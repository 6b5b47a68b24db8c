/** The handler compares the low 32 bits of its count (src/api/enroll.rs:84). This decides exactly for
    which quotas and numbers of concurrent handlers the sliding-window limit holds. */
module RateLimitExact {
  import opened Models
  import opened Keys
  import opened Manager
  import opened Refinement
  import opened Ownership
  import opened AuditLog
  import opened Enroll
  import opened RateLimit
  import Redb
  import Policy
  import Tokens

  /** The limit of `RateLimit.SlidingWindowLimit`, for every run and window. */
  ghost predicate LimitHolds(quota: u32, k: nat)
    requires k > 0
  {
    forall y, actions, org, start: u64 ::
      Fresh(y, org, quota) && AllowedRun(y, actions, org, quota, k)
      ==> |Window(Log(After(y, actions).db, org), start)| <= Most(quota, k)
  }

  // --- A run that fills one hour ---

  /** A handler of an open formation that has its decision. */
  predicate Eager(p: Handler)
  {
    p.formation.policy == EnrollmentPolicy.Open && p.req.body.None?
    && p.who == Some(Identity(Policy.DEFAULT, "none", "anonymous")) && p.stamp.None?
  }

  /** The formation is in the store. */
  predicate Serves(db: Redb.Db, p: Handler)
  {
    Redb(db).Find(Formations, p.req.org, p.req.app) == Some(FormationRow(p.formation))
  }

  /** The handlers 0 to `w` - 1 wait, all like `p`. */
  ghost predicate Waits(inFlight: map<nat, Handler>, p: Handler, w: nat)
  {
    forall h :: (h in inFlight <==> 0 <= h < w) && (h in inFlight ==> inFlight[h] == p)
  }

  /** The organization has logged `n` entries, all at time 0, under ids shorter than `n`. */
  ghost predicate Filled(db: Redb.Db, org: string, n: nat)
  {
    |Log(db, org)| == n && forall e :: e in Log(db, org) ==> |e.auditId| < n && e.timestampMs == 0
  }

  /** At time 0: `n` entries logged, and `w` handlers about to log theirs. */
  ghost predicate Mid(y: Sys, p: Handler, quota: u32, n: nat, w: nat)
  {
    && Eager(p) && p.req.org in y.db.orgs && Serves(y.db, p) && Sound(y, p.req.org, quota) && y.clock == 0
    && Waits(y.inFlight, p, w) && |Pending(y, p.req.org)| == w
    && Filled(y.db, p.req.org, n)
  }

  lemma CountsWholeLog(db: Redb.Db, org: string, n: nat)
    requires AuditFiled(db) && NulFree(org) && |Log(db, org)| == n <= USIZE_MAX
    ensures CountRecent(db, org, HourBefore(0)) == n
  {
    CountRecentMeaning(db, org, 0);
  }

  lemma GateAtOpens(db: Redb.Db, p: Handler, quota: u32, n: nat)
    requires p.req.org in db.orgs && db.orgs[p.req.org].quotas.maxEnrollmentsPerHour == quota
    requires Eager(p) && Serves(db, p) && AsU32(n) < quota
    ensures GateAt(db, p.req, n) == Pass(p.formation)
  {
  }

  lemma GateOpens(db: Redb.Db, p: Handler, quota: u32, n: nat)
    requires AuditFiled(db) && NulFree(p.req.org) && p.req.org in db.orgs && Eager(p) && Serves(db, p)
    requires db.orgs[p.req.org].quotas.maxEnrollmentsPerHour == quota
    requires |Log(db, p.req.org)| == n <= USIZE_MAX && AsU32(n) < quota
    ensures Gate(db, p.req, 0) == Pass(p.formation)
  {
    CountsWholeLog(db, p.req.org, n);
    GateAtOpens(db, p, quota, n);
  }

  lemma EnteredState(y: Sys, h: nat, p: Handler)
    requires h !in y.inFlight && Eager(p) && Gate(y.db, p.req, y.clock) == Pass(p.formation)
    ensures Next(y, Begin(h, p.req, y.clock)) == y.(inFlight := y.inFlight[h := p.(who := None)])
    ensures Next(Next(y, Begin(h, p.req, y.clock)), Decide(h, None)) == y.(inFlight := y.inFlight[h := p])
  {
    assert y.inFlight[h := p.(who := None)][h := p] == y.inFlight[h := p];
  }

  lemma MidJoined(y: Sys, p: Handler, quota: u32, n: nat, w: nat)
    requires Mid(y, p, quota, n, w)
    ensures Mid(y.(inFlight := y.inFlight[w := p]), p, quota, n, w + 1)
  {
    JoinPending(y, w, p, p.req.org);
  }

  /** One more handler passes the gate and decides. */
  lemma Enters(y: Sys, p: Handler, quota: u32, n: nat, w: nat)
    requires Mid(y, p, quota, n, w) && n <= USIZE_MAX && AsU32(n) < quota
    ensures var begun := Next(y, Begin(w, p.req, 0));
            |Pending(begun, p.req.org)| == w + 1 && Mid(Next(begun, Decide(w, None)), p, quota, n, w + 1)
  {
    GateOpens(y.db, p, quota, n);
    EnteredState(y, w, p);
    JoinPending(y, w, p.(who := None), p.req.org);
    MidJoined(y, p, quota, n, w);
  }

  function Name(n: nat): (s: string)
    ensures |s| == n
  {
    seq(n, _ => 'x')
  }

  lemma FilledPlus(db: Redb.Db, e: AuditEntry, n: nat)
    requires AuditFiled(db) && NulFree(e.orgId) && Filled(db, e.orgId, n)
    requires |e.auditId| == n && e.timestampMs == 0
    ensures Filled(Appended(db, e), e.orgId, n + 1)
  {
    assert Tokens.FreshEntry(db, e.orgId, e.auditId) by {
      forall x | HasEntry(db, x) && x.orgId == e.orgId ensures x.auditId != e.auditId { assert x in Log(db, e.orgId); }
    }
    Tokens.AppendedExact(db, e, e.orgId);
  }

  lemma LoggedState(y: Sys, h: nat, p: Handler, id: string)
    requires h in y.inFlight && y.inFlight[h] == p && p.who.Some? && p.stamp.None?
    ensures Next(y, Stamp(h)) == y.(inFlight := y.inFlight[h := p.(stamp := Some(y.clock))])
    ensures Next(Next(y, Stamp(h)), Append(h, id, true))
            == y.(db := Appended(y.db, Entry(p.req, p.who.value, id, y.clock)), inFlight := y.inFlight - {h})
  {
    assert y.inFlight[h := p.(stamp := Some(y.clock))] - {h} == y.inFlight - {h};
  }

  lemma LeavePending(y: Sys, h: nat, org: string)
    requires h in y.inFlight && y.inFlight[h].req.org == org
    ensures |Pending(y.(inFlight := y.inFlight - {h}), org)| == |Pending(y, org)| - 1
  {
    assert Pending(y.(inFlight := y.inFlight - {h}), org) == Pending(y, org) - {h} && h in Pending(y, org);
  }

  lemma MidLogged(y: Sys, p: Handler, quota: u32, n: nat, w: nat, e: AuditEntry)
    requires Mid(y, p, quota, n, w) && w > 0 && e.orgId == p.req.org && |e.auditId| == n && e.timestampMs == 0
    ensures Mid(y.(db := Appended(y.db, e), inFlight := y.inFlight - {w - 1}), p, quota, n + 1, w - 1)
  {
    FilledPlus(y.db, e, n);
    AppendedSound(y, e, p.req.org, quota);
    LeavePending(y, w - 1, p.req.org);
  }

  lemma StampedPending(y: Sys, h: nat, stamp: u64, org: string)
    requires h in y.inFlight
    ensures Pending(y.(inFlight := y.inFlight[h := y.inFlight[h].(stamp := Some(stamp))]), org) == Pending(y, org)
  {
  }

  /** The last handler logs its entry and leaves. */
  lemma Logs(y: Sys, p: Handler, quota: u32, n: nat, w: nat)
    requires Mid(y, p, quota, n, w) && w > 0
    ensures var stamped := Next(y, Stamp(w - 1));
            |Pending(stamped, p.req.org)| == w && Mid(Next(stamped, Append(w - 1, Name(n), true)), p, quota, n + 1, w - 1)
  {
    LoggedState(y, w - 1, p, Name(n));
    StampedPending(y, w - 1, y.clock, p.req.org);
    MidLogged(y, p, quota, n, w, Entry(p.req, p.who.value, Name(n), 0));
  }

  /** An allowed run from `y` that gets there. */
  ghost predicate Gets(y: Sys, actions: seq<Action>, p: Handler, quota: u32, k: nat, n: nat, w: nat)
  {
    AllowedRun(y, actions, p.req.org, quota, k) && Mid(After(y, actions), p, quota, n, w)
  }

  lemma {:induction false} OneMore(y: Sys, actions: seq<Action>, a: Action, org: string, quota: u32, k: nat)
    requires AllowedRun(y, actions, org, quota, k)
    requires Allowed(After(y, actions), a, org, quota) && |Pending(Next(After(y, actions), a), org)| <= k
    ensures AllowedRun(y, actions + [a], org, quota, k) && After(y, actions + [a]) == Next(After(y, actions), a)
    decreases |actions|
  {
    var all := actions + [a];
    if actions == [] {
      assert all == [a] && all[1..] == [];
    } else {
      assert all[0] == actions[0] && all[1..] == actions[1..] + [a];
      OneMore(Next(y, actions[0]), actions[1..], a, org, quota, k);
    }
  }

  lemma ThenEnter(y: Sys, actions: seq<Action>, p: Handler, quota: u32, k: nat, n: nat, w: nat)
    returns (more: seq<Action>)
    requires Gets(y, actions, p, quota, k, n, w) && w + 1 <= k && n <= USIZE_MAX && AsU32(n) < quota
    ensures Gets(y, more, p, quota, k, n, w + 1)
  {
    Enters(After(y, actions), p, quota, n, w);
    OneMore(y, actions, Begin(w, p.req, 0), p.req.org, quota, k);
    OneMore(y, actions + [Begin(w, p.req, 0)], Decide(w, None), p.req.org, quota, k);
    more := actions + [Begin(w, p.req, 0)] + [Decide(w, None)];
  }

  lemma ThenLog(y: Sys, actions: seq<Action>, p: Handler, quota: u32, k: nat, n: nat, w: nat)
    returns (more: seq<Action>)
    requires Gets(y, actions, p, quota, k, n, w) && 0 < w <= k
    ensures Gets(y, more, p, quota, k, n + 1, w - 1)
  {
    Logs(After(y, actions), p, quota, n, w);
    OneMore(y, actions, Stamp(w - 1), p.req.org, quota, k);
    OneMore(y, actions + [Stamp(w - 1)], Append(w - 1, Name(n), true), p.req.org, quota, k);
    more := actions + [Stamp(w - 1)] + [Append(w - 1, Name(n), true)];
  }

  lemma AllEnter(y: Sys, actions: seq<Action>, p: Handler, quota: u32, k: nat, n: nat, m: nat)
    returns (more: seq<Action>)
    requires Gets(y, actions, p, quota, k, n, 0) && m <= k && n <= USIZE_MAX && AsU32(n) < quota
    ensures Gets(y, more, p, quota, k, n, m)
  {
    more := actions;
    for w := 0 to m
      invariant Gets(y, more, p, quota, k, n, w)
    {
      more := ThenEnter(y, more, p, quota, k, n, w);
    }
  }

  lemma AllLog(y: Sys, actions: seq<Action>, p: Handler, quota: u32, k: nat, n: nat, m: nat)
    returns (more: seq<Action>)
    requires Gets(y, actions, p, quota, k, n, m) && m <= k
    ensures Gets(y, more, p, quota, k, n + m, 0)
  {
    more := actions;
    for i := 0 to m
      invariant Gets(y, more, p, quota, k, n + i, m - i)
    {
      more := ThenLog(y, more, p, quota, k, n + i, m - i);
    }
  }

  /** `m` handlers count `n` entries together, and then all log theirs. */
  lemma ThenBatch(y: Sys, actions: seq<Action>, p: Handler, quota: u32, k: nat, n: nat, m: nat)
    returns (more: seq<Action>)
    requires Gets(y, actions, p, quota, k, n, 0) && m <= k && n <= USIZE_MAX && AsU32(n) < quota
    ensures Gets(y, more, p, quota, k, n + m, 0)
  {
    more := AllEnter(y, actions, p, quota, k, n, m);
    more := AllLog(y, more, p, quota, k, n, m);
  }

  lemma OneByOne(y: Sys, p: Handler, quota: u32, k: nat, n: nat) returns (actions: seq<Action>)
    requires Gets(y, [], p, quota, k, 0, 0) && k > 0 && n <= quota
    ensures Gets(y, actions, p, quota, k, n, 0)
  {
    actions := [];
    for i := 0 to n
      invariant Gets(y, actions, p, quota, k, i, 0)
    {
      actions := ThenBatch(y, actions, p, quota, k, i, 1);
    }
  }

  function Initial(org: string, p: Handler, quota: u32): Sys
  {
    Sys(Redb.Db(map[org := Organization(org, "x", DEFAULT_QUOTAS.(maxEnrollmentsPerHour := quota), 0)],
                map[(Formations, Key(org, p.req.app)) := FormationRow(p.formation)], map[]),
        0, map[])
  }

  lemma InitialIsMid(p: Handler, quota: u32)
    requires Eager(p) && ValidIdentifier(p.req.org) && p.formation.appId == p.req.app
    ensures var y := Initial(p.req.org, p, quota);
            Mid(y, p, quota, 0, 0) && Fresh(y, p.req.org, quota)
  {
    var y := Initial(p.req.org, p, quota);
    assert Filed(Formations, p.req.org, p.req.app, FormationRow(p.formation));
    assert Lives(y.db.orgs, Formations, Key(p.req.org, p.req.app), FormationRow(p.formation));
    assert forall e :: !HasEntry(y.db, e);
  }

  const WRAP: nat := 0x1_0000_0000

  lemma FullWindow(db: Redb.Db, org: string, n: nat)
    requires Filled(db, org, n)
    ensures |Window(Log(db, org), 0)| == n
  {
    assert Window(Log(db, org), 0) == Log(db, org);
  }

  lemma BelowWrap(n: nat, quota: u32)
    requires n + 1 == quota
    ensures n <= USIZE_MAX && AsU32(n) < quota
  {
  }

  lemma ThenWrap(y: Sys, actions: seq<Action>, p: Handler, quota: u32, k: nat) returns (more: seq<Action>)
    requires quota > 0 && quota + k > WRAP && Gets(y, actions, p, quota, k, quota - 1, 0)
    ensures Gets(y, more, p, quota, k, WRAP, 0)
  {
    var n: nat, m: nat := quota - 1, WRAP - (quota - 1);
    BelowWrap(n, quota);
    more := ThenBatch(y, actions, p, quota, k, n, m);
    assert n + m == WRAP;
  }

  /** Once the count reaches 2^32 it reads as 0, and the gate opens again. */
  lemma ThenOver(y: Sys, actions: seq<Action>, p: Handler, quota: u32, k: nat) returns (more: seq<Action>)
    requires quota > 0 && Gets(y, actions, p, quota, k, WRAP, 0)
    ensures Gets(y, more, p, quota, k, WRAP + k, 0)
  {
    more := ThenBatch(y, actions, p, quota, k, WRAP, k);
  }

  lemma OverfullRun(y: Sys, p: Handler, quota: u32, k: nat) returns (actions: seq<Action>)
    requires Gets(y, [], p, quota, k, 0, 0) && k > 0 && quota > 0 && quota + k > WRAP
    ensures Gets(y, actions, p, quota, k, WRAP + k, 0)
  {
    actions := OneByOne(y, p, quota, k, quota - 1);
    actions := ThenWrap(y, actions, p, quota, k);
    actions := ThenOver(y, actions, p, quota, k);
  }

  lemma OverfullHour(quota: u32, k: nat)
    requires k > 0 && quota > 0 && quota + k > WRAP
    ensures !LimitHolds(quota, k)
  {
    var p := Handler(Request("o", "a", None, None), FormationConfig("a", "mesh", EnrollmentPolicy.Open),
                     Some(Identity(Policy.DEFAULT, "none", "anonymous")), None);
    Overfull(p, quota, k);
  }

  lemma Overfull(p: Handler, quota: u32, k: nat)
    requires Eager(p) && ValidIdentifier(p.req.org) && p.formation.appId == p.req.app
    requires k > 0 && quota > 0 && quota + k > WRAP
    ensures !LimitHolds(quota, k)
  {
    var y := Initial(p.req.org, p, quota);
    InitialIsMid(p, quota);
    var actions := OverfullRun(y, p, quota, k);
    FullWindow(After(y, actions).db, p.req.org, WRAP + k);
  }

  /** The sliding-window limit holds exactly when quota + k - 1 fits 32 bits (or the quota is 0); in
      particular it always holds for handlers that run one at a time. */
  lemma LimitHoldsIff(quota: u32, k: nat)
    requires k > 0
    ensures LimitHolds(quota, k) <==> quota == 0 || quota + k <= WRAP
  {
    if quota == 0 || quota + k <= WRAP {
      forall y, actions, org, start: u64 |
        Fresh(y, org, quota) && AllowedRun(y, actions, org, quota, k)
        ensures |Window(Log(After(y, actions).db, org), start)| <= Most(quota, k)
      {
        SlidingWindowLimit(y, actions, org, quota, k, start);
      }
    } else {
      OverfullHour(quota, k);
    }
  }
}
