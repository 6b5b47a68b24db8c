/** The hourly enrollment limit under interleaved handlers (src/api/enroll.rs): other handlers and
    administrators act between a handler's count, its decision and its audit entry. */
module RateLimit {
  import opened Models
  import opened Lex
  import opened Keys
  import opened Manager
  import opened Refinement
  import opened Ownership
  import opened AuditLog
  import opened Enroll
  import Redb
  import Policy

  // --- Sliding windows over a log ---

  /** The entries of the closed window of one hour that starts at `start`. */
  ghost function Window(log: set<AuditEntry>, start: u64): set<AuditEntry>
  {
    set e | e in log && start <= e.timestampMs <= start + 3_600_000
  }

  ghost function From(log: set<AuditEntry>, sinceMs: u64): set<AuditEntry>
  {
    set e | e in log && sinceMs <= e.timestampMs
  }

  /** The handlers whose stamp, the timestamp of an entry they have yet to append, is in the window. */
  ghost function StampsIn(stamps: map<nat, u64>, start: u64): set<nat>
  {
    set h | h in stamps && start <= stamps[h] <= start + 3_600_000
  }

  /** Every window has room for its entries, for the entries still to be appended to it, and, while it
      is open, for the `waiting` handlers that have passed the count and not read the clock. */
  ghost predicate Bound(log: set<AuditEntry>, stamps: map<nat, u64>, waiting: nat, clock: u64, bound: nat)
  {
    && (forall e :: e in log ==> e.timestampMs <= clock)
    && (forall h :: h in stamps ==> stamps[h] <= clock)
    && (forall start: u64 :: |Window(log, start)| + |StampsIn(stamps, start)|
                             + (if start + 3_600_000 >= clock then waiting else 0) <= bound)
  }

  lemma BoundLater(log: set<AuditEntry>, stamps: map<nat, u64>, waiting: nat, clock: u64, clock': u64, bound: nat)
    requires Bound(log, stamps, waiting, clock, bound) && clock <= clock'
    ensures Bound(log, stamps, waiting, clock', bound)
  {
  }

  lemma BoundShrinks(log: set<AuditEntry>, log': set<AuditEntry>, stamps: map<nat, u64>, stamps': map<nat, u64>,
                     waiting: nat, waiting': nat, clock: u64, bound: nat)
    requires Bound(log, stamps, waiting, clock, bound) && log' <= log && waiting' <= waiting
    requires forall h :: h in stamps' ==> h in stamps && stamps'[h] == stamps[h]
    ensures Bound(log', stamps', waiting', clock, bound)
  {
    forall start: u64
      ensures |Window(log', start)| <= |Window(log, start)| && |StampsIn(stamps', start)| <= |StampsIn(stamps, start)|
    {
      SubsetSize(Window(log', start), Window(log, start));
      SubsetSize(StampsIn(stamps', start), StampsIn(stamps, start));
    }
  }

  /** A handler passes the count. */
  lemma BoundAdmits(log: set<AuditEntry>, stamps: map<nat, u64>, waiting: nat, clock: u64, bound: nat)
    requires Bound(log, stamps, waiting, clock, bound)
    requires |From(log, HourBefore(clock))| + |stamps| + waiting + 1 <= bound
    ensures Bound(log, stamps, waiting + 1, clock, bound)
  {
    forall start: u64 | start + 3_600_000 >= clock
      ensures |Window(log, start)| + |StampsIn(stamps, start)| + waiting + 1 <= bound
    {
      SubsetSize(Window(log, start), From(log, HourBefore(clock)));
      SubsetSize(StampsIn(stamps, start), stamps.Keys);
    }
  }

  /** A waiting handler reads the clock. */
  lemma BoundStamps(log: set<AuditEntry>, stamps: map<nat, u64>, waiting: nat, clock: u64, bound: nat, h: nat)
    requires Bound(log, stamps, waiting, clock, bound) && waiting > 0 && h !in stamps
    ensures Bound(log, stamps[h := clock], waiting - 1, clock, bound)
  {
    forall start: u64
      ensures |StampsIn(stamps[h := clock], start)| + (if start + 3_600_000 >= clock then waiting - 1 else 0)
              <= |StampsIn(stamps, start)| + (if start + 3_600_000 >= clock then waiting else 0)
    {
      StampsPlus(stamps, h, clock, start);
    }
  }

  lemma StampsPlus(stamps: map<nat, u64>, h: nat, clock: u64, start: u64)
    requires h !in stamps
    ensures |StampsIn(stamps[h := clock], start)|
            == |StampsIn(stamps, start)| + if start <= clock <= start + 3_600_000 then 1 else 0
  {
    assert StampsIn(stamps[h := clock], start)
        == StampsIn(stamps, start) + if start <= clock <= start + 3_600_000 then {h} else {};
  }

  /** A stamped handler appends its entry. */
  lemma BoundRecords(log: set<AuditEntry>, stamps: map<nat, u64>, waiting: nat, clock: u64, bound: nat, h: nat, e: AuditEntry)
    requires Bound(log, stamps, waiting, clock, bound) && h in stamps && e.timestampMs == stamps[h]
    ensures Bound(log + {e}, stamps - {h}, waiting, clock, bound)
  {
    forall start: u64
      ensures |Window(log + {e}, start)| + |StampsIn(stamps - {h}, start)|
              <= |Window(log, start)| + |StampsIn(stamps, start)|
    {
      WindowPlus(log, e, start);
      assert StampsIn(stamps - {h}, start) == StampsIn(stamps, start) - {h};
      assert start <= stamps[h] <= start + 3_600_000 ==> h in StampsIn(stamps, start);
    }
  }

  lemma WindowPlus(log: set<AuditEntry>, e: AuditEntry, start: u64)
    ensures |Window(log + {e}, start)|
            <= |Window(log, start)| + if start <= e.timestampMs <= start + 3_600_000 then 1 else 0
  {
    assert Window(log + {e}, start)
        == Window(log, start) + if start <= e.timestampMs <= start + 3_600_000 then {e} else {};
  }

  // --- Interleaved handlers ---

  /** A handler past the gate; `who` once it has its decision, `stamp` once it has read the clock for
      its audit entry. */
  datatype Handler = Handler(req: Request, formation: FormationConfig, who: Option<Identity>, stamp: Option<u64>)

  datatype Sys = Sys(db: Redb.Db, clock: u64, inFlight: map<nat, Handler>)

  datatype Action =
    | Tick(now: u64)
    | Begin(h: nat, req: Request, now: u64)            // count what is recent as of the reading `now`
    | Decide(h: nat, introspection: Option<Policy.Claims>)
    | Stamp(h: nat)                                    // build_audit
    | Append(h: nat, auditId: string, appendOk: bool)  // append_audit
    | Abandon(h: nat)
    | Admin(s: Session, op: Op)

  function Begun(y: Sys, h: nat, req: Request, gate: Outcome<FormationConfig>): Sys
  {
    if h in y.inFlight || gate.Fail? then y
    else y.(inFlight := y.inFlight[h := Handler(req, gate.value, None, None)])
  }

  function Next(y: Sys, a: Action): Sys
  {
    match a
    case Tick(now) => if now >= y.clock then y.(clock := now) else y
    case Begin(h, req, now) => if now <= y.clock then Begun(y, h, req, Gate(y.db, req, now)) else y
    case Decide(h, introspection) =>
      if h !in y.inFlight || y.inFlight[h].who.Some? then y
      else
        var p := y.inFlight[h];
        var (db', outcome) := Identify(y.db, p.formation, p.req, y.clock, introspection);
        (match outcome
         case Pass(who) => y.(db := db', inFlight := y.inFlight[h := p.(who := Some(who))])
         case Fail(_) => y.(db := db', inFlight := y.inFlight - {h}))
    case Stamp(h) =>
      if h !in y.inFlight || y.inFlight[h].who.None? || y.inFlight[h].stamp.Some? then y
      else y.(inFlight := y.inFlight[h := y.inFlight[h].(stamp := Some(y.clock))])
    case Append(h, auditId, appendOk) =>
      if h !in y.inFlight || y.inFlight[h].who.None? || y.inFlight[h].stamp.None? then y
      else
        var p := y.inFlight[h];
        y.(db := if appendOk then Appended(y.db, Entry(p.req, p.who.value, auditId, p.stamp.value)) else y.db,
           inFlight := y.inFlight - {h})
    case Abandon(h) => y.(inFlight := y.inFlight - {h})
    case Admin(s, op) =>
      var b := Step(s, Redb(y.db), op).0;
      if b.Redb? then y.(db := b.db) else y
  }

  /** The organization's handlers between count and append. */
  ghost function Pending(y: Sys, org: string): set<nat>
  {
    set h | h in y.inFlight && y.inFlight[h].req.org == org
  }

  /** Those that have not read the clock, and the stamps of the others. */
  ghost function Waiting(y: Sys, org: string): set<nat>
  {
    set h | h in y.inFlight && y.inFlight[h].req.org == org && y.inFlight[h].stamp.None?
  }

  ghost function Stamps(y: Sys, org: string): map<nat, u64>
  {
    map h | h in y.inFlight && y.inFlight[h].req.org == org && y.inFlight[h].stamp.Some? :: y.inFlight[h].stamp.value
  }

  /** The quota is fixed, and only handlers append audit entries. Organizations may be deleted and
      created while handlers are in flight; this one is created anew only if new quotas are like it.
      A count may lag behind its clock reading as long as fewer than 2^32 entries fall in between. */
  ghost predicate Allowed(y: Sys, a: Action, org: string, quota: u32)
  {
    match a
    case Begin(_, req, now) =>
      req.org == org && now < y.clock ==> |From(Log(y.db, org), HourBefore(now))| < 0x1_0000_0000
    case Admin(_, op) =>
      && !op.AppendAudit?
      && (op.CreateOrg? && op.org == org && org !in y.db.orgs ==> DEFAULT_QUOTAS.maxEnrollmentsPerHour == quota)
      && (op.UpdateOrg? && op.org == org && op.newQuotas.Some? ==> op.newQuotas.value.maxEnrollmentsPerHour == quota)
    case _ => true
  }

  function Most(quota: u32, k: nat): nat
    requires k > 0
  {
    if quota == 0 then 0 else quota + k - 1
  }

  ghost predicate QuotaIs(db: Redb.Db, org: string, quota: u32)
  {
    org in db.orgs ==> db.orgs[org].quotas.maxEnrollmentsPerHour == quota
  }

  ghost predicate Sound(y: Sys, org: string, quota: u32)
  {
    && Owned(y.db) && AuditFiled(y.db) && NulFree(org) && QuotaIs(y.db, org, quota)
    && (forall h :: h in y.inFlight ==> NulFree(y.inFlight[h].req.org))
  }

  ghost predicate Inv(y: Sys, org: string, quota: u32, k: nat)
    requires k > 0
  {
    Sound(y, org, quota) && Bound(Log(y.db, org), Stamps(y, org), |Waiting(y, org)|, y.clock, Most(quota, k))
  }

  lemma AppendedLog(db: Redb.Db, e: AuditEntry, org: string)
    ensures Log(Appended(db, e), org) <= Log(db, org) + if e.orgId == org then {e} else {}
  {
    forall x | HasEntry(Appended(db, e), x) && !HasEntry(db, x) ensures x == e {
    }
  }

  /** A handler is waiting or stamped. */
  lemma PendingParts(y: Sys, org: string)
    ensures |Pending(y, org)| == |Stamps(y, org)| + |Waiting(y, org)|
  {
    assert Pending(y, org) == Stamps(y, org).Keys + Waiting(y, org);
  }

  // --- Each action ---

  /** The handler counts the organization's entries of the last hour. */
  lemma CountIsExact(db: Redb.Db, org: string, sinceMs: u64)
    requires AuditFiled(db) && NulFree(org) && |From(Log(db, org), sinceMs)| < 0x1_0000_0000
    ensures CountRecent(db, org, sinceMs) == |From(Log(db, org), sinceMs)|
  {
    CountRecentMeaning(db, org, sinceMs);
    assert Recent(db, org, sinceMs) == From(Log(db, org), sinceMs);
  }

  lemma GateAtCounts(db: Redb.Db, req: Request, recent: nat)
    requires GateAt(db, req, recent).Pass? && recent < 0x1_0000_0000
    ensures req.org in db.orgs && recent < db.orgs[req.org].quotas.maxEnrollmentsPerHour
  {
  }

  /** A request that passes the gate finds fewer recent entries than the quota. */
  lemma GateCounts(db: Redb.Db, req: Request, now: u64, bound: nat)
    requires AuditFiled(db) && NulFree(req.org) && Gate(db, req, now).Pass?
    requires |From(Log(db, req.org), HourBefore(now))| <= bound < 0x1_0000_0000
    ensures req.org in db.orgs
            && |From(Log(db, req.org), HourBefore(now))| < db.orgs[req.org].quotas.maxEnrollmentsPerHour
  {
    CountIsExact(db, req.org, HourBefore(now));
    GateAtCounts(db, req, CountRecent(db, req.org, HourBefore(now)));
  }

  lemma RecentWithin(log: set<AuditEntry>, stamps: map<nat, u64>, waiting: nat, clock: u64, bound: nat)
    requires Bound(log, stamps, waiting, clock, bound)
    ensures |From(log, HourBefore(clock))| <= bound
  {
    assert From(log, HourBefore(clock)) == Window(log, HourBefore(clock));
  }

  lemma JoinWaiting(y: Sys, h: nat, p: Handler, org: string)
    requires h !in y.inFlight && p.stamp.None?
    ensures |Waiting(y.(inFlight := y.inFlight[h := p]), org)| == |Waiting(y, org)| + if p.req.org == org then 1 else 0
  {
    var y' := y.(inFlight := y.inFlight[h := p]);
    if p.req.org == org {
      assert Waiting(y', org) == Waiting(y, org) + {h};
    } else {
      assert Waiting(y', org) == Waiting(y, org);
    }
  }

  lemma JoinStamps(y: Sys, h: nat, p: Handler, org: string)
    requires h !in y.inFlight && p.stamp.None?
    ensures Stamps(y.(inFlight := y.inFlight[h := p]), org) == Stamps(y, org)
  {
  }

  lemma LeaveParts(y: Sys, h: nat, org: string)
    ensures var y' := y.(inFlight := y.inFlight - {h});
            Stamps(y', org) == Stamps(y, org) - {h} && Waiting(y', org) == Waiting(y, org) - {h}
            && |Waiting(y', org)| <= |Waiting(y, org)|
  {
    SubsetSize(Waiting(y, org) - {h}, Waiting(y, org));
  }

  lemma AdmitKeeps(y: Sys, org: string, quota: u32, k: nat)
    requires k > 0 && Inv(y, org, quota, k)
    requires |From(Log(y.db, org), HourBefore(y.clock))| < quota && |Pending(y, org)| + 1 <= k
    ensures Bound(Log(y.db, org), Stamps(y, org), |Waiting(y, org)| + 1, y.clock, Most(quota, k))
  {
    PendingParts(y, org);
    BoundAdmits(Log(y.db, org), Stamps(y, org), |Waiting(y, org)|, y.clock, Most(quota, k));
  }

  lemma JoinKeeps(y: Sys, h: nat, p: Handler, org: string, quota: u32, k: nat)
    requires k > 0 && Inv(y, org, quota, k) && h !in y.inFlight && p.stamp.None? && NulFree(p.req.org)
    requires p.req.org == org ==> Bound(Log(y.db, org), Stamps(y, org), |Waiting(y, org)| + 1, y.clock, Most(quota, k))
    ensures Inv(y.(inFlight := y.inFlight[h := p]), org, quota, k)
  {
    JoinStamps(y, h, p, org);
    JoinWaiting(y, h, p, org);
  }

  lemma JoinPending(y: Sys, h: nat, p: Handler, org: string)
    requires h !in y.inFlight && p.req.org == org
    ensures |Pending(y.(inFlight := y.inFlight[h := p]), org)| == |Pending(y, org)| + 1
  {
    assert Pending(y.(inFlight := y.inFlight[h := p]), org) == Pending(y, org) + {h};
  }

  lemma BegunKeeps(y: Sys, h: nat, req: Request, gate: Outcome<FormationConfig>, org: string, quota: u32, k: nat)
    requires k > 0 && Inv(y, org, quota, k)
    requires gate.Pass? ==> NulFree(req.org)
    requires gate.Pass? && req.org == org ==> |From(Log(y.db, org), HourBefore(y.clock))| < quota
    requires |Pending(Begun(y, h, req, gate), org)| <= k
    ensures Inv(Begun(y, h, req, gate), org, quota, k)
  {
    if h !in y.inFlight && gate.Pass? {
      var p := Handler(req, gate.value, None, None);
      if req.org == org {
        JoinPending(y, h, p, org);
        AdmitKeeps(y, org, quota, k);
      }
      JoinKeeps(y, h, p, org, quota, k);
    }
  }

  /** A count as of an earlier reading covers the last hour, and more. */
  lemma EarlierCovers(log: set<AuditEntry>, now: u64, clock: u64)
    requires now <= clock
    ensures |From(log, HourBefore(clock))| <= |From(log, HourBefore(now))|
  {
    SubsetSize(From(log, HourBefore(clock)), From(log, HourBefore(now)));
  }

  /** A request that passes the gate, with a count that does not wrap, leaves room in the last hour. */
  lemma GateLeavesRoom(db: Redb.Db, req: Request, now: u64, clock: u64)
    requires AuditFiled(db) && NulFree(req.org) && now <= clock && Gate(db, req, now).Pass?
    requires |From(Log(db, req.org), HourBefore(now))| < 0x1_0000_0000
    ensures req.org in db.orgs
            && |From(Log(db, req.org), HourBefore(clock))| < db.orgs[req.org].quotas.maxEnrollmentsPerHour
  {
    GateCounts(db, req, now, |From(Log(db, req.org), HourBefore(now))|);
    EarlierCovers(Log(db, req.org), now, clock);
  }

  lemma AdmittedIsNamed(db: Redb.Db, req: Request, now: u64)
    requires Owned(db) && Gate(db, req, now).Pass?
    ensures NulFree(req.org)
  {
    GateIsLive(db, req, CountRecent(db, req.org, HourBefore(now)));
  }

  /** A count at its clock reading sees what the bound allows; a late one, what is granted. */
  lemma ReadingSeesFew(log: set<AuditEntry>, stamps: map<nat, u64>, waiting: nat, now: u64, clock: u64, bound: nat)
    requires Bound(log, stamps, waiting, clock, bound) && bound < 0x1_0000_0000 && now <= clock
    requires now < clock ==> |From(log, HourBefore(now))| < 0x1_0000_0000
    ensures |From(log, HourBefore(now))| < 0x1_0000_0000
  {
    if now == clock { RecentWithin(log, stamps, waiting, clock, bound); }
  }

  lemma GateFinds(y: Sys, req: Request, now: u64, quota: u32, k: nat)
    requires k > 0 && Inv(y, req.org, quota, k)
    requires now <= y.clock && Gate(y.db, req, now).Pass?
    requires |From(Log(y.db, req.org), HourBefore(now))| < 0x1_0000_0000
    ensures |From(Log(y.db, req.org), HourBefore(y.clock))| < quota
  {
    GateLeavesRoom(y.db, req, now, y.clock);
  }

  lemma BeginKeeps(y: Sys, h: nat, req: Request, now: u64, org: string, quota: u32, k: nat)
    requires k > 0 && Most(quota, k) < 0x1_0000_0000 && Inv(y, org, quota, k)
    requires Allowed(y, Begin(h, req, now), org, quota) && |Pending(Next(y, Begin(h, req, now)), org)| <= k
    ensures Inv(Next(y, Begin(h, req, now)), org, quota, k)
  {
    if now <= y.clock {
      var gate := Gate(y.db, req, now);
      if gate.Pass? {
        AdmittedIsNamed(y.db, req, now);
        if req.org == org {
          ReadingSeesFew(Log(y.db, org), Stamps(y, org), |Waiting(y, org)|, now, y.clock, Most(quota, k));
          GateFinds(y, req, now, quota, k);
        }
      }
      BegunKeeps(y, h, req, gate, org, quota, k);
    }
  }

  lemma SameLogsFiled(db: Redb.Db, b: Backend)
    requires AuditFiled(db) && SameLogs(db, b)
    ensures AuditFiled(b.db)
  {
  }

  lemma ByTokenKeepsLogs(db: Redb.Db, req: Request, bearer: string, now: u64)
    requires Owned(db)
    ensures var db' := ByToken(db, req, bearer, now).0; Owned(db') && SameLogs(db, Redb(db')) && db'.orgs == db.orgs
  {
    var op := ConsumeToken(req.org, req.app, bearer, now);
    ChangeTokenOwned(db, op);
    ChangeTokenSameLogs(db, op);
  }

  lemma IdentifyKeepsLogs(db: Redb.Db, f: FormationConfig, req: Request, now: u64, introspection: Option<Policy.Claims>)
    requires Owned(db)
    ensures var db' := Identify(db, f, req, now, introspection).0;
            Owned(db') && SameLogs(db, Redb(db')) && db'.orgs == db.orgs
  {
    var bearer := Bearer(req);
    if bearer.Some? { ByTokenKeepsLogs(db, req, bearer.value, now); }
  }

  /** The parts of the invariant when the store changes but not its log, and a handler decides or leaves. */
  lemma DecidedParts(y: Sys, y': Sys, h: nat, org: string)
    requires h in y.inFlight && y.inFlight[h].who.None? && y.inFlight[h].stamp.None?
    requires y'.inFlight == y.inFlight - {h}
             || exists who :: y'.inFlight == y.inFlight[h := y.inFlight[h].(who := Some(who))]
    ensures Stamps(y', org) == Stamps(y, org) && |Waiting(y', org)| <= |Waiting(y, org)|
    ensures forall g :: g in y'.inFlight ==> g in y.inFlight && y'.inFlight[g].req == y.inFlight[g].req
  {
    assert Waiting(y', org) <= Waiting(y, org);
    SubsetSize(Waiting(y', org), Waiting(y, org));
  }

  /** A handler is stamped only after its decision. */
  ghost predicate Ordered(y: Sys)
  {
    forall h :: h in y.inFlight && y.inFlight[h].who.None? ==> y.inFlight[h].stamp.None?
  }

  lemma NextOrdered(y: Sys, a: Action)
    requires Ordered(y)
    ensures Ordered(Next(y, a))
  {
  }

  lemma DecideKeeps(y: Sys, h: nat, introspection: Option<Policy.Claims>, org: string, quota: u32, k: nat)
    requires k > 0 && Inv(y, org, quota, k) && Ordered(y)
    ensures Inv(Next(y, Decide(h, introspection)), org, quota, k)
  {
    if h in y.inFlight && y.inFlight[h].who.None? {
      var y' := Next(y, Decide(h, introspection));
      var p := y.inFlight[h];
      IdentifyKeepsLogs(y.db, p.formation, p.req, y.clock, introspection);
      SameLogsFiled(y.db, Redb(y'.db));
      SameAuditSameLog(y.db, Redb(y'.db), org);
      DecidedParts(y, y', h, org);
      BoundShrinks(Log(y.db, org), Log(y.db, org), Stamps(y, org), Stamps(y, org), |Waiting(y, org)|, |Waiting(y', org)|,
                   y.clock, Most(quota, k));
    }
  }

  lemma StampedParts(y: Sys, h: nat, org: string)
    requires h in y.inFlight && y.inFlight[h].stamp.None?
    ensures var y' := y.(inFlight := y.inFlight[h := y.inFlight[h].(stamp := Some(y.clock))]);
            if y.inFlight[h].req.org == org
            then Stamps(y', org) == Stamps(y, org)[h := y.clock] && h !in Stamps(y, org)
                 && |Waiting(y', org)| == |Waiting(y, org)| - 1
            else Stamps(y', org) == Stamps(y, org) && Waiting(y', org) == Waiting(y, org)
  {
    var y' := y.(inFlight := y.inFlight[h := y.inFlight[h].(stamp := Some(y.clock))]);
    if y.inFlight[h].req.org == org { assert Waiting(y', org) == Waiting(y, org) - {h} && h in Waiting(y, org); }
  }

  lemma StampOwnKeeps(y: Sys, h: nat, org: string, bound: nat)
    requires h in y.inFlight && y.inFlight[h].stamp.None? && y.inFlight[h].req.org == org
    requires Bound(Log(y.db, org), Stamps(y, org), |Waiting(y, org)|, y.clock, bound)
    ensures var y' := y.(inFlight := y.inFlight[h := y.inFlight[h].(stamp := Some(y.clock))]);
            Bound(Log(y.db, org), Stamps(y', org), |Waiting(y', org)|, y.clock, bound)
  {
    StampedParts(y, h, org);
    BoundStamps(Log(y.db, org), Stamps(y, org), |Waiting(y, org)|, y.clock, bound, h);
  }

  lemma StampKeeps(y: Sys, h: nat, org: string, quota: u32, k: nat)
    requires k > 0 && Inv(y, org, quota, k)
    ensures Inv(Next(y, Stamp(h)), org, quota, k)
  {
    if h in y.inFlight && y.inFlight[h].who.Some? && y.inFlight[h].stamp.None? {
      if y.inFlight[h].req.org == org {
        StampOwnKeeps(y, h, org, Most(quota, k));
      } else {
        StampedParts(y, h, org);
      }
    }
  }

  lemma AppendedSound(y: Sys, e: AuditEntry, org: string, quota: u32)
    requires Sound(y, org, quota) && NulFree(e.orgId)
    ensures Sound(y.(db := Appended(y.db, e)), org, quota)
  {
  }

  lemma RecordKeeps(db: Redb.Db, stamps: map<nat, u64>, waiting: nat, clock: u64, bound: nat, h: nat, e: AuditEntry,
                    org: string)
    requires Bound(Log(db, org), stamps, waiting, clock, bound)
    requires e.orgId == org ==> h in stamps && e.timestampMs == stamps[h]
    ensures Bound(Log(Appended(db, e), org), if e.orgId == org then stamps - {h} else stamps, waiting, clock, bound)
  {
    var log, log' := Log(db, org), Log(Appended(db, e), org);
    AppendedLog(db, e, org);
    if e.orgId == org {
      BoundRecords(log, stamps, waiting, clock, bound, h, e);
      BoundShrinks(log + {e}, log', stamps - {h}, stamps - {h}, waiting, waiting, clock, bound);
    } else {
      BoundShrinks(log, log', stamps, stamps, waiting, waiting, clock, bound);
    }
  }

  lemma LeaveKeeps(y: Sys, h: nat, org: string, quota: u32, k: nat)
    requires k > 0 && Inv(y, org, quota, k)
    ensures Inv(y.(inFlight := y.inFlight - {h}), org, quota, k)
  {
    var y' := y.(inFlight := y.inFlight - {h});
    LeaveParts(y, h, org);
    BoundShrinks(Log(y.db, org), Log(y.db, org), Stamps(y, org), Stamps(y', org), |Waiting(y, org)|, |Waiting(y', org)|,
                 y.clock, Most(quota, k));
  }

  lemma StampedLeaves(y: Sys, h: nat, org: string)
    requires h in y.inFlight && y.inFlight[h].stamp.Some?
    ensures var y' := y.(inFlight := y.inFlight - {h});
            Waiting(y', org) == Waiting(y, org)
            && Stamps(y', org) == if y.inFlight[h].req.org == org then Stamps(y, org) - {h} else Stamps(y, org)
  {
  }

  lemma AppendKeeps(y: Sys, h: nat, auditId: string, appendOk: bool, org: string, quota: u32, k: nat)
    requires k > 0 && Inv(y, org, quota, k)
    ensures Inv(Next(y, Append(h, auditId, appendOk)), org, quota, k)
  {
    if h in y.inFlight && y.inFlight[h].who.Some? && y.inFlight[h].stamp.Some? {
      if appendOk {
        var p := y.inFlight[h];
        var e := Entry(p.req, p.who.value, auditId, p.stamp.value);
        AppendedSound(y, e, org, quota);
        StampedLeaves(y, h, org);
        RecordKeeps(y.db, Stamps(y, org), |Waiting(y, org)|, y.clock, Most(quota, k), h, e, org);
      } else {
        LeaveKeeps(y, h, org, quota, k);
      }
    }
  }

  lemma AdminKeepsQuota(s: Session, db: Redb.Db, op: Op, org: string, quota: u32)
    requires Owned(db) && QuotaIs(db, org, quota)
    requires op.CreateOrg? && op.org == org && org !in db.orgs ==> DEFAULT_QUOTAS.maxEnrollmentsPerHour == quota
    requires op.UpdateOrg? && op.org == org && op.newQuotas.Some? ==>
               op.newQuotas.value.maxEnrollmentsPerHour == quota
    ensures var b := Step(s, Redb(db), op).0; b.Redb? && QuotaIs(b.db, org, quota)
  {
    if !op.CreateOrg? && !op.UpdateOrg? && !op.DeleteOrg? { OrgsKept(s, db, op); }
  }

  lemma AdminShrinksLog(s: Session, db: Redb.Db, op: Op, org: string)
    requires AuditFiled(db) && !op.AppendAudit?
    ensures var b := Step(s, Redb(db), op).0; b.Redb? && AuditFiled(b.db) && Log(b.db, org) <= Log(db, org)
  {
    LoudStep(s, db, op);
    if !op.DeleteOrg? && !op.SetCursor? {
      NoNewLogs(s, db, op);
      SameLogsFiled(db, Step(s, Redb(db), op).0);
      SameAuditSameLog(db, Step(s, Redb(db), op).0, org);
    }
  }

  lemma AdminSound(y: Sys, s: Session, op: Op, org: string, quota: u32)
    requires Sound(y, org, quota) && Allowed(y, Admin(s, op), org, quota)
    ensures var b := Step(s, Redb(y.db), op).0; b.Redb? && Sound(y.(db := b.db), org, quota)
  {
    StepOwned(s, y.db, op);
    AdminKeepsQuota(s, y.db, op, org, quota);
    AdminShrinksLog(s, y.db, op, org);
  }

  lemma SmallerLogKeeps(y: Sys, db: Redb.Db, org: string, quota: u32, k: nat)
    requires k > 0 && Inv(y, org, quota, k) && Sound(y.(db := db), org, quota) && Log(db, org) <= Log(y.db, org)
    ensures Inv(y.(db := db), org, quota, k)
  {
    assert Stamps(y.(db := db), org) == Stamps(y, org) && Waiting(y.(db := db), org) == Waiting(y, org);
    BoundShrinks(Log(y.db, org), Log(db, org), Stamps(y, org), Stamps(y, org), |Waiting(y, org)|, |Waiting(y, org)|,
                 y.clock, Most(quota, k));
  }

  lemma AdminKeeps(y: Sys, s: Session, op: Op, org: string, quota: u32, k: nat)
    requires k > 0 && Inv(y, org, quota, k) && Allowed(y, Admin(s, op), org, quota)
    ensures Inv(Next(y, Admin(s, op)), org, quota, k)
  {
    AdminSound(y, s, op, org, quota);
    AdminShrinksLog(s, y.db, op, org);
    SmallerLogKeeps(y, Step(s, Redb(y.db), op).0.db, org, quota, k);
  }

  lemma NextKeeps(y: Sys, a: Action, org: string, quota: u32, k: nat)
    requires k > 0 && Most(quota, k) < 0x1_0000_0000 && Ordered(y)
    requires Inv(y, org, quota, k) && Allowed(y, a, org, quota) && |Pending(Next(y, a), org)| <= k
    ensures Inv(Next(y, a), org, quota, k)
  {
    match a {
      case Tick(now) =>
        if now >= y.clock {
          assert Stamps(Next(y, a), org) == Stamps(y, org) && Waiting(Next(y, a), org) == Waiting(y, org);
          BoundLater(Log(y.db, org), Stamps(y, org), |Waiting(y, org)|, y.clock, now, Most(quota, k));
        }
      case Begin(h, req, now) => BeginKeeps(y, h, req, now, org, quota, k);
      case Decide(h, introspection) => DecideKeeps(y, h, introspection, org, quota, k);
      case Stamp(h) => StampKeeps(y, h, org, quota, k);
      case Append(h, auditId, appendOk) => AppendKeeps(y, h, auditId, appendOk, org, quota, k);
      case Abandon(h) => LeaveKeeps(y, h, org, quota, k);
      case Admin(s, op) => AdminKeeps(y, s, op, org, quota, k);
    }
  }

  function After(y: Sys, actions: seq<Action>): Sys
    decreases |actions|
  {
    if actions == [] then y else After(Next(y, actions[0]), actions[1..])
  }

  /** Every action is allowed, and never more than `k` handlers of the organization are in flight. */
  ghost predicate AllowedRun(y: Sys, actions: seq<Action>, org: string, quota: u32, k: nat)
    decreases |actions|
  {
    actions == [] || (Allowed(y, actions[0], org, quota) && |Pending(Next(y, actions[0]), org)| <= k
                      && AllowedRun(Next(y, actions[0]), actions[1..], org, quota, k))
  }

  lemma {:induction false} RunKeeps(y: Sys, actions: seq<Action>, org: string, quota: u32, k: nat)
    requires k > 0 && Most(quota, k) < 0x1_0000_0000 && Ordered(y)
    requires Inv(y, org, quota, k) && AllowedRun(y, actions, org, quota, k)
    ensures Inv(After(y, actions), org, quota, k)
    decreases |actions|
  {
    if actions != [] {
      NextKeeps(y, actions[0], org, quota, k);
      NextOrdered(y, actions[0]);
      RunKeeps(Next(y, actions[0]), actions[1..], org, quota, k);
    }
  }

  /** Nothing logged yet, and no handler of the organization in flight. */
  ghost predicate Fresh(y: Sys, org: string, quota: u32)
  {
    Sound(y, org, quota) && Ordered(y) && Log(y.db, org) == {} && Pending(y, org) == {}
  }

  /** With at most `k` handlers of the organization between count and append, every closed hour of
      its log, then and later, holds at most quota + k - 1 entries, and none under a quota of 0. */
  lemma SlidingWindowLimit(y: Sys, actions: seq<Action>, org: string, quota: u32, k: nat, start: u64)
    requires k > 0 && Most(quota, k) < 0x1_0000_0000
    requires Fresh(y, org, quota) && AllowedRun(y, actions, org, quota, k)
    ensures |Window(Log(After(y, actions).db, org), start)| <= Most(quota, k)
  {
    PendingParts(y, org);
    forall s: u64 ensures Window({}, s) == {} && StampsIn(map[], s) == {} { }
    assert Stamps(y, org) == map[] && Waiting(y, org) == {} by {
      assert forall h :: h !in Pending(y, org);
    }
    RunKeeps(y, actions, org, quota, k);
  }

  /** The actions of a handler that nobody interrupts. */
  function Alone(y: Sys, h: nat, req: Request, env: Env): Sys
  {
    var admitted := Next(Next(y, Tick(env.countAt)), Begin(h, req, env.countAt));
    var decided := Next(Next(admitted, Tick(env.consumeAt)), Decide(h, env.introspection));
    var stamped := Next(Next(decided, Tick(env.auditAt)), Stamp(h));
    Next(stamped, Append(h, env.auditId, env.appendOk))
  }

  lemma AloneDecided(y: Sys, h: nat, p: Handler, env: Env)
    requires p.who.Some? && p.stamp.None? && y.clock <= env.auditAt && h !in y.inFlight
    ensures var decided := y.(inFlight := y.inFlight[h := p]);
            Next(Next(Next(decided, Tick(env.auditAt)), Stamp(h)), Append(h, env.auditId, env.appendOk))
            == Sys(if env.appendOk then Appended(y.db, Entry(p.req, p.who.value, env.auditId, env.auditAt)) else y.db,
                   env.auditAt, y.inFlight)
  {
    var stamped := p.(stamp := Some(env.auditAt));
    assert y.inFlight[h := p][h := stamped] - {h} == y.inFlight;
  }

  /** Nothing is left for a handler that has been refused. */
  lemma AloneRefused(y: Sys, h: nat, env: Env)
    requires y.clock <= env.auditAt && h !in y.inFlight
    ensures Next(Next(Next(y, Tick(env.auditAt)), Stamp(h)), Append(h, env.auditId, env.appendOk)) == y.(clock := env.auditAt)
  {
  }

  /** What a handler decides alone. */
  lemma AloneDecides(y: Sys, h: nat, p: Handler, env: Env)
    requires p.who.None? && p.stamp.None? && y.clock <= env.consumeAt && h !in y.inFlight
    ensures var (db', outcome) := Identify(y.db, p.formation, p.req, env.consumeAt, env.introspection);
            Next(Next(y.(inFlight := y.inFlight[h := p]), Tick(env.consumeAt)), Decide(h, env.introspection))
            == Sys(db', env.consumeAt,
                   if outcome.Pass? then y.inFlight[h := p.(who := Some(outcome.value))] else y.inFlight)
  {
    var outcome := Identify(y.db, p.formation, p.req, env.consumeAt, env.introspection).1;
    assert y.inFlight[h := p] - {h} == y.inFlight;
    if outcome.Pass? {
      var q := p.(who := Some(outcome.value));
      assert y.inFlight[h := p][h := q] == y.inFlight[h := q];
    }
  }

  lemma AloneAdmitted(y: Sys, h: nat, p: Handler, env: Env)
    requires p.who.None? && p.stamp.None? && y.clock <= env.consumeAt <= env.auditAt && h !in y.inFlight
    ensures var admitted := y.(inFlight := y.inFlight[h := p]);
            var decided := Next(Next(admitted, Tick(env.consumeAt)), Decide(h, env.introspection));
            var (db', outcome) := Identify(y.db, p.formation, p.req, env.consumeAt, env.introspection);
            Next(Next(Next(decided, Tick(env.auditAt)), Stamp(h)), Append(h, env.auditId, env.appendOk))
            == Sys(if outcome.Pass? && env.appendOk
                   then Appended(db', Entry(p.req, outcome.value, env.auditId, env.auditAt)) else db',
                   env.auditAt, y.inFlight)
  {
    var (db', outcome) := Identify(y.db, p.formation, p.req, env.consumeAt, env.introspection);
    AloneDecides(y, h, p, env);
    if outcome.Pass? {
      AloneDecided(y.(db := db', clock := env.consumeAt), h, p.(who := Some(outcome.value)), env);
    } else {
      AloneRefused(y.(db := db', clock := env.consumeAt), h, env);
    }
  }

  /** It does what the handler of module Enroll does. */
  lemma UninterruptedHandler(y: Sys, h: nat, req: Request, env: Env)
    requires h !in y.inFlight && y.clock <= env.countAt <= env.consumeAt <= env.auditAt
    ensures Alone(y, h, req, env) == Sys(Enroll.Enroll(y.db, req, env).0, env.auditAt, y.inFlight)
  {
    var gate := Gate(y.db, req, env.countAt);
    if gate.Pass? { AloneAdmitted(y.(clock := env.countAt), h, Handler(req, gate.value, None, None), env); }
  }
}
