/** What the audit queries mean on both backends (src/storage/redb_backend.rs,
    src/storage/postgres.rs, src/tenant/manager.rs). */
module AuditLog {
  import opened Models
  import opened Lex
  import opened Keys
  import opened Manager
  import opened Refinement
  import opened Ownership
  import Redb
  import Postgres

  /** The entry is in the organization's log and passes the application filter. */
  ghost predicate Wants(db: Redb.Db, org: string, app: Option<string>, e: AuditEntry)
  {
    HasEntry(db, e) && e.orgId == org && (app.None? || e.appId == app.value)
  }

  predicate Newer(d: AuditEntry, e: AuditEntry)
  {
    d.timestampMs > e.timestampMs || (d.timestampMs == e.timestampMs && Less(e.auditId, d.auditId))
  }

  ghost predicate NewestFirst(r: seq<AuditEntry>)
  {
    forall i, j :: 0 <= i < j < |r| ==> Newer(r[i], r[j])
  }

  lemma AuditKeysByAge(d: AuditEntry, e: AuditEntry)
    requires NulFree(e.orgId) && d.orgId == e.orgId
    ensures Less(AuditKey(e.orgId, e.timestampMs, e.auditId), AuditKey(d.orgId, d.timestampMs, d.auditId))
            <==> Newer(d, e)
  {
    AuditKeyOrder(e.orgId, e.timestampMs, e.auditId, d.orgId, d.timestampMs, d.auditId);
    LessTotal(d.orgId, d.orgId);
  }

  lemma OwnKey(db: Redb.Db, k: string, org: string)
    requires AuditFiled(db) && (Audit, k) in db.rows && NulFree(org)
    ensures var e := db.rows[(Audit, k)].entry;
            HasEntry(db, e) && NulFree(e.orgId) && (StartsWith(k, Prefix(org)) <==> e.orgId == org)
  {
    var e := db.rows[(Audit, k)].entry;
    AuditKeyNested(e);
    PrefixExact(e.orgId, AuditId(e), org);
  }

  /** The reverse scan over some ascending keys: newest first, and exactly the wanted entries. */
  lemma {:induction false} BackwardsMeaning(db: Redb.Db, keys: seq<string>, org: string, app: Option<string>)
    requires AuditFiled(db) && NulFree(org) && Ascending(keys)
    requires forall k :: k in keys ==> (Audit, k) in db.rows
    ensures var r := Redb.Backwards(db.rows, keys, Prefix(org), app);
            NewestFirst(r)
            && forall e :: e in r <==>
                 Wants(db, org, app, e) && AuditKey(e.orgId, e.timestampMs, e.auditId) in keys
  {
    if keys != [] {
      var n := |keys| - 1;
      var k, rest := keys[n], keys[..n];
      assert keys == rest + [k];
      BackwardsMeaning(db, rest, org, app);
      OwnKey(db, k, org);
      var e := db.rows[(Audit, k)].entry;
      var older := Redb.Backwards(db.rows, rest, Prefix(org), app);
      forall x | x in older && e.orgId == org ensures Newer(e, x) {
        var i :| 0 <= i < n && keys[i] == AuditKey(x.orgId, x.timestampMs, x.auditId);
        AuditKeysByAge(e, x);
      }
      forall x | Wants(db, org, app, x) && AuditKey(x.orgId, x.timestampMs, x.auditId) == k ensures x == e { }
    }
  }

  /** `r` is the `limit` newest wanted entries: nothing it leaves out is newer than anything in it. */
  ghost predicate IsNewest(db: Redb.Db, org: string, app: Option<string>, limit: nat, r: seq<AuditEntry>)
  {
    && NewestFirst(r)
    && |r| <= limit
    && (forall e :: e in r ==> Wants(db, org, app, e))
    && (forall e :: Wants(db, org, app, e) && e !in r ==> |r| == limit && forall x :: x in r ==> Newer(x, e))
  }

  lemma TakeIsNewest(db: Redb.Db, org: string, app: Option<string>, limit: nat, all: seq<AuditEntry>)
    requires NewestFirst(all) && forall e :: e in all <==> Wants(db, org, app, e)
    ensures IsNewest(db, org, app, limit, Redb.Take(limit, all))
  {
    var r := Redb.Take(limit, all);
    assert forall i :: 0 <= i < |r| ==> r[i] == all[i];
    forall e | e in all && e !in r ensures |r| == limit && forall x :: x in r ==> Newer(x, e) {
      var j :| 0 <= j < |all| && all[j] == e;
    }
  }

  lemma KeysCoverEntries(db: Redb.Db, e: AuditEntry)
    requires HasEntry(db, e)
    ensures AuditKey(e.orgId, e.timestampMs, e.auditId) in SortedKeys(Redb.KeysOf(db.rows, Audit))
  {
  }

  /** list_audit on redb returns the `limit` newest wanted entries, newest first. A limit of 0 acts as 1. */
  lemma ListAuditMeaning(db: Redb.Db, org: string, app: Option<string>, limit: nat)
    requires AuditFiled(db) && NulFree(org)
    ensures IsNewest(db, org, app, if limit == 0 then 1 else limit, Redb.ListAudit(db.rows, org, app, limit))
  {
    var keys := SortedKeys(Redb.KeysOf(db.rows, Audit));
    SortedKeysAscending(Redb.KeysOf(db.rows, Audit));
    BackwardsMeaning(db, keys, org, app);
    var all := Redb.Backwards(db.rows, keys, Prefix(org), app);
    forall e | Wants(db, org, app, e) ensures e in all { KeysCoverEntries(db, e); }
    TakeIsNewest(db, org, app, Redb.Effective(limit), all);
  }

  // --- The two backends ---

  ghost predicate AnyWanted(db: Redb.Db, org: string, app: Option<string>)
  {
    exists e :: Wants(db, org, app, e)
  }

  /** Clock readings of the log fit a signed BIGINT. */
  ghost predicate SignedTimes(db: Redb.Db)
  {
    forall e :: HasEntry(db, e) ==> e.timestampMs < 0x8000_0000_0000_0000
  }

  lemma SelectedIsWanted(db: Redb.Db, rel: Postgres.Rel, org: string, app: Option<string>, e: AuditEntry)
    requires Related(db, rel)
    ensures Postgres.Selected(rel, org, app, e) <==> Wants(db, org, app, e)
  {
    assert HasEntry(db, e) <==> (e.orgId, e.auditId) in rel.audit && rel.audit[(e.orgId, e.auditId)] == e;
  }

  lemma NewestIsAnswer(db: Redb.Db, rel: Postgres.Rel, org: string, app: Option<string>, limit: nat, r: seq<AuditEntry>)
    requires Related(db, rel) && SignedTimes(db) && IsNewest(db, org, app, limit, r)
    ensures Postgres.AnswersAudit(rel, org, app, limit, r)
  {
    forall e ensures Postgres.Selected(rel, org, app, e) <==> Wants(db, org, app, e) {
      SelectedIsWanted(db, rel, org, app, e);
    }
    forall i, j | 0 <= i < j < |r| ensures r[i] != r[j] && r[i].timestampMs >= r[j].timestampMs {
      assert Newer(r[i], r[j]);
      LessTotal(r[i].auditId, r[i].auditId);
    }
    forall e | e in r ensures e.timestampMs < 0x8000_0000_0000_0000 { assert Wants(db, org, app, e); }
  }

  lemma AnswerToLimitZero(db: Redb.Db, rel: Postgres.Rel, org: string, app: Option<string>, r: seq<AuditEntry>)
    requires Related(db, rel) && IsNewest(db, org, app, 1, r)
    ensures Postgres.AnswersAudit(rel, org, app, 0, r) <==> !AnyWanted(db, org, app)
  {
    forall e ensures Postgres.Selected(rel, org, app, e) <==> Wants(db, org, app, e) {
      SelectedIsWanted(db, rel, org, app, e);
    }
    if r != [] { assert r[0] in r; }
  }

  /** redb's answer is one that PostgreSQL may give exactly for the limits 1 to 2^63 - 1 (and for
      0 when nothing matches): larger limits turn negative in the cast to i64 and are an error. */
  lemma BackendsAgreeOnAudit(db: Redb.Db, rel: Postgres.Rel, org: string, app: Option<string>, limit: u64)
    requires Related(db, rel) && AuditFiled(db) && SignedTimes(db) && NulFree(org)
    ensures Postgres.MayAnswer(rel, org, app, limit, Ok(Redb.ListAudit(db.rows, org, app, limit)))
            <==> limit < 0x8000_0000_0000_0000 && (limit == 0 ==> !AnyWanted(db, org, app))
  {
    ListAuditMeaning(db, org, app, limit);
    if limit == 0 {
      AnswerToLimitZero(db, rel, org, app, Redb.ListAudit(db.rows, org, app, 0));
    } else {
      NewestIsAnswer(db, rel, org, app, limit, Redb.ListAudit(db.rows, org, app, limit));
    }
  }

  ghost function Elements(r: seq<AuditEntry>): set<AuditEntry> { set e | e in r }

  lemma {:induction false} DistinctSize(r: seq<AuditEntry>)
    requires forall i, j :: 0 <= i < j < |r| ==> r[i] != r[j]
    ensures |Elements(r)| == |r|
  {
    if r != [] {
      var n := |r| - 1;
      DistinctSize(r[..n]);
      assert Elements(r) == Elements(r[..n]) + {r[n]};
    }
  }

  /** A duplicate-free sequence drawn from another is no longer. */
  lemma DistinctFits(r: seq<AuditEntry>, q: seq<AuditEntry>)
    requires forall i, j :: 0 <= i < j < |r| ==> r[i] != r[j]
    requires forall e :: e in r ==> e in q
    ensures |r| <= |q|
  {
    DistinctSize(r);
    SubsetSize(Elements(r), Elements(q));
    ElementsBound(q);
  }

  lemma {:induction false} ElementsBound(q: seq<AuditEntry>)
    ensures |Elements(q)| <= |q|
  {
    if q != [] {
      var n := |q| - 1;
      ElementsBound(q[..n]);
      assert Elements(q) == Elements(q[..n]) + {q[n]};
    }
  }

  lemma AnswerNoShorter(rel: Postgres.Rel, org: string, app: Option<string>, limit: nat,
                        q: seq<AuditEntry>, r: seq<AuditEntry>)
    requires Postgres.AnswersAudit(rel, org, app, limit, q) && Postgres.AnswersAudit(rel, org, app, limit, r)
    ensures |r| <= |q|
  {
    if |q| < limit {
      assert forall e :: e in r ==> e in q;
      DistinctFits(r, q);
    }
  }

  lemma NewerComesBefore(rel: Postgres.Rel, org: string, app: Option<string>, limit: nat,
                         q: seq<AuditEntry>, r: seq<AuditEntry>, i: nat, j: nat)
    requires Postgres.AnswersAudit(rel, org, app, limit, q) && Postgres.AnswersAudit(rel, org, app, limit, r)
    requires j <= i < |q| && i < |r| && Postgres.AsI64(r[i].timestampMs) > Postgres.AsI64(q[i].timestampMs)
    ensures r[j] in q[..i]
  {
    var e := r[j];
    assert Postgres.AsI64(e.timestampMs) >= Postgres.AsI64(r[i].timestampMs);
    assert e in r && q[i] in q;
    var m :| 0 <= m < |q| && q[m] == e;
    assert q[..i][m] == e;
  }

  lemma AnswerNoNewer(rel: Postgres.Rel, org: string, app: Option<string>, limit: nat,
                      q: seq<AuditEntry>, r: seq<AuditEntry>, i: nat)
    requires Postgres.AnswersAudit(rel, org, app, limit, q) && Postgres.AnswersAudit(rel, org, app, limit, r)
    requires i < |q| && i < |r|
    ensures Postgres.AsI64(r[i].timestampMs) <= Postgres.AsI64(q[i].timestampMs)
  {
    if Postgres.AsI64(r[i].timestampMs) > Postgres.AsI64(q[i].timestampMs) {
      forall e | e in r[..i + 1] ensures e in q[..i] {
        var j :| 0 <= j < i + 1 && r[j] == e;
        NewerComesBefore(rel, org, app, limit, q, r, i, j);
      }
      DistinctFits(r[..i + 1], q[..i]);
      assert false;
    }
  }

  /** Any two answers to one query agree up to timestamp ties: same length, and the same
      timestamp at every position. */
  lemma AnswersAgreeUpToTies(rel: Postgres.Rel, org: string, app: Option<string>, limit: nat,
                             q: seq<AuditEntry>, r: seq<AuditEntry>)
    requires Postgres.AnswersAudit(rel, org, app, limit, q) && Postgres.AnswersAudit(rel, org, app, limit, r)
    ensures |q| == |r|
    ensures forall i :: 0 <= i < |q| ==> Postgres.AsI64(q[i].timestampMs) == Postgres.AsI64(r[i].timestampMs)
  {
    AnswerNoShorter(rel, org, app, limit, q, r);
    AnswerNoShorter(rel, org, app, limit, r, q);
    forall i | 0 <= i < |q| ensures Postgres.AsI64(q[i].timestampMs) == Postgres.AsI64(r[i].timestampMs) {
      AnswerNoNewer(rel, org, app, limit, q, r, i);
      AnswerNoNewer(rel, org, app, limit, r, q, i);
    }
  }

  // --- count_recent_enrollments ---

  const USIZE_MAX: u64 := 0xFFFF_FFFF_FFFF_FFFF

  function Since(r: seq<AuditEntry>, sinceMs: u64): seq<AuditEntry>
  {
    if r == [] then [] else
      Since(r[..|r| - 1], sinceMs) + if r[|r| - 1].timestampMs >= sinceMs then [r[|r| - 1]] else []
  }

  function CountRecent(db: Redb.Db, org: string, sinceMs: u64): nat
  {
    |Since(Redb.ListAudit(db.rows, org, None, USIZE_MAX), sinceMs)|
  }

  method CountRecentEnrollments(store: Redb.RedbBackend, org: string, sinceMs: u64) returns (count: nat)
    ensures count == CountRecent(store.View(), org, sinceMs)
  {
    var entries := store.ListAuditEntries(org, None, USIZE_MAX);
    count := 0;
    for i := 0 to |entries|
      invariant count == |Since(entries[..i], sinceMs)|
    {
      assert entries[..i + 1][..i] == entries[..i];
      if entries[i].timestampMs >= sinceMs {
        count := count + 1;
      }
    }
    assert entries[..|entries|] == entries;
  }

  /** The organization's entries from `sinceMs` on. */
  ghost function Recent(db: Redb.Db, org: string, sinceMs: u64): (r: set<AuditEntry>)
    ensures forall e :: e in r ==> Wants(db, org, None, e) && e.timestampMs >= sinceMs
    ensures forall e :: Wants(db, org, None, e) && e.timestampMs >= sinceMs ==> e in r
  {
    set p | p in db.rows && p.0 == Audit && db.rows[p].AuditRow?
            && p.1 == AuditKey(db.rows[p].entry.orgId, db.rows[p].entry.timestampMs, db.rows[p].entry.auditId)
            && db.rows[p].entry.orgId == org && db.rows[p].entry.timestampMs >= sinceMs
          :: db.rows[p].entry
  }

  /** All the organization's entries. */
  ghost function Log(db: Redb.Db, org: string): set<AuditEntry> { Recent(db, org, 0) }

  lemma SameAuditSameLog(db: Redb.Db, b: Backend, org: string)
    requires SameLogs(db, b)
    ensures Log(b.db, org) == Log(db, org)
  {
    forall e ensures HasEntry(b.db, e) <==> HasEntry(db, e) { }
  }

  lemma OldestIsNew(rest: seq<AuditEntry>, last: AuditEntry)
    requires NewestFirst(rest + [last])
    ensures NewestFirst(rest) && last !in rest
  {
    var r, n := rest + [last], |rest|;
    assert forall i :: 0 <= i < n ==> r[i] == rest[i];
    if i :| 0 <= i < n && rest[i] == last {
      assert Newer(r[i], r[n]);
      LessTotal(last.auditId, last.auditId);
      assert false;
    }
  }

  lemma SincePlus(rest: seq<AuditEntry>, last: AuditEntry, sinceMs: u64)
    ensures Since(rest + [last], sinceMs) == Since(rest, sinceMs) + if last.timestampMs >= sinceMs then [last] else []
  {
    assert (rest + [last])[..|rest|] == rest;
  }

  lemma ElementsPlus(r: seq<AuditEntry>, last: AuditEntry)
    requires |r| == |Elements(r)| && last !in r
    ensures |r + [last]| == |Elements(r + [last])|
  {
    assert Elements(r + [last]) == Elements(r) + {last};
  }

  lemma {:induction false} SinceMembers(r: seq<AuditEntry>, sinceMs: u64)
    ensures forall e :: e in Since(r, sinceMs) <==> e in r && e.timestampMs >= sinceMs
  {
    if r != [] {
      var rest, last := r[..|r| - 1], r[|r| - 1];
      SinceMembers(rest, sinceMs);
      assert forall e :: e in r <==> e in rest || e == last;
    }
  }

  lemma {:induction false} SinceSize(r: seq<AuditEntry>, sinceMs: u64)
    requires NewestFirst(r)
    ensures |Since(r, sinceMs)| == |Elements(Since(r, sinceMs))|
  {
    if r != [] {
      var rest, last := r[..|r| - 1], r[|r| - 1];
      assert r == rest + [last];
      OldestIsNew(rest, last);
      SinceSize(rest, sinceMs);
      SinceMembers(rest, sinceMs);
      SincePlus(rest, last, sinceMs);
      if last.timestampMs >= sinceMs {
        ElementsPlus(Since(rest, sinceMs), last);
      } else {
        assert Since(r, sinceMs) == Since(rest, sinceMs);
      }
    }
  }

  lemma {:induction false} SinceAll(r: seq<AuditEntry>, sinceMs: u64)
    requires forall e :: e in r ==> e.timestampMs >= sinceMs
    ensures Since(r, sinceMs) == r
  {
    if r != [] {
      var rest, last := r[..|r| - 1], r[|r| - 1];
      SinceAll(rest, sinceMs);
      assert last in r && r == rest + [last];
    }
  }

  lemma NewestCounted(db: Redb.Db, org: string, sinceMs: u64, limit: nat, r: seq<AuditEntry>)
    requires IsNewest(db, org, None, limit, r)
    ensures var n := |Recent(db, org, sinceMs)|; |Since(r, sinceMs)| == if n <= limit then n else limit
  {
    SinceMembers(r, sinceMs);
    SinceSize(r, sinceMs);
    var counted, recent := Elements(Since(r, sinceMs)), Recent(db, org, sinceMs);
    SubsetSize(counted, recent);
    if recent <= Elements(r) {
      assert counted == recent;
      ElementsBound(r);
      SubsetSize(counted, Elements(r));
    } else {
      var e :| e in recent && e !in Elements(r);
      assert forall x :: x in r ==> Newer(x, e);
      SinceAll(r, sinceMs);
    }
  }

  /** On redb the count is the number of recent entries (up to the largest usize). */
  lemma CountRecentMeaning(db: Redb.Db, org: string, sinceMs: u64)
    requires AuditFiled(db) && NulFree(org)
    ensures var n := |Recent(db, org, sinceMs)|;
            CountRecent(db, org, sinceMs) == if n <= 0xFFFF_FFFF_FFFF_FFFF then n else 0xFFFF_FFFF_FFFF_FFFF
  {
    ListAuditMeaning(db, org, None, USIZE_MAX);
    NewestCounted(db, org, sinceMs, USIZE_MAX, Redb.ListAudit(db.rows, org, None, USIZE_MAX));
  }

  /** On PostgreSQL the same call always fails: its limit `usize::MAX` is bound as -1. */
  lemma CountRecentFailsOnPostgres(rel: Postgres.Rel, org: string, r: Result<seq<AuditEntry>>)
    ensures Postgres.MayAnswer(rel, org, None, USIZE_MAX, r) <==> r == Err(Constraint)
  {
  }
}
