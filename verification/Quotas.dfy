/** Quotas over whole runs of manager calls: an organization never holds more formations or sinks
    than the largest quota it has had, so the 32-bit comparisons never wrap. */
module Quotas {
  import opened Models
  import opened Lex
  import opened Keys
  import opened Manager
  import opened Refinement
  import opened Ownership
  import Redb

  /** The two tables under quota. */
  predicate Limited(t: Table) { t == Formations || t == Sinks }

  function Limit(t: Table, q: OrgQuotas): u32 { if t == Formations then q.maxFormations else q.maxCdcSinks }

  ghost function Count(db: Redb.Db, t: Table, org: string): nat { |LocalIds(db.rows, t, org)| }

  /** The largest quota each live organization has had since it was created. */
  type Peak = map<string, u32>

  ghost function NextPeak(p: Peak, t: Table, orgs: map<string, Organization>): Peak
  {
    map o | o in orgs :: if o in p && p[o] > Limit(t, orgs[o].quotas) then p[o] else Limit(t, orgs[o].quotas)
  }

  ghost predicate Within(db: Redb.Db, t: Table, p: Peak)
  {
    p.Keys == db.orgs.Keys
    && forall o :: o in db.orgs ==> Limit(t, db.orgs[o].quotas) <= p[o] && Count(db, t, o) <= p[o]
  }

  /** The quota check reads the exact number of rows. */
  lemma CheckedCount(db: Redb.Db, t: Table, org: string)
    ensures |Redb.Listing(db.rows, t, org)| == Count(db, t, org)
  {
    ListingById(db.rows, t, org);
  }

  lemma CheckNeverWraps(db: Redb.Db, t: Table, p: Peak, org: string)
    requires Within(db, t, p) && org in db.orgs
    ensures AsU32(|Redb.Listing(db.rows, t, org)|) == Count(db, t, org)
  {
    CheckedCount(db, t, org);
    SmallFits(Count(db, t, org), p[org]);
  }

  lemma SmallFits(n: nat, bound: u32)
    requires n <= bound
    ensures AsU32(n) == n
  {
  }

  lemma PutIds(rows: Redb.Rows, u: Table, org: string, id: string, row: Row, t: Table, o: string)
    requires NulFree(org) && NulFree(o)
    ensures LocalIds(rows[(u, Key(org, id)) := row], t, o)
            == LocalIds(rows, t, o) + if t == u && o == org then {id} else {}
  {
    forall i | Key(o, i) == Key(org, id) ensures o == org && i == id { KeyInjective(o, i, org, id); }
  }

  lemma FewerIds(rows: Redb.Rows, rows': Redb.Rows, t: Table, o: string)
    requires forall k :: (t, k) in rows' ==> (t, k) in rows
    ensures LocalIds(rows', t, o) <= LocalIds(rows, t, o)
  {
  }

  /** What a manager call does to the ids of one organization in a limited table. */
  ghost predicate Bounded(db: Redb.Db, b: Backend, t: Table, o: string)
  {
    b.Redb? &&
    (LocalIds(b.db.rows, t, o) <= LocalIds(db.rows, t, o)
     || (b.db.orgs == db.orgs && o in db.orgs && AsU32(Count(db, t, o)) < Limit(t, db.orgs[o].quotas)
         && exists id :: LocalIds(b.db.rows, t, o) == LocalIds(db.rows, t, o) + {id}))
  }

  lemma WriteFormationBounded(db: Redb.Db, org: string, f: FormationConfig, stored: bytes, t: Table, o: string)
    requires Limited(t) && NulFree(org) && NulFree(o) && org in db.orgs
    requires AsU32(Count(db, Formations, org)) < db.orgs[org].quotas.maxFormations
    ensures Bounded(db, WriteFormation(Redb(db), org, f, stored).0, t, o)
  {
    PutIds(db.rows, Formations, org, f.appId, FormationRow(f), t, o);
    PutIds(db.rows[(Formations, Key(org, f.appId)) := FormationRow(f)], Genesis, org, f.appId, GenesisRow(stored), t, o);
  }

  lemma DropFormationBounded(db: Redb.Db, org: string, app: string, t: Table, o: string)
    ensures Bounded(db, Redb(db).Delete(Formations, org, app).Delete(Genesis, org, app), t, o)
  {
    FewerIds(db.rows, db.rows - {(Formations, Key(org, app))} - {(Genesis, Key(org, app))}, t, o);
  }

  lemma CreateFormationBounded(s: Session, db: Redb.Db, op: Op, t: Table, o: string)
    requires Owned(db) && Limited(t) && NulFree(o) && op.CreateFormation?
    ensures Bounded(db, FormationStep(s, Redb(db), op).0, t, o)
  {
    FormationOutcome(s, db, op);
    CheckedCount(db, Formations, op.org);
    if op.org in db.orgs && StoredGenesis(s, op.genesis, op.coins).Ok?
       && AsU32(Count(db, Formations, op.org)) < db.orgs[op.org].quotas.maxFormations {
      WriteFormationBounded(db, op.org, FormationConfig(op.app, op.genesis.meshId, op.policy),
                            StoredGenesis(s, op.genesis, op.coins).value, t, o);
    }
  }

  lemma FormationBounded(s: Session, db: Redb.Db, op: Op, t: Table, o: string)
    requires Owned(db) && Limited(t) && NulFree(o) && (op.CreateFormation? || op.DeleteFormation?)
    ensures Bounded(db, FormationStep(s, Redb(db), op).0, t, o)
  {
    if op.CreateFormation? {
      CreateFormationBounded(s, db, op, t, o);
    } else {
      FormationOutcome(s, db, op);
      DropFormationBounded(db, op.org, op.app, t, o);
    }
  }

  lemma PutBounded(db: Redb.Db, u: Table, org: string, id: string, row: Row, t: Table, o: string)
    requires Limited(t) && NulFree(org) && NulFree(o) && org in db.orgs
    requires t == u ==> AsU32(Count(db, t, org)) < Limit(t, db.orgs[org].quotas)
    ensures Bounded(db, Redb(db.(rows := db.rows[(u, Key(org, id)) := row])), t, o)
  {
    PutIds(db.rows, u, org, id, row, t, o);
  }

  /** Nothing changes, or the new row enters a live organization within its quota. */
  ghost predicate RowCreated(db: Redb.Db, op: Op, b: Backend)
    requires CreatesRow(op)
  {
    || b == Redb(db)
    || (op.org in db.orgs
        && b == Redb(db.(rows := db.rows[(NewRow(op).0, Key(op.org, op.id)) := NewRow(op).1]))
        && (op.CreateSink? ==> AsU32(Count(db, Sinks, op.org)) < db.orgs[op.org].quotas.maxCdcSinks))
  }

  lemma CreateRowCounted(db: Redb.Db, op: Op)
    requires CreatesRow(op)
    ensures RowCreated(db, op, CreateRow(Redb(db), op).0)
  {
    CreateRowOutcome(db, op);
    CheckedCount(db, Sinks, op.org);
  }

  lemma RowCreatedBounded(db: Redb.Db, op: Op, b: Backend, t: Table, o: string)
    requires Owned(db) && Limited(t) && NulFree(o) && CreatesRow(op) && RowCreated(db, op, b)
    ensures Bounded(db, b, t, o)
  {
    if b != Redb(db) { PutBounded(db, NewRow(op).0, op.org, op.id, NewRow(op).1, t, o); }
  }

  lemma UpdateBounded(db: Redb.Db, op: Op, t: Table, o: string)
    requires Owned(db) && Limited(t) && (op.Toggle? || op.RevokeToken? || op.ConsumeToken? || op.Delete?)
    ensures Bounded(db, if op.Toggle? then Toggled(Redb(db), op).0 else if op.Delete? then DropRow(Redb(db), op).0
                        else ChangeToken(Redb(db), op).0, t, o)
  {
    var u := if op.Toggle? || op.Delete? then op.t else Tokens;
    if !op.Delete? && u in {Tokens, Sinks, Idps} && (u, Key(op.org, op.id)) in db.rows {
      FoundRow(db, u, op.org, op.id);
    }
  }

  lemma StepBounded(s: Session, db: Redb.Db, op: Op, t: Table, o: string)
    requires Owned(db) && Limited(t) && NulFree(o)
    ensures Bounded(db, Step(s, Redb(db), op).0, t, o)
  {
    if ReadsOnly(op) {
    } else if CreatesRow(op) {
      CreateRowCounted(db, op);
      RowCreatedBounded(db, op, CreateRow(Redb(db), op).0, t, o);
    } else if op.CreateFormation? || op.DeleteFormation? {
      FormationBounded(s, db, op, t, o);
    } else if op.Toggle? || op.RevokeToken? || op.ConsumeToken? || op.Delete? {
      UpdateBounded(db, op, t, o);
    } else if op.AppendAudit? || op.SetCursor? {
    } else {
      assert forall k :: (t, k) in OrgStep(Redb(db), op).0.db.rows ==> (t, k) in db.rows;
    }
  }

  lemma BoundedWithin(db: Redb.Db, b: Backend, t: Table, p: Peak, o: string)
    requires Limited(t) && Within(db, t, p) && Bounded(db, b, t, o) && o in b.db.orgs
    requires o !in db.orgs ==> Count(db, t, o) == 0
    ensures Count(b.db, t, o) <= NextPeak(p, t, b.db.orgs)[o]
  {
    var before, after := LocalIds(db.rows, t, o), LocalIds(b.db.rows, t, o);
    GrowthByOne(before, after);
  }

  lemma GrowthByOne<T>(before: set<T>, after: set<T>)
    ensures after <= before ==> |after| <= |before|
    ensures (exists x :: after == before + {x}) ==> |after| <= |before| + 1
  {
    if after <= before { SubsetSize(after, before); }
    if x :| after == before + {x} { }
  }

  lemma BackendWithin(db: Redb.Db, b: Backend, t: Table, p: Peak)
    requires Owned(db) && Limited(t) && Within(db, t, p) && OwnedBackend(b)
    requires forall o :: NulFree(o) ==> Bounded(db, b, t, o)
    ensures Within(b.db, t, NextPeak(p, t, b.db.orgs))
  {
    forall o | o in b.db.orgs ensures Count(b.db, t, o) <= NextPeak(p, t, b.db.orgs)[o] {
      if o !in db.orgs { NoRowsBeforeCreation(db, t, o); }
      BoundedWithin(db, b, t, p, o);
    }
  }

  lemma StepWithin(s: Session, db: Redb.Db, op: Op, t: Table, p: Peak)
    requires Owned(db) && Limited(t) && Within(db, t, p)
    ensures var b := Step(s, Redb(db), op).0; b.Redb? && Within(b.db, t, NextPeak(p, t, b.db.orgs))
  {
    StepOwned(s, db, op);
    forall o | NulFree(o) ensures Bounded(db, Step(s, Redb(db), op).0, t, o) { StepBounded(s, db, op, t, o); }
    BackendWithin(db, Step(s, Redb(db), op).0, t, p);
  }

  lemma NoRowsBeforeCreation(db: Redb.Db, t: Table, org: string)
    requires Owned(db) && Limited(t) && NulFree(org) && org !in db.orgs
    ensures LocalIds(db.rows, t, org) == {}
  {
    forall id ensures (t, Key(org, id)) !in db.rows {
      forall o, i | o in db.orgs ensures Key(org, id) != Key(o, i) {
        if Key(org, id) == Key(o, i) { KeyInjective(org, id, o, i); }
      }
      assert (t, Key(org, id)) in db.rows ==> Lives(db.orgs, t, Key(org, id), db.rows[(t, Key(org, id))]);
    }
  }

  /** The peak quotas after a run. */
  ghost function PeakAfter(p: Peak, t: Table, b: Backend, calls: seq<Call>): Peak
    requires b.Redb?
    decreases |calls|
  {
    if calls == [] then p else
      var b' := Step(calls[0].s, b, calls[0].op).0;
      if b'.Redb? then PeakAfter(NextPeak(p, t, b'.db.orgs), t, b', calls[1..]) else p
  }

  /** At the end of every run each organization is within the largest quota it has had. */
  lemma {:induction false} RunWithin(db: Redb.Db, t: Table, p: Peak, calls: seq<Call>)
    requires Owned(db) && Limited(t) && Within(db, t, p)
    ensures var b := Run(Redb(db), calls).0; b.Redb? && Within(b.db, t, PeakAfter(p, t, Redb(db), calls))
    decreases |calls|
  {
    if calls != [] {
      StepOwned(calls[0].s, db, calls[0].op);
      StepWithin(calls[0].s, db, calls[0].op, t, p);
      var db' := Step(calls[0].s, Redb(db), calls[0].op).0.db;
      RunWithin(db', t, NextPeak(p, t, db'.orgs), calls[1..]);
    }
  }

  lemma QuotasHoldFromEmpty(t: Table, calls: seq<Call>)
    requires Limited(t)
    ensures var b := Run(Redb(Redb.EMPTY), calls).0;
            b.Redb? && Within(b.db, t, PeakAfter(map[], t, Redb(Redb.EMPTY), calls))
  {
    RunWithin(Redb.EMPTY, t, map[], calls);
  }

  /** Lowering a quota removes no row. */
  lemma QuotaUpdateKeepsRows(s: Session, db: Redb.Db, op: Op)
    requires op.UpdateOrg?
    ensures var b := Step(s, Redb(db), op).0; b.Redb? && b.db.rows == db.rows && b.db.cursors == db.cursors
  {
  }
}
