/** Runs that also query the audit log, on both backends (src/tenant/manager.rs,
    src/storage/redb_backend.rs, src/storage/postgres.rs). PostgreSQL may answer such a query in
    several ways, so replies are compared up to timestamp ties. */
module AuditRuns {
  import opened Models
  import opened Keys
  import opened Manager
  import opened Refinement
  import opened Ownership
  import opened AuditLog
  import Redb
  import Postgres
  import RateLimit

  /** A manager call, or `list_audit`. */
  datatype Event = Do(call: Call) | ListAudit(org: string, app: Option<string>, limit: u64)

  datatype Answer = Replied(reply: Result<Reply>) | Listed(entries: Result<seq<AuditEntry>>)

  function After(b: Backend, e: Event): Backend { if e.Do? then Step(e.call.s, b, e.call.op).0 else b }

  ghost predicate MayReply(b: Backend, e: Event, a: Answer)
  {
    match e
    case Do(call) => a == Replied(Step(call.s, b, call.op).1)
    case ListAudit(org, app, limit) =>
      a.Listed? &&
      if b.FindOrg(org).None? then a.entries == Err(NotFound)
      else match b
        case Redb(db) => a.entries == Ok(Redb.ListAudit(db.rows, org, app, limit))
        case Pg(rel) => Postgres.MayAnswer(rel, org, app, limit, a.entries)
  }

  /** The answers are possible on this backend. */
  ghost predicate MayRun(b: Backend, events: seq<Event>, answers: seq<Answer>)
    decreases |events|
  {
    |answers| == |events|
    && (events != [] ==> MayReply(b, events[0], answers[0]) && MayRun(After(b, events[0]), events[1..], answers[1..]))
  }

  /** Besides `Admissible`: timestamps fit a signed BIGINT. */
  ghost predicate AdmissibleEvent(db: Redb.Db, e: Event)
  {
    match e
    case Do(call) =>
      Admissible(db, call.op) && (call.op.AppendAudit? ==> call.op.entry.timestampMs < 0x8000_0000_0000_0000)
    case ListAudit(org, _, _) => NulFree(org)
  }

  /** The limit is one for which the backends agree. */
  ghost predicate GoodLimit(db: Redb.Db, e: Event)
  {
    e.ListAudit? && e.org in db.orgs ==>
      e.limit < 0x8000_0000_0000_0000 && (e.limit == 0 ==> !AnyWanted(db, e.org, e.app))
  }

  ghost predicate AdmissibleEvents(b: Backend, events: seq<Event>)
    decreases |events|
  {
    b.Redb? && (events == [] || (AdmissibleEvent(b.db, events[0]) && AdmissibleEvents(After(b, events[0]), events[1..])))
  }

  ghost predicate GoodLimits(b: Backend, events: seq<Event>)
    decreases |events|
  {
    b.Redb? && (events == [] || (GoodLimit(b.db, events[0]) && GoodLimits(After(b, events[0]), events[1..])))
  }

  // --- What admissible runs reach ---

  /** Audit entries and cursors of an admissible call are for live organizations. */
  lemma AdmissibleIsLive(db: Redb.Db, op: Op)
    requires Admissible(db, op)
    ensures LiveWrites(db, op)
  {
  }

  lemma {:induction false} AdmissibleRunIsLive(db: Redb.Db, calls: seq<Call>)
    requires AdmissibleRun(db, calls)
    ensures LiveRun(db, calls)
    decreases |calls|
  {
    if calls != [] {
      AdmissibleIsLive(db, calls[0].op);
      AdmissibleRunIsLive(Step(calls[0].s, Redb(db), calls[0].op).0.db, calls[1..]);
    }
  }

  /** Related stores, in a state where audit queries have their meaning. */
  ghost predicate InStep(b: Backend, c: Backend)
  {
    b.Redb? && c.Pg? && Related(b.db, c.rel) && Owned(b.db) && LogsOwned(b.db) && SignedTimes(b.db)
  }

  lemma EntriesAreOld(s: Session, db: Redb.Db, op: Op, e: AuditEntry)
    requires AuditFiled(db) && Step(s, Redb(db), op).0.Redb? && HasEntry(Step(s, Redb(db), op).0.db, e)
    ensures HasEntry(db, e) || (op.AppendAudit? && e == op.entry)
  {
    if op.AppendAudit? {
      LoudStep(s, db, op);
    } else {
      RateLimit.AdminShrinksLog(s, db, op, e.orgId);
      assert e in Log(Step(s, Redb(db), op).0.db, e.orgId);
    }
  }

  lemma CallInStep(db: Redb.Db, rel: Postgres.Rel, call: Call)
    requires InStep(Redb(db), Pg(rel)) && AdmissibleEvent(db, Do(call))
    ensures InStep(Step(call.s, Redb(db), call.op).0, Step(call.s, Pg(rel), call.op).0)
    ensures Step(call.s, Redb(db), call.op).1 == Step(call.s, Pg(rel), call.op).1
  {
    StepAgrees(call.s, db, rel, call.op);
    StepOwned(call.s, db, call.op);
    AdmissibleIsLive(db, call.op);
    StepLogsOwned(call.s, db, call.op);
    CallKeepsSigned(db, call);
  }

  lemma CallKeepsSigned(db: Redb.Db, call: Call)
    requires Owned(db) && LogsOwned(db) && SignedTimes(db) && AdmissibleEvent(db, Do(call))
    requires Step(call.s, Redb(db), call.op).0.Redb?
    ensures SignedTimes(Step(call.s, Redb(db), call.op).0.db)
  {
    LogsAreFiled(db);
    forall e | HasEntry(Step(call.s, Redb(db), call.op).0.db, e) ensures e.timestampMs < 0x8000_0000_0000_0000 {
      EntriesAreOld(call.s, db, call.op, e);
    }
  }

  lemma EventInStep(b: Backend, c: Backend, e: Event)
    requires InStep(b, c) && AdmissibleEvent(b.db, e)
    ensures InStep(After(b, e), After(c, e))
  {
    if e.Do? { CallInStep(b.db, c.rel, e.call); }
  }

  // --- redb's answers are possible answers of PostgreSQL ---

  lemma ReplyIsPossibleIff(b: Backend, c: Backend, e: Event, a: Answer)
    requires InStep(b, c) && AdmissibleEvent(b.db, e) && MayReply(b, e, a)
    ensures MayReply(c, e, a) <==> GoodLimit(b.db, e)
  {
    match e {
      case Do(call) => CallInStep(b.db, c.rel, call);
      case ListAudit(org, app, limit) =>
        LogsAreFiled(b.db);
        BackendsAgreeOnAudit(b.db, c.rel, org, app, limit);
    }
  }

  lemma {:induction false} RunIsPossibleIff(b: Backend, c: Backend, events: seq<Event>, answers: seq<Answer>)
    requires InStep(b, c) && AdmissibleEvents(b, events) && MayRun(b, events, answers)
    ensures MayRun(c, events, answers) <==> GoodLimits(b, events)
    decreases |events|
  {
    if events != [] {
      ReplyIsPossibleIff(b, c, events[0], answers[0]);
      EventInStep(b, c, events[0]);
      RunIsPossibleIff(After(b, events[0]), After(c, events[0]), events[1..], answers[1..]);
    }
  }

  /** From empty stores, the answers of redb to an admissible run with audit queries are answers that
      PostgreSQL may give exactly if every query for a live organization has a limit from 1 to
      2^63 - 1, or 0 when nothing matches. */
  lemma BackendsAgreeOnRunsIff(events: seq<Event>, answers: seq<Answer>)
    requires AdmissibleEvents(Redb(Redb.EMPTY), events) && MayRun(Redb(Redb.EMPTY), events, answers)
    ensures MayRun(Pg(Postgres.EMPTY), events, answers) <==> GoodLimits(Redb(Redb.EMPTY), events)
  {
    RunIsPossibleIff(Redb(Redb.EMPTY), Pg(Postgres.EMPTY), events, answers);
  }

  // --- All answers of PostgreSQL agree with redb's up to ties ---

  /** As long, the same timestamps, and other entries only where they tie with the last one. */
  ghost predicate TiesOnly(q: seq<AuditEntry>, r: seq<AuditEntry>)
  {
    && |q| == |r|
    && (forall i :: 0 <= i < |q| ==> q[i].timestampMs == r[i].timestampMs)
    && (forall e :: e in q && e !in r ==> e.timestampMs == r[|r| - 1].timestampMs)
  }

  ghost predicate UpToTies(a: Answer, b: Answer)
  {
    a == b || (a.Listed? && b.Listed? && a.entries.Ok? && b.entries.Ok? && TiesOnly(a.entries.value, b.entries.value))
  }

  lemma SignedInjective(x: u64, y: u64)
    requires Postgres.AsI64(x) == Postgres.AsI64(y)
    ensures x == y
  {
  }

  lemma LeftOutTies(rel: Postgres.Rel, org: string, app: Option<string>, limit: nat, r: seq<AuditEntry>, i: nat,
                    e: AuditEntry)
    requires Postgres.AnswersAudit(rel, org, app, limit, r) && i < |r|
    requires Postgres.Selected(rel, org, app, e) && e !in r && e.timestampMs == r[i].timestampMs
    ensures e.timestampMs == r[|r| - 1].timestampMs
  {
    var last := r[|r| - 1];
    assert last in r;
    assert i < |r| - 1 ==> Postgres.AsI64(r[i].timestampMs) >= Postgres.AsI64(last.timestampMs);
    SignedInjective(e.timestampMs, last.timestampMs);
  }

  lemma AnswersTieOnly(rel: Postgres.Rel, org: string, app: Option<string>, limit: nat,
                       q: seq<AuditEntry>, r: seq<AuditEntry>)
    requires Postgres.AnswersAudit(rel, org, app, limit, q) && Postgres.AnswersAudit(rel, org, app, limit, r)
    ensures TiesOnly(q, r)
  {
    AnswersAgreeUpToTies(rel, org, app, limit, q, r);
    forall i | 0 <= i < |q| ensures q[i].timestampMs == r[i].timestampMs {
      SignedInjective(q[i].timestampMs, r[i].timestampMs);
    }
    forall e | e in q && e !in r ensures e.timestampMs == r[|r| - 1].timestampMs {
      var i :| 0 <= i < |q| && q[i] == e;
      LeftOutTies(rel, org, app, limit, r, i, e);
    }
  }

  lemma RepliesTieOnly(c: Backend, e: Event, a: Answer, b: Answer)
    requires c.Pg? && MayReply(c, e, a) && MayReply(c, e, b)
    ensures UpToTies(a, b)
  {
    if e.ListAudit? && c.FindOrg(e.org).Some? && Postgres.AsI64(e.limit) >= 0 {
      AnswersTieOnly(c.rel, e.org, e.app, e.limit, a.entries.value, b.entries.value);
    }
  }

  lemma {:induction false} RunsTieOnly(c: Backend, events: seq<Event>, q: seq<Answer>, r: seq<Answer>)
    requires c.Pg? && MayRun(c, events, q) && MayRun(c, events, r)
    ensures |q| == |r| && forall i :: 0 <= i < |q| ==> UpToTies(q[i], r[i])
    decreases |events|
  {
    if events != [] {
      RepliesTieOnly(c, events[0], q[0], r[0]);
      assert After(c, events[0]).Pg? by { StaysPg(c, events[0]); }
      RunsTieOnly(After(c, events[0]), events[1..], q[1..], r[1..]);
      forall i | 0 <= i < |q| ensures UpToTies(q[i], r[i]) {
        if i > 0 { assert q[1..][i - 1] == q[i] && r[1..][i - 1] == r[i]; }
      }
    }
  }

  lemma StaysPg(c: Backend, e: Event)
    requires c.Pg?
    ensures After(c, e).Pg?
  {
  }

  /** Whatever PostgreSQL answers to an admissible run with good limits, it answers as redb does, up to
      ties in audit listings. */
  lemma AnswersAgree(events: seq<Event>, q: seq<Answer>, r: seq<Answer>)
    requires AdmissibleEvents(Redb(Redb.EMPTY), events) && GoodLimits(Redb(Redb.EMPTY), events)
    requires MayRun(Redb(Redb.EMPTY), events, q) && MayRun(Pg(Postgres.EMPTY), events, r)
    ensures |q| == |r| && forall i :: 0 <= i < |q| ==> UpToTies(q[i], r[i])
  {
    BackendsAgreeOnRunsIff(events, q);
    RunsTieOnly(Pg(Postgres.EMPTY), events, q, r);
  }
}
