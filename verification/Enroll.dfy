/** The enrollment handler (src/api/enroll.rs). */
module Enroll {
  import opened Models
  import opened Lex
  import opened Keys
  import opened Manager
  import Redb
  import Postgres
  import AuditLog
  import Policy
  import TenantManager

  const HOUR_MS := 3_600_000

  /** `authorization` is the header's value when it is visible ASCII; the body is optional. */
  datatype Request = Request(org: string, app: string, authorization: Option<string>, body: Option<Body>)

  datatype Body = Body(token: Option<string>, publicKey: Option<string>)

  /** What a handler learns from outside: clock readings, the identity provider, a random id, and
      whether the audit entry could be written. */
  datatype Env = Env(countAt: u64, consumeAt: u64, auditAt: u64, introspection: Option<Policy.Claims>,
                     auditId: string, appendOk: bool)

  datatype Status = BadRequest | Unauthorized | Forbidden | TooManyRequests | InternalError

  datatype Response = Enrolled(decision: EnrollmentDecision, auditId: string) | Refused(status: Status)

  /** Who enrolls, and with which decision. */
  datatype Identity = Identity(decision: EnrollmentDecision, idpId: string, subject: string)

  datatype Outcome<+T> = Pass(value: T) | Fail(status: Status)

  function HourBefore(now: u64): u64 { if now < HOUR_MS then 0 else now - HOUR_MS }

  predicate HexDigit(c: char) { '0' <= c <= '9' || 'A' <= c <= 'F' || 'a' <= c <= 'f' }

  /** The text decodes from hexadecimal to 32 bytes. */
  predicate ValidPublicKey(text: string) { |text| == 64 && forall i :: 0 <= i < |text| ==> HexDigit(text[i]) }

  function Bearer(req: Request): Option<string>
  {
    if req.authorization.Some? && StartsWith(req.authorization.value, "Bearer ") then
      Some(req.authorization.value[|"Bearer "|..])
    else if req.body.Some? then req.body.value.token
    else None
  }

  /** The checks up to the enrollment policy, when the count of recent enrollments gave `count`. */
  function GateOn(b: Backend, req: Request, count: Result<nat>): Outcome<FormationConfig>
  {
    match b.FindOrg(req.org)
    case None => Fail(BadRequest)
    case Some(org) =>
      match b.Find(Formations, req.org, req.app)
      case Some(FormationRow(f)) =>
        if req.body.Some? && req.body.value.publicKey.Some? && !ValidPublicKey(req.body.value.publicKey.value)
        then Fail(BadRequest)
        else if count.Err? then Fail(InternalError)
        else if AsU32(count.value) >= org.quotas.maxEnrollmentsPerHour then Fail(TooManyRequests)
        else if f.policy == Strict then Fail(Forbidden)
        else Pass(f)
      case _ => Fail(BadRequest)
  }

  /** The outcomes of count_recent_enrollments: list_audit with the largest limit, then a count. */
  ghost predicate MayCount(b: Backend, org: string, sinceMs: u64, count: Result<nat>)
  {
    match b
    case Redb(db) => count == Ok(AuditLog.CountRecent(db, org, sinceMs))
    case Pg(rel) =>
      exists entries :: Postgres.MayAnswer(rel, org, None, AuditLog.USIZE_MAX, entries)
                        && count == match entries case Err(e) => Err(e)
                                    case Ok(listed) => Ok(|AuditLog.Since(listed, sinceMs)|)
  }

  function FirstEnabled(rows: seq<Row>): Option<IdpConfig>
  {
    if rows == [] then None
    else if rows[0].IdpRow? && rows[0].idp.enabled then Some(rows[0].idp)
    else FirstEnabled(rows[1..])
  }

  function Subject(claims: Policy.Claims): string
  {
    if "sub" in claims && claims["sub"].Str? then claims["sub"].s else "unknown"
  }

  function ByTokenOn(b: Backend, req: Request, bearer: string, now: u64): (Backend, Outcome<Identity>)
  {
    var (b', reply) := ChangeToken(b, ConsumeToken(req.org, req.app, bearer, now));
    if reply.Ok? && reply.value.One? && reply.value.row.TokenRow?
    then (b', Pass(Identity(Policy.DEFAULT, "token", "token:" + reply.value.row.token.tokenId)))
    else (b, Fail(Unauthorized))
  }

  function ByClaimsOn(b: Backend, req: Request, introspection: Option<Policy.Claims>): Outcome<Identity>
  {
    match FirstEnabled(b.Listing(Idps, req.org))
    case None => Fail(BadRequest)
    case Some(idp) =>
      if introspection.None? then Fail(Unauthorized)
      else
        var decision := Policy.Evaluate(Policy.RulesIn(b.Listing(Rules, req.org)), introspection.value);
        Pass(Identity(decision, idp.idpId, Subject(introspection.value)))
  }

  /** The decision; an enrollment token is consumed on the way. */
  function IdentifyOn(b: Backend, f: FormationConfig, req: Request, now: u64, introspection: Option<Policy.Claims>)
    : (Backend, Outcome<Identity>)
  {
    if f.policy == EnrollmentPolicy.Open then (b, Pass(Identity(Policy.DEFAULT, "none", "anonymous")))
    else match Bearer(req)
      case None => (b, Fail(Unauthorized))
      case Some(bearer) =>
        if StartsWith(bearer, "peat_") then ByTokenOn(b, req, bearer, now)
        else (b, ByClaimsOn(b, req, introspection))
  }

  function Entry(req: Request, who: Identity, auditId: string, now: u64): AuditEntry
  {
    AuditEntry(auditId, req.org, req.app, who.idpId, who.subject, who.decision, now)
  }

  /** A failing append is only logged. */
  function AppendedOn(b: Backend, e: AuditEntry, appendOk: bool): Backend
  {
    if appendOk && b.AppendAudit(e).Ok? then b.AppendAudit(e).value else b
  }

  function Verdict(who: Identity, auditId: string): Response
  {
    if who.decision.Denied? then Refused(Forbidden) else Enrolled(who.decision, auditId)
  }

  /** One request on either backend. */
  function EnrollOn(b: Backend, req: Request, env: Env, count: Result<nat>): (Backend, Response)
  {
    match GateOn(b, req, count)
    case Fail(status) => (b, Refused(status))
    case Pass(f) =>
      var (b', outcome) := IdentifyOn(b, f, req, env.consumeAt, env.introspection);
      match outcome
      case Fail(status) => (b', Refused(status))
      case Pass(who) =>
        (AppendedOn(b', Entry(req, who, env.auditId, env.auditAt), env.appendOk), Verdict(who, env.auditId))
  }

  // --- On PostgreSQL ---

  lemma CountFailsOnPostgres(rel: Postgres.Rel, org: string, sinceMs: u64, count: Result<nat>)
    ensures MayCount(Pg(rel), org, sinceMs, count) <==> count == Err(Constraint)
  {
    AuditLog.CountRecentFailsOnPostgres(rel, org, Err(Constraint));
    if entries :| Postgres.MayAnswer(rel, org, None, AuditLog.USIZE_MAX, entries)
                  && count == match entries case Err(e) => Err(e)
                              case Ok(listed) => Ok(|AuditLog.Since(listed, sinceMs)|) {
      AuditLog.CountRecentFailsOnPostgres(rel, org, entries);
    }
  }

  /** On PostgreSQL nobody is enrolled and nothing is stored, whatever the store and the request: a
      request that gets as far as the count ends there with an internal error. */
  lemma PostgresNeverEnrolls(rel: Postgres.Rel, req: Request, env: Env, count: Result<nat>)
    requires MayCount(Pg(rel), req.org, HourBefore(env.countAt), count)
    ensures var reachesCount := req.org in rel.orgs && (Formations, req.org, req.app) in rel.rows
                                && rel.rows[(Formations, req.org, req.app)].FormationRow?
                                && (req.body.Some? && req.body.value.publicKey.Some?
                                    ==> ValidPublicKey(req.body.value.publicKey.value));
            EnrollOn(Pg(rel), req, env, count)
            == (Pg(rel), Refused(if reachesCount then InternalError else BadRequest))
  {
    CountFailsOnPostgres(rel, req.org, HourBefore(env.countAt), count);
  }

  // --- On the embedded store ---

  function GateAt(db: Redb.Db, req: Request, recent: nat): Outcome<FormationConfig> { GateOn(Redb(db), req, Ok(recent)) }

  function Gate(db: Redb.Db, req: Request, now: u64): Outcome<FormationConfig>
  {
    GateAt(db, req, AuditLog.CountRecent(db, req.org, HourBefore(now)))
  }

  lemma GateIsLive(db: Redb.Db, req: Request, recent: nat)
    ensures GateAt(db, req, recent).Pass? ==> req.org in db.orgs
  {
  }

  function DbOf(b: Backend): Redb.Db { if b.Redb? then b.db else Redb.EMPTY }

  function ByToken(db: Redb.Db, req: Request, bearer: string, now: u64): (Redb.Db, Outcome<Identity>)
  {
    var (b, r) := ByTokenOn(Redb(db), req, bearer, now);
    (DbOf(b), r)
  }

  function Identify(db: Redb.Db, f: FormationConfig, req: Request, now: u64, introspection: Option<Policy.Claims>)
    : (Redb.Db, Outcome<Identity>)
  {
    var (b, r) := IdentifyOn(Redb(db), f, req, now, introspection);
    (DbOf(b), r)
  }

  function Appended(db: Redb.Db, e: AuditEntry): Redb.Db
  {
    db.(rows := db.rows[(Audit, AuditKey(e.orgId, e.timestampMs, e.auditId)) := AuditRow(e)])
  }

  /** The handler after the gate. */
  function Served(db: Redb.Db, req: Request, env: Env, gate: Outcome<FormationConfig>): (Redb.Db, Response)
  {
    match gate
    case Fail(status) => (db, Refused(status))
    case Pass(f) =>
      var (db', outcome) := Identify(db, f, req, env.consumeAt, env.introspection);
      match outcome
      case Fail(status) => (db', Refused(status))
      case Pass(who) =>
        (if env.appendOk then Appended(db', Entry(req, who, env.auditId, env.auditAt)) else db',
         Verdict(who, env.auditId))
  }

  function Enroll(db: Redb.Db, req: Request, env: Env): (Redb.Db, Response)
  {
    Served(db, req, env, Gate(db, req, env.countAt))
  }

  lemma IdentifiesOnRedb(db: Redb.Db, f: FormationConfig, req: Request, now: u64, introspection: Option<Policy.Claims>)
    ensures IdentifyOn(Redb(db), f, req, now, introspection).0
            == Redb(Identify(db, f, req, now, introspection).0)
  {
  }

  /** On redb the handler is `Enroll`. */
  lemma EnrollsOnRedb(db: Redb.Db, req: Request, env: Env, count: Result<nat>)
    requires MayCount(Redb(db), req.org, HourBefore(env.countAt), count)
    ensures EnrollOn(Redb(db), req, env, count) == (Redb(Enroll(db, req, env).0), Enroll(db, req, env).1)
  {
    var gate := Gate(db, req, env.countAt);
    if gate.Pass? { IdentifiesOnRedb(db, gate.value, req, env.consumeAt, env.introspection); }
  }

  /** The handler's checks up to the enrollment policy. */
  method PassGate(mgr: TenantManager.TenantManager, req: Request, now: u64) returns (r: Outcome<FormationConfig>)
    ensures r == Gate(mgr.store.View(), req, now)
  {
    var org := mgr.store.GetOrg(req.org);
    if org.None? {
      return Fail(BadRequest);
    }
    var found := mgr.store.Get(Formations, req.org, req.app);
    if found.None? || !found.value.FormationRow? {
      return Fail(BadRequest);
    }
    if req.body.Some? && req.body.value.publicKey.Some? && !ValidPublicKey(req.body.value.publicKey.value) {
      return Fail(BadRequest);
    }
    var recent := AuditLog.CountRecentEnrollments(mgr.store, req.org, HourBefore(now));
    if AsU32(recent) >= org.value.quotas.maxEnrollmentsPerHour {
      return Fail(TooManyRequests);
    }
    if found.value.formation.policy == Strict {
      return Fail(Forbidden);
    }
    return Pass(found.value.formation);
  }

  /** The handler's decision. */
  method IdentifyDevice(mgr: TenantManager.TenantManager, f: FormationConfig, req: Request, now: u64,
                        introspection: Option<Policy.Claims>)
    returns (r: Outcome<Identity>)
    modifies mgr.store
    ensures (mgr.store.View(), r) == Identify(old(mgr.store.View()), f, req, now, introspection)
  {
    if f.policy == EnrollmentPolicy.Open {
      return Pass(Identity(Policy.DEFAULT, "none", "anonymous"));
    }
    var bearer := Bearer(req);
    if bearer.None? {
      return Fail(Unauthorized);
    }
    if StartsWith(bearer.value, "peat_") {
      var consumed := mgr.ValidateAndConsumeToken(req.org, req.app, bearer.value, now);
      if consumed.Err? {
        return Fail(Unauthorized);
      }
      return Pass(Identity(Policy.DEFAULT, "token", "token:" + consumed.value.row.token.tokenId));
    }
    var idps := mgr.store.List(Idps, req.org);
    var idp := FirstEnabled(idps);
    if idp.None? {
      return Fail(BadRequest);
    }
    if introspection.None? {
      return Fail(Unauthorized);
    }
    var rules := mgr.store.List(Rules, req.org);
    var decision := Policy.EvaluatePolicy(Policy.RulesIn(rules), introspection.value);
    return Pass(Identity(decision, idp.value.idpId, Subject(introspection.value)));
  }

  /** One request, as the handler serves it on the store. */
  method EnrollDevice(mgr: TenantManager.TenantManager, req: Request, env: Env) returns (r: Response)
    modifies mgr.store
    ensures (mgr.store.View(), r) == Enroll(old(mgr.store.View()), req, env)
  {
    var gate := PassGate(mgr, req, env.countAt);
    if gate.Fail? {
      return Refused(gate.status);
    }
    var who := IdentifyDevice(mgr, gate.value, req, env.consumeAt, env.introspection);
    if who.Fail? {
      return Refused(who.status);
    }
    if env.appendOk {
      mgr.AppendAudit(Entry(req, who.value, env.auditId, env.auditAt));
    }
    return Verdict(who.value, env.auditId);
  }
}
