/** Enrollment tokens and the audit log are conserved together: over every run of enrollments and
    manager calls a token's use counter is the number of audit entries it paid for, those that could
    not be written included. */
module Tokens {
  import opened Models
  import opened Lex
  import opened Keys
  import opened Manager
  import opened Refinement
  import opened Ownership
  import opened AuditLog
  import opened Enroll
  import RateLimit
  import Calls
  import Redb
  import Policy

  predicate Books(e: AuditEntry, id: string) { e.idpId == "token" && e.subject == "token:" + id }

  ghost function Booked(log: set<AuditEntry>, id: string): set<AuditEntry> { set e | e in log && Books(e, id) }

  /** The organization's audit entries that were admitted by the token. */
  ghost function UsesOf(db: Redb.Db, org: string, id: string): set<AuditEntry> { Booked(Log(db, org), id) }

  ghost predicate HasToken(db: Redb.Db, org: string, t: EnrollmentToken)
  {
    (Tokens, Key(org, t.tokenId)) in db.rows && db.rows[(Tokens, Key(org, t.tokenId))] == TokenRow(t)
  }

  /** How many entries of each token could not be appended. */
  type Lost = map<(string, string), nat>

  function LostOf(lost: Lost, org: string, id: string): nat { if (org, id) in lost then lost[(org, id)] else 0 }

  /** What the token has paid for: its entries, written or lost. */
  ghost function Paid(db: Redb.Db, lost: Lost, org: string, id: string): nat
  {
    |UsesOf(db, org, id)| + LostOf(lost, org, id)
  }

  /** The counter is a u32; under a `max_uses` it is the exact number, and at most that. */
  ghost predicate Tallied(db: Redb.Db, lost: Lost, org: string, t: EnrollmentToken)
  {
    t.uses == AsU32(Paid(db, lost, org, t.tokenId))
    && (t.maxUses.Some? ==> t.uses == Paid(db, lost, org, t.tokenId) <= t.maxUses.value)
  }

  ghost predicate AllTallied(db: Redb.Db, lost: Lost)
  {
    forall org, t :: org in db.orgs && HasToken(db, org, t) ==> Tallied(db, lost, org, t)
  }

  ghost predicate IdpsNamed(db: Redb.Db)
  {
    forall k :: (Idps, k) in db.rows ==> db.rows[(Idps, k)].IdpRow? && db.rows[(Idps, k)].idp.idpId != "token"
  }

  /** What every run keeps. */
  ghost predicate Basis(db: Redb.Db) { Owned(db) && IdpsNamed(db) }

  ghost predicate Inv(db: Redb.Db, lost: Lost)
  {
    Basis(db) && LogsOwned(db) && AllTallied(db, lost)
  }

  // --- Runs ---

  datatype Act = Serve(req: Request, env: Env) | Manage(s: Session, op: Op)

  function Do(db: Redb.Db, act: Act): Redb.Db
  {
    match act
    case Serve(req, env) => Enroll.Enroll(db, req, env).0
    case Manage(s, op) => var b := Step(s, Redb(db), op).0; if b.Redb? then b.db else db
  }

  /** The token id in the subject of an entry. */
  function PayerOf(who: Identity): string { if |who.subject| < 6 then "" else who.subject[6..] }

  function Lose(lost: Lost, req: Request, env: Env, outcome: Outcome<Identity>): Lost
  {
    if env.appendOk || outcome.Fail? || outcome.value.idpId != "token" then lost
    else
      var id := PayerOf(outcome.value);
      lost[(req.org, id) := LostOf(lost, req.org, id) + 1]
  }

  function LostBy(db: Redb.Db, lost: Lost, act: Act): Lost
  {
    match act
    case Serve(req, env) =>
      (match Gate(db, req, env.countAt)
       case Fail(_) => lost
       case Pass(f) => Lose(lost, req, env, Identify(db, f, req, env.consumeAt, env.introspection).1))
    case Manage(_, _) => lost
  }

  ghost predicate FreshEntry(db: Redb.Db, org: string, auditId: string)
  {
    forall x :: HasEntry(db, x) && x.orgId == org ==> x.auditId != auditId
  }

  /** Only enrollments consume tokens, no provider is called "token", and a new token's id is fresh. */
  ghost predicate Orderly(db: Redb.Db, act: Act)
  {
    act.Manage? ==>
      var op := act.op;
      && !op.ConsumeToken?
      && (op.CreateIdp? ==> op.id != "token")
      && (op.CreateToken? ==> (Tokens, Key(op.org, op.id)) !in db.rows)
  }

  /** Besides, random ids were never drawn before, only enrollments append audit entries, cursors are
      set for live organizations, and ids of deleted organizations are free of NUL. */
  ghost predicate Permitted(db: Redb.Db, lost: Lost, act: Act)
  {
    Orderly(db, act) && match act
    case Serve(req, env) => FreshEntry(db, req.org, env.auditId)
    case Manage(s, op) =>
      && !op.AppendAudit?
      && LiveWrites(db, op)
      && (op.DeleteOrg? ==> NulFree(op.org))
      && (op.CreateToken? ==> Paid(db, lost, op.org, op.id) == 0)
  }

  // --- What a manager call does to one token row ---

  ghost predicate Untouched(db: Redb.Db, db': Redb.Db, k: string)
  {
    (Tokens, k) in db'.rows ==> (Tokens, k) in db.rows && db'.rows[(Tokens, k)] == db.rows[(Tokens, k)]
  }

  ghost predicate Fate(db: Redb.Db, db': Redb.Db, op: Op, k: string)
  {
    || Untouched(db, db', k)
    || (op.RevokeToken? && k == Key(op.org, op.id) && (Tokens, k) in db.rows && db.rows[(Tokens, k)].TokenRow?
        && !db.rows[(Tokens, k)].token.revoked && (Tokens, k) in db'.rows
        && db'.rows[(Tokens, k)] == TokenRow(db.rows[(Tokens, k)].token.(revoked := true)))
    || (op.CreateToken? && k == Key(op.org, op.id) && op.org in db.orgs && (Tokens, k) in db'.rows
        && db'.rows[(Tokens, k)] == NewRow(op).1)
  }

  lemma RevokeFate(db: Redb.Db, op: Op, k: string)
    requires Owned(db) && op.RevokeToken?
    ensures var b := ChangeToken(Redb(db), op).0; b.Redb? && Fate(db, b.db, op, k)
  {
    if (Tokens, Key(op.org, op.id)) in db.rows { FoundRow(db, Tokens, op.org, op.id); }
  }

  lemma CreateFate(db: Redb.Db, op: Op, k: string)
    requires CreatesRow(op)
    ensures var b := CreateRow(Redb(db), op).0; b.Redb? && Fate(db, b.db, op, k)
  {
    CreateRowOutcome(db, op);
    assert NewRow(op).0 == Tokens <==> op.CreateToken?;
  }

  lemma FormationFate(s: Session, db: Redb.Db, op: Op, k: string)
    requires op.CreateFormation? || op.DeleteFormation?
    ensures var b := FormationStep(s, Redb(db), op).0; b.Redb? && Untouched(db, b.db, k)
  {
    FormationOutcome(s, db, op);
    if op.CreateFormation? && StoredGenesis(s, op.genesis, op.coins).Ok? {
      WriteFormationFate(db, op.org, FormationConfig(op.app, op.genesis.meshId, op.policy),
                         StoredGenesis(s, op.genesis, op.coins).value, k);
    }
  }

  lemma WriteFormationFate(db: Redb.Db, org: string, f: FormationConfig, stored: bytes, k: string)
    ensures var b := WriteFormation(Redb(db), org, f, stored).0; b.Redb? && Untouched(db, b.db, k)
  {
  }

  lemma ToggleFate(db: Redb.Db, op: Op, k: string)
    requires op.Toggle?
    ensures var b := Toggled(Redb(db), op).0; b.Redb? && Untouched(db, b.db, k)
  {
  }

  lemma StepFate(s: Session, db: Redb.Db, op: Op, k: string)
    requires Owned(db) && !op.ConsumeToken?
    ensures var b := Step(s, Redb(db), op).0; b.Redb? && Fate(db, b.db, op, k)
  {
    if ReadsOnly(op) {
    } else if CreatesRow(op) {
      CreateFate(db, op, k);
    } else if op.CreateFormation? || op.DeleteFormation? {
      FormationFate(s, db, op, k);
    } else if op.RevokeToken? {
      RevokeFate(db, op, k);
    } else if op.Toggle? {
      ToggleFate(db, op, k);
    } else if op.DeleteOrg? || op.AppendAudit? || op.SetCursor? {
      LoudStep(s, db, op);
    }
  }

  // --- What a manager call does to the log of an organization ---

  lemma DeletionKeepsLog(db: Redb.Db, gone: string, org: string)
    requires NulFree(gone) && NulFree(org) && gone != org
    ensures Log(Redb.WithoutOrg(db, gone), org) == Log(db, org)
  {
    forall e | HasEntry(db, e) && e.orgId == org ensures HasEntry(Redb.WithoutOrg(db, gone), e) {
      AuditKeyNested(e);
      PrefixExact(org, AuditId(e), gone);
    }
  }

  lemma StepKeepsLog(s: Session, db: Redb.Db, op: Op, org: string)
    requires !op.AppendAudit? && (op.DeleteOrg? ==> NulFree(op.org) && NulFree(org) && op.org != org)
    ensures var b := Step(s, Redb(db), op).0; b.Redb? && Log(b.db, org) == Log(db, org)
  {
    LoudStep(s, db, op);
    if op.DeleteOrg? {
      DeletionKeepsLog(db, op.org, org);
    } else if !op.SetCursor? {
      NoNewLogs(s, db, op);
      SameAuditSameLog(db, Step(s, Redb(db), op).0, org);
    }
  }

  // --- Manager calls keep the tally ---

  lemma UsesFollowLog(db: Redb.Db, db': Redb.Db, org: string, id: string)
    requires Log(db', org) == Log(db, org)
    ensures UsesOf(db', org, id) == UsesOf(db, org, id)
  {
  }

  lemma FateTallied(db: Redb.Db, lost: Lost, db': Redb.Db, op: Op, org: string, t: EnrollmentToken)
    requires Owned(db) && AllTallied(db, lost) && org in db.orgs && Log(db', org) == Log(db, org)
    requires Fate(db, db', op, Key(org, t.tokenId)) && HasToken(db', org, t)
    requires op.CreateToken? ==> Paid(db, lost, op.org, op.id) == 0
    ensures Tallied(db', lost, org, t)
  {
    UsesFollowLog(db, db', org, t.tokenId);
    var k := Key(org, t.tokenId);
    if Untouched(db, db', k) {
      assert HasToken(db, org, t);
    } else if op.RevokeToken? {
      FiledAt(db, Tokens, org, t.tokenId);
      assert HasToken(db, org, db.rows[(Tokens, k)].token);
    } else {
      KeyInjective(org, t.tokenId, op.org, op.id);
    }
  }

  lemma NewOrgHasNoTokens(s: Session, db: Redb.Db, op: Op, org: string, t: EnrollmentToken)
    requires Owned(db) && LogsOwned(db) && org !in db.orgs && !op.ConsumeToken?
    requires var b := Step(s, Redb(db), op).0; b.Redb? && org in b.db.orgs && NulFree(org)
    ensures !HasToken(Step(s, Redb(db), op).0.db, org, t)
  {
    var db' := Step(s, Redb(db), op).0.db;
    DeadOrgIsVacant(db, org);
    StepFate(s, db, op, Key(org, t.tokenId));
    if !op.CreateOrg? && !op.UpdateOrg? && !op.DeleteOrg? { OrgsKept(s, db, op); }
  }

  lemma KeptOrgTallied(db: Redb.Db, lost: Lost, s: Session, op: Op, org: string, t: EnrollmentToken)
    requires Inv(db, lost) && Permitted(db, lost, Manage(s, op)) && org in db.orgs
    requires var b := Step(s, Redb(db), op).0; b.Redb? && org in b.db.orgs && HasToken(b.db, org, t)
    ensures Tallied(Step(s, Redb(db), op).0.db, lost, org, t)
  {
    if op.DeleteOrg? { LoudStep(s, db, op); }
    StepKeepsLog(s, db, op, org);
    StepFate(s, db, op, Key(org, t.tokenId));
    FateTallied(db, lost, Step(s, Redb(db), op).0.db, op, org, t);
  }

  lemma StepTallied(db: Redb.Db, lost: Lost, s: Session, op: Op, org: string, t: EnrollmentToken)
    requires Inv(db, lost) && Permitted(db, lost, Manage(s, op))
    requires var b := Step(s, Redb(db), op).0; OwnedBackend(b) && org in b.db.orgs && HasToken(b.db, org, t)
    ensures Tallied(Step(s, Redb(db), op).0.db, lost, org, t)
  {
    if org in db.orgs { KeptOrgTallied(db, lost, s, op, org, t); } else { NewOrgHasNoTokens(s, db, op, org, t); }
  }

  lemma ManageTallied(db: Redb.Db, lost: Lost, s: Session, op: Op)
    requires Inv(db, lost) && Permitted(db, lost, Manage(s, op))
    ensures AllTallied(Do(db, Manage(s, op)), lost)
  {
    StepOwned(s, db, op);
    var db' := Step(s, Redb(db), op).0.db;
    forall org, t | org in db'.orgs && HasToken(db', org, t) ensures Tallied(db', lost, org, t) {
      StepTallied(db, lost, s, op, org, t);
    }
  }

  lemma CreateNames(db: Redb.Db, op: Op)
    requires IdpsNamed(db) && CreatesRow(op) && (op.CreateIdp? ==> op.id != "token")
    ensures var b := CreateRow(Redb(db), op).0; b.Redb? && IdpsNamed(b.db)
  {
    CreateRowOutcome(db, op);
  }

  lemma ToggleNames(db: Redb.Db, op: Op)
    requires Owned(db) && IdpsNamed(db) && op.Toggle?
    ensures var b := Toggled(Redb(db), op).0; b.Redb? && IdpsNamed(b.db)
  {
    if op.t in {Sinks, Idps} && (op.t, Key(op.org, op.id)) in db.rows { FoundRow(db, op.t, op.org, op.id); }
  }

  lemma FormationNames(s: Session, db: Redb.Db, op: Op)
    requires IdpsNamed(db) && (op.CreateFormation? || op.DeleteFormation?)
    ensures var b := FormationStep(s, Redb(db), op).0; b.Redb? && IdpsNamed(b.db)
  {
    FormationOutcome(s, db, op);
  }

  lemma ManageNames(db: Redb.Db, s: Session, op: Op)
    requires Owned(db) && IdpsNamed(db) && Orderly(db, Manage(s, op))
    ensures IdpsNamed(Do(db, Manage(s, op)))
  {
    if CreatesRow(op) {
      CreateNames(db, op);
    } else if op.CreateFormation? || op.DeleteFormation? {
      FormationNames(s, db, op);
    } else if op.Toggle? {
      ToggleNames(db, op);
    } else if op.DeleteOrg? || op.SetCursor? || op.AppendAudit? {
      LoudStep(s, db, op);
    }
  }

  // --- Enrollments keep the tally ---

  lemma {:induction false} FirstEnabledIn(rows: seq<Row>)
    ensures FirstEnabled(rows).Some? ==> IdpRow(FirstEnabled(rows).value) in rows
  {
    if rows != [] { FirstEnabledIn(rows[1..]); }
  }

  lemma ClaimsNamed(db: Redb.Db, req: Request, introspection: Option<Policy.Claims>)
    requires IdpsNamed(db)
    ensures var r := ByClaimsOn(Redb(db), req, introspection); r.Pass? ==> r.value.idpId != "token"
  {
    ListingById(db.rows, Idps, req.org);
    FirstEnabledIn(Redb.Listing(db.rows, Idps, req.org));
  }

  /** The token that a request presents, if it can be consumed. */
  ghost predicate Spends(db: Redb.Db, req: Request, now: u64, t: EnrollmentToken)
  {
    HasToken(db, req.org, t) && t.orgId == req.org && Calls.Admits(t, req.app, now)
  }

  function AfterUse(db: Redb.Db, t: EnrollmentToken): Redb.Db
  {
    db.(rows := db.rows[(Tokens, Key(t.orgId, t.tokenId)) := TokenRow(Consumed(t))])
  }

  lemma ByTokenOutcome(db: Redb.Db, req: Request, bearer: string, now: u64)
    requires Owned(db) && req.org in db.orgs
    ensures var (db', r) := ByToken(db, req, bearer, now);
            if r.Fail? then db' == db
            else r.value.idpId == "token"
                 && exists t :: Spends(db, req, now, t) && r.value.subject == "token:" + t.tokenId && db' == AfterUse(db, t)
  {
    if (Tokens, Key(req.org, bearer)) in db.rows {
      FiledAt(db, Tokens, req.org, bearer);
      var t := db.rows[(Tokens, Key(req.org, bearer))].token;
      assert HasToken(db, req.org, t);
      Calls.AdmitsIff(t, req.app, now);
    }
  }

  /** An enrollment that passes either leaves the tokens alone and is not booked on one, or spends
      one token and is booked on that. */
  lemma IdentifyOutcome(db: Redb.Db, f: FormationConfig, req: Request, now: u64, introspection: Option<Policy.Claims>)
    requires Owned(db) && IdpsNamed(db) && req.org in db.orgs
    ensures var (db', r) := Identify(db, f, req, now, introspection);
            || (db' == db && (r.Pass? ==> r.value.idpId != "token"))
            || (r.Pass? && r.value.idpId == "token"
                && exists t :: Spends(db, req, now, t) && r.value.subject == "token:" + t.tokenId && db' == AfterUse(db, t))
  {
    var bearer := Bearer(req);
    if f.policy != EnrollmentPolicy.Open && bearer.Some? {
      if StartsWith(bearer.value, "peat_") {
        ByTokenOutcome(db, req, bearer.value, now);
      } else {
        ClaimsNamed(db, req, introspection);
      }
    }
  }

  lemma FreshKey(db: Redb.Db, e: AuditEntry)
    requires AuditFiled(db) && NulFree(e.orgId) && FreshEntry(db, e.orgId, e.auditId)
    ensures (Audit, AuditKey(e.orgId, e.timestampMs, e.auditId)) !in db.rows
  {
    var key := AuditKey(e.orgId, e.timestampMs, e.auditId);
    if (Audit, key) in db.rows {
      var x := db.rows[(Audit, key)].entry;
      assert HasEntry(db, x);
      AuditKeyInjective(x, e);
    }
  }

  lemma AppendedExact(db: Redb.Db, e: AuditEntry, org: string)
    requires AuditFiled(db) && NulFree(e.orgId) && FreshEntry(db, e.orgId, e.auditId)
    ensures Log(Appended(db, e), org) == if e.orgId == org then Log(db, org) + {e} else Log(db, org)
    ensures e !in Log(db, org)
  {
    FreshKey(db, e);
    forall x ensures HasEntry(Appended(db, e), x) <==> HasEntry(db, x) || x == e { }
  }

  lemma SubjectInjective(a: string, b: string)
    requires "token:" + a == "token:" + b
    ensures a == b
  {
    assert ("token:" + a)[6..] == a && ("token:" + b)[6..] == b;
  }

  lemma BookedPlus(log: set<AuditEntry>, e: AuditEntry, id: string)
    requires e !in log
    ensures |Booked(log + {e}, id)| == |Booked(log, id)| + if Books(e, id) then 1 else 0
  {
    assert Booked(log + {e}, id) == Booked(log, id) + if Books(e, id) then {e} else {};
  }

  lemma UsesAfterAppend(db: Redb.Db, e: AuditEntry, org: string, id: string)
    requires AuditFiled(db) && NulFree(e.orgId) && FreshEntry(db, e.orgId, e.auditId)
    ensures |UsesOf(Appended(db, e), org, id)|
            == |UsesOf(db, org, id)| + if e.orgId == org && Books(e, id) then 1 else 0
  {
    AppendedExact(db, e, org);
    if e.orgId == org { BookedPlus(Log(db, org), e, id); }
  }

  lemma AppendKeepsBasis(db: Redb.Db, e: AuditEntry)
    requires Basis(db)
    ensures Basis(Appended(db, e))
  {
  }

  lemma OtherTallied(db: Redb.Db, lost: Lost, e: AuditEntry, org: string, t: EnrollmentToken)
    requires AuditFiled(db) && NulFree(e.orgId) && FreshEntry(db, e.orgId, e.auditId) && e.idpId != "token"
    requires Tallied(db, lost, org, t)
    ensures Tallied(Appended(db, e), lost, org, t)
  {
    UsesAfterAppend(db, e, org, t.tokenId);
  }

  lemma OtherTallies(db: Redb.Db, lost: Lost, e: AuditEntry)
    requires AuditFiled(db) && NulFree(e.orgId) && AllTallied(db, lost)
    requires FreshEntry(db, e.orgId, e.auditId) && e.idpId != "token"
    ensures AllTallied(Appended(db, e), lost)
  {
    forall org, t | org in db.orgs && HasToken(Appended(db, e), org, t) ensures Tallied(Appended(db, e), lost, org, t) {
      assert HasToken(db, org, t);
      OtherTallied(db, lost, e, org, t);
    }
  }

  lemma BookOther(db: Redb.Db, lost: Lost, e: AuditEntry)
    requires Inv(db, lost) && e.orgId in db.orgs && FreshEntry(db, e.orgId, e.auditId) && e.idpId != "token"
    ensures Inv(Appended(db, e), lost)
  {
    AppendKeepsBasis(db, e);
    AppendLogsOwned(db, e);
    LogsAreFiled(db);
    OtherTallies(db, lost, e);
  }

  lemma AfterUseOwned(db: Redb.Db, req: Request, now: u64, t: EnrollmentToken)
    requires Owned(db) && LogsOwned(db) && req.org in db.orgs && Spends(db, req, now, t)
    ensures var db' := AfterUse(db, t); Owned(db') && LogsOwned(db') && forall e :: HasEntry(db', e) <==> HasEntry(db, e)
  {
    PutOwned(db, Tokens, t.orgId, t.tokenId, TokenRow(Consumed(t)));
    PutSameLogs(db, Tokens, Key(t.orgId, t.tokenId), TokenRow(Consumed(t)));
    SameLogsOwned(db, Redb(AfterUse(db, t)));
  }

  lemma SpentTallied(db: Redb.Db, lost: Lost, req: Request, now: u64, t: EnrollmentToken, org: string, u: EnrollmentToken)
    requires AllTallied(db, lost) && req.org in db.orgs && Spends(db, req, now, t)
    requires NulFree(org) && NulFree(req.org) && org in db.orgs && HasToken(AfterUse(db, t), org, u)
    ensures if org == req.org && u.tokenId == t.tokenId then u == Consumed(t) && Tallied(db, lost, org, t)
            else HasToken(db, org, u) && Tallied(db, lost, org, u)
  {
    if Key(org, u.tokenId) == Key(t.orgId, t.tokenId) { KeyInjective(org, u.tokenId, t.orgId, t.tokenId); }
  }

  lemma OneMore(t: EnrollmentToken, app: string, now: u64, n: nat)
    requires Calls.Admits(t, app, now) && t.uses == AsU32(n) && (t.maxUses.Some? ==> t.uses == n <= t.maxUses.value)
    ensures var t' := Consumed(t); t'.uses == AsU32(n + 1) && (t'.maxUses.Some? ==> t'.uses == n + 1 <= t'.maxUses.value)
  {
  }

  lemma AfterUseLog(db: Redb.Db, t: EnrollmentToken, org: string)
    ensures Log(AfterUse(db, t), org) == Log(db, org)
  {
    PutSameLogs(db, Tokens, Key(t.orgId, t.tokenId), TokenRow(Consumed(t)));
    SameAuditSameLog(db, Redb(AfterUse(db, t)), org);
  }

  /** One use paid, by an entry or by a lost one. */
  ghost predicate PaysOnce(db: Redb.Db, lost: Lost, db': Redb.Db, lost': Lost, org: string, id: string)
  {
    forall o, i :: o in db.orgs ==>
      Paid(db', lost', o, i) == Paid(db, lost, o, i) + if o == org && i == id then 1 else 0
  }

  lemma EntryPays(db: Redb.Db, lost: Lost, req: Request, now: u64, t: EnrollmentToken, e: AuditEntry)
    requires Owned(db) && LogsOwned(db) && req.org in db.orgs && Spends(db, req, now, t)
    requires e.orgId == req.org && FreshEntry(db, e.orgId, e.auditId) && Books(e, t.tokenId)
    ensures PaysOnce(db, lost, Appended(AfterUse(db, t), e), lost, req.org, t.tokenId)
  {
    AfterUseOwned(db, req, now, t);
    LogsAreFiled(AfterUse(db, t));
    forall o, i | o in db.orgs
      ensures Paid(Appended(AfterUse(db, t), e), lost, o, i)
              == Paid(db, lost, o, i) + if o == req.org && i == t.tokenId then 1 else 0
    {
      AfterUseLog(db, t, o);
      UsesAfterAppend(AfterUse(db, t), e, o, i);
      if Books(e, i) { SubjectInjective(i, t.tokenId); }
    }
  }

  lemma LossPays(db: Redb.Db, lost: Lost, t: EnrollmentToken, org: string)
    ensures PaysOnce(db, lost, AfterUse(db, t), lost[(org, t.tokenId) := LostOf(lost, org, t.tokenId) + 1], org, t.tokenId)
  {
    forall o ensures Log(AfterUse(db, t), o) == Log(db, o) { AfterUseLog(db, t, o); }
  }

  lemma PaidTallied(db: Redb.Db, lost: Lost, db': Redb.Db, lost': Lost, req: Request, now: u64, t: EnrollmentToken,
                    org: string, u: EnrollmentToken)
    requires org in db.orgs && PaysOnce(db, lost, db', lost', req.org, t.tokenId) && Calls.Admits(t, req.app, now)
    requires if org == req.org && u.tokenId == t.tokenId then u == Consumed(t) && Tallied(db, lost, org, t)
             else Tallied(db, lost, org, u)
    ensures Tallied(db', lost', org, u)
  {
    if org == req.org && u.tokenId == t.tokenId { OneMore(t, req.app, now, Paid(db, lost, org, t.tokenId)); }
  }

  ghost predicate SameTokens(db: Redb.Db, db': Redb.Db)
  {
    db'.orgs == db.orgs
    && forall k :: ((Tokens, k) in db'.rows <==> (Tokens, k) in db.rows)
                   && ((Tokens, k) in db.rows ==> db'.rows[(Tokens, k)] == db.rows[(Tokens, k)])
  }

  lemma AppendSameTokens(db: Redb.Db, e: AuditEntry)
    ensures SameTokens(db, Appended(db, e))
  {
  }

  lemma AfterUseBasis(db: Redb.Db, req: Request, now: u64, t: EnrollmentToken)
    requires Basis(db) && LogsOwned(db) && req.org in db.orgs && Spends(db, req, now, t)
    ensures Basis(AfterUse(db, t)) && LogsOwned(AfterUse(db, t)) && AfterUse(db, t).orgs == db.orgs
  {
    AfterUseOwned(db, req, now, t);
  }

  lemma UseTallied(db: Redb.Db, lost: Lost, db': Redb.Db, lost': Lost, req: Request, now: u64, t: EnrollmentToken,
                   org: string, u: EnrollmentToken)
    requires AllTallied(db, lost) && req.org in db.orgs && Spends(db, req, now, t)
    requires PaysOnce(db, lost, db', lost', req.org, t.tokenId)
    requires NulFree(org) && NulFree(req.org) && org in db.orgs && HasToken(AfterUse(db, t), org, u)
    ensures Tallied(db', lost', org, u)
  {
    SpentTallied(db, lost, req, now, t, org, u);
    PaidTallied(db, lost, db', lost', req, now, t, org, u);
  }

  lemma SameTokensHave(db: Redb.Db, db': Redb.Db, org: string, u: EnrollmentToken)
    requires SameTokens(db, db') && HasToken(db', org, u)
    ensures HasToken(db, org, u)
  {
  }

  lemma NamedUseTallies(db: Redb.Db, lost: Lost, db': Redb.Db, lost': Lost, req: Request, now: u64, t: EnrollmentToken)
    requires (forall o :: o in db.orgs ==> NulFree(o)) && AllTallied(db, lost)
    requires req.org in db.orgs && Spends(db, req, now, t)
    requires PaysOnce(db, lost, db', lost', req.org, t.tokenId) && SameTokens(AfterUse(db, t), db')
    ensures AllTallied(db', lost')
  {
    assert db'.orgs == db.orgs;
    forall org, u | org in db.orgs && HasToken(db', org, u) ensures Tallied(db', lost', org, u) {
      SameTokensHave(AfterUse(db, t), db', org, u);
      UseTallied(db, lost, db', lost', req, now, t, org, u);
    }
  }

  /** A use that is paid keeps the tally. */
  lemma UseTallies(db: Redb.Db, lost: Lost, db': Redb.Db, lost': Lost, req: Request, now: u64, t: EnrollmentToken)
    requires Owned(db) && AllTallied(db, lost) && req.org in db.orgs && Spends(db, req, now, t)
    requires PaysOnce(db, lost, db', lost', req.org, t.tokenId) && SameTokens(AfterUse(db, t), db')
    ensures AllTallied(db', lost')
  {
    NamedUseTallies(db, lost, db', lost', req, now, t);
  }

  lemma BookToken(db: Redb.Db, lost: Lost, req: Request, now: u64, t: EnrollmentToken, e: AuditEntry)
    requires Inv(db, lost) && req.org in db.orgs && Spends(db, req, now, t)
    requires e.orgId == req.org && FreshEntry(db, e.orgId, e.auditId) && Books(e, t.tokenId)
    ensures Inv(Appended(AfterUse(db, t), e), lost)
  {
    AfterUseBasis(db, req, now, t);
    AppendKeepsBasis(AfterUse(db, t), e);
    AppendLogsOwned(AfterUse(db, t), e);
    EntryPays(db, lost, req, now, t, e);
    AppendSameTokens(AfterUse(db, t), e);
    UseTallies(db, lost, Appended(AfterUse(db, t), e), lost, req, now, t);
  }

  lemma LoseToken(db: Redb.Db, lost: Lost, req: Request, now: u64, t: EnrollmentToken)
    requires Inv(db, lost) && req.org in db.orgs && Spends(db, req, now, t)
    ensures Inv(AfterUse(db, t), lost[(req.org, t.tokenId) := LostOf(lost, req.org, t.tokenId) + 1])
  {
    AfterUseBasis(db, req, now, t);
    LossPays(db, lost, t, req.org);
    UseTallies(db, lost, AfterUse(db, t), lost[(req.org, t.tokenId) := LostOf(lost, req.org, t.tokenId) + 1], req, now, t);
  }

  /** The store and the losses after the decision. */
  function Recorded(db: Redb.Db, req: Request, env: Env, r: Outcome<Identity>): Redb.Db
  {
    if r.Pass? && env.appendOk then Appended(db, Entry(req, r.value, env.auditId, env.auditAt)) else db
  }

  lemma RecordOther(db: Redb.Db, lost: Lost, req: Request, env: Env, r: Outcome<Identity>)
    requires Inv(db, lost) && req.org in db.orgs && FreshEntry(db, req.org, env.auditId)
    requires r.Pass? ==> r.value.idpId != "token"
    ensures Inv(Recorded(db, req, env, r), Lose(lost, req, env, r))
  {
    if r.Pass? && env.appendOk { BookOther(db, lost, Entry(req, r.value, env.auditId, env.auditAt)); }
  }

  lemma RecordWritten(db: Redb.Db, lost: Lost, req: Request, env: Env, who: Identity, t: EnrollmentToken)
    requires Inv(db, lost) && req.org in db.orgs && FreshEntry(db, req.org, env.auditId) && env.appendOk
    requires Spends(db, req, env.consumeAt, t) && who.idpId == "token" && who.subject == "token:" + t.tokenId
    ensures Inv(Recorded(AfterUse(db, t), req, env, Pass(who)), Lose(lost, req, env, Pass(who)))
  {
    BookToken(db, lost, req, env.consumeAt, t, Entry(req, who, env.auditId, env.auditAt));
  }

  lemma PayerIs(who: Identity, id: string)
    requires who.subject == "token:" + id
    ensures PayerOf(who) == id
  {
  }

  lemma RecordLost(db: Redb.Db, lost: Lost, req: Request, env: Env, who: Identity, t: EnrollmentToken)
    requires Inv(db, lost) && req.org in db.orgs && !env.appendOk
    requires Spends(db, req, env.consumeAt, t) && who.idpId == "token" && PayerOf(who) == t.tokenId
    ensures Inv(Recorded(AfterUse(db, t), req, env, Pass(who)), Lose(lost, req, env, Pass(who)))
  {
    var lost' := lost[(req.org, t.tokenId) := LostOf(lost, req.org, t.tokenId) + 1];
    assert Recorded(AfterUse(db, t), req, env, Pass(who)) == AfterUse(db, t) && Lose(lost, req, env, Pass(who)) == lost';
    LoseToken(db, lost, req, env.consumeAt, t);
  }

  lemma RecordKeeps(db: Redb.Db, lost: Lost, f: FormationConfig, req: Request, env: Env)
    requires Inv(db, lost) && req.org in db.orgs && FreshEntry(db, req.org, env.auditId)
    ensures var (db', r) := Identify(db, f, req, env.consumeAt, env.introspection);
            Inv(Recorded(db', req, env, r), Lose(lost, req, env, r))
  {
    IdentifyOutcome(db, f, req, env.consumeAt, env.introspection);
    var (db', r) := Identify(db, f, req, env.consumeAt, env.introspection);
    if db' == db && (r.Pass? ==> r.value.idpId != "token") {
      RecordOther(db, lost, req, env, r);
    } else {
      var t :| Spends(db, req, env.consumeAt, t) && r.value.subject == "token:" + t.tokenId && db' == AfterUse(db, t);
      PayerIs(r.value, t.tokenId);
      if env.appendOk { RecordWritten(db, lost, req, env, r.value, t); } else { RecordLost(db, lost, req, env, r.value, t); }
    }
  }

  lemma ServeKeeps(db: Redb.Db, lost: Lost, req: Request, env: Env)
    requires Inv(db, lost) && Permitted(db, lost, Serve(req, env))
    ensures Inv(Do(db, Serve(req, env)), LostBy(db, lost, Serve(req, env)))
  {
    GateIsLive(db, req, CountRecent(db, req.org, HourBefore(env.countAt)));
    var gate := Gate(db, req, env.countAt);
    if gate.Pass? { RecordKeeps(db, lost, gate.value, req, env); }
  }

  lemma DoKeeps(db: Redb.Db, lost: Lost, act: Act)
    requires Inv(db, lost) && Permitted(db, lost, act)
    ensures Inv(Do(db, act), LostBy(db, lost, act))
  {
    match act {
      case Serve(req, env) => ServeKeeps(db, lost, req, env);
      case Manage(s, op) =>
        StepOwned(s, db, op);
        StepLogsOwned(s, db, op);
        ManageNames(db, s, op);
        ManageTallied(db, lost, s, op);
    }
  }

  function After(db: Redb.Db, acts: seq<Act>): Redb.Db
    decreases |acts|
  {
    if acts == [] then db else After(Do(db, acts[0]), acts[1..])
  }

  function LostAfter(db: Redb.Db, lost: Lost, acts: seq<Act>): Lost
    decreases |acts|
  {
    if acts == [] then lost else LostAfter(Do(db, acts[0]), LostBy(db, lost, acts[0]), acts[1..])
  }

  ghost predicate PermittedRun(db: Redb.Db, lost: Lost, acts: seq<Act>)
    decreases |acts|
  {
    acts == [] || (Permitted(db, lost, acts[0]) && PermittedRun(Do(db, acts[0]), LostBy(db, lost, acts[0]), acts[1..]))
  }

  lemma {:induction false} RunKeeps(db: Redb.Db, lost: Lost, acts: seq<Act>)
    requires Inv(db, lost) && PermittedRun(db, lost, acts)
    ensures Inv(After(db, acts), LostAfter(db, lost, acts))
    decreases |acts|
  {
    if acts != [] {
      DoKeeps(db, lost, acts[0]);
      RunKeeps(Do(db, acts[0]), LostBy(db, lost, acts[0]), acts[1..]);
    }
  }

  /** In every reachable state a live token's counter is the number of its audit entries and of those
      that could not be appended; under a `max_uses` it is the number of its audit entries exactly if
      none was lost. */
  lemma TokensConserved(acts: seq<Act>, org: string, t: EnrollmentToken)
    requires PermittedRun(Redb.EMPTY, map[], acts)
    requires var db := After(Redb.EMPTY, acts); org in db.orgs && HasToken(db, org, t)
    ensures var (db, lost) := (After(Redb.EMPTY, acts), LostAfter(Redb.EMPTY, map[], acts));
            Tallied(db, lost, org, t)
            && (t.maxUses.Some? ==> (t.uses == |UsesOf(db, org, t.tokenId)| <==> LostOf(lost, org, t.tokenId) == 0))
  {
    RunKeeps(Redb.EMPTY, map[], acts);
  }

  /** Without failing appends nothing is lost. */
  lemma {:induction false} NothingLost(db: Redb.Db, lost: Lost, acts: seq<Act>)
    requires forall i :: 0 <= i < |acts| && acts[i].Serve? ==> acts[i].env.appendOk
    ensures LostAfter(db, lost, acts) == lost
    decreases |acts|
  {
    if acts != [] { NothingLost(Do(db, acts[0]), lost, acts[1..]); }
  }

  // --- Approvals and entries ---

  lemma AlwaysApproved(db: Redb.Db, f: FormationConfig, req: Request, now: u64, introspection: Option<Policy.Claims>)
    ensures var r := Identify(db, f, req, now, introspection).1; r.Pass? ==> r.value.decision.Approved?
  {
  }

  lemma IdentifyKeepsLog(db: Redb.Db, f: FormationConfig, req: Request, now: u64, introspection: Option<Policy.Claims>)
    requires Owned(db) && AuditFiled(db)
    ensures var db' := Identify(db, f, req, now, introspection).0;
            AuditFiled(db') && Log(db', req.org) == Log(db, req.org) && forall e :: HasEntry(db', e) <==> HasEntry(db, e)
  {
    RateLimit.IdentifyKeepsLogs(db, f, req, now, introspection);
    var db' := Identify(db, f, req, now, introspection).0;
    RateLimit.SameLogsFiled(db, Redb(db'));
    SameAuditSameLog(db, Redb(db'), req.org);
  }

  lemma DecisionsAreLogged(db: Redb.Db, f: FormationConfig, req: Request, env: Env)
    requires Owned(db) && AuditFiled(db) && NulFree(req.org) && FreshEntry(db, req.org, env.auditId)
    ensures var (db', r) := Identify(db, f, req, env.consumeAt, env.introspection);
            if r.Fail? then Log(db', req.org) == Log(db, req.org)
            else Verdict(r.value, env.auditId).Enrolled?
                 && |Log(Recorded(db', req, env, r), req.org)| == |Log(db, req.org)| + if env.appendOk then 1 else 0
  {
    AlwaysApproved(db, f, req, env.consumeAt, env.introspection);
    IdentifyKeepsLog(db, f, req, env.consumeAt, env.introspection);
    var (db', r) := Identify(db, f, req, env.consumeAt, env.introspection);
    if r.Pass? { AppendedExact(db', Entry(req, r.value, env.auditId, env.auditAt), req.org); }
  }

  lemma ServedIsLogged(db: Redb.Db, req: Request, env: Env, gate: Outcome<FormationConfig>)
    requires Owned(db) && AuditFiled(db) && FreshEntry(db, req.org, env.auditId) && (gate.Pass? ==> NulFree(req.org))
    ensures var (db', response) := Served(db, req, env, gate);
            |Log(db', req.org)| == |Log(db, req.org)| + if response.Enrolled? && env.appendOk then 1 else 0
  {
    if gate.Pass? { DecisionsAreLogged(db, gate.value, req, env); }
  }

  /** The log of the organization grows by one entry for each approved enrollment whose entry can be
      appended, and by no other. */
  lemma ApprovalsAreLogged(db: Redb.Db, req: Request, env: Env)
    requires Owned(db) && AuditFiled(db) && FreshEntry(db, req.org, env.auditId)
    ensures var (db', response) := Enroll.Enroll(db, req, env);
            |Log(db', req.org)| == |Log(db, req.org)| + if response.Enrolled? && env.appendOk then 1 else 0
  {
    var gate := Gate(db, req, env.countAt);
    if gate.Pass? { RateLimit.AdmittedIsNamed(db, req, env.countAt); }
    ServedIsLogged(db, req, env, gate);
  }

  // --- One token over time ---

  /** No act lowers a counter (a u32 without `max_uses` may wrap), and only an enrollment the token
      still admits raises it. */
  ghost predicate Advances(t: EnrollmentToken, t': EnrollmentToken, act: Act)
  {
    && t'.expiresAt == t.expiresAt && t'.maxUses == t.maxUses && (t.revoked ==> t'.revoked)
    && (t'.uses == t.uses
        || (act.Serve? && Calls.Admits(t, act.req.app, act.env.consumeAt) && t'.uses == AsU32(t.uses + 1)
            && (t.maxUses.Some? ==> t'.uses == t.uses + 1)))
  }

  lemma ManageAdvances(db: Redb.Db, s: Session, op: Op, org: string, t: EnrollmentToken, t': EnrollmentToken)
    requires Owned(db) && Orderly(db, Manage(s, op)) && org in db.orgs
    requires HasToken(db, org, t) && HasToken(Do(db, Manage(s, op)), org, t') && t'.tokenId == t.tokenId
    ensures Advances(t, t', Manage(s, op))
  {
    StepFate(s, db, op, Key(org, t.tokenId));
  }

  /** What an enrollment does to one token row: nothing, or one use. */
  ghost predicate ServeFate(db: Redb.Db, db': Redb.Db, req: Request, now: u64, k: string)
  {
    && ((Tokens, k) in db'.rows <==> (Tokens, k) in db.rows)
    && ((Tokens, k) in db.rows ==>
          || db'.rows[(Tokens, k)] == db.rows[(Tokens, k)]
          || exists t :: Spends(db, req, now, t) && req.org in db.orgs && k == Key(req.org, t.tokenId)
                         && db'.rows[(Tokens, k)] == TokenRow(Consumed(t)))
  }

  lemma IdentifyFate(db: Redb.Db, f: FormationConfig, req: Request, now: u64, introspection: Option<Policy.Claims>, k: string)
    requires Owned(db) && IdpsNamed(db) && req.org in db.orgs
    ensures ServeFate(db, Identify(db, f, req, now, introspection).0, req, now, k)
  {
    IdentifyOutcome(db, f, req, now, introspection);
    var db' := Identify(db, f, req, now, introspection).0;
    if t :| Spends(db, req, now, t) && db' == AfterUse(db, t) {
      assert k == Key(req.org, t.tokenId) ==> db'.rows[(Tokens, k)] == TokenRow(Consumed(t));
    }
  }

  lemma EnrollFate(db: Redb.Db, req: Request, env: Env, k: string)
    requires Owned(db) && IdpsNamed(db)
    ensures ServeFate(db, Enroll.Enroll(db, req, env).0, req, env.consumeAt, k)
  {
    GateIsLive(db, req, CountRecent(db, req.org, HourBefore(env.countAt)));
    var gate := Gate(db, req, env.countAt);
    if gate.Pass? { IdentifyFate(db, gate.value, req, env.consumeAt, env.introspection, k); }
  }

  lemma FateAdvances(db: Redb.Db, db': Redb.Db, req: Request, env: Env, org: string, t: EnrollmentToken,
                     t': EnrollmentToken)
    requires (forall o :: o in db.orgs ==> NulFree(o)) && org in db.orgs
    requires ServeFate(db, db', req, env.consumeAt, Key(org, t.tokenId))
    requires HasToken(db, org, t) && HasToken(db', org, t') && t'.tokenId == t.tokenId
    ensures Advances(t, t', Serve(req, env))
  {
    if t' != t {
      var u :| Spends(db, req, env.consumeAt, u) && req.org in db.orgs && Key(org, t.tokenId) == Key(req.org, u.tokenId)
               && t' == Consumed(u);
      KeyInjective(org, t.tokenId, req.org, u.tokenId);
    }
  }

  lemma ServeAdvances(db: Redb.Db, req: Request, env: Env, org: string, t: EnrollmentToken, t': EnrollmentToken)
    requires Owned(db) && IdpsNamed(db) && org in db.orgs
    requires HasToken(db, org, t) && HasToken(Enroll.Enroll(db, req, env).0, org, t') && t'.tokenId == t.tokenId
    ensures Advances(t, t', Serve(req, env))
  {
    EnrollFate(db, req, env, Key(org, t.tokenId));
    FateAdvances(db, Enroll.Enroll(db, req, env).0, req, env, org, t, t');
  }

  lemma DoAdvances(db: Redb.Db, act: Act, org: string, t: EnrollmentToken, t': EnrollmentToken)
    requires Basis(db) && Orderly(db, act) && org in db.orgs
    requires HasToken(db, org, t) && HasToken(Do(db, act), org, t') && t'.tokenId == t.tokenId
    ensures Advances(t, t', act)
  {
    match act {
      case Serve(req, env) => ServeAdvances(db, req, env, org, t, t');
      case Manage(s, op) => ManageAdvances(db, s, op, org, t, t');
    }
  }

  lemma DoKeepsBasis(db: Redb.Db, act: Act)
    requires Basis(db) && Orderly(db, act)
    ensures Basis(Do(db, act))
  {
    match act {
      case Serve(req, env) => ServeKeepsBasis(db, req, env);
      case Manage(s, op) =>
        StepOwned(s, db, op);
        ManageNames(db, s, op);
    }
  }

  lemma IdentifyKeepsBasis(db: Redb.Db, f: FormationConfig, req: Request, now: u64, introspection: Option<Policy.Claims>)
    requires Basis(db) && req.org in db.orgs
    ensures Basis(Identify(db, f, req, now, introspection).0)
  {
    RateLimit.IdentifyKeepsLogs(db, f, req, now, introspection);
    IdentifyOutcome(db, f, req, now, introspection);
  }

  lemma ServeKeepsBasis(db: Redb.Db, req: Request, env: Env)
    requires Basis(db)
    ensures Basis(Enroll.Enroll(db, req, env).0)
  {
    GateIsLive(db, req, CountRecent(db, req.org, HourBefore(env.countAt)));
    var gate := Gate(db, req, env.countAt);
    if gate.Pass? {
      IdentifyKeepsBasis(db, gate.value, req, env.consumeAt, env.introspection);
      var (db', r) := Identify(db, gate.value, req, env.consumeAt, env.introspection);
      if r.Pass? { AppendKeepsBasis(db', Entry(req, r.value, env.auditId, env.auditAt)); }
    }
  }

  ghost predicate OrderlyRun(db: Redb.Db, acts: seq<Act>)
    decreases |acts|
  {
    acts == [] || (Orderly(db, acts[0]) && OrderlyRun(Do(db, acts[0]), acts[1..]))
  }

  predicate Dead(t: EnrollmentToken, now: u64)
  {
    t.revoked || (t.expiresAt.Some? && now > t.expiresAt.value)
  }

  /** Clocks read at least `now`, and the token's random id is not drawn again. */
  ghost predicate Onward(act: Act, org: string, id: string, now: u64)
  {
    match act
    case Serve(_, env) => env.consumeAt >= now
    case Manage(_, op) => op.CreateToken? ==> op.org != org || op.id != id
  }

  /** The token is gone, or dead with the same counter. */
  ghost predicate Frozen(db: Redb.Db, org: string, id: string, uses: u32, now: u64)
  {
    (Tokens, Key(org, id)) in db.rows ==>
      exists t :: HasToken(db, org, t) && t.tokenId == id && t.uses == uses && Dead(t, now)
  }

  lemma DeadAdvances(t: EnrollmentToken, t': EnrollmentToken, act: Act, now: u64)
    requires Advances(t, t', act) && Dead(t, now) && (act.Serve? ==> act.env.consumeAt >= now)
    ensures t'.uses == t.uses && Dead(t', now)
  {
  }

  lemma TokenAt(db: Redb.Db, org: string, id: string)
    requires Basis(db) && NulFree(org) && (Tokens, Key(org, id)) in db.rows
    ensures var row := db.rows[(Tokens, Key(org, id))];
            org in db.orgs && row.TokenRow? && row.token.tokenId == id && HasToken(db, org, row.token)
  {
    FiledAt(db, Tokens, org, id);
  }

  lemma FrozenNext(db: Redb.Db, act: Act, org: string, id: string, uses: u32, now: u64)
    requires Basis(db) && Orderly(db, act) && NulFree(org)
    requires Onward(act, org, id, now) && Frozen(db, org, id, uses, now)
    ensures Frozen(Do(db, act), org, id, uses, now)
  {
    DoKeepsBasis(db, act);
    var db', k := Do(db, act), Key(org, id);
    if (Tokens, k) in db'.rows {
      NotConjured(db, act, org, id, now);
      TokenAt(db, org, id);
      TokenAt(db', org, id);
      var t, t' := db.rows[(Tokens, k)].token, db'.rows[(Tokens, k)].token;
      DoAdvances(db, act, org, t, t');
      DeadAdvances(t, t', act, now);
    }
  }

  /** Only create_token puts a row where there was none. */
  lemma NotConjured(db: Redb.Db, act: Act, org: string, id: string, now: u64)
    requires Basis(db) && Orderly(db, act) && NulFree(org) && Onward(act, org, id, now)
    requires (Tokens, Key(org, id)) in Do(db, act).rows
    ensures (Tokens, Key(org, id)) in db.rows
  {
    match act {
      case Serve(req, env) => EnrollFate(db, req, env, Key(org, id));
      case Manage(s, op) =>
        StepFate(s, db, op, Key(org, id));
        if op.CreateToken? && Key(org, id) == Key(op.org, op.id) && op.org in db.orgs {
          KeyInjective(org, id, op.org, op.id);
        }
    }
  }

  ghost predicate OnwardRun(acts: seq<Act>, org: string, id: string, now: u64)
  {
    forall i :: 0 <= i < |acts| ==> Onward(acts[i], org, id, now)
  }

  /** A token that is revoked or expired keeps its counter for the rest of every run, until it is deleted. */
  lemma {:induction false} DeadTokensStayFixed(db: Redb.Db, acts: seq<Act>, org: string, id: string, uses: u32, now: u64)
    requires Basis(db) && OrderlyRun(db, acts) && NulFree(org)
    requires OnwardRun(acts, org, id, now) && Frozen(db, org, id, uses, now)
    ensures Frozen(After(db, acts), org, id, uses, now)
    decreases |acts|
  {
    if acts != [] {
      DoKeepsBasis(db, acts[0]);
      FrozenNext(db, acts[0], org, id, uses, now);
      DeadTokensStayFixed(Do(db, acts[0]), acts[1..], org, id, uses, now);
    }
  }
}
