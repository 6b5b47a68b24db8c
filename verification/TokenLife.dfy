/** Tokens over whole runs: a live token's entries are for its own formation, and a revoked token admits
    nobody any more (src/tenant/manager.rs, src/api/enroll.rs). */
module TokenLife {
  import opened Models
  import opened Keys
  import opened Input
  import opened Manager
  import opened Refinement
  import opened Ownership
  import opened AuditLog
  import opened Enroll
  import opened Tokens
  import Admission
  import Calls
  import Redb

  // --- Entries are booked on tokens of their own formation ---

  /** The entries booked on the token name its application. */
  ghost predicate BookedRight(db: Redb.Db, org: string, t: EnrollmentToken)
  {
    forall e :: HasEntry(db, e) && e.orgId == org && e.idpId == "token" && e.subject == "token:" + t.tokenId
                ==> e.appId == t.appId
  }

  ghost predicate AllBookedRight(db: Redb.Db)
  {
    forall org, t :: org in db.orgs && HasToken(db, org, t) ==> BookedRight(db, org, t)
  }

  lemma UsesAreBooked(db: Redb.Db, org: string, id: string)
    ensures forall e :: e in UsesOf(db, org, id) <==>
                        HasEntry(db, e) && e.orgId == org && e.idpId == "token" && e.subject == "token:" + id
  {
  }

  lemma NothingBooked(db: Redb.Db, lost: Lost, org: string, t: EnrollmentToken)
    requires Paid(db, lost, org, t.tokenId) == 0
    ensures BookedRight(db, org, t)
  {
    UsesAreBooked(db, org, t.tokenId);
  }

  lemma SameLogBookedRight(db: Redb.Db, db': Redb.Db, org: string, t: EnrollmentToken, t': EnrollmentToken)
    requires Log(db', org) == Log(db, org) && BookedRight(db, org, t) && t'.tokenId == t.tokenId && t'.appId == t.appId
    ensures BookedRight(db', org, t')
  {
    forall e | HasEntry(db', e) && e.orgId == org ensures HasEntry(db, e) { assert e in Log(db', org); }
  }

  lemma FateBookedRight(db: Redb.Db, lost: Lost, db': Redb.Db, op: Op, org: string, t: EnrollmentToken)
    requires Owned(db) && AllBookedRight(db) && org in db.orgs && Log(db', org) == Log(db, org)
    requires Fate(db, db', op, Key(org, t.tokenId)) && HasToken(db', org, t)
    requires op.CreateToken? ==> Paid(db, lost, op.org, op.id) == 0
    ensures BookedRight(db', org, t)
  {
    var k := Key(org, t.tokenId);
    if Untouched(db, db', k) {
      assert HasToken(db, org, t);
      SameLogBookedRight(db, db', org, t, t);
    } else if op.RevokeToken? {
      FiledAt(db, Tokens, org, t.tokenId);
      var was := db.rows[(Tokens, k)].token;
      assert HasToken(db, org, was);
      SameLogBookedRight(db, db', org, was, t);
    } else {
      KeyInjective(org, t.tokenId, op.org, op.id);
      NothingBooked(db, lost, org, t);
      SameLogBookedRight(db, db', org, t, t);
    }
  }

  lemma KeptOrgBookedRight(db: Redb.Db, lost: Lost, s: Session, op: Op, org: string, t: EnrollmentToken)
    requires Inv(db, lost) && AllBookedRight(db) && Permitted(db, lost, Manage(s, op)) && org in db.orgs
    requires var b := Step(s, Redb(db), op).0; b.Redb? && org in b.db.orgs && HasToken(b.db, org, t)
    ensures BookedRight(Step(s, Redb(db), op).0.db, org, t)
  {
    if op.DeleteOrg? { LoudStep(s, db, op); }
    StepKeepsLog(s, db, op, org);
    StepFate(s, db, op, Key(org, t.tokenId));
    FateBookedRight(db, lost, Step(s, Redb(db), op).0.db, op, org, t);
  }

  lemma ManageBookedRight(db: Redb.Db, lost: Lost, s: Session, op: Op, org: string, t: EnrollmentToken)
    requires Inv(db, lost) && AllBookedRight(db) && Permitted(db, lost, Manage(s, op))
    requires var b := Step(s, Redb(db), op).0; OwnedBackend(b) && org in b.db.orgs && HasToken(b.db, org, t)
    ensures BookedRight(Step(s, Redb(db), op).0.db, org, t)
  {
    if org in db.orgs { KeptOrgBookedRight(db, lost, s, op, org, t); } else { NewOrgHasNoTokens(s, db, op, org, t); }
  }

  /** A new entry that is booked on no token, or on one that admits its formation. */
  ghost predicate FairEntry(db: Redb.Db, e: AuditEntry)
  {
    e.idpId == "token" ==>
      exists t :: HasToken(db, e.orgId, t) && t.appId == e.appId && e.subject == "token:" + t.tokenId
  }

  lemma AppendBookedRight(db: Redb.Db, e: AuditEntry)
    requires AuditFiled(db) && NulFree(e.orgId) && FreshEntry(db, e.orgId, e.auditId) && AllBookedRight(db) && FairEntry(db, e)
    ensures AllBookedRight(Appended(db, e))
  {
    var db' := Appended(db, e);
    forall org, t | org in db'.orgs && HasToken(db', org, t) ensures BookedRight(db', org, t) {
      assert HasToken(db, org, t);
      EntryBookedRight(db, e, org, t);
    }
  }

  lemma EntryBookedRight(db: Redb.Db, e: AuditEntry, org: string, t: EnrollmentToken)
    requires AuditFiled(db) && NulFree(e.orgId) && FreshEntry(db, e.orgId, e.auditId) && FairEntry(db, e)
    requires HasToken(db, org, t) && BookedRight(db, org, t)
    ensures BookedRight(Appended(db, e), org, t)
  {
    AppendedExact(db, e, org);
    if e.orgId == org && e.idpId == "token" && e.subject == "token:" + t.tokenId {
      var u :| HasToken(db, org, u) && u.appId == e.appId && e.subject == "token:" + u.tokenId;
      SubjectInjective(t.tokenId, u.tokenId);
    }
    forall x | HasEntry(Appended(db, e), x) && x.orgId == org ensures x in Log(Appended(db, e), org) { }
  }

  lemma UseBookedRight(db: Redb.Db, req: Request, now: u64, t: EnrollmentToken)
    requires Owned(db) && AllBookedRight(db) && req.org in db.orgs && Spends(db, req, now, t)
    ensures AllBookedRight(AfterUse(db, t)) && HasToken(AfterUse(db, t), req.org, Consumed(t))
  {
    var db' := AfterUse(db, t);
    forall org, u | org in db'.orgs && HasToken(db', org, u) ensures BookedRight(db', org, u) {
      AfterUseLog(db, t, org);
      if Key(org, u.tokenId) == Key(t.orgId, t.tokenId) {
        KeyInjective(org, u.tokenId, t.orgId, t.tokenId);
        SameLogBookedRight(db, db', org, t, u);
      } else {
        assert HasToken(db, org, u);
        SameLogBookedRight(db, db', org, u, u);
      }
    }
  }

  lemma SpentBookedRight(db: Redb.Db, lost: Lost, req: Request, env: Env, t: EnrollmentToken, who: Identity)
    requires Inv(db, lost) && AllBookedRight(db) && req.org in db.orgs && FreshEntry(db, req.org, env.auditId)
    requires Spends(db, req, env.consumeAt, t) && who.subject == "token:" + t.tokenId
    ensures AllBookedRight(AfterUse(db, t))
    ensures AllBookedRight(Appended(AfterUse(db, t), Entry(req, who, env.auditId, env.auditAt)))
  {
    UseBookedRight(db, req, env.consumeAt, t);
    AfterUseOwned(db, req, env.consumeAt, t);
    LogsAreFiled(AfterUse(db, t));
    assert FairEntry(AfterUse(db, t), Entry(req, who, env.auditId, env.auditAt));
    AppendBookedRight(AfterUse(db, t), Entry(req, who, env.auditId, env.auditAt));
  }

  lemma IdentifyBookedRight(db: Redb.Db, lost: Lost, f: FormationConfig, req: Request, env: Env)
    requires Inv(db, lost) && AllBookedRight(db) && req.org in db.orgs && FreshEntry(db, req.org, env.auditId)
    ensures var (db', r) := Identify(db, f, req, env.consumeAt, env.introspection);
            AllBookedRight(db') && (r.Pass? ==> AllBookedRight(Appended(db', Entry(req, r.value, env.auditId, env.auditAt))))
  {
    IdentifyOutcome(db, f, req, env.consumeAt, env.introspection);
    LogsAreFiled(db);
    var (db', r) := Identify(db, f, req, env.consumeAt, env.introspection);
    if t :| Spends(db, req, env.consumeAt, t) && r.Pass? && r.value.subject == "token:" + t.tokenId && db' == AfterUse(db, t) {
      SpentBookedRight(db, lost, req, env, t, r.value);
    } else if r.Pass? {
      AppendBookedRight(db', Entry(req, r.value, env.auditId, env.auditAt));
    }
  }

  lemma DoBookedRight(db: Redb.Db, lost: Lost, act: Act)
    requires Inv(db, lost) && AllBookedRight(db) && Permitted(db, lost, act)
    ensures AllBookedRight(Do(db, act))
  {
    match act {
      case Serve(req, env) =>
        GateIsLive(db, req, CountRecent(db, req.org, HourBefore(env.countAt)));
        var gate := Gate(db, req, env.countAt);
        if gate.Pass? { IdentifyBookedRight(db, lost, gate.value, req, env); }
      case Manage(s, op) =>
        StepOwned(s, db, op);
        var db' := Step(s, Redb(db), op).0.db;
        forall org, t | org in db'.orgs && HasToken(db', org, t) ensures BookedRight(db', org, t) {
          ManageBookedRight(db, lost, s, op, org, t);
        }
    }
  }

  lemma {:induction false} RunBookedRight(db: Redb.Db, lost: Lost, acts: seq<Act>)
    requires Inv(db, lost) && AllBookedRight(db) && PermittedRun(db, lost, acts)
    ensures AllBookedRight(After(db, acts))
    decreases |acts|
  {
    if acts != [] {
      DoBookedRight(db, lost, acts[0]);
      DoKeeps(db, lost, acts[0]);
      RunBookedRight(Do(db, acts[0]), LostBy(db, lost, acts[0]), acts[1..]);
    }
  }

  /** In every reachable state, each audit entry booked on a live token is for the token's formation. */
  lemma EntriesAreForTheirFormation(acts: seq<Act>, org: string, t: EnrollmentToken, e: AuditEntry)
    requires PermittedRun(Redb.EMPTY, map[], acts)
    requires var db := After(Redb.EMPTY, acts);
             org in db.orgs && HasToken(db, org, t) && HasEntry(db, e) && e.orgId == org
    requires e.idpId == "token" && e.subject == "token:" + t.tokenId
    ensures e.appId == t.appId
  {
    RunBookedRight(Redb.EMPTY, map[], acts);
    assert BookedRight(After(Redb.EMPTY, acts), org, t);
  }

  // --- Revocation is final ---

  /** The token, if it is still stored, is revoked with this counter. */
  ghost predicate StaysRevoked(db: Redb.Db, org: string, id: string, uses: u32)
  {
    (Tokens, Key(org, id)) in db.rows ==>
      var row := db.rows[(Tokens, Key(org, id))];
      row.TokenRow? && row.token.revoked && row.token.uses == uses
  }

  /** Nobody is admitted by the token: it cannot be consumed, and of the requests that present it only
      those to formations open to everyone are enrolled. */
  ghost predicate AdmitsNobody(db: Redb.Db, org: string, id: string)
  {
    && (forall s, app, now :: NoConsume(s, db, org, app, id, now))
    && (forall req, env :: NoEnrollment(db, org, id, req, env))
  }

  ghost predicate NoConsume(s: Session, db: Redb.Db, org: string, app: string, id: string, now: u64)
  {
    var (b, r) := Step(s, Redb(db), ConsumeToken(org, app, id, now)); b == Redb(db) && r.Err?
  }

  ghost predicate NoEnrollment(db: Redb.Db, org: string, id: string, req: Request, env: Env)
  {
    req.org == org && Admission.Presents(req, id) && Starts(id, "peat_") && Enroll.Enroll(db, req, env).1.Enrolled? ==>
      exists f :: Admission.HasFormation(db, req, f) && f.policy == EnrollmentPolicy.Open
  }

  lemma RevokedIsNotConsumed(s: Session, db: Redb.Db, org: string, app: string, id: string, now: u64, uses: u32)
    requires Owned(db) && StaysRevoked(db, org, id, uses)
    ensures NoConsume(s, db, org, app, id, now)
  {
    Calls.ConsumeIff(s, Redb(db), org, app, id, now);
  }

  lemma RevokedIsNoCredential(db: Redb.Db, org: string, id: string, uses: u32, req: Request, env: Env, token: string,
                              who: Identity)
    requires StaysRevoked(db, org, id, uses) && req.org == org && Admission.Presents(req, id) && Starts(id, "peat_")
    ensures !Admission.Credentialed(db, req, env, token, who)
  {
    Admission.BearerIff(req, token);
    Admission.BearerIff(req, id);
    assert Admission.Presents(req, token) ==> token == id;
  }

  lemma RevokedDoesNotEnroll(db: Redb.Db, org: string, id: string, uses: u32, req: Request, env: Env)
    requires Owned(db) && StaysRevoked(db, org, id, uses)
    ensures NoEnrollment(db, org, id, req, env)
  {
    if req.org == org && Admission.Presents(req, id) && Starts(id, "peat_") && Enroll.Enroll(db, req, env).1.Enrolled? {
      Admission.EnrolledIff(db, req, env);
      var who :| Admission.Admitted(db, req, env, who);
      var f :| Admission.ReachesPolicy(db, req, env.countAt, f) && Admission.AdmittedTo(db, f, req, env, who);
      forall token ensures !Admission.Credentialed(db, req, env, token, who) {
        RevokedIsNoCredential(db, org, id, uses, req, env, token, who);
      }
    }
  }

  lemma RevokedAdmitsNobody(db: Redb.Db, org: string, id: string, uses: u32)
    requires Owned(db) && StaysRevoked(db, org, id, uses)
    ensures AdmitsNobody(db, org, id)
  {
    forall s, app, now ensures NoConsume(s, db, org, app, id, now) { RevokedIsNotConsumed(s, db, org, app, id, now, uses); }
    forall req, env ensures NoEnrollment(db, org, id, req, env) { RevokedDoesNotEnroll(db, org, id, uses, req, env); }
  }

  lemma FrozenIsRevoked(db: Redb.Db, org: string, id: string, uses: u32)
    requires Basis(db) && NulFree(org)
    ensures Frozen(db, org, id, uses, 0) <==> StaysRevoked(db, org, id, uses)
  {
    if (Tokens, Key(org, id)) in db.rows { TokenAt(db, org, id); }
  }

  lemma {:induction false} RunKeepsBasis(db: Redb.Db, acts: seq<Act>)
    requires Basis(db) && OrderlyRun(db, acts)
    ensures Basis(After(db, acts))
    decreases |acts|
  {
    if acts != [] {
      DoKeepsBasis(db, acts[0]);
      RunKeepsBasis(Do(db, acts[0]), acts[1..]);
    }
  }

  lemma RunStaysRevoked(db: Redb.Db, acts: seq<Act>, org: string, id: string, uses: u32)
    requires Basis(db) && OrderlyRun(db, acts) && NulFree(org) && OnwardRun(acts, org, id, 0)
    requires StaysRevoked(db, org, id, uses)
    ensures StaysRevoked(After(db, acts), org, id, uses) && AdmitsNobody(After(db, acts), org, id)
  {
    RunKeepsBasis(db, acts);
    FrozenIsRevoked(db, org, id, uses);
    DeadTokensStayFixed(db, acts, org, id, uses, 0);
    FrozenIsRevoked(After(db, acts), org, id, uses);
    RevokedAdmitsNobody(After(db, acts), org, id, uses);
  }

  /** A successful revocation leaves the token as it was, revoked. It cannot be revoked again, and
      after every orderly run from there, whether or not the token is deleted on the way, it admits
      nobody and its counter stands still. */
  lemma RevocationIsFinal(s: Session, db: Redb.Db, org: string, id: string, acts: seq<Act>)
    requires Basis(db) && NulFree(org) && Step(s, Redb(db), RevokeToken(org, id)).1.Ok?
    requires OrderlyRun(Do(db, Manage(s, RevokeToken(org, id))), acts) && OnwardRun(acts, org, id, 0)
    ensures var found, revoked := Redb(db).Find(Tokens, org, id), Do(db, Manage(s, RevokeToken(org, id)));
            found.Some? && found.value.TokenRow?
            && Redb(revoked).Find(Tokens, org, id) == Some(TokenRow(found.value.token.(revoked := true)))
            && Step(s, Redb(revoked), RevokeToken(org, id)) == (Redb(revoked), Err(AlreadyRevoked))
            && StaysRevoked(After(revoked, acts), org, id, found.value.token.uses)
            && AdmitsNobody(After(revoked, acts), org, id)
  {
    var act := Manage(s, RevokeToken(org, id));
    Calls.RevokeIff(s, Redb(db), org, id);
    RowChangeKeepsOrgs(db, RevokeToken(org, id));
    DoKeepsBasis(db, act);
    RunStaysRevoked(Do(db, act), acts, org, id, Redb(db).Find(Tokens, org, id).value.token.uses);
  }
}
