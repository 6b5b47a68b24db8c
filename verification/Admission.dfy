/** Whom the enrollment endpoint admits, with which decision, and what it writes down about it
    (src/api/enroll.rs). */
module Admission {
  import opened Models
  import opened Lex
  import opened Keys
  import opened Input
  import opened Manager
  import opened Refinement
  import opened Ownership
  import opened AuditLog
  import opened Enroll
  import opened Tokens
  import Calls
  import Policy
  import Redb

  // --- The request ---

  /** The token in the `Authorization: Bearer` header, or else the one in the body. */
  predicate Presents(req: Request, token: string)
  {
    if req.authorization.Some? && Starts(req.authorization.value, "Bearer ")
    then req.authorization.value == "Bearer " + token
    else req.body.Some? && req.body.value.token == Some(token)
  }

  lemma BearerIff(req: Request, token: string)
    ensures Bearer(req) == Some(token) <==> Presents(req, token)
  {
    if req.authorization.Some? && Starts(req.authorization.value, "Bearer ") {
      var h, p := req.authorization.value, "Bearer ";
      assert h == p + h[|p|..];
      assert (p + token)[|p|..] == token;
    }
  }

  /** No public key, or one of 64 hexadecimal digits. */
  predicate KeyFine(req: Request)
  {
    req.body.Some? && req.body.value.publicKey.Some? ==>
      var text := req.body.value.publicKey.value;
      |text| == 64 && forall c :: c in text ==> 48 <= c as int <= 57 || 65 <= c as int <= 70 || 97 <= c as int <= 102
  }

  lemma KeyFineIff(req: Request)
    ensures KeyFine(req) <==>
              (req.body.Some? && req.body.value.publicKey.Some? ==> ValidPublicKey(req.body.value.publicKey.value))
  {
    if req.body.Some? && req.body.value.publicKey.Some? {
      var text := req.body.value.publicKey.value;
      forall c | c in text ensures HexDigit(c) <==> 48 <= c as int <= 57 || 65 <= c as int <= 70 || 97 <= c as int <= 102 { }
    }
  }

  /** The organization's entries of the last hour, counted in 32 bits, are fewer than its quota. */
  predicate Uncrowded(db: Redb.Db, org: string, now: u64)
    requires org in db.orgs
  {
    CountRecent(db, org, if now < 3_600_000 then 0 else now - 3_600_000) % 0x1_0000_0000
    < db.orgs[org].quotas.maxEnrollmentsPerHour
  }

  // --- The identity provider ---

  ghost predicate HasIdp(db: Redb.Db, org: string, idp: IdpConfig)
  {
    Redb(db).Find(Idps, org, idp.idpId) == Some(IdpRow(idp))
  }

  /** The enabled provider with the least id. */
  ghost predicate FirstIdp(db: Redb.Db, org: string, idp: IdpConfig)
  {
    HasIdp(db, org, idp) && idp.enabled
    && forall other :: HasIdp(db, org, other) && other.enabled && other != idp ==> Less(idp.idpId, other.idpId)
  }

  ghost predicate Enabled(row: Row) { row.IdpRow? && row.idp.enabled }

  lemma {:induction false} FirstEnabledMeaning(rows: seq<Row>)
    ensures var r := FirstEnabled(rows);
            if r.None? then forall row :: row in rows ==> !Enabled(row)
            else exists i :: 0 <= i < |rows| && rows[i] == IdpRow(r.value) && r.value.enabled
                             && forall j :: 0 <= j < i ==> !Enabled(rows[j])
  {
    if rows != [] {
      if Enabled(rows[0]) {
        assert rows[0] == IdpRow(FirstEnabled(rows).value);
      } else {
        var rest := rows[1..];
        FirstEnabledMeaning(rest);
        if FirstEnabled(rest).Some? {
          var i :| 0 <= i < |rest| && rest[i] == IdpRow(FirstEnabled(rest).value)
                   && forall j :: 0 <= j < i ==> !Enabled(rest[j]);
          assert rows[i + 1] == rest[i] && forall j :: 0 < j < i + 1 ==> rows[j] == rest[j - 1];
        }
      }
    }
  }

  /** Row `i` has the id `ids[i]`, and the ids ascend. */
  ghost predicate IdpsAt(db: Redb.Db, org: string, ids: seq<string>, rows: seq<Row>)
  {
    && |rows| == |ids| && Ascending(ids)
    && (forall i :: 0 <= i < |rows| ==> rows[i].IdpRow? && rows[i].idp.idpId == ids[i] && HasIdp(db, org, rows[i].idp))
    && (forall idp :: HasIdp(db, org, idp) ==> IdpRow(idp) in rows)
  }

  lemma IdpsAreFiled(db: Redb.Db, org: string, ids: seq<string>, rows: seq<Row>)
    requires Owned(db) && NulFree(org) && Calls.Lists(Redb(db), Idps, org, ids, rows)
    ensures IdpsAt(db, org, ids, rows)
  {
    forall i | 0 <= i < |rows| ensures rows[i].IdpRow? && rows[i].idp.idpId == ids[i] && HasIdp(db, org, rows[i].idp) {
      assert Redb(db).Find(Idps, org, ids[i]) == Some(rows[i]);
      FiledAt(db, Idps, org, ids[i]);
    }
    forall idp | HasIdp(db, org, idp) ensures IdpRow(idp) in rows {
      var i :| 0 <= i < |ids| && ids[i] == idp.idpId;
      assert rows[i] == IdpRow(idp);
    }
  }

  lemma LeastEnabled(db: Redb.Db, org: string, ids: seq<string>, rows: seq<Row>, i: nat)
    requires IdpsAt(db, org, ids, rows) && i < |rows| && Enabled(rows[i])
    requires forall j :: 0 <= j < i ==> !Enabled(rows[j])
    ensures FirstIdp(db, org, rows[i].idp)
  {
    forall other | HasIdp(db, org, other) && other.enabled && other != rows[i].idp ensures Less(rows[i].idp.idpId, other.idpId) {
      var j :| 0 <= j < |rows| && rows[j] == IdpRow(other);
      assert Enabled(rows[j]) && ids[i] == rows[i].idp.idpId && ids[j] == other.idpId;
    }
  }

  lemma FirstIdpIff(db: Redb.Db, org: string)
    requires Owned(db) && NulFree(org)
    ensures var r := FirstEnabled(Redb.Listing(db.rows, Idps, org));
            if r.Some? then FirstIdp(db, org, r.value) else forall idp :: HasIdp(db, org, idp) ==> !idp.enabled
  {
    var rows := Redb.Listing(db.rows, Idps, org);
    var ids := Calls.ListingMeaning(Redb(db), Idps, org);
    IdpsAreFiled(db, org, ids, rows);
    FirstEnabledMeaning(rows);
    var r := FirstEnabled(rows);
    if r.Some? {
      var i :| 0 <= i < |rows| && rows[i] == IdpRow(r.value) && forall j :: 0 <= j < i ==> !Enabled(rows[j]);
      LeastEnabled(db, org, ids, rows, i);
    } else {
      forall idp | HasIdp(db, org, idp) ensures !idp.enabled { assert !Enabled(IdpRow(idp)); }
    }
  }

  lemma FirstIdpUnique(db: Redb.Db, org: string, x: IdpConfig, y: IdpConfig)
    requires FirstIdp(db, org, x) && FirstIdp(db, org, y)
    ensures x == y
  {
    LessTotal(x.idpId, y.idpId);
  }

  // --- The decision ---

  /** The token with this id is spent. */
  ghost predicate ByTokenAs(db: Redb.Db, req: Request, env: Env, token: string, who: Identity)
  {
    who == Identity(Approved(Endpoint, 0), "token", "token:" + token)
    && exists t :: Spends(db, req, env.consumeAt, t) && t.tokenId == token
  }

  /** The first enabled provider confirmed the credential; the claims decide. */
  ghost predicate ByClaimsAs(db: Redb.Db, req: Request, env: Env, who: Identity)
  {
    && env.introspection.Some? && FirstIdpIs(db, req.org, who.idpId)
    && who.decision == Policy.Decide(db, req.org, env.introspection.value)
    && var claims := env.introspection.value;
       if "sub" in claims && claims["sub"].Str? then claims["sub"] == Str(who.subject) else who.subject == "unknown"
  }

  ghost predicate FirstIdpIs(db: Redb.Db, org: string, id: string)
  {
    exists idp :: FirstIdp(db, org, idp) && idp.idpId == id
  }

  ghost predicate Credentialed(db: Redb.Db, req: Request, env: Env, token: string, who: Identity)
  {
    Presents(req, token)
    && if Starts(token, "peat_") then ByTokenAs(db, req, env, token, who) else ByClaimsAs(db, req, env, who)
  }

  lemma TokenAdmits(db: Redb.Db, req: Request, env: Env, token: string)
    requires Owned(db) && req.org in db.orgs
    ensures var r := ByToken(db, req, token, env.consumeAt).1;
            if r.Pass? then ByTokenAs(db, req, env, token, r.value)
            else r == Fail(Unauthorized) && forall t :: Spends(db, req, env.consumeAt, t) ==> t.tokenId != token
  {
    if (Tokens, Key(req.org, token)) in db.rows {
      FiledAt(db, Tokens, req.org, token);
      var t := db.rows[(Tokens, Key(req.org, token))].token;
      assert HasToken(db, req.org, t);
      Calls.AdmitsIff(t, req.app, env.consumeAt);
    }
  }

  lemma ClaimsAdmit(db: Redb.Db, req: Request, env: Env)
    requires Owned(db) && req.org in db.orgs
    ensures var r := ByClaimsOn(Redb(db), req, env.introspection);
            if r.Pass? then ByClaimsAs(db, req, env, r.value)
            else if forall idp :: HasIdp(db, req.org, idp) ==> !idp.enabled then r == Fail(BadRequest)
            else r == Fail(Unauthorized) && env.introspection.None?
  {
    FirstIdpIff(db, req.org);
    var idp := FirstEnabled(Redb.Listing(db.rows, Idps, req.org));
    if idp.Some? { assert FirstIdp(db, req.org, idp.value) && HasIdp(db, req.org, idp.value); }
  }

  /** The reply to a request without accepted credential. */
  ghost predicate NoCredential(db: Redb.Db, req: Request, env: Env, status: Status)
  {
    && (forall token, who :: !Credentialed(db, req, env, token, who))
    && status == if (exists token :: Presents(req, token) && !Starts(token, "peat_"))
                    && (forall idp :: HasIdp(db, req.org, idp) ==> !idp.enabled) then BadRequest else Unauthorized
  }

  lemma NoToken(db: Redb.Db, req: Request, env: Env, token: string)
    requires Presents(req, token) && Starts(token, "peat_")
    requires forall t :: Spends(db, req, env.consumeAt, t) ==> t.tokenId != token
    ensures NoCredential(db, req, env, Unauthorized)
  {
    forall x | Presents(req, x) ensures x == token { BearerIff(req, x); BearerIff(req, token); }
  }

  lemma NoClaims(db: Redb.Db, req: Request, env: Env, token: string, status: Status)
    requires Presents(req, token) && !Starts(token, "peat_")
    requires if forall idp :: HasIdp(db, req.org, idp) ==> !idp.enabled then status == BadRequest
             else status == Unauthorized && env.introspection.None?
    ensures NoCredential(db, req, env, status)
  {
    forall x | Presents(req, x) ensures x == token { BearerIff(req, x); BearerIff(req, token); }
  }

  /** A controlled formation admits exactly the credentialed requests. */
  lemma ControlledNeedsCredential(db: Redb.Db, f: FormationConfig, req: Request, env: Env)
    requires Owned(db) && req.org in db.orgs && f.policy != EnrollmentPolicy.Open
    ensures var r := Identify(db, f, req, env.consumeAt, env.introspection).1;
            if r.Pass? then exists token :: Credentialed(db, req, env, token, r.value) else NoCredential(db, req, env, r.status)
  {
    var bearer := Bearer(req);
    if bearer.None? {
      forall token ensures !Presents(req, token) { BearerIff(req, token); }
    } else {
      var token := bearer.value;
      BearerIff(req, token);
      if StartsWith(token, "peat_") {
        TokenAdmits(db, req, env, token);
        var r := ByToken(db, req, token, env.consumeAt).1;
        if r.Pass? { assert Credentialed(db, req, env, token, r.value); } else { NoToken(db, req, env, token); }
      } else {
        ClaimsAdmit(db, req, env);
        var r := ByClaimsOn(Redb(db), req, env.introspection);
        if r.Pass? { assert Credentialed(db, req, env, token, r.value); } else { NoClaims(db, req, env, token, r.status); }
      }
    }
  }

  // --- The endpoint ---

  ghost predicate HasFormation(db: Redb.Db, req: Request, f: FormationConfig)
  {
    Redb(db).Find(Formations, req.org, req.app) == Some(FormationRow(f))
  }

  /** The request reaches the formation's enrollment policy. */
  ghost predicate ReachesPolicy(db: Redb.Db, req: Request, now: u64, f: FormationConfig)
  {
    req.org in db.orgs && HasFormation(db, req, f) && KeyFine(req) && Uncrowded(db, req.org, now)
  }

  /** What an open or a controlled formation makes of the request. */
  ghost predicate Admitted(db: Redb.Db, req: Request, env: Env, who: Identity)
  {
    exists f :: ReachesPolicy(db, req, env.countAt, f) && AdmittedTo(db, f, req, env, who)
  }

  ghost predicate AdmittedTo(db: Redb.Db, f: FormationConfig, req: Request, env: Env, who: Identity)
  {
    match f.policy
    case Open => who == Identity(Approved(Endpoint, 0), "none", "anonymous")
    case Controlled => exists token :: Credentialed(db, req, env, token, who)
    case Strict => false
  }

  /** The reply to a request that is not admitted. */
  ghost predicate Rejected(db: Redb.Db, req: Request, env: Env, status: Status)
  {
    if req.org !in db.orgs || !KeyFine(req) || (forall f :: !HasFormation(db, req, f)) then status == BadRequest
    else if !Uncrowded(db, req.org, env.countAt) then status == TooManyRequests
    else exists f :: HasFormation(db, req, f)
                     && if f.policy == Strict then status == Forbidden
                        else f.policy == Controlled && NoCredential(db, req, env, status)
  }

  lemma GateAtFormation(db: Redb.Db, f: FormationConfig, req: Request, env: Env)
    requires req.org in db.orgs && HasFormation(db, req, f)
    ensures Gate(db, req, env.countAt)
            == if !KeyFine(req) then Fail(BadRequest)
               else if !Uncrowded(db, req.org, env.countAt) then Fail(TooManyRequests)
               else if f.policy == Strict then Fail(Forbidden) else Pass(f)
  {
    KeyFineIff(req);
  }

  lemma GateMeans(db: Redb.Db, req: Request, env: Env)
    ensures var r := Gate(db, req, env.countAt);
            if r.Pass? then ReachesPolicy(db, req, env.countAt, r.value) && r.value.policy != Strict
            else Rejected(db, req, env, r.status)
  {
    if req.org in db.orgs {
      var found := Redb(db).Find(Formations, req.org, req.app);
      if found.Some? && found.value.FormationRow? {
        assert HasFormation(db, req, found.value.formation);
        GateAtFormation(db, found.value.formation, req, env);
      }
    }
  }

  lemma IdentifyMeans(db: Redb.Db, f: FormationConfig, req: Request, env: Env)
    requires Owned(db) && req.org in db.orgs && f.policy != Strict
    ensures var r := Identify(db, f, req, env.consumeAt, env.introspection).1;
            if r.Pass? then AdmittedTo(db, f, req, env, r.value) && r.value.decision.Approved?
            else f.policy == Controlled && NoCredential(db, req, env, r.status)
  {
    AlwaysApproved(db, f, req, env.consumeAt, env.introspection);
    if f.policy != EnrollmentPolicy.Open { ControlledNeedsCredential(db, f, req, env); }
  }

  lemma RefusalKeepsStore(db: Redb.Db, f: FormationConfig, req: Request, env: Env)
    ensures var (db', r) := Identify(db, f, req, env.consumeAt, env.introspection); r.Fail? ==> db' == db
  {
  }

  /** The entry that the audit log keeps of an enrollment. */
  function EntryOf(req: Request, env: Env, who: Identity): AuditEntry
  {
    AuditEntry(env.auditId, req.org, req.app, who.idpId, who.subject, who.decision, env.auditAt)
  }

  /** The reply and the audit entry are those of an admitted identity. */
  ghost predicate EnrolledAs(db: Redb.Db, req: Request, env: Env, db': Redb.Db, response: Response, who: Identity)
  {
    Admitted(db, req, env, who) && response == Enrolled(who.decision, env.auditId)
    && (env.appendOk ==> HasEntry(db', EntryOf(req, env, who)))
  }

  /** A request is enrolled exactly if it is admitted; the reply carries the decision and the id of the
      audit entry, which tells who enrolled and how. Any other request is refused with the status of
      the check it fails, and changes nothing. */
  ghost predicate Answered(db: Redb.Db, req: Request, env: Env, db': Redb.Db, response: Response)
  {
    if exists who :: Admitted(db, req, env, who) then exists who :: EnrolledAs(db, req, env, db', response, who)
    else db' == db && response.Refused? && Rejected(db, req, env, response.status)
  }

  lemma RejectedIsAnswered(db: Redb.Db, req: Request, env: Env, status: Status)
    requires Rejected(db, req, env, status)
    ensures Answered(db, req, env, db, Refused(status))
  {
  }

  lemma ServedIsAnswered(db: Redb.Db, f: FormationConfig, req: Request, env: Env)
    requires Owned(db) && ReachesPolicy(db, req, env.countAt, f) && f.policy != Strict
    ensures var (db', response) := Served(db, req, env, Pass(f)); Answered(db, req, env, db', response)
  {
    IdentifyMeans(db, f, req, env);
    RefusalKeepsStore(db, f, req, env);
    var (db', r) := Identify(db, f, req, env.consumeAt, env.introspection);
    if r.Pass? {
      assert Admitted(db, req, env, r.value);
      assert Entry(req, r.value, env.auditId, env.auditAt) == EntryOf(req, env, r.value);
      assert EnrolledAs(db, req, env, Served(db, req, env, Pass(f)).0, Served(db, req, env, Pass(f)).1, r.value);
    } else {
      RejectedIsAnswered(db, req, env, r.status);
    }
  }

  lemma EnrolledIff(db: Redb.Db, req: Request, env: Env)
    requires Owned(db)
    ensures var (db', response) := Enroll.Enroll(db, req, env); Answered(db, req, env, db', response)
  {
    GateMeans(db, req, env);
    var gate := Gate(db, req, env.countAt);
    if gate.Pass? { ServedIsAnswered(db, gate.value, req, env); } else { RejectedIsAnswered(db, req, env, gate.status); }
  }

  // --- A rule takes effect ---

  lemma RuleAdded(s: Session, db: Redb.Db, op: Op, r: PolicyRule)
    requires op.CreateRule? && op.org in db.orgs
    ensures var b := Step(s, Redb(db), op).0;
            b.Redb? && (Policy.HasRule(b.db, op.org, r) <==>
                          if r.ruleId == op.id
                          then r == PolicyRule(op.id, op.org, op.claimKey, op.claimValue, op.tier, op.permissions, op.priority)
                          else Policy.HasRule(db, op.org, r))
  {
    assert Step(s, Redb(db), op).0 == Redb(db.(rows := db.rows[(Rules, Key(op.org, op.id)) := NewRow(op).1]));
    SameKey(op.org, r.ruleId, op.id);
  }

  lemma SameKey(org: string, a: string, b: string)
    ensures Key(org, a) == Key(org, b) <==> a == b
  {
    assert Key(org, a)[|org| + 1..] == a && Key(org, b)[|org| + 1..] == b;
  }

  /** A new rule decides on every claim that carries its value, unless another rule that applies comes
      before it. */
  lemma CreatedRuleDecides(s: Session, db: Redb.Db, op: Op, claims: Policy.Claims)
    requires Owned(db) && op.CreateRule? && NulFree(op.org) && Step(s, Redb(db), op).1.Ok?
    requires op.claimKey in claims && op.claimValue in Policy.Texts(claims[op.claimKey])
    requires forall r :: Policy.HasRule(db, op.org, r) && Policy.Applies(r, claims) && r.ruleId != op.id ==>
               op.priority < r.priority || (op.priority == r.priority && Less(op.id, r.ruleId))
    ensures var b := Step(s, Redb(db), op).0;
            b.Redb? && Policy.Decide(b.db, op.org, claims) == Approved(op.tier, op.permissions)
  {
    Calls.CreateRuleIff(s, Redb(db), op.org, op.claimKey, op.claimValue, op.tier, op.permissions, op.priority, op.id);
    StepOwned(s, db, op);
    var db' := Step(s, Redb(db), op).0.db;
    var rule := PolicyRule(op.id, op.org, op.claimKey, op.claimValue, op.tier, op.permissions, op.priority);
    forall r
      ensures Policy.HasRule(db', op.org, r) <==> if r.ruleId == op.id then r == rule else Policy.HasRule(db, op.org, r)
    {
      RuleAdded(s, db, op, r);
    }
    BestDecides(db', op.org, claims, rule);
  }

  lemma BestDecides(db: Redb.Db, org: string, claims: Policy.Claims, rule: PolicyRule)
    requires Owned(db) && NulFree(org) && Policy.Best(db, org, claims, rule)
    ensures Policy.Decide(db, org, claims) == Approved(rule.tier, rule.permissions)
  {
    Policy.DecideIsBest(db, org, claims);
    forall r | Policy.Best(db, org, claims, r) ensures r == rule { Policy.BestUnique(db, org, claims, r, rule); }
  }
}
