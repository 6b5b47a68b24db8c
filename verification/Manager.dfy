/** The storage trait with its two backends, and the tenant manager's operations on it
    (src/storage/mod.rs, src/tenant/manager.rs). */
module Manager {
  import opened Models
  import opened Lex
  import opened Keys
  import opened Envelope
  import Redb
  import Postgres
  import Utf8

  /** `Arc<dyn StorageBackend>`. */
  datatype Backend = Redb(db: Redb.Db) | Pg(rel: Postgres.Rel) {

    function FindOrg(org: string): Option<Organization>
    {
      var orgs := if Redb? then db.orgs else rel.orgs;
      if org in orgs then Some(orgs[org]) else None
    }

    function ListOrgs(): seq<Organization>
    {
      var orgs := if Redb? then db.orgs else rel.orgs;
      Redb.OrgValues(orgs, SortedKeys(orgs.Keys))
    }

    function CreateOrg(o: Organization): Result<Backend>
    {
      match this
      case Redb(db) => Ok(Redb(db.(orgs := db.orgs[o.orgId := o])))
      case Pg(rel) => Lift(Postgres.InsertOrg(rel, o))
    }

    function UpdateOrg(o: Organization): Backend
    {
      match this
      case Redb(db) => Redb(db.(orgs := db.orgs[o.orgId := o]))
      case Pg(rel) => Pg(Postgres.UpdateOrg(rel, o))
    }

    function DeleteOrg(org: string): Backend
    {
      match this
      case Redb(db) => Redb(Redb.WithoutOrg(db, org))
      case Pg(rel) => Pg(Postgres.DeleteOrg(rel, org))
    }

    /** create_formation, create_token, create_sink, create_idp, create_policy_rule. */
    function Create(t: Table, org: string, id: string, row: Row): Result<Backend>
    {
      match this
      case Redb(db) => Ok(Redb(db.(rows := db.rows[(t, Key(org, id)) := row])))
      case Pg(rel) => Lift(Postgres.Insert(rel, t, org, id, row))
    }

    /** update_token, update_sink, update_idp. */
    function Update(t: Table, org: string, id: string, row: Row): Backend
    {
      match this
      case Redb(db) => Redb(db.(rows := db.rows[(t, Key(org, id)) := row]))
      case Pg(rel) => Pg(Postgres.Update(rel, t, org, id, row))
    }

    function StoreGenesis(org: string, app: string, encoded: bytes): Result<Backend>
    {
      match this
      case Redb(db) => Ok(Redb(db.(rows := db.rows[(Genesis, Key(org, app)) := GenesisRow(encoded)])))
      case Pg(rel) => Lift(Postgres.Upsert(rel, Genesis, org, app, GenesisRow(encoded)))
    }

    function Find(t: Table, org: string, id: string): Option<Row>
    {
      match this
      case Redb(db) => if (t, Key(org, id)) in db.rows then Some(db.rows[(t, Key(org, id))]) else None
      case Pg(rel) => if (t, org, id) in rel.rows then Some(rel.rows[(t, org, id)]) else None
    }

    function Listing(t: Table, org: string): seq<Row>
    {
      match this
      case Redb(db) => Redb.Listing(db.rows, t, org)
      case Pg(rel) => Postgres.Select(rel, t, org)
    }

    function Delete(t: Table, org: string, id: string): Backend
    {
      match this
      case Redb(db) => Redb(db.(rows := db.rows - {(t, Key(org, id))}))
      case Pg(rel) => Pg(Postgres.Delete(rel, t, org, id))
    }

    function AppendAudit(e: AuditEntry): Result<Backend>
    {
      match this
      case Redb(db) =>
        Ok(Redb(db.(rows := db.rows[(Audit, AuditKey(e.orgId, e.timestampMs, e.auditId)) := AuditRow(e)])))
      case Pg(rel) => Lift(Postgres.AppendAudit(rel, e))
    }

    function FindCursor(org: string, app: string, doc: string): Option<string>
    {
      match this
      case Redb(db) =>
        var key := CursorKey(org, app, doc);
        if key in db.cursors then Some(db.cursors[key]) else None
      case Pg(rel) => if (org, app, doc) in rel.cursors then Some(rel.cursors[(org, app, doc)]) else None
    }

    function SetCursor(org: string, app: string, doc: string, hash: string): Result<Backend>
    {
      match this
      case Redb(db) => Ok(Redb(db.(cursors := db.cursors[CursorKey(org, app, doc) := hash])))
      case Pg(rel) => Lift(Postgres.SetCursor(rel, org, app, doc, hash))
    }
  }

  function Lift(r: Result<Postgres.Rel>): Result<Backend>
  {
    match r case Ok(rel) => Ok(Pg(rel)) case Err(e) => Err(e)
  }

  // --- The manager's environment ---

  /** MeshGenesis, known by its mesh id; the rest is opaque key material. */
  datatype MeshGenesis = MeshGenesis(meshId: string, secret: bytes)

  datatype Codec = Codec(encode: MeshGenesis -> bytes, decode: bytes -> Option<MeshGenesis>)

  ghost predicate LawfulCodec(c: Codec)
  {
    forall g :: c.decode(c.encode(g)) == Some(g) && !IsEnvelope(c.encode(g))
  }

  /** A manager's fixed parts: the foreign code it calls, its key provider, `encrypt_enabled`. */
  datatype Session = Session(gcm: Gcm, codec: Codec, provider: Provider, encryptEnabled: bool)

  /** Random ids, fresh key material and clock readings come with the operation. */
  datatype Op =
    | CreateOrg(org: string, displayName: string, now: u64)
    | GetOrg(org: string)
    | ListOrgs
    | UpdateOrg(org: string, newName: Option<string>, newQuotas: Option<OrgQuotas>)
    | DeleteOrg(org: string)
    | CreateFormation(org: string, app: string, policy: EnrollmentPolicy, genesis: MeshGenesis, coins: Coins)
    | DeleteFormation(org: string, app: string)
    | LoadGenesis(org: string, app: string)
    | CreateToken(org: string, app: string, tokenLabel: string, maxUses: Option<u32>, expiresAt: Option<u64>,
                  id: string, now: u64)
    | ListTokens(org: string, app: string)
    | RevokeToken(org: string, id: string)
    | ConsumeToken(org: string, app: string, id: string, now: u64)
    | CreateSink(org: string, sinkType: CdcSinkType, id: string, now: u64)
    | CreateIdp(org: string, issuerUrl: string, clientId: string, clientSecret: string, id: string, now: u64)
    | CreateRule(org: string, claimKey: string, claimValue: string, tier: MeshTier, permissions: u32,
                 priority: u32, id: string)
    | Toggle(t: Table, org: string, id: string, enabled: bool)  // toggle_sink, toggle_idp
    | Get(t: Table, org: string, id: string)                    // get_formation, get_token, get_sink, get_idp
    | List(t: Table, org: string)                               // list_formations, _sinks, _idps, _policy_rules
    | Delete(t: Table, org: string, id: string)                 // delete_token, _sink, _idp, _policy_rule
    | AppendAudit(entry: AuditEntry)
    | GetCursor(org: string, app: string, doc: string)
    | SetCursor(org: string, app: string, doc: string, hash: string)

  datatype Reply =
    | Done
    | OneOrg(o: Organization)
    | Orgs(orgs: seq<Organization>)
    | One(row: Row)
    | Many(rows: seq<Row>)
    | Loaded(g: MeshGenesis)
    | Cursor(hash: Option<string>)

  // --- Input validation ---

  predicate AlphaNumeric(c: char) { '0' <= c <= '9' || 'A' <= c <= 'Z' || 'a' <= c <= 'z' }

  predicate ValidIdentifier(s: string)
  {
    0 < |s| <= 128 && AlphaNumeric(s[0])
    && forall i :: 0 <= i < |s| ==> AlphaNumeric(s[i]) || s[i] in "._-"
  }

  predicate White(c: char)
  {
    '\t' <= c <= '\r' || c in " \U{85}\U{A0}\U{1680}\U{2028}\U{2029}\U{202F}\U{205F}\U{3000}"
    || '\U{2000}' <= c <= '\U{200A}'
  }

  predicate Blank(s: string) { forall i :: 0 <= i < |s| ==> White(s[i]) }

  /** The limit counts UTF-8 bytes. */
  predicate ValidDisplayName(s: string) { s != [] && |Utf8.Encode(s)| <= 1024 }

  predicate HttpUrl(s: string) { StartsWith(s, "http://") || StartsWith(s, "https://") }

  predicate ValidSinkType(t: CdcSinkType)
  {
    match t
    case Webhook(url) => HttpUrl(url)
    case Nats(subject) => !Blank(subject)
    case Kafka(topic) => !Blank(topic)
  }

  // --- Operations ---

  /** The token checks of `validate_and_consume_token`, in the source's order. */
  function Refusal(token: EnrollmentToken, app: string, now: u64): Option<Error>
  {
    if token.appId != app then Some(WrongFormation)
    else if token.revoked then Some(Revoked)
    else if token.expiresAt.Some? && now > token.expiresAt.value then Some(Expired)
    else if token.maxUses.Some? && token.uses >= token.maxUses.value then Some(Exhausted)
    else None
  }

  /** `uses += 1` on a u32, which wraps in a release build. */
  function Consumed(token: EnrollmentToken): EnrollmentToken
  {
    token.(uses := AsU32(token.uses + 1))
  }

  function SetEnabled(row: Row, enabled: bool): Row
  {
    match row
    case SinkRow(s) => SinkRow(s.(enabled := enabled))
    case IdpRow(i) => IdpRow(i.(enabled := enabled))
    case other => other
  }

  function StoredGenesis(s: Session, g: MeshGenesis, coins: Coins): Result<bytes>
  {
    if s.encryptEnabled then Seal(s.gcm, s.provider, s.codec.encode(g), coins) else Ok(s.codec.encode(g))
  }

  /** The plaintext that `load_genesis` decodes. */
  function Plaintext(s: Session, stored: bytes): Result<bytes>
  {
    if s.encryptEnabled then
      match Envelope.Open(s.gcm, s.provider, stored)
      case Err(e) => Err(e)
      case Ok(Some(plaintext)) => Ok(plaintext)
      case Ok(None) => Ok(stored)
    else Ok(stored)
  }

  function Decoded(s: Session, stored: bytes): Result<MeshGenesis>
  {
    match Plaintext(s, stored)
    case Err(e) => Err(e)
    case Ok(plaintext) => match s.codec.decode(plaintext) case Some(g) => Ok(g) case None => Err(Corrupt)
  }

  /** The key under which update_sink and update_idp write. */
  function Home(row: Row): (string, string)
  {
    match row
    case TokenRow(t) => (t.orgId, t.tokenId)
    case SinkRow(s) => (s.orgId, s.sinkId)
    case IdpRow(i) => (i.orgId, i.idpId)
    case RuleRow(r) => (r.orgId, r.ruleId)
    case _ => ("", "")
  }

  function Keep(b: Backend, reply: Result<Reply>): (Backend, Result<Reply>) { (b, reply) }

  /** Adopt the new store, or report the storage error and keep the old one. */
  function Commit(b: Backend, next: Result<Backend>, reply: Reply): (Backend, Result<Reply>)
  {
    match next case Ok(b') => (b', Ok(reply)) case Err(e) => (b, Err(e))
  }

  /** The checks before a formation is created, in the source's order. */
  function FormationObstacle(count: nat, found: bool, stored: Result<bytes>, quotas: OrgQuotas): (e: Option<Error>)
    ensures e.None? ==> stored.Ok?
  {
    if AsU32(count) >= quotas.maxFormations then Some(QuotaReached)
    else if found then Some(AlreadyExists)
    else if stored.Err? then Some(stored.error)
    else None
  }

  function NewFormation(s: Session, b: Backend, o: Organization, op: Op): (Backend, Result<Reply>)
    requires op.CreateFormation?
  {
    var stored := StoredGenesis(s, op.genesis, op.coins);
    match FormationObstacle(|b.Listing(Formations, op.org)|, b.Find(Formations, op.org, op.app).Some?, stored, o.quotas)
    case Some(e) => Keep(b, Err(e))
    case None => WriteFormation(b, op.org, FormationConfig(op.app, op.genesis.meshId, op.policy), stored.value)
  }

  function WriteFormation(b: Backend, org: string, f: FormationConfig, stored: bytes): (Backend, Result<Reply>)
  {
    match b.Create(Formations, org, f.appId, FormationRow(f))
    case Err(e) => Keep(b, Err(e))
    case Ok(b') => Commit(b', b'.StoreGenesis(org, f.appId, stored), One(FormationRow(f)))
  }

  function FormationStep(s: Session, b: Backend, op: Op): (Backend, Result<Reply>)
    requires op.CreateFormation? || op.DeleteFormation?
  {
    if op.CreateFormation? then
      if !ValidIdentifier(op.app) then Keep(b, Err(Invalid))
      else (match b.FindOrg(op.org) case None => Keep(b, Err(NotFound)) case Some(o) => NewFormation(s, b, o, op))
    else if b.Find(Formations, op.org, op.app).None? then Keep(b, Err(NotFound))
    else (b.Delete(Formations, op.org, op.app).Delete(Genesis, op.org, op.app), Ok(Done))
  }

  function OrgStep(b: Backend, op: Op): (Backend, Result<Reply>)
    requires op.CreateOrg? || op.UpdateOrg? || op.DeleteOrg?
  {
    match op
    case CreateOrg(org, name, now) =>
      if !ValidIdentifier(org) || !ValidDisplayName(name) then Keep(b, Err(Invalid))
      else if b.FindOrg(org).Some? then Keep(b, Err(AlreadyExists))
      else
        var o := Organization(org, name, DEFAULT_QUOTAS, now);
        Commit(b, b.CreateOrg(o), OneOrg(o))
    case UpdateOrg(org, name, quotas) =>
      (match b.FindOrg(org)
       case None => Keep(b, Err(NotFound))
       case Some(o) =>
         var named := if name.Some? then o.(displayName := name.value) else o;
         var changed := if quotas.Some? then named.(quotas := quotas.value) else named;
         (b.UpdateOrg(changed), Ok(OneOrg(changed))))
    case DeleteOrg(org) =>
      (b.DeleteOrg(org), if b.FindOrg(org).Some? then Ok(Done) else Err(NotFound))
  }

  function ChangeToken(b: Backend, op: Op): (Backend, Result<Reply>)
    requires op.RevokeToken? || op.ConsumeToken?
  {
    match b.Find(Tokens, op.org, op.id)
    case Some(TokenRow(token)) =>
      if op.RevokeToken? then
        if token.revoked then Keep(b, Err(AlreadyRevoked))
        else
          var row := TokenRow(token.(revoked := true));
          (b.Update(Tokens, token.orgId, token.tokenId, row), Ok(One(row)))
      else if Refusal(token, op.app, op.now).Some? then Keep(b, Err(Refusal(token, op.app, op.now).value))
      else
        var row := TokenRow(Consumed(token));
        (b.Update(Tokens, token.orgId, token.tokenId, row), Ok(One(row)))
    case Some(_) => Keep(b, Err(Corrupt))
    case None => Keep(b, Err(NotFound))
  }

  /** Does the operation create a row under a random id? */
  predicate CreatesRow(op: Op) { op.CreateToken? || op.CreateSink? || op.CreateIdp? || op.CreateRule? }

  /** The new row and its table. */
  function NewRow(op: Op): (Table, Row)
    requires CreatesRow(op)
  {
    match op
    case CreateToken(org, app, tokenLabel, maxUses, expiresAt, id, now) =>
      (Tokens, TokenRow(EnrollmentToken(id, org, app, tokenLabel, maxUses, 0, expiresAt, now, false)))
    case CreateSink(org, sinkType, id, now) => (Sinks, SinkRow(CdcSinkConfig(id, org, sinkType, true, now)))
    case CreateIdp(org, url, clientId, clientSecret, id, now) =>
      (Idps, IdpRow(IdpConfig(id, org, url, clientId, clientSecret, true, now)))
    case CreateRule(org, claimKey, claimValue, tier, permissions, priority, id) =>
      (Rules, RuleRow(PolicyRule(id, org, claimKey, claimValue, tier, permissions, priority)))
  }

  /** The checks before a row is created, in the source's order. */
  function RowObstacle(op: Op, org: Option<Organization>, hasFormation: bool, sinks: nat): Option<Error>
    requires CreatesRow(op)
  {
    if (op.CreateToken? && Blank(op.tokenLabel))
       || (op.CreateSink? && !ValidSinkType(op.sinkType))
       || (op.CreateIdp? && (!StartsWith(op.issuerUrl, "https://") || Blank(op.clientId) || Blank(op.clientSecret)))
    then Some(Invalid)
    else match org
      case None => Some(NotFound)
      case Some(o) =>
        if op.CreateToken? && !hasFormation then Some(NotFound)
        else if op.CreateSink? && AsU32(sinks) >= o.quotas.maxCdcSinks then Some(QuotaReached)
        else None
  }

  function Obstacle(b: Backend, op: Op): Option<Error>
    requires CreatesRow(op)
  {
    RowObstacle(op, b.FindOrg(op.org), op.CreateToken? && b.Find(Formations, op.org, op.app).Some?,
                if op.CreateSink? then |b.Listing(Sinks, op.org)| else 0)
  }

  function CreateUnless(b: Backend, op: Op, obstacle: Option<Error>): (Backend, Result<Reply>)
    requires CreatesRow(op)
  {
    if obstacle.Some? then Keep(b, Err(obstacle.value))
    else
      var (t, row) := NewRow(op);
      Commit(b, b.Create(t, op.org, op.id, row), One(row))
  }

  function CreateRow(b: Backend, op: Op): (Backend, Result<Reply>)
    requires CreatesRow(op)
  {
    CreateUnless(b, op, Obstacle(b, op))
  }

  function Toggled(b: Backend, op: Op): (Backend, Result<Reply>)
    requires op.Toggle?
  {
    if op.t !in {Sinks, Idps} then Keep(b, Err(Invalid))
    else match b.Find(op.t, op.org, op.id)
      case None => Keep(b, Err(NotFound))
      case Some(row) =>
        if !Fits(op.t, row) then Keep(b, Err(Corrupt)) else
        var (o, i) := Home(row);
        (b.Update(op.t, o, i, SetEnabled(row, op.enabled)), Ok(One(SetEnabled(row, op.enabled))))
  }

  function DropRow(b: Backend, op: Op): (Backend, Result<Reply>)
    requires op.Delete?
  {
    if op.t !in {Tokens, Sinks, Idps, Rules} then Keep(b, Err(Invalid))
    else (b.Delete(op.t, op.org, op.id), if b.Find(op.t, op.org, op.id).Some? then Ok(Done) else Err(NotFound))
  }

  function Loads(s: Session, b: Backend, org: string, app: string): Result<MeshGenesis>
  {
    match b.Find(Genesis, org, app)
    case Some(GenesisRow(stored)) => Decoded(s, stored)
    case Some(_) => Err(Corrupt)
    case None => Err(NotFound)
  }

  predicate ReadsOnly(op: Op)
  {
    op.GetOrg? || op.ListOrgs? || op.LoadGenesis? || op.ListTokens? || op.Get? || op.List? || op.GetCursor?
  }

  function Answer(s: Session, b: Backend, op: Op): Result<Reply>
    requires ReadsOnly(op)
  {
    match op
    case GetOrg(org) => (match b.FindOrg(org) case Some(o) => Ok(OneOrg(o)) case None => Err(NotFound))
    case ListOrgs => Ok(Orgs(b.ListOrgs()))
    case LoadGenesis(org, app) =>
      (match Loads(s, b, org, app) case Ok(g) => Ok(Loaded(g)) case Err(e) => Err(e))
    case ListTokens(org, app) =>
      if b.FindOrg(org).None? || b.Find(Formations, org, app).None? then Err(NotFound)
      else Ok(Many(Redb.OfApp(b.Listing(Tokens, org), app)))
    case Get(t, org, id) =>
      if t !in {Formations, Tokens, Sinks, Idps} then Err(Invalid)
      else (match b.Find(t, org, id) case Some(row) => Ok(One(row)) case None => Err(NotFound))
    case List(t, org) =>
      if t !in {Formations, Sinks, Idps, Rules} then Err(Invalid)
      else if b.FindOrg(org).None? then Err(NotFound) else Ok(Many(b.Listing(t, org)))
    case GetCursor(org, app, doc) => Ok(Cursor(b.FindCursor(org, app, doc)))
  }

  /** One manager call. */
  function Step(s: Session, b: Backend, op: Op): (Backend, Result<Reply>)
  {
    if ReadsOnly(op) then Keep(b, Answer(s, b, op))
    else if CreatesRow(op) then CreateRow(b, op)
    else if op.CreateFormation? || op.DeleteFormation? then FormationStep(s, b, op)
    else if op.RevokeToken? || op.ConsumeToken? then ChangeToken(b, op)
    else if op.Toggle? then Toggled(b, op)
    else if op.Delete? then DropRow(b, op)
    else if op.AppendAudit? then Commit(b, b.AppendAudit(op.entry), Done)
    else if op.SetCursor? then Commit(b, b.SetCursor(op.org, op.app, op.doc, op.hash), Done)
    else OrgStep(b, op)
  }
}
