/** What a caller may rely on, on either backend: exactly when each manager call succeeds, which error
    it gives otherwise, and what later calls then read (src/tenant/manager.rs). */
module Calls {
  import opened Models
  import opened Lex
  import opened Keys
  import opened Input
  import opened Manager
  import opened Envelope
  import opened Refinement
  import opened Ownership
  import Postgres
  import Redb

  // --- Organizations ---

  lemma CreateOrgIff(s: Session, b: Backend, org: string, name: string, now: u64)
    ensures var (b', r) := Step(s, b, CreateOrg(org, name, now));
            var valid := ValidIdentifier(org) && 1 <= ByteLength(name) <= 1024;
            (r.Ok? <==> valid && b.FindOrg(org).None?)
            && (r.Err? ==> b' == b && r.error == if valid then AlreadyExists else Invalid)
            && (r.Ok? ==>
                  var o := Organization(org, name, OrgQuotas(10, 100, 10_000, 5, 1000), now);
                  r.value == OneOrg(o) && Step(s, b', GetOrg(org)).1 == Ok(OneOrg(o)))
            && forall x :: x != org ==> b'.FindOrg(x) == b.FindOrg(x)
  {
    DisplayNameIff(name);
  }

  lemma UpdateOrgIff(s: Session, b: Backend, org: string, name: Option<string>, quotas: Option<OrgQuotas>)
    requires Sane(b)
    ensures var (b', r) := Step(s, b, UpdateOrg(org, name, quotas));
            (r.Ok? <==> b.FindOrg(org).Some?) && (r.Err? ==> b' == b && r.error == NotFound)
            && (r.Ok? ==>
                  var was := b.FindOrg(org).value;
                  var o := Organization(org, match name case Some(n) => n case None => was.displayName,
                                        match quotas case Some(q) => q case None => was.quotas, was.createdAt);
                  r.value == OneOrg(o) && Step(s, b', GetOrg(org)).1 == Ok(OneOrg(o)))
            && forall x :: x != org ==> b'.FindOrg(x) == b.FindOrg(x)
  {
  }

  lemma DeleteOrgIff(s: Session, b: Backend, org: string)
    ensures var (b', r) := Step(s, b, DeleteOrg(org));
            r == (if b.FindOrg(org).Some? then Ok(Done) else Err(NotFound))
            && Step(s, b', GetOrg(org)).1 == Err(NotFound)
            && forall x :: x != org ==> b'.FindOrg(x) == b.FindOrg(x)
  {
  }

  lemma GetOrgIff(s: Session, b: Backend, org: string)
    ensures Step(s, b, GetOrg(org))
            == (b, if b.FindOrg(org).Some? then Ok(OneOrg(b.FindOrg(org).value)) else Err(NotFound))
  {
  }

  /** Every organization once, in the order of the ids. */
  ghost predicate ListsOrgs(orgs: map<string, Organization>, r: seq<Organization>)
  {
    && (forall o: Organization :: o in r <==> o.orgId in orgs && orgs[o.orgId] == o)
    && forall i, j :: 0 <= i < j < |r| ==> Less(r[i].orgId, r[j].orgId)
  }

  lemma OrgListing(orgs: map<string, Organization>)
    requires forall k :: k in orgs ==> orgs[k].orgId == k
    ensures ListsOrgs(orgs, Redb.OrgValues(orgs, SortedKeys(orgs.Keys)))
  {
    var ids := SortedKeys(orgs.Keys);
    var r := Redb.OrgValues(orgs, ids);
    SortedKeysAscending(orgs.Keys);
    forall i | 0 <= i < |r| ensures ids[i] in orgs && r[i].orgId == ids[i] { assert ids[i] in ids; }
    forall o: Organization | o.orgId in orgs && orgs[o.orgId] == o ensures o in r {
      var i :| 0 <= i < |ids| && ids[i] == o.orgId;
      assert r[i] == o;
    }
  }

  function OrgsOf(b: Backend): map<string, Organization> { if b.Redb? then b.db.orgs else b.rel.orgs }

  lemma ListOrgsMeaning(s: Session, b: Backend)
    requires Sane(b)
    ensures exists r :: Step(s, b, Op.ListOrgs) == (b, Ok(Orgs(r))) && ListsOrgs(OrgsOf(b), r)
  {
    OrgListing(OrgsOf(b));
    assert Step(s, b, Op.ListOrgs) == (b, Ok(Orgs(b.ListOrgs())));
  }

  // --- Listings ---

  /** Exactly the organization's rows of the table, in the order of their ids. */
  ghost predicate Lists(b: Backend, t: Table, org: string, ids: seq<string>, rows: seq<Row>)
  {
    && |rows| == |ids|
    && (forall i :: 0 <= i < |ids| ==> b.Find(t, org, ids[i]) == Some(rows[i]))
    && (forall id :: b.Find(t, org, id).Some? ==> id in ids)
    && Ascending(ids)
  }

  lemma RedbListingMeaning(db: Redb.Db, t: Table, org: string)
    ensures Lists(Redb(db), t, org, SortedKeys(LocalIds(db.rows, t, org)), Redb.Listing(db.rows, t, org))
  {
    ListingById(db.rows, t, org);
    SortedKeysAscending(LocalIds(db.rows, t, org));
  }

  lemma SelectMeaning(rel: Postgres.Rel, t: Table, org: string)
    ensures Lists(Pg(rel), t, org, SortedKeys(Postgres.Ids(rel, t, org)), Postgres.Select(rel, t, org))
  {
    var ids, rows := SortedKeys(Postgres.Ids(rel, t, org)), Postgres.Select(rel, t, org);
    SortedKeysAscending(Postgres.Ids(rel, t, org));
    forall i | 0 <= i < |ids| ensures Pg(rel).Find(t, org, ids[i]) == Some(rows[i]) { assert ids[i] in ids; }
  }

  lemma ListingMeaning(b: Backend, t: Table, org: string) returns (ids: seq<string>)
    ensures Lists(b, t, org, ids, b.Listing(t, org))
  {
    match b {
      case Redb(db) =>
        RedbListingMeaning(db, t, org);
        ids := SortedKeys(LocalIds(db.rows, t, org));
      case Pg(rel) =>
        SelectMeaning(rel, t, org);
        ids := SortedKeys(Postgres.Ids(rel, t, org));
    }
  }

  lemma ListAnswers(s: Session, b: Backend, t: Table, org: string)
    requires t in {Formations, Sinks, Idps, Rules}
    ensures Step(s, b, Op.List(t, org)) == (b, if b.FindOrg(org).Some? then Ok(Many(b.Listing(t, org))) else Err(NotFound))
  {
  }

  /** list_formations, list_sinks, list_idps and list_policy_rules. */
  lemma ListIff(s: Session, b: Backend, t: Table, org: string) returns (ids: seq<string>)
    requires t in {Formations, Sinks, Idps, Rules}
    ensures if b.FindOrg(org).None? then Step(s, b, Op.List(t, org)) == (b, Err(NotFound))
            else exists rows :: Step(s, b, Op.List(t, org)) == (b, Ok(Many(rows))) && Lists(b, t, org, ids, rows)
  {
    ListAnswers(s, b, t, org);
    ids := ListingMeaning(b, t, org);
  }

  /** The tokens of one formation, in the order of their ids. */
  ghost predicate ListsTokens(b: Backend, org: string, app: string, rows: seq<Row>)
  {
    && (forall row :: row in rows <==> row.TokenRow? && row.token.appId == app
                                       && b.Find(Tokens, org, row.token.tokenId) == Some(row))
    && forall i, j :: 0 <= i < j < |rows| ==>
         rows[i].TokenRow? && rows[j].TokenRow? && Less(rows[i].token.tokenId, rows[j].token.tokenId)
  }

  /** Stored tokens bear their ids. */
  ghost predicate TokensFiled(ids: seq<string>, rows: seq<Row>)
  {
    |rows| == |ids| && forall i :: 0 <= i < |ids| ==> rows[i].TokenRow? && rows[i].token.tokenId == ids[i]
  }

  /** Rows of one application, in the order of their ids. */
  ghost predicate Chosen(rows: seq<Row>, app: string, r: seq<Row>)
  {
    && (forall row :: row in r <==> row in rows && row.TokenRow? && row.token.appId == app)
    && forall i, j :: 0 <= i < j < |r| ==> r[i].TokenRow? && r[j].TokenRow? && Less(r[i].token.tokenId, r[j].token.tokenId)
  }

  lemma ChosenPlus(rows: seq<Row>, last: Row, app: string, r: seq<Row>)
    requires Chosen(rows, app, r) && last.TokenRow?
    requires forall row :: row in rows ==> row.TokenRow? && Less(row.token.tokenId, last.token.tokenId)
    ensures Chosen(rows + [last], app, if last.token.appId == app then r + [last] else r)
  {
    forall i | 0 <= i < |r| ensures r[i] in rows { assert r[i] in r; }
  }

  lemma OfAppPlus(head: seq<Row>, last: Row, app: string)
    requires last.TokenRow?
    ensures Redb.OfApp(head + [last], app)
            == if last.token.appId == app then Redb.OfApp(head, app) + [last] else Redb.OfApp(head, app)
  {
    assert (head + [last])[..|head|] == head;
    Units(Redb.OfApp(head, app));
  }

  lemma LastIsGreatest(ids: seq<string>, rows: seq<Row>, n: nat)
    requires TokensFiled(ids, rows) && Ascending(ids) && |rows| == n + 1
    ensures rows[n].TokenRow? && TokensFiled(ids[..n], rows[..n]) && Ascending(ids[..n])
    ensures forall row :: row in rows[..n] ==> row.TokenRow? && Less(row.token.tokenId, rows[n].token.tokenId)
  {
    forall row | row in rows[..n] ensures row.TokenRow? && Less(row.token.tokenId, rows[n].token.tokenId) {
      var i :| 0 <= i < n && rows[i] == row;
      assert ids[i] == row.token.tokenId && ids[n] == rows[n].token.tokenId;
    }
  }

  lemma OfAppExtends(head: seq<Row>, last: Row, app: string)
    requires Chosen(head, app, Redb.OfApp(head, app)) && last.TokenRow?
    requires forall row :: row in head ==> row.TokenRow? && Less(row.token.tokenId, last.token.tokenId)
    ensures Chosen(head + [last], app, Redb.OfApp(head + [last], app))
  {
    OfAppPlus(head, last, app);
    ChosenPlus(head, last, app, Redb.OfApp(head, app));
  }

  lemma {:induction false} OfAppMeaning(ids: seq<string>, rows: seq<Row>, app: string)
    requires TokensFiled(ids, rows) && Ascending(ids)
    ensures Chosen(rows, app, Redb.OfApp(rows, app))
  {
    if rows != [] {
      var n := |rows| - 1;
      LastIsGreatest(ids, rows, n);
      OfAppMeaning(ids[..n], rows[..n], app);
      OfAppExtends(rows[..n], rows[n], app);
      assert rows == rows[..n] + [rows[n]];
    }
  }

  lemma FiledRow(b: Backend, t: Table, org: string, id: string)
    requires Sane(b) && NulFree(org) && t != Audit && b.Find(t, org, id).Some?
    ensures Filed(t, org, id, b.Find(t, org, id).value)
  {
    if b.Redb? { FiledAt(b.db, t, org, id); }
  }

  lemma TokensAreFiled(b: Backend, org: string, ids: seq<string>, rows: seq<Row>)
    requires Sane(b) && NulFree(org) && Lists(b, Tokens, org, ids, rows)
    ensures TokensFiled(ids, rows)
  {
    forall i | 0 <= i < |ids| ensures rows[i].TokenRow? && rows[i].token.tokenId == ids[i] {
      assert b.Find(Tokens, org, ids[i]) == Some(rows[i]);
      FiledRow(b, Tokens, org, ids[i]);
    }
  }

  lemma RowsListed(b: Backend, org: string, ids: seq<string>, rows: seq<Row>)
    requires Lists(b, Tokens, org, ids, rows) && TokensFiled(ids, rows)
    ensures forall row :: row in rows <==> row.TokenRow? && b.Find(Tokens, org, row.token.tokenId) == Some(row)
  {
    forall row: Row | row.TokenRow? && b.Find(Tokens, org, row.token.tokenId) == Some(row) ensures row in rows {
      var i :| 0 <= i < |ids| && ids[i] == row.token.tokenId;
      assert rows[i] == row;
    }
    forall row | row in rows ensures row.TokenRow? && b.Find(Tokens, org, row.token.tokenId) == Some(row) {
      var i :| 0 <= i < |rows| && rows[i] == row;
      assert b.Find(Tokens, org, ids[i]) == Some(rows[i]);
    }
  }

  lemma TokenListing(b: Backend, org: string, app: string)
    requires Sane(b) && NulFree(org)
    ensures ListsTokens(b, org, app, Redb.OfApp(b.Listing(Tokens, org), app))
  {
    var rows := b.Listing(Tokens, org);
    var ids := ListingMeaning(b, Tokens, org);
    TokensAreFiled(b, org, ids, rows);
    OfAppMeaning(ids, rows, app);
    RowsListed(b, org, ids, rows);
  }

  lemma TokenListAnswers(s: Session, b: Backend, org: string, app: string)
    ensures Step(s, b, Op.ListTokens(org, app))
            == (b, if b.FindOrg(org).Some? && b.Find(Formations, org, app).Some?
                   then Ok(Many(Redb.OfApp(b.Listing(Tokens, org), app))) else Err(NotFound))
  {
  }

  lemma ListTokensIff(s: Session, b: Backend, org: string, app: string)
    requires Sane(b) && NulFree(org)
    ensures if b.FindOrg(org).None? || b.Find(Formations, org, app).None?
            then Step(s, b, Op.ListTokens(org, app)) == (b, Err(NotFound))
            else exists rows :: Step(s, b, Op.ListTokens(org, app)) == (b, Ok(Many(rows))) && ListsTokens(b, org, app, rows)
  {
    TokenListAnswers(s, b, org, app);
    TokenListing(b, org, app);
  }

  /** get_formation, get_token, get_sink and get_idp. */
  lemma GetIff(s: Session, b: Backend, t: Table, org: string, id: string)
    requires t in {Formations, Tokens, Sinks, Idps}
    ensures Step(s, b, Op.Get(t, org, id))
            == (b, match b.Find(t, org, id) case Some(row) => Ok(One(row)) case None => Err(NotFound))
  {
  }

  // --- Formations ---

  /** The bytes stored for a genesis: an envelope that opens to its encoding if a key-encryption key is
      configured, and the encoding otherwise. */
  lemma StoredGenesisMeaning(s: Session, g: MeshGenesis, coins: Coins)
    requires Lawful(s.gcm) && Faithful(s.provider)
    ensures var stored := StoredGenesis(s, g, coins);
            if s.encryptEnabled
            then stored.Ok? ==> IsEnvelope(stored.value)
                                && Envelope.Open(s.gcm, s.provider, stored.value) == Ok(Some(s.codec.encode(g)))
            else stored == Ok(s.codec.encode(g))
  {
    OpenSeal(s.gcm, s.provider, s.codec.encode(g), coins);
  }

  lemma FormationWritten(b: Backend, org: string, f: FormationConfig, stored: bytes)
    requires b.FindOrg(org).Some? && b.Find(Formations, org, f.appId).None?
    ensures var (b', r) := WriteFormation(b, org, f, stored);
            r == Ok(One(FormationRow(f))) && b'.Find(Formations, org, f.appId) == Some(FormationRow(f))
            && b'.Find(Genesis, org, f.appId) == Some(GenesisRow(stored))
  {
  }

  lemma NewFormationIs(s: Session, b: Backend, op: Op)
    requires op.CreateFormation?
    ensures var (org, stored) := (b.FindOrg(op.org), StoredGenesis(s, op.genesis, op.coins));
            Step(s, b, op)
            == if !ValidIdentifier(op.app) then (b, Err(Invalid))
               else if org.None? then (b, Err(NotFound))
               else if |b.Listing(Formations, op.org)| % 0x1_0000_0000 >= org.value.quotas.maxFormations
               then (b, Err(QuotaReached))
               else if b.Find(Formations, op.org, op.app).Some? then (b, Err(AlreadyExists))
               else if stored.Err? then (b, Err(stored.error))
               else WriteFormation(b, op.org, FormationConfig(op.app, op.genesis.meshId, op.policy), stored.value)
  {
  }

  /** create_formation checks the id, the organization, the quota, the clash and the sealing, in this
      order, and then stores both records. */
  lemma CreateFormationIff(s: Session, b: Backend, op: Op)
    requires op.CreateFormation?
    ensures var (b', r) := Step(s, b, op);
            var (org, stored) := (b.FindOrg(op.org), StoredGenesis(s, op.genesis, op.coins));
            var free := org.Some? && |b.Listing(Formations, op.org)| % 0x1_0000_0000 < org.value.quotas.maxFormations;
            var unused := b.Find(Formations, op.org, op.app).None?;
            (r.Ok? <==> ValidIdentifier(op.app) && free && unused && stored.Ok?)
            && (r.Err? ==> b' == b && r.error == if !ValidIdentifier(op.app) then Invalid
                                                 else if org.None? then NotFound
                                                 else if !free then QuotaReached
                                                 else if !unused then AlreadyExists
                                                 else stored.error)
            && (r.Ok? ==>
                  var row := FormationRow(FormationConfig(op.app, op.genesis.meshId, op.policy));
                  r.value == One(row) && b'.Find(Formations, op.org, op.app) == Some(row)
                  && b'.Find(Genesis, op.org, op.app) == Some(GenesisRow(stored.value)))
  {
    var stored := StoredGenesis(s, op.genesis, op.coins);
    NewFormationIs(s, b, op);
    if b.FindOrg(op.org).Some? && b.Find(Formations, op.org, op.app).None? && stored.Ok? {
      FormationWritten(b, op.org, FormationConfig(op.app, op.genesis.meshId, op.policy), stored.value);
    }
  }

  lemma DeleteFormationIff(s: Session, b: Backend, org: string, app: string)
    ensures var (b', r) := Step(s, b, DeleteFormation(org, app));
            r == (if b.Find(Formations, org, app).Some? then Ok(Done) else Err(NotFound))
            && (r.Err? ==> b' == b)
            && (r.Ok? ==> b'.Find(Formations, org, app).None? && b'.Find(Genesis, org, app).None?)
  {
  }

  /** load_genesis decodes what lies under the envelope, if encryption is on and there is one, and
      otherwise the stored bytes themselves. */
  lemma LoadGenesisIff(s: Session, b: Backend, org: string, app: string, stored: bytes)
    requires b.Find(Genesis, org, app) == Some(GenesisRow(stored))
    ensures var (b', r) := Step(s, b, LoadGenesis(org, app));
            var inner := if s.encryptEnabled && Enveloped(stored) then Envelope.Open(s.gcm, s.provider, stored)
                          else Ok(Some(stored));
            b' == b
            && if inner.Err? then r == Err(inner.error)
               else inner.value.Some?
                    && var g := s.codec.decode(inner.value.value); r == if g.Some? then Ok(Loaded(g.value)) else Err(Corrupt)
  {
    OpenNone(s.gcm, s.provider, stored);
  }

  lemma NoGenesisIff(s: Session, b: Backend, org: string, app: string)
    requires b.Find(Genesis, org, app).None?
    ensures Step(s, b, LoadGenesis(org, app)) == (b, Err(NotFound))
  {
  }

  // --- Tokens ---

  /** The backend takes a new row under this id: redb always, PostgreSQL if the id is not in use. */
  predicate Takes(b: Backend, t: Table, org: string, id: string) { b.Redb? || b.Find(t, org, id).None? }

  lemma CreateTokenIff(s: Session, b: Backend, org: string, app: string, tokenLabel: string, maxUses: Option<u32>,
                       expiresAt: Option<u64>, id: string, now: u64)
    ensures var (b', r) := Step(s, b, CreateToken(org, app, tokenLabel, maxUses, expiresAt, id, now));
            var known := b.FindOrg(org).Some? && b.Find(Formations, org, app).Some?;
            (r.Ok? <==> !Blank(tokenLabel) && known && Takes(b, Tokens, org, id))
            && (r.Err? ==> b' == b && r.error == if Blank(tokenLabel) then Invalid else if !known then NotFound else Constraint)
            && (r.Ok? ==>
                  var row := TokenRow(EnrollmentToken(id, org, app, tokenLabel, maxUses, 0, expiresAt, now, false));
                  r.value == One(row) && b'.Find(Tokens, org, id) == Some(row))
  {
  }

  /** The formation it is for, not revoked, not past its expiry, and with a use left. */
  predicate Admits(t: EnrollmentToken, app: string, now: u64)
  {
    && t.appId == app && !t.revoked
    && (t.expiresAt.Some? ==> now <= t.expiresAt.value)
    && (t.maxUses.Some? ==> t.uses < t.maxUses.value)
  }

  lemma AdmitsIff(t: EnrollmentToken, app: string, now: u64)
    ensures Refusal(t, app, now).None? <==> Admits(t, app, now)
  {
  }

  /** The row of a token lies where its own fields say. */
  lemma TokenHome(b: Backend, org: string, id: string)
    requires Sane(b) && b.Find(Tokens, org, id).Some?
    ensures var row := b.Find(Tokens, org, id).value;
            row.TokenRow? && forall x :: b.Update(Tokens, row.token.orgId, row.token.tokenId, x).Find(Tokens, org, id) == Some(x)
  {
    if b.Redb? { FoundRow(b.db, Tokens, org, id); }
  }

  /** A token is consumed exactly if it is there and admits the formation now; it then has one more use,
      as a 32-bit number, and is otherwise what it was. */
  lemma ConsumeIff(s: Session, b: Backend, org: string, app: string, id: string, now: u64)
    requires Sane(b)
    ensures var (b', r) := Step(s, b, ConsumeToken(org, app, id, now));
            var found := b.Find(Tokens, org, id);
            (found.Some? ==> found.value.TokenRow?)
            && (r.Ok? <==> found.Some? && Admits(found.value.token, app, now))
            && (r.Err? ==> b' == b)
            && (r.Err? ==> r.error == if found.None? then NotFound
                                      else if found.value.token.appId != app then WrongFormation
                                      else if found.value.token.revoked then Revoked
                                      else if found.value.token.expiresAt.Some? && found.value.token.expiresAt.value < now
                                      then Expired else Exhausted)
            && (r.Ok? ==>
                  var row := TokenRow(found.value.token.(uses := (found.value.token.uses + 1) % 0x1_0000_0000));
                  r.value == One(row) && b'.Find(Tokens, org, id) == Some(row))
  {
    if b.Find(Tokens, org, id).Some? { TokenHome(b, org, id); }
  }

  /** A token is revoked exactly if it is there and not revoked; that alone changes. A second revocation
      is refused. */
  lemma RevokeIff(s: Session, b: Backend, org: string, id: string)
    requires Sane(b)
    ensures var (b', r) := Step(s, b, RevokeToken(org, id));
            var found := b.Find(Tokens, org, id);
            (found.Some? ==> found.value.TokenRow?)
            && (r.Ok? <==> found.Some? && !found.value.token.revoked)
            && (r.Err? ==> b' == b && r.error == if found.None? then NotFound else AlreadyRevoked)
            && (r.Ok? ==>
                  var row := TokenRow(found.value.token.(revoked := true));
                  r.value == One(row) && b'.Find(Tokens, org, id) == Some(row)
                  && Step(s, b', RevokeToken(org, id)) == (b', Err(AlreadyRevoked)))
  {
    if b.Find(Tokens, org, id).Some? { TokenHome(b, org, id); }
  }

  // --- Sinks, identity providers, policy rules ---

  lemma SinkObstacle(b: Backend, op: Op)
    requires op.CreateSink?
    ensures var o := b.FindOrg(op.org);
            Obstacle(b, op) == if !ValidSinkType(op.sinkType) then Some(Invalid) else if o.None? then Some(NotFound)
                               else if |b.Listing(Sinks, op.org)| % 0x1_0000_0000 >= o.value.quotas.maxCdcSinks
                               then Some(QuotaReached) else None
  {
  }

  lemma CreateSinkIff(s: Session, b: Backend, org: string, sinkType: CdcSinkType, id: string, now: u64)
    ensures var (b', r) := Step(s, b, CreateSink(org, sinkType, id, now));
            var o := b.FindOrg(org);
            var free := o.Some? && |b.Listing(Sinks, org)| % 0x1_0000_0000 < o.value.quotas.maxCdcSinks;
            (r.Ok? <==> ValidSinkType(sinkType) && free && Takes(b, Sinks, org, id))
            && (r.Err? ==> b' == b && r.error == if !ValidSinkType(sinkType) then Invalid else if o.None? then NotFound
                                                 else if !free then QuotaReached else Constraint)
            && (r.Ok? ==>
                  var row := SinkRow(CdcSinkConfig(id, org, sinkType, true, now));
                  r.value == One(row) && b'.Find(Sinks, org, id) == Some(row))
  {
    SinkObstacle(b, CreateSink(org, sinkType, id, now));
  }

  lemma CreateIdpIff(s: Session, b: Backend, org: string, url: string, clientId: string, clientSecret: string,
                     id: string, now: u64)
    ensures var (b', r) := Step(s, b, CreateIdp(org, url, clientId, clientSecret, id, now));
            var valid := Starts(url, "https://") && !Blank(clientId) && !Blank(clientSecret);
            (r.Ok? <==> valid && b.FindOrg(org).Some? && Takes(b, Idps, org, id))
            && (r.Err? ==> b' == b && r.error == if !valid then Invalid else if b.FindOrg(org).None? then NotFound else Constraint)
            && (r.Ok? ==>
                  var row := IdpRow(IdpConfig(id, org, url, clientId, clientSecret, true, now));
                  r.value == One(row) && b'.Find(Idps, org, id) == Some(row))
  {
  }

  lemma CreateRuleIff(s: Session, b: Backend, org: string, claimKey: string, claimValue: string, tier: MeshTier,
                      permissions: u32, priority: u32, id: string)
    ensures var (b', r) := Step(s, b, CreateRule(org, claimKey, claimValue, tier, permissions, priority, id));
            (r.Ok? <==> b.FindOrg(org).Some? && Takes(b, Rules, org, id))
            && (r.Err? ==> b' == b && r.error == if b.FindOrg(org).None? then NotFound else Constraint)
            && (r.Ok? ==>
                  var row := RuleRow(PolicyRule(id, org, claimKey, claimValue, tier, permissions, priority));
                  r.value == One(row) && b'.Find(Rules, org, id) == Some(row))
  {
  }

  lemma RowHome(b: Backend, t: Table, org: string, id: string)
    requires Sane(b) && t in {Sinks, Idps} && b.Find(t, org, id).Some?
    ensures var row := b.Find(t, org, id).value;
            Fits(t, row) && forall x :: b.Update(t, Home(row).0, Home(row).1, x).Find(t, org, id) == Some(x)
  {
    if b.Redb? { FoundRow(b.db, t, org, id); }
  }

  /** toggle_sink changes the flag of an existing sink, and nothing else about it. */
  lemma ToggleSinkIff(s: Session, b: Backend, org: string, id: string, enabled: bool)
    requires Sane(b)
    ensures var (b', r) := Step(s, b, Toggle(Sinks, org, id, enabled));
            var found := b.Find(Sinks, org, id);
            (r.Ok? <==> found.Some?) && (r.Err? ==> b' == b && r.error == NotFound)
            && (r.Ok? ==>
                  found.value.SinkRow? &&
                  var was := found.value.sink;
                  var row := SinkRow(CdcSinkConfig(was.sinkId, was.orgId, was.sinkType, enabled, was.createdAt));
                  r.value == One(row) && b'.Find(Sinks, org, id) == Some(row))
  {
    if b.Find(Sinks, org, id).Some? { RowHome(b, Sinks, org, id); }
  }

  lemma ToggleIdpIff(s: Session, b: Backend, org: string, id: string, enabled: bool)
    requires Sane(b)
    ensures var (b', r) := Step(s, b, Toggle(Idps, org, id, enabled));
            var found := b.Find(Idps, org, id);
            (r.Ok? <==> found.Some?) && (r.Err? ==> b' == b && r.error == NotFound)
            && (r.Ok? ==>
                  found.value.IdpRow? &&
                  var was := found.value.idp;
                  var row := IdpRow(IdpConfig(was.idpId, was.orgId, was.issuerUrl, was.clientId, was.clientSecret, enabled,
                                              was.createdAt));
                  r.value == One(row) && b'.Find(Idps, org, id) == Some(row))
  {
    if b.Find(Idps, org, id).Some? { RowHome(b, Idps, org, id); }
  }

  /** delete_token, delete_sink, delete_idp and delete_policy_rule. */
  lemma DeleteIff(s: Session, b: Backend, t: Table, org: string, id: string)
    requires t in {Tokens, Sinks, Idps, Rules}
    ensures var (b', r) := Step(s, b, Op.Delete(t, org, id));
            r == (if b.Find(t, org, id).Some? then Ok(Done) else Err(NotFound)) && b'.Find(t, org, id).None?
  {
  }

  // --- The audit log and the cursors ---

  /** The entry is stored. */
  ghost predicate Logged(b: Backend, e: AuditEntry)
  {
    match b
    case Redb(db) => HasEntry(db, e)
    case Pg(rel) => (e.orgId, e.auditId) in rel.audit && rel.audit[(e.orgId, e.auditId)] == e
  }

  /** An entry is stored as it is; PostgreSQL takes it for a live organization and a new id only. */
  lemma AppendAuditIff(s: Session, b: Backend, e: AuditEntry)
    ensures var (b', r) := Step(s, b, Op.AppendAudit(e));
            (r == if b.Redb? || (b.FindOrg(e.orgId).Some? && (e.orgId, e.auditId) !in b.rel.audit) then Ok(Done)
                  else Err(Constraint))
            && (r.Err? ==> b' == b) && (r.Ok? ==> Logged(b', e))
  {
  }


  /** A cursor is read as it was last set; on PostgreSQL it can be set for live organizations only. */
  lemma CursorIff(s: Session, b: Backend, org: string, app: string, doc: string, hash: string)
    ensures var (b', r) := Step(s, b, SetCursor(org, app, doc, hash));
            (r == if b.Redb? || b.FindOrg(org).Some? then Ok(Done) else Err(Constraint))
            && (r.Err? ==> b' == b)
            && (r.Ok? ==> Step(s, b', GetCursor(org, app, doc)) == (b', Ok(Cursor(Some(hash)))))
  {
  }
}
