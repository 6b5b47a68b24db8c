/** The tenant manager as it runs on the embedded store (src/tenant/manager.rs): its methods query
    and change the store step by step, and together do what `Manager.Step` says of one call. */
module TenantManager {
  import opened Models
  import opened Lex
  import opened Keys
  import opened Manager
  import Calls
  import Envelope
  import Redb

  /** A new row is refused for the first obstacle, and otherwise stored. */
  lemma RowOutcome(s: Session, db: Redb.Db, op: Op)
    requires CreatesRow(op)
    ensures var (t, row) := NewRow(op);
            Step(s, Redb(db), op)
            == match Obstacle(Redb(db), op)
               case Some(e) => (Redb(db), Err(e))
               case None => (Redb(db.(rows := db.rows[(t, Key(op.org, op.id)) := row])), Ok(One(row)))
  {
  }

  lemma SinkObstacle(db: Redb.Db, op: Op)
    requires op.CreateSink?
    ensures Obstacle(Redb(db), op)
            == if !ValidSinkType(op.sinkType) then Some(Invalid)
               else if op.org !in db.orgs then Some(NotFound)
               else if AsU32(|Redb.Listing(db.rows, Sinks, op.org)|) >= db.orgs[op.org].quotas.maxCdcSinks
               then Some(QuotaReached) else None
  {
  }

  class TenantManager {
    const store: Redb.RedbBackend
    const session: Session

    constructor (store: Redb.RedbBackend, session: Session)
      ensures this.store == store && this.session == session
    {
      this.store, this.session := store, session;
    }

    /** The call `op` took the store from `before` to its present contents, with the result `r`. */
    ghost predicate Did(before: Redb.Db, op: Op, r: Result<Reply>)
      reads this, store
    {
      Step(session, Redb(before), op) == (Redb(store.View()), r)
    }

    method CreateOrg(org: string, displayName: string, now: u64) returns (r: Result<Reply>)
      modifies store
      ensures Did(old(store.View()), Op.CreateOrg(org, displayName, now), r)
    {
      if !ValidIdentifier(org) || !ValidDisplayName(displayName) {
        return Err(Invalid);
      }
      var existing := store.GetOrg(org);
      if existing.Some? {
        return Err(AlreadyExists);
      }
      var o := Organization(org, displayName, DEFAULT_QUOTAS, now);
      store.InsertOrg(o);
      return Ok(OneOrg(o));
    }

    method UpdateOrg(org: string, displayName: Option<string>, quotas: Option<OrgQuotas>) returns (r: Result<Reply>)
      modifies store
      ensures Did(old(store.View()), Op.UpdateOrg(org, displayName, quotas), r)
    {
      var found := store.GetOrg(org);
      if found.None? {
        return Err(NotFound);
      }
      var o := found.value;
      if displayName.Some? {
        o := o.(displayName := displayName.value);
      }
      if quotas.Some? {
        o := o.(quotas := quotas.value);
      }
      store.InsertOrg(o);
      return Ok(OneOrg(o));
    }

    method DeleteOrg(org: string) returns (r: Result<Reply>)
      modifies store
      ensures Did(old(store.View()), Op.DeleteOrg(org), r)
    {
      var removed := store.DeleteOrg(org);
      return if removed then Ok(Done) else Err(NotFound);
    }

    /** The bytes to store: sealed if a key-encryption key is configured. */
    method Protect(genesis: MeshGenesis, coins: Envelope.Coins) returns (stored: Result<bytes>)
      ensures stored == StoredGenesis(session, genesis, coins)
    {
      var encoded := session.codec.encode(genesis);
      if session.encryptEnabled {
        stored := Envelope.SealEnvelope(session.gcm, session.provider, encoded, coins);
      } else {
        stored := Ok(encoded);
      }
    }

    method CreateFormation(org: string, app: string, policy: EnrollmentPolicy, genesis: MeshGenesis,
                           coins: Envelope.Coins)
      returns (r: Result<Reply>)
      modifies store
      ensures Did(old(store.View()), Op.CreateFormation(org, app, policy, genesis, coins), r)
    {
      Calls.NewFormationIs(session, Redb(store.View()), Op.CreateFormation(org, app, policy, genesis, coins));
      if !ValidIdentifier(app) {
        return Err(Invalid);
      }
      var found := store.GetOrg(org);
      if found.None? {
        return Err(NotFound);
      }
      var existing := store.List(Formations, org);
      if AsU32(|existing|) >= found.value.quotas.maxFormations {
        return Err(QuotaReached);
      }
      var clash := store.Get(Formations, org, app);
      if clash.Some? {
        return Err(AlreadyExists);
      }
      var stored := Protect(genesis, coins);
      if stored.Err? {
        return Err(stored.error);
      }
      var row := FormationRow(FormationConfig(app, genesis.meshId, policy));
      store.Insert(Formations, org, app, row);
      store.Insert(Genesis, org, app, GenesisRow(stored.value));
      return Ok(One(row));
    }

    method DeleteFormation(org: string, app: string) returns (r: Result<Reply>)
      modifies store
      ensures Did(old(store.View()), Op.DeleteFormation(org, app), r)
    {
      var removed := store.Remove(Formations, org, app);
      if !removed {
        assert store.rows == old(store.rows);
        return Err(NotFound);
      }
      var ignored := store.Remove(Genesis, org, app);
      return Ok(Done);
    }

    method LoadGenesis(org: string, app: string) returns (r: Result<Reply>)
      ensures Did(store.View(), Op.LoadGenesis(org, app), r)
    {
      var found := store.Get(Genesis, org, app);
      match found {
        case Some(GenesisRow(stored)) =>
          var plaintext := stored;
          if session.encryptEnabled {
            var decrypted := Envelope.Open(session.gcm, session.provider, stored);
            if decrypted.Err? {
              return Err(decrypted.error);
            }
            if decrypted.value.Some? {
              plaintext := decrypted.value.value;
            }
          }
          var g := session.codec.decode(plaintext);
          return if g.Some? then Ok(Loaded(g.value)) else Err(Corrupt);
        case Some(_) => return Err(Corrupt);
        case None => return Err(NotFound);
      }
    }

    method CreateToken(org: string, app: string, tokenLabel: string, maxUses: Option<u32>, expiresAt: Option<u64>,
                       id: string, now: u64)
      returns (r: Result<Reply>)
      modifies store
      ensures Did(old(store.View()), Op.CreateToken(org, app, tokenLabel, maxUses, expiresAt, id, now), r)
    {
      if Blank(tokenLabel) {
        return Err(Invalid);
      }
      var found := store.GetOrg(org);
      if found.None? {
        return Err(NotFound);
      }
      var formation := store.Get(Formations, org, app);
      if formation.None? {
        return Err(NotFound);
      }
      assert Obstacle(Redb(store.View()), Op.CreateToken(org, app, tokenLabel, maxUses, expiresAt, id, now)) == None;
      var row := TokenRow(EnrollmentToken(id, org, app, tokenLabel, maxUses, 0, expiresAt, now, false));
      store.Insert(Tokens, org, id, row);
      return Ok(One(row));
    }

    /** A stored token that is not revoked becomes revoked, and is otherwise what it was. */
    method RevokeToken(org: string, id: string) returns (r: Result<Reply>)
      modifies store
      ensures Did(old(store.View()), Op.RevokeToken(org, id), r)
      ensures var found := old(store.Find(Tokens, org, id));
              r.Ok? <==> found.Some? && found.value.TokenRow? && !found.value.token.revoked
      ensures r.Ok? ==>
                var token := old(store.Find(Tokens, org, id)).value.token;
                store.Find(Tokens, token.orgId, token.tokenId) == Some(TokenRow(token.(revoked := true)))
    {
      var found := store.Get(Tokens, org, id);
      match found {
        case Some(TokenRow(token)) =>
          if token.revoked {
            return Err(AlreadyRevoked);
          }
          var row := TokenRow(token.(revoked := true));
          store.Insert(Tokens, token.orgId, token.tokenId, row);
          return Ok(One(row));
        case Some(_) => return Err(Corrupt);
        case None => return Err(NotFound);
      }
    }

    /** A stored token that admits the formation now is used once more, and is otherwise what it was. */
    method ValidateAndConsumeToken(org: string, app: string, id: string, now: u64) returns (r: Result<Reply>)
      modifies store
      ensures Did(old(store.View()), Op.ConsumeToken(org, app, id, now), r)
      ensures var found := old(store.Find(Tokens, org, id));
              r.Ok? <==> found.Some? && found.value.TokenRow? && Calls.Admits(found.value.token, app, now)
      ensures r.Ok? ==>
                var token := old(store.Find(Tokens, org, id)).value.token;
                store.Find(Tokens, token.orgId, token.tokenId)
                == Some(TokenRow(token.(uses := (token.uses + 1) % 0x1_0000_0000)))
    {
      var found := store.Get(Tokens, org, id);
      match found {
        case Some(TokenRow(token)) =>
          if token.appId != app {
            return Err(WrongFormation);
          }
          if token.revoked {
            return Err(Revoked);
          }
          if token.expiresAt.Some? && now > token.expiresAt.value {
            return Err(Expired);
          }
          if token.maxUses.Some? && token.uses >= token.maxUses.value {
            return Err(Exhausted);
          }
          var row := TokenRow(token.(uses := AsU32(token.uses + 1)));
          store.Insert(Tokens, token.orgId, token.tokenId, row);
          return Ok(One(row));
        case Some(_) => return Err(Corrupt);
        case None => return Err(NotFound);
      }
    }

    method CreateSink(org: string, sinkType: CdcSinkType, id: string, now: u64) returns (r: Result<Reply>)
      modifies store
      ensures Did(old(store.View()), Op.CreateSink(org, sinkType, id, now), r)
    {
      RowOutcome(session, store.View(), Op.CreateSink(org, sinkType, id, now));
      SinkObstacle(store.View(), Op.CreateSink(org, sinkType, id, now));
      if !ValidSinkType(sinkType) {
        return Err(Invalid);
      }
      var found := store.GetOrg(org);
      if found.None? {
        return Err(NotFound);
      }
      var existing := store.List(Sinks, org);
      if AsU32(|existing|) >= found.value.quotas.maxCdcSinks {
        return Err(QuotaReached);
      }
      var row := SinkRow(CdcSinkConfig(id, org, sinkType, true, now));
      store.Insert(Sinks, org, id, row);
      return Ok(One(row));
    }

    method ToggleSink(org: string, id: string, enabled: bool) returns (r: Result<Reply>)
      modifies store
      ensures Did(old(store.View()), Op.Toggle(Sinks, org, id, enabled), r)
    {
      var found := store.Get(Sinks, org, id);
      if found.None? {
        return Err(NotFound);
      }
      if !found.value.SinkRow? {
        return Err(Corrupt);
      }
      var sink := found.value.sink.(enabled := enabled);
      store.Insert(Sinks, sink.orgId, sink.sinkId, SinkRow(sink));
      return Ok(One(SinkRow(sink)));
    }

    method CreateIdp(org: string, issuerUrl: string, clientId: string, clientSecret: string, id: string, now: u64)
      returns (r: Result<Reply>)
      modifies store
      ensures Did(old(store.View()), Op.CreateIdp(org, issuerUrl, clientId, clientSecret, id, now), r)
    {
      if !StartsWith(issuerUrl, "https://") || Blank(clientId) || Blank(clientSecret) {
        return Err(Invalid);
      }
      var found := store.GetOrg(org);
      if found.None? {
        return Err(NotFound);
      }
      var row := IdpRow(IdpConfig(id, org, issuerUrl, clientId, clientSecret, true, now));
      store.Insert(Idps, org, id, row);
      return Ok(One(row));
    }

    method ToggleIdp(org: string, id: string, enabled: bool) returns (r: Result<Reply>)
      modifies store
      ensures Did(old(store.View()), Op.Toggle(Idps, org, id, enabled), r)
    {
      var found := store.Get(Idps, org, id);
      if found.None? {
        return Err(NotFound);
      }
      if !found.value.IdpRow? {
        return Err(Corrupt);
      }
      var idp := found.value.idp.(enabled := enabled);
      store.Insert(Idps, idp.orgId, idp.idpId, IdpRow(idp));
      return Ok(One(IdpRow(idp)));
    }

    method CreatePolicyRule(org: string, claimKey: string, claimValue: string, tier: MeshTier, permissions: u32,
                            priority: u32, id: string)
      returns (r: Result<Reply>)
      modifies store
      ensures Did(old(store.View()), Op.CreateRule(org, claimKey, claimValue, tier, permissions, priority, id), r)
    {
      var found := store.GetOrg(org);
      if found.None? {
        return Err(NotFound);
      }
      var row := RuleRow(PolicyRule(id, org, claimKey, claimValue, tier, permissions, priority));
      store.Insert(Rules, org, id, row);
      return Ok(One(row));
    }

    method AppendAudit(entry: AuditEntry)
      modifies store
      ensures var before := old(store.View());
              store.View() == before.(rows := before.rows[(Audit, AuditKey(entry.orgId, entry.timestampMs, entry.auditId))
                                                          := AuditRow(entry)])
    {
      store.AppendAudit(entry);
    }
  }
}
