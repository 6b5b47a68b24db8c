/** Formations and their genesis records agree in every reachable state, through restarts that
    switch encryption on and through key migrations, on either backend (src/tenant/manager.rs,
    src/crypto/mod.rs, src/cli.rs). */
module Genesis {
  import opened Models
  import opened Manager
  import opened Envelope
  import opened Migrate
  import Redb
  import Postgres

  /** The foreign code: AES-GCM, the genesis codec and the one key provider. */
  datatype World = World(vault: Vault, codec: Codec)

  ghost predicate LawfulWorld(w: World)
  {
    Lawful(w.vault.gcm) && Faithful(w.vault.provider) && LawfulCodec(w.codec)
  }

  function SessionOf(w: World, on: bool): Session { Session(w.vault.gcm, w.codec, w.vault.provider, on) }

  /** The stored bytes stand for `g`: in the clear, or sealed once encryption is on. */
  ghost predicate Holds(w: World, on: bool, stored: bytes, g: MeshGenesis)
  {
    || stored == w.codec.encode(g)
    || (on && Envelope.Open(w.vault.gcm, w.vault.provider, stored) == Ok(Some(w.codec.encode(g))))
  }

  /** The formation's record stands for a genesis whose mesh id is the formation's. */
  ghost predicate Paired(w: World, on: bool, b: Backend, org: string, app: string)
  {
    var (formation, genesis) := (b.Find(Formations, org, app), b.Find(Genesis, org, app));
    && (formation.Some? <==> genesis.Some?)
    && (formation.Some? ==>
          formation.value.FormationRow? && genesis.value.GenesisRow?
          && exists g :: Holds(w, on, genesis.value.encoded, g) && g.meshId == formation.value.formation.meshId)
  }

  // --- Runs ---

  /** The gateway's store, and whether it runs with encryption. */
  datatype State = State(b: Backend, on: bool)

  datatype Event =
    | Call(op: Op)
    | SwitchOn                                   // restart with a key provider configured
    | MigrateKeys(w: Migrate.World, dryRun: bool)  // refused while no key provider is configured

  function Next(w: World, y: State, e: Event): State
  {
    match e
    case Call(op) => y.(b := Step(SessionOf(w, y.on), y.b, op).0)
    case SwitchOn => y.(on := true)
    case MigrateKeys(m, dryRun) => if y.on then y.(b := Migration(w.vault, m, y.b, dryRun).0) else y
  }

  function After(w: World, y: State, events: seq<Event>): State
    decreases |events|
  {
    if events == [] then y else After(w, Next(w, y, events[0]), events[1..])
  }

  // --- What a record stands for ---

  /** A record that stands for `g` decodes to `g`. */
  lemma HeldIsDecoded(w: World, on: bool, stored: bytes, g: MeshGenesis)
    requires LawfulWorld(w) && Holds(w, on, stored, g)
    ensures Decoded(SessionOf(w, on), stored) == Ok(g)
  {
    if stored == w.codec.encode(g) { OpenNone(w.vault.gcm, w.vault.provider, stored); }
  }

  lemma HeldOnceOn(w: World, on: bool, stored: bytes, g: MeshGenesis)
    requires Holds(w, on, stored, g)
    ensures Holds(w, true, stored, g)
  {
  }

  lemma StoredHolds(w: World, on: bool, g: MeshGenesis, coins: Coins)
    requires LawfulWorld(w)
    ensures var stored := StoredGenesis(SessionOf(w, on), g, coins); stored.Ok? ==> Holds(w, on, stored.value, g)
  {
    OpenSeal(w.vault.gcm, w.vault.provider, w.codec.encode(g), coins);
  }

  /** A migration keeps what a record stands for. */
  lemma SameMeaningHolds(w: World, b: Backend, b': Backend, t: Target, stored: bytes, stored': bytes, g: MeshGenesis)
    requires LawfulWorld(w) && Holds(w, true, stored, g)
    requires b.Find(Genesis, t.org, t.app) == Some(GenesisRow(stored))
    requires b'.Find(Genesis, t.org, t.app) == Some(GenesisRow(stored'))
    requires Meaning(w.vault, b', t) == Meaning(w.vault, b, t)
    ensures Holds(w, true, stored', g)
  {
    if stored == w.codec.encode(g) { OpenNone(w.vault.gcm, w.vault.provider, stored); }
  }

  // --- Manager calls keep formations and genesis records paired ---

  /** Both stores have the same formation and genesis record there. */
  ghost predicate SameAt(b: Backend, b': Backend, org: string, app: string)
  {
    b'.Find(Formations, org, app) == b.Find(Formations, org, app) && b'.Find(Genesis, org, app) == b.Find(Genesis, org, app)
  }

  /** A formation step changes nothing, deletes the formation with its genesis, or writes both. */
  lemma FormationResult(s: Session, b: Backend, op: Op)
    requires op.CreateFormation? || op.DeleteFormation?
    ensures var b' := FormationStep(s, b, op).0;
            || b' == b
            || (op.DeleteFormation? && b' == b.Delete(Formations, op.org, op.app).Delete(Genesis, op.org, op.app))
            || (op.CreateFormation? && b.Find(Formations, op.org, op.app).None? && StoredGenesis(s, op.genesis, op.coins).Ok?
                && b' == WriteFormation(b, op.org, FormationConfig(op.app, op.genesis.meshId, op.policy),
                                        StoredGenesis(s, op.genesis, op.coins).value).0)
  {
  }

  /** Both rows are written, or neither; no other formation notices. */
  lemma WrittenAt(b: Backend, o: string, f: FormationConfig, stored: bytes, org: string, app: string)
    ensures var b' := WriteFormation(b, o, f, stored).0;
            || SameAt(b, b', org, app)
            || (SameRecord(b, Target(o, f.appId), Target(org, app))
                && b'.Find(Formations, org, app) == Some(FormationRow(f))
                && b'.Find(Genesis, org, app) == Some(GenesisRow(stored)))
  {
  }

  lemma DroppedAt(b: Backend, o: string, a: string, org: string, app: string)
    ensures var b' := b.Delete(Formations, o, a).Delete(Genesis, o, a);
            || SameAt(b, b', org, app)
            || (b'.Find(Formations, org, app).None? && b'.Find(Genesis, org, app).None?)
  {
  }

  lemma PurgedAt(b: Backend, o: string, org: string, app: string)
    ensures var b' := b.DeleteOrg(o);
            || SameAt(b, b', org, app)
            || (b'.Find(Formations, org, app).None? && b'.Find(Genesis, org, app).None?)
  {
  }

  lemma FormationPaired(w: World, on: bool, b: Backend, op: Op, org: string, app: string)
    requires LawfulWorld(w) && (op.CreateFormation? || op.DeleteFormation?) && Paired(w, on, b, org, app)
    ensures Paired(w, on, FormationStep(SessionOf(w, on), b, op).0, org, app)
  {
    var s := SessionOf(w, on);
    FormationResult(s, b, op);
    if op.DeleteFormation? {
      DroppedAt(b, op.org, op.app, org, app);
    } else {
      StoredHolds(w, on, op.genesis, op.coins);
      var stored := StoredGenesis(s, op.genesis, op.coins);
      if stored.Ok? {
        WrittenAt(b, op.org, FormationConfig(op.app, op.genesis.meshId, op.policy), stored.value, org, app);
      }
    }
  }

  lemma UpdateSame(b: Backend, t: Table, o: string, id: string, row: Row, org: string, app: string)
    requires t != Formations && t != Genesis
    ensures SameAt(b, b.Update(t, o, id, row), org, app)
  {
  }

  lemma CreateRowSame(b: Backend, t: Table, o: string, id: string, row: Row, org: string, app: string)
    requires t != Formations && t != Genesis && b.Create(t, o, id, row).Ok?
    ensures SameAt(b, b.Create(t, o, id, row).value, org, app)
  {
  }

  lemma DeleteSame(b: Backend, t: Table, o: string, id: string, org: string, app: string)
    requires t != Formations && t != Genesis
    ensures SameAt(b, b.Delete(t, o, id), org, app)
  {
  }

  lemma RowStepSame(b: Backend, op: Op, org: string, app: string)
    requires CreatesRow(op)
    ensures SameAt(b, CreateRow(b, op).0, org, app)
  {
    var (t, row) := NewRow(op);
    if b.Create(t, op.org, op.id, row).Ok? { CreateRowSame(b, t, op.org, op.id, row, org, app); }
  }

  lemma ChangeStepSame(b: Backend, op: Op, org: string, app: string)
    requires op.RevokeToken? || op.ConsumeToken?
    ensures SameAt(b, ChangeToken(b, op).0, org, app)
  {
    var found := b.Find(Tokens, op.org, op.id);
    if found.Some? && found.value.TokenRow? {
      var t := found.value.token;
      UpdateSame(b, Tokens, t.orgId, t.tokenId, TokenRow(t.(revoked := true)), org, app);
      UpdateSame(b, Tokens, t.orgId, t.tokenId, TokenRow(Consumed(t)), org, app);
    }
  }

  lemma ToggleStepSame(b: Backend, op: Op, org: string, app: string)
    requires op.Toggle?
    ensures SameAt(b, Toggled(b, op).0, org, app)
  {
    var found := b.Find(op.t, op.org, op.id);
    if op.t in {Sinks, Idps} && found.Some? {
      UpdateSame(b, op.t, Home(found.value).0, Home(found.value).1, SetEnabled(found.value, op.enabled), org, app);
    }
  }

  lemma DropStepSame(b: Backend, op: Op, org: string, app: string)
    requires op.Delete?
    ensures SameAt(b, DropRow(b, op).0, org, app)
  {
    if op.t in {Tokens, Sinks, Idps, Rules} { DeleteSame(b, op.t, op.org, op.id, org, app); }
  }

  lemma LogStepSame(s: Session, b: Backend, op: Op, org: string, app: string)
    requires op.AppendAudit? || op.SetCursor?
    ensures SameAt(b, Step(s, b, op).0, org, app)
  {
  }

  lemma OrgStepSame(b: Backend, op: Op, org: string, app: string)
    requires op.CreateOrg? || op.UpdateOrg?
    ensures SameAt(b, OrgStep(b, op).0, org, app)
  {
  }

  /** Every other call leaves both tables alone. */
  lemma OtherStepSame(s: Session, b: Backend, op: Op, org: string, app: string)
    requires !op.CreateFormation? && !op.DeleteFormation? && !op.DeleteOrg?
    ensures SameAt(b, Step(s, b, op).0, org, app)
  {
    if CreatesRow(op) {
      RowStepSame(b, op, org, app);
    } else if op.RevokeToken? || op.ConsumeToken? {
      ChangeStepSame(b, op, org, app);
    } else if op.Toggle? {
      ToggleStepSame(b, op, org, app);
    } else if op.Delete? {
      DropStepSame(b, op, org, app);
    } else if op.AppendAudit? || op.SetCursor? {
      LogStepSame(s, b, op, org, app);
    } else if op.CreateOrg? || op.UpdateOrg? {
      OrgStepSame(b, op, org, app);
    }
  }

  lemma CallPaired(w: World, on: bool, b: Backend, op: Op, org: string, app: string)
    requires LawfulWorld(w) && Paired(w, on, b, org, app)
    ensures Paired(w, on, Step(SessionOf(w, on), b, op).0, org, app)
  {
    var s := SessionOf(w, on);
    if op.CreateFormation? || op.DeleteFormation? {
      FormationPaired(w, on, b, op, org, app);
    } else if op.DeleteOrg? {
      PurgedAt(b, op.org, org, app);
    } else {
      OtherStepSame(s, b, op, org, app);
    }
  }

  lemma MigrationPaired(w: World, m: Migrate.World, b: Backend, dryRun: bool, org: string, app: string)
    requires LawfulWorld(w) && Paired(w, true, b, org, app)
    ensures Paired(w, true, Migration(w.vault, m, b, dryRun).0, org, app)
  {
    MigrationKeepsMeaning(w.vault, m, b, dryRun, org, app);
    KeptPaired(w, b, Migration(w.vault, m, b, dryRun).0, org, app);
  }

  lemma KeptPaired(w: World, b: Backend, b': Backend, org: string, app: string)
    requires LawfulWorld(w) && Paired(w, true, b, org, app)
    requires OnlyGenesis(b, b') && Meaning(w.vault, b', Target(org, app)) == Meaning(w.vault, b, Target(org, app))
    ensures Paired(w, true, b', org, app)
  {
    SameRecords(b, b', Formations, org, app);
    SameRecords(b, b', Genesis, org, app);
    var formation := b.Find(Formations, org, app);
    if formation.Some? {
      var stored := b.Find(Genesis, org, app).value.encoded;
      var g :| Holds(w, true, stored, g) && g.meshId == formation.value.formation.meshId;
      SameMeaningHolds(w, b, b', Target(org, app), stored, b'.Find(Genesis, org, app).value.encoded, g);
    }
  }

  lemma NextPaired(w: World, y: State, e: Event, org: string, app: string)
    requires LawfulWorld(w) && Paired(w, y.on, y.b, org, app)
    ensures var y' := Next(w, y, e); Paired(w, y'.on, y'.b, org, app)
  {
    match e {
      case Call(op) => CallPaired(w, y.on, y.b, op, org, app);
      case SwitchOn =>
        var formation := y.b.Find(Formations, org, app);
        if formation.Some? {
          var stored := y.b.Find(Genesis, org, app).value.encoded;
          var g :| Holds(w, y.on, stored, g) && g.meshId == formation.value.formation.meshId;
          HeldOnceOn(w, y.on, stored, g);
        }
      case MigrateKeys(m, dryRun) => if y.on { MigrationPaired(w, m, y.b, dryRun, org, app); }
    }
  }

  lemma {:induction false} RunPaired(w: World, y: State, events: seq<Event>, org: string, app: string)
    requires LawfulWorld(w) && Paired(w, y.on, y.b, org, app)
    ensures var y' := After(w, y, events); Paired(w, y'.on, y'.b, org, app)
    decreases |events|
  {
    if events != [] {
      NextPaired(w, y, events[0], org, app);
      RunPaired(w, Next(w, y, events[0]), events[1..], org, app);
    }
  }

  lemma PairedLoads(w: World, on: bool, b: Backend, org: string, app: string)
    requires LawfulWorld(w) && Paired(w, on, b, org, app)
    ensures var formation := b.Find(Formations, org, app);
            var loaded := Loads(SessionOf(w, on), b, org, app);
            if formation.Some? then formation.value.FormationRow? && loaded.Ok?
                                    && loaded.value.meshId == formation.value.formation.meshId
            else loaded == Err(NotFound)
  {
    var formation := b.Find(Formations, org, app);
    if formation.Some? {
      var stored := b.Find(Genesis, org, app).value.encoded;
      var g :| Holds(w, on, stored, g) && g.meshId == formation.value.formation.meshId;
      HeldIsDecoded(w, on, stored, g);
    }
  }

  /** In every reachable state, on either backend, a formation exists exactly when its genesis record
      does, and `load_genesis` then yields a genesis with the mesh id stored in the formation. */
  lemma GenesisAgrees(w: World, empty: Backend, on: bool, events: seq<Event>, org: string, app: string)
    requires LawfulWorld(w) && (empty == Redb(Redb.EMPTY) || empty == Pg(Postgres.EMPTY))
    ensures var y := After(w, State(empty, on), events);
            var formation := y.b.Find(Formations, org, app);
            var loaded := Loads(SessionOf(w, y.on), y.b, org, app);
            (formation.Some? <==> y.b.Find(Genesis, org, app).Some?)
            && (if formation.Some? then formation.value.FormationRow? && loaded.Ok?
                                        && loaded.value.meshId == formation.value.formation.meshId
                else loaded == Err(NotFound))
  {
    RunPaired(w, State(empty, on), events, org, app);
    var y := After(w, State(empty, on), events);
    PairedLoads(w, y.on, y.b, org, app);
  }

  // --- One formation over time ---

  lemma CreateSame(s: Session, b: Backend, op: Op, org: string, app: string)
    requires op.CreateFormation? && b.Find(Formations, org, app).Some?
    ensures SameAt(b, FormationStep(s, b, op).0, org, app)
  {
    FormationResult(s, b, op);
    if StoredGenesis(s, op.genesis, op.coins).Ok? {
      var f := FormationConfig(op.app, op.genesis.meshId, op.policy);
      WrittenAt(b, op.org, f, StoredGenesis(s, op.genesis, op.coins).value, org, app);
      if SameRecord(b, Target(op.org, op.app), Target(org, app)) { SameFormation(b, op.org, op.app, org, app); }
    }
  }

  lemma SameFormation(b: Backend, o: string, a: string, org: string, app: string)
    requires SameRecord(b, Target(o, a), Target(org, app))
    ensures b.Find(Formations, o, a) == b.Find(Formations, org, app)
  {
  }

  /** A call that leaves a formation in place leaves its genesis record as it is. */
  lemma CallKeepsRecord(s: Session, b: Backend, op: Op, org: string, app: string)
    requires b.Find(Formations, org, app).Some? && Step(s, b, op).0.Find(Formations, org, app).Some?
    ensures SameAt(b, Step(s, b, op).0, org, app)
  {
    if op.CreateFormation? {
      CreateSame(s, b, op, org, app);
    } else if op.DeleteFormation? {
      FormationResult(s, b, op);
      DroppedAt(b, op.org, op.app, org, app);
    } else if op.DeleteOrg? {
      PurgedAt(b, op.org, org, app);
    } else {
      OtherStepSame(s, b, op, org, app);
    }
  }

  /** The formation exists, and its record stands for `g`. */
  ghost predicate Keeps(w: World, y: State, org: string, app: string, g: MeshGenesis)
  {
    var found := y.b.Find(Genesis, org, app);
    y.b.Find(Formations, org, app).Some? && found.Some? && found.value.GenesisRow? && Holds(w, y.on, found.value.encoded, g)
  }

  lemma NextKeeps(w: World, y: State, e: Event, org: string, app: string, g: MeshGenesis)
    requires LawfulWorld(w) && Keeps(w, y, org, app, g) && Next(w, y, e).b.Find(Formations, org, app).Some?
    ensures Keeps(w, Next(w, y, e), org, app, g)
  {
    match e {
      case Call(op) => CallKeepsRecord(SessionOf(w, y.on), y.b, op, org, app);
      case SwitchOn => HeldOnceOn(w, y.on, y.b.Find(Genesis, org, app).value.encoded, g);
      case MigrateKeys(m, dryRun) => if y.on { MigrationKeeps(w, m, y, dryRun, org, app, g); }
    }
  }

  lemma MigrationKeeps(w: World, m: Migrate.World, y: State, dryRun: bool, org: string, app: string, g: MeshGenesis)
    requires LawfulWorld(w) && y.on && Keeps(w, y, org, app, g)
    ensures Keeps(w, Next(w, y, MigrateKeys(m, dryRun)), org, app, g)
  {
    var b' := Migration(w.vault, m, y.b, dryRun).0;
    MigrationKeepsMeaning(w.vault, m, y.b, dryRun, org, app);
    KeptStands(w, y.b, b', org, app, g);
  }

  lemma KeptStands(w: World, b: Backend, b': Backend, org: string, app: string, g: MeshGenesis)
    requires LawfulWorld(w) && Keeps(w, State(b, true), org, app, g)
    requires OnlyGenesis(b, b') && Meaning(w.vault, b', Target(org, app)) == Meaning(w.vault, b, Target(org, app))
    ensures Keeps(w, State(b', true), org, app, g)
  {
    SameRecords(b, b', Formations, org, app);
    SameRecords(b, b', Genesis, org, app);
    SameMeaningHolds(w, b, b', Target(org, app), b.Find(Genesis, org, app).value.encoded,
                     b'.Find(Genesis, org, app).value.encoded, g);
  }

  ghost predicate Survives(w: World, y: State, events: seq<Event>, org: string, app: string)
    decreases |events|
  {
    events == [] || (Next(w, y, events[0]).b.Find(Formations, org, app).Some?
                     && Survives(w, Next(w, y, events[0]), events[1..], org, app))
  }

  lemma {:induction false} RunKeeps(w: World, y: State, events: seq<Event>, org: string, app: string, g: MeshGenesis)
    requires LawfulWorld(w) && Keeps(w, y, org, app, g) && Survives(w, y, events, org, app)
    ensures Keeps(w, After(w, y, events), org, app, g)
    decreases |events|
  {
    if events != [] {
      NextKeeps(w, y, events[0], org, app, g);
      RunKeeps(w, Next(w, y, events[0]), events[1..], org, app, g);
    }
  }

  /** As long as a formation exists `load_genesis` returns the same genesis, through every manager
      call, restart with encryption switched on, and migration, complete or aborted. */
  lemma LoadedGenesisNeverChanges(w: World, y: State, events: seq<Event>, org: string, app: string, g: MeshGenesis)
    requires LawfulWorld(w) && Keeps(w, y, org, app, g) && Survives(w, y, events, org, app)
    ensures var y' := After(w, y, events);
            Loads(SessionOf(w, y.on), y.b, org, app) == Ok(g)
            && Loads(SessionOf(w, y'.on), y'.b, org, app) == Ok(g)
  {
    RunKeeps(w, y, events, org, app, g);
    HeldIsDecoded(w, y.on, y.b.Find(Genesis, org, app).value.encoded, g);
    var y' := After(w, y, events);
    HeldIsDecoded(w, y'.on, y'.b.Find(Genesis, org, app).value.encoded, g);
  }
}
