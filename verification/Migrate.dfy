/** The `migrate-keys` command: sealing plaintext genesis records in place (src/cli.rs), on either
    backend. */
module Migrate {
  import opened Models
  import opened Lex
  import opened Keys
  import opened Manager
  import opened Envelope
  import opened Refinement
  import opened Ownership
  import Redb
  import Postgres

  /** The foreign code behind an envelope. */
  datatype Vault = Vault(gcm: Gcm, provider: Provider)

  /** What may go wrong at one record: the storage calls, or the key provider when it is to wrap a key
      or to unwrap it for the round-trip check. */
  datatype Fault = NoFault | ReadFails | SealFails | CheckFails | WriteFails

  /** The random bytes and the fault met by each record, by its position in the run, and the faults of
      list_orgs and, by organization, of list_formations. */
  datatype World = World(coins: nat -> Coins, fault: nat -> Fault, orgsFail: bool, listFails: nat -> bool)

  /** A genesis record that the command visits. */
  datatype Target = Target(org: string, app: string)

  datatype Outcome = Migrated | AlreadyEncrypted | Missing

  datatype Summary = Summary(migrated: nat, alreadyEncrypted: nat, missing: nat, total: nat)

  const ZERO := Summary(0, 0, 0, 0)

  function Plus(s: Summary, o: Outcome): Summary
  {
    match o
    case Migrated => s.(migrated := s.migrated + 1, total := s.total + 1)
    case AlreadyEncrypted => s.(alreadyEncrypted := s.alreadyEncrypted + 1, total := s.total + 1)
    case Missing => s.(missing := s.missing + 1, total := s.total + 1)
  }

  /** Seal, and check that the result opens to the original. */
  function Checked(v: Vault, raw: bytes, coins: Coins, fault: Fault): Result<bytes>
  {
    if fault == SealFails then Err(KeyProvider)
    else match Seal(v.gcm, v.provider, raw, coins)
      case Err(e) => Err(e)
      case Ok(sealed) =>
        if fault == CheckFails then Err(KeyProvider)
        else match Envelope.Open(v.gcm, v.provider, sealed)
          case Err(e) => Err(e)
          case Ok(None) => Err(RoundTrip)
          case Ok(Some(decrypted)) => if decrypted != raw then Err(RoundTrip) else Ok(sealed)
  }

  function Replaced(b: Backend, t: Target, sealed: bytes): (Backend, Result<Outcome>)
  {
    match b.StoreGenesis(t.org, t.app, sealed)
    case Ok(b') => (b', Ok(Migrated))
    case Err(e) => (b, Err(e))
  }

  /** One record. */
  function Visit(v: Vault, b: Backend, dryRun: bool, t: Target, coins: Coins, fault: Fault): (Backend, Result<Outcome>)
  {
    if fault == ReadFails then (b, Err(Storage))
    else match b.Find(Genesis, t.org, t.app)
      case None => (b, Ok(Missing))
      case Some(GenesisRow(raw)) =>
        if IsEnvelope(raw) then (b, Ok(AlreadyEncrypted))
        else if dryRun then (b, Ok(Migrated))
        else (match Checked(v, raw, coins, fault)
              case Err(e) => (b, Err(e))
              case Ok(sealed) => if fault == WriteFails then (b, Err(Storage)) else Replaced(b, t, sealed))
      case Some(_) => (b, Err(Corrupt))
  }

  /** The records in turn; the first error ends the run. */
  function Sweep(v: Vault, w: World, b: Backend, dryRun: bool, targets: seq<Target>, sum: Summary)
    : (Backend, Result<Summary>)
    decreases |targets|
  {
    if targets == [] then (b, Ok(sum))
    else
      var (b', outcome) := Visit(v, b, dryRun, targets[0], w.coins(sum.total), w.fault(sum.total));
      match outcome
      case Err(e) => (b', Err(e))
      case Ok(o) => Sweep(v, w, b', dryRun, targets[1..], Plus(sum, o))
  }

  function AppTarget(org: string, row: Row): Target
  {
    Target(org, if row.FormationRow? then row.formation.appId else "")
  }

  function AppTargets(org: string, formations: seq<Row>): seq<Target>
  {
    if formations == [] then [] else [AppTarget(org, formations[0])] + AppTargets(org, formations[1..])
  }

  /** The records in the order of the nested loops. */
  function Targets(b: Backend, orgs: seq<Organization>): seq<Target>
  {
    if orgs == [] then [] else AppTargets(orgs[0].orgId, b.Listing(Formations, orgs[0].orgId)) + Targets(b, orgs[1..])
  }

  function AllTargets(b: Backend): seq<Target> { Targets(b, b.ListOrgs()) }

  /** The organizations before the first whose formations cannot be listed; `n` have gone before. */
  function Listed(w: World, orgs: seq<Organization>, n: nat): seq<Organization>
  {
    if orgs == [] || w.listFails(n) then [] else [orgs[0]] + Listed(w, orgs[1..], n + 1)
  }

  /** The loops over `orgs`. */
  function MigrateAll(v: Vault, w: World, b: Backend, dryRun: bool, orgs: seq<Organization>): (Backend, Result<Summary>)
  {
    var listed := Listed(w, orgs, 0);
    var (b', r) := Sweep(v, w, b, dryRun, Targets(b, listed), ZERO);
    (b', if r.Ok? && |listed| < |orgs| then Err(Storage) else r)
  }

  function Migration(v: Vault, w: World, b: Backend, dryRun: bool): (Backend, Result<Summary>)
  {
    if w.orgsFail then (b, Err(Storage)) else MigrateAll(v, w, b, dryRun, b.ListOrgs())
  }

  // --- What sealing leaves alone ---

  /** The same store but for the contents of genesis records. */
  ghost predicate OnlyGenesis(b: Backend, b': Backend)
  {
    if b.Redb? then
      && b'.Redb? && b'.db.orgs == b.db.orgs && b'.db.cursors == b.db.cursors && b'.db.rows.Keys == b.db.rows.Keys
      && forall p :: p in b.db.rows && p.0 != Genesis ==> b'.db.rows[p] == b.db.rows[p]
    else
      && b'.Pg? && b'.rel.orgs == b.rel.orgs && b'.rel.audit == b.rel.audit && b'.rel.cursors == b.rel.cursors
      && b'.rel.rows.Keys == b.rel.rows.Keys
      && forall p :: p in b.rel.rows && p.0 != Genesis ==> b'.rel.rows[p] == b.rel.rows[p]
  }

  lemma OnlyGenesisTransitive(a: Backend, b: Backend, c: Backend)
    requires OnlyGenesis(a, b) && OnlyGenesis(b, c)
    ensures OnlyGenesis(a, c)
  {
    if a.Redb? {
      forall p | p in a.db.rows && p.0 != Genesis ensures c.db.rows[p] == a.db.rows[p] { assert p in b.db.rows.Keys; }
    } else {
      forall p | p in a.rel.rows && p.0 != Genesis ensures c.rel.rows[p] == a.rel.rows[p] { assert p in b.rel.rows.Keys; }
    }
  }

  lemma SameRecords(b: Backend, b': Backend, t: Table, org: string, id: string)
    requires OnlyGenesis(b, b')
    ensures b'.Find(t, org, id).Some? <==> b.Find(t, org, id).Some?
    ensures t != Genesis ==> b'.Find(t, org, id) == b.Find(t, org, id)
  {
    if b.Redb? {
      assert (t, Key(org, id)) in b.db.rows.Keys <==> (t, Key(org, id)) in b'.db.rows.Keys;
    } else {
      assert (t, org, id) in b.rel.rows.Keys <==> (t, org, id) in b'.rel.rows.Keys;
    }
  }

  lemma {:induction false} PickedFrame(rows: Redb.Rows, rows': Redb.Rows, t: Table, keys: seq<string>, prefix: string)
    requires forall k :: k in keys ==> (t, k) in rows && (t, k) in rows' && rows'[(t, k)] == rows[(t, k)]
    ensures Redb.Picked(rows', t, keys, prefix) == Redb.Picked(rows, t, keys, prefix)
  {
    if keys != [] { PickedFrame(rows, rows', t, keys[1..], prefix); }
  }

  lemma RedbListingFrame(rows: Redb.Rows, rows': Redb.Rows, org: string)
    requires rows'.Keys == rows.Keys && forall p :: p in rows && p.0 != Genesis ==> rows'[p] == rows[p]
    ensures Redb.Listing(rows', Formations, org) == Redb.Listing(rows, Formations, org)
  {
    forall k ensures (Formations, k) in rows' <==> (Formations, k) in rows {
      assert (Formations, k) in rows.Keys <==> (Formations, k) in rows'.Keys;
    }
    assert Redb.KeysOf(rows', Formations) == Redb.KeysOf(rows, Formations);
    PickedFrame(rows, rows', Formations, SortedKeys(Redb.KeysOf(rows, Formations)), Prefix(org));
  }

  lemma PostgresListingFrame(rel: Postgres.Rel, rel': Postgres.Rel, org: string)
    requires rel'.rows.Keys == rel.rows.Keys && forall p :: p in rel.rows && p.0 != Genesis ==> rel'.rows[p] == rel.rows[p]
    ensures Postgres.Select(rel', Formations, org) == Postgres.Select(rel, Formations, org)
  {
    forall id ensures (Formations, org, id) in rel'.rows <==> (Formations, org, id) in rel.rows {
      assert (Formations, org, id) in rel.rows.Keys <==> (Formations, org, id) in rel'.rows.Keys;
    }
    assert Postgres.Ids(rel', Formations, org) == Postgres.Ids(rel, Formations, org);
  }

  lemma ListingFrame(b: Backend, b': Backend, org: string)
    requires OnlyGenesis(b, b')
    ensures b'.Listing(Formations, org) == b.Listing(Formations, org)
  {
    if b.Redb? { RedbListingFrame(b.db.rows, b'.db.rows, org); } else { PostgresListingFrame(b.rel, b'.rel, org); }
  }

  lemma {:induction false} TargetsFrame(b: Backend, b': Backend, orgs: seq<Organization>)
    requires OnlyGenesis(b, b')
    ensures Targets(b', orgs) == Targets(b, orgs)
  {
    if orgs != [] {
      ListingFrame(b, b', orgs[0].orgId);
      TargetsFrame(b, b', orgs[1..]);
    }
  }

  /** Both names stand for one record: on redb, one key. */
  predicate SameRecord(b: Backend, t: Target, u: Target)
  {
    if b.Redb? then Key(t.org, t.app) == Key(u.org, u.app) else t == u
  }

  /** Overwriting a record that is there. */
  lemma Stored(b: Backend, t: Target, sealed: bytes, u: Target)
    requires b.Find(Genesis, t.org, t.app).Some?
    ensures var b' := Replaced(b, t, sealed).0;
            OnlyGenesis(b, b')
            && b'.Find(Genesis, u.org, u.app)
               == if SameRecord(b, t, u) && Replaced(b, t, sealed).1.Ok? then Some(GenesisRow(sealed))
                  else b.Find(Genesis, u.org, u.app)
  {
  }

  lemma VisitFrame(v: Vault, b: Backend, dryRun: bool, t: Target, coins: Coins, fault: Fault)
    ensures OnlyGenesis(b, Visit(v, b, dryRun, t, coins, fault).0)
  {
    var found := b.Find(Genesis, t.org, t.app);
    if found.Some? && found.value.GenesisRow? {
      var sealed := Checked(v, found.value.encoded, coins, fault);
      if sealed.Ok? { Stored(b, t, sealed.value, t); }
    }
  }

  // --- The command as it runs ---

  /** The open store, `Arc<dyn StorageBackend>`. */
  class Store {
    var contents: Backend

    constructor (contents: Backend)
      ensures this.contents == contents
    {
      this.contents := contents;
    }

    method VisitRecord(v: Vault, dryRun: bool, org: string, app: string, coins: Coins, fault: Fault)
      returns (r: Result<Outcome>)
      modifies this
      ensures (contents, r) == Visit(v, old(contents), dryRun, Target(org, app), coins, fault)
    {
      if fault == ReadFails {
        return Err(Storage);
      }
      var found := contents.Find(Genesis, org, app);
      if found.None? {
        return Ok(Missing);
      }
      if !found.value.GenesisRow? {
        return Err(Corrupt);
      }
      var raw := found.value.encoded;
      if IsEnvelope(raw) {
        return Ok(AlreadyEncrypted);
      }
      if dryRun {
        return Ok(Migrated);
      }
      if fault == SealFails {
        return Err(KeyProvider);
      }
      var sealed := SealEnvelope(v.gcm, v.provider, raw, coins);
      if sealed.Err? {
        return Err(sealed.error);
      }
      if fault == CheckFails {
        return Err(KeyProvider);
      }
      var decrypted := Envelope.Open(v.gcm, v.provider, sealed.value);
      if decrypted.Err? {
        return Err(decrypted.error);
      }
      if decrypted.value.None? || decrypted.value.value != raw {
        return Err(RoundTrip);
      }
      if fault == WriteFails {
        return Err(Storage);
      }
      var written := contents.StoreGenesis(org, app, sealed.value);
      if written.Err? {
        return Err(written.error);
      }
      contents := written.value;
      return Ok(Migrated);
    }

    method MigrateOrg(v: Vault, w: World, dryRun: bool, org: string, sum: Summary, ghost later: seq<Target>)
      returns (r: Result<Summary>)
      modifies this
      ensures OnlyGenesis(old(contents), contents)
      ensures Sweep(v, w, old(contents), dryRun, AppTargets(org, old(contents).Listing(Formations, org)) + later, sum)
              == match r case Ok(s) => Sweep(v, w, contents, dryRun, later, s) case Err(e) => (contents, Err(e))
    {
      var formations := contents.Listing(Formations, org);
      var count := sum;
      ghost var whole := Sweep(v, w, contents, dryRun, AppTargets(org, formations) + later, sum);
      for i := 0 to |formations|
        invariant OnlyGenesis(old(contents), contents)
        invariant whole == Sweep(v, w, contents, dryRun, AppTargets(org, formations[i..]) + later, count)
      {
        var app := if formations[i].FormationRow? then formations[i].formation.appId else "";
        ghost var before := contents;
        assert formations[i..][1..] == formations[i + 1..];
        SweepStep(v, w, before, dryRun, org, formations[i..], later, count);
        VisitFrame(v, before, dryRun, Target(org, app), w.coins(count.total), w.fault(count.total));
        var outcome := VisitRecord(v, dryRun, org, app, w.coins(count.total), w.fault(count.total));
        OnlyGenesisTransitive(old(contents), before, contents);
        if outcome.Err? {
          return Err(outcome.error);
        }
        count := Plus(count, outcome.value);
      }
      assert AppTargets(org, formations[|formations|..]) + later == later;
      return Ok(count);
    }

    /** The loop over organizations. */
    method MigrateOrgs(v: Vault, w: World, dryRun: bool, orgs: seq<Organization>) returns (r: Result<Summary>)
      modifies this
      ensures (contents, r) == MigrateAll(v, w, old(contents), dryRun, orgs)
    {
      var count := ZERO;
      ghost var start := contents;
      ghost var listed := Listed(w, orgs, 0);
      ghost var whole := Sweep(v, w, start, dryRun, Targets(start, listed), ZERO);
      for i := 0 to |orgs|
        invariant OnlyGenesis(start, contents)
        invariant |listed| == i + |Listed(w, orgs[i..], i)|
        invariant whole == Sweep(v, w, contents, dryRun, Targets(start, Listed(w, orgs[i..], i)), count)
      {
        if w.listFails(i) {
          return Err(Storage);
        }
        assert orgs[i..][1..] == orgs[i + 1..];
        ghost var before, later := contents, Listed(w, orgs[i + 1..], i + 1);
        assert Listed(w, orgs[i..], i) == [orgs[i]] + later;
        TargetsStep(start, orgs[i], later);
        ListingFrame(start, contents, orgs[i].orgId);
        var done := MigrateOrg(v, w, dryRun, orgs[i].orgId, count, Targets(start, later));
        OnlyGenesisTransitive(start, before, contents);
        if done.Err? {
          return Err(done.error);
        }
        count := done.value;
      }
      return Ok(count);
    }

    /** migrate_keys: organization by organization, formation by formation. */
    method MigrateKeys(v: Vault, w: World, dryRun: bool) returns (r: Result<Summary>)
      modifies this
      ensures (contents, r) == Migration(v, w, old(contents), dryRun)
    {
      if w.orgsFail {
        return Err(Storage);
      }
      var orgs := contents.ListOrgs();
      r := MigrateOrgs(v, w, dryRun, orgs);
    }
  }

  lemma TargetsStep(b: Backend, o: Organization, later: seq<Organization>)
    ensures Targets(b, [o] + later) == AppTargets(o.orgId, b.Listing(Formations, o.orgId)) + Targets(b, later)
  {
    assert ([o] + later)[1..] == later;
  }

  lemma SweepFirst(v: Vault, w: World, b: Backend, dryRun: bool, t: Target, rest: seq<Target>, sum: Summary)
    ensures var (b', outcome) := Visit(v, b, dryRun, t, w.coins(sum.total), w.fault(sum.total));
            Sweep(v, w, b, dryRun, [t] + rest, sum)
            == match outcome case Err(e) => (b', Err(e)) case Ok(o) => Sweep(v, w, b', dryRun, rest, Plus(sum, o))
  {
    assert ([t] + rest)[0] == t && ([t] + rest)[1..] == rest;
  }

  /** The next record of an organization, with records of others `later`. */
  lemma SweepStep(v: Vault, w: World, b: Backend, dryRun: bool, org: string, formations: seq<Row>,
                  later: seq<Target>, sum: Summary)
    requires formations != []
    ensures var (b', outcome) :=
              Visit(v, b, dryRun, AppTarget(org, formations[0]), w.coins(sum.total), w.fault(sum.total));
            Sweep(v, w, b, dryRun, AppTargets(org, formations) + later, sum)
            == match outcome
               case Err(e) => (b', Err(e))
               case Ok(o) => Sweep(v, w, b', dryRun, AppTargets(org, formations[1..]) + later, Plus(sum, o))
  {
    var rest := AppTargets(org, formations[1..]);
    Reassociate([AppTarget(org, formations[0])], rest, later);
    SweepFirst(v, w, b, dryRun, AppTarget(org, formations[0]), rest + later, sum);
  }

  lemma {:induction false} ListedAll(w: World, orgs: seq<Organization>, n: nat)
    ensures |Listed(w, orgs, n)| <= |orgs| && (|Listed(w, orgs, n)| == |orgs| ==> Listed(w, orgs, n) == orgs)
    ensures (forall m :: n <= m ==> !w.listFails(m)) ==> Listed(w, orgs, n) == orgs
  {
    if orgs != [] && !w.listFails(n) {
      ListedAll(w, orgs[1..], n + 1);
      assert orgs == [orgs[0]] + orgs[1..];
    }
  }

  /** A run that completes has swept every record. */
  lemma CompleteIsFullSweep(v: Vault, w: World, b: Backend, dryRun: bool)
    requires Migration(v, w, b, dryRun).1.Ok?
    ensures Migration(v, w, b, dryRun) == Sweep(v, w, b, dryRun, AllTargets(b), ZERO)
  {
    ListedAll(w, b.ListOrgs(), 0);
  }

  // --- A run, complete or aborted, preserves meaning ---

  /** The bytes that `load_genesis` decodes for a record, with encryption enabled. */
  function Meaning(v: Vault, b: Backend, t: Target): Option<Result<bytes>>
  {
    match b.Find(Genesis, t.org, t.app)
    case Some(GenesisRow(stored)) =>
      Some(match Envelope.Open(v.gcm, v.provider, stored)
           case Err(e) => Err(e)
           case Ok(Some(plaintext)) => Ok(plaintext)
           case Ok(None) => Ok(stored))
    case _ => None
  }

  /** A record that passed the check means what it meant. */
  lemma SealedMeans(v: Vault, b: Backend, t: Target, coins: Coins, fault: Fault, u: Target)
    requires b.Find(Genesis, t.org, t.app).Some? && b.Find(Genesis, t.org, t.app).value.GenesisRow?
    requires !IsEnvelope(b.Find(Genesis, t.org, t.app).value.encoded)
    requires Checked(v, b.Find(Genesis, t.org, t.app).value.encoded, coins, fault).Ok?
    ensures var sealed := Checked(v, b.Find(Genesis, t.org, t.app).value.encoded, coins, fault).value;
            Meaning(v, Replaced(b, t, sealed).0, u) == Meaning(v, b, u)
  {
    var raw := b.Find(Genesis, t.org, t.app).value.encoded;
    OpenNone(v.gcm, v.provider, raw);
    Stored(b, t, Checked(v, raw, coins, fault).value, u);
  }

  lemma VisitKeepsMeaning(v: Vault, b: Backend, dryRun: bool, t: Target, coins: Coins, fault: Fault, u: Target)
    ensures Meaning(v, Visit(v, b, dryRun, t, coins, fault).0, u) == Meaning(v, b, u)
  {
    var found := b.Find(Genesis, t.org, t.app);
    if found.Some? && found.value.GenesisRow? && !IsEnvelope(found.value.encoded)
       && Checked(v, found.value.encoded, coins, fault).Ok? {
      SealedMeans(v, b, t, coins, fault, u);
    }
  }

  lemma {:induction false} SweepKeepsMeaning(v: Vault, w: World, b: Backend, dryRun: bool, targets: seq<Target>,
                                             sum: Summary, u: Target)
    ensures var b' := Sweep(v, w, b, dryRun, targets, sum).0; OnlyGenesis(b, b') && Meaning(v, b', u) == Meaning(v, b, u)
    decreases |targets|
  {
    if targets != [] {
      var (coins, fault) := (w.coins(sum.total), w.fault(sum.total));
      VisitKeepsMeaning(v, b, dryRun, targets[0], coins, fault, u);
      VisitFrame(v, b, dryRun, targets[0], coins, fault);
      var (b', outcome) := Visit(v, b, dryRun, targets[0], coins, fault);
      if outcome.Ok? {
        SweepKeepsMeaning(v, w, b', dryRun, targets[1..], Plus(sum, outcome.value), u);
        OnlyGenesisTransitive(b, b', Sweep(v, w, b, dryRun, targets, sum).0);
      }
    }
  }

  /** Wherever a run stops, every formation loads the same genesis bytes as before, and nothing but
      genesis records has changed. The round-trip check makes this true of any key provider that
      unwraps a key the same way whenever it answers. */
  lemma MigrationKeepsMeaning(v: Vault, w: World, b: Backend, dryRun: bool, org: string, app: string)
    ensures var b' := Migration(v, w, b, dryRun).0;
            OnlyGenesis(b, b') && Meaning(v, b', Target(org, app)) == Meaning(v, b, Target(org, app))
  {
    SweepKeepsMeaning(v, w, b, dryRun, Targets(b, Listed(w, b.ListOrgs(), 0)), ZERO, Target(org, app));
  }

  lemma MeaningIsLoaded(v: Vault, codec: Codec, b: Backend, org: string, app: string)
    ensures var s := Session(v.gcm, codec, v.provider, true);
            Loads(s, b, org, app)
            == match Meaning(v, b, Target(org, app))
               case None => Err(if b.Find(Genesis, org, app).Some? then Corrupt else NotFound)
               case Some(Err(e)) => Err(e)
               case Some(Ok(plaintext)) => if codec.decode(plaintext).Some? then Ok(codec.decode(plaintext).value)
                                           else Err(Corrupt)
  {
  }

  // --- Counters ---

  predicate Balanced(s: Summary) { s.migrated + s.alreadyEncrypted + s.missing == s.total }

  function Absent(b: Backend, targets: seq<Target>): nat
  {
    if targets == [] then 0
    else (if b.Find(Genesis, targets[0].org, targets[0].app).Some? then 0 else 1) + Absent(b, targets[1..])
  }

  lemma {:induction false} AbsentFrame(b: Backend, b': Backend, targets: seq<Target>)
    requires OnlyGenesis(b, b')
    ensures Absent(b', targets) == Absent(b, targets)
  {
    if targets != [] {
      AbsentFrame(b, b', targets[1..]);
      SameRecords(b, b', Genesis, targets[0].org, targets[0].app);
    }
  }

  lemma {:induction false} SweepCounts(v: Vault, w: World, b: Backend, dryRun: bool, targets: seq<Target>, sum: Summary)
    requires Balanced(sum)
    ensures var r := Sweep(v, w, b, dryRun, targets, sum).1;
            r.Ok? ==> Balanced(r.value) && r.value.total == sum.total + |targets|
    decreases |targets|
  {
    if targets != [] {
      var (b', outcome) := Visit(v, b, dryRun, targets[0], w.coins(sum.total), w.fault(sum.total));
      if outcome.Ok? { SweepCounts(v, w, b', dryRun, targets[1..], Plus(sum, outcome.value)); }
    }
  }

  lemma VisitMisses(v: Vault, b: Backend, dryRun: bool, t: Target, coins: Coins, fault: Fault)
    ensures var outcome := Visit(v, b, dryRun, t, coins, fault).1;
            outcome.Ok? ==> (outcome.value.Missing? <==> b.Find(Genesis, t.org, t.app).None?)
  {
  }

  lemma {:induction false} SweepMisses(v: Vault, w: World, b: Backend, dryRun: bool, targets: seq<Target>, sum: Summary)
    ensures var r := Sweep(v, w, b, dryRun, targets, sum).1;
            r.Ok? ==> r.value.missing == sum.missing + Absent(b, targets)
    decreases |targets|
  {
    if targets != [] {
      var (coins, fault) := (w.coins(sum.total), w.fault(sum.total));
      var (b', outcome) := Visit(v, b, dryRun, targets[0], coins, fault);
      if outcome.Ok? {
        VisitMisses(v, b, dryRun, targets[0], coins, fault);
        VisitFrame(v, b, dryRun, targets[0], coins, fault);
        AbsentFrame(b, b', targets[1..]);
        SweepMisses(v, w, b', dryRun, targets[1..], Plus(sum, outcome.value));
      }
    }
  }

  lemma {:induction false} SweptTotal(v: Vault, w: World, b: Backend, dryRun: bool, targets: seq<Target>, sum: Summary, r: Result<Summary>)
    requires r == Sweep(v, w, b, dryRun, targets, sum).1 && Balanced(sum) && sum.total == 0
    ensures r.Ok? ==> Balanced(r.value) && r.value.total == |targets|
  {
    SweepCounts(v, w, b, dryRun, targets, sum);
  }

  /** The four counters of a completed run add up, over every formation of every organization. */
  lemma CountersAddUp(v: Vault, w: World, b: Backend, dryRun: bool)
    ensures var r := Migration(v, w, b, dryRun).1;
            r.Ok? ==> Balanced(r.value) && r.value.total == |AllTargets(b)|
  {
    if Migration(v, w, b, dryRun).1.Ok? {
      CompleteIsFullSweep(v, w, b, dryRun);
      SweptTotal(v, w, b, dryRun, AllTargets(b), ZERO, Migration(v, w, b, dryRun).1);
    }
  }

  // --- A completed run seals everything; a second one is idle ---

  predicate SealedAt(b: Backend, t: Target)
  {
    var found := b.Find(Genesis, t.org, t.app);
    found.Some? ==> found.value.GenesisRow? && IsEnvelope(found.value.encoded)
  }

  lemma CheckedIsEnvelope(v: Vault, raw: bytes, coins: Coins, fault: Fault)
    requires Checked(v, raw, coins, fault).Ok?
    ensures IsEnvelope(Checked(v, raw, coins, fault).value)
  {
    OpenNone(v.gcm, v.provider, Checked(v, raw, coins, fault).value);
  }

  lemma VisitSeals(v: Vault, b: Backend, t: Target, coins: Coins, fault: Fault, u: Target)
    ensures var (b', outcome) := Visit(v, b, false, t, coins, fault);
            (outcome.Ok? ==> SealedAt(b', t)) && (SealedAt(b, u) ==> SealedAt(b', u))
  {
    var found := b.Find(Genesis, t.org, t.app);
    if found.Some? && found.value.GenesisRow? {
      var sealed := Checked(v, found.value.encoded, coins, fault);
      if sealed.Ok? {
        CheckedIsEnvelope(v, found.value.encoded, coins, fault);
        Stored(b, t, sealed.value, t);
        Stored(b, t, sealed.value, u);
      }
    }
  }

  lemma {:induction false} SweepSeals(v: Vault, w: World, b: Backend, targets: seq<Target>, sum: Summary, u: Target)
    ensures var (b', r) := Sweep(v, w, b, false, targets, sum);
            (SealedAt(b, u) ==> SealedAt(b', u)) && (r.Ok? && u in targets ==> SealedAt(b', u))
    decreases |targets|
  {
    if targets != [] {
      var (coins, fault) := (w.coins(sum.total), w.fault(sum.total));
      VisitSeals(v, b, targets[0], coins, fault, u);
      var (b', outcome) := Visit(v, b, false, targets[0], coins, fault);
      if outcome.Ok? {
        SweepSeals(v, w, b', targets[1..], Plus(sum, outcome.value), u);
        assert u in targets ==> u == targets[0] || u in targets[1..];
      }
    }
  }

  /** After a completed run every listed formation's genesis, if present, is an envelope. */
  lemma CompletedRunSealsAll(v: Vault, w: World, b: Backend, t: Target)
    requires Migration(v, w, b, false).1.Ok? && t in AllTargets(b)
    ensures SealedAt(Migration(v, w, b, false).0, t)
  {
    CompleteIsFullSweep(v, w, b, false);
    SweepSeals(v, w, b, AllTargets(b), ZERO, t);
  }

  lemma {:induction false} IdleSweep(v: Vault, w: World, b: Backend, dryRun: bool, targets: seq<Target>, sum: Summary)
    requires forall t :: t in targets ==> SealedAt(b, t)
    ensures var (b', r) := Sweep(v, w, b, dryRun, targets, sum);
            b' == b && (r.Ok? ==> r.value.migrated == sum.migrated)
    decreases |targets|
  {
    if targets != [] {
      var outcome := Visit(v, b, dryRun, targets[0], w.coins(sum.total), w.fault(sum.total)).1;
      assert SealedAt(b, targets[0]);
      if outcome.Ok? { IdleSweep(v, w, b, dryRun, targets[1..], Plus(sum, outcome.value)); }
    }
  }

  lemma SameTargets(v: Vault, w: World, b: Backend, dryRun: bool)
    ensures AllTargets(Migration(v, w, b, dryRun).0) == AllTargets(b)
  {
    MigrationKeepsMeaning(v, w, b, dryRun, "", "");
    TargetsFrame(b, Migration(v, w, b, dryRun).0, b.ListOrgs());
  }

  lemma {:induction false} ListedTargets(b: Backend, w: World, orgs: seq<Organization>, n: nat, t: Target)
    requires t in Targets(b, Listed(w, orgs, n))
    ensures t in Targets(b, orgs)
  {
    var rest := Listed(w, orgs[1..], n + 1);
    assert Listed(w, orgs, n)[1..] == rest;
    if t in Targets(b, rest) { ListedTargets(b, w, orgs[1..], n + 1, t); }
  }

  /** Over sealed records a run does nothing, wherever it stops. */
  lemma IdleMigration(v: Vault, w: World, b: Backend, dryRun: bool)
    requires forall t :: t in AllTargets(b) ==> SealedAt(b, t)
    ensures var (b', r) := Migration(v, w, b, dryRun); b' == b && (r.Ok? ==> r.value.migrated == 0)
  {
    var targets := Targets(b, Listed(w, b.ListOrgs(), 0));
    forall t | t in targets ensures SealedAt(b, t) { ListedTargets(b, w, b.ListOrgs(), 0, t); }
    IdleSweep(v, w, b, dryRun, targets, ZERO);
  }

  lemma SecondRunChangesNothing(v: Vault, w: World, b: Backend, v': Vault, w': World, dryRun: bool)
    requires Migration(v, w, b, false).1.Ok?
    ensures var b' := Migration(v, w, b, false).0;
            var (b'', r') := Migration(v', w', b', dryRun);
            b'' == b' && (r'.Ok? ==> r'.value.migrated == 0)
  {
    var b' := Migration(v, w, b, false).0;
    SameTargets(v, w, b, false);
    forall t | t in AllTargets(b') ensures SealedAt(b', t) { CompletedRunSealsAll(v, w, b, t); }
    IdleMigration(v', w', b', dryRun);
  }

  lemma MissingIsAbsent(v: Vault, w: World, b: Backend, dryRun: bool)
    requires Migration(v, w, b, dryRun).1.Ok?
    ensures Migration(v, w, b, dryRun).1.value.missing == Absent(b, AllTargets(b))
  {
    CompleteIsFullSweep(v, w, b, dryRun);
    SweepMisses(v, w, b, dryRun, AllTargets(b), ZERO);
  }

  lemma MissingStaysMissing(v: Vault, w: World, b: Backend)
    ensures var b' := Migration(v, w, b, false).0; Absent(b', AllTargets(b')) == Absent(b, AllTargets(b))
  {
    SameTargets(v, w, b, false);
    MigrationKeepsMeaning(v, w, b, false, "", "");
    AbsentFrame(b, Migration(v, w, b, false).0, AllTargets(b));
  }

  /** A second run, in whatever circumstances, changes nothing; if it completes it has found sealed
      all that the first one sealed or found sealed. */
  lemma SecondRunIsIdle(v: Vault, w: World, b: Backend, v': Vault, w': World, dryRun: bool)
    requires Migration(v, w, b, false).1.Ok?
    ensures var (b', r) := Migration(v, w, b, false);
            var (b'', r') := Migration(v', w', b', dryRun);
            b'' == b'
            && (r'.Ok? ==> r'.value == Summary(0, r.value.migrated + r.value.alreadyEncrypted, r.value.missing, r.value.total))
  {
    var (b', r) := Migration(v, w, b, false);
    SecondRunChangesNothing(v, w, b, v', w', dryRun);
    if Migration(v', w', b', dryRun).1.Ok? {
      SameTargets(v, w, b, false);
      CountersAddUp(v, w, b, false);
      CountersAddUp(v', w', b', dryRun);
      MissingIsAbsent(v, w, b, false);
      MissingIsAbsent(v', w', b', dryRun);
      MissingStaysMissing(v, w, b);
    }
  }

  // --- Dry runs ---

  lemma {:induction false} DrySweep(v: Vault, w: World, b: Backend, targets: seq<Target>, sum: Summary)
    ensures Sweep(v, w, b, true, targets, sum).0 == b
    decreases |targets|
  {
    if targets != [] {
      var outcome := Visit(v, b, true, targets[0], w.coins(sum.total), w.fault(sum.total)).1;
      if outcome.Ok? { DrySweep(v, w, b, targets[1..], Plus(sum, outcome.value)); }
    }
  }

  /** Each target is a record of its own. */
  ghost predicate Apart(targets: seq<Target>)
  {
    (forall i :: 0 <= i < |targets| ==> NulFree(targets[i].org))
    && forall i, j :: 0 <= i < j < |targets| ==> targets[i] != targets[j]
  }

  lemma ApartRecords(b: Backend, t: Target, u: Target)
    requires NulFree(t.org) && NulFree(u.org) && SameRecord(b, t, u)
    ensures t == u
  {
    if b.Redb? { KeyInjective(t.org, t.app, u.org, u.app); }
  }

  ghost predicate SameGenesis(b: Backend, b': Backend, targets: seq<Target>)
  {
    forall t :: t in targets ==> b'.Find(Genesis, t.org, t.app) == b.Find(Genesis, t.org, t.app)
  }

  lemma VisitSpares(v: Vault, b: Backend, t: Target, coins: Coins, fault: Fault, u: Target)
    requires NulFree(t.org) && NulFree(u.org) && t != u
    ensures Visit(v, b, false, t, coins, fault).0.Find(Genesis, u.org, u.app) == b.Find(Genesis, u.org, u.app)
  {
    var found := b.Find(Genesis, t.org, t.app);
    if found.Some? && found.value.GenesisRow? {
      var sealed := Checked(v, found.value.encoded, coins, fault);
      if sealed.Ok? { Stored(b, t, sealed.value, u); }
    }
    if SameRecord(b, t, u) { ApartRecords(b, t, u); }
  }

  lemma RestIsSpared(v: Vault, b: Backend, b': Backend, targets: seq<Target>, coins: Coins, fault: Fault)
    requires targets != [] && Apart(targets) && SameGenesis(b, b', targets)
    ensures Apart(targets[1..]) && SameGenesis(b, Visit(v, b', false, targets[0], coins, fault).0, targets[1..])
  {
    forall u | u in targets[1..]
      ensures Visit(v, b', false, targets[0], coins, fault).0.Find(Genesis, u.org, u.app) == b.Find(Genesis, u.org, u.app)
    {
      var i :| 1 <= i < |targets| && targets[i] == u;
      VisitSpares(v, b', targets[0], coins, fault, u);
    }
  }

  lemma VisitPredicts(v: Vault, b: Backend, b': Backend, t: Target, coins: Coins, fault: Fault, coins': Coins, fault': Fault)
    requires b'.Find(Genesis, t.org, t.app) == b.Find(Genesis, t.org, t.app)
    ensures var (dry, actual) := (Visit(v, b, true, t, coins, fault).1, Visit(v, b', false, t, coins', fault').1);
            dry.Ok? && actual.Ok? ==> dry == actual
  {
  }

  lemma {:induction false} DrySweepPredicts(v: Vault, w: World, b: Backend, w': World, b': Backend,
                                            targets: seq<Target>, sum: Summary)
    requires Apart(targets) && SameGenesis(b, b', targets)
    requires Sweep(v, w, b, true, targets, sum).1.Ok? && Sweep(v, w', b', false, targets, sum).1.Ok?
    ensures Sweep(v, w, b, true, targets, sum).1 == Sweep(v, w', b', false, targets, sum).1
    decreases |targets|
  {
    if targets != [] {
      var (t, n) := (targets[0], sum.total);
      var (same, outcome) := Visit(v, b, true, t, w.coins(n), w.fault(n));
      var (next, _) := Visit(v, b', false, t, w'.coins(n), w'.fault(n));
      assert t in targets && same == b;
      VisitPredicts(v, b, b', t, w.coins(n), w.fault(n), w'.coins(n), w'.fault(n));
      RestIsSpared(v, b, b', targets, w'.coins(n), w'.fault(n));
      DrySweepPredicts(v, w, b, w', next, targets[1..], Plus(sum, outcome.value));
    }
  }

  function TargetsFor(org: string, ids: seq<string>): (r: seq<Target>)
    ensures |r| == |ids| && forall i :: 0 <= i < |ids| ==> r[i] == Target(org, ids[i])
  {
    seq(|ids|, i requires 0 <= i < |ids| => Target(org, ids[i]))
  }

  lemma {:induction false} AppTargetsById(org: string, ids: seq<string>, formations: seq<Row>)
    requires |formations| == |ids|
    requires forall i :: 0 <= i < |ids| ==> formations[i].FormationRow? && formations[i].formation.appId == ids[i]
    ensures AppTargets(org, formations) == TargetsFor(org, ids)
  {
    if ids != [] {
      AppTargetsById(org, ids[1..], formations[1..]);
      assert TargetsFor(org, ids) == [Target(org, ids[0])] + TargetsFor(org, ids[1..]);
    }
  }

  lemma RedbTargets(db: Redb.Db, org: string)
    requires Owned(db) && NulFree(org)
    ensures AppTargets(org, Redb.Listing(db.rows, Formations, org))
            == TargetsFor(org, SortedKeys(LocalIds(db.rows, Formations, org)))
  {
    var ids, rows := SortedKeys(LocalIds(db.rows, Formations, org)), Redb.Listing(db.rows, Formations, org);
    ListingById(db.rows, Formations, org);
    forall i | 0 <= i < |ids| ensures rows[i].FormationRow? && rows[i].formation.appId == ids[i] {
      FiledAt(db, Formations, org, ids[i]);
    }
    AppTargetsById(org, ids, rows);
  }

  lemma PostgresTargets(rel: Postgres.Rel, org: string)
    requires WellFormed(rel)
    ensures AppTargets(org, Postgres.Select(rel, Formations, org))
            == TargetsFor(org, SortedKeys(Postgres.Ids(rel, Formations, org)))
  {
    var ids, rows := SortedKeys(Postgres.Ids(rel, Formations, org)), Postgres.Select(rel, Formations, org);
    forall i | 0 <= i < |ids| ensures rows[i].FormationRow? && rows[i].formation.appId == ids[i] {
      assert (Formations, org, ids[i]) in rel.rows;
    }
    AppTargetsById(org, ids, rows);
  }

  lemma AscendingDistinct(keys: seq<string>)
    requires Ascending(keys)
    ensures forall i, j :: 0 <= i < j < |keys| ==> keys[i] != keys[j]
  {
    forall i, j | 0 <= i < j < |keys| ensures keys[i] != keys[j] { LessTotal(keys[i], keys[j]); }
  }

  /** One organization's records are apart. */
  lemma OrgTargets(b: Backend, org: string)
    requires Sane(b) && NulFree(org)
    ensures var targets := AppTargets(org, b.Listing(Formations, org));
            Apart(targets) && forall t :: t in targets ==> t.org == org
  {
    var ids := SortedKeys(if b.Redb? then LocalIds(b.db.rows, Formations, org) else Postgres.Ids(b.rel, Formations, org));
    if b.Redb? { RedbTargets(b.db, org); } else { PostgresTargets(b.rel, org); }
    SortedKeysAscending(if b.Redb? then LocalIds(b.db.rows, Formations, org) else Postgres.Ids(b.rel, Formations, org));
    AscendingDistinct(ids);
  }

  ghost predicate DistinctOrgs(orgs: seq<Organization>)
  {
    (forall i :: 0 <= i < |orgs| ==> NulFree(orgs[i].orgId))
    && forall i, j :: 0 <= i < j < |orgs| ==> orgs[i].orgId != orgs[j].orgId
  }

  lemma ApartConcat(a: seq<Target>, b: seq<Target>)
    requires Apart(a) && Apart(b) && forall t :: t in a ==> t !in b
    ensures Apart(a + b)
  {
    forall i, j | 0 <= i < j < |a + b| ensures (a + b)[i] != (a + b)[j] {
      if i < |a| <= j { assert a[i] in a && b[j - |a|] in b; }
    }
  }

  ghost predicate AmongOrgs(orgs: seq<Organization>, org: string) { exists i :: 0 <= i < |orgs| && orgs[i].orgId == org }

  lemma {:induction false} TargetsApart(b: Backend, orgs: seq<Organization>)
    requires Sane(b) && DistinctOrgs(orgs)
    ensures Apart(Targets(b, orgs))
    ensures forall t :: t in Targets(b, orgs) ==> AmongOrgs(orgs, t.org)
  {
    if orgs != [] {
      var org, rest := orgs[0].orgId, orgs[1..];
      var mine := AppTargets(org, b.Listing(Formations, org));
      OrgTargets(b, org);
      TargetsApart(b, rest);
      assert orgs[0].orgId == org;
      forall t | t in Targets(b, rest) ensures AmongOrgs(orgs, t.org) && t !in mine {
        var i :| 0 <= i < |rest| && rest[i].orgId == t.org;
        assert rest[i] == orgs[i + 1];
      }
      ApartConcat(mine, Targets(b, rest));
    }
  }

  lemma LiveOrgs(b: Backend, org: string)
    requires Sane(b) && b.FindOrg(org).Some?
    ensures NulFree(org) && b.FindOrg(org).value.orgId == org
  {
  }

  lemma ListedOrgs(b: Backend)
    requires Sane(b)
    ensures DistinctOrgs(b.ListOrgs())
    ensures forall o :: o in b.ListOrgs() ==> b.FindOrg(o.orgId).Some?
  {
    var all := if b.Redb? then b.db.orgs else b.rel.orgs;
    var ids, orgs := SortedKeys(all.Keys), b.ListOrgs();
    SortedKeysAscending(all.Keys);
    AscendingDistinct(ids);
    forall i | 0 <= i < |orgs| ensures orgs[i].orgId == ids[i] && NulFree(ids[i]) && b.FindOrg(ids[i]).Some? {
      assert ids[i] in ids;
      LiveOrgs(b, ids[i]);
    }
  }

  lemma AllTargetsApart(b: Backend)
    requires Sane(b)
    ensures Apart(AllTargets(b))
    ensures forall t :: t in AllTargets(b) ==> b.FindOrg(t.org).Some?
  {
    ListedOrgs(b);
    TargetsApart(b, b.ListOrgs());
    forall t | t in AllTargets(b) ensures b.FindOrg(t.org).Some? {
      var i :| 0 <= i < |b.ListOrgs()| && b.ListOrgs()[i].orgId == t.org;
      assert b.ListOrgs()[i] in b.ListOrgs();
    }
  }

  lemma DryRunChangesNothing(v: Vault, w: World, b: Backend)
    ensures Migration(v, w, b, true).0 == b
  {
    DrySweep(v, w, b, Targets(b, Listed(w, b.ListOrgs(), 0)), ZERO);
  }

  /** A dry run changes nothing, and reports what a real run that completes reports. */
  lemma DryRunPredicts(v: Vault, w: World, w': World, b: Backend)
    requires Sane(b)
    ensures Migration(v, w, b, true).0 == b
    ensures var (dry, actual) := (Migration(v, w, b, true).1, Migration(v, w', b, false).1);
            dry.Ok? && actual.Ok? ==> dry == actual
  {
    DryRunChangesNothing(v, w, b);
    if Migration(v, w, b, true).1.Ok? && Migration(v, w', b, false).1.Ok? {
      AllTargetsApart(b);
      CompleteIsFullSweep(v, w, b, true);
      CompleteIsFullSweep(v, w', b, false);
      DrySweepPredicts(v, w, b, w', b, AllTargets(b), ZERO);
    }
  }

  // --- Completion ---

  /** The provider works: it wraps every key in an acceptable blob, and unwraps what it wrapped. */
  ghost predicate Works(v: Vault)
  {
    Lawful(v.gcm) && Faithful(v.provider)
    && (forall dek: Key32, r: Nonce :: v.provider.wrap(dek, r).Ok? && |v.provider.wrap(dek, r).value| < 0x1_0000)
    && (forall k: Key32, n: Nonce, p: bytes :: v.gcm.enc(k, n, p).Some?)
  }

  /** No storage call and no request to the provider fails. */
  ghost predicate Calm(w: World)
  {
    !w.orgsFail && forall n :: !w.listFails(n) && w.fault(n) == NoFault
  }

  /** The target's organization is there, and its record decodes. */
  ghost predicate Readable(b: Backend, t: Target)
  {
    b.FindOrg(t.org).Some? && (b.Find(Genesis, t.org, t.app).Some? ==> b.Find(Genesis, t.org, t.app).value.GenesisRow?)
  }

  lemma VisitCompletes(v: Vault, b: Backend, dryRun: bool, t: Target, coins: Coins)
    requires Works(v) && Readable(b, t)
    ensures Visit(v, b, dryRun, t, coins, NoFault).1.Ok?
  {
    var found := b.Find(Genesis, t.org, t.app);
    if found.Some? { OpenSeal(v.gcm, v.provider, found.value.encoded, coins); }
  }

  lemma StaysReadable(v: Vault, b: Backend, dryRun: bool, t: Target, coins: Coins, fault: Fault, u: Target)
    requires Readable(b, u)
    ensures Readable(Visit(v, b, dryRun, t, coins, fault).0, u)
  {
    var found := b.Find(Genesis, t.org, t.app);
    if found.Some? && found.value.GenesisRow? {
      var sealed := Checked(v, found.value.encoded, coins, fault);
      if sealed.Ok? { Stored(b, t, sealed.value, u); }
    }
  }

  lemma {:induction false} SweepCompletes(v: Vault, w: World, b: Backend, dryRun: bool, targets: seq<Target>, sum: Summary)
    requires Works(v) && Calm(w) && forall t :: t in targets ==> Readable(b, t)
    ensures Sweep(v, w, b, dryRun, targets, sum).1.Ok?
    decreases |targets|
  {
    if targets != [] {
      var coins := w.coins(sum.total);
      assert targets[0] in targets;
      VisitCompletes(v, b, dryRun, targets[0], coins);
      var (b', outcome) := Visit(v, b, dryRun, targets[0], coins, NoFault);
      forall u | u in targets[1..] ensures Readable(b', u) {
        assert u in targets;
        StaysReadable(v, b, dryRun, targets[0], coins, NoFault, u);
      }
      SweepCompletes(v, w, b', dryRun, targets[1..], Plus(sum, outcome.value));
    }
  }

  lemma GenesisIsReadable(b: Backend, t: Target)
    requires Sane(b) && b.FindOrg(t.org).Some?
    ensures Readable(b, t)
  {
    LiveOrgs(b, t.org);
    if b.Redb? && (Genesis, Key(t.org, t.app)) in b.db.rows { FiledAt(b.db, Genesis, t.org, t.app); }
  }

  lemma MigrationCompletes(v: Vault, w: World, b: Backend, dryRun: bool)
    requires Works(v) && Sane(b) && Calm(w)
    ensures Migration(v, w, b, dryRun).1.Ok?
  {
    AllTargetsApart(b);
    forall t | t in AllTargets(b) ensures Readable(b, t) { GenesisIsReadable(b, t); }
    ListedAll(w, b.ListOrgs(), 0);
    SweepCompletes(v, w, b, dryRun, AllTargets(b), ZERO);
  }

  // --- The two backends ---

  lemma VisitAgrees(v: Vault, db: Redb.Db, rel: Postgres.Rel, dryRun: bool, t: Target, coins: Coins, fault: Fault)
    requires Related(db, rel) && t.org in rel.orgs
    ensures var (b, r) := Visit(v, Redb(db), dryRun, t, coins, fault);
            var (c, q) := Visit(v, Pg(rel), dryRun, t, coins, fault);
            r == q && b.Redb? && c.Pg? && Related(b.db, c.rel)
  {
    SameFind(db, rel, Genesis, t.org, t.app);
    var found := Pg(rel).Find(Genesis, t.org, t.app);
    if found.Some? && found.value.GenesisRow? {
      var sealed := Checked(v, found.value.encoded, coins, fault);
      if sealed.Ok? { PutRelated(db, rel, Genesis, t.org, t.app, GenesisRow(sealed.value)); }
    }
  }

  lemma {:induction false} SweepAgrees(v: Vault, w: World, db: Redb.Db, rel: Postgres.Rel, dryRun: bool,
                                       targets: seq<Target>, sum: Summary)
    requires Related(db, rel) && forall t :: t in targets ==> t.org in rel.orgs
    ensures var (b, r) := Sweep(v, w, Redb(db), dryRun, targets, sum);
            var (c, q) := Sweep(v, w, Pg(rel), dryRun, targets, sum);
            r == q && b.Redb? && c.Pg? && Related(b.db, c.rel)
    decreases |targets|
  {
    if targets != [] {
      var (coins, fault) := (w.coins(sum.total), w.fault(sum.total));
      assert targets[0] in targets;
      VisitAgrees(v, db, rel, dryRun, targets[0], coins, fault);
      VisitFrame(v, Pg(rel), dryRun, targets[0], coins, fault);
      var (b, outcome) := Visit(v, Redb(db), dryRun, targets[0], coins, fault);
      var c := Visit(v, Pg(rel), dryRun, targets[0], coins, fault).0;
      if outcome.Ok? { SweepAgrees(v, w, b.db, c.rel, dryRun, targets[1..], Plus(sum, outcome.value)); }
    }
  }

  lemma {:induction false} TargetsAgree(db: Redb.Db, rel: Postgres.Rel, orgs: seq<Organization>)
    requires Related(db, rel) && forall o :: o in orgs ==> NulFree(o.orgId)
    ensures Targets(Redb(db), orgs) == Targets(Pg(rel), orgs)
  {
    if orgs != [] {
      assert orgs[0] in orgs;
      SameListing(db, rel, Formations, orgs[0].orgId);
      TargetsAgree(db, rel, orgs[1..]);
    }
  }

  lemma {:induction false} ListedAmong(w: World, orgs: seq<Organization>, n: nat, o: Organization)
    requires o in Listed(w, orgs, n)
    ensures o in orgs
  {
    if o != orgs[0] { ListedAmong(w, orgs[1..], n + 1, o); }
  }

  lemma ListedTargetsAgree(w: World, db: Redb.Db, rel: Postgres.Rel)
    requires Related(db, rel)
    ensures var targets := Targets(Pg(rel), Listed(w, Pg(rel).ListOrgs(), 0));
            Targets(Redb(db), Listed(w, Redb(db).ListOrgs(), 0)) == targets
            && forall t :: t in targets ==> t.org in rel.orgs
  {
    var orgs := Pg(rel).ListOrgs();
    var listed := Listed(w, orgs, 0);
    ListedOrgs(Pg(rel));
    AllTargetsApart(Pg(rel));
    forall o | o in listed ensures NulFree(o.orgId) {
      ListedAmong(w, orgs, 0, o);
      LiveOrgs(Pg(rel), o.orgId);
    }
    TargetsAgree(db, rel, listed);
    forall t | t in Targets(Pg(rel), listed) ensures t.org in rel.orgs {
      ListedTargets(Pg(rel), w, orgs, 0, t);
      assert Pg(rel).FindOrg(t.org).Some?;
    }
  }

  /** On stores that hold the same, a migration reports the same and leaves the same, wherever it
      stops. */
  lemma MigrationAgrees(v: Vault, w: World, db: Redb.Db, rel: Postgres.Rel, dryRun: bool)
    requires Related(db, rel)
    ensures var (b, r) := Migration(v, w, Redb(db), dryRun);
            var (c, q) := Migration(v, w, Pg(rel), dryRun);
            r == q && b.Redb? && c.Pg? && Related(b.db, c.rel)
  {
    ListedTargetsAgree(w, db, rel);
    SweepAgrees(v, w, db, rel, dryRun, Targets(Pg(rel), Listed(w, Pg(rel).ListOrgs(), 0)), ZERO);
  }
}
