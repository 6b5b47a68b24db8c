/** What a completed run of `migrate-keys` means for every formation, and what its counters count
    (src/cli.rs). */
module Sealing {
  import opened Models
  import opened Keys
  import opened Envelope
  import opened Manager
  import opened Ownership
  import opened Migrate
  import Calls

  // --- The run visits every formation ---

  lemma OrgTargetsIff(b: Backend, org: string, t: Target)
    requires Sane(b) && NulFree(org)
    ensures t in AppTargets(org, b.Listing(Formations, org)) <==> t.org == org && b.Find(Formations, org, t.app).Some?
  {
    var rows := b.Listing(Formations, org);
    var ids := Calls.ListingMeaning(b, Formations, org);
    forall i | 0 <= i < |ids| ensures rows[i].FormationRow? && rows[i].formation.appId == ids[i] {
      assert b.Find(Formations, org, ids[i]) == Some(rows[i]);
      Calls.FiledRow(b, Formations, org, ids[i]);
    }
    AppTargetsById(org, ids, rows);
    if t.org == org && b.Find(Formations, org, t.app).Some? {
      var i :| 0 <= i < |ids| && ids[i] == t.app;
      assert TargetsFor(org, ids)[i] == t;
    }
  }

  lemma {:induction false} TargetsIff(b: Backend, orgs: seq<Organization>, t: Target)
    requires Sane(b) && forall o :: o in orgs ==> NulFree(o.orgId)
    ensures t in Targets(b, orgs) <==> AmongOrgs(orgs, t.org) && b.Find(Formations, t.org, t.app).Some?
  {
    if orgs != [] {
      var rest := orgs[1..];
      OrgTargetsIff(b, orgs[0].orgId, t);
      TargetsIff(b, rest, t);
      assert AmongOrgs(orgs, t.org) <==> orgs[0].orgId == t.org || AmongOrgs(rest, t.org) by {
        if i :| 0 <= i < |rest| && rest[i].orgId == t.org { assert orgs[i + 1].orgId == t.org; }
        if i :| 1 <= i < |orgs| && orgs[i].orgId == t.org { assert rest[i - 1].orgId == t.org; }
      }
    }
  }

  /** The run visits exactly the formations of the organizations. */
  lemma AllTargetsIff(b: Backend, t: Target)
    requires Sane(b)
    ensures t in AllTargets(b) <==> b.FindOrg(t.org).Some? && b.Find(Formations, t.org, t.app).Some?
  {
    ListedOrgs(b);
    forall o | o in b.ListOrgs() ensures NulFree(o.orgId) { LiveOrgs(b, o.orgId); }
    TargetsIff(b, b.ListOrgs(), t);
    Calls.OrgListing(Calls.OrgsOf(b));
    if b.FindOrg(t.org).Some? {
      LiveOrgs(b, t.org);
      var i :| 0 <= i < |b.ListOrgs()| && b.ListOrgs()[i] == b.FindOrg(t.org).value;
      assert AmongOrgs(b.ListOrgs(), t.org);
    }
  }

  // --- What it leaves behind ---

  /** A completed run leaves the genesis of every formation enveloped, and what is loaded from it
      unchanged. */
  lemma CompletedRunMeans(v: Vault, w: World, b: Backend, org: string, app: string)
    requires Sane(b) && Migration(v, w, b, false).1.Ok?
    requires b.FindOrg(org).Some? && b.Find(Formations, org, app).Some? && b.Find(Genesis, org, app).Some?
    ensures var b' := Migration(v, w, b, false).0;
            var found := b'.Find(Genesis, org, app);
            found.Some? && found.value.GenesisRow? && Enveloped(found.value.encoded)
            && Meaning(v, b', Target(org, app)) == Meaning(v, b, Target(org, app))
  {
    AllTargetsIff(b, Target(org, app));
    CompletedRunSealsAll(v, w, b, Target(org, app));
    MigrationKeepsMeaning(v, w, b, false, org, app);
    EnvelopedIff(Migration(v, w, b, false).0.Find(Genesis, org, app).value.encoded);
  }

  // --- What it counts ---

  /** How many targets have no genesis, one that is enveloped, and one that is not. */
  function Census(b: Backend, targets: seq<Target>): Summary
  {
    if targets == [] then Summary(0, 0, 0, 0)
    else
      var rest, found := Census(b, targets[1..]), b.Find(Genesis, targets[0].org, targets[0].app);
      if found.None? then rest.(missing := rest.missing + 1, total := rest.total + 1)
      else if found.value.GenesisRow? && Enveloped(found.value.encoded)
      then rest.(alreadyEncrypted := rest.alreadyEncrypted + 1, total := rest.total + 1)
      else rest.(migrated := rest.migrated + 1, total := rest.total + 1)
  }

  function Sum(a: Summary, c: Summary): Summary
  {
    Summary(a.migrated + c.migrated, a.alreadyEncrypted + c.alreadyEncrypted, a.missing + c.missing, a.total + c.total)
  }

  lemma VisitCounts(v: Vault, b: Backend, b': Backend, dryRun: bool, t: Target, rest: seq<Target>, coins: Coins,
                    fault: Fault, sum: Summary)
    requires b'.Find(Genesis, t.org, t.app) == b.Find(Genesis, t.org, t.app)
    requires Visit(v, b', dryRun, t, coins, fault).1.Ok?
    ensures Sum(Plus(sum, Visit(v, b', dryRun, t, coins, fault).1.value), Census(b, rest)) == Sum(sum, Census(b, [t] + rest))
  {
    assert ([t] + rest)[1..] == rest;
    var found := b.Find(Genesis, t.org, t.app);
    if found.Some? && found.value.GenesisRow? { EnvelopedIff(found.value.encoded); }
  }

  lemma RestIsSame(v: Vault, b: Backend, b': Backend, dryRun: bool, targets: seq<Target>, coins: Coins, fault: Fault)
    requires targets != [] && Apart(targets) && SameGenesis(b, b', targets)
    ensures Apart(targets[1..]) && SameGenesis(b, Visit(v, b', dryRun, targets[0], coins, fault).0, targets[1..])
  {
    RestIsSpared(v, b, b', targets, coins, fault);
    if dryRun {
      assert Visit(v, b', true, targets[0], coins, fault).0 == b';
      forall u | u in targets[1..] ensures b'.Find(Genesis, u.org, u.app) == b.Find(Genesis, u.org, u.app) {
        assert u in targets;
      }
    }
  }

  lemma {:induction false} SweepCensus(v: Vault, w: World, b: Backend, b': Backend, dryRun: bool, targets: seq<Target>,
                                       sum: Summary)
    requires Apart(targets) && SameGenesis(b, b', targets) && Sweep(v, w, b', dryRun, targets, sum).1.Ok?
    ensures Sweep(v, w, b', dryRun, targets, sum).1 == Ok(Sum(sum, Census(b, targets)))
    decreases |targets|
  {
    if targets != [] {
      var (t, n) := (targets[0], sum.total);
      var (next, outcome) := Visit(v, b', dryRun, t, w.coins(n), w.fault(n));
      assert t in targets && targets == [t] + targets[1..];
      VisitCounts(v, b, b', dryRun, t, targets[1..], w.coins(n), w.fault(n), sum);
      RestIsSame(v, b, b', dryRun, targets, w.coins(n), w.fault(n));
      SweepCensus(v, w, b, next, dryRun, targets[1..], Plus(sum, outcome.value));
    }
  }

  lemma SweptCensus(v: Vault, w: World, b: Backend, dryRun: bool, targets: seq<Target>, sum: Summary, r: Result<Summary>)
    requires Apart(targets) && r == Sweep(v, w, b, dryRun, targets, sum).1 && r.Ok?
    requires sum.migrated == sum.alreadyEncrypted == sum.missing == sum.total == 0
    ensures r == Ok(Census(b, targets))
  {
    SweepCensus(v, w, b, b, dryRun, targets, sum);
  }

  /** A run that completes, dry or not, reports how many genesis records of the formations it found
      missing, enveloped and plain. */
  lemma CountersAreCensus(v: Vault, w: World, b: Backend, dryRun: bool)
    requires Sane(b) && Migration(v, w, b, dryRun).1.Ok?
    ensures Migration(v, w, b, dryRun).1 == Ok(Census(b, AllTargets(b)))
    ensures forall i, j :: 0 <= i < j < |AllTargets(b)| ==> AllTargets(b)[i] != AllTargets(b)[j]
  {
    AllTargetsApart(b);
    CompleteIsFullSweep(v, w, b, dryRun);
    SweptCensus(v, w, b, dryRun, AllTargets(b), ZERO, Migration(v, w, b, dryRun).1);
  }
}
