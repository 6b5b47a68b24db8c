/** The flat redb tables refine the relational schema: related stores stay related under every
    manager operation, and give the same replies. */
module Refinement {
  import opened Models
  import opened Lex
  import opened Keys
  import opened Manager
  import Redb
  import Postgres

  // --- Laws of the flat tables ---

  ghost predicate AreIds(ids: set<string>, rows: Redb.Rows, t: Table, org: string)
  {
    forall id :: id in ids <==> (t, Key(org, id)) in rows
  }

  /** The ids under which the organization has rows. */
  ghost function LocalIds(rows: Redb.Rows, t: Table, org: string): (ids: set<string>)
    ensures AreIds(ids, rows, t, org)
  {
    LocalIdsExist(rows, t, org);
    var ids :| AreIds(ids, rows, t, org);
    ids
  }

  lemma LocalIdsExist(rows: Redb.Rows, t: Table, org: string)
    ensures exists ids :: AreIds(ids, rows, t, org)
  {
    assert forall id :: Key(org, id)[|org| + 1..] == id;
    var ids := set p | p in rows.Keys && p.0 == t && StartsWith(p.1, Prefix(org)) && p.1 == Key(org, p.1[|org| + 1..])
                     :: p.1[|org| + 1..];
    assert forall id :: Key(org, id)[..|org| + 1] == Prefix(org);
    assert AreIds(ids, rows, t, org);
  }

  function KeysFor(org: string, ids: seq<string>): (keys: seq<string>)
    ensures |keys| == |ids| && forall i :: 0 <= i < |ids| ==> keys[i] == Key(org, ids[i])
  {
    seq(|ids|, i requires 0 <= i < |ids| => Key(org, ids[i]))
  }

  lemma KeysForAscending(org: string, ids: seq<string>)
    requires Ascending(ids)
    ensures Ascending(KeysFor(org, ids))
  {
    var keys := KeysFor(org, ids);
    forall i, j | 0 <= i < j < |keys| ensures Less(keys[i], keys[j]) {
      LessCommonPrefix(Prefix(org), ids[i], ids[j]);
    }
  }

  lemma ScannedKey(rows: Redb.Rows, t: Table, org: string, k: string)
    ensures (t, k) in rows && StartsWith(k, Prefix(org)) <==>
            exists id :: id in LocalIds(rows, t, org) && k == Key(org, id)
  {
    if StartsWith(k, Prefix(org)) {
      assert k == k[..|org| + 1] + k[|org| + 1..];
      assert k == Key(org, k[|org| + 1..]);
    }
    forall id ensures Key(org, id)[..|org| + 1] == Prefix(org) { }
  }

  lemma ScanIsKeysFor(rows: Redb.Rows, t: Table, org: string)
    ensures Redb.WithPrefix(SortedKeys(Redb.KeysOf(rows, t)), Prefix(org))
            == KeysFor(org, SortedKeys(LocalIds(rows, t, org)))
  {
    var ids := SortedKeys(LocalIds(rows, t, org));
    var all := SortedKeys(Redb.KeysOf(rows, t));
    SortedKeysAscending(LocalIds(rows, t, org));
    KeysForAscending(org, ids);
    SortedKeysAscending(Redb.KeysOf(rows, t));
    Redb.WithPrefixAscending(all, Prefix(org));
    var keys, scanned := KeysFor(org, ids), Redb.WithPrefix(all, Prefix(org));
    forall k ensures k in keys <==> k in scanned {
      ScannedKey(rows, t, org, k);
      if id :| id in LocalIds(rows, t, org) && k == Key(org, id) {
        assert id in ids;
        var i :| 0 <= i < |ids| && ids[i] == id;
        assert keys[i] == k;
      }
    }
    AscendingUnique(keys, scanned);
  }

  lemma ListingIsAt(rows: Redb.Rows, t: Table, org: string)
    ensures var keys := KeysFor(org, SortedKeys(LocalIds(rows, t, org)));
            (forall k :: k in keys ==> (t, k) in rows) && Redb.Listing(rows, t, org) == Redb.At(rows, t, keys)
  {
    var all := SortedKeys(Redb.KeysOf(rows, t));
    ScanIsKeysFor(rows, t, org);
    Redb.PickedIsAt(rows, t, all, Prefix(org));
  }

  /** A prefix scan returns the organization's rows in the order of their ids. */
  lemma ListingById(rows: Redb.Rows, t: Table, org: string)
    ensures var ids := SortedKeys(LocalIds(rows, t, org));
            var r := Redb.Listing(rows, t, org);
            |r| == |ids| && forall i :: 0 <= i < |r| ==> ids[i] in LocalIds(rows, t, org) && r[i] == rows[(t, Key(org, ids[i]))]
  {
    ListingIsAt(rows, t, org);
    var ids := SortedKeys(LocalIds(rows, t, org));
    forall i | 0 <= i < |ids| ensures ids[i] in LocalIds(rows, t, org) { assert ids[i] in ids; }
  }

  // --- The simulation relation ---

  ghost predicate HasEntry(db: Redb.Db, e: AuditEntry)
  {
    (Audit, AuditKey(e.orgId, e.timestampMs, e.auditId)) in db.rows
    && db.rows[(Audit, AuditKey(e.orgId, e.timestampMs, e.auditId))] == AuditRow(e)
  }

  ghost predicate LiveIds(orgs: map<string, Organization>)
  {
    forall o :: o in orgs ==> NulFree(o) && orgs[o].orgId == o
  }

  /** Each relational row sits in an existing organization, under its own key. */
  ghost predicate Filed(t: Table, org: string, id: string, row: Row)
  {
    Fits(t, row) && match row
    case FormationRow(f) => f.appId == id
    case GenesisRow(_) => true
    case AuditRow(_) => false
    case other => Home(other) == (org, id)
  }

  ghost predicate WellFormed(rel: Postgres.Rel)
  {
    && LiveIds(rel.orgs)
    && (forall t, o, i :: (t, o, i) in rel.rows ==> o in rel.orgs && Filed(t, o, i, rel.rows[(t, o, i)]))
    && (forall o, a :: (o, a) in rel.audit ==>
          o in rel.orgs && rel.audit[(o, a)].orgId == o && rel.audit[(o, a)].auditId == a)
    && (forall o, a, d :: (o, a, d) in rel.cursors ==> o in rel.orgs && NulFree(a))
  }

  ghost predicate SameRows(db: Redb.Db, rel: Postgres.Rel)
  {
    forall t, org, id :: t != Audit && NulFree(org) ==>
      ((t, Key(org, id)) in db.rows <==> (t, org, id) in rel.rows)
      && ((t, org, id) in rel.rows ==> db.rows[(t, Key(org, id))] == rel.rows[(t, org, id)])
  }

  ghost predicate SameAudit(db: Redb.Db, rel: Postgres.Rel)
  {
    forall e: AuditEntry :: HasEntry(db, e) <==>
      (e.orgId, e.auditId) in rel.audit && rel.audit[(e.orgId, e.auditId)] == e
  }

  ghost predicate SameCursors(db: Redb.Db, rel: Postgres.Rel)
  {
    forall org, app, doc :: NulFree(org) && NulFree(app) ==>
      (CursorKey(org, app, doc) in db.cursors <==> (org, app, doc) in rel.cursors)
      && ((org, app, doc) in rel.cursors ==> db.cursors[CursorKey(org, app, doc)] == rel.cursors[(org, app, doc)])
  }

  ghost predicate Related(db: Redb.Db, rel: Postgres.Rel)
  {
    && db.orgs == rel.orgs
    && WellFormed(rel)
    && SameRows(db, rel)
    && SameAudit(db, rel)
    && SameCursors(db, rel)
  }

  // --- Each storage call keeps the stores related ---

  lemma PutRelated(db: Redb.Db, rel: Postgres.Rel, t: Table, org: string, id: string, row: Row)
    requires Related(db, rel) && org in rel.orgs && Filed(t, org, id, row)
    ensures Related(db.(rows := db.rows[(t, Key(org, id)) := row]), rel.(rows := rel.rows[(t, org, id) := row]))
  {
    var db', rel' := db.(rows := db.rows[(t, Key(org, id)) := row]), rel.(rows := rel.rows[(t, org, id) := row]);
    forall u, o, i | u != Audit && NulFree(o)
      ensures (u, Key(o, i)) in db'.rows <==> (u, o, i) in rel'.rows
      ensures (u, o, i) in rel'.rows ==> db'.rows[(u, Key(o, i))] == rel'.rows[(u, o, i)]
    {
      if Key(o, i) == Key(org, id) { KeyInjective(o, i, org, id); }
    }
    assert forall e :: HasEntry(db', e) <==> HasEntry(db, e);
    assert SameCursors(db', rel');
  }

  lemma DropRelated(db: Redb.Db, rel: Postgres.Rel, t: Table, org: string, id: string)
    requires Related(db, rel) && NulFree(org) && t != Audit
    ensures Related(db.(rows := db.rows - {(t, Key(org, id))}), rel.(rows := rel.rows - {(t, org, id)}))
  {
    var db', rel' := db.(rows := db.rows - {(t, Key(org, id))}), rel.(rows := rel.rows - {(t, org, id)});
    forall u, o, i | u != Audit && NulFree(o)
      ensures (u, Key(o, i)) in db'.rows <==> (u, o, i) in rel'.rows
      ensures (u, o, i) in rel'.rows ==> db'.rows[(u, Key(o, i))] == rel'.rows[(u, o, i)]
    {
      if Key(o, i) == Key(org, id) { KeyInjective(o, i, org, id); }
    }
    assert forall e :: HasEntry(db', e) <==> HasEntry(db, e);
    assert SameCursors(db', rel');
  }

  lemma AppendRelated(db: Redb.Db, rel: Postgres.Rel, e: AuditEntry)
    requires Related(db, rel) && e.orgId in rel.orgs && (e.orgId, e.auditId) !in rel.audit
    ensures Related(db.(rows := db.rows[(Audit, AuditKey(e.orgId, e.timestampMs, e.auditId)) := AuditRow(e)]),
                    rel.(audit := rel.audit[(e.orgId, e.auditId) := e]))
  {
    var key := AuditKey(e.orgId, e.timestampMs, e.auditId);
    var db', rel' := db.(rows := db.rows[(Audit, key) := AuditRow(e)]), rel.(audit := rel.audit[(e.orgId, e.auditId) := e]);
    forall x: AuditEntry
      ensures HasEntry(db', x) <==> (x.orgId, x.auditId) in rel'.audit && rel'.audit[(x.orgId, x.auditId)] == x
    {
      if x != e && AuditKey(x.orgId, x.timestampMs, x.auditId) == key && HasEntry(db, x) {
        AuditKeyInjective(x, e);
      }
    }
    assert SameRows(db', rel') && SameCursors(db', rel');
  }

  lemma SetCursorRelated(db: Redb.Db, rel: Postgres.Rel, org: string, app: string, doc: string, hash: string)
    requires Related(db, rel) && org in rel.orgs && NulFree(app)
    ensures Related(db.(cursors := db.cursors[CursorKey(org, app, doc) := hash]),
                    rel.(cursors := rel.cursors[(org, app, doc) := hash]))
  {
    var db' := db.(cursors := db.cursors[CursorKey(org, app, doc) := hash]);
    var rel' := rel.(cursors := rel.cursors[(org, app, doc) := hash]);
    forall o, a, d | NulFree(o) && NulFree(a)
      ensures CursorKey(o, a, d) in db'.cursors <==> (o, a, d) in rel'.cursors
      ensures (o, a, d) in rel'.cursors ==> db'.cursors[CursorKey(o, a, d)] == rel'.cursors[(o, a, d)]
    {
      if CursorKey(o, a, d) == CursorKey(org, app, doc) { CursorKeyInjective(o, a, d, org, app, doc); }
    }
    assert SameRows(db', rel') && forall e :: HasEntry(db', e) <==> HasEntry(db, e);
  }

  lemma CascadeRows(db: Redb.Db, rel: Postgres.Rel, org: string)
    requires Related(db, rel) && NulFree(org)
    ensures SameRows(Redb.WithoutOrg(db, org), Postgres.DeleteOrg(rel, org))
  {
    var db', rel' := Redb.WithoutOrg(db, org), Postgres.DeleteOrg(rel, org);
    forall u, o, i | u != Audit && NulFree(o)
      ensures (u, Key(o, i)) in db'.rows <==> (u, o, i) in rel'.rows
      ensures (u, o, i) in rel'.rows ==> db'.rows[(u, Key(o, i))] == rel'.rows[(u, o, i)]
    {
      PrefixExact(o, i, org);
    }
  }

  lemma CascadeAudit(db: Redb.Db, rel: Postgres.Rel, org: string)
    requires Related(db, rel) && NulFree(org)
    ensures SameAudit(Redb.WithoutOrg(db, org), Postgres.DeleteOrg(rel, org))
  {
    var db', rel' := Redb.WithoutOrg(db, org), Postgres.DeleteOrg(rel, org);
    forall e: AuditEntry
      ensures HasEntry(db', e) <==> (e.orgId, e.auditId) in rel'.audit && rel'.audit[(e.orgId, e.auditId)] == e
    {
      AuditKeyNested(e);
      if HasEntry(db, e) { PrefixExact(e.orgId, AuditId(e), org); }
    }
  }

  lemma CascadeCursors(db: Redb.Db, rel: Postgres.Rel, org: string)
    requires Related(db, rel) && NulFree(org)
    ensures SameCursors(Redb.WithoutOrg(db, org), Postgres.DeleteOrg(rel, org))
  {
    var db', rel' := Redb.WithoutOrg(db, org), Postgres.DeleteOrg(rel, org);
    forall o, a, d | NulFree(o) && NulFree(a)
      ensures CursorKey(o, a, d) in db'.cursors <==> (o, a, d) in rel'.cursors
      ensures (o, a, d) in rel'.cursors ==> db'.cursors[CursorKey(o, a, d)] == rel'.cursors[(o, a, d)]
    {
      CursorKeyNested(o, a, d);
      PrefixExact(o, Key(a, d), org);
    }
  }

  /** The prefix cascade of `delete_org` is the SQL cascade. */
  lemma DeleteOrgRelated(db: Redb.Db, rel: Postgres.Rel, org: string)
    requires Related(db, rel) && NulFree(org)
    ensures Related(Redb.WithoutOrg(db, org), Postgres.DeleteOrg(rel, org))
  {
    CascadeRows(db, rel, org);
    CascadeAudit(db, rel, org);
    CascadeCursors(db, rel, org);
  }

  lemma SetOrgRelated(db: Redb.Db, rel: Postgres.Rel, o: Organization)
    requires Related(db, rel) && NulFree(o.orgId)
    ensures Related(db.(orgs := db.orgs[o.orgId := o]), rel.(orgs := rel.orgs[o.orgId := o]))
  {
    var db', rel' := db.(orgs := db.orgs[o.orgId := o]), rel.(orgs := rel.orgs[o.orgId := o]);
    assert SameRows(db', rel') && SameCursors(db', rel');
    assert forall e :: HasEntry(db', e) <==> HasEntry(db, e);
  }

  /** A prefix scan and SELECT ... ORDER BY return the same sequence. */
  lemma SameListing(db: Redb.Db, rel: Postgres.Rel, t: Table, org: string)
    requires Related(db, rel) && NulFree(org) && t != Audit
    ensures Redb.Listing(db.rows, t, org) == Postgres.Select(rel, t, org)
  {
    assert LocalIds(db.rows, t, org) == Postgres.Ids(rel, t, org);
    ListingById(db.rows, t, org);
    var ids := SortedKeys(Postgres.Ids(rel, t, org));
    var r, q := Redb.Listing(db.rows, t, org), Postgres.Select(rel, t, org);
    assert |r| == |q|;
    forall i | 0 <= i < |r| ensures r[i] == q[i] {
      assert (t, org, ids[i]) in rel.rows;
    }
  }

  // --- Manager operations ---

  /** The organization id an operation names, if any. */
  function OrgOf(op: Op): string
  {
    match op
    case ListOrgs => ""
    case AppendAudit(e) => e.orgId
    case other => other.org
  }

  /** What the two backends need of a caller: NUL-free organization ids (and application ids of
      cursors), ids drawn fresh, and audit and cursor writes only for live organizations. */
  ghost predicate Admissible(db: Redb.Db, op: Op)
  {
    NulFree(OrgOf(op))
    && (CreatesRow(op) ==> (NewRow(op).0, Key(op.org, op.id)) !in db.rows)
    && match op
    case AppendAudit(e) => e.orgId in db.orgs
                           && forall x :: HasEntry(db, x) ==> x.orgId != e.orgId || x.auditId != e.auditId
    case GetCursor(_, app, _) => NulFree(app)
    case SetCursor(org, app, _, _) => org in db.orgs && NulFree(app)
    case _ => true
  }

  ghost predicate Agree(x: (Backend, Result<Reply>), y: (Backend, Result<Reply>))
  {
    x.1 == y.1 && x.0.Redb? && y.0.Pg? && Related(x.0.db, y.0.rel)
  }

  lemma WriteFormationAgrees(db: Redb.Db, rel: Postgres.Rel, org: string, f: FormationConfig, stored: bytes)
    requires Related(db, rel) && org in rel.orgs && (Formations, org, f.appId) !in rel.rows
    ensures Agree(WriteFormation(Redb(db), org, f, stored), WriteFormation(Pg(rel), org, f, stored))
  {
    PutRelated(db, rel, Formations, org, f.appId, FormationRow(f));
    var db' := db.(rows := db.rows[(Formations, Key(org, f.appId)) := FormationRow(f)]);
    var rel' := rel.(rows := rel.rows[(Formations, org, f.appId) := FormationRow(f)]);
    PutRelated(db', rel', Genesis, org, f.appId, GenesisRow(stored));
  }

  /** The quota checks read the same number of rows. */
  lemma SameCount(db: Redb.Db, rel: Postgres.Rel, t: Table, org: string)
    requires Related(db, rel) && NulFree(org) && t != Audit
    ensures |Redb(db).Listing(t, org)| == |Pg(rel).Listing(t, org)|
  {
    SameListing(db, rel, t, org);
  }

  lemma SameFind(db: Redb.Db, rel: Postgres.Rel, t: Table, org: string, id: string)
    requires Related(db, rel) && NulFree(org) && t != Audit
    ensures Redb(db).Find(t, org, id) == Pg(rel).Find(t, org, id)
  {
  }

  lemma NewFormationAgrees(s: Session, db: Redb.Db, rel: Postgres.Rel, o: Organization, op: Op)
    requires Related(db, rel) && op.CreateFormation? && op.org in rel.orgs
    ensures Agree(NewFormation(s, Redb(db), o, op), NewFormation(s, Pg(rel), o, op))
  {
    SameCount(db, rel, Formations, op.org);
    SameFind(db, rel, Formations, op.org, op.app);
    var stored := StoredGenesis(s, op.genesis, op.coins);
    if Pg(rel).Find(Formations, op.org, op.app).None? && stored.Ok? {
      WriteFormationAgrees(db, rel, op.org, FormationConfig(op.app, op.genesis.meshId, op.policy), stored.value);
    }
  }

  lemma ChangeTokenAgrees(db: Redb.Db, rel: Postgres.Rel, op: Op)
    requires Related(db, rel) && (op.RevokeToken? || op.ConsumeToken?) && NulFree(op.org)
    ensures Agree(ChangeToken(Redb(db), op), ChangeToken(Pg(rel), op))
  {
    if (Tokens, op.org, op.id) in rel.rows {
      var token := rel.rows[(Tokens, op.org, op.id)].token;
      PutRelated(db, rel, Tokens, op.org, op.id, TokenRow(token.(revoked := true)));
      PutRelated(db, rel, Tokens, op.org, op.id, TokenRow(Consumed(token)));
    }
  }

  lemma FormationAgrees(s: Session, db: Redb.Db, rel: Postgres.Rel, op: Op)
    requires Related(db, rel) && (op.CreateFormation? || op.DeleteFormation?) && NulFree(op.org)
    ensures Agree(FormationStep(s, Redb(db), op), FormationStep(s, Pg(rel), op))
  {
    if op.CreateFormation? {
      if op.org in rel.orgs { NewFormationAgrees(s, db, rel, rel.orgs[op.org], op); }
    } else {
      DropRelated(db, rel, Formations, op.org, op.app);
      DropRelated(db.(rows := db.rows - {(Formations, Key(op.org, op.app))}),
                  rel.(rows := rel.rows - {(Formations, op.org, op.app)}), Genesis, op.org, op.app);
    }
  }

  lemma SameObstacle(b: Backend, c: Backend, op: Op)
    requires CreatesRow(op)
    requires b.FindOrg(op.org) == c.FindOrg(op.org) && |b.Listing(Sinks, op.org)| == |c.Listing(Sinks, op.org)|
    requires op.CreateToken? ==> b.Find(Formations, op.org, op.app) == c.Find(Formations, op.org, op.app)
    ensures Obstacle(b, op) == Obstacle(c, op) && (Obstacle(b, op).None? ==> b.FindOrg(op.org).Some?)
  {
  }

  lemma ObstacleAgrees(db: Redb.Db, rel: Postgres.Rel, op: Op)
    requires Related(db, rel) && CreatesRow(op) && NulFree(op.org)
    ensures Obstacle(Redb(db), op) == Obstacle(Pg(rel), op)
    ensures Obstacle(Pg(rel), op).None? ==> op.org in rel.orgs
  {
    SameCount(db, rel, Sinks, op.org);
    if op.CreateToken? { SameFind(db, rel, Formations, op.org, op.app); }
    SameObstacle(Redb(db), Pg(rel), op);
  }

  lemma CreateUnlessAgrees(db: Redb.Db, rel: Postgres.Rel, op: Op, obstacle: Option<Error>)
    requires Related(db, rel) && CreatesRow(op) && Admissible(db, op)
    requires obstacle.None? ==> op.org in rel.orgs
    ensures Agree(CreateUnless(Redb(db), op, obstacle), CreateUnless(Pg(rel), op, obstacle))
  {
    if op.org in rel.orgs {
      var (t, row) := NewRow(op);
      PutRelated(db, rel, t, op.org, op.id, row);
    }
  }

  lemma CreateRowAgrees(db: Redb.Db, rel: Postgres.Rel, op: Op)
    requires Related(db, rel) && CreatesRow(op) && Admissible(db, op)
    ensures Agree(CreateRow(Redb(db), op), CreateRow(Pg(rel), op))
  {
    ObstacleAgrees(db, rel, op);
    CreateUnlessAgrees(db, rel, op, Obstacle(Pg(rel), op));
  }

  lemma ToggleAgrees(db: Redb.Db, rel: Postgres.Rel, op: Op)
    requires Related(db, rel) && op.Toggle? && NulFree(op.org)
    ensures Agree(Toggled(Redb(db), op), Toggled(Pg(rel), op))
  {
    if op.t in {Sinks, Idps} && (op.t, op.org, op.id) in rel.rows {
      PutRelated(db, rel, op.t, op.org, op.id, SetEnabled(rel.rows[(op.t, op.org, op.id)], op.enabled));
    }
  }

  lemma OrgStepAgrees(db: Redb.Db, rel: Postgres.Rel, op: Op)
    requires Related(db, rel) && (op.CreateOrg? || op.UpdateOrg? || op.DeleteOrg?) && NulFree(op.org)
    ensures Agree(OrgStep(Redb(db), op), OrgStep(Pg(rel), op))
  {
    match op {
      case CreateOrg(org, name, now) =>
        SetOrgRelated(db, rel, Organization(org, name, DEFAULT_QUOTAS, now));
      case UpdateOrg(org, name, quotas) =>
        var reply := OrgStep(Pg(rel), op).1;
        if reply.Ok? { SetOrgRelated(db, rel, reply.value.o); }
      case DeleteOrg(org) =>
        DeleteOrgRelated(db, rel, org);
      case _ =>
    }
  }

  lemma DropRowAgrees(db: Redb.Db, rel: Postgres.Rel, op: Op)
    requires Related(db, rel) && op.Delete? && NulFree(op.org)
    ensures Agree(DropRow(Redb(db), op), DropRow(Pg(rel), op))
  {
    if op.t != Audit { DropRelated(db, rel, op.t, op.org, op.id); }
  }

  lemma LogAgrees(s: Session, db: Redb.Db, rel: Postgres.Rel, op: Op)
    requires Related(db, rel) && Admissible(db, op) && (op.AppendAudit? || op.SetCursor?)
    ensures Agree(Step(s, Redb(db), op), Step(s, Pg(rel), op))
  {
    match op {
      case AppendAudit(e) =>
        AppendRelated(db, rel, e);
      case SetCursor(org, app, doc, hash) => SetCursorRelated(db, rel, org, app, doc, hash);
      case _ =>
    }
  }

  lemma ListAgrees(s: Session, db: Redb.Db, rel: Postgres.Rel, t: Table, org: string)
    requires Related(db, rel) && NulFree(org)
    ensures Answer(s, Redb(db), List(t, org)) == Answer(s, Pg(rel), List(t, org))
  {
    if t != Audit { SameListing(db, rel, t, org); }
  }

  lemma ListTokensAgrees(s: Session, db: Redb.Db, rel: Postgres.Rel, org: string, app: string)
    requires Related(db, rel) && NulFree(org)
    ensures Answer(s, Redb(db), ListTokens(org, app)) == Answer(s, Pg(rel), ListTokens(org, app))
  {
    SameListing(db, rel, Tokens, org);
  }

  lemma FindAgrees(s: Session, db: Redb.Db, rel: Postgres.Rel, op: Op)
    requires Related(db, rel) && Admissible(db, op)
    requires op.GetOrg? || op.ListOrgs? || op.LoadGenesis? || op.Get? || op.GetCursor?
    ensures Answer(s, Redb(db), op) == Answer(s, Pg(rel), op)
  {
    if op.LoadGenesis? { assert Loads(s, Redb(db), op.org, op.app) == Loads(s, Pg(rel), op.org, op.app); }
  }

  /** One manager call on related stores gives one reply and related stores. */
  lemma StepAgrees(s: Session, db: Redb.Db, rel: Postgres.Rel, op: Op)
    requires Related(db, rel) && Admissible(db, op)
    ensures Agree(Step(s, Redb(db), op), Step(s, Pg(rel), op))
  {
    if ReadsOnly(op) {
      if op.List? {
        ListAgrees(s, db, rel, op.t, op.org);
      } else if op.ListTokens? {
        ListTokensAgrees(s, db, rel, op.org, op.app);
      } else {
        FindAgrees(s, db, rel, op);
      }
    } else if CreatesRow(op) {
      CreateRowAgrees(db, rel, op);
    } else if op.CreateFormation? || op.DeleteFormation? {
      FormationAgrees(s, db, rel, op);
    } else if op.RevokeToken? || op.ConsumeToken? {
      ChangeTokenAgrees(db, rel, op);
    } else if op.Toggle? {
      ToggleAgrees(db, rel, op);
    } else if op.Delete? {
      DropRowAgrees(db, rel, op);
    } else if op.AppendAudit? || op.SetCursor? {
      LogAgrees(s, db, rel, op);
    } else {
      OrgStepAgrees(db, rel, op);
    }
  }

  // --- Whole runs ---

  /** A manager call; a restart may change the session. */
  datatype Call = Call(s: Session, op: Op)

  function Run(b: Backend, calls: seq<Call>): (Backend, seq<Result<Reply>>)
    decreases |calls|
  {
    if calls == [] then (b, []) else
      var (b', reply) := Step(calls[0].s, b, calls[0].op);
      var (last, replies) := Run(b', calls[1..]);
      (last, [reply] + replies)
  }

  ghost predicate AdmissibleRun(db: Redb.Db, calls: seq<Call>)
    decreases |calls|
  {
    calls == [] || (Admissible(db, calls[0].op)
                    && var b := Step(calls[0].s, Redb(db), calls[0].op).0;
                       b.Redb? && AdmissibleRun(b.db, calls[1..]))
  }

  lemma {:induction false} RunAgrees(db: Redb.Db, rel: Postgres.Rel, calls: seq<Call>)
    requires Related(db, rel) && AdmissibleRun(db, calls)
    ensures Run(Redb(db), calls).1 == Run(Pg(rel), calls).1
    ensures var (x, y) := (Run(Redb(db), calls).0, Run(Pg(rel), calls).0);
            x.Redb? && y.Pg? && Related(x.db, y.rel)
    decreases |calls|
  {
    if calls != [] {
      StepAgrees(calls[0].s, db, rel, calls[0].op);
      RunAgrees(Step(calls[0].s, Redb(db), calls[0].op).0.db, Step(calls[0].s, Pg(rel), calls[0].op).0.rel, calls[1..]);
    }
  }

  /** From empty stores, every run of manager calls gives the same replies on both backends. */
  lemma BackendsAgree(calls: seq<Call>)
    requires AdmissibleRun(Redb.EMPTY, calls)
    ensures Run(Redb(Redb.EMPTY), calls).1 == Run(Pg(Postgres.EMPTY), calls).1
  {
    RunAgrees(Redb.EMPTY, Postgres.EMPTY, calls);
  }
}
