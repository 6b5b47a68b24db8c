/** What one manager call returns to a later one, and which calls undo each other
    (src/tenant/manager.rs). */
module Inverse {
  import opened Models
  import opened Lex
  import opened Keys
  import opened Manager
  import opened Ownership
  import Redb
  import Genesis

  // --- Organizations ---

  /** create_org then delete_org leaves the store as it was. */
  lemma DeleteUndoesCreateOrg(s: Session, db: Redb.Db, op: Op)
    requires Owned(db) && LogsOwned(db) && op.CreateOrg? && Step(s, Redb(db), op).1.Ok?
    ensures Step(s, Step(s, Redb(db), op).0, DeleteOrg(op.org)) == (Redb(db), Ok(Done))
  {
    DeadOrgIsVacant(db, op.org);
    var grown := db.(orgs := db.orgs[op.org := Organization(op.org, op.displayName, DEFAULT_QUOTAS, op.now)]);
    assert Step(s, Redb(db), op).0 == Redb(grown);
    NothingToPurge(db, op.org);
    assert grown.orgs - {op.org} == db.orgs;
    LoudStep(s, grown, DeleteOrg(op.org));
  }

  lemma NothingToPurge(db: Redb.Db, org: string)
    requires Owned(db) && LogsOwned(db) && Vacant(db, org)
    ensures Redb.WithoutOrg(db, org).rows == db.rows && Redb.WithoutOrg(db, org).cursors == db.cursors
  {
    forall k | StartsWith(k, Prefix(org)) ensures k == Key(org, k[|org| + 1..]) {
      assert k == k[..|org| + 1] + k[|org| + 1..];
    }
  }

  // --- Formations ---

  /** Exactly when create_formation succeeds. */
  ghost predicate Creatable(s: Session, db: Redb.Db, op: Op)
    requires op.CreateFormation?
  {
    && ValidIdentifier(op.app) && op.org in db.orgs
    && AsU32(|Redb.Listing(db.rows, Formations, op.org)|) < db.orgs[op.org].quotas.maxFormations
    && (Formations, Key(op.org, op.app)) !in db.rows
    && StoredGenesis(s, op.genesis, op.coins).Ok?
  }

  lemma FormationCreatedIff(s: Session, db: Redb.Db, op: Op)
    requires op.CreateFormation?
    ensures var (b, reply) := Step(s, Redb(db), op);
            (reply.Ok? <==> Creatable(s, db, op)) && (reply.Err? ==> b == Redb(db))
            && (reply.Ok? ==> b == Redb(db.(rows :=
                  db.rows[(Formations, Key(op.org, op.app)) := FormationRow(FormationConfig(op.app, op.genesis.meshId, op.policy))]
                         [(Genesis, Key(op.org, op.app)) := GenesisRow(StoredGenesis(s, op.genesis, op.coins).value)])))
  {
  }

  /** create_formation then load_genesis returns the very genesis, sealed or not. */
  lemma CreatedGenesisIsLoaded(w: Genesis.World, on: bool, db: Redb.Db, op: Op)
    requires Genesis.LawfulWorld(w) && op.CreateFormation? && Step(Genesis.SessionOf(w, on), Redb(db), op).1.Ok?
    ensures Loads(Genesis.SessionOf(w, on), Step(Genesis.SessionOf(w, on), Redb(db), op).0, op.org, op.app) == Ok(op.genesis)
  {
    var s := Genesis.SessionOf(w, on);
    FormationCreatedIff(s, db, op);
    Genesis.StoredHolds(w, on, op.genesis, op.coins);
    Genesis.HeldIsDecoded(w, on, StoredGenesis(s, op.genesis, op.coins).value, op.genesis);
  }

  /** delete_formation undoes create_formation. */
  lemma DeleteUndoesCreateFormation(s: Session, db: Redb.Db, op: Op)
    requires op.CreateFormation? && Step(s, Redb(db), op).1.Ok? && (Genesis, Key(op.org, op.app)) !in db.rows
    ensures Step(s, Step(s, Redb(db), op).0, DeleteFormation(op.org, op.app)) == (Redb(db), Ok(Done))
  {
    FormationCreatedIff(s, db, op);
    var k := Key(op.org, op.app);
    var b := Step(s, Redb(db), op).0;
    TwoRows(db.rows, (Formations, k), b.db.rows[(Formations, k)], (Genesis, k), b.db.rows[(Genesis, k)]);
    assert Step(s, b, DeleteFormation(op.org, op.app)).0 == b.Delete(Formations, op.org, op.app).Delete(Genesis, op.org, op.app);
  }

  lemma TwoRows(rows: Redb.Rows, p: (Table, string), x: Row, q: (Table, string), y: Row)
    requires p != q && p !in rows && q !in rows
    ensures rows[p := x][q := y] - {p} - {q} == rows
  {
  }

  // --- Rows under random ids ---

  lemma PutIsFound(db: Redb.Db, u: Table, o: string, i: string, row: Row, t: Table, org: string, id: string)
    requires NulFree(o) && NulFree(org)
    ensures Redb(db.(rows := db.rows[(u, Key(o, i)) := row])).Find(t, org, id)
            == if t == u && org == o && id == i then Some(row) else Redb(db).Find(t, org, id)
  {
    if Key(org, id) == Key(o, i) { KeyInjective(org, id, o, i); }
  }

  lemma CreatedReply(s: Session, db: Redb.Db, op: Op)
    requires CreatesRow(op) && Step(s, Redb(db), op).1.Ok?
    ensures op.org in db.orgs
    ensures Step(s, Redb(db), op)
            == (Redb(db.(rows := db.rows[(NewRow(op).0, Key(op.org, op.id)) := NewRow(op).1])), Ok(One(NewRow(op).1)))
  {
    ReplyMeansCreated(db, op);
  }

  /** A created row is read back; another id's row is not affected. */
  lemma CreatedRowIsFound(s: Session, db: Redb.Db, op: Op, t: Table, org: string, id: string)
    requires Owned(db) && CreatesRow(op) && NulFree(org) && Step(s, Redb(db), op).1.Ok?
    ensures var (b, reply) := Step(s, Redb(db), op);
            reply == Ok(One(NewRow(op).1))
            && b.Find(t, org, id) == if t == NewRow(op).0 && org == op.org && id == op.id then Some(NewRow(op).1)
                                     else Redb(db).Find(t, org, id)
  {
    CreatedReply(s, db, op);
    PutIsFound(db, NewRow(op).0, op.org, op.id, NewRow(op).1, t, org, id);
  }

  lemma ReplyMeansCreated(db: Redb.Db, op: Op)
    requires CreatesRow(op) && CreateRow(Redb(db), op).1.Ok?
    ensures op.org in db.orgs && CreateRow(Redb(db), op).1 == Ok(One(NewRow(op).1))
    ensures CreateRow(Redb(db), op).0 == Redb(db.(rows := db.rows[(NewRow(op).0, Key(op.org, op.id)) := NewRow(op).1]))
  {
  }

  lemma PutThenDropped(s: Session, db: Redb.Db, t: Table, org: string, id: string, row: Row)
    requires t in {Tokens, Sinks, Idps, Rules} && (t, Key(org, id)) !in db.rows
    ensures Step(s, Redb(db.(rows := db.rows[(t, Key(org, id)) := row])), Delete(t, org, id)) == (Redb(db), Ok(Done))
  {
    assert db.rows[(t, Key(org, id)) := row] - {(t, Key(org, id))} == db.rows;
  }

  /** delete_token, delete_sink, delete_idp and delete_policy_rule undo the creation of their row. */
  lemma DeleteUndoesCreateRow(s: Session, db: Redb.Db, op: Op)
    requires CreatesRow(op) && Step(s, Redb(db), op).1.Ok? && (NewRow(op).0, Key(op.org, op.id)) !in db.rows
    ensures Step(s, Step(s, Redb(db), op).0, Delete(NewRow(op).0, op.org, op.id)) == (Redb(db), Ok(Done))
  {
    CreatedReply(s, db, op);
    PutThenDropped(s, db, NewRow(op).0, op.org, op.id, NewRow(op).1);
  }

  function Enabled(row: Row): bool { if row.SinkRow? then row.sink.enabled else if row.IdpRow? then row.idp.enabled else false }

  /** Toggling back restores the store. */
  lemma ToggleUndoesToggle(s: Session, db: Redb.Db, op: Op)
    requires Owned(db) && op.Toggle? && Step(s, Redb(db), op).1.Ok?
    ensures (op.t, Key(op.org, op.id)) in db.rows
    ensures Step(s, Step(s, Redb(db), op).0, op.(enabled := Enabled(db.rows[(op.t, Key(op.org, op.id))]))).0 == Redb(db)
  {
    var k := Key(op.org, op.id);
    FoundRow(db, op.t, op.org, op.id);
    var row := db.rows[(op.t, k)];
    var toggled := db.rows[(op.t, k) := SetEnabled(row, op.enabled)];
    assert Step(s, Redb(db), op).0 == Redb(db.(rows := toggled));
    assert SetEnabled(SetEnabled(row, op.enabled), Enabled(row)) == row;
    assert toggled[(op.t, k) := row] == db.rows;
  }
}
