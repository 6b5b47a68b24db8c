/** The embedded store: flat tables under composite string keys (src/storage/redb_backend.rs). */
module Redb {
  import opened Models
  import opened Lex
  import opened Keys

  type Rows = map<(Table, string), Row>

  /** The database contents: `orgs`, the seven tables of encoded rows, and `cdc_cursors`. */
  datatype Db = Db(orgs: map<string, Organization>, rows: Rows, cursors: map<string, string>)

  const EMPTY := Db(map[], map[], map[])

  /** The tables that `delete_org` scans besides `cdc_cursors`. */
  const CASCADE := [Formations, Tokens, Sinks, Idps, Rules, Audit, Genesis]

  function KeysOf(rows: Rows, t: Table): (keys: set<string>)
    ensures forall k :: k in keys <==> (t, k) in rows
  {
    set p | p in rows.Keys && p.0 == t :: p.1
  }

  function WithPrefix(keys: seq<string>, prefix: string): (r: seq<string>)
    ensures forall k :: k in r <==> k in keys && StartsWith(k, prefix)
  {
    if keys == [] then [] else
      (if StartsWith(keys[0], prefix) then [keys[0]] else []) + WithPrefix(keys[1..], prefix)
  }

  lemma {:induction false} WithPrefixAscending(keys: seq<string>, prefix: string)
    requires Ascending(keys)
    ensures Ascending(WithPrefix(keys, prefix))
  {
    if keys != [] {
      WithPrefixAscending(keys[1..], prefix);
      var rest := WithPrefix(keys[1..], prefix);
      assert forall i :: 0 <= i < |rest| ==> rest[i] in keys[1..];
    }
  }

  /** The rows a prefix scan yields, in key order. */
  function Listing(rows: Rows, t: Table, org: string): (r: seq<Row>)
  {
    Picked(rows, t, SortedKeys(KeysOf(rows, t)), Prefix(org))
  }

  function Picked(rows: Rows, t: Table, keys: seq<string>, prefix: string): seq<Row>
    requires forall k :: k in keys ==> (t, k) in rows
  {
    if keys == [] then [] else
      (if StartsWith(keys[0], prefix) then [rows[(t, keys[0])]] else []) + Picked(rows, t, keys[1..], prefix)
  }

  lemma {:induction false} PickedIsAt(rows: Rows, t: Table, keys: seq<string>, prefix: string)
    requires forall k :: k in keys ==> (t, k) in rows
    ensures Picked(rows, t, keys, prefix) == At(rows, t, WithPrefix(keys, prefix))
  {
    if keys != [] {
      PickedIsAt(rows, t, keys[1..], prefix);
    }
  }

  function At(rows: Rows, t: Table, keys: seq<string>): (r: seq<Row>)
    requires forall k :: k in keys ==> (t, k) in rows
    ensures |r| == |keys| && forall i :: 0 <= i < |r| ==> r[i] == rows[(t, keys[i])]
  {
    seq(|keys|, i requires 0 <= i < |keys| => rows[(t, keys[i])])
  }

  function OrgValues(orgs: map<string, Organization>, keys: seq<string>): (r: seq<Organization>)
    requires forall k :: k in keys ==> k in orgs
    ensures |r| == |keys| && forall i :: 0 <= i < |r| ==> r[i] == orgs[keys[i]]
  {
    seq(|keys|, i requires 0 <= i < |keys| => orgs[keys[i]])
  }

  predicate TokenOf(row: Row, app: string) { row.TokenRow? && row.token.appId == app }

  function OfApp(rows: seq<Row>, app: string): seq<Row>
  {
    if rows == [] then [] else
      var n := |rows| - 1;
      OfApp(rows[..n], app) + if TokenOf(rows[n], app) then [rows[n]] else []
  }

  predicate Wanted(row: Row, app: Option<string>)
  {
    row.AuditRow? && (app.None? || row.entry.appId == app.value)
  }

  /** The audit entries under `prefix`, from the last key to the first. */
  function Backwards(rows: Rows, keys: seq<string>, prefix: string, app: Option<string>): seq<AuditEntry>
    requires forall k :: k in keys ==> (Audit, k) in rows
  {
    if keys == [] then [] else
      var last, rest := keys[|keys| - 1], Backwards(rows, keys[..|keys| - 1], prefix, app);
      if StartsWith(last, prefix) && Wanted(rows[(Audit, last)], app)
      then [rows[(Audit, last)].entry] + rest else rest
  }

  function Take<T>(limit: nat, xs: seq<T>): seq<T> { if |xs| <= limit then xs else xs[..limit] }

  /** The scan tests its limit after each push, so a limit of 0 acts as 1. */
  function Effective(limit: nat): nat { if limit == 0 then 1 else limit }

  lemma TakeOf<T>(limit: nat, done: seq<T>, rest: seq<T>)
    requires |done| <= Effective(limit) && (rest == [] || |done| == Effective(limit))
    ensures Take(Effective(limit), done + rest) == done
  {
    assert (done + rest)[..|done|] == done;
  }

  function ListAudit(rows: Rows, org: string, app: Option<string>, limit: nat): seq<AuditEntry>
  {
    Take(Effective(limit), Backwards(rows, SortedKeys(KeysOf(rows, Audit)), Prefix(org), app))
  }

  /** What is left of the rows when the keys with `prefix` are removed from some tables. */
  function Swept(rows: Rows, tables: seq<Table>, prefix: string): Rows
  {
    map p | p in rows && !(p.0 in tables && StartsWith(p.1, prefix)) :: rows[p]
  }

  /** What is left after `delete_org`. */
  function Purged(rows: Rows, org: string): Rows
  {
    map p | p in rows && !StartsWith(p.1, Prefix(org)) :: rows[p]
  }

  function WithoutOrg(db: Db, org: string): Db
  {
    Db(db.orgs - {org}, Purged(db.rows, org),
       map k | k in db.cursors && !StartsWith(k, Prefix(org)) :: db.cursors[k])
  }

  lemma PickedStep(rows: Rows, t: Table, keys: seq<string>, i: nat, prefix: string)
    requires i < |keys| && forall k :: k in keys ==> (t, k) in rows
    ensures Picked(rows, t, keys[i..], prefix)
            == (if StartsWith(keys[i], prefix) then [rows[(t, keys[i])]] else [])
               + Picked(rows, t, keys[i + 1..], prefix)
  {
    assert keys[i..][1..] == keys[i + 1..];
  }

  lemma BackwardsStep(rows: Rows, keys: seq<string>, i: nat, prefix: string, app: Option<string>)
    requires i < |keys| && forall k :: k in keys ==> (Audit, k) in rows
    ensures Backwards(rows, keys[..i + 1], prefix, app)
            == var older := Backwards(rows, keys[..i], prefix, app);
               if StartsWith(keys[i], prefix) && Wanted(rows[(Audit, keys[i])], app)
               then [rows[(Audit, keys[i])].entry] + older else older
  {
    assert keys[..i + 1][..i] == keys[..i];
  }

  lemma SweptStep(rows: Rows, tables: seq<Table>, i: nat, prefix: string)
    requires i < |tables|
    ensures Swept(Swept(rows, tables[..i], prefix), [tables[i]], prefix) == Swept(rows, tables[..i + 1], prefix)
  {
    assert tables[..i + 1] == tables[..i] + [tables[i]];
  }

  lemma SweptEverywhere(rows: Rows, org: string)
    ensures Swept(rows, CASCADE[..|CASCADE|], Prefix(org)) == Purged(rows, org)
  {
    var all := CASCADE[..|CASCADE|];
    assert all == CASCADE;
    forall t: Table ensures t in all {
      assert t == Formations || t == Tokens || t == Sinks || t == Idps || t == Rules || t == Audit || t == Genesis;
      assert all[0] == Formations && all[1] == Tokens && all[2] == Sinks && all[3] == Idps;
      assert all[4] == Rules && all[5] == Audit && all[6] == Genesis;
    }
  }

  class RedbBackend {
    var orgs: map<string, Organization>
    var rows: Rows
    var cursors: map<string, string>

    ghost function View(): Db
      reads this
    {
      Db(orgs, rows, cursors)
    }

    /** The row stored under an id. */
    ghost function Find(t: Table, org: string, id: string): Option<Row>
      reads this`rows
    {
      if (t, Key(org, id)) in rows then Some(rows[(t, Key(org, id))]) else None
    }

    constructor ()
      ensures View() == EMPTY
    {
      orgs, rows, cursors := map[], map[], map[];
    }

    /** create_org and update_org: both insert. */
    method InsertOrg(org: Organization)
      modifies this`orgs
      ensures View() == old(View()).(orgs := old(orgs)[org.orgId := org])
    {
      orgs := orgs[org.orgId := org];
    }

    method GetOrg(org: string) returns (r: Option<Organization>)
      ensures r == if org in orgs then Some(orgs[org]) else None
    {
      r := if org in orgs then Some(orgs[org]) else None;
    }

    method ListOrgs() returns (r: seq<Organization>)
      ensures r == OrgValues(orgs, SortedKeys(orgs.Keys))
    {
      var keys := SortedKeys(orgs.Keys);
      r := [];
      for i := 0 to |keys|
        invariant r == OrgValues(orgs, keys[..i])
      {
        r := r + [orgs[keys[i]]];
      }
      assert keys[..|keys|] == keys;
    }

    /** Every create_*, update_* and store_genesis: an insert that overwrites. */
    method Insert(t: Table, org: string, id: string, row: Row)
      requires Fits(t, row)
      modifies this`rows
      ensures View() == old(View()).(rows := old(rows)[(t, Key(org, id)) := row])
    {
      rows := rows[(t, Key(org, id)) := row];
    }

    method Get(t: Table, org: string, id: string) returns (r: Option<Row>)
      ensures r == Find(t, org, id)
    {
      var key := Key(org, id);
      r := if (t, key) in rows then Some(rows[(t, key)]) else None;
    }

    method Remove(t: Table, org: string, id: string) returns (removed: bool)
      modifies this`rows
      ensures removed == ((t, Key(org, id)) in old(rows))
      ensures View() == old(View()).(rows := old(rows) - {(t, Key(org, id))})
    {
      var key := Key(org, id);
      removed := (t, key) in rows;
      rows := rows - {(t, key)};
    }

    method List(t: Table, org: string) returns (r: seq<Row>)
      ensures r == Listing(rows, t, org)
    {
      var prefix := Prefix(org);
      var keys := SortedKeys(KeysOf(rows, t));
      r := [];
      for i := 0 to |keys|
        invariant r + Picked(rows, t, keys[i..], prefix) == Listing(rows, t, org)
      {
        PickedStep(rows, t, keys, i, prefix);
        if StartsWith(keys[i], prefix) {
          Reassociate(r, [rows[(t, keys[i])]], Picked(rows, t, keys[i + 1..], prefix));
          r := r + [rows[(t, keys[i])]];
        }
      }
    }

    method ListTokens(org: string, app: string) returns (r: seq<Row>)
      ensures r == OfApp(Listing(rows, Tokens, org), app)
    {
      var all := List(Tokens, org);
      r := [];
      for i := 0 to |all|
        invariant r == OfApp(all[..i], app)
      {
        assert all[..i + 1][..i] == all[..i];
        if TokenOf(all[i], app) {
          r := r + [all[i]];
        }
      }
      assert all[..|all|] == all;
    }

    /** Collect the keys of one table that carry the prefix, then remove each. */
    method RemoveWithPrefix(t: Table, prefix: string)
      modifies this`rows
      ensures rows == Swept(old(rows), [t], prefix)
    {
      var keysToRemove := set p | p in rows && p.0 == t && StartsWith(p.1, prefix);
      ghost var matching := keysToRemove;
      while keysToRemove != {}
        invariant keysToRemove <= matching
        invariant rows == old(rows) - (matching - keysToRemove)
      {
        var key :| key in keysToRemove;
        rows := rows - {key};
        keysToRemove := keysToRemove - {key};
      }
    }

    method DeleteOrg(org: string) returns (removed: bool)
      modifies this
      ensures removed == (org in old(orgs))
      ensures View() == WithoutOrg(old(View()), org)
    {
      var prefix := Prefix(org);
      removed := org in orgs;
      orgs := orgs - {org};
      for i := 0 to |CASCADE|
        invariant orgs == old(orgs) - {org} && cursors == old(cursors)
        invariant rows == Swept(old(rows), CASCADE[..i], prefix)
      {
        SweptStep(old(rows), CASCADE, i, prefix);
        RemoveWithPrefix(CASCADE[i], prefix);
      }
      SweptEverywhere(old(rows), org);
      RemoveCursors(prefix);
    }

    method RemoveCursors(prefix: string)
      modifies this`cursors
      ensures cursors == map k | k in old(cursors) && !StartsWith(k, prefix) :: old(cursors)[k]
    {
      var keysToRemove := set k | k in cursors && StartsWith(k, prefix);
      ghost var matching := keysToRemove;
      while keysToRemove != {}
        invariant keysToRemove <= matching
        invariant cursors == old(cursors) - (matching - keysToRemove)
      {
        var key :| key in keysToRemove;
        cursors := cursors - {key};
        keysToRemove := keysToRemove - {key};
      }
    }

    method AppendAudit(e: AuditEntry)
      modifies this`rows
      ensures View() == old(View()).(rows := old(rows)[(Audit, AuditKey(e.orgId, e.timestampMs, e.auditId)) := AuditRow(e)])
    {
      rows := rows[(Audit, AuditKey(e.orgId, e.timestampMs, e.auditId)) := AuditRow(e)];
    }

    method ListAuditEntries(org: string, app: Option<string>, limit: nat) returns (entries: seq<AuditEntry>)
      ensures entries == ListAudit(rows, org, app, limit)
    {
      var prefix := Prefix(org);
      var keys := SortedKeys(KeysOf(rows, Audit));
      entries := [];
      ghost var all := Backwards(rows, keys, prefix, app);
      ghost var rest := all;
      var i := |keys|;
      assert keys[..i] == keys;
      while i > 0
        invariant 0 <= i <= |keys|
        invariant entries == [] || |entries| < limit
        invariant rest == Backwards(rows, keys[..i], prefix, app)
        invariant all == entries + rest
        decreases i
      {
        i := i - 1;
        BackwardsStep(rows, keys, i, prefix, app);
        ghost var older := Backwards(rows, keys[..i], prefix, app);
        if !StartsWith(keys[i], prefix) || !Wanted(rows[(Audit, keys[i])], app) {
          rest := older;
          continue;
        }
        var e := rows[(Audit, keys[i])].entry;
        Reassociate(entries, [e], older);
        rest := older;
        entries := entries + [e];
        if |entries| >= limit {
          break;
        }
      }
      TakeOf(limit, entries, rest);
    }

    method GetCursor(org: string, app: string, doc: string) returns (r: Option<string>)
      ensures r == if CursorKey(org, app, doc) in cursors then Some(cursors[CursorKey(org, app, doc)]) else None
    {
      var key := CursorKey(org, app, doc);
      r := if key in cursors then Some(cursors[key]) else None;
    }

    method SetCursor(org: string, app: string, doc: string, hash: string)
      modifies this`cursors
      ensures View() == old(View()).(cursors := old(cursors)[CursorKey(org, app, doc) := hash])
    {
      cursors := cursors[CursorKey(org, app, doc) := hash];
    }
  }
}
