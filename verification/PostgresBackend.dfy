/** The PostgreSQL backend as it changes its tables (src/storage/postgres.rs): each statement against
    the schema of module Postgres. A refused statement leaves the tables alone. */
module PostgresBackend {
  import opened Models
  import opened Lex
  import opened Postgres
  import Redb

  class PostgresBackend {
    var orgs: map<string, Organization>
    var rows: map<(Table, string, string), Row>
    var audit: map<(string, string), AuditEntry>
    var cursors: map<(string, string, string), string>

    ghost function View(): Rel
      reads this
    {
      Rel(orgs, rows, audit, cursors)
    }

    /** The statement `next` was carried out, or refused. */
    ghost predicate Ran(before: Rel, next: Result<Rel>, ok: bool)
      reads this
    {
      if next.Ok? then ok && View() == next.value else !ok && View() == before
    }

    constructor ()
      ensures View() == EMPTY
    {
      orgs, rows, audit, cursors := map[], map[], map[], map[];
    }

    method CreateOrg(o: Organization) returns (ok: bool)
      modifies this`orgs
      ensures Ran(old(View()), Postgres.InsertOrg(old(View()), o), ok)
    {
      ok := o.orgId !in orgs;
      if ok {
        orgs := orgs[o.orgId := o];
      }
    }

    method UpdateOrg(o: Organization)
      modifies this`orgs
      ensures View() == Postgres.UpdateOrg(old(View()), o)
    {
      if o.orgId in orgs {
        orgs := orgs[o.orgId := o];
      }
    }

    /** DELETE FROM orgs, with ON DELETE CASCADE in the eight referencing tables. */
    method DeleteOrg(org: string) returns (removed: bool)
      modifies this
      ensures removed == (org in old(orgs)) && View() == Postgres.DeleteOrg(old(View()), org)
    {
      removed := org in orgs;
      orgs := orgs - {org};
      rows := map p | p in rows && p.1 != org :: rows[p];
      audit := map p | p in audit && p.0 != org :: audit[p];
      cursors := map p | p in cursors && p.0 != org :: cursors[p];
    }

    /** create_formation, create_token, create_sink, create_idp, create_policy_rule. */
    method Create(t: Table, org: string, id: string, row: Row) returns (ok: bool)
      modifies this`rows
      ensures Ran(old(View()), Postgres.Insert(old(View()), t, org, id, row), ok)
    {
      ok := org in orgs && (t, org, id) !in rows;
      if ok {
        rows := rows[(t, org, id) := row];
      }
    }

    /** update_token, update_sink, update_idp. */
    method Update(t: Table, org: string, id: string, row: Row)
      modifies this`rows
      ensures View() == Postgres.Update(old(View()), t, org, id, row)
    {
      if (t, org, id) in rows {
        rows := rows[(t, org, id) := row];
      }
    }

    method StoreGenesis(org: string, app: string, encoded: bytes) returns (ok: bool)
      modifies this`rows
      ensures Ran(old(View()), Postgres.Upsert(old(View()), Genesis, org, app, GenesisRow(encoded)), ok)
    {
      ok := org in orgs;
      if ok {
        rows := rows[(Genesis, org, app) := GenesisRow(encoded)];
      }
    }

    method Delete(t: Table, org: string, id: string) returns (removed: bool)
      modifies this`rows
      ensures removed == ((t, org, id) in old(rows)) && View() == Postgres.Delete(old(View()), t, org, id)
    {
      removed := (t, org, id) in rows;
      rows := rows - {(t, org, id)};
    }

    method AppendAudit(e: AuditEntry) returns (ok: bool)
      modifies this`audit
      ensures Ran(old(View()), Postgres.AppendAudit(old(View()), e), ok)
    {
      ok := e.orgId in orgs && (e.orgId, e.auditId) !in audit;
      if ok {
        audit := audit[(e.orgId, e.auditId) := e];
      }
    }

    method SetCursor(org: string, app: string, doc: string, hash: string) returns (ok: bool)
      modifies this`cursors
      ensures Ran(old(View()), Postgres.SetCursor(old(View()), org, app, doc, hash), ok)
    {
      ok := org in orgs;
      if ok {
        cursors := cursors[(org, app, doc) := hash];
      }
    }

    /** list_formations, list_sinks, list_idps, list_policy_rules: fetch, then push row by row. */
    method List(t: Table, org: string) returns (r: seq<Row>)
      ensures r == Postgres.Select(View(), t, org)
    {
      var ids := SortedKeys(Postgres.Ids(Rel(orgs, rows, audit, cursors), t, org));
      r := [];
      for i := 0 to |ids|
        invariant |r| == i && forall j :: 0 <= j < i ==> r[j] == rows[(t, org, ids[j])]
      {
        assert ids[i] in ids;
        r := r + [rows[(t, org, ids[i])]];
      }
    }

    method ListTokens(org: string, app: string) returns (r: seq<Row>)
      ensures r == Redb.OfApp(Postgres.Select(View(), Tokens, org), app)
    {
      var all := List(Tokens, org);
      r := [];
      for i := 0 to |all|
        invariant r == Redb.OfApp(all[..i], app)
      {
        assert all[..i + 1][..i] == all[..i];
        if Redb.TokenOf(all[i], app) {
          r := r + [all[i]];
        }
      }
      assert all[..|all|] == all;
    }
  }
}
