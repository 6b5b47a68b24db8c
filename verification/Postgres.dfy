/** The relational store: primary keys, foreign keys to `orgs`, ON DELETE CASCADE
    (src/storage/postgres.rs). TEXT columns are ordered by code point ("C" collation). */
module Postgres {
  import opened Models
  import opened Lex

  datatype Rel = Rel(
    orgs: map<string, Organization>,
    rows: map<(Table, string, string), Row>,
    audit: map<(string, string), AuditEntry>,
    cursors: map<(string, string, string), string>)

  const EMPTY := Rel(map[], map[], map[], map[])

  function InsertOrg(rel: Rel, o: Organization): Result<Rel>
  {
    if o.orgId in rel.orgs then Err(Constraint) else Ok(rel.(orgs := rel.orgs[o.orgId := o]))
  }

  function UpdateOrg(rel: Rel, o: Organization): Rel
  {
    if o.orgId in rel.orgs then rel.(orgs := rel.orgs[o.orgId := o]) else rel
  }

  function DeleteOrg(rel: Rel, org: string): Rel
  {
    Rel(rel.orgs - {org},
        map p | p in rel.rows && p.1 != org :: rel.rows[p],
        map p | p in rel.audit && p.0 != org :: rel.audit[p],
        map p | p in rel.cursors && p.0 != org :: rel.cursors[p])
  }

  function Insert(rel: Rel, t: Table, org: string, id: string, row: Row): Result<Rel>
  {
    if org !in rel.orgs || (t, org, id) in rel.rows then Err(Constraint)
    else Ok(rel.(rows := rel.rows[(t, org, id) := row]))
  }

  function Update(rel: Rel, t: Table, org: string, id: string, row: Row): Rel
  {
    if (t, org, id) in rel.rows then rel.(rows := rel.rows[(t, org, id) := row]) else rel
  }

  /** INSERT ... ON CONFLICT DO UPDATE. */
  function Upsert(rel: Rel, t: Table, org: string, id: string, row: Row): Result<Rel>
  {
    if org !in rel.orgs then Err(Constraint)
    else Ok(rel.(rows := rel.rows[(t, org, id) := row]))
  }

  function Delete(rel: Rel, t: Table, org: string, id: string): Rel
  {
    rel.(rows := rel.rows - {(t, org, id)})
  }

  function Ids(rel: Rel, t: Table, org: string): (ids: set<string>)
    ensures forall id :: id in ids <==> (t, org, id) in rel.rows
  {
    set p | p in rel.rows.Keys && p.0 == t && p.1 == org :: p.2
  }

  /** SELECT ... WHERE org_id = $1 ORDER BY id. */
  function Select(rel: Rel, t: Table, org: string): (r: seq<Row>)
  {
    var ids := SortedKeys(Ids(rel, t, org));
    seq(|ids|, i requires 0 <= i < |ids| => rel.rows[(t, org, ids[i])])
  }

  function AppendAudit(rel: Rel, e: AuditEntry): Result<Rel>
  {
    if e.orgId !in rel.orgs || (e.orgId, e.auditId) in rel.audit then Err(Constraint)
    else Ok(rel.(audit := rel.audit[(e.orgId, e.auditId) := e]))
  }

  function SetCursor(rel: Rel, org: string, app: string, doc: string, hash: string): Result<Rel>
  {
    if org !in rel.orgs then Err(Constraint)
    else Ok(rel.(cursors := rel.cursors[(org, app, doc) := hash]))
  }

  /** `x as i64`, the type of a BIGINT column and of a LIMIT. */
  function AsI64(x: u64): int
  {
    if x < 0x8000_0000_0000_0000 then x else x - 0x1_0000_0000_0000_0000
  }

  ghost predicate Selected(rel: Rel, org: string, app: Option<string>, e: AuditEntry)
  {
    (org, e.auditId) in rel.audit && rel.audit[(org, e.auditId)] == e && (app.None? || e.appId == app.value)
  }

  /** The answers SELECT ... ORDER BY timestamp_ms DESC LIMIT may give: rows with equal
      timestamps come in any order. */
  ghost predicate AnswersAudit(rel: Rel, org: string, app: Option<string>, limit: nat, r: seq<AuditEntry>)
  {
    && |r| <= limit
    && (forall e :: e in r ==> Selected(rel, org, app, e))
    && (forall i, j :: 0 <= i < j < |r| ==> r[i] != r[j] && AsI64(r[i].timestampMs) >= AsI64(r[j].timestampMs))
    && (forall e :: Selected(rel, org, app, e) && e !in r ==>
          |r| == limit && forall x :: x in r ==> AsI64(x.timestampMs) >= AsI64(e.timestampMs))
  }

  /** The outcomes of list_audit with a `usize` limit: a negative LIMIT is an error. */
  ghost predicate MayAnswer(rel: Rel, org: string, app: Option<string>, limit: u64, r: Result<seq<AuditEntry>>)
  {
    if AsI64(limit) < 0 then r == Err(Constraint)
    else r.Ok? && AnswersAudit(rel, org, app, limit, r.value)
  }
}
