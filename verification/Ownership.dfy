/** What every manager call keeps on the flat store: each row belongs to a live organization,
    `delete_org` removes exactly its own rows, and quotas bound what they bound. */
module Ownership {
  import opened Models
  import opened Lex
  import opened Keys
  import opened Manager
  import opened Refinement
  import Redb

  ghost predicate Lives(orgs: map<string, Organization>, t: Table, k: string, row: Row)
  {
    exists org, id :: org in orgs && k == Key(org, id) && Filed(t, org, id, row)
  }

  /** Rows other than audit entries sit under their own key in a live organization. */
  ghost predicate Owned(db: Redb.Db)
  {
    && (forall o :: o in db.orgs ==> ValidIdentifier(o) && db.orgs[o].orgId == o)
    && (forall t, k :: (t, k) in db.rows && t != Audit ==> Lives(db.orgs, t, k, db.rows[(t, k)]))
  }

  /** Audit entries and cursors too belong to live organizations. */
  ghost predicate LogsOwned(db: Redb.Db)
  {
    && (forall k :: (Audit, k) in db.rows ==> FiledEntry(db.orgs, k, db.rows[(Audit, k)]))
    && (forall k :: k in db.cursors ==> Under(db.orgs, k))
  }

  ghost predicate FiledEntry(orgs: map<string, Organization>, k: string, row: Row)
  {
    row.AuditRow? && row.entry.orgId in orgs
    && k == AuditKey(row.entry.orgId, row.entry.timestampMs, row.entry.auditId)
  }

  ghost predicate Under(orgs: map<string, Organization>, k: string)
  {
    exists org, id :: org in orgs && k == Key(org, id)
  }

  /** Audit entries sit under their own keys, whether or not their organizations are live. */
  ghost predicate AuditFiled(db: Redb.Db)
  {
    forall k :: (Audit, k) in db.rows ==>
      var row := db.rows[(Audit, k)];
      row.AuditRow? && NulFree(row.entry.orgId) && k == AuditKey(row.entry.orgId, row.entry.timestampMs, row.entry.auditId)
  }

  /** The caller appends audit entries and sets cursors only for live organizations. */
  ghost predicate LiveWrites(db: Redb.Db, op: Op)
  {
    (op.AppendAudit? ==> op.entry.orgId in db.orgs) && (op.SetCursor? ==> op.org in db.orgs)
  }

  /** The invariants of either store. */
  ghost predicate Sane(b: Backend) { if b.Redb? then Owned(b.db) else WellFormed(b.rel) }

  ghost predicate OwnedBackend(b: Backend) { b.Redb? && Owned(b.db) }

  lemma LogsAreFiled(db: Redb.Db)
    requires Owned(db) && LogsOwned(db)
    ensures AuditFiled(db)
  {
    forall k | (Audit, k) in db.rows ensures FiledEntry(db.orgs, k, db.rows[(Audit, k)]) { }
  }

  /** A formation step changes nothing, deletes the formation with its genesis, or writes both. */
  lemma FormationOutcome(s: Session, db: Redb.Db, op: Op)
    requires op.CreateFormation? || op.DeleteFormation?
    ensures var b := FormationStep(s, Redb(db), op).0;
            || b == Redb(db)
            || (op.DeleteFormation? && b == Redb(db).Delete(Formations, op.org, op.app).Delete(Genesis, op.org, op.app))
            || (op.CreateFormation? && ValidIdentifier(op.app) && op.org in db.orgs
                && (Formations, Key(op.org, op.app)) !in db.rows
                && StoredGenesis(s, op.genesis, op.coins).Ok?
                && AsU32(|Redb.Listing(db.rows, Formations, op.org)|) < db.orgs[op.org].quotas.maxFormations
                && b == WriteFormation(Redb(db), op.org, FormationConfig(op.app, op.genesis.meshId, op.policy),
                                       StoredGenesis(s, op.genesis, op.coins).value).0)
  {
  }

  /** Creating a row changes nothing, or adds the row to a live organization within its quota. */
  lemma CreateRowOutcome(db: Redb.Db, op: Op)
    requires CreatesRow(op)
    ensures var b := CreateRow(Redb(db), op).0;
            || b == Redb(db)
            || (op.org in db.orgs
                && b == Redb(db.(rows := db.rows[(NewRow(op).0, Key(op.org, op.id)) := NewRow(op).1]))
                && (op.CreateSink? ==>
                      AsU32(|Redb.Listing(db.rows, Sinks, op.org)|) < db.orgs[op.org].quotas.maxCdcSinks))
  {
  }

  lemma FormationKeepsOrgs(s: Session, db: Redb.Db, op: Op)
    requires op.CreateFormation? || op.DeleteFormation?
    ensures var b := FormationStep(s, Redb(db), op).0; b.Redb? && b.db.orgs == db.orgs
  {
    FormationOutcome(s, db, op);
  }

  lemma CreateRowKeepsOrgs(db: Redb.Db, op: Op)
    requires CreatesRow(op)
    ensures var b := CreateRow(Redb(db), op).0; b.Redb? && b.db.orgs == db.orgs
  {
    CreateRowOutcome(db, op);
  }

  lemma RowChangeKeepsOrgs(db: Redb.Db, op: Op)
    requires op.RevokeToken? || op.ConsumeToken? || op.Toggle? || op.Delete?
    ensures var b := if op.Toggle? then Toggled(Redb(db), op).0 else if op.Delete? then DropRow(Redb(db), op).0
                     else ChangeToken(Redb(db), op).0;
            b.Redb? && b.db.orgs == db.orgs
  {
  }

  lemma LogKeepsOrgs(s: Session, db: Redb.Db, op: Op)
    requires op.AppendAudit? || op.SetCursor?
    ensures var b := Step(s, Redb(db), op).0; b.Redb? && b.db.orgs == db.orgs
  {
  }

  /** Only the organization calls change the organization table. */
  lemma OrgsKept(s: Session, db: Redb.Db, op: Op)
    requires !op.CreateOrg? && !op.UpdateOrg? && !op.DeleteOrg?
    ensures var b := Step(s, Redb(db), op).0; b.Redb? && b.db.orgs == db.orgs
  {
    if ReadsOnly(op) {
      assert Step(s, Redb(db), op).0 == Redb(db);
    } else if CreatesRow(op) {
      CreateRowKeepsOrgs(db, op);
      assert Step(s, Redb(db), op) == CreateRow(Redb(db), op);
    } else if op.CreateFormation? || op.DeleteFormation? {
      FormationKeepsOrgs(s, db, op);
      assert Step(s, Redb(db), op) == FormationStep(s, Redb(db), op);
    } else if op.AppendAudit? || op.SetCursor? {
      LogKeepsOrgs(s, db, op);
    } else {
      RowChangeKeepsOrgs(db, op);
    }
  }

  // --- Ownership is kept ---

  lemma PutOwned(db: Redb.Db, t: Table, org: string, id: string, row: Row)
    requires Owned(db) && org in db.orgs && Filed(t, org, id, row)
    ensures Owned(db.(rows := db.rows[(t, Key(org, id)) := row]))
  {
    var db' := db.(rows := db.rows[(t, Key(org, id)) := row]);
    assert Lives(db'.orgs, t, Key(org, id), row);
  }

  lemma DropOwned(db: Redb.Db, gone: set<(Table, string)>)
    requires Owned(db)
    ensures Owned(db.(rows := db.rows - gone))
  {
  }

  lemma SetOrgOwned(db: Redb.Db, o: Organization)
    requires Owned(db) && ValidIdentifier(o.orgId)
    ensures Owned(db.(orgs := db.orgs[o.orgId := o]))
  {
    var db' := db.(orgs := db.orgs[o.orgId := o]);
    forall t, k | (t, k) in db'.rows && t != Audit ensures Lives(db'.orgs, t, k, db'.rows[(t, k)]) {
      assert Lives(db.orgs, t, k, db.rows[(t, k)]);
      var org, id :| org in db.orgs && k == Key(org, id) && Filed(t, org, id, db.rows[(t, k)]);
      assert org in db'.orgs;
    }
  }

  lemma DeleteOrgOwned(db: Redb.Db, org: string)
    requires Owned(db)
    ensures Owned(Redb.WithoutOrg(db, org))
  {
    var db' := Redb.WithoutOrg(db, org);
    forall t, k | (t, k) in db'.rows && t != Audit ensures Lives(db'.orgs, t, k, db'.rows[(t, k)]) {
      assert Lives(db.orgs, t, k, db.rows[(t, k)]);
      var o, id :| o in db.orgs && k == Key(o, id) && Filed(t, o, id, db.rows[(t, k)]);
      if o == org { PrefixExact(o, id, org); }
      assert o in db'.orgs;
    }
  }

  /** A row found under a live key is filed there. */
  lemma FoundRow(db: Redb.Db, t: Table, org: string, id: string)
    requires Owned(db) && t in {Tokens, Sinks, Idps} && (t, Key(org, id)) in db.rows
    ensures var row := db.rows[(t, Key(org, id))];
            Fits(t, row) && Home(row).0 in db.orgs && Key(Home(row).0, Home(row).1) == Key(org, id)
            && Filed(t, Home(row).0, Home(row).1, row)
  {
    assert Lives(db.orgs, t, Key(org, id), db.rows[(t, Key(org, id))]);
  }

  /** The row under an organization's key is filed there. */
  lemma FiledAt(db: Redb.Db, t: Table, org: string, id: string)
    requires Owned(db) && NulFree(org) && t != Audit && (t, Key(org, id)) in db.rows
    ensures org in db.orgs && Filed(t, org, id, db.rows[(t, Key(org, id))])
  {
    var row := db.rows[(t, Key(org, id))];
    assert Lives(db.orgs, t, Key(org, id), row);
    var o, i :| o in db.orgs && Key(org, id) == Key(o, i) && Filed(t, o, i, row);
    KeyInjective(org, id, o, i);
  }

  lemma FormationOwned(s: Session, db: Redb.Db, op: Op)
    requires Owned(db) && (op.CreateFormation? || op.DeleteFormation?)
    ensures OwnedBackend(FormationStep(s, Redb(db), op).0)
  {
    FormationOutcome(s, db, op);
    if op.DeleteFormation? {
      DropOwned(db, {(Formations, Key(op.org, op.app))});
      DropOwned(db.(rows := db.rows - {(Formations, Key(op.org, op.app))}), {(Genesis, Key(op.org, op.app))});
    } else {
      var stored := StoredGenesis(s, op.genesis, op.coins);
      if op.org in db.orgs && stored.Ok? {
        var f := FormationConfig(op.app, op.genesis.meshId, op.policy);
        PutOwned(db, Formations, op.org, op.app, FormationRow(f));
        PutOwned(db.(rows := db.rows[(Formations, Key(op.org, op.app)) := FormationRow(f)]),
                 Genesis, op.org, op.app, GenesisRow(stored.value));
      }
    }
  }

  lemma ChangeTokenOwned(db: Redb.Db, op: Op)
    requires Owned(db) && (op.RevokeToken? || op.ConsumeToken?)
    ensures OwnedBackend(ChangeToken(Redb(db), op).0)
  {
    if (Tokens, Key(op.org, op.id)) in db.rows {
      FoundRow(db, Tokens, op.org, op.id);
      var token := db.rows[(Tokens, Key(op.org, op.id))].token;
      PutOwned(db, Tokens, token.orgId, token.tokenId, TokenRow(token.(revoked := true)));
      PutOwned(db, Tokens, token.orgId, token.tokenId, TokenRow(Consumed(token)));
    }
  }

  lemma ToggledOwned(db: Redb.Db, op: Op)
    requires Owned(db) && op.Toggle?
    ensures OwnedBackend(Toggled(Redb(db), op).0)
  {
    if op.t in {Sinks, Idps} && (op.t, Key(op.org, op.id)) in db.rows {
      FoundRow(db, op.t, op.org, op.id);
      var row := db.rows[(op.t, Key(op.org, op.id))];
      PutOwned(db, op.t, Home(row).0, Home(row).1, SetEnabled(row, op.enabled));
    }
  }

  lemma CreateRowOwned(db: Redb.Db, op: Op)
    requires Owned(db) && CreatesRow(op)
    ensures OwnedBackend(CreateRow(Redb(db), op).0)
  {
    CreateRowOutcome(db, op);
    if op.org in db.orgs { PutOwned(db, NewRow(op).0, op.org, op.id, NewRow(op).1); }
  }

  lemma OrgStepOwned(db: Redb.Db, op: Op)
    requires Owned(db) && (op.CreateOrg? || op.UpdateOrg? || op.DeleteOrg?)
    ensures OwnedBackend(OrgStep(Redb(db), op).0)
  {
    match op {
      case CreateOrg(org, name, now) =>
        if ValidIdentifier(org) { SetOrgOwned(db, Organization(org, name, DEFAULT_QUOTAS, now)); }
      case UpdateOrg(org, name, quotas) =>
        var reply := OrgStep(Redb(db), op).1;
        if reply.Ok? { SetOrgOwned(db, reply.value.o); }
      case DeleteOrg(org) => DeleteOrgOwned(db, org);
      case _ =>
    }
  }

  /** Whatever the arguments, no manager call leaves a row without a live organization. */
  lemma StepOwned(s: Session, db: Redb.Db, op: Op)
    requires Owned(db)
    ensures OwnedBackend(Step(s, Redb(db), op).0)
  {
    if ReadsOnly(op) {
    } else if CreatesRow(op) {
      CreateRowOwned(db, op);
    } else if op.CreateFormation? || op.DeleteFormation? {
      FormationOwned(s, db, op);
    } else if op.RevokeToken? || op.ConsumeToken? {
      ChangeTokenOwned(db, op);
    } else if op.Toggle? {
      ToggledOwned(db, op);
    } else if op.Delete? {
      DropOwned(db, {(op.t, Key(op.org, op.id))});
    } else if op.AppendAudit? || op.SetCursor? {
      assert Owned(Step(s, Redb(db), op).0.db);
    } else {
      OrgStepOwned(db, op);
    }
  }

  lemma {:induction false} RunOwned(db: Redb.Db, calls: seq<Call>)
    requires Owned(db)
    ensures OwnedBackend(Run(Redb(db), calls).0)
    decreases |calls|
  {
    if calls != [] {
      StepOwned(calls[0].s, db, calls[0].op);
      RunOwned(Step(calls[0].s, Redb(db), calls[0].op).0.db, calls[1..]);
    }
  }

  lemma FiledEntryIsUnder(orgs: map<string, Organization>, k: string, row: Row)
    requires FiledEntry(orgs, k, row)
    ensures Under(orgs, k)
  {
    AuditKeyNested(row.entry);
    assert k == Key(row.entry.orgId, AuditId(row.entry));
  }

  lemma PurgedLogs(db: Redb.Db, org: string)
    requires Owned(db) && LogsOwned(db)
    ensures LogsOwned(Redb.WithoutOrg(db, org))
  {
    var db' := Redb.WithoutOrg(db, org);
    forall k | k in db'.cursors ensures Under(db'.orgs, k) {
      assert Under(db.orgs, k);
      var o, id :| o in db.orgs && k == Key(o, id);
      if o == org { PrefixExact(o, id, org); }
      assert o in db'.orgs;
    }
    forall k | (Audit, k) in db'.rows ensures FiledEntry(db'.orgs, k, db'.rows[(Audit, k)]) {
      var e := db.rows[(Audit, k)].entry;
      AuditKeyNested(e);
      if e.orgId == org { PrefixExact(e.orgId, AuditId(e), org); }
    }
  }

  /** No organization lost, and the audit table and the cursors as before. */
  ghost predicate SameLogs(db: Redb.Db, b: Backend)
  {
    b.Redb? && b.db.cursors == db.cursors && db.orgs.Keys <= b.db.orgs.Keys
    && forall k :: ((Audit, k) in b.db.rows <==> (Audit, k) in db.rows)
                   && ((Audit, k) in db.rows ==> b.db.rows[(Audit, k)] == db.rows[(Audit, k)])
  }

  lemma UnderGrows(orgs: map<string, Organization>, orgs': map<string, Organization>, k: string)
    requires Under(orgs, k) && orgs.Keys <= orgs'.Keys
    ensures Under(orgs', k)
  {
    var o, id :| o in orgs && k == Key(o, id);
    assert o in orgs'.Keys;
  }

  lemma SameLogsOwned(db: Redb.Db, b: Backend)
    requires LogsOwned(db) && SameLogs(db, b)
    ensures LogsOwned(b.db)
  {
    forall k | k in db.cursors ensures Under(b.db.orgs, k) { UnderGrows(db.orgs, b.db.orgs, k); }
    forall k | (Audit, k) in db.rows ensures FiledEntry(b.db.orgs, k, db.rows[(Audit, k)]) { }
  }

  lemma AppendLogsOwned(db: Redb.Db, e: AuditEntry)
    requires LogsOwned(db) && e.orgId in db.orgs
    ensures LogsOwned(db.(rows := db.rows[(Audit, AuditKey(e.orgId, e.timestampMs, e.auditId)) := AuditRow(e)]))
  {
    assert FiledEntry(db.orgs, AuditKey(e.orgId, e.timestampMs, e.auditId), AuditRow(e));
  }

  lemma CursorLogsOwned(db: Redb.Db, org: string, app: string, doc: string, hash: string)
    requires LogsOwned(db) && org in db.orgs
    ensures LogsOwned(db.(cursors := db.cursors[CursorKey(org, app, doc) := hash]))
  {
    CursorKeyNested(org, app, doc);
    assert Under(db.orgs, Key(org, Key(app, doc)));
  }

  lemma CreateRowSameLogs(db: Redb.Db, op: Op)
    requires CreatesRow(op)
    ensures SameLogs(db, CreateRow(Redb(db), op).0)
  {
    CreateRowOutcome(db, op);
    assert NewRow(op).0 != Audit;
  }

  lemma WriteFormationSameLogs(db: Redb.Db, org: string, f: FormationConfig, stored: bytes)
    ensures SameLogs(db, WriteFormation(Redb(db), org, f, stored).0)
  {
  }

  lemma DeleteFormationSameLogs(db: Redb.Db, org: string, app: string)
    ensures SameLogs(db, Redb(db).Delete(Formations, org, app).Delete(Genesis, org, app))
  {
  }

  lemma FormationSameLogs(s: Session, db: Redb.Db, op: Op)
    requires op.CreateFormation? || op.DeleteFormation?
    ensures SameLogs(db, FormationStep(s, Redb(db), op).0)
  {
    FormationOutcome(s, db, op);
    if op.DeleteFormation? {
      DeleteFormationSameLogs(db, op.org, op.app);
    } else {
      var stored := StoredGenesis(s, op.genesis, op.coins);
      if stored.Ok? {
        WriteFormationSameLogs(db, op.org, FormationConfig(op.app, op.genesis.meshId, op.policy), stored.value);
      }
    }
  }

  lemma OrgStepSameLogs(db: Redb.Db, op: Op)
    requires op.CreateOrg? || op.UpdateOrg?
    ensures SameLogs(db, OrgStep(Redb(db), op).0)
  {
  }

  lemma PutSameLogs(db: Redb.Db, t: Table, key: string, row: Row)
    requires t != Audit
    ensures SameLogs(db, Redb(db.(rows := db.rows[(t, key) := row])))
  {
  }

  lemma DropSameLogs(db: Redb.Db, t: Table, key: string)
    requires t != Audit
    ensures SameLogs(db, Redb(db.(rows := db.rows - {(t, key)})))
  {
  }

  lemma ChangeTokenSameLogs(db: Redb.Db, op: Op)
    requires op.RevokeToken? || op.ConsumeToken?
    ensures SameLogs(db, ChangeToken(Redb(db), op).0)
  {
    if (Tokens, Key(op.org, op.id)) in db.rows && db.rows[(Tokens, Key(op.org, op.id))].TokenRow? {
      var token := db.rows[(Tokens, Key(op.org, op.id))].token;
      PutSameLogs(db, Tokens, Key(token.orgId, token.tokenId), TokenRow(token.(revoked := true)));
      PutSameLogs(db, Tokens, Key(token.orgId, token.tokenId), TokenRow(Consumed(token)));
    }
  }

  lemma ToggledSameLogs(db: Redb.Db, op: Op)
    requires op.Toggle?
    ensures SameLogs(db, Toggled(Redb(db), op).0)
  {
    if op.t in {Sinks, Idps} && (op.t, Key(op.org, op.id)) in db.rows {
      var row := db.rows[(op.t, Key(op.org, op.id))];
      PutSameLogs(db, op.t, Key(Home(row).0, Home(row).1), SetEnabled(row, op.enabled));
    }
  }

  lemma DropRowSameLogs(db: Redb.Db, op: Op)
    requires op.Delete?
    ensures SameLogs(db, DropRow(Redb(db), op).0)
  {
    if op.t != Audit { DropSameLogs(db, op.t, Key(op.org, op.id)); }
  }

  lemma NoNewLogs(s: Session, db: Redb.Db, op: Op)
    requires !op.DeleteOrg? && !op.AppendAudit? && !op.SetCursor?
    ensures SameLogs(db, Step(s, Redb(db), op).0)
  {
    if ReadsOnly(op) {
    } else if CreatesRow(op) {
      CreateRowSameLogs(db, op);
    } else if op.CreateFormation? || op.DeleteFormation? {
      FormationSameLogs(s, db, op);
    } else if op.RevokeToken? || op.ConsumeToken? {
      ChangeTokenSameLogs(db, op);
    } else if op.Toggle? {
      ToggledSameLogs(db, op);
    } else if op.Delete? {
      DropRowSameLogs(db, op);
    } else {
      OrgStepSameLogs(db, op);
    }
  }

  lemma QuietStepLogsOwned(s: Session, db: Redb.Db, op: Op)
    requires LogsOwned(db) && !op.DeleteOrg? && !op.AppendAudit? && !op.SetCursor?
    ensures var b := Step(s, Redb(db), op).0; b.Redb? && LogsOwned(b.db)
  {
    NoNewLogs(s, db, op);
    SameLogsOwned(db, Step(s, Redb(db), op).0);
  }

  lemma LoudStep(s: Session, db: Redb.Db, op: Op)
    ensures op.DeleteOrg? ==> Step(s, Redb(db), op).0 == Redb(Redb.WithoutOrg(db, op.org))
    ensures op.AppendAudit? ==> var e := op.entry;
              Step(s, Redb(db), op).0
              == Redb(db.(rows := db.rows[(Audit, AuditKey(e.orgId, e.timestampMs, e.auditId)) := AuditRow(e)]))
    ensures op.SetCursor? ==>
              Step(s, Redb(db), op).0 == Redb(db.(cursors := db.cursors[CursorKey(op.org, op.app, op.doc) := op.hash]))
  {
  }

  lemma LoudStepLogsOwned(s: Session, db: Redb.Db, op: Op)
    requires Owned(db) && LogsOwned(db) && LiveWrites(db, op)
    requires op.DeleteOrg? || op.AppendAudit? || op.SetCursor?
    ensures var b := Step(s, Redb(db), op).0; b.Redb? && LogsOwned(b.db)
  {
    LoudStep(s, db, op);
    if op.DeleteOrg? {
      PurgedLogs(db, op.org);
    } else if op.AppendAudit? {
      AppendLogsOwned(db, op.entry);
    } else {
      CursorLogsOwned(db, op.org, op.app, op.doc, op.hash);
    }
  }

  lemma StepLogsOwned(s: Session, db: Redb.Db, op: Op)
    requires Owned(db) && LogsOwned(db) && LiveWrites(db, op)
    ensures var b := Step(s, Redb(db), op).0; b.Redb? && LogsOwned(b.db)
  {
    if op.DeleteOrg? || op.AppendAudit? || op.SetCursor? {
      LoudStepLogsOwned(s, db, op);
    } else {
      QuietStepLogsOwned(s, db, op);
    }
  }

  lemma KeyIsUnder(orgs: map<string, Organization>, org: string, id: string)
    requires NulFree(org) && forall o :: o in orgs ==> NulFree(o)
    ensures Under(orgs, Key(org, id)) <==> org in orgs
  {
    if Under(orgs, Key(org, id)) {
      var o, i :| o in orgs && Key(org, id) == Key(o, i);
      KeyInjective(org, id, o, i);
    }
  }

  /** An audit entry or cursor written under a NUL-free id keeps the logs owned exactly when the
      organization is live; the source does not look. */
  lemma WriteKeepsLogsOwnedIff(s: Session, db: Redb.Db, op: Op)
    requires Owned(db) && LogsOwned(db) && (op.AppendAudit? || op.SetCursor?)
    requires NulFree(if op.AppendAudit? then op.entry.orgId else op.org)
    ensures var b := Step(s, Redb(db), op).0; b.Redb? && (LogsOwned(b.db) <==> LiveWrites(db, op))
  {
    LoudStep(s, db, op);
    var db' := Step(s, Redb(db), op).0.db;
    if LiveWrites(db, op) {
      LoudStepLogsOwned(s, db, op);
    } else if op.AppendAudit? {
      var e := op.entry;
      assert !FiledEntry(db'.orgs, AuditKey(e.orgId, e.timestampMs, e.auditId), AuditRow(e));
    } else {
      CursorKeyNested(op.org, op.app, op.doc);
      KeyIsUnder(db'.orgs, op.org, Key(op.app, op.doc));
      assert Key(op.org, Key(op.app, op.doc)) in db'.cursors;
    }
  }

  ghost predicate LiveRun(db: Redb.Db, calls: seq<Call>)
    decreases |calls|
  {
    calls == [] || (LiveWrites(db, calls[0].op)
                    && var b := Step(calls[0].s, Redb(db), calls[0].op).0;
                       b.Redb? && LiveRun(b.db, calls[1..]))
  }

  /** Audit entries and cursors belong to live organizations now and after each call. */
  ghost predicate AlwaysLogsOwned(db: Redb.Db, calls: seq<Call>)
    decreases |calls|
  {
    LogsOwned(db)
    && (calls == [] || (var b := Step(calls[0].s, Redb(db), calls[0].op).0; b.Redb? && AlwaysLogsOwned(b.db, calls[1..])))
  }

  predicate NulFreeWrite(op: Op)
  {
    (op.AppendAudit? ==> NulFree(op.entry.orgId)) && (op.SetCursor? ==> NulFree(op.org))
  }

  lemma StepLogsOwnedIff(s: Session, db: Redb.Db, op: Op)
    requires Owned(db) && LogsOwned(db) && NulFreeWrite(op)
    ensures var b := Step(s, Redb(db), op).0; b.Redb? && Owned(b.db) && (LogsOwned(b.db) <==> LiveWrites(db, op))
  {
    StepOwned(s, db, op);
    if op.AppendAudit? || op.SetCursor? { WriteKeepsLogsOwnedIff(s, db, op); } else { StepLogsOwned(s, db, op); }
  }

  /** Over every run that is so exactly if all audit and cursor writes were for live organizations. */
  lemma {:induction false} RunLogsOwnedIff(db: Redb.Db, calls: seq<Call>)
    requires Owned(db) && LogsOwned(db) && forall i :: 0 <= i < |calls| ==> NulFreeWrite(calls[i].op)
    ensures AlwaysLogsOwned(db, calls) <==> LiveRun(db, calls)
    decreases |calls|
  {
    if calls != [] {
      StepLogsOwnedIff(calls[0].s, db, calls[0].op);
      var db' := Step(calls[0].s, Redb(db), calls[0].op).0.db;
      if LogsOwned(db') { RunLogsOwnedIff(db', calls[1..]); }
    }
  }

  // --- The cascade ---

  /** Nothing is stored for the organization. */
  ghost predicate Vacant(db: Redb.Db, org: string)
  {
    (forall t, id :: (t, Key(org, id)) !in db.rows) && (forall id :: Key(org, id) !in db.cursors)
  }

  /** An organization id that is not live, in particular one deleted earlier, has no rows in any
      table, so a re-created organization starts empty. */
  lemma DeadOrgIsVacant(db: Redb.Db, org: string)
    requires Owned(db) && LogsOwned(db) && NulFree(org) && org !in db.orgs
    ensures Vacant(db, org)
  {
    forall id ensures !Under(db.orgs, Key(org, id)) {
      forall o, i | o in db.orgs ensures Key(org, id) != Key(o, i) {
        if Key(org, id) == Key(o, i) { KeyInjective(org, id, o, i); }
      }
    }
    forall t, id ensures (t, Key(org, id)) !in db.rows && Key(org, id) !in db.cursors {
      assert !Under(db.orgs, Key(org, id));
      if (t, Key(org, id)) in db.rows { RowIsUnder(db, t, Key(org, id)); }
    }
  }

  lemma RowIsUnder(db: Redb.Db, t: Table, k: string)
    requires Owned(db) && LogsOwned(db) && (t, k) in db.rows
    ensures Under(db.orgs, k)
  {
    if t == Audit {
      FiledEntryIsUnder(db.orgs, k, db.rows[(t, k)]);
    } else {
      assert Lives(db.orgs, t, k, db.rows[(t, k)]);
    }
  }

  /** create_org finds nothing left over from an earlier organization of that id. */
  lemma CreatedOrgStartsEmpty(s: Session, db: Redb.Db, op: Op)
    requires Owned(db) && LogsOwned(db) && op.CreateOrg? && Step(s, Redb(db), op).1.Ok?
    ensures var b := Step(s, Redb(db), op).0; b.Redb? && op.org in b.db.orgs && Vacant(b.db, op.org)
  {
    DeadOrgIsVacant(db, op.org);
  }

  /** Every other organization keeps all its rows and cursors. */
  ghost predicate SparesOthers(db: Redb.Db, org: string)
  {
    var after := Redb.WithoutOrg(db, org);
    && (forall t, o, id :: o in db.orgs && o != org && (t, Key(o, id)) in db.rows ==>
          (t, Key(o, id)) in after.rows && after.rows[(t, Key(o, id))] == db.rows[(t, Key(o, id))])
    && (forall o, id :: o in db.orgs && o != org && Key(o, id) in db.cursors ==>
          Key(o, id) in after.cursors && after.cursors[Key(o, id)] == db.cursors[Key(o, id)])
  }

  /** `delete_org` leaves nothing of its organization and touches nobody else's rows. */
  lemma DeleteOrgExact(db: Redb.Db, org: string)
    requires Owned(db) && NulFree(org)
    ensures Vacant(Redb.WithoutOrg(db, org), org) && SparesOthers(db, org)
  {
    forall o, id | NulFree(o) ensures StartsWith(Key(o, id), Prefix(org)) <==> o == org {
      PrefixExact(o, id, org);
    }
  }

  /** What precedes the first NUL. */
  function Segment(s: string): string
  {
    if s == [] || s[0] == NUL then [] else [s[0]] + Segment(s[1..])
  }

  lemma {:induction false} SegmentSplits(s: string)
    ensures NulFree(Segment(s))
    ensures !NulFree(s) ==> |Segment(s)| < |s| && s == Key(Segment(s), s[|Segment(s)| + 1..])
  {
    if s == [] {
    } else if s[0] == NUL {
      assert s == Key([], s[1..]);
    } else {
      var c, t := s[0], s[1..];
      var n := |Segment(t)|;
      SegmentSplits(t);
      assert Segment(s) == [c] + Segment(t) && s == [c] + t;
      if !NulFree(s) {
        assert !NulFree(t);
        assert s[n + 2..] == t[n + 1..];
        assert Key([c] + Segment(t), t[n + 1..]) == [c] + Key(Segment(t), t[n + 1..]);
      }
    }
  }

  lemma PrefixOfPrefix(k: string, p: string, q: string)
    requires StartsWith(k, p) && StartsWith(p, q)
    ensures StartsWith(k, q)
  {
    assert k[..|q|] == k[..|p|][..|q|];
  }

  lemma SegmentPrefix(org: string)
    requires !NulFree(org)
    ensures StartsWith(Prefix(org), Prefix(Segment(org)))
  {
    SegmentSplits(org);
    var s := Segment(org);
    var rest := org[|s| + 1..];
    assert Prefix(org) == Prefix(s) + (rest + [NUL]);
  }

  lemma NoLiveKeyUnder(o: string, id: string, org: string)
    requires ValidIdentifier(o) && !NulFree(org) && !ValidIdentifier(Segment(org))
    ensures !StartsWith(Key(o, id), Prefix(org))
  {
    SegmentPrefix(org);
    SegmentSplits(org);
    PrefixExact(o, id, Segment(org));
    if StartsWith(Key(o, id), Prefix(org)) { PrefixOfPrefix(Key(o, id), Prefix(org), Prefix(Segment(org))); }
  }

  /** Exactly the ids for which `delete_org` always spares the other organizations: an id with a
      NUL is safe only if what precedes the NUL cannot name an organization. */
  lemma DeleteOrgSparesOthersIff(org: string)
    ensures (forall db :: Owned(db) && LogsOwned(db) ==> SparesOthers(db, org)) <==>
            NulFree(org) || !ValidIdentifier(Segment(org))
  {
    var s := Segment(org);
    if NulFree(org) {
      forall db | Owned(db) && LogsOwned(db) ensures SparesOthers(db, org) { DeleteOrgExact(db, org); }
    } else if ValidIdentifier(s) {
      NulIdOverreaches(org);
    } else {
      forall db | Owned(db) && LogsOwned(db) ensures SparesOthers(db, org) {
        forall o, id | o in db.orgs ensures !StartsWith(Key(o, id), Prefix(org)) { NoLiveKeyUnder(o, id, org); }
      }
    }
  }

  lemma OneCursor(org: string, id: string)
    requires ValidIdentifier(org)
    ensures var db := Redb.Db(map[org := Organization(org, "x", DEFAULT_QUOTAS, 0)], map[], map[Key(org, id) := "hash"]);
            Owned(db) && LogsOwned(db)
  {
    var db := Redb.Db(map[org := Organization(org, "x", DEFAULT_QUOTAS, 0)], map[], map[Key(org, id) := "hash"]);
    assert Under(db.orgs, Key(org, id));
  }

  lemma NestedPrefix(s: string, rest: string)
    ensures Key(s, Prefix(rest)) == Prefix(Key(s, rest))
  {
    assert Key(s, rest) + [NUL] == s + [NUL] + (rest + [NUL]);
  }

  /** A cursor of `s` under the prefix of another id goes when that id is deleted. */
  lemma CursorSwept(s: string, id: string, org: string)
    requires ValidIdentifier(s) && s != org && Key(s, id) == Prefix(org)
    ensures exists db :: Owned(db) && LogsOwned(db) && !SparesOthers(db, org)
  {
    var db := Redb.Db(map[s := Organization(s, "x", DEFAULT_QUOTAS, 0)], map[], map[Key(s, id) := "hash"]);
    OneCursor(s, id);
    assert StartsWith(Key(s, id), Prefix(org));
    assert s in db.orgs && Key(s, id) in db.cursors && Key(s, id) !in Redb.WithoutOrg(db, org).cursors;
  }

  /** Deleting an id with a NUL removes a cursor of the organization named before the NUL. */
  lemma NulIdOverreaches(org: string)
    requires !NulFree(org) && ValidIdentifier(Segment(org))
    ensures exists db :: Owned(db) && LogsOwned(db) && !SparesOthers(db, org)
  {
    SegmentSplits(org);
    var s := Segment(org);
    var rest := org[|s| + 1..];
    NestedPrefix(s, rest);
    CursorSwept(s, Prefix(rest), org);
  }
}
