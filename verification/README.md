# peat-gateway: verified model

This project models the state of the peat gateway and proves what its operations keep. It covers the
tenant store on its two backends, the tenant manager, device enrollment, the CDC watcher and its sinks, the
poller for remote brokers, the envelope format for key material, key migration, and one configuration parser.

The embedded store (`Redb`) is a set of flat tables under composite string keys; PostgreSQL (`Postgres`) is
the relational schema of the same storage trait. `Manager.Step` is one call of the tenant manager on either
backend. The classes (`Redb.RedbBackend`, `PostgresBackend.PostgresBackend`, `TenantManager.TenantManager`,
`WatcherTasks.CdcWatcher`, `Ingest.RemoteBrokerState`, `Migrate.Store`) and the methods for handlers, loops and algorithms
change state step by step as the source does. Each is proved against a function or a property, and the lemmas
reason about those functions: over every call, every run, every interleaving or every abort point.

Foreign code is a parameter with a stated law. AES-256-GCM decrypts what it encrypted and adds a 16-byte tag
(sections 7.1 and 7.2 of NIST SP 800-38D). A key provider unwraps what it wrapped, and unwraps it the same way
whenever it answers; that it may not answer is an input of a migration. The genesis codec decodes what it encoded
and never produces an envelope. Hashes are injective functions of what they digest. Clock readings, random ids,
fresh key material, network answers and storage faults are inputs of the operation that meets them. Strings are
sequences of Unicode scalar values; module `Utf8` shows that their order is the byte order redb uses.

What a reader may find surprising:

- On PostgreSQL `count_recent_enrollments` always fails, because its limit `usize::MAX` becomes `LIMIT -1`, so
  nobody can enroll there: the request ends with an internal error (`Enroll.PostgresNeverEnrolls`).
- A `list_audit` limit of 0 returns one entry on redb and none on PostgreSQL.
- `delete_org` with an id that contains NUL can remove another organization's rows.
- A removal swallows an update without fields that carries the same timestamp, so a consumer that folds the
  watcher's events keeps such a document deleted.
- A request to an open formation may present a revoked token and is enrolled all the same: open formations
  look at no credential.
- Nothing keeps an audit entry or a cursor from being written for an organization that has been deleted.
- The enrollment count is compared after truncation to 32 bits, so with a quota near 2^32 and enough concurrent
  handlers an hour can hold more entries than quota plus concurrency allows.
- A change that the engine refuses is not published again, neither by the watcher nor by the poller.
- A cursor write under way when its watcher task is aborted may still take place, even much later.
- A document whose `_id` is present but not a string has no id, even if it has a `uid`.

## Modules

| module | what it holds |
|---|---|
| `Lex`, `Utf8`, `Keys` | string order, UTF-8 order, composite keys and their laws |
| `Models` | the entities |
| `Redb`, `Postgres`, `PostgresBackend` | the two stores |
| `Manager`, `TenantManager` | the manager's calls as functions, and as they run |
| `Input`, `Calls` | what a caller may rely on, on either backend: exactly when each call succeeds, its error otherwise, and what later calls read |
| `Refinement`, `AuditRuns` | redb refines the relational schema, over whole runs, audit queries included |
| `Inverse` | what a call leaves for later ones, and which calls undo each other |
| `Ownership`, `Quotas`, `AuditLog` | invariants of the store, quotas, audit queries |
| `Policy`, `Enroll`, `Admission` | enrollment: the decision, the handler, and exactly whom it admits |
| `Tokens`, `TokenLife` | enrollment tokens over whole runs |
| `RateLimit`, `RateLimitExact` | the hourly limit under interleaved handlers |
| `Envelope`, `Migrate`, `Sealing`, `Genesis` | key material |
| `Watcher`, `Replica`, `WatcherTasks`, `Delivery` | change data capture |
| `Ingest`, `IngestRuns` | the poller for remote brokers |
| `Config` | the broker list |

## Model

| member | source | states |
|---|---|---|
| `Utf8.EncodeOrder` | src/storage/redb_backend.rs:54-102 | the UTF-8 bytes of two keys compare exactly as the keys' characters do |
| `Utf8.CharBytes` | src/tenant/manager.rs:658-658 | the UTF-8 bytes of each character, by its range |
| `Keys.KeyInjective` | src/storage/redb_backend.rs:54-97 | organization and id can be read back from a composite key when organization ids are free of NUL |
| `Keys.PrefixExact` | src/storage/redb_backend.rs:60-82 | a prefix scan sees exactly its own organization's keys, even if another id extends it |
| `Keys.CursorKeyInjective` | src/storage/redb_backend.rs:85-87 | cursor keys never collide, whatever bytes the document ids contain |
| `Keys.PaddedOrder` | src/storage/redb_backend.rs:101-101 | zero-padded decimals of one width sort as their numbers |
| `Keys.PaddedDenotes` | src/storage/redb_backend.rs:101-101 | the padded text of a number consists of decimal digits that denote it |
| `Keys.AuditKeyOrder` | src/storage/redb_backend.rs:99-102 | key order on the audit table is order on (organization, numeric timestamp, audit id), for all u64 timestamps |
| `Redb.RedbBackend.DeleteOrg` | src/storage/redb_backend.rs:161-224 | the loop over seven tables and the cursors leaves exactly the rows without the organization's prefix |
| `Redb.RedbBackend.RemoveWithPrefix` | src/storage/redb_backend.rs:181-200 | collecting keys and removing them one by one removes exactly the keys with the prefix |
| `Redb.RedbBackend.List` | src/storage/redb_backend.rs:260-277 | the scan returns the rows under the prefix in key order |
| `Redb.RedbBackend.ListTokens` | src/storage/redb_backend.rs:328-348 | the scan, filtered by application |
| `Redb.RedbBackend.ListOrgs` | src/storage/redb_backend.rs:140-154 | the organizations in key order |
| `Redb.RedbBackend.ListAuditEntries` | src/storage/redb_backend.rs:584-617 | the reverse scan that tests its limit after pushing returns the first `limit` (at least one) matches from the end |
| `Redb.RedbBackend.Insert` | src/storage/redb_backend.rs:226-241 | an insert overwrites the row under its key and nothing else |
| `Redb.RedbBackend.Remove` | src/storage/redb_backend.rs:279-293 | reports whether the row was there, and removes only it |
| `Redb.RedbBackend.AppendAudit` | src/storage/redb_backend.rs:567-582 | stores the entry under its time-ordered key |
| `Redb.RedbBackend.SetCursor` | src/storage/redb_backend.rs:689-710 | sets one cursor |
| `PostgresBackend.PostgresBackend.Create` | src/storage/postgres.rs:195-204 | an INSERT is refused without its organization or on an existing key, and otherwise adds one row |
| `PostgresBackend.PostgresBackend.DeleteOrg` | src/storage/postgres.rs:186-193 | the delete cascades through every table |
| `PostgresBackend.PostgresBackend.StoreGenesis` | src/storage/postgres.rs:530-541 | the upsert replaces or adds, and needs the organization |
| `PostgresBackend.PostgresBackend.AppendAudit` | src/storage/postgres.rs:481-494 | refused without its organization or on an existing audit id |
| `PostgresBackend.PostgresBackend.SetCursor` | src/storage/postgres.rs:580-600 | the upsert of a cursor, refused without its organization |
| `PostgresBackend.PostgresBackend.List` | src/storage/postgres.rs:225-236 | the organization's rows in the order of their ids |
| `PostgresBackend.PostgresBackend.ListTokens` | src/storage/postgres.rs:279-295 | the same, filtered by application |
| `TenantManager.TenantManager.CreateOrg` | src/tenant/manager.rs:73-96 | the method does what `Manager.Step` says of create_org |
| `TenantManager.TenantManager.UpdateOrg` | src/tenant/manager.rs:109-127 | as `Manager.Step` says of update_org |
| `TenantManager.TenantManager.DeleteOrg` | src/tenant/manager.rs:129-135 | as `Manager.Step` says of delete_org |
| `TenantManager.TenantManager.CreateFormation` | src/tenant/manager.rs:139-196 | validation, quota, uniqueness, sealing and the two writes do what `Manager.Step` says |
| `TenantManager.TenantManager.DeleteFormation` | src/tenant/manager.rs:211-218 | removes the formation with its genesis, or reports that there is none |
| `TenantManager.TenantManager.LoadGenesis` | src/tenant/manager.rs:220-252 | decrypts an envelope, passes plaintext through, decodes |
| `TenantManager.TenantManager.CreateToken` | src/tenant/manager.rs:264-305 | as `Manager.Step` says of create_token |
| `TenantManager.TenantManager.RevokeToken` | src/tenant/manager.rs:320-329 | as `Manager.Step` says of revoke_token: it succeeds exactly on a stored token that is not revoked, which then is the old one with the flag set |
| `TenantManager.TenantManager.ValidateAndConsumeToken` | src/tenant/manager.rs:344-390 | the checks in order; it succeeds exactly on a stored token of this formation that is not revoked, not expired and not exhausted, which then has one more use and is otherwise the old one |
| `TenantManager.TenantManager.CreateSink` | src/tenant/manager.rs:394-431 | as `Manager.Step` says of create_sink |
| `TenantManager.TenantManager.ToggleSink` | src/tenant/manager.rs:445-456 | as `Manager.Step` says of toggle_sink |
| `TenantManager.TenantManager.CreateIdp` | src/tenant/manager.rs:491-528 | as `Manager.Step` says of create_idp |
| `TenantManager.TenantManager.ToggleIdp` | src/tenant/manager.rs:542-548 | as `Manager.Step` says of toggle_idp |
| `TenantManager.TenantManager.CreatePolicyRule` | src/tenant/manager.rs:560-591 | as `Manager.Step` says of create_policy_rule |
| `Input.IdentifierIff` | src/tenant/manager.rs:630-652 | an id is accepted exactly if it has 1 to 128 letters, digits, dots, underscores and hyphens and starts with a letter or digit |
| `Input.BlankIff` | src/tenant/manager.rs:668-674 | a label, subject or topic counts as empty exactly if all its characters have the code points of Unicode white space |
| `Input.DisplayNameIff` | src/tenant/manager.rs:654-666 | a display name is accepted exactly if its UTF-8 form has 1 to 1024 bytes |
| `Input.SinkTypeIff` | src/tenant/manager.rs:676-697 | which webhook URLs, subjects and topics are accepted |
| `Calls.CreateOrgIff` | src/tenant/manager.rs:73-96 | when create_org succeeds, its error otherwise, the default quotas, what get_org then answers, and that other organizations stay |
| `Calls.UpdateOrgIff` | src/tenant/manager.rs:109-127 | update_org changes exactly the given fields of an existing organization |
| `Calls.DeleteOrgIff` | src/tenant/manager.rs:129-135 | delete_org reports whether the organization was there, and get_org no longer finds it |
| `Calls.ListOrgsMeaning` | src/tenant/manager.rs:105-107 | list_orgs answers with every organization once, in the order of the ids |
| `Calls.ListIff` | src/tenant/manager.rs:205-209 | list_formations, list_sinks, list_idps and list_policy_rules answer with exactly the rows of the organization, in the order of their ids, or report that it is missing |
| `Calls.ListTokensIff` | src/tenant/manager.rs:314-318 | list_tokens answers with exactly the tokens of the formation, in the order of their ids |
| `Calls.CreateFormationIff` | src/tenant/manager.rs:139-196 | when create_formation succeeds, which of its checks fails first otherwise, and the two records it leaves |
| `Calls.DeleteFormationIff` | src/tenant/manager.rs:211-218 | delete_formation removes both records of an existing formation, and changes nothing otherwise |
| `Calls.StoredGenesisMeaning` | src/tenant/manager.rs:173-183 | with encryption the stored bytes are an envelope that opens to the encoded genesis, without it the encoded genesis |
| `Calls.LoadGenesisIff` | src/tenant/manager.rs:220-252 | load_genesis decodes what lies under the envelope if encryption is on and there is one, and the stored bytes otherwise, with the error of the step that fails |
| `Calls.CreateTokenIff` | src/tenant/manager.rs:264-305 | when create_token succeeds, its error otherwise, and every field of the new token |
| `Calls.ConsumeIff` | src/tenant/manager.rs:344-390 | a token is consumed exactly if it is for this formation, not revoked, not past its expiry and has a use left; it then has one more use and is otherwise what it was; the errors in their order |
| `Calls.RevokeIff` | src/tenant/manager.rs:320-329 | revoke_token succeeds exactly on a stored token that is not revoked, changes only its flag, and is refused the second time |
| `Calls.CreateSinkIff` | src/tenant/manager.rs:394-431 | when create_sink succeeds, its error otherwise, and every field of the new sink |
| `Calls.CreateIdpIff` | src/tenant/manager.rs:491-528 | when create_idp succeeds, its error otherwise, and every field of the new provider |
| `Calls.CreateRuleIff` | src/tenant/manager.rs:560-591 | when create_policy_rule succeeds, its error otherwise, and every field of the new rule |
| `Calls.ToggleSinkIff` | src/tenant/manager.rs:445-456 | toggle_sink changes the flag of an existing sink and nothing else about it |
| `Calls.ToggleIdpIff` | src/tenant/manager.rs:542-548 | toggle_idp likewise |
| `Calls.DeleteIff` | src/tenant/manager.rs:331-337 | delete_token, delete_sink, delete_idp and delete_policy_rule report whether the row was there, and it no longer is |
| `Calls.AppendAuditIff` | src/tenant/manager.rs:608-610 | an audit entry is stored as it is; PostgreSQL takes it for a live organization and a new id only |
| `Calls.CursorIff` | src/tenant/manager.rs:468-485 | a cursor is read as it was last set; PostgreSQL takes it for live organizations only |
| `Inverse.DeleteUndoesCreateOrg` | src/tenant/manager.rs:73-135 | delete_org after create_org leaves the store as it was |
| `Inverse.CreatedGenesisIsLoaded` | src/tenant/manager.rs:173-252 | load_genesis after create_formation returns the very genesis, sealed or not |
| `Inverse.DeleteUndoesCreateFormation` | src/tenant/manager.rs:139-218 | delete_formation undoes create_formation |
| `Inverse.CreatedRowIsFound` | src/tenant/manager.rs:264-312 | a created token, sink, provider or rule is found under its id, and no other row changes |
| `Inverse.DeleteUndoesCreateRow` | src/tenant/manager.rs:331-337 | deleting it again leaves the store as it was |
| `Inverse.ToggleUndoesToggle` | src/tenant/manager.rs:445-456 | toggling back restores the store |
| `Refinement.ListingById` | src/storage/redb_backend.rs:403-419 | a prefix scan returns exactly the organization's rows, in the order of their ids |
| `Refinement.SameListing` | src/storage/postgres.rs:225-236 | a prefix scan and SELECT ... ORDER BY return the same sequence on related stores |
| `Refinement.DeleteOrgRelated` | src/storage/postgres.rs:186-193 | the prefix cascade is the SQL cascade |
| `Refinement.StepAgrees` | src/storage/mod.rs:14-85 | one manager call other than list_audit gives one reply on related stores, and related stores again |
| `Refinement.BackendsAgree` | src/storage/mod.rs:14-85 | from empty stores, every admissible run of such calls gives the same replies on redb and PostgreSQL |
| `AuditRuns.AdmissibleRunIsLive` | src/tenant/manager.rs:73-606 | an admissible run writes audit entries and cursors only for live organizations |
| `AuditRuns.BackendsAgreeOnRunsIff` | src/storage/postgres.rs:496-526 | from empty stores, with list_audit among the calls, redb's answers to an admissible run are answers PostgreSQL may give exactly if every query for a live organization has a limit from 1 to 2^63 - 1, or 0 when nothing matches |
| `AuditRuns.AnswersAgree` | src/storage/postgres.rs:496-526 | whatever PostgreSQL answers to such a run, redb's answers differ from it at most in entries that tie with the last one listed |
| `Ownership.StepOwned` | src/tenant/manager.rs:73-606 | no manager call, whatever its arguments, leaves a row without a live organization |
| `Ownership.RunOwned` | src/tenant/manager.rs:73-606 | the same over every run |
| `Ownership.WriteKeepsLogsOwnedIff` | src/storage/redb_backend.rs:567-582 | an audit entry or cursor written under a NUL-free id leaves these with live organizations exactly if its organization is live |
| `Ownership.RunLogsOwnedIff` | src/storage/redb_backend.rs:567-582 | over every run, all audit entries and cursors are of live organizations after each call exactly if each was written for a live one |
| `Ownership.DeadOrgIsVacant` | src/storage/redb_backend.rs:161-224 | an organization id that is not live has no row in any table |
| `Ownership.CreatedOrgStartsEmpty` | src/tenant/manager.rs:73-96 | a created organization, in particular a re-created one, starts empty |
| `Ownership.DeleteOrgExact` | src/storage/redb_backend.rs:161-224 | delete_org leaves nothing of its organization, and every row and cursor of the others |
| `Ownership.DeleteOrgSparesOthersIff` | src/storage/redb_backend.rs:164-178 | delete_org spares the others in every store exactly if the id is free of NUL, or what precedes its NUL cannot name an organization |
| `Ownership.NulIdOverreaches` | src/storage/redb_backend.rs:164-178 | an id with a NUL after a valid name removes a cursor of the organization so named |
| `Quotas.CheckNeverWraps` | src/tenant/manager.rs:152-152 | the `len() as u32` of the quota checks is the exact number of rows |
| `Quotas.StepWithin` | src/tenant/manager.rs:150-163 | one manager call keeps every organization within the largest quota it has had |
| `Quotas.QuotasHoldFromEmpty` | src/tenant/manager.rs:398-408 | so does every run, for formations and for sinks |
| `Quotas.QuotaUpdateKeepsRows` | src/tenant/manager.rs:109-127 | lowering a quota removes nothing |
| `AuditLog.ListAuditMeaning` | src/storage/redb_backend.rs:584-617 | list_audit returns exactly the newest entries that match, newest first, for every limit (0 acting as 1) |
| `AuditLog.BackendsAgreeOnAudit` | src/storage/postgres.rs:496-526 | redb's answer is one PostgreSQL may give exactly for limits 1 to 2^63 - 1, and 0 when nothing matches |
| `AuditLog.AnswersAgreeUpToTies` | src/storage/postgres.rs:496-526 | any two answers to one query have one length and the same timestamps at every position |
| `AuditLog.CountRecentEnrollments` | src/tenant/manager.rs:254-260 | the filter-and-count loop over the listing |
| `AuditLog.CountRecentMeaning` | src/tenant/manager.rs:254-260 | on redb the count is the number of the organization's entries since the instant (up to usize::MAX) |
| `AuditLog.CountRecentFailsOnPostgres` | src/storage/postgres.rs:512-518 | on PostgreSQL the same call always fails |
| `Policy.EvaluatePolicy` | src/api/enroll.rs:396-431 | the sort and the early-returning loop decide as the rule of least priority number that applies, the earliest of those, or Endpoint without permissions if none does |
| `Policy.MatchesIff` | src/api/enroll.rs:403-418 | a rule matches exactly if its value is among the texts that the claim under its key carries: a string itself, a boolean "true" or "false", a number its text, an array its strings, anything else none |
| `Policy.SortedScanFindsWinner` | src/api/enroll.rs:400-424 | the first match after sorting is the rule of least priority number among those that apply, the earliest of them |
| `Policy.DecideIsBest` | src/api/enroll.rs:396-431 | on the store's listing the decision is that of the rule with least (priority, rule id) among those that apply, or Endpoint without permissions |
| `Policy.OtherRulesDoNotMatter` | src/api/enroll.rs:396-431 | adding or deleting rules that do not apply or come later changes no decision |
| `Policy.UnmatchedRulesDoNotMatter` | src/api/enroll.rs:426-430 | without a match every store decides the default |
| `Enroll.PassGate` | src/api/enroll.rs:64-93 | existence, public key, rate limit, strict policy, in this order |
| `Enroll.IdentifyDevice` | src/api/enroll.rs:96-165 | the decision, consuming an enrollment token on the way |
| `Enroll.EnrollDevice` | src/api/enroll.rs:58-210 | the handler on the store does what function `Enroll.Enroll` says |
| `Enroll.EnrollsOnRedb` | src/api/enroll.rs:58-210 | the handler over either backend, with the outcome of the count as a result, is that function on redb |
| `Enroll.PostgresNeverEnrolls` | src/api/enroll.rs:77-80 | on PostgreSQL, whatever the store and the request, nobody is enrolled and nothing is stored; a request that reaches the count is answered with an internal error |
| `Admission.BearerIff` | src/api/enroll.rs:287-298 | the credential is the token of a Bearer header, or else the one in the body |
| `Admission.KeyFineIff` | src/api/enroll.rs:275-285 | a public key passes exactly if it has 64 hexadecimal digits |
| `Admission.FirstIdpIff` | src/api/enroll.rs:133-139 | the provider asked is the enabled one of the organization with the least id |
| `Admission.ControlledNeedsCredential` | src/api/enroll.rs:98-162 | a controlled formation identifies a request exactly if it presents a token of the formation that can be consumed, or a credential that the first enabled provider confirmed; with the decision, provider and subject of each, and the status otherwise |
| `Admission.EnrolledIff` | src/api/enroll.rs:58-210 | a request is enrolled exactly if its formation exists, its public key is fine, the hour has room, and the formation is open, or controlled and the request credentialed; the reply and the audit entry tell decision, provider and subject; otherwise nothing changes and the status is that of the first check that fails |
| `Admission.CreatedRuleDecides` | src/tenant/manager.rs:560-591 | after create_policy_rule, claims that carry its value get its tier and permissions, unless another rule that applies comes before it |
| `Tokens.TokensConserved` | src/tenant/manager.rs:344-390 | in every reachable state a token's counter is the number of audit entries booked on it and of those whose append failed: exact and at most `max_uses` if that is set, modulo 2^32 otherwise; under a `max_uses` it is the number of entries exactly if none was lost |
| `Tokens.RunKeeps` | src/api/enroll.rs:104-128 | the tally is kept by every run of enrollments and manager calls |
| `Tokens.NothingLost` | src/api/enroll.rs:167-173 | none is lost in a run without failing appends |
| `Tokens.ApprovalsAreLogged` | src/api/enroll.rs:167-194 | the log grows by one entry for each approved enrollment whose append succeeds, and by no other |
| `Tokens.DoAdvances` | src/tenant/manager.rs:351-380 | no act lowers a counter, and only an enrollment the token admits raises it, by one, whether or not its entry can be appended |
| `Tokens.DeadTokensStayFixed` | src/tenant/manager.rs:355-367 | a revoked or expired token keeps its counter for the rest of every run |
| `TokenLife.EntriesAreForTheirFormation` | src/tenant/manager.rs:351-353 | in every reachable state each audit entry booked on a live token is for the formation of the token |
| `TokenLife.RevocationIsFinal` | src/tenant/manager.rs:320-329 | a successful revocation leaves the token as it was, revoked; a second one is refused; and after every orderly run from there the token cannot be consumed, enrolls nobody but where the formation is open, and has the same counter, until it is deleted and after |
| `RateLimit.SlidingWindowLimit` | src/api/enroll.rs:77-173 | with at most k interleaved handlers between count and append, every closed window of 3 600 000 ms holds at most quota + k - 1 entries, and none under a quota of 0, even when a count lags behind its clock reading and entries are appended long after their timestamps were taken |
| `RateLimit.NextKeeps` | src/api/enroll.rs:77-173 | the invariant behind it, for each action of handlers, administrators and clock: the entries of an hour, the timestamps taken in it and not yet appended, and the handlers that may still take one there are within the bound |
| `RateLimit.StampKeeps` | src/api/enroll.rs:447-464 | taking the timestamp moves a handler's reserved place into the hours that hold it |
| `RateLimit.AppendKeeps` | src/api/enroll.rs:167-173 | a late append fills the place its timestamp reserved |
| `RateLimit.GateCounts` | src/api/enroll.rs:78-86 | a request that passes the gate finds fewer recent entries than the quota |
| `RateLimit.UninterruptedHandler` | src/api/enroll.rs:58-210 | the interleaved handler, left alone, is the handler of module `Enroll` |
| `RateLimitExact.LimitHoldsIff` | src/api/enroll.rs:84-84 | the limit holds for all runs exactly if the quota is 0 or quota + k is at most 2^32 |
| `RateLimitExact.OverfullHour` | src/api/enroll.rs:84-84 | otherwise a run exists that overfills an hour, because 2^32 entries count as none |
| `Envelope.SealEnvelope` | src/crypto/mod.rs:79-111 | the bytes of an envelope: "PENV", 1, the length of the wrapped key in two bytes, low byte first, the wrapped key, the nonce, the ciphertext; and the error of the step that fails |
| `Envelope.ParseLayout` | src/crypto/mod.rs:178-205 | parsing a printed envelope gives its three parts back |
| `Envelope.LayoutParse` | src/crypto/mod.rs:57-69 | printing a parsed version-1 envelope gives its bytes back |
| `Envelope.ValidEnvelopes` | src/crypto/mod.rs:178-205 | the parser accepts exactly what the printer prints |
| `Envelope.OpenSeal` | src/crypto/mod.rs:178-221 | `open` of `seal` returns the plaintext whenever the provider unwraps what it wrapped |
| `Envelope.OpenNone` | src/crypto/mod.rs:182-185 | `open` hands the data back exactly if it does not start with "PENV" or has fewer than 7 bytes |
| `Envelope.OpenErrors` | src/crypto/mod.rs:178-221 | what `open` makes of any other data: the error for another version, missing bytes, a key that does not unwrap or has the wrong length, a failing decryption, or the plaintext |
| `Envelope.WrapDek` | src/crypto/local.rs:57-70 | nonce, then ciphertext; or the wrapping error |
| `Envelope.LocalFaithful` | src/crypto/local.rs:57-81 | the local provider meets the provider contract, with blobs of 60 bytes |
| `Envelope.LocalUnwraps` | src/crypto/local.rs:72-81 | a blob shorter than nonce and tag is refused, any other is decrypted under its nonce |
| `Migrate.Store.MigrateKeys` | src/cli.rs:19-105 | on either backend the nested loops with their counters do what function `Migrate.Migration` says, wherever a listing, a read, the key provider or a write fails |
| `Migrate.Store.VisitRecord` | src/cli.rs:46-86 | one record: skip, count, seal, check the round trip, overwrite |
| `Migrate.MigrationAgrees` | src/cli.rs:27-88 | on redb and PostgreSQL stores that hold the same, a migration reports the same and leaves the same, wherever it stops |
| `Migrate.MigrationKeepsMeaning` | src/cli.rs:69-83 | wherever a run stops, every formation loads the same bytes as before and only genesis records changed, for any key provider that unwraps a key the same way whenever it answers |
| `Migrate.MeaningIsLoaded` | src/tenant/manager.rs:231-252 | those bytes are what load_genesis decodes with encryption enabled |
| `Migrate.CompletedRunSealsAll` | src/cli.rs:42-88 | a completed run leaves every listed formation's present genesis sealed |
| `Migrate.SecondRunIsIdle` | src/cli.rs:56-59 | a second run changes nothing, and finds sealed all that the first sealed or found sealed |
| `Migrate.CountersAddUp` | src/cli.rs:31-34 | migrated, already encrypted and missing add up to total, the number of formations |
| `Migrate.DryRunPredicts` | src/cli.rs:61-68 | a dry run changes nothing and reports what a completed run reports |
| `Migrate.MigrationCompletes` | src/cli.rs:70-86 | with a working provider and no fault a run completes |
| `Sealing.AllTargetsIff` | src/cli.rs:36-44 | the run visits exactly the formations of the organizations |
| `Sealing.CompletedRunMeans` | src/cli.rs:42-88 | a completed run leaves the genesis of every formation in an envelope, with the same bytes to load |
| `Sealing.CountersAreCensus` | src/cli.rs:31-90 | a run that completes, dry or not, reports how many genesis records it found missing, in an envelope and plain |
| `Genesis.GenesisAgrees` | src/tenant/manager.rs:139-252 | in every reachable state of either backend a formation exists exactly when its genesis does, and loads a genesis with its mesh id |
| `Genesis.LoadedGenesisNeverChanges` | src/tenant/manager.rs:220-252 | while a formation exists its genesis stays the same, through calls, the switch to encryption, and migrations |
| `Watcher.HashFields` | src/cdc/watcher.rs:240-258 | the hash does not depend on the order in which the map yields its keys |
| `Watcher.HashDetermines` | src/cdc/watcher.rs:240-258 | equal hashes mean equal document, fields and timestamp |
| `Watcher.HandleChange` | src/cdc/watcher.rs:77-205 | one change: read the cursor, skip or publish, write the cursor, whatever fails; the published event carries the document, its fields or `{"_deleted": true}`, actor, timestamp and hash of the change |
| `Watcher.WatchLoop` | src/cdc/watcher.rs:76-207 | the event loop over a whole stream; every published event tells one of its changes |
| `Watcher.DocumentsAreIndependent` | src/cdc/watcher.rs:76-207 | a document's published log and final cursor depend only on its own changes |
| `Watcher.PublishesDeduplicated` | src/cdc/watcher.rs:92-104 | without failures a document's log is its input without the updates that hash like the change before them |
| `Watcher.DedupIsIdealIff` | src/cdc/watcher.rs:92-104 | that is the input with adjacent equal updates dropped, exactly if no update without fields carries the timestamp of a removal right before it |
| `Watcher.RemovalSwallowsEmptyUpdate` | src/cdc/watcher.rs:150-160 | such an update is never published |
| `Watcher.LogIsCurrentIff` | src/cdc/watcher.rs:92-148 | whatever fails, the log shows a document's latest change after every change exactly if each change that is refused, or that looks like the one whose cursor was written last, has the event of the change before it |
| `Watcher.LuckyLogIsCurrentIff` | src/cdc/watcher.rs:92-104 | without failures that holds exactly if no removal swallows an empty update |
| `Replica.TombstoneIff` | src/cdc/watcher.rs:150-172 | patches `{"_deleted": true}` from the actor "system" are published for removals and for nothing else |
| `Replica.CopyAgreesIff` | src/cdc/watcher.rs:76-207 | whatever fails, a consumer that deletes on such an event and takes the fields of any other has the document's content after every change exactly if each change that is refused, or looks like the one whose cursor was written last, leaves the content as it was |
| `Replica.CurrentLogCopies` | src/cdc/watcher.rs:92-148 | in particular if the log always shows the latest change |
| `Replica.LuckyCopyAgreesIff` | src/cdc/watcher.rs:92-104 | without failures, exactly if no removal swallows an empty update |
| `WatcherTasks.CdcWatcher.WatchFormation` | src/cdc/watcher.rs:47-215 | adds a task for the stream, unless the formation is watched or its store cannot be observed |
| `WatcherTasks.CdcWatcher.UnwatchFormation` | src/cdc/watcher.rs:218-225 | aborts and forgets one formation's task, leaving behind a cursor write that is under way |
| `WatcherTasks.CdcWatcher.StopAll` | src/cdc/watcher.rs:228-236 | draining the handles leaves none, and every cursor write that was under way |
| `WatcherTasks.FormationsDoNotInterfere` | src/cdc/watcher.rs:73-210 | any interleaving of tasks, starts, aborts and the late writes of aborted tasks gives each formation the log, cursors, task and late writes it has when only its own actions happen |
| `WatcherTasks.AloneIsTheLoop` | src/cdc/watcher.rs:73-210 | a task left alone publishes and stores what the event loop does |
| `WatcherTasks.CursorsWerePublished` | src/cdc/watcher.rs:126-148 | under any failures and restarts, and however late the writes of aborted tasks land, a stored cursor is the hash of an event already published for its document |
| `WatcherTasks.SkippedWasPublished` | src/cdc/watcher.rs:92-104 | a skipped update was published before, or repeats a published removal |
| `WatcherTasks.AbortedIsSilent` | src/cdc/watcher.rs:218-236 | from unwatch_formation or shutdown until it is watched again a formation publishes nothing |
| `WatcherTasks.LateWriteLands` | src/cdc/watcher.rs:126-148 | the cursor write that an abort leaves behind sets that one cursor, once |
| `Delivery.Publish` | src/cdc/engine.rs:45-102 | the loop over the sinks attempts exactly the deliveries that are due, whatever the receivers answer, with at most four posts to each webhook |
| `Delivery.FanOutIsExact` | src/cdc/engine.rs:45-102 | on either backend a webhook is attempted exactly if the organization has an enabled sink with that id and URL, a NATS subject exactly if it has an enabled sink with that id and subject and NATS is connected; nothing else, each once, in the order of the ids |
| `Delivery.ToggleDecides` | src/tenant/manager.rs:445-456 | after toggle_sink the next event goes to the sink exactly if it was switched on (and is a webhook, or a NATS sink while connected) |
| `Delivery.SwitchedOffStaysOff` | src/cdc/engine.rs:48-51 | from toggle_sink(false), over every run of calls, no event goes to the sink until a call switches it on or creates it again |
| `Delivery.PublishWebhook` | src/cdc/webhook_sink.rs:33-88 | for any retry limit R: at most R + 1 posts, stopping at the first 2xx or 4xx, success exactly on 2xx, the i-th wait min(100 * 2^i, 5000) ms |
| `Ingest.RemoteBrokerState.Tick` | src/mesh_ingest.rs:133-155 | one turn of the refresh loop is one `Ingest.Next` step |
| `Ingest.RemoteBrokerState.RefreshOnce` | src/mesh_ingest.rs:157-252 | publish, emit, then swap the snapshot; a failed request changes nothing |
| `Ingest.RemoteBrokerState.PublishCdcDiffs` | src/mesh_ingest.rs:256-325 | the events of the new and changed documents, collection by collection in any order |
| `Ingest.RemoteBrokerState.IndexById` | src/mesh_ingest.rs:277-282 | the index holds the hash of the last document of each id |
| `Ingest.RemoteBrokerState.EmitDiffs` | src/mesh_ingest.rs:333-382 | connects, disconnects, topology and sync events, each set once in any order |
| `Ingest.RemoteBrokerState.RecordError` | src/mesh_ingest.rs:384-396 | only the error and the readiness change |
| `IngestRuns.ReplicaAgreesIff` | src/mesh_ingest.rs:256-325 | over every run, whatever the engine refuses, folding the published events gives the snapshot's content for a document id after each poll exactly if no poll has two contents for the id and every refused event is made up for by an accepted one of the same poll or carries what was last accepted |
| `IngestRuns.AcceptedRunAgreesIff` | src/mesh_ingest.rs:256-325 | if nothing is refused, only two contents for one id make it disagree |
| `IngestRuns.TidyRunAgreesIff` | src/mesh_ingest.rs:256-325 | if ids are unique and collection names have no slash, only refusals do |
| `IngestRuns.MissedWasRefused` | src/mesh_ingest.rs:313-321 | a document of the snapshot that the fold misses had its last event refused, unless a poll of the run had two contents for its id |
| `IngestRuns.UnchangedIsNotRetried` | src/mesh_ingest.rs:284-297 | a document that stays as it is causes no event, so a refused one stays missed until it changes |
| `IngestRuns.PollPublishesExactly` | src/mesh_ingest.rs:284-297 | a poll attempts exactly the documents that the previous snapshot did not have as the last of their id |
| `IngestRuns.IdIff` | src/mesh_ingest.rs:524-529 | the id of a document is the text under `_id`, and under `uid` only if there is no `_id` |
| `IngestRuns.TellsIff` | src/mesh_ingest.rs:284-312 | the event of a document: its collection, a slash and its id, its content and hash, its `_actor` or "remote-broker", the time of the poll |
| `IngestRuns.PollPublishesOnce` | src/mesh_ingest.rs:284-325 | no document id twice, when ids are unique and collection names have no slash |
| `IngestRuns.PeersAreReconstructed` | src/mesh_ingest.rs:340-353 | folding the peer events gives the current peers, and each peer's connects and disconnects alternate |
| `IngestRuns.TopologyIsTracked` | src/mesh_ingest.rs:355-362 | the last TopologyChanged names the current role and peer count |
| `IngestRuns.PollTells` | src/mesh_ingest.rs:333-382 | a poll emits exactly: a connect for each new peer, a disconnect for each missing one, the topology if role or count changed, a sync event for each document id that its collection did not have |
| `IngestRuns.PollTellsOnce` | src/mesh_ingest.rs:333-382 | none of them twice |
| `IngestRuns.FailedPollsAreSilent` | src/mesh_ingest.rs:137-151 | a poll whose node, topology or peers cannot be read emits and publishes nothing, keeps what was last read, and shows the error |
| `IngestRuns.OtherPollsAreRead` | src/mesh_ingest.rs:157-252 | any other poll replaces the snapshot by what was read, with a failing readiness probe as unready and a collection that does not answer as absent |
| `Config.ParseMeshBrokerMappings` | src/config.rs:100-139 | the loop that pushes mappings does what function `Config.Parse` says |
| `Config.RoundTrip` | src/config.rs:100-139 | parsing the rendering of well-formed mappings gives them back |
| `Config.ParseDistributes` | src/config.rs:106-106 | parsing a `;` concatenation is parsing the parts in turn |
| `Config.ParseFailsIff` | src/config.rs:107-117 | parsing fails exactly when some entry that is not blank lacks one of its first three fields |
| `Config.EntryMeaning` | src/config.rs:107-135 | an entry yields its first three fields without surrounding white space, the URL without slashes at its end, and its collections or the four default ones; or names the first field it lacks |
| `Config.SplitMeaning` | src/config.rs:106-120 | splitting gives pieces without the separator that make up the text |

## Left out

- HTTP routing, JSON encoding, the admin token, metrics and the user interface: no invariant of their own.
- OIDC discovery and introspection traffic (section 2.2 of RFC 7662): an input, "claims or an error".
- Certificate issuance, permission-bit mapping, health checks, document listing: they would only add easy members.
- AES-GCM, key derivation, KMS, Vault, NATS and peat-mesh internals: parameters with the stated laws.
- redb transactions and SQL execution: each storage call is one atomic change of the tables. I/O failures of the store are inputs only where a property asks for them (audit appends, cursors, migration).
- PostgreSQL collations other than code point order, and its rejection of NUL in text.
- Token consume and revoke under interleaved requests: they are atomic. Handlers are interleaved for the rate limit, and tasks for the watcher.
- Partial delivery when a watcher task is aborted inside `publish`: a task is aborted between its awaits.
- Subscribers that lag behind the 256 buffered mesh events.
- The bit-level hashes, and collisions of 64-bit hashes.
- Dead-letter queue, backpressure, per-sink cursors, required claims and formation suspension: described in the documentation, not in the code.
- A watcher whose stream has ended keeps its handle, as in the source, so watching the formation again does nothing.
- RateLimit.SlidingWindowLimit: a count may lag behind its clock reading, but must then see fewer than 2^32 entries, where the comparison would wrap as in `RateLimitExact.OverfullHour`; the gate's other reads are one step with the count.
- Tokens.TokensConserved: a counter without `max_uses` is stated modulo 2^32, because a release build wraps it there; takes fresh random ids, and audit entries and token uses that come from enrollments.
- Delivery.SwitchedOffStaysOff: runs on redb; PostgreSQL follows by `Refinement.StepAgrees` for admissible calls.
- TokenLife.RevocationIsFinal: takes runs in which tokens are consumed by enrollments only and the token's random id is not drawn again.
- Ownership.RunLogsOwnedIff: takes writes under NUL-free organization ids.
- Refinement.BackendsAgree: takes NUL-free organization ids, fresh random ids, and audit and cursor writes for live organizations; audit queries join the run in `AuditRuns`, where PostgreSQL may order ties as it likes.
- AuditRuns.BackendsAgreeOnRunsIff: takes audit timestamps below 2^63, which PostgreSQL stores in a signed column.
- Genesis.GenesisAgrees: assumes storage calls that succeed and one key provider, with encryption switched on at most once.
