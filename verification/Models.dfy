/** The gateway's entities (src/tenant/models.rs). */
module Models {

  type u32 = x: int | 0 <= x < 0x1_0000_0000
  type u64 = x: int | 0 <= x < 0x1_0000_0000_0000_0000
  type byte = x: int | 0 <= x < 0x100
  type bytes = seq<byte>

  /** `x as u32`: the low 32 bits. */
  function AsU32(x: nat): u32 { x % 0x1_0000_0000 }

  datatype Option<+T> = None | Some(value: T)

  datatype Error =
    | Invalid | NotFound | AlreadyExists | QuotaReached | AlreadyRevoked
    | WrongFormation | Revoked | Expired | Exhausted
    | Constraint   // SQL primary-key or foreign-key violation, or a negative LIMIT
    | Corrupt      // a stored row that does not decode
    | KeyProvider | Truncated | UnsupportedVersion | BadKeyLength | Decryption
    | RoundTrip | Storage | NoProvider

  datatype Result<+T> = Ok(value: T) | Err(error: Error)

  /** serde_json::Value; a number keeps its decimal text. */
  datatype Json =
    | Null
    | Bool(b: bool)
    | Number(text: string)
    | Str(s: string)
    | Array(items: seq<Json>)
    | Object(fields: map<string, Json>)

  datatype OrgQuotas = OrgQuotas(
    maxFormations: u32,
    maxPeersPerFormation: u32,
    maxDocumentsPerFormation: u32,
    maxCdcSinks: u32,
    maxEnrollmentsPerHour: u32)

  const DEFAULT_QUOTAS := OrgQuotas(10, 100, 10_000, 5, 1000)

  datatype Organization = Organization(orgId: string, displayName: string, quotas: OrgQuotas, createdAt: u64)

  datatype EnrollmentPolicy = Open | Controlled | Strict

  datatype FormationConfig = FormationConfig(appId: string, meshId: string, policy: EnrollmentPolicy)

  datatype EnrollmentToken = EnrollmentToken(
    tokenId: string, orgId: string, appId: string, tokenLabel: string,
    maxUses: Option<u32>, uses: u32, expiresAt: Option<u64>, createdAt: u64, revoked: bool)

  datatype CdcSinkType = Nats(subjectPrefix: string) | Kafka(topic: string) | Webhook(url: string)

  datatype CdcSinkConfig = CdcSinkConfig(
    sinkId: string, orgId: string, sinkType: CdcSinkType, enabled: bool, createdAt: u64)

  datatype IdpConfig = IdpConfig(
    idpId: string, orgId: string, issuerUrl: string, clientId: string, clientSecret: string,
    enabled: bool, createdAt: u64)

  datatype MeshTier = Authority | Infrastructure | Endpoint

  datatype PolicyRule = PolicyRule(
    ruleId: string, orgId: string, claimKey: string, claimValue: string,
    tier: MeshTier, permissions: u32, priority: u32)

  datatype EnrollmentDecision = Approved(tier: MeshTier, permissions: u32) | Denied(reason: string)

  datatype AuditEntry = AuditEntry(
    auditId: string, orgId: string, appId: string, idpId: string, subject: string,
    decision: EnrollmentDecision, timestampMs: u64)

  /** The redb tables that hold encoded rows under composite keys. */
  datatype Table = Formations | Tokens | Sinks | Idps | Rules | Audit | Genesis

  datatype Row =
    | FormationRow(formation: FormationConfig)
    | TokenRow(token: EnrollmentToken)
    | SinkRow(sink: CdcSinkConfig)
    | IdpRow(idp: IdpConfig)
    | RuleRow(rule: PolicyRule)
    | AuditRow(entry: AuditEntry)
    | GenesisRow(encoded: bytes)

  /** The row decodes as the type stored in that table. */
  predicate Fits(t: Table, row: Row)
  {
    match t
    case Formations => row.FormationRow?
    case Tokens => row.TokenRow?
    case Sinks => row.SinkRow?
    case Idps => row.IdpRow?
    case Rules => row.RuleRow?
    case Audit => row.AuditRow?
    case Genesis => row.GenesisRow?
  }

  datatype CdcEvent = CdcEvent(
    orgId: string, appId: string, documentId: string, changeHash: string, actorId: string,
    timestampMs: u64, patches: Json)
}
