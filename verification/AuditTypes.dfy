/**
 Audit records and the environment of the ledger.

 SHA-256 and the JSON text of a record are code the ledger only calls, so both are
 parameters: every result holds for every 32-byte hash function and for every record
 encoding that its decoder reads back.
 */
module AuditTypes {
  import opened Bytes

  datatype RecordKind =
    | Intent | Terminal | Reconciliation | SecurityObservation | RetentionCheckpoint | SystemRecovery

  datatype Outcome =
    | Succeeded | Failed | Observed | ReconciledCommitted | ReconciledNotCommitted | ReconciliationUnknown

  datatype TargetKind =
    | ConfigRevision | ProxyHost | Certificate | TrustBundle | AdminAccount | Restore | AuditLedgerTarget

  datatype ActorKind = BootstrapSetup | BootstrapAdmin | MaintenanceCli | SystemRecoveryActor

  datatype Action =
    | ConfigApply | ConfigRollback | ProxyHostCreate | ProxyHostUpdate | ProxyHostDelete
    | CertificateIssue | CertificateRenew | CertificateImport | CertificateInstall
    | TrustBundleImport | TrustBundleDelete | AdminSetup | AdminLoginSuccess | AdminLogout
    | AdminLockout | AdminAuthFailureSampled | MaintenanceRestoreImported
    | SystemTrailingRecovery | RetentionCheckpointAction

  datatype Context = Context(operationId: string, requestId: string, actor: ActorKind, receivedAt: nat)

  datatype Record = Record(
    kind: RecordKind,
    context: Context,
    action: Action,
    targetKind: TargetKind,
    targetId: string,
    before: Option<string>,
    after: Option<string>,
    outcome: Option<Outcome>,
    errorCode: Option<string>)
  {
    /** `AuditRecord::validate` for a record of version 1. */
    predicate Valid() {
      match kind
      case Intent => outcome.None? && errorCode.None? && after.None?
      case Terminal =>
        (outcome == Some(Succeeded) && errorCode.None?) || (outcome == Some(Failed) && errorCode.Some?)
      case Reconciliation =>
        outcome in {Some(ReconciledCommitted), Some(ReconciledNotCommitted), Some(ReconciliationUnknown)}
      case SecurityObservation =>
        && outcome == Some(Observed) && targetKind == AdminAccount
        && before.None? && after.None? && errorCode.None?
        && action in {AdminLoginSuccess, AdminLogout, AdminLockout, AdminAuthFailureSampled}
      case RetentionCheckpoint =>
        action == RetentionCheckpointAction && targetKind == AuditLedgerTarget && outcome == Some(Succeeded)
      case SystemRecovery =>
        && action == SystemTrailingRecovery && targetKind == AuditLedgerTarget
        && context.actor == SystemRecoveryActor && outcome == Some(Succeeded) && errorCode.None?
    }
  }

  /** The sequence range a retention checkpoint says was pruned, and its last hash. */
  datatype Pruned = Pruned(first: nat, last: nat, terminalHash: Hash)

  datatype View = View(sequence: nat, record: Record)

  datatype Head = Head(generation: nat, sequence: nat)

  datatype Code =
    | RecordInvalid | RecordTooLarge | Unavailable | SequenceInvalid | CapacityReached
    | AppendFailed | SyncFailed | TrailingFrameIncomplete | InteriorCorruption
    | UnsupportedVersion | ChainMismatch | CursorInvalid

  /** A record can be written with this metadata and read back: exactly checkpoints carry it. */
  predicate Encodable(record: Record, pruned: Option<Pruned>) {
    && record.Valid()
    && (record.kind == RetentionCheckpoint <==> pruned.Some?)
    && (pruned.Some? ==> 0 < pruned.value.first <= pruned.value.last)
  }

  datatype Env = Env(
    hash: seq<Byte> -> Hash,
    encode: (Record, Option<Pruned>) -> seq<Byte>,
    decode: seq<Byte> -> Result<(Record, Option<Pruned>), Code>)
  {
    /** The record codec reads back what it wrote. */
    ghost predicate Lawful() {
      forall r, p :: Encodable(r, p) ==> decode(encode(r, p)) == Ok((r, p))
    }
  }

  const MAX_PAYLOAD_BYTES: nat := 8 * 1024
  const MAX_SCAN_RECORDS: nat := 100_000
  const MAX_SEGMENT_BYTES: nat := 4 * 1024 * 1024
  const MAX_SEGMENTS: nat := 32
  const MAX_TOTAL_BYTES: nat := 128 * 1024 * 1024

  const HEADER_LEN: nat := 8 + 2 + 2 + 4 + 8 + 32
  const HASH_LEN: nat := 32

  datatype Options = Options(
    maxPayload: nat,
    maxScan: nat,
    maxSegmentBytes: nat,
    maxSegments: nat,
    maxTotal: nat)
  {
    /** The bounds `FileAuditLedger::open` insists on. */
    predicate Valid() {
      && 0 < maxPayload <= MAX_PAYLOAD_BYTES
      && 0 < maxScan <= MAX_SCAN_RECORDS
      && HEADER_LEN + HASH_LEN + 1 <= maxSegmentBytes <= MAX_SEGMENT_BYTES
      && 0 < maxSegments <= MAX_SEGMENTS
      && maxSegmentBytes <= maxTotal <= MAX_TOTAL_BYTES
    }
  }

  const DEFAULT_OPTIONS := Options(
    MAX_PAYLOAD_BYTES, MAX_SCAN_RECORDS, MAX_SEGMENT_BYTES, MAX_SEGMENTS, MAX_TOTAL_BYTES)
}
