/** The rows of the application database that carry vault state. Identifiers stand for the
    UUIDs of the tables; timestamps, labels and descriptor texts are not part of the model. */
module Schema {
  import opened Wrappers
  import opened Primitives
  import opened Psbts

  type VersionId = nat
  type MigrationId = nat
  type ProposalId = nat
  type SignerId = nat

  datatype VersionStatus = Pending | Active | Superseded | Abandoned

  /** `migration_status`: whether a version's funds have landed, and stayed, at its successor. */
  datatype SweepStatus = NotApplicable | SweepPending | InProgress | Complete

  /** One row of `federations`. A lineage is named by the id of its version 0. */
  datatype VersionRow = VersionRow(
    lineage: VersionId,
    index: nat,
    predecessor: Option<VersionId>,
    status: VersionStatus,
    sweepStatus: SweepStatus,
    sweepTxid: Option<string>,
    sweepHeight: Option<int>)

  datatype MigrationStatus = Draft | Proposed | Enacted | Cancelled

  /** One row of `federation_migrations`. */
  datatype MigrationRow = MigrationRow(
    lineage: VersionId,
    base: VersionId,
    target: Option<VersionId>,
    status: MigrationStatus)

  datatype ProposalKind = Send | MigrationSweep | Relay | Resweep

  datatype ProposalStatus = Open | Signing | Finalized | Broadcast | Withdrawn

  /** One row of `transaction_proposals`. `payee` is the version whose address receives the
      funds, for the kinds whose recipient is a version of the lineage. */
  datatype ProposalRow = ProposalRow(
    version: VersionId,
    kind: ProposalKind,
    migration: Option<MigrationId>,
    payee: Option<VersionId>,
    policy: SpendPolicy,
    psbt: Psbt,
    status: ProposalStatus,
    finalizedTx: Option<string>,
    txid: Option<string>)

  datatype Db = Db(
    versions: map<VersionId, VersionRow>,
    migrations: map<MigrationId, MigrationRow>,
    proposals: map<ProposalId, ProposalRow>,
    signatures: map<(ProposalId, SignerId), Psbt>)

  const EMPTY := Db(map[], map[], map[], map[])

  datatype DbError = PrimaryKey | ForeignKey | OneInFlight | VersionIndexTaken | SecondActive

  datatype AppError = NotFound | BadRequest | Storage(db: DbError) | Wallet

  predicate InFlight(m: MigrationRow) {
    m.status == Draft || m.status == Proposed
  }

  /** The version has been enacted: it is, or once was, the lineage's current version. */
  predicate Live(r: VersionRow) {
    r.status == Active || r.status == Superseded
  }

  predicate IsCurrent(db: Db, lineage: VersionId, v: VersionId) {
    v in db.versions && db.versions[v].lineage == lineage && db.versions[v].status == Active
  }

  // ----- sweep txids are stored as text -----

  function HexValue(s: string): nat
    requires forall c :: c in s ==> IsHexDigit(c)
  {
    if s == [] then 0 else 16 * HexValue(s[..|s| - 1]) + HexDigit(s[|s| - 1])
  }

  function ParseTxid(s: string): Option<Txid> {
    if |s| == 64 && forall c :: c in s ==> IsHexDigit(c) then Some(HexValue(s)) else None
  }
}
