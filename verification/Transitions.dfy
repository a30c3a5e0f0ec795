/** What each statement group of the data layer does to the tables, as functions on values:
    the specification of the methods of class `Database`. */
module Transitions {
  import opened Wrappers
  import opened Primitives
  import opened Psbts
  import opened Schema

  // ----- versions and migrations -----

  function FreshVersion(lineage: VersionId, index: nat, predecessor: Option<VersionId>,
                        status: VersionStatus): VersionRow
  {
    VersionRow(lineage, index, predecessor, status, NotApplicable, None, None)
  }

  function InsertFederation(db: Db, id: VersionId): Result<Db, DbError> {
    if id in db.versions then Err(PrimaryKey)
    else Ok(db.(versions := db.versions[id := FreshVersion(id, 0, None, Active)]))
  }

  predicate IndexTaken(db: Db, lineage: VersionId, index: nat) {
    exists v :: v in db.versions && db.versions[v].lineage == lineage && db.versions[v].index == index
  }

  predicate HasInFlight(db: Db, lineage: VersionId) {
    exists m :: m in db.migrations && db.migrations[m].lineage == lineage && InFlight(db.migrations[m])
  }

  /** One transaction: open the migration, mint its pending version, link the two. Both unique
      indexes, the primary keys and the foreign key can refuse it, and then nothing changes. */
  function CreatePendingMigration(db: Db, mid: MigrationId, vid: VersionId, lineage: VersionId,
                                  base: VersionId, index: nat): Result<Db, DbError>
  {
    if mid in db.migrations then Err(PrimaryKey)
    else if base !in db.versions then Err(ForeignKey)
    else if HasInFlight(db, lineage) then Err(OneInFlight)
    else if vid in db.versions then Err(PrimaryKey)
    else if IndexTaken(db, lineage, index) then Err(VersionIndexTaken)
    else Ok(db.(versions := db.versions[vid := FreshVersion(lineage, index, Some(base), Pending)],
                migrations := db.migrations[mid := MigrationRow(lineage, base, Some(vid), Proposed)]))
  }

  function WithStatus(versions: map<VersionId, VersionRow>, v: VersionId, s: VersionStatus):
    map<VersionId, VersionRow>
  {
    if v in versions then versions[v := versions[v].(status := s)] else versions
  }

  function WithMigrationStatus(migrations: map<MigrationId, MigrationRow>, m: MigrationId,
                               s: MigrationStatus): map<MigrationId, MigrationRow>
  {
    if m in migrations then migrations[m := migrations[m].(status := s)] else migrations
  }

  /** The unique index on active versions would take `v` as active. */
  predicate ActivationFits(versions: map<VersionId, VersionRow>, v: VersionId) {
    v in versions ==> forall w :: w in versions && w != v && versions[w].lineage == versions[v].lineage
                                  ==> versions[w].status != Active
  }

  /** The index takes the target once the base is superseded. */
  predicate FlipFits(versions: map<VersionId, VersionRow>, target: VersionId, base: VersionId) {
    ActivationFits(WithStatus(versions, base, Superseded), target)
  }

  function EnactVersionTransition(db: Db, target: VersionId, base: VersionId, mid: MigrationId): Db {
    db.(versions := WithStatus(WithStatus(db.versions, base, Superseded), target, Active),
        migrations := WithMigrationStatus(db.migrations, mid, Enacted))
  }

  /** The pending target, if any, that cancelling `mid` abandons. */
  predicate AbandonedBy(db: Db, mid: MigrationId, v: VersionId) {
    mid in db.migrations && db.migrations[mid].target == Some(v)
    && v in db.versions && db.versions[v].status == Pending
  }

  function CancelMigration(db: Db, mid: MigrationId): Db {
    db.(versions := map v | v in db.versions ::
          if AbandonedBy(db, mid, v) then db.versions[v].(status := Abandoned) else db.versions[v],
        proposals := map p | p in db.proposals ::
          if db.proposals[p].migration == Some(mid) && db.proposals[p].status != Broadcast
          then db.proposals[p].(status := Withdrawn) else db.proposals[p],
        migrations := WithMigrationStatus(db.migrations, mid, Cancelled))
  }

  // ----- the reconciliation triple -----

  function Completed(row: VersionRow, txid: string): VersionRow {
    row.(sweepStatus := Complete, sweepTxid := Some(txid))
  }

  function SetMigrationComplete(db: Db, v: VersionId, txid: string): Db {
    if v in db.versions then db.(versions := db.versions[v := Completed(db.versions[v], txid)]) else db
  }

  function Latched(row: VersionRow, txid: string, height: int): VersionRow {
    if row.sweepStatus == Complete && row.sweepTxid == Some(txid) && row.sweepHeight == None
    then row.(sweepHeight := Some(height)) else row
  }

  predicate Revertible(row: VersionRow, txid: string) {
    row.sweepStatus == Complete && row.sweepTxid == Some(txid) && row.sweepHeight.Some?
  }

  function Reverted(row: VersionRow, txid: string): VersionRow {
    if Revertible(row, txid)
    then row.(sweepStatus := SweepPending, sweepTxid := None, sweepHeight := None) else row
  }

  /** `i32::try_from(height).unwrap_or(i32::MAX)`. */
  function ClampHeight(h: nat): int {
    if h <= I32_MAX then h else I32_MAX
  }

  /** The canonical confirmation heights of a lineage: the oldest version's wallet that shows
      a transaction confirmed decides its height. */
  function ConfirmedUnion(wallets: seq<map<Txid, nat>>): map<Txid, nat> {
    if wallets == [] then map[] else ConfirmedUnion(wallets[1..]) + wallets[0]
  }

  /** One lineage pass over one row, given the height its sweep is confirmed at, if any. */
  function Observe(row: VersionRow, seen: Option<nat>): VersionRow {
    if row.sweepStatus == Complete && row.sweepTxid.Some? && ParseTxid(row.sweepTxid.value).Some? then
      if row.sweepHeight.None? && seen.Some? then Latched(row, row.sweepTxid.value, ClampHeight(seen.value))
      else if row.sweepHeight.Some? && seen.None? then Reverted(row, row.sweepTxid.value)
      else row
    else row
  }

  /** Where the row's recorded sweep is confirmed according to `confirmed`. */
  function SeenHeight(row: VersionRow, confirmed: map<Txid, nat>): Option<nat> {
    if row.sweepTxid.Some? && ParseTxid(row.sweepTxid.value).Some?
       && ParseTxid(row.sweepTxid.value).value in confirmed
    then Some(confirmed[ParseTxid(row.sweepTxid.value).value]) else None
  }

  function ReconcileRows(versions: map<VersionId, VersionRow>, lineage: VersionId,
                         confirmed: map<Txid, nat>): map<VersionId, VersionRow>
  {
    map v | v in versions ::
      if versions[v].lineage == lineage
      then Observe(versions[v], SeenHeight(versions[v], confirmed)) else versions[v]
  }

  // ----- proposals -----

  /** What the transaction builders return: a PSBT nobody has signed yet, and the spending
      policy of its inputs. */
  datatype BuiltData = BuiltTx(psbt: Psbt, policy: SpendPolicy)

  type BuiltTx = b: BuiltData | SigSet(b.psbt) == {}
    ghost witness BuiltData.BuiltTx(PsbtData(UnsignedTx([], 0), []), SpendPolicy(0, []))

  function InsertProposal(db: Db, pid: ProposalId, version: VersionId, kind: ProposalKind,
                          migration: Option<MigrationId>, payee: Option<VersionId>, draft: BuiltTx):
    Result<Db, DbError>
  {
    if pid in db.proposals then Err(PrimaryKey)
    else if version !in db.versions then Err(ForeignKey)
    else Ok(db.(proposals := db.proposals[pid :=
      ProposalRow(version, kind, migration, payee, draft.policy, draft.psbt, Open, None, None)]))
  }

  function SetProposal(db: Db, pid: ProposalId, p: ProposalRow): Db {
    db.(proposals := db.proposals[pid := p])
  }

  /** The version flip a broadcast proposal owes: its migration is still `Proposed`. */
  function EnactmentFor(db: Db, pid: ProposalId): Option<MigrationId> {
    if pid in db.proposals && db.proposals[pid].kind == MigrationSweep
       && db.proposals[pid].migration.Some? && db.proposals[pid].migration.value in db.migrations
       && db.migrations[db.proposals[pid].migration.value].status == Proposed
       && db.migrations[db.proposals[pid].migration.value].target.Some?
    then db.proposals[pid].migration else None
  }

  /** The base version a broadcast re-sweep re-completes: it is currently reverted. */
  function RecompletionFor(db: Db, pid: ProposalId): Option<VersionId> {
    if pid in db.proposals && db.proposals[pid].kind == Resweep
       && db.proposals[pid].version in db.versions
       && db.versions[db.proposals[pid].version].sweepStatus == SweepPending
    then Some(db.proposals[pid].version) else None
  }

  /** An enacted migration that swept `base` forward. */
  predicate EnactedFor(db: Db, base: VersionId, mid: MigrationId) {
    mid in db.migrations && db.migrations[mid].base == base && db.migrations[mid].status == Enacted
  }
}
