/** Every request the application serves that can change vault state, as one event; `Step`
    is the table change it makes. A refused request changes nothing. Authorisation and form
    validation only refuse, so they appear as requests that never become an event. */
module Steps {
  import opened Wrappers
  import opened Primitives
  import opened Psbts
  import opened Schema
  import opened Transitions

  /** One funded chain of a dual-chain migration: nothing to move, a builder error, a sweep. */
  datatype SweepPlan = Unfunded | BuildFailed | Built(pid: ProposalId, draft: BuiltTx)

  datatype RawTx = RawTx(hex: string, txid: string)

  /** Ids minted by a step, rows a query may pick (`current`, `mid`), and the answers of
      wallets and nodes are event parameters. */
  datatype Event =
    | CreateFederation(id: VersionId)
    | Migrate(base: VersionId, mid: MigrationId, vid: VersionId, pid: ProposalId, draft: BuiltTx)
    | MigrateDual(base: VersionId, mid: MigrationId, vid: VersionId, ele: SweepPlan, btc: SweepPlan)
    | ProposeSend(version: VersionId, pid: ProposalId, draft: BuiltTx)
    | ProposeRelay(source: VersionId, current: VersionId, pid: ProposalId, draft: BuiltTx)
    | ProposeResweep(source: VersionId, mid: MigrationId, current: VersionId, pid: ProposalId, draft: BuiltTx)
    | SubmitPartial(pid: ProposalId, signer: SignerId, partial: Psbt, extracted: Option<RawTx>)
    | CancelProposal(pid: ProposalId)
    | BroadcastProposal(pid: ProposalId, accepted: Option<string>)
    | CancelMigrationOf(mid: MigrationId)
    | SyncLineage(lineage: VersionId, wallets: seq<map<Txid, nat>>)

  /** `load_active_current` and `ensure_no_inflight`. */
  predicate MayMigrate(db: Db, base: VersionId) {
    base in db.versions && db.versions[base].status == Active && !HasInFlight(db, db.versions[base].lineage)
  }

  function OpenMigration(db: Db, base: VersionId, mid: MigrationId, vid: VersionId): Result<Db, DbError>
    requires base in db.versions
  {
    CreatePendingMigration(db, mid, vid, db.versions[base].lineage, base, db.versions[base].index + 1)
  }

  function OpenSweep(db: Db, plan: SweepPlan, base: VersionId, mid: MigrationId, vid: VersionId):
    Result<Db, AppError>
  {
    match plan
    case Unfunded => Ok(db)
    case BuildFailed => Err(Wallet)
    case Built(pid, draft) =>
      match InsertProposal(db, pid, base, MigrationSweep, Some(mid), Some(vid), draft)
      case Ok(d) => Ok(d)
      case Err(e) => Err(Storage(e))
  }

  function MigrateStep(db: Db, base: VersionId, mid: MigrationId, vid: VersionId, plan: SweepPlan): Db
  {
    if !MayMigrate(db, base) then db else
    match OpenMigration(db, base, mid, vid)
    case Err(_) => db
    case Ok(d) =>
      match OpenSweep(d, plan, base, mid, vid)
      case Err(_) => d
      case Ok(d') => d'
  }

  function MigrateDualStep(db: Db, base: VersionId, mid: MigrationId, vid: VersionId,
                           ele: SweepPlan, btc: SweepPlan): Db
  {
    if !MayMigrate(db, base) then db else
    match OpenMigration(db, base, mid, vid)
    case Err(_) => db
    case Ok(d) =>
      match OpenSweep(d, ele, base, mid, vid)
      case Err(_) => d
      case Ok(d1) =>
        match OpenSweep(d1, btc, base, mid, vid)
        case Err(_) => d1
        case Ok(d2) =>
          if ele.Unfunded? && btc.Unfunded? then EnactVersionTransition(d2, vid, base, mid) else d2
  }

  function ProposeStep(db: Db, pid: ProposalId, version: VersionId, kind: ProposalKind,
                       migration: Option<MigrationId>, payee: Option<VersionId>, draft: BuiltTx): Db
  {
    match InsertProposal(db, pid, version, kind, migration, payee, draft)
    case Ok(d) => d
    case Err(_) => db
  }

  predicate MayRelay(db: Db, source: VersionId, current: VersionId) {
    source in db.versions && db.versions[source].status != Active
    && IsCurrent(db, db.versions[source].lineage, current)
  }

  predicate MayResweep(db: Db, source: VersionId, mid: MigrationId, current: VersionId) {
    source in db.versions && db.versions[source].sweepStatus == SweepPending
    && EnactedFor(db, source, mid)
    && IsCurrent(db, db.versions[source].lineage, current)
  }

  predicate StatusIn(db: Db, pid: ProposalId, allowed: set<ProposalStatus>) {
    pid in db.proposals && db.proposals[pid].status in allowed
  }

  /** Merge, archive, store: the archive's primary key makes a second contribution by the same
      signer a no-op, and reaching the threshold finalises. */
  function SubmitStep(db: Db, pid: ProposalId, signer: SignerId, partial: Psbt, extracted: Option<RawTx>): Db
  {
    if !StatusIn(db, pid, {Open, Signing}) then db else
    var p := db.proposals[pid];
    match Combine(p.psbt, partial)
    case Err(_) => db
    case Ok(merged) =>
      if (pid, signer) in db.signatures then db else
      var full := FullySigned(p.policy, merged);
      var stored := p.(psbt := merged, status := if full then Finalized else Signing);
      var sealed := if full && extracted.Some?
        then stored.(finalizedTx := Some(extracted.value.hex), txid := Some(extracted.value.txid)) else stored;
      SetProposal(db, pid, sealed).(signatures := db.signatures[(pid, signer) := partial])
  }

  function CancelProposalStep(db: Db, pid: ProposalId): Db {
    if StatusIn(db, pid, {Open, Signing, Finalized})
    then SetProposal(db, pid, db.proposals[pid].(status := Withdrawn)) else db
  }

  function MarkBroadcast(db: Db, pid: ProposalId, txid: string): Db
    requires pid in db.proposals
  {
    SetProposal(db, pid, db.proposals[pid].(status := Broadcast, txid := Some(txid)))
  }

  /** The version flip a just-broadcast migration sweep owes, with its recorded txid. */
  function EnactAfterBroadcast(db: Db, pid: ProposalId, txid: string): Db {
    match EnactmentFor(db, pid)
    case None => db
    case Some(m) =>
      var row := db.migrations[m];
      SetMigrationComplete(EnactVersionTransition(db, row.target.value, row.base, m), row.base, txid)
  }

  function RecompleteAfterBroadcast(db: Db, pid: ProposalId, txid: string): Db {
    match RecompletionFor(db, pid)
    case None => db
    case Some(v) => SetMigrationComplete(db, v, txid)
  }

  function BroadcastStep(db: Db, pid: ProposalId, accepted: Option<string>): Db {
    if !StatusIn(db, pid, {Finalized}) || db.proposals[pid].finalizedTx.None? || accepted.None? then db else
    var marked := MarkBroadcast(db, pid, accepted.value);
    RecompleteAfterBroadcast(EnactAfterBroadcast(marked, pid, accepted.value), pid, accepted.value)
  }

  predicate Pushed(db: Db, pid: ProposalId, accepted: Option<string>) {
    StatusIn(db, pid, {Finalized}) && db.proposals[pid].finalizedTx.Some? && accepted.Some?
  }

  /** The index on active versions takes the flip that broadcasting `pid` owes, if any. */
  predicate OwedFlipFits(db: Db, pid: ProposalId) {
    match EnactmentFor(db, pid)
    case None => true
    case Some(m) => FlipFits(db.versions, db.migrations[m].target.value, db.migrations[m].base)
  }

  /** The index takes the immediate bump of an unfunded migration of `base`. */
  predicate BumpFits(db: Db, base: VersionId, mid: MigrationId, vid: VersionId) {
    MayMigrate(db, base) && OpenMigration(db, base, mid, vid).Ok? ==>
      FlipFits(OpenMigration(db, base, mid, vid).value.versions, vid, base)
  }

  function Step(db: Db, e: Event): Db {
    match e
    case CreateFederation(id) =>
      (match InsertFederation(db, id) case Ok(d) => d case Err(_) => db)
    case Migrate(base, mid, vid, pid, draft) => MigrateStep(db, base, mid, vid, Built(pid, draft))
    case MigrateDual(base, mid, vid, ele, btc) => MigrateDualStep(db, base, mid, vid, ele, btc)
    case ProposeSend(version, pid, draft) => ProposeStep(db, pid, version, Send, None, None, draft)
    case ProposeRelay(source, current, pid, draft) =>
      if MayRelay(db, source, current)
      then ProposeStep(db, pid, source, Relay, None, Some(current), draft) else db
    case ProposeResweep(source, mid, current, pid, draft) =>
      if MayResweep(db, source, mid, current)
      then ProposeStep(db, pid, source, Resweep, Some(mid), Some(current), draft) else db
    case SubmitPartial(pid, signer, partial, extracted) => SubmitStep(db, pid, signer, partial, extracted)
    case CancelProposal(pid) => CancelProposalStep(db, pid)
    case BroadcastProposal(pid, accepted) => BroadcastStep(db, pid, accepted)
    case CancelMigrationOf(mid) => CancelMigration(db, mid)
    case SyncLineage(lineage, wallets) =>
      db.(versions := ReconcileRows(db.versions, lineage, ConfirmedUnion(wallets)))
  }

  /** A run: any number of requests, in any interleaving. */
  function Run(db: Db, events: seq<Event>): Db {
    if events == [] then db else Step(Run(db, events[..|events| - 1]), events[|events| - 1])
  }

  lemma {:induction false} RunConcat(db: Db, a: seq<Event>, b: seq<Event>)
    ensures Run(db, a + b) == Run(Run(db, a), b)
    decreases |b|
  {
    if b == [] {
      assert a + b == a;
    } else {
      var init := b[..|b| - 1];
      assert (a + b)[..|a + b| - 1] == a + init;
      RunConcat(db, a, init);
    }
  }
}
