/** The invariant holds in every reachable state, and lifecycles only move forward. */
module LineageRuns {
  import opened Wrappers
  import opened Psbts
  import opened Schema
  import opened Transitions
  import opened Steps
  import opened LineageInvariant

  // ----- the invariant, event by event -----

  lemma OpenSweepKeeps(db: Db, plan: SweepPlan, base: VersionId, mid: MigrationId, vid: VersionId)
    requires Inv(db) && base in db.versions
    requires mid in db.migrations && db.migrations[mid].base == base
    requires db.migrations[mid].target == Some(vid) && db.migrations[mid].status == Proposed
    ensures OpenSweep(db, plan, base, mid, vid).Ok? ==>
      var d := OpenSweep(db, plan, base, mid, vid).value;
      Inv(d) && d.versions == db.versions && d.migrations == db.migrations
  {
    if plan.Built? && OpenSweep(db, plan, base, mid, vid).Ok? {
      ProposeKeeps(db, plan.pid, base, MigrationSweep, Some(mid), Some(vid), plan.draft);
    }
  }

  lemma ProposeKeeps(db: Db, pid: ProposalId, version: VersionId, kind: ProposalKind,
                     migration: Option<MigrationId>, payee: Option<VersionId>, draft: BuiltTx)
    requires Inv(db)
    requires var d := InsertProposal(db, pid, version, kind, migration, payee, draft);
      d.Ok? ==> Routed(d.value, pid)
    ensures Inv(ProposeStep(db, pid, version, kind, migration, payee, draft))
  {
    match InsertProposal(db, pid, version, kind, migration, payee, draft) {
      case Ok(d) => SetProposalKeeps(db, pid, d.proposals[pid]);
      case Err(_) =>
    }
  }

  lemma MigrateKeeps(db: Db, base: VersionId, mid: MigrationId, vid: VersionId, plan: SweepPlan)
    requires Inv(db)
    ensures Inv(MigrateStep(db, base, mid, vid, plan))
  {
    if MayMigrate(db, base) && OpenMigration(db, base, mid, vid).Ok? {
      CreatePendingKeeps(db, mid, vid, base);
      CreatePendingAdds(db, mid, vid, base);
      OpenSweepKeeps(OpenMigration(db, base, mid, vid).value, plan, base, mid, vid);
    }
  }

  lemma MigrateDualKeeps(db: Db, base: VersionId, mid: MigrationId, vid: VersionId,
                         ele: SweepPlan, btc: SweepPlan)
    requires Inv(db)
    ensures Inv(MigrateDualStep(db, base, mid, vid, ele, btc))
  {
    if MayMigrate(db, base) && OpenMigration(db, base, mid, vid).Ok? {
      var d := OpenMigration(db, base, mid, vid).value;
      CreatePendingKeeps(db, mid, vid, base);
      CreatePendingAdds(db, mid, vid, base);
      OpenSweepKeeps(d, ele, base, mid, vid);
      if OpenSweep(d, ele, base, mid, vid).Ok? {
        var d1 := OpenSweep(d, ele, base, mid, vid).value;
        OpenSweepKeeps(d1, btc, base, mid, vid);
        if ele.Unfunded? && btc.Unfunded? { EnactKeeps(d1, mid); }
      }
    }
  }

  /** A flip no proposal of the migration has paid for keeps everything. */
  lemma EnactKeeps(db: Db, mid: MigrationId)
    requires Inv(db) && mid in db.migrations && db.migrations[mid].status == Proposed
    ensures db.migrations[mid].target.Some?
    ensures Inv(EnactVersionTransition(db, db.migrations[mid].target.value, db.migrations[mid].base, mid))
  {
    ProposedPair(db, mid);
    EnactKeepsVersions(db, mid);
    EnactKeepsMigrations(db, mid);
    var d := EnactVersionTransition(db, db.migrations[mid].target.value, db.migrations[mid].base, mid);
    forall pid | pid in d.proposals ensures Routed(d, pid) { assert Routed(db, pid); }
  }

  lemma SubmitKeeps(db: Db, pid: ProposalId, signer: SignerId, partial: Psbt, extracted: Option<RawTx>)
    requires Inv(db)
    ensures Inv(SubmitStep(db, pid, signer, partial, extracted))
  {
    var d := SubmitStep(db, pid, signer, partial, extracted);
    if d != db {
      assert Routed(db, pid);
      var p := d.proposals[pid];
      SetProposalKeeps(db, pid, p);
      SignaturesFrame(SetProposal(db, pid, p), d);
    }
  }

  lemma SetCompleteKeeps(db: Db, v: VersionId, txid: string)
    requires Inv(db) && v in db.versions && db.versions[v].status == Superseded
    ensures Inv(SetMigrationComplete(db, v, txid))
  {
    var d := SetMigrationComplete(db, v, txid);
    LifecyclesFrame(db, d);
    RoutesFrame(db, d);
  }

  /** A broadcast that enacts: marking and flipping together keep the invariant, which marking
      alone would not. */
  lemma BroadcastEnactsKeeps(db: Db, pid: ProposalId, txid: string)
    requires Inv(db) && pid in db.proposals && EnactmentFor(MarkBroadcast(db, pid, txid), pid).Some?
    ensures Inv(EnactAfterBroadcast(MarkBroadcast(db, pid, txid), pid, txid))
  {
    var m := db.proposals[pid].migration.value;
    var marked := MarkBroadcast(db, pid, txid);
    assert Routed(db, pid);
    ProposedPair(db, m);
    EnactKeeps(db, m);
    var base, target := db.migrations[m].base, db.migrations[m].target.value;
    var flipped := EnactVersionTransition(db, target, base, m);
    assert EnactVersionTransition(marked, target, base, m) == MarkBroadcast(flipped, pid, txid);
    SetProposalKeeps(flipped, pid, flipped.proposals[pid].(status := Broadcast, txid := Some(txid)));
    SetCompleteKeeps(MarkBroadcast(flipped, pid, txid), base, txid);
  }

  lemma BroadcastKeeps(db: Db, pid: ProposalId, accepted: Option<string>)
    requires Inv(db)
    ensures Inv(BroadcastStep(db, pid, accepted))
  {
    if StatusIn(db, pid, {Finalized}) && db.proposals[pid].finalizedTx.Some? && accepted.Some? {
      var txid := accepted.value;
      var marked := MarkBroadcast(db, pid, txid);
      assert Routed(db, pid);
      if EnactmentFor(marked, pid).Some? {
        BroadcastEnactsKeeps(db, pid, txid);
      } else {
        if db.proposals[pid].kind == MigrationSweep {
          assert Recorded(db, db.proposals[pid].migration.value);
        }
        SetProposalKeeps(db, pid, marked.proposals[pid]);
        if RecompletionFor(marked, pid).Some? {
          SetCompleteKeeps(marked, db.proposals[pid].version, txid);
        }
      }
    }
  }

  lemma RelayKeeps(db: Db, source: VersionId, current: VersionId, pid: ProposalId, draft: BuiltTx)
    requires Inv(db)
    ensures Inv(Step(db, ProposeRelay(source, current, pid, draft)))
  {
    if MayRelay(db, source, current) {
      ProposeKeeps(db, pid, source, Relay, None, Some(current), draft);
    }
  }

  lemma ResweepKeeps(db: Db, source: VersionId, mid: MigrationId, current: VersionId, pid: ProposalId, draft: BuiltTx)
    requires Inv(db)
    ensures Inv(Step(db, ProposeResweep(source, mid, current, pid, draft)))
  {
    if MayResweep(db, source, mid, current) {
      ProposeKeeps(db, pid, source, Resweep, Some(mid), Some(current), draft);
    }
  }

  lemma WithdrawKeeps(db: Db, pid: ProposalId)
    requires Inv(db)
    ensures Inv(CancelProposalStep(db, pid))
  {
    if StatusIn(db, pid, {Open, Signing, Finalized}) {
      assert Routed(db, pid);
      SetProposalKeeps(db, pid, db.proposals[pid].(status := Withdrawn));
    }
  }

  lemma StepKeeps(db: Db, e: Event)
    requires Inv(db)
    ensures Inv(Step(db, e))
  {
    match e
    case CreateFederation(id) => if id !in db.versions { InsertFederationKeeps(db, id); }
    case Migrate(base, mid, vid, pid, draft) => MigrateKeeps(db, base, mid, vid, Built(pid, draft));
    case MigrateDual(base, mid, vid, ele, btc) => MigrateDualKeeps(db, base, mid, vid, ele, btc);
    case ProposeSend(version, pid, draft) => ProposeKeeps(db, pid, version, Send, None, None, draft);
    case ProposeRelay(source, current, pid, draft) => RelayKeeps(db, source, current, pid, draft);
    case ProposeResweep(source, mid, current, pid, draft) => ResweepKeeps(db, source, mid, current, pid, draft);
    case SubmitPartial(pid, signer, partial, extracted) => SubmitKeeps(db, pid, signer, partial, extracted);
    case CancelProposal(pid) => WithdrawKeeps(db, pid);
    case BroadcastProposal(pid, accepted) => BroadcastKeeps(db, pid, accepted);
    case CancelMigrationOf(mid) => CancelKeeps(db, mid);
    case SyncLineage(lineage, wallets) => ReconcileKeeps(db, lineage, ConfirmedUnion(wallets));
  }

  /** Every reachable state satisfies the invariant; no unique index on `active` is needed. */
  lemma {:induction false} RunKeeps(db: Db, events: seq<Event>)
    requires Inv(db)
    ensures Inv(Run(db, events))
    decreases |events|
  {
    if events != [] {
      RunKeeps(db, events[..|events| - 1]);
      StepKeeps(Run(db, events[..|events| - 1]), events[|events| - 1]);
    }
  }

  lemma ReachableInv(events: seq<Event>)
    ensures Inv(Run(EMPTY, events))
  {
    assert Inv(EMPTY);
    RunKeeps(EMPTY, events);
  }
}
