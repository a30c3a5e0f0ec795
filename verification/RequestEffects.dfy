/** What each request does to the tables, column by column. */
module RequestEffects {
  import opened Wrappers
  import opened Schema
  import opened Transitions
  import opened Steps
  import opened LineageInvariant
  import opened LineageRuns
  import opened DualSweeps

  // ----- broadcasts -----

  /** The proposal was sent with this txid; nothing else of it changed. */
  predicate OnlyMarked(db: Db, d: Db, pid: ProposalId, accepted: Option<string>)
    requires pid in db.proposals
  {
    && d.proposals == db.proposals[pid := db.proposals[pid].(status := Broadcast, txid := accepted)]
    && d.signatures == db.signatures
  }

  /** A payment or a relay moves no version and no migration, whatever version it is sent from. */
  lemma SendOrRelayMovesNothing(db: Db, pid: ProposalId, accepted: Option<string>)
    requires Pushed(db, pid, accepted) && db.proposals[pid].kind in {Send, Relay}
    ensures
      var d := Step(db, BroadcastProposal(pid, accepted));
      OnlyMarked(db, d, pid, accepted) && d.versions == db.versions && d.migrations == db.migrations
  {
  }

  /** A re-sweep of a reverted version completes that version again with its own txid, at no
      confirmed height yet, and touches no other version and no migration; a re-sweep of a version
      that is not reverted moves nothing. */
  lemma ResweepCompletes(events: seq<Event>, pid: ProposalId, accepted: Option<string>)
    requires Pushed(Run(EMPTY, events), pid, accepted) && Run(EMPTY, events).proposals[pid].kind == Resweep
    ensures
      var db := Run(EMPTY, events);
      var v, d := db.proposals[pid].version, Step(db, BroadcastProposal(pid, accepted));
      && OnlyMarked(db, d, pid, accepted) && d.migrations == db.migrations && v in db.versions
      && d.versions == (if db.versions[v].sweepStatus == SweepPending
                        then db.versions[v := db.versions[v].(sweepStatus := Complete, sweepTxid := accepted)]
                        else db.versions)
      && (db.versions[v].sweepStatus == SweepPending ==> d.versions[v].sweepHeight == None)
  {
    var db := Run(EMPTY, events);
    ReachableInv(events);
    assert Routed(db, pid) && TripleOk(db.versions[db.proposals[pid].version]);
    ResweepColumns(db, pid, accepted);
  }

  lemma ResweepColumns(db: Db, pid: ProposalId, accepted: Option<string>)
    requires Pushed(db, pid, accepted) && db.proposals[pid].kind == Resweep && db.proposals[pid].version in db.versions
    ensures
      var v, d := db.proposals[pid].version, Step(db, BroadcastProposal(pid, accepted));
      && OnlyMarked(db, d, pid, accepted) && d.migrations == db.migrations
      && d.versions == (if db.versions[v].sweepStatus == SweepPending
                        then db.versions[v := db.versions[v].(sweepStatus := Complete, sweepTxid := accepted)]
                        else db.versions)
  {
  }

  /** A sweep of a migration that is still proposed supersedes the base with its txid, activates the
      target and enacts the migration; one of any other migration moves nothing. */
  lemma MigrationSweepFlips(events: seq<Event>, pid: ProposalId, accepted: Option<string>)
    requires Pushed(Run(EMPTY, events), pid, accepted) && Run(EMPTY, events).proposals[pid].kind == MigrationSweep
    ensures
      var db := Run(EMPTY, events);
      var p, d := db.proposals[pid], Step(db, BroadcastProposal(pid, accepted));
      && OnlyMarked(db, d, pid, accepted)
      && (!StillProposed(db, pid) ==> d.versions == db.versions && d.migrations == db.migrations)
      && (StillProposed(db, pid) ==>
            && p.payee.Some? && p.payee.value in db.versions && p.version in db.versions && p.payee.value != p.version
            && d.versions == db.versions
                 [p.version := db.versions[p.version].(status := Superseded, sweepStatus := Complete, sweepTxid := accepted)]
                 [p.payee.value := db.versions[p.payee.value].(status := Active)]
            && d.migrations == db.migrations
                 [p.migration.value := db.migrations[p.migration.value].(status := Enacted)])
  {
    var db := Run(EMPTY, events);
    ReachableInv(events);
    assert Routed(db, pid);
    if StillProposed(db, pid) {
      ProposedPair(db, db.proposals[pid].migration.value);
      FlipColumns(db, pid, accepted);
    }
  }

  lemma FlipColumns(db: Db, pid: ProposalId, accepted: Option<string>)
    requires Pushed(db, pid, accepted) && db.proposals[pid].kind == MigrationSweep && StillProposed(db, pid)
    requires var p := db.proposals[pid];
      var m := db.migrations[p.migration.value];
      && m.base == p.version && m.target == p.payee && p.payee.Some?
      && p.version in db.versions && p.payee.value in db.versions && p.version != p.payee.value
    ensures
      var p, d := db.proposals[pid], Step(db, BroadcastProposal(pid, accepted));
      && OnlyMarked(db, d, pid, accepted)
      && d.versions == db.versions
           [p.version := db.versions[p.version].(status := Superseded, sweepStatus := Complete, sweepTxid := accepted)]
           [p.payee.value := db.versions[p.payee.value].(status := Active)]
      && d.migrations == db.migrations
           [p.migration.value := db.migrations[p.migration.value].(status := Enacted)]
  {
  }

  /** A broadcast that is not pushed changes nothing. */
  lemma RefusedBroadcast(db: Db, pid: ProposalId, accepted: Option<string>)
    requires !Pushed(db, pid, accepted)
    ensures Step(db, BroadcastProposal(pid, accepted)) == db
  {
  }

  // ----- migrations -----

  /** The base is the current version of a lineage with nothing in flight, both ids are new and no
      version of the lineage has the next index. */
  predicate CanOpen(db: Db, base: VersionId, mid: MigrationId, vid: VersionId) {
    && base in db.versions && db.versions[base].status == Active
    && mid !in db.migrations && vid !in db.versions
    && (forall m :: m in db.migrations && db.migrations[m].lineage == db.versions[base].lineage ==>
          db.migrations[m].status in {Enacted, Cancelled})
    && (forall v :: v in db.versions && db.versions[v].lineage == db.versions[base].lineage ==>
          db.versions[v].index != db.versions[base].index + 1)
  }

  /** The pending successor and its migration. */
  predicate Opened(db: Db, d: Db, base: VersionId, mid: MigrationId, vid: VersionId)
    requires base in db.versions
  {
    var b := db.versions[base];
    && d.versions == db.versions[vid := VersionRow(b.lineage, b.index + 1, Some(base), Pending, NotApplicable, None, None)]
    && d.migrations == db.migrations[mid := MigrationRow(b.lineage, base, Some(vid), Proposed)]
    && d.signatures == db.signatures
  }

  lemma OpensIff(db: Db, base: VersionId, mid: MigrationId, vid: VersionId)
    ensures CanOpen(db, base, mid, vid) <==> MayMigrate(db, base) && OpenMigration(db, base, mid, vid).Ok?
    ensures CanOpen(db, base, mid, vid) ==>
      var d := OpenMigration(db, base, mid, vid).value;
      Opened(db, d, base, mid, vid) && d.proposals == db.proposals
  {
  }

  /** A single-chain migration request opens the migration with one unsigned sweep from the base to
      the successor, or changes nothing; a taken proposal id leaves the migration without a sweep. */
  lemma MigrateByColumns(db: Db, base: VersionId, mid: MigrationId, vid: VersionId, pid: ProposalId, draft: BuiltTx)
    ensures
      var d := Step(db, Migrate(base, mid, vid, pid, draft));
      if !CanOpen(db, base, mid, vid) then d == db
      else
        && Opened(db, d, base, mid, vid)
        && d.proposals == (if pid in db.proposals then db.proposals else db.proposals[pid :=
             ProposalRow(base, MigrationSweep, Some(mid), Some(vid), draft.policy, draft.psbt, Open, None, None)])
  {
    OpensIff(db, base, mid, vid);
  }

  /** The sweep one chain of a dual-chain migration adds, and whether the request goes on. */
  predicate Swept(before: map<ProposalId, ProposalRow>, after: map<ProposalId, ProposalRow>, plan: SweepPlan,
                  base: VersionId, mid: MigrationId, vid: VersionId)
  {
    if plan.Built? && plan.pid !in before
    then after == before[plan.pid :=
           ProposalRow(base, MigrationSweep, Some(mid), Some(vid), plan.draft.policy, plan.draft.psbt, Open, None, None)]
    else after == before
  }

  predicate Goes(before: map<ProposalId, ProposalRow>, plan: SweepPlan) {
    plan.Unfunded? || (plan.Built? && plan.pid !in before)
  }

  lemma ChainByColumns(db: Db, plan: SweepPlan, base: VersionId, mid: MigrationId, vid: VersionId)
    requires base in db.versions
    ensures OpenSweep(db, plan, base, mid, vid).Ok? <==> Goes(db.proposals, plan)
    ensures Goes(db.proposals, plan) ==>
      var d := OpenSweep(db, plan, base, mid, vid).value;
      d == db.(proposals := d.proposals) && Swept(db.proposals, d.proposals, plan, base, mid, vid)
  {
  }

  /** An unfunded dual-chain migration is enacted at once: the base is superseded, the successor
      active, nothing recorded. */
  lemma UnfundedByColumns(db: Db, base: VersionId, mid: MigrationId, vid: VersionId)
    requires CanOpen(db, base, mid, vid)
    ensures
      var b, d := db.versions[base], Step(db, MigrateDual(base, mid, vid, Unfunded, Unfunded));
      && d.versions == db.versions
           [vid := VersionRow(b.lineage, b.index + 1, Some(base), Active, NotApplicable, None, None)]
           [base := b.(status := Superseded)]
      && d.migrations == db.migrations[mid := MigrationRow(b.lineage, base, Some(vid), Enacted)]
      && d.proposals == db.proposals && d.signatures == db.signatures
  {
    OpensIff(db, base, mid, vid);
  }

  /** A dual-chain migration with a funded chain stays proposed, with one sweep for every chain up
      to the first that cannot be opened. */
  lemma FundedByColumns(db: Db, base: VersionId, mid: MigrationId, vid: VersionId, ele: SweepPlan, btc: SweepPlan)
    requires CanOpen(db, base, mid, vid) && !(ele.Unfunded? && btc.Unfunded?)
    ensures
      var d := Step(db, MigrateDual(base, mid, vid, ele, btc));
      && Opened(db, d, base, mid, vid)
      && (!Goes(db.proposals, ele) ==> d.proposals == db.proposals)
      && (Goes(db.proposals, ele) ==>
            exists one :: Swept(db.proposals, one, ele, base, mid, vid) && Swept(one, d.proposals, btc, base, mid, vid))
  {
    OpensIff(db, base, mid, vid);
    var begun := OpenMigration(db, base, mid, vid).value;
    ChainByColumns(begun, ele, base, mid, vid);
    if Goes(db.proposals, ele) {
      var one := OpenSweep(begun, ele, base, mid, vid).value;
      ChainByColumns(one, btc, base, mid, vid);
      assert Swept(db.proposals, one.proposals, ele, base, mid, vid);
    }
  }

  /** A cancel closes the migration whatever its state, abandons its target only while pending, and
      withdraws its sweeps unless they were broadcast; nothing else changes. */
  lemma CancelByColumns(db: Db, mid: MigrationId)
    ensures
      var d := Step(db, CancelMigrationOf(mid));
      && d.migrations == (if mid in db.migrations
                          then db.migrations[mid := db.migrations[mid].(status := Cancelled)] else db.migrations)
      && d.versions.Keys == db.versions.Keys
      && (forall v :: v in db.versions ==>
            d.versions[v] == if mid in db.migrations && db.migrations[mid].target == Some(v) && db.versions[v].status == Pending
                             then db.versions[v].(status := Abandoned) else db.versions[v])
      && d.proposals.Keys == db.proposals.Keys
      && (forall p :: p in db.proposals ==>
            d.proposals[p] == if db.proposals[p].migration == Some(mid) && db.proposals[p].status != Broadcast
                              then db.proposals[p].(status := Withdrawn) else db.proposals[p])
      && d.signatures == db.signatures
  {
  }

  // ----- proposals -----

  /** What a new proposal stores: the draft, unsigned and open. */
  predicate Stored(db: Db, d: Db, pid: ProposalId, version: VersionId, kind: ProposalKind,
                   migration: Option<MigrationId>, payee: Option<VersionId>, draft: BuiltTx)
  {
    d == db.(proposals := db.proposals[pid :=
      ProposalRow(version, kind, migration, payee, draft.policy, draft.psbt, Open, None, None)])
  }

  /** A payment is stored for a known version, a relay for a version that is not current and with the
      current one as payee, a re-sweep for a reverted version under an enacted migration of it; each
      under a new id, and otherwise nothing changes. */
  lemma ProposalsByColumns(db: Db, pid: ProposalId, version: VersionId, mid: MigrationId, current: VersionId, draft: BuiltTx)
    ensures
      var d := Step(db, ProposeSend(version, pid, draft));
      if pid !in db.proposals && version in db.versions
      then Stored(db, d, pid, version, Send, None, None, draft) else d == db
    ensures
      var d := Step(db, ProposeRelay(version, current, pid, draft));
      if && pid !in db.proposals && version in db.versions && db.versions[version].status != Active
         && current in db.versions && db.versions[current].status == Active
         && db.versions[current].lineage == db.versions[version].lineage
      then Stored(db, d, pid, version, Relay, None, Some(current), draft) else d == db
    ensures
      var d := Step(db, ProposeResweep(version, mid, current, pid, draft));
      if && pid !in db.proposals && version in db.versions && db.versions[version].sweepStatus == SweepPending
         && mid in db.migrations && db.migrations[mid].base == version && db.migrations[mid].status == Enacted
         && current in db.versions && db.versions[current].status == Active
         && db.versions[current].lineage == db.versions[version].lineage
      then Stored(db, d, pid, version, Resweep, Some(mid), Some(current), draft) else d == db
  {
  }

  /** Withdrawing is possible until the broadcast, and changes the status only. */
  lemma WithdrawByColumns(db: Db, pid: ProposalId)
    ensures
      var d := Step(db, CancelProposal(pid));
      if pid in db.proposals && db.proposals[pid].status in {Open, Signing, Finalized}
      then d == db.(proposals := db.proposals[pid := db.proposals[pid].(status := Withdrawn)])
      else d == db
  {
  }

  /** A new federation is the active version 0 of its own lineage. */
  lemma CreateByColumns(db: Db, id: VersionId)
    ensures
      var d := Step(db, CreateFederation(id));
      if id in db.versions then d == db
      else d == db.(versions := db.versions[id := VersionRow(id, 0, None, Active, NotApplicable, None, None)])
  {
  }
}
