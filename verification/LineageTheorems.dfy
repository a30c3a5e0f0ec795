/** What the version machinery guarantees over whole runs. */
module LineageTheorems {
  import opened Wrappers
  import opened Primitives
  import opened Psbts
  import opened Schema
  import opened Transitions
  import opened Steps
  import opened LineageInvariant
  import opened LineageRuns

  // ----- lifecycles only move forward -----

  /** One lifecycle edge, or none. */
  predicate Edge(s: VersionStatus, t: VersionStatus) {
    s == t || (s == Pending && t == Active) || (s == Pending && t == Abandoned) || (s == Active && t == Superseded)
  }

  predicate MigrationEdge(s: MigrationStatus, t: MigrationStatus) {
    s == t || (s == Proposed && t == Enacted) || t == Cancelled
  }

  predicate Terminal(s: ProposalStatus) {
    s == Broadcast || s == Withdrawn
  }

  predicate VersionAdvances(r: VersionRow, s: VersionRow) {
    s.lineage == r.lineage && s.index == r.index && s.predecessor == r.predecessor && Edge(r.status, s.status)
  }

  predicate MigrationAdvances(r: MigrationRow, s: MigrationRow) {
    s == r.(status := s.status) && MigrationEdge(r.status, s.status)
  }

  predicate ProposalAdvances(r: ProposalRow, s: ProposalRow) {
    s.version == r.version && s.kind == r.kind && s.migration == r.migration && s.payee == r.payee
    && (Terminal(r.status) ==> s == r)
  }

  /** Rows stay in place and their statuses take at most one edge; a proposal that was
      broadcast or withdrawn is frozen. */
  ghost predicate Advances(db: Db, d: Db) {
    && (forall v {:trigger v in d.versions} {:trigger d.versions[v]} :: v in db.versions ==>
          v in d.versions && VersionAdvances(db.versions[v], d.versions[v]))
    && (forall m {:trigger m in d.migrations} {:trigger d.migrations[m]} :: m in db.migrations ==>
          m in d.migrations && MigrationAdvances(db.migrations[m], d.migrations[m]))
    && (forall p {:trigger p in d.proposals} {:trigger d.proposals[p]} :: p in db.proposals ==>
          p in d.proposals && ProposalAdvances(db.proposals[p], d.proposals[p]))
  }

  lemma EnactAdvances(db: Db, mid: MigrationId)
    requires Inv(db) && mid in db.migrations && db.migrations[mid].status == Proposed
    ensures db.migrations[mid].target.Some?
    ensures Advances(db, EnactVersionTransition(db, db.migrations[mid].target.value, db.migrations[mid].base, mid))
  {
    ProposedPair(db, mid);
  }

  /** An advance followed by changes to reconciliation columns and live proposals only. */
  lemma AdvanceThen(db: Db, d: Db, e: Db)
    requires Advances(db, d) && SameLifecycles(d, e)
    requires forall p :: p in d.proposals ==> p in e.proposals
    requires forall p :: p in db.proposals ==> ProposalAdvances(db.proposals[p], e.proposals[p])
    ensures Advances(db, e)
  {
  }

  lemma MigrateAdvances(db: Db, base: VersionId, mid: MigrationId, vid: VersionId, plan: SweepPlan)
    requires Inv(db)
    ensures Advances(db, MigrateStep(db, base, mid, vid, plan))
  {
    if MayMigrate(db, base) && OpenMigration(db, base, mid, vid).Ok? {
      CreatePendingAdds(db, mid, vid, base);
      var d := OpenMigration(db, base, mid, vid).value;
      assert Advances(db, d);
      AdvanceThen(db, d, MigrateStep(db, base, mid, vid, plan));
    }
  }

  /** The unfunded version bump: the base advances and the new version starts out active. */
  lemma UnfundedAdvances(db: Db, base: VersionId, mid: MigrationId, vid: VersionId)
    requires base in db.versions && db.versions[base].status == Active
    requires OpenMigration(db, base, mid, vid).Ok?
    ensures Advances(db, EnactVersionTransition(OpenMigration(db, base, mid, vid).value, vid, base, mid))
  {
    CreatePendingAdds(db, mid, vid, base);
  }

  /** Opening a sweep only adds a proposal row. */
  lemma OpenSweepAdds(db: Db, d: Db, plan: SweepPlan, base: VersionId, mid: MigrationId, vid: VersionId)
    requires OpenSweep(db, plan, base, mid, vid) == Ok(d)
    ensures d == db.(proposals := d.proposals)
    ensures forall p :: p in db.proposals ==> p in d.proposals && d.proposals[p] == db.proposals[p]
    ensures plan.Unfunded? ==> d == db
  {
  }

  lemma MigrateDualAdvances(db: Db, base: VersionId, mid: MigrationId, vid: VersionId,
                            ele: SweepPlan, btc: SweepPlan)
    requires Inv(db)
    ensures Advances(db, MigrateDualStep(db, base, mid, vid, ele, btc))
  {
    if MayMigrate(db, base) && OpenMigration(db, base, mid, vid).Ok? {
      CreatePendingAdds(db, mid, vid, base);
      var d := OpenMigration(db, base, mid, vid).value;
      assert Advances(db, d);
      var first := OpenSweep(d, ele, base, mid, vid);
      if first.Ok? {
        OpenSweepAdds(d, first.value, ele, base, mid, vid);
        AdvanceThen(db, d, first.value);
        var both := OpenSweep(first.value, btc, base, mid, vid);
        if both.Ok? {
          OpenSweepAdds(first.value, both.value, btc, base, mid, vid);
          AdvanceThen(db, first.value, both.value);
          if ele.Unfunded? && btc.Unfunded? { UnfundedAdvances(db, base, mid, vid); }
        }
      }
    }
  }

  /** The version rows' share of a broadcast: a flip with the recorded txid, a re-recorded
      txid, or nothing; the proposal row is marked in every case. */
  function Settled(db: Db, pid: ProposalId, txid: string): Db {
    match EnactmentFor(db, pid)
    case Some(m) =>
      var row := db.migrations[m];
      SetMigrationComplete(EnactVersionTransition(db, row.target.value, row.base, m), row.base, txid)
    case None =>
      match RecompletionFor(db, pid)
      case Some(v) => SetMigrationComplete(db, v, txid)
      case None => db
  }

  lemma BroadcastEffect(db: Db, pid: ProposalId, accepted: Option<string>)
    requires Pushed(db, pid, accepted)
    ensures Settled(db, pid, accepted.value).proposals == db.proposals
    ensures Settled(db, pid, accepted.value).signatures == db.signatures
    ensures BroadcastStep(db, pid, accepted) ==
      MarkBroadcast(Settled(db, pid, accepted.value), pid, accepted.value)
  {
    var marked := MarkBroadcast(db, pid, accepted.value);
    assert EnactmentFor(marked, pid) == EnactmentFor(db, pid);
    assert RecompletionFor(marked, pid) == RecompletionFor(db, pid);
  }

  lemma CompleteAdvances(db: Db, d: Db, v: VersionId, txid: string)
    requires Advances(db, d)
    ensures Advances(db, SetMigrationComplete(d, v, txid))
  {
  }

  lemma SettledAdvances(db: Db, pid: ProposalId, txid: string)
    requires Inv(db)
    ensures Advances(db, Settled(db, pid, txid))
  {
    match EnactmentFor(db, pid)
    case Some(m) =>
      var row := db.migrations[m];
      EnactAdvances(db, m);
      CompleteAdvances(db, EnactVersionTransition(db, row.target.value, row.base, m), row.base, txid);
    case None =>
      match RecompletionFor(db, pid)
      case Some(v) => CompleteAdvances(db, db, v, txid);
      case None =>
  }

  lemma BroadcastAdvances(db: Db, pid: ProposalId, accepted: Option<string>)
    requires Inv(db)
    ensures Advances(db, BroadcastStep(db, pid, accepted))
  {
    if Pushed(db, pid, accepted) {
      BroadcastEffect(db, pid, accepted);
      SettledAdvances(db, pid, accepted.value);
      AdvanceThen(db, Settled(db, pid, accepted.value), BroadcastStep(db, pid, accepted));
    }
  }

  lemma SyncAdvances(db: Db, lineage: VersionId, wallets: seq<map<Txid, nat>>)
    ensures Advances(db, Step(db, SyncLineage(lineage, wallets)))
  {
  }

  lemma CancelAdvances(db: Db, mid: MigrationId)
    ensures Advances(db, CancelMigration(db, mid))
  {
  }

  lemma SubmitAdvances(db: Db, pid: ProposalId, signer: SignerId, partial: Psbt, extracted: Option<RawTx>)
    ensures Advances(db, SubmitStep(db, pid, signer, partial, extracted))
  {
  }

  lemma ProposeAdvances(db: Db, pid: ProposalId, version: VersionId, kind: ProposalKind,
                        migration: Option<MigrationId>, payee: Option<VersionId>, draft: BuiltTx)
    ensures Advances(db, ProposeStep(db, pid, version, kind, migration, payee, draft))
  {
  }

  lemma RelayAdvances(db: Db, source: VersionId, current: VersionId, pid: ProposalId, draft: BuiltTx)
    ensures Advances(db, Step(db, ProposeRelay(source, current, pid, draft)))
  {
    ProposeAdvances(db, pid, source, Relay, None, Some(current), draft);
  }

  lemma ResweepAdvances(db: Db, source: VersionId, mid: MigrationId, current: VersionId, pid: ProposalId, draft: BuiltTx)
    ensures Advances(db, Step(db, ProposeResweep(source, mid, current, pid, draft)))
  {
    ProposeAdvances(db, pid, source, Resweep, Some(mid), Some(current), draft);
  }

  lemma WithdrawAdvances(db: Db, pid: ProposalId)
    ensures Advances(db, CancelProposalStep(db, pid))
  {
  }

  lemma CreateAdvances(db: Db, id: VersionId)
    ensures Advances(db, Step(db, CreateFederation(id)))
  {
  }

  /** The requests that leave versions and migrations to others. */
  lemma ProposalStepAdvances(db: Db, e: Event)
    requires e.ProposeSend? || e.ProposeRelay? || e.ProposeResweep? || e.SubmitPartial? || e.CancelProposal?
    ensures Advances(db, Step(db, e))
  {
    match e
    case ProposeSend(version, pid, draft) => ProposeAdvances(db, pid, version, Send, None, None, draft);
    case ProposeRelay(source, current, pid, draft) => RelayAdvances(db, source, current, pid, draft);
    case ProposeResweep(source, mid, current, pid, draft) => ResweepAdvances(db, source, mid, current, pid, draft);
    case SubmitPartial(pid, signer, partial, extracted) => SubmitAdvances(db, pid, signer, partial, extracted);
    case CancelProposal(pid) => WithdrawAdvances(db, pid);
  }

  lemma StepAdvances(db: Db, e: Event)
    requires Inv(db)
    ensures Advances(db, Step(db, e))
  {
    match e
    case CreateFederation(id) => CreateAdvances(db, id);
    case Migrate(base, mid, vid, pid, draft) => MigrateAdvances(db, base, mid, vid, Built(pid, draft));
    case MigrateDual(base, mid, vid, ele, btc) => MigrateDualAdvances(db, base, mid, vid, ele, btc);
    case BroadcastProposal(pid, accepted) => BroadcastAdvances(db, pid, accepted);
    case SyncLineage(lineage, wallets) => SyncAdvances(db, lineage, wallets);
    case CancelMigrationOf(mid) => CancelAdvances(db, mid);
    case _ => ProposalStepAdvances(db, e);
  }

  /** The transitive closure of `Edge`. */
  predicate Reaches(s: VersionStatus, t: VersionStatus) {
    s == t || s == Pending || (s == Active && t == Superseded)
  }

  ghost predicate AdvancesFar(db: Db, d: Db) {
    && (forall v {:trigger v in d.versions} {:trigger d.versions[v]} :: v in db.versions ==>
          (&& v in d.versions
           && d.versions[v].lineage == db.versions[v].lineage
           && d.versions[v].index == db.versions[v].index
           && d.versions[v].predecessor == db.versions[v].predecessor
           && Reaches(db.versions[v].status, d.versions[v].status)))
    && (forall m {:trigger m in d.migrations} {:trigger d.migrations[m]} :: m in db.migrations ==>
          (&& m in d.migrations
           && d.migrations[m] == db.migrations[m].(status := d.migrations[m].status)
           && (db.migrations[m].status == Cancelled ==> d.migrations[m].status == Cancelled)
           && (db.migrations[m].status == Enacted ==> d.migrations[m].status != Proposed)))
    && (forall p {:trigger p in d.proposals} {:trigger d.proposals[p]} :: p in db.proposals ==>
          (&& p in d.proposals
           && (Terminal(db.proposals[p].status) ==> d.proposals[p] == db.proposals[p])))
  }

  lemma AdvancesOn(db: Db, mid: Db, end: Db)
    requires AdvancesFar(db, mid) && Advances(mid, end)
    ensures AdvancesFar(db, end)
  {
  }

  lemma {:induction false} RunAdvances(db: Db, events: seq<Event>)
    requires Inv(db)
    ensures AdvancesFar(db, Run(db, events))
    decreases |events|
  {
    if events != [] {
      var init := events[..|events| - 1];
      RunAdvances(db, init);
      RunKeeps(db, init);
      StepAdvances(Run(db, init), events[|events| - 1]);
      AdvancesOn(db, Run(db, init), Run(db, events));
    }
  }

  // ----- funds go to live versions of their own lineage -----

  /** In every run, each broadcast sweep pays a version of its own lineage that is active or
      superseded, and stays so whatever is requested afterwards. */
  lemma BroadcastSweepsPayLiveVersions(before: seq<Event>, after: seq<Event>, pid: ProposalId)
    requires pid in Run(EMPTY, before).proposals
    requires Run(EMPTY, before).proposals[pid].status == Broadcast
    requires Run(EMPTY, before).proposals[pid].kind != Send
    ensures var db := Run(EMPTY, before); var later := Run(db, after);
      && PaysLive(db, db.proposals[pid])
      && pid in later.proposals && later.proposals[pid] == db.proposals[pid]
      && PaysLive(later, db.proposals[pid])
  {
    var db := Run(EMPTY, before);
    ReachableInv(before);
    assert Routed(db, pid);
    RunAdvances(db, after);
  }

  // ----- a lineage is one chain -----

  /** The version at `i` has index `i`, follows the one before it and is followed by the next. */
  predicate Link(db: Db, chain: seq<VersionId>, i: nat)
    requires i < |chain|
  {
    && chain[i] in db.versions
    && db.versions[chain[i]].lineage == chain[0]
    && db.versions[chain[i]].index == i
    && db.versions[chain[i]].predecessor == (if i == 0 then None else Some(chain[i - 1]))
    && (i < |chain| - 1 ==> db.versions[chain[i]].status == Superseded)
  }

  /** `chain` runs from version 0 to `v`, each version following the previous one. */
  predicate IsChain(db: Db, chain: seq<VersionId>, v: VersionId) {
    chain != [] && chain[|chain| - 1] == v
    && forall i {:trigger chain[i]} :: 0 <= i < |chain| ==> Link(db, chain, i)
  }

  lemma ChainSnoc(db: Db, init: seq<VersionId>, p: VersionId, v: VersionId)
    requires IsChain(db, init, p) && db.versions[p].status == Superseded
    requires v in db.versions && db.versions[v].predecessor == Some(p)
    requires db.versions[v].lineage == init[0] && db.versions[v].index == |init|
    ensures IsChain(db, init + [v], v)
  {
    var chain := init + [v];
    forall i: nat | i < |chain| ensures Link(db, chain, i) {
      if i < |init| {
        assert chain[i] == init[i] && Link(db, init, i);
      }
    }
  }

  lemma {:induction false} ChainTo(db: Db, v: VersionId) returns (chain: seq<VersionId>)
    requires VersionsShaped(db) && v in db.versions && Live(db.versions[v])
    ensures IsChain(db, chain, v)
    decreases db.versions[v].index
  {
    assert Placed(db, v);
    if v == db.versions[v].lineage {
      chain := [v];
    } else {
      var p := db.versions[v].predecessor.value;
      var init := ChainTo(db, p);
      chain := init + [v];
      ChainSnoc(db, init, p, v);
    }
  }

  /** In every reachable state a lineage has exactly one active version; it ends the single
      chain of enacted versions, which starts at version 0; anything else in the lineage is one
      version that follows the active one and is pending or abandoned. */
  lemma LineageIsOneChain(events: seq<Event>, lineage: VersionId) returns (chain: seq<VersionId>)
    requires lineage in Run(EMPTY, events).versions
    requires Run(EMPTY, events).versions[lineage].lineage == lineage
    ensures var db := Run(EMPTY, events);
      && chain != [] && chain[0] == lineage
      && IsChain(db, chain, chain[|chain| - 1])
      && (forall a :: IsCurrent(db, lineage, a) <==> a == chain[|chain| - 1])
      && (forall v :: v in db.versions && db.versions[v].lineage == lineage ==>
            if Live(db.versions[v]) then v in chain
            else db.versions[v].index == |chain| && db.versions[v].predecessor == Some(chain[|chain| - 1]))
  {
    var db := Run(EMPTY, events);
    ReachableInv(events);
    assert HasCurrent(db, lineage);
    var current: VersionId :| IsCurrent(db, lineage, current);
    chain := ChainTo(db, current);
    assert Compatible(db, chain[0], lineage) && Placed(db, lineage);
    forall a | IsCurrent(db, lineage, a) ensures a == current { assert Compatible(db, a, current); }
    forall v | v in db.versions && db.versions[v].lineage == lineage
      ensures if Live(db.versions[v]) then v in chain
              else db.versions[v].index == |chain| && db.versions[v].predecessor == Some(current)
    {
      assert Compatible(db, current, v) && Compatible(db, v, current) && Placed(db, v);
      if Live(db.versions[v]) {
        assert Compatible(db, v, chain[db.versions[v].index]);
      } else {
        assert Compatible(db, db.versions[v].predecessor.value, current);
      }
    }
  }

  /** Every migration still proposed has its base active and its target pending. */
  lemma ProposedMigrationsAreOpen(events: seq<Event>, m: MigrationId)
    requires m in Run(EMPTY, events).migrations
    requires Run(EMPTY, events).migrations[m].status == Proposed
    ensures var db := Run(EMPTY, events); var r := db.migrations[m];
      && IsCurrent(db, r.lineage, r.base)
      && r.target.Some? && r.target.value in db.versions
      && db.versions[r.target.value].status == Pending
      && db.versions[r.target.value].predecessor == Some(r.base)
  {
    ReachableInv(events);
    ProposedPair(Run(EMPTY, events), m);
  }

  // ----- the index on active versions never fires -----

  predicate OneActive(versions: map<VersionId, VersionRow>) {
    forall v, w ::
      v in versions && w in versions && versions[v].status == versions[w].status == Active
      && versions[v].lineage == versions[w].lineage
      ==> v == w
  }

  /** The unique index holds after each statement of the flip, in the order the code uses;
      activating the successor first would violate it. */
  lemma FlipNeverTripsTheActiveIndex(events: seq<Event>, m: MigrationId)
    requires m in Run(EMPTY, events).migrations
    requires Run(EMPTY, events).migrations[m].status == Proposed
    ensures var db := Run(EMPTY, events); var r := db.migrations[m];
      && r.target.Some?
      && OneActive(WithStatus(db.versions, r.base, Superseded))
      && OneActive(WithStatus(WithStatus(db.versions, r.base, Superseded), r.target.value, Active))
      && !OneActive(WithStatus(db.versions, r.target.value, Active))
  {
    var db := Run(EMPTY, events);
    ReachableInv(events);
    ProposedPair(db, m);
    EnactKeepsVersions(db, m);
    var r := db.migrations[m];
    forall v, w | v in db.versions && w in db.versions && db.versions[v].status == Active
      && db.versions[w].status == Active && db.versions[v].lineage == db.versions[w].lineage
      ensures v == w
    {
      assert Compatible(db, v, w);
    }
    var d := EnactVersionTransition(db, r.target.value, r.base, m);
    forall v, w | v in d.versions && w in d.versions && d.versions[v].status == Active
      && d.versions[w].status == Active && d.versions[v].lineage == d.versions[w].lineage
      ensures v == w
    {
      assert Compatible(d, v, w);
    }
    var early := WithStatus(db.versions, r.target.value, Active);
    assert early[r.base].status == Active && early[r.target.value].status == Active;
  }

  /** In every reachable state the index takes the flip a broadcast owes and the bump of an
      unfunded migration: neither request can fail on it, so its step happens as it stands. */
  lemma IndexNeverRefuses(events: seq<Event>, pid: ProposalId, base: VersionId, mid: MigrationId, vid: VersionId)
    ensures OwedFlipFits(Run(EMPTY, events), pid) && BumpFits(Run(EMPTY, events), base, mid, vid)
  {
    var db := Run(EMPTY, events);
    ReachableInv(events);
    match EnactmentFor(db, pid) {
      case None =>
      case Some(m) => FlipFitsIn(db, m);
    }
    if MayMigrate(db, base) && OpenMigration(db, base, mid, vid).Ok? {
      CreatePendingKeeps(db, mid, vid, base);
      FlipFitsIn(OpenMigration(db, base, mid, vid).value, mid);
    }
  }

  lemma FlipFitsIn(db: Db, m: MigrationId)
    requires Inv(db) && m in db.migrations && db.migrations[m].status == Proposed
    ensures db.migrations[m].target.Some?
    ensures FlipFits(db.versions, db.migrations[m].target.value, db.migrations[m].base)
  {
    ProposedPair(db, m);
    var r := db.migrations[m];
    forall w | w in db.versions && db.versions[w].lineage == r.lineage && db.versions[w].status == Active
      ensures w == r.base
    {
      assert Compatible(db, w, r.base);
    }
  }

  // ----- a migration flips at most once -----

  /** Between the two states, the target of `m` became the current version. */
  predicate Flips(db: Db, d: Db, m: MigrationId) {
    m in d.migrations && d.migrations[m].target.Some? &&
    var t := d.migrations[m].target.value;
    && t in d.versions && d.versions[t].status == Active
    && (t in db.versions ==> db.versions[t].status != Active)
  }

  /** The event at position `k` flips versions for `m`. */
  ghost predicate FlipsAt(events: seq<Event>, m: MigrationId, k: nat)
    requires k < |events|
  {
    Flips(Run(EMPTY, events[..k]), Run(EMPTY, events[..k + 1]), m)
  }

  lemma PrefixAdvances(events: seq<Event>, k: nat)
    requires k < |events|
    ensures Advances(Run(EMPTY, events[..k]), Run(EMPTY, events[..k + 1]))
  {
    ReachableInv(events[..k]);
    assert events[..k + 1][..k] == events[..k];
    StepAdvances(Run(EMPTY, events[..k]), events[k]);
  }

  lemma PrefixAdvancesFar(events: seq<Event>, i: nat, k: nat)
    requires i <= k <= |events|
    ensures AdvancesFar(Run(EMPTY, events[..i]), Run(EMPTY, events[..k]))
  {
    ReachableInv(events[..i]);
    assert events[..k] == events[..i] + events[i..k];
    RunConcat(EMPTY, events[..i], events[i..k]);
    RunAdvances(Run(EMPTY, events[..i]), events[i..k]);
  }

  lemma NoFlipOnceActive(db: Db, first: Db, before: Db, after: Db, m: MigrationId)
    requires Flips(db, first, m) && AdvancesFar(first, before) && Advances(before, after)
    ensures !Flips(before, after, m)
  {
    assert after.migrations[m].target == first.migrations[m].target;
  }

  lemma NoSecondFlip(events: seq<Event>, m: MigrationId, a: nat, b: nat)
    requires a < b < |events| && FlipsAt(events, m, a)
    ensures !FlipsAt(events, m, b)
  {
    PrefixAdvancesFar(events, a + 1, b);
    PrefixAdvances(events, b);
    NoFlipOnceActive(Run(EMPTY, events[..a]), Run(EMPTY, events[..a + 1]),
      Run(EMPTY, events[..b]), Run(EMPTY, events[..b + 1]), m);
  }

  /** Whatever the order of the two sweeps of a dual-chain migration, of re-broadcast attempts
      and of cancels, no migration flips versions twice. */
  lemma MigrationFlipsAtMostOnce(events: seq<Event>, m: MigrationId, j: nat, k: nat)
    requires j < |events| && k < |events|
    requires FlipsAt(events, m, j) && FlipsAt(events, m, k)
    ensures j == k
  {
    if j < k {
      NoSecondFlip(events, m, j, k);
    } else if k < j {
      NoSecondFlip(events, m, k, j);
    }
  }

  // ----- the reconciliation triple -----

  /** Over all runs: a latched height implies a recorded sweep; a recorded sweep a superseded
      version; a reverted version records nothing; and recording a sweep, although it does not
      clear the height, never finds one latched. */
  lemma TripleInvariant(events: seq<Event>, v: VersionId)
    requires v in Run(EMPTY, events).versions
    ensures var db := Run(EMPTY, events); var r := db.versions[v];
      && (r.sweepHeight.Some? ==> r.sweepStatus == Complete && r.sweepTxid.Some?)
      && (r.sweepStatus == Complete ==> r.sweepTxid.Some? && r.status == Superseded)
      && (r.sweepStatus == SweepPending ==> r.sweepTxid == None && r.sweepHeight == None)
      && (forall s :: Succeeds(db, v, s) ==> r.status == Superseded)
      && (forall pid ::
            EnactmentFor(db, pid).Some? && db.migrations[EnactmentFor(db, pid).value].base == v
            ==> r.sweepHeight == None)
      && (forall pid :: RecompletionFor(db, pid) == Some(v) ==> r.sweepHeight == None)
  {
    var db := Run(EMPTY, events);
    ReachableInv(events);
    assert TripleOk(db.versions[v]);
    forall s | Succeeds(db, v, s) ensures db.versions[v].status == Superseded { assert Placed(db, s); }
    forall pid | EnactmentFor(db, pid).Some? && db.migrations[EnactmentFor(db, pid).value].base == v
      ensures db.versions[v].sweepHeight == None
    {
      ProposedPair(db, EnactmentFor(db, pid).value);
    }
  }
}
