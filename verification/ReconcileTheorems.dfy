/** What reconciliation guarantees: one pass settles a lineage, and a whole history of passes
    reverts a sweep exactly when its confirmation was seen and then lost. */
module ReconcileTheorems {
  import opened Wrappers
  import opened Primitives
  import opened Schema
  import opened Transitions
  import opened Steps
  import opened LineageInvariant
  import opened LineageRuns
  import opened LineageTheorems
  import opened Reconcile

  // ----- one pass -----

  /** After a pass, a complete version of the lineage has a latched height if and only if its
      sweep is confirmed now; a reverted row is fully reset; everything else is untouched. */
  lemma PassSettles(versions: map<VersionId, VersionRow>, lineage: VersionId, confirmed: map<Txid, nat>)
    ensures var after := ReconcileRows(versions, lineage, confirmed);
      && after.Keys == versions.Keys
      && (forall v :: v in after && after[v].lineage == lineage && Candidate(after[v]) ==>
            (after[v].sweepHeight.Some? <==> CandidateTxid(after[v]) in confirmed))
      && (forall v :: v in versions && !(versions[v].lineage == lineage && Candidate(versions[v])) ==>
            after[v] == versions[v])
      && (forall v :: v in RevertedIn(versions, after) <==>
            (&& v in versions && versions[v].lineage == lineage && Candidate(versions[v])
             && versions[v].sweepHeight.Some? && CandidateTxid(versions[v]) !in confirmed))
      && (forall v :: v in RevertedIn(versions, after) ==>
            after[v] == versions[v].(sweepStatus := SweepPending, sweepTxid := None, sweepHeight := None))
  {
  }

  /** A second pass over the same wallets changes nothing and reverts nothing. */
  lemma SecondPassIsIdle(versions: map<VersionId, VersionRow>, lineage: VersionId, confirmed: map<Txid, nat>)
    ensures var after := ReconcileRows(versions, lineage, confirmed);
      && ReconcileRows(after, lineage, confirmed) == after
      && RevertedIn(after, ReconcileRows(after, lineage, confirmed)) == {}
  {
    var after := ReconcileRows(versions, lineage, confirmed);
    forall v | v in after ensures ReconcileRows(after, lineage, confirmed)[v] == after[v] {
      ObserveTwice(versions[v], confirmed);
    }
  }

  lemma ObserveTwice(row: VersionRow, confirmed: map<Txid, nat>)
    ensures var once := Observe(row, SeenHeight(row, confirmed));
      Observe(once, SeenHeight(once, confirmed)) == once
  {
  }

  /** Two lineage syncs from one reachable state whose wallets end with the same canonical
      transactions write the same rows and report the same total of reverts, whatever rebuilds
      each of them saw. */
  lemma RebuildFlagsAreIrrelevant(events: seq<Event>, lineage: VersionId,
                                  node: map<VersionId, SyncAnswer>, node': map<VersionId, SyncAnswer>,
                                  order: seq<VersionId>, order': seq<VersionId>,
                                  after: map<VersionId, VersionRow>, after': map<VersionId, VersionRow>,
                                  summaries: seq<SyncSummary>, summaries': seq<SyncSummary>)
    requires IsReport(Run(EMPTY, events).versions, lineage, node, order, after, summaries)
    requires IsReport(Run(EMPTY, events).versions, lineage, node', order', after', summaries')
    requires forall v :: v in order && v in order' ==> node[v].transactions == node'[v].transactions
    ensures after == after'
    ensures SumReverted(summaries) == SumReverted(summaries')
    ensures VersionsOf(summaries) == VersionsOf(summaries')
  {
    var db := Run(EMPTY, events);
    ReachableInv(events);
    ListingsEqual(db, lineage, order, order');
    ListingsEqual(db, lineage, VersionsOf(summaries), VersionsOf(summaries'));
    ReportsAgree(db.versions, lineage, node, node', order, after, after', summaries, summaries');
  }

  lemma ReportsAgree(before: map<VersionId, VersionRow>, lineage: VersionId,
                     node: map<VersionId, SyncAnswer>, node': map<VersionId, SyncAnswer>, order: seq<VersionId>,
                     after: map<VersionId, VersionRow>, after': map<VersionId, VersionRow>,
                     summaries: seq<SyncSummary>, summaries': seq<SyncSummary>)
    requires IsReport(before, lineage, node, order, after, summaries)
    requires IsReport(before, lineage, node', order, after', summaries')
    requires forall v :: v in order ==> node[v].transactions == node'[v].transactions
    ensures after == after' && SumReverted(summaries) == SumReverted(summaries')
  {
    assert ConfirmedViews(TransactionsOf(node), order) == ConfirmedViews(TransactionsOf(node'), order);
    ReportCounts(before, lineage, node, order, after, summaries);
    ReportCounts(before, lineage, node', order, after', summaries');
  }

  lemma ListingsEqual(db: Db, lineage: VersionId, order: seq<VersionId>, order': seq<VersionId>)
    requires VersionsShaped(db) && Listing(db.versions, lineage, order) && Listing(db.versions, lineage, order')
    ensures order == order'
  {
    ListingUnique(db, lineage, order, order', |order|);
    ListingUnique(db, lineage, order', order, |order'|);
  }

  /** The first `n` entries of two listings agree. */
  lemma {:induction false} ListingUnique(db: Db, lineage: VersionId, order: seq<VersionId>, order': seq<VersionId>, n: nat)
    requires VersionsShaped(db) && Listing(db.versions, lineage, order) && Listing(db.versions, lineage, order')
    requires n <= |order|
    ensures n <= |order'| && forall i :: 0 <= i < n ==> order[i] == order'[i]
  {
    if n > 0 {
      ListingUnique(db, lineage, order, order', n - 1);
      var v := order[n - 1];
      assert v in order';
      var k :| 0 <= k < |order'| && order'[k] == v;
      assert k >= n - 1;
      var w := order'[n - 1];
      assert w in order;
      var j :| 0 <= j < |order| && order[j] == w;
      assert j >= n - 1;
      assert Compatible(db, v, w);
    }
  }

  // ----- a history of passes over one row -----

  function ObserveAll(row: VersionRow, seen: seq<Option<nat>>): VersionRow {
    if seen == [] then row else Observe(ObserveAll(row, seen[..|seen| - 1]), seen[|seen| - 1])
  }

  /** Some pass saw the sweep confirmed and a later pass saw it not confirmed. */
  ghost predicate ConfirmationLost(seen: seq<Option<nat>>) {
    exists i, j :: 0 <= i < j < |seen| && seen[i].Some? && seen[j].None?
  }

  /** The clamped height of the first confirmed pass. */
  function FirstHeight(seen: seq<Option<nat>>): Option<int> {
    if seen == [] then None
    else if seen[0].Some? then Some(ClampHeight(seen[0].value)) else FirstHeight(seen[1..])
  }

  lemma {:induction false} FirstHeightSnoc(seen: seq<Option<nat>>, o: Option<nat>)
    ensures FirstHeight(seen + [o]) ==
      if FirstHeight(seen).Some? then FirstHeight(seen) else if o.Some? then Some(ClampHeight(o.value)) else None
    ensures FirstHeight(seen).Some? <==> exists i :: 0 <= i < |seen| && seen[i].Some?
  {
    if seen == [] {
      assert seen + [o] == [o];
    } else {
      FirstHeightSnoc(seen[1..], o);
      assert (seen + [o])[1..] == seen[1..] + [o];
      if i :| 1 <= i < |seen| && seen[i].Some? { assert seen[1..][i - 1].Some?; }
      if i :| 0 <= i < |seen[1..]| && seen[1..][i].Some? { assert seen[i + 1].Some?; }
    }
  }

  /** A recorded sweep stays complete through a history of passes if and only if no pass saw it
      confirmed and a later one not; while complete, its latched height is the one of the first
      confirmed pass and never moves; once reverted, the row is reset and stays so. */
  lemma {:induction false} HistoryDecides(row: VersionRow, seen: seq<Option<nat>>)
    requires Candidate(row) && row.sweepHeight == None
    ensures var r := ObserveAll(row, seen);
      && (r.sweepStatus == Complete <==> !ConfirmationLost(seen))
      && (!ConfirmationLost(seen) ==> r == row.(sweepHeight := FirstHeight(seen)))
      && (ConfirmationLost(seen) ==>
            r == row.(sweepStatus := SweepPending, sweepTxid := None, sweepHeight := None))
  {
    if seen != [] {
      var init, o := seen[..|seen| - 1], seen[|seen| - 1];
      HistoryDecides(row, init);
      assert seen == init + [o];
      FirstHeightSnoc(init, o);
      if ConfirmationLost(init) {
        var i, j :| 0 <= i < j < |init| && init[i].Some? && init[j].None?;
        assert seen[i].Some? && seen[j].None?;
      } else if FirstHeight(init).Some? && o.None? {
        var i :| 0 <= i < |init| && init[i].Some?;
        assert seen[i].Some? && seen[|seen| - 1].None?;
      } else {
        assert forall i :: 0 <= i < |init| ==> seen[i] == init[i];
        assert !ConfirmationLost(seen);
      }
    }
  }

  // ----- the same, inside arbitrary runs -----

  /** What the lineage passes of a run saw of the sweep `t`. */
  function Sightings(lineage: VersionId, t: Txid, events: seq<Event>): seq<Option<nat>> {
    if events == [] then []
    else Sightings(lineage, t, events[..|events| - 1]) + Sighting(lineage, t, events[|events| - 1])
  }

  /** The event broadcasts a re-sweep that re-completes `v`. */
  predicate Recompletes(db: Db, v: VersionId, e: Event) {
    e.BroadcastProposal? && RecompletionFor(db, e.pid) == Some(v)
  }

  predicate SameTriple(r: VersionRow, s: VersionRow) {
    r.sweepStatus == s.sweepStatus && r.sweepTxid == s.sweepTxid && r.sweepHeight == s.sweepHeight
  }

  /** No event but a pass over its lineage or a re-sweep touches the triple of a version that
      is no longer current. */
  lemma TripleFrame(db: Db, v: VersionId, e: Event)
    requires Inv(db) && v in db.versions && db.versions[v].status == Superseded
    requires !Recompletes(db, v, e) && !(e.SyncLineage? && e.lineage == db.versions[v].lineage)
    ensures v in Step(db, e).versions && SameTriple(Step(db, e).versions[v], db.versions[v])
  {
    match e
    case BroadcastProposal(pid, accepted) => BroadcastTripleFrame(db, v, pid, accepted);
    case Migrate(base, mid, vid, pid, draft) => MigrateTripleFrame(db, v, base, mid, vid, Built(pid, draft));
    case MigrateDual(base, mid, vid, ele, btc) => MigrateDualTripleFrame(db, v, base, mid, vid, ele, btc);
    case _ =>
  }

  lemma BroadcastTripleFrame(db: Db, v: VersionId, pid: ProposalId, accepted: Option<string>)
    requires Inv(db) && v in db.versions && db.versions[v].status == Superseded
    requires RecompletionFor(db, pid) != Some(v)
    ensures v in BroadcastStep(db, pid, accepted).versions
    ensures SameTriple(BroadcastStep(db, pid, accepted).versions[v], db.versions[v])
  {
    if Pushed(db, pid, accepted) {
      BroadcastEffect(db, pid, accepted);
      if EnactmentFor(db, pid).Some? { ProposedPair(db, EnactmentFor(db, pid).value); }
    }
  }

  lemma MigrateTripleFrame(db: Db, v: VersionId, base: VersionId, mid: MigrationId, vid: VersionId, plan: SweepPlan)
    requires v in db.versions
    ensures v in MigrateStep(db, base, mid, vid, plan).versions
    ensures SameTriple(MigrateStep(db, base, mid, vid, plan).versions[v], db.versions[v])
  {
  }

  lemma MigrateDualTripleFrame(db: Db, v: VersionId, base: VersionId, mid: MigrationId, vid: VersionId,
                               ele: SweepPlan, btc: SweepPlan)
    requires v in db.versions
    ensures v in MigrateDualStep(db, base, mid, vid, ele, btc).versions
    ensures SameTriple(MigrateDualStep(db, base, mid, vid, ele, btc).versions[v], db.versions[v])
  {
  }

  /** What one event shows of the sweep `t`. */
  function Sighting(lineage: VersionId, t: Txid, e: Event): seq<Option<nat>> {
    if e.SyncLineage? && e.lineage == lineage
    then [if t in ConfirmedUnion(e.wallets) then Some(ConfirmedUnion(e.wallets)[t]) else None] else []
  }

  /** A pass moves rows with equal triples alike. */
  lemma ObserveSameTriple(r: VersionRow, s: VersionRow, seen: Option<nat>)
    requires SameTriple(r, s)
    ensures SameTriple(Observe(r, seen), Observe(s, seen))
  {
  }

  /** A pass over the lineage shows the row what it sees of its recorded sweep. */
  lemma PassFollowsSighting(db: Db, v: VersionId, wallets: seq<map<Txid, nat>>, row: VersionRow, seen: seq<Option<nat>>)
    requires v in db.versions && db.versions[v].lineage == row.lineage && Candidate(row)
    requires SameTriple(db.versions[v], ObserveAll(row, seen))
    ensures
      var e := SyncLineage(row.lineage, wallets);
      && v in Step(db, e).versions
      && SameTriple(Step(db, e).versions[v], ObserveAll(row, seen + Sighting(row.lineage, CandidateTxid(row), e)))
  {
    var confirmed, now := ConfirmedUnion(wallets), db.versions[v];
    var o := if CandidateTxid(row) in confirmed then Some(confirmed[CandidateTxid(row)]) else None;
    ObserveAllSnoc(row, seen, o);
    RowStaysOrResets(row, seen);
    assert now.sweepStatus == Complete ==> SeenHeight(now, confirmed) == o;
    assert Observe(now, SeenHeight(now, confirmed)) == Observe(now, o);
    ObserveSameTriple(now, ObserveAll(row, seen), o);
  }

  /** One event advances the row exactly as its sighting does. */
  lemma EventFollowsSighting(db: Db, v: VersionId, e: Event, row: VersionRow, seen: seq<Option<nat>>)
    requires Inv(db) && v in db.versions && db.versions[v].lineage == row.lineage
    requires db.versions[v].status == Superseded && Candidate(row) && !Recompletes(db, v, e)
    requires SameTriple(db.versions[v], ObserveAll(row, seen))
    ensures v in Step(db, e).versions
    ensures SameTriple(Step(db, e).versions[v],
      ObserveAll(row, seen + Sighting(row.lineage, CandidateTxid(row), e)))
  {
    var sighting := Sighting(row.lineage, CandidateTxid(row), e);
    if e.SyncLineage? && e.lineage == row.lineage {
      PassFollowsSighting(db, v, e.wallets, row, seen);
    } else {
      TripleFrame(db, v, e);
      assert seen + sighting == seen;
    }
  }

  lemma {:induction false} RunFollowsSightings(db: Db, v: VersionId, events: seq<Event>)
    requires Inv(db) && v in db.versions && Candidate(db.versions[v])
    requires forall k :: 0 <= k < |events| ==> !Recompletes(Run(db, events[..k]), v, events[k])
    ensures v in Run(db, events).versions
    ensures SameTriple(Run(db, events).versions[v],
      ObserveAll(db.versions[v], Sightings(db.versions[v].lineage, CandidateTxid(db.versions[v]), events)))
    decreases |events|
  {
    if events != [] {
      var init, e := events[..|events| - 1], events[|events| - 1];
      forall k | 0 <= k < |init| ensures !Recompletes(Run(db, init[..k]), v, init[k]) {
        assert init[..k] == events[..k];
      }
      RunFollowsSightings(db, v, init);
      RunKeeps(db, init);
      RunAdvances(db, init);
      var row := db.versions[v];
      EventFollowsSighting(Run(db, init), v, e, row, Sightings(row.lineage, CandidateTxid(row), init));
    }
  }

  lemma ObserveAllSnoc(row: VersionRow, seen: seq<Option<nat>>, o: Option<nat>)
    ensures ObserveAll(row, seen + [o]) == Observe(ObserveAll(row, seen), o)
  {
    assert (seen + [o])[..|seen|] == seen;
  }

  /** Passes keep the recorded txid for as long as they keep the row complete. */
  lemma {:induction false} RowStaysOrResets(row: VersionRow, seen: seq<Option<nat>>)
    requires Candidate(row)
    ensures var r := ObserveAll(row, seen);
      (r.sweepStatus == Complete && r.sweepTxid == row.sweepTxid) || (r.sweepStatus == SweepPending && r.sweepTxid == None)
  {
    if seen != [] { RowStaysOrResets(row, seen[..|seen| - 1]); }
  }

  /** From the state that records sweep `t` of `v`, through any run that does not re-complete
      `v`: it is still complete if and only if no lineage pass saw `t` confirmed and a later one
      saw it not confirmed, and its height is the one of the first confirmed pass. */
  lemma RecordedSweepHistory(before: seq<Event>, v: VersionId, after: seq<Event>)
    requires var db := Run(EMPTY, before);
      v in db.versions && Candidate(db.versions[v]) && db.versions[v].sweepHeight == None
      && forall k :: 0 <= k < |after| ==> !Recompletes(Run(db, after[..k]), v, after[k])
    ensures var db := Run(EMPTY, before); var later := Run(db, after);
      var seen := Sightings(db.versions[v].lineage, CandidateTxid(db.versions[v]), after);
      && v in later.versions
      && (later.versions[v].sweepStatus == Complete <==> !ConfirmationLost(seen))
      && (!ConfirmationLost(seen) ==>
            (&& later.versions[v].sweepHeight == FirstHeight(seen)
             && later.versions[v].sweepTxid == db.versions[v].sweepTxid))
      && (ConfirmationLost(seen) ==> later.versions[v].sweepStatus == SweepPending)
  {
    var db := Run(EMPTY, before);
    ReachableInv(before);
    RunFollowsSightings(db, v, after);
    HistoryDecides(db.versions[v], Sightings(db.versions[v].lineage, CandidateTxid(db.versions[v]), after));
  }
}
