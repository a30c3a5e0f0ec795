/** The two sweeps of a dual-chain migration: which one is recorded, and which one reconciliation
    follows afterwards. */
module DualSweeps {
  import opened Wrappers
  import opened Schema
  import opened Steps
  import opened LineageInvariant
  import opened LineageRuns
  import opened LineageTheorems
  import opened Reconcile
  import opened ReconcileTheorems

  /** The migration a sweep belongs to is still open. */
  predicate StillProposed(db: Db, pid: ProposalId) {
    && pid in db.proposals && db.proposals[pid].migration.Some?
    && db.proposals[pid].migration.value in db.migrations
    && db.migrations[db.proposals[pid].migration.value].status == Proposed
  }

  /** Broadcasting a migration sweep records its txid on the base if and only if the migration is
      still proposed at that moment (or the base holds that txid already). The first sweep of a
      migration supersedes the base with it; any later one touches no version and no migration. */
  lemma SweepRecordedIff(events: seq<Event>, pid: ProposalId, accepted: Option<string>)
    requires var db := Run(EMPTY, events); Pushed(db, pid, accepted) && db.proposals[pid].kind == MigrationSweep
    ensures var db := Run(EMPTY, events); var base := db.proposals[pid].version;
      var d := Step(db, BroadcastProposal(pid, accepted));
      && base in db.versions && base in d.versions
      && (d.versions[base].sweepTxid == accepted <==>
            (StillProposed(db, pid) || db.versions[base].sweepTxid == accepted))
      && (StillProposed(db, pid) ==>
            d.versions[base] == db.versions[base].(status := Superseded, sweepStatus := Complete, sweepTxid := accepted)
            && d.versions[base].sweepHeight == None)
      && (!StillProposed(db, pid) ==> d == db.(proposals := d.proposals))
  {
    var db := Run(EMPTY, events);
    ReachableInv(events);
    assert Routed(db, pid);
    BroadcastEffect(db, pid, accepted);
    var m := db.proposals[pid].migration.value;
    assert Recorded(db, m);
    if StillProposed(db, pid) {
      ProposedPair(db, m);
      assert TripleOk(db.versions[db.proposals[pid].version]);
    }
  }

  lemma RunSnoc(events: seq<Event>, e: Event)
    ensures Run(EMPTY, events + [e]) == Step(Run(EMPTY, events), e)
  {
    assert (events + [e])[..|events|] == events;
  }

  /** From the broadcast of the first sweep on, through any run without a re-sweep of the base,
      the base holds the first sweep's txid if and only if no lineage pass saw that sweep confirmed
      and a later one saw it not confirmed. Nothing the run does with the other sweep matters. */
  lemma FirstSweepDecides(before: seq<Event>, pid: ProposalId, txid: string, after: seq<Event>)
    requires var db := Run(EMPTY, before);
      && Pushed(db, pid, Some(txid)) && db.proposals[pid].kind == MigrationSweep && StillProposed(db, pid)
      && ParseTxid(txid).Some?
    requires var recorded := Step(Run(EMPTY, before), BroadcastProposal(pid, Some(txid)));
      forall k :: 0 <= k < |after| ==>
        !Recompletes(Run(recorded, after[..k]), Run(EMPTY, before).proposals[pid].version, after[k])
    ensures var db := Run(EMPTY, before); var base := db.proposals[pid].version;
      var later := Run(Step(db, BroadcastProposal(pid, Some(txid))), after);
      && base in db.versions && base in later.versions
      && var seen := Sightings(db.versions[base].lineage, ParseTxid(txid).value, after);
         && (later.versions[base].sweepTxid == Some(txid) <==> !ConfirmationLost(seen))
         && (later.versions[base].sweepStatus == Complete <==> !ConfirmationLost(seen))
  {
    var e := BroadcastProposal(pid, Some(txid));
    var db := Run(EMPTY, before);
    var base := db.proposals[pid].version;
    SweepRecordedIff(before, pid, Some(txid));
    RunSnoc(before, e);
    RecordedSweepHistory(before + [e], base, after);
    RevertedHoldsNothing(before + [e], base, after);
  }

  /** A version that is reverted at the end of a run holds no txid. */
  lemma RevertedHoldsNothing(before: seq<Event>, v: VersionId, after: seq<Event>)
    requires v in Run(EMPTY, before).versions
    ensures v in Run(Run(EMPTY, before), after).versions
    ensures var r := Run(Run(EMPTY, before), after).versions[v];
      r.sweepStatus == SweepPending ==> r.sweepTxid == None
  {
    ReachableInv(before);
    RunAdvances(Run(EMPTY, before), after);
    RunConcat(EMPTY, before, after);
    TripleInvariant(before + after, v);
  }

  /** Two continuations that saw the recorded sweep alike leave its row alike, whatever either
      saw of any other transaction, the other sweep included. */
  lemma OtherSightingsAreIgnored(before: seq<Event>, v: VersionId, after: seq<Event>, after': seq<Event>)
    requires v in Run(EMPTY, before).versions && Candidate(Run(EMPTY, before).versions[v])
    requires var db := Run(EMPTY, before);
      && (forall k :: 0 <= k < |after| ==> !Recompletes(Run(db, after[..k]), v, after[k]))
      && (forall k :: 0 <= k < |after'| ==> !Recompletes(Run(db, after'[..k]), v, after'[k]))
    requires var row := Run(EMPTY, before).versions[v];
      Sightings(row.lineage, CandidateTxid(row), after) == Sightings(row.lineage, CandidateTxid(row), after')
    ensures var db := Run(EMPTY, before);
      && v in Run(db, after).versions && v in Run(db, after').versions
      && SameTriple(Run(db, after).versions[v], Run(db, after').versions[v])
  {
    var db := Run(EMPTY, before);
    ReachableInv(before);
    RunFollowsSightings(db, v, after);
    RunFollowsSightings(db, v, after');
  }
}
