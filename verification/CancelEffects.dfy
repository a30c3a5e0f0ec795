/** What cancelling a migration costs. `cancel_migration` checks nothing about the migration's
    state: before the flip it leaves an abandoned version holding the next index, after the
    flip it withdraws the record that a re-sweep looks up. Both effects are permanent. */
module CancelEffects {
  import opened Wrappers
  import opened Schema
  import opened Transitions
  import opened Steps
  import opened LineageInvariant
  import opened LineageRuns
  import opened LineageTheorems

  // ----- before the flip: the lineage is frozen -----

  ghost predicate EverMigrated(db: Db, base: VersionId) {
    exists m :: m in db.migrations && db.migrations[m].base == base
  }

  /** The next index of an active version is taken exactly when some migration, in whatever
      state, was opened on it. */
  lemma NextIndexTakenIffEverMigrated(db: Db, base: VersionId)
    requires Inv(db) && base in db.versions && db.versions[base].status == Active
    ensures IndexTaken(db, db.versions[base].lineage, db.versions[base].index + 1) <==> EverMigrated(db, base)
  {
    var b := db.versions[base];
    if v: VersionId :| v in db.versions && db.versions[v].lineage == b.lineage && db.versions[v].index == b.index + 1 {
      assert Placed(db, v);
      assert Compatible(db, db.versions[v].predecessor.value, base);
      assert Minted(db, v);
      var m: MigrationId :| Mints(db, m, v);
      assert Recorded(db, m);
    }
    if m: MigrationId :| m in db.migrations && db.migrations[m].base == base {
      assert Recorded(db, m);
      assert Placed(db, db.migrations[m].target.value);
    }
  }

  /** Opening a migration on the active version succeeds if and only if none was ever opened
      on it: a cancelled one counts. */
  lemma OpenSucceedsIffNeverMigrated(events: seq<Event>, base: VersionId, mid: MigrationId, vid: VersionId)
    requires base in Run(EMPTY, events).versions && Run(EMPTY, events).versions[base].status == Active
    requires mid !in Run(EMPTY, events).migrations && vid !in Run(EMPTY, events).versions
    ensures OpenMigration(Run(EMPTY, events), base, mid, vid).Ok? <==> !EverMigrated(Run(EMPTY, events), base)
  {
    var db := Run(EMPTY, events);
    ReachableInv(events);
    NextIndexTakenIffEverMigrated(db, base);
    var l := db.versions[base].lineage;
    if m: MigrationId :| m in db.migrations && db.migrations[m].lineage == l && InFlight(db.migrations[m]) {
      assert Recorded(db, m);
      ProposedPair(db, m);
      assert Compatible(db, db.migrations[m].base, base);
    }
  }

  /** Once a migration was cancelled before its flip, its base stays the current version for
      good, and every later migration request in the lineage changes nothing. */
  lemma AbandonedTargetFreezesLineage(before: seq<Event>, t: VersionId, after: seq<Event>)
    requires t in Run(EMPTY, before).versions && Run(EMPTY, before).versions[t].status == Abandoned
    ensures var db := Run(EMPTY, before); var later := Run(db, after); var lineage := db.versions[t].lineage;
      && db.versions[t].predecessor.Some?
      && var base := db.versions[t].predecessor.value;
         && (forall a :: IsCurrent(later, lineage, a) <==> a == base)
         && (forall b, mid, vid, plan :: b in later.versions && later.versions[b].lineage == lineage
               ==> MigrateStep(later, b, mid, vid, plan) == later)
         && (forall b, mid, vid, ele, btc :: b in later.versions && later.versions[b].lineage == lineage
               ==> MigrateDualStep(later, b, mid, vid, ele, btc) == later)
  {
    var db := Run(EMPTY, before);
    ReachableInv(before);
    RunKeeps(db, after);
    RunAdvances(db, after);
    FrozenState(db, t);
    FrozenState(Run(db, after), t);
  }

  lemma FrozenState(db: Db, t: VersionId)
    requires Inv(db) && t in db.versions && db.versions[t].status == Abandoned
    ensures db.versions[t].predecessor.Some?
    ensures forall a :: IsCurrent(db, db.versions[t].lineage, a) <==> a == db.versions[t].predecessor.value
    ensures forall b, mid, vid ::
      b in db.versions && db.versions[b].lineage == db.versions[t].lineage
      ==> !MayMigrate(db, b) || OpenMigration(db, b, mid, vid).Err?
  {
    assert Placed(db, t);
    var base := db.versions[t].predecessor.value;
    forall a | IsCurrent(db, db.versions[t].lineage, a) ensures a == base { assert Compatible(db, a, base); }
    assert IndexTaken(db, db.versions[base].lineage, db.versions[base].index + 1);
    forall b, mid, vid | b in db.versions && db.versions[b].lineage == db.versions[t].lineage && MayMigrate(db, b)
      ensures OpenMigration(db, b, mid, vid).Err?
    {
      assert Compatible(db, b, base);
    }
  }

  /** Opening, cancelling and opening again: no migration is in flight any more, the guards of
      the handler pass, and the request is refused all the same. */
  lemma CancelDoesNotFreeTheLineage(draft: BuiltTx, v: VersionId, m: MigrationId)
    requires v != 0 && v != 1 && m != 0
    ensures var db := Run(EMPTY, [CreateFederation(0), Migrate(0, 0, 1, 0, draft), CancelMigrationOf(0)]);
      && MayMigrate(db, 0)
      && OpenMigration(db, 0, m, v) == Err(VersionIndexTaken)
  {
    RunOfThree(EMPTY, CreateFederation(0), Migrate(0, 0, 1, 0, draft), CancelMigrationOf(0));
    OpenedOnce(draft);
    CancelStep(Step(Step(EMPTY, CreateFederation(0)), Migrate(0, 0, 1, 0, draft)), v, m);
  }

  lemma CancelStep(d: Db, v: VersionId, m: MigrationId)
    requires v != 0 && v != 1 && m != 0
    requires d.versions == map[0 := FreshVersion(0, 0, None, Active), 1 := FreshVersion(0, 1, Some(0), Pending)]
    requires d.migrations == map[0 := MigrationRow(0, 0, Some(1), Proposed)]
    ensures MayMigrate(Step(d, CancelMigrationOf(0)), 0)
    ensures OpenMigration(Step(d, CancelMigrationOf(0)), 0, m, v) == Err(VersionIndexTaken)
  {
    CancelledOnce(d, v, m);
  }

  lemma CancelledOnce(d: Db, v: VersionId, m: MigrationId)
    requires v != 0 && v != 1 && m != 0
    requires d.versions == map[0 := FreshVersion(0, 0, None, Active), 1 := FreshVersion(0, 1, Some(0), Pending)]
    requires d.migrations == map[0 := MigrationRow(0, 0, Some(1), Proposed)]
    ensures MayMigrate(CancelMigration(d, 0), 0)
    ensures OpenMigration(CancelMigration(d, 0), 0, m, v) == Err(VersionIndexTaken)
  {
    var db := CancelMigration(d, 0);
    assert db.versions[1].index == 1 && db.versions[1].lineage == 0;
    assert IndexTaken(db, 0, 1);
  }

  lemma OpenedOnce(draft: BuiltTx)
    ensures var d := Step(Step(EMPTY, CreateFederation(0)), Migrate(0, 0, 1, 0, draft));
      && d.versions == map[0 := FreshVersion(0, 0, None, Active), 1 := FreshVersion(0, 1, Some(0), Pending)]
      && d.migrations == map[0 := MigrationRow(0, 0, Some(1), Proposed)]
  {
    var d1 := Step(EMPTY, CreateFederation(0));
    assert d1 == EMPTY.(versions := map[0 := FreshVersion(0, 0, None, Active)]);
    assert !HasInFlight(d1, 0) && !IndexTaken(d1, 0, 1);
  }

  lemma RunOfThree(db: Db, a: Event, b: Event, c: Event)
    ensures Run(db, [a, b, c]) == Step(Step(Step(db, a), b), c)
  {
    assert [a, b, c][..2] == [a, b] && [a, b][..1] == [a] && [a][..0] == [];
    assert Run(db, [a]) == Step(Run(db, [a][..0]), a) == Step(db, a);
    assert Run(db, [a, b]) == Step(Run(db, [a]), b);
  }

  // ----- after the flip: the funds-preserving re-sweep is lost -----

  /** A superseded version has exactly one migration: the one that enacted its successor. */
  lemma SupersededHasOneMigration(db: Db, v: VersionId) returns (m: MigrationId)
    requires Inv(db) && v in db.versions && db.versions[v].status == Superseded
    ensures m in db.migrations && db.migrations[m].base == v && db.migrations[m].status in {Enacted, Cancelled}
    ensures forall n :: n in db.migrations && db.migrations[n].base == v ==> n == m
  {
    assert HasSuccessor(db, v);
    var s: VersionId :| Succeeds(db, v, s);
    assert Placed(db, s) && Minted(db, s);
    m :| Mints(db, m, s);
    assert Recorded(db, m);
    forall n | n in db.migrations && db.migrations[n].base == v ensures n == m {
      assert Recorded(db, n);
      var t := db.migrations[n].target.value;
      assert Placed(db, t) && Compatible(db, s, t);
      assert Mints(db, n, s);
    }
  }

  /** A version reverted by a reorg can be re-swept if and only if the migration that
      superseded it has not been cancelled. */
  lemma ResweepPossibleIffNotCancelled(events: seq<Event>, v: VersionId, m: MigrationId)
    requires var db := Run(EMPTY, events);
      v in db.versions && db.versions[v].sweepStatus == SweepPending
      && m in db.migrations && db.migrations[m].base == v
    ensures var db := Run(EMPTY, events);
      (exists n, c :: MayResweep(db, v, n, c)) <==> db.migrations[m].status != Cancelled
  {
    var db := Run(EMPTY, events);
    ReachableInv(events);
    assert TripleOk(db.versions[v]);
    var only := SupersededHasOneMigration(db, v);
    assert Placed(db, v) && HasCurrent(db, db.versions[v].lineage);
    var c: VersionId :| IsCurrent(db, db.versions[v].lineage, c);
    if db.migrations[m].status != Cancelled { assert MayResweep(db, v, m, c); }
  }

  /** A cancel issued after the flip closes the re-sweep of its base for good. */
  lemma LateCancelForbidsResweepForever(before: seq<Event>, m: MigrationId, after: seq<Event>)
    requires m in Run(EMPTY, before).migrations
    requires Run(EMPTY, before).migrations[m].status == Cancelled
    ensures var later := Run(Run(EMPTY, before), after);
      forall n, c :: !MayResweep(later, Run(EMPTY, before).migrations[m].base, n, c)
  {
    var db := Run(EMPTY, before);
    ReachableInv(before);
    RunKeeps(db, after);
    RunAdvances(db, after);
    var later := Run(db, after);
    var v := db.migrations[m].base;
    assert later.migrations[m].base == v && later.migrations[m].status == Cancelled;
    forall n, c | MayResweep(later, v, n, c) ensures false {
      assert TripleOk(later.versions[v]);
      var only := SupersededHasOneMigration(later, v);
    }
  }
}
