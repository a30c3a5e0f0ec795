/** The invariant of the version tables: the shape of a lineage, of its migrations and of the
    proposals that move its funds. */
module LineageInvariant {
  import opened Wrappers
  import opened Primitives
  import opened Schema
  import opened Transitions
  import opened Steps

  // ----- versions -----

  /** Where one version sits: version 0 has no predecessor; any other version follows its
      predecessor by one index, and that predecessor is superseded exactly when the version
      was enacted and still the current one otherwise. */
  ghost predicate Placed(db: Db, v: VersionId) {
    v in db.versions &&
    var r := db.versions[v];
    && r.lineage in db.versions
    && db.versions[r.lineage].lineage == r.lineage
    && (v == r.lineage <==> r.index == 0)
    && (v == r.lineage ==> r.predecessor == None && Live(r))
    && (v != r.lineage ==>
          (&& r.predecessor.Some?
           && r.predecessor.value in db.versions
           && var p := db.versions[r.predecessor.value];
              && p.lineage == r.lineage
              && r.index == p.index + 1
              && p.status == (if Live(r) then Superseded else Active)))
  }

  /** Two versions of one lineage have different indexes, at most one of them is active, and
      superseded ones come before the active one. */
  predicate Compatible(db: Db, v: VersionId, w: VersionId)
    requires v in db.versions && w in db.versions
  {
    var r, s := db.versions[v], db.versions[w];
    r.lineage == s.lineage ==>
      (&& (r.index == s.index ==> v == w)
       && (r.status == Active && s.status == Active ==> v == w)
       && (r.status == Active && s.status == Superseded ==> s.index < r.index))
  }

  ghost predicate HasCurrent(db: Db, lineage: VersionId) {
    exists a :: IsCurrent(db, lineage, a)
  }

  /** `s` is the enacted successor of `v`. */
  predicate Succeeds(db: Db, v: VersionId, s: VersionId) {
    s in db.versions && db.versions[s].predecessor == Some(v) && Live(db.versions[s])
  }

  ghost predicate HasSuccessor(db: Db, v: VersionId) {
    exists s :: Succeeds(db, v, s)
  }

  ghost predicate VersionsShaped(db: Db) {
    && (forall v {:trigger Placed(db, v)} :: v in db.versions ==> Placed(db, v))
    && (forall v, w {:trigger Compatible(db, v, w)} ::
          v in db.versions && w in db.versions ==> Compatible(db, v, w))
    && (forall v {:trigger HasCurrent(db, v)} ::
          v in db.versions && db.versions[v].lineage == v ==> HasCurrent(db, v))
    && (forall v {:trigger HasSuccessor(db, v)} ::
          v in db.versions && db.versions[v].status == Superseded ==> HasSuccessor(db, v))
  }

  // ----- migrations -----

  /** A migration's target follows its base, and its status says how far the flip got. */
  predicate Recorded(db: Db, m: MigrationId) {
    m in db.migrations &&
    var r := db.migrations[m];
    && r.base in db.versions
    && r.target.Some?
    && r.target.value in db.versions
    && var t := db.versions[r.target.value];
       && t.predecessor == Some(r.base)
       && t.lineage == r.lineage
       && db.versions[r.base].lineage == r.lineage
       && r.status != Draft
       && (r.status == Proposed ==> t.status == Pending)
       && (r.status == Enacted ==> Live(t))
       && (r.status == Cancelled ==> t.status != Pending)
  }

  predicate Mints(db: Db, m: MigrationId, v: VersionId) {
    m in db.migrations && db.migrations[m].target == Some(v)
  }

  ghost predicate Minted(db: Db, v: VersionId) {
    exists m :: Mints(db, m, v)
  }

  ghost predicate MigrationsRecorded(db: Db) {
    && (forall m {:trigger Recorded(db, m)} :: m in db.migrations ==> Recorded(db, m))
    && (forall m, n, v {:trigger Mints(db, m, v), Mints(db, n, v)} ::
          Mints(db, m, v) && Mints(db, n, v) ==> m == n)
    && (forall v {:trigger Minted(db, v)} ::
          v in db.versions && v != db.versions[v].lineage ==> Minted(db, v))
  }

  // ----- proposals -----

  /** The proposal pays an enacted version of its own lineage. */
  predicate PaysLive(db: Db, p: ProposalRow) {
    && p.version in db.versions
    && p.payee.Some?
    && p.payee.value in db.versions
    && db.versions[p.payee.value].lineage == db.versions[p.version].lineage
    && Live(db.versions[p.payee.value])
  }

  /** Each kind of sweep pays the version it should, and no sweep of a cancelled migration is
      still in flight. */
  predicate Routed(db: Db, pid: ProposalId) {
    pid in db.proposals &&
    var p := db.proposals[pid];
    && p.version in db.versions
    && match p.kind
       case Send => p.migration == None
       case Relay => p.migration == None && PaysLive(db, p)
       case MigrationSweep =>
         p.migration.Some? && p.migration.value in db.migrations &&
         var m := db.migrations[p.migration.value];
         && p.version == m.base
         && p.payee == m.target
         && (p.status in {Open, Signing, Finalized} ==> m.status != Cancelled)
         && (p.status == Broadcast ==> m.status != Proposed && PaysLive(db, p))
       case Resweep =>
         && p.migration.Some? && p.migration.value in db.migrations
         && db.migrations[p.migration.value].base == p.version
         && PaysLive(db, p)
  }

  ghost predicate ProposalsRouted(db: Db) {
    forall pid {:trigger Routed(db, pid)} :: pid in db.proposals ==> Routed(db, pid)
  }

  // ----- the reconciliation triple -----

  /** The three columns agree with each other and with the version's lifecycle. */
  predicate TripleOk(r: VersionRow) {
    match r.sweepStatus
    case NotApplicable => r.sweepTxid == None && r.sweepHeight == None
    case SweepPending => r.sweepTxid == None && r.sweepHeight == None && r.status == Superseded
    case InProgress => false
    case Complete => r.sweepTxid.Some? && r.status == Superseded
  }

  ghost predicate TriplesOk(db: Db) {
    forall v :: v in db.versions ==> TripleOk(db.versions[v])
  }

  ghost predicate Inv(db: Db) {
    VersionsShaped(db) && MigrationsRecorded(db) && ProposalsRouted(db) && TriplesOk(db)
  }

  // ----- changes that leave lifecycles alone -----

  /** Same versions in the same places and states, same migrations. */
  ghost predicate SameLifecycles(db: Db, d: Db) {
    && d.versions.Keys == db.versions.Keys
    && (forall v :: v in db.versions ==>
          (&& d.versions[v].lineage == db.versions[v].lineage
           && d.versions[v].index == db.versions[v].index
           && d.versions[v].predecessor == db.versions[v].predecessor
           && d.versions[v].status == db.versions[v].status))
    && d.migrations == db.migrations
  }

  lemma LifecyclesFrame(db: Db, d: Db)
    requires VersionsShaped(db) && MigrationsRecorded(db) && SameLifecycles(db, d)
    ensures VersionsShaped(d) && MigrationsRecorded(d)
  {
    forall v | v in d.versions ensures Placed(d, v) { assert Placed(db, v); }
    forall v, w | v in d.versions && w in d.versions ensures Compatible(d, v, w) {
      assert Compatible(db, v, w);
    }
    forall v | v in d.versions && d.versions[v].lineage == v ensures HasCurrent(d, v) {
      assert HasCurrent(db, v);
      var a :| IsCurrent(db, v, a);
      assert IsCurrent(d, v, a);
    }
    forall v | v in d.versions && d.versions[v].status == Superseded ensures HasSuccessor(d, v) {
      assert HasSuccessor(db, v);
      var s :| Succeeds(db, v, s);
      assert Succeeds(d, v, s);
    }
    forall m | m in d.migrations ensures Recorded(d, m) { assert Recorded(db, m); }
    forall v | v in d.versions && v != d.versions[v].lineage ensures Minted(d, v) {
      assert Minted(db, v);
      var m :| Mints(db, m, v);
      assert Mints(d, m, v);
    }
    forall m, n, v | Mints(d, m, v) && Mints(d, n, v) ensures m == n {
      assert Mints(db, m, v) && Mints(db, n, v);
    }
  }

  lemma RoutesFrame(db: Db, d: Db)
    requires ProposalsRouted(db) && SameLifecycles(db, d) && d.proposals == db.proposals
    ensures ProposalsRouted(d)
  {
    forall pid | pid in d.proposals ensures Routed(d, pid) { assert Routed(db, pid); }
  }

  // ----- adding rows -----

  /** Only new rows were added. */
  ghost predicate Grows(db: Db, d: Db) {
    && (forall v :: v in db.versions ==> v in d.versions && d.versions[v] == db.versions[v])
    && (forall m :: m in db.migrations ==> m in d.migrations && d.migrations[m] == db.migrations[m])
  }

  lemma GrowthFrameVersions(db: Db, d: Db)
    requires VersionsShaped(db) && Grows(db, d)
    ensures forall v {:trigger Placed(d, v)} :: v in db.versions ==> Placed(d, v)
    ensures forall v, w {:trigger Compatible(d, v, w)} ::
      v in db.versions && w in db.versions ==> Compatible(d, v, w)
    ensures forall v {:trigger HasCurrent(d, v)} ::
      v in db.versions && db.versions[v].lineage == v ==> HasCurrent(d, v)
    ensures forall v {:trigger HasSuccessor(d, v)} ::
      v in db.versions && db.versions[v].status == Superseded ==> HasSuccessor(d, v)
  {
    forall v | v in db.versions ensures Placed(d, v) { assert Placed(db, v); }
    forall v, w | v in db.versions && w in db.versions ensures Compatible(d, v, w) {
      assert Compatible(db, v, w);
    }
    forall v | v in db.versions && db.versions[v].lineage == v ensures HasCurrent(d, v) {
      assert HasCurrent(db, v);
      var a :| IsCurrent(db, v, a);
      assert IsCurrent(d, v, a);
    }
    forall v | v in db.versions && db.versions[v].status == Superseded ensures HasSuccessor(d, v) {
      assert HasSuccessor(db, v);
      var s :| Succeeds(db, v, s);
      assert Succeeds(d, v, s);
    }
  }

  lemma GrowthFrameMigrations(db: Db, d: Db)
    requires MigrationsRecorded(db) && ProposalsRouted(db) && Grows(db, d)
    ensures forall m {:trigger Recorded(d, m)} :: m in db.migrations ==> Recorded(d, m)
    ensures forall v {:trigger Minted(d, v)} ::
      v in db.versions && v != db.versions[v].lineage ==> Minted(d, v)
    ensures d.proposals == db.proposals ==> ProposalsRouted(d)
  {
    forall m | m in db.migrations ensures Recorded(d, m) { assert Recorded(db, m); }
    forall v | v in db.versions && v != db.versions[v].lineage ensures Minted(d, v) {
      assert Minted(db, v);
      var m :| Mints(db, m, v);
      assert Mints(d, m, v);
    }
    if d.proposals == db.proposals {
      forall pid | pid in d.proposals ensures Routed(d, pid) { assert Routed(db, pid); }
    }
  }

  lemma InsertFederationKeeps(db: Db, id: VersionId)
    requires Inv(db) && id !in db.versions
    ensures Inv(InsertFederation(db, id).value)
  {
    var d := InsertFederation(db, id).value;
    GrowthFrameVersions(db, d);
    GrowthFrameMigrations(db, d);
    assert IsCurrent(d, id, id);
    forall v, w | v in d.versions && w in d.versions ensures Compatible(d, v, w) {
      if v != id { assert Placed(db, v); }
      if w != id { assert Placed(db, w); }
    }
    forall m, n, v | Mints(d, m, v) && Mints(d, n, v) ensures m == n {
      assert Mints(db, m, v) && Mints(db, n, v);
    }
  }

  /** What opening a migration adds, and the index it found free. */
  lemma CreatePendingAdds(db: Db, mid: MigrationId, vid: VersionId, base: VersionId)
    requires base in db.versions && OpenMigration(db, base, mid, vid).Ok?
    ensures vid !in db.versions && mid !in db.migrations
    ensures !IndexTaken(db, db.versions[base].lineage, db.versions[base].index + 1)
    ensures OpenMigration(db, base, mid, vid).value == db.(
      versions := db.versions[vid := FreshVersion(db.versions[base].lineage, db.versions[base].index + 1,
                                                  Some(base), Pending)],
      migrations := db.migrations[mid := MigrationRow(db.versions[base].lineage, base, Some(vid), Proposed)])
  {
  }

  lemma CreatePendingKeeps(db: Db, mid: MigrationId, vid: VersionId, base: VersionId)
    requires Inv(db) && base in db.versions && db.versions[base].status == Active
    requires OpenMigration(db, base, mid, vid).Ok?
    ensures Inv(OpenMigration(db, base, mid, vid).value)
  {
    var d := OpenMigration(db, base, mid, vid).value;
    CreatePendingAdds(db, mid, vid, base);
    GrowthFrameVersions(db, d);
    GrowthFrameMigrations(db, d);
    assert Placed(db, base);
    assert Mints(d, mid, vid);
    forall m, n, v | Mints(d, m, v) && Mints(d, n, v) ensures m == n {
      if m != mid { assert Recorded(db, m); }
      if n != mid { assert Recorded(db, n); }
      if m != mid && n != mid { assert Mints(db, m, v) && Mints(db, n, v); }
    }
  }

  // ----- the version flip -----

  // The base and the target of a proposed migration, before the flip.
  lemma ProposedPair(db: Db, mid: MigrationId)
    requires VersionsShaped(db) && MigrationsRecorded(db)
    requires mid in db.migrations && db.migrations[mid].status == Proposed
    ensures var r := db.migrations[mid];
      && r.target.Some? && r.target.value in db.versions && r.base in db.versions
      && var b := db.versions[r.base]; var t := db.versions[r.target.value];
         && r.base != r.target.value
         && b.status == Active && t.status == Pending
         && t.predecessor == Some(r.base) && t.index == b.index + 1
         && t.lineage == b.lineage == r.lineage
  {
    assert Recorded(db, mid);
    assert Placed(db, db.migrations[mid].target.value);
  }

  lemma EnactKeepsVersions(db: Db, mid: MigrationId)
    requires VersionsShaped(db) && MigrationsRecorded(db)
    requires mid in db.migrations && db.migrations[mid].status == Proposed
    ensures db.migrations[mid].target.Some?
    ensures VersionsShaped(EnactVersionTransition(db, db.migrations[mid].target.value, db.migrations[mid].base, mid))
  {
    ProposedPair(db, mid);
    var base, target := db.migrations[mid].base, db.migrations[mid].target.value;
    var d := EnactVersionTransition(db, target, base, mid);
    EnactKeepsPlaces(db, d, base, target);
    forall v, w | v in d.versions && w in d.versions ensures Compatible(d, v, w) {
      assert Compatible(db, v, w);
      assert Compatible(db, base, w) && Compatible(db, base, v) && Compatible(db, v, base);
    }
    forall v | v in d.versions && d.versions[v].lineage == v ensures HasCurrent(d, v) {
      assert HasCurrent(db, v);
      var a :| IsCurrent(db, v, a);
      assert Compatible(db, a, base);
      if v == d.versions[target].lineage { assert IsCurrent(d, v, target); } else { assert IsCurrent(d, v, a); }
    }
    forall v | v in d.versions && d.versions[v].status == Superseded ensures HasSuccessor(d, v) {
      if v == base {
        assert Succeeds(d, v, target);
      } else {
        assert HasSuccessor(db, v);
        var s :| Succeeds(db, v, s);
        assert Succeeds(d, v, s);
      }
    }
  }

  lemma EnactKeepsPlaces(db: Db, d: Db, base: VersionId, target: VersionId)
    requires VersionsShaped(db) && base in db.versions && target in db.versions && base != target
    requires db.versions[base].status == Active && db.versions[target].status == Pending
    requires db.versions[target].predecessor == Some(base)
    requires d.versions == WithStatus(WithStatus(db.versions, base, Superseded), target, Active)
    ensures forall v {:trigger Placed(d, v)} :: v in d.versions ==> Placed(d, v)
  {
    assert Placed(db, target);
    forall v | v in d.versions ensures Placed(d, v) {
      assert Placed(db, v);
      assert Compatible(db, v, target);
    }
  }

  lemma EnactKeepsMigrations(db: Db, mid: MigrationId)
    requires VersionsShaped(db) && MigrationsRecorded(db)
    requires mid in db.migrations && db.migrations[mid].status == Proposed
    ensures db.migrations[mid].target.Some?
    ensures MigrationsRecorded(EnactVersionTransition(db, db.migrations[mid].target.value, db.migrations[mid].base, mid))
  {
    ProposedPair(db, mid);
    var base, target := db.migrations[mid].base, db.migrations[mid].target.value;
    var d := EnactVersionTransition(db, target, base, mid);
    assert Mints(db, mid, target);
    forall m | m in d.migrations ensures Recorded(d, m) {
      assert Recorded(db, m);
      if m != mid { assert Mints(db, m, db.migrations[m].target.value); }
    }
    forall v | v in d.versions && v != d.versions[v].lineage ensures Minted(d, v) {
      assert Minted(db, v);
      var m :| Mints(db, m, v);
      assert Mints(d, m, v);
    }
    forall m, n, v | Mints(d, m, v) && Mints(d, n, v) ensures m == n {
      assert Mints(db, m, v) && Mints(db, n, v);
    }
  }

  /** Cancelling a migration, in any state, abandons a pending target and nothing else. */
  lemma CancelKeepsVersions(db: Db, mid: MigrationId)
    requires VersionsShaped(db)
    ensures VersionsShaped(CancelMigration(db, mid))
  {
    var d := CancelMigration(db, mid);
    forall v | v in d.versions ensures Placed(d, v) { assert Placed(db, v); }
    forall v, w | v in d.versions && w in d.versions ensures Compatible(d, v, w) {
      assert Compatible(db, v, w);
    }
    forall v | v in d.versions && d.versions[v].lineage == v ensures HasCurrent(d, v) {
      assert HasCurrent(db, v);
      var a :| IsCurrent(db, v, a);
      assert IsCurrent(d, v, a);
    }
    forall v | v in d.versions && d.versions[v].status == Superseded ensures HasSuccessor(d, v) {
      assert HasSuccessor(db, v);
      var s :| Succeeds(db, v, s);
      assert Succeeds(d, v, s);
    }
  }

  lemma CancelKeepsMigrations(db: Db, mid: MigrationId)
    requires MigrationsRecorded(db)
    ensures MigrationsRecorded(CancelMigration(db, mid))
  {
    var d := CancelMigration(db, mid);
    forall m | m in d.migrations ensures Recorded(d, m) {
      assert Recorded(db, m);
      assert Mints(db, m, db.migrations[m].target.value);
      if mid in db.migrations && db.migrations[mid].target == db.migrations[m].target {
        assert Mints(db, mid, db.migrations[m].target.value);
      }
    }
    forall v | v in d.versions && v != d.versions[v].lineage ensures Minted(d, v) {
      assert Minted(db, v);
      var m :| Mints(db, m, v);
      assert Mints(d, m, v);
    }
    forall m, n, v | Mints(d, m, v) && Mints(d, n, v) ensures m == n {
      assert Mints(db, m, v) && Mints(db, n, v);
    }
  }

  lemma CancelKeeps(db: Db, mid: MigrationId)
    requires Inv(db)
    ensures Inv(CancelMigration(db, mid))
  {
    var d := CancelMigration(db, mid);
    CancelKeepsVersions(db, mid);
    CancelKeepsMigrations(db, mid);
    forall pid | pid in d.proposals ensures Routed(d, pid) { assert Routed(db, pid); }
  }

  // ----- the reconciliation columns -----

  lemma ObserveKeeps(row: VersionRow, seen: Option<nat>)
    requires TripleOk(row)
    ensures TripleOk(Observe(row, seen))
    ensures Observe(row, seen) == row.(sweepStatus := Observe(row, seen).sweepStatus,
      sweepTxid := Observe(row, seen).sweepTxid, sweepHeight := Observe(row, seen).sweepHeight)
  {
  }

  lemma ReconcileKeeps(db: Db, lineage: VersionId, confirmed: map<Txid, nat>)
    requires Inv(db)
    ensures Inv(db.(versions := ReconcileRows(db.versions, lineage, confirmed)))
  {
    var d := db.(versions := ReconcileRows(db.versions, lineage, confirmed));
    forall v | v in db.versions
      ensures TripleOk(d.versions[v])
      ensures d.versions[v] == db.versions[v].(sweepStatus := d.versions[v].sweepStatus,
        sweepTxid := d.versions[v].sweepTxid, sweepHeight := d.versions[v].sweepHeight)
    {
      ObserveKeeps(db.versions[v], SeenHeight(db.versions[v], confirmed));
    }
    LifecyclesFrame(db, d);
    RoutesFrame(db, d);
  }

  // ----- proposals -----

  /** Replacing one proposal by another of the same origin, still routed. */
  lemma SetProposalKeeps(db: Db, pid: ProposalId, p: ProposalRow)
    requires Inv(db) && Routed(SetProposal(db, pid, p), pid)
    ensures Inv(SetProposal(db, pid, p))
  {
    var d := SetProposal(db, pid, p);
    LifecyclesFrame(db, d);
    forall q | q in d.proposals ensures Routed(d, q) {
      if q != pid { assert Routed(db, q); }
    }
  }

  lemma SignaturesFrame(db: Db, d: Db)
    requires Inv(db) && d == db.(signatures := d.signatures)
    ensures Inv(d)
  {
    LifecyclesFrame(db, d);
    RoutesFrame(db, d);
  }
}
