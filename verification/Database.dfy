/** The tables as mutable state. Every method is one statement group of the data layer; its
    contract is the matching function of module `Transitions`, or the query it answers. */
module Database {
  import opened Wrappers
  import opened Psbts
  import opened Schema
  import opened Transitions

  class Tables {
    var versions: map<VersionId, VersionRow>
    var migrations: map<MigrationId, MigrationRow>
    var proposals: map<ProposalId, ProposalRow>
    var signatures: map<(ProposalId, SignerId), Psbt>

    ghost function View(): Db
      reads this
    {
      Db(versions, migrations, proposals, signatures)
    }

    constructor ()
      ensures View() == EMPTY
    {
      versions, migrations, proposals, signatures := map[], map[], map[], map[];
    }

    // ----- versions and migrations -----

    method InsertFederationWithMembers(id: VersionId) returns (r: Result<VersionId, DbError>)
      modifies this
      ensures match InsertFederation(old(View()), id)
              case Ok(d) => r == Ok(id) && View() == d
              case Err(e) => r == Err(e) && View() == old(View())
    {
      if id in versions {
        return Err(PrimaryKey);
      }
      versions := versions[id := FreshVersion(id, 0, None, Active)];
      r := Ok(id);
    }

    /** One transaction of three statements; a violated constraint rolls all of them back. */
    method CreatePending(mid: MigrationId, vid: VersionId, lineage: VersionId, base: VersionId, index: nat)
      returns (r: Result<(MigrationId, VersionId), DbError>)
      modifies this
      ensures match CreatePendingMigration(old(View()), mid, vid, lineage, base, index)
              case Ok(d) => r == Ok((mid, vid)) && View() == d
              case Err(e) => r == Err(e) && View() == old(View())
    {
      if mid in migrations {
        return Err(PrimaryKey);
      }
      if base !in versions {
        return Err(ForeignKey);
      }
      if exists m :: m in migrations && migrations[m].lineage == lineage && InFlight(migrations[m]) {
        return Err(OneInFlight);
      }
      var saved := migrations;
      migrations := migrations[mid := MigrationRow(lineage, base, None, MigrationStatus.Draft)];
      if vid in versions {
        migrations := saved;
        return Err(PrimaryKey);
      }
      if exists v :: v in versions && versions[v].lineage == lineage && versions[v].index == index {
        migrations := saved;
        return Err(VersionIndexTaken);
      }
      versions := versions[vid := FreshVersion(lineage, index, Some(base), Pending)];
      migrations := migrations[mid := migrations[mid].(target := Some(vid), status := Proposed)];
      r := Ok((mid, vid));
    }

    /** The unique index on active versions refuses a second one in a lineage. */
    method SetFederationStatus(v: VersionId, status: VersionStatus) returns (r: Result<(), DbError>)
      modifies this`versions
      ensures status != Active || ActivationFits(old(versions), v) ==>
        r.Ok? && versions == WithStatus(old(versions), v, status)
      ensures status == Active && !ActivationFits(old(versions), v) ==>
        r == Err(SecondActive) && versions == old(versions)
      ensures r.Ok? <==>
        !(status == Active && v in old(versions)
          && exists w :: w in old(versions) && w != v && old(versions)[w].lineage == old(versions)[v].lineage
                         && old(versions)[w].status == Active)
      ensures versions == if r.Ok? && v in old(versions)
        then old(versions)[v := old(versions)[v].(status := status)] else old(versions)
    {
      if v in versions {
        if status == Active && exists w :: w in versions && w != v && versions[w].lineage == versions[v].lineage
                                           && versions[w].status == Active {
          return Err(SecondActive);
        }
        versions := versions[v := versions[v].(status := status)];
      }
      r := Ok(());
    }

    method SetMigrationStatus(m: MigrationId, status: MigrationStatus)
      modifies this`migrations
      ensures migrations == WithMigrationStatus(old(migrations), m, status)
      ensures migrations == if m in old(migrations)
        then old(migrations)[m := old(migrations)[m].(status := status)] else old(migrations)
    {
      if m in migrations {
        migrations := migrations[m := migrations[m].(status := status)];
      }
    }

    /** Supersede first, then activate: the order the one-active index needs. A refused
        activation rolls the transaction back. */
    method EnactTransition(target: VersionId, base: VersionId, mid: MigrationId) returns (r: Result<(), DbError>)
      modifies this
      ensures FlipFits(old(versions), target, base) ==>
        r.Ok? && View() == EnactVersionTransition(old(View()), target, base, mid)
      ensures !FlipFits(old(versions), target, base) ==> r == Err(SecondActive) && View() == old(View())
    {
      var saved := versions;
      var _ := SetFederationStatus(base, Superseded);
      r := SetFederationStatus(target, Active);
      if r.Err? {
        versions := saved;
        return;
      }
      SetMigrationStatus(mid, Enacted);
    }

    method CancelMigrationRow(mid: MigrationId)
      modifies this
      ensures View() == CancelMigration(old(View()), mid)
    {
      var target := if mid in migrations then migrations[mid].target else None;
      if target.Some? && target.value in versions && versions[target.value].status == Pending {
        versions := versions[target.value := versions[target.value].(status := Abandoned)];
      }
      proposals := map p | p in proposals ::
        if proposals[p].migration == Some(mid) && proposals[p].status != Broadcast
        then proposals[p].(status := Withdrawn) else proposals[p];
      SetMigrationStatus(mid, Cancelled);
      assert versions == CancelMigration(old(View()), mid).versions;
    }

    // ----- queries -----

    /** Some active version of the lineage, if there is one. */
    method CurrentVersionForLineage(lineage: VersionId) returns (r: Option<VersionId>)
      ensures r.Some? ==> IsCurrent(View(), lineage, r.value)
      ensures r.None? ==> forall v :: !IsCurrent(View(), lineage, v)
    {
      if v :| v in versions && versions[v].lineage == lineage && versions[v].status == Active {
        r := Some(v);
      } else {
        r := None;
      }
    }

    method InflightMigrationForLineage(lineage: VersionId) returns (r: Option<MigrationId>)
      ensures r.Some? <==> HasInFlight(View(), lineage)
      ensures r.Some? ==>
        r.value in migrations && migrations[r.value].lineage == lineage && InFlight(migrations[r.value])
    {
      if m :| m in migrations && migrations[m].lineage == lineage && InFlight(migrations[m]) {
        r := Some(m);
      } else {
        r := None;
      }
    }

    method EnactedMigrationForBase(base: VersionId) returns (r: Option<MigrationId>)
      ensures r.Some? ==> EnactedFor(View(), base, r.value)
      ensures r.None? ==> forall m :: !EnactedFor(View(), base, m)
    {
      if m :| m in migrations && migrations[m].base == base && migrations[m].status == Enacted {
        r := Some(m);
      } else {
        r := None;
      }
    }

    method MigrationEnactmentForProposal(pid: ProposalId) returns (r: Option<MigrationId>)
      ensures r == EnactmentFor(View(), pid)
      ensures r.Some? <==>
        && pid in proposals && proposals[pid].kind == MigrationSweep
        && (exists m :: m in migrations && proposals[pid].migration == Some(m)
                        && migrations[m].status == Proposed && migrations[m].target.Some?)
      ensures r.Some? ==> r == proposals[pid].migration
    {
      r := None;
      if pid in proposals && proposals[pid].kind == MigrationSweep && proposals[pid].migration.Some? {
        var m := proposals[pid].migration.value;
        if m in migrations && migrations[m].status == Proposed && migrations[m].target.Some? {
          r := Some(m);
        }
      }
    }

    method ResweepRecompletionForProposal(pid: ProposalId) returns (r: Option<VersionId>)
      ensures r == RecompletionFor(View(), pid)
      ensures r.Some? <==>
        pid in proposals && proposals[pid].kind == Resweep && proposals[pid].version in versions
        && versions[proposals[pid].version].sweepStatus == SweepPending
      ensures r.Some? ==> r.value == proposals[pid].version
    {
      r := None;
      if pid in proposals && proposals[pid].kind == Resweep {
        var v := proposals[pid].version;
        if v in versions && versions[v].sweepStatus == SweepPending {
          r := Some(v);
        }
      }
    }

    // ----- the reconciliation triple -----

    method SetComplete(v: VersionId, txid: string)
      modifies this`versions
      ensures View() == SetMigrationComplete(old(View()), v, txid)
      ensures versions == if v in old(versions)
        then old(versions)[v := old(versions)[v].(sweepStatus := Complete, sweepTxid := Some(txid))] else old(versions)
    {
      if v in versions {
        versions := versions[v := versions[v].(sweepStatus := Complete, sweepTxid := Some(txid))];
      }
    }

    /** Latches forward only: the height must still be NULL and the txid must match. */
    method LatchMigrationSweepHeight(v: VersionId, txid: string, height: int) returns (latched: bool)
      modifies this`versions
      ensures latched <==>
        (v in old(versions) && old(versions)[v].sweepStatus == Complete
         && old(versions)[v].sweepTxid == Some(txid) && old(versions)[v].sweepHeight == None)
      ensures versions == if v in old(versions)
        then old(versions)[v := Latched(old(versions)[v], txid, height)] else old(versions)
      ensures versions == if latched
        then old(versions)[v := old(versions)[v].(sweepHeight := Some(height))] else old(versions)
    {
      latched := v in versions && versions[v].sweepStatus == Complete
        && versions[v].sweepTxid == Some(txid) && versions[v].sweepHeight == None;
      if latched {
        versions := versions[v := versions[v].(sweepHeight := Some(height))];
      } else if v in versions {
        assert versions[v := versions[v]] == versions;
      }
    }

    /** Reverts only a row that recorded this txid and latched its confirmation. */
    method ReconcileMigration(v: VersionId, txid: string) returns (reverted: bool)
      modifies this`versions
      ensures reverted <==> v in old(versions) && Revertible(old(versions)[v], txid)
      ensures reverted <==>
        (v in old(versions) && old(versions)[v].sweepStatus == Complete
         && old(versions)[v].sweepTxid == Some(txid) && old(versions)[v].sweepHeight != None)
      ensures versions == if reverted
        then old(versions)[v := old(versions)[v].(sweepStatus := SweepPending, sweepTxid := None, sweepHeight := None)]
        else old(versions)
      ensures versions == if v in old(versions)
        then old(versions)[v := Reverted(old(versions)[v], txid)] else old(versions)
    {
      reverted := v in versions && versions[v].sweepStatus == Complete
        && versions[v].sweepTxid == Some(txid) && versions[v].sweepHeight != None;
      if reverted {
        versions := versions[v :=
          versions[v].(sweepStatus := SweepPending, sweepTxid := None, sweepHeight := None)];
      } else if v in versions {
        assert versions[v := versions[v]] == versions;
      }
    }

    /** The versions of a lineage by ascending index. */
    method LoadLineageVersions(lineage: VersionId) returns (rows: seq<VersionId>)
      ensures forall v :: v in rows <==> v in versions && versions[v].lineage == lineage
      ensures forall i, j :: 0 <= i < j < |rows| ==> rows[i] != rows[j]
      ensures forall i, j :: 0 <= i < j < |rows| ==> versions[rows[i]].index <= versions[rows[j]].index
    {
      var left := set v | v in versions && versions[v].lineage == lineage;
      rows := [];
      while left != {}
        invariant forall v :: v in rows || v in left <==> v in versions && versions[v].lineage == lineage
        invariant forall v :: v in left ==> v !in rows
        invariant forall i, j :: 0 <= i < j < |rows| ==> rows[i] != rows[j]
        invariant forall i, j :: 0 <= i < j < |rows| ==> versions[rows[i]].index <= versions[rows[j]].index
        invariant forall i, v :: 0 <= i < |rows| && v in left ==> versions[rows[i]].index <= versions[v].index
        decreases left
      {
        HasOldest(versions, left);
        var next :| next in left && forall v :: v in left ==> versions[next].index <= versions[v].index;
        rows := rows + [next];
        left := left - {next};
      }
    }

    // ----- proposals -----

    method Insert(pid: ProposalId, version: VersionId, kind: ProposalKind, migration: Option<MigrationId>,
                  payee: Option<VersionId>, draft: BuiltTx) returns (r: Result<ProposalId, DbError>)
      modifies this`proposals
      ensures match InsertProposal(old(View()), pid, version, kind, migration, payee, draft)
              case Ok(d) => r == Ok(pid) && View() == d
              case Err(e) => r == Err(e) && View() == old(View())
    {
      if pid in proposals {
        return Err(PrimaryKey);
      }
      if version !in versions {
        return Err(ForeignKey);
      }
      proposals := proposals[pid :=
        ProposalRow(version, kind, migration, payee, draft.policy, draft.psbt, Open, None, None)];
      r := Ok(pid);
    }

    method UpdateProposalPsbt(pid: ProposalId, psbt: Psbt, status: ProposalStatus)
      requires pid in proposals
      modifies this`proposals
      ensures proposals == old(proposals)[pid := old(proposals)[pid].(psbt := psbt, status := status)]
    {
      proposals := proposals[pid := proposals[pid].(psbt := psbt, status := status)];
    }

    method FinalizeProposal(pid: ProposalId, hex: string, txid: string)
      requires pid in proposals
      modifies this`proposals
      ensures proposals == old(proposals)[pid :=
        old(proposals)[pid].(status := Finalized, finalizedTx := Some(hex), txid := Some(txid))]
    {
      proposals := proposals[pid :=
        proposals[pid].(status := Finalized, finalizedTx := Some(hex), txid := Some(txid))];
    }

    method MarkProposalBroadcast(pid: ProposalId, txid: string)
      requires pid in proposals
      modifies this`proposals
      ensures proposals == old(proposals)[pid := old(proposals)[pid].(status := Broadcast, txid := Some(txid))]
    {
      proposals := proposals[pid := proposals[pid].(status := Broadcast, txid := Some(txid))];
    }

    method CancelProposalRow(pid: ProposalId)
      requires pid in proposals
      modifies this`proposals
      ensures proposals == old(proposals)[pid := old(proposals)[pid].(status := Withdrawn)]
    {
      proposals := proposals[pid := proposals[pid].(status := Withdrawn)];
    }

    /** `ON CONFLICT DO NOTHING`: a signer's first contribution stands. */
    method InsertSignature(pid: ProposalId, signer: SignerId, partial: Psbt) returns (inserted: bool)
      modifies this`signatures
      ensures inserted <==> (pid, signer) !in old(signatures)
      ensures signatures == if inserted then old(signatures)[(pid, signer) := partial] else old(signatures)
    {
      inserted := (pid, signer) !in signatures;
      if inserted {
        signatures := signatures[(pid, signer) := partial];
      }
    }
  }

  /** A non-empty set of versions has one with the least index. */
  lemma HasOldest(versions: map<VersionId, VersionRow>, ids: set<VersionId>)
    requires ids != {} && ids <= versions.Keys
    ensures exists v :: v in ids && forall w :: w in ids ==> versions[v].index <= versions[w].index
  {
    var x :| x in ids;
    HasOldestBelow(versions, ids, x);
  }

  lemma {:induction false} HasOldestBelow(versions: map<VersionId, VersionRow>, ids: set<VersionId>, x: VersionId)
    requires ids <= versions.Keys && x in ids
    ensures exists v :: v in ids && forall w :: w in ids ==> versions[v].index <= versions[w].index
    decreases versions[x].index
  {
    if y :| y in ids && versions[y].index < versions[x].index {
      HasOldestBelow(versions, ids, y);
    }
  }
}
