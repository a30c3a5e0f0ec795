/** The lineage pass of the wallet manager: sync every version, latch sweeps seen confirmed,
    revert sweeps that lost their confirmation, and report how many were reverted. */
module Reconcile {
  import opened Wrappers
  import opened Primitives
  import opened Schema
  import opened Transitions
  import opened Database

  /** A canonical wallet transaction: its confirmation height, or none while unconfirmed. */
  datatype WalletTx = WalletTx(txid: Txid, height: Option<nat>)

  /** What the backend answers one wallet: its canonical transactions after the sync, and
      whether the sync had to rebuild the wallet's graph. */
  datatype SyncAnswer = SyncAnswer(transactions: seq<WalletTx>, reorgRebuilt: bool)

  datatype SyncSummary = SyncSummary(version: VersionId, reorgRebuilt: bool, migrationsReverted: nat)

  function ConfirmedOf(txs: seq<WalletTx>): map<Txid, nat> {
    if txs == [] then map[]
    else
      var rest := ConfirmedOf(txs[..|txs| - 1]);
      var last := txs[|txs| - 1];
      if last.height.Some? then rest[last.txid := last.height.value] else rest
  }

  function Restrict(m: map<Txid, nat>, wanted: set<Txid>): map<Txid, nat> {
    map t | t in m && t in wanted :: m[t]
  }

  function ConfirmedViews(wallets: map<VersionId, seq<WalletTx>>, order: seq<VersionId>): seq<map<Txid, nat>>
    requires forall v :: v in order ==> v in wallets
  {
    seq(|order|, i requires 0 <= i < |order| => ConfirmedOf(wallets[order[i]]))
  }

  /** `order` lists the lineage's versions, each once, by ascending index. */
  ghost predicate Listing(versions: map<VersionId, VersionRow>, lineage: VersionId, order: seq<VersionId>) {
    && (forall v :: v in order <==> v in versions && versions[v].lineage == lineage)
    && (forall i, j :: 0 <= i < j < |order| ==> order[i] != order[j])
    && (forall i, j :: 0 <= i < j < |order| ==> versions[order[i]].index <= versions[order[j]].index)
  }

  /** The rows that went from complete to pending. */
  function RevertedIn(before: map<VersionId, VersionRow>, after: map<VersionId, VersionRow>): set<VersionId> {
    set v | v in before && v in after
            && before[v].sweepStatus == Complete && after[v].sweepStatus == SweepPending
  }

  function AtMostU32(n: nat): nat {
    if n <= U32_MAX then n else U32_MAX
  }

  function SumReverted(summaries: seq<SyncSummary>): nat {
    if summaries == [] then 0
    else SumReverted(summaries[..|summaries| - 1]) + summaries[|summaries| - 1].migrationsReverted
  }

  /** The first summary whose sync rebuilt its wallet, or the length if none did. */
  function FirstRebuilt(summaries: seq<SyncSummary>): (k: nat)
    ensures k <= |summaries|
  {
    if summaries == [] || summaries[0].reorgRebuilt then 0 else 1 + FirstRebuilt(summaries[1..])
  }

  /** Puts the lineage-wide count on the first rebuilt version's summary, else on the first. */
  function Surface(summaries: seq<SyncSummary>, reverted: nat): seq<SyncSummary> {
    if summaries == [] then []
    else
      var k := if FirstRebuilt(summaries) < |summaries| then FirstRebuilt(summaries) else 0;
      summaries[k := summaries[k].(migrationsReverted := reverted)]
  }

  /** Summary `k` alone carries the count `n`; it is the first of a rebuilt wallet, or the very first
      if no wallet was rebuilt. */
  predicate CountAt(summaries: seq<SyncSummary>, k: nat, n: nat) {
    && k < |summaries| && summaries[k].migrationsReverted == n
    && (forall j :: 0 <= j < |summaries| && j != k ==> summaries[j].migrationsReverted == 0)
    && (forall j :: 0 <= j < k ==> !summaries[j].reorgRebuilt)
    && (!summaries[k].reorgRebuilt ==> k == 0 && forall j :: 0 <= j < |summaries| ==> !summaries[j].reorgRebuilt)
  }

  /** A sync that reverted `n` rows says so on exactly one summary, the right one, and a sync that
      reverted none on no summary; the count stops at the largest 32-bit number. */
  ghost predicate CountsRight(summaries: seq<SyncSummary>, n: nat) {
    if n == 0 then forall s :: s in summaries ==> s.migrationsReverted == 0
    else CountOnOne(summaries, if n <= 0xFFFF_FFFF then n else 0xFFFF_FFFF)
  }

  ghost predicate CountOnOne(summaries: seq<SyncSummary>, n: nat) {
    exists k :: CountAt(summaries, k, n)
  }

  lemma {:induction false} FirstRebuiltIsFirst(summaries: seq<SyncSummary>)
    ensures
      var k := FirstRebuilt(summaries);
      && (k < |summaries| ==> summaries[k].reorgRebuilt)
      && forall j :: 0 <= j < k ==> !summaries[j].reorgRebuilt
  {
    if summaries != [] && !summaries[0].reorgRebuilt {
      FirstRebuiltIsFirst(summaries[1..]);
      assert forall j :: 0 < j < |summaries| ==> summaries[j] == summaries[1..][j - 1];
    }
  }

  lemma SurfaceCounts(summaries: seq<SyncSummary>, n: nat)
    requires summaries != [] && forall s :: s in summaries ==> s.migrationsReverted == 0
    ensures CountOnOne(Surface(summaries, n), n)
  {
    FirstRebuiltIsFirst(summaries);
    var k := if FirstRebuilt(summaries) < |summaries| then FirstRebuilt(summaries) else 0;
    assert CountAt(Surface(summaries, n), k, n);
  }

  lemma {:induction false} NothingRevertedYet(summaries: seq<SyncSummary>)
    requires forall s :: s in summaries ==> s.migrationsReverted == 0
    ensures SumReverted(summaries) == 0
    ensures forall n :: summaries != [] ==> SumReverted(Surface(summaries, n)) == n
  {
    ZeroSum(summaries);
    forall n | summaries != [] ensures SumReverted(Surface(summaries, n)) == n {
      var k := if FirstRebuilt(summaries) < |summaries| then FirstRebuilt(summaries) else 0;
      SumOfOne(Surface(summaries, n), k);
    }
  }

  lemma SurfaceKeeps(summaries: seq<SyncSummary>, n: nat)
    ensures VersionsOf(Surface(summaries, n)) == VersionsOf(summaries)
    ensures forall s :: s in Surface(summaries, n) ==>
      exists t :: t in summaries && t.version == s.version && t.reorgRebuilt == s.reorgRebuilt
  {
    forall s | s in Surface(summaries, n)
      ensures exists t :: t in summaries && t.version == s.version && t.reorgRebuilt == s.reorgRebuilt
    {
      var i :| 0 <= i < |summaries| && Surface(summaries, n)[i] == s;
      assert summaries[i] in summaries;
    }
  }

  lemma {:induction false} ZeroSum(summaries: seq<SyncSummary>)
    requires forall s :: s in summaries ==> s.migrationsReverted == 0
    ensures SumReverted(summaries) == 0
  {
    if summaries != [] { ZeroSum(summaries[..|summaries| - 1]); }
  }

  lemma {:induction false} SumOfOne(summaries: seq<SyncSummary>, k: nat)
    requires k < |summaries|
    requires forall i :: 0 <= i < |summaries| && i != k ==> summaries[i].migrationsReverted == 0
    ensures SumReverted(summaries) == summaries[k].migrationsReverted
  {
    var init := summaries[..|summaries| - 1];
    if k == |summaries| - 1 { ZeroSum(init); } else { SumOfOne(init, k); }
  }

  lemma {:induction false} UnionSnoc(ws: seq<map<Txid, nat>>, w: map<Txid, nat>)
    ensures ConfirmedUnion(ws + [w]) == w + ConfirmedUnion(ws)
  {
    if ws == [] {
      assert ws + [w] == [w] && [w][1..] == [];
    } else {
      UnionSnoc(ws[1..], w);
      assert (ws + [w])[1..] == ws[1..] + [w];
    }
  }

  /** A complete row with a parseable txid: what a pass looks at. */
  predicate Candidate(row: VersionRow) {
    row.sweepStatus == Complete && row.sweepTxid.Some? && ParseTxid(row.sweepTxid.value).Some?
  }

  function CandidateTxid(row: VersionRow): Txid
    requires Candidate(row)
  {
    ParseTxid(row.sweepTxid.value).value
  }

  /** The rows after the versions in `done` were passed over. */
  function PassedOver(versions: map<VersionId, VersionRow>, done: seq<VersionId>,
                      confirmed: map<Txid, nat>): map<VersionId, VersionRow>
  {
    map v | v in versions ::
      if v in done then Observe(versions[v], SeenHeight(versions[v], confirmed)) else versions[v]
  }

  /** Passing over one more version changes its row only. */
  lemma PassOverOne(versions: map<VersionId, VersionRow>, done: seq<VersionId>, v: VersionId,
                    confirmed: map<Txid, nat>)
    requires v in versions && v !in done
    ensures PassedOver(versions, done + [v], confirmed) ==
      PassedOver(versions, done, confirmed)[v := Observe(versions[v], SeenHeight(versions[v], confirmed))]
    ensures PassedOver(versions, done, confirmed)[v] == versions[v]
  {
    var before, after := PassedOver(versions, done, confirmed), PassedOver(versions, done + [v], confirmed);
    forall w | w in versions && w != v ensures after[w] == before[w] {
      assert w in done + [v] <==> w in done;
    }
  }

  /** Rewriting one complete row counts it exactly if it becomes pending. */
  lemma CountOne(versions: map<VersionId, VersionRow>, before: map<VersionId, VersionRow>, v: VersionId, row: VersionRow)
    requires v in versions && v in before && before[v] == versions[v] && versions[v].sweepStatus == Complete
    ensures |RevertedIn(versions, before[v := row])| ==
      |RevertedIn(versions, before)| + (if row.sweepStatus == SweepPending then 1 else 0)
  {
    if row.sweepStatus == SweepPending {
      assert RevertedIn(versions, before[v := row]) == RevertedIn(versions, before) + {v};
    } else {
      assert RevertedIn(versions, before[v := row]) == RevertedIn(versions, before);
    }
  }

  function VersionsOf(summaries: seq<SyncSummary>): (vs: seq<VersionId>)
    ensures |vs| == |summaries|
    ensures forall i :: 0 <= i < |vs| ==> vs[i] == summaries[i].version
  {
    seq(|summaries|, i requires 0 <= i < |summaries| => summaries[i].version)
  }

  // ----- what a lineage sync answers -----

  /** One summary for every listed version, in listing order, before any revert is counted. */
  function Plain(order: seq<VersionId>, node: map<VersionId, SyncAnswer>): (r: seq<SyncSummary>)
    requires forall v :: v in order ==> v in node
    ensures |r| == |order|
  {
    seq(|order|, i requires 0 <= i < |order| => SyncSummary(order[i], node[order[i]].reorgRebuilt, 0))
  }

  function TransactionsOf(node: map<VersionId, SyncAnswer>): map<VersionId, seq<WalletTx>> {
    map v | v in node :: node[v].transactions
  }

  /** The answer to a sync of the lineage over the backend's answers `node`: the rows of one pass
      over the synced wallets, and the count of reverts on one summary. */
  ghost predicate IsReport(before: map<VersionId, VersionRow>, lineage: VersionId, node: map<VersionId, SyncAnswer>,
                           order: seq<VersionId>, after: map<VersionId, VersionRow>, summaries: seq<SyncSummary>)
  {
    && Listing(before, lineage, order) && (forall v :: v in order ==> v in node)
    && after == ReconcileRows(before, lineage, ConfirmedUnion(ConfirmedViews(TransactionsOf(node), order)))
    && Listing(before, lineage, VersionsOf(summaries)) && (forall v :: v in VersionsOf(summaries) ==> v in node)
    && var reverted := AtMostU32(|RevertedIn(before, after)|);
       summaries == if reverted > 0 then Surface(Plain(VersionsOf(summaries), node), reverted)
                    else Plain(VersionsOf(summaries), node)
  }

  /** The counts of a report sum to the rows it reverted. */
  lemma ReportCounts(before: map<VersionId, VersionRow>, lineage: VersionId, node: map<VersionId, SyncAnswer>,
                     order: seq<VersionId>, after: map<VersionId, VersionRow>, summaries: seq<SyncSummary>)
    requires IsReport(before, lineage, node, order, after, summaries)
    ensures SumReverted(summaries) == AtMostU32(|RevertedIn(before, after)|)
  {
    NothingRevertedYet(Plain(VersionsOf(summaries), node));
    if summaries == [] {
      assert forall v :: v in before ==> before[v].lineage != lineage;
      assert RevertedIn(before, after) == {};
    }
  }

  lemma ReportCountsRight(before: map<VersionId, VersionRow>, lineage: VersionId, node: map<VersionId, SyncAnswer>,
                          order: seq<VersionId>, after: map<VersionId, VersionRow>, summaries: seq<SyncSummary>)
    requires IsReport(before, lineage, node, order, after, summaries)
    ensures CountsRight(summaries, |RevertedIn(before, after)|)
    ensures forall s :: s in summaries ==> s.version in node && s.reorgRebuilt == node[s.version].reorgRebuilt
  {
    var plain := Plain(VersionsOf(summaries), node);
    if summaries == [] {
      assert forall v :: v in before ==> before[v].lineage != lineage;
      assert RevertedIn(before, after) == {};
    } else if |RevertedIn(before, after)| > 0 {
      SurfaceCounts(plain, AtMostU32(|RevertedIn(before, after)|));
    }
  }

  class Manager {
    const db: Tables
    var wallets: map<VersionId, seq<WalletTx>>

    constructor (db: Tables)
      ensures this.db == db && wallets == map[]
    {
      this.db := db;
      wallets := map[];
    }

    /** The wanted transactions one wallet shows canonically confirmed, with their heights. */
    method TxidsConfirmed(txs: seq<WalletTx>, wanted: set<Txid>) returns (confirmed: map<Txid, nat>)
      ensures confirmed == Restrict(ConfirmedOf(txs), wanted)
    {
      confirmed := map[];
      for i := 0 to |txs|
        invariant confirmed == Restrict(ConfirmedOf(txs[..i]), wanted)
      {
        assert txs[..i + 1][..i] == txs[..i];
        if txs[i].txid in wanted && txs[i].height.Some? {
          confirmed := confirmed[txs[i].txid := txs[i].height.value];
        }
      }
      assert txs[..|txs|] == txs;
    }

    /** The union over the lineage's wallets; the oldest version that confirms a txid decides. */
    method ConfirmedInLineage(order: seq<VersionId>, wanted: set<Txid>) returns (confirmed: map<Txid, nat>)
      requires forall v :: v in order ==> v in wallets
      ensures confirmed == Restrict(ConfirmedUnion(ConfirmedViews(wallets, order)), wanted)
    {
      confirmed := map[];
      ghost var views := ConfirmedViews(wallets, order);
      for i := 0 to |order|
        invariant confirmed == Restrict(ConfirmedUnion(views[..i]), wanted)
      {
        var seen := TxidsConfirmed(wallets[order[i]], wanted);
        confirmed := seen + confirmed;
        UnionSnoc(views[..i], views[i]);
        assert views[..i + 1] == views[..i] + [views[i]];
      }
      assert views[..|order|] == views;
    }

    /** The candidates of a pass, in listing order. */
    method Candidates(order: seq<VersionId>) returns (found: seq<VersionId>, wanted: set<Txid>)
      requires forall v :: v in order ==> v in db.versions
      requires forall i, j :: 0 <= i < j < |order| ==> order[i] != order[j]
      ensures forall v :: v in found <==> v in order && Candidate(db.versions[v])
      ensures forall i, j :: 0 <= i < j < |found| ==> found[i] != found[j]
      ensures forall v :: v in found ==> CandidateTxid(db.versions[v]) in wanted
    {
      found, wanted := [], {};
      for i := 0 to |order|
        invariant forall v :: v in found <==> v in order[..i] && Candidate(db.versions[v])
        invariant forall j, k :: 0 <= j < k < |found| ==> found[j] != found[k]
        invariant forall v :: v in found ==> CandidateTxid(db.versions[v]) in wanted
      {
        var row := db.versions[order[i]];
        if row.sweepStatus == Complete && row.sweepTxid.Some? && ParseTxid(row.sweepTxid.value).Some? {
          found := found + [order[i]];
          wanted := wanted + {ParseTxid(row.sweepTxid.value).value};
        }
      }
    }

    /** Latch, revert or leave one candidate, by its sweep's height in `confirmed`. */
    method DecideOne(v: VersionId, confirmed: map<Txid, nat>) returns (did: bool)
      requires v in db.versions && Candidate(db.versions[v])
      modifies db
      ensures db.View() == old(db.View()).(versions :=
        old(db.versions)[v := Observe(old(db.versions)[v], SeenHeight(old(db.versions)[v], confirmed))])
      ensures did <==> db.versions[v].sweepStatus == SweepPending
    {
      var row := db.versions[v];
      var txid := ParseTxid(row.sweepTxid.value).value;
      did := false;
      if row.sweepHeight.None? && txid in confirmed {
        var _ := db.LatchMigrationSweepHeight(v, row.sweepTxid.value, ClampHeight(confirmed[txid]));
      } else if row.sweepHeight.Some? && txid !in confirmed {
        did := db.ReconcileMigration(v, row.sweepTxid.value);
      } else {
        assert db.versions[v := row] == db.versions;
      }
    }

    /** The latch and revert decisions of one pass, from heights already collected. */
    method Decide(candidates: seq<VersionId>, confirmed: map<Txid, nat>) returns (reverted: nat)
      requires forall v :: v in candidates ==> v in db.versions && Candidate(db.versions[v])
      requires forall i, j :: 0 <= i < j < |candidates| ==> candidates[i] != candidates[j]
      modifies db
      ensures db.View() == old(db.View()).(versions := PassedOver(old(db.versions), candidates, confirmed))
      ensures reverted == AtMostU32(|RevertedIn(old(db.versions), db.versions)|)
    {
      reverted := 0;
      ghost var before := db.versions;
      assert PassedOver(before, [], confirmed) == before;
      assert RevertedIn(before, before) == {};
      for i := 0 to |candidates|
        invariant db.View() == old(db.View()).(versions := PassedOver(before, candidates[..i], confirmed))
        invariant reverted == AtMostU32(|RevertedIn(before, db.versions)|)
      {
        var v := candidates[i];
        assert candidates[..i + 1] == candidates[..i] + [v];
        PassOverOne(before, candidates[..i], v, confirmed);
        CountOne(before, db.versions, v, Observe(before[v], SeenHeight(before[v], confirmed)));
        var did := DecideOne(v, confirmed);
        if did && reverted < U32_MAX {
          reverted := reverted + 1;
        }
      }
      assert candidates[..|candidates|] == candidates;
    }

    /** One lineage pass over the wallets as they stand. */
    method ReconcileRevertedMigrations(lineage: VersionId) returns (reverted: nat, ghost order: seq<VersionId>)
      requires forall v :: v in db.versions && db.versions[v].lineage == lineage ==> v in wallets
      modifies db
      ensures Listing(old(db.versions), lineage, order)
      ensures db.View() == old(db.View()).(versions :=
        ReconcileRows(old(db.versions), lineage, ConfirmedUnion(ConfirmedViews(wallets, order))))
      ensures reverted == AtMostU32(|RevertedIn(old(db.versions), db.versions)|)
    {
      var rows := db.LoadLineageVersions(lineage);
      order := rows;
      ghost var union := ConfirmedUnion(ConfirmedViews(wallets, order));
      var candidates, wanted := Candidates(rows);
      ghost var before := db.versions;
      if candidates == [] {
        assert ReconcileRows(before, lineage, union) == before;
        return 0, rows;
      }
      var confirmed := ConfirmedInLineage(rows, wanted);
      reverted := Decide(candidates, confirmed);
      assert db.versions == ReconcileRows(before, lineage, union);
    }

    /** Syncs the wallets of the listed versions; no summary counts a revert yet. */
    method SyncAll(rows: seq<VersionId>, node: map<VersionId, SyncAnswer>) returns (summaries: seq<SyncSummary>)
      requires forall v :: v in rows ==> v in node
      modifies this`wallets
      ensures summaries == Plain(rows, node)
      ensures forall v :: v in rows ==> v in wallets && wallets[v] == node[v].transactions
    {
      summaries := [];
      for i := 0 to |rows|
        invariant summaries == Plain(rows, node)[..i]
        invariant forall v :: v in rows[..i] ==> v in wallets && wallets[v] == node[v].transactions
      {
        wallets := wallets[rows[i] := node[rows[i]].transactions];
        summaries := summaries + [SyncSummary(rows[i], node[rows[i]].reorgRebuilt, 0)];
      }
      assert rows[..|rows|] == rows;
    }

    /** Syncs every version, reconciles the lineage once, and surfaces the count on one summary. */
    method SyncLineage(lineage: VersionId, node: map<VersionId, SyncAnswer>)
      returns (summaries: seq<SyncSummary>, ghost order: seq<VersionId>)
      requires forall v :: v in db.versions && db.versions[v].lineage == lineage ==> v in node
      modifies this`wallets, db
      ensures IsReport(old(db.versions), lineage, node, order, db.versions, summaries)
      ensures db.View() == old(db.View()).(versions := db.versions)
      ensures SumReverted(summaries) == AtMostU32(|RevertedIn(old(db.versions), db.versions)|)
      ensures CountsRight(summaries, |RevertedIn(old(db.versions), db.versions)|)
      ensures forall s :: s in summaries ==> s.version in node && s.reorgRebuilt == node[s.version].reorgRebuilt
    {
      var rows := db.LoadLineageVersions(lineage);
      summaries := SyncAll(rows, node);
      ghost var plain := summaries;
      assert VersionsOf(plain) == rows;
      var reverted;
      reverted, order := ReconcileRevertedMigrations(lineage);
      assert ConfirmedViews(wallets, order) == ConfirmedViews(TransactionsOf(node), order);
      if reverted > 0 {
        SurfaceKeeps(summaries, reverted);
        summaries := Surface(summaries, reverted);
      }
      ReportCounts(old(db.versions), lineage, node, order, db.versions, summaries);
      ReportCountsRight(old(db.versions), lineage, node, order, db.versions, summaries);
    }
  }
}
