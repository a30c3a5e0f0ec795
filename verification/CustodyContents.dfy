/** What the wallet and its row hold after each operation, component by component, and what they
    keep of an answer over later runs. */
module CustodyContents {
  import opened Wrappers
  import opened Primitives
  import opened ChangeSets
  import opened Custody
  import opened CustodyTheorems

  /** The live wallet is exactly what the row loads as, and nothing waits to be written. */
  predicate InOneState(v: Vault) {
    v.cached.Some? && v.row.Some? && LoadsAs(v.row.value, v.cached.value.graph) && v.cached.value.stage == NOTHING
  }

  lemma SettledIsOneState(v: Vault)
    requires Settled(v) && v.cached.Some?
    ensures InOneState(v)
  {
    ReloadLoadsAs(v.row.value);
  }

  // ----- one operation on a settled wallet -----

  lemma One(v: Vault, e: Event)
    ensures Run(v, [e]) == Step(v, e)
  {
    assert [e][1..] == [];
  }

  lemma PersistKeepsGraph(row: Option<ChangeSet>, live: Live)
    ensures Persist(row, live).cached.Some? && Persist(row, live).cached.value.graph == live.graph
  {
  }

  /** Staging a change and persisting it leaves wallet and row in one state, with the change in it. */
  lemma PersistTakesIn(v: Vault, d: ChangeSet)
    requires Settled(v) && v.cached.Some?
    ensures
      var after := Persist(v.row, Staging(v.cached.value, d));
      InOneState(after) && TakesIn(v.cached.value.graph, d, after.cached.value.graph)
  {
    SettledIsCoherent(v);
    StagePersist(v, d);
    PersistKeepsGraph(v.row, Staging(v.cached.value, d));
    SettledIsOneState(Persist(v.row, Staging(v.cached.value, d)));
    ApplyTakesIn(v.cached.value.graph, d);
  }

  /** A forward sync takes in all the node answered, live and in the row. */
  lemma ForwardSyncTakesIn(v: Vault, delta: ChangeSet)
    requires Settled(v) && v.cached.Some?
    ensures
      var after := Run(v, [Sync(Forward(delta))]);
      InOneState(after) && TakesIn(v.cached.value.graph, delta, after.cached.value.graph)
  {
    One(v, Sync(Forward(delta)));
    PersistTakesIn(v, delta);
  }

  /** A failed sync takes in what it had already applied, live only; the row stays as it is. */
  lemma FailedSyncTakesIn(v: Vault, partial: ChangeSet)
    requires v.cached.Some?
    ensures
      var after := Run(v, [Sync(Failed(partial))]);
      after.row == v.row && after.cached.Some? && TakesIn(v.cached.value.graph, partial, after.cached.value.graph)
  {
    One(v, Sync(Failed(partial)));
    ApplyTakesIn(v.cached.value.graph, partial);
  }

  /** A rebuild leaves exactly the answer, live and in the row, whatever was there before. */
  lemma RebuildReplaces(v: Vault, full: ChangeSet)
    requires v.cached.Some?
    ensures
      var after := Run(v, [Sync(Rebuilt(full))]);
      InOneState(after) && after.row == Some(full) && LoadsAs(full, after.cached.value.graph)
  {
    One(v, Sync(Rebuilt(full)));
    ReloadLoadsAs(full);
  }

  /** A rescan leaves exactly the scan in the row, and no cached wallet. */
  lemma RescanReplaces(v: Vault, full: ChangeSet)
    ensures Run(v, [Rescan(full)]) == Vault(Some(full), None)
  {
    One(v, Rescan(full));
  }

  /** A built spend takes in its reveal, live and in the row. */
  lemma SpendTakesIn(v: Vault, change: ChangeSet)
    requires Settled(v) && v.cached.Some?
    ensures
      var after := Run(v, [BuildSpend(change, true)]);
      InOneState(after) && TakesIn(v.cached.value.graph, change, after.cached.value.graph)
  {
    One(v, BuildSpend(change, true));
    PersistTakesIn(v, change);
  }

  /** A failed one takes it in live only. */
  lemma FailedSpendTakesIn(v: Vault, change: ChangeSet)
    requires v.cached.Some?
    ensures
      var after := Run(v, [BuildSpend(change, false)]);
      after.row == v.row && after.cached.Some? && TakesIn(v.cached.value.graph, change, after.cached.value.graph)
  {
    One(v, BuildSpend(change, false));
    ApplyTakesIn(v.cached.value.graph, change);
  }

  /** A reveal raises the last revealed external index to the last one asked for, and no further. */
  lemma RevealTakesIn(v: Vault, count: nat)
    requires Settled(v) && v.cached.Some?
    ensures
      var before, after := v.cached.value.graph, Run(v, [RevealAddresses(count)]);
      && InOneState(after)
      && TakesIn(before, NOTHING.(revealed := if count == 0 then map[] else map[External := count - 1]),
                 after.cached.value.graph)
  {
    var before := v.cached.value.graph;
    One(v, RevealAddresses(count));
    if count == 0 {
      SettledIsOneState(v);
      NothingIsNeutral(NOTHING, before);
      ApplyTakesIn(before, NOTHING);
    } else {
      PersistTakesIn(v, RevealDelta(before, count));
      PersistKeepsGraph(v.row, Staging(v.cached.value, RevealDelta(before, count)));
      RevealedGraph(before, count);
      ApplyTakesIn(before, NOTHING.(revealed := map[External := count - 1]));
    }
  }

  lemma RevealedGraph(w: WalletGraph, count: nat)
    requires count > 0
    ensures Apply(w, RevealDelta(w, count)) == Apply(w, NOTHING.(revealed := map[External := count - 1]))
  {
    NothingIsNeutral(NOTHING, w);
    if RevealDelta(w, count) == NOTHING {
      var asked := map[External := count - 1];
      assert MaxOf(w.revealed, asked) == w.revealed;
      ConnectNothing(w.chain);
      MaxNeutral(w.lastSeen);
      MaxNeutral(w.lastEvicted);
      UnionNeutral(w.txs);
      assert w.anchors + {} == w.anchors;
    }
  }

  /** A wallet loaded from a row knows what the row holds; under the RPC backend, if the row has no
      checkpoint above genesis, also the node's tip, which is then in the row too. */
  lemma LoadTakesIn(v: Vault, backend: Backend, initial: ChangeSet)
    requires v.cached.None? && v.row.Some? && IsComplete(initial)
    ensures
      var after, held := Run(v, [LoadOrInit(backend, initial)]), Reload(v.row.value);
      && InOneState(after) && LoadsAs(v.row.value, held)
      && TakesIn(held, TipOf(backend, AtGenesis(held)), after.cached.value.graph)
  {
    var held := Reload(v.row.value);
    One(v, LoadOrInit(backend, initial));
    LoadSettles(v, backend, initial);
    SettledIsOneState(LoadStep(v, backend, initial));
    ReloadLoadsAs(v.row.value);
    PersistKeepsGraph(v.row, Staging(Live(held, NOTHING, v.row.value), Birthday(backend, held, false)));
    ApplyTakesIn(held, TipOf(backend, AtGenesis(held)));
  }

  /** A wallet without a row knows its descriptor, and the node's tip under the RPC backend. */
  lemma CreateTakesIn(v: Vault, backend: Backend, initial: ChangeSet)
    requires v.cached.None? && v.row.None? && IsComplete(initial)
    ensures
      var after, blank := Run(v, [LoadOrInit(backend, initial)]), Apply(BLANK, initial);
      && InOneState(after) && TakesIn(BLANK, initial, blank)
      && TakesIn(blank, TipOf(backend, true), after.cached.value.graph)
  {
    var blank := Apply(BLANK, initial);
    One(v, LoadOrInit(backend, initial));
    LoadSettles(v, backend, initial);
    SettledIsOneState(LoadStep(v, backend, initial));
    ApplyTakesIn(BLANK, initial);
    PersistKeepsGraph(v.row, Staging(Live(blank, initial, NOTHING), Birthday(backend, blank, true)));
    ApplyTakesIn(blank, TipOf(backend, true));
  }

  /** The checkpoint at the node's tip, for a wallet that has none of its own. */
  function TipOf(backend: Backend, wanted: bool): ChangeSet {
    NOTHING.(blocks := match backend
                       case Rpc(count, hash) => if wanted && count > 0 then map[count := Some(hash)] else map[]
                       case Nodeless => map[])
  }

  /** A re-sweep that cannot be built leaves its sweep evicted for good, live only, and drops what
      was staged; one that was built leaves no wallet; the row stays as it is either way. */
  lemma ResweepTakesIn(v: Vault, listing: seq<Listed>)
    requires v.cached.Some? && Stranded(listing).Some?
    ensures Run(v, [Event.Resweep(listing, true)]) == Vault(v.row, None)
    ensures
      var after := Run(v, [Event.Resweep(listing, false)]);
      && after.row == v.row && after.cached.Some? && after.cached.value.stage == NOTHING
      && TakesIn(v.cached.value.graph, NOTHING.(lastEvicted := map[Stranded(listing).value := U64_MAX]),
                 after.cached.value.graph)
  {
    One(v, Event.Resweep(listing, true));
    One(v, Event.Resweep(listing, false));
    ApplyTakesIn(v.cached.value.graph, NOTHING.(lastEvicted := map[Stranded(listing).value := U64_MAX]));
  }

  // ----- what later runs keep -----

  predicate AtLeast<K>(a: map<K, nat>, b: map<K, nat>) {
    forall k :: k in a ==> k in b && a[k] <= b[k]
  }

  /** The row has every transaction, anchor, sighting, eviction and reveal of `d`, and a word on every
      height `d` speaks of. */
  predicate Contains(row: ChangeSet, d: ChangeSet) {
    && (d.descriptor.Some? ==> row.descriptor.Some?)
    && d.blocks.Keys <= row.blocks.Keys && d.txs.Keys <= row.txs.Keys && d.anchors <= row.anchors
    && AtLeast(d.lastSeen, row.lastSeen) && AtLeast(d.lastEvicted, row.lastEvicted) && AtLeast(d.revealed, row.revealed)
  }

  /** Wherever both speak of a height or a txid, they say the same. */
  predicate Agree(a: ChangeSet, b: ChangeSet) {
    && (forall h :: h in a.blocks && h in b.blocks ==> a.blocks[h] == b.blocks[h])
    && (forall t :: t in a.txs && t in b.txs ==> a.txs[t] == b.txs[t])
  }

  lemma MergeContains(a: ChangeSet, b: ChangeSet, d: ChangeSet)
    requires Contains(a, d) || Contains(b, d)
    ensures Contains(Merge(a, b), d)
  {
    if Contains(a, d) {
      MergeHoldsFirst(a, b);
      LaterContains(a, Merge(a, b), d);
    } else {
      MergeHoldsSecond(a, b);
      LaterContains(b, Merge(a, b), d);
    }
  }

  lemma MergeHoldsFirst(a: ChangeSet, b: ChangeSet)
    ensures Contains(Merge(a, b), a)
  {
  }

  lemma MergeHoldsSecond(a: ChangeSet, b: ChangeSet)
    ensures Contains(Merge(a, b), b)
  {
  }

  lemma LaterContains(a: ChangeSet, c: ChangeSet, d: ChangeSet)
    requires Contains(a, d) && Contains(c, a)
    ensures Contains(c, d)
  {
    ThroughLatest(d.lastSeen, a.lastSeen, c.lastSeen);
    ThroughLatest(d.lastEvicted, a.lastEvicted, c.lastEvicted);
    ThroughLatest(d.revealed, a.revealed, c.revealed);
  }

  lemma ThroughLatest<K>(d: map<K, nat>, a: map<K, nat>, c: map<K, nat>)
    requires AtLeast(d, a) && a.Keys <= c.Keys && forall k :: k in a ==> a[k] <= c[k]
    ensures AtLeast(d, c)
  {
  }

  lemma MergeAgrees(a: ChangeSet, b: ChangeSet, d: ChangeSet)
    requires Agree(a, d) && Agree(b, d)
    ensures Agree(Merge(a, b), d)
  {
  }

  /** The event replaces the row. */
  predicate Replaces(e: Event) {
    e.Rescan? || (e.Sync? && e.outcome.Rebuilt?)
  }

  /** What the event can add to the wallet. */
  function BroughtBy(e: Event): ChangeSet {
    match e
    case Sync(Forward(delta)) => delta
    case Sync(Failed(partial)) => partial
    case BuildSpend(delta, _) => delta
    case LoadOrInit(backend, _) => TipOf(backend, true)
    case _ => NOTHING
  }

  /** The row is the cached wallet's aggregate. */
  predicate RowIsAggregate(v: Vault) {
    v.cached.Some? ==> v.row == Some(v.cached.value.aggregate)
  }

  predicate Retains(v: Vault, d: ChangeSet) {
    RowIsAggregate(v) && v.row.Some? && Contains(v.row.value, d)
  }

  /** Neither the row nor what is staged says anything else than `d`. */
  predicate SaysSame(v: Vault, d: ChangeSet) {
    v.row.Some? && Agree(v.row.value, d) && (v.cached.Some? ==> Agree(v.cached.value.stage, d))
  }

  lemma PersistRetains(row: Option<ChangeSet>, live: Live, d: ChangeSet)
    requires row == Some(live.aggregate) && Contains(live.aggregate, d)
    ensures Retains(Persist(row, live), d)
  {
    MergeContains(live.aggregate, live.stage, d);
  }

  lemma PersistSaysSame(row: Option<ChangeSet>, live: Live, d: ChangeSet)
    requires row == Some(live.aggregate) && Agree(live.aggregate, d) && Agree(live.stage, d)
    ensures SaysSame(Persist(row, live), d)
  {
    MergeAgrees(live.aggregate, live.stage, d);
  }

  lemma StagingSaysSame(live: Live, more: ChangeSet, d: ChangeSet)
    requires Agree(live.stage, d) && Agree(more, d)
    ensures Agree(Staging(live, more).stage, d)
  {
    MergeAgrees(live.stage, more, d);
  }

  lemma LoadRetains(v: Vault, backend: Backend, initial: ChangeSet, d: ChangeSet)
    requires Retains(v, d) && v.cached.None?
    ensures Retains(LoadStep(v, backend, initial), d)
  {
    var loaded := Live(Reload(v.row.value), NOTHING, v.row.value);
    PersistRetains(v.row, Staging(loaded, Birthday(backend, loaded.graph, false)), d);
  }

  lemma StepRetains(v: Vault, e: Event, d: ChangeSet)
    requires Retains(v, d) && !Replaces(e)
    ensures Retains(Step(v, e), d)
  {
    if e.LoadOrInit? {
      if v.cached.None? { LoadRetains(v, e.backend, e.initial, d); }
    } else if v.cached.Some? {
      var live := v.cached.value;
      match e
      case Sync(Forward(delta)) => PersistRetains(v.row, Staging(live, delta), d);
      case RevealAddresses(count) => PersistRetains(v.row, Staging(live, RevealDelta(live.graph, count)), d);
      case BuildSpend(delta, built) => PersistRetains(v.row, Staging(live, delta), d);
      case BuildDrain(built) => PersistRetains(v.row, live, d);
      case _ =>
    }
  }

  lemma LoadSaysSame(v: Vault, backend: Backend, initial: ChangeSet, d: ChangeSet)
    requires SaysSame(v, d) && v.cached.None? && Agree(TipOf(backend, true), d)
    ensures SaysSame(LoadStep(v, backend, initial), d)
  {
    var loaded := Live(Reload(v.row.value), NOTHING, v.row.value);
    var seed := Birthday(backend, loaded.graph, false);
    StagingSaysSame(loaded, seed, d);
    PersistSaysSame(v.row, Staging(loaded, seed), d);
  }

  lemma StepSaysSame(v: Vault, e: Event, d: ChangeSet)
    requires RowIsAggregate(v) && SaysSame(v, d) && !Replaces(e) && Agree(BroughtBy(e), d)
    ensures SaysSame(Step(v, e), d)
  {
    if e.LoadOrInit? {
      if v.cached.None? { LoadSaysSame(v, e.backend, e.initial, d); }
    } else if v.cached.Some? {
      var live := v.cached.value;
      match e
      case Sync(Forward(delta)) =>
        StagingSaysSame(live, delta, d);
        PersistSaysSame(v.row, Staging(live, delta), d);
      case Sync(Failed(partial)) => StagingSaysSame(live, partial, d);
      case RevealAddresses(count) =>
        StagingSaysSame(live, RevealDelta(live.graph, count), d);
        PersistSaysSame(v.row, Staging(live, RevealDelta(live.graph, count)), d);
      case BuildSpend(delta, built) =>
        StagingSaysSame(live, delta, d);
        PersistSaysSame(v.row, Staging(live, delta), d);
      case BuildDrain(built) => PersistSaysSame(v.row, live, d);
      case _ =>
    }
  }

  lemma {:induction false} RunRetains(v: Vault, es: seq<Event>, d: ChangeSet)
    requires Retains(v, d) && forall e :: e in es ==> !Replaces(e)
    ensures Retains(Run(v, es), d)
    ensures SaysSame(v, d) && (forall e :: e in es ==> Agree(BroughtBy(e), d)) ==> SaysSame(Run(v, es), d)
    decreases |es|
  {
    if es != [] {
      var e := es[0];
      assert e in es && forall f :: f in es[1..] ==> f in es;
      StepRetains(v, e, d);
      if SaysSame(v, d) && Agree(BroughtBy(e), d) {
        StepSaysSame(v, e, d);
      }
      RunRetains(Step(v, e), es[1..], d);
    }
  }

  /** Every vault a run reaches has its row as aggregate. */
  lemma {:induction false} RowIsAlwaysAggregate(v: Vault, es: seq<Event>)
    requires RowIsAggregate(v) && forall e :: e in es ==> FromLibrary(e)
    ensures RowIsAggregate(Run(v, es))
    decreases |es|
  {
    if es != [] {
      assert es[0] in es;
      StepKeepsAggregate(v, es[0]);
      RowIsAlwaysAggregate(Step(v, es[0]), es[1..]);
    }
  }

  lemma StepKeepsAggregate(v: Vault, e: Event)
    requires RowIsAggregate(v) && FromLibrary(e)
    ensures RowIsAggregate(Step(v, e))
  {
    if e.LoadOrInit? && v.cached.None? {
      LoadSettles(v, e.backend, e.initial);
    }
  }

  lemma NothingMerged(a: ChangeSet, b: ChangeSet)
    requires Merge(a, b) == NOTHING
    ensures b == NOTHING
  {
    assert forall h :: h in b.blocks ==> h in (a.blocks + b.blocks);
    assert forall t :: t in b.txs ==> t in (a.txs + b.txs);
    assert b.lastSeen.Keys <= MaxOf(a.lastSeen, b.lastSeen).Keys;
    assert b.lastEvicted.Keys <= MaxOf(a.lastEvicted, b.lastEvicted).Keys;
    assert b.revealed.Keys <= MaxOf(a.revealed, b.revealed).Keys;
    assert b.anchors <= a.anchors + b.anchors;
  }

  lemma SelfContains(d: ChangeSet)
    ensures Contains(d, d) && Agree(d, d)
  {
  }

  /** What brings an answer and writes it: a forward sync, a built spend, a rebuild or a rescan. */
  predicate Writes(v: Vault, e: Event, d: ChangeSet) {
    e == Rescan(d)
    || (v.cached.Some? && (e == Sync(Forward(d)) || e == Sync(Rebuilt(d)) || e == BuildSpend(d, true)))
  }

  lemma WrittenIsHeld(v: Vault, e: Event, d: ChangeSet)
    requires RowIsAggregate(v) && Writes(v, e, d)
    ensures Retains(Step(v, e), d) && SaysSame(Step(v, e), d)
  {
    SelfContains(d);
    if !Replaces(e) {
      PersistedIsHeld(v.row, v.cached.value, d);
    }
  }

  lemma PersistedIsHeld(row: Option<ChangeSet>, live: Live, d: ChangeSet)
    requires row == Some(live.aggregate)
    ensures Retains(Persist(row, Staging(live, d)), d) && SaysSame(Persist(row, Staging(live, d)), d)
  {
    if Merge(live.stage, d) == NOTHING {
      NothingMerged(live.stage, d);
    } else {
      SelfContains(d);
      MergeContains(live.stage, d, d);
      MergeContains(live.aggregate, Merge(live.stage, d), d);
      LastMergedAgrees(live.stage, d);
      LastMergedAgrees(live.aggregate, Merge(live.stage, d));
    }
  }

  lemma LastMergedAgrees(a: ChangeSet, b: ChangeSet)
    ensures Agree(Merge(a, b), b)
  {
  }

  /** From any reachable vault: whatever a written answer brought is in the row after every later run
      without a rebuild or a rescan, failures, previews and re-sweeps included; and its checkpoints
      and transactions stand there as brought unless a later answer says otherwise. */
  lemma AnswersStay(before: seq<Event>, e: Event, d: ChangeSet, after: seq<Event>)
    requires forall f :: f in before ==> FromLibrary(f)
    requires Writes(Run(Vault(None, None), before), e, d) && forall f :: f in after ==> !Replaces(f)
    ensures
      var w := Run(Step(Run(Vault(None, None), before), e), after);
      && w.row.Some? && Contains(w.row.value, d)
      && ((forall f :: f in after ==> Agree(BroughtBy(f), d)) ==> Agree(w.row.value, d))
  {
    var v := Run(Vault(None, None), before);
    RowIsAlwaysAggregate(Vault(None, None), before);
    WrittenIsHeld(v, e, d);
    RunRetains(Step(v, e), after, d);
  }
}
