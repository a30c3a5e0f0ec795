/** What the custody seam keeps over every run, and exactly where it loses something. */
module CustodyTheorems {
  import opened Wrappers
  import opened Primitives
  import opened ChangeSets
  import opened Custody

  /** The row is the aggregate, and the live wallet is the row plus what is still staged. */
  predicate Coherent(v: Vault) {
    v.cached.Some? ==>
      && v.row == Some(v.cached.value.aggregate)
      && v.cached.value.graph == Reload(Merge(v.cached.value.aggregate, v.cached.value.stage))
  }

  /** Reloading from the row gives the live wallet. */
  predicate ReloadsAsLive(v: Vault) {
    v.cached.Some? ==>
      && v.row == Some(v.cached.value.aggregate)
      && v.cached.value.graph == Reload(v.row.value)
  }

  predicate Settled(v: Vault) {
    ReloadsAsLive(v) && (v.cached.Some? ==> v.cached.value.stage == NOTHING)
  }

  /** A new wallet stages its descriptor, and so does a rebuilt or rescanned one. */
  predicate FromLibrary(e: Event) {
    match e
    case LoadOrInit(_, initial) => IsComplete(initial)
    case Sync(Rebuilt(full)) => IsComplete(full)
    case Rescan(full) => IsComplete(full)
    case _ => true
  }

  /** The operation fails after the live wallet was already changed. */
  predicate FailsMidway(e: Event) {
    match e
    case Sync(outcome) => outcome.Failed?
    case BuildSpend(_, built) => !built
    case Resweep(listing, built) => !built && Stranded(listing).Some?
    case _ => false
  }

  /** The operation throws away what is staged, or evicts without dropping the wallet. */
  predicate Discards(v: Vault, e: Event) {
    v.cached.Some? &&
    match e
    case PreviewDrain(built) => built && v.cached.value.stage != NOTHING
    case Resweep(listing, built) => !built && Stranded(listing).Some?
    case _ => false
  }

  lemma SettledIsCoherent(v: Vault)
    requires Settled(v)
    ensures Coherent(v)
  {
    if v.cached.Some? {
      NothingIsNeutral(v.cached.value.aggregate, BLANK);
    }
  }

  lemma StagingKeeps(live: Live, d: ChangeSet)
    requires live.graph == Reload(Merge(live.aggregate, live.stage))
    ensures Staging(live, d).graph == Reload(Merge(live.aggregate, Staging(live, d).stage))
  {
    ApplyTwice(BLANK, Merge(live.aggregate, live.stage), d);
    MergeAssociates(live.aggregate, live.stage, d);
  }

  lemma PersistSettles(row: Option<ChangeSet>, live: Live)
    requires live.graph == Reload(Merge(live.aggregate, live.stage))
    requires live.stage == NOTHING ==> row == Some(live.aggregate)
    ensures Settled(Persist(row, live))
  {
    NothingIsNeutral(live.aggregate, BLANK);
  }

  lemma LoadSettles(v: Vault, backend: Backend, initial: ChangeSet)
    requires v.cached.None? && IsComplete(initial)
    ensures Settled(LoadStep(v, backend, initial))
  {
    var brandNew := v.row.None?;
    var aggregate := if brandNew then NOTHING else v.row.value;
    var loaded := if brandNew then Live(Apply(BLANK, initial), initial, aggregate)
                  else Live(Reload(aggregate), NOTHING, aggregate);
    NothingIsNeutral(aggregate, BLANK);
    NothingIsNeutral(initial, BLANK);
    var seed := Birthday(backend, loaded.graph, brandNew);
    StagingKeeps(loaded, seed);
    PersistSettles(v.row, Staging(loaded, seed));
  }

  /** Loading reads a persisted row without rewriting it, except that the RPC backend stores a
      birthday for a wallet still at genesis; a federation without a row always gets one. */
  lemma LoadKeepsRowIff(v: Vault, backend: Backend, initial: ChangeSet)
    requires v.cached.None? && IsComplete(initial)
    ensures LoadStep(v, backend, initial).row == v.row <==>
      (v.row.Some? && (backend.Nodeless? || backend.count == 0 || !AtGenesis(Reload(v.row.value))))
  {
    LoadSettles(v, backend, initial);
    if v.row.Some? {
      var w := Reload(v.row.value);
      var seed := Birthday(backend, w, false);
      NothingIsNeutral(seed, w);
      NothingIsNeutral(v.row.value, w);
      if backend.Rpc? && backend.count != 0 && AtGenesis(w) {
        assert backend.count in seed.blocks && seed != NOTHING;
        assert backend.count !in w.chain;
        assert backend.count in Apply(w, seed).chain;
        ApplyTwice(BLANK, v.row.value, seed);
      }
    }
  }

  /** Revealing covers the addresses asked for, and asking for no more again changes nothing. */
  lemma RevealIsIdempotent(v: Vault, n: nat, m: nat)
    requires Settled(v) && v.cached.Some? && m <= n
    ensures
      var once := Step(v, RevealAddresses(n));
      && once.cached.Some?
      && (n > 0 ==> External in once.cached.value.graph.revealed && once.cached.value.graph.revealed[External] >= n - 1)
      && Step(once, RevealAddresses(m)) == once
  {
    var live := v.cached.value;
    var once := Step(v, RevealAddresses(n));
    if n > 0 {
      RevealCovers(live.graph, n, m);
      assert once.cached.value.graph == Apply(live.graph, RevealDelta(live.graph, n));
      assert once.cached.value.stage == NOTHING;
      NothingIsNeutral(NOTHING, once.cached.value.graph);
    }
  }

  lemma RevealCovers(w: WalletGraph, n: nat, m: nat)
    requires 0 < n && m <= n
    ensures var after := Apply(w, RevealDelta(w, n));
      External in after.revealed && after.revealed[External] >= n - 1 && RevealDelta(after, m) == NOTHING
  {
    assert Apply(w, RevealDelta(w, n)).revealed == MaxOf(w.revealed, RevealDelta(w, n).revealed);
  }

  /** One step keeps the seam coherent unless it discards something. */
  lemma StepKeepsCoherent(v: Vault, e: Event)
    requires Coherent(v) && FromLibrary(e) && !Discards(v, e)
    ensures Coherent(Step(v, e))
  {
    if e.LoadOrInit? && v.cached.None? {
      LoadSettles(v, e.backend, e.initial);
      SettledIsCoherent(Step(v, e));
    } else if v.cached.Some? {
      LiveStepKeeps(v, e);
    }
  }

  lemma LiveStepKeeps(v: Vault, e: Event)
    requires Coherent(v) && v.cached.Some? && !Discards(v, e)
    requires FromLibrary(e)
    ensures Coherent(Step(v, e))
    ensures !FailsMidway(e) && v.cached.value.stage == NOTHING ==> Settled(Step(v, e))
  {
    var live := v.cached.value;
    NothingIsNeutral(live.aggregate, BLANK);
    match e
    case Sync(Forward(delta)) => StagePersist(v, delta);
    case Sync(Failed(partial)) => StagingKeeps(live, partial);
    case Sync(Rebuilt(full)) => NothingIsNeutral(full, BLANK);
    case RevealAddresses(count) =>
      if count > 0 {
        StagePersist(v, RevealDelta(live.graph, count));
      }
    case BuildSpend(delta, built) =>
      StagingKeeps(live, delta);
      if built {
        StagePersist(v, delta);
      }
    case BuildDrain(built) =>
      PersistSettles(v.row, live);
      SettledIsCoherent(Persist(v.row, live));
    case _ =>
  }

  lemma StagePersist(v: Vault, d: ChangeSet)
    requires Coherent(v) && v.cached.Some?
    ensures Settled(Persist(v.row, Staging(v.cached.value, d)))
    ensures Coherent(Persist(v.row, Staging(v.cached.value, d)))
  {
    StagingKeeps(v.cached.value, d);
    PersistSettles(v.row, Staging(v.cached.value, d));
    SettledIsCoherent(Persist(v.row, Staging(v.cached.value, d)));
  }

  /** Any run of loads, syncs, reveals, builds, previews, re-sweeps, evictions and rescans in
      which nothing fails midway: the row is the aggregate, and reloading gives the live wallet. */
  lemma {:induction false} EveryRunReloadsAsLive(v: Vault, es: seq<Event>)
    requires Settled(v)
    requires forall e :: e in es ==> FromLibrary(e) && !FailsMidway(e)
    ensures Settled(Run(v, es))
    decreases |es|
  {
    if es != [] {
      var e := es[0];
      assert e in es;
      SettledIsCoherent(v);
      if v.cached.Some? {
        LiveStepKeeps(v, e);
      } else if e.LoadOrInit? {
        LoadSettles(v, e.backend, e.initial);
      }
      EveryRunReloadsAsLive(Step(v, e), es[1..]);
    }
  }

  predicate NothingDiscarded(v: Vault, es: seq<Event>)
    decreases |es|
  {
    es == [] || (!Discards(v, es[0]) && NothingDiscarded(Step(v, es[0]), es[1..]))
  }

  /** With failures too, as long as nothing is discarded: what is live is the row plus the stage. */
  lemma {:induction false} FailuresLoseNothing(v: Vault, es: seq<Event>)
    requires Coherent(v) && NothingDiscarded(v, es)
    requires forall e :: e in es ==> FromLibrary(e)
    ensures Coherent(Run(v, es))
    decreases |es|
  {
    if es != [] {
      assert es[0] in es;
      StepKeepsCoherent(v, es[0]);
      FailuresLoseNothing(Step(v, es[0]), es[1..]);
    }
  }

  /** Whatever a failed operation left staged is written by the next one that persists. */
  lemma NextPersistHeals(v: Vault, e: Event)
    requires Coherent(v)
    requires match e
             case Sync(outcome) => outcome.Forward?
             case RevealAddresses(count) => count > 0
             case BuildSpend(_, built) => built
             case BuildDrain(built) => built
             case _ => false
    ensures Settled(Step(v, e))
  {
    if v.cached.Some? {
      match e
      case Sync(outcome) => StagePersist(v, outcome.delta);
      case RevealAddresses(count) => StagePersist(v, RevealDelta(v.cached.value.graph, count));
      case BuildSpend(delta, _) => StagePersist(v, delta);
      case BuildDrain(_) => PersistSettles(v.row, v.cached.value);
    }
  }

  // ----- what a staged change adds -----

  /** The staged maxima are already held. */
  predicate HeldMax<K>(held: map<K, nat>, staged: map<K, nat>) {
    forall k :: k in staged ==> k in held && staged[k] <= held[k]
  }

  /** Every staged checkpoint is held as staged; a disconnected one was not held at all. */
  predicate HeldBlocks(held: map<nat, Option<BlockHash>>, staged: map<nat, Option<BlockHash>>) {
    forall h :: h in staged ==>
      if staged[h].Some? then h in held && held[h] == staged[h] else h in held ==> held[h].None?
  }

  predicate HeldTxs(held: map<Txid, Tx>, staged: map<Txid, Tx>) {
    forall t :: t in staged ==> t in held && held[t] == staged[t]
  }

  /** The stage says nothing the aggregate does not say: component by component. */
  predicate AddsNothing(aggregate: ChangeSet, stage: ChangeSet) {
    && (stage.descriptor.Some? ==> stage.descriptor == aggregate.descriptor)
    && HeldBlocks(aggregate.blocks, stage.blocks)
    && HeldTxs(aggregate.txs, stage.txs)
    && stage.anchors <= aggregate.anchors
    && HeldMax(aggregate.lastSeen, stage.lastSeen)
    && HeldMax(aggregate.lastEvicted, stage.lastEvicted)
    && HeldMax(aggregate.revealed, stage.revealed)
  }

  lemma MaxUnchangedIff<K>(a: map<K, nat>, b: map<K, nat>)
    ensures MaxOf(map[], MaxOf(a, b)) == MaxOf(map[], a) <==> HeldMax(a, b)
  {
    MaxNeutral(a);
    MaxNeutral(MaxOf(a, b));
    if MaxOf(a, b) == a {
      forall k | k in b ensures k in a && b[k] <= a[k] {
        assert k in MaxOf(a, b);
      }
    }
  }

  lemma BlocksUnchangedIff(a: map<nat, Option<BlockHash>>, b: map<nat, Option<BlockHash>>)
    ensures Connect(map[], a + b) == Connect(map[], a) <==> HeldBlocks(a, b)
  {
    var both, one := Connect(map[], a + b), Connect(map[], a);
    if both == one {
      forall h | h in b
        ensures if b[h].Some? then h in a && a[h] == b[h] else h in a ==> a[h].None?
      {
        assert h in both <==> b[h].Some?;
        assert h in one <==> h in a && a[h].Some?;
        assert b[h].Some? ==> both[h] == b[h].value;
      }
    }
    if HeldBlocks(a, b) {
      assert both.Keys == one.Keys;
    }
  }

  lemma TxsUnchangedIff(a: map<Txid, Tx>, b: map<Txid, Tx>)
    ensures map[] + (a + b) == map[] + a <==> HeldTxs(a, b)
  {
    UnionNeutral(a);
    UnionNeutral(a + b);
    if a + b == a {
      forall t | t in b ensures t in a && a[t] == b[t] {
        assert t in a + b && (a + b)[t] == b[t];
      }
    }
  }

  /** Merging the stage changes what the aggregate loads as if and only if it adds something. */
  lemma ReloadUnchangedIff(aggregate: ChangeSet, stage: ChangeSet)
    ensures Reload(Merge(aggregate, stage)) == Reload(aggregate) <==> AddsNothing(aggregate, stage)
  {
    MaxUnchangedIff(aggregate.lastSeen, stage.lastSeen);
    MaxUnchangedIff(aggregate.lastEvicted, stage.lastEvicted);
    MaxUnchangedIff(aggregate.revealed, stage.revealed);
    BlocksUnchangedIff(aggregate.blocks, stage.blocks);
    TxsUnchangedIff(aggregate.txs, stage.txs);
    assert {} + (aggregate.anchors + stage.anchors) == {} + aggregate.anchors <==> stage.anchors <= aggregate.anchors;
  }

  /** A drain preview keeps live and persisted state together if and only if what is staged adds
      nothing to the aggregate. It is safe whenever nothing is staged, so it must not run between
      a failed build and the next persisting operation. */
  lemma PreviewKeepsCustodyIff(v: Vault)
    requires Coherent(v) && v.cached.Some?
    ensures Coherent(Step(v, PreviewDrain(true))) <==>
      AddsNothing(v.cached.value.aggregate, v.cached.value.stage)
    ensures v.cached.value.stage == NOTHING ==> Step(v, PreviewDrain(true)) == v
  {
    NothingIsNeutral(v.cached.value.aggregate, BLANK);
    ReloadUnchangedIff(v.cached.value.aggregate, v.cached.value.stage);
  }

  /** After a failed spend that revealed a change address the wallet had not revealed, the
      preview is never safe. */
  lemma PreviewAfterFailedSpendLoses(v: Vault, index: nat)
    requires Settled(v) && v.cached.Some?
    requires Internal in v.cached.value.graph.revealed ==> v.cached.value.graph.revealed[Internal] < index
    ensures
      var change := NOTHING.(revealed := map[Internal := index]);
      !Coherent(Step(Step(v, BuildSpend(change, false)), PreviewDrain(true)))
  {
    var change := NOTHING.(revealed := map[Internal := index]);
    var failed := Step(v, BuildSpend(change, false));
    SettledIsCoherent(v);
    NothingIsNeutral(change, v.cached.value.graph);
    StepKeepsCoherent(v, BuildSpend(change, false));
    PreviewKeepsCustodyIff(failed);
    assert Internal in change.revealed && Internal in failed.cached.value.stage.revealed;
    MaxNeutral(v.cached.value.aggregate.revealed);
  }

  // ----- the lost address stays lost -----

  /** The operations that replace or drop the live wallet. */
  predicate Refreshes(e: Event) {
    match e
    case EvictCache => true
    case Rescan(_) => true
    case Sync(outcome) => outcome.Rebuilt?
    case Resweep(listing, built) => built && Stranded(listing).Some?
    case _ => false
  }

  /** The reveals of a changeset stay below `index` on the internal keychain. */
  predicate RevealsBelow(revealed: map<Keychain, nat>, index: nat) {
    Internal in revealed ==> revealed[Internal] < index
  }

  /** The operation keeps the wallet cached and brings no internal index from `index` on. */
  predicate BringsBelow(e: Event, index: nat) {
    !Refreshes(e) &&
    match e
    case Sync(Forward(delta)) => RevealsBelow(delta.revealed, index)
    case Sync(Failed(partial)) => RevealsBelow(partial.revealed, index)
    case BuildSpend(delta, _) => RevealsBelow(delta.revealed, index)
    case _ => true
  }

  /** The live wallet has revealed `index`; nothing that could be persisted has. */
  predicate Forgotten(v: Vault, index: nat) {
    && v.cached.Some? && v.row == Some(v.cached.value.aggregate)
    && Internal in v.cached.value.graph.revealed && v.cached.value.graph.revealed[Internal] >= index
    && RevealsBelow(v.cached.value.stage.revealed, index)
    && RevealsBelow(v.cached.value.aggregate.revealed, index)
  }

  lemma PersistForgets(row: Option<ChangeSet>, live: Live, index: nat)
    requires Forgotten(Vault(Some(live.aggregate), Some(live)), index) && row == Some(live.aggregate)
    ensures Forgotten(Persist(row, live), index)
  {
  }

  lemma StagingForgets(live: Live, d: ChangeSet, index: nat)
    requires Forgotten(Vault(Some(live.aggregate), Some(live)), index) && RevealsBelow(d.revealed, index)
    ensures Forgotten(Vault(Some(live.aggregate), Some(Staging(live, d))), index)
  {
  }

  lemma StepForgets(v: Vault, e: Event, index: nat)
    requires Forgotten(v, index) && BringsBelow(e, index)
    ensures Forgotten(Step(v, e), index)
  {
    var live := v.cached.value;
    match e
    case Sync(Forward(delta)) =>
      StagingForgets(live, delta, index);
      PersistForgets(v.row, Staging(live, delta), index);
    case Sync(Failed(partial)) => StagingForgets(live, partial, index);
    case RevealAddresses(count) =>
      StagingForgets(live, RevealDelta(live.graph, count), index);
      PersistForgets(v.row, Staging(live, RevealDelta(live.graph, count)), index);
    case BuildSpend(delta, built) =>
      StagingForgets(live, delta, index);
      PersistForgets(v.row, Staging(live, delta), index);
    case BuildDrain(_) => PersistForgets(v.row, live, index);
    case _ =>
  }

  lemma {:induction false} RunForgets(v: Vault, es: seq<Event>, index: nat)
    requires Forgotten(v, index) && forall e :: e in es ==> BringsBelow(e, index)
    ensures Forgotten(Run(v, es), index)
    decreases |es|
  {
    if es != [] {
      assert es[0] in es;
      StepForgets(v, es[0], index);
      RunForgets(Step(v, es[0]), es[1..], index);
    }
  }

  /** A failed spend reveals a change address and a preview drops the reveal. Over any run that
      keeps the wallet cached and reveals no such index again, the address stays live, and the
      row never learns of it. */
  lemma LostRevealStaysLost(v: Vault, index: nat, es: seq<Event>)
    requires Settled(v) && v.cached.Some? && RevealsBelow(v.cached.value.graph.revealed, index)
    requires forall e :: e in es ==> BringsBelow(e, index)
    ensures
      var change := NOTHING.(revealed := map[Internal := index]);
      var w := Run(v, [BuildSpend(change, false), PreviewDrain(true)] + es);
      && w.cached.Some? && w.row.Some?
      && Internal in w.cached.value.graph.revealed && w.cached.value.graph.revealed[Internal] >= index
      && RevealsBelow(Reload(w.row.value).revealed, index)
  {
    var change := NOTHING.(revealed := map[Internal := index]);
    var first, second := BuildSpend(change, false), PreviewDrain(true);
    var w := Step(Step(v, first), second);
    var all := [first, second] + es;
    assert all[1..] == [second] + es && all[1..][1..] == es;
    assert Run(v, all) == Run(Step(v, first), all[1..]) == Run(w, es);
    MaxNeutral(v.cached.value.aggregate.revealed);
    assert Forgotten(w, index);
    RunForgets(w, es, index);
    MaxNeutral(Run(w, es).cached.value.aggregate.revealed);
  }

  /** A re-sweep whose drain cannot be built keeps the wallet cached with the sweep evicted.
      That agrees with the row only if there was no sweep, or it was evicted for good before. */
  lemma FailedResweepKeepsCustodyIff(v: Vault, listing: seq<Listed>)
    requires Settled(v) && v.cached.Some?
    ensures Settled(Step(v, Resweep(listing, false))) <==>
      (Stranded(listing).None? ||
       var t := Stranded(listing).value;
       var evicted := v.cached.value.graph.lastEvicted;
       t in evicted && evicted[t] >= U64_MAX)
  {
    if Stranded(listing).Some? {
      var t, live := Stranded(listing).value, v.cached.value;
      var after := Apply(live.graph, Eviction(t));
      assert t in after.lastEvicted && after.lastEvicted[t] >= U64_MAX;
      if t in live.graph.lastEvicted && live.graph.lastEvicted[t] >= U64_MAX {
        NothingIsNeutral(NOTHING, live.graph);
        assert after.lastEvicted == live.graph.lastEvicted;
        assert after == live.graph;
      }
    }
  }

  /** After such a failure the sweep stays evicted from the live wallet until it is refreshed. */
  lemma {:induction false} EvictionLingers(v: Vault, t: Txid, es: seq<Event>)
    requires v.cached.Some?
    requires t in v.cached.value.graph.lastEvicted && v.cached.value.graph.lastEvicted[t] >= U64_MAX
    requires forall e :: e in es ==> !Refreshes(e)
    ensures
      var w := Run(v, es);
      w.cached.Some? && t in w.cached.value.graph.lastEvicted
      && w.cached.value.graph.lastEvicted[t] >= U64_MAX
    decreases |es|
  {
    if es != [] {
      assert es[0] in es;
      EvictionLingers(Step(v, es[0]), t, es[1..]);
    }
  }

  /** A built re-sweep followed by the eviction of the cache leaves no trace: the wallet loaded
      next is the one before the build, so it still holds the swept transaction. The one
      exception is a wallet still at genesis, which the RPC backend seeds again on load. */
  lemma BuiltResweepLeavesNoTraceIff(v: Vault, listing: seq<Listed>, backend: Backend, initial: ChangeSet)
    requires Settled(v) && v.cached.Some? && Stranded(listing).Some?
    ensures Run(v, [Resweep(listing, true), LoadOrInit(backend, initial)]) == v <==>
      (backend.Nodeless? || backend.count == 0 || !AtGenesis(v.cached.value.graph))
  {
    var e, f := Resweep(listing, true), LoadOrInit(backend, initial);
    var live := v.cached.value;
    assert [e, f][1..] == [f] && [f][1..] == [];
    assert Run(v, [e, f]) == Run(Step(v, e), [f]) == Step(Step(v, e), f);
    var seed := Birthday(backend, live.graph, false);
    if backend.Nodeless? || backend.count == 0 || !AtGenesis(live.graph) {
      NothingIsNeutral(NOTHING, live.graph);
      assert Staging(Live(live.graph, NOTHING, live.aggregate), NOTHING) == live;
    } else {
      NothingIsNeutral(seed, live.graph);
      assert backend.count in seed.blocks && seed != NOTHING;
      assert backend.count in Apply(live.graph, seed).chain && backend.count !in live.graph.chain;
    }
  }

  // ----- phantoms -----

  function AnchorsIn(e: Event): set<Anchor> {
    match e
    case LoadOrInit(_, initial) => initial.anchors
    case Sync(Forward(delta)) => delta.anchors
    case Sync(Rebuilt(full)) => full.anchors
    case Sync(Failed(partial)) => partial.anchors
    case BuildSpend(delta, _) => delta.anchors
    case Rescan(full) => full.anchors
    case _ => {}
  }

  function AnchorsOf(es: seq<Event>): set<Anchor> {
    if es == [] then {} else AnchorsIn(es[0]) + AnchorsOf(es[1..])
  }

  predicate LiveWithin(live: Live, bound: set<Anchor>) {
    live.graph.anchors <= bound && live.stage.anchors <= bound && live.aggregate.anchors <= bound
  }

  predicate AnchorsWithin(v: Vault, bound: set<Anchor>) {
    && (v.row.Some? ==> v.row.value.anchors <= bound)
    && (v.cached.Some? ==> LiveWithin(v.cached.value, bound))
  }

  lemma StagingStaysWithin(live: Live, d: ChangeSet, bound: set<Anchor>)
    requires LiveWithin(live, bound)
    ensures LiveWithin(Staging(live, d), bound + d.anchors)
  {
  }

  lemma PersistStaysWithin(row: Option<ChangeSet>, live: Live, bound: set<Anchor>)
    requires LiveWithin(live, bound) && (row.Some? ==> row.value.anchors <= bound)
    ensures AnchorsWithin(Persist(row, live), bound)
  {
  }

  lemma StepStaysWithin(v: Vault, e: Event, bound: set<Anchor>)
    requires AnchorsWithin(v, bound)
    ensures AnchorsWithin(Step(v, e), bound + AnchorsIn(e))
  {
    var wider := bound + AnchorsIn(e);
    if e.LoadOrInit? && v.cached.None? {
      var brandNew := v.row.None?;
      var aggregate := if brandNew then NOTHING else v.row.value;
      var loaded := if brandNew then Live(Apply(BLANK, e.initial), e.initial, aggregate)
                    else Live(Reload(aggregate), NOTHING, aggregate);
      var seed := Birthday(e.backend, loaded.graph, brandNew);
      assert LiveWithin(loaded, wider) && seed.anchors == {} && wider + {} == wider;
      StagingStaysWithin(loaded, seed, wider);
      PersistStaysWithin(v.row, Staging(loaded, seed), wider);
    } else if v.cached.Some? && !e.LoadOrInit? {
      LiveStepStaysWithin(v, e, bound);
    }
  }

  lemma LiveStepStaysWithin(v: Vault, e: Event, bound: set<Anchor>)
    requires AnchorsWithin(v, bound) && v.cached.Some? && !e.LoadOrInit?
    ensures AnchorsWithin(Step(v, e), bound + AnchorsIn(e))
  {
    var live, wider := v.cached.value, bound + AnchorsIn(e);
    assert wider + {} == wider;
    match e
    case Sync(Forward(delta)) =>
      StagingStaysWithin(live, delta, bound);
      PersistStaysWithin(v.row, Staging(live, delta), wider);
    case Sync(Failed(partial)) => StagingStaysWithin(live, partial, bound);
    case BuildSpend(delta, built) =>
      StagingStaysWithin(live, delta, bound);
      PersistStaysWithin(v.row, Staging(live, delta), wider);
    case RevealAddresses(count) =>
      StagingStaysWithin(live, RevealDelta(live.graph, count), bound);
      PersistStaysWithin(v.row, Staging(live, RevealDelta(live.graph, count)), wider);
    case BuildDrain(built) => PersistStaysWithin(v.row, live, wider);
    case _ =>
  }

  lemma {:induction false} AnchorsComeFromEvents(v: Vault, es: seq<Event>, bound: set<Anchor>)
    requires AnchorsWithin(v, bound)
    ensures AnchorsWithin(Run(v, es), bound + AnchorsOf(es))
    decreases |es|
  {
    if es != [] {
      StepStaysWithin(v, es[0], bound);
      AnchorsComeFromEvents(Step(v, es[0]), es[1..], bound + AnchorsIn(es[0]));
      assert bound + AnchorsIn(es[0]) + AnchorsOf(es[1..]) == bound + AnchorsOf(es);
    }
  }

  /** After a rebuild or a rescan no earlier anchor is left, live, aggregated or persisted, unless
      the new answer itself or a later one brought it; and it stays gone over every later run. */
  lemma RebuildDropsPhantoms(v: Vault, e: Event, full: ChangeSet, es: seq<Event>, phantom: Anchor)
    requires e == Rescan(full) || (e == Sync(Rebuilt(full)) && v.cached.Some?)
    requires phantom !in full.anchors && phantom !in AnchorsOf(es)
    ensures
      var w := Run(Step(v, e), es);
      && (w.row.Some? ==> phantom !in w.row.value.anchors && phantom !in Reload(w.row.value).anchors)
      && (w.cached.Some? ==> phantom !in w.cached.value.graph.anchors)
  {
    AnchorsComeFromEvents(Step(v, e), es, full.anchors);
  }

  /** Merging the same answer instead would have kept every phantom anchor of the row. */
  lemma MergingWouldKeepPhantoms(v: Vault, full: ChangeSet, phantom: Anchor)
    requires Settled(v) && v.cached.Some? && phantom in v.row.value.anchors
    ensures
      var merged := Step(v, Sync(Forward(full)));
      merged.row.Some? && phantom in merged.row.value.anchors && phantom in Reload(merged.row.value).anchors
  {
    NothingIsNeutral(full, v.cached.value.graph);
  }
}
