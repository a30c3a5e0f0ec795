/** What evicting a stranded sweep frees, and when the re-sweep built from it displaces the sweep. */
module ResweepTheorems {
  import opened Wrappers
  import opened Primitives
  import opened ChangeSets
  import opened Canonical
  import opened CanonicalWalks
  import opened Custody
  import opened CustodyTheorems

  // ----- in the wallet's terms -----

  /** The walk after an eviction may meet `s` at another point; the others keep their order. */
  predicate Reranked(before: seq<Txid>, after: seq<Txid>, s: Txid) {
    Without(before, s) == Without(after, s) && (s in before <==> s in after)
  }

  /** Mempool sightings are 64-bit times. */
  predicate Stamped(w: WalletGraph) {
    forall t :: t in w.lastSeen ==> w.lastSeen[t] <= U64_MAX
  }

  /** Dropping `s` from the ranking drops it from the claims; claims of the others do not depend
      on whether `s` was evicted. */
  lemma {:induction false} ClaimsWithout(w: WalletGraph, e: WalletGraph, ranking: seq<Txid>, s: Txid)
    requires e.txs == w.txs && e.anchors == w.anchors && e.lastSeen == w.lastSeen
    requires forall t :: t != s ==> (t in e.lastEvicted <==> t in w.lastEvicted)
    requires forall t :: t != s && t in w.lastEvicted ==> e.lastEvicted[t] == w.lastEvicted[t]
    ensures Without(Claims(e, ranking), s) == Claims(w, Without(ranking, s))
  {
    if ranking != [] {
      var init, t := ranking[..|ranking| - 1], ranking[|ranking| - 1];
      ClaimsWithout(w, e, init, s);
      assert Anchored(e, t) == Anchored(w, t);
      assert t != s ==> Supported(e, t) == Supported(w, t);
      var rest, kept := Claims(e, init), Without(init, s);
      assert (rest + [t])[..|rest|] == rest && (kept + [t])[..|kept|] == kept;
    }
  }

  lemma EvictedGraph(w: WalletGraph, s: Txid)
    ensures
      var e := Apply(w, Eviction(s));
      && e.txs == w.txs && e.anchors == w.anchors && e.lastSeen == w.lastSeen
      && (forall t :: t != s ==> (t in e.lastEvicted <==> t in w.lastEvicted))
      && (forall t :: t != s && t in w.lastEvicted ==> e.lastEvicted[t] == w.lastEvicted[t])
      && (Stamped(w) ==> (Supported(e, s) <==> s in w.txs && Anchored(w, s)))
  {
    var e := Apply(w, Eviction(s));
    MaxNeutral(w.lastSeen);
    assert Anchored(e, s) == Anchored(w, s);
    assert s in e.lastEvicted && e.lastEvicted[s] >= U64_MAX;
  }

  lemma {:induction false} AnchoredClaims(w: WalletGraph, e: WalletGraph, ranking: seq<Txid>, s: Txid)
    requires e.txs == w.txs && e.anchors == w.anchors && e.lastSeen == w.lastSeen && Anchored(w, s)
    requires forall t :: t != s ==> (t in e.lastEvicted <==> t in w.lastEvicted)
    requires forall t :: t != s && t in w.lastEvicted ==> e.lastEvicted[t] == w.lastEvicted[t]
    ensures Claims(e, ranking) == Claims(w, ranking)
  {
    if ranking != [] {
      var t := ranking[|ranking| - 1];
      AnchoredClaims(w, e, ranking[..|ranking| - 1], s);
      assert Anchored(e, t) == Anchored(w, t);
    }
  }

  /** The canonical set of the wallet, had it never supported `s`. */
  function Rest(w: WalletGraph, ranking: seq<Txid>, s: Txid): set<Txid> {
    CanonicalSet(w.txs, Without(Claims(w, ranking), s))
  }

  /** Some anchor is left on `s`, and walking `ranking` it fits where it is met. */
  predicate HeldByAnchor(w: WalletGraph, ranking: seq<Txid>, s: Txid)
    requires s in w.txs
  {
    Anchored(w, s) && Fits(w.txs, Claims(w, ranking), s)
  }

  /** The canonical set after the eviction: while an anchor holds `s`, that of the later walk, with
      `s` in it; else that of the walk without `s`. */
  lemma CanonicalAfterEviction(w: WalletGraph, ranking: seq<Txid>, ranking': seq<Txid>, s: Txid)
    requires s in w.txs && Stamped(w) && Reranked(ranking, ranking', s)
    ensures
      var after := CanonicalIn(Apply(w, Eviction(s)), ranking');
      if HeldByAnchor(w, ranking', s) then after == CanonicalIn(w, ranking') && s in after
      else after == Rest(w, ranking, s)
  {
    var e := Apply(w, Eviction(s));
    EvictedGraph(w, s);
    ClaimsWithout(w, e, ranking', s);
    ClaimsWithout(w, w, ranking, s);
    TakenIff(w.txs, Claims(e, ranking'), s);
    if Anchored(w, s) {
      AnchoredClaims(w, e, ranking', s);
    } else {
      WithoutAbsent(Claims(e, ranking'), s);
    }
  }

  /** The inputs of the re-sweep: all owned coins left unspent after the eviction. */
  function ResweepInputs(w: WalletGraph, ranking: seq<Txid>, s: Txid, owned: set<Script>): set<OutPoint> {
    Unspent(w.txs, CanonicalIn(Apply(w, Eviction(s)), ranking), owned)
  }

  /** Whatever the wallet looks like, a re-sweep that spends a coin of the sweep spends none of
      the sweep's outputs. */
  lemma ResweepNeverMixes(w: WalletGraph, ranking: seq<Txid>, s: Txid, owned: set<Script>)
    requires s in w.txs
    ensures
      var coins := ResweepInputs(w, ranking, s, owned);
      coins * w.txs[s].inputs != {} ==> forall o :: o in coins ==> o.txid != s
  {
    var coins, c := ResweepInputs(w, ranking, s, owned), CanonicalIn(Apply(w, Eviction(s)), ranking);
    if o :| o in coins * w.txs[s].inputs {
      assert s in c ==> SpentBy(w.txs, c, o);
    }
  }

  /** The owned coins of `s` that `c` funds and leaves unspent. */
  function FreedCoins(txs: TxBook, c: set<Txid>, s: Txid, owned: set<Script>): set<OutPoint>
    requires s in txs
  {
    set o | o in OwnedInputs(txs, s, owned) && o.txid in c && !SpentBy(txs, c, o)
  }

  /** The exact condition, over the wallet before the build: no anchor holds the sweep in the later
      walk, and the wallet without the sweep has one of the coins it spent, and has it unspent. */
  predicate Displaceable(w: WalletGraph, ranking: seq<Txid>, ranking': seq<Txid>, s: Txid, owned: set<Script>)
    requires s in w.txs
  {
    !HeldByAnchor(w, ranking', s) && FreedCoins(w.txs, Rest(w, ranking, s), s, owned) != {}
  }

  /** In every wallet, the re-sweep spends an input of the sweep if and only if the sweep is
      displaceable. It shares with the sweep exactly the coins freed; unless an anchor holds the
      sweep, its inputs are what the wallet without the sweep leaves unspent. */
  lemma ResweepDisplacesIff(w: WalletGraph, ranking: seq<Txid>, ranking': seq<Txid>, s: Txid, owned: set<Script>)
    requires s in w.txs && Stamped(w) && Reranked(ranking, ranking', s)
    ensures
      var coins, rest := ResweepInputs(w, ranking', s, owned), Rest(w, ranking, s);
      && (coins * w.txs[s].inputs != {} <==> Displaceable(w, ranking, ranking', s, owned))
      && coins * w.txs[s].inputs == (if HeldByAnchor(w, ranking', s) then {} else FreedCoins(w.txs, rest, s, owned))
      && (!HeldByAnchor(w, ranking', s) ==> coins == Unspent(w.txs, rest, owned))
  {
    CanonicalAfterEviction(w, ranking, ranking', s);
    if HeldByAnchor(w, ranking', s) {
      KeptSharesNothing(w.txs, CanonicalIn(w, ranking'), s, owned);
    }
  }

  lemma KeptSharesNothing(txs: TxBook, c: set<Txid>, t: Txid, owned: set<Script>)
    requires t in c && t in txs
    ensures Unspent(txs, c, owned) * txs[t].inputs == {}
  {
    forall o | o in Unspent(txs, c, owned) ensures o !in txs[t].inputs {
      assert !SpentBy(txs, c, o);
    }
  }

  /** A rival that is canonical without the sweep keeps all its coins from the re-sweep. */
  lemma RivalKeepsItsCoins(w: WalletGraph, ranking: seq<Txid>, ranking': seq<Txid>, s: Txid, r: Txid, owned: set<Script>)
    requires s in w.txs && Stamped(w) && Reranked(ranking, ranking', s) && !HeldByAnchor(w, ranking', s)
    requires r in Rest(w, ranking, s)
    ensures ResweepInputs(w, ranking', s, owned) * w.txs[r].inputs == {}
    ensures OwnedInputs(w.txs, s, owned) <= w.txs[r].inputs ==> !Displaceable(w, ranking, ranking', s, owned)
  {
    var coins := ResweepInputs(w, ranking', s, owned);
    ResweepDisplacesIff(w, ranking, ranking', s, owned);
    KeptSharesNothing(w.txs, Rest(w, ranking, s), r, owned);
    if o :| o in FreedCoins(w.txs, Rest(w, ranking, s), s, owned) {
      assert o in coins && o in OwnedInputs(w.txs, s, owned);
    }
  }

  /** If only the sweep itself goes, the inputs of the re-sweep are the coins that were unspent,
      without the sweep's outputs, and every owned coin the sweep had spent. */
  lemma ResweepCoins(w: WalletGraph, ranking: seq<Txid>, ranking': seq<Txid>, s: Txid, owned: set<Script>)
    requires s in CanonicalIn(w, ranking) && Stamped(w) && Reranked(ranking, ranking', s)
    requires NotOwnAncestor(w.txs, s) && !HeldByAnchor(w, ranking', s)
    requires Rest(w, ranking, s) == CanonicalIn(w, ranking) - {s}
    ensures ResweepInputs(w, ranking', s, owned) ==
      (set o | o in Unspent(w.txs, CanonicalIn(w, ranking), owned) && o.txid != s) + OwnedInputs(w.txs, s, owned)
  {
    ResweepDisplacesIff(w, ranking, ranking', s, owned);
    AloneHasNoHeirs(w.txs, CanonicalIn(w, ranking), s);
    CoinsFreedByEviction(w.txs, CanonicalIn(w, ranking), s, owned);
  }

  lemma AloneHasNoHeirs(txs: TxBook, c: set<Txid>, s: Txid)
    requires s in c && c <= txs.Keys && NotOwnAncestor(txs, s) && Closed(txs, c - {s})
    ensures NoHeirs(txs, c, s)
  {
    assert s in Ancestry(txs, s);
    assert forall t :: t in c - {s} && SpendsFrom(txs, t, s) ==> s in Parents(txs, c - {s});
  }

  // ----- without rivals -----

  /** A canonical, unconfirmed sweep that nothing supported competes with. */
  predicate StrandedSweep(w: WalletGraph, ranking: seq<Txid>, s: Txid) {
    && s in CanonicalIn(w, ranking)
    && !Confirmed(w, CanonicalIn(w, ranking), s)
    && Stamped(w)
    && NoRivals(w.txs, Claims(w, ranking), s)
    && NotOwnAncestor(w.txs, s)
  }

  /** Some owned coin of the sweep comes from a transaction that does not need the sweep. */
  predicate FundedApart(w: WalletGraph, ranking: seq<Txid>, s: Txid, owned: set<Script>)
    requires s in w.txs
  {
    exists o :: o in OwnedInputs(w.txs, s, owned)
                && Stands(w.txs, Claims(w, ranking), CanonicalIn(w, ranking), s, o.txid)
  }

  /** No anchor is left on the sweep, not even one of a disconnected block; no canonical
      transaction spends from it; and some coin it spent is funded without it. */
  predicate Unheld(w: WalletGraph, ranking: seq<Txid>, s: Txid, owned: set<Script>)
    requires s in w.txs
  {
    && !Anchored(w, s)
    && NoHeirs(w.txs, CanonicalIn(w, ranking), s)
    && FundedApart(w, ranking, s, owned)
  }

  lemma UnanchoredClaim(w: WalletGraph, ranking: seq<Txid>, s: Txid)
    requires s in CanonicalIn(w, ranking) && NoHeirs(w.txs, CanonicalIn(w, ranking), s)
    ensures s in Claims(w, ranking)
  {
    var c := CanonicalIn(w, ranking);
    CanonicalIsVouched(w.txs, Claims(w, ranking));
    assert Backed(w.txs, Claims(w, ranking), s, c);
    var t :| t in Claims(w, ranking) && Vouches(w.txs, t, s, c);
    if t != s {
      DescendantHasChild(w.txs, t, s, c);
    }
  }

  lemma UnrivalledAfterEviction(w: WalletGraph, ranking: seq<Txid>, ranking': seq<Txid>, s: Txid)
    requires StrandedSweep(w, ranking, s) && Reranked(ranking, ranking', s)
    ensures CanonicalIn(Apply(w, Eviction(s)), ranking') ==
      if Anchored(w, s) && s in ranking then CanonicalIn(w, ranking) else Rest(w, ranking, s)
  {
    var claims, claims' := Claims(w, ranking), Claims(w, ranking');
    CanonicalAfterEviction(w, ranking, ranking', s);
    ClaimsWithout(w, w, ranking, s);
    ClaimsWithout(w, w, ranking', s);
    GatherIsLeast(w.txs, {s}, CanonicalIn(w, ranking));
    if Anchored(w, s) && s in ranking {
      assert NoRivals(w.txs, claims', s) by {
        assert forall t :: t in claims' && t != s ==> t in Without(claims', s);
      }
      AcceptedAnywhere(w.txs, claims, s);
      AcceptedAnywhere(w.txs, claims', s);
      TakenIff(w.txs, claims', s);
    }
  }

  /** Without rivals the exact condition can be read off the present canonical set; and if an
      anchor or a canonical child holds the sweep, the re-sweep gets the coins that were unspent
      anyway. */
  lemma UnrivalledDisplacesIff(w: WalletGraph, ranking: seq<Txid>, ranking': seq<Txid>, s: Txid, owned: set<Script>)
    requires StrandedSweep(w, ranking, s) && Reranked(ranking, ranking', s)
    ensures Displaceable(w, ranking, ranking', s, owned) <==> Unheld(w, ranking, s, owned)
    ensures
      var coins := ResweepInputs(w, ranking', s, owned);
      && (coins * w.txs[s].inputs != {} <==> Unheld(w, ranking, s, owned))
      && (Anchored(w, s) || !NoHeirs(w.txs, CanonicalIn(w, ranking), s) ==>
            coins == Unspent(w.txs, CanonicalIn(w, ranking), owned))
  {
    var claims, before := Claims(w, ranking), CanonicalIn(w, ranking);
    ResweepDisplacesIff(w, ranking, ranking', s, owned);
    UnrivalledAfterEviction(w, ranking, ranking', s);
    LeavesIffNoHeirs(w.txs, claims, s);
    if NoHeirs(w.txs, before, s) {
      UnanchoredClaim(w, ranking, s);
    }
    if Anchored(w, s) || !NoHeirs(w.txs, before, s) {
      KeptSharesNothing(w.txs, before, s, owned);
    } else {
      FreedIffFundedApart(w.txs, claims, s, owned);
      assert !HeldByAnchor(w, ranking', s);
    }
  }

  lemma FreedIffFundedApart(txs: TxBook, claims: seq<Txid>, s: Txid, owned: set<Script>)
    requires AllKnown(txs, claims) && NoRivals(txs, claims, s) && NotOwnAncestor(txs, s)
    requires s in CanonicalSet(txs, claims) && NoHeirs(txs, CanonicalSet(txs, claims), s)
    ensures FreedCoins(txs, CanonicalSet(txs, Without(claims, s)), s, owned) != {} <==>
      exists o :: o in OwnedInputs(txs, s, owned) && Stands(txs, claims, CanonicalSet(txs, claims), s, o.txid)
  {
    var before, after := CanonicalSet(txs, claims), CanonicalSet(txs, Without(claims, s));
    LeavesIffNoHeirs(txs, claims, s);
    if o :| o in FreedCoins(txs, after, s, owned) {
      StaysIffStands(txs, claims, s, o.txid);
      assert o in OwnedInputs(txs, s, owned);
    }
    if o :| o in OwnedInputs(txs, s, owned) && Stands(txs, claims, before, s, o.txid) {
      StaysIffStands(txs, claims, s, o.txid);
      forall t | t in after && t in txs ensures o !in txs[t].inputs {
        SharedCoinClashes(txs, t, s, o);
      }
      assert o in FreedCoins(txs, after, s, owned);
    }
  }

  /** If moreover every ancestor of the sweep is supported by itself, only the sweep goes. */
  lemma FootedResweepCoins(w: WalletGraph, ranking: seq<Txid>, ranking': seq<Txid>, s: Txid, owned: set<Script>)
    requires StrandedSweep(w, ranking, s) && Reranked(ranking, ranking', s)
    requires Footed(w.txs, Claims(w, ranking), s) && Unheld(w, ranking, s, owned)
    ensures ResweepInputs(w, ranking', s, owned) ==
      (set o | o in Unspent(w.txs, CanonicalIn(w, ranking), owned) && o.txid != s) + OwnedInputs(w.txs, s, owned)
  {
    FootedLeavesAlone(w.txs, Claims(w, ranking), s);
    ResweepCoins(w, ranking, ranking', s, owned);
  }

  // ----- from the listing to the reload -----

  /** Two transactions sharing an input are never both canonical, in any graph and any order. */
  lemma NeverBothCanonical(txs: TxBook, claims: seq<Txid>, s: Txid, r: Txid)
    requires AllKnown(txs, claims) && s in txs && r in txs && s != r
    requires txs[s].inputs * txs[r].inputs != {}
    ensures !(s in CanonicalSet(txs, claims) && r in CanonicalSet(txs, claims))
  {
    assert Clash(txs, s, r);
  }

  /** The canonical listing the wallet shows for a graph. */
  predicate Shows(listing: seq<Listed>, w: WalletGraph, ranking: seq<Txid>, owned: set<Script>) {
    forall x :: x in listing ==>
      && x.txid in CanonicalIn(w, ranking)
      && (x.confirmed <==> Confirmed(w, CanonicalIn(w, ranking), x.txid))
      && (x.sent > 0 ==> OwnedInputs(w.txs, x.txid, owned) != {})
  }

  lemma StrandedIsShown(listing: seq<Listed>, w: WalletGraph, ranking: seq<Txid>, owned: set<Script>)
    requires Shows(listing, w, ranking, owned) && Stranded(listing).Some?
    ensures var s := Stranded(listing).value;
      && s in CanonicalIn(w, ranking) && !Confirmed(w, CanonicalIn(w, ranking), s)
      && OwnedInputs(w.txs, s, owned) != {}
  {
    var k: nat :| FirstAt(listing, k) && listing[k].txid == Stranded(listing).value;
    assert listing[k] in listing;
  }

  /** Canonicity reads transactions, anchors, sightings and evictions, and no checkpoint. */
  lemma {:induction false} CheckpointsDoNotMatter(w: WalletGraph, e: WalletGraph, ranking: seq<Txid>)
    requires e == w.(chain := e.chain)
    ensures Claims(e, ranking) == Claims(w, ranking) && CanonicalIn(e, ranking) == CanonicalIn(w, ranking)
  {
    if ranking != [] {
      CheckpointsDoNotMatter(w, e, ranking[..|ranking| - 1]);
      assert Anchored(e, ranking[|ranking| - 1]) == Anchored(w, ranking[|ranking| - 1]);
    }
  }

  /** The wallet loaded after a built re-sweep differs from the one before in checkpoints only. */
  lemma ReloadedGraph(v: Vault, listing: seq<Listed>, backend: Backend, initial: ChangeSet)
    requires Settled(v) && v.cached.Some? && Stranded(listing).Some?
    ensures
      var after := Run(v, [Custody.Event.Resweep(listing, true), LoadOrInit(backend, initial)]);
      after.cached.Some?
      && after.cached.value.graph == v.cached.value.graph.(chain := after.cached.value.graph.chain)
  {
    var e, f := Custody.Event.Resweep(listing, true), LoadOrInit(backend, initial);
    assert [e, f][1..] == [f] && [f][1..] == [];
    assert Run(v, [e, f]) == Run(Step(v, e), [f]) == Step(Step(v, e), f);
    SeedTouchesCheckpoints(v.cached.value.graph, backend);
  }

  lemma SeedTouchesCheckpoints(w: WalletGraph, backend: Backend)
    ensures var seed := Birthday(backend, w, false); Apply(w, seed) == w.(chain := Apply(w, seed).chain)
  {
    MaxNeutral(w.lastSeen);
    MaxNeutral(w.lastEvicted);
    MaxNeutral(w.revealed);
    UnionNeutral(w.txs);
    assert w.anchors + {} == w.anchors;
  }

  lemma NeverTogether(w: WalletGraph, ranking: seq<Txid>, ranking': seq<Txid>, s: Txid, owned: set<Script>,
                      later: TxBook, claims: seq<Txid>, r: Txid)
    requires s in w.txs && Stamped(w) && Reranked(ranking, ranking', s)
    requires AllKnown(later, claims) && r in later && s in later && r != s
    requires later[s] == w.txs[s] && later[r].inputs == ResweepInputs(w, ranking', s, owned)
    ensures later[r].inputs * later[s].inputs != {} <==> Displaceable(w, ranking, ranking', s, owned)
    ensures Displaceable(w, ranking, ranking', s, owned) ==>
      !(s in CanonicalSet(later, claims) && r in CanonicalSet(later, claims))
  {
    ResweepDisplacesIff(w, ranking, ranking', s, owned);
    if Displaceable(w, ranking, ranking', s, owned) {
      assert later[s].inputs * later[r].inputs == later[r].inputs * later[s].inputs;
      NeverBothCanonical(later, claims, s, r);
    }
  }

  /** A built re-sweep from start to end, in every wallet and for every backend. The transaction
      `r` it signs off shares an input with the sweep if and only if the sweep was displaceable, and
      then the two are never canonical together, in whatever graph and order they are later met. The
      sweep was canonical, in no block of the chain and spent owned coins; and the wallet loaded
      after the cache was dropped counts as canonical what was canonical before, the sweep included. */
  lemma ResweepEndToEnd(v: Vault, listing: seq<Listed>, ranking: seq<Txid>, ranking': seq<Txid>, owned: set<Script>,
                        backend: Backend, initial: ChangeSet, later: TxBook, claims: seq<Txid>, r: Txid)
    requires Settled(v) && v.cached.Some? && Stamped(v.cached.value.graph)
    requires Stranded(listing).Some? && Shows(listing, v.cached.value.graph, ranking, owned)
    requires Reranked(ranking, ranking', Stranded(listing).value)
    requires AllKnown(later, claims) && r in later && Stranded(listing).value in later && r != Stranded(listing).value
    requires
      var w, s := v.cached.value.graph, Stranded(listing).value;
      (s in w.txs ==> later[s] == w.txs[s]) && later[r].inputs == ResweepInputs(w, ranking', s, owned)
    ensures
      var w, s := v.cached.value.graph, Stranded(listing).value;
      var after := Run(v, [Custody.Event.Resweep(listing, true), LoadOrInit(backend, initial)]);
      && s in CanonicalIn(w, ranking) && !InChain(w, s) && OwnedInputs(w.txs, s, owned) != {}
      && (later[r].inputs * later[s].inputs != {} <==> Displaceable(w, ranking, ranking', s, owned))
      && (Displaceable(w, ranking, ranking', s, owned) ==>
            !(s in CanonicalSet(later, claims) && r in CanonicalSet(later, claims)))
      && after.cached.Some? && CanonicalIn(after.cached.value.graph, ranking) == CanonicalIn(w, ranking)
  {
    var w, s := v.cached.value.graph, Stranded(listing).value;
    StrandedIsShown(listing, w, ranking, owned);
    assert InChain(w, s) ==> Confirmed(w, CanonicalIn(w, ranking), s);
    NeverTogether(w, ranking, ranking', s, owned, later, claims, r);
    ReloadedGraph(v, listing, backend, initial);
    var after := Run(v, [Custody.Event.Resweep(listing, true), LoadOrInit(backend, initial)]);
    CheckpointsDoNotMatter(w, after.cached.value.graph, ranking);
  }

  // ----- the re-sweep of a re-sweep -----

  /** `later` knows what `w` knew, and the transaction `r`, on which there is no anchor. */
  predicate Recalls(w: WalletGraph, later: WalletGraph, r: Txid) {
    && Extends(w.txs, later.txs, r) && !Anchored(later, r)
    && forall t :: t in w.txs ==> (Supported(later, t) <==> Supported(w, t))
  }

  lemma {:induction false} RecalledClaims(w: WalletGraph, later: WalletGraph, ranking: seq<Txid>, r: Txid)
    requires Recalls(w, later, r)
    ensures Without(Claims(later, ranking), r) == Claims(w, Without(ranking, r))
  {
    if ranking != [] {
      var init, t := ranking[..|ranking| - 1], ranking[|ranking| - 1];
      RecalledClaims(w, later, init, r);
      assert t != r ==> (Supported(later, t) <==> Supported(w, t));
      var rest, kept := Claims(later, init), Without(init, r);
      assert (rest + [t])[..|rest|] == rest && (kept + [t])[..|kept|] == kept;
    }
  }

  /** Evicting the re-sweep `r` takes the wallet back to before `r`: what was canonical then is
      canonical again, the sweep `s` it was to displace included. A re-sweep of the re-sweep spends
      what was unspent before `r` was built, so none of the coins of `s`. */
  lemma ResweepOfResweep(w: WalletGraph, later: WalletGraph, ranking: seq<Txid>, ranking': seq<Txid>,
                         s: Txid, r: Txid, owned: set<Script>)
    requires Recalls(w, later, r) && Stamped(later) && Reranked(ranking, ranking', r)
    requires s in CanonicalIn(w, Without(ranking, r))
    ensures
      var before, coins := CanonicalIn(w, Without(ranking, r)), ResweepInputs(later, ranking', r, owned);
      && CanonicalIn(Apply(later, Eviction(r)), ranking') == before
      && coins == Unspent(w.txs, before, owned) && coins * w.txs[s].inputs == {}
      && (later.txs[r].inputs <= w.txs[s].inputs ==> coins * later.txs[r].inputs == {})
  {
    var before := CanonicalIn(w, Without(ranking, r));
    CanonicalAfterEviction(later, ranking, ranking', r);
    RecalledClaims(w, later, ranking, r);
    WalkInLonger(w.txs, later.txs, r, Claims(w, Without(ranking, r)));
    CoinsInLonger(w.txs, later.txs, r, before, owned);
    KeptSharesNothing(w.txs, before, s, owned);
  }

  /** What a sync brings when it first sees `r` in the mempool. */
  function Sighting(r: Txid, tx: Tx, at: nat, blocks: map<nat, Option<BlockHash>>): ChangeSet {
    NOTHING.(blocks := blocks, txs := map[r := tx], lastSeen := map[r := at])
  }

  lemma SightingIsRecalled(w: WalletGraph, e: WalletGraph, r: Txid, tx: Tx, at: nat, blocks: map<nat, Option<BlockHash>>)
    requires e == w.(chain := e.chain) && Unclaimed(w.txs, r) && !Anchored(w, r)
    ensures Recalls(w, Apply(e, Sighting(r, tx, at, blocks)), r)
    ensures Stamped(w) && at <= U64_MAX ==> Stamped(Apply(e, Sighting(r, tx, at, blocks)))
  {
    var later := Apply(e, Sighting(r, tx, at, blocks));
    MaxNeutral(w.lastEvicted);
    assert later.txs.Keys == w.txs.Keys + {r} && later.anchors == w.anchors;
    forall t | t in w.txs ensures Supported(later, t) <==> Supported(w, t) {
      assert Anchored(later, t) == Anchored(w, t);
    }
    assert Anchored(later, r) == Anchored(w, r);
  }

  /** Such a wallet is reached: the re-sweep is built and its wallet dropped from the cache, the
      wallet is loaded again, and a sync sees the re-sweep `r` in the mempool. */
  lemma RunIsRecalled(v: Vault, listing: seq<Listed>, backend: Backend, initial: ChangeSet,
                      r: Txid, tx: Tx, at: nat, blocks: map<nat, Option<BlockHash>>)
    requires Settled(v) && v.cached.Some? && Stranded(listing).Some?
    requires Unclaimed(v.cached.value.graph.txs, r) && !Anchored(v.cached.value.graph, r)
    ensures
      var after := Run(v, [Custody.Event.Resweep(listing, true), LoadOrInit(backend, initial),
                           Custody.Event.Sync(Forward(Sighting(r, tx, at, blocks)))]);
      after.cached.Some? && Recalls(v.cached.value.graph, after.cached.value.graph, r)
      && after.cached.value.graph.txs[r] == tx
  {
    var e, f := Custody.Event.Resweep(listing, true), LoadOrInit(backend, initial);
    var g := Custody.Event.Sync(Forward(Sighting(r, tx, at, blocks)));
    ReloadedGraph(v, listing, backend, initial);
    SightingIsRecalled(v.cached.value.graph, Run(v, [e, f]).cached.value.graph, r, tx, at, blocks);
    RunSnoc(v, [e, f], g);
    assert [e, f] + [g] == [e, f, g];
  }

  lemma {:induction false} RunSnoc(v: Vault, es: seq<Custody.Event>, e: Custody.Event)
    ensures Run(v, es + [e]) == Custody.Step(Run(v, es), e)
    decreases |es|
  {
    if es == [] {
      assert [] + [e] == [e] && [e][1..] == [];
    } else {
      RunSnoc(Custody.Step(v, es[0]), es[1..], e);
      assert (es + [e])[1..] == es[1..] + [e];
    }
  }
}
