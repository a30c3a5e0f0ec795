/** Wallets in which the re-sweep does not displace the sweep it was built against. */
module ResweepWitnesses {
  import opened Wrappers
  import opened Primitives
  import opened ChangeSets
  import opened Canonical
  import opened CanonicalWalks
  import opened Custody
  import opened ResweepTheorems

  // Transaction 1 pays coin 0 to the owned script 7; the sweep 2 spends it.
  const OWNED: set<Script> := {7}
  const FUNDING := OutPoint(1, 0)
  const PAYMENT := Tx({}, [TxOut(5, 7)])
  const SWEEP := Tx({FUNDING}, [TxOut(4, 8)])

  lemma RootAncestry(txs: TxBook, t: Txid)
    requires t in txs && txs[t].inputs == {}
    ensures Ancestry(txs, t) == {t}
  {
    assert Closed(txs, {t});
    GatherIsLeast(txs, {t}, {t});
  }

  /** A transaction whose inputs all come from `p` has the ancestors of `p`. */
  lemma ChildAncestry(txs: TxBook, t: Txid, p: Txid)
    requires t in txs && p in txs && txs[t].inputs != {} && forall o :: o in txs[t].inputs ==> o.txid == p
    ensures Ancestry(txs, t) == {t} + Ancestry(txs, p)
  {
    var all := {t} + Ancestry(txs, p);
    assert Closed(txs, all);
    GatherIsLeast(txs, {t}, all);
    var o :| o in txs[t].inputs;
    assert SpendsFrom(txs, t, p) && p in Parents(txs, Ancestry(txs, t));
    GatherIsLeast(txs, {p}, Ancestry(txs, t));
  }

  lemma {:induction false} ClaimsAll(w: WalletGraph, ranking: seq<Txid>)
    requires forall t :: t in ranking ==> Supported(w, t)
    ensures Claims(w, ranking) == ranking
  {
    if ranking != [] {
      var init := ranking[..|ranking| - 1];
      assert forall t :: t in init ==> t in ranking;
      ClaimsAll(w, init);
      assert ranking[|ranking| - 1] in ranking && ranking == init + [ranking[|ranking| - 1]];
    }
  }

  lemma WalkSnoc(txs: TxBook, claims: seq<Txid>, t: Txid)
    requires AllKnown(txs, claims) && t in txs
    ensures AllKnown(txs, claims + [t])
    ensures CanonicalSet(txs, claims + [t]) == Accept(txs, CanonicalSet(txs, claims), t)
  {
    assert (claims + [t])[..|claims|] == claims;
  }

  /** In a book of the payment, the sweep and one more transaction, the walk up to the sweep. */
  lemma WalkToSweep(txs: TxBook)
    requires 1 in txs && 2 in txs && txs[1] == PAYMENT && txs[2] == SWEEP
    ensures Ancestry(txs, 1) == {1} && Ancestry(txs, 2) == {2, 1}
    ensures CanonicalSet(txs, [1]) == {1} && CanonicalSet(txs, [1, 2]) == {1, 2}
    ensures OwnedInputs(txs, 2, OWNED) == {FUNDING} && NotOwnAncestor(txs, 2)
    ensures Peaceful(txs, 1, 2)
  {
    RootAncestry(txs, 1);
    ChildAncestry(txs, 2, 1);
    WalkSnoc(txs, [], 1);
    assert [] + [1] == [1] && {} + {1} == {1};
    WalkSnoc(txs, [1], 2);
    assert [1] + [2] == [1, 2] && {1} + {2, 1} == {1, 2};
  }

  // ----- a stale anchor -----

  /** The sweep's block 22 was disconnected: block 2 is 99 now. Its anchor is still there. */
  const STALE := WalletGraph(None, map[0 := 0, 1 := 11, 2 := 99], map[1 := PAYMENT, 2 := SWEEP],
                             {Anchor(1, 1, 11), Anchor(2, 2, 22)}, map[2 := 5], map[], map[])

  lemma StaleWalk()
    ensures Claims(STALE, [1, 2]) == [1, 2] && CanonicalIn(STALE, [1, 2]) == {1, 2}
    ensures Anchored(STALE, 2) && !InChain(STALE, 2) && InChain(STALE, 1)
  {
    assert Anchor(1, 1, 11) in STALE.anchors && Anchored(STALE, 1);
    assert Anchor(2, 2, 22) in STALE.anchors && Anchored(STALE, 2);
    ClaimsAll(STALE, [1, 2]);
    WalkToSweep(STALE.txs);
  }

  lemma StaleListing()
    ensures var listing := [Listed(1, true, 0), Listed(2, false, 5)];
      Stranded(listing) == Some(2) && Shows(listing, STALE, [1, 2], OWNED)
  {
    assert [Listed(1, true, 0), Listed(2, false, 5)][1..] == [Listed(2, false, 5)];
    StaleWalk();
    WalkToSweep(STALE.txs);
    assert Confirmed(STALE, {1, 2}, 1);
  }

  /** The sweep is unconfirmed and the builder picks it; nothing competes with it, nothing spends
      from it and its ancestors are supported. The stale anchor keeps it canonical all the same,
      and the re-sweep finds no coin. */
  lemma StaleAnchorHoldsTheSweep()
    ensures var listing := [Listed(1, true, 0), Listed(2, false, 5)];
      Stranded(listing) == Some(2) && Shows(listing, STALE, [1, 2], OWNED)
    ensures StrandedSweep(STALE, [1, 2], 2) && Footed(STALE.txs, Claims(STALE, [1, 2]), 2)
    ensures NoHeirs(STALE.txs, CanonicalIn(STALE, [1, 2]), 2) && Anchored(STALE, 2)
    ensures OwnedInputs(STALE.txs, 2, OWNED) == {FUNDING} && ResweepInputs(STALE, [1, 2], 2, OWNED) == {}
  {
    StaleListing();
    StaleWalk();
    WalkToSweep(STALE.txs);
    SpentFunding(STALE.txs, {1, 2});
    StaleResweep();
  }

  lemma StaleResweep()
    requires StrandedSweep(STALE, [1, 2], 2) && Anchored(STALE, 2)
    ensures ResweepInputs(STALE, [1, 2], 2, OWNED) == Unspent(STALE.txs, CanonicalIn(STALE, [1, 2]), OWNED)
  {
    UnrivalledDisplacesIff(STALE, [1, 2], [1, 2], 2, OWNED);
  }

  /** Once some member spends the one owned coin, there is nothing to drain. */
  lemma SpentFunding(txs: TxBook, c: set<Txid>)
    requires forall o :: Owned(txs, OWNED, o) ==> o == FUNDING
    requires SpentBy(txs, c, FUNDING)
    ensures Unspent(txs, c, OWNED) == {}
  {
  }

  // ----- a canonical child -----

  /** Transaction 3 spends the sweep's output and is in the mempool too. */
  const HEIR := WalletGraph(None, map[0 := 0, 1 := 11],
                            map[1 := PAYMENT, 2 := SWEEP, 3 := Tx({OutPoint(2, 0)}, [])],
                            {Anchor(1, 1, 11)}, map[2 := 5, 3 := 6], map[], map[])

  predicate ChildBook(txs: TxBook) {
    txs == map[1 := PAYMENT, 2 := SWEEP, 3 := Tx({OutPoint(2, 0)}, [])]
  }

  lemma ChildWalk(txs: TxBook)
    requires ChildBook(txs)
    ensures CanonicalSet(txs, [1, 2, 3]) == {1, 2, 3} && Ancestry(txs, 3) == {3, 2, 1}
  {
    WalkToSweep(txs);
    ChildAncestry(txs, 3, 2);
    WalkSnoc(txs, [1, 2], 3);
    assert [1, 2] + [3] == [1, 2, 3] && {1, 2} + {3, 2, 1} == {1, 2, 3};
  }

  lemma ChildIsPeaceful(txs: TxBook)
    requires ChildBook(txs)
    ensures Peaceful(txs, 3, 2)
  {
    WalkToSweep(txs);
    ChildWalk(txs);
  }

  lemma HeirWalk()
    ensures Claims(HEIR, [1, 2, 3]) == [1, 2, 3] && CanonicalIn(HEIR, [1, 2, 3]) == {1, 2, 3}
    ensures Ancestry(HEIR.txs, 3) == {3, 2, 1} && Peaceful(HEIR.txs, 3, 2)
  {
    assert Anchor(1, 1, 11) in HEIR.anchors && Anchored(HEIR, 1);
    ClaimsAll(HEIR, [1, 2, 3]);
    ChildWalk(HEIR.txs);
    ChildIsPeaceful(HEIR.txs);
  }

  lemma HeirUnrivalled()
    ensures NoRivals(HEIR.txs, [1, 2, 3], 2) && NotOwnAncestor(HEIR.txs, 2) && Footed(HEIR.txs, [1, 2, 3], 2)
  {
    WalkToSweep(HEIR.txs);
    ChildIsPeaceful(HEIR.txs);
  }

  lemma HeirStranded()
    ensures StrandedSweep(HEIR, [1, 2, 3], 2) && Footed(HEIR.txs, Claims(HEIR, [1, 2, 3]), 2)
  {
    HeirUnrivalled();
    HeirWalk();
    HeirUnconfirmed();
  }

  lemma HeirUnconfirmed()
    ensures !Confirmed(HEIR, {1, 2, 3}, 2)
  {
    WalkToSweep(HEIR.txs);
    assert forall x :: x in {1, 2, 3} && InChain(HEIR, x) ==> x == 1;
  }

  lemma HeirResweep()
    requires StrandedSweep(HEIR, [1, 2, 3], 2) && !NoHeirs(HEIR.txs, CanonicalIn(HEIR, [1, 2, 3]), 2)
    ensures ResweepInputs(HEIR, [1, 2, 3], 2, OWNED) == Unspent(HEIR.txs, CanonicalIn(HEIR, [1, 2, 3]), OWNED)
  {
    UnrivalledDisplacesIff(HEIR, [1, 2, 3], [1, 2, 3], 2, OWNED);
  }

  /** Here the child brings the evicted sweep back, and the re-sweep finds no coin. */
  lemma HeirHoldsTheSweep()
    ensures StrandedSweep(HEIR, [1, 2, 3], 2) && Footed(HEIR.txs, Claims(HEIR, [1, 2, 3]), 2)
    ensures !Anchored(HEIR, 2) && !NoHeirs(HEIR.txs, CanonicalIn(HEIR, [1, 2, 3]), 2)
    ensures OwnedInputs(HEIR.txs, 2, OWNED) == {FUNDING} && ResweepInputs(HEIR, [1, 2, 3], 2, OWNED) == {}
  {
    HeirStranded();
    HeirWalk();
    HeirSpends();
    HeirResweep();
  }

  lemma HeirSpends()
    ensures !NoHeirs(HEIR.txs, {1, 2, 3}, 2) && Unspent(HEIR.txs, {1, 2, 3}, OWNED) == {}
    ensures OwnedInputs(HEIR.txs, 2, OWNED) == {FUNDING}
  {
    assert OutPoint(2, 0) in HEIR.txs[3].inputs && SpendsFrom(HEIR.txs, 3, 2);
    assert FUNDING in HEIR.txs[2].inputs && SpentBy(HEIR.txs, {1, 2, 3}, FUNDING);
    SpentFunding(HEIR.txs, {1, 2, 3});
  }

  // ----- a rival -----

  /** Transaction 3 spends the same coin as the sweep and was seen earlier. */
  const RIVAL := WalletGraph(None, map[0 := 0, 1 := 11],
                             map[1 := PAYMENT, 2 := SWEEP, 3 := Tx({FUNDING}, [])],
                             {Anchor(1, 1, 11)}, map[2 := 6, 3 := 5], map[], map[])

  predicate RivalBook(txs: TxBook) {
    txs == map[1 := PAYMENT, 2 := SWEEP, 3 := Tx({FUNDING}, [])]
  }

  lemma RivalsClash(txs: TxBook)
    requires RivalBook(txs)
    ensures Clash(txs, 2, 3) && Clash(txs, 3, 2)
    ensures Ancestry(txs, 3) == {3, 1} && !Peaceful(txs, 3, 2)
  {
    WalkToSweep(txs);
    ChildAncestry(txs, 3, 1);
    assert FUNDING in txs[2].inputs * txs[3].inputs && FUNDING in txs[3].inputs * txs[2].inputs;
    assert Clash(txs, 3, 2);
  }

  lemma SweepWins(txs: TxBook)
    requires RivalBook(txs)
    ensures CanonicalSet(txs, [1, 2, 3]) == {1, 2}
  {
    WalkToSweep(txs);
    RivalsClash(txs);
    WalkSnoc(txs, [1, 2], 3);
    assert [1, 2] + [3] == [1, 2, 3];
    assert 2 in {1, 2} + {3, 1} && 3 in {1, 2} + {3, 1};
  }

  lemma RivalWins(txs: TxBook)
    requires RivalBook(txs)
    ensures CanonicalSet(txs, [1, 3]) == {1, 3}
  {
    WalkToSweep(txs);
    RivalsClash(txs);
    WalkSnoc(txs, [1], 3);
    assert [1] + [3] == [1, 3] && {1} + {3, 1} == {1, 3};
  }

  lemma RivalWalks()
    ensures Claims(RIVAL, [1, 2, 3]) == [1, 2, 3] && CanonicalSet(RIVAL.txs, [1, 2, 3]) == {1, 2}
    ensures CanonicalSet(RIVAL.txs, [1, 3]) == {1, 3} && !Peaceful(RIVAL.txs, 3, 2)
  {
    assert Anchor(1, 1, 11) in RIVAL.anchors && Anchored(RIVAL, 1);
    ClaimsAll(RIVAL, [1, 2, 3]);
    SweepWins(RIVAL.txs);
    RivalWins(RIVAL.txs);
    RivalsClash(RIVAL.txs);
  }

  lemma WithoutSnoc(claims: seq<Txid>, t: Txid, s: Txid)
    ensures Without(claims + [t], s) == if t == s then Without(claims, s) else Without(claims, s) + [t]
  {
    assert (claims + [t])[..|claims|] == claims;
  }

  lemma WithoutSweep()
    ensures Without([1, 2, 3], 2) == [1, 3]
  {
    WithoutSnoc([], 1, 2);
    WithoutSnoc([1], 2, 2);
    WithoutSnoc([1, 2], 3, 2);
    assert [] + [1] == [1] && [1] + [2] == [1, 2] && [1, 2] + [3] == [1, 2, 3] && [1] + [3] == [1, 3];
  }

  lemma RestIs(w: WalletGraph, ranking: seq<Txid>, s: Txid, left: seq<Txid>)
    requires Without(Claims(w, ranking), s) == left
    ensures AllKnown(w.txs, left) && Rest(w, ranking, s) == CanonicalSet(w.txs, left)
  {
  }

  lemma RivalRest()
    ensures Rest(RIVAL, [1, 2, 3], 2) == {1, 3}
  {
    RivalWalks();
    WithoutSweep();
    RestIs(RIVAL, [1, 2, 3], 2, [1, 3]);
  }

  lemma RivalUnanchored()
    ensures !Anchored(RIVAL, 2)
  {
  }

  lemma RivalFundedApart(txs: TxBook)
    requires RivalBook(txs)
    ensures NoHeirs(txs, {1, 2}, 2)
    ensures FUNDING in OwnedInputs(txs, 2, OWNED) && Stands(txs, [1, 2, 3], {1, 2}, 2, 1)
  {
    WalkToSweep(txs);
    assert 1 in [1, 2, 3] && Brings(txs, {1, 2}, 2, 1, 1);
    assert forall x :: x in {1, 2} ==> !SpendsFrom(txs, x, 2);
  }

  lemma RivalUnheld()
    ensures Unheld(RIVAL, [1, 2, 3], 2, OWNED)
  {
    RivalWalks();
    RivalUnanchored();
    RivalFundedApart(RIVAL.txs);
  }

  lemma RivalUnspent()
    ensures ResweepInputs(RIVAL, [1, 2, 3], 2, OWNED) == {}
  {
    RivalRest();
    RivalUnanchored();
    RivalResweep();
    RivalSpends();
  }

  lemma RivalResweep()
    requires Rest(RIVAL, [1, 2, 3], 2) == {1, 3} && !Anchored(RIVAL, 2)
    ensures ResweepInputs(RIVAL, [1, 2, 3], 2, OWNED) == Unspent(RIVAL.txs, {1, 3}, OWNED)
  {
    ResweepDisplacesIff(RIVAL, [1, 2, 3], [1, 2, 3], 2, OWNED);
  }

  lemma RivalSpends()
    ensures Unspent(RIVAL.txs, {1, 3}, OWNED) == {}
  {
    assert FUNDING in RIVAL.txs[3].inputs && SpentBy(RIVAL.txs, {1, 3}, FUNDING);
    SpentFunding(RIVAL.txs, {1, 3});
  }

  /** Take 3 for the first sweep and 2 for the re-sweep that displaced it. Nothing holds 2 in the
      present canonical set, but without it 3 is canonical again and keeps the coin: a re-sweep of
      the re-sweep finds nothing to spend. */
  lemma RivalTakesTheCoin()
    ensures 2 in CanonicalIn(RIVAL, [1, 2, 3]) && !NoRivals(RIVAL.txs, Claims(RIVAL, [1, 2, 3]), 2)
    ensures Footed(RIVAL.txs, Claims(RIVAL, [1, 2, 3]), 2) && NotOwnAncestor(RIVAL.txs, 2)
    ensures Unheld(RIVAL, [1, 2, 3], 2, OWNED)
    ensures 3 in Rest(RIVAL, [1, 2, 3], 2) && !Displaceable(RIVAL, [1, 2, 3], [1, 2, 3], 2, OWNED)
    ensures ResweepInputs(RIVAL, [1, 2, 3], 2, OWNED) == {}
  {
    RivalUnheld();
    RivalUnspent();
    RivalWalks();
    RivalRest();
    WalkToSweep(RIVAL.txs);
    assert 3 in [1, 2, 3];
    RivalNotDisplaceable();
  }

  lemma RivalNotDisplaceable()
    requires ResweepInputs(RIVAL, [1, 2, 3], 2, OWNED) == {}
    ensures !Displaceable(RIVAL, [1, 2, 3], [1, 2, 3], 2, OWNED)
  {
    ResweepDisplacesIff(RIVAL, [1, 2, 3], [1, 2, 3], 2, OWNED);
  }
}
