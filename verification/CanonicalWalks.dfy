/** What a walk over supported transactions takes, and what it takes without one of them. */
module CanonicalWalks {
  import opened Primitives
  import opened ChangeSets
  import opened Canonical

  function Without(claims: seq<Txid>, s: Txid): (r: seq<Txid>)
    ensures forall t :: t in r <==> t in claims && t != s
  {
    if claims == [] then []
    else
      var rest := Without(claims[..|claims| - 1], s);
      if claims[|claims| - 1] == s then rest else rest + [claims[|claims| - 1]]
  }

  lemma {:induction false} WithoutAbsent(claims: seq<Txid>, s: Txid)
    requires s !in claims
    ensures Without(claims, s) == claims
  {
    if claims != [] {
      assert claims == claims[..|claims| - 1] + [claims[|claims| - 1]];
      WithoutAbsent(claims[..|claims| - 1], s);
    }
  }

  /** Walking `claims`, `s` is met at `i` and goes together with what was taken before it. */
  predicate FitsAt(txs: TxBook, claims: seq<Txid>, s: Txid, i: nat)
    requires s in txs && AllKnown(txs, claims) && i < |claims|
  {
    claims[i] == s && ConflictFree(txs, CanonicalSet(txs, Without(claims[..i], s)) + Ancestry(txs, s))
  }

  predicate Fits(txs: TxBook, claims: seq<Txid>, s: Txid)
    requires s in txs && AllKnown(txs, claims)
  {
    exists i :: 0 <= i < |claims| && FitsAt(txs, claims, s, i)
  }

  /** A walk that nowhere takes `s` is the walk without it, whatever competes with `s`. */
  lemma {:induction false} UnfitWalk(txs: TxBook, claims: seq<Txid>, s: Txid)
    requires s in txs && AllKnown(txs, claims) && !Fits(txs, claims, s)
    ensures CanonicalSet(txs, claims) == CanonicalSet(txs, Without(claims, s))
  {
    if claims != [] {
      var init, t := claims[..|claims| - 1], claims[|claims| - 1];
      forall i: nat | i < |init| ensures !FitsAt(txs, init, s, i) {
        assert init[..i] == claims[..i];
        assert !FitsAt(txs, claims, s, i);
      }
      UnfitWalk(txs, init, s);
      var rest := Without(init, s);
      if t == s {
        assert !FitsAt(txs, claims, s, |init|);
      } else {
        assert (rest + [t])[..|rest|] == rest;
      }
    }
  }

  lemma {:induction false} WalkGrows(txs: TxBook, claims: seq<Txid>, i: nat)
    requires AllKnown(txs, claims) && i <= |claims|
    ensures CanonicalSet(txs, claims[..i]) <= CanonicalSet(txs, claims)
  {
    if i == |claims| {
      assert claims[..i] == claims;
    } else {
      var init := claims[..|claims| - 1];
      assert init[..i] == claims[..i];
      WalkGrows(txs, init, i);
    }
  }

  lemma {:induction false} FittingIsTaken(txs: TxBook, claims: seq<Txid>, s: Txid, i: nat)
    requires s in txs && AllKnown(txs, claims) && i < |claims| && FitsAt(txs, claims, s, i)
    ensures s in CanonicalSet(txs, claims)
    decreases |claims|
  {
    var prefix := claims[..i];
    if j: nat :| j < |prefix| && FitsAt(txs, prefix, s, j) {
      FittingIsTaken(txs, prefix, s, j);
      WalkGrows(txs, claims, i);
    } else {
      UnfitWalk(txs, prefix, s);
      assert claims[..i + 1][..i] == prefix;
      WalkGrows(txs, claims, i + 1);
    }
  }

  /** A walk takes `s` if and only if `s` fits where it is met, or is brought along by what the
      walk without `s` takes. */
  lemma TakenIff(txs: TxBook, claims: seq<Txid>, s: Txid)
    requires s in txs && AllKnown(txs, claims)
    ensures s in CanonicalSet(txs, claims) <==>
      Fits(txs, claims, s) || s in CanonicalSet(txs, Without(claims, s))
    ensures !Fits(txs, claims, s) ==> CanonicalSet(txs, claims) == CanonicalSet(txs, Without(claims, s))
  {
    if i: nat :| i < |claims| && FitsAt(txs, claims, s, i) {
      FittingIsTaken(txs, claims, s, i);
    } else {
      UnfitWalk(txs, claims, s);
    }
  }

  /** No other supported transaction, nor an ancestor of one, competes with `s` or its ancestors. */
  predicate NoRivals(txs: TxBook, claims: seq<Txid>, s: Txid) {
    s in txs && forall t :: t in claims && t != s ==> Peaceful(txs, t, s)
  }

  predicate Peaceful(txs: TxBook, t: Txid, s: Txid) {
    t in txs && s in txs && Apart(txs, Ancestry(txs, t), Ancestry(txs, s))
  }

  /** No transaction is its own ancestor, as no hash covers itself. */
  predicate NotOwnAncestor(txs: TxBook, s: Txid) {
    s in txs && s !in Parents(txs, Ancestry(txs, s))
  }

  /** Every ancestor of `s` is supported by itself. */
  predicate Footed(txs: TxBook, claims: seq<Txid>, s: Txid) {
    s in txs && forall a :: a in Ancestry(txs, s) && a != s ==> a in claims
  }

  /** Some other supported and canonical transaction brings `x` along. */
  predicate Stands(txs: TxBook, claims: seq<Txid>, canonical: set<Txid>, s: Txid, x: Txid) {
    exists t :: t in claims && Brings(txs, canonical, s, t, x)
  }

  predicate Brings(txs: TxBook, canonical: set<Txid>, s: Txid, t: Txid, x: Txid) {
    t != s && t in txs && t in canonical && x in Ancestry(txs, t)
  }

  /** No canonical transaction spends an output of `s`. */
  predicate NoHeirs(txs: TxBook, canonical: set<Txid>, s: Txid) {
    s !in Parents(txs, canonical)
  }

  /** Every member entered with the ancestry of some claim. */
  predicate Vouched(txs: TxBook, claims: seq<Txid>, c: set<Txid>) {
    forall x {:trigger Backed(txs, claims, x, c)} :: x in c ==> Backed(txs, claims, x, c)
  }

  predicate Backed(txs: TxBook, claims: seq<Txid>, x: Txid, c: set<Txid>) {
    exists t :: t in claims && Vouches(txs, t, x, c)
  }

  predicate Vouches(txs: TxBook, t: Txid, x: Txid, c: set<Txid>) {
    t in txs && x in Ancestry(txs, t) && Ancestry(txs, t) <= c
  }

  lemma {:induction false} CanonicalIsVouched(txs: TxBook, claims: seq<Txid>)
    requires AllKnown(txs, claims)
    ensures Vouched(txs, claims, CanonicalSet(txs, claims))
  {
    if claims != [] {
      var init, t := claims[..|claims| - 1], claims[|claims| - 1];
      CanonicalIsVouched(txs, init);
      var before, after := CanonicalSet(txs, init), CanonicalSet(txs, claims);
      forall x | x in after ensures Backed(txs, claims, x, after) {
        if x in before {
          assert Backed(txs, init, x, before);
          var u :| u in init && Vouches(txs, u, x, before);
          assert u in claims && Vouches(txs, u, x, after);
        } else {
          assert t in claims && Vouches(txs, t, x, after);
        }
      }
    }
  }

  /** Leaving `s` out of the walk loses at most `s` and its ancestors, and adds nothing. */
  lemma {:induction false} WalkWithout(txs: TxBook, claims: seq<Txid>, s: Txid)
    requires AllKnown(txs, claims) && NoRivals(txs, claims, s)
    ensures CanonicalSet(txs, Without(claims, s)) <= CanonicalSet(txs, claims)
    ensures CanonicalSet(txs, claims) <= CanonicalSet(txs, Without(claims, s)) + Ancestry(txs, s)
  {
    if claims != [] {
      var init, t := claims[..|claims| - 1], claims[|claims| - 1];
      WalkWithout(txs, init, s);
      var with, without := CanonicalSet(txs, init), CanonicalSet(txs, Without(init, s));
      if t != s {
        var rest := Without(init, s);
        assert (rest + [t])[..|rest|] == rest;
        assert t in claims;
        SameVerdict(txs, with, without, s, t);
      }
    }
  }

  lemma SameVerdict(txs: TxBook, with: set<Txid>, without: set<Txid>, s: Txid, t: Txid)
    requires s in txs && t in txs && Apart(txs, Ancestry(txs, t), Ancestry(txs, s))
    requires without <= with <= without + Ancestry(txs, s) && ConflictFree(txs, with)
    ensures ConflictFree(txs, with + Ancestry(txs, t)) <==> ConflictFree(txs, without + Ancestry(txs, t))
  {
    var tree := Ancestry(txs, t);
    if ConflictFree(txs, without + tree) {
      forall a, b | a in with + tree && b in with + tree
        ensures !Clash(txs, a, b)
      {
        if a in with && b in tree && a !in without {
          assert !Clash(txs, b, a);
          assert Clash(txs, a, b) ==> Clash(txs, b, a);
        }
      }
    }
  }

  /** A supported ancestor of a canonical `s` without rivals stays canonical on its own. */
  lemma {:induction false} AncestorStays(txs: TxBook, claims: seq<Txid>, s: Txid, a: Txid)
    requires AllKnown(txs, claims) && NoRivals(txs, claims, s) && ConflictFree(txs, Ancestry(txs, s))
    requires a in claims && a != s && a in Ancestry(txs, s)
    ensures a in CanonicalSet(txs, Without(claims, s))
  {
    var init, t := claims[..|claims| - 1], claims[|claims| - 1];
    assert claims == init + [t];
    var rest := Without(init, s);
    assert t != s ==> (rest + [t])[..|rest|] == rest;
    if a in init {
      AncestorStays(txs, init, s, a);
    } else {
      AcceptsAncestor(txs, claims, rest, s, a);
    }
  }

  lemma AcceptsAncestor(txs: TxBook, claims: seq<Txid>, rest: seq<Txid>, s: Txid, a: Txid)
    requires AllKnown(txs, rest) && NoRivals(txs, claims, s) && ConflictFree(txs, Ancestry(txs, s))
    requires forall t :: t in rest ==> t in claims && t != s
    requires a in txs && a in Ancestry(txs, s)
    ensures ConflictFree(txs, CanonicalSet(txs, rest) + Ancestry(txs, a))
  {
    var c, tree := CanonicalSet(txs, rest), Ancestry(txs, a);
    GatherIsLeast(txs, {a}, Ancestry(txs, s));
    CanonicalIsVouched(txs, rest);
    forall x, y | x in c + tree && y in c + tree
      ensures !Clash(txs, x, y)
    {
      if x in c && y in tree {
        VouchedApart(txs, claims, rest, c, s, x, y);
      } else if y in c && x in tree {
        VouchedApart(txs, claims, rest, c, s, y, x);
      }
    }
  }

  lemma ClashSymmetric(txs: TxBook, x: Txid, y: Txid)
    ensures Clash(txs, x, y) <==> Clash(txs, y, x)
  {
    if x in txs && y in txs {
      assert txs[x].inputs * txs[y].inputs == txs[y].inputs * txs[x].inputs;
    }
  }

  lemma VouchedApart(txs: TxBook, claims: seq<Txid>, rest: seq<Txid>, c: set<Txid>, s: Txid, x: Txid, y: Txid)
    requires NoRivals(txs, claims, s) && Vouched(txs, rest, c)
    requires forall t :: t in rest ==> t in claims && t != s
    requires x in c && y in Ancestry(txs, s)
    ensures !Clash(txs, x, y) && !Clash(txs, y, x)
  {
    assert Backed(txs, rest, x, c);
    var t :| t in rest && Vouches(txs, t, x, c);
    assert Peaceful(txs, t, s);
    ClashSymmetric(txs, x, y);
  }

  lemma ParentsGrow(txs: TxBook, a: set<Txid>, b: set<Txid>)
    requires a <= b
    ensures Parents(txs, a) <= Parents(txs, b)
  {
  }

  /** A proper descendant of `s`, with its ancestors, spends from `s`. */
  lemma DescendantHasChild(txs: TxBook, t: Txid, s: Txid, c: set<Txid>)
    requires t in txs && t != s && s in Ancestry(txs, t) && Ancestry(txs, t) <= c
    ensures s in Parents(txs, c)
  {
    ParentsGrow(txs, Ancestry(txs, t), c);
    if s !in Parents(txs, Ancestry(txs, t)) {
      var smaller := Ancestry(txs, t) - {s};
      ParentsGrow(txs, smaller, Ancestry(txs, t));
      GatherIsLeast(txs, {t}, smaller);
      assert false;
    }
  }

  /** What the walk without `s` takes is what some other member of it brings along. */
  lemma TakenIsBrought(txs: TxBook, claims: seq<Txid>, s: Txid, x: Txid)
    requires AllKnown(txs, claims)
    ensures
      var rest := CanonicalSet(txs, Without(claims, s));
      x in rest <==> Stands(txs, claims, rest, s, x)
  {
    var rest := CanonicalSet(txs, Without(claims, s));
    if x in rest {
      CanonicalIsVouched(txs, Without(claims, s));
      assert Backed(txs, Without(claims, s), x, rest);
      var t :| t in Without(claims, s) && Vouches(txs, t, x, rest);
      assert Brings(txs, rest, s, t, x);
    }
    if t :| t in claims && Brings(txs, rest, s, t, x) {
      GatherIsLeast(txs, {t}, rest);
    }
  }

  /** The walk without `s` takes `s` all the same if and only if it takes one that spends from it. */
  lemma ReturnsIffHeirs(txs: TxBook, claims: seq<Txid>, s: Txid)
    requires AllKnown(txs, claims)
    ensures
      var rest := CanonicalSet(txs, Without(claims, s));
      s in rest <==> !NoHeirs(txs, rest, s)
  {
    var rest := CanonicalSet(txs, Without(claims, s));
    if s in rest {
      CanonicalIsVouched(txs, Without(claims, s));
      assert Backed(txs, Without(claims, s), s, rest);
      var t :| t in Without(claims, s) && Vouches(txs, t, s, rest);
      DescendantHasChild(txs, t, s, rest);
    }
  }

  // ----- without rivals -----

  /** What stays canonical without `s` is what some other supported transaction brings along. */
  lemma StaysIffStands(txs: TxBook, claims: seq<Txid>, s: Txid, x: Txid)
    requires AllKnown(txs, claims) && NoRivals(txs, claims, s) && s in CanonicalSet(txs, claims)
    ensures x in CanonicalSet(txs, Without(claims, s)) <==> Stands(txs, claims, CanonicalSet(txs, claims), s, x)
  {
    var before, after := CanonicalSet(txs, claims), CanonicalSet(txs, Without(claims, s));
    WalkWithout(txs, claims, s);
    if x in after {
      CanonicalIsVouched(txs, Without(claims, s));
      assert Backed(txs, Without(claims, s), x, after);
      var t :| t in Without(claims, s) && Vouches(txs, t, x, after);
      assert Brings(txs, before, s, t, x);
    }
    if Stands(txs, claims, before, s, x) {
      var t :| t in claims && Brings(txs, before, s, t, x);
      if t !in after {
        GatherIsLeast(txs, {s}, before);
        assert ConflictFree(txs, Ancestry(txs, s));
        AncestorStays(txs, claims, s, t);
      }
      GatherIsLeast(txs, {t}, after);
    }
  }

  /** Without `s` in the walk, `s` leaves the canonical set if and only if no canonical
      transaction spends from it; with such a child, the whole set stays as it was. */
  lemma LeavesIffNoHeirs(txs: TxBook, claims: seq<Txid>, s: Txid)
    requires AllKnown(txs, claims) && NoRivals(txs, claims, s) && NotOwnAncestor(txs, s)
    requires s in CanonicalSet(txs, claims)
    ensures
      var before, after := CanonicalSet(txs, claims), CanonicalSet(txs, Without(claims, s));
      && (s !in after <==> NoHeirs(txs, before, s))
      && (!NoHeirs(txs, before, s) ==> after == before)
      && before - Ancestry(txs, s) <= after <= before
  {
    var before, after := CanonicalSet(txs, claims), CanonicalSet(txs, Without(claims, s));
    WalkWithout(txs, claims, s);
    if s in after {
      CanonicalIsVouched(txs, Without(claims, s));
      assert Backed(txs, Without(claims, s), s, after);
      var t :| t in Without(claims, s) && Vouches(txs, t, s, after);
      DescendantHasChild(txs, t, s, before);
    }
    if !NoHeirs(txs, before, s) {
      HeirKeepsSweep(txs, before, after, s);
    }
  }

  lemma HeirKeepsSweep(txs: TxBook, before: set<Txid>, after: set<Txid>, s: Txid)
    requires NotOwnAncestor(txs, s) && before - Ancestry(txs, s) <= after <= before
    requires s in Parents(txs, before) && after <= txs.Keys && Closed(txs, after)
    ensures after == before && s in after
  {
    var t :| t in before && SpendsFrom(txs, t, s);
    assert forall x :: x in Ancestry(txs, s) ==> !SpendsFrom(txs, x, s);
    assert s in Parents(txs, after);
    GatherIsLeast(txs, {s}, after);
  }

  /** Evicting removes exactly `s` if its ancestors are supported by themselves. */
  lemma FootedLeavesAlone(txs: TxBook, claims: seq<Txid>, s: Txid)
    requires AllKnown(txs, claims) && NoRivals(txs, claims, s) && NotOwnAncestor(txs, s) && Footed(txs, claims, s)
    requires s in CanonicalSet(txs, claims) && NoHeirs(txs, CanonicalSet(txs, claims), s)
    ensures CanonicalSet(txs, Without(claims, s)) == CanonicalSet(txs, claims) - {s}
  {
    var before, after := CanonicalSet(txs, claims), CanonicalSet(txs, Without(claims, s));
    LeavesIffNoHeirs(txs, claims, s);
    GatherIsLeast(txs, {s}, before);
    assert ConflictFree(txs, Ancestry(txs, s));
    forall x | x in before && x != s ensures x in after {
      if x !in after {
        AncestorStays(txs, claims, s, x);
      }
    }
  }

  /** A canonical `s` without rivals is accepted wherever the walk meets it. */
  lemma {:induction false} AcceptedAnywhere(txs: TxBook, claims: seq<Txid>, s: Txid)
    requires AllKnown(txs, claims) && NoRivals(txs, claims, s) && ConflictFree(txs, Ancestry(txs, s)) && s in claims
    ensures CanonicalSet(txs, claims) == CanonicalSet(txs, Without(claims, s)) + Ancestry(txs, s)
  {
    var init, t := claims[..|claims| - 1], claims[|claims| - 1];
    assert claims == init + [t];
    var rest := Without(init, s);
    WalkWithout(txs, init, s);
    if t == s {
      AcceptsAncestor(txs, claims, rest, s, s);
      assert CanonicalSet(txs, init) + Ancestry(txs, s) == CanonicalSet(txs, rest) + Ancestry(txs, s);
    } else {
      AcceptedAnywhere(txs, init, s);
      assert (rest + [t])[..|rest|] == rest;
      SameVerdict(txs, CanonicalSet(txs, init), CanonicalSet(txs, rest), s, t);
    }
  }

  lemma SharedCoinClashes(txs: TxBook, t: Txid, s: Txid, o: OutPoint)
    requires t in txs && s in txs && t != s && o in txs[s].inputs
    ensures o in txs[t].inputs ==> Clash(txs, t, s)
  {
    assert o in txs[t].inputs ==> o in txs[t].inputs * txs[s].inputs;
  }

  /** The coins a drain selects once `s` alone is gone: the unspent coins that are not outputs
      of `s`, and the coins `s` had spent. */
  lemma CoinsFreedByEviction(txs: TxBook, c: set<Txid>, s: Txid, owned: set<Script>)
    requires c <= txs.Keys && Closed(txs, c) && ConflictFree(txs, c) && s in c && NoHeirs(txs, c, s)
    ensures Unspent(txs, c - {s}, owned) ==
      (set o | o in Unspent(txs, c, owned) && o.txid != s) + OwnedInputs(txs, s, owned)
  {
    var after := c - {s};
    forall o | o in OwnedInputs(txs, s, owned) ensures o in Unspent(txs, after, owned) {
      assert SpendsFrom(txs, s, o.txid) && o.txid in Parents(txs, c);
      forall t | t in after && t in txs ensures o !in txs[t].inputs {
        SharedCoinClashes(txs, t, s, o);
      }
    }
    forall o | o in Unspent(txs, c, owned) && o.txid != s ensures o in Unspent(txs, after, owned) {
      assert !SpentBy(txs, c, o);
    }
    forall o | o in Unspent(txs, after, owned) && o !in OwnedInputs(txs, s, owned)
      ensures o in Unspent(txs, c, owned)
    {
      assert !SpentBy(txs, after, o);
      assert o !in txs[s].inputs;
    }
  }

  // ----- a book with one transaction more -----

  /** No known transaction spends an output of the unknown `r`. */
  predicate Unclaimed(txs: TxBook, r: Txid) {
    r !in txs && forall t :: t in txs ==> !SpendsFrom(txs, t, r)
  }

  predicate Extends(txs: TxBook, longer: TxBook, r: Txid) {
    Unclaimed(txs, r) && longer.Keys == txs.Keys + {r} && forall t :: t in txs ==> longer[t] == txs[t]
  }

  lemma ParentsInLonger(txs: TxBook, longer: TxBook, r: Txid, c: set<Txid>)
    requires Extends(txs, longer, r)
    requires c <= txs.Keys
    ensures Parents(longer, c) == Parents(txs, c)
  {
    assert forall t, p :: t in c ==> (SpendsFrom(longer, t, p) <==> SpendsFrom(txs, t, p));
  }

  lemma AncestryInLonger(txs: TxBook, longer: TxBook, r: Txid, t: Txid)
    requires Extends(txs, longer, r)
    requires t in txs
    ensures Ancestry(longer, t) == Ancestry(txs, t)
  {
    ParentsInLonger(txs, longer, r, Ancestry(txs, t));
    GatherIsLeast(longer, {t}, Ancestry(txs, t));
    ParentsInLonger(txs, longer, r, Ancestry(longer, t));
    GatherIsLeast(txs, {t}, Ancestry(longer, t));
  }

  lemma {:induction false} WalkInLonger(txs: TxBook, longer: TxBook, r: Txid, claims: seq<Txid>)
    requires Extends(txs, longer, r)
    requires AllKnown(txs, claims)
    ensures CanonicalSet(longer, claims) == CanonicalSet(txs, claims)
  {
    if claims != [] {
      var init, t := claims[..|claims| - 1], claims[|claims| - 1];
      WalkInLonger(txs, longer, r, init);
      AncestryInLonger(txs, longer, r, t);
      var more := CanonicalSet(txs, init) + Ancestry(txs, t);
      assert forall a, b :: a in more && b in more ==> (Clash(longer, a, b) <==> Clash(txs, a, b));
    }
  }

  lemma CoinsInLonger(txs: TxBook, longer: TxBook, r: Txid, c: set<Txid>, owned: set<Script>)
    requires Extends(txs, longer, r)
    requires c <= txs.Keys
    ensures Unspent(longer, c, owned) == Unspent(txs, c, owned)
  {
    forall o: OutPoint ensures SpentBy(longer, c, o) <==> SpentBy(txs, c, o) {
    }
    assert forall o: OutPoint :: o.txid in c ==> (Owned(longer, owned, o) <==> Owned(txs, owned, o));
  }
}
