/** Which transactions of a wallet graph count as canonical, and the coins that leaves unspent.
    The wallet library walks the supported transactions in an order of its own; each one is
    taken with all its ancestors unless that would spend a coin twice. */
module Canonical {
  import opened Primitives
  import opened ChangeSets

  type TxBook = map<Txid, Tx>

  predicate SpendsFrom(txs: TxBook, t: Txid, p: Txid) {
    t in txs && exists o :: o in txs[t].inputs && o.txid == p
  }

  /** The known transactions whose outputs the members of `s` spend. */
  function Parents(txs: TxBook, s: set<Txid>): (r: set<Txid>)
    ensures r <= txs.Keys
  {
    set p | p in txs && (exists t :: t in s && SpendsFrom(txs, t, p))
  }

  predicate Closed(txs: TxBook, s: set<Txid>) {
    Parents(txs, s) <= s
  }

  /** `s` with all its ancestors. */
  function Gather(txs: TxBook, s: set<Txid>): (r: set<Txid>)
    requires s <= txs.Keys
    ensures s <= r <= txs.Keys && Closed(txs, r)
    decreases |txs.Keys - s|
  {
    var more := s + Parents(txs, s);
    if more == s then s
    else
      assert txs.Keys - more < txs.Keys - s by {
        var t :| t in more && t !in s;
        assert t in txs.Keys - s && t !in txs.Keys - more;
      }
      SmallerSet(txs.Keys - more, txs.Keys - s);
      Gather(txs, more)
  }

  lemma SmallerSet(a: set<Txid>, b: set<Txid>)
    requires a < b
    ensures |a| < |b|
  {
    assert b == a + (b - a);
    var x :| x in b && x !in a;
    assert x in b - a;
    assert |b| == |a| + |b - a|;
  }

  lemma {:induction false} GatherIsLeast(txs: TxBook, s: set<Txid>, u: set<Txid>)
    requires s <= txs.Keys && s <= u && Closed(txs, u)
    ensures Gather(txs, s) <= u
    decreases |txs.Keys - s|
  {
    var more := s + Parents(txs, s);
    if more != s {
      assert Parents(txs, s) <= Parents(txs, u);
      assert txs.Keys - more < txs.Keys - s by {
        var t :| t in more && t !in s;
        assert t in txs.Keys - s && t !in txs.Keys - more;
      }
      SmallerSet(txs.Keys - more, txs.Keys - s);
      GatherIsLeast(txs, more, u);
    }
  }

  /** A transaction and its ancestors. */
  function Ancestry(txs: TxBook, t: Txid): (r: set<Txid>)
    requires t in txs
    ensures t in r && r <= txs.Keys && Closed(txs, r)
  {
    Gather(txs, {t})
  }

  predicate Clash(txs: TxBook, a: Txid, b: Txid) {
    a in txs && b in txs && a != b && txs[a].inputs * txs[b].inputs != {}
  }

  predicate ConflictFree(txs: TxBook, s: set<Txid>) {
    forall a, b {:trigger Clash(txs, a, b)} :: a in s && b in s ==> !Clash(txs, a, b)
  }

  predicate Apart(txs: TxBook, s: set<Txid>, u: set<Txid>) {
    forall a, b {:trigger Clash(txs, a, b)} :: a in s && b in u ==> !Clash(txs, a, b)
  }

  /** Takes `t` with its ancestors, unless the result would double-spend. */
  function Accept(txs: TxBook, canonical: set<Txid>, t: Txid): set<Txid>
    requires t in txs
  {
    var more := canonical + Ancestry(txs, t);
    if ConflictFree(txs, more) then more else canonical
  }

  predicate AllKnown(txs: TxBook, claims: seq<Txid>) {
    forall t :: t in claims ==> t in txs
  }

  /** The canonical set, from the supported transactions in walking order. */
  function CanonicalSet(txs: TxBook, claims: seq<Txid>): (c: set<Txid>)
    requires AllKnown(txs, claims)
    ensures c <= txs.Keys && Closed(txs, c) && ConflictFree(txs, c)
  {
    if claims == [] then {}
    else
      var c := CanonicalSet(txs, claims[..|claims| - 1]);
      var t := claims[|claims| - 1];
      ClosedUnion(txs, c, Ancestry(txs, t));
      Accept(txs, c, t)
  }

  lemma ClosedUnion(txs: TxBook, s: set<Txid>, u: set<Txid>)
    requires Closed(txs, s) && Closed(txs, u)
    ensures Closed(txs, s + u)
  {
  }

  // ----- support -----

  predicate Anchored(w: WalletGraph, t: Txid) {
    exists a :: a in w.anchors && a.txid == t
  }

  /** A block of the current chain holds the transaction. An anchor on any other block is stale. */
  predicate InChain(w: WalletGraph, t: Txid) {
    exists a :: a in w.anchors && a.txid == t && a.height in w.chain && w.chain[a.height] == a.hash
  }

  /** The transaction, or a canonical one that descends from it, is in the current chain. */
  predicate Confirmed(w: WalletGraph, canonical: set<Txid>, t: Txid) {
    exists x :: x in canonical && x in w.txs && InChain(w, x) && t in Ancestry(w.txs, x)
  }

  /** Seen in the mempool after it was last evicted. */
  predicate InMempool(w: WalletGraph, t: Txid) {
    t in w.lastSeen && (t in w.lastEvicted ==> w.lastSeen[t] > w.lastEvicted[t])
  }

  predicate Supported(w: WalletGraph, t: Txid) {
    t in w.txs && (Anchored(w, t) || InMempool(w, t))
  }

  /** The supported members of `ranking`, in its order. */
  function Claims(w: WalletGraph, ranking: seq<Txid>): (claims: seq<Txid>)
    ensures forall t :: t in claims <==> t in ranking && Supported(w, t)
  {
    if ranking == [] then []
    else
      var rest := Claims(w, ranking[..|ranking| - 1]);
      var t := ranking[|ranking| - 1];
      if Supported(w, t) then rest + [t] else rest
  }

  function CanonicalIn(w: WalletGraph, ranking: seq<Txid>): set<Txid> {
    CanonicalSet(w.txs, Claims(w, ranking))
  }

  // ----- coins -----

  predicate SpentBy(txs: TxBook, s: set<Txid>, o: OutPoint) {
    exists t :: t in s && t in txs && o in txs[t].inputs
  }

  predicate Owned(txs: TxBook, owned: set<Script>, o: OutPoint) {
    o.txid in txs && o.vout < |txs[o.txid].outputs| && txs[o.txid].outputs[o.vout].script in owned
  }

  /** The owned coins of `s` that no member of `s` spends: what a drain selects. */
  function Unspent(txs: TxBook, s: set<Txid>, owned: set<Script>): (coins: set<OutPoint>)
    ensures forall o :: o in coins <==> o.txid in s && Owned(txs, owned, o) && !SpentBy(txs, s, o)
  {
    set t, i | t in s && t in txs && 0 <= i < |txs[t].outputs|
               && Owned(txs, owned, OutPoint(t, i)) && !SpentBy(txs, s, OutPoint(t, i)) :: OutPoint(t, i)
  }

  /** The owned coins a transaction spends. */
  function OwnedInputs(txs: TxBook, t: Txid, owned: set<Script>): set<OutPoint>
    requires t in txs
  {
    set o | o in txs[t].inputs && Owned(txs, owned, o)
  }
}
