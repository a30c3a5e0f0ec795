/** The wallet state and the changesets it is persisted as: checkpoints, transactions, anchors,
    mempool sightings and evictions, and revealed address indices. */
module ChangeSets {
  import opened Wrappers
  import opened Primitives

  type BlockHash = nat
  type Script = nat

  datatype Keychain = External | Internal

  datatype TxOut = TxOut(value: nat, script: Script)

  datatype Tx = Tx(inputs: set<OutPoint>, outputs: seq<TxOut>)

  /** A block a transaction was seen in. */
  datatype Anchor = Anchor(txid: Txid, height: nat, hash: BlockHash)

  /** A staged or persisted changeset. A checkpoint set to None was disconnected. */
  datatype ChangeSet = ChangeSet(
    descriptor: Option<string>,
    blocks: map<nat, Option<BlockHash>>,
    txs: map<Txid, Tx>,
    anchors: set<Anchor>,
    lastSeen: map<Txid, nat>,
    lastEvicted: map<Txid, nat>,
    revealed: map<Keychain, nat>)

  const NOTHING := ChangeSet(None, map[], map[], {}, map[], map[], map[])

  /** A changeset that builds a wallet by itself: it carries the descriptor. */
  predicate IsComplete(d: ChangeSet) {
    d.descriptor.Some?
  }

  /** What a live wallet knows. */
  datatype WalletGraph = WalletGraph(
    descriptor: Option<string>,
    chain: map<nat, BlockHash>,
    txs: map<Txid, Tx>,
    anchors: set<Anchor>,
    lastSeen: map<Txid, nat>,
    lastEvicted: map<Txid, nat>,
    revealed: map<Keychain, nat>)

  const BLANK := WalletGraph(None, map[], map[], {}, map[], map[], map[])

  /** Latest of two optional values. */
  function Newer<T>(a: Option<T>, b: Option<T>): Option<T> {
    if b.Some? then b else a
  }

  /** Keywise maximum. */
  function MaxOf<K>(a: map<K, nat>, b: map<K, nat>): map<K, nat> {
    map k | k in a.Keys + b.Keys ::
      if k !in a then b[k] else if k !in b then a[k] else if a[k] < b[k] then b[k] else a[k]
  }

  function Merge(a: ChangeSet, b: ChangeSet): ChangeSet {
    ChangeSet(
      Newer(a.descriptor, b.descriptor),
      a.blocks + b.blocks,
      a.txs + b.txs,
      a.anchors + b.anchors,
      MaxOf(a.lastSeen, b.lastSeen),
      MaxOf(a.lastEvicted, b.lastEvicted),
      MaxOf(a.revealed, b.revealed))
  }

  /** The checkpoints after connecting and disconnecting blocks. */
  function Connect(chain: map<nat, BlockHash>, blocks: map<nat, Option<BlockHash>>): map<nat, BlockHash> {
    map h | h in chain.Keys + blocks.Keys && (h in blocks ==> blocks[h].Some?) ::
      if h in blocks then blocks[h].value else chain[h]
  }

  function Apply(w: WalletGraph, d: ChangeSet): WalletGraph {
    WalletGraph(
      Newer(w.descriptor, d.descriptor),
      Connect(w.chain, d.blocks),
      w.txs + d.txs,
      w.anchors + d.anchors,
      MaxOf(w.lastSeen, d.lastSeen),
      MaxOf(w.lastEvicted, d.lastEvicted),
      MaxOf(w.revealed, d.revealed))
  }

  /** The wallet a persisted changeset loads as. */
  function Reload(d: ChangeSet): WalletGraph {
    Apply(BLANK, d)
  }

  // ----- what a changeset does, component by component -----

  /** `c` holds every key of both, with the later of its times. */
  predicate Latest<K>(a: map<K, nat>, b: map<K, nat>, c: map<K, nat>) {
    && c.Keys == a.Keys + b.Keys
    && (forall k :: k in a ==> a[k] <= c[k])
    && (forall k :: k in b ==> b[k] <= c[k])
    && (forall k :: k in c ==> (k in a && c[k] == a[k]) || (k in b && c[k] == b[k]))
  }

  /** The chain has the new checkpoints, lacks the disconnected ones, and is else as before. */
  predicate Connected(chain: map<nat, BlockHash>, blocks: map<nat, Option<BlockHash>>, after: map<nat, BlockHash>) {
    && (forall h :: h in blocks && blocks[h].Some? ==> h in after && after[h] == blocks[h].value)
    && (forall h :: h in blocks && blocks[h].None? ==> h !in after)
    && (forall h :: h in chain && h !in blocks ==> h in after && after[h] == chain[h])
    && (forall h :: h in after ==> h in chain || h in blocks)
  }

  /** `after` knows what `before` knew and all that `d` brings. */
  predicate TakesIn(before: WalletGraph, d: ChangeSet, after: WalletGraph) {
    && after.descriptor == (if d.descriptor.Some? then d.descriptor else before.descriptor)
    && Connected(before.chain, d.blocks, after.chain)
    && after.txs.Keys == before.txs.Keys + d.txs.Keys
    && (forall t :: t in after.txs ==> after.txs[t] == if t in d.txs then d.txs[t] else before.txs[t])
    && after.anchors == before.anchors + d.anchors
    && Latest(before.lastSeen, d.lastSeen, after.lastSeen)
    && Latest(before.lastEvicted, d.lastEvicted, after.lastEvicted)
    && Latest(before.revealed, d.revealed, after.revealed)
  }

  /** `w` knows exactly what the row holds. */
  predicate LoadsAs(row: ChangeSet, w: WalletGraph) {
    && w.descriptor == row.descriptor
    && w.chain.Keys == (set h | h in row.blocks && row.blocks[h].Some?)
    && (forall h :: h in w.chain ==> row.blocks[h] == Some(w.chain[h]))
    && w.txs == row.txs && w.anchors == row.anchors
    && w.lastSeen == row.lastSeen && w.lastEvicted == row.lastEvicted && w.revealed == row.revealed
  }

  lemma LatestOf<K>(a: map<K, nat>, b: map<K, nat>)
    ensures Latest(a, b, MaxOf(a, b))
  {
  }

  lemma ApplyTakesIn(w: WalletGraph, d: ChangeSet)
    ensures TakesIn(w, d, Apply(w, d))
  {
    LatestOf(w.lastSeen, d.lastSeen);
    LatestOf(w.lastEvicted, d.lastEvicted);
    LatestOf(w.revealed, d.revealed);
  }

  lemma ReloadLoadsAs(row: ChangeSet)
    ensures LoadsAs(row, Reload(row))
  {
    MaxNeutral(row.lastSeen);
    MaxNeutral(row.lastEvicted);
    MaxNeutral(row.revealed);
    UnionNeutral(row.txs);
    assert {} + row.anchors == row.anchors;
  }

  lemma MaxAssociates<K>(a: map<K, nat>, b: map<K, nat>, c: map<K, nat>)
    ensures MaxOf(MaxOf(a, b), c) == MaxOf(a, MaxOf(b, c))
  {
    var one, two := MaxOf(MaxOf(a, b), c), MaxOf(a, MaxOf(b, c));
    assert one.Keys == two.Keys;
  }

  lemma UnionAssociates<K, V>(a: map<K, V>, b: map<K, V>, c: map<K, V>)
    ensures (a + b) + c == a + (b + c)
  {
  }

  lemma UnionNeutral<K, V>(a: map<K, V>)
    ensures a + map[] == a == map[] + a
  {
  }

  lemma MaxNeutral<K>(a: map<K, nat>)
    ensures MaxOf(a, map[]) == a == MaxOf(map[], a)
  {
  }

  lemma ConnectTwice(chain: map<nat, BlockHash>, b1: map<nat, Option<BlockHash>>, b2: map<nat, Option<BlockHash>>)
    ensures Connect(Connect(chain, b1), b2) == Connect(chain, b1 + b2)
  {
    var one, two := Connect(Connect(chain, b1), b2), Connect(chain, b1 + b2);
    assert forall h :: h in b1 + b2 <==> h in b1 || h in b2;
    assert one.Keys == two.Keys;
  }

  lemma ConnectNothing(chain: map<nat, BlockHash>)
    ensures Connect(chain, map[]) == chain
  {
  }

  /** Two changesets in turn act as their merge. */
  lemma ApplyTwice(w: WalletGraph, d1: ChangeSet, d2: ChangeSet)
    ensures Apply(Apply(w, d1), d2) == Apply(w, Merge(d1, d2))
  {
    ConnectTwice(w.chain, d1.blocks, d2.blocks);
    MaxAssociates(w.lastSeen, d1.lastSeen, d2.lastSeen);
    MaxAssociates(w.lastEvicted, d1.lastEvicted, d2.lastEvicted);
    MaxAssociates(w.revealed, d1.revealed, d2.revealed);
    UnionAssociates(w.txs, d1.txs, d2.txs);
    assert (w.anchors + d1.anchors) + d2.anchors == w.anchors + (d1.anchors + d2.anchors);
  }

  lemma MergeAssociates(a: ChangeSet, b: ChangeSet, c: ChangeSet)
    ensures Merge(Merge(a, b), c) == Merge(a, Merge(b, c))
  {
    MaxAssociates(a.lastSeen, b.lastSeen, c.lastSeen);
    MaxAssociates(a.lastEvicted, b.lastEvicted, c.lastEvicted);
    MaxAssociates(a.revealed, b.revealed, c.revealed);
    UnionAssociates(a.blocks, b.blocks, c.blocks);
    UnionAssociates(a.txs, b.txs, c.txs);
    assert (a.anchors + b.anchors) + c.anchors == a.anchors + (b.anchors + c.anchors);
  }

  lemma NothingIsNeutral(d: ChangeSet, w: WalletGraph)
    ensures Merge(d, NOTHING) == d == Merge(NOTHING, d)
    ensures Apply(w, NOTHING) == w
  {
    MaxNeutral(d.lastSeen);
    MaxNeutral(d.lastEvicted);
    MaxNeutral(d.revealed);
    MaxNeutral(w.lastSeen);
    MaxNeutral(w.lastEvicted);
    MaxNeutral(w.revealed);
    UnionNeutral(d.blocks);
    UnionNeutral(d.txs);
    UnionNeutral(w.txs);
    ConnectNothing(w.chain);
    assert d.anchors + {} == d.anchors == {} + d.anchors;
    assert w.anchors + {} == w.anchors;
  }

  /** Only checkpoint 0 is known. */
  predicate AtGenesis(w: WalletGraph) {
    forall h :: h in w.chain ==> h == 0
  }

  /** The staged effect of evicting a transaction for good. */
  function Eviction(t: Txid): ChangeSet {
    NOTHING.(lastEvicted := map[t := U64_MAX])
  }

  /** Revealing the external addresses below `count`; nothing if they are already revealed. */
  function RevealDelta(w: WalletGraph, count: nat): ChangeSet {
    if count == 0 || (External in w.revealed && count - 1 <= w.revealed[External]) then NOTHING
    else NOTHING.(revealed := map[External := count - 1])
  }
}
