/** Per-address and per-asset totals of a Liquid wallet: four scans over the same history. */
module LiquidActivity {
  import opened Wrappers
  import opened Primitives
  import opened Texts
  import opened ChangeSets

  /** An asset id: its bytes, printed last byte first. */
  type Asset = seq<byte>

  type Key = (bool, nat)

  /** A wallet-owned output with its derivation and its unblinded asset and value. */
  datatype WalletOutput = WalletOutput(outpoint: OutPoint, chain: Keychain, index: nat,
                                       asset: Asset, value: nat, height: Option<nat>)

  datatype Receipt = Receipt(outpoint: OutPoint, amount: nat, height: Option<nat>, isSpent: bool)

  datatype Activity = Activity(received: nat, unspent: nat, receipts: seq<Receipt>)

  datatype AssetActivity = AssetActivity(assetId: string, isPolicy: bool, activity: Activity)

  // ----- u64 -----

  function Cap(n: nat): nat {
    if n <= U64_MAX then n else U64_MAX
  }

  function SaturatingAdd(a: nat, b: nat): nat {
    if a + b <= U64_MAX then a + b else U64_MAX
  }

  /** A saturated sum only depends on the true one. */
  lemma CapAdds(sum: nat, more: nat)
    ensures SaturatingAdd(Cap(sum), more) == Cap(sum + more)
  {
  }

  // ----- hex -----

  function Hex(a: Asset): (s: string)
    ensures |s| == 2 * |a|
  {
    if a == [] then ""
    else Hex(a[1..]) + [HexChar(a[0] as nat / 16), HexChar(a[0] as nat % 16)]
  }

  /** Printed asset ids are equal only for equal assets. */
  lemma {:induction false} HexInjective(a: Asset, b: Asset)
    requires Hex(a) == Hex(b)
    ensures a == b
  {
    assert 2 * |a| == |Hex(a)| == |Hex(b)| == 2 * |b|;
    if a != [] {
      var n := |Hex(a)|;
      assert Hex(a)[..n - 2] == Hex(a[1..]) && Hex(b)[..n - 2] == Hex(b[1..]);
      HexInjective(a[1..], b[1..]);
      assert Hex(a)[n - 2] == HexChar(a[0] as nat / 16) && Hex(b)[n - 2] == HexChar(b[0] as nat / 16);
      assert Hex(a)[n - 1] == HexChar(a[0] as nat % 16) && Hex(b)[n - 1] == HexChar(b[0] as nat % 16);
      assert a[0] as nat == b[0] as nat;
      assert a == [a[0]] + a[1..] && b == [b[0]] + b[1..];
    }
  }

  /** An asset id is printed last byte first, two lower-case digits each. */
  lemma {:induction false} HexAt(a: Asset, k: nat)
    requires k < |a|
    ensures IsHexLower(Hex(a)[2 * k]) && IsHexLower(Hex(a)[2 * k + 1])
    ensures 16 * HexDigit(Hex(a)[2 * k]) + HexDigit(Hex(a)[2 * k + 1]) == a[|a| - 1 - k] as nat
  {
    if k < |a| - 1 {
      HexAt(a[1..], k);
      assert Hex(a)[2 * k] == Hex(a[1..])[2 * k] && Hex(a)[2 * k + 1] == Hex(a[1..])[2 * k + 1];
    }
  }

  // ----- the totals -----

  /** One asset, given by its id or by its printed name. */
  datatype Slice = ById(asset: Asset) | ByName(name: string)

  predicate InSlice(o: WalletOutput, slice: Slice) {
    match slice
    case ById(asset) => o.asset == asset
    case ByName(name) => Hex(o.asset) == name
  }

  function KeyOf(o: WalletOutput): Key {
    (o.chain.External?, o.index)
  }

  predicate PaysTo(o: WalletOutput, slice: Slice, at: Key) {
    InSlice(o, slice) && KeyOf(o) == at
  }

  /** The true sum of all outputs of one asset at one address. */
  function Received(outs: seq<WalletOutput>, slice: Slice, at: Key): nat {
    if outs == [] then 0
    else
      var last := outs[|outs| - 1];
      Received(outs[..|outs| - 1], slice, at) + (if PaysTo(last, slice, at) then last.value else 0)
  }

  /** The true sum of those that are in the UTXO set. */
  function Unspent(outs: seq<WalletOutput>, utxos: set<OutPoint>, slice: Slice, at: Key): nat {
    if outs == [] then 0
    else
      var last := outs[|outs| - 1];
      Unspent(outs[..|outs| - 1], utxos, slice, at)
      + (if PaysTo(last, slice, at) && last.outpoint in utxos then last.value else 0)
  }

  function ReceiptOf(o: WalletOutput, utxos: set<OutPoint>): Receipt {
    Receipt(o.outpoint, o.value, o.height, o.outpoint !in utxos)
  }

  function Receipts(outs: seq<WalletOutput>, utxos: set<OutPoint>, slice: Slice, at: Key): seq<Receipt> {
    if outs == [] then []
    else
      var last := outs[|outs| - 1];
      Receipts(outs[..|outs| - 1], utxos, slice, at)
      + (if PaysTo(last, slice, at) then [ReceiptOf(last, utxos)] else [])
  }

  predicate Paid(outs: seq<WalletOutput>, slice: Slice, at: Key) {
    exists o :: o in outs && PaysTo(o, slice, at)
  }

  predicate Holds(outs: seq<WalletOutput>, slice: Slice) {
    exists o :: o in outs && InSlice(o, slice)
  }

  function Totals(outs: seq<WalletOutput>, utxos: set<OutPoint>, slice: Slice, at: Key): (nat, nat) {
    (Cap(Received(outs, slice, at)), Cap(Unspent(outs, utxos, slice, at)))
  }

  /** The owned outputs of a transaction list, in order; foreign outputs are None. */
  function Flatten(outputs: seq<Option<WalletOutput>>): seq<WalletOutput> {
    if outputs == [] then []
    else
      var last := outputs[|outputs| - 1];
      Flatten(outputs[..|outputs| - 1]) + (if last.Some? then [last.value] else [])
  }

  function History(txs: seq<seq<Option<WalletOutput>>>): seq<WalletOutput> {
    if txs == [] then [] else History(txs[..|txs| - 1]) + Flatten(txs[|txs| - 1])
  }

  /** What the scans have seen after the first `j` outputs of transaction `i`. */
  function Seen(txs: seq<seq<Option<WalletOutput>>>, i: nat, j: nat): seq<WalletOutput>
    requires i < |txs| && j <= |txs[i]|
  {
    History(txs[..i]) + Flatten(txs[i][..j])
  }

  lemma SeenNext(txs: seq<seq<Option<WalletOutput>>>, i: nat, j: nat)
    requires i < |txs| && j < |txs[i]|
    ensures Seen(txs, i, j + 1) == if txs[i][j].Some? then Seen(txs, i, j) + [txs[i][j].value] else Seen(txs, i, j)
  {
    assert txs[i][..j + 1][..j] == txs[i][..j];
    assert txs[i][j].Some? ==>
      Seen(txs, i, j + 1) == History(txs[..i]) + (Flatten(txs[i][..j]) + [txs[i][j].value]);
  }

  lemma SeenAll(txs: seq<seq<Option<WalletOutput>>>, i: nat)
    requires i < |txs|
    ensures Seen(txs, i, 0) == History(txs[..i])
    ensures Seen(txs, i, |txs[i]|) == History(txs[..i + 1])
  {
    assert txs[i][..|txs[i]|] == txs[i];
    assert txs[..i + 1][..i] == txs[..i];
  }

  /** The output is the wallet's at this address, in this asset. */
  predicate IsAt(o: WalletOutput, asset: Asset, external: bool, index: nat) {
    o.asset == asset && o.chain == (if external then External else Internal) && o.index == index
  }

  /** A single output counts with its value at its own address and asset, and nowhere else; as unspent
      only while it is in the UTXO set; and its receipt says so. */
  lemma OneOutput(o: WalletOutput, utxos: set<OutPoint>, asset: Asset, external: bool, index: nat)
    ensures Received([o], ById(asset), (external, index)) == if IsAt(o, asset, external, index) then o.value else 0
    ensures Unspent([o], utxos, ById(asset), (external, index)) ==
      if IsAt(o, asset, external, index) && o.outpoint in utxos then o.value else 0
    ensures IsAt(o, asset, external, index) ==>
      |Receipts([o], utxos, ById(asset), (external, index))| == 1
      && var r := Receipts([o], utxos, ById(asset), (external, index))[0];
         r.outpoint == o.outpoint && r.amount == o.value && r.height == o.height && (r.isSpent <==> o.outpoint !in utxos)
    ensures !IsAt(o, asset, external, index) ==> Receipts([o], utxos, ById(asset), (external, index)) == []
  {
    assert [o][..0] == [];
  }

  lemma SnocSplit(a: seq<WalletOutput>, b: seq<WalletOutput>)
    requires b != []
    ensures a + b == (a + b[..|b| - 1]) + [b[|b| - 1]] && b == b[..|b| - 1] + [b[|b| - 1]]
    ensures (a + b)[..|a + b| - 1] == a + b[..|b| - 1] && (a + b)[|a + b| - 1] == b[|b| - 1]
  {
  }

  lemma {:induction false} ReceivedAdds(a: seq<WalletOutput>, b: seq<WalletOutput>, slice: Slice, at: Key)
    ensures Received(a + b, slice, at) == Received(a, slice, at) + Received(b, slice, at)
    decreases |b|
  {
    if b == [] {
      assert a + b == a;
    } else {
      ReceivedAdds(a, b[..|b| - 1], slice, at);
      SnocSplit(a, b);
    }
  }

  lemma {:induction false} UnspentAdds(a: seq<WalletOutput>, b: seq<WalletOutput>, utxos: set<OutPoint>, slice: Slice, at: Key)
    ensures Unspent(a + b, utxos, slice, at) == Unspent(a, utxos, slice, at) + Unspent(b, utxos, slice, at)
    decreases |b|
  {
    if b == [] {
      assert a + b == a;
    } else {
      UnspentAdds(a, b[..|b| - 1], utxos, slice, at);
      SnocSplit(a, b);
    }
  }

  lemma {:induction false} ReceiptsFollow(a: seq<WalletOutput>, b: seq<WalletOutput>, utxos: set<OutPoint>, slice: Slice,
                                          at: Key)
    ensures Receipts(a + b, utxos, slice, at) == Receipts(a, utxos, slice, at) + Receipts(b, utxos, slice, at)
    decreases |b|
  {
    if b == [] {
      assert a + b == a;
    } else {
      ReceiptsFollow(a, b[..|b| - 1], utxos, slice, at);
      SnocSplit(a, b);
    }
  }

  /** Totals of two histories add up, and their receipts follow each other. */
  lemma HistoriesAdd(a: seq<WalletOutput>, b: seq<WalletOutput>, utxos: set<OutPoint>, slice: Slice, at: Key)
    ensures Received(a + b, slice, at) == Received(a, slice, at) + Received(b, slice, at)
    ensures Unspent(a + b, utxos, slice, at) == Unspent(a, utxos, slice, at) + Unspent(b, utxos, slice, at)
    ensures Receipts(a + b, utxos, slice, at) == Receipts(a, utxos, slice, at) + Receipts(b, utxos, slice, at)
  {
    ReceivedAdds(a, b, slice, at);
    UnspentAdds(a, b, utxos, slice, at);
    ReceiptsFollow(a, b, utxos, slice, at);
  }

  /** What is shown is the true total up to the largest 64-bit number. */
  lemma TotalsStopAtU64(outs: seq<WalletOutput>, utxos: set<OutPoint>, slice: Slice, at: Key)
    ensures
      var r, u := Received(outs, slice, at), Unspent(outs, utxos, slice, at);
      Totals(outs, utxos, slice, at) ==
        (if r <= 0xFFFF_FFFF_FFFF_FFFF then r else 0xFFFF_FFFF_FFFF_FFFF,
         if u <= 0xFFFF_FFFF_FFFF_FFFF then u else 0xFFFF_FFFF_FFFF_FFFF)
  {
  }

  /** How one more output changes a total. */
  lemma OneMore(outs: seq<WalletOutput>, o: WalletOutput, utxos: set<OutPoint>, slice: Slice, at: Key)
    ensures Received(outs + [o], slice, at) ==
      Received(outs, slice, at) + (if PaysTo(o, slice, at) then o.value else 0)
    ensures Unspent(outs + [o], utxos, slice, at) ==
      Unspent(outs, utxos, slice, at) + (if PaysTo(o, slice, at) && o.outpoint in utxos then o.value else 0)
    ensures Receipts(outs + [o], utxos, slice, at) ==
      Receipts(outs, utxos, slice, at) + (if PaysTo(o, slice, at) then [ReceiptOf(o, utxos)] else [])
    ensures Paid(outs + [o], slice, at) <==> Paid(outs, slice, at) || PaysTo(o, slice, at)
    ensures Holds(outs + [o], slice) <==> Holds(outs, slice) || InSlice(o, slice)
  {
    assert (outs + [o])[..|outs|] == outs;
    assert forall x :: x in outs + [o] <==> x in outs || x == o;
  }

  lemma {:induction false} NothingPaid(outs: seq<WalletOutput>, utxos: set<OutPoint>, slice: Slice, at: Key)
    requires !Paid(outs, slice, at)
    ensures Received(outs, slice, at) == 0 && Unspent(outs, utxos, slice, at) == 0
    ensures Receipts(outs, utxos, slice, at) == []
  {
    if outs != [] {
      assert outs[|outs| - 1] in outs;
      assert forall o :: o in outs[..|outs| - 1] ==> o in outs;
      NothingPaid(outs[..|outs| - 1], utxos, slice, at);
    }
  }

  /** No address shows more unspent than received, capped or not. */
  lemma {:induction false} UnspentAtMostReceived(outs: seq<WalletOutput>, utxos: set<OutPoint>, slice: Slice, at: Key)
    ensures Unspent(outs, utxos, slice, at) <= Received(outs, slice, at)
    ensures Totals(outs, utxos, slice, at).1 <= Totals(outs, utxos, slice, at).0 <= U64_MAX
  {
    if outs != [] {
      UnspentAtMostReceived(outs[..|outs| - 1], utxos, slice, at);
    }
  }

  /** The sum of the receipts' amounts, of all of them or of the unspent ones. */
  function SumReceipts(rs: seq<Receipt>, unspentOnly: bool): nat {
    if rs == [] then 0
    else
      var last := rs[|rs| - 1];
      SumReceipts(rs[..|rs| - 1], unspentOnly) + (if unspentOnly && last.isSpent then 0 else last.amount)
  }

  /** The receipts account for both totals. */
  lemma {:induction false} ReceiptsAddUp(outs: seq<WalletOutput>, utxos: set<OutPoint>, slice: Slice, at: Key)
    ensures SumReceipts(Receipts(outs, utxos, slice, at), false) == Received(outs, slice, at)
    ensures SumReceipts(Receipts(outs, utxos, slice, at), true) == Unspent(outs, utxos, slice, at)
  {
    if outs != [] {
      var init, last := outs[..|outs| - 1], outs[|outs| - 1];
      ReceiptsAddUp(init, utxos, slice, at);
      var before := Receipts(init, utxos, slice, at);
      assert (before + [ReceiptOf(last, utxos)])[..|before|] == before;
      assert Receipts(outs, utxos, slice, at) ==
        if PaysTo(last, slice, at) then before + [ReceiptOf(last, utxos)] else before;
    }
  }

  // ----- what each scan promises -----

  predicate IsActivity(a: Activity, outs: seq<WalletOutput>, utxos: set<OutPoint>, slice: Slice, at: Key) {
    && (a.received, a.unspent) == Totals(outs, utxos, slice, at)
    && a.receipts == Receipts(outs, utxos, slice, at)
  }

  /** The map has an entry for every address ever paid in this asset, and no other. */
  ghost predicate IsMap(m: map<Key, (nat, nat)>, outs: seq<WalletOutput>, utxos: set<OutPoint>, slice: Slice) {
    forall at {:trigger EntryOk(m, outs, utxos, slice, at)} :: EntryOk(m, outs, utxos, slice, at)
  }

  predicate EntryOk(m: map<Key, (nat, nat)>, outs: seq<WalletOutput>, utxos: set<OutPoint>, slice: Slice, at: Key) {
    && (at in m <==> Paid(outs, slice, at))
    && (at in m ==> m[at] == Totals(outs, utxos, slice, at))
  }

  ghost predicate IsMapByAsset(m: map<string, map<Key, (nat, nat)>>, outs: seq<WalletOutput>, utxos: set<OutPoint>) {
    forall name {:trigger AssetOk(m, outs, utxos, name)} :: AssetOk(m, outs, utxos, name)
  }

  ghost predicate AssetOk(m: map<string, map<Key, (nat, nat)>>, outs: seq<WalletOutput>, utxos: set<OutPoint>,
                          name: string)
  {
    && (name in m <==> Holds(outs, ByName(name)))
    && (name in m ==> IsMap(m[name], outs, utxos, ByName(name)))
  }

  predicate IsAssetActivity(x: AssetActivity, policy: Asset, outs: seq<WalletOutput>, utxos: set<OutPoint>, at: Key) {
    && x.isPolicy == (x.assetId == Hex(policy))
    && IsActivity(x.activity, outs, utxos, ByName(x.assetId), at)
  }

  class LiquidWallet {
    const policy: Asset
    var utxos: set<OutPoint>
    var txs: seq<seq<Option<WalletOutput>>>

    constructor (policy: Asset, utxos: set<OutPoint>, txs: seq<seq<Option<WalletOutput>>>)
      ensures this.policy == policy && this.utxos == utxos && this.txs == txs
    {
      this.policy, this.utxos, this.txs := policy, utxos, txs;
    }

    method AddressActivity(chain: Keychain, index: nat) returns (activity: Activity)
      ensures IsActivity(activity, History(txs), utxos, ById(policy), (chain.External?, index))
    {
      activity := Activity(0, 0, []);
      ghost var at := (chain.External?, index);
      for i := 0 to |txs|
        invariant IsActivity(activity, History(txs[..i]), utxos, ById(policy), at)
      {
        SeenAll(txs, i);
        for j := 0 to |txs[i]|
          invariant IsActivity(activity, Seen(txs, i, j), utxos, ById(policy), at)
        {
          ghost var before := activity;
          if txs[i][j].Some? {
            var out := txs[i][j].value;
            if out.chain == chain && out.index == index && out.asset == policy {
              var isSpent := out.outpoint !in utxos;
              activity := Activity(
                SaturatingAdd(activity.received, out.value),
                if isSpent then activity.unspent else SaturatingAdd(activity.unspent, out.value),
                activity.receipts + [Receipt(out.outpoint, out.value, out.height, isSpent)]);
            }
          }
          CreditSeen(txs, i, j, before, activity, utxos, ById(policy), at);
        }
      }
      assert txs[..|txs|] == txs;
    }

    method AddressActivityMap() returns (m: map<Key, (nat, nat)>)
      ensures IsMap(m, History(txs), utxos, ById(policy))
    {
      m := map[];
      for i := 0 to |txs|
        invariant IsMap(m, History(txs[..i]), utxos, ById(policy))
      {
        SeenAll(txs, i);
        for j := 0 to |txs[i]|
          invariant IsMap(m, Seen(txs, i, j), utxos, ById(policy))
        {
          SeenNext(txs, i, j);
          if txs[i][j].Some? {
            var out := txs[i][j].value;
            ghost var before := m;
            if out.asset == policy {
              m := Bump(m, out, utxos);
            }
            assert m == if InSlice(out, ById(policy)) then Bump(before, out, utxos) else before;
            BumpKeepsMap(before, m, Seen(txs, i, j), out, utxos, ById(policy));
          }
        }
      }
      assert txs[..|txs|] == txs;
    }

    method AddressActivityMapByAsset() returns (policyHex: string, byAsset: map<string, map<Key, (nat, nat)>>)
      ensures policyHex == Hex(policy)
      ensures IsMapByAsset(byAsset, History(txs), utxos)
    {
      byAsset := map[];
      for i := 0 to |txs|
        invariant IsMapByAsset(byAsset, History(txs[..i]), utxos)
      {
        SeenAll(txs, i);
        for j := 0 to |txs[i]|
          invariant IsMapByAsset(byAsset, Seen(txs, i, j), utxos)
        {
          ghost var before := byAsset;
          if txs[i][j].Some? {
            var out := txs[i][j].value;
            var name := Hex(out.asset);
            var slot := if name in byAsset then byAsset[name] else map[];
            byAsset := byAsset[name := Bump(slot, out, utxos)];
          }
          BumpSeen(txs, i, j, before, byAsset, utxos);
        }
      }
      assert txs[..|txs|] == txs;
      policyHex := Hex(policy);
    }

    /** The assets of one address; the policy asset, if it was ever paid there, comes first. */
    method AddressActivityByAsset(chain: Keychain, index: nat) returns (list: seq<AssetActivity>)
      ensures Lists(list, policy, History(txs), utxos, (chain.External?, index))
      ensures forall i, j :: 0 <= i < j < |list| ==> list[i].assetId != list[j].assetId
      ensures AscendsAfterPolicy(NamesOf(list), Hex(policy))
    {
      var byAsset := map[];
      ghost var at := (chain.External?, index);
      for i := 0 to |txs|
        invariant Gathered(byAsset, policy, History(txs[..i]), utxos, at)
      {
        SeenAll(txs, i);
        for j := 0 to |txs[i]|
          invariant Gathered(byAsset, policy, Seen(txs, i, j), utxos, at)
        {
          ghost var before := byAsset;
          if txs[i][j].Some? {
            var out := txs[i][j].value;
            if out.chain == chain && out.index == index {
              var name := Hex(out.asset);
              var isSpent := out.outpoint !in utxos;
              var slot := if name in byAsset then byAsset[name]
                          else AssetActivity(name, out.asset == policy, Activity(0, 0, []));
              var a := slot.activity;
              byAsset := byAsset[name := slot.(activity := Activity(
                SaturatingAdd(a.received, out.value),
                if isSpent then a.unspent else SaturatingAdd(a.unspent, out.value),
                a.receipts + [Receipt(out.outpoint, out.value, out.height, isSpent)]))];
            }
          }
          GatherSeen(txs, i, j, before, byAsset, policy, utxos, at);
        }
      }
      assert txs[..|txs|] == txs;
      NamedRight(byAsset, policy, History(txs), utxos, at);
      list := PolicyFirst(byAsset, policy);
      ListsAllPaid(byAsset, list, policy, History(txs), utxos, at);
    }
  }

  predicate Named(m: map<string, AssetActivity>, policy: Asset) {
    forall name :: name in m ==> m[name].assetId == name && m[name].isPolicy == (name == Hex(policy))
  }

  lemma NamedRight(m: map<string, AssetActivity>, policy: Asset, outs: seq<WalletOutput>, utxos: set<OutPoint>, at: Key)
    requires Gathered(m, policy, outs, utxos, at)
    ensures Named(m, policy)
  {
    forall name | name in m ensures m[name].assetId == name && m[name].isPolicy == (name == Hex(policy)) {
      assert GatheredOne(m, policy, outs, utxos, at, name);
    }
  }

  /** The rows are those of the assets ever paid at the address. */
  ghost predicate Lists(list: seq<AssetActivity>, policy: Asset, outs: seq<WalletOutput>, utxos: set<OutPoint>, at: Key) {
    && (forall x :: x in list ==> Paid(outs, ByName(x.assetId), at) && IsAssetActivity(x, policy, outs, utxos, at))
    && (forall name :: Paid(outs, ByName(name), at) ==> exists x :: x in list && x.assetId == name)
  }

  lemma ListsAllPaid(m: map<string, AssetActivity>, list: seq<AssetActivity>, policy: Asset, outs: seq<WalletOutput>,
                     utxos: set<OutPoint>, at: Key)
    requires Gathered(m, policy, outs, utxos, at) && forall x :: x in list <==> Entry(m, x)
    ensures Lists(list, policy, outs, utxos, at)
  {
    forall name | Paid(outs, ByName(name), at) ensures exists x :: x in list && x.assetId == name {
      assert GatheredOne(m, policy, outs, utxos, at, name);
      assert Entry(m, m[name]) && m[name] in list;
    }
    forall x | x in list ensures Paid(outs, ByName(x.assetId), at) && IsAssetActivity(x, policy, outs, utxos, at) {
      assert Entry(m, x);
      assert GatheredOne(m, policy, outs, utxos, at, x.assetId);
    }
  }

  /** The entry update of both map scans. */
  function Bump(m: map<Key, (nat, nat)>, o: WalletOutput, utxos: set<OutPoint>): map<Key, (nat, nat)> {
    var at := KeyOf(o);
    var entry := if at in m then m[at] else (0, 0);
    m[at := (SaturatingAdd(entry.0, o.value),
             if o.outpoint in utxos then SaturatingAdd(entry.1, o.value) else entry.1)]
  }

  lemma BumpKeepsMap(m: map<Key, (nat, nat)>, after: map<Key, (nat, nat)>, outs: seq<WalletOutput>,
                     o: WalletOutput, utxos: set<OutPoint>, slice: Slice)
    requires IsMap(m, outs, utxos, slice)
    requires after == if InSlice(o, slice) then Bump(m, o, utxos) else m
    ensures IsMap(after, outs + [o], utxos, slice)
  {
    forall at ensures EntryOk(after, outs + [o], utxos, slice, at) {
      assert EntryOk(m, outs, utxos, slice, at);
      BumpKeepsEntry(m, after, outs, o, utxos, slice, at);
    }
  }

  lemma BumpKeepsEntry(m: map<Key, (nat, nat)>, after: map<Key, (nat, nat)>, outs: seq<WalletOutput>,
                       o: WalletOutput, utxos: set<OutPoint>, slice: Slice, at: Key)
    requires EntryOk(m, outs, utxos, slice, at)
    requires after == if InSlice(o, slice) then Bump(m, o, utxos) else m
    ensures EntryOk(after, outs + [o], utxos, slice, at)
  {
    OneMore(outs, o, utxos, slice, at);
    CapAdds(Received(outs, slice, at), o.value);
    CapAdds(Unspent(outs, utxos, slice, at), o.value);
    if at !in m {
      NothingPaid(outs, utxos, slice, at);
    }
  }

  lemma BumpKeepsMapByAsset(m: map<string, map<Key, (nat, nat)>>, after: map<string, map<Key, (nat, nat)>>,
                            outs: seq<WalletOutput>, o: WalletOutput, utxos: set<OutPoint>)
    requires IsMapByAsset(m, outs, utxos)
    requires after == m[Hex(o.asset) := Bump(if Hex(o.asset) in m then m[Hex(o.asset)] else map[], o, utxos)]
    ensures IsMapByAsset(after, outs + [o], utxos)
  {
    forall name ensures AssetOk(after, outs + [o], utxos, name) {
      assert AssetOk(m, outs, utxos, name);
      OneMore(outs, o, utxos, ByName(name), KeyOf(o));
      if name in m {
        BumpKeepsMap(m[name], after[name], outs, o, utxos, ByName(name));
      } else if name in after {
        assert IsMap(map[], outs, utxos, ByName(name)) by {
          NotHeld(outs, utxos, ByName(name));
        }
        BumpKeepsMap(map[], after[name], outs, o, utxos, ByName(name));
      }
    }
  }

  /** The step of the scan at output `j` of transaction `i`. */
  lemma BumpSeen(txs: seq<seq<Option<WalletOutput>>>, i: nat, j: nat, m: map<string, map<Key, (nat, nat)>>,
                 after: map<string, map<Key, (nat, nat)>>, utxos: set<OutPoint>)
    requires i < |txs| && j < |txs[i]| && IsMapByAsset(m, Seen(txs, i, j), utxos)
    requires txs[i][j].None? ==> after == m
    requires txs[i][j].Some? ==>
      var o := txs[i][j].value;
      after == m[Hex(o.asset) := Bump(if Hex(o.asset) in m then m[Hex(o.asset)] else map[], o, utxos)]
    ensures IsMapByAsset(after, Seen(txs, i, j + 1), utxos)
  {
    SeenNext(txs, i, j);
    if txs[i][j].Some? {
      BumpKeepsMapByAsset(m, after, Seen(txs, i, j), txs[i][j].value, utxos);
    }
  }

  lemma NotHeld(outs: seq<WalletOutput>, utxos: set<OutPoint>, slice: Slice)
    requires !Holds(outs, slice)
    ensures IsMap(map[], outs, utxos, slice)
  {
    forall at ensures EntryOk(map[], outs, utxos, slice, at) {
      assert !Paid(outs, slice, at);
    }
  }

  ghost predicate Gathered(m: map<string, AssetActivity>, policy: Asset, outs: seq<WalletOutput>,
                           utxos: set<OutPoint>, at: Key)
  {
    forall name {:trigger GatheredOne(m, policy, outs, utxos, at, name)} ::
      GatheredOne(m, policy, outs, utxos, at, name)
  }

  predicate GatheredOne(m: map<string, AssetActivity>, policy: Asset, outs: seq<WalletOutput>,
                        utxos: set<OutPoint>, at: Key, name: string)
  {
    && (name in m <==> Paid(outs, ByName(name), at))
    && (name in m ==> m[name].assetId == name && IsAssetActivity(m[name], policy, outs, utxos, at))
  }

  function Credit(a: Activity, o: WalletOutput, utxos: set<OutPoint>): Activity {
    Activity(
      SaturatingAdd(a.received, o.value),
      if o.outpoint in utxos then SaturatingAdd(a.unspent, o.value) else a.unspent,
      a.receipts + [ReceiptOf(o, utxos)])
  }

  lemma CreditKeepsActivity(a: Activity, outs: seq<WalletOutput>, o: WalletOutput, utxos: set<OutPoint>,
                            slice: Slice, at: Key)
    requires IsActivity(a, outs, utxos, slice, at)
    ensures IsActivity(if PaysTo(o, slice, at) then Credit(a, o, utxos) else a, outs + [o], utxos, slice, at)
  {
    OneMore(outs, o, utxos, slice, at);
    CapAdds(Received(outs, slice, at), o.value);
    CapAdds(Unspent(outs, utxos, slice, at), o.value);
  }

  lemma CreditSeen(txs: seq<seq<Option<WalletOutput>>>, i: nat, j: nat, a: Activity, after: Activity,
                   utxos: set<OutPoint>, slice: Slice, at: Key)
    requires i < |txs| && j < |txs[i]| && IsActivity(a, Seen(txs, i, j), utxos, slice, at)
    requires after == if txs[i][j].Some? && PaysTo(txs[i][j].value, slice, at) then Credit(a, txs[i][j].value, utxos) else a
    ensures IsActivity(after, Seen(txs, i, j + 1), utxos, slice, at)
  {
    SeenNext(txs, i, j);
    if txs[i][j].Some? {
      CreditKeepsActivity(a, Seen(txs, i, j), txs[i][j].value, utxos, slice, at);
    }
  }

  function Gather(m: map<string, AssetActivity>, o: WalletOutput, policy: Asset, utxos: set<OutPoint>):
    map<string, AssetActivity>
  {
    var name := Hex(o.asset);
    var slot := if name in m then m[name] else AssetActivity(name, o.asset == policy, Activity(0, 0, []));
    m[name := slot.(activity := Credit(slot.activity, o, utxos))]
  }

  lemma GatherSeen(txs: seq<seq<Option<WalletOutput>>>, i: nat, j: nat, m: map<string, AssetActivity>,
                   after: map<string, AssetActivity>, policy: Asset, utxos: set<OutPoint>, at: Key)
    requires i < |txs| && j < |txs[i]| && Gathered(m, policy, Seen(txs, i, j), utxos, at)
    requires after == if txs[i][j].Some? && KeyOf(txs[i][j].value) == at then Gather(m, txs[i][j].value, policy, utxos) else m
    ensures Gathered(after, policy, Seen(txs, i, j + 1), utxos, at)
  {
    SeenNext(txs, i, j);
    if txs[i][j].Some? {
      GatherOne(m, after, policy, Seen(txs, i, j), txs[i][j].value, utxos, at);
    }
  }

  lemma GatherOne(m: map<string, AssetActivity>, after: map<string, AssetActivity>, policy: Asset,
                  outs: seq<WalletOutput>, o: WalletOutput, utxos: set<OutPoint>, at: Key)
    requires Gathered(m, policy, outs, utxos, at)
    requires after == if KeyOf(o) == at then Gather(m, o, policy, utxos) else m
    ensures Gathered(after, policy, outs + [o], utxos, at)
  {
    forall name ensures GatheredOne(after, policy, outs + [o], utxos, at, name) {
      assert GatheredOne(m, policy, outs, utxos, at, name);
      OneMore(outs, o, utxos, ByName(name), at);
      if name in m {
        CreditKeepsActivity(m[name].activity, outs, o, utxos, ByName(name), at);
      } else if name in after {
        NothingPaid(outs, utxos, ByName(name), at);
        CreditKeepsActivity(Activity(0, 0, []), outs, o, utxos, ByName(name), at);
        if Hex(o.asset) == Hex(policy) {
          HexInjective(o.asset, policy);
        }
      }
    }
  }

  /** A map entry under its own name. */
  predicate Entry(m: map<string, AssetActivity>, x: AssetActivity) {
    x.assetId in m && m[x.assetId] == x
  }

  /** From the second one on in ascending order, none of them the policy asset. */
  predicate AscendsAfterPolicy(names: seq<string>, policyHex: string) {
    && (forall i :: 0 < i < |names| ==> names[i] != policyHex)
    && (forall i, j :: 0 <= i < j < |names| && names[i] != policyHex ==> TextLe(names[i], names[j]))
  }

  /** The names in ascending order, as an ordered map keeps them. */
  method Ascending(all: set<string>) returns (names: seq<string>)
    ensures forall name :: name in names <==> name in all
    ensures forall i, j :: 0 <= i < j < |names| ==> names[i] != names[j] && TextLe(names[i], names[j])
  {
    names := [];
    var rest := all;
    while rest != {}
      invariant rest <= all
      invariant forall name :: name in names <==> name in all - rest
      invariant forall i :: 0 <= i < |names| ==> Below(names[i], rest)
      invariant forall i, j :: 0 <= i < j < |names| ==> names[i] != names[j] && TextLe(names[i], names[j])
      decreases |rest|
    {
      ghost var least := SomeLeast(rest);
      var name :| name in rest && LeastIn(rest, name);
      assert LeastIn(rest, name) && name !in names;
      names, rest := names + [name], rest - {name};
    }
  }

  /** The names of the map, each once, the policy asset's first. */
  method NamesPolicyFirst(all: set<string>, policyHex: string) returns (names: seq<string>)
    ensures forall name :: name in names <==> name in all
    ensures forall i, j :: 0 <= i < j < |names| ==> names[i] != names[j]
    ensures AscendsAfterPolicy(names, policyHex)
  {
    var others := Ascending(all - {policyHex});
    names := if policyHex in all then [policyHex] + others else others;
    assert forall i :: 0 <= i < |others| ==> others[i] in all - {policyHex};
  }

  function NamesOf(list: seq<AssetActivity>): (names: seq<string>)
    ensures |names| == |list| && forall i :: 0 <= i < |list| ==> names[i] == list[i].assetId
  {
    seq(|list|, i requires 0 <= i < |list| => list[i].assetId)
  }

  /** The values of the map, the policy asset's first, the others by ascending name. */
  method PolicyFirst(m: map<string, AssetActivity>, policy: Asset) returns (list: seq<AssetActivity>)
    requires Named(m, policy)
    ensures forall x :: x in list <==> Entry(m, x)
    ensures forall i, j :: 0 <= i < j < |list| ==> list[i].assetId != list[j].assetId
    ensures AscendsAfterPolicy(NamesOf(list), Hex(policy))
  {
    var names := NamesPolicyFirst(m.Keys, Hex(policy));
    list := seq(|names|, i requires 0 <= i < |names| => m[names[i]]);
    assert NamesOf(list) == names;
    forall x | Entry(m, x) ensures x in list {
      var i :| 0 <= i < |names| && names[i] == x.assetId;
      assert list[i] == x;
    }
  }

  // ----- agreement -----

  lemma {:induction false} NamesAgree(outs: seq<WalletOutput>, utxos: set<OutPoint>, asset: Asset, at: Key)
    ensures Received(outs, ById(asset), at) == Received(outs, ByName(Hex(asset)), at)
    ensures Unspent(outs, utxos, ById(asset), at) == Unspent(outs, utxos, ByName(Hex(asset)), at)
    ensures Receipts(outs, utxos, ById(asset), at) == Receipts(outs, utxos, ByName(Hex(asset)), at)
    ensures Paid(outs, ById(asset), at) <==> Paid(outs, ByName(Hex(asset)), at)
  {
    if outs != [] {
      var init, last := outs[..|outs| - 1], outs[|outs| - 1];
      NamesAgree(init, utxos, asset, at);
      if Hex(last.asset) == Hex(asset) {
        HexInjective(last.asset, asset);
      }
      assert outs == init + [last];
      OneMore(init, last, utxos, ById(asset), at);
      OneMore(init, last, utxos, ByName(Hex(asset)), at);
    }
  }

  /** Whatever the four scans return for one history, they agree: the map and the policy slice of
      the per-asset map are equal, and both single-address scans equal the map's entry, where a
      missing entry means zero. */
  lemma ScansAgree(outs: seq<WalletOutput>, utxos: set<OutPoint>, policy: Asset, at: Key,
                   a: Activity, m: map<Key, (nat, nat)>, byAsset: map<string, map<Key, (nat, nat)>>, x: AssetActivity)
    requires IsActivity(a, outs, utxos, ById(policy), at)
    requires IsMap(m, outs, utxos, ById(policy))
    requires IsMapByAsset(byAsset, outs, utxos)
    requires IsAssetActivity(x, policy, outs, utxos, at) && Paid(outs, ByName(x.assetId), at)
    ensures (a.received, a.unspent) == (if at in m then m[at] else (0, 0))
    ensures m == (if Hex(policy) in byAsset then byAsset[Hex(policy)] else map[])
    ensures x.isPolicy ==> x.activity == a
    ensures x.assetId in byAsset && at in byAsset[x.assetId]
    ensures (x.activity.received, x.activity.unspent) == byAsset[x.assetId][at]
    ensures a.unspent <= a.received
  {
    UnspentAtMostReceived(outs, utxos, ById(policy), at);
    NamesAgree(outs, utxos, policy, at);
    assert EntryOk(m, outs, utxos, ById(policy), at);
    if at !in m {
      NothingPaid(outs, utxos, ById(policy), at);
    }
    PolicySlice(outs, utxos, policy, m, byAsset);
    assert AssetOk(byAsset, outs, utxos, x.assetId);
    assert Holds(outs, ByName(x.assetId));
    assert EntryOk(byAsset[x.assetId], outs, utxos, ByName(x.assetId), at);
  }

  lemma PolicySlice(outs: seq<WalletOutput>, utxos: set<OutPoint>, policy: Asset,
                    m: map<Key, (nat, nat)>, byAsset: map<string, map<Key, (nat, nat)>>)
    requires IsMap(m, outs, utxos, ById(policy)) && IsMapByAsset(byAsset, outs, utxos)
    ensures m == (if Hex(policy) in byAsset then byAsset[Hex(policy)] else map[])
  {
    var name := Hex(policy);
    assert AssetOk(byAsset, outs, utxos, name);
    if name !in byAsset {
      NotHeld(outs, utxos, ByName(name));
    }
    var slice := if name in byAsset then byAsset[name] else map[];
    forall k ensures (k in m <==> k in slice) && (k in m ==> m[k] == slice[k]) {
      NamesAgree(outs, utxos, policy, k);
      assert EntryOk(m, outs, utxos, ById(policy), k) && EntryOk(slice, outs, utxos, ByName(name), k);
    }
  }
}
