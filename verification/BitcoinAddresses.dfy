/** Received and unspent totals per Bitcoin address: a one-pass index map for funded addresses
    and a scan per revealed address, over the same wallet outputs. */
module BitcoinAddresses {
  import opened ChangeSets

  type Slot = (Keychain, nat)

  datatype LocalOutput = LocalOutput(value: nat, script: Script, isSpent: bool)

  datatype AddressRow = AddressRow(index: nat, keychain: Keychain, script: Script, received: nat, unspent: nat)

  // ----- true sums, by script and by derivation slot -----

  function Paid(o: LocalOutput, unspentOnly: bool): nat {
    if unspentOnly && o.isSpent then 0 else o.value
  }

  function SumByScript(outs: seq<LocalOutput>, script: Script, unspentOnly: bool): nat {
    if outs == [] then 0
    else
      var last := outs[|outs| - 1];
      SumByScript(outs[..|outs| - 1], script, unspentOnly) + (if last.script == script then Paid(last, unspentOnly) else 0)
  }

  predicate AtSlot(o: LocalOutput, spks: map<Script, Slot>, at: Slot) {
    o.script in spks && spks[o.script] == at
  }

  function SumBySlot(outs: seq<LocalOutput>, spks: map<Script, Slot>, at: Slot, unspentOnly: bool): nat {
    if outs == [] then 0
    else
      var last := outs[|outs| - 1];
      SumBySlot(outs[..|outs| - 1], spks, at, unspentOnly) + (if AtSlot(last, spks, at) then Paid(last, unspentOnly) else 0)
  }

  predicate Used(outs: seq<LocalOutput>, spks: map<Script, Slot>, at: Slot) {
    exists o :: o in outs && AtSlot(o, spks, at)
  }

  function Total(outs: seq<LocalOutput>, unspentOnly: bool): nat {
    if outs == [] then 0 else Total(outs[..|outs| - 1], unspentOnly) + Paid(outs[|outs| - 1], unspentOnly)
  }

  lemma OneMore(outs: seq<LocalOutput>, o: LocalOutput, spks: map<Script, Slot>, at: Slot, unspentOnly: bool)
    ensures SumBySlot(outs + [o], spks, at, unspentOnly) ==
      SumBySlot(outs, spks, at, unspentOnly) + (if AtSlot(o, spks, at) then Paid(o, unspentOnly) else 0)
    ensures Used(outs + [o], spks, at) <==> Used(outs, spks, at) || AtSlot(o, spks, at)
  {
    assert (outs + [o])[..|outs|] == outs;
    assert forall x :: x in outs + [o] <==> x in outs || x == o;
  }

  /** A single output counts with its value at the slot its script was derived for, and nowhere else;
      as unspent only while it is not spent. */
  lemma OneOutput(o: LocalOutput, spks: map<Script, Slot>, at: Slot)
    ensures
      var here := o.script in spks && spks[o.script] == at;
      && SumBySlot([o], spks, at, false) == (if here then o.value else 0)
      && SumBySlot([o], spks, at, true) == (if here && !o.isSpent then o.value else 0)
  {
    assert [o][..0] == [];
  }

  /** Totals of two lists add up. */
  lemma {:induction false} SumsAdd(a: seq<LocalOutput>, b: seq<LocalOutput>, spks: map<Script, Slot>, at: Slot,
                                   unspentOnly: bool)
    ensures SumBySlot(a + b, spks, at, unspentOnly) ==
      SumBySlot(a, spks, at, unspentOnly) + SumBySlot(b, spks, at, unspentOnly)
    decreases |b|
  {
    if b == [] {
      assert a + b == a;
    } else {
      var init, last := b[..|b| - 1], b[|b| - 1];
      SumsAdd(a, init, spks, at, unspentOnly);
      assert a + b == (a + init) + [last] && b == init + [last];
      OneMore(a + init, last, spks, at, unspentOnly);
    }
  }

  lemma {:induction false} UnusedIsZero(outs: seq<LocalOutput>, spks: map<Script, Slot>, at: Slot, unspentOnly: bool)
    requires !Used(outs, spks, at)
    ensures SumBySlot(outs, spks, at, unspentOnly) == 0
  {
    if outs != [] {
      assert outs[|outs| - 1] in outs;
      assert forall o :: o in outs[..|outs| - 1] ==> o in outs;
      UnusedIsZero(outs[..|outs| - 1], spks, at, unspentOnly);
    }
  }

  // ----- the wallet -----

  /** One row per used index of a keychain, by ascending index. */
  ghost predicate IsFundedList(rows: seq<AddressRow>, outs: seq<LocalOutput>, spks: map<Script, Slot>,
                               derive: Slot -> Script, keychain: Keychain)
  {
    && (forall j :: 0 <= j < |rows| ==> RowOk(rows[j], outs, spks, derive, keychain))
    && (forall i, j :: 0 <= i < j < |rows| ==> rows[i].index < rows[j].index)
    && (forall i {:trigger Used(outs, spks, (keychain, i))} ::
          Used(outs, spks, (keychain, i)) ==> Lists(rows, i))
  }

  predicate Lists(rows: seq<AddressRow>, i: nat) {
    exists j :: 0 <= j < |rows| && rows[j].index == i
  }

  lemma ListsMore(rows: seq<AddressRow>, row: AddressRow, i: nat)
    ensures Lists(rows + [row], i) <==> Lists(rows, i) || row.index == i
  {
    if Lists(rows, i) {
      var j :| 0 <= j < |rows| && rows[j].index == i;
      assert (rows + [row])[j].index == i;
    } else if row.index == i {
      assert (rows + [row])[|rows|].index == i;
    }
  }

  predicate RowOk(row: AddressRow, outs: seq<LocalOutput>, spks: map<Script, Slot>, derive: Slot -> Script, keychain: Keychain) {
    && Used(outs, spks, (keychain, row.index))
    && row == AddressRow(row.index, keychain, derive((keychain, row.index)),
                         SumBySlot(outs, spks, (keychain, row.index), false),
                         SumBySlot(outs, spks, (keychain, row.index), true))
  }

  ghost predicate IsIndexMap(seen: map<nat, (nat, nat)>, outs: seq<LocalOutput>, spks: map<Script, Slot>, keychain: Keychain) {
    forall i {:trigger IndexOk(seen, outs, spks, keychain, i)} :: IndexOk(seen, outs, spks, keychain, i)
  }

  predicate IndexOk(seen: map<nat, (nat, nat)>, outs: seq<LocalOutput>, spks: map<Script, Slot>, keychain: Keychain, i: nat) {
    && (i in seen <==> Used(outs, spks, (keychain, i)))
    && (i in seen ==> seen[i] == (SumBySlot(outs, spks, (keychain, i), false), SumBySlot(outs, spks, (keychain, i), true)))
  }

  function Enter(seen: map<nat, (nat, nat)>, i: nat, o: LocalOutput): map<nat, (nat, nat)> {
    var entry := if i in seen then seen[i] else (0, 0);
    seen[i := (entry.0 + o.value, if o.isSpent then entry.1 else entry.1 + o.value)]
  }

  lemma EnterKeepsIndexMap(seen: map<nat, (nat, nat)>, after: map<nat, (nat, nat)>, outs: seq<LocalOutput>,
                           o: LocalOutput, spks: map<Script, Slot>, keychain: Keychain)
    requires IsIndexMap(seen, outs, spks, keychain)
    requires after == if o.script in spks && spks[o.script].0 == keychain then Enter(seen, spks[o.script].1, o) else seen
    ensures IsIndexMap(after, outs + [o], spks, keychain)
  {
    forall i ensures IndexOk(after, outs + [o], spks, keychain, i) {
      assert IndexOk(seen, outs, spks, keychain, i);
      OneMore(outs, o, spks, (keychain, i), false);
      OneMore(outs, o, spks, (keychain, i), true);
      if i !in seen {
        UnusedIsZero(outs, spks, (keychain, i), false);
        UnusedIsZero(outs, spks, (keychain, i), true);
      }
    }
  }

  predicate IsLeast(s: set<nat>, i: nat) {
    i in s && forall j :: j in s ==> i <= j
  }

  lemma {:induction false} HasLeast(s: set<nat>)
    requires s != {}
    ensures exists i :: IsLeast(s, i)
    decreases |s|
  {
    var x :| x in s;
    var rest := s - {x};
    assert s == rest + {x};
    if rest == {} {
      assert IsLeast(s, x);
    } else {
      HasLeast(rest);
      var i :| IsLeast(rest, i);
      assert IsLeast(s, if i <= x then i else x);
    }
  }

  class BitcoinWallet {
    /** The address of every derivation slot, and the index of the scripts the wallet watches. */
    const derive: Slot -> Script
    var spks: map<Script, Slot>
    var outputs: seq<LocalOutput>

    constructor (derive: Slot -> Script, spks: map<Script, Slot>, outputs: seq<LocalOutput>)
      ensures this.derive == derive && this.spks == spks && this.outputs == outputs
    {
      this.derive, this.spks, this.outputs := derive, spks, outputs;
    }

    /** `funded_addresses`, and for the internal keychain `change_addresses`. */
    method FundedAddresses(keychain: Keychain) returns (rows: seq<AddressRow>)
      ensures IsFundedList(rows, outputs, spks, derive, keychain)
    {
      var seen := map[];
      for n := 0 to |outputs|
        invariant IsIndexMap(seen, outputs[..n], spks, keychain)
      {
        var o := outputs[n];
        ghost var before := seen;
        if o.script in spks && spks[o.script].0 == keychain {
          seen := Enter(seen, spks[o.script].1, o);
        }
        EnterKeepsIndexMap(before, seen, outputs[..n], o, spks, keychain);
        assert outputs[..n + 1] == outputs[..n] + [o];
      }
      assert outputs[..|outputs|] == outputs;
      rows := RowsOf(seen, keychain);
    }

    method RowsOf(seen: map<nat, (nat, nat)>, keychain: Keychain) returns (rows: seq<AddressRow>)
      requires IsIndexMap(seen, outputs, spks, keychain)
      ensures IsFundedList(rows, outputs, spks, derive, keychain)
    {
      rows := [];
      var rest := seen.Keys;
      while rest != {}
        invariant rest <= seen.Keys
        invariant forall j :: 0 <= j < |rows| ==> RowOk(rows[j], outputs, spks, derive, keychain)
        invariant forall i, j :: 0 <= i < j < |rows| ==> rows[i].index < rows[j].index
        invariant forall j, i :: 0 <= j < |rows| && i in rest ==> rows[j].index < i
        invariant forall i {:trigger Lists(rows, i)} :: i in seen && i !in rest ==> Lists(rows, i)
        decreases |rest|
      {
        HasLeast(rest);
        var i: nat :| IsLeast(rest, i);
        assert IndexOk(seen, outputs, spks, keychain, i);
        var row := AddressRow(i, keychain, derive((keychain, i)), seen[i].0, seen[i].1);
        forall k | k in seen && k !in rest - {i} ensures Lists(rows + [row], k) {
          ListsMore(rows, row, k);
        }
        rows, rest := rows + [row], rest - {i};
      }
      forall i | Used(outputs, spks, (keychain, i)) ensures Lists(rows, i) {
        assert IndexOk(seen, outputs, spks, keychain, i);
      }
    }

    /** The first `count` external addresses, each with a scan of all outputs. */
    method RevealAddresses(count: nat) returns (rows: seq<AddressRow>)
      ensures |rows| == count
      ensures forall i :: 0 <= i < count ==>
        rows[i] == AddressRow(i, External, derive((External, i)),
                              SumByScript(outputs, derive((External, i)), false),
                              SumByScript(outputs, derive((External, i)), true))
    {
      rows := [];
      for i := 0 to count
        invariant |rows| == i
        invariant forall j :: 0 <= j < i ==>
          rows[j] == AddressRow(j, External, derive((External, j)),
                                SumByScript(outputs, derive((External, j)), false),
                                SumByScript(outputs, derive((External, j)), true))
      {
        var script := derive((External, i));
        var received, unspent := 0, 0;
        for n := 0 to |outputs|
          invariant received == SumByScript(outputs[..n], script, false)
          invariant unspent == SumByScript(outputs[..n], script, true)
        {
          assert outputs[..n + 1][..n] == outputs[..n];
          if outputs[n].script == script {
            received := received + outputs[n].value;
            if !outputs[n].isSpent {
              unspent := unspent + outputs[n].value;
            }
          }
        }
        assert outputs[..|outputs|] == outputs;
        rows := rows + [AddressRow(i, External, script, received, unspent)];
      }
    }
  }

  // ----- the two agree, and nothing is lost -----

  /** Different slots derive different addresses, and the index inverts the derivation. */
  ghost predicate SoundIndex(derive: Slot -> Script, spks: map<Script, Slot>) {
    && (forall a, b :: derive(a) == derive(b) ==> a == b)
    && (forall s :: s in spks ==> derive(spks[s]) == s)
  }

  /** A wallet lists only outputs it watches. */
  predicate AllWatched(outs: seq<LocalOutput>, spks: map<Script, Slot>) {
    forall o :: o in outs ==> o.script in spks
  }

  lemma {:induction false} SlotSumIsScriptSum(outs: seq<LocalOutput>, derive: Slot -> Script, spks: map<Script, Slot>,
                                              at: Slot, unspentOnly: bool)
    requires SoundIndex(derive, spks) && AllWatched(outs, spks)
    ensures SumBySlot(outs, spks, at, unspentOnly) == SumByScript(outs, derive(at), unspentOnly)
  {
    if outs != [] {
      var init, last := outs[..|outs| - 1], outs[|outs| - 1];
      assert last in outs && forall o :: o in init ==> o in outs;
      SlotSumIsScriptSum(init, derive, spks, at, unspentOnly);
      assert AtSlot(last, spks, at) <==> last.script == derive(at);
    }
  }

  /** The funded list and the address scan show the same totals at every index, where an index
      missing from the list means that nothing was ever received there. */
  lemma FundedAgreesWithScan(rows: seq<AddressRow>, outs: seq<LocalOutput>, spks: map<Script, Slot>,
                             derive: Slot -> Script, keychain: Keychain, i: nat)
    requires SoundIndex(derive, spks) && AllWatched(outs, spks)
    requires IsFundedList(rows, outs, spks, derive, keychain)
    ensures
      var received, unspent :=
        SumByScript(outs, derive((keychain, i)), false), SumByScript(outs, derive((keychain, i)), true);
      && (forall row :: row in rows && row.index == i ==>
            row == AddressRow(i, keychain, derive((keychain, i)), received, unspent))
      && (!Lists(rows, i) ==> received == unspent == 0)
  {
    SlotSumIsScriptSum(outs, derive, spks, (keychain, i), false);
    SlotSumIsScriptSum(outs, derive, spks, (keychain, i), true);
    if !Used(outs, spks, (keychain, i)) {
      UnusedIsZero(outs, spks, (keychain, i), false);
      UnusedIsZero(outs, spks, (keychain, i), true);
    }
  }

  function SumRows(rows: seq<AddressRow>, unspentOnly: bool): nat {
    if rows == [] then 0
    else
      var last := rows[|rows| - 1];
      SumRows(rows[..|rows| - 1], unspentOnly) + (if unspentOnly then last.unspent else last.received)
  }

  function IndicesOf(rows: seq<AddressRow>): (indices: seq<nat>)
    ensures |indices| == |rows| && forall j :: 0 <= j < |rows| ==> indices[j] == rows[j].index
  {
    seq(|rows|, j requires 0 <= j < |rows| => rows[j].index)
  }

  function SumSlots(indices: seq<nat>, outs: seq<LocalOutput>, spks: map<Script, Slot>, keychain: Keychain,
                    unspentOnly: bool): nat
  {
    if indices == [] then 0
    else
      SumSlots(indices[..|indices| - 1], outs, spks, keychain, unspentOnly)
      + SumBySlot(outs, spks, (keychain, indices[|indices| - 1]), unspentOnly)
  }

  predicate Distinct(indices: seq<nat>) {
    forall i, j :: 0 <= i < j < |indices| ==> indices[i] != indices[j]
  }

  lemma {:induction false} NoOutputsNoSum(indices: seq<nat>, spks: map<Script, Slot>, keychain: Keychain, unspentOnly: bool)
    ensures SumSlots(indices, [], spks, keychain, unspentOnly) == 0
  {
    if indices != [] {
      NoOutputsNoSum(indices[..|indices| - 1], spks, keychain, unspentOnly);
    }
  }

  /** One more output counts once, under its own index. */
  lemma {:induction false} OneMoreSlot(indices: seq<nat>, outs: seq<LocalOutput>, o: LocalOutput, spks: map<Script, Slot>,
                                       keychain: Keychain, unspentOnly: bool)
    requires Distinct(indices)
    ensures SumSlots(indices, outs + [o], spks, keychain, unspentOnly) ==
      SumSlots(indices, outs, spks, keychain, unspentOnly)
      + (if o.script in spks && spks[o.script].0 == keychain && spks[o.script].1 in indices
         then Paid(o, unspentOnly) else 0)
  {
    if indices != [] {
      var init, last := indices[..|indices| - 1], indices[|indices| - 1];
      OneMoreSlot(init, outs, o, spks, keychain, unspentOnly);
      OneMore(outs, o, spks, (keychain, last), unspentOnly);
      assert indices == init + [last] && last !in init;
    }
  }

  lemma {:induction false} SlotsCoverTotal(outs: seq<LocalOutput>, spks: map<Script, Slot>, external: seq<nat>,
                                           internal: seq<nat>, unspentOnly: bool)
    requires Distinct(external) && Distinct(internal)
    requires forall o :: o in outs ==>
      o.script in spks && spks[o.script].1 in (if spks[o.script].0 == External then external else internal)
    ensures SumSlots(external, outs, spks, External, unspentOnly)
      + SumSlots(internal, outs, spks, Internal, unspentOnly) == Total(outs, unspentOnly)
  {
    if outs == [] {
      NoOutputsNoSum(external, spks, External, unspentOnly);
      NoOutputsNoSum(internal, spks, Internal, unspentOnly);
    } else {
      var init, last := outs[..|outs| - 1], outs[|outs| - 1];
      assert outs == init + [last] && last in outs;
      assert forall o :: o in init ==> o in outs;
      SlotsCoverTotal(init, spks, external, internal, unspentOnly);
      OneMoreSlot(external, init, last, spks, External, unspentOnly);
      OneMoreSlot(internal, init, last, spks, Internal, unspentOnly);
    }
  }

  lemma {:induction false} RowsSumTheirSlots(rows: seq<AddressRow>, outs: seq<LocalOutput>, spks: map<Script, Slot>,
                                             derive: Slot -> Script, keychain: Keychain, unspentOnly: bool)
    requires forall j :: 0 <= j < |rows| ==> RowOk(rows[j], outs, spks, derive, keychain)
    ensures SumRows(rows, unspentOnly) == SumSlots(IndicesOf(rows), outs, spks, keychain, unspentOnly)
  {
    if rows != [] {
      RowsSumTheirSlots(rows[..|rows| - 1], outs, spks, derive, keychain, unspentOnly);
      assert IndicesOf(rows)[..|rows| - 1] == IndicesOf(rows[..|rows| - 1]);
    }
  }

  lemma ListedIndex(o: LocalOutput, rows: seq<AddressRow>, outs: seq<LocalOutput>, spks: map<Script, Slot>,
                    derive: Slot -> Script)
    requires o in outs && o.script in spks && IsFundedList(rows, outs, spks, derive, spks[o.script].0)
    ensures spks[o.script].1 in IndicesOf(rows)
  {
    var at := spks[o.script];
    assert AtSlot(o, spks, at) && Used(outs, spks, (at.0, at.1));
    var j :| 0 <= j < |rows| && rows[j].index == at.1;
    assert IndicesOf(rows)[j] == at.1;
  }

  /** The two funded lists together account for every satoshi the wallet received, and for every
      satoshi it has left. */
  lemma FundedListsAccountForAll(external: seq<AddressRow>, internal: seq<AddressRow>, outs: seq<LocalOutput>,
                                 spks: map<Script, Slot>, derive: Slot -> Script, unspentOnly: bool)
    requires AllWatched(outs, spks)
    requires IsFundedList(external, outs, spks, derive, External)
    requires IsFundedList(internal, outs, spks, derive, Internal)
    ensures SumRows(external, unspentOnly) + SumRows(internal, unspentOnly) == Total(outs, unspentOnly)
  {
    RowsSumTheirSlots(external, outs, spks, derive, External, unspentOnly);
    RowsSumTheirSlots(internal, outs, spks, derive, Internal, unspentOnly);
    forall o | o in outs
      ensures spks[o.script].1 in (if spks[o.script].0 == External then IndicesOf(external) else IndicesOf(internal))
    {
      ListedIndex(o, if spks[o.script].0 == External then external else internal, outs, spks, derive);
    }
    SlotsCoverTotal(outs, spks, IndicesOf(external), IndicesOf(internal), unspentOnly);
  }
}
