/** The txids that rows record as text, and which row a pass latches or reverts by them. */
module SweepTexts {
  import opened Wrappers
  import opened Primitives
  import opened Texts
  import opened Schema
  import opened Transitions
  import opened Reconcile

  // ----- printing and parsing -----

  function Power16(n: nat): (p: nat)
    ensures p > 0
  {
    if n == 0 then 1 else 16 * Power16(n - 1)
  }

  /** The last `n` hexadecimal digits of a number, lower case. */
  function HexDigits(t: nat, n: nat): (s: string)
    ensures |s| == n && forall i :: 0 <= i < n ==> IsHexLower(s[i])
  {
    if n == 0 then "" else HexDigits(t / 16, n - 1) + [HexChar(t % 16)]
  }

  function PrintTxid(t: Txid): string {
    HexDigits(t, 64)
  }

  lemma {:induction false} DigitsRead(t: nat, n: nat)
    requires t < Power16(n)
    ensures HexValue(HexDigits(t, n)) == t
  {
    if n > 0 {
      DigitsRead(t / 16, n - 1);
      assert HexDigits(t, n)[..n - 1] == HexDigits(t / 16, n - 1);
    }
  }

  /** A printed txid parses to itself, for every number of 64 digits. */
  lemma TxidRoundTrip(t: Txid)
    requires t < Power16(64)
    ensures ParseTxid(PrintTxid(t)) == Some(t)
  {
    DigitsRead(t, 64);
  }

  lemma {:induction false} ValueBelow(s: string)
    requires forall c :: c in s ==> IsHexDigit(c)
    ensures HexValue(s) < Power16(|s|)
  {
    if s != [] {
      ValueBelow(s[..|s| - 1]);
    }
  }

  /** Same digits, case aside. */
  lemma SameDigit(c: char, d: char)
    requires IsHexDigit(c) && IsHexDigit(d)
    ensures HexDigit(c) == HexDigit(d) <==> LowerChar(c) == LowerChar(d)
  {
  }

  lemma {:induction false} SameValueIff(a: string, b: string)
    requires |a| == |b| && (forall c :: c in a ==> IsHexDigit(c)) && (forall c :: c in b ==> IsHexDigit(c))
    ensures HexValue(a) == HexValue(b) <==> Lower(a) == Lower(b)
  {
    if a != [] {
      var x, y := a[..|a| - 1], b[..|b| - 1];
      SameValueIff(x, y);
      SameDigit(a[|a| - 1], b[|b| - 1]);
      assert Lower(a) == Lower(x) + [LowerChar(a[|a| - 1])];
      assert Lower(b) == Lower(y) + [LowerChar(b[|b| - 1])];
    }
  }

  /** A text is accepted exactly if it has 64 hexadecimal digits, it names a number of that size, and
      two accepted texts name the same transaction if and only if they differ in case only. */
  lemma SameTxidIff(a: string, b: string)
    ensures ParseTxid(a).Some? <==> |a| == 64 && forall i :: 0 <= i < 64 ==> IsHexDigit(a[i])
    ensures ParseTxid(a).Some? ==> ParseTxid(a).value < Power16(64) && Lower(a) == PrintTxid(ParseTxid(a).value)
    ensures ParseTxid(a).Some? && ParseTxid(b).Some? ==> (ParseTxid(a) == ParseTxid(b) <==> Lower(a) == Lower(b))
  {
    if ParseTxid(a).Some? {
      AcceptedIsPrinted(a);
      if ParseTxid(b).Some? {
        SameValueIff(a, b);
      }
    }
  }

  lemma AcceptedIsPrinted(a: string)
    requires ParseTxid(a).Some?
    ensures ParseTxid(a).value < Power16(64) && Lower(a) == PrintTxid(ParseTxid(a).value)
  {
    DigitsArePrinted(a);
  }

  lemma DigitsArePrinted(a: string)
    requires forall c :: c in a ==> IsHexDigit(c)
    ensures HexValue(a) < Power16(|a|) && Lower(a) == HexDigits(HexValue(a), |a|)
  {
    var printed := HexDigits(HexValue(a), |a|);
    ValueBelow(a);
    DigitsRead(HexValue(a), |a|);
    SameValueIff(a, printed);
    assert Lower(printed) == printed;
  }

  // ----- what the wallets show -----

  /** A wallet confirms a transaction if and only if it lists it with a height, and at one it lists. */
  lemma {:induction false} ConfirmedAsListed(txs: seq<WalletTx>, t: Txid)
    ensures t in ConfirmedOf(txs) <==> exists x :: x in txs && x.txid == t && x.height.Some?
    ensures t in ConfirmedOf(txs) ==> WalletTx(t, Some(ConfirmedOf(txs)[t])) in txs
  {
    if txs != [] {
      var init, last := txs[..|txs| - 1], txs[|txs| - 1];
      ConfirmedAsListed(init, t);
      assert txs == init + [last];
    }
  }

  /** Wallet `i` is the first in listing order that shows `t`. */
  predicate FirstShows(wallets: seq<map<Txid, nat>>, t: Txid, i: nat) {
    i < |wallets| && t in wallets[i] && forall j :: 0 <= j < i ==> t !in wallets[j]
  }

  /** The height of a transaction is the one the first wallet shows that shows it. */
  lemma {:induction false} UnionTakesFirst(wallets: seq<map<Txid, nat>>, t: Txid)
    ensures t in ConfirmedUnion(wallets) <==> exists i :: 0 <= i < |wallets| && t in wallets[i]
    ensures forall i: nat :: FirstShows(wallets, t, i) ==> t in ConfirmedUnion(wallets) && ConfirmedUnion(wallets)[t] == wallets[i][t]
  {
    if wallets != [] {
      var rest := wallets[1..];
      UnionTakesFirst(rest, t);
      if i :| 0 <= i < |wallets| && t in wallets[i] {
        assert i > 0 ==> rest[i - 1] == wallets[i];
      }
      forall i: nat | FirstShows(wallets, t, i)
        ensures t in ConfirmedUnion(wallets) && ConfirmedUnion(wallets)[t] == wallets[i][t]
      {
        if i > 0 {
          assert forall j :: 0 <= j < i - 1 ==> rest[j] == wallets[j + 1];
          assert FirstShows(rest, t, i - 1);
        }
      }
    }
  }

  // ----- one pass -----

  /** The row records this text for a sweep that is complete and at no height yet. */
  predicate Records(row: VersionRow, lineage: VersionId, text: string) {
    row.lineage == lineage && row.sweepStatus == Complete && row.sweepTxid == Some(text) && row.sweepHeight == None
  }

  /** A pass latches a recorded sweep at the height of the first wallet that confirms it, cut to the
      32-bit column, and leaves it alone if none does. */
  lemma LatchedAtFirstHeight(versions: map<VersionId, VersionRow>, lineage: VersionId, v: VersionId,
                             text: string, t: Txid, wallets: seq<map<Txid, nat>>)
    requires v in versions && Records(versions[v], lineage, text) && ParseTxid(text) == Some(t)
    ensures
      var after := ReconcileRows(versions, lineage, ConfirmedUnion(wallets));
      && v in after
      && (forall i: nat :: FirstShows(wallets, t, i) ==>
            after[v] == versions[v].(sweepHeight := Some(if wallets[i][t] <= 0x7FFF_FFFF then wallets[i][t] else 0x7FFF_FFFF)))
      && ((forall i :: 0 <= i < |wallets| ==> t !in wallets[i]) ==> after[v] == versions[v])
  {
    UnionTakesFirst(wallets, t);
  }

  /** Two rows with different recorded texts, and wallets that show only the second one's sweep: the
      pass latches the second and not the first. */
  lemma OnlyItsOwnSweepLatches(versions: map<VersionId, VersionRow>, lineage: VersionId, v: VersionId, w: VersionId,
                               a: string, b: string, height: nat)
    requires v in versions && w in versions && Records(versions[v], lineage, a) && Records(versions[w], lineage, b)
    requires ParseTxid(a).Some? && ParseTxid(b).Some? && Lower(a) != Lower(b) && height <= 0x7FFF_FFFF
    ensures
      var after := ReconcileRows(versions, lineage, ConfirmedUnion([map[ParseTxid(b).value := height]]));
      && v in after && after[v] == versions[v]
      && w in after && after[w] == versions[w].(sweepHeight := Some(height))
  {
    var wallets := [map[ParseTxid(b).value := height]];
    SameTxidIff(a, b);
    assert FirstShows(wallets, ParseTxid(b).value, 0);
    LatchedAtFirstHeight(versions, lineage, v, a, ParseTxid(a).value, wallets);
    LatchedAtFirstHeight(versions, lineage, w, b, ParseTxid(b).value, wallets);
  }

  /** So for two texts that end alike. */
  lemma SameLastDigitIsNotEnough(versions: map<VersionId, VersionRow>, lineage: VersionId, v: VersionId, w: VersionId)
    requires v in versions && w in versions
    requires Records(versions[v], lineage, HexDigits(0, 62) + "0a") && Records(versions[w], lineage, HexDigits(0, 62) + "1a")
    ensures
      var after := ReconcileRows(versions, lineage, ConfirmedUnion([map[26 := 100]]));
      && ParseTxid(HexDigits(0, 62) + "0a") == Some(10) && ParseTxid(HexDigits(0, 62) + "1a") == Some(26)
      && v in after && after[v].sweepHeight == None && w in after && after[w].sweepHeight == Some(100)
  {
    var a, b := HexDigits(0, 62) + "0a", HexDigits(0, 62) + "1a";
    TwoMoreDigits('0', 'a');
    TwoMoreDigits('1', 'a');
    assert Lower(a)[62] == '0' && Lower(b)[62] == '1';
    OnlyItsOwnSweepLatches(versions, lineage, v, w, a, b, 100);
  }

  lemma ValueSnoc(s: string, c: char)
    requires (forall d :: d in s ==> IsHexDigit(d)) && IsHexDigit(c)
    ensures forall d :: d in s + [c] ==> IsHexDigit(d)
    ensures HexValue(s + [c]) == 16 * HexValue(s) + HexDigit(c)
  {
    assert (s + [c])[..|s|] == s;
  }

  lemma ValueOfTwoMore(s: string, c: char, d: char)
    requires (forall e :: e in s ==> IsHexDigit(e)) && IsHexDigit(c) && IsHexDigit(d)
    ensures forall e :: e in s + [c, d] ==> IsHexDigit(e)
    ensures HexValue(s + [c, d]) == 16 * (16 * HexValue(s) + HexDigit(c)) + HexDigit(d)
  {
    ValueSnoc(s, c);
    ValueSnoc(s + [c], d);
    assert s + [c] + [d] == s + [c, d];
  }

  lemma ParsesTo(s: string, t: Txid)
    requires |s| == 64 && (forall c :: c in s ==> IsHexDigit(c)) && HexValue(s) == t
    ensures ParseTxid(s) == Some(t)
  {
  }

  lemma TwoMoreDigits(c: char, d: char)
    requires IsHexLower(c) && IsHexLower(d)
    ensures ParseTxid(HexDigits(0, 62) + [c, d]) == Some(16 * HexDigit(c) + HexDigit(d))
  {
    DigitsRead(0, 62);
    ValueOfTwoMore(HexDigits(0, 62), c, d);
    ParsesTo(HexDigits(0, 62) + [c, d], 16 * HexDigit(c) + HexDigit(d));
  }
}
