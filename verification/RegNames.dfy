/** The names a multisig is registered under on a Jade and on a Ledger device. */
module RegNames {
  import opened Primitives
  import opened Texts

  const JADE_MAX: nat := 15
  const JADE_BASE_MAX: nat := 10
  const LEDGER_MAX: nat := 64

  predicate IsI32(n: int) {
    -I32_MAX - 1 <= n <= I32_MAX
  }

  function SaturatingNext(index: int): int {
    if index < I32_MAX then index + 1 else I32_MAX
  }

  function SaturatingSub(a: nat, b: nat): nat {
    if a < b then 0 else a - b
  }

  function Signed(n: int): (s: string)
    ensures s != ""
  {
    if n < 0 then "-" + Decimal(-n) else Decimal(n)
  }

  predicate IsAlphanumeric(c: char) {
    IsDigit(c) || 'a' <= c <= 'z' || 'A' <= c <= 'Z'
  }

  function Alphanumerics(name: string): (s: string)
    ensures forall i :: 0 <= i < |s| ==> IsAlphanumeric(s[i])
  {
    if name == "" then ""
    else if IsAlphanumeric(name[0]) then [name[0]] + Alphanumerics(name[1..])
    else Alphanumerics(name[1..])
  }

  function Take(s: string, n: nat): string {
    if |s| <= n then s else s[..n]
  }

  function Base(name: string, room: nat): (s: string)
    ensures s != "" && forall i :: 0 <= i < |s| ==> IsAlphanumeric(s[i])
  {
    var kept := Take(Alphanumerics(name), room);
    if kept == "" then "fed" else kept
  }

  function Versioned(name: string, version: int, room: nat): string {
    Base(name, room) + "-v" + Signed(version)
  }

  function JadeRoom(version: int): nat {
    var room := SaturatingSub(JADE_MAX, 2 + |Signed(version)|);
    if room < JADE_BASE_MAX then room else JADE_BASE_MAX
  }

  function LedgerRoom(version: int): nat {
    SaturatingSub(LEDGER_MAX, 2 + |Signed(version)|)
  }

  function JadeRegName(name: string, index: int): string
    requires IsI32(index)
  {
    Versioned(name, SaturatingNext(index), JadeRoom(SaturatingNext(index)))
  }

  function LedgerRegName(name: string, index: int): string
    requires IsI32(index)
  {
    var version := SaturatingNext(index);
    Versioned(name, version, LedgerRoom(version))
  }

  predicate IsAscii(s: string) {
    forall i :: 0 <= i < |s| ==> (s[i] as int) < 128
  }

  lemma VersionedIsAscii(name: string, version: int, room: nat)
    ensures IsAscii(Versioned(name, version, room))
  {
    var base, digits := Base(name, room), Signed(version);
    forall i | 0 <= i < |digits| ensures (digits[i] as int) < 128 {
      assert digits[i] == '-' || IsDigit(digits[i]);
    }
    var s := Versioned(name, version, room);
    forall i | 0 <= i < |s| ensures (s[i] as int) < 128 {
      assert s[i] == (if i < |base| then base[i] else if i < |base| + 2 then "-v"[i - |base|] else digits[i - |base| - 2]);
    }
  }

  /** A printed 32-bit number has at most ten digits, and a sign if it is negative. */
  lemma SignedLength(version: int)
    requires IsI32(version)
    ensures 1 <= |Signed(version)| <= 11
    ensures |Signed(version)| == 11 <==> version <= -1_000_000_000
  {
    var n: nat := if version < 0 then -version else version;
    DecimalLength(n, 10);
    DecimalLength(n, 9);
    assert Power10(9) == 1_000_000_000 && Power10(10) == 10_000_000_000;
  }

  /** A Jade name is ASCII and not empty. It fits the device's 15 characters for every label,
      except that a very negative version leaves no room for the fallback base. */
  lemma JadeNameFitsIff(name: string, index: int)
    requires IsI32(index)
    ensures IsAscii(JadeRegName(name, index)) && JadeRegName(name, index) != ""
    ensures |JadeRegName(name, index)| <= 15 <==>
      !(SaturatingNext(index) <= -1_000_000_000 && Alphanumerics(name) == "")
    ensures 0 <= index ==> |JadeRegName(name, index)| <= 15
  {
    SignedLength(SaturatingNext(index));
    VersionedIsAscii(name, SaturatingNext(index), JadeRoom(SaturatingNext(index)));
  }

  /** A Ledger name is ASCII and has 1 to 64 characters, for every label and version. */
  lemma LedgerNameFits(name: string, index: int)
    requires IsI32(index)
    ensures IsAscii(LedgerRegName(name, index)) && 1 <= |LedgerRegName(name, index)| <= 64
  {
    var version := SaturatingNext(index);
    SignedLength(version);
    VersionedIsAscii(name, version, LedgerRoom(version));
  }

  /** The base is the sanitized label, cut only where the ten-character cap or the device's limit
      demands it; a label without usable characters is replaced. */
  lemma JadeBaseIsLongest(name: string, index: int)
    requires IsI32(index)
    ensures
      var kept, base := Alphanumerics(name), Base(name, JadeRoom(SaturatingNext(index)));
      && |base| <= 10
      && (if kept == "" then base == "fed" else base <= kept)
      && (|base| < |kept| ==> |base| == 10 || |JadeRegName(name, index)| == 15)
  {
    SignedLength(SaturatingNext(index));
  }

  lemma LedgerBaseIsLongest(name: string, index: int)
    requires IsI32(index)
    ensures
      var version := SaturatingNext(index);
      var kept, base := Alphanumerics(name), Base(name, LedgerRoom(version));
      && (if kept == "" then base == "fed" else base <= kept)
      && (|base| < |kept| ==> |LedgerRegName(name, index)| == 64)
  {
    SignedLength(SaturatingNext(index));
  }

  /** Sanitizing keeps exactly the letters and digits, and a sanitized text stays as it is. */
  lemma {:induction false} AlphanumericsKept(name: string)
    ensures multiset(Alphanumerics(name)) <= multiset(name)
    ensures forall c :: c in name && IsAlphanumeric(c) ==> c in Alphanumerics(name)
    ensures Alphanumerics(Alphanumerics(name)) == Alphanumerics(name)
  {
    if name != "" {
      AlphanumericsKept(name[1..]);
      assert name == [name[0]] + name[1..];
      if IsAlphanumeric(name[0]) {
        assert Alphanumerics(name)[1..] == Alphanumerics(name[1..]);
      }
    }
  }

  /** It keeps every occurrence in its place: it treats a text character by character. */
  lemma {:induction false} SanitizedByCharacter(name: string, more: string)
    ensures Alphanumerics(name + more) == Alphanumerics(name) + Alphanumerics(more)
    ensures forall c :: Alphanumerics([c]) == if '0' <= c <= '9' || 'A' <= c <= 'Z' || 'a' <= c <= 'z' then [c] else []
  {
    if name == "" {
      assert name + more == more;
    } else {
      SanitizedByCharacter(name[1..], more);
      assert (name + more)[0] == name[0] && (name + more)[1..] == name[1..] + more;
    }
  }

  /** A name is the base, a dash, a `v` and the version counted from one, stopping at the largest. */
  lemma NameParts(name: string, index: int)
    requires IsI32(index)
    ensures
      var version := if index == 0x7FFF_FFFF then index else index + 1;
      && JadeRegName(name, index) == Base(name, JadeRoom(version)) + "-v" + Signed(version)
      && LedgerRegName(name, index) == Base(name, LedgerRoom(version)) + "-v" + Signed(version)
      && Signed(version) == (if version < 0 then "-" + Decimal(-version) else Decimal(version))
  {
  }

  lemma SignedInjective(a: int, b: int)
    requires Signed(a) == Signed(b)
    ensures a == b
  {
    assert Decimal(if a < 0 then -a else a) == if a < 0 then Signed(a)[1..] else Signed(a);
    assert Decimal(if b < 0 then -b else b) == if b < 0 then Signed(b)[1..] else Signed(b);
    DecimalRoundTrip(if a < 0 then -a else a);
    DecimalRoundTrip(if b < 0 then -b else b);
    assert a >= 0 ==> IsDigit(Signed(a)[0]);
    assert b >= 0 ==> IsDigit(Signed(b)[0]);
  }

  /** The first dash ends the base. */
  lemma OneReading(b1: string, t1: string, b2: string, t2: string)
    requires '-' !in b1 && '-' !in b2 && b1 + ['-'] + t1 == b2 + ['-'] + t2
    ensures b1 == b2 && t1 == t2
  {
    IndexOfIs(b1, '-', t1);
    IndexOfIs(b2, '-', t2);
  }

  lemma BaseHasNoDash(name: string, version: int, room: nat)
    ensures '-' !in Base(name, room)
    ensures Versioned(name, version, room) == Base(name, room) + ['-'] + (['v'] + Signed(version))
  {
    assert "-v" == ['-'] + ['v'];
  }

  /** So a name has one reading. */
  lemma VersionedInjective(l1: string, v1: int, r1: nat, l2: string, v2: int, r2: nat)
    requires Versioned(l1, v1, r1) == Versioned(l2, v2, r2)
    ensures v1 == v2 && Base(l1, r1) == Base(l2, r2)
  {
    BaseHasNoDash(l1, v1, r1);
    BaseHasNoDash(l2, v2, r2);
    OneReading(Base(l1, r1), ['v'] + Signed(v1), Base(l2, r2), ['v'] + Signed(v2));
    assert Signed(v1) == (['v'] + Signed(v1))[1..] == (['v'] + Signed(v2))[1..] == Signed(v2);
    SignedInjective(v1, v2);
  }

  /** Two registrations share a name exactly when they share the version number and the base,
      on either device and across labels. */
  lemma NamesEqualIff(l1: string, i1: int, l2: string, i2: int)
    requires IsI32(i1) && IsI32(i2)
    ensures JadeRegName(l1, i1) == JadeRegName(l2, i2) <==>
      (SaturatingNext(i1) == SaturatingNext(i2)
       && Base(l1, JadeRoom(SaturatingNext(i1))) == Base(l2, JadeRoom(SaturatingNext(i2))))
    ensures LedgerRegName(l1, i1) == LedgerRegName(l2, i2) <==>
      (SaturatingNext(i1) == SaturatingNext(i2)
       && Base(l1, LedgerRoom(SaturatingNext(i1))) == Base(l2, LedgerRoom(SaturatingNext(i2))))
    ensures JadeRegName(l1, i1) == JadeRegName(l2, i2) || LedgerRegName(l1, i1) == LedgerRegName(l2, i2) ==>
      i1 == i2 || (i1 >= I32_MAX - 1 && i2 >= I32_MAX - 1)
  {
    var v1, v2 := SaturatingNext(i1), SaturatingNext(i2);
    if JadeRegName(l1, i1) == JadeRegName(l2, i2) {
      VersionedInjective(l1, v1, JadeRoom(v1), l2, v2, JadeRoom(v2));
    }
    if LedgerRegName(l1, i1) == LedgerRegName(l2, i2) {
      VersionedInjective(l1, v1, LedgerRoom(v1),
                         l2, v2, LedgerRoom(v2));
    }
  }

  /** Versions of one lineage never share a name, but for the last two indices of the type,
      which collide because the increment saturates. */
  lemma VersionsCollideIff(name: string, i1: int, i2: int)
    requires IsI32(i1) && IsI32(i2) && i1 != i2
    ensures JadeRegName(name, i1) == JadeRegName(name, i2) <==> (i1 >= I32_MAX - 1 && i2 >= I32_MAX - 1)
    ensures LedgerRegName(name, i1) == LedgerRegName(name, i2) <==> (i1 >= I32_MAX - 1 && i2 >= I32_MAX - 1)
  {
    NamesEqualIff(name, i1, name, i2);
  }
}
