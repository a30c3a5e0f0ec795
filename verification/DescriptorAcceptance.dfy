/** Exactly which texts the descriptor parsers accept, and what they read from each. */
module DescriptorAcceptance {
  import opened Wrappers
  import opened Primitives
  import opened Texts
  import opened Descriptors
  import opened DescriptorRoundTrips

  // ----- spaces and numbers -----

  predicate Spaces(s: string) {
    forall i :: 0 <= i < |s| ==> IsSpace(s[i])
  }

  lemma {:induction false} TrimStartIs(pad: string, s: string)
    requires Spaces(pad) && (s != "" ==> !IsSpace(s[0]))
    ensures TrimStart(pad + s) == s
  {
    if pad == "" {
      assert pad + s == s;
    } else {
      TrimStartIs(pad[1..], s);
      assert (pad + s)[0] == pad[0] && (pad + s)[1..] == pad[1..] + s;
    }
  }

  lemma {:induction false} TrimEndIs(s: string, pad: string)
    requires Spaces(pad) && (s != "" ==> !IsSpace(s[|s| - 1]))
    ensures TrimEnd(s + pad) == s
    decreases |pad|
  {
    if pad == "" {
      assert s + pad == s;
    } else {
      var init := pad[..|pad| - 1];
      TrimEndIs(s, init);
      assert (s + pad)[|s + pad| - 1] == pad[|pad| - 1] && (s + pad)[..|s + pad| - 1] == s + init;
    }
  }

  /** Trimming drops the spaces around a text and nothing else. */
  lemma TrimDropsSpaces(before: string, s: string, after: string)
    requires Spaces(before) && Spaces(after) && Tight(s)
    ensures Trim(before + s + after) == s
  {
    if s == "" {
      var all := before + s + after;
      assert forall i :: 0 <= i < |all| ==> all[i] == if i < |before| then before[i] else after[i - |before|];
      TrimStartIs(all, "");
      assert all + "" == all;
    } else {
      TrimStartIs(before, s + after);
      assert before + (s + after) == before + s + after;
      TrimEndIs(s, after);
    }
  }

  predicate IsSign(sign: string) {
    sign == "" || sign == "-" || sign == "+"
  }

  lemma {:induction false} LeadingDigitsStop(digits: string, rest: string)
    requires AllDigits(digits) && (rest != "" ==> !IsDigit(rest[0]))
    ensures LeadingDigits(digits + rest) == digits
  {
    if digits == "" {
      assert digits + rest == rest;
    } else {
      LeadingDigitsStop(digits[1..], rest);
      assert (digits + rest)[0] == digits[0] && (digits + rest)[1..] == digits[1..] + rest;
    }
  }

  lemma PaddingIgnored(pad: string, t: string)
    requires Spaces(pad) && t != "" && !IsSpace(t[0])
    ensures ParseInt(pad + t) == ParseInt(t)
  {
    TrimStartIs(pad, t);
  }

  lemma DigitsThenRest(digits: string, rest: string, negative: bool)
    requires digits != "" && AllDigits(digits) && (rest != "" ==> !IsDigit(rest[0]))
    ensures
      var n := DigitsValue(digits) as int;
      ReadDigits(digits + rest, negative) == Some(if negative then -n else n)
  {
    LeadingDigitsStop(digits, rest);
  }

  lemma SignThenBody(sign: char, body: string)
    requires sign == '-' || sign == '+'
    ensures ParseInt([sign] + body) == ReadDigits(body, sign == '-')
  {
    assert ([sign] + body)[0] == sign && ([sign] + body)[1..] == body;
  }

  lemma NoSign(body: string)
    requires body != "" && IsDigit(body[0])
    ensures ParseInt(body) == ReadDigits(body, false)
  {
  }

  lemma SignedDigitsRead(pad: string, sign: string, digits: string, rest: string)
    requires Spaces(pad) && IsSign(sign) && digits != "" && AllDigits(digits) && (rest != "" ==> !IsDigit(rest[0]))
    ensures
      var n := DigitsValue(digits) as int;
      ParseInt(pad + (sign + (digits + rest))) == Some(if sign == "-" then -n else n)
  {
    var body := digits + rest;
    assert body[0] == digits[0];
    assert (sign + body)[0] == if sign == "" then body[0] else sign[0];
    PaddingIgnored(pad, sign + body);
    DigitsThenRest(digits, rest, sign == "-");
    if sign == "" {
      assert sign + body == body;
      NoSign(body);
    } else {
      assert sign == [sign[0]];
      SignThenBody(sign[0], body);
    }
  }

  /** A number is read past leading spaces and with its sign, up to the first other character. */
  lemma ParseIntReads(pad: string, sign: string, n: nat, rest: string)
    requires Spaces(pad) && IsSign(sign) && (rest != "" ==> !IsDigit(rest[0]))
    ensures ParseInt(pad + (sign + (Decimal(n) + rest))) == Some(if sign == "-" then -(n as int) else n)
  {
    SignedDigitsRead(pad, sign, Decimal(n), rest);
    DecimalRoundTrip(n);
  }

  /** Without a digit there, nothing is read. */
  lemma ParseIntNeedsDigit(pad: string, sign: string, rest: string)
    requires Spaces(pad) && IsSign(sign)
    requires rest != "" ==> !IsDigit(rest[0]) && !IsSpace(rest[0]) && rest[0] != '-' && rest[0] != '+'
    ensures ParseInt(pad + (sign + rest)) == None
  {
    var t := sign + rest;
    assert t != "" ==> t[0] == if sign == "" then rest[0] else sign[0];
    TrimStartIs(pad, t);
    assert sign != "" ==> t[1..] == rest;
    assert sign == "" ==> t == rest;
  }

  // ----- blinding keys -----

  /** The number that two digits from place `2 * i` on write. */
  function Pair(hex: string, i: nat): nat
    requires 2 * i + 1 < |hex| && IsHexDigit(hex[2 * i]) && IsHexDigit(hex[2 * i + 1])
  {
    16 * HexDigit(hex[2 * i]) + HexDigit(hex[2 * i + 1])
  }

  lemma {:induction false} BytesOfHex(s: string)
    requires |s| % 2 == 0 && forall i :: 0 <= i < |s| ==> IsHexLower(s[i])
    ensures |HexToBytes(s)| == |s| / 2
  {
    if s != "" {
      BytesOfHex(s[2..]);
    }
  }

  lemma {:induction false} ByteOfHex(s: string, i: nat)
    requires |s| % 2 == 0 && 2 * i + 1 < |s| && forall j :: 0 <= j < |s| ==> IsHexLower(s[j])
    ensures i < |HexToBytes(s)| && HexToBytes(s)[i] as nat == Pair(s, i)
  {
    BytesOfHex(s);
    if i > 0 {
      ByteOfHex(s[2..], i - 1);
      assert s[2..][2 * (i - 1)] == s[2 * i] && s[2..][2 * (i - 1) + 1] == s[2 * i + 1];
    }
  }

  /** `arg` is `slip77(...)` around 64 hexadecimal digits of either case, spaces aside. */
  predicate Slip77Shape(arg: string, inner: string) {
    && Trim(arg) == "slip77(" + inner + ")"
    && |Trim(inner)| == 64 && forall i :: 0 <= i < 64 ==> IsHexDigit(Trim(inner)[i])
  }

  predicate ReadsBytes(key: seq<byte>, hex: string) {
    && |hex| == 64 && |key| == 32 && (forall i :: 0 <= i < 64 ==> IsHexDigit(hex[i]))
    && forall i :: 0 <= i < 32 ==> key[i] as nat == Pair(hex, i)
  }

  /** What stands inside is unique. */
  lemma InsideIff(s: string, prefix: string)
    ensures forall body :: s == prefix + body + ")" ==> Inside(s, prefix) == Some(body)
    ensures Inside(s, prefix).Some? ==> s == prefix + Inside(s, prefix).value + ")"
  {
    forall body | s == prefix + body + ")" ensures Inside(s, prefix) == Some(body) {
      InsideOf(prefix, body);
    }
    if Inside(s, prefix).Some? {
      assert s == s[..|prefix|] + s[|prefix|..|s| - 1] + [s[|s| - 1]];
    }
  }

  lemma LowerDigits(hex: string)
    requires forall i :: 0 <= i < |hex| ==> IsHexDigit(hex[i])
    ensures forall i :: 0 <= i < |hex| ==> IsHexLower(Lower(hex)[i]) && HexDigit(Lower(hex)[i]) == HexDigit(hex[i])
  {
  }

  lemma DigitsReadAsBytes(hex: string)
    requires |hex| == 64 && forall i :: 0 <= i < 64 ==> IsHexDigit(hex[i])
    ensures forall i :: 0 <= i < 64 ==> IsHexLower(Lower(hex)[i])
    ensures ReadsBytes(HexToBytes(Lower(hex)), hex)
  {
    LowerDigits(hex);
    BytesOfHex(Lower(hex));
    forall i | 0 <= i < 32 ensures HexToBytes(Lower(hex))[i] as nat == Pair(hex, i) {
      ByteOfHex(Lower(hex), i);
    }
  }

  /** A blinding key is accepted if and only if it has that shape, and its 32 bytes are the digits in
      pairs. */
  lemma Slip77AcceptedIff(arg: string)
    ensures ParseSlip77Key(arg).Ok? <==> exists inner :: Slip77Shape(arg, inner)
    ensures forall inner :: Slip77Shape(arg, inner) ==>
      ParseSlip77Key(arg).Ok? && ReadsBytes(ParseSlip77Key(arg).value, Trim(inner))
  {
    InsideIff(Trim(arg), "slip77(");
    forall inner | Slip77Shape(arg, inner)
      ensures ParseSlip77Key(arg).Ok? && ReadsBytes(ParseSlip77Key(arg).value, Trim(inner))
    {
      DigitsReadAsBytes(Trim(inner));
    }
    if ParseSlip77Key(arg).Ok? {
      assert Slip77Shape(arg, Inside(Trim(arg), "slip77(").value);
    }
  }

  // ----- multisig descriptors -----

  /** The arguments of a `sortedmulti`: a positive threshold and at least one key, all readable. */
  predicate MultiShape(args: string, multi: SortedMulti) {
    var parts := Split(args);
    && |parts| >= 2 && |multi.signers| == |parts| - 1
    && multi.threshold >= 1 && ParseInt(Trim(parts[0])) == Some(multi.threshold)
    && forall i :: 0 <= i < |multi.signers| ==> Parses(parts[i + 1], multi.signers[i])
  }

  predicate MultiText(s: string, args: string, multi: SortedMulti) {
    s == "sortedmulti(" + args + ")" && MultiShape(args, multi)
  }

  /** A `sortedmulti` is accepted if and only if it has that shape, and read as exactly its parts. */
  lemma MultiAcceptedIff(s: string)
    ensures ParseSortedMulti(s).Ok? <==> exists args, multi :: MultiText(s, args, multi)
    ensures forall args, multi :: MultiText(s, args, multi) ==> ParseSortedMulti(s) == Ok(multi)
  {
    InsideIff(s, "sortedmulti(");
    forall args, multi | MultiText(s, args, multi) ensures ParseSortedMulti(s) == Ok(multi) {
      var parts := Split(args);
      forall i | 0 <= i < |multi.signers| ensures Parses(parts[1..][i], multi.signers[i]) {
        assert Parses(parts[i + 1], multi.signers[i]);
      }
      ParseKeysAll(parts[1..], multi.signers);
    }
    if ParseSortedMulti(s).Ok? {
      var args, multi := Inside(s, "sortedmulti(").value, ParseSortedMulti(s).value;
      KeyListAcceptedIff(Split(args)[1..]);
      forall i | 0 <= i < |multi.signers| ensures Parses(Split(args)[i + 1], multi.signers[i]) {
        assert Parses(Split(args)[1..][i], multi.signers[i]);
      }
      assert MultiText(s, args, multi);
    }
  }

  /** The text before the checksum, spaces aside. */
  function Stripped(descriptor: string): string {
    Trim(Before(descriptor, '#'))
  }

  predicate WshShape(descriptor: string, inner: string, args: string, multi: SortedMulti) {
    Stripped(descriptor) == "wsh(" + inner + ")" && MultiText(Trim(inner), args, multi)
  }

  /** The same for a whole `wsh(sortedmulti(...))`. */
  lemma WshAcceptedIff(descriptor: string)
    ensures ParseSortedMultiWshDescriptor(descriptor).Ok? <==>
      exists inner, args, multi :: WshShape(descriptor, inner, args, multi)
    ensures forall inner, args, multi :: WshShape(descriptor, inner, args, multi) ==>
      ParseSortedMultiWshDescriptor(descriptor) == Ok(multi)
  {
    InsideIff(Stripped(descriptor), "wsh(");
    forall inner, args, multi | WshShape(descriptor, inner, args, multi)
      ensures ParseSortedMultiWshDescriptor(descriptor) == Ok(multi)
    {
      MultiAcceptedIff(Trim(inner));
    }
    if ParseSortedMultiWshDescriptor(descriptor).Ok? {
      var inner := Inside(Stripped(descriptor), "wsh(").value;
      MultiAcceptedIff(Trim(inner));
      var args, multi :| MultiText(Trim(inner), args, multi);
      assert WshShape(descriptor, inner, args, multi);
    }
  }

  /** `ct(...)` around exactly two arguments: a blinding key and an `elwsh` of a `sortedmulti`. */
  predicate CtShape(descriptor: string, inner: string, blinding: string, script: string, body: string,
                    hex: string, args: string, multi: SortedMulti)
  {
    && Stripped(descriptor) == "ct(" + inner + ")" && Split(Trim(inner)) == [blinding, script]
    && Slip77Shape(Trim(blinding), hex)
    && Trim(script) == "elwsh(" + body + ")" && MultiText(Trim(body), args, multi)
  }

  /** A confidential descriptor is accepted if and only if it has that shape; the blinding key, the
      threshold and the keys are read from their places. */
  lemma CtAcceptedIff(descriptor: string)
    ensures ParseCtDescriptor(descriptor).Ok? <==>
      exists inner, blinding, script, body, hex, args, multi ::
        CtShape(descriptor, inner, blinding, script, body, hex, args, multi)
    ensures forall inner, blinding, script, body, hex, args, multi ::
      CtShape(descriptor, inner, blinding, script, body, hex, args, multi) ==>
        && ParseCtDescriptor(descriptor).Ok? && ParseCtDescriptor(descriptor).value.multi == multi
        && ReadsBytes(ParseCtDescriptor(descriptor).value.blindingKey, Trim(hex))
  {
    InsideIff(Stripped(descriptor), "ct(");
    forall inner, blinding, script, body, hex, args, multi |
      CtShape(descriptor, inner, blinding, script, body, hex, args, multi)
      ensures ParseCtDescriptor(descriptor).Ok? && ParseCtDescriptor(descriptor).value.multi == multi
      ensures ReadsBytes(ParseCtDescriptor(descriptor).value.blindingKey, Trim(hex))
    {
      CtShapeParses(descriptor, inner, blinding, script, body, hex, args, multi);
    }
    if ParseCtDescriptor(descriptor).Ok? {
      AcceptedCtShape(descriptor);
    }
  }

  lemma CtShapeParses(descriptor: string, inner: string, blinding: string, script: string, body: string,
                      hex: string, args: string, multi: SortedMulti)
    requires CtShape(descriptor, inner, blinding, script, body, hex, args, multi)
    ensures ParseCtDescriptor(descriptor).Ok? && ParseCtDescriptor(descriptor).value.multi == multi
    ensures ReadsBytes(ParseCtDescriptor(descriptor).value.blindingKey, Trim(hex))
  {
    InsideIff(Stripped(descriptor), "ct(");
    Slip77AcceptedIff(Trim(blinding));
    InsideIff(Trim(script), "elwsh(");
    MultiAcceptedIff(Trim(body));
  }

  lemma AcceptedCtShape(descriptor: string)
    requires ParseCtDescriptor(descriptor).Ok?
    ensures exists inner, blinding, script, body, hex, args, multi ::
      CtShape(descriptor, inner, blinding, script, body, hex, args, multi)
  {
    var inner, blinding, script, body := CtTakenApart(descriptor);
    Slip77AcceptedIff(Trim(blinding));
    MultiAcceptedIff(Trim(body));
    var hex :| Slip77Shape(Trim(blinding), hex);
    var args, multi :| MultiText(Trim(body), args, multi);
    assert CtShape(descriptor, inner, blinding, script, body, hex, args, multi);
  }

  lemma CtUnfolds(descriptor: string)
    requires ParseCtDescriptor(descriptor).Ok?
    ensures Inside(Stripped(descriptor), "ct(").Some?
    ensures
      var parts := Split(Trim(Inside(Stripped(descriptor), "ct(").value));
      && |parts| == 2 && ParseSlip77Key(Trim(parts[0])).Ok? && Inside(Trim(parts[1]), "elwsh(").Some?
      && ParseSortedMulti(Trim(Inside(Trim(parts[1]), "elwsh(").value)).Ok?
  {
  }

  lemma CtTakenApart(descriptor: string) returns (inner: string, blinding: string, script: string, body: string)
    requires ParseCtDescriptor(descriptor).Ok?
    ensures Stripped(descriptor) == "ct(" + inner + ")" && Split(Trim(inner)) == [blinding, script]
    ensures Trim(script) == "elwsh(" + body + ")"
    ensures ParseSlip77Key(Trim(blinding)).Ok? && ParseSortedMulti(Trim(body)).Ok?
  {
    CtUnfolds(descriptor);
    inner := Inside(Stripped(descriptor), "ct(").value;
    var parts := Split(Trim(inner));
    blinding, script := parts[0], parts[1];
    body := Inside(Trim(script), "elwsh(").value;
    InsideWritten(Stripped(descriptor), "ct(");
    InsideWritten(Trim(script), "elwsh(");
    assert parts == [blinding, script];
  }

  lemma InsideWritten(s: string, prefix: string)
    requires Inside(s, prefix).Some?
    ensures s == prefix + Inside(s, prefix).value + ")"
  {
    InsideIff(s, prefix);
  }

  // ----- the key a Trezor reports -----

  /** `[fingerprint/path]xpub`, and then nothing or a slash and one line of anything. */
  predicate TrezorShape(inner: string, fp: string, path: string, xpub: string, suffix: string) {
    && inner == "[" + fp + "/" + path + "]" + (xpub + suffix)
    && IsFingerprint(Lower(fp)) && ']' !in path
    && xpub != "" && (forall i :: 0 <= i < |xpub| ==> IsBase58(xpub[i]))
    && (suffix != "" ==> suffix[0] == '/') && (forall i :: 0 <= i < |suffix| ==> !IsLineEnd(suffix[i]))
  }

  /** A reported key is accepted if and only if it has that shape, and is read as exactly its parts. */
  lemma TrezorKeyAcceptedIff(inner: string)
    ensures ParseTrezorKey(inner).Some? <==> exists fp, path, xpub, suffix :: TrezorShape(inner, fp, path, xpub, suffix)
    ensures forall fp, path, xpub, suffix :: TrezorShape(inner, fp, path, xpub, suffix) ==>
      ParseTrezorKey(inner) == Some(TrezorKey(Lower(fp), Quoted(path), xpub))
  {
    forall fp, path, xpub, suffix | TrezorShape(inner, fp, path, xpub, suffix)
      ensures ParseTrezorKey(inner) == Some(TrezorKey(Lower(fp), Quoted(path), xpub))
    {
      TrezorShapeParses(inner, fp, path, xpub, suffix);
    }
    if ParseTrezorKey(inner).Some? {
      AcceptedTrezorShape(inner);
    }
  }

  lemma TrezorShapeParses(inner: string, fp: string, path: string, xpub: string, suffix: string)
    requires TrezorShape(inner, fp, path, xpub, suffix)
    ensures ParseTrezorKey(inner) == Some(TrezorKey(Lower(fp), Quoted(path), xpub))
  {
    TrezorAssembled(fp, path, xpub, suffix);
  }

  lemma AcceptedTrezorShape(inner: string)
    requires ParseTrezorKey(inner).Some?
    ensures exists fp, path, xpub, suffix :: TrezorShape(inner, fp, path, xpub, suffix)
  {
    var fp, path, after := OriginCut(inner);
    var xpub, suffix := KeyAndSuffix(after);
    TrezorShapeOfCut(inner, fp, path, xpub, suffix);
  }

  /** The key ends at the first slash. */
  lemma KeyAndSuffix(after: string) returns (xpub: string, suffix: string)
    ensures xpub == Before(after, '/') && suffix == after[|xpub|..] && after == xpub + suffix
    ensures suffix != "" ==> suffix[0] == '/'
  {
    xpub := Before(after, '/');
    suffix := after[|xpub|..];
    assert after == xpub + suffix;
  }

  lemma TrezorShapeOfCut(inner: string, fp: string, path: string, xpub: string, suffix: string)
    requires inner == ['['] + (fp + ['/'] + path) + [']'] + (xpub + suffix)
    requires IsFingerprint(Lower(fp)) && ']' !in path
    requires xpub != "" && (forall i :: 0 <= i < |xpub| ==> IsBase58(xpub[i]))
    requires (suffix != "" ==> suffix[0] == '/') && (forall i :: 0 <= i < |suffix| ==> !IsLineEnd(suffix[i]))
    ensures TrezorShape(inner, fp, path, xpub, suffix)
  {
    assert "[" + fp + "/" + path + "]" + (xpub + suffix) == ['['] + (fp + ['/'] + path) + [']'] + (xpub + suffix);
  }

  // ----- the Ledger policy -----

  /** A policy is built if and only if there is a signer and the threshold is one of their number; its
      keys are the printed origins in row order, and each parses back to its row. */
  lemma LedgerPolicyBuiltIff(threshold: int, rows: seq<SignerRow>)
    ensures BuildLedgerPolicy(threshold, rows).Ok? <==> 1 <= threshold <= |rows|
    ensures rows == [] ==> BuildLedgerPolicy(threshold, rows) == Err(NoSigners)
    ensures rows != [] && !(1 <= threshold <= |rows|) ==> BuildLedgerPolicy(threshold, rows) == Err(OutOfRange)
    ensures 1 <= threshold <= |rows| ==>
      var keys := BuildLedgerPolicy(threshold, rows).value.keys;
      && |keys| == |rows|
      && forall i, steps :: 0 <= i < |rows| && GoodRow(rows[i], steps) ==>
           ParseDescriptorKey(keys[i]) == Ok(SignerKey(Lower(rows[i].fingerprint), StepValues(steps), rows[i].xpub))
  {
    if 1 <= threshold <= |rows| {
      var keys := BuildLedgerPolicy(threshold, rows).value.keys;
      forall i, steps | 0 <= i < |rows| && GoodRow(rows[i], steps)
        ensures ParseDescriptorKey(keys[i]) == Ok(SignerKey(Lower(rows[i].fingerprint), StepValues(steps), rows[i].xpub))
      {
        ParseInvertsKeyOrigin(rows[i], steps, "");
        assert KeyOrigin(rows[i]) + "" == keys[i];
      }
    }
  }
}
