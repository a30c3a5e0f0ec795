/** Output descriptors as the device pages read them, and as the server prints them. */
module Descriptors {
  import opened Wrappers
  import opened Primitives
  import opened Texts

  const HARDENED: nat := 0x8000_0000

  // ----- splitting at top-level commas -----

  datatype Scanner = Scanner(out: seq<string>, depth: int, buf: string)

  const START := Scanner([], 0, "")

  function Feed(st: Scanner, ch: char): Scanner {
    var depth := if ch == '(' then st.depth + 1 else if ch == ')' then st.depth - 1 else st.depth;
    if ch == ',' && depth == 0 then Scanner(st.out + [st.buf], depth, "")
    else Scanner(st.out, depth, st.buf + [ch])
  }

  function Scan(st: Scanner, s: string): Scanner
    decreases |s|
  {
    if s == "" then st else Scan(Feed(st, s[0]), s[1..])
  }

  function Finish(st: Scanner): seq<string> {
    if st.buf != "" then st.out + [st.buf] else st.out
  }

  function Split(s: string): seq<string> {
    Finish(Scan(START, s))
  }

  method SplitTopLevelCommas(s: string) returns (out: seq<string>)
    ensures out == Split(s)
  {
    out := [];
    var depth := 0;
    var buf := "";
    for i := 0 to |s|
      invariant Scan(START, s) == Scan(Scanner(out, depth, buf), s[i..])
    {
      var ch := s[i];
      if ch == '(' {
        depth := depth + 1;
      } else if ch == ')' {
        depth := depth - 1;
      }
      if ch == ',' && depth == 0 {
        out := out + [buf];
        buf := "";
      } else {
        buf := buf + [ch];
      }
      assert s[i..][1..] == s[i + 1..];
    }
    if |buf| > 0 {
      out := out + [buf];
    }
  }

  // ----- keys -----

  datatype ParseError =
    | NotCt | CtArity | NotSlip77 | BadSlip77 | NotElwsh | NotWsh | NotSortedMulti | TooFewParts | BadThreshold
    | NoOrigin | OriginNotClosed | NoPath | BadFingerprint | BadPath | NoXpub

  /** What the device is given for a cosigner. */
  datatype SignerKey = SignerKey(fingerprint: string, derivation: seq<nat>, xpub: string)

  function QuoteChar(c: char): char {
    if c == 'h' || c == 'H' then '\'' else c
  }

  /** Every `h` and `H` becomes a quote. */
  function Quoted(s: string): string {
    MapChars(s, QuoteChar)
  }

  predicate IsFingerprint(s: string) {
    |s| == 8 && forall i :: 0 <= i < |s| ==> IsHexLower(s[i])
  }

  predicate IsMark(c: char) {
    c == '\'' || c == 'h' || c == 'H'
  }

  function ParseStep(seg: string): Option<nat> {
    var hardened := seg != "" && IsMark(seg[|seg| - 1]);
    var n := ParseInt(if hardened then seg[..|seg| - 1] else seg);
    if n.None? || n.value < 0 || n.value >= HARDENED then None
    else Some(if hardened then n.value + HARDENED else n.value)
  }

  function ParseSteps(segs: seq<string>): Option<seq<nat>> {
    if segs == [] then Some([])
    else
      var first := ParseStep(segs[0]);
      if first.None? then None
      else
        var rest := ParseSteps(segs[1..]);
        if rest.None? then None else Some([first.value] + rest.value)
  }

  function PathToU32Array(path: string): Option<seq<nat>> {
    var trimmed := Trim(path);
    if trimmed == "" || trimmed == "m" || trimmed == "/" || trimmed == "m/" then Some([])
    else
      var body := if StartsWith(trimmed, "m/") then trimmed[2..]
                  else if trimmed[0] == 'm' then trimmed[1..] else trimmed;
      ParseSteps(SplitOn(if StartsWith(body, "/") then body[1..] else body, '/'))
  }

  /** The key after the origin, up to the first slash. */
  function XpubOf(after: string): string {
    Before(after, '/')
  }

  function ParseDescriptorKey(key: string): Result<SignerKey, ParseError> {
    if !StartsWith(key, "[") then Err(NoOrigin)
    else if ']' !in key then Err(OriginNotClosed)
    else
      var closing := IndexOf(key, ']');
      var origin, after := key[1..closing], key[closing + 1..];
      var slash := IndexOf(origin, '/');
      if slash == |origin| || slash < 1 then Err(NoPath)
      else
        var fingerprint := Lower(origin[..slash]);
        if !IsFingerprint(fingerprint) then Err(BadFingerprint)
        else
          var derivation := PathToU32Array("m/" + Quoted(origin[slash + 1..]));
          if derivation.None? then Err(BadPath)
          else if XpubOf(after) == "" then Err(NoXpub)
          else Ok(SignerKey(fingerprint, derivation.value, XpubOf(after)))
  }

  function ParseKeys(parts: seq<string>): Result<seq<SignerKey>, ParseError> {
    if parts == [] then Ok([])
    else
      var first := ParseDescriptorKey(Trim(parts[0]));
      if first.Err? then Err(first.error)
      else
        var rest := ParseKeys(parts[1..]);
        if rest.Err? then rest else Ok([first.value] + rest.value)
  }

  // ----- multisig descriptors -----

  datatype SortedMulti = SortedMulti(threshold: nat, signers: seq<SignerKey>)

  /** What stands between `prefix` and the final parenthesis, if the text has that shape. */
  function Inside(s: string, prefix: string): Option<string> {
    if |prefix| < |s| && StartsWith(s, prefix) && EndsWith(s, ')') then Some(s[|prefix|..|s| - 1])
    else None
  }

  function ParseSortedMulti(s: string): Result<SortedMulti, ParseError> {
    var inner := Inside(s, "sortedmulti(");
    if inner.None? then Err(NotSortedMulti)
    else
      var parts := Split(inner.value);
      if |parts| < 2 then Err(TooFewParts)
      else
        var threshold := ParseInt(Trim(parts[0]));
        if threshold.None? || threshold.value < 1 then Err(BadThreshold)
        else
          var signers := ParseKeys(parts[1..]);
          if signers.Err? then Err(signers.error) else Ok(SortedMulti(threshold.value, signers.value))
  }

  function ParseSortedMultiWshDescriptor(descriptor: string): Result<SortedMulti, ParseError> {
    var s := Trim(Before(descriptor, '#'));
    var inner := Inside(s, "wsh(");
    if inner.None? then Err(NotWsh) else ParseSortedMulti(Trim(inner.value))
  }

  function HexToBytes(s: string): seq<byte>
    requires forall i :: 0 <= i < |s| ==> IsHexLower(s[i])
  {
    if |s| < 2 then [] else [(16 * HexDigit(s[0]) + HexDigit(s[1])) as byte] + HexToBytes(s[2..])
  }

  function ParseSlip77Key(arg: string): Result<seq<byte>, ParseError> {
    var inner := Inside(Trim(arg), "slip77(");
    if inner.None? then Err(NotSlip77)
    else
      var hex := Trim(inner.value);
      if |hex| != 64 || exists i :: 0 <= i < |hex| && !IsHexDigit(hex[i]) then Err(BadSlip77)
      else Ok(HexToBytes(Lower(hex)))
  }

  datatype CtDescriptor = CtDescriptor(blindingKey: seq<byte>, multi: SortedMulti)

  function ParseCtDescriptor(descriptor: string): Result<CtDescriptor, ParseError> {
    var s := Trim(Before(descriptor, '#'));
    var inner := Inside(s, "ct(");
    if inner.None? then Err(NotCt)
    else
      var parts := Split(Trim(inner.value));
      if |parts| != 2 then Err(CtArity)
      else
        var blinding := ParseSlip77Key(Trim(parts[0]));
        if blinding.Err? then Err(blinding.error)
        else
          var script := Inside(Trim(parts[1]), "elwsh(");
          if script.None? then Err(NotElwsh)
          else
            var multi := ParseSortedMulti(Trim(script.value));
            if multi.Err? then Err(multi.error) else Ok(CtDescriptor(blinding.value, multi.value))
  }

  // ----- peeling a wrapped key -----

  const WRAPPERS := ["pkh(", "wpkh(", "sh(", "wsh(", "tr("]
  const MAX_PEELS: nat := 4

  /** The first of `ws` that wraps the text. */
  function FirstWrapper(ws: seq<string>, s: string): (w: Option<string>)
    ensures w.Some? ==> w.value in ws && Inside(s, w.value).Some?
  {
    if ws == [] then None
    else if Inside(s, ws[0]).Some? then Some(ws[0])
    else FirstWrapper(ws[1..], s)
  }

  function WrapperOf(s: string): (w: Option<string>)
    ensures w.Some? ==> w.value in WRAPPERS && Inside(s, w.value).Some?
  {
    FirstWrapper(WRAPPERS, s)
  }

  function Peel(s: string, safety: nat): string
    decreases safety
  {
    if safety == 0 || WrapperOf(s).None? then s
    else Peel(Trim(Inside(s, WrapperOf(s).value).value), safety - 1)
  }

  /** None for the empty text, which is all the page makes of a missing descriptor. */
  function Unwrap(d: string): Option<string> {
    if d == "" then None else Some(Peel(Trim(Before(d, '#')), MAX_PEELS))
  }

  method MatchWrapper(s: string) returns (w: Option<string>)
    ensures w == WrapperOf(s)
  {
    for i := 0 to |WRAPPERS|
      invariant WrapperOf(s) == FirstWrapper(WRAPPERS[i..], s)
    {
      if Inside(s, WRAPPERS[i]).Some? {
        return Some(WRAPPERS[i]);
      }
    }
    w := None;
  }

  method UnwrapDescriptor(d: string) returns (r: Option<string>)
    ensures r == Unwrap(d)
  {
    if |d| == 0 {
      return None;
    }
    var s := Trim(Before(d, '#'));
    var safety: nat := MAX_PEELS;
    while safety > 0
      invariant Peel(Trim(Before(d, '#')), MAX_PEELS) == Peel(s, safety)
      decreases safety
    {
      var matched := MatchWrapper(s);
      if matched.None? {
        break;
      }
      s := Trim(Inside(s, matched.value).value);
      safety := safety - 1;
    }
    r := Some(s);
  }

  datatype TrezorKey = TrezorKey(fingerprint: string, originPath: string, xpub: string)

  predicate IsBase58(c: char) {
    '1' <= c <= '9' || ('A' <= c <= 'Z' && c != 'I' && c != 'O') || ('a' <= c <= 'z' && c != 'l')
  }

  predicate IsLineEnd(c: char) {
    c == '\n' || c == '\r' || c as int == 0x2028 || c as int == 0x2029
  }

  /** `[origin]xpub`, then nothing or a slash and one line of anything. */
  function ParseTrezorKey(inner: string): Option<TrezorKey> {
    if !StartsWith(inner, "[") || ']' !in inner then None
    else
      var closing := IndexOf(inner, ']');
      var origin, after := inner[1..closing], inner[closing + 1..];
      var xpub := Before(after, '/');
      var rest := after[|xpub|..];
      var slash := IndexOf(origin, '/');
      if xpub == "" || (exists i :: 0 <= i < |xpub| && !IsBase58(xpub[i]))
         || (exists i :: 0 <= i < |rest| && IsLineEnd(rest[i]))
         || slash == |origin| || slash < 1 || !IsFingerprint(Lower(origin[..slash]))
      then None
      else Some(TrezorKey(Lower(origin[..slash]), Quoted(origin[slash + 1..]), xpub))
  }

  function ParseTrezorDescriptor(d: string): Option<TrezorKey> {
    var inner := Unwrap(d);
    if inner.None? || inner.value == "" then None else ParseTrezorKey(inner.value)
  }

  function OriginBody(path: string): string {
    Quoted(if StartsWith(path, "m/") then path[2..] else path)
  }

  // ----- the printing side -----

  /** One cosigner row. */
  datatype SignerRow = SignerRow(fingerprint: string, path: string, xpub: string)

  function TrimLeading(s: string, p: string): string
    requires p != ""
    decreases |s|
  {
    if StartsWith(s, p) then TrimLeading(s[|p|..], p) else s
  }

  function KeyOrigin(row: SignerRow): string {
    "[" + row.fingerprint + "/" + TrimLeading(TrimLeading(row.path, "m/"), "m") + "]" + row.xpub
  }

  function Placeholders(n: nat): seq<string> {
    seq(n, i requires 0 <= i < n => "@" + Decimal(i) + "/**")
  }

  datatype RegisterError = NoSigners | OutOfRange

  datatype LedgerPolicy = LedgerPolicy(template: string, keys: seq<string>)

  function BuildLedgerPolicy(threshold: int, rows: seq<SignerRow>): Result<LedgerPolicy, RegisterError> {
    if rows == [] then Err(NoSigners)
    else if threshold < 1 || threshold > |rows| then Err(OutOfRange)
    else Ok(LedgerPolicy(
      "wsh(" + "sortedmulti(" + Decimal(threshold) + "," + Join(Placeholders(|rows|), ',') + ")" + ")",
      seq(|rows|, i requires 0 <= i < |rows| => KeyOrigin(rows[i]))))
  }
}
