/** Parsing what was printed, splitting what was joined, and peeling what was wrapped. */
module DescriptorRoundTrips {
  import opened Wrappers
  import opened Primitives
  import opened Texts
  import opened Descriptors

  // ----- top-level commas -----

  /** Scanned from `depth`, the text meets no comma at depth 0 and ends at depth 0. */
  predicate Level(depth: int, s: string)
    decreases |s|
  {
    if s == "" then depth == 0
    else
      var next := if s[0] == '(' then depth + 1 else if s[0] == ')' then depth - 1 else depth;
      !(s[0] == ',' && next == 0) && Level(next, s[1..])
  }

  predicate AllLevel(parts: seq<string>) {
    forall i :: 0 <= i < |parts| ==> Level(0, parts[i])
  }

  lemma {:induction false} ScanLevel(out: seq<string>, depth: int, buf: string, s: string)
    requires Level(depth, s)
    ensures Scan(Scanner(out, depth, buf), s) == Scanner(out, 0, buf + s)
    decreases |s|
  {
    if s == "" {
      assert buf + s == buf;
    } else {
      var st := Feed(Scanner(out, depth, buf), s[0]);
      ScanLevel(out, st.depth, st.buf, s[1..]);
      assert buf + s == buf + [s[0]] + s[1..];
    }
  }

  lemma {:induction false} ScanConcat(st: Scanner, a: string, b: string)
    ensures Scan(st, a + b) == Scan(Scan(st, a), b)
    decreases |a|
  {
    if a == "" {
      assert a + b == b;
    } else {
      assert (a + b)[0] == a[0] && (a + b)[1..] == a[1..] + b;
      ScanConcat(Feed(st, a[0]), a[1..], b);
    }
  }

  lemma ScanComma(out: seq<string>, buf: string, rest: string)
    ensures Scan(Scanner(out, 0, buf), "," + rest) == Scan(Scanner(out + [buf], 0, ""), rest)
  {
    assert ("," + rest)[0] == ',' && ("," + rest)[1..] == rest;
  }

  lemma ScanPart(out: seq<string>, part: string, rest: string)
    requires Level(0, part)
    ensures Scan(Scanner(out, 0, ""), part + ("," + rest)) == Scan(Scanner(out + [part], 0, ""), rest)
  {
    ScanConcat(Scanner(out, 0, ""), part, "," + rest);
    ScanLevel(out, 0, "", part);
    assert "" + part == part;
    ScanComma(out, part, rest);
  }

  lemma ScanLast(out: seq<string>, part: string)
    requires Level(0, part)
    ensures Scan(Scanner(out, 0, ""), part) == Scanner(out, 0, part)
  {
    ScanLevel(out, 0, "", part);
    assert "" + part == part;
  }

  lemma {:induction false} ScanJoined(out: seq<string>, parts: seq<string>)
    requires parts != [] && AllLevel(parts)
    ensures Scan(Scanner(out, 0, ""), Join(parts, ',')) == Scanner(out + parts[..|parts| - 1], 0, parts[|parts| - 1])
    decreases |parts|
  {
    var rest := parts[1..];
    if rest == [] {
      ScanLast(out, parts[0]);
      assert out + parts[..0] == out;
    } else {
      ScanPart(out, parts[0], Join(rest, ','));
      JoinCons(parts[0], rest);
      assert parts == [parts[0]] + rest;
      ScanJoined(out + [parts[0]], rest);
      PrefixShift(out, parts[0], rest);
    }
  }

  lemma JoinCons(first: string, rest: seq<string>)
    requires rest != []
    ensures Join([first] + rest, ',') == first + ("," + Join(rest, ','))
  {
    assert ([first] + rest)[1..] == rest;
  }

  lemma PrefixShift(out: seq<string>, first: string, rest: seq<string>)
    requires rest != []
    ensures var parts := [first] + rest;
      out + [first] + rest[..|rest| - 1] == out + parts[..|parts| - 1] && rest[|rest| - 1] == parts[|parts| - 1]
  {
  }

  lemma FinishLast(parts: seq<string>)
    requires parts != []
    ensures Finish(Scanner([] + parts[..|parts| - 1], 0, parts[|parts| - 1])) ==
      if parts[|parts| - 1] == "" then parts[..|parts| - 1] else parts
  {
    assert [] + parts[..|parts| - 1] == parts[..|parts| - 1];
    assert parts == parts[..|parts| - 1] + [parts[|parts| - 1]];
  }

  /** Splitting inverts joining, except that an empty last part is lost. */
  lemma SplitInvertsJoin(parts: seq<string>)
    requires parts != [] && AllLevel(parts)
    ensures Split(Join(parts, ',')) ==
      if parts[|parts| - 1] == "" then parts[..|parts| - 1] else parts
  {
    ScanJoined([], parts);
    FinishLast(parts);
  }

  function Written(st: Scanner): string {
    Join(st.out + [st.buf], ',')
  }

  lemma {:induction false} ScanWrites(st: Scanner, s: string)
    ensures Written(Scan(st, s)) == Written(st) + s
    decreases |s|
  {
    if s == "" {
      assert Written(st) + s == Written(st);
    } else {
      var next := Feed(st, s[0]);
      ScanWrites(next, s[1..]);
      JoinSnoc(st.out, st.buf, ',');
      JoinSnoc(next.out, next.buf, ',');
      assert Written(next) == Written(st) + [s[0]];
      assert Written(st) + s == Written(st) + [s[0]] + s[1..];
    }
  }

  /** The text ends with a comma that was taken as a separator. */
  predicate EndsWithSeparator(s: string) {
    s != "" && Scan(START, s).buf == ""
  }

  /** Joining the parts of any text gives the text, without a final separating comma. */
  lemma JoinInvertsSplit(s: string)
    ensures Join(Split(s), ',') == if EndsWithSeparator(s) then s[..|s| - 1] else s
    ensures EndsWithSeparator(s) ==> s[|s| - 1] == ','
  {
    var end := Scan(START, s);
    ScanWrites(START, s);
    assert START.out + [START.buf] == [""];
    assert Written(START) + s == s;
    JoinSnoc(end.out, end.buf, ',');
    if end.buf == "" && end.out != [] {
      assert Join(end.out, ',') + [','] + "" == s;
    }
  }

  // ----- the Ledger template -----

  lemma {:induction false} PlainIsLevel(s: string)
    requires forall i :: 0 <= i < |s| ==> s[i] !in "(),"
    ensures Level(0, s)
    decreases |s|
  {
    if s != "" {
      assert forall i :: 0 <= i < |s| - 1 ==> s[1..][i] == s[i + 1];
      PlainIsLevel(s[1..]);
    }
  }

  lemma DecimalIsPlain(n: nat)
    ensures forall i :: 0 <= i < |Decimal(n)| ==> Decimal(n)[i] !in "(),#" && !IsSpace(Decimal(n)[i])
  {
    assert forall i :: 0 <= i < |Decimal(n)| ==> IsDigit(Decimal(n)[i]);
  }

  lemma PlaceholderIsLevel(i: nat)
    ensures Level(0, "@" + Decimal(i) + "/**")
  {
    var text := "@" + Decimal(i) + "/**";
    DecimalIsPlain(i);
    forall k | 0 <= k < |text| ensures text[k] !in "(),"
    {
      assert text[k] == (if k == 0 then '@' else if k <= |Decimal(i)| then Decimal(i)[k - 1] else "/**"[k - 1 - |Decimal(i)|]);
    }
    PlainIsLevel(text);
  }

  lemma ArgumentsSplit(m: nat, n: nat)
    requires n > 0
    ensures Split(Decimal(m) + "," + Join(Placeholders(n), ',')) == [Decimal(m)] + Placeholders(n)
  {
    var parts := [Decimal(m)] + Placeholders(n);
    assert parts[1..] == Placeholders(n);
    assert Join(parts, ',') == Decimal(m) + "," + Join(Placeholders(n), ',');
    forall i | 0 <= i < |parts| ensures Level(0, parts[i]) {
      DecimalIsPlain(m);
      if i > 0 {
        PlaceholderIsLevel(i - 1);
      } else {
        PlainIsLevel(parts[0]);
      }
    }
    assert parts[n] == Placeholders(n)[n - 1] != "";
    SplitInvertsJoin(parts);
  }

  /** The argument of the template splits into the threshold and the placeholders in order. */
  lemma LedgerTemplateSplits(threshold: int, rows: seq<SignerRow>)
    requires BuildLedgerPolicy(threshold, rows).Ok?
    ensures
      var inner := Inside(BuildLedgerPolicy(threshold, rows).value.template, "wsh(");
      inner.Some? && Inside(inner.value, "sortedmulti(").Some?
      && Split(Inside(inner.value, "sortedmulti(").value) == [Decimal(threshold)] + Placeholders(|rows|)
  {
    var args := Decimal(threshold) + "," + Join(Placeholders(|rows|), ',');
    var multi := "sortedmulti(" + args + ")";
    assert BuildLedgerPolicy(threshold, rows).value.template == "wsh(" + multi + ")";
    InsideOf("wsh(", multi);
    InsideOf("sortedmulti(", args);
    ArgumentsSplit(threshold, |rows|);
  }

  lemma InsideOf(prefix: string, body: string)
    ensures Inside(prefix + body + ")", prefix) == Some(body)
  {
    var s := prefix + body + ")";
    assert s[..|prefix|] == prefix && s[|prefix|..|s| - 1] == body && s[|s| - 1] == ')';
  }

  // ----- keys -----

  /** One step of a derivation path; `mark` is empty or one of the hardened marks. */
  datatype Step = Step(n: nat, mark: string)

  predicate Marked(st: Step) {
    st.mark == "" || (|st.mark| == 1 && IsMark(st.mark[0]))
  }

  /** A derivation index has 31 bits. */
  predicate GoodStep(st: Step) {
    st.n < 0x8000_0000 && Marked(st)
  }

  /** A hardened step has the top one of 32 bits set. */
  function StepValue(st: Step): nat {
    if st.mark == "" then st.n else st.n + 0x8000_0000
  }

  function StepText(st: Step): string {
    Decimal(st.n) + st.mark
  }

  function StepTexts(steps: seq<Step>): (r: seq<string>)
    ensures |r| == |steps| && forall i :: 0 <= i < |steps| ==> r[i] == StepText(steps[i])
  {
    seq(|steps|, i requires 0 <= i < |steps| => StepText(steps[i]))
  }

  function StepValues(steps: seq<Step>): (r: seq<nat>)
    ensures |r| == |steps| && forall i :: 0 <= i < |steps| ==> r[i] == StepValue(steps[i])
  {
    seq(|steps|, i requires 0 <= i < |steps| => StepValue(steps[i]))
  }

  function PathBody(steps: seq<Step>): string {
    Join(StepTexts(steps), '/')
  }

  predicate GoodSteps(steps: seq<Step>) {
    forall i :: 0 <= i < |steps| ==> GoodStep(steps[i])
  }

  predicate AllMarked(steps: seq<Step>) {
    forall i :: 0 <= i < |steps| ==> Marked(steps[i])
  }

  function QuotedStep(st: Step): Step {
    st.(mark := if st.mark == "" then "" else "'")
  }

  function QuotedSteps(steps: seq<Step>): (r: seq<Step>)
    ensures |r| == |steps| && forall i :: 0 <= i < |steps| ==> r[i] == QuotedStep(steps[i])
  {
    seq(|steps|, i requires 0 <= i < |steps| => QuotedStep(steps[i]))
  }

  lemma QuotedConcat(a: string, b: string)
    ensures Quoted(a + b) == Quoted(a) + Quoted(b)
  {
  }

  lemma QuotedStepText(st: Step)
    requires GoodStep(st)
    ensures Quoted(StepText(st)) == StepText(QuotedStep(st))
  {
    var digits := Decimal(st.n);
    QuotedConcat(digits, st.mark);
    assert forall i :: 0 <= i < |digits| ==> IsDigit(digits[i]);
    assert Quoted(digits) == digits;
    assert st.mark != "" ==> st.mark == [st.mark[0]] && Quoted(st.mark) == "'";
    assert st.mark == "" ==> Quoted(st.mark) == "";
  }

  /** Quoting the printed path prints the quoted path. */
  lemma {:induction false} QuotedBody(steps: seq<Step>)
    requires GoodSteps(steps)
    ensures Quoted(PathBody(steps)) == PathBody(QuotedSteps(steps))
    decreases |steps|
  {
    if |steps| == 1 {
      QuotedStepText(steps[0]);
    } else if |steps| > 1 {
      var rest := steps[1..];
      QuotedBody(rest);
      QuotedStepText(steps[0]);
      assert StepTexts(steps)[1..] == StepTexts(rest);
      assert StepTexts(QuotedSteps(steps))[1..] == StepTexts(QuotedSteps(rest));
      QuotedConcat(StepText(steps[0]) + "/", PathBody(rest));
      QuotedConcat(StepText(steps[0]), "/");
      assert Quoted("/") == "/";
    }
  }

  lemma ParsePlainStep(n: nat)
    ensures ParseStep(Decimal(n)) == if n < 0x8000_0000 then Some(n) else None
  {
    var digits := Decimal(n);
    ParseIntDecimal(n);
    assert IsDigit(digits[|digits| - 1]);
  }

  lemma ParseHardenedStep(n: nat, mark: char)
    requires IsMark(mark)
    ensures ParseStep(Decimal(n) + [mark]) == if n < 0x8000_0000 then Some(n + 0x8000_0000) else None
  {
    var text := Decimal(n) + [mark];
    ParseIntDecimal(n);
    assert text[|text| - 1] == mark && text[..|text| - 1] == Decimal(n);
  }

  lemma ParseStepText(st: Step)
    requires Marked(st)
    ensures ParseStep(StepText(st)) == if GoodStep(st) then Some(StepValue(st)) else None
  {
    if st.mark == "" {
      ParsePlainStep(st.n);
      assert StepText(st) == Decimal(st.n);
    } else {
      ParseHardenedStep(st.n, st.mark[0]);
      assert StepText(st) == Decimal(st.n) + [st.mark[0]];
    }
  }

  lemma {:induction false} ParseStepTexts(steps: seq<Step>)
    requires GoodSteps(steps)
    ensures ParseSteps(StepTexts(steps)) == Some(StepValues(steps))
    decreases |steps|
  {
    if steps != [] {
      ParseStepText(steps[0]);
      ParseStepTexts(steps[1..]);
      assert StepTexts(steps)[1..] == StepTexts(steps[1..]);
      assert StepValues(steps) == [StepValue(steps[0])] + StepValues(steps[1..]);
    }
  }

  /** One step too large refuses the whole path. */
  lemma {:induction false} LargeStepRefused(steps: seq<Step>, i: nat)
    requires AllMarked(steps) && i < |steps| && steps[i].n >= 0x8000_0000
    ensures ParseSteps(StepTexts(steps)) == None
    decreases i
  {
    if i == 0 {
      ParseStepText(steps[0]);
    } else {
      LargeStepRefused(steps[1..], i - 1);
      assert StepTexts(steps)[1..] == StepTexts(steps[1..]);
    }
  }

  lemma StepTextsReadIff(steps: seq<Step>)
    requires AllMarked(steps)
    ensures ParseSteps(StepTexts(steps)) == if GoodSteps(steps) then Some(StepValues(steps)) else None
  {
    if GoodSteps(steps) {
      ParseStepTexts(steps);
    } else {
      var i: nat :| i < |steps| && !GoodStep(steps[i]);
      LargeStepRefused(steps, i);
    }
  }

  /** The characters a printed path is made of. */
  predicate IsPathChar(c: char) {
    IsDigit(c) || IsMark(c) || c == '/'
  }

  lemma {:induction false} PathChars(steps: seq<Step>)
    requires AllMarked(steps)
    ensures forall i :: 0 <= i < |PathBody(steps)| ==> IsPathChar(PathBody(steps)[i])
    ensures steps != [] ==> PathBody(steps) != "" && IsDigit(PathBody(steps)[0])
    decreases |steps|
  {
    if steps != [] {
      StepChars(steps[0]);
      if |steps| > 1 {
        PathChars(steps[1..]);
        assert StepTexts(steps)[1..] == StepTexts(steps[1..]);
        assert PathBody(steps) == StepText(steps[0]) + "/" + PathBody(steps[1..]);
      }
    }
  }

  lemma StepChars(st: Step)
    requires Marked(st)
    ensures forall i :: 0 <= i < |StepText(st)| ==> IsPathChar(StepText(st)[i]) && StepText(st)[i] != '/'
    ensures StepText(st) != "" && IsDigit(StepText(st)[0])
  {
    var digits := Decimal(st.n);
    assert forall i :: 0 <= i < |digits| ==> IsDigit(digits[i]);
  }

  /** A printed path, of any numbers, is accepted if and only if every step fits 31 bits, and then
      read as the values of its steps. */
  lemma PathReadIff(steps: seq<Step>)
    requires AllMarked(steps)
    ensures PathToU32Array("m/" + PathBody(steps)) == if GoodSteps(steps) then Some(StepValues(steps)) else None
  {
    var body := PathBody(steps);
    PathChars(steps);
    var text := "m/" + body;
    assert text[|text| - 1] == if body == "" then '/' else body[|body| - 1];
    assert Trim(text) == text;
    if steps != [] {
      assert StartsWith(text, "m/") && text[2..] == body && !StartsWith(body, "/");
      forall i | 0 <= i < |steps| ensures '/' !in StepTexts(steps)[i] {
        StepChars(steps[i]);
      }
      SplitOnJoin(StepTexts(steps), '/');
      StepTextsReadIff(steps);
    } else {
      assert text == "m/" && StepValues(steps) == [];
    }
  }

  /** A printed path parses to the values of its steps. */
  lemma PathRoundTrip(steps: seq<Step>)
    requires GoodSteps(steps)
    ensures PathToU32Array("m/" + PathBody(steps)) == Some(StepValues(steps))
  {
    PathReadIff(steps);
  }

  /** A cosigner row as the app stores it: eight hex digits, a path, a base58 key. */
  predicate GoodRow(row: SignerRow, steps: seq<Step>) {
    && IsFingerprint(Lower(row.fingerprint))
    && GoodSteps(steps)
    && (row.path == "m/" + PathBody(steps) || (steps == [] && row.path == "m"))
    && row.xpub != "" && (forall i :: 0 <= i < |row.xpub| ==> IsBase58(row.xpub[i]))
  }

  lemma StrippedPath(row: SignerRow, steps: seq<Step>)
    requires GoodRow(row, steps)
    ensures KeyOrigin(row) == "[" + row.fingerprint + "/" + PathBody(steps) + "]" + row.xpub
  {
    var body := PathBody(steps);
    PathChars(steps);
    if row.path == "m/" + body {
      assert row.path[..2] == "m/" && row.path[2..] == body;
      assert TrimLeading(row.path, "m/") == TrimLeading(body, "m/") == body;
      assert TrimLeading(body, "m") == body;
    } else {
      assert TrimLeading("m", "m/") == "m" && "m"[1..] == "";
      assert TrimLeading("m", "m") == TrimLeading("", "m") == "";
    }
  }

  /** What may follow a key: nothing, or a slash and then no structural character. */
  predicate IsSuffix(s: string) {
    (s != "" ==> s[0] == '/') && forall i :: 0 <= i < |s| ==> s[i] !in "(),#" && !IsSpace(s[i])
  }

  lemma OriginParts(fp: string, body: string, after: string)
    requires '/' !in fp && ']' !in fp && ']' !in body
    ensures
      var key := "[" + fp + "/" + body + "]" + after;
      var closing := IndexOf(key, ']');
      && StartsWith(key, "[") && ']' in key && closing == |fp| + |body| + 2 < |key|
      && key[1..closing] == fp + "/" + body && key[closing + 1..] == after
      && IndexOf(fp + "/" + body, '/') == |fp| && (fp + "/" + body)[..|fp|] == fp
      && (fp + "/" + body)[|fp| + 1..] == body
  {
    var front := "[" + fp + "/" + body;
    var key := front + "]" + after;
    assert forall i :: 0 <= i < |front| ==>
      front[i] == (if i == 0 then '[' else if i <= |fp| then fp[i - 1] else if i == |fp| + 1 then '/' else body[i - |fp| - 2]);
    assert ']' !in front;
    IndexOfIs(front, ']', after);
    IndexOfIs(fp, '/', body);
    assert key[|front|] == ']';
    assert key[1..|front|] == front[1..] == fp + "/" + body;
  }

  lemma FingerprintIsPlain(fp: string)
    requires IsFingerprint(Lower(fp))
    ensures |fp| == 8 && forall i :: 0 <= i < |fp| ==> fp[i] !in "(),#/]" && !IsSpace(fp[i])
  {
    forall i | 0 <= i < |fp| ensures fp[i] !in "(),#/]" && !IsSpace(fp[i]) {
      assert IsHexLower(LowerChar(fp[i]));
    }
  }

  lemma XpubThenSuffix(xpub: string, suffix: string)
    requires (forall i :: 0 <= i < |xpub| ==> IsBase58(xpub[i])) && (suffix != "" ==> suffix[0] == '/')
    ensures Before(xpub + suffix, '/') == xpub && (xpub + suffix)[|xpub|..] == suffix
  {
    assert '/' !in xpub;
    if suffix == "" {
      assert xpub + suffix == xpub;
      IndexOfAbsent(xpub, '/');
    } else {
      assert xpub + suffix == xpub + ['/'] + suffix[1..];
      IndexOfIs(xpub, '/', suffix[1..]);
    }
  }

  lemma ParseAssembled(fp: string, body: string, after: string, derivation: seq<nat>)
    requires IsFingerprint(Lower(fp)) && ']' !in body && XpubOf(after) != ""
    requires PathToU32Array("m/" + Quoted(body)) == Some(derivation)
    ensures ParseDescriptorKey("[" + fp + "/" + body + "]" + after) ==
      Ok(SignerKey(Lower(fp), derivation, XpubOf(after)))
  {
    FingerprintIsPlain(fp);
    OriginParts(fp, body, after);
  }

  /** The shape of a key text, taken apart. */
  predicate KeyShape(key: string, fp: string, path: string, after: string) {
    && key == "[" + fp + "/" + path + "]" + after
    && IsFingerprint(Lower(fp)) && ']' !in path
    && PathToU32Array("m/" + Quoted(path)).Some? && XpubOf(after) != ""
  }

  /** A key is accepted if and only if it has that shape, and nothing else is read from it. */
  lemma KeyAcceptedIff(key: string)
    ensures ParseDescriptorKey(key).Ok? <==> exists fp, path, after :: KeyShape(key, fp, path, after)
    ensures forall fp, path, after :: KeyShape(key, fp, path, after) ==>
      ParseDescriptorKey(key) ==
      Ok(SignerKey(Lower(fp), PathToU32Array("m/" + Quoted(path)).value, XpubOf(after)))
  {
    forall fp, path, after | KeyShape(key, fp, path, after)
      ensures ParseDescriptorKey(key) ==
        Ok(SignerKey(Lower(fp), PathToU32Array("m/" + Quoted(path)).value, XpubOf(after)))
    {
      ParseAssembled(fp, path, after, PathToU32Array("m/" + Quoted(path)).value);
    }
    if ParseDescriptorKey(key).Ok? {
      AcceptedKeyShape(key);
    }
  }

  lemma AcceptedKeyShape(key: string)
    requires ParseDescriptorKey(key).Ok?
    ensures exists fp, path, after :: KeyShape(key, fp, path, after)
  {
    var fp, path, after := OriginCut(key);
    ShapeOfCut(key, fp, path, after);
  }

  /** A text that starts with a bracket, closes it, and has a slash in between. */
  lemma OriginCut(key: string) returns (fp: string, path: string, after: string)
    requires StartsWith(key, "[") && ']' in key
    requires '/' in key[1..IndexOf(key, ']')]
    ensures
      var closing := IndexOf(key, ']');
      var slash := IndexOf(key[1..closing], '/');
      && slash < |key[1..closing]| && fp == key[1..closing][..slash] && path == key[1..closing][slash + 1..]
      && after == key[closing + 1..]
    ensures key == ['['] + (fp + ['/'] + path) + [']'] + after && ']' !in path
  {
    var closing := IndexOf(key, ']');
    var origin := key[1..closing];
    var slash := IndexOf(origin, '/');
    fp, path, after := origin[..slash], origin[slash + 1..], key[closing + 1..];
    CutAt(key, closing);
    CutAt(origin, slash);
    assert key[..closing] == ['['] + origin;
    forall i | 0 <= i < |path| ensures path[i] != ']' {
      assert path[i] == key[..closing][i + slash + 2];
    }
  }

  lemma CutAt(s: string, k: nat)
    requires k < |s|
    ensures s == s[..k] + [s[k]] + s[k + 1..]
  {
  }

  lemma ShapeOfCut(key: string, fp: string, path: string, after: string)
    requires key == ['['] + (fp + ['/'] + path) + [']'] + after
    requires IsFingerprint(Lower(fp)) && ']' !in path
    requires PathToU32Array("m/" + Quoted(path)).Some? && XpubOf(after) != ""
    ensures KeyShape(key, fp, path, after)
  {
    assert "[" + fp + "/" + path + "]" + after == ['['] + (fp + ['/'] + path) + [']'] + after;
  }

  lemma QuotedRoundTrip(steps: seq<Step>)
    requires GoodSteps(steps)
    ensures PathToU32Array("m/" + PathBody(QuotedSteps(steps))) == Some(StepValues(steps))
  {
    PathRoundTrip(QuotedSteps(steps));
    assert StepValues(QuotedSteps(steps)) == StepValues(steps);
  }

  lemma QuotedPathParses(steps: seq<Step>)
    requires GoodSteps(steps)
    ensures ']' !in PathBody(steps)
    ensures PathToU32Array("m/" + Quoted(PathBody(steps))) == Some(StepValues(steps))
  {
    PathChars(steps);
    QuotedBody(steps);
    QuotedRoundTrip(steps);
  }

  lemma OriginText(row: SignerRow, steps: seq<Step>, suffix: string)
    requires GoodRow(row, steps)
    ensures KeyOrigin(row) + suffix == "[" + row.fingerprint + "/" + PathBody(steps) + "]" + (row.xpub + suffix)
  {
    StrippedPath(row, steps);
  }

  /** Parsing a printed key origin, with any suffix, returns the row's fingerprint, the steps of
      its path and its key. */
  lemma ParseInvertsKeyOrigin(row: SignerRow, steps: seq<Step>, suffix: string)
    requires GoodRow(row, steps) && IsSuffix(suffix)
    ensures ParseDescriptorKey(KeyOrigin(row) + suffix) ==
      Ok(SignerKey(Lower(row.fingerprint), StepValues(steps), row.xpub))
  {
    QuotedPathParses(steps);
    XpubThenSuffix(row.xpub, suffix);
    ParseAssembled(row.fingerprint, PathBody(steps), row.xpub + suffix, StepValues(steps));
    OriginText(row, steps, suffix);
  }

  /** The device, given the row's own path, derives the same steps. */
  lemma RowPath(row: SignerRow, steps: seq<Step>)
    requires GoodRow(row, steps)
    ensures PathToU32Array(row.path) == Some(StepValues(steps))
  {
    PathRoundTrip(steps);
    if row.path == "m" {
      assert Trim("m") == "m" && StepValues([]) == [];
      assert row.path == "m/" + PathBody(steps) || steps == [];
    }
  }

  // ----- whole descriptors -----

  datatype Cosigner = Cosigner(row: SignerRow, steps: seq<Step>, suffix: string)

  predicate GoodCosigner(c: Cosigner) {
    GoodRow(c.row, c.steps) && IsSuffix(c.suffix)
  }

  predicate AllGood(cs: seq<Cosigner>) {
    forall i :: 0 <= i < |cs| ==> GoodCosigner(cs[i])
  }

  function KeyText(c: Cosigner): string {
    KeyOrigin(c.row) + c.suffix
  }

  function KeyTexts(cs: seq<Cosigner>): (r: seq<string>)
    ensures |r| == |cs| && forall i :: 0 <= i < |cs| ==> r[i] == KeyText(cs[i])
  {
    seq(|cs|, i requires 0 <= i < |cs| => KeyText(cs[i]))
  }

  function KeyOf(c: Cosigner): SignerKey {
    SignerKey(Lower(c.row.fingerprint), StepValues(c.steps), c.row.xpub)
  }

  function KeysOf(cs: seq<Cosigner>): (r: seq<SignerKey>)
    ensures |r| == |cs| && forall i :: 0 <= i < |cs| ==> r[i] == KeyOf(cs[i])
  {
    seq(|cs|, i requires 0 <= i < |cs| => KeyOf(cs[i]))
  }

  /** No structural character and no space. */
  predicate Plain(s: string) {
    forall i :: 0 <= i < |s| ==> s[i] !in "(),#" && !IsSpace(s[i])
  }

  lemma PlainConcat(a: string, b: string)
    requires Plain(a) && Plain(b)
    ensures Plain(a + b)
  {
  }

  lemma PartsArePlain(row: SignerRow, steps: seq<Step>)
    requires GoodRow(row, steps)
    ensures Plain(row.fingerprint) && Plain(PathBody(steps)) && Plain(row.xpub)
  {
    FingerprintIsPlain(row.fingerprint);
    PathChars(steps);
    assert forall i :: 0 <= i < |PathBody(steps)| ==> IsPathChar(PathBody(steps)[i]);
    assert forall i :: 0 <= i < |row.xpub| ==> IsBase58(row.xpub[i]);
  }

  lemma KeyTextIsPlain(c: Cosigner)
    requires GoodCosigner(c)
    ensures Plain(KeyText(c)) && KeyText(c) != "" && KeyText(c)[0] == '['
  {
    var row, body := c.row, PathBody(c.steps);
    StrippedPath(row, c.steps);
    PartsArePlain(row, c.steps);
    assert Plain("[") && Plain("/") && Plain("]");
    PlainConcat("[", row.fingerprint);
    PlainConcat("[" + row.fingerprint, "/");
    PlainConcat("[" + row.fingerprint + "/", body);
    PlainConcat("[" + row.fingerprint + "/" + body, "]");
    PlainConcat("[" + row.fingerprint + "/" + body + "]", row.xpub);
    PlainConcat(KeyOrigin(row), c.suffix);
  }

  lemma TightTrim(s: string)
    requires Tight(s)
    ensures Trim(s) == s
  {
  }

  predicate Parses(text: string, key: SignerKey) {
    ParseDescriptorKey(Trim(text)) == Ok(key)
  }

  lemma KeyTextParses(c: Cosigner)
    requires GoodCosigner(c)
    ensures Parses(KeyText(c), KeyOf(c))
  {
    KeyTextIsPlain(c);
    TightTrim(KeyText(c));
    ParseInvertsKeyOrigin(c.row, c.steps, c.suffix);
  }

  /** A key list is accepted if and only if every key is, and the keys come back in order. */
  lemma {:induction false} KeyListAcceptedIff(texts: seq<string>)
    ensures ParseKeys(texts).Ok? <==> forall i :: 0 <= i < |texts| ==> ParseDescriptorKey(Trim(texts[i])).Ok?
    ensures ParseKeys(texts).Ok? ==>
      && |ParseKeys(texts).value| == |texts|
      && forall i :: 0 <= i < |texts| ==> Parses(texts[i], ParseKeys(texts).value[i])
  {
    if texts != [] {
      var rest := texts[1..];
      KeyListAcceptedIff(rest);
      assert forall i :: 0 < i < |texts| ==> texts[i] == rest[i - 1];
      if ParseDescriptorKey(Trim(texts[0])).Ok? && ParseKeys(rest).Ok? {
        ParseKeysCons(texts[0], rest, ParseDescriptorKey(Trim(texts[0])).value, ParseKeys(rest).value);
        assert texts == [texts[0]] + rest;
      }
    }
  }

  lemma ParseKeysCons(text: string, texts: seq<string>, key: SignerKey, keys: seq<SignerKey>)
    requires Parses(text, key) && ParseKeys(texts) == Ok(keys)
    ensures ParseKeys([text] + texts) == Ok([key] + keys)
  {
    assert ([text] + texts)[1..] == texts;
  }

  lemma {:induction false} ParseKeysAll(texts: seq<string>, keys: seq<SignerKey>)
    requires |texts| == |keys| && forall i {:trigger Parses(texts[i], keys[i])} :: 0 <= i < |keys| ==> Parses(texts[i], keys[i])
    ensures ParseKeys(texts) == Ok(keys)
  {
    if texts != [] {
      forall i | 0 <= i < |keys| - 1 ensures Parses(texts[1..][i], keys[1..][i]) {
        assert Parses(texts[i + 1], keys[i + 1]);
      }
      ParseKeysAll(texts[1..], keys[1..]);
      assert Parses(texts[0], keys[0]);
      ParseKeysCons(texts[0], texts[1..], keys[0], keys[1..]);
      assert texts == [texts[0]] + texts[1..] && keys == [keys[0]] + keys[1..];
    }
  }

  lemma ParseKeyTexts(cs: seq<Cosigner>)
    requires AllGood(cs)
    ensures ParseKeys(KeyTexts(cs)) == Ok(KeysOf(cs))
  {
    forall i | 0 <= i < |cs| ensures Parses(KeyTexts(cs)[i], KeysOf(cs)[i]) {
      KeyTextParses(cs[i]);
    }
    ParseKeysAll(KeyTexts(cs), KeysOf(cs));
  }

  function MultiArgs(m: nat, cs: seq<Cosigner>): string {
    Join(MultiParts(m, cs), ',')
  }

  function MultiText(m: nat, cs: seq<Cosigner>): string {
    "sortedmulti(" + MultiArgs(m, cs) + ")"
  }

  lemma MultiParses(args: string, m: nat, parts: seq<string>, keys: seq<SignerKey>)
    requires Split(args) == parts && |parts| >= 2 && m >= 1
    requires ParseInt(Trim(parts[0])) == Some(m) && ParseKeys(parts[1..]) == Ok(keys)
    ensures ParseSortedMulti("sortedmulti(" + args + ")") == Ok(SortedMulti(m, keys))
  {
    InsideOf("sortedmulti(", args);
  }

  function MultiParts(m: nat, cs: seq<Cosigner>): seq<string> {
    [Decimal(m)] + KeyTexts(cs)
  }

  lemma MultiPartIsPlain(m: nat, cs: seq<Cosigner>, i: nat)
    requires AllGood(cs) && i <= |cs|
    ensures Plain(MultiParts(m, cs)[i]) && MultiParts(m, cs)[i] != ""
  {
    if i == 0 {
      DecimalIsPlain(m);
    } else {
      assert MultiParts(m, cs)[i] == KeyTexts(cs)[i - 1] == KeyText(cs[i - 1]);
      KeyTextIsPlain(cs[i - 1]);
    }
  }

  lemma PlainTexts(s: string)
    requires Plain(s)
    ensures Level(0, s) && Bare(s) && NoParens(s)
  {
    PlainIsLevel(s);
  }

  lemma MultiArgsSplit(m: nat, cs: seq<Cosigner>)
    requires AllGood(cs)
    ensures Split(MultiArgs(m, cs)) == MultiParts(m, cs)
    ensures Bare(MultiArgs(m, cs)) && NoParens(MultiArgs(m, cs))
  {
    var parts := MultiParts(m, cs);
    forall i | 0 <= i < |parts| ensures Level(0, parts[i]) && Bare(parts[i]) && NoParens(parts[i]) {
      MultiPartIsPlain(m, cs, i);
      PlainTexts(parts[i]);
    }
    JoinIsBare(parts);
    JoinHasNoParens(parts);
    MultiPartIsPlain(m, cs, |cs|);
    SplitInvertsJoin(parts);
  }

  lemma {:induction false} JoinHasNoParens(parts: seq<string>)
    requires forall i :: 0 <= i < |parts| ==> NoParens(parts[i])
    ensures NoParens(Join(parts, ','))
    decreases |parts|
  {
    if |parts| > 1 {
      JoinHasNoParens(parts[1..]);
    }
  }

  predicate NoParens(s: string) {
    forall i :: 0 <= i < |s| ==> s[i] !in "()"
  }

  lemma MultiRoundTrip(m: nat, cs: seq<Cosigner>)
    requires m >= 1 && cs != [] && AllGood(cs)
    ensures ParseSortedMulti(MultiText(m, cs)) == Ok(SortedMulti(m, KeysOf(cs)))
  {
    var parts := MultiParts(m, cs);
    MultiArgsSplit(m, cs);
    ParseIntDecimal(m);
    TightTrim(Decimal(m));
    ParseKeyTexts(cs);
    assert parts[1..] == KeyTexts(cs);
    MultiParses(MultiArgs(m, cs), m, parts, KeysOf(cs));
  }

  /** No checksum mark and no space: joined keys are printed without either. */
  predicate Bare(s: string) {
    forall i :: 0 <= i < |s| ==> s[i] != '#' && !IsSpace(s[i])
  }

  lemma {:induction false} JoinIsBare(parts: seq<string>)
    requires forall i :: 0 <= i < |parts| ==> Bare(parts[i])
    ensures Bare(Join(parts, ','))
    decreases |parts|
  {
    if |parts| > 1 {
      JoinIsBare(parts[1..]);
    }
  }

  lemma BareConcat(a: string, b: string)
    requires Bare(a) && Bare(b)
    ensures Bare(a + b)
  {
  }

  lemma MultiIsBare(m: nat, cs: seq<Cosigner>)
    requires AllGood(cs)
    ensures Bare(MultiText(m, cs))
  {
    MultiArgsSplit(m, cs);
    assert Bare("sortedmulti(") && Bare(")");
    BareConcat("sortedmulti(", MultiArgs(m, cs));
    BareConcat("sortedmulti(" + MultiArgs(m, cs), ")");
  }

  /** A checksum is a mark and any text; it may be missing. */
  predicate IsChecksum(s: string) {
    s != "" ==> s[0] == '#'
  }

  lemma ChecksumDropped(s: string, checksum: string)
    requires Bare(s) && IsChecksum(checksum)
    ensures Trim(Before(s + checksum, '#')) == s
  {
    assert '#' !in s;
    if checksum == "" {
      assert s + checksum == s;
      IndexOfAbsent(s, '#');
    } else {
      assert s + checksum == s + ['#'] + checksum[1..];
      IndexOfIs(s, '#', checksum[1..]);
    }
    TightTrim(s);
  }

  /** Reading a printed `wsh(sortedmulti(...))` returns the threshold and the keys in order,
      whatever the checksum and the key suffixes. */
  lemma WshRoundTrip(m: nat, cs: seq<Cosigner>, checksum: string)
    requires m >= 1 && cs != [] && AllGood(cs) && IsChecksum(checksum)
    ensures ParseSortedMultiWshDescriptor("wsh(" + MultiText(m, cs) + ")" + checksum) ==
      Ok(SortedMulti(m, KeysOf(cs)))
  {
    var inner := MultiText(m, cs);
    MultiIsBare(m, cs);
    assert Bare("wsh(") && Bare(")") && Bare("wsh(" + inner + ")");
    ChecksumDropped("wsh(" + inner + ")", checksum);
    InsideOf("wsh(", inner);
    TightTrim(inner);
    MultiRoundTrip(m, cs);
  }

  // ----- blinding keys -----

  function HexText(key: seq<byte>): (s: string)
    ensures |s| == 2 * |key|
    ensures forall i :: 0 <= i < |s| ==> IsHexLower(s[i]) && s[i] !in "(),#" && !IsSpace(s[i])
  {
    if key == [] then ""
    else [HexChar(key[0] as nat / 16), HexChar(key[0] as nat % 16)] + HexText(key[1..])
  }

  lemma {:induction false} HexTextRoundTrip(key: seq<byte>)
    ensures HexToBytes(HexText(key)) == key
  {
    if key != [] {
      HexTextRoundTrip(key[1..]);
      assert HexText(key)[2..] == HexText(key[1..]);
      assert key == [key[0]] + key[1..];
    }
  }

  lemma Slip77RoundTrip(key: seq<byte>)
    requires |key| == 32
    ensures ParseSlip77Key("slip77(" + HexText(key) + ")") == Ok(key)
  {
    var hex := HexText(key);
    var text := "slip77(" + hex + ")";
    TightTrim(text);
    InsideOf("slip77(", hex);
    TightTrim(hex);
    assert forall i :: 0 <= i < |hex| ==> LowerChar(hex[i]) == hex[i];
    assert Lower(hex) == hex;
    HexTextRoundTrip(key);
  }

  // ----- confidential descriptors -----

  /** Below the top level a text without parentheses does not matter, commas or not. */
  lemma {:induction false} LevelSkips(depth: int, s: string, rest: string)
    requires forall i :: 0 <= i < |s| ==> s[i] !in "()" && (depth == 0 ==> s[i] != ',')
    ensures Level(depth, s + rest) == Level(depth, rest)
    decreases |s|
  {
    if s == "" {
      assert s + rest == rest;
    } else {
      assert (s + rest)[0] == s[0] && (s + rest)[1..] == s[1..] + rest;
      assert forall i :: 0 <= i < |s| - 1 ==> s[1..][i] == s[i + 1];
      LevelSkips(depth, s[1..], rest);
    }
  }

  lemma LevelOpens(depth: int, name: string, rest: string)
    requires Plain(name)
    ensures Level(depth, name + ("(" + rest)) == Level(depth + 1, rest)
  {
    LevelSkips(depth, name, "(" + rest);
    assert ("(" + rest)[0] == '(' && ("(" + rest)[1..] == rest;
  }

  lemma LevelCloses(depth: int, rest: string)
    ensures Level(depth, ")" + rest) == Level(depth - 1, rest)
  {
    assert (")" + rest)[0] == ')' && (")" + rest)[1..] == rest;
  }

  function Slip77Text(key: seq<byte>): string {
    "slip77(" + HexText(key) + ")"
  }

  function ElwshText(m: nat, cs: seq<Cosigner>): string {
    "elwsh(" + MultiText(m, cs) + ")"
  }

  lemma Slip77IsLevel(key: seq<byte>)
    ensures Level(0, Slip77Text(key)) && Bare(Slip77Text(key))
  {
    var hex := HexText(key);
    assert Slip77Text(key) == "slip77" + ("(" + (hex + ")"));
    LevelOpens(0, "slip77", hex + ")");
    LevelSkips(1, hex, ")");
    assert ")" == ")" + "";
    LevelCloses(1, "");
  }

  lemma ElwshIsBare(m: nat, cs: seq<Cosigner>)
    requires AllGood(cs)
    ensures Bare(ElwshText(m, cs))
  {
    MultiIsBare(m, cs);
    assert Bare("elwsh(") && Bare(")");
  }

  /** A call without nested calls, and one around it. */
  lemma CallIsLevel(name: string, args: string)
    requires Plain(name) && NoParens(args)
    ensures Level(1, name + ("(" + (args + "))")))
  {
    LevelOpens(1, name, args + "))");
    LevelSkips(2, args, "))");
    assert "))" == ")" + (")" + "");
    LevelCloses(2, ")" + "");
    LevelCloses(1, "");
  }

  lemma ElwshIsLevel(m: nat, cs: seq<Cosigner>)
    requires AllGood(cs)
    ensures Level(0, ElwshText(m, cs))
  {
    MultiArgsSplit(m, cs);
    var tail := "sortedmulti" + ("(" + (MultiArgs(m, cs) + "))"));
    CallIsLevel("sortedmulti", MultiArgs(m, cs));
    LevelOpens(0, "elwsh", tail);
    NestedText(MultiArgs(m, cs));
  }

  lemma NestedText(args: string)
    ensures "elwsh(" + ("sortedmulti(" + args + ")") + ")" == "elwsh" + ("(" + ("sortedmulti" + ("(" + (args + "))"))))
  {
  }

  function CtArgs(key: seq<byte>, m: nat, cs: seq<Cosigner>): string {
    Slip77Text(key) + "," + ElwshText(m, cs)
  }

  lemma CtArgsSplit(key: seq<byte>, m: nat, cs: seq<Cosigner>)
    requires AllGood(cs)
    ensures Split(CtArgs(key, m, cs)) == [Slip77Text(key), ElwshText(m, cs)]
    ensures Bare(CtArgs(key, m, cs))
  {
    var parts := [Slip77Text(key), ElwshText(m, cs)];
    Slip77IsLevel(key);
    ElwshIsLevel(m, cs);
    ElwshIsBare(m, cs);
    assert parts[1..] == [ElwshText(m, cs)];
    assert Join(parts, ',') == CtArgs(key, m, cs);
    SplitInvertsJoin(parts);
  }

  /** Reading a printed `ct(slip77(...),elwsh(sortedmulti(...)))` returns the blinding key, the
      threshold and the keys in order. */
  lemma CtRoundTrip(key: seq<byte>, m: nat, cs: seq<Cosigner>, checksum: string)
    requires |key| == 32 && m >= 1 && cs != [] && AllGood(cs) && IsChecksum(checksum)
    ensures ParseCtDescriptor("ct(" + CtArgs(key, m, cs) + ")" + checksum) ==
      Ok(CtDescriptor(key, SortedMulti(m, KeysOf(cs))))
  {
    var args := CtArgs(key, m, cs);
    CtArgsSplit(key, m, cs);
    assert Bare("ct(") && Bare(")") && Bare("ct(" + args + ")");
    ChecksumDropped("ct(" + args + ")", checksum);
    InsideOf("ct(", args);
    TightTrim(args);
    CtPartsParse(key, m, cs);
  }

  lemma CtPartsParse(key: seq<byte>, m: nat, cs: seq<Cosigner>)
    requires |key| == 32 && m >= 1 && cs != [] && AllGood(cs)
    ensures ParseSlip77Key(Trim(Slip77Text(key))) == Ok(key)
    ensures Inside(Trim(ElwshText(m, cs)), "elwsh(") == Some(MultiText(m, cs))
    ensures ParseSortedMulti(Trim(MultiText(m, cs))) == Ok(SortedMulti(m, KeysOf(cs)))
  {
    Slip77IsLevel(key);
    ElwshIsLevel(m, cs);
    ElwshIsBare(m, cs);
    MultiIsBare(m, cs);
    TightTrim(Slip77Text(key));
    TightTrim(ElwshText(m, cs));
    TightTrim(MultiText(m, cs));
    Slip77RoundTrip(key);
    InsideOf("elwsh(", MultiText(m, cs));
    MultiRoundTrip(m, cs);
  }

  // ----- peeling -----

  predicate AreWrappers(ws: seq<string>) {
    forall i :: 0 <= i < |ws| ==> ws[i] in ["pkh(", "wpkh(", "sh(", "wsh(", "tr("]
  }

  function Wrap(ws: seq<string>, key: string): string {
    if ws == [] then key else ws[0] + Wrap(ws[1..], key) + ")"
  }

  lemma {:induction false} WrapIsTight(ws: seq<string>, key: string)
    requires AreWrappers(ws) && Bare(key) && key != "" && key[0] == '['
    ensures Bare(Wrap(ws, key)) && Wrap(ws, key) != ""
    ensures ws == [] ==> WrapperOf(Wrap(ws, key)).None?
    ensures ws != [] ==> Wrap(ws, key)[0] != '['
  {
    if ws != [] {
      WrapIsTight(ws[1..], key);
      WrapOne(ws[0], Wrap(ws[1..], key));
    }
  }

  lemma WrapOne(w: string, inner: string)
    requires w in WRAPPERS && Bare(inner)
    ensures Bare(w + inner + ")") && (w + inner + ")")[0] != '['
  {
    assert Bare("pkh(") && Bare("wpkh(") && Bare("sh(") && Bare("wsh(") && Bare("tr(");
    assert w[0] != '[';
  }

  lemma DifferentStart(s: string, p: string)
    requires |s| >= 2 && |p| >= 2 && (s[0] != p[0] || s[1] != p[1])
    ensures !StartsWith(s, p)
  {
    assert |p| <= |s| ==> s[..|p|][0] == s[0] && s[..|p|][1] == s[1];
  }

  lemma {:induction false} OnlyWrapper(ws: seq<string>, s: string, w: string)
    requires w in ws && Inside(s, w).Some? && forall v :: v in ws && v != w ==> Inside(s, v).None?
    ensures FirstWrapper(ws, s) == Some(w)
  {
    if ws[0] != w {
      assert forall v :: v in ws[1..] ==> v in ws;
      OnlyWrapper(ws[1..], s, w);
    }
  }

  /** Only one wrapper fits. */
  lemma WrapperIsUnique(w: string, body: string)
    requires w in WRAPPERS
    ensures WrapperOf(w + body + ")") == Some(w)
  {
    InsideOf(w, body);
    var s := w + body + ")";
    forall v | v in WRAPPERS && v != w ensures Inside(s, v).None? {
      DifferentStart(s, v);
    }
    OnlyWrapper(WRAPPERS, s, w);
  }

  lemma PeelOne(w: string, inner: string, safety: nat)
    requires w in WRAPPERS && Tight(inner)
    ensures Peel(w + inner + ")", safety + 1) == Peel(inner, safety)
  {
    WrapperIsUnique(w, inner);
    InsideOf(w, inner);
    TightTrim(inner);
  }

  lemma {:induction false} PeelUnwraps(ws: seq<string>, key: string, safety: nat)
    requires AreWrappers(ws) && Bare(key) && key != "" && key[0] == '['
    ensures Peel(Wrap(ws, key), safety) == Wrap(if safety < |ws| then ws[safety..] else [], key)
    decreases safety
  {
    if ws == [] {
      WrapIsTight(ws, key);
    } else if safety == 0 {
      assert ws[0..] == ws;
    } else {
      WrapIsTight(ws[1..], key);
      PeelOne(ws[0], Wrap(ws[1..], key), safety - 1);
      PeelUnwraps(ws[1..], key, safety - 1);
      assert safety < |ws| ==> ws[1..][safety - 1..] == ws[safety..];
    }
  }

  /** A wrapped key comes out bare exactly when it has at most four wrappers; of more, the
      inner ones are left on. */
  lemma UnwrapPeelsFourIff(ws: seq<string>, key: string, checksum: string)
    requires AreWrappers(ws) && Bare(key) && key != "" && key[0] == '[' && IsChecksum(checksum)
    ensures Unwrap(Wrap(ws, key) + checksum) == Some(Wrap(if 4 < |ws| then ws[4..] else [], key))
    ensures Unwrap(Wrap(ws, key) + checksum) == Some(key) <==> |ws| <= 4
  {
    WrapIsTight(ws, key);
    ChecksumDropped(Wrap(ws, key), checksum);
    PeelUnwraps(ws, key, MAX_PEELS);
    if MAX_PEELS < |ws| {
      assert AreWrappers(ws[MAX_PEELS..]);
      WrapIsTight(ws[MAX_PEELS..], key);
    }
  }

  lemma KeyTextIsBare(c: Cosigner)
    requires GoodCosigner(c)
    ensures Bare(KeyText(c)) && KeyText(c) != "" && KeyText(c)[0] == '['
  {
    KeyTextIsPlain(c);
  }

  lemma TrezorWrapped(ws: seq<string>, key: string, checksum: string)
    requires AreWrappers(ws) && Bare(key) && key != "" && key[0] == '[' && IsChecksum(checksum)
    ensures ParseTrezorDescriptor(Wrap(ws, key) + checksum) ==
      if |ws| <= MAX_PEELS then ParseTrezorKey(key) else None
  {
    UnwrapPeelsFourIff(ws, key, checksum);
    if |ws| > MAX_PEELS {
      WrapIsTight(ws[MAX_PEELS..], key);
      NoOriginNoKey(Wrap(ws[MAX_PEELS..], key));
    }
  }

  /** The Trezor fallback reads the fingerprint, the normalised origin path and the key back
      from a printed key under any wrappers, and fails exactly when there are more than four. */
  lemma TrezorReadsBackIff(ws: seq<string>, c: Cosigner, checksum: string)
    requires AreWrappers(ws) && GoodCosigner(c) && IsChecksum(checksum)
    ensures ParseTrezorDescriptor(Wrap(ws, KeyText(c)) + checksum) ==
      if |ws| <= 4
      then Some(TrezorKey(Lower(c.row.fingerprint), Quoted(PathBody(c.steps)), c.row.xpub))
      else None
  {
    KeyTextIsBare(c);
    TrezorWrapped(ws, KeyText(c), checksum);
    TrezorKeyReadsBack(c);
  }

  lemma NoOriginNoKey(s: string)
    requires s != "" && s[0] != '['
    ensures ParseTrezorKey(s) == None
  {
    assert !StartsWith(s, "[");
  }

  /** A key captured with its path and the same key read from a descriptor agree on the path. */
  lemma CaptureAgreesWithFallback(steps: seq<Step>)
    requires GoodSteps(steps)
    ensures OriginBody("m/" + PathBody(steps)) == Quoted(PathBody(steps)) == PathBody(QuotedSteps(steps))
    ensures OriginBody(OriginBody("m/" + PathBody(steps))) == OriginBody("m/" + PathBody(steps))
  {
    var path := "m/" + PathBody(steps);
    assert path[..2] == "m/" && path[2..] == PathBody(steps);
    QuotedBody(steps);
    QuotedBody(QuotedSteps(steps));
    PathChars(QuotedSteps(steps));
    assert QuotedSteps(QuotedSteps(steps)) == QuotedSteps(steps);
  }

  lemma TrezorCutReads(inner: string, origin: string, slash: nat, after: string, xpub: string)
    requires StartsWith(inner, "[") && ']' in inner
    requires inner[1..IndexOf(inner, ']')] == origin && inner[IndexOf(inner, ']') + 1..] == after
    requires 1 <= slash < |origin| && slash == IndexOf(origin, '/') && IsFingerprint(Lower(origin[..slash]))
    requires xpub == Before(after, '/') && xpub != "" && forall i :: 0 <= i < |xpub| ==> IsBase58(xpub[i])
    requires forall i :: 0 <= i < |after[|xpub|..]| ==> !IsLineEnd(after[|xpub|..][i])
    ensures ParseTrezorKey(inner) == Some(TrezorKey(Lower(origin[..slash]), Quoted(origin[slash + 1..]), xpub))
  {
  }

  lemma SuffixIsOneLine(suffix: string)
    requires IsSuffix(suffix)
    ensures forall i :: 0 <= i < |suffix| ==> !IsLineEnd(suffix[i])
  {
    assert forall i :: 0 <= i < |suffix| ==> !IsSpace(suffix[i]);
  }

  lemma TrezorAssembled(fp: string, body: string, xpub: string, suffix: string)
    requires IsFingerprint(Lower(fp)) && ']' !in body && (suffix != "" ==> suffix[0] == '/')
    requires forall i :: 0 <= i < |suffix| ==> !IsLineEnd(suffix[i])
    requires xpub != "" && forall i :: 0 <= i < |xpub| ==> IsBase58(xpub[i])
    ensures ParseTrezorKey("[" + fp + "/" + body + "]" + (xpub + suffix)) ==
      Some(TrezorKey(Lower(fp), Quoted(body), xpub))
  {
    FingerprintIsPlain(fp);
    OriginParts(fp, body, xpub + suffix);
    XpubThenSuffix(xpub, suffix);
    TrezorCutReads("[" + fp + "/" + body + "]" + (xpub + suffix), fp + "/" + body, |fp|, xpub + suffix, xpub);
  }

  lemma TrezorKeyReadsBack(c: Cosigner)
    requires GoodCosigner(c)
    ensures ParseTrezorKey(KeyText(c)) ==
      Some(TrezorKey(Lower(c.row.fingerprint), Quoted(PathBody(c.steps)), c.row.xpub))
  {
    QuotedPathParses(c.steps);
    SuffixIsOneLine(c.suffix);
    TrezorAssembled(c.row.fingerprint, PathBody(c.steps), c.row.xpub, c.suffix);
    OriginText(c.row, c.steps, c.suffix);
  }
}
