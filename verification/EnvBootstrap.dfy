/** Filling the process environment from a runtime env file. */
module EnvBootstrap {
  import opened Common

  type Environ = map<string, string>

  datatype Pair = Pair(key: string, value: string)

  // -------------------------------------------------------------------- parsing

  /** The characters `str.strip` removes. */
  predicate IsPySpace(c: char) {
    var n := c as int;
    || 9 <= n <= 13 || 28 <= n <= 32 || n == 0x85 || n == 0xA0 || n == 0x1680 || 0x2000 <= n <= 0x200A
    || n == 0x2028 || n == 0x2029 || n == 0x202F || n == 0x205F || n == 0x3000
  }

  predicate OneLine(s: string) { forall i :: 0 <= i < |s| ==> !IsBreak(s[i]) }

  /** Where the first line of s ends; |s| if it has only one. */
  function LineEnd(s: string): (k: nat)
    ensures k <= |s| && OneLine(s[..k])
    ensures k < |s| ==> IsBreak(s[k])
  {
    if s == "" || IsBreak(s[0]) then 0
    else
      var k := LineEnd(s[1..]);
      assert s[..k + 1] == [s[0]] + s[1..][..k];
      k + 1
  }

  /** `str.splitlines`: "\r\n" is one break, and a final break ends no new line. */
  function SplitLines(text: string): (lines: seq<string>)
    ensures forall k :: 0 <= k < |lines| ==> OneLine(lines[k])
    decreases |text|
  {
    if text == "" then []
    else
      var k := LineEnd(text);
      var rest := if k == |text| then ""
                  else if text[k] == '\r' && k + 1 < |text| && text[k + 1] == '\n' then text[k + 2..]
                  else text[k + 1..];
      [text[..k]] + SplitLines(rest)
  }

  function LStrip(s: string): (r: string)
    ensures r == "" || !IsPySpace(r[0])
    ensures s != "" && !IsPySpace(s[0]) ==> r == s
  {
    if s != "" && IsPySpace(s[0]) then LStrip(s[1..]) else s
  }

  function RStrip(s: string): (r: string)
    ensures r == "" || !IsPySpace(r[|r| - 1])
    ensures s != "" && !IsPySpace(s[|s| - 1]) ==> r == s
  {
    if s != "" && IsPySpace(s[|s| - 1]) then RStrip(s[..|s| - 1]) else s
  }

  function Strip(s: string): string { RStrip(LStrip(s)) }

  predicate Trimmed(s: string) { s == "" || (!IsPySpace(s[0]) && !IsPySpace(s[|s| - 1])) }

  lemma TrimmedStays(s: string)
    requires Trimmed(s)
    ensures Strip(s) == s
  {
  }

  lemma {:induction false} LStripSlice(s: string) returns (i: nat)
    ensures i <= |s| && LStrip(s) == s[i..]
    ensures forall k :: 0 <= k < i ==> IsPySpace(s[k])
    decreases |s|
  {
    i := 0;
    if s != "" && IsPySpace(s[0]) {
      var j := LStripSlice(s[1..]);
      i := j + 1;
    }
  }

  lemma {:induction false} RStripSlice(s: string) returns (j: nat)
    ensures j <= |s| && RStrip(s) == s[..j]
    decreases |s|
  {
    j := |s|;
    if s != "" && IsPySpace(s[|s| - 1]) {
      j := RStripSlice(s[..|s| - 1]);
    }
  }

  lemma StripSlice(s: string) returns (i: nat, j: nat)
    ensures i <= j <= |s| && Strip(s) == s[i..j] && Trimmed(Strip(s))
  {
    i := LStripSlice(s);
    var l := RStripSlice(s[i..]);
    j := i + l;
    assert s[i..][..l] == s[i..j];
  }

  /** `_parse_value`: one pair of matching quotes is taken off. */
  function ParseValue(raw: string): string {
    var v := Strip(raw);
    if |v| >= 2 && v[0] == v[|v| - 1] && v[0] in {'\'', '"'} then v[1..|v| - 1] else v
  }

  /** Where the first '=' is; |s| if nowhere. */
  function EqualsAt(s: string): (k: nat)
    ensures k <= |s|
    ensures k < |s| ==> s[k] == '='
    ensures forall i :: 0 <= i < k ==> s[i] != '='
  {
    if s == "" || s[0] == '=' then 0 else 1 + EqualsAt(s[1..])
  }

  const EXPORT: string := "export "

  function ParseBody(body: string): Option<Pair> {
    var k := EqualsAt(body);
    if k == |body| then None
    else
      var key := Strip(body[..k]);
      if key == "" then None else Some(Pair(key, ParseValue(body[k + 1..])))
  }

  function ParseLine(line: string): Option<Pair> {
    var stripped := Strip(line);
    if stripped == "" || stripped[0] == '#' then None
    else
      ParseBody(if EXPORT <= stripped then LStrip(stripped[|EXPORT|..]) else stripped)
  }

  function ParseLines(lines: seq<string>): (r: seq<Option<Pair>>)
    ensures |r| == |lines|
  {
    seq(|lines|, i requires 0 <= i < |lines| => ParseLine(lines[i]))
  }

  /** The pairs that are there, in order. */
  function Present(parsed: seq<Option<Pair>>): seq<Pair> {
    if parsed == [] then []
    else
      var last := parsed[|parsed| - 1];
      Present(parsed[..|parsed| - 1]) + if last.Some? then [last.value] else []
  }

  function ParseFile(text: string): seq<Pair> { Present(ParseLines(SplitLines(text))) }

  /** Keys a line can carry as they are. */
  predicate PlainKey(key: string) {
    key != "" && Trimmed(key) && key[0] != '#' && '=' !in key && !(EXPORT <= key)
  }

  function Render(p: Pair): string { p.key + "=\"" + p.value + "\"" }

  lemma EqualsAfterKey(key: string, rest: string)
    requires '=' !in key
    ensures EqualsAt(key + "=" + rest) == |key|
    decreases |key|
  {
    var s := key + "=" + rest;
    if key != "" {
      assert s[1..] == key[1..] + "=" + rest;
      EqualsAfterKey(key[1..], rest);
    }
  }

  // ------------------------------------------------------ what one line gives

  function Assignment(key: string, rest: string): string { key + "=" + rest }

  lemma {:induction false} RStripAfter(head: string, rest: string)
    requires head != "" && !IsPySpace(head[|head| - 1])
    ensures RStrip(head + rest) == head + RStrip(rest)
    decreases |rest|
  {
    var s := head + rest;
    if rest == "" {
      assert s == head;
    } else if IsPySpace(rest[|rest| - 1]) {
      assert s[..|s| - 1] == head + rest[..|rest| - 1];
      RStripAfter(head, rest[..|rest| - 1]);
    }
  }

  /** The line loses what follows its value, and nothing else. */
  lemma StripAssignment(key: string, rest: string)
    requires key != "" && !IsPySpace(key[0])
    ensures Strip(Assignment(key, rest)) == Assignment(key, RStrip(rest))
  {
    assert Assignment(key, rest) == (key + "=") + rest;
    RStripAfter(key + "=", rest);
    assert LStrip(Assignment(key, rest)) == Assignment(key, rest);
  }

  lemma {:induction false} StripTail(s: string, c: char)
    requires IsPySpace(c)
    ensures Strip(s + [c]) == Strip(s)
    decreases |s|
  {
    if s != "" && IsPySpace(s[0]) {
      assert (s + [c])[1..] == s[1..] + [c];
      StripTail(s[1..], c);
    } else if s == "" {
      assert [c][1..] == "";
    } else {
      assert (s + [c])[..|s|] == s;
    }
  }

  lemma {:induction false} StripRStrip(s: string)
    ensures Strip(RStrip(s)) == Strip(s)
    decreases |s|
  {
    if s != "" && IsPySpace(s[|s| - 1]) {
      var init := s[..|s| - 1];
      assert s == init + [s[|s| - 1]];
      StripTail(init, s[|s| - 1]);
      StripRStrip(init);
    }
  }

  lemma ParsePlainBody(key: string, rest: string)
    requires key != "" && Trimmed(key) && '=' !in key
    ensures ParseBody(Assignment(key, rest)) == Some(Pair(key, ParseValue(rest)))
  {
    var body := Assignment(key, rest);
    EqualsAfterKey(key, rest);
    assert body[..|key|] == key && body[|key| + 1..] == rest;
    TrimmedStays(key);
  }

  lemma ExportNeedsKey(key: string, rest: string)
    requires EXPORT <= Assignment(key, rest) && '=' !in key
    ensures EXPORT <= key
  {
    var line := Assignment(key, rest);
    assert EXPORT[0] == 'e' && EXPORT[1] == 'x' && EXPORT[2] == 'p' && EXPORT[3] == 'o' && EXPORT[4] == 'r' &&
           EXPORT[5] == 't' && EXPORT[6] == ' ';
    assert line[|key|] == '=' && line[..|EXPORT|] == EXPORT;
    assert forall i :: 0 <= i < |EXPORT| ==> line[i] == EXPORT[i];
    assert |key| >= |EXPORT|;
    assert key[..|EXPORT|] == line[..|EXPORT|];
  }

  lemma ValueRStrip(rest: string)
    ensures ParseValue(RStrip(rest)) == ParseValue(rest)
  {
    StripRStrip(rest);
  }

  lemma ParsesStripped(line: string, t: string)
    requires Strip(line) == t && t != "" && t[0] != '#' && !(EXPORT <= t)
    ensures ParseLine(line) == ParseBody(t)
  {
  }

  lemma PlainStart(key: string, rest: string)
    requires PlainKey(key)
    ensures var t := Assignment(key, rest); t != "" && t[0] != '#' && !(EXPORT <= t)
  {
    assert Assignment(key, rest)[0] == key[0];
    if EXPORT <= Assignment(key, rest) {
      ExportNeedsKey(key, rest);
    }
  }

  /** A line with a plain key gives that key, and the value its rest stands for. */
  lemma PlainLineParses(key: string, rest: string)
    requires PlainKey(key)
    ensures ParseLine(Assignment(key, rest)) == Some(Pair(key, ParseValue(rest)))
  {
    StripAssignment(key, rest);
    PlainStart(key, RStrip(rest));
    ParsesStripped(Assignment(key, rest), Assignment(key, RStrip(rest)));
    ParsePlainBody(key, RStrip(rest));
    ValueRStrip(rest);
  }

  lemma StripOneLine(s: string)
    ensures Trimmed(Strip(s)) && |Strip(s)| <= |s|
    ensures OneLine(s) ==> OneLine(Strip(s))
    ensures '=' !in s ==> '=' !in Strip(s)
  {
    var i, j := StripSlice(s);
    assert forall k :: i <= k < j ==> s[i..j][k - i] == s[k];
  }

  lemma LStripOneLine(s: string)
    ensures OneLine(s) ==> OneLine(LStrip(s))
  {
    var i := LStripSlice(s);
  }

  lemma ValueOneLine(raw: string)
    requires OneLine(raw)
    ensures OneLine(ParseValue(raw))
  {
    StripOneLine(raw);
  }

  lemma BodyShape(body: string)
    requires ParseBody(body).Some?
    ensures var p := ParseBody(body).value;
            && p.key != "" && |p.key| <= EqualsAt(body) && Trimmed(p.key) && '=' !in p.key
            && (OneLine(body) ==> OneLine(p.key) && OneLine(p.value))
  {
    var k := EqualsAt(body);
    StripOneLine(body[..k]);
    if OneLine(body) {
      SplitOneLine(body, k);
      ValueOneLine(body[k + 1..]);
    }
  }

  lemma SplitOneLine(body: string, k: nat)
    requires k < |body| && OneLine(body)
    ensures OneLine(body[..k]) && OneLine(body[k + 1..])
  {
  }

  /** A parsed key is trimmed and has no '='; neither part has a line break. */
  lemma ParsedShape(line: string)
    requires ParseLine(line).Some?
    ensures var p := ParseLine(line).value;
            && p.key != "" && Trimmed(p.key) && '=' !in p.key
            && (OneLine(line) ==> OneLine(p.key) && OneLine(p.value))
  {
    var stripped := Strip(line);
    StripOneLine(line);
    if EXPORT <= stripped {
      var tail := stripped[|EXPORT|..];
      LStripOneLine(tail);
      BodyShape(LStrip(tail));
    } else {
      BodyShape(stripped);
    }
  }

  lemma LStripKeepsEquals(tail: string, at: nat)
    requires at < |tail| && tail[at] == '='
    ensures EqualsAt(LStrip(tail)) <= at
  {
    var i := LStripSlice(tail);
    assert !IsPySpace('=');
    assert LStrip(tail)[at - i] == '=';
  }

  lemma ParsesAfterExport(line: string, t: string)
    requires Strip(line) == t && EXPORT <= t
    ensures ParseLine(line) == ParseBody(LStrip(t[|EXPORT|..]))
  {
    assert t[0] == 'e';
  }

  lemma ExportCutsKey(key: string, rest: string)
    requires EXPORT <= key && '=' !in key && Trimmed(key)
    requires ParseLine(Assignment(key, rest)).Some?
    ensures ParseLine(Assignment(key, rest)).value.key != key
  {
    StripAssignment(key, rest);
    var t := Assignment(key, RStrip(rest));
    var at := |key| - |EXPORT|;
    assert t[|EXPORT|..][at] == t[|key|] == '=';
    assert EXPORT <= t;
    ParsesAfterExport(Assignment(key, rest), t);
    LStripKeepsEquals(t[|EXPORT|..], at);
    BodyShape(LStrip(t[|EXPORT|..]));
  }

  /** Only a plain key is what its line gives. */
  lemma ParsedKeyIsPlain(key: string, rest: string)
    requires ParseLine(Assignment(key, rest)).Some? && ParseLine(Assignment(key, rest)).value.key == key
    ensures PlainKey(key)
  {
    ParsedShape(Assignment(key, rest));
    StripAssignment(key, rest);
    assert Assignment(key, RStrip(rest))[0] == key[0];
    if EXPORT <= key {
      ExportCutsKey(key, rest);
    }
  }

  /** One matching pair of quotes around the text. */
  ghost predicate Wrapped(v: string) { exists q, inner :: q in ["'", "\""] && v == q + inner + q }

  lemma WrappedIs(v: string)
    ensures Wrapped(v) <==> |v| >= 2 && v[0] == v[|v| - 1] && v[0] in {'\'', '"'}
  {
    if |v| >= 2 && v[0] == v[|v| - 1] && v[0] in {'\'', '"'} {
      assert v == [v[0]] + v[1..|v| - 1] + [v[0]];
      assert [v[0]] in ["'", "\""];
    }
  }

  lemma StripShortens(s: string)
    ensures |Strip(s)| <= |s| && Trimmed(Strip(s))
  {
    var i, j := StripSlice(s);
  }

  lemma ItselfIff(v: string)
    ensures ParseValue(v) == v <==> Trimmed(v) && !Wrapped(v)
  {
    WrappedIs(v);
    StripShortens(v);
    if Trimmed(v) {
      TrimmedStays(v);
    }
  }

  lemma UnquotesTo(w: string, v: string)
    requires |w| == |v| + 2 && w[1..|w| - 1] == v && w[0] == w[|w| - 1] && w[0] in {'\'', '"'}
    ensures ParseValue(w) == v
  {
    TrimmedStays(w);
  }

  /** A value stands for itself exactly when it is trimmed and not quoted; and a
      quoted one, with either quote, for what is between the quotes. */
  lemma ValueLaws(v: string, q: string)
    requires q in ["'", "\""]
    ensures ParseValue(v) == v <==> Trimmed(v) && !Wrapped(v)
    ensures ParseValue(q + v + q) == v
  {
    ItselfIff(v);
    var w := q + v + q;
    assert w[0] == q[0] && w[|w| - 1] == q[0] && w[1..|w| - 1] == v;
    UnquotesTo(w, v);
  }

  /** The plain form KEY=VALUE reads back exactly when the key is plain and the
      value is trimmed and not quoted. */
  lemma UnquotedIff(key: string, value: string)
    ensures ParseLine(key + "=" + value) == Some(Pair(key, value)) <==>
            PlainKey(key) && Trimmed(value) && !Wrapped(value)
  {
    ValueLaws(value, "'");
    if ParseLine(Assignment(key, value)) == Some(Pair(key, value)) {
      ParsedKeyIsPlain(key, value);
    }
    if PlainKey(key) {
      PlainLineParses(key, value);
    }
  }

  /** With either quote around it a value reads back exactly when the key is
      plain, whatever the value holds. */
  lemma QuotedIff(key: string, value: string, q: string)
    requires q in ["'", "\""]
    ensures ParseLine(key + "=" + (q + value + q)) == Some(Pair(key, value)) <==> PlainKey(key)
  {
    var rest := q + value + q;
    ValueLaws(value, q);
    if ParseLine(Assignment(key, rest)) == Some(Pair(key, value)) {
      ParsedKeyIsPlain(key, rest);
    }
    if PlainKey(key) {
      PlainLineParses(key, rest);
    }
  }

  /** A double-quoted line reads back as the pair it was written from exactly
      when the key is plain, whatever the value holds. */
  lemma ParseRenderedIff(p: Pair)
    ensures ParseLine(Render(p)) == Some(p) <==> PlainKey(p.key)
  {
    RenderIs(p);
    QuotedIff(p.key, p.value, "\"");
  }

  lemma RenderIs(p: Pair)
    ensures Render(p) == p.key + "=" + ("\"" + p.value + "\"")
  {
  }

  lemma ParsesExported(line: string, t: string, body: string)
    requires Strip(line) == t && t == EXPORT + body && body != "" && !IsPySpace(body[0])
    ensures ParseLine(line) == ParseBody(body)
  {
    assert t[0] == 'e' && t[..|EXPORT|] == EXPORT && t[|EXPORT|..] == body;
  }

  /** `export` in front of a plain key changes nothing. */
  lemma ExportChangesNothing(key: string, rest: string)
    requires PlainKey(key)
    ensures ParseLine("export " + key + "=" + rest) == ParseLine(key + "=" + rest)
  {
    var k, body := EXPORT + key, Assignment(key, RStrip(rest));
    assert k[0] == 'e' && !IsPySpace('e');
    StripAssignment(k, rest);
    assert Assignment(k, RStrip(rest)) == EXPORT + body;
    assert body[0] == key[0];
    ParsesExported(Assignment(k, rest), EXPORT + body, body);
    ParsePlainBody(key, RStrip(rest));
    ValueRStrip(rest);
    PlainLineParses(key, rest);
  }

  /** White space around a line changes nothing. */
  lemma PaddingChangesNothing(line: string, c: char)
    requires IsPySpace(c)
    ensures ParseLine([c] + line) == ParseLine(line) == ParseLine(line + [c])
  {
    assert ([c] + line)[1..] == line;
    StripTail(line, c);
  }

  /** Blank lines, comments, lines without '=' and lines without a key give
      nothing. */
  lemma IgnoredLines(line: string)
    ensures Strip(line) == "" || "#" <= Strip(line) || '=' !in line || "=" <= line ==> ParseLine(line) == None
  {
    var stripped := Strip(line);
    if '=' !in line {
      StripOneLine(line);
      if EXPORT <= stripped {
        var i := LStripSlice(stripped[|EXPORT|..]);
        assert EqualsAt(LStrip(stripped[|EXPORT|..])) == |LStrip(stripped[|EXPORT|..])|;
      }
    } else if "=" <= line {
      assert line[0] == '=' && LStrip(line) == line;
      assert line == "=" + line[1..];
      RStripAfter("=", line[1..]);
      assert stripped[0] == '=';
      assert EXPORT[0] == 'e';
    }
  }

  const PY_SPACES: string :=
    "\t\n\U{b}\U{c}\r\U{1c}\U{1d}\U{1e}\U{1f} \U{85}\U{a0}\U{1680}\U{2000}\U{2001}\U{2002}\U{2003}\U{2004}" +
    "\U{2005}\U{2006}\U{2007}\U{2008}\U{2009}\U{200a}\U{2028}\U{2029}\U{202f}\U{205f}\U{3000}"

  const PY_BREAKS: string := "\n\U{b}\U{c}\r\U{1c}\U{1d}\U{1e}\U{85}\U{2028}\U{2029}"

  /** The white space and the line breaks of Python's strings, one by one. */
  lemma SpaceTable(c: char)
    ensures IsPySpace(c) <==> c in PY_SPACES
    ensures IsBreak(c) <==> c in PY_BREAKS
    ensures IsBreak(c) ==> IsPySpace(c)
  {
  }

  lemma {:induction false} PresentAll(parsed: seq<Option<Pair>>, pairs: seq<Pair>)
    requires |parsed| == |pairs| && forall i :: 0 <= i < |parsed| ==> parsed[i] == Some(pairs[i])
    ensures Present(parsed) == pairs
    decreases |parsed|
  {
    if parsed != [] {
      PresentAll(parsed[..|parsed| - 1], pairs[..|pairs| - 1]);
    }
  }

  function Rendered(pairs: seq<Pair>): (lines: seq<string>)
    ensures |lines| == |pairs|
    ensures forall i :: 0 <= i < |pairs| ==> lines[i] == Render(pairs[i])
  {
    if pairs == [] then [] else [Render(pairs[0])] + Rendered(pairs[1..])
  }

  /** The text of a file that lists the pairs, one line each. */
  function Written(pairs: seq<Pair>): string {
    if pairs == [] then "" else Render(pairs[0]) + "\n" + Written(pairs[1..])
  }

  predicate OneLined(p: Pair) { OneLine(p.key) && OneLine(p.value) }

  predicate Writable(p: Pair) { PlainKey(p.key) && OneLined(p) }

  lemma {:induction false} LineEndIs(s: string, k: nat)
    requires k < |s| && OneLine(s[..k]) && IsBreak(s[k])
    ensures LineEnd(s) == k
    decreases k
  {
    if k > 0 {
      assert s[..k][0] == s[0];
      assert s[1..][..k - 1] == s[..k][1..];
      LineEndIs(s[1..], k - 1);
    }
  }

  /** A line ends at each break character; carriage return and newline together
      are one break. */
  lemma SplitAtBreak(line: string, sep: string, rest: string)
    requires OneLine(line)
    requires sep == "\r\n" || (|sep| == 1 && IsBreak(sep[0]) && !(sep == "\r" && "\n" <= rest))
    ensures SplitLines(line + sep + rest) == [line] + SplitLines(rest)
  {
    var text := line + sep + rest;
    assert text[..|line|] == line && text[|line|] == sep[0] && text[|line| + |sep|..] == rest;
    LineEndIs(text, |line|);
    if sep == "\r\n" {
      assert text[|line| + 1] == '\n';
    } else if |line| + 1 < |text| {
      assert text[|line| + 1] == rest[0];
      assert text[|line|] == '\r' && rest[0] == '\n' ==> sep == "\r" && "\n" <= rest;
    }
  }

  lemma RenderOneLine(p: Pair)
    requires OneLined(p)
    ensures OneLine(Render(p))
  {
  }

  lemma {:induction false} WrittenLines(pairs: seq<Pair>)
    requires forall i :: 0 <= i < |pairs| ==> OneLined(pairs[i])
    ensures SplitLines(Written(pairs)) == Rendered(pairs)
    decreases |pairs|
  {
    if pairs != [] {
      var line := Render(pairs[0]);
      RenderOneLine(pairs[0]);
      SplitAtBreak(line, "\n", Written(pairs[1..]));
      WrittenLines(pairs[1..]);
    }
  }

  lemma ParsedOneLined(line: string)
    requires OneLine(line) && ParseLine(line).Some?
    ensures OneLined(ParseLine(line).value)
  {
    ParsedShape(line);
  }

  /** No line break ever comes out of a file. */
  lemma {:induction false} PresentIsOneLine(parsed: seq<Option<Pair>>)
    requires forall k :: 0 <= k < |parsed| && parsed[k].Some? ==> OneLined(parsed[k].value)
    ensures forall i :: 0 <= i < |Present(parsed)| ==> OneLined(Present(parsed)[i])
    decreases |parsed|
  {
    if parsed != [] {
      PresentIsOneLine(parsed[..|parsed| - 1]);
    }
  }

  lemma {:induction false} ParsedIsOneLined(text: string)
    ensures forall i :: 0 <= i < |ParseFile(text)| ==> OneLined(ParseFile(text)[i])
  {
    var lines := SplitLines(text);
    forall k | 0 <= k < |lines| && ParseLine(lines[k]).Some? ensures OneLined(ParseLine(lines[k]).value) {
      ParsedOneLined(lines[k]);
    }
    PresentIsOneLine(ParseLines(lines));
  }

  lemma {:induction false} PresentCount(parsed: seq<Option<Pair>>)
    ensures |Present(parsed)| <= |parsed|
    ensures |Present(parsed)| == |parsed| ==> forall i :: 0 <= i < |parsed| ==> parsed[i] == Some(Present(parsed)[i])
    decreases |parsed|
  {
    if parsed != [] {
      PresentCount(parsed[..|parsed| - 1]);
    }
  }

  lemma {:induction false} ReadBackIsWritable(pairs: seq<Pair>)
    requires ParseFile(Written(pairs)) == pairs
    ensures forall i :: 0 <= i < |pairs| ==> Writable(pairs[i])
  {
    var lines := Rendered(pairs);
    ParsedIsOneLined(Written(pairs));
    WrittenLines(pairs);
    PresentCount(ParseLines(lines));
    forall i | 0 <= i < |pairs| ensures Writable(pairs[i]) {
      assert ParseLines(lines)[i] == Some(pairs[i]);
      ParseRenderedIff(pairs[i]);
    }
  }

  lemma {:induction false} WritableReadsBack(pairs: seq<Pair>)
    requires forall i :: 0 <= i < |pairs| ==> Writable(pairs[i])
    ensures ParseFile(Written(pairs)) == pairs
  {
    var lines := Rendered(pairs);
    WrittenLines(pairs);
    forall i | 0 <= i < |pairs| ensures ParseLines(lines)[i] == Some(pairs[i]) {
      ParseRenderedIff(pairs[i]);
    }
    PresentAll(ParseLines(lines), pairs);
  }

  /** A list of pairs survives being written to a file and parsed exactly when
      every key is plain and no key or value holds a line break. */
  lemma {:induction false} FileRoundTripIff(pairs: seq<Pair>)
    ensures ParseFile(Written(pairs)) == pairs <==> forall i :: 0 <= i < |pairs| ==> Writable(pairs[i])
  {
    if ParseFile(Written(pairs)) == pairs {
      ReadBackIsWritable(pairs);
    }
    if forall i :: 0 <= i < |pairs| ==> Writable(pairs[i]) {
      WritableReadsBack(pairs);
    }
  }

  /** A value of two lines does not survive. */
  lemma TwoLineValueIsLost()
    ensures ParseFile(Written([Pair("A", "x\ny")])) != [Pair("A", "x\ny")]
  {
    var p := Pair("A", "x\ny");
    assert IsBreak(p.value[1]);
    FileRoundTripIff([p]);
    assert [p][0] == p;
  }

  // -------------------------------------------------------------------- loading

  /** Set and not empty. */
  predicate IsSet(env: Environ, key: string) { key in env && env[key] != "" }

  datatype Loaded = Loaded(env: Environ, count: nat)

  /** One pair: an explicit value wins. */
  function Fill(l: Loaded, p: Pair): Loaded {
    if IsSet(l.env, p.key) then l else Loaded(l.env[p.key := p.value], l.count + 1)
  }

  function FillAll(env: Environ, pairs: seq<Pair>): Loaded {
    if pairs == [] then Loaded(env, 0) else Fill(FillAll(env, pairs[..|pairs| - 1]), pairs[|pairs| - 1])
  }

  predicate Mentions(pairs: seq<Pair>, key: string) { exists i :: 0 <= i < |pairs| && pairs[i].key == key }

  /** The first non-empty value the file gives the key, or blank. */
  function FirstValue(pairs: seq<Pair>, key: string): string {
    if pairs == [] then ""
    else
      var before := FirstValue(pairs[..|pairs| - 1], key);
      if before == "" && pairs[|pairs| - 1].key == key then pairs[|pairs| - 1].value else before
  }

  /** What loading is for, key by key. */
  function Expected(env: Environ, pairs: seq<Pair>, key: string): Option<string> {
    if IsSet(env, key) then Some(env[key])
    else if Mentions(pairs, key) then Some(FirstValue(pairs, key))
    else if key in env then Some(env[key])
    else None
  }

  function Lookup(env: Environ, key: string): Option<string> {
    if key in env then Some(env[key]) else None
  }

  lemma MentionsNext(pairs: seq<Pair>, p: Pair, key: string)
    ensures Mentions(pairs + [p], key) <==> Mentions(pairs, key) || p.key == key
  {
    var all := pairs + [p];
    if Mentions(pairs, key) {
      var i :| 0 <= i < |pairs| && pairs[i].key == key;
      assert all[i].key == key;
    }
    assert all[|pairs|] == p;
  }

  /** Every key ends as expected: explicit values kept, other mentioned keys at
      their first non-empty file value, unmentioned keys untouched. */
  lemma {:induction false} LoadGivesExpected(env: Environ, pairs: seq<Pair>, key: string)
    ensures Lookup(FillAll(env, pairs).env, key) == Expected(env, pairs, key)
    decreases |pairs|
  {
    if pairs != [] {
      var init, p := pairs[..|pairs| - 1], pairs[|pairs| - 1];
      LoadGivesExpected(env, init, key);
      assert pairs == init + [p];
      MentionsNext(init, p, key);
      if !Mentions(init, key) {
        UnmentionedBlank(init, key);
      }
    }
  }

  lemma {:induction false} UnmentionedBlank(pairs: seq<Pair>, key: string)
    requires !Mentions(pairs, key)
    ensures FirstValue(pairs, key) == ""
    decreases |pairs|
  {
    if pairs != [] {
      var n := |pairs| - 1;
      assert pairs == pairs[..n] + [pairs[n]];
      MentionsNext(pairs[..n], pairs[n], key);
      UnmentionedBlank(pairs[..n], key);
    }
  }

  /** Loading the same file again leaves the environment as it is. */
  lemma LoadTwice(env: Environ, pairs: seq<Pair>)
    ensures FillAll(FillAll(env, pairs).env, pairs).env == FillAll(env, pairs).env
  {
    var once := FillAll(env, pairs).env;
    var twice := FillAll(once, pairs).env;
    forall key ensures Lookup(once, key) == Lookup(twice, key) {
      LoadGivesExpected(env, pairs, key);
      LoadGivesExpected(once, pairs, key);
    }
    assert forall key :: key in once <==> Lookup(once, key).Some?;
    assert forall key :: key in twice <==> Lookup(twice, key).Some?;
    assert forall key :: key in once ==> once[key] == Lookup(once, key).value;
    assert once.Keys == twice.Keys;
  }

  // ------------------------------------------------------------- surviving it

  const NUL: char := '\0'

  /** `os.environ` raises ValueError for a NUL in a key or a value. */
  predicate Unstorable(p: Pair) { NUL in p.key || NUL in p.value }

  /** What was loaded, and whether the load ran to its end or raised. */
  datatype Load = Load(loaded: Loaded, raised: bool)

  function LoadPairs(env: Environ, pairs: seq<Pair>): Load {
    if pairs == [] then Load(Loaded(env, 0), false)
    else
      var before := LoadPairs(env, pairs[..|pairs| - 1]);
      var p := pairs[|pairs| - 1];
      if before.raised then before
      else if !IsSet(before.loaded.env, p.key) && Unstorable(p) then Load(before.loaded, true)
      else Load(Fill(before.loaded, p), false)
  }

  /** What would be stored under the key in the end cannot be. */
  predicate Poisoned(env: Environ, pairs: seq<Pair>, key: string) {
    !IsSet(env, key) && Mentions(pairs, key) && (NUL in key || NUL in FirstValue(pairs, key))
  }

  lemma {:induction false} FirstValueStays(pairs: seq<Pair>, p: Pair, key: string)
    ensures FirstValue(pairs + [p], key) ==
            if FirstValue(pairs, key) == "" && p.key == key then p.value else FirstValue(pairs, key)
  {
    assert (pairs + [p])[..|pairs|] == pairs;
  }

  lemma PoisonedNext(env: Environ, pairs: seq<Pair>, p: Pair, key: string)
    ensures Poisoned(env, pairs + [p], key) <==>
            || Poisoned(env, pairs, key)
            || (key == p.key && !IsSet(env, key) && (NUL in key || (FirstValue(pairs, key) == "" && NUL in p.value)))
  {
    MentionsNext(pairs, p, key);
    FirstValueStays(pairs, p, key);
    if !Mentions(pairs, key) {
      UnmentionedBlank(pairs, key);
    }
  }

  /** After a load that did not raise, the next pair raises exactly when it
      poisons its key. */
  lemma NextRaises(env: Environ, pairs: seq<Pair>, p: Pair)
    requires !Poisoned(env, pairs, p.key)
    ensures !IsSet(FillAll(env, pairs).env, p.key) && Unstorable(p) <==> Poisoned(env, pairs + [p], p.key)
  {
    PoisonedNext(env, pairs, p, p.key);
    LoadGivesExpected(env, pairs, p.key);
    if !Mentions(pairs, p.key) {
      UnmentionedBlank(pairs, p.key);
    }
  }

  /** Loading survives exactly when no key that is still to be filled has a NUL
      in it or in its first non-empty value; then it fills everything, and
      otherwise it stops in front of the first pair it cannot store. */
  lemma {:induction false} LoadSurvivesIff(env: Environ, pairs: seq<Pair>)
    ensures var l := LoadPairs(env, pairs);
            && (!l.raised <==> forall key :: !Poisoned(env, pairs, key))
            && (!l.raised ==> l.loaded == FillAll(env, pairs))
            && (l.raised ==> exists k :: 0 <= k < |pairs| && StopsBefore(env, pairs, k, l.loaded))
    decreases |pairs|
  {
    if pairs == [] {
      assert forall key :: !Poisoned(env, pairs, key);
    } else {
      var n := |pairs| - 1;
      var init, p := pairs[..n], pairs[n];
      assert pairs == init + [p];
      var l := LoadPairs(env, init);
      LoadSurvivesIff(env, init);
      forall key ensures Poisoned(env, init, key) ==> Poisoned(env, pairs, key) {
        PoisonedNext(env, init, p, key);
      }
      if l.raised {
        var k :| 0 <= k < n && StopsBefore(env, init, k, l.loaded);
        assert pairs[..k] == init[..k];
        assert StopsBefore(env, pairs, k, l.loaded);
      } else {
        NextRaises(env, init, p);
        forall key | key != p.key ensures !Poisoned(env, pairs, key) {
          PoisonedNext(env, init, p, key);
        }
        assert LoadPairs(env, pairs).raised ==> StopsBefore(env, pairs, n, l.loaded);
      }
    }
  }

  lemma {:induction false} RaisedStays(env: Environ, pairs: seq<Pair>, k: nat)
    requires k <= |pairs| && LoadPairs(env, pairs[..k]).raised
    ensures LoadPairs(env, pairs) == LoadPairs(env, pairs[..k])
    decreases |pairs|
  {
    if k < |pairs| {
      assert pairs[..|pairs| - 1][..k] == pairs[..k];
      RaisedStays(env, pairs[..|pairs| - 1], k);
    } else {
      assert pairs[..k] == pairs;
    }
  }

  /** The next pair: skipped, the end of the load, or stored. */
  lemma LoadNext(env: Environ, pairs: seq<Pair>, k: nat)
    requires k < |pairs| && !LoadPairs(env, pairs[..k]).raised
    ensures var l := LoadPairs(env, pairs[..k]).loaded; var p := pairs[k];
            if IsSet(l.env, p.key) || !Unstorable(p) then LoadPairs(env, pairs[..k + 1]) == Load(Fill(l, p), false)
            else LoadPairs(env, pairs) == Load(l, true)
  {
    assert pairs[..k + 1][..k] == pairs[..k];
    if LoadPairs(env, pairs[..k + 1]).raised {
      RaisedStays(env, pairs, k + 1);
    }
  }

  predicate StopsBefore(env: Environ, pairs: seq<Pair>, k: nat, l: Loaded)
    requires k < |pairs|
  {
    l == FillAll(env, pairs[..k]) && !IsSet(l.env, pairs[k].key) && Unstorable(pairs[k])
  }

  /** Loading again changes nothing and ends the same way, raising or not. */
  lemma {:induction false} LoadAgain(env: Environ, pairs: seq<Pair>)
    ensures var once := LoadPairs(env, pairs); var again := LoadPairs(once.loaded.env, pairs);
            again.loaded.env == once.loaded.env && again.raised == once.raised
    decreases |pairs|
  {
    var once := LoadPairs(env, pairs);
    if once.raised {
      LoadAgain(env, pairs[..|pairs| - 1]);
    } else {
      var after := once.loaded.env;
      LoadSurvivesIff(env, pairs);
      forall key ensures !Poisoned(after, pairs, key) {
        assert !Poisoned(env, pairs, key);
        LoadGivesExpected(env, pairs, key);
      }
      LoadSurvivesIff(after, pairs);
      LoadTwice(env, pairs);
    }
  }

  /** One NUL in the file stops the load halfway: C is never set. */
  lemma NulStopsLoad()
    ensures var pairs := [Pair("A", "1"), Pair("B", "\0"), Pair("C", "2")]; var l := LoadPairs(map[], pairs);
            l.raised && l.loaded == Loaded(map["A" := "1"], 1)
  {
    var a, b, c := Pair("A", "1"), Pair("B", "\0"), Pair("C", "2");
    var one, two, pairs := [a], [a, b], [a, b, c];
    assert one[..0] == [] && two[..1] == one && pairs[..2] == two;
    assert b.value[0] == NUL;
    assert "A" != "B" by { assert "A"[0] != "B"[0]; }
    assert LoadPairs(map[], one) == Load(Loaded(map["A" := "1"], 1), false);
    assert LoadPairs(map[], two) == Load(Loaded(map["A" := "1"], 1), true);
  }

  // --------------------------------------------------------- the reported count

  /** Keys the load filled: mentioned, and not explicitly set before. */
  function Filled(env: Environ, pairs: seq<Pair>): set<string> {
    set i | 0 <= i < |pairs| && !IsSet(env, pairs[i].key) :: pairs[i].key
  }

  /** No key is given a blank value and then mentioned again. */
  predicate NoRefill(env: Environ, pairs: seq<Pair>) {
    forall i, j :: 0 <= i < j < |pairs| && pairs[i].key == pairs[j].key && !IsSet(env, pairs[i].key) ==>
      FirstValue(pairs[..j], pairs[j].key) != ""
  }

  lemma FilledNext(env: Environ, pairs: seq<Pair>, p: Pair)
    ensures Filled(env, pairs + [p]) == Filled(env, pairs) + if IsSet(env, p.key) then {} else {p.key}
    ensures !IsSet(env, p.key) ==> (p.key in Filled(env, pairs) <==> Mentions(pairs, p.key))
  {
    var all := pairs + [p];
    assert all[|pairs|] == p;
    assert forall i :: 0 <= i < |pairs| ==> all[i] == pairs[i];
    forall k | k in Filled(env, pairs) ensures k in Filled(env, all) {
      var i :| 0 <= i < |pairs| && !IsSet(env, pairs[i].key) && pairs[i].key == k;
      assert all[i].key == k;
    }
  }

  lemma NoRefillNext(env: Environ, pairs: seq<Pair>, p: Pair)
    ensures NoRefill(env, pairs + [p]) <==>
            NoRefill(env, pairs) && (Mentions(pairs, p.key) && !IsSet(env, p.key) ==> FirstValue(pairs, p.key) != "")
  {
    var all := pairs + [p];
    var n := |pairs|;
    assert all[..n] == pairs;
    assert forall j :: 0 <= j < n ==> all[j] == pairs[j] && all[..j] == pairs[..j];
    if NoRefill(env, all) && Mentions(pairs, p.key) && !IsSet(env, p.key) {
      var i :| 0 <= i < n && pairs[i].key == p.key;
      assert all[i].key == all[n].key;
    }
  }

  /** The returned count is the number of keys filled exactly when no key was
      filled with a blank and mentioned again; otherwise it is larger. */
  lemma {:induction false} CountIsKeysIff(env: Environ, pairs: seq<Pair>)
    ensures FillAll(env, pairs).count >= |Filled(env, pairs)|
    ensures FillAll(env, pairs).count == |Filled(env, pairs)| <==> NoRefill(env, pairs)
    decreases |pairs|
  {
    if pairs == [] {
      assert Filled(env, pairs) == {};
    } else {
      var init, p := pairs[..|pairs| - 1], pairs[|pairs| - 1];
      CountIsKeysIff(env, init);
      assert pairs == init + [p];
      FilledNext(env, init, p);
      NoRefillNext(env, init, p);
      LoadGivesExpected(env, init, p.key);
      if !Mentions(init, p.key) {
        UnmentionedBlank(init, p.key);
      }
    }
  }

  /** "A=" and then "A=1" fill one key and count two. */
  lemma BlankCountedTwice()
    ensures var pairs := [Pair("A", ""), Pair("A", "1")];
            FillAll(map[], pairs) == Loaded(map["A" := "1"], 2) && Filled(map[], pairs) == {"A"}
  {
    var a, b := Pair("A", ""), Pair("A", "1");
    var pairs := [a, b];
    assert pairs[..1] == [a] && [a][..0] == [];
    assert FillAll(map[], [a]) == Loaded(map["A" := ""], 1);
    assert pairs[0].key in Filled(map[], pairs);
  }

  // -------------------------------------------------------------------- process

  class Process {
    var environ: Environ

    constructor (environ: Environ)
      ensures this.environ == environ
    {
      this.environ := environ;
    }

    static method Parse(text: string) returns (pairs: seq<Pair>)
      ensures pairs == ParseFile(text)
    {
      pairs := [];
      var lines := SplitLines(text);
      for k := 0 to |lines|
        invariant pairs == Present(ParseLines(lines)[..k])
      {
        assert ParseLines(lines)[..k + 1][..k] == ParseLines(lines)[..k];
        var p := ParseLine(lines[k]);
        if p.Some? {
          pairs := pairs + [p.value];
        }
      }
      assert ParseLines(lines)[..|lines|] == ParseLines(lines);
    }

    /** `load_runtime_env`; `file` is None when it is missing or unreadable, and
        the result is None when a pair cannot be stored and ValueError escapes. */
    method LoadRuntimeEnv(file: Option<string>) returns (loaded: Option<nat>)
      modifies this
      ensures file == None ==> loaded == Some(0) && environ == old(environ)
      ensures file.Some? ==>
                var l := LoadPairs(old(environ), ParseFile(file.value));
                environ == l.loaded.env && loaded == if l.raised then None else Some(l.loaded.count)
    {
      if file == None {
        return Some(0);
      }
      var pairs := Parse(file.value);
      loaded := FillFrom(pairs);
    }

    method FillFrom(pairs: seq<Pair>) returns (loaded: Option<nat>)
      modifies this
      ensures var l := LoadPairs(old(environ), pairs);
              environ == l.loaded.env && loaded == if l.raised then None else Some(l.loaded.count)
    {
      var count := 0;
      for k := 0 to |pairs|
        invariant LoadPairs(old(environ), pairs[..k]) == Load(Loaded(environ, count), false)
      {
        var p := pairs[k];
        LoadNext(old(environ), pairs, k);
        if !(p.key in environ && environ[p.key] != "") {
          if Unstorable(p) {
            return None;
          }
          environ := environ[p.key := p.value];
          count := count + 1;
        }
      }
      assert pairs[..|pairs|] == pairs;
      loaded := Some(count);
    }
  }
}
