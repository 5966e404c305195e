/** The brace-depth extractor that turns the generated device tree into an overlay. */
module Overlay {
  import opened Wrappers
  import opened Strings

  // ---------------------------------------------------------------------------
  // Text
  // ---------------------------------------------------------------------------

  function Weight(c: char): int { if c == '{' then 1 else if c == '}' then -1 else 0 }

  /** Opening braces less closing ones. */
  function Net(s: string): int { if s == "" then 0 else Net(s[..|s| - 1]) + Weight(s[|s| - 1]) }

  lemma {:induction false} NetConcat(a: string, b: string)
    ensures Net(a + b) == Net(a) + Net(b)
  {
    if b == "" {
      assert a + b == a;
    } else {
      NetConcat(a, b[..|b| - 1]);
      assert (a + b)[..|a + b| - 1] == a + b[..|b| - 1];
    }
  }

  predicate Plain(s: string) { forall k | 0 <= k < |s| :: s[k] != '{' && s[k] != '}' }

  predicate OneLine(s: string) { forall k | 0 <= k < |s| :: !LineEnd(s[k]) }

  lemma {:induction false} PlainNet(s: string)
    requires Plain(s)
    ensures Net(s) == 0
  {
    if s == "" {
    } else {
      PlainNet(s[..|s| - 1]);
    }
  }

  /** No prefix closes more than depth braces it did not open. */
  ghost predicate Covered(s: string, depth: int) { forall k | 0 <= k <= |s| :: depth + Net(s[..k]) >= 0 }

  lemma CoveredConcat(a: string, b: string, depth: int)
    requires Covered(a, depth) && Covered(b, depth + Net(a))
    ensures Covered(a + b, depth)
  {
    forall k | 0 <= k <= |a + b|
      ensures depth + Net((a + b)[..k]) >= 0
    {
      if k <= |a| {
        assert (a + b)[..k] == a[..k];
      } else {
        assert (a + b)[..k] == a + b[..k - |a|];
        NetConcat(a, b[..k - |a|]);
      }
    }
  }

  lemma PlainCovered(s: string, depth: int)
    requires Plain(s) && depth >= 0
    ensures Covered(s, depth) && Net(s) == 0
  {
    PlainNet(s);
    forall k | 0 <= k <= |s|
      ensures depth + Net(s[..k]) >= 0
    {
      PlainNet(s[..k]);
    }
  }

  lemma SingleNet(c: char)
    ensures Net([c]) == Weight(c)
  {
    assert [c][..0] == "";
    assert Net("") == 0;
  }

  /** Every line followed by its line break. */
  function Text(lines: seq<string>): string {
    if lines == [] then "" else lines[0] + "\n" + Text(lines[1..])
  }

  /** The position of the first line end, or the length when there is none. */
  function Break(s: string): (n: nat)
    ensures n <= |s|
  {
    if s == "" || LineEnd(s[0]) then 0 else 1 + Break(s[1..])
  }

  /** Where the next line begins after a line end at n: a carriage return takes a line feed with it. */
  function Next(s: string, n: nat): (m: nat)
    requires n < |s|
    ensures n < m <= |s|
  {
    if s[n] == '\r' && n + 1 < |s| && s[n + 1] == '\n' then n + 2 else n + 1
  }

  /** str.splitlines() */
  function SplitLines(s: string): seq<string>
    decreases |s|
  {
    if s == "" then []
    else if Break(s) == |s| then [s]
    else [s[..Break(s)]] + SplitLines(s[Next(s, Break(s))..])
  }

  predicate AllOneLine(lines: seq<string>) { forall k | 0 <= k < |lines| :: OneLine(lines[k]) }

  lemma {:induction false} BreakAt(line: string, rest: string)
    requires OneLine(line)
    ensures Break(line + "\n" + rest) == |line|
  {
    var s := line + "\n" + rest;
    if line == "" {
    } else {
      BreakAt(line[1..], rest);
      assert s[1..] == line[1..] + "\n" + rest;
    }
  }

  lemma {:induction false} NoBreak(line: string)
    requires OneLine(line)
    ensures Break(line) == |line|
  {
    if line == "" {
    } else {
      NoBreak(line[1..]);
    }
  }

  /** A line ends at a carriage return, a line feed or any other line end; of the first with the second
      after it, at both together. */
  lemma LineEnds(line: string, c: char, rest: string)
    requires OneLine(line) && LineEnd(c)
    ensures SplitLines(line + ([c] + rest))
            == [line] + SplitLines(if c == '\r' && rest != "" && rest[0] == '\n' then rest[1..] else rest)
  {
    hide Break, SplitLines;
    var s := line + ([c] + rest);
    BreakBefore(line, c, rest);
    FirstLine(s);
    After(line, c, rest);
  }

  lemma FirstLine(s: string)
    requires Break(s) < |s|
    ensures SplitLines(s) == [s[..Break(s)]] + SplitLines(s[Next(s, Break(s))..])
  {
    hide Break;
  }

  lemma After(line: string, c: char, rest: string)
    ensures var s := line + ([c] + rest);
            && s[..|line|] == line
            && s[Next(s, |line|)..] == if c == '\r' && rest != "" && rest[0] == '\n' then rest[1..] else rest
  {
  }

  lemma {:induction false} BreakBefore(line: string, c: char, rest: string)
    requires OneLine(line) && LineEnd(c)
    ensures Break(line + ([c] + rest)) == |line|
  {
    if line != "" {
      BreakBefore(line[1..], c, rest);
      assert (line + ([c] + rest))[1..] == line[1..] + ([c] + rest);
    }
  }

  /** Splitting gives back the lines that were printed, and an unfinished one after them. */
  lemma {:induction false} SplitText(lines: seq<string>, last: string)
    requires AllOneLine(lines) && OneLine(last)
    ensures SplitLines(Text(lines) + last) == lines + if last == "" then [] else [last]
  {
    hide Break;
    var s := Text(lines) + last;
    if lines == [] {
      assert s == last;
      NoBreak(last);
    } else {
      var rest := Text(lines[1..]) + last;
      assert s == lines[0] + "\n" + rest;
      BreakAt(lines[0], rest);
      assert s[..|lines[0]|] == lines[0];
      assert s[|lines[0]| + 1..] == rest;
      SplitText(lines[1..], last);
    }
  }

  // ---------------------------------------------------------------------------
  // Printed trees
  // ---------------------------------------------------------------------------

  /** What stands between a node's braces: property lines and nodes, each node opened and closed
      by lines of its own. */
  datatype Items = Nil | Prop(line: string, rest: Items) | Sub(open: string, body: Items, close: string, rest: Items)

  function Lines(t: Items): seq<string>
    decreases t, 0
  {
    match t
    case Nil => []
    case Prop(line, rest) => [line] + Lines(rest)
    case Sub(open, body, close, rest) => Block(open, body, close) + Lines(rest)
  }

  function Block(open: string, body: Items, close: string): seq<string>
    decreases body, 1
  {
    [open] + Lines(body) + [close]
  }

  /** The printed text of each node at the top, in order. */
  function Blocks(t: Items): seq<string> {
    match t
    case Nil => []
    case Prop(_, rest) => Blocks(rest)
    case Sub(open, body, close, rest) => [Join("\n", Block(open, body, close))] + Blocks(rest)
  }

  function RStrip(s: string): string {
    if s == "" || !Blank(s[|s| - 1]) then s else RStrip(s[..|s| - 1])
  }

  /** The test child_nodes makes for a line that opens a node. */
  predicate EndsOpen(line: string) { var r := RStrip(line); r != "" && r[|r| - 1] == '{' }

  predicate AllBlank(s: string) { forall k | 0 <= k < |s| :: Blank(s[k]) }

  /** A line that opens a node: one opening brace, no other brace before it, and only blanks after. */
  predicate OpenLine(line: string) {
    OneLine(line) && Brace(line) < |line| && Plain(line[..Brace(line)]) && AllBlank(line[Brace(line) + 1..])
  }

  /** The position of the first opening brace, or the length when there is none. */
  function Brace(s: string): (n: nat)
    ensures n <= |s| && (n < |s| ==> s[n] == '{')
    ensures forall k | 0 <= k < n :: s[k] != '{'
  {
    if s == "" || s[0] == '{' then 0 else 1 + Brace(s[1..])
  }

  /** The position of the last closing brace, or -1. */
  function LastClose(s: string): (n: int)
    ensures -1 <= n < |s| && (n >= 0 ==> s[n] == '}')
    ensures forall k | n < k < |s| :: s[k] != '}'
  {
    if s == "" then -1 else if s[|s| - 1] == '}' then |s| - 1 else LastClose(s[..|s| - 1])
  }

  predicate CloseLine(line: string) {
    OneLine(line) && LastClose(line) >= 0 && Plain(line[..LastClose(line)]) && Plain(line[LastClose(line) + 1..])
  }

  predicate WellFormed(t: Items) {
    match t
    case Nil => true
    case Prop(line, rest) => OneLine(line) && Plain(line) && WellFormed(rest)
    case Sub(open, body, close, rest) => OpenLine(open) && WellFormed(body) && CloseLine(close) && WellFormed(rest)
  }

  lemma {:induction false} StripBlanks(a: string, blanks: string)
    requires AllBlank(blanks) && a != "" && !Blank(a[|a| - 1])
    ensures RStrip(a + blanks) == a
  {
    if blanks == "" {
      assert a + blanks == a;
    } else {
      var n := |blanks| - 1;
      assert (a + blanks)[..|a + blanks| - 1] == a + blanks[..n];
      StripBlanks(a, blanks[..n]);
    }
  }

  /** So the test that child_nodes makes passes on it. */
  lemma OpenEnds(line: string)
    requires OpenLine(line)
    ensures EndsOpen(line) && Plain(line[Brace(line) + 1..])
  {
    var n := Brace(line) + 1;
    assert line == line[..n] + line[n..];
    StripBlanks(line[..n], line[n..]);
  }

  /** And fails on every line with something else last, or with nothing but blanks. */
  lemma EndsOpenIff(a: string, blanks: string)
    requires AllBlank(blanks) && (a == "" || !Blank(a[|a| - 1]))
    ensures EndsOpen(a + blanks) <==> a != "" && a[|a| - 1] == '{'
  {
    if a == "" {
      NothingLeft(blanks);
      assert a + blanks == blanks;
    } else {
      StripBlanks(a, blanks);
    }
  }

  lemma {:induction false} NothingLeft(blanks: string)
    requires AllBlank(blanks)
    ensures RStrip(blanks) == ""
  {
    if blanks != "" {
      NothingLeft(blanks[..|blanks| - 1]);
    }
  }

  lemma PlainNeverOpens(line: string)
    requires Plain(line)
    ensures !EndsOpen(line)
  {
    StripIsPrefix(line);
  }

  lemma {:induction false} StripIsPrefix(s: string)
    ensures RStrip(s) <= s
  {
    if s == "" || !Blank(s[|s| - 1]) {
    } else {
      StripIsPrefix(s[..|s| - 1]);
    }
  }

  lemma OpenNet(line: string)
    requires OpenLine(line)
    ensures Net(line) == 1 && Covered(line, 0)
  {
    hide Net, Covered, EndsOpen;
    OpenEnds(line);
    var n := Brace(line);
    Around(line, n);
    OneBrace(line[..n], '{', line[n + 1..], 0);
  }

  lemma Around(s: string, n: nat)
    requires n < |s|
    ensures s == s[..n] + ([s[n]] + s[n + 1..])
  {
  }

  /** One brace among none: the depth moves by its weight, there. */
  lemma OneBrace(a: string, c: char, b: string, depth: int)
    requires Plain(a) && Plain(b) && depth >= 0 && depth + Weight(c) >= 0
    ensures Net(a + ([c] + b)) == Weight(c) && Covered(a + ([c] + b), depth)
  {
    hide Net, Covered, Weight;
    PlainCovered(a, depth);
    SingleNet(c);
    PlainCovered(b, depth + Weight(c));
    SingleCovered(c, depth);
    CoveredConcat([c], b, depth);
    NetConcat([c], b);
    CoveredConcat(a, [c] + b, depth);
    NetConcat(a, [c] + b);
  }

  lemma SingleCovered(c: char, depth: int)
    requires depth >= 0 && depth + Weight(c) >= 0
    ensures Covered([c], depth)
  {
    SingleNet(c);
    forall k | 0 <= k <= 1
      ensures depth + Net([c][..k]) >= 0
    {
      assert k == 0 ==> [c][..k] == "";
      assert k == 1 ==> [c][..k] == [c];
    }
  }

  lemma CloseNet(line: string, depth: int)
    requires CloseLine(line) && depth >= 1
    ensures Net(line) == -1 && Covered(line, depth)
  {
    hide Net, Covered;
    var n := LastClose(line);
    Around(line, n);
    OneBrace(line[..n], '}', line[n + 1..], depth);
  }

  // ---------------------------------------------------------------------------
  // child_nodes
  // ---------------------------------------------------------------------------

  /** The blocks still to be found in lines, depth braces into a block that began with buf. */
  function Scan(lines: seq<string>, depth: int, buf: seq<string>): seq<string> {
    if lines == [] then []
    else if depth == 0 then
      if EndsOpen(lines[0]) then Scan(lines[1..], 1, [lines[0]]) else Scan(lines[1..], 0, [])
    else
      var d, b := depth + Net(lines[0]), buf + [lines[0]];
      if d == 0 then [Join("\n", b)] + Scan(lines[1..], 0, []) else Scan(lines[1..], d, b)
  }

  method CountOf(s: string, c: char) returns (n: int)
    requires c == '{' || c == '}'
    ensures n == Occurrences(s, c)
  {
    n := 0;
    for k := 0 to |s|
      invariant n == Occurrences(s[..k], c)
    {
      assert s[..k + 1][..k] == s[..k];
      if s[k] == c { n := n + 1; }
    }
    assert s[..|s|] == s;
  }

  function Occurrences(s: string, c: char): nat {
    if s == "" then 0 else Occurrences(s[..|s| - 1], c) + if s[|s| - 1] == c then 1 else 0
  }

  lemma {:induction false} NetCounts(s: string)
    ensures Net(s) == Occurrences(s, '{') - Occurrences(s, '}')
  {
    if s == "" {
    } else {
      NetCounts(s[..|s| - 1]);
    }
  }

  method ChildNodes(text: string) returns (blocks: seq<string>)
    ensures blocks == Scan(SplitLines(text), 0, [])
  {
    var lines := SplitLines(text);
    var buf: seq<string>, depth: int := [], 0;
    blocks := [];
    for k := 0 to |lines|
      invariant blocks + Scan(lines[k..], depth, if depth == 0 then [] else buf) == Scan(lines, 0, [])
    {
      var line := lines[k];
      assert lines[k..][0] == line && lines[k..][1..] == lines[k + 1..];
      if depth == 0 {
        if EndsOpen(line) {
          depth, buf := 1, [line];
        }
      } else {
        buf := buf + [line];
        var opens := CountOf(line, '{');
        var closes := CountOf(line, '}');
        NetCounts(line);
        depth := depth + (opens - closes);
        if depth == 0 {
          blocks := blocks + [Join("\n", buf)];
        }
      }
    }
  }

  lemma ScanStep(line: string, after: seq<string>, depth: int, buf: seq<string>)
    requires depth > 0 && depth + Net(line) > 0
    ensures Scan([line] + after, depth, buf) == Scan(after, depth + Net(line), buf + [line])
  {
    assert ([line] + after)[1..] == after;
  }

  /** Inside a block, a printed forest is buffered whole and leaves the depth where it was. */
  lemma {:induction false} ScanInside(t: Items, after: seq<string>, depth: int, buf: seq<string>)
    requires WellFormed(t) && depth > 0
    ensures Scan(Lines(t) + after, depth, buf) == Scan(after, depth, buf + Lines(t))
  {
    hide Scan, Net;
    match t
    case Nil =>
      assert Lines(t) + after == after && buf + Lines(t) == buf;
    case Prop(line, rest) =>
      PlainNet(line);
      assert Lines(t) + after == [line] + (Lines(rest) + after);
      ScanStep(line, Lines(rest) + after, depth, buf);
      ScanInside(rest, after, depth, buf + [line]);
      assert buf + [line] + Lines(rest) == buf + Lines(t);
    case Sub(open, body, close, rest) =>
      OpenNet(open);
      CloseNet(close, 1);
      var tail := [close] + (Lines(rest) + after);
      assert Lines(t) + after == [open] + (Lines(body) + tail);
      ScanStep(open, Lines(body) + tail, depth, buf);
      ScanInside(body, tail, depth + 1, buf + [open]);
      ScanStep(close, Lines(rest) + after, depth + 1, buf + [open] + Lines(body));
      ScanInside(rest, after, depth, buf + [open] + Lines(body) + [close]);
      assert buf + [open] + Lines(body) + [close] + Lines(rest) == buf + Lines(t);
  }

  lemma OpenStep(line: string, after: seq<string>)
    requires EndsOpen(line)
    ensures Scan([line] + after, 0, []) == Scan(after, 1, [line])
  {
    assert ([line] + after)[1..] == after;
  }

  lemma CloseStep(line: string, after: seq<string>, depth: int, buf: seq<string>)
    requires depth > 0 && depth + Net(line) == 0
    ensures Scan([line] + after, depth, buf) == [Join("\n", buf + [line])] + Scan(after, 0, [])
  {
    assert ([line] + after)[1..] == after;
  }

  lemma SkipFiller(line: string, after: seq<string>)
    requires Plain(line)
    ensures Scan([line] + after, 0, []) == Scan(after, 0, [])
  {
    PlainNeverOpens(line);
    assert ([line] + after)[1..] == after;
  }

  /** Outside, it yields one block per node, in order, and drops the properties between them. */
  lemma {:induction false} ScanOutside(t: Items, after: seq<string>)
    requires WellFormed(t)
    ensures Scan(Lines(t) + after, 0, []) == Blocks(t) + Scan(after, 0, [])
  {
    hide Scan, Net, Join, EndsOpen;
    match t
    case Nil =>
      assert Lines(t) + after == after;
    case Prop(line, rest) =>
      assert Lines(t) + after == [line] + (Lines(rest) + after);
      SkipFiller(line, Lines(rest) + after);
      ScanOutside(rest, after);
    case Sub(open, body, close, rest) =>
      CloseNet(close, 1);
      var tail := [close] + (Lines(rest) + after);
      assert Lines(t) + after == [open] + (Lines(body) + tail);
      OpenEnds(open);
      OpenStep(open, Lines(body) + tail);
      ScanInside(body, tail, 1, [open]);
      CloseStep(close, Lines(rest) + after, 1, [open] + Lines(body));
      ScanOutside(rest, after);
  }

  // ---------------------------------------------------------------------------
  // node_body
  // ---------------------------------------------------------------------------

  /** The first brace at o is closed by the one at e, and by no earlier one. */
  ghost predicate Encloses(text: string, o: nat, e: nat) {
    && o < e < |text| && text[o] == '{' && text[e] == '}'
    && Net(text[o + 1..e]) == 0 && Covered(text[o + 1..e], 0)
  }

  /** A brace is closed in one place only. */
  lemma EnclosesOnce(text: string, o: nat, e1: nat, e2: nat)
    requires Encloses(text, o, e1) && Encloses(text, o, e2)
    ensures e1 == e2
  {
    if e1 < e2 {
      Escapes(text, o, e1, e2);
    } else if e2 < e1 {
      Escapes(text, o, e2, e1);
    }
  }

  lemma Escapes(text: string, o: nat, e1: nat, e2: nat)
    requires Encloses(text, o, e1) && e1 < e2 <= |text|
    ensures !Covered(text[o + 1..e2], 0)
  {
    var s, k := text[o + 1..e2], e1 - o;
    var t := text[o + 1..e1 + 1];
    assert s[..k] == t;
    assert t[..k - 1] == text[o + 1..e1];
    assert 0 + Net(s[..k]) == -1;
  }

  /** str.index(): where part first occurs at or after from. */
  method Index(text: string, part: string, from: nat) returns (at: Option<nat>)
    ensures at.Some? ==> from <= at.value && OccursAt(text, part, at.value)
    ensures at.Some? ==> forall k | from <= k < at.value :: !OccursAt(text, part, k)
    ensures at.None? ==> forall k | from <= k :: !OccursAt(text, part, k)
  {
    var k := from;
    while k + |part| <= |text|
      invariant from <= k
      invariant forall j | from <= j < k :: !OccursAt(text, part, j)
      decreases |text| - k
    {
      if text[k..k + |part|] == part {
        return Some(k);
      }
      k := k + 1;
    }
    at := None;
  }

  /** The mark first occurs at start, and the first opening brace from there on is at o. */
  ghost predicate Finds(text: string, mark: string, start: nat, o: nat) {
    && OccursAt(text, mark, start) && (forall k | 0 <= k < start :: !OccursAt(text, mark, k))
    && start <= o < |text| && text[o] == '{' && (forall k | start <= k < o :: text[k] != '{')
  }

  /** node_body: what stands between the braces of the first node whose line mentions the mark. It
      fails when there is no mark, no brace after it, or no brace that closes that one. */
  method NodeBody(text: string, mark: string) returns (body: Option<string>)
    ensures body.Some? ==> exists start: nat, o: nat, e: nat ::
              Finds(text, mark, start, o) && Encloses(text, o, e) && body.value == text[o + 1..e]
    ensures body.None? ==> forall start: nat, o: nat, e: nat | Finds(text, mark, start, o) :: !Encloses(text, o, e)
  {
    var start := Index(text, mark, 0);
    if start.None? {
      return None;
    }
    var open := Index(text, "{", start.value);
    if open.None? {
      NoBrace(text, start.value);
      return None;
    }
    var o := open.value;
    FirstBrace(text, mark, start.value, o);
    var depth, i := 1, o + 1;
    while depth != 0 && i < |text|
      invariant o < i <= |text|
      invariant depth == 1 + Net(text[o + 1..i]) >= 0
      invariant depth != 0 ==> Covered(text[o + 1..i], 0)
      invariant depth == 0 ==> Encloses(text, o, i - 1)
      decreases |text| - i
    {
      Advance(text, o, i);
      if text[i] == '{' {
        depth := depth + 1;
      } else if text[i] == '}' {
        depth := depth - 1;
      }
      i := i + 1;
    }
    if depth != 0 {
      OnlyFind(text, mark, start.value, o);
      NeverCloses(text, o);
      return None;
    }
    body := Some(text[o + 1..i - 1]);
  }

  lemma BraceOccurs(text: string, k: nat)
    requires k < |text|
    ensures OccursAt(text, "{", k) <==> text[k] == '{'
  {
    assert text[k..k + 1] == [text[k]];
  }

  lemma NoBrace(text: string, start: nat)
    requires forall k | start <= k :: !OccursAt(text, "{", k)
    ensures forall k | start <= k < |text| :: text[k] != '{'
  {
    forall k | start <= k < |text|
      ensures text[k] != '{'
    {
      BraceOccurs(text, k);
    }
  }

  lemma FirstBrace(text: string, mark: string, start: nat, o: nat)
    requires OccursAt(text, mark, start) && (forall k | 0 <= k < start :: !OccursAt(text, mark, k))
    requires start <= o && OccursAt(text, "{", o) && (forall k | start <= k < o :: !OccursAt(text, "{", k))
    ensures Finds(text, mark, start, o)
  {
    forall k | start <= k <= o
      ensures text[k] == '{' <==> OccursAt(text, "{", k)
    {
      BraceOccurs(text, k);
    }
  }

  /** There is only one place to look. */
  lemma OnlyFind(text: string, mark: string, start: nat, o: nat)
    requires Finds(text, mark, start, o)
    ensures forall s: nat, b: nat | Finds(text, mark, s, b) :: s == start && b == o
  {
  }

  lemma NeverCloses(text: string, o: nat)
    requires o < |text| && Covered(text[o + 1..|text|], 0)
    ensures forall e: nat :: !Encloses(text, o, e)
  {
    forall e: nat | Encloses(text, o, e)
      ensures false
    {
      Escapes(text, o, e, |text|);
    }
  }

  lemma Advance(text: string, o: nat, i: nat)
    requires o < i < |text| && Covered(text[o + 1..i], 0)
    ensures Net(text[o + 1..i + 1]) == Net(text[o + 1..i]) + Weight(text[i])
    ensures Net(text[o + 1..i + 1]) >= 0 ==> Covered(text[o + 1..i + 1], 0)
  {
    var s := text[o + 1..i + 1];
    assert s[..|s| - 1] == text[o + 1..i];
    forall k | 0 <= k <= |s| && Net(s) >= 0
      ensures 0 + Net(s[..k]) >= 0
    {
      if k < |s| {
        assert s[..k] == text[o + 1..i][..k];
      } else {
        assert s[..k] == s;
      }
    }
  }

  // ---------------------------------------------------------------------------
  // Extraction undoes printing
  // ---------------------------------------------------------------------------

  lemma {:induction false} TextConcat(a: seq<string>, b: seq<string>)
    ensures Text(a + b) == Text(a) + Text(b)
  {
    if a == [] {
      assert a + b == b;
    } else {
      assert (a + b)[1..] == a[1..] + b;
      TextConcat(a[1..], b);
    }
  }

  lemma {:induction false} JoinText(lines: seq<string>, last: string)
    ensures Join("\n", lines + [last]) == Text(lines) + last
  {
    if lines == [] {
    } else {
      assert (lines + [last])[1..] == lines[1..] + [last];
      JoinText(lines[1..], last);
    }
  }

  lemma {:induction false} PrintedLines(t: Items)
    requires WellFormed(t)
    ensures AllOneLine(Lines(t))
  {
    match t
    case Nil =>
    case Prop(_, rest) => PrintedLines(rest);
    case Sub(_, body, _, rest) => PrintedLines(body); PrintedLines(rest);
  }

  lemma LineCovered(line: string, depth: int)
    requires Covered(line, depth) && depth + Net(line) >= 0
    ensures Covered(line + "\n", depth) && Net(line + "\n") == Net(line)
    ensures Text([line]) == line + "\n"
  {
    assert Plain("\n");
    PlainCovered("\n", depth + Net(line));
    CoveredConcat(line, "\n", depth);
    NetConcat(line, "\n");
    assert [line][1..] == [];
    assert Text([]) == "";
  }

  lemma Append(a: string, b: string, depth: int)
    requires Covered(a, depth) && Covered(b, depth + Net(a))
    ensures Covered(a + b, depth) && Net(a + b) == Net(a) + Net(b)
  {
    CoveredConcat(a, b, depth);
    NetConcat(a, b);
  }

  /** A printed forest closes exactly what it opens. */
  lemma {:induction false} PrintedCovered(t: Items, depth: int)
    requires WellFormed(t) && depth >= 0
    ensures Covered(Text(Lines(t)), depth) && Net(Text(Lines(t))) == 0
  {
    hide Net, Covered, Text;
    match t
    case Nil =>
      assert Text([]) == "" by { EmptyText(); }
      PlainCovered("", depth);
    case Prop(line, rest) =>
      PlainCovered(line, depth);
      LineCovered(line, depth);
      PrintedCovered(rest, depth);
      TextConcat([line], Lines(rest));
      Append(Text([line]), Text(Lines(rest)), depth);
    case Sub(open, body, close, rest) =>
      OpenCovered(open, depth);
      LineCovered(open, depth);
      PrintedCovered(body, depth + 1);
      CloseNet(close, depth + 1);
      LineCovered(close, depth + 1);
      PrintedCovered(rest, depth);
      TextConcat([open] + Lines(body) + [close], Lines(rest));
      TextConcat([open] + Lines(body), [close]);
      TextConcat([open], Lines(body));
      Append(Text([open]), Text(Lines(body)), depth);
      Append(Text([open]) + Text(Lines(body)), Text([close]), depth);
      Append(Text([open]) + Text(Lines(body)) + Text([close]), Text(Lines(rest)), depth);
  }

  lemma EmptyText()
    ensures Text([]) == ""
  {
  }

  lemma OpenCovered(line: string, depth: int)
    requires OpenLine(line) && depth >= 0
    ensures Covered(line, depth) && Net(line) == 1
  {
    OpenNet(line);
    forall k | 0 <= k <= |line|
      ensures depth + Net(line[..k]) >= 0
    {
      assert 0 + Net(line[..k]) >= 0;
    }
  }

  /** The inside of a printed node: the rest of the line that opened it, its items, and the
      indentation of the line that closes it. */
  function Inside(gap: string, t: Items, indent: string): string { gap + "\n" + Text(Lines(t)) + indent }

  predicate Filler(s: string) { OneLine(s) && Plain(s) }

  /** child_nodes gives back exactly the printed children, in order, with the container's own
      properties dropped. */
  lemma ChildrenOfPrinted(gap: string, t: Items, indent: string)
    requires WellFormed(t) && Filler(gap) && Filler(indent)
    ensures Scan(SplitLines(Inside(gap, t, indent)), 0, []) == Blocks(t)
  {
    hide Text, SplitLines, Scan;
    PrintedLines(t);
    SplitText([gap] + Lines(t), indent);
    TextConcat([gap], Lines(t));
    LineText(gap);
    assert Inside(gap, t, indent) == Text([gap] + Lines(t)) + indent;
    var after := if indent == "" then [] else [indent];
    assert [gap] + Lines(t) + after == [gap] + (Lines(t) + after);
    SkipFiller(gap, Lines(t) + after);
    ScanOutside(t, after);
    if indent != "" {
      assert after == [indent] + [];
      SkipFiller(indent, []);
    }
    ScanNothing();
  }

  lemma LineText(line: string)
    ensures Text([line]) == line + "\n"
  {
    assert [line][1..] == [];
  }

  lemma ScanNothing()
    ensures Scan([], 0, []) == []
  {
  }

  /** A printed container in a larger text, which mentions the mark here first. */
  function Printed(before: string, mark: string, head: string, inside: string, after: string): string {
    before + mark + head + "{" + inside + "}" + after
  }

  lemma InsideCovered(gap: string, t: Items, indent: string)
    requires WellFormed(t) && Filler(gap) && Filler(indent)
    ensures Covered(Inside(gap, t, indent), 0) && Net(Inside(gap, t, indent)) == 0
  {
    hide Net, Covered, Text;
    PlainCovered(gap, 0);
    LineCovered(gap, 0);
    PrintedCovered(t, 0);
    PlainCovered(indent, 0);
    Append(gap + "\n", Text(Lines(t)), 0);
    Append(gap + "\n" + Text(Lines(t)), indent, 0);
  }

  lemma PrintedEncloses(before: string, mark: string, head: string, inside: string, after: string)
    requires Covered(inside, 0) && Net(inside) == 0 && Plain(mark) && Plain(head)
    requires forall k | 0 <= k < |before| :: !OccursAt(Printed(before, mark, head, inside, after), mark, k)
    ensures var text := Printed(before, mark, head, inside, after);
            var o := |before| + |mark| + |head|;
            && Finds(text, mark, |before|, o) && Encloses(text, o, o + 1 + |inside|)
            && text[o + 1..o + 1 + |inside|] == inside
  {
    hide Net, Covered;
    var text := Printed(before, mark, head, inside, after);
    var o := |before| + |mark| + |head|;
    assert text[|before|..|before| + |mark|] == mark;
    assert text[o + 1..o + 1 + |inside|] == inside;
    assert forall k | |before| <= k < o :: text[k] == (mark + head)[k - |before|];
  }

  /** Extraction round trip: from any text holding a printed container, node_body and child_nodes
      together return the container's printed children, in order. */
  method Extract(text: string, mark: string, ghost before: string, ghost head: string,
                 ghost gap: string, ghost t: Items, ghost indent: string, ghost after: string)
    returns (blocks: seq<string>)
    requires WellFormed(t) && Filler(gap) && Filler(indent) && Plain(mark) && Plain(head)
    requires text == Printed(before, mark, head, Inside(gap, t, indent), after)
    requires forall k | 0 <= k < |before| :: !OccursAt(text, mark, k)
    ensures blocks == Blocks(t)
  {
    hide Net, Covered, Text, SplitLines, Scan, WellFormed, Inside, Encloses, Finds, Filler, Printed;
    InsideCovered(gap, t, indent);
    PrintedEncloses(before, mark, head, Inside(gap, t, indent), after);
    var body := NodeBody(text, mark);
    assert body.Some?;
    ghost var o := |before| + |mark| + |head|;
    OnlyFind(text, mark, |before|, o);
    forall e1: nat, e2: nat | Encloses(text, o, e1) && Encloses(text, o, e2)
      ensures e1 == e2
    {
      EnclosesOnce(text, o, e1, e2);
    }
    assert body.value == Inside(gap, t, indent);
    blocks := ChildNodes(body.value);
    ChildrenOfPrinted(gap, t, indent);
  }

  // ---------------------------------------------------------------------------
  // Going deeper, and going round again
  // ---------------------------------------------------------------------------

  /** What split_node takes for a block's body: a slice, so closing before opening gives nothing. */
  function BodySlice(block: string): string {
    if Brace(block) + 1 <= LastClose(block) then block[Brace(block) + 1..LastClose(block)] else ""
  }

  /** The text with each of the blocks in turn taken out wherever it stands. */
  function Without(text: string, blocks: seq<string>): string {
    if blocks == [] then text else Erase(Without(text, blocks[..|blocks| - 1]), blocks[|blocks| - 1])
  }

  /** split_node: what is left of the body without its sub-nodes, and those; a block with no brace to
      find is an error. */
  method SplitNode(block: string) returns (parts: Option<(string, seq<string>)>)
    ensures parts.None? <==> Brace(block) == |block| || LastClose(block) < 0
    ensures parts.Some? ==>
              && parts.value.1 == Scan(SplitLines(BodySlice(block)), 0, [])
              && parts.value.0 == Without(BodySlice(block), parts.value.1)
  {
    if Brace(block) == |block| || LastClose(block) < 0 {
      return None;
    }
    var children := ChildNodes(BodySlice(block));
    var own := BodySlice(block);
    for k := 0 to |children|
      invariant own == Without(BodySlice(block), children[..k])
    {
      assert children[..k + 1][..k] == children[..k];
      own := Erase(own, children[k]);
    }
    assert children[..|children|] == children;
    parts := Some((own, children));
  }

  lemma {:induction false} WithoutFirst(text: string, first: string, rest: seq<string>)
    ensures Without(text, [first] + rest) == Without(Erase(text, first), rest)
  {
    var all := [first] + rest;
    if rest == [] {
      assert all[..0] == [];
    } else {
      var n := |rest| - 1;
      assert all[..|all| - 1] == [first] + rest[..n];
      WithoutFirst(text, first, rest[..n]);
    }
  }

  /** A node's own lines, with an empty one where each of its sub-nodes was. */
  function OwnLines(t: Items): seq<string> {
    match t
    case Nil => []
    case Prop(line, rest) => [line] + OwnLines(rest)
    case Sub(_, _, _, rest) => [""] + OwnLines(rest)
  }

  function TextOf(t: Items): string
    requires t.Sub?
  {
    Join("\n", Block(t.open, t.body, t.close))
  }

  /** The printed text once the sub-nodes with these texts have been taken out. */
  function Left(t: Items, gone: set<string>): string {
    match t
    case Nil => ""
    case Prop(line, rest) => line + "\n" + Left(rest, gone)
    case Sub(_, _, _, rest) => (if TextOf(t) in gone then "" else TextOf(t)) + ("\n" + Left(rest, gone))
  }

  /** From left to right, part begins only where a sub-node with that very text stands. */
  ghost predicate Stands(t: Items, gone: set<string>, part: string, post: string) {
    match t
    case Nil => Nowhere(post, part)
    case Prop(line, rest) => Clear(line + "\n", Left(rest, gone) + post, part) && Stands(rest, gone, part, post)
    case Sub(_, _, _, rest) =>
      && Clear(if TextOf(t) in gone || TextOf(t) == part then "\n" else TextOf(t) + "\n", Left(rest, gone) + post, part)
      && Stands(rest, gone, part, post)
  }

  lemma {:induction false} EraseStands(t: Items, gone: set<string>, part: string, post: string)
    requires part != "" && Stands(t, gone, part, post)
    ensures Erase(Left(t, gone) + post, part) == Left(t, gone + {part}) + post
  {
    hide Erase, Clear, Nowhere, TextOf;
    match t
    case Nil =>
      EraseNothing(post, part);
      assert Left(t, gone) + post == post;
    case Prop(line, rest) =>
      var after := Left(rest, gone) + post;
      EraseStands(rest, gone, part, post);
      EraseClear(line + "\n", after, part);
      Regrouped(line + "\n", Left(rest, gone), post);
      Regrouped(line + "\n", Left(rest, gone + {part}), post);
    case Sub(_, _, _, rest) =>
      var block, after := TextOf(t), Left(rest, gone) + post;
      EraseStands(rest, gone, part, post);
      if block in gone || block == part {
        EraseClear("\n", after, part);
        EraseHere(part, "\n" + after);
      } else {
        EraseClear(block + "\n", after, part);
      }
      InThree("", Left(rest, gone), post);
      InThree("", Left(rest, gone + {part}), post);
      InThree(block, Left(rest, gone), post);
      InThree(block, Left(rest, gone + {part}), post);
  }

  lemma Regrouped(a: string, b: string, c: string)
    ensures a + b + c == a + (b + c)
  {
  }

  lemma InThree(a: string, b: string, c: string)
    ensures a + ("\n" + b) + c == a + ("\n" + (b + c))
    ensures a + "\n" + (b + c) == a + ("\n" + (b + c))
    ensures "" + ("\n" + b) + c == "\n" + (b + c)
  {
  }

  function TextsOf(blocks: seq<string>): set<string> { set b | b in blocks }

  /** When its turn comes, each sub-node's text stands where sub-nodes with that text do, and nowhere
      else: neither among the node's own lines nor across or within another sub-node still there. */
  ghost predicate Apart(pre: string, t: Items, post: string) {
    forall k | 0 <= k < |Blocks(t)| :: ApartAt(pre, t, post, k)
  }

  ghost predicate ApartAt(pre: string, t: Items, post: string, k: nat)
    requires k < |Blocks(t)|
  {
    var gone := TextsOf(Blocks(t)[..k]);
    Clear(pre, Left(t, gone) + post, Blocks(t)[k]) && Stands(t, gone, Blocks(t)[k], post)
  }

  /** So taking each out in turn takes out just the sub-nodes. */
  lemma {:induction false} TakenOut(pre: string, t: Items, post: string, k: nat)
    requires WellFormed(t) && Apart(pre, t, post) && k <= |Blocks(t)|
    ensures Without(pre + (Text(Lines(t)) + post), Blocks(t)[..k]) == pre + (Left(t, TextsOf(Blocks(t)[..k])) + post)
  {
    hide Erase, Clear, Stands, Text, Left, Lines, Blocks, WellFormed;
    var blocks := Blocks(t);
    if k == 0 {
      assert TextsOf(blocks[..0]) == {};
      NothingGone(t);
    } else {
      var gone, block := TextsOf(blocks[..k - 1]), blocks[k - 1];
      TakenOut(pre, t, post, k - 1);
      assert ApartAt(pre, t, post, k - 1);
      assert blocks[..k][..k - 1] == blocks[..k - 1] && TextsOf(blocks[..k]) == gone + {block};
      SomeBlocks(t, k - 1);
      EraseClear(pre, Left(t, gone) + post, block);
      EraseStands(t, gone, block, post);
    }
  }

  lemma {:induction false} NothingGone(t: Items)
    requires WellFormed(t)
    ensures Left(t, {}) == Text(Lines(t))
  {
    hide Text, Join, WellFormed, Block;
    match t
    case Nil => EmptyText();
    case Prop(line, rest) =>
      WellFormedRest(t);
      NothingGone(rest);
      TextConcat([line], Lines(rest));
      LineText(line);
    case Sub(open, body, close, rest) =>
      WellFormedRest(t);
      NothingGone(rest);
      TextConcat(Block(open, body, close), Lines(rest));
      BlockText(open, body, close);
      Regrouped(TextOf(t), "\n", Left(rest, {}));
  }

  lemma {:induction false} AllGone(t: Items, gone: set<string>)
    requires forall b | b in Blocks(t) :: b in gone
    ensures Left(t, gone) == Text(OwnLines(t))
  {
    hide Text, Join;
    match t
    case Nil => EmptyText();
    case Prop(line, rest) =>
      AllGone(rest, gone);
      TextConcat([line], OwnLines(rest));
      LineText(line);
    case Sub(open, body, close, rest) =>
      assert Blocks(t) == [TextOf(t)] + Blocks(rest);
      assert TextOf(t) in Blocks(t) && forall b | b in Blocks(rest) :: b in Blocks(t);
      AllGone(rest, gone);
      TextConcat([""], OwnLines(rest));
      LineText("");
  }

  lemma {:induction false} SomeBlocks(t: Items, k: nat)
    requires WellFormed(t) && k < |Blocks(t)|
    ensures Blocks(t)[k] != ""
  {
    hide Join, OpenLine, CloseLine, Block;
    match t
    case Prop(_, rest) => SomeBlocks(rest, k);
    case Sub(open, body, close, rest) =>
      SomeBlock(open, body, close);
      if k > 0 {
        SomeBlocks(rest, k - 1);
      }
  }

  /** And leaves the node's own lines. */
  lemma OwnOfPrinted(pre: string, t: Items, post: string)
    requires WellFormed(t) && Apart(pre, t, post)
    ensures Without(pre + Text(Lines(t)) + post, Blocks(t)) == pre + Text(OwnLines(t)) + post
  {
    hide Without, Text, Lines, Blocks, WellFormed, Apart, Left, OwnLines;
    var n := |Blocks(t)|;
    TakenOut(pre, t, post, n);
    assert Blocks(t)[..n] == Blocks(t);
    AllGone(t, TextsOf(Blocks(t)));
    Regrouped(pre, Text(Lines(t)), post);
    Regrouped(pre, Text(OwnLines(t)), post);
  }

  lemma WithoutNothing(text: string)
    ensures Without(text, []) == text
  {
  }

  lemma SomeBlock(open: string, body: Items, close: string)
    requires OpenLine(open)
    ensures Join("\n", Block(open, body, close)) != ""
  {
    JoinText([open] + Lines(body), close);
    TextConcat([open], Lines(body));
    LineText(open);
  }

  lemma {:induction false} BraceFirst(a: string, b: string)
    requires Brace(a) < |a|
    ensures Brace(a + b) == Brace(a)
  {
    if a[0] == '{' {
    } else {
      assert (a + b)[1..] == a[1..] + b;
      BraceFirst(a[1..], b);
    }
  }

  lemma {:induction false} CloseLast(a: string, b: string)
    requires LastClose(b) >= 0
    ensures LastClose(a + b) == |a| + LastClose(b)
  {
    var n := |b| - 1;
    if b[n] == '}' {
    } else {
      assert (a + b)[..|a + b| - 1] == a + b[..n];
      CloseLast(a, b[..n]);
    }
  }

  lemma OneLineSlices(line: string, n: nat)
    requires OneLine(line) && n <= |line|
    ensures OneLine(line[..n]) && OneLine(line[n..])
  {
  }

  /** What stands after a node's opening brace on its line, and before its closing one on that. */
  function AfterBrace(open: string): string
    requires Brace(open) < |open|
  {
    open[Brace(open) + 1..]
  }

  function Indent(close: string): string
    requires LastClose(close) >= 0
  {
    close[..LastClose(close)]
  }

  /** At any depth: splitting a printed node gives back its own printed children, and, when their texts
      stand apart, its own lines. */
  lemma PartsOfNode(open: string, body: Items, close: string)
    requires OpenLine(open) && WellFormed(body) && CloseLine(close)
    ensures var block := Join("\n", Block(open, body, close));
            && Brace(block) < |block| && LastClose(block) >= 0
            && Scan(SplitLines(BodySlice(block)), 0, []) == Blocks(body)
            && (Apart(AfterBrace(open) + "\n", body, Indent(close)) ==>
                  Without(BodySlice(block), Blocks(body))
                  == AfterBrace(open) + "\n" + Text(OwnLines(body)) + Indent(close))
  {
    hide Scan, SplitLines, Text, Join, Blocks, Lines, WellFormed, BodySlice, Brace, LastClose, Without, Apart;
    ChildrenOfNode(open, body, close);
    if Apart(AfterBrace(open) + "\n", body, Indent(close)) {
      OwnOfPrinted(AfterBrace(open) + "\n", body, Indent(close));
    }
  }

  /** Two sub-nodes that do not stand apart: the second's opening line is x and then the first's. The
      first's text is taken out of the second too, which is then nowhere to be found, and x is left
      among the node's own lines. */
  lemma LeftBehind(open: string, close: string, x: string)
    requires OpenLine(open) && OpenLine(x + open) && CloseLine(close) && x != "" && |open| + |close| > 2
    requires forall k | 0 <= k < |"\n" + x| :: ("\n" + x)[k] != open[0]
    ensures var t := Sub(open, Nil, close, Sub(x + open, Nil, close, Nil));
            && WellFormed(t) && Text(OwnLines(t)) == "\n\n"
            && Without("\n" + Text(Lines(t)), Blocks(t)) == "\n\n" + x + "\n"
  {
    hide CloseLine, Text, Lines, Blocks, Without, Join, Erase, OwnLines, EndsOpen;
    assert open != "";
    var t := Sub(open, Nil, close, Sub(x + open, Nil, close, Nil));
    var a := open + ("\n" + close);
    TwoBlocks(open, close, x);
    var left := "\n" + (a + (("\n" + x) + (a + "\n")));
    assert "\n" + Text(Lines(t)) == left;
    assert ("\n" + x)[0] == "\n"[0] && a[0] == open[0];
    EraseNext("\n", a, ("\n" + x) + (a + "\n"));
    EraseNext("\n" + x, a, "\n");
    EraseShort("\n", a);
    var kept := "\n\n" + x + "\n";
    assert Erase(left, a) == kept;
    EraseShort(kept, x + a);
    WithoutFirst(left, a, [x + a]);
    WithoutFirst(kept, x + a, []);
    WithoutNothing(kept);
    assert [x + a] + [] == [x + a];
  }

  lemma TwoBlocks(open: string, close: string, x: string)
    requires OpenLine(open) && OpenLine(x + open) && CloseLine(close)
    ensures var t := Sub(open, Nil, close, Sub(x + open, Nil, close, Nil));
            var a := open + ("\n" + close);
            && WellFormed(t) && Blocks(t) == [a] + [x + a] && Text(OwnLines(t)) == "\n\n"
            && Text(Lines(t)) == a + "\n" + (x + a) + "\n"
  {
    hide OpenLine, CloseLine, Text, Join;
    Bare(open, close);
    Bare(x + open, close);
    assert (x + open) + ("\n" + close) == x + (open + ("\n" + close));
    var u := Sub(x + open, Nil, close, Nil);
    var t := Sub(open, Nil, close, u);
    assert Lines(u) == Block(x + open, Nil, close) + Lines(Nil) && OwnLines(u) == [""] + OwnLines(Nil);
    assert Blocks(u) == [Join("\n", Block(x + open, Nil, close))] + Blocks(Nil) && WellFormed(u);
    assert Lines(t) == Block(open, Nil, close) + Block(x + open, Nil, close);
    TextConcat(Block(open, Nil, close), Block(x + open, Nil, close));
    assert OwnLines(t) == [""] + [""];
    TextConcat([""], [""]);
    LineText("");
  }

  /** A node with nothing in it. */
  lemma Bare(open: string, close: string)
    ensures Join("\n", Block(open, Nil, close)) == open + ("\n" + close)
    ensures Text(Block(open, Nil, close)) == open + ("\n" + close) + "\n"
  {
    BlockText(open, Nil, close);
    assert Block(open, Nil, close) == [open] + [close];
    JoinMore("\n", open, [close]);
    JoinFew("\n", close);
    assert open + "\n" + close == open + ("\n" + close);
  }

  /** A sub-node, a second with a copy of it in it, and a third like the second with the copy gone. */
  function Three(x: string, body: Items, y: string, open: string, close: string): Items {
    Sub(x, body, y, Sub(open, Sub(x, body, y, Nil), close, Sub(open, Prop("", Nil), close, Nil)))
  }

  /** Nor is standing apart needed. The first's text stands within the second; but what then remains of
      the second is the third's text, so all goes all the same. */
  lemma RightByChance(x: string, body: Items, y: string, open: string, close: string)
    requires WellFormed(Three(x, body, y, open, close)) && x != "" && open != ""
    requires open[0] != '\n' && x[0] != '\n' && x[0] !in open && x[0] !in close
    ensures var t := Three(x, body, y, open, close);
            !Apart("\n", t, "") && Without("\n" + Text(Lines(t)), Blocks(t)) == "\n" + Text(OwnLines(t))
  {
    hide WellFormed, Text, Lines, Blocks, OwnLines, Apart, Without;
    var t := Three(x, body, y, open, close);
    var a := Join("\n", Block(x, body, y));
    var b, c := open + ("\n" + (a + ("\n" + close))), open + ("\n" + ("\n" + close));
    ThreeTexts(x, body, y, open, close);
    AllRemoved(a, open, close);
    WithinSecond(x, body, y, open, close);
  }

  lemma ThreeTexts(x: string, body: Items, y: string, open: string, close: string)
    requires x != ""
    ensures var t, a := Three(x, body, y, open, close), Join("\n", Block(x, body, y));
            var b, c := open + ("\n" + (a + ("\n" + close))), open + ("\n" + ("\n" + close));
            && a != "" && a[0] == x[0] && Blocks(t) == [a] + ([b] + [c])
            && Text(Lines(t)) == a + ("\n" + (b + ("\n" + (c + "\n")))) && Text(OwnLines(t)) == "\n\n\n"
  {
    hide Text, Join, Block, OwnLines;
    var t, a := Three(x, body, y, open, close), Join("\n", Block(x, body, y));
    var u := Sub(x, body, y, Nil);
    var v := Sub(open, u, close, Sub(open, Prop("", Nil), close, Nil));
    var w := Sub(open, Prop("", Nil), close, Nil);
    Begins(x, body, y);
    Encased(open, u, close);
    Encased(open, Prop("", Nil), close);
    BlockText(x, body, y);
    assert Lines(u) == Block(x, body, y) && Lines(Prop("", Nil)) == [""];
    LineText("");
    assert Lines(w) == Block(open, Prop("", Nil), close);
    assert Blocks(w) == [Join("\n", Block(open, Prop("", Nil), close))];
    assert Lines(v) == Block(open, u, close) + Lines(w);
    assert Lines(t) == Block(x, body, y) + Lines(v);
    TextConcat(Block(open, u, close), Lines(w));
    TextConcat(Block(x, body, y), Lines(v));
    ThreeGone(t, v, w);
    Reassociate(open, a, close);
  }

  lemma ThreeGone(t: Items, v: Items, w: Items)
    requires t.Sub? && t.rest == v && v.Sub? && v.rest == w && w.Sub? && w.rest == Nil
    ensures Text(OwnLines(t)) == "\n\n\n"
  {
    hide Text;
    OneGone(w);
    OneGone(v);
    OneGone(t);
    EmptyText();
    assert OwnLines(Nil) == [];
  }

  lemma OneGone(t: Items)
    requires t.Sub?
    ensures Text(OwnLines(t)) == "\n" + Text(OwnLines(t.rest))
  {
    TextConcat([""], OwnLines(t.rest));
    LineText("");
  }

  lemma Reassociate(open: string, a: string, close: string)
    ensures open + "\n" + (a + "\n") + close == open + ("\n" + (a + ("\n" + close)))
    ensures open + "\n" + ("" + "\n") + close == open + ("\n" + ("\n" + close))
  {
  }

  lemma Begins(x: string, body: Items, y: string)
    requires x != ""
    ensures var a := Join("\n", Block(x, body, y)); a != "" && a[0] == x[0]
  {
    Encased(x, body, y);
  }

  /** A printed node: its opening line, its items, its closing line. */
  lemma Encased(open: string, body: Items, close: string)
    ensures Join("\n", Block(open, body, close)) == open + "\n" + Text(Lines(body)) + close
    ensures Text(Block(open, body, close)) == open + "\n" + Text(Lines(body)) + close + "\n"
  {
    JoinText([open] + Lines(body), close);
    TextConcat([open], Lines(body));
    LineText(open);
    BlockText(open, body, close);
  }

  lemma WithinSecond(x: string, body: Items, y: string, open: string, close: string)
    requires x != ""
    ensures !Apart("\n", Three(x, body, y, open, close), "")
  {
    hide Text, Join, Block;
    var t, a := Three(x, body, y, open, close), Join("\n", Block(x, body, y));
    var v := t.rest;
    ThreeTexts(x, body, y, open, close);
    Encased(open, Sub(x, body, y, Nil), close);
    assert Lines(Sub(x, body, y, Nil)) == Block(x, body, y);
    BlockText(x, body, y);
    Reassociate(open, a, close);
    assert Blocks(t)[..0] == [] && TextsOf([]) == {};
    var after := Left(v.rest, {}) + "";
    assert TextOf(v) + "\n" + after == (open + "\n") + (a + ("\n" + close + "\n" + after));
    var k := |open| + 1;
    assert (TextOf(v) + "\n" + after)[k..k + |a|] == a;
    assert OccursAt(TextOf(v) + "\n" + after, a, k) && k < |TextOf(v) + "\n"|;
    assert |TextOf(v)| > |a|;
    assert !Clear(TextOf(v) + "\n", after, a);
    assert !Stands(v, {}, a, "");
    assert !Stands(t, {}, a, "");
    assert !ApartAt("\n", t, "", 0);
  }

  lemma AllRemoved(a: string, open: string, close: string)
    requires a != "" && open != "" && open[0] != '\n' && a[0] != '\n' && a[0] !in open && a[0] !in close
    ensures var b, c := open + ("\n" + (a + ("\n" + close))), open + ("\n" + ("\n" + close));
            var text := "\n" + (a + ("\n" + (b + ("\n" + (c + "\n")))));
            Without(text, [a] + ([b] + [c])) == "\n\n\n\n"
  {
    hide Erase, Without;
    var b, c := open + ("\n" + (a + ("\n" + close))), open + ("\n" + ("\n" + close));
    var rest := "\n" + (c + "\n");
    var text := "\n" + (a + ("\n" + (b + rest)));
    var tail := "\n" + (close + rest);
    var head := "\n" + (open + "\n");
    assert "\n" + (b + rest) == head + (a + tail);
    EraseNext("\n", a, head + (a + tail));
    EraseNext(head, a, tail);
    EraseAbsent(tail, a, a[0]);
    var left := "\n\n" + (c + ("\n" + (c + "\n")));
    assert "\n" + (head + tail) == left;
    assert Erase(text, a) == left;
    EraseAbsent(left, b, a[0]);
    BothGo(c);
    WithoutFirst(text, a, [b] + [c]);
    WithoutFirst(left, b, [c]);
    WithoutFirst(left, c, []);
    assert [c] + [] == [c];
    WithoutNothing("\n\n\n\n");
  }

  lemma BothGo(c: string)
    requires c != "" && c[0] != '\n'
    ensures Erase("\n\n" + (c + ("\n" + (c + "\n"))), c) == "\n\n\n\n"
  {
    hide Erase;
    EraseNext("\n\n", c, "\n" + (c + "\n"));
    EraseNext("\n", c, "\n");
    EraseAbsent("\n", c, c[0]);
  }

  lemma ChildrenOfNode(open: string, body: Items, close: string)
    requires OpenLine(open) && WellFormed(body) && CloseLine(close)
    ensures var block := Join("\n", Block(open, body, close));
            && Brace(block) < |block| && LastClose(block) >= 0
            && BodySlice(block) == open[Brace(open) + 1..] + "\n" + Text(Lines(body)) + close[..LastClose(close)]
            && Scan(SplitLines(BodySlice(block)), 0, []) == Blocks(body)
  {
    hide Scan, SplitLines, Text, Join, Blocks, Lines, WellFormed, BodySlice, Brace, LastClose;
    JoinText([open] + Lines(body), close);
    TextConcat([open], Lines(body));
    LineText(open);
    NodeSlice(open, "\n" + Text(Lines(body)), close);
    assert open + "\n" + Text(Lines(body)) == open + ("\n" + Text(Lines(body)));
    var gap, indent := open[Brace(open) + 1..], close[..LastClose(close)];
    assert gap + ("\n" + Text(Lines(body))) + indent == Inside(gap, body, indent);
    OneLineSlices(open, Brace(open) + 1);
    OneLineSlices(close, LastClose(close));
    ChildrenOfPrinted(gap, body, indent);
  }

  lemma NodeSlice(open: string, mid: string, close: string)
    requires Brace(open) < |open| && LastClose(close) >= 0
    ensures var block := open + mid + close;
            && Brace(block) < |block| && LastClose(block) >= 0
            && BodySlice(block) == open[Brace(open) + 1..] + mid + close[..LastClose(close)]
  {
    hide Brace, LastClose;
    assert open + mid + close == open + (mid + close);
    BraceFirst(open, mid + close);
    CloseLast(open + mid, close);
    var from, to := Brace(open) + 1, LastClose(close);
    SliceAcross(open, from, mid, close, to);
    assert |open + mid + close| == |open| + |mid| + |close| && LastClose(open + mid + close) == |open + mid| + to;
  }

  lemma SliceAcross(a: string, from: nat, mid: string, b: string, to: nat)
    requires from <= |a| && to <= |b|
    ensures (a + mid + b)[from..|a + mid| + to] == a[from..] + mid + b[..to]
  {
  }

  /** The nodes of a forest alone, a blank line between each two. */
  function Spaced(t: Items): Items {
    match t
    case Nil => Nil
    case Prop(_, rest) => Spaced(rest)
    case Sub(open, body, close, rest) =>
      Sub(open, body, close, if Spaced(rest) == Nil then Nil else Prop("", Spaced(rest)))
  }

  lemma {:induction false} SpacedKeeps(t: Items)
    requires WellFormed(t)
    ensures WellFormed(Spaced(t)) && Blocks(Spaced(t)) == Blocks(t) && (Spaced(t) == Nil <==> Blocks(t) == [])
  {
    match t
    case Nil =>
    case Prop(_, rest) => SpacedKeeps(rest);
    case Sub(_, _, _, rest) => SpacedKeeps(rest);
  }

  /** The rest of a list of nodes, after the line break that ends one of them. */
  lemma {:induction false} SpacedText(t: Items)
    requires WellFormed(t) && Blocks(t) != []
    ensures Text(Lines(Spaced(t))) == Join("\n\n", Blocks(t)) + "\n"
  {
    hide WellFormed;
    match t
    case Prop(_, rest) =>
      WellFormedRest(t);
      SpacedText(rest);
    case Sub(open, body, close, rest) =>
      WellFormedRest(t);
      SpacedKeeps(rest);
      BlockText(open, body, close);
      TextConcat(Block(open, body, close), Lines(if Spaced(rest) == Nil then Nil else Prop("", Spaced(rest))));
      if Blocks(rest) != [] {
        SpacedText(rest);
        TextConcat([""], Lines(Spaced(rest)));
        LineText("");
        JoinMore("\n\n", Join("\n", Block(open, body, close)), Blocks(rest));
      } else {
        EmptyText();
        assert Lines(Nil) == [];
      }
  }

  lemma WellFormedRest(t: Items)
    requires WellFormed(t) && t != Nil
    ensures WellFormed(t.rest)
  {
  }

  lemma BlockText(open: string, body: Items, close: string)
    ensures Text(Block(open, body, close)) == Join("\n", Block(open, body, close)) + "\n"
  {
    JoinText([open] + Lines(body), close);
    TextConcat([open] + Lines(body), [close]);
    LineText(close);
  }

  /** The overlay as it is written: a preamble, then the nodes inside a fragment for the bus, after
      the lines that restate its cell widths. */
  function Written(preamble: string, fragment: string, cells: seq<string>, nodes: seq<string>): string {
    preamble + fragment + " {\n" + Text(cells) + "\n" + Join("\n\n", nodes) + "\n};\n"
  }

  function Props(lines: seq<string>, t: Items): Items {
    if lines == [] then t else Prop(lines[0], Props(lines[1..], t))
  }

  lemma {:induction false} PropsPrint(lines: seq<string>, t: Items)
    requires WellFormed(t) && forall k | 0 <= k < |lines| :: Filler(lines[k])
    ensures WellFormed(Props(lines, t)) && Lines(Props(lines, t)) == lines + Lines(t)
    ensures Blocks(Props(lines, t)) == Blocks(t)
  {
    hide Plain, OneLine, OpenLine, CloseLine, Join, Block;
    if lines == [] {
    } else {
      PropsPrint(lines[1..], t);
    }
  }

  /** Writing the overlay and extracting from it again changes nothing. */
  method Reextract(preamble: string, fragment: string, cells: seq<string>, ghost t: Items, nodes: seq<string>)
    returns (again: seq<string>)
    requires WellFormed(t) && nodes == Blocks(t) != [] && Plain(fragment)
    requires forall k | 0 <= k < |cells| :: Filler(cells[k])
    requires forall k | 0 <= k < |preamble| :: !OccursAt(Written(preamble, fragment, cells, nodes), fragment, k)
    ensures again == nodes
  {
    hide WellFormed, Text, Join;
    ghost var u := Props(cells + [""], Spaced(t));
    SpacedKeeps(t);
    assert Filler("");
    PropsPrint(cells + [""], Spaced(t));
    WrittenIsPrinted(preamble, fragment, cells, t);
    again := Extract(Written(preamble, fragment, cells, nodes), fragment, preamble, " ", "", u, "", ";\n");
  }

  lemma WrittenIsPrinted(preamble: string, fragment: string, cells: seq<string>, t: Items)
    requires WellFormed(t) && Blocks(t) != []
    requires forall k | 0 <= k < |cells| :: Filler(cells[k])
    ensures Written(preamble, fragment, cells, Blocks(t))
            == Printed(preamble, fragment, " ", Inside("", Props(cells + [""], Spaced(t)), ""), ";\n")
  {
    hide WellFormed, Text, Join, Blocks, Lines, Props, Spaced, Filler;
    CellsText(cells, t);
    Regroup(preamble + fragment, Text(cells), Join("\n\n", Blocks(t)));
  }

  lemma CellsText(cells: seq<string>, t: Items)
    requires WellFormed(t) && Blocks(t) != []
    requires forall k | 0 <= k < |cells| :: Filler(cells[k])
    ensures Text(Lines(Props(cells + [""], Spaced(t)))) == Text(cells) + "\n" + (Join("\n\n", Blocks(t)) + "\n")
  {
    hide WellFormed, Text, Join, Blocks, Lines, Props, Spaced;
    SpacedKeeps(t);
    SpacedText(t);
    assert Filler("");
    PropsPrint(cells + [""], Spaced(t));
    TextConcat(cells + [""], Lines(Spaced(t)));
    TextConcat(cells, [""]);
    LineText("");
    assert "" + "\n" == "\n";
  }

  lemma Regroup(a: string, c: string, n: string)
    ensures a + " {\n" + c + "\n" + n + "\n};\n"
            == a + " " + "{" + ("" + "\n" + (c + "\n" + (n + "\n")) + "") + "}" + ";\n"
  {
    var inside := "" + "\n" + (c + "\n" + (n + "\n")) + "";
    assert inside == "\n" + c + "\n" + n + "\n";
    assert a + " {\n" == a + " " + "{" + "\n";
    assert "\n};\n" == "\n" + "}" + ";\n";
    Associates(a + " " + "{", "\n", c, "\n" + n, "\n", "}" + ";\n");
  }

  lemma Associates(a: string, b: string, c: string, d: string, e: string, f: string)
    ensures a + b + c + d + e + f == a + (b + c + d + e) + f
  {
  }
}
