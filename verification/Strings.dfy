/** The text operations the overlay script is written with. */
module Strings {

  /** The characters str.split() and str.rstrip() take for white space. */
  predicate Blank(c: char) {
    var n := c as int;
    || 0x09 <= n <= 0x0D || 0x1C <= n <= 0x20 || n == 0x85 || n == 0xA0 || n == 0x1680 || 0x2000 <= n <= 0x200A
    || n == 0x2028 || n == 0x2029 || n == 0x202F || n == 0x205F || n == 0x3000
  }

  /** The characters str.splitlines() ends a line at. */
  predicate LineEnd(c: char) {
    var n := c as int;
    || 0x0A <= n <= 0x0D || 0x1C <= n <= 0x1E || n == 0x85 || n == 0x2028 || n == 0x2029
  }

  /** Of the characters of plain text, the blanks and the line ends among them. */
  lemma Whites(c: char)
    ensures c in " \t\r\n" ==> Blank(c)
    ensures '!' <= c <= '~' ==> !Blank(c) && !LineEnd(c)
    ensures c in "\r\n" ==> LineEnd(c)
    ensures c in " \t" ==> !LineEnd(c)
  {
  }

  function Join(sep: string, parts: seq<string>): string {
    if parts == [] then "" else if |parts| == 1 then parts[0] else parts[0] + sep + Join(sep, parts[1..])
  }

  lemma JoinMore(sep: string, first: string, rest: seq<string>)
    requires rest != []
    ensures Join(sep, [first] + rest) == first + sep + Join(sep, rest)
  {
    assert ([first] + rest)[1..] == rest;
  }

  lemma JoinFew(sep: string, one: string)
    ensures Join(sep, []) == "" && Join(sep, [one]) == one
  {
  }

  predicate OccursAt(text: string, part: string, k: nat) {
    k + |part| <= |text| && text[k..k + |part|] == part
  }

  predicate Contains(text: string, part: string) {
    exists k | 0 <= k <= |text| :: OccursAt(text, part, k)
  }

  /** str.replace(part, ""): from the left, each occurrence that the one before leaves whole. */
  function Erase(s: string, part: string): string
    decreases |s|
  {
    if part == "" || |s| < |part| then s
    else if s[..|part|] == part then Erase(s[|part|..], part)
    else [s[0]] + Erase(s[1..], part)
  }

  ghost predicate Nowhere(s: string, part: string) { forall k | 0 <= k <= |s| :: !OccursAt(s, part, k) }

  lemma OccursLater(c: char, s: string, part: string, k: nat)
    ensures OccursAt([c] + s, part, k + 1) == OccursAt(s, part, k)
  {
    if k + |part| <= |s| {
      assert ([c] + s)[k + 1..k + 1 + |part|] == s[k..k + |part|];
    }
  }

  lemma {:induction false} EraseNothing(s: string, part: string)
    requires part != "" && Nowhere(s, part)
    ensures Erase(s, part) == s
  {
    hide Erase, OccursAt;
    if |s| < |part| {
      EraseShort(s, part);
    } else {
      var rest := s[1..];
      assert s == [s[0]] + rest;
      assert !OccursAt(s, part, 0);
      forall k | 0 <= k <= |rest|
        ensures !OccursAt(rest, part, k)
      {
        OccursLater(s[0], rest, part, k);
      }
      EraseNothing(rest, part);
      EraseStep(s, part);
    }
  }

  lemma EraseStep(s: string, part: string)
    requires part != "" && |s| >= |part| && !OccursAt(s, part, 0)
    ensures Erase(s, part) == [s[0]] + Erase(s[1..], part)
  {
    assert s[0..|part|] == s[..|part|];
  }

  /** part begins nowhere in a, when b follows it. */
  ghost predicate Clear(a: string, b: string, part: string) {
    forall k | 0 <= k < |a| :: !OccursAt(a + b, part, k)
  }

  /** Text in which no occurrence begins stays. */
  lemma {:induction false} EraseClear(a: string, b: string, part: string)
    requires part != "" && Clear(a, b, part)
    ensures Erase(a + b, part) == a + Erase(b, part)
  {
    hide Erase, OccursAt;
    if a == "" {
      assert a + b == b && a + Erase(b, part) == Erase(b, part);
    } else {
      var rest := a[1..] + b;
      assert a + b == [a[0]] + rest;
      assert !OccursAt(a + b, part, 0);
      forall k | 0 <= k < |a[1..]|
        ensures !OccursAt(rest, part, k)
      {
        OccursLater(a[0], rest, part, k);
      }
      EraseClear(a[1..], b, part);
      if |a + b| >= |part| {
        EraseStep(a + b, part);
        assert (a + b)[1..] == rest;
      } else {
        EraseShort(a + b, part);
        EraseShort(b, part);
      }
      assert [a[0]] + (a[1..] + Erase(b, part)) == a + Erase(b, part);
    }
  }

  lemma EraseHere(part: string, rest: string)
    requires part != ""
    ensures Erase(part + rest, part) == Erase(rest, part)
  {
    assert (part + rest)[..|part|] == part && (part + rest)[|part|..] == rest;
  }

  lemma Includes(s: string, part: string, k: nat, c: char)
    requires OccursAt(s, part, k) && c in part
    ensures c in s
  {
    var j :| 0 <= j < |part| && part[j] == c;
    assert s[k..k + |part|][j] == c;
  }

  /** A text without one of the characters of part has no part to lose. */
  lemma EraseAbsent(s: string, part: string, c: char)
    requires c in part && c !in s
    ensures Erase(s, part) == s
  {
    hide Erase;
    forall k | 0 <= k <= |s|
      ensures !OccursAt(s, part, k)
    {
      if OccursAt(s, part, k) {
        Includes(s, part, k, c);
      }
    }
    EraseNothing(s, part);
  }

  lemma EraseShort(s: string, part: string)
    requires |s| < |part|
    ensures Erase(s, part) == s
  {
  }

  /** Characters before the first occurrence stay. */
  lemma {:induction false} EraseNext(pre: string, part: string, rest: string)
    requires part != "" && forall k | 0 <= k < |pre| :: pre[k] != part[0]
    ensures Erase(pre + (part + rest), part) == pre + Erase(rest, part)
  {
    var s := pre + (part + rest);
    if pre == "" {
      assert s == part + rest && s[..|part|] == part && s[|part|..] == rest;
    } else {
      var after := pre[1..] + (part + rest);
      assert s == [pre[0]] + after;
      assert s[..|part|] != part by { assert s[..|part|][0] == pre[0]; }
      EraseNext(pre[1..], part, rest);
      assert s[1..] == after;
      assert [pre[0]] + (pre[1..] + Erase(rest, part)) == pre + Erase(rest, part);
    }
  }

  // ---------------------------------------------------------------------------
  // Cells: re.sub(r"[<>,]", " ", value).split()
  // ---------------------------------------------------------------------------

  predicate Separator(c: char) { Blank(c) || c == '<' || c == '>' || c == ',' }

  predicate Gap(s: string) { forall k | 0 <= k < |s| :: Separator(s[k]) }

  predicate Unbroken(s: string) { forall k | 0 <= k < |s| :: !Separator(s[k]) }

  /** What can stand as one cell: something, with no separator in it. */
  predicate Solid(s: string) { s != "" && Unbroken(s) }

  predicate AllSolid(cells: seq<string>) { forall k | 0 <= k < |cells| :: Solid(cells[k]) }

  /** Brackets and commas give way to spaces. */
  function Unbracket(s: string): (r: string)
    ensures |r| == |s|
    ensures forall k | 0 <= k < |s| :: r[k] == (if s[k] == '<' || s[k] == '>' || s[k] == ',' then ' ' else s[k])
  {
    seq(|s|, k requires 0 <= k < |s| => if s[k] == '<' || s[k] == '>' || s[k] == ',' then ' ' else s[k])
  }

  /** How many characters stand before the first blank. */
  function Run(s: string): (n: nat)
    ensures n <= |s|
  {
    if s == "" || Blank(s[0]) then 0 else 1 + Run(s[1..])
  }

  /** str.split() */
  function Fields(s: string): seq<string>
    decreases |s|
  {
    if s == "" then []
    else if Blank(s[0]) then Fields(s[1..])
    else [s[..Run(s)]] + Fields(s[Run(s)..])
  }

  function Cells(value: string): seq<string> { Fields(Unbracket(value)) }

  lemma UnbracketConcat(a: string, b: string)
    ensures Unbracket(a + b) == Unbracket(a) + Unbracket(b)
  {
  }

  lemma {:induction false} FieldsAfterGap(gap: string, s: string)
    requires forall k | 0 <= k < |gap| :: Blank(gap[k])
    ensures Fields(gap + s) == Fields(s)
  {
    if gap == "" {
      assert gap + s == s;
    } else {
      assert (gap + s)[1..] == gap[1..] + s;
      FieldsAfterGap(gap[1..], s);
    }
  }

  lemma {:induction false} RunOf(word: string, rest: string)
    requires forall k | 0 <= k < |word| :: !Blank(word[k])
    requires rest == "" || Blank(rest[0])
    ensures Run(word + rest) == |word|
  {
    if word == "" {
      assert word + rest == rest;
    } else {
      assert (word + rest)[1..] == word[1..] + rest;
      RunOf(word[1..], rest);
    }
  }

  lemma CellsAfterGap(gap: string, s: string)
    requires Gap(gap)
    ensures Cells(gap + s) == Cells(s)
  {
    UnbracketConcat(gap, s);
    FieldsAfterGap(Unbracket(gap), Unbracket(s));
  }

  lemma CellFirst(cell: string, rest: string)
    requires Solid(cell) && (rest == "" || Separator(rest[0]))
    ensures Cells(cell + rest) == [cell] + Cells(rest)
  {
    UnbracketConcat(cell, rest);
    assert Unbracket(cell) == cell;
    var s, tail := cell + Unbracket(rest), Unbracket(rest);
    RunOf(cell, tail);
    assert s[..|cell|] == cell && s[|cell|..] == tail;
  }

  /** A property's value however it is written: before each cell some separators, and some at the end. */
  datatype Layout = End(tail: string) | Cell(gap: string, cell: string, rest: Layout)

  function Typeset(l: Layout): string {
    match l
    case End(tail) => tail
    case Cell(gap, cell, rest) => gap + (cell + Typeset(rest))
  }

  function CellsIn(l: Layout): seq<string> {
    match l
    case End(_) => []
    case Cell(_, cell, rest) => [cell] + CellsIn(rest)
  }

  /** Gaps are separators of any kind and number, with at least one between two cells. */
  predicate Laid(l: Layout) {
    match l
    case End(tail) => Gap(tail)
    case Cell(gap, cell, rest) => Gap(gap) && Solid(cell) && Laid(rest) && (rest.Cell? ==> rest.gap != "")
  }

  /** Whatever brackets, commas and blanks stand between them, the cells read back are those written. */
  lemma {:induction false} LayoutReads(l: Layout)
    requires Laid(l)
    ensures Cells(Typeset(l)) == CellsIn(l)
  {
    match l
    case End(tail) =>
      CellsAfterGap(tail, "");
      assert tail + "" == tail;
    case Cell(gap, cell, rest) =>
      LayoutReads(rest);
      assert Typeset(l) == gap + (cell + Typeset(rest));
      CellsAfterGap(gap, cell + Typeset(rest));
      CellFirst(cell, Typeset(rest));
  }

  /** A value with a cell in it: the separators before its first cell, that cell, and what follows. */
  function Before(value: string): string { value[..Lead(value)] }

  function First(value: string): string
    requires Lead(value) < |value|
  {
    var s := value[Lead(value)..]; s[..Stretch(s)]
  }

  function After(value: string): (t: string)
    requires Lead(value) < |value|
    ensures |t| < |value|
  {
    var s := value[Lead(value)..];
    LeadIs(value);
    StretchIs(s);
    s[Stretch(s)..]
  }

  lemma Parts(value: string)
    requires Lead(value) < |value|
    ensures Gap(Before(value)) && Solid(First(value)) && value == Before(value) + (First(value) + After(value))
    ensures After(value) == "" || Separator(After(value)[0])
  {
    hide Separator, Lead, Stretch, Gap, Unbroken;
    LeadIs(value);
    var s := value[Lead(value)..];
    assert s[0] == value[Lead(value)];
    StretchIs(s);
    assert Solid(First(value));
    Cut(value, Lead(value));
    Cut(s, Stretch(s));
  }

  lemma Cut(s: string, n: nat)
    requires n <= |s|
    ensures s == s[..n] + s[n..]
  {
  }

  /** The way a value is written. */
  function Laying(value: string): Layout
    decreases |value|
  {
    if Lead(value) == |value| then End(value) else Cell(Before(value), First(value), Laying(After(value)))
  }

  /** Every value is written in some such way. */
  lemma {:induction false} LayingIs(value: string)
    ensures Laid(Laying(value)) && Typeset(Laying(value)) == value
    decreases |value|
  {
    hide Lead, Separator, Gap, Solid, Before, First, After;
    if Lead(value) < |value| {
      Parts(value);
      LayingIs(After(value));
      if Laying(After(value)).Cell? { BeginsSolid(Laying(After(value))); }
    } else {
      LeadIs(value);
      assert value[..|value|] == value;
    }
  }

  lemma BeginsSolid(l: Layout)
    requires Laid(l) && l.Cell?
    ensures l.gap == "" ==> Typeset(l) != "" && !Separator(Typeset(l)[0])
  {
    assert l.gap == "" ==> Typeset(l)[..1] == l.cell[..1];
  }

  /** How many separators a text begins with. */
  function Lead(s: string): (n: nat)
    ensures n <= |s|
  {
    if s == "" || !Separator(s[0]) then 0 else 1 + Lead(s[1..])
  }

  lemma {:induction false} LeadIs(s: string)
    ensures Gap(s[..Lead(s)]) && (Lead(s) < |s| ==> !Separator(s[Lead(s)]))
  {
    hide Separator;
    if s != "" && Separator(s[0]) {
      LeadIs(s[1..]);
      assert s[..Lead(s)] == [s[0]] + s[1..][..Lead(s[1..])];
    }
  }

  /** How many characters stand before the first separator. */
  function Stretch(s: string): (n: nat)
    ensures n <= |s|
  {
    if s == "" || Separator(s[0]) then 0 else 1 + Stretch(s[1..])
  }

  lemma {:induction false} StretchIs(s: string)
    ensures Unbroken(s[..Stretch(s)]) && (Stretch(s) < |s| ==> Separator(s[Stretch(s)]))
    ensures s != "" && !Separator(s[0]) ==> Stretch(s) > 0
  {
    hide Separator;
    if s != "" && !Separator(s[0]) {
      StretchIs(s[1..]);
      assert s[..Stretch(s)] == [s[0]] + s[1..][..Stretch(s[1..])];
    }
  }

  /** So what is read from any value is solid. */
  lemma CellsAreSolid(value: string)
    ensures AllSolid(Cells(value))
  {
    LayingIs(value);
    LayoutReads(Laying(value));
    LaidSolid(Laying(value));
  }

  lemma {:induction false} LaidSolid(l: Layout)
    requires Laid(l)
    ensures AllSolid(CellsIn(l))
  {
    match l
    case End(_) =>
    case Cell(_, _, rest) => LaidSolid(rest);
  }

  /** One group of cells, as the generator and the script write it. */
  function Bracket(cells: seq<string>): string { "<" + Join(" ", cells) + ">" }

  /** One opening bracket, the cells a space apart, one closing bracket. */
  lemma BracketIs(cells: seq<string>)
    ensures Bracket(cells) == "<" + Join(" ", cells) + ">"
    ensures Join(" ", []) == "" && forall c: string :: Join(" ", [c]) == c
    ensures forall c: string, d: string :: Join(" ", [c, d]) == c + " " + d
  {
    forall c: string, d: string
      ensures Join(" ", [c, d]) == c + " " + d
    {
      JoinMore(" ", c, [d]);
      assert [c] + [d] == [c, d];
    }
  }

  function Brackets(groups: seq<seq<string>>): seq<string> {
    if groups == [] then [] else [Bracket(groups[0])] + Brackets(groups[1..])
  }

  function Flatten(groups: seq<seq<string>>): seq<string> {
    if groups == [] then [] else groups[0] + Flatten(groups[1..])
  }

  lemma {:induction false} RowReads(cells: seq<string>, rest: string)
    requires AllSolid(cells) && (rest == "" || Separator(rest[0]))
    ensures Cells(Join(" ", cells) + rest) == cells + Cells(rest)
  {
    hide Cells, Solid, Join;
    if cells == [] {
      assert Join(" ", cells) == "" by { JoinFew(" ", ""); }
      assert Join(" ", cells) + rest == rest;
    } else if |cells| == 1 {
      JoinFew(" ", cells[0]);
      assert cells == [cells[0]];
      CellFirst(cells[0], rest);
    } else {
      var tail := Join(" ", cells[1..]) + rest;
      JoinMore(" ", cells[0], cells[1..]);
      assert cells == [cells[0]] + cells[1..];
      assert Join(" ", cells) + rest == cells[0] + (" " + tail);
      CellFirst(cells[0], " " + tail);
      CellsAfterGap(" ", tail);
      RowReads(cells[1..], rest);
      assert [cells[0]] + (cells[1..] + Cells(rest)) == cells + Cells(rest);
    }
  }

  lemma GroupReads(cells: seq<string>, rest: string)
    requires AllSolid(cells)
    ensures Cells(Bracket(cells) + rest) == cells + Cells(rest)
  {
    assert Bracket(cells) + rest == "<" + (Join(" ", cells) + (">" + rest));
    CellsAfterGap("<", Join(" ", cells) + (">" + rest));
    RowReads(cells, ">" + rest);
    CellsAfterGap(">", rest);
  }

  /** Cells in any number of groups read back as the cells alone. */
  lemma {:induction false} GroupsRead(groups: seq<seq<string>>)
    requires forall k | 0 <= k < |groups| :: AllSolid(groups[k])
    ensures Cells(Join(", ", Brackets(groups))) == Flatten(groups)
  {
    if groups == [] {
      assert Unbracket("") == "";
    } else if |groups| == 1 {
      assert groups[1..] == [];
      assert Bracket(groups[0]) + "" == Bracket(groups[0]);
      GroupReads(groups[0], "");
      assert Unbracket("") == "";
      assert groups[0] + [] == groups[0];
    } else {
      var tail := Join(", ", Brackets(groups[1..]));
      assert Brackets(groups)[1..] == Brackets(groups[1..]) && |Brackets(groups[1..])| > 0;
      assert Join(", ", Brackets(groups)) == Bracket(groups[0]) + (", " + tail);
      GroupReads(groups[0], ", " + tail);
      CellsAfterGap(", ", tail);
      GroupsRead(groups[1..]);
    }
  }

  // ---------------------------------------------------------------------------
  // Names: re.findall(r'"([^"]*)"', value)
  // ---------------------------------------------------------------------------

  /** The position of the first quotation mark, or the length when there is none. */
  function Mark(s: string): (n: nat)
    ensures n <= |s|
  {
    if s == "" || s[0] == '\"' then 0 else 1 + Mark(s[1..])
  }

  /** What stands between each pair of quotation marks; one without a partner quotes nothing. */
  function Quoted(s: string): seq<string>
    decreases |s|
  {
    if Mark(s) == |s| then []
    else
      var t := s[Mark(s) + 1..];
      if Mark(t) == |t| then [] else [t[..Mark(t)]] + Quoted(t[Mark(t) + 1..])
  }

  function Quote(name: string): string { "\"" + name + "\"" }

  function Quotes(names: seq<string>): seq<string> {
    if names == [] then [] else [Quote(names[0])] + Quotes(names[1..])
  }

  predicate Unmarked(s: string) { forall k | 0 <= k < |s| :: s[k] != '\"' }

  lemma {:induction false} MarkAt(a: string, b: string)
    requires Unmarked(a)
    ensures Mark(a + "\"" + b) == |a|
  {
    if a == "" {
      assert a + "\"" + b == "\"" + b;
    } else {
      assert (a + "\"" + b)[1..] == a[1..] + "\"" + b;
      MarkAt(a[1..], b);
    }
  }

  lemma QuoteReads(name: string, rest: string)
    requires Unmarked(name)
    ensures Quoted(Quote(name) + rest) == [name] + Quoted(rest)
  {
    hide Mark, Unmarked;
    var s, t := Quote(name) + rest, name + "\"" + rest;
    assert Unmarked("") by { NoMarks(); }
    assert s == "" + "\"" + t;
    MarkAt("", t);
    MarkAt(name, rest);
    assert s[1..] == t;
    Divides(name, "\"", rest);
  }

  lemma Divides(a: string, mark: string, b: string)
    requires |mark| == 1
    ensures (a + mark + b)[..|a|] == a && (a + mark + b)[|a| + 1..] == b
  {
  }

  lemma NoMarks()
    ensures Unmarked("") && Unmarked(", ")
  {
  }

  lemma QuotedAfter(gap: string, rest: string)
    requires Unmarked(gap)
    ensures Quoted(gap + rest) == Quoted(rest)
  {
    hide Mark, Unmarked;
    MarkShifts(gap, rest);
    if Mark(rest) < |rest| {
      Beyond(gap, rest, Mark(rest) + 1);
    }
  }

  lemma Beyond(a: string, b: string, n: nat)
    requires n <= |b|
    ensures (a + b)[|a| + n..] == b[n..]
  {
  }

  lemma {:induction false} MarkShifts(gap: string, rest: string)
    requires Unmarked(gap)
    ensures Mark(gap + rest) == |gap| + Mark(rest)
  {
    if gap == "" {
      assert gap + rest == rest;
    } else {
      assert (gap + rest)[1..] == gap[1..] + rest;
      MarkShifts(gap[1..], rest);
    }
  }

  lemma QuotesAre(names: seq<string>)
    ensures names == [] ==> Quotes(names) == []
    ensures |names| == 1 ==> Quotes(names) == [Quote(names[0])]
    ensures |names| > 1 ==> Quotes(names) == [Quote(names[0])] + Quotes(names[1..]) && Quotes(names[1..]) != []
  {
    if |names| == 1 {
      assert names[1..] == [];
    }
  }

  lemma NothingQuoted()
    ensures Quoted("") == []
  {
  }

  /** A list of names reads back as it was written. */
  lemma {:induction false} NamesRead(names: seq<string>)
    requires forall k | 0 <= k < |names| :: Unmarked(names[k])
    ensures Quoted(Join(", ", Quotes(names))) == names
  {
    hide Quoted, Quote, Join, Unmarked, Mark, Quotes;
    JoinFew(", ", "");
    assert Quoted("") == [] by { NothingQuoted(); }
    QuotesAre(names);
    if names == [] {
    } else if |names| == 1 {
      JoinFew(", ", Quote(names[0]));
      QuoteReads(names[0], "");
      assert Quote(names[0]) + "" == Quote(names[0]);
    } else {
      var tail := Join(", ", Quotes(names[1..]));
      JoinMore(", ", Quote(names[0]), Quotes(names[1..]));
      assert Join(", ", Quotes(names)) == Quote(names[0]) + (", " + tail);
      QuoteReads(names[0], ", " + tail);
      NoMarks();
      QuotedAfter(", ", tail);
      NamesRead(names[1..]);
    }
  }
}
