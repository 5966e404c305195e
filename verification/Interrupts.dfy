/** Giving each DMA channel node the interrupt its IP node names for its direction. */
module Interrupts {
  import opened Wrappers
  import opened Strings

  /** A property with a value, which is the text between its equals sign and its semicolon; or one
      that is only a name. */
  datatype Property = Property(name: string, value: string) | Flag(name: string)

  /** A device-tree node: its label, the rest of what stands before its brace, its own properties and
      its sub-nodes, in order. */
  datatype Node = Node(tag: Option<string>, title: string, props: seq<Property>, children: seq<Node>)

  datatype Failure = NoCells | NoSuchInterrupt(child: string)
                   | NotOnePair(dmas: nat, clients: nat) | NoLabel | NoChannel

  datatype Result<T> = Ok(value: T) | Fail(why: Failure)

  const INTERRUPTS := "interrupts"
  const INTERRUPT_NAMES := "interrupt-names"
  const COMPATIBLE := "compatible"

  // ---------------------------------------------------------------------------
  // property_value
  // ---------------------------------------------------------------------------

  predicate WordChar(c: char) { 'a' <= c <= 'z' || 'A' <= c <= 'Z' || '0' <= c <= '9' || c == '_' }

  predicate EndsWith(s: string, tail: string) { |tail| <= |s| && s[|s| - |tail|..] == tail }

  /** A property the search for a name stops at: its own name ends with that one, at a word boundary. */
  predicate Named(p: Property, name: string) {
    && p.Property? && EndsWith(p.name, name)
    && (|p.name| > |name| ==> !WordChar(p.name[|p.name| - |name| - 1]))
  }

  /** The first property of those the search would stop at, or the number of properties. */
  function Find(props: seq<Property>, name: string): (k: nat)
    ensures k <= |props|
    ensures k < |props| ==> Named(props[k], name)
    ensures forall j | 0 <= j < k :: !Named(props[j], name)
  {
    if props == [] || Named(props[0], name) then 0 else 1 + Find(props[1..], name)
  }

  function Get(props: seq<Property>, name: string): Option<string> {
    var k := Find(props, name);
    if k == |props| then None else Some(props[k].value)
  }

  function OrEmpty(v: Option<string>): string { if v.Some? then v.value else "" }

  // ---------------------------------------------------------------------------
  // interrupt_specs
  // ---------------------------------------------------------------------------

  /** The slices of width w from the start on, the last one shorter if it must be. */
  function Chunks(cells: seq<string>, w: nat): seq<seq<string>>
    requires w > 0
    decreases |cells|
  {
    if cells == [] then []
    else if |cells| <= w then [cells]
    else [cells[..w]] + Chunks(cells[w..], w)
  }

  /** The cells and the names that the search finds, which are the node's own unless another property
      passes for one of its own. */
  function CellsOf(own: seq<Property>): seq<string> { Cells(OrEmpty(Get(own, INTERRUPTS))) }

  function NamesOf(node: Node): seq<string> { Quoted(OrEmpty(Get(node.props, INTERRUPT_NAMES))) }

  /** interrupt_specs: one specifier per name, or none when the cells cannot be shared out. Names
      with no cells at all ask for slices of width zero, which is an error. */
  function Specs(own: seq<Property>, names: seq<string>): Result<seq<seq<string>>> {
    var cells := CellsOf(own);
    if names == [] || |cells| % |names| != 0 then Ok([])
    else if cells == [] then Fail(NoCells)
    else
      assert |cells| / |names| > 0 by { Shares(|cells|, |names|); }
      Ok(Chunks(cells, |cells| / |names|))
  }

  lemma Shares(c: nat, n: nat)
    requires n > 0 && c > 0 && c % n == 0
    ensures c / n > 0 && c == (c / n) * n
  {
  }

  predicate Uniform(parts: seq<seq<string>>, w: nat) { forall k | 0 <= k < |parts| :: |parts[k]| == w }

  /** Slices of equal width: as many as fit, each whole, and every cell in its place. */
  lemma {:induction false} ChunksPartition(cells: seq<string>, w: nat, n: nat)
    requires w > 0 && |cells| == n * w
    ensures |Chunks(cells, w)| == n && Uniform(Chunks(cells, w), w) && Flatten(Chunks(cells, w)) == cells
  {
    if n == 0 {
    } else if n == 1 {
      assert Flatten([cells]) == cells + Flatten([]);
    } else {
      Wider(n, w);
      ChunksPartition(cells[w..], w, n - 1);
      assert Chunks(cells, w)[1..] == Chunks(cells[w..], w);
    }
  }

  lemma Wider(n: nat, w: nat)
    requires n >= 2 && w > 0
    ensures n * w == w + (n - 1) * w && (n - 1) * w >= w
  {
    assert n * w == w + (n - 1) * w && (n - 1) * w == w + (n - 2) * w;
    assert (n - 2) * w >= 0;
  }

  /** However the cells are bracketed, a node with n names whose cells share out gives each name
      the same number of consecutive cells, in order, and uses every cell. */
  lemma SpecsPartition(own: seq<Property>, names: seq<string>)
    requires Specs(own, names).Ok? && Specs(own, names).value != []
    ensures var cells, specs := CellsOf(own), Specs(own, names).value;
            var w := |cells| / |names|;
            |specs| == |names| && w > 0 && Uniform(specs, w) && Flatten(specs) == cells
  {
    var cells := CellsOf(own);
    Shares(|cells|, |names|);
    ChunksPartition(cells, |cells| / |names|, |names|);
  }

  /** Two values with the same cells in them, however each is bracketed, spaced and broken over lines,
      give the same specifiers. */
  lemma BracketsDoNotMatter(own: seq<Property>, other: seq<Property>, names: seq<string>, l: Layout, k: Layout)
    requires Laid(l) && Laid(k) && CellsIn(l) == CellsIn(k)
    requires Get(own, INTERRUPTS) == Some(Typeset(l)) && Get(other, INTERRUPTS) == Some(Typeset(k))
    ensures Specs(own, names) == Specs(other, names)
  {
    LayoutReads(l);
    LayoutReads(k);
  }

  /** In particular one group for each interrupt and a single group for all of them. */
  lemma GroupsDoNotMatter(own: seq<Property>, other: seq<Property>, names: seq<string>, groups: seq<seq<string>>)
    requires forall k | 0 <= k < |groups| :: AllSolid(groups[k])
    requires Get(own, INTERRUPTS) == Some(Join(", ", Brackets(groups)))
    requires Get(other, INTERRUPTS) == Some(Bracket(Flatten(groups)))
    ensures Specs(own, names) == Specs(other, names) && CellsOf(own) == Flatten(groups)
  {
    hide Cells, Join, Bracket;
    GroupsRead(groups);
    FlattenSolid(groups);
    BracketReads(Flatten(groups));
  }

  lemma {:induction false} FlattenSolid(groups: seq<seq<string>>)
    requires forall k | 0 <= k < |groups| :: AllSolid(groups[k])
    ensures AllSolid(Flatten(groups))
  {
    if groups != [] {
      FlattenSolid(groups[1..]);
    }
  }

  lemma BracketReads(cells: seq<string>)
    requires AllSolid(cells)
    ensures Cells(Bracket(cells)) == cells
  {
    GroupReads(cells, "");
    assert Bracket(cells) + "" == Bracket(cells) && Cells("") == [] && cells + [] == cells;
  }

  // ---------------------------------------------------------------------------
  // align_channel_interrupts
  // ---------------------------------------------------------------------------

  const MM2S := "xlnx,axi-dma-mm2s-channel"
  const S2MM := "xlnx,axi-dma-s2mm-channel"
  const MM2S_INTERRUPT := "mm2s_introut"
  const S2MM_INTERRUPT := "s2mm_introut"

  /** dict(zip(names, specs)): of equal names the last one counts. */
  function ByName(names: seq<string>, specs: seq<seq<string>>): (m: map<string, seq<string>>)
    ensures m != map[] <==> names != [] && specs != []
  {
    var n := if |names| <= |specs| then |names| else |specs|;
    if n == 0 then map[]
    else
      var m := ByName(names[..n - 1], specs[..n - 1])[names[n - 1] := specs[n - 1]];
      assert names[n - 1] in m;
      m
  }

  predicate CompatibleWith(node: Node, kind: string) {
    Contains(OrEmpty(Get(node.props, COMPATIBLE)), Quote(kind))
  }

  /** The interrupt a DMA channel takes, told from the text of its compatible property. */
  function WantedBy(compatible: string): Option<string> {
    if Contains(compatible, Quote(MM2S)) then Some(MM2S_INTERRUPT)
    else if Contains(compatible, Quote(S2MM)) then Some(S2MM_INTERRUPT)
    else None
  }

  /** The interrupt a sub-node takes, if it is one. */
  function Wanted(child: Node): Option<string> { WantedBy(OrEmpty(Get(child.props, COMPATIBLE))) }

  /** The child with the first property found for interrupts, if there is one, given that specifier. */
  function WithInterrupt(child: Node, spec: seq<string>): Node {
    var k := Find(child.props, INTERRUPTS);
    if k == |child.props| then child
    else child.(props := child.props[k := Property(child.props[k].name, Bracket(spec))])
  }

  /** A child as it must come out. */
  function AlignedChild(child: Node, byName: map<string, seq<string>>): Node {
    var wanted := Wanted(child);
    if wanted.Some? && wanted.value in byName then WithInterrupt(child, byName[wanted.value]) else child
  }

  predicate Servable(child: Node, byName: map<string, seq<string>>) {
    Wanted(child).Some? ==> Wanted(child).value in byName
  }

  /** What a node must come out as: its channels aligned and nothing else touched. */
  function Aligned(node: Node, byName: map<string, seq<string>>): Node {
    var n := |node.children|;
    node.(children := seq(n, k requires 0 <= k < n => AlignedChild(node.children[k], byName)))
  }

  /** The names of an IP node ask for cells it does not have. */
  predicate Starved(node: Node) { NamesOf(node) != [] && CellsOf(node.props) == [] }

  /** The specifiers a node's names stand for, when it is not starved. */
  function Table(node: Node): map<string, seq<string>>
    requires !Starved(node)
  {
    ByName(NamesOf(node), Specs(node.props, NamesOf(node)).value)
  }

  method AlignChannelInterrupts(node: Node) returns (r: Result<Node>)
    ensures r == Fail(NoCells) <==> NamesOf(node) != [] && CellsOf(node.props) == []
    ensures !Starved(node) ==>
              var byName := Table(node);
              if NamesOf(node) == [] || |CellsOf(node.props)| % |NamesOf(node)| != 0 then r == Ok(node)
              else if byName == map[] then r == Ok(node)
              else if forall k | 0 <= k < |node.children| :: Servable(node.children[k], byName) then
                r == Ok(Aligned(node, byName))
              else
                r.Fail? && exists k | 0 <= k < |node.children| ::
                             !Servable(node.children[k], byName) && r.why == NoSuchInterrupt(node.children[k].title)
  {
    hide Wanted, WithInterrupt, ByName, NamesOf, CellsOf, Chunks;
    var names := NamesOf(node);
    var specs := Specs(node.props, names);
    if specs.Fail? {
      return Fail(NoCells);
    }
    var byName := ByName(names, specs.value);
    if byName == map[] {
      return Ok(node);
    }
    hide Specs;
    var children := node.children;
    for k := 0 to |children|
      invariant |children| == |node.children|
      invariant forall j | 0 <= j < k :: children[j] == AlignedChild(node.children[j], byName)
      invariant forall j | k <= j < |children| :: children[j] == node.children[j]
      invariant forall j | 0 <= j < k :: Servable(node.children[j], byName)
    {
      var child := children[k];
      var wanted := Wanted(child);
      assert Servable(child, byName) <==> (wanted.Some? ==> wanted.value in byName);
      if wanted.Some? {
        if wanted.value !in byName {
          return Fail(NoSuchInterrupt(child.title));
        }
        children := children[k := WithInterrupt(child, byName[wanted.value])];
      }
    }
    assert children == Aligned(node, byName).children;
    r := Ok(node.(children := children));
  }

  /** A node with a named interrupt and no interrupts property is starved. */
  lemma NameWithoutCells(title: string, name: string, children: seq<Node>)
    requires Unmarked(name)
    ensures var node := Node(None, title, [Property(INTERRUPT_NAMES, Quote(name))], children);
            NamesOf(node) == [name] && CellsOf(node.props) == [] && Specs(node.props, NamesOf(node)) == Fail(NoCells)
  {
    var node := Node(None, title, [Property(INTERRUPT_NAMES, Quote(name))], children);
    NamesAreNotCells();
    assert Find(node.props, INTERRUPT_NAMES) == 0 && Find(node.props, INTERRUPTS) == 1;
    QuoteReads(name, "");
    assert Quote(name) + "" == Quote(name);
    assert Cells("") == [];
  }

  lemma NamesAreNotCells()
    ensures forall value: string ::
              var p := Property(INTERRUPT_NAMES, value); Named(p, INTERRUPT_NAMES) && !Named(p, INTERRUPTS)
  {
    assert |INTERRUPT_NAMES| == 15 && |INTERRUPTS| == 10;
    assert INTERRUPT_NAMES[5] == 'r' && INTERRUPTS[0] == 'i';
    assert INTERRUPT_NAMES[15 - 10..][0] != INTERRUPTS[0];
  }

  // ---------------------------------------------------------------------------
  // What it achieves
  // ---------------------------------------------------------------------------

  /** The k-th name stands for the k-th specifier, unless it comes again. */
  lemma {:induction false} ByNamePicks(names: seq<string>, specs: seq<seq<string>>, k: nat)
    requires |specs| == |names| && k < |names| && forall j | k < j < |names| :: names[j] != names[k]
    ensures names[k] in ByName(names, specs) && ByName(names, specs)[names[k]] == specs[k]
  {
    var n := |names|;
    if k < n - 1 {
      ByNamePicks(names[..n - 1], specs[..n - 1], k);
    }
  }

  /** One value changes and nothing else, not even a name; so the same property is found again. */
  lemma Rewritten(child: Node, spec: seq<string>)
    ensures var c, k := WithInterrupt(child, spec), Find(child.props, INTERRUPTS);
            && Find(c.props, INTERRUPTS) == k && |c.props| == |child.props|
            && c.tag == child.tag && c.title == child.title && c.children == child.children
            && (forall j | 0 <= j < |c.props| && j != k :: c.props[j] == child.props[j])
            && (k < |c.props| ==> c.props[k] == Property(child.props[k].name, Bracket(spec)))
            && WithInterrupt(c, spec) == c
  {
    hide Bracket, Named;
    var k := Find(child.props, INTERRUPTS);
    if k < |child.props| {
      var c := WithInterrupt(child, spec);
      HasValue(child.props[k], INTERRUPTS);
      FindStays(child.props, k, Bracket(spec), INTERRUPTS);
      assert c.props[k := c.props[k]] == c.props;
    }
  }

  /** Which property a search stops at depends on names alone. */
  lemma {:induction false} FindStays(props: seq<Property>, k: nat, value: string, name: string)
    requires k < |props| && props[k].Property?
    ensures Find(props[k := Property(props[k].name, value)], name) == Find(props, name)
  {
    hide EndsWith, WordChar;
    var after := props[k := Property(props[k].name, value)];
    if k == 0 {
      assert after[1..] == props[1..];
    } else if !Named(props[0], name) {
      FindStays(props[1..], k - 1, value, name);
      assert after[1..] == props[1..][k - 1 := Property(props[k].name, value)];
    }
  }

  lemma InterruptsAreNotCompatible(p: Property)
    requires Named(p, INTERRUPTS)
    ensures !Named(p, COMPATIBLE)
  {
    var n := |p.name|;
    assert |COMPATIBLE| == 10 && COMPATIBLE[0] == 'c' && |INTERRUPTS| == 10 && INTERRUPTS[0] == 'i';
    assert p.name[n - 10..][0] == 'i';
  }

  /** Aligning a channel leaves it the channel it was. */
  lemma StaysChannel(child: Node, spec: seq<string>)
    ensures Wanted(WithInterrupt(child, spec)) == Wanted(child)
  {
    hide Bracket, Contains, Named;
    var k := Find(child.props, INTERRUPTS);
    if k < |child.props| {
      InterruptsAreNotCompatible(child.props[k]);
      HasValue(child.props[k], INTERRUPTS);
      FindStays(child.props, k, Bracket(spec), COMPATIBLE);
    }
  }

  lemma HasValue(p: Property, name: string)
    requires Named(p, name)
    ensures p.Property?
  {
  }

  lemma AlignedTwice(child: Node, byName: map<string, seq<string>>)
    ensures AlignedChild(AlignedChild(child, byName), byName) == AlignedChild(child, byName)
    ensures Servable(AlignedChild(child, byName), byName) == Servable(child, byName)
  {
    hide Wanted, WithInterrupt;
    var wanted := Wanted(child);
    if wanted.Some? && wanted.value in byName {
      Rewritten(child, byName[wanted.value]);
      StaysChannel(child, byName[wanted.value]);
    }
  }

  /** The first property of that very name, or the number of properties. */
  function Exact(props: seq<Property>, name: string): (k: nat)
    ensures k <= |props|
    ensures k < |props| ==> props[k].Property? && props[k].name == name
    ensures forall j | 0 <= j < k :: !(props[j].Property? && props[j].name == name)
  {
    if props == [] || (props[0].Property? && props[0].name == name) then 0 else 1 + Exact(props[1..], name)
  }

  lemma {:induction false} ExactStays(props: seq<Property>, k: nat, value: string, name: string)
    requires k < |props| && props[k].Property?
    ensures Exact(props[k := Property(props[k].name, value)], name) == Exact(props, name)
  {
    var after := props[k := Property(props[k].name, value)];
    if k == 0 {
      assert after[1..] == props[1..];
    } else if !(props[0].Property? && props[0].name == name) {
      ExactStays(props[1..], k - 1, value, name);
      assert after[1..] == props[1..][k - 1 := Property(props[k].name, value)];
    }
  }

  function GetOwn(props: seq<Property>, name: string): Option<string> {
    var k := Exact(props, name);
    if k == |props| then None else Some(props[k].value)
  }

  /** A property that passes for one of that name: its own is longer, and ends with it after a character
      that is no part of a word. */
  predicate Lookalike(p: Property, name: string) { Named(p, name) && p.name != name }

  /** Nothing before the property of that name passes for it. */
  predicate Plainly(props: seq<Property>, name: string) {
    forall j | 0 <= j < Exact(props, name) :: !Lookalike(props[j], name)
  }

  /** The search stops at the property of that very name iff nothing before it passes for it. */
  lemma StopsRightIff(props: seq<Property>, name: string)
    ensures Find(props, name) <= Exact(props, name)
    ensures Find(props, name) == Exact(props, name) <==> Plainly(props, name)
  {
    var k, e := Find(props, name), Exact(props, name);
    assert e < |props| ==> Named(props[e], name);
    assert k < e ==> Lookalike(props[k], name);
  }

  /** And so reads that property, or finds there is none, iff nothing passes for it or what does has its
      value. */
  lemma ReadsOwnIff(props: seq<Property>, name: string)
    ensures Get(props, name) == GetOwn(props, name) <==>
              || Plainly(props, name)
              || (Exact(props, name) < |props| && props[Find(props, name)].value == props[Exact(props, name)].value)
  {
    hide Plainly;
    StopsRightIff(props, name);
  }

  /** The interrupts property ends as the specifier, and reads back as it, iff nothing before it passes
      for it or it was so already. */
  lemma RightPropertyIff(child: Node, spec: seq<string>)
    requires AllSolid(spec) && Exact(child.props, INTERRUPTS) < |child.props|
    ensures var c, e := WithInterrupt(child, spec), Exact(child.props, INTERRUPTS);
            && |c.props| == |child.props| && Exact(c.props, INTERRUPTS) == e
            && (Plainly(child.props, INTERRUPTS) ==> c.props[e].value == Bracket(spec))
            && (c.props[e].value == Bracket(spec) <==>
                  Plainly(child.props, INTERRUPTS) || child.props[e].value == Bracket(spec))
            && Cells(Bracket(spec)) == spec
  {
    hide Bracket, Cells, Plainly;
    var k, e := Find(child.props, INTERRUPTS), Exact(child.props, INTERRUPTS);
    StopsRightIff(child.props, INTERRUPTS);
    BracketReads(spec);
    HasValue(child.props[k], INTERRUPTS);
    ExactStays(child.props, k, Bracket(spec), INTERRUPTS);
    Rewritten(child, spec);
  }

  /** Names that pass for interrupts. */
  lemma Lookalikes(value: string)
    ensures Lookalike(Property("num-interrupts", value), INTERRUPTS)
    ensures Lookalike(Property("xlnx,interrupts", value), INTERRUPTS)
  {
    assert |"num-interrupts"| == 14 && |"xlnx,interrupts"| == 15 && |INTERRUPTS| == 10;
    assert "num-interrupts"[4..] == INTERRUPTS && "xlnx,interrupts"[5..] == INTERRUPTS;
  }

  /** Letters, digits and the underscore make up words; what else a property's name may hold does not. */
  lemma WordChars(c: char)
    ensures 'a' <= c <= 'z' || 'A' <= c <= 'Z' || '0' <= c <= '9' || c == '_' ==> WordChar(c)
    ensures c == ',' || c == '-' || c == '+' || c == '.' || c == '?' || c == '#' ==> !WordChar(c)
  {
  }

  /** A name that goes on after the one looked for, or has part of a word right before it, does not pass. */
  lemma NotLookalike(c: char, value: string)
    requires WordChar(c)
    ensures !Named(Property([c] + "interrupts", value), "interrupts")
    ensures !Named(Property("interrupts-extended", value), "interrupts")
  {
    assert ([c] + "interrupts")[0] == c && |"interrupts"| == 10 && |"interrupts-extended"| == 19;
    assert "interrupts-extended"[9..][0] == 's';
  }

  /** A child on which the search is misled: its own interrupts are left as they were. */
  lemma Misled(title: string, p: Property, cells: string, spec: seq<string>)
    requires Lookalike(p, INTERRUPTS)
    ensures WithInterrupt(Node(None, title, [p, Property(INTERRUPTS, cells)], []), spec).props
            == [Property(p.name, Bracket(spec)), Property(INTERRUPTS, cells)]
  {
    hide Bracket, Named;
  }

  /** An IP node on which it is: its one channel is given the other property's cell for a specifier. */
  lemma MisledNode(title: string, p: Property, cell: string, own: string, child: Node)
    requires Lookalike(p, INTERRUPTS) && p.value == Bracket([cell]) && Solid(cell)
    requires Wanted(child) == Some(MM2S_INTERRUPT)
    ensures var names := Property(INTERRUPT_NAMES, Quote(MM2S_INTERRUPT));
            var node := Node(None, title, [p, Property(INTERRUPTS, own), names], [child]);
            && !Starved(node) && Table(node) == map[MM2S_INTERRUPT := [cell]]
            && Aligned(node, Table(node)).children == [WithInterrupt(child, [cell])]
  {
    hide Cells, Quoted, Bracket, Wanted, WithInterrupt, Solid;
    var names := Property(INTERRUPT_NAMES, Quote(MM2S_INTERRUPT));
    var node := Node(None, title, [p, Property(INTERRUPTS, own), names], [child]);
    NamesAreNotCells();
    InterruptsAreNotNames(p);
    InterruptsAreNotNames(Property(INTERRUPTS, own));
    assert !Named(node.props[0], INTERRUPT_NAMES) && !Named(node.props[1], INTERRUPT_NAMES);
    assert Named(node.props[2], INTERRUPT_NAMES) && Named(node.props[0], INTERRUPTS);
    assert Find(node.props, INTERRUPTS) == 0 && Find(node.props, INTERRUPT_NAMES) == 2;
    BracketReads([cell]);
    NameReads(MM2S_INTERRUPT);
    assert Chunks([cell], 1) == [[cell]];
    OneName(MM2S_INTERRUPT, [cell]);
  }

  lemma InterruptsAreNotNames(p: Property)
    requires Named(p, INTERRUPTS)
    ensures !Named(p, INTERRUPT_NAMES)
  {
    var n := |p.name|;
    assert |INTERRUPTS| == 10 && |INTERRUPT_NAMES| == 15 && INTERRUPTS[8] == 't' && INTERRUPT_NAMES[13] == 'e';
    assert p.name[n - 10..][8] == p.name[n - 2];
    assert n >= 15 ==> p.name[n - 15..][13] == p.name[n - 2];
  }

  lemma NameReads(name: string)
    requires Unmarked(name)
    ensures Quoted(Quote(name)) == [name]
  {
    QuoteReads(name, "");
    NothingQuoted();
    assert Quote(name) + "" == Quote(name);
  }

  lemma OneName(name: string, spec: seq<string>)
    ensures ByName([name], [spec]) == map[name := spec]
  {
    assert [name][..0] == [] && [spec][..0] == [];
  }

  lemma {:induction false} ChunkAt(cells: seq<string>, w: nat, n: nat, k: nat)
    requires w > 0 && |cells| == n * w && k < n
    ensures 0 <= k * w <= (k + 1) * w <= |cells| && k < |Chunks(cells, w)|
    ensures Chunks(cells, w)[k] == cells[k * w..(k + 1) * w]
  {
    ChunksPartition(cells, w, n);
    Spans(w, n, k);
    if k == 0 {
      assert n == 1 ==> cells[..w] == cells;
      assert n > 1 ==> |cells| > w by { if n > 1 { Wider(n, w); } }
    } else {
      Wider(n, w);
      assert |cells| > w;
      ChunkAt(cells[w..], w, n - 1, k - 1);
      assert Chunks(cells, w) == [cells[..w]] + Chunks(cells[w..], w);
      Shifted(cells, w, (k - 1) * w, k * w);
      assert (k - 1) * w + w == k * w && k * w + w == (k + 1) * w;
    }
  }

  lemma Spans(w: nat, n: nat, k: nat)
    requires k < n
    ensures 0 <= k * w <= (k + 1) * w <= n * w
  {
    assert (k + 1) * w == k * w + w;
    assert n * w == (k + 1) * w + (n - k - 1) * w;
    assert k * w >= 0 && (n - k - 1) * w >= 0;
  }

  lemma Shifted(cells: seq<string>, w: nat, from: nat, to: nat)
    requires w <= |cells| && from <= to <= |cells| - w
    ensures cells[w..][from..to] == cells[from + w..to + w]
  {
  }

  lemma {:induction false} ChunksSolid(cells: seq<string>, w: nat, k: nat)
    requires w > 0 && AllSolid(cells) && k < |Chunks(cells, w)|
    ensures AllSolid(Chunks(cells, w)[k])
  {
    hide Solid;
    if |cells| > w && k > 0 {
      ChunksSolid(cells[w..], w, k - 1);
    }
  }

  /** Which interrupt a channel of each kind takes. */
  lemma Directions(compatible: string)
    ensures Contains(compatible, "\"xlnx,axi-dma-mm2s-channel\"") ==> WantedBy(compatible) == Some("mm2s_introut")
    ensures !Contains(compatible, "\"xlnx,axi-dma-mm2s-channel\"") ==>
              WantedBy(compatible)
              == if Contains(compatible, "\"xlnx,axi-dma-s2mm-channel\"") then Some("s2mm_introut") else None
  {
    hide Contains, Quote;
    OutQuoted();
    InQuoted();
  }

  lemma OutQuoted()
    ensures Quote(MM2S) == "\"xlnx,axi-dma-mm2s-channel\""
  {
  }

  lemma InQuoted()
    ensures Quote(S2MM) == "\"xlnx,axi-dma-s2mm-channel\""
  {
  }

  /** The text of the property of that name, or none. */
  function OwnText(node: Node, name: string): string { OrEmpty(GetOwn(node.props, name)) }

  /** What the alignment is for. On an IP node with cells to share out among its interrupts' names, a channel
      whose direction has the n-th name, and none after it the same, ends with its own interrupts property
      holding one group, of the n-th share of the node's own cells; provided nothing passes for a property
      it is read from or written to. */
  lemma ChannelsAligned(node: Node, n: nat, k: nat)
    requires Plainly(node.props, "interrupts") && Plainly(node.props, "interrupt-names")
    requires k < |node.children|
    requires Plainly(node.children[k].props, "compatible") && Plainly(node.children[k].props, "interrupts")
    requires GetOwn(node.children[k].props, "interrupts").Some?
    requires var names, cells := Quoted(OwnText(node, "interrupt-names")), Cells(OwnText(node, "interrupts"));
             var compatible := OwnText(node.children[k], "compatible");
             && n < |names| && (forall j | n < j < |names| :: names[j] != names[n])
             && cells != [] && |cells| % |names| == 0
             && if Contains(compatible, "\"xlnx,axi-dma-mm2s-channel\"") then names[n] == "mm2s_introut"
                else Contains(compatible, "\"xlnx,axi-dma-s2mm-channel\"") && names[n] == "s2mm_introut"
    ensures !Starved(node)
    ensures var names, cells := Quoted(OwnText(node, "interrupt-names")), Cells(OwnText(node, "interrupts"));
            var w := |cells| / |names|;
            var out := Aligned(node, Table(node)).children[k];
            && 0 <= n * w <= (n + 1) * w <= |cells|
            && OwnText(out, "interrupts") == "<" + Join(" ", cells[n * w..(n + 1) * w]) + ">"
            && Cells(OwnText(out, "interrupts")) == cells[n * w..(n + 1) * w]
  {
    hide Cells, Quoted, ByName, WithInterrupt, WantedBy, Plainly, Exact, Find, Specs, Contains, Join;
    var own, names, child := node.props, NamesOf(node), node.children[k];
    ReadsOwnIff(own, INTERRUPTS);
    ReadsOwnIff(own, INTERRUPT_NAMES);
    ReadsOwnIff(child.props, COMPATIBLE);
    Directions(OwnText(child, "compatible"));
    ShareOf(own, names, n);
    var specs := Specs(own, names).value;
    ByNamePicks(names, specs, n);
    assert Aligned(node, Table(node)).children[k] == WithInterrupt(child, specs[n]);
    RightPropertyIff(child, specs[n]);
    BracketIs(specs[n]);
  }

  lemma ShareOf(own: seq<Property>, names: seq<string>, n: nat)
    requires n < |names| && CellsOf(own) != [] && |CellsOf(own)| % |names| == 0
    ensures var cells, specs := CellsOf(own), Specs(own, names);
            var w := |cells| / |names|;
            && 0 <= n * w <= (n + 1) * w <= |cells| && specs.Ok? && |specs.value| == |names|
            && specs.value[n] == cells[n * w..(n + 1) * w] && AllSolid(specs.value[n])
  {
    hide Cells;
    var cells, w := CellsOf(own), |CellsOf(own)| / |names|;
    Shares(|cells|, |names|);
    ChunksPartition(cells, w, |names|);
    ChunkAt(cells, w, |names|, n);
    CellsAreSolid(OrEmpty(Get(own, INTERRUPTS)));
    ChunksSolid(cells, w, n);
  }

  /** Aligning an aligned node changes nothing. */
  method AlignTwice(node: Node) returns (once: Result<Node>, twice: Result<Node>)
    ensures once.Ok? ==> twice == once
  {
    once := AlignChannelInterrupts(node);
    twice := once;
    if once.Ok? {
      hide NamesOf, CellsOf, Specs, ByName, AlignedChild, Servable, Wanted;
      twice := AlignChannelInterrupts(once.value);
      SameTable(node, once.value);
      ghost var byName := Table(node);
      forall k | 0 <= k < |node.children|
        ensures AlignedChild(AlignedChild(node.children[k], byName), byName) == AlignedChild(node.children[k], byName)
        ensures Servable(AlignedChild(node.children[k], byName), byName) == Servable(node.children[k], byName)
      {
        AlignedTwice(node.children[k], byName);
      }
      if byName != map[] {
        assert Aligned(once.value, byName).children == once.value.children;
      }
    }
  }

  lemma SameTable(a: Node, b: Node)
    requires a.props == b.props && !Starved(a)
    ensures !Starved(b) && Table(a) == Table(b)
  {
  }
}
