/** The transformations on a tree as the device-tree generator emits it: one DMA with a channel each way,
    and the accelerator it feeds. */
module GeneratedTree {
  import opened Wrappers
  import opened Strings
  import opened Interrupts
  import opened DmaLink

  /** Both interrupts in one group, and in a group each. */
  const FLAT := "< 0 89 4 0 90 4 >"
  const GROUPED := "<0 89 4>, <0 90 4>"

  /** A channel with the interrupt the generator makes up for it. */
  function ChannelNode(kind: string, cells: string): Node {
    Node(None, "dma-channel", [Property("compatible", "\"xlnx,axi-dma-" + kind + "-channel\""),
                               Flag("dma-coherent"), Property("interrupts", cells)], [])
  }

  function DmaNode(cells: string, mm2s: string, s2mm: string): Node {
    Node(Some("axi_dma_0"), "dma@a0010000",
         [Property("compatible", "\"xlnx,axi-dma-7.1\", \"xlnx,axi-dma-1.00.a\""),
          Property("interrupt-names", "\"mm2s_introut\", \"s2mm_introut\""),
          Property("interrupts", cells), Property("xlnx,ip-name", "\"axi_dma\"")],
         [ChannelNode("mm2s", mm2s), ChannelNode("s2mm", s2mm)])
  }

  function AccelNode(props: seq<Property>): Node {
    Node(Some("accel"), "relu_axi@a0000000", props, [])
  }

  const ACCEL_PROPS := [Property("compatible", "\"xlnx,relu-axi-1.0\""), Property("xlnx,ip-name", "\"relu_axi\"")]

  lemma ThreeJoin(a: string, b: string, c: string)
    ensures Join(" ", [a, b, c]) == a + " " + (b + " " + c)
  {
    JoinFew(" ", c);
    JoinMore(" ", b, [c]);
    JoinMore(" ", a, [b, c]);
    assert [b] + [c] == [b, c] && [a] + [b, c] == [a, b, c];
  }

  lemma CellsAreNumbers()
    ensures AllSolid(["0", "89", "4"]) && AllSolid(["0", "90", "4"])
  {
  }

  lemma FirstBracket()
    ensures Bracket(["0", "89", "4"]) == "<0 89 4>"
  {
    ThreeJoin("0", "89", "4");
    assert "0" + " " + ("89" + " " + "4") == "0 89 4";
  }

  lemma SecondBracket()
    ensures Bracket(["0", "90", "4"]) == "<0 90 4>"
  {
    ThreeJoin("0", "90", "4");
    assert "0" + " " + ("90" + " " + "4") == "0 90 4";
  }

  lemma GroupedReads()
    ensures Cells(GROUPED) == ["0", "89", "4"] + ["0", "90", "4"]
  {
    hide Cells, Bracket, AllSolid;
    CellsAreNumbers();
    FirstBracket();
    SecondBracket();
    GroupReads(["0", "89", "4"], ", <0 90 4>");
    CellsAfterGap(", ", "<0 90 4>");
    BracketReads(["0", "90", "4"]);
    assert GROUPED == "<0 89 4>" + ", <0 90 4>" && ", <0 90 4>" == ", " + "<0 90 4>";
  }

  lemma FlatReads()
    ensures Cells(FLAT) == ["0", "89", "4"] + ["0", "90", "4"]
  {
    hide Cells, AllSolid;
    CellsAreNumbers();
    ThreeJoin("0", "89", "4");
    ThreeJoin("0", "90", "4");
    assert "0" + " " + ("89" + " " + "4") == "0 89 4" && "0" + " " + ("90" + " " + "4") == "0 90 4";
    assert FLAT == "< " + ("0 89 4" + (" " + ("0 90 4" + " >")));
    CellsAfterGap("< ", "0 89 4" + (" " + ("0 90 4" + " >")));
    RowReads(["0", "89", "4"], " " + ("0 90 4" + " >"));
    CellsAfterGap(" ", "0 90 4" + " >");
    RowReads(["0", "90", "4"], " >");
    CellsAfterGap(" >", "");
    assert " >" + "" == " >";
    NoCellsInNothing();
  }

  lemma NoCellsInNothing()
    ensures Cells("") == []
  {
  }

  lemma TwoNames(a: string, b: string)
    requires Unmarked(a) && Unmarked(b)
    ensures Quoted("\"" + a + "\", \"" + b + "\"") == [a, b]
  {
    hide Quoted, Unmarked;
    QuoteReads(a, ", " + Quote(b));
    NoMarks();
    QuotedAfter(", ", Quote(b));
    NameReads(b);
    assert "\"" + a + "\", \"" + b + "\"" == Quote(a) + (", " + Quote(b));
    assert [a] + [b] == [a, b];
  }

  /** Texts of one length: one is in the other iff they are the same. */
  lemma SameLength(s: string, part: string)
    requires |s| == |part|
    ensures Contains(s, part) <==> s == part
  {
    if s == part {
      assert OccursAt(s, part, 0);
    }
    forall k | 0 <= k <= |s| && OccursAt(s, part, k)
      ensures s == part
    {
      assert s[0..|part|] == s;
    }
  }

  lemma Kinds()
    ensures WantedBy("\"xlnx,axi-dma-mm2s-channel\"") == Some("mm2s_introut")
    ensures WantedBy("\"xlnx,axi-dma-s2mm-channel\"") == Some("s2mm_introut")
  {
    var a, b := "\"xlnx,axi-dma-mm2s-channel\"", "\"xlnx,axi-dma-s2mm-channel\"";
    SameLength(a, a);
    SameLength(b, a);
    SameLength(b, b);
    assert a[14] == 'm' && b[14] == 's';
    Directions(a);
    Directions(b);
  }

  lemma NotNamed(p: Property, name: string, k: nat)
    requires k < |name| && (|p.name| >= |name| ==> p.name[|p.name| - |name| + k] != name[k])
    ensures !Named(p, name)
  {
    if |p.name| >= |name| {
      assert p.name[|p.name| - |name|..][k] == p.name[|p.name| - |name| + k];
    }
  }

  lemma FoundAt(props: seq<Property>, name: string, k: nat)
    requires k < |props| && Named(props[k], name) && forall j | 0 <= j < k :: !Named(props[j], name)
    ensures Find(props, name) == k && Get(props, name) == Some(props[k].value)
  {
    hide Named;
  }

  lemma Found(cells: string, mm2s: string, s2mm: string)
    ensures var props := DmaNode(cells, mm2s, s2mm).props;
            && Get(props, "interrupts") == Some(cells)
            && Get(props, "interrupt-names") == Some("\"mm2s_introut\", \"s2mm_introut\"")
  {
    hide Named, Find, Get;
    var props := DmaNode(cells, mm2s, s2mm).props;
    NotNamed(props[0], "interrupts", 0);
    NotNamed(props[1], "interrupts", 8);
    NotNamed(props[0], "interrupt-names", 0);
    NamedSo("interrupts", cells);
    NamedSo("interrupt-names", props[1].value);
    FoundAt(props, "interrupts", 2);
    FoundAt(props, "interrupt-names", 1);
  }

  lemma NamedSo(name: string, value: string)
    ensures Named(Property(name, value), name)
  {
  }

  lemma FoundInChannel(kind: string, cells: string)
    ensures var props := ChannelNode(kind, cells).props;
            && Get(props, "compatible") == Some("\"xlnx,axi-dma-" + kind + "-channel\"")
            && Find(props, "interrupts") == 2
  {
    hide Named, Find;
    var props := ChannelNode(kind, cells).props;
    NotNamed(props[0], "interrupts", 0);
    NotValued("dma-coherent", "interrupts");
    NamedSo("compatible", props[0].value);
    NamedSo("interrupts", cells);
    FoundAt(props, "compatible", 0);
    FoundAt(props, "interrupts", 2);
  }

  lemma NotValued(flag: string, name: string)
    ensures !Named(Flag(flag), name)
  {
  }

  lemma ChannelAligned(kind: string, cells: string, spec: seq<string>)
    ensures WithInterrupt(ChannelNode(kind, cells), spec) == ChannelNode(kind, Bracket(spec))
  {
    hide Bracket, Find;
    FoundInChannel(kind, cells);
    assert ChannelNode(kind, cells).props[2 := Property("interrupts", Bracket(spec))]
           == ChannelNode(kind, Bracket(spec)).props;
  }

  lemma Shared()
    ensures Chunks(["0", "89", "4"] + ["0", "90", "4"], 3) == [["0", "89", "4"], ["0", "90", "4"]]
  {
    var cells := ["0", "89", "4"] + ["0", "90", "4"];
    assert cells[..3] == ["0", "89", "4"] && cells[3..] == ["0", "90", "4"];
    assert Chunks(cells[3..], 3) == [["0", "90", "4"]];
  }

  lemma NodeReads(cells: string, mm2s: string, s2mm: string)
    requires cells == FLAT || cells == GROUPED
    ensures var node, names := DmaNode(cells, mm2s, s2mm), ["mm2s_introut", "s2mm_introut"];
            NamesOf(node) == names && Specs(node.props, names) == Ok([["0", "89", "4"], ["0", "90", "4"]])
  {
    hide Cells, Quoted, Chunks, Find, Get;
    FlatReads();
    GroupedReads();
    TwoNames("mm2s_introut", "s2mm_introut");
    assert "\"" + "mm2s_introut" + "\", \"" + "s2mm_introut" + "\"" == "\"mm2s_introut\", \"s2mm_introut\"";
    Found(cells, mm2s, s2mm);
    Shared();
  }

  lemma ChannelWants(mm2s: string, s2mm: string)
    ensures Wanted(ChannelNode("mm2s", mm2s)) == Some("mm2s_introut")
    ensures Wanted(ChannelNode("s2mm", s2mm)) == Some("s2mm_introut")
  {
    hide Find, Get, WantedBy, ChannelNode;
    FoundInChannel("mm2s", mm2s);
    FoundInChannel("s2mm", s2mm);
    KindTexts();
    Kinds();
  }

  lemma KindTexts()
    ensures "\"xlnx,axi-dma-" + "mm2s" + "-channel\"" == "\"xlnx,axi-dma-mm2s-channel\"" == Quote(MM2S)
    ensures "\"xlnx,axi-dma-" + "s2mm" + "-channel\"" == "\"xlnx,axi-dma-s2mm-channel\"" == Quote(S2MM)
    ensures Quote(MM2S) != Quote(S2MM) && |Quote(MM2S)| == |Quote(S2MM)|
  {
    OneText();
    OtherText();
    assert Quote(MM2S)[14] == 'm' && Quote(S2MM)[14] == 's';
  }

  lemma OneText()
    ensures "\"xlnx,axi-dma-" + "mm2s" + "-channel\"" == "\"xlnx,axi-dma-mm2s-channel\"" == Quote(MM2S)
  {
  }

  lemma OtherText()
    ensures "\"xlnx,axi-dma-" + "s2mm" + "-channel\"" == "\"xlnx,axi-dma-s2mm-channel\"" == Quote(S2MM)
  {
  }

  /** However the generator brackets them, each channel ends with its own direction's interrupt, written as
      one group, and nothing else changes. */
  lemma ChannelsRight(cells: string, mm2s: string, s2mm: string)
    requires cells == FLAT || cells == GROUPED
    ensures var node := DmaNode(cells, mm2s, s2mm);
            !Starved(node) && Aligned(node, Table(node)) == DmaNode(cells, "<0 89 4>", "<0 90 4>")
  {
    hide Bracket, Wanted, ByName, Specs, CellsOf, NamesOf, WithInterrupt, ChannelNode, Cells;
    var node := DmaNode(cells, mm2s, s2mm);
    var names, specs := ["mm2s_introut", "s2mm_introut"], [["0", "89", "4"], ["0", "90", "4"]];
    NodeReads(cells, mm2s, s2mm);
    NotStarved(node);
    assert names[0] != names[1] by { assert names[0][0] != names[1][0]; }
    ByNamePicks(names, specs, 0);
    ByNamePicks(names, specs, 1);
    ChannelWants(mm2s, s2mm);
    ChannelAligned("mm2s", mm2s, specs[0]);
    ChannelAligned("s2mm", s2mm, specs[1]);
    FirstBracket();
    SecondBracket();
    assert Aligned(node, Table(node)).children == DmaNode(cells, "<0 89 4>", "<0 90 4>").children;
  }

  lemma NotStarved(node: Node)
    requires Specs(node.props, NamesOf(node)).Ok?
    ensures !Starved(node)
  {
  }

  // ---------------------------------------------------------------------------
  // The connection
  // ---------------------------------------------------------------------------

  lemma AccelIs()
    ensures !IsDma(AccelNode(ACCEL_PROPS)) && IsClient(AccelNode(ACCEL_PROPS), "relu_axi")
  {
    hide Named, Find, Contains;
    NamedSo("compatible", ACCEL_PROPS[0].value);
    NamedSo("xlnx,ip-name", ACCEL_PROPS[1].value);
    NotNamed(ACCEL_PROPS[0], "xlnx,ip-name", 0);
    FoundAt(ACCEL_PROPS, "compatible", 0);
    FoundAt(ACCEL_PROPS, "xlnx,ip-name", 1);
    NoDma();
    assert Quote("relu_axi") == "\"relu_axi\"";
  }

  lemma NoDma()
    ensures !Contains("\"xlnx,relu-axi-1.0\"", "\"xlnx,axi-dma")
  {
    var s, part := "\"xlnx,relu-axi-1.0\"", "\"xlnx,axi-dma";
    assert |s| == 19 && |part| == 13;
    forall k | 0 <= k <= |s|
      ensures !OccursAt(s, part, k)
    {
      if OccursAt(s, part, k) {
        LetterOf(s, part, k, 0);
        LetterOf(s, part, k, 6);
      }
    }
  }

  lemma LetterOf(s: string, part: string, k: nat, j: nat)
    requires OccursAt(s, part, k) && j < |part|
    ensures s[k + j] == part[j]
  {
    assert s[k..k + |part|][j] == part[j];
  }

  lemma DmaIs(cells: string, mm2s: string, s2mm: string)
    ensures var dma := DmaNode(cells, mm2s, s2mm);
            IsDma(dma) && !IsClient(dma, "relu_axi") && ChannelsOf(dma) == [TX, RX]
  {
    hide Find, Get, Contains, ChannelNode, Declared, DmaNode, Quote;
    DmaReads(cells, mm2s, s2mm);
    CompatibleText();
    DifferentNames();
    Declares(mm2s, s2mm);
    ChildrenOf(cells, mm2s, s2mm);
  }

  lemma ChildrenOf(cells: string, mm2s: string, s2mm: string)
    ensures var dma := DmaNode(cells, mm2s, s2mm);
            dma.children == [ChannelNode("mm2s", mm2s), ChannelNode("s2mm", s2mm)] && dma.tag == Some("axi_dma_0")
  {
  }

  lemma CompatibleText()
    ensures Contains("\"xlnx,axi-dma-7.1\", \"xlnx,axi-dma-1.00.a\"", "\"xlnx,axi-dma")
  {
    BeginsSo("\"xlnx,axi-dma", "-7.1\", \"xlnx,axi-dma-1.00.a\"");
    assert "\"xlnx,axi-dma" + "-7.1\", \"xlnx,axi-dma-1.00.a\"" == "\"xlnx,axi-dma-7.1\", \"xlnx,axi-dma-1.00.a\"";
  }

  lemma DifferentNames()
    ensures "\"axi_dma\"" != Quote("relu_axi")
  {
    assert Quote("relu_axi")[1] == 'r';
  }

  lemma DmaReads(cells: string, mm2s: string, s2mm: string)
    ensures var props := DmaNode(cells, mm2s, s2mm).props;
            && Get(props, "compatible") == Some("\"xlnx,axi-dma-7.1\", \"xlnx,axi-dma-1.00.a\"")
            && Get(props, "xlnx,ip-name") == Some("\"axi_dma\"")
  {
    hide Named, Find, Get;
    var props := DmaNode(cells, mm2s, s2mm).props;
    NamedSo("compatible", props[0].value);
    NamedSo("xlnx,ip-name", props[3].value);
    FoundAt(props, "compatible", 0);
    NotNamed(props[0], "xlnx,ip-name", 0);
    NotNamed(props[1], "xlnx,ip-name", 0);
    NotNamed(props[2], "xlnx,ip-name", 0);
    FoundAt(props, "xlnx,ip-name", 3);
  }

  lemma BeginsSo(part: string, rest: string)
    ensures Contains(part + rest, part)
  {
    assert (part + rest)[0..|part|] == part;
    assert OccursAt(part + rest, part, 0);
  }

  lemma KindIs(mm2s: string, s2mm: string)
    ensures CompatibleWith(ChannelNode("mm2s", mm2s), MM2S) && !CompatibleWith(ChannelNode("mm2s", mm2s), S2MM)
    ensures CompatibleWith(ChannelNode("s2mm", s2mm), S2MM) && !CompatibleWith(ChannelNode("s2mm", s2mm), MM2S)
  {
    hide Find, Get, Contains, ChannelNode, Quote;
    FoundInChannel("mm2s", mm2s);
    FoundInChannel("s2mm", s2mm);
    KindTexts();
    SameLength(Quote(MM2S), Quote(MM2S));
    SameLength(Quote(MM2S), Quote(S2MM));
    SameLength(Quote(S2MM), Quote(MM2S));
    SameLength(Quote(S2MM), Quote(S2MM));
  }

  lemma Declares(mm2s: string, s2mm: string)
    ensures var children := [ChannelNode("mm2s", mm2s), ChannelNode("s2mm", s2mm)];
            Declared(children, MM2S, TX) == [TX] && Declared(children, S2MM, RX) == [RX]
  {
    hide CompatibleWith, ChannelNode;
    var children := [ChannelNode("mm2s", mm2s), ChannelNode("s2mm", s2mm)];
    KindIs(mm2s, s2mm);
    assert children[1..] == [ChannelNode("s2mm", s2mm)] && children[1..][1..] == [];
    assert Declared(children[1..], MM2S, TX) == [] && Declared(children[1..], S2MM, RX) == [RX];
  }

  /** The accelerator is given both channels, each by its cell and named the way the driver asks for it;
      the DMA stays as it is. */
  lemma ConnectedRight(cells: string, mm2s: string, s2mm: string)
    ensures var dma := DmaNode(cells, mm2s, s2mm);
            LinkDmaClient([AccelNode(ACCEL_PROPS), dma], "relu_axi")
            == Ok([AccelNode([Property("dmas", "<&axi_dma_0 0>, <&axi_dma_0 1>"),
                              Property("dma-names", "\"tx\", \"rx\"")] + ACCEL_PROPS), dma])
  {
    hide IsDma, IsClient, ChannelsOf, DmaNode, Join, Dmas, Clients, Entries, Quotes, NamesIn;
    var dma := DmaNode(cells, mm2s, s2mm);
    var nodes := [AccelNode(ACCEL_PROPS), dma];
    AccelIs();
    DmaIs(cells, mm2s, s2mm);
    ChildrenOf(cells, mm2s, s2mm);
    DmasAre(nodes, 1);
    ClientsAre(nodes, "relu_axi", 0);
    Texts();
    assert LinkDmaClient(nodes, "relu_axi") == Ok(nodes[0 := Linked(nodes[0], "axi_dma_0", [TX, RX])]);
    assert nodes[0 := Linked(nodes[0], "axi_dma_0", [TX, RX])] == [Linked(nodes[0], "axi_dma_0", [TX, RX]), dma];
  }

  lemma Texts()
    ensures Join(", ", Entries("axi_dma_0", [TX, RX])) == "<&axi_dma_0 0>, <&axi_dma_0 1>"
    ensures Join(", ", Quotes(NamesIn([TX, RX]))) == "\"tx\", \"rx\""
  {
    hide Join;
    var one, two := "<&axi_dma_0 0>", "<&axi_dma_0 1>";
    assert "<&" + "axi_dma_0" + " " + "0" + ">" == one && "<&" + "axi_dma_0" + " " + "1" + ">" == two;
    assert [TX, RX][1..] == [RX] && [RX][1..] == [];
    assert Entries("axi_dma_0", []) == [];
    assert Entries("axi_dma_0", [RX]) == [two] + [];
    assert Entries("axi_dma_0", [TX, RX]) == [one] + [two];
    JoinFew(", ", two);
    JoinMore(", ", one, [two]);
    assert one + ", " + two == "<&axi_dma_0 0>, <&axi_dma_0 1>";
    assert NamesIn([TX, RX]) == ["tx", "rx"];
    QuotedTwo("tx", "rx");
    assert Quote("tx") + ", " + Quote("rx") == "\"tx\", \"rx\"";
  }

  lemma QuotedTwo(a: string, b: string)
    ensures Join(", ", Quotes([a, b])) == Quote(a) + ", " + Quote(b)
  {
    hide Join, Quote;
    assert [a, b][1..] == [b] && [b][1..] == [];
    assert Quotes([b]) == [Quote(b)] + Quotes([]);
    assert Quotes([a, b]) == [Quote(a)] + [Quote(b)];
    JoinFew(", ", Quote(b));
    JoinMore(", ", Quote(a), [Quote(b)]);
  }
}
