/** Connecting the one DMA's stream to the one accelerator: the client names the channels it may ask for. */
module DmaLink {
  import opened Wrappers
  import opened Strings
  import opened Interrupts

  /** The cell a dmas entry selects a channel with, and the name a driver asks for it under. */
  datatype Channel = Channel(cell: string, name: string)

  const TX := Channel("0", "tx")
  const RX := Channel("1", "rx")

  const IP_NAME := "xlnx,ip-name"
  const DMA_PREFIX := "\"xlnx,axi-dma"
  const DMAS := "dmas"
  const DMA_NAMES := "dma-names"

  predicate IsDma(node: Node) { Contains(OrEmpty(Get(node.props, COMPATIBLE)), DMA_PREFIX) }

  predicate IsClient(node: Node, ip: string) { OrEmpty(Get(node.props, IP_NAME)) == Quote(ip) }

  /** Where a list says yes, in order. */
  function Positions(flags: seq<bool>): (at: seq<nat>)
    ensures forall j | 0 <= j < |at| :: at[j] < |flags|
  {
    if flags == [] then []
    else
      var n := |flags| - 1;
      Positions(flags[..n]) + if flags[n] then [n] else []
  }

  function DmaFlags(nodes: seq<Node>): (flags: seq<bool>)
    ensures |flags| == |nodes| && forall k | 0 <= k < |nodes| :: flags[k] == IsDma(nodes[k])
  {
    seq(|nodes|, k requires 0 <= k < |nodes| => IsDma(nodes[k]))
  }

  function ClientFlags(nodes: seq<Node>, ip: string): (flags: seq<bool>)
    ensures |flags| == |nodes| && forall k | 0 <= k < |nodes| :: flags[k] == IsClient(nodes[k], ip)
  {
    seq(|nodes|, k requires 0 <= k < |nodes| => IsClient(nodes[k], ip))
  }

  function Dmas(nodes: seq<Node>): (at: seq<nat>)
    ensures forall j | 0 <= j < |at| :: at[j] < |nodes|
  {
    Positions(DmaFlags(nodes))
  }

  function Clients(nodes: seq<Node>, ip: string): (at: seq<nat>)
    ensures forall j | 0 <= j < |at| :: at[j] < |nodes|
  {
    Positions(ClientFlags(nodes, ip))
  }

  lemma {:induction false} NoPosition(flags: seq<bool>)
    ensures Positions(flags) == [] <==> forall k | 0 <= k < |flags| :: !flags[k]
  {
    if flags != [] {
      var n := |flags| - 1;
      var before := flags[..n];
      NoPosition(before);
      assert forall k | 0 <= k < n :: flags[k] == before[k];
      if flags[n] {
        assert (Positions(before) + [n])[|Positions(before)|] == n;
      } else {
        assert Positions(before) + [] == Positions(before);
      }
    }
  }

  lemma {:induction false} OnePosition(flags: seq<bool>, d: nat)
    ensures Positions(flags) == [d] <==> d < |flags| && forall k | 0 <= k < |flags| :: flags[k] <==> k == d
  {
    if flags != [] {
      var n := |flags| - 1;
      var before := flags[..n];
      OnePosition(before, d);
      NoPosition(before);
      assert forall k | 0 <= k < n :: flags[k] == before[k];
      if flags[n] {
        Last(Positions(before), n, d);
      } else {
        assert Positions(before) + [] == Positions(before);
      }
    }
  }

  lemma Last(s: seq<nat>, n: nat, d: nat)
    ensures s + [n] == [d] <==> s == [] && n == d
  {
    assert (s + [n])[|s|] == n;
    if s == [] {
      assert s + [n] == [n];
    }
  }

  /** The channels of the kind c that a DMA's sub-nodes declare. */
  function Declared(children: seq<Node>, kind: string, c: Channel): (cs: seq<Channel>)
    ensures forall k | 0 <= k < |cs| :: cs[k] == c
    ensures cs != [] <==> exists k | 0 <= k < |children| :: CompatibleWith(children[k], kind)
  {
    if children == [] then []
    else
      var rest := Declared(children[1..], kind, c);
      assert forall k | 1 <= k < |children| :: children[k] == children[1..][k - 1];
      (if CompatibleWith(children[0], kind) then [c] else []) + rest
  }

  /** In order of their cells. */
  function ChannelsOf(dma: Node): seq<Channel> {
    Declared(dma.children, MM2S, TX) + Declared(dma.children, S2MM, RX)
  }

  function Entries(tag: string, channels: seq<Channel>): seq<string> {
    if channels == [] then [] else ["<&" + tag + " " + channels[0].cell + ">"] + Entries(tag, channels[1..])
  }

  function NamesIn(channels: seq<Channel>): (names: seq<string>)
    ensures |names| == |channels|
    ensures forall k | 0 <= k < |names| :: names[k] == channels[k].name
  {
    if channels == [] then [] else [channels[0].name] + NamesIn(channels[1..])
  }

  /** The client with its two new properties before its own. */
  function Linked(client: Node, tag: string, channels: seq<Channel>): Node {
    client.(props := [Property(DMAS, Join(", ", Entries(tag, channels))),
                      Property(DMA_NAMES, Join(", ", Quotes(NamesIn(channels))))] + client.props)
  }

  function LinkDmaClient(nodes: seq<Node>, ip: string): Result<seq<Node>> {
    var dmas, clients := Dmas(nodes), Clients(nodes, ip);
    if dmas == [] && clients == [] then Ok(nodes)
    else if |dmas| != 1 || |clients| != 1 then Fail(NotOnePair(|dmas|, |clients|))
    else
      var dma := nodes[dmas[0]];
      if dma.tag.None? then Fail(NoLabel)
      else if ChannelsOf(dma) == [] then Fail(NoChannel)
      else Ok(nodes[clients[0] := Linked(nodes[clients[0]], dma.tag.value, ChannelsOf(dma))])
  }

  lemma GetFirst(ps: seq<Property>, qs: seq<Property>, name: string, k: nat)
    requires k < |ps| && Named(ps[k], name) && forall j | 0 <= j < k :: !Named(ps[j], name)
    ensures Get(ps + qs, name) == Some(ps[k].value)
  {
    var all := ps + qs;
    assert forall j | 0 <= j < |ps| :: all[j] == ps[j];
    var n := Find(all, name);
    assert n == k;
  }

  lemma NamesPlain(channels: seq<Channel>)
    requires forall k | 0 <= k < |channels| :: channels[k] == TX || channels[k] == RX
    ensures forall k | 0 <= k < |channels| :: Unmarked(NamesIn(channels)[k])
  {
    hide NamesIn, Unmarked;
    assert Unmarked("tx") && Unmarked("rx") by { PlainNames(); }
  }

  lemma PlainNames()
    ensures Unmarked("tx") && Unmarked("rx")
  {
  }

  function Selectors(tag: string, channels: seq<Channel>): seq<seq<string>> {
    if channels == [] then [] else [["&" + tag, channels[0].cell]] + Selectors(tag, channels[1..])
  }

  /** Each entry is one bracketed group, of a reference to the DMA and the channel's cell. */
  lemma {:induction false} EntriesAre(tag: string, channels: seq<Channel>)
    requires Solid("&" + tag) && forall k | 0 <= k < |channels| :: Solid(channels[k].cell)
    ensures Entries(tag, channels) == Brackets(Selectors(tag, channels))
    ensures forall k | 0 <= k < |Selectors(tag, channels)| :: AllSolid(Selectors(tag, channels)[k])
    ensures |Flatten(Selectors(tag, channels))| == 2 * |channels|
    ensures forall k | 0 <= k < |channels| ::
              var cells := Flatten(Selectors(tag, channels));
              cells[2 * k] == "&" + tag && cells[2 * k + 1] == channels[k].cell
  {
    hide Solid, Bracket;
    if channels != [] {
      var rest := Selectors(tag, channels[1..]);
      EntriesAre(tag, channels[1..]);
      OneEntry(tag, channels[0].cell);
      var group := ["&" + tag, channels[0].cell];
      assert ([group] + rest)[1..] == rest;
      assert Flatten([group] + rest) == group + Flatten(rest);
      forall k | 0 <= k < |channels|
        ensures (group + Flatten(rest))[2 * k] == "&" + tag
        ensures (group + Flatten(rest))[2 * k + 1] == channels[k].cell
      {
        if k > 0 {
          assert channels[1..][k - 1] == channels[k];
          assert Flatten(rest)[2 * (k - 1)] == "&" + tag;
        }
      }
    }
  }

  lemma OneEntry(tag: string, cell: string)
    ensures "<&" + tag + " " + cell + ">" == Bracket(["&" + tag, cell])
  {
    BracketIs(["&" + tag, cell]);
  }

  /** The cells of dmas: two to an entry, the reference and then the cell that selects the channel. */
  lemma DmasRead(tag: string, channels: seq<Channel>)
    requires Unbroken(tag) && forall k | 0 <= k < |channels| :: channels[k] == TX || channels[k] == RX
    ensures var cells, names := Cells(Join(", ", Entries(tag, channels))), NamesIn(channels);
            && |cells| == 2 * |names|
            && forall k | 0 <= k < |names| ::
                 && cells[2 * k] == "&" + tag && (names[k] == "tx" || names[k] == "rx")
                 && cells[2 * k + 1] == if names[k] == "tx" then "0" else "1"
  {
    hide Cells, Join;
    assert Solid("&" + tag) && Solid("0") && Solid("1") && "tx" != "rx" by { assert "tx"[0] != "rx"[0]; }
    EntriesAre(tag, channels);
    GroupsRead(Selectors(tag, channels));
  }

  /** A linked client reads back as asking for those channels, in order; its own properties follow. The
      k-th two cells of dmas refer to the DMA and select the channel the k-th name asks for. */
  lemma LinkedReads(client: Node, tag: string, channels: seq<Channel>)
    requires forall k | 0 <= k < |channels| :: channels[k] == TX || channels[k] == RX
    ensures var out := Linked(client, tag, channels);
            && out == client.(props := out.props[..2] + client.props)
            && Quoted(OrEmpty(Get(out.props, DMA_NAMES))) == NamesIn(channels)
            && Get(out.props, "dmas") == Some(Join(", ", Entries(tag, channels)))
    ensures Unbroken(tag) ==>
              var out := Linked(client, tag, channels).props;
              var cells, names := Cells(OrEmpty(Get(out, "dmas"))), Quoted(OrEmpty(Get(out, "dma-names")));
              && |cells| == 2 * |names| == 2 * |channels|
              && forall k | 0 <= k < |names| ::
                   && cells[2 * k] == "&" + tag && (names[k] == "tx" || names[k] == "rx")
                   && cells[2 * k + 1] == if names[k] == "tx" then "0" else "1"
  {
    hide Quoted, Join, Find, Entries, Cells;
    if Unbroken(tag) { DmasRead(tag, channels); }
    NamesPlain(channels);
    NamesRead(NamesIn(channels));
    var ps := Linked(client, tag, channels).props[..2];
    Distinguish(ps[0].value, ps[1].value);
    GetFirst(ps, client.props, DMAS, 0);
    GetFirst(ps, client.props, DMA_NAMES, 1);
  }

  lemma Distinguish(a: string, b: string)
    ensures Named(Property(DMAS, a), DMAS) && !Named(Property(DMAS, a), DMA_NAMES)
    ensures Named(Property(DMA_NAMES, b), DMA_NAMES)
  {
    assert |DMAS| == 4 && |DMA_NAMES| == 9;
  }

  lemma HasChannels(dma: Node)
    ensures var channels := ChannelsOf(dma);
            && (TX in channels <==> exists k | 0 <= k < |dma.children| :: CompatibleWith(dma.children[k], MM2S))
            && (RX in channels <==> exists k | 0 <= k < |dma.children| :: CompatibleWith(dma.children[k], S2MM))
            && (forall k | 0 <= k < |channels| :: channels[k] == TX || channels[k] == RX)
            && (forall j, k | 0 <= j < k < |channels| :: channels[j] == RX ==> channels[k] == RX)
  {
    hide CompatibleWith;
    var tx, rx := Declared(dma.children, MM2S, TX), Declared(dma.children, S2MM, RX);
    assert tx != [] ==> tx[0] == TX && (tx + rx)[0] == TX;
    assert rx != [] ==> rx[0] == RX && (tx + rx)[|tx|] == RX;
  }

  lemma ByItsName(channels: seq<Channel>, c: Channel)
    requires forall k | 0 <= k < |channels| :: channels[k].name == c.name <==> channels[k] == c
    ensures c.name in NamesIn(channels) <==> c in channels
    ensures forall k | 0 <= k < |channels| :: NamesIn(channels)[k] == c.name <==> channels[k] == c
  {
    hide NamesIn;
    var names := NamesIn(channels);
    if c in channels {
      var k :| 0 <= k < |channels| && channels[k] == c;
      assert names[k] == c.name;
    }
    if c.name in names {
      var k :| 0 <= k < |names| && names[k] == c.name;
      assert channels[k] == c;
    }
  }

  lemma ByTheirNames(channels: seq<Channel>)
    requires forall k | 0 <= k < |channels| :: channels[k] == TX || channels[k] == RX
    ensures "tx" in NamesIn(channels) <==> TX in channels
    ensures "rx" in NamesIn(channels) <==> RX in channels
    ensures forall k | 0 <= k < |channels| :: NamesIn(channels)[k] == "rx" <==> channels[k] == RX
  {
    hide NamesIn;
    assert "tx" != "rx" by { assert "tx"[0] != "rx"[0]; }
    ByItsName(channels, TX);
    ByItsName(channels, RX);
  }

  /** "tx" is asked for iff the DMA has a channel out, "rx" iff it has one in; "tx" first. */
  lemma AsksIff(dma: Node)
    ensures var channels, names := ChannelsOf(dma), NamesIn(ChannelsOf(dma));
            && ("tx" in names <==> AnyOfKind(dma.children, "xlnx,axi-dma-mm2s-channel"))
            && ("rx" in names <==> AnyOfKind(dma.children, "xlnx,axi-dma-s2mm-channel"))
            && (forall k | 0 <= k < |channels| :: channels[k] == TX || channels[k] == RX)
            && (forall j, k | 0 <= j < k < |names| :: names[j] == "rx" ==> names[k] == "rx")
  {
    hide CompatibleWith, QuotesKind, ChannelsOf, NamesIn;
    HasChannels(dma);
    ByTheirNames(ChannelsOf(dma));
    forall k | 0 <= k < |dma.children|
      ensures QuotesKind(dma.children[k], "xlnx,axi-dma-mm2s-channel") == CompatibleWith(dma.children[k], MM2S)
      ensures QuotesKind(dma.children[k], "xlnx,axi-dma-s2mm-channel") == CompatibleWith(dma.children[k], S2MM)
    {
      SameKind(dma.children[k]);
    }
  }

  /** One of the nodes is of that kind. */
  predicate AnyOfKind(nodes: seq<Node>, kind: string) {
    exists k | 0 <= k < |nodes| :: QuotesKind(nodes[k], kind)
  }

  /** The node's compatible property quotes that kind. */
  predicate QuotesKind(node: Node, kind: string) {
    Contains(OrEmpty(Get(node.props, "compatible")), "\"" + kind + "\"")
  }

  lemma SameKind(node: Node)
    ensures QuotesKind(node, "xlnx,axi-dma-mm2s-channel") == CompatibleWith(node, MM2S)
    ensures QuotesKind(node, "xlnx,axi-dma-s2mm-channel") == CompatibleWith(node, S2MM)
  {
  }

  /** The node there, and no other, is a DMA, or a client. */
  predicate OnlyDma(nodes: seq<Node>, d: nat) {
    d < |nodes| && forall k | 0 <= k < |nodes| :: IsDma(nodes[k]) <==> k == d
  }

  predicate OnlyClient(nodes: seq<Node>, ip: string, c: nat) {
    c < |nodes| && forall k | 0 <= k < |nodes| :: IsClient(nodes[k], ip) <==> k == c
  }

  predicate Unconnected(nodes: seq<Node>, ip: string) {
    forall k | 0 <= k < |nodes| :: !IsDma(nodes[k]) && !IsClient(nodes[k], ip)
  }

  lemma DmasAre(nodes: seq<Node>, d: nat)
    ensures OnlyDma(nodes, d) <==> Dmas(nodes) == [d]
  {
    hide IsDma;
    OnePosition(DmaFlags(nodes), d);
  }

  lemma ClientsAre(nodes: seq<Node>, ip: string, c: nat)
    ensures OnlyClient(nodes, ip, c) <==> Clients(nodes, ip) == [c]
  {
    hide IsClient;
    OnePosition(ClientFlags(nodes, ip), c);
  }

  /** The DMA can be referred to and has a channel to ask for. */
  predicate Offers(dma: Node) {
    && dma.tag.Some?
    && exists k | 0 <= k < |dma.children| ::
         CompatibleWith(dma.children[k], MM2S) || CompatibleWith(dma.children[k], S2MM)
  }

  lemma OffersIff(dma: Node)
    ensures Offers(dma) <==> dma.tag.Some? && ChannelsOf(dma) != []
  {
    hide CompatibleWith;
  }

  /** With nothing to connect the nodes are left as they are. */
  lemma UnconnectedStays(nodes: seq<Node>, ip: string)
    ensures Unconnected(nodes, ip) <==> Dmas(nodes) == [] == Clients(nodes, ip)
    ensures Unconnected(nodes, ip) ==> LinkDmaClient(nodes, ip) == Ok(nodes)
  {
    hide IsDma, IsClient, ChannelsOf, Linked;
    NoPosition(DmaFlags(nodes));
    NoPosition(ClientFlags(nodes, ip));
  }

  /** One DMA that offers something and one client: the client alone changes. */
  lemma LinkedClient(nodes: seq<Node>, ip: string, d: nat, c: nat)
    requires OnlyDma(nodes, d) && OnlyClient(nodes, ip, c) && Offers(nodes[d])
    ensures LinkDmaClient(nodes, ip) == Ok(nodes[c := Linked(nodes[c], nodes[d].tag.value, ChannelsOf(nodes[d]))])
  {
    hide IsDma, IsClient, ChannelsOf, Linked, Dmas, Clients, Offers;
    DmasAre(nodes, d);
    ClientsAre(nodes, ip, c);
    OffersIff(nodes[d]);
  }

  /** Any other nodes take exactly one DMA, which offers something, and exactly one client. */
  lemma LinkedIff(nodes: seq<Node>, ip: string)
    ensures LinkDmaClient(nodes, ip).Ok? <==>
              || Unconnected(nodes, ip)
              || exists d: nat, c: nat :: OnlyDma(nodes, d) && OnlyClient(nodes, ip, c) && Offers(nodes[d])
  {
    hide IsDma, IsClient, Offers, Dmas, Clients, ChannelsOf, Linked, Unconnected;
    UnconnectedStays(nodes, ip);
    if LinkDmaClient(nodes, ip).Ok? && !Unconnected(nodes, ip) {
      LinkedOne(nodes, ip);
    }
    forall d: nat, c: nat | OnlyDma(nodes, d) && OnlyClient(nodes, ip, c) && Offers(nodes[d])
      ensures LinkDmaClient(nodes, ip).Ok?
    {
      LinkedClient(nodes, ip, d, c);
    }
  }

  lemma LinkedOne(nodes: seq<Node>, ip: string)
    requires LinkDmaClient(nodes, ip).Ok? && !(Dmas(nodes) == [] == Clients(nodes, ip))
    ensures exists d: nat, c: nat :: OnlyDma(nodes, d) && OnlyClient(nodes, ip, c) && Offers(nodes[d])
  {
    hide OnlyDma, OnlyClient, Offers, Dmas, Clients, ChannelsOf, Linked;
    var d: nat, c: nat := Dmas(nodes)[0], Clients(nodes, ip)[0];
    assert Dmas(nodes) == [d] && Clients(nodes, ip) == [c];
    DmasAre(nodes, d);
    ClientsAre(nodes, ip, c);
    OffersIff(nodes[d]);
    assert OnlyDma(nodes, d) && OnlyClient(nodes, ip, c) && Offers(nodes[d]);
  }
}
