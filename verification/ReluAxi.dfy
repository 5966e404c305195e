/** relu_axi: the activation unit behind an AXI4-Lite register map and a one-deep elastic
    pipeline between two AXI4-Streams. */
module ReluAxi {
  import opened Words
  import opened Wrappers
  import opened AxiLite
  import opened ReluUnit

  const ID_VALUE := 0x524C_0100
  const REG_ID: Byte := 0x00
  const REG_CTRL: Byte := 0x04
  const REG_STATUS: Byte := 0x08
  const REG_SLOPE: Byte := 0x0C
  const REG_COUNT: Byte := 0x10

  /** EN is bit 0; nothing above it is storage. */
  const CTRL_KEEP := 2
  const CTRL_RESET: Lanes := [1, 0, 0, 0]
  const SLOPE_RESET := 25
  const COUNT_MOD := 0x1_0000
  const DATA_W: nat := 8
  const SLOPE_W: nat := 8

  /** Every input of one clock cycle. */
  datatype Inputs = Inputs(w: WriteIn, r: ReadIn, tvalid: bool, tdata: nat, tlast: bool, mready: bool)

  datatype Out = Out(valid: bool, last: bool, data: int)

  datatype Account = Account(busy: bool, done: bool, beats: nat, count: nat)

  datatype Regs = Regs(wr: WriteRegs, rd: ReadRegs, ctrl: Lanes, slope: Byte, out: Out, acct: Account)

  const RESET := Regs(WRITE_RESET, READ_RESET, CTRL_RESET, SLOPE_RESET, Out(false, false, 0),
                      Account(false, false, 0, 0))

  // ---------------------------------------------------------------------------
  // Combinational signals
  // ---------------------------------------------------------------------------

  predicate Enabled(s: Regs) { s.ctrl[0] % 2 == 1 }

  predicate Writes(c: Option<Write>, addr: Byte) { c.Some? && c.value.addr == addr }

  predicate Ready(s: Regs, i: Inputs) { Enabled(s) && (!s.out.valid || i.mready) }

  predicate InFire(s: Regs, i: Inputs) { i.tvalid && Ready(s, i) }

  predicate OutFire(s: Regs, i: Inputs) { s.out.valid && i.mready }

  predicate TileDone(s: Regs, i: Inputs) { OutFire(s, i) && s.out.last }

  function Operand(i: Inputs): (x: int)
    ensures -128 <= x < 128
  {
    Signed(i.tdata % 256, 256)
  }

  function View(s: Regs, addr: Byte): nat {
    if addr == REG_ID then ID_VALUE
    else if addr == REG_CTRL then Num(s.ctrl)
    else if addr == REG_STATUS then (if s.acct.busy then 1 else 0) + (if s.acct.done then 2 else 0)
    else if addr == REG_SLOPE then s.slope
    else if addr == REG_COUNT then s.acct.count
    else 0
  }

  // ---------------------------------------------------------------------------
  // One clock
  // ---------------------------------------------------------------------------

  function CtrlNext(ctrl: Lanes, c: Option<Write>): Lanes {
    if Writes(c, REG_CTRL) then StrobeMerge(ctrl, c.value.load, CTRL_KEEP) else ctrl
  }

  function SlopeNext(slope: Byte, c: Option<Write>): Byte {
    if Writes(c, REG_SLOPE) && c.value.load.strb[0] then c.value.load.data[0] else slope
  }

  function OutNext(out: Out, inFire: bool, outFire: bool, activated: int, last: bool): Out {
    if inFire then Out(true, last, activated)
    else if outFire then Out(false, false, out.data)
    else out
  }

  /** A tile that leaves wins over one that arrives in the same cycle, and takes its beat. */
  function AccountNext(a: Account, inFire: bool, tileDone: bool): Account {
    var seen := if inFire then (a.beats + 1) % COUNT_MOD else a.beats;
    if tileDone then Account(false, true, 0, seen)
    else Account(a.busy || inFire, a.done && (a.busy || !inFire), seen, a.count)
  }

  function Next(s: Regs, i: Inputs): Regs {
    var c := Commit(s.wr, i.w);
    Regs(WriteNext(s.wr, i.w),
         ReadNext(s.rd, i.r, View(s, i.r.araddr)),
         CtrlNext(s.ctrl, c),
         SlopeNext(s.slope, c),
         OutNext(s.out, InFire(s, i), OutFire(s, i), Unit(DATA_W, SLOPE_W, Operand(i), s.slope), i.tlast),
         AccountNext(s.acct, InFire(s, i), TileDone(s, i)))
  }

  // ---------------------------------------------------------------------------
  // What has crossed the two streams
  // ---------------------------------------------------------------------------

  /** A beat accepted, with the slope in force in its own accept cycle. */
  datatype Arrival = Arrival(x: int, slope: nat, last: bool)

  datatype Departure = Departure(y: int, last: bool)

  /** A tile whose last beat has left: its length on the stream, the COUNT it was given, and
      whether the next tile's first beat was accepted in that very cycle. */
  datatype Tile = Tile(length: nat, count: nat, overlap: bool)

  datatype Trace = Trace(arrivals: seq<Arrival>, departures: seq<Departure>, tiles: seq<Tile>)

  const NO_BEATS := Trace([], [], [])

  /** Beats that have left since the last one carrying tlast. */
  function Open(ds: seq<Departure>): nat {
    if ds == [] || ds[|ds| - 1].last then 0 else Open(ds[..|ds| - 1]) + 1
  }

  /** The tile lengths a stream of beats spells out. */
  function Lengths(ds: seq<Departure>): seq<nat> {
    if ds == [] then []
    else
      var rest := Lengths(ds[..|ds| - 1]);
      if ds[|ds| - 1].last then rest + [Open(ds[..|ds| - 1]) + 1] else rest
  }

  function Observe(t: Trace, s: Regs, i: Inputs): Trace {
    Trace(if InFire(s, i) then t.arrivals + [Arrival(Operand(i), s.slope, i.tlast)] else t.arrivals,
          if OutFire(s, i) then t.departures + [Departure(s.out.data, s.out.last)] else t.departures,
          if TileDone(s, i) then t.tiles + [Tile(Open(t.departures) + 1, Next(s, i).acct.count, InFire(s, i))]
          else t.tiles)
  }

  // ---------------------------------------------------------------------------
  // What every reachable state satisfies
  // ---------------------------------------------------------------------------

  /** What a tile must come out as: the golden activation of each beat, tlast in place. */
  function Golden(a: Arrival): Departure { Departure(Leaky(SLOPE_W, a.x, a.slope), a.last) }

  function GoldenStream(arrivals: seq<Arrival>): (ds: seq<Departure>)
    ensures |ds| == |arrivals|
    ensures forall k | 0 <= k < |ds| :: ds[k] == Golden(arrivals[k])
  {
    seq(|arrivals|, k requires 0 <= k < |arrivals| => Golden(arrivals[k]))
  }

  function Held(out: Out): seq<Departure> {
    if out.valid then [Departure(out.data, out.last)] else []
  }

  /** Stream refinement: what has left, then what the output register holds, is the golden
      activation of everything accepted. Nothing lost, duplicated or reordered. */
  ghost predicate StreamLaw(s: Regs, t: Trace) {
    && t.departures + Held(s.out) == GoldenStream(t.arrivals)
    && (!s.out.valid ==> !s.out.last)
  }

  predicate Overlapped(ts: seq<Tile>, k: int) { 0 <= k < |ts| && ts[k].overlap }

  /** Beats accepted of tiles that have not left. */
  function Pending(s: Regs, t: Trace): nat { Open(t.departures) + |Held(s.out)| }

  function Carried(ts: seq<Tile>): nat { if Overlapped(ts, |ts| - 1) then 1 else 0 }

  /** A tile's COUNT is its length, less the beat its predecessor took, plus the one it took. */
  predicate CountOf(ts: seq<Tile>, k: int)
    requires 0 <= k < |ts|
  {
    ts[k].count == (ts[k].length + (if ts[k].overlap then 1 else 0)
                    - (if Overlapped(ts, k - 1) then 1 else 0)) % COUNT_MOD
  }

  ghost predicate TileLaw(ts: seq<Tile>) { forall k | 0 <= k < |ts| :: CountOf(ts, k) }

  /** The accounting registers, for pending beats of which carried were counted already. */
  predicate AccountLaw(a: Account, pending: nat, carried: nat, finished: bool) {
    && pending >= carried
    && a.beats == (pending - carried) % COUNT_MOD
    && (a.busy <==> pending > carried)
    && (a.done <==> finished && !a.busy)
  }

  ghost predicate CountLaw(s: Regs, t: Trace) {
    && AccountLaw(s.acct, Pending(s, t), Carried(t.tiles), t.tiles != [])
    && s.acct.count == (if t.tiles == [] then 0 else t.tiles[|t.tiles| - 1].count)
  }

  ghost predicate LengthLaw(t: Trace) {
    && |t.tiles| == |Lengths(t.departures)|
    && (forall k | 0 <= k < |t.tiles| :: t.tiles[k].length == Lengths(t.departures)[k])
  }

  ghost predicate CtrlLaw(s: Regs) {
    s.ctrl[0] < CTRL_KEEP && s.ctrl[1] == s.ctrl[2] == s.ctrl[3] == 0
  }

  datatype Machine = Machine(s: Regs, t: Trace, wl: WriteLog, rl: ReadLog)

  const INITIAL := Machine(RESET, NO_BEATS, NO_WRITES, NO_READS)

  ghost predicate Inv(m: Machine) {
    && WriteLaw(m.s.wr, m.wl) && ReadLaw(m.s.rd, m.rl)
    && CtrlLaw(m.s) && StreamLaw(m.s, m.t) && CountLaw(m.s, m.t)
    && TileLaw(m.t.tiles) && LengthLaw(m.t)
  }

  function Step(m: Machine, i: Inputs): Machine {
    Machine(Next(m.s, i), Observe(m.t, m.s, i), WriteObserve(m.wl, m.s.wr, i.w),
            ReadObserve(m.rl, m.s.rd, i.r, View(m.s, i.r.araddr)))
  }

  lemma UnitIsGolden(x: int, slope: nat)
    requires -128 <= x < 128 && slope < 256
    ensures Unit(DATA_W, SLOPE_W, x, slope) == Leaky(SLOPE_W, x, slope)
  {
    assert Pow2(8) == 2 * (2 * (2 * (2 * Pow2(4)))) && Pow2(4) == 2 * (2 * Pow2(2)) && Pow2(2) == 4;
    assert Pow2(7) == 2 * (2 * (2 * Pow2(4)));
    UnitIsLeaky(DATA_W, SLOPE_W, x, slope);
  }

  lemma StreamKeeps(s: Regs, t: Trace, i: Inputs)
    requires StreamLaw(s, t)
    ensures StreamLaw(Next(s, i), Observe(t, s, i))
  {
    if InFire(s, i) {
      UnitIsGolden(Operand(i), s.slope);
      assert t.departures + Held(s.out) == if s.out.valid then Observe(t, s, i).departures else t.departures;
    }
  }

  lemma OpenGrows(ds: seq<Departure>, d: Departure)
    ensures Open(ds + [d]) == if d.last then 0 else Open(ds) + 1
    ensures Lengths(ds + [d]) == if d.last then Lengths(ds) + [Open(ds) + 1] else Lengths(ds)
  {
    assert (ds + [d])[..|ds|] == ds;
  }

  lemma AccountKeeps(a: Account, pending: nat, carried: nat, finished: bool, inFire: bool, tileDone: bool)
    requires AccountLaw(a, pending, carried, finished) && (tileDone ==> pending > 0) && carried <= 1
    ensures var n, arrived := AccountNext(a, inFire, tileDone), if inFire then 1 else 0;
            if tileDone then
              AccountLaw(n, arrived, arrived, true) && n.count == (pending + arrived - carried) % COUNT_MOD
            else AccountLaw(n, pending + arrived, carried, finished) && n.count == a.count
  {
  }

  lemma PendingMoves(s: Regs, t: Trace, i: Inputs)
    requires StreamLaw(s, t)
    ensures var arrived := if InFire(s, i) then 1 else 0;
            Pending(Next(s, i), Observe(t, s, i)) == if TileDone(s, i) then arrived else Pending(s, t) + arrived
  {
    OpenGrows(t.departures, Departure(s.out.data, s.out.last));
  }

  lemma CountKeeps(s: Regs, t: Trace, i: Inputs)
    requires StreamLaw(s, t) && CountLaw(s, t)
    ensures CountLaw(Next(s, i), Observe(t, s, i))
    ensures TileDone(s, i) ==> Pending(s, t) == Open(t.departures) + 1
  {
    hide Unit, View, CtrlNext, SlopeNext, WriteNext, ReadNext, Golden, GoldenStream, CountOf, Commit;
    PendingMoves(s, t, i);
    AccountKeeps(s.acct, Pending(s, t), Carried(t.tiles), t.tiles != [], InFire(s, i), TileDone(s, i));
  }

  lemma TileKeeps(ts: seq<Tile>, tile: Tile)
    requires TileLaw(ts)
    requires tile.count == (tile.length + (if tile.overlap then 1 else 0) - Carried(ts)) % COUNT_MOD
    ensures TileLaw(ts + [tile])
  {
    var us := ts + [tile];
    forall k | 0 <= k < |us|
      ensures CountOf(us, k)
    {
      assert k < |ts| ==> CountOf(ts, k);
      assert Overlapped(us, k - 1) == Overlapped(ts, k - 1);
    }
  }

  lemma FinishedTile(s: Regs, t: Trace, i: Inputs)
    requires StreamLaw(s, t) && CountLaw(s, t) && TileLaw(t.tiles)
    ensures TileLaw(Observe(t, s, i).tiles)
  {
    if TileDone(s, i) {
      AccountKeeps(s.acct, Pending(s, t), Carried(t.tiles), t.tiles != [], InFire(s, i), true);
      TileKeeps(t.tiles, Tile(Open(t.departures) + 1, Next(s, i).acct.count, InFire(s, i)));
    }
  }

  lemma LengthKeeps(s: Regs, t: Trace, i: Inputs)
    requires LengthLaw(t)
    ensures LengthLaw(Observe(t, s, i))
  {
    OpenGrows(t.departures, Departure(s.out.data, s.out.last));
  }

  lemma StepKeeps(m: Machine, i: Inputs)
    requires Inv(m)
    ensures Inv(Step(m, i))
  {
    WriteKeeps(m.s.wr, m.wl, i.w);
    ReadKeeps(m.s.rd, m.rl, i.r, View(m.s, i.r.araddr));
    StreamKeeps(m.s, m.t, i);
    CountKeeps(m.s, m.t, i);
    FinishedTile(m.s, m.t, i);
    LengthKeeps(m.s, m.t, i);
  }

  lemma ResetKeeps(w: WriteRegs)
    requires WriteLaw(w, NO_WRITES)
    ensures Inv(INITIAL.(s := RESET.(wr := w)))
  {
  }

  // ---------------------------------------------------------------------------
  // The module itself
  // ---------------------------------------------------------------------------

  class ReluAxi {
    const wr: WriteChannel
    const rd: ReadChannel
    var ctrlReg: Lanes
    var slopeReg: Byte
    var outValidQ: bool
    var outLastQ: bool
    var outDataQ: int
    var busyQ: bool
    var doneQ: bool
    var beatsQ: nat
    var countQ: nat
    ghost var trace: Trace

    function Registers(): Regs
      reads this, wr, rd
    {
      Regs(wr.View(), rd.View(), ctrlReg, slopeReg, Out(outValidQ, outLastQ, outDataQ),
           Account(busyQ, doneQ, beatsQ, countQ))
    }

    ghost function Model(): Machine
      reads this, wr, rd
    {
      Machine(Registers(), trace, wr.log, rd.log)
    }

    /** Everything that holds in every state the module can reach. */
    ghost predicate Valid()
      reads this, wr, rd
    {
      Inv(Model())
    }

    constructor ()
      ensures Valid() && Model() == INITIAL
      ensures fresh(wr) && fresh(rd)
    {
      wr := new WriteChannel();
      rd := new ReadChannel();
      ctrlReg, slopeReg := CTRL_RESET, SLOPE_RESET;
      outValidQ, outLastQ, outDataQ := false, false, 0;
      busyQ, doneQ, beatsQ, countQ, trace := false, false, 0, 0, NO_BEATS;
      new;
      ResetKeeps(WRITE_RESET);
      assert Model() == INITIAL;
    }

    method Reset()
      modifies this, wr, rd
      ensures Valid()
      ensures Registers() == RESET.(wr := WriteRegs(false, false, false, old(wr.awAddr), old(wr.wLoad)))
      ensures trace == NO_BEATS && wr.log == NO_WRITES && rd.log == NO_READS
    {
      wr.Reset();
      rd.Reset();
      ctrlReg, slopeReg := CTRL_RESET, SLOPE_RESET;
      outValidQ, outLastQ, outDataQ := false, false, 0;
      busyQ, doneQ, beatsQ, countQ, trace := false, false, 0, 0, NO_BEATS;
      ResetKeeps(wr.View());
      assert Model() == INITIAL.(s := RESET.(wr := wr.View()));
    }

    /** The writable registers' clocked block. */
    method TickControl(commit: Option<Write>)
      modifies `ctrlReg, `slopeReg
      ensures ctrlReg == CtrlNext(old(ctrlReg), commit)
      ensures slopeReg == SlopeNext(old(slopeReg), commit)
    {
      if commit.Some? && commit.value.addr == REG_CTRL {
        ctrlReg := ApplyStrobes(ctrlReg, commit.value.load, CTRL_KEEP);
      }
      if commit.Some? && commit.value.addr == REG_SLOPE && commit.value.load.strb[0] {
        slopeReg := commit.value.load.data[0];
      }
    }

    /** The output register's and the tile accounting's clocked blocks. */
    method TickStream(inFire: bool, outFire: bool, activated: int, last: bool)
      modifies `outValidQ, `outLastQ, `outDataQ, `busyQ, `doneQ, `beatsQ, `countQ
      ensures Out(outValidQ, outLastQ, outDataQ)
              == OutNext(Out(old(outValidQ), old(outLastQ), old(outDataQ)), inFire, outFire, activated, last)
      ensures Account(busyQ, doneQ, beatsQ, countQ)
              == AccountNext(Account(old(busyQ), old(doneQ), old(beatsQ), old(countQ)), inFire,
                             outFire && old(outLastQ))
    {
      var tileDone := outFire && outLastQ;
      var seen := (beatsQ + 1) % COUNT_MOD;
      var beats := beatsQ;
      if inFire {
        beatsQ := seen;
        if !busyQ {
          busyQ, doneQ := true, false;
        }
      }
      if tileDone {
        busyQ, doneQ, countQ, beatsQ := false, true, if inFire then seen else beats, 0;
      }
      if inFire {
        outValidQ, outLastQ, outDataQ := true, last, activated;
      } else if outFire {
        outValidQ, outLastQ := false, false;
      }
    }

    /** All the clocked blocks on one edge. */
    method Clock(i: Inputs) returns (tready: bool)
      requires wr.Valid() && rd.Valid()
      modifies this, wr, rd
      ensures tready == Ready(old(Registers()), i)
      ensures Registers() == Next(old(Registers()), i)
      ensures trace == old(trace)
      ensures wr.log == WriteObserve(old(wr.log), old(wr.View()), i.w)
      ensures rd.log == ReadObserve(old(rd.log), old(rd.View()), i.r, View(old(Registers()), i.r.araddr))
    {
      hide Unit, View, CtrlNext, SlopeNext, OutNext, AccountNext, WriteNext, ReadNext, WriteLaw, WriteObserve, Commit;
      tready := ctrlReg[0] % 2 == 1 && (!outValidQ || i.mready);
      var activated := Unit(DATA_W, SLOPE_W, Operand(i), slopeReg);
      var view := View(Registers(), i.r.araddr);
      var commit := TickPorts(wr, rd, i.w, i.r, view);
      TickControl(commit);
      TickStream(i.tvalid && tready, outValidQ && i.mready, activated, i.tlast);
    }

    method Tick(i: Inputs) returns (tready: bool)
      requires Valid()
      modifies this, wr, rd
      ensures Valid()
      ensures tready == Ready(old(Registers()), i)
      ensures Model() == Step(old(Model()), i)
    {
      ghost var before := Model();
      tready := Clock(i);
      trace := Observe(trace, before.s, i);
      assert Model() == Step(before, i);
      StepKeeps(before, i);
    }
  }
}
