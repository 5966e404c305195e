/** sparse_cnn_axi: the multiply-accumulate element behind an AXI4-Lite register map and an
    AXI4-Stream of operand pairs. */
module SparseCnnAxi {
  import opened Words
  import opened Wrappers
  import opened AxiLite
  import opened SparseMac

  const ID_VALUE := 0x5350_0100
  const REG_ID: Byte := 0x00
  const REG_CTRL: Byte := 0x04
  const REG_STATUS: Byte := 0x08
  const REG_ACC: Byte := 0x0C
  const REG_SKIP: Byte := 0x10

  /** START, CLEAR and EN are bits 0, 1 and 2; nothing above them is storage. */
  const CTRL_KEEP := 8
  const CTRL_RESET: Lanes := [4, 0, 0, 0]

  datatype TileState = Idle | Clear | Run | Latch

  /** Every input of one clock cycle. */
  datatype Inputs = Inputs(w: WriteIn, r: ReadIn, tvalid: bool, tdata: nat, tlast: bool)

  datatype Regs = Regs(wr: WriteRegs, rd: ReadRegs, ctrl: Lanes, state: TileState, done: bool,
                       acc: int, skip: nat, pe: Pe)

  const RESET := Regs(WRITE_RESET, READ_RESET, CTRL_RESET, Idle, false, 0, 0, Pe(0, 0, false))

  // ---------------------------------------------------------------------------
  // Combinational signals
  // ---------------------------------------------------------------------------

  predicate StartPulse(s: Regs) { s.ctrl[0] % 2 == 1 }

  predicate ClearPulse(s: Regs) { s.ctrl[0] / 2 % 2 == 1 }

  predicate Enabled(s: Regs) { s.ctrl[0] / 4 % 2 == 1 }

  predicate CtrlWrite(c: Option<Write>) { c.Some? && c.value.addr == REG_CTRL }

  /** A committed write that strobes lane 0 of CTRL with bit b (1, 2 or 4) set. */
  predicate Asks(c: Option<Write>, b: int)
    requires b > 0
  {
    CtrlWrite(c) && c.value.load.strb[0] && c.value.load.data[0] / b % 2 == 1
  }

  predicate CommitsStart(s: Regs, i: Inputs) { Asks(Commit(s.wr, i.w), 1) }

  predicate CommitsClear(s: Regs, i: Inputs) { Asks(Commit(s.wr, i.w), 2) }

  predicate Ready(s: Regs) { s.state == Run && Enabled(s) && !ClearPulse(s) }

  predicate Beat(s: Regs, i: Inputs) { i.tvalid && Ready(s) }

  predicate Busy(s: Regs, i: Inputs) { s.state != Idle || StartPulse(s) || CommitsStart(s, i) }

  predicate Done(s: Regs, i: Inputs) { s.done && !StartPulse(s) && !CommitsStart(s, i) }

  function Unsigned32(x: int): nat { x % WORD }

  /** What a read accepted in this cycle is shown. */
  function View(s: Regs, i: Inputs, addr: Byte): nat {
    if addr == REG_ID then ID_VALUE
    else if addr == REG_CTRL then Num(s.ctrl)
    else if addr == REG_STATUS then (if Busy(s, i) then 1 else 0) + (if Done(s, i) then 2 else 0)
    else if addr == REG_ACC then Unsigned32(s.acc)
    else if addr == REG_SKIP then s.skip
    else 0
  }

  // ---------------------------------------------------------------------------
  // One clock, every next value from the values before the edge
  // ---------------------------------------------------------------------------

  function CtrlNext(ctrl: Lanes, c: Option<Write>): Lanes {
    var settled := ctrl[0 := ctrl[0] - ctrl[0] % 4];
    if CtrlWrite(c) then StrobeMerge(settled, c.value.load, CTRL_KEEP) else settled
  }

  function StateNext(state: TileState, startPulse: bool, last: bool): TileState {
    match state
    case Idle => if startPulse then Clear else Idle
    case Clear => Run
    case Run => if last then Latch else Run
    case Latch => Idle
  }

  function DoneNext(state: TileState, done: bool, startPulse: bool): bool {
    state == Latch || (done && !(state == Idle && startPulse))
  }

  /** A result register: an explicit clear wins over a latch in the same cycle. */
  function ResultNext(state: TileState, clearPulse: bool, fromPe: int, held: int): int {
    if clearPulse then 0 else if state == Latch then fromPe else held
  }

  function Next(s: Regs, i: Inputs): Regs {
    var peClear := s.state == Clear || ClearPulse(s);
    Regs(WriteNext(s.wr, i.w),
         ReadNext(s.rd, i.r, View(s, i, i.r.araddr)),
         CtrlNext(s.ctrl, Commit(s.wr, i.w)),
         StateNext(s.state, StartPulse(s), Beat(s, i) && i.tlast),
         DoneNext(s.state, s.done, StartPulse(s)),
         ResultNext(s.state, ClearPulse(s), s.pe.acc, s.acc),
         ResultNext(s.state, ClearPulse(s), s.pe.skip, s.skip),
         PeNext(s.pe, Beat(s, i) || peClear, peClear, Beat(s, i), Unpack(i.tdata)))
  }

  // ---------------------------------------------------------------------------
  // The reference: what the two AXI ports have said, with no clock and no registers
  // ---------------------------------------------------------------------------

  /** running: a START was taken and its last beat has not been accepted.
      tile: the beats of the current or last tile. kept: those since the last CLEAR.
      result: kept of the last tile to finish, or nothing once a CLEAR came after it.
      previous: what result was before that tile finished. */
  datatype Tally = Tally(running: bool, tile: seq<Pair>, kept: seq<Pair>, result: seq<Pair>,
                         previous: seq<Pair>, tiles: nat, started: bool)

  const FRESH := Tally(false, [], [], [], [], 0, false)

  function AfterBeat(t: Tally, p: Pair, last: bool): Tally {
    var u := t.(tile := t.tile + [p], kept := t.kept + [p]);
    if last then u.(running := false, result := u.kept, previous := t.result, tiles := t.tiles + 1) else u
  }

  function AfterClear(t: Tally): Tally { t.(kept := [], result := [], previous := []) }

  function AfterStart(t: Tally): Tally { t.(running := true, tile := [], kept := []) }

  /** Within one cycle a beat comes first, then a CLEAR, then a START; a START while a tile is
      running is ignored. */
  function Observe(t: Tally, s: Regs, i: Inputs): Tally {
    var a := if Beat(s, i) then AfterBeat(t, Unpack(i.tdata), i.tlast) else t;
    var b := if CommitsClear(s, i) then AfterClear(a) else a;
    if CommitsStart(s, i) then (if t.running then b else AfterStart(b)).(started := true) else b
  }

  // ---------------------------------------------------------------------------
  // What every reachable state satisfies
  // ---------------------------------------------------------------------------

  /** Only the three defined bits are storage, and a pulse is alone: the response to the write
      that raised it is still outstanding. */
  ghost predicate CtrlLaw(s: Regs) {
    && s.ctrl[0] < CTRL_KEEP && s.ctrl[1] == s.ctrl[2] == s.ctrl[3] == 0
    && (StartPulse(s) || ClearPulse(s) ==> s.wr.bvalid)
  }

  predicate StartPending(s: Regs) { s.state == Idle && StartPulse(s) }

  ghost predicate PhaseLaw(s: Regs, t: Tally) {
    && (t.running <==> s.state == Clear || s.state == Run || StartPending(s))
    && (s.done ==> s.state == Idle)
    && (s.done || s.state == Latch ==> t.tiles > 0)
    && (t.started ==> s.done || s.state != Idle || StartPulse(s))
  }

  /** The element still has to see a clear that the ports have already been told of. */
  predicate Unsettled(s: Regs) { ClearPulse(s) || s.state == Clear || StartPending(s) }

  ghost predicate ElementLaw(s: Regs, t: Tally) {
    if Unsettled(s) then t.kept == [] else Holds(s.pe.acc, s.pe.skip, t.kept)
  }

  ghost predicate ResultLaw(s: Regs, t: Tally) {
    && (s.state == Latch ==> t.kept == t.result)
    && (if ClearPulse(s) then t.result == [] && t.previous == []
        else Holds(s.acc, s.skip, if s.state == Latch then t.previous else t.result))
    && (s.state == Idle ==> s.acc == s.pe.acc && s.skip == s.pe.skip)
  }

  ghost predicate IsTail(part: seq<Pair>, whole: seq<Pair>) {
    |part| <= |whole| && part == whole[|whole| - |part|..]
  }

  ghost predicate TileLaw(t: Tally) {
    && IsTail(t.kept, t.tile)
    && (!t.running ==> IsTail(t.result, t.tile))
    && ArePairs(t.tile) && ArePairs(t.kept) && ArePairs(t.result) && ArePairs(t.previous)
  }

  datatype Machine = Machine(s: Regs, t: Tally, wl: WriteLog, rl: ReadLog)

  const INITIAL := Machine(RESET, FRESH, NO_WRITES, NO_READS)

  ghost predicate Inv(m: Machine) {
    && WriteLaw(m.s.wr, m.wl) && ReadLaw(m.s.rd, m.rl)
    && CtrlLaw(m.s) && PhaseLaw(m.s, m.t)
    && ElementLaw(m.s, m.t) && ResultLaw(m.s, m.t) && TileLaw(m.t)
  }

  function Step(m: Machine, i: Inputs): Machine {
    Machine(Next(m.s, i), Observe(m.t, m.s, i), WriteObserve(m.wl, m.s.wr, i.w),
            ReadObserve(m.rl, m.s.rd, i.r, View(m.s, i, i.r.araddr)))
  }

  /** Pulse law: START and CLEAR are high after exactly the commits that ask for them, never in
      two cycles running, and EN holds between the writes that strobe it. */
  lemma PulseLaw(s: Regs, l: WriteLog, i: Inputs)
    requires CtrlLaw(s) && WriteLaw(s.wr, l)
    ensures var n := Next(s, i);
            && CtrlLaw(n)
            && (StartPulse(n) <==> CommitsStart(s, i))
            && (ClearPulse(n) <==> CommitsClear(s, i))
            && (StartPulse(s) || ClearPulse(s) ==> Commit(s.wr, i.w).None? && !StartPulse(n) && !ClearPulse(n))
            && (Enabled(n) <==> if CtrlWrite(Commit(s.wr, i.w)) && Commit(s.wr, i.w).value.load.strb[0]
                                then Asks(Commit(s.wr, i.w), 4) else Enabled(s))
  {
    WriteKeeps(s.wr, l, i.w);
    var c := Commit(s.wr, i.w);
    var n := CtrlNext(s.ctrl, c);
    if CtrlWrite(c) && c.value.load.strb[0] {
      assert n[0] == c.value.load.data[0] % 8;
      LowBits(c.value.load.data[0]);
    } else {
      assert n[0] == s.ctrl[0] - s.ctrl[0] % 4;
    }
  }

  lemma LowBits(b: Byte)
    ensures b % 8 % 2 == b % 2 && b % 8 / 2 % 2 == b / 2 % 2 && b % 8 / 4 % 2 == b / 4 % 2
  {
    var q, r := b / 8, b % 8;
    assert b == 8 * q + r;
    assert b / 4 == 2 * q + r / 4;
    assert b / 2 == 4 * q + r / 2;
  }

  lemma PhaseKeeps(s: Regs, l: WriteLog, t: Tally, i: Inputs)
    requires CtrlLaw(s) && WriteLaw(s.wr, l) && PhaseLaw(s, t)
    ensures PhaseLaw(Next(s, i), Observe(t, s, i))
  {
    PulseLaw(s, l, i);
  }

  lemma ElementKeeps(s: Regs, l: WriteLog, t: Tally, i: Inputs)
    requires CtrlLaw(s) && WriteLaw(s.wr, l) && PhaseLaw(s, t) && ElementLaw(s, t)
    ensures ElementLaw(Next(s, i), Observe(t, s, i))
  {
    hide Holds, View, StrobeMerge, CtrlNext;
    PulseLaw(s, l, i);
    HoldsNothing();
    if Beat(s, i) {
      MacStep(s.pe, t.kept, Unpack(i.tdata));
    }
  }

  lemma ResultKeeps(s: Regs, l: WriteLog, t: Tally, i: Inputs)
    requires CtrlLaw(s) && WriteLaw(s.wr, l) && PhaseLaw(s, t) && ElementLaw(s, t) && ResultLaw(s, t)
    ensures ResultLaw(Next(s, i), Observe(t, s, i))
  {
    PulseLaw(s, l, i);
  }

  lemma TileKeeps(s: Regs, t: Tally, i: Inputs)
    requires PhaseLaw(s, t) && TileLaw(t)
    ensures TileLaw(Observe(t, s, i))
  {
    var p := Unpack(i.tdata);
    var a := if Beat(s, i) then AfterBeat(t, p, i.tlast) else t;
    if Beat(s, i) {
      TailGrows(t.kept, t.tile, p);
    }
    assert TileLaw(a);
    var b := if CommitsClear(s, i) then AfterClear(a) else a;
    assert TileLaw(b);
  }

  lemma TailGrows(part: seq<Pair>, whole: seq<Pair>, p: Pair)
    requires IsTail(part, whole) && ArePairs(part) && ArePairs(whole) && IsPair(p)
    ensures IsTail(part + [p], whole + [p]) && ArePairs(part + [p]) && ArePairs(whole + [p])
  {
  }

  lemma StepKeeps(m: Machine, i: Inputs)
    requires Inv(m)
    ensures Inv(Step(m, i))
  {
    WriteKeeps(m.s.wr, m.wl, i.w);
    ReadKeeps(m.s.rd, m.rl, i.r, View(m.s, i, i.r.araddr));
    PulseLaw(m.s, m.wl, i);
    PhaseKeeps(m.s, m.wl, m.t, i);
    ElementKeeps(m.s, m.wl, m.t, i);
    ResultKeeps(m.s, m.wl, m.t, i);
    TileKeeps(m.s, m.t, i);
  }

  lemma ResetKeeps(w: WriteRegs)
    requires WriteLaw(w, NO_WRITES)
    ensures Inv(INITIAL.(s := RESET.(wr := w)))
  {
    hide Holds;
    HoldsNothing();
  }

  // ---------------------------------------------------------------------------
  // The module itself
  // ---------------------------------------------------------------------------

  class SparseCnnAxi {
    const wr: WriteChannel
    const rd: ReadChannel
    const pe: SparseMacPe
    var ctrlReg: Lanes
    var state: TileState
    var doneQ: bool
    var accQ: int
    var skipQ: nat
    ghost var tally: Tally

    function Registers(): Regs
      reads this, wr, rd, pe
    {
      Regs(wr.View(), rd.View(), ctrlReg, state, doneQ, accQ, skipQ, pe.View())
    }

    ghost function Model(): Machine
      reads this, wr, rd, pe
    {
      Machine(Registers(), tally, wr.log, rd.log)
    }

    /** Everything that holds in every state the module can reach. */
    ghost predicate Valid()
      reads this, wr, rd, pe
    {
      Inv(Model())
    }

    constructor ()
      ensures Valid() && Model() == INITIAL
      ensures fresh(wr) && fresh(rd) && fresh(pe)
    {
      wr := new WriteChannel();
      rd := new ReadChannel();
      pe := new SparseMacPe();
      ctrlReg, state, doneQ, accQ, skipQ, tally := CTRL_RESET, Idle, false, 0, 0, FRESH;
      new;
      assert wr.View() == WRITE_RESET;
      assert rd.View() == READ_RESET;
      assert pe.View() == Pe(0, 0, false);
      assert Registers() == RESET;
      assert Model() == INITIAL;
      ResetKeeps(WRITE_RESET);
    }

    /** A cycle with reset asserted: the tile, its results and every pending transaction go. */
    method Reset()
      modifies this, wr, rd, pe
      ensures Valid()
      ensures Registers() == RESET.(wr := WriteRegs(false, false, false, old(wr.awAddr), old(wr.wLoad)))
      ensures tally == FRESH && wr.log == NO_WRITES && rd.log == NO_READS
    {
      wr.Reset();
      rd.Reset();
      pe.Reset();
      ctrlReg, state, doneQ, accQ, skipQ, tally := CTRL_RESET, Idle, false, 0, 0, FRESH;
      ResetKeeps(wr.View());
      assert Model() == INITIAL.(s := RESET.(wr := wr.View()));
    }

    /** The control register's clocked block. */
    method TickCtrl(commit: Option<Write>)
      modifies `ctrlReg
      ensures ctrlReg == CtrlNext(old(ctrlReg), commit)
    {
      ctrlReg := ctrlReg[0 := ctrlReg[0] - ctrlReg[0] % 4];
      if commit.Some? && commit.value.addr == REG_CTRL {
        ctrlReg := ApplyStrobes(ctrlReg, commit.value.load, CTRL_KEEP);
      }
    }

    /** The tile sequencer's clocked block, on signals sampled before the edge. */
    method TickTile(startPulse: bool, clearPulse: bool, last: bool, peAcc: int, peSkip: nat)
      modifies `state, `doneQ, `accQ, `skipQ
      ensures state == StateNext(old(state), startPulse, last)
      ensures doneQ == DoneNext(old(state), old(doneQ), startPulse)
      ensures accQ == ResultNext(old(state), clearPulse, peAcc, old(accQ))
      ensures skipQ == ResultNext(old(state), clearPulse, peSkip, old(skipQ))
    {
      match state {
        case Idle =>
          if startPulse { state, doneQ := Clear, false; }
        case Clear =>
          state := Run;
        case Run =>
          if last { state := Latch; }
        case Latch =>
          accQ, skipQ, doneQ, state := peAcc, peSkip, true, Idle;
      }
      if clearPulse {
        accQ, skipQ := 0, 0;
      }
    }

    /** Every register behind the ports on one edge. */
    method TickCore(beat: bool, p: Pair, last: bool, commit: Option<Write>)
      modifies `ctrlReg, `state, `doneQ, `accQ, `skipQ, pe
      ensures var s := old(Registers());
              var peClear := s.state == Clear || ClearPulse(s);
              && ctrlReg == CtrlNext(s.ctrl, commit)
              && state == StateNext(s.state, StartPulse(s), beat && last)
              && doneQ == DoneNext(s.state, s.done, StartPulse(s))
              && accQ == ResultNext(s.state, ClearPulse(s), s.pe.acc, s.acc)
              && skipQ == ResultNext(s.state, ClearPulse(s), s.pe.skip, s.skip)
              && pe.View() == PeNext(s.pe, beat || peClear, peClear, beat, p)
    {
      var startPulse := ctrlReg[0] % 2 == 1;
      var clearPulse := ctrlReg[0] / 2 % 2 == 1;
      var peClear := state == Clear || clearPulse;
      var peAcc, peSkip := pe.acc, pe.skipCount;
      pe.Tick(beat || peClear, peClear, beat, p.weight, p.act);
      TickCtrl(commit);
      TickTile(startPulse, clearPulse, beat && last, peAcc, peSkip);
    }

    /** All the clocked blocks on one edge. */
    method Clock(i: Inputs) returns (tready: bool)
      requires wr.Valid() && rd.Valid()
      modifies this, wr, rd, pe
      ensures tready == Ready(old(Registers()))
      ensures Registers() == Next(old(Registers()), i)
      ensures tally == old(tally)
      ensures wr.log == WriteObserve(old(wr.log), old(wr.View()), i.w)
      ensures rd.log == ReadObserve(old(rd.log), old(rd.View()), i.r, View(old(Registers()), i, i.r.araddr))
    {
      hide View, CtrlNext, StateNext, DoneNext, ResultNext, PeNext, Unpack;
      hide WriteNext, ReadNext, WriteLaw, WriteObserve, Commit;
      tready := state == Run && ctrlReg[0] / 4 % 2 == 1 && !(ctrlReg[0] / 2 % 2 == 1);
      var view := View(Registers(), i, i.r.araddr);
      var commit := TickPorts(wr, rd, i.w, i.r, view);
      TickCore(i.tvalid && tready, Unpack(i.tdata), i.tlast, commit);
    }

    method Tick(i: Inputs) returns (tready: bool)
      requires Valid()
      modifies this, wr, rd, pe
      ensures Valid()
      ensures tready == Ready(old(Registers()))
      ensures Model() == Step(old(Model()), i)
    {
      ghost var before := Model();
      tready := Clock(i);
      tally := Observe(tally, before.s, i);
      assert Model() == Step(before, i);
      StepKeeps(before, i);
    }
  }
}
