/** The AXI4-Lite slave that both accelerators carry: write and read channels, one
    transaction at a time each, address and data accepted in either order. */
module AxiLite {
  import opened Words
  import opened Wrappers

  // ---------------------------------------------------------------------------
  // Write channel
  // ---------------------------------------------------------------------------

  /** The master's side of AW, W and B in one cycle. */
  datatype WriteIn = WriteIn(awvalid: bool, awaddr: Byte, wvalid: bool, wdata: Lanes, wstrb: Strobes, bready: bool)

  datatype Payload = Payload(data: Lanes, strb: Strobes)

  datatype Write = Write(addr: Byte, load: Payload)

  datatype WriteRegs = WriteRegs(awPend: bool, wPend: bool, bvalid: bool, awAddr: Byte, wLoad: Payload)

  const WRITE_RESET := WriteRegs(false, false, false, 0, Payload([0, 0, 0, 0], [false, false, false, false]))

  predicate AwFire(c: WriteRegs, i: WriteIn) { i.awvalid && !c.awPend && !c.bvalid }

  predicate WFire(c: WriteRegs, i: WriteIn) { i.wvalid && !c.wPend && !c.bvalid }

  /** The write applied in this cycle, if its second half is here. */
  function Commit(c: WriteRegs, i: WriteIn): Option<Write> {
    if (c.awPend || AwFire(c, i)) && (c.wPend || WFire(c, i)) then
      Some(Write(if c.awPend then c.awAddr else i.awaddr,
                 if c.wPend then c.wLoad else Payload(i.wdata, i.wstrb)))
    else None
  }

  function WriteNext(c: WriteRegs, i: WriteIn): WriteRegs {
    var commit := Commit(c, i).Some?;
    WriteRegs(!commit && (c.awPend || AwFire(c, i)),
              !commit && (c.wPend || WFire(c, i)),
              if c.bvalid then !i.bready else commit,
              if AwFire(c, i) then i.awaddr else c.awAddr,
              if WFire(c, i) then Payload(i.wdata, i.wstrb) else c.wLoad)
  }

  /** Everything that has crossed the three handshakes, and every write applied, in order. */
  datatype WriteLog = WriteLog(aws: seq<Byte>, ws: seq<Payload>, commits: seq<Write>, bs: nat)

  const NO_WRITES := WriteLog([], [], [], 0)

  function WriteObserve(l: WriteLog, c: WriteRegs, i: WriteIn): WriteLog {
    WriteLog(if AwFire(c, i) then l.aws + [i.awaddr] else l.aws,
             if WFire(c, i) then l.ws + [Payload(i.wdata, i.wstrb)] else l.ws,
             if Commit(c, i).Some? then l.commits + [Commit(c, i).value] else l.commits,
             if c.bvalid && i.bready then l.bs + 1 else l.bs)
  }

  /** The k-th write applied is the k-th address with the k-th data, whichever came first;
      each is answered once, after both of its halves; and at most one is outstanding. */
  ghost predicate WriteLaw(c: WriteRegs, l: WriteLog) {
    && !(c.awPend && c.wPend) && !(c.bvalid && (c.awPend || c.wPend))
    && |l.aws| == |l.commits| + (if c.awPend then 1 else 0)
    && |l.ws| == |l.commits| + (if c.wPend then 1 else 0)
    && |l.commits| == l.bs + (if c.bvalid then 1 else 0)
    && (forall k | 0 <= k < |l.commits| :: l.commits[k] == Write(l.aws[k], l.ws[k]))
    && (c.awPend ==> c.awAddr == l.aws[|l.aws| - 1])
    && (c.wPend ==> c.wLoad == l.ws[|l.ws| - 1])
  }

  /** What crosses the handshakes in one cycle: an address when none is held and no response is outstanding,
      data likewise, a response when it is taken; and the write whose second half this is. */
  lemma WriteHandshakes(c: WriteRegs, l: WriteLog, i: WriteIn)
    ensures var n := WriteObserve(l, c, i);
            && n.aws == l.aws + (if i.awvalid && !c.awPend && !c.bvalid then [i.awaddr] else [])
            && n.ws == l.ws + (if i.wvalid && !c.wPend && !c.bvalid then [Payload(i.wdata, i.wstrb)] else [])
            && n.bs == l.bs + (if c.bvalid && i.bready then 1 else 0)
            && |n.commits| == |l.commits| + if (c.awPend || |n.aws| > |l.aws|) && (c.wPend || |n.ws| > |l.ws|) then 1
                                            else 0
  {
  }

  lemma WriteKeeps(c: WriteRegs, l: WriteLog, i: WriteIn)
    requires WriteLaw(c, l)
    ensures WriteLaw(WriteNext(c, i), WriteObserve(l, c, i))
    ensures Commit(c, i).Some? ==> !c.bvalid && WriteNext(c, i).bvalid
  {
  }

  /** The channel after a whole run of cycles from reset, with its log. */
  function WriteRun(ins: seq<WriteIn>): (WriteRegs, WriteLog) {
    if ins == [] then (WRITE_RESET, NO_WRITES)
    else
      var (c, l) := WriteRun(ins[..|ins| - 1]);
      (WriteNext(c, ins[|ins| - 1]), WriteObserve(l, c, ins[|ins| - 1]))
  }

  /** Every run of the write channel obeys the law, whatever the arrival order and stalls. */
  lemma {:induction false} EveryWriteRun(ins: seq<WriteIn>)
    ensures var (c, l) := WriteRun(ins); WriteLaw(c, l)
    ensures var (c, l) := WriteRun(ins);
            && (if c.awPend then 1 else 0) + (if c.wPend then 1 else 0) + (if c.bvalid then 1 else 0) <= 1
            && l.bs <= |l.commits| <= l.bs + 1 && |l.commits| <= |l.aws| && |l.commits| <= |l.ws|
            && (|l.commits| == |l.aws| || |l.commits| == |l.ws|)
            && forall k | 0 <= k < |l.commits| :: l.commits[k].addr == l.aws[k] && l.commits[k].load == l.ws[k]
  {
    if ins == [] {
    } else {
      EveryWriteRun(ins[..|ins| - 1]);
      var (c, l) := WriteRun(ins[..|ins| - 1]);
      WriteKeeps(c, l, ins[|ins| - 1]);
    }
  }

  class WriteChannel {
    var awPend: bool
    var wPend: bool
    var bvalid: bool
    var awAddr: Byte
    var wLoad: Payload
    ghost var log: WriteLog

    ghost predicate Valid()
      reads this
    {
      WriteLaw(View(), log)
    }

    function View(): WriteRegs
      reads this
    {
      WriteRegs(awPend, wPend, bvalid, awAddr, wLoad)
    }

    constructor ()
      ensures Valid() && View() == WRITE_RESET && log == NO_WRITES
    {
      awPend, wPend, bvalid := false, false, false;
      awAddr, wLoad, log := 0, WRITE_RESET.wLoad, NO_WRITES;
    }

    /** Reset drops whatever was pending; the captured address and data are not reset. */
    method Reset()
      modifies this
      ensures Valid() && log == NO_WRITES
      ensures View() == old(View()).(awPend := false, wPend := false, bvalid := false)
    {
      awPend, wPend, bvalid, log := false, false, false, NO_WRITES;
    }

    method Tick(i: WriteIn) returns (commit: Option<Write>)
      requires Valid()
      modifies this
      ensures Valid()
      ensures commit == Commit(old(View()), i)
      ensures View() == WriteNext(old(View()), i)
      ensures log == WriteObserve(old(log), old(View()), i)
    {
      ghost var before, seen := View(), log;
      var awFire := i.awvalid && !awPend && !bvalid;
      var wFire := i.wvalid && !wPend && !bvalid;
      var answered := bvalid && i.bready;
      commit := None;
      if (awPend || awFire) && (wPend || wFire) {
        commit := Some(Write(if awPend then awAddr else i.awaddr,
                             if wPend then wLoad else Payload(i.wdata, i.wstrb)));
      }
      if awFire { awAddr := i.awaddr; }
      if wFire { wLoad := Payload(i.wdata, i.wstrb); }
      if commit.Some? {
        awPend, wPend, bvalid := false, false, true;
      } else {
        if awFire { awPend := true; }
        if wFire { wPend := true; }
      }
      if answered { bvalid := false; }
      log := WriteObserve(seen, before, i);
      WriteKeeps(before, seen, i);
    }
  }

  // ---------------------------------------------------------------------------
  // Read channel
  // ---------------------------------------------------------------------------

  datatype ReadIn = ReadIn(arvalid: bool, araddr: Byte, rready: bool)

  datatype ReadRegs = ReadRegs(rvalid: bool, rdata: nat)

  const READ_RESET := ReadRegs(false, 0)

  predicate ArFire(c: ReadRegs, i: ReadIn) { i.arvalid && !c.rvalid }

  /** view is what the register map shows at the address presented in this cycle. */
  function ReadNext(c: ReadRegs, i: ReadIn, view: nat): ReadRegs {
    if ArFire(c, i) then ReadRegs(true, view)
    else if c.rvalid && i.rready then c.(rvalid := false)
    else c
  }

  /** What each accepted read was shown, and what each read response carried. */
  datatype ReadLog = ReadLog(shown: seq<nat>, answers: seq<nat>)

  const NO_READS := ReadLog([], [])

  function ReadObserve(l: ReadLog, c: ReadRegs, i: ReadIn, view: nat): ReadLog {
    ReadLog(if ArFire(c, i) then l.shown + [view] else l.shown,
            if c.rvalid && i.rready then l.answers + [c.rdata] else l.answers)
  }

  /** Responses are the register views of the accept cycles, one each and in order; the one
      still waiting is held however long it is stalled. */
  ghost predicate ReadLaw(c: ReadRegs, l: ReadLog) {
    l.shown == l.answers + if c.rvalid then [c.rdata] else []
  }

  lemma ReadKeeps(c: ReadRegs, l: ReadLog, i: ReadIn, view: nat)
    requires ReadLaw(c, l)
    ensures ReadLaw(ReadNext(c, i, view), ReadObserve(l, c, i, view))
    ensures c.rvalid && !i.rready ==> ReadNext(c, i, view) == c
  {
  }

  /** The read channel after a run of cycles, each with the view its address would be shown. */
  function ReadRun(ins: seq<(ReadIn, nat)>): (ReadRegs, ReadLog) {
    if ins == [] then (READ_RESET, NO_READS)
    else
      var (c, l) := ReadRun(ins[..|ins| - 1]);
      var (i, view) := ins[|ins| - 1];
      (ReadNext(c, i, view), ReadObserve(l, c, i, view))
  }

  lemma {:induction false} EveryReadRun(ins: seq<(ReadIn, nat)>)
    ensures var (c, l) := ReadRun(ins); ReadLaw(c, l)
    ensures var (c, l) := ReadRun(ins);
            && |l.answers| <= |l.shown| <= |l.answers| + 1 && (c.rvalid <==> |l.shown| == |l.answers| + 1)
            && l.answers == l.shown[..|l.answers|] && (c.rvalid ==> c.rdata == l.shown[|l.answers|])
  {
    if ins == [] {
    } else {
      EveryReadRun(ins[..|ins| - 1]);
      var (c, l) := ReadRun(ins[..|ins| - 1]);
      ReadKeeps(c, l, ins[|ins| - 1].0, ins[|ins| - 1].1);
    }
  }

  class ReadChannel {
    var rvalid: bool
    var rdata: nat
    ghost var log: ReadLog

    ghost predicate Valid()
      reads this
    {
      ReadLaw(View(), log)
    }

    function View(): ReadRegs
      reads this
    {
      ReadRegs(rvalid, rdata)
    }

    constructor ()
      ensures Valid() && View() == READ_RESET && log == NO_READS
    {
      rvalid, rdata, log := false, 0, NO_READS;
    }

    method Reset()
      modifies this
      ensures Valid() && View() == READ_RESET && log == NO_READS
    {
      rvalid, rdata, log := false, 0, NO_READS;
    }

    method Tick(i: ReadIn, view: nat)
      requires Valid()
      modifies this
      ensures Valid()
      ensures View() == ReadNext(old(View()), i, view)
      ensures log == ReadObserve(old(log), old(View()), i, view)
    {
      ReadKeeps(View(), log, i, view);
      log := ReadObserve(log, View(), i, view);
      if i.arvalid && !rvalid {
        rdata, rvalid := view, true;
      } else if rvalid && i.rready {
        rvalid := false;
      }
    }
  }

  /** Both channels on one edge. */
  method TickPorts(wr: WriteChannel, rd: ReadChannel, w: WriteIn, r: ReadIn, view: nat)
    returns (commit: Option<Write>)
    requires wr.Valid() && rd.Valid()
    modifies wr, rd
    ensures wr.Valid() && rd.Valid()
    ensures commit == Commit(old(wr.View()), w)
    ensures wr.View() == WriteNext(old(wr.View()), w)
    ensures rd.View() == ReadNext(old(rd.View()), r, view)
    ensures wr.log == WriteObserve(old(wr.log), old(wr.View()), w)
    ensures rd.log == ReadObserve(old(rd.log), old(rd.View()), r, view)
  {
    commit := wr.Tick(w);
    rd.Tick(r, view);
  }

  // ---------------------------------------------------------------------------
  // Byte strobes
  // ---------------------------------------------------------------------------

  /** A strobed write to a register whose low keep bits of lane 0 are storage and whose other
      bits swallow writes. */
  function StrobeMerge(held: Lanes, load: Payload, keep: int): (r: Lanes)
    requires 0 < keep <= 256
    ensures forall k | 0 <= k < 4 :: !load.strb[k] ==> r[k] == held[k]
    ensures load.strb[0] ==> r[0] == load.data[0] % keep
    ensures forall k | 1 <= k < 4 :: load.strb[k] ==> r[k] == 0
  {
    seq(4, k requires 0 <= k < 4 =>
      if load.strb[k] then (if k == 0 then load.data[0] % keep else 0) else held[k])
  }

  /** The write loop over byte lanes. */
  method ApplyStrobes(held: Lanes, load: Payload, keep: int) returns (r: Lanes)
    requires 0 < keep <= 256
    ensures r == StrobeMerge(held, load, keep)
  {
    r := held;
    var k := 0;
    while k < 4
      invariant 0 <= k <= 4
      invariant forall j | 0 <= j < k :: r[j] == StrobeMerge(held, load, keep)[j]
      invariant forall j | k <= j < 4 :: r[j] == held[j]
    {
      if load.strb[k] {
        r := r[k := if k == 0 then load.data[k] % keep else load.data[k] % 1];
      }
      k := k + 1;
    }
  }
}
