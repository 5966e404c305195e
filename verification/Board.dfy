/** The board below the driver: one accelerator, an AXI DMA channel in each direction, the tile
    buffers, and the CPU's register accesses, all on one clock. */
module Board {
  import opened Words
  import opened Wrappers
  import opened AxiLite
  import opened SparseMac
  import U = ReluUnit
  import R = ReluAxi
  import RR = ReluRuns
  import S = SparseCnnAxi
  import SR = SparseCnnRuns

  /** The accelerator in the programmable logic, with the record of what crossed its ports. */
  datatype Hw = Relu(r: R.Machine) | Sparse(c: S.Machine)

  const MAX_BEATS: nat := 4096

  function BeatBytes(hw: Hw): nat { if hw.Relu? then 1 else 2 }

  /** A DMA channel: a descriptor queued by submit, one released by issue_pending, each given by
      its length in beats, and how far the last one released has got. */
  datatype Chan = Chan(pending: Option<nat>, active: Option<nat>, moved: nat)

  const EMPTY := Chan(None, None, 0)

  predicate Vacant(c: Chan) { c.pending.None? && c.active.None? }

  datatype World = World(hw: Hw, tx: Chan, rx: Chan, txBuf: seq<Byte>, rxBuf: seq<int>, locked: bool)

  /** What the surroundings do in one cycle: whether an unfinished channel offers or takes a beat,
      any other master's read, the response handshake, and a slope_store waiting to go ahead. */
  datatype Choice = Choice(offer: bool, take: bool, r: ReadIn, bready: bool, store: Option<Byte>)

  /** What a master presents in one cycle: nothing, a read, both halves of a write, or one of them. */
  datatype Access = NoAccess | ReadOf(addr: Byte) | WriteOf(addr: Byte, value: nat)
                  | AddrOf(addr: Byte) | DataOf(value: nat)

  predicate Posts(a: Access) { a.WriteOf? || a.AddrOf? || a.DataOf? }

  function ByteAt(buf: seq<Byte>, k: nat): Byte { if k < |buf| then buf[k] else 0 }

  /** Stream beat k of a buffer: a byte for relu, a little-endian pair for sparse_cnn. */
  function RawBeat(hw: Hw, buf: seq<Byte>, k: nat): nat {
    if hw.Relu? then ByteAt(buf, k)
    else var low: int, high: int := ByteAt(buf, 2 * k), ByteAt(buf, 2 * k + 1); low + 256 * high
  }

  function Beats(hw: Hw, buf: seq<Byte>, n: nat): (bs: seq<nat>)
    ensures |bs| == n
  {
    seq(n, k requires 0 <= k < n => RawBeat(hw, buf, k))
  }

  function Remaining(c: Chan): nat {
    if c.active.Some? && c.moved < c.active.value then c.active.value - c.moved else 0
  }

  function WriteSide(a: Access, c: Choice): WriteIn {
    var addr := if a.WriteOf? || a.AddrOf? then a.addr else 0;
    var data := if a.WriteOf? || a.DataOf? then LanesOf(a.value % WORD) else [0, 0, 0, 0];
    WriteIn(a.WriteOf? || a.AddrOf?, addr, a.WriteOf? || a.DataOf?, data, [true, true, true, true], c.bready)
  }

  function ReadSide(a: Access, c: Choice): ReadIn {
    if a.ReadOf? then ReadIn(true, a.addr, c.r.rready) else c.r
  }

  function ReluInputs(w: World, a: Access, c: Choice): R.Inputs {
    R.Inputs(WriteSide(a, c), ReadSide(a, c), Remaining(w.tx) > 0 && c.offer,
             RawBeat(w.hw, w.txBuf, w.tx.moved), Remaining(w.tx) == 1, Remaining(w.rx) > 0 && c.take)
  }

  function SparseInputs(w: World, a: Access, c: Choice): S.Inputs {
    S.Inputs(WriteSide(a, c), ReadSide(a, c), Remaining(w.tx) > 0 && c.offer,
             RawBeat(w.hw, w.txBuf, w.tx.moved), Remaining(w.tx) == 1)
  }

  /** A beat the DMA receives goes to the next place in the return buffer. */
  function Store(buf: seq<int>, k: nat, y: int): seq<int> { if k < |buf| then buf[k := y] else buf }

  /** One clock of everything. */
  function Cycle(w: World, a: Access, c: Choice): World {
    match w.hw
    case Relu(m) =>
      var i := ReluInputs(w, a, c);
      var sent := if R.InFire(m.s, i) then w.tx.(moved := w.tx.moved + 1) else w.tx;
      if R.OutFire(m.s, i) then
        w.(hw := Relu(R.Step(m, i)), tx := sent, rx := w.rx.(moved := w.rx.moved + 1),
           rxBuf := Store(w.rxBuf, w.rx.moved, m.s.out.data))
      else w.(hw := Relu(R.Step(m, i)), tx := sent)
    case Sparse(m) =>
      var i := SparseInputs(w, a, c);
      var sent := if S.Beat(m.s, i) then w.tx.(moved := w.tx.moved + 1) else w.tx;
      w.(hw := Sparse(S.Step(m, i)), tx := sent)
  }

  /** A slope_store on another CPU goes ahead only when nobody holds the lock. */
  function Contend(w: World, c: Choice): Access {
    if w.hw.Relu? && c.store.Some? && !w.locked then WriteOf(R.REG_SLOPE, c.store.value) else NoAccess
  }

  /** The lock, and nothing else, keeps a waiting store off the slope register. */
  lemma ContendsIff(w: World, c: Choice)
    ensures Contend(w, c) != NoAccess <==> w.hw.Relu? && c.store.Some? && !w.locked
    ensures Contend(w, c) != NoAccess ==> Contend(w, c) == WriteOf(0x0C, c.store.value)
  {
  }

  // ---------------------------------------------------------------------------
  // What the driver may rely on
  // ---------------------------------------------------------------------------

  function Wr(hw: Hw): WriteRegs { if hw.Relu? then hw.r.s.wr else hw.c.s.wr }

  function Rd(hw: Hw): ReadRegs { if hw.Relu? then hw.r.s.rd else hw.c.s.rd }

  predicate NoOverlap(ts: seq<R.Tile>) { forall k | 0 <= k < |ts| :: !ts[k].overlap }

  /** CLEAR is never asked for and no two tiles meet in the pipeline. */
  ghost predicate Core(w: World) {
    match w.hw
    case Relu(m) => R.Inv(m) && NoOverlap(m.t.tiles) && |w.rxBuf| == MAX_BEATS
    case Sparse(m) => S.Inv(m) && !S.ClearPulse(m.s)
  }

  /** No half of a register write is waiting for the other. */
  predicate Unposted(w: World) { !Wr(w.hw).awPend && !Wr(w.hw).wPend }

  ghost predicate Sound(w: World) { Core(w) && Unposted(w) }

  /** No register write is applied in this cycle. */
  predicate Silent(w: World, a: Access, c: Choice) { Commit(Wr(w.hw), WriteSide(a, c)).None? }

  predicate Quiet(w: World) { w.tx.active.None? && w.rx.active.None? }

  /** No tile in flight, so none of an earlier one's beats can reach the next. */
  predicate Clean(w: World) { Bare(w.hw) }

  predicate Bare(hw: Hw) {
    match hw
    case Relu(m) => R.Pending(m.s, m.t) == 0
    case Sparse(m) => !m.t.running
  }

  /** One tile's run: the record when it began, its beats and the slope it began under. */
  datatype Flight = Flight(start: R.Trace, plan: seq<nat>, slope: nat)

  function Activation(raw: nat): int { Signed(raw % 256, 256) }

  function Arrivals(f: Flight, k: nat): (bs: seq<R.Arrival>)
    requires k <= |f.plan|
    ensures |bs| == k
  {
    seq(k, j requires 0 <= j < k => R.Arrival(Activation(f.plan[j]), f.slope, j + 1 == |f.plan|))
  }

  function Pairs(plan: seq<nat>): (ps: seq<Pair>)
    ensures |ps| == |plan|
  {
    seq(|plan|, j requires 0 <= j < |plan| => Unpack(plan[j]))
  }

  ghost predicate ReluOn(m: R.Machine, rxBuf: seq<int>, f: Flight, sent: nat, back: nat)
    requires sent <= |f.plan|
  {
    && back <= sent && |f.plan| <= |rxBuf|
    && m.s.slope == f.slope
    && |f.start.departures| == |f.start.arrivals| && R.Open(f.start.departures) == 0
    && m.t.arrivals == f.start.arrivals + Arrivals(f, sent)
    && |m.t.departures| == |f.start.arrivals| + back
    && m.t.departures[..|f.start.departures|] == f.start.departures
    && forall k | 0 <= k < back :: rxBuf[k] == U.Leaky(R.SLOPE_W, Activation(f.plan[k]), f.slope)
  }

  ghost predicate SparseOn(m: S.Machine, f: Flight, sent: nat)
    requires sent <= |f.plan|
  {
    && m.t.started
    && if sent < |f.plan| then m.t.running && m.t.tile == m.t.kept == Pairs(f.plan[..sent])
       else !m.t.running && m.t.result == Pairs(f.plan)
  }

  /** The tile of f is under way, its first tx.moved beats sent and rx.moved of them back. */
  ghost predicate On(w: World, f: Flight) {
    && 0 < |f.plan| <= MAX_BEATS && w.tx.moved <= |f.plan|
    && (w.tx.active.Some? ==> w.tx.active.value == |f.plan|)
    && (w.rx.active.Some? ==> w.rx.active.value == |f.plan|)
    && f.plan == Beats(w.hw, w.txBuf, |f.plan|)
    && match w.hw
       case Relu(m) => ReluOn(m, w.rxBuf, f, w.tx.moved, w.rx.moved)
       case Sparse(m) => w.rx.active.None? && SparseOn(m, f, w.tx.moved)
  }

  predicate Undisturbed(v: World, w: World) {
    && (v.hw.Relu? <==> w.hw.Relu?)
    && w.tx == v.tx.(moved := w.tx.moved) && w.rx == v.rx.(moved := w.rx.moved)
    && w.tx.moved >= v.tx.moved && w.rx.moved >= v.rx.moved
    && w.txBuf == v.txBuf && w.locked == v.locked
  }

  // ---------------------------------------------------------------------------
  // One cycle without a register write
  // ---------------------------------------------------------------------------

  lemma NoCommit(w: World, a: Access, c: Choice)
    requires Core(w) && !Posts(a)
    ensures Silent(w, a, c)
    ensures var v, n := Wr(w.hw), WriteNext(Wr(w.hw), WriteSide(a, c));
            n.awPend == v.awPend && n.wPend == v.wPend && n.awAddr == v.awAddr && n.wLoad == v.wLoad
  {
  }

  lemma ReluArrival(m: R.Machine, i: R.Inputs, f: Flight, sent: nat)
    requires sent < |f.plan| && R.InFire(m.s, i) && m.s.slope == f.slope
    requires i.tdata == f.plan[sent] && (i.tlast <==> sent + 1 == |f.plan|)
    requires m.t.arrivals == f.start.arrivals + Arrivals(f, sent)
    ensures R.Observe(m.t, m.s, i).arrivals == f.start.arrivals + Arrivals(f, sent + 1)
  {
    assert Arrivals(f, sent + 1) == Arrivals(f, sent) + [R.Arrival(R.Operand(i), m.s.slope, i.tlast)];
  }

  /** A beat in the output register is the next one due back. */
  lemma ReluDue(m: R.Machine, rxBuf: seq<int>, f: Flight, sent: nat, back: nat)
    requires R.StreamLaw(m.s, m.t) && sent <= |f.plan| && ReluOn(m, rxBuf, f, sent, back)
    ensures m.s.out.valid <==> back < sent
    ensures m.s.out.valid ==>
              && sent == back + 1
              && m.s.out.data == U.Leaky(R.SLOPE_W, Activation(f.plan[back]), f.slope)
              && (m.s.out.last <==> sent == |f.plan|)
  {
    var all := R.GoldenStream(m.t.arrivals);
    if m.s.out.valid {
      assert all[|m.t.departures|] == R.Held(m.s.out)[0];
      assert m.t.arrivals[|m.t.departures|] == Arrivals(f, sent)[back];
    }
  }

  /** During a tile no beat arrives in the cycle the last one leaves. */
  lemma ReluApart(m: R.Machine, i: R.Inputs, rxBuf: seq<int>, f: Flight, sent: nat, back: nat)
    requires R.Inv(m) && sent <= |f.plan| && ReluOn(m, rxBuf, f, sent, back) && NoOverlap(m.t.tiles)
    requires R.InFire(m.s, i) ==> sent < |f.plan|
    ensures NoOverlap(R.Step(m, i).t.tiles)
  {
    ReluDue(m, rxBuf, f, sent, back);
  }

  lemma ReluMoves(m: R.Machine, i: R.Inputs, rxBuf: seq<int>, f: Flight, sent: nat, back: nat)
    requires R.Inv(m) && sent <= |f.plan| && ReluOn(m, rxBuf, f, sent, back)
    requires R.SlopeNext(m.s.slope, Commit(m.s.wr, i.w)) == m.s.slope
    requires R.InFire(m.s, i) ==> sent < |f.plan| && i.tdata == f.plan[sent] && (i.tlast <==> sent + 1 == |f.plan|)
    ensures ReluOn(R.Step(m, i), if R.OutFire(m.s, i) then Store(rxBuf, back, m.s.out.data) else rxBuf, f,
                   if R.InFire(m.s, i) then sent + 1 else sent, if R.OutFire(m.s, i) then back + 1 else back)
  {
    hide R.Inv, R.Step, U.Leaky, Activation;
    assert R.StreamLaw(m.s, m.t) by { ReluStream(m); }
    ReluDue(m, rxBuf, f, sent, back);
    ReluStepped(m, i);
    if R.InFire(m.s, i) {
      ReluArrival(m, i, f, sent);
    }
  }

  lemma ReluStepped(m: R.Machine, i: R.Inputs)
    ensures var n := R.Step(m, i);
            && n.s.slope == R.SlopeNext(m.s.slope, Commit(m.s.wr, i.w))
            && n.t.arrivals == (if R.InFire(m.s, i) then R.Observe(m.t, m.s, i).arrivals else m.t.arrivals)
            && n.t.departures == if R.OutFire(m.s, i) then
                                   m.t.departures + [R.Departure(m.s.out.data, m.s.out.last)]
                                 else m.t.departures
  {
  }

  lemma ReluStream(m: R.Machine)
    requires R.Inv(m)
    ensures R.StreamLaw(m.s, m.t)
  {
  }

  lemma SparseMoves(m: S.Machine, i: S.Inputs, f: Flight, sent: nat)
    requires S.Inv(m) && sent <= |f.plan| && SparseOn(m, f, sent)
    requires Commit(m.s.wr, i.w).None?
    requires S.Beat(m.s, i) ==> sent < |f.plan| && i.tdata == f.plan[sent] && (i.tlast <==> sent + 1 == |f.plan|)
    ensures SparseOn(S.Step(m, i), f, if S.Beat(m.s, i) then sent + 1 else sent)
  {
    hide S.Inv, S.Next, S.Observe;
    SR.TileStep(m, i);
    if S.Beat(m.s, i) {
      assert f.plan[..sent + 1] == f.plan[..sent] + [f.plan[sent]];
      assert Pairs(f.plan[..sent + 1]) == Pairs(f.plan[..sent]) + [Unpack(f.plan[sent])];
      assert sent + 1 == |f.plan| ==> f.plan[..sent + 1] == f.plan;
    }
  }

  lemma Offered(w: World, a: Access, c: Choice, f: Flight)
    requires On(w, f)
    ensures w.hw.Relu? ==>
              var i := ReluInputs(w, a, c);
              i.tvalid ==>
                && w.tx.moved < |f.plan| && i.tdata == f.plan[w.tx.moved]
                && (i.tlast <==> w.tx.moved + 1 == |f.plan|)
    ensures w.hw.Sparse? ==>
              var i := SparseInputs(w, a, c);
              i.tvalid ==>
                && w.tx.moved < |f.plan| && i.tdata == f.plan[w.tx.moved]
                && (i.tlast <==> w.tx.moved + 1 == |f.plan|)
  {
  }

  lemma OnKeeps(w: World, a: Access, c: Choice, f: Flight)
    requires Core(w) && On(w, f) && Silent(w, a, c)
    ensures On(Cycle(w, a, c), f)
  {
    hide R.Inv, R.Step, S.Inv, S.Step, ReluOn, SparseOn;
    Offered(w, a, c, f);
    match w.hw
    case Relu(m) => ReluMoves(m, ReluInputs(w, a, c), w.rxBuf, f, w.tx.moved, w.rx.moved);
    case Sparse(m) => SparseMoves(m, SparseInputs(w, a, c), f, w.tx.moved);
  }

  lemma CoreKeeps(w: World, a: Access, c: Choice, f: Flight)
    requires Core(w) && Silent(w, a, c) && (Quiet(w) || On(w, f))
    ensures Core(Cycle(w, a, c)) && Wr(Cycle(w, a, c).hw) == WriteNext(Wr(w.hw), WriteSide(a, c))
  {
    hide R.Inv, R.Step, R.Next, R.Observe, S.Inv, S.Step, S.Next, S.Observe, ReluOn, SparseOn, U.Unit;
    PortsMove(w, a, c);
    match w.hw
    case Relu(m) =>
      var i := ReluInputs(w, a, c);
      R.StepKeeps(m, i);
      if On(w, f) {
        Offered(w, a, c, f);
        ReluApart(m, i, w.rxBuf, f, w.tx.moved, w.rx.moved);
      } else {
        ReluStill(m, i);
      }
      NextWr(m, i);
    case Sparse(m) =>
      var i := SparseInputs(w, a, c);
      S.StepKeeps(m, i);
      SparseQuiet(m, i);
  }

  lemma ReluStill(m: R.Machine, i: R.Inputs)
    requires !i.mready
    ensures R.Step(m, i).t.tiles == m.t.tiles
  {
  }

  lemma NextWr(m: R.Machine, i: R.Inputs)
    ensures R.Step(m, i).s.wr == WriteNext(m.s.wr, i.w)
  {
  }

  lemma SparseQuiet(m: S.Machine, i: S.Inputs)
    requires S.Inv(m) && Commit(m.s.wr, i.w).None?
    ensures var n := S.Step(m, i).s;
            n.wr == WriteNext(m.s.wr, i.w) && !S.ClearPulse(n) && !S.StartPulse(n)
  {
    S.PulseLaw(m.s, m.wl, i);
  }

  /** A tile left unfinished stays unfinished, and one that is not is not begun. */
  lemma CleanKeeps(w: World, a: Access, c: Choice)
    requires Core(w) && Quiet(w) && Silent(w, a, c)
    ensures Clean(Cycle(w, a, c)) == Clean(w) && Quiet(Cycle(w, a, c))
  {
    match w.hw
    case Relu(m) =>
      hide R.Next;
      R.PendingMoves(m.s, m.t, ReluInputs(w, a, c));
    case Sparse(m) =>
      hide S.Next, S.Observe;
      SR.TileStep(m, SparseInputs(w, a, c));
  }

  /** Without a tile in flight nothing moves and the slope stays. */
  lemma CycleMoves(w: World, a: Access, c: Choice)
    ensures Undisturbed(w, Cycle(w, a, c))
    ensures Quiet(w) ==> Cycle(w, a, c).tx == w.tx && Cycle(w, a, c).rx == w.rx && Cycle(w, a, c).rxBuf == w.rxBuf
    ensures w.hw.Relu? && Silent(w, a, c) ==> Cycle(w, a, c).hw.r.s.slope == w.hw.r.s.slope
  {
    hide S.Step, U.Unit, R.AccountNext, R.Observe, R.View, R.CtrlNext;
  }

  // ---------------------------------------------------------------------------
  // A tile makes progress
  // ---------------------------------------------------------------------------

  /** The accelerator is enabled and the channels still have what is due on them released. */
  predicate Going(w: World, f: Flight) {
    && Enabled(w.hw)
    && (w.tx.moved < |f.plan| ==> w.tx.active.Some?)
    && (w.hw.Relu? && w.rx.moved < |f.plan| ==> w.rx.active.Some?)
  }

  predicate Enabled(hw: Hw) { if hw.Relu? then R.Enabled(hw.r.s) else S.Enabled(hw.c.s) }

  /** At most this many more cycles in which a beat is offered and one is taken. */
  function Rank(w: World, f: Flight): nat {
    match w.hw
    case Relu(_) =>
      if w.rx.moved >= |f.plan| then 0
      else |f.plan| - w.rx.moved + if w.tx.moved == w.rx.moved then 1 else 0
    case Sparse(m) =>
      if w.tx.moved >= |f.plan| then 0
      else |f.plan| - w.tx.moved + if m.s.state == S.Idle then 2 else if m.s.state == S.Clear then 1 else 0
  }

  function Willing(c: Choice): nat { if c.offer && c.take then 1 else 0 }

  /** No cycle loses ground and each willing one gains some. */
  lemma Progress(w: World, a: Access, c: Choice, f: Flight)
    requires Core(w) && On(w, f) && Going(w, f) && Silent(w, a, c)
    ensures Going(Cycle(w, a, c), f)
    ensures Rank(Cycle(w, a, c), f) <= Rank(w, f)
    ensures c.offer && c.take && Rank(w, f) > 0 ==> Rank(Cycle(w, a, c), f) < Rank(w, f)
  {
    hide R.Inv, R.Step, S.Inv, S.Step, ReluOn, SparseOn;
    match w.hw
    case Relu(m) => ReluPhase(m, ReluInputs(w, a, c), w.rxBuf, f, w.tx.moved, w.rx.moved);
    case Sparse(m) => SparsePhase(m, SparseInputs(w, a, c), f, w.tx.moved);
  }

  lemma ReluPhase(m: R.Machine, i: R.Inputs, rxBuf: seq<int>, f: Flight, sent: nat, back: nat)
    requires R.Inv(m) && Commit(m.s.wr, i.w).None?
    requires sent <= |f.plan| && ReluOn(m, rxBuf, f, sent, back)
    ensures R.Enabled(R.Step(m, i).s) == R.Enabled(m.s)
    ensures back <= sent <= back + 1 && (m.s.out.valid <==> back < sent)
  {
    hide R.Inv, U.Unit, R.AccountNext, R.View, R.Observe;
    assert R.StreamLaw(m.s, m.t) by { ReluStream(m); }
    ReluDue(m, rxBuf, f, sent, back);
  }

  lemma SparsePhase(m: S.Machine, i: S.Inputs, f: Flight, sent: nat)
    requires S.Inv(m) && !S.ClearPulse(m.s) && Commit(m.s.wr, i.w).None?
    requires sent <= |f.plan| && SparseOn(m, f, sent)
    ensures var n := S.Step(m, i).s;
            && (S.Enabled(n) <==> S.Enabled(m.s))
            && n.state == S.StateNext(m.s.state, S.StartPulse(m.s), S.Beat(m.s, i) && i.tlast)
    ensures sent < |f.plan| ==> m.s.state == S.Clear || m.s.state == S.Run || S.StartPending(m.s)
  {
    S.PulseLaw(m.s, m.wl, i);
  }

  // ---------------------------------------------------------------------------
  // Register accesses
  // ---------------------------------------------------------------------------

  /** What a read presented in this cycle is shown. */
  function Shown(w: World, a: Access, c: Choice): nat {
    match w.hw
    case Relu(m) => R.View(m.s, ReadSide(a, c).araddr)
    case Sparse(m) => S.View(m.s, SparseInputs(w, a, c), ReadSide(a, c).araddr)
  }

  /** Both ports move by their channels' own rules, whatever else the cycle does. */
  lemma PortsMove(w: World, a: Access, c: Choice)
    ensures Rd(Cycle(w, a, c).hw) == ReadNext(Rd(w.hw), ReadSide(a, c), Shown(w, a, c))
    ensures Wr(Cycle(w, a, c).hw) == WriteNext(Wr(w.hw), WriteSide(a, c))
  {
    hide R.Observe, S.Observe, U.Unit, S.View, R.View, R.AccountNext, R.OutNext, R.CtrlNext, S.CtrlNext;
  }

  /** A read presented while no response is outstanding is accepted, and the response carries what it was
      shown. */
  lemma ReadLands(w: World, a: Access, c: Choice)
    requires !Rd(w.hw).rvalid && a.ReadOf?
    ensures Rd(Cycle(w, a, c).hw) == ReadRegs(true, Shown(w, a, c))
  {
    hide Cycle, Shown;
    PortsMove(w, a, c);
  }

  /** A response waits, unchanged, until it is taken. */
  lemma ReadWaits(w: World, a: Access, c: Choice)
    requires Rd(w.hw).rvalid
    ensures Rd(Cycle(w, a, c).hw) == Rd(w.hw).(rvalid := !ReadSide(a, c).rready)
  {
    hide Cycle, Shown;
    PortsMove(w, a, c);
  }

  const START := 5
  const ENABLE := 1

  /** The write of value to addr, whole, is applied in this cycle. */
  predicate Lands(w: World, a: Access, c: Choice, addr: Byte, value: Byte) {
    Commit(Wr(w.hw), WriteSide(a, c)) == Some(Write(addr, Payload([value, 0, 0, 0], [true, true, true, true])))
  }

  lemma LowLane(value: Byte)
    ensures LanesOf(value % WORD) == [value, 0, 0, 0]
  {
  }

  /** Both halves presented together land as soon as no response is outstanding. */
  lemma WriteLands(w: World, a: Access, c: Choice)
    requires Unposted(w) && !Wr(w.hw).bvalid && a.WriteOf? && a.value < 256
    ensures Lands(w, a, c, a.addr, a.value)
  {
    LowLane(a.value);
  }

  /** One half presented alone is kept for the other. */
  lemma HalfWaits(w: World, a: Access, c: Choice)
    requires Unposted(w) && !Wr(w.hw).bvalid && (a.AddrOf? || (a.DataOf? && a.value < 256))
    ensures Silent(w, a, c)
    ensures var n := WriteNext(Wr(w.hw), WriteSide(a, c));
            if a.AddrOf? then HasAddr(n, a.addr) else HasData(n, a.value)
  {
    if a.DataOf? { LowLane(a.value); }
  }

  predicate HasAddr(c: WriteRegs, addr: Byte) { c.awPend && !c.wPend && c.awAddr == addr && !c.bvalid }

  predicate HasData(c: WriteRegs, value: Byte) {
    c.wPend && !c.awPend && c.wLoad == Payload([value, 0, 0, 0], [true, true, true, true]) && !c.bvalid
  }

  /** And lands with it. */
  lemma HalvesLand(w: World, a: Access, c: Choice, addr: Byte, value: Byte)
    requires || (HasAddr(Wr(w.hw), addr) && a == DataOf(value))
             || (HasData(Wr(w.hw), value) && a == AddrOf(addr))
    ensures Lands(w, a, c, addr, value)
  {
    LowLane(value);
  }

  /** While a response is outstanding neither half is accepted. */
  lemma WriteBlocked(w: World, a: Access, c: Choice)
    requires Unposted(w) && Wr(w.hw).bvalid
    ensures Silent(w, a, c)
    ensures WriteNext(Wr(w.hw), WriteSide(a, c)) == Wr(w.hw).(bvalid := !c.bready)
  {
  }

  /** START, with EN, on an accelerator with nothing in flight begins the tile that is about to be sent. */
  lemma SparseStarts(w: World, a: Access, c: Choice, f: Flight)
    requires Core(w) && Lands(w, a, c, S.REG_CTRL, START) && Quiet(w) && Clean(w) && w.hw.Sparse? && w.tx.moved == 0
    requires 0 < |f.plan| <= MAX_BEATS && f.plan == Beats(w.hw, w.txBuf, |f.plan|)
    ensures var n := Cycle(w, a, c);
            Sound(n) && On(n, f) && Enabled(n.hw)
  {
    hide S.Inv, S.Next, S.Observe;
    var m, i := w.hw.c, SparseInputs(w, a, c);
    assert S.CommitsStart(m.s, i) && !S.CommitsClear(m.s, i);
    S.StepKeeps(m, i);
    SR.TileStep(m, i);
    SparseNoClear(m, i);
  }

  lemma SparseNoClear(m: S.Machine, i: S.Inputs)
    requires S.Inv(m) && !S.CommitsClear(m.s, i)
    ensures var n := S.Step(m, i).s; n.wr == WriteNext(m.s.wr, i.w) && !S.ClearPulse(n)
    ensures S.Asks(Commit(m.s.wr, i.w), 4) ==> S.Enabled(S.Step(m, i).s)
  {
    S.PulseLaw(m.s, m.wl, i);
  }

  /** relu has nothing to start: its enable is written and the next beat accepted begins the tile. */
  lemma ReluStarts(w: World, a: Access, c: Choice, f: Flight)
    requires Core(w) && Lands(w, a, c, R.REG_CTRL, ENABLE) && Quiet(w) && w.hw.Relu? && On(w, f)
    ensures var n := Cycle(w, a, c);
            Sound(n) && On(n, f) && Enabled(n.hw)
  {
    hide R.Inv, R.Next, U.Unit, ReluOn;
    var m, i := w.hw.r, ReluInputs(w, a, c);
    R.StepKeeps(m, i);
    NextWr(m, i);
    ReluMoves(m, i, w.rxBuf, f, w.tx.moved, w.rx.moved);
    ReluEnables(m, i);
  }

  lemma ReluEnables(m: R.Machine, i: R.Inputs)
    requires Commit(m.s.wr, i.w) == Some(Write(R.REG_CTRL, Payload([1, 0, 0, 0], [true, true, true, true])))
    ensures R.Enabled(R.Step(m, i).s)
  {
  }

  /** Between tiles a slope write sets the slope and nothing else. */
  lemma SlopeLands(w: World, v: Byte, a: Access, c: Choice)
    requires Core(w) && Lands(w, a, c, R.REG_SLOPE, v) && Quiet(w) && w.hw.Relu?
    ensures var n := Cycle(w, a, c);
            Sound(n) && n.hw.Relu? && n.hw.r.s.slope == v && Clean(n) == Clean(w)
            && n.tx == w.tx && n.rx == w.rx && n.txBuf == w.txBuf && n.rxBuf == w.rxBuf && n.locked == w.locked
  {
    hide R.Inv, U.Unit;
    R.StepKeeps(w.hw.r, ReluInputs(w, a, c));
    ReluPending(w.hw.r, ReluInputs(w, a, c));
  }

  lemma ReluPending(m: R.Machine, i: R.Inputs)
    requires R.Inv(m) && !i.tvalid && !i.mready
    ensures var n := R.Step(m, i); R.Pending(n.s, n.t) == R.Pending(m.s, m.t)
  {
    hide R.Next;
    R.PendingMoves(m.s, m.t, i);
  }

  /** The sequencer is not in the one cycle between a tile's last beat and its result. */
  predicate Settled(w: World) { w.hw.Sparse? ==> w.hw.c.s.state != S.Latch }

  /** A cycle in which nothing moves is enough for that. */
  lemma Settles(w: World, a: Access, c: Choice)
    requires Quiet(w)
    ensures Settled(Cycle(w, a, c))
  {
    hide S.Observe, S.View, R.Step;
  }

  // ---------------------------------------------------------------------------
  // What the registers say
  // ---------------------------------------------------------------------------

  /** BUSY reading 0 is proof that no beat of any tile is left inside, and reading 1, with the
      sequencer settled, that one is. */
  lemma NotBusy(w: World, a: Access, c: Choice)
    requires Sound(w) && a.ReadOf? && a.addr == R.REG_STATUS
    ensures Shown(w, a, c) % 2 == 0 ==> Clean(w)
    ensures Settled(w) ==> (Shown(w, a, c) % 2 == 0 <==> Clean(w))
  {
    match w.hw
    case Relu(m) =>
      hide R.View, R.StreamLaw, R.TileLaw;
      assert R.View(m.s, R.REG_STATUS) % 2 == 1 <==> m.s.acct.busy by { ReluStatus(m.s); }
      RR.WithoutOverlap(m);
    case Sparse(m) =>
      hide S.View, S.Inv;
      NoCommit(w, a, c);
      SparseStatus(m, SparseInputs(w, a, c));
  }

  lemma ReluStatus(s: R.Regs)
    ensures R.View(s, R.REG_STATUS) % 2 == 1 <==> s.acct.busy
    ensures R.View(s, R.REG_STATUS) / 2 % 2 == 1 <==> s.acct.done
  {
  }

  lemma SparseStatus(m: S.Machine, i: S.Inputs)
    requires S.Inv(m)
    ensures S.View(m.s, i, S.REG_STATUS) % 2 == 0 ==> !m.t.running
    ensures m.s.state != S.Latch && Commit(m.s.wr, i.w).None? ==>
              (S.View(m.s, i, S.REG_STATUS) % 2 == 0 <==> !m.t.running)
    ensures S.View(m.s, i, S.REG_STATUS) / 2 % 2 == 1 <==> S.Done(m.s, i)
  {
    SR.StatusLaw(m, i);
  }

  lemma {:induction false} OpenRun(ds: seq<R.Departure>, base: nat, k: nat)
    requires base + k <= |ds| && R.Open(ds[..base]) == 0
    requires forall j | base <= j < base + k :: !ds[j].last
    ensures R.Open(ds[..base + k]) == k
  {
    if k == 0 {
    } else {
      OpenRun(ds, base, k - 1);
      assert ds[..base + k][..base + k - 1] == ds[..base + k - 1];
    }
  }

  /** With every beat sent and every beat back, tlast marks the last of them alone. */
  lemma ReluMarks(m: R.Machine, rxBuf: seq<int>, f: Flight)
    requires R.StreamLaw(m.s, m.t) && |f.plan| > 0 && ReluOn(m, rxBuf, f, |f.plan|, |f.plan|)
    ensures !m.s.out.valid && |m.t.departures| == |f.start.departures| + |f.plan|
    ensures forall j | |f.start.departures| <= j < |m.t.departures| ::
              m.t.departures[j].last <==> j + 1 == |m.t.departures|
  {
    var base, n := |f.start.departures|, |f.plan|;
    ReluDue(m, rxBuf, f, n, n);
    assert m.t.departures == R.GoldenStream(m.t.arrivals);
    forall j | base <= j < base + n
      ensures m.t.departures[j].last <==> j + 1 == base + n
    {
      assert m.t.arrivals[j] == Arrivals(f, n)[j - base];
    }
  }

  /** So the last tile to leave is this one, whole. */
  lemma ReluLastTile(m: R.Machine, rxBuf: seq<int>, f: Flight)
    requires R.StreamLaw(m.s, m.t) && |f.plan| > 0 && ReluOn(m, rxBuf, f, |f.plan|, |f.plan|)
    ensures !m.s.out.valid && R.Open(m.t.departures) == 0
    ensures var ls := R.Lengths(m.t.departures); ls != [] && ls[|ls| - 1] == |f.plan|
  {
    hide R.StreamLaw, R.GoldenStream, Arrivals;
    var ds, base, n := m.t.departures, |f.start.departures|, |f.plan|;
    ReluMarks(m, rxBuf, f);
    OpenRun(ds, base, n - 1);
    assert ds[..base + n - 1] == ds[..|ds| - 1];
  }

  /** And its registers say so: DONE, and COUNT is its length. */
  lemma ReluFinished(w: World, f: Flight)
    requires Sound(w) && On(w, f) && w.hw.Relu? && w.tx.moved == w.rx.moved == |f.plan|
    ensures var s := w.hw.r.s;
            s.acct.done && R.View(s, R.REG_STATUS) == 2 && R.View(s, R.REG_COUNT) == |f.plan|
  {
    hide R.StreamLaw, R.TileLaw, R.Lengths, R.Open, ReluOn;
    var m := w.hw.r;
    ReluLastTile(m, w.rxBuf, f);
    RR.WithoutOverlap(m);
    var k := |m.t.tiles| - 1;
    assert m.t.tiles[k].count == R.Lengths(m.t.departures)[k] % R.COUNT_MOD;
  }

  /** The tile's result is latched and on show. */
  predicate Answered(w: World) {
    w.hw.Sparse? && w.hw.c.s.done && !S.StartPulse(w.hw.c.s)
  }

  lemma AnswerKeeps(w: World, a: Access, c: Choice)
    requires Core(w) && Answered(w) && Silent(w, a, c)
    ensures Answered(Cycle(w, a, c))
  {
    hide S.Observe, R.Inv;
    SparseQuiet(w.hw.c, SparseInputs(w, a, c));
  }

  /** With every beat sent the result is there to be read. */
  lemma SparseFinished(w: World, f: Flight)
    requires Sound(w) && On(w, f) && w.hw.Sparse? && w.tx.moved == |f.plan| && Settled(w)
    ensures Answered(w)
  {
  }

  /** A DONE sample means a latched result, and a latched result a DONE sample. */
  lemma AnsweredIff(w: World, a: Access, c: Choice)
    requires Sound(w) && w.hw.Sparse? && a.ReadOf? && a.addr == S.REG_STATUS
    ensures Shown(w, a, c) / 2 % 2 == 1 <==> Answered(w)
  {
    hide S.View, S.Inv;
    NoCommit(w, a, c);
    SparseStatus(w.hw.c, SparseInputs(w, a, c));
  }

  /** Of a tile of n beats, stopped wherever it is, nothing is left inside: all of it is through, or
      relu never saw any of it. A started sparse_cnn waits for the rest. */
  predicate Through(w: World, n: nat) {
    if w.hw.Relu? then w.tx.moved == 0 || w.rx.moved == n else w.tx.moved == n
  }

  /** So exactly those tiles leave the accelerator ready for another. */
  lemma CleanIff(w: World, f: Flight)
    requires Sound(w) && On(w, f)
    ensures Clean(w) <==> Through(w, |f.plan|)
  {
    hide R.StreamLaw, R.Open, R.Lengths, ReluOn;
    if w.hw.Relu? {
      var m := w.hw.r;
      ReluInFlight(m, w.rxBuf, f, w.tx.moved, w.rx.moved);
      if w.rx.moved == |f.plan| {
        ReluLastTile(m, w.rxBuf, f);
      }
    }
  }

  lemma ReluInFlight(m: R.Machine, rxBuf: seq<int>, f: Flight, sent: nat, back: nat)
    requires R.StreamLaw(m.s, m.t) && sent <= |f.plan| && ReluOn(m, rxBuf, f, sent, back)
    ensures back <= sent
    ensures back < |f.plan| ==> R.Pending(m.s, m.t) == sent
  {
    hide R.StreamLaw, R.GoldenStream, R.Open, Arrivals;
    ReluDue(m, rxBuf, f, sent, back);
    if back < |f.plan| {
      var ds, base := m.t.departures, |f.start.departures|;
      ReluUnmarked(m, rxBuf, f, sent, back);
      assert ds[..base] == f.start.departures;
      OpenRun(ds, base, back);
      assert ds[..base + back] == ds;
    }
  }

  lemma ReluUnmarked(m: R.Machine, rxBuf: seq<int>, f: Flight, sent: nat, back: nat)
    requires R.StreamLaw(m.s, m.t) && back <= sent <= |f.plan| && back < |f.plan| && ReluOn(m, rxBuf, f, sent, back)
    ensures forall j | |f.start.departures| <= j < |m.t.departures| :: !m.t.departures[j].last
  {
    var base := |f.start.departures|;
    forall j | base <= j < |m.t.departures|
      ensures !m.t.departures[j].last
    {
      assert m.t.departures[j] == R.GoldenStream(m.t.arrivals)[j];
      assert m.t.arrivals[j] == Arrivals(f, sent)[j - base];
    }
  }

  lemma ArePairsPairs(plan: seq<nat>)
    ensures ArePairs(Pairs(plan))
  {
  }

  lemma SignedWord(x: int)
    requires -0x8000_0000 <= x < 0x8000_0000
    ensures Signed(S.Unsigned32(x), WORD) == x
  {
    assert x == (x / WORD) * WORD + x % WORD;
    MultipleMod(x / WORD, WORD);
    assert x % WORD - x == -(x / WORD) * WORD;
    MultipleMod(-(x / WORD), WORD);
    SignedIsUnique(x % WORD, x, WORD);
  }

  /** What ACC and SKIP read as is the golden result of the tile, to the last bit. */
  lemma AnswerShown(w: World, a: Access, c: Choice, f: Flight)
    requires Sound(w) && On(w, f) && Answered(w) && w.tx.moved == |f.plan| && a.ReadOf?
    ensures a.addr == S.REG_ACC ==> Signed(Shown(w, a, c), WORD) == Dot(Pairs(f.plan))
    ensures a.addr == S.REG_SKIP ==> Shown(w, a, c) == Zeros(Pairs(f.plan))
  {
    hide Dot, Zeros;
    var m, ps := w.hw.c, Pairs(f.plan);
    AnswerHolds(m, f);
    ArePairsPairs(f.plan);
    ExactWithinWidths(m.s.acc, m.s.skip, ps);
    DotBound(ps);
    SignedWord(m.s.acc);
  }

  lemma AnswerHolds(m: S.Machine, f: Flight)
    requires S.Inv(m) && !S.ClearPulse(m.s) && m.s.done && SparseOn(m, f, |f.plan|)
    ensures Holds(m.s.acc, m.s.skip, Pairs(f.plan))
  {
  }
}
