/** What a program using the character devices is promised, as functions of the calls it made. */
module DriverSpec {
  import opened Words
  import opened SparseMac
  import U = ReluUnit
  import R = ReluAxi

  /** A tile that got as far as the accelerator, and whether its write() succeeded; or a slope
      that was stored. */
  datatype Call = Wrote(bytes: seq<Byte>, ok: bool) | Slope(value: Byte)

  /** The slope in force after these calls, which found the first one. */
  function SlopeAfter(calls: seq<Call>, first: Byte): Byte {
    if calls == [] then first
    else match calls[|calls| - 1]
      case Slope(v) => v
      case Wrote(_, _) => SlopeAfter(calls[..|calls| - 1], first)
  }

  /** The golden activation of a tile, one signed byte in and out. */
  function LeakyTile(bytes: seq<Byte>, slope: nat): (ys: seq<int>)
    ensures |ys| == |bytes|
  {
    seq(|bytes|, k requires 0 <= k < |bytes| => U.Leaky(R.SLOPE_W, Signed(bytes[k], 256), slope))
  }

  /** relu: the last tile under the slope it was written under, or nothing if it failed. */
  function ReluAnswer(calls: seq<Call>, first: Byte): seq<int> {
    if calls == [] then []
    else match calls[|calls| - 1]
      case Slope(_) => ReluAnswer(calls[..|calls| - 1], first)
      case Wrote(bytes, ok) => if ok then LeakyTile(bytes, SlopeAfter(calls[..|calls| - 1], first)) else []
  }

  /** Little-endian operand pairs: the weight first, then the activation. */
  function TilePairs(bytes: seq<Byte>): (ps: seq<Pair>)
    ensures |ps| == |bytes| / 2
  {
    seq(|bytes| / 2, k requires 0 <= k < |bytes| / 2 =>
      Pair(Signed(bytes[2 * k], 256), Signed(bytes[2 * k + 1], 256)))
  }

  /** A byte as the signed number it stands for. */
  function SByte(b: Byte): int { if b < 128 then b else b - 256 }

  lemma SignedByte(b: Byte)
    ensures Signed(b, 256) == SByte(b)
  {
    var x: int := b;
    assert (x - (x - 256)) % 256 == 0;
    if b >= 128 { SignedIsUnique(x, x - 256, 256); }
  }

  /** A byte that is not negative passes; a negative one becomes the greatest whole number not above its
      product with slope / 256. */
  predicate Scales(b: Byte, slope: nat, y: int) {
    if b < 128 then y == b else 256 * y <= (b - 256) * slope < 256 * y + 256
  }

  /** There is one such number for each byte and slope. */
  lemma ScalesOnce(b: Byte, slope: nat, y: int, z: int)
    requires Scales(b, slope, y) && Scales(b, slope, z)
    ensures y == z && (b < 128 ==> y == b) && (b >= 128 ==> y == (b - 256) * slope / 256)
  {
  }

  lemma TileScales(bytes: seq<Byte>, slope: nat)
    ensures forall k | 0 <= k < |bytes| :: Scales(bytes[k], slope, LeakyTile(bytes, slope)[k])
  {
    hide U.Leaky, Signed;
    forall k | 0 <= k < |bytes|
      ensures Scales(bytes[k], slope, LeakyTile(bytes, slope)[k])
    {
      SignedByte(bytes[k]);
      U.LeakyScales(R.SLOPE_W, SByte(bytes[k]), slope);
      Powers();
    }
  }

  /** The skip count is the number of pairs with a zero byte in them. */
  lemma TileZeros(bytes: seq<Byte>)
    ensures Zeros(TilePairs(bytes))
            == |set k: nat | k < |bytes| / 2 && (bytes[2 * k] == 0 || bytes[2 * k + 1] == 0)|
  {
    hide Signed, Zeros;
    var ps := TilePairs(bytes);
    ZerosCount(ps);
    forall k: nat | k < |ps|
      ensures ps[k].weight * ps[k].act == 0 <==> bytes[2 * k] == 0 || bytes[2 * k + 1] == 0
    {
      SignedByte(bytes[2 * k]);
      SignedByte(bytes[2 * k + 1]);
    }
    assert (set k: nat | k < |ps| && ps[k].weight * ps[k].act == 0)
           == (set k: nat | k < |bytes| / 2 && (bytes[2 * k] == 0 || bytes[2 * k + 1] == 0));
  }

  /** The sum grows by the product of each two bytes more, and is nothing for none. */
  lemma TileDot(bytes: seq<Byte>, weight: Byte, act: Byte)
    requires |bytes| % 2 == 0
    ensures Dot(TilePairs([])) == 0
    ensures Dot(TilePairs(bytes + [weight, act])) == Dot(TilePairs(bytes)) + SByte(weight) * SByte(act)
  {
    hide Signed, Dot;
    SignedByte(weight);
    SignedByte(act);
    var more := bytes + [weight, act];
    assert TilePairs(more) == TilePairs(bytes) + [Pair(SByte(weight), SByte(act))];
    Snoc(TilePairs(bytes), Pair(SByte(weight), SByte(act)));
    assert TilePairs([]) == [];
    NoPairs();
  }

  lemma NoPairs()
    ensures Dot([]) == 0
  {
  }

  /** sparse_cnn: the golden model of the last tile whose write succeeded, zeros before any. */
  function SparseAnswer(calls: seq<Call>): (int, nat) {
    if calls == [] then (0, 0)
    else match calls[|calls| - 1]
      case Wrote(bytes, true) => (Dot(TilePairs(bytes)), Zeros(TilePairs(bytes)))
      case _ => SparseAnswer(calls[..|calls| - 1])
  }
}

/** The driver: the transport that moves a tile and the two register layers. */
module AccelDriver {
  import opened Words
  import opened Wrappers
  import opened AxiLite
  import opened SparseMac
  import opened Board
  import opened DriverSpec
  import U = ReluUnit
  import R = ReluAxi
  import S = SparseCnnAxi

  datatype Errno = EINVAL | EMSGSIZE | ERESTARTSYS | EFAULT | EBUSY | EIO | ETIMEDOUT | ERANGE | EQUEUE

  datatype Ret = Ok(count: nat) | Err(errno: Errno)

  /** What kstrtou32() makes of the text written to the slope attribute. */
  datatype Parsed = Number(value: nat) | Malformed | TooLong

  datatype Direction = Tx | Rx

  /** Which half of a register write reaches the accelerator first. */
  datatype Order = Together | AddrFirst | DataFirst

  /** The time a register access takes. Cycles before it, and one that brings it to the bus; cycles it is
      held while an earlier response is outstanding, and one that takes that response, if it still is;
      the cycle it is accepted, or its first half is. Then, for a write in two halves, cycles between
      them and the second's; for a read, cycles its response waits and the one that takes it. */
  datatype Lag = Lag(before: seq<Choice>, issue: Choice, held: seq<Choice>, release: Choice, at: Choice,
                     order: Order, after: seq<Choice>, last: Choice)

  /** Everything outside the driver's control during one write(). */
  datatype Env = Env(interrupted: bool, copied: bool, accept: Lag,
                     rxPrepared: bool, txPrepared: bool, rxQueued: bool, txQueued: bool,
                     faultAt: nat, start: Lag, sending: seq<Choice>, sentLate: bool,
                     returning: seq<Choice>, returnedLate: bool,
                     polls: seq<Lag>, lastPoll: Lag, first: Lag, second: Lag)

  /** What stops a tile before it is started: an accelerator still holding part of an earlier one,
      or a descriptor that was not to be had. */
  function Setback(clean: bool, relu: bool, env: Env): Option<Errno> {
    if !clean then Some(EBUSY)
    else if !env.txPrepared || (relu && !env.rxPrepared) then Some(EIO)
    else if !env.txQueued || (relu && !env.rxQueued) then Some(EQUEUE)
    else None
  }

  /** What stops a write before its tile reaches the accelerator. */
  function Refusal(clean: bool, relu: bool, size: nat, env: Env): Option<Errno> {
    var beat := if relu then 1 else 2;
    if size == 0 || size % beat != 0 then Some(EINVAL)
    else if size > MAX_BEATS * beat then Some(EMSGSIZE)
    else if env.interrupted then Some(ERESTARTSYS)
    else if !env.copied then Some(EFAULT)
    else Setback(clean, relu, env)
  }

  /** Time enough: neither timer runs out, and the channels are both willing in as many cycles as
      the tile has beats and two more. */
  predicate Patient(env: Env, beats: nat) {
    !env.sentLate && !env.returnedLate && WillingIn(env.sending) >= beats + 2
  }

  /** A completion the driver was waiting for came after its timer. */
  predicate Late(env: Env, relu: bool) { env.sentLate || (relu && env.returnedLate) }

  /** A write's outcome, on an accelerator that is clean or not: refused for a reason its caller
      can see, or timed out, or done; done whenever it is given the time, and never when it is late. */
  predicate Outcome(clean: bool, relu: bool, data: seq<Byte>, env: Env, ret: Ret) {
    var why := Refusal(clean, relu, |data|, env);
    if why.Some? then ret == Err(why.value)
    else
      && (ret == Ok(|data|) || ret == Err(ETIMEDOUT))
      && (Patient(env, |data| / if relu then 1 else 2) ==> ret == Ok(|data|))
      && (Late(env, relu) ==> ret == Err(ETIMEDOUT))
  }

  /** Every beat of a tile of n has moved, in each direction it has to. */
  predicate Complete(w: World, n: nat) { w.tx.moved == n && (w.hw.Relu? ==> w.rx.moved == n) }

  // ---------------------------------------------------------------------------
  // The order of a tile's steps
  // ---------------------------------------------------------------------------

  datatype Event = Submitted(d: Direction) | Started | Issued(d: Direction) | Terminated(d: Direction)

  /** A step that may follow the steps es: nothing starts before every descriptor is queued,
      nothing moves before the start, and the return path is released first. */
  predicate MayFollow(es: seq<Event>, e: Event, duplex: bool) {
    match e
    case Started => Submitted(Tx) in es && (duplex ==> Submitted(Rx) in es)
    case Issued(Rx) => Started in es
    case Issued(Tx) => Started in es && (duplex ==> Issued(Rx) in es)
    case _ => true
  }

  ghost predicate Ordered(es: seq<Event>, duplex: bool) {
    forall k | 0 <= k < |es| :: MayFollow(es[..k], es[k], duplex)
  }

  function Queueing(duplex: bool): seq<Event> {
    if duplex then [Submitted(Rx), Submitted(Tx)] else [Submitted(Tx)]
  }

  /** The steps of a tile that is sent: every descriptor queued, the return path's first, the start, and then
      the releases in the same order; and of one that fails after that, what it held is torn down. */
  predicate Sent(es: seq<Event>, ret: Option<Errno>, duplex: bool) {
    if duplex then
      && [Submitted(Rx), Submitted(Tx), Started, Issued(Rx), Issued(Tx)] <= es
      && es[5..] == if ret.None? then [] else if Terminated(Tx) in es then [Terminated(Tx), Terminated(Rx)]
                    else [Terminated(Rx)]
    else
      [Submitted(Tx), Started, Issued(Tx)] <= es && es[3..] == if ret.None? then [] else [Terminated(Tx)]
  }

  lemma OrderedGrows(es: seq<Event>, e: Event, duplex: bool)
    requires Ordered(es, duplex) && MayFollow(es, e, duplex)
    ensures Ordered(es + [e], duplex)
  {
    var fs := es + [e];
    forall k | 0 <= k < |fs|
      ensures MayFollow(fs[..k], fs[k], duplex)
    {
      assert fs[..k] == es[..k];
      assert k == |es| ==> es[..k] == es;
    }
  }

  // ---------------------------------------------------------------------------
  // What the passing of time keeps
  // ---------------------------------------------------------------------------

  function SlopeOf(w: World): nat { if w.hw.Relu? then w.hw.r.s.slope else 0 }

  /** w is v some cycles later, in which no register write was applied. */
  ghost predicate Kept(v: World, w: World, f: Flight) {
    && Core(w) && Undisturbed(v, w) && SlopeOf(w) == SlopeOf(v)
    && (Quiet(v) ==> w.tx == v.tx && w.rx == v.rx && w.rxBuf == v.rxBuf)
    && (Quiet(v) ==> Clean(w) == Clean(v))
    && (On(v, f) ==> On(w, f))
    && (On(v, f) && Going(v, f) ==> Going(w, f) && Rank(w, f) <= Rank(v, f))
    && (Answered(v) ==> Answered(w))
  }

  /** And no part of one is pending. */
  ghost predicate Later(v: World, w: World, f: Flight) { Kept(v, w, f) && Sound(w) }

  lemma KeptTrans(u: World, v: World, w: World, f: Flight)
    requires Kept(u, v, f) && Kept(v, w, f)
    ensures Kept(u, w, f)
  {
    hide Core, On, Clean, Answered, Going, Rank;
  }

  lemma LaterTrans(u: World, v: World, w: World, f: Flight)
    requires Later(u, v, f) && Later(v, w, f)
    ensures Later(u, w, f)
  {
    hide Kept, Sound;
    KeptTrans(u, v, w, f);
  }

  lemma CycleKept(w: World, a: Access, c: Choice, f: Flight)
    requires Core(w) && Silent(w, a, c) && (Quiet(w) || On(w, f))
    ensures Kept(w, Cycle(w, a, c), f) && Wr(Cycle(w, a, c).hw) == WriteNext(Wr(w.hw), WriteSide(a, c))
    ensures On(w, f) && Going(w, f) ==> Rank(Cycle(w, a, c), f) <= Less(Rank(w, f), Willing(c))
  {
    hide Core, On, Clean, Answered, Cycle, Going, Rank, Silent;
    CoreKeeps(w, a, c, f);
    CycleMoves(w, a, c);
    if Quiet(w) { CleanKeeps(w, a, c); }
    if On(w, f) { OnKeeps(w, a, c, f); }
    if On(w, f) && Going(w, f) { Progress(w, a, c, f); }
    if Answered(w) { AnswerKeeps(w, a, c); }
  }

  /** A write half that is waiting goes on waiting, and the response channel stays free for it. */
  predicate SameHalf(v: World, w: World) {
    var x, y := Wr(v.hw), Wr(w.hw);
    && y.awPend == x.awPend && y.wPend == x.wPend && y.awAddr == x.awAddr && y.wLoad == x.wLoad
    && (y.bvalid ==> x.bvalid)
  }

  lemma HalfKept(w: World, a: Access, c: Choice)
    requires Core(w) && !Posts(a) && Wr(Cycle(w, a, c).hw) == WriteNext(Wr(w.hw), WriteSide(a, c))
    ensures Silent(w, a, c) && SameHalf(w, Cycle(w, a, c))
  {
    hide Core, Cycle;
    NoCommit(w, a, c);
  }

  lemma KeptSelf(w: World, f: Flight)
    requires Core(w)
    ensures Kept(w, w, f)
  {
  }

  function Less(n: nat, k: nat): nat { if k <= n then n - k else 0 }

  /** The willing cycles of a schedule. */
  function WillingIn(sched: seq<Choice>): nat {
    if sched == [] then 0 else WillingIn(sched[..|sched| - 1]) + Willing(sched[|sched| - 1])
  }

  lemma WillingGrows(sched: seq<Choice>, k: nat)
    requires k < |sched|
    ensures WillingIn(sched[..k + 1]) == WillingIn(sched[..k]) + Willing(sched[k])
  {
    assert sched[..k + 1][..k] == sched[..k];
  }

  /** Neither the hardware nor the buffers notice a channel being queued, retired or torn down. */
  lemma Requeue(w: World, tx: Chan, rx: Chan)
    requires Sound(w)
    ensures Sound(w.(tx := tx, rx := rx))
    ensures Clean(w.(tx := tx, rx := rx)) == Clean(w)
    ensures Answered(w.(tx := tx, rx := rx)) == Answered(w)
    ensures SlopeOf(w.(tx := tx, rx := rx)) == SlopeOf(w)
  {
    hide R.Inv, S.Inv;
  }

  lemma Rechannel(w: World, tx: Chan, rx: Chan, f: Flight)
    requires On(w, f) && tx.moved == w.tx.moved && rx.moved == w.rx.moved
    requires tx.active.Some? ==> tx.active.value == |f.plan|
    requires rx.active.Some? ==> w.hw.Relu? && rx.active.value == |f.plan|
    ensures On(w.(tx := tx, rx := rx), f)
  {
    hide ReluOn, SparseOn;
  }

  /** With nothing in flight and nothing moved, relu is ready to carry any tile. */
  lemma ReluReady(w: World, n: nat)
    requires Sound(w) && Clean(w) && Quiet(w) && w.hw.Relu? && w.tx.moved == w.rx.moved == 0 && 0 < n <= MAX_BEATS
    ensures On(w, Flight(w.hw.r.t, Beats(w.hw, w.txBuf, n), w.hw.r.s.slope))
  {
    hide R.CountLaw, R.TileLaw, R.LengthLaw, U.Leaky, R.GoldenStream;
    assert R.StreamLaw(w.hw.r.s, w.hw.r.t);
    assert Arrivals(Flight(w.hw.r.t, Beats(w.hw, w.txBuf, n), w.hw.r.s.slope), 0) == [];
  }

  lemma LaterSelf(w: World, f: Flight)
    requires Sound(w)
    ensures Later(w, w, f)
  {
    KeptSelf(w, f);
  }

  lemma KeptGoing(v: World, w: World, f: Flight)
    requires Kept(v, w, f) && On(v, f) && Going(v, f)
    ensures On(w, f) && Going(w, f)
  {
    hide Core, On, Going, Rank, Clean;
  }

  lemma KeptKeeping(v: World, w: World, f: Flight)
    requires Kept(v, w, f) && v.locked && (Quiet(v) || On(v, f))
    ensures Core(w) && w.locked && (Quiet(w) || On(w, f)) && (Quiet(v) ==> Quiet(w))
  {
    hide Core, On, Clean, Going, Rank, Answered;
  }

  lemma LaterHeld(v: World, w: World, f: Flight)
    requires Later(v, w, f) && v.locked && (Quiet(v) || On(v, f))
    ensures Sound(w) && w.locked && (Quiet(w) || On(w, f)) && (Quiet(v) ==> Quiet(w))
  {
    hide Core, On, Clean, Going, Rank, Answered;
  }

  /** Nor do they notice the buffer being filled or the lock changing hands. */
  lemma Refill(w: World, buf: seq<Byte>, locked: bool)
    requires Sound(w)
    ensures Sound(w.(txBuf := buf, locked := locked))
    ensures SlopeOf(w.(txBuf := buf, locked := locked)) == SlopeOf(w)
    ensures Clean(w.(txBuf := buf, locked := locked)) == Clean(w)
  {
    hide R.Inv, S.Inv;
  }

  /** One call more. */
  lemma Another(calls: seq<Call>, c: Call, first: Byte)
    ensures SlopeAfter(calls + [c], first) == if c.Slope? then c.value else SlopeAfter(calls, first)
    ensures ReluAnswer(calls + [c], first) == if c.Slope? then ReluAnswer(calls, first)
                                              else if c.ok then LeakyTile(c.bytes, SlopeAfter(calls, first)) else []
    ensures SparseAnswer(calls + [c]) == if c.Wrote? && c.ok then (Dot(TilePairs(c.bytes)), Zeros(TilePairs(c.bytes)))
                                         else SparseAnswer(calls)
  {
    assert (calls + [c])[..|calls|] == calls;
  }

  /** An accelerator as it may be found: out of reset, or in any state a driver leaves one in. */
  ghost predicate Standing(hw: Hw) {
    Sound(World(hw, EMPTY, EMPTY, [], seq(MAX_BEATS, _ => 0), false))
  }

  lemma Claimed(hw: Hw, w: World)
    requires Standing(hw) && w.hw == hw && |w.rxBuf| == MAX_BEATS
    ensures Sound(w)
  {
    hide R.Inv, S.Inv;
  }

  lemma StandsAgain(w: World)
    requires Sound(w)
    ensures Standing(w.hw)
  {
    hide R.Inv, S.Inv;
  }

  lemma OutOfReset()
    ensures Standing(Relu(R.INITIAL)) && Standing(Sparse(S.INITIAL))
    ensures OriginOf(Relu(R.INITIAL)) == Origin(true, 25, true) && OriginOf(Sparse(S.INITIAL)).bare
  {
    R.ResetKeeps(WRITE_RESET);
    S.ResetKeeps(WRITE_RESET);
  }

  lemma OrderedNothing(duplex: bool)
    ensures Ordered([], duplex)
  {
  }

  /** The flight a tile begins from where the hardware stands. */
  ghost function Takeoff(w: World, n: nat): Flight {
    if w.hw.Relu? then Flight(w.hw.r.t, Beats(w.hw, w.txBuf, n), w.hw.r.s.slope)
    else Flight(R.NO_BEATS, Beats(w.hw, w.txBuf, n), 0)
  }

  lemma TakeoffOn(w: World, n: nat)
    requires Sound(w) && Clean(w) && Quiet(w) && w.tx.moved == 0 && 0 < n <= MAX_BEATS
    requires w.hw.Relu? ==> w.rx.moved == 0
    ensures var f := Takeoff(w, n);
            f.plan == Beats(w.hw, w.txBuf, n) && f.slope == SlopeOf(w) && (w.hw.Relu? ==> On(w, f))
  {
    hide Sound, Clean, On;
    if w.hw.Relu? {
      ReluReady(w, n);
    }
  }

  lemma RankStays(w: World, tx: Chan, rx: Chan, f: Flight)
    requires tx.moved == w.tx.moved && rx.moved == w.rx.moved
    ensures Rank(w.(tx := tx, rx := rx), f) == Rank(w, f)
  {
  }

  lemma RankZero(w: World, f: Flight)
    requires On(w, f) && Rank(w, f) == 0
    ensures w.tx.moved == |f.plan| && (w.hw.Relu? ==> w.rx.moved == |f.plan|)
  {
    OnBounds(w, f);
  }

  lemma RankBound(w: World, f: Flight)
    ensures Rank(w, f) <= |f.plan| + 2
  {
  }

  /** Every beat of the tile is through and the channels are idle. */
  ghost predicate Landed(w: World, f: Flight) {
    Quiet(w) && On(w, f) && w.tx.moved == |f.plan| && (w.hw.Relu? ==> w.rx.moved == |f.plan|)
  }

  lemma LaterLanded(v: World, w: World, f: Flight)
    requires Landed(v, f) && Later(v, w, f)
    ensures Landed(w, f)
  {
    hide Sound, On, Clean, Going, Rank, Answered;
  }

  /** A tile that has landed says so. */
  lemma LandedIsDone(w: World, c: Choice, f: Flight)
    requires Sound(w) && Landed(w, f) && Settled(w)
    ensures Shown(w, ReadOf(R.REG_STATUS), c) / 2 % 2 == 1
  {
    hide Sound, On, Answered, Settled, R.View;
    if w.hw.Relu? {
      ReluFinished(w, f);
    } else {
      hide Shown;
      SparseFinished(w, f);
      AnsweredIff(w, ReadOf(R.REG_STATUS), c);
    }
  }

  lemma OnBounds(w: World, f: Flight)
    requires On(w, f)
    ensures w.tx.moved <= |f.plan| && 0 < |f.plan| && (w.hw.Relu? ==> w.rx.moved <= w.tx.moved)
    ensures w.tx.active.Some? ==> w.tx.active.value == |f.plan|
    ensures w.rx.active.Some? ==> w.rx.active.value == |f.plan| && w.hw.Relu?
  {
  }

  /** The beats in a buffer depend on which accelerator it is, not on its state. */
  lemma SameBeats(v: World, w: World, n: nat)
    requires (v.hw.Relu? <==> w.hw.Relu?) && v.txBuf == w.txBuf
    ensures Beats(v.hw, v.txBuf, n) == Beats(w.hw, w.txBuf, n)
  {
  }

  lemma OnSlope(w: World, f: Flight)
    requires On(w, f) && w.hw.Relu?
    ensures SlopeOf(w) == f.slope
  {
  }

  /** The DONE bit of STATUS, and COUNT, as a read finds them. */
  predicate SaysDone(w: World) { if w.hw.Relu? then w.hw.r.s.acct.done else Answered(w) }

  function CountShown(w: World): nat
    requires w.hw.Relu?
  {
    w.hw.r.s.acct.count
  }

  lemma SaidDone(w: World, c: Choice)
    requires Sound(w)
    ensures Shown(w, ReadOf(R.REG_STATUS), c) / 2 % 2 == 1 <==> SaysDone(w)
  {
    hide Sound, Answered, R.View;
    if w.hw.Relu? {
      ReluStatus(w.hw.r.s);
    } else {
      hide Shown;
      AnsweredIff(w, ReadOf(R.REG_STATUS), c);
    }
  }

  lemma SaidCount(w: World, c: Choice)
    requires w.hw.Relu?
    ensures Shown(w, ReadOf(R.REG_COUNT), c) == CountShown(w)
  {
  }

  lemma LaterRelu(v: World, w: World, f: Flight)
    requires Later(v, w, f)
    ensures (v.hw.Relu? <==> w.hw.Relu?) && Sound(w)
  {
    hide Core, Sound, On, Clean, Answered, Going, Rank;
  }

  lemma LandedCount(w: World, c: Choice, f: Flight)
    requires Sound(w) && Landed(w, f) && w.hw.Relu?
    ensures Shown(w, ReadOf(R.REG_COUNT), c) == |f.plan|
  {
    hide Sound, On, R.View;
    ReluFinished(w, f);
  }

  lemma KeptCore(v: World, w: World, f: Flight)
    requires Kept(v, w, f)
    ensures Core(w)
  {
    hide Core, On, Clean, Answered, Going, Rank;
  }

  lemma KeptUndisturbed(v: World, w: World, f: Flight)
    requires Kept(v, w, f)
    ensures Undisturbed(v, w)
  {
    hide Core, On, Clean, Answered, Going, Rank;
  }

  lemma LaterMoves(v: World, w: World, f: Flight)
    requires Later(v, w, f)
    ensures Undisturbed(v, w)
  {
    hide Core, Sound, On, Clean, Answered, Going, Rank;
  }

  /** What the device reports for a tile of bytes is what the golden models say of it. */
  predicate Delivered(w: World, bytes: nat, slope: nat, received: nat, acc: int, skip: nat)
    requires bytes <= |w.txBuf|
  {
    if w.hw.Relu? then
      received == bytes <= |w.rxBuf| && w.rxBuf[..bytes] == LeakyTile(w.txBuf[..bytes], slope)
    else
      received == 0 && acc == Dot(TilePairs(w.txBuf[..bytes])) && skip == Zeros(TilePairs(w.txBuf[..bytes]))
  }

  lemma ReluReturned(w: World, f: Flight)
    requires On(w, f) && w.hw.Relu? && w.rx.moved == |f.plan| <= |w.txBuf|
    ensures |f.plan| <= |w.rxBuf| && f.plan == Beats(w.hw, w.txBuf, |f.plan|)
    ensures forall k | 0 <= k < |f.plan| :: w.rxBuf[k] == U.Leaky(R.SLOPE_W, Activation(f.plan[k]), f.slope)
  {
    hide U.Leaky, Activation, Arrivals, Beats;
  }

  lemma ReluDelivers(w: World, f: Flight, acc: int, skip: nat)
    requires On(w, f) && w.hw.Relu? && w.rx.moved == |f.plan| <= |w.txBuf|
    ensures Delivered(w, |f.plan|, f.slope, |f.plan|, acc, skip)
  {
    hide U.Leaky, Signed;
    var n := |f.plan|;
    var back, due := w.rxBuf[..n], LeakyTile(w.txBuf[..n], f.slope);
    ReluReturned(w, f);
    forall k | 0 <= k < n
      ensures back[k] == due[k]
    {
      assert f.plan[k] == w.txBuf[k];
    }
    assert back == due;
  }

  lemma SparseDelivers(w: World, f: Flight, acc: int, skip: nat)
    requires On(w, f) && w.hw.Sparse? && 2 * |f.plan| <= |w.txBuf|
    requires acc == Dot(Pairs(f.plan)) && skip == Zeros(Pairs(f.plan))
    ensures Delivered(w, 2 * |f.plan|, 0, 0, acc, skip) && SlopeOf(w) == 0
  {
    hide SparseOn, Dot, Zeros, Pairs, Beats, TilePairs;
    SparsePairing(w, |f.plan|);
  }

  lemma SparsePairing(w: World, n: nat)
    requires w.hw.Sparse? && 2 * n <= |w.txBuf|
    ensures Pairs(Beats(w.hw, w.txBuf, n)) == TilePairs(w.txBuf[..2 * n])
  {
    hide Signed, Unpack;
    var buf := w.txBuf[..2 * n];
    forall k | 0 <= k < n
      ensures Unpack(RawBeat(w.hw, w.txBuf, k)) == Pair(Signed(buf[2 * k], 256), Signed(buf[2 * k + 1], 256))
    {
      UnpackPacked(w.txBuf[2 * k], w.txBuf[2 * k + 1]);
    }
  }

  datatype Answer = Tile(ys: seq<int>) | Totals(acc: int, skip: nat) | Nothing

  /** struct { s32 acc; u32 skip; } */
  const RESULT_BYTES: nat := 8

  /** How the accelerator was found: which it is, its slope, and whether part of a tile was inside. */
  datatype Origin = Origin(relu: bool, slope: Byte, bare: bool)

  function OriginOf(hw: Hw): Origin {
    Origin(hw.Relu?, if hw.Relu? then hw.r.s.slope else R.SLOPE_RESET, Bare(hw))
  }

  function AnswerTo(calls: seq<Call>, o: Origin): Answer {
    if o.relu then Tile(ReluAnswer(calls, o.slope)) else Totals(SparseAnswer(calls).0, SparseAnswer(calls).1)
  }

  function Size(a: Answer): nat {
    match a
    case Tile(ys) => |ys|
    case Totals(_, _) => RESULT_BYTES
    case Nothing => 0
  }

  /** A read that is due an answer returns all of it or nothing, and says which and why. */
  predicate Reading(count: nat, interrupted: bool, faulted: bool, due: Answer, ret: Ret, answer: Answer) {
    if interrupted then ret == Err(ERESTARTSYS) && answer == Nothing
    else if count < Size(due) then ret == Err(EINVAL) && answer == Nothing
    else if faulted && Size(due) > 0 then ret == Err(EFAULT) && answer == Nothing
    else ret == Ok(Size(due)) && answer == due
  }

  /** The device's answer is the one the calls so far entitle a reader to. */
  predicate Reports(w: World, received: nat, acc: int, skip: nat, calls: seq<Call>, first: Byte) {
    if w.hw.Relu? then
      && SlopeOf(w) == SlopeAfter(calls, first)
      && received <= |w.rxBuf| && w.rxBuf[..received] == ReluAnswer(calls, first)
    else
      received == 0 && (acc, skip) == SparseAnswer(calls)
  }

  /** What a write() that returned ret has done, as far as any reader can tell: a tile refused or
      never copied in leaves no trace. */
  function WriteEffect(data: seq<Byte>, ret: Ret): seq<Call> {
    if ret.Ok? then [Wrote(data, true)]
    else if ret.errno in {EINVAL, EMSGSIZE, ERESTARTSYS, EFAULT} then []
    else [Wrote(data, false)]
  }

  lemma SameReport(v: World, w: World, received: nat, acc: int, skip: nat, calls: seq<Call>, first: Byte)
    requires Reports(v, received, acc, skip, calls, first) && w.hw == v.hw && w.rxBuf == v.rxBuf
    ensures Reports(w, received, acc, skip, calls, first)
  {
  }

  lemma NewReport(v: World, got: nat, sum: int, zeros: nat, calls: seq<Call>, first: Byte,
                  w: World, received: nat, acc: int, skip: nat, data: seq<Byte>, ok: bool)
    requires Reports(v, got, sum, zeros, calls, first) && (v.hw.Relu? <==> w.hw.Relu?) && SlopeOf(w) == SlopeOf(v)
    requires |data| <= |w.txBuf| && w.txBuf[..|data|] == data
    requires if ok then Delivered(w, |data|, SlopeOf(w), received, acc, skip)
             else received == 0 && acc == sum && skip == zeros
    ensures Reports(w, received, acc, skip, calls + [Wrote(data, ok)], first)
  {
    hide Dot, Zeros, SlopeOf, TilePairs, LeakyTile;
    Another(calls, Wrote(data, ok), first);
  }

  // ---------------------------------------------------------------------------
  // The device
  // ---------------------------------------------------------------------------

  class AccelDevice {
    var w: World
    var received: nat
    var acc: int
    var skip: nat
    ghost var calls: seq<Call>
    ghost var events: seq<Event>
    ghost const origin: Origin

    /** The transport's lock is held, and the flight under way, if any, is f. */
    ghost predicate Held(f: Flight)
      reads this
    {
      Sound(w) && w.locked && (Quiet(w) || On(w, f))
    }

    // --- time and registers ---

    /** The same while half of a register write may be waiting. */
    ghost predicate Keeping(f: Flight)
      reads this
    {
      Core(w) && w.locked && (Quiet(w) || On(w, f))
    }

    method Idle(sched: seq<Choice>, ghost f: Flight)
      requires Keeping(f)
      modifies `w
      ensures Keeping(f) && Kept(old(w), w, f) && SameHalf(old(w), w)
      ensures On(old(w), f) && Going(old(w), f) ==> Rank(w, f) <= Less(Rank(old(w), f), WillingIn(sched))
    {
      hide Core, On, Clean, Answered, Cycle, Kept, Going, Rank, Willing, Silent;
      KeptSelf(w, f);
      for k := 0 to |sched|
        invariant Keeping(f) && Kept(old(w), w, f) && SameHalf(old(w), w)
        invariant On(old(w), f) && Going(old(w), f) ==> Rank(w, f) <= Less(Rank(old(w), f), WillingIn(sched[..k]))
      {
        ghost var v := w;
        assert Contend(w, sched[k]) == NoAccess;
        NoCommit(w, NoAccess, sched[k]);
        CycleKept(w, NoAccess, sched[k], f);
        HalfKept(w, NoAccess, sched[k]);
        w := Cycle(w, Contend(w, sched[k]), sched[k]);
        WillingGrows(sched, k);
        if On(old(w), f) && Going(old(w), f) { KeptGoing(old(w), v, f); }
        KeptTrans(old(w), v, w, f);
        KeptKeeping(v, w, f);
      }
      assert sched[..|sched|] == sched;
    }

    method Elapse(sched: seq<Choice>, ghost f: Flight)
      requires Held(f)
      modifies `w
      ensures Held(f) && Later(old(w), w, f)
      ensures On(old(w), f) && Going(old(w), f) ==> Rank(w, f) <= Less(Rank(old(w), f), WillingIn(sched))
    {
      hide Core, On, Clean, Answered, Cycle, Kept, Going, Rank, WillingIn;
      Idle(sched, f);
    }

    /** One cycle in which this is presented, and no part of a write. */
    method Tick(a: Access, c: Choice, ghost f: Flight)
      requires Held(f) && !Posts(a)
      modifies `w
      ensures Held(f) && Later(old(w), w, f) && w == Cycle(old(w), a, c)
      ensures Quiet(old(w)) ==> Settled(w)
    {
      hide Core, On, Clean, Answered, Cycle, Kept, Going, Rank, Settled, Silent;
      NoCommit(w, a, c);
      CycleKept(w, a, c, f);
      HalfKept(w, a, c);
      if Quiet(w) { Settles(w, a, c); }
      ghost var v := w;
      w := Cycle(w, a, c);
      KeptKeeping(v, w, f);
    }

    /** A read is presented until nothing stands before it. */
    method AwaitRead(addr: Byte, held: seq<Choice>, release: Choice, ghost f: Flight)
      requires Held(f)
      modifies `w
      ensures Held(f) && Later(old(w), w, f) && !Rd(w.hw).rvalid
      ensures Quiet(old(w)) && Settled(old(w)) ==> Settled(w)
    {
      hide Sound, On, Cycle, Later, Settled;
      LaterSelf(w, f);
      var k := 0;
      while k < |held| && Rd(w.hw).rvalid
        invariant k <= |held| && Held(f) && Later(old(w), w, f)
        invariant Quiet(old(w)) && Settled(old(w)) ==> Quiet(w) && Settled(w)
      {
        ghost var v := w;
        Tick(ReadOf(addr), held[k], f);
        LaterTrans(old(w), v, w, f);
        LaterHeld(v, w, f);
        k := k + 1;
      }
      if Rd(w.hw).rvalid {
        ghost var v := w;
        var c := release.(r := release.r.(rready := true));
        ReadWaits(w, ReadOf(addr), c);
        Tick(ReadOf(addr), c, f);
        LaterTrans(old(w), v, w, f);
      }
    }

    /** A response waits until it is taken; what it carries is what it came with. */
    method TakeResponse(after: seq<Choice>, last: Choice, ghost f: Flight) returns (v: nat)
      requires Held(f) && Rd(w.hw).rvalid
      modifies `w
      ensures Held(f) && Later(old(w), w, f) && v == old(Rd(w.hw).rdata)
    {
      hide Sound, On, Cycle, Later;
      LaterSelf(w, f);
      for k := 0 to |after|
        invariant Held(f) && Later(old(w), w, f) && Rd(w.hw) == old(Rd(w.hw))
      {
        v := Rd(w.hw).rdata;
        ghost var u := w;
        ReadWaits(w, NoAccess, after[k]);
        Tick(NoAccess, after[k], f);
        LaterTrans(old(w), u, w, f);
        if after[k].r.rready {
          return;
        }
      }
      v := Rd(w.hw).rdata;
      ghost var u := w;
      Tick(NoAccess, last.(r := last.r.(rready := true)), f);
      LaterTrans(old(w), u, w, f);
    }

    /** readl(): the response carries what the register map showed in the cycle the read was accepted. */
    method ReadReg(addr: Byte, lag: Lag, ghost f: Flight) returns (v: nat, ghost seen: World)
      requires Held(f)
      modifies `w
      ensures Held(f) && Later(old(w), seen, f) && Later(seen, w, f) && Later(old(w), w, f)
      ensures v == Shown(seen, ReadOf(addr), lag.at)
      ensures Quiet(old(w)) ==> Settled(seen)
    {
      hide Sound, On, Cycle, Later, Shown, Settled, Going, Rank, WillingIn;
      Arrive(lag, f);
      ghost var u := w;
      AwaitRead(addr, lag.held, lag.release, f);
      LaterTrans(old(w), u, w, f);
      seen := w;
      ReadLands(w, ReadOf(addr), lag.at);
      Tick(ReadOf(addr), lag.at, f);
      u := w;
      v := TakeResponse(lag.after, lag.last, f);
      LaterTrans(seen, u, w, f);
      LaterTrans(old(w), seen, w, f);
    }

    /** The cycles before an access reaches the bus. */
    method Arrive(lag: Lag, ghost f: Flight)
      requires Held(f)
      modifies `w
      ensures Held(f) && Later(old(w), w, f) && (Quiet(old(w)) ==> Quiet(w) && Settled(w))
    {
      hide Sound, On, Cycle, Later, Settled, Going, Rank, WillingIn;
      Elapse(lag.before, f);
      LaterHeld(old(w), w, f);
      ghost var u := w;
      Tick(NoAccess, lag.issue, f);
      LaterHeld(u, w, f);
      LaterTrans(old(w), u, w, f);
    }

    /** A write, or its first half, is presented until no response stands before it. */
    method AwaitWrite(a: Access, held: seq<Choice>, release: Choice, ghost f: Flight)
      requires Held(f)
      modifies `w
      ensures Held(f) && Later(old(w), w, f) && !Wr(w.hw).bvalid
    {
      hide Sound, On, Cycle, Later;
      LaterSelf(w, f);
      var k := 0;
      while k < |held| && Wr(w.hw).bvalid
        invariant k <= |held| && Held(f) && Later(old(w), w, f)
      {
        ghost var v := w;
        TickBlocked(a, held[k], f);
        LaterTrans(old(w), v, w, f);
        k := k + 1;
      }
      if Wr(w.hw).bvalid {
        ghost var v := w;
        TickBlocked(a, release.(bready := true), f);
        LaterTrans(old(w), v, w, f);
      }
    }

    method TickBlocked(a: Access, c: Choice, ghost f: Flight)
      requires Held(f) && Wr(w.hw).bvalid
      modifies `w
      ensures Held(f) && Later(old(w), w, f) && w == Cycle(old(w), a, c) && (c.bready ==> !Wr(w.hw).bvalid)
    {
      hide Core, On, Clean, Answered, Cycle, Kept, Going, Rank, Silent;
      WriteBlocked(w, a, c);
      CycleKept(w, a, c, f);
      ghost var v := w;
      w := Cycle(w, a, c);
      KeptKeeping(v, w, f);
    }

    /** writel(): applied in one particular cycle, however its halves arrive. */
    method WriteReg(addr: Byte, value: Byte, lag: Lag, ghost f: Flight)
      returns (ghost seen: World, ghost a: Access, ghost c: Choice)
      requires Held(f)
      modifies `w
      ensures Core(seen) && Kept(old(w), seen, f) && Lands(seen, a, c, addr, value)
      ensures w == Cycle(seen, a, c) && Undisturbed(old(w), w)
    {
      hide Core, On, Clean, Answered, Cycle, Kept, Going, Rank, Settled, WillingIn, Lands;
      Arrive(lag, f);
      ghost var u := w;
      var whole := WriteOf(addr, value);
      match lag.order {
        case Together =>
          AwaitWrite(whole, lag.held, lag.release, f);
          WriteLands(w, whole, lag.at);
          a, c := whole, lag.at;
        case AddrFirst =>
          PostHalf(AddrOf(addr), lag, f);
          HalvesLand(w, DataOf(value), lag.last, addr, value);
          a, c := DataOf(value), lag.last;
        case DataFirst =>
          PostHalf(DataOf(value), lag, f);
          HalvesLand(w, AddrOf(addr), lag.last, addr, value);
          a, c := AddrOf(addr), lag.last;
      }
      KeptTrans(old(w), u, w, f);
      seen := w;
      KeptCore(old(w), w, f);
      KeptUndisturbed(old(w), w, f);
      CycleMoves(w, a, c);
      match lag.order {
        case Together => w := Cycle(w, whole, lag.at);
        case AddrFirst => w := Cycle(w, DataOf(value), lag.last);
        case DataFirst => w := Cycle(w, AddrOf(addr), lag.last);
      }
    }

    /** Half a write is accepted, and the rest is yet to come. */
    method PostHalf(a: Access, lag: Lag, ghost f: Flight)
      requires Held(f) && (a.AddrOf? || (a.DataOf? && a.value < 256))
      modifies `w
      ensures Keeping(f) && Kept(old(w), w, f)
      ensures if a.AddrOf? then HasAddr(Wr(w.hw), a.addr) else HasData(Wr(w.hw), a.value)
    {
      hide Core, On, Clean, Answered, Cycle, Kept, Going, Rank, Settled, WillingIn, Silent;
      AwaitWrite(a, lag.held, lag.release, f);
      HalfWaits(w, a, lag.at);
      CycleKept(w, a, lag.at, f);
      ghost var u := w;
      w := Cycle(w, a, lag.at);
      KeptKeeping(u, w, f);
      KeptTrans(old(w), u, w, f);
      u := w;
      Idle(lag.after, f);
      KeptTrans(old(w), u, w, f);
    }

    // --- the DMA channels ---

    /** Whether dmaengine accepts a descriptor is not the driver's to say; a refusal queues nothing. */
    method Submit(d: Direction, beats: nat, accepted: bool, ghost duplex: bool) returns (ret: Option<Errno>)
      requires Sound(w) && Ordered(events, duplex)
      modifies `w, `events
      ensures Sound(w) && Ordered(events, duplex) && Clean(w) == Clean(old(w)) && SlopeOf(w) == SlopeOf(old(w))
      ensures ret == if accepted then None else Some(EQUEUE)
      ensures !accepted ==> w == old(w) && events == old(events)
      ensures accepted ==> events == old(events) + [Submitted(d)]
      ensures accepted ==> w == match d {
                                  case Tx => old(w).(tx := Chan(Some(beats), old(w.tx.active), 0))
                                  case Rx => old(w).(rx := Chan(Some(beats), old(w.rx.active), 0))
                                }
    {
      hide Sound, Clean, SlopeOf, Ordered;
      if !accepted {
        return Some(EQUEUE);
      }
      ret := None;
      ghost var v := w;
      match d {
        case Tx => w := w.(tx := Chan(Some(beats), w.tx.active, 0));
        case Rx => w := w.(rx := Chan(Some(beats), w.rx.active, 0));
      }
      Requeue(v, w.tx, w.rx);
      assert w == v.(tx := w.tx, rx := w.rx);
      OrderedGrows(events, Submitted(d), duplex);
      events := events + [Submitted(d)];
    }

    method IssuePending(d: Direction, ghost f: Flight, ghost duplex: bool)
      requires Sound(w) && On(w, f) && Ordered(events, duplex) && MayFollow(events, Issued(d), duplex)
      requires if d.Tx? then w.tx.pending == Some(|f.plan|) else w.hw.Relu? && w.rx.pending == Some(|f.plan|)
      modifies `w, `events
      ensures Sound(w) && On(w, f) && Ordered(events, duplex) && SlopeOf(w) == SlopeOf(old(w))
      ensures events == old(events) + [Issued(d)]
      ensures w == match d {
                     case Tx => old(w).(tx := Chan(None, old(w.tx.pending), old(w.tx.moved)))
                     case Rx => old(w).(rx := Chan(None, old(w.rx.pending), old(w.rx.moved)))
                   }
    {
      hide Sound, SlopeOf, Ordered, ReluOn, SparseOn;
      ghost var v := w;
      match d {
        case Tx => w := w.(tx := Chan(None, w.tx.pending, w.tx.moved));
        case Rx => w := w.(rx := Chan(None, w.rx.pending, w.rx.moved));
      }
      Requeue(v, w.tx, w.rx);
      Rechannel(v, w.tx, w.rx, f);
      assert w == v.(tx := w.tx, rx := w.rx);
      OrderedGrows(events, Issued(d), duplex);
      events := events + [Issued(d)];
    }

    /** dmaengine_terminate_sync(): whatever the channel held is gone and moves no further beat. */
    method Terminate(d: Direction, ghost duplex: bool)
      requires Sound(w) && Ordered(events, duplex)
      modifies `w, `events
      ensures Sound(w) && Ordered(events, duplex) && SlopeOf(w) == SlopeOf(old(w)) && Clean(w) == Clean(old(w))
      ensures w == match d {
                     case Tx => old(w).(tx := Chan(None, None, old(w.tx.moved)))
                     case Rx => old(w).(rx := Chan(None, None, old(w.rx.moved)))
                   }
      ensures events == old(events) + [Terminated(d)]
    {
      hide Sound, Clean, SlopeOf, Ordered;
      ghost var v := w;
      match d {
        case Tx => w := w.(tx := Chan(None, None, w.tx.moved));
        case Rx => w := w.(rx := Chan(None, None, w.rx.moved));
      }
      Requeue(v, w.tx, w.rx);
      assert w == v.(tx := w.tx, rx := w.rx);
      OrderedGrows(events, Terminated(d), duplex);
      events := events + [Terminated(d)];
    }

    /** A channel's completion comes some time after its last beat, or too late. Either way the
        descriptor, which points at this call's stack, is off the channel when this returns. */
    method Wait(d: Direction, sched: seq<Choice>, late: bool, ghost f: Flight, ghost duplex: bool)
      returns (ret: Option<Errno>)
      requires Held(f) && On(w, f) && Ordered(events, duplex)
      requires if d.Tx? then w.tx.active.Some? && w.tx.pending.None? else w.rx.active.Some? && w.rx.pending.None?
      modifies `w, `events
      ensures Held(f) && On(w, f) && Ordered(events, duplex) && SlopeOf(w) == SlopeOf(old(w))
      ensures Undisturbed(old(w).(tx := w.tx, rx := w.rx), w)
      ensures d.Tx? ==> Vacant(w.tx) && w.rx == old(w.rx).(moved := w.rx.moved)
      ensures d.Rx? ==> Vacant(w.rx) && w.tx == old(w.tx).(moved := w.tx.moved)
      ensures w.tx.moved >= old(w.tx.moved) && w.rx.moved >= old(w.rx.moved)
      ensures ret == None || ret == Some(ETIMEDOUT)
      ensures ret.None? <==> !late && (if d.Tx? then w.tx.moved else w.rx.moved) == |f.plan|
      ensures events == old(events) + if ret.None? then [] else [Terminated(d)]
      ensures Going(old(w), f) ==> Rank(w, f) <= Less(Rank(old(w), f), WillingIn(sched))
    {
      hide Sound, ReluOn, SparseOn, Clean, Answered, SlopeOf, Ordered, Rank, WillingIn;
      Elapse(sched, f);
      ghost var v := w;
      var chan := if d.Tx? then w.tx else w.rx;
      if !late && Remaining(chan) == 0 {
        match d {
          case Tx => w := w.(tx := Chan(None, None, w.tx.moved));
          case Rx => w := w.(rx := Chan(None, None, w.rx.moved));
        }
        Requeue(v, w.tx, w.rx);
        assert w == v.(tx := w.tx, rx := w.rx);
        ret := None;
      } else {
        Terminate(d, duplex);
        ret := Some(ETIMEDOUT);
      }
      Rechannel(v, w.tx, w.rx, f);
      RankStays(v, w.tx, w.rx, f);
      OnBounds(w, f);
      assert w == v.(tx := w.tx, rx := w.rx);
    }

    // --- the register layers: may a tile start, what starts it, has it finished ---

    method Accept(lag: Lag, ghost f: Flight) returns (ret: Option<Errno>)
      requires Held(f) && Quiet(w)
      modifies `w
      ensures Held(f) && Later(old(w), w, f) && (ret == None || ret == Some(EBUSY))
      ensures ret.None? <==> Clean(old(w))
    {
      hide Sound, On, Answered, Clean, Shown, Settled, Going, Rank;
      ghost var seen;
      var status;
      status, seen := ReadReg(R.REG_STATUS, lag, f);
      NotBusy(seen, ReadOf(R.REG_STATUS), lag.at);
      ret := if status % 2 == 1 then Some(EBUSY) else None;
    }

    /** sparse_cnn takes START and EN in one write; relu only has its enable written. */
    method Start(lag: Lag, ghost f: Flight, ghost duplex: bool)
      requires Held(f) && Quiet(w) && Clean(w) && w.tx.moved == 0
      requires 0 < |f.plan| <= MAX_BEATS && f.plan == Beats(w.hw, w.txBuf, |f.plan|)
      requires w.hw.Relu? ==> On(w, f) && SlopeOf(w) == f.slope
      requires Ordered(events, duplex) && MayFollow(events, Started, duplex)
      modifies `w, `events
      ensures Sound(w) && w.locked && On(w, f) && Quiet(w)
      ensures w.tx == old(w.tx) && w.rx == old(w.rx) && w.txBuf == old(w.txBuf)
      ensures (w.hw.Relu? <==> old(w.hw).Relu?) && SlopeOf(w) == SlopeOf(old(w)) && Enabled(w.hw)
      ensures Ordered(events, duplex) && events == old(events) + [Started]
    {
      hide Sound, ReluOn, SparseOn, Answered, Clean, Beats, Cycle, Ordered, Enabled, Rank, Settled;
      ghost var seen, a, c;
      if w.hw.Relu? {
        seen, a, c := WriteReg(R.REG_CTRL, ENABLE, lag, f);
        ReluStarts(seen, a, c, f);
        CycleMoves(seen, a, c);
        OnSlope(w, f);
      } else {
        ghost var v := w;
        seen, a, c := WriteReg(S.REG_CTRL, START, lag, f);
        SameBeats(v, seen, |f.plan|);
        SparseStarts(seen, a, c, f);
        CycleMoves(seen, a, c);
      }
      OrderedGrows(events, Started, duplex);
      events := events + [Started];
    }

    /** readl_poll_timeout(): until DONE, and once more when the time is up. */
    method PollDone(polls: seq<Lag>, lastPoll: Lag, ghost f: Flight) returns (done: bool, ghost seen: World)
      requires Held(f)
      modifies `w
      ensures Held(f) && Later(old(w), seen, f) && Later(seen, w, f) && Later(old(w), w, f)
      ensures done <==> SaysDone(seen)
      ensures done && w.hw.Sparse? ==> Answered(w)
      ensures Landed(old(w), f) ==> done
    {
      hide Sound, On, Answered, Clean, Shown, Landed, Later, SaysDone;
      done := false;
      LaterSelf(w, f);
      for k := 0 to |polls|
        invariant Held(f) && Later(old(w), w, f) && !done
      {
        ghost var v := w;
        done, seen := SampleDone(polls[k], f);
        if Landed(old(w), f) { LaterLanded(old(w), v, f); }
        LaterTrans(old(w), v, seen, f);
        LaterTrans(old(w), v, w, f);
        if done {
          return;
        }
      }
      if Landed(old(w), f) { LaterLanded(old(w), w, f); }
      ghost var v := w;
      done, seen := SampleDone(lastPoll, f);
      LaterTrans(old(w), v, seen, f);
      LaterTrans(old(w), v, w, f);
    }

    method SampleDone(lag: Lag, ghost f: Flight) returns (done: bool, ghost seen: World)
      requires Held(f)
      modifies `w
      ensures Held(f) && Later(old(w), seen, f) && Later(seen, w, f) && Later(old(w), w, f)
      ensures done <==> SaysDone(seen)
      ensures done && w.hw.Sparse? ==> Answered(w)
      ensures Landed(old(w), f) ==> done
    {
      hide Sound, On, Answered, Clean, Shown, Settled, Going, Rank;
      var status;
      status, seen := ReadReg(R.REG_STATUS, lag, f);
      done := status / 2 % 2 == 1;
      SaidDone(seen, lag.at);
      if Landed(old(w), f) {
        LaterLanded(old(w), seen, f);
        LandedIsDone(seen, lag.at, f);
      }
      LaterMoves(seen, w, f);
    }

    /** relu: DONE, and the length the accelerator counted; a tile that has landed passes both. */
    method ReluFinish(beats: nat, env: Env, ghost f: Flight)
      returns (ret: Option<Errno>, ghost polled: World, ghost counted: World)
      requires Held(f) && On(w, f) && w.hw.Relu? && beats == |f.plan|
      modifies `w
      ensures Held(f) && Later(old(w), w, f)
      ensures Later(old(w), polled, f) && Later(polled, counted, f) && Later(counted, w, f)
      ensures ret == if !SaysDone(polled) then Some(ETIMEDOUT)
                     else if CountShown(counted) != beats then Some(EIO) else None
      ensures Landed(old(w), f) ==> ret == None
    {
      hide Sound, ReluOn, SparseOn, Answered, Clean, Shown, Going, Rank, Settled, Landed, SaysDone, Later;
      var done;
      done, polled := PollDone(env.polls, env.lastPoll, f);
      counted := w;
      if !done {
        LaterSelf(w, f);
        return Some(ETIMEDOUT), polled, counted;
      }
      ghost var v := w;
      var count;
      count, counted := ReadReg(R.REG_COUNT, env.first, f);
      LaterTrans(old(w), v, w, f);
      LaterTrans(old(w), v, counted, f);
      LaterTrans(polled, v, counted, f);
      LaterRelu(old(w), counted, f);
      SaidCount(counted, env.first.at);
      ret := if count != beats then Some(EIO) else None;
      if Landed(old(w), f) {
        LaterLanded(old(w), counted, f);
        LandedCount(counted, env.first.at, f);
      }
    }

    /** sparse_cnn: the answer is in the registers once DONE is seen. */
    method SparseFinish(env: Env, ghost f: Flight) returns (ret: Option<Errno>)
      requires Held(f) && On(w, f) && w.hw.Sparse? && w.tx.moved == |f.plan|
      modifies `w, `acc, `skip
      ensures Held(f) && Later(old(w), w, f)
      ensures Landed(old(w), f) ==> ret == None
      ensures ret.None? ==> acc == Dot(Pairs(f.plan)) && skip == Zeros(Pairs(f.plan))
      ensures ret.Some? ==> acc == old(acc) && skip == old(skip)
    {
      hide Sound, ReluOn, SparseOn, Answered, Clean, Shown, Dot, Zeros, Going, Rank, Settled, Landed;
      var done;
      ghost var seen;
      done, seen := PollDone(env.polls, env.lastPoll, f);
      if !done {
        return Some(ETIMEDOUT);
      }
      ghost var v := w;
      var word;
      word, seen := ReadReg(S.REG_ACC, env.first, f);
      AnswerShown(seen, ReadOf(S.REG_ACC), env.first.at, f);
      acc := Signed(word, WORD);
      LaterTrans(old(w), v, w, f);
      v := w;
      word, seen := ReadReg(S.REG_SKIP, env.second, f);
      AnswerShown(seen, ReadOf(S.REG_SKIP), env.second.at, f);
      skip := word;
      LaterTrans(old(w), v, w, f);
      ret := None;
    }

    // --- the transport ---

    /** Between tiles both channels are empty: no descriptor refers to a finished call's stack. */
    ghost predicate Rested()
      reads this
    {
      Sound(w) && Vacant(w.tx) && Vacant(w.rx)
    }

    /** Both descriptors, the return path's first; the first refusal stops. */
    method Queue(beats: nat, env: Env, duplex: bool) returns (ret: Option<Errno>)
      requires Rested() && Clean(w) && Ordered(events, duplex) && duplex == w.hw.Relu?
      modifies `w, `events
      ensures Sound(w) && Clean(w) && Ordered(events, duplex) && SlopeOf(w) == SlopeOf(old(w))
      ensures w == old(w).(tx := w.tx, rx := w.rx)
      ensures ret == if env.txQueued && (duplex ==> env.rxQueued) then None else Some(EQUEUE)
      ensures ret.Some? ==> Vacant(w.tx) && (!duplex ==> Vacant(w.rx))
      ensures ret.None? ==>
                && w.tx == Chan(Some(beats), None, 0) && MayFollow(events, Started, duplex)
                && w.rx == if duplex then Chan(Some(beats), None, 0) else old(w.rx)
      ensures ret.None? ==> events == old(events) + Queueing(duplex)
      ensures Started in events ==> Started in old(events)
    {
      hide Sound, Clean, Ordered, SlopeOf;
      if duplex {
        ret := Submit(Rx, beats, env.rxQueued, duplex);
        if ret.Some? {
          return;
        }
      }
      ret := Submit(Tx, beats, env.txQueued, duplex);
    }

    /** The accelerator is started, the return path released, and only then the tile sent. */
    method Launch(lag: Lag, ghost f: Flight, duplex: bool)
      requires Held(f) && Quiet(w) && Clean(w) && duplex == w.hw.Relu?
      requires 0 < |f.plan| <= MAX_BEATS && f.plan == Beats(w.hw, w.txBuf, |f.plan|)
      requires w.tx == Chan(Some(|f.plan|), None, 0)
      requires if duplex then w.rx == Chan(Some(|f.plan|), None, 0) && On(w, f) && SlopeOf(w) == f.slope
               else Vacant(w.rx)
      requires Ordered(events, duplex) && MayFollow(events, Started, duplex)
      modifies `w, `events
      ensures Held(f) && On(w, f) && Going(w, f) && Ordered(events, duplex) && SlopeOf(w) == SlopeOf(old(w))
      ensures w.tx == Chan(None, Some(|f.plan|), 0) && w.txBuf == old(w.txBuf) && (w.hw.Relu? <==> old(w.hw).Relu?)
      ensures w.rx == if duplex then Chan(None, Some(|f.plan|), 0) else old(w.rx)
      ensures events == old(events) + if duplex then [Started, Issued(Rx), Issued(Tx)] else [Started, Issued(Tx)]
    {
      hide Sound, ReluOn, SparseOn, Clean, Ordered, SlopeOf, Beats, Enabled;
      Start(lag, f, duplex);
      if duplex {
        IssuePending(Rx, f, duplex);
      }
      IssuePending(Tx, f, duplex);
    }

    /** The register layer agrees that the tile is finished; only then are results published. */
    method Finish(bytes: nat, beats: nat, env: Env, ghost f: Flight) returns (ret: Option<Errno>)
      requires Held(f) && Landed(w, f) && received == 0 && Vacant(w.tx) && Vacant(w.rx)
      requires bytes <= |w.txBuf| && bytes == (if w.hw.Relu? then beats else 2 * beats) && beats == |f.plan|
      requires w.hw.Relu? ==> SlopeOf(w) == f.slope
      modifies `w, `received, `acc, `skip
      ensures Rested() && w.locked && Undisturbed(old(w), w) && SlopeOf(w) == SlopeOf(old(w))
      ensures ret == None && Clean(w) && Complete(w, beats)
      ensures Delivered(w, bytes, SlopeOf(w), received, acc, skip)
    {
      hide Sound, ReluOn, SparseOn, Answered, Clean, SlopeOf, Delivered, Pairs, Beats, Dot, Zeros, Going, Rank;
      if w.hw.Relu? {
        ghost var polled, counted;
        ret, polled, counted := ReluFinish(beats, env, f);
        OnBounds(w, f);
        if ret.None? {
          received := bytes;
        }
        ReluDelivers(w, f, acc, skip);
      } else {
        ret := SparseFinish(env, f);
        SparseDelivers(w, f, acc, skip);
      }
      CleanIff(w, f);
    }

    /** A tile whose descriptors are queued: it is started, sent, waited for and finished. If the outgoing
        transfer fails the return path's descriptor goes too. */
    method Send(bytes: nat, beats: nat, env: Env, duplex: bool) returns (ret: Option<Errno>)
      requires Sound(w) && Clean(w) && w.locked && Quiet(w) && received == 0 && duplex == w.hw.Relu?
      requires 0 < bytes <= |w.txBuf| && bytes == (if duplex then beats else 2 * beats) && beats <= MAX_BEATS
      requires w.tx == Chan(Some(beats), None, 0) && if duplex then w.rx == Chan(Some(beats), None, 0) else Vacant(w.rx)
      requires Ordered(events, duplex) && MayFollow(events, Started, duplex) && events == Queueing(duplex)
      modifies `w, `received, `acc, `skip, `events
      ensures Rested() && w.locked && w.txBuf == old(w.txBuf)
      ensures (w.hw.Relu? <==> old(w.hw).Relu?) && SlopeOf(w) == SlopeOf(old(w)) && Ordered(events, duplex)
      ensures Sent(events, ret, duplex) && (ret == None || ret == Some(ETIMEDOUT))
      ensures Patient(env, beats) ==> ret == None
      ensures ret == None <==> !Late(env, duplex) && Complete(w, beats)
      ensures Clean(w) <==> ret == None || Through(w, beats)
      ensures ret.Some? ==> received == 0 && acc == old(acc) && skip == old(skip)
      ensures ret.None? ==> Delivered(w, bytes, SlopeOf(w), received, acc, skip)
    {
      hide Sound, ReluOn, SparseOn, Answered, Clean, Delivered, Ordered, SlopeOf, Beats, MayFollow, Enabled, Rank;
      hide WillingIn;
      ghost var f := Takeoff(w, beats);
      TakeoffOn(w, beats);
      Launch(env.start, f, duplex);
      RankBound(w, f);
      ret := Wait(Tx, env.sending, env.sentLate, f, duplex);
      if Rank(w, f) == 0 { RankZero(w, f); }
      CleanIff(w, f);
      if ret.Some? {
        if duplex {
          Terminate(Rx, duplex);
        }
        return;
      }
      if duplex {
        ret := Wait(Rx, env.returning, env.returnedLate, f, duplex);
        OnBounds(w, f);
        CleanIff(w, f);
        if ret.Some? {
          return;
        }
      }
      ret := Finish(bytes, beats, env, f);
    }

    /** One tile, from the check that the accelerator can take it to its published results, and every
        way out in between. */
    method RunTile(bytes: nat, env: Env) returns (ret: Option<Errno>)
      requires Rested() && w.locked
      requires 0 < bytes <= |w.txBuf| && bytes % BeatBytes(w.hw) == 0 && bytes / BeatBytes(w.hw) <= MAX_BEATS
      modifies this`w, this`received, this`acc, this`skip, this`events
      ensures Rested() && w.locked && w.txBuf == old(w.txBuf)
      ensures (w.hw.Relu? <==> old(w.hw).Relu?) && SlopeOf(w) == SlopeOf(old(w))
      ensures Ordered(events, w.hw.Relu?)
      ensures var why := Setback(Clean(old(w)), w.hw.Relu?, env);
              if why.Some? then ret == why && Clean(w) == Clean(old(w)) && Started !in events
              else Sent(events, ret, w.hw.Relu?) && (ret == None || ret == Some(ETIMEDOUT))
                   && (Patient(env, bytes / BeatBytes(w.hw)) ==> ret == None)
                   && (ret == None <==> !Late(env, w.hw.Relu?) && Complete(w, bytes / BeatBytes(w.hw)))
      ensures ret.None? ==> Clean(w)
      ensures ret == Some(ETIMEDOUT) ==> Clean(w) == Through(w, bytes / BeatBytes(w.hw))
      ensures ret.Some? ==> received == 0 && acc == old(acc) && skip == old(skip)
      ensures ret.None? ==> Delivered(w, bytes, SlopeOf(w), received, acc, skip)
    {
      hide Sound, ReluOn, SparseOn, Answered, Clean, Delivered, Ordered, SlopeOf, Beats, MayFollow, Enabled, Rank;
      hide WillingIn, Sent, Through, Complete;
      var duplex := w.hw.Relu?;
      var beats := bytes / BeatBytes(w.hw);
      received := 0;
      events := [];
      OrderedNothing(duplex);

      ret := Accept(env.accept, Flight(R.NO_BEATS, [], 0));
      if ret.Some? {
        return;
      }
      if duplex && !env.rxPrepared {
        return Some(EIO);
      }
      label attempt: {
        if !env.txPrepared {
          ret := Some(EIO);
          break attempt;
        }
        ret := Queue(beats, env, duplex);
        if ret.Some? {
          break attempt;
        }
        ret := Send(bytes, beats, env, duplex);
        return;
      }
      if duplex {
        Terminate(Rx, duplex);
      }
    }

    // --- the character device and the slope attribute ---

    /** What every program is promised, whatever calls were made and whatever failed. */
    ghost predicate Valid()
      reads this
    {
      && Rested() && !w.locked && |w.txBuf| == MAX_BEATS * BeatBytes(w.hw)
      && Reports(w, received, acc, skip, calls, origin.slope) && (w.hw.Relu? <==> origin.relu)
    }

    /** The buffers and results are new; the accelerator is as it was found. */
    constructor (hw: Hw)
      requires Standing(hw)
      ensures Valid() && calls == [] && w.hw == hw && origin == OriginOf(hw)
    {
      w := World(hw, EMPTY, EMPTY, seq(MAX_BEATS * BeatBytes(hw), _ => 0), seq(MAX_BEATS, _ => 0), false);
      received, acc, skip, calls, events, origin := 0, 0, 0, [], [], OriginOf(hw);
      new;
      Claimed(hw, w);
    }

    /** write(): one tile. */
    method Write(data: seq<Byte>, env: Env) returns (ret: Ret)
      requires Valid()
      modifies this
      ensures Valid() && (w.hw.Relu? <==> old(w.hw).Relu?)
      ensures calls == old(calls) + WriteEffect(data, ret)
      ensures Outcome(Clean(old(w)), w.hw.Relu?, data, env, ret)
      ensures Refusal(Clean(old(w)), w.hw.Relu?, |data|, env).None? ==>
                (ret.Ok? <==> !Late(env, w.hw.Relu?) && Complete(w, |data| / BeatBytes(w.hw)))
      ensures Clean(w) == if ret == Err(ETIMEDOUT) then Through(w, |data| / BeatBytes(w.hw)) else Clean(old(w))
    {
      hide Sound, SlopeOf, Delivered, Ordered, Reports, Clean, WillingIn;
      if |data| == 0 || |data| % BeatBytes(w.hw) != 0 {
        return Err(EINVAL);
      }
      if |data| > |w.txBuf| {
        return Err(EMSGSIZE);
      }
      if env.interrupted {
        return Err(ERESTARTSYS);
      }
      ghost var v, got, sum, zeros := w, received, acc, skip;
      var copied := if env.copied || env.faultAt > |data| then |data| else env.faultAt;
      Refill(w, data[..copied] + w.txBuf[copied..], true);
      w := w.(txBuf := data[..copied] + w.txBuf[copied..], locked := true);
      if !env.copied {
        ret := Err(EFAULT);
        SameReport(v, w, received, acc, skip, calls, origin.slope);
      } else {
        assert w.txBuf[..|data|] == data;
        var r := RunTile(|data|, env);
        ret := if r.Some? then Err(r.value) else Ok(|data|);
        NewReport(v, got, sum, zeros, calls, origin.slope, w, received, acc, skip, data, ret.Ok?);
        calls := calls + [Wrote(data, ret.Ok?)];
      }
      Refill(w, w.txBuf, false);
      SameReport(w, w.(locked := false), received, acc, skip, calls, origin.slope);
      w := w.(locked := false);
    }

    /** read(): the last tile's results, in the accelerator's own shape. */
    method Read(count: nat, interrupted: bool, faulted: bool) returns (ret: Ret, answer: Answer)
      requires Valid()
      ensures Reading(count, interrupted, faulted, AnswerTo(calls, origin), ret, answer)
    {
      hide Sound, SlopeOf;
      answer := Nothing;
      if interrupted {
        return Err(ERESTARTSYS), answer;
      }
      if w.hw.Relu? {
        if received == 0 {
          return Ok(0), Tile([]);
        }
        if count < received {
          return Err(EINVAL), answer;
        }
        if faulted {
          return Err(EFAULT), answer;
        }
        return Ok(received), Tile(w.rxBuf[..received]);
      } else {
        if count < RESULT_BYTES {
          return Err(EINVAL), answer;
        }
        if faulted {
          return Err(EFAULT), answer;
        }
        return Ok(RESULT_BYTES), Totals(acc, skip);
      }
    }

    /** The slope attribute: refused rather than truncated, and held against the tile path. */
    method SlopeStore(parsed: Parsed, length: nat, lag: Lag) returns (ret: Ret)
      requires Valid() && w.hw.Relu?
      modifies this
      ensures Valid() && w.hw.Relu? && Clean(w) == Clean(old(w))
      ensures ret == match parsed
                     case Malformed => Err(EINVAL)
                     case TooLong => Err(ERANGE)
                     case Number(n) => if n > 255 then Err(ERANGE) else Ok(length)
      ensures calls == old(calls) + if ret.Ok? then [Slope(parsed.value)] else []
    {
      hide Sound, Ordered, LeakyTile, ReluAnswer, SlopeAfter, Clean, On, Cycle, Settled, Going, Rank;
      if !parsed.Number? {
        return Err(if parsed.Malformed? then EINVAL else ERANGE);
      }
      if parsed.value > 255 {
        return Err(ERANGE);
      }
      Refill(w, w.txBuf, true);
      w := w.(locked := true);
      ghost var seen, a, c := WriteReg(R.REG_SLOPE, parsed.value, lag, Flight(R.NO_BEATS, [], 0));
      SlopeLands(seen, parsed.value, a, c);
      Refill(w, w.txBuf, false);
      w := w.(locked := false);
      Another(calls, Slope(parsed.value), origin.slope);
      calls := calls + [Slope(parsed.value)];
      ret := Ok(length);
    }
  }

  // ---------------------------------------------------------------------------
  // Whole sessions
  // ---------------------------------------------------------------------------

  datatype Op = WriteOp(data: seq<Byte>, env: Env)
              | ReadOp(count: nat, interrupted: bool, faulted: bool)
              | SlopeOp(parsed: Parsed, length: nat, lag: Lag)

  /** One system call as its caller saw it. */
  datatype Exchange = Exchange(op: Op, ret: Ret, answer: Answer)

  function Effect(x: Exchange): seq<Call> {
    match x.op
    case WriteOp(data, _) => WriteEffect(data, x.ret)
    case ReadOp(_, _, _) => []
    case SlopeOp(parsed, _, _) =>
      if x.ret.Ok? && parsed.Number? && parsed.value <= 255 then [Slope(parsed.value)] else []
  }

  /** The calls that matter, told from what the callers saw alone. */
  function CallsOf(xs: seq<Exchange>): seq<Call> {
    if xs == [] then [] else CallsOf(xs[..|xs| - 1]) + Effect(xs[|xs| - 1])
  }

  predicate Seen(xs: seq<Exchange>, e: Errno) { exists k | 0 <= k < |xs| :: xs[k].ret == Err(e) }

  /** The write got past the check that the accelerator can take it, and did not time out: so there is
      nothing inside. */
  predicate Clears(x: Exchange) {
    x.op.WriteOp? && (x.ret.Ok? || x.ret.errno == EIO || x.ret.errno == EQUEUE)
  }

  /** No write has timed out since the last that cleared, or since the accelerator was found bare. */
  predicate Fit(xs: seq<Exchange>, bare: bool) {
    if xs == [] then bare
    else
      var x := xs[|xs| - 1];
      x.ret != Err(ETIMEDOUT) && (Clears(x) || Fit(xs[..|xs| - 1], bare))
  }

  /** A call that follows the calls xs: a read gets the golden answer to them; a write is never
      refused as busy unless one has timed out since the last that got past that check, and once one has been
      refused as busy every later one is. */
  predicate Due(xs: seq<Exchange>, x: Exchange, o: Origin) {
    match x.op
    case ReadOp(count, interrupted, faulted) =>
      Reading(count, interrupted, faulted, AnswerTo(CallsOf(xs), o), x.ret, x.answer)
    case WriteOp(data, env) =>
      && (Outcome(true, o.relu, data, env, x.ret) || Outcome(false, o.relu, data, env, x.ret))
      && (Fit(xs, o.bare) ==> Outcome(true, o.relu, data, env, x.ret))
      && (Seen(xs, EBUSY) ==> Outcome(false, o.relu, data, env, x.ret))
    case SlopeOp(parsed, length, _) =>
      x.ret == if parsed.Malformed? then Err(EINVAL)
               else if parsed.TooLong? || parsed.value > 255 then Err(ERANGE) else Ok(length)
  }

  predicate Entitled(xs: seq<Exchange>, k: nat, o: Origin)
    requires k < |xs|
  {
    Due(xs[..k], xs[k], o)
  }

  /** Whatever sequence of calls programs make, and whatever the DMA, the bus, the user's memory
      and the timing do to each of them, every call gets what it is due: every read that succeeds
      returns exactly what the golden models say of the calls before it, and every write succeeds
      that nothing outside the driver stands in the way of. */
  method Session(hw: Hw, ops: seq<Op>) returns (xs: seq<Exchange>)
    requires Standing(hw)
    requires forall k | 0 <= k < |ops| :: ops[k].SlopeOp? ==> hw.Relu?
    ensures |xs| == |ops| && forall k | 0 <= k < |xs| :: xs[k].op == ops[k] && Entitled(xs, k, OriginOf(hw))
  {
    hide Clean, Due, Sound, Reports, Effect, Seen, Fit;
    ghost var o := OriginOf(hw);
    var dev := new AccelDevice(hw);
    xs := [];
    SeenNothing(EBUSY);
    FoundBare(dev.w);
    for n := 0 to |ops|
      invariant dev.Valid() && dev.origin == o && fresh(dev)
      invariant |xs| == n && dev.calls == CallsOf(xs)
      invariant forall k | 0 <= k < n :: xs[k].op == ops[k] && Entitled(xs, k, OriginOf(hw))
      invariant (Fit(xs, o.bare) ==> Clean(dev.w)) && (Seen(xs, EBUSY) ==> !Clean(dev.w))
    {
      var x := Serve(dev, ops[n], xs);
      Append(xs, x, o);
      FitGrows(xs, x, o.bare);
      SeenGrows(xs, x, EBUSY);
      xs := xs + [x];
    }
  }

  lemma Append(xs: seq<Exchange>, x: Exchange, o: Origin)
    requires forall k | 0 <= k < |xs| :: Entitled(xs, k, o)
    requires Due(xs, x, o)
    ensures CallsOf(xs + [x]) == CallsOf(xs) + Effect(x)
    ensures forall k | 0 <= k <= |xs| :: Entitled(xs + [x], k, o)
  {
    hide Due, Effect;
    var ys := xs + [x];
    assert ys[..|xs|] == xs;
    forall k | 0 <= k <= |xs|
      ensures Entitled(ys, k, o)
    {
      if k < |xs| {
        assert Entitled(xs, k, o);
        assert ys[..k] == xs[..k];
      }
    }
  }

  lemma SeenGrows(xs: seq<Exchange>, x: Exchange, e: Errno)
    ensures Seen(xs + [x], e) <==> Seen(xs, e) || x.ret == Err(e)
  {
    var ys := xs + [x];
    assert ys[|xs|] == x;
    if Seen(xs, e) {
      var k :| 0 <= k < |xs| && xs[k].ret == Err(e);
      assert ys[k].ret == Err(e);
    }
  }

  lemma FitGrows(xs: seq<Exchange>, x: Exchange, bare: bool)
    ensures Fit(xs + [x], bare) <==> x.ret != Err(ETIMEDOUT) && (Clears(x) || Fit(xs, bare))
  {
    assert (xs + [x])[..|xs|] == xs;
  }

  lemma ReadDue(xs: seq<Exchange>, x: Exchange, o: Origin)
    requires Due(xs, x, o) && x.op.ReadOp? && x.ret.Ok?
    ensures x.answer == AnswerTo(CallsOf(xs), o)
  {
    hide AnswerTo, CallsOf;
  }

  lemma OneMore(xs: seq<Exchange>, k: nat)
    requires k < |xs|
    ensures CallsOf(xs[..k + 1]) == CallsOf(xs[..k]) + Effect(xs[k])
  {
    assert xs[..k + 1][..k] == xs[..k];
  }

  lemma FoundBare(w: World)
    ensures Fit([], OriginOf(w.hw).bare) <==> Clean(w)
  {
  }

  /** What a write's outcome tells of the accelerator it found. */
  lemma Tells(clean: bool, relu: bool, data: seq<Byte>, env: Env, ret: Ret)
    requires Outcome(clean, relu, data, env, ret)
    ensures ret.Ok? || ret.errno == EIO || ret.errno == EQUEUE || ret.errno == ETIMEDOUT ==> clean
    ensures ret == Err(EBUSY) ==> !clean
  {
  }

  lemma SeenNothing(e: Errno)
    ensures !Seen([], e)
  {
  }

  method Serve(dev: AccelDevice, op: Op, ghost xs: seq<Exchange>) returns (x: Exchange)
    requires dev.Valid() && (op.SlopeOp? ==> dev.w.hw.Relu?) && dev.calls == CallsOf(xs)
    requires (Fit(xs, dev.origin.bare) ==> Clean(dev.w)) && (Seen(xs, EBUSY) ==> !Clean(dev.w))
    modifies dev
    ensures dev.Valid() && (dev.w.hw.Relu? <==> old(dev.w.hw).Relu?)
    ensures x.op == op && dev.calls == old(dev.calls) + Effect(x) && Due(xs, x, dev.origin)
    ensures x.ret != Err(ETIMEDOUT) && (Clears(x) || Fit(xs, dev.origin.bare)) ==> Clean(dev.w)
    ensures Seen(xs, EBUSY) || x.ret == Err(EBUSY) ==> !Clean(dev.w)
  {
    hide Clean, WillingIn, Seen, CallsOf, Fit, Outcome, Sound, Reports;
    match op {
      case WriteOp(data, env) =>
        var ret := dev.Write(data, env);
        Tells(Clean(old(dev.w)), dev.origin.relu, data, env, ret);
        x := Exchange(op, ret, Nothing);
      case ReadOp(count, interrupted, faulted) =>
        var ret, answer := dev.Read(count, interrupted, faulted);
        x := Exchange(op, ret, answer);
      case SlopeOp(parsed, length, lag) =>
        var ret := dev.SlopeStore(parsed, length, lag);
        x := Exchange(op, ret, Nothing);
    }
  }

  /** In particular: a write that succeeds and is then read back, with no call in between. */
  lemma WrittenThenRead(xs: seq<Exchange>, k: nat, o: Origin)
    requires k + 1 < |xs| && Entitled(xs, k + 1, o)
    requires xs[k].op.WriteOp? && xs[k].ret.Ok? && xs[k + 1].op.ReadOp? && xs[k + 1].ret.Ok?
    ensures var data := xs[k].op.data;
            xs[k + 1].answer == if o.relu then Tile(LeakyTile(data, SlopeAfter(CallsOf(xs[..k]), o.slope)))
                                else Totals(Dot(TilePairs(data)), Zeros(TilePairs(data)))
    ensures var data, slope := xs[k].op.data, SlopeAfter(CallsOf(xs[..k]), o.slope);
            if o.relu then
              && xs[k + 1].answer.Tile? && |xs[k + 1].answer.ys| == |data|
              && forall i | 0 <= i < |data| :: Scales(data[i], slope, xs[k + 1].answer.ys[i])
            else
              xs[k + 1].answer.Totals? && xs[k + 1].answer.skip
                                          == |set i: nat | i < |data| / 2 && (data[2 * i] == 0 || data[2 * i + 1] == 0)|
  {
    hide Due, CallsOf, ReluAnswer, SparseAnswer, SlopeAfter, Dot, Zeros, TilePairs, LeakyTile, Scales;
    TileScales(xs[k].op.data, SlopeAfter(CallsOf(xs[..k]), o.slope));
    TileZeros(xs[k].op.data);
    ReadDue(xs[..k + 1], xs[k + 1], o);
    OneMore(xs, k);
    Another(CallsOf(xs[..k]), Wrote(xs[k].op.data, true), o.slope);
  }

  /** And a write that reached the accelerator and failed leaves relu nothing to read, and
      sparse_cnn what it had. */
  lemma FailedThenRead(xs: seq<Exchange>, k: nat, o: Origin)
    requires k + 1 < |xs| && Entitled(xs, k + 1, o)
    requires xs[k].op.WriteOp? && xs[k].ret.Err? && xs[k].ret.errno in {EBUSY, EIO, EQUEUE, ETIMEDOUT}
    requires xs[k + 1].op.ReadOp? && xs[k + 1].ret.Ok?
    ensures xs[k + 1].answer == if o.relu then Tile([]) else AnswerTo(CallsOf(xs[..k]), o)
  {
    hide Due, CallsOf, ReluAnswer, SparseAnswer, SlopeAfter, Dot, Zeros, TilePairs, LeakyTile;
    ReadDue(xs[..k + 1], xs[k + 1], o);
    OneMore(xs, k);
    Another(CallsOf(xs[..k]), Wrote(xs[k].op.data, false), o.slope);
  }
}

