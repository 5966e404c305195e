/** What leaves relu_axi and what its COUNT register says, over whole runs. */
module ReluRuns {
  import opened Words
  import opened Wrappers
  import opened AxiLite
  import opened ReluUnit
  import opened ReluAxi

  /** The machine after the first k cycles of a run. */
  function At(m: Machine, ins: seq<Inputs>, k: nat): Machine
    requires k <= |ins|
  {
    if k == 0 then m else Step(At(m, ins, k - 1), ins[k - 1])
  }

  lemma {:induction false} EveryRun(m: Machine, ins: seq<Inputs>, k: nat)
    requires k <= |ins| && Inv(m)
    ensures Inv(At(m, ins, k))
  {
    hide Step, Inv;
    if k == 0 {
    } else {
      EveryRun(m, ins, k - 1);
      StepKeeps(At(m, ins, k - 1), ins[k - 1]);
    }
  }

  /** Stream refinement over every run: the k-th beat to leave is the golden activation of the
      k-th beat accepted, under the slope of its own accept cycle and with its own tlast; and at
      most one accepted beat has yet to leave. */
  lemma Refinement(m: Machine, ins: seq<Inputs>, k: nat)
    requires k <= |ins| && Inv(m)
    ensures var t := At(m, ins, k).t;
            && |t.departures| <= |t.arrivals| <= |t.departures| + 1
            && t.departures == GoldenStream(t.arrivals)[..|t.departures|]
            && forall j | 0 <= j < |t.departures| :: Activated(t.arrivals[j], t.departures[j])
  {
    EveryRun(m, ins, k);
    var t := At(m, ins, k).t;
    forall j | 0 <= j < |t.departures|
      ensures Activated(t.arrivals[j], t.departures[j])
    {
      assert t.departures[j] == Golden(t.arrivals[j]);
      Scaled(t.arrivals[j].x, t.arrivals[j].slope);
    }
  }

  /** A value that is not negative passes; a negative one becomes the greatest whole number not above its
      product with slope / 256. tlast stays on its beat. */
  predicate Activated(a: Arrival, d: Departure) {
    && (a.x >= 0 ==> d.y == a.x)
    && (a.x < 0 ==> 256 * d.y <= a.x * a.slope < 256 * d.y + 256)
    && (d.last <==> a.last)
  }

  /** There is one such departure for each arrival. */
  lemma ActivatedOnce(a: Arrival, d: Departure, e: Departure)
    requires Activated(a, d) && Activated(a, e)
    ensures d == e && d.last == a.last && d.y == if a.x < 0 then a.x * a.slope / 256 else a.x
  {
  }

  lemma Scaled(x: int, slope: nat)
    ensures x >= 0 ==> Leaky(SLOPE_W, x, slope) == x
    ensures x < 0 ==> var y := Leaky(SLOPE_W, x, slope); 256 * y <= x * slope < 256 * y + 256
  {
    hide Leaky;
    Powers();
    LeakyScales(SLOPE_W, x, slope);
  }

  /** A beat accepted in a cycle is recorded as the signed byte it was, under the slope the register held
      in that cycle. */
  lemma Recorded(m: Machine, i: Inputs)
    requires InFire(m.s, i)
    ensures var b := i.tdata % 256;
            Step(m, i).t.arrivals == m.t.arrivals + [Arrival(if b < 128 then b else b - 256, m.s.slope, i.tlast)]
  {
    var b: int := i.tdata % 256;
    assert (b - (b - 256)) % 256 == 0;
    if b >= 128 { SignedIsUnique(b, b - 256, 256); }
  }

  /** The slope moves only with a write to its offset that strobes the low byte, and then to that byte. */
  lemma SlopeLaw(m: Machine, i: Inputs)
    ensures var c := Commit(m.s.wr, i.w);
            Step(m, i).s.slope == if c.Some? && c.value.addr == 0x0C && c.value.load.strb[0] then c.value.load.data[0]
                                  else m.s.slope
  {
  }

  // ---------------------------------------------------------------------------
  // EN, and the register map
  // ---------------------------------------------------------------------------

  /** A write that sets EN, told from the address, the strobe and the data alone. */
  predicate SetsEnable(c: Option<Write>) {
    c.Some? && c.value.addr == 0x04 && c.value.load.strb[0] && c.value.load.data[0] % 2 == 1
  }

  predicate NoEnable(m: Machine, ins: seq<Inputs>, from: nat, to: nat)
    requires to <= |ins|
  {
    to <= from || (NoEnable(m, ins, from, to - 1) && !SetsEnable(Commit(At(m, ins, to - 1).s.wr, ins[to - 1].w)))
  }

  /** EN moves only with a write to CTRL that strobes the low byte, and then to its bit 0. */
  lemma EnableLaw(m: Machine, i: Inputs)
    requires Inv(m)
    ensures var c := Commit(m.s.wr, i.w);
            Step(m, i).s.ctrl[0] == if c.Some? && c.value.addr == 0x04 && c.value.load.strb[0]
                                    then c.value.load.data[0] % 2 else m.s.ctrl[0]
  {
  }

  lemma Disabled(m: Machine, i: Inputs)
    requires m.s.ctrl[0] % 2 == 0
    ensures !Ready(m.s, i) && Step(m, i).t.arrivals == m.t.arrivals
  {
  }

  /** While EN is clear no beat is accepted: from a cycle in which it is clear until a write sets it, the
      record of arrivals does not grow. */
  lemma {:induction false} NothingTaken(m: Machine, ins: seq<Inputs>, j: nat, k: nat)
    requires Inv(m) && j <= k <= |ins| && At(m, ins, j).s.ctrl[0] % 2 == 0 && NoEnable(m, ins, j, k)
    ensures At(m, ins, k).s.ctrl[0] % 2 == 0 && At(m, ins, k).t.arrivals == At(m, ins, j).t.arrivals
    ensures forall c | j <= c < k :: !Ready(At(m, ins, c).s, ins[c])
  {
    hide Step, Inv, Ready;
    if k > j {
      NothingTaken(m, ins, j, k - 1);
      var before := At(m, ins, k - 1);
      EveryRun(m, ins, k - 1);
      EnableLaw(before, ins[k - 1]);
      Disabled(before, ins[k - 1]);
    }
  }

  /** Enabled, it accepts whenever the output register is free or being emptied. */
  lemma ReadyIff(s: Regs, i: Inputs)
    ensures Ready(s, i) <==> s.ctrl[0] % 2 == 1 && (!s.out.valid || i.mready)
  {
  }

  /** What each offset reads: the identity, EN, the status bits, the slope, the count; and zero everywhere
      else. */
  lemma RegisterMap(m: Machine)
    requires Inv(m)
    ensures View(m.s, 0x00) == 0x524C0100
    ensures View(m.s, 0x04) == m.s.ctrl[0] < 2
    ensures View(m.s, 0x08) == (if m.s.acct.busy then 1 else 0) + (if m.s.acct.done then 2 else 0)
    ensures View(m.s, 0x0C) == m.s.slope && View(m.s, 0x10) == m.s.acct.count
    ensures forall addr: Byte | addr !in {0x00, 0x04, 0x08, 0x0C, 0x10} :: View(m.s, addr) == 0
  {
    var b: int := m.s.ctrl[0];
    assert Num(m.s.ctrl) == b;
  }

  /** Out of reset EN is set, the slope is 25 / 256 and nothing has been counted. */
  lemma ResetMap()
    ensures View(INITIAL.s, 0x04) == 1 && View(INITIAL.s, 0x08) == 0
    ensures View(INITIAL.s, 0x0C) == 25 && View(INITIAL.s, 0x10) == 0
  {
  }

  /** A beat that is offered and not taken is offered again unchanged, whatever else happens. */
  lemma {:induction false} StalledBeat(m: Machine, ins: seq<Inputs>, from: nat, k: nat)
    requires from <= k <= |ins| && At(m, ins, from).s.out.valid
    requires forall j | from <= j < k :: !ins[j].mready
    ensures At(m, ins, k).s.out == At(m, ins, from).s.out
  {
    hide Step;
    if k > from {
      StalledBeat(m, ins, from, k - 1);
      StalledStep(At(m, ins, k - 1), ins[k - 1]);
    }
  }

  lemma StalledStep(m: Machine, i: Inputs)
    requires m.s.out.valid && !i.mready
    ensures Step(m, i).s.out == m.s.out
  {
    hide Observe, AccountNext, View, CtrlNext, SlopeNext, WriteNext, ReadNext, Unit;
  }

  // ---------------------------------------------------------------------------
  // COUNT
  // ---------------------------------------------------------------------------

  /** COUNT is a tile's length exactly when its successor overlapped it as its own predecessor did:
      in particular, when neither did. */
  lemma CountIsLengthIff(m: Machine, ins: seq<Inputs>, n: nat, k: nat)
    requires n <= |ins| && Inv(m) && k < |At(m, ins, n).t.tiles|
    ensures var ts := At(m, ins, n).t.tiles;
            ts[k].count == ts[k].length % 65536 <==> ts[k].overlap == Overlapped(ts, k - 1)
  {
    hide Step;
    EveryRun(m, ins, n);
    RightIff(At(m, ins, n).t.tiles, k);
  }

  lemma RightIff(ts: seq<Tile>, k: nat)
    requires TileLaw(ts) && k < |ts|
    ensures ts[k].count == ts[k].length % COUNT_MOD <==> ts[k].overlap == Overlapped(ts, k - 1)
  {
    assert CountOf(ts, k);
    OffByOne(ts[k].length);
  }

  lemma OffByOne(n: nat)
    ensures (n + 1) % COUNT_MOD != n % COUNT_MOD
    ensures (n - 1) % COUNT_MOD != n % COUNT_MOD
  {
  }

  function Counted(ts: seq<Tile>): nat {
    if ts == [] then 0 else Counted(ts[..|ts| - 1]) + ts[|ts| - 1].count
  }

  function Spanned(ts: seq<Tile>): nat {
    if ts == [] then 0 else Spanned(ts[..|ts| - 1]) + ts[|ts| - 1].length
  }

  lemma {:induction false} CountedIsSpanned(ts: seq<Tile>)
    requires TileLaw(ts)
    ensures (Counted(ts) - Spanned(ts) - Carried(ts)) % COUNT_MOD == 0
  {
    if ts == [] {
    } else {
      var us, n := ts[..|ts| - 1], |ts| - 1;
      forall k | 0 <= k < n
        ensures CountOf(us, k)
      {
        assert CountOf(ts, k) && Overlapped(us, k - 1) == Overlapped(ts, k - 1);
      }
      CountedIsSpanned(us);
      assert CountOf(ts, n) && Overlapped(us, n - 1) == Overlapped(ts, n - 1);
      var whole := ts[n].length + Carried(ts) - Carried(us);
      Telescopes(Counted(us) - Spanned(us) - Carried(us), whole);
    }
  }

  lemma Telescopes(a: int, b: int)
    requires a % COUNT_MOD == 0
    ensures (a + b % COUNT_MOD - b) % COUNT_MOD == 0
  {
    assert b % COUNT_MOD - b == -(b / COUNT_MOD) * COUNT_MOD;
  }

  lemma {:induction false} SpannedIsLengths(t: Trace, k: nat)
    requires LengthLaw(t) && k <= |t.tiles|
    ensures Spanned(t.tiles[..k]) == Sum(Lengths(t.departures)[..k])
  {
    if k == 0 {
    } else {
      SpannedIsLengths(t, k - 1);
      assert t.tiles[..k][..k - 1] == t.tiles[..k - 1];
      assert Lengths(t.departures)[..k][..k - 1] == Lengths(t.departures)[..k - 1];
    }
  }

  function Sum(ns: seq<nat>): nat {
    if ns == [] then 0 else Sum(ns[..|ns| - 1]) + ns[|ns| - 1]
  }

  /** The lengths a stream spells out, with its unfinished part, are the whole stream. */
  lemma {:induction false} LengthsCover(ds: seq<Departure>)
    ensures Sum(Lengths(ds)) + Open(ds) == |ds|
  {
    if ds == [] {
    } else {
      var init := ds[..|ds| - 1];
      LengthsCover(init);
      if ds[|ds| - 1].last {
        assert Lengths(ds)[..|Lengths(init)|] == Lengths(init);
      }
    }
  }

  /** Conservation: the COUNTs reported so far and the running counter account for every beat ever
      accepted, modulo the counter's width, whatever overlapped. */
  lemma EveryBeatIsCounted(m: Machine, ins: seq<Inputs>, n: nat)
    requires n <= |ins| && Inv(m)
    ensures var x := At(m, ins, n);
            (Counted(x.t.tiles) + x.s.acct.beats) % 65536 == |x.t.arrivals| % 65536
  {
    hide Step, Inv;
    EveryRun(m, ins, n);
    Conservation(At(m, ins, n));
  }

  lemma Conservation(x: Machine)
    requires Inv(x)
    ensures (Counted(x.t.tiles) + x.s.acct.beats) % COUNT_MOD == |x.t.arrivals| % COUNT_MOD
  {
    var ts, p, c := x.t.tiles, Pending(x.s, x.t), Carried(x.t.tiles);
    CountedIsSpanned(ts);
    SpannedIsLengths(x.t, |ts|);
    assert ts[..|ts|] == ts && Lengths(x.t.departures)[..|ts|] == Lengths(x.t.departures);
    LengthsCover(x.t.departures);
    assert |x.t.arrivals| == Spanned(ts) + p;
    Telescopes(Counted(ts) - Spanned(ts) - c, p - c);
    SameResidue(Counted(ts) + (p - c) % COUNT_MOD, Spanned(ts) + p);
  }

  lemma SameResidue(a: int, b: int)
    requires (a - b) % COUNT_MOD == 0
    ensures a % COUNT_MOD == b % COUNT_MOD
  {
  }

  /** Beats accepted of tiles that have not left, told from the two streams alone. */
  function Inside(t: Trace): int { |t.arrivals| - Sum(Lengths(t.departures)) }

  lemma InsideIsPending(m: Machine)
    requires Inv(m)
    ensures Inside(m.t) == Pending(m.s, m.t)
  {
    hide Lengths, Open, Sum, CountLaw, TileLaw, LengthLaw;
    LengthsCover(m.t.departures);
  }

  lemma StatusIs(s: Regs)
    ensures View(s, REG_STATUS) % 2 == 1 <==> s.acct.busy
    ensures View(s, REG_STATUS) / 2 % 2 == 1 <==> s.acct.done
  {
  }

  /** The first beat of a tile is in the COUNT of the tile before it, and nothing has come after it:
      from an overlap until the tile's second beat is accepted, or as long as a tile of one beat stays. */
  predicate Miscredited(t: Trace) { Overlapped(t.tiles, |t.tiles| - 1) && Inside(t) == 1 }

  /** What STATUS says, over every run: BUSY is up iff a beat inside is not in a COUNT already, and DONE
      is up iff a tile has left and BUSY is not. So BUSY means a tile in flight, and DONE that the last
      one completed, except exactly while a beat is miscredited. */
  lemma StatusIff(m: Machine, ins: seq<Inputs>, n: nat)
    requires n <= |ins| && Inv(m)
    ensures var x, status := At(m, ins, n), View(At(m, ins, n).s, REG_STATUS);
            && Inside(x.t) >= Carried(x.t.tiles)
            && (status % 2 == 1 <==> Inside(x.t) > Carried(x.t.tiles))
            && (status / 2 % 2 == 1 <==> x.t.tiles != [] && status % 2 == 0)
            && ((status % 2 == 1 <==> Inside(x.t) > 0) <==> !Miscredited(x.t))
            && ((status / 2 % 2 == 1 <==> x.t.tiles != [] && Inside(x.t) == 0) <==> !Miscredited(x.t))
  {
    hide Step, View, Inside, StreamLaw, TileLaw, LengthLaw, Pending;
    EveryRun(m, ins, n);
    InsideIsPending(At(m, ins, n));
    StatusIs(At(m, ins, n).s);
  }

  /** With no overlap, then, BUSY spans exactly the time some beat accepted belongs to a tile that has
      not left, and every COUNT is its tile's length. */
  lemma WithoutOverlap(m: Machine)
    requires Inv(m) && (forall k | 0 <= k < |m.t.tiles| :: !m.t.tiles[k].overlap)
    ensures m.s.acct.busy <==> Pending(m.s, m.t) > 0
    ensures m.s.acct.busy <==> |m.t.arrivals| > Sum(Lengths(m.t.departures))
    ensures forall k | 0 <= k < |m.t.tiles| :: m.t.tiles[k].count == Lengths(m.t.departures)[k] % COUNT_MOD
  {
    LengthsCover(m.t.departures);
    forall k | 0 <= k < |m.t.tiles|
      ensures m.t.tiles[k].count == Lengths(m.t.departures)[k] % COUNT_MOD
    {
      assert CountOf(m.t.tiles, k);
    }
  }

  /** And an overlap does break the register map's promise: a one-beat tile leaving as its
      successor's first beat arrives reads COUNT 2 and BUSY 0 with that beat in flight. */
  lemma OverlapMiscounts(i0: Inputs, i1: Inputs)
    requires i0.tvalid && i0.tlast && i1.tvalid && i1.mready && !i1.tlast
    requires !i0.w.awvalid && !i0.w.wvalid && !i1.w.awvalid && !i1.w.wvalid
    ensures var x := At(INITIAL, [i0, i1], 2);
            && Lengths(x.t.departures) == [1]
            && View(x.s, REG_COUNT) == 2 && View(x.s, REG_STATUS) == 2 && x.s.out.valid
  {
    hide Unit, Leaky, StrobeMerge, ReadNext, WriteObserve, ReadObserve;
    var a := Step(INITIAL, i0);
    assert At(INITIAL, [i0, i1], 0) == INITIAL;
    assert At(INITIAL, [i0, i1], 1) == a;
    assert At(INITIAL, [i0, i1], 2) == Step(a, i1);
    assert a.s.out.valid && a.s.out.last && a.t.departures == [];
    OpenGrows([], Departure(a.s.out.data, a.s.out.last));
    assert [] + [Departure(a.s.out.data, true)] == [Departure(a.s.out.data, true)];
  }

  // ---------------------------------------------------------------------------
  // Polling DONE
  // ---------------------------------------------------------------------------

  lemma TracesStep(m: Machine, i: Inputs)
    ensures var t, n := m.t, Step(m, i).t;
            t.tiles <= n.tiles && t.arrivals <= n.arrivals && t.departures <= n.departures
  {
  }

  lemma {:induction false} TracesGrow(m: Machine, ins: seq<Inputs>, j: nat, k: nat)
    requires j <= k <= |ins|
    ensures var t, n := At(m, ins, j).t, At(m, ins, k).t;
            t.tiles <= n.tiles && t.arrivals <= n.arrivals && t.departures <= n.departures
  {
    hide Step;
    if j < k {
      TracesGrow(m, ins, j, k - 1);
      TracesStep(At(m, ins, k - 1), ins[k - 1]);
    }
  }

  lemma {:induction false} LengthsGrow(ds: seq<Departure>, n: nat)
    requires n <= |ds|
    ensures Lengths(ds[..n]) <= Lengths(ds)
  {
    if n < |ds| {
      var init := ds[..|ds| - 1];
      LengthsGrow(init, n);
      assert init[..n] == ds[..n];
    } else {
      assert ds[..n] == ds;
    }
  }

  lemma {:induction false} SumGrows(ns: seq<nat>, n: nat)
    requires n <= |ns| && forall k | 0 <= k < |ns| :: ns[k] > 0
    ensures Sum(ns) >= Sum(ns[..n]) + (|ns| - n)
    ensures |ns| == n + 1 ==> Sum(ns) == Sum(ns[..n]) + ns[n]
  {
    if n < |ns| {
      var init := ns[..|ns| - 1];
      SumGrows(init, n);
      assert init[..n] == ns[..n];
    } else {
      assert ns[..n] == ns;
    }
  }

  lemma {:induction false} LengthsPositive(ds: seq<Departure>)
    ensures forall k | 0 <= k < |Lengths(ds)| :: Lengths(ds)[k] > 0
  {
    if ds != [] {
      LengthsPositive(ds[..|ds| - 1]);
    }
  }

  /** Between two moments of a run: the lengths that left meanwhile, and what that makes of the beats. */
  lemma Left(m: Machine, ins: seq<Inputs>, k: nat)
    requires Inv(m) && k <= |ins|
    ensures var t, n := m.t, At(m, ins, k).t;
            var before, after := Sum(Lengths(t.departures)), Sum(Lengths(n.departures));
            && |t.tiles| <= |n.tiles| && after >= before + (|n.tiles| - |t.tiles|)
            && (|n.tiles| == |t.tiles| ==> after == before)
            && (|n.tiles| == |t.tiles| + 1 ==> after == before + n.tiles[|t.tiles|].length)
  {
    hide Step, StreamLaw, CountLaw, TileLaw, Lengths, Sum;
    var n := At(m, ins, k);
    EveryRun(m, ins, k);
    TracesGrow(m, ins, 0, k);
    assert n.t.departures[..|m.t.departures|] == m.t.departures;
    var ds := n.t.departures;
    LengthsGrow(ds, |m.t.departures|);
    LengthsPositive(ds);
    SumGrows(Lengths(ds), |m.t.tiles|);
    assert Lengths(ds)[..|m.t.tiles|] == Lengths(m.t.departures);
    assert |n.t.tiles| == |m.t.tiles| ==> Lengths(ds) == Lengths(m.t.departures);
  }

  /** Polling for a tile sent to an accelerator with nothing in it. A DONE sample is this tile's, or a
      later one's, iff a beat has been accepted since; until then it is the previous tile's. And when it
      is this tile's, COUNT is the number of beats accepted since. */
  lemma DoneIsMineIff(m: Machine, ins: seq<Inputs>, k: nat)
    requires Inv(m) && Inside(m.t) == 0 && k <= |ins|
    ensures var x, status := At(m, ins, k), View(At(m, ins, k).s, REG_STATUS);
            var sent := |x.t.arrivals| - |m.t.arrivals|;
            && (status / 2 % 2 == 1 ==> (|x.t.tiles| > |m.t.tiles| <==> sent > 0))
            && (sent == 0 ==> (status / 2 % 2 == 1 <==> m.t.tiles != []))
            && (status / 2 % 2 == 1 && |x.t.tiles| == |m.t.tiles| + 1 ==> View(x.s, REG_COUNT) == sent % 65536)
  {
    hide Step, View, StreamLaw, LengthLaw, Pending, Lengths, Sum, TileLaw;
    var x := At(m, ins, k);
    StatusIff(m, ins, k);
    StatusIff(m, ins, 0);
    assert At(m, ins, 0) == m;
    Left(m, ins, k);
    TracesGrow(m, ins, 0, k);
    EveryRun(m, ins, k);
    CountShown(x);
    if |x.t.tiles| == |m.t.tiles| + 1 {
      CountLawAt(x.t.tiles, |m.t.tiles|);
    }
  }

  lemma CountShown(m: Machine)
    requires Inv(m)
    ensures View(m.s, REG_COUNT) == if m.t.tiles == [] then 0 else m.t.tiles[|m.t.tiles| - 1].count
  {
  }

  lemma CountLawAt(ts: seq<Tile>, k: nat)
    requires k < |ts| && TileLaw(ts)
    ensures CountOf(ts, k)
  {
  }

  /** The poll loop's promise. After a DONE sample with a beat accepted since, and until a second tile
      has left, COUNT reads the beats accepted by the time of that sample; which is the tile's own
      length iff none of them is still inside. */
  lemma PollAnswer(m: Machine, ins: seq<Inputs>, j: nat, k: nat)
    requires Inv(m) && Inside(m.t) == 0 && j <= k <= |ins|
    requires View(At(m, ins, j).s, REG_STATUS) / 2 % 2 == 1 && |At(m, ins, j).t.arrivals| > |m.t.arrivals|
    requires |At(m, ins, k).t.tiles| <= |m.t.tiles| + 1
    ensures |At(m, ins, k).t.tiles| == |m.t.tiles| + 1
    ensures var count := View(At(m, ins, k).s, REG_COUNT);
            && count == (|At(m, ins, j).t.arrivals| - |m.t.arrivals|) % 65536
            && (count == At(m, ins, k).t.tiles[|m.t.tiles|].length % 65536 <==> Inside(At(m, ins, j).t) == 0)
  {
    hide Step, View, StreamLaw, LengthLaw, Pending, Lengths, Sum, TileLaw;
    var x := At(m, ins, j);
    DoneIsMineIff(m, ins, j);
    TracesGrow(m, ins, j, k);
    TracesGrow(m, ins, 0, j);
    assert x.t.tiles == At(m, ins, k).t.tiles;
    EveryRun(m, ins, j);
    EveryRun(m, ins, k);
    CountShown(x);
    CountShown(At(m, ins, k));
    Left(m, ins, j);
    StatusIff(m, ins, j);
    OffByOne(x.t.tiles[|m.t.tiles|].length);
  }

  /** A poll that is fooled: one tile has been through, the next has been sent, and its first beat is not
      yet offered. */
  lemma StaleDone(i0: Inputs, i1: Inputs, i2: Inputs)
    requires i0.tvalid && i0.tlast && !i1.tvalid && i1.mready && !i2.tvalid
    requires !i0.w.awvalid && !i0.w.wvalid
    ensures var m := At(INITIAL, [i0, i1], 2);
            && Inv(m) && Inside(m.t) == 0 && |m.t.tiles| == 1
            && View(At(m, [i2], 1).s, REG_STATUS) == 2 && At(m, [i2], 1).t.tiles == m.t.tiles
  {
    hide Unit, Leaky, StrobeMerge, ReadNext, WriteObserve, ReadObserve, Inside;
    var a := Step(INITIAL, i0);
    assert At(INITIAL, [i0, i1], 0) == INITIAL;
    assert At(INITIAL, [i0, i1], 1) == a;
    var m := Step(a, i1);
    assert At(INITIAL, [i0, i1], 2) == m;
    assert a.s.out.valid && a.s.out.last && a.t.departures == [];
    OpenGrows([], Departure(a.s.out.data, a.s.out.last));
    ResetKeeps(WRITE_RESET);
    assert INITIAL.(s := RESET.(wr := WRITE_RESET)) == INITIAL;
    StepKeeps(INITIAL, i0);
    StepKeeps(a, i1);
    InsideIsPending(m);
    assert At(m, [i2], 0) == m;
    assert At(m, [i2], 1) == Step(m, i2);
  }
}
