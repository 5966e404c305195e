/** What software sees of sparse_cnn_axi over whole runs, whatever the AXI timing. */
module SparseCnnRuns {
  import opened Words
  import opened Wrappers
  import opened AxiLite
  import opened SparseMac
  import opened SparseCnnAxi

  /** The machine after the first k cycles of a run. */
  function At(m: Machine, ins: seq<Inputs>, k: nat): Machine
    requires k <= |ins|
  {
    if k == 0 then m else Step(At(m, ins, k - 1), ins[k - 1])
  }

  lemma {:induction false} EveryRun(m: Machine, ins: seq<Inputs>, k: nat)
    requires k <= |ins| && Inv(m)
    ensures Inv(At(m, ins, k))
  {
    hide Step, Inv;
    if k == 0 {
    } else {
      EveryRun(m, ins, k - 1);
      StepKeeps(At(m, ins, k - 1), ins[k - 1]);
    }
  }

  /** The operand pair accepted in one cycle, if any. */
  function Taken(s: Regs, i: Inputs): seq<Pair> {
    if Beat(s, i) then [Unpack(i.tdata)] else []
  }

  /** Every pair accepted in the first k cycles. */
  function Sent(m: Machine, ins: seq<Inputs>, k: nat): seq<Pair>
    requires k <= |ins|
  {
    if k == 0 then [] else Sent(m, ins, k - 1) + Taken(At(m, ins, k - 1).s, ins[k - 1])
  }

  /** Those of them accepted after the last CLEAR was committed. */
  function Fresh(m: Machine, ins: seq<Inputs>, k: nat): seq<Pair>
    requires k <= |ins|
  {
    if k == 0 || CommitsClear(At(m, ins, k - 1).s, ins[k - 1]) then []
    else Fresh(m, ins, k - 1) + Taken(At(m, ins, k - 1).s, ins[k - 1])
  }

  // ---------------------------------------------------------------------------
  // STATUS
  // ---------------------------------------------------------------------------

  /** BUSY and DONE are never both set, exactly one is from the first START commit on; a running
      tile reads busy; and DONE means ACC and SKIP hold the golden result of the tile that
      finished, once no CLEAR is being applied in that very cycle. */
  lemma StatusLaw(m: Machine, i: Inputs)
    requires Inv(m)
    ensures !(Busy(m.s, i) && Done(m.s, i))
    ensures m.t.started || CommitsStart(m.s, i) ==> Busy(m.s, i) || Done(m.s, i)
    ensures m.t.running || CommitsStart(m.s, i) ==> View(m.s, i, REG_STATUS) == 1
    ensures Done(m.s, i) ==> !m.t.running && m.t.tiles > 0 && IsTail(m.t.result, m.t.tile)
    ensures Done(m.s, i) && !ClearPulse(m.s) ==> Holds(m.s.acc, m.s.skip, m.t.result)
    ensures m.t.running && !ClearPulse(m.s) ==> Holds(m.s.acc, m.s.skip, m.t.result)
  {
  }

  /** The tile's last beat is accepted. */
  predicate Finishes(s: Regs, i: Inputs) { Beat(s, i) && i.tlast }

  ghost predicate Starts(m: Machine, ins: seq<Inputs>) {
    |ins| > 0 && Inv(m) && !m.t.running && CommitsStart(m.s, ins[0])
  }

  /** One cycle of the reference, read off the ports alone. */
  lemma TileStep(m: Machine, i: Inputs)
    requires Inv(m)
    ensures var t, n := m.t, Step(m, i).t;
            var kept := if CommitsClear(m.s, i) then [] else t.kept + Taken(m.s, i);
            && n.tiles == t.tiles + (if Finishes(m.s, i) then 1 else 0)
            && (n.started <==> t.started || CommitsStart(m.s, i))
            && (t.running ==> n.tile == t.tile + Taken(m.s, i) && n.kept == kept)
            && (t.running ==> (n.running <==> n.tiles == t.tiles))
            && (t.running ==> (n.running <==> !(Beat(m.s, i) && i.tlast)))
            && (t.running && !n.running ==> n.result == kept)
            && (!t.running ==> Taken(m.s, i) == [] && n.tiles == t.tiles)
            && (!t.running && !n.running ==>
                  n.tile == t.tile && n.kept == kept
                  && n.result == if CommitsClear(m.s, i) then [] else t.result)
            && (!t.running && !CommitsStart(m.s, i) ==> !n.running)
            && (!t.running && CommitsStart(m.s, i) ==> n.running && n.tile == n.kept == [])
  {
  }

  /** No START is committed in cycles from up to to. */
  predicate NoStart(m: Machine, ins: seq<Inputs>, from: nat, to: nat)
    requires to <= |ins|
  {
    to <= from || (NoStart(m, ins, from, to - 1) && !CommitsStart(At(m, ins, to - 1).s, ins[to - 1]))
  }

  /** Nor a CLEAR. */
  predicate NoClear(m: Machine, ins: seq<Inputs>, from: nat, to: nat)
    requires to <= |ins|
  {
    to <= from || (NoClear(m, ins, from, to - 1) && !CommitsClear(At(m, ins, to - 1).s, ins[to - 1]))
  }

  /** Nor is a tile's last beat accepted. */
  predicate NoFinish(m: Machine, ins: seq<Inputs>, from: nat, to: nat)
    requires to <= |ins|
  {
    to <= from || (NoFinish(m, ins, from, to - 1) && !Finishes(At(m, ins, to - 1).s, ins[to - 1]))
  }

  lemma {:induction false} NoneFinished(m: Machine, ins: seq<Inputs>, k: nat)
    requires Inv(m) && k <= |ins|
    ensures NoFinish(m, ins, 0, k) <==> At(m, ins, k).t.tiles == m.t.tiles
  {
    hide Step, Inv;
    if k > 0 {
      NoneFinished(m, ins, k - 1);
      EveryRun(m, ins, k - 1);
      TilesGrow(m, ins, k - 1);
      TileStep(At(m, ins, k - 1), ins[k - 1]);
    }
  }

  /** One START, one tile. */
  lemma {:induction false} OneTile(m: Machine, ins: seq<Inputs>, k: nat)
    requires Starts(m, ins) && 0 < k <= |ins| && NoStart(m, ins, 1, k)
    ensures var t := At(m, ins, k).t;
            t.tiles == m.t.tiles + if t.running then 0 else 1
  {
    hide Step, Inv;
    EveryRun(m, ins, k - 1);
    TileStep(At(m, ins, k - 1), ins[k - 1]);
    if k == 1 {
      assert At(m, ins, 0) == m;
    } else {
      OneTile(m, ins, k - 1);
    }
  }

  lemma {:induction false} TileSoFar(m: Machine, ins: seq<Inputs>, k: nat)
    requires Starts(m, ins) && 0 < k <= |ins|
    ensures var t := At(m, ins, k).t;
            && t.tiles >= m.t.tiles
            && (t.tiles == m.t.tiles ==> t.running && t.tile == Sent(m, ins, k) && t.kept == Fresh(m, ins, k))
            && (t.tiles == m.t.tiles + 1 && !t.running ==>
                  t.tile == Sent(m, ins, k) && t.kept == t.result == Fresh(m, ins, k))
  {
    hide Step, Inv;
    EveryRun(m, ins, k - 1);
    TileStep(At(m, ins, k - 1), ins[k - 1]);
    if k == 1 {
      assert At(m, ins, 0) == m;
      assert Sent(m, ins, 0) == [];
    } else {
      TileSoFar(m, ins, k - 1);
    }
  }

  /** Poll-loop safety. From the cycle the START write commits, every STATUS sample reads BUSY=1,
      DONE=0 until this tile's last beat is in. With no other START meanwhile every sample is one or
      the other, and one that reads DONE finds ACC and SKIP equal to the golden result of exactly the
      pairs accepted since the START and the last CLEAR. No fence and no assumption about when the
      samples are taken. */
  lemma PollLoop(m: Machine, ins: seq<Inputs>, k: nat)
    requires Starts(m, ins) && k < |ins|
    ensures var n, status := At(m, ins, k), View(At(m, ins, k).s, ins[k], REG_STATUS);
            && (NoFinish(m, ins, 0, k) ==> status == 1)
            && (NoStart(m, ins, 1, k) ==>
                  && (status == 1 || status == 2)
                  && (status == 2 ==> k > 0 && n.t.tile == Sent(m, ins, k) && n.t.result == Fresh(m, ins, k))
                  && (status == 2 && !ClearPulse(n.s) ==> Holds(n.s.acc, n.s.skip, Fresh(m, ins, k))))
  {
    hide Step, Inv, Holds;
    var n := At(m, ins, k);
    EveryRun(m, ins, k);
    NoneFinished(m, ins, k);
    StatusLaw(n, ins[k]);
    if k > 0 {
      TileSoFar(m, ins, k);
      StartedStays(m, ins, k);
      if NoStart(m, ins, 1, k) { OneTile(m, ins, k); }
    }
  }

  lemma {:induction false} StartedStays(m: Machine, ins: seq<Inputs>, k: nat)
    requires Starts(m, ins) && 0 < k <= |ins|
    ensures At(m, ins, k).t.started
  {
    hide Step, Inv;
    EveryRun(m, ins, k - 1);
    TileStep(At(m, ins, k - 1), ins[k - 1]);
    if k == 1 {
      assert At(m, ins, 0) == m;
    } else {
      StartedStays(m, ins, k - 1);
    }
  }

  /** Without a CLEAR, what is kept is everything that was sent. */
  lemma {:induction false} NothingDiscarded(m: Machine, ins: seq<Inputs>, k: nat)
    requires k <= |ins| && NoClear(m, ins, 0, k)
    ensures Fresh(m, ins, k) == Sent(m, ins, k)
  {
    hide Step, Inv;
    if k > 0 {
      NothingDiscarded(m, ins, k - 1);
    }
  }

  lemma DoneIsIdle(m: Machine, i: Inputs)
    requires Inv(m)
    ensures m.s.done || Done(m.s, i) ==> m.s.state == Idle
  {
  }

  /** The result registers are neither being loaded nor being cleared. */
  predicate Still(s: Regs) { s.state != Latch && !ClearPulse(s) }

  lemma StillStep(m: Machine, i: Inputs)
    requires Inv(m) && Still(m.s) && !CommitsClear(m.s, i) && !Finishes(m.s, i)
    ensures var n := Step(m, i).s; Still(n) && n.acc == m.s.acc && n.skip == m.s.skip
  {
    PulseLaw(m.s, m.wl, i);
  }

  /** ACC and SKIP keep their values until another tile finishes or a CLEAR commits, even while the
      next tile is running. */
  lemma {:induction false} AnswerHeld(m: Machine, ins: seq<Inputs>, j: nat, k: nat)
    requires Inv(m) && j <= k <= |ins| && Still(At(m, ins, j).s)
    requires NoClear(m, ins, j, k) && NoFinish(m, ins, j, k)
    ensures var n := At(m, ins, k).s;
            Still(n) && n.acc == At(m, ins, j).s.acc && n.skip == At(m, ins, j).s.skip
  {
    hide Step, Inv, Still;
    if k > j {
      AnswerHeld(m, ins, j, k - 1);
      EveryRun(m, ins, k - 1);
      StillStep(At(m, ins, k - 1), ins[k - 1]);
    }
  }

  /** The promise a poll loop lives by: once a STATUS sample after a START has read DONE, every ACC
      and SKIP sample reads the golden result of exactly the pairs accepted since that START and the
      last CLEAR, until another tile finishes or a CLEAR commits. */
  lemma PollAnswer(m: Machine, ins: seq<Inputs>, j: nat, k: nat)
    requires Starts(m, ins) && 0 < j <= k < |ins| && NoStart(m, ins, 1, j)
    requires View(At(m, ins, j).s, ins[j], REG_STATUS) / 2 % 2 == 1
    requires NoClear(m, ins, j - 1, k) && NoFinish(m, ins, j, k)
    ensures View(At(m, ins, k).s, ins[k], REG_ACC) == Dot(Fresh(m, ins, j)) % WORD
    ensures View(At(m, ins, k).s, ins[k], REG_SKIP) == Zeros(Fresh(m, ins, j)) % SKIP_MOD
    ensures NoClear(m, ins, 0, j) ==> Fresh(m, ins, j) == Sent(m, ins, j)
  {
    hide Step, Inv, Dot, Zeros;
    PollLoop(m, ins, j);
    if NoClear(m, ins, 0, j) { NothingDiscarded(m, ins, j); }
    EveryRun(m, ins, j - 1);
    EveryRun(m, ins, j);
    Narrower(m, ins, j, k);
    DoneIsStill(At(m, ins, j - 1), ins[j - 1], ins[j]);
    AnswerHeld(m, ins, j, k);
    Unsigned(Dot(Fresh(m, ins, j)));
  }

  lemma DoneIsStill(m: Machine, i: Inputs, j: Inputs)
    requires Inv(m) && Inv(Step(m, i)) && !CommitsClear(m.s, i)
    requires View(Step(m, i).s, j, REG_STATUS) / 2 % 2 == 1
    ensures Still(Step(m, i).s)
  {
    PulseLaw(m.s, m.wl, i);
    DoneIsIdle(Step(m, i), j);
  }

  lemma {:induction false} Narrower(m: Machine, ins: seq<Inputs>, j: nat, k: nat)
    requires 0 < j <= k <= |ins| && NoClear(m, ins, j - 1, k)
    ensures NoClear(m, ins, j, k) && !CommitsClear(At(m, ins, j - 1).s, ins[j - 1])
  {
    hide Step;
    if k > j {
      Narrower(m, ins, j, k - 1);
    }
  }

  /** A wrapped sum read as an unsigned word is the sum modulo the word. */
  lemma Unsigned(x: int)
    ensures Unsigned32(Signed(x, ACC_MOD)) == x % WORD
  {
    hide Signed;
    var r := Signed(x, ACC_MOD);
    assert x - r == ((x - r) / WORD) * WORD;
  }

  // ---------------------------------------------------------------------------
  // EN
  // ---------------------------------------------------------------------------

  /** A write that sets EN, told from the address, the strobe and the data alone. */
  predicate SetsEnable(c: Option<Write>) {
    c.Some? && c.value.addr == 0x04 && c.value.load.strb[0] && c.value.load.data[0] / 4 % 2 == 1
  }

  /** No write that does is committed in cycles from up to to. */
  predicate NoEnable(m: Machine, ins: seq<Inputs>, from: nat, to: nat)
    requires to <= |ins|
  {
    to <= from || (NoEnable(m, ins, from, to - 1) && !SetsEnable(Commit(At(m, ins, to - 1).s.wr, ins[to - 1].w)))
  }

  lemma Disabled(m: Machine, i: Inputs)
    requires m.s.ctrl[0] / 4 % 2 == 0
    ensures Taken(m.s, i) == []
  {
  }

  lemma StaysDisabled(m: Machine, i: Inputs)
    requires Inv(m) && m.s.ctrl[0] / 4 % 2 == 0 && !SetsEnable(Commit(m.s.wr, i.w))
    ensures Step(m, i).s.ctrl[0] / 4 % 2 == 0
  {
    PulseLaw(m.s, m.wl, i);
  }

  /** While EN is clear nothing is taken off the stream, however long and whatever the source offers: from
      a cycle in which it is clear until a write sets it, what has been sent does not grow. */
  lemma {:induction false} NothingTaken(m: Machine, ins: seq<Inputs>, j: nat, k: nat)
    requires Inv(m) && j <= k <= |ins| && At(m, ins, j).s.ctrl[0] / 4 % 2 == 0 && NoEnable(m, ins, j, k)
    ensures At(m, ins, k).s.ctrl[0] / 4 % 2 == 0 && Sent(m, ins, k) == Sent(m, ins, j)
    ensures forall c | j <= c < k :: !(ins[c].tvalid && Ready(At(m, ins, c).s))
  {
    hide Step, Inv, Taken, Ready, SetsEnable;
    if k > j {
      NothingTaken(m, ins, j, k - 1);
      var before := At(m, ins, k - 1);
      EveryRun(m, ins, k - 1);
      Disabled(before, ins[k - 1]);
      StaysDisabled(before, ins[k - 1]);
      NotTaken(before, ins[k - 1]);
    }
  }

  lemma NotTaken(m: Machine, i: Inputs)
    requires Taken(m.s, i) == []
    ensures !(i.tvalid && Ready(m.s))
  {
  }

  /** So a START written without EN begins a tile that stays begun: STATUS reads BUSY alone, and nothing
      is sent, until EN is set. */
  lemma StartDisabled(m: Machine, ins: seq<Inputs>, k: nat)
    requires Starts(m, ins) && 0 < k < |ins| && NoEnable(m, ins, 1, k)
    requires Commit(m.s.wr, ins[0].w).value.load.data[0] / 4 % 2 == 0
    ensures Sent(m, ins, k) == [] && View(At(m, ins, k).s, ins[k], REG_STATUS) == 1
  {
    hide Step, Inv, Taken, View;
    assert At(m, ins, 0) == m && At(m, ins, 1) == Step(At(m, ins, 0), ins[0]);
    EnableIs(m, ins[0]);
    NotYetTaken(m, ins[0]);
    assert Sent(m, ins, 0) == [] && Sent(m, ins, 1) == Sent(m, ins, 0) + Taken(m.s, ins[0]);
    NothingTaken(m, ins, 1, k);
    NeverFinished(m, ins, 1, k);
    PollLoop(m, ins, k);
  }

  lemma EnableIs(m: Machine, i: Inputs)
    requires Inv(m) && CommitsStart(m.s, i) && Commit(m.s.wr, i.w).value.load.data[0] / 4 % 2 == 0
    ensures Step(m, i).s.ctrl[0] / 4 % 2 == 0
  {
    PulseLaw(m.s, m.wl, i);
  }

  lemma NotYetTaken(m: Machine, i: Inputs)
    requires Inv(m) && !m.t.running
    ensures Taken(m.s, i) == [] && !Finishes(m.s, i)
  {
  }

  lemma {:induction false} NeverFinished(m: Machine, ins: seq<Inputs>, j: nat, k: nat)
    requires Starts(m, ins) && j == 1 <= k <= |ins|
    requires forall c | j <= c < k :: !(ins[c].tvalid && Ready(At(m, ins, c).s))
    ensures NoFinish(m, ins, 0, k)
  {
    hide Step, Inv, Ready;
    if k > 1 {
      NeverFinished(m, ins, j, k - 1);
    } else {
      NotYetTaken(m, ins[0]);
      assert At(m, ins, 0) == m;
    }
  }

  // ---------------------------------------------------------------------------
  // The register map
  // ---------------------------------------------------------------------------

  /** What each offset reads: the identity, the control bits, the status bits, the accumulator as a word,
      the skip count; and zero everywhere else. */
  lemma RegisterMap(m: Machine, i: Inputs)
    requires Inv(m)
    ensures View(m.s, i, 0x00) == 0x53500100
    ensures View(m.s, i, 0x04) == m.s.ctrl[0] < 8
    ensures View(m.s, i, 0x08) == (if Busy(m.s, i) then 1 else 0) + (if Done(m.s, i) then 2 else 0)
    ensures View(m.s, i, 0x0C) == m.s.acc % 0x1_0000_0000 && View(m.s, i, 0x10) == m.s.skip
    ensures forall addr: Byte | addr !in {0x00, 0x04, 0x08, 0x0C, 0x10} :: View(m.s, i, addr) == 0
  {
    hide Busy, Done;
    var b: int := m.s.ctrl[0];
    assert Num(m.s.ctrl) == b;
  }

  /** Out of reset EN is set and nothing else is, and every other register reads zero. */
  lemma ResetMap(i: Inputs)
    requires !i.w.awvalid && !i.w.wvalid
    ensures View(INITIAL.s, i, 0x04) == 4 && View(INITIAL.s, i, 0x08) == 0
    ensures View(INITIAL.s, i, 0x0C) == 0 && View(INITIAL.s, i, 0x10) == 0
  {
  }

  // ---------------------------------------------------------------------------
  // CLEAR
  // ---------------------------------------------------------------------------

  lemma ClearPending(m: Machine, i: Inputs)
    requires Inv(m) && CommitsClear(m.s, i)
    ensures var n := Step(m, i);
            && Inv(n) && ClearPulse(n.s) && n.t.result == []
            && n.s.acc == (if m.s.state == Latch then m.s.pe.acc else m.s.acc)
            && n.s.skip == (if m.s.state == Latch then m.s.pe.skip else m.s.skip)
  {
    PulseLaw(m.s, m.wl, i);
    StepKeeps(m, i);
  }

  lemma ClearLands(n: Machine, i: Inputs)
    requires Inv(n) && ClearPulse(n.s)
    ensures var after := Step(n, i).s; Still(after) && after.acc == 0 && after.skip == 0
  {
    PulseLaw(n.s, n.wl, i);
  }

  /** A CLEAR takes two cycles to show. In the one after it commits, ACC and SKIP still read what
      they would have read without it, which is the cleared tile's result iff both are zero; from the
      next cycle they read zero. */
  lemma ClearShowsLate(m: Machine, i0: Inputs, i1: Inputs)
    requires Inv(m) && CommitsClear(m.s, i0)
    ensures var n, after := Step(m, i0), Step(Step(m, i0), i1);
            && ClearPulse(n.s) && n.t.result == []
            && n.s.acc == (if m.s.state == Latch then m.s.pe.acc else m.s.acc)
            && n.s.skip == (if m.s.state == Latch then m.s.pe.skip else m.s.skip)
            && (Holds(n.s.acc, n.s.skip, n.t.result) <==> n.s.acc == 0 && n.s.skip == 0)
            && Still(after.s) && after.s.acc == 0 && after.s.skip == 0
  {
    hide Inv, Step;
    ClearPending(m, i0);
    ClearLands(Step(m, i0), i1);
  }

  /** And they go on reading zero until another tile finishes. */
  lemma ClearedUntil(m: Machine, ins: seq<Inputs>, j: nat, k: nat)
    requires Inv(m) && j + 2 <= k < |ins| && CommitsClear(At(m, ins, j).s, ins[j])
    requires NoClear(m, ins, j + 2, k) && NoFinish(m, ins, j + 2, k)
    ensures View(At(m, ins, k).s, ins[k], REG_ACC) == 0 && View(At(m, ins, k).s, ins[k], REG_SKIP) == 0
  {
    hide Step, Inv, NoClear, NoFinish, CommitsClear, Still, View, Holds;
    EveryRun(m, ins, j);
    ClearShowsLate(At(m, ins, j), ins[j], ins[j + 1]);
    assert At(m, ins, j + 1) == Step(At(m, ins, j), ins[j]);
    assert At(m, ins, j + 2) == Step(At(m, ins, j + 1), ins[j + 1]);
    AnswerHeld(m, ins, j + 2, k);
    ZeroShown(At(m, ins, k).s, ins[k]);
  }

  lemma ZeroShown(s: Regs, i: Inputs)
    requires s.acc == 0 && s.skip == 0
    ensures View(s, i, REG_ACC) == 0 && View(s, i, REG_SKIP) == 0
  {
  }

  lemma {:induction false} TilesGrow(m: Machine, ins: seq<Inputs>, k: nat)
    requires k <= |ins| && Inv(m)
    ensures At(m, ins, k).t.tiles >= m.t.tiles
  {
    hide Step, Inv;
    if k == 0 {
    } else {
      EveryRun(m, ins, k - 1);
      TilesGrow(m, ins, k - 1);
      TileStep(At(m, ins, k - 1), ins[k - 1]);
    }
  }

  // ---------------------------------------------------------------------------
  // START
  // ---------------------------------------------------------------------------

  /** What BUSY reads but for the write being committed. */
  predicate Underway(s: Regs) { s.state != Idle || StartPulse(s) }

  /** A START is taken iff no tile is running, that is iff the sequencer is idle or latching when
      the write commits. So "ignored while BUSY" holds of it iff it does not commit in the latch
      cycle. */
  lemma StartTakenIff(m: Machine, i0: Inputs, i1: Inputs)
    requires Inv(m) && CommitsStart(m.s, i0)
    ensures var taken := Step(Step(m, i0), i1).s.state == Clear;
            && (taken <==> !m.t.running)
            && (taken <==> m.s.state == Idle || m.s.state == Latch)
            && ((taken <==> !Underway(m.s)) <==> m.s.state != Latch)
  {
    PulseLaw(m.s, m.wl, i0);
    StepKeeps(m, i0);
  }

  /** CTRL reads back START or CLEAR as 1 in the one cycle after a commit that sets it, and in no
      other; reserved bits never. */
  lemma CtrlReadback(m: Machine, i0: Inputs, i1: Inputs)
    requires Inv(m)
    ensures var v := View(Step(m, i0).s, i1, REG_CTRL);
            && v < 8
            && (v % 2 == 1 <==> CommitsStart(m.s, i0))
            && (v / 2 % 2 == 1 <==> CommitsClear(m.s, i0))
            && (v % 4 != 0 ==> Commit(Step(m, i0).s.wr, i1.w).None?)
  {
    StepKeeps(m, i0);
    PulseLaw(m.s, m.wl, i0);
    var n := Step(m, i0);
    PulseLaw(n.s, n.wl, i1);
    CtrlNumber(n.s, i1);
  }

  lemma CtrlNumber(s: Regs, i: Inputs)
    requires CtrlLaw(s)
    ensures var v := View(s, i, REG_CTRL);
            v < CTRL_KEEP && (v % 2 == 1 <==> StartPulse(s)) && (v / 2 % 2 == 1 <==> ClearPulse(s))
            && (v % 4 != 0 ==> StartPulse(s) || ClearPulse(s))
  {
    var b: int := s.ctrl[0];
    assert Num(s.ctrl) == b;
    assert b == 4 * (b / 4) + 2 * (b / 2 % 2) + b % 2;
  }

  // ---------------------------------------------------------------------------
  // Completion
  // ---------------------------------------------------------------------------

  predicate Steady(s: Regs, state: TileState) {
    s.state == state && Enabled(s) && !StartPulse(s) && !ClearPulse(s)
  }

  /** The cycles in [from, to) in which the source offered nothing. */
  function Stalls(ins: seq<Inputs>, from: nat, to: nat): (n: nat)
    requires to <= |ins|
    ensures from <= to ==> n <= to - from
  {
    if from >= to then 0
    else Stalls(ins, from, to - 1) + if ins[to - 1].tvalid then 0 else 1
  }

  /** START commits with EN in cycle 0, CTRL is not written again, and the cycle in which the
      source offers the tile's last beat is the span-th from cycle 3, the first that can accept. */
  ghost predicate CleanTile(m: Machine, ins: seq<Inputs>, span: nat) {
    && Starts(m, ins) && m.s.state == Idle && Asks(Commit(m.s.wr, ins[0].w), 4)
    && 0 < span && span + 4 < |ins|
    && (forall k | 0 < k < |ins| :: !CtrlWrite(Commit(At(m, ins, k).s.wr, ins[k].w)))
    && (forall k | 3 <= k < span + 2 :: !(ins[k].tvalid && ins[k].tlast))
    && ins[span + 2].tvalid && ins[span + 2].tlast
  }

  lemma QuietTick(m: Machine, i: Inputs)
    requires Inv(m) && !CtrlWrite(Commit(m.s.wr, i.w))
    ensures var n := Next(m.s, i); !StartPulse(n) && !ClearPulse(n) && (Enabled(n) <==> Enabled(m.s))
  {
    PulseLaw(m.s, m.wl, i);
  }

  predicate Sequenced(s: Regs, span: nat, k: nat) {
    && Steady(s, if k == 2 then Clear else if k <= span + 2 then Run
                 else if k == span + 3 then Latch else Idle)
    && (k == span + 4 ==> s.done)
  }

  lemma SequencedStep(m: Machine, i: Inputs, span: nat, k: nat)
    requires Inv(m) && 2 <= k <= span + 3 && Sequenced(m.s, span, k) && 0 < span
    requires !CtrlWrite(Commit(m.s.wr, i.w))
    requires 3 <= k < span + 2 ==> !(i.tvalid && i.tlast)
    requires k == span + 2 ==> i.tvalid && i.tlast
    ensures Sequenced(Step(m, i).s, span, k + 1)
    ensures |Taken(m.s, i)| == if 3 <= k <= span + 2 && i.tvalid then 1 else 0
  {
    QuietTick(m, i);
  }

  lemma {:induction false} Sequencing(m: Machine, ins: seq<Inputs>, span: nat, k: nat)
    requires CleanTile(m, ins, span) && 2 <= k <= span + 4
    ensures Sequenced(At(m, ins, k).s, span, k)
    ensures 3 <= k <= span + 3 ==> |Sent(m, ins, k)| + Stalls(ins, 3, k) == k - 3
  {
    hide Step, Inv, Taken, Enabled, StartPulse, ClearPulse, CtrlWrite, Commit;
    EveryRun(m, ins, k - 1);
    if k == 2 {
      FirstTicks(m, ins);
    } else {
      Sequencing(m, ins, span, k - 1);
      SequencedStep(At(m, ins, k - 1), ins[k - 1], span, k - 1);
      if k == 3 {
        NothingYet(m, ins);
      }
    }
  }

  lemma FirstTicks(m: Machine, ins: seq<Inputs>)
    requires Starts(m, ins) && |ins| >= 2 && m.s.state == Idle && Asks(Commit(m.s.wr, ins[0].w), 4)
    requires !CtrlWrite(Commit(At(m, ins, 1).s.wr, ins[1].w))
    ensures At(m, ins, 1).s.state == Idle && View(At(m, ins, 1).s, ins[1], REG_STATUS) == 1
    ensures Steady(At(m, ins, 2).s, Clear)
  {
    var first := At(m, ins, 1);
    assert first == Step(At(m, ins, 0), ins[0]);
    StepKeeps(m, ins[0]);
    PulseLaw(m.s, m.wl, ins[0]);
    QuietTick(first, ins[1]);
    assert At(m, ins, 2) == Step(first, ins[1]);
  }

  lemma NothingYet(m: Machine, ins: seq<Inputs>)
    requires Starts(m, ins) && |ins| >= 3 && m.s.state == Idle
    requires At(m, ins, 2).s.state == Clear
    ensures Sent(m, ins, 3) == []
  {
    assert At(m, ins, 0) == m;
    assert At(m, ins, 1) == Step(At(m, ins, 0), ins[0]);
    assert Sent(m, ins, 0) == [];
    assert Sent(m, ins, 1) == [];
    assert Sent(m, ins, 2) == [];
  }

  /** Exact latency. A tile of n pairs whose source stalled s cycles shows DONE in cycle n + s + 4
      after its START commit and BUSY in every cycle before. */
  lemma Latency(m: Machine, ins: seq<Inputs>, span: nat, k: nat)
    requires CleanTile(m, ins, span) && k <= span + 4
    ensures View(At(m, ins, k).s, ins[k], REG_STATUS) == if k < span + 4 then 1 else 2
    ensures span == |Sent(m, ins, span + 3)| + Stalls(ins, 3, span + 3)
  {
    hide Step, Inv;
    EveryRun(m, ins, k);
    Sequencing(m, ins, span, span + 3);
    if k == 0 {
      assert At(m, ins, 0) == m;
      StatusLaw(m, ins[0]);
    } else if k == 1 {
      FirstTicks(m, ins);
    } else {
      Sequencing(m, ins, span, k);
      DoneIsIdle(At(m, ins, k), ins[k]);
      SequencedStatus(At(m, ins, k).s, ins[k], span, k);
    }
  }

  lemma SequencedStatus(s: Regs, i: Inputs, span: nat, k: nat)
    requires (s.done ==> s.state == Idle) && 2 <= k <= span + 4
    requires Sequenced(s, span, k) && !CtrlWrite(Commit(s.wr, i.w))
    ensures View(s, i, REG_STATUS) == if k < span + 4 then 1 else 2
  {
  }

  /** A cycle in which this is written to CTRL. */
  function Poke(value: Byte): Inputs {
    Inputs(WriteIn(true, REG_CTRL, true, [value, 0, 0, 0], [true, true, true, true], true), ReadIn(false, 0, true),
           true, ONES, false)
  }

  /** The pair (1, 1). */
  const ONES := 0x101

  /** A tile of n pairs from reset: EN and START in the first cycle, a pair in every one after. */
  function Straight(n: nat): (ins: seq<Inputs>)
    ensures |ins| == n + 5
  {
    var nothing := WriteIn(false, 0, false, [0, 0, 0, 0], [false, false, false, false], true);
    seq(n + 5, k requires 0 <= k < n + 5 =>
      if k == 0 then Poke(5) else Inputs(nothing, ReadIn(false, 0, true), true, ONES, k == n + 2))
  }

  lemma StraightInputs(n: nat, k: nat)
    requires k < n + 5
    ensures var i := Straight(n)[k];
            && i.tvalid && i.tdata == ONES && i.w.bready
            && (if k == 0 then i == Poke(5) else !i.w.awvalid && !i.w.wvalid && (i.tlast <==> k == n + 2))
  {
  }

  predicate NonePending(c: WriteRegs) { !c.awPend && !c.wPend }

  lemma NoneLeft(m: Machine, i: Inputs)
    requires NonePending(m.s.wr) && (i.w.awvalid <==> i.w.wvalid) && i.w.bready
    ensures NonePending(Step(m, i).s.wr)
    ensures !i.w.awvalid ==> !Step(m, i).s.wr.bvalid
  {
    hide View, CtrlNext, Observe, PeNext;
  }

  lemma {:induction false} NothingPending(n: nat, k: nat)
    requires k <= n + 5
    ensures NonePending(At(INITIAL, Straight(n), k).s.wr)
    ensures k >= 2 ==> !At(INITIAL, Straight(n), k).s.wr.bvalid
  {
    hide Step, Straight;
    if k > 0 {
      NothingPending(n, k - 1);
      StraightInputs(n, k - 1);
      NoneLeft(At(INITIAL, Straight(n), k - 1), Straight(n)[k - 1]);
    } else {
      assert At(INITIAL, Straight(n), 0) == INITIAL;
    }
  }

  lemma Poked(m: Machine, value: Byte)
    requires NonePending(m.s.wr) && !m.s.wr.bvalid
    ensures Commit(m.s.wr, Poke(value).w)
            == Some(Write(REG_CTRL, Payload([value, 0, 0, 0], [true, true, true, true])))
    ensures CommitsStart(m.s, Poke(value)) <==> value % 2 == 1
    ensures CommitsClear(m.s, Poke(value)) <==> value / 2 % 2 == 1
    ensures Asks(Commit(m.s.wr, Poke(value).w), 4) <==> value / 4 % 2 == 1
  {
  }

  lemma FromReset()
    ensures Inv(INITIAL) && !INITIAL.t.running && INITIAL.s.state == Idle
    ensures NonePending(INITIAL.s.wr) && !INITIAL.s.wr.bvalid
  {
    ResetKeeps(WRITE_RESET);
    assert INITIAL.(s := RESET.(wr := WRITE_RESET)) == INITIAL;
  }

  /** START written alone, as from 0x1: the tile begins and nothing of it is taken until EN is set. */
  lemma StartAlone(ins: seq<Inputs>, k: nat)
    requires 0 < k < |ins| && ins[0] == Poke(1) && NoEnable(INITIAL, ins, 1, k)
    ensures Sent(INITIAL, ins, k) == [] && View(At(INITIAL, ins, k).s, ins[k], REG_STATUS) == 1
  {
    hide Inv, View, At, Sent, NoEnable;
    FromReset();
    Poked(INITIAL, 1);
    StartDisabled(INITIAL, ins, k);
  }

  /** The latency is met: at every length there is a tile that nothing disturbs, and it shows DONE
      in cycle n + 4. */
  lemma StraightTile(n: nat)
    requires n > 0
    ensures CleanTile(INITIAL, Straight(n), n)
    ensures View(At(INITIAL, Straight(n), n + 4).s, Straight(n)[n + 4], REG_STATUS) == 2
  {
    hide Step, Inv, Straight, View, Poke;
    var ins := Straight(n);
    FromReset();
    Poked(INITIAL, 5);
    StraightInputs(n, 0);
    forall k | 0 < k < |ins|
      ensures !CtrlWrite(Commit(At(INITIAL, ins, k).s.wr, ins[k].w))
      ensures ins[k].tvalid && (ins[k].tlast <==> k == n + 2)
    {
      NothingPending(n, k);
      StraightInputs(n, k);
    }
    Latency(INITIAL, ins, n, n + 4);
  }

  lemma {:induction false} OnlyOnes(n: nat, k: nat)
    requires k <= n + 5
    ensures var ps := Sent(INITIAL, Straight(n), k); Dot(ps) == |ps| && Zeros(ps) == 0
  {
    hide Step, Straight, Dot, Zeros, Taken;
    if k == 0 {
      NothingSums();
    } else {
      OnlyOnes(n, k - 1);
      StraightInputs(n, k - 1);
      TakenOnes(At(INITIAL, Straight(n), k - 1), Straight(n)[k - 1]);
      var before := Sent(INITIAL, Straight(n), k - 1);
      Snoc(before, Pair(1, 1));
      assert before + [] == before;
    }
  }

  lemma NothingSums()
    ensures Dot([]) == 0 && Zeros([]) == 0
  {
  }

  lemma TakenOnes(m: Machine, i: Inputs)
    requires i.tdata == ONES
    ensures Taken(m.s, i) == [] || Taken(m.s, i) == [Pair(1, 1)]
  {
    UnpackPacked(1, 1);
  }

  lemma {:induction false} NeverStalls(n: nat, k: nat)
    requires k <= n + 5
    ensures Stalls(Straight(n), 3, k) == 0
  {
    if k > 3 {
      NeverStalls(n, k - 1);
    }
  }

  lemma {:induction false} Uncleared(n: nat, k: nat)
    requires n > 0 && k <= n + 4
    ensures NoClear(INITIAL, Straight(n), 0, k) && NoStart(INITIAL, Straight(n), 1, k)
  {
    hide Step, Inv, Straight, View, Poke;
    if k > 0 {
      Uncleared(n, k - 1);
      StraightTile(n);
      FromReset();
      Poked(INITIAL, 5);
      StraightInputs(n, 0);
      assert At(INITIAL, Straight(n), 0) == INITIAL;
    }
  }

  /** And ACC then reads n. */
  lemma StraightSum(n: nat)
    requires 0 < n < WORD
    ensures View(At(INITIAL, Straight(n), n + 4).s, Straight(n)[n + 4], REG_ACC) == n
  {
    hide Step, Inv, Straight, View, Dot, Zeros, NoClear, NoFinish, NoStart, Starts, Fresh, Sent, At;
    var ins, k := Straight(n), n + 4;
    StraightTile(n);
    Uncleared(n, k);
    JustThen(INITIAL, ins, k);
    SmallMod(n, WORD);
    PollAnswer(INITIAL, ins, k, k);
    OnlyOnes(n, k);
    SentAll(n);
  }

  lemma JustThen(m: Machine, ins: seq<Inputs>, k: nat)
    requires 0 < k <= |ins| && NoClear(m, ins, 0, k)
    ensures NoClear(m, ins, k - 1, k) && NoFinish(m, ins, k, k)
  {
  }

  lemma SentAll(n: nat)
    requires n > 0
    ensures |Sent(INITIAL, Straight(n), n + 4)| == n
  {
    hide Step, Inv, Straight, View, Dot, Zeros;
    var ins := Straight(n);
    StraightTile(n);
    Latency(INITIAL, ins, n, n + 4);
    NeverStalls(n, n + 3);
    Sequencing(INITIAL, ins, n, n + 3);
    LatchTakesNothing(At(INITIAL, ins, n + 3), ins[n + 3]);
  }

  lemma LatchTakesNothing(m: Machine, i: Inputs)
    requires m.s.state == Latch
    ensures Taken(m.s, i) == []
  {
  }

  /** A START that is not ignored though BUSY: it commits in the cycle after a tile's last beat. */
  lemma StartWhileBusy(n: nat, i: Inputs)
    requires n > 0
    ensures var m := At(INITIAL, Straight(n), n + 3);
            && CommitsStart(m.s, Poke(5)) && Underway(m.s) && Step(Step(m, Poke(5)), i).s.state == Clear
  {
    hide Step, Inv, Straight, Poke;
    var ins, m := Straight(n), At(INITIAL, Straight(n), n + 3);
    StraightTile(n);
    Sequencing(INITIAL, ins, n, n + 3);
    EveryRun(INITIAL, ins, n + 3);
    NothingPending(n, n + 3);
    Poked(m, 5);
    StartTakenIff(m, Poke(5), i);
  }

  /** A CLEAR that does not zero ACC immediately: it commits on a finished tile of ones. */
  lemma ClearStillShown(n: nat, i0: Inputs, i1: Inputs)
    requires 0 < n < WORD
    ensures var m := At(INITIAL, Straight(n), n + 4);
            var cleared := Step(m, Poke(6));
            && CommitsClear(m.s, Poke(6)) && View(cleared.s, i0, REG_ACC) == n
            && View(Step(cleared, i0).s, i1, REG_ACC) == 0
  {
    hide Step, Inv, Straight, Poke, Starts, CommitsClear, Holds, Sequenced, CleanTile, View, Still, ClearPulse;
    var ins, m := Straight(n), At(INITIAL, Straight(n), n + 4);
    StraightTile(n);
    StraightSum(n);
    Sequencing(INITIAL, ins, n, n + 4);
    IsIdle(m.s, n);
    FromReset();
    EveryRun(INITIAL, ins, n + 4);
    NothingPending(n, n + 4);
    Poked(m, 6);
    ClearShowsLate(m, Poke(6), i0);
    AccShown(m.s, ins[n + 4]);
    AccShown(Step(m, Poke(6)).s, i0);
    AccShown(Step(Step(m, Poke(6)), i0).s, i1);
  }

  lemma AccShown(s: Regs, i: Inputs)
    ensures View(s, i, REG_ACC) == s.acc % WORD
  {
  }

  lemma IsIdle(s: Regs, n: nat)
    requires Sequenced(s, n, n + 4)
    ensures s.state == Idle
  {
  }
}
