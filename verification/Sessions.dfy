/** What a session promises, said of the calls one sees: sizes in bytes, error numbers, and the values read. */
module Sessions {
  import opened Words
  import opened SparseMac
  import opened Board
  import opened DriverSpec
  import opened AccelDriver

  // ---------------------------------------------------------------------------
  // Writing
  // ---------------------------------------------------------------------------

  /** A tile is so many bytes: relu takes up to 4096, sparse_cnn an even number up to 8192. */
  predicate Fits(relu: bool, size: nat) {
    0 < size && if relu then size <= 4096 else size % 2 == 0 && size <= 8192
  }

  /** Nothing outside the driver stands in the way of a write: the caller waits and its memory can be read,
      every descriptor is to be had, no completion is late, and while the tile is sent the channels are
      willing in every cycle, of which there are as many as it has beats and two more. */
  predicate Favourable(relu: bool, size: nat, env: Env) {
    && !env.interrupted && env.copied && env.txPrepared && env.txQueued && (relu ==> env.rxPrepared && env.rxQueued)
    && !env.sentLate && !env.returnedLate
    && |env.sending| >= (if relu then size else size / 2) + 2
    && forall k | 0 <= k < |env.sending| :: env.sending[k].offer && env.sending[k].take
  }

  lemma {:induction false} AllWilling(sched: seq<Choice>)
    requires forall k | 0 <= k < |sched| :: sched[k].offer && sched[k].take
    ensures WillingIn(sched) == |sched|
  {
    if sched != [] {
      AllWilling(sched[..|sched| - 1]);
    }
  }

  /** No call from from up to to timed out. */
  predicate InTime(xs: seq<Exchange>, from: nat, to: nat)
    requires to <= |xs|
  {
    forall j | from <= j < to :: xs[j].ret != Err(ETIMEDOUT)
  }

  lemma {:induction false} FitFrom(xs: seq<Exchange>, j: nat, k: nat, bare: bool)
    requires j <= k <= |xs| && InTime(xs, j, k) && Fit(xs[..j], bare)
    ensures Fit(xs[..k], bare)
  {
    if k > j {
      FitFrom(xs, j, k - 1, bare);
      assert xs[..k][..k - 1] == xs[..k - 1];
    }
  }

  /** A write that finds nothing in its way succeeds, whatever was called before it and whatever else the
      environment does, on an accelerator found empty if none timed out before it. */
  lemma FavouredWrite(xs: seq<Exchange>, k: nat, o: Origin)
    requires k < |xs| && Entitled(xs, k, o) && xs[k].op.WriteOp? && o.bare && InTime(xs, 0, k)
    requires Fits(o.relu, |xs[k].op.data|) && Favourable(o.relu, |xs[k].op.data|, xs[k].op.env)
    ensures xs[k].ret == Ok(|xs[k].op.data|)
  {
    assert xs[..0] == [];
    FitFrom(xs, 0, k, o.bare);
    AllWilling(xs[k].op.env.sending);
  }

  /** A write is not refused as busy when an earlier one succeeded, or failed for want of a descriptor, and
      none has timed out since. */
  lemma NotBusyAfter(xs: seq<Exchange>, j: nat, k: nat, o: Origin)
    requires j < k < |xs| && Entitled(xs, k, o) && xs[j].op.WriteOp? && xs[k].op.WriteOp?
    requires xs[j].ret.Ok? || xs[j].ret == Err(EIO) || xs[j].ret == Err(EQUEUE)
    requires InTime(xs, j, k)
    ensures xs[k].ret != Err(EBUSY)
  {
    assert xs[..j + 1][..j] == xs[..j];
    FitFrom(xs, j + 1, k, o.bare);
  }

  /** Once one has been refused as busy no later one gets through. */
  lemma BusyForGood(xs: seq<Exchange>, j: nat, k: nat, o: Origin)
    requires j < k < |xs| && Entitled(xs, k, o) && xs[j].ret == Err(EBUSY) && xs[k].op.WriteOp?
    ensures xs[k].ret.Err? && xs[k].ret.errno in {EINVAL, EMSGSIZE, ERESTARTSYS, EFAULT, EBUSY}
  {
    assert xs[..k][j] == xs[j];
    assert Seen(xs[..k], EBUSY);
  }

  /** Why a write fails before its tile is looked at, and that it is told so. */
  lemma WriteErrors(xs: seq<Exchange>, k: nat, o: Origin)
    requires k < |xs| && Entitled(xs, k, o) && xs[k].op.WriteOp?
    ensures var size, env, ret := |xs[k].op.data|, xs[k].op.env, xs[k].ret;
            var good := if o.relu then size > 0 else size > 0 && size % 2 == 0;
            var short := size <= if o.relu then 4096 else 8192;
            && (ret == Err(EINVAL) <==> !good)
            && (ret == Err(EMSGSIZE) <==> good && !short)
            && (ret == Err(ERESTARTSYS) <==> good && short && env.interrupted)
            && (ret == Err(EFAULT) <==> good && short && !env.interrupted && !env.copied)
            && (ret == Err(EIO) ==> !env.txPrepared || (o.relu && !env.rxPrepared))
            && (ret == Err(EQUEUE) ==> !env.txQueued || (o.relu && !env.rxQueued))
            && (env.sentLate || (o.relu && env.returnedLate) ==> ret.Err?)
            && (ret.Ok? ==> ret.count == size)
  {
  }

  // ---------------------------------------------------------------------------
  // Reading
  // ---------------------------------------------------------------------------

  /** The call got a tile as far as the accelerator. */
  predicate Reaches(x: Exchange) {
    x.op.WriteOp? && (x.ret.Ok? || x.ret.errno !in {EINVAL, EMSGSIZE, ERESTARTSYS, EFAULT})
  }

  /** The call changed the slope. */
  predicate Sets(x: Exchange) { x.op.SlopeOp? && x.ret.Ok? }

  lemma {:induction false} AnswerStays(xs: seq<Exchange>, j: nat, k: nat, o: Origin)
    requires j <= k <= |xs| && forall c | j <= c < k :: !Reaches(xs[c])
    ensures AnswerTo(CallsOf(xs[..k]), o) == AnswerTo(CallsOf(xs[..j]), o)
  {
    hide CallsOf, SlopeAfter, ReluAnswer, SparseAnswer, LeakyTile, TilePairs;
    if k > j {
      AnswerStays(xs, j, k - 1, o);
      OneMore(xs, k - 1);
      var calls := CallsOf(xs[..k - 1]);
      assert !Reaches(xs[k - 1]);
      if Effect(xs[k - 1]) == [] {
        assert calls + [] == calls;
      } else {
        Another(calls, Effect(xs[k - 1])[0], o.slope);
      }
    }
  }

  /** A read returns what the last tile that reached the accelerator came to, however many reads, slope
      stores and refused writes lie between. relu: every byte of the tile under the slope in force when it
      was written. sparse_cnn: the sum of the products, and how many of the pairs have a zero in them. */
  lemma LastTileRead(xs: seq<Exchange>, k: nat, m: nat, o: Origin)
    requires k < m < |xs| && Entitled(xs, m, o) && forall c | k < c < m :: !Reaches(xs[c])
    requires xs[k].op.WriteOp? && xs[k].ret.Ok? && xs[m].op.ReadOp? && xs[m].ret.Ok?
    ensures var data, slope := xs[k].op.data, SlopeAfter(CallsOf(xs[..k]), o.slope);
            if o.relu then
              && xs[m].answer.Tile? && xs[m].ret.count == |xs[m].answer.ys| == |data|
              && forall i | 0 <= i < |data| :: Scales(data[i], slope, xs[m].answer.ys[i])
            else
              && xs[m].answer.Totals? && xs[m].ret.count == 8
              && xs[m].answer.acc == Dot(TilePairs(data))
              && xs[m].answer.skip == |set i: nat | i < |data| / 2 && (data[2 * i] == 0 || data[2 * i + 1] == 0)|
  {
    hide Due, CallsOf, ReluAnswer, SparseAnswer, SlopeAfter, Dot, Zeros, TilePairs, LeakyTile, Scales;
    AnswerStays(xs, k + 1, m, o);
    OneMore(xs, k);
    Another(CallsOf(xs[..k]), Wrote(xs[k].op.data, true), o.slope);
    ReadDue(xs[..m], xs[m], o);
    ReadSize(xs[..m], xs[m], o);
    TileScales(xs[k].op.data, SlopeAfter(CallsOf(xs[..k]), o.slope));
    TileZeros(xs[k].op.data);
  }

  lemma ReadSize(xs: seq<Exchange>, x: Exchange, o: Origin)
    requires Due(xs, x, o) && x.op.ReadOp? && x.ret.Ok?
    ensures if o.relu then x.answer.Tile? && x.ret.count == |x.answer.ys| else x.answer.Totals? && x.ret.count == 8
  {
    hide CallsOf, ReluAnswer, SparseAnswer;
  }

  /** After a tile that reached the accelerator and failed relu has nothing to read; and before any has,
      relu has nothing and sparse_cnn zeros. */
  lemma NothingToRead(xs: seq<Exchange>, k: nat, m: nat, o: Origin)
    requires k < m < |xs| && Entitled(xs, m, o) && forall c | k < c < m :: !Reaches(xs[c])
    requires Reaches(xs[k]) && xs[k].ret.Err? && xs[m].op.ReadOp? && xs[m].ret.Ok? && o.relu
    ensures xs[m].answer == Tile([]) && xs[m].ret == Ok(0)
  {
    hide Due, CallsOf, ReluAnswer, SparseAnswer, SlopeAfter, Dot, Zeros, TilePairs, LeakyTile;
    AnswerStays(xs, k + 1, m, o);
    OneMore(xs, k);
    Another(CallsOf(xs[..k]), Wrote(xs[k].op.data, false), o.slope);
    ReadDue(xs[..m], xs[m], o);
    ReadSize(xs[..m], xs[m], o);
  }

  lemma NothingYet(xs: seq<Exchange>, m: nat, o: Origin)
    requires m < |xs| && Entitled(xs, m, o) && forall c | 0 <= c < m :: !Reaches(xs[c])
    requires xs[m].op.ReadOp? && xs[m].ret.Ok?
    ensures xs[m].answer == if o.relu then Tile([]) else Totals(0, 0)
  {
    AnswerStays(xs, 0, m, o);
    assert xs[..0] == [];
    ReadDue(xs[..m], xs[m], o);
  }

  /** Why a read fails, and that it is told so: it was interrupted, its buffer is too small for the whole
      answer, or its memory cannot be written. */
  lemma ReadErrors(xs: seq<Exchange>, k: nat, o: Origin)
    requires k < |xs| && Entitled(xs, k, o) && xs[k].op.ReadOp?
    ensures var x, due := xs[k], AnswerTo(CallsOf(xs[..k]), o);
            var size := if o.relu then |due.ys| else 8;
            && (x.ret == Err(ERESTARTSYS) <==> x.op.interrupted)
            && (x.ret == Err(EINVAL) <==> !x.op.interrupted && x.op.count < size)
            && (x.ret == Err(EFAULT) <==> !x.op.interrupted && x.op.count >= size > 0 && x.op.faulted)
            && (x.ret == Ok(size) && x.answer == due <==>
                  !x.op.interrupted && x.op.count >= size && (size > 0 ==> !x.op.faulted))
  {
    hide CallsOf, ReluAnswer, SparseAnswer;
  }

  // ---------------------------------------------------------------------------
  // The slope
  // ---------------------------------------------------------------------------

  /** A store is refused above 255 and taken otherwise. */
  lemma SlopeErrors(xs: seq<Exchange>, k: nat, o: Origin)
    requires k < |xs| && Entitled(xs, k, o) && xs[k].op.SlopeOp?
    ensures xs[k].ret == match xs[k].op.parsed
                         case Malformed => Err(EINVAL)
                         case TooLong => Err(ERANGE)
                         case Number(n) => if n > 255 then Err(ERANGE) else Ok(xs[k].op.length)
  {
  }

  lemma {:induction false} SlopeStays(xs: seq<Exchange>, j: nat, k: nat, first: Byte)
    requires j <= k <= |xs| && forall c | j <= c < k :: !Sets(xs[c])
    ensures SlopeAfter(CallsOf(xs[..k]), first) == SlopeAfter(CallsOf(xs[..j]), first)
  {
    hide CallsOf, SlopeAfter, ReluAnswer, SparseAnswer, LeakyTile, TilePairs;
    if k > j {
      SlopeStays(xs, j, k - 1, first);
      OneMore(xs, k - 1);
      var calls := CallsOf(xs[..k - 1]);
      assert !Sets(xs[k - 1]);
      if Effect(xs[k - 1]) == [] {
        assert calls + [] == calls;
      } else {
        Another(calls, Effect(xs[k - 1])[0], first);
      }
    }
  }

  /** The slope a tile is written under is the last one stored, or the one the accelerator was found with. */
  lemma SlopeInForce(xs: seq<Exchange>, j: nat, k: nat, o: Origin)
    requires j < k <= |xs| && Entitled(xs, j, o) && Sets(xs[j]) && forall c | j < c < k :: !Sets(xs[c])
    ensures xs[j].op.parsed.Number? && SlopeAfter(CallsOf(xs[..k]), o.slope) == xs[j].op.parsed.value
  {
    hide CallsOf, SlopeAfter, ReluAnswer, SparseAnswer, LeakyTile, TilePairs;
    SlopeErrors(xs, j, o);
    SlopeStays(xs, j + 1, k, o.slope);
    OneMore(xs, j);
    Another(CallsOf(xs[..j]), Slope(xs[j].op.parsed.value), o.slope);
  }

  lemma SlopeAsFound(xs: seq<Exchange>, k: nat, o: Origin)
    requires k <= |xs| && forall c | 0 <= c < k :: !Sets(xs[c])
    ensures SlopeAfter(CallsOf(xs[..k]), o.slope) == o.slope
  {
    SlopeStays(xs, 0, k, o.slope);
    assert xs[..0] == [];
  }
}
