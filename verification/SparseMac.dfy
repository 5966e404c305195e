/** The sparse multiply-accumulate element and the golden model it answers to. */
module SparseMac {
  import opened Words

  /** One operand pair, both signed 8-bit. */
  datatype Pair = Pair(weight: int, act: int)

  predicate IsOperand(x: int) { -128 <= x <= 127 }

  predicate IsPair(p: Pair) { IsOperand(p.weight) && IsOperand(p.act) }

  predicate ArePairs(ps: seq<Pair>) { forall k | 0 <= k < |ps| :: IsPair(ps[k]) }

  const ACC_MOD := 0x1_0000_0000
  const SKIP_MOD := 0x1_0000

  /** The pair a 16-bit stream beat carries: weight in the low lane, activation above it. */
  function Unpack(raw: nat): (p: Pair)
    ensures IsPair(p)
  {
    Pair(Signed(raw % 256, 256), Signed(raw / 256 % 256, 256))
  }

  lemma UnpackPacked(low: Byte, high: Byte)
    ensures Unpack(low + 256 * high) == Pair(Signed(low, 256), Signed(high, 256))
  {
    var raw: int := low + 256 * high;
    assert raw % 256 == low && raw / 256 == high;
  }

  // ---------------------------------------------------------------------------
  // What a tile means: the plain dot product, and how many pairs hold a zero
  // ---------------------------------------------------------------------------

  function Dot(ps: seq<Pair>): int {
    if ps == [] then 0 else Dot(ps[..|ps| - 1]) + ps[|ps| - 1].weight * ps[|ps| - 1].act
  }

  predicate HasZero(p: Pair) { p.weight == 0 || p.act == 0 }

  function Zeros(ps: seq<Pair>): (n: nat)
    ensures n <= |ps|
  {
    if ps == [] then 0 else Zeros(ps[..|ps| - 1]) + if HasZero(ps[|ps| - 1]) then 1 else 0
  }

  lemma Snoc(ps: seq<Pair>, p: Pair)
    ensures Dot(ps + [p]) == Dot(ps) + p.weight * p.act
    ensures Zeros(ps + [p]) == Zeros(ps) + if p.weight * p.act == 0 then 1 else 0
  {
    assert (ps + [p])[..|ps|] == ps;
  }

  lemma Extend(ps: seq<Pair>, i: nat)
    requires i < |ps|
    ensures Dot(ps[..i + 1]) == Dot(ps[..i]) + ps[i].weight * ps[i].act
    ensures Zeros(ps[..i + 1]) == Zeros(ps[..i]) + if ps[i].weight * ps[i].act == 0 then 1 else 0
  {
    assert ps[..i + 1][..i] == ps[..i];
  }

  /** What is counted: the pairs whose product is zero, each once. */
  lemma {:induction false} ZerosCount(ps: seq<Pair>)
    ensures Zeros(ps) == |set k: nat | k < |ps| && ps[k].weight * ps[k].act == 0|
  {
    var at := set k: nat | k < |ps| && ps[k].weight * ps[k].act == 0;
    if ps == [] {
      assert at == {};
    } else {
      var n := |ps| - 1;
      var before := ps[..n];
      var earlier := set k: nat | k < n && before[k].weight * before[k].act == 0;
      ZerosCount(before);
      Extend(ps, n);
      assert ps[..n + 1] == ps;
      assert at == if ps[n].weight * ps[n].act == 0 then earlier + {n} else earlier;
    }
  }

  /** And what is added up: the sum is that of its parts, and one pair's is its product. */
  lemma {:induction false} DotAdds(ps: seq<Pair>, qs: seq<Pair>)
    ensures Dot(ps + qs) == Dot(ps) + Dot(qs)
    ensures |qs| == 1 ==> Dot(qs) == qs[0].weight * qs[0].act
  {
    if qs == [] {
      assert ps + qs == ps;
    } else {
      var n := |qs| - 1;
      DotAdds(ps, qs[..n]);
      Snoc(ps + qs[..n], qs[n]);
      Snoc(qs[..n], qs[n]);
      assert ps + qs[..n] + [qs[n]] == ps + qs && qs[..n] + [qs[n]] == qs;
    }
  }

  function Zip(weights: seq<int>, acts: seq<int>): (ps: seq<Pair>)
    ensures |ps| == |weights| || |ps| == |acts|
    ensures |ps| <= |weights| && |ps| <= |acts|
    ensures forall k | 0 <= k < |ps| :: ps[k] == Pair(weights[k], acts[k])
  {
    seq(if |weights| <= |acts| then |weights| else |acts|,
        i requires 0 <= i < |weights| && i < |acts| => Pair(weights[i], acts[i]))
  }

  /** The golden model: zero pairs are counted rather than multiplied, and no width wraps. */
  method Golden(weights: seq<int>, acts: seq<int>) returns (acc: int, skip: nat)
    ensures acc == Dot(Zip(weights, acts))
    ensures skip == Zeros(Zip(weights, acts))
    ensures skip == |set k: nat | k < |weights| && k < |acts| && weights[k] * acts[k] == 0|
  {
    var ps := Zip(weights, acts);
    acc, skip := 0, 0;
    var i := 0;
    while i < |weights| && i < |acts|
      invariant i <= |ps|
      invariant acc == Dot(ps[..i]) && skip == Zeros(ps[..i])
    {
      var w, a := weights[i], acts[i];
      Extend(ps, i);
      if w == 0 || a == 0 {
        skip := skip + 1;
      } else {
        acc := acc + w * a;
      }
      i := i + 1;
    }
    assert ps[..i] == ps;
    ZerosCount(ps);
    assert (set k: nat | k < |ps| && ps[k].weight * ps[k].act == 0)
           == (set k: nat | k < |weights| && k < |acts| && weights[k] * acts[k] == 0);
  }

  // ---------------------------------------------------------------------------
  // The element
  // ---------------------------------------------------------------------------

  datatype Pe = Pe(acc: int, skip: nat, validOut: bool)

  /** Accumulator and skip register once exactly ps has been absorbed since a clear. */
  predicate Holds(acc: int, skip: nat, ps: seq<Pair>) {
    acc == Signed(Dot(ps), ACC_MOD) && skip == Zeros(ps) % SKIP_MOD
  }

  /** One clock: the enable freezes, a clear has priority, a zero operand only counts. */
  function PeNext(s: Pe, en: bool, clearAcc: bool, validIn: bool, p: Pair): Pe {
    if !en then s.(validOut := false)
    else if clearAcc then Pe(0, 0, false)
    else if !validIn then s.(validOut := false)
    else if HasZero(p) then Pe(s.acc, (s.skip + 1) % SKIP_MOD, true)
    else Pe(Signed(s.acc + p.weight * p.act, ACC_MOD), s.skip, true)
  }

  /** The element freezes without its enable, clears before anything else, and consumes a valid pair by
      counting it or by adding its product; and says so when it has. */
  lemma PeLaw(s: Pe, en: bool, clearAcc: bool, validIn: bool, w: int, a: int)
    ensures var n := PeNext(s, en, clearAcc, validIn, Pair(w, a));
            && (!en || (!clearAcc && !validIn) ==> n.acc == s.acc && n.skip == s.skip)
            && (en && clearAcc ==> n.acc == 0 && n.skip == 0)
            && (en && !clearAcc && validIn && w * a == 0 ==> n.acc == s.acc && n.skip == (s.skip + 1) % 65536)
            && (en && !clearAcc && validIn && w * a != 0 ==>
                  && (n.acc - s.acc - w * a) % 0x1_0000_0000 == 0 && -0x8000_0000 <= n.acc < 0x8000_0000
                  && n.skip == s.skip)
            && (n.validOut <==> en && !clearAcc && validIn)
  {
    hide Signed;
    if w * a != 0 {
      var x := s.acc + w * a;
      assert (x - Signed(x, ACC_MOD)) % ACC_MOD == 0;
      OppositeMod(x - Signed(x, ACC_MOD), ACC_MOD);
    }
  }

  lemma OppositeMod(x: int, m: int)
    requires m > 0 && x % m == 0
    ensures (-x) % m == 0
  {
    assert -x == -(x / m) * m;
    MultipleMod(-(x / m), m);
  }

  lemma HoldsNothing()
    ensures Holds(0, 0, [])
  {
  }

  /** Skipping zeros and wrapping every cycle lose nothing against the wrapped dot product. */
  lemma MacStep(s: Pe, ps: seq<Pair>, p: Pair)
    requires Holds(s.acc, s.skip, ps)
    ensures var n := PeNext(s, true, false, true, p); Holds(n.acc, n.skip, ps + [p])
  {
    hide Dot, Zeros, Signed;
    Snoc(ps, p);
    if !HasZero(p) {
      SignedAbsorbs(Dot(ps), p.weight * p.act, ACC_MOD);
    }
  }

  class SparseMacPe {
    var acc: int
    var skipCount: nat
    var validOut: bool

    constructor ()
      ensures View() == Pe(0, 0, false)
    {
      acc, skipCount, validOut := 0, 0, false;
    }

    function View(): Pe
      reads this
    {
      Pe(acc, skipCount, validOut)
    }

    method Reset()
      modifies this
      ensures View() == Pe(0, 0, false)
    {
      acc, skipCount, validOut := 0, 0, false;
    }

    method Tick(en: bool, clearAcc: bool, validIn: bool, weight: int, act: int)
      modifies this
      ensures View() == PeNext(old(View()), en, clearAcc, validIn, Pair(weight, act))
    {
      var isZero := weight == 0 || act == 0;
      var doMac := validIn && !isZero;
      if en {
        if clearAcc {
          acc, skipCount := 0, 0;
        } else {
          if doMac {
            acc := Signed(acc + weight * act, ACC_MOD);
          }
          if validIn && isZero {
            skipCount := (skipCount + 1) % SKIP_MOD;
          }
        }
        validOut := validIn && !clearAcc;
      } else {
        validOut := false;
      }
    }
  }

  // ---------------------------------------------------------------------------
  // How long a tile may be before a register loses information
  // ---------------------------------------------------------------------------

  lemma ProductBound(w: int, a: int)
    requires IsOperand(w) && IsOperand(a)
    ensures -16256 <= w * a <= 16384
  {
    if 0 <= a {
      NonNegative(w + 128, a);
      NonNegative(127 - w, a);
    } else {
      NonNegative(w + 128, -a);
      NonNegative(127 - w, -a);
    }
  }

  lemma {:induction false} DotBound(ps: seq<Pair>)
    requires ArePairs(ps)
    ensures -16256 * |ps| <= Dot(ps) <= 16384 * |ps|
  {
    if ps == [] {
    } else {
      var p := ps[|ps| - 1];
      DotBound(ps[..|ps| - 1]);
      ProductBound(p.weight, p.act);
    }
  }

  /** Up to 131071 pairs the 32-bit accumulator is the unbounded sum; up to 65535 so is the count. */
  lemma ExactWithinWidths(acc: int, skip: nat, ps: seq<Pair>)
    requires ArePairs(ps) && Holds(acc, skip, ps)
    ensures |ps| <= 131071 ==> acc == Dot(ps)
    ensures |ps| <= 65535 ==> skip == Zeros(ps)
  {
    hide Dot, Zeros;
    DotBound(ps);
  }

  /** The accumulator bound is tight: one pair more and the worst tile wraps. */
  lemma {:induction false} WorstTile(n: nat)
    ensures var ps := seq(n, _ => Pair(-128, -128));
            ArePairs(ps) && Dot(ps) == 16384 * n
            && (n == 131072 ==> Signed(Dot(ps), ACC_MOD) != Dot(ps))
  {
    var ps := seq(n, _ => Pair(-128, -128));
    if n == 0 {
    } else {
      WorstTile(n - 1);
      assert ps[..n - 1] == seq(n - 1, _ => Pair(-128, -128));
    }
  }

  /** And so is the counter's: 65536 zero pairs read back as none. */
  lemma {:induction false} AllZeroTile(n: nat)
    ensures var ps := seq(n, _ => Pair(0, 0));
            Zeros(ps) == n && (n == 65536 ==> Zeros(ps) % SKIP_MOD != Zeros(ps))
  {
    var ps := seq(n, _ => Pair(0, 0));
    if n == 0 {
    } else {
      AllZeroTile(n - 1);
      assert ps[..n - 1] == seq(n - 1, _ => Pair(0, 0));
    }
  }
}
