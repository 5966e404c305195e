/** The Leaky ReLU arithmetic, bit for bit, and its golden model, at every width. */
module ReluUnit {
  import opened Words

  predicate Fits(x: int, width: nat)
    requires width > 0
  {
    -Pow2(width - 1) <= x < Pow2(width - 1)
  }

  function Modulus(width: nat): (m: int)
    requires width > 0
    ensures m > 0 && m % 2 == 0 && m / 2 == Pow2(width - 1)
  {
    assert Pow2(width) == 2 * Pow2(width - 1);
    Pow2(width)
  }

  /** The unit: a product of dataW + slopeW + 1 bits, an arithmetic shift, and a cast back. */
  function Unit(dataW: nat, slopeW: nat, x: int, slope: nat): int
    requires dataW > 0 && slopeW > 0
  {
    if x >= 0 then x
    else Signed(Signed(x * slope, Modulus(dataW + slopeW + 1)) / Pow2(slopeW), Modulus(dataW))
  }

  /** The golden model: the exact quotient, rounded towards minus infinity. */
  function Leaky(slopeW: nat, x: int, slope: nat): int {
    if x >= 0 then x else x * slope / Pow2(slopeW)
  }

  /** Without a sign a value passes; with one it is the product scaled down by 2 to the slope's width,
      and nothing lies between that and the quotient. */
  lemma LeakyScales(slopeW: nat, x: int, slope: nat)
    ensures x >= 0 ==> Leaky(slopeW, x, slope) == x
    ensures x < 0 ==> var y, d := Leaky(slopeW, x, slope), Pow2(slopeW); d * y <= x * slope < d * y + d
  {
    var d := Pow2(slopeW);
    assert x * slope == (x * slope / d) * d + x * slope % d;
  }

  /** q is the floor of p over d, and nothing else is. */
  lemma FloorIs(p: int, d: int, q: int)
    requires d > 0 && q * d <= p < q * d + d
    ensures p / d == q
  {
    var r := p / d;
    assert r * d <= p < r * d + d;
    assert (q - r) * d == q * d - r * d;
    Grows(q - r, d);
  }

  lemma Ordered(a: int, b: int, k: int)
    requires a <= b && k >= 0
    ensures a * k <= b * k
  {
    Grows(0, 1);
    assert (b - a) * k >= 0 by { NonNegative(b - a, k); }
    assert (b - a) * k == b * k - a * k;
  }

  lemma DivMonotone(a: int, b: int, d: int)
    requires a <= b && d > 0
    ensures a / d <= b / d
  {
    var p, q := a / d, b / d;
    assert p * d <= a && b < q * d + d;
    assert (p - q) * d == p * d - q * d;
    Grows(p - q, d);
  }

  /** A negative activation is drawn towards zero and never past it. */
  lemma LeakyShrinks(slopeW: nat, x: int, slope: nat)
    requires slope < Pow2(slopeW)
    ensures x < 0 ==> x <= Leaky(slopeW, x, slope) <= 0
  {
    if x < 0 {
      var d := Pow2(slopeW);
      Ordered(slope, d, -x);
      assert x * d <= x * slope by {
        assert slope * -x == -(x * slope) && d * -x == -(x * d);
      }
      assert x * slope <= 0 by { NonNegative(-x, slope); assert -x * slope == -(x * slope); }
      FloorIs(x * d, d, x);
      DivMonotone(x * d, x * slope, d);
      DivMonotone(x * slope, 0, d);
    }
  }

  /** The activation preserves order. */
  lemma LeakyMonotone(slopeW: nat, x: int, y: int, slope: nat)
    requires slope < Pow2(slopeW) && x <= y
    ensures Leaky(slopeW, x, slope) <= Leaky(slopeW, y, slope)
  {
    LeakyShrinks(slopeW, x, slope);
    if y < 0 {
      Ordered(x, y, slope);
      DivMonotone(x * slope, y * slope, Pow2(slopeW));
    }
  }

  /** Every product fits its register with a bit to spare, whichever branch then uses it. */
  lemma ProductFits(dataW: nat, slopeW: nat, x: int, slope: nat)
    requires dataW > 0 && slopeW > 0 && Fits(x, dataW) && slope < Pow2(slopeW)
    ensures Fits(x * slope, dataW + slopeW) && Fits(x * slope, dataW + slopeW + 1)
  {
    Pow2Adds(dataW - 1, slopeW);
    InBounds(x, Pow2(dataW - 1), slope, Pow2(slopeW));
    assert Pow2(dataW + slopeW) == 2 * Pow2(dataW + slopeW - 1);
  }

  lemma InBounds(x: int, half: int, slope: int, d: int)
    requires -half <= x < half && 0 <= slope < d
    ensures -(half * d) <= x * slope < half * d
  {
    Ordered(slope, d - 1, half);
    Commutes(slope, half);
    assert (d - 1) * half == half * d - half;
    Ordered(-half, x, slope);
    Ordered(x, half, slope);
    assert -half * slope == -(half * slope);
  }

  lemma Commutes(x: int, y: int)
    ensures x * y == y * x
  {
  }

  /** The bit-level unit is the golden model at every positive width: neither the product nor the
      final cast ever loses a bit. */
  lemma UnitIsLeaky(dataW: nat, slopeW: nat, x: int, slope: nat)
    requires dataW > 0 && slopeW > 0 && Fits(x, dataW) && slope < Pow2(slopeW)
    ensures Unit(dataW, slopeW, x, slope) == Leaky(slopeW, x, slope)
    ensures Fits(Unit(dataW, slopeW, x, slope), dataW)
  {
    LeakyShrinks(slopeW, x, slope);
    if x < 0 {
      ProductFits(dataW, slopeW, x, slope);
      assert Signed(x * slope, Modulus(dataW + slopeW + 1)) == x * slope;
    }
  }

  predicate ProductHeld(x: int, slope: nat, width: nat)
    requires width > 0
  {
    Fits(x * slope, width)
  }

  /** A register of this width holds the product of any operand and any slope. */
  ghost predicate HoldsProducts(dataW: nat, slopeW: nat, width: nat)
    requires dataW > 0 && slopeW > 0 && width > 0
  {
    forall x: int, slope: nat | Fits(x, dataW) && slope < Pow2(slopeW) :: ProductHeld(x, slope, width)
  }

  /** The spare bit is the only one: dataW + slopeW bits hold every product, and one fewer holds them
      all iff the slope is a single bit. */
  lemma ProductWidth(dataW: nat, slopeW: nat)
    requires dataW > 0 && slopeW > 0
    ensures HoldsProducts(dataW, slopeW, dataW + slopeW)
    ensures HoldsProducts(dataW, slopeW, dataW + slopeW - 1) <==> slopeW == 1
  {
    var width := dataW + slopeW;
    forall x: int, slope: nat | Fits(x, dataW) && slope < Pow2(slopeW)
      ensures ProductHeld(x, slope, width)
    {
      ProductFits(dataW, slopeW, x, slope);
    }
    if slopeW == 1 {
      forall x: int, slope: nat | Fits(x, dataW) && slope < Pow2(slopeW)
        ensures ProductHeld(x, slope, dataW)
      {
        OneBit(x, slope);
      }
    } else {
      LargestProduct(dataW, slopeW);
      assert !ProductHeld(-Pow2(dataW - 1), Pow2(slopeW) - 1, width - 1);
    }
  }

  lemma OneBit(x: int, slope: nat)
    requires slope < Pow2(1)
    ensures x * slope == 0 || x * slope == x
  {
    assert Pow2(1) == 2 * Pow2(0);
  }

  /** Of a slope of two bits or more, the extreme product needs them all. */
  lemma LargestProduct(dataW: nat, slopeW: nat)
    requires dataW > 0 && slopeW > 1
    ensures Fits(-Pow2(dataW - 1), dataW)
    ensures !Fits(-Pow2(dataW - 1) * (Pow2(slopeW) - 1), dataW + slopeW - 1)
  {
    var half, d := Pow2(dataW - 1), Pow2(slopeW);
    assert Pow2(slopeW - 1) == 2 * Pow2(slopeW - 2);
    assert d == 4 * Pow2(slopeW - 2);
    Pow2Adds(dataW - 1, slopeW);
    assert half * d == Pow2(dataW + slopeW - 1);
    assert Pow2(dataW + slopeW - 1) == 2 * Pow2(dataW + slopeW - 2);
    Ordered(4, d, half);
    Commutes(d, half);
    assert -half * (d - 1) == half - half * d;
  }
}
