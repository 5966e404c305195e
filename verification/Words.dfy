/** Fixed-width numbers: two's complement, byte lanes and powers of two. */
module Words {

  type Byte = x: int | 0 <= x < 256

  /** A 32-bit register or bus word, lane 0 the least significant byte. */
  type Lanes = s: seq<Byte> | |s| == 4 witness [0, 0, 0, 0]

  /** One write strobe per byte lane. */
  type Strobes = s: seq<bool> | |s| == 4 witness [false, false, false, false]

  function Pow2(n: nat): (p: int)
    ensures p >= 1
  {
    if n == 0 then 1 else 2 * Pow2(n - 1)
  }

  lemma {:induction false} Pow2Adds(a: nat, b: nat)
    ensures Pow2(a + b) == Pow2(a) * Pow2(b)
  {
    if a == 0 {
    } else {
      Pow2Adds(a - 1, b);
    }
  }

  /** x reduced modulo m into the signed range [-m/2, m/2). */
  function Signed(x: int, m: int): (r: int)
    requires m > 0 && m % 2 == 0
    ensures -(m / 2) <= r < m / 2
    ensures (x - r) % m == 0
    ensures -(m / 2) <= x < m / 2 ==> r == x
  {
    var r := (x + m / 2) % m - m / 2;
    assert (x - r) % m == 0 by { DivisorOfDifference(x + m / 2, m); }
    if -(m / 2) <= x < m / 2 then
      assert (x + m / 2) % m == x + m / 2 by { SmallMod(x + m / 2, m); }
      r
    else r
  }

  lemma SmallMod(x: int, m: int)
    requires 0 <= x < m
    ensures x % m == x
  {
  }

  lemma NonNegative(x: int, y: int)
    requires x >= 0 && y >= 0
    ensures x * y >= 0
  {
  }

  /** No multiple of m lies strictly between -m and m, other than zero. */
  lemma Grows(q: int, m: int)
    requires m > 0
    ensures q >= 1 ==> q * m >= m
    ensures q <= -1 ==> q * m <= -m
  {
  }

  lemma MultipleMod(q: int, m: int)
    requires m > 0
    ensures (q * m) % m == 0
  {
    var p := q * m;
    assert p == (p / m) * m + p % m;
    assert (q - p / m) * m == p % m;
    Grows(q - p / m, m);
  }

  lemma DivisorOfDifference(x: int, m: int)
    requires m > 0
    ensures (x - x % m) % m == 0
  {
    assert x - x % m == (x / m) * m;
    MultipleMod(x / m, m);
  }

  /** The signed representative of a residue class is unique. */
  lemma SignedIsUnique(x: int, r: int, m: int)
    requires m > 0 && m % 2 == 0
    requires -(m / 2) <= r < m / 2
    requires (x - r) % m == 0
    ensures r == Signed(x, m)
  {
    hide Signed;
    var s := Signed(x, m);
    assert (x - r) == ((x - r) / m) * m;
    assert (x - s) == ((x - s) / m) * m;
    var q := (x - r) / m - (x - s) / m;
    assert s - r == q * m;
    Grows(q, m);
  }

  /** Reducing before an addition changes nothing, so a running sum may wrap early. */
  lemma SignedAbsorbs(x: int, y: int, m: int)
    requires m > 0 && m % 2 == 0
    ensures Signed(Signed(x, m) + y, m) == Signed(x + y, m)
  {
    hide Signed;
    var a := Signed(x, m);
    var r := Signed(a + y, m);
    var p, q := (x - a) / m, (a + y - r) / m;
    assert x - a == p * m;
    assert a + y - r == q * m;
    assert x + y - r == (p + q) * m;
    MultipleMod(p + q, m);
    SignedIsUnique(x + y, r, m);
  }

  /** The numeric value of a word. */
  function Num(w: Lanes): (n: nat)
    ensures n < 0x1_0000_0000
  {
    var b0: int, b1: int, b2: int, b3: int := w[0], w[1], w[2], w[3];
    b0 + 0x100 * b1 + 0x1_0000 * b2 + 0x100_0000 * b3
  }

  /** The word that carries a 32-bit number. */
  function LanesOf(n: nat): (w: Lanes)
    requires n < 0x1_0000_0000
  {
    [n % 256, n / 256 % 256, n / 256 / 256 % 256, n / 256 / 256 / 256]
  }

  /** The lanes of a number are its bytes, the least significant first. */
  lemma LanesAre(n: nat)
    requires n < 0x1_0000_0000
    ensures var w := LanesOf(n); Num(w) == n && w[0] == n % 256 && w[3] == n / 0x100_0000
  {
    var a, b, c := n / 256, n / 256 / 256, n / 256 / 256 / 256;
    assert n == 256 * a + n % 256 && a == 256 * b + a % 256 && b == 256 * c + b % 256;
  }

  lemma Powers()
    ensures Pow2(0) == 1 && Pow2(8) == 256 && Pow2(16) == 65536
  {
    assert Pow2(4) == 2 * (2 * (2 * (2 * Pow2(0))));
    Pow2Adds(4, 4);
    Pow2Adds(8, 8);
  }

  const WORD := 0x1_0000_0000

  /** Two's complement, as the golden models interpret a raw field. */
  method ToSigned(raw: int, width: nat) returns (r: int)
    requires width > 0
    ensures Pow2(width) % 2 == 0
    ensures r == Signed(raw, Pow2(width))
  {
    var m := Pow2(width);
    assert m == 2 * Pow2(width - 1);
    r := raw % m;
    DivisorOfDifference(raw, m);
    if r >= Pow2(width - 1) {
      assert raw - (r - m) == (raw / m + 1) * m;
      MultipleMod(raw / m + 1, m);
      r := r - m;
    }
    SignedIsUnique(raw, r, m);
  }
}
