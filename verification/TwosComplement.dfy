/** Machine arithmetic on two's complement integers, and how Euclidean division is lowered
    to it. */
module TwosComplement {
  import opened IR

  /** The bitwise and of two integers whose bits from the n-th on are all sign. */
  function BitAnd(n: nat, x: int, y: int): int {
    if n == 0 then (if x < 0 && y < 0 then -1 else 0)
    else 2 * BitAnd(n - 1, x / 2, y / 2) + (if x % 2 == 1 && y % 2 == 1 then 1 else 0)
  }

  function BitNot(x: int): int { -1 - x }

  /** Arithmetic shift. */
  function ShiftRight(x: int, k: nat): int { x / Pow2(k) }

  /** Division that rounds toward zero, as C's does. */
  function TruncDiv(x: int, y: int): int
    requires y != 0
  {
    var q := AbsInt(x) / AbsInt(y);
    if (x < 0) == (y < 0) then q else -q
  }

  function TruncMod(x: int, y: int): int
    requires y != 0
  {
    x - TruncDiv(x, y) * y
  }

  predicate Fits(n: nat, x: int) { 0 - Pow2(n) <= x < Pow2(n) }

  lemma HalfFits(n: nat, x: int)
    requires n > 0 && Fits(n, x)
    ensures Fits(n - 1, x / 2)
  {
    assert Pow2(n) == 2 * Pow2(n - 1);
  }

  lemma {:induction false} AndOnes(n: nat, x: int)
    requires Fits(n, x)
    ensures BitAnd(n, x, -1) == x
  {
    if n > 0 {
      HalfFits(n, x);
      AndOnes(n - 1, x / 2);
      assert (-1) / 2 == -1 && (-1) % 2 == 1;
    }
  }

  lemma {:induction false} AndNothing(n: nat, x: int)
    ensures BitAnd(n, x, 0) == 0
  {
    if n > 0 { AndNothing(n - 1, x / 2); }
  }

  lemma {:induction false} AndSwaps(n: nat, x: int, y: int)
    ensures BitAnd(n, x, y) == BitAnd(n, y, x)
  {
    if n > 0 { AndSwaps(n - 1, x / 2, y / 2); }
  }

  lemma HalfOfMod(x: int, p: int)
    requires p > 0
    ensures x % (2 * p) == 2 * ((x / 2) % p) + x % 2
  {
    var h, b := x / 2, x % 2;
    var k, r := h / p, h % p;
    assert x == 2 * (k * p + r) + b;
    assert x == (2 * p) * k + (2 * r + b) by { assert 2 * (k * p) == (2 * p) * k; }
    DivModIs(x, 2 * p, k, 2 * r + b);
  }

  lemma DivModIs(x: int, n: int, k: int, r: int)
    requires n != 0 && x == n * k + r && 0 <= r < AbsInt(n)
    ensures x / n == k && x % n == r
  {
    var k', r' := x / n, x % n;
    assert n * (k - k') == r' - r;
    if k != k' {
      if k > k' { assert AbsInt(n * (k - k')) >= AbsInt(n) by { MulAtLeast(n, k - k'); } }
      else { assert AbsInt(n * (k - k')) >= AbsInt(n) by { MulAtLeast(n, k - k'); } }
    }
  }

  lemma MulAtLeast(n: int, d: int)
    requires d != 0
    ensures AbsInt(n * d) >= AbsInt(n)
  {}

  /** Masking with 2^k - 1 is the Euclidean remainder by 2^k, for negative numbers too. */
  lemma {:induction false} MaskIsMod(n: nat, x: int, k: nat)
    requires k <= n
    ensures BitAnd(n, x, Pow2(k) - 1) == x % Pow2(k)
  {
    if k == 0 {
      AndNothing(n, x);
    } else {
      var p := Pow2(k - 1);
      MaskIsMod(n - 1, x / 2, k - 1);
      HalfOfMod(x, p);
      assert (2 * p - 1) / 2 == p - 1 && (2 * p - 1) % 2 == 1;
    }
  }

  /** Shifting out everything but the sign. */
  lemma SignMask(n: nat, x: int)
    requires Fits(n, x)
    ensures ShiftRight(x, n) == if x < 0 then -1 else 0
  {
    var p := Pow2(n);
    if x < 0 { DivModIs(x, p, -1, x + p); } else { DivModIs(x, p, 0, x); }
  }

  /** q - (rs & bs) + (rs & ~bs), the correction of a truncated quotient by sign masks. */
  function Corrected(n: nat, x: int, y: int): int
    requires y != 0
  {
    var q := TruncDiv(x, y);
    var r := x - q * y;
    var rs, bs := ShiftRight(r, n), ShiftRight(y, n);
    q - BitAnd(n, rs, bs) + BitAnd(n, rs, BitNot(bs))
  }

  lemma {:induction false} MaskPair(n: nat, r: int, b: int)
    requires (r == 0 || r == -1) && (b == 0 || b == -1)
    ensures BitAnd(n, r, b) == if r == -1 && b == -1 then -1 else 0
  {
    OneFits(n);
    if b == -1 { AndOnes(n, r); } else { AndNothing(n, r); }
  }

  lemma OneFits(n: nat)
    ensures Fits(n, -1) && Fits(n, 0)
  {}

  lemma SignedProduct(q: int, b: int)
    ensures (-q) * b == -(q * b) && q * (-b) == -(q * b) && (-q) * (-b) == q * b
  {}

  /** The truncated remainder is that of the magnitudes, with the sign of the dividend. */
  lemma TruncModIs(x: int, y: int)
    requires y != 0
    ensures TruncMod(x, y) == if x < 0 then -(AbsInt(x) % AbsInt(y)) else AbsInt(x) % AbsInt(y)
  {
    var a, b := AbsInt(x), AbsInt(y);
    var q := a / b;
    assert a == q * b + a % b;
    SignedProduct(q, b);
  }

  /** The truncated remainder has the sign of the dividend and is smaller than the divisor. */
  lemma TruncRemainder(x: int, y: int)
    requires y != 0
    ensures AbsInt(TruncMod(x, y)) < AbsInt(y) && AbsInt(TruncMod(x, y)) <= AbsInt(x)
    ensures TruncMod(x, y) < 0 ==> x < 0
    ensures TruncMod(x, y) > 0 ==> x > 0
  {
    TruncModIs(x, y);
    ModBounds(AbsInt(x), AbsInt(y));
  }

  lemma ModBounds(a: int, b: int)
    requires a >= 0 && b > 0
    ensures 0 <= a % b < b && a % b <= a
  {
    if a < b { DivModIs(a, b, 0, a); }
  }

  /** What the sign masks add to the truncated quotient. */
  lemma CorrectedIs(n: nat, x: int, y: int)
    requires y != 0 && Fits(n, x) && Fits(n, y)
    ensures Corrected(n, x, y) == TruncDiv(x, y) + if TruncMod(x, y) >= 0 then 0 else if y < 0 then 1 else -1
  {
    var r := TruncMod(x, y);
    TruncRemainder(x, y);
    SignMask(n, r);
    SignMask(n, y);
    MaskPair(n, ShiftRight(r, n), ShiftRight(y, n));
    MaskPair(n, ShiftRight(r, n), BitNot(ShiftRight(y, n)));
  }

  /** Dividing by truncation and correcting gives the Euclidean quotient and, for the
      remainder, a value in [0, |y|), for every width and every sign. */
  lemma LoweringIsEuclidean(n: nat, x: int, y: int)
    requires y != 0 && Fits(n, x) && Fits(n, y)
    ensures Corrected(n, x, y) == x / y
    ensures (if TruncMod(x, y) < 0 then TruncMod(x, y) + AbsInt(y) else TruncMod(x, y)) == x % y
  {
    CorrectedIs(n, x, y);
    TruncRemainder(x, y);
    EuclidFromTrunc(x, y, TruncDiv(x, y), TruncMod(x, y));
  }

  lemma EuclidFromTrunc(x: int, y: int, q: int, r: int)
    requires y != 0 && x == q * y + r && AbsInt(r) < AbsInt(y)
    ensures x / y == q + if r >= 0 then 0 else if y < 0 then 1 else -1
    ensures x % y == if r < 0 then r + AbsInt(y) else r
  {
    if r >= 0 {
      assert x == y * q + r;
      DivModIs(x, y, q, r);
    } else if y < 0 {
      assert y * (q + 1) == y * q + y;
      DivModIs(x, y, q + 1, r - y);
    } else {
      assert y * (q - 1) == y * q - y;
      DivModIs(x, y, q - 1, r + y);
    }
  }
}
