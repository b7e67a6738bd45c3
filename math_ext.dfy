/**
 * Integer helpers of the C# code, with C#'s operators written out:
 * `%` on `int` truncates toward zero (the remainder takes the sign of the
 * dividend), unlike Dafny's Euclidean `%`.
 */
module MathExt {
  import opened Wrappers

  const INT32_MIN: int := -0x8000_0000
  const INT32_MAX: int := 0x7fff_ffff

  predicate IsInt32(x: int) { INT32_MIN <= x <= INT32_MAX }

  function Abs(a: int): (r: nat)
    ensures r == a || r == -a
  {
    if a < 0 then -a else a
  }

  /** C#'s `a % b`: truncated remainder. */
  function TruncRem(a: int, b: int): (r: int)
    requires b != 0
    ensures Abs(r) < Abs(b)
    ensures a >= 0 ==> r >= 0
    ensures a < 0 ==> r <= 0
  {
    if a >= 0 then a % Abs(b) else -((-a) % Abs(b))
  }

  /** C#'s `a / b` for a positive divisor: the quotient truncated toward zero. */
  function TruncDiv(a: int, b: int): (q: int)
    requires b > 0
    ensures a >= 0 ==> q == a / b
    ensures a < 0 ==> q <= 0
  {
    if a >= 0 then a / b else -((-a) / b)
  }

  /** C#'s quotient and remainder recombine to the dividend; for a >= 0 the quotient's multiple brackets it. */
  lemma TruncDivRem(a: int, b: int)
    requires b > 0
    ensures TruncDiv(a, b) * b + TruncRem(a, b) == a
    ensures a >= 0 ==> 0 <= TruncDiv(a, b) * b <= a < TruncDiv(a, b) * b + b
  {
    var q, r := TruncDiv(a, b), TruncRem(a, b);
    assert Abs(b) == b;
    if a >= 0 {
      assert q == a / b && r == a % b;
      assert a == q * b + r;
      assert q >= 0 by {
        if q < 0 {
          MulAtLeast(-q, b);
        }
      }
      NonNegProduct(q, b);
    } else {
      var n := -a;
      assert q == -(n / b) && r == -(n % b);
      assert n == (n / b) * b + n % b;
      assert q * b == -((n / b) * b);
    }
  }

  /** Two's-complement wrap of an unbounded integer to 32 bits (C# `unchecked`). */
  function Wrap32(x: int): (r: int)
    ensures IsInt32(r)
    ensures IsInt32(x) ==> r == x
  {
    (x - INT32_MIN) % 0x1_0000_0000 + INT32_MIN
  }

  /**
   * `MathMod(a, b) = (Math.Abs(a * b) + a) % b` on unbounded integers.
   * For a positive modulus it is the floored modulo, also for negative `a`.
   */
  function MathMod(a: int, b: int): (r: int)
    requires b != 0
    ensures b > 0 ==> 0 <= r < b
    ensures b > 0 ==> r == a % b
    ensures b > 0 && a >= 0 ==> r == TruncRem(a, b)
  {
    if b > 0 then
      AbsTimesPositive(a, b);
      ModShift(Abs(a), a, b);
      TruncRem(Abs(a * b) + a, b)
    else
      TruncRem(Abs(a * b) + a, b)
  }

  /**
   * The same formula evaluated in C#'s 32-bit `int`: the product and the sum
   * wrap; `Math.Abs(int.MinValue)` and `int.MinValue % -1` throw (None).
   */
  function MathModInt32(a: int, b: int): (r: Option<int>)
    requires IsInt32(a) && IsInt32(b) && b != 0
    ensures IsInt32(Abs(a * b)) && IsInt32(Abs(a * b) + a) ==> r == Some(MathMod(a, b))
  {
    var p := Wrap32(a * b);
    if p == INT32_MIN then None
    else
      var s := Wrap32(Abs(p) + a);
      if s == INT32_MIN && b == -1 then None else Some(TruncRem(s, b))
  }

  /** The worked value from the coordinate code: -5 is 7 modulo 12. */
  lemma MathModOfNegative()
    ensures MathMod(-5, 12) == 7
    ensures MathMod(-12, 12) == 0
    ensures MathMod(59, 12) == 11
  {
  }

  /**
   * The 32-bit formula breaks once |a * b| no longer fits in an `int`: for a
   * tile position of 2796203 the segment offset comes out negative.
   */
  lemma MathModInt32Overflows()
    ensures MathModInt32(2796203, 768).Some?
    ensures MathModInt32(2796203, 768).value < 0
    ensures MathMod(2796203, 768) == 683
  {
  }

  /** For b > 0, |a*b| = |a|*b, and |a|*b + a never drops below zero. */
  lemma AbsTimesPositive(a: int, b: int)
    requires b > 0
    ensures Abs(a * b) == Abs(a) * b
    ensures Abs(a) * b + a >= 0
  {
    if a < 0 {
      assert a * b == -((-a) * b);
      assert (-a) * b + a == (-a) * (b - 1);
      NonNegProduct(-a, b - 1);
    } else {
      NonNegProduct(a, b);
    }
  }

  lemma NonNegProduct(x: int, y: int)
    requires x >= 0 && y >= 0
    ensures x * y >= 0
  {
  }

  lemma {:induction false} MulAtLeast(d: int, b: int)
    requires d >= 1 && b > 0
    ensures d * b >= b
  {
    if d > 1 {
      MulAtLeast(d - 1, b);
      assert d * b == (d - 1) * b + b;
    }
  }

  /** Quotient and remainder are unique: Dafny's `/` and `%` are the floored ones for b > 0. */
  lemma DivModUnique(x: int, b: int, q: int, r: int)
    requires b > 0 && 0 <= r < b && x == q * b + r
    ensures x % b == r && x / b == q
  {
    var q', r' := x / b, x % b;
    assert x == q' * b + r';
    var d := q - q';
    assert d * b == q * b - q' * b;
    assert d * b == r' - r;
    if d > 0 {
      MulAtLeast(d, b);
    } else if d < 0 {
      MulAtLeast(-d, b);
    }
  }

  /** Adding a multiple of the modulus does not change the remainder. */
  lemma ModShift(k: int, a: int, b: int)
    requires b > 0
    ensures (k * b + a) % b == a % b
  {
    assert a == (a / b) * b + a % b;
    assert k * b + a == (k + a / b) * b + a % b;
    DivModUnique(k * b + a, b, k + a / b, a % b);
  }
}
