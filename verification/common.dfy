/**
 Shared vocabulary for the EuroPi scripts: the value domains the hardware
 delivers (knob fractions, 16-bit readings, pin levels, bytes), Python's
 float-to-int conversion and Python's sequence indexing, and sums.
 */
module Common {

  datatype Option<+T> = None | Some(value: T)

  /** A digital pin level. */
  type Bit = b: int | b == 0 || b == 1

  /** A knob or CV input read as a fraction of full scale. */
  type Fraction = p: real | 0.0 <= p <= 1.0

  /** An unsigned 16-bit ADC reading. */
  type U16 = x: int | 0 <= x < 0x1_0000

  /** One byte on the serial link. */
  type Byte = x: int | 0 <= x < 0x100

  /** The level opposite to `b` (`1 if b == 0 else 0`). */
  function Flip(b: Bit): (r: Bit)
    ensures r != b
  {
    if b == 0 then 1 else 0
  }

  /** Python's `int(x)` on a float: truncation toward zero. */
  function Trunc(x: real): (r: int)
    ensures 0.0 <= x ==> 0 <= r && r as real <= x < r as real + 1.0
    ensures x < 0.0 ==> r <= 0 && r as real - 1.0 < x <= r as real
  {
    if x >= 0.0 then x.Floor else -((-x).Floor)
  }

  lemma TruncMonotone(x: real, y: real)
    requires x <= y
    ensures Trunc(x) <= Trunc(y)
  {
    if 0.0 <= x {
    } else if y < 0.0 {
      assert (-y).Floor <= (-x).Floor;
    }
  }

  lemma RealMulNonneg(a: real, b: real)
    requires a >= 0.0 && b >= 0.0
    ensures a * b >= 0.0
  {
  }

  /** Multiplying by a non-negative factor keeps the order. */
  lemma RealMulMonotone(x: real, y: real, c: real)
    requires x <= y && c >= 0.0
    ensures x * c <= y * c
  {
    RealMulNonneg(y - x, c);
    assert (y - x) * c == y * c - x * c;
  }

  /** Scaling a non-negative span by a fraction stays within the span. */
  lemma FractionOfSpan(p: Fraction, d: real)
    ensures d >= 0.0 ==> 0.0 <= p * d <= d
  {
    if d >= 0.0 {
      RealMulNonneg(p, d);
      RealMulNonneg(1.0 - p, d);
    }
  }

  lemma MulNonneg(a: int, b: int)
    requires a >= 0 && b >= 0
    ensures a * b >= 0
  {
  }

  /** The only multiple of `l` strictly between -l and l is zero. */
  lemma SmallMultiple(l: int, t: int)
    requires l > 0
    requires -l < l * t < l
    ensures t == 0
  {
    if t >= 1 {
      MulNonneg(l, t - 1);
    } else if t <= -1 {
      MulNonneg(l, -t - 1);
    }
  }

  /** Quotient and remainder are unique. */
  lemma DivModUnique(a: int, d: int, q: int, r: int)
    requires d > 0 && 0 <= r < d && a == d * q + r
    ensures a / d == q && a % d == r
  {
    var q' := a / d;
    var r' := a % d;
    assert d * (q - q') == r' - r by {
      assert d * (q - q') == d * q - d * q';
    }
    SmallMultiple(d, q - q');
  }

  /** Counting up by one: the remainder moves up by one and wraps at d,
      carrying one into the quotient. */
  lemma DivModStep(a: nat, d: int)
    requires d > 0
    ensures (a + 1) % d == (if a % d + 1 == d then 0 else a % d + 1)
    ensures (a + 1) / d == (if a % d + 1 == d then a / d + 1 else a / d)
  {
    var q := a / d;
    var m := a % d;
    assert a == d * q + m;
    if m + 1 == d {
      assert a + 1 == d * (q + 1) + 0 by {
        assert d * (q + 1) == d * q + d;
      }
      DivModUnique(a + 1, d, q + 1, 0);
    } else {
      DivModUnique(a + 1, d, q, m + 1);
    }
  }

  /** Python's `s[i]`: negative indices count from the end, anything else
      out of range raises IndexError (here: None). */
  function PyIndex<T>(s: seq<T>, i: int): (r: Option<T>)
    ensures r.Some? <==> -|s| <= i < |s|
    ensures 0 <= i < |s| ==> r == Some(s[i])
    ensures -|s| <= i < 0 ==> r == Some(s[|s| + i])
  {
    if 0 <= i < |s| then Some(s[i])
    else if -|s| <= i < 0 then Some(s[|s| + i])
    else None
  }

  function Sum(xs: seq<real>): real
  {
    if |xs| == 0 then 0.0 else Sum(xs[..|xs| - 1]) + xs[|xs| - 1]
  }

  /** A sequence of `n` copies of `x` (Python's `[x] * n`). */
  function Repeat<T>(x: T, n: nat): (r: seq<T>)
    ensures |r| == n
    ensures forall i :: 0 <= i < n ==> r[i] == x
  {
    if n == 0 then [] else Repeat(x, n - 1) + [x]
  }

  lemma {:induction false} SumRepeat(x: real, n: nat)
    ensures Sum(Repeat(x, n)) == n as real * x
  {
    if n > 0 {
      var r := Repeat(x, n);
      assert r[..n - 1] == Repeat(x, n - 1);
      SumRepeat(x, n - 1);
    }
  }

  /** `s` back to front (Python's `s[::-1]`). */
  function Reverse<T>(s: seq<T>): (r: seq<T>)
    ensures |r| == |s|
    ensures forall i :: 0 <= i < |s| ==> r[i] == s[|s| - 1 - i]
  {
    if |s| == 0 then [] else [s[|s| - 1]] + Reverse(s[..|s| - 1])
  }

  /** Number of elements of `s` equal to `true`. */
  function CountTrue(s: seq<bool>): (r: nat)
    ensures r <= |s|
  {
    if |s| == 0 then 0 else CountTrue(s[..|s| - 1]) + (if s[|s| - 1] then 1 else 0)
  }
}
