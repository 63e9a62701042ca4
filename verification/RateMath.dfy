/** Exact rate arithmetic of the resampler: the Euclidean loop behind the
    reduced ratio, and the overflow-checked 32-bit scaling `value*num/den`. */
module RateMath {
  import opened Options

  const UINT32_MAX: nat := 0xFFFF_FFFF
  const TWO32: nat := 0x1_0000_0000

  /** The value an unsigned 32-bit C expression keeps. */
  function Wrap32(x: int): (r: nat)
    ensures r <= UINT32_MAX
    ensures 0 <= x <= UINT32_MAX ==> r == x
    ensures 0 <= x ==> r <= x
  {
    x % TWO32
  }

  /** The same bits read as a signed 32-bit integer. */
  function Signed32(x: nat): int
    requires x <= UINT32_MAX
  {
    if x < 0x8000_0000 then x else x - TWO32
  }

  /** How many outputs a loop that compares with a signed length makes room for. */
  function Room(outLen: nat): (r: nat)
    ensures r <= outLen
  {
    if outLen < 0x8000_0000 then outLen else 0
  }

  // ---------------------------------------------------------------- division

  lemma MulMono(a: nat, x: int, y: int)
    requires x <= y
    ensures a * x <= a * y
  {
  }

  /** A multiple of `d` that lies strictly between -d and d is zero. */
  lemma SmallMultiple(d: int, k: int)
    requires 0 < d && -d < d * k < d
    ensures k == 0
  {
    if k >= 1 {
      MulMono(d, 1, k);
    } else if k <= -1 {
      MulMono(d, k, -1);
    }
  }

  /** Quotient and remainder are the only pair that decomposes `a`. */
  lemma DivModUnique(a: int, d: int, q: int, r: int)
    requires 0 < d && 0 <= r < d && a == d * q + r
    ensures a / d == q && a % d == r
  {
    var q', r' := a / d, a % d;
    assert a == d * q' + r';
    assert d * (q - q') == d * q - d * q';
    SmallMultiple(d, q - q');
  }

  /** Shifting a position by whole denominators shifts the quotient only. */
  lemma DivModShift(a: int, d: int, t: int)
    requires 0 < d
    ensures (a - d * t) / d == a / d - t
    ensures (a - d * t) % d == a % d
  {
    var q, r := a / d, a % d;
    assert a - d * t == d * (q - t) + r by {
      assert d * (q - t) == d * q - d * t;
    }
    DivModUnique(a - d * t, d, q - t, r);
  }

  /** The whole part of a ratio. */
  function Quotient(num: nat, den: nat): nat
    requires 0 < den
  {
    num / den
  }

  /** x <= m/n is the same as x*n <= m: the form of the C overflow tests. */
  lemma QuotientBound(x: nat, m: nat, n: nat)
    requires 0 < n
    ensures x <= m / n <==> x * n <= m
  {
    var q := m / n;
    if x <= q {
      MulMono(n, x, q);
    } else {
      MulMono(n, q + 1, x);
      assert n * (q + 1) == n * q + n;
    }
  }

  // ---------------------------------------------------------------- gcd

  predicate Divides(d: nat, n: nat) {
    d != 0 && n % d == 0
  }

  /** A greatest common divisor: a common divisor that every other one divides. */
  ghost predicate IsGcd(g: nat, a: nat, b: nat) {
    && Divides(g, a) && Divides(g, b)
    && forall d: nat :: Divides(d, a) && Divides(d, b) ==> Divides(d, g)
  }

  ghost predicate Coprime(a: nat, b: nat) {
    forall d: nat :: Divides(d, a) && Divides(d, b) ==> d == 1
  }

  lemma DividesTimes(d: nat, n: nat)
    requires Divides(d, n)
    ensures n == d * (n / d)
  {
  }

  lemma TimesDivides(d: nat, k: nat)
    requires d != 0
    ensures Divides(d, d * k) && (d * k) / d == k
  {
    DivModUnique(d * k, d, k, 0);
  }

  lemma SignOfFactor(d: nat, k: int)
    requires d != 0 && d * k >= 0
    ensures k >= 0
  {
    if k <= -1 {
      MulMono(d, k, -1);
    }
  }

  /** One Euclid step keeps the set of common divisors. */
  lemma EuclidStep(d: nat, a: nat, b: nat)
    requires b != 0
    ensures Divides(d, a) && Divides(d, b) <==> Divides(d, b) && Divides(d, a % b)
  {
    if Divides(d, b) {
      DividesTimes(d, b);
      var q := a / b;
      assert a == b * q + a % b;
      assert b * q == d * ((b / d) * q) by {
        assert b * q == (d * (b / d)) * q;
      }
      if Divides(d, a) {
        DividesTimes(d, a);
        assert a % b == d * (a / d - (b / d) * q) by {
          assert d * (a / d - (b / d) * q) == d * (a / d) - d * ((b / d) * q);
        }
        SignOfFactor(d, a / d - (b / d) * q);
        TimesDivides(d, a / d - (b / d) * q);
      }
      if Divides(d, a % b) {
        DividesTimes(d, a % b);
        assert a == d * ((b / d) * q + (a % b) / d) by {
          assert d * ((b / d) * q + (a % b) / d) == d * ((b / d) * q) + d * ((a % b) / d);
        }
        TimesDivides(d, (b / d) * q + (a % b) / d);
      }
    }
  }

  /** `compute_gcd`: the loop returns a greatest common divisor, and 0 only for (0, 0). */
  method ComputeGcd(a0: nat, b0: nat) returns (g: nat)
    ensures a0 == 0 && b0 == 0 ==> g == 0
    ensures a0 != 0 || b0 != 0 ==> IsGcd(g, a0, b0)
  {
    var a, b := a0, b0;
    while b != 0
      invariant a0 != 0 || b0 != 0 ==> a != 0 || b != 0
      invariant a0 == 0 && b0 == 0 ==> a == 0 && b == 0
      invariant forall d: nat :: Divides(d, a) && Divides(d, b) <==> Divides(d, a0) && Divides(d, b0)
      decreases b
    {
      forall d: nat
        ensures Divides(d, b) && Divides(d, a % b) <==> Divides(d, a0) && Divides(d, b0)
      {
        EuclidStep(d, a, b);
        assert Divides(d, a) && Divides(d, b) <==> Divides(d, a0) && Divides(d, b0);
      }
      a, b := b, a % b;
    }
    g := a;
    if a0 != 0 || b0 != 0 {
      assert Divides(a, a) && Divides(a, b);
    }
  }

  /** Dividing by a common divisor keeps the ratio. */
  lemma ReducedRatio(g: nat, a: nat, b: nat)
    requires 0 < a && 0 < b && Divides(g, a) && Divides(g, b)
    ensures 0 < a / g <= a && 0 < b / g <= b
    ensures (a / g) * b == (b / g) * a
  {
    DividesTimes(g, a);
    DividesTimes(g, b);
    var x, y := a / g, b / g;
    assert x * (g * y) == y * (g * x);
    MulMono(x, 1, g);
    MulMono(y, 1, g);
  }

  /** Dividing by the gcd leaves a coprime pair. */
  lemma ReducedIsCoprime(g: nat, a: nat, b: nat)
    requires 0 < a && 0 < b && IsGcd(g, a, b)
    ensures Coprime(a / g, b / g)
  {
    forall d: nat | Divides(d, a / g) && Divides(d, b / g)
      ensures d == 1
    {
      CommonDivisorOfQuotients(g, a, d);
      CommonDivisorOfQuotients(g, b, d);
      OnlyUnitScales(g, d);
    }
  }

  /** A multiple g*d that divides g again forces d == 1. */
  lemma OnlyUnitScales(g: nat, d: nat)
    requires g != 0 && Divides(g * d, g)
    ensures d == 1
  {
    var k := g / (g * d);
    DividesTimes(g * d, g);
    assert g * (d * k - 1) == (g * d) * k - g;
    SmallMultiple(g, d * k - 1);
    if d >= 2 {
      MulMono(d, 1, k);
    }
  }

  lemma CommonDivisorOfQuotients(g: nat, a: nat, d: nat)
    requires Divides(g, a) && Divides(d, a / g)
    ensures Divides(g * d, a)
  {
    DividesTimes(g, a);
    DividesTimes(d, a / g);
    var k := (a / g) / d;
    assert a == (g * d) * k by {
      assert a == g * (d * k);
    }
    assert g * d != 0;
    TimesDivides(g * d, k);
  }

  // ---------------------------------------------------------------- multiply_frac

  /** The last test and the result of `multiply_frac`, in wrapped 32-bit arithmetic. */
  function CheckedSum(a: int, b: int, den: nat): Option<nat>
    requires 0 < den
  {
    if Wrap32(b) > UINT32_MAX - Wrap32(a) / den then None
    else Some(Wrap32(Wrap32(a) / den + Wrap32(b)))
  }

  /** `multiply_frac`: value*num/den from a whole and a fractional share. */
  function MultiplyFrac(value: nat, num: nat, den: nat): Option<nat>
    requires 0 < num && 0 < den
  {
    var major, remain := value / den, value % den;
    if remain > UINT32_MAX / num || major > UINT32_MAX / num then None
    else CheckedSum(remain * num, major * num, den)
  }

  lemma CheckedSumExact(a: nat, b: nat, den: nat)
    requires 0 < den && a <= UINT32_MAX && b <= UINT32_MAX
    ensures CheckedSum(a, b, den) == if a / den + b <= UINT32_MAX then Some(a / den + b) else None
  {
    QuotientBound(UINT32_MAX + 1, a, den);
  }

  lemma SplitProduct(value: nat, num: nat, den: nat)
    requires 0 < den
    ensures (value % den) * num / den + (value / den) * num == value * num / den
  {
    var major, remain := value / den, value % den;
    assert value * num == den * (major * num) + remain * num by {
      assert value * num == (den * major + remain) * num;
      assert (den * major + remain) * num == den * major * num + remain * num;
    }
    DivModShift(value * num, den, major * num);
  }

  /** Success is exact, and happens exactly when the remainder product and the
      true quotient both fit 32 bits. */
  lemma MultiplyFracExact(value: nat, num: nat, den: nat)
    requires 0 < num && 0 < den && value <= UINT32_MAX
    ensures MultiplyFrac(value, num, den).Some?
            <==> (value % den) * num <= UINT32_MAX && value * num / den <= UINT32_MAX
    ensures MultiplyFrac(value, num, den).Some?
            ==> MultiplyFrac(value, num, den).value == value * num / den
  {
    hide CheckedSum;
    var major, remain := value / den, value % den;
    SplitProduct(value, num, den);
    QuotientBound(remain, UINT32_MAX, num);
    QuotientBound(major, UINT32_MAX, num);
    if remain * num <= UINT32_MAX && major * num <= UINT32_MAX {
      CheckedSumExact(remain * num, major * num, den);
    }
  }

  /** A fraction below the old denominator stays below the new one when rescaled. */
  lemma RescaledBelow(frac: nat, newDen: nat, oldDen: nat)
    requires frac < oldDen && 0 < newDen
    ensures frac * newDen / oldDen < newDen
  {
    MulMono(newDen, frac, oldDen - 1);
    assert frac * newDen == newDen * frac && newDen * (oldDen - 1) == newDen * oldDen - newDen;
    QuotientBound(newDen, frac * newDen, oldDen);
  }

  /** Equal ratios scale alike. */
  lemma EqualRatiosScale(b: nat, g: nat, x: nat, y: nat)
    requires 0 < g && 0 < y
    ensures 0 < g * y && b * (g * x) / (g * y) == b * x / y
  {
    var q, r := b * x / y, b * x % y;
    assert b * x == y * q + r;
    MulMono(g, r + 1, y);
    assert b * (g * x) == g * (b * x);
    assert g * (y * q + r) == (g * y) * q + g * r;
    assert g * (r + 1) == g * r + g;
    DivModUnique(b * (g * x), g * y, q, g * r);
  }
}
