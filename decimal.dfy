/** The store's arbitrary-precision decimals and their narrowing to `u128`:
    `d.with_scale(0).into_bigint_and_exponent().0.to_u128()`. */
module Decimal {
  import opened RustCore

  /** A `BigDecimal`: the number `unscaled * 10^(-scale)`; the scale may be negative. */
  datatype BigDecimal = BigDecimal(unscaled: int, scale: int)

  function Pow10(k: nat): (p: nat)
    ensures p >= 1
  {
    if k == 0 then 1 else 10 * Pow10(k - 1)
  }

  /** `q` is `u / p` rounded toward zero: the integer part of the quotient. */
  ghost predicate TruncatesTo(u: int, p: int, q: int)
  {
    (u >= 0 ==> 0 <= q && q * p <= u < (q + 1) * p) &&
    (u < 0 ==> q <= 0 && (q - 1) * p < u <= q * p)
  }

  /** Division of `BigInt`s, which truncates toward zero (Dafny's own `/` is Euclidean). */
  function TruncDiv(a: int, b: int): (q: int)
    requires b > 0
    ensures TruncatesTo(a, b, q)
  {
    var n := if a >= 0 then a else -a;
    assert n == (n / b) * b + n % b && 0 <= n % b < b;
    assert (n / b + 1) * b == (n / b) * b + b;
    assert (-(n / b) - 1) * b == -((n / b) * b) - b;
    assert -(n / b) * b == -((n / b) * b);
    if a >= 0 then n / b else -(n / b)
  }

  /** `x <= y` scales by a non-negative factor. */
  lemma MulMono(x: int, y: int, c: int)
    requires x <= y && c >= 0
    ensures x * c <= y * c
  {
    assert y * c - x * c == (y - x) * c;
  }

  /** The integer part is unique: `TruncatesTo` defines truncating division on its own. */
  lemma TruncatesToUnique(u: int, p: int, q1: int, q2: int)
    requires p > 0 && TruncatesTo(u, p, q1) && TruncatesTo(u, p, q2)
    ensures q1 == q2
  {
    if q1 < q2 {
      if u >= 0 { MulMono(q1 + 1, q2, p); } else { MulMono(q1, q2 - 1, p); }
    } else if q2 < q1 {
      if u >= 0 { MulMono(q2 + 1, q1, p); } else { MulMono(q2, q1 - 1, p); }
    }
  }

  /** The integer `d.with_scale(0).into_bigint_and_exponent().0`: a positive scale divides
      the unscaled value by `10^scale`, truncating; a negative scale multiplies it by `10^-scale`. */
  function WithScaleZero(d: BigDecimal): (v: int)
    ensures d.scale > 0 ==> TruncatesTo(d.unscaled, Pow10(d.scale), v)
    ensures d.scale <= 0 ==> v == d.unscaled * Pow10(-d.scale)
  {
    if d.scale > 0 then TruncDiv(d.unscaled, Pow10(d.scale))
    else d.unscaled * Pow10(-d.scale)
  }

  /** `BigInt::to_u128`: the value itself when it lies in `0 .. 2^128`, `None` otherwise. */
  function ToU128(v: int): (r: Option<U128>)
    ensures r.Some? <==> 0 <= v < U128_BOUND
    ensures r.Some? ==> r.value == v
  {
    if 0 <= v < U128_BOUND then Some(v) else None
  }

  /** Narrowing a decimal identifier to `u128`, as each row's three identifiers are narrowed. */
  function Narrow(d: BigDecimal): Option<U128>
  {
    ToU128(WithScaleZero(d))
  }

  /** The decimal a `u128` is stored as: its value with scale 0. */
  function Encode(x: U128): BigDecimal
  {
    BigDecimal(x, 0)
  }

  lemma Pow10Add(i: nat, j: nat)
    ensures Pow10(i + j) == Pow10(i) * Pow10(j)
  {
    if i > 0 {
      Pow10Add(i - 1, j);
    }
  }

  /** Scaling dividend and divisor by the same positive factor keeps the integer part. */
  lemma TruncatesToScaled(a: int, b: int, c: int, q: int)
    requires b > 0 && c > 0 && TruncatesTo(a, b, q)
    ensures TruncatesTo(a * c, b * c, q)
  {
    var bc := b * c;
    if a >= 0 {
      assert q * bc <= a * c by {
        MulMono(q * b, a, c);
        assert q * bc == (q * b) * c;
      }
      assert a * c < (q + 1) * bc by {
        MulMono(a + 1, (q + 1) * b, c);
        assert (q + 1) * bc == ((q + 1) * b) * c;
        assert (a + 1) * c == a * c + c;
      }
    } else {
      assert (q - 1) * bc < a * c by {
        MulMono((q - 1) * b + 1, a, c);
        assert (q - 1) * bc == ((q - 1) * b) * c;
        assert ((q - 1) * b + 1) * c == ((q - 1) * b) * c + c;
      }
      assert a * c <= q * bc by {
        MulMono(a, q * b, c);
        assert q * bc == (q * b) * c;
      }
    }
  }

  /** Scaling numerator and denominator by the same factor leaves the truncated quotient alone. */
  lemma TruncDivCancel(a: int, b: int, c: int)
    requires b > 0 && c > 0
    ensures TruncDiv(a * c, b * c) == TruncDiv(a, b)
  {
    TruncatesToScaled(a, b, c, TruncDiv(a, b));
    TruncatesToUnique(a * c, b * c, TruncDiv(a, b), TruncDiv(a * c, b * c));
  }

  /** Dividing an exact multiple gives the factor back. */
  lemma TruncDivExact(x: int, p: int)
    requires p > 0
    ensures TruncDiv(x * p, p) == x
  {
    if x >= 0 {
      assert x * p <= x * p < (x + 1) * p;
    } else {
      assert (x - 1) * p < x * p <= x * p;
    }
    assert TruncatesTo(x * p, p, x);
    TruncatesToUnique(x * p, p, x, TruncDiv(x * p, p));
  }

  /** Round trip: a `u128` stored with any non-negative scale `k` narrows back to itself. */
  lemma {:induction false} NarrowScaled(x: U128, k: nat)
    ensures Narrow(BigDecimal(x * Pow10(k), k)) == Some(x)
  {
    if k > 0 {
      TruncDivExact(x, Pow10(k));
    }
  }

  /** Round trip: `Narrow(Encode(x)) == Some(x)` for every `u128`. */
  lemma NarrowEncode(x: U128)
    ensures Narrow(Encode(x)) == Some(x)
  {
    NarrowScaled(x, 0);
  }

  /** Truncation is toward zero: `-0.5` narrows to `0`, while `-1.0` and `2^128` are refused. */
  lemma NarrowEdgeCases()
    ensures Narrow(BigDecimal(-5, 1)) == Some(0)
    ensures Narrow(BigDecimal(-10, 1)) == None
    ensures Narrow(BigDecimal(U128_BOUND, 0)) == None
    ensures Narrow(BigDecimal(U128_BOUND * 10 - 1, 1)) == Some(U128_BOUND - 1)
  {
    assert TruncatesTo(-5, 10, 0);
    TruncatesToUnique(-5, 10, 0, WithScaleZero(BigDecimal(-5, 1)));
    assert TruncatesTo(-10, 10, -1);
    TruncatesToUnique(-10, 10, -1, WithScaleZero(BigDecimal(-10, 1)));
    assert TruncatesTo(U128_BOUND * 10 - 1, 10, U128_BOUND - 1);
    TruncatesToUnique(U128_BOUND * 10 - 1, 10, U128_BOUND - 1, WithScaleZero(BigDecimal(U128_BOUND * 10 - 1, 1)));
  }

  /** The unscaled value of `d` brought to the larger scale `s`. */
  function Rescaled(d: BigDecimal, s: int): int
    requires s >= d.scale
  {
    d.unscaled * Pow10(s - d.scale)
  }

  /** The common scale at which two decimals (and their integer parts) are compared. */
  function CommonScale(a: BigDecimal, b: BigDecimal): nat
  {
    if a.scale >= b.scale && a.scale >= 0 then a.scale
    else if b.scale >= 0 then b.scale
    else 0
  }

  /** `a <= b` as numbers, whatever their scales. */
  predicate DecimalLe(a: BigDecimal, b: BigDecimal)
  {
    var s := CommonScale(a, b);
    Rescaled(a, s) <= Rescaled(b, s)
  }

  /** The integer part of `d` read at any scale `s >= max(d.scale, 0)`. */
  lemma WithScaleZeroAt(d: BigDecimal, s: nat)
    requires s >= d.scale
    ensures WithScaleZero(d) == TruncDiv(Rescaled(d, s), Pow10(s))
  {
    if d.scale > 0 {
      FractionalAt(d, s);
    } else {
      IntegralAt(d, s);
    }
  }

  lemma FractionalAt(d: BigDecimal, s: nat)
    requires 0 < d.scale <= s
    ensures WithScaleZero(d) == TruncDiv(Rescaled(d, s), Pow10(s))
  {
    var k: nat := s - d.scale;
    var p0, pk := Pow10(d.scale), Pow10(k);
    assert Pow10(s) == p0 * pk by { Pow10Add(d.scale, k); }
    TruncDivCancel(d.unscaled, p0, pk);
  }

  lemma IntegralAt(d: BigDecimal, s: nat)
    requires d.scale <= 0
    ensures WithScaleZero(d) == TruncDiv(Rescaled(d, s), Pow10(s))
  {
    var k: nat := -d.scale;
    var u, p, pk := d.unscaled, Pow10(s), Pow10(k);
    var m := u * pk;
    assert WithScaleZero(d) == m;
    assert Rescaled(d, s) == m * p by {
      Pow10Add(s, k);
      MulAssoc(u, pk, p);
    }
    TruncDivExact(m, p);
  }

  lemma MulAssoc(x: int, y: int, z: int)
    ensures x * (z * y) == (x * y) * z
  {
  }

  /** Truncating division by a fixed divisor is monotone in the dividend. */
  lemma TruncDivMono(a1: int, a2: int, p: int)
    requires p > 0 && a1 <= a2
    ensures TruncDiv(a1, p) <= TruncDiv(a2, p)
  {
    var q1, q2 := TruncDiv(a1, p), TruncDiv(a2, p);
    if q1 > q2 {
      if a1 >= 0 {
        MulMono(q2 + 1, q1, p);
      } else if a2 < 0 {
        MulMono(q2, q1 - 1, p);
      }
    }
  }

  /** Narrowing respects numeric order: the integer part is monotone. */
  lemma WithScaleZeroMono(a: BigDecimal, b: BigDecimal)
    requires DecimalLe(a, b)
    ensures WithScaleZero(a) <= WithScaleZero(b)
  {
    var s := CommonScale(a, b);
    WithScaleZeroAt(a, s);
    WithScaleZeroAt(b, s);
    TruncDivMono(Rescaled(a, s), Rescaled(b, s), Pow10(s));
  }

  /** Two decimals that both narrow keep their numeric order as `u128`s. */
  lemma NarrowMono(a: BigDecimal, b: BigDecimal)
    requires DecimalLe(a, b) && Narrow(a).Some? && Narrow(b).Some?
    ensures Narrow(a).value <= Narrow(b).value
  {
    WithScaleZeroMono(a, b);
  }
}
