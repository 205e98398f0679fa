/** Timestamp conversion between clock rates in 64-bit arithmetic. */
module Rescale {
  import opened Basics
  import opened Bytes

  /** Go's integer quotient: truncated toward zero. */
  function Quo(a: int, b: int): int
    requires b > 0
  {
    if a >= 0 then a / b else -(-a / b)
  }

  /** Go's remainder: it has the sign of the dividend. */
  function Rem(a: int, b: int): int
    requires b > 0
  {
    a - Quo(a, b) * b
  }

  function Rescale(v: int, from: int, to: int): int
    requires from >= 0
  {
    if from == to || from == 0 then v
    else Quo(v, from) * to + Quo(Rem(v, from) * to, from)
  }

  lemma DivUnique(a: int, b: int, q: int)
    requires b > 0 && q * b <= a < q * b + b
    ensures a / b == q
  {
    var d := a / b;
    assert a == d * b + a % b;
    assert (d - q) * b == d * b - q * b;
    if d > q {
      MulAtLeast(d - q, b);
    } else if d < q {
      assert (q - d) * b == q * b - d * b;
      MulAtLeast(q - d, b);
    }
  }

  lemma MulNonneg(a: int, b: int)
    requires a >= 0 && b >= 0
    ensures a * b >= 0
  {
  }

  /** Splitting off whole multiples of `from` before multiplying changes nothing. */
  lemma {:induction false} RescaleNonneg(v: nat, from: int, to: int)
    requires from > 0 && to > 0
    ensures Quo(v, from) * to + Quo(Rem(v, from) * to, from) == v * to / from
    ensures 0 <= Rem(v, from) < from
  {
    var q, r := v / from, v % from;
    assert v == q * from + r && Rem(v, from) == r;
    MulNonneg(r, to);
    var e := r * to / from;
    assert v * to == (q * to) * from + r * to by {
      assert v * to == (q * from) * to + r * to;
      assert (q * from) * to == (q * to) * from;
    }
    assert e * from <= r * to < e * from + from;
    assert (q * to + e) * from == (q * to) * from + e * from;
    DivUnique(v * to, from, q * to + e);
  }

  lemma {:induction false} RescaleOdd(v: int, from: int, to: int)
    requires from > 0
    ensures Rescale(-v, from, to) == -Rescale(v, from, to)
    ensures Quo(-v, from) == -Quo(v, from) && Rem(-v, from) == -Rem(v, from)
    ensures Rem(-v, from) * to == -(Rem(v, from) * to)
  {
    assert Quo(-v, from) == -Quo(v, from);
    assert -Quo(v, from) * from == -(Quo(v, from) * from);
    assert -Quo(v, from) * to == -(Quo(v, from) * to);
    assert -Rem(v, from) * to == -(Rem(v, from) * to);
  }

  /** The conversion is the exact quotient v*to/from truncated toward zero, for either sign. */
  lemma RescaleExact(v: int, from: int, to: int)
    requires from > 0 && to > 0
    ensures Rescale(v, from, to) == Quo(v * to, from)
  {
    if from == to {
      if v >= 0 {
        MulNonneg(v, to);
        DivUnique(v * to, from, v);
      } else {
        assert v * to == -(-v * to);
        MulNonneg(-v, to);
        DivUnique(-v * to, from, -v);
        assert -(v * to) == -v * to;
        if v * to == 0 {
          DivUnique(0, from, -v);
        }
      }
    } else if v >= 0 {
      MulNonneg(v, to);
      RescaleNonneg(v, from, to);
    } else {
      MulNonneg(-v, to);
      RescaleNonneg(-v, from, to);
      RescaleOdd(-v, from, to);
      assert v * to == -(-v * to);
    }
  }

  lemma QuoMonotone(a: int, b: int, d: int)
    requires a <= b && d > 0
    ensures Quo(a, d) <= Quo(b, d)
  {
    if a >= 0 {
      DivMonotone(a, b, d);
    } else if b < 0 {
      DivMonotone(-b, -a, d);
    } else {
      DivMonotone(0, -a, d);
      DivMonotone(0, b, d);
    }
  }

  lemma DivMonotone(a: nat, b: nat, d: int)
    requires a <= b && d > 0
    ensures 0 <= a / d <= b / d
  {
    var p, q := a / d, b / d;
    assert a == p * d + a % d && b == q * d + b % d;
    if q < p {
      assert (p - q) * d == p * d - q * d;
      MulAtLeast(p - q, d);
    }
  }

  /** Order is kept, so rescaled decode times never run backwards. */
  lemma RescaleMonotone(v: int, w: int, from: int, to: int)
    requires v <= w && from > 0 && to > 0
    ensures Rescale(v, from, to) <= Rescale(w, from, to)
  {
    RescaleExact(v, from, to);
    RescaleExact(w, from, to);
    assert v * to <= w * to by { MulNonneg(w - v, to); assert (w - v) * to == w * to - v * to; }
    QuoMonotone(v * to, w * to, from);
  }

  lemma QuoWithin(p: int, d: int)
    requires d > 0
    ensures p >= 0 ==> 0 <= p - Quo(p, d) * d < d
    ensures p <= 0 ==> 0 <= Quo(p, d) * d - p < d
  {
    if p >= 0 {
      assert p == (p / d) * d + p % d;
    } else {
      assert -p == (-p / d) * d + -p % d;
      assert -(-p / d) * d == -((-p / d) * d);
    }
  }

  /** The result is within one target tick of the exact value, on the side of zero. */
  lemma RescaleWithinOneTick(v: int, from: int, to: int)
    requires from > 0 && to > 0
    ensures v >= 0 ==> 0 <= v * to - Rescale(v, from, to) * from < from
    ensures v <= 0 ==> 0 <= Rescale(v, from, to) * from - v * to < from
  {
    var p := v * to;
    RescaleExact(v, from, to);
    QuoWithin(p, from);
    if v >= 0 {
      MulNonneg(v, to);
    } else {
      MulNonneg(-v, to);
      assert -v * to == -p;
    }
  }

  lemma ProductBelow(r: nat, from: nat, to: nat)
    requires r < from
    ensures 0 <= r * to <= from * to
  {
    MulNonneg(r, to);
    MulNonneg(from - r, to);
    assert (from - r) * to == from * to - r * to;
  }

  /** For a magnitude, the parts are bounded by the product of the rates and by the result. */
  lemma PartsBounded(a: int, from: int, to: int)
    requires a >= 0 && from > 0 && to > 0
    ensures 0 <= Quo(a, from) <= a
    ensures 0 <= Quo(a, from) * to <= Quo(a * to, from)
    ensures 0 <= Rem(a, from) * to <= from * to
    ensures 0 <= Quo(Rem(a, from) * to, from) <= Rem(a, from) * to
  {
    RescaleNonneg(a, from, to);
    var q, r := a / from, Rem(a, from);
    ProductBelow(r, from, to);
    QuotientNoLarger(a, from);
    MulNonneg(q, to);
    MulNonneg(a, to);
    QuotientNoLarger(r * to, from);
  }

  lemma QuoOdd(x: int, d: int)
    requires d > 0
    ensures Quo(-x, d) == -Quo(x, d)
  {
  }

  lemma NegatedParts(a: int, from: int, to: int)
    requires a >= 0 && from > 0 && to > 0
    ensures Quo(-a, from) == -Quo(a, from) && Quo(-a, from) * to == -(Quo(a, from) * to)
    ensures Rem(-a, from) * to == -(Rem(a, from) * to)
    ensures Quo(-a * to, from) == -Quo(a * to, from)
    ensures Quo(Rem(-a, from) * to, from) == -Quo(Rem(a, from) * to, from)
  {
    RescaleOdd(a, from, to);
    assert -Quo(a, from) * to == -(Quo(a, from) * to);
    assert -a * to == -(a * to);
    QuoOdd(a * to, from);
    QuoOdd(Rem(a, from) * to, from);
  }

  lemma NoOverflowBelowZero(a: int, from: int, to: int)
    requires a >= 0 && from > 0 && to > 0 && FitsInt64(from * to) && FitsInt64(-a)
    requires FitsInt64(Quo(-a * to, from))
    ensures FitsInt64(Quo(-a, from)) && FitsInt64(Quo(-a, from) * to)
    ensures FitsInt64(Rem(-a, from) * to) && FitsInt64(Quo(Rem(-a, from) * to, from))
  {
    PartsBounded(a, from, to);
    NegatedParts(a, from, to);
  }

  /** Every 64-bit intermediate is exact whenever from*to and the result fit an int64. */
  lemma RescaleNoOverflow(v: int, from: int, to: int)
    requires from > 0 && to > 0 && FitsInt64(from * to) && FitsInt64(v)
    requires FitsInt64(Quo(v * to, from))
    ensures FitsInt64(Quo(v, from)) && FitsInt64(Quo(v, from) * to)
    ensures FitsInt64(Rem(v, from) * to) && FitsInt64(Quo(Rem(v, from) * to, from))
    ensures FitsInt64(Rescale(v, from, to))
  {
    RescaleExact(v, from, to);
    if v >= 0 {
      PartsBounded(v, from, to);
    } else {
      NoOverflowBelowZero(-v, from, to);
    }
  }

  lemma QuotientNoLarger(a: nat, d: int)
    requires d > 0
    ensures 0 <= a / d <= a
  {
    var q := a / d;
    assert a == q * d + a % d;
    assert q * d == q + q * (d - 1);
    MulNonneg(q, d - 1);
  }
}
