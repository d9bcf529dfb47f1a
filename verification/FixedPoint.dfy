/**
 Fixed-point money and quantity arithmetic of internal/domain/money.go: the product of two
 scaled values divided by a third, rounded half away from zero on unbounded intermediates.
 */
module FixedPoint {
  import opened Wrappers
  import opened Int64

  const MONEY_SCALE: int64 := 10000
  const QUANTITY_SCALE: int64 := 1000

  /** x / d to the nearest integer, a half going away from zero. */
  function RoundHalfAway(x: int, d: int): int
    requires d != 0
  {
    var k := FloorDiv(2 * Abs(x) + Abs(d), 2 * Abs(d));
    if (x >= 0) == (d > 0) then k else 0 - k
  }

  /** round(a * b / d), or None when d is zero or the result leaves int64. */
  function ScaledQuotient(a: int64, b: int64, d: int64): Option<int64> {
    if d == 0 then None else Checked(RoundHalfAway(a * b, d))
  }

  /**
   What rounding means, without saying how: q * d is a multiple of d within half a d of x, and
   when x lies exactly between two multiples, q * d is the one farther from zero.
   */
  ghost predicate NearestHalfAway(x: int, d: int, q: int) {
    && 2 * Abs(q * d - x) <= Abs(d)
    && (2 * Abs(q * d - x) == Abs(d) ==> Abs(q * d) > Abs(x))
  }

  /** The non-negative half of the correspondence, in which every sign is gone. */
  lemma NearestPositive(n: nat, m: int, q: int)
    requires m > 0
    ensures NearestHalfAway(n, m, q) <==> q == FloorDiv(2 * n + m, 2 * m)
  {
    hide FloorDiv;
    if q < 0 { MultiplesApart(q, 0, m); }
    assert q * (2 * m) == 2 * (q * m);
    if NearestHalfAway(n, m, q) {
      DivUnique(2 * n + m, 2 * m, q);
    }
  }

  lemma NearestMirrored(x: int, d: int, q: int)
    ensures NearestHalfAway(x, d, q) == NearestHalfAway(-x, d, -q)
    ensures NearestHalfAway(x, d, q) == NearestHalfAway(x, -d, -q)
  {
    assert -q * d == -(q * d) && -q * -d == q * d;
  }

  /** RoundHalfAway is the one and only rounding half away from zero. */
  lemma RoundIsNearest(x: int, d: int, q: int)
    requires d != 0
    ensures NearestHalfAway(x, d, q) <==> q == RoundHalfAway(x, d)
  {
    hide FloorDiv, NearestHalfAway;
    var q' := if x >= 0 then q else 0 - q;
    NearestMirrored(x, d, q);
    NearestMirrored(Abs(x), d, q');
    NearestPositive(Abs(x), Abs(d), if d > 0 then q' else -q');
  }

  /**
   The computation itself: truncate, then step away from zero when twice the remainder reaches
   the divisor. It fails exactly when the divisor is zero or the rounding leaves int64.
   */
  method MulDivRound(a: int64, b: int64, d: int64) returns (r: Option<int64>)
    ensures d == 0 ==> r == None
    ensures d != 0 ==> r.Some? == Fits(RoundHalfAway(a * b, d))
    ensures d != 0 && r.Some? ==> NearestHalfAway(a * b, d, r.value)
    ensures r == ScaledQuotient(a, b, d)
  {
    if d == 0 {
      return None;
    }
    hide FloorDiv, Rem, Quo, RoundHalfAway;
    var x := a * b;
    var q, rem := Quo(x, d), Rem(x, d);
    if 2 * Abs(rem) >= Abs(d) {
      if (x < 0 && d > 0) || (x > 0 && d < 0) {
        q := q - 1;
      } else {
        q := q + 1;
      }
    }
    TruncationCorrected(x, d, q);
    if Fits(q) {
      r := Some(q);
    } else {
      r := None;
    }
    RoundIsNearest(x, d, q);
  }

  lemma TruncatedParts(x: int, d: int)
    requires d != 0
    ensures Abs(Quo(x, d)) == FloorDiv(Abs(x), Abs(d))
    ensures Abs(x) == Abs(Quo(x, d)) * Abs(d) + Abs(Rem(x, d))
    ensures Abs(Rem(x, d)) < Abs(d)
  {
    hide FloorDiv;
    QuoRemainder(x, d);
    AbsMul(Quo(x, d), d);
    assert d * Quo(x, d) == Quo(x, d) * d;
  }

  lemma RoundFromParts(n: int, m: int, k: int, r: int)
    requires m > 0 && n == k * m + r && 0 <= r < m
    ensures FloorDiv(2 * n + m, 2 * m) == if 2 * r < m then k else k + 1
  {
    hide FloorDiv;
    assert k * (2 * m) == 2 * (k * m);
    assert (k + 1) * (2 * m) == k * (2 * m) + 2 * m;
    DivUnique(2 * n + m, 2 * m, if 2 * r < m then k else k + 1);
  }

  lemma TruncationCorrected(x: int, d: int, q: int)
    requires d != 0
    requires q == if 2 * Abs(Rem(x, d)) < Abs(d) then Quo(x, d)
                  else if (x < 0 && d > 0) || (x > 0 && d < 0) then Quo(x, d) - 1
                  else Quo(x, d) + 1
    ensures q == RoundHalfAway(x, d)
  {
    hide FloorDiv, Rem;
    TruncatedParts(x, d);
    var n, m := Abs(x), Abs(d);
    var k, r := FloorDiv(n, m), Abs(Rem(x, d));
    RoundFromParts(n, m, k, r);
  }

  /** What q shares cost when one share costs m. */
  function MulQuantity(m: int64, q: int64): Option<int64> {
    ScaledQuotient(m, q, QUANTITY_SCALE)
  }

  /** What one share cost when q shares cost m. */
  function DivByQuantity(m: int64, q: int64): Option<int64> {
    if q == 0 then None else ScaledQuotient(m, QUANTITY_SCALE, q)
  }

  lemma RoundNonNegative(x: int, d: int)
    requires x >= 0 && d > 0
    ensures RoundHalfAway(x, d) >= 0
  {
    hide FloorDiv;
  }

  lemma MulQuantityError(m: int64, q: int64)
    requires MulQuantity(m, q).Some?
    ensures var n := MulQuantity(m, q).value;
      && 2 * Abs(1000 * n - m * q) <= 1000
      && (m >= 0 && q >= 0 ==> n >= 0)
  {
    hide FloorDiv, RoundHalfAway;
    RoundIsNearest(m * q, 1000, MulQuantity(m, q).value);
    if m >= 0 && q >= 0 { AbsMul(m, q); }
  }

  lemma DivByQuantityError(m: int64, q: int64)
    requires q > 0 && DivByQuantity(m, q).Some?
    ensures var p := DivByQuantity(m, q).value;
      && 2 * Abs(p * q - 1000 * m) <= q
      && (m >= 0 ==> p >= 0)
  {
    hide FloorDiv, RoundHalfAway;
    var p := DivByQuantity(m, q).value;
    RoundIsNearest(m * 1000, q, p);
    if p < 0 { MultiplesApart(p, 0, q); }
  }

  /** Dividing the notional back by at least one whole share recovers the price exactly. */
  lemma PriceRoundTrip(m: int64, q: int64)
    requires q >= 1000 && MulQuantity(m, q).Some?
    ensures DivByQuantity(MulQuantity(m, q).value, q) == Some(m)
  {
    hide FloorDiv, RoundHalfAway;
    var n: int := MulQuantity(m, q).value;
    MulQuantityError(m, q);
    if q == 1000 {
      RoundIsNearest(m * q, 1000, m);
      assert NearestHalfAway(m * q, 1000, m);
      assert n == m;
    }
    assert NearestHalfAway(n * 1000, q, m);
    RoundIsNearest(n * 1000, q, m);
  }

  predicate RecoversPrice(m: int64, q: int64) {
    MulQuantity(m, q).Some? ==> DivByQuantity(MulQuantity(m, q).value, q) == Some(m)
  }

  lemma RoundMonotone(x: int, y: int, d: int)
    requires x <= y && d > 0
    ensures RoundHalfAway(x, d) <= RoundHalfAway(y, d)
  {
    hide FloorDiv, RoundHalfAway;
    var p, q := RoundHalfAway(x, d), RoundHalfAway(y, d);
    RoundIsNearest(x, d, p);
    RoundIsNearest(y, d, q);
    if q < p {
      MultiplesApart(q, p, d);
    }
  }

  /** A whole number of thousands rounds to itself. */
  lemma RoundExact(k: int)
    ensures RoundHalfAway(k * 1000, 1000) == k
  {
    hide FloorDiv, RoundHalfAway;
    RoundIsNearest(k * 1000, 1000, k);
  }

  lemma SmallNotional(m: int64, q: int64)
    requires 0 <= m <= 1000 && 1 <= q < 1000
    ensures MulQuantity(m, q) == Some(RoundHalfAway(m * q, 1000))
  {
    hide FloorDiv, RoundHalfAway;
    RoundExact(0);
    RoundExact(1000);
    assert 0 <= m * q <= 1000 * 1000 by { assert m * q <= 1000 * q; }
    RoundMonotone(0, m * q, 1000);
    RoundMonotone(m * q, 1000 * 1000, 1000);
  }

  /** Two prices that both survive the round trip have different notionals. */
  lemma NotionalsDiffer(m: int64, q: int64)
    requires 0 < m <= 1000 && 1 <= q < 1000
    requires RecoversPrice(m - 1, q) && RecoversPrice(m, q)
    ensures RoundHalfAway((m - 1) * q, 1000) < RoundHalfAway(m * q, 1000)
  {
    hide FloorDiv, RoundHalfAway;
    SmallNotional(m - 1, q);
    SmallNotional(m, q);
    assert (m - 1) * q <= m * q by { assert m * q == (m - 1) * q + q; }
    RoundMonotone((m - 1) * q, m * q, 1000);
    assert MulQuantity(m - 1, q) != MulQuantity(m, q);
  }

  /** If every price up to m survived the round trip, notionals would climb at least as fast as prices. */
  lemma {:induction false} NotionalsClimb(m: nat, q: int64)
    requires 1 <= q < 1000 && m <= 1000
    requires forall k :: 0 <= k <= 1000 ==> RecoversPrice(k, q)
    ensures RoundHalfAway(m * q, 1000) >= m
  {
    hide FloorDiv, RoundHalfAway, RecoversPrice;
    if m == 0 {
      RoundExact(0);
    } else {
      NotionalsClimb(m - 1, q);
      NotionalsDiffer(m, q);
    }
  }

  /** At no more than a thousand minor units a share, q units cost at most q. */
  lemma NotionalAtMost(m: int64, q: int64)
    requires 0 <= m <= 1000 && 1 <= q < 1000
    ensures MulQuantity(m, q).Some? && 0 <= MulQuantity(m, q).value <= q
    ensures m == 0 ==> MulQuantity(m, q) == Some(0)
  {
    hide FloorDiv, RoundHalfAway, MulQuantity;
    SmallNotional(m, q);
    RoundExact(q);
    RoundExact(0);
    assert 0 <= m * q <= q * 1000 by { assert (1000 - m) * q >= 0; }
    RoundMonotone(m * q, q * 1000, 1000);
    RoundMonotone(0, m * q, 1000);
  }

  lemma PriceBackAtMost(n: int64, q: int64)
    requires 0 <= n <= q && 1 <= q < 1000
    ensures DivByQuantity(n, q).Some? && (n == 0 ==> DivByQuantity(n, q) == Some(0))
  {
    hide FloorDiv, RoundHalfAway;
    RoundIsNearest(0, q, 0);
    RoundIsNearest(q * 1000, q, 1000);
    RoundMonotone(0, n * 1000, q);
    RoundMonotone(n * 1000, q * 1000, q);
  }

  /** Below one whole share, some price in the first thousand minor units comes back as another price. */
  lemma PriceLost(q: int64) returns (m: int64)
    requires 1 <= q < 1000
    ensures 1 <= m <= 1000 && MulQuantity(m, q).Some? && MulQuantity(m, q).value >= 0
    ensures var back := DivByQuantity(MulQuantity(m, q).value, q); back.Some? && back.value != m
  {
    hide FloorDiv, RoundHalfAway, MulQuantity, DivByQuantity;
    if forall k :: 0 <= k <= 1000 ==> RecoversPrice(k, q) {
      NotionalsClimb(1000, q);
      RoundExact(q);
      assert false;
    }
    m :| 0 <= m <= 1000 && !RecoversPrice(m, q);
    NotionalAtMost(m, q);
    PriceBackAtMost(MulQuantity(m, q).value, q);
  }

  /**
   One whole share is exactly what the inverse needs: below it, some price in the first thousand
   minor units comes back different.
   */
  lemma PriceRoundTripExact(q: int64)
    requires q > 0
    ensures (forall m: int64 :: RecoversPrice(m, q)) <==> q >= 1000
  {
    hide FloorDiv, RoundHalfAway;
    if q >= 1000 {
      forall m: int64 ensures RecoversPrice(m, q) {
        if MulQuantity(m, q).Some? { PriceRoundTrip(m, q); }
      }
    } else {
      var m := PriceLost(q);
      assert !RecoversPrice(m, q);
    }
  }
}
