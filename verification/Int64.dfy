/** Success or absence, standing for Go's `(value, ok)` and `(value, error)` pairs. */
module Wrappers {
  datatype Option<+T> = None | Some(value: T)
}

/**
 Checked arithmetic on 64-bit signed integers as internal/domain/money.go performs it:
 the sum, difference and product wrap around, and overflow is then detected from signs or by
 dividing back.
 */
module Int64 {
  import opened Wrappers

  const MIN_INT64: int := -0x8000_0000_0000_0000
  const MAX_INT64: int := 0x7FFF_FFFF_FFFF_FFFF
  const TWO_64: int := 0x1_0000_0000_0000_0000

  type int64 = x: int | -0x8000_0000_0000_0000 <= x <= 0x7FFF_FFFF_FFFF_FFFF

  predicate Fits(x: int) {
    MIN_INT64 <= x <= MAX_INT64
  }

  function Abs(x: int): nat {
    if x < 0 then -x else x
  }

  /** Two's-complement reduction of an unbounded integer. */
  function Wrap(x: int): (r: int64)
    ensures Fits(x) ==> r == x
  {
    (x - MIN_INT64) % TWO_64 + MIN_INT64
  }

  lemma WrapCongruent(x: int) returns (k: int)
    ensures x == Wrap(x) + k * TWO_64
  {
    k := (x - MIN_INT64) / TWO_64;
  }

  /** The representative is unique: two int64 values congruent modulo 2^64 are equal. */
  lemma WrapUnique(x: int, r: int64, k: int)
    requires x == r + k * TWO_64
    ensures Wrap(x) == r
  {
    var j := WrapCongruent(x);
    assert (j - k) * TWO_64 == r - Wrap(x);
  }

  /** Wrapping at every step of a sum is the same as wrapping once at the end. */
  lemma WrapAdd(x: int, y: int)
    ensures Wrap(Wrap(x) + y) == Wrap(x + y)
  {
    var j := WrapCongruent(x);
    var k := WrapCongruent(Wrap(x) + y);
    WrapUnique(x + y, Wrap(Wrap(x) + y), j + k);
  }

  /** Machine negation: the smallest value is its own negative. */
  function Neg(a: int64): (r: int64)
    ensures a != MIN_INT64 ==> r == 0 - a
    ensures a == MIN_INT64 ==> r == MIN_INT64
  {
    Wrap(0 - a)
  }

  /** Floor division, known by its bracketing of n; proofs hide the body and use only that. */
  function FloorDiv(n: int, m: int): (q: int)
    requires m > 0
    ensures q * m <= n < q * m + m
    ensures n >= 0 ==> q >= 0
  {
    assert n == n / m * m + n % m;
    n / m
  }

  /** Division truncated towards zero. */
  function Quo(a: int, b: int): int
    requires b != 0
  {
    var q := FloorDiv(Abs(a), Abs(b));
    if (a >= 0) == (b > 0) then q else 0 - q
  }

  /** Remainder of the truncated division: it takes the sign of the dividend. */
  function Rem(a: int, b: int): int
    requires b != 0
  {
    a - b * Quo(a, b)
  }

  function AddI64(a: int64, b: int64): Option<int64> {
    var s := Wrap(a + b);
    if (a > 0 && b > 0 && s < 0) || (a < 0 && b < 0 && s > 0) then None else Some(s)
  }

  function SubI64(a: int64, b: int64): Option<int64> {
    var d := Wrap(a - b);
    if (a >= 0 && b < 0 && d < 0) || (a < 0 && b > 0 && d >= 0) then None else Some(d)
  }

  /** The machine quotient itself wraps, for the smallest value over -1. */
  function MulI64(a: int64, b: int64): Option<int64> {
    if a == 0 || b == 0 then Some(0)
    else
      var p := Wrap(a * b);
      if Wrap(Quo(p, b)) != a then None else Some(p)
  }

  /** What an overflow check is for: the exact value when it is representable, failure otherwise. */
  function Checked(x: int): Option<int64> {
    if Fits(x) then Some(x) else None
  }

  /** Addition is checked exactly, save at one pair, where it silently yields 0. */
  lemma AddI64Exact(a: int64, b: int64)
    ensures AddI64(a, b) == Checked(a + b) <==> !(a == MIN_INT64 && b == MIN_INT64)
    ensures AddI64(MIN_INT64, MIN_INT64) == Some(0)
  {
    WrapUnique(MIN_INT64 + MIN_INT64, 0, -1);
    if a + b > MAX_INT64 {
      WrapUnique(a + b, a + b - TWO_64, 1);
    } else if a + b < MIN_INT64 {
      WrapUnique(a + b, a + b + TWO_64, -1);
    }
  }

  lemma SubI64Exact(a: int64, b: int64)
    ensures SubI64(a, b) == Checked(a - b)
  {
    if a - b > MAX_INT64 {
      WrapUnique(a - b, a - b - TWO_64, 1);
    } else if a - b < MIN_INT64 {
      WrapUnique(a - b, a - b + TWO_64, -1);
    }
  }

  /** Distinct multiples of m lie at least m apart. */
  lemma MultiplesApart(x: int, y: int, m: int)
    requires m > 0 && x < y
    ensures x * m + m <= y * m
  {
    var d := y - x - 1;
    assert y * m == x * m + m + d * m by { assert y == x + 1 + d; }
    assert d * m >= 0;
  }

  lemma DivUnique(n: int, m: int, q: int)
    requires m > 0 && q * m <= n < q * m + m
    ensures FloorDiv(n, m) == q
  {
    hide FloorDiv;
    var q' := FloorDiv(n, m);
    if q' > q {
      MultiplesApart(q, q', m);
    } else if q' < q {
      MultiplesApart(q', q, m);
    }
  }

  /** The sign of a product, pulled out of it. */
  lemma AbsMul(a: int, b: int)
    ensures Abs(a * b) == Abs(a) * Abs(b)
    ensures a * b > 0 <==> (a > 0 && b > 0) || (a < 0 && b < 0)
    ensures a * b == 0 <==> a == 0 || b == 0
  {
    var n: int, m: int := Abs(a), Abs(b);
    if a < 0 && b < 0 {
      assert a * b == n * m;
    } else if a < 0 {
      assert a * b == -(n * m);
    } else if b < 0 {
      assert a * b == -(n * m);
    } else {
      assert a * b == n * m;
    }
  }

  lemma QuoExact(a: int, b: int)
    requires b != 0
    ensures Quo(a * b, b) == a
  {
    hide FloorDiv;
    AbsMul(a, b);
    DivUnique(Abs(a * b), Abs(b), Abs(a));
  }

  /** A truncated quotient leaves a remainder smaller than the divisor. */
  lemma QuoRemainder(p: int, b: int)
    requires b != 0
    ensures Abs(p - Quo(p, b) * b) < Abs(b)
    ensures Abs(Quo(p, b)) <= Abs(p)
  {
    hide FloorDiv;
    var q := FloorDiv(Abs(p), Abs(b));
    MulAtLeast(q, Abs(b));
    AbsMul(Quo(p, b), b);
  }

  lemma MulAtLeast(q: nat, m: int)
    requires m > 0
    ensures q <= q * m
  {
    assert q * m == q + q * (m - 1);
    assert q * (m - 1) >= 0;
  }

  /** Multiplication is checked exactly, save at (smallest, -1), where it yields the smallest value. */
  lemma MulI64Exact(a: int64, b: int64)
    ensures MulI64(a, b) == Checked(a * b) <==> !(a == MIN_INT64 && b == -1)
    ensures MulI64(MIN_INT64, -1) == Some(MIN_INT64)
  {
    hide FloorDiv, Quo;
    MulException();
    if a != 0 && b != 0 && !(a == MIN_INT64 && b == -1) {
      if Fits(a * b) {
        QuoExact(a, b);
      } else {
        MulOverflow(a, b);
      }
    }
  }

  lemma MulException()
    ensures MulI64(MIN_INT64, -1) == Some(MIN_INT64)
    ensures !Fits(MIN_INT64 * -1)
  {
    hide FloorDiv;
    WrapUnique(-MIN_INT64, MIN_INT64, 1);
    DivUnique(-MIN_INT64, 1, -MIN_INT64);
  }

  lemma MulOverflow(a: int64, b: int64)
    requires a != 0 && b != 0 && !(a == MIN_INT64 && b == -1) && !Fits(a * b)
    ensures MulI64(a, b) == None
  {
    hide FloorDiv, Quo;
    var p := Wrap(a * b);
    var k := WrapCongruent(a * b);
    var q := Quo(p, b);
    QuoRemainder(p, b);
    if Fits(q) {
      // q == a would put p within |b| of a * b, but wrapping moved it by at least 2^64.
      assert q * b == a * b ==> Abs(k * TWO_64) < Abs(b);
    } else {
      assert q == -MIN_INT64 && p == MIN_INT64;
      WrapUnique(q, MIN_INT64, 1);
      SmallestQuotient(b);
    }
  }

  /** Only dividing by -1 takes the smallest value out of range. */
  lemma SmallestQuotient(b: int64)
    requires b != 0 && Quo(MIN_INT64, b) == -MIN_INT64
    ensures b == -1
  {
    hide FloorDiv;
    var q := FloorDiv(-MIN_INT64, Abs(b));
    assert q == -MIN_INT64;
  }
}
