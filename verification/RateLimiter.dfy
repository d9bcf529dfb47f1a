/**
 The token bucket of internal/resilience/limiter.go, over real numbers: times in seconds, tokens
 possibly fractional, and a clock that may step back.
 */
module Limiter {
  datatype Bucket = Bucket(capacity: real, rate: real, tokens: real, last: real)

  ghost predicate Sane(b: Bucket) {
    b.capacity >= 1.0 && b.rate > 0.0 && 0.0 <= b.tokens <= b.capacity
  }

  function Min(a: real, b: real): real {
    if a > b then b else a
  }

  /** Tokens that accrue over a stretch of time. */
  function Accrual(rate: real, elapsed: real): real {
    elapsed * rate
  }

  lemma AccrualAdds(rate: real, x: real, y: real)
    ensures Accrual(rate, x + y) == Accrual(rate, x) + Accrual(rate, y)
    ensures Accrual(rate, 0.0) == 0.0
  {}

  lemma AccrualSign(rate: real, x: real)
    requires rate > 0.0
    ensures x >= 0.0 ==> Accrual(rate, x) >= 0.0
    ensures Accrual(rate, x) > 0.0 ==> x > 0.0
  {}

  /** Tokens accrued since the last refill, cut off at capacity; a clock that has not advanced adds none. */
  function Refilled(b: Bucket, now: real): Bucket {
    if now - b.last <= 0.0 then b
    else b.(tokens := Min(b.tokens + Accrual(b.rate, now - b.last), b.capacity), last := now)
  }

  predicate Admits(b: Bucket, now: real) {
    Refilled(b, now).tokens >= 1.0
  }

  function Called(b: Bucket, now: real): Bucket {
    var b' := Refilled(b, now);
    if b'.tokens >= 1.0 then b'.(tokens := b'.tokens - 1.0) else b'
  }

  class RateLimiter {
    const capacity: real
    const refillRate: real
    var tokens: real
    var last: real

    function Level(): Bucket
      reads this
    {
      Bucket(capacity, refillRate, tokens, last)
    }

    constructor (refillPerSec: real, capacity: int, now: real)
      ensures Sane(Level()) && Level().tokens == Level().capacity && Level().last == now
      ensures capacity >= 1 ==> this.capacity == capacity as real
      ensures capacity < 1 ==> this.capacity == 1.0
      ensures this.refillRate == if refillPerSec <= 0.0 then 1.0 else refillPerSec
    {
      var burst := if capacity < 1 then 1 else capacity;
      this.capacity := burst as real;
      tokens := burst as real;
      refillRate := if refillPerSec <= 0.0 then 1.0 else refillPerSec;
      last := now;
    }

    method Refill(now: real)
      modifies this
      ensures Level() == Refilled(old(Level()), now)
    {
      var elapsed := now - last;
      if elapsed <= 0.0 {
        return;
      }
      tokens := tokens + Accrual(refillRate, elapsed);
      if tokens > capacity {
        tokens := capacity;
      }
      last := now;
    }

    method Allow(now: real) returns (admitted: bool)
      modifies this
      ensures Level() == Called(old(Level()), now)
      ensures admitted <==> Admits(old(Level()), now)
    {
      Refill(now);
      if tokens >= 1.0 {
        tokens := tokens - 1.0;
        return true;
      }
      return false;
    }
  }

  // ---------------------------------------------------------------- runs

  function After(b: Bucket, calls: seq<real>): Bucket {
    if calls == [] then b else Called(After(b, calls[..|calls| - 1]), calls[|calls| - 1])
  }

  /** Calls let through. */
  function Admitted(b: Bucket, calls: seq<real>): nat {
    if calls == [] then 0
    else
      var before := calls[..|calls| - 1];
      Admitted(b, before) + if Admits(After(b, before), calls[|calls| - 1]) then 1 else 0
  }

  /** Tokens cut off by the capacity at one refill. */
  function Spill(b: Bucket, now: real): real {
    if now - b.last <= 0.0 then 0.0
    else
      var full := b.tokens + Accrual(b.rate, now - b.last);
      if full > b.capacity then full - b.capacity else 0.0
  }

  function Spilled(b: Bucket, calls: seq<real>): real {
    if calls == [] then 0.0
    else
      var before := calls[..|calls| - 1];
      Spilled(b, before) + Spill(After(b, before), calls[|calls| - 1])
  }

  /** The latest time the limiter has acted on. */
  function Latest(start: real, calls: seq<real>): real {
    if calls == [] then start
    else
      var t := Latest(start, calls[..|calls| - 1]);
      if calls[|calls| - 1] > t then calls[|calls| - 1] else t
  }

  lemma CallBalance(b: Bucket, now: real)
    requires Sane(b)
    ensures var b' := Called(b, now);
      && Sane(b') && b'.capacity == b.capacity && b'.rate == b.rate && b'.last >= b.last
      && (if Admits(b, now) then 1.0 else 0.0) + b'.tokens + Spill(b, now)
           == b.tokens + Accrual(b.rate, b'.last - b.last)
      && Spill(b, now) >= 0.0
  {
    hide Accrual;
    AccrualSign(b.rate, now - b.last);
    AccrualAdds(b.rate, 0.0, 0.0);
  }

  lemma LastAfterCall(b: Bucket, now: real)
    ensures Called(b, now).last == if now > b.last then now else b.last
  {}

  /** Tokens are conserved: calls admitted, tokens left and tokens spilled add up to what was there and accrued. */
  lemma {:induction false} TokenBalance(b: Bucket, calls: seq<real>)
    requires Sane(b)
    ensures var e := After(b, calls);
      && Sane(e) && e.capacity == b.capacity && e.rate == b.rate && e.last == Latest(b.last, calls)
      && Admitted(b, calls) as real + e.tokens + Spilled(b, calls) == b.tokens + Accrual(b.rate, e.last - b.last)
      && Spilled(b, calls) >= 0.0 && e.last >= b.last
  {
    hide Sane, Admits, Spill, Accrual, Called;
    if calls == [] {
      AccrualAdds(b.rate, 0.0, 0.0);
    } else {
      var before, now := calls[..|calls| - 1], calls[|calls| - 1];
      TokenBalance(b, before);
      var m := After(b, before);
      CallBalance(m, now);
      LastAfterCall(m, now);
      AccrualAdds(b.rate, m.last - b.last, After(b, calls).last - m.last);
    }
  }

  lemma {:induction false} AfterAppend(b: Bucket, xs: seq<real>, ys: seq<real>)
    ensures After(b, xs + ys) == After(After(b, xs), ys)
    ensures Admitted(b, xs + ys) == Admitted(b, xs) + Admitted(After(b, xs), ys)
  {
    hide Called, Admits;
    if ys == [] {
      assert xs + ys == xs;
    } else {
      AfterAppend(b, xs, ys[..|ys| - 1]);
      assert (xs + ys)[..|xs + ys| - 1] == xs + ys[..|ys| - 1];
    }
  }

  /**
   In any window of any run, even with a clock that steps back, no more calls pass than the burst
   capacity plus the rate times the time by which the window moved the limiter's clock forward.
   */
  lemma WindowBound(b: Bucket, before: seq<real>, window: seq<real>)
    requires Sane(b)
    ensures var from := After(b, before);
      (Admitted(b, before + window) - Admitted(b, before)) as real
        <= b.capacity + Accrual(b.rate, Latest(from.last, window) - from.last)
  {
    hide After, Admitted, Latest, Spilled, Accrual;
    AfterAppend(b, before, window);
    TokenBalance(b, before);
    TokenBalance(After(b, before), window);
  }

  /** Clock readings never go back and successive ones are at least 1 / rate apart. */
  ghost predicate Paced(b: Bucket, calls: seq<real>) {
    && (forall i :: 0 <= i < |calls| ==> b.last <= calls[i])
    && (forall i :: 0 < i < |calls| ==> Accrual(b.rate, calls[i] - calls[i - 1]) >= 1.0)
  }

  /**
   From any point of any run, of calls that keep to the rate only the first can be denied, and it is exactly when no
   whole token is there for it.
   */
  lemma {:induction false} PacedAllButFirst(b: Bucket, calls: seq<real>)
    requires Sane(b) && Paced(b, calls)
    ensures Admitted(b, calls) == |calls| - if calls != [] && !Admits(b, calls[0]) then 1 else 0
    ensures calls != [] ==> After(b, calls).last == calls[|calls| - 1]
  {
    hide Sane, Admits, Called, Accrual;
    if calls != [] {
      var before, now := calls[..|calls| - 1], calls[|calls| - 1];
      PacedAllButFirst(b, before);
      TokenBalance(b, before);
      if before == [] {
        LastAfterCall(b, now);
      } else {
        NextPaced(After(b, before), now);
      }
    }
  }

  /** So a limiter with a whole token to start with never denies calls that keep to its rate. */
  lemma PacedNeverDenied(b: Bucket, calls: seq<real>)
    requires Sane(b) && b.tokens >= 1.0 && Paced(b, calls)
    ensures Admitted(b, calls) == |calls|
  {
    hide Sane, Admits, Called, Accrual, After, Admitted;
    PacedAllButFirst(b, calls);
    if calls != [] { TokenStays(b, calls[0]); }
  }

  lemma TokenStays(b: Bucket, now: real)
    requires Sane(b) && b.tokens >= 1.0
    ensures Admits(b, now)
  {
    hide Accrual;
    AccrualSign(b.rate, now - b.last);
  }

  lemma NextPaced(m: Bucket, now: real)
    requires Sane(m) && Accrual(m.rate, now - m.last) >= 1.0
    ensures Admits(m, now) && Called(m, now).last == now
  {
    hide Accrual;
    AccrualSign(m.rate, now - m.last);
  }
}
