/**
Retry delays and the unary retry loop: go/v1/retry.go. Delays are int64 nanoseconds.
*/
module Backoff {
  import opened Options

  const TWO62 := 0x4000_0000_0000_0000
  const TWO63 := 0x8000_0000_0000_0000

  predicate Int64(x: int) { -TWO63 <= x < TWO63 }

  /** Two's complement wrap-around of a 64-bit result. */
  function Wrap(x: int): (w: int)
    ensures Int64(w) && (Int64(x) ==> w == x) && (w - x) % (2 * TWO63) == 0
  {
    (x + TWO63) % (2 * TWO63) - TWO63
  }

  function Pow2(n: nat): (p: nat)
    ensures p >= 1
  {
    if n == 0 then 1 else 2 * Pow2(n - 1)
  }

  function Min(a: int, b: int): int { if a <= b then a else b }

  /** A base doubled `n` times, without any word size. */
  function Scaled(base: nat, n: nat): nat { base * Pow2(n) }

  /** The exact cap of an attempt. */
  function Cap(attempt: nat, base: nat, max: nat): nat { Min(Scaled(base, attempt), max) }

  lemma ScaledStep(base: nat, n: nat)
    ensures Scaled(base, n + 1) == 2 * Scaled(base, n) && Scaled(base, 0) == base
  {
    assert base * Pow2(n + 1) == 2 * (base * Pow2(n));
  }

  /** `n` doublings as the code performs them, stopping at max and wrapping at 64 bits. */
  function Doubled(n: nat, base: int, max: int): int {
    if n == 0 then base else
    var delay := Doubled(n - 1, base, max);
    if delay < max then Wrap(2 * delay) else delay
  }

  /** No doubling leaves the 64-bit range and the stopped value caps to the exact one. */
  lemma {:induction false} DoubledIsCap(n: nat, base: nat, max: nat)
    requires base < TWO63 && max <= TWO62
    ensures 0 <= Doubled(n, base, max) < TWO63 && Min(Doubled(n, base, max), max) == Cap(n, base, max)
    ensures Doubled(n, base, max) < max ==> 2 * Doubled(n, base, max) < TWO63
  {
    hide Scaled;
    ScaledStep(base, if n > 0 then n - 1 else 0);
    if n > 0 { DoubledIsCap(n - 1, base, max); }
  }

  // ---------------------------------------------------------------- when the doubling overflows

  /** Doubling number `n` is performed, and leaves the 64-bit range. */
  predicate Overflows(n: nat, base: int, max: int) { Doubled(n, base, max) < max && !Int64(2 * Doubled(n, base, max)) }

  /** No doubling that is performed does. */
  ghost predicate NeverOverflows(base: int, max: int) { forall n: nat :: !Overflows(n, base, max) }

  /** Some doubled base lies between 2^62 and max: doubling it once more overflows. */
  ghost predicate Crosses(base: nat, max: int) { exists n: nat :: TWO62 <= Scaled(base, n) < max }

  lemma {:induction false} StoppedForGood(n: nat, base: int, max: int)
    requires base >= max
    ensures Doubled(n, base, max) == base
  {
    if n > 0 { StoppedForGood(n - 1, base, max); }
  }

  lemma {:induction false} ZeroStays(n: nat, max: int)
    ensures Doubled(n, 0, max) == 0
  {
    if n > 0 { ZeroStays(n - 1, max); }
  }

  /** While nothing crosses, a value below max is the exact one, and below 2^62. */
  lemma {:induction false} ExactBelow(n: nat, base: nat, max: int)
    requires base > 0 && Int64(base) && !Crosses(base, max)
    ensures Doubled(n, base, max) < max ==> Doubled(n, base, max) == Scaled(base, n) < TWO62
  {
    hide Scaled;
    ScaledStep(base, if n > 0 then n - 1 else 0);
    assert Scaled(base, n) < TWO62 || Scaled(base, n) >= max;
    if n > 0 { ExactBelow(n - 1, base, max); }
  }

  lemma {:induction false} ScaledMonotone(base: nat, k: nat, n: nat)
    requires k <= n
    ensures Scaled(base, k) <= Scaled(base, n)
    decreases n
  {
    hide Scaled;
    if k < n {
      ScaledStep(base, n - 1);
      ScaledMonotone(base, k, n - 1);
      ScaledNat(base, n - 1);
    }
  }

  lemma ScaledNat(base: nat, n: nat)
    ensures Scaled(base, n) >= 0
  {
  }

  /** Values are exact up to the first overflow and the first that reaches max. */
  lemma {:induction false} ExactUpTo(n: nat, base: nat, max: int)
    requires Scaled(base, n) < max
    ensures (exists k: nat :: k < n && Overflows(k, base, max)) || Doubled(n, base, max) == Scaled(base, n)
  {
    hide Scaled;
    ScaledStep(base, if n > 0 then n - 1 else 0);
    if n > 0 {
      ScaledMonotone(base, n - 1, n);
      ExactUpTo(n - 1, base, max);
      if Doubled(n - 1, base, max) == Scaled(base, n - 1) && !Int64(2 * Doubled(n - 1, base, max)) {
        assert Overflows(n - 1, base, max);
      }
    }
  }

  /** A negative base below max is doubled until it overflows. */
  lemma {:induction false} NegativeRuns(n: nat, base: int, max: int)
    requires base < 0 && base < max
    ensures (exists k: nat :: k < n && Overflows(k, base, max))
            || (Doubled(n, base, max) + Scaled(-base, n) == 0 && Doubled(n, base, max) <= base)
  {
    hide Scaled;
    ScaledStep(-base, if n > 0 then n - 1 else 0);
    if n > 0 {
      NegativeRuns(n - 1, base, max);
      if Doubled(n - 1, base, max) <= base && !Int64(2 * Doubled(n - 1, base, max)) {
        assert Overflows(n - 1, base, max);
      }
    }
  }

  lemma Pow63()
    ensures Pow2(63) == TWO63 == 2 * TWO62
  {
    assert Pow2(8) == 0x100;
    assert Pow2(16) == 0x1_0000;
    assert Pow2(24) == 0x100_0000;
    assert Pow2(32) == 0x1_0000_0000;
    assert Pow2(40) == 0x100_0000_0000;
    assert Pow2(48) == 0x1_0000_0000_0000;
    assert Pow2(56) == 0x100_0000_0000_0000;
  }

  lemma NegativeOverflows(base: int, max: int)
    requires base < 0 && base < max
    ensures !NeverOverflows(base, max)
  {
    NegativeRuns(63, base, max);
    FarEnough(-base);
    hide Scaled, Doubled;
    if Doubled(63, base, max) + Scaled(-base, 63) == 0 {
      assert Doubled(63, base, max) <= base ==> Overflows(63, base, max);
    }
  }

  lemma FarEnough(base: nat)
    requires base > 0
    ensures Scaled(base, 63) >= TWO63
  {
    Pow63();
    hide Pow2;
    assert (base - 1) * TWO63 >= 0;
  }

  /**
  Exactly when no doubling overflows, for any 64-bit base and max: there is nothing to
  double, or the base is positive and no doubled base falls between 2^62 and max.
  */
  lemma OverflowIff(base: int, max: int)
    requires Int64(base) && Int64(max)
    ensures NeverOverflows(base, max) <==> base >= max || base == 0 || (base > 0 && !Crosses(base, max))
  {
    hide Scaled;
    if base >= max {
      forall n: nat ensures !Overflows(n, base, max) { StoppedForGood(n, base, max); }
    } else if base == 0 {
      forall n: nat ensures !Overflows(n, base, max) { ZeroStays(n, max); }
    } else if base < 0 {
      NegativeOverflows(base, max);
    } else if Crosses(base, max) {
      var n: nat :| TWO62 <= Scaled(base, n) < max;
      ExactUpTo(n, base, max);
      assert Doubled(n, base, max) == Scaled(base, n) ==> Overflows(n, base, max);
    } else {
      forall n: nat ensures !Overflows(n, base, max) { ExactBelow(n, base, max); }
    }
  }

  /** So a maximum of at most 2^62 is safe with every base that is not negative. */
  lemma SafeUpToTwo62(base: nat, max: int)
    requires Int64(base) && max <= TWO62 && Int64(max)
    ensures NeverOverflows(base, max)
  {
    hide Scaled, NeverOverflows;
    OverflowIff(base, max);
  }

  /** The cap never shrinks with the attempt. */
  lemma CapMonotone(attempt: nat, base: nat, max: nat)
    ensures Cap(attempt, base, max) <= Cap(attempt + 1, base, max)
  {
    ScaledStep(base, attempt);
    hide Scaled;
  }

  /** Half of what the doublings of an attempt came to, and less than that again on top of it. */
  predicate Waits(delay: int, attempt: nat, base: int, max: int) {
    var d := Min(Doubled(attempt, base, max), max);
    if d < 2 then delay == d else d / 2 <= delay < 2 * (d / 2)
  }

  function Sum(waits: seq<int>): int { if waits == [] then 0 else Sum(waits[..|waits| - 1]) + waits[|waits| - 1] }

  lemma SumSnoc(waits: seq<int>, delay: int)
    ensures Sum(waits + [delay]) == Sum(waits) + delay && Sum([]) == 0
  {
    assert (waits + [delay])[..|waits|] == waits;
  }

  /**
  A delay for any attempt however large: half of what the doublings came to, and less than
  that again on top of it; unless they overflow, between half the cap and the cap.
  */
  method BackoffDelay(attempt: int, base: int, max: int) returns (delay: int)
    requires Int64(base) && Int64(max)
    ensures Waits(delay, if attempt < 0 then 0 else attempt, base, max)
    ensures 0 <= base && 0 <= max <= TWO62 ==>
              var cap := Cap(if attempt < 0 then 0 else attempt, base, max);
              cap / 2 <= delay <= cap
  {
    var d, i := base, 0;
    while i < attempt && d < max
      invariant 0 <= i && (attempt >= 0 ==> i <= attempt) && (attempt < 0 ==> i == 0)
      invariant d == Doubled(i, base, max)
      invariant Int64(d)
    {
      d := Wrap(2 * d);
      i := i + 1;
    }
    if 0 <= base && 0 <= max <= TWO62 {
      DoubledIsCap(i, base, max);
      StoppedAtCap(i, if attempt < 0 then 0 else attempt, base, max);
    }
    DoubledStops(i, if attempt < 0 then 0 else attempt, base, max);
    d := Min(d, max);
    var half := if d >= 0 then d / 2 else -(-d / 2);
    if half <= 0 { return d; }
    var r :| 0 <= r < half;
    return half + r;
  }

  /** Once a value is not below max it is doubled no more. */
  lemma {:induction false} DoubledStops(i: nat, n: nat, base: int, max: int)
    requires i <= n && (i < n ==> Doubled(i, base, max) >= max)
    ensures Doubled(n, base, max) == Doubled(i, base, max)
    decreases n
  {
    if i < n - 1 { DoubledStops(i, n - 1, base, max); }
  }

  /** Once a doubling is refused the cap has been reached. */
  lemma {:induction false} StoppedAtCap(i: nat, n: nat, base: nat, max: nat)
    requires base < TWO63 && max <= TWO62 && i <= n && (i < n ==> Doubled(i, base, max) >= max)
    ensures Cap(i, base, max) == Cap(n, base, max)
    decreases n - i
  {
    hide Scaled, Wrap;
    if i < n {
      DoubledIsCap(i, base, max);
      ScaledStep(base, i);
      StoppedAtCap(i + 1, n, base, max);
    }
  }

  // ---------------------------------------------------------------- errors and the unary loop

  const UNAVAILABLE := 14
  const RESOURCE_EXHAUSTED := 8

  /** A stream or call error: end of stream, a gRPC status, or anything else. */
  datatype CallError = Eof | Status(code: int) | Other

  predicate Retryable(e: CallError) { e.Status? && (e.code == UNAVAILABLE || e.code == RESOURCE_EXHAUSTED) }

  predicate StreamRetryable(e: CallError) { e.Eof? || Retryable(e) }

  /** Only codes 14, unavailable, and 8, resource exhausted, are tried again; a stream also after its plain end. */
  lemma RetryableIff(e: CallError)
    ensures Retryable(e) <==> e == Status(14) || e == Status(8)
    ensures StreamRetryable(e) <==> e == Eof || e == Status(14) || e == Status(8)
  {
  }

  datatype Outcome = Success | Failed(error: CallError) | Cancelled

  /**
  retryUnaryInterceptor: `answers(i)` is the outcome of call i and `cancelled(i)` whether
  the context ends during the wait after it. At most maxRetries + 1 calls and
  maxRetries * max of waiting, a backoff after each call but the last; every call but the
  last failed retryably.
  */
  method RetryUnary(maxRetries: int, base: int, max: int, answers: nat -> Option<CallError>, cancelled: nat -> bool)
    returns (r: Outcome, calls: nat, waited: int, ghost waits: seq<int>)
    requires Int64(base) && Int64(max)
    ensures |waits| == (if r == Cancelled then calls else calls - 1) && waited == Sum(waits)
    ensures forall i :: 0 <= i < |waits| ==> Waits(waits[i], i, base, max)
    ensures 1 <= calls <= (if maxRetries < 0 then 0 else maxRetries) + 1
    ensures 0 <= base && 0 <= max <= TWO62 ==>
              0 <= waited <= (calls - 1) * max + (if r == Cancelled then max else 0)
              && waited <= (if maxRetries < 0 then 0 else maxRetries) * max
    ensures forall i :: 0 <= i < calls - 1 ==> answers(i).Some? && Retryable(answers(i).value) && !cancelled(i)
    ensures r == Success <==> answers(calls - 1).None?
    ensures r == Cancelled ==> Retryable(answers(calls - 1).value) && cancelled(calls - 1)
    ensures r.Failed? ==> answers(calls - 1) == Some(r.error)
                          && (!Retryable(r.error) || calls == (if maxRetries < 0 then 0 else maxRetries) + 1)
  {
    hide Waits, Sum, Doubled;
    SumSnoc([], 0);
    var limit: nat := if maxRetries < 0 then 0 else maxRetries;
    var attempt: nat := 0;
    waited, waits := 0, [];
    while true
      invariant attempt <= limit
      invariant |waits| == attempt && waited == Sum(waits)
      invariant forall i :: 0 <= i < |waits| ==> Waits(waits[i], i, base, max)
      invariant 0 <= base && 0 <= max <= TWO62 ==> 0 <= waited <= attempt * max
      invariant forall i :: 0 <= i < attempt ==> answers(i).Some? && Retryable(answers(i).value) && !cancelled(i)
      decreases limit - attempt
    {
      var err := answers(attempt);
      if 0 <= max { MulBound(attempt, limit, max); }
      if err.None? { return Success, attempt + 1, waited, waits; }
      if !Retryable(err.value) || attempt == limit { return Failed(err.value), attempt + 1, waited, waits; }
      var delay := BackoffDelay(attempt, base, max);
      waited := waited + delay;
      SumSnoc(waits, delay);
      waits := waits + [delay];
      assert (attempt + 1) * max == attempt * max + max;
      if 0 <= max { MulBound(attempt + 1, limit, max); }
      if cancelled(attempt) { return Cancelled, attempt + 1, waited, waits; }
      attempt := attempt + 1;
    }
  }

  lemma MulBound(a: int, b: int, m: int)
    requires a <= b && m >= 0
    ensures a * m <= b * m
  {
    assert (b - a) * m >= 0;
  }
}
