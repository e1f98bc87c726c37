// The law shared by the login lockout and the provider circuit breaker: count failures, and after
// a threshold refuse everything for a while.
module FailureLimiter {
  import opened Strings

  /** A failure counter and the time until which nothing is admitted. */
  datatype Limiter = Limiter(count: nat, until: Option<int>)

  /** An admitted call that failed: when it was admitted and when the failure was recorded. */
  datatype Failure = Failure(called: int, failed: int)

  predicate Admits(l: Limiter, now: int) { l.until.None? || l.until.value <= now }

  function Fail(l: Limiter, now: int, threshold: nat, cooldown: int): Limiter {
    if l.count + 1 >= threshold then Limiter(0, Some(now + cooldown)) else l.(count := l.count + 1)
  }

  /** The limiter after a list of failures. */
  function After(l: Limiter, fs: seq<Failure>, threshold: nat, cooldown: int): Limiter {
    if fs == [] then l else Fail(After(l, fs[..|fs| - 1], threshold, cooldown), fs[|fs| - 1].failed, threshold, cooldown)
  }

  /** Failures that the limiter let happen, one after the other. */
  predicate Admitted(l: Limiter, fs: seq<Failure>, threshold: nat, cooldown: int) {
    fs == [] || (
      var front, last := fs[..|fs| - 1], fs[|fs| - 1];
      && Admitted(l, front, threshold, cooldown)
      && Admits(After(l, front, threshold, cooldown), last.called)
      && last.called <= last.failed
      && (front != [] ==> front[|front| - 1].failed <= last.called))
  }

  lemma NextMultiple(n: nat, t: nat)
    requires t > 0
    ensures (n + 1) % t == (if n % t + 1 == t then 0 else n % t + 1)
    ensures (n + 1) / t == (if n % t + 1 == t then n / t + 1 else n / t)
  {
    var q, r := n / t, n % t;
    assert n == q * t + r;
    if r + 1 == t {
      DivisionIs(n + 1, t, q + 1, 0);
    } else {
      DivisionIs(n + 1, t, q, r + 1);
    }
  }

  lemma NotMultiple(d: int, t: int, r: int)
    requires r < t && -r < t && d * t == r
    ensures d == 0
  {
  }

  lemma DivisionIs(n: nat, t: nat, q: nat, r: nat)
    requires t > 0 && r < t && n == q * t + r
    ensures n / t == q && n % t == r
  {
    var p, s := n / t, n % t;
    assert n == p * t + s && 0 <= s < t;
    assert (p - q) * t == p * t - q * t;
    NotMultiple(p - q, t, r - s);
  }

  lemma OneMoreCooldown(cooldown: int, k: nat)
    ensures cooldown * (k + 1) == cooldown * k + cooldown
  {
  }

  /** The counter counts modulo the threshold, and each wrap-around costs one cooldown. */
  lemma {:induction false} LockoutLaw(l: Limiter, fs: seq<Failure>, threshold: nat, cooldown: int)
    requires l.count < threshold && fs != [] && Admitted(l, fs, threshold, cooldown)
    ensures var end := After(l, fs, threshold, cooldown); var n := l.count + |fs|;
      && end.count == n % threshold
      && fs[|fs| - 1].failed - fs[0].called >= cooldown * ((n - 1) / threshold)
      && (n >= threshold ==> end.until.Some? && end.until.value - fs[0].called >= cooldown * (n / threshold))
  {
    var front, last, n := fs[..|fs| - 1], fs[|fs| - 1], l.count + |fs|;
    NextMultiple(n - 1, threshold);
    OneMoreCooldown(cooldown, (n - 1) / threshold);
    if front == [] {
      DivisionIs(l.count, threshold, 0, l.count);
    } else {
      LockoutLaw(l, front, threshold, cooldown);
      assert front[0] == fs[0];
      if n - 1 < threshold {
        DivisionIs(n - 1, threshold, 0, n - 1);
        InOrder(l, front, threshold, cooldown);
      }
    }
  }

  /** Failures that were let through are spread over time. */
  lemma SpanLaw(l: Limiter, fs: seq<Failure>, threshold: nat, cooldown: int)
    requires l.count < threshold && fs != [] && Admitted(l, fs, threshold, cooldown)
    ensures fs[|fs| - 1].failed - fs[0].called >= cooldown * ((l.count + |fs| - 1) / threshold)
  {
    LockoutLaw(l, fs, threshold, cooldown);
  }

  lemma {:induction false} InOrder(l: Limiter, fs: seq<Failure>, threshold: nat, cooldown: int)
    requires fs != [] && Admitted(l, fs, threshold, cooldown)
    ensures fs[0].called <= fs[|fs| - 1].failed
  {
    if |fs| > 1 {
      InOrder(l, fs[..|fs| - 1], threshold, cooldown);
    }
  }
}
