// The external address provider's circuit breaker and its bounded retry loop.
module CircuitBreaker {
  import opened Strings
  import FailureLimiter

  /** One HTTP attempt: a body, a broken or timed-out connection, an error status, or a body that
      does not parse, which escapes the provider's error handling. */
  datatype Reply = Body(text: string) | TransportError | StatusError | Malformed

  /** The first reply that is not a transport error among the first `n`, else a transport error. */
  function Answer(replies: nat -> Reply, n: nat): Reply {
    if n == 0 then TransportError
    else if Answer(replies, n - 1) != TransportError then Answer(replies, n - 1)
    else replies(n - 1)
  }

  /** How many of the first `n` attempts are made: all, or up to the first that decides. */
  function Attempts(replies: nat -> Reply, n: nat): (k: nat)
    ensures k <= n
  {
    if n == 0 then 0
    else if Answer(replies, n - 1) != TransportError then Attempts(replies, n - 1)
    else Attempts(replies, n - 1) + 1
  }

  function AttemptLimit(maxRetries: int): nat { if maxRetries < 0 then 0 else maxRetries + 1 }

  lemma {:induction false} AnswerStands(replies: nat -> Reply, k: nat, n: nat)
    requires k <= n && Answer(replies, k) != TransportError
    ensures Answer(replies, n) == Answer(replies, k) && Attempts(replies, n) == Attempts(replies, k)
  {
    if k < n {
      AnswerStands(replies, k, n - 1);
    }
  }

  /** Only transport errors are retried, and at most `maxRetries` times. */
  lemma {:induction false} RetriesTransportErrorsOnly(replies: nat -> Reply, n: nat, k: nat)
    requires k + 1 < Attempts(replies, n)
    ensures replies(k) == TransportError
  {
    if Answer(replies, n - 1) != TransportError {
      RetriesTransportErrorsOnly(replies, n - 1, k);
    } else {
      AllTransportErrors(replies, n - 1, k);
    }
  }

  lemma {:induction false} AllTransportErrors(replies: nat -> Reply, n: nat, k: nat)
    requires Answer(replies, n) == TransportError && k < Attempts(replies, n)
    ensures replies(k) == TransportError
  {
    if k < Attempts(replies, n - 1) {
      AllTransportErrors(replies, n - 1, k);
    } else {
      AttemptsAll(replies, n - 1);
    }
  }

  lemma {:induction false} AttemptsAll(replies: nat -> Reply, n: nat)
    requires Answer(replies, n) == TransportError
    ensures Attempts(replies, n) == n
  {
    if n > 0 {
      AttemptsAll(replies, n - 1);
    }
  }

  // ----- the breaker -----

  datatype Outcome = Unavailable | NoLines | Answered(text: string) | Failed | Escaped

  datatype Breaker = Breaker(failures: int, openUntil: int)

  const INITIAL := Breaker(0, 0)

  function Failure(b: Breaker, threshold: int, cooldown: int, now: int): Breaker {
    if b.failures + 1 >= threshold then Breaker(0, now + cooldown) else b.(failures := b.failures + 1)
  }

  /** A call: when it starts, whether the address has lines, what the endpoint replies and when. */
  datatype Call = Call(called: int, lines: bool, answer: Reply, finished: int)

  function OutcomeOf(b: Breaker, configured: bool, call: Call): Outcome {
    if !configured || call.called < b.openUntil then Unavailable
    else if !call.lines then NoLines
    else match call.answer
      case Body(text) => Answered(text)
      case TransportError => Failed
      case StatusError => Failed
      case Malformed => Escaped
  }

  function AfterCall(b: Breaker, threshold: int, cooldown: int, configured: bool, call: Call): Breaker {
    match OutcomeOf(b, configured, call)
    case Answered(_) => b.(failures := 0)
    case Failed => Failure(b, threshold, cooldown, call.finished)
    case _ => b
  }

  class Provider {
    const configured: bool
    const maxRetries: int
    const circuitThreshold: int
    const cooldown: int
    var breaker: Breaker

    constructor (endpoint: bool, retries: int, threshold: int, cooldownTime: int)
      ensures configured == endpoint && maxRetries == retries && circuitThreshold == threshold && cooldown == cooldownTime
      ensures breaker == INITIAL
    {
      configured, maxRetries, circuitThreshold, cooldown, breaker := endpoint, retries, threshold, cooldownTime, INITIAL;
    }

    method CircuitOpen(now: int) returns (open: bool)
      ensures open <==> now < breaker.openUntil
    {
      open := now < breaker.openUntil;
    }

    method RecordFailure(now: int)
      modifies this
      ensures breaker == Failure(old(breaker), circuitThreshold, cooldown, now)
    {
      breaker := breaker.(failures := breaker.failures + 1);
      if breaker.failures >= circuitThreshold {
        breaker := breaker.(openUntil := now + cooldown);
        breaker := breaker.(failures := 0);
      }
    }

    method RecordSuccess()
      modifies this
      ensures breaker == old(breaker).(failures := 0)
    {
      breaker := breaker.(failures := 0);
    }

    /** `_post`: retry while the transport fails. */
    method Post(replies: nat -> Reply) returns (answer: Reply, attempts: nat)
      ensures answer == Answer(replies, AttemptLimit(maxRetries))
      ensures attempts == Attempts(replies, AttemptLimit(maxRetries)) <= AttemptLimit(maxRetries)
    {
      attempts := 0;
      for attempt := 0 to AttemptLimit(maxRetries)
        invariant attempts == attempt == Attempts(replies, attempt)
        invariant Answer(replies, attempt) == TransportError
      {
        var reply := replies(attempt);
        attempts := attempts + 1;
        if reply != TransportError {
          AnswerStands(replies, attempt + 1, AttemptLimit(maxRetries));
          return reply, attempts;
        }
      }
      return TransportError, attempts;
    }

    /** `analyze`, with the clock read at the call and when a failure is recorded. */
    method Analyze(lines: bool, replies: nat -> Reply, called: int, finished: int) returns (outcome: Outcome)
      modifies this
      ensures var call := Call(called, lines, Answer(replies, AttemptLimit(maxRetries)), finished);
        && outcome == OutcomeOf(old(breaker), configured, call)
        && breaker == AfterCall(old(breaker), circuitThreshold, cooldown, configured, call)
    {
      var open := CircuitOpen(called);
      if !configured || open {
        return Unavailable;
      }
      if !lines {
        return NoLines;
      }
      var answer, _ := Post(replies);
      match answer {
        case Body(text) =>
          RecordSuccess();
          return Answered(text);
        case TransportError =>
          RecordFailure(finished);
          return Failed;
        case StatusError =>
          RecordFailure(finished);
          return Failed;
        case Malformed =>
          return Escaped;
      }
    }
  }

  /** A call gets through unless there is no endpoint or the breaker is still open, and only one that does
      and has lines reaches the endpoint. An answer clears the count; a failure counts, and the one that
      reaches the threshold opens the breaker for a cooldown; an escaped error leaves the breaker alone. */
  lemma CallMeans(b: Breaker, threshold: int, cooldown: int, configured: bool, call: Call, text: string)
    ensures var o, b' := OutcomeOf(b, configured, call), AfterCall(b, threshold, cooldown, configured, call);
      var through := configured && b.openUntil <= call.called;
      && (o == Unavailable <==> !through) && (o == NoLines <==> through && !call.lines)
      && (o == Answered(text) <==> through && call.lines && call.answer == Body(text))
      && (o == Failed <==> through && call.lines && (call.answer == TransportError || call.answer == StatusError))
      && (o == Escaped <==> through && call.lines && call.answer == Malformed)
      && (o == Answered(text) ==> b' == Breaker(0, b.openUntil))
      && (o == Failed && b.failures + 1 < threshold ==> b' == Breaker(b.failures + 1, b.openUntil))
      && (o == Failed && b.failures + 1 >= threshold ==> b' == Breaker(0, call.finished + cooldown))
      && (!o.Answered? && o != Failed ==> b' == b)
  {
  }

  // ----- failing calls over runs -----

  function Run(b: Breaker, threshold: int, cooldown: int, configured: bool, calls: seq<Call>): Breaker {
    if calls == [] then b
    else
      var front := Run(b, threshold, cooldown, configured, calls[..|calls| - 1]);
      AfterCall(front, threshold, cooldown, configured, calls[|calls| - 1])
  }

  /** The clock does not run backwards, within a call or between calls. */
  predicate Timed(calls: seq<Call>) {
    calls == [] || (
      var front, last := calls[..|calls| - 1], calls[|calls| - 1];
      && Timed(front) && last.called <= last.finished
      && (front != [] ==> front[|front| - 1].finished <= last.called))
  }

  function LastOutcome(b: Breaker, threshold: int, cooldown: int, configured: bool, calls: seq<Call>): Outcome
    requires calls != []
  {
    OutcomeOf(Run(b, threshold, cooldown, configured, calls[..|calls| - 1]), configured, calls[|calls| - 1])
  }

  /** No call of the run was answered. */
  predicate NoAnswer(b: Breaker, threshold: int, cooldown: int, configured: bool, calls: seq<Call>) {
    calls == [] || (
      && NoAnswer(b, threshold, cooldown, configured, calls[..|calls| - 1])
      && !LastOutcome(b, threshold, cooldown, configured, calls).Answered?)
  }

  function FailingCalls(b: Breaker, threshold: int, cooldown: int, configured: bool, calls: seq<Call>)
    : seq<FailureLimiter.Failure>
  {
    if calls == [] then []
    else
      var last := calls[|calls| - 1];
      FailingCalls(b, threshold, cooldown, configured, calls[..|calls| - 1])
      + if LastOutcome(b, threshold, cooldown, configured, calls).Failed?
        then [FailureLimiter.Failure(last.called, last.finished)] else []
  }

  /** A threshold below one trips on every failure, like a threshold of one. */
  function Effective(threshold: int): (t: nat)
    ensures t >= 1
  {
    if threshold < 1 then 1 else threshold
  }

  /** Counts that calls can leave behind. */
  predicate Reachable(b: Breaker, threshold: int) { 0 <= b.failures < Effective(threshold) }

  lemma {:induction false} RunReachable(b: Breaker, threshold: int, cooldown: int, configured: bool, calls: seq<Call>)
    requires Reachable(b, threshold)
    ensures Reachable(Run(b, threshold, cooldown, configured, calls), threshold)
  {
    if calls != [] {
      RunReachable(b, threshold, cooldown, configured, calls[..|calls| - 1]);
    }
  }

  function LimiterOf(b: Breaker): FailureLimiter.Limiter
    requires b.failures >= 0
  {
    FailureLimiter.Limiter(b.failures, Some(b.openUntil))
  }

  lemma CallIsLimiterStep(b: Breaker, threshold: int, cooldown: int, configured: bool, call: Call)
    requires Reachable(b, threshold) && !OutcomeOf(b, configured, call).Answered?
    ensures var b' := AfterCall(b, threshold, cooldown, configured, call);
      && Reachable(b', threshold)
      && LimiterOf(b') == if OutcomeOf(b, configured, call).Failed?
           then FailureLimiter.Fail(LimiterOf(b), call.finished, Effective(threshold), cooldown) else LimiterOf(b)
    ensures OutcomeOf(b, configured, call).Failed? ==> FailureLimiter.Admits(LimiterOf(b), call.called)
  {
  }

  /** A run without answers drives the breaker exactly like the plain limiter. */
  lemma {:induction false} RunIsLimiter(b: Breaker, threshold: int, cooldown: int, configured: bool, calls: seq<Call>)
    requires Reachable(b, threshold) && Timed(calls) && NoAnswer(b, threshold, cooldown, configured, calls)
    ensures var fs := FailingCalls(b, threshold, cooldown, configured, calls); var t := Effective(threshold);
      && Run(b, threshold, cooldown, configured, calls).failures >= 0
      && LimiterOf(Run(b, threshold, cooldown, configured, calls)) == FailureLimiter.After(LimiterOf(b), fs, t, cooldown)
      && FailureLimiter.Admitted(LimiterOf(b), fs, t, cooldown)
      && (fs != [] ==> calls != [] && fs[|fs| - 1].failed <= calls[|calls| - 1].finished)
  {
    if calls != [] {
      var front, last := calls[..|calls| - 1], calls[|calls| - 1];
      RunIsLimiter(b, threshold, cooldown, configured, front);
      RunReachable(b, threshold, cooldown, configured, front);
      CallIsLimiterStep(Run(b, threshold, cooldown, configured, front), threshold, cooldown, configured, last);
      var fs := FailingCalls(b, threshold, cooldown, configured, front);
      if LastOutcome(b, threshold, cooldown, configured, calls).Failed? {
        var one := FailureLimiter.Failure(last.called, last.finished);
        assert (fs + [one])[..|fs|] == fs && (fs + [one])[|fs|] == one;
      } else {
        assert FailingCalls(b, threshold, cooldown, configured, calls) == fs;
      }
    }
  }

  /** From any reachable state: N failing calls with no answered call between them span at least one
      cooldown per threshold of failures already counted. */
  lemma FailingCallsTakeTime(threshold: int, cooldown: int, configured: bool, before: seq<Call>, calls: seq<Call>)
    requires var b := Run(INITIAL, threshold, cooldown, configured, before);
      && Timed(calls) && NoAnswer(b, threshold, cooldown, configured, calls)
      && FailingCalls(b, threshold, cooldown, configured, calls) != []
    ensures var b := Run(INITIAL, threshold, cooldown, configured, before);
      var fs := FailingCalls(b, threshold, cooldown, configured, calls);
      fs[|fs| - 1].failed - fs[0].called >= cooldown * ((b.failures + |fs| - 1) / Effective(threshold))
  {
    var b := Run(INITIAL, threshold, cooldown, configured, before);
    RunReachable(INITIAL, threshold, cooldown, configured, before);
    RunIsLimiter(b, threshold, cooldown, configured, calls);
    FailureLimiter.SpanLaw(LimiterOf(b), FailingCalls(b, threshold, cooldown, configured, calls), Effective(threshold), cooldown);
  }
}
