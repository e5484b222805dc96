/** The retry loop around a message handler, for any pattern of failures. */
module Worker {
  import opened Rows

  const MAX_ATTEMPTS := 3
  const RETRY_DELAY_SECONDS := 2

  /** What attempt number `i` does: None is success, otherwise the exception it raises. */
  type Attempts = nat -> Option<string>

  /** `NothingToRaise` is Python's complaint about raising None, which happens if no attempt is made. */
  datatype Outcome = Returned | Raised(exc: string) | NothingToRaise

  datatype Step = Called(attempt: nat) | Slept(seconds: nat)

  predicate AllFail(attempts: Attempts, n: nat) { forall i :: 1 <= i <= n ==> attempts(i).Some? }

  /** What is called and slept over `n` calls. */
  function Timeline(n: nat): seq<Step> {
    if n == 0 then []
    else if n == 1 then [Called(1)]
    else Timeline(n - 1) + [Slept(RETRY_DELAY_SECONDS), Called(n)]
  }

  /** One pause between neighbouring calls, none at either end: n calls, n - 1 pauses. */
  lemma {:induction false} PausesBetweenCalls(n: nat)
    requires n >= 1
    ensures |Timeline(n)| == 2 * n - 1
    ensures forall i :: 0 <= i < 2 * n - 1 ==>
      Timeline(n)[i] == if i % 2 == 0 then Called(i / 2 + 1) else Slept(RETRY_DELAY_SECONDS)
  {
    if n > 1 { PausesBetweenCalls(n - 1); }
  }

  method WithRetry(attempts: Attempts, max: nat) returns (outcome: Outcome, calls: nat, steps: seq<Step>)
    ensures outcome.Returned? <==> !AllFail(attempts, max)
    ensures outcome.Returned? ==> 1 <= calls <= max && AllFail(attempts, calls - 1) && attempts(calls) == None
    ensures !outcome.Returned? ==> calls == max
    ensures outcome.Raised? ==> max >= 1 && attempts(max) == Some(outcome.exc)
    ensures outcome.NothingToRaise? <==> max == 0
    ensures steps == Timeline(calls)
  {
    var lastExc := None;
    calls, steps := 0, [];
    for attempt := 1 to max + 1
      invariant calls == attempt - 1 && AllFail(attempts, calls)
      invariant lastExc == if calls == 0 then None else attempts(calls)
      invariant steps == Timeline(calls) + if 1 <= calls < max then [Slept(RETRY_DELAY_SECONDS)] else []
    {
      calls, steps := attempt, steps + [Called(attempt)];
      var result := attempts(attempt);
      if result.None? {
        return Returned, calls, steps;
      }
      lastExc := result;
      if attempt < max {
        steps := steps + [Slept(RETRY_DELAY_SECONDS)];
      }
    }
    outcome := if lastExc.Some? then Raised(lastExc.value) else NothingToRaise;
  }

  function PausesIn(steps: seq<Step>): nat {
    if steps == [] then 0
    else PausesIn(steps[..|steps| - 1]) + if steps[|steps| - 1].Slept? then steps[|steps| - 1].seconds else 0
  }

  lemma {:induction false} TimeSlept(n: nat)
    requires n >= 1
    ensures PausesIn(Timeline(n)) == RETRY_DELAY_SECONDS * (n - 1)
  {
    if n == 1 {
      assert Timeline(1)[..0] == [];
    } else {
      TimeSlept(n - 1);
      var t := Timeline(n);
      assert t[..|t| - 1] == Timeline(n - 1) + [Slept(RETRY_DELAY_SECONDS)];
      assert t[..|t| - 1][..|t| - 2] == Timeline(n - 1);
    }
  }

  /** A subscriber: the message is rejected exactly when three attempts fail, after four seconds of pauses. */
  method Consume(attempts: Attempts) returns (outcome: Outcome, steps: seq<Step>)
    ensures outcome.Returned? || (outcome.Raised? && attempts(3) == Some(outcome.exc))
    ensures outcome.Raised? <==> attempts(1).Some? && attempts(2).Some? && attempts(3).Some?
    ensures outcome.Raised? ==> PausesIn(steps) == 4
    ensures PausesIn(steps) <= 4
  {
    var calls;
    outcome, calls, steps := WithRetry(attempts, MAX_ATTEMPTS);
    TimeSlept(calls);
  }
}
