/** The bounded retry loop with exponential backoff (src/utils/retry.ts).
    The operation being retried is a function from the call number (0 for the
    first call) to what that call yields; the waits and the onRetry hook are
    recorded as events instead of being performed. */
module Retry {
  import opened JsValues

  const UnexpectedExitMessage := "Unexpected retry loop exit"

  /** What the loop does, in order: call the operation (the n-th call), wait
      the given number of milliseconds, fire the onRetry hook before call n. */
  datatype Event = Attempt(n: nat) | Wait(ms: real) | RetryHook(n: nat)

  /** x raised to the k-th power. */
  function Power(x: real, k: nat): real
  {
    if k == 0 then 1.0 else x * Power(x, k - 1)
  }

  /** The wait after failed call k (counting from 0) when another call
      follows: delayMs grown by backoffFactor once per earlier wait. */
  function Delay(k: nat, delayMs: real, backoffFactor: real): real
  {
    delayMs * Power(backoffFactor, k)
  }

  /** The number of the first call from `from` on that succeeds, or `last`
      when none before `last` does. */
  function FirstSuccessFrom<T>(fn: nat -> Result<T>, from: nat, last: nat): (k: nat)
    requires from <= last
    ensures from <= k <= last
    ensures forall j :: from <= j < k ==> fn(j).Err?
    ensures k < last ==> fn(k).Ok?
    decreases last - from
  {
    if from == last || fn(from).Ok? then from else FirstSuccessFrom(fn, from + 1, last)
  }

  /** How many times the loop calls the operation: up to and including the
      first success, at most retries + 1 times, never when retries < 0. */
  function CallCount<T>(fn: nat -> Result<T>, retries: int): nat
  {
    if retries < 0 then 0 else FirstSuccessFrom(fn, 0, retries) + 1
  }

  /** The events of the k-th call: after the first call, the wait that
      followed the previous failure and the hook come before it. */
  function Round(k: nat, delayMs: real, backoffFactor: real): seq<Event>
  {
    if k == 0 then [Attempt(0)]
    else [Wait(Delay(k - 1, delayMs, backoffFactor)), RetryHook(k), Attempt(k)]
  }

  /** The events of a run that makes `calls` calls. */
  function Schedule(calls: nat, delayMs: real, backoffFactor: real): seq<Event>
  {
    if calls == 0 then [] else Schedule(calls - 1, delayMs, backoffFactor) + Round(calls - 1, delayMs, backoffFactor)
  }

  /** The outcome of a retry run: what it returns or throws, how many calls it
      made, and what it did in order. */
  datatype RetryRun<T> = RetryRun(result: Result<T>, calls: nat, events: seq<Event>)

  /** The run retry(fn, retries, delayMs, backoffFactor) performs: the last
      call's outcome is returned or rethrown. */
  function RetrySpec<T>(fn: nat -> Result<T>, retries: int, delayMs: real, backoffFactor: real): RetryRun<T>
  {
    var calls := CallCount(fn, retries);
    RetryRun(if calls == 0 then Err(UnexpectedExitMessage) else fn(calls - 1), calls, Schedule(calls, delayMs, backoffFactor))
  }

  /** FirstSuccessFrom is the only call number with its two properties. */
  lemma FirstSuccessIs<T>(fn: nat -> Result<T>, from: nat, last: nat, k: nat)
    requires from <= k <= last
    requires forall j :: from <= j < k ==> fn(j).Err?
    requires k == last || fn(k).Ok?
    ensures FirstSuccessFrom(fn, from, last) == k
  {
    var f := FirstSuccessFrom(fn, from, last);
    assert f >= k;
    assert f <= k;
  }

  /** retry: calls fn until it succeeds or retries + 1 calls have failed,
      waiting delayMs before the first re-attempt and backoffFactor times as
      long before each later one. */
  method Retry<T>(fn: nat -> Result<T>, retries: int, delayMs: real, backoffFactor: real) returns (run: RetryRun<T>)
    ensures run == RetrySpec(fn, retries, delayMs, backoffFactor)
  {
    var attempt: nat := 0;
    var currentDelay := delayMs;
    var events: seq<Event> := [];
    while attempt <= retries
      invariant attempt == 0 || attempt <= retries
      invariant forall j :: 0 <= j < attempt ==> fn(j).Err?
      invariant currentDelay == Delay(attempt, delayMs, backoffFactor)
      invariant attempt == 0 ==> events == []
      invariant attempt > 0 ==>
        events == Schedule(attempt, delayMs, backoffFactor) + [Wait(Delay(attempt - 1, delayMs, backoffFactor))]
      decreases retries - attempt
    {
      ghost var before := Schedule(attempt, delayMs, backoffFactor);
      if attempt > 0 {
        events := events + [RetryHook(attempt)];
      }
      var outcome := fn(attempt);
      events := events + [Attempt(attempt)];
      if attempt > 0 {
        assert events == before + [Wait(Delay(attempt - 1, delayMs, backoffFactor))] + [RetryHook(attempt)] + [Attempt(attempt)];
      }
      assert events == before + Round(attempt, delayMs, backoffFactor);
      if outcome.Ok? {
        FirstSuccessIs(fn, 0, retries, attempt);
        return RetryRun(outcome, attempt + 1, events);
      }
      attempt := attempt + 1;
      if attempt > retries {
        FirstSuccessIs(fn, 0, retries, attempt - 1);
        return RetryRun(outcome, attempt, events);
      }
      assert events == Schedule(attempt, delayMs, backoffFactor);
      events := events + [Wait(currentDelay)];
      currentDelay := currentDelay * backoffFactor;
      assert currentDelay == delayMs * (Power(backoffFactor, attempt - 1) * backoffFactor);
    }
    return RetryRun(Err(UnexpectedExitMessage), 0, events);
  }

  // ---------------------------------------------------------------------------
  // Calls and result

  /** fn is called at least once and at most retries + 1 times when
      retries >= 0, and never otherwise, in which case the loop's final throw
      is reached. */
  lemma CallBounds<T>(fn: nat -> Result<T>, retries: int, delayMs: real, backoffFactor: real)
    ensures var run := RetrySpec(fn, retries, delayMs, backoffFactor);
      && (retries >= 0 ==> 1 <= run.calls <= retries + 1)
      && (retries < 0 <==> run.calls == 0)
      && (retries < 0 ==> run.result == Err(UnexpectedExitMessage) && run.events == [])
  {
  }

  /** Every call before the last one failed, and the last one's outcome is
      what retry returns or rethrows: no call follows a success. */
  lemma StopsAtFirstSuccess<T>(fn: nat -> Result<T>, retries: int, delayMs: real, backoffFactor: real)
    ensures var run := RetrySpec(fn, retries, delayMs, backoffFactor);
      && (forall j :: 0 <= j < run.calls - 1 ==> fn(j).Err?)
      && (run.calls > 0 ==> run.result == fn(run.calls - 1))
      && (run.result.Ok? ==> run.calls > 0)
  {
  }

  /** A success at call k within the budget, after k failures, ends the loop
      with k + 1 calls and returns that success. */
  lemma SuccessAt<T>(fn: nat -> Result<T>, retries: int, delayMs: real, backoffFactor: real, k: nat)
    requires k <= retries && fn(k).Ok?
    requires forall j :: 0 <= j < k ==> fn(j).Err?
    ensures RetrySpec(fn, retries, delayMs, backoffFactor).calls == k + 1
    ensures RetrySpec(fn, retries, delayMs, backoffFactor).result == fn(k)
  {
    FirstSuccessIs(fn, 0, retries, k);
  }

  /** When all retries + 1 calls fail, the error of the last call is rethrown. */
  lemma Exhausted<T>(fn: nat -> Result<T>, retries: nat, delayMs: real, backoffFactor: real)
    requires forall j :: 0 <= j <= retries ==> fn(j).Err?
    ensures RetrySpec(fn, retries, delayMs, backoffFactor).calls == retries + 1
    ensures RetrySpec(fn, retries, delayMs, backoffFactor).result == Err(fn(retries).error)
  {
    FirstSuccessIs(fn, 0, retries, retries);
  }

  /** retry succeeds exactly when one of the first retries + 1 calls does. */
  lemma SucceedsIff<T>(fn: nat -> Result<T>, retries: int, delayMs: real, backoffFactor: real)
    ensures RetrySpec(fn, retries, delayMs, backoffFactor).result.Ok? <==>
      exists k :: 0 <= k <= retries && fn(k).Ok?
  {
    if exists k :: 0 <= k <= retries && fn(k).Ok? {
      var k :| 0 <= k <= retries && fn(k).Ok?;
      var f := FirstSuccessFrom(fn, 0, retries);
      assert f <= k;
    }
  }

  /** Two failures and then a success with retries = 2: three calls, the
      success returned, the hook fired twice. */
  lemma TwoFailuresThenSuccess<T>(fn: nat -> Result<T>, delayMs: real, backoffFactor: real)
    requires fn(0).Err? && fn(1).Err? && fn(2).Ok?
    ensures RetrySpec(fn, 2, delayMs, backoffFactor).calls == 3
    ensures RetrySpec(fn, 2, delayMs, backoffFactor).result == fn(2)
    ensures RetrySpec(fn, 2, delayMs, backoffFactor).events == [
      Attempt(0), Wait(delayMs), RetryHook(1), Attempt(1),
      Wait(delayMs * backoffFactor), RetryHook(2), Attempt(2)]
  {
    SuccessAt(fn, 2, delayMs, backoffFactor, 2);
    assert Delay(0, delayMs, backoffFactor) == delayMs;
    assert Power(backoffFactor, 1) == backoffFactor;
    assert Delay(1, delayMs, backoffFactor) == delayMs * backoffFactor;
    assert Schedule(1, delayMs, backoffFactor) == [Attempt(0)];
    assert Schedule(2, delayMs, backoffFactor) == [Attempt(0), Wait(delayMs), RetryHook(1), Attempt(1)];
  }

  // ---------------------------------------------------------------------------
  // The order of events

  /** The numbers of the calls, in order. */
  function AttemptsOf(events: seq<Event>): seq<nat>
  {
    if events == [] then []
    else (if events[0].Attempt? then [events[0].n] else []) + AttemptsOf(events[1..])
  }

  /** The call numbers the hook fired before, in order. */
  function HooksOf(events: seq<Event>): seq<nat>
  {
    if events == [] then []
    else (if events[0].RetryHook? then [events[0].n] else []) + HooksOf(events[1..])
  }

  /** The waits, in order. */
  function WaitsOf(events: seq<Event>): seq<real>
  {
    if events == [] then []
    else (if events[0].Wait? then [events[0].ms] else []) + WaitsOf(events[1..])
  }

  lemma {:induction false} AttemptsAppend(a: seq<Event>, b: seq<Event>)
    ensures AttemptsOf(a + b) == AttemptsOf(a) + AttemptsOf(b)
    decreases |a|
  {
    if a == [] {
      assert a + b == b;
    } else {
      assert (a + b)[0] == a[0];
      assert (a + b)[1..] == a[1..] + b;
      AttemptsAppend(a[1..], b);
      assert AttemptsOf(a + b) == (if a[0].Attempt? then [a[0].n] else []) + AttemptsOf(a[1..] + b);
    }
  }

  lemma {:induction false} HooksAppend(a: seq<Event>, b: seq<Event>)
    ensures HooksOf(a + b) == HooksOf(a) + HooksOf(b)
    decreases |a|
  {
    if a == [] {
      assert a + b == b;
    } else {
      assert (a + b)[0] == a[0];
      assert (a + b)[1..] == a[1..] + b;
      HooksAppend(a[1..], b);
      assert HooksOf(a + b) == (if a[0].RetryHook? then [a[0].n] else []) + HooksOf(a[1..] + b);
    }
  }

  lemma {:induction false} WaitsAppend(a: seq<Event>, b: seq<Event>)
    ensures WaitsOf(a + b) == WaitsOf(a) + WaitsOf(b)
    decreases |a|
  {
    if a == [] {
      assert a + b == b;
    } else {
      assert (a + b)[0] == a[0];
      assert (a + b)[1..] == a[1..] + b;
      WaitsAppend(a[1..], b);
      assert WaitsOf(a + b) == (if a[0].Wait? then [a[0].ms] else []) + WaitsOf(a[1..] + b);
    }
  }

  /** The events of the k-th call, projected. */
  lemma RoundProjections(k: nat, delayMs: real, backoffFactor: real)
    ensures AttemptsOf(Round(k, delayMs, backoffFactor)) == [k]
    ensures HooksOf(Round(k, delayMs, backoffFactor)) == if k == 0 then [] else [k]
    ensures WaitsOf(Round(k, delayMs, backoffFactor)) == if k == 0 then [] else [Delay(k - 1, delayMs, backoffFactor)]
  {
    var r := Round(k, delayMs, backoffFactor);
    if k == 0 {
      assert r[1..] == [];
    } else {
      var w, h, a := Wait(Delay(k - 1, delayMs, backoffFactor)), RetryHook(k), Attempt(k);
      assert r == [w] + ([h] + [a]);
      assert AttemptsOf([a]) == [k] && HooksOf([a]) == [] && WaitsOf([a]) == [];
      assert AttemptsOf([h]) == [] && HooksOf([h]) == [k] && WaitsOf([h]) == [];
      assert AttemptsOf([w]) == [] && HooksOf([w]) == [] && WaitsOf([w]) == [w.ms];
      AttemptsAppend([h], [a]);
      HooksAppend([h], [a]);
      WaitsAppend([h], [a]);
      AttemptsAppend([w], [h] + [a]);
      HooksAppend([w], [h] + [a]);
      WaitsAppend([w], [h] + [a]);
    }
  }

  /** The calls are numbered 0, 1, …; the hook fires before every call but
      the first, so it fires one time fewer than fn is called; and the wait
      after the k-th failed call (counting from 1) is delayMs times
      backoffFactor to the power k - 1. */
  lemma {:induction false} ScheduleProjections(calls: nat, delayMs: real, backoffFactor: real)
    ensures var s := Schedule(calls, delayMs, backoffFactor);
      && |AttemptsOf(s)| == calls
      && (forall k :: 0 <= k < calls ==> AttemptsOf(s)[k] == k)
      && |HooksOf(s)| == |WaitsOf(s)| == (if calls == 0 then 0 else calls - 1)
      && (forall k :: 0 <= k < |HooksOf(s)| ==> HooksOf(s)[k] == k + 1)
      && (forall k :: 0 <= k < |WaitsOf(s)| ==> WaitsOf(s)[k] == Delay(k, delayMs, backoffFactor))
  {
    if calls > 0 {
      var prev := Schedule(calls - 1, delayMs, backoffFactor);
      var round := Round(calls - 1, delayMs, backoffFactor);
      ScheduleProjections(calls - 1, delayMs, backoffFactor);
      RoundProjections(calls - 1, delayMs, backoffFactor);
      AttemptsAppend(prev, round);
      HooksAppend(prev, round);
      WaitsAppend(prev, round);
    }
  }

  /** The hook fires immediately before every call after the first, and the
      first event of a run that calls fn at all is the first call. */
  lemma {:induction false} HookPrecedesAttempt(calls: nat, delayMs: real, backoffFactor: real)
    ensures var s := Schedule(calls, delayMs, backoffFactor);
      && (calls > 0 ==> s[0] == Attempt(0))
      && (forall i :: 0 < i < |s| && s[i].Attempt? ==> s[i].n > 0 && s[i - 1] == RetryHook(s[i].n))
  {
    if calls > 0 {
      HookPrecedesAttempt(calls - 1, delayMs, backoffFactor);
      var prev := Schedule(calls - 1, delayMs, backoffFactor);
      var round := Round(calls - 1, delayMs, backoffFactor);
      var s := Schedule(calls, delayMs, backoffFactor);
      assert s == prev + round;
      forall i | 0 < i < |s| && s[i].Attempt?
        ensures s[i].n > 0 && s[i - 1] == RetryHook(s[i].n)
      {
        if i < |prev| {
          assert s[i] == prev[i] && s[i - 1] == prev[i - 1];
        } else {
          assert calls - 1 > 0 && i == |prev| + 2 by {
            assert s[i] == round[i - |prev|];
          }
          assert s[i] == Attempt(calls - 1) && s[i - 1] == RetryHook(calls - 1);
        }
      }
    }
  }
}
