/** Run-level counters (src/utils/metrics.ts): one mutable record shared by
    every submission, updated in place. */
module Metrics {

  /** A snapshot of the metrics record. */
  datatype MetricsData = MetricsData(
    successCount: nat,
    failureCount: nat,
    retries: map<string, nat>,
    totalSubmissions: nat,
    submissionTimes: seq<int>)

  /** The updates the record undergoes. */
  datatype MetricsUpdate =
    | SuccessRecorded
    | FailureRecorded
    | RetryIncremented(endpointName: string)
    | TimerEnded(duration: int)

  /** The record when the module is loaded. */
  function Initial(): MetricsData
  {
    MetricsData(0, 0, map[], 0, [])
  }

  /** The retry count of an endpoint; an absent entry counts as none. */
  function RetryCount(d: MetricsData, endpointName: string): nat
  {
    if endpointName in d.retries then d.retries[endpointName] else 0
  }

  /** The record after one update. */
  function Apply(d: MetricsData, u: MetricsUpdate): MetricsData
  {
    match u
    case SuccessRecorded => d.(successCount := d.successCount + 1, totalSubmissions := d.totalSubmissions + 1)
    case FailureRecorded => d.(failureCount := d.failureCount + 1, totalSubmissions := d.totalSubmissions + 1)
    case RetryIncremented(name) => d.(retries := d.retries[name := RetryCount(d, name) + 1])
    case TimerEnded(duration) => d.(submissionTimes := d.submissionTimes + [duration])
  }

  /** The record after a sequence of updates, applied in order. */
  function ApplyAll(d: MetricsData, us: seq<MetricsUpdate>): MetricsData
  {
    if us == [] then d else Apply(ApplyAll(d, us[..|us| - 1]), us[|us| - 1])
  }

  /** Every submission outcome is either a success or a failure. */
  predicate Consistent(d: MetricsData) {
    d.totalSubmissions == d.successCount + d.failureCount
  }

  /** No counter of d is above the same counter of e, and e's timings extend d's. */
  predicate NoneDecreased(d: MetricsData, e: MetricsData) {
    && d.successCount <= e.successCount
    && d.failureCount <= e.failureCount
    && d.totalSubmissions <= e.totalSubmissions
    && (forall name :: name in d.retries ==> RetryCount(d, name) <= RetryCount(e, name))
    && d.submissionTimes <= e.submissionTimes
  }

  /** The number of recorded outcomes among the updates. */
  function OutcomeCount(us: seq<MetricsUpdate>): nat
  {
    if us == [] then 0
    else OutcomeCount(us[..|us| - 1]) + (if us[|us| - 1].SuccessRecorded? || us[|us| - 1].FailureRecorded? then 1 else 0)
  }

  /** The number of retry increments of one endpoint among the updates. */
  function IncrementCount(us: seq<MetricsUpdate>, endpointName: string): nat
  {
    if us == [] then 0
    else IncrementCount(us[..|us| - 1], endpointName) + (if us[|us| - 1] == RetryIncremented(endpointName) then 1 else 0)
  }

  /** The number of timings among the updates. */
  function TimerCount(us: seq<MetricsUpdate>): nat
  {
    if us == [] then 0
    else TimerCount(us[..|us| - 1]) + (if us[|us| - 1].TimerEnded? then 1 else 0)
  }

  /** The counts of a concatenation add up. */
  lemma {:induction false} CountsAppend(us: seq<MetricsUpdate>, vs: seq<MetricsUpdate>, name: string)
    ensures OutcomeCount(us + vs) == OutcomeCount(us) + OutcomeCount(vs)
    ensures IncrementCount(us + vs, name) == IncrementCount(us, name) + IncrementCount(vs, name)
    ensures TimerCount(us + vs) == TimerCount(us) + TimerCount(vs)
    decreases |vs|
  {
    if vs == [] {
      assert us + vs == us;
    } else {
      assert (us + vs)[..|us + vs| - 1] == us + vs[..|vs| - 1];
      CountsAppend(us, vs[..|vs| - 1], name);
    }
  }

  /** incrementRetry raises the named endpoint's entry by one (an absent
      entry becomes 1) and leaves every other entry as it was. */
  lemma IncrementRetryEntry(d: MetricsData, name: string, other: string)
    ensures RetryCount(Apply(d, RetryIncremented(name)), name) == RetryCount(d, name) + 1
    ensures name !in d.retries ==> Apply(d, RetryIncremented(name)).retries[name] == 1
    ensures other != name ==> RetryCount(Apply(d, RetryIncremented(name)), other) == RetryCount(d, other)
    ensures other != name ==> (other in Apply(d, RetryIncremented(name)).retries <==> other in d.retries)
  {
  }

  /** Applying two sequences of updates is applying their concatenation. */
  lemma {:induction false} ApplyAllAppend(d: MetricsData, us: seq<MetricsUpdate>, vs: seq<MetricsUpdate>)
    ensures ApplyAll(d, us + vs) == ApplyAll(ApplyAll(d, us), vs)
    decreases |vs|
  {
    if vs == [] {
      assert us + vs == us;
    } else {
      assert (us + vs)[..|us + vs| - 1] == us + vs[..|vs| - 1];
      ApplyAllAppend(d, us, vs[..|vs| - 1]);
    }
  }

  /** Updates keep totalSubmissions equal to successes plus failures, so the
      record stays consistent from its initial state on. */
  lemma {:induction false} ApplyAllConsistent(d: MetricsData, us: seq<MetricsUpdate>)
    requires Consistent(d)
    ensures Consistent(ApplyAll(d, us))
    decreases |us|
  {
    if us != [] {
      ApplyAllConsistent(d, us[..|us| - 1]);
    }
  }

  lemma InitialConsistent(us: seq<MetricsUpdate>)
    ensures Consistent(ApplyAll(Initial(), us))
  {
    ApplyAllConsistent(Initial(), us);
  }

  /** No update lowers a counter or forgets a timing; nothing resets them. */
  lemma {:induction false} NeverDecrease(d: MetricsData, us: seq<MetricsUpdate>)
    ensures NoneDecreased(d, ApplyAll(d, us))
    decreases |us|
  {
    if us != [] {
      var mid := ApplyAll(d, us[..|us| - 1]);
      NeverDecrease(d, us[..|us| - 1]);
      assert NoneDecreased(mid, Apply(mid, us[|us| - 1]));
    }
  }

  /** Each recorded outcome raises successCount + failureCount and
      totalSubmissions by one, each increment raises its endpoint's retry
      count by one, and each timing adds one entry. */
  lemma {:induction false} ApplyAllCounts(d: MetricsData, us: seq<MetricsUpdate>, name: string)
    ensures ApplyAll(d, us).successCount + ApplyAll(d, us).failureCount
         == d.successCount + d.failureCount + OutcomeCount(us)
    ensures ApplyAll(d, us).totalSubmissions == d.totalSubmissions + OutcomeCount(us)
    ensures RetryCount(ApplyAll(d, us), name) == RetryCount(d, name) + IncrementCount(us, name)
    ensures |ApplyAll(d, us).submissionTimes| == |d.submissionTimes| + TimerCount(us)
    decreases |us|
  {
    if us != [] {
      ApplyAllCounts(d, us[..|us| - 1], name);
      var mid := ApplyAll(d, us[..|us| - 1]);
      var u := us[|us| - 1];
      if u.RetryIncremented? {
        IncrementRetryEntry(mid, u.endpointName, name);
      }
    }
  }

  /** The shared metrics record. */
  class RunMetrics {
    var successCount: nat
    var failureCount: nat
    var retries: map<string, nat>
    var totalSubmissions: nat
    var submissionTimes: seq<int>

    function Data(): MetricsData
      reads this
    {
      MetricsData(successCount, failureCount, retries, totalSubmissions, submissionTimes)
    }

    constructor ()
      ensures Data() == Initial()
    {
      successCount := 0;
      failureCount := 0;
      retries := map[];
      totalSubmissions := 0;
      submissionTimes := [];
    }

    /** endTimer: the time since `start` (now stands for Date.now()), recorded
        and returned. */
    method EndTimer(start: int, now: int) returns (duration: int)
      modifies this
      ensures duration == now - start
      ensures Data() == Apply(old(Data()), TimerEnded(now - start))
    {
      duration := now - start;
      submissionTimes := submissionTimes + [duration];
    }

    method RecordSuccess()
      modifies this
      ensures Data() == Apply(old(Data()), SuccessRecorded)
    {
      successCount := successCount + 1;
      totalSubmissions := totalSubmissions + 1;
    }

    method RecordFailure()
      modifies this
      ensures Data() == Apply(old(Data()), FailureRecorded)
    {
      failureCount := failureCount + 1;
      totalSubmissions := totalSubmissions + 1;
    }

    /** incrementRetry: a missing or zero entry is set to 0 first, then the
        entry is raised by one. */
    method IncrementRetry(endpointName: string)
      modifies this
      ensures Data() == Apply(old(Data()), RetryIncremented(endpointName))
    {
      if endpointName !in retries || retries[endpointName] == 0 {
        retries := retries[endpointName := 0];
      }
      retries := retries[endpointName := retries[endpointName] + 1];
    }
  }
}
