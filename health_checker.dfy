/**
 * The health checker: three probes of a model instance and their
 * conjunction. The model instance is an oracle that answers the n-th
 * `predict` call with the n-th scripted answer; the wall clock `time.time`
 * reads around that call are folded into the answer's elapsed time.
 */
module Health {
  import opened Wrappers

  /** What one `predict` call does: raise, or return a result that may carry a `latency` entry. */
  datatype Answer = Raises | Returns(latency: Option<real>, elapsed: real)

  /** A model instance seen from outside: its scripted answers and how many calls it has served. */
  class Predictor {
    const script: nat -> Answer
    var calls: nat

    constructor (script: nat -> Answer)
      ensures this.script == script && calls == 0
    {
      this.script := script;
      calls := 0;
    }

    /** `model.predict(prompt, max_tokens=10)`: the next scripted answer. */
    method Predict() returns (a: Answer)
      modifies this`calls
      ensures calls == old(calls) + 1 && a == script(old(calls))
    {
      a := script(calls);
      calls := calls + 1;
    }
  }

  /** `result.get('latency', 0)`. */
  function LatencyOrZero(a: Answer): real
    requires a.Returns?
  {
    if a.latency.Some? then a.latency.value else 0.0
  }

  /** The number of raising answers among `count` consecutive calls from `first` on. */
  function Raised(script: nat -> Answer, first: nat, count: nat): (n: nat)
    ensures n <= count
    ensures n == 0 <==> forall k :: first <= k < first + count ==> script(k).Returns?
  {
    if count == 0 then 0
    else Raised(script, first, count - 1) + (if script(first + count - 1).Raises? then 1 else 0)
  }

  /** The defaults `comprehensive_check` relies on. */
  const AvailabilityTimeout: real := 5.0
  const ResponseThreshold: real := 2.0
  const ProbeRequests: int := 5
  const MaxProbeErrors: int := 1

  /** What `check_error_rate` raises: `errors / num_requests` with no request made. */
  datatype HealthError = ZeroRequests

  /** The dictionary `comprehensive_check` returns. */
  datatype HealthReport = HealthReport(available: bool, responseTimeOk: bool, errorRateOk: bool, overallHealthy: bool)

  class HealthChecker {
    constructor ()
    {
    }

    /** `check_availability`: true exactly when the call returns within the timeout; a raise is caught. */
    method CheckAvailability(model: Predictor, timeout: real) returns (ok: bool)
      modifies model`calls
      ensures model.calls == old(model.calls) + 1
      ensures var a := model.script(old(model.calls));
        ok <==> a.Returns? && a.elapsed <= timeout
    {
      var answer := model.Predict();
      if answer.Raises? {
        return false;
      }
      if answer.elapsed > timeout {
        return false;
      }
      return true;
    }

    /** `check_response_time`: true exactly when the call returns a latency, 0 if absent, within the threshold. */
    method CheckResponseTime(model: Predictor, threshold: real) returns (ok: bool)
      modifies model`calls
      ensures model.calls == old(model.calls) + 1
      ensures var a := model.script(old(model.calls));
        ok <==> a.Returns? && LatencyOrZero(a) <= threshold
    {
      var answer := model.Predict();
      if answer.Raises? {
        return false;
      }
      var latency := LatencyOrZero(answer);
      if latency > threshold {
        return false;
      }
      return true;
    }

    /**
     * `check_error_rate`: exactly `num_requests` calls (none for a negative
     * count), each raise counted; true iff at most `max_errors` raised.
     * With no request at all the rate divides by zero.
     */
    method CheckErrorRate(model: Predictor, numRequests: int, maxErrors: int) returns (r: Result<bool, HealthError>)
      modifies model`calls
      ensures var n := if numRequests < 0 then 0 else numRequests;
        model.calls == old(model.calls) + n
      ensures numRequests == 0 <==> r.Err?
      ensures r.Ok? ==> var n := if numRequests < 0 then 0 else numRequests;
        r.value <==> Raised(model.script, old(model.calls), n) <= maxErrors
    {
      var first := model.calls;
      var errors := 0;
      var i := 0;
      while i < numRequests
        invariant 0 <= i <= (if numRequests < 0 then 0 else numRequests)
        invariant model.calls == first + i
        invariant errors == Raised(model.script, first, i)
      {
        var answer := model.Predict();
        if answer.Raises? {
          errors := errors + 1;
        }
        i := i + 1;
      }
      if numRequests == 0 {
        return Err(ZeroRequests);
      }
      r := Ok(!(errors > maxErrors));
    }

    /**
     * `comprehensive_check`: availability, then response time, then five
     * error-rate probes, each on the next calls; healthy iff all three pass.
     */
    method ComprehensiveCheck(model: Predictor) returns (report: HealthReport)
      modifies model`calls
      ensures model.calls == old(model.calls) + 7
      ensures var first := old(model.calls);
        && (report.available <==> model.script(first).Returns? && model.script(first).elapsed <= AvailabilityTimeout)
        && (report.responseTimeOk <==> model.script(first + 1).Returns? && LatencyOrZero(model.script(first + 1)) <= ResponseThreshold)
        && (report.errorRateOk <==> Raised(model.script, first + 2, 5) <= MaxProbeErrors)
      ensures report.overallHealthy <==> report.available && report.responseTimeOk && report.errorRateOk
    {
      var available := CheckAvailability(model, AvailabilityTimeout);
      var responseTimeOk := CheckResponseTime(model, ResponseThreshold);
      var errorRate := CheckErrorRate(model, ProbeRequests, MaxProbeErrors);
      report := HealthReport(available, responseTimeOk, errorRate.value, false);
      report := report.(overallHealthy := report.available && report.responseTimeOk && report.errorRateOk);
    }
  }

  /** A single raise among the five probes is tolerated. */
  lemma OneRaiseTolerated(script: nat -> Answer, first: nat, i: nat)
    requires i < 5 && script(first + i).Raises?
    requires forall k :: first <= k < first + 5 && k != first + i ==> script(k).Returns?
    ensures Raised(script, first, 5) <= MaxProbeErrors
  {
    RaisedOnly(script, first, 5, i);
  }

  /** A second raise among the five probes fails the check. */
  lemma TwoRaisesFail(script: nat -> Answer, first: nat, i: nat, j: nat)
    requires i < j < 5 && script(first + i).Raises? && script(first + j).Raises?
    ensures Raised(script, first, 5) > MaxProbeErrors
  {
    RaisedTwo(script, first, 5, i, j);
  }

  /** Exactly one raising call inside the window is counted once. */
  lemma {:induction false} RaisedOnly(script: nat -> Answer, first: nat, count: nat, i: nat)
    requires i < count && script(first + i).Raises?
    requires forall k :: first <= k < first + count && k != first + i ==> script(k).Returns?
    ensures Raised(script, first, count) == 1
    decreases count
  {
    if i < count - 1 {
      RaisedOnly(script, first, count - 1, i);
    } else {
      assert Raised(script, first, count - 1) == 0;
    }
  }

  /** A raising call inside the window is counted. */
  lemma {:induction false} RaisedCounts(script: nat -> Answer, first: nat, count: nat, i: nat)
    requires i < count && script(first + i).Raises?
    ensures Raised(script, first, count) >= 1
    decreases count
  {
    if i < count - 1 {
      RaisedCounts(script, first, count - 1, i);
    }
  }

  /** Two raising calls inside the window are counted twice. */
  lemma {:induction false} RaisedTwo(script: nat -> Answer, first: nat, count: nat, i: nat, j: nat)
    requires i < j < count && script(first + i).Raises? && script(first + j).Raises?
    ensures Raised(script, first, count) >= 2
    decreases count
  {
    if j < count - 1 {
      RaisedTwo(script, first, count - 1, i, j);
    } else {
      RaisedCounts(script, first, count - 1, i);
    }
  }
}
