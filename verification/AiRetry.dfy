/** The retry loop of the AI worker, for every sequence of provider outcomes. */
module AiRetry {
  import opened Outcomes

  datatype Status = RUNNING | SUCCEEDED | FAILED | TIMED_OUT

  datatype ProviderError = ProviderError(code: string, retryable: bool)

  /**
   How one attempt ends: the request row is gone; an answer is stored; the timeout aborts the
   call; the provider reports an error; anything else is thrown (a failing database included).
   */
  datatype Attempt = Gone | Answered | Aborted | Refused(error: ProviderError) | Threw

  /** What the worker leaves behind. */
  datatype Run = Run(status: Status, errorCode: Option<string>, attempts: nat, retries: nat, waitedMs: nat)

  /** The error recorded for a failed attempt. */
  function ErrorOf(a: Attempt): ProviderError
    requires !a.Gone? && !a.Answered?
  {
    match a
    case Aborted => ProviderError("AI_TIMEOUT", true)
    case Refused(e) => e
    case Threw => ProviderError("AI_PROVIDER_UNEXPECTED", true)
  }

  predicate FailsRetryably(a: Attempt) {
    !a.Gone? && !a.Answered? && ErrorOf(a).retryable
  }

  function FinalStatus(e: ProviderError): Status {
    if e.code == "AI_TIMEOUT" then TIMED_OUT else FAILED
  }

  /**
   The run records this last failure: an aborted call, or a provider error with the same code, is a
   timeout; every other failure is FAILED under its own code.
   */
  predicate EndsWith(run: Run, last: Attempt) {
    match last
    case Aborted => run.status == TIMED_OUT && run.errorCode == Some("AI_TIMEOUT")
    case Threw => run.status == FAILED && run.errorCode == Some("AI_PROVIDER_UNEXPECTED")
    case Refused(e) => run.errorCode == Some(e.code) && run.status == (if e.code == "AI_TIMEOUT" then TIMED_OUT else FAILED)
    case _ => false
  }

  /** Aborted calls and unexpected errors are tried again; a provider error says itself whether to. */
  lemma RetriedFailures(a: Attempt)
    ensures FailsRetryably(a) <==> a == Aborted || a == Threw || (a.Refused? && a.error.retryable)
  {
  }

  function Pow2(n: nat): (p: nat)
    ensures p >= 1
  {
    if n == 0 then 1 else 2 * Pow2(n - 1)
  }

  function Min(a: nat, b: nat): nat {
    if a <= b then a else b
  }

  /** Total backoff after r retries, in closed form. */
  function BackoffTotal(r: nat): nat {
    if r <= 3 then 1000 * (Pow2(r) - 1) else 7000 + 8000 * (r - 3)
  }

  lemma {:induction false} Pow2AtLeast8(n: nat)
    requires n >= 3
    ensures Pow2(n) >= 8
  {
    if n > 3 {
      Pow2AtLeast8(n - 1);
    } else {
      assert Pow2(3) == 2 * Pow2(2) == 4 * Pow2(1) == 8 * Pow2(0);
    }
  }

  lemma BackoffStep(r: nat)
    ensures BackoffTotal(r + 1) == BackoffTotal(r) + Min(1000 * Pow2(r), 8000)
  {
    assert Pow2(3) == 2 * Pow2(2) == 4 * Pow2(1) == 8 * Pow2(0);
    if r >= 3 {
      Pow2AtLeast8(r);
    }
  }

  /** The delays are 1, 2, 4 and then always 8 seconds. */
  lemma BackoffSeconds(r: nat)
    ensures BackoffTotal(0) == 0
    ensures BackoffTotal(r + 1) - BackoffTotal(r) == if r == 0 then 1000 else if r == 1 then 2000 else if r == 2 then 4000 else 8000
  {
    assert Pow2(0) == 1 && Pow2(1) == 2 && Pow2(2) == 4 && Pow2(3) == 8;
  }

  /** `r` attempts failed retryably and attempt number r is the first that did not. */
  ghost predicate DecidedAt(provider: nat -> Attempt, r: nat) {
    && (forall i :: 0 <= i < r ==> FailsRetryably(provider(i)))
    && !FailsRetryably(provider(r))
  }

  /**
   `provider(i)` is the outcome of attempt i. `maxRetries` is any non-negative number the
   settings table holds, whole or not.
   */
  method ProcessInBackground(provider: nat -> Attempt, maxRetries: real) returns (run: Run)
    requires maxRetries >= 0.0
    ensures 1 <= run.attempts && (run.attempts - 1) as real <= maxRetries
    ensures run.waitedMs == BackoffTotal(run.retries)
    // whole limits: one retry before every attempt but the first
    ensures maxRetries.Floor as real == maxRetries ==> run.retries == run.attempts - 1
    ensures run.attempts - 1 <= run.retries <= run.attempts
    ensures run.status == SUCCEEDED <==>
              exists r: nat :: r as real <= maxRetries && DecidedAt(provider, r) && provider(r).Answered?
    // an allowed attempt decides, after only retryable failures
    ensures forall r: nat :: r as real <= maxRetries && DecidedAt(provider, r) ==>
              && run.attempts == r + 1 && run.retries == r
              && (provider(r).Answered? ==> run.status == SUCCEEDED && run.errorCode == None)
              && (provider(r).Gone? ==> run.status == RUNNING && run.errorCode == None)
              && (!provider(r).Answered? && !provider(r).Gone? ==> EndsWith(run, provider(r)))
    // no allowed attempt decides: all of them failed retryably
    ensures (forall r: nat :: r as real <= maxRetries ==> FailsRetryably(provider(r))) ==>
              && run.attempts == maxRetries.Floor + 1
              && EndsWith(run, provider(maxRetries.Floor))
  {
    var attempt: nat := 0;
    var waited := 0;
    var lastError: Option<ProviderError> := None;
    while attempt as real <= maxRetries
      invariant attempt as real <= maxRetries + 1.0
      invariant waited == BackoffTotal(attempt)
      invariant forall i :: 0 <= i < attempt ==> FailsRetryably(provider(i))
      invariant attempt > 0 ==> lastError == Some(ErrorOf(provider(attempt - 1)))
      invariant attempt > 0 && attempt as real > maxRetries ==> maxRetries.Floor as real != maxRetries
      decreases maxRetries.Floor + 1 - attempt
    {
      var outcome := provider(attempt);
      if outcome.Gone? {
        return Run(RUNNING, None, attempt + 1, attempt, waited);
      }
      if outcome.Answered? {
        assert DecidedAt(provider, attempt);
        return Run(SUCCEEDED, None, attempt + 1, attempt, waited);
      }
      lastError := Some(ErrorOf(outcome));
      if !lastError.value.retryable || attempt as real == maxRetries {
        return Run(FinalStatus(lastError.value), Some(lastError.value.code), attempt + 1, attempt, waited);
      }
      BackoffStep(attempt);
      attempt := attempt + 1;
      waited := waited + Min(1000 * Pow2(attempt - 1), 8000);
    }
    assert attempt == maxRetries.Floor + 1;
    return Run(FinalStatus(lastError.value), Some(lastError.value.code), attempt, attempt, waited);
  }

  /** Every run is decided at one allowed attempt or exhausts them all: the two cases of the contract above. */
  lemma {:induction false} DecidedOrExhausted(provider: nat -> Attempt, limit: nat)
    ensures (exists r: nat :: r <= limit && DecidedAt(provider, r))
            <==> !(forall r: nat :: r <= limit ==> FailsRetryably(provider(r)))
  {
    if exists r: nat :: r <= limit && DecidedAt(provider, r) {
      var r: nat :| r <= limit && DecidedAt(provider, r);
      assert !FailsRetryably(provider(r));
    }
    if limit > 0 {
      DecidedOrExhausted(provider, limit - 1);
    }
    if (forall r: nat :: r < limit ==> FailsRetryably(provider(r))) && !FailsRetryably(provider(limit)) {
      assert DecidedAt(provider, limit);
    }
  }
}
