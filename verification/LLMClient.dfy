/** The LLM client: a budget gate, then retries with exponential backoff, then a fallback provider. */
module LLMClient {
  import opened Text
  import opened Domain

  /** What one provider call does; a fault also says whether the context ended during it or during the backoff. */
  datatype Attempt =
    | Answer(completion: Completion)
    | Fault(cancelled: bool, cancelledInBackoff: bool)

  datatype Gate = NoChecker | CheckError | Verdict(allowed: bool)

  /** Everything outside the client that one Complete call meets; providers are indexed by attempt. */
  datatype CallEnv = CallEnv(gate: Gate, primary: nat -> Attempt, fallback: nat -> Attempt)

  /** maxRetries is 3 in both constructors. */
  datatype Client = Client(maxRetries: nat, hasFallback: bool)

  /** The outcome, the number of provider calls, and the seconds of backoff requested. */
  datatype Tried = Tried(result: Result<Completion, LLMError>, calls: nat, slept: nat)

  function Pow2(n: nat): (p: nat)
    ensures p >= 1
  {
    if n == 0 then 1 else 2 * Pow2(n - 1)
  }

  /** The retry loop from a given attempt on. */
  function Retry(maxRetries: nat, provider: nat -> Attempt, attempt: nat): Tried
    requires attempt <= maxRetries
    decreases maxRetries - attempt
  {
    match provider(attempt)
    case Answer(c) => Tried(Ok(c), 1, 0)
    case Fault(cancelled, cancelledInBackoff) =>
      if cancelled then Tried(Err(Cancelled), 1, 0)
      else if attempt == maxRetries then Tried(Err(ProviderFailed(attempt)), 1, 0)
      else if cancelledInBackoff then Tried(Err(Cancelled), 1, Pow2(attempt))
      else
        var rest := Retry(maxRetries, provider, attempt + 1);
        Tried(rest.result, rest.calls + 1, rest.slept + Pow2(attempt))
  }

  method CallWithRetry(maxRetries: nat, provider: nat -> Attempt) returns (t: Tried)
    ensures t == Retry(maxRetries, provider, 0)
  {
    var lastErr, calls: nat, slept: nat := Cancelled, 0, 0;
    var attempt := 0;
    while attempt <= maxRetries
      invariant 0 <= attempt <= maxRetries + 1
      invariant attempt <= maxRetries ==>
          var rest := Retry(maxRetries, provider, attempt);
          Retry(maxRetries, provider, 0) == Tried(rest.result, calls + rest.calls, slept + rest.slept)
      invariant attempt > maxRetries ==> Retry(maxRetries, provider, 0) == Tried(Err(lastErr), calls, slept)
    {
      var reply := provider(attempt);
      calls := calls + 1;
      if reply.Answer? {
        return Tried(Ok(reply.completion), calls, slept);
      }
      lastErr := ProviderFailed(attempt);
      if reply.cancelled {
        return Tried(Err(Cancelled), calls, slept);
      }
      if attempt < maxRetries {
        slept := slept + Pow2(attempt);
        if reply.cancelledInBackoff {
          return Tried(Err(Cancelled), calls, slept);
        }
      }
      attempt := attempt + 1;
    }
    return Tried(Err(lastErr), calls, slept);
  }

  /**
   * One provider is called at most maxRetries + 1 times; every call but the last failed, the last
   * one decides the result; and the requested backoff is at most 2^maxRetries - 1 seconds.
   */
  lemma {:induction false} RetryBounds(maxRetries: nat, provider: nat -> Attempt, attempt: nat)
    requires attempt <= maxRetries
    ensures var t := Retry(maxRetries, provider, attempt);
            var last := attempt + t.calls - 1;
            && 1 <= t.calls <= maxRetries + 1 - attempt
            && t.slept + Pow2(attempt) <= Pow2(maxRetries)
            && (forall i :: attempt <= i < last ==> provider(i).Fault? && !provider(i).cancelled)
            && (t.result.Ok? <==> provider(last).Answer?)
            && (t.result.Ok? ==> t.result.value == provider(last).completion)
            && (t.result.Err? && t.result.error.ProviderFailed? ==> last == maxRetries)
    decreases maxRetries - attempt
  {
    Pow2Grows(attempt, maxRetries);
    if attempt < maxRetries {
      Pow2Grows(attempt + 1, maxRetries);
      RetryBounds(maxRetries, provider, attempt + 1);
    }
  }

  lemma {:induction false} Pow2Grows(m: nat, n: nat)
    requires m <= n
    ensures Pow2(m) <= Pow2(n)
  {
    if m < n {
      Pow2Grows(m, n - 1);
    }
  }

  /** The context ends in the attempt, or in the backoff that follows it if it is not the last. */
  predicate CancelsAt(maxRetries: nat, provider: nat -> Attempt, k: nat) {
    provider(k).Fault? && (provider(k).cancelled || (k < maxRetries && provider(k).cancelledInBackoff))
  }

  /** The attempt after which nothing more is tried. */
  predicate StopsAt(maxRetries: nat, provider: nat -> Attempt, k: nat) {
    provider(k).Answer? || CancelsAt(maxRetries, provider, k) || k == maxRetries
  }

  /** The backoff in which the context ended. */
  function OwnBackoff(maxRetries: nat, provider: nat -> Attempt, k: nat): nat {
    if CancelsAt(maxRetries, provider, k) && !provider(k).cancelled then Pow2(k) else 0
  }

  /** The answer of the attempt, or why nothing more was tried. */
  function Ending(maxRetries: nat, provider: nat -> Attempt, k: nat): Result<Completion, LLMError> {
    match provider(k)
    case Answer(c) => Ok(c)
    case Fault(_, _) => Err(if CancelsAt(maxRetries, provider, k) then Cancelled else ProviderFailed(maxRetries))
  }

  lemma {:induction false} RetryStopsFrom(maxRetries: nat, provider: nat -> Attempt, attempt: nat, k: nat)
    requires attempt <= k <= maxRetries && StopsAt(maxRetries, provider, k)
    requires forall i :: attempt <= i < k ==> !StopsAt(maxRetries, provider, i)
    ensures var t := Retry(maxRetries, provider, attempt);
            && t.calls == k + 1 - attempt
            && t.slept == Pow2(k) - Pow2(attempt) + OwnBackoff(maxRetries, provider, k)
            && t.result == Ending(maxRetries, provider, k)
    decreases k - attempt
  {
    if attempt < k {
      assert !StopsAt(maxRetries, provider, attempt);
      RetryStopsFrom(maxRetries, provider, attempt + 1, k);
    }
  }

  /**
   * What the retry loop does, said of the attempts alone. With k the first attempt that answers, is
   * cancelled, or is the last: k + 1 calls; the answer, or Cancelled, or the last fault; and a backoff of
   * 2^k - 1 seconds, with 2^k more if the context ended in that attempt's own backoff.
   */
  lemma {:induction false} RetryStopsAtFirst(maxRetries: nat, provider: nat -> Attempt, k: nat)
    requires k <= maxRetries && StopsAt(maxRetries, provider, k)
    requires forall i :: 0 <= i < k ==> !StopsAt(maxRetries, provider, i)
    ensures var t := Retry(maxRetries, provider, 0);
            && t.calls == k + 1
            && t.slept == Pow2(k) - 1 + OwnBackoff(maxRetries, provider, k)
            && t.result == Ending(maxRetries, provider, k)
  {
    RetryStopsFrom(maxRetries, provider, 0, k);
  }

  lemma {:induction false} FirstStop(maxRetries: nat, provider: nat -> Attempt, from: nat) returns (k: nat)
    requires from <= maxRetries
    ensures from <= k <= maxRetries && StopsAt(maxRetries, provider, k)
    ensures forall i :: from <= i < k ==> !StopsAt(maxRetries, provider, i)
    decreases maxRetries - from
  {
    k := from;
    if !StopsAt(maxRetries, provider, from) {
      k := FirstStop(maxRetries, provider, from + 1);
    }
  }

  /** The first answer among the attempts allowed. */
  predicate FirstAnswer(maxRetries: nat, provider: nat -> Attempt, k: nat, c: Completion) {
    k <= maxRetries && provider(k) == Answer(c) && forall i :: 0 <= i < k ==> provider(i).Fault?
  }

  /** No attempt allowed ends with the context. */
  predicate Undisturbed(maxRetries: nat, provider: nat -> Attempt) {
    forall i :: 0 <= i <= maxRetries ==> !CancelsAt(maxRetries, provider, i)
  }

  /** Undisturbed, the loop succeeds if and only if some attempt answers, with the first such answer. */
  lemma {:induction false} RetrySucceedsIff(maxRetries: nat, provider: nat -> Attempt)
    requires Undisturbed(maxRetries, provider)
    ensures var t := Retry(maxRetries, provider, 0);
            && (t.result.Ok? <==> exists i :: 0 <= i <= maxRetries && provider(i).Answer?)
            && (forall k: nat, c :: FirstAnswer(maxRetries, provider, k, c) ==> t == Tried(Ok(c), k + 1, Pow2(k) - 1))
            && (t.result.Err? ==> t == Tried(Err(ProviderFailed(maxRetries)), maxRetries + 1, Pow2(maxRetries) - 1))
  {
    hide Retry, Pow2;
    var k := FirstStop(maxRetries, provider, 0);
    RetryStopsAtFirst(maxRetries, provider, k);
    assert !CancelsAt(maxRetries, provider, k);
    forall i | 0 <= i <= maxRetries && provider(i).Answer? ensures k <= i && provider(k).Answer? {
      assert StopsAt(maxRetries, provider, i);
    }
    forall k': nat, c | FirstAnswer(maxRetries, provider, k', c) ensures k' == k && provider(k) == Answer(c) {
      assert StopsAt(maxRetries, provider, k');
    }
  }

  /** The loop reports Cancelled only because the context ended in an attempt or its backoff. */
  lemma {:induction false} CancelledOnlyIfCancelled(maxRetries: nat, provider: nat -> Attempt)
    requires Retry(maxRetries, provider, 0).result == Err(Cancelled)
    ensures exists k :: 0 <= k <= maxRetries && CancelsAt(maxRetries, provider, k)
  {
    hide Retry, Pow2;
    var k := FirstStop(maxRetries, provider, 0);
    RetryStopsAtFirst(maxRetries, provider, k);
  }

  /** The backoff doubles from one second: with three retries that all fail, seven seconds in all. */
  lemma {:induction false} BackoffDoubles()
    ensures Pow2(0) == 1 && Pow2(1) == 2 && Pow2(2) == 4 && Pow2(3) == 8
    ensures forall n: nat :: Pow2(n + 1) == 2 * Pow2(n)
  {
  }

  function Providers(client: Client): nat {
    if client.hasFallback then 2 else 1
  }

  /** One Complete call. */
  function CompleteSpec(client: Client, env: CallEnv): Tried {
    if env.gate.CheckError? then Tried(Err(BudgetCheckFailed), 0, 0)
    else if env.gate.Verdict? && !env.gate.allowed then Tried(Err(BudgetExceeded), 0, 0)
    else
      var p := Retry(client.maxRetries, env.primary, 0);
      if p.result.Ok? || !client.hasFallback then p
      else
        var f := Retry(client.maxRetries, env.fallback, 0);
        Tried(if f.result.Ok? then f.result else Err(AllProvidersFailed(p.result.error, f.result.error)),
              p.calls + f.calls, p.slept + f.slept)
  }

  method Complete(client: Client, env: CallEnv) returns (t: Tried)
    ensures t == CompleteSpec(client, env)
  {
    if env.gate.CheckError? {
      return Tried(Err(BudgetCheckFailed), 0, 0);
    }
    if env.gate.Verdict? && !env.gate.allowed {
      return Tried(Err(BudgetExceeded), 0, 0);
    }
    t := CallWithRetry(client.maxRetries, env.primary);
    if t.result.Ok? || !client.hasFallback {
      return;
    }
    var f := CallWithRetry(client.maxRetries, env.fallback);
    var result := if f.result.Ok? then f.result else Err(AllProvidersFailed(t.result.error, f.result.error));
    return Tried(result, t.calls + f.calls, t.slept + f.slept);
  }

  /**
   * No provider is called when the gate refuses; otherwise at most maxRetries + 1 calls go to each
   * configured provider, the fallback only after the primary failed, and a success is the answer of
   * the last call made.
   */
  lemma {:induction false} CompleteBounds(client: Client, env: CallEnv)
    ensures var t := CompleteSpec(client, env);
            var refused := env.gate.CheckError? || (env.gate.Verdict? && !env.gate.allowed);
            var n := Retry(client.maxRetries, env.primary, 0).calls;
            && (refused <==> t.calls == 0)
            && (refused <==> t.result.Err? && (t.result.error == BudgetExceeded || t.result.error == BudgetCheckFailed))
            && t.calls <= (client.maxRetries + 1) * Providers(client)
            && t.slept <= (Pow2(client.maxRetries) - 1) * Providers(client)
            && (t.result.Ok? && t.calls <= n ==> env.primary(t.calls - 1) == Answer(t.result.value))
            && (t.calls > n ==> client.hasFallback && !env.primary(n - 1).Answer?)
            && (t.result.Ok? && t.calls > n ==> env.fallback(t.calls - n - 1) == Answer(t.result.value))
  {
    hide Retry, Pow2;
    RetryBounds(client.maxRetries, env.primary, 0);
    RetryBounds(client.maxRetries, env.fallback, 0);
    RetryErrors(client.maxRetries, env.primary, 0);
    FirstBackoff();
  }

  lemma {:induction false} FirstBackoff()
    ensures Pow2(0) == 1
  {
  }

  lemma {:induction false} RetryErrors(maxRetries: nat, provider: nat -> Attempt, attempt: nat)
    requires attempt <= maxRetries
    ensures var r := Retry(maxRetries, provider, attempt).result;
            r.Err? ==> r.error == Cancelled || r.error.ProviderFailed?
    decreases maxRetries - attempt
  {
    if attempt < maxRetries {
      RetryErrors(maxRetries, provider, attempt + 1);
    }
  }

  /** The gate lets the call through. */
  predicate Passes(gate: Gate) {
    gate.NoChecker? || gate == Verdict(true)
  }

  /**
   * What one call does. A refused or failed check is told apart and calls no provider. Otherwise the
   * fallback is tried if and only if one is configured and the primary ended in an error; it starts over
   * with all its retries; and only if both fail does the caller see both errors.
   */
  lemma {:induction false} CompleteFallsBackIff(client: Client, env: CallEnv)
    ensures var t := CompleteSpec(client, env);
            var p, f := Retry(client.maxRetries, env.primary, 0), Retry(client.maxRetries, env.fallback, 0);
            && (env.gate == CheckError ==> t == Tried(Err(BudgetCheckFailed), 0, 0))
            && (env.gate == Verdict(false) ==> t == Tried(Err(BudgetExceeded), 0, 0))
            && (Passes(env.gate) ==>
                  && (t.calls > p.calls <==> client.hasFallback && p.result.Err?)
                  && (t.calls > p.calls ==> t.calls == p.calls + f.calls && t.slept == p.slept + f.slept)
                  && (t.calls == p.calls ==> t.result == p.result && t.slept == p.slept)
                  && (t.result.Ok? <==> p.result.Ok? || (client.hasFallback && f.result.Ok?))
                  && (p.result.Err? && client.hasFallback ==>
                        if f.result.Ok? then t.result == f.result
                        else t.result == Err(AllProvidersFailed(p.result.error, f.result.error))))
  {
    hide Retry, Pow2;
    RetryBounds(client.maxRetries, env.primary, 0);
    RetryBounds(client.maxRetries, env.fallback, 0);
  }

  /** Undisturbed and let through, a call succeeds if and only if some attempt at a configured provider answers. */
  lemma {:induction false} CompleteSucceedsIff(client: Client, env: CallEnv)
    requires Passes(env.gate) && Undisturbed(client.maxRetries, env.primary)
    requires Undisturbed(client.maxRetries, env.fallback)
    ensures CompleteSpec(client, env).result.Ok? <==>
            || (exists i :: 0 <= i <= client.maxRetries && env.primary(i).Answer?)
            || (client.hasFallback && exists i :: 0 <= i <= client.maxRetries && env.fallback(i).Answer?)
    ensures forall k: nat, c :: FirstAnswer(client.maxRetries, env.primary, k, c) ==>
              CompleteSpec(client, env) == Tried(Ok(c), k + 1, Pow2(k) - 1)
  {
    hide Retry, Pow2;
    RetrySucceedsIff(client.maxRetries, env.primary);
    RetrySucceedsIff(client.maxRetries, env.fallback);
  }
}
