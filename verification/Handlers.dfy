/** The queue's task handlers: the limiter bracket around a job. */
module Handlers {
  import opened Text
  import opened Limiter

  datatype TaskError = BadPayload | RateLimited | JobFailed(retry: bool)

  datatype IngestOutcome = Ingested | Unresolved | IngestFailed

  /** The counters read the same, though a key may now exist with value 0. */
  ghost predicate SameCounts(a: map<string, int>, b: map<string, int>) {
    forall t :: Count(a, t) == Count(b, t)
  }

  /** Acquiring and then releasing leaves every tenant's count as it was. */
  lemma {:induction false} BracketRestores(active: map<string, int>, tenant: string, max: int)
    requires 0 <= Count(active, tenant) <= Cap(max) && AcquireScript(active, tenant, max).1 != -1
    ensures SameCounts(active, ReleaseScript(AcquireScript(active, tenant, max).0, tenant))
  {
    hide AcquireScript, ReleaseScript, Count;
    AcquireEffect(active, tenant, max);
    ReleaseEffect(AcquireScript(active, tenant, max).0, tenant);
  }

  /**
   * One report job, which succeeds or fails in its own way. A refused job does not start, and
   * whatever way an admitted one ends its slot is given back.
   */
  method ProcessReport(limiter: RedisRateLimiter?, tenant: string, decodes: bool, succeeds: bool)
      returns (r: Result<(), TaskError>, started: bool)
    requires limiter != null ==> forall t :: 0 <= Count(limiter.active, t) <= Cap(limiter.maxActive)
    modifies limiter
    ensures limiter != null ==> SameCounts(old(limiter.active), limiter.active)
    ensures r == Err(BadPayload) <==> !decodes
    ensures r == Err(RateLimited) <==>
              decodes && limiter != null && AcquireScript(old(limiter.active), tenant, limiter.maxActive).1 == -1
    ensures started <==> r != Err(BadPayload) && r != Err(RateLimited)
    ensures started ==> r == if succeeds then Ok(()) else Err(JobFailed(true))
  {
    hide AcquireScript, ReleaseScript;
    if !decodes {
      return Err(BadPayload), false;
    }
    ghost var before := if limiter != null then limiter.active else map[];
    if limiter != null {
      var admitted := limiter.Acquire(tenant);
      AcquireEffect(before, tenant, limiter.maxActive);
      if !admitted {
        return Err(RateLimited), false;
      }
    }
    r, started := if succeeds then Ok(()) else Err(JobFailed(true)), true;
    if limiter != null {
      limiter.Release(tenant);
      BracketRestores(before, tenant, limiter.maxActive);
    }
  }

  /** One ingestion job: the same bracket; an unresolved source is not retried by the queue. */
  method ProcessIngestion(limiter: RedisRateLimiter?, tenant: string, decodes: bool, outcome: IngestOutcome)
      returns (r: Result<(), TaskError>, ingested: bool)
    requires limiter != null ==> forall t :: 0 <= Count(limiter.active, t) <= Cap(limiter.maxActive)
    modifies limiter
    ensures limiter != null ==> SameCounts(old(limiter.active), limiter.active)
    ensures r == Err(BadPayload) <==> !decodes
    ensures r == Err(RateLimited) <==>
              decodes && limiter != null && AcquireScript(old(limiter.active), tenant, limiter.maxActive).1 == -1
    ensures ingested <==> r != Err(BadPayload) && r != Err(RateLimited)
    ensures ingested ==> r == match outcome { case Ingested => Ok(()) case Unresolved => Err(JobFailed(false))
                                              case IngestFailed => Err(JobFailed(true)) }
  {
    hide AcquireScript, ReleaseScript;
    ingested := false;
    if !decodes {
      return Err(BadPayload), false;
    }
    ghost var before := if limiter != null then limiter.active else map[];
    if limiter != null {
      var admitted := limiter.Acquire(tenant);
      AcquireEffect(before, tenant, limiter.maxActive);
      if !admitted {
        return Err(RateLimited), false;
      }
    }
    ingested := true;
    match outcome {
      case Ingested => r := Ok(());
      case Unresolved => r := Err(JobFailed(false));
      case IngestFailed => r := Err(JobFailed(true));
    }
    if limiter != null {
      limiter.Release(tenant);
      BracketRestores(before, tenant, limiter.maxActive);
    }
  }
}
