/**
 * Jobs of many tenants on many workers: every interleaving of limiter scripts, budget checks, LLM
 * calls and usage emissions, with crashes, lost replies and failed releases.
 */
module Platform {
  import opened Text
  import opened UsageKeys
  import opened UsageEvents
  import opened UsageStore
  import opened Spending
  import opened Limiter
  import opened JobProtocol
  import opened Budget

  /** maxCost bounds the recorded price of one call; today fixes the budget month. */
  datatype Config = Config(maxActive: int, budgets: map<string, real>, maxCost: real, today: Day)

  /** A job between its acquire and its release; `start` is the log when its last check began. */
  datatype Job = Job(tenant: string, phase: Phase, start: Log)

  /**
   * unrecorded: per tenant, the price of calls whose usage was never emitted; died: how many of them
   * were outstanding when their worker crashed.
   */
  datatype State = State(active: map<string, int>, jobs: map<nat, Job>, log: Log, unrecorded: map<string, real>,
                         died: map<string, nat>)

  datatype Step =
    | Acquire(job: nat, tenant: string)
    | AcquireReplyLost(tenant: string)          // the script ran, the worker saw an error
    | Release(job: nat)                         // deferred, so it runs however the job's last call ended
    | ReleaseLost(job: nat)                     // the script never ran
    | Crash(job: nat, lost: LLMUsage)           // the worker dies at any point, also in or right after a call
    | StartCheck(job: nat)
    | FinishCheck(job: nat, fetched: seq<Read>, model: string, estimatedInput: nat, estimatedOutput: nat)
    | FailCheck(job: nat)
    | FailCall(job: nat)
    | RecordCall(job: nat, day: Day, usage: LLMUsage)
    | DropCall(job: nat, usage: LLMUsage)       // synthesis, or an emit that never reached Redis
    | RecordOther(day: Day, event: Event)       // a tool or embedding event; no check guards it

  predicate IsFault(step: Step) {
    step.AcquireReplyLost? || step.ReleaseLost? || step.Crash?
  }

  function BudgetOf(cfg: Config, tenant: string): real {
    if tenant in cfg.budgets then cfg.budgets[tenant] else 0.0
  }

  function MonthOf(cfg: Config, tenant: string): Query {
    Query(tenant, cfg.today, None, {})
  }

  function CallEvent(tenant: string, usage: LLMUsage): Event {
    Event(LLM, tenant, Some(usage), None, None)
  }

  function CallCost(tenant: string, usage: LLMUsage): real {
    Worth(CallEvent(tenant, usage)).cost
  }

  /** A call costs at most maxCost. */
  predicate IsCall(cfg: Config, tenant: string, usage: LLMUsage) {
    NonNegative(CallEvent(tenant, usage)) && CallCost(tenant, usage) <= cfg.maxCost
  }

  function Owed(s: State, tenant: string): real {
    if tenant in s.unrecorded then s.unrecorded[tenant] else 0.0
  }

  function Died(s: State, tenant: string): nat {
    if tenant in s.died then s.died[tenant] else 0
  }

  /** Move a job to its next phase; None if the act is out of order. */
  function Move(s: State, job: nat, act: Act): Option<State> {
    if job !in s.jobs then None
    else
      match Advance(s.jobs[job].phase, act)
      case None => None
      case Some(p) => Some(s.(jobs := s.jobs[job := s.jobs[job].(phase := p)]))
  }

  function Leave(s: State, job: nat): State {
    s.(jobs := map j | j in s.jobs && j != job :: s.jobs[j])
  }

  /** A scan that covers the tenant's counters, made between the check's start and now. */
  ghost predicate ScannedBy(s: State, job: Job, fetched: seq<Read>) {
    && Within(fetched, job.start, s.log)
    && ScanCovers(KeysOf(fetched), job.start, TenantPrefix(job.tenant))
  }

  /** The check's verdict from what the scan summed. */
  ghost predicate Allowed(cfg: Config, tenant: string, fetched: seq<Read>, model: string, input: nat, output: nat) {
    CheckBudget(BudgetOf(cfg, tenant), Reading(fetched, MonthOf(cfg, tenant)), model, input, output).allowed
  }

  /** One step; None when it is not enabled. */
  ghost function Next(cfg: Config, s: State, step: Step): Option<State> {
    match step
    case Acquire(job, tenant) =>
      var (active, reply) := AcquireScript(s.active, tenant, cfg.maxActive);
      if job in s.jobs then None
      else if reply == -1 then Some(s)
      else Some(s.(active := active, jobs := s.jobs[job := Job(tenant, Ready, s.log)]))
    case AcquireReplyLost(tenant) =>
      Some(s.(active := AcquireScript(s.active, tenant, cfg.maxActive).0))
    case Release(job) =>
      if job !in s.jobs || s.jobs[job].phase == Calling then None
      else Some(Leave(s, job).(active := ReleaseScript(s.active, s.jobs[job].tenant)))
    case ReleaseLost(job) =>
      if job !in s.jobs || s.jobs[job].phase == Calling then None else Some(Leave(s, job))
    case Crash(job, lost) =>
      if job !in s.jobs || s.jobs[job].phase != Calling then Some(Leave(s, job))
      else if !IsCall(cfg, s.jobs[job].tenant, lost) then None
      else
        var t := s.jobs[job].tenant;
        Some(Leave(s, job).(unrecorded := s.unrecorded[t := Owed(s, t) + CallCost(t, lost)],
                            died := s.died[t := Died(s, t) + 1]))
    case StartCheck(job) =>
      if job !in s.jobs then None
      else Move(s.(jobs := s.jobs[job := s.jobs[job].(start := s.log)]), job, BeginCheck)
    case FinishCheck(job, fetched, model, input, output) =>
      if job !in s.jobs || !ScannedBy(s, s.jobs[job], fetched) then None
      else Move(s, job, if Allowed(cfg, s.jobs[job].tenant, fetched, model, input, output) then Admit else Refuse)
    case FailCheck(job) => Move(s, job, Refuse)
    case FailCall(job) => Move(s, job, Fail)
    case RecordCall(job, day, usage) =>
      if job !in s.jobs || !IsCall(cfg, s.jobs[job].tenant, usage) then None
      else Move(s.(log := Append(s.log, Emission(day, CallEvent(s.jobs[job].tenant, usage)))), job, Record(usage))
    case DropCall(job, usage) =>
      if job !in s.jobs || !IsCall(cfg, s.jobs[job].tenant, usage) then None
      else
        var t := s.jobs[job].tenant;
        Move(s.(unrecorded := s.unrecorded[t := Owed(s, t) + CallCost(t, usage)]), job, Unrecorded(usage))
    case RecordOther(day, event) =>
      if event.kind.LLM? || !NonNegative(event) then None
      else Some(s.(log := Append(s.log, Emission(day, event))))
  }

  ghost function Run(cfg: Config, s: State, steps: seq<Step>): Option<State>
    decreases |steps|
  {
    if steps == [] then Some(s)
    else
      match Next(cfg, s, steps[0])
      case None => None
      case Some(s') => Run(cfg, s', steps[1..])
  }

  // ---------- cardinalities ----------

  /** The jobs that hold a slot of the tenant. */
  ghost function Holders(s: State, tenant: string): set<nat> {
    set j | j in s.jobs && s.jobs[j].tenant == tenant
  }

  /** A job that may still record one call the budget no longer covers. */
  ghost predicate IsPending(cfg: Config, job: Job) {
    || job.phase == Calling
    || (job.phase == Checking && Answer(job.start, MonthOf(cfg, job.tenant)).cost <= BudgetOf(cfg, job.tenant))
  }

  ghost function Pending(cfg: Config, s: State, tenant: string): set<nat> {
    set j | j in s.jobs && s.jobs[j].tenant == tenant && IsPending(cfg, s.jobs[j])
  }

  /** n times c, by addition. */
  ghost function Times(n: nat, c: real): (r: real)
    ensures c >= 0.0 ==> r >= 0.0
  {
    if n == 0 then 0.0 else Times(n - 1, c) + c
  }

  lemma {:induction false} TimesIsProduct(n: nat, c: real)
    ensures Times(n, c) == n as real * c
  {
    if n > 0 {
      TimesIsProduct(n - 1, c);
      assert n as real * c == (n - 1) as real * c + c;
    }
  }

  lemma {:induction false} TimesGrows(m: nat, n: nat, c: real)
    requires m <= n && c >= 0.0
    ensures Times(m, c) <= Times(n, c)
  {
    if m < n {
      TimesGrows(m, n - 1, c);
    }
  }

  lemma {:induction false} SubsetIsSmaller<T>(a: set<T>, b: set<T>)
    requires a <= b
    ensures |a| <= |b|
  {
    if a != {} {
      var x :| x in a;
      SubsetIsSmaller(a - {x}, b - {x});
    }
  }

  /** The tenant's calls that the budget may not cover: those that may still be recorded, and those that died. */
  ghost function Outstanding(cfg: Config, s: State, tenant: string): nat {
    |Pending(cfg, s, tenant)| + Died(s, tenant)
  }

  lemma {:induction false} PendingHold(cfg: Config, s: State, tenant: string)
    ensures |Pending(cfg, s, tenant)| <= |Holders(s, tenant)|
  {
    SubsetIsSmaller(Pending(cfg, s, tenant), Holders(s, tenant));
  }

  // ---------- invariants ----------

  /** Limiter: every tenant's jobs and the slots of its died calls are counted, and the count is within the cap. */
  ghost predicate Counted(cfg: Config, s: State) {
    forall t :: |Holders(s, t)| + Died(s, t) <= Count(s.active, t) <= Cap(cfg.maxActive)
  }

  /** Without faults the counter is the number of running jobs. */
  ghost predicate Exact(s: State) {
    forall t :: Count(s.active, t) == |Holders(s, t)|
  }

  ghost predicate WellFormed(cfg: Config, s: State) {
    && cfg.maxCost >= 0.0
    && AllNonNegative(s.log)
    && forall j :: j in s.jobs ==> Reached(s.jobs[j].start, s.log)
  }

  /** The tenant has a budget, and an ID by which the reader finds its counters. */
  predicate Enforced(cfg: Config, tenant: string) {
    BudgetOf(cfg, tenant) > 0.0 && ':' !in tenant
  }

  /** What the tenant has recorded plus what its outstanding calls may cost stays in bounds. */
  ghost predicate InBudget(cfg: Config, s: State, tenant: string) {
    LLMCost(s.log, MonthOf(cfg, tenant)) + Times(Outstanding(cfg, s, tenant), cfg.maxCost)
      <= BudgetOf(cfg, tenant) + Times(Cap(cfg.maxActive), cfg.maxCost)
  }

  ghost predicate Inv(cfg: Config, s: State) {
    && WellFormed(cfg, s)
    && Counted(cfg, s)
    && forall t :: Enforced(cfg, t) ==> InBudget(cfg, s, t)
  }

  /** No job runs yet, counters within the cap, and no budget already overspent. */
  ghost predicate Init(cfg: Config, s: State) {
    && cfg.maxCost >= 0.0
    && s.jobs == map[] && s.unrecorded == map[] && s.died == map[]
    && AllNonNegative(s.log)
    && (forall t :: 0 <= Count(s.active, t) <= Cap(cfg.maxActive))
    && forall t :: BudgetOf(cfg, t) > 0.0 ==> LLMCost(s.log, MonthOf(cfg, t)) <= BudgetOf(cfg, t)
  }

  lemma {:induction false} InitHolds(cfg: Config, s: State)
    requires Init(cfg, s)
    ensures Inv(cfg, s)
  {
    hide LLMCost, Count;
    forall t ensures Holders(s, t) == {} && Pending(cfg, s, t) == {} && Died(s, t) == 0 {
    }
  }

  // ---------- limiter safety ----------

  lemma {:induction false} JoinHolders(s: State, s': State, job: nat, j: Job, tenant: string)
    requires job !in s.jobs && s'.jobs == s.jobs[job := j]
    ensures |Holders(s', tenant)| == |Holders(s, tenant)| + if tenant == j.tenant then 1 else 0
  {
    var was, now := Holders(s, tenant), Holders(s', tenant);
    assert forall x :: x in s'.jobs <==> x in s.jobs || x == job;
    assert forall x :: x in s.jobs ==> s'.jobs[x] == s.jobs[x];
    assert job !in was;
    if tenant == j.tenant {
      assert now == was + {job};
    } else {
      assert now == was;
    }
  }

  lemma {:induction false} LeaveHolders(s: State, s': State, job: nat)
    requires s'.jobs == Leave(s, job).jobs
    ensures forall t :: |Holders(s', t)|
                     == |Holders(s, t)| - if job in s.jobs && t == s.jobs[job].tenant then 1 else 0
  {
    forall t ensures |Holders(s', t)| == |Holders(s, t)| - if job in s.jobs && t == s.jobs[job].tenant then 1 else 0 {
      assert Holders(s', t) == Holders(s, t) - {job};
    }
  }

  lemma {:induction false} KeepHolders(s: State, s': State)
    requires s'.jobs.Keys == s.jobs.Keys
    requires forall j :: j in s.jobs ==> s'.jobs[j].tenant == s.jobs[j].tenant
    ensures forall t :: Holders(s', t) == Holders(s, t)
  {
  }

  /** Only acquire, release and crash steps touch the slots. */
  predicate MovesSlots(step: Step) {
    step.Acquire? || step.AcquireReplyLost? || step.Release? || step.ReleaseLost? || step.Crash?
  }

  lemma {:induction false} OthersKeepSlots(cfg: Config, s: State, step: Step, s': State)
    requires Next(cfg, s, step) == Some(s') && !MovesSlots(step)
    ensures s'.active == s.active && s'.jobs.Keys == s.jobs.Keys && s'.died == s.died
    ensures forall j :: j in s.jobs ==> s'.jobs[j].tenant == s.jobs[j].tenant
  {
    hide ScannedBy, Allowed, NonNegative, Worth;
  }

  /** A job joins, and its slot is counted. */
  lemma {:induction false} CountedAcquire(cfg: Config, s: State, step: Step, s': State)
    requires Counted(cfg, s) && (step.Acquire? || step.AcquireReplyLost?) && Next(cfg, s, step) == Some(s')
    ensures Counted(cfg, s')
    ensures Exact(s) && !IsFault(step) ==> Exact(s')
  {
    hide Holders, Count, AcquireScript;
    AcquireEffect(s.active, step.tenant, cfg.maxActive);
    if s'.jobs == s.jobs {
      KeepHolders(s, s');
    } else {
      forall t { JoinHolders(s, s', step.job, Job(step.tenant, Ready, s.log), t); }
    }
  }

  /** A job leaves, and its slot is given back. */
  lemma {:induction false} CountedRelease(cfg: Config, s: State, step: Step, s': State)
    requires Counted(cfg, s) && step.Release? && Next(cfg, s, step) == Some(s')
    ensures Counted(cfg, s')
    ensures Exact(s) ==> Exact(s')
  {
    hide Holders, Count, ReleaseScript;
    ReleaseEffect(s.active, s.jobs[step.job].tenant);
    LeaveHolders(s, s', step.job);
    HolderCounts(s, step.job);
  }

  /** A job leaves without giving its slot back, which so covers the call it may have been in. */
  lemma {:induction false} CountedLoss(cfg: Config, s: State, step: Step, s': State)
    requires Counted(cfg, s) && (step.ReleaseLost? || step.Crash?) && Next(cfg, s, step) == Some(s')
    ensures Counted(cfg, s')
  {
    forall t ensures Died(s', t) == Died(s, t) + if step.Crash? && InCall(s, step.job, t) then 1 else 0 {
      if step.Crash? {
        CrashEffect(cfg, s, step, s', t);
      }
    }
    assert s'.active == s.active && s'.jobs == Leave(s, step.job).jobs;
    hide Holders, Count, Next, Died;
    LeaveHolders(s, s', step.job);
  }

  lemma {:induction false} CountedStep(cfg: Config, s: State, step: Step, s': State)
    requires Counted(cfg, s) && Next(cfg, s, step) == Some(s')
    ensures Counted(cfg, s')
    ensures Exact(s) && !IsFault(step) ==> Exact(s')
  {
    if step.Acquire? || step.AcquireReplyLost? {
      CountedAcquire(cfg, s, step, s');
    } else if step.Release? {
      CountedRelease(cfg, s, step, s');
    } else if MovesSlots(step) {
      CountedLoss(cfg, s, step, s');
    } else {
      hide Next, Holders;
      OthersKeepSlots(cfg, s, step, s');
      KeepHolders(s, s');
    }
  }

  lemma {:induction false} HolderCounts(s: State, job: nat)
    requires job in s.jobs
    ensures |Holders(s, s.jobs[job].tenant)| > 0
  {
    assert job in Holders(s, s.jobs[job].tenant);
  }

  // ---------- spend ----------

  /** A step that leaves the log alone and adds no pending job keeps the bound. */
  lemma {:induction false} FewerPending(cfg: Config, s: State, s': State, tenant: string)
    requires InBudget(cfg, s, tenant) && s'.log == s.log && cfg.maxCost >= 0.0
    requires Pending(cfg, s', tenant) <= Pending(cfg, s, tenant) && Died(s', tenant) == Died(s, tenant)
    ensures InBudget(cfg, s', tenant)
  {
    SubsetIsSmaller(Pending(cfg, s', tenant), Pending(cfg, s, tenant));
    TimesGrows(Outstanding(cfg, s', tenant), Outstanding(cfg, s, tenant), cfg.maxCost);
  }

  /** A crash: the job stops pending, and if it was in a call that call has died. */
  lemma {:induction false} CrashStep(cfg: Config, s: State, step: Step, s': State, tenant: string)
    requires InBudget(cfg, s, tenant) && cfg.maxCost >= 0.0 && step.Crash? && Next(cfg, s, step) == Some(s')
    ensures InBudget(cfg, s', tenant)
  {
    CrashedIsNotPending(cfg, s, step, s', tenant);
    hide Next, Pending, Died, LLMCost;
    TimesGrows(Outstanding(cfg, s', tenant), Outstanding(cfg, s, tenant), cfg.maxCost);
  }

  lemma {:induction false} CrashedIsNotPending(cfg: Config, s: State, step: Step, s': State, tenant: string)
    requires step.Crash? && Next(cfg, s, step) == Some(s')
    ensures s'.log == s.log && Outstanding(cfg, s', tenant) <= Outstanding(cfg, s, tenant)
  {
    CrashEffect(cfg, s, step, s', tenant);
    hide Next, Answer, LLMCost, Died;
    var was, now := Pending(cfg, s, tenant), Pending(cfg, s', tenant);
    assert now == was - {step.job};
    SubsetIsSmaller(now, was);
    if InCall(s, step.job, tenant) {
      assert step.job in was;
    }
  }

  /** The job is in a call for the tenant. */
  predicate InCall(s: State, job: nat, tenant: string) {
    job in s.jobs && s.jobs[job].phase == Calling && s.jobs[job].tenant == tenant
  }

  lemma {:induction false} CrashEffect(cfg: Config, s: State, step: Step, s': State, tenant: string)
    requires step.Crash? && Next(cfg, s, step) == Some(s')
    ensures s'.log == s.log && s'.jobs == Leave(s, step.job).jobs
    ensures Died(s', tenant) == Died(s, tenant) + if InCall(s, step.job, tenant) then 1 else 0
  {
    hide CallCost, IsCall;
  }

  /** While the tenant's whole total is within its budget, the slots alone keep the bound. */
  lemma {:induction false} WithinBudget(cfg: Config, s: State, tenant: string)
    requires WellFormed(cfg, s) && Counted(cfg, s)
    requires Answer(s.log, MonthOf(cfg, tenant)).cost <= BudgetOf(cfg, tenant)
    ensures InBudget(cfg, s, tenant)
  {
    hide Answer, LLMCost, Holders, Pending;
    PendingHold(cfg, s, tenant);
    LLMCostWithinTotal(s.log, MonthOf(cfg, tenant));
    TimesGrows(Outstanding(cfg, s, tenant), Cap(cfg.maxActive), cfg.maxCost);
  }

  /** Starting a check: pending only if the total is within the budget at that moment. */
  lemma {:induction false} StartCheckStep(cfg: Config, s: State, job: nat, s': State, tenant: string)
    requires Inv(cfg, s) && Next(cfg, s, StartCheck(job)) == Some(s')
    requires WellFormed(cfg, s') && Counted(cfg, s')
    requires Enforced(cfg, tenant)
    ensures InBudget(cfg, s', tenant)
  {
    hide Answer, LLMCost;
    if Answer(s.log, MonthOf(cfg, tenant)).cost <= BudgetOf(cfg, tenant) {
      WithinBudget(cfg, s', tenant);
    } else {
      FewerPending(cfg, s, s', tenant);
    }
  }

  /** A check that allows a call began when the tenant's total was within its budget, whatever was emitted since. */
  lemma {:induction false} AllowedMeansWithinBudget(cfg: Config, s: State, job: Job, fetched: seq<Read>, model: string,
                                                    input: nat, output: nat)
    requires WellFormed(cfg, s) && Reached(job.start, s.log)
    requires ScannedBy(s, job, fetched) && Enforced(cfg, job.tenant)
    requires Allowed(cfg, job.tenant, fetched, model, input, output)
    ensures Answer(job.start, MonthOf(cfg, job.tenant)).cost <= BudgetOf(cfg, job.tenant)
  {
    ScanReadsAtLeast(fetched, job.start, s.log, MonthOf(cfg, job.tenant));
    hide Answer, Reading, ComputeCost;
  }

  /** Finishing a check: a job that is admitted was already pending, whatever the scan missed. */
  lemma {:induction false} FinishCheckStep(cfg: Config, s: State, step: Step, s': State, tenant: string)
    requires Inv(cfg, s) && step.FinishCheck? && Next(cfg, s, step) == Some(s')
    requires Enforced(cfg, tenant)
    ensures InBudget(cfg, s', tenant)
  {
    hide Answer, LLMCost, Reading, ScannedBy, Allowed;
    var j := s.jobs[step.job];
    var input, output := step.estimatedInput, step.estimatedOutput;
    if Enforced(cfg, j.tenant) && Allowed(cfg, j.tenant, step.fetched, step.model, input, output) {
      AllowedMeansWithinBudget(cfg, s, j, step.fetched, step.model, input, output);
      assert IsPending(cfg, j);
    }
    FewerPending(cfg, s, s', tenant);
  }

  /** Recording a call: the job stops pending and the log grows by at most maxCost. */
  lemma {:induction false} RecordCallStep(cfg: Config, s: State, step: Step, s': State, tenant: string)
    requires Inv(cfg, s) && step.RecordCall? && Next(cfg, s, step) == Some(s')
    requires Enforced(cfg, tenant)
    ensures InBudget(cfg, s', tenant)
  {
    hide Answer, Worth, LLMCost, NonNegative;
    var j := s.jobs[step.job];
    LLMCostStep(s.log, Emission(step.day, CallEvent(j.tenant, step.usage)), MonthOf(cfg, tenant));
    RecordedIsNotPending(cfg, s, step, s', tenant);
    hide Pending, Next, Outstanding;
  }

  lemma {:induction false} RecordedIsNotPending(cfg: Config, s: State, step: Step, s': State, tenant: string)
    requires step.RecordCall? && Next(cfg, s, step) == Some(s')
    ensures if tenant == s.jobs[step.job].tenant
            then Times(Outstanding(cfg, s, tenant), cfg.maxCost)
              == Times(Outstanding(cfg, s', tenant), cfg.maxCost) + cfg.maxCost
            else Outstanding(cfg, s', tenant) == Outstanding(cfg, s, tenant)
  {
    RecordEffect(cfg, s, step, s');
    hide Next, Answer, LLMCost;
    var was, now := Pending(cfg, s, tenant), Pending(cfg, s', tenant);
    if tenant == s.jobs[step.job].tenant {
      assert step.job in was;
      assert now == was - {step.job};
    } else {
      assert now == was;
    }
  }

  lemma {:induction false} RecordEffect(cfg: Config, s: State, step: Step, s': State)
    requires step.RecordCall? && Next(cfg, s, step) == Some(s')
    ensures step.job in s.jobs && s.jobs[step.job].phase == Calling && s'.died == s.died
    ensures s'.jobs == s.jobs[step.job := s.jobs[step.job].(phase := Ready)]
  {
    hide IsCall;
  }

  lemma {:induction false} OtherLogStep(cfg: Config, s: State, step: Step, s': State, tenant: string)
    requires InBudget(cfg, s, tenant) && step.RecordOther? && Next(cfg, s, step) == Some(s')
    ensures InBudget(cfg, s', tenant)
  {
    hide Answer, Worth, KeyOf, NonNegative, Selects;
    assert Pending(cfg, s', tenant) == Pending(cfg, s, tenant);
  }

  /** Every other step keeps the log and lets no job become pending. */
  lemma {:induction false} QuietStep(cfg: Config, s: State, step: Step, s': State, tenant: string)
    requires InBudget(cfg, s, tenant) && cfg.maxCost >= 0.0 && Next(cfg, s, step) == Some(s')
    requires !step.StartCheck? && !step.FinishCheck? && !step.RecordCall? && !step.RecordOther? && !step.Crash?
    ensures InBudget(cfg, s', tenant)
  {
    hide Answer, LLMCost, AcquireScript, ReleaseScript, InBudget;
    assert s'.log == s.log;
    assert Pending(cfg, s', tenant) <= Pending(cfg, s, tenant);
    FewerPending(cfg, s, s', tenant);
  }

  lemma {:induction false} WellFormedStep(cfg: Config, s: State, step: Step, s': State)
    requires WellFormed(cfg, s) && Next(cfg, s, step) == Some(s')
    ensures WellFormed(cfg, s')
  {
    hide Answer, LLMCost, AcquireScript, ReleaseScript, Worth, NonNegative, ScannedBy, Allowed;
    assert Reached(s.log, s'.log);
    forall j | j in s'.jobs ensures Reached(s'.jobs[j].start, s'.log) {
      if j in s.jobs {
        ReachedTrans(s.jobs[j].start, s.log, s'.log);
      }
    }
  }

  lemma {:induction false} InvStep(cfg: Config, s: State, step: Step, s': State)
    requires Inv(cfg, s) && Next(cfg, s, step) == Some(s')
    ensures Inv(cfg, s')
  {
    hide WellFormed, Counted, InBudget, Next;
    WellFormedStep(cfg, s, step, s');
    CountedStep(cfg, s, step, s');
    forall t | Enforced(cfg, t) ensures InBudget(cfg, s', t) {
      MaxCostOf(cfg, s);
      match step
      case StartCheck(job) => StartCheckStep(cfg, s, job, s', t);
      case FinishCheck(_, _, _, _, _) => FinishCheckStep(cfg, s, step, s', t);
      case RecordCall(_, _, _) => RecordCallStep(cfg, s, step, s', t);
      case RecordOther(_, _) => OtherLogStep(cfg, s, step, s', t);
      case Crash(_, _) => CrashStep(cfg, s, step, s', t);
      case _ => QuietStep(cfg, s, step, s', t);
    }
  }

  lemma {:induction false} MaxCostOf(cfg: Config, s: State)
    requires WellFormed(cfg, s)
    ensures cfg.maxCost >= 0.0
  {
  }

  lemma {:induction false} InvAlways(cfg: Config, s: State, steps: seq<Step>, s': State)
    requires Inv(cfg, s) && Run(cfg, s, steps) == Some(s')
    ensures Inv(cfg, s')
    ensures Exact(s) && (forall i :: 0 <= i < |steps| ==> !IsFault(steps[i])) ==> Exact(s')
    decreases |steps|
  {
    hide Inv, Next, Exact;
    if steps != [] {
      var mid := Next(cfg, s, steps[0]).value;
      InvStep(cfg, s, steps[0], mid);
      InvIsCounted(cfg, s);
      CountedStep(cfg, s, steps[0], mid);
      InvAlways(cfg, mid, steps[1..], s');
    }
  }

  lemma {:induction false} InvIsCounted(cfg: Config, s: State)
    requires Inv(cfg, s)
    ensures Counted(cfg, s)
  {
  }

  /**
   * Limiter safety, in every reachable state and whatever fails: a tenant's running jobs, and the
   * slots that calls of crashed workers still hold, are at most its counter, which is at most the cap;
   * so a release always finds a positive counter.
   */
  lemma {:induction false} LimiterIsSafe(cfg: Config, s: State, steps: seq<Step>, s': State, tenant: string)
    requires Init(cfg, s) && Run(cfg, s, steps) == Some(s')
    ensures |Holders(s', tenant)| + Died(s', tenant) <= Count(s'.active, tenant) <= Cap(cfg.maxActive)
    ensures forall j :: j in s'.jobs ==> Count(s'.active, s'.jobs[j].tenant) > 0
  {
    InitHolds(cfg, s);
    InvAlways(cfg, s, steps, s');
    forall j | j in s'.jobs ensures Count(s'.active, s'.jobs[j].tenant) > 0 {
      HolderCounts(s', j);
    }
  }

  /** Without crashes, lost replies and failed releases the counter is exactly the running jobs. */
  lemma {:induction false} LimiterIsExactWithoutFaults(cfg: Config, s: State, steps: seq<Step>, s': State,
                                                       tenant: string)
    requires Init(cfg, s) && (forall t :: Count(s.active, t) == 0)
    requires forall i :: 0 <= i < |steps| ==> !IsFault(steps[i])
    requires Run(cfg, s, steps) == Some(s')
    ensures Count(s'.active, tenant) == |Holders(s', tenant)|
  {
    InitHolds(cfg, s);
    assert forall t :: Holders(s, t) == {};
    InvAlways(cfg, s, steps, s');
  }

  /**
   * The overspend bound, over every interleaving of any number of jobs and tenants: the LLM cost a
   * tenant has recorded this month, with a maximal call for each one that died with its worker, never
   * passes its budget by more than one maximal call per slot.
   */
  lemma {:induction false} OverspendIsBounded(cfg: Config, s: State, steps: seq<Step>, s': State, tenant: string)
    requires Init(cfg, s) && Run(cfg, s, steps) == Some(s')
    requires Enforced(cfg, tenant)
    ensures LLMCost(s'.log, MonthOf(cfg, tenant)) + Died(s', tenant) as real * cfg.maxCost
         <= BudgetOf(cfg, tenant) + Cap(cfg.maxActive) as real * cfg.maxCost
    ensures LLMCost(s'.log, MonthOf(cfg, tenant))
         <= BudgetOf(cfg, tenant) + Cap(cfg.maxActive) as real * cfg.maxCost
  {
    hide *;
    InitHolds(cfg, s);
    InvAlways(cfg, s, steps, s');
    InvGivesBound(cfg, s', tenant);
  }

  lemma {:induction false} InvGivesBound(cfg: Config, s: State, tenant: string)
    requires Inv(cfg, s) && Enforced(cfg, tenant)
    ensures LLMCost(s.log, MonthOf(cfg, tenant)) + Died(s, tenant) as real * cfg.maxCost
         <= BudgetOf(cfg, tenant) + Cap(cfg.maxActive) as real * cfg.maxCost
    ensures LLMCost(s.log, MonthOf(cfg, tenant)) <= BudgetOf(cfg, tenant) + Cap(cfg.maxActive) as real * cfg.maxCost
  {
    hide LLMCost, Pending, WellFormed, Counted, Died, Cap, BudgetOf;
    MaxCostOf(cfg, s);
    assert InBudget(cfg, s, tenant);
    TimesGrows(Died(s, tenant), Outstanding(cfg, s, tenant), cfg.maxCost);
    TimesIsProduct(Died(s, tenant), cfg.maxCost);
    TimesIsProduct(Cap(cfg.maxActive), cfg.maxCost);
  }

  /** The total the budget page shows is bounded by the same plus the embedding cost no check guards. */
  lemma {:induction false} TotalIsBounded(cfg: Config, s: State, steps: seq<Step>, s': State, tenant: string)
    requires Init(cfg, s) && Run(cfg, s, steps) == Some(s')
    requires Enforced(cfg, tenant)
    ensures Answer(s'.log, MonthOf(cfg, tenant)).cost
         <= BudgetOf(cfg, tenant) + Cap(cfg.maxActive) as real * cfg.maxCost + UngatedCost(s'.log, MonthOf(cfg, tenant))
  {
    hide Run, Init, Answer;
    OverspendIsBounded(cfg, s, steps, s', tenant);
    TotalSplits(s'.log, MonthOf(cfg, tenant));
  }

  // ---------- one job within an interleaving ----------

  /** The step takes the job's slot or gives it up. */
  predicate MovesSlotOf(step: Step, job: nat) {
    (step.Acquire? || step.Release? || step.ReleaseLost? || step.Crash?) && step.job == job
  }

  /** What a step is in the protocol of the job, if it is a step of the job. */
  ghost function ActOf(cfg: Config, s: State, step: Step, job: nat): seq<Act> {
    if job !in s.jobs then []
    else
      match step
      case StartCheck(j) => if j == job then [BeginCheck] else []
      case FinishCheck(j, fetched, model, input, output) =>
        if j != job then []
        else if Allowed(cfg, s.jobs[job].tenant, fetched, model, input, output) then [Admit] else [Refuse]
      case FailCheck(j) => if j == job then [Refuse] else []
      case FailCall(j) => if j == job then [Fail] else []
      case RecordCall(j, _, usage) => if j == job then [Record(usage)] else []
      case DropCall(j, usage) => if j == job then [Unrecorded(usage)] else []
      case _ => []
  }

  /** The acts of one job in an interleaved run. */
  ghost function ActsIn(cfg: Config, s: State, steps: seq<Step>, job: nat): seq<Act>
    requires Run(cfg, s, steps).Some?
    decreases |steps|
  {
    if steps == [] then []
    else ActOf(cfg, s, steps[0], job) + ActsIn(cfg, Next(cfg, s, steps[0]).value, steps[1..], job)
  }

  /** The cost that a job of the tenant records by its acts. */
  function CostOf(tenant: string, acts: seq<Act>): real
    decreases |acts|
  {
    if acts == [] then 0.0
    else (if acts[0].Record? then CallCost(tenant, acts[0].usage) else 0.0) + CostOf(tenant, acts[1..])
  }

  lemma {:induction false} CostConcat(tenant: string, a: seq<Act>, b: seq<Act>)
    ensures CostOf(tenant, a + b) == CostOf(tenant, a) + CostOf(tenant, b)
    decreases |a|
  {
    hide CallCost;
    if a == [] {
      assert a + b == b;
    } else {
      assert (a + b)[0] == a[0] && (a + b)[1..] == a[1..] + b;
      CostConcat(tenant, a[1..], b);
    }
  }

  lemma {:induction false} ActsConcat(cfg: Config, s: State, a: seq<Step>, mid: State, b: seq<Step>, job: nat)
    requires Run(cfg, s, a) == Some(mid) && Run(cfg, mid, b).Some?
    ensures Run(cfg, s, a + b) == Run(cfg, mid, b)
    ensures ActsIn(cfg, s, a + b, job) == ActsIn(cfg, s, a, job) + ActsIn(cfg, mid, b, job)
    decreases |a|
  {
    hide Next, ActOf;
    RunConcat(cfg, s, a, mid, b);
    if a == [] {
      assert a + b == b;
    } else {
      assert (a + b)[0] == a[0] && (a + b)[1..] == a[1..] + b;
      ActsConcat(cfg, Next(cfg, s, a[0]).value, a[1..], mid, b, job);
    }
  }

  lemma {:induction false} JobStays(cfg: Config, s: State, step: Step, job: nat)
    requires job in s.jobs && Next(cfg, s, step).Some? && !MovesSlotOf(step, job)
    ensures var s' := Next(cfg, s, step).value;
            && job in s'.jobs && s'.jobs[job].tenant == s.jobs[job].tenant
            && AdvanceAll(s.jobs[job].phase, ActOf(cfg, s, step, job)) == Some(s'.jobs[job].phase)
    ensures CostOf(s.jobs[job].tenant, ActOf(cfg, s, step, job))
         <= Times(Number(ActOf(cfg, s, step, job), IsRecord), cfg.maxCost)
  {
    hide ScannedBy, Allowed, Worth, NonNegative, AcquireScript, ReleaseScript;
    var acts := ActOf(cfg, s, step, job);
    if acts != [] {
      assert acts[1..] == [];
      assert Times(1, cfg.maxCost) == cfg.maxCost;
    }
  }

  lemma {:induction false} TimesAdds(m: nat, n: nat, c: real)
    ensures Times(m + n, c) == Times(m, c) + Times(n, c)
  {
    if n > 0 {
      TimesAdds(m, n - 1, c);
    }
  }

  /** However the run is interleaved, the acts of one job follow the protocol and each records at most maxCost. */
  lemma {:induction false} ActsFollowProtocol(cfg: Config, s: State, steps: seq<Step>, s': State, job: nat)
    requires job in s.jobs && Run(cfg, s, steps) == Some(s')
    requires forall i :: 0 <= i < |steps| ==> !MovesSlotOf(steps[i], job)
    ensures job in s'.jobs
    ensures AdvanceAll(s.jobs[job].phase, ActsIn(cfg, s, steps, job)) == Some(s'.jobs[job].phase)
    ensures CostOf(s.jobs[job].tenant, ActsIn(cfg, s, steps, job))
         <= Times(Number(ActsIn(cfg, s, steps, job), IsRecord), cfg.maxCost)
    decreases |steps|
  {
    hide Next, ActOf, CallCost, MovesSlotOf;
    if steps != [] {
      JobStays(cfg, s, steps[0], job);
      var mid, first := Next(cfg, s, steps[0]).value, ActOf(cfg, s, steps[0], job);
      ActsFollowProtocol(cfg, mid, steps[1..], s', job);
      var rest := ActsIn(cfg, mid, steps[1..], job);
      AdvanceConcat(s.jobs[job].phase, first, rest);
      NumberConcat(first, rest, IsRecord);
      CostConcat(s.jobs[job].tenant, first, rest);
      assert ActsIn(cfg, s, steps, job) == first + rest && mid.jobs[job].tenant == s.jobs[job].tenant;
      TimesAdds(Number(first, IsRecord), Number(rest, IsRecord), cfg.maxCost);
    }
  }

  lemma {:induction false} RunConcat(cfg: Config, s: State, a: seq<Step>, mid: State, b: seq<Step>)
    requires Run(cfg, s, a) == Some(mid)
    ensures Run(cfg, s, a + b) == Run(cfg, mid, b)
    decreases |a|
  {
    hide Next;
    if a == [] {
      assert a + b == b;
    } else {
      assert (a + b)[0] == a[0] && (a + b)[1..] == a[1..] + b;
      RunConcat(cfg, Next(cfg, s, a[0]).value, a[1..], mid, b);
    }
  }

  // ---------- calls that are never recorded ----------

  /** The step uses a completed call of the tenant without recording it. */
  predicate DropsOne(s: State, step: Step, tenant: string) {
    step.DropCall? && step.job in s.jobs && s.jobs[step.job].tenant == tenant
  }

  /** How many completed calls of the tenant a run leaves unrecorded. */
  ghost function Drops(cfg: Config, s: State, steps: seq<Step>, tenant: string): nat
    requires Run(cfg, s, steps).Some?
    decreases |steps|
  {
    if steps == [] then 0
    else
      (if DropsOne(s, steps[0], tenant) then 1 else 0)
      + Drops(cfg, Next(cfg, s, steps[0]).value, steps[1..], tenant)
  }

  /** The living jobs that leave a completed call of the tenant unrecorded. */
  ghost function DroppedBy(cfg: Config, s: State, steps: seq<Step>, tenant: string): set<nat>
    requires Run(cfg, s, steps).Some?
    decreases |steps|
  {
    if steps == [] then {}
    else
      (if DropsOne(s, steps[0], tenant) then {steps[0].job} else {})
      + DroppedBy(cfg, Next(cfg, s, steps[0]).value, steps[1..], tenant)
  }

  /** The jobs of the tenant that got a slot in a run. */
  ghost function Started(cfg: Config, s: State, steps: seq<Step>, tenant: string): set<nat>
    requires Run(cfg, s, steps).Some?
    decreases |steps|
  {
    if steps == [] then {}
    else
      var mid := Next(cfg, s, steps[0]).value;
      (if steps[0].Acquire? && steps[0].tenant == tenant && steps[0].job in mid.jobs then {steps[0].job} else {})
      + Started(cfg, mid, steps[1..], tenant)
  }

  /** What is owed grows by at most one maximal call with each call dropped or died. */
  lemma {:induction false} OwedStep(cfg: Config, s: State, step: Step, s': State, tenant: string)
    requires Next(cfg, s, step) == Some(s')
    ensures var more := (if DropsOne(s, step, tenant) then 1 else 0) + Died(s', tenant) - Died(s, tenant);
            0 <= more <= 1 && Died(s', tenant) >= Died(s, tenant)
            && Owed(s', tenant) <= Owed(s, tenant) + if more == 1 then cfg.maxCost else 0.0
  {
    hide AcquireScript, ReleaseScript, Allowed, ScannedBy, Worth, NonNegative;
  }

  lemma {:induction false} OwedIsDropped(cfg: Config, s: State, steps: seq<Step>, s': State, tenant: string)
    requires Run(cfg, s, steps) == Some(s')
    ensures Died(s', tenant) >= Died(s, tenant)
    ensures Owed(s', tenant)
         <= Owed(s, tenant)
            + Times(Drops(cfg, s, steps, tenant) + Died(s', tenant) - Died(s, tenant), cfg.maxCost)
    decreases |steps|
  {
    hide Next, DropsOne, Owed, Died;
    if steps != [] {
      var mid := Next(cfg, s, steps[0]).value;
      OwedStep(cfg, s, steps[0], mid, tenant);
      OwedIsDropped(cfg, mid, steps[1..], s', tenant);
    }
  }

  /** LLM cost of the tenant's month, recorded or not. */
  ghost function LLMSpend(cfg: Config, s: State, tenant: string): real {
    LLMCost(s.log, MonthOf(cfg, tenant)) + Owed(s, tenant)
  }

  /**
   * The bound on what a tenant really spends, recorded or not and with every call that died with its
   * worker: the recorded bound and one maximal call for each completed call that a living job did not
   * record. A call that dies costs nothing more, because its slot is never given back.
   */
  lemma {:induction false} ActualSpendIsBounded(cfg: Config, s: State, steps: seq<Step>, s': State, tenant: string)
    requires Init(cfg, s) && Run(cfg, s, steps) == Some(s') && Enforced(cfg, tenant)
    ensures LLMSpend(cfg, s', tenant)
         <= BudgetOf(cfg, tenant) + (Cap(cfg.maxActive) + Drops(cfg, s, steps, tenant)) as real * cfg.maxCost
  {
    hide Run, LLMCost, Drops, Init, Died, Owed, BudgetOf, Cap, Times;
    NothingOwed(cfg, s, tenant);
    OverspendIsBounded(cfg, s, steps, s', tenant);
    OwedIsDropped(cfg, s, steps, s', tenant);
    SpendSums(LLMCost(s'.log, MonthOf(cfg, tenant)), Owed(s', tenant), BudgetOf(cfg, tenant), Cap(cfg.maxActive),
              Drops(cfg, s, steps, tenant), Died(s', tenant), cfg.maxCost);
  }

  lemma {:induction false} NothingOwed(cfg: Config, s: State, tenant: string)
    requires Init(cfg, s)
    ensures Owed(s, tenant) == 0.0 && Died(s, tenant) == 0
  {
  }

  lemma {:induction false} SpendSums(recorded: real, owed: real, budget: real, cap: nat, drops: nat, died: nat, c: real)
    requires recorded + died as real * c <= budget + cap as real * c
    requires owed <= Times(drops + died, c)
    ensures recorded + owed <= budget + (cap + drops) as real * c
  {
    TimesAdds(drops, died, c);
    TimesAdds(cap, drops, c);
    TimesIsProduct(drops, c);
    TimesIsProduct(died, c);
    TimesIsProduct(cap, c);
    TimesIsProduct(cap + drops, c);
  }

  /** When no job leaves two calls unrecorded, the unrecorded calls are as many as the jobs that left one. */
  lemma {:induction false} DropsAreJobs(cfg: Config, s: State, steps: seq<Step>, tenant: string)
    requires Run(cfg, s, steps).Some?
    requires forall j :: Number(ActsIn(cfg, s, steps, j), IsUnrecorded) <= 1
    ensures Drops(cfg, s, steps, tenant) == |DroppedBy(cfg, s, steps, tenant)|
    ensures forall j :: j in DroppedBy(cfg, s, steps, tenant) ==> Number(ActsIn(cfg, s, steps, j), IsUnrecorded) == 1
    decreases |steps|
  {
    hide Next, DropsOne, ActOf;
    if steps != [] {
      var mid := Next(cfg, s, steps[0]).value;
      forall j
        ensures Number(ActsIn(cfg, s, steps, j), IsUnrecorded)
             == (if steps[0].DropCall? && steps[0].job == j && j in s.jobs then 1 else 0)
                + Number(ActsIn(cfg, mid, steps[1..], j), IsUnrecorded)
      {
        NumberConcat(ActOf(cfg, s, steps[0], j), ActsIn(cfg, mid, steps[1..], j), IsUnrecorded);
        UnrecordedAct(cfg, s, steps[0], j);
      }
      DropsAreJobs(cfg, mid, steps[1..], tenant);
      var rest := DroppedBy(cfg, mid, steps[1..], tenant);
      if DropsOne(s, steps[0], tenant) {
        DropperHolds(s, steps[0], tenant);
        assert steps[0].job !in rest;
        assert DroppedBy(cfg, s, steps, tenant) == rest + {steps[0].job};
      } else {
        assert DroppedBy(cfg, s, steps, tenant) == rest;
      }
    }
  }

  lemma {:induction false} DropperHolds(s: State, step: Step, tenant: string)
    requires DropsOne(s, step, tenant)
    ensures step.DropCall? && step.job in s.jobs
  {
  }

  lemma {:induction false} UnrecordedAct(cfg: Config, s: State, step: Step, job: nat)
    ensures Number(ActOf(cfg, s, step, job), IsUnrecorded)
         == if step.DropCall? && step.job == job && job in s.jobs then 1 else 0
  {
    hide Allowed;
    var acts := ActOf(cfg, s, step, job);
    if acts != [] {
      assert acts[1..] == [];
    }
  }

  /** A job of the tenant was there at the start or got its slot in the run. */
  lemma {:induction false} DroppersStarted(cfg: Config, s: State, steps: seq<Step>, tenant: string)
    requires Run(cfg, s, steps).Some?
    ensures DroppedBy(cfg, s, steps, tenant) <= Holders(s, tenant) + Started(cfg, s, steps, tenant)
    decreases |steps|
  {
    hide Next;
    if steps != [] {
      var mid := Next(cfg, s, steps[0]).value;
      HoldersCome(cfg, s, steps[0], mid, tenant);
      DroppersStarted(cfg, mid, steps[1..], tenant);
    }
  }

  lemma {:induction false} HoldersCome(cfg: Config, s: State, step: Step, s': State, tenant: string)
    requires Next(cfg, s, step) == Some(s')
    ensures forall j :: j in Holders(s', tenant) ==>
              j in Holders(s, tenant) || (step.Acquire? && step.tenant == tenant && step.job == j && j in s'.jobs)
  {
    hide AcquireScript, ReleaseScript, Allowed, ScannedBy, Worth, NonNegative;
  }

  // ---------- where the settings and the bound stop holding ----------

  const START := State(map[], map[], Empty, map[], map[])

  /** A run that takes the tenant's count above the configured limit. */
  ghost predicate Oversteps(cfg: Config, steps: seq<Step>, tenant: string) {
    var end := Run(cfg, START, steps);
    end.Some? && Count(end.value.active, tenant) > cfg.maxActive
  }

  /** With a limit below 1 the first job of a tenant oversteps it. */
  lemma {:induction false} FirstJobOversteps(cfg: Config)
    requires cfg.maxActive < 1
    ensures Oversteps(cfg, [Acquire(0, "t")], "t")
  {
    hide Run;
    var step := Acquire(0, "t");
    var s' := Next(cfg, START, step).value;
    assert Count(s'.active, "t") == 1;
    RunOne(cfg, START, step, s');
  }

  lemma {:induction false} RunOne(cfg: Config, s: State, step: Step, s': State)
    requires Next(cfg, s, step) == Some(s')
    ensures Run(cfg, s, [step]) == Some(s')
  {
    hide Next;
    assert [step][0] == step && [step][1..] == [];
    assert Run(cfg, s', []) == Some(s');
  }

  /** MAX_ACTIVE_JOBS_PER_TENANT is respected in every run exactly when it is at least 1. */
  lemma {:induction false} SettingIsRespectedIff(cfg: Config)
    requires cfg.maxCost >= 0.0
    ensures (forall steps, t :: !Oversteps(cfg, steps, t)) <==> cfg.maxActive >= 1
  {
    if cfg.maxActive >= 1 {
      forall steps, t ensures !Oversteps(cfg, steps, t) {
        if Run(cfg, START, steps).Some? {
          LimiterIsSafe(cfg, START, steps, Run(cfg, START, steps).value, t);
        }
      }
    } else {
      FirstJobOversteps(cfg);
    }
  }

  lemma {:induction false} ProductGrows(a: real, b: real, c: real)
    requires a < b && c > 0.0
    ensures a * c < b * c
  {
    assert b * c - a * c == (b - a) * c;
  }

  lemma {:induction false} Archimedes(c: real, x: real) returns (n: nat)
    requires c > 0.0 && x >= 0.0
    ensures n as real * c > x
  {
    var ratio := x / c;
    assert ratio * c == x;
    n := ratio.Floor + 1;
    ProductGrows(ratio, n as real, c);
  }

  function EmbeddingEvent(tenant: string, chunks: nat): Event {
    Event(Embedding, tenant, None, None, Some(EmbeddingUsage("text-embedding-v4", chunks)))
  }

  /** That term is needed: one ingestion can record any cost, whatever the budget and the limits. */
  lemma {:induction false} UngatedCostIsUnbounded(cfg: Config, tenant: string, limit: real) returns (step: Step,
                                                  s': State)
    requires limit >= 0.0
    ensures Next(cfg, START, step) == Some(s')
    ensures Answer(s'.log, MonthOf(cfg, tenant)).cost > limit
  {
    hide Worth, Answer, Selects, NonNegative;
    var n := Archimedes(0.0000001, limit);
    var event := EmbeddingEvent(tenant, n);
    EmbeddingPrice(tenant, n);
    FirstEmission(cfg, tenant, event);
    step := RecordOther(cfg.today, event);
    s' := Next(cfg, START, step).value;
  }

  lemma {:induction false} EmbeddingPrice(tenant: string, chunks: nat)
    ensures NonNegative(EmbeddingEvent(tenant, chunks))
    ensures Worth(EmbeddingEvent(tenant, chunks)).cost == chunks as real * 0.0000001
  {
    assert ModelPrice("text-embedding-v4") == Some(Price(0.0001, 0.0));
  }

  lemma {:induction false} FirstEmission(cfg: Config, tenant: string, event: Event)
    requires event.tenant == tenant
    ensures Answer(Append(Empty, Emission(cfg.today, event)), MonthOf(cfg, tenant)).cost == Worth(event).cost
  {
    hide Worth, KeyOf;
    assert Selects(Emission(cfg.today, event), MonthOf(cfg, tenant));
  }
}
