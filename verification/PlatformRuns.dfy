/** Which acts of a job the platform can take, and the runs that show its bounds to be exact. */
module PlatformRuns {
  import opened Text
  import opened UsageKeys
  import opened UsageEvents
  import opened UsageStore
  import opened Spending
  import opened Limiter
  import opened JobProtocol
  import opened Budget
  import opened Platform

  // ---------- enabled steps ----------

  /** A complete scan of any log exists. */
  lemma {:induction false} CompleteScan(log: Log, prefix: string) returns (keys: seq<string>)
    ensures ScanOf(keys, log, prefix)
  {
    hide KeyOf;
    keys := [];
    if log.Append? {
      keys := CompleteScan(log.before, prefix);
      var key := KeyOf(log.last);
      if Counts(log.last.event) && prefix <= key && key !in keys {
        keys := keys + [key];
      }
    }
  }

  /** A scan that no emitter disturbs reads exactly the tenant's total. */
  lemma {:induction false} QuietScan(log: Log, now: Log, q: Query) returns (fetched: seq<Read>)
    requires AllNonNegative(now) && ColonFree(now) && ':' !in q.tenant && Reached(log, now)
    ensures Within(fetched, log, now) && ScanCovers(KeysOf(fetched), log, TenantPrefix(q.tenant))
    ensures Reading(fetched, q) == Answer(log, q).cost
  {
    hide TenantPrefix;
    var keys := CompleteScan(log, TenantPrefix(q.tenant));
    fetched := seq(|keys|, i requires 0 <= i < |keys| => Read(keys[i], log));
    assert KeysOf(fetched) == keys;
    AllNonNegativeBefore(log, now);
    ColonFreeBefore(log, now);
    FuzzyScan(fetched, log, log, q);
  }

  /** Logs and jobs as issued tenant IDs give them. */
  ghost predicate Clean(s: State) {
    && AllNonNegative(s.log) && ColonFree(s.log)
    && forall j :: j in s.jobs ==> ':' !in s.jobs[j].tenant && Reached(s.jobs[j].start, s.log)
  }

  /** The tenant's total when the job began its check lets the check admit a call. */
  ghost predicate Admissible(cfg: Config, job: Job) {
    BudgetOf(cfg, job.tenant) <= 0.0 || Answer(job.start, MonthOf(cfg, job.tenant)).cost <= BudgetOf(cfg, job.tenant)
  }

  /** A check can admit the call exactly if there is no budget or the total at its start was within it. */
  lemma {:induction false} AdmitIsEnabledIff(cfg: Config, s: State, job: nat)
    requires cfg.maxCost >= 0.0 && Clean(s) && job in s.jobs && s.jobs[job].phase == Checking
    ensures (exists step :: Next(cfg, s, step).Some? && ActOf(cfg, s, step, job) == [Admit])
       <==> Admissible(cfg, s.jobs[job])
  {
    hide Answer, Reading, ScannedBy, Allowed;
    var j := s.jobs[job];
    if Admissible(cfg, j) {
      var step := AdmittingStep(cfg, s, job);
      assert Next(cfg, s, step).Some? && ActOf(cfg, s, step, job) == [Admit];
    }
    forall step | Next(cfg, s, step).Some? && ActOf(cfg, s, step, job) == [Admit] ensures Admissible(cfg, j) {
      assert step.FinishCheck? && step.job == job;
      if BudgetOf(cfg, j.tenant) > 0.0 {
        AllowedMeansWithinBudget(cfg, s, j, step.fetched, step.model, step.estimatedInput, step.estimatedOutput);
      }
    }
  }

  /**
   * A refusal is justified: a check that names no model, over a scan that repeats no key, refuses only
   * if there is a budget and the tenant's total at the end of the scan is above it.
   */
  lemma {:induction false} RefusalIsJustified(cfg: Config, s: State, job: Job, fetched: seq<Read>, input: nat,
                                              output: nat)
    requires AllNonNegative(s.log) && ColonFree(s.log) && ':' !in job.tenant && Reached(job.start, s.log)
    requires ScannedBy(s, job, fetched) && NoDuplicates(KeysOf(fetched))
    requires !Allowed(cfg, job.tenant, fetched, "", input, output)
    ensures BudgetOf(cfg, job.tenant) > 0.0
    ensures Answer(s.log, MonthOf(cfg, job.tenant)).cost > BudgetOf(cfg, job.tenant)
  {
    hide Answer, Reading;
    FuzzyScan(fetched, job.start, s.log, MonthOf(cfg, job.tenant));
    AgentGateSeesOnlyTheRecord(BudgetOf(cfg, job.tenant), Reading(fetched, MonthOf(cfg, job.tenant)), input, output);
  }

  lemma {:induction false} AdmittingStep(cfg: Config, s: State, job: nat) returns (step: Step)
    requires Clean(s) && job in s.jobs && s.jobs[job].phase == Checking && Admissible(cfg, s.jobs[job])
    ensures step.FinishCheck? && step.job == job && ScannedBy(s, s.jobs[job], step.fetched)
    ensures Allowed(cfg, s.jobs[job].tenant, step.fetched, step.model, step.estimatedInput, step.estimatedOutput)
  {
    hide Answer, Reading, ScanCovers, Within;
    var j := s.jobs[job];
    var fetched := QuietScan(j.start, s.log, MonthOf(cfg, j.tenant));
    AgentGateSeesOnlyTheRecord(BudgetOf(cfg, j.tenant), Reading(fetched, MonthOf(cfg, j.tenant)), 0, 0);
    step := FinishCheck(job, fetched, "", 0, 0);
  }

  function CallOf(cfg: Config, tenant: string, usage: LLMUsage): Emission {
    Emission(cfg.today, CallEvent(tenant, usage))
  }

  /** What one act of a job needs of the state. */
  ghost predicate CanAct(cfg: Config, s: State, job: nat, act: Act) {
    && job in s.jobs && Advance(s.jobs[job].phase, act).Some?
    && (act == Admit ==> Admissible(cfg, s.jobs[job]))
    && (act.Record? || act.Unrecorded? ==> IsCall(cfg, s.jobs[job].tenant, act.usage))
  }

  /** The state after one act of a job. */
  ghost function Acted(cfg: Config, s: State, job: nat, act: Act): State
    requires job in s.jobs && Advance(s.jobs[job].phase, act).Some?
  {
    var j := s.jobs[job];
    State(s.active,
          s.jobs[job := Job(j.tenant, Advance(j.phase, act).value, if act == BeginCheck then s.log else j.start)],
          if act.Record? then Append(s.log, CallOf(cfg, j.tenant, act.usage)) else s.log,
          if act.Unrecorded? then s.unrecorded[j.tenant := Owed(s, j.tenant) + CallCost(j.tenant, act.usage)]
          else s.unrecorded, s.died)
  }

  /** Every act of the protocol is a step of the platform wherever the act's condition holds. */
  lemma {:induction false} ActIsEnabled(cfg: Config, s: State, job: nat, act: Act) returns (step: Step)
    requires Clean(s) && CanAct(cfg, s, job, act)
    ensures Next(cfg, s, step).Some? && Next(cfg, s, step).value == Acted(cfg, s, job, act)
    ensures forall j :: ActOf(cfg, s, step, j) == if j == job then [act] else []
  {
    hide Answer, Reading, ScannedBy, Allowed, IsCall, CallCost, Admissible, Clean;
    match act
    case BeginCheck => step := StartCheck(job);
    case Admit => step := AdmittingStep(cfg, s, job);
    case Refuse => step := FailCheck(job);
    case Fail => step := FailCall(job);
    case Record(usage) => step := RecordCall(job, cfg.today, usage);
    case Unrecorded(usage) => step := DropCall(job, usage);
    var s', after := Next(cfg, s, step).value, Acted(cfg, s, job, act);
    assert s'.jobs == after.jobs && s'.log == after.log && s'.unrecorded == after.unrecorded;
    assert s' == after;
  }

  // ---------- runs of given acts ----------

  /** One more step at the end of a run. */
  lemma {:induction false} Extend(cfg: Config, s: State, steps: seq<Step>, mid: State, step: Step, s': State)
    requires Run(cfg, s, steps) == Some(mid) && Next(cfg, mid, step).Some? && Next(cfg, mid, step).value == s'
    ensures Run(cfg, s, steps + [step]) == Some(s')
    ensures forall j: nat :: ActsIn(cfg, s, steps + [step], j) == ActsIn(cfg, s, steps, j) + ActOf(cfg, mid, step, j)
  {
    hide Next, ActOf;
    assert [step][0] == step && [step][1..] == [];
    assert Run(cfg, mid, [step]) == Some(s');
    RunConcat(cfg, s, steps, mid, [step]);
    forall j ensures ActsIn(cfg, s, steps + [step], j) == ActsIn(cfg, s, steps, j) + ActOf(cfg, mid, step, j) {
      ActsConcat(cfg, s, steps, mid, [step], j);
      assert ActsIn(cfg, mid, [step], j) == ActOf(cfg, mid, step, j) + [];
    }
  }

  lemma {:induction false} ActedIsClean(cfg: Config, s: State, job: nat, act: Act)
    requires Clean(s) && CanAct(cfg, s, job, act)
    ensures Clean(Acted(cfg, s, job, act))
  {
    hide Answer, Worth, Admissible;
    var s' := Acted(cfg, s, job, act);
    assert Reached(s.log, s'.log);
    forall j | j in s'.jobs ensures ':' !in s'.jobs[j].tenant && Reached(s'.jobs[j].start, s'.log) {
      if j in s.jobs {
        ReachedTrans(s.jobs[j].start, s.log, s'.log);
      }
    }
  }

  /** The state after a call begun now by a ready job, which records it or drops it. */
  ghost function Called(cfg: Config, s: State, job: nat, last: Act): State
    requires job in s.jobs
  {
    var t := s.jobs[job].tenant;
    State(s.active, s.jobs[job := Job(t, Ready, s.log)],
          if last.Record? then Append(s.log, CallOf(cfg, t, last.usage)) else s.log,
          if last.Unrecorded? then s.unrecorded[t := Owed(s, t) + CallCost(t, last.usage)] else s.unrecorded, s.died)
  }

  /** The state after a ready job was admitted to its call. */
  ghost function Admitted(s: State, job: nat): State
    requires job in s.jobs
  {
    s.(jobs := s.jobs[job := Job(s.jobs[job].tenant, Calling, s.log)])
  }

  lemma {:induction false} AdmitNow(cfg: Config, s: State, job: nat) returns (steps: seq<Step>)
    requires Clean(s) && job in s.jobs && s.jobs[job].phase == Ready
    requires Admissible(cfg, s.jobs[job].(start := s.log))
    ensures Run(cfg, s, steps) == Some(Admitted(s, job)) && Clean(Admitted(s, job))
    ensures forall j: nat :: ActsIn(cfg, s, steps, j) == if j == job then [BeginCheck, Admit] else []
  {
    hide Admissible, Next, ActOf;
    var begin := ActIsEnabled(cfg, s, job, BeginCheck);
    ActedIsClean(cfg, s, job, BeginCheck);
    var checking := Acted(cfg, s, job, BeginCheck);
    assert checking.jobs[job] == s.jobs[job].(start := s.log, phase := Checking);
    SameAdmissible(cfg, checking.jobs[job], s.jobs[job].(start := s.log));
    var admit := ActIsEnabled(cfg, checking, job, Admit);
    ActedIsClean(cfg, checking, job, Admit);
    assert Acted(cfg, checking, job, Admit).jobs == Admitted(s, job).jobs;
    assert Acted(cfg, checking, job, Admit) == Admitted(s, job);
    Extend(cfg, s, [], s, begin, checking);
    Extend(cfg, s, [] + [begin], checking, admit, Admitted(s, job));
    steps := [] + [begin] + [admit];
  }

  lemma {:induction false} SameAdmissible(cfg: Config, a: Job, b: Job)
    requires a.tenant == b.tenant && a.start == b.start
    ensures Admissible(cfg, a) == Admissible(cfg, b)
  {
  }

  /** An admitted job ends its call. */
  lemma {:induction false} EndCall(cfg: Config, s: State, job: nat, last: Act) returns (steps: seq<Step>)
    requires Clean(s) && CanAct(cfg, s, job, last)
    ensures Run(cfg, s, steps) == Some(Acted(cfg, s, job, last))
    ensures Clean(Acted(cfg, s, job, last))
    ensures forall j: nat :: ActsIn(cfg, s, steps, j) == if j == job then [last] else []
  {
    hide Next, ActOf, Admissible, IsCall, CallCost;
    var step := ActIsEnabled(cfg, s, job, last);
    ActedIsClean(cfg, s, job, last);
    Extend(cfg, s, [], s, step, Acted(cfg, s, job, last));
    steps := [] + [step];
  }

  /** A ready job makes one whole call. */
  lemma {:induction false} CallNow(cfg: Config, s: State, job: nat, last: Act) returns (steps: seq<Step>)
    requires Clean(s) && job in s.jobs && s.jobs[job].phase == Ready
    requires Admissible(cfg, s.jobs[job].(start := s.log))
    requires last.Record? || last.Unrecorded?
    requires CanAct(cfg, Admitted(s, job), job, last)
    ensures Run(cfg, s, steps) == Some(Called(cfg, s, job, last))
    ensures Clean(Called(cfg, s, job, last))
    ensures forall j: nat :: ActsIn(cfg, s, steps, j) == if j == job then [BeginCheck, Admit, last] else []
  {
    hide Next, Admissible, ActsIn;
    var admit := AdmitNow(cfg, s, job);
    var mid := Admitted(s, job);
    var end := EndCall(cfg, mid, job, last);
    assert Acted(cfg, mid, job, last).jobs == Called(cfg, s, job, last).jobs;
    assert Acted(cfg, mid, job, last) == Called(cfg, s, job, last);
    RunConcat(cfg, s, admit, mid, end);
    forall j ensures ActsIn(cfg, s, admit + end, j) == if j == job then [BeginCheck, Admit, last] else [] {
      ActsConcat(cfg, s, admit, mid, end, j);
    }
    steps := admit + end;
  }

  /** A free slot goes to a new job. */
  lemma {:induction false} TakeSlot(cfg: Config, s: State, job: nat, tenant: string) returns (s': State)
    requires job !in s.jobs && 0 <= Count(s.active, tenant) < cfg.maxActive
    ensures Next(cfg, s, Acquire(job, tenant)).Some? && Next(cfg, s, Acquire(job, tenant)).value == s'
    ensures s' == s.(active := s'.active, jobs := s.jobs[job := Job(tenant, Ready, s.log)])
    ensures Count(s'.active, tenant) == Count(s.active, tenant) + 1
    ensures forall j :: ActOf(cfg, s, Acquire(job, tenant), j) == []
    ensures ':' !in tenant && Clean(s) ==> Clean(s')
  {
    hide ActOf;
    AcquireEffect(s.active, tenant, cfg.maxActive);
    s' := Next(cfg, s, Acquire(job, tenant)).value;
    forall j ensures ActOf(cfg, s, Acquire(job, tenant), j) == [] {
      SlotsAreNoActs(cfg, s, Acquire(job, tenant), j);
    }
  }

  lemma {:induction false} SlotsAreNoActs(cfg: Config, s: State, step: Step, job: nat)
    requires MovesSlots(step)
    ensures ActOf(cfg, s, step, job) == []
  {
  }

  /** A job gives its slot back. */
  lemma {:induction false} GiveBack(cfg: Config, s: State, job: nat, tenant: string) returns (s': State)
    requires job in s.jobs && s.jobs[job].tenant == tenant && s.jobs[job].phase == Ready
    requires Count(s.active, tenant) > 0
    ensures Next(cfg, s, Release(job)).Some? && Next(cfg, s, Release(job)).value == s'
    ensures s' == s.(active := s'.active, jobs := Leave(s, job).jobs)
    ensures Count(s'.active, tenant) == Count(s.active, tenant) - 1
    ensures forall j :: ActOf(cfg, s, Release(job), j) == []
    ensures Clean(s) ==> Clean(s')
  {
    hide ActOf;
    ReleaseEffect(s.active, tenant);
    s' := Next(cfg, s, Release(job)).value;
    forall j ensures ActOf(cfg, s, Release(job), j) == [] {
      SlotsAreNoActs(cfg, s, Release(job), j);
    }
  }

  // ---------- two extreme runs ----------

  /** A call of a model that the price table does not list; recording it costs nothing. */
  const UNLISTED := LLMUsage("unlisted", 1000, 1000)

  /** The acts of a job that records one call. */
  function Answering(usage: LLMUsage): seq<Act> {
    [BeginCheck, Admit, Record(usage)]
  }

  /** The acts of a job that records a call of the unlisted model and then synthesizes. */
  function Synthesizing(usage: LLMUsage): seq<Act> {
    [BeginCheck, Admit, Record(UNLISTED), BeginCheck, Admit, Unrecorded(usage)]
  }

  /** A recorded call adds its price to the tenant's total and to its LLM cost. */
  lemma {:induction false} RecordedCost(cfg: Config, log: Log, tenant: string, usage: LLMUsage)
    ensures var q, after := MonthOf(cfg, tenant), Append(log, CallOf(cfg, tenant, usage));
            && Answer(after, q).cost == Answer(log, q).cost + CallCost(tenant, usage)
            && LLMCost(after, q) == LLMCost(log, q) + CallCost(tenant, usage)
  {
    hide Worth, KeyOf, Selects;
    CallIsSelected(cfg, tenant, usage);
  }

  lemma {:induction false} CallIsSelected(cfg: Config, tenant: string, usage: LLMUsage)
    ensures Selects(CallOf(cfg, tenant, usage), MonthOf(cfg, tenant))
  {
    hide KeyOf;
  }

  lemma {:induction false} UnlistedIsFree(tenant: string)
    ensures NonNegative(CallEvent(tenant, UNLISTED)) && CallCost(tenant, UNLISTED) == 0.0
  {
    assert ModelPrice("unlisted") == None;
  }

  /** A call of exactly price maxCost. */
  predicate MaximalCall(cfg: Config, tenant: string, usage: LLMUsage) {
    NonNegative(CallEvent(tenant, usage)) && CallCost(tenant, usage) == cfg.maxCost
  }

  lemma {:induction false} MaximalIsCall(cfg: Config, tenant: string, usage: LLMUsage)
    requires MaximalCall(cfg, tenant, usage)
    ensures IsCall(cfg, tenant, usage) && IsCall(cfg, tenant, UNLISTED) && cfg.maxCost >= 0.0
  {
    UnlistedIsFree(tenant);
    WorthIsNonNegative(CallEvent(tenant, usage));
  }

  /** The tenant runs no job, and a check that began now could admit a call. */
  ghost predicate Idle(cfg: Config, s: State, tenant: string) {
    && Clean(s) && s.jobs == map[] && Count(s.active, tenant) == 0
    && ':' !in tenant && Answer(s.log, MonthOf(cfg, tenant)).cost <= BudgetOf(cfg, tenant)
  }

  lemma {:induction false} IdleAdmits(cfg: Config, s: State, tenant: string, job: Job)
    requires Idle(cfg, s, tenant) && job.tenant == tenant && job.start == s.log
    ensures Admissible(cfg, job)
  {
  }

  lemma {:induction false} UnlistedKeepsAdmissible(cfg: Config, log: Log, tenant: string, phase: Phase)
    requires Admissible(cfg, Job(tenant, phase, log))
    ensures Admissible(cfg, Job(tenant, phase, Append(log, CallOf(cfg, tenant, UNLISTED))))
  {
    RecordedCost(cfg, log, tenant, UNLISTED);
    UnlistedIsFree(tenant);
  }

  /** A job takes a slot of an idle tenant and records a call of an unlisted model. */
  lemma {:induction false} StartRound(cfg: Config, s: State, job: nat, tenant: string) returns (steps: seq<Step>,
                                      s': State)
    requires cfg.maxActive >= 1 && Idle(cfg, s, tenant) && IsCall(cfg, tenant, UNLISTED)
    ensures Run(cfg, s, steps) == Some(s') && Clean(s')
    ensures s'.jobs == map[job := Job(tenant, Ready, s.log)] && s'.log == Append(s.log, CallOf(cfg, tenant, UNLISTED))
    ensures Count(s'.active, tenant) == 1 && s'.unrecorded == s.unrecorded
    ensures forall j: nat :: ActsIn(cfg, s, steps, j) == if j == job then Answering(UNLISTED) else []
  {
    hide Next, Admissible, Answer, IsCall, CallCost, ActsIn, ActOf, Clean, Count;
    var s1 := TakeSlot(cfg, s, job, tenant);
    Extend(cfg, s, [], s, Acquire(job, tenant), s1);
    NoActs(cfg, s);
    IdleAdmits(cfg, s, tenant, s1.jobs[job].(start := s1.log));
    var call := CallNow(cfg, s1, job, Record(UNLISTED));
    s' := Called(cfg, s1, job, Record(UNLISTED));
    steps := [] + [Acquire(job, tenant)];
    JoinActs(cfg, s, steps, s1, call, s');
    steps := steps + call;
    assert [] + [] + Answering(UNLISTED) == Answering(UNLISTED);
  }

  /** One job records a call of an unlisted model and then leaves a call of price maxCost unrecorded. */
  lemma {:induction false} SynthesisRound(cfg: Config, s: State, job: nat, tenant: string, usage: LLMUsage)
      returns (steps: seq<Step>, s': State)
    requires cfg.maxActive >= 1 && Idle(cfg, s, tenant) && MaximalCall(cfg, tenant, usage)
    ensures Run(cfg, s, steps) == Some(s') && Idle(cfg, s', tenant)
    ensures s'.log == Append(s.log, CallOf(cfg, tenant, UNLISTED))
    ensures Owed(s', tenant) == Owed(s, tenant) + cfg.maxCost
    ensures forall j: nat :: ActsIn(cfg, s, steps, j) == if j == job then Synthesizing(usage) else []
  {
    hide Next, Admissible, Answer, IsCall, CallCost, ActsIn, ActOf, Clean, Count;
    MaximalIsCall(cfg, tenant, usage);
    var first, s2 := StartRound(cfg, s, job, tenant);
    IdleAdmits(cfg, s, tenant, Job(tenant, Ready, s.log));
    UnlistedKeepsAdmissible(cfg, s.log, tenant, Ready);
    var second := CallNow(cfg, s2, job, Unrecorded(usage));
    var s3 := Called(cfg, s2, job, Unrecorded(usage));
    s' := GiveBack(cfg, s3, job, tenant);
    assert s'.jobs == map[];
    JoinActs(cfg, s, first, s2, second, s3);
    Extend(cfg, s, first + second, s3, Release(job), s');
    steps := first + second + [Release(job)];
    RecordedCost(cfg, s.log, tenant, UNLISTED);
    UnlistedIsFree(tenant);
    assert Answering(UNLISTED) + [BeginCheck, Admit, Unrecorded(usage)] + [] == Synthesizing(usage);
  }

  lemma {:induction false} NoActs(cfg: Config, s: State)
    ensures forall j: nat :: ActsIn(cfg, s, [], j) == []
  {
  }

  lemma {:induction false} JoinActs(cfg: Config, s: State, a: seq<Step>, mid: State, b: seq<Step>, s': State)
    requires Run(cfg, s, a) == Some(mid) && Run(cfg, mid, b) == Some(s')
    ensures Run(cfg, s, a + b) == Some(s')
    ensures forall j: nat :: ActsIn(cfg, s, a + b, j) == ActsIn(cfg, s, a, j) + ActsIn(cfg, mid, b, j)
  {
    RunConcat(cfg, s, a, mid, b);
    forall j ensures ActsIn(cfg, s, a + b, j) == ActsIn(cfg, s, a, j) + ActsIn(cfg, mid, b, j) {
      ActsConcat(cfg, s, a, mid, b, j);
    }
  }

  /** n such jobs, one after another: nothing is recorded as spent, and n maximal calls are. */
  lemma {:induction false} SynthesisRounds(cfg: Config, s: State, tenant: string, usage: LLMUsage, n: nat)
      returns (steps: seq<Step>, s': State)
    requires cfg.maxActive >= 1 && Idle(cfg, s, tenant) && MaximalCall(cfg, tenant, usage)
    ensures Run(cfg, s, steps) == Some(s') && Idle(cfg, s', tenant)
    ensures LLMCost(s'.log, MonthOf(cfg, tenant)) == LLMCost(s.log, MonthOf(cfg, tenant))
    ensures Answer(s'.log, MonthOf(cfg, tenant)).cost == Answer(s.log, MonthOf(cfg, tenant)).cost
    ensures Owed(s', tenant) == Owed(s, tenant) + Times(n, cfg.maxCost)
    ensures forall j: nat :: ActsIn(cfg, s, steps, j) == if j < n then Synthesizing(usage) else []
  {
    hide Next, Idle, CallCost, Answer, LLMCost;
    if n == 0 {
      steps, s' := [], s;
    } else {
      var before, mid := SynthesisRounds(cfg, s, tenant, usage, n - 1);
      var round, after := SynthesisRound(cfg, mid, n - 1, tenant, usage);
      RecordedCost(cfg, mid.log, tenant, UNLISTED);
      UnlistedIsFree(tenant);
      JoinActs(cfg, s, before, mid, round, after);
      steps, s' := before + round, after;
    }
  }

  /** The jobs are first to first + m - 1, of the tenant and all admitted when the log was `start`. */
  ghost predicate Block(jobs: map<nat, Job>, tenant: string, first: nat, m: nat, start: Log) {
    forall j :: (j in jobs <==> first <= j < first + m) && (j in jobs ==> jobs[j] == Job(tenant, Calling, start))
  }

  /** m jobs take a slot each and are all admitted before any of them records. */
  lemma {:induction false} AdmitMany(cfg: Config, s: State, tenant: string, first: nat, m: nat)
      returns (steps: seq<Step>, s': State)
    requires Idle(cfg, s, tenant) && m <= cfg.maxActive
    ensures Run(cfg, s, steps) == Some(s') && Clean(s')
    ensures s'.log == s.log && s'.unrecorded == s.unrecorded && Count(s'.active, tenant) == m
    ensures Block(s'.jobs, tenant, first, m, s.log)
    ensures forall j: nat :: ActsIn(cfg, s, steps, j) == if first <= j < first + m then [BeginCheck, Admit] else []
  {
    hide Next, Admissible, Answer, ActOf, Clean, Count;
    if m == 0 {
      steps, s' := [], s;
    } else {
      var before, mid := AdmitMany(cfg, s, tenant, first, m - 1);
      var job := first + m - 1;
      var s1 := TakeSlot(cfg, mid, job, tenant);
      Extend(cfg, s, before, mid, Acquire(job, tenant), s1);
      IdleAdmits(cfg, s, tenant, s1.jobs[job].(start := s1.log));
      var admit := AdmitNow(cfg, s1, job);
      s' := Admitted(s1, job);
      JoinActs(cfg, s, before + [Acquire(job, tenant)], s1, admit, s');
      steps := before + [Acquire(job, tenant)] + admit;
    }
  }

  /** The admitted jobs record their calls, the last first. */
  lemma {:induction false} RecordMany(cfg: Config, s: State, tenant: string, first: nat, m: nat, start: Log,
                                      usage: LLMUsage)
      returns (steps: seq<Step>, s': State)
    requires Clean(s) && Block(s.jobs, tenant, first, m, start) && Count(s.active, tenant) == m
    requires MaximalCall(cfg, tenant, usage)
    ensures Run(cfg, s, steps) == Some(s') && Owed(s', tenant) == Owed(s, tenant)
    ensures LLMCost(s'.log, MonthOf(cfg, tenant)) == LLMCost(s.log, MonthOf(cfg, tenant)) + Times(m, cfg.maxCost)
    ensures forall j: nat :: ActsIn(cfg, s, steps, j) == if first <= j < first + m then [Record(usage)] else []
    decreases m
  {
    hide Next, Answer, ActOf, Clean, IsCall, CallCost, LLMCost, Count;
    if m == 0 {
      steps, s' := [], s;
    } else {
      var job := first + m - 1;
      MaximalIsCall(cfg, tenant, usage);
      var record := EndCall(cfg, s, job, Record(usage));
      var s1 := Acted(cfg, s, job, Record(usage));
      RecordedCost(cfg, s.log, tenant, usage);
      var s2 := GiveBack(cfg, s1, job, tenant);
      Extend(cfg, s, record, s1, Release(job), s2);
      var rest, end := RecordMany(cfg, s2, tenant, first, m - 1, start, usage);
      JoinActs(cfg, s, record + [Release(job)], s2, rest, end);
      steps, s' := record + [Release(job)] + rest, end;
    }
  }
}
