/** Agent runs as the jobs of an interleaved run of the platform. */
module AgentOnPlatform {
  import opened Text
  import opened JobProtocol
  import opened Platform
  import opened PlatformRuns
  import AgentLoop
  import Limiter
  import Spending
  import UsageEvents

  /** The acts of some agent run under these limits, with what its calls used. */
  ghost predicate IsAgentRun(lim: AgentLoop.Limits, acts: seq<Act>) {
    exists env, system, context ::
      AgentLoop.Acts(AgentLoop.RunFrom(lim, env, AgentLoop.Initial(system, context)).1) == acts
  }

  /** What a job may have done of an agent run so far, or before it crashed. */
  ghost predicate PartOfAgentRun(lim: AgentLoop.Limits, acts: seq<Act>) {
    exists whole :: IsAgentRun(lim, whole) && acts <= whole
  }

  /** A run in which every job is an agent run, finished, running or crashed, and no emission is lost. */
  ghost predicate AgentJobs(cfg: Config, lim: AgentLoop.Limits, s: State, steps: seq<Step>, s': State) {
    && Init(cfg, s) && Run(cfg, s, steps) == Some(s')
    && forall j: nat :: PartOfAgentRun(lim, ActsIn(cfg, s, steps, j))
  }

  // ---------- one job ----------

  /** An agent run follows the protocol, records at most maxLLMCalls calls and drops at most one, the last. */
  lemma {:induction false} AgentActs(lim: AgentLoop.Limits, acts: seq<Act>)
    requires IsAgentRun(lim, acts)
    ensures AdvanceAll(Ready, acts) == Some(Ready)
    ensures Number(acts, IsRecord) <= AgentLoop.Max0(lim.maxLLMCalls)
    ensures Number(acts, IsUnrecorded) <= 1
    ensures Number(acts, IsUnrecorded) == 1 ==> acts != [] && acts[|acts| - 1].Unrecorded?
    ensures Number(acts, IsUnrecorded) == 1 && lim.maxLLMCalls >= 1 ==> Number(acts, IsRecord) >= 1
  {
    hide AgentLoop.RunFrom, AgentLoop.Acts, Number, AdvanceAll;
    var env, system, context :|
      AgentLoop.Acts(AgentLoop.RunFrom(lim, env, AgentLoop.Initial(system, context)).1) == acts;
    AgentLoop.RunFinishes(lim, env, system, context);
    AgentLoop.RunDropsOnlySynthesis(lim, env, system, context);
    AgentLoop.RecordsAreEmissions(AgentLoop.RunFrom(lim, env, AgentLoop.Initial(system, context)).1);
  }

  /** Part of an agent run drops at most one call, and if it does it recorded one before. */
  lemma {:induction false} PartDropsAtMostOne(lim: AgentLoop.Limits, acts: seq<Act>)
    requires PartOfAgentRun(lim, acts)
    ensures Number(acts, IsUnrecorded) <= 1
    ensures Number(acts, IsUnrecorded) == 1 && lim.maxLLMCalls >= 1 ==> Number(acts, IsRecord) >= 1
  {
    hide IsAgentRun, Number, AdvanceAll;
    var whole :| IsAgentRun(lim, whole) && acts <= whole;
    AgentActs(lim, whole);
    assert whole == acts + whole[|acts|..];
    NumberConcat(acts, whole[|acts|..], IsUnrecorded);
    if |acts| < |whole| && Number(whole, IsUnrecorded) == 1 {
      var init, last := whole[..|whole| - 1], whole[|whole| - 1];
      assert whole == init + [last] && init == acts + init[|acts|..];
      NumberConcat(init, [last], IsUnrecorded);
      NumberConcat(acts, init[|acts|..], IsUnrecorded);
      AgentLoop.NumberOfOne(last);
    } else {
      assert |acts| == |whole| ==> acts == whole;
    }
  }

  /**
   * Let a job's part of any interleaving be the acts of some agent run, whatever other jobs, crashes
   * and lost messages do in between. Then at its end no call is outstanding, so giving the slot back
   * loses no record, and the job has recorded at most maxLLMCalls calls of at most maxCost each.
   */
  lemma {:induction false} AgentJobRecordsWithinItsCaps(cfg: Config, s: State, steps: seq<Step>, s': State, job: nat,
                                                        lim: AgentLoop.Limits)
    requires job in s.jobs && s.jobs[job].phase == Ready && cfg.maxCost >= 0.0
    requires Run(cfg, s, steps) == Some(s')
    requires forall i :: 0 <= i < |steps| ==> !MovesSlotOf(steps[i], job)
    requires IsAgentRun(lim, ActsIn(cfg, s, steps, job))
    ensures job in s'.jobs && s'.jobs[job].phase == Ready
    ensures CostOf(s.jobs[job].tenant, ActsIn(cfg, s, steps, job))
         <= AgentLoop.Max0(lim.maxLLMCalls) as real * cfg.maxCost
  {
    hide *;
    AgentActs(lim, ActsIn(cfg, s, steps, job));
    ActsFollowProtocol(cfg, s, steps, s', job);
    CapCost(Number(ActsIn(cfg, s, steps, job), IsRecord), AgentLoop.Max0(lim.maxLLMCalls), cfg.maxCost);
  }

  lemma {:induction false} CapCost(n: nat, cap: nat, c: real)
    requires n <= cap && c >= 0.0
    ensures Times(n, c) <= cap as real * c
  {
    TimesGrows(n, cap, c);
    TimesIsProduct(cap, c);
  }

  // ---------- what a tenant really spends ----------

  /**
   * What a tenant really spends when every job is an agent run and no emission is lost, with the calls
   * of jobs that crashed at any point: at most its budget, one maximal call per slot, and one per job
   * that synthesized. Those are among the jobs that got a slot, and with at least one LLM call allowed
   * each of them has recorded a call.
   */
  lemma {:induction false} AgentSpendIsBounded(cfg: Config, lim: AgentLoop.Limits, s: State, steps: seq<Step>,
                                               s': State, tenant: string)
    requires AgentJobs(cfg, lim, s, steps, s') && Enforced(cfg, tenant)
    ensures LLMSpend(cfg, s', tenant)
         <= BudgetOf(cfg, tenant)
            + (Limiter.Cap(cfg.maxActive) + |DroppedBy(cfg, s, steps, tenant)|) as real * cfg.maxCost
    ensures DroppedBy(cfg, s, steps, tenant) <= Started(cfg, s, steps, tenant)
    ensures |DroppedBy(cfg, s, steps, tenant)| <= |Started(cfg, s, steps, tenant)|
    ensures lim.maxLLMCalls >= 1 ==>
              forall j :: j in DroppedBy(cfg, s, steps, tenant) ==> Number(ActsIn(cfg, s, steps, j), IsRecord) >= 1
  {
    hide *;
    JobsDropAtMostOne(cfg, lim, s, steps, s');
    DropsAreJobs(cfg, s, steps, tenant);
    ActualSpendIsBounded(cfg, s, steps, s', tenant);
    DroppersStarted(cfg, s, steps, tenant);
    NobodyHolds(cfg, s, tenant);
    SubsetIsSmaller(DroppedBy(cfg, s, steps, tenant), Started(cfg, s, steps, tenant));
  }

  lemma {:induction false} JobsDropAtMostOne(cfg: Config, lim: AgentLoop.Limits, s: State, steps: seq<Step>, s': State)
    requires AgentJobs(cfg, lim, s, steps, s')
    ensures Init(cfg, s) && Run(cfg, s, steps) == Some(s')
    ensures forall j :: Number(ActsIn(cfg, s, steps, j), IsUnrecorded) <= 1
    ensures lim.maxLLMCalls >= 1 ==>
              forall j :: Number(ActsIn(cfg, s, steps, j), IsUnrecorded) == 1 ==>
                Number(ActsIn(cfg, s, steps, j), IsRecord) >= 1
  {
    hide Run, Init, PartOfAgentRun, ActsIn, Number;
    forall j: nat
      ensures Number(ActsIn(cfg, s, steps, j), IsUnrecorded) <= 1
      ensures Number(ActsIn(cfg, s, steps, j), IsUnrecorded) == 1 && lim.maxLLMCalls >= 1 ==>
                Number(ActsIn(cfg, s, steps, j), IsRecord) >= 1
    {
      PartDropsAtMostOne(lim, ActsIn(cfg, s, steps, j));
    }
  }

  lemma {:induction false} NobodyHolds(cfg: Config, s: State, tenant: string)
    requires Init(cfg, s)
    ensures Holders(s, tenant) == {}
  {
  }

  // ---------- the bounds are exact ----------

  lemma {:induction false} NothingIsPart(lim: AgentLoop.Limits)
    requires lim.maxLLMCalls >= 1
    ensures PartOfAgentRun(lim, [])
  {
    AnsweringIsAgent(lim, UNLISTED);
    assert [] <= Answering(UNLISTED);
  }

  lemma {:induction false} AnsweringIsAgent(lim: AgentLoop.Limits, usage: UsageEvents.LLMUsage)
    requires lim.maxLLMCalls >= 1
    ensures IsAgentRun(lim, Answering(usage)) && PartOfAgentRun(lim, Answering(usage))
  {
    hide AgentLoop.RunFrom;
    var env := AgentLoop.AnswersAtOnce(lim, "", "", usage);
    assert AgentLoop.Acts(AgentLoop.RunFrom(lim, env, AgentLoop.Initial("", "")).1) == Answering(usage);
    assert Answering(usage) <= Answering(usage);
  }

  lemma {:induction false} SynthesizingIsAgent(lim: AgentLoop.Limits, usage: UsageEvents.LLMUsage)
    requires lim.maxLLMCalls >= 1
    ensures IsAgentRun(lim, Synthesizing(usage)) && PartOfAgentRun(lim, Synthesizing(usage))
  {
    hide AgentLoop.RunFrom;
    var env := AgentLoop.SynthesizesAfterOne(lim, "", "", UNLISTED, usage);
    assert AgentLoop.Acts(AgentLoop.RunFrom(lim, env, AgentLoop.Initial("", "")).1) == Synthesizing(usage);
    assert Synthesizing(usage) <= Synthesizing(usage);
  }

  /** A log of k calls of the tenant today. */
  function Spent(cfg: Config, tenant: string, usage: UsageEvents.LLMUsage, k: nat): UsageEvents.Log {
    if k == 0 then UsageEvents.Empty
    else UsageEvents.Append(Spent(cfg, tenant, usage, k - 1), CallOf(cfg, tenant, usage))
  }

  lemma {:induction false} SpentCost(cfg: Config, tenant: string, usage: UsageEvents.LLMUsage, k: nat)
    requires MaximalCall(cfg, tenant, usage) && ':' !in tenant
    ensures var log, q := Spent(cfg, tenant, usage, k), MonthOf(cfg, tenant);
            && Spending.LLMCost(log, q) == Times(k, cfg.maxCost) == UsageEvents.Answer(log, q).cost
            && Spending.AllNonNegative(log) && UsageEvents.ColonFree(log)
            && forall t :: t != tenant ==> Spending.LLMCost(log, MonthOf(cfg, t)) == 0.0
  {
    hide CallCost, UsageEvents.KeyOf, UsageEvents.Worth;
    if k > 0 {
      SpentCost(cfg, tenant, usage, k - 1);
      RecordedCost(cfg, Spent(cfg, tenant, usage, k - 1), tenant, usage);
    }
  }

  /** The month before the run: the most maximal calls that the budget covers, and no job. */
  lemma {:induction false} FullBudget(cfg: Config, tenant: string, usage: UsageEvents.LLMUsage) returns (s: State)
    requires MaximalCall(cfg, tenant, usage) && cfg.maxCost > 0.0 && Enforced(cfg, tenant)
    ensures Init(cfg, s) && Idle(cfg, s, tenant)
    ensures Spending.LLMCost(s.log, MonthOf(cfg, tenant)) + cfg.maxCost > BudgetOf(cfg, tenant)
  {
    hide Spending.LLMCost, UsageEvents.Answer, CallCost, Spending.AllNonNegative, UsageEvents.ColonFree, Spent;
    var n := Archimedes(cfg.maxCost, BudgetOf(cfg, tenant));
    TimesIsProduct(n, cfg.maxCost);
    var k := CallsWithin(BudgetOf(cfg, tenant), cfg.maxCost, n);
    SpentCost(cfg, tenant, usage, k);
    s := State(map[], map[], Spent(cfg, tenant, usage, k), map[], map[]);
  }

  /** Of n calls that pass the budget, the most that stay within it. */
  lemma {:induction false} CallsWithin(budget: real, price: real, n: nat) returns (k: nat)
    requires budget >= 0.0 && Times(n, price) > budget
    ensures Times(k, price) <= budget < Times(k, price) + price
  {
    k := n - 1;
    if Times(n - 1, price) > budget {
      k := CallsWithin(budget, price, n - 1);
    }
  }

  /** From an idle state all slots are taken and every job records a maximal call. */
  lemma {:induction false} FillSlots(cfg: Config, s: State, tenant: string, usage: UsageEvents.LLMUsage, first: nat)
      returns (steps: seq<Step>, s': State)
    requires cfg.maxActive >= 1 && Idle(cfg, s, tenant) && MaximalCall(cfg, tenant, usage)
    ensures Run(cfg, s, steps) == Some(s')
    ensures LLMSpend(cfg, s', tenant) == LLMSpend(cfg, s, tenant) + cfg.maxActive as real * cfg.maxCost
    ensures Owed(s', tenant) == Owed(s, tenant)
    ensures forall j: nat ::
              ActsIn(cfg, s, steps, j) == if first <= j < first + cfg.maxActive then Answering(usage) else []
  {
    hide Next, Idle, Clean, MaximalCall, Spending.LLMCost;
    var admit, mid := AdmitMany(cfg, s, tenant, first, cfg.maxActive);
    var record, end := RecordMany(cfg, mid, tenant, first, cfg.maxActive, s.log, usage);
    JoinActs(cfg, s, admit, mid, record, end);
    TimesIsProduct(cfg.maxActive, cfg.maxCost);
    assert [BeginCheck, Admit] + [Record(usage)] == Answering(usage);
    steps, s' := admit + record, end;
  }

  /** The recorded bound is sharp: with one maximal call less per slot it fails in a run of agent jobs. */
  lemma {:induction false} OverspendBoundIsSharp(cfg: Config, lim: AgentLoop.Limits, tenant: string,
                                                 usage: UsageEvents.LLMUsage)
      returns (s: State, steps: seq<Step>, s': State)
    requires cfg.maxActive >= 1 && lim.maxLLMCalls >= 1 && Enforced(cfg, tenant)
    requires cfg.maxCost > 0.0 && MaximalCall(cfg, tenant, usage)
    ensures AgentJobs(cfg, lim, s, steps, s')
    ensures Spending.LLMCost(s'.log, MonthOf(cfg, tenant))
          > BudgetOf(cfg, tenant) + (cfg.maxActive - 1) as real * cfg.maxCost
  {
    hide Next, Idle, Init, MaximalCall, PartOfAgentRun, IsAgentRun, Spending.LLMCost, Answering, ActsIn, Run;
    s := FullBudget(cfg, tenant, usage);
    steps, s' := FillSlots(cfg, s, tenant, usage, 0);
    AnsweringIsAgent(lim, usage);
    NothingIsPart(lim);
    assert (cfg.maxActive - 1) as real * cfg.maxCost + cfg.maxCost == cfg.maxActive as real * cfg.maxCost;
  }

  /** From an idle state one job synthesizes, and then the slots are filled as before. */
  lemma {:induction false} SynthesizeThenFill(cfg: Config, s: State, tenant: string, usage: UsageEvents.LLMUsage)
      returns (steps: seq<Step>, s': State)
    requires cfg.maxActive >= 1 && Idle(cfg, s, tenant) && MaximalCall(cfg, tenant, usage)
    ensures Run(cfg, s, steps) == Some(s')
    ensures LLMSpend(cfg, s', tenant) == LLMSpend(cfg, s, tenant) + cfg.maxCost + cfg.maxActive as real * cfg.maxCost
    ensures forall j: nat :: ActsIn(cfg, s, steps, j)
                          == if j == 0 then Synthesizing(usage)
                             else if j <= cfg.maxActive then Answering(usage) else []
  {
    hide Next, Idle, MaximalCall, Spending.LLMCost, Answering, Synthesizing, ActsIn, Run;
    var round, mid := SynthesisRounds(cfg, s, tenant, usage, 1);
    var fill, end := FillSlots(cfg, mid, tenant, usage, 1);
    JoinActs(cfg, s, round, mid, fill, end);
    steps, s' := round + fill, end;
    assert Synthesizing(usage) + [] == Synthesizing(usage) && [] + Answering(usage) == Answering(usage);
    assert Times(1, cfg.maxCost) == Times(0, cfg.maxCost) + cfg.maxCost;
  }

  /** A run of agent jobs in which at most n of the tenant's synthesize. */
  ghost predicate FewSyntheses(cfg: Config, lim: AgentLoop.Limits, s: State, steps: seq<Step>, s': State,
                               tenant: string, n: nat) {
    AgentJobs(cfg, lim, s, steps, s') && |DroppedBy(cfg, s, steps, tenant)| <= n
  }

  /** What the tenant really spends keeps to the bound on recorded cost. */
  ghost predicate SpendsWithin(cfg: Config, s: State, tenant: string) {
    LLMSpend(cfg, s, tenant) <= BudgetOf(cfg, tenant) + Limiter.Cap(cfg.maxActive) as real * cfg.maxCost
  }

  /** One synthesis on top of that breaks the bound. */
  lemma {:induction false} OneSynthesisBreaksTheBound(cfg: Config, lim: AgentLoop.Limits, tenant: string,
                                                      usage: UsageEvents.LLMUsage,
                                                      n: nat) returns (s: State, steps: seq<Step>, s': State)
    requires cfg.maxActive >= 1 && lim.maxLLMCalls >= 1 && Enforced(cfg, tenant) && n >= 1
    requires cfg.maxCost > 0.0 && MaximalCall(cfg, tenant, usage)
    ensures FewSyntheses(cfg, lim, s, steps, s', tenant, n) && !SpendsWithin(cfg, s', tenant)
  {
    hide Next, Idle, Init, MaximalCall, PartOfAgentRun, Spending.LLMCost, Answering, Synthesizing, ActsIn, Run;
    hide DroppedBy;
    s := FullBudget(cfg, tenant, usage);
    steps, s' := SynthesizeThenFill(cfg, s, tenant, usage);
    AnsweringIsAgent(lim, usage);
    SynthesizingIsAgent(lim, usage);
    NothingIsPart(lim);
    NothingOwed(cfg, s, tenant);
    OneDropper(cfg, lim, s, steps, s', tenant, usage);
  }

  lemma {:induction false} OneDropper(cfg: Config, lim: AgentLoop.Limits, s: State, steps: seq<Step>, s': State,
                                      tenant: string,
                                      usage: UsageEvents.LLMUsage)
    requires AgentJobs(cfg, lim, s, steps, s')
    requires forall j: nat :: j > 0 ==> ActsIn(cfg, s, steps, j) == Answering(usage) || ActsIn(cfg, s, steps, j) == []
    ensures |DroppedBy(cfg, s, steps, tenant)| <= 1
  {
    hide Run, Init, PartOfAgentRun, ActsIn, DroppedBy;
    JobsDropAtMostOne(cfg, lim, s, steps, s');
    DropsAreJobs(cfg, s, steps, tenant);
    var acts := Answering(usage);
    assert Number(acts, IsUnrecorded) == 0 by {
      assert acts[1..] == [Admit, Record(usage)];
      AgentLoop.NumberOfOne(Record(usage));
      AgentLoop.NumberOfTwo(Admit, Record(usage));
    }
    assert DroppedBy(cfg, s, steps, tenant) <= {0};
    SubsetIsSmaller(DroppedBy(cfg, s, steps, tenant), {0});
  }

  lemma {:induction false} FewSynthesesKeepTheBound(cfg: Config, lim: AgentLoop.Limits, s: State, steps: seq<Step>,
                                                    s': State,
                                                    tenant: string, n: nat)
    requires FewSyntheses(cfg, lim, s, steps, s', tenant, n) && Enforced(cfg, tenant)
    requires n == 0 || cfg.maxCost == 0.0
    ensures SpendsWithin(cfg, s', tenant)
  {
    hide Init, Run, PartOfAgentRun, ActsIn, DroppedBy, LLMSpend;
    AgentSpendIsBounded(cfg, lim, s, steps, s', tenant);
  }

  /**
   * Exactly when the recorded bound also bounds what a tenant really spends: over all runs of agent
   * jobs with at most n synthesized reports, if and only if n is 0 or calls are free. One synthesis
   * is enough to break it, although each such job has first recorded a call.
   */
  lemma {:induction false} ActualSpendIsBoundedIff(cfg: Config, lim: AgentLoop.Limits, tenant: string,
                                                   usage: UsageEvents.LLMUsage,
                                                   n: nat)
    requires cfg.maxActive >= 1 && lim.maxLLMCalls >= 1 && Enforced(cfg, tenant) && MaximalCall(cfg, tenant, usage)
    ensures (forall s, steps, s' :: FewSyntheses(cfg, lim, s, steps, s', tenant, n) ==> SpendsWithin(cfg, s', tenant))
       <==> n == 0 || cfg.maxCost == 0.0
  {
    hide FewSyntheses, SpendsWithin, MaximalCall;
    MaximalIsCall(cfg, tenant, usage);
    if n == 0 || cfg.maxCost == 0.0 {
      forall s, steps, s' | FewSyntheses(cfg, lim, s, steps, s', tenant, n) ensures SpendsWithin(cfg, s', tenant) {
        FewSynthesesKeepTheBound(cfg, lim, s, steps, s', tenant, n);
      }
    } else {
      var s, steps, s' := OneSynthesisBreaksTheBound(cfg, lim, tenant, usage, n);
    }
  }

  /** So no bound holds for all runs: for every limit some run of agent jobs records nothing and spends more. */
  lemma {:induction false} UnrecordedSpendIsUnbounded(cfg: Config, lim: AgentLoop.Limits, tenant: string,
                                                      usage: UsageEvents.LLMUsage,
                                                      limit: real) returns (steps: seq<Step>, s': State)
    requires cfg.maxActive >= 1 && lim.maxLLMCalls >= 1 && Enforced(cfg, tenant)
    requires cfg.maxCost > 0.0 && MaximalCall(cfg, tenant, usage) && limit >= 0.0
    ensures AgentJobs(cfg, lim, START, steps, s')
    ensures Spending.LLMCost(s'.log, MonthOf(cfg, tenant)) == 0.0 && LLMSpend(cfg, s', tenant) > limit
  {
    hide Next, MaximalCall, PartOfAgentRun, Synthesizing, ActsIn;
    var n := Archimedes(cfg.maxCost, limit);
    TimesIsProduct(n, cfg.maxCost);
    assert Idle(cfg, START, tenant);
    steps, s' := SynthesisRounds(cfg, START, tenant, usage, n);
    SynthesizingIsAgent(lim, usage);
    NothingIsPart(lim);
  }
}
