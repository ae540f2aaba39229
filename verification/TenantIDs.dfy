/** The tenant IDs the platform issues, and what their shape gives: no tenant meets another's data. */
module TenantIDs {
  import opened Text
  import UsageKeys
  import UsageEvents
  import UsageStore
  import Spending
  import Limiter
  import Platform
  import Storage

  predicate IsHexDigit(c: char) {
    IsDigit(c) || 'a' <= c <= 'f'
  }

  /** "t_" and the first eight digits of a UUID. */
  predicate Issued(tenant: string) {
    && |tenant| == 10 && tenant[0] == 't' && tenant[1] == '_'
    && forall i :: 2 <= i < 10 ==> IsHexDigit(tenant[i])
  }

  lemma {:induction false} IssuedIsPlain(tenant: string)
    requires Issued(tenant)
    ensures ':' !in tenant && '/' !in tenant
  {
    forall i | 0 <= i < |tenant| ensures tenant[i] != ':' && tenant[i] != '/' {
      assert i == 0 || i == 1 || IsHexDigit(tenant[i]);
    }
  }

  ghost predicate AllIssued(log: UsageEvents.Log) {
    forall em :: UsageEvents.In(em, log) ==> Issued(em.event.tenant)
  }

  lemma {:induction false} IssuedLogIsColonFree(log: UsageEvents.Log)
    requires AllIssued(log)
    ensures UsageEvents.ColonFree(log)
  {
    hide Issued;
    forall em | UsageEvents.In(em, log) ensures ':' !in em.event.tenant {
      IssuedIsPlain(em.event.tenant);
    }
  }

  /** Among issued tenants a complete scan gives each tenant exactly the fold over its own events. */
  lemma {:induction false} IssuedCountersAreExact(log: UsageEvents.Log, keys: seq<string>, q: UsageEvents.Query)
    requires AllIssued(log) && Issued(q.tenant)
    requires UsageStore.ScanOf(keys, log, UsageKeys.TenantPrefix(q.tenant))
    ensures UsageStore.Summed(log, keys, q) == UsageEvents.Answer(log, q)
  {
    hide Issued, UsageStore.Summed, UsageEvents.Answer, UsageStore.ScanOf;
    IssuedLogIsColonFree(log);
    IssuedIsPlain(q.tenant);
    UsageStore.SummedAnswers(log, keys, q);
    assert q == q.(model := q.model);
  }

  /** The overspend bound for every issued tenant with a budget. */
  lemma {:induction false} IssuedSpendIsBounded(cfg: Platform.Config, s: Platform.State, steps: seq<Platform.Step>,
                                                s': Platform.State,
                                                tenant: string)
    requires Platform.Init(cfg, s) && Platform.Run(cfg, s, steps) == Some(s')
    requires Issued(tenant) && Platform.BudgetOf(cfg, tenant) > 0.0
    ensures Spending.LLMCost(s'.log, Platform.MonthOf(cfg, tenant))
         <= Platform.BudgetOf(cfg, tenant) + Limiter.Cap(cfg.maxActive) as real * cfg.maxCost
  {
    hide Platform.Init, Platform.Run, Issued;
    IssuedIsPlain(tenant);
    Platform.OverspendIsBounded(cfg, s, steps, s', tenant);
  }

  /** From the empty store on, no operations of issued tenants can tell the flat map from a map per tenant. */
  lemma {:induction false} IssuedObjectsAreSeparate(ops: seq<Storage.Op>)
    requires forall i :: 0 <= i < |ops| ==> Issued(ops[i].tenant)
    ensures Storage.FlatRun(map[], ops).1 == Storage.AbstractRun(map[], ops).1
  {
    hide Issued;
    forall i | 0 <= i < |ops| ensures '/' !in ops[i].tenant {
      IssuedIsPlain(ops[i].tenant);
    }
    Storage.FlatStoreFromEmpty(ops);
  }
}
