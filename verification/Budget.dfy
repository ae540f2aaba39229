/** The admission test before each LLM call. */
module Budget {
  import opened Text
  import opened UsageEvents

  datatype BudgetStatus = BudgetStatus(monthlyBudget: real, monthToDate: real, remaining: real, isExceeded: bool)

  datatype CheckResult = CheckResult(allowed: bool, estimatedCallCost: real, threshold: string,
                                     status: Option<BudgetStatus>)

  /**
   * Refuse a call exactly when a positive budget would be passed by the estimate on top of the
   * month-to-date cost; alert on an admitted call from 80% and again from 95% of the budget.
   */
  function CheckBudget(budget: real, monthToDate: real, model: string, estimatedInput: int, estimatedOutput: int):
      (r: CheckResult)
    ensures r.allowed <==> budget <= 0.0 || monthToDate + ComputeCost(model, estimatedInput, estimatedOutput) <= budget
    ensures r.threshold == "95%" <==> r.allowed && budget > 0.0 && monthToDate * 100.0 >= 95.0 * budget
    ensures r.threshold == "80%" <==> r.allowed && budget > 0.0 && 80.0 * budget <= monthToDate * 100.0 < 95.0 * budget
    ensures r.status.Some? <==> budget > 0.0
    ensures r.status.Some? ==> (r.status.value.isExceeded <==> !r.allowed)
    ensures r.status.Some? ==> r.status.value.remaining + monthToDate == budget
    ensures r.status.Some? ==> r.status.value.monthlyBudget == budget && r.status.value.monthToDate == monthToDate
    ensures r.estimatedCallCost == if budget <= 0.0 then 0.0 else ComputeCost(model, estimatedInput, estimatedOutput)
    ensures r.threshold in {"", "80%", "95%"}
  {
    if budget <= 0.0 then CheckResult(true, 0.0, "", None)
    else
      var cost := ComputeCost(model, estimatedInput, estimatedOutput);
      if monthToDate + cost > budget then
        CheckResult(false, cost, "", Some(BudgetStatus(budget, monthToDate, budget - monthToDate, true)))
      else
        PercentCompares(monthToDate, budget);
        var pct := (monthToDate / budget) * 100.0;
        var threshold := if pct >= 95.0 then "95%" else if pct >= 80.0 then "80%" else "";
        CheckResult(true, cost, threshold, Some(BudgetStatus(budget, monthToDate, budget - monthToDate, false)))
  }

  lemma {:induction false} PercentCompares(part: real, whole: real)
    requires whole > 0.0
    ensures (part / whole) * 100.0 >= 95.0 <==> part * 100.0 >= 95.0 * whole
    ensures (part / whole) * 100.0 >= 80.0 <==> part * 100.0 >= 80.0 * whole
  {
    var ratio := part / whole;
    assert ratio * whole == part;
    if ratio >= 0.95 {
      assert ratio * whole >= 0.95 * whole;
    } else {
      assert ratio * whole < 0.95 * whole;
    }
    if ratio >= 0.8 {
      assert ratio * whole >= 0.8 * whole;
    } else {
      assert ratio * whole < 0.8 * whole;
    }
  }

  /** The agent loop names no model, so its estimate is 0 and its gate looks only at what is recorded. */
  lemma {:induction false} AgentGateSeesOnlyTheRecord(budget: real, monthToDate: real, estimatedInput: int,
                                                      estimatedOutput: int)
    ensures CheckBudget(budget, monthToDate, "", estimatedInput, estimatedOutput).allowed
       <==> budget <= 0.0 || monthToDate <= budget
  {
  }
}
