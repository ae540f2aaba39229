/** What a budget check can learn from a scan that is not atomic with the emitters. */
module Spending {
  import opened UsageKeys
  import opened UsageEvents
  import opened UsageStore
  import opened Dates

  /** An event with non-negative token counts, as every emitter of the platform produces. */
  predicate NonNegative(e: Event) {
    && (e.kind.LLM? && e.llm.Some? ==> e.llm.value.inputTokens >= 0 && e.llm.value.outputTokens >= 0)
    && (e.kind.Embedding? && e.embedding.Some? ==> e.embedding.value.chunksProcessed >= 0)
  }

  ghost predicate AllNonNegative(log: Log) {
    forall em :: In(em, log) ==> NonNegative(em.event)
  }

  lemma {:induction false} WorthIsNonNegative(e: Event)
    requires NonNegative(e)
    ensures Worth(e).cost >= 0.0
  {
  }

  /** The log `now` was `past` at some earlier moment. */
  ghost predicate Reached(past: Log, now: Log) {
    past == now || (now.Append? && Reached(past, now.before))
  }

  lemma {:induction false} ReachedTrans(a: Log, b: Log, c: Log)
    requires Reached(a, b) && Reached(b, c)
    ensures Reached(a, c)
  {
    if b != c {
      ReachedTrans(a, b, c.before);
    }
  }

  lemma {:induction false} ReachedIn(em: Emission, a: Log, b: Log)
    requires Reached(a, b) && In(em, a)
    ensures In(em, b)
  {
    if a != b {
      ReachedIn(em, a, b.before);
    }
  }

  /** A counter's cost never falls. */
  lemma {:induction false} CostGrows(a: Log, b: Log, keys: set<string>)
    requires Reached(a, b) && AllNonNegative(b)
    ensures Total(a, keys).cost <= Total(b, keys).cost
  {
    hide KeyOf, Worth;
    if a != b {
      assert forall em :: In(em, b.before) ==> In(em, b);
      assert In(b.last, b);
      WorthIsNonNegative(b.last.event);
      CostGrows(a, b.before, keys);
    }
  }

  /** Recorded LLM cost of a query: the part of the total that the budget check gates. */
  ghost function LLMCost(log: Log, q: Query): real {
    match log
    case Empty => 0.0
    case Append(before, last) =>
      LLMCost(before, q) + if Selects(last, q) && last.event.kind.LLM? then Worth(last.event).cost else 0.0
  }

  /** Embeddings also cost, without any check, so the total a check reads is at least the LLM cost. */
  lemma {:induction false} LLMCostWithinTotal(log: Log, q: Query)
    requires AllNonNegative(log)
    ensures LLMCost(log, q) <= Answer(log, q).cost
  {
    hide KeyOf, Worth, Selects;
    if log.Append? {
      assert forall em :: In(em, log.before) ==> In(em, log);
      assert In(log.last, log);
      WorthIsNonNegative(log.last.event);
      LLMCostWithinTotal(log.before, q);
    }
  }

  /** Recorded cost that no check guards: embeddings, as tool events are free. */
  ghost function UngatedCost(log: Log, q: Query): real {
    match log
    case Empty => 0.0
    case Append(before, last) =>
      UngatedCost(before, q) + if Selects(last, q) && !last.event.kind.LLM? then Worth(last.event).cost else 0.0
  }

  /** The total the reader reports is the gated cost and the ungated cost. */
  lemma {:induction false} TotalSplits(log: Log, q: Query)
    ensures Answer(log, q).cost == LLMCost(log, q) + UngatedCost(log, q)
  {
    hide KeyOf, Worth, Selects;
    if log.Append? {
      TotalSplits(log.before, q);
    }
  }

  /** An event adds its price to its own tenant's LLM cost at most. */
  lemma {:induction false} LLMCostStep(log: Log, em: Emission, q: Query)
    requires NonNegative(em.event)
    ensures LLMCost(Append(log, em), q) <= LLMCost(log, q) + Worth(em.event).cost
    ensures em.event.tenant != q.tenant ==> LLMCost(Append(log, em), q) == LLMCost(log, q)
  {
    hide Worth, KeyOf;
    WorthIsNonNegative(em.event);
  }

  /** One HGETALL of a scan: the key and the log at the moment it was read. */
  datatype Read = Read(key: string, at: Log)

  function KeysOf(fetched: seq<Read>): seq<string> {
    seq(|fetched|, i requires 0 <= i < |fetched| => fetched[i].key)
  }

  /** The month-to-date cost that the reads add up to. */
  ghost function Reading(fetched: seq<Read>, q: Query): real {
    if fetched == [] then 0.0
    else
      var last := fetched[|fetched| - 1];
      Reading(fetched[..|fetched| - 1], q) + if Accepts(last.key, q) then Total(last.at, {last.key}).cost else 0.0
  }

  /** Every read happened between the start of the scan and now. */
  ghost predicate Within(fetched: seq<Read>, start: Log, now: Log) {
    forall i :: 0 <= i < |fetched| ==> Reached(start, fetched[i].at) && Reached(fetched[i].at, now)
  }

  lemma {:induction false} ReadingBounds(fetched: seq<Read>, start: Log, now: Log, q: Query)
    requires AllNonNegative(now) && Within(fetched, start, now) && NoDuplicates(KeysOf(fetched))
    ensures Total(start, Chosen(KeysOf(fetched), q)).cost <= Reading(fetched, q)
         <= Total(now, Chosen(KeysOf(fetched), q)).cost
  {
    hide Accepts, Total, Chosen;
    if fetched == [] {
      NothingRead(start, q);
      NothingRead(now, q);
      assert KeysOf(fetched) == [];
    } else {
      var init, last := fetched[..|fetched| - 1], fetched[|fetched| - 1];
      var keys := KeysOf(init);
      assert KeysOf(fetched) == keys + [last.key];
      assert forall i :: 0 <= i < |keys| ==> keys[i] == KeysOf(fetched)[i];
      assert last.key == KeysOf(fetched)[|keys|];
      ReadingBounds(init, start, now, q);
      ChosenStep(start, keys, last.key, q);
      ChosenStep(now, keys, last.key, q);
      AllNonNegativeBefore(last.at, now);
      CostGrows(start, last.at, {last.key});
      CostGrows(last.at, now, {last.key});
    }
  }

  /** A key that a scan repeats is read again, which can only raise the sum. */
  lemma {:induction false} ReadingIsAtLeast(fetched: seq<Read>, start: Log, now: Log, q: Query)
    requires AllNonNegative(now) && Reached(start, now) && Within(fetched, start, now)
    ensures Total(start, Chosen(KeysOf(fetched), q)).cost <= Reading(fetched, q)
  {
    hide Accepts, Total, Chosen;
    if fetched == [] {
      NothingRead(start, q);
      assert KeysOf(fetched) == [];
    } else {
      var init, last := fetched[..|fetched| - 1], fetched[|fetched| - 1];
      var keys := KeysOf(init);
      assert KeysOf(fetched) == keys + [last.key];
      ReadingIsAtLeast(init, start, now, q);
      AllNonNegativeBefore(last.at, now);
      CostGrows(start, last.at, {last.key});
      if last.key in keys {
        AllNonNegativeBefore(start, now);
        TotalIsNonNegative(start, {last.key});
        ChosenAgain(keys, last.key, q);
      } else {
        ChosenStep(start, keys, last.key, q);
      }
    }
  }

  lemma {:induction false} ChosenAgain(keys: seq<string>, key: string, q: Query)
    requires key in keys
    ensures Chosen(keys + [key], q) == Chosen(keys, q)
  {
    hide Accepts;
  }

  lemma {:induction false} TotalIsNonNegative(log: Log, keys: set<string>)
    requires AllNonNegative(log)
    ensures Total(log, keys).cost >= 0.0
  {
    hide KeyOf, Worth;
    if log.Append? {
      assert forall em :: In(em, log.before) ==> In(em, log);
      assert In(log.last, log);
      WorthIsNonNegative(log.last.event);
      TotalIsNonNegative(log.before, keys);
    }
  }

  lemma {:induction false} AllNonNegativeBefore(a: Log, b: Log)
    requires Reached(a, b) && AllNonNegative(b)
    ensures AllNonNegative(a)
  {
    forall em | In(em, a) ensures NonNegative(em.event) {
      ReachedIn(em, a, b);
    }
  }

  lemma {:induction false} ColonFreeBefore(a: Log, b: Log)
    requires Reached(a, b) && ColonFree(b)
    ensures ColonFree(a)
  {
    forall em | In(em, a) ensures ':' !in em.event.tenant {
      ReachedIn(em, a, b);
    }
  }

  /** Keys that only selected events write total no more than the whole answer. */
  lemma {:induction false} TotalWithinAnswer(log: Log, keys: set<string>, q: Query)
    requires AllNonNegative(log)
    requires forall em :: In(em, log) && KeyOf(em) in keys ==> Selects(em, q)
    ensures Total(log, keys).cost <= Answer(log, q).cost
  {
    hide KeyOf, Worth, Selects;
    if log.Append? {
      assert forall em :: In(em, log.before) ==> In(em, log);
      assert In(log.last, log);
      WorthIsNonNegative(log.last.event);
      TotalWithinAnswer(log.before, keys, q);
    }
  }

  /** Keys that hold all selected events total at least the answer. */
  lemma {:induction false} AnswerWithinTotal(log: Log, keys: set<string>, q: Query)
    requires AllNonNegative(log)
    requires forall em :: In(em, log) && Counts(em.event) && Selects(em, q) ==> KeyOf(em) in keys
    ensures Answer(log, q).cost <= Total(log, keys).cost
  {
    hide KeyOf, Worth, Selects;
    if log.Append? {
      assert forall em :: In(em, log.before) ==> In(em, log);
      assert In(log.last, log);
      WorthIsNonNegative(log.last.event);
      if !Counts(log.last.event) {
        UncountedIsWorthless(log.last.event);
      }
      AnswerWithinTotal(log.before, keys, q);
    }
  }

  /**
   * What a budget check relies on: however emitters interleave with a scan, whatever keys it repeats
   * and whatever the other tenants are called, the reader sums at least the total at the scan's start.
   */
  lemma {:induction false} ScanReadsAtLeast(fetched: seq<Read>, start: Log, now: Log, q: Query)
    requires AllNonNegative(now) && ':' !in q.tenant
    requires Reached(start, now) && Within(fetched, start, now)
    requires ScanCovers(KeysOf(fetched), start, TenantPrefix(q.tenant))
    ensures Answer(start, q).cost <= Reading(fetched, q)
  {
    hide KeyOf, Selects, Accepts, Chosen, Total, Answer, Reading, TenantPrefix, FormatDate;
    var keys := KeysOf(fetched);
    ReadingIsAtLeast(fetched, start, now, q);
    AllNonNegativeBefore(start, now);
    forall em | In(em, start) && Counts(em.event) && Selects(em, q)
      ensures KeyOf(em) in Chosen(keys, q)
    {
      SelectsOwnTenant(em, q);
      OwnPrefix(em, q);
      LoggedIsWrote(em, start);
      AcceptsMeansSelects(em, q);
      AcceptedIsChosen(KeyOf(em), keys, q);
    }
    AnswerWithinTotal(start, Chosen(keys, q), q);
  }

  lemma {:induction false} AcceptedIsChosen(key: string, keys: seq<string>, q: Query)
    requires key in keys && Accepts(key, q)
    ensures key in Chosen(keys, q)
  {
  }

  /**
   * However emitters interleave with a scan, what the reader sums lies between the tenant's total
   * when the scan began and the total when it ended.
   */
  lemma {:induction false} FuzzyScan(fetched: seq<Read>, start: Log, now: Log, q: Query)
    requires ColonFree(now) && AllNonNegative(now) && ':' !in q.tenant
    requires Reached(start, now) && Within(fetched, start, now)
    requires ScanOf(KeysOf(fetched), start, TenantPrefix(q.tenant))
    ensures Answer(start, q).cost <= Reading(fetched, q) <= Answer(now, q).cost
  {
    hide KeyOf, Selects, Accepts, Chosen, Total, Answer, Reading, TenantPrefix;
    var keys := KeysOf(fetched);
    ReadingBounds(fetched, start, now, q);
    ColonFreeBefore(start, now);
    ChosenAnswers(keys, start, q);
    forall em | In(em, now) && KeyOf(em) in Chosen(keys, q)
      ensures Selects(em, q)
    {
      ChosenIsAccepted(KeyOf(em), keys, q);
      OwnPrefix(em, q);
      AcceptsMeansSelects(em, q);
    }
    TotalWithinAnswer(now, Chosen(keys, q), q);
  }

  lemma {:induction false} ChosenIsAccepted(key: string, keys: seq<string>, q: Query)
    requires key in Chosen(keys, q)
    ensures key in keys && Accepts(key, q)
  {
  }
}
