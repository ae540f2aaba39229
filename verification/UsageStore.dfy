/** The usage counters in Redis: the emitter that folds events into them and the reader that sums them. */
module UsageStore {
  import opened Text
  import opened Dates
  import opened UsageKeys
  import opened UsageEvents

  const MAX_QUEUE_LEN := 10000

  /** LPUSH then LTRIM 0..cap-1: newest first, the oldest beyond the cap dropped. */
  function PushCapped<T>(queue: seq<T>, x: T, cap: nat): (r: seq<T>)
    ensures |r| == if |queue| < cap then |queue| + 1 else cap
  {
    if |queue| < cap then [x] + queue else ([x] + queue)[..cap]
  }

  function Get(counters: map<string, Counter>, key: string): Counter {
    if key in counters then counters[key] else ZERO
  }

  /** The counters are exactly the per-key totals of the log. */
  ghost predicate Agree(counters: map<string, Counter>, log: Log) {
    forall k :: (k in counters <==> Wrote(log, k)) && Get(counters, k) == Total(log, {k})
  }

  lemma {:induction false} AgreeAfterCounted(counters: map<string, Counter>, log: Log, em: Emission)
    requires Agree(counters, log) && Counts(em.event)
    ensures Agree(counters[KeyOf(em) := Plus(Get(counters, KeyOf(em)), Worth(em.event))], Append(log, em))
  {
    hide KeyOf, Worth, Plus;
    var key := KeyOf(em);
    var after := counters[key := Plus(Get(counters, key), Worth(em.event))];
    forall k ensures (k in after <==> Wrote(Append(log, em), k)) && Get(after, k) == Total(Append(log, em), {k}) {
      PlusZero(Total(log, {k}));
      assert Get(counters, k) == Total(log, {k});
    }
  }

  lemma {:induction false} AgreeAfterUncounted(counters: map<string, Counter>, log: Log, em: Emission)
    requires Agree(counters, log) && !Counts(em.event)
    ensures Agree(counters, Append(log, em))
  {
    hide KeyOf, Worth, Plus;
    UncountedIsWorthless(em.event);
    forall k ensures (k in counters <==> Wrote(Append(log, em), k)) && Get(counters, k) == Total(Append(log, em), {k}) {
      PlusZero(Total(log, {k}));
    }
  }

  /** The keys of all scan pages, in scan order. */
  function Flat(pages: seq<seq<string>>): seq<string> {
    if pages == [] then [] else Flat(pages[..|pages| - 1]) + pages[|pages| - 1]
  }

  ghost predicate NoDuplicates(s: seq<string>) {
    forall i, j :: 0 <= i < j < |s| ==> s[i] != s[j]
  }

  /** What Redis promises of SCAN prefix*: every matching counter hash, perhaps repeated, and only matching keys. */
  ghost predicate ScanCovers(keys: seq<string>, log: Log, prefix: string) {
    && (forall k :: k in keys ==> prefix <= k)
    && (forall k :: Wrote(log, k) && prefix <= k ==> k in keys)
  }

  /** Such an answer that repeats no key. */
  ghost predicate ScanOf(keys: seq<string>, log: Log, prefix: string) {
    NoDuplicates(keys) && ScanCovers(keys, log, prefix)
  }

  /** The reader's filter on a scanned key. */
  predicate Accepts(key: string, q: Query) {
    var parts := ParseUsageKey(key);
    && parts.Some?
    && (q.model.Some? ==> parts.value.model == q.model.value)
    && ParseDate(parts.value.date).Some?
    && InCurrentMonth(ParseDate(parts.value.date).value, q.today)
    && key !in q.unreadable
  }

  lemma {:induction false} AcceptsUnfolds(key: string, q: Query)
    requires q.model.None?
    ensures Accepts(key, q) <==>
            var parts := ParseUsageKey(key);
            && parts.Some?
            && var date := ParseDate(parts.value.date);
               && date.Some?
               && !Before(date.value, MonthStart(q.today)) && !Before(MonthEnd(q.today), date.value)
               && key !in q.unreadable
  {
  }

  ghost function Chosen(keys: seq<string>, q: Query): set<string> {
    set k | k in keys && Accepts(k, q)
  }

  /** For a key the emitter wrote, the reader's filter means what the query means. */
  lemma {:induction false} AcceptsMeansSelects(em: Emission, q: Query)
    requires ':' !in em.event.tenant && em.event.tenant == q.tenant
    ensures Accepts(KeyOf(em), q) <==> Selects(em, q)
  {
    hide KeyOf, ParseUsageKey, FormatDate, ParseDate, InCurrentMonth;
    KeyParses(em);
    DateRoundTrip(em.day);
    InCurrentMonthIffSame(em.day, q.today);
  }

  /** The keys a complete scan yields and the filter keeps total exactly the query's direct answer. */
  lemma {:induction false} ChosenAnswers(keys: seq<string>, log: Log, q: Query)
    requires ColonFree(log) && ':' !in q.tenant
    requires ScanOf(keys, log, TenantPrefix(q.tenant))
    ensures Total(log, Chosen(keys, q)) == Answer(log, q)
  {
    hide KeyOf, Selects, Accepts, TenantPrefix, RedisKey, FormatDate, Worth, Counts;
    var chosen := Chosen(keys, q);
    forall em | In(em, log) && Counts(em.event)
      ensures KeyOf(em) in chosen <==> Selects(em, q)
    {
      LoggedIsWrote(em, log);
      OwnPrefix(em, q);
      if em.event.tenant == q.tenant {
        AcceptsMeansSelects(em, q);
      } else {
        SelectsOwnTenant(em, q);
      }
    }
    TotalAnswers(log, chosen, q);
  }

  lemma {:induction false} SelectsOwnTenant(em: Emission, q: Query)
    ensures Selects(em, q) ==> em.event.tenant == q.tenant
  {
  }

  lemma {:induction false} OwnPrefix(em: Emission, q: Query)
    requires ':' !in em.event.tenant && ':' !in q.tenant
    ensures TenantPrefix(q.tenant) <= KeyOf(em) <==> q.tenant == em.event.tenant
  {
    PrefixMatchesOwnKeys(q.tenant, em.event.tenant, FormatDate(em.day), EventModel(em.event));
  }

  lemma {:induction false} LoggedIsWrote(em: Emission, log: Log)
    requires In(em, log) && Counts(em.event)
    ensures Wrote(log, KeyOf(em))
  {
    hide KeyOf;
    if em != log.last {
      LoggedIsWrote(em, log.before);
    }
  }

  /** One row of the per-model breakdown; it has no report count. */
  datatype ModelUsage = ModelUsage(model: string, input: int, output: int, tools: int, embedding: int, cost: real)

  datatype CurrentUsage = CurrentUsage(total: Counter, byModel: seq<ModelUsage>)

  function RowCounter(row: ModelUsage): Counter {
    Counter(row.input, row.output, row.tools, row.embedding, row.cost, 0)
  }

  /** The sum of the rows of one model, or of all rows. */
  ghost function RowSum(rows: seq<ModelUsage>, model: Option<string>): Counter {
    if rows == [] then ZERO
    else
      var last := rows[|rows| - 1];
      Plus(RowSum(rows[..|rows| - 1], model),
           if model.Some? && last.model != model.value then ZERO else RowCounter(last))
  }

  function WithoutReports(c: Counter): Counter {
    c.(reports := 0)
  }

  lemma {:induction false} NoRows(model: Option<string>)
    ensures RowSum([], model) == ZERO
  {
  }

  lemma {:induction false} RowSumStep(rows: seq<ModelUsage>, row: ModelUsage, model: Option<string>)
    ensures RowSum(rows + [row], model)
         == Plus(RowSum(rows, model), if model.Some? && row.model != model.value then ZERO else RowCounter(row))
  {
    assert (rows + [row])[..|rows|] == rows;
  }

  lemma {:induction false} WithoutReportsPlus(a: Counter, b: Counter)
    ensures WithoutReports(Plus(a, b)) == Plus(WithoutReports(a), WithoutReports(b))
  {
  }

  /** Reading one more key: the chosen keys grow by it, or stay. */
  lemma {:induction false} ChosenStep(log: Log, keys: seq<string>, key: string, q: Query)
    requires key !in keys
    ensures Total(log, Chosen(keys + [key], q))
         == if Accepts(key, q) then Plus(Total(log, Chosen(keys, q)), Total(log, {key}))
            else Total(log, Chosen(keys, q))
  {
    hide Accepts, Total, Plus;
    if Accepts(key, q) {
      assert Chosen(keys + [key], q) == Chosen(keys, q) + {key};
      TotalUnion(log, Chosen(keys, q), {key});
    } else {
      assert Chosen(keys + [key], q) == Chosen(keys, q);
    }
  }

  lemma {:induction false} KeyOfParts(em: Emission)
    ensures KeyOf(em) == RedisKey(em.event.tenant, FormatDate(em.day), EventModel(em.event))
  {
  }

  /** What a scan that has read no key yet has summed. */
  lemma {:induction false} NothingRead(log: Log, q: Query)
    ensures Total(log, Chosen([], q)) == ZERO
  {
    assert Chosen([], q) == {};
    TotalOfNone(log, {});
  }

  /** The reader's sum over any scan, in scan order: a repeated key counts as often as it comes. */
  ghost function Summed(log: Log, keys: seq<string>, q: Query): Counter {
    if keys == [] then ZERO
    else
      var last := keys[|keys| - 1];
      Plus(Summed(log, keys[..|keys| - 1], q), if Accepts(last, q) then Total(log, {last}) else ZERO)
  }

  lemma {:induction false} SummedStep(log: Log, keys: seq<string>, key: string, q: Query)
    ensures Summed(log, [], q) == ZERO
    ensures Summed(log, keys + [key], q)
         == if Accepts(key, q) then Plus(Summed(log, keys, q), Total(log, {key})) else Summed(log, keys, q)
  {
    hide Accepts, Total, Plus;
    assert (keys + [key])[..|keys|] == keys;
    PlusZero(Summed(log, keys, q));
  }

  lemma {:induction false} SummedIsTotal(log: Log, keys: seq<string>, q: Query)
    requires NoDuplicates(keys)
    ensures Summed(log, keys, q) == Total(log, Chosen(keys, q))
  {
    hide Accepts, Total, Plus, Chosen;
    if keys == [] {
      NothingRead(log, q);
    } else {
      var init, last := keys[..|keys| - 1], keys[|keys| - 1];
      assert keys == init + [last];
      assert forall i :: 0 <= i < |init| ==> init[i] == keys[i];
      SummedIsTotal(log, init, q);
      SummedStep(log, init, last, q);
      ChosenStep(log, init, last, q);
    }
  }

  /** A complete scan without repeats sums to the direct answer. */
  lemma {:induction false} SummedAnswers(log: Log, keys: seq<string>, q: Query)
    requires ColonFree(log) && ':' !in q.tenant && ScanOf(keys, log, TenantPrefix(q.tenant))
    ensures forall m: Option<string> :: Summed(log, keys, q.(model := m)) == Answer(log, q.(model := m))
  {
    hide Chosen, ScanCovers, Total, Summed, Answer;
    forall m: Option<string> ensures Summed(log, keys, q.(model := m)) == Answer(log, q.(model := m)) {
      SummedIsTotal(log, keys, q.(model := m));
      ChosenAnswers(keys, log, q.(model := m));
    }
  }

  /** The rows after one accepted key. */
  lemma {:induction false} RowsStep(log: Log, keys: seq<string>, key: string, q: Query, rows: seq<ModelUsage>,
                                    row: ModelUsage)
    requires q.model.None? && Accepts(key, q)
    requires row.model == ParseUsageKey(key).value.model && RowCounter(row) == WithoutReports(Total(log, {key}))
    requires forall m: Option<string> :: RowSum(rows, m) == WithoutReports(Summed(log, keys, q.(model := m)))
    ensures forall m: Option<string> ::
        RowSum(rows + [row], m) == WithoutReports(Summed(log, keys + [key], q.(model := m)))
  {
    hide Total, Plus, Summed, ParseDate, InCurrentMonth, RowSum, ParseUsageKey;
    forall m: Option<string>
      ensures RowSum(rows + [row], m) == WithoutReports(Summed(log, keys + [key], q.(model := m)))
    {
      var qm := q.(model := m);
      assert Accepts(key, qm) <==> m.None? || row.model == m.value;
      SummedStep(log, keys, key, qm);
      RowSumStep(rows, row, m);
      WithoutReportsPlus(Summed(log, keys, qm), Total(log, {key}));
      PlusZero(RowSum(rows, m));
    }
  }

  /** A key the filter rejects leaves every sum alone. */
  lemma {:induction false} SkipStep(log: Log, keys: seq<string>, key: string, q: Query)
    requires q.model.None? && !Accepts(key, q)
    ensures forall m: Option<string> :: Summed(log, keys + [key], q.(model := m)) == Summed(log, keys, q.(model := m))
  {
    hide ParseDate, InCurrentMonth, ParseUsageKey, Summed;
    forall m: Option<string> ensures Summed(log, keys + [key], q.(model := m)) == Summed(log, keys, q.(model := m)) {
      assert !Accepts(key, q.(model := m));
      SummedStep(log, keys, key, q.(model := m));
    }
  }

  /** A measure summed over the rows of one model, or over all rows. */
  ghost function RowTotal(rows: seq<ModelUsage>, model: Option<string>, measure: ModelUsage -> int): int {
    if rows == [] then 0
    else
      var last := rows[|rows| - 1];
      RowTotal(rows[..|rows| - 1], model, measure)
      + if model.Some? && last.model != model.value then 0 else measure(last)
  }

  ghost function RowCost(rows: seq<ModelUsage>, model: Option<string>): real {
    if rows == [] then 0.0
    else
      var last := rows[|rows| - 1];
      RowCost(rows[..|rows| - 1], model) + if model.Some? && last.model != model.value then 0.0 else last.cost
  }

  function ToolsOf(r: ModelUsage): int { r.tools }
  function InputOf(r: ModelUsage): int { r.input }
  function OutputOf(r: ModelUsage): int { r.output }
  function EmbeddingOf(r: ModelUsage): int { r.embedding }

  lemma {:induction false} RowTotals(rows: seq<ModelUsage>, model: Option<string>)
    ensures var sum := RowSum(rows, model);
            && sum.tools == RowTotal(rows, model, ToolsOf) && sum.input == RowTotal(rows, model, InputOf)
            && sum.output == RowTotal(rows, model, OutputOf) && sum.embedding == RowTotal(rows, model, EmbeddingOf)
            && sum.cost == RowCost(rows, model)
  {
    if rows != [] {
      RowTotals(rows[..|rows| - 1], model);
    }
  }

  /**
   * The rows of a model, field by field: their tool calls, tokens, chunks and cost are those of the
   * selected events of that model.
   */
  lemma {:induction false} RowsCount(rows: seq<ModelUsage>, log: Log, q: Query)
    requires RowSum(rows, q.model) == WithoutReports(Answer(log, q))
    ensures RowTotal(rows, q.model, ToolsOf) == Sum(log, q, OneIfTool)
    ensures RowTotal(rows, q.model, InputOf) == Sum(log, q, PromptTokens)
    ensures RowTotal(rows, q.model, OutputOf) == Sum(log, q, ReplyTokens)
    ensures RowTotal(rows, q.model, EmbeddingOf) == Sum(log, q, ChunksEmbedded)
    ensures RowCost(rows, q.model) == SumCost(log, q, PriceOf)
  {
    hide RowSum, Answer;
    RowTotals(rows, q.model);
    AnswerCounts(log, q);
  }

  class RedisUsage {
    var counters: map<string, Counter>
    var queue: seq<Event>
    ghost var log: Log

    ghost predicate Valid()
      reads this
    {
      Agree(counters, log) && |queue| <= MAX_QUEUE_LEN
    }

    constructor ()
      ensures Valid() && log == Empty && queue == []
    {
      counters, queue, log := map[], [], Empty;
    }

    /** The field increments of the emitter's switch; a key is created only by an increment. */
    static method Increment(was: Counter, event: Event, model: string) returns (h: Counter)
      requires model == EventModel(event)
      ensures h == if Counts(event) then Plus(was, Worth(event)) else was
    {
      hide ComputeCost, EventModel;
      h := was;
      if event.kind.LLM? {
        if event.llm.Some? {
          var u := event.llm.value;
          h := h.(input := h.input + u.inputTokens);
          h := h.(output := h.output + u.outputTokens);
          h := h.(reports := h.reports + 1);
          h := h.(cost := h.cost + ComputeCost(model, u.inputTokens, u.outputTokens));
        }
      } else if event.kind.Tool? {
        h := h.(tools := h.tools + 1);
      } else if event.kind.Embedding? {
        if event.embedding.Some? {
          var n := event.embedding.value.chunksProcessed;
          h := h.(embedding := h.embedding + n);
          h := h.(cost := h.cost + ComputeCost(model, n, 0));
        }
      }
    }

    /** Fold one event into its counter hash and push it on the capped flush queue. */
    method EmitUsage(day: Day, event: Event)
      requires Valid()
      modifies this
      ensures Valid()
      ensures log == Append(old(log), Emission(day, event))
      ensures queue == PushCapped(old(queue), event, MAX_QUEUE_LEN)
    {
      hide KeyOf, Agree, Worth, Plus;
      var model := EventModel(event);
      var key := RedisKey(event.tenant, FormatDate(day), model);
      ghost var em := Emission(day, event);
      KeyOfParts(em);
      var h := Increment(Get(counters, key), event, model);
      if Counts(event) {
        AgreeAfterCounted(counters, log, em);
        counters := counters[key := h];
      } else {
        AgreeAfterUncounted(counters, log, em);
      }
      queue := [event] + queue;
      if |queue| > MAX_QUEUE_LEN {
        queue := queue[..MAX_QUEUE_LEN];
      }
      log := Append(log, em);
    }

    /**
     * The reader's snapshot, from any paging of any scan. `q.unreadable` holds the keys whose HGETALL
     * failed; the code skips them, so they are missing from the totals. A complete scan without
     * repeats gives the direct answer.
     */
    method GetCurrentUsage(q: Query, pages: seq<seq<string>>) returns (r: CurrentUsage)
      requires Valid() && q.model.None?
      ensures r.total == Summed(log, Flat(pages), q)
      ensures forall m: Option<string> ::
          RowSum(r.byModel, m) == WithoutReports(Summed(log, Flat(pages), q.(model := m)))
      ensures ColonFree(log) && ':' !in q.tenant && ScanOf(Flat(pages), log, TenantPrefix(q.tenant)) ==>
                && r.total == Answer(log, q)
                && forall m: Option<string> :: RowSum(r.byModel, m) == WithoutReports(Answer(log, q.(model := m)))
    {
      hide Agree, ScanOf, Summed, RowSum, Answer;
      r := CurrentUsage(ZERO, []);
      ghost var scanned: seq<string> := [];
      SummedStep(log, [], "", q);
      forall m: Option<string> ensures RowSum([], m) == WithoutReports(Summed(log, [], q.(model := m))) {
        SummedStep(log, [], "", q.(model := m));
        NoRows(m);
      }
      var i := 0;
      while i < |pages|
        invariant 0 <= i <= |pages|
        invariant scanned == Flat(pages[..i])
        invariant r.total == Summed(log, scanned, q)
        invariant forall m: Option<string> ::
            RowSum(r.byModel, m) == WithoutReports(Summed(log, scanned, q.(model := m)))
      {
        var page, j := pages[i], 0;
        while j < |page|
          invariant 0 <= j <= |page|
          invariant scanned == Flat(pages[..i]) + page[..j]
          invariant r.total == Summed(log, scanned, q)
          invariant forall m: Option<string> ::
              RowSum(r.byModel, m) == WithoutReports(Summed(log, scanned, q.(model := m)))
        {
          var key := page[j];
          assert page[..j + 1] == page[..j] + [key];
          r := ReadKey(q, r, key, scanned);
          scanned := scanned + [key];
          j := j + 1;
        }
        assert page[..j] == page;
        assert pages[..i + 1][..i] == pages[..i];
        i := i + 1;
      }
      assert pages[..i] == pages;
      if ColonFree(log) && ':' !in q.tenant && ScanOf(scanned, log, TenantPrefix(q.tenant)) {
        SummedAnswers(log, scanned, q);
        assert q == q.(model := q.model);
      }
    }

    /** The body of the reader's inner loop. */
    method ReadKey(q: Query, sofar: CurrentUsage, key: string, ghost scanned: seq<string>) returns (r: CurrentUsage)
      requires Valid() && q.model.None?
      requires sofar.total == Summed(log, scanned, q)
      requires forall m: Option<string> ::
          RowSum(sofar.byModel, m) == WithoutReports(Summed(log, scanned, q.(model := m)))
      ensures r.total == Summed(log, scanned + [key], q)
      ensures forall m: Option<string> ::
          RowSum(r.byModel, m) == WithoutReports(Summed(log, scanned + [key], q.(model := m)))
    {
      hide Total, Summed, Plus, RowSum, Accepts, ParseUsageKey, ParseDate;
      r := sofar;
      AcceptsUnfolds(key, q);
      SummedStep(log, scanned, key, q);
      if !Accepts(key, q) {
        SkipStep(log, scanned, key, q);
      }
      var parts := ParseUsageKey(key);
      if parts.None? { return; }
      var date := ParseDate(parts.value.date);
      if date.None? { return; }
      if Before(date.value, MonthStart(q.today)) || Before(MonthEnd(q.today), date.value) { return; }
      if key in q.unreadable { return; }
      var h := Get(counters, key);
      var row := ModelUsage(parts.value.model, h.input, h.output, h.tools, h.embedding, h.cost);
      var total := AddTotals(r.total, h);
      RowsStep(log, scanned, key, q, sofar.byModel, row);
      r := CurrentUsage(total, r.byModel + [row]);
    }

    static method AddTotals(t: Counter, h: Counter) returns (r: Counter)
      ensures r == Plus(t, h)
    {
      r := t;
      r := r.(input := r.input + h.input);
      r := r.(output := r.output + h.output);
      r := r.(tools := r.tools + h.tools);
      r := r.(embedding := r.embedding + h.embedding);
      r := r.(cost := r.cost + h.cost);
      r := r.(reports := r.reports + h.reports);
    }
  }
}
