/** Usage events, their price, and direct folds over the log of emitted events. */
module UsageEvents {
  import opened Text
  import opened Dates
  import opened UsageKeys

  datatype EventType = LLM | Tool | Embedding | Other(name: string)

  datatype LLMUsage = LLMUsage(model: string, inputTokens: int, outputTokens: int)

  datatype ToolUsage = ToolUsage(toolName: string, model: string, success: bool)

  datatype EmbeddingUsage = EmbeddingUsage(model: string, chunksProcessed: int)

  datatype Event = Event(kind: EventType, tenant: string, llm: Option<LLMUsage>, tool: Option<ToolUsage>,
                         embedding: Option<EmbeddingUsage>)

  /** The fields of one counter hash, and equally the totals of a reader's snapshot. */
  datatype Counter = Counter(input: int, output: int, tools: int, embedding: int, cost: real, reports: int)

  const ZERO := Counter(0, 0, 0, 0, 0.0, 0)

  function Plus(a: Counter, b: Counter): Counter {
    Counter(a.input + b.input, a.output + b.output, a.tools + b.tools, a.embedding + b.embedding,
            a.cost + b.cost, a.reports + b.reports)
  }

  lemma {:induction false} PlusRegroup(a: Counter, b: Counter, w: Counter)
    ensures Plus(Plus(a, b), w) == Plus(Plus(a, w), b) == Plus(a, Plus(b, w))
  {
  }

  lemma {:induction false} PlusZero(a: Counter)
    ensures Plus(a, ZERO) == a == Plus(ZERO, a)
  {
  }

  type Day = d: Date | ValidDate(d) witness Date(2024, 1, 1)

  /** An event together with the UTC day on which it was emitted. */
  datatype Emission = Emission(day: Day, event: Event)

  datatype Price = Price(inputPer1K: real, outputPer1K: real)

  function ModelPrice(model: string): Option<Price> {
    if model == "qwen-max" then Some(Price(0.002, 0.006))
    else if model == "qwen-plus" then Some(Price(0.001, 0.003))
    else if model == "qwen-turbo" then Some(Price(0.0005, 0.0015))
    else if model == "text-embedding-v4" then Some(Price(0.0001, 0.0))
    else if model == "text-embedding-v3" then Some(Price(0.0001, 0.0))
    else None
  }

  /** Price of a call; a model outside the table is free. */
  function ComputeCost(model: string, inputTokens: int, outputTokens: int): (cost: real)
    ensures inputTokens >= 0 && outputTokens >= 0 ==> cost >= 0.0
  {
    match ModelPrice(model)
    case None => 0.0
    case Some(p) => (inputTokens as real / 1000.0) * p.inputPer1K + (outputTokens as real / 1000.0) * p.outputPer1K
  }

  /** The price is linear in the token counts, so summing prices prices the sums. */
  lemma {:induction false} CostAdds(model: string, i1: int, o1: int, i2: int, o2: int)
    ensures ComputeCost(model, i1, o1) + ComputeCost(model, i2, o2) == ComputeCost(model, i1 + i2, o1 + o2)
  {
    assert (i1 + i2) as real == i1 as real + i2 as real;
    assert (o1 + o2) as real == o1 as real + o2 as real;
  }

  /** The model name in the counter key; never empty. */
  function EventModel(e: Event): (model: string)
    ensures model != ""
  {
    match e.kind
    case LLM => if e.llm.Some? && e.llm.value.model != "" then e.llm.value.model else "_unknown_"
    case Tool => if e.tool.Some? && e.tool.value.model != "" then e.tool.value.model else "_tool_"
    case Embedding =>
      if e.embedding.Some? && e.embedding.value.model != "" then e.embedding.value.model else "_embedding_"
    case Other(_) => "_unknown_"
  }

  function KeyOf(em: Emission): string {
    RedisKey(em.event.tenant, FormatDate(em.day), EventModel(em.event))
  }

  /** What one event is worth: the direct meaning the counters must agree with. */
  function Worth(e: Event): Counter {
    match e.kind
    case LLM =>
      if e.llm.None? then ZERO
      else
        var u := e.llm.value;
        Counter(u.inputTokens, u.outputTokens, 0, 0, ComputeCost(EventModel(e), u.inputTokens, u.outputTokens), 1)
    case Tool => Counter(0, 0, 1, 0, 0.0, 0)
    case Embedding =>
      if e.embedding.None? then ZERO
      else
        var n := e.embedding.value.chunksProcessed;
        Counter(0, 0, 0, n, ComputeCost(EventModel(e), n, 0), 0)
    case Other(_) => ZERO
  }

  /** The events that write a counter hash. */
  predicate Counts(e: Event) {
    || (e.kind.LLM? && e.llm.Some?)
    || e.kind.Tool?
    || (e.kind.Embedding? && e.embedding.Some?)
  }

  /** The events emitted so far, newest outermost. */
  datatype Log = Empty | Append(before: Log, last: Emission)

  ghost predicate In(em: Emission, log: Log) {
    log.Append? && (em == log.last || In(em, log.before))
  }

  ghost predicate ColonFree(log: Log) {
    forall em :: In(em, log) ==> ':' !in em.event.tenant
  }

  /** Some logged event wrote the counter hash at key. */
  ghost predicate Wrote(log: Log, key: string) {
    log.Append? && ((Counts(log.last.event) && KeyOf(log.last) == key) || Wrote(log.before, key))
  }

  /** The worth of the logged events whose counter key is in keys. */
  ghost function Total(log: Log, keys: set<string>): Counter {
    match log
    case Empty => ZERO
    case Append(before, last) =>
      Plus(Total(before, keys), if KeyOf(last) in keys then Worth(last.event) else ZERO)
  }

  /** What a reader asks for: a tenant, the month of today, one model or all, less the unreadable hashes. */
  datatype Query = Query(tenant: string, today: Day, model: Option<string>, unreadable: set<string>)

  ghost predicate Selects(em: Emission, q: Query) {
    && em.event.tenant == q.tenant
    && em.day.year == q.today.year && em.day.month == q.today.month
    && (q.model.Some? ==> EventModel(em.event) == q.model.value)
    && KeyOf(em) !in q.unreadable
  }

  /** The direct meaning of a query: the worth of the logged events it selects. */
  ghost function Answer(log: Log, q: Query): Counter {
    match log
    case Empty => ZERO
    case Append(before, last) => Plus(Answer(before, q), if Selects(last, q) then Worth(last.event) else ZERO)
  }

  // ---------- what the totals count ----------

  /** A measure summed over the selected events of the log. */
  ghost function Sum(log: Log, q: Query, measure: Event -> int): int {
    match log
    case Empty => 0
    case Append(before, last) => Sum(before, q, measure) + if Selects(last, q) then measure(last.event) else 0
  }

  ghost function SumCost(log: Log, q: Query, measure: Event -> real): real {
    match log
    case Empty => 0.0
    case Append(before, last) => SumCost(before, q, measure) + if Selects(last, q) then measure(last.event) else 0.0
  }

  function OneIfTool(e: Event): int {
    if e.kind == Tool then 1 else 0
  }

  function OneIfReply(e: Event): int {
    if e.kind == LLM && e.llm != None then 1 else 0
  }

  function PromptTokens(e: Event): int {
    if e.kind == LLM && e.llm != None then e.llm.value.inputTokens else 0
  }

  function ReplyTokens(e: Event): int {
    if e.kind == LLM && e.llm != None then e.llm.value.outputTokens else 0
  }

  function ChunksEmbedded(e: Event): int {
    if e.kind == Embedding && e.embedding != None then e.embedding.value.chunksProcessed else 0
  }

  /** The model that an event names for its own kind, or "". */
  function NamedModel(e: Event): string {
    match e.kind
    case LLM => if e.llm == None then "" else e.llm.value.model
    case Tool => if e.tool == None then "" else e.tool.value.model
    case Embedding => if e.embedding == None then "" else e.embedding.value.model
    case Other(_) => ""
  }

  /** The price of an event's tokens under the model it names; what names no model, or an unlisted one, is free. */
  function PriceOf(e: Event): real {
    match ModelPrice(NamedModel(e))
    case None => 0.0
    case Some(p) =>
      (PromptTokens(e) + ChunksEmbedded(e)) as real * p.inputPer1K / 1000.0
      + ReplyTokens(e) as real * p.outputPer1K / 1000.0
  }

  /** An event counts under the model it names, and under a placeholder that has no price if it names none. */
  lemma {:induction false} EventModelIsNamed(e: Event)
    ensures NamedModel(e) != "" ==> EventModel(e) == NamedModel(e)
    ensures NamedModel(e) == "" ==> EventModel(e)[0] == '_' && ModelPrice(EventModel(e)) == None
    ensures NamedModel(e) == "" && e.kind.Tool? ==> EventModel(e) == "_tool_"
    ensures NamedModel(e) == "" && e.kind.Embedding? ==> EventModel(e) == "_embedding_"
    ensures NamedModel(e) == "" && (e.kind.LLM? || e.kind.Other?) ==> EventModel(e) == "_unknown_"
  {
  }

  /** A thousand prompt tokens and a thousand reply tokens cost what the table lists. */
  lemma {:induction false} PricesPerThousand(model: string)
    ensures ModelPrice(model).Some? ==>
              && ComputeCost(model, 1000, 0) == ModelPrice(model).value.inputPer1K
              && ComputeCost(model, 0, 1000) == ModelPrice(model).value.outputPer1K
    ensures ComputeCost("qwen-max", 1000, 0) == 0.002 && ComputeCost("qwen-max", 0, 1000) == 0.006
    ensures ComputeCost("qwen-plus", 1000, 0) == 0.001 && ComputeCost("qwen-plus", 0, 1000) == 0.003
    ensures ComputeCost("qwen-turbo", 1000, 0) == 0.0005 && ComputeCost("qwen-turbo", 0, 1000) == 0.0015
    ensures ComputeCost("text-embedding-v4", 1000, 0) == ComputeCost("text-embedding-v3", 1000, 0) == 0.0001
    ensures ComputeCost("text-embedding-v4", 0, 1000) == ComputeCost("text-embedding-v3", 0, 1000) == 0.0
  {
  }

  lemma {:induction false} WorthCounts(e: Event)
    ensures var w := Worth(e);
            && w.tools == OneIfTool(e) && w.reports == OneIfReply(e)
            && w.input == PromptTokens(e) && w.output == ReplyTokens(e) && w.embedding == ChunksEmbedded(e)
            && w.cost == PriceOf(e)
  {
    EventModelIsNamed(e);
    assert ModelPrice("") == None;
  }

  /**
   * What a query's answer means, field by field and for every log: the selected tool events counted, the
   * selected LLM events with usage counted as reports, the sums of their tokens and of the chunks
   * embedded, and the sum of the selected events' prices.
   */
  lemma {:induction false} AnswerCounts(log: Log, q: Query)
    ensures var a := Answer(log, q);
            && a.tools == Sum(log, q, OneIfTool) && a.reports == Sum(log, q, OneIfReply)
            && a.input == Sum(log, q, PromptTokens) && a.output == Sum(log, q, ReplyTokens)
            && a.embedding == Sum(log, q, ChunksEmbedded) && a.cost == SumCost(log, q, PriceOf)
  {
    hide Worth, Selects, Plus, OneIfTool, OneIfReply, PromptTokens, ReplyTokens, ChunksEmbedded, PriceOf;
    if log.Append? {
      AnswerCounts(log.before, q);
      var e := log.last.event;
      WorthCounts(e);
      PlusFields(Answer(log.before, q), if Selects(log.last, q) then Worth(e) else ZERO);
    }
  }

  lemma {:induction false} PlusFields(a: Counter, b: Counter)
    ensures var c := Plus(a, b);
            && c.input == a.input + b.input && c.output == a.output + b.output && c.tools == a.tools + b.tools
            && c.embedding == a.embedding + b.embedding && c.cost == a.cost + b.cost
            && c.reports == a.reports + b.reports
  {
  }

  /**
   * Which events an answer is about: one more event adds its worth if it is the tenant's, of the same
   * year and month, of the model asked for, and its hash is readable, and changes nothing otherwise.
   */
  lemma {:induction false} AnswerIsAbout(log: Log, em: Emission, q: Query)
    ensures em.event.tenant == q.tenant && em.day.year == q.today.year && em.day.month == q.today.month
            && q.model in {None, Some(EventModel(em.event))} && KeyOf(em) !in q.unreadable
            ==> Answer(Append(log, em), q) == Plus(Answer(log, q), Worth(em.event))
    ensures em.event.tenant != q.tenant || em.day.year != q.today.year || em.day.month != q.today.month
            || q.model !in {None, Some(EventModel(em.event))} || KeyOf(em) in q.unreadable
            ==> Answer(Append(log, em), q) == Answer(log, q)
  {
    hide KeyOf, Worth, Plus, EventModel;
    PlusZero(Answer(log, q));
  }

  lemma {:induction false} TotalUnion(log: Log, a: set<string>, b: set<string>)
    requires a !! b
    ensures Total(log, a + b) == Plus(Total(log, a), Total(log, b))
  {
    hide KeyOf, Worth, Plus;
    match log
    case Empty => PlusZero(ZERO);
    case Append(before, last) =>
      TotalUnion(before, a, b);
      var ta, tb, w := Total(before, a), Total(before, b), Worth(last.event);
      PlusZero(ta);
      PlusZero(tb);
      PlusZero(Plus(ta, tb));
      PlusRegroup(ta, tb, w);
  }

  lemma {:induction false} TotalOfNone(log: Log, keys: set<string>)
    requires forall k :: k in keys ==> !Wrote(log, k)
    ensures Total(log, keys) == ZERO
  {
    hide KeyOf, Plus;
    PlusZero(ZERO);
    if log.Append? {
      TotalOfNone(log.before, keys);
    }
  }

  lemma {:induction false} UncountedIsWorthless(e: Event)
    requires !Counts(e)
    ensures Worth(e) == ZERO
  {
  }

  /** A key set that picks the selected events totals what the direct fold totals. */
  lemma {:induction false} TotalAnswers(log: Log, keys: set<string>, q: Query)
    requires forall em :: In(em, log) && Counts(em.event) ==> (KeyOf(em) in keys <==> Selects(em, q))
    ensures Total(log, keys) == Answer(log, q)
  {
    hide KeyOf, Plus, Worth, Selects;
    if log.Append? {
      assert forall em :: In(em, log.before) ==> In(em, log);
      assert In(log.last, log);
      TotalAnswers(log.before, keys, q);
      if !Counts(log.last.event) {
        UncountedIsWorthless(log.last.event);
      }
    }
  }

  /** The key of an event of a colon-free tenant parses back to its tenant, day and model. */
  lemma {:induction false} KeyParses(em: Emission)
    requires ':' !in em.event.tenant
    ensures ParseUsageKey(KeyOf(em)) == Some(KeyParts(em.event.tenant, FormatDate(em.day), EventModel(em.event)))
  {
    KeyRoundTrip(em.event.tenant, FormatDate(em.day), EventModel(em.event));
  }

  /** The cost field is the price of the token fields. */
  predicate Priced(c: Counter, model: string) {
    c.cost == ComputeCost(model, c.input + c.embedding, c.output)
  }

  lemma {:induction false} PricedPlus(a: Counter, b: Counter, model: string)
    requires Priced(a, model) && Priced(b, model)
    ensures Priced(Plus(a, b), model)
  {
    CostAdds(model, a.input + a.embedding, a.output, b.input + b.embedding, b.output);
  }

  lemma {:induction false} WorthIsPriced(e: Event, model: string)
    ensures Priced(ZERO, model)
    ensures Priced(Worth(e), EventModel(e))
  {
  }

  /**
   * In exact arithmetic every counter hash keeps its cost equal to the price of its own token
   * fields: the key's model priced at (input + embedding, output).
   */
  lemma {:induction false} CostMatchesTokens(log: Log, key: string, parts: KeyParts)
    requires ColonFree(log)
    requires ParseUsageKey(key) == Some(parts)
    ensures Priced(Total(log, {key}), parts.model)
  {
    hide KeyOf, ParseUsageKey, Priced, Worth, Plus, FormatDate;
    match log
    case Empty => WorthIsPriced(Event(Tool, "", None, None, None), parts.model);
    case Append(before, last) =>
      assert In(last, log);
      assert forall em :: In(em, before) ==> In(em, log);
      CostMatchesTokens(before, key, parts);
      WorthIsPriced(last.event, parts.model);
      if KeyOf(last) == key {
        KeyParses(last);
        PricedPlus(Total(before, {key}), Worth(last.event), parts.model);
      } else {
        PlusZero(Total(before, {key}));
      }
  }
}
