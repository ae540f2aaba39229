# Verification of the multi-tenant report platform

A Dafny model of the platform's four stateful cores, with proofs over all inputs, all runs and all
interleavings.

- **Agent runs under a budget and a concurrency limit.** `AgentLoop` is the bounded reasoning loop,
  `LLMClient` the budget gate with retries and fallback, `Budget` the admission test, `Limiter` the two
  Redis scripts, `Handlers` the bracket around a job. `Platform` puts any number of jobs of any number of
  tenants on shared Redis state, with crashes, lost replies and failed releases as steps. A job's phase
  moves only along `JobProtocol`, whose acts carry what each call used. `AgentLoop.RunFinishes` shows that
  every agent run follows that protocol, and `PlatformRuns.ActIsEnabled` that the platform can take every act
  wherever the act's own condition holds; for an admission that condition is exactly that the total at the
  check's start was within the budget. `AgentLoop` takes the verdicts of its budget checks as inputs, which
  in `Platform` are those of the checks. `AgentOnPlatform` proves what holds when every job is an agent run.
  A budget check is not atomic in `Platform`: it starts, reads counters one by one while others emit, and
  then decides.
- **Usage accounting.** `UsageKeys` prints and parses the counter keys, `UsageEvents` defines what an event
  is worth, `UsageStore` has the emitter and the reader as a class over the Redis hashes, `FlushQueue` is the
  queue as a state machine, `Collector` has the flush and rollup loops. `Spending` relates a scan that runs
  beside emitters to the event log.
- **Ingestion.** `PdfText` rebuilds paragraphs, `Chunking` splits documents, `PdfDocuments` joins the
  two, `Ingestion` runs the pipeline, `KnowledgeStore` has the two tables with their foreign key and the
  replacing transaction.
- **Object store and cron form.** `Storage` and `CronForm`.
- **Tenant IDs.** `TenantIDs` proves that the IDs the platform issues have what the other modules ask of an ID.

`Text`, `Dates` and `Domain` hold what these share. Loops of the source are methods proved equal to a
specification function; what the source promises is proved of that function, in terms that do not mention it.
No lemma uses automatic induction. Costs are exact reals and
integers are unbounded. A Redis list is written newest first, as Redis orders it.

## Where the code and its own text differ

- A limit below 1 does not stop the first job of a tenant: the acquire script compares only when the key
  exists. The setting is respected in every run exactly when it is at least 1 (`Platform.SettingIsRespectedIff`).
- The budget bounds recorded cost. Synthesis is never recorded, so if no emission is lost, what a tenant really
  spends is bounded by the same plus one maximal call per job that synthesized
  (`AgentOnPlatform.AgentSpendIsBounded`). One such job is enough to pass the recorded bound
  (`AgentOnPlatform.ActualSpendIsBoundedIff`). Calls whose worker crashes before emitting them are counted as
  spent, and the slots they leak already pay for them.
- Embedding cost counts towards the budget but no check guards it; the total is bounded by the same plus that
  cost, which alone has no bound (`Platform.TotalIsBounded`, `Platform.UngatedCostIsUnbounded`).
- The agent loop's comment lists a duplicate tool call among the reasons to stop; the code answers it and goes on.
- The rollup adds the whole cumulative counter on every run, so a daily row agrees with its counter exactly if
  every earlier rollup found it at 0 (`Collector.RollupIsFaithfulIff`).
- A requeued event goes to the newest end, so it is overtaken by everything queued (`FlushQueue.RequeueKeepsOrderIff`).
- Nothing keeps the chunk overlap below the chunk size. Splitting a paragraph longer than the size then panics
  at its second window if the overlap is larger, and cuts the first window for ever if they are equal
  (`Chunking.SplitEndsIff`, `Chunking.ConstructorAllowsUnusable`).
- A document ID already held by another tenant or source keeps its owner and takes the new content
  (`KnowledgeStore.ReplaceOwnsExactlyIff`).
- A trailing hyphen is said to join the next fragment without a space, but a fragment joined that way is not
  itself checked for a hyphen: the fragments `a-`, `b-`, `c` become `a-b- c` (`PdfText.SecondHyphenIsMissed`).
  Every hyphen joins if and only if no two consecutive fragments before the last of a paragraph end in one
  (`PdfText.HyphensJoinIff`).
- The comment on the dedup type speaks of ingestion runs in the plural; each run makes a new one.

## Model

| member | source | states |
|---|---|---|
| Platform.OverspendIsBounded | internal/budget/checker.go:41-56 | over every interleaving of any jobs and tenants, a tenant's recorded LLM cost, with a maximal call for each one that died with its worker, never exceeds its budget by more than one maximal call per limiter slot |
| Platform.InvStep | internal/llm/client.go:67-86 | every step keeps: recorded LLM cost plus maxCost per pending or died call stays within budget plus maxCost per slot, and the limiter and log invariants |
| Platform.AllowedMeansWithinBudget | internal/budget/checker.go:46-70 | a check that allows a call began when the tenant's total was within budget, whatever was emitted while it read |
| Platform.FinishCheckStep | internal/budget/checker.go:46-70 | finishing a check keeps the bound, since a job it admits was already counted as pending |
| Platform.LimiterIsSafe | internal/queue/ratelimit.go:38-74 | in every reachable state with crashes, lost replies and failed releases: running jobs plus slots of calls that died <= counter <= cap, so a release never meets the floor |
| Platform.LimiterIsExactWithoutFaults | internal/queue/ratelimit.go:38-74 | without faults the counter equals the number of running jobs |
| Platform.SettingIsRespectedIff | internal/queue/ratelimit.go:43-49 | the configured limit is respected in every run exactly when it is at least 1 |
| Platform.ActualSpendIsBounded | internal/reports/agent_loop.go:156-181 | in every run, the price of all LLM calls, recorded, unrecorded or outstanding when their worker crashed, stays within the recorded bound plus one maximal call per completed call that a living job did not record, which includes every lost emission |
| AgentOnPlatform.AgentSpendIsBounded | internal/reports/agent_loop.go:156-181 | when every job is an agent run, finished, running or crashed at any point, and no emission is lost, the price of all a tenant's LLM calls is at most its budget plus one maximal call per slot and one per job that synthesized; those jobs each got a slot and recorded a call before |
| AgentOnPlatform.ActualSpendIsBoundedIff | internal/reports/agent_loop.go:156-181 | over all runs of agent jobs, crashes included, with no lost emission and at most n syntheses, the recorded bound bounds the price of all calls if and only if n is 0 or calls are free |
| AgentOnPlatform.UnrecordedSpendIsUnbounded | internal/reports/agent_loop.go:156-181 | for every limit some run of agent jobs, each with a recorded call, records no cost and really spends more |
| AgentOnPlatform.OverspendBoundIsSharp | internal/budget/checker.go:46-70 | the recorded bound less one maximal call fails in some run of agent jobs |
| PlatformRuns.AdmitIsEnabledIff | internal/budget/checker.go:36-70 | a check in progress can admit its call exactly if there is no budget or the tenant's total when it began was within it |
| PlatformRuns.RefusalIsJustified | internal/budget/checker.go:46-70 | a check without a model name, over a complete scan that repeats no key, refuses only if the tenant's total at the end of the scan is above its budget |
| PlatformRuns.ActIsEnabled | internal/llm/client.go:67-110 | every act that the protocol allows a job is a step of the platform with exactly that effect, wherever the act's condition holds |
| PlatformRuns.SynthesisRounds | internal/reports/agent_loop.go:150-181 | n jobs one after another, each recording a call of an unlisted model and then synthesizing, add n maximal calls to the real spend and nothing to the record |
| Platform.TotalIsBounded | internal/budget/checker.go:55-56 | the total recorded cost, embeddings included, is bounded by the same plus the embedding cost |
| Platform.UngatedCostIsUnbounded | internal/ingestion/worker.go:106-114 | one ingestion can record any cost, whatever the budget and limits |
| Platform.ActsFollowProtocol | internal/reports/agent_loop.go:65-81 | in any interleaving the acts of one job follow the protocol, and the job records at most maxCost for each of its Record acts |
| AgentOnPlatform.AgentJobRecordsWithinItsCaps | internal/reports/agent_loop.go:65-81 | a job whose part of any interleaving is an agent run ends with no call outstanding and has recorded at most maxLLMCalls maximal calls |
| Limiter.AcquireEffect | internal/queue/ratelimit.go:43-58 | an admitted acquire counts one more job within the cap; a refused one changes nothing; other tenants keep their counts |
| Limiter.ReleaseEffect | internal/queue/ratelimit.go:61-73 | a release takes one off a positive count and touches no other tenant |
| Limiter.ActiveKeyIsInjective | internal/queue/ratelimit.go:39 | distinct tenants have distinct counters |
| Limiter.RedisRateLimiter.Acquire | internal/queue/ratelimit.go:38-59 | the new counters and the verdict are those of the script |
| Limiter.RedisRateLimiter.Release | internal/queue/ratelimit.go:61-74 | the new counters are those of the script |
| Handlers.BracketRestores | internal/queue/handler.go:105-110 | acquire then release leaves every tenant's count as it was |
| Handlers.ProcessReport | internal/queue/handler.go:99-117 | whatever way the job ends, every tenant's count is what it was before; a refused job does not start |
| Handlers.ProcessIngestion | internal/queue/handler.go:63-87 | the same bracket; only an unresolved source suppresses the retry |
| Budget.CheckBudget | internal/budget/checker.go:31-98 | allowed exactly when there is no budget or cost plus estimate fits it; the 95% and 80% alerts hold exactly in their bands of admitted calls |
| Budget.AgentGateSeesOnlyTheRecord | internal/reports/agent_loop.go:53-57 | without a model name the estimate is 0 whatever the conversation, so the gate compares only recorded cost with the budget |
| Spending.ScanReadsAtLeast | internal/usage/reader.go:55-110 | a scan interleaved with emitters sums at least the tenant's total when it began, whatever keys it repeats and whatever other tenants are called |
| Spending.FuzzyScan | internal/usage/reader.go:55-110 | a scan without repeats, interleaved with emitters, sums to a value between the tenant's total when it began and when it ended |
| Spending.LLMCostWithinTotal | internal/ingestion/worker.go:106-114 | embedding cost is added without a check, so the total a check reads is at least the gated LLM cost |
| Spending.TotalSplits | internal/usage/reader.go:89-94 | the reported total is exactly the gated LLM cost plus the ungated cost |
| LLMClient.RetryBounds | internal/llm/client.go:112-140 | at most maxRetries + 1 calls, all but the last failed, the last decides, backoff at most 2^maxRetries - 1 seconds |
| LLMClient.CompleteBounds | internal/llm/client.go:67-110 | no provider call exactly when the gate refuses; call and backoff bounds over both providers; the fallback only after the primary failed; a success is the last call's answer |
| LLMClient.RetryStopsAtFirst | internal/llm/client.go:112-140 | with k the first attempt that answers, is cancelled or is the last: k + 1 calls, its answer, Cancelled or the last fault, and the exact sum of the backoffs |
| LLMClient.RetrySucceedsIff | internal/llm/client.go:112-140 | if no attempt is cancelled, in the call or its backoff, the loop succeeds if and only if some attempt up to maxRetries answers, and then with the first such answer |
| LLMClient.CancelledOnlyIfCancelled | internal/llm/client.go:123-136 | Cancelled is reported only if the context ended in an attempt or its backoff |
| LLMClient.CompleteFallsBackIff | internal/llm/client.go:67-110 | a refusal and a failed check are told apart; otherwise the fallback is tried if and only if one is configured and the primary ended in an error, and both errors are seen only if both fail |
| LLMClient.CompleteSucceedsIff | internal/llm/client.go:88-110 | undisturbed and let through, a call succeeds if and only if some attempt at a configured provider answers |
| LLMClient.CallWithRetry | internal/llm/client.go:112-140 | the loop computes the retry specification with its call count and backoff |
| LLMClient.Complete | internal/llm/client.go:67-110 | gate, primary, fallback compute the specification of one call |
| AgentLoop.Run | internal/reports/agent_loop.go:42-153 | the nested loops over the client's calls produce exactly the specified result, effect history and number of provider calls for any replies, tools and limits |
| AgentLoop.Synthesis | internal/reports/agent_loop.go:156-182 | the final call is sent the whole conversation and the closing instruction, offers no tools, is reported as one more call, and is not emitted |
| AgentLoop.RunFinishes | internal/reports/agent_loop.go:65-152 | at most maxLLMCalls + 1 completions and maxToolCalls tools, no tool key twice, reported counts are the actual ones, one emission per in-loop completion, protocol followed; every in-loop completion is sent a fully answered conversation, and synthesis one that is cut off at most in its last answers and then only by the tool cap |
| AgentLoop.RunTells | internal/reports/agent_loop.go:59-182 | said of the actions alone, for tool names without a colon: a tool call is invoked if and only if the same name and parameters were not invoked before; its answer is its own output, its printed failure, or that it is a duplicate; the next completion is sent exactly these; the run synthesizes exactly when LLM calls are used up or the tool cap cut the answers; and the result is that of the last completion |
| AgentLoop.ColonNamesCollide | internal/reports/agent_loop.go:110 | with a colon in a tool name two different calls share a key, and the second is refused as a duplicate |
| AgentLoop.HandleCallsSound | internal/reports/agent_loop.go:96-148 | a reply's calls are all answered in order with their IDs, or the tool cap left the last assistant message a proper prefix of its answers |
| AgentLoop.AfterReplySound | internal/reports/agent_loop.go:66-101 | step of `AgentLoop.RunFinishes`: a completion sent a whole conversation and its emission keep the run's invariant, whose emissions carry their completion's numbers |
| AgentLoop.SynthesizeFinishes | internal/reports/agent_loop.go:151-182 | step of `AgentLoop.RunFinishes`: synthesis from a whole conversation, or from one that the tool cap cut off, ends in a finished run |
| AgentLoop.RunProviderCalls | internal/reports/agent_loop.go:65-66 | a whole run makes at most (maxLLMCalls + 1) * (maxRetries + 1) * providers provider calls |
| AgentLoop.RunDropsOnlySynthesis | internal/reports/agent_loop.go:65-182 | a run leaves exactly one completed call unrecorded if it succeeded by synthesis and none otherwise; it is the last act and follows a recorded call if any LLM call is allowed |
| UsageKeys.KeyRoundTrip | internal/usage/redis_emitter.go:105-107 | printing then parsing a key gives its parts back exactly when tenant and date are colon-free and the model is not empty |
| UsageKeys.ParsedKeyPrints | internal/usage/collector.go:229-241 | a key that parses is the key printed from its parts |
| UsageKeys.PrefixMatchesOwnKeys | internal/usage/reader.go:46 | for colon-free tenants a scan prefix matches exactly the tenant's own keys |
| UsageKeys.PrefixFixesTenant | internal/usage/reader.go:57-66 | whatever a tenant's scan returns and the parser accepts belongs to that tenant |
| UsageKeys.FlushQueueNeverParses | internal/usage/redis_emitter.go:14 | the queue key shares the prefix but is never taken for a counter |
| UsageKeys.ColonTenantIsMisattributed | internal/usage/collector.go:227-241 | with a colon in a tenant ID its counters read as another tenant's |
| UsageKeys.SplitParts | internal/usage/collector.go:244-259 | the split loop computes the specified parts |
| UsageKeys.FindIndex | internal/usage/collector.go:261-268 | the search loop finds the first occurrence or none |
| UsageEvents.CostMatchesTokens | internal/usage/redis_emitter.go:66-83 | every counter's cost is the price of its own token fields under its key's model |
| UsageEvents.CostAdds | internal/usage/pricing.go:19-27 | the price is linear in the tokens |
| UsageEvents.PricesPerThousand | internal/usage/pricing.go:9-17 | a thousand prompt and a thousand reply tokens cost what the table lists |
| UsageEvents.EventModelIsNamed | internal/usage/redis_emitter.go:109-131 | an event counts under the model it names, and under a placeholder without a price otherwise |
| UsageEvents.AnswerCounts | internal/usage/redis_emitter.go:63-83 | for every log and query each field of the answer is a count or sum over the selected events themselves: tool calls, reports, prompt and reply tokens, embedded chunks, price |
| UsageEvents.AnswerIsAbout | internal/usage/reader.go:57-75 | an event counts if and only if it is the tenant's, of the month, of the model asked for, and its hash is readable |
| UsageStore.RedisUsage.EmitUsage | internal/usage/redis_emitter.go:54-102 | the counters stay the per-key totals of the event log, which grows by the event, and the queue is pushed and trimmed |
| UsageStore.RedisUsage.GetCurrentUsage | internal/usage/reader.go:41-113 | for any scan and paging, totals and the rows of each model sum the accepted keys in scan order; if the scan is complete and repeats no key and tenants are colon-free, they equal a direct fold over the tenant's events of the month, less unreadable hashes |
| UsageStore.ChosenAnswers | internal/usage/reader.go:62-75 | the keys a complete scan yields and the filter keeps total exactly the events of that tenant, month and model |
| UsageStore.RowsCount | internal/usage/reader.go:96-106 | the rows of a model add up, field by field, to the tool calls, tokens, chunks and cost of its selected events |
| TenantIDs.IssuedCountersAreExact | internal/tenant/service.go:32-33 | issued tenant IDs are colon-free, so among them a complete scan gives each tenant exactly the fold over its own events |
| TenantIDs.IssuedSpendIsBounded | internal/tenant/service.go:32-33 | the overspend bound holds for every issued tenant ID with a budget |
| Dates.DateRoundTrip | internal/usage/redis_emitter.go:59 | a printed day parses back to itself |
| Dates.ParsedDatePrints | internal/usage/reader.go:68-72 | a string that parses is the printed form of its day |
| Dates.InCurrentMonthIffSame | internal/usage/reader.go:73-75 | the window comparisons select exactly the days of the same year and month |
| FlushQueue.QueueConserves | internal/usage/collector.go:108-156 | in every interleaving each emitted event is in exactly one place, none is inserted twice, and the list passes its cap by at most one per collector |
| FlushQueue.QueueIsFifo | internal/usage/collector.go:118-155 | with one collector and no failed insert, rows, held event and queue in age order are the emissions with only trimmed ones removed |
| FlushQueue.TrimDropsOldest | internal/usage/redis_emitter.go:94-95 | a trim drops only events older than all it leaves |
| FlushQueue.RequeueKeepsOrderIff | internal/usage/collector.go:149-154 | requeuing keeps emission order exactly when nothing else is queued |
| FlushQueue.RequeuedIsOvertaken | internal/usage/collector.go:149-154 | the failing run: of two emissions the first one's insert fails once, and its row is written second |
| Collector.UsageCollector.Flush | internal/usage/collector.go:108-161 | one cycle turns at most 100 oldest events into rows in order; it stops on a full batch, an empty queue, cancellation, a failed pop or a failed insert, and only the last requeues or loses one event |
| Collector.FlushIsARun | internal/usage/collector.go:108-161 | whatever a flush cycle may leave behind is reached by a collector's pop, insert, requeue and lose steps of `FlushQueue`, so its theorems cover such cycles |
| Collector.UsageCollector.Rollup | internal/usage/collector.go:164-225 | every daily row grows by exactly what the scanned readable counters add to it |
| Collector.AddedIsOwnCounter | internal/usage/collector.go:175-209 | a scan without repeats adds to a row the clamped counter of the row's own key and nothing else |
| Collector.RowKeyIff | internal/usage/collector.go:175-195 | a key is rolled up into a row if and only if it is the printed key of a colon-free tenant, a day and a model |
| Collector.RollupsAddUp | internal/usage/collector.go:164-225 | after any number of rollups a daily row is the sum of what each found in the row's own counter |
| Collector.RollupIsFaithfulIff | internal/db/usage.sql.go:201-207 | after any rollups each of the six fields of the row agrees with the counter the last one found, or with the column's largest value if it does not fit, exactly when every earlier one found that field at 0 |
| Collector.SecondRollupDoubles | internal/usage/collector.go:197-213 | the failing input: two rollups of an unchanged counter leave twice its tokens in the row |
| Collector.ToInt32 | internal/usage/collector.go:295-303 | in the int32 range, and unchanged when already in it |
| Chunking.ChunksHoldTheParagraphs | internal/knowledge/chunking.go:40-92 | carried tails aside, the chunks in order hold exactly the trimmed non-blank paragraphs, and each tail is the end of the chunk before |
| Chunking.ChunksCarryTheirTails | internal/knowledge/chunking.go:58-84 | a chunk right after another begins with exactly its last overlap runes and any other with none; a paragraph joined a chunk that had one only if bytes plus runes plus 2 stay within the size, and a chunk was closed before a paragraph only if they would not |
| Chunking.RenderJoins | internal/knowledge/chunking.go:80-83 | a chunk's text is its tail, if any, and its paragraphs with a blank line between any two |
| Chunking.ByteLenCounts | internal/knowledge/chunking.go:59 | the buffer is measured in UTF-8 bytes: equal to its runes exactly for ASCII |
| Chunking.ParagraphsReadBack | internal/knowledge/chunking.go:47-56 | trimmed paragraphs written with a blank line between them are read back, single line breaks included |
| Chunking.ChunksComeFromDocuments | internal/knowledge/chunking.go:118-134 | every chunk has the ID, metadata, source and document type of one of the documents, each in its own column |
| Chunking.ChunksAreBounded | internal/knowledge/chunking.go:58-84 | no chunk has more than size + overlap + 2 runes |
| Chunking.SmallParagraphsAreWhole | internal/knowledge/chunking.go:67-83 | a paragraph of at most size runes lies whole in some chunk |
| Chunking.WindowsReconstruct | internal/knowledge/chunking.go:94-109 | the windows of a text that is split completely have at most size runes, share exactly overlap runes, and rebuild the text |
| Chunking.SplitEndsIff | internal/knowledge/chunking.go:94-109 | splitting ends, with the specified windows, exactly if one window suffices or the overlap is below the size; it panics at the second window exactly if the text is longer and the overlap above the size; it repeats the first window for ever exactly if the text is longer and the overlap is the size |
| Chunking.ConstructorAllowsUnusable | internal/knowledge/chunking.go:21-29 | size 100 with the default overlap panics on every text of more than 100 runes, and size 200 never finishes one of more than 200 |
| Chunking.SplitBySize | internal/knowledge/chunking.go:94-109 | the loop produces exactly the specified windows, or panics exactly when some window cannot be cut |
| Chunking.ChunkDocument | internal/knowledge/chunking.go:40-92 | the buffer loop produces exactly the planned chunks if every paragraph can be split, and otherwise panics |
| Chunking.ChunkAll | internal/knowledge/chunking.go:31-38 | documents are chunked one after another |
| PdfText.NormalizePDFText | internal/ingestion/parser.go:107-149 | the loops with the flush closure compute the specified page |
| PdfText.NormalizeIsIdempotent | internal/ingestion/parser.go:107-149 | normalising twice is normalising once |
| PdfText.NormalizeKeepsInk | internal/ingestion/parser.go:107-149 | every non-white-space character survives in order and none is added |
| PdfText.GroupsShape | internal/ingestion/parser.go:136-147 | groups hold every fragment once in order; only the last of a group may end a sentence, and all groups but the last end one |
| PdfText.ParagraphsShape | internal/ingestion/parser.go:107-160 | output paragraphs are trimmed single lines and all but the last end with a closer |
| PdfText.GluedIffOddRun | internal/ingestion/parser.go:112-134 | a fragment is joined without a space if and only if the run of hyphen-ended fragments right before it has odd length |
| PdfText.HyphensJoinIff | internal/ingestion/parser.go:99-106 | a paragraph joins at every trailing hyphen, as the comment says, if and only if no two consecutive fragments before its last end in a hyphen |
| PdfText.SecondHyphenIsMissed | internal/ingestion/parser.go:112-134 | the failing input: `a-`, `b-`, `c` gives `a-b- c` |
| PdfText.TwoFragments | internal/ingestion/parser.go:136-160 | between two fragments stands a paragraph break after each of the eleven closing characters, nothing after a hyphen, and a space after any other |
| PdfDocuments.ParsePDF | internal/ingestion/parser.go:87-96 | the page loop joins the normalized pages that are not blank |
| PdfDocuments.ChunkerSeesParagraphs | internal/knowledge/chunking.go:40-56 | the paragraphs into which the chunker splits a parsed PDF are exactly the normalizer's output paragraphs of its pages, in order |
| KnowledgeStore.PgStore.ReplaceSource | internal/knowledge/store.go:76-167 | it commits exactly when nothing the transaction does fails and the foreign key can hold; then the tables are the specified ones, and otherwise unchanged |
| KnowledgeStore.ReplaceIsExact | internal/knowledge/store.go:71-100 | on success the source's documents and chunks are exactly the new ones, all else is unchanged, and every chunk's document exists |
| KnowledgeStore.ReplaceOwnsExactlyIff | internal/db/documents.sql.go:60-67 | the source owns exactly the new documents if and only if no new ID was held elsewhere |
| KnowledgeStore.RenamedUploadKeepsItsOldName | internal/ingestion/file_upload.go:59-68 | the failing input: an upload's document ID is its source ID, so after a rename its row keeps the old file name with the new content |
| KnowledgeStore.InsertedChunks | internal/db/chunks.sql.go:69-79 | inserting chunks with new IDs adds exactly their rows, and succeeds exactly when every document exists |
| KnowledgeStore.ConflictingChunk | internal/db/chunks.sql.go:69-79 | a chunk whose ID exists keeps its tenant, source and document type and takes everything else |
| KnowledgeStore.DeleteTenantDataIsExact | sql/migrations/008_documents.sql:27-29 | deleting a tenant removes its documents and their chunks and nothing else |
| KnowledgeStore.StatementsKeepLinks | sql/migrations/008_documents.sql:27-29 | every statement keeps the foreign key, also half-way through an insert |
| Ingestion.Dedup.Seen | internal/ingestion/dedup.go:17-24 | false the first time a content comes and true ever after |
| Ingestion.UniqueKeepsFirsts | internal/ingestion/worker.go:70-77 | kept chunks are, in order, the first chunk of each content, with pairwise distinct contents and no content lost |
| Ingestion.Ingest | internal/ingestion/worker.go:47-120 | it succeeds exactly when no step fails and there is a document; success leaves exactly the specified tables and reports the number of kept chunks; failure changes nothing |
| Ingestion.IngestIsExact | internal/ingestion/worker.go:63-104 | without faults a run succeeds, the source holds exactly its documents and first-occurrence chunks, and nothing else changes |
| Ingestion.IngestedRows | internal/ingestion/worker.go:70-104 | said of the documents: the source's chunks are one row per kept content, with the run's IDs and dates, and each has the document ID, metadata, source and document type of a document of the run, its own embedding and tenant |
| Ingestion.IngestedDocuments | internal/ingestion/worker.go:85-104 | the source owns exactly the run's document IDs, each row with the content and metadata of the last document of that ID |
| Ingestion.ReingestIsIdempotent | internal/ingestion/worker.go:96-104 | any number of runs on unchanged documents leaves the same documents and chunks up to IDs and dates, and nothing of others changes |
| Storage.FlatStoreRefines | internal/storage/memory.go:26-79 | every operation sequence of slash-free tenants gives the replies and contents of a separate map per tenant |
| Storage.StepRefines | internal/storage/memory.go:26-79 | one operation follows the abstract step, so deleting a tenant removes exactly its objects |
| Storage.ReadsWhatWasWritten | internal/storage/memory.go:26-66 | a caller reads what it wrote last and nothing after deleting, no write or delete shows at another key, and an invalid key is refused and changes nothing |
| Storage.FlatStoreFromEmpty | internal/storage/memory.go:20-79 | from the empty store on, no operation sequence tells the flat map from a map per tenant |
| TenantIDs.IssuedObjectsAreSeparate | internal/tenant/service.go:32-33 | issued tenant IDs are slash-free, so no operations of them can tell the flat map from a map per tenant |
| Storage.DeleteTenantIsExact | internal/storage/memory.go:69-79 | deleting a tenant removes all its objects and none of another slash-free tenant |
| Storage.ObjectKeyIsInjective | internal/storage/key.go:10-36 | full keys are equal exactly for equal tenant and key |
| Storage.SlashTenantIsShared | internal/storage/key.go:10-12 | with a slash in a tenant ID its objects lie under another tenant's prefix |
| Storage.BuildObjectKey | internal/storage/key.go:23-36 | the validating scan accepts exactly the valid keys |
| Storage.ValidKeyIff | internal/storage/key.go:14-36 | a key is valid if and only if it is not empty, begins neither with a slash nor with the tenant prefix, and has no two dots alone between slashes or the ends |
| Storage.MemoryObjectStore.PutObject | internal/storage/memory.go:26-39 | new map and reply of the flat step |
| Storage.MemoryObjectStore.GetObject | internal/storage/memory.go:42-54 | reply of the flat step |
| Storage.MemoryObjectStore.DeleteObject | internal/storage/memory.go:57-66 | new map and reply of the flat step |
| Storage.MemoryObjectStore.DeleteTenantObjects | internal/storage/memory.go:69-79 | in any range order, exactly the prefixed keys go |
| Storage.DeleteBatches | internal/storage/s3.go:174-187 | the batches are the listed keys in order, 1 to 1000 each, all but the last full |
| CronForm.CronRoundTripIff | internal/webui/mapper.go:695-729 | decomposing a built expression gives the padded time and effective day fields exactly when those hold no white space |
| CronForm.CronRebuildsItself | internal/webui/mapper.go:695-744 | rebuilding from the decomposed fields yields the identical expression |
| CronForm.PadOfPlain | internal/webui/mapper.go:840-846 | padding a printed number below 100 gives its two digits |
| CronForm.CronExamples | internal/webui/mapper.go:695-721 | one expression of each type, with and without its day field: minute, hour, day of month, month, day of week |
| CronForm.ClockReads | internal/webui/mapper.go:734-744 | a clock is read as its digits stand, with one or two for the hour |
| CronForm.BuildFailsIff | internal/webui/mapper.go:695-721 | an expression is refused for its time first, then for its type, and for nothing else |
| CronForm.PadKeepsValue | internal/webui/mapper.go:840-846 | padding keeps what is no number and otherwise the value, in at least two characters |

## Left out

- HTTP handlers, middleware, templates and the other view mappers: user interface and framework glue.
- Authentication, encryption, UUIDs, JSON, the PDF, DOCX, XLSX and ZIP readers: foreign libraries; hashes are taken as injective and chunk IDs as new.
- AgentLoop.RunTells: parameters are their printed form, so two maps that print alike are the same call.
- Similarity ranking, embedding vectors, SMTP, the queue server and the S3 client beyond the delete batches.
- Wall-clock deadlines, counter expiry, logging, and reclaiming a slot that a crash has leaked.
- Floating-point rounding of costs, `PercentUsed`, numeric column precision and 64-bit overflow of counters and of backoff durations.
- Invalid UTF-8 in document text: strings are sequences of characters, and byte lengths are computed from them.
- UsageStore.RedisUsage.GetCurrentUsage: tenant IDs without glob characters and hash fields that print and parse as numbers are assumed; the equality with the event log needs a complete scan that repeats no key, which Redis does not promise.
- UsageStore.RedisUsage.EmitUsage: the pipeline is one step and always applied; a call whose emission fails altogether is `DropCall` in `Platform`.
- Platform.OverspendIsBounded: assumes non-negative token counts, no counter expiring after its 48 hours (which would lower what the check reads), a budget month that does not change during the run, no unreadable hash during a check (the reader skips one silently, which lowers what the check sees), a fixed positive budget, and a tenant ID without colons, as all issued IDs are.
- Platform.LimiterIsSafe: each call of a limiter script runs it at most once; a client that repeats a script after a lost reply is not modelled.
- AgentOnPlatform.AgentSpendIsBounded: runs in which an emission is lost are not runs of agent jobs in its sense; `Platform.ActualSpendIsBounded` bounds those too, with one maximal call per lost emission.
- AgentOnPlatform.ActualSpendIsBoundedIff: assumes that maxCost is the price of some call, a limiter setting and an LLM call cap of at least 1; calls that failed at the provider are taken to be free.
- FlushQueue.QueueConserves: a failed insert is taken to have written no row; a pop whose reply is lost and an entry that does not parse are not steps, since every entry was printed by the emitter.
- Collector.UsageCollector.Flush: no emitter runs during the cycle, whose interleavings are in `FlushQueue`; a failed pop took no event, and entries that do not parse, which the code drops, are left out.
- Collector.UsageCollector.Rollup: a failed upsert is not modelled separately from an unreadable key, and a failed scan not from one that lists fewer keys.
- Chunking.ChunkDocument: a document on which the code never ends, one with a paragraph longer than the size when the overlap is the size, is excluded, as no result is ever returned; `Chunking.SplitEndsIff` states that case.
- Ingestion.Ingest: the chunker's overlap is below its size, as the worker sets it (1000 and 200); connector resolution and extraction are the given documents; the usage event it emits carries the returned count.
- KnowledgeStore.ReplaceIsExact: requires all documents to name the replaced source and no new ID to be held elsewhere, which `ReplaceOwnsExactlyIff` shows to be needed.
- KnowledgeStore.PgStore.ReplaceSource: a commit that reports failure is taken to have been rolled back.
- `estimateInputTokens`: its result never matters, since the agent loop names no model (`Budget.AgentGateSeesOnlyTheRecord`).
- The steps of a report job between acquire and release, its tracking rows and its delivery: `Handlers` has only whether it succeeds.
- `titleCase`, report titles, system prompts and the gathering of context before a run: text formatting.
- Services and repositories of reports, schedules, sources, tenants and users: thin wrappers.
