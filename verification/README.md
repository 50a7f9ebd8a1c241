# Provara gateway: verified models

The gateway routes chat-completion requests to model providers, bills metered overage through
Stripe, trims retrieval context, caches responses, limits request rates and reports on spend. This
project models the stateful and algorithmic parts of that work and proves what they keep.

| module | models |
|---|---|
| `Metering`, `MeteringProtocol` | The billing tables, Stripe's first-write-wins meter, and any number of reporting cycles racing each other, one database or Stripe call per step, with failures and crashes anywhere. |
| `MeteringCycle`, `MeteringTiers`, `MeteringStats`, `MeteringExactness`, `MeteringRefinement` | The cycle as written (a class over the tables), whom it bills, what it reports of itself, histories of serialised cycles with every way a push or a row write can fail, exactness of the bill, and the proof that each serial history is a run of the racing machine. |
| `MeteringRaces` | Exactness of the bill over every interleaving, and a race that overbills. |
| `Sentences`, `SentenceFacts`, `Tokens`, `TokenFacts`, `Similarity`, `BestMatch`, `Ranking`, `Dedupe`, `DedupeProofs`, `Relevance`, `Freshness`, `Conflicts`, `ConflictFacts`, `ConflictOrder`, `ConflictDetection`, `Compression`, `CompressionScores`, `Optimizer`, `CompressionDuplicates` | The context optimizer: dedupe with shared, mutated source lists, ranking, freshness, pairwise conflicts and when their order matters, extractive compression, and the pipeline. |
| `CanonicalJson`, `CanonicalJsonProofs`, `CanonicalJsonText`, `ExactCache` | The canonical printer in the cache key, the key's 32-bit hash, and the bounded map with expiry. |
| `Cosine`, `SemanticCache`, `SemanticTenants` | Cosine similarity over the reals, the in-memory mirror of the semantic cache table, and whose rows a lookup can answer with. |
| `ToolCalls`, `Failover` | Streamed tool-call reassembly and the two provider-attempt loops. |
| `RateLimiter` | The per-token fixed-window limiter over whole runs. |
| `Calendar`, `Spend`, `Trajectory`, `BudgetAlerts`, `BudgetSpend`, `Drift` | UTC periods (section 21.4.1 of ECMA-262), spend trajectory, budget alerts and whose spend they watch, and attribution windows. |
| `Options`, `Arithmetic`, `Sequences` | Definitions shared by the others. |

Code that changes state is a class or a loop method proved equal to a specification function; what
the code is for is then proved of that function. Clocks, Stripe, the database, embeddings, token
sets and provider replies are parameters.

## Findings

Places where the code does less than its documentation or its evident purpose. Each has a lemma
with the failing input or the exact condition.

- Billing is not exactly-once. With serialised cycles it is exact if and only if every lost row write
  is retried like for like (`MeteringExactness.ExactExactlyWhenRetried`): a lost write followed by
  growth of the overage, or by a renewal (whose flush adds `:final` to the identifier), is charged
  twice (`MeteringExactness.LostWriteThenGrowthOverbills`,
  `MeteringExactness.LostWriteThenRenewalOverbills`). With racing cycles two pushes from the same mark
  under different overages are charged twice although no call fails and no write is lost
  (`MeteringRaces.RaceOverbills`); `MeteringRaces.ExactExactlyWhenSettled` is the exact condition over
  every interleaving. The comments on `pushMeterEvent` and on a lost compare-and-set say that
  Stripe's identifiers prevent this.
- The score and severity of a numeric conflict can depend on the order of the two chunks, for two
  reasons: each order may find a different clash first (`ConflictOrder.FirstClashDependsOnOrder`),
  and under a shared metadata key each order counts the first chunk's own topics
  (`ConflictOrder.CountedTopicsDependOnOrder`). `ConflictOrder.NumericOrderIff` says exactly when
  they agree.
- Status terms are looked up among tokens from which -ed has been stripped, so a term is found by
  its own spelling if and only if it does not end in -ed (`Conflicts.TermsFoundBySpellingIff`):
  "enabled", "disabled", "supported", "unsupported", "allowed", "blocked" and "deprecated" are not.
- With more than 200 chunks some pairs are never compared: `ConflictDetection.AllCheckedIff`.
- Refreshing a key of a full exact cache evicts another entry, unless the key is the oldest:
  `ExactCache.RefreshKeepsOthersIff`.
- A refusal before the last attempt is discarded even when every later attempt is skipped, and the
  request fails: `Failover.FailsExactlyWhen`, `Failover.RefusalCanBeLost`.
- A minute can admit 2L - 1 calls, and not 2L (`RateLimiter.AnyMinuteBound`,
  `RateLimiter.BoundIsReached`), so the limit holds of every minute only if it is 1
  (`RateLimiter.EveryMinuteWithinLimitIff`).
- Budget alerts are sent before the row that remembers them is updated: a later cycle of the period
  sends a threshold again if and only if every cycle since died before its update
  (`BudgetAlerts.FiresAgainIff`).
- Compression can give one and the same text to two chunks that deduplication keeps apart at every
  threshold: `CompressionDuplicates.CompressionCanMakeDuplicates`. It makes texts equal exactly as
  `CompressionDuplicates.CompressedEqualIff` says, and near duplicates exactly as
  `CompressionDuplicates.ResultPairNearIff` says.
- A semantic-cache bucket is keyed by tenant, provider and model joined with colons, so names with
  colons can share a bucket (`SemanticTenants.ColonsCanCollide`), and no tenant shares one with a tenant
  named "anon"; without colons that is all (`SemanticTenants.KeysAgreeIff`).
- `Date.UTC` reads the years 0 to 99 as 1900 to 1999, so times in those years are not in their own
  period: `Calendar.InOwnPeriodIff`.
- Attribution windows can overlap after drifts smaller than epsilon, although the documentation
  calls them disjoint: `Drift.OverlapIff`, `Drift.SmallDriftsOverlap`.

## Model

| member | source | states |
|---|---|---|
| MeteringProtocol.BilledAtLeastOnce | packages/gateway/src/billing/usage.ts:139-371 | In every state reachable by any interleaving of cycles, failures and crashes, the events Stripe accepted for a row sum to at least its high-water mark, every unit below the mark lies in an accepted event, and the audited dollars are mark x 0.5 / 1000. |
| MeteringProtocol.MarkNeverFalls | packages/gateway/src/billing/usage.ts:173-200 | Whatever happens later, tier changes and stale writers included, a row stays, its mark never decreases and a finalized row stays finalized. |
| MeteringProtocol.StepKeepsInv | packages/gateway/src/billing/usage.ts:216-373 | Every single step of every process keeps the table and snapshot invariants and only adds to rows and accepted events. |
| MeteringCycle.UsageReporter.PushMeterEvent | packages/gateway/src/billing/usage.ts:139-161 | Stripe keeps the first event under an identifier and ignores later ones. |
| MeteringCycle.UsageReporter.UpdateReportOptimistically | packages/gateway/src/billing/usage.ts:173-200 | Writes exactly when the stored mark is still the one read, and says so. |
| MeteringCycle.UsageReporter.GetOrCreateReportRow | packages/gateway/src/billing/usage.ts:99-131 | Returns the period's row, creating one at mark 0; fails on either unique index. |
| MeteringCycle.UsageReporter.FlushStale | packages/gateway/src/billing/usage.ts:248-320 | The rollover pass: effect on tables, Stripe and statistics for each way it can end. |
| MeteringCycle.UsageReporter.ReportCurrent | packages/gateway/src/billing/usage.ts:322-364 | The current-period pass, likewise. |
| MeteringCycle.UsageReporter.RunUsageReportCycle | packages/gateway/src/billing/usage.ts:216-373 | A whole cycle is the visits of its subscriptions in turn, one visit's failure not touching the next. |
| MeteringTiers.VisitBillsByTier | packages/gateway/src/billing/usage.ts:239-364 | Whom a cycle bills: after a fault-free visit of a pro (team) subscription whose row can be opened, the current mark is the larger of the old one and max(0, n - 100,000) (500,000), n being the number of log positions of the tenant since the period began; the events sent carry the subscription's customer, no timestamp in the period and the period's last second on a flush. Any other tier leaves tables and meter alone. |
| MeteringTiers.OtherTiersUntouched | packages/gateway/src/billing/usage.ts:242-246 | A tier other than pro and team changes nothing, whatever fails. |
| MeteringTiers.LaunchSelects | packages/gateway/src/billing/usage.ts:220-230 | A cycle only starts on subscriptions that include intelligence and are active, trialing or past due. |
| MeteringStats.ReportedIsRisen | packages/gateway/src/billing/usage.ts:232-372 | Conservation over any sequence of requests and visits, whatever fails: the requests reported as billed are exactly those by which the marks of all rows rose together; every visit is counted, and errors are no more than visits. |
| MeteringStats.VisitTold | packages/gateway/src/billing/usage.ts:239-370 | One visit counts as written exactly the rows whose mark rose, and no error when nothing fails. |
| MeteringExactness.ExactExactlyWhenRetried | packages/gateway/src/billing/usage.ts:216-373 | For any history of serialised cycles, Stripe's total for a period equals the row's mark if and only if every lost row write was retried under the same identifier by the next successful write. |
| MeteringExactness.FinalizedBillIsExact | packages/gateway/src/billing/usage.ts:73-97 | With a fixed tier and current-period passes before period end, a finalized row carries max(0, requests in [start, end) - quota), and Stripe charged exactly that if and only if lost writes were retried like for like. |
| MeteringExactness.ClosedAtOverageIff | packages/gateway/src/billing/usage.ts:248-320 | With no assumption on tiers or timing: which visits finalize the stale row they find, and that such a row is closed at the closed overage if and only if it had not been reported beyond it; otherwise it keeps its mark. |
| MeteringExactness.VisitFinalizesNewest | packages/gateway/src/billing/usage.ts:248-320 | A visit in which nothing fails finalizes the newest stale row and no other. |
| MeteringExactness.VisitsCloseEverything | packages/gateway/src/billing/usage.ts:248-320 | Progress: as many fault-free visits to a subscription as it has stale rows finalize them all, whatever requests and visits to other subscriptions, failing or not, come between. |
| MeteringExactness.LostWriteThenGrowthOverbills | packages/gateway/src/billing/usage.ts:326-358 | The history: 100,001 requests on pro, a cycle whose row write is lost, one more request, a cycle; Stripe has been given 3 for a mark of 2. |
| MeteringExactness.LostWriteThenRenewalOverbills | packages/gateway/src/billing/usage.ts:269-306 | The history: 100,001 requests on pro, a cycle whose row write is lost, a cycle after renewal; the flush repeats the overage under a new identifier and 2 are billed for a mark of 1. |
| MeteringRefinement.VisitIsARun | packages/gateway/src/billing/usage.ts:239-370 | A serial visit, with each possible failure, is a run of the racing machine: the two models are of one program. |
| MeteringRefinement.HistoryIsARun | packages/gateway/src/billing/usage.ts:216-373 | Every serial history of requests and visits of selected subscriptions, whatever fails, is a run of the racing machine from the empty state. |
| MeteringRefinement.HistoryBilledAtLeastOnce | packages/gateway/src/billing/usage.ts:216-373 | At-least-once billing carried over to serial histories. |
| MeteringRaces.ExactExactlyWhenSettled | packages/gateway/src/billing/usage.ts:216-373 | Over every run of racing cycles, failures and crashes: Stripe's total for a row is at least its mark, and equal to it if and only if no accepted push was measured from an outdated mark, each row write found its own push and no other outstanding, and none is outstanding now. |
| MeteringRaces.RaceOverbills | packages/gateway/src/billing/usage.ts:326-358 | The run: 100,001 requests, a cycle up to its push, one more request, a second cycle up to its push, then first push, second push, second row write, first row write; nothing fails, 3 are billed for a mark of 2. |
| CanonicalJsonProofs.CanonicalPrintingIsFaithful | packages/gateway/src/cache/index.ts:17-22 | Two JSON values print alike exactly when they are equal up to the order of object keys at every depth. |
| CanonicalJsonProofs.ReadValue | packages/gateway/src/cache/index.ts:17-22 | Unique readability: printed texts followed by anything can be told apart value by value. |
| CanonicalJsonProofs.CanonDecides | packages/gateway/src/cache/index.ts:20-21 | Sorting keys recursively gives the same value exactly for equivalent values. |
| CanonicalJsonText.ArrayText | packages/gateway/src/cache/index.ts:19 | Items stand in order between brackets with commas between them. |
| CanonicalJsonText.ObjectText | packages/gateway/src/cache/index.ts:20-21 | Members stand between braces, quoted key, colon, value, in code unit order of the keys whichever came first. |
| CanonicalJsonText.EscapesAre | packages/gateway/src/cache/index.ts:18 | The escapes inside quoted text, written out; every other character from 32 on stands for itself. |
| CanonicalJsonText.EscapesInTurn | packages/gateway/src/cache/index.ts:18 | Text is escaped character by character, in order. |
| ExactCache.Hash | packages/gateway/src/cache/index.ts:36-40 | Wrapping at each step gives the signed 32-bit number congruent to the base-31 value of the whole text. |
| ExactCache.PolynomialOfJoin | packages/gateway/src/cache/index.ts:36-39 | The value hashed is positional: a joined text has its front's value moved up by a power of 31, plus its back's. |
| ExactCache.Cache.GetCached | packages/gateway/src/cache/index.ts:43-58 | Answers the stored response until its expiry and deletes an expired entry, changing nothing else. |
| ExactCache.Cache.PutCache | packages/gateway/src/cache/index.ts:60-81 | Evicts the first entry when full, then sets, for five minutes unless told otherwise; an existing key keeps its place. |
| ExactCache.HitsAreTheLatestPut | packages/gateway/src/cache/index.ts:43-81 | In every reachable state there are at most 1000 entries, and a hit is the response of the most recent put under the key, within that put's time to live. |
| ExactCache.OrderedByInsertion | packages/gateway/src/cache/index.ts:70-74 | In every reachable state entries lie in order of insertion, so the evicted first entry is the earliest-inserted surviving key. |
| ExactCache.NewEntryOutlives999Puts | packages/gateway/src/cache/index.ts:60-81 | A newly inserted entry is served for its time to live through any 999 further puts under other keys and any reads. |
| ExactCache.RefreshKeepsOthersIff | packages/gateway/src/cache/index.ts:70-80 | A put under a present key keeps every other entry if and only if the map is not full or the key is the oldest; otherwise the size falls by one. |
| Cosine.CosineSimilarity | packages/gateway/src/embeddings/index.ts:69-83 | The accumulator loop computes dot / (root x root), 0 for a zero denominator, and fails on a length mismatch; every prefix of the accumulators satisfies dot^2 <= magA x magB. |
| Cosine.CauchySchwarz | packages/gateway/src/embeddings/index.ts:73-80 | dot^2 <= magA x magB for all real vectors. |
| Cosine.CosineInUnit | packages/gateway/src/embeddings/index.ts:69-83 | The result lies in [-1, 1]. |
| Cosine.CosineSymmetric | packages/gateway/src/embeddings/index.ts:69-83 | Argument order does not matter. |
| Cosine.CosineOfSelf | packages/gateway/src/embeddings/index.ts:69-83 | A vector of non-zero norm has similarity 1 with itself. |
| Cosine.NormZeroIff | packages/gateway/src/embeddings/index.ts:76-82 | The norm is zero exactly for the zero vector. |
| Cosine.DotOfJoin | packages/gateway/src/embeddings/index.ts:73-79 | The accumulators add up the products place by place, for joined vectors. |
| Cosine.CosineTimesLengths | packages/gateway/src/embeddings/index.ts:81-82 | The cosine times the two lengths is the dot product, and 0 where a length is. |
| SemanticCache.SemanticCache.constructor | packages/gateway/src/cache/semantic.ts:99-121 | Hydration gives each bucket the table's rows under its key, in table order. |
| SemanticCache.SemanticCache.Get | packages/gateway/src/cache/semantic.ts:130-170 | The scan returns what the best-match specification says, with its similarity. |
| SemanticCache.SemanticCache.Put | packages/gateway/src/cache/semantic.ts:177-236 | Pushes the row, shifts the oldest out of an overfull bucket, and sends its deletion before the insertion; nothing for ineligible requests. |
| SemanticCache.LookupIsBest | packages/gateway/src/cache/semantic.ts:136-155 | A lookup answers the earliest row of maximal similarity among rows of the same model, system prompt and dimension at or above the threshold, and nothing exactly when there is none or the request is ineligible or personal. |
| SemanticTenants.LookupInPlainTerms | packages/gateway/src/cache/semantic.ts:136-155 | The same with each part written out: one user message and none of the assistant's, not personal; a row of the same model, prompt hash and dimension whose cosine reaches the threshold, earliest of the greatest; an answer whenever there is such a row. |
| SemanticTenants.EligibleIff | packages/gateway/src/cache/semantic.ts:64-70 | A request is eligible exactly when one message is from the user and none from the assistant, and that message is the one embedded. |
| SemanticTenants.KeysAgreeIff | packages/gateway/src/cache/semantic.ts:42-44 | With no colon in tenants and providers two keys agree if and only if tenants (none reads "anon"), providers and models do; so no tenant shares a bucket with the tenant "anon" and with no other. |
| SemanticTenants.ColonsCanCollide | packages/gateway/src/cache/semantic.ts:42-44 | Two different tenants, one with colons in its name, under one key. |
| SemanticTenants.BucketHoldsLatest | packages/gateway/src/cache/semantic.ts:207-217 | Over any run of puts and landing writes a bucket is the latest 10,000 of the rows hydrated or put under its key, in order; or as many as were hydrated if more. |
| SemanticTenants.AnswersAreTheTenantsOwn | packages/gateway/src/cache/semantic.ts:130-236 | Over any run of puts and landing writes a lookup answers only with a table row, or the response of a put, of the same tenant, provider and model; for a put also of the same system prompt, and with a cosine of the two questions at the threshold. |
| SemanticCache.ReplayHits | packages/gateway/src/cache/semantic.ts:136-217 | A cached request with a non-zero embedding is found again at once with similarity 1. |
| SemanticCache.PutKeepsMirror | packages/gateway/src/cache/semantic.ts:206-235 | A put with a fresh id keeps memory equal, bucket by bucket and up to 32-bit rounding, to the table once outstanding writes land. |
| SemanticCache.RehydrationAgrees | packages/gateway/src/cache/semantic.ts:97-236 | Over any run of puts and landing writes from an in-sync start, buckets hold at most 10,000 rows, and with no write outstanding rehydrating gives the same buckets up to 32-bit rounding. |
| ToolCalls.ToolCallBuffer.BufferToolCallDeltas | packages/gateway/src/router.ts:91-102 | Patching records in place leaves the buffer at the fold of the deltas, other records untouched. |
| ToolCalls.EachIndexAlone | packages/gateway/src/router.ts:91-102 | A record exists exactly when its index had a delta and is the replay of that index's deltas alone. |
| ToolCalls.ChunkingIrrelevant | packages/gateway/src/router.ts:91-102 | Cutting a delta stream into chunks anywhere gives the same buffer. |
| ToolCalls.InterleavingIrrelevant | packages/gateway/src/router.ts:91-117 | Streams with the same per-index sequences give the same buffer and the same call list. |
| ToolCalls.RecordContents | packages/gateway/src/router.ts:94-99 | Arguments are the concatenation of the index's fragments; id and name are the last non-empty ones. |
| ToolCalls.CallsAreNamedRecords | packages/gateway/src/router.ts:104-116 | The calls are the records with a non-empty name, all of them in index order, with the streamed id or "call_" and the index, and the record's arguments. |
| ToolCalls.DigitsRead | packages/gateway/src/router.ts:109 | The index in an id made up for a call is its decimal numeral, without leading zeros. |
| ToolCalls.RebufferingReproducesCalls | packages/gateway/src/router.ts:104-128 | Sending the assembled calls out as deltas and buffering them again gives exactly the same calls. |
| Failover.Complete | packages/gateway/src/router.ts:1538-1573 | The completion loop follows the failover specification: first unskipped accepted attempt, calls made, errors in order, last failure, fallback flag. |
| Failover.Stream | packages/gateway/src/router.ts:1205-1528 | The streaming loop follows the same specification, an empty stream being passed over silently. |
| Failover.OutcomeIsUnique | packages/gateway/src/router.ts:1205-1573 | The specification fixes the outcome, so without empty streams the two loops agree. |
| Failover.NeverCalledAfterFailure | packages/gateway/src/router.ts:1565-1571 | No provider is called again after it throws. |
| Failover.CalledIff | packages/gateway/src/router.ts:1538-1571 | The attempts called are exactly those up to the chosen one whose provider is registered and threw on no earlier attempt; each once, in order. |
| Failover.FallbackAndLastError | packages/gateway/src/router.ts:1538-1581 | A fallback is reported if and only if the router had fallen back or a later attempt than the first is chosen; the last error is that of the last call that threw. |
| Failover.FirstAnswerIsClean | packages/gateway/src/router.ts:1538-1563 | A result from the first attempt comes with no errors and no other call, and a registered first provider that answers is used. |
| Failover.ErrorsMatchCalls | packages/gateway/src/router.ts:1552-1571 | Without empty streams the errors are exactly the calls that did not serve, in order. |
| Failover.FailsExactlyWhen | packages/gateway/src/router.ts:1552-1581 | The request fails if and only if every attempt is skipped, throws, is empty, or is a refusal before the last index. |
| Failover.RefusalCanBeLost | packages/gateway/src/router.ts:1552-1557 | A lone refusal followed by an unregistered provider is discarded. |
| RateLimiter.RateLimiter.CheckRateLimit | packages/gateway/src/auth/rate-limiter.ts:10-30 | Verdict and new counter for a token; other tokens' counters unchanged; null or 0 means no limit. |
| RateLimiter.TokensIndependent | packages/gateway/src/auth/rate-limiter.ts:7-30 | Over any mixed run a token's counter depends on its own calls alone. |
| RateLimiter.WindowAdmitsExactly | packages/gateway/src/auth/rate-limiter.ts:22-29 | A window with n calls counted admits exactly the next min(L - n, calls before its end). |
| RateLimiter.RemainingIsExact | packages/gateway/src/auth/rate-limiter.ts:16-29 | An admitted call is told exactly how many more of the calls to come its window admits, and when the window of 60,000 ms ends. |
| RateLimiter.AnyMinuteBound | packages/gateway/src/auth/rate-limiter.ts:10-30 | Over any run with a non-decreasing clock any half-open minute admits at most 2L - 1 calls. |
| RateLimiter.BoundIsReached | packages/gateway/src/auth/rate-limiter.ts:10-30 | For every L there is a run that admits exactly 2L - 1 in one minute. |
| RateLimiter.EveryMinuteWithinLimitIff | packages/gateway/src/auth/rate-limiter.ts:10-30 | Every minute of every ordered run admits at most L calls if and only if L is 1. |
| RateLimiter.MixedAsAlone | packages/gateway/src/auth/rate-limiter.ts:7-30 | In a mixed run a token with a fixed limit has the same admissions and counter as its own calls alone. |
| RateLimiter.AnyMinuteBoundOfToken | packages/gateway/src/auth/rate-limiter.ts:7-30 | The 2L - 1 bound for each token of any mixed run. |
| RateLimiter.ResetIsExact | packages/gateway/src/auth/rate-limiter.ts:22-25 | After a denial a next call is admitted if and only if it comes at or after resetMs. |
| Sentences.SplitSentences | packages/gateway/src/context/optimizer.ts:673-689 | The loop keeps the trimmed pieces of at least 12 characters, up to 64. |
| SentenceFacts.SplitInPlainTerms | packages/gateway/src/context/optimizer.ts:673-689 | A text falls into pieces that keep all its letters in order and run to their stops; its sentences are the first 64 of the pieces that have 12 characters or more once trimmed. |
| Sentences.ResplitSelection | packages/gateway/src/context/optimizer.ts:673-726 | Splitting the space-joined text of any in-order selection of a text's sentences gives back exactly those sentences. |
| Sentences.SplitLength | packages/gateway/src/context/optimizer.ts:673-689 | A text's sentences together are no longer than the text. |
| Similarity.SemanticSimilarity | packages/gateway/src/context/optimizer.ts:153-164 | The counting loop gives the rounded larger of Jaccard and overlap, 0 below three shared tokens. |
| Similarity.OverlapDecides | packages/gateway/src/context/optimizer.ts:160-163 | Overlap is never below Jaccard, so the score is always the overlap coefficient. |
| Similarity.ScoreSymmetric | packages/gateway/src/context/optimizer.ts:153-164 | Similarity does not depend on argument order. |
| Similarity.ScoreInUnit | packages/gateway/src/context/optimizer.ts:153-164 | A similarity lies in [0, 1]. |
| Similarity.ContainedScoresOne | packages/gateway/src/context/optimizer.ts:153-164 | A token set of three or more contained in another scores exactly 1. |
| BestMatch.ScanFindsBest | packages/gateway/src/context/optimizer.ts:814-822 | Keeping strictly better candidates finds the earliest eligible one of greatest similarity, and none exactly when there is none. |
| Dedupe.DedupeChunks | packages/gateway/src/context/optimizer.ts:795-851 | The loop over shared, mutated chunk objects computes the dedupe specification: kept list, source lists, drops and input tokens. |
| Dedupe.EstimateIsLeast | packages/gateway/src/context/optimizer.ts:109-111 | A text's token estimate is the least n with 4n at least its length. |
| DedupeProofs.SourcesPartitionInput | packages/gateway/src/context/optimizer.ts:795-851 | With distinct ids the source lists partition the input ids, each kept chunk heads its own list, and every drop is filed under the chunk it names. |
| DedupeProofs.TokensConserved | packages/gateway/src/context/optimizer.ts:795-851 | Input tokens are the kept chunks' tokens plus the dropped ones'. |
| DedupeProofs.KeptChunksAreDissimilar | packages/gateway/src/context/optimizer.ts:812-850 | In semantic mode no two kept chunks reach the threshold in either order, nor share an exact key. |
| DedupeProofs.EachChunkDecided | packages/gateway/src/context/optimizer.ts:799-850 | Each next chunk joins its exact duplicate, else the earliest most similar chunk then kept, else is kept itself. |
| DedupeProofs.KeptIff | packages/gateway/src/context/optimizer.ts:799-850 | A chunk is kept if and only if no chunk kept before it has its exact key and, in semantic mode, none reaches the threshold against it. |
| DedupeProofs.DropsRecorded | packages/gateway/src/context/optimizer.ts:801-833 | Each dropped chunk names a kept chunk with its exact key, or one whose recorded similarity to it is at least the threshold, and its own token estimate. |
| Ranking.RankedFacts | packages/gateway/src/context/optimizer.ts:199-204 | Ranking is a permutation, best score first, ties in original order. |
| Ranking.RankingIsUnique | packages/gateway/src/context/optimizer.ts:199-204 | No other arrangement satisfies that order, so any sort gives this one. |
| Ranking.NothingRerankedIffSorted | packages/gateway/src/context/optimizer.ts:206-210 | rerankedChunks is 0 exactly when scores already fell. |
| Ranking.TopKFacts | packages/gateway/src/context/optimizer.ts:719-726 | The kept indices rise, number k, and outrank every dropped one. |
| Compression.ApplyExtractiveCompression | packages/gateway/src/context/optimizer.ts:742-774 | Every chunk is compressed, the counts match, and the saving and its rate are those of the exact token difference; its floor at 0 never acts. |
| Compression.CompressionAlwaysShrinks | packages/gateway/src/context/optimizer.ts:711-740 | A chunk with more sentences than the limit always becomes strictly cheaper, so the guard against growth never fires; any other chunk is unchanged. |
| Compression.CompressionIsIdempotent | packages/gateway/src/context/optimizer.ts:711-740 | Compressing again with the same or a larger limit and any query changes nothing. |
| Compression.KeepsBestSentences | packages/gateway/src/context/optimizer.ts:719-728 | The kept sentences are an in-order top-k by (score, index), and split out of the result again. |
| CompressionScores.OutranksIff | packages/gateway/src/context/optimizer.ts:691-709 | With a query, one sentence outranks another if and only if it matches better, the chunk's first with 0.03 to its credit, or as well and comes earlier. |
| CompressionScores.MatchScoreIs | packages/gateway/src/context/optimizer.ts:700-709 | The match is four fifths the share of the query and one fifth the share of the sentence. |
| CompressionScores.MatchScoreExtremes | packages/gateway/src/context/optimizer.ts:700-709 | It is 0 exactly when nothing is shared and 1 exactly when the sentence's tokens are the query. |
| CompressionScores.MoreMatchesNeverLower | packages/gateway/src/context/optimizer.ts:700-709 | Of two sentences with equally many tokens the one sharing more never scores lower. |
| Compression.ExtractLength | packages/gateway/src/context/optimizer.ts:728-730 | An extract is shorter than the text by 12 characters per dropped sentence less the joining spaces. |
| Compression.ChunkFlagsNeverMatter | packages/gateway/src/context/optimizer.ts:691-709 | Relevance, staleness and conflict weigh on all sentences of a chunk alike and never change which are kept. |
| Compression.NoQueryKeepsTheLead | packages/gateway/src/context/optimizer.ts:705-709 | Without query tokens the leading sentences are kept. |
| CompressionDuplicates.CompressedEqualIff | packages/gateway/src/context/optimizer.ts:711-740 | Two chunks are compressed to equal text if and only if both are long and keep the same sentences, or one is short and is just the sentences the other keeps, or both are short and equal. |
| CompressionDuplicates.ResultPairNearIff | packages/gateway/src/context/optimizer.ts:812-934 | In semantic mode two chunks of the compressed result reach the threshold if and only if the tokens of their chosen sentences (of all, for a short chunk) share three or more with enough overlap; and only if one of them was long. |
| CompressionDuplicates.TokenSetObeysLaw | packages/gateway/src/context/optimizer.ts:125-142 | The source's token sets obey the law used there: the tokens of joined sentences are those of the sentences. |
| CompressionDuplicates.CompressionCanMakeDuplicates | packages/gateway/src/context/optimizer.ts:776-934 | Two chunks of similarity below 0.5, both kept by deduplication, leave the pipeline with the same text, similarity 1. |
| Conflicts.SharedTopicTokens | packages/gateway/src/context/optimizer.ts:501-513 | The loop collects the first five shared topics in the left chunk's order. |
| Conflicts.ConflictIff | packages/gateway/src/context/optimizer.ts:537-602 | Two chunks conflict exactly when they share a topic and disagree by status metadata, opposed terms or numeric claims. |
| ConflictFacts.FoundIs | packages/gateway/src/context/optimizer.ts:537-602 | A conflict in full: enough common topics or one key; the left chunk's words quoted on the left and the right one's on the right, statuses first, then the first opposed pair of words, then the first claims that differ; its score by kind, and its severity cut at 0.85 and 0.65. |
| ConflictFacts.TopicsCompared | packages/gateway/src/context/optimizer.ts:501-513 | The topics compared are the left ones under one key, otherwise the common ones in the left order; at most the first five. |
| Conflicts.ConflictIsSymmetric | packages/gateway/src/context/optimizer.ts:537-602 | Existence and kind do not depend on argument order, nor does the score unless numeric. |
| ConflictOrder.SamePairIff | packages/gateway/src/context/optimizer.ts:582-584 | Both orders measure the same pair of claims if and only if the left claim found one way clashes with the right claim found the other way. |
| ConflictOrder.NumericSeverity | packages/gateway/src/context/optimizer.ts:515-535 | The severity of a numeric score from relative delta, key and counted topics, rounding resolved. |
| ConflictOrder.NumericOrderIff | packages/gateway/src/context/optimizer.ts:501-599 | For any table and mode: the score of a numeric conflict is the same both ways if and only if rounded gain and counted topics balance, the severity if and only if both orders fall on the same side of each cut; with the same pair measured, the score agrees exactly without a shared key or with equally many topic tokens, capped at four. |
| ConflictOrder.FirstClashDependsOnOrder | packages/gateway/src/context/optimizer.ts:582-599 | "refund: 10 days, 11 days" against "refund: 10 days, 50 days": a different clash comes first, high one way, low the other. |
| ConflictOrder.CountedTopicsDependOnOrder | packages/gateway/src/context/optimizer.ts:501-504 | Two chunks under one key with the same clash both ways: medium one way, high the other. |
| Conflicts.ScoreRange | packages/gateway/src/context/optimizer.ts:515-602 | Metadata conflicts are high, status conflicts high under a shared key and medium otherwise, numeric scores lie in [0.55, 1]. |
| Tokens.TermsInEdNeedASecondSuffix | packages/gateway/src/context/optimizer.ts:125-130 | A term ending in -ed results from normalising exactly the three words that add another suffix to it. |
| Tokens.UnchangedIff | packages/gateway/src/context/optimizer.ts:125-130 | A word is its own normal form if and only if none of the three suffix guards holds. |
| Tokens.TokensOfJoin | packages/gateway/src/context/optimizer.ts:132-142 | The token set of space-joined texts is the union of theirs, however letters are lowered. |
| TokenFacts.TokenIff | packages/gateway/src/context/optimizer.ts:132-142 | A text's tokens are the normal forms, of two characters or more and no stop word, of the maximal runs of a to z and 0 to 9 in the lower-cased text. |
| Conflicts.TermsFoundBySpellingIff | packages/gateway/src/context/optimizer.ts:393-402 | Each term of the status table is its own normal form if and only if it does not end in -ed. |
| Conflicts.TermsEndingInEd | packages/gateway/src/context/optimizer.ts:393-402 | Exactly which terms of the table end in -ed. |
| ConflictDetection.ApplyConflictDetection | packages/gateway/src/context/optimizer.ts:604-665 | The nested loops report the conflicts of the first min(20000, n(n-1)/2) pairs in order and mark the chunks accordingly. |
| ConflictDetection.AllCheckedIff | packages/gateway/src/context/optimizer.ts:616-621 | Every pair is compared if and only if there are at most 200 chunks. |
| ConflictDetection.CheckedSize | packages/gateway/src/context/optimizer.ts:616-621 | The pairs compared are the first 20,000, row by row, or all n(n-1)/2. |
| ConflictDetection.RecordNames | packages/gateway/src/context/optimizer.ts:624-636 | A record names the two chunks, repeats what was found between them and lists the sources of both once each. |
| ConflictDetection.EachConflictReportedOnce | packages/gateway/src/context/optimizer.ts:612-640 | With distinct ids and at most 200 chunks each conflicting pair is reported exactly once and no other pair is. |
| ConflictDetection.UniqueFacts | packages/gateway/src/context/optimizer.ts:629 | A conflict's merged source ids hold the same ids once each, and the plain concatenation when the two lists share none. |
| ConflictDetection.MarksAreExact | packages/gateway/src/context/optimizer.ts:648-661 | A chunk's conflict ids are the rising numbers of exactly the conflicts naming it, and its severity the greatest of theirs. |
| ConflictDetection.ConflictChunksCountsFlags | packages/gateway/src/context/optimizer.ts:637-664 | conflictChunks is the number of chunks flagged. |
| Optimizer.OptimizeContextChunks | packages/gateway/src/context/optimizer.ts:776-903 | The pipeline computes the composition of its stages with the ranking, freshness, conflict, token and compression metrics. |
| Optimizer.NothingIsLost | packages/gateway/src/context/optimizer.ts:776-934 | With distinct ids every input id is, once, under exactly one chunk of the final result, whatever stages are on. |
| Optimizer.SavingsAddUp | packages/gateway/src/context/optimizer.ts:862-932 | savedTokens is the dropped tokens plus the compression savings, and no floor at 0 ever acts. |
| Optimizer.CountsAddUp | packages/gateway/src/context/optimizer.ts:862-903 | Input chunks are output chunks plus drops, nearDuplicates counts the near-duplicate drops, and the reduction is the saved share of the tokens in per cent, to two places. |
| Optimizer.LowRelevanceIs | packages/gateway/src/context/optimizer.ts:783-855 | lowRelevanceChunks is the number of scores below the minimum asked for, held between 0 and 1. |
| Optimizer.SentenceLimitIs | packages/gateway/src/context/optimizer.ts:788 | Three sentences by default, otherwise the whole part of the number asked between 1 and 8. |
| Optimizer.ResultHasNoNearDuplicates | packages/gateway/src/context/optimizer.ts:812-861 | Ranking, freshness and conflict detection keep the result free of near duplicates; stated of the result before compression. |
| Optimizer.RequestedThresholdHolds | packages/gateway/src/context/optimizer.ts:781-851 | With the requested threshold itself, held between 0.5 and 1: no two chunks of the result before compression reach it, and each near-duplicate drop records a similarity that does. |
| Optimizer.SecondKeptIff | packages/gateway/src/context/optimizer.ts:781-850 | Of two chunks with different keys the second is kept if and only if their score is below the requested threshold, for thresholds from 0.5 to 1. |
| Optimizer.CompressionActsExactlyWhenLong | packages/gateway/src/context/optimizer.ts:905-914 | A result chunk is cheaper than before compression exactly when it had more sentences than the limit. |
| Optimizer.RecompressingSavesNothing | packages/gateway/src/context/optimizer.ts:905-934 | Compressing a compressed result again changes no chunk and saves nothing. |
| Optimizer.ConflictsRunOnDistinctChunks | packages/gateway/src/context/optimizer.ts:853-861 | With distinct input ids the conflict results above hold of every optimization. |
| Relevance.ApplyRanking | packages/gateway/src/context/optimizer.ts:219-256 | Ranked list, average score, low-relevance and displaced counts. |
| Relevance.ApplyLexicalRanking | packages/gateway/src/context/optimizer.ts:179-217 | The same from lexical scores, nothing without query tokens or chunks. |
| Relevance.LexicalInUnit | packages/gateway/src/context/optimizer.ts:166-177 | A lexical relevance score lies in [0, 1]. |
| Relevance.LexicalIsCoverageAndDensity | packages/gateway/src/context/optimizer.ts:174-176 | Four times the score is three times the share of the query plus the share of the chunk, counted against at most four query lengths, to four places. |
| Relevance.LexicalExtremes | packages/gateway/src/context/optimizer.ts:166-177 | For queries of up to 32 tokens: 0 exactly when no query token occurs, 1 exactly when the tokens are the query. |
| Relevance.MoreSharedNeverLower | packages/gateway/src/context/optimizer.ts:174-176 | Among chunks with equally many tokens, sharing more query tokens never scores lower. |
| Relevance.RankStageByRelevance | packages/gateway/src/context/optimizer.ts:179-217 | In the ranked list scores fall, and of two chunks with equally many tokens the one sharing strictly more is never placed after the other unless their scores tie. |
| Relevance.MetricsAre | packages/gateway/src/context/optimizer.ts:206-216 | The average of the scores to four places, the number below the minimum and the number of places with another chunk than before. |
| Relevance.SumOfJoin | packages/gateway/src/context/optimizer.ts:189-193 | The running score total adds up score by score. |
| Relevance.DisplacedOfJoin | packages/gateway/src/context/optimizer.ts:206-210 | Displaced chunks are counted place by place: one wherever the index is not the place. |
| Relevance.EmbeddingScoreUnclipped | packages/gateway/src/context/optimizer.ts:230-235 | The upper bound of 1 on embedding scores never acts. |
| Freshness.ApplyFreshness | packages/gateway/src/context/optimizer.ts:365-392 | Scores and stale flags of every dated chunk, their average and the stale count. |
| Freshness.FreshnessRange | packages/gateway/src/context/optimizer.ts:338-363 | Freshness lies in [0, 1] and a stale chunk has none. |
| Freshness.FreshnessIs | packages/gateway/src/context/optimizer.ts:338-363 | Past its expiry a chunk is stale with freshness 0; without an update time it is unscored; otherwise it is stale exactly when older than the age allowed (1 to 3650 days of 86,400,000 ms), freshness falling evenly from 1 to 0 over that age. |
| Freshness.FreshMetricsAre | packages/gateway/src/context/optimizer.ts:374-390 | The average is over the dated chunks and the stale count is of those stale among them. |
| Calendar.InOwnPeriodIff | packages/gateway/src/billing/trajectory.ts:60-70 | A time lies in its own month and quarter if and only if its year is not one of 0 to 99. |
| Calendar.PeriodsTile | packages/gateway/src/billing/budget-alerts.ts:55-67 | Every time in a period has that same period. |
| Calendar.PriorIsPeriodBefore | packages/gateway/src/billing/trajectory.ts:72-82 | The prior period is the period of the instant before, across year ends and leap years, if and only if that instant's year is not one of 0 to 99. |
| Calendar.QuarterIsThreeMonths | packages/gateway/src/billing/trajectory.ts:66-69 | A quarter is its three months, each ending where the next begins. |
| Calendar.MonthsHaveTheirLengths | packages/gateway/src/billing/trajectory.ts:60-70 | The calendar behind Date.UTC: day 0 is the first of 1970, and months have their Gregorian lengths. |
| Calendar.PeriodInMonths | packages/gateway/src/billing/trajectory.ts:60-70 | A period runs from the first of its month, or of the quarter's first month, to the first of the month after its last; outside the years 0 to 99. |
| Calendar.EndIsAhead | packages/gateway/src/billing/budget-alerts.ts:114 | The `end < now` alternative is unreachable. |
| Trajectory.ComputeTrajectory | packages/gateway/src/billing/trajectory.ts:93-139 | The result is the specified sums, projection and anomaly flag. |
| Trajectory.SumInRange | packages/gateway/src/billing/trajectory.ts:84-91 | The loop sums the costs dated in [start, end). |
| Trajectory.ElapsedWithinTotal | packages/gateway/src/billing/trajectory.ts:102-106 | 1 <= elapsed <= total days, total 28 to 31 or 90 to 92, equal exactly on the last day. |
| Trajectory.ElapsedCountsDays | packages/gateway/src/billing/trajectory.ts:102-106 | Elapsed days are the days of the period begun, today among them; the start of a day is its midnight. |
| Trajectory.ReportedFigures | packages/gateway/src/billing/trajectory.ts:93-139 | Month-to-date plus the rest of the period is the whole period; the projection is the month-to-date at its rate over all days; the prior total is the spend of the whole period before. |
| Trajectory.ProjectionAtLeastSpent | packages/gateway/src/billing/trajectory.ts:100-107 | With non-negative costs the projection is at least what is spent, equal exactly on the last day or with nothing spent. |
| Trajectory.QuarterIsSumOfMonths | packages/gateway/src/billing/trajectory.ts:60-91 | A quarter's spend is the sum of its months'. |
| Trajectory.FlaggedIff | packages/gateway/src/billing/trajectory.ts:111-125 | The anomaly fires if and only if the four weeks before the last have spend and the last week more than half of it. |
| BudgetAlerts.BudgetAlerts.VisitBudget | packages/gateway/src/billing/budget-alerts.ts:101-159 | One budget: emails sent, then the row updated if due, or left as it was when the update throws. |
| BudgetAlerts.BudgetAlerts.RunBudgetAlertsCycle | packages/gateway/src/billing/budget-alerts.ts:91-161 | Every row, every email attempted in order and the statistics after a cycle, also one that ends at a failing update. |
| BudgetAlerts.BudgetAlerts.CheckBudgetHardStop | packages/gateway/src/billing/budget-alerts.ts:169-187 | Blocks exactly a tenant whose hard-stop budget's period spend has reached the cap. |
| BudgetSpend.SpendIsOwn | packages/gateway/src/billing/budget-alerts.ts:69-82 | The spend summed is that of the tenant's own rows, filtered on their own. |
| BudgetSpend.OneMoreRow | packages/gateway/src/billing/budget-alerts.ts:69-82 | One more row anywhere in the log adds its cost exactly when it is the tenant's own and dated in the range. |
| BudgetSpend.OnlyOwnRowsCount | packages/gateway/src/billing/budget-alerts.ts:69-185 | A row of another tenant, or dated outside the period so far, changes neither the hard-stop verdict nor what fires; one of the tenant's own inside raises the spend by its cost. |
| BudgetSpend.FiredIff | packages/gateway/src/billing/budget-alerts.ts:105-118 | A threshold fires if and only if the tenant's own spend has reached that percentage of a positive cap and it was not yet alerted this period. |
| BudgetSpend.EveryoneIsTold | packages/gateway/src/billing/budget-alerts.ts:120-143 | Every recipient is sent every fired threshold, thresholds first, under the budget's own tenant. |
| BudgetSpend.AllDeliveredIff | packages/gateway/src/billing/budget-alerts.ts:133-141 | alertsFired is the number of emails exactly when none of them failed, and never more. |
| BudgetAlerts.CrossedFacts | packages/gateway/src/billing/budget-alerts.ts:84-89 | Exactly the thresholds reached and not yet alerted, ascending. |
| BudgetAlerts.FiresAtMostOncePerPeriod | packages/gateway/src/billing/budget-alerts.ts:107-158 | With a non-decreasing clock, a threshold fired in a cycle that completes fires in no later cycle of the period, whatever other cycles die; ascending order within a cycle. |
| BudgetAlerts.FiresAgainIff | packages/gateway/src/billing/budget-alerts.ts:121-158 | A later cycle of the period fires a threshold again if and only if every cycle from the one that fired it up to then died before its row update. |
| BudgetAlerts.AlertedIsExact | packages/gateway/src/billing/budget-alerts.ts:107-158 | With append-only non-negative costs the alerted thresholds after every completed cycle are exactly those at or below the current percentage. |
| Drift.ComputeDriftEvents | packages/gateway/src/billing/drift.ts:51-125 | The loop reports the specified events with their rounded deltas, windows, window length in days and mixes. |
| Drift.SelectedIff | packages/gateway/src/billing/drift.ts:64-79 | The snapshots read are those from sixty days before `from` up to `to`. |
| Drift.EventIff | packages/gateway/src/billing/drift.ts:83-104 | A snapshot is reported if and only if it moved some weight by more than 0.01, lies between `from` and now, and no noticeable change follows at the same instant. |
| Drift.WindowEndIsEarliest | packages/gateway/src/billing/drift.ts:89-101 | A window closes at the earliest of its full length, now and the next change of more than 0.01. |
| Drift.ReportedEvent | packages/gateway/src/billing/drift.ts:106-121 | An event reports the weights before and after, each change from the one to the other to four places, and its window's days and mix. |
| Drift.EachEventInPlace | packages/gateway/src/billing/drift.ts:81-124 | Each reported snapshot has its event, after those of earlier ones, and there are no others. |
| Drift.ProviderSpendMix | packages/gateway/src/billing/drift.ts:127-157 | Rows, shares and order of the mix. |
| Drift.MixRowsAreOwn | packages/gateway/src/billing/drift.ts:133-156 | Each row carries its own provider's spend of the window and that spend's percentage of the whole, to four places. |
| Drift.MixAccountsForWindow | packages/gateway/src/billing/drift.ts:127-157 | A mix names each provider once, largest first, and its amounts sum to the window's spend. |
| Drift.WindowBounds | packages/gateway/src/billing/drift.ts:87-104 | A window is not empty, not longer than asked and not in the future. |
| Drift.OverlapIff | packages/gateway/src/billing/drift.ts:89-103 | Two events' windows overlap if and only if the later falls within the window length and no snapshot up to it differs from the earlier event's. |
| Drift.WindowsAreDisjoint | packages/gateway/src/billing/drift.ts:83-104 | When consecutive weights are equal or differ beyond epsilon, windows of different events never overlap. |
| Drift.SmallDriftsOverlap | packages/gateway/src/billing/drift.ts:90-103 | A history of small drifts whose windows do overlap. |
| Drift.SpendNeverCountedTwice | packages/gateway/src/billing/drift.ts:83-122 | Under that condition all mixes together never exceed the spend between `from` and `now`. |

## Left out

- Floating point: amounts, scores and similarities are reals, with `toFixed` and `Math.round` as exact rounding.
- Characters: a Dafny character is a Unicode scalar value, so a string stands for the UTF-16 code units of text within the basic plane; lengths, hashes and key order of text with surrogate pairs are not modelled. Canonical printing is modelled for JSON values, not for `undefined`, functions or lone surrogates.
- The exact-dedupe normaliser, the reading of dates and conflict signals out of metadata, personal-signal patterns and the system-prompt hash are parameters; so is the token set, whatever it is, except that near duplicates after compression need TokenSetObeysLaw. Lower-casing is a parameter that maps characters one by one.
- Defaults of the optimizer's other options (threshold, minimum relevance, age and modes) are supplied by the caller; only that of `maxSentencesPerChunk` is modelled. The list of stop words and the table of opposed status words are copied as data.
- Drift takes the cost rows and weight snapshots of one tenant; the tenant filter of its two queries is not part of this model. What the hard-stop check returns beside the verdict and the spend (cap and period) is the budget row's own.
- SemanticTenants.AnswersAreTheTenantsOwn: stated for tenants and providers without a colon, the exact condition being KeysAgreeIff; what other names share is not characterised further.
- A `maxSentencesPerChunk` of NaN and a semantic-cache threshold of NaN.
- Chunk fields that are only carried along (`source`, `metadata`, `originalTokens`), and the flagged and quarantined lists, which this code leaves empty.
- `hashKey` is not injective and nothing here rests on it: the cache results are per hash key. How the key text is joined from its parts is not modelled.
- Stripe's own processing beyond first write wins per identifier, webhooks that change subscriptions (any change is allowed), and the order in which a cycle reads subscriptions.
- MeteringExactness.FinalizedBillIsExact: assumes a fixed tier and no current-period pass after period end; without them the mark of a closed row is given by MeteringExactness.ClosedAtOverageIff.
- BudgetAlerts.AlertedIsExact: stated for a row that starts with nothing alerted, as both the insert and the update of a budget write it; edits of a budget between cycles are not part of a run.
- Dates outside the range of a JavaScript Date (100 million days either side of 1970), where Date.UTC gives NaN.
- The `createdAt < end` comparisons written as raw SQL with a Date (drift.ts:143, budget-alerts.ts:77) are modelled as the intended comparison of times; how the driver binds a Date against a column of seconds is not part of this model, while usage.ts:86 divides by 1000 itself. The results that rest on it are Drift.MixAccountsForWindow, Drift.SpendNeverCountedTwice, Drift.ProviderSpendMix, BudgetAlerts.AlertedIsExact, BudgetAlerts.FiresAgainIff, BudgetAlerts.BudgetAlerts.RunBudgetAlertsCycle and BudgetAlerts.BudgetAlerts.CheckBudgetHardStop.
- SemanticCache.RehydrationAgrees: writes that fail or land out of order are not covered, the mirror then differs from the table; hit counts are not modelled.
- Optimizer.ResultHasNoNearDuplicates: says nothing of compressed chunks; when those are near duplicates is CompressionDuplicates.ResultPairNearIff.
- BudgetAlerts.BudgetAlerts.RunBudgetAlertsCycle: the failures modelled are refused emails and a row update that throws; a process that dies between two emails has sent only the first of that cycle's emails and left the row as in FiresAgainIff.
- Drift: the database's sorting and grouping are taken as given; rows of equal spend keep the order of first appearance.
- The pinned single-attempt streaming path, timeouts, server-sent events and headers of the router.
- Web and docs applications, classifiers, adaptive routing, A/B tests, seats, guardrails, encryption and authentication: they would add only short branch facts.
