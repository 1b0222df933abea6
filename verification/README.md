# Formal model of the research orchestration

A Dafny model of the parts of a local research server that budget, merge, select, trim and store:
the protocols and loops between a research query and the answer package. Each component is given
three times: as a pure function or a relation that says what is computed, as imperative code in the
shape of the original (classes with mutable fields, loops, in-place updates) that is proved to
compute it, and as lemmas about the function that hold for all inputs, all runs or all reachable
states.

| files | component |
|---|---|
| SingleFlight | coalescing of concurrent requests: registry, waiter counts, shielded tasks, cancellation by the last waiter |
| CircuitBreaker, HttpFetcher, BreakerHistory | per-domain circuit breaker under concurrent fetches; retry and redirect loops |
| Storage, Retention | tables behind a write gate, retention sweep, cache with hit and miss counters |
| TextSpans, ParagraphProperties, Chunker, ChunkerProperties | offset-exact chunking of a page into passages |
| Clipping, ClippedWords, RelevantClipping, WindowChoice | shortening text to a limit, plainly or around the terms of a query |
| Payload, Fitting, FittingOrder, FittingProperties, FittingSteps, FittingTexts, FittingLoop, Json, JsonReading, TwoPassFit, CompactedTexts | fitting a response into its character budget, twice, with counters that count themselves |
| ReadFitting, ReadResponse, ReadTexts, ReadBudget, ReadInstances | the same for the response to reading one page, and exactly which budgets it can miss |
| JsonLengths, ResponseChars, EarlyTrimming, PackageForms, MissedBudget, SpareResponses, SpareLengths, ShortResponses, SuppliedPlans, BudgetInstances | printed lengths part by part, what the server supplies, and exactly which budgets a research response can miss |
| Ledger, LedgerProperties, LedgerRanking, LedgerLoop | diversity-constrained greedy selection of evidence |
| Candidates, FetchCandidates, CandidateChoices, FetchLoop | which search results to fetch |
| Retrieval, RetrievalProperties, AttemptOutcomes, FacetRetrieval, RetrievalExits, RetrievalLoop | batched fetching under an attempt cap |
| SearchBudget, SearchRounds, SearchLoop | the number of searches of one request |
| Merging, PreparedResults, ResultObjects, Snippets | interleaving, deduplication, sorting and citation of search results, with copies where the original copies |
| Maxima, TermCoverage, Wrappers | first maxima, term coverage, an option type and picking in order |

To verify the project: `dafny verify dfyconfig.toml`.

What a component cannot decide for itself is a parameter, and every statement holds for all its
values: replies of the network, outcomes and deadlines of fetches, what searches find, tokenisers,
case folding, scores and similarity, redaction, host names, and which results are admitted. Scores
are real numbers. Times are integers read from a clock that does not run backwards. The order of
keys in the printed response differs from the original in one place (`text_compacted` and the flag
come before the counters), which does not change its length.

## Where the code differs from what it seems to promise

- A retry is sent without asking the circuit breaker again. With retries and at least two concurrent
  fetches per domain, which are the defaults, a retry can go out while the circuit is open
  (`CircuitBreaker.BreakerCoversRetriesIffSafe` gives the exact condition).
- The compact response can exceed its budget without the flag, because the counters are rewritten
  after the second fit. Among the budgets the server permits (4000 to 50000) and the numbers of
  evidence records it selects (at most 25), that can happen exactly for the budgets 10000 to 10025,
  where the size gains its fifth digit while it is written (10000 is the default of the deep mode),
  and with 12 or 13 records, from a budget of 6000 on also with 14 or 15, where the number of omitted
  records becomes 10 when the last one goes (`BudgetInstances.BudgetCanBeMissedIff`). The responses
  that exceed their budget have the form in which the server supplies them (`PackageForms.Supplied`:
  numbered ids and citations, two records per page at most, the six source types, ten exact snippets
  at most, URLs of at most 4096 characters, the coverage report that goes with the evidence, the
  warning that is always there). The other direction does not need that form
  (`MissedBudget.UnflaggedIsWithinTheBudget`). The number of omitted snippets never matters.
- The response to reading one page can exceed its budget in the same way, exactly for the budgets 10000
  to 10025 and for pages with 13 to 17 safe passages (`ReadInstances.PageBudgetCanBeMissedIff`).
- The window around a query term can exceed limits below three (`RelevantClipping.WindowFitsIff`).
- A sweep that falls between the two transactions of a request, at or past the expiry of its records,
  leaves index rows without records (`Retention.RecordingIsOrphanFreeIff`,
  `LateSweepLeavesAnOrphan`). The next sweep removes them.
- Expanded snippets are kept apart from exact ones by comparing unredacted with redacted URLs. No URL
  is ever shown for both exactly when redaction changes no URL at all
  (`Snippets.NothingIsShownTwiceIff`); for one request it is enough that it changes none of the
  expanded results' URLs (`Snippets.UnredactedIsShownOnce`).
- Two candidates of one key in one batch are both fetched, and only then is a key fetched twice
  (`RetrievalProperties.BatchRepeatsIffItHoldsAKeyTwice`); that cannot happen with the candidates the
  selection supplies (`FetchLoop.SelectedCandidatesAreAttemptedOnce`).
- The cap of two passages per source holds for all inputs, not only for non-negative scores: when the
  best score is negative the relative floor removes every candidate
  (`LedgerProperties.FloorLeavesNoNegative`).
- A response for several facets always spends its whole attempt cap unless the deadline stops it, even
  when every facet is answered early (`RetrievalExits.RetrievalStopsForAReason`).

## Model

| member | source | states |
|---|---|---|
| SingleFlight.StepKeepsInv | app/orchestration/pipeline.py:1260-1280 | Every atomic step between two awaits (a call, a task settling, a caller resuming or being interrupted, a drain ending) keeps the protocol invariant |
| SingleFlight.JoinKeepsInv | app/orchestration/pipeline.py:1260-1268 | Finding or starting a flight and counting the caller in keeps the invariant |
| SingleFlight.LeaveKeepsInv | app/orchestration/pipeline.py:1270-1280 | The `finally` block up to its await keeps the invariant, for a normal return and for a cancellation |
| SingleFlight.SettleKeepsInv | app/orchestration/pipeline.py:1266-1273 | A task settling keeps the invariant |
| SingleFlight.DrainKeepsInv | app/orchestration/pipeline.py:1276-1280 | A last leaver that is interrupted while it drains, or finishes draining, keeps the invariant |
| SingleFlight.RunKeepsInv | app/orchestration/pipeline.py:1260-1280 | The invariant holds in every reachable state |
| SingleFlight.EveryEnabledEventContinues | app/orchestration/pipeline.py:1260-1280 | Whatever is enabled after a run continues it: the runs leave out nothing that can happen |
| SingleFlight.RegistryIsExactlyTheAwaited | app/orchestration/pipeline.py:1260-1280 | In every reachable state `waiters` is the number of callers awaiting the flight, a flight is registered iff somebody awaits it, and with no caller waiting the registry is empty |
| SingleFlight.OneLiveTaskPerKey | app/orchestration/pipeline.py:1260-1268 | In every reachable state at most one running task per key has not been asked to cancel |
| SingleFlight.StepKeepsHistory | app/orchestration/pipeline.py:1260-1280 | No step changes the key or the outcome of an existing flight, revives an abandoned one, or takes back a cancellation request |
| SingleFlight.HistoryIsStable | app/orchestration/pipeline.py:1260-1280 | Along every run a flight nobody awaits is never joined again and an outcome, once there, never changes |
| SingleFlight.CancelledFlightsAreAbandoned | app/orchestration/pipeline.py:1274-1280 | Once the protocol has asked a task to cancel, no caller awaits its flight then or later and it stays unregistered |
| SingleFlight.CallersShareOneOutcome | app/orchestration/pipeline.py:1269-1273 | Two callers of one flight that return normally, at whatever times, return the same value |
| SingleFlight.ResumingTakesTheOutcome | app/orchestration/pipeline.py:1269-1273 | In every run a caller that resumes leaves with exactly the outcome its flight has |
| SingleFlight.LeavingWithTheOutcome | app/orchestration/pipeline.py:1269-1280 | A caller that was never interrupted has the outcome of its flight from the moment it leaves it, through any draining |
| SingleFlight.UninterruptedCallersGetTheOutcome | app/orchestration/pipeline.py:1266-1273 | What a task settles with is what every caller of it that was never interrupted returns |
| SingleFlight.InterruptedCallersAreCancelled | app/orchestration/pipeline.py:1269-1280 | A caller that was interrupted ends as cancelled, whatever its task does |
| SingleFlight.EmptyingCallerDrains | app/orchestration/pipeline.py:1274-1280 | The caller whose departure leaves nobody waiting drains before it returns |
| SingleFlight.OthersKeepTheTask | app/orchestration/pipeline.py:1274-1280 | A caller that leaves others waiting returns at once, and the task they wait for is not asked to cancel |
| SingleFlight.LastLeaverWaitsForTheTask | app/orchestration/pipeline.py:1274-1280 | The caller that empties a flight returns only after its task has settled |
| SingleFlight.QuiescentMeansNothingRuns | app/orchestration/pipeline.py:1260-1280 | When every caller has returned nothing is registered and every task has settled |
| SingleFlight.CallCoalesces | app/orchestration/pipeline.py:1260-1268 | A call starts a task iff nobody awaits that key, and otherwise shares the flight those callers await |
| SingleFlight.Coalescer.Join | app/orchestration/pipeline.py:1260-1268 | The registry object makes exactly the protocol's join step and returns the flight the caller now awaits |
| SingleFlight.Coalescer.Retire | app/orchestration/pipeline.py:1276-1279 | Popping the flight if it is the registered one and cancelling its unfinished task changes only that flight and that registry entry |
| SingleFlight.Coalescer.Leave | app/orchestration/pipeline.py:1274-1280 | Counting a caller out makes exactly the protocol's resume or interrupt step; it drains iff it was the last waiter |
| SingleFlight.Coalescer.SettleTask | app/orchestration/pipeline.py:1266-1273 | Settling a task makes exactly the protocol's settle step |
| CircuitBreaker.RecordingKeepsTheSummary | app/fetch/http_fetcher.py:86-110 | Recording an outcome keeps the two dictionaries a summary of the outcome history, for every domain |
| CircuitBreaker.OpenIsWhatHistorySays | app/fetch/http_fetcher.py:64-72 | A domain counts as open iff its history has three transient failures in a row, the last less than a minute ago |
| CircuitBreaker.StepKeepsSound | app/fetch/http_fetcher.py:61-116 | Every step of any fetch (arrival, admission, outcome, retry, time passing) keeps the dictionaries a summary, every first request permitted, and the history append-only |
| CircuitBreaker.CountersSummariseHistory | app/fetch/http_fetcher.py:86-110 | In every reachable state the failure count is the trailing run of transient failures, an open-until entry exists iff that run is at least three, and it is a minute after the last failure |
| CircuitBreaker.NoFetchStartsWhileOpen | app/fetch/http_fetcher.py:64-72 | Under any interleaving no fetch sends its first request while its domain is open |
| CircuitBreaker.StepKeepsSerial | app/fetch/http_fetcher.py:61-116 | Without retries, or with one fetch per domain at a time, every step keeps all requests so far permitted |
| CircuitBreaker.SafeConfigurationsHoldBackEveryRequest | app/fetch/http_fetcher.py:61-116 | In those configurations no request, first or retry, ever goes out while the domain is open |
| CircuitBreaker.AttemptsFail | app/fetch/http_fetcher.py:98-116 | A fetch whose attempts all fail, each retry after a pause, records exactly one transient failure and frees its place |
| CircuitBreaker.RetriesSlipThrough | app/fetch/http_fetcher.py:98-116 | In every other configuration: while one fetch is in its first attempt three others fail with all their retries, then it fails and its retry goes out while the domain is open; each retry follows a pause of any length below the minute |
| CircuitBreaker.BreakerCoversRetriesIffSafe | app/fetch/http_fetcher.py:61-116 | The breaker covers retries iff there are none or at most one fetch per domain runs at a time; the defaults meet neither |
| HttpFetcher.FetchOnce | app/fetch/http_fetcher.py:128-167 | One attempt follows the redirect trail to its ending: an unsafe URL before any request to it, a missing destination, one redirect too many, an error, or a page |
| HttpFetcher.EndingIsUnique | app/fetch/http_fetcher.py:128-167 | An attempt has exactly one possible ending and number of requests |
| HttpFetcher.FetchedIffAPageIsWithinReach | app/fetch/http_fetcher.py:128-167 | A page is returned iff one lies within the permitted number of redirects along allowed URLs, and every URL requested was allowed |
| HttpFetcher.ConclusionIsUnique | app/fetch/http_fetcher.py:75-116 | A fetch has one result and one number of attempts, decided by its attempts or by the total time-out |
| HttpFetcher.Fetcher.IsOpen | app/fetch/http_fetcher.py:64-72 | The open test on the dictionaries agrees with the history |
| HttpFetcher.Fetcher.Record | app/fetch/http_fetcher.py:86-110 | Recording appends exactly one record to the history the dictionaries summarise |
| HttpFetcher.Fetcher.Fetch | app/fetch/http_fetcher.py:61-116 | Whatever others record while it waits and while it is attempted: a fetch is refused iff its domain is open when it arrives or when it gets its place; otherwise it retries transient failures up to the limit or until the total time-out, and records exactly its outcome last (nothing when the URL was unsafe) |
| BreakerHistory.TrailingFailuresAreTheLast | app/fetch/http_fetcher.py:86-93 | The failure count is at least n iff the last n outcomes recorded for the domain are transient failures |
| BreakerHistory.KeptBackIff | app/fetch/http_fetcher.py:64-90 | Requests are kept back iff the last three outcomes of the domain are transient failures and less than 60 seconds have passed since the last |
| BreakerHistory.FetchLeavesItsResult | app/fetch/http_fetcher.py:86-116 | A page, a rejection or a status that will not pass ends the row of failures; a connection error, a time-out or one of the seven statuses that may pass is one more; an unsafe URL leaves nothing; other domains are untouched |
| BreakerHistory.StepLeavesItsOutcome | app/fetch/http_fetcher.py:86-116 | Of all steps of concurrent fetches only a success, a time-out, and a failure past its retries leave anything, each what it says and for its own domain |
| Storage.Database.Execute | app/storage/database.py:67-102 | A statement takes effect iff the write gate permits it, and then changes exactly its table |
| Storage.Database.InsertRecords | app/storage/database.py:97-102 | A batch of record inserts adds or replaces exactly those records |
| Storage.Database.CleanExpiredEvidence | app/storage/database.py:166-188 | Exactly the unexpired records remain, the index keeps exactly the rows with a record, and the count of deleted records is returned |
| Storage.Database.CleanRetainedQueryData | app/storage/database.py:190-251 | The sweep leaves exactly the unexpired, young enough rows of all four tables, or nothing when purging, and returns the number of cache rows removed |
| Storage.Database.Clear | app/storage/database.py:146-164 | Clearing namespaces, in order, empties exactly their rows and returns the total number of rows removed |
| Storage.ClearedCache | app/storage/database.py:146-164 | Clearing any list of namespaces removes exactly the cache rows of the cache namespaces in it |
| Storage.ClearedRows | app/storage/database.py:146-164 | It empties the requests iff "history" is in it, and the records and their index iff "evidence" is |
| Storage.KeptRowsComeInOrder | app/storage/database.py:166-188 | The index rows kept are exactly those with a record, in their order |
| Storage.KeepAfterDrop | app/storage/database.py:166-188 | Deleting the index rows of expired records first does not change what the orphan deletion keeps |
| Retention.Cache.Get | app/storage/cache.py:22-31 | A read returns the value of an unexpired row and nothing otherwise, and counts one hit or one miss accordingly |
| Retention.Cache.Put | app/storage/cache.py:41-46 | A write stores the value with its expiry unless the gate is closed |
| Retention.Cache.Delete | app/storage/cache.py:48-51 | A delete removes exactly that key, even with the gate closed |
| Retention.StoredIsFound | app/storage/cache.py:22-46 | A value written with the gate open is found until its time to live is over, and other keys are found as before; with the gate closed nothing changes |
| Retention.DeletedIsNotFound | app/storage/cache.py:22-51 | A deleted key is not found again until it is written, whatever the gate says |
| Retention.CleanExpired | app/storage/retention.py:13-20 | The sweep uses the retention period as cutoff, purges everything when the retention is zero days, and returns the number of cache rows removed |
| Retention.SweepKeepsExactlyTheUnexpired | app/storage/database.py:166-251 | After a sweep that is not a purge exactly the unexpired records remain, with exactly their index rows, and exactly the young enough requests |
| Retention.SweepIsInvisibleIff | app/storage/database.py:226-251 | No later reader can notice a sweep iff every row old enough to be swept for its age has also expired |
| Retention.SweepsAreInvisible | app/orchestration/pipeline.py:1206-1216 | For writes with the lifetimes the pipeline uses, any run of reads, writes, deletes and sweeps gives the same replies, hits and misses as the run without its sweeps |
| Retention.RunsLookAlike | app/storage/cache.py:22-51 | The tables after a run and after the run without its sweeps cannot be told apart by readers from then on |
| Retention.SweepLeavesNoOrphan | app/storage/database.py:166-188 | After any sweep every full-text row has its record |
| Retention.RecordsComeFirst | app/orchestration/pipeline.py:1048-1062 | Inserting the records first gives every row about to be indexed a record with the request's expiry |
| Retention.RecordingIsOrphanFreeIff | app/orchestration/pipeline.py:1012-1067 | Recording a request in two transactions keeps the index orphan-free iff no sweep at or past the records' own expiry falls between them |
| Retention.LateSweepLeavesAnOrphan | app/orchestration/pipeline.py:1012-1067 | A sweep at the expiry of the records just inserted leaves their index row without a record |
| Retention.IndexIsNeverOrphaned | app/orchestration/pipeline.py:1048-1062 | In every state reachable from an orphan-free one by requests, cache writes, sweeps and clears, with no such late sweep, every full-text row has its record |
| Retention.ZeroRetentionStoresNothing | app/storage/database.py:190-251 | With zero retention the first sweep empties all four tables and nothing fills them again |
| Retention.EmptyTablesStayEmpty | app/storage/database.py:67-102 | With zero retention empty tables stay empty under every sequence of events |
| TextSpans.TrimmedSpan | app/extract/chunker.py:12-17 | The trimmed range, if any, starts and ends with non-white-space and only white space lies outside it |
| TextSpans.ParagraphSpans | app/extract/chunker.py:20-29 | The paragraphs are exactly the trimmed stretches between blank-line separators, covering all non-white-space characters in order |
| TextSpans.SentenceSpans | app/extract/chunker.py:32-41 | The sentences of a range cover its non-white-space characters in order; they break exactly where closing punctuation is followed by white space |
| ParagraphProperties.SeparatedIff | app/extract/chunker.py:8 | A separator lies in a stretch of text iff a blank line does: two line feeds with only blanks, tabs and a carriage return between them |
| ParagraphProperties.ParagraphsAreSplitAtBlankLines | app/extract/chunker.py:20-29 | Stated on the characters alone, spans are the paragraphs of a text iff they are trimmed, cover what is not white space, have a blank line between neighbours and none inside |
| ParagraphProperties.WithoutBlankLineOneParagraph | app/extract/chunker.py:20-29 | A text without a blank line is at most one paragraph |
| ParagraphProperties.SentencesEndAtPunctuation | app/extract/chunker.py:32-41 | Every sentence but the last ends with closing punctuation before white space, and none goes on behind such a place |
| Chunker.PassageBuffer.Flush | app/extract/chunker.py:51-65 | Flushing emits the buffered range as one exact slice under its heading and empties the buffer |
| Chunker.PassageBuffer.AppendSpan | app/extract/chunker.py:67-81 | Appending a span flushes first when the span would make the passage too long, and afterwards when the target is reached |
| Chunker.PassageBuffer.AppendParagraph | app/extract/chunker.py:83-91 | A heading paragraph flushes and becomes the current heading; a long paragraph is fed sentence by sentence, any other whole |
| Chunker.FeedingGroups | app/extract/chunker.py:67-81 | Feeding one piece to the buffer extends the last group or opens a new one, whichever the greedy rule says |
| Chunker.FeedingAllGroups | app/extract/chunker.py:44-93 | The flush-as-you-go buffer produces exactly the greedy grouping of the pieces |
| Chunker.PiecesComeInOrder | app/extract/chunker.py:83-91 | The pieces of all paragraphs are trimmed, in order and without overlap |
| Chunker.ChunkText | app/extract/chunker.py:44-93 | The passages are the greedy grouping of the pieces of all paragraphs, for any target and maximum |
| ChunkerProperties.PassagesAreExactSlices | app/extract/chunker.py:51-65 | Every passage is a non-empty trimmed exact slice, and passages are in order and disjoint |
| ChunkerProperties.EveryCharacterIsInOnePassage | app/extract/chunker.py:44-93 | Every character that is not white space lies in exactly one passage |
| ChunkerProperties.HeadingsStartPassages | app/extract/chunker.py:83-93 | Every heading paragraph starts a passage, and each passage carries the latest heading at or before its start |
| ChunkerProperties.OversizePassagesAreSentences | app/extract/chunker.py:67-91 | A passage longer than the maximum is exactly one sentence of a paragraph longer than the maximum |
| ChunkerProperties.MergedPassagesFit | app/extract/chunker.py:67-81 | A passage of more than one piece is at most as long as the maximum |
| ChunkerProperties.PassagesStopOnlyForAReason | app/extract/chunker.py:67-91 | A passage ends only because the target is reached, because it would be too long with the piece the next one starts with, or because a heading follows |
| ChunkerProperties.PassagesGoOnUntilTheTarget | app/extract/chunker.py:67-91 | A passage takes another piece only while it is below the target, the piece fits and it does not begin under a heading |
| ChunkerProperties.OpenLinesAreTheHeadings | app/extract/chunker.py:83-91 | Every paragraph of at most 140 characters without closing punctuation starts a passage under itself as heading, and no other text becomes a heading |
| Clipping.NormaliseIsNormal | app/orchestration/response.py:454-455 | Normalised text has white space only as single blanks between other characters |
| Clipping.NormalTextIsFixed | app/orchestration/response.py:454-455 | Normalised text is left unchanged by normalising |
| ClippedWords.NormalisingKeepsWords | app/orchestration/response.py:454-455 | Normalising keeps the words of the text, in order |
| Clipping.RFindIsLast | app/orchestration/response.py:461-466 | The backward search finds the last occurrence |
| Clipping.ClipTextFits | app/orchestration/response.py:454-468 | The clipped text is never longer than the limit, for every text and every limit |
| Clipping.ClipTextKeepsABeginning | app/orchestration/response.py:454-468 | A text that must be cut keeps an unchanged beginning of at least half the limit, followed by an ellipsis |
| Clipping.ClipTextCutsBetweenWords | app/orchestration/response.py:460-468 | It is cut between words whenever a blank leaves at least half the limit and at least 40 characters |
| ClippedWords.CutAfterTheLastSentence | app/orchestration/response.py:460-463 | If a sentence ends in the part that fits, not before character 80 and its middle, the text is cut right after the last such sentence |
| Clipping.ShrinkingIsStrict | app/orchestration/response.py:437-451 | Shrinking a field longer than its floor always makes it strictly shorter |
| Clipping.ClipTextIsIdempotent | app/orchestration/response.py:454-468 | Clipping twice to one limit is the same as clipping once |
| RelevantClipping.WindowFits | app/orchestration/response.py:523-553 | The window around a query term is at most as long as the limit, for every limit of at least three |
| RelevantClipping.WindowFitsIff | app/orchestration/response.py:523-553 | That bound holds for all texts and terms iff the limit is at least three |
| RelevantClipping.ShortLimitsOverflow | app/orchestration/response.py:523-553 | For each smaller limit a text is given whose window is too long |
| WindowChoice.OccursIff | app/orchestration/response.py:538 | A term counts as present iff it is a part of the window |
| WindowChoice.MatchesAreApart | app/orchestration/response.py:525-529 | The matches of a term are occurrences of it, from left to right without overlap |
| WindowChoice.MatchesMissNothing | app/orchestration/response.py:525-529 | Every occurrence of a term overlaps a match that begins no later |
| WindowChoice.CountIsTheNumberOfMatches | app/orchestration/response.py:525-539 | Counting a term counts its matches |
| WindowChoice.CountDistinctIsTheirNumber | app/orchestration/response.py:538 | The number of distinct terms is that of the terms present |
| WindowChoice.CountAllAddsUp | app/orchestration/response.py:539 | The occurrences of several terms add up |
| WindowChoice.MoreTermsThenMoreOccurrences | app/orchestration/response.py:538-541 | Between windows a further term outweighs up to nine occurrences, and with equally many terms the one with more occurrences wins |
| WindowChoice.WindowHoldsItsCenter | app/orchestration/response.py:534-536 | A window holds the occurrence it is for, with a third of its size before it unless the text begins or ends too near |
| WindowChoice.BestWindowIsBest | app/orchestration/response.py:533-541 | The window chosen scores at least as much as that of every occurrence, and begins first among equals |
| WindowChoice.WordStartIsAfterABlank | app/orchestration/response.py:543-546 | It begins where it was chosen or right after its first blank, with at least forty characters left |
| WindowChoice.WordEndIsAtABlank | app/orchestration/response.py:547-550 | It ends where it was chosen to or at its last blank, with at least forty characters left |
| RelevantClipping.MisfitsStayMisfits | app/orchestration/response.py:500-518 | A sentence that does not fit beside some picked sentences does not fit beside more of them |
| WindowChoice.SentencesMatchIff | app/orchestration/response.py:481-487 | A sentence is a candidate iff it has a term of the query, with exactly those terms and the occurrences of all |
| WindowChoice.NewTermsGainMost | app/orchestration/response.py:496-502 | Between sentences a term that is new outweighs up to two more shared ones, and a shared term up to three occurrences |
| RelevantClipping.Accepting | app/orchestration/response.py:500-518 | Accepting the best remaining sentence keeps the search state: picks in order that fit, and every rejected sentence still a misfit |
| RelevantClipping.TryBest | app/orchestration/response.py:500-518 | One round tries the match that gains most and accepts it if it fits, extending the greedy order; it gives up only when not even the best match fits alone |
| RelevantClipping.SelectSentences | app/orchestration/response.py:494-518 | The greedy search returns at most four matching sentences in text order that fit: each one gains most (new terms first, then shared terms and occurrences) among those that fit beside the ones before, until none fits or there are four |
| RelevantClipping.SelectionIsUnique | app/orchestration/response.py:494-518 | There is only one such selection |
| RelevantClipping.BestIsNext | app/orchestration/response.py:500-518 | The best match still to be tried gains most among all that fit beside the picks, tried or not |
| RelevantClipping.ClipRelevantText | app/orchestration/response.py:471-520 | The result is at most as long as any limit of at least three; it is the plain clip without query terms, the greedy sentence selection when the best match fits, and the window otherwise |
| Payload.FirstUse | app/orchestration/response.py:267-270 | The ids listed are exactly those used |
| Payload.FirstUseRepeatsNothing | app/orchestration/response.py:270 | No id is listed twice |
| Payload.Longest | app/orchestration/response.py:432-434 | The item chosen is the first of the longest ones above the floor, and none is chosen iff all are at or below it |
| Fitting.ReductionsMakeProgress | app/orchestration/response.py:303-411 | Each of the fifteen kinds of reduction drops evidence, or keeps it and makes everything else strictly lighter, although dropping evidence rebuilds the sources: the loop terminates for every payload |
| FittingOrder.FirstOfIsFirst | app/orchestration/response.py:311-411 | The reduction made is the first applicable one of the priority list |
| FittingOrder.FitsOrReportsTheExcess | app/orchestration/response.py:303-411 | Fitting ends within the budget with the flag untouched, or flagged with every reducible part at its lowest floor and the payload too large even without the flag |
| FittingOrder.FlagIsHonest | app/orchestration/response.py:407-411 | The flag is set iff the result is too large, and fitting the result again changes nothing |
| FittingOrder.ChoicesComeLate | app/orchestration/response.py:311-411 | Evidence is chosen only when everything cheap is gone, contradictions only when surplus evidence is gone too, and the last resort only when everything else is at its floor |
| FittingOrder.StepIsInOrder | app/orchestration/response.py:311-411 | Every round keeps that order of sacrifice |
| FittingOrder.FittingGivesUpInOrder | app/orchestration/response.py:303-411 | Over a whole run: evidence is lost only after everything cheap, contradictions only after surplus evidence, evidence below the minimum only when nothing else is left, and two items (or the minimum) survive |
| FittingProperties.ReductionsKeep | app/orchestration/response.py:303-411 | No reduction touches the citation, URL, number or order of exact snippets, the frame, or a counter; evidence and lists only lose their ends |
| FittingProperties.FittingKeeps | app/orchestration/response.py:303-411 | Over a whole run exact citations and URLs stay, evidence is a prefix with its citations and source ids, and sources keep matching the evidence |
| FittingTexts.ShrinkingKeepsHalf | app/orchestration/response.py:437-468 | One step towards a floor leaves the normalised text, or a beginning of it and an ellipsis of at least half of what the step allows |
| FittingTexts.ShrinkingAbridges | app/orchestration/response.py:437-468 | Shrinking a text that was shrunk before still leaves a beginning of the original |
| FittingTexts.FittingKeepsTexts | app/orchestration/response.py:303-411 | After any fitting every evidence text, snippet text, title, heading and the query is the original, or normalised, or a beginning of it with an ellipsis of at least half its lowest floor; every exact snippet is there; sources are those given or rebuilt; and without the flag for shortened texts no text of evidence or snippets has changed |
| FittingSteps.ReductionTakesOneThing | app/orchestration/response.py:311-407 | Every reduction takes one note, one expanded snippet, the last record with the sources rebuilt, or changes one record, snippet, source or the query, and nothing else |
| FittingSteps.FittingTakesOneThingAtATime | app/orchestration/response.py:311-411 | Fitting is a chain of such reductions, each made only because the response was still too large, up to the first that fits or has nothing left to take |
| FittingProperties.ReductionsKeepSources | app/orchestration/response.py:342-345 | Sources that follow the evidence still follow it after every reduction, rebuilt or not |
| FittingProperties.FirstUseIsInOrder | app/orchestration/response.py:267-270 | Ids are listed in the order of their first use |
| FittingProperties.CompactSourcesFollowIds | app/orchestration/response.py:267-286 | The sources are exactly the known ids, in order, each with its own id and URL |
| FittingLoop.ResponsePayload.PopExpandedSnippet | app/orchestration/response.py:312-318 | Trying to drop the last expanded snippet has exactly that reduction's guard and effect |
| FittingLoop.ResponsePayload.PopEvidence | app/orchestration/response.py:342-345 | Trying to drop evidence has exactly that reduction's guard and effect, sources rebuilt included |
| FittingLoop.ResponsePayload.ShrinkLongestEvidence | app/orchestration/response.py:331-336 | Trying to shrink the longest evidence text has exactly that reduction's guard and effect |
| FittingLoop.ResponsePayload.ShrinkLongestSnippet | app/orchestration/response.py:337-341 | Trying to shrink the longest snippet text has exactly that reduction's guard and effect |
| FittingLoop.ResponsePayload.PopMetadatum | app/orchestration/response.py:354-364 | The backward search removes one metadatum of the last source that has any, or nothing if none has |
| FittingLoop.ResponsePayload.Trim | app/orchestration/response.py:311-411 | One round of the loop makes exactly the first applicable reduction |
| FittingLoop.ResponsePayload.Fit | app/orchestration/response.py:303-411 | The in-place loop leaves exactly the fitted payload |
| TwoPassFit.RecountingCostsDigits | app/orchestration/response.py:600-601 | Rewriting the three counters changes the printed length by exactly the change in their digits |
| TwoPassFit.SizeKeyCosts | app/orchestration/response.py:244-245 | Writing the size for the first time lengthens the printed response by exactly its key and its digits |
| TwoPassFit.FlagCosts | app/orchestration/response.py:409-410 | The flag never makes the printed response shorter |
| TwoPassFit.CompactedSize | app/orchestration/response.py:238-251 | The returned response exceeds the fitted size by exactly the growth in digits of its counters, and reports a size that is off by its own digits only |
| TwoPassFit.CompactedConserves | app/orchestration/response.py:101-251 | Across both passes exact citations, URLs, sources and an evidence prefix survive, and kept and omitted evidence add up |
| CompactedTexts.CompactedKeepsTexts | app/orchestration/response.py:234-251 | Both passes together leave every text, title, heading and the query as it was, or normalised, or a marked beginning of at least half its lowest floor, and flag changed texts |
| CompactedTexts.SnippetsAddUp | app/orchestration/response.py:234-251 | Shown and omitted snippets add up to their number |
| TwoPassFit.CompactedFlagIsHonest | app/orchestration/response.py:238-251 | The result is flagged iff one of the two fits could not reach the budget |
| TwoPassFit.WriteCounters | app/orchestration/response.py:239-244 | Rewriting the counters measures the size before writing it |
| TwoPassFit.CompactResponse | app/orchestration/response.py:234-251 | Fitting, counting, fitting and counting again in place leaves exactly the compacted response |
| TwoPassFit.MissedByADigit | app/orchestration/response.py:238-251 | A response that fits both times can still end above the budget, unflagged, when its size gains a digit as it is first written |
| ResponseChars.CharsDifference | app/orchestration/response.py:600-601 | With the same frame and counters, printed lengths differ exactly by the lengths of the lists that trimming shortens and of the remarks |
| EarlyTrimming.ClippingIsNoLonger | app/orchestration/response.py:454-468 | Clipping a text, white space and escapes included, never lengthens what is printed |
| MissedBudget.EarlyIsNoLonger | app/orchestration/response.py:312-341 | None of the first reductions, up to the shortening of texts, lengthens the printed response |
| MissedBudget.DroppingFreshEvidenceSaves | app/orchestration/response.py:342-345 | While the sources have lost nothing, dropping evidence saves at least 40 characters, rebuilt sources included |
| MissedBudget.FreshWhileMany | app/orchestration/response.py:303-411 | Sources lose titles or metadata only after the evidence is down to the minimum |
| MissedBudget.SpareEvidenceFits | app/orchestration/response.py:303-411 | From a small excess, with evidence above the minimum, fitting keeps all evidence or ends well within the budget |
| MissedBudget.OnlyTheSizeGainsADigit | app/orchestration/response.py:246-251 | If the second pass leaves the other counters their digits, an unflagged response exceeds a permitted budget only from 10000 to 10025 |
| MissedBudget.SecondFitSettles | app/orchestration/response.py:303-411 | From a small excess the second fit ends well below the budget, or drops no snippet and no evidence above the minimum |
| MissedBudget.UnflaggedIsWithinTheBudget | app/orchestration/response.py:238-251 | For every other permitted budget and number of records an unflagged response is within its budget, whatever its texts and URLs |
| SpareResponses.RebuiltSources | app/orchestration/response.py:267-286 | For records taken two from a page, dropping some rebuilds exactly the sources of the rest, in order and with their types |
| SpareResponses.NextResponse | app/orchestration/response.py:303-411 | For a family of responses with several sources: which reduction comes next and what it leaves |
| SpareLengths.FitReaches | app/orchestration/response.py:303-411 | Fitting such a response ends at the first stage that fits, whatever the number of rounds |
| SuppliedPlans.PlanIsSupplied | app/orchestration/pipeline.py:413-478 | The responses of that family have the form in which the server supplies responses: numbering, two records per page, source types, limits, coverage and notes |
| SuppliedPlans.CitationsAreDistinct | app/evidence/citations.py:6-18 | In a response of that form no two evidence records share a citation |
| BudgetInstances.MissJustAboveAPower | app/orchestration/response.py:234-251 | For every budget from 10000 to 10025, every number of records up to 25 and every coverage and privacy report, a supplied response built with that budget that is returned longer and unflagged |
| BudgetInstances.MissWhereOmissionsGain | app/orchestration/response.py:234-251 | For every permitted budget with 12 or 13 records, or 14 or 15 from 6000 on, such a response, for every report with a primary source |
| BudgetInstances.BudgetCanBeMissedIff | app/orchestration/response.py:238-251 | A permitted budget can be missed without the flag, by a response of the form the server supplies, iff it is 10000 to 10025 or the number of omitted records can become ten at the end |
| Json.DigitsGrow | app/orchestration/response.py:600-601 | A larger number never prints shorter |
| JsonReading.QuotedIsRead | app/orchestration/response.py:600-601 | A printed string is read back up to its closing quote, for every string and whatever follows |
| JsonReading.DecimalIsRead | app/orchestration/response.py:600-601 | A printed number is read back and has no leading zero |
| ReadFitting.NextIsLighter | app/orchestration/response.py:414-429 | Each reduction of a page response drops a passage or shortens the texts: the loop terminates |
| ReadFitting.FittingKeeps | app/orchestration/response.py:414-429 | For any size measure: passages are lost from the end only, only when all texts are short, and never below three; the result fits, or is flagged with nothing left to reduce |
| ReadFitting.PagePayload.Trim | app/orchestration/response.py:415-424 | One round makes exactly the next reduction, if there is one |
| ReadFitting.PagePayload.Fit | app/orchestration/response.py:414-429 | The in-place loop leaves exactly the fitted page response |
| ReadResponse.CountersCost | app/orchestration/response.py:93-97 | Two page responses that differ only in their counters differ in printed length by those |
| ReadResponse.CompactedSize | app/orchestration/response.py:92-98 | After the second fit a page response grows only by the digits of its two counters, and the size it reports is off by the growth of that number alone |
| ReadResponse.CompactedConserves | app/orchestration/response.py:92-98 | Across both passes URL, title, source and privacy stay, at least three passages (or all) remain, in order and with their headings, and kept and omitted ones add up |
| ReadTexts.CompactedKeepsTexts | app/orchestration/response.py:92-98 | Both passes cut no passage below half of the floor of 320 characters, keep a beginning of it, and flag every change |
| ReadResponse.CompactedFlagIsHonest | app/orchestration/response.py:92-98 | A page response is flagged iff one of the two fits could not reach the budget |
| ReadResponse.WriteCounters | app/orchestration/response.py:93-94 | The counters are brought up to date, the size measured before it is written |
| ReadResponse.CompactPage | app/orchestration/response.py:92-98 | Fitting, counting, fitting and counting in place leave exactly the specified page response |
| ReadBudget.UnflaggedPageIsWithinTheBudget | app/orchestration/response.py:92-98 | For every other permitted budget and number of passages up to 20 an unflagged page response is within its budget |
| ReadInstances.PageMissJustAboveAPower | app/orchestration/response.py:92-98 | For every budget from 10000 to 10025 and every number of passages, a page response that is returned longer and unflagged |
| ReadInstances.PageMissWhereOmissionsGain | app/orchestration/response.py:92-98 | For every permitted budget and every page of 13 to 17 passages, such a response |
| ReadInstances.PageBudgetCanBeMissedIff | app/orchestration/response.py:92-98 | A page response can miss a permitted budget without the flag iff the budget is 10000 to 10025 or the number of omitted passages can become ten at the end |
| LedgerProperties.SelectionIsSound | app/evidence/ledger.py:46-158 | For all inputs, negative scores included: at most `limit` passages, each candidate at most as often as given, all from sources past the admission gate, at most two per source over all phases |
| LedgerProperties.FloorLeavesNoNegative | app/evidence/ledger.py:121-128 | The relative floor leaves no item of negative score, even when every score is negative |
| LedgerProperties.WorthIsAboveSentinel | app/evidence/ledger.py:137-157 | An item of non-negative score from a source with fewer than two passages is worth more than the sentinel -1, so the default index is never taken |
| LedgerProperties.FillingIsSound | app/evidence/ledger.py:130-158 | The greedy phase keeps the limit, the cap and the pool |
| LedgerProperties.LeftoversAreJustified | app/evidence/ledger.py:121-158 | Below the limit, every admitted passage left out is from a source that already has two, or below half of the best score left after the reservations |
| LedgerProperties.ReservationIsHonoured | app/evidence/ledger.py:101-119 | A facet's reservation takes a covering passage, unless every covering one is selected already or from a source that has two |
| LedgerProperties.FacetsAreServed | app/evidence/ledger.py:101-119 | Below the limit, each facet is covered by a selected passage, unless every admitted passage covering it is from a source that has two |
| LedgerProperties.AuthorityComesFirst | app/evidence/ledger.py:84-99 | A covering passage of a recognised authority comes first, the best one by coverage and then score |
| Ledger.JaccardMeasuresOverlap | app/evidence/ledger.py:161-162 | Similarity is zero exactly for sets without a common token and one exactly for the same non-empty set |
| LedgerRanking.BaseScoreWeighs | app/evidence/ledger.py:56-62 | The base score is an average of the three scores in the proportion 9 : 6 : 5 |
| LedgerRanking.SimilarityIsTheGreatest | app/evidence/ledger.py:143-145 | Similarity is the greatest to any selected passage, attained, and zero without any |
| LedgerRanking.CopiesAndStrangers | app/evidence/ledger.py:143-145 | It is one exactly for copies of selected passages and zero exactly for passages that share no token with any |
| LedgerRanking.CountIsTheNumberOfPositions | app/evidence/ledger.py:74-78 | The count of a source is the number of its selected passages |
| LedgerRanking.NoThreeOfOneSource | app/evidence/ledger.py:130-136 | No three passages of any selection are from one source |
| LedgerRanking.MaxBaseIsAttained | app/evidence/ledger.py:125 | The score the relative floor halves is the greatest of those left, and attained |
| LedgerRanking.FilterKeepsOrder | app/evidence/ledger.py:126-128 | Filtering keeps the order of the passages |
| TermCoverage.EnoughIsMentionedIff | app/orchestration/pipeline.py:1694-1704 | A passage mentions enough iff it has all of one or two terms, or three fifths of more; without terms nothing is enough |
| LedgerRanking.CoversIff | app/evidence/ledger.py:104-113 | A passage covers a facet iff it has all of one or two terms, or three fifths of more |
| LedgerRanking.ReservationTakesTheBest | app/evidence/ledger.py:101-119 | A facet's reservation takes the open covering passage with the greatest share of the terms, then the best base score |
| LedgerRanking.FillingPrefers | app/evidence/ledger.py:130-157 | Every passage the greedy phase selects beats every passage still open: with equal counts its lead in base score is at least a quarter of its lead in similarity; with equal base score and similarity it is from the less used source; a used source needs a lead of 0.14 over an unused one |
| LedgerRanking.SelectionPrefers | app/evidence/ledger.py:121-158 | So does every passage of the whole selection that was not reserved, against every admitted passage above the floor |
| LedgerRanking.CopiesLoseToStrangers | app/evidence/ledger.py:148-153 | A copy of a selected passage loses to one without a common token unless its base score is at least 0.25 above |
| LedgerRanking.RaisingKeepsItTaken | app/evidence/ledger.py:56-157 | Raising any of the scores of the passage taken next keeps it the one taken next |
| Maxima.ArgMax | app/evidence/ledger.py:95-98 | The choice is the first eligible position with the greatest key |
| LedgerLoop.Selection.Select | app/evidence/ledger.py:74-78 | Taking an item moves it from the pool to the selection and keeps the token list and the counts per source in step |
| LedgerLoop.Selection.PlaceAuthority | app/evidence/ledger.py:84-99 | The authority phase makes exactly the authority's reservation |
| LedgerLoop.Selection.PlaceFacets | app/evidence/ledger.py:101-119 | The facet phase makes exactly the reservations of the facets in order, stopping at the limit |
| LedgerLoop.Selection.DropWeak | app/evidence/ledger.py:121-128 | The floor phase keeps exactly the items at or above half of the best score left |
| LedgerLoop.Selection.BestWorth | app/evidence/ledger.py:131-157 | The search from index 0 and score -1 finds the first eligible item of greatest worth, and none iff none is eligible |
| LedgerLoop.Selection.FillUp | app/evidence/ledger.py:130-158 | The greedy phase takes the best item again and again until the limit or until no source is open |
| LedgerLoop.SelectDiverse | app/evidence/ledger.py:46-158 | The phases in order compute exactly the specified selection |
| FetchCandidates.SelectionIsComplete | app/orchestration/pipeline.py:1555-1643 | Distinct keys, exactly as many as exist or as fit, all from the preferred candidates and the results, with the distinct preferred ones first and in order, whatever the scores |
| FetchCandidates.SelectionExtends | app/orchestration/pipeline.py:1555-1643 | Every stage only appends candidates of new keys, within the limit |
| FetchCandidates.MiddleExtends | app/orchestration/pipeline.py:1570-1637 | The facet, top-result, first-party and new-domain stages only append candidates of new keys, within the limit |
| FetchCandidates.PreferredComeInOrder | app/orchestration/pipeline.py:1564-1569 | The first stage takes each preferred key once, in order, up to the limit |
| CandidateChoices.FacetMatchIsBest | app/orchestration/pipeline.py:1573-1602 | A facet's match is the first of the best new candidates that share two of its terms, score at least 0.12 and at least 0.55 of the best such candidate; there is none iff all of those are selected |
| CandidateChoices.FacetsAreRepresented | app/orchestration/pipeline.py:1587-1606 | Below the limit every facet with such a candidate is represented by one after every round |
| CandidateChoices.TwoForEveryFacet | app/orchestration/pipeline.py:1570-1606 | With room for two per facet, and below the limit, every facet has two good candidates of different keys selected, or all it has |
| CandidateChoices.ShortlistIsNearTheTop | app/orchestration/pipeline.py:1613-1618 | The shortlist are, in order, those of the first max(10, 3 * limit) results that score at least 0.15 and 0.55 of the top result |
| CandidateChoices.FirstOfficialIsFirst | app/orchestration/pipeline.py:1619-1630 | The first-party page is the first of the shortlist with a new key |
| CandidateChoices.AddedDomainsAreNew | app/orchestration/pipeline.py:1631-1637 | Every result added for its domain is of a domain not selected before it |
| CandidateChoices.NewDomainsAreRepresented | app/orchestration/pipeline.py:1631-1637 | Below the limit every domain of the shortlist is selected, but for pages selected under another domain |
| CandidateChoices.EveryStageIsServed | app/orchestration/pipeline.py:1570-1637 | Below the limit the middle stages together select the top result, a good candidate of every facet that has one, a first-party page if there is one, and every domain of the shortlist |
| FetchCandidates.SelectionTakesEveryKey | app/orchestration/pipeline.py:1638-1643 | Unless the limit is reached every key offered is selected |
| FetchLoop.SelectFetchCandidates | app/orchestration/pipeline.py:1555-1643 | The loops compute exactly the specified selection |
| FetchLoop.AddMiddle | app/orchestration/pipeline.py:1570-1637 | The loops of the middle stages compute exactly those stages |
| FetchLoop.FullIsFinal | app/orchestration/pipeline.py:1564-1569 | Once the limit is reached, returning early changes nothing |
| FetchLoop.SelectedCandidatesAreAttemptedOnce | app/orchestration/pipeline.py:398-413 | The candidates selected are each attempted at most once, attempts stay within the cap, and a retrieval for several facets that no deadline stops makes exactly as many attempts as the cap |
| RetrievalProperties.RetrievalKeepsInv | app/orchestration/pipeline.py:771-918 | Attempts stay within the cap, every attempt is a retained source or one recorded failure, retained sources carry distinct increasing attempt numbers and distinct contents |
| RetrievalProperties.RunningKeepsInv | app/orchestration/pipeline.py:794-850 | A batch that fits under the cap keeps those properties, whatever its fetches yield |
| AttemptOutcomes.FirstPagesAreRetained | app/orchestration/pipeline.py:817-850 | In every retrieval exactly the first page of each content fetched is retained, under the number of its attempt |
| AttemptOutcomes.BatchFailuresExplain | app/orchestration/pipeline.py:817-848 | The failures a batch adds are those of its attempts not retained, in order, each for its own candidate with the reason |
| RetrievalProperties.NoKeyIsAttemptedTwice | app/orchestration/pipeline.py:783-918 | With candidates of distinct keys no key is attempted twice, in either mode |
| RetrievalProperties.FacetBatchIsFresh | app/orchestration/pipeline.py:888-899 | A batch planned for missing facets has distinct keys that were not attempted, even if the candidates repeat keys |
| RetrievalProperties.BatchRepeatsIffItHoldsAKeyTwice | app/orchestration/pipeline.py:794-800 | For any candidates, a batch of unattempted ones makes the retrieval attempt a key twice iff it holds two candidates of one key |
| RetrievalExits.RetrievalStopsForAReason | app/orchestration/pipeline.py:852-918 | A retrieval that no deadline stops uses its whole cap when there are several facets, and otherwise its whole cap or has enough useful sources |
| RetrievalExits.RetrievalFollowsTheRanking | app/orchestration/pipeline.py:852-881 | With one query the attempts are the best-ranked candidates in order, and no more sources become useful than were asked for |
| RetrievalExits.SomeoneIsLeft | app/orchestration/pipeline.py:871-877 | Below the cap some candidate has not been attempted |
| RetrievalExits.UsefulIsTheirNumber | app/orchestration/pipeline.py:863-866 | The useful sources are those with passages and a relevance of at least 0.18 |
| RetrievalExits.TargetIff | app/orchestration/pipeline.py:858-861 | Enough are three fifths of the attempts, rounded up, between three and eight and no more than the attempts |
| RetrievalExits.OrdinaryBatchFillsTheGap | app/orchestration/pipeline.py:869-875 | A batch for one query are the next candidates, exactly as many as useful sources are wanting unless the attempts or the candidates run out |
| RetrievalProperties.NextForIsBest | app/orchestration/pipeline.py:1708-1734 | A facet of any number of terms gets its preferred candidate unless that was attempted; otherwise a candidate sharing a term with it is next if there is one, one sharing two terms (or the only one) if any does, and none sharing as many has a greater score |
| RetrievalProperties.EveryMissingFacetIsServed | app/orchestration/pipeline.py:888-899 | When a batch has slots left, it holds a candidate for each missing facet, or all that share a term with the facet are taken |
| FacetRetrieval.RiskyPassagesSteerNothing | app/orchestration/pipeline.py:883-912 | Retained sources that differ only in their high-risk passages leave the same facets missing and lead to the same next batch |
| FacetRetrieval.WithoutMissingFacets | app/orchestration/pipeline.py:900-905 | When no facet is missing the next batch are all candidates left that the attempts allow |
| FacetRetrieval.WithoutCandidates | app/orchestration/pipeline.py:906-912 | When no missing facet has a candidate the next batch are the first candidates left, one per missing facet |
| FacetRetrieval.MissingAreTheUnsettled | app/orchestration/pipeline.py:1683-1705 | A facet is missing iff no safe passage has all of its one or two terms, or three fifths of more |
| FacetRetrieval.MissingComeInOrder | app/orchestration/pipeline.py:1692-1705 | The missing facets keep the order of the facets |
| FacetRetrieval.CompoundIsABatchRun | app/orchestration/pipeline.py:883-918 | A retrieval for several facets is a run of batches, each planned from the state before it |
| FacetRetrieval.SettledForTheRestOfTheRun | app/orchestration/pipeline.py:883-918 | Once a safe passage settles a facet, it is not missing for the rest of the run |
| FacetRetrieval.UselessPassagesSettleNothing | app/orchestration/pipeline.py:1686-1704 | Passages that are all high-risk or have none of its terms never settle a facet |
| RetrievalLoop.Retriever.RetrieveBatch | app/orchestration/pipeline.py:794-850 | A batch marks its keys, counts its attempts and settles its outcomes in order, exactly as specified |
| RetrievalLoop.Retriever.Settle | app/orchestration/pipeline.py:818-850 | A late or failed fetch and duplicate content add one failure; new content adds one source and its hash |
| RetrievalLoop.Retriever.RetrieveOrdinary | app/orchestration/pipeline.py:852-881 | The loop for one query runs exactly as specified |
| RetrievalLoop.Retriever.PlanFacets | app/orchestration/pipeline.py:888-899 | The loop over missing facets plans exactly the specified batch |
| RetrievalLoop.Retriever.RetrieveCompound | app/orchestration/pipeline.py:883-918 | The loop for several facets runs exactly as specified |
| RetrievalLoop.Retrieve | app/orchestration/pipeline.py:771-918 | The sources, the number of attempts and the failures returned are those specified |
| SearchBudget.SearchesStayWithinTheLimit | app/orchestration/pipeline.py:153-324 | In every mode, for all findings: at most the query limit is issued, the log records exactly the number issued (more only when the exact results were supplied), expansions are a prefix of the planned ones, and fallbacks stay within the reserve |
| SearchBudget.UniqueQueries | app/orchestration/pipeline.py:1737-1746 | No query is empty and no two are alike up to case |
| SearchBudget.UniqueQueriesComeInOrder | app/orchestration/pipeline.py:1737-1746 | The queries kept are compacted queries of the list, in its order |
| SearchBudget.EveryQueryIsKept | app/orchestration/pipeline.py:1737-1746 | A query is dropped only when it is empty or, up to case, like one that is kept |
| SearchBudget.Expansions | app/orchestration/pipeline.py:245-257 | The planned expansions leave room for the exact queries and the reserved fallback, and no two are alike up to case |
| SearchBudget.ExpansionsComeInOrder | app/orchestration/pipeline.py:245-257 | The expansions are compacted queries of the plan, then of the gaps, in order |
| SearchBudget.ExactFits | app/orchestration/pipeline.py:153-168 | The exact queries alone fit the limit, which is within the configured budget |
| SearchRounds.QueryLimitIff | app/orchestration/pipeline.py:153-166 | The limit is the least of the budget, in the deep mode twice the sources wanted but at least three, and for several questions two per question |
| SearchRounds.RoundLimitIff | app/orchestration/pipeline.py:190-198 | Several questions take one round; otherwise the rounds are bounded by the budget, by the caller's number and, after the first, by one per two searches |
| SearchRounds.ReservedIff | app/orchestration/pipeline.py:244 | A fallback is reserved iff two more searches fit than the exact ones |
| SearchRounds.NotExactIff | app/orchestration/pipeline.py:243-250 | Exactly the planned queries that are no exact query up to case are expansions |
| SearchRounds.FocusedAreTheFirst | app/orchestration/pipeline.py:160-164 | The questions searched exactly are the first ones found, at most six and no more than the mode allows |
| SearchRounds.ExpansionsFillTheRoom | app/orchestration/pipeline.py:245-257 | The expansions are the first of the unique queries, as many as there is room for besides the exact ones and the reserved fallback |
| SearchRounds.GapsFollow | app/orchestration/pipeline.py:251-255 | The gap queries of each round follow those of the rounds before it |
| SearchRounds.RoundsTakeTwo | app/orchestration/pipeline.py:258-279 | Several questions take all expansions in one round; otherwise each round takes the next two, or what is left |
| SearchBudget.SlicesFollow | app/orchestration/pipeline.py:275-279 | The slices of successive rounds follow each other without gap or overlap |
| SearchBudget.SearchingKeepsInv | app/orchestration/pipeline.py:275-292 | A round issues its slice and at most one fallback, and keeps the counters equal to the searches issued |
| SearchBudget.ClaimingKeepsInv | app/orchestration/pipeline.py:654-689 | A claim moves one fallback from the reserve to the issued searches, or does nothing |
| SearchRounds.FallbackIsForTheFirst | app/orchestration/pipeline.py:654-662 | The fallback is that of the first search that found nothing and has a different one; there is none iff no search has |
| SearchRounds.RoundIssues | app/orchestration/pipeline.py:275-292 | A round issues its queries in order and then that fallback while one is reserved |
| SearchRounds.WeakRoundsAreTheLast | app/orchestration/pipeline.py:307-308 | The counter reaches two iff the last two rounds found nothing useful |
| SearchRounds.RunMakesTheDueRounds | app/orchestration/pipeline.py:273-324 | The rounds made are exactly those up to the first without a query or not due: searches left, the last two rounds not both useless, and weak results, or in the deep mode only one round so far or no strong results |
| SearchLoop.FallbackBudget.Claim | app/orchestration/pipeline.py:79-89 | A claim is granted iff something remains, and moves one from remaining to used |
| SearchLoop.SearchRun.TryFallback | app/orchestration/pipeline.py:654-689 | After a round the first empty search with a different fallback claims it, if any remains |
| SearchLoop.SearchRun.SearchRound | app/orchestration/pipeline.py:604-697 | A round issues its searches and at most one fallback, exactly as specified |
| SearchLoop.SearchRun.Expand | app/orchestration/pipeline.py:273-324 | The loop with its breaks and continues runs exactly the specified rounds |
| SearchLoop.SearchWeb | app/orchestration/pipeline.py:243-324 | The number recorded is at least the number of searches issued and at most the configured budget |
| Merging.InterleavingIsARankedPermutation | app/orchestration/pipeline.py:1321-1330 | Interleaving is a permutation by position with ranks 1 to n, in which every item of rank r of any group precedes every item of rank r + 1 |
| Merging.DeduplicationConserves | app/orchestration/pipeline.py:1749-1764 | Distinct keys in order of first use; each survivor keeps the identity of its first result and has the union of engines, the greatest score and the first of the longest snippets of its key |
| Merging.SurvivorsMergeTheirKeys | app/orchestration/pipeline.py:1749-1764 | Merging as results arrive gives each key the merger of all its results |
| Merging.MergedAllCombines | app/orchestration/pipeline.py:1757-1760 | Merging a list of results one by one combines engines, score and snippet of all of them |
| Merging.DeduplicationIsIdempotent | app/orchestration/pipeline.py:1749-1764 | Deduplicating twice is the same as once |
| Merging.LookalikesConserve | app/search/deduplication.py:8-36 | Whatever looks alike: canonical URLs are distinct, and no engine is lost or invented |
| Merging.LookalikesCombine | app/search/deduplication.py:8-36 | Each kept result combines those merged into it: identity of the first, union of engines, greatest score, first of the longest snippets |
| Merging.LookalikesLoseNothing | app/search/deduplication.py:8-36 | Every result is merged into exactly one kept result |
| Merging.SortingIsStable | app/orchestration/pipeline.py:738 | Sorting puts results in descending order of score and keeps the results of each score in their order |
| PreparedResults.EntriesAreTheAdmitted | app/orchestration/pipeline.py:711-726 | The results prepared are exactly the admitted ones in order, each with its own rank or its position, and scored |
| PreparedResults.OneResultPerPage | app/orchestration/pipeline.py:1646-1647 | Deduplicated results have different canonical URLs, and those without have different URLs |
| PreparedResults.ExactAreScoredLast | app/orchestration/pipeline.py:727-737 | Every exact result combines all of its page and has the score of what it then is, in order of first use |
| PreparedResults.SortedAreScoredLast | app/orchestration/pipeline.py:727-738 | Every other result combines those merged into it and has the score of what it then is, in descending order |
| ResultObjects.SearchResult.MergeIn | app/orchestration/pipeline.py:1757-1760 | Merging updates engines, score and snippet of the surviving object and nothing else |
| ResultObjects.InterleaveResults | app/orchestration/pipeline.py:1321-1330 | The result consists of new objects with the values of the specified interleaving; the groups are only read |
| ResultObjects.AbsorbExact | app/orchestration/pipeline.py:1754-1763 | With the dictionary, a result is merged into the object of its key or kept, exactly as searching the kept list would |
| ResultObjects.DeduplicateExact | app/orchestration/pipeline.py:1749-1764 | In-place deduplication keeps distinct objects of the list with the specified values |
| ResultObjects.AbsorbLookalike | app/search/deduplication.py:11-36 | The inner loop merges a candidate into the first kept object that looks alike, or keeps it |
| ResultObjects.DeduplicateLookalikes | app/search/deduplication.py:8-36 | In-place merging of lookalikes keeps distinct objects of the list with the specified values |
| ResultObjects.PrepareResults | app/orchestration/pipeline.py:699-738 | Preparing works on copies: all objects returned are new, no existing one changes, and the values are the specified ones |
| Snippets.RecordsShowTheChosen | app/orchestration/pipeline.py:1522-1552 | Each snippet shows the wanted candidate of its position, in order, numbered from the start index on |
| Snippets.EveryCandidateIsChosen | app/orchestration/pipeline.py:1522-1530 | Unless the limit is reached every wanted candidate gets a snippet |
| Snippets.RiskyTextIsNotShown | app/orchestration/pipeline.py:1526-1545 | A snippet shows the redacted URL and the words of the result, and of a risky result neither title nor text |
| Snippets.BlankIff | app/orchestration/pipeline.py:1526-1528 | A result is skipped as empty iff its title and its snippet are white space only |
| Snippets.NumbersAreConsecutive | app/orchestration/pipeline.py:339-353 | Exact and expanded snippets together are numbered 1 to n, the exact ones first |
| Snippets.UnredactedIsShownOnce | app/orchestration/pipeline.py:339-353 | If redaction leaves the URLs of the expanded results alone, none shows a URL of the exact ones |
| Snippets.NothingIsShownTwiceIff | app/orchestration/pipeline.py:339-353 | For all results and limits no URL is shown for both parts iff redaction changes no URL |
| Snippets.RedactedUrlIsShownTwice | app/orchestration/pipeline.py:339-353 | For all limits, a URL that redaction changes and that both parts found is shown twice |
| Snippets.BuildSnippets | app/orchestration/pipeline.py:1511-1552 | The loop computes exactly the specified snippets |
| Snippets.DiscoverCandidates | app/orchestration/pipeline.py:228-353 | The exact candidates are a function of the exact raw results alone, although they are prepared again with every round; all and expanded candidates are the prepared findings |
| Snippets.Discover | app/orchestration/pipeline.py:228-353 | The exact raw results are unchanged at the end; candidates and snippets are exactly those of the prepared results, the exact snippets those of the exact results alone, numbered consecutively |

## Left out

- HTTP, SOCKS and Tor transport, Playwright, SearXNG and LM Studio clients: their replies and failures are parameters. SearXNG's own retry of a search is not counted as another search.
- The HTTP client's opening (`app/fetch/http_fetcher.py:49-59`): entering it is taken to yield no control between the circuit test and the attempt. Its closing is a step of CircuitBreaker.
- SQLite: write-ahead log, vacuum, secure deletion, migrations, locking. Each method of the database is one atomic step; only the two transactions of recording a request are kept apart.
- Tokenising, inflection, official-source hints, query planning and expansion, routing, injection patterns, scoring and `SequenceMatcher`: functions given as parameters.
- Floating-point rounding: scores and coverages are real numbers.
- `build_evidence` (`app/evidence/ledger.py:15-43`) apart from the selection: writing risk labels on passages, ranking them and formatting evidence records.
- Formatting of identifiers and citations (`search_001`, `src_001`) while snippets are built: there their numbers are modelled, not their zero padding.
- `_retrieve_one` (`app/orchestration/pipeline.py:920-1010`): one fetch with its caches and its browser fallback is an outcome; the browser budget, a counter like the search fallback's, is not modelled. The facet or query assigned to a fetch only steers that outcome.
- `_prioritize_fetchable_candidates` and `_preferred_exact_candidates` (`app/orchestration/pipeline.py:740-769`): they supply the candidates and preferences, which are arbitrary here.
- Building the compact response before it is fitted (`app/orchestration/response.py:101-233`): text caps, essential snippets, aggregation of failures. Fitting is proved for every payload, in particular for the one built; what building guarantees is `PackageForms.Supplied`, and the score and status of the coverage report are arbitrary there. URLs are limited to 4096 characters before redaction; that redaction may lengthen them is left out of `Supplied`, which only the responses exhibited have to meet.
- HttpFetcher.Fetcher.Fetch: takes what other fetches record meanwhile as two lists; which interleavings are possible is the state machine of CircuitBreaker. A time-out while a successful fetch closes its client is only there.
- Storage.Database.Clear: is one step in a run, because it runs on the event loop without awaiting; the sweep alone runs on another thread.
- Merging.LookalikesCombine: says nothing about which results look alike, because merging can change snippets after they were compared.
- Retrieval: failures name a candidate's URL as it is; that it is redacted there (`app/orchestration/pipeline.py:823-844`) is left out.
- Engine lists are sets: the original sorts and deduplicates them whenever results are normalised or merged.
- JSON escapes are printed for control characters, quotes and backslashes; lone surrogates do not exist in the model's characters.
- Cancellation of a whole request from outside while it waits for its fetches or searches.
- Dashboards, MCP and HTTP wiring, logging, settings validation, benchmarks and report writers.
