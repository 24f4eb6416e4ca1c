# A Dafny model of the streaming proxy

This project models, in Dafny, the parts of the proxy that decide what a client is sent and what the
proxy remembers about it:

* the SSE pipeline of `internal/proxy`: the think-tag stripper, the OpenAI frame filter, the frame
  classifier, the synthetic end of stream, and `PumpSSE` with its goroutines as a step relation;
* the retry loop of `internal/proxy/handler.go` with the breaker, the health tracker and the
  recorder it drives;
* the two bounded buffers, `logstore.Store` and the check-in command's `cappedWriter`.

Byte strings are Dafny strings with one character per byte. The JSON reading of a data payload
(`UsageFromFrame`) and of a plain body (`ResponseHasEmptyOutput`) are function parameters, so every
statement holds whatever they return. Clocks, upstream answers and disconnects are inputs. Event
parsing follows sections 9.2.5 and 9.2.6 of the WHATWG HTML Standard.

## Layout

| file | contents |
|---|---|
| `ByteStrings.dfy`, `TextLines.dfy` | the library operations the proxy relies on: index, split, join, white-space trimming on UTF-8 bytes |
| `ThinkSpans.dfy`, `ThinkStripper.dfy` | removal of spans from a whole stream; the incremental stripper against it |
| `FrameFilter.dfy` | the OpenAI keepalive filter against "drop the bare lines" |
| `SseEvents.dfy`, `KeepalivePlacement.dfy` | what a client parses; where keepalives land |
| `FrameClassifier.dfy`, `ClassifierLines.dfy`, `ClassifierGroups.dfy` | the classifier, an independent line reader it agrees with, and its data flag as a property of groups of lines |
| `Eom.dfy` | the error frame and the abnormal finish |
| `PumpModel.dfy`, `PumpSafety.dfy`, `PumpDelivery.dfy`, `PumpProgress.dfy` | the pump: actions, invariants, end-to-end delivery, progress |
| `PumpReports.dfy`, `PumpEnds.dfy` | what a result reports of the stream; the ends, their causes and the synthetic end |
| `Breaker.dfy`, `Health.dfy`, `ModelStats.dfy` | the shared counters against their histories |
| `Retry.dfy`, `RequestLog.dfy`, `RequestResults.dfy`, `Handler.dfy`, `Interleaving.dfy` | retry rules, the effects of a request, what holds of them, the handler's methods on the shared objects, and overlapping requests |
| `LogStore.dfy`, `CappedWriter.dfy` | the bounded buffers |

Three kinds of statement recur. A *class* has the fields of its Go counterpart, and each method's
contract ties the new fields to a function of the old ones or to a ghost history. The *lemmas about
those functions* compare them with an independent whole-stream or whole-history meaning. Where the
code meets its documentation only sometimes, the lemma is an equivalence with the exact condition, and
an example shows the other side.

## Where the code is narrower than its comments

The model follows the code in each of these places.

* `Process` keeps the buffer from its *first* opener (internal/proxy/thinkstrip.go:73), so text
  between two spans is handed on again when the second one stays open
  (`ThinkStripping.TextBetweenSpansIsRepeated`).
* The hold-back runs only on tag-free buffers (internal/proxy/thinkstrip.go:91-101), so an opener whose
  first part follows a closer in the same call is missed (`ThinkStripping.OpenerBehindCloserIsMissed`).
* Even removing spans from the whole stream can leave an opener in the output
  (`ThinkStripping.RemovalCanJoinAnOpener`), exactly when what surrounds a span joins to one
  (`ThinkSpans.OpenerLeftExactly`).
* "Chunk boundaries are irrelevant" (internal/proxy/sseparse.go:36) fails for a cut between CR and LF,
  because each chunk is normalized on its own (`FrameClassification.NormalizeParts`,
  `ClassifierLines.SeparatedCrLfExample`); for which streams it does is
  `ClassifierGroups.EveryChunkingAgreesExactly`.
* "So no bytes are lost" (internal/proxy/sse.go:305-306) holds, but the stripper's held prefix is sent
  in front of the older filter tail (internal/proxy/sse.go:307-314), so the two can come out of order
  (`PumpDelivery.TailsOutOfOrder`, `PumpReports.TailsReachTheClientSwapped`).
* The classifier is said to have seen the final frames on every terminal path
  (internal/proxy/sse.go:175-176), but the held tails are sent without it. When the report of a clean
  end suffers is `PumpReports.ReportAgreesExactly`; `PumpReports.SentDataIsReportedEmpty` is a run that
  sends a data line and reports an empty stream. A stream whose lines end in CRLF is held whole
  (`FrameFiltering.CrLfStreamIsHeld`).
* A body that breaks off is to become a 502 (internal/proxy/handler.go:610-614), but a 400, 402 or 5xx
  body is read before that and forwarded as far as it came (internal/proxy/handler.go:367-374,
  `RequestResults.OtherStatusesAreForwarded`).
* The filter's substring test (internal/proxy/sse.go:269-271) overlooks a bare `data:` with white space
  behind it (`FrameFiltering.BlankBehindDataIsKept`).
* The breaker's shift (internal/resilience/breaker.go:49) leaves 64 bits from the 53rd consecutive
  failure on; the documented cooldown is kept for exactly the counts in `CircuitBreaking.CooldownExactly`.

## Model

| member | source | states |
|---|---|---|
| ThinkStripping.ThinkStripper.Process | internal/proxy/thinkstrip.go:36-103 | the fields and the forwarded bytes after a call are those of the specification functions, and the state invariant is kept |
| ThinkStripping.ThinkStripper.Scan | internal/proxy/thinkstrip.go:46-69 | the position loop emits what the recursive scan of the whole buffer emits and ends in its tag state |
| ThinkStripping.ThinkStripper.HoldLength | internal/proxy/thinkstrip.go:91-97 | the counting loop finds the longest suffix, up to six bytes, that may begin an opener |
| ThinkStripping.ThinkStripper.Flush | internal/proxy/thinkstrip.go:116-126 | the held prefix, or the verdict that a span is open |
| ThinkStripping.ThinkStripper.Unterminated | internal/proxy/thinkstrip.go:108-110 | true exactly if a span is open |
| ThinkStripping.ValidKept | internal/proxy/thinkstrip.go:21-25 | inside a span exactly if bytes are retained, and these begin with the opener; a held prefix is a proper prefix of the tag and excludes retained bytes |
| ThinkStripping.StripAgreesExactly | internal/proxy/thinkstrip.go:36-126 | for every chunking, chunked stripping and flushing equals one-shot removal if and only if no call repeats text or cuts an opener |
| ThinkStripping.StripAgreesOnCleanRuns | internal/proxy/thinkstrip.go:44-103 | any number of spans: equality whenever no call that closes a span ends inside another one or on a partial opener |
| ThinkStripping.StripOneSpan | internal/proxy/thinkstrip.go:10-20 | at most one opener, any chunking: the span is removed, and unterminated is reported exactly when no closer follows |
| ThinkStripping.TotalIsRunThenFlush | internal/proxy/thinkstrip.go:32-35 | the total of a run is what its calls hand on followed by the flush of its last state |
| ThinkStripping.TextBetweenSpansIsRepeated | internal/proxy/thinkstrip.go:71-77 | a first chunk that ends inside a later span makes the run differ from one-shot removal |
| ThinkStripping.TwoSpansExample | internal/proxy/thinkstrip.go:71-77 | a stream for which that happens |
| ThinkStripping.OpenerBehindCloserIsMissed | internal/proxy/thinkstrip.go:83-84 | an opener cut behind a closed span makes the run differ |
| ThinkStripping.MissedOpenerExample | internal/proxy/thinkstrip.go:83-84 | a pair of chunks for which that happens |
| ThinkSpans.OpenerLeftExactly | internal/proxy/thinkstrip.go:10-12 | for every stream, removing its spans leaves an opener in the output if and only if the text around a span joins to one |
| ThinkStripping.StrippedOutputHoldsOpener | internal/proxy/thinkstrip.go:36-126 | the same condition for chunked stripping, for every harmless chunking |
| ThinkStripping.RemovalCanJoinAnOpener | internal/proxy/thinkstrip.go:10-12 | a stream that meets the condition |
| ThinkStripping.IntendedAgrees | internal/proxy/thinkstrip.go:16-20 | a stripper that retains from the current opener and always holds back agrees with one-shot removal for every chunking of every stream |
| FrameFiltering.FrameFilter.Filter | internal/proxy/sse.go:253-290 | the held tail and the bytes handed on by one call |
| FrameFiltering.FrameFilter.KeepLines | internal/proxy/sse.go:274-281 | the line loop keeps exactly the lines that are not bare, in order |
| FrameFiltering.FilterAgreesExactly | internal/proxy/sse.go:248-290 | for every chunking, outputs and held tail equal dropping bare lines up to the last blank line if and only if each released region was caught by the substring test or holds no bare line |
| FrameFiltering.FilterAgrees | internal/proxy/sse.go:248-290 | that equality for every stream without white space behind a bare `data:` |
| FrameFiltering.CleanAgainstDropBare | internal/proxy/sse.go:269-289 | cleaning one region against dropping its bare lines: equal exactly if the region was filtered, never shorter |
| FrameFiltering.JoinKeptIsDropBare | internal/proxy/sse.go:273-282 | splitting, filtering and joining lines is dropping each bare line with its newline |
| FrameFiltering.DropReleasedParts | internal/proxy/sse.go:261-268 | a region that ends in a blank line is cleaned independently of what follows |
| FrameFiltering.BlankBehindDataIsKept | internal/proxy/sse.go:269-278 | a stream whose bare line the substring test overlooks |
| FrameFiltering.HeldWithoutBlank | internal/proxy/sse.go:261-265 | for every chunking, nothing of a stream without two adjacent LFs is handed on before its end |
| FrameFiltering.CrLfStreamIsHeld | internal/proxy/sse.go:261-265 | in particular nothing of a stream whose lines end in CRLF |
| SseEvents.KeepaliveInvisibleExactly | internal/proxy/sse.go:219-221 | a keepalive leaves a client's parser as it was if and only if it falls on an event boundary |
| SseEvents.FilterOutputEndsGroup | internal/proxy/sse.go:261-289 | whatever the filter hands on ends with an empty line |
| SseEvents.FilterOutputAligned | internal/proxy/sse.go:261-289 | so, dropped lines and stray newlines included, it leads from event boundary to event boundary |
| SseEvents.KeepalivesAreInvisible | internal/proxy/sse.go:440-467 | aligned payloads and keepalives in any order dispatch the same events as the payloads alone |
| KeepalivePlacement.KeepalivesFallBetweenEvents | internal/proxy/sse.go:218-223 | in every reachable state of an OpenAI stream, every keepalive before a tail, the synthetic end or a torn write falls between events |
| KeepalivePlacement.AlignedKept | internal/proxy/sse.go:392-415 | every step keeps queued, in-flight and written filter output aligned |
| FrameClassification.FrameClassifier.Analyze | internal/proxy/sseparse.go:39-52 | carry, flags and totals after a chunk |
| FrameClassification.FrameClassifier.Flush | internal/proxy/sseparse.go:56-63 | carry, flags and totals after the flush |
| FrameClassification.FrameClassifier.ClassifyBlock | internal/proxy/sseparse.go:84-134 | flags and totals after one block |
| FrameClassification.FrameClassifier.ReadLine | internal/proxy/sseparse.go:90-130 | what one line contributes |
| FrameClassification.NormalizeParts | internal/proxy/sseparse.go:40-41 | normalizing two parts on their own equals normalizing the whole if and only if the cut is not between CR and LF |
| FrameClassification.ChunkingIsIrrelevant | internal/proxy/sseparse.go:36-52 | any chunking that never cuts between CR and LF gives the whole state of one call with the stream, carry included; `ClassifierGroups.EveryChunkingAgreesExactly` tells when all chunkings report alike |
| FrameClassification.CarryHasNoBlankLine | internal/proxy/sseparse.go:43-51 | the carry never holds a blank line |
| ClassifierLines.ClassifierIsReader | internal/proxy/sseparse.go:9-15 | classifier and flush report what an independent line-at-a-time reader reports |
| ClassifierLines.CutsLoseNothing | internal/proxy/sseparse.go:54-63 | no cut changes a stop flag or a token total or loses a data flag; a second flush changes nothing |
| ClassifierGroups.FlagIsSomeGroup | internal/proxy/sseparse.go:84-134 | for every chunking, the data flag is: some group of lines of the normalised chunks has a field and no ping |
| ClassifierGroups.GroupsAreRuns | internal/proxy/sseparse.go:9-15 | the groups are the runs of lines between empty ones |
| ClassifierGroups.ReportsAlikeExactly | internal/proxy/sseparse.go:40-41 | a chunking reports what the uncut stream reports if and only if the stream shows data or the normalised chunks show none |
| ClassifierGroups.EveryChunkingAgreesExactly | internal/proxy/sseparse.go:36-41 | all chunkings of a stream report alike if and only if it shows data or no CRLF line ends separate a field from the pings of its group |
| ClassifierLines.SplitPingShowsData | internal/proxy/sseparse.go:99-105 | a ping block split by such a cut counts as data |
| ClassifierLines.SeparatedCrLfExample | internal/proxy/sseparse.go:40-41 | a chunking for which the data flag differs |
| Eom.SyntheticEndIsSeen | internal/proxy/eom.go:37-54 | behind any bytes, the error frame and the abnormal finish make a classifier that reads all of it report a terminal marker |
| PumpSafety.StepInv | internal/proxy/sse.go:207-437 | every step of every goroutine keeps the invariants below |
| PumpSafety.ReadKept | internal/proxy/sse.go:381-432 | every upstream byte is taken, in the finished read, or still to come |
| PumpSafety.SentKept | internal/proxy/sse.go:404-431 | what is queued is what the stages handed on |
| PumpSafety.QueueKept | internal/proxy/sse.go:164-172 | at most one done frame exists, it is the reader's last frame, and it is that of a clean, a broken or a cancelled end of the stages as they are |
| PumpSafety.OutputKept | internal/proxy/sse.go:207-241 | the output delivers the done frame's result unchanged, or one write failure |
| PumpSafety.FifoKept | internal/proxy/sse.go:209-224 | written payload, frame in hand and queue make up what was queued, in order |
| PumpSafety.TerminalKept | internal/proxy/sse.go:211-214 | only the synthetic end writes terminal pieces, contiguously and last |
| PumpSafety.Status200IsComplete | internal/proxy/sse.go:293-330 | a result with status 200 means a clean end, all upstream bytes taken, no open span, and a wire of exactly the stage output and the tail |
| PumpSafety.OneResultInOrder | internal/proxy/sse.go:140-172 | at every moment at most one result and one done frame, and the written payload is a prefix of what was queued |
| PumpSafety.NothingAfterResult | internal/proxy/sse.go:215-216 | after the result nothing is written and no result follows |
| PumpSafety.SyntheticEndOfFrame | internal/proxy/sse.go:210-214 | the synthetic end is two contiguous last writes, each a prefix of its frame, or absent, as the done frame calls for |
| PumpEnds.SyntheticEndExactly | internal/proxy/sse.go:209-217 | it is on the wire if and only if the stream is SSE, its end is abnormal and not a disconnect, and one pass over all that the stages handed on (for a cancelled stream, over the complete blocks) shows no stop marker |
| PumpEnds.EveryEndIsReported | internal/proxy/sse.go:293-366 | every result that is not a write failure is one of six ends; status, error, chunk count and token totals are those of the stream as read |
| PumpEnds.EndHasCause | internal/proxy/sse.go:353-431 | one step decided on the end: 504 exactly if the idle flag was up when the cancellation was handled, behind a watchdog that fired; a disconnect only behind a client that left; a clean end only behind a believed EOF |
| PumpEnds.DecidedOnce | internal/proxy/sse.go:164-172 | every done frame under way goes back to one reader step of the run |
| PumpSafety.SyntheticEndSeenByClient | internal/proxy/sse.go:209-217 | when its two writes are complete, a classifier reading the client's bytes from scratch reports a terminal marker |
| PumpDelivery.StagesAreRuns | internal/proxy/sse.go:389-397 | the reader's stages are the stripper's run followed by the filter's run |
| PumpDelivery.VerbatimDelivery | internal/proxy/sse.go:389-415 | streams that are not OpenAI: status 200 means exactly the upstream bytes were written |
| PumpDelivery.StrippedDelivery | internal/proxy/sse.go:293-330 | OpenAI with stripping, for a chunking harmless to the stripper whose released regions were all filtered: status 200 means the stream without spans and bare lines was written, if and only if the two held tails are in order |
| PumpDelivery.FilteredDelivery | internal/proxy/sse.go:293-330 | OpenAI without stripping: the stream without bare lines, if and only if every region was filtered |
| PumpDelivery.CommuteIffCopies | internal/proxy/sse.go:307-314 | the order of the two tails does not matter exactly if the older consists of copies of the newer |
| PumpDelivery.TailsOutOfOrder | internal/proxy/sse.go:307-314 | a stream whose tails are forwarded in the wrong order |
| PumpReports.StagesClassify | internal/proxy/sse.go:398-401 | the reader's classifier is the classifier run over the stage outputs |
| PumpReports.ReportedTotals | internal/proxy/sse.go:175-183 | a clean result's token totals are those of one pass over everything sent in front of the tail; its empty flag agrees with that pass if and only if the text shows data or the normalised chunks show none |
| PumpReports.ReportAgreesExactly | internal/proxy/sse.go:293-330 | a clean result of a filtered stream, against one pass over all the client was sent: the totals agree if and only if the tail carries none, the empty flag if and only if the part in front shows data or the tail shows none |
| PumpReports.OnePassParts | internal/proxy/sseparse.go:39-63 | a text that ends a group is seen independently of what follows: flags by or, totals by sum |
| PumpReports.HeldStreamIsReportedEmpty | internal/proxy/sse.go:311-327 | every stream held whole can be delivered with status 200 and is reported empty, wrongly if and only if one pass over what was sent sees data |
| PumpReports.SentDataIsReportedEmpty | internal/proxy/sse.go:311-327 | a run that sends a data line and reports an empty stream |
| PumpReports.TailsReachTheClientSwapped | internal/proxy/sse.go:307-314 | a run that writes `<a` for the upstream bytes `a<` |
| PumpProgress.NoWedge | internal/proxy/sse.go:144-152 | in a reachable state no goroutine can move on its own if and only if the stream is live and idle or everything has ended, with one result |
| PumpProgress.EndedStreamsAreTornDown | internal/proxy/sse.go:399-414 | a cancelled stream, a closed body or a queued frame leaves no rest but the complete end |
| PumpProgress.RunsAreBounded | internal/proxy/sse.go:381-467 | a run is no longer than seven steps for each upstream byte, 34 more, and a credit for each tick and each empty read |
| PumpProgress.DoneWithinEight | internal/proxy/sse.go:167-172 | from a queued done frame on at most eight frames are dequeued in any run, and each brings the done frame one place nearer |
| CircuitBreaking.Breaker.RecordFailure | internal/resilience/breaker.go:46-56 | counter and deadline follow the history extended by a failure |
| CircuitBreaking.Breaker.RecordSuccess | internal/resilience/breaker.go:41-43 | counter and deadline follow the history extended by a success |
| CircuitBreaking.Breaker.IsOpen | internal/resilience/breaker.go:36-38 | open exactly up to the history's deadline |
| CircuitBreaking.StreakIsRun | internal/resilience/breaker.go:24-29 | the count is the length of the maximal run of failures that ends the history |
| CircuitBreaking.DeadlineIsLatestOpening | internal/resilience/breaker.go:46-56 | the deadline is that of the latest failure that ended a run of at least five, with no assumption on the clock |
| CircuitBreaking.NeverOpened | internal/resilience/breaker.go:46-56 | without such a failure the deadline is the initial one |
| CircuitBreaking.CooldownExactly | internal/resilience/breaker.go:12-18 | the computed cooldown is the documented one if and only if the count is at most 52 or one of 56, 58, 60, 61; otherwise the circuit does not stay open |
| CircuitBreaking.OpenAsDocumented | internal/resilience/breaker.go:44-56 | the circuit is open as long as documented for exactly these run lengths |
| ModelHealth.Health.MarkFailed | internal/models/health.go:73-84 | maps follow the history extended by a failure; nothing below 500 or without a model |
| ModelHealth.Health.MarkExhausted | internal/models/health.go:88-96 | maps follow the history extended by a rate limit |
| ModelHealth.Health.MarkDegraded | internal/models/health.go:99-111 | maps follow the history extended by a degradation |
| ModelHealth.Health.CollectDue | internal/models/health.go:132-145 | the due models are exactly the locked ones whose lock has expired |
| ModelHealth.Health.Probed | internal/models/health.go:157-184 | an answer below 500 that shows recovery clears, anything else extends |
| ModelHealth.Health.IsHealthy | internal/models/health.go:49-57 | healthy exactly if not locked or past the lock |
| ModelHealth.Health.HealthyModels | internal/models/health.go:60-68 | the loop computes the filtered list |
| ModelHealth.HealthyIsSublist | internal/models/health.go:59-68 | that list is the order-preserving sublist at exactly the healthy positions |
| ModelHealth.CountSinceCleared | internal/models/health.go:33-38 | the fail count is the number of failures and extensions since the last clearing |
| ModelHealth.CountedModelsAreLocked | internal/models/health.go:33-38 | models with a fail count are a subset of the locked ones |
| ModelHealth.LockWithinTenMinutes | internal/models/health.go:73-111 | a lock ends between 30 s and 600 s after the event that wrote it |
| ModelHealth.CooldownGrows | internal/models/health.go:186-192 | the ladder index is in range and cooldowns never shrink |
| ModelHealth.OthersDoNotMatter | internal/models/health.go:73-111 | an event leaves all other models as they were |
| ModelStatistics.Recorder.Start | internal/models/stats.go:62-69 | counters follow the history extended by a start |
| ModelStatistics.Recorder.Result | internal/models/stats.go:81-120 | counters follow the history extended by a result |
| ModelStatistics.Recorder.Averages | internal/models/stats.go:125-136 | averages are the rounded quotients of the history's totals |
| ModelStatistics.TallyAppend | internal/models/stats.go:71-120 | accounting for one more result is counting one more result, counter by counter |
| ModelStatistics.StatsAreConsistent | internal/models/stats.go:62-165 | for every interleaving of requests and every named model: results within requests, successes and failures add up, totals and averages between their bounds |
| ModelStatistics.RoundDivWithinHalf | internal/models/stats.go:159-165 | rounding errs by at most half a unit |
| RetryRules.TransportErrorsAreRetryable | internal/proxy/handler.go:526-549 | every transport error that is told apart is retryable, others by their text |
| RetryRules.ResponsesRetryByStatus | internal/proxy/retry.go:24-34 | a response is retried exactly for a 5xx status with the option on |
| RetryRules.ExemptStatuses | internal/proxy/handler.go:366-374 | the statuses whose body is looked at are exactly those that can be exempt |
| RetryRules.DelaysAddUp | internal/proxy/retry.go:38-40 | while the shift fits, the first n delays add up to base times 2^n - 1 milliseconds |
| RequestResults.AttemptsAreBounded | internal/proxy/handler.go:328-433 | at most max(MaxRetries, 1) + 1 attempts |
| RequestResults.TwoResponses | internal/proxy/handler.go:350-385 | with retries of 5xx off, at most two upstream responses |
| RequestResults.TotalBackoff | internal/proxy/handler.go:377-385 | the total backoff is at most base times 2^max(MaxRetries, 1) - 1 milliseconds while the largest delay fits 64 bits |
| RequestResults.OneAnswerOrNoTrace | internal/proxy/handler.go:328-433 | either the client left and no accounting, mark, record or answer happened, or there is one head and one record; one breaker failure exactly for a final fault, one success exactly for a final status below 400 |
| RequestResults.RetriedAttemptsLeaveNoTrace | internal/proxy/handler.go:376-385 | an attempt that does not answer touches neither breaker nor health nor recorder |
| RequestResults.RecordedResultsAreConsistent | internal/proxy/handler.go:657-660 | every recorded result is a success, or a failure without empty output, given what the pump can deliver |
| RequestResults.OtherStatusesAreForwarded | internal/proxy/handler.go:605-638 | a final response other than 200 reaches the client with its status and what came of its body if and only if the body was read to its end or its status is 400, 402 or 5xx; all others become a 502 |
| RequestResults.RecordMatchesHead | internal/proxy/handler.go:508-518 | but for streams, the recorded status is the one the client was answered with; for streams it is the pump's |
| RequestResults.HealthLearnsOfFaults | internal/proxy/handler.go:387-403 | a model is locked for a failure exactly for a final transport error or non-exempt status of 500 or more, and as exhausted exactly for a final 429 |
| RequestHandling.Handler.DoRequest | internal/proxy/handler.go:318-434 | the loop's changes to breaker, health, recorder and response are exactly the request's effects |
| RequestHandling.Handler.HandleTransportError | internal/proxy/handler.go:479-520 | effects and verdict of a failed attempt |
| RequestHandling.Handler.HandleWafResponse | internal/proxy/handler.go:555-601 | effects and verdict of a first 403 or 405 |
| RequestHandling.Handler.HandleResponse | internal/proxy/handler.go:357-433 | effects and verdict of any other response |
| RequestHandling.Handler.Account | internal/proxy/handler.go:387-403 | marks and breaker events of a final response |
| RequestHandling.Handler.ForwardNon200 | internal/proxy/handler.go:605-638 | effects of forwarding a final response other than 200 |
| RequestHandling.Handler.StreamSSE | internal/proxy/handler.go:641-688 | record and marks behind a streamed response |
| RequestHandling.Handler.CopyBody | internal/proxy/handler.go:691-717 | record and mark behind a copied response |
| RequestHandling.Handler.ServeProxy | internal/proxy/handler.go:137-180 | a request is started once; while the circuit is open it gets a 503 and has no other effect, otherwise the effects of the loop |
| RequestHandling.RequestIsAccountedOnce | internal/proxy/handler.go:328-433 | on the shared objects: nothing if the client left, otherwise one reply and one consistent record under the request's model |
| RequestHandling.BreakerLearnsOnce | internal/proxy/handler.go:395-403 | the breaker sees one failure, one success or nothing per request, decided by the last attempt |
| RequestHandling.RequestIsTwoSteps | internal/proxy/handler.go:140-179 | for the recorder, a served request is a step of the interleaving that begins it and one that ends or drops it, with any steps of other requests in between |
| ModelStatistics.OthersGoOn | internal/models/stats.go:62-120 | the steps of other requests are possible and do the same while one more request is in flight |
| RequestInterleaving.OverlappingRequestsAddUp | internal/proxy/handler.go:318-434 | for any number of overlapping requests and any order of their effects: heads and records as many as clients that stayed, breaker failures as many as final faults, successes as many as final statuses below 400 |
| LogRing.Store.Add | internal/logstore/logstore.go:52-60 | the ring holds the newest entries of the history extended by the entry |
| LogRing.Store.List | internal/logstore/logstore.go:64-72 | the newest entries, newest first, as many as there are or fit |
| LogRing.Store.Len | internal/logstore/logstore.go:75-80 | the smaller of the number of additions and the capacity |
| LogRing.NewestIsReversedSuffix | internal/logstore/logstore.go:62-72 | that list is the reverse of the last entries added |
| CappedOutput.CappedWriter.Write | internal/checkin/manager.go:247-260 | the buffer is the tail of everything written |
| CappedOutput.CappedWriter.Shift | internal/checkin/manager.go:254-257 | the overlapping move to the front, in place |
| CappedOutput.TailOfTail | internal/checkin/manager.go:239-241 | keeping only the tail loses nothing a later tail needs |

## Left out

- Durations of a streamed result, log lines and the debug log of token usage: they do not feed back into the pump.
- The watchdog's reading of the clock: its idle time-out may fire at any moment, which covers every clock.
- Error messages that JSON escapes: the error frame is modelled for the reasons the pump uses, which need no escaping.
- `EomTail`: the pump does not use it.
- Sizes of the read buffer: a read may return any number of bytes.
- `roundTrip`: its timer is not modelled; a timed-out attempt is an input of the retry loop.
- JSON parsing of requests, bodies and usage frames, header filtering, cookie warm-up and spoofing: library calls and constant tables.
- Rejections of oversized and late uploads, the active-request counter and the dashboard log entries of `ServeProxy`.
- `cappedBuffer` of the token capture: it keeps a prefix and never changes what is sent.
- Sorting of `Snapshot` and the last-seen times it sorts by.
- Overflow of counters and times themselves: the failure count, token and duration totals and the sum of clock and cooldown are unbounded; the shifts of the breaker and of the retry delay are in 64 bits.
- `nextWindowStart` and `parseClock` of the check-in manager: calendar arithmetic.
- Case folding: `strings.ToLower` is modelled for ASCII letters; only ASCII prefixes are compared, and no other letter folds to one of theirs.
- ModelHealth.Health.CollectDue: the order in which Go ranges over the map is not modelled; the result is a set.
- ModelHealth.Health.HealthyModels: takes the times at which the models are looked at as an input.
- KeepalivePlacement.KeepalivesFallBetweenEvents: OpenAI streams only, because other streams are forwarded as they are read and may be cut inside an event.
- RequestHandling.Handler.DoRequest: the contract speaks of the loop running without other requests in between; `RequestInterleaving.OverlappingRequestsAddUp` covers every order of the effects of overlapping requests, which never read what they share.
- RequestHandling.Handler.ServeProxy: the same holds of it, and the rejections of a body in front of it are not modelled.
- PumpProgress.RunsAreBounded: says nothing about time; that a write ends at its deadline and a read returns when its body is closed is assumed by counting both as steps the pump can take.
