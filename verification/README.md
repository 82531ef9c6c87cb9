# cerber: verified model of the gateway's state machines

cerber is an AI gateway. This project models the parts of it that hold state or rewrite
data, and proves what they promise over every input, every run and every interleaving:
the credential pool and its rotation, the single-flight token refresh, the per-host
concurrency gate, the usage ledger and what it bills, the request log, the model blocklist,
the event-stream scanner and filter, the two stream translators, the rolling key limits,
the prompt-cache markers and the system-prompt relocation.

`dafny verify dfyconfig.toml` checks everything.

## Layout

| file | component |
|---|---|
| `pool.dfy`, `rotation.dfy`, `dispatch.dfy` | credential selection with back-off, one request rotating through the pool, the same with a refresh around each attempt |
| `token_refresh.dfy`, `token_history.dfy` | `EnsureFresh` as a step machine over any number of callers, and what a run of it leaves in the credential |
| `host_gate.dfy` | host slots, failover and bodies closed later, as a step machine over any number of requests |
| `usage_ledger.dfy`, `usage_cost.dfy`, `usage_tracker.dfy`, `usage_report.dfy`, `billing.dfy` | the plain event log, pricing, the tracker's aggregates and reports, what a report says about the events, and what streamed responses are billed |
| `request_log.dfy` | the ring of recent requests and its pages |
| `model_block.dfy` | the glob matcher and the blocklist |
| `sse.dfy`, `sse_filter.dfy` | the usage scanner, the event filter and the relay that joins them |
| `chat_stream.dfy`, `anthropic_stream.dfy`, `anthropic_events.dfy`, `gemini.dfy`, `gemini_calls.dfy` | the chat-completion stream as a client reads it, the two translators that write it, and what their single events and parts come to |
| `limits.dfy`, `limits_history.dfy` | rolling request, token and cost limits of a key, and what its counters stand for |
| `json.dfy`, `cache_markers.dfy`, `cloak.dfy` | JSON values and the two request rewrites |
| `wrappers.dfy` | `Option`, `Result` and writers that stop |

Where the original updates an object (`Store`, `Tracker`, `sseUsage`, `Usage`, a key's counters)
the model has a class with the same fields, and each method is proved against a function on
values; the theorems are about those functions and about runs of them. The two concurrent
protocols are step machines: a step is one critical section, one channel operation or one
exchange with the outside world, and the theorems hold of every interleaving of them.

## Conventions

- Time is an integer read from a monotone clock; money is `real`; tokens and counters are unbounded.
- JSON and wire events are parsed values. White-space trimming, lower-casing, the parser of one event
  payload and the size estimate of a JSON region are parameters: the results hold for any of them.
- What the upstream answers is a parameter of the call (one answer per attempt), and so is how many
  writes a client takes before one fails.
- `Panic` is a run-time panic of the original, kept apart from an error it returns.

## Where the code and its comments differ

The model follows the code.

- `RecentRequests` documents `limit<=0` as "all remaining" and any other limit as a bound on the page. The
  page is allocated at the limit's size first, so a negative limit panics, and so does one larger than a
  single allocation may hold, even on an empty log. Which limits fit is a parameter, `maxPage`; the
  documented answer is given exactly for those from 0 to `maxPage` (`RequestLog.AnswersAsDocumentedIff`,
  `RequestLog.OversizedPagePanics`).
- `StreamAnthropicToOpenAIUsage` and `StreamGeminiToOpenAI` say that they always emit `[DONE]`; when
  reading breaks off before the end they send neither a finish reason nor `[DONE]`
  (`AnthropicStream.ClientGathers`, `Gemini.BrokenStreamHasNoEnd`).
- A streamed and a whole Gemini response disagree on the finish reason exactly when no chunk gives
  one and there is no call: the stream says `stop`, the whole response nothing
  (`Gemini.StreamAgreesWithWhole`).
- `Snapshot` re-prices events without a model under the name "unknown", so totals are off by exactly
  `Cost.Drift` per such event (`Cost.CostsAddUp`). That is zero for all of them exactly when "unknown" and
  "" are charged the same for input, output, cache read and cache write (`Cost.NoDriftIff`); a price for
  "unknown" alone is enough to break it (`Cost.DriftExample`).
- `InjectCacheBreakpoints` says that it must never break a request; it panics exactly when a null stands
  where a marker would go (`CacheMarkers.InjectPanicsOnNull`). Only the strategy named moderate is held
  to one message marker. Aggressive is described as placing up to two; it places more exactly when three
  messages can take one and at most one of system and tools took one (`CacheMarkers.MessageMarkers`).
- `cloakClaudeCode` promises to drop no content. No text is lost exactly when every system block with a
  text worth keeping is of type text (`Cloak.NoTextIsLostIff`), no marker exactly when at most one block
  carries one and that block is relocated (`Cloak.NoMarkerIsLostIff`), and every other field of a block is
  lost, so that only blocks with nothing else are read whole (`Cloak.OtherFieldsAreLost`).
  `Cloak.DocumentIsLost` and `Cloak.FirstOfTwoMarkersIsLost` give inputs.
- `EnsureFresh` promises to spend a refresh token exactly once. An answer with an empty refresh token, or
  with one seen before, leaves a spent token in place, and the next refresh presents it
  (`TokenRefresh.StaleAnswerIsPresentedAgain`). In every interleaving the promise holds exactly when,
  before each presentation, all answers so far brought new tokens
  (`TokenRefresh.PresentedOnceIffRotating`).

## Model

| member | source | states |
|---|---|---|
| `Pool.CandidatesAreTheEligible` | internal/credential/credential.go:255-277 | the scan order lists every eligible entry exactly once and nothing else, in list order when filling first |
| `Pool.NextMeans` | internal/credential/credential.go:255-277 | a call hands out an entry that is enabled, not cooling and asked for, and nobody only if there is no such entry |
| `Pool.CandidatesAfterPick` | internal/credential/credential.go:255-277 | after a pick the remaining candidates keep their order, whatever happens to the picked entry: it goes to the back, stays in front, or is gone |
| `Pool.RoundRobinIsCyclic` | internal/credential/credential.go:255-277 | with m eligible credentials the j-th consecutive call returns number j mod m, so any m calls return each exactly once |
| `Pool.BackoffOverRuns` | internal/credential/credential.go:374-399 | over any run of failures and for any base the k-th counted one earns min(base*2^(k-1), cap) and comes no earlier than all previous cooldowns together |
| `Pool.DuplicatesAreFree` | internal/credential/credential.go:362-373 | any number of failures inside a cooldown leave the entry as it was |
| `Pool.CappedEarly` | internal/credential/credential.go:387-393 | stopping the doubling at the cap gives the same cooldown as doubling all the way |
| `Pool.Doubled` | internal/credential/credential.go:387-393 | the loop doubles until it is at the cap or the streak is used up, and what it ends with, clamped, is the back-off |
| `Pool.DoublingStaysBelow` | internal/credential/credential.go:387-393 | none of the values the doubling goes through reaches twice the cap unless the base does |
| `Pool.Store.NextOf` | internal/credential/credential.go:255-277 | the loop hands out the first candidate and advances the index past it; a failing call changes nothing |
| `Pool.Store.PenalizeDetail` | internal/credential/credential.go:374-399 | only the entry of that credential changes, to its back-off state; a duplicate is reported with the remaining time |
| `Pool.Store.MarkSuccess` | internal/credential/credential.go:410-423 | only the entry of that credential changes, to a cleared streak and cooldown |
| `Pool.RecoveredMeans` | internal/credential/credential.go:374-423 | after a success the entry is free at once and its next failure counts as its first |
| `Rotation.ServesIffSomeoneCan` | internal/provider/provider.go:120-153 | one rotation tries eligible credentials in order, none twice, and succeeds exactly when the attempt with one of them succeeds, returning the first such one |
| `Rotation.TriedAreFirstCandidates` | internal/provider/provider.go:120-153 | however the call ends, a client that goes away included, what was tried is a prefix of the candidates |
| `Rotation.RotationAnswers` | internal/provider/provider.go:120-162 | all sends but the last are turned down by a transport error or by 401, 403 or 429; the last is served with its own status exactly when it is not, and otherwise gives the reason reported |
| `Rotation.RotationIsRegularIff` | internal/provider/provider.go:130-145 | the rotation theorems apply exactly when no client goes away and transport errors, if any, are penalized |
| `Rotation.RotationSidelinesLosers` | internal/provider/provider.go:120-153 | losers are penalized, the winner is reset, every other entry is untouched; after an error every eligible one was tried and is cooling |
| `Rotation.ErrorReported` | internal/provider/provider.go:124-152 | a failed call reports that none is available exactly when some entry was not eligible, and otherwise the last attempt's failure |
| `Rotation.UnpenalizedLossesRepeat` | internal/provider/provider.go:136-139 | with transport penalties off a pool where all sends fail is gone round again and again, one attempt per entry |
| `Rotation.RotateFilteredOpts` | internal/provider/provider.go:120-153 | the loop over the mutating store is that rotation: same order, same final pool, same result |
| `Dispatch.AtMostTwoSends` | internal/server/server.go:2107-2182 | whether or not the client stays, no credential is sent through more than twice, the second time directly after a 401 and a forced refresh that ran; only matching ones are used |
| `Dispatch.DispatchAnswers` | internal/server/server.go:2107-2182 | by the send log and the upstream's answers alone: which sends every attempt makes, that an accepted first or retried answer and no other is served, with its own status and as the last send, and the failure reported otherwise |
| `Dispatch.DispatchIsRegular` | internal/server/server.go:2107-2182 | dispatch penalizes every loss, so only a client that goes away takes it out of the rotation theorems |
| `Dispatch.Dispatch` | internal/server/server.go:2107-2182 | the loop with proactive and forced refreshes is the rotation over its attempts, and its sends are those of that rotation |
| `TokenRefresh.GenerationsCountSuccesses` | internal/credential/credential.go:453-479 | in every interleaving the generation is its start plus the successful refreshes, no generation starts two of them, and at most one caller is inside the lock |
| `TokenRefresh.StepKeepsInv` | internal/credential/credential.go:453-479 | every step of every caller keeps the invariant behind it |
| `TokenRefresh.SpentTokensAreNeverPresented` | internal/server/server.go:2089-2091 | if answers bring new refresh tokens, no interleaving presents a token whose exchange has succeeded, and none is exchanged twice |
| `TokenRefresh.PresentedOnceIffRotating` | internal/credential/credential.go:440-479 | in every interleaving no spent token is presented exactly when, before each presentation, every answer brought a token that is neither empty nor one seen before |
| `TokenRefresh.StoredTokenIsSpentIff` | internal/credential/credential.go:105-114 | after one exchange is stored the credential holds a spent token exactly when the answer brought none or one seen before |
| `TokenRefresh.StaleAnswerIsPresentedAgain` | internal/credential/credential.go:105-114 | from a fresh start, an answer without a refresh token or with the one just presented makes the next forced call present that spent token |
| `TokenRefresh.EmptyAnswerKeepsSpentToken` | internal/credential/credential.go:105-114 | an answer without a refresh token leaves a spent one in place |
| `TokenRefresh.OneRefreshPerInstant` | internal/credential/credential.go:92-101 | callers that do not force and share one clock reading cause at most one successful refresh |
| `TokenRefresh.FromTheStart` | internal/credential/credential.go:453-479 | the same from a start with no caller inside: generations, the lock, tokens presented once and one refresh per instant, for every interleaving |
| `TokenHistory.RunsLeaveLastAnswer` | internal/credential/credential.go:105-114 | in every interleaving, with the lock free, the credential holds the access token and expiry of the last successful answer and the last refresh token that came; a call that ran returns what the upstream answered to it |
| `TokenHistory.StoredAnswer` | internal/credential/credential.go:105-114 | storing an answer takes over all of it but an empty refresh token, and counts one generation |
| `TokenHistory.AsksIff` | internal/credential/credential.go:92-101 | a call asks the upstream exactly when it forces or the token expires within the skew, and no refresh was stored since it came |
| `TokenRefresh.SomeCallCanProceed` | internal/credential/credential.go:453-479 | no deadlock: while a call has not returned, some call can take a step, and that brings it nearer its end |
| `HostGate.Normalize` | internal/provider/openai/openai.go:191-208 | an explicit host list is used as it is, otherwise the base URL and its fallbacks under one cap; there is a host, every cap is positive, and the primary is the first |
| `HostGate.SlotsMatchHolders` | internal/provider/openai/openai.go:216-303 | in every interleaving a host's occupied slots are its attempts in flight plus its open bodies, never above the cap; every other request holds nothing |
| `HostGate.StepKeepsInv` | internal/provider/openai/openai.go:216-334 | every step of every request keeps the accounts |
| `HostGate.RunsStepByStep` | internal/provider/openai/openai.go:266-303 | a run is its steps one after another, each enabled where it is taken |
| `HostGate.MovedRequest` | internal/provider/openai/openai.go:266-303 | a request that moves holds at each point exactly the slot it owes, and occupancy changes by what it took or gave back |
| `HostGate.ReleaseNeverBlocks` | internal/provider/openai/openai.go:237-246 | an event that gives a slot back can always happen |
| `HostGate.CloseAgainIsFree` | internal/provider/openai/openai.go:324-334 | closing a body again changes nothing |
| `HostGate.SomeRequestCanProceed` | internal/provider/openai/openai.go:266-303 | no deadlock: while a request is unfinished, some request can move without waiting for another |
| `HostGate.FromTheStart` | internal/provider/openai/openai.go:216-334 | the accounts, the caps and progress in every run of a provider from its configured hosts on |
| `HostGate.WalksAreShort` | internal/provider/openai/openai.go:266-303 | over n hosts a request sees at most 4n + 2 events before its body is closed |
| `HostGate.SendHosts` | internal/provider/openai/openai.go:266-303 | the loop stops at the first host that is not passed over, its events are a walk of the machine, and its result says what happened there |
| `Ledger.SumSplit` | internal/usage/usage.go:534-545 | figures of disjoint selections of the log add up |
| `Ledger.EntriesSumToTotal` | internal/usage/usage.go:397-433 | totals are the sum over credentials and the sum over models |
| `Cost.FindPrice` | internal/usage/usage.go:254-269 | an exact match or the longest priced prefix, whatever order the map is visited in |
| `Cost.TokenCostAdds` | internal/usage/usage.go:101-124 | with well-formed cache splits the price of a sum is the sum of prices |
| `UsageReport.EventCostMeans` | internal/usage/usage.go:232-241 | an event costs what the upstream reported, or nothing without a price, or its fresh, cached and output tokens at their rates and the fee of a success |
| `UsageReport.ClampsMean` | internal/usage/usage.go:101-114 | a malformed split is cut, the reads to the input and the writes to what they leave |
| `UsageReport.PriceMeans` | internal/usage/usage.go:254-269 | the price is that of the model or of its longest priced prefix, and none only if there is neither |
| `Cost.PricingAddsIff` | internal/usage/usage.go:101-124 | for any two splits the price of the sum is the sum of prices, whatever the price, exactly when clamping keeps what is charged at the cache rates; for counts that are not negative, exactly when both or neither claim more reads than input, and more reads and writes than input |
| `Cost.MalformedSplitExample` | internal/usage/usage.go:101-124 | a split with more cache tokens than input, and a sum with it that is not priced as its parts |
| `Cost.CostsAddUp` | internal/usage/usage.go:232-277 | costs re-derived from per-model aggregates are the sum of event costs, reported costs and request fees included, plus the drift of events without a model |
| `Cost.NoDrift` | internal/usage/usage.go:297 | the drift of a log is zero when every event names its model, or when "" and "unknown" are charged at the same rates |
| `Cost.NoDriftIff` | internal/usage/usage.go:297 | for fixed prices no event drifts exactly when "unknown" and "" have the same input, output, cache-read and cache-write rates |
| `Cost.DriftExample` | internal/usage/usage.go:297 | a price for "unknown" and an event without a model that drifts by it |
| `Tracker.UsageTracker.Record` | internal/usage/usage.go:280-345 | after any events every all-time and hourly aggregate is the fold of the log it should be |
| `Tracker.UsageTracker.PruneBuckets` | internal/usage/usage.go:349-371 | exactly the hours before the retention cutoff are dropped, from all four tables |
| `Tracker.Pruned` | internal/usage/usage.go:349-371 | pruned tables are right for the later horizon |
| `Tracker.KeptHoursSuffice` | internal/usage/usage.go:448-470 | the hours kept since a cutoff inside retention hold every event since it, so pruning is never visible |
| `Tracker.UsageTracker.Snapshot` | internal/usage/usage.go:397-433 | every figure is the fold of the whole log |
| `Tracker.UsageTracker.SnapshotWindow` | internal/usage/usage.go:439-515 | every figure, total, per credential, per model and per client, is the fold of exactly the events whose hour starts at or after the cutoff |
| `UsageReport.HourStarts` | internal/usage/usage.go:291 | an event is filed under the one multiple of 3600 seconds that begins the hour it falls in |
| `UsageReport.ReportMeans` | internal/usage/usage.go:439-515 | by the clock alone: each figure of a report is the plain sum over the events whose hour begins inside the window, with one line for every credential, model and client among them |
| `UsageReport.ReportCosts` | internal/usage/usage.go:439-515 | the total cost is the plain sum of the costs of those events, and their drift |
| `Tracker.SumWindowedBuckets` | internal/usage/usage.go:519-530 | summing hourly tables of the window in any order gives the tallies of its events |
| `Tracker.ReportAddsUp` | internal/usage/usage.go:439-515 | in every report totals equal the sum by credential and by model, and each client's the sum over its models |
| `Tracker.ReportCostsAddUp` | internal/usage/usage.go:400-405 | the total cost is the sum of event costs, and each client's that of its own events, up to the drift |
| `Billing.FoldedUsageIsWellFormed` | internal/server/server.go:1508-1513 | an event built from any sequence of usage objects has the well-formed split exact pricing needs |
| `Billing.AnthropicEventMeans` | internal/server/server.go:1508-1513 | what is billed for a streamed response: its credential and model, the last positive output and cache counts, and as input the fresh input plus both |
| `Billing.StreamsAreBilledExactly` | internal/usage/usage.go:568-588 | reports over streamed responses bill exactly the sum of their costs, in all and per client, with no drift |
| `RequestLog.RingIsTail` | internal/usage/reqlog.go:67-106 | after any run the ring is the last min(n, cap) events of the full log, numbered consecutively, with every annotation |
| `RequestLog.LogTells` | internal/usage/reqlog.go:67-106 | after any run event n has the fields it was recorded with, the last status and message noted, shortened to 512, and is an error if it was recorded as one or a status of 400 or more was noted |
| `RequestLog.NewestMeans` | internal/usage/reqlog.go:48-62 | a filter takes, newest first, exactly the events that have every field it names and are errors if it asks for them |
| `RequestLog.PagesConcatenate` | internal/usage/reqlog.go:120-140 | consecutive pages put together are the whole filtered list |
| `RequestLog.AnswersAsDocumentedIff` | internal/usage/reqlog.go:115-140 | the documented answer is given exactly for limits from 0 to what one allocation holds; any other limit panics |
| `RequestLog.OversizedPagePanics` | internal/usage/reqlog.go:120-140 | a limit of 2^62 and one of -1 panic even on an empty log, where an empty page is documented |
| `RequestLog.Log.RecordRequest` | internal/usage/reqlog.go:67-82 | appending and compacting in place is one step of the ring, and the number returned is the event's |
| `RequestLog.Log.AnnotateRequest` | internal/usage/reqlog.go:87-106 | only the event with that number changes, if it is still there |
| `RequestLog.Log.RecentRequests` | internal/usage/reqlog.go:120-140 | the page is the offset/limit slice of the matches, newest first, and the total does not depend on it; it panics exactly when the limit is negative or larger than one allocation holds |
| `ModelBlock.LeftmostIsEnough` | internal/modelblock/modelblock.go:238-244 | taking a part at its leftmost place never loses a match |
| `ModelBlock.MatchesIffFits` | internal/modelblock/modelblock.go:231-246 | some filling of the stars gives the string exactly when the parts fit into it in order |
| `ModelBlock.Glob` | internal/modelblock/modelblock.go:231-246 | the greedy loop answers true exactly when some filling of the stars turns the pattern into the string |
| `ModelBlock.PrefixIsStar` | internal/modelblock/modelblock.go:217-227 | a prefix test is the mask with a star after it |
| `ModelBlock.CoversMeans` | internal/modelblock/modelblock.go:217-227 | a mask without a star covers exactly its own id and what continues it after a dash; an empty mask or id nothing |
| `ModelBlock.Match` | internal/modelblock/modelblock.go:217-227 | a mask without a star covers the exact id and its "-" variants; with one, what its glob means |
| `ModelBlock.List.Blocked` | internal/modelblock/modelblock.go:189-211 | some mask covers some name, and the mask returned is the first in order of names, then config before operator masks |
| `Sse.CutResumes` | internal/server/server.go:2735-2748 | cutting a stream into lines may be resumed from the unterminated rest |
| `Sse.PayloadMeans` | internal/server/server.go:2758-2766 | a line bears usage exactly when it is a data line of at most a megabyte that spells a usage that is not null; the payload is what follows data: |
| `Sse.UsageScanner.AppendLine` | internal/server/server.go:2750-2756 | a line past the limit is marked and not grown |
| `Sse.UsageScanner.EndLine` | internal/server/server.go:2758-2766 | the payload of a usage-bearing line replaces the last one, any other line leaves it |
| `Sse.UsageScanner.Write` | internal/server/server.go:2735-2748 | after any writes the fields say what all bytes seen so far call for |
| `Sse.UsageScanner.GetUsage` | internal/server/server.go:2770-2778 | the usage is that of the last usage-bearing line of everything written |
| `Sse.ScanChunks` | internal/server/server.go:2735-2778 | however a stream is cut into writes, the usage is that of the whole stream |
| `Sse.FinalNewlineIsOptional` | internal/server/server.go:2768-2778 | a missing final newline makes no difference |
| `SseFilter.EventsOfStripped` | internal/server/server.go:2561-2592 | the stripped stream is cut into exactly the kept events |
| `SseFilter.EventsEndAtBlanks` | internal/server/server.go:2561-2592 | an event runs up to its first blank line, and only the last one may do without |
| `SseFilter.UsageOnlyMeans` | internal/server/server.go:2578-2583 | a line costs its event the place exactly when it is a data line whose payload is a usage-only chunk |
| `SseFilter.StripIsIdempotent` | internal/server/server.go:2561-2592 | stripping twice is stripping once |
| `SseFilter.StripIsIdentityWithoutUsageChunks` | internal/server/server.go:2561-2592 | without usage-only chunks nothing changes, byte for byte, and afterwards there are none |
| `SseFilter.TeeReader.ReadBytes` | internal/server/server.go:2576-2578 | a line up to its newline or the rest, and whatever was read from upstream has been shown to the scanner |
| `SseFilter.StreamCopyWithoutUsageChunks` | internal/server/server.go:2561-2592 | the writes are the kept events in order, up to a failing one, and all bytes are scanned unless the client has gone |
| `SseFilter.StreamCopy` | internal/server/server.go:2540-2555 | the writes are the reads, up to a failing one |
| `SseFilter.Relay` | internal/server/server.go:2643-2651 | recorded usage is that of the whole upstream stream, stripped or not and however it was cut |
| `AnthropicStream.LastPositiveAppend` | internal/translator/stream.go:54-74 | a positive value replaces what was seen, anything else leaves it |
| `AnthropicStream.Usage.Add` | internal/translator/stream.go:58-74 | after any sequence each count is the last positive one, and the input is fresh plus cache read plus cache write |
| `AnthropicEvents.FoldedMeans` | internal/translator/stream.go:58-74 | output, cache reads and cache writes are the last positive ones reported, and input less both is the last positive fresh input |
| `AnthropicEvents.ReportedMeans` | internal/translator/stream.go:180-238 | usage is taken from message starts and message deltas, in order, and from nothing else |
| `AnthropicEvents.EventMeans` | internal/translator/stream.go:180-238 | what is sent for each kind of event and what is kept from it |
| `AnthropicEvents.ChunksAreNamed` | internal/translator/stream.go:124-184 | from a message on every chunk carries its id and model until another one starts |
| `AnthropicEvents.OutputSplits` | internal/translator/stream.go:113-245 | what is written for the first events does not depend on the later ones |
| `AnthropicStream.Finishing` | internal/translator/translator.go:37-50 | the finish reason given is never empty; tool_calls and length come from tool_use and max_tokens alone |
| `AnthropicStream.CallsReceived` | internal/translator/stream.go:192-229 | from any state the client ends with each call's own fragments, until its block index is taken over |
| `AnthropicStream.ClientGathers` | internal/translator/stream.go:113-245 | a client gets every tool call with its id, name and own fragments in order, the text deltas in order, the role once, one finish reason and one `[DONE]` |
| `AnthropicStream.OutputShape` | internal/translator/stream.go:113-245 | finish and `[DONE]` come last and nowhere else, and tool calls are numbered 0, 1, 2 as they open |
| `AnthropicStream.StreamAnthropicToOpenAI` | internal/translator/stream.go:113-245 | the loop writes that output, up to a failing write, and returns the fold of every usage object up to message_stop |
| `Gemini.CallNameRecovers` | internal/translator/gemini.go:454-470 | the name comes back from its id, underscores and all |
| `Gemini.CallNameIs` | internal/translator/gemini.go:460-470 | a name is read from exactly the ids call_X_name where X has no underscore |
| `Gemini.CallIdsDiffer` | internal/translator/gemini.go:454-456 | ids are equal only for the same index and name |
| `Gemini.GeminiToOpenAI` | internal/translator/gemini.go:226-273 | the loop gathers all text and calls, and the content is null exactly when there are calls and no text |
| `Gemini.WholeFinishMeans` | internal/translator/gemini.go:246-289 | length, content_filter, tool_calls and no reason at all are given for exactly the candidates that call for them |
| `Gemini.EmitParts` | internal/translator/gemini.go:366-392 | the inner loop writes each part's text and then its call, up to a failing write |
| `Gemini.StreamGeminiToOpenAI` | internal/translator/gemini.go:301-402 | the loop writes the output of its events, up to a failing write |
| `Gemini.StreamAgreesWithWhole` | internal/translator/gemini.go:226-402 | text and calls of the stream equal those of one response with everything; finish reasons agree exactly when some chunk gave one or there was a call |
| `GeminiCalls.WholeMessageMeans` | internal/translator/gemini.go:226-273 | the i-th call is the i-th part with one: its name, an id of index and name, and its own arguments, {} standing for none; the content is the texts of all parts |
| `GeminiCalls.StreamedMessageMeans` | internal/translator/gemini.go:301-402 | so it is for what a client of the stream has gathered, finished or broken off |
| `GeminiCalls.EventsMean` | internal/translator/gemini.go:366-396 | the parts and the last reason of a stream are those of the first candidate of every reply |
| `GeminiCalls.ChunksAreLabelled` | internal/translator/gemini.go:301-320 | every chunk names the model asked for |
| `GeminiCalls.RoleComesFirst` | internal/translator/gemini.go:360-365 | the first chunk is the role, as soon as there is a reply |
| `GeminiCalls.StreamEndsOnce` | internal/translator/gemini.go:323-402 | the finish chunk and `[DONE]` come last and nowhere else, and a broken stream has neither |
| `GeminiCalls.StreamFinishMeans` | internal/translator/gemini.go:323-343 | which finish reason a stream gives for which last reason and calls |
| `Gemini.BrokenStreamHasNoEnd` | internal/translator/gemini.go:398-401 | when reading breaks off the text and calls so far stand, and no end is sent |
| `Limits.Key.MaybeReset` | internal/access/limits.go:102-116 | exactly the windows that have elapsed start anew, with zero counters |
| `Limits.Key.Admit` | internal/access/limits.go:145-169 | budget before requests before tokens; only an allowed request is counted |
| `Limits.Key.Charge` | internal/access/limits.go:173-190 | positive amounts are added to the current windows; a charge of nothing does nothing |
| `Limits.ResetMeans` | internal/access/limits.go:102-116 | a window that has run its length starts over with nothing spent, and any other goes on |
| `Limits.DecideMeans` | internal/access/limits.go:145-169 | a request is denied for the budget or the rate exactly when what a running window holds has reached the limit |
| `Limits.WindowsComeToAnEnd` | internal/access/limits.go:102-169 | once both windows have run their length a request is let in, whatever was spent |
| `LimitsHistory.CountersTell` | internal/access/limits.go:102-190 | after any run the counters are the costs and tokens charged and the requests let in since their window began; a key without limits counts nothing |
| `Limits.RequestsAreBounded` | internal/access/limits.go:102-169 | over any run a window admits at most MaxRequests, and any interval as long as a window at most twice that |
| `Limits.TwiceIsReached` | internal/access/limits.go:102-169 | twice is reached for every request limit and every window of at least two instants |
| `Limits.SpendingIsBounded` | internal/access/limits.go:145-190 | with at most k requests in flight a window's cost stays below the limit plus k times the largest charge, and so do tokens; k is one for a client that waits |
| `CacheMarkers.NewestAreMarked` | internal/provider/anthropic/cache.go:200-225 | exactly the newest n messages in block form are marked, and a null block among those reached panics |
| `CacheMarkers.MarkMessagesLastBlocks` | internal/provider/anthropic/cache.go:200-225 | the backward loop marks those messages and counts them |
| `CacheMarkers.InjectCacheBreakpoints` | internal/provider/anthropic/cache.go:73-140 | the stages with their gates and the placed counter give that injection |
| `CacheMarkers.InjectAddsOnlyMarkers` | internal/provider/anthropic/cache.go:73-140 | the result is the request plus plain markers at exactly the places the gates and the strategy call for, within the budget of at most four; without them it is the request, a marked system string being a block |
| `CacheMarkers.MessageMarkers` | internal/provider/anthropic/cache.go:112-225 | the messages get as many markers as can take one, when the gate is open and up to none for conservative, one for moderate, what is left of four for aggressive and of three otherwise; and exactly when these are more than two |
| `CacheMarkers.SystemTextSurvives` | internal/provider/anthropic/cache.go:157-175 | a system string stays as it is or, exactly if its gate is open and it is not empty, is the text of one marked text block |
| `CacheMarkers.UndoGivesBack` | internal/provider/anthropic/cache.go:73-140 | erasing the markers and unwrapping a one-block system gives back the request |
| `CacheMarkers.GatesMean` | internal/provider/anthropic/cache.go:94-135 | the three gates compare the estimated size of the tools, with the system, and with the messages, to the minimum |
| `CacheMarkers.InjectIsIdempotent` | internal/provider/anthropic/cache.go:73-84 | a request that mentions a marker is returned untouched, and twice is once |
| `CacheMarkers.InjectPanicsOnNull` | internal/provider/anthropic/cache.go:262-273 | it panics exactly when a null stands where a marker would go |
| `Cloak.ParseEncoded` | internal/provider/anthropic/spoof.go:237-261 | encoded blocks parse back to the same blocks |
| `Cloak.EncodedIs` | internal/provider/anthropic/spoof.go:237-261 | a block is written with its type, its text unless it is empty, its marker, and nothing else |
| `Cloak.ParseMeans` | internal/provider/anthropic/spoof.go:237-261 | which values are read as a system block, and its type, text and marker: members that are absent or null read as nothing, any other type of value is an error |
| `Cloak.ParseSystemMeans` | internal/provider/anthropic/spoof.go:243-261 | null and the empty string are no blocks, another string is one text block, a list is read block by block, anything else is an error |
| `Cloak.BlankMeans` | internal/provider/anthropic/spoof.go:118-120 | a text is passed over for being blank exactly when all its characters are white space |
| `Cloak.CloakIsIdempotent` | internal/provider/anthropic/spoof.go:100-168 | cloaking a cloaked request changes nothing |
| `Cloak.CloakKeepsContent` | internal/provider/anthropic/spoof.go:100-235 | the system is the agent prompt alone, the first user message's old content follows the reminder with the last marker, or without such a message the texts stay as a second block; nothing else changes |
| `Cloak.TextSurvives` | internal/provider/anthropic/spoof.go:107-147 | every text block that is not blank and not the agent prompt is in the reminder verbatim |
| `Cloak.TextsKeepOrder` | internal/provider/anthropic/spoof.go:107-147 | and in the order of the blocks, without overlap |
| `Cloak.NoTextIsLostIff` | internal/provider/anthropic/spoof.go:107-147 | the texts moved are all the raw texts worth keeping exactly when the blocks that have them are of type text |
| `Cloak.LastMarkerTravels` | internal/provider/anthropic/spoof.go:121-136 | the marker moved is that of the last relocated block that carries one |
| `Cloak.NoMarkerIsLostIff` | internal/provider/anthropic/spoof.go:121-136 | no marker is lost exactly when at most one block carries any, and that block is relocated |
| `Cloak.OtherFieldsAreLost` | internal/provider/anthropic/spoof.go:237-261 | the result is that for the blocks as read, which are the blocks themselves exactly when they hold a type, a text that is not empty and a marker at most |
| `Cloak.DocumentIsLost` | internal/provider/anthropic/spoof.go:107-147 | a document block leaves the agent prompt alone in its place |
| `Cloak.FirstOfTwoMarkersIsLost` | internal/provider/anthropic/spoof.go:121-136 | of two marked text blocks only the second one's marker travels |
| `Cloak.CloakSucceeds` | internal/provider/anthropic/spoof.go:100-261 | on an object it succeeds exactly when the system parses and, if there is text to move, no malformed message comes before the first user message and that one's content is null, a string or an array |
| `Cloak.FirstUserIs` | internal/provider/anthropic/spoof.go:174-209 | the host is the first message whose role is user |
| `Cloak.PrependHosts` | internal/provider/anthropic/spoof.go:215-235 | string, null and block contents can host, and all their old content follows |
| `Cloak.PrependToFirstUserMessage` | internal/provider/anthropic/spoof.go:174-209 | the loop finds that message and changes it alone |
| `Cloak.CloakClaudeCode` | internal/provider/anthropic/spoof.go:100-168 | the loop over the blocks and the two ways out give that rewrite |
| `Cloak.InjectKeepsBlocks` | internal/provider/anthropic/spoof.go:57-85 | the lighter rewrite puts the agent block first, keeps the caller's blocks as parsed, and is idempotent |

## Left out

- HTTP handlers, routing, headers, dashboards, metrics and logging, and with them the queue metrics of `acquire`.
- OAuth login flows, TLS, name resolution and image polling.
- Persistence: files, YAML and JSON syntax, and `Load`/`Save`; duplicate or differently cased JSON keys and a `cache_control` key spelled with escapes are below the level of parsed values.
- `Cooldown`, `SetEnabled`, `SetHealth` and `UpdateOAuth` of the store: not on the rotation or refresh path; as free steps they would break the back-off and refresh runs.
- Integer widths: counters and tokens do not wrap, and the generation is not a 64-bit number that starts over.
- Float rounding of costs, clocks that run backwards, changes of prices or limits in the middle of a run.
- Legacy usage files without hourly breakdowns, the order and the time series of reports, and `ClientUsage`.
- Period names of limits: a window is given by its length, 0 for a name that is not recognised; `find` by key name and `SetLimits`.
- Blocklist entries being added, removed and saved; `Match` and `Blocked` take the trimming and lower-casing of names as a parameter.
- Request translation (`OpenAIToGemini`, tool choice, JSON mode) and the choice of a rewrite by model name: case tables settled by reading the branches.
- Chunk fields that never vary (object, created, choice index) and flushing.
- Limits on the length of one line in the translators: a longer line is a reading error like any other.
- Cost.TokenCostAdds: does not cover cache splits with more cache tokens than input, for which pricing need not be additive (Cost.PricingAddsIff says exactly when it is).
- Rotation.ServesIffSomeoneCan: assumes the client stays and losses are penalized; Rotation.TriedAreFirstCandidates covers a client that goes away, and Rotation.UnpenalizedLossesRepeat losses that are not penalized.
- HostGate.SendHosts: one call takes its answers in sequence; interleaving with other calls is the step machine's part.
