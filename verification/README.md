# ClinePassBridge: verified models of its stateful cores

ClinePassBridge is a plugin that forwards chat requests to an upstream service. This project models
the parts of `internal/bridge` whose promises are about whole runs or about every input, and proves
those promises. Each component has a specification on values (states, steps, runs) with its theorems,
and, where the program updates objects in place, classes and loops in the program's own form whose
methods are proved to compute exactly those steps.

* **Request log** (`BackoffLog`, `SuppressedRows`, `RequestLogStore`, `LineCodecs`, `RequestLogRecovery`,
  `RequestLogLimits`, `UnloadedLog`, `UnloadedExamples`, `RequestLogService`): rows are
  merged, compacted and cut to a retention; each change is a numbered journal line, and a snapshot now
  and then replaces the journal. The disk is a snapshot, a journal of characters and a legacy file. Every
  file operation can succeed, fail with any part of its effect, or be the last thing the process does.
* **Rate limiter** (`RateLimits`, `RateAdmissions`, `RateLimiterObjects`): windows with deadline, epoch and a
  probe slot; leases end late, out of order and more than once.
* **Egress pool** (`EgressGroups`, `EgressPool`, `EgressPoolRuns`, `EgressAdmissions`): a rolling minute of
  reservations, bodies in flight, refunds, cooldowns and live limit edits.
* **Server tools** (`ModelPatterns`, `ServerTools`, `ServerToolEdits`, `ServerToolRequests`,
  `ServerToolService`): the wildcard matcher, and the rewriting of rules that an edit of one model causes.
* **Event streams** (`SseFrames`, `SseEvents`, `SseDecoder`): incremental decoding of the subset of server-sent events
  the program handles (sections 9.2.5 and 9.2.6 of the HTML Living Standard: `data` and `event` fields,
  lines ending in LF or CRLF).
* **Quota estimates** (`EstimateLedger`, `EstimateRuns`, `EstimateReadings`, `EstimateService`): counters per
  key, windows per account, samples between two quota readings. Charges are numbered so that "counted once" can be said.
* **Quota blocks** (`QuotaBlocks`, `QuotaState`, `QuotaRuns`, `QuotaHistories`, `QuotaRecovery`,
  `QuotaObservations`, `QuotaEndings`, `QuotaExamples`, `QuotaService`): blocks that merge over an
  account, are published in memory before they are written, and end on a qualifying sample only.
* **Stream watchdog** (`StreamWatchdog`, `StreamWatchdogObject`): a consumer and a timer under one lock,
  one step for each stretch under the lock and each call outside it.
* **Re-registration** (`AffinityRuns`, `AffinityReset`): two write phases with rollback, with outsiders
  editing files in between.
* **Price schedule** (`PricingSchedule`, `PriceCalendar`): time-of-use prices sampled hour by hour.

Times are whole nanoseconds, money is whole micro-units (the price schedule uses reals) and percentages
are reals. Hashes are injective and identifiers fresh. Characters stand for Unicode code points in text
and bytes are numbers below 256.

## Findings

Some promises do not hold for every input. Each is proved on exactly the inputs where it holds, and
each failing family has an input that shows it.

* A window identifier that reads like a legacy label (`legacy:` and a time) can make a merged log row lose
  its merge key. Then the next load stops with a missing merge target, and compacting twice differs from
  compacting once. Conditions: `RequestLogStore.ReplayRefinesAppend`, `BackoffLog.CompactIsNormal`,
  `BackoffLog.CompactTwice`, `BackoffLog.CompactSummarizes`, `BackoffLog.CompactKeepsUnkeyed`. Inputs:
  `RequestLogStore.DriftBreaksReplay`, `BackoffLog.DriftBreaksCompaction`.
* A process whose start fails before its log is loaded is left running with an empty log and still logs
  requests. Rows on disk survive one that is logged without an error if and only if: no snapshot is due,
  and the journal up to where the process takes its end to be reads the same newest rows and stops at the
  process's sequence number, or reads the same rows and goes past it; or a snapshot is due, and there were
  no rows or one is kept (`UnloadedLog.UnloadedSurviveIff`). For a new process that depends on what the
  journal adds to its base (`UnloadedLog.BareSurviveIff`). For an instance that was quiesced in any run it
  depends on whether a snapshot is due; and if none is, the rows survive but the next load reads other rows
  than the instance has, unless there were none or one is kept (`UnloadedLog.InstanceSurviveIff`).
  Inputs: `UnloadedExamples.BareLosesRow`, `UnloadedExamples.InstanceLosesRow`. A start that fails in the load makes
  the next request cut the journal there: `UnloadedLog.FailedLoadIsCut`.
* The wildcard matcher compares literally before it looks for `*`, so a model name that contains `*` can be
  refused by a pattern that matches it: `ModelPatterns.GlobIsExact`; input `ModelPatterns.StarInModel`.
* Rewriting rules keeps every request as it was only when the keys of offered tools tell their kinds apart,
  which a NUL character inside a tool type can spoil: `ServerToolEdits.FlattenPreservesRequests`; input
  `ServerToolEdits.NulConfusesKeys`.
* Saving a selection can end with an error after the new rules are in force. They are in force exactly if
  the selection is valid and the settings were written, whatever error follows
  (`ServerToolEdits.SaveTakesEffectIff`): `ServerToolService.ToolService.SaveModelServerTools`,
  `ServerToolEdits.EditTouchesOneModel`; input `ServerToolEdits.ErrorAfterCommit`.
* A payload line that ends in CR does not survive the event stream, and a payload framed whole does not
  survive an LF: `SseFrames.RoundTrip`, `SseFrames.WholeRoundTrip`; inputs `SseFrames.ReturnIsLost`,
  `SseFrames.NewlineIsLost`.
* A write that ends a block, planned while a credential was not blocked, also ends a block that a watcher
  read brought in meanwhile: `QuotaRuns.WriteEndsBlockIff`; run from a start `QuotaExamples.LostBlock`. Blocks
  the program sets itself are safe from this: `QuotaHistories.AccountStaysBlocked`.
* A block without a revision of the program's goes when content without one is read for it:
  `QuotaRuns.ReadEndsBlockIff`; run from a start `QuotaExamples.UnmarkedBlockIsReadAway`.
* A watcher read of older content, when it cannot be resolved to the file, brings back an older choice of
  the operator's switch: `QuotaHistories.ReadKeepsSwitchIff`; run from a start
  `QuotaExamples.StaleReadFlipsSwitch`.

## Model

| member | source | states |
|---|---|---|
| BackoffLog.MergeBackoffLog | internal/bridge/observability.go:112-143 | merging in place gives the specified rows and says whether a row with the same key was found, searching from the newest |
| BackoffLog.CompactBackoffLogs | internal/bridge/observability.go:145-152 | the loop computes the specified compaction |
| BackoffLog.MergeKeepsKey | internal/bridge/observability.go:83-96 | a merged row keeps its key if and only if its window label does not drift |
| BackoffLog.LabelDriftExample | internal/bridge/observability.go:87-91 | two rows of one key whose merger has another key |
| BackoffLog.MergeConservesTotal | internal/bridge/observability.go:129-142 | merging adds exactly the new row's request count |
| BackoffLog.CompactConservesTotal | internal/bridge/observability.go:145-152 | compaction keeps the total number of requests, for every list |
| BackoffLog.CompactIsNormal | internal/bridge/observability.go:145-152 | compaction leaves each key once, at the end and at every step towards it, if and only if no fold collides |
| BackoffLog.CompactTwice | internal/bridge/observability.go:145-152 | for every list compacting again changes nothing if and only if each key is left once, as it is where no fold collides |
| BackoffLog.DriftBreaksCompaction | internal/bridge/observability.go:125-128 | a list whose compaction ends with two rows of one key |
| BackoffLog.PlainRowsDoNotDrift | internal/bridge/observability.go:87-91 | window identifiers that are not legacy labels never make a row change its key |
| BackoffLog.CompactSummarizes | internal/bridge/observability.go:112-152 | where no fold drifts a compacted row has the first member's identifier, the hull of its members' times, their total count, and the error, retry instant and request identifier of the one that ended last; every key keeps a row at every step if and only if no fold drifts |
| BackoffLog.CompactKeepsUnkeyed | internal/bridge/observability.go:112-152 | rows without a key are never merged, keep their order and get no company, if and only if no fold leaves a row without its key |
| SuppressedRows.MergedIff | internal/bridge/observability.go:83-124 | a request joins a row if and only if the log has one held back for the same credential, model and route in the same window: equal identifiers, or none and equal retry instants, or an identifier that reads like the label of the other |
| SuppressedRows.JoinsNewest | internal/bridge/observability.go:112-138 | it joins the newest such row, which goes to the end with both counts, the hull of the times and the outcome of whichever ended last |
| SuppressedRows.StaysAlone | internal/bridge/observability.go:139-142 | any other request gets a row of its own at the end |
| SuppressedRows.OneRowPerWindow | internal/bridge/observability.go:83-152 | however many requests were held back in one window of the limiter, compaction leaves one row that counts them all |
| RequestLogStore.LoadIsReplay | internal/bridge/request_log_store.go:80-111 | reading the journal's characters, with any torn tail, is replaying its complete lines |
| LineCodecs.LosslessExists | internal/bridge/request_log_store.go:21-27 | there is a codec of events into lines that loses nothing, as the theorems about the journal ask of the program's |
| RequestLogStore.CutLines | internal/bridge/request_log_store.go:83-87 | a journal cut anywhere is a prefix of its lines and a tail without line end |
| RequestLogStore.ReplayOverNewerBase | internal/bridge/request_log_store.go:99-109 | lines older than the snapshot are skipped without error |
| RequestLogStore.ReplayRefinesAppend | internal/bridge/service.go:497-502 | the queued event rebuilds the live rows if and only if the merged row keeps its key (for rows within the retention) |
| RequestLogStore.PlainRowsReplay | internal/bridge/request_log_store.go:118-131 | among rows whose window identifiers are not legacy labels a merged event finds its row and rebuilds the live ones |
| RequestLogStore.DriftBreaksReplay | internal/bridge/request_log_store.go:128-130 | a row list and a request after which the load reports a missing merge target |
| RequestLogRecovery.WriteKeepsReading | internal/bridge/request_log_store.go:186-224 | after a journal append that succeeds, fails or dies anywhere, a load reads a prefix of history no shorter than before |
| RequestLogRecovery.CompactKeepsReading | internal/bridge/request_log_store.go:226-270 | the same for a snapshot, between any two of its file operations |
| RequestLogRecovery.FlushKeepsReading | internal/bridge/request_log_store.go:156-184 | the same for a whole flush, and a flush without error makes everything so far durable |
| RequestLogRecovery.NextKeepsInv | internal/bridge/service.go:176-205 | every step of a run (start, start that fails after the load, reconfigure, append, timer, quiesce, kill) keeps the disk readable and memory in step with it |
| RequestLogRecovery.EveryCrashRecovers | internal/bridge/request_log_store.go:43-270 | at every point of every run whose appends keep their keys a load succeeds and rebuilds the live rows of some sequence number no older than the last durable one |
| UnloadedLog.UnloadedSurviveIff | internal/bridge/service.go:175-189 | a process with an empty log, whatever its counters and whatever is on disk, logs a request without an error: exactly when a load still reads the earlier rows, and exactly when it reads the row the process has |
| UnloadedLog.BareSurviveIff | internal/bridge/service.go:186-189 | the same for a new process, by the base and what the journal adds to it |
| UnloadedLog.InstanceSurviveIff | internal/bridge/service.go:175-189 | the same for an instance quiesced in any run: earlier rows survive if and only if logging does not end in a snapshot, or there were none, or one is kept |
| UnloadedExamples.BareLosesRow | internal/bridge/service.go:186-189 | a disk with one logged request, which a new process that failed to start replaces by its own |
| UnloadedExamples.InstanceLosesRow | internal/bridge/request_log_store.go:162-164 | a run from a start: a durable row, a later one that cannot be written, quiescing that cannot either, and a failed restart; the next request replaces all of it |
| UnloadedLog.AnyOutcomeReads | internal/bridge/request_log_store.go:156-270 | whatever becomes of the request (success, failure, death, waiting) a load reads what it did before, or the journal up to the process's end of it, or that and the line, or a stage of a snapshot |
| UnloadedLog.LineReads | internal/bridge/request_log_store.go:201-210 | a line written anywhere over a journal: the lines before are read, and then the new one behind whatever it was torn from |
| UnloadedLog.ReadSoFarIsCut | internal/bridge/request_log_store.go:80-111 | a load that fails stops at a line end and holds what the journal reads when cut there, unless the failing line cleared it |
| UnloadedLog.FailedLoadIsCut | internal/bridge/request_log_store.go:201-210 | the next request after a failed load cuts the journal before the line that failed; from then on a load reads the rows the process has, if the row keeps its key |
| RequestLogService.RequestLog.LoadRequestLogs | internal/bridge/request_log_store.go:43-79 | loading gives the specified rows and counters, or the specified error with what was read until then |
| RequestLogService.RequestLog.ReplayJournal | internal/bridge/request_log_store.go:80-111 | the reading loop is the specified replay of the file |
| RequestLogService.RequestLog.ApplyEvent | internal/bridge/request_log_store.go:113-139 | one event, its merge target removed and the retention applied |
| RequestLogService.RequestLog.QueueRequestLog | internal/bridge/request_log_store.go:141-152 | the sequence advances and, unless a snapshot is needed, the event is pending |
| RequestLogService.RequestLog.WriteRequestJournal | internal/bridge/request_log_store.go:186-224 | each outcome of an append is one the recovery theorem allows |
| RequestLogService.RequestLog.CompactRequestLogs | internal/bridge/request_log_store.go:226-270 | each outcome of a snapshot is one the recovery theorem allows |
| RequestLogService.RequestLog.FlushRequestLogs | internal/bridge/request_log_store.go:156-184 | the choice between append, snapshot and waiting, and the fall back to snapshot recovery |
| RequestLogService.RequestLog.AppendLog | internal/bridge/service.go:478-509 | a finished request is merged or appended, cut to the retention, queued and flushed |
| RequestLogService.RequestLog.Configure | internal/bridge/service.go:175-205 | loading, compaction and a lowered retention; and what memory is left with when the start fails before, in or after the load |
| RequestLogLimits.EventIs | internal/bridge/request_log_store.go:113-139 | replaying an event fails if and only if it replaces a row and none is like its own; otherwise what the rows are then, told from the fields of the rows |
| RequestLogLimits.OrderIsChecked | internal/bridge/request_log_store.go:93-109 | a load takes only a journal whose numbers rise, with none left out beyond the base, and valid retentions; such a journal can only lack a row to be replaced |
| RequestLogLimits.AppendKeepsNewest | internal/bridge/service.go:497-502 | logging keeps the newest rows, as many as the retention allows |
| RequestLogLimits.ReplayCounts | internal/bridge/request_log_store.go:96-109 | the events a load counts are those its sequence number advances by |
| RequestLogLimits.FlushIsModerate | internal/bridge/request_log_store.go:156-184 | after a flush without error nothing is pending and the journal is under 64 MiB and, from 1024 events on, smaller than a snapshot |
| RequestLogLimits.SnapshotIsDue | internal/bridge/request_log_store.go:165-173 | a snapshot is written only if one was needed or the journal would not stay so |
| RequestLogLimits.FailureWaits | internal/bridge/request_log_store.go:174-181 | a failed flush asks for a snapshot in two seconds |
| RequestLogLimits.WaitingTouchesNothing | internal/bridge/request_log_store.go:141-164 | until then logging writes nothing and piles nothing up |
| RequestLogLimits.RecoversOnceDue | internal/bridge/request_log_store.go:156-184 | from then on, or at once when the service stops, the next flush does try, and if it succeeds all rows are in one snapshot |
| RequestLogLimits.RateIff | internal/bridge/observability.go:43-57 | an output rate is known exactly for sent requests with output and time behind the first token, and accounts for all tokens over that time |
| RateLimits.DeadlineStays | internal/bridge/rate_limit.go:43-115 | a recorded deadline keeps a window that enforces it through every step but a reset of its credential |
| RateLimits.LimitIsEnforced | internal/bridge/rate_limit.go:43-115 | once a limit is recorded for a key every later acquire before its deadline is refused, over any run without an operator reset of the key's credential |
| RateLimits.OneProbePerKey | internal/bridge/rate_limit.go:63-76 | in every reachable state a key has at most one unfinished probe |
| RateLimits.SuccessRemovesIff | internal/bridge/rate_limit.go:102-107 | a success removes the window if and only if it is the current probe's and no limit was recorded since its admission |
| RateLimits.SecondFinishIsSilent | internal/bridge/rate_limit.go:79-115 | finishing a lease again without a new limit changes nothing |
| RateAdmissions.AdmittedIff | internal/bridge/rate_limit.go:43-77 | over every run, told from limits, retreats, resets and probes alone: a request is admitted if and only if nothing stands against its key any more and no probe of it is under way; it is a probe exactly when a limit has passed and is not forgotten; a refusal names the limit, or a second from now while a probe runs |
| RateAdmissions.UnlimitedIsAdmitted | internal/bridge/rate_limit.go:58-62 | over every run a key for which no limit was reported is always admitted |
| RateAdmissions.RequestEnds | internal/bridge/stream_error_details.go:103-118 | over every run, what the end of a request does to what stands against its key and any other |
| RateLimiterObjects.RateLimiter.Acquire | internal/bridge/rate_limit.go:43-77 | pruning, admission, refusal and probe slot, as specified |
| RateLimiterObjects.RateLimiter.Finish | internal/bridge/rate_limit.go:79-115 | the end of a lease, as specified |
| RateLimiterObjects.RateLimiter.FinishRequest | internal/bridge/stream_error_details.go:106-118 | a fault that proves nothing about the limit only frees the probe slot |
| RateLimiterObjects.RateLimiter.ResetSchedulingWindows | internal/bridge/scheduling_runtime.go:82-95 | a reset drops a credential's windows and reopens those being probed |
| EgressGroups.RoomFromAvailable | internal/bridge/egress_pool.go:196-202 | a group with a body to spare admits at a later time if and only if it is no earlier than the computed instant, also after a lowered rate |
| EgressGroups.SlotsAreConserved | internal/bridge/egress_pool.go:142-163 | bodies in flight are the unreleased leases, and the remembered reservations are exactly those of sent or unreleased leases |
| EgressGroups.SlidingWindow | internal/bridge/egress_pool.go:78-88 | in any minute at most as many sent leases were reserved as the highest rate they were admitted under |
| EgressPool.EgressGroup.PruneUsage | internal/bridge/egress_pool.go:78-88 | exactly the leading expired reservations go |
| EgressPool.EgressLease.Release | internal/bridge/egress_pool.go:142-163 | released once; an unsent lease takes back one reservation of its own time |
| EgressPool.EgressManager.Acquire | internal/bridge/egress_pool.go:186-217 | a scan admits the first candidate with room from the cursor on; it refuses only if none has room, with the earliest next instant |
| EgressPool.EgressManager.Apply | internal/bridge/egress_pool.go:60-71 | new limits reach groups in use |
| EgressPool.ReconfiguredGroup | internal/bridge/egress_pool.go:65-70 | limits change for exactly the configured groups and their history stays |
| EgressPool.EgressManager.CooldownGroup | internal/bridge/egress_transport.go:274-278 | a cooldown is only ever put off |
| EgressPoolRuns.NextKeepsInv | internal/bridge/egress_pool.go:60-217 | every scan, lease call and configuration leaves each group with a history made of its own leases |
| EgressPoolRuns.EveryGroupIsSound | internal/bridge/egress_pool.go:142-217 | over every run of the pool each group's bodies in flight are its unreleased leases, and its sent leases keep to the rate in every minute |
| EgressAdmissions.AdmittedIff | internal/bridge/egress_pool.go:186-216 | over every run an endpoint is given a lease only if its group has fewer bodies in flight than its limit, is past its cooldown and used less than its rate in the last minute, and only if no earlier one in turn is like that; a request is refused only if none is |
| EgressAdmissions.AdmissionIsWithin | internal/bridge/egress_pool.go:202-207 | over every run, right after an admission the group has at most as many bodies in flight as its limit |
| EgressAdmissions.BodiesStayWithin | internal/bridge/egress_pool.go:60-71 | between configurations it never has more than its limit or than it had |
| EgressAdmissions.RetryIsInTime | internal/bridge/egress_pool.go:197-218 | the instant a refusal names has come exactly when some endpoint that was not ready is, or after a second where one lacks a body |
| EgressAdmissions.CooldownIsEnforced | internal/bridge/egress_transport.go:274-278 | over every run a group that was cooled until some time admits nothing before |
| ModelPatterns.ModelPatternMatches | internal/bridge/server_tools.go:87-121 | the loop over positions decides as the specified scan; it ends because the resume point, then the wildcard, then the position advance |
| ModelPatterns.AcceptsIsSound | internal/bridge/server_tools.go:87-121 | a true answer is right for every pattern and model |
| ModelPatterns.ScanIsComplete | internal/bridge/server_tools.go:98-120 | going back only to the last wildcard loses no match if the model has no '*' before its last character |
| ModelPatterns.GlobIsExact | internal/bridge/server_tools.go:86-121 | every pattern is decided rightly for a model if and only if the model has no '*' before its last character or is one of two kinds of short runs |
| ModelPatterns.StarInModel | internal/bridge/server_tools.go:99-104 | the pattern a* refuses the model a*b |
| ServerToolEdits.ExactPattern | internal/bridge/server_tools.go:87-121 | a name without wildcards matches itself only |
| ServerToolEdits.OfferedFlat | internal/bridge/server_tools_management.go:73-101 | after the rewriting a configured model is offered exactly the tools chosen for it, and any other model none |
| ServerToolEdits.FlattenPreserves | internal/bridge/server_tools_management.go:69-101 | the rewriting leaves every configured model's resolved tools, in order, unchanged |
| ServerToolEdits.FlattenPreservesRequests | internal/bridge/server_tools.go:128-174 | it leaves what every request is given unchanged if and only if first tools of a key tell the reserved function of the later ones |
| ServerToolEdits.NulConfusesKeys | internal/bridge/server_tools.go:61-71 | a valid configuration and a request that the rewriting changes |
| ServerToolEdits.ResolvedDecides | internal/bridge/server_tools_management.go:48-67 | when adding resolved tools to a request is the same as adding all matching ones |
| ServerToolEdits.SeparatedTells | internal/bridge/server_tools.go:58-71 | tool types without NUL satisfy that condition |
| ServerToolEdits.ErrorAfterCommit | internal/bridge/management.go:225-232 | a save that reports an error and has taken effect |
| ServerToolEdits.EditTouchesOneModel | internal/bridge/server_tools_management.go:114-150 | a save that takes effect, with or without a later error, leaves the resolved tools of all other models unchanged |
| ServerToolEdits.EditGivesSelection | internal/bridge/server_tools_management.go:80-98 | after a save that takes effect the edited model has tools of exactly the selected kinds: all it had of those in order, then a bare one for each new kind |
| ServerToolEdits.ChosenIsNormal | internal/bridge/server_tools.go:44-54 | the configuration check refuses a selection whose keys clash, so no chosen tool is lost |
| ServerToolRequests.AddedIff | internal/bridge/server_tools.go:128-174 | what a request is handed comes from matching rules, has a key that neither the request nor another tool handed out has, and is not overridden by a function of the request; and of every such key something is handed out |
| ServerToolRequests.ServedIff | internal/bridge/server_tools.go:128-174 | for kinds without NUL: a tool of some kind and name is handed out if and only if a rule for the model has one that is not overridden and the request declares none itself |
| ServerToolRequests.ServedOnce | internal/bridge/server_tools.go:152-166 | and only once |
| ServerToolService.Settings.ResolvedServerTools | internal/bridge/server_tools_management.go:50-67 | the nested loops compute the first definition of each key |
| ServerToolService.Settings.EffectiveServerTools | internal/bridge/server_tools_management.go:30-46 | the kinds each configured model has |
| ServerToolService.Settings.FlattenServerToolRules | internal/bridge/server_tools_management.go:73-101 | the rules become the specified exact rules |
| ServerToolService.ToolService.ApplyServerTools | internal/bridge/server_tools.go:128-174 | a request's own tools stay first and the specified ones follow; a request that gets none is not touched |
| ServerToolService.ToolService.SaveModelServerTools | internal/bridge/server_tools_management.go:114-150 | the error of a save and the configuration then in force |
| ServerToolService.ToolService.SaveConfig | internal/bridge/management.go:215-233 | the settings file first, then memory, then registrations and pending quota writes |
| SseFrames.FeedInTwo | internal/bridge/sse.go:23-61 | feeding two chunks or their concatenation succeeds alike, emits the same and ends in the same state, as far as both fit the buffer |
| SseFrames.AnyChunkingSucceeds | internal/bridge/sse.go:13-61 | if a stream decodes in one piece it decodes in any pieces, to the same frames and state |
| SseFrames.ChunkingIsIrrelevant | internal/bridge/sse.go:13-61 | all ways of cutting a stream that succeed give the same frames and state |
| SseFrames.RoundTrip | internal/bridge/sse.go:29-55 | payloads framed with one data line per line and a blank line are decoded to themselves, through any chunks, if and only if none of their lines ends in CR |
| SseFrames.WholeRoundTrip | internal/bridge/executor.go:616-618 | a payload framed whole, as the program does, is decoded to itself if and only if it has no LF and does not end in CR |
| SseFrames.ReturnIsLost | internal/bridge/sse.go:33-33 | a payload that is decoded without an error and not to itself |
| SseFrames.NewlineIsLost | internal/bridge/executor.go:616-618 | a payload of two lines, framed whole, of which the second is lost without an error |
| SseFrames.RoomIsEnough | internal/bridge/sse.go:25-27 | with room for everything and a willing consumer decoding cannot fail |
| SseFrames.TruncationIsReported | internal/bridge/sse.go:62-67 | a stream that stops inside any of its frames, through any chunks, is reported at its end |
| SseEvents.NamedRoundTrip | internal/bridge/sse.go:29-60 | frames with event names, through any chunks, are decoded to themselves if and only if no payload line ends in CR and no name has white space at an end |
| SseEvents.OthersAreIgnored | internal/bridge/sse.go:46-59 | comments and other fields change nothing, wherever they stand |
| SseEvents.PaddingIsOptional | internal/bridge/sse.go:47-48 | a data line can do without the blank behind its colon |
| SseEvents.DecoderIsBounded | internal/bridge/sse.go:25-54 | over any stream a decoder that has not failed holds at most its limit in text and its limit in data |
| SseEvents.FailureTells | internal/bridge/sse.go:23-61 | decoding fails only over a limit or for its consumer |
| SseEvents.EndIff | internal/bridge/sse.go:62-67 | a stream may end if and only if no data is left and no text but white space |
| SseDecoder.Decoder.Feed | internal/bridge/sse.go:23-61 | the loop over the buffer is the specified decoding, failures included |
| SseDecoder.Decoder.End | internal/bridge/sse.go:62-67 | the end is refused if text or data is left |
| EstimateRuns.NothingCountedTwice | internal/bridge/estimate.go:284-416 | no request is in two accepted samples of one window kind, over any run of requests, readings, key and plan changes, failed saves and restarts |
| EstimateRuns.WindowsAreSound | internal/bridge/estimate.go:346-413 | in every reachable state pending values are not negative, 2 * samples <= delta <= last percent <= 100, a calibrated window shows a sample, and its totals are its accepted charges |
| EstimateRuns.AdjustKeepsWindow | internal/bridge/estimate.go:355-412 | one reading accepts exactly the charges since the baseline, none of them accepted before |
| EstimateRuns.BindEndsPending | internal/bridge/estimate.go:311-315 | a key that changes accounts ends the pending intervals of both, in every window |
| EstimateRuns.TotalsOfMembers | internal/bridge/estimate.go:268-280 | an account's totals are the sum of the charges of its keys |
| EstimateReadings.AcceptedIff | internal/bridge/estimate.go:328-413 | exactly when a reading is accepted, and what it adds: the growth and just the charges since the baseline; what every other reading leaves |
| EstimateReadings.PreviewIff | internal/bridge/estimate.go:381-397 | exactly when a reading previews a sample, and with what |
| EstimateReadings.BaselineMovesIff | internal/bridge/estimate.go:346-380 | exactly when the next sample is measured from this reading on |
| EstimateReadings.EveryLimitIsRead | internal/bridge/estimate.go:328-345 | each kind a reading reports once is compared with its own window, and windows of other kinds stay |
| EstimateReadings.ShownIs | internal/bridge/estimate.go:142-153 | what a window shows: its accepted samples together, or an established earlier estimate, or a preview |
| EstimateReadings.ShownStays | internal/bridge/estimate.go:120-153 | an accepted sample is shown with all of its cycle, and an estimate once shown is not replaced by a preliminary one or none |
| EstimateReadings.ShownOutlives | internal/bridge/estimate.go:134-167 | a new cycle and a restart show what was shown before, and a restart loses nothing but baselines |
| EstimateReadings.EveryRequestCounts | internal/bridge/estimate.go:220-258 | what a finished request is charged, and that it shows in a count |
| EstimateReadings.BindingKeeps | internal/bridge/estimate.go:293-315 | what binding a key to an account and plan changes, for every account and window |
| EstimateReadings.OverlapsIff | internal/bridge/estimate.go:316-325 | over any steps without a restart a key overlaps a reading if and only if it had a request under way at either end or one began or ended in between |
| EstimateReadings.ActiveAreUnfinished | internal/bridge/estimate.go:204-229 | over any run without a restart the requests under way are those begun and not ended |
| EstimateService.Estimates.RecordEstimate | internal/bridge/estimate.go:220-258 | activity, counters and save of a finished request |
| EstimateService.Estimates.EstimateTotals | internal/bridge/estimate.go:268-280 | the loop over keys, in any order, gives the account's totals |
| EstimateService.Estimates.RebaseEstimateAccount | internal/bridge/estimate.go:159-167 | every window of the account loses its baseline and nothing else |
| EstimateService.Estimates.CalibrateEstimate | internal/bridge/estimate.go:284-416 | a reading, as specified, and its save |
| EstimateService.Estimates.LoadEstimates | internal/bridge/estimate.go:170-196 | a restart takes the last saved ledger without its baselines |
| EstimateService.AdjustWindow | internal/bridge/estimate.go:328-413 | the branches of one reading against one window |
| QuotaBlocks.MergeIsSetLike | internal/bridge/quota.go:209-254 | merged limits, blocked, observed and retry times depend on the set of blocks only: order and repetition do not matter |
| QuotaBlocks.MergeNests | internal/bridge/quota.go:209-254 | a merged block can stand for the blocks it was merged from |
| QuotaObservations.MergedBlockIs | internal/bridge/quota.go:209-254 | a merged block by its parts: blocked since the first, seen last when one was, each kind once until its latest reset, to be tried again when all are over |
| QuotaEndings.RecoveryNeedsSample | internal/bridge/quota.go:274-409 | from a start, over any run: once an error or a sample shows a kind of quota used up until some reset, a credential of the account is selected again only if a complete sample in between, about that credential, was started after that and not before the reset, and reported room in the kind |
| QuotaRecovery.EndIsEarned | internal/bridge/quota.go:333-409 | from a start, over any run: a write that ends a guarded block rests on a sample that was started after every block of the account was seen, not before any of their resets, and reported every blocked kind below 100 percent |
| QuotaRecovery.SampleEndsBlockIff | internal/bridge/quota.go:333-409 | and a sample ends the block, by its own writes, if and only if it is like that and the write finds an agreeing file and lands |
| QuotaRecovery.RecoveryIsPlanned | internal/bridge/quota.go:274-301 | such a write is planned for every blocked credential of the account |
| QuotaHistories.AccountStaysBlocked | internal/bridge/quota.go:274-409 | from a start, over any run, an exhaustion error or a sample that shows limits used up, and any further run: every credential of the account with an unchanged key is out of selection until a qualifying sample is written |
| QuotaHistories.BlockHolds | internal/bridge/service.go:391-477 | over any run a blocked credential with an unchanged key is not selectable until a qualifying sample was written to its file; a read can end the block only if it is under no revision of the program's |
| QuotaRuns.StepGuards | internal/bridge/quota.go:122-172 | the same for one step: failed writes, retries, host saves, operator edits and honest external edits do not end a block |
| QuotaRuns.ReadEndsBlockIff | internal/bridge/service.go:391-405 | exactly which watcher reads end a block |
| QuotaRuns.IssuedOutlastsReads | internal/bridge/service.go:395-398 | under a revision of the program's, none does |
| QuotaRuns.WriteEndsBlockIff | internal/bridge/quota.go:122-172 | exactly which writes end a block |
| QuotaExamples.LostBlock | internal/bridge/quota.go:401-408 | a run from a start in which a write ends a block without a sample |
| QuotaExamples.UnmarkedBlockIsReadAway | internal/bridge/service.go:395-405 | a run from a start in which a read ends a block that has no revision |
| QuotaHistories.ErrorBlocksAccount | internal/bridge/quota.go:305-331 | an exhaustion error blocks every credential of the account before anything is written |
| QuotaHistories.UsageBlocksAccount | internal/bridge/quota.go:366-409 | a sample that shows limits used up does the same |
| QuotaObservations.ExhaustedIff | internal/bridge/quota.go:391-398 | which limits a sample shows to be used up |
| QuotaObservations.ErrorIsAboutIff | internal/bridge/quota.go:71-81 | an error is about its credential and all others of the same known account |
| QuotaObservations.SampleIsAboutIff | internal/bridge/quota.go:257-272 | a sample that names its account is about its credential and all of that account |
| QuotaObservations.SampleIsLearned | internal/bridge/quota.go:378-384 | what a sample shows of its credential's account is known from then on |
| QuotaEndings.Published | internal/bridge/quota.go:274-292 | publishing puts just the planned block into memory, and with it the account's identity |
| QuotaObservations.GroupIsIdentified | internal/bridge/quota.go:264-267 | each of them gets the identity, for its key |
| QuotaObservations.IdentityIsWritten | internal/bridge/quota.go:147-165 | and a write that lands makes it known to this process and the next |
| QuotaObservations.WriteIsNoted | internal/bridge/quota.go:102-172 | a write that lands leaves file and memory in agreement; any other is noted to be made up for |
| QuotaObservations.OutsidersAreKept | internal/bridge/affinity.go:83-151 | neither a quota write nor an edit replaces a file whose key or switch an outsider changed |
| QuotaObservations.ReadIs | internal/bridge/service.go:376-418 | what a watcher read takes in, for whom, and what it notes to be written |
| QuotaObservations.CanonicalIff | internal/bridge/quota.go:195-207 | exactly which names a kind of limit has |
| QuotaExamples.UsageJoinsAccount | internal/bridge/quota.go:71-83 | a run from a start after which an error blocks a credential whose account is known from usage queries alone |
| QuotaService.Quotas.OpenUsage | internal/bridge/usage.go:64-68 | a usage query opens a new entry for the credential's key, unless it has one |
| QuotaService.Quotas.CloseUsage | internal/bridge/usage.go:119-120 | its answer, however late, goes to the entry it was asked for and to no other |
| QuotaRuns.UsageIsEarned | internal/bridge/quota.go:366-409 | a sample plans the end of a block only if it qualifies against the merged block |
| QuotaRuns.QualifiesForEach | internal/bridge/quota.go:333-362 | and then it qualifies against each block that was merged |
| QuotaRuns.StepKeepsInv | internal/bridge/service.go:391-405 | file contents with a revision of the program's agree with each other and with memory |
| QuotaHistories.SwitchSurvives | internal/bridge/credential_json.go:16-18 | host saves of the effective switch, quota writes, recoveries, and reads and external edits with the current choice leave the operator's last choice standing |
| QuotaHistories.ReadKeepsSwitchIff | internal/bridge/service.go:376-405 | exactly which watcher reads leave the choice standing; every read resolved to the file does |
| QuotaObservations.EffectiveSwitch | internal/bridge/credential_json.go:16-18 | the record the host stores is off for as long as the credential is off or blocked, and is read back with the operator's own choice |
| QuotaExamples.StaleReadFlipsSwitch | internal/bridge/service.go:363-405 | a run from a start in which an unresolved read of older content switches a credential on again |
| QuotaState.MemoryDecides | internal/bridge/service.go:446-476 | a stored record never brings back a credential that memory holds to be blocked, disabled or removed, and speaks for itself only where memory knows none of its names |
| QuotaObservations.SelectIff | internal/bridge/service.go:446-477 | exactly which credential a request gets, and when it is refused for its quota |
| QuotaService.MergeQuotaBlocks | internal/bridge/quota.go:209-254 | the loops compute the specified merge |
| QuotaService.QuotaUsageHasRoom | internal/bridge/quota.go:333-362 | true exactly for qualifying samples: later than the block and its resets, with every blocked and every reported limit known and below 100 percent |
| QuotaService.Quotas.PersistQuotaCredential | internal/bridge/quota.go:122-172 | memory first, then the file if it still agrees, then the error record |
| QuotaService.Quotas.SaveQuotaGroup | internal/bridge/quota.go:274-301 | all blocks are published before the first write |
| QuotaService.Quotas.ObserveQuotaError | internal/bridge/quota.go:305-331 | an exhaustion error, or nothing for a stale or removed credential |
| QuotaService.Quotas.ObserveQuotaUsage | internal/bridge/quota.go:366-409 | a usage sample: merge, add used-up limits, end the block where it qualifies |
| QuotaService.Quotas.ParseAuth | internal/bridge/service.go:376-418 | a watcher read keeps quota state of another revision and accepts the rest |
| QuotaService.Quotas.SaveCredential | internal/bridge/affinity.go:83-151 | an operator's edit of key or switch, all or nothing, and only of what the credential was when the edit began |
| QuotaService.Quotas.SelectedCredential | internal/bridge/service.go:446-477 | memory first under each name, then the stored record; selected only with a key, enabled, not removed and not blocked |
| StreamWatchdog.IdleExactly | internal/bridge/stream_idle.go:66-149 | from the start on, in every interleaving, the idle timeout is raised at a check if and only if nothing else is due, no emit is under way and the time since the last effective output less that of all emits since has reached the limit |
| StreamWatchdog.FailureExactly | internal/bridge/stream_idle.go:66-84 | at each check, and only there, the first failure is decided; the deadline counts during emits too |
| StreamWatchdog.StateTells | internal/bridge/stream_idle.go:86-149 | as long as nothing failed the state holds exactly the last output, the emit under way and the time of the emits since |
| StreamWatchdog.NothingIsMissed | internal/bridge/stream_idle.go:175-189 | while the timer waits undisturbed nothing is due before it wakes |
| StreamWatchdog.TimerIsTight | internal/bridge/stream_idle.go:175-181 | and it is set to the very first instant at which something is due |
| StreamWatchdog.RunKeeps | internal/bridge/stream_idle.go:86-210 | in every interleaving the first failure is final and nothing is closed twice |
| StreamWatchdog.ClosedOnceWithFirstCause | internal/bridge/stream_error_details.go:44-51 | both streams are closed at most once, an output closed by the timer with the first failure, and both are closed in the end |
| StreamWatchdogObject.ReadWatchdog.BeginEmit | internal/bridge/stream_idle.go:88-100 | no emit after a failure |
| StreamWatchdogObject.ReadWatchdog.EndEmit | internal/bridge/stream_idle.go:102-115 | the emit's time is credited and its own error goes first |
| StreamWatchdogObject.ReadWatchdog.EffectiveOutput | internal/bridge/stream_idle.go:136-149 | a fresh output restarts the idle budget unless a limit was reached |
| StreamWatchdogObject.ReadWatchdog.Check | internal/bridge/stream_idle.go:155-181 | the timer's turn and its next instant |
| StreamWatchdogObject.OutputStream.Close | internal/bridge/stream_error_details.go:44-51 | only the first close counts, and its cause is returned |
| AffinityRuns.RollbackIsHonest | internal/bridge/affinity.go:268-344 | after a failure anywhere each file is never written, restored to its value, as an outsider left it, or unrestored because the write failed; restoration is reported if and only if no written file is of the last two kinds |
| AffinityRuns.UndisturbedRollback | internal/bridge/affinity.go:269-295 | without outsiders a reported restoration is complete on disk and in memory |
| AffinityRuns.OutsidersAreKept | internal/bridge/affinity.go:269-318 | no step of the program replaces a file that does not read as this run last wrote it or first read it |
| AffinityRuns.SuccessRenames | internal/bridge/affinity.go:296-344 | a success changes undisturbed files and credentials in their routing name only |
| AffinityRuns.RotationReady | internal/bridge/affinity.go:180-209 | the readiness test is the specified one |
| AffinityRuns.ReadyIsUnique | internal/bridge/affinity.go:168-206 | readiness means exactly one, new, registration of each file and none under its old or legacy name |
| AffinityRuns.ReadyIff | internal/bridge/affinity.go:168-206 | exactly which lists of registrations are ready for a file |
| AffinityRuns.MigrationComesFirst | internal/bridge/affinity.go:319-340 | where a credential has no routing name yet, no file gets its new name before all have been written under their own names and those registrations are confirmed |
| AffinityReset.Reset.WritePhase | internal/bridge/affinity.go:296-318 | a phase stops at the first file that is not as expected or cannot be written |
| AffinityReset.Reset.Rollback | internal/bridge/affinity.go:269-295 | the rollback loop restores what still reads as written |
| AffinityReset.PhaseIsRun | internal/bridge/affinity.go:296-318 | a whole phase is a run of its steps |
| AffinityReset.RollbackIsRun | internal/bridge/affinity.go:269-295 | a whole rollback is a run of its steps |
| PricingSchedule.ReferenceCost | internal/bridge/pricing_schedule.go:9-38 | sampling the hours decides whether one known rate holds at every instant |
| PricingSchedule.SinglePriceIffUniform | internal/bridge/pricing_schedule.go:22-37 | for a positive cost a single price is quoted if and only if one known rate holds at every instant of the closed interval |
| PricingSchedule.HourIsUniform | internal/bridge/pricing_schedule.go:40-63 | the rate depends on the clock hour only |
| PriceCalendar.PeakIff | internal/bridge/pricing_schedule.go:40-63 | the rate at every instant by a calendar counted day by day from the first of January 1970, a Thursday |
| PricingSchedule.RangeHoldsEveryCost | internal/bridge/pricing_schedule.go:5-12 | however the work is spread over the interval its cost is in the quoted range |
| PricingSchedule.RangeIsTight | internal/bridge/pricing_schedule.go:5-12 | both ends of the range can be the cost |

## Left out

- Request log: read errors other than missing or malformed files, power loss and the order of fsync calls, and the statistics that share its flushes; the line codec is any lossless one, a record's other fields travel unchanged, and a rate is kept as its quotient, without rounding.
- RequestLogRecovery.EveryCrashRecovers: appends that change a merged row's key, a legacy file whose compaction collides, and requests logged after a start that failed before or in the load are outside its runs, since they do lose rows; the findings say exactly when. Its runs allow a start at any time, which the program makes only when no log is loaded.
- UnloadedLog.UnloadedSurviveIff: the new row is none of those on disk, and a line that begins with a piece of another does not read; only the first such request is described.
- Request log: the wrap-around of 64-bit sequence numbers and sizes, and the redaction of error texts before a row is stored.
- Rate limiter: whether a fault counts as a team limit or as a request fault is an input; one clock reading serves a whole operator reset; messages are not modelled.
- Egress pool: choosing candidates, proxies and HTTP clients, waiting for capacity, cancellation and closing; the model starts from the candidate list of one scan. Endpoints of one group have equal limits and rates are positive, as the configuration check demands.
- EgressGroups.SlidingWindow: reservations are ordered by a clock that does not go back.
- Server tools: strings are code points, so names that are not valid UTF-8 are not covered; the request body besides its tool list is not modelled.
- Event stream decoder: the consumer's error text, and joining and searching bytes, are library calls taken as functions.
- Quota estimates: amounts are whole numbers, so rounding is left out; notes, the console view and the monthly figure are left out; a data directory change is a restart.
- Quota blocks: sizes, texts and the order in which a map is walked; percentages are finite; lower-casing and folding of limit names is ASCII; proxy changes, error-rule rewriting and routing fields of a credential file appear as an input that says whether the file still agrees; a write is atomic and a failed one leaves the file alone; the usage cache is held against the key alone, while a changed proxy makes an entry stale too.
- QuotaHistories.BlockHolds: external edits may not pass off other quota state under a revision the program made, and no earlier planned end of the block is under way.
- Credential JSON: unknown fields and their exact text are carried by the stored record and not modelled.
- Stream watchdog: diagnostics, the contents of the streams and the scheduling of goroutines; that a step is eventually taken is not stated.
- Re-registration: locating files, the backup copies and the host's list of registrations are inputs; checking a file and writing it is one step.
- Price schedule: the price table per model and rounding; the holiday table is that of 2026, as in the program.
- The C interface, host calls, management routing, the console, HTTP and TLS, error classification, completion aggregation, configuration defaults, reasoning mapping and provider routing are not part of this model.
