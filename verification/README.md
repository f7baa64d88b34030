# Verified models of Orloj's control plane

Orloj is a control plane for agent systems: it stores resources, schedules tasks onto workers, fires
recurring schedules, accepts webhooks and approvals, streams events to clients, and ships the command line
`orlojctl`. This project models the parts of it with the most state, branching and arithmetic, and proves
what they promise, for all inputs and, for the protocols, for all interleavings. `dafny verify
dfyconfig.toml` checks everything.

Each module follows one component:

| module | component |
|---|---|
| ExecutionOrder | the order in which the agents of a system run, and the command line's copy of it |
| LineDiff | the line diff of `orlojctl diff` |
| Calendar, CronScan, CronParse | cron expressions: the calendar, the scan for a match, the parser |
| Schedule | recurring task schedules |
| SessionStream | the session event stream between API server and chat client |
| MemoryBus | the in-memory event bus |
| Pagination | cursor paging with label selectors |
| RateLimit | the per-address rate limiter |
| Watch | the polled resource watch |
| Webhook | deduplicated webhook delivery |
| Approval | deciding approvals by compare-and-swap |
| WorkQueue | the keyed work queue of the controllers |
| TaskScheduler | assignment of tasks to workers |
| LogCursor | following logs through a trimmed window |
| Chunker | splitting a document into overlapping chunks |
| Strings | the operations of Go's standard library that these share |

Loops over arrays, maps and queues are methods with loops, proved against a function or a direct
statement; objects with fields are classes (`Bus`, `Limiter`, `KeyQueue`, `LogStreamCursor`); concurrent
protocols are state machines whose steps are the source's atomic actions, with theorems over every run.
Stores, clocks and failures of the environment are parameters or steps. A map's iteration order is always
left open. JSON, digests and case folding are parameters, with what is needed of them stated where it is
needed.

## Where the code does not do what one would expect

The models follow the code. These are the places where the plain property is false; each has a concrete
counterexample or an exact condition below.

- A cron segment with a step, `*/n`, `v/n` or `a-b/n`, whose start and step together exceed the 64-bit range
  passes every check of the parser and then makes it panic (`CronParse.Stepped`, `CronParse.LargestStep`).
- In the day-of-week field 7 stands for Sunday before a range's ends are compared, so `0-7` is Sunday alone
  and `5-7` is rejected (`CronParse.DayOfWeekRange`).
- The in-memory stores list in name order while cursors are `namespace/name`; paging over several
  namespaces loses items (`Pagination.NameOrderLoses`, `Pagination.LosslessIffSorted`). A list request
  without limit and selector stops at 1000 items without a token (`Pagination.FetchListPageWithSelector`).
- The watch sends nothing for a record at or below the requested version that appears or changes; a record
  that is deleted and created again restarts its versions (`Watch.InStepIff`, `Watch.RecreatedUnseen`).
- Two deliveries of one webhook event that race past the task lookup both write the task, and the second
  write replaces the first (`Webhook.RacedOverwrites`). A delivery that lingers before its insert can be
  accepted although it started inside an accepted delivery's window (`Webhook.LateInsertAccepted`). After its
  task is deleted a duplicate is answered with a task that is not there, and a delivery after the window makes
  it again (`Webhook.DuplicateNamesDeleted`, `Webhook.DeletedIsWrittenAgain`). An event whose digest collides
  with another's is accepted and gets no task (`Webhook.CollidingEventsShare`).
- The decision endpoints write under a version check, but applying an approval reads its status and writes
  it back without one if the request names no version, and a worker that asks again writes it pending. Such a
  write can undo a decision, after which a second one commits (`Approval.DecidedChangesIff`,
  `Approval.UnversionedDecidesTwice`). Versions start over when an approval is deleted and created again, so a
  decision can land on an approval its decider never saw (`Approval.UnseenIff`, `Approval.DecidesUnseen`).
- A task write of the scheduler that meets a conflict is retried with the task's new requirements and the old
  status: it can assign a worker that no longer fits and set a running task back to pending
  (`TaskScheduler.StoredFitsIff`, `TaskScheduler.StaleAssignment`).
- With two consumers of the work queue one can sleep beside a queued key (`WorkQueue.SecondConsumerSleeps`).
- A suspended schedule ends a reconcile in phase Ready, not Suspended (`Schedule.ReconcileSchedule`). A slot
  whose run was held back or refused is not retried once its status is stored (`Schedule.StoredIsSettled`).
  Two schedules whose names agree in their first 40 cleaned characters, or differ only in punctuation, share
  run keys; while the first one's task exists the second is refused, and once it is deleted the second gets
  the key (`Schedule.KeyServesOneSchedule`, `Schedule.PunctuationShared`, `Schedule.ServedTwice`). A task that
  others put under the key between lookup and write is replaced (`Schedule.ReplacesIff`). Under Forbid two runs
  of a schedule can be active once one of them has waited for an approval (`Schedule.OneActiveIff`,
  `Schedule.ForbidOverlaps`).
- With an agent declared twice the entry points need not start the order (`ExecutionOrder.EntryPointsFirst`,
  `ExecutionOrder.DoubledRoot`).
- Following a log that repeats a line can skip lines (`LogCursor.PrintedIff`, `LogCursor.RepeatSkips`).

## Model

| member | source | states |
|---|---|---|
| ExecutionOrder.ExecutionAgentOrder | resources/agent_execution_order.go:8-83 | whatever order the graph map is iterated in, early returns included: without a graph the agents as declared; for distinct agents the unblocked ones in freed order and then the blocked ones as declared |
| ExecutionOrder.DrainedInFreedOrder | resources/agent_execution_order.go:31-74 | for distinct agents the drained part is in freed order: the roots as declared, then each other unblocked agent by the place of its latest source and, under one source, by its last occurrence in that source's list |
| ExecutionOrder.OneFreedOrder | resources/agent_execution_order.go:31-74 | at most one sequence is in freed order |
| ExecutionOrder.OrderMeant | resources/agent_execution_order.go:8-83 | the specified order is the unblocked agents in freed order and the blocked ones as declared |
| ExecutionOrder.CountIndegrees | resources/agent_execution_order.go:19-29 | each agent's count is the number of edge occurrences that enter it, independent of map order |
| ExecutionOrder.DrainQueue | resources/agent_execution_order.go:46-74 | the queue loop ends and takes exactly the agents `Drain` takes, in that order |
| ExecutionOrder.DrainedExactly | resources/agent_execution_order.go:46-82 | an agent is left for the appended tail if and only if it is reachable from a cycle or from a graph key that is no agent |
| ExecutionOrder.DrainedFacts | resources/agent_execution_order.go:46-74 | drained agents are distinct, declared, and every edge into one comes from an earlier one |
| ExecutionOrder.TopologicalIff | resources/agent_execution_order.go:8-83 | for distinct agents the order is a topological sort exactly when no agent is reachable from a cycle or a foreign key |
| ExecutionOrder.OrderPermutes | resources/agent_execution_order.go:8-83 | distinct agents come out as a permutation, without repeats |
| ExecutionOrder.OrderCounts | resources/agent_execution_order.go:8-83 | with repeated declarations, a drained agent occurs once and any other as often as it is declared |
| ExecutionOrder.DeclarationOrder | resources/agent_execution_order.go:31-82 | the roots and the tail each keep declaration order |
| ExecutionOrder.TaskOrderFromSystem | cli/orlojctl.go:1385-1450 | the command line's copy gives the same order on every system, cycles and repeated agents included, with the same meaning for distinct agents |
| ExecutionOrder.SystemEntryPoints | cli/orlojctl.go:1262-1284 | the entry points are the agents without incoming edges, in declaration order, and a prefix of the order for distinct agents |
| ExecutionOrder.EntryPointsFirst | cli/orlojctl.go:1262-1284 | they are a prefix of the order if and only if the graph is empty or no root is declared twice |
| ExecutionOrder.DoubledRoot | cli/orlojctl.go:1262-1284 | an agent declared twice beside a graph: the entry points do not start the order |
| LineDiff.LineDiffOps | cli/orlojctl_extended.go:694-739 | for all texts: dropping the added lines gives the old one, dropping the removed lines the new one, the kept lines are a longest common subsequence, and no edit script is shorter; equal lines are kept at once, and a line is added before one is removed only where every script that removes first is longer |
| LineDiff.OneScript | cli/orlojctl_extended.go:714-738 | among the shortest scripts at most one keeps equal lines at once and removes first |
| LineDiff.FillTable | cli/orlojctl_extended.go:695-711 | filling backwards in place yields the recurrence's value in every cell |
| LineDiff.WalkTable | cli/orlojctl_extended.go:713-729 | the walk edits the prefixes it passed and keeps as many lines as the table's first cell promises |
| LineDiff.TableBounds | cli/orlojctl_extended.go:699-711 | no common subsequence of the remaining lines is longer than the cell |
| LineDiff.Optimal | cli/orlojctl_extended.go:694-739 | a script that keeps that many lines is shortest among all scripts between the two texts |
| LineDiff.SameLines | cli/orlojctl_extended.go:686-692 | two texts split into the same lines exactly when they agree up to one final newline |
| LineDiff.ReadBodyBack | cli/orlojctl_extended.go:750-754 | the printed body determines the script: reading it back gives the same operations |
| LineDiff.RenderUnifiedDiff | cli/orlojctl_extended.go:741-756 | the first lines are the two labels and the two line counts, and the rest alone determines a shortest edit script between the two texts |
| Calendar.DateRoundTrip | cronexpr/cronexpr.go:95-118 | day numbers and valid Gregorian dates correspond one to one |
| Calendar.CalendarSteps | cronexpr/cronexpr_test.go:24-24 | one day on moves date and weekday on by the calendar's rules, and the test's 13 March 2026 is a Friday |
| CronScan.Next | cronexpr/cronexpr.go:65-68 | the least matching minute strictly after the instant, or none exactly because no minute ever matches |
| CronScan.Prev | cronexpr/cronexpr.go:71-74 | the greatest matching minute at or before the instant, or none because no minute ever matches |
| CronScan.Scan | cronexpr/cronexpr.go:76-89 | the first match in the given direction within the bound, or no match within it |
| CronScan.BoundSuffices | cronexpr/cronexpr.go:65-89 | if anything matches, something matches within 3660 days of any start in both directions, also 29 February across a non-leap century |
| CronScan.MatchesMeans | cronexpr/cronexpr.go:91-118 | for every date and time of day: month, hour and minute are marked and so is the day, by either day field where both leave something out and by both otherwise |
| CronScan.EitherDayField | cronexpr/cronexpr.go:105-117 | an expression that restricts both day fields matches exactly when it does with one of them opened to all |
| CronScan.NeverIff | cronexpr/cronexpr.go:91-118 | an expression never matches exactly when it restricts days of month alone to days its months do not have |
| CronScan.ResultsUnique | cronexpr/cronexpr.go:65-74 | the specifications of Next and Prev admit one result |
| CronParse.MarkRange | cronexpr/cronexpr.go:209-211 | the step loop on 64-bit ints sets exactly the hit bits, and indexes out of range if and only if the first step overflows |
| CronParse.HitsMeans | cronexpr/cronexpr.go:209-211 | the values visited are those of the range at a multiple of the step from its start |
| CronParse.MarkSegments | cronexpr/cronexpr.go:132-147 | the marked bits are those some segment hits; the first failing segment decides the outcome |
| CronParse.ParseField | cronexpr/cronexpr.go:127-150 | a parsed field marks exactly the values its segments denote, at least one, and knows whether it marks all |
| CronParse.Parse | cronexpr/cronexpr.go:28-62 | an expression parses if and only if it has five fields that all parse; a panic exactly when the first failing field panics; the result marks what its fields denote |
| CronParse.SpellParses | cronexpr/cronexpr.go:127-227 | a comma list of numbers in bounds parses to exactly those numbers |
| CronParse.LineParses | cronexpr/cronexpr.go:28-62 | every choice of values for the five fields has a line that parses and means exactly it |
| CronParse.RangeParses | cronexpr/cronexpr.go:178-227 | `a-b` parses exactly when both ends, after the Sunday alias, are in bounds and in order |
| CronParse.DayOfWeekRange | cronexpr/cronexpr.go:215-227 | a day-of-week range to 7 is Sunday alone if it starts at 0 or 7 and is rejected otherwise |
| CronParse.Stepped | cronexpr/cronexpr.go:152-213 | a star, value or range with step n denotes every n-th value from its start, whenever the part before the slash parses, Sunday alias included, and panics if and only if start and step together exceed the 64-bit range |
| CronParse.LargestStep | cronexpr/cronexpr.go:209-211 | the largest step on a star panics in the fields that start at 1 and in no other |
| Schedule.SlotNameInjective | controllers/task_schedule_controller.go:476-486 | different slots have different names |
| Schedule.RunKeyIff | controllers/task_schedule_controller.go:476-508 | two run keys are equal if and only if namespace, shortened schedule name and slot are |
| Schedule.NeatBase | controllers/task_schedule_controller.go:476-508 | a trimmed, lowered name of kept characters and single inner dashes is its own shortened name up to 40 characters, else its first 40, or 39 where the fortieth is a dash |
| Schedule.NeatNamesDiffer | controllers/task_schedule_controller.go:476-508 | two different such names of at most 40 characters never share a run key |
| Schedule.KeyReads | controllers/task_schedule_controller.go:476-486 | the key of such a name is namespace, slash, name, dash and text that reads as the year, month, day, hour and minute of the slot |
| Schedule.BlankBase | controllers/task_schedule_controller.go:477-480 | a name without any kept character is shortened to "schedule" |
| Schedule.PunctuationShared | controllers/task_schedule_controller.go:488-508 | any two names that differ only in punctuation, once trimmed and lowered, have one shortened name |
| Schedule.EvaluateDueSlot | controllers/task_schedule_controller.go:207-229 | the due slot is the latest at or before now and after the last one; the deadline flag is exact; none due means none ever or the latest already done; an unreadable last time is an error exactly if the expression ever matches |
| Schedule.ReconcileSchedule | controllers/task_schedule_controller.go:105-186 | a reconcile, with others' steps before its lookup, its write and its status write, is a run of the machine; exactly when it tries to run a slot, which error it reports, and phase Error with one and Ready without, whatever the phase before and also if suspended |
| Schedule.EnsureRunTask | controllers/task_schedule_controller.go:231-292 | the lookup and the write, interrupted anywhere, are steps of the machine, and refuse exactly if no run is served |
| Schedule.StepServes | controllers/task_schedule_controller.go:258-291 | only the lookup and the write of a tick serve a run, at most one, its own, and leave its task there with its labels: the lookup one it found so labelled, the write a new one |
| Schedule.GoesOnIff | controllers/task_schedule_controller.go:116-151 | exactly when a tick goes on to its run: not suspended, slot after the last one and not past the deadline, by default 300 seconds, and under Forbid no listed pending or running task with the schedule's labels |
| Schedule.OnlyLatestInTime | controllers/task_schedule_controller.go:140-166 | over any run, clocks going back, store calls failing, stops anywhere and others changing tasks, a run is served only for the latest slot at its tick and within its deadline |
| Schedule.KeyServesOneSlot | controllers/task_schedule_controller.go:258-259 | over any run two served runs share a key if and only if they share slot, run namespace and shortened name, so a key never serves two slots |
| Schedule.KeyServesOneSchedule | controllers/task_schedule_controller.go:261-270 | from a served run on, until somebody deletes or overwrites its task or a lookup of its own key fails, its key serves no schedule of another name or namespace, and its task is not created again |
| Schedule.ReplacesIff | controllers/task_schedule_controller.go:261-288 | between a working lookup and the write others may act; the write replaces a task if and only if the last thing they did under the key was to put one there |
| Schedule.ServedTwice | controllers/task_schedule_controller.go:261-291 | after a deletion alone another schedule with the same run namespace and shortened name gets the key; after a deletion and a lost status write the same one creates the task again |
| Schedule.CreatedOnce | controllers/task_schedule_controller.go:140-166 | from a served run on: once its status is stored the slot is never served again; as long as its task is left alone it is never created again, stored or not |
| Schedule.StoredIsSettled | controllers/task_schedule_controller.go:213-220 | in every continuation in which nobody else edits it the stored time only grows, and a slot at or before it is never served, also if it was missed, held back or refused |
| Schedule.OverlapsIff | controllers/task_schedule_controller.go:147-151 | where at most one run of a schedule is active, a step makes it two if and only if it creates, puts or resumes an active run of that name beside another |
| Schedule.OneActiveIff | controllers/task_schedule_controller.go:147-151 | over any run at most one run of the schedule is active all the time if and only if no step overlaps |
| Schedule.ForbidGuards | controllers/task_schedule_controller.go:129-151 | a tick under Forbid that got past a working task list saw no active run, so its write overlaps only if somebody made one active since |
| Schedule.ForbidOverlaps | controllers/task_schedule_controller.go:351-361 | a run that waits for approval does not count as active, so its resumption overlaps with the next slot's run, under Forbid and with every store call working |
| Schedule.AlwaysAhead | controllers/task_schedule_controller.go:207-229 | in every run in which nobody else edits the schedule's time, a tick under way is for a slot after it, as StoredIsSettled asks |
| Schedule.LastNeverDecreases | controllers/task_schedule_controller.go:213-220 | every step but others' edits keeps or raises the stored time, whatever the clock does |
| SessionStream.AcceptedOnceInOrder | cli/orlojctl_chat.go:464-535 | over any connections cut at any byte and resumed from the cursor, the accepted events are a gap-free, duplicate-free, in-order stretch of the log right after the start cursor |
| SessionStream.StreamCut | cli/orlojctl_chat.go:663-714 | whatever prefix of the server's output arrives and however the stream ends, the client is as after handling some first events and nothing else |
| SessionStream.UncutDelivers | cli/orlojctl_chat.go:663-714 | an uncut stream that does not stop the client delivers all its events |
| SessionStream.FrameRead | cli/orlojctl_chat.go:663-714 | a written frame, read line by line, acts exactly as its event: the reader inverts the writer |
| SessionStream.FrameLinesSay | api/sessions.go:405-416 | the lines of a frame, collected, give the id of the event's number, its trimmed type or "session.event", and its encoding |
| SessionStream.FrameReadById | cli/orlojctl_chat.go:578-581 | a frame whose data leaves out the number acts as its event all the same, by its id line |
| SessionStream.LinesOfCRLF | cli/orlojctl_chat.go:684-685 | a line may end in carriage return and line feed |
| SessionStream.FrameCut | cli/orlojctl_chat.go:663-714 | a frame cut anywhere acts as its event or not at all, also when the unfinished frame is dispatched at the end |
| SessionStream.ScanChatEventStream | cli/orlojctl_chat.go:663-714 | the line loop with its frame and data list computes `Receive` |
| SessionStream.HandleSessionStream | api/sessions.go:336-379 | the drain loop over listings of a growing log writes the log from the cursor on, without gap or repeat, exactly as far as its batches of 500 reach, and an event without number last if a listing fails; cut anywhere it is a served connection |
| SessionStream.OneRound | api/sessions.go:354-378 | one round writes the next batch and the keep-alive that is due |
| SessionStream.WriteEvents | api/sessions.go:354-359 | the written bytes are the frames of the listed events in order |
| MemoryBus.Reachable | eventbus/memory_bus.go:67-151 | at every reachable state the history is the last events, numbered without gaps, and each subscription was offered every matching event from a fixed place on |
| MemoryBus.OfferedExactly | eventbus/memory_bus.go:67-139 | a subscriber from an earlier latest id was offered exactly the matching later events if and only if none of them had left the history; in particular if at most historyMax intervened |
| MemoryBus.OfferedOnce | eventbus/memory_bus.go:67-139 | no event is offered twice, in the snapshot and live or otherwise |
| MemoryBus.Bus.constructor | eventbus/memory_bus.go:56-65 | an empty bus; a history bound that is not positive becomes 2048 |
| MemoryBus.Bus.Publish | eventbus/memory_bus.go:67-104 | the next id, the trimmed history, and as targets exactly the subscribers none of whose five fields asks for something else, as one step of the bus |
| MemoryBus.Bus.Subscribe | eventbus/memory_bus.go:106-139 | a new subscription that starts with the matching history after its cursor, as one step of the bus |
| MemoryBus.Bus.LatestID | eventbus/memory_bus.go:141-145 | the id of the last event ever published |
| MemoryBus.Bus.RemoveSubscriber | eventbus/memory_bus.go:147-151 | the subscription is gone and nothing else changes |
| Pagination.FetchListPageWithSelector | api/pagination.go:74-144 | a page is the selected items of a stretch after the cursor; no token means nothing selected is left; a token means the page has exactly the limit, by default 100 and at most 1000 with a selector, and resumes right behind it; without limit and selector the page is complete exactly up to 1000 items |
| Pagination.SelectExactly | api/pagination.go:111-118 | the selected items are those whose labels contain the selector, values included |
| Pagination.SelectorPage | api/pagination.go:95-143 | the batch loop meets that promise for every selector and limit |
| Pagination.ChainComplete | api/pagination.go:74-144 | following tokens to the end concatenates to exactly the selected items after the first cursor, in order; all pages but the last are full; tokens strictly increase |
| Pagination.CollectAll | api/pagination.go:74-144 | following the tokens always ends, with exactly the selected items |
| Pagination.LosslessIffSorted | store/resource_stores.go:19-38 | paging is lossless for every page size if and only if the store lists in key order |
| Pagination.NameOrderInNamespace | store/resource_stores.go:136-154 | within one namespace the in-memory stores' name order is key order |
| Pagination.NameOrderLoses | store/resource_stores.go:136-154 | across namespaces it is not, and a page is lost |
| RateLimit.EvictionUnseenIff | api/auth_ratelimit.go:45-88 | for every rate, burst and lag up to ten minutes: no interleaving of requests that ask within the lag can tell the evicting table from one that keeps every bucket, if and only if the rate refills the burst in the shortest idle time that evicts, less the lag |
| RateLimit.EvictionUnseen | api/auth_ratelimit.go:237-262 | the sufficient half, for requests that overlap between leaving the lock and asking the bucket they hold |
| RateLimit.ConfiguredLimiters | api/server.go:212-252 | the three configured limiters, 20 at 10 per minute, 30 at 30 per second and n at n per minute for every n, are safe for lags up to eight minutes |
| RateLimit.EnterHolds | api/auth_ratelimit.go:74-88 | a sweep never drops an entry whose bucket a request can still ask in time |
| RateLimit.Limiter.CleanupLocked | api/auth_ratelimit.go:74-88 | nothing within five minutes of the last sweep, else exactly the entries idle for more than ten minutes are dropped, in any map order |
| RateLimit.Limiter.EnterLocked | api/auth_ratelimit.go:59-69 | the locked part: sweep, the address's bucket or a new full one, marked as seen |
| RateLimit.Limiter.Ask | api/auth_ratelimit.go:71-71 | the part after the lock: a token if there is one |
| RateLimit.Limiter.AllowRequest | api/auth_ratelimit.go:237-262 | an uninterrupted request is its two steps of the machine; one without an address passes and changes nothing |
| Watch.SendWatchSnapshot | api/watch.go:371-442 | the seen map becomes the filtered snapshot, every event is warranted, one per key, and a client that applies them moves from any view to the specified next one |
| Watch.VisibleExactly | api/watch.go:387-396 | the filtered snapshot has exactly the records of the namespace and of the name asked for, at their versions |
| Watch.ChangesApplied | api/watch.go:386-411 | the added and updated events together bring a client's view forward, key by key |
| Watch.InStepIff | api/watch.go:371-442 | a client in step stays in step over a poll if and only if no record at or below the requested version appeared or changed |
| Watch.FirstPollIff | api/watch.go:371-442 | the first poll puts a client in step exactly when it held the old records already and nothing that is gone |
| Watch.InStepRun | api/watch.go:334-369 | over any run of polls the folded events equal every filtered snapshot if and only if old records never appear or change |
| Watch.ViewCovers | api/watch.go:334-369 | after any number of polls the client holds every record above the requested version at its current version and none that is gone |
| Watch.FromScratch | api/watch.go:334-369 | watching from version 0 keeps every client in step for ever |
| Watch.RecreatedUnseen | api/watch.go:398-400 | a recreated record with a low version is not sent |
| Watch.SplitKeyOf | api/watch.go:413-422 | the namespace and name of a deleted record are recovered from its key |
| Webhook.OneTaskPerEvent | api/task_webhook_api.go:232-283 | under any interleaving, deletions and stops: our tasks are under the key of their event, every success names the key of its event, and that task is there unless others deleted or replaced it since it was last written |
| Webhook.AnswersShareIff | api/task_webhook_api.go:656-671 | over any run two successful answers name one task if and only if the digests of their events agree |
| Webhook.CollidingEventsShare | api/task_webhook_api.go:663-671 | events with one digest: the second is accepted with the task of the first and gets none, because the lookup does not compare the event label |
| Webhook.OneAcceptancePerWindow | api/task_webhook_api.go:255-273 | a later acceptance of an event is inserted only after the window of every earlier one |
| Webhook.LateInsertAccepted | store/webhook_dedupe_store.go:81-106 | by the deliveries' starts alone that is false: a run in which both of one window are accepted |
| Webhook.DuplicateAfterAcceptance | api/task_webhook_api.go:232-283 | every successful answer, duplicates included, has an acceptance of its event behind it |
| Webhook.OverwrittenOnlyIfRaced | api/task_webhook_api.go:656-709 | a delivery's write replaces a task only if somebody else wrote it, or came to write it, while the delivery was about to |
| Webhook.RacedOverwrites | api/task_webhook_api.go:656-709 | two deliveries that both found no task: the second write replaces the first task |
| Webhook.DuplicateNamesDeleted | api/task_webhook_api.go:237-247 | after a deletion a duplicate within the window is answered with a task that is not there |
| Webhook.DeletedIsWrittenAgain | api/task_webhook_api.go:249-259 | after a deletion and the window the event is accepted and its task written again, without a race |
| Webhook.KeySharedIff | api/task_webhook_api.go:722-737 | two events of a webhook share a key exactly when their digests agree |
| Approval.FinalForEver | api/server.go:2259-2302 | a committed decision survives every continuation of its life in which no phase is overwritten and no commit decides an unread life |
| Approval.AtMostOneDecision | api/server.go:2259-2302 | deletions included: unless a phase was overwritten or a commit decided a life of the approval that was not read, each life gets at most one decision or expiry and the approval carries it; a request for changes commits only where the spec does not rule it out and the review cycle is below the limit, 3 unless the spec sets one, unless it decides a life that was not read |
| Approval.UnseenIff | store/versioning.go:31-50 | a commit decides an approval its decider never read if and only if it was deleted and created since and has come to the version that was read |
| Approval.DecidesUnseen | store/versioning.go:31-36 | a decision read at version 1 lands on the next approval, whatever its spec, and puts the old spec back |
| Approval.DecidedChangesIff | api/server.go:2166-2188 | a decision is taken away exactly by a deletion, by an applier's write that passes the version check after reading another phase, by a worker that asks anew, or by a commit of another decision, and then by a decider that had read another life |
| Approval.VersionedNeverOverwrites | store/versioning.go:46-50 | if every applier names a version it could know and writes in the life it read, and no worker asks anew for an approval that is there, no phase is ever overwritten |
| Approval.UnversionedDecidesTwice | api/server.go:2181-2188 | without a version an approval is approved and then denied |
| Approval.ExhaustedOnlyUnderContention | api/server.go:2125-2155 | a decider gives up only if the approval changed at least five times since it began |
| Approval.VersionCountsWrites | store/versioning.go:46-55 | in one life of the approval the version counts its changes |
| Approval.UncontendedCommits | api/server.go:2122-2156 | left alone, a permitted decision commits at the first attempt |
| Approval.HandleDecision | api/server.go:2247-2302 | the retry loop of five attempts, with any steps of others before each read and write, is a run of the machine in which its decider ends with the reported outcome; it refuses exactly for what it read last: no approval, a decided one, or one that withholds a request for changes; a commit leaves the decision's phase |
| Approval.ExpireOverdue | controllers/task_controller.go:1008-1015 | the controller's expiry commits if and only if the approval was pending and has its version still, else it changes nothing |
| WorkQueue.Reachable | controllers/workqueue.go:27-79 | in every reachable state, any number of consumers: queued keys are distinct, every pending key is queued or held by exactly one consumer, and if all consumers wait beside queued keys a token is there or about to be sent |
| WorkQueue.KeyQueue.EnqueueLocked | controllers/workqueue.go:27-39 | under the lock a new key is appended and pending and a send is due, a blank or pending one changes nothing; the machine's enqueue step |
| WorkQueue.KeyQueue.Notify | controllers/workqueue.go:40-43 | the send after the lock leaves a token; the machine's send step |
| WorkQueue.KeyQueue.Enqueue | controllers/workqueue.go:27-44 | both steps in a row; keys in process stay so |
| WorkQueue.KeyQueue.TryPop | controllers/workqueue.go:60-69 | the oldest key is handed out and is then in process, an empty queue is left alone; the machine's try step |
| WorkQueue.KeyQueue.Done | controllers/workqueue.go:71-79 | the key is no longer pending; the machine's finish step for a key in hand; the queue stays consistent if and only if the key was not still queued |
| WorkQueue.SingleConsumerWoken | controllers/workqueue.go:46-58 | a single blocked consumer beside a queued key has a token coming |
| WorkQueue.SecondConsumerSleeps | controllers/workqueue.go:40-43 | with two consumers one can stay blocked beside a queued key without any token |
| TaskScheduler.SelectWorker | controllers/task_scheduler_controller.go:154-217 | the worker chosen misses no region, GPU or model asked for, has room, has the least load and the smallest name among those; none chosen means that every worker misses something or is full |
| TaskScheduler.ReconcileTask | controllers/task_scheduler_controller.go:122-152 | a good assignment is kept, else the best worker is taken, else the task is left unassigned; a refused write is reported |
| TaskScheduler.UpsertTask | controllers/task_scheduler_controller.go:252-279 | the retry loop of at most five attempts, which reports a task that vanished as written |
| TaskScheduler.StoredFitsIff | controllers/task_scheduler_controller.go:263-273 | what is stored has the assignment and the status of the pass; it fits its worker if and only if the requirements last met in a conflict do |
| TaskScheduler.StaleAssignment | controllers/task_scheduler_controller.go:263-273 | a conflict after which a task that runs is stored as pending and assigned to a worker it does not fit |
| TaskScheduler.ReconcileOnce | controllers/task_scheduler_controller.go:76-120 | the listed tasks are taken in name order; each gets the right outcome for what was listed, given earlier assignments and how its write went; no worker is assigned more tasks than it has room for beside its current ones, and a task left unassigned has no fitting worker with room even at the end of the pass |
| TaskScheduler.CountedIs | controllers/task_scheduler_controller.go:146-151 | the counts are how often each worker was assigned in the pass |
| TaskScheduler.SortTasks | controllers/task_scheduler_controller.go:103-105 | a permutation of the tasks in name order |
| TaskScheduler.NoneOverlookedGrows | controllers/task_scheduler_controller.go:107-118 | one more assignment never opens room for a task already left unassigned |
| TaskScheduler.LimitsKept | controllers/task_scheduler_controller.go:154-185 | one more assignment keeps every worker within max(1, its limit) |
| TaskScheduler.BestIsUnique | controllers/task_scheduler_controller.go:154-185 | the choice leaves no freedom |
| LogCursor.ExpectedExactly | cli/orlojctl.go:967-984 | the expected positions increase strictly and are exactly those some polled window held |
| LogCursor.PrintedIff | cli/orlojctl.go:967-984 | for any log and windows: the polls together print the lines of the expected positions if and only if no poll's new lines repeat the last line printed before; otherwise they print fewer |
| LogCursor.RepeatSkips | cli/orlojctl.go:967-984 | a log of three lines of which the second poll prints none of two new ones |
| LogCursor.PrintedAsExpected | cli/orlojctl.go:967-984 | so for distinct lines they always do |
| LogCursor.ExactIff | cli/orlojctl.go:967-984 | the same for one poll |
| LogCursor.LogStreamCursor.PrintNew | cli/orlojctl.go:967-984 | prints the window from behind the last printed line and remembers the window's last line |
| LogCursor.FindLast | cli/orlojctl.go:1015-1022 | the index of the last occurrence, or -1 |
| Chunker.ChunkText | runtime/memory_chunker.go:14-52 | for every text, size and overlap: it ends, every chunk is the text at its place, all but the last are full, later ones are longer than the overlap, and dropping the overlap and concatenating gives back the text |
| Chunker.Clamp | runtime/memory_chunker.go:15-23 | the size and overlap used: 1000 and 200 by default, and a fifth of the size if the overlap does not leave a step |
| Chunker.RebuildMore | runtime/memory_chunker.go:36-50 | one more chunk extends what can be rebuilt exactly to its own end |
| Strings.JoinSplit | cli/orlojctl_extended.go:686-692 | joining what Split gives restores the text |

## Left out

- Time zones and daylight saving: schedules are evaluated in UTC.
- Schedule: one controller works on one tick at a time, two that tick a schedule at once are not modelled; which finished runs the history limits delete is left open, tasks may be deleted at any time; a schedule's spec is fixed during a run; a clock in the first ten years of the calendar is excluded in ReconcileSchedule.
- Schedule.ReconcileSchedule: works on a value instead of updating the item and the task store in place.
- MemoryBus: order of delivery and overflow of subscriber channels, wrap-around of 64-bit ids, time stamps.
- RateLimit: token arithmetic is over reals, rounding is not modelled; one clock orders all readings.
- SessionStream: turn filtering, rendering, the reconnect delay and the maximal line length of the reader; event types with a line break, which the server would write unescaped.
- Watch: write errors, the sort order of the sent events, and the half that is driven by the event bus.
- Webhook: signatures, the extraction of event ids and the task's contents; the protocol is a state machine on values.
- Approval: store errors of appliers; the one machine stands for tool approvals too, which have no request for changes.
- WorkQueue: Pop's wait is a step of the machine, not a method.
- TaskScheduler: which workers are eligible is an input.
- Pagination: the namespace filter (items are those of the namespace asked for), cursor normalization, and items that change between pages.
- Chunker: invalid UTF-8 in the text.
- The session lease protocol, the sorted and phase-filtered task query, evaluation runs, storage back ends, authentication, NATS, gRPC, Kubernetes and the rest of the command line: input and output, or easy members only.
