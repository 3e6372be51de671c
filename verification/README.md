# Verified model of the workspace's moderator, VM lifecycle, installer and benchmark core

The project models five parts of the repository and proves what each is for.

**Response moderator** (`workspace/moderator/src`). `Fsm` is the pure transition function; `FsmRuns` follows it over
runs of events and restores, `FsmMemory` proves what it remembers of them, and `FsmPhases` proves where it goes and
what it asks for: the state chart, the decisions and their toasts. `Drain` is the per-session event queue with its
worker, split into the turns between two awaits, so that every interleaving of outside events, effect endings, file
reads and writes, and crashes is a run of one step relation. `DrainProgress` proves that the drain ends,
`DrainResolve` that every effect is answered and nothing is left hanging, `DrainAudit` relates the decision log and
the state file to the machine, `DrainReplay` replays the log, `DrainLoss` accounts for what a crash loses, and
`Adapter` is the session object whose methods are those turns. `Continuation` is the guard that keeps moderator
continuations apart while other actors append messages, and `ContinuationDrain` puts it into the drain. `Context` and
`ContextWindow` are the walks over parent links that may be cyclic, and `LoadedContext` builds the facts of a turn
from them. `Toasts` and `ToastQueue` are the bounded single-worker toast queue, as steps and as the object.
`JsonComments` and `ModelSelect` are the character scanners and the selector parser and printer, and `JsonLiterals`
says of the scanners what a string literal is without asking them.

**QEMU lifecycle** (`workspace/cli/hypervisor`). `Qemu` is one VM directory with its pid file, state file and
socket over a process table; time may pass at every point inside a call, processes exit then, and pids are
reused by other programs between calls.

**Installer** (`workspace/scripts`). `Installer` is the registry and what a safe order is, `InstallOrder` the
depth-first sort, `Grouping` the grouped listing, and `Executor` the runner that stops at the first failure.

**Benchmark** (`scripts/benchmark/llamafile_transcript_classifier`). `Transcripts` groups messages into numbered
turns, `RollingWindow` selects and trims the window of a step, and `Sessions` picks the sessions.

**GPU records** (`scripts/setup/lib`). `GpuRecords` prints, reads and chooses GPUs.

`Base`, `Text` and `Sorting` hold what several modules share.

Where the code changes state, a class or a loop does too, and its methods are proved equal to functions or
relations about which the lemmas speak. The world outside (the model server, OpenCode calls, files that fail,
`ps`, QEMU, token counters) appears as answers that may be anything the code can meet.

Some expected properties hold only under a condition, and the project proves which one:

- A session's stall count is not exact across crashes: the code sends the continuation and writes the record
  before it writes the state, so a crash in between forgets a verdict that was answered. `DrainLoss.OneLoss` is such
  a life, and `DrainLoss.LossIsUnbounded` repeats it. On working files the count is exact all along if and only if no
  crash comes between a taken event that changes it and its state write
  (`DrainLoss.SessionCountIsExactWhenNothingDrops`), and at most two continuations, and one for each crash, answer
  stalled verdicts between restarts of the count (`DrainLoss.ContinuationsAreBounded`).
- An in-flight id can be lost: exactly when a context without an assistant id passes every check while no id is in
  flight (`FsmRuns.PhaseInvariantBreaksExactly`, with a run in `FsmRuns.PhaseInvariantCanBreak`).
- The comment pass is idempotent. The whole stripper is so exactly for texts in which, comments aside, no comma stands
  before a trailing comma (`JsonComments.StrippingIsIdempotentExactly`).
- A provider/model key belongs to one selector exactly when neither id has a slash
  (`ModelSelect.KeyIsUniqueExactly`).
- The GPU cache is exact if and only if no name or slot has a line break or ends in a blank; blanks in front
  are kept (`GpuRecords.CacheIsExact`). The choice of a GPU survives such blanks.
- The grouped listing repeats features exactly when a group that has any is declared twice
  (`Grouping.GroupingConserves`).
- `stop` takes a process with another start time for the VM's exactly when the caller may not signal it, because a
  permission error counts as a match; it then tries TERM and KILL on it, which the host refuses
  (`Qemu.WrongMatchesExactly`, `Qemu.Vm.DoStop`).

## Model

| member | source | states |
|---|---|---|
| `Fsm.ValidityIsKept` | workspace/moderator/src/fsm.ts:76-96 | a valid state never makes the machine throw, and every successor and every restored state is valid again |
| `Fsm.ClassificationStarts` | workspace/moderator/src/fsm.ts:120-166 | CLASSIFY is asked for exactly on entering the classifying phase, and exactly for a turn that passes all eligibility rows, is neither a root handoff nor a blocker discussion, or is an eligible replay with an id |
| `Fsm.RestoreForgetsOnlyProgress` | workspace/moderator/src/fsm.ts:63-74 | normalising after a crash is idempotent, preserves validity both ways, drops work in progress, keeps stall count, blocker and cycle, and lets an unfinished classification be tried again |
| `FsmRuns.StallCountStep` | workspace/moderator/src/fsm.ts:168-226 | one event moves the counter as the independent definition of stalls since the last restart moves, and never above the limit |
| `FsmRuns.StallCountIsExact` | workspace/moderator/src/fsm.ts:168-226 | in every run of events and restores that the machine is given, the counter equals the unblocked stalled verdicts since the last restart and is at most 3 |
| `FsmRuns.SendsExactly` | workspace/moderator/src/fsm.ts:180-190 | a continuation is sent if and only if an accepted go-on or stalled verdict meets no blocker and stays under the limit |
| `FsmRuns.StalledContinuationsAreBounded` | workspace/moderator/src/fsm.ts:180-190 | between two restarts exactly the first two stalled verdicts are answered by a continuation |
| `FsmRuns.LimitEscalates` | workspace/moderator/src/fsm.ts:183-190 | in any run a go-on or stalled verdict either sends or escalates, never both, by the exact count of the run |
| `FsmRuns.PhaseInvariantStep` | workspace/moderator/src/fsm.ts:98-226 | one event keeps the relation between phase, blocker, count and in-flight id when terminal turns name their message; the phase itself is the subject of FsmPhases |
| `FsmRuns.PhaseInvariantHolds` | workspace/moderator/src/fsm.ts:98-226 | over every such run: continuing means no blocker and a count under 3, classifying and continuing have an in-flight id, error has none |
| `FsmRuns.PhaseInvariantBreaksExactly` | workspace/moderator/src/fsm.ts:152-213 | without that assumption the invariant is lost exactly when, in the observing phase, an eligible context with no id, handoff or blocker discussion is loaded while no id is in flight |
| `FsmRuns.PhaseInvariantCanBreak` | workspace/moderator/src/fsm.ts:138-165 | a run of three events that loses the in-flight id |
| `FsmRuns.RequestsOfOneStep` | workspace/moderator/src/fsm.ts:98-191 | a transition asks for one classification or one continuation exactly on entering the matching phase, and for none otherwise |
| `FsmRuns.EffectAccounting` | workspace/moderator/src/fsm.ts:98-226 | in every run each accepted verdict answers its own CLASSIFY, each persisted continuation its own SEND_CONTINUATION, and no continuation is sent without a verdict |
| `FsmMemory.BlockerStep` | workspace/moderator/src/fsm.ts:152-213 | one event moves cycle and blocker: raised by a root handoff or a blocked verdict, lifted by another branch, a new cycle without discussion of it, or any other verdict, and kept otherwise |
| `FsmMemory.EndedStep` | workspace/moderator/src/fsm.ts:110-115 | the last ended message is the one a terminal verdict judged, and an error forgets it only while it is in flight |
| `FsmMemory.MemoryIsExact` | workspace/moderator/src/fsm.ts:63-226 | in every run of events and restores cycle, blocker and last ended message are what the events of the run say |
| `FsmMemory.BlockedMeansNoContinuation` | workspace/moderator/src/fsm.ts:168-182 | in any run a standing blocker stops every continuation, and a verdict other than blocked lifts it and goes idle |
| `FsmMemory.OneDecision` | workspace/moderator/src/adapter.ts:380-383 | every event carries exactly one decision, which says outside-phase exactly when the event was not accepted and nothing changed |
| `FsmMemory.VerdictsAreTheEvents` | workspace/moderator/src/fsm.ts:160-190 | what is traced or sent is the verdict of the event, and a trace without one belongs to a root handoff |
| `FsmPhases.PhaseStep` | workspace/moderator/src/fsm.ts:98-226 | every event moves the phase as the state chart says, from the old phase, the event and its guards, for all events: a new cycle ends work in progress and keeps the observing and error phases |
| `FsmPhases.PhaseIsExact` | workspace/moderator/src/fsm.ts:63-226 | in every run of events and restores the phase is the one the state chart reaches, with the standing blocker and the stalls of the run as its guards |
| `FsmPhases.FirstTurnOfACycleIsLoaded` | workspace/moderator/src/fsm.ts:193-226 | in the observing phase a new cycle followed by the end of a turn asks for the context, for every origin, branch and turn |
| `FsmPhases.LoadsExactly` | workspace/moderator/src/fsm.ts:138-150 | the context is asked for exactly when a turn ends in the observing phase |
| `FsmPhases.VerifiesExactly` | workspace/moderator/src/fsm.ts:105-105 | the prompt is verified exactly when a sent continuation is confirmed in the continuing phase |
| `FsmPhases.InFlightStep` | workspace/moderator/src/fsm.ts:98-226 | which events put a message in flight, which drop it, and that the others keep it |
| `FsmPhases.PendingStep` | workspace/moderator/src/fsm.ts:120-226 | the pending context is that of the turn put in flight, with its message, prompt, mode and todos, until an event clears it |
| `FsmPhases.CompactionIsExact` | workspace/moderator/src/fsm.ts:63-226 | in every run the compaction flag is set exactly between a start and the next end, verdict that ends the message, or restore |
| `FsmPhases.SkipIsFirstRow` | workspace/moderator/src/fsm.ts:33-41 | a turn is ignored by the first row of the eligibility table that matches, and no row matches exactly the eligible turns |
| `FsmPhases.DecisionIs` | workspace/moderator/src/fsm.ts:98-240 | the decision that is recorded follows from the guards, at its place among the effects |
| `FsmPhases.ToastIsTheDecisions` | workspace/moderator/src/fsm.ts:98-240 | a toast is shown exactly when it belongs to the recorded decision |
| `FsmPhases.TraceIsTheDecisions` | workspace/moderator/src/fsm.ts:152-191 | a trace is written exactly for a handoff and for verdicts that complete, block or continue |
| `FsmPhases.RecordOfTheTransition` | workspace/moderator/src/fsm.ts:88-96 | the result names the phases before and after, and is ignored exactly for an event its phase does not accept or a turn that is not eligible |
| `FsmPhases.AcceptsExactly` | workspace/moderator/src/fsm.ts:18-31 | phase by phase, the events that are not accepted |
| `Drain.SingleWorkerStep` | workspace/moderator/src/adapter.ts:102-149 | every step keeps: one body at most, the flag says so, and a waiting event has a body |
| `Drain.SingleWorkerAlways` | workspace/moderator/src/adapter.ts:102-149 | in every interleaving, with any reads, effects and writes failing, a session has one drain body at most and a non-empty queue has one |
| `Drain.OrderedStep` | workspace/moderator/src/adapter.ts:102-149 | every step keeps the queue as follow-ups then outside events, with no outside event lost, doubled or reordered |
| `Drain.OrderedAlways` | workspace/moderator/src/adapter.ts:102-149 | in every run the outside events processed and waiting are those that arrived, once each and in order of arrival |
| `Drain.OutsideEventsWaitTheirTurn` | workspace/moderator/src/adapter.ts:120-140 | when an outside event is taken no follow-up waits and it is the oldest one not yet taken |
| `DrainResolve.FailureGoesFirst` | workspace/moderator/src/adapter.ts:132-140 | whatever effect fails, the error event is in front of everything that waits, and state and context stay |
| `DrainResolve.WhatCanFail` | workspace/moderator/src/adapter.ts:132-169 | every effect but a decision and a toast can fail |
| `DrainResolve.AnswerGoesFirst` | workspace/moderator/src/adapter.ts:151-198 | an effect that ends well puts its own event in front: the loaded context with its origin, the verdict with the origin of the captured context, or the confirmation of the trace or the continuation |
| `DrainResolve.OutcomesAreNoted` | workspace/moderator/src/adapter.ts:126-142 | each effect adds its outcome, the next one starts from the context it left, and after the last one the record is written |
| `DrainResolve.TakenWithContext` | workspace/moderator/src/adapter.ts:120-127 | a taken event moves the state by the machine and starts its effects from the session context |
| `DrainResolve.ArrivalBringsContext` | workspace/moderator/src/adapter.ts:102-110 | an arrival goes last, a replay sets the context, and a body is started when there is none |
| `DrainResolve.RestoreReads` | workspace/moderator/src/adapter.ts:112-119 | only a readable valid snapshot changes the state, to its normal form; a bad one ends the body, and a waiting queue gets the next body |
| `DrainResolve.WritesInTurn` | workspace/moderator/src/adapter.ts:142-148 | the record is appended and then the state is written; a failed write changes neither file, ends the body, and leaves what waits to the next |
| `DrainResolve.ResolvingAlways` | workspace/moderator/src/adapter.ts:108-169 | in every run, while a classification or continuation is under way the body still has its effect, or the event that ends it stands first |
| `DrainResolve.NothingHangs` | workspace/moderator/src/adapter.ts:108-169 | in any run, with any failures and crashes, when the drain has nothing left to do the phase is neither classifying nor continuing |
| `DrainProgress.EventsOutweighTheirEffects` | workspace/moderator/src/fsm.ts:98-203 | the weight of an event covers all effects of handling it in any state |
| `DrainProgress.FollowUpsWeighLess` | workspace/moderator/src/adapter.ts:127-169 | whatever event an effect puts in front, its follow-up or its error, weighs less than the effect; which event that is, is the subject of DrainResolve |
| `DrainProgress.MeasureFalls` | workspace/moderator/src/adapter.ts:108-149 | each step of the drain lowers the measure of queue and body |
| `DrainProgress.DrainTerminates` | workspace/moderator/src/adapter.ts:108-169 | without arrivals the drain takes at most as many steps as the measure of its start, whatever fails |
| `DrainProgress.DrainEmptiesTheQueue` | workspace/moderator/src/adapter.ts:108-149 | in any run, no step of the drain is possible if and only if the queue is empty and no body exists |
| `DrainAudit.AuditChain` | workspace/moderator/src/adapter.ts:108-149 | when file accesses succeed, crashes anywhere: every record is one transition from the snapshot before it or, after a crash, from the normalised state file, and only a crash between the two writes leaves a record unsaved |
| `DrainAudit.PersistedStateIsTheLastRecord` | workspace/moderator/src/adapter.ts:142-143 | while no state write is pending the state file equals the last snapshot of the epoch, and an idle session's state equals both |
| `DrainAudit.RunsRefineTheMachine` | workspace/moderator/src/adapter.ts:108-149 | in every run, failures included, the live state is the machine's state on what was saved and the events of this epoch |
| `DrainAudit.SessionStallCountIsExact` | workspace/moderator/src/adapter.ts:108-149 | the stall count is exact on that history, which leaves out what a crash dropped |
| `DrainReplay.LogExplainsTheState` | workspace/moderator/src/adapter.ts:120-143 | on working files the live state is what the machine makes of the saved records of the log, with a restore between epochs, and of the event in progress; the state file is what it makes of the saved records |
| `DrainReplay.NothingIsLostExactly` | workspace/moderator/src/adapter.ts:120-149 | on working files the saved records and the event in progress are all events ever taken, in order, if and only if no crash came between taking an event and its state write |
| `DrainReplay.LosslessRunsAreExact` | workspace/moderator/src/adapter.ts:108-149 | a run that loses nothing is a run of the machine: state and stall count are those of all its events and crashes, never rolled back |
| `DrainLoss.CrashKeepsCountExactly` | workspace/moderator/src/adapter.ts:127-143 | a crash leaves the known count alone exactly when no event that changes it is unwritten, and takes back one stalled verdict at most |
| `DrainLoss.CountIsExactWhenNothingDrops` | workspace/moderator/src/adapter.ts:120-149 | from any audited session on working files: the count equals the stalled verdicts ever taken since the restart, at every moment, if and only if no crash drops an event that changes it |
| `DrainLoss.SessionCountIsExactWhenNothingDrops` | workspace/moderator/src/adapter.ts:120-149 | the same for the whole life of a session |
| `DrainLoss.StallRequests` | workspace/moderator/src/fsm.ts:180-190 | a transition asks for a continuation of a stalled verdict exactly for an unblocked one below the limit |
| `DrainLoss.ContinuationsAreBounded` | workspace/moderator/src/adapter.ts:127-143 | since the last restart at most two continuations, and one for each crash, answered stalled verdicts or may have; two for each crash when reads and writes fail too |
| `DrainLoss.OneLoss` | workspace/moderator/src/adapter.ts:127-143 | a session takes a stalled verdict, sends and records its continuation with count 1, dies before the state write, and restarts with count 0 |
| `DrainLoss.LossIsUnbounded` | workspace/moderator/src/adapter.ts:127-143 | for every number there is a run on working files with so many answered stalled verdicts, one crash each and no restart between them, after which the session knows of none |
| `DrainAudit.ContextIsCurrentAlways` | workspace/moderator/src/adapter.ts:171-180 | in every interleaving a loaded context is handled next and in the state it was read in |
| `DrainAudit.NoSecondClassification` | workspace/moderator/src/adapter.ts:322-346 | a loaded context never starts a classification of the message that reached the last terminal verdict |
| `DrainAudit.HandledContextIsTrue` | workspace/moderator/src/adapter.ts:171-180 | a loaded context says of the state that handles it whether the message ended last, whether the cycle is new, and that a discussed blocker stands |
| `Adapter.Session.Enqueue` | workspace/moderator/src/adapter.ts:102-106 | adds the event at the asked end of the queue and starts a body if none runs |
| `Adapter.Session.OnOutside` | workspace/moderator/src/adapter.ts:240-308 | a hook or a replay is the arrival step |
| `Adapter.Session.OnRestored` | workspace/moderator/src/adapter.ts:112-119 | the end of the restore read is the restore step, invalid and unreadable files included |
| `Adapter.Session.OnLoop` | workspace/moderator/src/adapter.ts:120-127 | one turn of the loop is the loop step |
| `Adapter.Session.OnPerformed` | workspace/moderator/src/adapter.ts:127-141 | the end of an effect is the perform step: outcome noted, follow-up or error put in front |
| `Adapter.Session.OnAppended` | workspace/moderator/src/adapter.ts:142-142 | the end of the log write is the append step, failure included |
| `Adapter.Session.OnPersisted` | workspace/moderator/src/adapter.ts:143-149 | the end of the state write is the persist step, failure included |
| `Adapter.Session.DrainAll` | workspace/moderator/src/adapter.ts:108-149 | draining with no arrivals ends with an empty queue and no body, by steps of the drain only, whatever the world answers |
| `Context.ReturnsOnlyOnACycle` | workspace/moderator/src/context.ts:58-85 | a walk that meets an id again is on a real cycle of messages, and a walk that ends never met one |
| `Context.SearchFailsExactly` | workspace/moderator/src/context.ts:58-85 | the search throws if and only if following parents for ever would neither end nor meet a wanted message |
| `Context.SearchIsDetermined` | workspace/moderator/src/context.ts:58-85 | the specification of the search admits one result |
| `Context.Search` | workspace/moderator/src/context.ts:58-85 | the visited-set loop always ends, with the first ancestor that is wanted, the end of the chain, or the repeated id |
| `Context.RealUserAncestor` | workspace/moderator/src/context.ts:58-70 | finds the nearest ancestor that is a real user message |
| `Context.InBranch` | workspace/moderator/src/context.ts:72-85 | says whether the chain passes the origin, with the same cycle error |
| `Context.SkippedInFields` | workspace/moderator/src/context.ts:23-102 | the skipped messages by their fields: marked, summaries, compactions, and users with a synthetic part of the moderator or of a compaction |
| `Context.RealUserInFields` | workspace/moderator/src/context.ts:58-70 | the real user messages by their fields |
| `Context.AssistantTextIs` | workspace/moderator/src/context.ts:12-18 | a synthetic or textless part adds nothing, a single text is that text trimmed, and no message text has outer white space |
| `Context.ParentIsTheNamed` | workspace/moderator/src/context.ts:104-106 | the parent is the last message with the named id, and is missing exactly when no id is named or none has it |
| `ContextWindow.CollectAssistants` | workspace/moderator/src/context.ts:119-127 | the first loop collects the judged assistants up to the newest prompt or a way back |
| `ContextWindow.CollectPrompts` | workspace/moderator/src/context.ts:128-141 | the second loop collects the run of prompts up to the assistant before it or a way back |
| `ContextWindow.CollectActivity` | workspace/moderator/src/context.ts:142-148 | lists the tool calls, newest first within each message |
| `ContextWindow.SelectWindow` | workspace/moderator/src/context.ts:114-151 | returns the window defined by the leading assistants and the run of users after them on the chain without skipped messages, or the repeated id |
| `ContextWindow.SelectsIsDetermined` | workspace/moderator/src/context.ts:114-151 | that specification admits one result |
| `ContextWindow.WindowOfAWholeChain` | workspace/moderator/src/context.ts:114-151 | on a chain that ends, stopping early gives the window of the whole chain |
| `ContextWindow.WindowFailsOnlyOnACycle` | workspace/moderator/src/context.ts:119-133 | with distinct ids an error names a message on a real parent cycle |
| `ContextWindow.WindowFailsExactly` | workspace/moderator/src/context.ts:119-141 | it throws if and only if no walk without a repeat completes the window before it comes back |
| `ContextWindow.NewestPromptIsTheRealUsers` | workspace/moderator/src/context.ts:58-151 | when no real user on the chain is a compaction message, the newest prompt is the real user ancestor's, and the placeholder stands alone exactly when there is none |
| `ContextWindow.NewestModeratedAssistant` | workspace/moderator/src/context.ts:49-56 | the backward loop finds the newest assistant |
| `ContextWindow.NewestIsLast` | workspace/moderator/src/context.ts:49-56 | that message is an assistant which only users follow; there is none exactly without assistants |
| `ContextWindow.WindowIsOfTheChain` | workspace/moderator/src/context.ts:114-151 | the judged messages are assistants of the chain and the prompts real users of it, none of them skipped |
| `ContextWindow.ResponseIs` | workspace/moderator/src/context.ts:149-149 | the response joins the texts of the judged messages with an empty line, and a message without text adds nothing |
| `ContextWindow.PromptsOfTheWindow` | workspace/moderator/src/context.ts:128-150 | the prompts are shown oldest first, and the placeholder stands alone exactly without a run of users |
| `ContextWindow.OutputIsCut` | workspace/moderator/src/context.ts:94-98 | up to 1024 characters of output are shown unchanged, of more the first 1024 and the note |
| `ContextWindow.ToolLineIs` | workspace/moderator/src/context.ts:108-112 | a line names tool, input and output, and only tool parts with a name have one |
| `LoadedContext.BuildContext` | workspace/moderator/src/adapter.ts:322-355 | the turn tells the judged message in its own fields, with the origin, the blocker discussion, the newer prompt, the open todos and the window that the walks define; it fails only where a walk comes back to itself |
| `LoadedContext.WhatIsNotClassified` | workspace/moderator/src/adapter.ts:322-355 | an eligible turn has a finished message that neither failed, planned, was a compaction, carries the marker nor ended before, and no new prompt behind it |
| `LoadedContext.NewerPromptIs` | workspace/moderator/src/adapter.ts:322-342 | a newer prompt is a user message behind the last assistant message that neither the marker, a synthetic part nor its id shows to be the moderator's |
| `LoadedContext.OpenTodosCount` | workspace/moderator/src/adapter.ts:334-334 | open and completed todos make up all todos |
| `Continuation.CheckIsExact` | workspace/moderator/src/adapter.ts:209-216 | with distinct ids the check says exactly whether something moderated follows the last assistant |
| `Continuation.GuardedStep` | workspace/moderator/src/adapter.ts:209-229 | reads, deliveries, losses and foreign messages keep the guard's invariant |
| `Continuation.ContinuationsStayApart` | workspace/moderator/src/adapter.ts:209-229 | in every interleaving at most one continuation lies between an assistant message and the next one |
| `Continuation.TwoDeliveriesBreakIt` | workspace/moderator/src/adapter.ts:209-229 | the guard relies on the single worker: two deliveries after one check would break it |
| `Continuation.OwnContinuationIsRecognised` | workspace/moderator/src/adapter.ts:218-226 | the message that is sent counts as a continuation for the guard and never as a prompt, by its synthetic part and not by its note |
| `ContinuationDrain.SafeMove` | workspace/moderator/src/adapter.ts:108-169 | every step of drain, transcript and sending keeps one worker, one sender at most, and the guard's invariant |
| `ContinuationDrain.DrainKeepsContinuationsApart` | workspace/moderator/src/adapter.ts:209-229 | with the drain as it is, in any interleaving with foreign messages, failures and crashes, at most one continuation lies between an assistant message and the next one |
| `Toasts.ServedAlways` | workspace/moderator/src/toast-queue.ts:21-60 | in every interleaving pending is at most 16, one run at most exists, and pending toasts have a run, the gap before its finally included |
| `Toasts.ConservedAlways` | workspace/moderator/src/toast-queue.ts:21-60 | in every interleaving the pushed toasts are the shown, dropped, removed and pending ones, and shown then pending is in push order |
| `Toasts.ToastsAreConserved` | workspace/moderator/src/toast-queue.ts:21-60 | each pushed toast is in exactly one of the four places |
| `Toasts.OnlyTheOldestIsDropped` | workspace/moderator/src/toast-queue.ts:47-51 | only a push onto a full queue drops, and it drops the oldest pending toast |
| `Toasts.WorkerMoves` | workspace/moderator/src/toast-queue.ts:25-44 | each turn of the worker shows the oldest waiting toast, pauses, or ends with nothing waiting, failing shows included |
| `Toasts.RemovedAreTheSessions` | workspace/moderator/src/toast-queue.ts:52-56 | removing a session takes exactly its toasts out |
| `Toasts.WorkerEmptiesTheQueue` | workspace/moderator/src/toast-queue.ts:25-44 | without pushes the worker takes boundedly many turns and stops exactly with nothing pending and no active worker, failing shows included |
| `ToastQueue.ToastWorker.RunOn` | workspace/moderator/src/toast-queue.ts:25-36 | the loop from its top to the next await is the take function |
| `ToastQueue.ToastWorker.StartRun` | workspace/moderator/src/toast-queue.ts:38-44 | starts a run unless one is active |
| `ToastQueue.ToastWorker.OnPush` | workspace/moderator/src/toast-queue.ts:47-51 | is the push step |
| `ToastQueue.ToastWorker.OnRemoveSession` | workspace/moderator/src/toast-queue.ts:52-56 | splicing from the back removes exactly the session's toasts and keeps the order of the others |
| `ToastQueue.ToastWorker.OnSettled` | workspace/moderator/src/toast-queue.ts:40-43 | the finally callback clears the worker and starts the next when toasts wait |
| `JsonComments.SkipBlock` | workspace/moderator/src/config.ts:115-119 | moves past the end of a block comment, or to the end of the text |
| `JsonComments.RemoveTrailingCommas` | workspace/moderator/src/config.ts:127-153 | the scanner with its flags computes the text without trailing commas outside literals |
| `JsonComments.StripJsonComments` | workspace/moderator/src/config.ts:89-125 | the scanner with its flags computes the text without comments, then without trailing commas |
| `JsonComments.CommentPassIsIdempotent` | workspace/moderator/src/config.ts:89-123 | removing comments twice is removing them once |
| `JsonComments.CommentPassKeepsLiterals` | workspace/moderator/src/config.ts:89-123 | the literals that the scanner reads are unchanged by the comment pass; literals defined without the scanner are the subject of JsonLiterals |
| `JsonComments.WholePassIsNotIdempotent` | workspace/moderator/src/config.ts:127-153 | an input on which it differs: the comma pass leaves one of two adjacent commas |
| `JsonComments.TrailingCommasAreStacked` | workspace/moderator/src/config.ts:127-153 | the comma pass leaves a trailing comma exactly where a comma stands before a trailing comma |
| `JsonComments.CommaPassMakesNoComment` | workspace/moderator/src/config.ts:127-153 | removing trailing commas brings no comment about |
| `JsonComments.StrippingIsIdempotentExactly` | workspace/moderator/src/config.ts:89-153 | stripping twice is stripping once if and only if, comments aside, no comma stands before a trailing comma |
| `JsonComments.CommentsAreRemoved` | workspace/moderator/src/config.ts:89-123 | inserted comments disappear and the inserted commas stay |
| `JsonComments.CommasAreRemoved` | workspace/moderator/src/config.ts:127-153 | inserted trailing commas disappear |
| `JsonComments.StrippingUndoesDecoration` | workspace/moderator/src/config.ts:89-153 | whatever comments and trailing commas are put into a text with no slash outside literals and no trailing comma, stripping gives the text back |
| `JsonComments.UndecoratedTextSurvivesExactly` | workspace/moderator/src/config.ts:127-153 | the comma pass leaves a text alone if and only if it has no trailing comma |
| `JsonLiterals.LiteralsSurviveStripping` | workspace/moderator/src/config.ts:89-153 | with literals defined as a quote, units that are one plain character or a backslash and any character, and a quote: decoration outside of them is removed and all else stays, whatever comment signs, commas, brackets and escaped quotes the literals hold |
| `JsonLiterals.PlainHasNoTrailingComma` | workspace/moderator/src/config.ts:127-153 | no comma inside such a literal is taken for a trailing comma |
| `ModelSelect.ParseSelectorList` | workspace/moderator/src/model-select.ts:88-104 | the loop computes the parse, with the first error that applies |
| `ModelSelect.ParsedIsTrimmedInput` | workspace/moderator/src/model-select.ts:88-104 | a successful parse is non-empty, clean and without duplicates, and printing it gives the input with its parts trimmed |
| `ModelSelect.PrintThenParse` | workspace/moderator/src/cli.ts:7-18 | parsing what is printed gives the list back if and only if it is non-empty, distinct and made of clean selectors |
| `ModelSelect.KeysTellApart` | workspace/moderator/src/model-select.ts:73-75 | keys are equal exactly for equal selectors when providers have no slash |
| `ModelSelect.KeyIsUniqueExactly` | workspace/moderator/src/model-select.ts:73-75 | no other selector has the key of a selector if and only if neither of its ids has a slash |
| `ModelSelect.KeysCanCollide` | workspace/moderator/src/model-select.ts:73-75 | two selectors that share a key, one with the slash in the provider and one in the model |
| `ModelSelect.PartParsesExactly` | workspace/moderator/src/model-select.ts:88-104 | a part parses exactly if it has one slash with something on both sides |
| `ModelSelect.PartsNameModels` | workspace/moderator/src/model-select.ts:88-104 | a list of parts parses exactly if every part names a model |
| `ModelSelect.ParseFailsExactly` | workspace/moderator/src/model-select.ts:88-104 | the three errors and exactly when each is given: an empty part anywhere, else a part that does not parse, else a repeated key |
| `Qemu.AtMostOneAlive` | workspace/cli/hypervisor/qemu_backend.py:225-324 | when the pid file names every live process of the VM there is at most one |
| `Qemu.WrongMatchesExactly` | workspace/cli/hypervisor/qemu_state.py:138-147 | a process with another start time matches exactly when the caller may not signal it |
| `Qemu.Vm.ProcessMatches` | workspace/cli/hypervisor/qemu_state.py:118-147 | for a process that is still there, the answer is exact: it may not be signalled, nothing was recorded, or `ps` gave the recorded start time |
| `Qemu.Vm.MarkError` | workspace/cli/hypervisor/qemu_state.py:97-108 | notes the error, keeps the rest, starts from the default state, and raises on a corrupt file |
| `Qemu.Vm.ReadStatus` | workspace/cli/hypervisor/qemu_backend.py:406-435 | unknown without a pid file, invalid for an unreadable one, and for a process that is still there running exactly if it matches the record |
| `Qemu.Vm.RecordStart` | workspace/cli/hypervisor/qemu_backend.py:271-276 | if the VM process is alive and `ps` did not fail, the state file holds its start identity, no error, and running |
| `Qemu.Vm.Launch` | workspace/cli/hypervisor/qemu_backend.py:264-284 | a normal return has launched and recorded; a failed launch leaves no process and notes it; failed mounts keep the record and note it |
| `Qemu.Vm.FindRunning` | workspace/cli/hypervisor/qemu_backend.py:233-243 | for a process still there the verdict is exact, running or stale; when `start` goes on to launch, no process of the VM is alive |
| `Qemu.Vm.DoStart` | workspace/cli/hypervisor/qemu_backend.py:225-284 | a normal return means one launch or a process that answered as the recorded one; after a launch the state file holds the start identity of the live process unless `ps` failed, no error, and running, and no older process of the VM lives; a failed launch and failed mounts are noted |
| `Qemu.Vm.WaitPidExit` | workspace/cli/hypervisor/qemu_backend.py:461-467 | says exactly whether the process is gone when it returns |
| `Qemu.Vm.DoStop` | workspace/cli/hypervisor/qemu_backend.py:286-324 | a normal return leaves no live VM process, no pid file, and the stopped state on file; a process that outlives the call was asked through the socket if there is one and sent TERM and then KILL if it matches, else nothing, and the error is noted; deliverable signals meet the recorded identity; a mismatch is raised only when no VM process lives or `ps` failed |
| `Qemu.Vm.FinishStop` | workspace/cli/hypervisor/qemu_backend.py:470-473 | removes pid file and socket and clears the recorded start |
| `Qemu.Vm.DoRebuild` | workspace/cli/hypervisor/qemu_backend.py:326-362 | a normal return has launched once, or twice for a provisioned new disk, every live VM process is younger than the call and its start is recorded; a failed provisioning is noted; all paths keep the invariants |
| `Qemu.Vm.Restart` | workspace/cli/hypervisor/qemu_backend.py:360-362 | the second round of a rebuild stops, launches once, and records the new process |
| `Qemu.Vm.Run` | workspace/cli/hypervisor/qemu_backend.py:225-362 | over any sequence of calls with exits at any moment and pids reused between calls, every process table there was, also inside calls, held one VM process at most, and every deliverable signal met the recorded identity |
| `Installer.ValidateRegistry` | workspace/scripts/bootstrap_aux_defs.py:116-130 | accepts exactly the registries with distinct ids, known actions and known requirements, and its error names what is wrong |
| `Installer.FeatureLeIsTotalOrder` | workspace/scripts/bootstrap_aux_defs.py:172-172 | order and then id, by code points, is a total order |
| `Installer.TextLeIsLexicographic` | workspace/scripts/bootstrap_aux_defs.py:172-172 | ids compare by their first difference, a prefix first |
| `Installer.ScheduleMeansNoCycle` | workspace/scripts/bootstrap_aux_defs.py:159-161 | a dependency-safe order exists only without a circle of needs among the selected features |
| `InstallOrder.Sorter.Visit` | workspace/scripts/bootstrap_aux_defs.py:159-170 | places a feature after all it needs and changes nothing placed before, or has met a real circle |
| `InstallOrder.OrderedFeatures` | workspace/scripts/bootstrap_aux_defs.py:153-175 | fails if and only if the selected features need each other in a circle; else gives each once, after its selected requirements, and the sorted list itself whenever that is already safe |
| `InstallOrder.SortedAscends` | workspace/scripts/bootstrap_aux_defs.py:171-175 | the sorted list holds the selected features, by order and then by id |
| `Grouping.FeaturesByGroup` | workspace/scripts/bootstrap_aux_defs.py:142-150 | the two loops list declared groups, then undeclared ones as met, each with its members in registry order |
| `Grouping.GroupingConserves` | workspace/scripts/bootstrap_aux_defs.py:142-150 | the listing has every feature as often as the registry if and only if no group that has a feature is declared twice |
| `Executor.Host.RunFeature` | workspace/scripts/bootstrap_aux.py:170-203 | raises exactly without commands, or as root for an agent feature without a known owner, before anything runs; a root feature outside root fails without a command; any other runs its commands in order up to the first failure and fails only by a command that failed |
| `Executor.Host.RunSelected` | workspace/scripts/bootstrap_aux.py:206-223 | the results are a prefix of the list with at most the last failing, each by the guards of its feature; what was started is exactly their commands, also when a later feature raises |
| `Executor.RequirementsRunFirst` | workspace/scripts/bootstrap_aux.py:206-223 | along a dependency-safe list no command starts before every command of every selected requirement of its feature has succeeded |
| `Executor.RequirementsReportFirst` | workspace/scripts/bootstrap_aux.py:206-223 | each result stands behind a success result for every selected requirement |
| `Executor.HandlersAreTheKnownActions` | workspace/scripts/bootstrap_aux_defs.py:23-34 | handlers exist exactly for the known actions, each with a command, and commands are missing exactly for another action or an argument not declared |
| `Executor.GuardsRunFirst` | workspace/scripts/bootstrap_aux.py:95-117 | in every run a provisioning follows its own dry run and a verification its own installation, each just before it and successful |
| `Executor.Host.Install` | workspace/scripts/host_setup_installer.py:147-157 | a circle stops the installation before any command; otherwise the report and the commands are those of a dependency-safe list, a result that failed without a command belongs to a root feature outside root, no command precedes its requirements, all-success means every selected feature is done, and only a circle or a feature that raises leaves no report |
| `Transcripts.ReadMessage` | scripts/benchmark/llamafile_transcript_classifier/transcripts.py:57-66 | joins the non-empty stripped texts of the allowed parts |
| `Transcripts.ReadAnswer` | scripts/benchmark/llamafile_transcript_classifier/transcripts.py:112-134 | reads the assistant texts up to the next user row and stops there |
| `Transcripts.ParseSessionTurns` | scripts/benchmark/llamafile_transcript_classifier/transcripts.py:69-144 | the turns are those of the user rows with text and an answer with text, all of them, in order, numbered from 1 |
| `Transcripts.GroupingIsDetermined` | scripts/benchmark/llamafile_transcript_classifier/transcripts.py:69-144 | that description admits one list of turns |
| `Transcripts.TurnsAreTheAnsweredPrompts` | scripts/benchmark/llamafile_transcript_classifier/transcripts.py:69-144 | a row opens a turn exactly if it is a user row with text and assistant texts stand between it and the next user row; no turn has an empty side |
| `Transcripts.MessageTextIs` | scripts/benchmark/llamafile_transcript_classifier/transcripts.py:47-66 | a part that says nothing, or only blanks, adds nothing, and a single text loses its outer blanks |
| `Transcripts.TokensOfIs` | scripts/benchmark/llamafile_transcript_classifier/sessions.py:36-39 | at least one token, otherwise the whole tokens that the characters fill |
| `RollingWindow.BuildMessages` | scripts/benchmark/llamafile_transcript_classifier/replay_window.py:11-21 | builds the system message, the turns in order, and the classification prompt |
| `RollingWindow.MessagesTellApart` | scripts/benchmark/llamafile_transcript_classifier/replay_window.py:11-21 | the messages determine the classification prompt and every text of the window |
| `RollingWindow.SelectWindowTurns` | scripts/benchmark/llamafile_transcript_classifier/replay_window.py:33-67 | selects the longest suffix of the first turns that fits, or the last turn; fails exactly without turns or when counting raises first |
| `RollingWindow.SelectsIsDetermined` | scripts/benchmark/llamafile_transcript_classifier/replay_window.py:33-67 | one suffix is selected and no longer one fits |
| `RollingWindow.TrimRollingWindow` | scripts/benchmark/llamafile_transcript_classifier/replay_steps.py:93-132 | drops turns from the front, writing the classification prompt again each time, up to the first state that fits or has one turn |
| `RollingWindow.StepIsGood` | scripts/benchmark/llamafile_transcript_classifier/replay_steps.py:135-194 | selecting then trimming gives a non-empty suffix that fits or is one turn, rolled exactly when turns are missing, described truly by its classification prompt, with every longer suffix found too long |
| `RollingWindow.PrepareRollingStep` | scripts/benchmark/llamafile_transcript_classifier/replay_steps.py:135-194 | a prepared step has all of this; preparing fails exactly without turns, or when counting raises while selecting, while trimming or after it |
| `RollingWindow.NumberedStep` | scripts/benchmark/llamafile_transcript_classifier/replay_steps.py:135-194 | on turns numbered from 1 the window starts at end minus count plus 1, ends at end, and has rolled exactly when count is less than end |
| `RollingWindow.EstimateCountsAll` | scripts/benchmark/llamafile_transcript_classifier/replay_window.py:24-30 | the estimate counts system prompt, every turn and classification prompt, and fails exactly for zero characters per token |
| `GpuRecords.IntRoundTrip` | scripts/setup/lib/vulkan_gpu_probe.py:161-190 | reading a printed integer gives it back, negatives included |
| `GpuRecords.FormatShellRecords` | scripts/setup/lib/vulkan_gpu_probe.py:181-192 | the loop and the join write every record line ended by a line feed |
| `GpuRecords.ParseShellRecords` | scripts/setup/lib/vulkan_gpu_probe.py:141-158 | the loop reads the records, with the first missing or malformed field as the error |
| `GpuRecords.CacheRoundTrip` | scripts/setup/lib/vulkan_gpu_probe.py:141-192 | reading what was printed gives every GPU back up to blanks at the end of its texts, values with `=` included |
| `GpuRecords.ReadIsClean` | scripts/setup/lib/vulkan_gpu_probe.py:141-170 | whatever text is read, names and slots that come out have no line break and no blank at the end |
| `GpuRecords.CacheIsExact` | scripts/setup/lib/vulkan_gpu_probe.py:141-192 | the cache gives the same list back if and only if no name or slot has a line break or ends in a blank |
| `GpuRecords.FieldsAreRequired` | scripts/setup/lib/vulkan_gpu_probe.py:161-170 | a record is read exactly if its four numbers are there and parse, and its monitors parse if present; texts default to empty |
| `GpuRecords.UnderscoresGroupDigits` | scripts/setup/lib/vulkan_gpu_probe.py:161-170 | single underscores group digits, a trailing or doubled one is refused |
| `GpuRecords.SignsAreRead` | scripts/setup/lib/vulkan_gpu_probe.py:161-170 | a plus sign and outer blanks are accepted |
| `GpuRecords.CarriageReturns` | scripts/setup/lib/vulkan_gpu_probe.py:141-158 | a line feed after a carriage return ends one line |
| `GpuRecords.ChoiceIsBest` | scripts/setup/lib/vulkan_gpu_probe.py:118-124 | the choice is the first GPU with the most free memory among the headless ones, or among all when none is, and only one such exists |
| `GpuRecords.ChoiceSurvivesTheCache` | scripts/setup/lib/vulkan_gpu_probe.py:118-192 | the GPU chosen from the cache is the one chosen from the probe |
| `Sessions.EstimateSessionTokens` | scripts/benchmark/llamafile_transcript_classifier/sessions.py:36-47 | sums the estimates of the turns |
| `Sessions.ClosenessInSizes` | scripts/benchmark/llamafile_transcript_classifier/sessions.py:50-53 | an exact fit beats all; of two sizes at or above the bucket the smaller is closer, of two below it the larger; one below beats one above exactly when the latter exceeds twice the bucket by more than the shortfall |
| `Sessions.LeastSizeInParts` | scripts/benchmark/llamafile_transcript_classifier/sessions.py:56-62 | a session qualifies from a half, a third or a quarter of the bucket on, by its size |
| `Sessions.SizeByTurns` | scripts/benchmark/llamafile_transcript_classifier/sessions.py:36-47 | a size counts prompt and answer of each turn together, turn by turn |
| `Sessions.TakeFrom` | scripts/benchmark/llamafile_transcript_classifier/sessions.py:143-153 | the picking loop takes the first sessions of the ranking that are large enough and unused, up to the limit |
| `Sessions.TakenFacts` | scripts/benchmark/llamafile_transcript_classifier/sessions.py:143-153 | what is taken is within the limit, large enough, new and different, and a session that could be taken is left only when the limit is reached |
| `Sessions.TakenAreFirst` | scripts/benchmark/llamafile_transcript_classifier/sessions.py:85-107 | from a sorted ranking the best are taken in order |
| `Sessions.PickBucketSessions` | scripts/benchmark/llamafile_transcript_classifier/sessions.py:130-160 | the bucket's picks, reserve pick included, and the ids used afterwards |
| `Sessions.BucketPicksAreNew` | scripts/benchmark/llamafile_transcript_classifier/sessions.py:130-160 | a bucket keeps its limit, reserve pick included, and its ids are new and different |
| `Sessions.BucketPicksAreClosest` | scripts/benchmark/llamafile_transcript_classifier/sessions.py:50-160 | no session that could still be picked is closer than a picked one, and while there is room none is left |
| `Sessions.ClosestIsUsed` | scripts/benchmark/llamafile_transcript_classifier/sessions.py:155-160 | while there is room the closest session of the catalog has been used |
| `Sessions.OnlyTheReserveIsSmall` | scripts/benchmark/llamafile_transcript_classifier/sessions.py:155-160 | only the last pick may be too small, when nothing large enough is left and it is the closest of all |
| `Sessions.PickAllFacts` | scripts/benchmark/llamafile_transcript_classifier/sessions.py:163-189 | across buckets no id is picked twice, each keeps its limit, and nothing is picked exactly without buckets or catalog |
| `Sessions.ExplicitFacts` | scripts/benchmark/llamafile_transcript_classifier/sessions.py:110-127 | explicit selection gives exactly the wanted sessions, each as its own bucket, and fails exactly when none is known |
| `Sessions.SelectSessionsForBuckets` | scripts/benchmark/llamafile_transcript_classifier/sessions.py:163-189 | sorts the buckets and picks for each with the ids used so far |
| `Sessions.SelectLongSessions` | scripts/benchmark/llamafile_transcript_classifier/sessions.py:81-107 | takes the long replays from the catalog ranked by size |
| `Sessions.LongPicksAreLargest` | scripts/benchmark/llamafile_transcript_classifier/sessions.py:81-107 | the long replays are the largest eligible unused sessions, in non-increasing size |
| `Sessions.LongReplaysAre` | scripts/benchmark/llamafile_transcript_classifier/sessions.py:81-107 | none are added unless asked for, at most the number asked for, and fewer only when no session large enough is left |
| `Sessions.SelectBenchmarkSessions` | scripts/benchmark/llamafile_transcript_classifier/sessions.py:192-226 | without explicit ids no session is chosen twice across buckets and long replays, and selecting fails exactly without catalog or buckets |
| `Sorting.StableSortSorts` | workspace/scripts/bootstrap_aux_defs.py:172-172 | the sort used for features, buckets and sessions is sorted and keeps every element as often |
| `Sorting.StableSortIsStable` | workspace/scripts/bootstrap_aux_defs.py:172-172 | elements that compare as equal keep their order |

## Left out

- Session deletion, `failClosed` records written outside the drain, and the trace that the drain's error handler writes for a context limit: side paths beside the serial protocol.
- The finer texts of a decision record (reasons, flags, timestamps, classifier capture): they decide nothing.
- Suspension points: the model may suspend at the top of the drain loop, where the code does not, so it has more interleavings than the code.
- The revert that `replay` asks for, the polling of `verifyPrompt`, and the classifier call: each is an effect that succeeds or fails.
- Regular expressions for injected messages and root blocks: a message carries the answer of the first, and the second is any function of the text.
- `buildContext` for a replay that is forced: it differs only in never calling a message a duplicate.
- `MODERATOR_TOOL_OUTPUT_CHARS` (the default limit of 1024 is used), and the JSON form of tool inputs (a given text).
- UTF-16 surrogate pairs: a character is one code unit or one code point wherever the code counts them.
- Toast bodies and durations, and a `show` callback that pushes before the worker is noted as active.
- The files behind `readModels` and `writeModels` and the provider check of the command line.
- `create`, `destroy`, `exec` and `kill` of the VM backend, the QMP wire, argument building, and disk preparation: a path may raise there, and a process may exit.
- Qemu.Vm.DoStop: of a process without a recorded start nothing is known, so nothing is claimed about whose it is when it is signalled.
- FsmRuns.StallCountIsExact: a run here is what the machine is given; what the crash of a session drops is the subject of DrainLoss.
- Detection commands, option defaults, prompts and reports of the installers, and reading YAML.
- One method per source function: `Sorter.VisitNeeds`, `Sorter.Place`, `Vm.StopProcess`, `Vm.TakeDown`, `Vm.RecordStart`, `Vm.Launch`, `Vm.Restart`, `ModelSelect.ParseEach`, `Grouping.Collect`, `Grouping.NonEmpty`, `Sessions.PickForEach`, `Sessions.TakeFrom`, `Transcripts.ReadAnswer`, `ContextWindow.CollectAssistants`, `ContextWindow.CollectPrompts` and `ContextWindow.CollectActivity` are loops or tails of a longer source function.
- Reading SQLite and JSON: rows and parts are given, with a part that is no mapping as its own case.
- The classification prompt of a replay step is any function of its parameters, and the token counter any function of the messages that may raise; a counter that answers differently for the same messages is not modelled.
- Cumulative replay (`prepare_cumulative_step`), which sends the whole prefix.
- Sessions.EstimateSessionTokens: the characters per token are not zero, since the code divides by them; quotients are exact, so floating-point rounding is not modelled.
- Unicode digits in `int`, and its limit on very long numbers.
- Vulkan and DRM probing.
