# Cronomicon: verified models

Dafny models of the parts of Cronomicon whose correctness is spread over several
functions, several processes or a long run, with the properties the code and its
comments promise proved for every input, every interleaving and every run. `dafny verify
dfyconfig.toml` checks all of it (Dafny 4.11).

**The runner agent's log upload** (`LogBuffer`, `Goroutines`, `Executor`, `Upload`,
`Telling`, `RunLines`, `RunLog`). A run's log is written by goroutines: the executor's
own, one for each target, one for each output stream. Each is a list of actions (write a
line, start another, wait for those started, close the log) and they take their steps in
any order, also while a live flush or the terminal upload is out. The buffer itself does
not refuse a late line: that none is written behind the envelope is proved from the
waits. The log is a buffer that only grows; the agent POSTs what lies past the offset
the server has acknowledged. The network may lose, delay, repeat and reorder POSTs, lose
answers, and cut a connection after any part of a body; lines are written between any
two steps. `Upload` is that protocol as a state machine, `RunLog` the agent's own loops
over the buffer, each shown to compute the protocol's step, and `Executor` the code that
runs a manifest. The server is as the agent's code states it: a POST at another offset
than what it holds is answered with that offset, a closed run takes nothing, and
anything else is appended.

**The agent's life** (`Lifecycle`, `Agent`, `Fleet`). The poll loop, run goroutines,
refusals and stop signals, each section under the lock one step, in every interleaving:
what is counted, what a drain and an abort stop, that no wake-up is lost, and that slots
are kept. The class `Agent` holds the fields the code holds; its methods are runs of the
machine's steps. `Fleet` puts the life and the logs together: each assignment has a log
of its own, and a run or a refusal ends only when its upload has. The trace ids of runs
in flight are distinct, as the map keyed by them requires.

**The calendar catalogue** (`Calendars`, `CalendarLaws`, `CalendarOutcomes`,
`CalendarServer`, `ContentText`). Calendars of the central catalogue and the agencies'
linked copies: create, save, replace days, delete, add, update, set mode, detach, push
and automatic propagation, with the bindings of entries and definitions and the notices
inbox. Each handler is one step; `CalendarServer` has the handlers' loops over the
tables.

**Online key rewrap** (`Rewrap`). A command that surveys every store and then re-wraps
every sealed row, while the live server saves, inserts and deletes before each of its
statements, reads and survey included; and any statement may fail. Sealing is a box only
its key opens, and never repeats a ciphertext; a seal that fails is as a write that
does.

**The file-arrival watcher** (`Arrivals`, `ArrivalRuns`, `ArrivalFailures`,
`ArrivalWatches`, `Watcher`). The stability window, the ledger of what was reported,
capped batches and failed reports.

**Delegated access** (`Access`, `AccessLaws`, `AccessOutcomes`, `AccessServer`). Roles,
grants of a role to a group on one agency or on all, and who may write which; the
break-glass group is a user's property.

**The child environment** (`Names`, `ChildEnv`, `ChildEnvValues`) and **the known hosts
file** (`KnownHosts`, `KnownHostsLines`, `TrustStore`). Two builders of text and lists,
with their precedence, their refusals and their round trips.

Where the code keeps state in fields the model has a class with those fields and methods
with loops; each method is proved to do the step of the same name on the abstract state,
and the laws are lemmas about those steps. What an operation answers and writes is
stated a second time, on the fields, the rows and the numbers themselves, in the lemmas
named `...Exactly`: they do not lean on the functions that define the step.

Five promises do not hold as the comments put them; for each the exact condition is
proved, or a concrete case shown. Appending to a known hosts file keeps its lines only
if nothing is new or the file is empty or newline-ended (`AppendKeepsLines`,
`UnterminatedIsGlued`). The rewrap command, unlike the pass it runs, leaves a row
unbound when every row is at the active version (`NothingOutstanding`,
`UnboundCanBeLeft`). A pass that counts no failure is complete only if no listing of a
table's rows was cut short, as the listing's error is not looked at
(`RewrapEnvelopeTable`). A passthrough name that is no identifier and that the server
sends is accepted and absent (`PassthroughIsBound`, `OddNameIsSilentlyAbsent`). The
second lockout floor of a role edit never acts (`SecondFloorIsNeverReached`). Two more
facts a reader would not expect: a secret the server injects beats a snapshot entry of
its name and any variable of the runner's, but not a galaxy path of that name, which is
appended after it (`ValuesAreAsDeclared`); and a watched file replaced within the same
second by one of the same size is taken for the same file (`SameSecondIsSameFile`).

## Model

| member | source | states |
|---|---|---|
| `LogBuffers.LogBuffer.Seal` | backend/internal/agent/logstream.go:43-53 | the envelope becomes the last line, once; closing again changes nothing |
| `LogBuffers.LogBuffer.Pending` | backend/internal/agent/logstream.go:56-66 | exactly the bytes after the committed offset |
| `LogBuffers.LogBuffer.SetCommitted` | backend/internal/agent/logstream.go:69-79 | the offset is kept within the buffer whatever number the server gave |
| `LogBuffers.LogBuffer.WriteLine` | backend/internal/agent/logstream.go:33-38 | a line and its newline go at the end of the buffer; it is the caller who must have the log still open, as the code does not look |
| `Goroutines.ProperStep` | backend/internal/agent/exec_local.go:133-137 | every step of every goroutine keeps the discipline of waiting for what one has started, and when the log is closed no goroutine of the run is left, nor any it started |
| `Goroutines.StepTakesItsLine` | backend/internal/agent/ssh.go:243-261 | a step takes from what its own goroutine has still to write exactly the line it writes, and from no other's |
| `Goroutines.SomeOneCanStep` | backend/internal/agent/ssh.go:251-261 | while any goroutine of a run is left one of them can go on: no wait is for ever |
| `Goroutines.RunsCanEnd` | backend/internal/agent/ssh.go:251-366 | from wherever it has got to, a run can come to its end, as every step that does anything leaves less to do |
| `Executor.RunJoins` | backend/internal/agent/executor.go:41-138 | by every way through a run (key or file problem, local process, no targets, fan-out), whatever was started has been waited for before the log is closed, which is the last thing done, with the envelope of the exit code and reason reported |
| `Executor.SuccessIsSuccess` | backend/internal/agent/executor.go:88-137 | a run reports 0 exactly if nothing went wrong before it, nothing else ended it, and its process, or its process on every one of its targets, exited with 0 |
| `Executor.Routine.Run` | backend/internal/agent/executor.go:41-138 | the executor's branches do to the log exactly the code of the specification, and return its exit code |
| `Executor.Routine.RunFanOut` | backend/internal/agent/ssh.go:232-271 | a goroutine for each target, all waited for; the exit code of the first that failed and the reason of the first with an unverified host key |
| `Executor.Routine.ReadStreams` | backend/internal/agent/exec_local.go:133-146 | both streams of a process are read side by side and to their end before how it ended is looked at; the exit is the process's own code, or -1 |
| `Executor.ExitExactly` | backend/internal/agent/executor.go:41-138 | the exit code by every way through a run: a process's own code as it is, whatever else ended the run; of a fan-out that of the first target that failed if above zero and else 1 |
| `Executor.ReasonExactly` | backend/internal/agent/ssh.go:262-271 | the reason is the scan of the first target with an unverified host key, and otherwise none |
| `Upload.SafeAfterServe` | backend/internal/agent/client.go:413-441 | one delivery of any POST, however late or repeated, leaves the persisted bytes a prefix of the buffer and is answered truly |
| `Upload.ActedIsSafe` | backend/internal/agent/logstream.go:124-158 | acting on a true answer never moves the offset back, and ends as sent or closed only when that is so |
| `Upload.TryIsSafe` | backend/internal/agent/logstream.go:114-159 | one attempt against any network keeps the protocol safe; a mismatch strictly moves the offset forward |
| `Upload.ResendEndsRight` | backend/internal/agent/agent.go:826-849 | the same of the resends of one attempt each, from any point |
| `Upload.StatusWasAnswered` | backend/internal/agent/client.go:483-489 | a call that gives up with a status reports one that was really answered, so the end is decided by an answer and not by a guess |
| `Upload.ReliableNetworkEnds` | backend/internal/agent/agent.go:820-850 | once the network delivers and answers, the resends of a closed log end, in at most one more than the bytes still unacknowledged, however many old POSTs still arrive |
| `Upload.SafeAfterEvent` | backend/internal/agent/logstream.go:98-159 | every event (a goroutine's step, a POST delivered late or twice, a connection cut after any number of bytes, an error answered, the run closed) keeps the protocol safe; once the run's goroutines have ended none changes its log |
| `Upload.SafeAfterEvents` | backend/internal/agent/logstream.go:98-159 | any sequence of them does: persisted is a prefix of the buffer, committed never passes it, and every POST in flight carries the buffer's own bytes from its offset |
| `Upload.StreamIsSafe` | backend/internal/agent/logstream.go:98-159 | one call of the loop: once the run's goroutines have ended it reports success only when the server holds every byte, closed only when the server closed the run, and a budget spent on mismatches alone has still progressed |
| `Upload.GaveUpMadeAll` | backend/internal/agent/logstream.go:114-159 | a call makes no more attempts than its budget, and one that gives up has made them all |
| `Upload.FlushEndsRight` | backend/internal/agent/agent.go:799-850 | the terminal upload ends only with every byte delivered, the run closed by the server, a refusal of the server's own that is final, or the run's context cancelled after a first send in full |
| `Upload.ResendEndsAt` | backend/internal/agent/agent.go:826-849 | the send or resend that ends a terminal upload, and as what, with nothing posted after it: delivered, closed, or refused by the server itself with a status below 500 other than 429; no other failure ends it, only a cancelled run does |
| `Upload.FirstSendDecides` | backend/internal/agent/client.go:470-491 | the same of the first send alone: a 401, 404 or 413 of the server's own ends the upload there and then; a 5xx, a 429, a lost connection or what a proxy answers does not |
| `Upload.AnswerDecides` | backend/internal/agent/logstream.go:124-158 | an accepted POST ends the call with the offset at the end of the buffer sent, a closed run ends it, a mismatch moves the offset to where the server says and is no fault, and anything else is the fault reported if the budget ends with it |
| `Upload.NothingToSend` | backend/internal/agent/logstream.go:114-123 | with nothing pending or no time left nothing is posted |
| `Telling.TellsEvent` | backend/internal/agent/logstream.go:33-53 | whatever happens, what each goroutine has written and has still to write is what its code writes, and the log closes with its envelope or has |
| `Telling.LiveTells` | backend/internal/agent/agent.go:761-797 | however the run's goroutines, the live flusher, the network and the server interleave, within a flush and between, the upload is safe and the log tells what the goroutines wrote |
| `Telling.OverIsTold` | backend/internal/agent/executor.go:120-137 | when the run's goroutines have ended the log is closed, the envelope is its last line, and it holds of each goroutine exactly its lines in its order |
| `Telling.ClosedIsOver` | backend/internal/agent/logstream.go:40-53 | when the log is closed no goroutine of the run is left, so nothing is written behind the envelope during the terminal upload, whatever is scheduled |
| `Telling.LateWithoutTheWait` | backend/internal/agent/logstream.go:33-38 | without the wait the same code writes behind its envelope: the log itself does not prevent it |
| `RunLines.CodeWritesTheJob` | backend/internal/agent/executor.go:41-138 | the executor's code writes exactly the job's lines: each stream in a goroutine of its own, each target in one of its own, and what is said of the run, with the envelope last, in the run's own |
| `RunLines.LogHoldsTheJob` | backend/internal/agent/executor.go:120-138 | so when a run's goroutines have ended its log holds exactly the job's lines, each goroutine's in its order |
| `RunLog.Uploader.ReportNoManifest` | backend/internal/agent/agent.go:740-757 | a run whose manifest cannot be fetched still produces one closed log of one line and one envelope, delivered like any other |
| `RunLog.Uploader.Refuse` | backend/internal/agent/agent.go:356-369 | a refused assignment produces one closed log of one line and one envelope, sent with one budget of attempts |
| `RunLog.Uploader.RunGoroutine` | backend/internal/agent/logstream.go:33-53 | a goroutine's step on the real buffer, which it finds open whenever it writes |
| `RunLog.Uploader.StreamLogs` | backend/internal/agent/logstream.go:114-159 | the loop with its attempts, offsets and last error computes exactly the protocol's upload, in at most the budget's POSTs, a budget below one being one; giving up it has made them all |
| `RunLog.Uploader.FlushTerminal` | backend/internal/agent/agent.go:820-850 | the retry loop computes exactly the protocol's terminal upload; a first send that the server refuses with a status below 500 other than 429 ends it there, with nothing posted after |
| `RunLog.Uploader.RunLive` | backend/internal/agent/agent.go:761-797 | the run beside its flusher, step by step, computes exactly the interleaving |
| `RunLog.Uploader.ExecuteRun` | backend/internal/agent/agent.go:739-850 | a whole run through the executor's own code: the log is an interleaving of what its goroutines wrote, each in its order, and last the envelope of the exit code returned; when the upload reports delivery the server holds exactly those bytes |
| `Lifecycle.InvStep` | backend/internal/agent/agent.go:253-726 | every step of the loop, a run's goroutine, a refusal or a stop signal keeps the whole invariant |
| `Lifecycle.ReachableIsSafe` | backend/internal/agent/agent.go:253-726 | the invariant holds in every state of every interleaving |
| `Lifecycle.NoStartOnceStopping` | backend/internal/agent/agent.go:646-661 | once draining or aborted no run ever starts again, in any interleaving, and draining with nothing in flight is for good |
| `Lifecycle.ReturnedIsSettled` | backend/internal/agent/agent.go:253-331 | the loop returns only when every assignment received was started or refused, never both, and each such run, refusal and upload is over; and nothing undoes that |
| `Lifecycle.NoLostWakeup` | backend/internal/agent/agent.go:296-347 | a waiting loop whose last poll asked for no work for want of a slot, with a slot free now, has a freed token waiting or a goroutine about to send one, though the one-slot channel drops sends and the limit moves |
| `Lifecycle.StartsHaveASlot` | backend/internal/agent/agent.go:665-726 | a run starts only with the runs in flight below the limit in force; with no slot free their number does not rise |
| `Lifecycle.OverLimitOnlyShrinks` | backend/internal/agent/agent.go:343-347 | while a lowered limit is exceeded runs only end: none starts and none is replaced |
| `Lifecycle.NoSlotOnlyAfterALowering` | backend/internal/agent/agent.go:484-560 | against a server that hands no work to a poll that asked for none, a refusal for want of a slot means that same answer lowered the limit |
| `Lifecycle.ImmediatePollsArePaidFor` | backend/internal/agent/agent.go:253-331 | polls made at once number at most the runs started and the settings versions gone through: the loop does not spin |
| `Lifecycle.FinishedReaches` | backend/internal/agent/agent.go:702-722 | the finishing goroutine's separate sections, run without interruption, come to one state change |
| `Lifecycle.ObeyAllReaches` | backend/internal/agent/agent.go:580-607 | the control ops of one answer in order come to their composition |
| `Lifecycle.PassReaches` | backend/internal/agent/agent.go:484-560 | a whole poll without interruption is a run of the state machine's steps |
| `Lifecycle.LimitStaysPositive` | backend/internal/agent/settings.go:57-67 | whatever limits the server sends, zero and below included, the limit in force stays above zero, so an agent with nothing to do asks for work unless it is stopping |
| `Lifecycle.AbortLeavesNone` | backend/internal/agent/agent.go:376-390 | once an Abort has begun every run in flight is cancelled or still to be cancelled by an Abort in progress, an assignment that was on its way back included; when all have returned none is left |
| `Lifecycle.DispatchExactly` | backend/internal/agent/agent.go:665-726 | an assignment is started exactly if its run type is not masked, the agent neither drains nor was aborted, and a slot is free under the limit in force; it is refused otherwise; only a start makes the loop poll again |
| `Lifecycle.ObeyAllExactly` | backend/internal/agent/agent.go:580-607 | any ops in any order cancel exactly the runs in flight that they kill, and set draining exactly if one drains |
| `Lifecycle.AsksForWorkExactly` | backend/internal/agent/agent.go:484-500 | a poll asks for work exactly if the agent is not stopping and has a slot free |
| `Lifecycle.SettingsExactly` | backend/internal/agent/settings.go:41-67 | settings of another version are in force at once, limit and mask, and bring another poll; any other answer leaves them |
| `Lifecycle.PassEndsExactly` | backend/internal/agent/agent.go:253-331 | where the loop goes after a pass: done if draining with nothing in flight, waiting for the last run if stopping, on at once if it has reason to and no signal came, waiting otherwise |
| `Lifecycle.SignalExactly` | backend/internal/agent/agent.go:311-325 | a stop signal makes a waiting agent drain: it leaves if nothing is in flight, and otherwise polls on without asking for work |
| `Lifecycle.FinishExactly` | backend/internal/agent/agent.go:702-722 | a run that ends frees its slot and owes the loop word exactly of having been the last, and of having left a full agent |
| `Lifecycle.NoLostIdle` | backend/internal/agent/agent.go:281-290 | in any interleaving a stopping agent that waits with nothing left in flight has the word that it is idle, or a goroutine has still to send it |
| `AgentRuntime.SettingsStore.Apply` | backend/internal/agent/settings.go:41-53 | settings are installed exactly when their version is not the one applied; otherwise nothing changes |
| `AgentRuntime.Agent.FullNow` | backend/internal/agent/agent.go:343-347 | full is measured against the limit in force at this moment |
| `AgentRuntime.Agent.IsDrainingDone` | backend/internal/agent/agent.go:657-661 | draining with nothing in flight |
| `AgentRuntime.Agent.Abort` | backend/internal/agent/agent.go:376-390 | no start is possible from the moment the runs are listed, and every listed run is cancelled |
| `AgentRuntime.Agent.FinishedRun` | backend/internal/agent/agent.go:702-722 | the code that gives a slot back is a run of the state machine's steps, and wakes the loop whenever the agent was full or the run was the last |
| `AgentRuntime.Agent.DispatchRun` | backend/internal/agent/agent.go:665-726 | starts the assignment exactly when its run type is not masked, the agent neither drains nor was aborted, and its runs in flight are below the managed limit, or its own where that is none; refuses it otherwise |
| `AgentRuntime.Agent.HandleControl` | backend/internal/agent/agent.go:580-607 | the ops of an answer cancel exactly the runs in flight that they name, and make the agent drain exactly if one says so |
| `AgentRuntime.Agent.PollOnce` | backend/internal/agent/agent.go:484-560 | one poll (asked, settings, control, dispatch in that order) is a run of the state machine's steps, and says whether to poll again at once |
| `Fleet.EveryAssignmentIsReported` | backend/internal/agent/agent.go:253-331 | when the agent's loop has returned, every assignment it ever received, started or refused, has one log, closed with its envelope last, told in full (the executor's code of a run; exactly one line and the envelope of a refusal or a run without a manifest), and its upload is over and ended as it says |
| `Fleet.LoggedStep` | backend/internal/agent/agent.go:665-756 | every step of the life and every moment of any log keeps that each judged assignment has one true log, over unless its run or refusal is outstanding |
| `Fleet.RunsAndRefusalsClose` | backend/internal/agent/agent.go:356-369 | whatever becomes of an assignment (a run, a run without a manifest, a refusal) its code joins what it starts and closes its log with its envelope |
| `Calendars.DiffIsExact` | backend/internal/calendar/catalogue.go:65-88 | a difference is empty exactly when the two contents are equal |
| `ContentText.EscapeTellsApart` | backend/internal/calendar/catalogue.go:31-33 | the escaping of a description or label loses nothing |
| `ContentText.TextTellsApart` | backend/internal/calendar/catalogue.go:24-45 | the text that is hashed is equal for two contents exactly when they are: no description, day or label makes two read alike |
| `CalendarLaws.GoodStep` | backend/internal/api/calendars_catalogue.go:345-994 | every operation keeps the whole invariant: true links, settled notices, no freeze calendar kept to, unique names |
| `CalendarLaws.CopiesAreTrue` | backend/internal/api/calendars_catalogue.go:163-312 | in every reachable state a copy holds a content its catalogue calendar once held, with the hash of what it holds; links have depth one; it is up to date exactly when the contents are equal, and gone exactly when its calendar is |
| `CalendarLaws.NoFreezeIsKeptTo` | backend/internal/api/calendars_catalogue.go:251-266 | no reachable state has a freeze calendar that an entry or definition of its agency keeps to as run-day, owners in the recycle bin counted |
| `CalendarLaws.NoticesAreTheLinks` | backend/internal/api/calendars_catalogue.go:381-446 | the open notices are exactly those the links call for, after every operation, though each handler settles only the copies it names |
| `CalendarLaws.SaveSplitsTheCopies` | backend/internal/api/calendars_catalogue.go:332-377 | a save that changes the content splits the live copies into updated, behind and level: all but those behind hold the new content, an automatic copy is behind only for a run-day binding, and nothing else changes |
| `CalendarLaws.GoneForGood` | backend/internal/api/calendars_mount.go:557-633 | a deleted catalogue calendar is never linked again, by a later one of its name or otherwise |
| `CalendarLaws.CopiesAreReadOnly` | backend/internal/api/calendars_catalogue.go:271-312 | whatever the operation, a copy's content changes only to become its catalogue calendar's |
| `CalendarLaws.RefusedChangesNothing` | backend/internal/api/calendars_catalogue.go:579-994 | a refused, missing or needless operation leaves every calendar and binding as it was |
| `CalendarLaws.SettleSettles` | backend/internal/api/calendars_catalogue.go:402-446 | settling some copies settles all, when only those were unsettled |
| `CalendarOutcomes.CreateExactly` | backend/internal/api/calendars_mount.go:303-394 | when a calendar is created, from the tables, and the one row written |
| `CalendarOutcomes.SaveExactly` | backend/internal/api/calendars_mount.go:396-471 | when a save is done, the content it writes, and exactly which copies take it: live, automatic, holding something else, and allowed by their agency's bindings; every other row stays |
| `CalendarOutcomes.ReplaceDaysExactly` | backend/internal/api/calendars_mount.go:476-548 | the same of a replacement of the days |
| `CalendarOutcomes.DeleteExactly` | backend/internal/api/calendars_mount.go:557-633 | when a delete is done; it takes the one row and marks exactly its copies as no longer offered |
| `CalendarOutcomes.AddExactly` | backend/internal/api/calendars_catalogue.go:579-713 | when adding is done, and the rows written: one copy for each agency named, with the catalogue's content; or none for any |
| `CalendarOutcomes.UpdateExactly` | backend/internal/api/calendars_catalogue.go:755-798 | when an update is done, and the one row that then holds the catalogue's content |
| `CalendarOutcomes.SetModeExactly` | backend/internal/api/calendars_catalogue.go:803-858 | the mode set, and exactly when the pending content is taken with it; no other row changes |
| `CalendarOutcomes.DetachExactly` | backend/internal/api/calendars_catalogue.go:862-883 | the copy becomes the agency's own with what it holds and no notice; no other row changes |
| `CalendarOutcomes.PushExactly` | backend/internal/api/calendars_catalogue.go:927-994 | a row that a push changes is a live copy of an agency it names, and every such copy then holds the catalogue's content unless that is a freeze its agency keeps to; no other row changes |
| `CalendarOutcomes.BindExactly` | backend/internal/api/calendar_binding.go:21-45 | a binding is written exactly if its names are calendars of the agency, none in both roles, and none kept to a freeze |
| `CalendarOutcomes.LinkExactly` | backend/internal/api/calendars_catalogue.go:163-230 | a copy is gone exactly when its catalogue calendar is, up to date exactly when it holds the same content, and behind otherwise |
| `CalendarServer.NormalizeDays` | backend/internal/api/calendars_mount.go:926-942 | refused exactly when a day is invalid; otherwise the days asked for, each with the note of its first mention |
| `CalendarServer.Server.ApplyFrom` | backend/internal/api/calendars_catalogue.go:295-312 | the content is taken only if the row is still a live copy of that calendar |
| `CalendarServer.Server.PropagateCatalogue` | backend/internal/api/calendars_catalogue.go:345-377 | the loop updates exactly the automatic copies no binding blocks, lists as behind exactly the other differing ones, and does nothing on an unchanged save |
| `CalendarServer.Server.SettleCopyNotices` | backend/internal/api/calendars_catalogue.go:402-446 | opens and resolves exactly what the named copies call for |
| `CalendarServer.Server.CreateCalendar` | backend/internal/api/calendars_mount.go:303-394 | create: refused for a taken name or a blocked freeze, otherwise one new row |
| `CalendarServer.Server.UpdateCalendar` | backend/internal/api/calendars_mount.go:396-471 | save: refused on a copy or a blocked freeze, otherwise content, propagation and notices as the step says |
| `CalendarServer.Server.ReplaceCalendarDays` | backend/internal/api/calendars_mount.go:476-548 | replacing the days: the same through the content's days |
| `CalendarServer.Server.DeleteCalendar` | backend/internal/api/calendars_mount.go:557-633 | delete: refused while bound unless forced; its copies are marked gone and their notices settled |
| `CalendarServer.Server.AddFromCentral` | backend/internal/api/calendars_catalogue.go:579-713 | adding to several agencies is judged whole and then made whole |
| `CalendarServer.Server.UpdateFromCentral` | backend/internal/api/calendars_catalogue.go:755-798 | update: the catalogue's content as it is now, unless gone, own, level or blocked |
| `CalendarServer.Server.SetUpdateMode` | backend/internal/api/calendars_catalogue.go:803-858 | set to automatic while behind it takes the pending content at once if nothing blocks it |
| `CalendarServer.Server.DetachCalendar` | backend/internal/api/calendars_catalogue.go:862-883 | the copy keeps its content and loses its link and its notice |
| `CalendarServer.Server.PushCatalogue` | backend/internal/api/calendars_catalogue.go:889-994 | exactly the chosen copies that are behind and not blocked take the content |
| `CalendarServer.Server.WriteBinding` | backend/internal/api/calendar_binding.go:21-45 | a binding to an unknown calendar, to one both ways, or to a freeze calendar as run-day is refused |
| `Rewrap.Database.CompareAndSwap` | backend/cmd/cronomicon/rewrap.go:341-356 | the guarded write takes effect exactly when the row still is as it was read |
| `Rewrap.Database.RewrapOne` | backend/cmd/cronomicon/rewrap.go:329-358 | a value that does not open changes nothing; otherwise the row is sealed anew exactly if it still is what was read, and everything else is as the server left it; it fails exactly when the value does not open or the write fails |
| `Rewrap.Database.RewrapEnvelopeTable` | backend/cmd/cronomicon/rewrap.go:299-359 | what is written meanwhile is the server's alone, all of it and in order, and each row is as it was or sealed under the active key and bound; with no failure and a whole listing the table is current; with the server idle and every value opening it is so exactly when the listing was not cut before its last stale row, and no failure is counted either way |
| `Rewrap.Database.RewrapToken` | backend/cmd/cronomicon/rewrap.go:363-402 | a text that is no token, or one current and bound, is left alone; another is re-wrapped exactly if the row still holds it, every other row being the server's |
| `Rewrap.Database.RewrapColumn` | backend/cmd/cronomicon/rewrap.go:272-287 | token by token: nothing is written but by the server, in order; with no failure the column is current; where it was so nothing moves |
| `Rewrap.Database.RewrapAll` | backend/cmd/cronomicon/rewrap.go:266-289 | what is stored after the whole pass is what the server's writes, all of them and in order, make of what was stored before: no plaintext altered, none lost, no newer save overwritten; with no failure and whole listings every item is at the active version and bound; a value that does not open blocks none of the others; where all was current nothing moves; with the server idle the count of moved items is that of the rows that changed |
| `Rewrap.StoredIsSaved` | backend/cmd/cronomicon/rewrap.go:30-40 | two moments between which only the server wrote: what is stored at the later is the replay of those writes on what was stored at the earlier |
| `Rewrap.NothingLost` | backend/cmd/cronomicon/rewrap.go:103-109 | with the active key at hand, if every item opened before the pass every item opens after it, as what was last saved there |
| `Rewrap.Database.Survey` | backend/cmd/cronomicon/rewrap.go:207-252 | the survey counts the items of each version exactly, without opening any |
| `Rewrap.Database.SurveyAll` | backend/cmd/cronomicon/rewrap.go:207-252 | with the server writing between its statements: what it finds outstanding was so when it began, and what it does not find is not so when it ends; it changes nothing itself |
| `Rewrap.OutstandingCounts` | backend/cmd/cronomicon/rewrap.go:168-178 | something is outstanding exactly when a surveyed version is not the active one |
| `Rewrap.NothingOutstanding` | backend/cmd/cronomicon/rewrap.go:168-252 | after a pass without failures a survey finds nothing outstanding; nothing outstanding means all is current exactly when every item is also bound |
| `Rewrap.UnboundCanBeLeft` | backend/cmd/cronomicon/rewrap.go:127-130 | a concrete store on which nothing is outstanding and yet an item is unbound |
| `Rewrap.Database.RewrapSecrets` | backend/cmd/cronomicon/rewrap.go:41-144 | the command acts only when an item was at another version and it is no dry run, and has otherwise written nothing itself; it never alters a plaintext; a zero exit means all is current exactly when it acted or every item is bound |
| `Rewrap.SealedOpensInItsRow` | backend/internal/secrets/seal.go:71-101 | what is sealed bound to a row opens there, with its key at hand, and in no other row |
| `Rewrap.UnboundOpensUnlessRefused` | backend/internal/secrets/seal.go:71-101 | an unbound value opens in any row until unbound values are refused, and nothing opens under a form or version it was not sealed with |
| `Arrivals.SightingHasSettled` | backend/internal/agent/watcher.go:158-191 | a sighting was seen before with the same size and time at least its watch's window earlier, and no different file was seen there in between but ones already in the ledger |
| `Arrivals.ReportedHasSettled` | backend/internal/agent/watcher.go:114-191 | the same of every sighting in any scan's batch, after any history of scans, watch changes, prunings and failed reports, and the job is the one whose watch the scan held |
| `Arrivals.ScanIsEvents` | backend/internal/agent/watcher.go:114-156 | a scan is exactly the sequence of its observations, and each sighting in its batch is given by one of them |
| `Arrivals.SameSecondIsSameFile` | backend/internal/agent/watcher.go:251-257 | the ledger cannot tell two files of one path, size and second apart |
| `Arrivals.BatchIsTheMarked` | backend/internal/agent/watcher.go:158-191 | a scan marks exactly what its batch carries: nothing twice, nothing already in the ledger, nothing dropped by the limit |
| `Arrivals.LedgerIsWhatWasDelivered` | backend/internal/agent/watcher.go:235-249 | one scan: a key enters the ledger only with a report that succeeded; a failed report leaves the ledger as it was; a batch is at most a hundred |
| `ArrivalRuns.LedgerIsHistory` | backend/internal/agent/watcher.go:158-249 | after any history of scans, reports and watch sets, a file is in the ledger only if a report that carried it was delivered, and its mark is that scan's moment |
| `ArrivalRuns.SentAgainWasForgotten` | backend/internal/agent/watcher.go:193-210 | a file whose report was delivered is sent again only after a scan, more than a day later, that found nothing to report and forgot it |
| `ArrivalRuns.NothingSentTwice` | backend/internal/agent/watcher.go:158-191 | no scan of any history sends a file the ledger holds, or one twice, or more than a hundred |
| `ArrivalRuns.OneScan` | backend/internal/agent/watcher.go:144-156 | one delivered scan, early or late: its batch is new, what it leaves is still watched, and after the files have settled it takes a hundred or all that is left |
| `ArrivalRuns.EveryFileOnce` | backend/internal/agent/watcher.go:114-210 | a still directory and any scans of one day, as many as there are: no file is sent twice nor one that was in the ledger, and after enough scans past its windows every one has been |
| `ArrivalRuns.ArrivalsAreSentOnce` | backend/internal/agent/watcher.go:114-210 | the same from the first sight of a directory, with scans at any times of the day that follows, within the windows and after |
| `ArrivalFailures.NoneTwice` | backend/internal/agent/watcher.go:158-210 | whichever reports of a day fail, no file is delivered twice nor one the ledger had, and exactly what was not delivered is left unsent |
| `ArrivalFailures.EveryFileInTheEnd` | backend/internal/agent/watcher.go:158-210 | a still directory and any scans of one day, any of whose reports fail: once they no longer do, scans enough to begin the windows again and as many after them deliver every file, each once |
| `ArrivalFailures.FullOrWatched` | backend/internal/agent/watcher.go:114-156 | a delivered scan fills its batch, or leaves every file sent or being watched |
| `ArrivalWatches.ObserveExactly` | backend/internal/agent/watcher.go:158-191 | a file is reported exactly if it is not in the ledger and was first seen as it is now its watch's seconds ago, five if it says none; a new or changed file's window begins now |
| `ArrivalWatches.ForgetExactly` | backend/internal/agent/watcher.go:197-210 | exactly what is more than twenty-four hours old is forgotten |
| `ArrivalWatches.SetSpecsExactly` | backend/internal/agent/watcher.go:78-95 | a new watch set keeps a settling file, with its size, time and first sight, exactly if some watch of it is of the file's job |
| `ArrivalWatches.VisitsExactly` | backend/internal/agent/watcher.go:122-147 | a scan visits exactly what the patterns of its watches matched, where they are on the runner's own list |
| `ArrivalWatches.ReportsOnlyAllowed` | backend/internal/agent/watcher.go:122-156 | every sighting is of a file that matched such a pattern, under that watch's job, and no scan reports more than a hundred |
| `ArrivalWatches.SetsDoNotDelay` | backend/internal/agent/watcher.go:78-156 | a still directory, delivered reports, and any scans of one day with new watch sets between them that keep the jobs: no file is sent twice, and every one is sent once there have been scans enough after its window |
| `FileWatcher.Watcher.SetSpecs` | backend/internal/agent/watcher.go:78-95 | a file settling for a watch that is gone starts over; every other goes on |
| `FileWatcher.Watcher.Observe` | backend/internal/agent/watcher.go:158-191 | one look at one file computes the step of the window and the ledger |
| `FileWatcher.Watcher.ForgetStale` | backend/internal/agent/watcher.go:197-210 | exactly what is older than a day is forgotten |
| `FileWatcher.Watcher.Report` | backend/internal/agent/watcher.go:238-249 | a failed report takes exactly its own keys off the ledger |
| `FileWatcher.Watcher.ScanOnce` | backend/internal/agent/watcher.go:114-156 | the nested loops with their early breaks compute exactly one scan of the watches held when it began |
| `AccessLaws.DelegateStep` | backend/internal/api/access_grants_mount.go:140-240 | whatever a user who is no global access administrator asks for, only grants on agencies they administer change, into ones that give nothing they do not hold there to a group that agency lists; roles and lists stay |
| `AccessLaws.GainIsTheirs` | backend/internal/api/access_grants_mount.go:192-200 | who gains a permission by a delegate's step gains one the delegate holds in that agency |
| `AccessLaws.LossIsTheirs` | backend/internal/api/access_grants_mount.go:185-187 | who loses one loses it where the delegate administers access |
| `AccessLaws.CoalitionNeverGrows` | backend/internal/api/access_grants_mount.go:106-411 | over any run of requests by a coalition without a global access administrator, what it can do together in any agency never grows, and no all-agencies grant comes, goes or changes |
| `AccessLaws.OtherAgenciesUntouched` | backend/internal/api/access_grants_mount.go:140-202 | in an agency none of the coalition administers, every user can do exactly what they could |
| `AccessLaws.GivenOnlyToListed` | backend/internal/api/access_grants_mount.go:204-240 | every grant such a run leaves that was not there before names a group its agency lists |
| `AccessLaws.UnlistedIsOnlyDeleted` | backend/internal/api/access_grants_mount.go:212-240 | a grant naming an unlisted group is its delegate's to delete and, whatever it would become, not to change |
| `AccessLaws.SoundStep` | backend/internal/api/access_mount.go:227-368 | every grant or role edit keeps: each grant's role exists, no two grants are the same, the admin role is there, built in and manages roles |
| `AccessLaws.SoundRun` | backend/internal/api/access_mount.go:227-368 | so does any sequence of them, by anyone |
| `AccessLaws.SecondFloorIsNeverReached` | backend/internal/api/access_mount.go:284-298 | the second lockout floor, that some role keeps manageRoles, never refuses an edit in a reachable state |
| `AccessLaws.BreakGlassAlwaysWorks` | backend/internal/auth/grants.go:58-89 | after any run of edits the break-glass group still administers access |
| `AccessOutcomes.CanExactly` | backend/internal/auth/identity.go:224-310 | a permission is held in an agency by a grant on it or on every one, or by the break-glass group; none in the built-in agency or in none by a grant on one |
| `AccessOutcomes.CreatedGrantIsAsked` | backend/internal/api/access_grants_mount.go:256-310 | whoever asks, a grant that is made is the one asked for, in a row of its own, and nothing else changes |
| `AccessOutcomes.AdminCreatesGrant` | backend/internal/api/access_grants_mount.go:256-310 | a global administrator's grant is made unless improper, outside the request's agency, or there already |
| `AccessOutcomes.UpdatedGrantIsAsked` | backend/internal/api/access_grants_mount.go:312-376 | a grant that is changed is what was asked for, and nothing else changes |
| `AccessOutcomes.AdminUpdatesGrant` | backend/internal/api/access_grants_mount.go:312-376 | a global administrator's change is made unless improper, of no grant, or into one there already |
| `AccessOutcomes.DeletedGrantIsGone` | backend/internal/api/access_grants_mount.go:378-411 | a delete takes the one grant, and a global administrator's is always done where there is one |
| `AccessOutcomes.DelegateCreatesGrant` | backend/internal/api/access_grants_mount.go:256-310 | a delegate's grant is made exactly if proper, in the request's agency, of a role whose every permission they hold where they administer access, to a listed group, and new; the first of these that fails is the answer |
| `AccessOutcomes.DelegateUpdatesGrant` | backend/internal/api/access_grants_mount.go:312-376 | a delegate's change is held to this for the grant as it stands and for what it becomes |
| `AccessOutcomes.DelegateDeletesGrant` | backend/internal/api/access_grants_mount.go:378-411 | a delegate deletes exactly what they could give, listed or not |
| `AccessOutcomes.CreatedRoleIsAsked` | backend/internal/api/access_mount.go:227-262 | when a role is created, and the one stored |
| `AccessOutcomes.UpdatedRoleIsAsked` | backend/internal/api/access_mount.go:264-307 | when a role is changed, which floor refuses it, and the role stored |
| `AccessOutcomes.DeletedRoleIsGone` | backend/internal/api/access_mount.go:309-368 | when a role is deleted, and that it is the only one |
| `AccessOutcomes.GroupsSetAreAsked` | backend/internal/settings/agency_groups.go:60-101 | the groups an agency lists become those given, blanks aside, and no other agency's change |
| `AccessServer.Server.RequireGrantWritable` | backend/internal/api/access_grants_mount.go:167-202 | the loop over the permission names decides exactly whether the grant may be written by this user |
| `AccessServer.Server.ValidateGrant` | backend/internal/api/access_grants_mount.go:106-138 | accepted exactly with a group, a known role, and either every agency or one known agency that is not Global |
| `AccessServer.Server.RequireGroupListed` | backend/internal/api/access_grants_mount.go:215-240 | a delegate's grant names a listed group |
| `AccessServer.Server.CreateGrant` | backend/internal/api/access_grants_mount.go:256-310 | the create handler, its checks in their order |
| `AccessServer.Server.UpdateGrant` | backend/internal/api/access_grants_mount.go:312-376 | the edit handler, which holds both the grant as it stands and the one it becomes to the rules |
| `AccessServer.Server.DeleteGrant` | backend/internal/api/access_grants_mount.go:378-411 | the delete handler, which does not ask for a listed group |
| `AccessServer.Server.AnyOtherRoleManagesRoles` | backend/internal/api/access_mount.go:372-379 | true exactly when a role of another name manages roles |
| `AccessServer.Server.CreateRole` | backend/internal/api/access_mount.go:227-262 | a new role is never built in |
| `AccessServer.Server.UpdateRole` | backend/internal/api/access_mount.go:264-307 | both lockout floors, and built in stays what it was |
| `AccessServer.Server.DeleteRole` | backend/internal/api/access_mount.go:309-368 | neither a built-in role nor one a grant names is deleted |
| `Names.ValueOfRender` | backend/internal/agent/exec_local.go:665-672 | entries built from a map give each name its value |
| `Names.FilterOfSorted` | backend/internal/agent/exec_local.go:501-534 | picking from the sorted names gives the picked names sorted |
| `Names.BelowExactly` | backend/internal/agent/exec_local.go:501-501 | the order of names is that of the first character in which they differ |
| `ChildEnv.NonInterference` | backend/internal/agent/exec_local.go:490-649 | two agents whose environments differ only in CRONOMICON_RUNNER_ names give the same child environment, the same provenance and the same errors |
| `ChildEnv.ConfigMightAsWellBeAbsent` | backend/internal/agent/exec_local.go:490-649 | every run is as if the agent's configuration had never been in its environment |
| `ChildEnv.BaseScrubbed` | backend/internal/agent/exec_local.go:503-534 | not through the base either, whatever the operator adds to it |
| `ChildEnv.PassScrubbed` | backend/internal/agent/exec_local.go:547-611 | nor through a passthrough or its fallback to a bare name |
| `ChildEnv.OddNameIsSilentlyAbsent` | backend/internal/agent/exec_local.go:573-576 | a concrete run in which a name that is no identifier passes and is absent |
| `ChildEnv.SliceEnv` | backend/internal/agent/exec_local.go:665-672 | a map's identifiers in order, each with its value |
| `ChildEnv.EnvSliceHasKey` | backend/internal/agent/exec_local.go:653-661 | true exactly when a child would see the name |
| `ChildEnv.ReadEnviron` | backend/internal/agent/exec_local.go:491-501 | the last entry of a name wins, and each name is listed once |
| `ChildEnv.PassThrough` | backend/internal/agent/exec_local.go:547-611 | the loop over the names finds, refuses and misses exactly as declared, in order |
| `ChildEnv.BuildChildEnv` | backend/internal/agent/exec_local.go:490-649 | the whole builder computes the environment, the provenance or the error of the specification |
| `ChildEnv.ValuesAreAsDeclared` | backend/internal/agent/exec_local.go:529-648 | in an environment that was built each name has its declared value: what a passthrough found, then run extras, secrets, snapshot, base, and for ansible's host-key arguments the agent's own only if nobody gave any |
| `ChildEnv.FoundIsSeen` | backend/internal/agent/exec_local.go:547-611 | where no passthrough name holds an equals sign, what was found for one is what the child sees under it |
| `ChildEnv.PassthroughIsBound` | backend/internal/agent/exec_local.go:547-623 | when an environment is built a passthrough name is in it exactly if it holds no equals sign and is an identifier, or was not sent under a name no shell accepts, or another sets it |
| `ChildEnv.IdentifierIsBound` | backend/internal/agent/exec_local.go:547-623 | an identifier asked to be passed is always bound, whatever the other names are |
| `ChildEnvValues.AgentSees` | backend/internal/agent/exec_local.go:491-501 | the agent's environment is what a process given its entries sees |
| `ChildEnvValues.InheritsExactly` | backend/internal/agent/exec_local.go:503-534 | the names every child inherits: the safe list, the agent socket, the operator's own that are not the agent's configuration, and the locale's |
| `ChildEnvValues.FindExactly` | backend/internal/agent/exec_local.go:547-611 | for one passthrough name, from the run, the configuration and the environment: refused, supplied, found with which value and account, or missing |
| `ChildEnvValues.PassedValue` | backend/internal/agent/exec_local.go:547-611 | the child sees, under a name it asked for, what the agent's environment has there; failing that, and the snapshot, what it has under the name behind a reference; failing that the path of its key file, one of which there is |
| `ChildEnvValues.OtherValue` | backend/internal/agent/exec_local.go:503-545 | any other name has what was sent, extras before secrets before snapshot, or what every child inherits: nothing else of the agent's environment reaches the child |
| `ChildEnvValues.TrustValue` | backend/internal/agent/exec_local.go:625-648 | ansible's host-key arguments are the operator's, or name the trust store, exactly if nobody gave any and the run is ansible's |
| `ChildEnvValues.NotBuiltExactly` | backend/internal/agent/exec_local.go:612-623 | an environment is not built exactly if a name is refused, or none is and one is nowhere; the answer lists those names, in the order asked |
| `ChildEnvValues.ProvenanceExactly` | backend/internal/agent/exec_local.go:503-611 | the log is told of each operator's name that may not be inherited and of each value that came from another name or a key file, and of nothing else |
| `ChildEnvValues.PrefixIsUnseen` | backend/internal/agent/exec_local.go:490-649 | two agents whose entries differ only under names that begin with CRONOMICON_RUNNER_ give every run the same |
| `KnownHosts.AppendKeepsLines` | backend/internal/agent/keyscan.go:108-138 | appending leaves every line, in order, with the new ones after, exactly when there is nothing new or the file is empty or ends with a newline |
| `KnownHosts.AppendTwice` | backend/internal/agent/keyscan.go:108-138 | appending again changes nothing exactly when there was nothing new or the last line was blank |
| `KnownHosts.UnterminatedIsGlued` | backend/internal/agent/keyscan.go:119-135 | a concrete file without its newline whose last host and the appended one are lost |
| `KnownHosts.NewcomersAre` | backend/internal/agent/keyscan.go:124-136 | what is appended is trimmed, one line each, and was not there |
| `KnownHosts.NewcomersOnce` | backend/internal/agent/keyscan.go:124-136 | and none of it twice |
| `KnownHosts.NewcomersCover` | backend/internal/agent/keyscan.go:124-136 | and every acceptable entry that was not there is among it |
| `KnownHosts.RemoveTakesExactly` | backend/internal/agent/keyscan.go:155-252 | removing takes out exactly the single-host unmarked lines with a requested host and key; every other non-blank line stays as it was, in order; the count is right; with none to take the file is untouched |
| `KnownHosts.AppendThenRemove` | backend/internal/agent/keyscan.go:106-252 | appending entries and removing them leaves, of what was there, exactly the lines that were not theirs, and none of the entries |
| `KnownHosts.CommentStays` | backend/internal/agent/keyscan.go:203-204 | a line that reads as a comment is never taken out |
| `KnownHosts.FieldsOfTrim` | backend/internal/knownhostsline/line.go:35-58 | a line has the same words with or without the space around it, so an entry and the line it was written as are read alike |
| `KnownHostsLines.TrimExactly` | backend/internal/agent/keyscan.go:118-127 | trimming takes the white space at both ends, all of it, and nothing else |
| `KnownHostsLines.FieldsExactly` | backend/internal/knownhostsline/line.go:35-58 | the words of a line are what stands between its white space |
| `KnownHostsLines.TargetExactly` | backend/internal/agent/keyscan.go:175-181 | a line names a host and key exactly if it has three words, no marker and one host, and the key can be read |
| `KnownHostsLines.DropsExactly` | backend/internal/agent/keyscan.go:201-213 | a line is taken out exactly if it is no comment and an entry names the same host and key |
| `KnownHostsLines.RemoveExactly` | backend/internal/agent/keyscan.go:170-252 | exactly the lines so named are gone after a removal, counted as many |
| `KnownHostsLines.RewritesExactly` | backend/internal/agent/keyscan.go:200-252 | a file that loses a line is written anew as the lines that stay, blank ones between them too, with a newline after each |
| `KnownHostsLines.AddsExactly` | backend/internal/agent/keyscan.go:116-136 | a line is added exactly if it is an entry, trimmed, that is one line and that no line of the file is |
| `KnownHostsLines.AddsInOrder` | backend/internal/agent/keyscan.go:124-136 | the lines are added in the order of the entries, each where it comes first |
| `KnownHostsLines.AppendsExactly` | backend/internal/agent/keyscan.go:119-136 | the file is what it was followed by each new line and a newline |
| `TrustStore.KnownHostsFile.AppendKnownHosts` | backend/internal/agent/keyscan.go:108-138 | the loops over lines and entries compute the append, creating the file if absent |
| `TrustStore.KnownHostsFile.RemoveKnownHosts` | backend/internal/agent/keyscan.go:170-252 | the loops over entries, lines and targets compute the removal and its count |

## Left out

- Decoding of requests, SQL text, TLS, SSH, systemd and PATH probes, file locking, rename and modes: only the decision each makes is modelled.
- Cryptography: sealing is an injective box with fresh ciphertexts; SHA-256 is taken to tell texts apart, and `TextTellsApart` shows that the texts do.
- Timers and back-off lengths: the wait between attempts and polls is a step that may come at any time.
- Goroutine scheduling finer than the lock: a kill's look-up and its cancel are one step, as are the mask check and the section it precedes, since only the poll loop writes the settings.
- A log that a proxy answers for the server with 200, 204 or 409: the model takes those three as the server's own.
- Registration, heartbeats, re-declaration, host-key scans and the other control ops: they do not touch what the lifecycle keeps.
- Lifecycle.FinishedReaches: states the uninterrupted case; the interleaved one is what `InvStep` is about.
- Races between a calendar handler's first look and its transaction: each handler is one step.
- Calendar references by name and agency in a path, who may call which handler, the change log, alerts and the wording of notices: per-request detail.
- The list of a calendar's days is a map from day to note; its order is the sort's.
- Definitions' and entries' other fields: a binding owner is its agency, its run-day and skip names, and whether it is in the recycle bin.
- Rewrap.Database.RewrapAll: says that all is current for whole listings; exactly when a listing cut short leaves rows behind is stated of one table, with the server idle (`RewrapEnvelopeTable`).
- Arrivals.SightingHasSettled: lets a different file already in the ledger be seen in between, as the code does, which then leaves the window running.
- The order of a batch of sightings (sorted by path) and the key's text form: the set of keys is what the ledger keeps; a key's text ends in digits and a date, so it tells keys apart.
- ArrivalRuns.EveryFileOnce: is about the scans of one day, as are `ArrivalRuns.ArrivalsAreSentOnce` and `ArrivalFailures.EveryFileInTheEnd`; after a day the ledger forgets, and a file still there is sent again (`SentAgainWasForgotten`).
- Trimming and lower-casing of role names, and trimming of groups, at the boundary of the access handlers: names are as stored.
- Creating and removing agencies (a removal takes its grants with it), and per-agency read filters.
- The expansion of an agency to its scopes: permissions are asked per agency, as the grant handlers do.
- RunLog.Uploader.ExecuteRun: is about runs that end, as the code after the executor is; every run can (`RunsCanEnd`).
- The bound on how many targets run at once, the goroutines that write to a process or kill it, and scheduling priorities: they write nothing to the log, and every interleaving is covered.
- Whether a key file exists in the key directory: the files the agent holds are a map, by exact name.
- The key in a known hosts line: reading it is a function of its type and text, any function; so the results hold for the real one.
- KnownHosts.RemoveTakesExactly: is about non-blank lines; blank lines at the end of a rewritten file are not kept, as in the code.
- Configuration layering, doctor checks, galaxy installs, requirement lint, archives, analytics, backup and restore, and the frontend: they would only add easier members.
