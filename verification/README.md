# romi: verified models of the hub and the agent

romi is a monitoring hub and a small Linux agent, both in Rust. This project models
the parts of them whose correctness is a statement about whole runs, and proves those
statements with Dafny. `dafny verify dfyconfig.toml` checks everything.

| file | what it models |
|---|---|
| `AgentSessions*.dfy` | connections, reconnects, token rotation, deletion and restore, with every lock and every database write as a step of its own; `AgentSessionsEffects.dfy` says what each achieves |
| `Reports.dfy` | one session's report state: the minute in progress, the row it becomes, the rates |
| `AlertSweep.dfy`, `AlertRuns.dfy`, `AlertExact.dfy`, `TrafficRuns.dfy` | the connectivity and traffic sweep, what a run of sweeps announces, and exactly when |
| `AlertWatch.dfy`, `TrafficWatch.dfy` | the loop of sweeps, and the run of events it is for each node |
| `AlertNotes.dfy` | the alerts as the hub writes them |
| `Template*.dfy`, `Json*.dfy` | the notification template renderer and the values it puts in, the check a webhook body passes, and JSON itself |
| `FrameCache.dfy` | the frames browser streams share |
| `GeoUpdate.dfy` | updating the country database, cancelling against committing |
| `Upload.dfy` | the chunked upload of a backup |
| `Throttle.dfy` | the lockout counter of the sign-in page |
| `Probes.dfy` | the agent's probe loops |
| `Expiry.dfy` | rolling an expiry date forward |
| `Mounts.dfy`, `MountTheorems.dfy` | which mount points count towards the disk totals |
| `Base64.dfy` | the base64 encoder |

Three shapes recur. Code that one task runs on its own state is a class whose methods
are proved against a function of the old state, and the theorems are lemmas about that
function. Code that several tasks run at once is a step relation: a state holds the
shared data, who holds which lock, and where each task is; any interleaving of steps is
a run, and the theorems hold in every state of every run. Code made of expressions is
functions.

**Sessions.** A state of `AgentSessions` holds any number of connections, panel
operations and node-list reads. Locks are `agents_admin`, the lock of the `agents` map
(readers and a writer) and one state lock per session. The log records activations, the
start of each closure run under a retirement, and every database write of `dispatch`.
The invariant (`AgentSessionsInvariant`) says who holds what, that a session is in the
map, fenced, or being retired by the holder of the admin lock, and that nothing in the
log was written past a fence. The database is atomic steps that may fail. What the invariant cannot say,
`AgentSessionsEffects` does: which writes one frame makes, all of them and no others, and
that some run makes them.

**What turned out false, and exactly when.**

- The one sample a webhook body is checked with does not imply that every alert renders
  to JSON: `"\{{event}}"` passes with the sample's `test` and fails with `offline`
  (`SampleCheckAlone`). A body is valid for every alert if and only if it passes the
  sample and every placeholder in it is well placed (`ValidForEveryAlert`,
  `JsonForEveryAlert`): in a string, and not in an escape, save `{{time}}` as the last
  digits of a `\u` escape.
- Offline and online announcements do not strictly alternate. A store that fails ends the
  sweep, and what the sweep had stored of earlier nodes is then never sent
  (`LostReturnRepeatsAnAlert`). The stored changes alternate (`ChangesAlternate`); two
  announcements in a row differ if and only if an even number of changes stored between
  them was lost (`AnnouncementsDifferExactly`).
- Half an hour between a return and the next offline alert does not hold across a restart
  (`SpacingNeedsTheSameProcess`), nor within a process after a return whose store failed
  (`SpacingNeedsTheReturnStored`) or at which the grace had been raised
  (`SpacingNeedsAGraceThatDoesNotRise`). Within a process whose clock does not fall, over
  all continuations with graces of at least `least`, it holds if and only if some return
  from an absence of at least the grace then in force lies at most half an hour and `least`
  before it, or `least` is itself half an hour (`SpacingExactlyAfterALongReturn`). While
  every return is stored and the grace never rises, the return of an absence the process
  stored is such a return (`StoredReturnIsRemembered`).
- A traffic step is announced again after a restart, against what the comment on `primed`
  says (`RestartUnexaminedRepeats`): the first sweep that examines the node announces the
  step reached if and only if a sweep had completed since the restart without examining it
  (`AnnouncedAfterRestartExactly`). With restarts examined first, and within a process, a
  period has at most two alerts (`TwoTrafficAlertsPerPeriod`).
- A viewer that starts after a panel write returned can show an older frame if and only if
  it reads a clock from the epoch up to the time to live after it
  (`StaleExactlyAtTheEpoch`), because a dropped slot is stamped zero.
- Not every occurrence of a placeholder is filled: `{{{event}}` is left as it is. One is
  filled if and only if an even number of braces opens before it (`FilledExactly`).
- An emitted mount path is the mount point itself if and only if that holds no tab, line
  break or backslash; only `\040` is decoded (`DecodedExactlyWhenPlain`).
- At most nine failures per lockout holds if and only if no two requests of an address are
  between their check and their outcome at once (`NineExactlyWhenOneAtATime`). With `k` at
  once the bound is 7 + 2k (`FailuresPerLockout`), and it is reached for every `k`
  (`BoundIsReached`). `login` checks first and records after verifying the password, and
  the password gate is entered after the check, so nothing in it keeps `k` at one.
- The file of an upload is the accepted pieces in order if and only if no refused piece left
  a trace (`FileIsTheAcceptedPieces`). One does exactly when its truncation fails after some
  of it had landed, or when it completes a file that can be neither moved away nor removed
  (`NoTraceExactly`).
- The comment on `renewed` says a date is rolled forward until it lies in the future; the
  code stops at today: the answer is today if and only if today lies a whole number of
  cycles of months on, on the original day cut down to the shortest month met on the way
  (`TodayExactlyWhenReached`). The model follows the code.

## Model

| member | source | states |
|---|---|---|
| `AgentSessionsTheorems.StepKeepsInv` | server/src/agent_ws.rs:250-455 | Every step of a connection, a panel operation or a node-list read keeps the invariant: locks are held by exactly those at the matching step, activated sessions are in the map, fenced or being retired, and no write lies past a fence. |
| `AgentSessionsTheorems.RunKeepsInv` | server/src/agent_ws.rs:250-455 | The invariant holds after any interleaving, for any number of nodes, connections and panel operations. |
| `AgentSessionsTheorems.SessionFence` | server/src/agent_ws.rs:376-432 | Once a retirement's closure has started, every later database write for a node it covers comes from a session activated after that start; reports that had already cloned their handle included. |
| `AgentSessionsTheorems.ReconnectOrder` | server/src/agent_ws.rs:250-272 | For two sessions of one node, all writes of the earlier-activated one precede the activation of the later, whose writes all follow it. |
| `AgentSessionsTheorems.RowsStrictlyIncrease` | server/src/agent_ws.rs:87-100 | Over any run with a nondecreasing clock, a node's history rows carry strictly increasing minutes, reconnects included, so no minute is written twice. |
| `AgentSessionsTheorems.WritersHoldLiveTokens` | server/src/agent_ws.rs:255 | Whoever is past the retired check presents a token that the database maps to its node at that moment. |
| `AgentSessionsTheorems.OneWriterPerNode` | server/src/agent_ws.rs:424-432 | At most one session of a node is ever past the retired check. |
| `AgentSessionsTheorems.MapHolderProceeds` | server/src/agent_ws.rs:419-427 | Whoever holds the map lock, as a writer or a reader, asks for no other lock and can take its next step. |
| `AgentSessionsTheorems.AdminHolderProceeds` | server/src/agent_ws.rs:397-410 | The holder of the admin lock can go on itself, or the holder of the one lock it waits for can, the map's or a session's, however many state locks it holds. |
| `AgentSessionsTheorems.NoDeadlock` | server/src/agent_ws.rs:250-432 | In every reachable state with an unfinished operation, some unfinished operation has an enabled step. |
| `AgentSessionsTheorems.StepsBringOperationsToTheirEnd` | server/src/agent_ws.rs:250-455 | Every step of an operation strictly lowers what it has left to do and leaves every other task where it was. |
| `AgentSessionsEffects.FrameWritesExactly` | server/src/agent_ws.rs:432-455 | Between the retired check and the return of a frame, whatever runs beside it, the log gains of its session, when `dispatch` answers that all went well, exactly the facts for a hello, at most one row for a probe result, nothing for an unknown method, and for a report the totals, a row if and only if the clock it read is past the minute of the last row, and the mark that the node was seen; when it goes wrong, a proper part of that from the start. |
| `AgentSessionsEffects.GoesWrongOnlyAtAStore` | server/src/agent_ws.rs:518-606 | A frame goes wrong only at a database write, which could have been made instead, or on a report refused before the clock is read. |
| `AgentSessionsEffects.RefusedExactly` | server/src/agent_ws.rs:420-432 | A frame ends before its writes if and only if the map does not hold its session at the lookup, or the session is retired at the check. |
| `AgentSessionsEffects.EveryFrameCanBeTaken` | server/src/agent_ws.rs:415-455 | Any frame of a session in the map can be taken whole by steps of the session alone, with exactly those writes, after which it is ready for the next. |
| `AgentSessionsEffects.EveryFrameIsTakenInSomeRun` | server/src/agent_ws.rs:415-455 | For each frame, and for a report within the minute the session opened in and in a later one, a run of the hub takes it whole. |
| `AgentSessionsEffects.ReleaseTakesItsOwn` | server/src/agent_ws.rs:358-374 | A release takes its own session out of the map, and no other. |
| `AgentSessionsEffects.ReleasedForGood` | server/src/agent_ws.rs:352-374 | Whatever follows a release, the session is never again in the map and writes nothing more. |
| `AgentSessionsEffects.EveryConnectionCanLeave` | server/src/agent_ws.rs:346-374 | A session in the map can leave it, which takes its node's entry, marks it retired and changes nothing else. |
| `AgentSessionsEffects.RetirementRunsItsClosure` | server/src/agent_ws.rs:376-412 | A retirement that is over has run its closure, after it was asked for. |
| `Reports.Elapsed` | server/src/agent_ws.rs:585 | The seconds a rate divides by are the whole seconds between the two readings, and one when those are less. |
| `Reports.MeanWithinHalf` | server/src/agent_ws.rs:192-209 | An averaged field of a row is exact for `cpu`; any other is integral and within one half of the true mean of the reports that carried it, or the nearest i64 when the mean lies outside that range. |
| `Reports.Minute.Add` | server/src/agent_ws.rs:179-187 | Folding a report in adds it to the reports the minute stands for, slot by slot. |
| `Reports.Minute.WriteInto` | server/src/agent_ws.rs:192-209 | The row gets the mean of exactly the reports folded in, in every averaged field it carries and they do, and keeps its other fields. |
| `Reports.AgentState.constructor` | server/src/agent_ws.rs:87-100 | A session opens with nothing recorded and with the minute in progress already accounted for. |
| `Reports.AgentState.Report` | server/src/agent_ws.rs:518-606 | A report is accepted exactly when it is well formed and its counters were stored. The live metrics are then its fields and the four figures the database answered; a row is due when its minute is another than the last row's, and keeps the fields that are neither averaged nor rates; a refused report changes nothing. |
| `Reports.LiveIsTheReportAndItsFigures` | server/src/agent_ws.rs:555-563 | The live metrics have exactly the report's fields and the four accumulated figures, those with the values the database answered and every other with the report's. |
| `Reports.RowKeepsTheRest` | server/src/agent_ws.rs:580-590 | A row has the live metrics' fields, and both rates unless it is the session's first; outside the averaged fields and the rates they carry the same values. |
| `Reports.SeenAtTheLatestReport` | server/src/agent_ws.rs:573 | A session was last seen at its latest accepted report. |
| `Reports.AcceptableStaysSo` | server/src/agent_ws.rs:518-535 | A report stays acceptable with a field missing, with another non-negative number, with null in an optional field, with a load of three non-negative numbers, and with anything in a field that is not checked. |
| `Reports.StoredRowsAreSound` | server/src/agent_ws.rs:523-601 | Whatever reports were accepted, every checked field of a stored row is a number that is not negative, or null where it is optional, means and rates included. |
| `Reports.EveryReportCountedOnce` | server/src/agent_ws.rs:571-601 | The batches of a session's rows and the pending tail, put end to end, are all its accepted reports in order. |
| `Reports.RowDescribesItsBatch` | server/src/agent_ws.rs:580-601 | A row is stamped with its minute and carries, in each averaged field, the mean of exactly the reports of its own batch. |
| `Reports.RowsIntegrateToTotals` | server/src/agent_ws.rs:580-598 | Between the first mark and the last, each rate a row carries times its interval sums to what the total climbed, short by less than one byte per second of each interval, in either direction. |
| `Reports.RatesIntegrateToTotals` | server/src/agent_ws.rs:580-598 | The same of the rates themselves, and the mark is always the report the last rate was measured up to. |
| `Reports.RowIsFirstPastItsMinute` | server/src/agent_ws.rs:565-571 | With a nondecreasing clock a row is stored exactly by the first report past each minute. |
| `AlertSweep.GraceIsCapped` | server/src/notify.rs:59-95 | The grace in force is the stored number of minutes from one to thirty, and three minutes whatever else is stored; so it is positive and at most the flapping grace. |
| `AlertSweep.Watch.constructor` | server/src/notify.rs:490-506 | A process starts with nothing remembered but the stored marks. |
| `AlertSweep.Watch.Retain` | server/src/notify.rs:556-559 | A node no longer listed is forgotten; the others keep what was remembered of them. |
| `AlertSweep.Watch.Visit` | server/src/notify.rs:563-586 | One node's turn changes only that node's memory, and as the specification of a look says, failed stores included; `AlertExact` says when that alerts and what it remembers. |
| `AlertSweep.Watch.Connectivity` | server/src/notify.rs:562-587 | Each listed node takes its own turn from what was remembered of it until a store fails; the two lists name, in order, exactly the nodes that went down or came back. |
| `AlertSweep.Watch.Meter` | server/src/notify.rs:595-624 | A metered node's step is recorded, and announced as the specification says; `TrafficRuns.ToldExactlyWhenDue` says when that is. |
| `AlertSweep.Watch.Crossings` | server/src/notify.rs:592-634 | The list names, in order, exactly the nodes whose step is announced; every metered node's step is recorded and no other. |
| `AlertSweep.Watch.Sweep` | server/src/notify.rs:548-637 | A sweep is a retain, the connectivity turns, and, unless a store failed, the traffic turns; a failed store leaves the nodes behind it and all traffic untouched and announces nothing. |
| `AlertRuns.AbsentSinceFirstSweepOfRun` | server/src/notify.rs:579 | A node is remembered absent since `t` if and only if the current unbroken run of sweeps that saw it away began at `t`. |
| `AlertRuns.OfflineAlertEndsALongAbsence` | server/src/notify.rs:579-585 | Every offline alert ends an unbroken absence of at least the wait in force, itself at least the grace. |
| `AlertExact.OfflineExactlyWhenDue` | server/src/notify.rs:575-585 | Over any run, restarts, rows that come and go and failed stores included, an offline change is stored if and only if the store works, the node is away, has reported and has alerts on, a channel is set up, no absence is on record, and the absence has lasted half an hour when it opened less than 3600 s after the latest return from a long one the process knows of, and the grace otherwise. |
| `AlertExact.OnlineExactlyWhenDue` | server/src/notify.rs:568-571 | A return is stored if and only if the node is online, its absence is on record and the store works. |
| `AlertExact.FailsExactlyAtAStore` | server/src/notify.rs:568-585 | A look fails, which ends its sweep, if and only if a change is due and its store does not work. |
| `AlertExact.MarkIsTheLastReport` | server/src/notify.rs:583 | The stored mark is the node's last report at the offline change that wrote it, and zero after a return or on a new row. |
| `AlertExact.RemembersTheLatestReturn` | server/src/notify.rs:564-566 | What is remembered as returned is the latest return from a long absence since the process started and the row was there, with any clock. |
| `AlertRuns.MarkFollowsTheChanges` | server/src/notify.rs:568-585 | The stored mark says which way the last stored change went, across restarts and failed stores: the first one's way after an even number of further changes, the other after an odd number. |
| `AlertRuns.ChangesAlternate` | server/src/notify.rs:568-585 | A node's stored offline and online changes strictly alternate, across hub restarts and failed stores. |
| `AlertRuns.AnnouncementsDifferExactly` | server/src/notify.rs:521-536 | Two announcements of a node in a row differ if and only if an even number of changes stored between them was lost with a sweep that another node's store cut short. |
| `AlertRuns.LostReturnRepeatsAnAlert` | server/src/notify.rs:568-571 | A concrete run whose announcements are two offline alerts in a row: the return between them was stored and never sent. |
| `AlertRuns.ReturnBetweenAbsences` | server/src/notify.rs:568-571 | Between two stored absences of a node its return was stored. |
| `AlertRuns.SpacingExactlyWhenRemembered` | server/src/notify.rs:580-582 | After a return at `r`, no continuation of the process with a nondecreasing clock and graces of at least `least` alerts before `r` + 1800 s if and only if a long return recent enough is remembered or `least` is half an hour; likewise of the continuations that keep the grace at `least`. |
| `AlertRuns.SpacingExactlyAfterALongReturn` | server/src/notify.rs:564-582 | After a return stored at `r` in a process with a nondecreasing clock, failed stores and changes of the grace included, no continuation with graces of at least `least` alerts before `r` + 1800 s if and only if some return from an absence of at least the grace in force at it lies at most 1800 s and `least` before `r`, or `least` is 1800 s. |
| `AlertRuns.ReturnedSince` | server/src/notify.rs:564-566 | In a process with a nondecreasing clock, what is remembered as returned is the latest return from an absence of at least the grace in force at it. |
| `AlertRuns.StoredReturnIsRemembered` | server/src/notify.rs:564-571 | While every return is stored, the grace never rises and the clock never falls, the stored return of an absence this process stored is remembered as a long return. |
| `AlertRuns.FlapSpacing` | server/src/notify.rs:59-64 | Within a process whose returns are all stored, whose grace never rises and whose clock never falls, after the return at `r` of an absence it stored no offline change is stored, and none announced, before `r` + 1800 s. |
| `AlertRuns.SpacingNeedsTheSameProcess` | server/src/notify.rs:489-506 | A concrete run in which, after a restart, an alert follows a return by 90 seconds. |
| `AlertRuns.SpacingNeedsTheReturnStored` | server/src/notify.rs:568-571 | A concrete run of one process in which the store of a return fails and an alert follows its announcement by 90 seconds. |
| `AlertRuns.SpacingNeedsAGraceThatDoesNotRise` | server/src/notify.rs:560-566 | A concrete run of one process in which the grace is raised before a return and lowered after it, and an alert follows that return by 90 seconds. |
| `AlertRuns.AlertsPerWindow` | server/src/notify.rs:59-64 | A window of T seconds of one process whose returns are all stored, whose grace never rises and whose clock never falls holds at most 1 + T/1800 offline alerts of a node. |
| `AlertWatch.NamedExactly` | server/src/notify.rs:570-584 | A list of a sweep names exactly the nodes whose turn brought its news. |
| `AlertWatch.SweepIsOneEvent` | server/src/notify.rs:548-590 | A sweep is one event for each node: its memory moves by that event, and it is named if and only if the event changes its mark and the sweep completes. |
| `AlertWatch.SweepOnce` | server/src/notify.rs:548-590 | The same of the sweep itself, with rows created and deleted before it; the event is a look at the node's row, alerts switch, last report and store as they are, or no such row, or a row a failed sweep did not reach. |
| `AlertWatch.Follow` | server/src/notify.rs:508-538 | Over any sequence of sweeps, what is announced of a node is exactly what its run of events announces, and what is remembered of it is what that run leaves; each event describes its rows. |
| `TrafficRuns.StepIsExact` | server/src/notify.rs:597-611 | For all non-negative i64 counters the step compares the true share of the allowance, saturation included, and no product leaves i128. |
| `TrafficRuns.StepRises` | server/src/notify.rs:603-611 | With fixed settings a larger usage never has a smaller step, and a step is 0, the percent, or 100. |
| `TrafficRuns.RecordsTheLatest` | server/src/notify.rs:592-618 | For a listed node whose restarts are each first examined, the step recorded is that of the latest sweep that examined it, or none since a restart. |
| `TrafficRuns.ToldAreAnnounced` | server/src/notify.rs:614-633 | The steps told of a period are those of the announcements of that period, in order. |
| `TrafficWatch.CrossedExactly` | server/src/notify.rs:595-633 | The list of a sweep names exactly the nodes whose step is announced. |
| `TrafficWatch.SweepIsOneEvent` | server/src/notify.rs:592-637 | A sweep is one event for the traffic of each node: what is recorded moves by that event, and the node is named if and only if the event is announced. |
| `TrafficWatch.SweepOnce` | server/src/notify.rs:592-637 | The same of the sweep itself; the usage of a node is examined if and only if the sweep gets there, the node has an allowance and counters, the percentage is positive and a channel is set up, and it is the usage its mode asks for. |
| `TrafficWatch.Follow` | server/src/notify.rs:508-538 | Over any sequence of sweeps with a fixed allowance and percentage, what is announced of a node's traffic is exactly what its run of events announces, and what is recorded is what that run leaves. |
| `TrafficRuns.TwoTrafficAlertsPerPeriod` | server/src/notify.rs:592-635 | Over any run of a listed node, with sweeps that fail or do not examine it, changes of period, and restarts whose first completed sweep examines it, a period has at most two traffic alerts, at increasing steps. |
| `TrafficRuns.AnnouncedAfterRestartExactly` | server/src/notify.rs:490-494 | After a restart the first sweep that examines a node announces the step reached if and only if it is positive and a sweep had completed since without examining the node. |
| `TrafficRuns.ToldExactlyWhenDue` | server/src/notify.rs:592-620 | Over any run, what a sweep finds of a node's traffic is announced if and only if a sweep of the process has completed before, the usage has reached the percentage of the allowance, and the latest examination lies before a restart or an earlier row, in another period, or below a share now reached; what is told is the whole allowance or the percentage. |
| `TrafficRuns.PrimedExactly` | server/src/notify.rs:636 | The sweep is primed if and only if one of the process has completed. |
| `TrafficRuns.RecordsExactly` | server/src/notify.rs:614 | The step recorded is that of the latest examination, and none after a restart or on a new row. |
| `TrafficRuns.RestartUnexaminedRepeats` | server/src/notify.rs:490-494 | A concrete run in which a restart whose first completed sweep leaves the node unexamined repeats an alert. |
| `Template.FieldAt` | server/src/notify.rs:219 | The field found at a position is one whose placeholder stands there, and none is found if and only if no placeholder does. |
| `Template.SegmentsKeepTheTemplate` | server/src/notify.rs:216-237 | Reading a template into text and slots loses nothing: the placeholders put back give the template. |
| `Template.Find` | server/src/notify.rs:216 | The next pair of braces is found, at its first position, exactly when there is one. |
| `Template.Render` | server/src/notify.rs:204-238 | The output is the template's text with each slot's value where the slot stood, in one pass; inserted values are never read again. `TemplateValues` says which value each slot gets. |
| `TemplateSlots.FilledExactly` | server/src/notify.rs:217-235 | A placeholder at a position is filled if and only if an even number of braces opens just before it. |
| `TemplateValues.EachGivesItsOwn` | server/src/notify.rs:207-214 | `{{event}}`, `{{node}}`, `{{title}}`, `{{message}}`, `{{site}}` and `{{time}}` alone give the event, node, title, message, site and time of the alert. |
| `TemplateValues.EachStandsForItsOwn` | server/src/notify.rs:222-225 | Inserted into a JSON string each stands, read by section 7 of RFC 8259, for that same value. |
| `TemplateValues.EscapedReadsBack` | server/src/notify.rs:222-225 | An escaped text, read as the inside of a JSON string, is the text. |
| `TemplateValues.SlotGetsItsValue` | server/src/notify.rs:216-237 | Within any template a placeholder with an even number of braces open before it gives what it gives alone, between what the text before and the text behind it give. |
| `TemplateValues.TextIsCopied` | server/src/notify.rs:217-237 | A text without such a placeholder comes out as it is. |
| `TemplateValues.DefaultTextReads` | server/src/notify.rs:68 | The default text is the title and the message on two lines. |
| `TemplateCheck.EscapeKeepsString` | server/src/notify.rs:223-225 | An escaped value leaves a JSON string open exactly where it was, whatever the value. |
| `AlertNotes.OutageIsWritten` | server/src/notify.rs:471-487 | The offline alert of one node reads as the source writes it, mark, name and last report. |
| `AlertNotes.OneNodeIsWritten` | server/src/notify.rs:471-485 | The alert of one node, of each of the five kinds, has the event, mark, name and words the source gives it and the detail for its message. |
| `AlertNotes.EachNodeIsListed` | server/src/notify.rs:476-484 | Each further node adds its line to the message, up to the twentieth, and its name to the list of names. |
| `AlertNotes.TheRestAreCounted` | server/src/notify.rs:478-481 | An alert of several nodes says how many they are, and beyond the twentieth how many more, in decimal. |
| `TemplateCheck.RenderedRunsAsPlaced` | server/src/notify.rs:204-238 | With well-placed slots, a body rendered with any values leaves the recogniser where the body alone does. |
| `TemplateCheck.RenderingIsIndependentOfValues` | server/src/notify.rs:204-238 | Two alerts leave the recogniser in the same configuration after every prefix of a well-placed body. |
| `TemplateCheck.ValidForEveryAlert` | server/src/notify.rs:164-182 | A body is accepted for every alert the hub writes, from any site at any time, if and only if it passes the one sample and its placeholders are well placed. |
| `TemplateCheck.JsonForEveryAlert` | server/src/notify.rs:164-182 | The same, with validity by the grammar of RFC 8259. |
| `TemplateCheck.SampleCheckAlone` | server/src/notify.rs:164-182 | A body that passes the sample and breaks on an offline alert the hub writes. |
| `JsonGrammar.EveryJsonTextIsAccepted` | server/src/notify.rs:164 | Every text derived from the grammar of RFC 8259 is accepted by the recogniser. |
| `JsonParse.AcceptsExactlyJson` | server/src/notify.rs:164 | The recogniser accepts a text if and only if the grammar of RFC 8259 derives it. |
| `FrameCache.Snapshot.LiveSnapshot` | server/src/api.rs:380-402 | A frame young enough is returned and nothing changes; otherwise the rebuilt frame is returned and stored in its own audience's slot. |
| `FrameCache.Snapshot.Invalidate` | server/src/api.rs:406-410 | Both slots are marked dropped, frames kept. |
| `FrameCache.ReusedForItsLifetime` | server/src/api.rs:384-395 | A slot is reused if and only if the clock is at or past its stamp by less than the time to live: a frame stamped in the future never is. |
| `FrameCache.NextKeepsInv` | server/src/api.rs:380-410 | Each step of viewers and panel writes keeps: a slot is dropped or holds a frame of its own audience rebuilt after every write that has returned. |
| `FrameCache.FreshAfterReturn` | server/src/api.rs:1011-1015 | In every interleaving a viewer that starts after a panel write returned shows a frame of its own audience whose rebuild began after that write committed, unless its clock reads less than the time to live after the epoch. |
| `FrameCache.FramesAreYoung` | server/src/api.rs:380-402 | In every interleaving a viewer shows a frame rebuilt for its audience by a viewer whose clock read at most its own and less than the time to live before, unless its clock reads less than the time to live after the epoch. |
| `FrameCache.RebuiltFramesAreShared` | server/src/api.rs:392-402 | A rebuilt frame is reused for its audience at exactly the clocks of its lifetime, and the other audience's is untouched. |
| `FrameCache.StaleExactlyAtTheEpoch` | server/src/api.rs:380-410 | Some interleaving shows such a viewer something older, or nothing, if and only if its clock reads less than the time to live after the epoch. |
| `FrameCache.DroppedSlotsAreReusedOnlyAtTheEpoch` | server/src/api.rs:392-409 | A dropped slot is reused if and only if the clock reads less than the time to live. |
| `FrameCache.NeverStuck` | server/src/api.rs:380-410 | While a viewer or a panel write is unfinished, one of them can go on. |
| `Upload.TakenWhole` | server/src/api.rs:1303-1324 | A body is taken whole if and only if it ends properly, the disk takes all of it and it stays within the declared size. |
| `Upload.FaultIsOfTheFirst` | server/src/api.rs:1310-1322 | A body stops at its first item that breaks, passes the declared size or does not all land; the error is that item's, and what landed is everything before it and of it. |
| `Upload.AnswersExactly` | server/src/api.rs:1258-1297 | When each answer is given, by the request, the file and the disk: out of range, past the end, gone, misaligned with the length there is, the body's fault, more, or complete with the content. |
| `Upload.Store.Append` | server/src/api.rs:1303-1324 | The file grows by exactly the bytes landed before the first fault, and the error is that fault's. |
| `Upload.Store.Receive` | server/src/api.rs:1258-1297 | One request changes the file and answers as the specification says, every error case included. |
| `Upload.Store.Serve` | server/src/api.rs:1404-1446 | A file that reached its total is moved away and handed over, or removed when it cannot be moved and left when it cannot be removed; any other request leaves it in place. |
| `Upload.Effect` | server/src/api.rs:1258-1297 | An accepted piece is appended at the end of the file; any other request leaves the file or empties it, plus what a refused piece left, or takes the file away. |
| `Upload.NoTraceExactly` | server/src/api.rs:1291-1295 | A refused piece leaves a trace if and only if it reached the file and, cut short, some of it landed and its truncation failed, or, taken whole, it completed a file that can be neither moved away nor removed. |
| `Upload.FileIsWhatStayed` | server/src/api.rs:1258-1297 | Over any requests and failures, failed truncations, renames and removals included, the file is the accepted pieces and the leftovers since the last in-range request for offset zero, in order. |
| `Upload.FileIsTheAcceptedPieces` | server/src/api.rs:1236-1257 | The file is the pieces accepted since the last in-range request for offset zero, in order, if and only if no refused piece left a trace; none does while truncating and removing work. |
| `Upload.ReplyIsTheLength` | server/src/api.rs:1290 | A reply that asks for more states the length of the file, below the total. |
| `Upload.ClientFileIsAPrefix` | server/src/api.rs:1284-1297 | While a client follows the replies, the file is untouched, gone, or a prefix of its content, and a prefix or gone once a reply has asked for more, even when undoing a failed piece fails. |
| `Upload.LoneClientCompletesItsOwnBytes` | server/src/api.rs:1404-1446 | Whatever the file held before and whatever fails, what a lone client completes is exactly its own content. |
| `Upload.UploadRoundTrip` | server/src/api.rs:1258-1324 | A content within the limit, cut into any non-empty pieces and sent in order, is completed exactly. |
| `GeoUpdate.NextKeepsInv` | server/src/geo.rs:75-186 | Each step keeps: the update that claimed `active` is the only one under way and holds the locks its phase says, reader and file are in step outside the swap, and the status says what happened. |
| `GeoUpdate.OneUpdateAtATime` | server/src/geo.rs:87-93 | At most one update is between its claim and its end. |
| `GeoUpdate.CancelDecides` | server/src/geo.rs:75-80 | Once a cancel has been answered, the update it met has committed already or never will. |
| `GeoUpdate.ReaderHoldsTheFile` | server/src/geo.rs:166-170 | Whenever the active lock is free, the reader holds what the file loads as; they differ only between rename and swap, when the file is the verified download. |
| `GeoUpdate.FileStaysLoadable` | server/src/geo.rs:32-42 | Once the file loads, it loads in every later state, so stopping the hub at any moment leaves a usable database. |
| `GeoUpdate.FlaggedExactlyWhenMet` | server/src/geo.rs:75-107 | At any moment an update's token, or the verdict taken from it, says cancelled if and only if some cancel met the update before its verdict was taken. |
| `GeoUpdate.StatusTellsTheOutcome` | server/src/geo.rs:106-122 | Between updates the status reads `complete` if and only if the last one committed, `cancelled` if and only if it did not and a cancel had met it before its verdict was taken. |
| `GeoUpdate.InstallsWhatArrived` | server/src/geo.rs:147-166 | What an update commits is exactly what it downloaded: after its swap reader and file hold those bytes. |
| `GeoUpdate.EveryGoodDownloadCanBeInstalled` | server/src/geo.rs:81-170 | From any state between updates of any run, a download that verifies can be installed, after which reader and file hold it and the status reads `complete`. |
| `GeoUpdate.EveryDownloadCanBeCancelled` | server/src/geo.rs:75-122 | An update can be cancelled while it downloads, after which reader and file are as they were and the status reads `cancelled`. |
| `GeoUpdate.NeverStuck` | server/src/geo.rs:110-170 | The nested status, active and reader locks never deadlock. |
| `Throttle.Counter.Locked` | server/src/auth.rs:91-101 | The answer is whether the address has a live entry at the limit; an expired entry of it is dropped. |
| `Throttle.Counter.RecordFailure` | server/src/auth.rs:103-109 | Expired entries are dropped, then the address's entry is opened or raised by one. |
| `Throttle.Counter.Forget` | server/src/auth.rs:111-113 | The address is forgotten and no other. |
| `Throttle.SweptMapFollowsLog` | server/src/auth.rs:90-114 | After any calls, an entry in the map is the one an unswept log would have, and a missing one has expired there. |
| `Throttle.LocksExactlyAsTheLogOfThatAddress` | server/src/auth.rs:90-114 | The swept map locks an address if and only if the unswept log of that address alone would. |
| `Throttle.EntryCountsItsWindow` | server/src/auth.rs:103-109 | An entry counts exactly the failures from the one that opened its window, all of them within it. |
| `Throttle.FailuresPerLockout` | server/src/auth.rs:167-190 | With at most `k` unlocked requests of an address under way and no success, any 900-second interval holds at most 7 + 2k failures. |
| `Throttle.BoundIsReached` | server/src/auth.rs:167-190 | For every `k` of at least one such a run with 7 + 2k failures in one interval exists. |
| `Throttle.NineExactlyWhenOneAtATime` | server/src/auth.rs:23-25 | Every such run has at most nine failures in any interval if and only if `k` is at most one. |
| `Throttle.AtMostNineWhenAtomic` | server/src/auth.rs:23-25 | With check and failure as one step, any 900-second interval holds at most nine. |
| `Throttle.NineIsReached` | server/src/auth.rs:23-25 | Nine failures in one interval do occur. |
| `Probes.Session.constructor` | agent/src/main.rs:318 | A session starts with no probe. |
| `Probes.Session.Retain` | agent/src/main.rs:390-397 | Exactly the probes still wanted are kept, and the others aborted. |
| `Probes.Session.Start` | agent/src/main.rs:398-434 | A task starts a probe on a new handle unless its id is running. |
| `Probes.Session.Respawn` | agent/src/main.rs:380-435 | After any push, duplicates included, ids are distinct and those of the first 64 wanted tasks, each probe runs one of them, an unchanged one keeps its handle, and every handle spawned is running or aborted. |
| `Probes.Session.AbortAll` | agent/src/main.rs:362-364 | Every handle ever spawned is aborted. |
| `Probes.Serve` | agent/src/main.rs:292-366 | Over a whole session of pushes, the last list decides what ran and nothing survives the end. |
| `Expiry.AddMonths` | server/src/main.rs:640 | The date months later, on the same day or the last of a shorter month, unless no date can hold it. |
| `Expiry.CyclesByName` | server/src/main.rs:624-633 | A month, a quarter, half a year, a year, two and three years of months. |
| `Expiry.RolledExactly` | server/src/main.rs:636-643 | After `k` cycles: `k` cycle lengths of months on, on the original day cut down to the shortest month met on the way. |
| `Expiry.RolledIncreases` | server/src/main.rs:639-641 | Each cycle strictly increases the date. |
| `Expiry.Renewed` | server/src/main.rs:636-643 | The answer is the first iterate not before today, after at least one cycle, and nothing if the date is not past, the cycle has no length, or no date can hold it. |
| `Expiry.FirstIsUnique` | server/src/main.rs:636-643 | There is only one such answer. |
| `Expiry.IteratesExactly` | server/src/main.rs:639-641 | A date is an iterate if and only if it lies a whole number of cycles of months on, on the original day cut down to the shortest month met on the way. |
| `Expiry.TodayExactlyWhenReached` | server/src/main.rs:634-643 | The answer is today if and only if today lies a whole number of cycles of months on, on the day cut down by then. |
| `Expiry.RenewalIsWholeCycles` | server/src/main.rs:634-643 | A renewal is a positive whole number of cycles on, at most one cycle of months past today's, and never on a later day of the month. |
| `Mounts.SkipByFlavour` | agent/src/collect.rs:592-594 | A type is skipped if and only if what stands before its first dot is on the list. |
| `Mounts.ChosenExactly` | agent/src/collect.rs:615-644 | The chosen rows are exactly the first of their key among the rows that are last on their path and countable. |
| `Mounts.ChosenInOrder` | agent/src/collect.rs:615-644 | They are chosen in the order of the table. |
| `Mounts.Select` | agent/src/collect.rs:615-644 | The loop emits exactly the decoded paths of the chosen rows. |
| `Mounts.ParseMounts` | agent/src/collect.rs:606-644 | The same from the text of the table, with the list of skipped types. |
| `MountTheorems.PathsAreDistinct` | agent/src/collect.rs:615-644 | No path is emitted twice. |
| `MountTheorems.KeysAreDistinct` | agent/src/collect.rs:635-639 | No device or zfs pool is counted twice. |
| `MountTheorems.NoDeviceIsLost` | agent/src/collect.rs:620-629 | Every row that counts has its device emitted, however its earlier mounts were shadowed. |
| `MountTheorems.FirstOfEachDevice` | agent/src/collect.rs:615-644 | A row is chosen if and only if no later row has its path, the type's part before its first dot is not listed, it is zfs, btrfs or of a device path, and no earlier such row is of the same device, or of the same pool for zfs. |
| `MountTheorems.TableReadsBack` | agent/src/collect.rs:606-613 | Reading a printed table gives its rows back in order, whether or not the kernel escapes number signs outside paths. |
| `MountTheorems.DecodedExactlyWhenPlain` | agent/src/collect.rs:641 | A decoded path is the mounted one if and only if that holds no tab, line break or backslash. |
| `MountTheorems.SelectsFromTheMounts` | agent/src/collect.rs:615-644 | Selecting from the printed text chooses exactly the mounts that selecting from the mounts themselves would. |
| `Base64.Encode` | server/src/frontend.rs:100-115 | The loops produce the encoding the recursive specification gives. |
| `Base64.EncodesExactly` | server/src/frontend.rs:98-115 | A text is the encoding of a byte string if and only if the strict decoder of section 4 of RFC 4648 gives that string back. |
| `Base64.Injective` | server/src/frontend.rs:98-115 | Different byte strings have different encodings. |
| `Base64.Length` | server/src/frontend.rs:102 | Four characters per started group of three bytes. |
| `Base64.PaddingByRemainder` | server/src/frontend.rs:107-110 | As many padding characters as the last group falls short of three bytes. |

## Left out

- The database: its operations are atomic steps, or values passed in; `accumulate` appears only as totals that do not decrease.
- AgentSessions: the metrics a report publishes for the live view are those of `Reports.AgentState`; the step relation holds only the session's minute.
- `locate`: the country write after a `hello` is made outside the session lock and without the retired check, so the fence does not cover it.
- Panics: a poisoned lock is recovered in the source, and a panicking task would leave a session, a sweep or an update in a state the models do not reach.
- Reports.AgentState.Report: sums are exact reals, so the rounding of floating-point means is not modelled; a row whose insertion fails is lost although the mark has moved, as in the source.
- AgentSessionsTheorems.RowsStrictlyIncrease: assumes a nondecreasing wall clock; a clock that steps back rewrites a minute.
- AlertRuns: a restore can change the stored mark of an announced absence between sweeps; the runs contain only what sweeps store.
- AlertRuns.AlertsPerWindow: assumes that the returns of the run are stored, that the grace never rises and that the clock never falls; the runs named `SpacingNeeds…` show what each of the first two costs.
- AlertRuns.SpacingExactlyAfterALongReturn: assumes a clock that never falls.
- AlertRuns.AnnouncementsDifferExactly: an announcement is one handed to the delivery queue, which drops it when full, and whose delivery is at most once.
- TrafficRuns.TwoTrafficAlertsPerPeriod: assumes a fixed allowance and percentage, usage that does not fall within a period, and periods that do not come back.
- AlertRuns.ChangesAlternate: holds while the node stays listed, and a node deleted and created again within one sweep inherits what was remembered.
- TemplateCheck.JsonForEveryAlert: serde_json also refuses lone surrogates in `\u` escapes, deep nesting and numbers beyond the range of a double such as `1e999`, which the grammar allows; times are those of a clock in the range the hub can print.
- FrameCache.FreshAfterReturn: covers handlers that drop the frames after committing; the settings handler can commit some settings and then fail without dropping them. A rebuild whose reads fail stores an empty list.
- FrameCache: `ROMI_BENCH_PUSH_MS` and `ROMI_BENCH_NO_SNAPSHOT_CACHE` belong to benchmark builds.
- Upload: two uploads at once share the file and can splice, as the comment on `db_restore` says; the requests of a run come one after another.
- GeoUpdate: the received-byte counter, the refresh of stored countries after a commit, and the address check before a claim are not modelled; a lookup is the time it holds the reader lock.
- Throttle.Counter.RecordFailure: counts are unbounded where the source keeps a 32-bit number.
- Throttle.FailuresPerLockout: a success in between clears the count and starts the bound again.
- Probes.Session.Respawn: what a probe loop does, and the one early return of `session` when a report cannot be serialised, which would leave its loops running.
- Expiry.AddMonths: the calendar is the Gregorian one with the last year `NaiveDate` holds; its first year is not modelled.
- MountTheorems.SelectsFromTheMounts: assumes that types hold nothing to escape and that the other fields hold no blank but space, tab and line break; others, such as U+3000, are not escaped by the kernel and would split a field.
- Mounts.ParseMounts: `statvfs`, and the carriage return `lines` strips, which the field split drops anyway.
- Routing, cookies, TLS, message delivery, the collectors' reading of `/proc` and `/sys`, the web interface and the release scripts: input and output, or short arguments.
