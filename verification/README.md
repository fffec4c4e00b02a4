# Wolflog: models and proofs

This project models the parts of Wolflog whose correctness rests on more than one function and proves what they
promise: the client's store-and-forward delivery, its crash markers, the alert engine, the message templates, the demo
directory's nested groups, the mail DNS codec, the environment settings, and four smaller components. `dafny verify
dfyconfig.toml` checks everything.

Code that changes state step by step is written as methods and classes with loops, each proved equal to a function of its
inputs or of its old state; what the program promises is then proved about those functions, for all inputs and all runs.
Code that several processes run at once is a step relation, and the results hold of every run of it.

| files | part of the program |
|---|---|
| `Outbox`, `Transport` | the disk buffer and the transport of one process, call by call |
| `Delivery`, `DeliveryOrder` | the same protocol as a step relation: nothing is lost in silence; when order is kept |
| `CrashSessions` | session markers and crash reports |
| `AlertStep`, `AlertEngine`, `AlertHistory`, `KnownErrors` | one pass over one key, a pass over a rule, a round over all rules, what many rounds and process runs record; new errors |
| `Template`, `TemplateTokens`, `TemplatePrinting`, `TemplateVariables`, `TemplateLines`, `TemplateHtml`, `TemplateContent` | parser, its signs, its inverse, test for used variables, displayed lines, renderers, what they show |
| `Closure`, `Directory`, `SearchFilter` | nested groups and substring filters of the demo directory |
| `MailDns` | queries, compressed names and records of the DNS client |
| `EnvironmentText`, `EnvironmentReading`, `EnvironmentCheck`, `EnvironmentApps`, `EnvironmentStore`, `EnvironmentOrder`, `EnvironmentResult`, `EnvironmentNormal` | the check of the environment settings |
| `Ledger`, `EnvironmentSuggestion`, `EnvironmentProposal`, `EnvironmentFamilies`, `EnvironmentAcceptance`, `EnvironmentForecast`, `EnvironmentTab` | automatic grouping, and how the check receives it |
| `DashboardAccess`, `RedactedWords`, `RedactedStyles`, `Probes` | dashboards saved by a restricted person, redacted names, probes |
| `Strings`, `Wrappers` | text operations of the platform, optional values |

## What the proofs say about the code

Twelve properties do not hold of the code as it stands; each has an exact condition.

- **Order of delivery.** A stored batch bigger than the whole buffer evicts every file, also the one a drain is sending.
  Where deleting an open file succeeds, a batch handed over later can then be accepted first. So it can when the server
  takes a request that the client has given up, and when a drain cannot open a file and goes on to the next one. Order
  holds in every run exactly when the server takes no request given up, a file that is there can always be opened and,
  besides, deletions of claimed files fail or no batch exceeds the limit (`DeliveryOrder.OrderHoldsExactlyWhen`). Given
  the other two, it also holds of every run with late requests that keeps each batch until none of its requests can still
  be taken (`DeliveryOrder.OrderHoldsWhileKept`).
- **Size limit.** A deletion that fails does not stop the eviction, one that is denied for want of rights does. What is
  left exceeds the limit by no more than the files whose deletion failed exactly when no chosen file but the last one is
  denied (`Outbox.EvictionMeetsLimitExactlyWhen`; `Outbox.DeniedFileStopsEviction` has 24 bytes stay under a limit of 10).
- **Abrupt ends.** A session that cannot read the marker of another one deletes it and stores no report, and a marker is
  deleted also when its report could not be stored, so an abrupt end can pass unnoticed. All are noticed exactly when
  reading a marker and storing a report never fail (`CrashSessions.AbruptEndsAreNoticedExactlyWhen`).
- **Clean ends.** A session that closes cleanly can still be reported as an abrupt end, exactly when its marker could not
  be deleted, or a marker write was under way at the deletion, or another session had already read the marker
  (`CrashSessions.CleanEndsAreReportedExactlyWhen`).
- **Alerts after an exception.** An exception at a notification (the file of the channels or of the history cannot be
  written) leaves the round after the states were changed. The stored copy agrees with memory at every moment exactly
  when no round changes a state without storing it (`AlertHistory.StoredAgreesExactlyWhen`). The history tells the status
  of a key at every moment exactly when no round stops before it records an activation or a resolution of that key
  (`AlertHistory.HistoryTellsStatusExactlyWhen`); `AlertHistory.ActivationIsLost` is a run in which a key fires and neither
  the history nor the disk holds it, and such a key gets no reminder either (`AlertHistory.UnnotifiedStaysSilent`).
- **Membership after a failure.** `AddMember` writes the group's side before it looks for the member. If the member is
  unknown, and its name is added later, the two questions about that pair disagree
  (`Directory.FailedMembershipCanBreakAgreement`). For a directory built by any sequence of operations, failed ones
  included, all answers always agree exactly when no entry was added under a name to which another entry had a link
  (`Directory.AnswersAlwaysAgreeExactlyWhen`).
- **Long names.** `Build` accepts names of any number of labels, and `ReadName` stops after 128 rounds: the question reads
  back exactly when the name has fewer than 128 labels (`MailDns.QuestionIsTheName`).
- **Variables that are used and not seen.** The parser trims the name of a variable and drops carriage returns; the test
  made before a costly variable is computed searches the template as typed. It sees a variable exactly when no white space
  follows the braces and no carriage return was typed before the end of its name
  (`TemplateVariables.VariableIsSeenExactlyWhen`).
- **Grouping a draft.** The check accepts the proposal made from an accepted draft exactly when it is within the limits of
  number, no application keeps apart a value named like one of its environments, and no environment that the grouping
  passes over is read as having a value received: the check reads a tab or a line break inside an alias as a space, the
  grouping does not (`EnvironmentAcceptance.ProposalIsAcceptedExactlyWhen`; `EnvironmentTab` has such a draft). All
  of this can be told beforehand from the draft and the received values (`EnvironmentForecast.AcceptanceIsForetold`).
- **Redacted names.** A name that is masked because it is one of the exact names may not be masked in another style: it is
  masked alike exactly when it holds a redacted word, or both spellings are exact names or none is
  (`RedactedWords.StyleIsIgnoredExactlyWhen`, `RedactedWords.ExactNameDependsOnStyle`).
- **Two saves in a row.** The last save of a dashboard wins exactly when the first one fills the places before the last
  hidden panel (`DashboardAccess.LastSaveWinsExactlyWhen`).
- **A probe that is over too soon.** A run that ends before its task is registered stays registered. A probe with an
  interval can start again exactly when none of its runs ended that way (`Probes.CanStartExactlyWhen`).

## Model

| member | source | states |
|---|---|---|
| `Outbox.NamesSortByClock` | src/Wolflog.Client/Internal/DiskOutbox.cs:33 | A batch stored at a later clock tick has a name that sorts after, whatever the process, counter and signal. |
| `Outbox.SignalSurvives` | src/Wolflog.Client/Internal/DiskOutbox.cs:33-58 | The signal written into a file name is the one Pending reads back from it. |
| `Outbox.NameIsUnique` | src/Wolflog.Client/Internal/DiskOutbox.cs:33 | Batches of another process, counter, signal or clock tick have other names: a name tells all four, for signals without a dot. |
| `Outbox.NextNameIsNew` | src/Wolflog.Client/Internal/DiskOutbox.cs:33 | Where every file of the process has a counter up to its own, its next name is that of no file there, and the counters go on so. |
| `Outbox.ListingIsUnique` | src/Wolflog.Client/Internal/DiskOutbox.cs:54 | A directory has one listing in name order. |
| `Outbox.EntriesAscend` | src/Wolflog.Client/Internal/DiskOutbox.cs:52-59 | Pending gives exactly the files whose name has three parts or more, distinct, oldest first. |
| `Outbox.ChosenIsShortest` | src/Wolflog.Client/Internal/DiskOutbox.cs:104-115 | The files tried for deletion are the shortest oldest-first run that brings the total to the limit. |
| `Outbox.EvictionIsShortestPrefix` | src/Wolflog.Client/Internal/DiskOutbox.cs:101-116 | On a directory: the files chosen for deletion are the shortest oldest-first prefix; keeping the last one chosen would exceed the limit. |
| `Outbox.EvictionMeetsLimit` | src/Wolflog.Client/Internal/DiskOutbox.cs:101-116 | If no chosen file but the last is denied, the bytes left are at most the limit plus those of the files whose deletion failed. |
| `Outbox.EvictionMeetsLimitExactlyWhen` | src/Wolflog.Client/Internal/DiskOutbox.cs:101-116 | The bytes left are at most the limit plus those of the files whose deletion failed exactly when no chosen file but the last is denied for want of rights. |
| `Outbox.DeniedFileStopsEviction` | src/Wolflog.Client/Internal/DiskOutbox.cs:106-114 | With a limit of 10 and three files of 8 bytes, the oldest one denied: all 24 bytes stay. |
| `Outbox.DiskOutbox.HasPending` | src/Wolflog.Client/Internal/DiskOutbox.cs:20-29 | The cached hint never hides a waiting batch: the answer is whether the directory holds a file. |
| `Outbox.DiskOutbox.EnforceLimit` | src/Wolflog.Client/Internal/DiskOutbox.cs:101-116 | The in-place loop leaves the directory that the eviction rule describes: it goes on after a deletion that fails, and ends at one that is denied. |
| `Outbox.DiskOutbox.Store` | src/Wolflog.Client/Internal/DiskOutbox.cs:31-50 | The batch joins the directory under a name that no file has, so that the old files keep their content; the limit is enforced as far as the deletions go, and the hint says that something waits; if it cannot be written, nothing changes but the counter. |
| `Outbox.DiskOutbox.Pending` | src/Wolflog.Client/Internal/DiskOutbox.cs:52-59 | The entries of the directory in name order. |
| `Transport.Leading` | src/Wolflog.Client/Internal/WolflogTransport.cs:140-150 | How many batches a drain gets through: those before the first answer that asks for a retry, or before an exception ends it; a batch that cannot be claimed is passed over. |
| `Transport.Reached` | src/Wolflog.Client/Internal/WolflogTransport.cs:140-150 | How many batches a drain looks at, and so counts if they were sent: up to the first one that ends it, this one included. |
| `Transport.OutcomeExactlyWhen` | src/Wolflog.Client/Internal/WolflogTransport.cs:140-152 | A drain gets through exactly when nothing ends it, and reports the server unavailable exactly when a request to send again does. |
| `Transport.LeftIsTheRest` | src/Wolflog.Client/Internal/WolflogTransport.cs:140-152 | What is left after some rounds is the directory without the files sent and deleted: files that could not be claimed or deleted stay. |
| `Transport.CountIs` | src/Wolflog.Client/Internal/WolflogTransport.cs:148-149 | The batches counted are exactly those that had the answer. |
| `Transport.RestIsKept` | src/Wolflog.Client/Internal/WolflogTransport.cs:140-152 | The batch that the server asks to send again, and all after it, keep their files. |
| `Transport.NamesStandForFiles` | src/Wolflog.Client/Internal/DiskOutbox.cs:33 | The names of the step relation of Delivery and those of files stand for each other, one to one. |
| `Transport.WolflogTransport.Deliver` | src/Wolflog.Client/Internal/WolflogTransport.cs:52-71 | A batch is sent at once only when the circuit is closed and nothing older waits; it is sent, dropped or stored under a new name, and counted once, also when the file cannot be written. |
| `Transport.WolflogTransport.Drain` | src/Wolflog.Client/Internal/WolflogTransport.cs:135-158 | A drain goes through a prefix of the waiting batches, deletes exactly those of them that were sent and can be deleted, counts each batch sent, also one whose deletion is denied and ends the drain, and closes the circuit only when it got through all. |
| `Transport.EntriesAreUnique` | src/Wolflog.Client/Internal/DiskOutbox.cs:52-59 | A directory gives one list of waiting batches. |
| `Delivery.Classify` | src/Wolflog.Client/Internal/WolflogTransport.cs:120-132 | A response drops the batch exactly for 400, 413 and 415, and accepts it exactly for 2xx. |
| `Delivery.CallerStepKeeps` | src/Wolflog.Client/Internal/WolflogTransport.cs:52-71 | A step of a caller keeps names unique and undoes nothing recorded so far. |
| `Delivery.DrainStepKeeps` | src/Wolflog.Client/Internal/WolflogTransport.cs:135-158 | A step of a drain keeps locks exclusive and undoes nothing recorded so far. |
| `Delivery.NextKeepsFits` | src/Wolflog.Client/Internal/WolflogTransport.cs:52-158 | Every step of any process, kills included, keeps the invariant of names, locks and owners. |
| `Delivery.NoSilentLoss` | src/Wolflog.Client/Internal/WolflogTransport.cs:52-71 | In every interleaving of any number of processes, with kills, each batch handed over is in live hands, on disk, accepted, refused, evicted, given up with a warning as its file could not be written or with an exception, or died in hand. |
| `Delivery.DiskIsDurable` | src/Wolflog.Client/Internal/DiskOutbox.cs:31-116 | A batch on disk survives every step and every kill until the server or the size limit has settled it. |
| `Delivery.StoredIsDurable` | src/Wolflog.Client/Internal/DiskOutbox.cs:31-116 | Over a whole run: once on disk, a batch stays there until it is settled. |
| `Delivery.ClaimsAreExclusive` | src/Wolflog.Client/Internal/DiskOutbox.cs:64-74 | Two processes never work on the same existing file at once. |
| `DeliveryOrder.NewestStays` | src/Wolflog.Client/Internal/DiskOutbox.cs:31-45 | A stored batch that fits in the buffer is never evicted by its own Store. |
| `DeliveryOrder.NextKeeps` | src/Wolflog.Client/Internal/WolflogTransport.cs:54-66 | Where files that are there can be opened, every step keeps the order invariant as long as each batch with a request given up is still at hand: a hint of 0 means an empty directory, a drain works on the oldest open batch. |
| `DeliveryOrder.RunKeeps` | src/Wolflog.Client/Internal/WolflogTransport.cs:140-151 | The invariant holds at every moment of every such run. |
| `DeliveryOrder.OrderHoldsWhileKept` | src/Wolflog.Client/Internal/WolflogTransport.cs:54-66 | Requests given up may be taken late: where files can be opened, the order holds all the same in every run that keeps each such batch, on disk or about to be, until the server has settled it. |
| `DeliveryOrder.OversizeEmptiesTheDirectory` | src/Wolflog.Client/Internal/DiskOutbox.cs:101-116 | In any directory: storing a batch bigger than the buffer evicts every file that can be deleted, the file being sent included. |
| `DeliveryOrder.OrderCanBeLost` | src/Wolflog.Client/Internal/WolflogTransport.cs:140-151 | A run in which a batch overtakes an older one whose file was evicted while it was being sent. |
| `DeliveryOrder.LateCanOvertake` | src/Wolflog.Client/Internal/WolflogTransport.cs:104-118 | A run in which a request in flight at a kill is taken after a newer batch. |
| `DeliveryOrder.PassedOverIsOvertaken` | src/Wolflog.Client/Internal/WolflogTransport.cs:140-151 | A run in which a drain cannot open the file of a batch and sends a newer one first. |
| `DeliveryOrder.OrderHoldsExactlyWhen` | src/Wolflog.Client/Internal/WolflogTransport.cs:54-66 | The server first accepts batches in hand-over order in every run exactly when it takes no request given up, files that are there can be opened, and claimed files cannot be deleted or no batch exceeds the limit. |
| `CrashSessions.StepKeeps` | src/Wolflog.Client/Internal/CrashReporter.cs:36-87 | Every step of any session, kills included, keeps the marker invariant. |
| `CrashSessions.NoticedExactlyWhen` | src/Wolflog.Client/Internal/CrashReporter.cs:36-87 | Killed at any step, a session that has written its marker and not closed cleanly is noticed, by its marker or a report, exactly when it was reported or its marker was not deleted, unread or with no report stored, since its last write. |
| `CrashSessions.MarkerCanBeLost` | src/Wolflog.Client/Internal/CrashReporter.cs:82-85 | A run in which a marker that cannot be read is deleted and no report stored. |
| `CrashSessions.ReportCanBeLost` | src/Wolflog.Client/Internal/CrashReporter.cs:115-117 | A run in which a session deletes its marker though its report could not be stored. |
| `CrashSessions.AbruptEndsAreNoticedExactlyWhen` | src/Wolflog.Client/Internal/CrashReporter.cs:36-87 | In every run, at every moment, every session that has written its marker and not closed cleanly is noticed: this holds exactly when reading a marker and storing a report never fail. |
| `CrashSessions.LiveSessionsAreNotReported` | src/Wolflog.Client/Internal/CrashReporter.cs:62-99 | No live session is ever reported. |
| `CrashSessions.ForgottenForGood` | src/Wolflog.Client/Internal/CrashReporter.cs:128-135 | With no marker, no write under way and no one who has read the marker, a session is never reported. |
| `CrashSessions.LateWriteIsFound` | src/Wolflog.Client/Internal/CrashReporter.cs:36-60 | A marker write that lands after the deletion is found by the next session. |
| `CrashSessions.JudgedAfterItsEnd` | src/Wolflog.Client/Internal/CrashReporter.cs:63-87 | A session that read the marker before the deletion reports the other one after its end. |
| `CrashSessions.CleanEndsAreReportedExactlyWhen` | src/Wolflog.Client/Internal/CrashReporter.cs:101-135 | A session that has just closed can be reported exactly when its marker is still there, or a write was under way, or someone had read it. |
| `AlertStep.ChangedMeansOtherStanding` | src/Wolflog.Server/Monitoring/AlertEngine.cs:78-188 | A pass reports a change exactly when it alters a key's presence, status, since or last notification. |
| `AlertStep.StandingDecides` | src/Wolflog.Server/Monitoring/AlertEngine.cs:95-188 | What a pass makes of a condition depends on presence, status, since and last notification alone. |
| `AlertStep.LastingStep` | src/Wolflog.Server/Monitoring/AlertEngine.cs:113-138 | One pass of a lasting condition: when it waits, fires, resolves, and exactly when it reminds. |
| `AlertStep.LastingStateIs` | src/Wolflog.Server/Monitoring/AlertEngine.cs:100-161 | What the state of a lasting condition holds after a pass, how long it had lasted when it resolves, and when it is forgotten: an hour after it became ok. |
| `AlertStep.StatusIsExpected` | src/Wolflog.Server/Monitoring/AlertEngine.cs:113-156 | The status is a function of the history: firing exactly when the present run of breaches had an active pass after the hold time, pending when not yet. |
| `AlertStep.NoteMeans` | src/Wolflog.Server/Monitoring/AlertEngine.cs:87-93 | Activations and resolutions are recorded exactly at the changes of the expected status. |
| `AlertStep.ActivationIsJustified` | src/Wolflog.Server/Monitoring/AlertEngine.cs:113-128 | An activation falls in the activity hours, after the condition held at every pass for at least the hold time. |
| `AlertStep.TurnsAlternate` | src/Wolflog.Server/Monitoring/AlertEngine.cs:95-188 | Over any run, activations and resolutions of a key strictly alternate, beginning with an activation. |
| `AlertStep.FiringWasNotified` | src/Wolflog.Server/Monitoring/AlertEngine.cs:163-173 | A firing key has a last notification, at the time kept in its state. |
| `AlertStep.RemindersAreSpaced` | src/Wolflog.Server/Monitoring/AlertEngine.cs:129-132 | A reminder comes at least the repeat interval after the notification before it. |
| `AlertStep.RemindsExactlyWhen` | src/Wolflog.Server/Monitoring/AlertEngine.cs:129-132 | Over any run, told from the passes and their notes: a pass reminds exactly when the key was firing, the condition holds inside the hours, repeats are asked for and the last pass that notified the key is at least the interval ago. |
| `AlertStep.NoteIsDue` | src/Wolflog.Server/Monitoring/AlertEngine.cs:87-138 | Over any run, a pass records exactly what is due: an activation, a resolution, a reminder or nothing. |
| `AlertStep.EventStatusIs` | src/Wolflog.Server/Monitoring/AlertEngine.cs:113-157 | The status of an event after a pass: it fires inside the hours, waits outside them, and is forgotten when none came for the window. |
| `AlertStep.EventRemindsExactlyWhen` | src/Wolflog.Server/Monitoring/AlertEngine.cs:129-132 | A firing event reminds exactly when it comes again inside the hours and the interval has passed since its last notification. |
| `AlertStep.EventStep` | src/Wolflog.Server/Monitoring/AlertEngine.cs:113-157 | One pass of an event rule. |
| `AlertStep.EventsDoNotLinger` | src/Wolflog.Server/Monitoring/AlertEngine.cs:140-157 | Event rules never record a resolution, and leave nothing pending after a pass inside the hours. |
| `AlertStep.EventWaitsForHours` | src/Wolflog.Server/Monitoring/AlertEngine.cs:113-149 | An event outside the hours waits silently and fires at the first pass inside them. |
| `AlertEngine.SeeAllAt` | src/Wolflog.Server/Monitoring/AlertEngine.cs:97-138 | What the loop over the results does to one key. |
| `AlertEngine.MissAllAt` | src/Wolflog.Server/Monitoring/AlertEngine.cs:141-157 | What the loop over the keys not seen does to one key. |
| `AlertEngine.PruneAllAt` | src/Wolflog.Server/Monitoring/AlertEngine.cs:159-160 | What pruning does to one key. |
| `AlertEngine.LoopsAreJudgeAndPrune` | src/Wolflog.Server/Monitoring/AlertEngine.cs:95-161 | The three loops together do to each key what a pure function of its old state and its result says. |
| `AlertEngine.PassIsStep` | src/Wolflog.Server/Monitoring/AlertEngine.cs:78-175 | A pass refines the pure step of every key, notifies each key at most once, leaves other rules' states alone, and its flag says whether some step changed something. |
| `AlertEngine.PassFlag` | src/Wolflog.Server/Monitoring/AlertEngine.cs:80-174 | The changed flag is true exactly when some key's step changed. |
| `AlertEngine.PassFlagIsDisagreement` | src/Wolflog.Server/Monitoring/AlertEngine.cs:69-74 | The flag is true exactly when memory no longer agrees with what it was in keys, status, since and last notification. |
| `AlertEngine.PartlyAnnouncedIsCutShort` | src/Wolflog.Server/Monitoring/AlertEngine.cs:163-173 | A pass left by an exception while notifying: every key is judged, the keys before it are notified and recorded, those after it are not. |
| `AlertEngine.Engine.SeeResults` | src/Wolflog.Server/Monitoring/AlertEngine.cs:97-138 | The loop over the results, in place. |
| `AlertEngine.Engine.SettleUnseen` | src/Wolflog.Server/Monitoring/AlertEngine.cs:141-157 | The loop over the keys not seen, in place. |
| `AlertEngine.Engine.PruneSettled` | src/Wolflog.Server/Monitoring/AlertEngine.cs:159-160 | The pruning loop, in place. |
| `AlertEngine.Engine.AnnounceNotes` | src/Wolflog.Server/Monitoring/AlertEngine.cs:163-173 | The notification loop: last notification, history in memory and on disk, up to the note at which an exception ends it. |
| `AlertEngine.Engine.JudgeStates` | src/Wolflog.Server/Monitoring/AlertEngine.cs:95-161 | The part under the lock: the three loops, one after the other, on the keys each finds. |
| `AlertEngine.Engine.Apply` | src/Wolflog.Server/Monitoring/AlertEngine.cs:78-175 | ApplyAsync makes a pass and records its notes, or is left by an exception after a beginning of them. |
| `AlertEngine.Engine.RunRules` | src/Wolflog.Server/Monitoring/AlertEngine.cs:47-57 | The loop over the enabled rules: each state makes the step of its own rule, the history gains exactly the note of that step, and the flag says whether memory disagrees with what it was; an exception in one rule skips the ones after it. |
| `AlertEngine.Engine.DropOrphans` | src/Wolflog.Server/Monitoring/AlertEngine.cs:59-68 | States of rules that are gone or disabled are dropped. |
| `AlertEngine.Engine.RunOnce` | src/Wolflog.Server/Monitoring/AlertEngine.cs:41-76 | A whole round gives each state what its rule makes of it, records exactly the notes of these steps, drops orphans, and stores the states if something changed; one left by an exception stores nothing. |
| `AlertEngine.Engine.Execute` | src/Wolflog.Server/Monitoring/AlertEngine.cs:28-39 | Rounds one after the other, also after one that an exception has left: the run has a history whose every step is a round, whole or not. |
| `AlertHistory.HistoryIsRecorded` | src/Wolflog.Server/Monitoring/AlertEngine.cs:41-196 | In one process run of whole rounds that keep the rule, the state of a key is the fold of its evaluations, and the events recorded about it are exactly the notes of that fold. |
| `AlertHistory.HistorySurvivesRestarts` | src/Wolflog.Server/Monitoring/AlertEngine.cs:30-76 | The same for a condition over any number of process runs, each from what the one before has stored: presence, status, since, last notification and history. |
| `AlertHistory.RecordedHistoryIsSound` | src/Wolflog.Server/Monitoring/AlertEngine.cs:30-196 | Over any whole rounds in any number of process runs, the recorded history of a condition alternates activations and resolutions, activation first, and every activation, resolution and reminder in it is justified by the evaluations. |
| `AlertHistory.RecordedHistoryIsExact` | src/Wolflog.Server/Monitoring/AlertEngine.cs:30-196 | Over the same rounds, the history gains exactly the notes that were due, reminders included, in order. |
| `AlertHistory.StoredAgreesExactlyWhen` | src/Wolflog.Server/Monitoring/AlertEngine.cs:28-76 | The stored copy agrees with memory at every moment exactly when no round changes a state and stops, or fails, before storing it. |
| `AlertHistory.HistoryTellsStatusExactlyWhen` | src/Wolflog.Server/Monitoring/AlertEngine.cs:28-173 | In a process run, the history of a key alternates and ends as its status says, at every moment, exactly when no round stops before recording an activation or a resolution of the key. |
| `AlertHistory.ActivationIsLost` | src/Wolflog.Server/Monitoring/AlertEngine.cs:163-173 | A run in which the first notification fails: the key fires, and neither the history nor the stored copy holds it. |
| `AlertHistory.UnnotifiedStaysSilent` | src/Wolflog.Server/Monitoring/AlertEngine.cs:129-132 | A key that fires without a notification time gets no reminder while the condition lasts. |
| `AlertHistory.EventsAreNotResolved` | src/Wolflog.Server/Monitoring/AlertEngine.cs:140-196 | Over any rounds, left by exceptions or not, and any restarts, no resolution of an event rule is recorded. |
| `AlertHistory.NoEventWaits` | src/Wolflog.Server/Monitoring/AlertEngine.cs:113-157 | Nothing about events is pending after a round that evaluates the rule inside the hours. |
| `KnownErrors.ErrorMemory.Known` | src/Wolflog.Server/Monitoring/AlertEngine.cs:503-519 | A rule seen for the first time starts with what the process knows by then; the storage is read once. |
| `KnownErrors.ErrorMemory.Evaluate` | src/Wolflog.Server/Monitoring/AlertEngine.cs:478-496 | One evaluation: its reports and the memory it leaves. |
| `KnownErrors.ScanReportsFirstSight` | src/Wolflog.Server/Monitoring/AlertEngine.cs:479-495 | A fingerprint is announced as new once, when first met unknown and not ignored, else never. |
| `KnownErrors.ScanReportsRegressions` | src/Wolflog.Server/Monitoring/AlertEngine.cs:479-487 | An evaluation announces as regressions exactly the regressed groups that are not ignored and whose fingerprint is known, none where the rule leaves regressions out. |
| `KnownErrors.KnownForGood` | src/Wolflog.Server/Monitoring/AlertEngine.cs:503-519 | What a rule knows it knows for the rest of the run. |
| `KnownErrors.NewAtMostOnce` | src/Wolflog.Server/Monitoring/AlertEngine.cs:478-519 | A rule announces a fingerprint as new at most once per process run, whatever the other rules do. |
| `KnownErrors.BaselineIsKnown` | src/Wolflog.Server/Monitoring/AlertEngine.cs:508-517 | Every rule's set holds what the storage held when the process first looked. |
| `KnownErrors.StartIsNeverNew` | src/Wolflog.Server/Monitoring/AlertEngine.cs:499-519 | What existed at the start is never announced as new, to any rule. |
| `KnownErrors.LateRuleKnows` | src/Wolflog.Server/Monitoring/AlertEngine.cs:508-517 | A rule evaluated for the first time knows by then what any rule has seen, and announces none of it as new. |
| `Template.ItalicEnd` | src/Wolflog.Server/Monitoring/MessageTemplate.cs:295-307 | The loop finds the closing underscore the definition gives, variables skipped. |
| `Template.TryBrackets` | src/Wolflog.Server/Monitoring/MessageTemplate.cs:310-329 | The loop finds the bracketed text and the balanced target. |
| `Template.ParseInline` | src/Wolflog.Server/Monitoring/MessageTemplate.cs:217-290 | The parsing loop terminates and gives the nodes that the recursive definition gives. |
| `Template.TokenIsSmaller` | src/Wolflog.Server/Monitoring/MessageTemplate.cs:222-280 | Every token moves on, and its parts are shorter than the line. |
| `Template.ParsedIsTidy` | src/Wolflog.Server/Monitoring/MessageTemplate.cs:217-290 | Parsing leaves no empty text and no two texts side by side, at any depth. |
| `Template.ScanIsLinkless` | src/Wolflog.Server/Monitoring/MessageTemplate.cs:271-277 | A text without a closing bracket parses to no link and no mention at any depth. |
| `Template.LinksAreFlat` | src/Wolflog.Server/Monitoring/MessageTemplate.cs:264-277 | The words of a link hold no link, however deep. |
| `Template.EscapedTextIsKept` | src/Wolflog.Server/Monitoring/MessageTemplate.cs:224-229 | Any text, escaped, is read back as itself. |
| `Template.TrimIs` | src/Wolflog.Server/Monitoring/MessageTemplate.cs:233 | Trimming takes the white space at both ends, and nothing else. |
| `TemplateTokens.EscapeIsRead` | src/Wolflog.Server/Monitoring/MessageTemplate.cs:224-229 | A backslash makes the next character text. |
| `TemplateTokens.VariableExactlyWhen` | src/Wolflog.Server/Monitoring/MessageTemplate.cs:230-241 | A variable stands exactly where two braces open and the trimmed stretch up to the first closing ones is a name. |
| `TemplateTokens.BoldExactlyWhen` | src/Wolflog.Server/Monitoring/MessageTemplate.cs:242-252 | Bold text stands exactly where two stars open that two others follow later, not at once; it goes up to the first of them. |
| `TemplateTokens.ItalicExactlyWhen` | src/Wolflog.Server/Monitoring/MessageTemplate.cs:253-263 | Italic text stands exactly at an underscore that no letter and no digit precedes and that one ending it follows, not at once. |
| `TemplateTokens.ItalicEndIs` | src/Wolflog.Server/Monitoring/MessageTemplate.cs:295-307 | Italic text ends at the first underscore that no letter and no digit follows, what stands between braces left out. |
| `TemplateTokens.BracketsExactlyWhen` | src/Wolflog.Server/Monitoring/MessageTemplate.cs:310-329 | Brackets stand exactly where a parenthesis follows the first closing bracket and is closed, as many being opened as closed in between. |
| `TemplateTokens.LinkExactlyWhen` | src/Wolflog.Server/Monitoring/MessageTemplate.cs:264-277 | A link is brackets; a mention is an at sign before brackets with a target. |
| `TemplateTokens.OtherIsLetter` | src/Wolflog.Server/Monitoring/MessageTemplate.cs:278-279 | Any other character stands for itself. |
| `TemplatePrinting.PrintedIsParsed` | src/Wolflog.Server/Monitoring/MessageTemplate.cs:217-290 | Round trip: nodes of any depth, written with their signs, are parsed back as they were, if no part holds a sign that would end it. |
| `TemplatePrinting.TemplateIsParsed` | src/Wolflog.Server/Monitoring/MessageTemplate.cs:35-44 | Round trip: lines and items written one below the other are parsed back as those lines. |
| `TemplateVariables.VariableIsSeen` | src/Wolflog.Server/Monitoring/MessageTemplate.cs:47-48 | In a line, the test sees a variable where it stands exactly when no white space follows its braces. |
| `TemplateVariables.TokenStandsExactlyWhen` | src/Wolflog.Server/Monitoring/MessageTemplate.cs:35-48 | A token without white space stands in the template as typed exactly when it stands in the line and no carriage return was typed inside it. |
| `TemplateVariables.VariableIsSeenExactlyWhen` | src/Wolflog.Server/Monitoring/MessageTemplate.cs:35-48 | In the template as typed, the test sees a variable of a line where it stands exactly when no white space follows its braces and no carriage return was typed before the end of its name. |
| `TemplateVariables.TemplateVariablesAreSeen` | src/Wolflog.Server/Monitoring/MessageTemplate.cs:35-48 | In a template without such white space and carriage returns, every variable the parser finds, on any line and at any depth, is seen by the test. |
| `TemplateVariables.SpacedVariableIsMissed` | src/Wolflog.Server/Monitoring/MessageTemplate.cs:230-241 | A template whose only variable, after a space, is used and not seen. |
| `TemplateVariables.BrokenVariableIsMissed` | src/Wolflog.Server/Monitoring/MessageTemplate.cs:37 | A template whose only variable, with a carriage return inside, is used and not seen. |
| `TemplateLines.Parse` | src/Wolflog.Server/Monitoring/MessageTemplate.cs:35-44 | A template is split into lines, items recognised, each line parsed. |
| `TemplateLines.Collect` | src/Wolflog.Server/Monitoring/MessageTemplate.cs:162-172 | The names of a line in reading order, nested ones included. |
| `TemplateLines.Visible` | src/Wolflog.Server/Monitoring/MessageTemplate.cs:144-160 | The two loops give the displayed lines of the definition. |
| `TemplateLines.ParagraphsAreKept` | src/Wolflog.Server/Monitoring/MessageTemplate.cs:143-160 | Displaying keeps the paragraphs of the lines that are not hidden, with one blank line between them and none at the ends; no line shown is hidden. |
| `TemplateLines.HiddenExactlyWhen` | src/Wolflog.Server/Monitoring/MessageTemplate.cs:149-151 | A line is left out exactly when a variable stands in it, at any depth, and none that does has a value with a visible character. |
| `TemplateLines.SolidLinesAreKept` | src/Wolflog.Server/Monitoring/MessageTemplate.cs:144-160 | Every line that is neither hidden nor blank is displayed, in order. |
| `TemplateLines.DisplayingTwiceChangesNothing` | src/Wolflog.Server/Monitoring/MessageTemplate.cs:144-160 | What is displayed is displayed unchanged. |
| `TemplateHtml.RenderInline` | src/Wolflog.Server/Monitoring/MessageTemplate.cs:177-213 | The rendering loop gives the string of the recursive definition. |
| `TemplateHtml.RenderHtml` | src/Wolflog.Server/Monitoring/MessageTemplate.cs:62-80 | The loop over the displayed lines opens and closes lists as the definition does. |
| `TemplateHtml.InlineIsRead` | src/Wolflog.Server/Monitoring/MessageTemplate.cs:137-213 | Inline content, read by a tag reader, leaves the open elements as they were, links only where none is open. |
| `TemplateHtml.HtmlIsWellNested` | src/Wolflog.Server/Monitoring/MessageTemplate.cs:62-80 | For every template and all values of its variables the HTML is a properly nested tag sequence, each element where it may stand, no link inside a link. |
| `TemplateContent.RenderingIsWritten` | src/Wolflog.Server/Monitoring/MessageTemplate.cs:119-213 | Plain text, Slack and Teams: the rendering is, in order, each text, the value of each variable, the words of each link (or its target where they are blank) and each mention, with the marks of the channel around it. |
| `TemplateContent.WebIs` | src/Wolflog.Server/Monitoring/MessageTemplate.cs:207-211 | A target becomes a link exactly when it begins with https://, http:// or mailto:, case ignored. |
| `TemplateContent.SlackShowsTheText` | src/Wolflog.Server/Monitoring/MessageTemplate.cs:126 | Text escaped for Slack reads back as itself and holds no angle bracket. |
| `TemplateContent.BlankExactlyWhen` | src/Wolflog.Server/Monitoring/MessageTemplate.cs:152-159 | A line is blank exactly when it is no item, holds texts only, and nothing but white space is read in it. |
| `TemplateContent.ContentIsSeen` | src/Wolflog.Server/Monitoring/MessageTemplate.cs:137-213 | HTML read with its tags removed shows, in order, the encoding of each text, variable value, link (its words or its target) and mention, each inside exactly the elements it belongs to: strong, em, or the link to its target. |
| `TemplateContent.HtmlShowsContent` | src/Wolflog.Server/Monitoring/MessageTemplate.cs:62-80 | The whole page shows the content of each displayed line, in order: each item in its own li, each run of items in one list, each other line that is not blank in its own paragraph. |
| `Closure.BothWaysAgree` | samples/Wolflog.DemoDirectory/InMemoryDirectory.cs:153-157 | Inverse relations connect the same pairs, cycles included. |
| `Closure.SearchAdvances` | samples/Wolflog.DemoDirectory/InMemoryDirectory.cs:164-170 | One round of the search keeps its invariant: seen and waiting names are connected, and nothing reachable is forgotten. |
| `Closure.SearchEnds` | samples/Wolflog.DemoDirectory/InMemoryDirectory.cs:164-171 | A search that ends without the target proves that it is not connected. |
| `Directory.CaseDoesNotMatter` | samples/Wolflog.DemoDirectory/InMemoryDirectory.cs:174-179 | Names that differ only in case are the same name. |
| `Directory.NormalizeIgnoresCase` | samples/Wolflog.DemoDirectory/InMemoryDirectory.cs:174-179 | The program's way to compare names meets what the results below ask of one. |
| `Directory.SameNameExactlyWhen` | samples/Wolflog.DemoDirectory/InMemoryDirectory.cs:174-181 | Two names are the same exactly when they have the same parts in the same order, case and white space around the separators aside. |
| `Directory.MembershipKeepsInverse` | samples/Wolflog.DemoDirectory/InMemoryDirectory.cs:59-63 | Writing both sides of a membership keeps the two relations inverse. |
| `Directory.HalfMembershipKeepsInverse` | samples/Wolflog.DemoDirectory/InMemoryDirectory.cs:59-63 | Writing one side only, to a name that is no entry, keeps them inverse between entries. |
| `Directory.MemberKeepsInverse` | samples/Wolflog.DemoDirectory/InMemoryDirectory.cs:59-63 | The same for both sides, on the attributes of the entries. |
| `Directory.HalfMemberKeepsInverse` | samples/Wolflog.DemoDirectory/InMemoryDirectory.cs:59-63 | The same for one side. |
| `Directory.AppendedKeys` | samples/Wolflog.DemoDirectory/DirectoryEntry.cs:23-27 | Appending a value, which is refused when one that differs only in case is there, adds exactly its link. |
| `Directory.AppendedOnce` | samples/Wolflog.DemoDirectory/DirectoryEntry.cs:23-27 | A value is added at the end once, case ignored: the list has it then, and never holds two that are the same. |
| `Directory.AddedAgreesExactlyWhen` | samples/Wolflog.DemoDirectory/InMemoryDirectory.cs:50-56 | From inverse relations: after an entry is added or replaced, all answers agree exactly when no other entry has a link to its name. |
| `Directory.OneMoreAgrees` | samples/Wolflog.DemoDirectory/InMemoryDirectory.cs:50-63 | Any operation on a directory with inverse links leaves all answers in agreement exactly when it is a membership, failed or not, or adds a name without links to it. |
| `Directory.AnswersAlwaysAgreeExactlyWhen` | samples/Wolflog.DemoDirectory/InMemoryDirectory.cs:50-63 | For any sequence of operations: all answers agree after each of them exactly when no entry was added under a name to which another entry had a link. |
| `Directory.FailedMembershipCanBreakAgreement` | samples/Wolflog.DemoDirectory/InMemoryDirectory.cs:59-63 | A membership of an unknown member, then the addition of its name, breaks the agreement. |
| `Directory.AgreementCanBeLost` | samples/Wolflog.DemoDirectory/InMemoryDirectory.cs:59-63 | A sequence of three operations from the empty directory after which the answers no longer agree. |
| `Directory.InMemoryDirectory.Add` | samples/Wolflog.DemoDirectory/InMemoryDirectory.cs:50-56 | A name joins without links, or replaces the entry of that name. |
| `Directory.InMemoryDirectory.AddMember` | samples/Wolflog.DemoDirectory/InMemoryDirectory.cs:59-63 | Both sides are written, or the part written before the failure. |
| `Directory.InMemoryDirectory.Reaches` | samples/Wolflog.DemoDirectory/InMemoryDirectory.cs:159-172 | The search ends on any graph and is true exactly when the target is in the transitive closure of the link. |
| `Directory.InMemoryDirectory.IsMemberOf` | samples/Wolflog.DemoDirectory/InMemoryDirectory.cs:154 | Member of a group, at any depth. |
| `Directory.InMemoryDirectory.HasMember` | samples/Wolflog.DemoDirectory/InMemoryDirectory.cs:157 | Has a member, at any depth. |
| `Directory.InMemoryDirectory.SameAnswer` | samples/Wolflog.DemoDirectory/InMemoryDirectory.cs:153-157 | Where the links between entries are inverse, links to unknown names aside, both questions about two entries have the same answer. |
| `SearchFilter.LeftmostIsEnough` | samples/Wolflog.DemoDirectory/SearchFilter.cs:95-100 | Taking the leftmost place of a part loses no match. |
| `SearchFilter.IndexOfPart` | samples/Wolflog.DemoDirectory/SearchFilter.cs:97 | The first place of a part, case ignored, or none. |
| `SearchFilter.Substring` | samples/Wolflog.DemoDirectory/SearchFilter.cs:87-102 | True exactly when the value can be cut into the initial part, gaps, the middle parts in order without overlap, and the final part (section 4.5.1.7.2 of RFC 4511). |
| `SearchFilter.MatchesExactlyWhen` | samples/Wolflog.DemoDirectory/SearchFilter.cs:87-102 | A value matches exactly when, case folded, it is the parts put end to end in order, with any text between them. |
| `MailDns.ReadName` | src/Wolflog.Server/Monitoring/MailDns.cs:181-206 | The loop reads the labels and the offset that the definition gives, and fails where the program reads past the end. |
| `MailDns.ReadsEncoded` | src/Wolflog.Server/Monitoring/MailDns.cs:181-206 | From any round on, a well-formed name that still fits is read to its end. |
| `MailDns.NamesAreRead` | src/Wolflog.Server/Monitoring/MailDns.cs:180-206 | A well-formed name with backward pointers, labels and pointers under 128, gives its labels and the offset after its first pointer or terminator. |
| `MailDns.EncodedIsWellFormed` | src/Wolflog.Server/Monitoring/MailDns.cs:108-115 | Labels written one after the other with a final zero are a well-formed name. |
| `MailDns.LongNameIsCut` | src/Wolflog.Server/Monitoring/MailDns.cs:186 | A name of 128 labels or more is left unfinished. |
| `MailDns.Build` | src/Wolflog.Server/Monitoring/MailDns.cs:98-126 | The query is built byte by byte, or refused for an empty or too long label. |
| `MailDns.BareIs` | src/Wolflog.Server/Monitoring/MailDns.cs:108 | The name asked for is the trimmed name without the dots that end it, and with nothing else taken. |
| `MailDns.AcceptedExactlyWhen` | src/Wolflog.Server/Monitoring/MailDns.cs:108-111 | A name is accepted exactly when none of its labels is empty or longer than 63 characters. |
| `MailDns.QueryAsksOneQuestion` | src/Wolflog.Server/Monitoring/MailDns.cs:98-126 | A query holds its identifier, one question of the type given and class IN, and the EDNS0 record, nothing else (section 4.1.1 of RFC 1035). |
| `MailDns.QuestionIsTheName` | src/Wolflog.Server/Monitoring/MailDns.cs:98-126 | Reading the question of a query gives the name back, and the offset after it, exactly when it has fewer than 128 labels. |
| `MailDns.ReadText` | src/Wolflog.Server/Monitoring/MailDns.cs:166-171 | The strings of a TXT record, put end to end. |
| `MailDns.ResourceIsRead` | src/Wolflog.Server/Monitoring/MailDns.cs:140-176 | From a well-formed answer, one round reads exactly its record, if it is of the type asked for, and goes on at its end. |
| `MailDns.PassQuestions` | src/Wolflog.Server/Monitoring/MailDns.cs:131-138 | The loop over the questions. |
| `MailDns.Parse` | src/Wolflog.Server/Monitoring/MailDns.cs:128-178 | The loop over the answers. |
| `MailDns.ParseIsExact` | src/Wolflog.Server/Monitoring/MailDns.cs:128-178 | Parsing a well-formed response gives exactly its MX, SRV or TXT records, in order (sections 4.1.1 to 4.1.4 of RFC 1035). |
| `MailDns.ResponseReadsBack` | src/Wolflog.Server/Monitoring/MailDns.cs:128-178 | Round trip: the records of a written response, owner names compressed, are what Parse returns. |
| `EnvironmentText.TextIsText` | src/Wolflog.Server/Configuration/EnvironmentStore.cs:163-167 | A text read is on one line, without white space around it. |
| `EnvironmentText.TextOfText` | src/Wolflog.Server/Configuration/EnvironmentStore.cs:163-167 | Reading such a text again changes nothing. |
| `EnvironmentText.ColorIsNormalized` | src/Wolflog.Server/Configuration/EnvironmentStore.cs:172-176 | An accepted colour becomes a hash sign and six small hexadecimal digits. |
| `EnvironmentText.ColorOfNormal` | src/Wolflog.Server/Configuration/EnvironmentStore.cs:172-176 | A normal colour is accepted and kept. |
| `EnvironmentText.ColorIsKept` | src/Wolflog.Server/Configuration/EnvironmentStore.cs:172-176 | The colour read is the one typed: its digits in small letters, each of three doubled. |
| `EnvironmentReading.TextOfLines` | src/Wolflog.Server/Configuration/EnvironmentStore.cs:162-167 | Lines typed one under the other, or with tabs between them, are read with one space between them. |
| `EnvironmentCheck.DefiningIsExact` | src/Wolflog.Server/Configuration/EnvironmentStore.cs:84-103 | The first loop accepts exactly valid, pairwise different names, and numbers the environments. |
| `EnvironmentCheck.AddingIsExact` | src/Wolflog.Server/Configuration/EnvironmentStore.cs:108-120 | The loop over the values of one environment accepts exactly those that no other owns, and keeps each once. |
| `EnvironmentCheck.AddingAllIsExact` | src/Wolflog.Server/Configuration/EnvironmentStore.cs:105-122 | The second loop accepts exactly when the values of each environment fit and are free. |
| `EnvironmentCheck.EnvironmentsAreExact` | src/Wolflog.Server/Configuration/EnvironmentStore.cs:77-122 | Both loops accept exactly when nothing is wrong with any environment and no value belongs to two, and then clean each. |
| `EnvironmentApps.AttachingIsExact` | src/Wolflog.Server/Configuration/EnvironmentStore.cs:133-147 | The values of an application are accepted exactly when short, different, and attached to known environments or not named like one. |
| `EnvironmentApps.OneAppIsExact` | src/Wolflog.Server/Configuration/EnvironmentStore.cs:126-155 | One application is accepted exactly when nothing is wrong with its service and its values and none before it has its service, and is then cleaned. |
| `EnvironmentApps.AppsAreExact` | src/Wolflog.Server/Configuration/EnvironmentStore.cs:124-158 | The loop over the applications accepts exactly the good ones and cleans each. |
| `EnvironmentStore.InOrderOfAscending` | src/Wolflog.Server/Configuration/EnvironmentStore.cs:77-78 | Environments already in order stay as they are. |
| `EnvironmentStore.ByServiceSorts` | src/Wolflog.Server/Configuration/EnvironmentStore.cs:159 | Applications end sorted by service, none lost. |
| `EnvironmentStore.GroupValues` | src/Wolflog.Server/Configuration/EnvironmentStore.cs:108-120 | The loop over values, on the texts as typed. |
| `EnvironmentStore.DefineEnvironments` | src/Wolflog.Server/Configuration/EnvironmentStore.cs:84-103 | The loop over environments, on the texts as typed. |
| `EnvironmentStore.CheckEnvironments` | src/Wolflog.Server/Configuration/EnvironmentStore.cs:77-122 | Both loops, on the texts as typed. |
| `EnvironmentStore.AttachValues` | src/Wolflog.Server/Configuration/EnvironmentStore.cs:133-147 | The loop over the values of an application. |
| `EnvironmentStore.HideValues` | src/Wolflog.Server/Configuration/EnvironmentStore.cs:148-154 | The loop over hidden environments. |
| `EnvironmentStore.Check` | src/Wolflog.Server/Configuration/EnvironmentStore.cs:73-160 | The whole check. |
| `EnvironmentStore.CheckIsExact` | src/Wolflog.Server/Configuration/EnvironmentStore.cs:73-160 | The check accepts the good settings and no others, and gives them cleaned. |
| `EnvironmentOrder.InOrderSorts` | src/Wolflog.Server/Configuration/EnvironmentStore.cs:77-78 | The environments end in ascending order, none lost or doubled, those of the same order as they were typed. |
| `EnvironmentOrder.ResultHolds` | src/Wolflog.Server/Configuration/EnvironmentStore.cs:84-103 | In what the check accepts, each environment typed is there, read as it should be and numbered by its place. |
| `EnvironmentOrder.ResultIsInOrder` | src/Wolflog.Server/Configuration/EnvironmentStore.cs:77-78 | In what the check accepts, one environment comes before another exactly when its order is smaller, or the same and it was typed earlier. |
| `EnvironmentResult.NothingIsWrongExactlyWhen` | src/Wolflog.Server/Configuration/EnvironmentStore.cs:86-95 | Nothing is wrong with an environment as typed exactly when its name is one, and title, kind and colour are blank or as they must be. |
| `EnvironmentResult.AliasesAre` | src/Wolflog.Server/Configuration/EnvironmentStore.cs:105-122 | In what the check accepts, an environment has the values typed for it, in that order, each once, case ignored, and not its own name. |
| `EnvironmentResult.AppsAre` | src/Wolflog.Server/Configuration/EnvironmentStore.cs:124-159 | In what the check accepts, each application typed that has settings is there, no other, by service, with its values, their environments and its hidden environments in the order typed. |
| `EnvironmentNormal.GroupingIsKept` | src/Wolflog.Server/Configuration/EnvironmentStore.cs:105-122 | Cleaning an environment takes no value from it and gives it none. |
| `EnvironmentNormal.CleanedAreNormal` | src/Wolflog.Server/Configuration/EnvironmentStore.cs:84-122 | Good environments become normal ones: each value in one at most, order equal to position. |
| `EnvironmentNormal.CleanedAppsAreNormal` | src/Wolflog.Server/Configuration/EnvironmentStore.cs:124-159 | Good applications become normal ones: known targets, distinct and sorted services. |
| `EnvironmentNormal.ResultIsNormal` | src/Wolflog.Server/Configuration/EnvironmentStore.cs:68-72 | What the check accepts, it puts in the normal form. |
| `EnvironmentNormal.UnchangedExactlyWhenNormal` | src/Wolflog.Server/Configuration/EnvironmentStore.cs:68-160 | The normal form is exactly what the check accepts unchanged. |
| `EnvironmentNormal.CheckingTwiceChangesNothing` | src/Wolflog.Server/Configuration/EnvironmentStore.cs:68-160 | Checking accepted settings again changes nothing. |
| `EnvironmentSuggestion.BuildOwners` | src/Wolflog.Server/Configuration/EnvironmentSuggestion.cs:31-36 | Names first, then aliases, the first owner of a value keeps it. |
| `EnvironmentSuggestion.FindPending` | src/Wolflog.Server/Configuration/EnvironmentSuggestion.cs:38-42 | The usual values received that nobody owns, each once. |
| `EnvironmentSuggestion.GroupOneFamily` | src/Wolflog.Server/Configuration/EnvironmentSuggestion.cs:46-66 | One round over a family: its environment found or made, its values added. |
| `EnvironmentSuggestion.Propose` | src/Wolflog.Server/Configuration/EnvironmentSuggestion.cs:28-69 | The whole proposal and its two counts. |
| `EnvironmentProposal.OwnersAgree` | src/Wolflog.Server/Configuration/EnvironmentSuggestion.cs:31-36 | The owners built from environments agree with their names and aliases. |
| `EnvironmentProposal.NameIsOfItsFamily` | src/Wolflog.Server/Configuration/EnvironmentSuggestion.cs:14-22 | A value that is the name of a family belongs to that family and to none before it. |
| `EnvironmentProposal.OwnershipIsKept` | src/Wolflog.Server/Configuration/EnvironmentSuggestion.cs:24-69 | Every owner keeps what it owns, environments keep their place and their aliases, and no value comes to be in two environments. |
| `EnvironmentProposal.UsualIsOwned` | src/Wolflog.Server/Configuration/EnvironmentSuggestion.cs:38-66 | Every usual value received has an owner. |
| `EnvironmentProposal.SoleValueIsGroupedOnce` | src/Wolflog.Server/Configuration/EnvironmentSuggestion.cs:38-66 | If no value of the draft is in two environments, every usual value received is in exactly one. |
| `EnvironmentProposal.OwnerOfUsual` | src/Wolflog.Server/Configuration/EnvironmentSuggestion.cs:38-66 | Where a usual value received ends: where the draft has it, else in the environment named like its family, else in a new one. |
| `EnvironmentProposal.SecondProposalChangesNothing` | src/Wolflog.Server/Configuration/EnvironmentSuggestion.cs:28-69 | Grouping again groups nothing, creates nothing and changes nothing. |
| `EnvironmentFamilies.FamilyIsTheFirst` | src/Wolflog.Server/Configuration/EnvironmentSuggestion.cs:38-41 | A value is of the first family that lists it as it is compared. |
| `EnvironmentFamilies.SimplifiedIs` | src/Wolflog.Server/Configuration/EnvironmentSuggestion.cs:87-105 | Values are compared character by character, separators left out and accents dropped. |
| `EnvironmentFamilies.CopiesAre` | src/Wolflog.Server/Configuration/EnvironmentSuggestion.cs:72-84 | The draft is copied without blank names and blank aliases, the others trimmed, in order, with all the rest. |
| `EnvironmentFamilies.OwnersAre` | src/Wolflog.Server/Configuration/EnvironmentSuggestion.cs:31-36 | A value is owned by the first environment of that name, else by the first that has it as an alias. |
| `EnvironmentFamilies.FirstIsPending` | src/Wolflog.Server/Configuration/EnvironmentSuggestion.cs:38 | A value received in several writings is grouped as it was written first. |
| `EnvironmentFamilies.NewEnvironmentsAre` | src/Wolflog.Server/Configuration/EnvironmentSuggestion.cs:48-59 | The new environments: one for each family that the draft does not name and of which it lacks a value received, with its name, title and kind, next in order; `created` counts them. |
| `EnvironmentFamilies.GroupedAre` | src/Wolflog.Server/Configuration/EnvironmentSuggestion.cs:38-66 | `grouped` counts the usual values received that the draft has nowhere, each once, case ignored. |
| `EnvironmentFamilies.ValuesAreGroupedInOrder` | src/Wolflog.Server/Configuration/EnvironmentSuggestion.cs:44-66 | The values that an environment is given come by families, and within one in the order of their capitals. |
| `EnvironmentAcceptance.OrderDoesNotMatter` | src/Wolflog.Server/Configuration/EnvironmentStore.cs:77-78 | Whether environments are accepted does not depend on their order. |
| `EnvironmentAcceptance.UsualIsOnOneLine` | src/Wolflog.Server/Configuration/EnvironmentSuggestion.cs:87-105 | A trimmed usual value holds no line break and no tab. |
| `EnvironmentAcceptance.UsualIsGroupedOnce` | src/Wolflog.Server/Configuration/EnvironmentSuggestion.cs:38-66 | From any draft that the check accepts, each usual value received ends in exactly one environment. |
| `EnvironmentAcceptance.EnvironmentsAreAcceptedExactlyWhen` | src/Wolflog.Server/Configuration/EnvironmentSuggestion.cs:44-67 | Nothing is wrong with the environments proposed from accepted ones exactly when none has too many aliases and none that the grouping passes over is read as having a value received. |
| `EnvironmentAcceptance.AppsStayGood` | src/Wolflog.Server/Configuration/EnvironmentStore.cs:140-153 | With more environment names, applications stay good exactly when none keeps apart a value named like one of them. |
| `EnvironmentAcceptance.AcceptedExactlyWhen` | src/Wolflog.Server/Configuration/EnvironmentStore.cs:73-160 | What the check asks, told on the settings as typed, whatever their order. |
| `EnvironmentAcceptance.ProposalIsAcceptedExactlyWhen` | src/Wolflog.Server/Configuration/EnvironmentSuggestion.cs:28-69 | For every draft that the check accepts: it accepts the proposal exactly when that is within the limits, no application keeps apart a value named like one of its environments, and no environment that the grouping passes over is read as having a value received. |
| `EnvironmentForecast.ProposalNames` | src/Wolflog.Server/Configuration/EnvironmentSuggestion.cs:44-67 | The proposal has the environments of the draft, then one for each family that the draft does not name and of which it lacks a value received. |
| `EnvironmentForecast.FitsExactlyWhenRoom` | src/Wolflog.Server/Configuration/EnvironmentStore.cs:105-122 | The check finds the aliases of an environment proposed few enough exactly when it had room for what the grouping brings to it, both as the check reads them. |
| `EnvironmentForecast.AcceptanceIsForetold` | src/Wolflog.Server/Configuration/EnvironmentSuggestion.cs:28-69 | Acceptance told from the draft and the received values alone: room for the new families, room in each environment for what is brought to it, no application keeps apart a value named like a new family, and none passed over is read as having a value received. |
| `EnvironmentTab.ProposalWithTabIsRefused` | src/Wolflog.Server/Configuration/EnvironmentSuggestion.cs:72-84 | A draft with a tab inside an alias is accepted and its proposal refused. |
| `DashboardAccess.View` | src/Wolflog.Server/Api/DashboardAccess.cs:39-45 | The panels the person sees, in order, and how many are hidden. |
| `DashboardAccess.PanelIsParted` | src/Wolflog.Server/Api/DashboardAccess.cs:42-56 | A panel among others is shown exactly when it is seen, and counts as the person's own exactly when it is not hidden, order kept. |
| `DashboardAccess.Merge` | src/Wolflog.Server/Api/DashboardAccess.cs:51-65 | The loop fills the places as the definition does; an administrator's submission is taken as it is. |
| `DashboardAccess.SavingTheViewChangesNothing` | src/Wolflog.Server/Api/DashboardAccess.cs:39-65 | Saving what one was shown changes nothing. |
| `DashboardAccess.SubmissionIsSaved` | src/Wolflog.Server/Api/DashboardAccess.cs:51-65 | The result without the hidden identifiers is the accepted submission, in order. |
| `DashboardAccess.HiddenPanelsKeepTheirPlace` | src/Wolflog.Server/Api/DashboardAccess.cs:47-65 | A hidden panel lands after the hidden ones before it and as many own panels as fit before it. |
| `DashboardAccess.HiddenPanelsSurvive` | src/Wolflog.Server/Api/DashboardAccess.cs:47-65 | No hidden panel is lost, changed or moved past another. |
| `DashboardAccess.FillTwice` | src/Wolflog.Server/Api/DashboardAccess.cs:51-65 | With enough own panels first, only the second save counts. |
| `DashboardAccess.TooFewFirst` | src/Wolflog.Server/Api/DashboardAccess.cs:51-65 | With too few own panels first, a second save lands differently. |
| `DashboardAccess.LastSaveWinsExactlyWhen` | src/Wolflog.Server/Api/DashboardAccess.cs:51-65 | The last save wins, whatever it is, exactly when the first fills the places before the last hidden panel. |
| `RedactedWords.Words` | src/Wolflog.Client/Internal/HttpCaptureRules.cs:101-122 | The loop cuts a name as the definition does. |
| `RedactedWords.WordsArePlain` | src/Wolflog.Client/Internal/HttpCaptureRules.cs:97-122 | Each word is not empty and all digits or all small letters. |
| `RedactedWords.WordsHoldTheLetters` | src/Wolflog.Client/Internal/HttpCaptureRules.cs:97-122 | The words put end to end are the letters and digits of the name, in small letters. |
| `RedactedWords.WordsBeginAtBreaks` | src/Wolflog.Client/Internal/HttpCaptureRules.cs:124-132 | A word begins exactly after a separator or at a break of style. |
| `RedactedStyles.WordsBeginExactlyAtBreaks` | src/Wolflog.Client/Internal/HttpCaptureRules.cs:124-132 | Told from the characters: inside letters and digits a word begins exactly between a small letter and a capital, a letter and a digit, and two capitals before a small letter. |
| `RedactedStyles.SignsSeparate` | src/Wolflog.Client/Internal/HttpCaptureRules.cs:105-112 | What stands before and after any other character is cut each on its own. |
| `RedactedStyles.PiecesAreCutExactlyWhen` | src/Wolflog.Client/Internal/HttpCaptureRules.cs:101-132 | A name made of pieces is cut back into them exactly when its breaks are where a piece begins. |
| `RedactedStyles.StylesAreCutExactlyWhen` | src/Wolflog.Client/Internal/HttpCaptureRules.cs:97-132 | Words written as they are, with a capital or in capitals, in any mixture, are cut back exactly when each two neighbours are told apart: an acronym before a capitalised word is. |
| `RedactedStyles.CamelCaseIsCutExactlyWhen` | src/Wolflog.Client/Internal/HttpCaptureRules.cs:97-132 | camelCase and PascalCase are cut back exactly when no two numbers are side by side and no single capital is followed by another. |
| `RedactedWords.WritingStyleDoesNotMatter` | src/Wolflog.Client/Internal/HttpCaptureRules.cs:97-122 | Words written with any separator are cut into the same words. |
| `RedactedWords.ContainsRedactedWord` | src/Wolflog.Client/Internal/HttpCaptureRules.cs:81-95 | True exactly when some redacted list is a contiguous part of the words. |
| `RedactedWords.HoldsExactlyWhen` | src/Wolflog.Client/Internal/HttpCaptureRules.cs:85-93 | A name holds a redacted word exactly when its words are those of some list, with any words before and after. |
| `RedactedWords.MaskingIgnoresStyle` | src/Wolflog.Client/Internal/HttpCaptureRules.cs:81-95 | A name and its words in any other style hold a redacted word alike. |
| `RedactedWords.StyleIsIgnoredExactlyWhen` | src/Wolflog.Client/Internal/HttpCaptureRules.cs:78-95 | They are masked alike exactly when they hold a redacted word, or both are exact names or none is. |
| `RedactedWords.ExactNameDependsOnStyle` | src/Wolflog.Client/Internal/HttpCaptureRules.cs:79 | An exact name that is masked, and not in another style. |
| `Probes.StatusAfter` | src/Wolflog.Server/Monitoring/ProbeEngine.cs:85-91 | The status rule, one result after the other, is the status told from the history. |
| `Probes.SinceIs` | src/Wolflog.Server/Monitoring/ProbeEngine.cs:87-91 | The time a status has lasted since is that of the last result that changed it, or of the creation if none did. |
| `Probes.RecentAre` | src/Wolflog.Server/Monitoring/ProbeEngine.cs:82-84 | The recent results are the last twenty, the newest first. |
| `Probes.TrailingFailuresAre` | src/Wolflog.Server/Monitoring/ProbeEngine.cs:85 | The failures in a row are the results after the last success. |
| `Probes.ProbeState.Record` | src/Wolflog.Server/Monitoring/ProbeEngine.cs:79-92 | The state stays the one told from the history: status, since, failures in a row, last result, the last twenty newest first. |
| `Probes.Scheduler.Tick` | src/Wolflog.Server/Monitoring/ProbeEngine.cs:35-69 | A tick gives each probe its own decision, starts none that is running, and forgets what belongs to no probe. |
| `Probes.RunsDoNotOverlap` | src/Wolflog.Server/Monitoring/ProbeEngine.cs:33-63 | In any run of ticks and ends, the end of a probe's run lies between any two of its starts. |
| `Probes.NextStaysUntilDue` | src/Wolflog.Server/Monitoring/ProbeEngine.cs:52-56 | In any run of ticks and ends, with an unchanged plan, the next run stays where the last start put it. |
| `Probes.RunsAreSpaced` | src/Wolflog.Server/Monitoring/ProbeEngine.cs:33-63 | In any run of ticks and ends, a probe with an unchanged plan starts at least its interval, and ten seconds, apart. |
| `Probes.StartsExactlyWhenDue` | src/Wolflog.Server/Monitoring/ProbeEngine.cs:38-62 | In any run, after a start a probe with an unchanged plan starts again exactly at the first tick at which it may run and the time drawn then has come: its interval, ten seconds at least, or its next fixed hour. |
| `Probes.NewStartsExactlyWhen` | src/Wolflog.Server/Monitoring/ProbeEngine.cs:41-56 | A new probe, or one with a new plan, starts at once if it has an interval and may run, and never if it has fixed hours. |
| `Probes.FirstHourExactlyWhen` | src/Wolflog.Server/Monitoring/ProbeEngine.cs:43-50 | A new probe with fixed hours starts exactly when it may run and the hour drawn at its first tick has come. |
| `Probes.StuckForGood` | src/Wolflog.Server/Monitoring/ProbeEngine.cs:57-62 | A probe whose run ended before it was registered never starts again. |
| `Probes.CanStartExactlyWhen` | src/Wolflog.Server/Monitoring/ProbeEngine.cs:57-62 | A runnable probe with an interval can start again exactly when it is not registered without a run. |

## Left out

Assumptions that bound the results above:

- Delivery: moving and deleting a file are atomic; compression and HTTP are not modelled, a response is an answer chosen freely; a request taken after the client gave it up, which only adds an acceptance, is in DeliveryOrder.
- DeliveryOrder: HasPending and Store are single steps, the clock strictly increases, one process runs at a time, and a batch refused for its content is refused whenever it is sent again; the finer race between the directory scan and the hint (DiskOutbox.cs:24-27) is not modelled.
- Transport: calls run one after the other, so the drain's own lock is always free; the answers of the server, failed claims, failed and denied deletions and exceptions that end a drain are inputs; Deliver meets no other exception than those the program catches (Delivery has such a step).
- Outbox: the directory belongs to one process and file contents are texts; what several processes do to it is in Delivery.
- CrashSessions: a marker moved into place is complete, so that one read is never malformed; the lookup finds every live process, which containers that share the directory and a clock set while a session runs can break (CrashReporter.cs:89-99); the content of the reports is not modelled.
- AlertEngine: the results of evaluations, the activity hours, the clock and the place of an exception are inputs; keys are distinct in a pass; states are values in a map, so sharing of a state object is not captured; a state's identifier is a pair, as rule identifiers hold no bar; value, message, link and data of a state and the sending of notifications are not modelled; the history is never trimmed to its newest events; rounds run one after the other.
- KnownErrors: which groups the storage returns, and their status, are inputs.
- Template: letters, digits, white space and case are those of any platform, given as functions; the joining of rendered lines in `Plain`, `Slack`, `SingleLine` and the `Teams` blocks is not modelled.
- TemplateHtml: HTML encoding is any function whose results hold no angle bracket and no double quote.
- TemplateContent: besides, an opening angle bracket is no white space; the marks of Slack and Teams are written, how those channels show them is not modelled.
- TemplatePrinting: the writing of nodes is this project's own, with signs that are neither letters nor digits; italic parts that hold an underscore, also in the name of a variable, are left out of the round trip.
- Directory: names are compared by any form that ignores case, of which Normalize is one; authentication, flags and matching rules other than nested groups are not modelled.
- SearchFilter: only the substring assertion; reading filters from their encoding is not modelled.
- MailDns: sockets and the choice of servers are not modelled; the decoding of TXT strings is any function of their bytes; results about names and responses are for well-formed messages, and for others only where the program throws.
- EnvironmentStore: which problem is reported first is modelled, its message is not; saving, the stored file and its compiled rules are not modelled.
- EnvironmentAcceptance.ProposalIsAcceptedExactlyWhen: for received values that are trimmed and at most 100 characters long.
- EnvironmentForecast.AcceptanceIsForetold: likewise for received values that are trimmed and at most 100 characters long.
- Strings: white space and case are those of Latin-1 characters; other characters have neither. Dashboard, probe and redacted-name results do not depend on it, and redacted names are ASCII.
- RedactedWords: reading the configured names and word lists and masking texts with them are not modelled.
- DashboardAccess: which panels a person sees is a parameter; visibility of whole dashboards is not modelled.
- Probes: the network checks, and which runs end before they are registered, are inputs; immediate runs by hand are not modelled.

Parts of the program that would only add easy members: HTTP endpoints, gRPC and UI wiring, the installer, backups, demo
traffic, mail and OAuth exchanges, the breadcrumb ring, the capture streams and the small stores.
