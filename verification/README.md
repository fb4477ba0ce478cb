# mcp-hangar, modelled and proved

This project models the parts of mcp-hangar whose correctness is hard to see from one function: the
lock hierarchy, request correlation over stdio, the approval gate across instances, the relay between
two generations of the task protocol, the SIEM and Prometheus printers with their parsers, and several
fast or incremental algorithms next to the simple definitions they must agree with. Every statement is
for all inputs, all interleavings or all runs.

`dafny verify dfyconfig.toml` checks everything.

## How it is organised

| file | what it covers |
|---|---|
| `HeldLocks.dfy`, `LockProtocol.dfy` | a thread's held list; any number of threads acquiring and releasing tracked locks |
| `StdioProtocol.dfy` | callers, reader and closers around the pending map and its capacity-1 queues |
| `ApprovalGate.dfy` | any number of instances, one shared store, checks and resolutions interleaved, failing reads, cancellation |
| `ApprovalRequests.dfy` | the approval aggregate and its transitions |
| `UpstreamTasks.dfy`, `TaskRelay.dfy`, `Json.dfy` | the task upstream as a state machine; the relay handlers as effect traces in front of it |
| `Escaping.dfy`, `SiemFormats.dfy`, `RawValues.dfy`, `AuditLines.dfy` | replacement chains; CEF, LEEF and RFC 5424 text with reference parsers; values printed without escaping; the formatters on an audit record |
| `TextLines.dfy`, `MetricsText.dfy` | lines of text; the Prometheus printer and the snapshot worker's line parser |
| `Sse.dfy` | chunked and whole-body event parsing |
| `Histogram.dfy` | first-fit buckets and cumulative collection |
| `FlatTools.dfy` | the flat tool map and its collisions |
| `HealthSchedule.dfy` | the health worker's schedule |
| `ReleaseNotes.dfy`, `Changelog.dfy`, `ReleaseText.dfy` | the order of a release's fragments, inserting a section, and the two together from fragments to the file |
| `Retry.dfy` | the retry loop and its delays |
| `Options.dfy`, `Strings.dfy` | what the others share |

Concurrent parts are transition systems. A step is what one thread does between two points where
another can run, and `Leads(s, steps, s')` says that a run takes one state to another; `Reachable` is
what runs reach from the start. Objects that the program updates in place are classes, and loops are
methods, each tied to a function or to the property it is for.

## What was found on the way

* **Unique lock keys are not needed, but something is.** Nothing stops two lock objects from carrying
  the same level and name. The hierarchy prevents deadlock exactly for the tables called safe here:
  a re-entrant lock may share its key only with non-re-entrant locks, and only on the topmost level
  (`LockProtocol.DeadlockFreeIffSafe`; the two deadlocking runs are lemmas).
* **A label value can capture a metric.** The snapshot parser looks for `mcp_server="` anywhere in the
  line. A label printed earlier whose value ends in `mcp_server=`, or a server id that ends so, sends
  the value elsewhere; otherwise the id is read exactly (`MetricsText.ReadLabels`, an equivalence; an
  id that starts with a comma can also be found by accident).
* **A carriage return in a label loses the count**: the printer escapes no line break but the newline
  (`MetricsText.CarriageReturnLosesTheCount`).
* **A cancelled check can leave its hold behind.** The hold is registered before the `try` that
  releases it, and the approver is notified in between. A check cancelled there leaves its hold for
  good; every other way to end releases it (`ApprovalGate.HoldsAreReleased`, an equivalence).
* **A decision can lose to the deadline.** The timeout writes `expired` unconditionally. A decision
  that is being written stays, in every continuation, exactly when the check has by then been woken,
  has taken a decision or has finished, or is inside a slice on a signalled hold; in all other states
  some continuation expires it (`ApprovalGate.WrittenDecisionsSurviveIff`).
* **An exception can leave a finished request pending.** `call` drops its entry after a failed write
  and after an empty queue, and after nothing else. A negative timeout makes the queue raise another
  exception, even with an answer in it; so does one longer than the platform can wait, if it has to
  wait; and a `_meta` that no dictionary can be made of raises before the write. A request can be left
  behind exactly then (`StdioProtocol.LeaksIffUnusable`), and it stays until it is answered or cleaned
  up (`StdioProtocol.FinishedCallsAreNotPending`, an equivalence).
* **An answer in time can be lost.** An answer put into its queue is the call's result exactly when the
  call is waiting at that moment, with a timeout that is not negative
  (`StdioProtocol.PutAnswersAreReturnedIff`). One that comes before the write is over is lost if the
  write then fails, and one that the reader takes before the wait ends is lost if the wait ends before
  the put.
* **A poll can fail on what it relays.** Status and message are stored as the upstream sent them, and a
  result that is no object is passed on; the result type then raises. A poll is shown exactly when all
  of these have the types it declares (`TaskRelay.GetTask`); an odd status stays in the ledger until
  another one comes (`TaskRelay.SyncedEntriesAreServable`, `TaskRelay.UnservableEntriesStay`).
* **One value is printed unescaped.** CEF and LEEF print the duration as it is. A line is read back
  exactly when that text holds no backslash before a code and, for CEF, no equals sign; for LEEF, no
  tab but behind a backslash, and no backslash at its end before another attribute
  (`AuditLines.CefRecordsReadBack`, `AuditLines.LeefRecordsReadBack`).
* **A repeated histogram bound is counted twice.** Collection is counting exactly when the configured
  bounds are distinct and finite, an infinite one being added anyway
  (`Histogram.CollectsCountsIffDistinct`).
* **A constant retry delay ignores the cap**, so the cap holds exactly when the delay is not constant
  or does not exceed it (`Retry.CapHoldsUnlessConstantExceedsIt`). A delay longer than the platform can
  sleep ends the run without a result (`Retry.LongDelaysLoseTheRun`).
* **A whole-body SSE response answers more often than a stream.** It looks at an unterminated last
  event, and then at any data line with a result or an error, whosesoever it is. The two readers
  decide alike exactly when the stream decides, or neither of these finds anything
  (`Sse.StreamAgreesWithBody`, an equivalence).
* **A tool can be callable and not listed**: exactly one that the registry does not resolve without a
  tenant (`FlatTools.ResolveCall`).
* **An `[Unreleased]: ` link below an Unreleased heading counts as content**, so insertion is refused
  although the documentation says the link is dropped (`Changelog.KeepLines` follows the code).
* **`close` never sends its shutdown request**: the closed flag is up before `call` looks at it
  (`StdioProtocol.StdioClient.Close`, `StdioProtocol.ClosedClientsAdmitNoCall`).

## Model

| member | source | states |
|---|---|---|
| HeldLocks.ThreadLocks.CheckOrder | src/mcp_hangar/lock_hierarchy.py:100-131 | the check passes exactly when the rule admits the lock; a refusal reports the highest held level and the held names at or above the requested one |
| HeldLocks.ThreadLocks.Register | src/mcp_hangar/lock_hierarchy.py:84-87 | the key is appended to the held list |
| HeldLocks.ThreadLocks.Unregister | src/mcp_hangar/lock_hierarchy.py:90-97 | exactly the last occurrence of the key goes |
| HeldLocks.ThreadLocks.Acquire | src/mcp_hangar/lock_hierarchy.py:177-201 | registers exactly when the order allows it and the real lock was obtained, and keeps first occurrences ascending |
| HeldLocks.DropLastSplits | src/mcp_hangar/lock_hierarchy.py:90-97 | the entry removed stands where no later one equals it, and everything else keeps its place |
| HeldLocks.DropLastKeepsFirstsAscending | src/mcp_hangar/lock_hierarchy.py:90-97 | releasing in any order keeps every first occurrence above all that precedes it |
| HeldLocks.FirstsAscendPairwise | src/mcp_hangar/lock_hierarchy.py:100-131 | first occurrences are strictly increasing in level |
| HeldLocks.PoppingTheFirstOccurrenceBreaksOrder | src/mcp_hangar/lock_hierarchy.py:90-97 | removing the first occurrence instead of the last would break that order |
| LockProtocol.StepKeepsThread | src/mcp_hangar/lock_hierarchy.py:177-207 | every step keeps the invariant of the thread that takes it, in the gaps between check, lock and registration too |
| LockProtocol.ReachableInv | src/mcp_hangar/lock_hierarchy.py:84-131 | in every reachable state ownership is exclusive and every held list matches real ownership up to the gap |
| LockProtocol.HeldIsOwned | src/mcp_hangar/lock_hierarchy.py:84-97 | outside the gaps the held list is the real ownership, with multiplicity |
| LockProtocol.WaitingClimbs | src/mcp_hangar/lock_hierarchy.py:100-131 | on a safe table a thread that waits for a waiting thread waits lower than it |
| LockProtocol.SafeTablesNeverDeadlock | src/mcp_hangar/lock_hierarchy.py:84-131 | no reachable state of a safe table has a wait cycle |
| LockProtocol.SafeTablesProgress | src/mcp_hangar/lock_hierarchy.py:177-207 | behind every blocked thread there is a finite chain of waits to a thread that can move |
| LockProtocol.TwoReentrantLocksDeadlock | src/mcp_hangar/lock_hierarchy.py:100-131 | two re-entrant locks with one key deadlock two threads |
| LockProtocol.ShadowedLockDeadlocks | src/mcp_hangar/lock_hierarchy.py:100-131 | a re-entrant lock that shares its key below another lock deadlocks two threads |
| LockProtocol.DeadlockFreeIffSafe | src/mcp_hangar/lock_hierarchy.py:84-207 | no run of any number of threads deadlocks if and only if the table of locks is safe |
| LockProtocol.UniqueKeysNeverDeadlock | src/mcp_hangar/lock_hierarchy.py:84-207 | with unique level and name no run deadlocks |
| StdioProtocol.StepKeepsInv | src/mcp_hangar/stdio_client.py:77-264 | every step of a caller, the reader, a cleanup or a closer, an escaping exception included, keeps the correlation invariant |
| StdioProtocol.PutsNeverBlock | src/mcp_hangar/stdio_client.py:114-185 | in every reachable state the next put finds its queue empty, pending requests have untouched queues, and no queue is used twice |
| StdioProtocol.ReturnsOnlyItsOwn | src/mcp_hangar/stdio_client.py:187-264 | a call returns a message with its own id or a cleanup error |
| StdioProtocol.FinishedCallsAreNotPending | src/mcp_hangar/stdio_client.py:187-264 | whenever the lock is free a finished call is pending if and only if an exception escaped from it and it has since been neither answered nor cleaned up |
| StdioProtocol.UsableRequestsDoNotEscape | src/mcp_hangar/stdio_client.py:225-264 | exceptions escape only from calls with a negative or overlong timeout or a `_meta` that no dictionary can be made of |
| StdioProtocol.UnusableRequestsLeak | src/mcp_hangar/stdio_client.py:216-264 | every such request has a run whose finished call is left pending |
| StdioProtocol.LeaksIffUnusable | src/mcp_hangar/stdio_client.py:187-264 | a finished call can be left pending if and only if its request is of that kind |
| StdioProtocol.UnansweredRequestsArePending | src/mcp_hangar/stdio_client.py:211-217 | a written request nobody has answered can still be found by the reader |
| StdioProtocol.TakenResponsesStayInPlace | src/mcp_hangar/stdio_client.py:114-124 | in every continuation a response taken for a pending request is in the reader's hands, in the queue or returned, and a call that returns anything returns it |
| StdioProtocol.QueuedMessagesAreReturned | src/mcp_hangar/stdio_client.py:256-264 | a waiting call with a queued message can only return that message, unless its timeout is negative, when it only raises |
| StdioProtocol.AnswerAfterTimeoutIsLost | src/mcp_hangar/stdio_client.py:114-124 | a run in which the reader takes the answer, the wait ends before the put, and the call times out |
| StdioProtocol.AnswerBeforeFailedWriteIsLost | src/mcp_hangar/stdio_client.py:238-258 | a run in which the answer is queued before the write is over, which then fails |
| StdioProtocol.PutAnswersAreReturnedIff | src/mcp_hangar/stdio_client.py:114-264 | an answer put into its queue is the call's result in every continuation if and only if the call is waiting then, with a timeout that is not negative |
| StdioProtocol.ClosedClientsAdmitNoCall | src/mcp_hangar/stdio_client.py:203-204 | once the closed flag is up no call enters, in any continuation |
| StdioProtocol.ResultQueue.Put | src/mcp_hangar/stdio_client.py:207-207 | a put into an empty capacity-1 queue leaves exactly that message |
| StdioProtocol.StdioClient.BeginCall | src/mcp_hangar/stdio_client.py:203-217 | refused exactly when closed, otherwise a fresh empty queue is registered under the id |
| StdioProtocol.StdioClient.Dispatch | src/mcp_hangar/stdio_client.py:114-124 | a known id is popped and its queue filled with that response, an unknown one changes nothing |
| StdioProtocol.StdioClient.CleanupPending | src/mcp_hangar/stdio_client.py:172-185 | every pending queue gets exactly one error and the map is empty |
| StdioProtocol.StdioClient.Close | src/mcp_hangar/stdio_client.py:270-300 | a first close raises the flag, is refused its own shutdown call, and fails every pending request; a second does nothing |
| ApprovalGate.MoveKeepsView | src/mcp_hangar/approvals/service.py:216-385 | every move of a check keeps all it sees and has decided backed by written decisions on its id |
| ApprovalGate.MovesAreLocal | src/mcp_hangar/approvals/service.py:216-385 | a move changes its own check, hold and record as described, and nothing another check reads |
| ApprovalGate.StepKeepsInv | src/mcp_hangar/approvals/service.py:216-385 | every step of any check or resolution keeps the gate's invariant, and recorded decisions only grow |
| ApprovalGate.OutcomesAreBacked | src/mcp_hangar/approvals/service.py:243-385 | granted only after a resolution of that id approved, denied only after one denied, across instances and failing reads |
| ApprovalGate.ExpiryMeansNothingWasSeen | src/mcp_hangar/approvals/service.py:348-385 | a check expires only if no slice saw the signal and no successful read saw a decision |
| ApprovalGate.HoldsAreReleased | src/mcp_hangar/approvals/service.py:229-364 | a finished check leaves a hold behind if and only if it was cancelled while the approver was being notified |
| ApprovalGate.CancelledDeliveryLeaksTheHold | src/mcp_hangar/approvals/service.py:229-243 | a run that cancels a check there leaves its hold in the registry |
| ApprovalGate.LeakedHoldsStay | src/mcp_hangar/approvals/hold_registry.py:83-86 | no continuation removes such a hold |
| ApprovalGate.DecisionsCanLoseToTheDeadline | src/mcp_hangar/approvals/service.py:289-321 | a run in which a resolution writes its decision and the record ends up expired |
| ApprovalGate.ExpiringRun | src/mcp_hangar/approvals/service.py:289-385 | a check that has seen no decision and holds no signal has a continuation that expires its record |
| ApprovalGate.StepKeepsSafe | src/mcp_hangar/approvals/service.py:216-385 | no step of any check or resolution brings a check that is past expiring back, or expires its record |
| ApprovalGate.WrittenDecisionsSurviveIff | src/mcp_hangar/approvals/service.py:289-321 | a decision being written stays in every continuation if and only if its check is past expiring at that moment |
| ApprovalGate.RecordedDecisionsAreTaken | src/mcp_hangar/approvals/service.py:366-385 | a decision found at a readable poll is final for that check, whatever happens later |
| ApprovalGate.CommitmentHolds | src/mcp_hangar/approvals/service.py:243-302 | a check that has taken a decision never turns to the opposite answer or to expiry |
| ApprovalGate.RequestsKeepTheirTerms | src/mcp_hangar/approvals/models.py:51-134 | arguments hash and expiry of a held request never change |
| ApprovalGate.RevalidationIsSound | src/mcp_hangar/approvals/service.py:122-146 | dispatch passes revalidation only with the held arguments, before expiry, and after an approval of that id |
| ApprovalGate.HoldRegistry.Register | src/mcp_hangar/approvals/hold_registry.py:33-36 | an unsignalled hold is stored under the id |
| ApprovalGate.HoldRegistry.Resolve | src/mcp_hangar/approvals/hold_registry.py:38-49 | a known hold is signalled with the verdict, an unknown one is reported |
| ApprovalGate.HoldRegistry.Release | src/mcp_hangar/approvals/hold_registry.py:83-86 | exactly that hold goes |
| ApprovalGate.HoldRegistry.WaitForDecision | src/mcp_hangar/approvals/service.py:348-364 | returns the first decision observed, none only past the deadline with nothing seen; at most ceil(timeout / interval) record reads; the hold is released |
| ApprovalRequests.FirstTransitionDecides | src/mcp_hangar/approvals/models.py:93-132 | whatever transitions are tried on a request, the first one decides and the others change nothing |
| ApprovalRequests.ApprovalRequest.Approve | src/mcp_hangar/approvals/models.py:101-107 | a pending request becomes approved, a terminal one raises and stays as it is |
| ApprovalRequests.ApprovalRequest.Deny | src/mcp_hangar/approvals/models.py:109-116 | a pending request becomes denied with the reason, a terminal one raises and stays as it is |
| ApprovalRequests.ApprovalRequest.Expire | src/mcp_hangar/approvals/models.py:127-132 | a pending request becomes expired, a terminal one stays as it is |
| UpstreamTasks.TaskStore.Create | examples/task_upstream/server.py:141-147 | a working record without result is stored |
| UpstreamTasks.TaskStore.Cancel | examples/task_upstream/server.py:158-164 | an unfinished task becomes cancelled, a finished one is returned unchanged |
| UpstreamTasks.TaskStore.ResolveInput | examples/task_upstream/server.py:166-174 | only a task waiting for input completes |
| UpstreamTasks.TaskStore.RunLifecycle | examples/task_upstream/server.py:176-193 | a working task completes or asks for consent, any other is left alone |
| UpstreamTasks.TaskStore.ResultPayload | examples/task_upstream/server.py:195-203 | there is a payload exactly for completed tasks, and it is the record's own text |
| UpstreamTasks.RunKeepsInv | examples/task_upstream/server.py:158-203 | in every run a result text is set exactly when the task is completed |
| UpstreamTasks.FinalRecordsAreFrozen | examples/task_upstream/server.py:158-203 | completed and cancelled are absorbing: no continuation changes the record, but for the time of update when a cancelled task is cancelled again |
| UpstreamTasks.ConsentNeedsUpdate | examples/task_upstream/server.py:166-193 | a consent task completes only in a run with an update of it |
| TaskRelay.Admit | src/mcp_hangar/fastmcp_server/task_relay_handlers.py:202-274 | passes exactly the callers with version, header, capability and ownership in order; otherwise the first failing rung decides how the call ends, an exception of the ledger included |
| TaskRelay.LawfulEverywhere | src/mcp_hangar/fastmcp_server/task_relay_handlers.py:440-596 | in a lawful trace every effect comes when it may |
| TaskRelay.EffectsHappenOnce | src/mcp_hangar/fastmcp_server/task_relay_handlers.py:440-596 | no call performs an effect, an upstream request among them, twice |
| TaskRelay.ChecksPrecedeRequests | src/mcp_hangar/fastmcp_server/task_relay_handlers.py:253-274 | before every upstream request stand the five checks, in their order |
| TaskRelay.ConsentPrecedesItsRecord | src/mcp_hangar/fastmcp_server/task_relay_handlers.py:568-589 | before a recorded consent stand the probe, the opened gate, the forwarding and the gate's answer, in that order |
| TaskRelay.SyncSnapshot | src/mcp_hangar/fastmcp_server/task_relay_handlers.py:369-377 | a status that came along is written to the ledger, and nothing otherwise |
| TaskRelay.WithUpstreamPayload | src/mcp_hangar/fastmcp_server/task_relay_handlers.py:469-506 | an inline payload is kept; otherwise the fetched one is put in, and nothing when the fetch fails; no other field changes |
| TaskRelay.VerifiedResult | src/mcp_hangar/fastmcp_server/task_relay_handlers.py:448-467 | a result with an outcome passes only after the digest was verified, with its payload in place and all else as it was; refused exactly when that fails |
| TaskRelay.PassOn | src/mcp_hangar/fastmcp_server/task_relay_handlers.py:448-462 | a usable result is shown exactly when ledger, digest guard, snapshot and the types of its fields allow it, and the payload is fetched exactly when it is missing |
| TaskRelay.ReadReply | src/mcp_hangar/fastmcp_server/task_relay_handlers.py:444-467 | the same for every answer, an upstream error included, which shows no outcome |
| TaskRelay.GetTask | src/mcp_hangar/fastmcp_server/task_relay_handlers.py:420-467 | the whole handler: refusals without upstream requests; exactly when an answered poll is shown, what it shows and with which effects, how it ends otherwise, and no payload without the digest |
| TaskRelay.TextResultsAreNotShown | src/mcp_hangar/fastmcp_server/task_relay_handlers.py:404-418 | a completed task with a text as inline result: verified and stored, and then the result type raises |
| TaskRelay.SyncedEntriesAreServable | src/mcp_hangar/fastmcp_server/task_relay_handlers.py:369-377 | a servable ledger entry stays so if and only if the upstream's status and message are of the declared types |
| TaskRelay.UnservableEntriesStay | src/mcp_hangar/fastmcp_server/task_relay_handlers.py:369-377 | an entry that cannot be served is repaired exactly by a later status, and a message if that was the fault |
| TaskRelay.CancelTask | src/mcp_hangar/fastmcp_server/task_relay_handlers.py:508-543 | the whole handler: the entry is marked and then retired exactly when the upstream confirms, either of which may raise; the acknowledgement is empty either way |
| TaskRelay.RetireConfirmed | src/mcp_hangar/fastmcp_server/task_relay_handlers.py:525-543 | marked and retired only on confirmation, marked but not retired when only the deletion raises |
| TaskRelay.OpenGate | src/mcp_hangar/fastmcp_server/task_relay_handlers.py:577-584 | the gate opens exactly when the probe was answered and the gate accepts |
| TaskRelay.RecordConsent | src/mcp_hangar/fastmcp_server/task_relay_handlers.py:590-595 | consent is recorded unless the ledger raises, whether the status can be written or not |
| TaskRelay.RelayAnswer | src/mcp_hangar/fastmcp_server/task_relay_handlers.py:584-596 | consent recorded only for an error-free relay whose answer the gate took, the gate discarded only for an answered error |
| TaskRelay.UpdateTask | src/mcp_hangar/fastmcp_server/task_relay_handlers.py:545-599 | the whole handler: exactly which effects and which answer each combination of probe, gate, reply and ledger gives |
| TaskRelay.TwoReadsAreOne | src/mcp_hangar/fastmcp_server/task_relay_handlers.py:440-506 | the two reads of a poll equal one atomic look at the first, whatever the upstream does in between |
| TaskRelay.PollUpstream | src/mcp_hangar/fastmcp_server/task_relay_handlers.py:420-506 | the handler in front of the moving upstream shows what one atomic look at the first read would |
| TaskRelay.PayloadsAreFinal | examples/task_upstream/server.py:195-203 | every later poll of a finished task shows the same payload |
| TaskRelay.RetiredTasksStayCancelled | src/mcp_hangar/fastmcp_server/task_relay_handlers.py:616-635 | the upstream's answer confirms exactly for unfinished tasks, and a confirmed task is cancelled in every continuation |
| Escaping.ChainIsPerCharacter | src/mcp_hangar/compliance/cef_formatter.py:77-91 | a chain of whole-string replacements that starts with the backslash equals one escape per character |
| Escaping.BackslashMustComeFirst | src/mcp_hangar/compliance/cef_formatter.py:77-77 | in the other order two values print alike |
| Escaping.UnescapeEscape | src/mcp_hangar/compliance/leef_exporter.py:35-36 | unescaping gives every value back |
| Escaping.SplitLooksPast | src/mcp_hangar/compliance/cef_formatter.py:66-91 | an escaped value neither hides nor fakes an unprotected delimiter |
| SiemFormats.FieldsRoundTrip | src/mcp_hangar/compliance/cef_formatter.py:130-142 | delimited header fields are read back, for all values |
| SiemFormats.ParseValuesStep | src/mcp_hangar/compliance/cef_formatter.py:144-190 | a reader takes a value as it was meant exactly when it is legible |
| SiemFormats.ExtensionsRoundTrip | src/mcp_hangar/compliance/cef_formatter.py:144-190 | extensions separated by spaces are read back if and only if the unescaped values are legible; escaped ones are, with spaces, equals signs and trailing backslashes |
| SiemFormats.CefIsUnambiguous | src/mcp_hangar/compliance/cef_formatter.py:66-190 | a CEF line gives back every header field and every extension if and only if the unescaped values are legible |
| SiemFormats.SwallowedTabShows | src/mcp_hangar/compliance/leef_exporter.py:35-36 | a value that hides the tab behind it is never read as itself |
| SiemFormats.AttributesRoundTrip | src/mcp_hangar/compliance/leef_exporter.py:43-74 | tab-separated attributes are read back if and only if the unescaped values are legible where they stand |
| SiemFormats.FieldsUpTo | src/mcp_hangar/compliance/leef_exporter.py:43-74 | the first attribute that is not legible is misread, after all before it were read |
| SiemFormats.LeefIsUnambiguous | src/mcp_hangar/compliance/leef_exporter.py:35-74 | the same for the LEEF exporter's own replacements |
| SiemFormats.ParamsRoundTrip | src/mcp_hangar/compliance/syslog_exporter.py:47-61 | SD-PARAMs are read back and the element ends at its own bracket |
| SiemFormats.StructuredDataIsUnambiguous | src/mcp_hangar/compliance/syslog_exporter.py:43-61 | the exporter's element gives back every parameter and the text behind it, with no parameters too |
| AuditLines.FormatAuditRecord | src/mcp_hangar/compliance/cef_formatter.py:111-190 | the printed line is read back as its header and a list with every field of the record under its key, if and only if the duration is legible unescaped |
| AuditLines.CefRecordsReadBack | src/mcp_hangar/compliance/cef_formatter.py:111-190 | the CEF line of a record gives back header and fields, whatever text it holds, if and only if its duration holds no equals sign and no escape |
| AuditLines.CefLinesTellRecordsApart | src/mcp_hangar/compliance/cef_formatter.py:111-190 | two records that print as one CEF line agree in every field |
| AuditLines.PresentFinds | src/mcp_hangar/compliance/cef_formatter.py:144-188 | of conditionally printed fields with different keys each is found under its key, or is absent |
| RawValues.UnescapedAsIs | src/mcp_hangar/compliance/cef_formatter.py:180-183 | an unescaped value is read as it is if and only if it holds no backslash before a code and every delimiter stands behind a backslash |
| RawValues.FollowedAsIs | src/mcp_hangar/compliance/leef_exporter.py:55-57 | before another attribute, if and only if it does not end in a backslash either |
| AuditLines.FormatLeefRecord | src/mcp_hangar/compliance/leef_exporter.py:43-74 | the printed line is read back with every field of the record under its key if and only if the duration is legible unescaped |
| AuditLines.LeefRecordsReadBack | src/mcp_hangar/compliance/leef_exporter.py:43-74 | the attributes of a record's LEEF line are read back if and only if its duration holds no escape, no unguarded tab, and no final backslash before another attribute |
| AuditLines.SdRecordsReadBack | src/mcp_hangar/compliance/syslog_exporter.py:47-61 | the structured data of every record is read back, with the text behind it |
| TextLines.SplitJoined | src/mcp_hangar/metrics.py:370-381 | lines joined and ended by a newline split into the same lines |
| MetricsText.CutAtFirstQuote | src/mcp_hangar/gc.py:455-459 | the needle can only end at a quote preceded by the word, so text up to the first quote decides |
| MetricsText.EscapingKeepsEnding | src/mcp_hangar/metrics.py:431-442 | escaping neither creates nor destroys the word at the end of a value |
| MetricsText.CutOverValue | src/mcp_hangar/gc.py:455-459 | a quoted value holds the needle exactly when it ends with the word |
| MetricsText.ReadLabels | src/mcp_hangar/gc.py:455-459 | the printed server is read back if and only if no earlier label value, nor the server, ends with the word, or the text between a misleading label and the next quote happens to be its id |
| MetricsText.SampleCounts | src/mcp_hangar/gc.py:451-483 | a printed sample is read back as its server, value and metric |
| MetricsText.Credit | src/mcp_hangar/gc.py:463-483 | one line changes the entry of the server it mentions, by its value, and no other |
| MetricsText.TakeSnapshot | src/mcp_hangar/gc.py:446-484 | one entry per mentioned server, each total the sum over all lines |
| MetricsText.PrintedSumsAreRead | src/mcp_hangar/metrics.py:383-442 | the parser gives each server the sum of its counter values over all other labels |
| MetricsText.PrintedTextIsRead | src/mcp_hangar/metrics.py:370-442 | the same for the whole text, through its lines |
| MetricsText.CarriageReturnLosesTheCount | src/mcp_hangar/metrics.py:431-442 | a carriage return in a label splits the printed line, and its count is lost |
| MetricsText.PrinterSettingHolds | src/mcp_hangar/metrics.py:431-442 | the printer's own replacements and label name meet the conditions of the theorems |
| MetricsText.MisleadingErrorTypeIsMisread | src/mcp_hangar/gc.py:455-459 | an error type ending with the word is a line that is misread |
| Sse.ParseEvent | src/mcp_hangar/http_client.py:676-703 | the last non-empty data line of an event decides; it answers only when decoded with the request's id |
| Sse.DrainLosesNothing | src/mcp_hangar/http_client.py:635-640 | the events cut off and the remaining buffer are the text |
| Sse.DrainIsIncremental | src/mcp_hangar/http_client.py:628-640 | cutting events as text arrives gives the same events as cutting the whole, also inside a separator |
| Sse.ProcessBuffer | src/mcp_hangar/http_client.py:635-640 | answers with the first matching terminated event of the buffer, or keeps the unterminated rest |
| Sse.HandleStream | src/mcp_hangar/http_client.py:623-652 | for every chunking, the first matching terminated event of the concatenation, or the end-of-stream error |
| Sse.StreamDecidedEarly | src/mcp_hangar/http_client.py:639-640 | an answer found after some chunks is the answer of the whole stream |
| Sse.ParseBody | src/mcp_hangar/http_client.py:549-600 | the first matching piece of the body; without one the first data line with a result or an error, whatever its id; blank pieces skipped |
| Sse.SilentDataPasses | src/mcp_hangar/http_client.py:574-593 | the second pass finds nothing exactly when no data line holds a result or an error or makes it raise |
| Sse.StreamAgreesWithBody | src/mcp_hangar/http_client.py:562-652 | both readers decide alike if and only if the stream decides, or the unterminated last event bears no match and no data line answers |
| Histogram.SortedKeeps | src/mcp_hangar/metrics.py:161-161 | the bounds are the configured ones in ascending order |
| Histogram.CumulativeGrows | src/mcp_hangar/metrics.py:167-177 | one more observation shows once for every listing of its bucket |
| Histogram.DistinctBoundsCollect | src/mcp_hangar/metrics.py:161-207 | with distinct bounds the collected value at each bound is the number of observations at or below it |
| Histogram.RepeatedBoundOvercounts | src/mcp_hangar/metrics.py:161-207 | a bound listed twice counts one observation as two |
| Histogram.CollectsCountsIffDistinct | src/mcp_hangar/metrics.py:161-207 | collection is counting, for every history and bound, if and only if no bound is repeated, the added infinite one included |
| Histogram.CollectedIsMonotone | src/mcp_hangar/metrics.py:190-207 | collected values never decrease and the last is the number of observations |
| Histogram.AddToFirstFit | src/mcp_hangar/metrics.py:173-177 | exactly the first fitting bucket is raised by one |
| Histogram.Accumulate | src/mcp_hangar/metrics.py:196-203 | each sample is the running total up to its bound |
| Histogram.Metric.Observe | src/mcp_hangar/metrics.py:167-177 | appends the value to that label key's history, with buckets, count and sum to match, and touches no other key |
| Histogram.Metric.Collect | src/mcp_hangar/metrics.py:190-207 | a label key's samples count its observations at or below each bound; sum, count and last sample agree with its history |
| FlatTools.BuildFlatMap | src/mcp_hangar/fastmcp_server/flat_tool_projection.py:172-219 | a name is mapped exactly when one visible registry entry bears it, and to that entry, for any number of collisions |
| FlatTools.PlaceVisible | src/mcp_hangar/fastmcp_server/flat_tool_projection.py:203-217 | one more visible entry keeps the map at the names with one bearer and the collisions at those with more |
| FlatTools.OrderDoesNotMatter | src/mcp_hangar/fastmcp_server/flat_tool_projection.py:172-219 | the map does not depend on the order of the registry |
| FlatTools.MappedIffSoleOwner | src/mcp_hangar/fastmcp_server/flat_tool_projection.py:172-219 | over distinct entries a name is mapped exactly when its set of visible owners has one element, which it stands for |
| FlatTools.NamesAreNeverReassigned | src/mcp_hangar/fastmcp_server/flat_tool_projection.py:203-217 | registering more entries can remove a name but never hand it to another backend |
| FlatTools.BuildToolList | src/mcp_hangar/fastmcp_server/flat_tool_projection.py:222-258 | the served list holds exactly the mapped names whose tool is known without a tenant |
| FlatTools.ResolveCall | src/mcp_hangar/fastmcp_server/flat_tool_projection.py:222-336 | over unchanged state a listed name reaches the visible backend it was listed for, an unmapped name is not found, and a callable name is listed if and only if its tool is known without a tenant |
| HealthSchedule.HealthWorker.RunCycle | src/mcp_hangar/gc.py:102-181 | one cycle performs the sweep's checks, sets its due times, and keeps only ids of its snapshot |
| HealthSchedule.CycleIsPerServer | src/mcp_hangar/gc.py:115-157 | the shared schedule treats every server as if it were alone |
| HealthSchedule.DueTimesHold | src/mcp_hangar/gc.py:121-157 | a due time only moves later while the server stays in the snapshots |
| HealthSchedule.ChecksAreSpaced | src/mcp_hangar/gc.py:121-157 | in every run, any later check of a server present throughout keeps the interval its completed check chose, and no cycle checks it twice |
| HealthSchedule.ChecksAreVisits | src/mcp_hangar/gc.py:114-119 | only servers of the snapshot are checked, and never a cold or initializing one |
| HealthSchedule.AbsenceForgets | src/mcp_hangar/gc.py:176-181 | after a cycle without it, a started server is checked at once |
| HealthSchedule.FailedChecksAreRetried | src/mcp_hangar/gc.py:126-167 | a check that raised or chose no positive interval leaves a started server due in the next cycle |
| HealthSchedule.OnlyCurrentServersAreScheduled | src/mcp_hangar/gc.py:176-181 | after each cycle of a run the schedule holds only ids of that snapshot |
| ReleaseNotes.SortedKeeps | scripts/build_changelog.py:183-183 | sorting one section gives the same fragments in descending key order |
| ReleaseNotes.EveryFragmentIsRenderedOnce | scripts/build_changelog.py:180-191 | every fragment is rendered as often as it was loaded |
| ReleaseNotes.RenderedInOrder | scripts/build_changelog.py:180-191 | section order first, descending key within a section |
| ReleaseNotes.LoadOrderDoesNotMatter | scripts/build_changelog.py:86-92 | with distinct file names the rendered order is independent of the order files are read in |
| ReleaseNotes.RenderParts | scripts/build_changelog.py:178-191 | the section starts with its heading, and every fragment is a bullet under its own section's title, in that order |
| Changelog.KeepLines | scripts/build_changelog.py:202-223 | refused exactly when a line under an Unreleased heading is neither heading nor blank; otherwise what survives is kept |
| Changelog.SurvivorsKeepTheEssential | scripts/build_changelog.py:202-223 | no non-blank line is lost but Unreleased headings and links, and none moves |
| Changelog.Place | scripts/build_changelog.py:230-236 | the section goes directly above the first version heading, or to the end |
| Changelog.NewSectionComesFirst | scripts/build_changelog.py:230-236 | the section's heading becomes the first version heading |
| Changelog.FinishedReadsBack | scripts/build_changelog.py:237-237 | the text written splits into the body without its trailing empty lines |
| Changelog.InsertionConserves | scripts/build_changelog.py:194-237 | read back, the file holds every essential old line in order around the new section, whose heading is first |
| Changelog.InsertSection | scripts/build_changelog.py:194-237 | the whole insertion, refusal included, is the one the lemmas are about |
| Changelog.Assemble | scripts/build_changelog.py:286-301 | an existing section or an empty one leaves the changelog alone; otherwise what comes back has the release's section, and assembling again changes nothing |
| Changelog.SectionsOpenTheirRelease | scripts/build_changelog.py:171-177 | text opening with the release heading has it as its first line |
| Changelog.AssemblingAgainIsANoOp | scripts/build_changelog.py:286-293 | after a release was assembled, assembling it again changes nothing, whatever fragments have appeared |
| ReleaseText.TextIsItsLines | scripts/build_changelog.py:178-191 | joining the rendered parts is joining all their lines, bullets with continuation lines included |
| ReleaseText.SectionLines | scripts/build_changelog.py:144-191 | the rendered section reads as the lines of its parts, its heading first |
| ReleaseText.WriteRelease | scripts/build_changelog.py:265-301 | from fragments to the file: every bullet once, under its title and in order, in one piece behind the first version heading, no essential line lost, and a second run changes nothing |
| Retry.RetrySync | src/mcp_hangar/retry.py:382-465 | between 1 and max_attempts calls, ending at the first that succeeds, aborts or may not be retried, recording exactly the earlier ones with their delays; none for a non-positive limit; no result exactly when an exception escapes: of the call, of the delay's computation, of the callback, or of a sleep that is negative or too long |
| Retry.SleepableRunsGoOn | src/mcp_hangar/retry.py:192-208 | with non-negative delays within the platform's longest sleep, no overflow and a harmless callback every retry goes on |
| Retry.LongDelaysLoseTheRun | src/mcp_hangar/retry.py:446-446 | a constant delay too long to sleep: the first failure ends the run without a result |
| Retry.DelaysDoNotShrink | src/mcp_hangar/retry.py:192-200 | delays without jitter never decrease and are never negative |
| Retry.CapHoldsUnlessConstantExceedsIt | src/mcp_hangar/retry.py:192-200 | every delay is within the cap if and only if no larger constant delay was configured |
| Retry.JitterIsBounded | src/mcp_hangar/retry.py:202-206 | jitter moves a delay by at most its factor and never below zero |
| Retry.RunsWaitUnderTheCap | src/mcp_hangar/retry.py:382-465 | k calls wait at most k-1 capped delays, lengthened by the jitter |
| Retry.DoublingRunsWait | src/mcp_hangar/retry.py:382-465 | doubling, k calls wait at most 2^(k-1) - 1 initial delays, lengthened by the jitter |

## Left out

- Sockets, subprocesses, HTTP, serving, logging, tracing, SQL and YAML: they are I/O around the modelled logic.
- Clocks, random draws, UUIDs, hashes, JSON decoding and float printing: parameters of the models, with fresh ids and print/parse agreement where a theorem needs them.
- `TrackedLock.locked`, `clear_thread_locks` and running with the checks switched off: outside the ordering protocol.
- Fairness of the operating system's locks and queues: progress is stated as "some thread at the end of the wait chain can move", not as a time bound.
- A single terminal state per approval record: it does not hold; when a written decision stays is `ApprovalGate.WrittenDecisionsSurviveIff`.
- Approval policies, delivery, events and the argument sanitizer: they do not influence the decision.
- The governed task store, the consent gate, the digest guard, the tool projection registry and the access resolver: what they answer is a parameter.
- `_derive_input_key`, identity bridging and the timestamps on the wire: they do not change the order of effects. What the gate's `answer` returns is not looked at by the handler.
- The severity and signature tables, the LEEF and syslog headers: lookups and constants; the CEF header holds for any fields.
- Line breaks in CEF header fields and the free-text message of a syslog line: the code does not escape them, so nothing is claimed about them.
- The `health_check_failures` column of the snapshot: one more sum, filtered by a substring of the line.
- NaN observations of a histogram: observations are real numbers, so the value that compares with nothing is not modelled.
- SSE timeouts and stream errors: outside the agreement of the two readers. What either reader reports when it decides nothing differs in wording only.
- The schemas attached to listed tools: they come from the registry after the map is built.
- An exception raised while a server's state is read, before its health check: it leaves the schedule alone, as a skipped server does.
- The compare link, the date and reading pull request numbers from git: parameters of the rendered text, as is the summary, by its lines.
- `retry_async`, the `with_retry` wrapper and error classification: the first repeats the loop, the others are tables and plumbing.
- ApprovalGate.HoldRegistry.WaitForDecision: an unsignalled slice is required to last its full length; the bound on record reads depends on it.
- TaskRelay.TwoReadsAreOne: stated for reads that succeed; what a failed second read shows is stated by `TaskRelay.WithUpstreamPayload`.
- MetricsText.PrintedTextIsRead: stated for samples that `MetricsText.ReadLabels` reads and that print on one line; what a label value with a line break other than a newline does is shown for the carriage return only.
- Floating-point sums, delays and rounding: sums and delays are real numbers; the product of a float and a large power of two, which raises, is in `Retry.RetrySync`.
- Errors whose text cannot be formed: formatting one for the log or the retry test would raise inside the loop of `Retry.RetrySync`.
- ReleaseText.WriteRelease: a summary is given by its lines, so one that holds separators other than newlines is not covered.
- AuditLines.FormatAuditRecord: the list that conditional appends build is modelled as the value it ends with (`AuditLines.Present`), and so for `AuditLines.FormatLeefRecord`.
