# Caisson host protocols, verified

Caisson runs agent sessions in sandboxes. Its host side is a set of small protocols that meet
in one session: actions pass a gate and are audited before they execute, snapshots are cut
between them, audit rows are delivered to an external sink, sessions are started and torn
down, snapshot keys are erased. This project models those protocols and proves what holds over
every run of them.

`dafny verify dfyconfig.toml` checks everything.

## How the model is built

* The four protocols that run concurrently (`CaptureCut`, `AuditOutbox`, `SessionLifecycle`
  with `SessionLock`, `SnapshotErasure`) are step systems. A state is a value, `Next(state, label)`
  is total, a label whose guard fails changes nothing, so quantifying over label sequences
  quantifies over every interleaving (`Runs`). One label is one stretch of host code between two
  awaits, one SQL transaction, or one act of the outside world. Failures, timeouts and process
  death are labels or label arguments, and so is a transaction that commits and reports an error,
  for creation, status changes, releases, audit rows, delivery marks and snapshot commits alike.
* What each component of a reachable state stands for is stated over the labels of the run that
  leads there: it holds if and only if a step that brings it about occurred, or occurred and was not
  undone since, or it counts such steps (`Runs.Occurs`, `Since`, `Times`). These statements name
  outcomes of steps, not the functions that compute the next state.
* Objects that the source updates in place are classes (`SessionActionGate`, `AuditOutboxWriter`,
  `SessionStateMachine`, `SessionSnapshots`, `GuestCidPool`, `SnapshotCache`, `FrameReader`,
  `FramedConnection`). Each method is proved to do what a function on values says, and the laws
  are proved about those functions.
* AES-GCM (NIST SP 800-38D) is an ideal cipher: a box opens for exactly the key and the
  additional data it was made with.
* Clocks, fresh identifiers, fresh heap addresses, policy decisions, the sort's choice among
  ties and what the network delivers are parameters.

| file | what it holds |
|---|---|
| `CaptureCut.dfy` | broker calls, local tools, gate refusals and captures of one session, interleaved |
| `ActionGate.dfy` | the gate itself, with its records on an explicit heap |
| `GateRefinement.dfy` | the gate as implemented refines the gate the capture protocol relies on |
| `AuditOutbox.dfy` | the transactional log and its delivery |
| `SessionLock.dfy` | the promise-chain lock |
| `SessionLifecycle.dfy` | the status table, start, destroy and the two reconcilers |
| `SnapshotKeys.dfy` | key hierarchy, crypto-erasure, physical deletion |
| `Retention.dfy` | pruning |
| `CacheEviction.dfy` | one eviction pass over the base snapshot cache |
| `GuestCids.dfy` | the vsock CID allocator |
| `Framing.dfy` | both codecs, the incremental reader, the one-frame accumulator |
| `Utf8Preview.dfy` | cutting text to a byte budget |
| `Addresses.dfy` | the outbound address filter |
| `Bits.dfy`, `Runs.dfy`, `Basics.dfy` | bitwise operators, runs, shared types |

## Where the code and its promises part

Each of these is an if-and-only-if, or a lemma beside the law that does hold.

* A local tool's `complete` returns the promise of `invalidCompletion` without awaiting it, so its
  `finally` gives the lease back first; a failing report and an unsendable reply also log a
  terminal event after the release. A snapshot can then separate that action's start from its
  terminal event. `SplitExactlyWhenLate` shows that these three causes, and nothing else, can, an
  enqueue whose error was seen having landed or been lost by then;
  `LateHandlerIsSplit` shows it of every late handler in every quiet state.
* An action logs two terminal events exactly after one of four outcomes: its completion, its report
  or its late report committed and reported an error, or its report committed and its reply could
  not be framed (`LoggedTwiceExactlyAfterDoubling`). It logs none when its last enqueue rolls back;
  `ExecutionIsBracketed` gives the count for every run.
* A guest whose completion the host stopped waiting for may still be running while the sandbox is
  imaged (`AbandonedGuestRunsDuringCapture`).
* An eviction pass tests an entry, then awaits its size and its removal. A resolve of that snapshot
  that starts in between loses its files; `DeletesProtectedExactlyInWindow` is the exact condition.
* Exactly-once delivery needs the attempt bump of a failed delivery to land, and the sink to be done
  with its rows, before the next delivery begins (`SinkIsPrefixOfLog`, `LostBumpDuplicates`,
  `LateFlushDuplicates`); `DuplicatesExactlyWhenUncounted` is
  the table condition under which the next delivery inserts a row twice.
* A teardown can still be completed exactly while the runtime is in memory, its binding row is
  unreleased, or a lock holder is about to commit the outcome (`EndsExactlyWhenRecoverable`, for
  terminated, failed and cleaned up apart); runs lose all three, for sessions that are not final and
  for failed ones awaiting cleanup (`SessionsCanBeStranded`).
* A failed session may keep its snapshot keys under every failure reason, and never once it was
  cleaned up (`FailedKeepsKeysExactlyBeforeCleanup`).
* The transport is released while the token stays valid exactly when `create`'s transaction
  committed, reported an error, and `create` undid its sandbox
  (`TokenOutlivesTransportExactlyAfterAmbiguousCreate`).
* An active snapshot can lose its objects exactly when its capture's transaction committed and
  reported an error (`LostWhileActiveExactlyWhenDoubted`).
* A queued deletion can be completed exactly while the manifest is in the store or a worker that
  read it is alive (`CompletesExactlyWithManifestOrWorker`); a worker that dies between deleting
  the manifest and marking the row leaves a row that is retried forever (`DeletionCanBeWedged`).
* A duplicate CID request is refused only after a CID was taken for it, and that CID is never
  handed out again (`GuestCidPool.Allocate`).
* Bytes after the first broker frame are refused or ignored depending on where the network cuts
  the chunks (`TrailingBytesDependOnChunking`).

## Model

| member | source | states |
|---|---|---|
| CaptureCut.SuspensionPointIsConsistentCut | apps/control-plane/src/session-snapshot-service.ts:170-218 | on every run, a stored suspension point names the last row of a log prefix that holds both or neither of an action's start and terminal events, for every action that logs nothing after giving up its lease |
| CaptureCut.CaptureWindowIsQuiet | apps/control-plane/src/session-snapshot-service.ts:175-215 | while a capture body runs no lease is out and no adapter runs, a guest still running was given up by the host, and no start row falls between the cut and the commit of any snapshot |
| CaptureCut.ExecutionIsBracketed | apps/broker/src/broker-pipeline.ts:195-283 | whatever executes does so after its one start row is in the sink, and terminal events, of whichever kind, follow it; a handler that ended holds no lease and, its start having been acknowledged, logged exactly one terminal event, plus one if an outcome in the run doubled it, minus one if its last enqueue rolled back; the next five rows say which kind stands for what |
| CaptureCut.BrokerEventsAreOutcomes | apps/broker/src/broker-pipeline.ts:209-269 | on every run a broker call is logged as completed if and only if its adapter returned and that enqueue landed, as failed if and only if the enqueue of a failure landed, and as nothing else |
| CaptureCut.LocalEventsAreOutcomes | apps/broker/src/local-tool-pipeline.ts:213-349 | on every run a local tool is logged as completed or failed if and only if a report of that kind landed, as abandoned or as an invalid completion if and only if that enqueue landed |
| CaptureCut.LocalEventsHaveCauses | apps/broker/src/local-tool-server.ts:65-95 | a local tool is reported completed or failed only after a completion frame that names it, abandoned only after the host stopped waiting or could not write the authorization, an invalid completion only after a malformed or mismatched frame, a report that failed or a reply that cannot be sent |
| CaptureCut.LogIsOutcomes | apps/broker/src/broker-pipeline.ts:87-285 | every event is in the log exactly as often as an outcome that stands for it occurred in the run |
| CaptureCut.LogOnlyGrows | packages/audit/src/outbox.ts:229-264 | what is logged stays where it is: every later log starts with the earlier one |
| CaptureCut.RefusalIsLoggedOnce | apps/broker/src/broker-pipeline.ts:94-186 | an action refused by the gate or the policy, whose enqueue lands, has exactly one row in the log, its refusal; one none of whose refusals landed has no refusal there |
| CaptureCut.FateIsSealed | apps/broker/src/local-tool-pipeline.ts:213-349 | an action ran if and only if its adapter or guest was started, was cleared if and only if the delivery of its start succeeded, was given up if and only if the host stopped waiting, and is late for exactly the outcome of that name |
| CaptureCut.ExecutionNeedsStart | apps/broker/src/broker-pipeline.ts:188-201 | whatever ran had the enqueue of its start return normally and the delivery of it succeed |
| CaptureCut.AcknowledgedIsDelivered | packages/audit/src/outbox.ts:120-138 | a row is acknowledged if and only if a delivery reached past it |
| CaptureCut.HandlerMovesExactly | apps/broker/src/local-tool-server.ts:52-96 | where a handler stands decides which steps are possible, and every outcome of them is |
| CaptureCut.CleanRunsTerminateOnce | apps/broker/src/local-tool-pipeline.ts:213-349 | when every terminal enqueue of an action commits and its final frame fits, it never logs two terminal events, and exactly one once its handler ended after its acknowledgement |
| CaptureCut.LoggedTwiceExactlyAfterDoubling | apps/broker/src/local-tool-server.ts:75-95 | some run logs two terminal events of an action if and only if its completion, its report or its late report committed and reported an error, or its report committed and its reply could not be framed |
| CaptureCut.DoubledLogsAgain | apps/broker/src/local-tool-pipeline.ts:315-349 | from every state after such an outcome in which the handler still owes a terminal event, some continuation logs the second one |
| CaptureCut.HistoryIsOutcomes | apps/broker/src/local-tool-pipeline.ts:213-349 | on every run, an action is due a second terminal event, or has lost its last one, exactly when such an outcome, or such a rollback, occurs in the run |
| CaptureCut.HandlerCanMove | apps/broker/src/local-tool-server.ts:52-96 | a handler that has not ended can always take a step, whatever the guest and the gate do |
| CaptureCut.HandlerStepUsesUp | apps/broker/src/local-tool-server.ts:52-96 | every step of a handler lowers a bounded number that no other step changes |
| CaptureCut.EveryHandlerEnds | apps/broker/src/local-tool-pipeline.ts:288-313 | from every reachable state every handler can be brought to its end, where its lease is back, by at most eight steps of its own |
| CaptureCut.SplitExactlyWhenLate | apps/broker/src/local-tool-pipeline.ts:213-291 | some run splits an action by a snapshot if and only if its terminal event was left for after the release, for each of the three causes |
| CaptureCut.MismatchIsLate | apps/broker/src/local-tool-pipeline.ts:219-230 | a completion that names another action gives the lease back while its terminal event is still to come |
| CaptureCut.ReportIsLate | apps/broker/src/local-tool-server.ts:75-95 | a report that fails, or a reply that cannot be framed, leads to a further report after the release |
| CaptureCut.LateHandlerIsSplit | apps/broker/src/local-tool-pipeline.ts:288-290 | from every reachable state with no lease out and no capture past its drain, and for every late handler in it, some continuation commits a snapshot that splits that handler's action |
| CaptureCut.AbandonedGuestRunsDuringCapture | apps/broker/src/local-tool-pipeline.ts:293-313 | from every reachable state with no lease out and no capture past its drain, and for every guest in it whose completion the host gave up, some continuation images the sandbox while that guest runs |
| CaptureCut.GuestsAreAbandoned | apps/broker/src/local-tool-server.ts:80-90 | a run that reaches such a state |
| CaptureCut.CaptureCommits | apps/control-plane/src/session-snapshot-service.ts:175-215 | from any drained state with a non-empty log a capture can run to its commit and names the log's last row |
| CaptureCut.CaptureMovesExactly | apps/control-plane/src/session-snapshot-service.ts:170-218 | on every run, how far a capture is decides its next steps, of which only the end of the drain waits for others |
| CaptureCut.StageIsSince | apps/control-plane/src/session-action-gate.ts:39-60 | a capture is at a stage, or past it, exactly since it got there and until it ends |
| CaptureCut.SnapshotsAreReadThenCommitted | apps/control-plane/src/session-snapshot-service.ts:175-213 | every snapshot was committed by a step of the run, and its suspension point is the length of the log when the same capture read the tail |
| CaptureCut.SnapshotsAreCommits | apps/control-plane/src/session-snapshot-service.ts:190-213 | there are as many snapshots as commits of captures |
| CaptureCut.InvKeeps | apps/broker/src/local-tool-server.ts:52-96 | every step of handlers, guests, captures, refusals and drains keeps the invariant the theorems above rest on |
| ActionGate.EnterKeeps | apps/control-plane/src/session-action-gate.ts:20-37 | admission keeps the gate invariant and is refused exactly while a capture of the session is pending |
| ActionGate.ReleaseKeeps | apps/control-plane/src/session-action-gate.ts:26-36 | giving a lease back, first or repeated, keeps the invariant for every session |
| ActionGate.BeginKeeps | apps/control-plane/src/session-action-gate.ts:39-49 | beginning a capture keeps the invariant and is refused exactly while another one is pending |
| ActionGate.TimeoutKeeps | apps/control-plane/src/session-action-gate.ts:75-93 | a drain that times out keeps the invariant |
| ActionGate.EndKeeps | apps/control-plane/src/session-action-gate.ts:50-60 | ending a capture keeps the invariant |
| ActionGate.BodyRunsDrained | apps/control-plane/src/session-action-gate.ts:39-60 | a capture body runs only when every lease of its session has been given back |
| ActionGate.LastReleaseWakes | apps/control-plane/src/session-action-gate.ts:75-93 | a suspended capture has a lease to wait for, and the last one returned, and only that one, wakes it |
| ActionGate.NothingIsOrphaned | apps/control-plane/src/session-action-gate.ts:95-99 | every live lease and pending capture refers to the record the map holds for its session, and the map holds a record exactly while there is one |
| ActionGate.EnterAdmits | apps/control-plane/src/session-action-gate.ts:20-25 | with no capture pending there is one live lease more and nothing else changes for the callers; otherwise nothing changes |
| ActionGate.ReleaseReturns | apps/control-plane/src/session-action-gate.ts:26-36 | that lease and no other is returned, and the suspended captures of its session wake exactly if it was the last one out |
| ActionGate.BeginStarts | apps/control-plane/src/session-action-gate.ts:39-53 | with no capture pending one begins, ready at once exactly if no lease is out, suspended otherwise; else nothing changes |
| ActionGate.TimeoutStopsWaiting | apps/control-plane/src/session-action-gate.ts:82-90 | the capture is timed out and suspended on nothing, no later release wakes it, the gate stays closed until it ends, and no other capture or lease is touched |
| ActionGate.EndReopens | apps/control-plane/src/session-action-gate.ts:56-60 | the capture is over, the gate admits again, and no other capture or lease is touched |
| ActionGate.SessionActionGate.constructor | apps/control-plane/src/session-action-gate.ts:17-18 | a new gate is empty and valid |
| ActionGate.SessionActionGate.StateFor | apps/control-plane/src/session-action-gate.ts:66-73 | returns the session's record, allocated when there was none, and changes nothing else |
| ActionGate.SessionActionGate.Enter | apps/control-plane/src/session-action-gate.ts:20-37 | admits exactly when no capture is pending; the new gate is the specified one and valid |
| ActionGate.SessionActionGate.DeleteIfIdle | apps/control-plane/src/session-action-gate.ts:95-99 | drops the session's entry exactly when the given record is not closing, counts no lease and has no waiter |
| ActionGate.SessionActionGate.Release | apps/control-plane/src/session-action-gate.ts:26-36 | the new gate is the specified one and valid, for a lease returned any number of times |
| ActionGate.SessionActionGate.BeginCapture | apps/control-plane/src/session-action-gate.ts:39-49 | begins exactly when no capture is pending; the new gate is the specified one and valid |
| ActionGate.SessionActionGate.DrainTimeout | apps/control-plane/src/session-action-gate.ts:75-93 | the new gate is the specified one and valid: that capture is timed out and waits no more, the others and the leases are as they were |
| ActionGate.SessionActionGate.EndCapture | apps/control-plane/src/session-action-gate.ts:50-60 | the new gate is the specified one and valid: that capture is over, the others and the leases are as they were |
| ActionGate.SessionActionGate.IsCapturePending | apps/control-plane/src/session-action-gate.ts:62-64 | answers whether some capture of the session is not over |
| GateRefinement.EnterRefines | apps/control-plane/src/session-action-gate.ts:20-37 | admission in the implemented gate is the arrival step of the capture protocol, on the leases out and the capture's phase |
| GateRefinement.ReleaseRefines | apps/control-plane/src/session-action-gate.ts:26-36 | giving a lease back is the protocol's release, followed by its drain step when a capture waits |
| GateRefinement.MismatchRefines | apps/broker/src/local-tool-pipeline.ts:217-223 | so is the lease given back in the step that receives a mismatched completion |
| GateRefinement.SecondReleaseIsInvisible | apps/control-plane/src/session-action-gate.ts:26-28 | giving a lease back again changes nothing |
| GateRefinement.BeginRefines | apps/control-plane/src/session-action-gate.ts:39-53 | beginning a capture is the protocol's closing, followed by its drain step when no lease is out; a refused one changes nothing |
| GateRefinement.EndRefines | apps/control-plane/src/session-action-gate.ts:54-60 | ending a capture is the protocol's reopening, or its drain timeout when the drain timed out |
| GateRefinement.TimeoutIsInvisible | apps/control-plane/src/session-action-gate.ts:75-93 | a drain that times out leaves the gate closed and the leases as they are until the capture ends |
| GateRefinement.OthersLeaveTheGate | apps/broker/src/local-tool-server.ts:52-96 | no other step of the capture protocol changes leases or the capture's phase |
| AuditOutbox.SinkIsPrefixOfLog | packages/audit/src/outbox.ts:161-226 | on every run in which no delivery begins before an earlier failed one's bump has landed and the sink has committed or dropped what it held of it, the sink is exactly a prefix of the log and the delivered rows are a prefix of the sink |
| AuditOutbox.DeliveredMeansInSink | packages/audit/src/outbox.ts:134-138 | on every run, lost bumps and dying processes included, a delivered row is in the sink, and a normal return of `persistBeforeExecution` means its event and all earlier ones are marked delivered and in the sink |
| AuditOutbox.DeliveredIsMarked | packages/audit/src/outbox.ts:206-214 | on every run a row is delivered if and only if a delivery that selected it had its update commit, reported or not |
| AuditOutbox.ReturnedIsReturn | packages/audit/src/outbox.ts:134-138 | `persistBeforeExecution` returned normally for an event if and only if its delivery committed, or found every row it saw delivered |
| AuditOutbox.AttemptsAreCounted | packages/audit/src/outbox.ts:206-223 | a row's attempts are the updates and bumps of it that took effect |
| AuditOutbox.LogIsEnqueued | packages/audit/src/outbox.ts:229-264 | the rows are the enqueued events, all of them and in order, whatever the deliveries do |
| AuditOutbox.SinkIsCommitted | packages/audit/src/outbox.ts:196-205 | the sink holds a row if and only if an insert, a flush or a dying delivery had it commit that row |
| AuditOutbox.HeldIsSince | packages/audit/src/outbox.ts:9-13 | the sink holds a row uncommitted exactly since an insert of it failed or died that way, until it drops or commits it |
| AuditOutbox.RacedExactlyWhenUnaccounted | packages/audit/src/outbox.ts:216-223 | the runs the exactly-once law leaves out are those in which a delivery begins while a bump is owed or was lost, or the sink still holds rows |
| AuditOutbox.SerialDeliveryIsExact | packages/audit/src/outbox.ts:161-226 | when deliveries run one after the other, however their lookups, inserts and commits fail, the sink is an exact prefix of the log, and a delivery that succeeds brings the whole log into it, all of it marked delivered |
| AuditOutbox.LoadIsSince | packages/audit/src/outbox.ts:134-205 | a delivery carries its caller and every undelivered row it saw exactly since it began and until it ends, and for its inserts exactly what it selected and no counted retry found in the sink |
| AuditOutbox.DeliveryMovesExactly | packages/audit/src/outbox.ts:161-226 | on every run, where a delivery stands decides its next steps; it can die anywhere and no second one begins beside it |
| AuditOutbox.CountersAreEventCounts | packages/audit/src/outbox.ts:229-264 | on every run the next sequence number is the log length and each counter is the number of events with its decision |
| AuditOutbox.DuplicatesExactlyWhenUncounted | packages/audit/src/outbox.ts:177-195 | a delivery inserts a row a second time if and only if an undelivered row with no counted attempt is already in the sink |
| AuditOutbox.LostBumpDuplicates | packages/audit/src/outbox.ts:216-223 | a run in which a lost bump makes the sink hold a row twice |
| AuditOutbox.LateFlushDuplicates | packages/audit/src/outbox.ts:9-13 | a run in which no bump is lost and the sink, flushing a failed insert behind the retry's lookup, holds a row twice |
| AuditOutbox.StrongInvKeeps | packages/audit/src/outbox.ts:161-226 | every step keeps the exactly-once invariant while no delivery outruns a bump or a flush |
| AuditOutbox.PendingMeaning | packages/audit/src/outbox.ts:165-175 | the selection holds exactly the undelivered rows, in the order of their sequence numbers |
| AuditOutbox.ToInsertMeaning | packages/audit/src/outbox.ts:177-195 | what is inserted is what was selected and was not found in the sink by a counted retry, in order |
| AuditOutbox.DeliveryIsRun | packages/audit/src/outbox.ts:161-226 | what `DeliverSession` computes is what a run of the step system reaches |
| AuditOutbox.DeliveryDelivers | packages/audit/src/outbox.ts:165-226 | a delivery succeeds if and only if nothing was pending or its update landed and reported no error, and then nothing is pending; one whose update does not land changes the state of no row |
| AuditOutbox.DeliveryCountsAttempts | packages/audit/src/outbox.ts:206-223 | exactly the row whose lookup failed, the rows that could not be inserted, or all selected rows have an attempt counted, once, or twice when the update landed and reported an error |
| AuditOutbox.DeliveryFeeds | packages/audit/src/outbox.ts:177-205 | the sink keeps what it has and takes undelivered rows in order; a delivery that lands or succeeds leaves none of them out |
| AuditOutbox.AuditOutboxWriter.constructor | packages/audit/src/outbox.ts:111-118 | a new session has an empty log, an empty sink and zero counters |
| AuditOutbox.AuditOutboxWriter.Enqueue | packages/audit/src/outbox.ts:229-264 | appends one pending row, counts its decision, and returns the row's position in the log, which stays the next sequence number |
| AuditOutbox.AuditOutboxWriter.CollectMissing | packages/audit/src/outbox.ts:177-195 | collects, in order, the selected rows still to be inserted, or stops at the failing lookup with that row as the active one |
| AuditOutbox.AuditOutboxWriter.InsertEach | packages/audit/src/outbox.ts:196-205 | the sink grows by a prefix of the rows, in order |
| AuditOutbox.AuditOutboxWriter.DeliverSession | packages/audit/src/outbox.ts:161-226 | rows and sink end as specified for every combination of failing lookup, partial insert and rolled back or ambiguous commit; a normal return leaves no row pending and every row delivered, and a row's state changes only if the update landed |
| SessionLock.WorkInArrivalOrder | apps/control-plane/src/session-lifecycle.ts:575-595 | on every run, when a caller has begun its work every earlier caller has finished, whether it returned or threw |
| SessionLock.TailsSettleInOrder | apps/control-plane/src/session-lifecycle.ts:575-595 | a caller begins only after the tail it waited for has settled, and that one after the one before it |
| SessionLock.StagesAreReached | apps/control-plane/src/session-lifecycle.ts:575-595 | a caller has begun, ended or settled its tail exactly if its own wake, finish or settling occurred |
| SessionLock.EntryExactlyWhileBusy | apps/control-plane/src/session-lifecycle.ts:588-594 | the lock map holds an entry exactly while some caller has not finished |
| SessionLock.EveryCallerIsServed | apps/control-plane/src/session-lifecycle.ts:575-595 | from every reachable state all present callers can finish, in a bounded number of steps, leaving no entry |
| SessionLock.SomeoneCanMove | apps/control-plane/src/session-lifecycle.ts:578-587 | while anyone is unfinished somebody can move: no wake-up is lost |
| SessionLock.StepUsesUp | apps/control-plane/src/session-lifecycle.ts:575-595 | every step other than an arrival uses up part of a bounded remainder |
| SessionStatus.TerminalIsLast | packages/isolation/src/session-state-machine.ts:3-12 | nothing follows a terminal status on a legal path |
| SessionStatus.TransitionsByTarget | packages/isolation/src/session-state-machine.ts:3-12 | every status but the last three can fail and be terminated, only a terminating session is terminated, and the others follow in one order |
| SessionStatus.SessionStateMachine.constructor | packages/isolation/src/session-state-machine.ts:27-30 | a new machine is in its initial status with nothing observed |
| SessionStatus.SessionStateMachine.Transition | packages/isolation/src/session-state-machine.ts:40-49 | moves exactly when the table allows it, observes every request with its legality, and keeps the history a legal path |
| SessionLifecycle.TeardownIsOrdered | apps/control-plane/src/session-lifecycle.ts:99-282 | over every interleaving and every pattern of failures, creation included: release only after destruction and, unless a failing creation released, after revocation; terminated means erased, revoked, destroyed and released; failed with no cleanup pending means the last three, and after a cleanup all four |
| SessionLifecycle.HistoryIsLegalAndAudited | apps/control-plane/src/session-lifecycle.ts:111-149 | every status history is a legal path from booting, terminal statuses are never left, and the lifecycle events are exactly those of the history: create, at most one ready, at most one terminal; no row means no events |
| SessionLifecycle.LegalPathsHaveShape | packages/isolation/src/session-state-machine.ts:3-12 | every legal path from booting yields create, perhaps ready, perhaps one terminal event |
| SessionLifecycle.TerminalAbsorbs | apps/control-plane/src/session-lifecycle.ts:376-429 | no later run changes a terminal status |
| SessionLifecycle.InvKeeps | apps/control-plane/src/session-lifecycle.ts:99-353 | every step of create and its undoing, start, destroy, reconcilers, other components and process death keeps the teardown and history invariant |
| SessionLifecycle.FailedKeepsKeysExactlyBeforeCleanup | apps/control-plane/src/session-lifecycle.ts:335-353 | some run ends failed with reason r and its keys unerased if and only if r is a reason at all, that is, unless a cleanup cleared it |
| SessionLifecycle.EndsExactlyWhenRecoverable | apps/control-plane/src/session-lifecycle.ts:453-475 | on every run, a session that is not final can be terminated if and only if its runtime is in memory, its binding row is unreleased or its destroyer is at its last commit; it can fail if and only if its runtime can be found so or a holder is about to mark it; a failed one can be cleaned up if and only if its runtime can be found or its cleanup is at its last commit |
| SessionLifecycle.StrandedForever | apps/control-plane/src/session-lifecycle.ts:453-475 | a stranded session, not final or awaiting cleanup, is stranded after every run |
| SessionLifecycle.HolderEnds | apps/control-plane/src/session-lifecycle.ts:194-282 | from wherever a lock holder stands and whatever its stages report, its teardown ends with exactly one row change: terminated, failed for the given reason or cleaned up when every stage was reported done and the last transaction took effect; failed and awaiting cleanup when one was not; none when the runtime is not found, a cleanup gives up or the last transaction fails |
| SessionLifecycle.DestroyEndsExactly | apps/control-plane/src/session-lifecycle.ts:194-219 | from every reachable state: `destroy` terminates the session if and only if its runtime was found, its keys erased, its token revoked, its sandbox destroyed and its transport released, all reported done, and the last transaction took effect; it leaves it awaiting cleanup if and only if the runtime was found and one of these was not |
| SessionLifecycle.FailStartEndsExactly | apps/control-plane/src/session-lifecycle.ts:335-353 | a start that failed or timed out fails the session for that reason, or awaiting cleanup, on exactly these outcomes, keys excepted |
| SessionLifecycle.CleanupEndsExactly | apps/control-plane/src/session-lifecycle.ts:245-282 | a cleanup clears the reason exactly if everything was reported done, and otherwise leaves the row as it was |
| SessionLifecycle.StartEndsExactly | apps/control-plane/src/session-lifecycle.ts:313-374 | a booting session becomes ready if and only if its check and the driver were done and the transaction took effect; a failing driver or transaction fails the start with its reason |
| SessionLifecycle.EffectsAreCaused | apps/control-plane/src/session-lifecycle.ts:99-429 | on every run, keys are erased, the token revoked, the sandbox destroyed, the transport released, the row created, ready, terminated or failed if and only if the call or transaction for it took effect |
| SessionLifecycle.OpenIsSinceCreation | apps/control-plane/src/session-lifecycle.ts:549-560 | the binding row is open exactly since the creation committed and until a release reached it |
| SessionLifecycle.PreparedIsSinceCreation | apps/control-plane/src/session-lifecycle.ts:150-157 | the runtime is in memory exactly since the creation was reported committed and until a teardown was reported concluded or the process died |
| SessionLifecycle.PlacesAreSince | apps/control-plane/src/session-lifecycle.ts:194-335 | the lock is held for a teardown, a start or an undoing is under way, a session is active or suspended exactly since the step that leads there and until one that leads away |
| SessionLifecycle.CreatesOnce | apps/control-plane/src/session-lifecycle.ts:99-153 | a creation has one transaction at most, and none after the process died |
| SessionLifecycle.DeathTakesMemory | apps/control-plane/src/session-lifecycle.ts:150-157 | the process can die at any point; lock, start task, runtime in memory and creation are gone, row, binding and world are not |
| SessionLifecycle.SessionsAreUsed | packages/isolation/src/session-state-machine.ts:3-12 | other components activate ready and suspended sessions and suspend active ones, at any time and no others |
| SessionLifecycle.TokenOutlivesTransportExactlyAfterAmbiguousCreate | apps/control-plane/src/session-lifecycle.ts:150-153 | a row with a released transport and an unrevoked token is reached if and only if create's transaction committed, reported an error, and create's undoing has run |
| SessionLifecycle.SessionsCanBeStranded | apps/control-plane/src/session-lifecycle.ts:404-429 | runs that strand a session, one before its status is final and one while it awaits its cleanup |
| SnapshotCrypto.DecryptsExactlyItsOwn | apps/control-plane/src/session-snapshot-crypto.ts:58-143 | what is encrypted for an artifact decrypts with the same wrapped keys and additional data and with no other |
| SnapshotCrypto.AadTextIsInjective | apps/control-plane/src/session-snapshot-storage.ts:349-351 | slash-free ids give every artifact its own additional data |
| SnapshotErasure.ErasedIsUnreadable | apps/control-plane/src/session-snapshot-service.ts:275-347 | after any run, no key chain leads from the root key to a snapshot that is not active or is queued for deletion |
| SnapshotErasure.ReadableExactlyWithKeys | apps/control-plane/src/session-snapshot-crypto.ts:90-143 | a snapshot's plaintext can be derived from database, object store and root key if and only if its object and both wrapped keys are there |
| SnapshotErasure.RestoreYieldsTheImage | apps/control-plane/src/session-snapshot-storage.ts:151-226 | restoring a stored artifact of a committed snapshot yields exactly the captured image when both wrapped keys exist, and nothing otherwise |
| SnapshotErasure.LostReadabilityNeverReturns | apps/control-plane/src/session-snapshot-service.ts:162-347 | a committed snapshot that cannot be read is not readable after any later run |
| SnapshotErasure.PruningSparesSiblings | apps/control-plane/src/session-snapshot-service.ts:337-347 | erasing one snapshot leaves every other exactly as readable as it was |
| SnapshotErasure.SessionErasureIsComplete | apps/control-plane/src/session-snapshot-service.ts:291-308 | erasing a session makes its committed snapshots unreadable and changes no other session's |
| SnapshotErasure.DeletionLeavesNoOrphans | apps/control-plane/src/session-snapshot-storage.ts:228-242 | at every point of every run a committed snapshot's manifest is there or all its objects are gone, and a completed deletion means all are gone |
| SnapshotErasure.CompletesExactlyWithManifestOrWorker | apps/control-plane/src/session-snapshot-service.ts:310-335 | on every run a queued deletion can still be completed, and its snapshot marked physically deleted, if and only if its manifest is in the store or a worker that read it for the outbox is alive |
| SnapshotErasure.DeletionCanBeWedged | apps/control-plane/src/session-snapshot-storage.ts:228-242 | a run in which a worker dies between deleting the manifest and completing its row |
| SnapshotErasure.CommitLeavesSnapshot | apps/control-plane/src/session-snapshot-service.ts:190-208 | from every reachable state, a capture whose commit takes effect leaves an active snapshot of its session with its wrapped DEK, stored whole, and readable in both parts while the session has its key |
| SnapshotErasure.MilestonesArePassed | apps/control-plane/src/session-snapshot-service.ts:170-347 | on every run a snapshot has a row if and only if its commit took effect, left `active` if and only if it or its session was erased after that, was completed or marked physically deleted if and only if a worker did that, was published or put in doubt if and only if that step occurred |
| SnapshotErasure.PresentIsSince | apps/control-plane/src/session-snapshot-service.ts:162-347 | wrapped keys, manifests, artifacts, captures, workers and due discards are there exactly since the step that brings them and until the one that removes them |
| SnapshotErasure.AbortedIsNeverCommitted | apps/control-plane/src/session-snapshot-service.ts:209-218 | a capture can be given up at any point, and its snapshot is then never committed |
| SnapshotErasure.ActiveIsReadable | apps/control-plane/src/session-snapshot-service.ts:170-218 | on every run an active snapshot whose session key exists is readable in both parts, unless its capture's commit reported an error |
| SnapshotErasure.LostWhileActiveExactlyWhenDoubted | apps/control-plane/src/session-snapshot-service.ts:209-212 | an active snapshot with its session key is unreadable on some run if and only if its capture's transaction committed and reported an error |
| SnapshotErasure.KnownKeys | apps/control-plane/src/session-snapshot-crypto.ts:120-143 | however keys are unwrapped from one another, a derivable session or snapshot key has all its wrappers in the database |
| SnapshotErasure.InvKeeps | apps/control-plane/src/session-snapshot-service.ts:162-347 | every step of provisioning, capture with every ending of its transaction, erasure and deletion keeps the key invariant |
| Retention.SelectExpired | apps/control-plane/src/session-snapshot-service.ts:284-286 | what is kept is the longest newest-first prefix within count and window, for every order of ties; everything after it is expired |
| Retention.SessionSnapshots.Prune | apps/control-plane/src/session-snapshot-service.ts:275-288 | after a prune the active snapshots are exactly that prefix |
| Retention.PruneIsIdempotent | apps/control-plane/src/session-snapshot-service.ts:275-288 | pruning again at the same time would erase nothing |
| Retention.RetainedCount | apps/control-plane/src/session-snapshot-service.ts:284-286 | the number kept is the number inside the window, capped by the count |
| CacheEviction.SnapshotCache.Evict | apps/control-plane/src/snapshot-storage.ts:461-505 | whatever the pins are at each test and deletion: removes exactly the shortest oldest-first run of entries found unprotected that makes the cache fit, or all of them; survivors and removed make up the old cache; the running total is the size of the survivors |
| CacheEviction.DeletesProtectedExactlyInWindow | apps/control-plane/src/snapshot-storage.ts:492-503 | a pass deletes something protected if and only if a lasting protection of a deleted entry began between that entry's test and its deletion; it deletes nothing protected when no resolve of a deleted entry, and no pin backed by one, falls in that window |
| CacheEviction.ProtectedAtDeletionExactlyWhenBegun | apps/control-plane/src/snapshot-storage.ts:226-257 | an entry found unprotected is protected at its deletion if and only if a protection lasting until then began meanwhile, and only a resolve or a pin of it begins one |
| CacheEviction.PassCanDeleteProtected | apps/control-plane/src/snapshot-storage.ts:501-502 | a pass that deletes a snapshot whose resolve started after the test |
| CacheEviction.Pass | apps/control-plane/src/snapshot-storage.ts:490-505 | the same for the loop over any given sequence of visits |
| CacheEviction.ByAgeSorts | apps/control-plane/src/snapshot-storage.ts:490-490 | the visiting order is sorted by modification time and is a permutation |
| CacheEviction.ShortestRunIsUnique | apps/control-plane/src/snapshot-storage.ts:461-505 | the visits and the limit determine what is removed |
| CacheEviction.CandidatesAreUnprotected | apps/control-plane/src/snapshot-storage.ts:491-500 | an entry may be removed exactly when, at the moment it was tested, it was a snapshot neither pinned nor being resolved, or a directory with no pinned snapshot's root filesystem below it |
| CacheEviction.GuardsAreSince | apps/control-plane/src/snapshot-storage.ts:226-257 | a snapshot is in use exactly since its resolve began and until that returns, pinned with its root filesystem exactly since that was materialized and until it is released |
| CacheEviction.BytesIsSumOfFiles | apps/control-plane/src/snapshot-storage.ts:526-536 | the bytes of an entry are the sum of the sizes of all files below it, however deep |
| GuestCids.TakesLeastFree | packages/isolation/src/firecracker-driver.ts:679-693 | the CID taken is free and the least free one |
| GuestCids.HoldsSinceGranted | packages/isolation/src/firecracker-driver.ts:679-701 | on every run of requests and releases, a session holds a CID if and only if it was granted that CID, the least one free at that moment, and has not given it back since |
| GuestCids.ReleaseFrees | packages/isolation/src/firecracker-driver.ts:695-701 | the session holds no CID, the one it held is free, every other session keeps its CID, no other CID becomes or ceases to be free and none is used up; a session without one changes nothing |
| GuestCids.GrantTakes | packages/isolation/src/firecracker-driver.ts:679-693 | the session holds the least free CID, which is free no more; nobody else's changes |
| GuestCids.RefusalLoses | packages/isolation/src/firecracker-driver.ts:684-687 | a refused request changes nobody's CID and costs the least free one |
| GuestCids.RejectionsAreRefusals | packages/isolation/src/firecracker-driver.ts:684-687 | the rejections counted are the requests of sessions that already held a CID |
| GuestCids.PeakIsReached | packages/isolation/src/firecracker-driver.ts:679-701 | the peak is the largest number of sessions that held a CID at some point of the run |
| GuestCids.GrantKeeps | packages/isolation/src/firecracker-driver.ts:679-693 | granting keeps live, released and leaked CIDs disjoint and accounted for, and the count within peak demand plus refusals |
| GuestCids.RefusalKeeps | packages/isolation/src/firecracker-driver.ts:684-687 | so does a refused duplicate, which costs one CID |
| GuestCids.GivingBackKeeps | packages/isolation/src/firecracker-driver.ts:695-701 | so does giving a CID back |
| GuestCids.GuestCidPool.constructor | packages/isolation/src/firecracker-driver.ts:708-718 | a new pool is valid and has handed out nothing |
| GuestCids.GuestCidPool.Take | packages/isolation/src/firecracker-driver.ts:679-683 | takes the least released CID, or the next unused one when none was released |
| GuestCids.GuestCidPool.Allocate | packages/isolation/src/firecracker-driver.ts:679-693 | a new session gets the least free CID, a known one is refused, and the collision branch is never reached |
| GuestCids.GuestCidPool.Release | packages/isolation/src/firecracker-driver.ts:695-701 | the session's CID becomes free and nothing else does, every other session keeps its own; an unknown session changes nothing |
| Framing.EncodeBrokerFrame | packages/protocol/src/framing.ts:5-14 | fills a new buffer with the frame of the bytes, or fails exactly when they exceed the limit |
| Framing.DecodesExactlyHeaders | packages/protocol/src/framing.ts:16-25 | a prefix decodes to n if and only if it is the header of an n-byte frame within the limit |
| Framing.GoWritesFrames | guest/runtime/agent-socket_linux.go:248-258 | the guest writes the host's frame, and refuses the same payloads |
| Framing.GoReadsExactlyFrames | guest/runtime/agent-socket_linux.go:232-246 | the guest reads a payload and a rest exactly when the stream is that payload's frame and that rest |
| Framing.ReaderAccountsForEveryByte | apps/broker/src/local-tool-server.ts:122-185 | for all bytes, chunkings, reads, timeouts and closes: received bytes are the delivered frames encoded again followed by the buffer, no read waits beside a whole or malformed frame, and every read ended once or is the one waiting |
| Framing.DeliversSentPrefix | apps/broker/src/local-tool-server.ts:161-176 | an honest sender's payloads are delivered as a prefix, in order, and never taken for malformed |
| Framing.WaitingMeansCaughtUp | apps/broker/src/local-tool-server.ts:137-176 | when all of a sender's bytes are in and a read still waits, every payload was delivered |
| Framing.StepDoes | apps/broker/src/local-tool-server.ts:122-185 | a timeout ends the waiting read with that error and leaves the reader open, a close ends it and closes the reader, once; a read of a closed reader ends with the error that closed it; any other is served the frame at the head of the buffer, or the malformed error if no frame can be there, or waits; a chunk is appended and serves the waiting read |
| Framing.TimeoutsAndCloses | apps/broker/src/local-tool-server.ts:132-146 | as many reads time out as timers fire on a waiting read, and the reader is closed by a close on an open one |
| Framing.FrameReader.constructor | apps/broker/src/local-tool-server.ts:122-135 | a new reader is empty and valid |
| Framing.FrameReader.OnData | apps/broker/src/local-tool-server.ts:128-131 | the new state is the specified one and valid |
| Framing.FrameReader.Next | apps/broker/src/local-tool-server.ts:137-159 | a second read is refused, a closed reader rejects with its error, otherwise the read begins; the new state is the specified one and valid |
| Framing.FrameReader.OnTimeout | apps/broker/src/local-tool-server.ts:141-146 | the waiting read is rejected and no other |
| Framing.FrameReader.OnClosed | apps/broker/src/local-tool-server.ts:132-134 | the first close wins and rejects the waiting read |
| Framing.FrameReader.Pump | apps/broker/src/local-tool-server.ts:161-176 | hands one whole frame to the waiting read, or closes on a malformed length |
| Framing.FrameReader.Close | apps/broker/src/local-tool-server.ts:178-184 | closes once and rejects the waiting read |
| Framing.DispatchesExactlyAtABoundary | apps/broker/src/framed-broker-server.ts:47-76 | a payload reaches the broker if and only if some chunk boundary falls exactly at the end of its frame |
| Framing.DropsExactlyBrokenInput | apps/broker/src/framed-broker-server.ts:55-70 | the data handler destroys the socket if and only if the bytes cannot be one frame and no boundary fell at the end of one |
| Framing.ChunkingOfOneFrameIsIrrelevant | apps/broker/src/framed-broker-server.ts:53-72 | one frame is dispatched however it is cut |
| Framing.TrailingBytesDependOnChunking | apps/broker/src/framed-broker-server.ts:67-70 | the same trailing bytes are refused in one chunk and ignored in two |
| Framing.EndDropsExactlyUnanswered | apps/broker/src/framed-broker-server.ts:51-75 | an end or a read timeout destroys exactly the connections on which no boundary fell at the end of a frame, and changes nothing dispatched |
| Framing.FramedConnection.constructor | apps/broker/src/framed-broker-server.ts:48-50 | a new connection has received nothing |
| Framing.FramedConnection.OnData | apps/broker/src/framed-broker-server.ts:53-72 | the new state is the specified one |
| Framing.FramedConnection.OnEnd | apps/broker/src/framed-broker-server.ts:73-75 | only an unanswered connection is destroyed |
| Utf8Preview.TruncateUtf8 | packages/audit/src/outbox.ts:428-440 | the longest prefix of whole code points within the limit |
| Utf8Preview.PreviewFor | apps/broker/src/local-tool-pipeline.ts:419-432 | a fixed text and one redaction for a secret-shaped result, otherwise the longest prefix of whole code points within the limit |
| Utf8Preview.TakeWhileFits | apps/broker/src/local-tool-pipeline.ts:426-430 | the loop of both functions computes that prefix |
| Utf8Preview.TruncationsCompose | packages/audit/src/outbox.ts:428-440 | cutting twice is cutting once to the smaller limit |
| Utf8Preview.LongestFitIsUnique | packages/audit/src/outbox.ts:428-440 | the longest fitting prefix is unique |
| Utf8Preview.ByteLengthCountsUtf8 | packages/audit/src/outbox.ts:429-429 | the byte count is the length of the UTF-8 encoding, unpaired surrogates included |
| Utf8Preview.Utf8EncodesCharacters | packages/audit/src/outbox.ts:429-429 | the text of any sequence of characters is encoded as those characters, in order |
| Utf8Preview.Utf8IsInjective | packages/audit/src/outbox.ts:429-429 | texts without unpaired surrogates have the same bytes only if they are the same text |
| Utf8Preview.EncodingReadsBack | packages/audit/src/outbox.ts:429-429 | an encoded character is read back from its bytes, of which only the first is not a continuation byte |
| Utf8Preview.SurrogatesAreReplaced | packages/audit/src/outbox.ts:429-429 | an unpaired surrogate is encoded as U+FFFD, and no surrogate ever is |
| Utf8Preview.TruncationCutsUtf8Between | packages/audit/src/outbox.ts:433-438 | the encoded result is a prefix of the encoded text: no character is split |
| Addresses.Ipv4IsPositional | apps/broker/src/http-adapter.ts:343-345 | a dotted quad is read as the positional value of its octets, through signed 32-bit words |
| Addresses.Ipv6IsPositional | apps/broker/src/http-adapter.ts:347-363 | every spelling of section 2.2 of RFC 4291, compressed and with embedded IPv4 included, is read as the positional value of its eight groups |
| Addresses.NormalizeRewritesQuad | apps/broker/src/http-adapter.ts:348-353 | a trailing dotted quad is rewritten as the two groups it stands for, in every spelling |
| Addresses.NetworkIsInterval | apps/broker/src/http-adapter.ts:337-340 | the 32-bit mask test is membership in the network's interval, for every aligned network and every prefix length from 1 to 32 |
| Addresses.PrefixIsInterval | apps/broker/src/http-adapter.ts:365-368 | the 128-bit mask test is membership in the network's interval, for every aligned network and prefix length |
| Addresses.MappedBlock | apps/broker/src/http-adapter.ts:317-318 | the mapped test of section 2.5.5.2 recognises one interval, whose low word is the embedded address |
| Addresses.Ipv4TestsAreRanges | apps/broker/src/http-adapter.ts:327-341 | a 32-bit value is refused exactly inside the eight ranges |
| Addresses.Ipv6TestsAreRanges | apps/broker/src/http-adapter.ts:316-324 | a 128-bit value is refused exactly inside the IPv6 ranges or when it maps a refused IPv4 address |
| Addresses.Ipv4RefusedExactlyInRanges | apps/broker/src/http-adapter.ts:312-314 | a dotted quad is refused if and only if its value is in a range |
| Addresses.Ipv6RefusedExactlyInRanges | apps/broker/src/http-adapter.ts:312-325 | any spelling of an IPv6 address is refused if and only if its value is in a range |

## Left out

- SessionLifecycle.TeardownIsOrdered: does not promise revocation before a release by a failing `create`, because the code does not do it; `TokenOutlivesTransportExactlyAfterAmbiguousCreate` says when it shows.
- CaptureCut.SuspensionPointIsConsistentCut: does not cover actions that log after giving up their lease, because the property is false of them; `SplitExactlyWhenLate` says when.
- AuditOutbox.SinkIsPrefixOfLog: assumes that no delivery begins before the bump of a failed one has landed and the sink is done with its rows, because without it rows can be duplicated; `DeliveredMeansInSink` holds without the assumption.
- CaptureCut.SplitExactlyWhenLate: does not cover a database commit that takes effect after its client has seen an error; an ambiguous enqueue has landed or never will by then.
- Several host processes sharing one session: the gate and the session lock are in memory, so one process is modelled and advisory locks are atomic sections.
- Each step system follows one session; `drainPending`'s loop over sessions and the unknown-session error of `allocateOutboxEvent` would only add easy members.
- Completion of a teardown: `driver.destroy` may reject forever (Firecracker's rejects an unknown handle), so what is proved is the order of a teardown and when it can complete, not that it does.
- Object versions kept by a versioned bucket, rotation of the root KEK, and plaintext snapshot files on the local disk are outside what "readable" means.
- The wiping of key buffers with `fill(0)`: keys are names, not memory.
- Real cryptography, hashing, manifest signatures and gzip.
- A guest that keeps running after it reported completion: the guest is modelled as `handleAgentConnection` is written.
- Files that change size while an eviction pass runs: an entry's size is the same when it is counted and when it is deleted.
- Overlapping `resolve` calls on one base snapshot, and the deletion in `resolve`'s error path: only the eviction pass is claimed.
- `getGuestCidPool`'s registry of pools by host: one pool is modelled.
- Fitting JSON text into frames: a reply that does not fit is a possible outcome in `CaptureCut`, not a computed one; `encodeBrokerFrame` starts from bytes.
- JSON rendering, `containsSecretShape` and `isIP`: their results are inputs. IPv6 zone identifiers are not part of section 2.2 of RFC 4291 and are not claimed; a decimal segment that is not digits counts as NaN.
- Policy evaluation, `resolveObligations`, scopes, allowlists, zod schemas, HTTP routes, telemetry, the Postgres, S3 and Vault clients, Firecracker and Docker process control, and the guest's tool implementations.
- `SessionReaper`, `SnapshotScheduler` and `PeriodicReconciler`, which only call what is modelled.
