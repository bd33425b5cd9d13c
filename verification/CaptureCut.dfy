/**
 The capture cut: broker calls, guest-local tools, gate refusals and snapshot
 captures of one session, interleaved at every point where the host code awaits.

 An action enters the session's gate, records `action.started`, executes,
 records a terminal event and releases its lease. A capture closes the gate,
 waits for the leases to drain, reads the tail of the audit log, images the
 sandbox, commits a snapshot that names the tail as its suspension point and
 reopens the gate.
 */
module CaptureCut {
  import opened Basics
  import Runs

  type ActionId = nat

  datatype Tool = BrokerCall | LocalTool

  datatype TerminalKind = Completed | Failed | Abandoned | InvalidCompletion

  /** One row of the session's audit log; the row at index i has sequence number i + 1. */
  datatype Event =
    | Started(action: ActionId)
    | Terminal(action: ActionId, kind: TerminalKind)
    | Denied(action: ActionId)
    | Lifecycle(action: ActionId)

  /**
   How an enqueue ends: it commits, it rolls back, or it commits although its caller
   sees an error. By the time the error is seen, the row is there or never will be.
   */
  datatype Enqueue = Committed | Lost | Ambiguous

  /** What ends the wait for a guest's completion frame. */
  datatype Reply = Matching | Mismatched | Malformed | Gone

  datatype Guest = Unauthorized | Authorized | Running | Done

  /** Why a local tool's terminal event is enqueued after its lease is gone. */
  datatype LateCause = MismatchedReply | ReportFailed | ReplyUnframeable

  /** Where an action's handler stands. */
  datatype Pc =
    | GateDenied           // no lease: the refusal is about to be audited
    | Admitted             // the policy has not decided yet
    | Recorded             // action.started committed, its delivery is in progress
    | Cleared              // action.started acknowledged by the sink
    | Executing            // broker: credentials fetched, adapter running
    | Recovering           // broker: action.failed is about to be audited
    | Awaiting             // local: the guest holds an authorization frame
    | Abandoning           // local: action.abandoned is about to be audited
    | Invalidating         // local: action.invalid_completion is about to be audited
    | Reporting            // local: the completion's outcome is about to be audited
    | Reported(ok: bool, cause: LateCause)  // local: leaving `complete`, normally or by an exception
    | Releasing            // the lease is about to be released
    | Late(again: bool)    // local: the lease is gone, action.invalid_completion is still to come
    | Ended

  /**
   `lease` is the gate's view of the handler. The last fields are history: the
   sink acknowledged the start (`cleared`), something executed (`ran`), a
   terminal enqueue rolled back (`lost`), a second terminal event was called
   for after a first one had committed (`twice`), a terminal event was left for
   after the release (`late`), the host stopped waiting for the guest (`gone`).
   */
  datatype Action = Action(tool: Tool, pc: Pc, lease: bool, guest: Guest,
                           cleared: bool, ran: bool, lost: bool, twice: bool,
                           late: Option<LateCause>, gone: bool)

  datatype Capture =
    | Idle
    | Draining                 // the gate is closed, leases are still out
    | Quiet                    // the drain finished, the capture body is running
    | CutRead(cut: nat)        // the log tail has been read
    | Imaged(cut: nat)         // the sandbox has been imaged and stored
    | Stored                   // the snapshot row is committed

  /** A committed snapshot: its suspension point, and how long the log was at the commit. */
  datatype Snapshot = Snapshot(resumeSeq: nat, resumeAction: ActionId, logAtCommit: nat)

  datatype State = State(log: seq<Event>, sunk: nat, actions: map<ActionId, Action>,
                         capture: Capture, snapshots: seq<Snapshot>)

  const INITIAL: State := State([], 0, map[], Idle, [])

  datatype Label =
    | Arrive(a: ActionId, tool: Tool)
    | AuditRefusal(a: ActionId, e: Enqueue)
    | Reject(a: ActionId)
    | AuditStart(a: ActionId, e: Enqueue)
    | Deliver(a: ActionId, upTo: nat, ok: bool)
    | Execute(a: ActionId)
    | Finish(a: ActionId, ok: bool, e: Enqueue)
    | AuditFailure(a: ActionId, e: Enqueue)
    | Authorize(a: ActionId, written: bool)
    | GuestStart(a: ActionId)
    | GuestStop(a: ActionId)
    | Receive(a: ActionId, reply: Reply)
    | AuditReport(a: ActionId, kind: TerminalKind, e: Enqueue, fits: bool)
    | AuditInvalid(a: ActionId, e: Enqueue)
    | AuditAbandon(a: ActionId, e: Enqueue)
    | Release(a: ActionId)
    | AuditLate(a: ActionId, e: Enqueue)
    | AuditLifecycle(a: ActionId)
    | Drain(upTo: nat)
    | CloseGate
    | DrainDone
    | DrainTimeout
    | ReadTail
    | Image
    | CommitSnapshot
    | Reopen

  /** The gate refuses admissions from the moment a capture closes it until the capture ends. */
  predicate Closing(s: State) {
    !s.capture.Idle?
  }

  /** The capture body is running: the gate has drained and not yet reopened. */
  predicate InBody(c: Capture) {
    c.Quiet? || c.CutRead? || c.Imaged? || c.Stored?
  }

  ghost predicate NoLeases(s: State) {
    forall a :: a in s.actions ==> !s.actions[a].lease
  }

  predicate At(s: State, a: ActionId, pc: Pc) {
    a in s.actions && s.actions[a].pc == pc
  }

  /** The guard of each label: the handler, guest or capture stands where the label's code begins. */
  ghost predicate Enabled(s: State, l: Label) {
    match l
    case Arrive(a, _) => a !in s.actions
    case AuditRefusal(a, _) => At(s, a, GateDenied) || At(s, a, Admitted)
    case Reject(a) => At(s, a, Admitted)
    case AuditStart(a, _) => At(s, a, Admitted)
    case Deliver(a, n, ok) =>
      At(s, a, Recorded) && s.sunk <= n <= |s.log|
      && (ok ==> forall i :: 0 <= i < |s.log| && s.log[i] == Started(a) ==> i < n)
    case Execute(a) => At(s, a, Cleared) && s.actions[a].tool.BrokerCall?
    case Finish(a, _, _) => At(s, a, Executing)
    case AuditFailure(a, _) => At(s, a, Recovering)
    case Authorize(a, _) => At(s, a, Cleared) && s.actions[a].tool.LocalTool?
    case GuestStart(a) => a in s.actions && s.actions[a].guest.Authorized?
    case GuestStop(a) => a in s.actions && s.actions[a].guest.Running?
    case Receive(a, reply) => At(s, a, Awaiting) && (reply.Gone? || s.actions[a].guest.Done?)
    case AuditReport(a, kind, _, _) => At(s, a, Reporting) && (kind.Completed? || kind.Failed?)
    case AuditInvalid(a, _) => At(s, a, Invalidating)
    case AuditAbandon(a, _) => At(s, a, Abandoning)
    case Release(a) => a in s.actions && (s.actions[a].pc.Releasing? || s.actions[a].pc.Reported?)
    case AuditLate(a, _) => a in s.actions && s.actions[a].pc.Late?
    case AuditLifecycle(a) => true
    case Drain(n) => s.sunk <= n <= |s.log|
    case CloseGate => s.capture.Idle?
    case DrainDone => s.capture.Draining? && NoLeases(s)
    case DrainTimeout => s.capture.Draining?
    case ReadTail => s.capture.Quiet? && |s.log| > 0
    case Image => s.capture.CutRead?
    case CommitSnapshot => s.capture.Imaged? && s.capture.cut <= |s.log| && s.capture.cut > 0
    case Reopen => InBody(s.capture)
  }

  /** State `s` after action `a` became `act` and the log became `log`. */
  function Moved(s: State, a: ActionId, act: Action, log: seq<Event>): (r: State) {
    s.(actions := s.actions[a := act], log := log)
  }

  /** The labels that move one action's handler or guest. */
  predicate MovesAction(l: Label) {
    !l.AuditLifecycle? && !l.Drain? && !l.CloseGate? && !l.DrainDone? && !l.DrainTimeout?
    && !l.ReadTail? && !l.Image? && !l.CommitSnapshot? && !l.Reopen?
  }

  /**
   What ends the wait decides what is logged next. `complete` returns the promise of
   `invalidCompletion` without awaiting it, so on a mismatch its `finally` releases the
   lease while the enqueue is still to come.
   */
  function Received(act: Action, reply: Reply): Action {
    match reply
    case Matching => act.(pc := Reporting)
    case Mismatched => act.(pc := Late(true), lease := false, late := Some(MismatchedReply))
    case Malformed => act.(pc := Invalidating)
    case Gone => act.(pc := Abandoning, gone := true)
  }

  /** The new record of the label's action; only its own handler or guest moves. */
  ghost function NextAction(s: State, l: Label): (act: Action)
    requires Enabled(s, l)
    requires MovesAction(l)
  {
    match l
    case Arrive(a, tool) =>
      Action(tool, if Closing(s) then GateDenied else Admitted, !Closing(s), Unauthorized,
             false, false, false, false, None, false)
    case AuditRefusal(a, e) =>
      var act := s.actions[a];
      act.(pc := if act.pc.GateDenied? then Ended else Releasing)
    case Reject(a) => s.actions[a].(pc := Releasing)
    case AuditStart(a, e) => s.actions[a].(pc := if e.Committed? then Recorded else Releasing)
    case Deliver(a, _, ok) => s.actions[a].(pc := if ok then Cleared else Releasing, cleared := ok)
    case Execute(a) => s.actions[a].(pc := Executing, ran := true)
    case Finish(a, ok, e) =>
      var act := s.actions[a];
      if !ok then act.(pc := Recovering)
      else if e.Committed? then act.(pc := Releasing)
      else act.(pc := Recovering, twice := e.Ambiguous?)
    case AuditFailure(a, e) =>
      var act := s.actions[a];
      act.(pc := Releasing, lost := act.lost || e.Lost?)
    case Authorize(a, written) =>
      var act := s.actions[a];
      if written then act.(pc := Awaiting, guest := Authorized) else act.(pc := Abandoning, gone := true)
    case GuestStart(a) => s.actions[a].(guest := Running, ran := true)
    case GuestStop(a) => s.actions[a].(guest := Done)
    case Receive(a, reply) => Received(s.actions[a], reply)
    case AuditReport(a, _, e, fits) =>
      var act := s.actions[a];
      act.(pc := Reported(e.Committed? && fits, if e.Committed? then ReplyUnframeable else ReportFailed),
           twice := !e.Lost? && !(e.Committed? && fits))
    case AuditInvalid(a, e) =>
      var act := s.actions[a];
      act.(pc := Releasing, lost := act.lost || e.Lost?)
    case AuditAbandon(a, e) =>
      var act := s.actions[a];
      act.(pc := Releasing, lost := act.lost || e.Lost?)
    case Release(a) =>
      var act := s.actions[a];
      if act.pc.Releasing? || act.pc.ok then act.(pc := Ended, lease := false)
      else act.(pc := Late(false), lease := false, late := Some(act.pc.cause))
    case AuditLate(a, e) =>
      var act := s.actions[a];
      if e.Committed? then act.(pc := Ended)
      else if act.pc.again then act.(pc := Late(false), twice := e.Ambiguous?)
      else act.(pc := Ended, lost := act.lost || e.Lost?)
  }

  /** The row a label enqueues, if it enqueues one. */
  function Row(l: Label): (r: Option<Event>) {
    match l
    case AuditRefusal(a, e) => if e.Lost? then None else Some(Denied(a))
    case AuditStart(a, e) => if e.Lost? then None else Some(Started(a))
    case Finish(a, ok, e) => if e.Lost? || !ok then None else Some(Terminal(a, Completed))
    case AuditFailure(a, e) => if e.Lost? then None else Some(Terminal(a, Failed))
    case AuditReport(a, kind, e, _) => if e.Lost? then None else Some(Terminal(a, kind))
    case AuditInvalid(a, e) => if e.Lost? then None else Some(Terminal(a, InvalidCompletion))
    case AuditAbandon(a, e) => if e.Lost? then None else Some(Terminal(a, Abandoned))
    case AuditLate(a, e) => if e.Lost? then None else Some(Terminal(a, InvalidCompletion))
    case AuditLifecycle(a) => Some(Lifecycle(a))
    case _ => None
  }

  function Extended(log: seq<Event>, row: Option<Event>): (r: seq<Event>) {
    if row.None? then log else log + [row.value]
  }

  /** The log after the label. */
  function NextLog(s: State, l: Label): (log: seq<Event>) {
    Extended(s.log, Row(l))
  }

  /** One step of the session. */
  ghost function Next(s: State, l: Label): (r: State) {
    if !Enabled(s, l) then s else
    match l
    case AuditLifecycle(a) => s.(log := NextLog(s, l))
    case Drain(n) => s.(sunk := n)
    case CloseGate => s.(capture := Draining)
    case DrainDone => s.(capture := Quiet)
    case DrainTimeout => s.(capture := Idle)
    case ReadTail => s.(capture := CutRead(|s.log|))
    case Image => s.(capture := Imaged(s.capture.cut))
    case CommitSnapshot =>
      var cut := s.capture.cut;
      s.(capture := Stored, snapshots := s.snapshots + [Snapshot(cut, s.log[cut - 1].action, |s.log|)])
    case Reopen => s.(capture := Idle)
    case Deliver(a, n, _) => Moved(s, a, NextAction(s, l), s.log).(sunk := n)
    case _ => Moved(s, l.a, NextAction(s, l), NextLog(s, l))
  }

  /** The state after any run of the session. */
  ghost function After(ls: seq<Label>): (s: State) {
    Runs.Exec((s: State, l: Label) => Next(s, l), INITIAL, ls)
  }

  // ---------------------------------------------------------------------------
  // Positions of an action's events in the log

  ghost function Starts(log: seq<Event>, a: ActionId): (r: set<nat>) {
    set i: nat | i < |log| && log[i] == Started(a)
  }

  ghost function Terminals(log: seq<Event>, a: ActionId): (r: set<nat>) {
    set i: nat | i < |log| && log[i].Terminal? && log[i].action == a
  }

  predicate StartRow(row: Option<Event>, a: ActionId) {
    row == Some(Started(a))
  }

  predicate TerminalRow(row: Option<Event>, a: ActionId) {
    row.Some? && row.value.Terminal? && row.value.action == a
  }

  lemma ExtendedStarts(log: seq<Event>, row: Option<Event>, a: ActionId)
    ensures |log| !in Starts(log, a)
    ensures Starts(Extended(log, row), a) == Starts(log, a) + (if StartRow(row, a) then {|log|} else {})
  {
    var longer := Extended(log, row);
    assert forall i: nat :: i < |log| ==> longer[i] == log[i];
    assert row.Some? ==> |longer| == |log| + 1 && longer[|log|] == row.value;
  }

  lemma ExtendedTerminals(log: seq<Event>, row: Option<Event>, a: ActionId)
    ensures |log| !in Terminals(log, a)
    ensures Terminals(Extended(log, row), a) == Terminals(log, a) + (if TerminalRow(row, a) then {|log|} else {})
  {
    var longer := Extended(log, row);
    assert forall i: nat :: i < |log| ==> longer[i] == log[i];
    assert row.Some? ==> |longer| == |log| + 1 && longer[|log|] == row.value;
  }

  lemma SizeWithOne(s: set<nat>, x: nat, b: bool)
    requires x !in s
    ensures |s + (if b then {x} else {})| == |s| + Count(b)
  {
    assert !b ==> s + {} == s;
  }

  lemma ExtendedPositions(log: seq<Event>, row: Option<Event>, a: ActionId)
    ensures Starts(Extended(log, row), a) == Starts(log, a) + (if StartRow(row, a) then {|log|} else {})
    ensures Terminals(Extended(log, row), a) == Terminals(log, a) + (if TerminalRow(row, a) then {|log|} else {})
    ensures |log| !in Starts(log, a) && |log| !in Terminals(log, a)
    ensures |Starts(Extended(log, row), a)| == |Starts(log, a)| + Count(StartRow(row, a))
    ensures |Terminals(Extended(log, row), a)| == |Terminals(log, a)| + Count(TerminalRow(row, a))
  {
    ExtendedStarts(log, row, a);
    ExtendedTerminals(log, row, a);
    SizeWithOne(Starts(log, a), |log|, StartRow(row, a));
    SizeWithOne(Terminals(log, a), |log|, TerminalRow(row, a));
  }

  // ---------------------------------------------------------------------------
  // The inductive invariant

  /** Exactly these handler positions hold a lease. */
  predicate Holds(pc: Pc) {
    !pc.GateDenied? && !pc.Late? && !pc.Ended?
  }

  /** No terminal event can have been logged yet. */
  predicate BeforeTerminal(pc: Pc) {
    pc.GateDenied? || pc.Admitted? || pc.Recorded? || pc.Cleared? || pc.Executing? || pc.Awaiting?
    || pc.Abandoning? || pc.Invalidating? || pc.Reporting?
  }

  /** Only an acknowledged start leads here. */
  predicate PastClearance(pc: Pc) {
    pc.Cleared? || pc.Executing? || pc.Awaiting? || pc.Abandoning? || pc.Invalidating? || pc.Reporting?
    || pc.Reported? || pc.Recovering? || pc.Late?
  }

  /** One more terminal enqueue is certain to be attempted. */
  predicate OwesTerminal(pc: Pc) {
    pc.Recovering? || pc.Late? || (pc.Reported? && !pc.ok)
  }

  /** Only a local tool's handler gets here. */
  predicate AfterAuthorization(pc: Pc) {
    pc.Awaiting? || pc.Abandoning? || pc.Invalidating? || pc.Reporting? || pc.Reported? || pc.Late?
  }

  function Count(b: bool): nat { if b then 1 else 0 }

  /**
   The handler's position agrees with the log: `starts` and `ends` count the
   action's start and terminal events, `acked` says its starts are in the sink.
   */
  ghost predicate Agrees(starts: nat, ends: nat, acked: bool, act: Action) {
    && act.lease == Holds(act.pc)
    && starts <= 1
    && (act.pc.GateDenied? || act.pc.Admitted? ==> starts == 0 && !act.cleared)
    && (act.pc.Recorded? ==> starts == 1 && !act.cleared)
    && (PastClearance(act.pc) ==> act.cleared)
    && (act.cleared ==> starts == 1 && acked)
    && (!act.cleared ==> ends == 0 && !act.ran && act.guest.Unauthorized? && act.late.None? && !act.twice && !act.lost)
    && (BeforeTerminal(act.pc) ==> ends == 0 && !act.twice && !act.lost && act.late.None?)
    && (act.pc.Reported? && act.pc.ok ==> ends == 1 && !act.twice && !act.lost)
    && (OwesTerminal(act.pc) ==> ends == Count(act.twice) && !act.lost)
    && (act.pc.Late? && act.pc.again ==> !act.twice)
    && (act.pc.Releasing? || act.pc.Ended? ==>
          ends + Count(act.lost) == if act.cleared then 1 + Count(act.twice) else 0)
    && (act.pc.Late? ==> act.late.Some?)
    && (Holds(act.pc) ==> act.late.None?)
    && (act.guest.Running? || act.guest.Authorized? ==> act.pc.Awaiting? || act.gone)
    && (!act.guest.Unauthorized? ==> act.tool.LocalTool?)
    && (act.pc.Executing? || act.pc.Recovering? ==> act.tool.BrokerCall?)
    && (AfterAuthorization(act.pc) ==> act.tool.LocalTool?)
  }

  ghost predicate Acknowledged(log: seq<Event>, sunk: nat, a: ActionId) {
    forall i :: i in Starts(log, a) ==> i < sunk
  }

  ghost predicate ActionInv(log: seq<Event>, sunk: nat, a: ActionId, act: Action) {
    && (forall i, j :: i in Starts(log, a) && j in Terminals(log, a) ==> i < j)
    && Agrees(|Starts(log, a)|, |Terminals(log, a)|, Acknowledged(log, sunk, a), act)
  }

  predicate Settled(pc: Pc) {
    pc.Late? || pc.Ended?
  }

  /** If the action started before `cut` its handler is done or late, and only a late one logs past `cut`. */
  ghost predicate CutFor(log: seq<Event>, cut: nat, a: ActionId, act: Action) {
    (exists i :: i in Starts(log, a) && i < cut) ==>
      && Settled(act.pc)
      && forall j :: j in Terminals(log, a) && j >= cut ==> act.late.Some?
  }

  /** Reading the tail at `cut` found no started action that could still log, except late ones. */
  ghost predicate CutInv(s: State, cut: nat) {
    && 0 < cut <= |s.log|
    && forall a :: a in s.actions ==> CutFor(s.log, cut, a, s.actions[a])
  }

  /** No action started in `log[from..to]`. */
  ghost predicate NoStartsWithin(log: seq<Event>, from: nat, to: nat) {
    forall i :: from <= i < to && i < |log| ==> !log[i].Started?
  }

  ghost predicate SnapshotInv(s: State, snap: Snapshot) {
    && CutInv(s, snap.resumeSeq)
    && snap.resumeSeq <= snap.logAtCommit <= |s.log|
    && snap.resumeAction == s.log[snap.resumeSeq - 1].action
    && NoStartsWithin(s.log, snap.resumeSeq, snap.logAtCommit)
  }

  ghost predicate CaptureInv(s: State) {
    && (InBody(s.capture) ==> NoLeases(s))
    && (s.capture.CutRead? || s.capture.Imaged? ==>
          CutInv(s, s.capture.cut) && NoStartsWithin(s.log, s.capture.cut, |s.log|))
  }

  ghost predicate Inv(s: State) {
    && s.sunk <= |s.log|
    && (forall a :: a in s.actions ==> ActionInv(s.log, s.sunk, a, s.actions[a]))
    && (forall a :: a !in s.actions ==> Starts(s.log, a) == {} && Terminals(s.log, a) == {})
    && CaptureInv(s)
    && (forall k :: 0 <= k < |s.snapshots| ==> SnapshotInv(s, s.snapshots[k]))
  }

  // ---------------------------------------------------------------------------
  // Preservation

  /** Events of other actions and later acknowledgements do not disturb an action. */
  lemma BystanderKeeps(log: seq<Event>, row: Option<Event>, b: ActionId, act: Action, sunk: nat, sunk': nat)
    requires ActionInv(log, sunk, b, act) && sunk <= sunk'
    requires !StartRow(row, b) && !TerminalRow(row, b)
    ensures ActionInv(Extended(log, row), sunk', b, act)
  {
    ExtendedPositions(log, row, b);
    assert Starts(Extended(log, row), b) == Starts(log, b);
    assert Terminals(Extended(log, row), b) == Terminals(log, b);
    assert Acknowledged(log, sunk, b) ==> Acknowledged(Extended(log, row), sunk', b);
  }

  /** The label enqueues a terminal event. */
  predicate AddsTerminal(l: Label) {
    (l.Finish? && l.ok) || l.AuditFailure? || l.AuditReport? || l.AuditInvalid? || l.AuditAbandon? || l.AuditLate?
  }

  /** What is known of an action before a handler step, and of its acknowledgement after it. */
  ghost predicate Premise(s: State, l: Label, starts: nat, ends: nat, acked: bool, acked': bool)
    requires MovesAction(l)
  {
    && (l.a in s.actions ==> Agrees(starts, ends, acked, s.actions[l.a]))
    && (l.a !in s.actions ==> starts == ends == 0)
    && (acked && !l.AuditStart? ==> acked')
    && (l.Deliver? && l.ok ==> acked')
  }

  function NewStarts(l: Label, starts: nat): (r: nat) {
    starts + Count(l.AuditStart? && !l.e.Lost?)
  }

  function NewEnds(l: Label, ends: nat): (r: nat) {
    ends + Count(AddsTerminal(l) && !l.e.Lost?)
  }

  lemma AdmissionStepAgrees(s: State, l: Label, starts: nat, ends: nat, acked: bool, acked': bool)
    requires Enabled(s, l) && (l.Arrive? || l.AuditRefusal? || l.Reject? || l.AuditStart? || l.Deliver?)
    requires Premise(s, l, starts, ends, acked, acked')
    ensures Agrees(NewStarts(l, starts), NewEnds(l, ends), acked', NextAction(s, l))
  {
  }

  lemma BrokerStepAgrees(s: State, l: Label, starts: nat, ends: nat, acked: bool, acked': bool)
    requires Enabled(s, l) && (l.Execute? || l.Finish? || l.AuditFailure? || l.AuditAbandon?)
    requires Premise(s, l, starts, ends, acked, acked')
    ensures Agrees(NewStarts(l, starts), NewEnds(l, ends), acked', NextAction(s, l))
  {
  }

  lemma ReceiveStepAgrees(s: State, l: Label, starts: nat, ends: nat, acked: bool, acked': bool)
    requires Enabled(s, l) && l.Receive?
    requires Premise(s, l, starts, ends, acked, acked')
    ensures Agrees(NewStarts(l, starts), NewEnds(l, ends), acked', NextAction(s, l))
  {
    assert NextAction(s, l) == Received(s.actions[l.a], l.reply);
  }

  lemma GuestStepAgrees(s: State, l: Label, starts: nat, ends: nat, acked: bool, acked': bool)
    requires Enabled(s, l) && (l.Authorize? || l.GuestStart? || l.GuestStop?)
    requires Premise(s, l, starts, ends, acked, acked')
    ensures Agrees(NewStarts(l, starts), NewEnds(l, ends), acked', NextAction(s, l))
  {
  }

  lemma ReportStepAgrees(s: State, l: Label, starts: nat, ends: nat, acked: bool, acked': bool)
    requires Enabled(s, l) && (l.AuditReport? || l.AuditInvalid? || l.Release?)
    requires Premise(s, l, starts, ends, acked, acked')
    ensures Agrees(NewStarts(l, starts), NewEnds(l, ends), acked', NextAction(s, l))
  {
  }

  lemma LateStepAgrees(s: State, l: Label, starts: nat, ends: nat, acked: bool, acked': bool)
    requires Enabled(s, l) && (l.AuditLate?)
    requires Premise(s, l, starts, ends, acked, acked')
    ensures Agrees(NewStarts(l, starts), NewEnds(l, ends), acked', NextAction(s, l))
  {
  }

  /** A handler step keeps the action's position in agreement with its events. */
  lemma StepAgrees(s: State, l: Label, starts: nat, ends: nat, acked: bool, acked': bool)
    requires Enabled(s, l) && MovesAction(l) && Premise(s, l, starts, ends, acked, acked')
    ensures Agrees(NewStarts(l, starts), NewEnds(l, ends), acked', NextAction(s, l))
  {
    if l.AuditLate? {
      LateStepAgrees(s, l, starts, ends, acked, acked');
    } else if l.AuditReport? || l.AuditInvalid? || l.Release? {
      ReportStepAgrees(s, l, starts, ends, acked, acked');
    } else if l.Receive? {
      ReceiveStepAgrees(s, l, starts, ends, acked, acked');
    } else if l.Authorize? || l.GuestStart? || l.GuestStop? {
      GuestStepAgrees(s, l, starts, ends, acked, acked');
    } else if l.Execute? || l.Finish? || l.AuditFailure? || l.AuditAbandon? {
      BrokerStepAgrees(s, l, starts, ends, acked, acked');
    } else {
      AdmissionStepAgrees(s, l, starts, ends, acked, acked');
    }
  }

  /** Each label writes the row its step accounts for. */
  lemma RowKinds(l: Label, b: ActionId)
    ensures StartRow(Row(l), b) <==> l.AuditStart? && !l.e.Lost? && l.a == b
    ensures TerminalRow(Row(l), b) <==> AddsTerminal(l) && !l.e.Lost? && l.a == b
  {
  }

  /** A start is logged before any terminal event of its action, and terminal events come later. */
  lemma OrderKeeps(log: seq<Event>, row: Option<Event>, a: ActionId)
    requires forall i, j :: i in Starts(log, a) && j in Terminals(log, a) ==> i < j
    requires StartRow(row, a) ==> Terminals(log, a) == {}
    ensures var longer := Extended(log, row);
      forall i, j :: i in Starts(longer, a) && j in Terminals(longer, a) ==> i < j
  {
    ExtendedPositions(log, row, a);
  }

  lemma AcknowledgementKeeps(s: State, l: Label, sunk: nat)
    requires Enabled(s, l) && MovesAction(l) && sunk == if l.Deliver? then l.upTo else s.sunk
    ensures Acknowledged(s.log, s.sunk, l.a) && !l.AuditStart? ==> Acknowledged(NextLog(s, l), sunk, l.a)
    ensures l.Deliver? && l.ok ==> Acknowledged(NextLog(s, l), sunk, l.a)
  {
    ExtendedPositions(s.log, Row(l), l.a);
    RowKinds(l, l.a);
  }

  lemma MoverAgrees(s: State, l: Label, sunk: nat)
    requires Enabled(s, l) && MovesAction(l)
    requires l.a in s.actions ==> ActionInv(s.log, s.sunk, l.a, s.actions[l.a])
    requires l.a !in s.actions ==> Starts(s.log, l.a) == {} && Terminals(s.log, l.a) == {}
    requires sunk == if l.Deliver? then l.upTo else s.sunk
    ensures var log := NextLog(s, l);
      Agrees(|Starts(log, l.a)|, |Terminals(log, l.a)|, Acknowledged(log, sunk, l.a), NextAction(s, l))
  {
    var starts, ends := |Starts(s.log, l.a)|, |Terminals(s.log, l.a)|;
    var acked, acked' := Acknowledged(s.log, s.sunk, l.a), Acknowledged(NextLog(s, l), sunk, l.a);
    RowKinds(l, l.a);
    AcknowledgementKeeps(s, l, sunk);
    ExtendedPositions(s.log, Row(l), l.a);
    assert Premise(s, l, starts, ends, acked, acked');
    StepAgrees(s, l, starts, ends, acked, acked');
  }

  lemma MoverStartsFirst(s: State, l: Label)
    requires Enabled(s, l) && MovesAction(l)
    requires l.a in s.actions ==> ActionInv(s.log, s.sunk, l.a, s.actions[l.a])
    ensures StartRow(Row(l), l.a) ==> Terminals(s.log, l.a) == {}
  {
    RowKinds(l, l.a);
    assert l.AuditStart? ==> |Terminals(s.log, l.a)| == 0;
  }

  /** A handler step leaves its action in agreement with the log. */
  lemma MoverKeeps(s: State, l: Label, sunk: nat)
    requires Enabled(s, l) && MovesAction(l)
    requires l.a in s.actions ==> ActionInv(s.log, s.sunk, l.a, s.actions[l.a])
    requires l.a !in s.actions ==> Starts(s.log, l.a) == {} && Terminals(s.log, l.a) == {}
    requires sunk == if l.Deliver? then l.upTo else s.sunk
    ensures ActionInv(NextLog(s, l), sunk, l.a, NextAction(s, l))
  {
    MoverAgrees(s, l, sunk);
    MoverStartsFirst(s, l);
    OrderKeeps(s.log, Row(l), l.a);
  }

  /** A handler that is late or ended stays so; only a late one still logs. */
  lemma SettledStays(s: State, l: Label)
    requires Enabled(s, l) && MovesAction(l) && l.a in s.actions && Settled(s.actions[l.a].pc)
    ensures Settled(NextAction(s, l).pc) && NextAction(s, l).late == s.actions[l.a].late
    ensures !l.AuditStart? && (AddsTerminal(l) ==> s.actions[l.a].pc.Late?)
  {
    assert l.AuditLate? || l.GuestStart? || l.GuestStop?;
  }

  /** The actions of the next state. */
  lemma NextShape(s: State, l: Label)
    requires Enabled(s, l)
    ensures var t := Next(s, l);
      && t.log == NextLog(s, l)
      && (MovesAction(l) ==> t.actions == s.actions[l.a := NextAction(s, l)] && t.capture == s.capture
                             && t.snapshots == s.snapshots && t.sunk == if l.Deliver? then l.upTo else s.sunk)
      && (!MovesAction(l) ==> t.actions == s.actions)
  {
  }

  /** The cut stays good for an action whose handler, if settled, stays settled. */
  lemma CutForKeeps(log: seq<Event>, row: Option<Event>, cut: nat, a: ActionId, act: Action, act': Action)
    requires cut <= |log| && CutFor(log, cut, a, act)
    requires Settled(act.pc) ==> Settled(act'.pc) && act'.late == act.late
    requires Settled(act.pc) && TerminalRow(row, a) ==> act.late.Some?
    ensures CutFor(Extended(log, row), cut, a, act')
  {
    ExtendedPositions(log, row, a);
    if i :| i in Starts(Extended(log, row), a) && i < cut {
      assert i in Starts(log, a);
    }
  }

  lemma CutKeeps(s: State, l: Label, cut: nat)
    requires Inv(s) && CutInv(s, cut) && Enabled(s, l)
    ensures CutInv(Next(s, l), cut)
  {
    var t := Next(s, l);
    NextShape(s, l);
    forall a | a in t.actions ensures CutFor(t.log, cut, a, t.actions[a]) {
      RowKinds(l, a);
      if a !in s.actions {
        ExtendedPositions(s.log, Row(l), a);
      } else {
        assert ActionInv(s.log, s.sunk, a, s.actions[a]);
        if MovesAction(l) && l.a == a && Settled(s.actions[a].pc) {
          SettledStays(s, l);
        }
        CutForKeeps(s.log, Row(l), cut, a, s.actions[a], t.actions[a]);
      }
    }
  }

  lemma KnownActionKeeps(s: State, l: Label, a: ActionId)
    requires Inv(s) && Enabled(s, l) && a in Next(s, l).actions
    ensures var t := Next(s, l); ActionInv(t.log, t.sunk, a, t.actions[a])
  {
    var t := Next(s, l);
    NextShape(s, l);
    if MovesAction(l) && l.a == a {
      MoverKeeps(s, l, t.sunk);
    } else {
      RowKinds(l, a);
      assert s.sunk <= t.sunk;
      BystanderKeeps(s.log, Row(l), a, s.actions[a], s.sunk, t.sunk);
    }
  }

  lemma UnknownActionKeeps(s: State, l: Label, a: ActionId)
    requires Inv(s) && Enabled(s, l) && a !in Next(s, l).actions
    ensures Starts(Next(s, l).log, a) == {} && Terminals(Next(s, l).log, a) == {}
  {
    NextShape(s, l);
    RowKinds(l, a);
    ExtendedPositions(s.log, Row(l), a);
  }

  lemma AcknowledgedIsLogged(s: State, l: Label)
    requires s.sunk <= |s.log|
    ensures Next(s, l).sunk <= |Next(s, l).log|
  {
    if Enabled(s, l) {
      NextShape(s, l);
    }
  }

  lemma ActionsKeep(s: State, l: Label)
    requires Inv(s) && Enabled(s, l)
    ensures var t := Next(s, l);
      && t.sunk <= |t.log|
      && (forall a :: a in t.actions ==> ActionInv(t.log, t.sunk, a, t.actions[a]))
      && (forall a :: a !in t.actions ==> Starts(t.log, a) == {} && Terminals(t.log, a) == {})
  {
    var t := Next(s, l);
    AcknowledgedIsLogged(s, l);
    forall a | a in t.actions ensures ActionInv(t.log, t.sunk, a, t.actions[a]) {
      KnownActionKeeps(s, l, a);
    }
    forall a | a !in t.actions ensures Starts(t.log, a) == {} && Terminals(t.log, a) == {} {
      UnknownActionKeeps(s, l, a);
    }
  }

  /** The row at `|s.log|` is a start only if a leased handler wrote it. */
  lemma StartsNeedLeases(s: State, l: Label, from: nat)
    requires Inv(s) && Enabled(s, l) && from <= |s.log| && NoStartsWithin(s.log, from, |s.log|)
    requires NoLeases(s)
    ensures NoStartsWithin(Next(s, l).log, from, |Next(s, l).log|)
  {
    NextShape(s, l);
    if l.AuditStart? {
      assert false;
    }
    assert Row(l).Some? ==> !Row(l).value.Started?;
  }

  /** Without a lease, and with the gate closed, no handler step obtains one. */
  lemma NoLeaseFromClosedGate(s: State, l: Label)
    requires Enabled(s, l) && MovesAction(l) && Closing(s)
    requires l.a in s.actions ==> !s.actions[l.a].lease && !Holds(s.actions[l.a].pc)
    ensures !NextAction(s, l).lease
  {
    assert l.Arrive? || l.AuditRefusal? || l.AuditLate? || l.GuestStart? || l.GuestStop?;
  }

  lemma LeasesStayAway(s: State, l: Label)
    requires Inv(s) && Enabled(s, l) && MovesAction(l) && NoLeases(s) && Closing(s)
    ensures NoLeases(Next(s, l))
  {
    NextShape(s, l);
    assert l.a in s.actions ==> ActionInv(s.log, s.sunk, l.a, s.actions[l.a]);
    NoLeaseFromClosedGate(s, l);
  }

  /** Reading the tail with every lease returned yields a cut. */
  lemma TailIsCut(s: State)
    requires Inv(s) && NoLeases(s) && |s.log| > 0
    ensures CutInv(s, |s.log|)
  {
    forall a | a in s.actions ensures CutFor(s.log, |s.log|, a, s.actions[a]) {
      assert ActionInv(s.log, s.sunk, a, s.actions[a]);
      if i :| i in Starts(s.log, a) {
        assert |Starts(s.log, a)| != 0;
      }
    }
  }

  lemma CaptureKeeps(s: State, l: Label)
    requires Inv(s) && Enabled(s, l)
    ensures CaptureInv(Next(s, l))
  {
    var t := Next(s, l);
    NextShape(s, l);
    if InBody(s.capture) && MovesAction(l) {
      LeasesStayAway(s, l);
    }
    if l.ReadTail? {
      TailIsCut(s);
    } else if t.capture.CutRead? || t.capture.Imaged? {
      CutKeeps(s, l, s.capture.cut);
      StartsNeedLeases(s, l, s.capture.cut);
    }
  }

  lemma SnapshotsKeep(s: State, l: Label, k: nat)
    requires Inv(s) && Enabled(s, l) && k < |Next(s, l).snapshots|
    ensures SnapshotInv(Next(s, l), Next(s, l).snapshots[k])
  {
    var t := Next(s, l);
    NextShape(s, l);
    if l.CommitSnapshot? && k == |s.snapshots| {
      CutKeeps(s, l, s.capture.cut);
    } else {
      assert SnapshotInv(s, s.snapshots[k]);
      CutKeeps(s, l, s.snapshots[k].resumeSeq);
    }
  }

  /** Every step keeps the invariant. */
  lemma InvKeeps(s: State, l: Label)
    requires Inv(s)
    ensures Inv(Next(s, l))
  {
    if Enabled(s, l) {
      ActionsKeep(s, l);
      CaptureKeeps(s, l);
      forall k: nat | k < |Next(s, l).snapshots| {
        SnapshotsKeep(s, l, k);
      }
    }
  }

  lemma InvAlongRuns(ls: seq<Label>)
    ensures Inv(After(ls))
  {
    var next := (s: State, l: Label) => Next(s, l);
    var inv := (s: State) => Inv(s);
    forall s: State, l: Label | inv(s) ensures inv(next(s, l)) {
      InvKeeps(s, l);
    }
    assert Starts([], 0) == {};
    assert inv(INITIAL);
    Runs.InvariantHolds(next, inv, INITIAL, ls);
  }

  // ---------------------------------------------------------------------------
  // What every run of the session guarantees

  /** Snapshot `snap` separates action `a`'s start from one of its terminal events. */
  ghost predicate Splits(s: State, snap: Snapshot, a: ActionId) {
    exists i, j :: i in Starts(s.log, a) && j in Terminals(s.log, a)
      && !(i < snap.resumeSeq <==> j < snap.resumeSeq)
  }

  ghost predicate IsLate(s: State, a: ActionId) {
    a in s.actions && s.actions[a].late.Some?
  }

  /**
   The stored suspension point is a consistent cut: it names the last row of a
   log prefix that holds both or neither of an action's start and terminal
   events, for every action that does not log after giving up its lease.
   */
  lemma SuspensionPointIsConsistentCut(ls: seq<Label>, k: nat, a: ActionId)
    requires k < |After(ls).snapshots|
    ensures var s := After(ls); var snap := s.snapshots[k];
      && 0 < snap.resumeSeq <= |s.log|
      && snap.resumeAction == s.log[snap.resumeSeq - 1].action
      && (!IsLate(s, a) ==> !Splits(s, snap, a))
  {
    InvAlongRuns(ls);
    var s := After(ls);
    var snap := s.snapshots[k];
    assert SnapshotInv(s, snap);
    if !IsLate(s, a) {
      forall i, j | i in Starts(s.log, a) && j in Terminals(s.log, a)
        ensures i < snap.resumeSeq <==> j < snap.resumeSeq
      {
        assert a in s.actions && ActionInv(s.log, s.sunk, a, s.actions[a]);
        assert i < j;
        assert CutFor(s.log, snap.resumeSeq, a, s.actions[a]);
      }
    }
  }

  /**
   Nothing starts between reading the cut and committing the snapshot, no lease
   is out, no adapter runs, and a guest still running belongs to an action whose
   wait the host has given up.
   */
  lemma CaptureWindowIsQuiet(ls: seq<Label>)
    ensures var s := After(ls); InBody(s.capture) ==>
      forall a :: a in s.actions ==>
        && !s.actions[a].lease
        && !s.actions[a].pc.Executing?
        && (s.actions[a].guest.Running? ==> s.actions[a].gone)
    ensures var s := After(ls);
      forall k, i :: 0 <= k < |s.snapshots| && s.snapshots[k].resumeSeq <= i < s.snapshots[k].logAtCommit ==>
        i < |s.log| && !s.log[i].Started?
  {
    InvAlongRuns(ls);
    var s := After(ls);
    if InBody(s.capture) {
      forall a | a in s.actions
        ensures !s.actions[a].lease && !s.actions[a].pc.Executing?
        ensures s.actions[a].guest.Running? ==> s.actions[a].gone
      {
        assert ActionInv(s.log, s.sunk, a, s.actions[a]);
      }
    }
    forall k, i | 0 <= k < |s.snapshots| && s.snapshots[k].resumeSeq <= i < s.snapshots[k].logAtCommit
      ensures i < |s.log| && !s.log[i].Started?
    {
      assert SnapshotInv(s, s.snapshots[k]);
    }
  }

  /** One more label at the end of a run. */
  lemma Extend(ls: seq<Label>, l: Label)
    ensures After(ls + [l]) == Next(After(ls), l)
  {
    Runs.ExecSnoc((s: State, l: Label) => Next(s, l), INITIAL, ls, l);
  }

  // ---------------------------------------------------------------------------
  // How many terminal events an action logs

  /** Outcomes after which a handler logs a terminal event although one is in the log. */
  datatype DoubleCause =
    | CompletionInDoubt   // broker: the completion's enqueue committed and reported an error
    | ReportInDoubt       // local: the report's enqueue did
    | ReplyUnsendable     // local: the report committed, its reply could not be framed
    | LateInDoubt         // local: the unawaited enqueue of a mismatched completion did

  /** The label is such an outcome for action `a`. */
  ghost function Doubling(s: State, l: Label, a: ActionId): Option<DoubleCause> {
    if !Enabled(s, l) then None else
    match l
    case Finish(b, true, Ambiguous) => if a == b then Some(CompletionInDoubt) else None
    case AuditReport(b, _, Ambiguous, _) => if a == b then Some(ReportInDoubt) else None
    case AuditReport(b, _, Committed, false) => if a == b then Some(ReplyUnsendable) else None
    case AuditLate(b, Ambiguous) => if a == b && s.actions[a].pc.again then Some(LateInDoubt) else None
    case _ => None
  }

  /** The label rolls back the last terminal enqueue that is attempted for action `a`. */
  ghost predicate Losing(s: State, l: Label, a: ActionId) {
    Enabled(s, l) &&
    match l
    case AuditFailure(b, Lost) => a == b
    case AuditInvalid(b, Lost) => a == b
    case AuditAbandon(b, Lost) => a == b
    case AuditLate(b, Lost) => a == b && !s.actions[a].pc.again
    case _ => false
  }

  /** The outcome in the run, if any, that made action `a` log twice. */
  ghost function DoubledBy(ls: seq<Label>, a: ActionId): Option<DoubleCause> {
    if ls == [] then None
    else
      var init, last := ls[..|ls| - 1], ls[|ls| - 1];
      var cause := Doubling(After(init), last, a);
      if cause.Some? then cause else DoubledBy(init, a)
  }

  /** The run rolls back the last terminal enqueue of action `a`. */
  ghost predicate LostIn(ls: seq<Label>, a: ActionId) {
    ls != [] && (Losing(After(ls[..|ls| - 1]), ls[|ls| - 1], a) || LostIn(ls[..|ls| - 1], a))
  }

  /** The action's history fields follow the outcomes. */
  ghost predicate HistoryFollows(s: State, l: Label, a: ActionId)
    requires a in s.actions && a in Next(s, l).actions
  {
    var act, next := s.actions[a], Next(s, l).actions[a];
    && (next.twice <==> act.twice || Doubling(s, l, a).Some?)
    && (next.lost <==> act.lost || Losing(s, l, a))
  }

  lemma KnownHistoryStep(s: State, l: Label, a: ActionId)
    requires Inv(s) && a in s.actions
    ensures a in Next(s, l).actions && HistoryFollows(s, l, a)
  {
    if Enabled(s, l) {
      NextShape(s, l);
      assert ActionInv(s.log, s.sunk, a, s.actions[a]);
      if MovesAction(l) && l.a == a {
        MoverHistory(s, l);
      } else {
        OthersOutcome(s, l, a);
      }
    }
  }

  lemma OthersOutcome(s: State, l: Label, a: ActionId)
    requires Enabled(s, l) && !(MovesAction(l) && l.a == a)
    ensures Doubling(s, l, a).None? && !Losing(s, l, a)
  {
  }

  lemma NewHistoryStep(s: State, l: Label, a: ActionId)
    requires a !in s.actions
    ensures Doubling(s, l, a).None? && !Losing(s, l, a)
    ensures a in Next(s, l).actions ==> !Next(s, l).actions[a].twice && !Next(s, l).actions[a].lost
  {
    if Enabled(s, l) {
      NextShape(s, l);
    }
  }

  /** What a handler's position says of its history before it reports. */
  predicate StartsUndoubled(act: Action) {
    && (OwesTerminal(act.pc) ==> !act.lost)
    && (BeforeTerminal(act.pc) || (act.pc.Late? && act.pc.again) ==> !act.twice)
  }

  ghost predicate OutcomeRecorded(s: State, l: Label)
    requires Enabled(s, l) && MovesAction(l) && l.a in s.actions
  {
    var act, next := s.actions[l.a], NextAction(s, l);
    && (next.twice <==> act.twice || Doubling(s, l, l.a).Some?)
    && (next.lost <==> act.lost || Losing(s, l, l.a))
  }

  lemma EnqueueRecorded(s: State, l: Label)
    requires Enabled(s, l) && MovesAction(l) && l.a in s.actions && StartsUndoubled(s.actions[l.a])
    requires l.Finish? || l.AuditFailure? || l.AuditInvalid? || l.AuditAbandon?
    ensures OutcomeRecorded(s, l)
  {
  }

  lemma ReportRecorded(s: State, l: Label)
    requires Enabled(s, l) && MovesAction(l) && l.a in s.actions && StartsUndoubled(s.actions[l.a])
    requires l.AuditReport? || l.AuditLate?
    ensures OutcomeRecorded(s, l)
  {
  }

  lemma AdmissionRecorded(s: State, l: Label)
    requires Enabled(s, l) && MovesAction(l) && l.a in s.actions && StartsUndoubled(s.actions[l.a])
    requires l.Arrive? || l.AuditRefusal? || l.Reject? || l.AuditStart? || l.Deliver?
    ensures OutcomeRecorded(s, l)
  {
  }

  lemma ReceiveRecorded(s: State, l: Label)
    requires Enabled(s, l) && l.Receive? && l.a in s.actions
    ensures OutcomeRecorded(s, l)
  {
    assert NextAction(s, l) == Received(s.actions[l.a], l.reply);
  }

  lemma GuestRecorded(s: State, l: Label)
    requires Enabled(s, l) && MovesAction(l) && l.a in s.actions && StartsUndoubled(s.actions[l.a])
    requires l.Execute? || l.Authorize? || l.GuestStart? || l.GuestStop? || l.Release?
    ensures OutcomeRecorded(s, l)
  {
  }

  lemma MoverHistory(s: State, l: Label)
    requires Enabled(s, l) && MovesAction(l) && l.a in s.actions && StartsUndoubled(s.actions[l.a])
    ensures OutcomeRecorded(s, l)
  {
    if l.Receive? {
      ReceiveRecorded(s, l);
    } else if l.AuditReport? || l.AuditLate? {
      ReportRecorded(s, l);
    } else if l.Finish? || l.AuditFailure? || l.AuditInvalid? || l.AuditAbandon? {
      EnqueueRecorded(s, l);
    } else if l.Execute? || l.Authorize? || l.GuestStart? || l.GuestStop? || l.Release? {
      GuestRecorded(s, l);
    } else {
      AdmissionRecorded(s, l);
    }
  }

  /** The history fields of an action are what the run's outcomes say. */
  lemma {:induction false} HistoryIsOutcomes(ls: seq<Label>, a: ActionId)
    ensures var s := After(ls);
      if a in s.actions then (s.actions[a].twice <==> DoubledBy(ls, a).Some?) && (s.actions[a].lost <==> LostIn(ls, a))
      else DoubledBy(ls, a).None? && !LostIn(ls, a)
  {
    if ls != [] {
      var init, last := ls[..|ls| - 1], ls[|ls| - 1];
      assert ls == init + [last];
      HistoryIsOutcomes(init, a);
      InvAlongRuns(init);
      Extend(init, last);
      if a in After(init).actions {
        KnownHistoryStep(After(init), last, a);
      } else {
        NewHistoryStep(After(init), last, a);
      }
    }
  }

  /**
   Execution is bracketed. Whatever executes, on the host or in the guest, does so
   after the one `action.started` row of its action is in the sink, and terminal events
   follow that row. A handler that ended holds no lease; an acknowledged one that ended
   logged one terminal event, one more if an outcome doubled it, one fewer if its last
   enqueue rolled back; before the acknowledgement nothing terminal is logged.
   */
  lemma ExecutionIsBracketed(ls: seq<Label>, a: ActionId)
    requires a in After(ls).actions
    ensures var s := After(ls); var act := s.actions[a];
      act.ran || act.pc.Executing? || !act.guest.Unauthorized? ==>
        exists i: nat :: i < s.sunk <= |s.log| && Starts(s.log, a) == {i}
    ensures var s := After(ls); var act := s.actions[a]; var ends := |Terminals(s.log, a)|;
      && (act.pc.Ended? ==> !act.lease)
      && (act.pc.Ended? && act.cleared ==> ends + Count(LostIn(ls, a)) == 1 + Count(DoubledBy(ls, a).Some?))
      && ends <= 1 + Count(DoubledBy(ls, a).Some?)
      && (!act.cleared ==> ends == 0)
      && (forall i, j :: i in Starts(s.log, a) && j in Terminals(s.log, a) ==> i < j)
  {
    InvAlongRuns(ls);
    HistoryIsOutcomes(ls, a);
    var s := After(ls);
    var act := s.actions[a];
    assert ActionInv(s.log, s.sunk, a, act);
    if act.cleared {
      OneStart(s, a);
    }
  }

  lemma OneStart(s: State, a: ActionId)
    requires |Starts(s.log, a)| == 1 && Acknowledged(s.log, s.sunk, a) && s.sunk <= |s.log|
    ensures exists i: nat :: i < s.sunk <= |s.log| && Starts(s.log, a) == {i}
  {
    var starts := Starts(s.log, a);
    var i :| i in starts;
    assert |starts - {i}| == 0;
    assert starts == {i};
  }

  /** Every terminal enqueue for action `a` commits, and its final reply can be framed. */
  predicate CleanFor(l: Label, a: ActionId) {
    MovesAction(l) && l.a == a && AddsTerminal(l) ==> l.e.Committed? && (l.AuditReport? ==> l.fits)
  }

  lemma {:induction false} CleanRunsHaveNoCause(ls: seq<Label>, a: ActionId)
    requires forall i :: 0 <= i < |ls| ==> CleanFor(ls[i], a)
    ensures DoubledBy(ls, a).None? && !LostIn(ls, a)
  {
    if ls != [] {
      var init, last := ls[..|ls| - 1], ls[|ls| - 1];
      assert forall i :: 0 <= i < |init| ==> init[i] == ls[i];
      CleanRunsHaveNoCause(init, a);
      assert CleanFor(last, a);
    }
  }

  /**
   When every terminal enqueue of an action commits and its final frame fits, it never
   logs two terminal events, and it has logged exactly one when its handler ends after
   its start was acknowledged.
   */
  lemma CleanRunsTerminateOnce(ls: seq<Label>, a: ActionId)
    requires a in After(ls).actions && forall i :: 0 <= i < |ls| ==> CleanFor(ls[i], a)
    ensures var s := After(ls);
      && |Terminals(s.log, a)| <= 1
      && (s.actions[a].pc.Ended? && s.actions[a].cleared ==> |Terminals(s.log, a)| == 1)
  {
    CleanRunsHaveNoCause(ls, a);
    ExecutionIsBracketed(ls, a);
  }

  // ---------------------------------------------------------------------------
  // Every handler can end, and gives its lease back

  /** The steps of an action's handler on the host. */
  predicate MovesHandler(l: Label) {
    MovesAction(l) && !l.Arrive? && !l.GuestStart? && !l.GuestStop?
  }

  /** An upper bound on the steps a handler still takes. */
  function StepsLeft(pc: Pc): nat {
    match pc
    case Admitted => 8
    case Recorded => 7
    case Cleared => 6
    case Awaiting => 5
    case Reporting => 4
    case Reported(_, _) => 3
    case Executing => 3
    case Recovering => 2
    case Abandoning => 2
    case Invalidating => 2
    case Late(again) => if again then 2 else 1
    case Releasing => 1
    case GateDenied => 1
    case Ended => 0
  }

  /** Every step of a handler uses up part of a bounded number; no other step adds to it. */
  lemma HandlerStepUsesUp(s: State, l: Label, a: ActionId)
    requires Enabled(s, l) && a in s.actions
    ensures a in Next(s, l).actions
    ensures if MovesHandler(l) && l.a == a then StepsLeft(Next(s, l).actions[a].pc) < StepsLeft(s.actions[a].pc)
            else Next(s, l).actions[a].pc == s.actions[a].pc
  {
    NextShape(s, l);
    if MovesAction(l) && l.a == a {
      MoverUsesUp(s, l);
    }
  }

  /** The action's step, if it is its handler's, lowers its bound. */
  ghost predicate UsesUp(s: State, l: Label)
    requires Enabled(s, l) && MovesAction(l) && l.a in s.actions
  {
    if MovesHandler(l) then StepsLeft(NextAction(s, l).pc) < StepsLeft(s.actions[l.a].pc)
    else NextAction(s, l).pc == s.actions[l.a].pc
  }

  lemma AdmissionUsesUp(s: State, l: Label)
    requires Enabled(s, l) && (l.Arrive? || l.AuditRefusal? || l.Reject? || l.AuditStart? || l.Deliver?) && l.a in s.actions
    ensures UsesUp(s, l)
  {
  }

  lemma ExecutionUsesUp(s: State, l: Label)
    requires Enabled(s, l) && (l.Execute? || l.Authorize?) && l.a in s.actions
    ensures UsesUp(s, l)
  {
  }

  lemma FinishUsesUp(s: State, l: Label)
    requires Enabled(s, l) && l.Finish? && l.a in s.actions
    ensures UsesUp(s, l)
  {
  }

  lemma RecoveryUsesUp(s: State, l: Label)
    requires Enabled(s, l) && (l.AuditFailure? || l.AuditAbandon? || l.AuditInvalid?) && l.a in s.actions
    ensures UsesUp(s, l)
  {
  }

  lemma GuestUsesUp(s: State, l: Label)
    requires Enabled(s, l) && (l.GuestStart? || l.GuestStop?) && l.a in s.actions
    ensures UsesUp(s, l)
  {
  }

  lemma ReceiveUsesUp(s: State, a: ActionId, reply: Reply)
    requires Enabled(s, Receive(a, reply))
    ensures UsesUp(s, Receive(a, reply))
  {
    assert NextAction(s, Receive(a, reply)) == Received(s.actions[a], reply);
  }

  lemma ReportUsesUp(s: State, l: Label)
    requires Enabled(s, l) && l.AuditReport? && l.a in s.actions
    ensures UsesUp(s, l)
  {
  }

  lemma ReleaseUsesUp(s: State, l: Label)
    requires Enabled(s, l) && l.Release? && l.a in s.actions
    ensures UsesUp(s, l)
  {
  }

  lemma LateUsesUp(s: State, a: ActionId, e: Enqueue)
    requires Enabled(s, AuditLate(a, e))
    ensures UsesUp(s, AuditLate(a, e))
  {
  }

  lemma MoverUsesUp(s: State, l: Label)
    requires Enabled(s, l) && MovesAction(l) && l.a in s.actions
    ensures UsesUp(s, l)
  {
    if l.GuestStart? || l.GuestStop? {
      GuestUsesUp(s, l);
    } else if l.Receive? {
      ReceiveUsesUp(s, l.a, l.reply);
    } else if l.AuditReport? {
      ReportUsesUp(s, l);
    } else if l.Release? {
      ReleaseUsesUp(s, l);
    } else if l.AuditLate? {
      LateUsesUp(s, l.a, l.e);
    } else if l.Arrive? || l.AuditRefusal? || l.Reject? || l.AuditStart? || l.Deliver? {
      AdmissionUsesUp(s, l);
    } else if l.AuditFailure? || l.AuditAbandon? || l.AuditInvalid? {
      RecoveryUsesUp(s, l);
    } else if l.Finish? {
      FinishUsesUp(s, l);
    } else {
      ExecutionUsesUp(s, l);
    }
  }

  /** Where a handler stands decides what it does next, and every outcome of that is possible. */
  lemma HandlerMovesExactly(s: State, l: Label, a: ActionId)
    requires a in s.actions && MovesHandler(l) && l.a == a
    ensures Enabled(s, l) <==>
      match s.actions[a].pc
      case GateDenied => l.AuditRefusal?
      case Admitted => l.AuditRefusal? || l.Reject? || l.AuditStart?
      case Recorded => l.Deliver? && s.sunk <= l.upTo <= |s.log| && (l.ok ==> Acknowledged(s.log, l.upTo, a))
      case Cleared => if s.actions[a].tool.BrokerCall? then l.Execute? else l.Authorize?
      case Executing => l.Finish?
      case Recovering => l.AuditFailure?
      case Awaiting => l.Receive? && (s.actions[a].guest.Done? || l.reply.Gone?)
      case Abandoning => l.AuditAbandon?
      case Invalidating => l.AuditInvalid?
      case Reporting => l.AuditReport? && (l.kind.Completed? || l.kind.Failed?)
      case Reported(_, _) => l.Release?
      case Releasing => l.Release?
      case Late(_) => l.AuditLate?
      case Ended => false
  {
    if l.Deliver? {
      assert forall i: nat :: i in Starts(s.log, a) <==> i < |s.log| && s.log[i] == Started(a);
    }
  }

  /** On every run, how far a capture is decides what it does next; only the drain waits for others. */
  lemma CaptureMovesExactly(ls: seq<Label>, l: Label)
    requires l.CloseGate? || l.DrainDone? || l.DrainTimeout? || l.ReadTail? || l.Image? || l.CommitSnapshot? || l.Reopen?
    ensures var s := After(ls);
      Enabled(s, l) <==>
        match s.capture
        case Idle => l.CloseGate?
        case Draining => l.DrainTimeout? || (l.DrainDone? && NoLeases(s))
        case Quiet => l.Reopen? || (l.ReadTail? && s.log != [])
        case CutRead(_) => l.Reopen? || l.Image?
        case Imaged(_) => l.Reopen? || l.CommitSnapshot?
        case Stored => l.Reopen?
  {
    InvAlongRuns(ls);
  }

  /** A handler that has not ended can always take a step. */
  lemma HandlerCanMove(s: State, a: ActionId) returns (l: Label)
    requires s.sunk <= |s.log| && a in s.actions && !s.actions[a].pc.Ended?
    ensures Enabled(s, l) && MovesHandler(l) && l.a == a
  {
    match s.actions[a].pc
    case GateDenied => l := AuditRefusal(a, Committed);
    case Admitted => l := Reject(a);
    case Recorded => l := Deliver(a, s.sunk, false);
    case Cleared => l := if s.actions[a].tool.BrokerCall? then Execute(a) else Authorize(a, true);
    case Executing => l := Finish(a, true, Committed);
    case Recovering => l := AuditFailure(a, Committed);
    case Awaiting => l := Receive(a, Gone);
    case Abandoning => l := AuditAbandon(a, Committed);
    case Invalidating => l := AuditInvalid(a, Committed);
    case Reporting => l := AuditReport(a, Completed, Committed, true);
    case Reported(_, _) => l := Release(a);
    case Releasing => l := Release(a);
    case Late(_) => l := AuditLate(a, Committed);
  }

  lemma HandlerMoves(ls: seq<Label>, a: ActionId) returns (l: Label, longer: seq<Label>)
    requires After(ls).sunk <= |After(ls).log| && a in After(ls).actions && !After(ls).actions[a].pc.Ended?
    ensures longer == ls + [l] && a in After(longer).actions
    ensures StepsLeft(After(longer).actions[a].pc) < StepsLeft(After(ls).actions[a].pc)
  {
    l := HandlerCanMove(After(ls), a);
    HandlerStepUsesUp(After(ls), l, a);
    Extend(ls, l);
    longer := ls + [l];
  }

  /** From every reachable state every handler can be brought to its end, where it holds no lease, by its own steps alone. */
  lemma {:induction false} EveryHandlerEnds(ls: seq<Label>, a: ActionId) returns (more: seq<Label>)
    requires a in After(ls).actions
    ensures |more| <= StepsLeft(After(ls).actions[a].pc)
    ensures var t := After(ls + more); a in t.actions && t.actions[a].pc.Ended? && !t.actions[a].lease
    decreases StepsLeft(After(ls).actions[a].pc)
  {
    InvAlongRuns(ls);
    var s := After(ls);
    assert ActionInv(s.log, s.sunk, a, s.actions[a]);
    if s.actions[a].pc.Ended? {
      more := [];
      assert ls + more == ls;
    } else {
      var l, longer := HandlerMoves(ls, a);
      var rest := EveryHandlerEnds(longer, a);
      more := [l] + rest;
      assert ls + more == longer + rest;
    }
  }

  // ---------------------------------------------------------------------------
  // Exactly when the cut can split an action

  /** A run whose only action is `act`, not yet captured. */
  ghost predicate Alone(ls: seq<Label>, log: seq<Event>, sunk: nat, act: Action) {
    After(ls) == Lone(log, sunk, act)
  }

  function Lone(log: seq<Event>, sunk: nat, act: Action): State {
    State(log, sunk, map[0 := act], Idle, [])
  }

  /** One step of a lone action. */
  lemma LoneStep(ls: seq<Label>, log: seq<Event>, sunk: nat, act: Action, l: Label) returns (run: seq<Label>)
    requires Alone(ls, log, sunk, act)
    requires Enabled(Lone(log, sunk, act), l) && MovesAction(l) && l.a == 0
    ensures run == ls + [l]
    ensures Alone(run, Extended(log, Row(l)), if l.Deliver? then l.upTo else sunk, NextAction(Lone(log, sunk, act), l))
  {
    var s := Lone(log, sunk, act);
    Extend(ls, l);
    run := ls + [l];
    NextShape(s, l);
    assert s.actions[0 := NextAction(s, l)] == map[0 := NextAction(s, l)];
  }

  function Fresh(tool: Tool, pc: Pc): Action {
    Action(tool, pc, true, Unauthorized, false, false, false, false, None, false)
  }

  /** A run after which the start of a lone action has been acknowledged. */
  lemma StartAcknowledged(tool: Tool) returns (ls: seq<Label>)
    ensures Alone(ls, [Started(0)], 1, Fresh(tool, Cleared).(cleared := true))
  {
    var act := Fresh(tool, Admitted);
    Extend([], Arrive(0, tool));
    ls := [] + [Arrive(0, tool)];
    assert Alone(ls, [], 0, act);
    ls := LoneStep(ls, [], 0, act, AuditStart(0, Committed));
    assert Extended([], Some(Started(0))) == [Started(0)];
    ls := LoneStep(ls, [Started(0)], 0, Fresh(tool, Recorded), Deliver(0, 1, true));
  }

  /** The action of a local tool whose guest is at `guest`, while the host waits. */
  function Tooled(guest: Guest): Action {
    Fresh(LocalTool, Awaiting).(cleared := true, guest := guest, ran := true)
  }

  /** A run after which the guest is executing a local tool. */
  lemma ToolRuns() returns (ls: seq<Label>)
    ensures Alone(ls, [Started(0)], 1, Tooled(Running))
  {
    ls := StartAcknowledged(LocalTool);
    ls := LoneStep(ls, [Started(0)], 1, Fresh(LocalTool, Cleared).(cleared := true), Authorize(0, true));
    ls := LoneStep(ls, [Started(0)], 1, Tooled(Authorized).(ran := false), GuestStart(0));
  }

  /** A run after which the guest has executed a local tool. */
  lemma ToolRan() returns (ls: seq<Label>)
    ensures Alone(ls, [Started(0)], 1, Tooled(Done))
  {
    ls := ToolRuns();
    ls := LoneStep(ls, [Started(0)], 1, Tooled(Running), GuestStop(0));
  }

  /** A drained capture reads the tail and commits a snapshot that names it. */
  lemma CaptureCommits(ls: seq<Label>) returns (run: seq<Label>)
    requires var s := After(ls); s.capture.Draining? && NoLeases(s) && |s.log| > 0
    ensures var s := After(ls); var n := |s.log|;
      After(run) == s.(capture := Stored, snapshots := s.snapshots + [Snapshot(n, s.log[n - 1].action, n)])
  {
    var s := After(ls);
    Extend(ls, DrainDone);
    run := ls + [DrainDone];
    assert After(run) == s.(capture := Quiet);
    Extend(run, ReadTail);
    run := run + [ReadTail];
    assert After(run) == s.(capture := CutRead(|s.log|));
    Extend(run, Image);
    run := run + [Image];
    assert After(run) == s.(capture := Imaged(|s.log|));
    Extend(run, CommitSnapshot);
    run := run + [CommitSnapshot];
  }

  /**
   Whatever else the session has been through: from every reachable state in which no
   lease is out and no capture is past its drain, a capture can read the tail before a
   late handler logs, and the snapshot it commits splits that handler's action.
   */
  lemma LateHandlerIsSplit(ls: seq<Label>, a: ActionId) returns (run: seq<Label>)
    requires var s := After(ls);
      && a in s.actions && s.actions[a].pc.Late?
      && NoLeases(s) && (s.capture.Idle? || s.capture.Draining?)
    ensures var s, t := After(ls), After(run);
      && |t.snapshots| == |s.snapshots| + 1 && a in t.actions && t.actions[a].late == s.actions[a].late
      && Splits(t, t.snapshots[|s.snapshots|], a)
  {
    var s := After(ls);
    InvAlongRuns(ls);
    assert ActionInv(s.log, s.sunk, a, s.actions[a]);
    var i :| i in Starts(s.log, a);
    var draining := ls;
    if s.capture.Idle? {
      Extend(ls, CloseGate);
      draining := ls + [CloseGate];
    }
    assert After(draining) == s.(capture := Draining);
    run := CaptureCommits(draining);
    run := LateRowFollows(run, a, i);
  }

  /** A late handler that logs at last logs behind everything committed so far. */
  lemma LateRowFollows(ls: seq<Label>, a: ActionId, i: nat) returns (run: seq<Label>)
    requires var s := After(ls);
      a in s.actions && s.actions[a].pc.Late? && i in Starts(s.log, a) && |s.snapshots| > 0
    requires var s := After(ls); s.snapshots[|s.snapshots| - 1].resumeSeq == |s.log|
    ensures var s, t := After(ls), After(run);
      && t.snapshots == s.snapshots && a in t.actions && t.actions[a].late == s.actions[a].late
      && Splits(t, t.snapshots[|t.snapshots| - 1], a)
  {
    var s := After(ls);
    var row := Some(Terminal(a, InvalidCompletion));
    Extend(ls, AuditLate(a, Committed));
    run := ls + [AuditLate(a, Committed)];
    assert After(run) == Moved(s, a, s.actions[a].(pc := Ended), Extended(s.log, row));
    ExtendedPositions(s.log, row, a);
    assert i in Starts(Extended(s.log, row), a) && |s.log| in Terminals(Extended(s.log, row), a);
  }

  /** A mismatched completion releases the lease before its terminal event. */
  lemma MismatchIsLate() returns (ls: seq<Label>, act: Action)
    ensures Alone(ls, [Started(0)], 1, act)
    ensures act.pc == Late(true) && !act.lease && act.late == Some(MismatchedReply) && !act.twice
  {
    ls := ToolRan();
    ls := LoneStep(ls, [Started(0)], 1, Tooled(Done), Receive(0, Mismatched));
    act := Received(Tooled(Done), Mismatched);
  }

  /** The action of a local tool after its report ended so. */
  function Reporter(e: Enqueue, fits: bool): Action {
    Tooled(Done).(pc := Reported(e.Committed? && fits, if e.Committed? then ReplyUnframeable else ReportFailed),
                  twice := !e.Lost? && !(e.Committed? && fits))
  }

  lemma ToolReports(e: Enqueue, fits: bool) returns (ls: seq<Label>)
    ensures Alone(ls, Extended([Started(0)], Row(AuditReport(0, Completed, e, fits))), 1, Reporter(e, fits))
    ensures DoubledBy(ls, 0) ==
            if e.Ambiguous? then Some(ReportInDoubt) else if e.Committed? && !fits then Some(ReplyUnsendable) else None
  {
    ls := ToolRan();
    ls := LoneStep(ls, [Started(0)], 1, Tooled(Done), Receive(0, Matching));
    var act := Tooled(Done).(pc := Reporting);
    HistoryIsOutcomes(ls, 0);
    var before := ls;
    ls := LoneStep(ls, [Started(0)], 1, act, AuditReport(0, Completed, e, fits));
    assert ls[..|ls| - 1] == before;
  }

  /** A report that fails, or succeeds without a sendable reply, ends in a second report after the release. */
  lemma ReportIsLate(e: Enqueue) returns (ls: seq<Label>, act: Action)
    ensures Alone(ls, Extended([Started(0)], Row(AuditReport(0, Completed, e, false))), 1, act)
    ensures act.pc == Late(false) && !act.lease && act.late == Some(if e.Committed? then ReplyUnframeable else ReportFailed)
  {
    ls := ToolReports(e, false);
    var log := Extended([Started(0)], Row(AuditReport(0, Completed, e, false)));
    ls := LoneStep(ls, log, 1, Reporter(e, false), Release(0));
    act := NextAction(Lone(log, 1, Reporter(e, false)), Release(0));
  }

  /** Some run ends with action `a`, late for the given reason, split by snapshot `k`. */
  ghost predicate SplitBy(ls: seq<Label>, a: ActionId, k: nat, late: Option<LateCause>) {
    && k < |After(ls).snapshots| && a in After(ls).actions
    && After(ls).actions[a].late == late
    && Splits(After(ls), After(ls).snapshots[k], a)
  }

  /**
   The exact boundary of the consistent cut. An action can be split by a
   committed snapshot if and only if it is a local tool whose terminal event was
   left for after the release: its completion named another action, the report
   of its completion failed, or its final reply could not be framed.
   */
  lemma SplitExactlyWhenLate(late: Option<LateCause>)
    ensures (exists ls: seq<Label>, a: ActionId, k: nat :: SplitBy(ls, a, k, late)) <==> late.Some?
  {
    if late.Some? {
      var ls, act;
      if late.value.MismatchedReply? {
        ls, act := MismatchIsLate();
      } else {
        ls, act := ReportIsLate(if late.value.ReportFailed? then Lost else Committed);
      }
      assert NoLeases(After(ls));
      var run := LateHandlerIsSplit(ls, 0);
      assert SplitBy(run, 0, 0, late);
    } else {
      forall ls: seq<Label>, a: ActionId, k: nat
        | k < |After(ls).snapshots| && a in After(ls).actions && After(ls).actions[a].late.None?
        ensures !Splits(After(ls), After(ls).snapshots[k], a)
      {
        SuspensionPointIsConsistentCut(ls, k, a);
      }
    }
  }

  /**
   A guest whose completion the host stopped waiting for can run while the sandbox is
   imaged: from every reachable state with no lease out and no capture past its drain,
   and for every such guest in it, a capture can image the sandbox around it.
   */
  lemma AbandonedGuestRunsDuringCapture(ls: seq<Label>, a: ActionId) returns (run: seq<Label>)
    requires var s := After(ls);
      && a in s.actions && s.actions[a].gone && (s.actions[a].guest.Authorized? || s.actions[a].guest.Running?)
      && NoLeases(s) && (s.capture.Idle? || s.capture.Draining?)
    ensures var s := After(run);
      s.capture.Imaged? && a in s.actions && s.actions[a].gone && s.actions[a].guest.Running?
  {
    InvAlongRuns(ls);
    GuestHasLogged(After(ls), a);
    run := ls;
    if After(ls).actions[a].guest.Authorized? {
      run := GuestStarts(ls, a);
    }
    run := CaptureImages(run);
  }

  lemma GuestHasLogged(s: State, a: ActionId)
    requires Inv(s) && a in s.actions && !s.actions[a].guest.Unauthorized?
    ensures |s.log| > 0
  {
    assert ActionInv(s.log, s.sunk, a, s.actions[a]);
    var i :| i in Starts(s.log, a);
  }

  lemma GuestStarts(ls: seq<Label>, a: ActionId) returns (run: seq<Label>)
    requires a in After(ls).actions && After(ls).actions[a].guest.Authorized? && NoLeases(After(ls))
    ensures var s := After(ls); After(run) == s.(actions := s.actions[a := s.actions[a].(guest := Running, ran := true)])
    ensures NoLeases(After(run))
  {
    Extend(ls, GuestStart(a));
    run := ls + [GuestStart(a)];
  }

  lemma CaptureImages(ls: seq<Label>) returns (run: seq<Label>)
    requires var s := After(ls); NoLeases(s) && |s.log| > 0 && (s.capture.Idle? || s.capture.Draining?)
    ensures After(run) == After(ls).(capture := Imaged(|After(ls).log|))
  {
    run := ls;
    if After(ls).capture.Idle? {
      Extend(ls, CloseGate);
      run := ls + [CloseGate];
    }
    var s := After(ls).(capture := Draining);
    assert After(run) == s;
    Extend(run, DrainDone);
    run := run + [DrainDone];
    assert After(run) == s.(capture := Quiet);
    Extend(run, ReadTail);
    run := run + [ReadTail];
    assert After(run) == s.(capture := CutRead(|s.log|));
    Extend(run, Image);
    run := run + [Image];
  }

  /** Such a guest exists in a state with no lease out. */
  lemma GuestsAreAbandoned() returns (ls: seq<Label>)
    ensures var s := After(ls);
      && 0 in s.actions && s.actions[0].gone && s.actions[0].guest.Running?
      && NoLeases(s) && s.capture.Idle?
  {
    ls := ToolRuns();
    ls := LoneStep(ls, [Started(0)], 1, Tooled(Running), Receive(0, Gone));
    var act := Received(Tooled(Running), Gone);
    ls := LoneStep(ls, [Started(0)], 1, act, AuditAbandon(0, Committed));
    var log := Extended([Started(0)], Some(Terminal(0, Abandoned)));
    ls := LoneStep(ls, log, 1, act.(pc := Releasing), Release(0));
  }

  // ---------------------------------------------------------------------------
  // Exactly when an action logs twice

  /** The run ends with two terminal events of action `a`, on account of `cause`. */
  ghost predicate LoggedTwice(ls: seq<Label>, a: ActionId, cause: Option<DoubleCause>) {
    a in After(ls).actions && |Terminals(After(ls).log, a)| == 2 && DoubledBy(ls, a) == cause
  }

  /** From every state in which a doubled handler still owes a terminal event, some continuation logs the second one. */
  lemma DoubledLogsAgain(ls: seq<Label>, a: ActionId) returns (run: seq<Label>)
    requires var s := After(ls); a in s.actions && s.actions[a].twice && (s.actions[a].pc.Recovering? || s.actions[a].pc.Late?)
    ensures LoggedTwice(run, a, DoubledBy(ls, a))
  {
    var s := After(ls);
    var l := if s.actions[a].pc.Late? then AuditLate(a, Committed) else AuditFailure(a, Committed);
    InvAlongRuns(ls);
    assert |Terminals(s.log, a)| == 1 by { assert ActionInv(s.log, s.sunk, a, s.actions[a]); }
    run := LogsOneMore(ls, a, l);
    assert run[..|run| - 1] == ls;
  }

  lemma LogsOneMore(ls: seq<Label>, a: ActionId, l: Label) returns (run: seq<Label>)
    requires var s := After(ls); a in s.actions && Enabled(s, l) && (l == AuditLate(a, Committed) || l == AuditFailure(a, Committed))
    ensures run == ls + [l] && a in After(run).actions
    ensures |Terminals(After(run).log, a)| == |Terminals(After(ls).log, a)| + 1
  {
    var s := After(ls);
    Extend(ls, l);
    NextShape(s, l);
    RowKinds(l, a);
    ExtendedPositions(s.log, Row(l), a);
    run := ls + [l];
  }

  /** Each of the four outcomes leaves a handler that owes a second terminal event. */
  lemma OutcomeDoubles(cause: DoubleCause) returns (ls: seq<Label>)
    ensures var s := After(ls); 0 in s.actions && s.actions[0].twice && (s.actions[0].pc.Recovering? || s.actions[0].pc.Late?)
    ensures DoubledBy(ls, 0) == Some(cause)
  {
    match cause
    case CompletionInDoubt => ls := BrokerDoubles();
    case LateInDoubt => ls := LateDoubles();
    case _ =>
      var e := if cause.ReportInDoubt? then Ambiguous else Committed;
      var before := ToolReports(e, false);
      var log := Extended([Started(0)], Row(AuditReport(0, Completed, e, false)));
      ls := LoneStep(before, log, 1, Reporter(e, false), Release(0));
      assert ls[..|ls| - 1] == before;
  }

  lemma BrokerDoubles() returns (ls: seq<Label>)
    ensures var s := After(ls); 0 in s.actions && s.actions[0].twice && s.actions[0].pc.Recovering?
    ensures DoubledBy(ls, 0) == Some(CompletionInDoubt)
  {
    ls := StartAcknowledged(BrokerCall);
    ls := LoneStep(ls, [Started(0)], 1, Fresh(BrokerCall, Cleared).(cleared := true), Execute(0));
    var act := Fresh(BrokerCall, Executing).(cleared := true, ran := true);
    var before := ls;
    ls := LoneStep(ls, [Started(0)], 1, act, Finish(0, true, Ambiguous));
    assert ls[..|ls| - 1] == before;
  }

  lemma LateDoubles() returns (ls: seq<Label>)
    ensures var s := After(ls); 0 in s.actions && s.actions[0].twice && s.actions[0].pc.Late?
    ensures DoubledBy(ls, 0) == Some(LateInDoubt)
  {
    var before, act := MismatchIsLate();
    ls := LoneStep(before, [Started(0)], 1, act, AuditLate(0, Ambiguous));
    assert ls[..|ls| - 1] == before;
  }

  /**
   An action logs two terminal events on some run if and only if one of four outcomes
   occurred: its completion, its report or its late report committed and reported an
   error, or its report committed and its reply could not be framed.
   */
  lemma LoggedTwiceExactlyAfterDoubling(cause: Option<DoubleCause>)
    ensures (exists ls: seq<Label>, a: ActionId :: LoggedTwice(ls, a, cause)) <==> cause.Some?
  {
    if cause.Some? {
      var ls := OutcomeDoubles(cause.value);
      var run := DoubledLogsAgain(ls, 0);
      assert LoggedTwice(run, 0, cause);
    } else {
      forall ls: seq<Label>, a: ActionId
        ensures !LoggedTwice(ls, a, cause)
      {
        if a in After(ls).actions {
          ExecutionIsBracketed(ls, a);
        }
      }
    }
  }

  // ---------------------------------------------------------------------------
  // What the rows of the log stand for

  /** The adapter returned a result, and the enqueue of `action.completed` put its row into the log. */
  predicate Finishes(l: Label, a: ActionId) {
    l.Finish? && l.a == a && l.ok && !l.e.Lost?
  }

  predicate Fails(l: Label, a: ActionId) {
    l.AuditFailure? && l.a == a && !l.e.Lost?
  }

  /** The report of a local tool's completion, as the guest described it, reached the log. */
  predicate Reports(l: Label, a: ActionId, kind: TerminalKind) {
    l.AuditReport? && l.a == a && l.kind == kind && !l.e.Lost?
  }

  predicate Abandons(l: Label, a: ActionId) {
    l.AuditAbandon? && l.a == a && !l.e.Lost?
  }

  predicate Invalidates(l: Label, a: ActionId) {
    (l.AuditInvalid? || l.AuditLate?) && l.a == a && !l.e.Lost?
  }

  predicate Refuses(l: Label, a: ActionId) {
    l.AuditRefusal? && l.a == a && !l.e.Lost?
  }

  predicate Starting(l: Label, a: ActionId) {
    l.AuditStart? && l.a == a && !l.e.Lost?
  }

  /** The outcomes that put the event into the log. */
  predicate Lands(l: Label, event: Event) {
    match event
    case Started(a) => Starting(l, a)
    case Denied(a) => Refuses(l, a)
    case Lifecycle(a) => l == AuditLifecycle(a)
    case Terminal(a, kind) =>
      match kind
      case Completed => Finishes(l, a) || Reports(l, a, Completed)
      case Failed => Fails(l, a) || Reports(l, a, Failed)
      case Abandoned => Abandons(l, a)
      case InvalidCompletion => Invalidates(l, a)
  }

  /** The label is taken, and is as `on` says. */
  ghost function Effective(on: Label -> bool): (State, Label) -> bool {
    (s: State, l: Label) => Enabled(s, l) && on(l)
  }

  ghost function Landing(event: Event): (State, Label) -> bool {
    Effective((l: Label) => Lands(l, event))
  }

  lemma RowLands(s: State, l: Label, event: Event)
    requires Enabled(s, l)
    ensures Row(l) == Some(event) <==> Lands(l, event)
  {
  }

  /** Each label adds the events its outcome stands for. */
  lemma LogStep(s: State, l: Label, event: Event)
    ensures multiset(Next(s, l).log)[event] == multiset(s.log)[event] + Count(Enabled(s, l) && Lands(l, event))
    ensures s.log <= Next(s, l).log
  {
    if Enabled(s, l) {
      NextShape(s, l);
      RowLands(s, l, event);
    }
  }

  /** Every event is in the log as often as one of its outcomes occurred. */
  lemma LogIsOutcomes(ls: seq<Label>, event: Event)
    ensures multiset(After(ls).log)[event] == Runs.Times(After, ls, Landing(event))
    ensures event in After(ls).log <==> Runs.Occurs(After, ls, Landing(event))
  {
    var number: State -> nat := (s: State) => multiset(s.log)[event];
    forall init: seq<Label>, l: Label ensures Runs.Counts(After, number, Landing(event), init, l) {
      Extend(init, l);
      LogStep(After(init), l, event);
    }
    Runs.NumberIsTimes(After, number, Landing(event), ls);
    Runs.OccursIsPositive(After, ls, Landing(event));
  }

  /** The log only grows at its end. */
  lemma {:induction false} LogOnlyGrows(ls: seq<Label>, more: seq<Label>)
    ensures After(ls).log <= After(ls + more).log
    decreases |more|
  {
    if more == [] {
      assert ls + more == ls;
    } else {
      var init, l := more[..|more| - 1], more[|more| - 1];
      LogOnlyGrows(ls, init);
      assert ls + more == (ls + init) + [l];
      Extend(ls + init, l);
      LogStep(After(ls + init), l, Denied(0));
    }
  }

  lemma {:induction false} ToolIsFixed(ls: seq<Label>, more: seq<Label>, a: ActionId)
    requires a in After(ls).actions
    ensures a in After(ls + more).actions && After(ls + more).actions[a].tool == After(ls).actions[a].tool
    decreases |more|
  {
    if more == [] {
      assert ls + more == ls;
    } else {
      var init, l := more[..|more| - 1], more[|more| - 1];
      ToolIsFixed(ls, init, a);
      assert ls + more == (ls + init) + [l];
      Extend(ls + init, l);
      ToolStays(After(ls + init), l, a);
    }
  }

  lemma ToolStays(s: State, l: Label, a: ActionId)
    requires a in s.actions
    ensures a in Next(s, l).actions && Next(s, l).actions[a].tool == s.actions[a].tool
  {
    if Enabled(s, l) {
      NextShape(s, l);
      if MovesAction(l) && l.a == a {
        MoverPrepares(s, l, Completed);
      }
    }
  }

  /** Which tool an outcome belongs to is decided by where its handler stands. */
  lemma OutcomeHasTool(s: State, l: Label, a: ActionId, kind: TerminalKind)
    requires Inv(s) && Enabled(s, l) && Lands(l, Terminal(a, kind))
    ensures a in s.actions
    ensures s.actions[a].tool.BrokerCall? <==> Finishes(l, a) || Fails(l, a)
  {
    assert ActionInv(s.log, s.sunk, a, s.actions[a]);
  }

  /** An outcome of the run, seen with the tool of its action. */
  lemma TerminalOutcome(ls: seq<Label>, a: ActionId, kind: TerminalKind) returns (i: nat)
    requires a in After(ls).actions && Terminal(a, kind) in After(ls).log
    ensures i < |ls| && Enabled(After(ls[..i]), ls[i]) && Lands(ls[i], Terminal(a, kind))
    ensures After(ls).actions[a].tool.BrokerCall? <==> Finishes(ls[i], a) || Fails(ls[i], a)
  {
    LogIsOutcomes(ls, Terminal(a, kind));
    var on := Landing(Terminal(a, kind));
    i :| 0 <= i < |ls| && on(After(ls[..i]), ls[i]);
    InvAlongRuns(ls[..i]);
    OutcomeHasTool(After(ls[..i]), ls[i], a, kind);
    assert ls == ls[..i] + ls[i..];
    ToolIsFixed(ls[..i], ls[i..], a);
  }

  /** An outcome that occurred and lands the event put it there. */
  lemma OutcomeIsLogged(ls: seq<Label>, on: Label -> bool, event: Event)
    requires forall l :: on(l) ==> Lands(l, event)
    ensures Runs.Occurs(After, ls, Effective(on)) ==> event in After(ls).log
  {
    LogIsOutcomes(ls, event);
    var taken := Effective(on);
    if i :| 0 <= i < |ls| && taken(After(ls[..i]), ls[i]) {
      assert Landing(event)(After(ls[..i]), ls[i]);
    }
  }

  /**
   What a broker call's terminal events mean: it is logged as completed exactly if its
   adapter returned and that enqueue landed, as failed exactly if the enqueue of a failure
   landed, and as nothing else.
   */
  lemma BrokerEventsAreOutcomes(ls: seq<Label>, a: ActionId)
    requires a in After(ls).actions && After(ls).actions[a].tool.BrokerCall?
    ensures Terminal(a, Completed) in After(ls).log <==> Runs.Occurs(After, ls, Effective((l: Label) => Finishes(l, a)))
    ensures Terminal(a, Failed) in After(ls).log <==> Runs.Occurs(After, ls, Effective((l: Label) => Fails(l, a)))
    ensures Terminal(a, Abandoned) !in After(ls).log && Terminal(a, InvalidCompletion) !in After(ls).log
  {
    OutcomeIsLogged(ls, (l: Label) => Finishes(l, a), Terminal(a, Completed));
    OutcomeIsLogged(ls, (l: Label) => Fails(l, a), Terminal(a, Failed));
    forall kind | Terminal(a, kind) in After(ls).log
      ensures kind.Completed? ==> Runs.Occurs(After, ls, Effective((l: Label) => Finishes(l, a)))
      ensures kind.Failed? ==> Runs.Occurs(After, ls, Effective((l: Label) => Fails(l, a)))
      ensures kind.Completed? || kind.Failed?
    {
      var i := TerminalOutcome(ls, a, kind);
      assert kind.Completed? ==> Effective((l: Label) => Finishes(l, a))(After(ls[..i]), ls[i]);
      assert kind.Failed? ==> Effective((l: Label) => Fails(l, a))(After(ls[..i]), ls[i]);
    }
  }

  /**
   What a local tool's terminal events mean: completed and failed are the guest's own
   report, abandoned and invalid completions the enqueue of that event.
   */
  lemma LocalEventsAreOutcomes(ls: seq<Label>, a: ActionId)
    requires a in After(ls).actions && After(ls).actions[a].tool.LocalTool?
    ensures Terminal(a, Completed) in After(ls).log <==> Runs.Occurs(After, ls, Effective((l: Label) => Reports(l, a, Completed)))
    ensures Terminal(a, Failed) in After(ls).log <==> Runs.Occurs(After, ls, Effective((l: Label) => Reports(l, a, Failed)))
    ensures Terminal(a, Abandoned) in After(ls).log <==> Runs.Occurs(After, ls, Effective((l: Label) => Abandons(l, a)))
    ensures Terminal(a, InvalidCompletion) in After(ls).log <==> Runs.Occurs(After, ls, Effective((l: Label) => Invalidates(l, a)))
  {
    OutcomeIsLogged(ls, (l: Label) => Reports(l, a, Completed), Terminal(a, Completed));
    OutcomeIsLogged(ls, (l: Label) => Reports(l, a, Failed), Terminal(a, Failed));
    OutcomeIsLogged(ls, (l: Label) => Abandons(l, a), Terminal(a, Abandoned));
    OutcomeIsLogged(ls, (l: Label) => Invalidates(l, a), Terminal(a, InvalidCompletion));
    forall kind | Terminal(a, kind) in After(ls).log
      ensures kind.Completed? || kind.Failed? ==> Runs.Occurs(After, ls, Effective((l: Label) => Reports(l, a, kind)))
      ensures kind.Abandoned? ==> Runs.Occurs(After, ls, Effective((l: Label) => Abandons(l, a)))
      ensures kind.InvalidCompletion? ==> Runs.Occurs(After, ls, Effective((l: Label) => Invalidates(l, a)))
    {
      var i := TerminalOutcome(ls, a, kind);
      assert kind.Completed? || kind.Failed? ==> Effective((l: Label) => Reports(l, a, kind))(After(ls[..i]), ls[i]);
      assert kind.Abandoned? ==> Effective((l: Label) => Abandons(l, a))(After(ls[..i]), ls[i]);
      assert kind.InvalidCompletion? ==> Effective((l: Label) => Invalidates(l, a))(After(ls[..i]), ls[i]);
    }
  }

  // ---------------------------------------------------------------------------
  // What a local tool's terminal events need

  /** A completion frame that names the action arrived. */
  predicate Answers(l: Label, a: ActionId) {
    l == Receive(a, Matching)
  }

  /** The host stopped waiting: the connection is gone, or the authorization could not be written. */
  predicate GivesUp(l: Label, a: ActionId) {
    l == Receive(a, Gone) || l == Authorize(a, false)
  }

  /** A malformed or mismatched completion frame, a report that failed, or one whose reply cannot be sent. */
  predicate Breaks(l: Label, a: ActionId) {
    l == Receive(a, Malformed) || l == Receive(a, Mismatched)
    || (l.AuditReport? && l.a == a && !(l.e.Committed? && l.fits))
  }

  /** Where the handler stands, one of these events is imminent. */
  predicate AboutTo(act: Action, kind: TerminalKind) {
    match kind
    case Abandoned => act.pc.Abandoning?
    case InvalidCompletion => act.pc.Invalidating? || act.pc.Late? || (act.pc.Reported? && !act.pc.ok)
    case _ => act.tool.LocalTool? && (act.pc.Reporting? || act.pc.Reported?)
  }

  predicate Prepares(l: Label, a: ActionId, kind: TerminalKind) {
    match kind
    case Abandoned => GivesUp(l, a)
    case InvalidCompletion => Breaks(l, a)
    case _ => Answers(l, a)
  }

  /** The action keeps its tool, and the position is reached only so, or was the handler's already. */
  ghost predicate Prepared(s: State, l: Label, kind: TerminalKind)
    requires Enabled(s, l) && MovesAction(l)
  {
    && (l.a in s.actions ==> NextAction(s, l).tool == s.actions[l.a].tool)
    && (AboutTo(NextAction(s, l), kind) ==>
          Prepares(l, l.a, kind) || (l.a in s.actions && AboutTo(s.actions[l.a], kind)))
  }

  lemma AdmissionPrepares(s: State, l: Label, kind: TerminalKind)
    requires Enabled(s, l) && (l.Arrive? || l.AuditRefusal? || l.Reject? || l.AuditStart? || l.Deliver?)
    ensures Prepared(s, l, kind)
  {
  }

  lemma ExecutionPrepares(s: State, l: Label, kind: TerminalKind)
    requires Enabled(s, l) && (l.Execute? || l.Authorize? || l.GuestStart? || l.GuestStop?)
    ensures Prepared(s, l, kind)
  {
  }

  lemma FinishPrepares(s: State, a: ActionId, ok: bool, e: Enqueue, kind: TerminalKind)
    requires Enabled(s, Finish(a, ok, e))
    ensures Prepared(s, Finish(a, ok, e), kind)
  {
  }

  lemma EnqueuePrepares(s: State, l: Label, kind: TerminalKind)
    requires Enabled(s, l) && (l.AuditFailure? || l.AuditInvalid? || l.AuditAbandon?)
    ensures Prepared(s, l, kind)
  {
  }

  lemma ReceivePrepares(s: State, a: ActionId, reply: Reply, kind: TerminalKind)
    requires Enabled(s, Receive(a, reply))
    ensures Prepared(s, Receive(a, reply), kind)
  {
    assert NextAction(s, Receive(a, reply)) == Received(s.actions[a], reply);
  }

  lemma ReportPrepares(s: State, l: Label, kind: TerminalKind)
    requires Enabled(s, l) && (l.AuditReport? || l.AuditLate? || l.Release?)
    ensures Prepared(s, l, kind)
  {
  }

  lemma MoverPrepares(s: State, l: Label, kind: TerminalKind)
    requires Enabled(s, l) && MovesAction(l)
    ensures Prepared(s, l, kind)
  {
    if l.Receive? {
      ReceivePrepares(s, l.a, l.reply, kind);
    } else if l.AuditReport? || l.AuditLate? || l.Release? {
      ReportPrepares(s, l, kind);
    } else if l.Finish? {
      FinishPrepares(s, l.a, l.ok, l.e, kind);
    } else if l.AuditFailure? || l.AuditInvalid? || l.AuditAbandon? {
      EnqueuePrepares(s, l, kind);
    } else if l.Execute? || l.Authorize? || l.GuestStart? || l.GuestStop? {
      ExecutionPrepares(s, l, kind);
    } else {
      AdmissionPrepares(s, l, kind);
    }
  }

  /** The event of a local tool is imminent or in the log. */
  ghost predicate Faces(s: State, a: ActionId, kind: TerminalKind) {
    && a in s.actions && s.actions[a].tool.LocalTool?
    && (AboutTo(s.actions[a], kind) || Terminal(a, kind) in s.log)
  }

  /** An action has its events from its arrival on. */
  lemma EventsHaveActions(s: State, a: ActionId, kind: TerminalKind)
    requires Inv(s) && Terminal(a, kind) in s.log
    ensures a in s.actions
  {
    var j: nat :| j < |s.log| && s.log[j] == Terminal(a, kind);
    assert j in Terminals(s.log, a);
  }

  /** A terminal event of a local tool in the next log is in this one, or was imminent. */
  lemma EventNeeds(s: State, l: Label, a: ActionId, kind: TerminalKind)
    requires Inv(s) && Terminal(a, kind) in Next(s, l).log
    requires a in Next(s, l).actions && Next(s, l).actions[a].tool.LocalTool?
    ensures Faces(s, a, kind)
  {
    if Terminal(a, kind) in s.log {
      EventsHaveActions(s, a, kind);
    } else {
      LogStep(s, l, Terminal(a, kind));
      OutcomeHasTool(s, l, a, kind);
    }
    ToolStays(s, l, a);
  }

  lemma FacingNeeds(s: State, l: Label, a: ActionId, kind: TerminalKind)
    requires Inv(s) && Faces(Next(s, l), a, kind)
    ensures Faces(s, a, kind) || (Enabled(s, l) && Prepares(l, a, kind))
  {
    if Terminal(a, kind) in Next(s, l).log {
      EventNeeds(s, l, a, kind);
    } else if Enabled(s, l) {
      NextShape(s, l);
      if MovesAction(l) && l.a == a {
        MoverPrepares(s, l, kind);
        if a in s.actions {
          ToolStays(s, l, a);
        }
      }
    }
  }

  /**
   A local tool is reported completed or failed only after a completion frame that names
   it, abandoned only after the host stopped waiting, and as an invalid completion only
   after a malformed or mismatched frame, a report that failed or an unsendable reply.
   */
  lemma LocalEventsHaveCauses(ls: seq<Label>, a: ActionId, kind: TerminalKind)
    requires a in After(ls).actions && After(ls).actions[a].tool.LocalTool?
    ensures Terminal(a, kind) in After(ls).log ==> Runs.Occurs(After, ls, Effective((l: Label) => Prepares(l, a, kind)))
  {
    var fact, on := (s: State) => Faces(s, a, kind), Effective((l: Label) => Prepares(l, a, kind));
    forall init: seq<Label>, l: Label ensures Runs.Needs(After, fact, on, init, l) {
      InvAlongRuns(init);
      Extend(init, l);
      if Faces(After(init + [l]), a, kind) {
        FacingNeeds(After(init), l, a, kind);
      }
    }
    Runs.FactNeeds(After, fact, on, ls);
  }

  // ---------------------------------------------------------------------------
  // Refusals

  ghost function DenialsOf(s: State, a: ActionId): nat {
    multiset(s.log)[Denied(a)]
  }

  /** A refused action logs its refusal once and nothing else. */
  ghost predicate RefusalInv(s: State, a: ActionId) {
    && DenialsOf(s, a) <= 1
    && (a !in s.actions ==> DenialsOf(s, a) == 0)
    && (a in s.actions && DenialsOf(s, a) > 0 ==>
          (s.actions[a].pc.Releasing? || s.actions[a].pc.Ended?) && Starts(s.log, a) == {} && Terminals(s.log, a) == {})
  }

  /** Other handlers leave the refusals, starts and terminal events of the action alone. */
  lemma RefusalBystander(s: State, l: Label, a: ActionId)
    requires RefusalInv(s, a) && Enabled(s, l) && !(MovesAction(l) && l.a == a)
    ensures RefusalInv(Next(s, l), a)
  {
    NextShape(s, l);
    LogStep(s, l, Denied(a));
    RowKinds(l, a);
    ExtendedPositions(s.log, Row(l), a);
    assert !Lands(l, Denied(a));
  }

  lemma RefusalKeeps(s: State, l: Label, a: ActionId)
    requires Inv(s) && RefusalInv(s, a)
    ensures RefusalInv(Next(s, l), a)
  {
    if Enabled(s, l) {
      if MovesAction(l) && l.a == a {
        RefusalMover(s, l);
      } else {
        RefusalBystander(s, l, a);
      }
    }
  }

  /** The refusal is logged at the handler's last position but one; a refused handler only releases. */
  lemma RefusalMover(s: State, l: Label)
    requires Inv(s) && Enabled(s, l) && MovesAction(l) && RefusalInv(s, l.a)
    ensures RefusalInv(Next(s, l), l.a)
  {
    var a := l.a;
    NextShape(s, l);
    LogStep(s, l, Denied(a));
    RowKinds(l, a);
    ExtendedPositions(s.log, Row(l), a);
    if a in s.actions {
      assert ActionInv(s.log, s.sunk, a, s.actions[a]);
      if l.AuditRefusal? {
        RefusalIsFirst(s, l);
      } else if DenialsOf(s, a) > 0 {
        RefusedReleases(s, l);
      }
    } else {
      assert l.Arrive?;
    }
  }

  lemma RefusalIsFirst(s: State, l: Label)
    requires Inv(s) && Enabled(s, l) && l.AuditRefusal? && RefusalInv(s, l.a)
    ensures DenialsOf(s, l.a) == 0 && Starts(s.log, l.a) == {} && Terminals(s.log, l.a) == {}
    ensures NextAction(s, l).pc.Releasing? || NextAction(s, l).pc.Ended?
  {
    assert ActionInv(s.log, s.sunk, l.a, s.actions[l.a]);
  }

  lemma RefusedReleases(s: State, l: Label)
    requires Inv(s) && Enabled(s, l) && MovesAction(l) && l.a in s.actions && RefusalInv(s, l.a) && DenialsOf(s, l.a) > 0
    ensures l.Release? && NextAction(s, l).pc.Ended?
  {
    assert ActionInv(s.log, s.sunk, l.a, s.actions[l.a]);
    assert |Starts(s.log, l.a)| == 0;
    assert !s.actions[l.a].cleared;
  }

  /**
   A refused action whose enqueue lands has exactly one row in the log, the refusal; an
   action none of whose refusals landed has none.
   */
  lemma RefusalIsLoggedOnce(ls: seq<Label>, a: ActionId)
    ensures var log := After(ls).log;
      if Runs.Occurs(After, ls, Effective((l: Label) => Refuses(l, a)))
      then multiset(log)[Denied(a)] == 1 && Starts(log, a) == {} && Terminals(log, a) == {}
      else Denied(a) !in log
  {
    LogIsOutcomes(ls, Denied(a));
    OccursAlike(ls, (l: Label) => Refuses(l, a), (l: Label) => Lands(l, Denied(a)));
    RefusalAlongRuns(ls, a);
    InvAlongRuns(ls);
  }

  lemma OccursAlike(ls: seq<Label>, on: Label -> bool, also: Label -> bool)
    requires forall l :: on(l) <==> also(l)
    ensures Runs.Occurs(After, ls, Effective(on)) <==> Runs.Occurs(After, ls, Effective(also))
  {
    if i :| 0 <= i < |ls| && Effective(on)(After(ls[..i]), ls[i]) {
      assert Effective(also)(After(ls[..i]), ls[i]);
    }
    if i :| 0 <= i < |ls| && Effective(also)(After(ls[..i]), ls[i]) {
      assert Effective(on)(After(ls[..i]), ls[i]);
    }
  }

  lemma {:induction false} RefusalAlongRuns(ls: seq<Label>, a: ActionId)
    ensures RefusalInv(After(ls), a)
  {
    if ls != [] {
      var init, last := ls[..|ls| - 1], ls[|ls| - 1];
      assert ls == init + [last];
      RefusalAlongRuns(init, a);
      InvAlongRuns(init);
      Extend(init, last);
      RefusalKeeps(After(init), last, a);
    }
  }

  // ---------------------------------------------------------------------------
  // What the history fields, the acknowledged prefix and the capture stand for

  /** What happened to an action. */
  datatype Fate =
    | Ran
    | WasCleared
    | WasAbandoned
    | WasLate(cause: LateCause)

  predicate Has(act: Action, fate: Fate) {
    match fate
    case Ran => act.ran
    case WasCleared => act.cleared
    case WasAbandoned => act.gone
    case WasLate(cause) => act.late == Some(cause) || act.pc == Reported(false, cause)
  }

  ghost predicate Fated(s: State, a: ActionId, fate: Fate) {
    a in s.actions && Has(s.actions[a], fate)
  }

  /** The label that seals the fate. */
  predicate Seals(l: Label, a: ActionId, fate: Fate) {
    match fate
    case Ran => l == Execute(a) || l == GuestStart(a)
    case WasCleared => l.Deliver? && l.a == a && l.ok
    case WasAbandoned => GivesUp(l, a)
    case WasLate(cause) =>
      match cause
      case MismatchedReply => l == Receive(a, Mismatched)
      case ReportFailed => l.AuditReport? && l.a == a && !l.e.Committed?
      case ReplyUnframeable => l.AuditReport? && l.a == a && l.e.Committed? && !l.fits
  }

  ghost predicate SealedBy(s: State, l: Label, fate: Fate)
    requires Enabled(s, l) && MovesAction(l)
  {
    Has(NextAction(s, l), fate) <==> Fated(s, l.a, fate) || Seals(l, l.a, fate)
  }

  /** Positions whose history is still open. */
  predicate StartsUnfated(act: Action) {
    (act.pc.Recorded? ==> !act.cleared) && (Holds(act.pc) ==> act.late.None?)
  }

  lemma AdmissionSeals(s: State, l: Label, fate: Fate)
    requires l.Arrive? || l.AuditRefusal? || l.Reject? || l.AuditStart? || l.Deliver?
    requires Enabled(s, l) && (l.a in s.actions ==> StartsUnfated(s.actions[l.a]))
    ensures SealedBy(s, l, fate)
  {
  }

  lemma ExecutionSeals(s: State, l: Label, fate: Fate)
    requires Enabled(s, l) && MovesAction(l) && l.a in s.actions && StartsUnfated(s.actions[l.a])
    requires l.Execute? || l.Authorize? || l.GuestStart? || l.GuestStop?
    ensures SealedBy(s, l, fate)
  {
  }

  lemma EnqueueSeals(s: State, l: Label, fate: Fate)
    requires Enabled(s, l) && MovesAction(l) && l.a in s.actions && StartsUnfated(s.actions[l.a])
    requires l.Finish? || l.AuditFailure? || l.AuditInvalid? || l.AuditAbandon?
    ensures SealedBy(s, l, fate)
  {
  }

  lemma ReceiveSeals(s: State, a: ActionId, reply: Reply, fate: Fate)
    requires Enabled(s, Receive(a, reply)) && StartsUnfated(s.actions[a])
    ensures SealedBy(s, Receive(a, reply), fate)
  {
    assert NextAction(s, Receive(a, reply)) == Received(s.actions[a], reply);
  }

  lemma ReportSeals(s: State, l: Label, fate: Fate)
    requires Enabled(s, l) && (l.AuditReport? || l.AuditLate?) && StartsUnfated(s.actions[l.a])
    ensures SealedBy(s, l, fate)
  {
  }

  lemma ReleaseSeals(s: State, l: Label, fate: Fate)
    requires Enabled(s, l) && l.Release? && StartsUnfated(s.actions[l.a])
    ensures SealedBy(s, l, fate)
  {
  }

  lemma MoverSeals(s: State, l: Label, fate: Fate)
    requires Enabled(s, l) && MovesAction(l) && (l.a in s.actions ==> StartsUnfated(s.actions[l.a]))
    ensures SealedBy(s, l, fate)
  {
    if l.Receive? {
      ReceiveSeals(s, l.a, l.reply, fate);
    } else if l.AuditReport? || l.AuditLate? {
      ReportSeals(s, l, fate);
    } else if l.Release? {
      ReleaseSeals(s, l, fate);
    } else if l.Finish? || l.AuditFailure? || l.AuditInvalid? || l.AuditAbandon? {
      EnqueueSeals(s, l, fate);
    } else if l.Execute? || l.Authorize? || l.GuestStart? || l.GuestStop? {
      ExecutionSeals(s, l, fate);
    } else {
      AdmissionSeals(s, l, fate);
    }
  }

  lemma FateBystander(s: State, l: Label, a: ActionId, fate: Fate)
    requires Enabled(s, l) && !(MovesAction(l) && l.a == a)
    ensures Fated(Next(s, l), a, fate) <==> Fated(s, a, fate)
    ensures !Seals(l, a, fate)
  {
    NextShape(s, l);
  }

  lemma StandsUnfated(s: State, a: ActionId)
    requires Inv(s) && a in s.actions
    ensures StartsUnfated(s.actions[a])
  {
    assert ActionInv(s.log, s.sunk, a, s.actions[a]);
  }

  lemma FateMover(s: State, l: Label, fate: Fate)
    requires Enabled(s, l) && MovesAction(l) && (l.a in s.actions ==> StartsUnfated(s.actions[l.a]))
    ensures Fated(Next(s, l), l.a, fate) <==> Fated(s, l.a, fate) || Seals(l, l.a, fate)
  {
    NextShape(s, l);
    MoverSeals(s, l, fate);
    assert SealedBy(s, l, fate);
  }

  lemma FateStep(s: State, l: Label, a: ActionId, fate: Fate)
    requires Inv(s)
    ensures Fated(Next(s, l), a, fate) <==> Fated(s, a, fate) || (Enabled(s, l) && Seals(l, a, fate))
  {
    if Enabled(s, l) {
      if MovesAction(l) && l.a == a {
        if a in s.actions {
          StandsUnfated(s, a);
        }
        FateMover(s, l, fate);
      } else {
        FateBystander(s, l, a, fate);
      }
    }
  }

  /**
   The history of an action is what happened in the run: it ran exactly if its adapter or
   its guest was started, was cleared exactly if the delivery of its start succeeded, was
   given up exactly if the host stopped waiting, and each cause of lateness is the outcome
   of that name.
   */
  lemma FateIsSealed(ls: seq<Label>, a: ActionId, fate: Fate)
    ensures Fated(After(ls), a, fate) <==> Runs.Occurs(After, ls, Effective((l: Label) => Seals(l, a, fate)))
  {
    var fact, on := (s: State) => Fated(s, a, fate), Effective((l: Label) => Seals(l, a, fate));
    forall init: seq<Label>, l: Label ensures Runs.Arises(After, fact, on, init, l) {
      InvAlongRuns(init);
      Extend(init, l);
      FateStep(After(init), l, a, fate);
    }
    Runs.FactIsHistory(After, fact, on, ls);
  }

  /** Only an enqueue of the start that returned normally leads on to execution. */
  ghost predicate StartReturned(s: State, a: ActionId) {
    a in s.actions && (s.actions[a].pc.Recorded? || s.actions[a].cleared)
  }

  lemma ExecutionNeedsStart(ls: seq<Label>, a: ActionId)
    requires a in After(ls).actions && After(ls).actions[a].ran
    ensures Runs.Occurs(After, ls, Effective((l: Label) => l == AuditStart(a, Committed)))
    ensures Runs.Occurs(After, ls, Effective((l: Label) => Seals(l, a, WasCleared)))
  {
    FateIsSealed(ls, a, WasCleared);
    InvAlongRuns(ls);
    var s := After(ls);
    assert ActionInv(s.log, s.sunk, a, s.actions[a]);
    var fact, on := (s: State) => StartReturned(s, a), Effective((l: Label) => l == AuditStart(a, Committed));
    forall init: seq<Label>, l: Label ensures Runs.Needs(After, fact, on, init, l) {
      InvAlongRuns(init);
      Extend(init, l);
      StartReturnedStep(After(init), l, a);
    }
    Runs.FactNeeds(After, fact, on, ls);
  }

  lemma StartReturnedStep(s: State, l: Label, a: ActionId)
    requires Inv(s)
    ensures StartReturned(Next(s, l), a) ==> StartReturned(s, a) || (Enabled(s, l) && l == AuditStart(a, Committed))
  {
    if Enabled(s, l) {
      NextShape(s, l);
      if a in s.actions {
        assert ActionInv(s.log, s.sunk, a, s.actions[a]);
        if MovesAction(l) && l.a == a {
          StartReturnedMover(s, l);
        }
      }
    }
  }

  lemma FromAdmission(s: State, l: Label)
    requires Enabled(s, l) && (l.AuditRefusal? || l.Reject? || l.AuditStart?)
    ensures NextAction(s, l).pc.Recorded? ==> l == AuditStart(l.a, Committed)
  {
  }

  /** A handler gets to this position only from its admission: every step uses up part of what is left. */
  lemma StartReturnedMover(s: State, l: Label)
    requires Enabled(s, l) && MovesAction(l) && l.a in s.actions && StartsUnfated(s.actions[l.a])
    ensures NextAction(s, l).pc.Recorded? || NextAction(s, l).cleared
        ==> StartReturned(s, l.a) || l == AuditStart(l.a, Committed)
  {
    MoverUsesUp(s, l);
    MoverSeals(s, l, WasCleared);
    if l.AuditRefusal? || l.Reject? || l.AuditStart? {
      FromAdmission(s, l);
    } else {
      assert UsesUp(s, l) && SealedBy(s, l, WasCleared);
      assert MovesHandler(l) ==> s.actions[l.a].pc != Admitted;
    }
  }

  /** A row is acknowledged exactly if a delivery that reached past it occurred. */
  lemma AcknowledgedIsDelivered(ls: seq<Label>, i: nat)
    ensures i < After(ls).sunk <==>
      Runs.Occurs(After, ls, Effective((l: Label) => (l.Deliver? || l.Drain?) && i < l.upTo))
  {
    var fact, on := (s: State) => i < s.sunk, Effective((l: Label) => (l.Deliver? || l.Drain?) && i < l.upTo);
    forall init: seq<Label>, l: Label ensures Runs.Arises(After, fact, on, init, l) {
      Extend(init, l);
      if Enabled(After(init), l) {
        NextShape(After(init), l);
      }
    }
    Runs.FactIsHistory(After, fact, on, ls);
  }

  /** How far a capture is. */
  datatype Stage = Closed | Drained | TailRead | HasImage | Committing

  predicate Reached(c: Capture, stage: Stage) {
    match stage
    case Closed => !c.Idle?
    case Drained => InBody(c)
    case TailRead => c.CutRead? || c.Imaged? || c.Stored?
    case HasImage => c.Imaged? || c.Stored?
    case Committing => c.Stored?
  }

  predicate Reaches(l: Label, stage: Stage) {
    match stage
    case Closed => l.CloseGate?
    case Drained => l.DrainDone?
    case TailRead => l.ReadTail?
    case HasImage => l.Image?
    case Committing => l.CommitSnapshot?
  }

  predicate EndsCapture(l: Label) {
    l.Reopen? || l.DrainTimeout?
  }

  lemma StageStep(s: State, l: Label, stage: Stage)
    ensures Reached(Next(s, l).capture, stage) <==>
      (Enabled(s, l) && Reaches(l, stage)) || (Reached(s.capture, stage) && !(Enabled(s, l) && EndsCapture(l)))
  {
    if Enabled(s, l) && MovesAction(l) {
      NextShape(s, l);
    }
  }

  /** A capture is at a stage or past it exactly since it got there, until it ends. */
  lemma StageIsSince(ls: seq<Label>, stage: Stage)
    ensures Reached(After(ls).capture, stage) <==>
      Runs.Since(After, ls, Effective((l: Label) => Reaches(l, stage)), Effective((l: Label) => EndsCapture(l)))
  {
    var fact := (s: State) => Reached(s.capture, stage);
    var on, off := Effective((l: Label) => Reaches(l, stage)), Effective((l: Label) => EndsCapture(l));
    forall init: seq<Label>, l: Label ensures Runs.Follows(After, fact, on, off, init, l) {
      Extend(init, l);
      StageStep(After(init), l, stage);
    }
    Runs.FactIsSince(After, fact, on, off, ls);
  }

  /** Every commit of a capture, and nothing else, stores a snapshot. */
  lemma SnapshotsAreCommits(ls: seq<Label>)
    ensures |After(ls).snapshots| == Runs.Times(After, ls, Effective((l: Label) => l.CommitSnapshot?))
  {
    var number: State -> nat := (s: State) => |s.snapshots|;
    var on := Effective((l: Label) => l.CommitSnapshot?);
    forall init: seq<Label>, l: Label ensures Runs.Counts(After, number, on, init, l) {
      Extend(init, l);
      if Enabled(After(init), l) && MovesAction(l) {
        NextShape(After(init), l);
      }
    }
    Runs.NumberIsTimes(After, number, on, ls);
  }

  /** The tail was read at position `i` of the run, and that capture has not ended since. */
  ghost predicate ReadAt(ls: seq<Label>, i: nat, cut: nat) {
    && i < |ls| && ls[i].ReadTail? && Enabled(After(ls[..i]), ls[i]) && cut == |After(ls[..i]).log|
    && forall m :: i < m < |ls| ==> !(Enabled(After(ls[..m]), ls[m]) && EndsCapture(ls[m]))
  }

  /** The snapshot was committed at position `j`, by the capture that read the tail at `i`. */
  ghost predicate CommittedAt(ls: seq<Label>, i: nat, j: nat, snap: Snapshot) {
    && j < |ls| && ls[j].CommitSnapshot? && Enabled(After(ls[..j]), ls[j]) && ReadAt(ls[..j], i, snap.resumeSeq)
    && snap.logAtCommit == |After(ls[..j]).log|
  }

  predicate HasRead(c: Capture) {
    c.CutRead? || c.Imaged?
  }

  lemma ReadStays(init: seq<Label>, l: Label, i: nat, cut: nat)
    requires ReadAt(init, i, cut) && !(Enabled(After(init), l) && EndsCapture(l))
    ensures ReadAt(init + [l], i, cut)
  {
    var ls := init + [l];
    assert forall m :: 0 <= m < |init| ==> ls[..m] == init[..m] && ls[m] == init[m];
    assert ls[..|init|] == init;
  }

  lemma TailStep(s: State, l: Label)
    ensures var t := Next(s, l);
      && (HasRead(t.capture) && Enabled(s, l) && !l.ReadTail? ==>
            HasRead(s.capture) && t.capture.cut == s.capture.cut && !EndsCapture(l))
      && (Enabled(s, l) && l.ReadTail? ==> t.capture == CutRead(|s.log|))
  {
    if Enabled(s, l) && MovesAction(l) {
      NextShape(s, l);
    }
  }

  lemma {:induction false} CutIsRead(ls: seq<Label>)
    requires HasRead(After(ls).capture)
    ensures exists i :: ReadAt(ls, i, After(ls).capture.cut)
    decreases |ls|
  {
    assert ls != [];
    var init, l := ls[..|ls| - 1], ls[|ls| - 1];
    assert ls == init + [l] && ls[..|init|] == init;
    Extend(init, l);
    TailStep(After(init), l);
    if Enabled(After(init), l) && l.ReadTail? {
      assert ReadAt(ls, |init|, After(ls).capture.cut);
    } else {
      CutIsRead(init);
      var i :| ReadAt(init, i, After(init).capture.cut);
      ReadStays(init, l, i, After(init).capture.cut);
    }
  }

  lemma CommitStep(s: State, l: Label)
    ensures var t := Next(s, l);
      if Enabled(s, l) && l.CommitSnapshot? then
        HasRead(s.capture) && |t.snapshots| == |s.snapshots| + 1 && t.snapshots[..|s.snapshots|] == s.snapshots
        && t.snapshots[|s.snapshots|].resumeSeq == s.capture.cut && t.snapshots[|s.snapshots|].logAtCommit == |s.log|
      else t.snapshots == s.snapshots
  {
    if Enabled(s, l) && MovesAction(l) {
      NextShape(s, l);
    }
  }

  /**
   Every snapshot was committed by some step of the run, its suspension point is the length
   of the log when the same capture read the tail, and its last field the length of the log
   at the commit.
   */
  lemma {:induction false} SnapshotsAreReadThenCommitted(ls: seq<Label>, k: nat)
    requires k < |After(ls).snapshots|
    ensures exists i: nat, j: nat :: CommittedAt(ls, i, j, After(ls).snapshots[k])
    decreases |ls|
  {
    assert ls != [];
    var init, l := ls[..|ls| - 1], ls[|ls| - 1];
    assert ls == init + [l] && ls[..|init|] == init;
    Extend(init, l);
    CommitStep(After(init), l);
    var snap := After(ls).snapshots[k];
    if k == |After(init).snapshots| {
      CutIsRead(init);
      var i: nat :| ReadAt(init, i, After(init).capture.cut);
      assert CommittedAt(ls, i, |init|, snap);
    } else {
      SnapshotsAreReadThenCommitted(init, k);
      var i: nat, j: nat :| CommittedAt(init, i, j, snap);
      assert ls[..j] == init[..j] && ls[j] == init[j];
      assert CommittedAt(ls, i, j, snap);
    }
  }
}
