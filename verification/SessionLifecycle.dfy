/**
 The status table of a session and the class that enforces it.
 */
module SessionStatus {

  datatype Status = Pending | Booting | Ready | Active | Suspended | Terminating | Terminated | Failed

  /** `TRANSITIONS`: where each status may go. */
  function Transitions(s: Status): (r: set<Status>) {
    match s
    case Pending => {Booting, Terminating, Failed}
    case Booting => {Ready, Terminating, Failed}
    case Ready => {Active, Terminating, Failed}
    case Active => {Suspended, Terminating, Failed}
    case Suspended => {Active, Terminating, Failed}
    case Terminating => {Terminated}
    case Terminated => {}
    case Failed => {}
  }

  predicate IsTerminal(s: Status) {
    s.Terminated? || s.Failed?
  }

  /**
   The table by target: every status but the last three can fail and be terminated, only a
   terminating session is terminated, and the others follow one another in one order.
   */
  lemma TransitionsByTarget(from: Status, to: Status)
    ensures to in Transitions(from) <==>
      match to
      case Pending => false
      case Booting => from.Pending?
      case Ready => from.Booting?
      case Active => from.Ready? || from.Suspended?
      case Suspended => from.Active?
      case Terminating => !IsTerminal(from) && !from.Terminating?
      case Terminated => from.Terminating?
      case Failed => !IsTerminal(from) && !from.Terminating?
  {
  }

  /** Every step of the history is in the table. */
  ghost predicate LegalPath(history: seq<Status>) {
    && |history| > 0
    && forall i :: 0 <= i < |history| - 1 ==> history[i + 1] in Transitions(history[i])
  }

  /** Nothing follows a terminal status on a legal path. */
  lemma TerminalIsLast(history: seq<Status>, i: nat)
    requires LegalPath(history) && i < |history| && IsTerminal(history[i])
    ensures i == |history| - 1
  {
    assert i < |history| - 1 ==> history[i + 1] in Transitions(history[i]);
  }

  datatype TransitionEvent = TransitionEvent(source: Status, target: Status, legal: bool)

  /** A session's status; `events` are the emissions to the observer. */
  class SessionStateMachine {
    var status: Status
    var events: seq<TransitionEvent>
    ghost var history: seq<Status>

    ghost predicate Valid()
      reads this
    {
      LegalPath(history) && history[|history| - 1] == status
    }

    constructor (initial: Status)
      ensures Valid() && status == initial && events == [] && history == [initial]
    {
      status, events, history := initial, [], [initial];
    }

    /** Moves if the table allows it; an illegal request is observed and refused. */
    method Transition(to: Status) returns (moved: bool)
      requires Valid()
      modifies this
      ensures Valid()
      ensures moved <==> to in Transitions(old(status))
      ensures moved ==> status == to && history == old(history) + [to]
      ensures !moved ==> status == old(status) && history == old(history)
      ensures events == old(events) + [TransitionEvent(old(status), to, moved)]
    {
      moved := to in Transitions(status);
      events := events + [TransitionEvent(status, to, moved)];
      if moved {
        status := to;
        history := history + [to];
      }
    }
  }
}

/**
 The lifecycle of one session: creation, its start task, destruction and the two
 reconcilers, run by callers that hold the session lock one at a time, next to
 components that move the status between ready, active and suspended. Creation
 holds no lock: when its transaction reports an error, it destroys its sandbox and
 releases the transport beside whoever works on the row, if the row is there after
 all. Each external call can succeed, fail, or take effect and report an error;
 each transaction can commit, roll back, or commit and report an error; the process
 can die at any point and lose its in-memory maps.
 */
module SessionLifecycle {
  import opened Basics
  import opened SessionStatus
  import Runs

  datatype Reason = StartTimeout | DriverError | CleanupPending

  /** The lifecycle events committed to the audit log. */
  datatype AuditEvent = Create | MarkedReady | MarkedFailed | MarkedDestroyed

  /**
   How a call or transaction ends: reported done; an error and no effect; an error
   although it took effect; an error after the first of two effects. Where there is
   only one effect, the last two are the same.
   */
  datatype Outcome = Done | Failing | Unsure | Partial

  /** Who holds the session lock for a teardown. */
  datatype Op = Destroy | FailStart(reason: Reason) | Cleanup

  /** The external call or transaction that comes next. */
  datatype Stage = Erase | Revoke | Locate | Kill | Release | Finish | MarkPending

  datatype Section =
    | Free
    | Held(op: Op, stage: Stage, erased: bool, revoked: bool)

  /** The start task, which calls the driver outside the lock. */
  datatype Start = Queued | Booted | Returned | Broken(reason: Reason) | Over

  /** `create`, once its sandbox is prepared; `row` says that its transaction committed although it reported an error. */
  datatype Creation =
    | Preparing                 // the transaction is still to come
    | Standing                  // it was reported committed
    | Destroying(row: bool)     // it reported an error: the sandbox is about to be destroyed
    | Releasing(row: bool)      // the sandbox was destroyed: the transport is about to be released
    | Undone(row: bool)         // the undoing has ended, with or without success
    | Abandoned                 // the process died before the transaction

  /** The session row with its past statuses and its lifecycle audit events; no history means no row. */
  datatype Row = Row(status: Status, reason: Option<Reason>, history: seq<Status>, events: seq<AuditEvent>)

  const NO_ROW: Row := Row(Pending, None, [], [])
  const NEW_ROW: Row := Row(Booting, None, [Booting], [Create])

  /**
   What has happened: keys erased, token revoked, sandbox destroyed (the driver's
   `destroy` returned normally), transport released.
   */
  datatype World = World(erased: bool, revoked: bool, destroyed: bool, released: bool)

  /**
   The session row, the world, the transport binding (`open` while its row is there
   and `released_at` is null), the in-memory `#prepared` entry, the lock holder, the
   start task and the creation.
   */
  datatype State = State(row: Row, world: World, open: bool, prepared: bool,
                         section: Section, start: Start, creation: Creation)

  const INITIAL: State :=
    State(NO_ROW, World(false, false, false, false), false, false, Free, Over, Preparing)

  predicate Exists(s: State) {
    s.row.history != []
  }

  datatype Label =
    | Creates(o: Outcome)             // the transaction of `create`
    | Undo(o: Outcome)                // what `create` does after an error
    | StartCheck(o: Outcome)          // first lock section of the start task
    | DriverStarts(failure: Option<Reason>)
    | ReadySection(o: Outcome)        // second lock section: mark ready
    | FailSection                     // third lock section: begin to fail the start
    | BeginDestroy
    | ReconcileBooting
    | ReconcileCleanup
    | Advance(o: Outcome)             // the stage the lock holder is at
    | OtherMove(to: Status)           // another component activates, suspends or resumes
    | Die                             // the process dies

  predicate Happened(o: Outcome) {
    !o.Failing?
  }

  // ---------------------------------------------------------------------------
  // Committed changes of the session row, each with its audit event

  function Recorded(r: Row, to: Status, ev: seq<AuditEvent>): Row {
    r.(status := to, history := r.history + [to], events := r.events + ev)
  }

  predicate Nonterminal(s: Status) {
    s.Pending? || s.Booting? || s.Ready? || s.Active? || s.Suspended?
  }

  function MarkReady(r: Row): Row {
    if r.status.Booting? then Recorded(r, Ready, [MarkedReady]) else r
  }

  function MarkFailed(r: Row, reason: Reason): Row {
    if Nonterminal(r.status) then Recorded(r, Failed, [MarkedFailed]).(reason := Some(reason)) else r
  }

  /** Two updates in one transaction: to `terminating`, then to `terminated`. */
  function MarkTerminated(r: Row): Row {
    if Nonterminal(r.status) then Recorded(Recorded(r, Terminating, []), Terminated, [MarkedDestroyed]) else r
  }

  /** `failure_reason = NULL` once a failed session's cleanup has succeeded. */
  function ClearReason(r: Row): Row {
    if r.status.Failed? then r.(reason := None) else r
  }

  /** The final status of each teardown. */
  function Concluded(r: Row, op: Op): Row {
    match op
    case Destroy => MarkTerminated(r)
    case FailStart(reason) => MarkFailed(r, reason)
    case Cleanup => ClearReason(r)
  }

  // ---------------------------------------------------------------------------
  // Teardown, stage by stage

  /** The order of the external calls in each teardown. */
  function FirstStage(op: Op): Stage {
    match op case Destroy => Erase case FailStart(_) => Revoke case Cleanup => Locate
  }

  function Begin(s: State, op: Op): State {
    s.(section := Held(op, FirstStage(op), false, false))
  }

  function Unlocked(s: State): State {
    s.(section := Free)
  }

  function AtStage(s: State, stage: Stage): State
    requires s.section.Held?
  {
    s.(section := s.section.(stage := stage))
  }

  /** The teardown cannot complete now: it is marked for cleanup, or left as it is by the cleanup itself. */
  function GiveUp(s: State): State
    requires s.section.Held?
  {
    if s.section.op.Cleanup? then Unlocked(s) else AtStage(s, MarkPending)
  }

  function ErasedBy(s: State, o: Outcome): State
    requires s.section.Held?
  {
    s.(world := s.world.(erased := s.world.erased || Happened(o)),
       section := s.section.(stage := Revoke, erased := o.Done?))
  }

  function RevokedBy(s: State, o: Outcome): State
    requires s.section.Held?
  {
    s.(world := s.world.(revoked := s.world.revoked || Happened(o)),
       section := s.section.(stage := if s.section.op.Cleanup? then Kill else Locate, revoked := o.Done?))
  }

  /** `runtimeFor`: the in-memory entry, or an unreleased binding read from the database. */
  function Looked(s: State, o: Outcome): State
    requires s.section.Held?
  {
    if s.prepared || (s.open && o.Done?) then AtStage(s, if s.section.op.Cleanup? then Erase else Kill)
    else Unlocked(s)
  }

  /** Destroying the sandbox: the transport is released only if everything before it was reported done. */
  function Killed(s: State, o: Outcome): State
    requires s.section.Held?
  {
    var h := s.section;
    var t := s.(world := s.world.(destroyed := s.world.destroyed || o.Done?));
    if (h.op.FailStart? || h.erased) && h.revoked && o.Done? then AtStage(t, Release) else GiveUp(t)
  }

  /** The transport host first, then the binding row. */
  function Freed(s: State, o: Outcome): State
    requires s.section.Held?
  {
    var t := s.(world := s.world.(released := true));
    match o
    case Failing => GiveUp(s)
    case Partial => GiveUp(t)
    case Unsure => GiveUp(t.(open := false))
    case Done => AtStage(t.(open := false), Finish)
  }

  function Finished(s: State, o: Outcome): State
    requires s.section.Held?
  {
    if o.Failing? then Unlocked(s)
    else Unlocked(s).(row := Concluded(s.row, s.section.op), prepared := s.prepared && !o.Done?)
  }

  function Deferred(s: State, o: Outcome): State {
    if o.Failing? then Unlocked(s) else Unlocked(s).(row := MarkFailed(s.row, CleanupPending))
  }

  /** One stage of the teardown the lock holder is running. */
  function Stepped(s: State, o: Outcome): State
    requires s.section.Held?
  {
    match s.section.stage
    case Erase => ErasedBy(s, o)
    case Revoke => RevokedBy(s, o)
    case Locate => Looked(s, o)
    case Kill => Killed(s, o)
    case Release => Freed(s, o)
    case Finish => Finished(s, o)
    case MarkPending => Deferred(s, o)
  }

  // ---------------------------------------------------------------------------
  // Creation and the other steps

  /** Session, key, token and binding rows and the audit event, in one transaction. */
  function Created(s: State, o: Outcome): State {
    if o.Done? then s.(row := NEW_ROW, open := true, prepared := true, start := Queued, creation := Standing)
    else if Happened(o) then s.(row := NEW_ROW, open := true, creation := Destroying(true))
    else s.(creation := Destroying(false))
  }

  /** `destroyAndRelease`: neither the token nor the binding row is touched. */
  function UndoneBy(s: State, o: Outcome): State
    requires s.creation.Destroying? || s.creation.Releasing?
  {
    var c := s.creation;
    if c.Releasing? then
      s.(world := s.world.(released := s.world.released || Happened(o)), creation := Undone(c.row))
    else if o.Done? then s.(world := s.world.(destroyed := true), creation := Releasing(c.row))
    else s.(creation := Undone(c.row))
  }

  function Died(c: Creation): Creation {
    match c
    case Preparing => Abandoned
    case Destroying(row) => Undone(row)
    case Releasing(row) => Undone(row)
    case _ => c
  }

  predicate Enabled(s: State, l: Label) {
    match l
    case Creates(_) => s.creation.Preparing?
    case Undo(_) => s.creation.Destroying? || s.creation.Releasing?
    case StartCheck(_) => s.section.Free? && s.start.Queued?
    case DriverStarts(failure) => s.start.Booted? && failure != Some(CleanupPending)
    case ReadySection(_) => s.section.Free? && s.start.Returned?
    case FailSection => s.section.Free? && s.start.Broken?
    case BeginDestroy => s.section.Free? && Exists(s) && !IsTerminal(s.row.status)
    case ReconcileBooting => s.section.Free? && s.row.status.Booting?
    case ReconcileCleanup => s.section.Free? && s.row.status.Failed? && s.row.reason == Some(CleanupPending)
    case Advance(_) => s.section.Held?
    case OtherMove(to) =>
      to in Transitions(s.row.status) && (to.Active? || to.Suspended?)
    case Die => true
  }

  function Next(s: State, l: Label): State {
    if !Enabled(s, l) then s else
    match l
    case Creates(o) => Created(s, o)
    case Undo(o) => UndoneBy(s, o)
    case StartCheck(o) => s.(start := if o.Done? && s.row.status.Booting? then Booted else Over)
    case DriverStarts(failure) => s.(start := if failure.None? then Returned else Broken(failure.value))
    case ReadySection(o) =>
      s.(row := if o.Failing? then s.row else MarkReady(s.row), start := if o.Done? then Over else Broken(DriverError))
    case FailSection =>
      var t := s.(start := Over);
      if s.row.status.Booting? then Begin(t, FailStart(s.start.reason)) else t
    case BeginDestroy => Begin(s, Destroy)
    case ReconcileBooting => Begin(s, FailStart(StartTimeout))
    case ReconcileCleanup => Begin(s, Cleanup)
    case Advance(o) => Stepped(s, o)
    case OtherMove(to) => s.(row := Recorded(s.row, to, []))
    case Die => s.(section := Free, prepared := false, start := Over, creation := Died(s.creation))
  }

  ghost function After(ls: seq<Label>): (s: State) {
    Runs.Exec(Next, INITIAL, ls)
  }

  // ---------------------------------------------------------------------------
  // The invariant

  /** What a change of status puts in the audit log. */
  function EventFor(s: Status): (r: seq<AuditEvent>) {
    match s
    case Booting => [Create]
    case Ready => [MarkedReady]
    case Failed => [MarkedFailed]
    case Terminated => [MarkedDestroyed]
    case _ => []
  }

  function EventsOf(history: seq<Status>): (r: seq<AuditEvent>) {
    if history == [] then [] else EventsOf(history[..|history| - 1]) + EventFor(history[|history| - 1])
  }

  /** The history is a legal path from `booting` to the status, and the audit log is its image. */
  ghost predicate Audited(r: Row) {
    && LegalPath(r.history) && r.history[0].Booting? && r.history[|r.history| - 1] == r.status
    && r.events == EventsOf(r.history)
  }

  ghost predicate RowInv(r: Row) {
    if r.history == [] then r == NO_ROW else Audited(r) && !r.status.Terminating? && !r.status.Pending?
  }

  /** The holder found the runtime and has not reported the transport released. */
  predicate Located(h: Section)
    requires h.Held?
  {
    h.stage.Kill? || h.stage.Release? || (h.op.Cleanup? && (h.stage.Erase? || h.stage.Revoke?))
  }

  /** What the lock holder has been told it achieved did happen. */
  ghost predicate HolderInv(h: Section, status: Status, w: World, findable: bool)
    requires h.Held?
  {
    && (h.erased ==> w.erased)
    && (h.revoked ==> w.revoked)
    && (h.stage.Release? || h.stage.Finish? ==> w.revoked && w.destroyed && (!h.op.FailStart? ==> w.erased))
    && (h.stage.Finish? ==> w.released)
    && (h.stage.MarkPending? ==> !h.op.Cleanup?)
    && (h.op.FailStart? ==> status.Booting? && !h.op.reason.CleanupPending?)
    && (h.op.Destroy? ==> Nonterminal(status))
    && (h.op.Cleanup? ==> status.Failed?)
    && (Located(h) ==> findable)
  }

  /** The runtime can be found: it is in memory, or its binding row is unreleased. */
  predicate Findable(s: State) {
    s.open || s.prepared
  }

  ghost predicate SectionInv(s: State) {
    s.section.Held? ==> HolderInv(s.section, s.row.status, s.world, Findable(s))
  }

  predicate HasRow(c: Creation) {
    c.Standing? || ((c.Destroying? || c.Releasing? || c.Undone?) && c.row)
  }

  /** The row is there exactly if its transaction committed; without it there is nothing to lock, start or tear down. */
  ghost predicate CreationInv(s: State) {
    && (Exists(s) <==> HasRow(s.creation))
    && (s.creation.Releasing? ==> s.world.destroyed)
    && (!Exists(s) ==> s.section.Free? && s.start.Over? && !Findable(s) && !s.world.erased && !s.world.revoked)
  }

  /** What each final status stands for. */
  ghost predicate StatusInv(r: Row, w: World) {
    && (r.status.Terminated? ==> w.erased && w.revoked && w.destroyed && w.released)
    && (r.status.Failed? && r.reason != Some(CleanupPending) ==> w.revoked && w.destroyed && w.released)
    && (r.status.Failed? && r.reason.None? ==> w.erased)
  }

  ghost predicate WorldInv(s: State) {
    && (s.world.released ==> s.world.destroyed && (s.world.revoked || s.creation.Undone?))
    && (Exists(s) && !s.open ==> s.world.released)
    && (s.start.Broken? ==> !s.start.reason.CleanupPending?)
  }

  ghost predicate TeardownInv(s: State) {
    SectionInv(s) && CreationInv(s) && StatusInv(s.row, s.world) && WorldInv(s)
  }

  ghost predicate Inv(s: State) {
    RowInv(s.row) && TeardownInv(s)
  }

  // ---------------------------------------------------------------------------
  // Every step keeps it

  /** Extending a history by a status the table allows. */
  lemma RecordedIsAudited(r: Row, to: Status)
    requires Audited(r) && to in Transitions(r.status)
    ensures Audited(Recorded(r, to, EventFor(to)))
  {
    var longer := r.history + [to];
    assert longer[..|r.history|] == r.history;
    assert forall i :: 0 <= i < |r.history| ==> longer[i] == r.history[i];
  }

  lemma MarksAreAudited(r: Row, op: Op, reason: Reason)
    requires RowInv(r) && r.history != []
    ensures RowInv(MarkReady(r)) && RowInv(MarkFailed(r, reason)) && RowInv(Concluded(r, op))
    ensures r.history <= MarkReady(r).history && r.history <= MarkFailed(r, reason).history
    ensures r.history <= Concluded(r, op).history
  {
    if r.status.Booting? {
      RecordedIsAudited(r, Ready);
    }
    FailedIsAudited(r, reason);
    match op
    case Destroy => TerminatedIsAudited(r);
    case FailStart(why) => FailedIsAudited(r, why);
    case Cleanup =>
  }

  lemma FailedIsAudited(r: Row, reason: Reason)
    requires RowInv(r) && r.history != []
    ensures RowInv(MarkFailed(r, reason)) && r.history <= MarkFailed(r, reason).history
  {
    if Nonterminal(r.status) {
      RecordedIsAudited(r, Failed);
    }
  }

  lemma TerminatedIsAudited(r: Row)
    requires RowInv(r) && r.history != []
    ensures RowInv(MarkTerminated(r)) && r.history <= MarkTerminated(r).history
  {
    if Nonterminal(r.status) {
      RecordedIsAudited(r, Terminating);
      RecordedIsAudited(Recorded(r, Terminating, []), Terminated);
    }
  }

  lemma FirstEntry()
    ensures Audited(NEW_ROW)
  {
    assert [Booting][..0] == [];
    assert EventsOf([Booting]) == EventsOf([]) + [Create];
  }

  /** Until the last stage the row is left alone. */
  predicate LeavesRow(l: Label, s: State) {
    && !l.Creates? && !l.ReadySection? && !l.OtherMove?
    && (l.Advance? && s.section.Held? ==> !s.section.stage.Finish? && !s.section.stage.MarkPending?)
  }

  /** The row is only ever extended. */
  ghost predicate Extends(r: Row, t: Row) {
    RowInv(t) && r.history <= t.history
  }

  lemma AdvanceExtends(s: State, o: Outcome)
    requires RowInv(s.row) && Exists(s) && s.section.Held? && (s.section.stage.Finish? || s.section.stage.MarkPending?)
    ensures Extends(s.row, Stepped(s, o).row)
  {
    MarksAreAudited(s.row, s.section.op, CleanupPending);
  }

  lemma OthersExtend(s: State, l: Label)
    requires RowInv(s.row) && Exists(s) && Enabled(s, l) && (l.ReadySection? || l.OtherMove?)
    ensures Extends(s.row, Next(s, l).row)
  {
    if l.ReadySection? {
      MarksAreAudited(s.row, Destroy, CleanupPending);
    } else {
      RecordedIsAudited(s.row, l.to);
    }
  }

  lemma RowKeeps(s: State, l: Label)
    requires Inv(s)
    ensures Extends(s.row, Next(s, l).row)
  {
    if !Enabled(s, l) || LeavesRow(l, s) {
      RowUntouched(s, l);
    } else if l.Creates? {
      FirstEntry();
    } else if l.Advance? {
      AdvanceExtends(s, l.o);
    } else {
      OthersExtend(s, l);
    }
  }

  lemma RowUntouched(s: State, l: Label)
    requires !Enabled(s, l) || LeavesRow(l, s)
    ensures Next(s, l).row == s.row
  {
  }

  lemma PrepareKeeps(s: State, o: Outcome)
    requires TeardownInv(s) && s.section.Held? && (s.section.stage.Erase? || s.section.stage.Revoke?)
    ensures TeardownInv(Stepped(s, o))
  {
    assert Stepped(s, o) == if s.section.stage.Erase? then ErasedBy(s, o) else RevokedBy(s, o);
  }

  lemma LocateKeeps(s: State, o: Outcome)
    requires TeardownInv(s) && s.section.Held? && s.section.stage.Locate?
    ensures TeardownInv(Looked(s, o))
  {
  }

  lemma KillKeeps(s: State, o: Outcome)
    requires TeardownInv(s) && s.section.Held? && s.section.stage.Kill?
    ensures TeardownInv(Killed(s, o))
  {
  }

  lemma ReleaseKeeps(s: State, o: Outcome)
    requires TeardownInv(s) && s.section.Held? && s.section.stage.Release?
    ensures TeardownInv(Freed(s, o))
  {
  }

  /** The final status finds everything its teardown is for already done. */
  lemma ConclusionStands(r: Row, op: Op, w: World)
    requires StatusInv(r, w) && w.revoked && w.destroyed && w.released && (!op.FailStart? ==> w.erased)
    requires op.FailStart? ==> !op.reason.CleanupPending?
    ensures StatusInv(Concluded(r, op), w)
  {
  }

  lemma DeferralStands(r: Row, w: World)
    requires StatusInv(r, w)
    ensures StatusInv(MarkFailed(r, CleanupPending), w)
  {
  }

  lemma LastStageKeeps(s: State, o: Outcome)
    requires Inv(s) && s.section.Held? && (s.section.stage.Finish? || s.section.stage.MarkPending?)
    ensures TeardownInv(Stepped(s, o))
  {
    AdvanceExtends(s, o);
    DeferralStands(s.row, s.world);
    if s.section.stage.Finish? {
      ConclusionStands(s.row, s.section.op, s.world);
    }
  }

  lemma CreationKeeps(s: State, l: Label)
    requires Inv(s) && Enabled(s, l) && (l.Creates? || l.Undo?)
    ensures TeardownInv(Next(s, l))
  {
  }

  /** A lock section begins on the status it was begun for. */
  lemma BeginKeeps(s: State, op: Op)
    requires TeardownInv(s) && Exists(s) && s.section.Free?
    requires op.FailStart? ==> s.row.status.Booting? && !op.reason.CleanupPending?
    requires op.Destroy? ==> Nonterminal(s.row.status)
    requires op.Cleanup? ==> s.row.status.Failed?
    ensures TeardownInv(Begin(s, op))
  {
  }

  lemma BeginningsKeep(s: State, l: Label)
    requires Inv(s) && Enabled(s, l)
    requires l.BeginDestroy? || l.ReconcileBooting? || l.ReconcileCleanup? || l.FailSection?
    ensures TeardownInv(Next(s, l))
  {
    match l
    case BeginDestroy => BeginKeeps(s, Destroy);
    case ReconcileBooting => BeginKeeps(s, FailStart(StartTimeout));
    case ReconcileCleanup => BeginKeeps(s, Cleanup);
    case FailSection =>
      var t := s.(start := Over);
      assert TeardownInv(t);
      if s.row.status.Booting? {
        BeginKeeps(t, FailStart(s.start.reason));
      }
  }

  /** The start task, other components and process death do not touch what was torn down. */
  lemma BystandersKeep(s: State, l: Label)
    requires Inv(s) && Enabled(s, l)
    requires l.StartCheck? || l.DriverStarts? || l.ReadySection? || l.OtherMove? || l.Die?
    ensures TeardownInv(Next(s, l))
  {
  }

  lemma StageKeeps(s: State, o: Outcome)
    requires Inv(s) && s.section.Held?
    ensures TeardownInv(Stepped(s, o))
  {
    match s.section.stage
    case Locate => LocateKeeps(s, o);
    case Kill => KillKeeps(s, o);
    case Release => ReleaseKeeps(s, o);
    case Finish => LastStageKeeps(s, o);
    case MarkPending => LastStageKeeps(s, o);
    case _ => PrepareKeeps(s, o);
  }

  lemma TeardownKeeps(s: State, l: Label)
    requires Inv(s) && Enabled(s, l)
    ensures TeardownInv(Next(s, l))
  {
    if l.Advance? {
      StageKeeps(s, l.o);
    } else if l.Creates? || l.Undo? {
      CreationKeeps(s, l);
    } else if l.BeginDestroy? || l.ReconcileBooting? || l.ReconcileCleanup? || l.FailSection? {
      BeginningsKeep(s, l);
    } else {
      BystandersKeep(s, l);
    }
  }

  lemma InvKeeps(s: State, l: Label)
    requires Inv(s)
    ensures Inv(Next(s, l))
  {
    RowKeeps(s, l);
    if Enabled(s, l) {
      TeardownKeeps(s, l);
    }
  }

  lemma InvAlongRuns(ls: seq<Label>)
    ensures Inv(After(ls))
  {
    forall s: State, l: Label | Inv(s) ensures Inv(Next(s, l)) {
      InvKeeps(s, l);
    }
    Runs.InvariantHolds(Next, (s: State) => Inv(s), INITIAL, ls);
  }

  // ---------------------------------------------------------------------------
  // What every run guarantees

  /**
   Over every interleaving and every pattern of failures: the transport is released
   only after the sandbox was destroyed and, unless a creation that reported an error
   released it, the token was revoked; a terminated session has its keys erased, its
   token revoked, its sandbox destroyed and its transport released; a failed session
   that is not waiting for cleanup has the last three, and after a cleanup all four.
   */
  lemma TeardownIsOrdered(ls: seq<Label>)
    ensures var s := After(ls); var w := s.world;
      && (w.released ==> w.destroyed && (w.revoked || s.creation.Undone?))
      && (s.row.status.Terminated? ==> w.erased && w.revoked && w.destroyed && w.released)
      && (s.row.status.Failed? && s.row.reason != Some(CleanupPending) ==> w.revoked && w.destroyed && w.released)
      && (s.row.status.Failed? && s.row.reason.None? ==> w.erased)
  {
    InvAlongRuns(ls);
  }

  /** The audit events of a lifecycle: creation, perhaps ready, perhaps one terminal event. */
  ghost predicate EventShape(events: seq<AuditEvent>, status: Status) {
    var ready, ending := [Create, MarkedReady], if status.Failed? then [MarkedFailed] else [MarkedDestroyed];
    match status
    case Pending => false
    case Booting => events == [Create]
    case Terminating => events == [Create] || events == ready
    case Terminated => events == [Create] + ending || events == ready + ending
    case Failed => events == [Create] + ending || events == ready + ending
    case _ => events == ready
  }

  lemma ShapeGrows(events: seq<AuditEvent>, from: Status, to: Status)
    requires EventShape(events, from) && to in Transitions(from)
    ensures EventShape(events + EventFor(to), to)
  {
    assert events + [] == events;
    assert [Create] + [MarkedReady] == [Create, MarkedReady];
  }

  lemma {:induction false} LegalPathsHaveShape(history: seq<Status>)
    requires LegalPath(history) && history[0].Booting?
    ensures EventShape(EventsOf(history), history[|history| - 1])
  {
    var n := |history| - 1;
    if n == 0 {
      assert history[..0] == [];
      assert EventsOf([]) + [Create] == [Create];
    } else {
      var before := history[..n];
      assert history[n] in Transitions(history[n - 1]);
      assert forall i :: 0 <= i < n ==> before[i] == history[i];
      LegalPathsHaveShape(before);
      ShapeGrows(EventsOf(before), history[n - 1], history[n]);
    }
  }

  /**
   Every session's status history is a legal path of the transition table from
   `booting` to its current status, a terminal status is never left, and the
   lifecycle events in the audit log are exactly those of that history: creation,
   at most one ready, at most one terminal event, each committed with its change.
   A session without a row has no events.
   */
  lemma HistoryIsLegalAndAudited(ls: seq<Label>, more: seq<Label>)
    ensures var s := After(ls); var r := s.row;
      if !Exists(s) then r.events == []
      else
        && LegalPath(r.history) && r.history[0].Booting? && r.history[|r.history| - 1] == r.status
        && r.events == EventsOf(r.history) && EventShape(r.events, r.status)
        && (IsTerminal(r.status) ==> Runs.Exec(Next, s, more).row.status == r.status)
  {
    InvAlongRuns(ls);
    var s := After(ls);
    if Exists(s) {
      LegalPathsHaveShape(s.row.history);
    }
    if IsTerminal(s.row.status) {
      TerminalAbsorbs(s, more);
    }
  }

  lemma TerminalStep(s: State, l: Label)
    requires Inv(s) && IsTerminal(s.row.status)
    ensures Next(s, l).row.status == s.row.status
  {
    RowKeeps(s, l);
    TerminalIsLast(Next(s, l).row.history, |s.row.history| - 1);
  }

  lemma {:induction false} TerminalAbsorbs(s: State, ls: seq<Label>)
    requires Inv(s) && IsTerminal(s.row.status)
    ensures Runs.Exec(Next, s, ls).row.status == s.row.status
    decreases |ls|
  {
    if ls != [] {
      InvKeeps(s, ls[0]);
      TerminalStep(s, ls[0]);
      TerminalAbsorbs(Next(s, ls[0]), ls[1..]);
    }
  }

  // ---------------------------------------------------------------------------
  // How a teardown ends

  /** What each stage of one teardown reports. */
  datatype Outcomes = Outcomes(erase: Outcome, revoke: Outcome, locate: Outcome, kill: Outcome,
                               release: Outcome, finish: Outcome, mark: Outcome)

  function Of(out: Outcomes, stage: Stage): Outcome {
    match stage
    case Erase => out.erase
    case Revoke => out.revoke
    case Locate => out.locate
    case Kill => out.kill
    case Release => out.release
    case Finish => out.finish
    case MarkPending => out.mark
  }

  /** How many stages are ahead of the holder at most. */
  function StagesLeft(h: Section): nat {
    if h.Free? then 0 else
    match h.stage
    case Finish => 1
    case MarkPending => 1
    case Release => 2
    case Kill => 3
    case Locate => if h.op.Cleanup? then 6 else 4
    case Revoke => if h.op.Cleanup? then 4 else 5
    case Erase => if h.op.Cleanup? then 5 else 6
  }

  /** Every stage brings the holder nearer to its end, whatever it reports. */
  lemma StageUsesUp(s: State, o: Outcome)
    requires s.section.Held?
    ensures StagesLeft(Next(s, Advance(o)).section) < StagesLeft(s.section)
  {
    assert Next(s, Advance(o)) == Stepped(s, o);
    match s.section.stage
    case Kill =>
    case Release =>
    case Locate =>
    case _ =>
  }

  /** The stages from the holder's position to the end of its teardown. */
  function Teardown(s: State, out: Outcomes): (ls: seq<Label>)
    decreases StagesLeft(s.section)
  {
    if s.section.Free? then []
    else
      var o := Of(out, s.section.stage);
      StageUsesUp(s, o);
      [Advance(o)] + Teardown(Next(s, Advance(o)), out)
  }

  /** The runtime is still to be looked up, and is neither in memory nor read from the database. */
  predicate Missing(s: State, out: Outcomes)
    requires s.section.Held?
  {
    var h := s.section;
    && (h.stage.Locate? || (!h.op.Cleanup? && (h.stage.Erase? || h.stage.Revoke?)))
    && !(s.prepared || (s.open && out.locate.Done?))
  }

  /** Every stage before the release is reported done, those behind the holder and those ahead of it. */
  predicate ReachesRelease(h: Section, out: Outcomes)
    requires h.Held?
  {
    var erased := h.op.FailStart? || h.erased;
    match h.stage
    case Erase => (h.op.FailStart? || out.erase.Done?) && out.revoke.Done? && out.kill.Done?
    case Revoke => erased && out.revoke.Done? && out.kill.Done?
    case Locate => if h.op.Cleanup? then out.erase.Done? && out.revoke.Done? && out.kill.Done?
                   else erased && h.revoked && out.kill.Done?
    case Kill => erased && h.revoked && out.kill.Done?
    case Release => true
    case _ => false
  }

  predicate AllDone(h: Section, out: Outcomes)
    requires h.Held?
  {
    h.stage.Finish? || (ReachesRelease(h, out) && out.release.Done?)
  }

  /** The row is marked failed, with its reason and its audit event. */
  predicate EndsFailed(r: Row, t: Row, reason: Reason) {
    t == Row(Failed, Some(reason), r.history + [Failed], r.events + [MarkedFailed])
  }

  /** What each teardown is for. */
  predicate Succeeds(op: Op, r: Row, t: Row) {
    match op
    case Destroy => t == Row(Terminated, r.reason, r.history + [Terminating] + [Terminated], r.events + [] + [MarkedDestroyed])
    case FailStart(reason) => EndsFailed(r, t, reason)
    case Cleanup => t == r.(reason := None)
  }

  /** How the teardown under way in `s` leaves the row, and what it leaves to be found. */
  predicate Ends(s: State, out: Outcomes, t: State)
    requires s.section.Held?
  {
    var h := s.section;
    var released := !Missing(s, out) && ReachesRelease(h, out) && (out.release.Done? || out.release.Unsure?);
    var concluded := !Missing(s, out) && AllDone(h, out);
    && t.section.Free?
    && (t.open <==> s.open && !released)
    && (t.prepared <==> s.prepared && !(concluded && out.finish.Done?))
    && if concluded then (if out.finish.Failing? then t.row == s.row else Succeeds(h.op, s.row, t.row))
       else if Missing(s, out) || h.op.Cleanup? || out.mark.Failing? then t.row == s.row
       else EndsFailed(s.row, t.row, CleanupPending)
  }

  /** A stage that does not end the teardown leaves its end as foreseen. */
  ghost predicate Continues(s: State, t: State, out: Outcomes)
    requires s.section.Held? && t.section.Held?
  {
    && t.row == s.row && t.section.op == s.section.op
    && (Missing(t, out) <==> Missing(s, out))
    && (!Missing(s, out) ==> (AllDone(t.section, out) <==> AllDone(s.section, out)))
    && t.prepared == s.prepared
    && (if s.section.stage.Release? then t.open == (s.open && !(out.release.Done? || out.release.Unsure?))
        else t.open == s.open && (!Missing(s, out) ==> (ReachesRelease(t.section, out) <==> ReachesRelease(s.section, out))))
    && (s.section.stage.Release? ==> !ReachesRelease(t.section, out))
  }

  lemma EarlyStage(s: State, out: Outcomes)
    requires s.section.Held? && (s.section.stage.Erase? || s.section.stage.Revoke? || s.section.stage.Locate?)
    ensures var t := Stepped(s, Of(out, s.section.stage));
      if t.section.Held? then Continues(s, t, out) else Ends(s, out, t)
  {
  }

  lemma LateStage(s: State, out: Outcomes)
    requires s.section.Held? && (s.section.stage.Kill? || s.section.stage.Release?)
    ensures var t := Stepped(s, Of(out, s.section.stage));
      if t.section.Held? then Continues(s, t, out) else Ends(s, out, t)
  {
  }

  lemma LastStage(s: State, out: Outcomes)
    requires SectionInv(s) && s.section.Held? && (s.section.stage.Finish? || s.section.stage.MarkPending?)
    ensures Ends(s, out, Stepped(s, Of(out, s.section.stage)))
  {
  }

  lemma ContinuedEnds(s: State, t: State, out: Outcomes, end: State)
    requires s.section.Held? && t.section.Held? && Continues(s, t, out) && Ends(t, out, end)
    ensures Ends(s, out, end)
  {
  }

  /**
   How every teardown ends, from wherever its holder stands and whatever its stages
   report. With all of them done a destroyed session is terminated, a start that failed is
   failed for its reason, and a cleaned-up session loses its reason. If one before the last
   is not, the session is failed and awaits its cleanup, unless it did already. A runtime
   that cannot be found, or a last transaction that fails, leaves the row as it was.
   */
  lemma {:induction false} HolderEnds(s: State, out: Outcomes)
    requires Inv(s) && s.section.Held?
    ensures var t := Runs.Exec(Next, s, Teardown(s, out)); Inv(t) && Ends(s, out, t)
    decreases StagesLeft(s.section)
  {
    var l := Advance(Of(out, s.section.stage));
    var t := Next(s, l);
    StageUsesUp(s, l.o);
    InvKeeps(s, l);
    var rest := Teardown(t, out);
    assert Teardown(s, out) == [l] + rest && ([l] + rest)[1..] == rest;
    StageEnds(s, out);
    if t.section.Held? {
      HolderEnds(t, out);
      ContinuedEnds(s, t, out, Runs.Exec(Next, t, rest));
    }
  }

  lemma StageEnds(s: State, out: Outcomes)
    requires SectionInv(s) && s.section.Held?
    ensures var t := Next(s, Advance(Of(out, s.section.stage)));
      if t.section.Held? then Continues(s, t, out) else Ends(s, out, t)
  {
    if s.section.stage.Finish? || s.section.stage.MarkPending? {
      LastStage(s, out);
    } else if s.section.stage.Kill? || s.section.stage.Release? {
      LateStage(s, out);
    } else {
      EarlyStage(s, out);
    }
  }

  /** A label that begins a teardown, and the stages that follow. */
  function WholeTeardown(s: State, l: Label, out: Outcomes): seq<Label> {
    [l] + Teardown(Next(s, l), out)
  }

  predicate Begins(s: State, l: Label, op: Op) {
    && Enabled(s, l) && Next(s, l).section == Held(op, FirstStage(op), false, false)
    && (l.BeginDestroy? || l.ReconcileBooting? || l.ReconcileCleanup? || l.FailSection?)
  }

  lemma WholeTeardownEnds(s: State, l: Label, op: Op, out: Outcomes)
    requires Inv(s) && Begins(s, l, op)
    ensures var t := Runs.Exec(Next, s, WholeTeardown(s, l, out)); Inv(t) && Ends(Next(s, l), out, t)
    ensures var b := Next(s, l); b.section.Held? && b.row == s.row && b.open == s.open && b.prepared == s.prepared
  {
    InvKeeps(s, l);
    HolderEnds(Next(s, l), out);
    assert WholeTeardown(s, l, out)[1..] == Teardown(Next(s, l), out);
  }

  /**
   `destroy` terminates the session exactly if the runtime was found, the keys were erased,
   the token revoked, the sandbox destroyed and the transport released, all reported done,
   and the last transaction took effect. It leaves the session failed and awaiting cleanup
   exactly if the runtime was found and one of the others was not reported done.
   */
  lemma DestroyEndsExactly(ls: seq<Label>, out: Outcomes)
    requires Enabled(After(ls), BeginDestroy)
    ensures var s := After(ls); var t := Runs.Exec(Next, s, WholeTeardown(s, BeginDestroy, out));
      var found := s.prepared || (s.open && out.locate.Done?);
      var done := out.erase.Done? && out.revoke.Done? && out.kill.Done? && out.release.Done?;
      && t.section.Free?
      && (t.row.status.Terminated? <==> found && done && !out.finish.Failing?)
      && (AwaitsCleanup(t.row) <==> found && !done && !out.mark.Failing?)
      && (!t.row.status.Terminated? && !AwaitsCleanup(t.row) ==> t.row == s.row)
  {
    InvAlongRuns(ls);
    WholeTeardownEnds(After(ls), BeginDestroy, Destroy, out);
  }

  /**
   A start that failed or timed out fails the session with that reason exactly if its
   runtime was found, its token revoked, its sandbox destroyed and its transport released,
   all reported done, and the last transaction took effect; it awaits its cleanup exactly
   if one of these was not reported done.
   */
  lemma FailStartEndsExactly(ls: seq<Label>, l: Label, reason: Reason, out: Outcomes)
    requires Begins(After(ls), l, FailStart(reason)) && (l.FailSection? || l.ReconcileBooting?)
    ensures var s := After(ls); var t := Runs.Exec(Next, s, WholeTeardown(s, l, out));
      var found := s.prepared || (s.open && out.locate.Done?);
      var done := out.revoke.Done? && out.kill.Done? && out.release.Done?;
      && t.section.Free? && s.row.status.Booting? && !reason.CleanupPending?
      && (t.row.status.Failed? && t.row.reason == Some(reason) <==> found && done && !out.finish.Failing?)
      && (AwaitsCleanup(t.row) <==> found && !done && !out.mark.Failing?)
      && (!t.row.status.Failed? ==> t.row == s.row)
  {
    InvAlongRuns(ls);
    WholeTeardownEnds(After(ls), l, FailStart(reason), out);
    InvKeeps(After(ls), l);
  }

  /** A cleanup clears the reason exactly if everything was reported done; otherwise it leaves the row as it was. */
  lemma CleanupEndsExactly(ls: seq<Label>, out: Outcomes)
    requires Enabled(After(ls), ReconcileCleanup)
    ensures var s := After(ls); var t := Runs.Exec(Next, s, WholeTeardown(s, ReconcileCleanup, out));
      var found := s.prepared || (s.open && out.locate.Done?);
      var done := out.erase.Done? && out.revoke.Done? && out.kill.Done? && out.release.Done?;
      && t.section.Free?
      && t.row == if found && done && !out.finish.Failing? then s.row.(reason := None) else s.row
  {
    InvAlongRuns(ls);
    WholeTeardownEnds(After(ls), ReconcileCleanup, Cleanup, out);
  }

  /**
   A start whose checks and driver call are done makes a booting session ready, and no
   other start does; a driver that failed, or a transaction that did, fails the start with
   that reason.
   */
  lemma StartEndsExactly(ls: seq<Label>, check: Outcome, failure: Option<Reason>, ready: Outcome)
    requires var s := After(ls); s.start.Queued? && s.section.Free? && s.row.status.Booting? && failure != Some(CleanupPending)
    ensures var s := After(ls); var t := Next(Next(Next(s, StartCheck(check)), DriverStarts(failure)), ReadySection(ready));
      && (t.row.status.Ready? <==> check.Done? && failure.None? && !ready.Failing?)
      && t.row == (if t.row.status.Ready? then Row(Ready, s.row.reason, s.row.history + [Ready], s.row.events + [MarkedReady]) else s.row)
      && (t.start.Over? <==> !check.Done? || (failure.None? && ready.Done?))
      && (check.Done? && failure.Some? ==> Begins(t, FailSection, FailStart(failure.value)))
      && (check.Done? && failure.None? && ready.Failing? ==> Begins(t, FailSection, FailStart(DriverError)))
  {
  }

  // ---------------------------------------------------------------------------
  // Exactly when a teardown can still be completed

  /** The holder of this kind of teardown is about to commit its last transaction. */
  predicate Concluding(s: State, op: Op) {
    s.section.Held? && s.section.op == op && s.section.stage.Finish?
  }

  predicate Deferring(s: State) {
    s.section.Held? && s.section.stage.MarkPending?
  }

  predicate FailingStart(s: State) {
    s.section.Held? && s.section.op.FailStart? && s.section.stage.Finish?
  }

  predicate AwaitsCleanup(r: Row) {
    r.status.Failed? && r.reason == Some(CleanupPending)
  }

  ghost predicate CanReach(s: State, status: Status) {
    exists more: seq<Label> :: Runs.Exec(Next, s, more).row.status == status
  }

  ghost predicate CanBeCleaned(s: State) {
    exists more: seq<Label> :: Runs.Exec(Next, s, more).row.reason.None?
  }

  /** Nothing can be found to tear down, and none of these last transactions is about to be committed. */
  predicate Lost(s: State, terminating: bool, failing: bool) {
    && !Findable(s) && (terminating ==> !Concluding(s, Destroy) && !Concluding(s, Cleanup))
    && (failing ==> !Deferring(s) && !FailingStart(s))
  }

  /** Once the runtime is lost no holder gets to its last transaction. */
  lemma LostStage(s: State, o: Outcome)
    requires SectionInv(s) && s.section.Held? && !Findable(s)
    ensures !Findable(Stepped(s, o))
    ensures var t := Stepped(s, o); t.section.Held? ==> !t.section.stage.Finish? && !t.section.stage.MarkPending?
    ensures Stepped(s, o).row != s.row ==> s.section.stage.Finish? || s.section.stage.MarkPending?
  {
    assert !Located(s.section);
  }

  lemma LostStep(s: State, l: Label, terminating: bool, failing: bool)
    requires Inv(s) && Exists(s) && Lost(s, terminating, failing)
    ensures Exists(Next(s, l)) && Lost(Next(s, l), terminating, failing)
    ensures terminating && !s.row.status.Terminated? ==> !Next(s, l).row.status.Terminated?
    ensures failing && !s.row.status.Failed? ==> !Next(s, l).row.status.Failed?
    ensures terminating && AwaitsCleanup(s.row) ==> AwaitsCleanup(Next(s, l).row)
  {
    RowKeeps(s, l);
    if Enabled(s, l) && l.Advance? {
      LostStage(s, l.o);
    }
  }

  /** A lost session stays lost: no later destroy or reconciliation finds a runtime to tear down. */
  lemma {:induction false} LostForever(s: State, ls: seq<Label>, terminating: bool, failing: bool)
    requires Inv(s) && Exists(s) && Lost(s, terminating, failing)
    ensures var t := Runs.Exec(Next, s, ls);
      && Inv(t) && Exists(t) && Lost(t, terminating, failing)
      && (terminating && !s.row.status.Terminated? ==> !t.row.status.Terminated?)
      && (failing && !s.row.status.Failed? ==> !t.row.status.Failed?)
      && (terminating && AwaitsCleanup(s.row) ==> AwaitsCleanup(t.row))
    decreases |ls|
  {
    if ls != [] {
      InvKeeps(s, ls[0]);
      LostStep(s, ls[0], terminating, failing);
      LostForever(Next(s, ls[0]), ls[1..], terminating, failing);
    }
  }

  /** Nothing is reported done. */
  const NOTHING := Outcomes(Failing, Failing, Failing, Failing, Failing, Failing, Failing)

  const EVERYTHING := Outcomes(Done, Done, Done, Done, Done, Done, Done)

  /** A holder whose stages all fail backs out and leaves the row and the runtime as they were. */
  lemma BackOut(s: State) returns (more: seq<Label>)
    requires Inv(s)
    ensures var t := Runs.Exec(Next, s, more);
      Inv(t) && t.section.Free? && t.row == s.row && t.open == s.open && t.prepared == s.prepared
  {
    more := [];
    if s.section.Held? {
      HolderEnds(s, NOTHING);
      more := Teardown(s, NOTHING);
    }
  }

  /** From any state, a runtime that can be found can be torn down anew, with these outcomes. */
  lemma FreshTeardown(s: State, l: Label, op: Op, out: Outcomes) returns (more: seq<Label>)
    requires Inv(s) && Exists(s) && Findable(s) && out.locate.Done?
    requires (l == BeginDestroy && op == Destroy && Nonterminal(s.row.status))
          || (l == ReconcileCleanup && op == Cleanup && AwaitsCleanup(s.row))
    ensures var t := Runs.Exec(Next, s, more);
      if out == EVERYTHING then Succeeds(op, s.row, t.row)
      else out == EVERYTHING.(kill := Failing) && op.Destroy? ==> EndsFailed(s.row, t.row, CleanupPending)
  {
    var first := BackOut(s);
    var free := Runs.Exec(Next, s, first);
    assert Begins(free, l, op);
    WholeTeardownEnds(free, l, op, out);
    more := first + WholeTeardown(free, l, out);
    Runs.ExecAppend(Next, s, first, WholeTeardown(free, l, out));
  }

  lemma OneStep(s: State, l: Label)
    ensures Runs.Exec(Next, s, [l]) == Next(s, l)
  {
    assert [l][1..] == [];
    assert Runs.Exec(Next, Next(s, l), []) == Next(s, l);
  }

  lemma FindableReaches(s: State)
    requires Inv(s) && Exists(s) && Nonterminal(s.row.status)
    ensures Findable(s) || Concluding(s, Destroy) ==> CanReach(s, Terminated)
    ensures Findable(s) || Deferring(s) || FailingStart(s) ==> CanReach(s, Failed)
  {
    if Findable(s) {
      var more := FreshTeardown(s, BeginDestroy, Destroy, EVERYTHING);
      var others := FreshTeardown(s, BeginDestroy, Destroy, EVERYTHING.(kill := Failing));
    } else if s.section.Held? {
      OneStep(s, Advance(Done));
    }
  }

  lemma FindableIsCleaned(s: State)
    requires Inv(s) && AwaitsCleanup(s.row) && (Findable(s) || Concluding(s, Cleanup))
    ensures CanBeCleaned(s)
  {
    if Findable(s) {
      var more := FreshTeardown(s, ReconcileCleanup, Cleanup, EVERYTHING);
    } else {
      OneStep(s, Advance(Done));
    }
  }

  /**
   On every run: a session that is not final can still be terminated if and only if its
   runtime is in memory, its binding row is unreleased or its destroyer is about to commit;
   it can still fail if and only if its runtime can be found so, or a holder is about to
   mark it; and a failed session can still be cleaned up if and only if its runtime can be
   found or its cleanup is about to commit.
   */
  lemma EndsExactlyWhenRecoverable(ls: seq<Label>)
    requires Exists(After(ls))
    ensures var s := After(ls);
      && (Nonterminal(s.row.status) ==>
            && (CanReach(s, Terminated) <==> Findable(s) || Concluding(s, Destroy))
            && (CanReach(s, Failed) <==> Findable(s) || Deferring(s) || FailingStart(s)))
      && (AwaitsCleanup(s.row) ==> (CanBeCleaned(s) <==> Findable(s) || Concluding(s, Cleanup)))
  {
    var s := After(ls);
    InvAlongRuns(ls);
    if Nonterminal(s.row.status) {
      FindableReaches(s);
      if !Findable(s) {
        LostNeverReaches(s);
      }
    } else if AwaitsCleanup(s.row) {
      if Findable(s) || Concluding(s, Cleanup) {
        FindableIsCleaned(s);
      } else {
        LostIsNotCleaned(s);
      }
    }
  }

  lemma LostNeverReaches(s: State)
    requires Inv(s) && Exists(s) && Nonterminal(s.row.status) && !Findable(s)
    ensures !Concluding(s, Destroy) ==> !CanReach(s, Terminated)
    ensures !Deferring(s) && !FailingStart(s) ==> !CanReach(s, Failed)
  {
    if !Concluding(s, Destroy) {
      forall more: seq<Label> ensures !Runs.Exec(Next, s, more).row.status.Terminated? {
        LostForever(s, more, true, false);
      }
    }
    if !Deferring(s) && !FailingStart(s) {
      forall more: seq<Label> ensures !Runs.Exec(Next, s, more).row.status.Failed? {
        LostForever(s, more, false, true);
      }
    }
  }

  lemma LostIsNotCleaned(s: State)
    requires Inv(s) && AwaitsCleanup(s.row) && !Findable(s) && !Concluding(s, Cleanup)
    ensures !CanBeCleaned(s)
  {
    forall more: seq<Label> ensures !Runs.Exec(Next, s, more).row.reason.None? {
      LostForever(s, more, true, false);
    }
  }

  /** The row is there, it is not final or still awaits its cleanup, and nothing can be found to tear down. */
  ghost predicate Stranded(s: State) {
    Inv(s) && Exists(s) && Lost(s, true, true) && (Nonterminal(s.row.status) || AwaitsCleanup(s.row))
  }

  /** A stranded session stays stranded: it never becomes final, and is never cleaned up. */
  lemma StrandedForever(s: State, ls: seq<Label>)
    requires Stranded(s)
    ensures var t := Runs.Exec(Next, s, ls); Stranded(t) && (AwaitsCleanup(t.row) <==> AwaitsCleanup(s.row))
  {
    LostForever(s, ls, true, true);
  }

  lemma Then(ls: seq<Label>, l: Label) returns (longer: seq<Label>)
    ensures longer == ls + [l] && After(longer) == Next(After(ls), l)
  {
    longer := ls + [l];
    Runs.ExecSnoc(Next, INITIAL, ls, l);
  }

  /** A created session in the hands of a teardown that is about to release its transport. */
  lemma AboutToRelease(op: Op) returns (ls: seq<Label>)
    requires op.Destroy? || op == FailStart(StartTimeout)
    ensures var s := After(ls);
      && s.section.Held? && s.section.op == op && s.section.stage.Release?
      && s.row == NEW_ROW && s.open && s.prepared && s.world == World(op.Destroy?, true, true, false)
  {
    ls := Then([], Creates(Done));
    ls := Then(ls, if op.Destroy? then BeginDestroy else ReconcileBooting);
    if op.Destroy? {
      ls := Then(ls, Advance(Done));
    }
    ls := Then(ls, Advance(Done));
    ls := Then(ls, Advance(Done));
    assert After(ls).section == Held(op, Kill, op.Destroy?, true);
    ls := Then(ls, Advance(Done));
  }

  /** Both kinds of session are stranded by some run: one that is not final, and one that awaits its cleanup. */
  lemma SessionsCanBeStranded(awaiting: bool) returns (ls: seq<Label>)
    ensures Stranded(After(ls)) && (AwaitsCleanup(After(ls).row) <==> awaiting)
  {
    ls := AboutToRelease(Destroy);
    if awaiting {
      ls := Then(ls, Advance(Unsure));
      ls := Then(ls, Advance(Done));
    } else {
      ls := Then(ls, Advance(Done));
      ls := Then(ls, Advance(Failing));
    }
    ls := Then(ls, Die);
    InvAlongRuns(ls);
  }

  // ---------------------------------------------------------------------------
  // Exactly when a failed session keeps its keys, and when a released transport keeps its token

  ghost predicate FailsWithKeys(ls: seq<Label>, reason: Option<Reason>) {
    var s := After(ls);
    s.row.status.Failed? && s.row.reason == reason && s.section.Free? && !s.world.erased
  }

  /** A failed session may keep its snapshot keys under every failure reason, and under none once it was cleaned up. */
  lemma FailedKeepsKeysExactlyBeforeCleanup(reason: Option<Reason>)
    ensures (exists ls: seq<Label> :: FailsWithKeys(ls, reason)) <==> reason.Some?
  {
    if reason.Some? {
      var ls := FailedStart(reason.value);
    } else {
      forall ls: seq<Label>
        ensures !FailsWithKeys(ls, reason)
      {
        TeardownIsOrdered(ls);
      }
    }
  }

  lemma FailedStart(reason: Reason) returns (ls: seq<Label>)
    ensures FailsWithKeys(ls, Some(reason))
  {
    if reason.DriverError? {
      ls := BrokenStart();
    } else {
      ls := AboutToRelease(FailStart(StartTimeout));
    }
    ls := Then(ls, Advance(if reason.CleanupPending? then Failing else Done));
    ls := Then(ls, Advance(Done));
  }

  /** The same point, reached by a start that the driver failed. */
  lemma BrokenStart() returns (ls: seq<Label>)
    ensures var s := After(ls);
      && s.section == Held(FailStart(DriverError), Release, false, true)
      && s.row == NEW_ROW && !s.world.erased
  {
    ls := Then([], Creates(Done));
    ls := Then(ls, StartCheck(Done));
    ls := Then(ls, DriverStarts(Some(DriverError)));
    ls := Then(ls, FailSection);
    assert After(ls).section == Held(FailStart(DriverError), Revoke, false, false) && After(ls).row == NEW_ROW;
    ls := Then(ls, Advance(Done));
    ls := Then(ls, Advance(Done));
    assert After(ls).section == Held(FailStart(DriverError), Kill, false, true);
    ls := Then(ls, Advance(Done));
  }

  ghost predicate ReleasedWithToken(ls: seq<Label>, creation: Creation) {
    var s := After(ls);
    s.creation == creation && Exists(s) && s.world.released && !s.world.revoked
  }

  /**
   A session row whose transport was released while its token was never revoked is
   reached if and only if `create`'s transaction committed, reported an error, and
   its error path has run.
   */
  lemma TokenOutlivesTransportExactlyAfterAmbiguousCreate(creation: Creation)
    ensures (exists ls: seq<Label> :: ReleasedWithToken(ls, creation)) <==> creation == Undone(true)
  {
    if creation == Undone(true) {
      var ls := Then([], Creates(Unsure));
      ls := Then(ls, Undo(Done));
      ls := Then(ls, Undo(Done));
      assert ReleasedWithToken(ls, creation);
    } else {
      forall ls: seq<Label>
        ensures !ReleasedWithToken(ls, creation)
      {
        InvAlongRuns(ls);
      }
    }
  }

  // ---------------------------------------------------------------------------
  // What the components of a reachable state stand for

  /** What a run can have done to the session. */
  datatype Effect = KeysErased | TokenRevoked | SandboxDestroyed | TransportReleased
                  | RowCreated | BecameReady | BecameTerminated | BecameFailed

  ghost predicate Holds(s: State, effect: Effect) {
    match effect
    case KeysErased => s.world.erased
    case TokenRevoked => s.world.revoked
    case SandboxDestroyed => s.world.destroyed
    case TransportReleased => s.world.released
    case RowCreated => Exists(s)
    case BecameReady => MarkedReady in s.row.events
    case BecameTerminated => s.row.status.Terminated?
    case BecameFailed => s.row.status.Failed?
  }

  /** The holder is at this stage, and the label reports its outcome. */
  predicate Stages(s: State, l: Label, stage: Stage) {
    l.Advance? && s.section.Held? && s.section.stage == stage
  }

  /** The label has the effect. */
  predicate Causes(s: State, l: Label, effect: Effect) {
    match effect
    case KeysErased => Stages(s, l, Erase) && !l.o.Failing?
    case TokenRevoked => Stages(s, l, Revoke) && !l.o.Failing?
    case SandboxDestroyed => (Stages(s, l, Kill) && l.o.Done?) || (l == Undo(Done) && s.creation.Destroying?)
    case TransportReleased =>
      (Stages(s, l, Release) && !l.o.Failing?) || (l.Undo? && s.creation.Releasing? && !l.o.Failing?)
    case RowCreated => l.Creates? && !l.o.Failing?
    case BecameReady => l.ReadySection? && s.row.status.Booting? && !l.o.Failing?
    case BecameTerminated => Stages(s, l, Finish) && s.section.op.Destroy? && !l.o.Failing?
    case BecameFailed =>
      (Stages(s, l, MarkPending) || (Stages(s, l, Finish) && s.section.op.FailStart?)) && !l.o.Failing?
  }

  ghost function Effective(on: (State, Label) -> bool): (State, Label) -> bool {
    (s: State, l: Label) => Enabled(s, l) && on(s, l)
  }

  ghost predicate EffectStands(s: State, l: Label, effect: Effect) {
    Holds(Next(s, l), effect) <==> Holds(s, effect) || (Enabled(s, l) && Causes(s, l, effect))
  }

  lemma StageEffect(s: State, o: Outcome, effect: Effect)
    requires Inv(s) && s.section.Held?
    ensures EffectStands(s, Advance(o), effect)
  {
    match s.section.stage
    case Finish => FinishEffect(s, o, effect);
    case MarkPending => FinishEffect(s, o, effect);
    case _ => EarlyEffect(s, o, effect);
  }

  lemma FinishEffect(s: State, o: Outcome, effect: Effect)
    requires Inv(s) && s.section.Held? && (s.section.stage.Finish? || s.section.stage.MarkPending?)
    ensures EffectStands(s, Advance(o), effect)
  {
  }

  lemma EarlyEffect(s: State, o: Outcome, effect: Effect)
    requires s.section.Held? && !s.section.stage.Finish? && !s.section.stage.MarkPending?
    ensures EffectStands(s, Advance(o), effect)
  {
  }

  lemma OtherEffect(s: State, l: Label, effect: Effect)
    requires Inv(s) && !l.Advance?
    ensures EffectStands(s, l, effect)
  {
    if Enabled(s, l) && l.OtherMove? {
      assert !l.to.Terminated? && !l.to.Failed? && Nonterminal(s.row.status);
    }
  }

  /**
   The world and the status are what the stages did: each effect stands exactly if the
   call or transaction for it took effect at some point of the run.
   */
  lemma EffectsAreCaused(ls: seq<Label>, effect: Effect)
    ensures Holds(After(ls), effect)
       <==> Runs.Occurs(After, ls, Effective((s: State, l: Label) => Causes(s, l, effect)))
  {
    var fact, on := (s: State) => Holds(s, effect), Effective((s: State, l: Label) => Causes(s, l, effect));
    forall init: seq<Label>, l: Label ensures Runs.Arises(After, fact, on, init, l) {
      InvAlongRuns(init);
      var longer := Then(init, l);
      if l.Advance? && After(init).section.Held? {
        StageEffect(After(init), l.o, effect);
      } else if l.Advance? {
      } else {
        OtherEffect(After(init), l, effect);
      }
    }
    Runs.FactIsHistory(After, fact, on, ls);
  }

  /** The binding row is open since the creation committed, until a release reached it. */
  lemma OpenIsSinceCreation(ls: seq<Label>)
    ensures After(ls).open <==>
      Runs.Since(After, ls, Effective((s: State, l: Label) => l.Creates? && !l.o.Failing?),
                 Effective((s: State, l: Label) => Stages(s, l, Release) && (l.o.Done? || l.o.Unsure?)))
  {
    var fact := (s: State) => s.open;
    var on := Effective((s: State, l: Label) => l.Creates? && !l.o.Failing?);
    var off := Effective((s: State, l: Label) => Stages(s, l, Release) && (l.o.Done? || l.o.Unsure?));
    forall init: seq<Label>, l: Label ensures Runs.Follows(After, fact, on, off, init, l) {
      InvAlongRuns(init);
      var longer := Then(init, l);
      OpenStep(After(init), l);
    }
    Runs.FactIsSince(After, fact, on, off, ls);
  }

  lemma OpenStep(s: State, l: Label)
    requires Inv(s)
    ensures Next(s, l).open <==>
      (Enabled(s, l) && l.Creates? && !l.o.Failing?)
      || (s.open && !(Enabled(s, l) && Stages(s, l, Release) && (l.o.Done? || l.o.Unsure?)))
  {
  }

  /** The runtime is in memory since the creation was reported committed, until a teardown is reported concluded or the process dies. */
  lemma PreparedIsSinceCreation(ls: seq<Label>)
    ensures After(ls).prepared <==>
      Runs.Since(After, ls, Effective((s: State, l: Label) => l == Creates(Done)),
                 Effective((s: State, l: Label) => l.Die? || (Stages(s, l, Finish) && l.o.Done?)))
  {
    var fact := (s: State) => s.prepared;
    var on := Effective((s: State, l: Label) => l == Creates(Done));
    var off := Effective((s: State, l: Label) => l.Die? || (Stages(s, l, Finish) && l.o.Done?));
    forall init: seq<Label>, l: Label ensures Runs.Follows(After, fact, on, off, init, l) {
      InvAlongRuns(init);
      var longer := Then(init, l);
      PreparedStep(After(init), l);
    }
    Runs.FactIsSince(After, fact, on, off, ls);
  }

  lemma PreparedStep(s: State, l: Label)
    requires Inv(s)
    ensures Next(s, l).prepared <==>
      (Enabled(s, l) && l == Creates(Done))
      || (s.prepared && !(Enabled(s, l) && (l.Die? || (Stages(s, l, Finish) && l.o.Done?))))
  {
  }

  /** Where the lock, the start task and the creation can be. */
  datatype Place =
    | Locked(op: Op)
    | Starting
    | ToCreate
    | Undoing
    | InStatus(to: Status)

  predicate Stands(s: State, place: Place) {
    match place
    case Locked(op) => s.section.Held? && s.section.op == op
    case Starting => !s.start.Over?
    case ToCreate => s.creation.Preparing?
    case Undoing => s.creation.Destroying? || s.creation.Releasing?
    case InStatus(to) => (to.Active? || to.Suspended?) && Exists(s) && s.row.status == to
  }

  /** The label leads there. */
  predicate Enters(s: State, l: Label, place: Place) {
    match place
    case Locked(op) =>
      || (l.BeginDestroy? && op.Destroy?)
      || (l.ReconcileBooting? && op == FailStart(StartTimeout))
      || (l.ReconcileCleanup? && op.Cleanup?)
      || (l.FailSection? && s.start.Broken? && s.row.status.Booting? && op == FailStart(s.start.reason))
    case Starting => l == Creates(Done)
    case ToCreate => false
    case Undoing => l.Creates? && !l.o.Done?
    case InStatus(to) => (to.Active? || to.Suspended?) && l == OtherMove(to)
  }

  /** The label leads away. */
  predicate Leaves(s: State, l: Label, place: Place) {
    match place
    case Locked(_) => l.Die? || (l.Advance? && s.section.Held? && EndsTeardown(s, l.o))
    case Starting =>
      || l.Die? || l.FailSection? || l == ReadySection(Done)
      || (l.StartCheck? && !(l.o.Done? && s.row.status.Booting?))
    case ToCreate => l.Creates? || l.Die?
    case Undoing => l.Die? || (l.Undo? && !(s.creation.Destroying? && l.o.Done?))
    case InStatus(to) =>
      || (l.OtherMove? && l.to != to)
      || (Causes(s, l, BecameTerminated) || Causes(s, l, BecameFailed))
  }

  /** The holder's stage is its last: a transaction, a runtime that is not found, or a cleanup that cannot go on. */
  predicate EndsTeardown(s: State, o: Outcome)
    requires s.section.Held?
  {
    match s.section.stage
    case Finish => true
    case MarkPending => true
    case Locate => !(s.prepared || (s.open && o.Done?))
    case Kill => s.section.op.Cleanup? && !(s.section.erased && s.section.revoked && o.Done?)
    case Release => s.section.op.Cleanup? && !o.Done?
    case _ => false
  }

  ghost predicate StandsAfter(s: State, l: Label, place: Place) {
    Stands(Next(s, l), place) <==>
      (Enabled(s, l) && Enters(s, l, place)) || (Stands(s, place) && !(Enabled(s, l) && Leaves(s, l, place)))
  }

  lemma LockStands(s: State, l: Label, op: Op)
    ensures StandsAfter(s, l, Locked(op))
  {
  }

  lemma StartStands(s: State, l: Label)
    requires Inv(s)
    ensures StandsAfter(s, l, Starting)
  {
  }

  lemma CreationStands(s: State, l: Label, place: Place)
    requires place.ToCreate? || place.Undoing?
    ensures StandsAfter(s, l, place)
  {
  }

  lemma StatusStands(s: State, l: Label, to: Status)
    requires Inv(s)
    ensures StandsAfter(s, l, InStatus(to))
  {
  }

  /**
   The lock is held for a teardown, a start or an undoing is under way, and the session is
   active or suspended, exactly since the step that leads there and until one that leads away;
   the process's death ends the first three.
   */
  lemma PlacesAreSince(ls: seq<Label>, place: Place)
    requires !place.ToCreate?
    ensures Stands(After(ls), place) <==>
      Runs.Since(After, ls, Effective((s: State, l: Label) => Enters(s, l, place)),
                 Effective((s: State, l: Label) => Leaves(s, l, place)))
  {
    var fact := (s: State) => Stands(s, place);
    var on := Effective((s: State, l: Label) => Enters(s, l, place));
    var off := Effective((s: State, l: Label) => Leaves(s, l, place));
    forall init: seq<Label>, l: Label ensures Runs.Follows(After, fact, on, off, init, l) {
      InvAlongRuns(init);
      var longer := Then(init, l);
      PlaceStep(After(init), l, place);
    }
    Runs.FactIsSince(After, fact, on, off, ls);
  }

  lemma PlaceStep(s: State, l: Label, place: Place)
    requires Inv(s)
    ensures StandsAfter(s, l, place)
  {
    match place
    case Locked(op) => LockStands(s, l, op);
    case Starting => StartStands(s, l);
    case InStatus(to) => StatusStands(s, l, to);
    case _ => CreationStands(s, l, place);
  }

  /** A creation whose transaction is still to come is lost with the process, and has at most one transaction. */
  lemma CreatesOnce(ls: seq<Label>)
    ensures !After(ls).creation.Preparing?
       <==> Runs.Occurs(After, ls, Effective((s: State, l: Label) => l.Creates? || l.Die?))
  {
    var fact := (s: State) => !s.creation.Preparing?;
    var on := Effective((s: State, l: Label) => l.Creates? || l.Die?);
    forall init: seq<Label>, l: Label ensures Runs.Arises(After, fact, on, init, l) {
      var longer := Then(init, l);
      CreationStands(After(init), l, ToCreate);
    }
    Runs.FactIsHistory(After, fact, on, ls);
  }

  /**
   The process can die at any point. It takes the lock, the start task, the runtime in memory
   and what `create` was doing with it, and leaves the row, the binding and the world as they are.
   */
  lemma DeathTakesMemory(ls: seq<Label>)
    ensures var s, t := After(ls), After(ls + [Die]);
      && t.section.Free? && t.start.Over? && !t.prepared
      && !t.creation.Preparing? && !t.creation.Destroying? && !t.creation.Releasing?
      && t.row == s.row && t.open == s.open && t.world == s.world
  {
    var longer := Then(ls, Die);
  }

  /** Other components activate a ready or suspended session and suspend an active one, at any time. */
  lemma SessionsAreUsed(ls: seq<Label>, to: Status)
    requires Exists(After(ls)) && (to.Active? || to.Suspended?)
    ensures var s, t := After(ls), After(ls + [OtherMove(to)]);
      t.row == if (to.Active? && (s.row.status.Ready? || s.row.status.Suspended?)) || (to.Suspended? && s.row.status.Active?)
               then Row(to, s.row.reason, s.row.history + [to], s.row.events) else s.row
  {
    var longer := Then(ls, OtherMove(to));
    assert After(ls).row.events + [] == After(ls).row.events;
  }
}
