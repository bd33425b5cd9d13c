/**
 The audit outbox of one session: a transactional log, numbered by
 `next_audit_seq`, that is delivered to an external sink under a per-session
 advisory lock. The sink can fail ambiguously, a delivery can be cut short at
 every step, and the bump of `delivery_attempts` after a failed delivery runs
 outside the rolled-back transaction, so it can come late or never.
 */
module AuditOutbox {
  import opened Basics
  import Runs

  datatype Decision = Allow | Deny | RequireApproval | NotApplicable

  /** A row of `audit_outbox`; the row at index i carries sequence number i + 1. */
  datatype Row = Row(decision: Decision, delivered: bool, attempts: nat)

  /** The counters on the session row. */
  datatype Counters = Counters(nextSeq: nat, allowed: nat, denied: nat, approvals: nat)

  /** The delivery holding the advisory lock. `caller` is the event its `persistBeforeExecution` waits for. */
  datatype Attempt =
    | Idle
    | Looking(caller: Option<nat>, selected: seq<nat>)
    | Inserting(caller: Option<nat>, selected: seq<nat>, todo: seq<nat>)
    | Marking(caller: Option<nat>, selected: seq<nat>)

  /**
   `sink` lists the rows the sink holds, in the order it committed them;
   `buffered` are rows it took from failed inserts and may still commit, in order;
   `owed` are the attempt bumps of failed deliveries that have not run yet;
   `returned` are the events whose `persistBeforeExecution` returned normally;
   `lost` records that a bump was dropped, or a process died after it had fed
   the sink; `raced` records that a delivery began before such a bump landed, or
   while the sink could still commit what a failed insert had given it.
   */
  datatype State = State(rows: seq<Row>, counters: Counters, sink: seq<nat>, attempt: Attempt,
                         buffered: seq<nat>, owed: seq<set<nat>>, returned: set<nat>, lost: bool, raced: bool)

  const INITIAL: State := State([], Counters(0, 0, 0, 0), [], Idle, [], [], {}, false, false)

  /** How a transaction's commit ends for its client. */
  datatype Commit = Committed | RolledBack | Ambiguous

  datatype Label =
    | Enqueue(decision: Decision)
    | Begin(caller: Option<nat>, seen: nat)   // `seen` rows were in the log when the statement began
    | LookUp(failing: Option<nat>)       // the position in `selected` whose lookup fails, if one does
    | Insert(accepted: nat, held: nat, ok: bool)   // the sink commits a prefix of `todo`, and may hold more of it
    | Flush(n: nat)                      // the sink commits rows it held
    | Discard                            // the sink drops the rows it held
    | Mark(commit: Commit)
    | Bump(k: nat)
    | DropBump(k: nat)
    | Die(accepted: nat, held: nat)      // the delivering process dies; the sink may have taken a prefix

  // ---------------------------------------------------------------------------
  // The pieces of a delivery

  /** `SELECT ... WHERE delivery_state = 'pending' ORDER BY seq`: indices from `from` on. */
  function PendingFrom(rows: seq<Row>, from: nat): (r: seq<nat>)
    requires from <= |rows|
    decreases |rows| - from
  {
    if from == |rows| then []
    else (if rows[from].delivered then [] else [from]) + PendingFrom(rows, from + 1)
  }

  function Pending(rows: seq<Row>): (r: seq<nat>) {
    PendingFrom(rows, 0)
  }

  /** Only rows that were attempted before are looked up in the sink. */
  predicate AlreadyDelivered(rows: seq<Row>, sink: seq<nat>, i: nat)
    requires i < |rows|
  {
    rows[i].attempts > 0 && i in sink
  }

  predicate InRange(rows: seq<Row>, sel: seq<nat>) {
    forall k :: 0 <= k < |sel| ==> sel[k] < |rows|
  }

  /** The selected rows that still have to be inserted, in order. */
  function ToInsert(rows: seq<Row>, sink: seq<nat>, sel: seq<nat>): (r: seq<nat>)
    requires InRange(rows, sel)
  {
    if sel == [] then []
    else
      var rest := ToInsert(rows, sink, sel[1..]);
      if AlreadyDelivered(rows, sink, sel[0]) then rest else [sel[0]] + rest
  }

  function SetOf(s: seq<nat>): (r: set<nat>) {
    set i | i in s
  }

  /** Every row of `ids` is marked delivered, with one more attempt. */
  function Marked(rows: seq<Row>, ids: set<nat>): (r: seq<Row>) {
    seq(|rows|, i requires 0 <= i < |rows| =>
      if i in ids then rows[i].(delivered := true, attempts := rows[i].attempts + 1) else rows[i])
  }

  /** Every row of `ids` has one more attempt. */
  function Bumped(rows: seq<Row>, ids: set<nat>): (r: seq<Row>) {
    seq(|rows|, i requires 0 <= i < |rows| =>
      if i in ids then rows[i].(attempts := rows[i].attempts + 1) else rows[i])
  }

  function Counted(c: Counters, d: Decision): (r: Counters) {
    Counters(c.nextSeq + 1, c.allowed + (if d.Allow? then 1 else 0), c.denied + (if d.Deny? then 1 else 0),
             c.approvals + (if d.RequireApproval? then 1 else 0))
  }

  function Returned(returned: set<nat>, caller: Option<nat>): (r: set<nat>) {
    if caller.Some? then returned + {caller.value} else returned
  }

  function Without(owed: seq<set<nat>>, k: nat): (r: seq<set<nat>>)
    requires k < |owed|
  {
    owed[..k] + owed[k + 1..]
  }

  // ---------------------------------------------------------------------------
  // The step relation

  predicate Enabled(s: State, l: Label) {
    match l
    case Enqueue(_) => true
    case Begin(caller, seen) => s.attempt.Idle? && seen <= |s.rows| && (caller.Some? ==> caller.value < seen)
    case LookUp(failing) =>
      s.attempt.Looking? && InRange(s.rows, s.attempt.selected)
      && (failing.Some? ==> failing.value < |s.attempt.selected|
                            && s.rows[s.attempt.selected[failing.value]].attempts > 0)
    case Insert(n, m, ok) => s.attempt.Inserting? && n <= m <= |s.attempt.todo| && (ok ==> n == |s.attempt.todo|)
    case Flush(n) => n <= |s.buffered|
    case Discard => true
    case Mark(_) => s.attempt.Marking?
    case Bump(k) => k < |s.owed|
    case DropBump(k) => k < |s.owed|
    case Die(n, m) => !s.attempt.Idle? && (s.attempt.Inserting? ==> n <= m <= |s.attempt.todo|)
  }

  /** The transaction rolls back and the failed delivery owes a bump of `ids`. */
  function Failed(s: State, ids: set<nat>): (r: State) {
    s.(attempt := Idle, owed := s.owed + [ids])
  }

  /** A delivery that begins now can miss what an earlier one did. */
  predicate Raced(s: State) {
    s.raced || s.lost || s.owed != [] || s.buffered != []
  }

  /** The sink commits the first `n` rows of `todo` and holds those up to `m`. */
  function Taken(s: State, todo: seq<nat>, n: nat, m: nat): State
    requires n <= m <= |todo|
  {
    s.(sink := s.sink + todo[..n], buffered := s.buffered + todo[n..m])
  }

  function Next(s: State, l: Label): (r: State) {
    if !Enabled(s, l) then s else
    match l
    case Enqueue(d) => s.(rows := s.rows + [Row(d, false, 0)], counters := Counted(s.counters, d))
    // The statement's view can be older than the lock it waits for: later rows are not selected.
    case Begin(caller, seen) =>
      var t := s.(raced := Raced(s));
      var selected := Pending(s.rows[..seen]);
      if selected == [] then t.(returned := Returned(s.returned, caller))
      else t.(attempt := Looking(caller, selected))
    case LookUp(failing) =>
      var a := s.attempt;
      if failing.Some? then Failed(s, {a.selected[failing.value]})
      else
        var todo := ToInsert(s.rows, s.sink, a.selected);
        s.(attempt := if todo == [] then Marking(a.caller, a.selected) else Inserting(a.caller, a.selected, todo))
    case Insert(n, m, ok) =>
      var a := s.attempt;
      var t := Taken(s, a.todo, n, m);
      if ok then t.(attempt := Marking(a.caller, a.selected)) else Failed(t, SetOf(a.todo))
    case Flush(n) => s.(sink := s.sink + s.buffered[..n], buffered := s.buffered[n..])
    case Discard => s.(buffered := [])
    case Mark(commit) =>
      var a := s.attempt;
      var marked := s.(rows := Marked(s.rows, SetOf(a.selected)));
      (match commit
       case Committed => marked.(attempt := Idle, returned := Returned(s.returned, a.caller))
       case RolledBack => Failed(s, SetOf(a.selected))
       case Ambiguous => Failed(marked, SetOf(a.selected)))
    case Bump(k) => s.(rows := Bumped(s.rows, s.owed[k]), owed := Without(s.owed, k))
    case DropBump(k) => s.(owed := Without(s.owed, k), lost := true)
    case Die(n, m) =>
      var a := s.attempt;
      var t := if a.Inserting? then Taken(s, a.todo, n, m) else s;
      t.(attempt := Idle, lost := s.lost || a.Inserting? || a.Marking?)
  }

  ghost function After(ls: seq<Label>): (s: State) {
    Runs.Exec(Next, INITIAL, ls)
  }

  // ---------------------------------------------------------------------------
  // What holds on every run, whatever happens to the bumps

  function CountOf(rows: seq<Row>, d: Decision): (n: nat) {
    if rows == [] then 0
    else CountOf(rows[..|rows| - 1], d) + (if rows[|rows| - 1].decision == d then 1 else 0)
  }

  ghost predicate CountersAgree(s: State) {
    && s.counters.nextSeq == |s.rows|
    && s.counters.allowed == CountOf(s.rows, Allow)
    && s.counters.denied == CountOf(s.rows, Deny)
    && s.counters.approvals == CountOf(s.rows, RequireApproval)
  }

  /** The delivery accounts for the event its caller waits for and for every earlier one. */
  ghost predicate CallerCovered(s: State, caller: Option<nat>, selected: seq<nat>) {
    && InRange(s.rows, selected)
    && (caller.Some? ==>
          caller.value < |s.rows| && forall i :: 0 <= i <= caller.value ==> s.rows[i].delivered || i in selected)
  }

  ghost predicate AttemptInv(s: State) {
    match s.attempt
    case Idle => true
    case Looking(caller, selected) => CallerCovered(s, caller, selected)
    case Inserting(caller, selected, todo) =>
      CallerCovered(s, caller, selected) && InRange(s.rows, todo)
      && forall i :: i in selected ==> i in todo || i in s.sink
    case Marking(caller, selected) =>
      CallerCovered(s, caller, selected) && forall i :: i in selected ==> i in s.sink
  }

  ghost predicate WeakInv(s: State) {
    && CountersAgree(s)
    && AttemptInv(s)
    && InRange(s.rows, s.sink) && InRange(s.rows, s.buffered)
    && (forall i :: 0 <= i < |s.rows| && s.rows[i].delivered ==> i in s.sink)
    && (forall e :: e in s.returned ==> DeliveredUpTo(s.rows, e))
  }

  /** The event and every earlier one are marked delivered. */
  ghost predicate DeliveredUpTo(rows: seq<Row>, e: nat) {
    e < |rows| && forall i :: 0 <= i <= e ==> rows[i].delivered
  }

  ghost predicate Increasing(s: seq<nat>) {
    forall i, j :: 0 <= i < j < |s| ==> s[i] < s[j]
  }

  /** The selection is exactly the undelivered rows, in the order of their sequence numbers. */
  lemma {:induction false} PendingMeaning(rows: seq<Row>, from: nat)
    requires from <= |rows|
    ensures forall k :: 0 <= k < |PendingFrom(rows, from)| ==> from <= PendingFrom(rows, from)[k] < |rows|
    ensures forall i :: i in PendingFrom(rows, from) <==> from <= i < |rows| && !rows[i].delivered
    ensures Increasing(PendingFrom(rows, from))
    decreases |rows| - from
  {
    if from < |rows| {
      PendingMeaning(rows, from + 1);
    }
  }

  /** What is inserted is what was selected and not found by a counted retry, in the order of the selection. */
  lemma {:induction false} ToInsertMeaning(rows: seq<Row>, sink: seq<nat>, sel: seq<nat>)
    requires InRange(rows, sel)
    ensures InRange(rows, ToInsert(rows, sink, sel))
    ensures forall i :: i in ToInsert(rows, sink, sel) <==> i in sel && !AlreadyDelivered(rows, sink, i)
    ensures Increasing(sel) ==> Increasing(ToInsert(rows, sink, sel))
  {
    if sel != [] {
      assert forall i :: i in sel <==> i == sel[0] || i in sel[1..];
      ToInsertMeaning(rows, sink, sel[1..]);
      var rest := ToInsert(rows, sink, sel[1..]);
      if Increasing(sel) {
        forall k | 0 <= k < |rest| ensures sel[0] < rest[k] {
          assert rest[k] in sel[1..];
        }
      }
    }
  }

  lemma {:induction false} CountSame(rows: seq<Row>, other: seq<Row>, d: Decision)
    requires |rows| == |other| && forall i :: 0 <= i < |rows| ==> rows[i].decision == other[i].decision
    ensures CountOf(rows, d) == CountOf(other, d)
  {
    if rows != [] {
      CountSame(rows[..|rows| - 1], other[..|rows| - 1], d);
    }
  }

  lemma EnqueueKeeps(s: State, d: Decision)
    requires WeakInv(s)
    ensures WeakInv(Next(s, Enqueue(d)))
  {
    var t := Next(s, Enqueue(d));
    assert t.rows[..|t.rows| - 1] == s.rows;
    assert AttemptInv(t);
  }

  lemma BeginCovers(s: State, caller: Option<nat>, seen: nat)
    requires Enabled(s, Begin(caller, seen))
    ensures CallerCovered(s, caller, Pending(s.rows[..seen]))
  {
    PendingMeaning(s.rows[..seen], 0);
  }

  lemma BeginKeeps(s: State, caller: Option<nat>, seen: nat)
    requires WeakInv(s) && Enabled(s, Begin(caller, seen))
    ensures WeakInv(Next(s, Begin(caller, seen)))
  {
    BeginCovers(s, caller, seen);
  }

  lemma LookUpKeeps(s: State, failing: Option<nat>)
    requires WeakInv(s) && Enabled(s, LookUp(failing))
    ensures WeakInv(Next(s, LookUp(failing)))
  {
    ToInsertMeaning(s.rows, s.sink, s.attempt.selected);
  }

  /** A longer sink holds what it held. */
  lemma InsertKeeps(s: State, n: nat, m: nat, ok: bool)
    requires WeakInv(s) && Enabled(s, Insert(n, m, ok))
    ensures WeakInv(Next(s, Insert(n, m, ok)))
  {
    var t := Next(s, Insert(n, m, ok));
    assert forall i :: i in s.sink ==> i in t.sink;
    assert ok ==> s.attempt.todo[..n] == s.attempt.todo;
  }

  lemma FlushKeeps(s: State, n: nat)
    requires WeakInv(s) && n <= |s.buffered|
    ensures WeakInv(Next(s, Flush(n)))
  {
    var t := Next(s, Flush(n));
    assert forall i :: i in s.sink ==> i in t.sink;
  }

  lemma DieKeeps(s: State, n: nat, m: nat)
    requires WeakInv(s) && Enabled(s, Die(n, m))
    ensures WeakInv(Next(s, Die(n, m)))
  {
    var t := Next(s, Die(n, m));
    assert forall i :: i in s.sink ==> i in t.sink;
  }

  /** Marking and bumping rows leaves their number, order and decisions alone. */
  lemma TallyKeeps(s: State, t: State)
    requires CountersAgree(s) && t.counters == s.counters && |t.rows| == |s.rows|
    requires forall i :: 0 <= i < |s.rows| ==> t.rows[i].decision == s.rows[i].decision
    ensures CountersAgree(t)
  {
    CountSame(s.rows, t.rows, Allow);
    CountSame(s.rows, t.rows, Deny);
    CountSame(s.rows, t.rows, RequireApproval);
  }

  /** The selected rows are in the sink when they are marked. */
  lemma MarkedKeeps(s: State, t: State)
    requires WeakInv(s) && s.attempt.Marking? && t.rows == Marked(s.rows, SetOf(s.attempt.selected)) && t.sink == s.sink
    requires t.returned == s.returned || t.returned == Returned(s.returned, s.attempt.caller)
    ensures forall i :: 0 <= i < |t.rows| && t.rows[i].delivered ==> i in t.sink
    ensures forall e :: e in t.returned ==> DeliveredUpTo(t.rows, e)
  {
    assert forall i :: 0 <= i < |s.rows| ==> (t.rows[i].delivered <==> s.rows[i].delivered || i in s.attempt.selected);
    assert forall e :: DeliveredUpTo(s.rows, e) ==> DeliveredUpTo(t.rows, e);
  }

  lemma MarkKeeps(s: State, commit: Commit)
    requires WeakInv(s) && Enabled(s, Mark(commit))
    ensures WeakInv(Next(s, Mark(commit)))
  {
    TallyKeeps(s, Next(s, Mark(commit)));
    if !commit.RolledBack? {
      MarkedKeeps(s, Next(s, Mark(commit)));
    }
  }

  lemma BumpKeeps(s: State, k: nat)
    requires WeakInv(s) && Enabled(s, Bump(k))
    ensures WeakInv(Next(s, Bump(k)))
  {
    var t := Next(s, Bump(k));
    TallyKeeps(s, t);
    assert forall i :: 0 <= i < |s.rows| ==> (t.rows[i].delivered <==> s.rows[i].delivered);
  }

  lemma WeakInvKeeps(s: State, l: Label)
    requires WeakInv(s)
    ensures WeakInv(Next(s, l))
  {
    if Enabled(s, l) {
      match l
      case Enqueue(d) => EnqueueKeeps(s, d);
      case Begin(caller, seen) => BeginKeeps(s, caller, seen);
      case LookUp(failing) => LookUpKeeps(s, failing);
      case Insert(n, m, ok) => InsertKeeps(s, n, m, ok);
      case Flush(n) => FlushKeeps(s, n);
      case Mark(commit) => MarkKeeps(s, commit);
      case Bump(k) => BumpKeeps(s, k);
      case Die(n, m) => DieKeeps(s, n, m);
      case _ =>
    }
  }

  lemma WeakInvAlongRuns(ls: seq<Label>)
    ensures WeakInv(After(ls))
  {
    forall s: State, l: Label | WeakInv(s) ensures WeakInv(Next(s, l)) {
      WeakInvKeeps(s, l);
    }
    Runs.InvariantHolds(Next, (s: State) => WeakInv(s), INITIAL, ls);
  }

  /**
   Whatever fails, and even when bumps are lost: a row is marked delivered only
   if the sink holds it, and `persistBeforeExecution` returns normally only when
   its event and every earlier event of the session are marked delivered and in the sink.
   */
  lemma DeliveredMeansInSink(ls: seq<Label>)
    ensures var s := After(ls);
      && (forall i :: 0 <= i < |s.rows| && s.rows[i].delivered ==> i in s.sink)
      && (forall e, i :: e in s.returned && 0 <= i <= e ==> i in s.sink)
      && (forall e :: e in s.returned ==> DeliveredUpTo(s.rows, e))
  {
    WeakInvAlongRuns(ls);
    var s := After(ls);
    forall e, i | e in s.returned && 0 <= i <= e ensures i in s.sink {
      assert DeliveredUpTo(s.rows, e) && s.rows[i].delivered;
    }
  }

  /** Sequence numbers are the log positions, and the counters are the per-decision event counts. */
  lemma CountersAreEventCounts(ls: seq<Label>)
    ensures var s := After(ls);
      && s.counters.nextSeq == |s.rows|
      && s.counters.allowed == CountOf(s.rows, Allow)
      && s.counters.denied == CountOf(s.rows, Deny)
      && s.counters.approvals == CountOf(s.rows, RequireApproval)
  {
    WeakInvAlongRuns(ls);
  }

  // ---------------------------------------------------------------------------
  // Exactly-once delivery while bumps land before the next attempt

  function Range(a: nat, b: nat): (r: seq<nat>)
    requires a <= b
  {
    seq(b - a, i requires 0 <= i < b - a => a + i)
  }

  /** Exactly the first `d` rows are marked delivered. */
  ghost predicate DeliveredPrefix(rows: seq<Row>, d: nat) {
    forall i :: 0 <= i < |rows| ==> (rows[i].delivered <==> i < d)
  }

  /** Delivered rows are a prefix of length `d`, and the sink holds exactly a prefix of the log, in order. */
  ghost predicate Prefixes(s: State, d: nat) {
    && d <= |s.sink| <= |s.rows|
    && s.sink == Range(0, |s.sink|)
    && DeliveredPrefix(s.rows, d)
  }

  /** A sink row that is not marked delivered is known to the next attempt, or about to be. */
  ghost predicate Known(s: State, i: nat)
    requires i < |s.rows|
  {
    s.rows[i].attempts > 0 || s.lost || exists k :: 0 <= k < |s.owed| && i in s.owed[k]
  }

  ghost predicate Exact(s: State, d: nat) {
    && Prefixes(s, d)
    && |s.sink| + |s.buffered| <= |s.rows| && s.buffered == Range(|s.sink|, |s.sink| + |s.buffered|)
    && (!s.attempt.Idle? ==> s.owed == [] && s.buffered == [] && !s.lost && exists n :: Selected(s, d, n))
    && forall i :: d <= i < |s.sink| + |s.buffered| && !(s.attempt.Marking? && i in s.attempt.selected) ==> Known(s, i)
  }

  /** The delivery selected rows d to n, of which it inserts those the sink lacks. */
  ghost predicate Selected(s: State, d: nat, n: nat)
    requires !s.attempt.Idle?
  {
    && d <= n <= |s.rows| && s.attempt.selected == Range(d, n)
    && (s.attempt.Inserting? ==> |s.sink| < n && s.attempt.todo == Range(|s.sink|, n))
    && (s.attempt.Marking? ==> n <= |s.sink|)
  }

  ghost predicate StrongInv(s: State) {
    !s.raced ==> exists d: nat :: Exact(s, d)
  }

  lemma {:induction false} PendingIsSuffix(rows: seq<Row>, d: nat, from: nat)
    requires d <= |rows| && from <= |rows|
    requires forall i :: 0 <= i < |rows| ==> (rows[i].delivered <==> i < d)
    ensures PendingFrom(rows, from) == if from <= d then Range(d, |rows|) else Range(from, |rows|)
    decreases |rows| - from
  {
    if from < |rows| {
      PendingIsSuffix(rows, d, from + 1);
      if from >= d {
        assert [from] + Range(from + 1, |rows|) == Range(from, |rows|);
      }
    }
  }

  lemma {:induction false} NothingPending(rows: seq<Row>, from: nat)
    requires from <= |rows| && forall i :: from <= i < |rows| ==> rows[i].delivered
    ensures PendingFrom(rows, from) == []
    decreases |rows| - from
  {
    if from < |rows| {
      NothingPending(rows, from + 1);
    }
  }

  /** An increasing sequence is determined by its elements. */
  lemma {:induction false} IncreasingIsUnique(a: seq<nat>, b: seq<nat>)
    requires Increasing(a) && Increasing(b) && forall i :: i in a <==> i in b
    ensures a == b
    decreases |a|
  {
    if a == [] {
      HasElement(b);
    } else {
      assert a[0] in b && b[0] in a;
      assert a[0] == b[0];
      forall i ensures i in a[1..] <==> i in b[1..] {
        TailElements(a, i);
        TailElements(b, i);
      }
      IncreasingIsUnique(a[1..], b[1..]);
      assert a == [a[0]] + a[1..] && b == [b[0]] + b[1..];
    }
  }

  lemma HasElement(s: seq<nat>)
    ensures s != [] ==> exists i :: i in s
  {
    if s != [] {
      assert s[0] in s;
    }
  }

  lemma TailElements(s: seq<nat>, i: nat)
    requires s != [] && Increasing(s)
    ensures i in s[1..] <==> i in s && i != s[0]
  {
    assert s == [s[0]] + s[1..];
  }

  lemma RangeMeaning(a: nat, b: nat)
    requires a <= b
    ensures Increasing(Range(a, b)) && forall i :: i in Range(a, b) <==> a <= i < b
  {
    var r := Range(a, b);
    forall i | a <= i < b ensures i in r {
      assert r[i - a] == i;
    }
  }

  /** What is missing of rows d to n, when the sink is a prefix of the log. */
  function MissingFrom(k: nat, d: nat, n: nat): (r: seq<nat>)
    requires d <= n
  {
    if k >= n then [] else Range(if d <= k then k else d, n)
  }

  lemma MissingMeaning(k: nat, d: nat, n: nat)
    requires d <= n
    ensures Increasing(MissingFrom(k, d, n)) && forall i :: i in MissingFrom(k, d, n) <==> d <= i < n && k <= i
  {
    if k < n {
      RangeMeaning(if d <= k then k else d, n);
    }
  }

  lemma MissingIsSuffix(rows: seq<Row>, sink: seq<nat>, d: nat, n: nat)
    requires d <= n <= |rows| && |sink| <= |rows| && sink == Range(0, |sink|)
    requires forall i :: d <= i < |sink| ==> rows[i].attempts > 0
    ensures ToInsert(rows, sink, Range(d, n)) == MissingFrom(|sink|, d, n)
  {
    RangeMeaning(d, n);
    RangeMeaning(0, |sink|);
    MissingMeaning(|sink|, d, n);
    ToInsertMeaning(rows, sink, Range(d, n));
    IncreasingIsUnique(ToInsert(rows, sink, Range(d, n)), MissingFrom(|sink|, d, n));
  }

  lemma RangeAppend(a: nat, b: nat, c: nat)
    requires a <= b <= c
    ensures Range(a, b) + Range(b, c) == Range(a, c)
    ensures forall i :: i in Range(a, c) <==> a <= i < c
  {
    var r := Range(a, c);
    forall i | a <= i < c ensures i in r {
      assert r[i - a] == i;
    }
  }

  /** A prefix of the log and the missing rows, of which the sink commits some and holds some. */
  lemma TakenRanges(k: nat, n: nat, accepted: nat, held: nat)
    requires k <= n && accepted <= held <= n - k
    ensures Range(0, k) + Range(k, n)[..accepted] == Range(0, k + accepted)
    ensures Range(k, n)[accepted..held] == Range(k + accepted, k + held)
  {
    RangeAppend(0, k, k + accepted);
    assert Range(k, n)[..accepted] == Range(k, k + accepted);
  }

  lemma EnqueueExact(s: State, dec: Decision, d: nat)
    requires Exact(s, d)
    ensures Exact(Next(s, Enqueue(dec)), d)
  {
    var t := Next(s, Enqueue(dec));
    assert t.rows[|s.rows|] == Row(dec, false, 0);
    if !s.attempt.Idle? {
      var n :| Selected(s, d, n);
      assert Selected(t, d, n);
    }
    forall i | d <= i < |t.sink| + |t.buffered| && !(t.attempt.Marking? && i in t.attempt.selected) ensures Known(t, i) {
      assert Known(s, i);
    }
  }

  lemma BeginExact(s: State, caller: Option<nat>, seen: nat, d: nat)
    requires Exact(s, d) && !Raced(s) && Enabled(s, Begin(caller, seen))
    ensures Exact(Next(s, Begin(caller, seen)), d)
  {
    var t := Next(s, Begin(caller, seen));
    if seen < d {
      NothingPending(s.rows[..seen], 0);
    } else {
      PendingIsSuffix(s.rows[..seen], d, 0);
      assert !t.attempt.Idle? ==> Selected(t, d, seen);
    }
    forall i | d <= i < |t.sink| ensures Known(t, i) {
      assert Known(s, i);
    }
  }

  lemma LookUpExact(s: State, failing: Option<nat>, d: nat)
    requires Exact(s, d) && Enabled(s, LookUp(failing))
    ensures Exact(Next(s, LookUp(failing)), d)
  {
    var t := Next(s, LookUp(failing));
    var n :| Selected(s, d, n);
    forall i | d <= i < |s.sink| ensures s.rows[i].attempts > 0 {
      assert Known(s, i);
    }
    MissingIsSuffix(s.rows, s.sink, d, n);
    assert !t.attempt.Idle? ==> Selected(t, d, n);
    forall i | d <= i < |t.sink| ensures Known(t, i) {
      assert t.rows[i].attempts > 0;
    }
  }

  /** What the sink takes of the missing rows extends its prefix of the log. */
  lemma TakenExtends(s: State, accepted: nat, held: nat, d: nat) returns (n: nat)
    requires Exact(s, d) && s.attempt.Inserting? && accepted <= held <= |s.attempt.todo|
    ensures Selected(s, d, n) && |s.sink| + held <= n
    ensures var t := Taken(s, s.attempt.todo, accepted, held);
      && t.sink == Range(0, |s.sink| + accepted)
      && t.buffered == Range(|s.sink| + accepted, |s.sink| + held)
    ensures forall i :: i in s.attempt.todo <==> |s.sink| <= i < n
  {
    var k := |s.sink|;
    n :| Selected(s, d, n);
    TakenRanges(k, n, accepted, held);
    RangeAppend(k, k, n);
    var t := Taken(s, s.attempt.todo, accepted, held);
    assert t.buffered == [] + Range(k + accepted, k + held);
  }

  lemma InsertExact(s: State, accepted: nat, held: nat, ok: bool, d: nat)
    requires Exact(s, d) && Enabled(s, Insert(accepted, held, ok))
    ensures Exact(Next(s, Insert(accepted, held, ok)), d)
  {
    var t := Next(s, Insert(accepted, held, ok));
    var n := TakenExtends(s, accepted, held, d);
    assert Prefixes(t, d);
    if !ok {
      assert t.owed == [SetOf(s.attempt.todo)];
      forall i | d <= i < |t.sink| + |t.buffered| ensures Known(t, i) {
        if i < |s.sink| {
          assert Known(s, i);
        } else {
          assert i in t.owed[0];
        }
      }
    } else {
      RangeAppend(d, d, n);
      assert Selected(t, d, n);
    }
  }

  lemma FlushExact(s: State, n: nat, d: nat)
    requires Exact(s, d) && n <= |s.buffered|
    ensures Exact(Next(s, Flush(n)), d)
  {
    var t := Next(s, Flush(n));
    if s.attempt.Idle? {
      var k, m := |s.sink|, |s.buffered|;
      TakenRanges(k, k + m, n, m);
      assert s.buffered[n..] == s.buffered[n..m];
      assert Prefixes(t, d);
      forall i | d <= i < |t.sink| + |t.buffered| ensures Known(t, i) {
        assert Known(s, i);
      }
    } else {
      assert t == s;
    }
  }

  lemma DiscardExact(s: State, d: nat)
    requires Exact(s, d)
    ensures Exact(Next(s, Discard), d)
  {
    var t := Next(s, Discard);
    if s.attempt.Idle? {
      forall i | d <= i < |t.sink| ensures Known(t, i) {
        assert Known(s, i);
      }
    } else {
      assert t == s;
    }
  }

  lemma MarkExact(s: State, commit: Commit, d: nat) returns (d': nat)
    requires Exact(s, d) && Enabled(s, Mark(commit))
    ensures Exact(Next(s, Mark(commit)), d')
  {
    var t := Next(s, Mark(commit));
    var n :| Selected(s, d, n);
    RangeAppend(d, d, n);
    d' := if commit.RolledBack? then d else n;
    MarkPrefixes(s, commit, d, n);
    forall i | d' <= i < |t.sink| ensures Known(t, i) {
      if i < n {
        assert i in t.owed[0];
      } else {
        assert Known(s, i);
      }
    }
  }

  lemma MarkPrefixes(s: State, commit: Commit, d: nat, n: nat)
    requires Prefixes(s, d) && Enabled(s, Mark(commit)) && Selected(s, d, n)
    requires forall i :: i in s.attempt.selected <==> d <= i < n
    ensures Prefixes(Next(s, Mark(commit)), if commit.RolledBack? then d else n)
  {
  }

  lemma BumpExact(s: State, k: nat, d: nat)
    requires Exact(s, d) && Enabled(s, Bump(k))
    ensures Exact(Next(s, Bump(k)), d)
  {
    var t := Next(s, Bump(k));
    assert s.attempt.Idle?;
    forall i | d <= i < |t.sink| + |t.buffered| ensures Known(t, i) {
      assert Known(s, i);
      if s.rows[i].attempts == 0 && !s.lost {
        var j :| 0 <= j < |s.owed| && i in s.owed[j];
        if j != k {
          assert t.owed[if j < k then j else j - 1] == s.owed[j];
        }
      }
    }
  }

  lemma DieExact(s: State, accepted: nat, held: nat, d: nat)
    requires Exact(s, d) && Enabled(s, Die(accepted, held))
    ensures Exact(Next(s, Die(accepted, held)), d)
  {
    var t := Next(s, Die(accepted, held));
    if s.attempt.Inserting? {
      var n := TakenExtends(s, accepted, held, d);
    } else if s.attempt.Looking? {
      forall i | d <= i < |t.sink| ensures Known(t, i) {
        assert Known(s, i);
      }
    }
  }

  lemma ExactStep(s: State, l: Label, d: nat) returns (d': nat)
    requires Exact(s, d) && Enabled(s, l) && (l.Begin? ==> !Raced(s))
    ensures Exact(Next(s, l), d')
  {
    d' := d;
    match l {
      case Enqueue(dec) => EnqueueExact(s, dec, d);
      case Begin(caller, seen) => BeginExact(s, caller, seen, d);
      case LookUp(failing) => LookUpExact(s, failing, d);
      case Insert(n, m, ok) => InsertExact(s, n, m, ok, d);
      case Flush(n) => FlushExact(s, n, d);
      case Discard => DiscardExact(s, d);
      case Mark(commit) => d' := MarkExact(s, commit, d);
      case Bump(k) => BumpExact(s, k, d);
      case DropBump(k) => DropExact(s, k, d);
      case Die(n, m) => DieExact(s, n, m, d);
    }
  }

  lemma DropExact(s: State, k: nat, d: nat)
    requires Exact(s, d) && Enabled(s, DropBump(k))
    ensures Exact(Next(s, DropBump(k)), d)
  {
  }

  lemma StrongInvKeeps(s: State, l: Label)
    requires StrongInv(s)
    ensures StrongInv(Next(s, l))
  {
    if Enabled(s, l) && !Next(s, l).raced {
      OnlyBeginRaces(s, l);
      var d :| Exact(s, d);
      var d' := ExactStep(s, l, d);
    }
  }

  lemma OnlyBeginRaces(s: State, l: Label)
    requires Enabled(s, l)
    ensures Next(s, l).raced <==> if l.Begin? then Raced(s) else s.raced
  {
  }

  /**
   Exactly-once, in-order delivery. On every run in which no delivery begins
   before the bump of an earlier failed one has landed and the sink has committed or
   dropped what it held of it, and for every pattern of failing lookups, ambiguous
   inserts, late flushes and failing updates, the rows marked
   delivered are a prefix of the sink, and the sink is exactly a prefix of the
   log: no duplicate, no gap, no reordering.
   */
  lemma SinkIsPrefixOfLog(ls: seq<Label>)
    requires !After(ls).raced
    ensures var s := After(ls);
      && |s.sink| <= |s.rows|
      && (forall i :: 0 <= i < |s.sink| ==> s.sink[i] == i)
      && exists d: nat :: d <= |s.sink| && DeliveredPrefix(s.rows, d)
  {
    forall s: State, l: Label | StrongInv(s) ensures StrongInv(Next(s, l)) {
      StrongInvKeeps(s, l);
    }
    assert Exact(INITIAL, 0);
    Runs.InvariantHolds(Next, (s: State) => StrongInv(s), INITIAL, ls);
    var d: nat :| Exact(After(ls), d);
    assert DeliveredPrefix(After(ls).rows, d);
  }

  // ---------------------------------------------------------------------------
  // Exactly when a delivery duplicates a row

  ghost predicate Distinct(s: seq<nat>) {
    forall i, j :: 0 <= i < j < |s| ==> s[i] != s[j]
  }

  /**
   A delivery inserts some row a second time if and only if it selected a row
   that the sink already has and that no attempt has been counted for, which is
   what a lost bump leaves behind. The sink commits nothing else in the meantime.
   */
  lemma DuplicatesExactlyWhenUncounted(rows: seq<Row>, sink: seq<nat>)
    requires Distinct(sink)
    ensures InRange(rows, Pending(rows))
    ensures Distinct(sink + ToInsert(rows, sink, Pending(rows)))
       <==> forall i :: 0 <= i < |rows| && !rows[i].delivered && i in sink ==> rows[i].attempts > 0
  {
    PendingMeaning(rows, 0);
    var todo := ToInsert(rows, sink, Pending(rows));
    ToInsertMeaning(rows, sink, Pending(rows));
    var all := sink + todo;
    if i :| 0 <= i < |rows| && !rows[i].delivered && i in sink && rows[i].attempts == 0 {
      assert i in todo;
      var a :| 0 <= a < |sink| && sink[a] == i;
      var b :| 0 <= b < |todo| && todo[b] == i;
      assert all[a] == all[|sink| + b];
    } else {
      forall a, b | 0 <= a < b < |all| ensures all[a] != all[b] {
        if a < |sink| <= b {
          assert all[b] in todo;
        }
      }
    }
  }

  /** One undelivered row that was never counted as attempted. */
  const ONE_ROW: State := State([Row(Allow, false, 0)], Counters(1, 1, 0, 0), [], Idle, [], [], {}, false, false)

  /** A delivery of the one row up to its insert, whatever the sink holds. */
  lemma InsertsAgain(sink: seq<nat>, lost: bool)
    ensures var s := ONE_ROW.(sink := sink, lost := lost);
      Next(Next(s, Begin(None, 1)), LookUp(None)) == s.(attempt := Inserting(None, [0], [0]), raced := lost)
  {
    var rows := ONE_ROW.rows;
    assert rows[..1] == rows && PendingFrom(rows, 1) == [] && Pending(rows) == [0];
    assert [0][1..] == [] && ToInsert(rows, sink, []) == [] && ToInsert(rows, sink, [0]) == [0];
  }

  /** The sink takes the row, the client sees an error, and the bump is lost. */
  lemma LosesBump(s: State)
    requires s == ONE_ROW.(attempt := Inserting(None, [0], [0]))
    ensures Next(Next(s, Insert(1, 1, false)), DropBump(0)) == ONE_ROW.(sink := [0], lost := true)
  {
    assert [0][..1] == [0];
    var t := ONE_ROW.(sink := [0], owed := [SetOf([0])]);
    assert Next(s, Insert(1, 1, false)) == t by { assert [] + [0][1..1] == []; }
    assert Without(t.owed, 0) == [];
  }

  /** With a lost bump the next delivery does duplicate: the assumption of exactly-once delivery is needed. */
  lemma LostBumpDuplicates() returns (ls: seq<Label>)
    ensures After(ls).sink == [0, 0] && After(ls).raced
  {
    ls := Then([], Enqueue(Allow));
    ls := AttemptedOnce(ls);
    ls := AttemptedTwice(ls);
  }

  lemma AttemptedTwice(ls: seq<Label>) returns (more: seq<Label>)
    requires After(ls) == ONE_ROW.(sink := [0], lost := true)
    ensures After(more).sink == [0, 0] && After(more).raced
  {
    InsertsAgain([0], true);
    more := Then(ls, Begin(None, 1));
    more := Then(more, LookUp(None));
    var s := After(more);
    assert s == ONE_ROW.(sink := [0], lost := true, attempt := Inserting(None, [0], [0]), raced := true);
    more := Then(more, Insert(1, 1, true));
    assert [0] + [0][..1] == [0, 0];
  }

  lemma AttemptedOnce(ls: seq<Label>) returns (more: seq<Label>)
    requires After(ls) == ONE_ROW
    ensures After(more) == ONE_ROW.(sink := [0], lost := true)
  {
    InsertsAgain([], false);
    more := Then(ls, Begin(None, 1));
    more := Then(more, LookUp(None));
    LosesBump(After(more));
    more := Then(more, Insert(1, 1, false));
    more := Then(more, DropBump(0));
  }

  /** So is the assumption that the sink is done with a failed insert before the next delivery. */
  lemma LateFlushDuplicates() returns (ls: seq<Label>)
    ensures After(ls).sink == [0, 0] && After(ls).raced && !After(ls).lost
  {
    ls := Then([], Enqueue(Allow));
    ls := HeldAndBumped(ls);
    ls := FlushedBehindLookup(ls);
  }

  /** The insert fails while the sink holds its row, and the bump lands. */
  lemma HeldAndBumped(ls: seq<Label>) returns (more: seq<Label>)
    requires After(ls) == ONE_ROW
    ensures After(more) == ONE_ROW.(rows := [Row(Allow, false, 1)], buffered := [0])
  {
    InsertsAgain([], false);
    more := Then(ls, Begin(None, 1));
    more := Then(more, LookUp(None));
    HoldsRow(After(more));
    more := Then(more, Insert(0, 1, false));
    more := Then(more, Bump(0));
  }

  lemma HoldsRow(s: State)
    requires s == ONE_ROW.(attempt := Inserting(None, [0], [0]))
    ensures Next(Next(s, Insert(0, 1, false)), Bump(0)) == ONE_ROW.(rows := [Row(Allow, false, 1)], buffered := [0])
  {
    var t := ONE_ROW.(buffered := [0], owed := [SetOf([0])]);
    assert Next(s, Insert(0, 1, false)) == t by {
      assert [0][..0] == [] && [0][0..1] == [0];
    }
    BumpLands(t);
  }

  lemma BumpLands(t: State)
    requires t == ONE_ROW.(buffered := [0], owed := [SetOf([0])])
    ensures Next(t, Bump(0)) == ONE_ROW.(rows := [Row(Allow, false, 1)], buffered := [0])
  {
    assert 0 in SetOf([0]);
    assert Bumped(t.rows, SetOf([0])) == [Row(Allow, false, 1)];
    assert Without(t.owed, 0) == [];
  }

  /** The retry's lookup misses the row, which the sink then commits beside the retry's own insert. */
  lemma FlushedBehindLookup(ls: seq<Label>) returns (more: seq<Label>)
    requires After(ls) == ONE_ROW.(rows := [Row(Allow, false, 1)], buffered := [0])
    ensures After(more).sink == [0, 0] && After(more).raced && !After(more).lost
  {
    var s := After(ls);
    assert s.rows[..1] == s.rows && PendingFrom(s.rows, 1) == [] && Pending(s.rows) == [0];
    assert [0][1..] == [] && ToInsert(s.rows, [], []) == [] && ToInsert(s.rows, [], [0]) == [0];
    more := Then(ls, Begin(None, 1));
    more := Then(more, LookUp(None));
    var t := s.(attempt := Inserting(None, [0], [0]), raced := true);
    assert After(more) == t;
    more := Then(more, Flush(1));
    assert [0][..1] == [0] && [] + [0] == [0];
    assert After(more) == t.(sink := [0], buffered := []);
    more := Then(more, Insert(1, 1, true));
    assert [0] + [0][..1] == [0, 0];
  }

  /** One more label at the end of a run. */
  lemma Then(ls: seq<Label>, l: Label) returns (longer: seq<Label>)
    ensures longer == ls + [l] && After(longer) == Next(After(ls), l)
  {
    longer := ls + [l];
    Runs.ExecSnoc(Next, INITIAL, ls, l);
  }

  // ---------------------------------------------------------------------------
  // `deliverSession` itself

  /** What the outside world does to one delivery. */
  datatype Faults = Faults(lookup: Option<nat>, accepted: nat, insertOk: bool, commit: Commit)

  datatype Outcome = Outcome(rows: seq<Row>, sink: seq<nat>, ok: bool)

  predicate LookupFails(rows: seq<Row>, selected: seq<nat>, f: Faults)
    requires InRange(rows, selected)
  {
    f.lookup.Some? && f.lookup.value < |selected| && rows[selected[f.lookup.value]].attempts > 0
  }

  function Accepted(todo: seq<nat>, f: Faults): (n: nat)
    ensures n <= |todo|
  {
    if f.insertOk || f.accepted > |todo| then |todo| else f.accepted
  }

  /** The rows and the sink after an undisturbed delivery whose bump, if owed, lands. */
  function Delivery(rows: seq<Row>, sink: seq<nat>, f: Faults): (r: Outcome)
    requires InRange(rows, Pending(rows))
  {
    var selected := Pending(rows);
    if selected == [] then Outcome(rows, sink, true)
    else if LookupFails(rows, selected, f) then
      Outcome(Bumped(rows, {selected[f.lookup.value]}), sink, false)
    else
      var todo := ToInsert(rows, sink, selected);
      var fed := sink + todo[..Accepted(todo, f)];
      if todo != [] && !f.insertOk then Outcome(Bumped(rows, SetOf(todo)), fed, false)
      else
        var marked := Marked(rows, SetOf(selected));
        match f.commit
        case Committed => Outcome(marked, fed, true)
        case RolledBack => Outcome(Bumped(rows, SetOf(selected)), fed, false)
        case Ambiguous => Outcome(Bumped(marked, SetOf(selected)), fed, false)
  }

  /** The labels of an undisturbed delivery; those that do not apply to it change nothing. */
  function Script(s: State, f: Faults): (ls: seq<Label>)
    requires InRange(s.rows, Pending(s.rows))
  {
    var selected := Pending(s.rows);
    var todo := ToInsert(s.rows, s.sink, selected);
    [Begin(None, |s.rows|), LookUp(if LookupFails(s.rows, selected, f) then f.lookup else None),
     Insert(Accepted(todo, f), Accepted(todo, f), f.insertOk), Mark(f.commit), Bump(|s.owed|)]
  }

  /** A five-label run, step by step. */
  lemma FiveSteps(s: State, a: Label, b: Label, c: Label, d: Label, e: Label)
    ensures Runs.Exec(Next, s, [a, b, c, d, e]) == Next(Next(Next(Next(Next(s, a), b), c), d), e)
  {
    Runs.ExecSnoc(Next, s, [], a);
    Runs.ExecSnoc(Next, s, [a], b);
    Runs.ExecSnoc(Next, s, [a, b], c);
    Runs.ExecSnoc(Next, s, [a, b, c], d);
    Runs.ExecSnoc(Next, s, [a, b, c, d], e);
    assert [] + [a] == [a] && [a] + [b] == [a, b] && [a, b] + [c] == [a, b, c];
    assert [a, b, c] + [d] == [a, b, c, d] && [a, b, c, d] + [e] == [a, b, c, d, e];
  }

  /** The delivery is a run of the step system: all that is proved of runs is proved of it. */
  lemma DeliveryIsRun(s: State, f: Faults)
    requires s.attempt.Idle? && InRange(s.rows, Pending(s.rows))
    ensures var t := Runs.Exec(Next, s, Script(s, f)); var r := Delivery(s.rows, s.sink, f);
      t.rows == r.rows && t.sink == r.sink && t.attempt.Idle? && t.owed == s.owed
  {
    var ls := Script(s, f);
    FullView(s);
    FiveSteps(s, ls[0], ls[1], ls[2], ls[3], ls[4]);
    var s1 := Next(s, ls[0]);
    if Pending(s.rows) == [] {
      assert Next(s1, ls[4]) == s1;
    } else {
      DeliveryFrom(s1, f);
    }
  }

  /** From the lookups on. */
  lemma DeliveryFrom(s: State, f: Faults)
    requires Pending(s.rows) != [] && InRange(s.rows, Pending(s.rows)) && s.attempt == Looking(None, Pending(s.rows))
    ensures var ls := Script(s, f); var r := Delivery(s.rows, s.sink, f);
      var t := Next(Next(Next(Next(s, ls[1]), ls[2]), ls[3]), ls[4]);
      t.rows == r.rows && t.sink == r.sink && t.attempt.Idle? && t.owed == s.owed
  {
    var ls := Script(s, f);
    var selected := Pending(s.rows);
    var todo := ToInsert(s.rows, s.sink, selected);
    var s2 := Next(s, ls[1]);
    if LookupFails(s.rows, selected, f) {
      LateSteps(s, s2, {selected[f.lookup.value]}, ls[2], ls[3]);
    } else if todo == [] {
      assert Next(s2, ls[2]) == s2;
      MarkStep(s2, f.commit);
    } else if f.insertOk {
      assert todo[..|todo|] == todo;
      MarkStep(Next(s2, ls[2]), f.commit);
    } else {
      LateSteps(s2.(sink := s2.sink + todo[..Accepted(todo, f)]), Next(s2, ls[2]), SetOf(todo), ls[3], ls[3]);
    }
  }

  /** A delivery whose statement saw the whole log. */
  lemma FullView(s: State)
    requires s.attempt.Idle?
    ensures var t := s.(raced := Raced(s));
      Next(s, Begin(None, |s.rows|)) == if Pending(s.rows) == [] then t else t.(attempt := Looking(None, Pending(s.rows)))
  {
    assert s.rows[..|s.rows|] == s.rows;
  }

  /** After a failure the labels of the later phases change nothing and the owed bump lands. */
  lemma LateSteps(s: State, t: State, ids: set<nat>, l: Label, m: Label)
    requires t == Failed(s, ids) && (l.Insert? || l.Mark?) && m.Mark?
    ensures Next(Next(t, l), m) == t
    ensures Next(t, Bump(|s.owed|)) == t.(rows := Bumped(t.rows, ids), owed := s.owed)
  {
    assert Without(t.owed, |s.owed|) == s.owed;
  }

  lemma MarkStep(s: State, commit: Commit)
    requires s.attempt.Marking?
    ensures var t := Next(Next(s, Mark(commit)), Bump(|s.owed|));
      && t.sink == s.sink && t.attempt.Idle? && t.owed == s.owed
      && t.rows == var ids := SetOf(s.attempt.selected);
          (match commit
           case Committed => Marked(s.rows, ids)
           case RolledBack => Bumped(s.rows, ids)
           case Ambiguous => Bumped(Marked(s.rows, ids), ids))
  {
    var failed := Next(s, Mark(commit));
    if !commit.Committed? {
      assert Without(failed.owed, |s.owed|) == s.owed;
    }
  }

  // ---------------------------------------------------------------------------
  // What a delivery changes

  /** The update that marks the selected rows takes effect. */
  predicate Lands(rows: seq<Row>, sink: seq<nat>, f: Faults)
    requires InRange(rows, Pending(rows))
  {
    var selected := Pending(rows);
    && selected != [] && !LookupFails(rows, selected, f)
    && (f.insertOk || ToInsert(rows, sink, selected) == []) && !f.commit.RolledBack?
  }

  /** Every row is there as before, and delivered exactly if it was or the update landed. */
  ghost predicate DeliversIf(before: seq<Row>, after: seq<Row>, landed: bool) {
    && |after| == |before|
    && forall i :: 0 <= i < |before| ==>
         after[i].decision == before[i].decision && (after[i].delivered <==> before[i].delivered || landed)
  }

  /**
   A delivery that succeeds leaves no row pending, one whose update does not land changes
   no row's state, and it succeeds exactly if nothing was pending or its update landed and
   reported no error.
   */
  lemma DeliveryDelivers(rows: seq<Row>, sink: seq<nat>, f: Faults)
    ensures InRange(rows, Pending(rows))
    ensures var r := Delivery(rows, sink, f);
      && DeliversIf(rows, r.rows, Lands(rows, sink, f))
      && (r.ok <==> Pending(rows) == [] || (Lands(rows, sink, f) && f.commit.Committed?))
      && (r.ok ==> Pending(r.rows) == [])
  {
    PendingMeaning(rows, 0);
    DeliveryOutcome(rows, sink, f);
    var r := Delivery(rows, sink, f);
    if r.ok {
      NothingPending(r.rows, 0);
    }
  }

  lemma DeliveryOutcome(rows: seq<Row>, sink: seq<nat>, f: Faults)
    requires InRange(rows, Pending(rows)) && forall i :: i in Pending(rows) <==> 0 <= i < |rows| && !rows[i].delivered
    ensures var r := Delivery(rows, sink, f);
      && DeliversIf(rows, r.rows, Lands(rows, sink, f))
      && (r.ok <==> Pending(rows) == [] || (Lands(rows, sink, f) && f.commit.Committed?))
  {
    var selected := Pending(rows);
    if selected == [] {
      assert forall i :: 0 <= i < |rows| ==> i !in selected;
    } else if LookupFails(rows, selected, f) {
      assert !Lands(rows, sink, f);
    } else {
      assert forall i :: i in SetOf(selected) <==> i in selected;
    }
  }

  /** The rows whose attempt a delivery counts: the one whose lookup failed, those it could not insert, or all it selected. */
  ghost predicate Attempted(rows: seq<Row>, sink: seq<nat>, f: Faults, i: nat)
    requires InRange(rows, Pending(rows)) && i < |rows|
  {
    var selected := Pending(rows);
    && !rows[i].delivered
    && (if LookupFails(rows, selected, f) then i == selected[f.lookup.value]
        else f.insertOk || ToInsert(rows, sink, selected) == [] || !AlreadyDelivered(rows, sink, i))
  }

  ghost function AttemptsAdded(rows: seq<Row>, sink: seq<nat>, f: Faults, i: nat): nat
    requires InRange(rows, Pending(rows)) && i < |rows|
  {
    if !Attempted(rows, sink, f, i) then 0 else if Lands(rows, sink, f) && f.commit.Ambiguous? then 2 else 1
  }

  lemma FailedAttempts(rows: seq<Row>, sink: seq<nat>, f: Faults, i: nat)
    requires i < |rows| && InRange(rows, Pending(rows)) && Pending(rows) != []
    requires LookupFails(rows, Pending(rows), f) || (!f.insertOk && ToInsert(rows, sink, Pending(rows)) != [])
    ensures |Delivery(rows, sink, f).rows| == |rows|
    ensures Delivery(rows, sink, f).rows[i].attempts == rows[i].attempts + AttemptsAdded(rows, sink, f, i)
  {
    PendingMeaning(rows, 0);
    ToInsertMeaning(rows, sink, Pending(rows));
    var todo := ToInsert(rows, sink, Pending(rows));
    assert i in SetOf(todo) <==> i in todo;
  }

  lemma FinalAttempts(rows: seq<Row>, sink: seq<nat>, f: Faults, i: nat)
    requires i < |rows| && InRange(rows, Pending(rows)) && Pending(rows) != []
    requires !LookupFails(rows, Pending(rows), f) && (f.insertOk || ToInsert(rows, sink, Pending(rows)) == [])
    ensures |Delivery(rows, sink, f).rows| == |rows|
    ensures Delivery(rows, sink, f).rows[i].attempts == rows[i].attempts + AttemptsAdded(rows, sink, f, i)
  {
    PendingMeaning(rows, 0);
    assert i in SetOf(Pending(rows)) <==> i in Pending(rows);
    assert Lands(rows, sink, f) <==> !f.commit.RolledBack?;
  }

  /** Each attempt is counted once, twice if the update landed and reported an error. */
  lemma DeliveryCountsAttempts(rows: seq<Row>, sink: seq<nat>, f: Faults, i: nat)
    requires i < |rows|
    ensures InRange(rows, Pending(rows)) && |Delivery(rows, sink, f).rows| == |rows|
    ensures Delivery(rows, sink, f).rows[i].attempts == rows[i].attempts + AttemptsAdded(rows, sink, f, i)
  {
    PendingMeaning(rows, 0);
    if Pending(rows) != [] {
      if LookupFails(rows, Pending(rows), f) || (!f.insertOk && ToInsert(rows, sink, Pending(rows)) != []) {
        FailedAttempts(rows, sink, f, i);
      } else {
        FinalAttempts(rows, sink, f, i);
      }
    }
  }

  /** The sink keeps what it has and takes, in order, only undelivered rows; a delivery that succeeds or lands leaves none out. */
  lemma DeliveryFeeds(rows: seq<Row>, sink: seq<nat>, f: Faults)
    ensures InRange(rows, Pending(rows))
    ensures var r := Delivery(rows, sink, f);
      && sink <= r.sink && Increasing(r.sink[|sink|..])
      && (forall i :: i in r.sink[|sink|..] ==> i < |rows| && !rows[i].delivered)
      && (Lands(rows, sink, f) || r.ok ==> forall i :: 0 <= i < |rows| && !rows[i].delivered ==> i in r.sink)
  {
    PendingMeaning(rows, 0);
    var todo := ToInsert(rows, sink, Pending(rows));
    ToInsertMeaning(rows, sink, Pending(rows));
    var r := Delivery(rows, sink, f);
    assert r.sink == sink || r.sink == sink + todo[..Accepted(todo, f)];
    assert r.sink[|sink|..] == [] || r.sink[|sink|..] == todo[..Accepted(todo, f)];
    assert todo[..|todo|] == todo;
  }

  // ---------------------------------------------------------------------------
  // What the components of a reachable state stand for

  /** The label is taken, and is as `on` says in the state it meets. */
  ghost function Effective(on: (State, Label) -> bool): (State, Label) -> bool {
    (s: State, l: Label) => Enabled(s, l) && on(s, l)
  }

  ghost predicate IsDelivered(s: State, i: nat) {
    i < |s.rows| && s.rows[i].delivered
  }

  /** The delivery that selected row i has its update committed, reported or not. */
  ghost predicate MarksRow(s: State, l: Label, i: nat) {
    s.attempt.Marking? && i in s.attempt.selected && l.Mark? && !l.commit.RolledBack?
  }

  lemma DeliveredStep(s: State, l: Label, i: nat)
    requires WeakInv(s)
    ensures IsDelivered(Next(s, l), i) <==> IsDelivered(s, i) || (Enabled(s, l) && MarksRow(s, l, i))
  {
    if Enabled(s, l) {
      match l
      case Mark(commit) => assert i in SetOf(s.attempt.selected) <==> i in s.attempt.selected;
      case Enqueue(d) =>
      case _ =>
    }
  }

  /** A row is delivered exactly if a delivery that selected it had its update commit. */
  lemma DeliveredIsMarked(ls: seq<Label>, i: nat)
    ensures IsDelivered(After(ls), i)
       <==> Runs.Occurs(After, ls, Effective((s: State, l: Label) => MarksRow(s, l, i)))
  {
    var fact, on := (s: State) => IsDelivered(s, i), Effective((s: State, l: Label) => MarksRow(s, l, i));
    forall init: seq<Label>, l: Label ensures Runs.Arises(After, fact, on, init, l) {
      WeakInvAlongRuns(init);
      var longer := Then(init, l);
      DeliveredStep(After(init), l, i);
    }
    Runs.FactIsHistory(After, fact, on, ls);
  }

  ghost function AttemptsOf(s: State, i: nat): nat {
    if i < |s.rows| then s.rows[i].attempts else 0
  }

  /** An attempt of row i is counted: with the update of its delivery, or by the bump of a failed one. */
  ghost predicate CountsRow(s: State, l: Label, i: nat) {
    i < |s.rows| && (MarksRow(s, l, i) || (l.Bump? && l.k < |s.owed| && i in s.owed[l.k]))
  }

  lemma AttemptsStep(s: State, l: Label, i: nat)
    ensures AttemptsOf(Next(s, l), i) == AttemptsOf(s, i) + (if Enabled(s, l) && CountsRow(s, l, i) then 1 else 0)
  {
    if Enabled(s, l) {
      match l
      case Mark(commit) => assert i in SetOf(s.attempt.selected) <==> i in s.attempt.selected;
      case Enqueue(d) =>
      case _ =>
    }
  }

  lemma AttemptsAreCounted(ls: seq<Label>, i: nat)
    ensures AttemptsOf(After(ls), i)
         == Runs.Times(After, ls, Effective((s: State, l: Label) => CountsRow(s, l, i)))
  {
    var number: State -> nat := (s: State) => AttemptsOf(s, i);
    var on := Effective((s: State, l: Label) => CountsRow(s, l, i));
    forall init: seq<Label>, l: Label ensures Runs.Counts(After, number, on, init, l) {
      var longer := Then(init, l);
      AttemptsStep(After(init), l, i);
    }
    Runs.NumberIsTimes(After, number, on, ls);
  }

  /** The decisions enqueued by a run, in order. */
  function Enqueued(ls: seq<Label>): (r: seq<Decision>) {
    if ls == [] then []
    else Enqueued(ls[..|ls| - 1]) + (if ls[|ls| - 1].Enqueue? then [ls[|ls| - 1].decision] else [])
  }

  /** One more label appends its row, if it enqueues one, and leaves the decisions before it alone. */
  lemma RowsStep(init: seq<Label>, l: Label)
    ensures var rows, more := After(init).rows, After(init + [l]).rows;
      && |more| == |rows| + (if l.Enqueue? then 1 else 0)
      && (forall i :: 0 <= i < |rows| ==> more[i].decision == rows[i].decision)
      && (l.Enqueue? ==> more[|rows|].decision == l.decision)
  {
    var longer := Then(init, l);
  }

  /** The log holds the enqueued decisions, all of them and in order, whatever the deliveries do. */
  lemma {:induction false} LogIsEnqueued(ls: seq<Label>)
    ensures |After(ls).rows| == |Enqueued(ls)|
    ensures forall i :: 0 <= i < |Enqueued(ls)| ==> After(ls).rows[i].decision == Enqueued(ls)[i]
  {
    if ls != [] {
      var init, l := ls[..|ls| - 1], ls[|ls| - 1];
      LogIsEnqueued(init);
      RowsStep(init, l);
      assert init + [l] == ls;
    }
  }

  /** The label has the sink commit row i. */
  ghost predicate Commits(s: State, l: Label, i: nat) {
    match l
    case Insert(n, _, _) => s.attempt.Inserting? && n <= |s.attempt.todo| && i in s.attempt.todo[..n]
    case Die(n, _) => s.attempt.Inserting? && n <= |s.attempt.todo| && i in s.attempt.todo[..n]
    case Flush(n) => n <= |s.buffered| && i in s.buffered[..n]
    case _ => false
  }

  /** The sink holds what was committed to it, and keeps its order. */
  lemma SinkIsCommitted(ls: seq<Label>, i: nat)
    ensures i in After(ls).sink <==> Runs.Occurs(After, ls, Effective((s: State, l: Label) => Commits(s, l, i)))
  {
    var fact, on := (s: State) => i in s.sink, Effective((s: State, l: Label) => Commits(s, l, i));
    forall init: seq<Label>, l: Label ensures Runs.Arises(After, fact, on, init, l) {
      var longer := Then(init, l);
      SinkStep(After(init), l, i);
    }
    Runs.FactIsHistory(After, fact, on, ls);
  }

  lemma SinkStep(s: State, l: Label, i: nat)
    ensures s.sink <= Next(s, l).sink
    ensures i in Next(s, l).sink <==> i in s.sink || (Enabled(s, l) && Commits(s, l, i))
  {
  }

  /** A failed insert, or the death of a delivery, leaves row i with the sink uncommitted. */
  ghost predicate Holds(s: State, l: Label, i: nat) {
    s.attempt.Inserting? && (l.Insert? || l.Die?) && l.accepted <= l.held <= |s.attempt.todo|
    && i in s.attempt.todo[l.accepted..l.held]
  }

  /** The sink holds a row uncommitted since then, until it drops what it holds or has committed all it held of the row. */
  lemma HeldIsSince(ls: seq<Label>, i: nat)
    ensures i in After(ls).buffered <==>
      Runs.Since(After, ls, Effective((s: State, l: Label) => Holds(s, l, i)), Effective((s: State, l: Label) => LetsGo(s, l, i)))
  {
    var fact := (s: State) => i in s.buffered;
    var on, off := Effective((s: State, l: Label) => Holds(s, l, i)), Effective((s: State, l: Label) => LetsGo(s, l, i));
    forall init: seq<Label>, l: Label ensures Runs.Follows(After, fact, on, off, init, l) {
      var longer := Then(init, l);
      HeldStep(After(init), l, i);
    }
    Runs.FactIsSince(After, fact, on, off, ls);
  }

  ghost predicate LetsGo(s: State, l: Label, i: nat) {
    l.Discard? || (l.Flush? && l.n <= |s.buffered| && i !in s.buffered[l.n..])
  }

  lemma HeldStep(s: State, l: Label, i: nat)
    ensures i in Next(s, l).buffered <==>
      (Enabled(s, l) && Holds(s, l, i)) || (i in s.buffered && !(Enabled(s, l) && LetsGo(s, l, i)))
  {
  }

  /** The delivery under way ends: with its update, a failing lookup or insert, or the death of its process. */
  predicate EndsDelivery(l: Label) {
    l.Mark? || l.Die? || (l.LookUp? && l.failing.Some?) || (l.Insert? && !l.ok)
  }

  /** What a delivery under way carries. */
  datatype Load = Caller(e: nat) | Selection(i: nat) | ToDo(i: nat)

  ghost predicate Carries(s: State, load: Load) {
    match load
    case Caller(e) => !s.attempt.Idle? && s.attempt.caller == Some(e)
    case Selection(i) => !s.attempt.Idle? && i in s.attempt.selected
    case ToDo(i) => s.attempt.Inserting? && i in s.attempt.todo
  }

  /**
   A delivery takes up its caller and every undelivered row it sees when it begins, and
   then, for the inserts, what it selected and no counted retry finds in the sink.
   */
  ghost predicate TakesUp(s: State, l: Label, load: Load) {
    match load
    case Caller(e) =>
      l.Begin? && l.caller == Some(e) && l.seen <= |s.rows| && exists i :: 0 <= i < l.seen && !s.rows[i].delivered
    case Selection(i) => l.Begin? && i < l.seen <= |s.rows| && !s.rows[i].delivered
    case ToDo(i) => l == LookUp(None) && s.attempt.Looking? && i in s.attempt.selected && !(AttemptsOf(s, i) > 0 && i in s.sink)
  }

  predicate PutsDown(l: Label, load: Load) {
    EndsDelivery(l) || (load.ToDo? && l.Insert?)
  }

  lemma BeginTakesUp(s: State, l: Label, load: Load)
    requires Enabled(s, l) && l.Begin?
    ensures Carries(Next(s, l), load) <==> TakesUp(s, l, load)
  {
    NothingPendingAmong(s.rows, l.seen);
    PendingMeaning(s.rows[..l.seen], 0);
  }

  lemma LookUpTakesUp(s: State, failing: Option<nat>, load: Load)
    requires WeakInv(s) && Enabled(s, LookUp(failing))
    ensures var l := LookUp(failing);
      Carries(Next(s, l), load) <==> TakesUp(s, l, load) || (Carries(s, load) && !PutsDown(l, load))
  {
    ToInsertMeaning(s.rows, s.sink, s.attempt.selected);
  }

  lemma LoadStep(s: State, l: Label, load: Load)
    requires WeakInv(s)
    ensures Carries(Next(s, l), load) <==>
      (Enabled(s, l) && TakesUp(s, l, load)) || (Carries(s, load) && !(Enabled(s, l) && PutsDown(l, load)))
  {
    if Enabled(s, l) {
      if l.Begin? {
        BeginTakesUp(s, l, load);
      } else if l.LookUp? {
        LookUpTakesUp(s, l.failing, load);
      }
    }
  }

  /** From its beginning to its end a delivery carries its caller and its selection, and from its lookups to its insert what is to be inserted. */
  lemma LoadIsSince(ls: seq<Label>, load: Load)
    ensures Carries(After(ls), load) <==>
      Runs.Since(After, ls, Effective((s: State, l: Label) => TakesUp(s, l, load)),
                 Effective((s: State, l: Label) => PutsDown(l, load)))
  {
    var fact := (s: State) => Carries(s, load);
    var on := Effective((s: State, l: Label) => TakesUp(s, l, load));
    var off := Effective((s: State, l: Label) => PutsDown(l, load));
    forall init: seq<Label>, l: Label ensures Runs.Follows(After, fact, on, off, init, l) {
      WeakInvAlongRuns(init);
      var longer := Then(init, l);
      LoadStep(After(init), l, load);
    }
    Runs.FactIsSince(After, fact, on, off, ls);
  }

  /** `persistBeforeExecution(e)` returns: its delivery commits, or finds nothing undelivered among the rows it sees. */
  ghost predicate Returns(s: State, l: Label, e: nat) {
    || (l == Mark(Committed) && s.attempt.Marking? && s.attempt.caller == Some(e))
    || (l.Begin? && l.caller == Some(e) && l.seen <= |s.rows| && forall i :: 0 <= i < l.seen ==> s.rows[i].delivered)
  }

  lemma NothingPendingAmong(rows: seq<Row>, seen: nat)
    requires seen <= |rows|
    ensures Pending(rows[..seen]) == [] <==> forall i :: 0 <= i < seen ==> rows[i].delivered
  {
    PendingMeaning(rows[..seen], 0);
    if forall i :: 0 <= i < seen ==> rows[i].delivered {
      NothingPending(rows[..seen], 0);
    } else {
      var i :| 0 <= i < seen && !rows[i].delivered;
      assert i in Pending(rows[..seen]);
    }
  }

  lemma ReturnedStep(s: State, l: Label, e: nat)
    ensures e in Next(s, l).returned <==> e in s.returned || (Enabled(s, l) && Returns(s, l, e))
  {
    if Enabled(s, l) && l.Begin? {
      NothingPendingAmong(s.rows, l.seen);
    }
  }

  lemma ReturnedIsReturn(ls: seq<Label>, e: nat)
    ensures e in After(ls).returned <==> Runs.Occurs(After, ls, Effective((s: State, l: Label) => Returns(s, l, e)))
  {
    var fact, on := (s: State) => e in s.returned, Effective((s: State, l: Label) => Returns(s, l, e));
    forall init: seq<Label>, l: Label ensures Runs.Arises(After, fact, on, init, l) {
      var longer := Then(init, l);
      ReturnedStep(After(init), l, e);
    }
    Runs.FactIsHistory(After, fact, on, ls);
  }

  /** On every run, where a delivery stands decides what it does next; it can die anywhere, and no second one begins beside it. */
  lemma DeliveryMovesExactly(ls: seq<Label>, l: Label)
    requires l.Begin? || l.LookUp? || l.Insert? || l.Mark? || l.Die?
    ensures var s := After(ls);
      Enabled(s, l) <==>
        match s.attempt
        case Idle => l.Begin? && l.seen <= |s.rows| && (l.caller.Some? ==> l.caller.value < l.seen)
        case Looking(_, selected) =>
          l.Die? || (l.LookUp? && (l.failing.Some? ==> l.failing.value < |selected| && AttemptsOf(s, selected[l.failing.value]) > 0))
        case Inserting(_, _, todo) =>
          || (l.Die? && l.accepted <= l.held <= |todo|)
          || (l.Insert? && l.accepted <= l.held <= |todo| && (l.ok ==> l.accepted == |todo|))
        case Marking(_, _) => l.Die? || l.Mark?
  {
    WeakInvAlongRuns(ls);
  }

  /** The bump of a failed delivery is dropped, or a delivery dies after it could have fed the sink. */
  ghost predicate Loses(s: State, l: Label) {
    l.DropBump? || (l.Die? && (s.attempt.Inserting? || s.attempt.Marking?))
  }

  /** A delivery begins while the outcome of an earlier one is unaccounted for. */
  ghost predicate Races(s: State, l: Label) {
    l.Begin? && (s.lost || s.owed != [] || s.buffered != [])
  }

  /** What the exactly-once guarantee leaves out are precisely these runs. */
  lemma RacedExactlyWhenUnaccounted(ls: seq<Label>)
    ensures After(ls).lost <==> Runs.Occurs(After, ls, Effective((s: State, l: Label) => Loses(s, l)))
    ensures After(ls).raced <==> Runs.Occurs(After, ls, Effective((s: State, l: Label) => Races(s, l)))
  {
    var lost, loses := (s: State) => s.lost, Effective((s: State, l: Label) => Loses(s, l));
    var raced, races := (s: State) => s.raced, Effective((s: State, l: Label) => Races(s, l));
    forall init: seq<Label>, l: Label
      ensures Runs.Arises(After, lost, loses, init, l) && Runs.Arises(After, raced, races, init, l)
    {
      var longer := Then(init, l);
    }
    Runs.FactIsHistory(After, lost, loses, ls);
    Runs.FactIsHistory(After, raced, races, ls);
  }

  // ---------------------------------------------------------------------------
  // A writer whose deliveries run to their end, one after the other

  datatype Call = Append(decision: Decision) | Deliver(faults: Faults)

  /** Nothing of an earlier delivery is outstanding. */
  ghost predicate Quiet(s: State) {
    s.attempt.Idle? && s.owed == [] && s.buffered == [] && !s.lost && !s.raced
  }

  /** The labels of the calls, each delivery with its faults and the bump it owes. */
  ghost function Serial(calls: seq<Call>): (ls: seq<Label>) {
    if calls == [] then []
    else
      var before := Serial(calls[..|calls| - 1]);
      var s := After(before);
      match calls[|calls| - 1]
      case Append(d) => before + [Enqueue(d)]
      case Deliver(f) => if InRange(s.rows, Pending(s.rows)) then before + Script(s, f) else before
  }

  ghost predicate Undisturbed(s: State) {
    s.buffered == [] && !s.lost && !s.raced
  }

  lemma UndisturbedStep(s: State, l: Label)
    requires Undisturbed(s)
    requires l.LookUp? || l.Mark? || l.Bump? || (l.Insert? && l.accepted == l.held) || (l.Begin? && s.owed == [])
    ensures Undisturbed(Next(s, l))
  {
  }

  lemma DeliveryIsQuiet(s: State, f: Faults)
    requires Quiet(s) && InRange(s.rows, Pending(s.rows))
    ensures Quiet(Runs.Exec(Next, s, Script(s, f)))
  {
    var ls := Script(s, f);
    DeliveryIsRun(s, f);
    FiveSteps(s, ls[0], ls[1], ls[2], ls[3], ls[4]);
    StaysUndisturbed(s, ls[0], ls[1], ls[2], ls[3], ls[4]);
  }

  lemma StaysUndisturbed(s: State, a: Label, b: Label, c: Label, d: Label, e: Label)
    requires Undisturbed(s) && s.owed == []
    requires a.Begin? && b.LookUp? && c.Insert? && c.accepted == c.held && d.Mark? && e.Bump?
    ensures Undisturbed(Next(Next(Next(Next(Next(s, a), b), c), d), e))
  {
    UndisturbedStep(s, a);
    UndisturbedStep(Next(s, a), b);
    UndisturbedStep(Next(Next(s, a), b), c);
    UndisturbedStep(Next(Next(Next(s, a), b), c), d);
    UndisturbedStep(Next(Next(Next(Next(s, a), b), c), d), e);
  }

  lemma {:induction false} SerialIsQuiet(calls: seq<Call>)
    ensures Quiet(After(Serial(calls)))
  {
    if calls != [] {
      var before := calls[..|calls| - 1];
      SerialIsQuiet(before);
      var s := After(Serial(before));
      PendingMeaning(s.rows, 0);
      match calls[|calls| - 1]
      case Append(d) => var longer := Then(Serial(before), Enqueue(d));
      case Deliver(f) =>
        DeliveryIsQuiet(s, f);
        Runs.ExecAppend(Next, INITIAL, Serial(before), Script(s, f));
    }
  }

  /**
   However its lookups, inserts and commits fail, a session whose deliveries run one after
   the other keeps the sink an exact prefix of the log, and a delivery that succeeds brings
   the whole log into it.
   */
  lemma SerialDeliveryIsExact(calls: seq<Call>, f: Faults)
    ensures var s := After(Serial(calls)); InRange(s.rows, Pending(s.rows))
    ensures var s := After(Serial(calls)); s.sink == Range(0, |s.sink|) && |s.sink| <= |s.rows|
    ensures var s, t := After(Serial(calls)), After(Serial(calls + [Deliver(f)]));
      Delivery(s.rows, s.sink, f).ok ==> t.sink == Range(0, |t.rows|) && DeliveredPrefix(t.rows, |t.rows|) && |t.rows| == |s.rows|
  {
    var s, more := After(Serial(calls)), calls + [Deliver(f)];
    var t := After(Serial(more));
    SerialIsQuiet(calls);
    SerialIsQuiet(more);
    SinkIsPrefixOfLog(Serial(calls));
    SinkIsPrefixOfLog(Serial(more));
    assert s.sink == Range(0, |s.sink|) && t.sink == Range(0, |t.sink|);
    PendingMeaning(s.rows, 0);
    assert more[..|more| - 1] == calls;
    Runs.ExecAppend(Next, INITIAL, Serial(calls), Script(s, f));
    DeliveryIsRun(s, f);
    DeliveryDelivers(s.rows, s.sink, f);
    if Delivery(s.rows, s.sink, f).ok {
      AllDelivered(Serial(more), |s.rows|);
    }
  }

  /** With every row delivered, the sink has them all. */
  lemma AllDelivered(ls: seq<Label>, n: nat)
    requires |After(ls).rows| == n && Pending(After(ls).rows) == []
    requires var s := After(ls); s.sink == Range(0, |s.sink|) && |s.sink| <= n
    ensures var s := After(ls); |s.sink| == n && DeliveredPrefix(s.rows, n)
  {
    var s := After(ls);
    NothingPendingAmong(s.rows, n);
    assert s.rows[..n] == s.rows;
    DeliveredMeansInSink(ls);
    RangeIsWhole(s.sink, n);
  }

  lemma RangeIsWhole(sink: seq<nat>, n: nat)
    requires sink == Range(0, |sink|) && |sink| <= n && forall i :: 0 <= i < n ==> i in sink
    ensures |sink| == n
  {
    RangeAppend(0, 0, |sink|);
    assert |sink| < n ==> |sink| in sink;
  }

  // ---------------------------------------------------------------------------
  // The writer

  lemma ToInsertCons(rows: seq<Row>, sink: seq<nat>, i: nat, rest: seq<nat>)
    requires i < |rows| && InRange(rows, rest)
    ensures InRange(rows, [i] + rest)
    ensures ToInsert(rows, sink, [i] + rest)
         == (if AlreadyDelivered(rows, sink, i) then [] else [i]) + ToInsert(rows, sink, rest)
  {
    assert ([i] + rest)[1..] == rest;
  }

  lemma {:induction false} ToInsertSplit(rows: seq<Row>, sink: seq<nat>, sel: seq<nat>, k: nat)
    requires InRange(rows, sel) && k < |sel|
    ensures InRange(rows, sel[..k]) && InRange(rows, sel[..k + 1])
    ensures ToInsert(rows, sink, sel[..k + 1])
         == ToInsert(rows, sink, sel[..k]) + (if AlreadyDelivered(rows, sink, sel[k]) then [] else [sel[k]])
  {
    if k == 0 {
      ToInsertCons(rows, sink, sel[0], []);
      assert sel[..1] == [sel[0]] + [] && sel[..0] == [];
    } else {
      var rest := sel[1..];
      ToInsertSplit(rows, sink, rest, k - 1);
      ToInsertCons(rows, sink, sel[0], rest[..k]);
      ToInsertCons(rows, sink, sel[0], rest[..k - 1]);
      assert sel[..k + 1] == [sel[0]] + rest[..k] && sel[..k] == [sel[0]] + rest[..k - 1];
    }
  }

  /** The tables of one session and the sink behind them. */
  class AuditOutboxWriter {
    var rows: seq<Row>
    var counters: Counters
    var sink: seq<nat>

    /** Sequence numbers are log positions. */
    predicate Valid()
      reads this
    {
      counters.nextSeq == |rows|
    }

    constructor ()
      ensures Valid() && rows == [] && sink == [] && counters == Counters(0, 0, 0, 0)
    {
      rows, sink, counters := [], [], Counters(0, 0, 0, 0);
    }

    /** `allocateOutboxEvent`: the row gets the next sequence number, which is its position, and its decision is counted. */
    method Enqueue(d: Decision) returns (sequence: nat)
      requires Valid()
      modifies `rows, `counters
      ensures Valid() && rows == old(rows) + [Row(d, false, 0)] && counters == Counted(old(counters), d)
      ensures sequence == |rows|
    {
      counters := Counted(counters, d);
      rows := rows + [Row(d, false, 0)];
      sequence := counters.nextSeq;
    }

    /** The lookup loop: which selected rows the sink does not hold yet, or the row whose lookup failed. */
    method CollectMissing(selected: seq<nat>, f: Faults) returns (ok: bool, todo: seq<nat>, active: set<nat>)
      requires InRange(rows, selected)
      ensures ok <==> !LookupFails(rows, selected, f)
      ensures ok ==> todo == ToInsert(rows, sink, selected)
      ensures !ok ==> active == {selected[f.lookup.value]}
    {
      todo, active := [], {};
      assert selected[..0] == [];
      for k := 0 to |selected|
        invariant todo == ToInsert(rows, sink, selected[..k])
        invariant LookupFails(rows, selected, f) ==> k <= f.lookup.value
      {
        active := {selected[k]};
        ToInsertSplit(rows, sink, selected, k);
        if rows[selected[k]].attempts > 0 {
          if f.lookup == Some(k) {
            return false, todo, active;
          }
          if selected[k] !in sink {
            todo := todo + [selected[k]];
          }
        } else {
          todo := todo + [selected[k]];
        }
      }
      assert selected[..|selected|] == selected;
      ok := true;
    }

    /** The fallback insert loop: the sink commits a prefix of `todo` before it fails. */
    method InsertEach(todo: seq<nat>, accepted: nat)
      requires accepted <= |todo|
      modifies `sink
      ensures sink == old(sink) + todo[..accepted]
    {
      for k := 0 to accepted
        invariant sink == old(sink) + todo[..k]
      {
        sink := sink + [todo[k]];
      }
    }

    /** One delivery of every pending row. */
    method DeliverSession(f: Faults) returns (ok: bool)
      requires Valid()
      modifies `rows, `sink
      ensures Valid() && InRange(old(rows), Pending(old(rows)))
      ensures var r := Delivery(old(rows), old(sink), f); rows == r.rows && sink == r.sink && ok == r.ok
      ensures DeliversIf(old(rows), rows, Lands(old(rows), old(sink), f))
      ensures ok ==> Pending(rows) == [] && forall i :: 0 <= i < |old(rows)| ==> rows[i].delivered
    {
      PendingMeaning(rows, 0);
      DeliveryDelivers(rows, sink, f);
      var selected := Pending(rows);
      if selected == [] {
        return true;
      }
      var found, todo, active := CollectMissing(selected, f);
      if !found {
        rows := Bumped(rows, active);
        return false;
      }
      if todo != [] {
        InsertEach(todo, Accepted(todo, f));
        if !f.insertOk {
          rows := Bumped(rows, SetOf(todo));
          return false;
        }
      }
      if !f.commit.RolledBack? {
        rows := Marked(rows, SetOf(selected));
      }
      if !f.commit.Committed? {
        rows := Bumped(rows, SetOf(selected));
      }
      ok := f.commit.Committed?;
    }
  }
}
