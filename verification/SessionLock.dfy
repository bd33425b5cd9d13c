/**
 The promise-chain lock that serialises lifecycle work on one session.

 A caller reads the session's entry in the lock map as its predecessor, puts its
 own tail promise there, waits for the predecessor, runs its work and, whether
 the work returned or threw, resolves its gate and deletes the entry if it is
 still its own. A tail settles once its predecessor's tail has settled and its
 own gate is resolved. Callers are numbered in order of arrival.
 */
module SessionLock {
  import opened Basics
  import Runs

  datatype Phase = Waiting | Working | Done

  /** `previous` is the caller whose tail was read; `settled` says this caller's own tail has settled. */
  datatype Caller = Caller(previous: Option<nat>, phase: Phase, settled: bool)

  /** `entry` is the caller whose tail the lock map holds. */
  datatype State = State(callers: seq<Caller>, entry: Option<nat>)

  const INITIAL: State := State([], None)

  datatype Label =
    | Arrive
    | Wake(i: nat)
    | Finish(i: nat, throws: bool)
    | Settle(i: nat)

  /** The promise the caller waits for has settled; with no predecessor it is already resolved. */
  predicate PreviousSettled(s: State, i: nat)
    requires i < |s.callers|
  {
    var p := s.callers[i].previous;
    p.None? || (p.value < |s.callers| && s.callers[p.value].settled)
  }

  predicate Enabled(s: State, l: Label) {
    match l
    case Arrive => true
    case Wake(i) => i < |s.callers| && s.callers[i].phase.Waiting? && PreviousSettled(s, i)
    case Finish(i, _) => i < |s.callers| && s.callers[i].phase.Working?
    case Settle(i) =>
      i < |s.callers| && s.callers[i].phase.Done? && !s.callers[i].settled && PreviousSettled(s, i)
  }

  function Next(s: State, l: Label): (r: State) {
    if !Enabled(s, l) then s else
    match l
    case Arrive => State(s.callers + [Caller(s.entry, Waiting, false)], Some(|s.callers|))
    case Wake(i) => s.(callers := s.callers[i := s.callers[i].(phase := Working)])
    case Finish(i, _) =>
      State(s.callers[i := s.callers[i].(phase := Done)], if s.entry == Some(i) then None else s.entry)
    case Settle(i) => s.(callers := s.callers[i := s.callers[i].(settled := true)])
  }

  ghost function After(ls: seq<Label>): (s: State) {
    Runs.Exec(Next, INITIAL, ls)
  }

  // ---------------------------------------------------------------------------
  // The invariant

  ghost predicate AllDoneBefore(s: State, i: nat) {
    forall j :: 0 <= j < i && j < |s.callers| ==> s.callers[j].phase.Done?
  }

  ghost predicate CallerInv(s: State, i: nat)
    requires i < |s.callers|
  {
    var c := s.callers[i];
    && (c.previous.Some? ==> i > 0 && c.previous.value == i - 1)
    && (c.previous.None? ==> AllDoneBefore(s, i))
    && (!c.phase.Waiting? ==> AllDoneBefore(s, i))
    && (c.settled ==> c.phase.Done?)
    && (!c.phase.Waiting? && c.previous.Some? ==> s.callers[c.previous.value].settled)
  }

  ghost predicate Inv(s: State) {
    && (forall i :: 0 <= i < |s.callers| ==> CallerInv(s, i))
    && (s.entry.Some? ==> |s.callers| > 0 && s.entry.value == |s.callers| - 1 && !s.callers[s.entry.value].phase.Done?)
    && (s.entry.None? ==> AllDoneBefore(s, |s.callers|))
  }

  lemma InvKeeps(s: State, l: Label)
    requires Inv(s)
    ensures Inv(Next(s, l))
  {
    if Enabled(s, l) {
      var t := Next(s, l);
      if l.Wake? {
        assert CallerInv(s, l.i);
        var p := s.callers[l.i].previous;
        if p.Some? {
          assert CallerInv(s, p.value);
        }
        assert AllDoneBefore(s, l.i);
      }
      forall i | 0 <= i < |t.callers| ensures CallerInv(t, i) {
        if i < |s.callers| {
          assert CallerInv(s, i);
        }
      }
      if l.Finish? && s.entry == Some(l.i) {
        assert CallerInv(s, l.i);
        assert AllDoneBefore(t, |t.callers|);
      }
    }
  }

  lemma InvAlongRuns(ls: seq<Label>)
    ensures Inv(After(ls))
  {
    forall s: State, l: Label | Inv(s) ensures Inv(Next(s, l)) {
      InvKeeps(s, l);
    }
    Runs.InvariantHolds(Next, (s: State) => Inv(s), INITIAL, ls);
  }

  /**
   Mutual exclusion and arrival order: on every run, when a caller's work has
   begun every earlier caller's work has ended, so no two callers work at once
   and no newcomer overtakes, even one that found the map entry deleted.
   */
  lemma WorkInArrivalOrder(ls: seq<Label>, i: nat, j: nat)
    requires i < j < |After(ls).callers| && !After(ls).callers[j].phase.Waiting?
    ensures After(ls).callers[i].phase.Done?
  {
    InvAlongRuns(ls);
    assert CallerInv(After(ls), j);
  }

  /** A caller begins only after the tail it waited for has settled, with every tail behind that one. */
  lemma TailsSettleInOrder(ls: seq<Label>, i: nat)
    requires i < |After(ls).callers| && !After(ls).callers[i].phase.Waiting?
    ensures var s := After(ls);
      s.callers[i].previous.Some? ==>
        s.callers[i].previous == Some(i - 1) && s.callers[i - 1].settled
        && (s.callers[i - 1].previous.Some? ==> i > 1 && s.callers[i - 2].settled)
  {
    InvAlongRuns(ls);
    assert CallerInv(After(ls), i);
    if i > 0 {
      assert CallerInv(After(ls), i - 1);
    }
  }

  /** The lock map holds an entry exactly while some caller has not finished. */
  lemma EntryExactlyWhileBusy(ls: seq<Label>)
    ensures var s := After(ls);
      s.entry.Some? <==> exists i :: 0 <= i < |s.callers| && !s.callers[i].phase.Done?
  {
    InvAlongRuns(ls);
  }

  // ---------------------------------------------------------------------------
  // No lost wake-up

  function Weight(c: Caller): (w: nat) {
    if c.settled then 0 else match c.phase case Waiting => 3 case Working => 2 case Done => 1
  }

  /** How many wake, finish and settle steps the callers have left at most. */
  function Remaining(callers: seq<Caller>): (n: nat) {
    if callers == [] then 0 else Remaining(callers[..|callers| - 1]) + Weight(callers[|callers| - 1])
  }

  lemma {:induction false} RemainingDrops(callers: seq<Caller>, i: nat, c: Caller)
    requires i < |callers| && Weight(c) < Weight(callers[i])
    ensures Remaining(callers[i := c]) < Remaining(callers)
  {
    var n := |callers| - 1;
    var after := callers[i := c];
    if i == n {
      assert after[..n] == callers[..n];
    } else {
      assert after[..n] == callers[..n][i := c];
      RemainingDrops(callers[..n], i, c);
    }
  }

  /** Every schedule of wake, finish and settle steps is finite: each one uses up part of the remainder. */
  lemma StepUsesUp(s: State, l: Label)
    requires Inv(s) && Enabled(s, l) && !l.Arrive?
    ensures Remaining(Next(s, l).callers) < Remaining(s.callers)
  {
    var t := Next(s, l);
    assert CallerInv(s, l.i);
    assert t.callers == s.callers[l.i := t.callers[l.i]];
    RemainingDrops(s.callers, l.i, t.callers[l.i]);
  }

  /** While anyone has not finished, somebody can move: the first unfinished caller, or the tail it waits for. */
  lemma SomeoneCanMove(s: State, i: nat) returns (l: Label)
    requires Inv(s) && i < |s.callers| && !s.callers[i].phase.Done? && AllDoneBefore(s, i)
    ensures !l.Arrive? && Enabled(s, l) && l.i <= i
  {
    assert CallerInv(s, i);
    if s.callers[i].phase.Working? {
      l := Finish(i, false);
    } else if PreviousSettled(s, i) {
      l := Wake(i);
    } else {
      assert CallerInv(s, i - 1);
      l := Settle(i - 1);
    }
  }

  lemma {:induction false} FirstUnfinished(s: State, n: nat) returns (i: nat)
    requires n <= |s.callers| && !AllDoneBefore(s, n)
    ensures i < n && !s.callers[i].phase.Done? && AllDoneBefore(s, i)
  {
    if AllDoneBefore(s, n - 1) {
      i := n - 1;
    } else {
      i := FirstUnfinished(s, n - 1);
    }
  }

  /**
   No wake-up is lost: from every reachable state the callers present can all be
   brought to the end of their work without any new arrival, by steps each of
   which uses up part of a bounded remainder.
   */
  lemma {:induction false} EveryCallerIsServed(s: State) returns (more: seq<Label>)
    requires Inv(s)
    ensures var t := Runs.Exec(Next, s, more);
      && |t.callers| == |s.callers| && AllDoneBefore(t, |t.callers|) && t.entry.None?
    ensures |more| <= Remaining(s.callers)
    decreases Remaining(s.callers)
  {
    if AllDoneBefore(s, |s.callers|) {
      more := [];
    } else {
      var i := FirstUnfinished(s, |s.callers|);
      var l := SomeoneCanMove(s, i);
      InvKeeps(s, l);
      var t := Next(s, l);
      StepUsesUp(s, l);
      var rest := EveryCallerIsServed(t);
      more := [l] + rest;
    }
  }

  // ---------------------------------------------------------------------------
  // What the callers' phases stand for

  datatype Stage = Present | Begun | Ended | TailSettled

  predicate Reached(s: State, i: nat, stage: Stage) {
    i < |s.callers| &&
    match stage
    case Present => true
    case Begun => !s.callers[i].phase.Waiting?
    case Ended => s.callers[i].phase.Done?
    case TailSettled => s.callers[i].settled
  }

  ghost function Reaching(i: nat, stage: Stage): (on: (State, Label) -> bool) {
    (s: State, l: Label) => Enabled(s, l) &&
      match stage
      case Present => l.Arrive? && i == |s.callers|
      case Begun => l == Wake(i)
      case Ended => l.Finish? && l.i == i
      case TailSettled => l == Settle(i)
  }

  /** A caller has begun exactly if it was woken, ended exactly if it finished, and its tail settled exactly by its own step. */
  lemma StagesAreReached(ls: seq<Label>, i: nat, stage: Stage)
    ensures Reached(After(ls), i, stage) <==> Runs.Occurs(After, ls, Reaching(i, stage))
  {
    var fact := (s: State) => Reached(s, i, stage);
    forall init: seq<Label>, l: Label ensures Runs.Arises(After, fact, Reaching(i, stage), init, l) {
      InvAlongRuns(init);
      Runs.ExecSnoc(Next, INITIAL, init, l);
      StageStep(After(init), l, i, stage);
    }
    Runs.FactIsHistory(After, fact, Reaching(i, stage), ls);
  }

  lemma StageStep(s: State, l: Label, i: nat, stage: Stage)
    requires Inv(s)
    ensures Reached(Next(s, l), i, stage) <==> Reached(s, i, stage) || Reaching(i, stage)(s, l)
  {
    if i < |s.callers| {
      assert CallerInv(s, i);
    }
  }
}
