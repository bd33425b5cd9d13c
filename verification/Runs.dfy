/**
 Runs of a labelled transition system.

 Every protocol in this project is given by an initial state and a total step
 function `next(state, label)`. A label whose guard does not hold leaves the
 state unchanged, so every sequence of labels is a run and quantifying over
 all label sequences quantifies over all interleavings.
 */
module Runs {

  /** The state reached from `s` after the labels in `ls`, taken in order. */
  function Exec<S, L>(next: (S, L) -> S, s: S, ls: seq<L>): (r: S)
  {
    if ls == [] then s else Exec(next, next(s, ls[0]), ls[1..])
  }

  /** An inductive invariant holds in the last state of every run. */
  lemma {:induction false} InvariantHolds<S(!new), L(!new)>(
    next: (S, L) -> S, inv: S -> bool, s: S, ls: seq<L>)
    requires inv(s)
    requires forall t: S, l: L :: inv(t) ==> inv(next(t, l))
    ensures inv(Exec(next, s, ls))
  {
    if ls == [] {
    } else {
      InvariantHolds(next, inv, next(s, ls[0]), ls[1..]);
    }
  }

  /** Running two label sequences one after the other is running their concatenation. */
  lemma {:induction false} ExecAppend<S, L>(next: (S, L) -> S, s: S, ls: seq<L>, more: seq<L>)
    ensures Exec(next, s, ls + more) == Exec(next, Exec(next, s, ls), more)
  {
    if ls == [] {
      assert ls + more == more;
    } else {
      assert (ls + more)[0] == ls[0] && (ls + more)[1..] == ls[1..] + more;
      ExecAppend(next, next(s, ls[0]), ls[1..], more);
    }
  }

  /** One more label at the end of a run. */
  lemma ExecSnoc<S, L>(next: (S, L) -> S, s: S, ls: seq<L>, l: L)
    ensures Exec(next, s, ls + [l]) == next(Exec(next, s, ls), l)
  {
    ExecAppend(next, s, ls, [l]);
    assert [l][1..] == [];
    assert Exec(next, Exec(next, s, ls), [l]) == Exec(next, next(Exec(next, s, ls), l), []);
  }

  // ---------------------------------------------------------------------------
  // What happened in a run. `after` gives the state a run reaches.

  /** Some label of the run was an occurrence of `on`, judged with the state it met. */
  ghost predicate Occurs<S, L>(after: seq<L> -> S, ls: seq<L>, on: (S, L) -> bool) {
    exists i :: 0 <= i < |ls| && on(after(ls[..i]), ls[i])
  }

  /** `on` occurred at position `i`, and `off` at no later one. */
  ghost predicate LastAt<S, L>(after: seq<L> -> S, ls: seq<L>, on: (S, L) -> bool, off: (S, L) -> bool, i: nat) {
    && i < |ls| && on(after(ls[..i]), ls[i])
    && forall j :: i < j < |ls| ==> !off(after(ls[..j]), ls[j])
  }

  /** `on` occurred, and `off` has not occurred since. */
  ghost predicate Since<S, L>(after: seq<L> -> S, ls: seq<L>, on: (S, L) -> bool, off: (S, L) -> bool) {
    exists i: nat :: LastAt(after, ls, on, off, i)
  }

  /** How many labels of the run were occurrences of `on`. */
  ghost function Times<S, L>(after: seq<L> -> S, ls: seq<L>, on: (S, L) -> bool): nat {
    if ls == [] then 0
    else
      var init := ls[..|ls| - 1];
      Times(after, init, on) + (if on(after(init), ls[|ls| - 1]) then 1 else 0)
  }

  /** One more label makes the fact true by `on`, and otherwise false by `off`. */
  ghost predicate Follows<S, L>(after: seq<L> -> S, fact: S -> bool, on: (S, L) -> bool, off: (S, L) -> bool,
                                init: seq<L>, l: L) {
    fact(after(init + [l])) <==> on(after(init), l) || (fact(after(init)) && !off(after(init), l))
  }

  lemma SinceSnoc<S, L>(after: seq<L> -> S, init: seq<L>, l: L, on: (S, L) -> bool, off: (S, L) -> bool)
    ensures Since(after, init + [l], on, off)
       <==> on(after(init), l) || (Since(after, init, on, off) && !off(after(init), l))
  {
    var ls := init + [l];
    assert ls[..|init|] == init;
    assert forall j :: 0 <= j < |init| ==> ls[..j] == init[..j] && ls[j] == init[j];
    if i: nat :| LastAt(after, ls, on, off, i) {
      if i < |init| {
        assert !off(after(ls[..|init|]), ls[|init|]);
        assert LastAt(after, init, on, off, i);
      }
    }
    if on(after(init), l) {
      assert LastAt(after, ls, on, off, |init|);
    } else if i: nat :| LastAt(after, init, on, off, i) {
      if !off(after(init), l) {
        assert LastAt(after, ls, on, off, i);
      }
    }
  }

  /** A fact that every label changes in this way holds exactly since it was last made true. */
  lemma {:induction false} FactIsSince<S(!new), L(!new)>(
    after: seq<L> -> S, fact: S -> bool, on: (S, L) -> bool, off: (S, L) -> bool, ls: seq<L>)
    requires !fact(after([]))
    requires forall init: seq<L>, l: L :: Follows(after, fact, on, off, init, l)
    ensures fact(after(ls)) <==> Since(after, ls, on, off)
    decreases |ls|
  {
    if ls != [] {
      var init, l := ls[..|ls| - 1], ls[|ls| - 1];
      assert ls == init + [l];
      FactIsSince(after, fact, on, off, init);
      SinceSnoc(after, init, l, on, off);
      assert Follows(after, fact, on, off, init, l);
    }
  }

  /** A fact that only `on` makes true, and nothing makes false again. */
  ghost predicate Arises<S, L>(after: seq<L> -> S, fact: S -> bool, on: (S, L) -> bool, init: seq<L>, l: L) {
    fact(after(init + [l])) <==> fact(after(init)) || on(after(init), l)
  }

  lemma {:induction false} FactIsHistory<S(!new), L(!new)>(
    after: seq<L> -> S, fact: S -> bool, on: (S, L) -> bool, ls: seq<L>)
    requires !fact(after([]))
    requires forall init: seq<L>, l: L :: Arises(after, fact, on, init, l)
    ensures fact(after(ls)) <==> Occurs(after, ls, on)
    decreases |ls|
  {
    if ls != [] {
      var init, l := ls[..|ls| - 1], ls[|ls| - 1];
      assert ls == init + [l];
      FactIsHistory(after, fact, on, init);
      assert Arises(after, fact, on, init, l);
      OccursSnoc(after, init, l, on);
    }
  }

  lemma OccursSnoc<S, L>(after: seq<L> -> S, init: seq<L>, l: L, on: (S, L) -> bool)
    ensures Occurs(after, init + [l], on) <==> Occurs(after, init, on) || on(after(init), l)
  {
    var ls := init + [l];
    assert ls[..|init|] == init && ls[|init|] == l;
    assert forall j :: 0 <= j < |init| ==> ls[..j] == init[..j] && ls[j] == init[j];
    if i :| 0 <= i < |init| && on(after(init[..i]), init[i]) {
      assert on(after(ls[..i]), ls[i]);
    }
  }

  /** One more label adds one to the number exactly if it is an occurrence. */
  ghost predicate Counts<S, L>(after: seq<L> -> S, number: S -> nat, on: (S, L) -> bool, init: seq<L>, l: L) {
    number(after(init + [l])) == number(after(init)) + (if on(after(init), l) then 1 else 0)
  }

  lemma {:induction false} NumberIsTimes<S(!new), L(!new)>(
    after: seq<L> -> S, number: S -> nat, on: (S, L) -> bool, ls: seq<L>)
    requires number(after([])) == 0
    requires forall init: seq<L>, l: L :: Counts(after, number, on, init, l)
    ensures number(after(ls)) == Times(after, ls, on)
    decreases |ls|
  {
    if ls != [] {
      var init, l := ls[..|ls| - 1], ls[|ls| - 1];
      assert ls == init + [l];
      NumberIsTimes(after, number, on, init);
      assert Counts(after, number, on, init, l);
    }
  }

  /** A fact that only `on` can make true. */
  ghost predicate Needs<S, L>(after: seq<L> -> S, fact: S -> bool, on: (S, L) -> bool, init: seq<L>, l: L) {
    fact(after(init + [l])) ==> fact(after(init)) || on(after(init), l)
  }

  lemma {:induction false} FactNeeds<S(!new), L(!new)>(
    after: seq<L> -> S, fact: S -> bool, on: (S, L) -> bool, ls: seq<L>)
    requires !fact(after([]))
    requires forall init: seq<L>, l: L :: Needs(after, fact, on, init, l)
    ensures fact(after(ls)) ==> Occurs(after, ls, on)
    decreases |ls|
  {
    if ls != [] {
      var init, l := ls[..|ls| - 1], ls[|ls| - 1];
      assert ls == init + [l];
      FactNeeds(after, fact, on, init);
      assert Needs(after, fact, on, init, l);
      OccursSnoc(after, init, l, on);
    }
  }

  /** What occurs, occurs at least once, and the other way round. */
  lemma {:induction false} OccursIsPositive<S, L>(after: seq<L> -> S, ls: seq<L>, on: (S, L) -> bool)
    ensures Occurs(after, ls, on) <==> Times(after, ls, on) > 0
    decreases |ls|
  {
    if ls != [] {
      var init, l := ls[..|ls| - 1], ls[|ls| - 1];
      assert ls == init + [l];
      OccursIsPositive(after, init, on);
      OccursSnoc(after, init, l, on);
    }
  }
}
