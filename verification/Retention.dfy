/**
 Retention of session snapshots: pruning erases, newest first, everything past
 the retention count and everything built before the retention window.
 */
module Retention {

  type SnapshotId = nat
  type Time = int

  /** The rows come newest first; rows built at the same time come in any order. */
  ghost predicate NewestFirst(order: seq<SnapshotId>, builtAt: map<SnapshotId, Time>) {
    && (forall i :: 0 <= i < |order| ==> order[i] in builtAt)
    && (forall i, j :: 0 <= i < j < |order| ==> order[i] != order[j])
    && (forall i, j :: 0 <= i < j < |order| ==> builtAt[order[i]] >= builtAt[order[j]])
  }

  /** The first `k` rows are within the count and the window. */
  ghost predicate Retainable(order: seq<SnapshotId>, builtAt: map<SnapshotId, Time>, cutoff: Time, count: nat, k: nat)
    requires NewestFirst(order, builtAt)
  {
    k <= |order| && k <= count && forall i :: 0 <= i < k ==> builtAt[order[i]] >= cutoff
  }

  /** `k` is the longest such prefix. */
  ghost predicate Longest(order: seq<SnapshotId>, builtAt: map<SnapshotId, Time>, cutoff: Time, count: nat, k: nat)
    requires NewestFirst(order, builtAt)
  {
    && Retainable(order, builtAt, cutoff, count, k)
    && forall m: nat :: Retainable(order, builtAt, cutoff, count, m) ==> m <= k
  }

  function SetOf(s: seq<SnapshotId>): (r: set<SnapshotId>) {
    set x | x in s
  }

  /** The rows the filter keeps are a prefix, the longest one that may be kept. */
  method SelectExpired(order: seq<SnapshotId>, builtAt: map<SnapshotId, Time>, cutoff: Time, count: nat)
    returns (expired: seq<SnapshotId>)
    requires NewestFirst(order, builtAt)
    ensures |expired| <= |order| && Longest(order, builtAt, cutoff, count, |order| - |expired|)
    ensures expired == order[|order| - |expired|..]
  {
    expired := [];
    ghost var kept: nat := 0;
    for index := 0 to |order|
      invariant kept <= index && Retainable(order, builtAt, cutoff, count, kept)
      invariant kept < index ==> kept == count || builtAt[order[kept]] < cutoff
      invariant expired == order[kept..index]
    {
      if builtAt[order[index]] < cutoff || index >= count {
        expired := expired + [order[index]];
      } else {
        assert kept == index;
        kept := kept + 1;
      }
    }
    forall m: nat | Retainable(order, builtAt, cutoff, count, m) ensures m <= kept {
    }
  }

  /** The snapshots of one session that are still active. */
  class SessionSnapshots {
    var active: set<SnapshotId>
    const builtAt: map<SnapshotId, Time>

    constructor (active: set<SnapshotId>, builtAt: map<SnapshotId, Time>)
      ensures this.active == active && this.builtAt == builtAt
    {
      this.active, this.builtAt := active, builtAt;
    }

    /**
     After a prune the active snapshots are exactly the longest newest-first prefix
     with at most `count` rows, all inside the window, for every timestamp multiset
     and every order the sort may choose for ties.
     */
    method Prune(order: seq<SnapshotId>, now: Time, durationMs: nat, count: nat)
      requires NewestFirst(order, builtAt) && SetOf(order) == active && durationMs > 0 && count > 0
      modifies this
      ensures exists k: nat :: Longest(order, builtAt, now - durationMs, count, k) && active == SetOf(order[..k])
    {
      var expired := SelectExpired(order, builtAt, now - durationMs, count);
      ghost var k := |order| - |expired|;
      for index := 0 to |expired|
        invariant active == SetOf(order) - SetOf(expired[..index])
      {
        active := active - {expired[index]};
        assert SetOf(expired[..index + 1]) == SetOf(expired[..index]) + {expired[index]} by {
          assert expired[..index + 1] == expired[..index] + [expired[index]];
        }
      }
      assert expired[..|expired|] == order[k..];
      PrefixIsRest(order, k);
    }
  }

  lemma PrefixIsRest(order: seq<SnapshotId>, k: nat)
    requires k <= |order| && forall i, j :: 0 <= i < j < |order| ==> order[i] != order[j]
    ensures SetOf(order) - SetOf(order[k..]) == SetOf(order[..k])
  {
    assert order == order[..k] + order[k..];
    assert forall i, j :: 0 <= i < k && 0 <= j < |order[k..]| ==> order[..k][i] != order[k..][j];
  }

  /** Pruning again at the same time, with nothing built in between, erases nothing. */
  lemma PruneIsIdempotent(order: seq<SnapshotId>, builtAt: map<SnapshotId, Time>, cutoff: Time, count: nat, k: nat)
    requires NewestFirst(order, builtAt) && Longest(order, builtAt, cutoff, count, k)
    ensures NewestFirst(order[..k], builtAt) && Longest(order[..k], builtAt, cutoff, count, k)
  {
    assert Retainable(order[..k], builtAt, cutoff, count, k);
  }

  /** The rows inside the window. */
  ghost function InWindow(order: seq<SnapshotId>, builtAt: map<SnapshotId, Time>, cutoff: Time): (r: set<SnapshotId>)
    requires NewestFirst(order, builtAt)
  {
    set x | x in order && builtAt[x] >= cutoff
  }

  lemma {:induction false} DistinctSize(s: seq<SnapshotId>)
    requires forall i, j :: 0 <= i < j < |s| ==> s[i] != s[j]
    ensures |SetOf(s)| == |s|
  {
    if s != [] {
      var n := |s| - 1;
      DistinctSize(s[..n]);
      assert s == s[..n] + [s[n]];
      assert SetOf(s) == SetOf(s[..n]) + {s[n]};
    }
  }

  /** How many rows are retained: as many as are inside the window, but no more than the count. */
  lemma RetainedCount(order: seq<SnapshotId>, builtAt: map<SnapshotId, Time>, cutoff: Time, count: nat, k: nat)
    requires NewestFirst(order, builtAt) && Longest(order, builtAt, cutoff, count, k)
    ensures k == if |InWindow(order, builtAt, cutoff)| <= count then |InWindow(order, builtAt, cutoff)| else count
  {
    var window := InWindow(order, builtAt, cutoff);
    var head := SetOf(order[..k]);
    DistinctSize(order[..k]);
    assert head <= window;
    if k < |order| && k < count {
      assert !Retainable(order, builtAt, cutoff, count, k + 1);
      assert builtAt[order[k]] < cutoff;
      forall x | x in window ensures x in head {
        var i :| 0 <= i < |order| && order[i] == x;
        assert i < k;
        assert order[..k][i] == x;
      }
      assert head == window;
    } else if k == |order| {
      assert order[..k] == order;
      assert head == window;
    } else {
      SubsetSize(head, window);
    }
  }

  lemma {:induction false} SubsetSize(a: set<SnapshotId>, b: set<SnapshotId>)
    requires a <= b
    ensures |a| <= |b|
  {
    if a != {} {
      var x :| x in a;
      SubsetSize(a - {x}, b - {x});
    }
  }
}
