/**
 One eviction pass over the local snapshot cache: entries are visited oldest
 first and deleted until the cache fits, skipping what is, at that moment, pinned,
 in use, or a root filesystem backing a snapshot in use.
 */
module CacheEviction {
  import Runs

  /** A file tree; `directoryBytes` adds up the sizes of its files. */
  datatype Node = File(size: nat) | Directory(children: seq<Node>)

  function Bytes(n: Node): (b: nat)
    decreases n, 0
  {
    match n
    case File(size) => size
    case Directory(children) => BytesOf(children)
  }

  function BytesOf(ns: seq<Node>): (b: nat)
    decreases ns, 1
  {
    if ns == [] then 0 else Bytes(ns[0]) + BytesOf(ns[1..])
  }

  /** The sizes of all files in the tree, depth first. */
  function FileSizes(n: Node): (sizes: seq<nat>)
    decreases n, 0
  {
    match n
    case File(size) => [size]
    case Directory(children) => SizesIn(children)
  }

  function SizesIn(ns: seq<Node>): (sizes: seq<nat>)
    decreases ns, 1
  {
    if ns == [] then [] else FileSizes(ns[0]) + SizesIn(ns[1..])
  }

  function Sum(sizes: seq<nat>): (total: nat) {
    if sizes == [] then 0 else sizes[0] + Sum(sizes[1..])
  }

  lemma {:induction false} SumAppend(a: seq<nat>, b: seq<nat>)
    ensures Sum(a + b) == Sum(a) + Sum(b)
  {
    if a == [] {
      assert a + b == b;
    } else {
      assert (a + b)[0] == a[0] && (a + b)[1..] == a[1..] + b;
      SumAppend(a[1..], b);
    }
  }

  /** The bytes of an entry are those of all files below it, however deep, and of nothing else. */
  lemma {:induction false} BytesIsSumOfFiles(n: Node)
    ensures Bytes(n) == Sum(FileSizes(n))
    decreases n, 0
  {
    match n
    case File(size) => assert [size][1..] == [];
    case Directory(children) => BytesOfIsSumOfFiles(children);
  }

  lemma {:induction false} BytesOfIsSumOfFiles(ns: seq<Node>)
    ensures BytesOf(ns) == Sum(SizesIn(ns))
    decreases ns, 1
  {
    if ns != [] {
      BytesIsSumOfFiles(ns[0]);
      BytesOfIsSumOfFiles(ns[1..]);
      SumAppend(FileSizes(ns[0]), SizesIn(ns[1..]));
    }
  }

  datatype Kind = SnapshotEntry | RootfsEntry

  datatype Entry = Entry(id: string, kind: Kind, path: string, mtime: int, tree: Node)

  function Size(e: Entry): (b: nat) {
    Bytes(e.tree)
  }

  function Total(es: seq<Entry>): (b: nat) {
    if es == [] then 0 else Size(es[0]) + Total(es[1..])
  }

  /** What the cache is protecting; `rootfs` is the root filesystem of each pinned snapshot. */
  datatype Guards = Guards(pinned: set<string>, inUse: set<string>, rootfs: map<string, string>)

  predicate Protected(g: Guards, e: Entry) {
    match e.kind
    case SnapshotEntry => e.id in g.pinned || e.id in g.inUse
    case RootfsEntry => exists id :: id in g.rootfs && e.path + "/" <= g.rootfs[id]
  }

  /** What `resolve` and `release` do to the guards. */
  datatype Change =
    | Starts(id: string)                   // a resolve is under way
    | Pins(id: string, rootfs: string)     // it has materialized its files
    | Ends(id: string)                     // it returns
    | Unpins(id: string)                   // the snapshot is released

  function Changed(g: Guards, c: Change): Guards {
    match c
    case Starts(id) => g.(inUse := g.inUse + {id})
    case Pins(id, rootfs) => g.(pinned := g.pinned + {id}, rootfs := g.rootfs[id := rootfs])
    case Ends(id) => g.(inUse := g.inUse - {id})
    case Unpins(id) => g.(pinned := g.pinned - {id}, rootfs := g.rootfs - {id})
  }

  function GuardsAfter(g: Guards, cs: seq<Change>): Guards {
    if cs == [] then g else Changed(GuardsAfter(g, cs[..|cs| - 1]), cs[|cs| - 1])
  }

  /** The guards as the pass tests them for an entry, and what happens to them before it has deleted the entry. */
  datatype Moment = Moment(tested: Guards, meanwhile: seq<Change>)

  /** An entry as the pass comes to it. */
  datatype Visit = Visit(entry: Entry, moment: Moment)

  predicate Skipped(v: Visit) {
    Protected(v.moment.tested, v.entry)
  }

  function Visits(order: seq<Entry>, seen: seq<Moment>): (r: seq<Visit>)
    requires |seen| == |order|
  {
    seq(|order|, i requires 0 <= i < |order| => Visit(order[i], seen[i]))
  }

  /** The visits at which the entry is found unprotected. */
  function Unskipped(vs: seq<Visit>): (r: seq<Visit>) {
    if vs == [] then []
    else if Skipped(vs[0]) then Unskipped(vs[1..])
    else [vs[0]] + Unskipped(vs[1..])
  }

  function Visited(vs: seq<Visit>): (r: seq<Entry>) {
    if vs == [] then [] else [vs[0].entry] + Visited(vs[1..])
  }

  /** The entries eviction may delete, in the order it considers them. */
  function Candidates(vs: seq<Visit>): (r: seq<Entry>) {
    Visited(Unskipped(vs))
  }

  /** The entries it passes over, likewise. */
  ghost function Spared(vs: seq<Visit>): (r: seq<Entry>) {
    if vs == [] then []
    else if Skipped(vs[0]) then [vs[0].entry] + Spared(vs[1..])
    else Spared(vs[1..])
  }

  ghost predicate OldestFirst(es: seq<Entry>) {
    forall i, j :: 0 <= i < j < |es| ==> es[i].mtime <= es[j].mtime
  }

  lemma {:induction false} TotalAppend(a: seq<Entry>, b: seq<Entry>)
    ensures Total(a + b) == Total(a) + Total(b)
  {
    if a == [] {
      assert a + b == b;
    } else {
      assert (a + b)[0] == a[0] && (a + b)[1..] == a[1..] + b;
      TotalAppend(a[1..], b);
    }
  }

  lemma {:induction false} VisitedAppend(a: seq<Visit>, b: seq<Visit>)
    ensures Visited(a + b) == Visited(a) + Visited(b)
  {
    var all := a + b;
    if a == [] {
      assert all == b;
    } else {
      assert all[0] == a[0] && all[1..] == a[1..] + b;
      VisitedAppend(a[1..], b);
    }
  }

  lemma {:induction false} UnskippedAppend(a: seq<Visit>, b: seq<Visit>)
    ensures Unskipped(a + b) == Unskipped(a) + Unskipped(b)
  {
    var all := a + b;
    if a == [] {
      assert all == b;
    } else {
      assert all[0] == a[0] && all[1..] == a[1..] + b;
      UnskippedAppend(a[1..], b);
    }
  }

  lemma {:induction false} SparedAppend(a: seq<Visit>, b: seq<Visit>)
    ensures Spared(a + b) == Spared(a) + Spared(b)
  {
    var all := a + b;
    if a == [] {
      assert all == b;
    } else {
      assert all[0] == a[0] && all[1..] == a[1..] + b;
      SparedAppend(a[1..], b);
    }
  }

  lemma VisitsAppend(a: seq<Visit>, b: seq<Visit>)
    ensures Visited(a + b) == Visited(a) + Visited(b)
    ensures Candidates(a + b) == Candidates(a) + Candidates(b)
    ensures Spared(a + b) == Spared(a) + Spared(b)
  {
    VisitedAppend(a, b);
    UnskippedAppend(a, b);
    VisitedAppend(Unskipped(a), Unskipped(b));
    SparedAppend(a, b);
  }

  lemma {:induction false} UnskippedMeaning(vs: seq<Visit>)
    ensures forall v :: v in Unskipped(vs) <==> v in vs && !Skipped(v)
  {
    if vs != [] {
      assert forall v :: v in vs <==> v == vs[0] || v in vs[1..];
      UnskippedMeaning(vs[1..]);
    }
  }

  lemma {:induction false} VisitedMeaning(vs: seq<Visit>)
    ensures forall e :: e in Visited(vs) <==> exists v :: v in vs && v.entry == e
  {
    if vs != [] {
      assert forall v :: v in vs <==> v == vs[0] || v in vs[1..];
      VisitedMeaning(vs[1..]);
    }
  }

  /**
   Nothing the cache protects is in the entry: the snapshot is neither pinned nor being
   resolved, and no pinned snapshot has its root filesystem below that directory.
   */
  ghost predicate Deletable(g: Guards, e: Entry) {
    && (e.kind.SnapshotEntry? ==> e.id !in g.pinned && e.id !in g.inUse)
    && (e.kind.RootfsEntry? ==> forall id :: id in g.rootfs ==> !(e.path + "/" <= g.rootfs[id]))
  }

  lemma SkipsWhatIsProtected(v: Visit)
    ensures Skipped(v) <==> !Deletable(v.moment.tested, v.entry)
  {
  }

  /** A candidate is an entry in which nothing was protected at the moment it was tested. */
  lemma CandidatesAreUnprotected(vs: seq<Visit>)
    ensures forall e :: e in Candidates(vs) <==> exists v :: v in vs && v.entry == e && Deletable(v.moment.tested, e)
  {
    UnskippedMeaning(vs);
    VisitedMeaning(Unskipped(vs));
    forall v ensures Skipped(v) <==> !Deletable(v.moment.tested, v.entry) {
      SkipsWhatIsProtected(v);
    }
  }

  lemma {:induction false} VisitedOrder(order: seq<Entry>, seen: seq<Moment>)
    requires |seen| == |order|
    ensures Visited(Visits(order, seen)) == order
  {
    if order != [] {
      VisitedOrder(order[1..], seen[1..]);
      assert Visits(order, seen)[1..] == Visits(order[1..], seen[1..]);
    }
  }

  // ---------------------------------------------------------------------------
  // The sort

  /** Insertion behind every entry that is not younger: ties keep their order. */
  function Inserted(e: Entry, es: seq<Entry>): (r: seq<Entry>) {
    if es == [] then [e]
    else if es[0].mtime <= e.mtime then [es[0]] + Inserted(e, es[1..])
    else [e] + es
  }

  /** The stable sort by modification time. */
  function ByAge(es: seq<Entry>): (r: seq<Entry>) {
    if es == [] then [] else Inserted(es[|es| - 1], ByAge(es[..|es| - 1]))
  }

  lemma {:induction false} InsertedAdds(e: Entry, es: seq<Entry>)
    ensures multiset(Inserted(e, es)) == multiset(es) + multiset{e}
    ensures Total(Inserted(e, es)) == Total(es) + Size(e)
  {
    if es != [] && es[0].mtime <= e.mtime {
      InsertedAdds(e, es[1..]);
      assert es == [es[0]] + es[1..];
      assert ([es[0]] + Inserted(e, es[1..]))[1..] == Inserted(e, es[1..]);
    } else {
      assert ([e] + es)[1..] == es;
    }
  }

  /** An entry no younger than a sorted run's first goes in front of it. */
  lemma Prepended(e: Entry, es: seq<Entry>)
    requires OldestFirst(es) && forall x :: x in es ==> e.mtime <= x.mtime
    ensures OldestFirst([e] + es)
  {
    var r := [e] + es;
    forall i, j | 0 <= i < j < |r| ensures r[i].mtime <= r[j].mtime {
      assert r[j] == es[j - 1] && es[j - 1] in es;
    }
  }

  lemma {:induction false} InsertedSorts(e: Entry, es: seq<Entry>)
    requires OldestFirst(es)
    ensures OldestFirst(Inserted(e, es))
  {
    if es == [] {
    } else if es[0].mtime <= e.mtime {
      var rest := Inserted(e, es[1..]);
      InsertedSorts(e, es[1..]);
      InsertedAdds(e, es[1..]);
      forall x | x in rest ensures es[0].mtime <= x.mtime {
        assert x in multiset(rest);
        assert x == e || x in es[1..];
      }
      Prepended(es[0], rest);
    } else {
      forall x | x in es ensures e.mtime <= x.mtime {
        var i :| 0 <= i < |es| && es[i] == x;
        assert i == 0 || es[0].mtime <= es[i].mtime;
      }
      Prepended(e, es);
    }
  }

  lemma {:induction false} ByAgeSorts(es: seq<Entry>)
    ensures OldestFirst(ByAge(es)) && multiset(ByAge(es)) == multiset(es) && Total(ByAge(es)) == Total(es)
  {
    if es != [] {
      var init, last := es[..|es| - 1], es[|es| - 1];
      ByAgeSorts(init);
      InsertedSorts(last, ByAge(init));
      InsertedAdds(last, ByAge(init));
      SnocAdds(es);
    }
  }

  lemma SnocAdds(es: seq<Entry>)
    requires es != []
    ensures var init, last := es[..|es| - 1], es[|es| - 1];
      multiset(es) == multiset(init) + multiset{last} && Total(es) == Total(init) + Size(last)
  {
    var init, last := es[..|es| - 1], es[|es| - 1];
    assert es == init + [last];
    TotalAppend(init, [last]);
    assert [last][1..] == [];
  }

  // ---------------------------------------------------------------------------
  // The pass

  /**
   `removed` is the shortest oldest-first run of entries found unprotected whose
   deletion makes the cache fit, or all of them if even that does not.
   */
  ghost predicate ShortestRun(vs: seq<Visit>, limit: nat, removed: seq<Entry>) {
    var all := Candidates(vs);
    && removed <= all
    && (Total(Visited(vs)) - Total(removed) <= limit || removed == all)
    && forall k :: 0 <= k < |removed| ==> Total(Visited(vs)) - Total(removed[..k]) > limit
  }

  /** Nothing in a removed entry was protected when it was visited. */
  ghost predicate OnlyUnprotected(vs: seq<Visit>, removed: seq<Entry>) {
    forall e :: e in removed ==> exists v :: v in vs && v.entry == e && Deletable(v.moment.tested, e)
  }

  class SnapshotCache {
    var entries: seq<Entry>
    const limit: nat

    constructor (entries: seq<Entry>, limit: nat)
      ensures this.entries == entries && this.limit == limit
    {
      this.entries, this.limit := entries, limit;
    }

    /** One eviction pass; `seen` is what the cache protects as the pass tests and deletes each entry. */
    method Evict(seen: seq<Moment>) returns (used: int, removed: seq<Entry>)
      requires |seen| == |entries|
      modifies `entries
      ensures var order := ByAge(old(entries));
        && OldestFirst(order) && multiset(order) == multiset(old(entries)) && |order| == |seen|
        && ShortestRun(Visits(order, seen), limit, removed)
        && OnlyUnprotected(Visits(order, seen), removed)
      ensures multiset(entries) + multiset(removed) == multiset(old(entries))
      ensures used == Total(entries)
    {
      var order := ByAge(entries);
      ByAgeSorts(entries);
      assert |order| == |multiset(order)|;
      assert |multiset(entries)| == |entries|;
      VisitedOrder(order, seen);
      var survivors;
      used, removed, survivors := Pass(Visits(order, seen), limit);
      entries := survivors;
    }
  }

  /** The deletion loop, over the visits in the order given. */
  method Pass(vs: seq<Visit>, limit: nat) returns (used: int, removed: seq<Entry>, survivors: seq<Entry>)
    ensures ShortestRun(vs, limit, removed) && OnlyUnprotected(vs, removed)
    ensures multiset(survivors) + multiset(removed) == multiset(Visited(vs))
    ensures used == Total(survivors)
  {
    used, removed := Total(Visited(vs)), [];
    var kept: seq<Entry> := [];
    var i := 0;
    Beginning(vs, limit);
    while i < |vs| && used > limit
      invariant Progress(vs, limit, i, kept, removed, used)
    {
      Advance(vs, limit, i, kept, removed, used);
      if Protected(vs[i].moment.tested, vs[i].entry) {
        kept := kept + [vs[i].entry];
      } else {
        removed := removed + [vs[i].entry];
        used := used - Size(vs[i].entry);
      }
      i := i + 1;
    }
    Conclusion(vs, limit, i, kept, removed, used);
    survivors := kept + Visited(vs[i..]);
  }

  /** The state of the pass after `i` visits: what was kept, what was removed, and the running total. */
  ghost predicate Progress(vs: seq<Visit>, limit: nat, i: nat, kept: seq<Entry>, removed: seq<Entry>, used: int) {
    && i <= |vs|
    && kept == Spared(vs[..i])
    && removed == Candidates(vs[..i])
    && used == Total(Visited(vs)) - Total(removed)
    && forall k :: 0 <= k < |removed| ==> Total(Visited(vs)) - Total(removed[..k]) > limit
  }

  /** When the cache fits, or nothing is left to visit, what was removed is the shortest run. */
  lemma Conclusion(vs: seq<Visit>, limit: nat, i: nat, kept: seq<Entry>, removed: seq<Entry>, used: int)
    requires Progress(vs, limit, i, kept, removed, used) && (i == |vs| || used <= limit)
    ensures ShortestRun(vs, limit, removed) && OnlyUnprotected(vs, removed)
    ensures var left := kept + Visited(vs[i..]);
      multiset(left) + multiset(removed) == multiset(Visited(vs)) && used == Total(left)
  {
    Partitions(vs, i);
    Concluding(vs, limit, i, removed, used);
  }

  lemma Beginning(vs: seq<Visit>, limit: nat)
    ensures Progress(vs, limit, 0, [], [], Total(Visited(vs)))
  {
    assert vs[..0] == [];
  }

  lemma Concluding(vs: seq<Visit>, limit: nat, i: nat, removed: seq<Entry>, used: int)
    requires i <= |vs| && removed == Candidates(vs[..i]) && used == Total(Visited(vs)) - Total(removed)
    requires forall k :: 0 <= k < |removed| ==> Total(Visited(vs)) - Total(removed[..k]) > limit
    requires i == |vs| || used <= limit
    ensures ShortestRun(vs, limit, removed) && OnlyUnprotected(vs, removed)
  {
    CandidatesFrom(vs, i);
    RemovedUnprotected(vs, i);
  }

  lemma CandidatesFrom(vs: seq<Visit>, i: nat)
    requires i <= |vs|
    ensures Candidates(vs[..i]) <= Candidates(vs) && (i == |vs| ==> Candidates(vs[..i]) == Candidates(vs))
  {
    assert vs == vs[..i] + vs[i..];
    VisitsAppend(vs[..i], vs[i..]);
    assert i == |vs| ==> vs[..i] == vs;
  }

  lemma RemovedUnprotected(vs: seq<Visit>, i: nat)
    requires i <= |vs|
    ensures OnlyUnprotected(vs, Candidates(vs[..i]))
  {
    CandidatesAreUnprotected(vs[..i]);
    forall e | e in Candidates(vs[..i])
      ensures exists v :: v in vs && v.entry == e && Deletable(v.moment.tested, e)
    {
      var v :| v in vs[..i] && v.entry == e && Deletable(v.moment.tested, e);
      assert v in vs;
    }
  }

  /** What was removed and what is left make up the cache. */
  lemma Partitions(vs: seq<Visit>, i: nat)
    requires i <= |vs|
    ensures var removed, left := Candidates(vs[..i]), Spared(vs[..i]) + Visited(vs[i..]);
      multiset(left) + multiset(removed) == multiset(Visited(vs)) && Total(left) + Total(removed) == Total(Visited(vs))
  {
    assert vs == vs[..i] + vs[i..];
    VisitedAppend(vs[..i], vs[i..]);
    PrefixPartitions(vs[..i]);
    Regroup(Spared(vs[..i]), Candidates(vs[..i]), Visited(vs[..i]), Visited(vs[i..]));
  }

  lemma Regroup(kept: seq<Entry>, removed: seq<Entry>, before: seq<Entry>, rest: seq<Entry>)
    requires multiset(kept) + multiset(removed) == multiset(before) && Total(kept) + Total(removed) == Total(before)
    ensures multiset(kept + rest) + multiset(removed) == multiset(before + rest)
    ensures Total(kept + rest) + Total(removed) == Total(before + rest)
  {
    TotalAppend(kept, rest);
    TotalAppend(before, rest);
  }

  lemma {:induction false} PrefixPartitions(vs: seq<Visit>)
    ensures multiset(Spared(vs)) + multiset(Candidates(vs)) == multiset(Visited(vs))
    ensures Total(Spared(vs)) + Total(Candidates(vs)) == Total(Visited(vs))
  {
    if vs != [] {
      var e := vs[0].entry;
      PrefixPartitions(vs[1..]);
      TotalAppend([e], Spared(vs[1..]));
      TotalAppend([e], Candidates(vs[1..]));
      TotalAppend([e], Visited(vs[1..]));
    }
  }

  lemma VisitsSnoc(vs: seq<Visit>, i: nat)
    requires i < |vs|
    ensures var e := vs[i].entry;
      && Candidates(vs[..i + 1]) == Candidates(vs[..i]) + (if Skipped(vs[i]) then [] else [e])
      && Spared(vs[..i + 1]) == Spared(vs[..i]) + (if Skipped(vs[i]) then [e] else [])
  {
    assert vs[..i + 1] == vs[..i] + [vs[i]];
    VisitsAppend(vs[..i], [vs[i]]);
    OneVisit(vs[i]);
  }

  lemma OneVisit(v: Visit)
    ensures Visited([v]) == [v.entry]
    ensures Candidates([v]) == if Skipped(v) then [] else [v.entry]
    ensures Spared([v]) == if Skipped(v) then [v.entry] else []
  {
    assert [v][1..] == [];
    assert Unskipped([v]) == if Skipped(v) then [] else [v];
  }

  /** Passing over a protected entry, or removing another one while the cache does not fit, is progress. */
  lemma Advance(vs: seq<Visit>, limit: nat, i: nat, kept: seq<Entry>, removed: seq<Entry>, used: int)
    requires i < |vs| && Progress(vs, limit, i, kept, removed, used) && used > limit
    ensures var e := vs[i].entry;
      if Skipped(vs[i]) then Progress(vs, limit, i + 1, kept + [e], removed, used)
      else Progress(vs, limit, i + 1, kept, removed + [e], used - Size(e))
  {
    var e := vs[i].entry;
    VisitsSnoc(vs, i);
    if !Skipped(vs[i]) {
      var longer := removed + [e];
      TotalAppend(removed, [e]);
      assert [e][1..] == [];
      forall k | 0 <= k < |longer| ensures Total(Visited(vs)) - Total(longer[..k]) > limit {
        assert longer[..k] == removed[..k];
        assert k == |removed| ==> removed[..k] == removed;
      }
    }
  }

  /** The shortest run is determined by the visits and the limit alone. */
  lemma ShortestRunIsUnique(vs: seq<Visit>, limit: nat, a: seq<Entry>, b: seq<Entry>)
    requires ShortestRun(vs, limit, a) && ShortestRun(vs, limit, b)
    ensures a == b
  {
    var all := Candidates(vs);
    assert a == all[..|a|] && b == all[..|b|];
    assert |a| < |b| ==> b[..|a|] == a;
    assert |b| < |a| ==> a[..|b|] == b;
  }

  // ---------------------------------------------------------------------------
  // Exactly when the pass deletes what is protected

  predicate ProtectedAtDeletion(v: Visit) {
    Protected(GuardsAfter(v.moment.tested, v.moment.meanwhile), v.entry)
  }

  /** The change that can begin to protect the entry: a resolve of it, or a pin backed by it. */
  predicate Guarding(c: Change, e: Entry) {
    match e.kind
    case SnapshotEntry => (c.Starts? || c.Pins?) && c.id == e.id
    case RootfsEntry => c.Pins? && e.path + "/" <= c.rootfs
  }

  lemma OnlyGuardingProtects(g: Guards, c: Change, e: Entry)
    requires !Protected(g, e) && Protected(Changed(g, c), e)
    ensures Guarding(c, e)
  {
    if e.kind.RootfsEntry? {
      var id :| id in Changed(g, c).rootfs && e.path + "/" <= Changed(g, c).rootfs[id];
      assert id in g.rootfs ==> !(e.path + "/" <= g.rootfs[id]);
    }
  }

  /** The entry is protected after the first `k` changes between its test and its deletion. */
  predicate ProtectedAfter(v: Visit, k: nat)
    requires k <= |v.moment.meanwhile|
  {
    Protected(GuardsAfter(v.moment.tested, v.moment.meanwhile[..k]), v.entry)
  }

  /** Its k-th change begins a protection that lasts until the deletion. */
  ghost predicate BeganAt(v: Visit, k: nat) {
    && k < |v.moment.meanwhile| && !ProtectedAfter(v, k)
    && forall j: nat :: k < j <= |v.moment.meanwhile| ==> ProtectedAfter(v, j)
  }

  lemma {:induction false} ProtectionBegan(v: Visit, k: nat) returns (began: nat)
    requires k <= |v.moment.meanwhile| && !Skipped(v)
    requires forall j: nat :: k <= j <= |v.moment.meanwhile| ==> ProtectedAfter(v, j)
    ensures BeganAt(v, began)
  {
    assert v.moment.meanwhile[..0] == [];
    assert !ProtectedAfter(v, 0);
    if ProtectedAfter(v, k - 1) {
      began := ProtectionBegan(v, k - 1);
    } else {
      began := k - 1;
    }
  }

  lemma ChangeAt(v: Visit, k: nat)
    requires k < |v.moment.meanwhile|
    ensures GuardsAfter(v.moment.tested, v.moment.meanwhile[..k + 1])
         == Changed(GuardsAfter(v.moment.tested, v.moment.meanwhile[..k]), v.moment.meanwhile[k])
  {
    assert v.moment.meanwhile[..k + 1][..k] == v.moment.meanwhile[..k];
  }

  /**
   An entry the pass found unprotected is protected when it is deleted if and only if a
   protection that lasts until then began after its own test; what begins one is a
   resolve of that snapshot, or a pin whose root filesystem lies in the entry.
   */
  lemma ProtectedAtDeletionExactlyWhenBegun(v: Visit)
    requires !Skipped(v)
    ensures ProtectedAtDeletion(v) <==> exists k: nat :: BeganAt(v, k)
    ensures forall k: nat :: BeganAt(v, k) ==> Guarding(v.moment.meanwhile[k], v.entry)
  {
    var n := |v.moment.meanwhile|;
    assert v.moment.meanwhile[..n] == v.moment.meanwhile;
    if ProtectedAtDeletion(v) {
      var k := ProtectionBegan(v, n);
    }
    forall k: nat | BeganAt(v, k) ensures Guarding(v.moment.meanwhile[k], v.entry) {
      ChangeAt(v, k);
      assert ProtectedAfter(v, k + 1);
      OnlyGuardingProtects(GuardsAfter(v.moment.tested, v.moment.meanwhile[..k]), v.moment.meanwhile[k], v.entry);
    }
    assert forall k: nat :: BeganAt(v, k) ==> ProtectedAfter(v, n);
  }

  lemma {:induction false} VisitedAt(vs: seq<Visit>, i: nat)
    requires i < |vs|
    ensures |Visited(vs)| == |vs| && Visited(vs)[i] == vs[i].entry
  {
    if |vs| > 1 {
      VisitedAt(vs[1..], if i == 0 then 0 else i - 1);
    }
  }

  /** The visits at which a pass deletes, given what it removed. */
  ghost function Deletions(vs: seq<Visit>, removed: seq<Entry>): (r: seq<Visit>)
    requires removed <= Candidates(vs)
    ensures |r| == |removed|
  {
    VisitedLength(Unskipped(vs));
    Unskipped(vs)[..|removed|]
  }

  lemma {:induction false} VisitedLength(vs: seq<Visit>)
    ensures |Visited(vs)| == |vs|
  {
    if vs != [] {
      VisitedLength(vs[1..]);
    }
  }

  /**
   A pass deletes something protected if and only if a lasting protection of some deleted
   entry began between that entry's own test and deletion; so it deletes nothing protected
   when no resolve of a deleted entry, and no pin backed by one, falls in that window.
   */
  lemma DeletesProtectedExactlyInWindow(vs: seq<Visit>, limit: nat, removed: seq<Entry>)
    requires ShortestRun(vs, limit, removed)
    ensures var ds := Deletions(vs, removed);
      && (forall i :: 0 <= i < |removed| ==> ds[i].entry == removed[i])
      && ((exists v :: v in ds && ProtectedAtDeletion(v)) <==> exists v, k: nat :: v in ds && BeganAt(v, k))
      && ((forall v, c :: v in ds && c in v.moment.meanwhile ==> !Guarding(c, v.entry)) ==>
            forall v :: v in ds ==> !ProtectedAtDeletion(v))
  {
    var ds := Deletions(vs, removed);
    UnskippedMeaning(vs);
    VisitedLength(Unskipped(vs));
    forall i | 0 <= i < |removed| ensures ds[i].entry == removed[i] {
      VisitedAt(Unskipped(vs), i);
    }
    forall v | v in ds
      ensures ProtectedAtDeletion(v) <==> exists k: nat :: BeganAt(v, k)
      ensures forall k: nat :: BeganAt(v, k) ==> Guarding(v.moment.meanwhile[k], v.entry)
    {
      assert v in Unskipped(vs);
      ProtectedAtDeletionExactlyWhenBegun(v);
    }
  }

  /** A resolve that starts after the test loses its files: the pass deletes a snapshot in use. */
  lemma PassCanDeleteProtected(id: string, path: string, size: nat)
    requires size > 0
    ensures var e := Entry(id, SnapshotEntry, path, 0, File(size));
      var vs := [Visit(e, Moment(Guards({}, {}, map[]), [Starts(id)]))];
      && ShortestRun(vs, 0, [e]) && Deletions(vs, [e]) == vs && ProtectedAtDeletion(vs[0])
  {
    var e := Entry(id, SnapshotEntry, path, 0, File(size));
    var g := Guards({}, {}, map[]);
    var v := Visit(e, Moment(g, [Starts(id)]));
    var vs := [v];
    OneVisit(v);
    assert Visited(vs) == [e];
    assert Candidates(vs) == [e];
    assert vs[1..] == [] && Unskipped(vs) == [v];
    assert Unskipped(vs)[..1] == vs;
    assert [e][1..] == [] && Total([e]) == size && [e][..0] == [];
    assert [Starts(id)][..0] == [] && GuardsAfter(g, [Starts(id)]) == Changed(g, Starts(id));
  }

  // ---------------------------------------------------------------------------
  // What the guards stand for

  const UNGUARDED: Guards := Guards({}, {}, map[])

  ghost function GuardsBy(): (after: seq<Change> -> Guards) {
    (cs: seq<Change>) => GuardsAfter(UNGUARDED, cs)
  }

  lemma ChangeLast(cs: seq<Change>, c: Change)
    ensures GuardsAfter(UNGUARDED, cs + [c]) == Changed(GuardsAfter(UNGUARDED, cs), c)
  {
    assert (cs + [c])[..|cs|] == cs;
  }

  /**
   A snapshot is in use since its resolve began and until that returns; it is pinned, with
   its root filesystem, since the resolve had materialized it and until it is released.
   */
  lemma GuardsAreSince(cs: seq<Change>, id: string, rootfs: string)
    ensures var g := GuardsAfter(UNGUARDED, cs);
      && (id in g.inUse <==>
            Runs.Since(GuardsBy(), cs, (g: Guards, c: Change) => c == Starts(id), (g: Guards, c: Change) => c == Ends(id)))
      && (id in g.pinned <==>
            Runs.Since(GuardsBy(), cs, (g: Guards, c: Change) => c.Pins? && c.id == id, (g: Guards, c: Change) => c == Unpins(id)))
      && ((id in g.rootfs && g.rootfs[id] == rootfs) <==>
            Runs.Since(GuardsBy(), cs, (g: Guards, c: Change) => c == Pins(id, rootfs),
                       (g: Guards, c: Change) => (c.Unpins? || c.Pins?) && c.id == id))
  {
    var inUse, pinned := (g: Guards) => id in g.inUse, (g: Guards) => id in g.pinned;
    var backed := (g: Guards) => id in g.rootfs && g.rootfs[id] == rootfs;
    var starts, ends := (g: Guards, c: Change) => c == Starts(id), (g: Guards, c: Change) => c == Ends(id);
    var pins, unpins := (g: Guards, c: Change) => c.Pins? && c.id == id, (g: Guards, c: Change) => c == Unpins(id);
    var backs := (g: Guards, c: Change) => c == Pins(id, rootfs);
    var parts := (g: Guards, c: Change) => (c.Unpins? || c.Pins?) && c.id == id;
    forall init: seq<Change>, c: Change
      ensures Runs.Follows(GuardsBy(), inUse, starts, ends, init, c)
      ensures Runs.Follows(GuardsBy(), pinned, pins, unpins, init, c)
      ensures Runs.Follows(GuardsBy(), backed, backs, parts, init, c)
    {
      ChangeLast(init, c);
    }
    Runs.FactIsSince(GuardsBy(), inUse, starts, ends, cs);
    Runs.FactIsSince(GuardsBy(), pinned, pins, unpins, cs);
    Runs.FactIsSince(GuardsBy(), backed, backs, parts, cs);
  }
}
