/**
 The guest CID allocator shared by the Firecracker drivers of one host. CIDs that
 were given back are reused smallest first; otherwise the next unused one is taken.
 A request for a session that already has a CID is refused, but only after a CID
 has been taken for it, so that CID is never handed out again.
 */
module GuestCids {
  import Runs

  type SessionId = nat
  type Cid = nat

  datatype Allocation = Allocated(cid: Cid) | AlreadyAllocated | Collision

  /**
   The pool with its history: `leaked` are the CIDs taken for requests that were
   then refused, `rejections` counts those requests, and `peak` is the most
   sessions that ever held a CID at once.
   */
  datatype Pool = Pool(start: Cid, next: Cid, released: set<Cid>, live: map<SessionId, Cid>,
                       leaked: set<Cid>, rejections: nat, peak: nat)

  ghost predicate IsLeast(s: set<Cid>, m: Cid) {
    m in s && forall x :: x in s ==> m <= x
  }

  /** Every nonempty set of CIDs has a least element. */
  lemma {:induction false} LeastExists(s: set<Cid>, y: Cid) returns (m: Cid)
    requires y in s
    ensures IsLeast(s, m)
  {
    if x :| x in s && x < y {
      m := LeastExists(s - {y}, x);
      assert forall z :: z in s ==> z == y || z in s - {y};
    } else {
      m := y;
    }
  }

  /** Live, released and leaked CIDs do not overlap and make up everything handed out so far. */
  ghost predicate Partition(p: Pool) {
    p.start <= p.next && Disjoint(p) && InBounds(p) && Covered(p)
  }

  ghost predicate Disjoint(p: Pool) {
    && (forall a, b :: a in p.live && b in p.live && p.live[a] == p.live[b] ==> a == b)
    && (forall a :: a in p.live ==> p.live[a] !in p.released && p.live[a] !in p.leaked)
    && p.released !! p.leaked
  }

  ghost predicate InBounds(p: Pool) {
    && (forall a :: a in p.live ==> p.start <= p.live[a] < p.next)
    && (forall c :: c in p.released || c in p.leaked ==> p.start <= c < p.next)
  }

  /** Every CID handed out is live, released or leaked. */
  ghost predicate Covered(p: Pool) {
    forall c :: p.start <= c < p.next ==> c in p.released || c in p.leaked || Held(p, c)
  }

  ghost predicate Held(p: Pool, c: Cid) {
    exists a :: a in p.live && p.live[a] == c
  }

  /** The number of CIDs ever handed out is accounted for, and bounded by peak demand plus refusals. */
  ghost predicate Accounted(p: Pool) {
    && p.next - p.start == |p.live| + |p.released| + p.rejections
    && |p.leaked| == p.rejections
    && |p.live| <= p.peak
    && p.next - p.start <= p.peak + p.rejections
  }

  ghost predicate Inv(p: Pool) {
    Partition(p) && Accounted(p)
  }

  /** A CID that no session holds and that was not leaked. */
  ghost predicate Free(p: Pool, c: Cid) {
    p.start <= c && !Held(p, c) && c !in p.leaked
  }

  /** The CID the pool takes: the least released one, or else the next unused one. */
  ghost predicate Takes(p: Pool, cid: Cid) {
    if p.released == {} then cid == p.next else IsLeast(p.released, cid)
  }

  /** The pool without the CID it takes. */
  function Taken(p: Pool, cid: Cid): (r: Pool) {
    if p.released == {} then p.(next := p.next + 1) else p.(released := p.released - {cid})
  }

  function Granted(p: Pool, s: SessionId, cid: Cid): (r: Pool) {
    var live := p.live[s := cid];
    Taken(p, cid).(live := live, peak := if |live| > p.peak then |live| else p.peak)
  }

  function Refused(p: Pool, cid: Cid): (r: Pool) {
    Taken(p, cid).(leaked := p.leaked + {cid}, rejections := p.rejections + 1)
  }

  function GivenBack(p: Pool, s: SessionId): (r: Pool) {
    if s in p.live then p.(live := p.live - {s}, released := p.released + {p.live[s]}) else p
  }

  /** The least CID that no session holds and that was not leaked. */
  ghost predicate LeastFree(p: Pool, cid: Cid) {
    Free(p, cid) && forall c: Cid :: Free(p, c) ==> cid <= c
  }

  /** What the pool takes is the least free CID. */
  lemma TakesLeastFree(p: Pool, cid: Cid)
    requires Inv(p) && Takes(p, cid)
    ensures LeastFree(p, cid)
  {
    forall c: Cid | Free(p, c) ensures cid <= c {
      if c < p.next {
        assert c in p.released;
      }
    }
  }

  lemma GrantCovers(p: Pool, s: SessionId, cid: Cid)
    requires Covered(p) && p.start <= p.next && Takes(p, cid) && s !in p.live
    ensures Covered(Granted(p, s, cid))
  {
    var r := Granted(p, s, cid);
    forall c | r.start <= c < r.next ensures c in r.released || c in r.leaked || Held(r, c) {
      if c == cid {
        assert r.live[s] == c;
      } else if Held(p, c) {
        var a :| a in p.live && p.live[a] == c;
        assert r.live[a] == c;
      }
    }
  }

  lemma GrantIsDisjoint(p: Pool, s: SessionId, cid: Cid)
    requires Disjoint(p) && InBounds(p) && Takes(p, cid) && Free(p, cid) && s !in p.live
    ensures Disjoint(Granted(p, s, cid))
  {
    var r := Granted(p, s, cid);
    assert cid !in r.released;
    forall a | a in p.live ensures r.live[a] == p.live[a] && p.live[a] != cid {
      assert p.live[a] == cid ==> Held(p, cid);
    }
  }

  lemma GrantStaysInBounds(p: Pool, s: SessionId, cid: Cid)
    requires p.start <= p.next && InBounds(p) && Takes(p, cid) && s !in p.live
    ensures InBounds(Granted(p, s, cid))
  {
  }

  lemma GrantPartitions(p: Pool, s: SessionId, cid: Cid)
    requires Partition(p) && Takes(p, cid) && Free(p, cid) && s !in p.live
    ensures Partition(Granted(p, s, cid))
  {
    GrantCovers(p, s, cid);
    GrantIsDisjoint(p, s, cid);
    GrantStaysInBounds(p, s, cid);
  }

  lemma GrantKeeps(p: Pool, s: SessionId, cid: Cid)
    requires Inv(p) && Takes(p, cid) && s !in p.live
    ensures Inv(Granted(p, s, cid))
  {
    TakesLeastFree(p, cid);
    GrantPartitions(p, s, cid);
    assert |p.live[s := cid]| == |p.live| + 1;
    assert p.released != {} ==> |p.released - {cid}| == |p.released| - 1;
  }

  lemma RefusalKeeps(p: Pool, cid: Cid)
    requires Inv(p) && Takes(p, cid)
    ensures Inv(Refused(p, cid))
  {
    var r := Refused(p, cid);
    TakesLeastFree(p, cid);
    forall c | r.start <= c < r.next ensures c in r.released || c in r.leaked || Held(r, c) {
      if c != cid && Held(p, c) {
        var a :| a in p.live && p.live[a] == c;
        assert r.live[a] == c;
      }
    }
  }

  lemma GivingBackKeeps(p: Pool, s: SessionId)
    requires Inv(p)
    ensures Inv(GivenBack(p, s))
  {
    if s in p.live {
      var r := GivenBack(p, s);
      var cid := p.live[s];
      assert r.live.Keys == p.live.Keys - {s};
      assert cid !in p.released;
      forall c | r.start <= c < r.next ensures c in r.released || c in r.leaked || Held(r, c) {
        if Held(p, c) && c != cid {
          var a :| a in p.live && p.live[a] == c;
          assert r.live[a] == c;
        }
      }
    }
  }

  /** A CID the pool takes is held by nobody. */
  lemma TakenKeepsLive(p: Pool, cid: Cid)
    requires Inv(p) && Takes(p, cid)
    ensures Taken(p, cid).live == p.live && cid !in p.live.Values
  {
    TakesLeastFree(p, cid);
    assert cid in p.live.Values ==> Held(p, cid);
  }

  // ---------------------------------------------------------------------------
  // What a request and a release change

  /** Every other session keeps what it holds. */
  ghost predicate OthersKeep(p: Pool, q: Pool, s: SessionId) {
    forall t :: t != s ==> (t in q.live <==> t in p.live) && (t in p.live ==> q.live[t] == p.live[t])
  }

  /**
   The session no longer holds a CID, the one it held is free and no other CID became or
   ceased to be free, no other session is affected and no CID is used up; a session that
   held none changes nothing.
   */
  ghost predicate FreesCid(p: Pool, q: Pool, s: SessionId) {
    && s !in q.live && OthersKeep(p, q, s)
    && q.start == p.start && q.next == p.next && q.leaked == p.leaked
    && q.rejections == p.rejections && q.peak == p.peak
    && (forall c: Cid :: Free(q, c) <==> Free(p, c) || (s in p.live && p.live[s] == c))
    && (s !in p.live ==> q == p)
  }

  lemma ReleaseFrees(p: Pool, s: SessionId)
    requires Inv(p)
    ensures FreesCid(p, GivenBack(p, s), s)
  {
    if s in p.live {
      var q := GivenBack(p, s);
      forall c: Cid ensures Free(q, c) <==> Free(p, c) || p.live[s] == c {
        HeldWithout(p, q, s, c);
      }
    }
  }

  lemma HeldWithout(p: Pool, q: Pool, s: SessionId, c: Cid)
    requires Inv(p) && s in p.live && q.live == p.live - {s}
    ensures Held(q, c) <==> Held(p, c) && p.live[s] != c
  {
    if a :| a in p.live && p.live[a] == c && a != s {
      assert a in q.live && q.live[a] == c;
      assert p.live[s] != c;
    }
  }

  /** The session holds the least free CID, which is free no more, and nothing else changes hands. */
  ghost predicate GrantsCid(p: Pool, q: Pool, s: SessionId, cid: Cid) {
    && LeastFree(p, cid) && s in q.live && q.live[s] == cid && OthersKeep(p, q, s)
    && (forall c: Cid :: Free(q, c) <==> Free(p, c) && c != cid)
    && q.rejections == p.rejections && q.leaked == p.leaked
  }

  lemma GrantTakes(p: Pool, s: SessionId, cid: Cid)
    requires Inv(p) && Takes(p, cid) && s !in p.live
    ensures GrantsCid(p, Granted(p, s, cid), s, cid)
  {
    TakesLeastFree(p, cid);
    var q := Granted(p, s, cid);
    forall c: Cid ensures Held(q, c) <==> Held(p, c) || c == cid {
      if a :| a in p.live && p.live[a] == c {
        assert a in q.live && q.live[a] == c;
      }
      assert s in q.live && q.live[s] == cid;
    }
  }

  /** Every session keeps what it holds, and the least free CID is lost. */
  ghost predicate LosesCid(p: Pool, q: Pool, cid: Cid) {
    && LeastFree(p, cid) && q.live == p.live && q.rejections == p.rejections + 1 && q.leaked == p.leaked + {cid}
    && (forall c: Cid :: Free(q, c) <==> Free(p, c) && c != cid)
    && q.peak == p.peak
  }

  lemma RefusalLoses(p: Pool, cid: Cid)
    requires Inv(p) && Takes(p, cid)
    ensures LosesCid(p, Refused(p, cid), cid)
  {
    TakesLeastFree(p, cid);
    var q := Refused(p, cid);
    assert forall c: Cid :: Held(q, c) <==> Held(p, c);
  }

  // ---------------------------------------------------------------------------
  // Runs of requests and releases

  datatype Label = Request(s: SessionId) | GiveBack(s: SessionId)

  lemma SomethingIsTaken(p: Pool)
    ensures exists cid :: Takes(p, cid)
  {
    if y :| y in p.released {
      var cid := LeastExists(p.released, y);
      assert Takes(p, cid);
    } else {
      assert Takes(p, p.next);
    }
  }

  /** The CID the pool takes next. */
  ghost function Choice(p: Pool): (cid: Cid)
    ensures Takes(p, cid)
  {
    SomethingIsTaken(p);
    var cid :| Takes(p, cid);
    cid
  }

  lemma ChoiceIsUnique(p: Pool, cid: Cid)
    requires Takes(p, cid)
    ensures cid == Choice(p)
  {
  }

  ghost function Next(p: Pool, l: Label): (q: Pool) {
    match l
    case Request(s) => if s in p.live then Refused(p, Choice(p)) else Granted(p, s, Choice(p))
    case GiveBack(s) => GivenBack(p, s)
  }

  ghost function After(start: Cid, ls: seq<Label>): (p: Pool) {
    Runs.Exec((p: Pool, l: Label) => Next(p, l), Pool(start, start, {}, map[], {}, 0, 0), ls)
  }

  ghost function From(start: Cid): (after: seq<Label> -> Pool) {
    (ls: seq<Label>) => After(start, ls)
  }

  lemma NextKeeps(p: Pool, l: Label)
    requires Inv(p)
    ensures Inv(Next(p, l))
  {
    match l
    case Request(s) =>
      if s in p.live {
        RefusalKeeps(p, Choice(p));
      } else {
        GrantKeeps(p, s, Choice(p));
      }
    case GiveBack(s) => GivingBackKeeps(p, s);
  }

  lemma InvAlongRuns(start: Cid, ls: seq<Label>)
    ensures Inv(After(start, ls))
  {
    var next := (p: Pool, l: Label) => Next(p, l);
    forall p: Pool, l: Label | Inv(p) ensures Inv(next(p, l)) {
      NextKeeps(p, l);
    }
    Runs.InvariantHolds(next, (p: Pool) => Inv(p), Pool(start, start, {}, map[], {}, 0, 0), ls);
  }

  /** One more label: what it changes. */
  lemma Step(start: Cid, init: seq<Label>, l: Label)
    ensures Inv(After(start, init))
    ensures var p, q := After(start, init), After(start, init + [l]);
      match l
      case Request(s) => if s in p.live then LosesCid(p, q, Choice(p)) else GrantsCid(p, q, s, Choice(p))
      case GiveBack(s) => FreesCid(p, q, s)
  {
    InvAlongRuns(start, init);
    Runs.ExecSnoc((p: Pool, l: Label) => Next(p, l), Pool(start, start, {}, map[], {}, 0, 0), init, l);
    var p := After(start, init);
    match l
    case Request(s) =>
      if s in p.live {
        RefusalLoses(p, Choice(p));
      } else {
        GrantTakes(p, s, Choice(p));
      }
    case GiveBack(s) => ReleaseFrees(p, s);
  }

  /** The request is granted this CID, the least free one. */
  ghost predicate Grants(p: Pool, l: Label, s: SessionId, cid: Cid) {
    l == Request(s) && s !in p.live && LeastFree(p, cid)
  }

  /**
   A session holds a CID exactly since it was granted that CID, the least one then free,
   and until it is given back; it holds one at all exactly if it has asked for one since
   it last gave one back.
   */
  lemma HoldsSinceGranted(start: Cid, ls: seq<Label>, s: SessionId, cid: Cid)
    ensures var p := After(start, ls);
      (s in p.live && p.live[s] == cid)
      <==> Runs.Since(From(start), ls, (p: Pool, l: Label) => Grants(p, l, s, cid), (p: Pool, l: Label) => l == GiveBack(s))
    ensures s in After(start, ls).live
        <==> Runs.Since(From(start), ls, (p: Pool, l: Label) => l == Request(s), (p: Pool, l: Label) => l == GiveBack(s))
  {
    var holds, grants := (p: Pool) => s in p.live && p.live[s] == cid, (p: Pool, l: Label) => Grants(p, l, s, cid);
    var any, asks := (p: Pool) => s in p.live, (p: Pool, l: Label) => l == Request(s);
    var off := (p: Pool, l: Label) => l == GiveBack(s);
    forall init: seq<Label>, l: Label
      ensures Runs.Follows(From(start), holds, grants, off, init, l)
      ensures Runs.Follows(From(start), any, asks, off, init, l)
    {
      HoldingStep(start, init, l, s, cid);
    }
    Runs.FactIsSince(From(start), holds, grants, off, ls);
    Runs.FactIsSince(From(start), any, asks, off, ls);
  }

  lemma HoldingStep(start: Cid, init: seq<Label>, l: Label, s: SessionId, cid: Cid)
    ensures var p, q := After(start, init), After(start, init + [l]);
      && (s in q.live && q.live[s] == cid <==> Grants(p, l, s, cid) || (s in p.live && p.live[s] == cid && l != GiveBack(s)))
      && (s in q.live <==> l == Request(s) || (s in p.live && l != GiveBack(s)))
  {
    Step(start, init, l);
  }

  /** Every request of a session that already holds a CID is counted as a rejection, and nothing else is. */
  lemma RejectionsAreRefusals(start: Cid, ls: seq<Label>)
    ensures After(start, ls).rejections
         == Runs.Times(From(start), ls, (p: Pool, l: Label) => l.Request? && l.s in p.live)
  {
    var number: Pool -> nat := (p: Pool) => p.rejections;
    var on := (p: Pool, l: Label) => l.Request? && l.s in p.live;
    forall init: seq<Label>, l: Label ensures Runs.Counts(From(start), number, on, init, l) {
      Step(start, init, l);
    }
    Runs.NumberIsTimes(From(start), number, on, ls);
  }

  /** The peak is the most sessions that held a CID at any point of the run. */
  lemma {:induction false} PeakIsReached(start: Cid, ls: seq<Label>)
    ensures forall k :: 0 <= k <= |ls| ==> |After(start, ls[..k]).live| <= After(start, ls).peak
    ensures exists k :: 0 <= k <= |ls| && |After(start, ls[..k]).live| == After(start, ls).peak
  {
    if ls == [] {
      assert ls[..0] == [];
    } else {
      var init, l := ls[..|ls| - 1], ls[|ls| - 1];
      assert ls == init + [l] && ls[..|ls|] == ls;
      PeakIsReached(start, init);
      PeakStep(start, init, l);
      assert forall k :: 0 <= k <= |init| ==> ls[..k] == init[..k];
      var k :| 0 <= k <= |init| && |After(start, init[..k]).live| == After(start, init).peak;
      assert |After(start, ls[..k]).live| == After(start, init).peak;
      assert |After(start, ls[..|ls|]).live| == |After(start, ls).live|;
    }
  }

  lemma PeakStep(start: Cid, init: seq<Label>, l: Label)
    ensures var p, q := After(start, init), After(start, init + [l]);
      && |p.live| <= p.peak && |q.live| <= q.peak && p.peak <= q.peak
      && (q.peak == p.peak || q.peak == |q.live|)
  {
    InvAlongRuns(start, init);
    InvAlongRuns(start, init + [l]);
    Runs.ExecSnoc((p: Pool, l: Label) => Next(p, l), Pool(start, start, {}, map[], {}, 0, 0), init, l);
  }

  class GuestCidPool {
    const start: Cid
    var next: Cid
    var released: set<Cid>
    var live: map<SessionId, Cid>
    ghost var leaked: set<Cid>
    ghost var rejections: nat
    ghost var peak: nat

    ghost function Contents(): (p: Pool)
      reads this
    {
      Pool(start, next, released, live, leaked, rejections, peak)
    }

    ghost predicate Valid()
      reads this
    {
      Inv(Contents())
    }

    constructor (start: Cid)
      ensures Valid() && Contents() == Pool(start, start, {}, map[], {}, 0, 0)
    {
      this.start, next, released, live := start, start, {}, map[];
      leaked, rejections, peak := {}, 0, 0;
    }

    /** The least released CID if there is one, otherwise the next unused one. */
    method Take() returns (cid: Cid)
      requires Valid()
      modifies `next, `released
      ensures Takes(old(Contents()), cid) && Contents() == Taken(old(Contents()), cid)
    {
      cid := next;
      if released != {} {
        ghost var y :| y in released;
        ghost var m := LeastExists(released, y);
        cid :| cid in released && forall x :: x in released ==> cid <= x;
        released := released - {cid};
      } else {
        next := next + 1;
      }
    }

    /**
     Allocation: a new session gets the least free CID, a session that already has
     one is refused at the price of that CID, and a collision never happens.
     */
    method Allocate(session: SessionId) returns (r: Allocation)
      requires Valid()
      modifies this
      ensures Valid() && !r.Collision?
      ensures r.AlreadyAllocated? <==> session in old(live)
      ensures r.Allocated? ==>
        Contents() == Granted(old(Contents()), session, r.cid) && LeastFree(old(Contents()), r.cid)
      ensures r.AlreadyAllocated? ==>
        exists cid :: Takes(old(Contents()), cid) && Contents() == Refused(old(Contents()), cid)
      ensures r.Allocated? ==> GrantsCid(old(Contents()), Contents(), session, r.cid)
      ensures Contents() == Next(old(Contents()), Request(session))
    {
      ghost var p := Contents();
      var cid := Take();
      ChoiceIsUnique(p, cid);
      TakesLeastFree(p, cid);
      TakenKeepsLive(p, cid);
      if session in live {
        Leak(p, cid);
        return AlreadyAllocated;
      }
      if cid in live.Values {
        assert false;
        return Collision;
      }
      Assign(p, session, cid);
      GrantTakes(p, session, cid);
      r := Allocated(cid);
    }

    /** The taken CID becomes the session's. */
    method Assign(ghost p: Pool, session: SessionId, cid: Cid)
      requires Inv(p) && Takes(p, cid) && Contents() == Taken(p, cid) && session !in p.live
      modifies `live, `peak
      ensures Valid() && Contents() == Granted(p, session, cid)
    {
      live := live[session := cid];
      peak := if |live| > peak then |live| else peak;
      assert Contents() == Granted(p, session, cid);
      assert Inv(Granted(p, session, cid)) by { GrantKeeps(p, session, cid); }
    }

    /** The taken CID is never handed out again. */
    ghost method Leak(p: Pool, cid: Cid)
      requires Inv(p) && Takes(p, cid) && Contents() == Taken(p, cid)
      modifies `leaked, `rejections
      ensures Valid() && Contents() == Refused(p, cid)
    {
      leaked, rejections := leaked + {cid}, rejections + 1;
      assert Contents() == Refused(p, cid);
      assert Inv(Refused(p, cid)) by { RefusalKeeps(p, cid); }
    }

    /** Giving a session's CID back; a session without one is ignored. */
    method Release(session: SessionId)
      requires Valid()
      modifies this
      ensures Valid() && Contents() == GivenBack(old(Contents()), session)
      ensures FreesCid(old(Contents()), Contents(), session)
      ensures Contents() == Next(old(Contents()), GiveBack(session))
    {
      ghost var p := Contents();
      if session in live {
        var cid := live[session];
        live := live - {session};
        released := released + {cid};
      }
      assert Contents() == GivenBack(p, session);
      assert Inv(GivenBack(p, session)) by { GivingBackKeeps(p, session); }
      ReleaseFrees(p, session);
    }
  }
}
