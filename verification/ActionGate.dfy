/**
 The per-session admission gate shared by broker calls, local tools and
 captures.

 Leases and pending captures are closures over the gate-state object they were
 given, while later callers find one through the gate's map. `records` is the
 heap of gate-state objects, addressed by `Ref`, so that a closure and the map
 can be seen to share, or to have lost, an object. Allocation is a parameter:
 each operation receives the fresh addresses it may use.
 */
module ActionGate {

  type SessionId = nat
  type Ref = nat
  type LeaseId = nat
  type CaptureId = nat

  /** A gate-state object; `drained` holds the captures suspended on its drain. */
  datatype GateState = GateState(closing: bool, active: nat, drained: set<CaptureId>)

  /** What `enter` returns: a closure over its session, its gate state and its own `released` flag. */
  datatype Lease = Lease(session: SessionId, state: Ref, released: bool)

  datatype Phase =
    | Waiting    // suspended on the drain promise
    | Ready      // drained: the capture body may run
    | TimedOut   // the drain timer fired: the body will not run
    | Over       // the `finally` block has run

  /** A call of `withExclusiveCapture` that got past the closing check. */
  datatype Capture = Capture(session: SessionId, state: Ref, phase: Phase)

  datatype Gate = Gate(records: map<Ref, GateState>, states: map<SessionId, Ref>,
                       leases: map<LeaseId, Lease>, captures: map<CaptureId, Capture>)

  // ---------------------------------------------------------------------------
  // The invariant

  ghost function Live(leases: map<LeaseId, Lease>, s: SessionId): (r: set<LeaseId>) {
    set l | l in leases && leases[l].session == s && !leases[l].released
  }

  ghost function Pending(captures: map<CaptureId, Capture>, s: SessionId): (r: set<CaptureId>) {
    set c | c in captures && captures[c].session == s && !captures[c].phase.Over?
  }

  ghost function Waiters(captures: map<CaptureId, Capture>, s: SessionId): (r: set<CaptureId>) {
    set c | c in captures && captures[c].session == s && captures[c].phase.Waiting?
  }

  /** Every live closure of the session refers to the one record the map holds for it. */
  ghost predicate NoOrphan(g: Gate, s: SessionId) {
    && (forall l :: l in Live(g.leases, s) ==> s in g.states && g.leases[l].state == g.states[s])
    && (forall c :: c in Pending(g.captures, s) ==> s in g.states && g.captures[c].state == g.states[s])
  }

  /**
   The record agrees with the closures: `active` counts exactly the live leases,
   at most one capture is pending and it keeps the record closing, it waits in
   `drained` only while leases are out, it is ready only when none are, and an
   idle record is not kept.
   */
  ghost predicate Agrees(g: Gate, s: SessionId, st: GateState) {
    && st.active == |Live(g.leases, s)|
    && (st.closing <==> Pending(g.captures, s) != {})
    && (forall c, d :: c in Pending(g.captures, s) && d in Pending(g.captures, s) ==> c == d)
    && st.drained == Waiters(g.captures, s)
    && (st.active == 0 ==> Waiters(g.captures, s) == {})
    && (forall c :: c in Pending(g.captures, s) && g.captures[c].phase.Ready? ==> st.active == 0)
    && (st.active > 0 || st.closing)
  }

  ghost predicate SessionInv(g: Gate, s: SessionId) {
    && NoOrphan(g, s)
    && (s in g.states ==> g.states[s] in g.records && Agrees(g, s, g.records[g.states[s]]))
  }

  ghost predicate Inv(g: Gate) {
    && (forall s, t :: s in g.states && t in g.states && g.states[s] == g.states[t] ==> s == t)
    && (forall s :: SessionInv(g, s))
  }

  // ---------------------------------------------------------------------------
  // The operations, as functions of the whole gate

  predicate Closing(g: Gate, s: SessionId)
    requires s in g.states ==> g.states[s] in g.records
  {
    s in g.states && g.records[g.states[s]].closing
  }

  /** The session's record, allocated at `r` when it has none. */
  function WithState(g: Gate, s: SessionId, r: Ref): (h: Gate) {
    if s in g.states then g
    else g.(records := g.records[r := GateState(false, 0, {})], states := g.states[s := r])
  }

  function Entered(g: Gate, s: SessionId, l: LeaseId, r: Ref): (h: Gate)
    requires s in g.states ==> g.states[s] in g.records
  {
    if Closing(g, s) then g else
    var w := WithState(g, s, r);
    var ref := w.states[s];
    var st := w.records[ref];
    w.(records := w.records[ref := st.(active := st.active + 1)], leases := w.leases[l := Lease(s, ref, false)])
  }

  /** `#deleteIfIdle`, given the caller's reference to the record. */
  function Tidied(g: Gate, s: SessionId, r: Ref): (h: Gate)
    requires r in g.records
  {
    var st := g.records[r];
    if !st.closing && st.active == 0 && st.drained == {} then g.(states := g.states - {s}) else g
  }

  /** Every capture suspended on the record resumes. */
  function Woken(captures: map<CaptureId, Capture>, waiters: set<CaptureId>): (r: map<CaptureId, Capture>) {
    map c | c in captures :: if c in waiters then captures[c].(phase := Ready) else captures[c]
  }

  predicate ReleaseOk(g: Gate, l: LeaseId) {
    l in g.leases && (!g.leases[l].released ==> g.leases[l].state in g.records && g.records[g.leases[l].state].active > 0)
  }

  function Released(g: Gate, l: LeaseId): (h: Gate)
    requires ReleaseOk(g, l)
  {
    var lease := g.leases[l];
    if lease.released then g else
    var st := g.records[lease.state];
    var last := st.active == 1;
    Tidied(g.(leases := g.leases[l := lease.(released := true)],
              records := g.records[lease.state := GateState(st.closing, st.active - 1, if last then {} else st.drained)],
              captures := if last then Woken(g.captures, st.drained) else g.captures),
           lease.session, lease.state)
  }

  function Begun(g: Gate, s: SessionId, c: CaptureId, r: Ref): (h: Gate)
    requires s in g.states ==> g.states[s] in g.records
  {
    if Closing(g, s) then g else
    var w := WithState(g, s, r);
    var ref := w.states[s];
    var st := w.records[ref];
    var idle := st.active == 0;
    w.(records := w.records[ref := st.(closing := true, drained := if idle then st.drained else st.drained + {c})],
       captures := w.captures[c := Capture(s, ref, if idle then Ready else Waiting)])
  }

  function TimedOutAt(g: Gate, c: CaptureId): (h: Gate)
    requires c in g.captures && g.captures[c].state in g.records
  {
    var cap := g.captures[c];
    var st := g.records[cap.state];
    g.(records := g.records[cap.state := st.(drained := st.drained - {c})],
       captures := g.captures[c := cap.(phase := TimedOut)])
  }

  function EndedAt(g: Gate, c: CaptureId): (h: Gate)
    requires c in g.captures && g.captures[c].state in g.records
  {
    var cap := g.captures[c];
    var st := g.records[cap.state];
    Tidied(g.(records := g.records[cap.state := st.(closing := false)],
              captures := g.captures[c := cap.(phase := Over)]),
           cap.session, cap.state)
  }

  // ---------------------------------------------------------------------------
  // Every operation keeps the invariant

  /** Only session `s` changed: its record, its map entry, its leases and its captures. */
  ghost predicate OnlySession(g: Gate, h: Gate, s: SessionId) {
    && (forall t :: t != s ==> (t in g.states <==> t in h.states))
    && (forall t :: t != s && t in g.states ==>
          && h.states[t] == g.states[t]
          && (g.states[t] in g.records ==> g.states[t] in h.records && h.records[g.states[t]] == g.records[g.states[t]]))
    && (forall l :: l in g.leases && g.leases[l].session != s ==> l in h.leases && h.leases[l] == g.leases[l])
    && (forall l :: l in h.leases && h.leases[l].session != s ==> l in g.leases && h.leases[l] == g.leases[l])
    && (forall c :: c in g.captures && g.captures[c].session != s ==> c in h.captures && h.captures[c] == g.captures[c])
    && (forall c :: c in h.captures && h.captures[c].session != s ==> c in g.captures && h.captures[c] == g.captures[c])
  }

  lemma OtherSessionsKeep(g: Gate, h: Gate, s: SessionId, t: SessionId)
    requires SessionInv(g, t) && OnlySession(g, h, s) && t != s
    ensures SessionInv(h, t)
  {
    assert Live(h.leases, t) == Live(g.leases, t);
    assert Pending(h.captures, t) == Pending(g.captures, t);
    assert Waiters(h.captures, t) == Waiters(g.captures, t);
  }

  /** It is enough to look at the session that changed, and at the distinctness of its record. */
  lemma InvFrom(g: Gate, h: Gate, s: SessionId)
    requires Inv(g) && OnlySession(g, h, s) && SessionInv(h, s)
    requires s in h.states ==> (s in g.states && h.states[s] == g.states[s]) || h.states[s] !in g.records
    ensures Inv(h)
  {
    forall t ensures SessionInv(h, t) {
      if t != s {
        OtherSessionsKeep(g, h, s, t);
      }
    }
    assert forall t :: t in g.states ==> SessionInv(g, t);
  }

  /** Looking up or allocating the session's record leaves every other session's record alone. */
  lemma StateApart(g: Gate, s: SessionId, r: Ref)
    requires Inv(g) && r !in g.records
    ensures SessionInv(g, s) && WithState(g, s, r).states[s] in WithState(g, s, r).records
    ensures forall t :: t != s && t in g.states ==>
      g.states[t] in g.records && g.states[t] != WithState(g, s, r).states[s] && g.states[t] != r
    ensures s !in g.states ==> Live(g.leases, s) == {} && Pending(g.captures, s) == {}
    ensures Waiters(g.captures, s) <= Pending(g.captures, s)
  {
    assert SessionInv(g, s);
    forall t | t != s && t in g.states ensures g.states[t] in g.records {
      assert SessionInv(g, t);
    }
  }

  lemma LeaseAdded(leases: map<LeaseId, Lease>, l: LeaseId, lease: Lease)
    requires l !in leases && !lease.released
    ensures Live(leases[l := lease], lease.session) == Live(leases, lease.session) + {l}
    ensures |Live(leases[l := lease], lease.session)| == |Live(leases, lease.session)| + 1
  {
    assert l !in Live(leases, lease.session);
  }

  lemma EnteredSession(g: Gate, s: SessionId, l: LeaseId, r: Ref)
    requires SessionInv(g, s) && !Closing(g, s) && l !in g.leases
    requires s !in g.states ==> Live(g.leases, s) == {} && Pending(g.captures, s) == {}
    ensures SessionInv(Entered(g, s, l, r), s)
  {
    LeaseAdded(g.leases, l, Entered(g, s, l, r).leases[l]);
    assert Pending(g.captures, s) == {} && Waiters(g.captures, s) == {};
  }

  lemma EnterKeeps(g: Gate, s: SessionId, l: LeaseId, r: Ref)
    requires Inv(g) && l !in g.leases && r !in g.records
    ensures SessionInv(g, s) && Inv(Entered(g, s, l, r))
    ensures Closing(g, s) <==> Pending(g.captures, s) != {}
  {
    StateApart(g, s, r);
    var h := Entered(g, s, l, r);
    if !Closing(g, s) {
      EnteredSession(g, s, l, r);
      assert OnlySession(g, h, s);
      InvFrom(g, h, s);
    }
  }

  lemma ReleaseKeeps(g: Gate, l: LeaseId)
    requires Inv(g) && l in g.leases
    ensures ReleaseOk(g, l) && Inv(Released(g, l))
  {
    var s := g.leases[l].session;
    assert SessionInv(g, s);
    if !g.leases[l].released {
      assert l in Live(g.leases, s);
      assert |Live(g.leases, s)| > 0;
      var h := Released(g, l);
      assert Live(h.leases, s) == Live(g.leases, s) - {l};
      assert Pending(h.captures, s) == Pending(g.captures, s);
      assert Waiters(h.captures, s) == if Live(h.leases, s) == {} then {} else Waiters(g.captures, s);
      assert forall t :: t != s && t in g.states ==> g.states[t] != g.states[s];
      assert OnlySession(g, h, s);
      InvFrom(g, h, s);
    }
  }

  lemma BeginKeeps(g: Gate, s: SessionId, c: CaptureId, r: Ref)
    requires Inv(g) && c !in g.captures && r !in g.records
    ensures SessionInv(g, s) && Inv(Begun(g, s, c, r))
    ensures Closing(g, s) <==> Pending(g.captures, s) != {}
  {
    StateApart(g, s, r);
    var h := Begun(g, s, c, r);
    if !Closing(g, s) {
      assert OnlySession(g, h, s);
      assert SessionInv(h, s) by {
        assert Live(h.leases, s) == Live(g.leases, s);
        assert Pending(h.captures, s) == {c};
        assert Waiters(h.captures, s) == if Live(g.leases, s) == {} then {} else {c};
      }
      InvFrom(g, h, s);
    }
  }

  lemma TimeoutKeeps(g: Gate, c: CaptureId)
    requires Inv(g) && c in g.captures && g.captures[c].phase.Waiting?
    ensures g.captures[c].state in g.records && Inv(TimedOutAt(g, c))
  {
    var s := g.captures[c].session;
    assert SessionInv(g, s) && c in Pending(g.captures, s);
    var h := TimedOutAt(g, c);
    assert Live(h.leases, s) == Live(g.leases, s) && Pending(h.captures, s) == Pending(g.captures, s);
    assert Waiters(h.captures, s) == Waiters(g.captures, s) - {c};
    assert forall t :: t != s && t in g.states ==> g.states[t] != g.states[s];
    assert OnlySession(g, h, s);
    InvFrom(g, h, s);
  }

  lemma CaptureLeaves(captures: map<CaptureId, Capture>, c: CaptureId)
    requires c in captures
    ensures var s, left := captures[c].session, captures[c := captures[c].(phase := Over)];
      Pending(left, s) == Pending(captures, s) - {c} && Waiters(left, s) == Waiters(captures, s) - {c}
  {
    var left := captures[c := captures[c].(phase := Over)];
    assert forall d :: d in captures && d != c ==> left[d] == captures[d];
  }

  lemma EndKeeps(g: Gate, c: CaptureId)
    requires Inv(g) && c in g.captures && (g.captures[c].phase.Ready? || g.captures[c].phase.TimedOut?)
    ensures g.captures[c].state in g.records && Inv(EndedAt(g, c))
  {
    var s := g.captures[c].session;
    assert SessionInv(g, s) && c in Pending(g.captures, s);
    var h := EndedAt(g, c);
    assert Pending(g.captures, s) == {c};
    assert Waiters(g.captures, s) == {};
    assert h.leases == g.leases && h.captures == g.captures[c := g.captures[c].(phase := Over)];
    CaptureLeaves(g.captures, c);
    assert forall t :: t != s && t in g.states ==> g.states[t] != g.states[s];
    assert OnlySession(g, h, s);
    InvFrom(g, h, s);
  }

  /** A capture body runs only when no lease of its session is out. */
  lemma BodyRunsDrained(g: Gate, c: CaptureId)
    requires Inv(g) && c in g.captures && g.captures[c].phase.Ready?
    ensures forall l :: l in g.leases && g.leases[l].session == g.captures[c].session ==> g.leases[l].released
  {
    var s := g.captures[c].session;
    assert SessionInv(g, s) && c in Pending(g.captures, s);
    assert Live(g.leases, s) == {};
    forall l | l in g.leases && g.leases[l].session == s ensures g.leases[l].released {
      assert l !in Live(g.leases, s);
    }
  }

  /** A suspended capture has a lease to wait for, and the return of the last one wakes it: no lost wake-up. */
  lemma LastReleaseWakes(g: Gate, c: CaptureId, l: LeaseId)
    requires Inv(g) && c in g.captures && g.captures[c].phase.Waiting?
    requires l in Live(g.leases, g.captures[c].session)
    ensures Live(g.leases, g.captures[c].session) != {}
    ensures ReleaseOk(g, l)
    ensures Released(g, l).captures[c].phase == if Live(g.leases, g.captures[c].session) == {l} then Ready else Waiting
  {
    var s := g.captures[c].session;
    assert SessionInv(g, s) && c in Pending(g.captures, s) && c in Waiters(g.captures, s);
    ReleaseKeeps(g, l);
    if |Live(g.leases, s)| == 1 {
      assert |Live(g.leases, s) - {l}| == 0;
      assert Live(g.leases, s) == {l};
    }
  }

  /** A lease or capture that is not over always finds its record under its session: nothing is orphaned. */
  lemma NothingIsOrphaned(g: Gate, s: SessionId)
    requires Inv(g)
    ensures forall l :: l in g.leases && g.leases[l].session == s && !g.leases[l].released ==>
      s in g.states && g.states[s] == g.leases[l].state
    ensures forall c :: c in g.captures && g.captures[c].session == s && !g.captures[c].phase.Over? ==>
      s in g.states && g.states[s] == g.captures[c].state
    ensures s in g.states <==> Live(g.leases, s) != {} || Pending(g.captures, s) != {}
  {
    assert SessionInv(g, s);
    forall l | l in g.leases && g.leases[l].session == s && !g.leases[l].released
      ensures s in g.states && g.states[s] == g.leases[l].state
    {
      assert l in Live(g.leases, s);
    }
    forall c | c in g.captures && g.captures[c].session == s && !g.captures[c].phase.Over?
      ensures s in g.states && g.states[s] == g.captures[c].state
    {
      assert c in Pending(g.captures, s);
    }
  }

  // ---------------------------------------------------------------------------
  // What each operation changes, seen by the closures

  /** The session is admitted exactly if no capture of it is pending, and then there is one more lease. */
  lemma EnterAdmits(g: Gate, s: SessionId, l: LeaseId, r: Ref)
    requires Inv(g) && l !in g.leases && r !in g.records
    ensures SessionInv(g, s)
    ensures var h := Entered(g, s, l, r);
      if Pending(g.captures, s) == {} then
        && h.captures == g.captures && s in h.states
        && h.leases == g.leases[l := Lease(s, h.states[s], false)]
        && Live(h.leases, s) == Live(g.leases, s) + {l}
      else h == g
  {
    EnterKeeps(g, s, l, r);
    if !Closing(g, s) {
      LeaseAdded(g.leases, l, Entered(g, s, l, r).leases[l]);
    }
  }

  /** Nothing but the phase of these captures changed. */
  ghost predicate OnlyPhases(g: Gate, h: Gate, changed: set<CaptureId>, phase: Phase) {
    && h.captures.Keys == g.captures.Keys
    && forall c :: c in g.captures ==>
         h.captures[c] == if c in changed then g.captures[c].(phase := phase) else g.captures[c]
  }

  /** The lease is returned, once, and the captures of its session wake exactly if it was the last one out. */
  lemma ReleaseReturns(g: Gate, l: LeaseId)
    requires Inv(g) && l in g.leases
    ensures ReleaseOk(g, l)
    ensures var h, s := Released(g, l), g.leases[l].session;
      && h.leases == g.leases[l := g.leases[l].(released := true)]
      && Live(h.leases, s) == Live(g.leases, s) - {l}
      && OnlyPhases(g, h, if l in Live(g.leases, s) && Live(h.leases, s) == {} then Waiters(g.captures, s) else {}, Ready)
  {
    var s := g.leases[l].session;
    ReleaseKeeps(g, l);
    assert SessionInv(g, s);
    var h := Released(g, l);
    if !g.leases[l].released {
      assert l in Live(g.leases, s);
      assert Live(h.leases, s) == Live(g.leases, s) - {l};
      assert |Live(h.leases, s)| == |Live(g.leases, s)| - 1;
    }
  }

  /** A capture begins exactly if none is pending; it is ready at once exactly if no lease is out. */
  lemma BeginStarts(g: Gate, s: SessionId, c: CaptureId, r: Ref)
    requires Inv(g) && c !in g.captures && r !in g.records
    ensures SessionInv(g, s)
    ensures var h := Begun(g, s, c, r);
      if Pending(g.captures, s) == {} then
        && h.leases == g.leases && s in h.states
        && h.captures == g.captures[c := Capture(s, h.states[s], if Live(g.leases, s) == {} then Ready else Waiting)]
      else h == g
  {
    BeginKeeps(g, s, c, r);
  }

  /**
   A drain that times out leaves its capture timed out and suspended on nothing: no later
   release wakes it, the gate stays closed until the capture ends, and nobody else's
   capture or lease is touched.
   */
  lemma TimeoutStopsWaiting(g: Gate, c: CaptureId)
    requires Inv(g) && c in g.captures && g.captures[c].phase.Waiting?
    ensures g.captures[c].state in g.records
    ensures var h, s := TimedOutAt(g, c), g.captures[c].session;
      && OnlyPhases(g, h, {c}, TimedOut) && h.leases == g.leases
      && Waiters(h.captures, s) == {} && Pending(h.captures, s) == {c}
      && (s in h.states ==> h.states[s] in h.records) && Closing(h, s)
      && forall l :: l in h.leases ==> ReleaseOk(h, l) && Released(h, l).captures[c].phase.TimedOut?
  {
    TimeoutKeeps(g, c);
    var h, s := TimedOutAt(g, c), g.captures[c].session;
    assert SessionInv(g, s) && SessionInv(h, s) && c in Pending(g.captures, s) && c in Pending(h.captures, s);
    assert Waiters(h.captures, s) == {};
    forall l | l in h.leases ensures ReleaseOk(h, l) && Released(h, l).captures[c].phase.TimedOut? {
      ReleaseReturns(h, l);
    }
  }

  /** Ending a capture, ready or timed out, finishes it and reopens the gate. */
  lemma EndReopens(g: Gate, c: CaptureId)
    requires Inv(g) && c in g.captures && (g.captures[c].phase.Ready? || g.captures[c].phase.TimedOut?)
    ensures g.captures[c].state in g.records
    ensures var h, s := EndedAt(g, c), g.captures[c].session;
      && OnlyPhases(g, h, {c}, Over) && h.leases == g.leases
      && Pending(h.captures, s) == {} && (s in h.states ==> h.states[s] in h.records) && !Closing(h, s)
  {
    EndKeeps(g, c);
    var h, s := EndedAt(g, c), g.captures[c].session;
    assert SessionInv(g, s) && SessionInv(h, s) && c in Pending(g.captures, s);
    assert Pending(g.captures, s) == {c};
    CaptureLeaves(g.captures, c);
  }

  // ---------------------------------------------------------------------------
  // The gate itself

  class SessionActionGate {
    var records: map<Ref, GateState>
    var states: map<SessionId, Ref>
    var leases: map<LeaseId, Lease>
    var captures: map<CaptureId, Capture>

    ghost function Contents(): (g: Gate)
      reads this
    {
      Gate(records, states, leases, captures)
    }

    ghost predicate Valid()
      reads this
    {
      Inv(Contents())
    }

    constructor ()
      ensures Valid() && Contents() == Gate(map[], map[], map[], map[])
    {
      records, states, leases, captures := map[], map[], map[], map[];
      new;
      forall s ensures SessionInv(Contents(), s) {
        assert Live(Contents().leases, s) == {} && Pending(Contents().captures, s) == {};
      }
    }

    /** `#state`: the session's record, created when it has none. */
    method StateFor(s: SessionId, r: Ref) returns (ref: Ref)
      requires r !in records && (s in states ==> states[s] in records)
      modifies `records, `states
      ensures Contents() == WithState(old(Contents()), s, r) && s in states && ref == states[s]
    {
      if s in states {
        ref := states[s];
      } else {
        ref := r;
        records := records[r := GateState(false, 0, {})];
        states := states[s := r];
      }
    }

    /** Admission: refused exactly while a capture of the session is pending. */
    method Enter(s: SessionId, l: LeaseId, r: Ref) returns (admitted: bool)
      requires Valid() && l !in leases && r !in records
      modifies this
      ensures SessionInv(old(Contents()), s) && Valid() && Contents() == Entered(old(Contents()), s, l, r)
      ensures admitted <==> Pending(old(Contents()).captures, s) == {}
    {
      EnterKeeps(Contents(), s, l, r);
      var ref := StateFor(s, r);
      if records[ref].closing {
        return false;
      }
      records := records[ref := records[ref].(active := records[ref].active + 1)];
      leases := leases[l := Lease(s, ref, false)];
      return true;
    }

    /** Drops the session's record once nothing refers to it. */
    method DeleteIfIdle(s: SessionId, ref: Ref)
      requires ref in records
      modifies `states
      ensures Contents() == Tidied(old(Contents()), s, ref)
    {
      var st := records[ref];
      if !st.closing && st.active == 0 && st.drained == {} {
        states := states - {s};
      }
    }

    /** Giving a lease back, any number of times; the last one out wakes a suspended capture. */
    method Release(l: LeaseId)
      requires Valid() && l in leases
      modifies this
      ensures Valid() && ReleaseOk(old(Contents()), l) && Contents() == Released(old(Contents()), l)
      ensures leases == old(leases)[l := old(leases[l]).(released := true)]
    {
      ReleaseKeeps(Contents(), l);
      var lease := leases[l];
      if lease.released {
        return;
      }
      leases := leases[l := lease.(released := true)];
      var st := records[lease.state];
      if st.active == 1 {
        captures := Woken(captures, st.drained);
        records := records[lease.state := GateState(st.closing, 0, {})];
      } else {
        records := records[lease.state := st.(active := st.active - 1)];
      }
      DeleteIfIdle(lease.session, lease.state);
    }

    /** The synchronous head of a capture: refused while another one is pending, otherwise it closes the gate. */
    method BeginCapture(s: SessionId, c: CaptureId, r: Ref) returns (begun: bool)
      requires Valid() && c !in captures && r !in records
      modifies this
      ensures SessionInv(old(Contents()), s) && Valid() && Contents() == Begun(old(Contents()), s, c, r)
      ensures begun <==> Pending(old(Contents()).captures, s) == {}
    {
      BeginKeeps(Contents(), s, c, r);
      var ref := StateFor(s, r);
      var st := records[ref];
      if st.closing {
        return false;
      }
      if st.active == 0 {
        captures := captures[c := Capture(s, ref, Ready)];
        records := records[ref := st.(closing := true)];
      } else {
        captures := captures[c := Capture(s, ref, Waiting)];
        records := records[ref := st.(closing := true, drained := st.drained + {c})];
      }
      return true;
    }

    /** The drain timer of a suspended capture fires. */
    method DrainTimeout(c: CaptureId)
      requires Valid() && c in captures && captures[c].phase.Waiting?
      modifies this
      ensures Valid() && old(captures[c].state in records) && Contents() == TimedOutAt(old(Contents()), c)
      ensures OnlyPhases(old(Contents()), Contents(), {c}, TimedOut) && leases == old(leases)
      ensures c !in Waiters(captures, captures[c].session)
    {
      TimeoutKeeps(Contents(), c);
      var ref := captures[c].state;
      records := records[ref := records[ref].(drained := records[ref].drained - {c})];
      captures := captures[c := captures[c].(phase := TimedOut)];
    }

    /** The `finally` block of a capture, after its body ended or its drain timed out. */
    method EndCapture(c: CaptureId)
      requires Valid() && c in captures && (captures[c].phase.Ready? || captures[c].phase.TimedOut?)
      modifies this
      ensures Valid() && old(captures[c].state in records) && Contents() == EndedAt(old(Contents()), c)
      ensures OnlyPhases(old(Contents()), Contents(), {c}, Over) && leases == old(leases)
    {
      EndKeeps(Contents(), c);
      var cap := captures[c];
      records := records[cap.state := records[cap.state].(closing := false)];
      captures := captures[c := cap.(phase := Over)];
      DeleteIfIdle(cap.session, cap.state);
    }

    /** Whether admission is refused right now. */
    method IsCapturePending(s: SessionId) returns (pending: bool)
      requires Valid()
      ensures pending <==> Pending(Contents().captures, s) != {}
    {
      assert SessionInv(Contents(), s);
      pending := s in states && records[states[s]].closing;
    }
  }
}
