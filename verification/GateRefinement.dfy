/**
 The gate that the capture protocol relies on is the gate as implemented: seen through
 the leases that are out and the phase of the pending capture, every operation of
 `ActionGate` on a session is a step, or two, of `CaptureCut`, and no other step of the
 protocol touches the gate.
 */
module GateRefinement {
  import G = ActionGate
  import C = CaptureCut

  datatype Phase = Open | Draining | Body

  /** What both models say about one session's gate. */
  datatype View = View(leases: set<nat>, phase: Phase)

  /** A capture whose drain timed out keeps the gate closed until its `finally` block runs. */
  ghost function GateView(g: G.Gate, s: G.SessionId): View {
    var pending := G.Pending(g.captures, s);
    View(G.Live(g.leases, s),
         if pending == {} then Open
         else if exists c :: c in pending && g.captures[c].phase.Ready? then Body
         else Draining)
  }

  ghost function PhaseOf(c: C.Capture): Phase {
    if c.Idle? then Open else if c.Draining? then Draining else Body
  }

  ghost function Out(actions: map<C.ActionId, C.Action>): set<nat> {
    set a | a in actions && actions[a].lease
  }

  ghost function SessionView(c: C.State): View {
    View(Out(c.actions), PhaseOf(c.capture))
  }

  lemma NoLeasesAgree(c: C.State)
    ensures C.NoLeases(c) <==> SessionView(c).leases == {}
  {
    if SessionView(c).leases == {} {
      forall a | a in c.actions ensures !c.actions[a].lease {
        assert a !in SessionView(c).leases;
      }
    }
  }

  /** In the implementation, too, the gate is closed exactly while a capture is pending. */
  lemma ClosedWhilePending(g: G.Gate, s: G.SessionId)
    requires G.Inv(g)
    ensures G.SessionInv(g, s) && (G.Closing(g, s) <==> !GateView(g, s).phase.Open?)
    ensures s !in g.states ==> G.Live(g.leases, s) == {} && G.Pending(g.captures, s) == {}
  {
    assert G.SessionInv(g, s);
  }

  lemma ArriveView(c: C.State, l: nat, tool: C.Tool)
    requires l !in c.actions
    ensures var v := SessionView(c);
      SessionView(C.Next(c, C.Arrive(l, tool))) == if v.phase.Open? then v.(leases := v.leases + {l}) else v
  {
    var d := C.Next(c, C.Arrive(l, tool));
    C.NextShape(c, C.Arrive(l, tool));
    assert forall a :: a in c.actions ==> d.actions[a] == c.actions[a];
    assert Out(d.actions) == Out(c.actions) + (if SessionView(c).phase.Open? then {l} else {});
  }

  lemma GateEnter(g: G.Gate, s: G.SessionId, l: nat, r: G.Ref)
    requires G.Inv(g) && l !in g.leases && r !in g.records
    ensures G.SessionInv(g, s)
    ensures var v := GateView(g, s);
      GateView(G.Entered(g, s, l, r), s) == if v.phase.Open? then v.(leases := v.leases + {l}) else v
  {
    ClosedWhilePending(g, s);
    if !G.Closing(g, s) {
      var h := G.Entered(g, s, l, r);
      G.LeaseAdded(g.leases, l, h.leases[l]);
      assert h.captures == g.captures;
    }
  }

  /** Admission is an arrival. */
  lemma EnterRefines(g: G.Gate, s: G.SessionId, c: C.State, l: nat, r: G.Ref, tool: C.Tool)
    requires G.Inv(g) && l !in g.leases && r !in g.records
    requires GateView(g, s) == SessionView(c) && l !in c.actions
    ensures G.SessionInv(g, s) && GateView(G.Entered(g, s, l, r), s) == SessionView(C.Next(c, C.Arrive(l, tool)))
  {
    GateEnter(g, s, l, r);
    ArriveView(c, l, tool);
  }

  lemma CloseView(c: C.State)
    ensures SessionView(C.Next(c, C.CloseGate)) ==
            if SessionView(c).phase.Open? then SessionView(c).(phase := Draining) else SessionView(c)
  {
  }

  lemma GateBegin(g: G.Gate, s: G.SessionId, id: G.CaptureId, r: G.Ref)
    requires G.Inv(g) && id !in g.captures && r !in g.records
    ensures G.SessionInv(g, s)
    ensures var v := GateView(g, s);
      GateView(G.Begun(g, s, id, r), s) ==
        if v.phase.Open? then v.(phase := if v.leases == {} then Body else Draining) else v
  {
    ClosedWhilePending(g, s);
    if !G.Closing(g, s) {
      var h := G.Begun(g, s, id, r);
      assert G.Pending(h.captures, s) == {id} && h.leases == g.leases;
      assert id in G.Pending(h.captures, s);
      assert h.captures[id].phase.Ready? <==> G.Live(g.leases, s) == {};
    }
  }

  /** Beginning a capture closes the gate, and drains it at once when no lease is out. */
  lemma BeginRefines(g: G.Gate, s: G.SessionId, c: C.State, id: G.CaptureId, r: G.Ref)
    requires G.Inv(g) && id !in g.captures && r !in g.records && GateView(g, s) == SessionView(c)
    ensures G.SessionInv(g, s)
    ensures GateView(G.Begun(g, s, id, r), s) ==
            if GateView(g, s).phase.Open? then SessionView(C.Next(C.Next(c, C.CloseGate), C.DrainDone)) else GateView(g, s)
  {
    GateBegin(g, s, id, r);
    CloseView(c);
    DrainView(C.Next(c, C.CloseGate));
  }

  lemma ReleaseView(c: C.State, l: nat)
    requires C.Enabled(c, C.Release(l))
    ensures SessionView(C.Next(c, C.Release(l))) == View(SessionView(c).leases - {l}, SessionView(c).phase)
  {
    var d := C.Next(c, C.Release(l));
    assert forall a :: a in c.actions && a != l ==> d.actions[a] == c.actions[a];
    assert SessionView(d).leases == SessionView(c).leases - {l};
  }

  lemma DrainView(c: C.State)
    ensures var v := SessionView(c);
      SessionView(C.Next(c, C.DrainDone)) == if v.phase.Draining? && v.leases == {} then View({}, Body) else v
  {
    NoLeasesAgree(c);
  }

  /** Giving a lease back is a release; the last one lets a waiting capture drain. */
  lemma ReleaseRefines(g: G.Gate, s: G.SessionId, c: C.State, l: nat)
    requires G.Inv(g) && l in G.Live(g.leases, s)
    requires GateView(g, s) == SessionView(c) && C.Enabled(c, C.Release(l))
    ensures G.ReleaseOk(g, l)
    ensures var d := C.Next(c, C.Release(l));
      GateView(G.Released(g, l), s) == SessionView(if G.Waiters(g.captures, s) == {} then d else C.Next(d, C.DrainDone))
  {
    GateRelease(g, s, l);
    ReleaseView(c, l);
    DrainView(C.Next(c, C.Release(l)));
  }

  lemma MismatchView(c: C.State, l: nat)
    requires C.Enabled(c, C.Receive(l, C.Mismatched))
    ensures SessionView(C.Next(c, C.Receive(l, C.Mismatched))) == View(SessionView(c).leases - {l}, SessionView(c).phase)
  {
    var d := C.Next(c, C.Receive(l, C.Mismatched));
    C.NextShape(c, C.Receive(l, C.Mismatched));
    assert d.actions[l] == C.Received(c.actions[l], C.Mismatched);
    assert forall a :: a in c.actions && a != l ==> d.actions[a] == c.actions[a];
    assert Out(d.actions) == Out(c.actions) - {l};
  }

  /** A mismatched completion gives its lease back in the same way, in the step that receives it. */
  lemma MismatchRefines(g: G.Gate, s: G.SessionId, c: C.State, l: nat)
    requires G.Inv(g) && l in G.Live(g.leases, s)
    requires GateView(g, s) == SessionView(c) && C.Enabled(c, C.Receive(l, C.Mismatched))
    ensures G.ReleaseOk(g, l)
    ensures var d := C.Next(c, C.Receive(l, C.Mismatched));
      GateView(G.Released(g, l), s) == SessionView(if G.Waiters(g.captures, s) == {} then d else C.Next(d, C.DrainDone))
  {
    GateRelease(g, s, l);
    MismatchView(c, l);
    DrainView(C.Next(c, C.Receive(l, C.Mismatched)));
  }

  lemma GateRelease(g: G.Gate, s: G.SessionId, l: nat)
    requires G.Inv(g) && l in G.Live(g.leases, s)
    ensures G.ReleaseOk(g, l)
    ensures var v, waiting := GateView(g, s), G.Waiters(g.captures, s) != {};
      && (waiting ==> v.phase.Draining?)
      && GateView(G.Released(g, l), s) == View(v.leases - {l}, if waiting && v.leases == {l} then Body else v.phase)
  {
    G.ReleaseKeeps(g, l);
    var h := G.Released(g, l);
    assert G.Live(h.leases, s) == G.Live(g.leases, s) - {l};
    WaitingIsDraining(g, s);
    ReleasedCaptures(g, s, l);
    if G.Live(g.leases, s) == {l} && G.Waiters(g.captures, s) != {} {
      var w :| w in G.Waiters(g.captures, s);
      assert w in G.Pending(h.captures, s) && h.captures[w].phase.Ready?;
    } else {
      forall c | c in G.Pending(g.captures, s) ensures h.captures[c].phase == g.captures[c].phase {
        assert g.captures[c].phase.Waiting? ==> c in G.Waiters(g.captures, s);
      }
    }
  }

  lemma WaitingIsDraining(g: G.Gate, s: G.SessionId)
    requires G.Inv(g)
    ensures G.Waiters(g.captures, s) != {} ==> GateView(g, s).phase.Draining?
  {
    assert G.SessionInv(g, s);
    if w :| w in G.Waiters(g.captures, s) {
      assert w in G.Pending(g.captures, s);
    }
  }

  /** Releasing a lease changes only the phase of a capture that waited for it as the last one. */
  lemma ReleasedCaptures(g: G.Gate, s: G.SessionId, l: nat)
    requires G.Inv(g) && l in G.Live(g.leases, s) && G.ReleaseOk(g, l)
    ensures var h := G.Released(g, l);
      && G.Pending(h.captures, s) == G.Pending(g.captures, s)
      && forall c :: c in G.Pending(g.captures, s) ==>
           h.captures[c].phase == if g.captures[c].phase.Waiting? && G.Live(g.leases, s) == {l} then G.Ready
                                  else g.captures[c].phase
  {
    assert G.SessionInv(g, s);
    var live := G.Live(g.leases, s);
    assert |live| == 1 <==> live == {l} by {
      assert |live - {l}| == |live| - 1;
      assert |live| == 1 ==> live - {l} == {};
    }
    assert g.records[g.leases[l].state].active == |live|;
  }

  /** A drain that times out leaves the gate closed; ending a capture reopens it. */
  lemma EndRefines(g: G.Gate, s: G.SessionId, c: C.State, id: G.CaptureId)
    requires G.Inv(g) && id in G.Pending(g.captures, s) && !g.captures[id].phase.Waiting?
    requires GateView(g, s) == SessionView(c)
    ensures g.captures[id].state in g.records
    ensures GateView(G.EndedAt(g, id), s) ==
            SessionView(C.Next(c, if g.captures[id].phase.Ready? then C.Reopen else C.DrainTimeout))
  {
    assert G.SessionInv(g, s);
    G.CaptureLeaves(g.captures, id);
    assert G.Pending(g.captures, s) == {id};
    var h := G.EndedAt(g, id);
    assert h.captures == g.captures[id := g.captures[id].(phase := G.Over)] && h.leases == g.leases;
  }

  lemma TimeoutIsInvisible(g: G.Gate, s: G.SessionId, id: G.CaptureId)
    requires G.Inv(g) && id in G.Waiters(g.captures, s)
    ensures g.captures[id].state in g.records && GateView(G.TimedOutAt(g, id), s) == GateView(g, s)
  {
    assert G.SessionInv(g, s) && id in G.Pending(g.captures, s);
    var h := G.TimedOutAt(g, id);
    assert G.Pending(h.captures, s) == G.Pending(g.captures, s) == {id};
  }

  /** Giving a lease back again changes nothing. */
  lemma SecondReleaseIsInvisible(g: G.Gate, l: nat)
    requires l in g.leases && g.leases[l].released
    ensures G.ReleaseOk(g, l) && G.Released(g, l) == g
  {
  }

  /** The labels that are the gate's; a mismatched completion gives its lease back in the same step. */
  predicate OfGate(l: C.Label) {
    l.Arrive? || l.Release? || (l.Receive? && l.reply.Mismatched?)
    || l.CloseGate? || l.DrainDone? || l.DrainTimeout? || l.Reopen?
  }

  /** Every other step of the protocol leaves the gate alone. */
  lemma OthersLeaveTheGate(c: C.State, l: C.Label)
    requires C.Inv(c) && !OfGate(l)
    ensures SessionView(C.Next(c, l)) == SessionView(c)
  {
    if C.Enabled(c, l) {
      if C.MovesAction(l) {
        HandlersKeepLeases(c, l);
      } else {
        C.NextShape(c, l);
      }
    }
  }

  lemma HandlersKeepLeases(c: C.State, l: C.Label)
    requires C.Inv(c) && C.Enabled(c, l) && C.MovesAction(l) && !OfGate(l)
    ensures SessionView(C.Next(c, l)) == SessionView(c)
  {
    var d := C.Next(c, l);
    C.NextShape(c, l);
    assert l.a in c.actions;
    SameLease(c, l);
    SameLeasesOut(c.actions, l.a, C.NextAction(c, l));
  }

  lemma SameLeasesOut(actions: map<nat, C.Action>, a: nat, act: C.Action)
    requires a in actions && act.lease == actions[a].lease
    ensures Out(actions[a := act]) == Out(actions)
  {
  }

  lemma AdmissionKeepsLease(c: C.State, l: C.Label)
    requires C.Enabled(c, l) && C.MovesAction(l) && l.a in c.actions && (l.AuditRefusal? || l.Reject? || l.AuditStart? || l.Deliver?)
    ensures C.NextAction(c, l).lease == c.actions[l.a].lease
  {
  }

  lemma ExecutionKeepsLease(c: C.State, l: C.Label)
    requires C.Enabled(c, l) && C.MovesAction(l) && l.a in c.actions && (l.Execute? || l.Finish? || l.AuditFailure? || l.Authorize?)
    ensures C.NextAction(c, l).lease == c.actions[l.a].lease
  {
  }

  lemma GuestKeepsLease(c: C.State, l: C.Label)
    requires C.Enabled(c, l) && C.MovesAction(l) && l.a in c.actions && (l.GuestStart? || l.GuestStop? || (l.Receive? && !l.reply.Mismatched?))
    ensures C.NextAction(c, l).lease == c.actions[l.a].lease
  {
    assert l.Receive? ==> C.NextAction(c, l) == C.Received(c.actions[l.a], l.reply);
  }

  lemma ReportKeepsLease(c: C.State, l: C.Label)
    requires C.Enabled(c, l) && C.MovesAction(l) && l.a in c.actions && (l.AuditReport? || l.AuditInvalid? || l.AuditAbandon? || l.AuditLate?)
    ensures C.NextAction(c, l).lease == c.actions[l.a].lease
  {
  }

  lemma SameLease(c: C.State, l: C.Label)
    requires C.Enabled(c, l) && C.MovesAction(l) && !OfGate(l) && l.a in c.actions
    ensures C.NextAction(c, l).lease == c.actions[l.a].lease
  {
    if l.GuestStart? || l.GuestStop? || l.Receive? {
      GuestKeepsLease(c, l);
    } else if l.AuditReport? || l.AuditInvalid? || l.AuditAbandon? || l.AuditLate? {
      ReportKeepsLease(c, l);
    } else if l.Execute? || l.Finish? || l.AuditFailure? || l.Authorize? {
      ExecutionKeepsLease(c, l);
    } else {
      AdmissionKeepsLease(c, l);
    }
  }
}
