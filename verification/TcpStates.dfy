/** The state machine over whole runs. */
module TcpStates {
  import opened Bytes
  import opened SequenceSpace
  import opened TcpSegment
  import opened TcpModel
  import opened TcpEvents
  import opened TcpInvariants
  import opened TcpRuns

  /** The transitions of the code. There is no CLOSING state and no way out of TIME_WAIT but a reset. */
  predicate Edge(s: State, t: State) {
    || s == t
    || t == Reset
    || (s == Closed && t == SynSent)
    || (s == SynSent && t == Established)
    || (s == Established && (t == FinWait1 || t == CloseWait))
    || (s == FinWait1 && (t == FinWait2 || t == TimeWait))
    || (s == FinWait2 && t == TimeWait)
    || (s == CloseWait && t == LastAck)
    || (s == LastAck && t == Closed)
  }

  /** Our FIN is acknowledged by the time the code closes our side. */
  predicate OwnFinDone(s: State, t: State) {
    (s == FinWait1 && t == FinWait2) || (s == LastAck && t == Closed)
  }

  lemma AfterPayloadStates(c: Conn, seg: Segment)
    ensures var d := AfterPayload(c, seg);
            || d.state == c.state
            || d.state == AfterFin(c.state)
            || (OwnFinDone(c.state, d.state) && d.sendUna == d.sendNext)
  {
    FinStates(c, seg);
  }

  lemma ReceiveStates(c: Conn, seg: Segment)
    requires SlotsInv(c) && Receiving(c.state)
    ensures var d := Receive(c, seg).0;
            || d.state == c.state
            || d.state == AfterFin(c.state)
            || (OwnFinDone(c.state, d.state) && d.sendUna == d.sendNext)
  {
    PayloadPaths(c, seg);
    AfterPayloadStates(ProcessPayload(c, seg).0, seg);
  }

  /** What one call may do to the state. */
  predicate Follows(c: Conn, e: Event, d: Conn, r: int) {
    && Edge(c.state, d.state)
    && (c.state == Reset ==> d.state == Reset)
    && (e.Arrive? ==> (r == 1 <==> c.state == SynSent && d.state == Established))
    && (!e.Arrive? && d.state == Established ==> c.state == Established)
    && (OwnFinDone(c.state, d.state) ==> d.sendUna == d.sendNext)
  }

  lemma ArrivalFollowsEdges(c: Conn, seg: Segment)
    requires Inv(c)
    ensures Follows(c, Arrive(seg), OnSegment(c, seg).0, OnSegment(c, seg).1)
  {
    if Addressed(c, seg) && !seg.flags.rst && Receiving(c.state) {
      AckKeepsReceive(c, seg);
      ReceiveStates(Acked(c, seg), seg);
    }
  }

  /**
   Every call moves along an edge; RESET is absorbing; ESTABLISHED is entered exactly by the call
   that returns 1; FIN_WAIT_2 and the return to CLOSED are entered with nothing outstanding.
   */
  lemma StepFollowsEdges(w: World, e: Event)
    requires Inv(w.c)
    ensures Follows(w.c, e, Next(w, e).c, Step(w.c, e).1)
  {
    if e.Arrive? {
      ArrivalFollowsEdges(w.c, e.seg);
    }
  }

  /** Every call of a run moves along an edge. */
  lemma RunFollowsEdges(w: World, es: seq<Event>, k: nat)
    requires Inv(w.c) && k < |es|
    ensures var v := Run(w, es[..k]); Follows(v.c, es[k], Run(w, es[..k + 1]).c, Step(v.c, es[k]).1)
  {
    assert es[..k + 1][..k] == es[..k];
    StepFollowsEdges(Run(w, es[..k]), es[k]);
  }

  /** RESET is final: no run leaves it. */
  lemma {:induction false} ResetIsFinal(w: World, es: seq<Event>)
    requires Inv(w.c) && w.c.state == Reset
    ensures Run(w, es).c.state == Reset
  {
    if es != [] {
      ResetIsFinal(w, es[..|es| - 1]);
      StepFollowsEdges(Run(w, es[..|es| - 1]), es[|es| - 1]);
    }
  }

  // ------------------------------------------------------- our FIN was acknowledged

  predicate Closing(s: State) {
    s == FinWait1 || s == FinWait2 || s == LastAck
  }

  /** The event is the acknowledgment, equal to `sendNext`, that covers our outstanding FIN. */
  predicate AcksOurFin(c: Conn, e: Event) {
    && e.Arrive? && Addressed(c, e.seg) && !e.seg.flags.rst
    && (c.state == FinWait1 || c.state == LastAck)
    && LastIsFin(c) && c.sendUna != c.sendNext
    && AckAccepted(c, e.seg) && e.seg.ackNumber == c.sendNext
  }

  /** What a step can do to the send side while our FIN is out. */
  lemma ClosingStep(w: World, e: Event)
    requires Inv(w.c) && Closing(w.c.state)
    ensures var c, d := w.c, Next(w, e).c;
            && d.sendNext == c.sendNext
            && (c.sendUna != c.sendNext && d.sendUna == d.sendNext ==> d.state == Reset || AcksOurFin(c, e))
  {
    if e.Arrive? && Addressed(w.c, e.seg) && !e.seg.flags.rst {
      var a := Acked(w.c, e.seg);
      AckKeepsReceive(w.c, e.seg);
      ArriveCases(w, e.seg);
      if Receiving(w.c.state) {
        ReceiveKeepsSend(a, e.seg);
      }
    }
  }

  /** A FIN that is just being sent is outstanding. */
  lemma EnteringClosing(w: World, e: Event)
    requires Inv(w.c) && !Closing(w.c.state) && Closing(Next(w, e).c.state)
    ensures Next(w, e).c.sendUna != Next(w, e).c.sendNext
  {
    StepFollowsEdges(w, e);
    if e.Arrive? && Addressed(w.c, e.seg) && !e.seg.flags.rst {
      AckKeepsReceive(w.c, e.seg);
      ArriveCases(w, e.seg);
      if Receiving(w.c.state) {
        ReceiveStates(Acked(w.c, e.seg), e.seg);
      }
    }
  }

  /** Event `k` of the run acknowledged the FIN that ends at `next`. */
  predicate FinAckedAt(w: World, es: seq<Event>, k: nat, next: U32)
    requires Inv(w.c)
  {
    k < |es| && AcksOurFin(Run(w, es[..k]).c, es[k]) && Run(w, es[..k]).c.sendNext == next
  }

  lemma {:induction false} FinAckWitness(w: World, es: seq<Event>) returns (k: nat)
    requires Start(w)
    requires var d := Run(w, es).c; Closing(d.state) && d.sendUna == d.sendNext
    ensures FinAckedAt(w, es, k, Run(w, es).c.sendNext)
    decreases |es|, 1
  {
    assert es != [];
    var v := Run(w, es[..|es| - 1]);
    assert Closing(v.c.state) by {
      if !Closing(v.c.state) {
        EnteringClosing(v, es[|es| - 1]);
      }
    }
    k := LastEventWitness(w, es);
  }

  /** The last event closes our side: the acknowledgment is it, or came before. */
  lemma {:induction false} LastEventWitness(w: World, es: seq<Event>) returns (k: nat)
    requires Start(w) && es != []
    requires var c, d := Run(w, es[..|es| - 1]).c, Run(w, es).c;
             Closing(c.state) && d.state != Reset && d.sendUna == d.sendNext
    ensures FinAckedAt(w, es, k, Run(w, es).c.sendNext)
    decreases |es|, 0
  {
    var n := |es| - 1;
    var v := Run(w, es[..n]);
    ClosingStep(v, es[n]);
    k := n;
    if v.c.sendUna == v.c.sendNext {
      k := FinAckWitness(w, es[..n]);
      assert es[..n][..k] == es[..k];
    }
  }

  /**
   FIN_WAIT_2 and the return to CLOSED only happen after an acknowledgment equal to `sendNext`,
   covering our FIN, was accepted earlier in the run.
   */
  lemma ClosedOnlyAfterFinAck(w: World, es: seq<Event>)
    requires Start(w) && es != []
    requires var s, t := Run(w, es[..|es| - 1]).c.state, Run(w, es).c.state;
             t == FinWait2 || OwnFinDone(s, t)
    ensures exists k: nat :: FinAckedAt(w, es, k, Run(w, es).c.sendNext)
  {
    var k: nat;
    if Run(w, es).c.state == FinWait2 {
      k := FinAckWitness(w, es);
    } else {
      StepFollowsEdges(Run(w, es[..|es| - 1]), es[|es| - 1]);
      k := LastEventWitness(w, es);
    }
    assert FinAckedAt(w, es, k, Run(w, es).c.sendNext);
  }
}
