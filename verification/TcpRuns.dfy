/**
 Whole runs: what the application receives, whatever order the network delivers segments in.
 */
module TcpRuns {
  import opened Bytes
  import opened SequenceSpace
  import opened TcpSegment
  import opened TcpModel
  import opened TcpEvents
  import opened TcpInvariants
  import opened TcpReassembly

  /** A connection and what a run has fed it since the run began. */
  datatype World = World(
    c: Conn,
    before: seq<U8>,      // bytes appended before the run began
    got: set<int>,        // stream offsets of every payload accepted
    finSeen: bool,        // a FIN was accepted
    overflow: bool)       // a call returned -2

  /** The segment reaches payload and FIN processing. */
  predicate Processed(c: Conn, e: Event) {
    e.Arrive? && Addressed(c, e.seg) && !e.seg.flags.rst && Receiving(c.state)
  }

  /** The offsets of a payload. */
  function Range(c: Conn, seg: Segment): set<int> {
    var o := Off(c, seg.seqNumber);
    set x: int | o <= x < o + |seg.payload| && SegmentHas(c, seg, x)
  }

  function Next(w: World, e: Event): (w': World)
    requires Inv(w.c)
    ensures Inv(w'.c) && w'.before == w.before
  {
    StepKeepsInv(w.c, e);
    var (d, r) := Step(w.c, e);
    var accepted := Processed(w.c, e) && r == 0;
    World(d, w.before,
          if accepted then w.got + Range(w.c, e.seg) else w.got,
          w.finSeen || (accepted && e.seg.flags.fin),
          w.overflow || (e.Arrive? && r == -2))
  }

  function Run(w: World, es: seq<Event>): (w': World)
    requires Inv(w.c)
    ensures Inv(w'.c) && w'.before == w.before
  {
    if es == [] then w else Next(Run(w, es[..|es| - 1]), es[|es| - 1])
  }

  /** tcp_connection_init. */
  function Opened(localPort: U16, remotePort: U16, initialSequence: U32): (w: World)
    ensures Start(w)
  {
    InitInv(localPort, remotePort, initialSequence);
    World(Init(localPort, remotePort, initialSequence), [], {}, false, false)
  }

  /** What a connection starts as. */
  lemma OpenedIs(localPort: U16, remotePort: U16, initialSequence: U32)
    ensures var c := Opened(localPort, remotePort, initialSequence).c;
            && c.state == Closed && c.localPort == localPort && c.remotePort == remotePort
            && c.sendUna == initialSequence && c.sendNext == initialSequence && c.recvNext == 0 && c.remoteWindow == 0
            && c.rto == 1000 && c.elapsed == 0 && c.retries == 0 && c.retryLimit == 5 && !c.hasRetransmit
            && |c.slots| == 16 && (forall i :: 0 <= i < 16 ==> !c.slots[i].used) && c.slotCount == 0
            && c.ready == [] && !c.pendingFin && c.hist.appended == [] && c.hist.taken == [] && c.hist.fins == 0
  {
  }

  /**
   Every reachable state, whatever the peer sent: `recvNext` counts SYN, bytes and FINs; bytes
   appended are bytes read and bytes ready; no FIN is counted in ESTABLISHED, FIN_WAIT_1 and
   FIN_WAIT_2; and the slot counter counts the slots.
   */
  lemma AccountingUnbroken(localPort: U16, remotePort: U16, initialSequence: U32, es: seq<Event>)
    ensures Accounted(Run(Opened(localPort, remotePort, initialSequence), es).c)
  {
    InvAccounts(Run(Opened(localPort, remotePort, initialSequence), es).c);
  }

  predicate Accounted(c: Conn) {
    && (c.hist.irs.Some? ==> AtPosition(c))
    && (c.state != Reset ==> c.hist.appended == c.hist.taken + c.ready)
    && (c.state == Established || c.state == FinWait1 || c.state == FinWait2 ==>
          c.hist.irs.Some? && c.hist.fins == 0)
    && c.slotCount == UsedCount(c.slots)
  }

  lemma InvAccounts(c: Conn)
    requires Inv(c)
    ensures Accounted(c)
  {
  }

  /**
   The send side in every reachable state, through wrap-around: what is outstanding fits one
   segment, and outside RESET a segment is held for retransmission exactly while something is
   outstanding; it ends at `sendNext` and covers `sendUna`. The timer never idles past its timeout.
   */
  lemma SendSideSound(localPort: U16, remotePort: U16, initialSequence: U32, es: seq<Event>)
    ensures SendSound(Run(Opened(localPort, remotePort, initialSequence), es).c)
  {
    InvSends(Run(Opened(localPort, remotePort, initialSequence), es).c);
  }

  predicate SendSound(c: Conn) {
    && Wrap(c.sendNext - c.sendUna) <= MAX_PAYLOAD_LEN
    && (c.state != Reset ==> (c.hasRetransmit <==> c.sendUna != c.sendNext))
    && (c.hasRetransmit ==> LastCoversUna(c))
    && (c.state == FinWait2 ==> c.sendUna == c.sendNext)
    && RtoStep(c.rto) && (c.state != Reset ==> c.elapsed < c.rto)
  }

  lemma InvSends(c: Conn)
    requires Inv(c)
    ensures SendSound(c)
  {
  }

  /** A read hands over the oldest bytes ready, as many as there are and are asked for, and leaves the rest. */
  lemma ReadsOldest(c: Conn, max: nat)
    ensures var (d, bytes) := Read(c, max);
            && |bytes| == (if |c.ready| < max then |c.ready| else max)
            && bytes + d.ready == c.ready && d.hist.taken == c.hist.taken + bytes
            && d == c.(ready := d.ready, hist := d.hist) && d.hist == c.hist.(taken := d.hist.taken)
  {
  }

  /** Two reads hand over what one of both sizes would. */
  lemma ReadTwice(c: Conn, a: nat, b: nat)
    ensures var (d, front) := Read(c, a);
            var (e, back) := Read(d, b);
            e.ready == Read(c, a + b).0.ready && front + back == Read(c, a + b).1
  {
    ReadsOldest(c, a);
    ReadsOldest(Read(c, a).0, b);
  }

  // ------------------------------------------------------------------- hypotheses

  /** No buffered payload and no pending FIN. */
  predicate Quiet(c: Conn) {
    !c.pendingFin && forall i :: 0 <= i < |c.slots| ==> !c.slots[i].used
  }

  /** A run begins before the handshake of one incarnation, as after init. */
  predicate Start(w: World) {
    && Inv(w.c) && Quiet(w.c) && w.c.hist.irs.None?
    && w.before == w.c.hist.appended
    && w.got == {} && !w.finSeen && !w.overflow
  }

  /** One incarnation: a connection that has been synchronized is not opened again. */
  predicate OneLife(w: World, e: Event) {
    e.SendSyn? && w.c.state == Closed ==> w.c.hist.irs.None?
  }

  predicate OneLifeRun(w: World, es: seq<Event>)
    requires Inv(w.c)
  {
    es == [] || (OneLifeRun(w, es[..|es| - 1]) && OneLife(Run(w, es[..|es| - 1]), es[|es| - 1]))
  }

  /** The caller also gives up on -2. */
  predicate Patient(w: World, e: Event) {
    !w.overflow && OneLife(w, e)
  }

  predicate PatientRun(w: World, es: seq<Event>)
    requires Inv(w.c)
  {
    es == [] || (PatientRun(w, es[..|es| - 1]) && Patient(Run(w, es[..|es| - 1]), es[|es| - 1]))
  }

  /** And the network delivers within the window. */
  predicate Allowed(w: World, e: Event) {
    Patient(w, e) && (Processed(w.c, e) ==> InWindow(w.c, e.seg))
  }

  predicate AllowedRun(w: World, es: seq<Event>)
    requires Inv(w.c)
  {
    es == [] || (AllowedRun(w, es[..|es| - 1]) && Allowed(Run(w, es[..|es| - 1]), es[|es| - 1]))
  }

  predicate HonestRun(s: seq<U8>, w: World, es: seq<Event>)
    requires Inv(w.c)
  {
    es == [] ||
    var w' := Run(w, es[..|es| - 1]);
    var e := es[|es| - 1];
    HonestRun(s, w, es[..|es| - 1]) && (Processed(w'.c, e) ==> Honest(s, w'.c, e.seg))
  }

  // ------------------------------------------------------------- the set of offsets

  /** While no FIN has been consumed the connection holds exactly the offsets that were accepted. */
  ghost predicate HoldsGot(w: World) {
    SlotsAhead(w.c) && forall x :: x in w.got <==> Covered(w.c, x)
  }

  ghost predicate SetInv(w: World) {
    && Inv(w.c)
    && (w.c.hist.irs.None? ==>
          Quiet(w.c) && w.c.hist.appended == w.before && w.got == {} && !w.finSeen && !w.overflow)
    && (w.c.hist.irs.Some? ==> w.c.hist.base == |w.before| && w.before <= w.c.hist.appended)
    && (Counting(w.c) && !w.overflow ==> HoldsGot(w))
  }

  /** `d` differs from `c` in nothing the receive side looks at. */
  predicate SameReceive(c: Conn, d: Conn) {
    && d.slots == c.slots && d.recvNext == c.recvNext
    && d.hist == c.hist.(taken := d.hist.taken)
  }

  lemma SameReceiveCovers(c: Conn, d: Conn)
    requires SameReceive(c, d)
    ensures forall x :: Covered(d, x) <==> Covered(c, x)
  {
    forall x
      ensures Covered(d, x) <==> Covered(c, x)
    {
      SameSlotsCover(c, d, x);
      SameSlotsCover(c, c, x);
    }
  }

  lemma SameReceiveKeepsSet(w: World, d: Conn)
    requires SetInv(w) && Inv(d) && SameReceive(w.c, d)
    requires w.c.hist.irs.None? ==> !d.pendingFin
    requires w.c.state == Reset ==> d.state == Reset
    ensures SetInv(w.(c := d))
  {
    SameReceiveCovers(w.c, d);
  }

  /** Calls that do not reach payload processing, reset or complete a handshake leave the receive side alone. */
  lemma OtherEventsKeepReceive(w: World, e: Event)
    requires Inv(w.c) && Patient(w, e) && !e.Arrive?
    ensures var d := Next(w, e).c;
            && Next(w, e) == w.(c := d) && SameReceive(w.c, d)
            && d.pendingFin == w.c.pendingFin && d.pendingFinSeq == w.c.pendingFinSeq
            && (w.c.state == Reset ==> d.state == Reset)
  {
  }

  lemma OtherEventsKeepSet(w: World, e: Event)
    requires SetInv(w) && Allowed(w, e) && !e.Arrive?
    ensures SetInv(Next(w, e))
  {
    OtherEventsKeepReceive(w, e);
    SameReceiveKeepsSet(w, Next(w, e).c);
  }

  lemma HandshakeKeepsSet(w: World, d: Conn, seg: Segment)
    requires SetInv(w) && Inv(d) && w.c.hist.irs.None?
    requires d == Acked(w.c, seg) || d == CompleteHandshake(Acked(w.c, seg), seg)
    ensures SetInv(w.(c := d))
  {
    if d.hist.irs.Some? {
      assert Received(d) == 0;
    }
  }

  /** If no FIN was taken after the payload, the receive side is as the payload left it. */
  lemma AfterPayloadHolds(p: Conn, seg: Segment)
    requires p.hist.fins == AfterPayload(p, seg).hist.fins
    ensures SameReceive(p, AfterPayload(p, seg))
  {
    AfterPayloadShape(p, seg);
  }

  lemma ReceiveHolds(a: Conn, seg: Segment)
    requires Counting(a) && SlotsAhead(a) && InWindow(a, seg)
    requires Receive(a, seg).1 == 0 && Receive(a, seg).0.hist.fins == 0
    ensures var d := Receive(a, seg).0;
            SlotsAhead(d) && forall x :: Covered(d, x) <==> Covered(a, x) || SegmentHas(a, seg, x)
  {
    var p := ProcessPayload(a, seg).0;
    var d := AfterPayload(p, seg);
    AfterPayloadShape(p, seg);
    AfterPayloadHolds(p, seg);
    PayloadRefinesUnion([], a, seg);
    SameReceiveCovers(p, d);
  }

  /** The world after a segment is processed; `a` is the connection after its acknowledgment. */
  function AfterReceive(w: World, a: Conn, seg: Segment): World
    requires SlotsFit(a.slots)
  {
    var (d, r) := Receive(a, seg);
    w.(c := d,
       got := if r == 0 then w.got + Range(w.c, seg) else w.got,
       finSeen := w.finSeen || (r == 0 && seg.flags.fin),
       overflow := w.overflow || r == -2)
  }

  function Acked(c: Conn, seg: Segment): Conn {
    ProcessAck(c, seg).(remoteWindow := seg.window)
  }

  /** Acknowledgment processing leaves the receive side alone. */
  lemma AckKeepsReceive(c: Conn, seg: Segment)
    requires Inv(c)
    ensures var a := Acked(c, seg);
            && Inv(a) && SameReceive(c, a) && a.state == c.state
            && a.pendingFin == c.pendingFin && a.pendingFinSeq == c.pendingFinSeq
  {
    AckKeepsInv(c, seg);
  }

  /** The ways an addressed segment without RST can go. */
  lemma ArriveCases(w: World, seg: Segment)
    requires Inv(w.c) && Addressed(w.c, seg) && !seg.flags.rst
    ensures var w' := Next(w, Arrive(seg));
            var a := Acked(w.c, seg);
            && SlotsFit(a.slots)
            && (Receiving(w.c.state) ==> w' == AfterReceive(w, a, seg))
            && (!Receiving(w.c.state) ==>
                  w' == w.(c := a) || (w.c.state == SynSent && w' == w.(c := CompleteHandshake(a, seg))))
  {
  }

  lemma ReceiveKeepsSet(w: World, a: Conn, seg: Segment)
    requires SetInv(w) && !w.overflow && Inv(a) && SameReceive(w.c, a) && w.c.state == a.state
    requires Receiving(a.state) && InWindow(a, seg)
    ensures SetInv(AfterReceive(w, a, seg))
  {
    ReceiveKeepsInv(a, seg);
    PayloadKeepsInv(a, seg);
    AfterPayloadShape(ProcessPayload(a, seg).0, seg);
    var (d, r) := Receive(a, seg);
    if Counting(d) && r == 0 {
      SameReceiveCovers(w.c, a);
      ReceiveHolds(a, seg);
      assert forall x :: SegmentHas(a, seg, x) <==> SegmentHas(w.c, seg, x);
    }
  }

  lemma ArriveKeepsSet(w: World, seg: Segment)
    requires SetInv(w) && Allowed(w, Arrive(seg)) && Addressed(w.c, seg) && !seg.flags.rst
    ensures SetInv(Next(w, Arrive(seg)))
  {
    var a := Acked(w.c, seg);
    AckKeepsReceive(w.c, seg);
    ArriveCases(w, seg);
    if Receiving(w.c.state) {
      ReceiveKeepsSet(w, a, seg);
    } else {
      SameReceiveKeepsSet(w, a);
      if w.c.state == SynSent {
        HandshakeKeepsSet(w, Next(w, Arrive(seg)).c, seg);
      }
    }
  }

  lemma StepKeepsSet(w: World, e: Event)
    requires SetInv(w) && Allowed(w, e)
    ensures SetInv(Next(w, e))
  {
    if !e.Arrive? {
      OtherEventsKeepSet(w, e);
    } else if Addressed(w.c, e.seg) && !e.seg.flags.rst {
      ArriveKeepsSet(w, e.seg);
    }
  }

  lemma {:induction false} RunKeepsSet(w: World, es: seq<Event>)
    requires Start(w) && AllowedRun(w, es)
    ensures SetInv(Run(w, es))
  {
    if es != [] {
      RunKeepsSet(w, es[..|es| - 1]);
      StepKeepsSet(Run(w, es[..|es| - 1]), es[|es| - 1]);
    }
  }

  /**
   Reassembly refines a set, for any peer: while no FIN is consumed and no call returned -2, the
   receive position is the least offset missing from everything accepted, and the delivered
   prefix together with the slots is exactly what was accepted.
   */
  lemma ReassemblyRefinesSet(w: World, es: seq<Event>)
    requires Start(w) && AllowedRun(w, es)
    ensures var w' := Run(w, es);
            var n := Received(w'.c);
            Synchronized(w'.c.state) && w'.c.hist.fins == 0 && !w'.overflow ==>
              && n !in w'.got && (forall x :: 0 <= x < n ==> x in w'.got)
              && (forall x :: x in w'.got <==> Covered(w'.c, x))
  {
    RunKeepsSet(w, es);
  }

  // ------------------------------------------------------------- payload after a FIN

  lemma {:induction false} NothingToScan(c: Conn, i: nat)
    requires i <= |c.slots| && SlotsFit(c.slots)
    requires forall k :: 0 <= k < |c.slots| ==> !c.slots[k].used
    ensures ScanSlots(c, i, false) == Scan(c, false, true)
    decreases |c.slots| - i
  {
    if i < |c.slots| {
      NothingToScan(c, i + 1);
    }
  }

  /** A payload at the receive position, with nothing buffered, is appended whole. */
  lemma InOrderAppends(c: Conn, seg: Segment)
    requires Inv(c) && Quiet(c) && seg.payload != [] && seg.seqNumber == c.recvNext
    requires |c.ready| + |seg.payload| <= READY_CAPACITY
    ensures var (d, ok) := ProcessPayload(c, seg);
            && ok && !d.pendingFin && d.state == c.state
            && d.hist == c.hist.(appended := c.hist.appended + seg.payload)
  {
    DistanceShifts(c.recvNext, c.recvNext, |seg.payload|);
    assert Wrap(c.recvNext - seg.seqNumber) == 0;
    assert seg.payload[0..] == seg.payload;
    NothingToScan(Deliver(c, seg.seqNumber, seg.payload).value, 0);
  }

  /**
   The code takes payload behind a FIN it has consumed (CLOSE_WAIT and LAST_ACK go on receiving),
   and counts the FIN's sequence number as no byte. From then on the number of bytes delivered is
   itself an accepted offset, against the refinement above. TcpPastFin says exactly when.
   */
  lemma PayloadAfterFinIsTaken(w: World, seg: Segment)
    requires Inv(w.c) && (w.c.state == CloseWait || w.c.state == LastAck) && w.c.hist.fins == 1 && Quiet(w.c)
    requires Addressed(w.c, seg) && !seg.flags.rst && !seg.flags.fin
    requires seg.payload != [] && seg.seqNumber == w.c.recvNext
    requires |w.c.ready| + |seg.payload| <= READY_CAPACITY
    ensures var w' := Next(w, Arrive(seg));
            && w'.overflow == w.overflow
            && (w'.c.state == w.c.state || (w.c.state == LastAck && w'.c.state == Closed))
            && w'.c.hist == w.c.hist.(appended := w.c.hist.appended + seg.payload)
            && Received(w'.c) in w'.got
  {
    var a := Acked(w.c, seg);
    AckKeepsReceive(w.c, seg);
    ArriveCases(w, seg);
    InOrderAppends(a, seg);
    assert AfterReceive(w, a, seg).got == w.got + Range(w.c, seg);
    assert SegmentHas(w.c, seg, Received(w.c) + |seg.payload|);
  }
}
