/**
 Against a peer that sends one byte stream and then at most a FIN: the application reads a
 prefix of the stream, the FIN is taken once and at the end, and the order of arrival is
 invisible.
 */
module TcpStream {
  import opened Bytes
  import opened SequenceSpace
  import opened TcpSegment
  import opened TcpModel
  import opened TcpEvents
  import opened TcpInvariants
  import opened TcpReassembly
  import opened TcpRuns

  /** The sequence number of the peer's FIN. */
  function EndSeq(s: seq<U8>, c: Conn): U32
    requires c.hist.irs.Some?
  {
    Wrap(c.hist.irs.value + 1 + |s|)
  }

  /** The end of the stream is near enough for its sequence number to be unambiguous. */
  predicate EndNear(s: seq<U8>, c: Conn) {
    |s| - Received(c) <= WINDOW + MAX_PAYLOAD_LEN
  }

  /** At most one FIN, and only at the end; a pending one sits at the end. */
  predicate FinInv(s: seq<U8>, c: Conn) {
    && c.hist.irs.Some?
    && c.hist.fins <= 1
    && (c.hist.fins == 1 ==> Received(c) == |s| && !c.pendingFin)
    && (c.pendingFin ==> c.pendingFinSeq == EndSeq(s, c) && EndNear(s, c))
  }

  /** A pending FIN is strictly ahead of the receive position. */
  predicate PendingAhead(s: seq<U8>, c: Conn) {
    c.pendingFin ==> Received(c) < |s|
  }

  /** A FIN has been taken or is pending. */
  predicate FinKnown(c: Conn) {
    c.hist.fins == 1 || c.pendingFin
  }

  /** What the connection holds of the stream, and of its end. */
  ghost predicate Streaming(s: seq<U8>, w: World) {
    && Matches(s, w.c) && FinInv(s, w.c)
    && (!w.overflow ==> PendingAhead(s, w.c))
    && (!w.overflow && w.c.state != Reset ==>
          && (w.finSeen <==> FinKnown(w.c))
          && (w.c.hist.fins == 1 ==> Quiet(w.c) && forall x :: x in w.got <==> 0 <= x < |s|))
  }

  ghost predicate StreamInv(s: seq<U8>, w: World) {
    SetInv(w) && (w.c.hist.irs.Some? ==> Streaming(s, w))
  }

  // ------------------------------------------------------------------------ the FIN

  /** The end is at the receive position exactly when the whole stream is in. */
  lemma EndAtPosition(s: seq<U8>, c: Conn)
    requires AccountInv(c) && c.hist.irs.Some? && c.hist.fins <= 1
    requires 0 <= Received(c) <= |s| && EndNear(s, c)
    ensures Distance(EndSeq(s, c), c.recvNext) == |s| - Position(c)
    ensures EndSeq(s, c) == c.recvNext <==> |s| == Position(c)
  {
    DistanceOfPositions(c.hist.irs.value + 1 + |s|, c.hist.irs.value + 1 + Position(c));
  }

  lemma ConsumeFin(s: seq<U8>, c: Conn)
    requires AccountInv(c) && FinInv(s, c) && 0 <= Received(c) <= |s|
    ensures var d := ConsumePendingFin(c); FinInv(s, d) && PendingAhead(s, d) && Received(d) == Received(c)
    ensures FinKnown(ConsumePendingFin(c)) <==> FinKnown(c)
  {
    if c.pendingFin {
      EndAtPosition(s, c);
    }
  }

  lemma ArrivingFin(s: seq<U8>, c: Conn, seg: Segment)
    requires AccountInv(c) && FinInv(s, c) && PendingAhead(s, c) && 0 <= Received(c) <= |s|
    requires seg.flags.fin ==> FinSeq(seg) == EndSeq(s, c) && EndNear(s, c)
    ensures var d := ProcessFin(c, seg);
            && FinInv(s, d) && Received(d) == Received(c)
            && (FinKnown(d) <==> FinKnown(c) || seg.flags.fin)
  {
    if seg.flags.fin {
      EndAtPosition(s, c);
    }
  }

  /** An honest FIN carries the sequence number of the end, whatever its payload did meanwhile. */
  lemma HonestFinSeq(s: seq<U8>, c: Conn, p: Conn, seg: Segment)
    requires AccountInv(c) && c.hist.irs.Some? && seg.flags.fin
    requires InWindow(c, seg) && Honest(s, c, seg)
    requires p.hist.irs == c.hist.irs && Received(c) <= Received(p) && c.hist.fins == 0
    ensures FinSeq(seg) == EndSeq(s, p) && EndNear(s, p)
  {
    var x := c.hist.irs.value + 1;
    var o := Off(c, seg.seqNumber);
    assert seg.seqNumber == Wrap(x + o) by {
      DistanceIs(seg.seqNumber, c.recvNext, 0);
      WrapTwice(x + Position(c), Distance(seg.seqNumber, c.recvNext));
    }
    WrapTwice(x + o, |seg.payload|);
  }

  /** With the whole stream delivered there is nothing left to buffer. */
  lemma FullMeansQuiet(s: seq<U8>, c: Conn)
    requires SlotsInv(c) && SlotsAhead(c) && Matches(s, c) && Position(c) >= |s|
    ensures forall i :: 0 <= i < |c.slots| ==> !c.slots[i].used
  {
    assert forall i :: 0 <= i < |c.slots| && c.slots[i].used ==> SlotMatches(s, c, i);
  }

  // ------------------------------------------------------------------------ one segment

  /** What the payload stage leaves behind when it succeeds. */
  predicate Settled(s: seq<U8>, p: Conn) {
    && PendingAhead(s, p)
    && (p.hist.fins == 0 ==> SlotsAhead(p))
    && (p.hist.fins == 1 ==> Quiet(p))
  }

  lemma DeliveredKeepsStream(s: seq<U8>, c: Conn, seg: Segment)
    requires Counting(c) && SlotsAhead(c) && InWindow(c, seg) && Honest(s, c, seg)
    requires Matches(s, c) && FinInv(s, c) && Delivered(c, seg)
    ensures var (m, ok) := Promoted(c, seg);
            Counting(m) && Matches(s, m) && FinInv(s, m) && m.pendingFin == c.pendingFin && (ok ==> SlotsAhead(m))
  {
    DeliverCovers(s, c, seg);
    var d := Deliver(c, seg.seqNumber, seg.payload).value;
    PromotionKeepsBytes(s, d);
    PayloadPaths(c, seg);
    AdvancedKeepsFinInv(s, c, Promoted(c, seg).0);
  }

  lemma AdvancedKeepsFinInv(s: seq<U8>, c: Conn, m: Conn)
    requires Advanced(c, m) && FinInv(s, c) && c.hist.fins == 0
    ensures FinInv(s, m)
  {
  }

  /** A pending FIN is taken only at the end, with nothing left in the slots. */
  lemma ConsumeSettles(s: seq<U8>, m: Conn)
    requires Counting(m) && Matches(s, m) && FinInv(s, m) && SlotsAhead(m)
    ensures var p := ConsumePendingFin(m);
            && Matches(s, p) && FinInv(s, p) && Settled(s, p)
            && (FinKnown(p) <==> FinKnown(m))
  {
    ConsumeFin(s, m);
    ConsumeKeepsBytes(s, m);
    if Received(m) == |s| {
      FullMeansQuiet(s, m);
    }
  }

  /** What the payload stage keeps of the stream. */
  predicate StreamKept(s: seq<U8>, c: Conn, p: Conn, ok: bool) {
    Matches(s, p) && FinInv(s, p) && (ok ==> Settled(s, p) && (FinKnown(p) <==> FinKnown(c)))
  }

  lemma BufferedKeepsStream(s: seq<U8>, c: Conn, seg: Segment)
    requires Counting(c) && SlotsAhead(c) && InWindow(c, seg) && Honest(s, c, seg)
    requires Matches(s, c) && FinInv(s, c) && PendingAhead(s, c) && Buffered(c, seg)
    ensures StreamKept(s, c, BufferFuture(c, seg.seqNumber, seg.payload).value, true)
  {
    var d := BufferFuture(c, seg.seqNumber, seg.payload).value;
    assert Matches(s, d) && SlotsAhead(d) by {
      BufferCovers(s, c, seg);
    }
    BufferCases(c, seg.seqNumber, seg.payload);
    SlotsKeepFin(s, c, d);
  }

  lemma SlotsKeepFin(s: seq<U8>, c: Conn, d: Conn)
    requires FinInv(s, c) && PendingAhead(s, c) && d == c.(slots := d.slots, slotCount := d.slotCount)
    ensures FinInv(s, d) && PendingAhead(s, d) && (FinKnown(d) <==> FinKnown(c))
  {
  }

  lemma PromotedKeepsStream(s: seq<U8>, c: Conn, seg: Segment)
    requires Counting(c) && SlotsAhead(c) && InWindow(c, seg) && Honest(s, c, seg)
    requires Matches(s, c) && FinInv(s, c) && Delivered(c, seg)
    ensures var (m, ok) := Promoted(c, seg);
            StreamKept(s, c, if ok then ConsumePendingFin(m) else m, ok)
  {
    var (m, ok) := Promoted(c, seg);
    DeliveredKeepsStream(s, c, seg);
    if ok {
      ConsumeSettles(s, m);
    }
  }

  /** The payload stage, no FIN taken yet. */
  lemma PayloadKeepsStream(s: seq<U8>, c: Conn, seg: Segment)
    requires Counting(c) && SlotsAhead(c) && InWindow(c, seg) && Honest(s, c, seg)
    requires Matches(s, c) && FinInv(s, c) && PendingAhead(s, c)
    ensures var (p, ok) := ProcessPayload(c, seg); StreamKept(s, c, p, ok)
  {
    PayloadPaths(c, seg);
    if Delivered(c, seg) {
      PromotedKeepsStream(s, c, seg);
    } else if Buffered(c, seg) {
      BufferedKeepsStream(s, c, seg);
    }
  }

  /** Everything after the payload: at most one FIN, taken at the end. */
  lemma AfterPayloadFin(s: seq<U8>, p: Conn, seg: Segment)
    requires AccountInv(p) && FinInv(s, p) && PendingAhead(s, p) && 0 <= Received(p) <= |s|
    requires seg.flags.fin ==> FinSeq(seg) == EndSeq(s, p) && EndNear(s, p)
    ensures var d := AfterPayload(p, seg);
            && FinInv(s, d) && PendingAhead(s, d)
            && (FinKnown(d) <==> FinKnown(p) || seg.flags.fin)
  {
    ArrivingFin(s, p, seg);
    ProcessFinShape(p, seg);
    ConsumeFin(s, ProcessFin(p, seg));
    FinishCloseShape(ConsumePendingFin(ProcessFin(p, seg)));
  }

  lemma FinsKeepMatches(s: seq<U8>, p: Conn, d: Conn)
    requires Inv(p) && p.state != Reset && Matches(s, p) && FinInv(s, p) && Settled(s, p)
    requires FinsTaken(p, d) && FinInv(s, d)
    ensures Matches(s, d)
    ensures d.hist.fins == 1 ==> Quiet(d) && forall x :: Covered(p, x) <==> 0 <= x < |s|
  {
    if p.hist.fins == 0 {
      TakeFinKeepsBytes(s, p, d);
      if Received(p) == |s| {
        FullMeansQuiet(s, p);
      }
    }
  }

  /** One honest segment before the FIN: prefix, FIN position and, at the end, the whole set. */
  lemma ReceiveStream(s: seq<U8>, c: Conn, seg: Segment)
    requires Counting(c) && SlotsAhead(c) && InWindow(c, seg) && Honest(s, c, seg)
    requires Matches(s, c) && FinInv(s, c) && PendingAhead(s, c)
    ensures var (d, r) := Receive(c, seg);
            && Matches(s, d) && FinInv(s, d)
            && (r == 0 ==>
                  && PendingAhead(s, d)
                  && (FinKnown(d) <==> FinKnown(c) || seg.flags.fin)
                  && (d.hist.fins == 1 ==> Quiet(d) && forall x :: Covered(c, x) || SegmentHas(c, seg, x) <==> 0 <= x < |s|))
  {
    var (p, ok) := ProcessPayload(c, seg);
    PayloadKeepsStream(s, c, seg);
    PayloadKeepsInv(c, seg);
    if ok {
      if seg.flags.fin {
        HonestFinSeq(s, c, p, seg);
      }
      AfterPayloadFin(s, p, seg);
      AfterPayloadShape(p, seg);
      FinsKeepMatches(s, p, AfterPayload(p, seg));
      PayloadRefinesUnion(s, c, seg);
    }
  }

  /** Once the FIN is in, an honest peer has nothing to add. */
  lemma FinishedIgnores(s: seq<U8>, c: Conn, seg: Segment)
    requires Inv(c) && FinInv(s, c) && c.hist.fins == 1 && 0 <= Received(c)
    requires InWindow(c, seg) && Honest(s, c, seg)
    ensures ProcessPayload(c, seg) == (c, true)
    ensures AfterPayload(c, seg) == FinishClose(c)
  {
    if seg.payload != [] || seg.flags.fin {
      StopIsOff(c, seg.seqNumber, |seg.payload|);
    }
  }

  // ------------------------------------------------------------------------ runs

  lemma ReceiveKeepsStream(s: seq<U8>, w: World, a: Conn, seg: Segment)
    requires StreamInv(s, w) && !w.overflow && Inv(a) && SameReceive(w.c, a) && w.c.state == a.state
    requires w.c.pendingFin == a.pendingFin && w.c.pendingFinSeq == a.pendingFinSeq
    requires Receiving(a.state) && InWindow(a, seg) && Honest(s, a, seg)
    ensures StreamInv(s, AfterReceive(w, a, seg))
  {
    ReceiveKeepsSet(w, a, seg);
    SameReceiveMatches(s, w.c, a);
    assert forall x :: x in Range(w.c, seg) <==> SegmentHas(a, seg, x);
    if a.hist.fins == 1 {
      FinishedKeepsStream(s, w, a, seg);
    } else {
      UnfinishedKeepsStream(s, w, a, seg);
    }
  }

  lemma UnfinishedKeepsStream(s: seq<U8>, w: World, a: Conn, seg: Segment)
    requires StreamInv(s, w) && !w.overflow && Inv(a) && SameReceive(w.c, a) && w.c.state == a.state
    requires w.c.pendingFin == a.pendingFin && w.c.pendingFinSeq == a.pendingFinSeq
    requires Receiving(a.state) && InWindow(a, seg) && Honest(s, a, seg) && a.hist.fins == 0
    requires Matches(s, a)
    requires forall x :: x in Range(w.c, seg) <==> SegmentHas(a, seg, x)
    ensures Streaming(s, AfterReceive(w, a, seg))
  {
    assert HoldsGot(w) && !w.overflow && (w.finSeen <==> FinKnown(a)) && FinInv(s, a) && PendingAhead(s, a);
    GotIsCovered(w, a, seg);
    UnfinishedStreams(s, w, a, seg);
  }

  lemma UnfinishedStreams(s: seq<U8>, w: World, a: Conn, seg: Segment)
    requires !w.overflow && (w.finSeen <==> FinKnown(a))
    requires Counting(a) && SlotsAhead(a) && InWindow(a, seg) && Honest(s, a, seg)
    requires Matches(s, a) && FinInv(s, a) && PendingAhead(s, a)
    requires forall x :: x in w.got + Range(w.c, seg) <==> Covered(a, x) || SegmentHas(a, seg, x)
    ensures Streaming(s, AfterReceive(w, a, seg))
  {
    ReceiveStream(s, a, seg);
  }

  /** What is accepted once the segment is: what was held, and the payload's offsets. */
  lemma GotIsCovered(w: World, a: Conn, seg: Segment)
    requires HoldsGot(w) && SameReceive(w.c, a)
    requires forall x :: x in Range(w.c, seg) <==> SegmentHas(a, seg, x)
    ensures SlotsAhead(a)
    ensures forall x :: x in w.got + Range(w.c, seg) <==> Covered(a, x) || SegmentHas(a, seg, x)
  {
    SameReceiveCovers(w.c, a);
  }

  lemma FinishedKeepsStream(s: seq<U8>, w: World, a: Conn, seg: Segment)
    requires StreamInv(s, w) && !w.overflow && Inv(a) && SameReceive(w.c, a) && w.c.state == a.state
    requires w.c.pendingFin == a.pendingFin && w.c.pendingFinSeq == a.pendingFinSeq
    requires Receiving(a.state) && InWindow(a, seg) && Honest(s, a, seg) && a.hist.fins == 1
    requires Matches(s, a)
    requires forall x :: x in Range(w.c, seg) <==> SegmentHas(a, seg, x)
    ensures Streaming(s, AfterReceive(w, a, seg))
  {
    FinishedIgnores(s, a, seg);
    SameReceiveMatches(s, a, FinishClose(a));
  }

  lemma SameReceiveMatches(s: seq<U8>, c: Conn, d: Conn)
    requires SameReceive(c, d) && Matches(s, c)
    ensures Matches(s, d)
  {
    SlotsKeepMatching(s, c, d);
  }

  lemma SameReceiveKeepsStream(s: seq<U8>, w: World, d: Conn)
    requires StreamInv(s, w) && Inv(d) && SameReceive(w.c, d)
    requires d.pendingFin == w.c.pendingFin && d.pendingFinSeq == w.c.pendingFinSeq
    requires w.c.state == Reset ==> d.state == Reset
    ensures StreamInv(s, w.(c := d))
  {
    SameReceiveKeepsSet(w, d);
    if d.hist.irs.Some? {
      SameReceiveMatches(s, w.c, d);
    }
  }

  lemma OtherEventsKeepStream(s: seq<U8>, w: World, e: Event)
    requires StreamInv(s, w) && Allowed(w, e) && !e.Arrive?
    ensures StreamInv(s, Next(w, e))
  {
    OtherEventsKeepReceive(w, e);
    SameReceiveKeepsStream(s, w, Next(w, e).c);
  }

  lemma HandshakeKeepsStream(s: seq<U8>, w: World, d: Conn, seg: Segment)
    requires StreamInv(s, w) && Inv(d) && w.c.hist.irs.None?
    requires d == Acked(w.c, seg) || d == CompleteHandshake(Acked(w.c, seg), seg)
    ensures StreamInv(s, w.(c := d))
  {
    HandshakeKeepsSet(w, d, seg);
    if d.hist.irs.Some? {
      assert d.hist.appended[d.hist.base..] == s[..0];
    }
  }

  lemma ResetKeepsStream(s: seq<U8>, w: World, seg: Segment)
    requires StreamInv(s, w) && Allowed(w, Arrive(seg)) && Addressed(w.c, seg) && seg.flags.rst
    ensures StreamInv(s, Next(w, Arrive(seg)))
  {
    StepKeepsSet(w, Arrive(seg));
  }

  lemma ArriveKeepsStream(s: seq<U8>, w: World, seg: Segment)
    requires StreamInv(s, w) && Allowed(w, Arrive(seg)) && Addressed(w.c, seg) && !seg.flags.rst
    requires Receiving(w.c.state) ==> Honest(s, w.c, seg)
    ensures StreamInv(s, Next(w, Arrive(seg)))
  {
    var a := Acked(w.c, seg);
    AckKeepsReceive(w.c, seg);
    ArriveCases(w, seg);
    if Receiving(w.c.state) {
      ReceiveKeepsStream(s, w, a, seg);
    } else {
      NotReceivedKeepsStream(s, w, seg);
    }
  }

  /** A segment that does not reach payload processing. */
  lemma NotReceivedKeepsStream(s: seq<U8>, w: World, seg: Segment)
    requires StreamInv(s, w) && Addressed(w.c, seg) && !seg.flags.rst && !Receiving(w.c.state)
    ensures StreamInv(s, Next(w, Arrive(seg)))
  {
    AckKeepsReceive(w.c, seg);
    ArriveCases(w, seg);
    SameReceiveKeepsStream(s, w, Acked(w.c, seg));
    if w.c.state == SynSent {
      HandshakeKeepsStream(s, w, Next(w, Arrive(seg)).c, seg);
    }
  }

  lemma StepKeepsStream(s: seq<U8>, w: World, e: Event)
    requires StreamInv(s, w) && Allowed(w, e)
    requires Processed(w.c, e) ==> Honest(s, w.c, e.seg)
    ensures StreamInv(s, Next(w, e))
  {
    if !e.Arrive? {
      OtherEventsKeepStream(s, w, e);
    } else if Addressed(w.c, e.seg) {
      if e.seg.flags.rst {
        ResetKeepsStream(s, w, e.seg);
      } else {
        ArriveKeepsStream(s, w, e.seg);
      }
    }
  }

  lemma {:induction false} RunKeepsStream(s: seq<U8>, w: World, es: seq<Event>)
    requires Start(w) && AllowedRun(w, es) && HonestRun(s, w, es)
    ensures StreamInv(s, Run(w, es))
  {
    if es != [] {
      RunKeepsStream(s, w, es[..|es| - 1]);
      StepKeepsStream(s, Run(w, es[..|es| - 1]), es[|es| - 1]);
    }
  }

  // ------------------------------------------------------------------------ theorems

  /** The bytes handed over followed by the ready buffer are the first `n` of the stream. */
  predicate ReadsPrefix(s: seq<U8>, before: seq<U8>, c: Conn, n: int) {
    && 0 <= n <= |s|
    && c.hist.taken <= before + s[..n]
    && (c.state != Reset ==> c.hist.taken + c.ready == before + s[..n])
  }

  /**
   Stream safety: whatever is lost, repeated, reordered or overlapped, the application has read,
   or has ready, a prefix of the stream, and `recvNext` counts it. This holds right after a call
   returned -2 as well.
   */
  lemma StreamSafety(s: seq<U8>, w: World, es: seq<Event>)
    requires Start(w) && AllowedRun(w, es) && HonestRun(s, w, es)
    ensures var c := Run(w, es).c;
            c.hist.irs.Some? ==> ReadsPrefix(s, w.before, c, Received(c)) && AtPosition(c)
  {
    RunKeepsStream(s, w, es);
    var v := Run(w, es);
    if v.c.hist.irs.Some? {
      PrefixOfStream(s, v);
    }
  }

  lemma PrefixOfStream(s: seq<U8>, v: World)
    requires SetInv(v) && v.c.hist.irs.Some? && Matches(s, v.c)
    ensures ReadsPrefix(s, v.before, v.c, Received(v.c))
  {
    assert v.c.hist.appended == v.before + v.c.hist.appended[v.c.hist.base..];
    assert v.c.hist.taken <= v.c.hist.taken + v.c.ready <= v.c.hist.appended;
  }

  /**
   The FIN is taken at most once and only after the whole stream; a pending one is strictly ahead.
   Once every byte and a FIN have been accepted it has been taken, and the state has moved on.
   */
  lemma FinOnceAtEnd(s: seq<U8>, w: World, es: seq<Event>)
    requires Start(w) && AllowedRun(w, es) && HonestRun(s, w, es)
    ensures var w' := Run(w, es);
            var c := w'.c;
            c.hist.irs.Some? ==>
              && c.hist.fins <= 1
              && (c.hist.fins == 1 ==> Received(c) == |s|)
              && (c.pendingFin && !w'.overflow ==> SeqGt(c.pendingFinSeq, c.recvNext))
              && (!w'.overflow && c.state != Reset && w'.finSeen && (forall x :: 0 <= x < |s| ==> x in w'.got) ==>
                    && c.hist.fins == 1
                    && c.state != Established && c.state != FinWait1 && c.state != FinWait2)
  {
    RunKeepsStream(s, w, es);
    var w' := Run(w, es);
    var c := w'.c;
    if c.hist.irs.Some? && c.pendingFin && !w'.overflow {
      EndAtPosition(s, c);
      if c.state != Reset {
        LeastMissing(w', |s|);
      }
    }
  }

  /** If every offset below `m` was accepted and none from `m` on, `m` bytes were delivered. */
  lemma LeastMissing(w: World, m: nat)
    requires SetInv(w) && Counting(w.c) && !w.overflow
    ensures (forall x :: 0 <= x < m ==> x in w.got) ==> m <= Received(w.c)
  {
    var n := Received(w.c);
    assert !Covered(w.c, n);
  }

  /**
   Against an honest peer reassembly refines a set through the FIN and after it: the bytes
   delivered are counted by the least offset not accepted, and what is held is what was accepted.
   */
  lemma HonestReassembly(s: seq<U8>, w: World, es: seq<Event>)
    requires Start(w) && AllowedRun(w, es) && HonestRun(s, w, es)
    requires Synchronized(Run(w, es).c.state) && !Run(w, es).overflow
    ensures var w' := Run(w, es);
            var n := Received(w'.c);
            && n !in w'.got && (forall x :: 0 <= x < n ==> x in w'.got)
            && (forall x :: x in w'.got <==> Covered(w'.c, x))
  {
    RunKeepsStream(s, w, es);
    var w' := Run(w, es);
    if w'.c.hist.fins == 0 {
      assert Counting(w'.c);
    }
  }

  /** Two runs that accepted the same offsets, and a FIN or not, deliver the same bytes. */
  lemma OrderIsInvisible(s: seq<U8>, w1: World, es1: seq<Event>, w2: World, es2: seq<Event>)
    requires Start(w1) && AllowedRun(w1, es1) && HonestRun(s, w1, es1)
    requires Start(w2) && AllowedRun(w2, es2) && HonestRun(s, w2, es2)
    requires var v1, v2 := Run(w1, es1), Run(w2, es2);
             && Synchronized(v1.c.state) && Synchronized(v2.c.state) && !v1.overflow && !v2.overflow
             && v1.got == v2.got && v1.finSeen == v2.finSeen
    ensures var c1, c2 := Run(w1, es1).c, Run(w2, es2).c;
            && c1.hist.appended[c1.hist.base..] == c2.hist.appended[c2.hist.base..]
            && c1.hist.fins == c2.hist.fins
  {
    RunKeepsStream(s, w1, es1);
    RunKeepsStream(s, w2, es2);
    var v1, v2 := Run(w1, es1), Run(w2, es2);
    SameDelivery(s, v1, v2);
    SameDelivery(s, v2, v1);
  }

  lemma SameDelivery(s: seq<U8>, v1: World, v2: World)
    requires StreamInv(s, v1) && StreamInv(s, v2)
    requires Synchronized(v1.c.state) && Synchronized(v2.c.state) && !v1.overflow && !v2.overflow
    requires v1.got == v2.got && v1.finSeen == v2.finSeen
    ensures Received(v1.c) <= Received(v2.c) && v1.c.hist.fins <= v2.c.hist.fins
  {
    if v2.c.hist.fins == 0 {
      assert forall x :: 0 <= x < Received(v1.c) ==> Covered(v1.c, x);
      LeastMissing(v2, Received(v1.c));
    }
  }

  /**
   Against an honest peer a connection that has returned to CLOSED is clean, so that build_syn
   begins a run of a new incarnation to which all of the above applies again.
   */
  lemma ClosedRestarts(s: seq<U8>, w: World, es: seq<Event>, window: U16)
    requires Start(w) && AllowedRun(w, es) && HonestRun(s, w, es)
    requires Run(w, es).c.state == Closed && !Run(w, es).overflow
    ensures var c := Run(w, es).c;
            BuildSyn(c, window).Some? && Start(World(BuildSyn(c, window).value.0, c.hist.appended, {}, false, false))
  {
    RunKeepsStream(s, w, es);
    SynKeepsInv(Run(w, es).c, window);
  }
}
