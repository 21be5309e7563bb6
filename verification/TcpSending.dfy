/**
 The other direction: everything the connection puts on the wire, first sends and
 retransmissions alike, is a slice of one byte stream with at most a FIN at its end. What this
 code sends once its connection is open is therefore what TcpStream asks of an honest peer.
 (The answer to a SYN is not among it: the code never sends SYN and ACK together.)
 */
module TcpSending {
  import opened Bytes
  import opened SequenceSpace
  import opened TcpSegment
  import opened TcpModel
  import opened TcpEvents
  import opened TcpInvariants
  import opened TcpReassembly
  import opened TcpRuns
  import opened TcpStates
  import opened TcpStream

  // ------------------------------------------------------------ what a run sends

  /** The bytes a call puts in the stream. */
  function Accepted(c: Conn, e: Event): seq<U8> {
    if e.SendData? && BuildData(c, e.payload, e.window).Some? then e.payload else []
  }

  predicate EndsStream(c: Conn, e: Event) {
    e.SendFin? && BuildFin(c, e.window).Some?
  }

  /** Every segment the run handed to the caller to send. */
  function Wire(w: World, es: seq<Event>): seq<Segment>
    requires Inv(w.c)
  {
    if es == [] then []
    else Wire(w, es[..|es| - 1]) + Emitted(Run(w, es[..|es| - 1]).c, es[|es| - 1])
  }

  /** Every payload build_data accepted. */
  function Given(w: World, es: seq<Event>): seq<U8>
    requires Inv(w.c)
  {
    if es == [] then []
    else Given(w, es[..|es| - 1]) + Accepted(Run(w, es[..|es| - 1]).c, es[|es| - 1])
  }

  /** build_fin was accepted. */
  predicate Ended(w: World, es: seq<Event>)
    requires Inv(w.c)
  {
    es != [] && (Ended(w, es[..|es| - 1]) || EndsStream(Run(w, es[..|es| - 1]).c, es[|es| - 1]))
  }

  /** A connection, the number before its stream, and what has been sent. */
  datatype Outbox = Outbox(c: Conn, iss: U32, sent: seq<U8>, fin: bool, wire: seq<Segment>)

  function OutboxOf(w: World, iss: U32, es: seq<Event>): Outbox
    requires Inv(w.c)
  {
    Outbox(Run(w, es).c, iss, Given(w, es), Ended(w, es), Wire(w, es))
  }

  /** What one call adds. */
  function Post(o: Outbox, e: Event): Outbox
    requires Inv(o.c)
  {
    Outbox(Step(o.c, e).0, o.iss, o.sent + Accepted(o.c, e), o.fin || EndsStream(o.c, e), o.wire + Emitted(o.c, e))
  }

  // ------------------------------------------------------------------------ slices

  /** The segment carries the bytes of the stream from offset `p` on, at their sequence numbers. */
  predicate SliceAt(sent: seq<U8>, fin: bool, iss: U32, seg: Segment, p: nat) {
    && p + |seg.payload| <= |sent|
    && seg.seqNumber == Wrap(iss + 1 + p)
    && seg.payload == sent[p..p + |seg.payload|]
    && (seg.flags.fin ==> fin && p + |seg.payload| == |sent|)
  }

  /** Segments without payload and FIN claim nothing about the stream. */
  predicate Claims(seg: Segment) {
    seg.payload != [] || seg.flags.fin
  }

  ghost predicate IsSlice(sent: seq<U8>, fin: bool, iss: U32, seg: Segment) {
    Claims(seg) ==> exists p: nat :: SliceAt(sent, fin, iss, seg, p)
  }

  lemma SliceGrows(sent: seq<U8>, fin: bool, more: seq<U8>, fin': bool, iss: U32, seg: Segment)
    requires IsSlice(sent, fin, iss, seg)
    requires fin ==> more == [] && fin'
    ensures IsSlice(sent + more, fin', iss, seg)
  {
    if Claims(seg) {
      var p: nat :| SliceAt(sent, fin, iss, seg, p);
      assert SliceAt(sent + more, fin', iss, seg, p);
    }
  }

  // ---------------------------------------------------------------------- invariant

  /** Before the SYN. */
  predicate Unopened(c: Conn) {
    c.state == Closed && c.hist.irs.None?
  }

  /** The sequence number after everything sent: SYN, stream, FIN. */
  function SentEnd(o: Outbox): U32 {
    Wrap(o.iss + 1 + |o.sent| + (if o.fin then 1 else 0))
  }

  predicate Phase(o: Outbox) {
    && (Unopened(o.c) ==> o.c.sendNext == o.iss)
    && (Unopened(o.c) || o.c.state == SynSent ==> o.sent == [] && !o.fin)
    && (!Unopened(o.c) && o.c.state != Reset ==> o.c.sendNext == SentEnd(o))
    && (o.c.state == Established || o.c.state == CloseWait ==> !o.fin)
  }

  ghost predicate Slices(o: Outbox) {
    && (o.c.hasRetransmit ==> IsSlice(o.sent, o.fin, o.iss, o.c.last))
    && (forall i :: 0 <= i < |o.wire| ==> IsSlice(o.sent, o.fin, o.iss, o.wire[i]))
  }

  ghost predicate SendStream(o: Outbox) {
    Inv(o.c) && Phase(o) && Slices(o)
  }

  /** The stream grows; what was a slice of it still is. */
  lemma OldSlices(o: Outbox, o': Outbox, more: seq<U8>)
    requires Slices(o) && o'.iss == o.iss && o'.sent == o.sent + more
    requires o.fin ==> more == [] && o'.fin
    ensures forall i :: 0 <= i < |o.wire| ==> IsSlice(o'.sent, o'.fin, o'.iss, o.wire[i])
    ensures o.c.hasRetransmit ==> IsSlice(o'.sent, o'.fin, o'.iss, o.c.last)
  {
    forall i | 0 <= i < |o.wire|
      ensures IsSlice(o'.sent, o'.fin, o'.iss, o.wire[i])
    {
      SliceGrows(o.sent, o.fin, more, o'.fin, o.iss, o.wire[i]);
    }
    if o.c.hasRetransmit {
      SliceGrows(o.sent, o.fin, more, o'.fin, o.iss, o.c.last);
    }
  }

  /** A new segment is the slice from the old end of the stream on. */
  lemma NewSlice(o: Outbox, o': Outbox, seg: Segment)
    requires Slices(o) && o'.iss == o.iss && o'.sent == o.sent + seg.payload && !o.fin
    requires seg.flags.fin <==> o'.fin
    requires Claims(seg) ==> seg.seqNumber == SentEnd(o)
    requires o'.wire == o.wire + [seg] && o'.c.last == seg
    ensures Slices(o')
  {
    OldSlices(o, o', seg.payload);
    if Claims(seg) {
      assert SliceAt(o'.sent, o'.fin, o'.iss, seg, |o.sent|);
    }
    assert IsSlice(o'.sent, o'.fin, o'.iss, seg);
  }

  /** The outbox after a send that was accepted. */
  function Sending(o: Outbox, r: (Conn, Segment)): Outbox {
    o.(c := r.0, sent := o.sent + r.1.payload, fin := o.fin || r.1.flags.fin, wire := o.wire + [r.1])
  }

  lemma SynSends(o: Outbox, window: U16)
    requires Phase(o) && Slices(o) && Unopened(o.c)
    ensures var o' := Sending(o, BuildSyn(o.c, window).value); Phase(o') && Slices(o')
  {
    NewSlice(o, Sending(o, BuildSyn(o.c, window).value), BuildSyn(o.c, window).value.1);
  }

  lemma DataSends(o: Outbox, payload: seq<U8>, window: U16)
    requires Phase(o) && Slices(o) && BuildData(o.c, payload, window).Some?
    ensures var o' := Sending(o, BuildData(o.c, payload, window).value); Phase(o') && Slices(o')
  {
    WrapTwice(o.iss + 1 + |o.sent|, |payload|);
    NewSlice(o, Sending(o, BuildData(o.c, payload, window).value), BuildData(o.c, payload, window).value.1);
  }

  lemma FinSends(o: Outbox, window: U16)
    requires Phase(o) && Slices(o) && BuildFin(o.c, window).Some?
    ensures var o' := Sending(o, BuildFin(o.c, window).value); Phase(o') && Slices(o')
  {
    WrapTwice(o.iss + 1 + |o.sent|, 1);
    NewSlice(o, Sending(o, BuildFin(o.c, window).value), BuildFin(o.c, window).value.1);
  }

  /** Nothing new is sent: at most the segment held goes out again, and the state moves on. */
  predicate SendsAgain(o: Outbox, o': Outbox) {
    && o'.iss == o.iss && o'.sent == o.sent && o'.fin == o.fin
    && (o'.wire == o.wire || (o.c.hasRetransmit && o'.wire == o.wire + [o.c.last]))
    && SendsNothing(o.c, o'.c)
  }

  predicate SendsNothing(c: Conn, d: Conn) {
    && d.sendNext == c.sendNext && d.last == c.last
    && (d.hasRetransmit ==> c.hasRetransmit)
    && (Unopened(d) <==> Unopened(c) && d.state != Reset)
    && Edge(c.state, d.state)
    && (d.state == SynSent ==> c.state == SynSent)
    && (c.state == Reset ==> d.state == Reset)
  }

  lemma AgainKeepsStream(o: Outbox, o': Outbox)
    requires Phase(o) && Slices(o) && SendsAgain(o, o')
    ensures Phase(o') && Slices(o')
  {
  }

  /** An arriving segment sends nothing, forgets at most the segment held, and opens nothing. */
  lemma ArriveSendsNothing(c: Conn, seg: Segment)
    requires Inv(c)
    ensures SendsNothing(c, OnSegment(c, seg).0)
  {
    ArrivalFollowsEdges(c, seg);
    if Addressed(c, seg) && !seg.flags.rst {
      AckKeepsInv(c, seg);
      if Receiving(c.state) {
        ReceiveSendsNothing(ProcessAck(c, seg).(remoteWindow := seg.window), seg);
      }
    }
  }

  lemma ReceiveSendsNothing(c: Conn, seg: Segment)
    requires Inv(c) && Receiving(c.state)
    ensures SendsNothing(c, Receive(c, seg).0)
  {
    ReceiveKeepsInv(c, seg);
    ReceiveKeepsSend(c, seg);
    ReceiveKeepsPeer(c, seg);
    ReceiveStates(c, seg);
  }

  lemma ReceiveKeepsPeer(c: Conn, seg: Segment)
    requires Inv(c) && c.state != Reset
    ensures Receive(c, seg).0.hist.irs == c.hist.irs
  {
    PayloadKeepsInv(c, seg);
    AfterPayloadShape(ProcessPayload(c, seg).0, seg);
  }

  lemma TickSendsNothing(c: Conn, ms: U32)
    ensures SendsNothing(c, Tick(c, ms).0)
    ensures Tick(c, ms).2.Some? ==> c.hasRetransmit && Tick(c, ms).2.value == c.last
  {
  }

  /** What one call does to the outbox. */
  lemma PostCases(o: Outbox, e: Event)
    requires Inv(o.c)
    ensures var o' := Post(o, e);
            match e
            case SendSyn(w) => o' == (if BuildSyn(o.c, w).Some? then Sending(o, BuildSyn(o.c, w).value) else o)
            case SendData(p, w) => o' == (if BuildData(o.c, p, w).Some? then Sending(o, BuildData(o.c, p, w).value) else o)
            case SendFin(w) => o' == (if BuildFin(o.c, w).Some? then Sending(o, BuildFin(o.c, w).value) else o)
            case SendAck(w) => o' == o.(wire := o.wire + [BuildAck(o.c, w).value])
            case Arrive(seg) => o' == o.(c := OnSegment(o.c, seg).0)
            case Elapse(ms) => o' == o.(c := Tick(o.c, ms).0, wire := o.wire + Emitted(o.c, e))
            case Take(max) => o' == o.(c := Read(o.c, max).0)
  {
    assert o.wire + [] == o.wire && o.sent + [] == o.sent;
  }

  lemma SendKeepsStream(o: Outbox, e: Event)
    requires SendStream(o) && (e.SendSyn? || e.SendData? || e.SendFin?)
    requires e.SendSyn? && o.c.state == Closed ==> o.c.hist.irs.None?
    ensures SendStream(Post(o, e))
  {
    PostCases(o, e);
    StepKeepsInv(o.c, e);
    match e
    case SendSyn(w) => if BuildSyn(o.c, w).Some? { SynSends(o, w); }
    case SendData(p, w) => if BuildData(o.c, p, w).Some? { DataSends(o, p, w); }
    case SendFin(w) => if BuildFin(o.c, w).Some? { FinSends(o, w); }
  }

  /** Arrivals, ticks and reads send nothing new. */
  lemma OthersSendAgain(o: Outbox, e: Event)
    requires Inv(o.c) && (e.Arrive? || e.Elapse? || e.Take?)
    ensures SendsAgain(o, Post(o, e))
  {
    PostCases(o, e);
    match e
    case Arrive(seg) => ArriveSendsNothing(o.c, seg);
    case Elapse(ms) => TickSendsNothing(o.c, ms);
    case Take(max) =>
  }

  /** A segment without payload and FIN makes no difference. */
  lemma ClaimlessKeepsStream(o: Outbox, seg: Segment)
    requires SendStream(o) && !Claims(seg)
    ensures SendStream(o.(wire := o.wire + [seg]))
  {
  }

  lemma AckKeepsStream(o: Outbox, e: Event)
    requires SendStream(o) && e.SendAck?
    ensures SendStream(Post(o, e))
  {
    PostCases(o, e);
    ClaimlessKeepsStream(o, BuildAck(o.c, e.window).value);
  }

  lemma OthersKeepStream(o: Outbox, e: Event)
    requires SendStream(o) && (e.Arrive? || e.Elapse? || e.Take?)
    ensures SendStream(Post(o, e))
  {
    StepKeepsInv(o.c, e);
    OthersSendAgain(o, e);
    AgainKeepsStream(o, Post(o, e));
  }

  lemma PostKeepsStream(o: Outbox, e: Event)
    requires SendStream(o) && (e.SendSyn? && o.c.state == Closed ==> o.c.hist.irs.None?)
    ensures SendStream(Post(o, e))
  {
    if e.SendAck? {
      AckKeepsStream(o, e);
    } else if e.Arrive? || e.Elapse? || e.Take? {
      OthersKeepStream(o, e);
    } else {
      SendKeepsStream(o, e);
    }
  }

  lemma OutboxSteps(w: World, iss: U32, es: seq<Event>)
    requires Inv(w.c) && es != []
    ensures OutboxOf(w, iss, es) == Post(OutboxOf(w, iss, es[..|es| - 1]), es[|es| - 1])
  {
  }

  lemma CallKeepsSlices(w: World, iss: U32, es: seq<Event>)
    requires Inv(w.c) && es != [] && OneLifeRun(w, es) && SendStream(OutboxOf(w, iss, es[..|es| - 1]))
    ensures SendStream(OutboxOf(w, iss, es))
  {
    PostKeepsStream(OutboxOf(w, iss, es[..|es| - 1]), es[|es| - 1]);
    OutboxSteps(w, iss, es);
  }

  /** From any point of a run on. */
  lemma {:induction false} RunKeepsSlices(w: World, iss: U32, es: seq<Event>, k: nat)
    requires Inv(w.c) && OneLifeRun(w, es)
    requires k <= |es| && SendStream(OutboxOf(w, iss, es[..k]))
    ensures SendStream(OutboxOf(w, iss, es))
  {
    if k < |es| {
      assert es[..|es| - 1][..k] == es[..k];
      RunKeepsSlices(w, iss, es[..|es| - 1], k);
      CallKeepsSlices(w, iss, es);
    } else {
      assert es[..k] == es;
    }
  }

  // ----------------------------------------------------------------------- theorems

  /**
   In every run of one incarnation, whatever the peer and the timer do, every segment handed to
   the caller carries a slice of the stream given to build_data, at the sequence numbers counted
   from the SYN; a FIN sits at the end, and `sendNext` counts SYN, stream and FIN.
   */
  lemma SendsOneStream(localPort: U16, remotePort: U16, iss: U32, es: seq<Event>)
    requires OneLifeRun(Opened(localPort, remotePort, iss), es)
    ensures var w := Opened(localPort, remotePort, iss);
            var o := OutboxOf(w, iss, es);
            && (forall i :: 0 <= i < |o.wire| ==> IsSlice(o.sent, o.fin, iss, o.wire[i]))
            && (o.c.state != Reset && !Unopened(o.c) ==> o.c.sendNext == SentEnd(o))
  {
    SentSlices(Opened(localPort, remotePort, iss), iss, es);
  }

  lemma SentSlices(w: World, iss: U32, es: seq<Event>)
    requires Inv(w.c) && Unopened(w.c) && w.c.sendNext == iss && !w.c.hasRetransmit && OneLifeRun(w, es)
    ensures SendStream(OutboxOf(w, iss, es))
  {
    assert es[..0] == [];
    RunKeepsSlices(w, iss, es, 0);
  }

  /**
   A slice sent by this code, arriving within the window at a connection that took its SYN, is
   what TcpStream calls honest.
   */
  lemma SliceIsHonest(s: seq<U8>, fin: bool, iss: U32, d: Conn, seg: Segment, p: nat)
    requires SliceAt(s, fin, iss, seg, p)
    requires d.hist.irs == Some(iss) && AtPosition(d) && -WINDOW <= p - Position(d) <= WINDOW
    ensures InWindow(d, seg) && Honest(s, d, seg)
  {
    OffIsPlace(d, seg.seqNumber, p);
  }

  /** The receiver stands within a window of offset `p`. */
  predicate Near(d: Conn, p: int) {
    -WINDOW <= p - Position(d) <= WINDOW
  }

  /** The segment has a place in the stream near which every receiver that took the SYN finds it honest. */
  ghost predicate HonestSomewhere(s: seq<U8>, fin: bool, iss: U32, seg: Segment) {
    exists p: nat :: SliceAt(s, fin, iss, seg, p) &&
      forall d: Conn :: AtPosition(d) && d.hist.irs == Some(iss) && Near(d, p) ==> InWindow(d, seg) && Honest(s, d, seg)
  }

  /** The two directions meet: whatever a run puts on the wire is honest where it belongs. */
  lemma WireIsHonest(localPort: U16, remotePort: U16, iss: U32, es: seq<Event>, i: nat)
    requires OneLifeRun(Opened(localPort, remotePort, iss), es)
    requires i < |Wire(Opened(localPort, remotePort, iss), es)|
    ensures var o := OutboxOf(Opened(localPort, remotePort, iss), iss, es);
            Claims(o.wire[i]) ==> HonestSomewhere(o.sent, o.fin, iss, o.wire[i])
  {
    var o := OutboxOf(Opened(localPort, remotePort, iss), iss, es);
    SendsOneStream(localPort, remotePort, iss, es);
    SliceSomewhere(o.sent, o.fin, iss, o.wire[i]);
  }

  lemma SliceSomewhere(s: seq<U8>, fin: bool, iss: U32, seg: Segment)
    requires IsSlice(s, fin, iss, seg)
    ensures Claims(seg) ==> HonestSomewhere(s, fin, iss, seg)
  {
    if Claims(seg) {
      var p: nat :| SliceAt(s, fin, iss, seg, p);
      forall d: Conn | AtPosition(d) && d.hist.irs == Some(iss) && Near(d, p)
        ensures InWindow(d, seg) && Honest(s, d, seg)
      {
        SliceIsHonest(s, fin, iss, d, seg, p);
      }
    }
  }

  // -------------------------------------------------------------------- end to end

  /**
   What arrives was on the wire, at a connection that took the sender's SYN. Only a stream longer
   than the window needs more: arrival within a window of its place.
   */
  ghost predicate Carried(o: Outbox, d: Conn, e: Event) {
    Processed(d, e) && Claims(e.seg) ==>
      && e.seg in o.wire && d.hist.irs == Some(o.iss)
      && (|o.sent| < WINDOW || exists p: nat :: SliceAt(o.sent, o.fin, o.iss, e.seg, p) && Near(d, p))
  }

  ghost predicate CarriedRun(o: Outbox, w: World, es: seq<Event>)
    requires Inv(w.c)
  {
    es == [] ||
    (var v, e := Run(w, es[..|es| - 1]), es[|es| - 1];
     CarriedRun(o, w, es[..|es| - 1]) && Patient(v, e) && Carried(o, v.c, e))
  }

  /** The receiver has not gone past the stream and its FIN. */
  predicate Within(s: seq<U8>, d: Conn) {
    AtPosition(d) && 0 <= Position(d) <= |s| + 1
  }

  lemma CarriedIsHonest(o: Outbox, d: Conn, e: Event)
    requires Slices(o) && Within(o.sent, d) && Processed(d, e) && Carried(o, d, e)
    ensures InWindow(d, e.seg) && Honest(o.sent, d, e.seg)
    ensures e.seg.flags.fin ==> o.fin
  {
    if Claims(e.seg) {
      assert IsSlice(o.sent, o.fin, o.iss, e.seg);
      var p: nat :| SliceAt(o.sent, o.fin, o.iss, e.seg, p) && Near(d, p);
      SliceIsHonest(o.sent, o.fin, o.iss, d, e.seg, p);
    }
  }

  lemma {:induction false} CarriedRunIsHonest(o: Outbox, w: World, es: seq<Event>)
    requires Slices(o) && Start(w) && CarriedRun(o, w, es)
    ensures AllowedRun(w, es) && HonestRun(o.sent, w, es)
    ensures Run(w, es).finSeen ==> o.fin
  {
    if es != [] {
      var v, e := Run(w, es[..|es| - 1]), es[|es| - 1];
      CarriedRunIsHonest(o, w, es[..|es| - 1]);
      if Processed(v.c, e) {
        RunKeepsStream(o.sent, w, es[..|es| - 1]);
        CarriedIsHonest(o, v.c, e);
      }
    }
  }

  /**
   End to end: one run sends, another receives, and the network between them loses, repeats,
   delays and reorders as it likes. The receiving application reads, or has ready, a prefix of
   what the sending application gave; it sees the end only when the sender ended and all is in.
   */
  lemma EndToEnd(localPort: U16, remotePort: U16, iss: U32, sends: seq<Event>, w: World, es: seq<Event>)
    requires OneLifeRun(Opened(localPort, remotePort, iss), sends) && Start(w)
    requires CarriedRun(OutboxOf(Opened(localPort, remotePort, iss), iss, sends), w, es)
    ensures var o := OutboxOf(Opened(localPort, remotePort, iss), iss, sends);
            var v := Run(w, es);
            v.c.hist.irs.Some? ==>
              && ReadsPrefix(o.sent, w.before, v.c, Received(v.c))
              && (v.c.hist.fins > 0 ==> Received(v.c) == |o.sent|)
              && (v.c.hist.fins > 0 && !v.overflow && v.c.state != Reset ==> o.fin)
  {
    var o := OutboxOf(Opened(localPort, remotePort, iss), iss, sends);
    SentSlices(Opened(localPort, remotePort, iss), iss, sends);
    CarriedRunIsHonest(o, w, es);
    StreamSafety(o.sent, w, es);
    RunKeepsStream(o.sent, w, es);
  }

  // ------------------------------------------------------------------- never again

  /** The call gives the connection something new to hold: data or a FIN. */
  predicate Renews(c: Conn, e: Event) {
    (e.SendData? && BuildData(c, e.payload, e.window).Some?) || EndsStream(c, e)
  }

  /** A stream that begins at `sendNext`. */
  function NewStream(c: Conn): Outbox {
    Outbox(c, Wrap(c.sendNext - 1), [], false, [])
  }

  lemma RenewedPhase(c: Conn, r: (Conn, Segment))
    requires var (d, seg) := r;
             && Claims(seg) && seg.seqNumber == c.sendNext && d.last == seg && d.hist == c.hist
             && d.sendNext == Wrap(c.sendNext + |seg.payload| + if seg.flags.fin then 1 else 0)
             && (if seg.flags.fin then d.state == FinWait1 || d.state == LastAck else d.state == Established)
    ensures Phase(Sending(NewStream(c), r)) && Slices(Sending(NewStream(c), r))
  {
    var o := Sending(NewStream(c), r);
    assert o.sent == r.1.payload && o.wire == [r.1];
    assert r.1.seqNumber == Wrap(o.iss + 1) && r.0.sendNext == SentEnd(o) by {
      WrapTwice(c.sendNext - 1, 1 + |o.sent| + if o.fin then 1 else 0);
      WrapTwice(c.sendNext - 1, 1);
    }
    assert SliceAt(o.sent, o.fin, o.iss, r.1, 0);
  }

  /** The stream that begins with the call. */
  lemma RenewalStarts(c: Conn, e: Event)
    requires Inv(c) && Renews(c, e)
    ensures SendStream(Post(NewStream(c), e))
  {
    StepKeepsInv(c, e);
    PostCases(NewStream(c), e);
    if e.SendData? {
      RenewedByData(c, e.payload, e.window);
    } else {
      RenewedByFin(c, e.window);
    }
  }

  lemma RenewedByData(c: Conn, payload: seq<U8>, window: U16)
    requires BuildData(c, payload, window).Some?
    ensures var o := Sending(NewStream(c), BuildData(c, payload, window).value); Phase(o) && Slices(o)
  {
    RenewedPhase(c, BuildData(c, payload, window).value);
  }

  lemma RenewedByFin(c: Conn, window: U16)
    requires BuildFin(c, window).Some?
    ensures var o := Sending(NewStream(c), BuildFin(c, window).value); Phase(o) && Slices(o)
  {
    RenewedPhase(c, BuildFin(c, window).value);
  }

  lemma FirstCall(w: World, e: Event)
    requires Inv(w.c) && Renews(w.c, e)
    ensures SendStream(OutboxOf(w, Wrap(w.c.sendNext - 1), [e]))
  {
    OneCall(w, e);
    RenewalStarts(w.c, e);
  }

  lemma OneCall(w: World, e: Event)
    requires Inv(w.c)
    ensures OutboxOf(w, Wrap(w.c.sendNext - 1), [e]) == Post(NewStream(w.c), e)
  {
    assert [e][..0] == [];
    assert OutboxOf(w, Wrap(w.c.sendNext - 1), []) == NewStream(w.c);
    OutboxSteps(w, Wrap(w.c.sendNext - 1), [e]);
  }

  /**
   Older data is never sent again: from an accepted build_data or build_fin on, everything handed
   to the caller, retransmissions included, is a slice of the bytes given from that call on, at
   sequence numbers counted from the `sendNext` of that call.
   */
  lemma OlderNeverAgain(w: World, es: seq<Event>)
    requires Inv(w.c) && OneLifeRun(w, es) && es != [] && Renews(w.c, es[0])
    ensures forall i :: 0 <= i < |Wire(w, es)| ==>
              IsSlice(Given(w, es), Ended(w, es), Wrap(w.c.sendNext - 1), Wire(w, es)[i])
  {
    FirstCall(w, es[0]);
    assert es[..1] == [es[0]];
    RunKeepsSlices(w, Wrap(w.c.sendNext - 1), es, 1);
  }

  /** And the segment a tick sends again was itself handed out at that call or later. */
  lemma ResentIsNew(w: World, es: seq<Event>, ms: U32)
    requires Inv(w.c) && es != [] && Renews(w.c, es[0])
    ensures forall seg :: seg in Emitted(Run(w, es).c, Elapse(ms)) ==> seg in Wire(w, es)
  {
    HeldIsNew(w, es);
    ResentIsWired(OutboxOf(w, 0, es), ms);
  }

  lemma ResentIsWired(o: Outbox, ms: U32)
    requires HoldsWired(o)
    ensures forall seg :: seg in Emitted(o.c, Elapse(ms)) ==> seg in o.wire
  {
    TickSendsNothing(o.c, ms);
  }

  predicate HoldsWired(o: Outbox) {
    o.c.hasRetransmit ==> o.c.last in o.wire
  }

  lemma {:induction false} HeldIsNew(w: World, es: seq<Event>)
    requires Inv(w.c) && es != [] && Renews(w.c, es[0])
    ensures HoldsWired(OutboxOf(w, 0, es))
  {
    if |es| > 1 {
      HeldIsNew(w, es[..|es| - 1]);
    }
    HeldAfter(OutboxOf(w, 0, es[..|es| - 1]), es[|es| - 1]);
    OutboxSteps(w, 0, es);
  }

  lemma HeldAfter(o: Outbox, e: Event)
    requires Inv(o.c) && (HoldsWired(o) || Renews(o.c, e))
    ensures HoldsWired(Post(o, e))
  {
    PostCases(o, e);
    if e.Arrive? || e.Elapse? || e.Take? {
      OthersSendAgain(o, e);
    }
  }

  /** The sequence number is sent and not acknowledged. */
  predicate Outstanding(c: Conn, q: U32) {
    Wrap(q - c.sendUna) < Wrap(c.sendNext - c.sendUna)
  }

  /** The segment held for retransmission has it. */
  predicate HeldAgain(c: Conn, q: U32) {
    c.hasRetransmit && Wrap(q - c.last.seqNumber) < SeqLength(c.last)
  }

  lemma OutstandingIsBehind(c: Conn, q: U32)
    requires Wrap(c.sendNext - c.sendUna) <= MAX_PAYLOAD_LEN && Outstanding(c, q)
    ensures Wrap(q - c.sendNext) >= MODULUS - MAX_PAYLOAD_LEN
  {
    GapBehind(q, c.sendUna, c.sendNext);
  }

  lemma GapBehind(q: U32, una: U32, next: U32)
    requires Wrap(q - una) < Wrap(next - una)
    ensures Wrap(q - next) == MODULUS + Wrap(q - una) - Wrap(next - una)
  {
    var u, g := Wrap(q - una), Wrap(next - una);
    assert Wrap(next + (MODULUS + u - g)) == q by {
      GapIs(q, una, u);
      GapIs(next, una, g);
      WrapTwice(una + g, MODULUS + u - g);
      WrapTwice(MODULUS, una + u);
    }
    GapIs(q, next, MODULUS + u - g);
  }

  /** Nothing outstanding in `c` is held in `d`; so all of it is exactly when there was nothing. */
  ghost predicate DropsOlder(c: Conn, d: Conn) {
    && (forall q: U32 :: Outstanding(c, q) ==> !HeldAgain(d, q))
    && ((forall q: U32 :: Outstanding(c, q) ==> HeldAgain(d, q)) <==> c.sendUna == c.sendNext)
  }

  /**
   What an accepted build_data or build_fin drops: nothing that was outstanding before the call is
   held after it, so all of it is exactly when there was nothing.
   */
  lemma HeldOnlyIfAllAcknowledged(c: Conn, e: Event)
    requires Inv(c) && Renews(c, e)
    ensures DropsOlder(c, Step(c, e).0)
  {
    RenewedHolds(c, e);
    NothingOlderHeld(c, Step(c, e).0);
  }

  lemma RenewedHolds(c: Conn, e: Event)
    requires Inv(c) && Renews(c, e)
    ensures var d := Step(c, e).0; d.last.seqNumber == c.sendNext && SeqLength(d.last) <= MAX_PAYLOAD_LEN
  {
  }

  lemma NothingOlderHeld(c: Conn, d: Conn)
    requires Wrap(c.sendNext - c.sendUna) <= MAX_PAYLOAD_LEN
    requires d.last.seqNumber == c.sendNext && SeqLength(d.last) <= MAX_PAYLOAD_LEN
    ensures DropsOlder(c, d)
  {
    forall q: U32 | Outstanding(c, q)
      ensures !HeldAgain(d, q)
    {
      OutstandingIsBehind(c, q);
    }
    GapIs(c.sendNext, c.sendUna, 0);
    assert c.sendUna != c.sendNext ==> Outstanding(c, c.sendUna);
  }

  // ---------------------------------------------------------------------- the headers

  /** Calls that build a segment of their own; a tick only sends again. */
  predicate Builds(e: Event) {
    e.SendSyn? || e.SendData? || e.SendFin? || e.SendAck?
  }

  /** When a call hands out a segment at all. */
  predicate Willing(c: Conn, e: Event) {
    match e
    case SendSyn(_) => c.state == Closed
    case SendData(p, _) => c.state == Established && 0 < |p| <= 65515
    case SendFin(_) => c.state == Established || c.state == CloseWait
    case SendAck(_) => true
    case _ => false
  }

  /** What the segment carries besides its numbers. */
  predicate Carries(e: Event, seg: Segment)
    requires Builds(e)
  {
    var f := seg.flags;
    && seg.window == e.window && seg.dataOffset == 5 && seg.options == [] && seg.urgent == 0
    && seg.payload == (if e.SendData? then e.payload else [])
    && (f.syn <==> e.SendSyn?) && (f.ack <==> !e.SendSyn?) && (f.fin <==> e.SendFin?) && (f.psh <==> e.SendData?)
    && !f.rst && !f.urg && !f.ece && !f.cwr
  }

  /** From the local to the remote port, at `sendNext`, acknowledging everything received. */
  predicate Headed(c: Conn, e: Event, seg: Segment) {
    && seg.sourcePort == c.localPort && seg.destinationPort == c.remotePort && seg.seqNumber == c.sendNext
    && (e.SendSyn? ==> seg.ackNumber == 0)
    && (!e.SendSyn? && c.hist.irs.Some? ==>
          seg.ackNumber == (c.hist.irs.value + 1 + Received(c) + c.hist.fins) % 0x1_0000_0000)
  }

  /** One segment or none, exactly when the state and the payload allow it, with exactly these fields. */
  lemma SegmentsExactly(c: Conn, e: Event)
    requires Inv(c) && Builds(e)
    ensures |Emitted(c, e)| == if Willing(c, e) then 1 else 0
    ensures forall seg :: seg in Emitted(c, e) ==> Headed(c, e, seg) && Carries(e, seg)
  {
  }

  /** The segment handed out is held, what was outstanding is given up, and the state moves on. */
  predicate Launched(c: Conn, seg: Segment, len: nat, s: State, d: Conn) {
    && d.last == seg && d.hasRetransmit && d.elapsed == 0 && d.rto == c.rto && d.retries == c.retries
    && d.sendUna == c.sendNext && d.sendNext == Wrap(c.sendNext + len) && d.state == s
    && d.recvNext == c.recvNext && d.ready == c.ready && d.slots == c.slots
  }

  /** What a call that hands out a segment does to the connection, and one that does not. */
  lemma SendMoves(c: Conn, e: Event)
    requires Inv(c) && Builds(e)
    ensures var d := Step(c, e).0;
            if !Willing(c, e) || e.SendAck? then d == c
            else
              Launched(c, Emitted(c, e)[0], if e.SendData? then |e.payload| else 1,
                       if e.SendSyn? then SynSent else if e.SendData? then Established
                       else if c.state == Established then FinWait1 else LastAck, d)
  {
    if Willing(c, e) {
      match e
      case SendSyn(w) => SynLaunches(c, w);
      case SendData(p, w) => DataLaunches(c, p, w);
      case SendFin(w) => FinLaunches(c, w);
      case _ =>
    }
  }

  lemma SynLaunches(c: Conn, window: U16)
    requires c.state == Closed
    ensures BuildSyn(c, window).Some? && Launched(c, BuildSyn(c, window).value.1, 1, SynSent, BuildSyn(c, window).value.0)
  {
  }

  lemma DataLaunches(c: Conn, payload: seq<U8>, window: U16)
    requires c.state == Established && 0 < |payload| <= 65515
    ensures BuildData(c, payload, window).Some?
    ensures var (d, seg) := BuildData(c, payload, window).value; Launched(c, seg, |payload|, Established, d)
  {
  }

  lemma FinLaunches(c: Conn, window: U16)
    requires c.state == Established || c.state == CloseWait
    ensures BuildFin(c, window).Some?
    ensures var (d, seg) := BuildFin(c, window).value;
            Launched(c, seg, 1, if c.state == Established then FinWait1 else LastAck, d)
  {
  }

  /** The ports and, in a synchronized state, the acknowledgment of every segment a run builds. */
  lemma HeadersInRuns(w: World, es: seq<Event>, e: Event)
    requires Inv(w.c) && Builds(e)
    ensures var c := Run(w, es).c;
            && c.localPort == w.c.localPort && c.remotePort == w.c.remotePort
            && |Emitted(c, e)| == (if Willing(c, e) then 1 else 0)
            && forall seg :: seg in Emitted(c, e) ==> Headed(c, e, seg) && Carries(e, seg)
  {
    PortsKept(w, es);
    SegmentsExactly(Run(w, es).c, e);
  }

  lemma {:induction false} PortsKept(w: World, es: seq<Event>)
    requires Inv(w.c)
    ensures var c := Run(w, es).c; c.localPort == w.c.localPort && c.remotePort == w.c.remotePort
  {
    if es != [] {
      PortsKept(w, es[..|es| - 1]);
      StepKeepsPorts(Run(w, es[..|es| - 1]).c, es[|es| - 1]);
    }
  }

  lemma StepKeepsPorts(c: Conn, e: Event)
    requires Inv(c)
    ensures var d := Step(c, e).0; d.localPort == c.localPort && d.remotePort == c.remotePort
  {
    if e.Arrive? && Addressed(c, e.seg) && !e.seg.flags.rst && Receiving(c.state) {
      AckKeepsReceive(c, e.seg);
      ReceiveKeepsSend(Acked(c, e.seg), e.seg);
    }
  }

  /** A pure acknowledgment carries the number after everything sent: SYN, stream and FIN. */
  lemma PureAckAtEnd(localPort: U16, remotePort: U16, iss: U32, es: seq<Event>, window: U16)
    requires OneLifeRun(Opened(localPort, remotePort, iss), es)
    ensures AcksAtEnd(OutboxOf(Opened(localPort, remotePort, iss), iss, es), window)
  {
    SentSlices(Opened(localPort, remotePort, iss), iss, es);
    PhaseAcks(OutboxOf(Opened(localPort, remotePort, iss), iss, es), window);
  }

  predicate AcksAtEnd(o: Outbox, window: U16) {
    !Unopened(o.c) && o.c.state != Reset ==>
      forall seg :: seg in Emitted(o.c, SendAck(window)) ==> seg.seqNumber == SentEnd(o)
  }

  lemma PhaseAcks(o: Outbox, window: U16)
    requires Phase(o)
    ensures AcksAtEnd(o, window)
  {
  }

  /** Every segment on the wire, sent again or not, goes from our port to the peer's. */
  predicate Stamped(w: World, o: Outbox) {
    && (o.c.hasRetransmit ==> Between(w.c, o.c.last))
    && (forall i :: 0 <= i < |o.wire| ==> Between(w.c, o.wire[i]))
  }

  predicate Between(c: Conn, seg: Segment) {
    seg.sourcePort == c.localPort && seg.destinationPort == c.remotePort
  }

  lemma PostStamps(w: World, o: Outbox, e: Event)
    requires Inv(o.c) && Stamped(w, o) && o.c.localPort == w.c.localPort && o.c.remotePort == w.c.remotePort
    ensures Stamped(w, Post(o, e))
  {
    PostCases(o, e);
    if Builds(e) {
      SegmentsExactly(o.c, e);
      SendMoves(o.c, e);
    } else {
      OthersSendAgain(o, e);
    }
  }

  lemma {:induction false} WireStamped(w: World, es: seq<Event>)
    requires Inv(w.c) && !w.c.hasRetransmit
    ensures Stamped(w, OutboxOf(w, 0, es))
  {
    if es != [] {
      WireStamped(w, es[..|es| - 1]);
      PortsKept(w, es[..|es| - 1]);
      PostStamps(w, OutboxOf(w, 0, es[..|es| - 1]), es[|es| - 1]);
      OutboxSteps(w, 0, es);
    }
  }
}
