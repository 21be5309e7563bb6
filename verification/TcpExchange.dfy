/**
 A whole exchange: handshake, one segment with the stream and the FIN. It shows that the runs of
 TcpStream exist for every stream that fits the ready buffer, and that they can go all the way;
 and, with one payload more, that reassembly past a FIN does break.
 */
module TcpExchange {
  import opened Bytes
  import opened SequenceSpace
  import opened TcpSegment
  import opened TcpModel
  import opened TcpEvents
  import opened TcpInvariants
  import opened TcpReassembly
  import opened TcpRuns
  import opened TcpStream
  import opened TcpPastFin

  const SYN_ACK := NO_FLAGS.(syn := true, ack := true)

  /** The two ends: ports and initial sequence numbers, ours and the peer's. */
  datatype Ends = Ends(localPort: U16, remotePort: U16, iss: U32, irs: U32, window: U16)

  /** The peer's answer to our SYN. */
  function SynAckOf(ends: Ends): Segment {
    SegmentFields(ends.remotePort, ends.localPort, ends.irs, Wrap(ends.iss + 1), 5, SYN_ACK, ends.window, 0, 0, [], [])
  }

  /** The peer's whole stream, and its FIN. */
  function StreamOf(ends: Ends, s: seq<U8>): Segment
    requires |s| <= READY_CAPACITY
  {
    SegmentFields(ends.remotePort, ends.localPort, Wrap(ends.irs + 1), Wrap(ends.iss + 1), 5, FIN_ACK, ends.window,
                  0, 0, [], s)
  }

  function Asked(ends: Ends): seq<Event> {
    [] + [SendSyn(ends.window)]
  }

  function Answered(ends: Ends): seq<Event> {
    Asked(ends) + [Arrive(SynAckOf(ends))]
  }

  function Exchange(ends: Ends, s: seq<U8>): seq<Event>
    requires |s| <= READY_CAPACITY
  {
    Answered(ends) + [Arrive(StreamOf(ends, s))]
  }

  /** As after tcp_connection_init. */
  predicate Fresh(ends: Ends, w: World) {
    && Start(w) && w.c.state == Closed
    && w.c.localPort == ends.localPort && w.c.remotePort == ends.remotePort
    && w.c.sendUna == ends.iss && w.c.sendNext == ends.iss
    && w.c.hist == History(None, 0, 0, [], [])
  }

  lemma OpenedIsFresh(ends: Ends)
    ensures Fresh(ends, Opened(ends.localPort, ends.remotePort, ends.iss))
  {
  }

  /** After our SYN: the handshake is out. */
  predicate Waiting(ends: Ends, w: World) {
    && Inv(w.c) && Quiet(w.c) && w.c.state == SynSent && !w.overflow
    && w.c.localPort == ends.localPort && w.c.remotePort == ends.remotePort
    && w.c.sendUna == ends.iss && w.c.sendNext == Wrap(ends.iss + 1)
    && w.c.hist == History(None, 0, 0, [], [])
  }

  /** After the peer's answer: nothing received yet. */
  predicate Open(ends: Ends, w: World) {
    && Inv(w.c) && Quiet(w.c) && w.c.state == Established && !w.overflow
    && w.c.localPort == ends.localPort && w.c.remotePort == ends.remotePort
    && w.c.recvNext == Wrap(ends.irs + 1) && w.c.ready == []
    && w.c.hist == History(Some(ends.irs), 0, 0, [], [])
  }

  lemma SynGoesOut(ends: Ends, w: World)
    requires Fresh(ends, w)
    ensures Patient(w, SendSyn(ends.window)) && Waiting(ends, Next(w, SendSyn(ends.window)))
  {
  }

  lemma AnswerOpens(ends: Ends, w: World)
    requires Waiting(ends, w)
    ensures Open(ends, Next(w, Arrive(SynAckOf(ends))))
  {
    var seg := SynAckOf(ends);
    ArriveCases(w, seg);
    var c := Next(w, Arrive(seg)).c;
    assert c == CompleteHandshake(Acked(w.c, seg), seg);
    assert c.hist.taken + c.ready == c.hist.appended;
  }

  lemma StreamIsHonest(ends: Ends, w: World, s: seq<U8>)
    requires Open(ends, w) && |s| <= READY_CAPACITY
    ensures var seg := StreamOf(ends, s);
            Processed(w.c, Arrive(seg)) && Close(w.c, seg) && Honest(s, w.c, seg)
  {
    var seg := StreamOf(ends, s);
    assert Distance(seg.seqNumber, w.c.recvNext) == 0;
    assert s[0..|s|] == s;
  }

  lemma FinIsNext(ends: Ends, p: Conn, s: seq<U8>)
    requires AtPosition(p) && |s| <= READY_CAPACITY && p.hist == History(Some(ends.irs), 0, 0, s, [])
    ensures FinSeq(StreamOf(ends, s)) == p.recvNext
  {
    WrapTwice(ends.irs + 1, |s|);
  }

  /** The payload goes in whole, and the FIN is right behind it. */
  lemma StreamIsTaken(ends: Ends, c: Conn, s: seq<U8>)
    requires Inv(c) && Quiet(c) && c.state == Established && 0 < |s| <= READY_CAPACITY
    requires c.recvNext == Wrap(ends.irs + 1) && c.ready == [] && c.hist == History(Some(ends.irs), 0, 0, [], [])
    ensures var (d, r) := Receive(c, StreamOf(ends, s));
            r == 0 && d.state == CloseWait && d.hist == History(Some(ends.irs), 0, 1, s, [])
  {
    var seg := StreamOf(ends, s);
    InOrderAppends(c, seg);
    var p := ProcessPayload(c, seg).0;
    assert [] + s == s;
    assert AtPosition(p) by {
      PayloadKeepsInv(c, seg);
    }
    FinIsNext(ends, p, s);
    FinIsTaken(p, seg);
  }

  lemma FinIsTaken(p: Conn, seg: Segment)
    requires p.state == Established && !p.pendingFin && seg.flags.fin && FinSeq(seg) == p.recvNext
    ensures var d := AfterPayload(p, seg);
            d.state == CloseWait && d.hist == p.hist.(fins := p.hist.fins + 1)
  {
  }

  lemma StreamArrives(ends: Ends, w: World, s: seq<U8>)
    requires Open(ends, w) && 0 < |s| <= READY_CAPACITY
    ensures Complete(ends, s, Next(w, Arrive(StreamOf(ends, s))))
  {
    var seg := StreamOf(ends, s);
    var a := Acked(w.c, seg);
    AckKeepsReceive(w.c, seg);
    ArriveCases(w, seg);
    assert a.ready == w.c.ready;
    StreamIsTaken(ends, a, s);
    ReceiveKeepsSend(a, seg);
    AllReady(s, Next(w, Arrive(seg)).c);
  }

  lemma AllReady(s: seq<U8>, c: Conn)
    requires AccountInv(c) && c.state != Reset && c.hist.taken == [] && c.hist.appended == s
    ensures c.ready == s
  {
    assert c.hist.taken + c.ready == c.ready;
  }

  /** A run continued by one call. */
  lemma OneMore(s: seq<U8>, w: World, es: seq<Event>, e: Event)
    requires Inv(w.c) && CloseRun(w, es) && HonestRun(s, w, es) && Patient(Run(w, es), e)
    requires Processed(Run(w, es).c, e) ==> Close(Run(w, es).c, e.seg) && Honest(s, Run(w, es).c, e.seg)
    ensures Run(w, es + [e]) == Next(Run(w, es), e)
    ensures CloseRun(w, es + [e]) && HonestRun(s, w, es + [e])
  {
    CloseMore(w, es, e);
    HonestMore(s, w, es, e);
  }

  lemma HonestMore(s: seq<U8>, w: World, es: seq<Event>, e: Event)
    requires Inv(w.c) && HonestRun(s, w, es) && (Processed(Run(w, es).c, e) ==> Honest(s, Run(w, es).c, e.seg))
    ensures HonestRun(s, w, es + [e])
  {
    assert (es + [e])[..|es|] == es;
  }

  lemma CloseMore(w: World, es: seq<Event>, e: Event)
    requires Inv(w.c) && CloseRun(w, es) && Patient(Run(w, es), e)
    requires Processed(Run(w, es).c, e) ==> Close(Run(w, es).c, e.seg)
    ensures Run(w, es + [e]) == Next(Run(w, es), e) && CloseRun(w, es + [e])
  {
    assert (es + [e])[..|es|] == es;
  }

  lemma SynRun(ends: Ends, s: seq<U8>, w: World)
    requires Fresh(ends, w)
    ensures CloseRun(w, Asked(ends)) && HonestRun(s, w, Asked(ends)) && Waiting(ends, Run(w, Asked(ends)))
  {
    SynGoesOut(ends, w);
    OneMore(s, w, [], SendSyn(ends.window));
  }

  lemma AnswerStep(ends: Ends, s: seq<U8>, w: World, es: seq<Event>)
    requires Inv(w.c) && CloseRun(w, es) && HonestRun(s, w, es) && Waiting(ends, Run(w, es))
    ensures var all := es + [Arrive(SynAckOf(ends))];
            CloseRun(w, all) && HonestRun(s, w, all) && Open(ends, Run(w, all))
  {
    AnswerOpens(ends, Run(w, es));
    OneMore(s, w, es, Arrive(SynAckOf(ends)));
  }

  /** The whole stream is ready, and the FIN taken. */
  predicate Complete(ends: Ends, s: seq<U8>, w: World) {
    && w.c.state == CloseWait && w.c.ready == s && !w.overflow
    && w.c.localPort == ends.localPort && w.c.remotePort == ends.remotePort
    && w.c.hist == History(Some(ends.irs), 0, 1, s, [])
  }

  lemma StreamStep(ends: Ends, s: seq<U8>, w: World, es: seq<Event>)
    requires 0 < |s| <= READY_CAPACITY
    requires Inv(w.c) && CloseRun(w, es) && HonestRun(s, w, es) && Open(ends, Run(w, es))
    ensures var all := es + [Arrive(StreamOf(ends, s))];
            CloseRun(w, all) && HonestRun(s, w, all) && Complete(ends, s, Run(w, all))
  {
    var v := Run(w, es);
    StreamIsHonest(ends, v, s);
    StreamArrives(ends, v, s);
    OneMore(s, w, es, Arrive(StreamOf(ends, s)));
  }

  /**
   For every stream that fits the ready buffer and all ports and sequence numbers, the exchange is
   an allowed, honest run of a connection just initialized; it ends with the whole stream ready,
   the FIN taken and no -2.
   */
  lemma WholeStreamArrives(ends: Ends, s: seq<U8>)
    requires 0 < |s| <= READY_CAPACITY
    ensures var w := Opened(ends.localPort, ends.remotePort, ends.iss);
            && CloseRun(w, Exchange(ends, s)) && AllowedRun(w, Exchange(ends, s)) && HonestRun(s, w, Exchange(ends, s))
            && Complete(ends, s, Run(w, Exchange(ends, s)))
  {
    var w := Opened(ends.localPort, ends.remotePort, ends.iss);
    OpenedIsFresh(ends);
    SynRun(ends, s, w);
    AnswerStep(ends, s, w, Asked(ends));
    StreamStep(ends, s, w, Answered(ends));
    CloseIsAllowed(w, Exchange(ends, s));
  }

  // ----------------------------------------------------------------- past the FIN

  /** A payload right behind the FIN. */
  function LateOf(ends: Ends, s: seq<U8>, t: seq<U8>): Segment
    requires |t| <= READY_CAPACITY
  {
    SegmentFields(ends.remotePort, ends.localPort, Wrap(ends.irs + 1 + |s| + 1), Wrap(ends.iss + 1), 5, PSH_ACK,
                  ends.window, 0, 0, [], t)
  }

  /** The exchange, our own FIN or not, and the late payload. */
  function ClosingExchange(ends: Ends, s: seq<U8>, closing: bool): seq<Event>
    requires |s| <= READY_CAPACITY
  {
    if closing then Exchange(ends, s) + [SendFin(ends.window)] else Exchange(ends, s)
  }

  function LateExchange(ends: Ends, s: seq<U8>, closing: bool, t: seq<U8>): seq<Event>
    requires |s| <= READY_CAPACITY && |t| <= READY_CAPACITY
  {
    ClosingExchange(ends, s, closing) + [Arrive(LateOf(ends, s, t))]
  }

  /** The stream and its FIN are in, and nothing is buffered. */
  predicate Done(ends: Ends, s: seq<U8>, w: World) {
    && Inv(w.c) && Quiet(w.c) && (w.c.state == CloseWait || w.c.state == LastAck) && !w.overflow
    && w.c.localPort == ends.localPort && w.c.remotePort == ends.remotePort && w.c.ready == s
    && w.c.hist == History(Some(ends.irs), 0, 1, s, [])
  }

  lemma FinGoesOut(ends: Ends, s: seq<U8>, w: World)
    requires Done(ends, s, w) && w.c.state == CloseWait
    ensures Done(ends, s, Next(w, SendFin(ends.window))) && Next(w, SendFin(ends.window)).c.state == LastAck
  {
  }

  lemma ExchangeIsDone(ends: Ends, s: seq<U8>)
    requires 0 < |s| <= READY_CAPACITY
    ensures var w := Opened(ends.localPort, ends.remotePort, ends.iss);
            && CloseRun(w, Exchange(ends, s)) && HonestRun(s, w, Exchange(ends, s))
            && Done(ends, s, Run(w, Exchange(ends, s))) && Run(w, Exchange(ends, s)).c.state == CloseWait
  {
    var w := Opened(ends.localPort, ends.remotePort, ends.iss);
    WholeStreamArrives(ends, s);
    RunKeepsStream(s, w, Exchange(ends, s));
  }

  lemma ClosingIsDone(ends: Ends, s: seq<U8>, closing: bool)
    requires 0 < |s| <= READY_CAPACITY
    ensures var w, es := Opened(ends.localPort, ends.remotePort, ends.iss), ClosingExchange(ends, s, closing);
            && CloseRun(w, es) && HonestRun(s, w, es) && Done(ends, s, Run(w, es))
            && Run(w, es).c.state == if closing then LastAck else CloseWait
  {
    var w := Opened(ends.localPort, ends.remotePort, ends.iss);
    ExchangeIsDone(ends, s);
    if closing {
      FinGoesOut(ends, s, Run(w, Exchange(ends, s)));
      OneMore(s, w, Exchange(ends, s), SendFin(ends.window));
    }
  }

  lemma ClosingRefines(ends: Ends, s: seq<U8>, closing: bool)
    requires 0 < |s| <= READY_CAPACITY
    ensures Refines(Run(Opened(ends.localPort, ends.remotePort, ends.iss), ClosingExchange(ends, s, closing)))
  {
    var w, es := Opened(ends.localPort, ends.remotePort, ends.iss), ClosingExchange(ends, s, closing);
    ClosingIsDone(ends, s, closing);
    CloseIsAllowed(w, es);
    HonestReassembly(s, w, es);
  }

  /** The late payload is appended, and from then on the refinement fails. */
  lemma LateIsTaken(ends: Ends, s: seq<U8>, t: seq<U8>, w: World)
    requires Done(ends, s, w) && 0 < |t| && |s| + |t| <= READY_CAPACITY
    ensures var seg := LateOf(ends, s, t);
            var v := Next(w, Arrive(seg));
            && Close(w.c, seg) && Processed(w.c, Arrive(seg)) && !v.overflow
            && v.c.hist == History(Some(ends.irs), 0, 1, s + t, []) && v.c.state != Reset && !Refines(v)
  {
    var seg := LateOf(ends, s, t);
    assert seg.seqNumber == w.c.recvNext;
    assert Distance(seg.seqNumber, w.c.recvNext) == 0;
    PayloadAfterFinIsTaken(w, seg);
  }

  /**
   The refinement does fail, from tcp_connection_init on, in CLOSE_WAIT as in LAST_ACK: after the
   exchange one payload right behind the FIN is delivered as if it continued the stream.
   */
  lemma LatePayloadBreaks(ends: Ends, s: seq<U8>, closing: bool, t: seq<U8>)
    requires 0 < |s| && 0 < |t| && |s| + |t| <= READY_CAPACITY
    ensures var w, es := Opened(ends.localPort, ends.remotePort, ends.iss), LateExchange(ends, s, closing, t);
            var before, v := Run(w, ClosingExchange(ends, s, closing)), Run(w, es);
            && CloseRun(w, es) && !v.overflow && v.c.state != Reset
            && before.c.state == (if closing then LastAck else CloseWait)
            && v.c.hist.appended == s + t && Refines(before) && !Refines(v) && !KeptRun(w, es)
  {
    var w := Opened(ends.localPort, ends.remotePort, ends.iss);
    ClosingIsDone(ends, s, closing);
    ClosingRefines(ends, s, closing);
    LateStep(ends, s, t, w, ClosingExchange(ends, s, closing));
    RefinementExactly(w, LateExchange(ends, s, closing, t));
  }

  lemma LateStep(ends: Ends, s: seq<U8>, t: seq<U8>, w: World, es: seq<Event>)
    requires Inv(w.c) && CloseRun(w, es) && Done(ends, s, Run(w, es)) && 0 < |t| && |s| + |t| <= READY_CAPACITY
    ensures var all := es + [Arrive(LateOf(ends, s, t))];
            var v := Run(w, all);
            && CloseRun(w, all) && !v.overflow
            && v.c.hist == History(Some(ends.irs), 0, 1, s + t, []) && v.c.state != Reset && !Refines(v)
  {
    LateIsTaken(ends, s, t, Run(w, es));
    CloseMore(w, es, Arrive(LateOf(ends, s, t)));
  }
}
