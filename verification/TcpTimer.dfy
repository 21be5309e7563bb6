/** Exponential backoff over whole runs. */
module TcpTimer {
  import opened Bytes
  import opened SequenceSpace
  import opened TcpSegment
  import opened TcpModel
  import opened TcpEvents
  import opened TcpInvariants
  import opened TcpRuns
  import opened TcpStates
  import opened TcpArrival
  import opened TcpSending

  /** The timeout that follows the `j`-th retransmission. */
  function Timeout(j: nat): nat {
    if j == 0 then 1000 else if j == 1 then 2000 else if j == 2 then 4000 else if j == 3 then 8000 else 16000
  }

  /** When retransmission `j` is due, counted from the send; after the last comes giving up. */
  function Due(j: nat): nat {
    if j == 0 then 0 else Due(j - 1) + Timeout(j - 1)
  }

  /** How late ticks of at most `longest` can be for `j` timeouts. */
  function Slack(j: nat, longest: U32): nat
    requires longest >= 1
  {
    if j == 0 then 0 else Slack(j - 1, longest) + (longest - 1)
  }

  /** The peer stays silent: no acknowledgment is accepted, no reset arrives, and nothing new is sent. */
  predicate Silent(c: Conn, e: Event) {
    match e
    case Arrive(seg) => !Addressed(c, seg) || (!seg.flags.rst && !AckAccepted(c, seg))
    case SendSyn(_) => false
    case SendData(_, _) => false
    case SendFin(_) => false
    case _ => true
  }

  /** The segments that ticks of a run sent again. */
  function SentAgain(w: World, es: seq<Event>): seq<Segment>
    requires Inv(w.c)
  {
    if es == [] then []
    else
      var c, e := Run(w, es[..|es| - 1]).c, es[|es| - 1];
      SentAgain(w, es[..|es| - 1]) + if e.Elapse? then Emitted(c, e) else []
  }

  /** The time ticked before the connection gave up. */
  function Clock(w: World, es: seq<Event>): nat
    requires Inv(w.c)
  {
    if es == [] then 0
    else
      var c, e := Run(w, es[..|es| - 1]).c, es[|es| - 1];
      Clock(w, es[..|es| - 1]) + if e.Elapse? && c.state != Reset then e.ms else 0
  }

  predicate SilentRun(w: World, es: seq<Event>, longest: U32)
    requires Inv(w.c)
  {
    es == [] ||
    (var e := es[|es| - 1];
     && SilentRun(w, es[..|es| - 1], longest)
     && Silent(Run(w, es[..|es| - 1]).c, e)
     && (e.Elapse? ==> e.ms <= longest))
  }

  /** A segment has just been sent with the timer at its default. */
  predicate FreshSend(c: Conn) {
    c.hasRetransmit && c.rto == DEFAULT_RTO && c.elapsed == 0 && c.retries == 0
  }

  /** Calls other than a tick leave the timer running as it was. */
  lemma SilentKeepsTimer(w: World, e: Event)
    requires Inv(w.c) && w.c.hasRetransmit && Silent(w.c, e) && !e.Elapse?
    ensures var c, d := w.c, Next(w, e).c;
            && d.state != Reset && d.hasRetransmit && d.last == c.last
            && d.rto == c.rto && d.elapsed == c.elapsed && d.retries == c.retries
  {
    if e.Arrive? && Addressed(w.c, e.seg) {
      var a := Acked(w.c, e.seg);
      AckKeepsReceive(w.c, e.seg);
      ArriveCases(w, e.seg);
      if Receiving(w.c.state) {
        ReceiveKeepsSend(a, e.seg);
        ReceiveStates(a, e.seg);
      } else if e.seg.flags.ack && e.seg.ackNumber == w.c.sendNext {
        HandshakeAcksAll(w.c, e.seg);
      }
    }
  }

  /**
   Where the schedule of a connection `d` stands that began as `c`: the segments sent again are
   copies, and the clock is within their number of overshoots.
   */
  predicate OnSchedule(c: Conn, d: Conn, again: seq<Segment>, clock: nat, longest: U32)
    requires longest >= 1
  {
    var j := |again|;
    && j <= RETRANSMIT_LIMIT == d.retryLimit
    && (forall i :: 0 <= i < j ==> again[i] == c.last)
    && (d.state != Reset ==>
          && d.hasRetransmit && d.last == c.last && d.retries == j && d.rto == Timeout(j) > d.elapsed
          && Due(j) + d.elapsed <= clock <= Due(j) + d.elapsed + Slack(j, longest))
    && (d.state == Reset ==>
          && j == RETRANSMIT_LIMIT && !d.hasRetransmit
          && Due(j + 1) <= clock <= Due(j + 1) + Slack(j + 1, longest))
  }

  /** A tick short of the timeout only moves the clock; one that reaches it sends again or gives up. */
  lemma TickOnSchedule(c: Conn, d: Conn, again: seq<Segment>, clock: nat, ms: U32, longest: U32)
    requires 1 <= longest && OnSchedule(c, d, again, clock, longest) && ms <= longest && d.state != Reset
    ensures OnSchedule(c, Tick(d, ms).0, again + Emitted(d, Elapse(ms)), clock + ms, longest)
  {
    var j := |again|;
    assert Due(j + 1) == Due(j) + Timeout(j) && Slack(j + 1, longest) == Slack(j, longest) + (longest - 1);
    if SaturatingAdd(d.elapsed, ms) >= d.rto {
      TimeoutFires(d, ms, j);
    }
  }

  /** A tick that reaches the timeout of retransmission `j`. */
  lemma TimeoutFires(d: Conn, ms: U32, j: nat)
    requires d.hasRetransmit && d.retryLimit == RETRANSMIT_LIMIT && SaturatingAdd(d.elapsed, ms) >= d.rto
    requires d.retries == j <= RETRANSMIT_LIMIT && d.rto == Timeout(j)
    ensures var (e, r, again) := Tick(d, ms);
            if j < RETRANSMIT_LIMIT then
              && again == Some(d.last) && e.last == d.last && e.state == d.state
              && e.hasRetransmit && e.retries == j + 1 && e.elapsed == 0 && e.rto == Timeout(j + 1)
            else
              again == None && e.state == Reset && !e.hasRetransmit
  {
  }

  /** A connection that has given up ticks no more. */
  lemma NoTickAfterReset(c: Conn, ms: U32)
    requires Inv(c) && c.state == Reset
    ensures Tick(c, ms).0 == c && Emitted(c, Elapse(ms)) == []
  {
  }

  /** No other call of a silent run touches what the schedule looks at. */
  lemma SilentOnSchedule(c: Conn, v: World, e: Event, again: seq<Segment>, clock: nat, longest: U32)
    requires Inv(v.c) && 1 <= longest && OnSchedule(c, v.c, again, clock, longest)
    requires Silent(v.c, e) && !e.Elapse?
    ensures OnSchedule(c, Next(v, e).c, again, clock, longest)
  {
    if v.c.state != Reset {
      SilentKeepsTimer(v, e);
    } else {
      StepFollowsEdges(v, e);
    }
  }

  lemma StepOnSchedule(c: Conn, v: World, e: Event, again: seq<Segment>, clock: nat, longest: U32)
    requires Inv(v.c) && 1 <= longest && OnSchedule(c, v.c, again, clock, longest)
    requires Silent(v.c, e) && (e.Elapse? ==> e.ms <= longest)
    ensures OnSchedule(c, Next(v, e).c,
                       again + (if e.Elapse? then Emitted(v.c, e) else []),
                       clock + (if e.Elapse? && v.c.state != Reset then e.ms else 0), longest)
  {
    assert again + [] == again;
    if !e.Elapse? {
      SilentOnSchedule(c, v, e, again, clock, longest);
    } else if v.c.state == Reset {
      NoTickAfterReset(v.c, e.ms);
    } else {
      TickOnSchedule(c, v.c, again, clock, e.ms, longest);
    }
  }

  lemma {:induction false} RunOnSchedule(w: World, es: seq<Event>, longest: U32)
    requires Inv(w.c) && FreshSend(w.c) && 1 <= longest && SilentRun(w, es, longest)
    ensures OnSchedule(w.c, Run(w, es).c, SentAgain(w, es), Clock(w, es), longest)
  {
    if es != [] {
      var rest, e := es[..|es| - 1], es[|es| - 1];
      var v, again, clock := Run(w, rest), SentAgain(w, rest), Clock(w, rest);
      RunOnSchedule(w, rest, longest);
      StepOnSchedule(w.c, v, e, again, clock, longest);
    }
  }

  /**
   Backoff bound: with a silent peer exactly five copies of the segment precede RESET, which comes
   no earlier than 47000 ms after the send and, with ticks of at most `longest`, overshoots each of
   the six timeouts by less than that.
   */
  lemma BackoffBound(w: World, es: seq<Event>, longest: U32)
    requires Inv(w.c) && FreshSend(w.c) && 1 <= longest && SilentRun(w, es, longest)
    ensures var d, again, clock := Run(w, es).c, SentAgain(w, es), Clock(w, es);
            && |again| <= 5 && (forall i :: 0 <= i < |again| ==> again[i] == w.c.last)
            && (d.state == Reset ==> |again| == 5 && 47000 <= clock <= 47000 + 6 * (longest - 1))
            && (d.state != Reset ==> clock < 47000 + 5 * (longest - 1))
  {
    RunOnSchedule(w, es, longest);
    DueTable(|SentAgain(w, es)|);
    Overshoot(|SentAgain(w, es)|, longest);
  }

  lemma DueTable(j: nat)
    requires j <= RETRANSMIT_LIMIT
    ensures Due(j) + Timeout(j) <= 47000 == Due(6)
  {
    assert Due(2) == 3000 && Due(4) == 15000 && Due(6) == 47000;
  }

  lemma Overshoot(j: nat, longest: U32)
    requires j <= RETRANSMIT_LIMIT && 1 <= longest
    ensures Slack(j, longest) <= 5 * (longest - 1) && Slack(6, longest) == 6 * (longest - 1)
  {
    assert Slack(1, longest) == longest - 1;
    assert Slack(2, longest) == 2 * (longest - 1);
    assert Slack(3, longest) == 3 * (longest - 1);
    assert Slack(4, longest) == 4 * (longest - 1);
    assert Slack(5, longest) == 5 * (longest - 1);
  }

  // ------------------------------------------------------------------------- one tick

  /** A segment is held and its timeout is reached. */
  predicate Expires(c: Conn, ms: U32) {
    c.hasRetransmit && c.elapsed + ms >= c.rto
  }

  /**
   A tick returns 1 with the segment held while fewer than five copies went out, doubling the timeout
   up to 16000; -1 and RESET after the fifth; 0 otherwise, with the clock moved while something is held.
   */
  lemma TickExactly(c: Conn, ms: U32)
    requires Inv(c)
    ensures var (d, r, again) := Tick(c, ms);
            if !Expires(c, ms) then
              r == 0 && again == None && d == (if c.hasRetransmit then c.(elapsed := c.elapsed + ms) else c)
            else if c.retries < 5 then
              && r == 1 && again == Some(c.last)
              && d == c.(retries := c.retries + 1, elapsed := 0,
                         rto := if c.rto * 2 < 16000 then c.rto * 2 else 16000)
            else
              && r == -1 && again == None && d.state == Reset && !d.hasRetransmit
              && d.sendUna == c.sendUna && d.sendNext == c.sendNext && d.ready == c.ready && d.hist == c.hist
  {
  }

  // ----------------------------------------------------------- sends begin at the default

  /** With nothing outstanding the timer is at rest. */
  predicate Idle(c: Conn) {
    c.state != Reset && c.sendUna == c.sendNext ==> c.rto == 1000 && c.retries == 0 && c.elapsed == 0
  }

  lemma ArriveKeepsIdle(c: Conn, seg: Segment)
    requires Inv(c) && Idle(c)
    ensures Idle(OnSegment(c, seg).0)
  {
    if !FromPeer(c, seg) {
      ForeignIgnored(c, seg);
    } else if seg.flags.rst {
      RstResets(c, seg);
    } else if c.state == Reset {
      OthersStay(c, seg);
    } else {
      AckMoves(c, seg);
      if c.state == SynSent {
        HandshakeExactly(c, seg);
      } else {
        NoHandshake(c, seg);
      }
    }
  }

  lemma NoHandshake(c: Conn, seg: Segment)
    requires Inv(c) && c.state != SynSent
    ensures OnSegment(c, seg).1 != 1
  {
    ArrivalFollowsEdges(c, seg);
  }

  lemma StepKeepsIdle(c: Conn, e: Event)
    requires Inv(c) && Idle(c)
    ensures Idle(Step(c, e).0)
  {
    match e
    case Arrive(seg) => ArriveKeepsIdle(c, seg);
    case Elapse(ms) => TickExactly(c, ms);
    case Take(_) =>
    case _ =>
      SegmentsExactly(c, e);
      SendMoves(c, e);
      if Willing(c, e) && !e.SendAck? {
        SendOccupies(c, e);
      }
  }

  /** Whatever is sent is outstanding. */
  lemma SendOccupies(c: Conn, e: Event)
    requires Inv(c) && Builds(e) && Willing(c, e) && !e.SendAck?
    ensures Step(c, e).0.sendUna != Step(c, e).0.sendNext
  {
  }

  /** In every reachable state outside RESET, nothing outstanding means a timer at its default. */
  lemma {:induction false} IdleInRuns(w: World, es: seq<Event>)
    requires Inv(w.c) && Idle(w.c)
    ensures Idle(Run(w, es).c)
  {
    if es != [] {
      IdleInRuns(w, es[..|es| - 1]);
      StepKeepsIdle(Run(w, es[..|es| - 1]).c, es[|es| - 1]);
    }
  }

  /** So whatever is sent with nothing outstanding starts the timer afresh. */
  lemma SendsFresh(c: Conn, e: Event)
    requires Inv(c) && Idle(c) && Builds(e) && Willing(c, e) && !e.SendAck? && c.sendUna == c.sendNext
    ensures FreshSend(Step(c, e).0) && Step(c, e).0.last == Emitted(c, e)[0]
  {
    SegmentsExactly(c, e);
    SendMoves(c, e);
  }

  /**
   And the backoff bound holds of every SYN, data or FIN that a run sends with nothing outstanding:
   `es` leads to the send `e`, and the peer is silent during `quiet`.
   */
  lemma BackoffInRuns(w: World, es: seq<Event>, e: Event, quiet: seq<Event>, longest: U32)
    requires Inv(w.c) && Idle(w.c) && 1 <= longest
    requires var c := Run(w, es).c; Builds(e) && Willing(c, e) && !e.SendAck? && c.sendUna == c.sendNext
    requires SilentRun(Next(Run(w, es), e), quiet, longest)
    ensures var v := Next(Run(w, es), e);
            var d, again, clock := Run(v, quiet).c, SentAgain(v, quiet), Clock(v, quiet);
            && |again| <= 5 && (forall i :: 0 <= i < |again| ==> [again[i]] == Emitted(Run(w, es).c, e))
            && (d.state == Reset ==> |again| == 5 && 47000 <= clock <= 47000 + 6 * (longest - 1))
            && (d.state != Reset ==> clock < 47000 + 5 * (longest - 1))
  {
    IdleInRuns(w, es);
    SendsFresh(Run(w, es).c, e);
    SegmentsExactly(Run(w, es).c, e);
    BackoffBound(Next(Run(w, es), e), quiet, longest);
  }

  /** Every reachable state, from tcp_connection_init on. */
  lemma IdleFromInit(localPort: U16, remotePort: U16, initialSequence: U32, es: seq<Event>)
    ensures Idle(Run(Opened(localPort, remotePort, initialSequence), es).c)
  {
    IdleInRuns(Opened(localPort, remotePort, initialSequence), es);
  }
}
