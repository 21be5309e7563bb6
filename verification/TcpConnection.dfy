/**
 src/tcp_connection.c as an object whose operations update its fields in place. Every
 operation is proved to take the connection where the function of TcpModel takes it.
 */
module TcpConnection {
  import opened Bytes
  import opened SequenceSpace
  import opened TcpSegment
  import opened M = TcpModel

  class Connection {
    var state: State
    var localPort: U16
    var remotePort: U16
    var sendUna: U32
    var sendNext: U32
    var recvNext: U32
    var remoteWindow: U16
    var rto: U32
    var elapsed: U32
    var retries: nat
    var retryLimit: nat
    var last: Segment
    var hasRetransmit: bool
    const slots: array<Slot>
    var slotCount: nat
    const ready: array<U8>
    var readyLen: nat
    var pendingFin: bool
    var pendingFinSeq: U32
    ghost var hist: History

    ghost predicate Valid()
      reads this, slots, ready
    {
      && slots.Length == SLOT_COUNT
      && ready.Length == READY_CAPACITY
      && readyLen <= READY_CAPACITY
      && SlotsFit(slots[..])
    }

    ghost function View(): Conn
      requires Valid()
      reads this, slots, ready
    {
      Conn(state, localPort, remotePort, sendUna, sendNext, recvNext, remoteWindow, rto, elapsed,
           retries, retryLimit, last, hasRetransmit, slots[..], slotCount, ready[..readyLen],
           pendingFin, pendingFinSeq, hist)
    }

    constructor (localPort: U16, remotePort: U16, initialSequence: U32)
      ensures Valid() && fresh(slots) && fresh(ready)
      ensures View() == Init(localPort, remotePort, initialSequence)
    {
      state := Closed;
      this.localPort, this.remotePort := localPort, remotePort;
      sendUna, sendNext := initialSequence, initialSequence;
      recvNext, remoteWindow := 0, 0;
      rto, elapsed, retries, retryLimit := DEFAULT_RTO, 0, 0, RETRANSMIT_LIMIT;
      last, hasRetransmit := NO_SEGMENT, false;
      slots := new Slot[SLOT_COUNT](_ => FREE_SLOT);
      slotCount := 0;
      ready := new U8[READY_CAPACITY](_ => 0);
      readyLen := 0;
      pendingFin, pendingFinSeq := false, 0;
      hist := History(None, 0, 0, [], []);
    }

    // -------------------------------------------------------------- reassembly

    method ClearReassembly()
      requires Valid()
      modifies this, slots
      ensures Valid() && View() == M.ClearReassembly(old(View()))
    {
      forall i | 0 <= i < slots.Length {
        slots[i] := FREE_SLOT;
      }
      slotCount, readyLen, pendingFin, pendingFinSeq := 0, 0, false, 0;
      assert slots[..] == seq(SLOT_COUNT, _ => FREE_SLOT);
    }

    method ReadyAppend(data: seq<U8>) returns (r: int)
      requires Valid()
      modifies this, ready
      ensures Valid()
      ensures r == 0 <==> M.ReadyAppend(old(View()), data).Some?
      ensures r == 0 ==> View() == M.ReadyAppend(old(View()), data).value
      ensures r != 0 ==> View() == old(View())
    {
      if |data| == 0 {
        return 0;
      }
      if |data| > READY_CAPACITY - readyLen {
        return -1;
      }
      ghost var before := ready[..readyLen];
      forall i | 0 <= i < |data| {
        ready[readyLen + i] := data[i];
      }
      readyLen := readyLen + |data|;
      hist := hist.(appended := hist.appended + data);
      assert ready[..readyLen] == before + data;
      return 0;
    }

    method FindFreeSlot() returns (i: nat)
      requires Valid()
      ensures i == FreeSlot(slots[..], 0)
    {
      i := 0;
      while i < slots.Length && slots[i].used
        invariant i <= slots.Length
        invariant FreeSlot(slots[..], i) == FreeSlot(slots[..], 0)
      {
        i := i + 1;
      }
    }

    method RangeAlreadyBuffered(start: U32, end: U32) returns (found: bool)
      requires Valid()
      ensures found <==> AlreadyBuffered(slots[..], start, end)
    {
      var i := 0;
      while i < slots.Length
        invariant i <= slots.Length
        invariant forall k :: 0 <= k < i ==> !Contains(slots[..][k], start, end)
      {
        var slot := slots[i];
        if slot.used && SeqGe(start, slot.start) && SeqLe(end, SlotEnd(slot)) {
          assert Contains(slots[..][i], start, end);
          return true;
        }
        i := i + 1;
      }
      return false;
    }

    method BufferFuturePayload(start: U32, payload: seq<U8>) returns (r: int)
      requires Valid()
      modifies this, slots
      ensures Valid()
      ensures r == 0 <==> BufferFuture(old(View()), start, payload).Some?
      ensures r == 0 ==> View() == BufferFuture(old(View()), start, payload).value
      ensures r != 0 ==> View() == old(View())
    {
      if |payload| == 0 || |payload| > SLOT_DATA_LEN {
        return -1;
      }
      var buffered := RangeAlreadyBuffered(start, Wrap(start + |payload|));
      if buffered {
        return 0;
      }
      var i := FindFreeSlot();
      if i == slots.Length {
        return -1;
      }
      ghost var before := slots[..];
      slots[i] := Slot(true, start, payload);
      slotCount := slotCount + 1;
      assert slots[..] == before[i := Slot(true, start, payload)];
      return 0;
    }

    method RemoveReassemblySlot(i: nat)
      requires Valid()
      modifies this, slots
      ensures Valid() && View() == RemoveSlot(old(View()), i)
    {
      if i >= slots.Length || !slots[i].used {
        return;
      }
      ghost var before := slots[..];
      slots[i] := FREE_SLOT;
      if slotCount > 0 {
        slotCount := slotCount - 1;
      }
      assert slots[..] == before[i := FREE_SLOT];
    }

    /** The shared tail of process_payload and promote_reassembly: clip, append, advance. */
    method DeliverFrom(start: U32, payload: seq<U8>) returns (r: int)
      requires Valid() && |payload| <= MAX_PAYLOAD_LEN
      requires Straddles(View(), start, payload)
      modifies this, ready
      ensures Valid()
      ensures r == 0 <==> Deliver(old(View()), start, payload).Some?
      ensures r == 0 ==> View() == Deliver(old(View()), start, payload).value
      ensures r != 0 ==> View() == old(View())
    {
      OverlapFits(start, |payload|, recvNext);
      var overlap := Wrap(recvNext - start);
      var newLen := |payload| - overlap;
      r := ReadyAppend(payload[overlap..]);
      if r == 0 {
        recvNext := Wrap(recvNext + newLen);
      }
    }

    method ConsumePendingFin()
      requires Valid()
      modifies this
      ensures Valid() && View() == M.ConsumePendingFin(old(View()))
    {
      if !pendingFin || pendingFinSeq != recvNext {
        return;
      }
      TakeFin();
      pendingFin := false;
    }

    /** Shared by consume_pending_fin and process_fin: the FIN at `recvNext` is consumed. */
    method TakeFin()
      requires Valid()
      modifies this
      ensures Valid() && View() == M.TakeFin(old(View()))
    {
      recvNext := Wrap(recvNext + 1);
      hist := hist.(fins := hist.fins + 1);
      if state == Established {
        state := CloseWait;
      } else if state == FinWait1 || state == FinWait2 {
        state := TimeWait;
      }
    }

    /** The body of the inner loop: 1 when the slot was dropped or delivered, 0 when it stays, -1 without room. */
    method PromoteSlotAt(i: nat) returns (r: int)
      requires Valid() && i < SLOT_COUNT
      modifies this, slots, ready
      ensures Valid()
      ensures r == 0 <==> !Promotable(old(View()), old(slots[i]))
      ensures r == 1 ==> PromoteSlot(old(View()), i) == Some(View())
      ensures r == -1 ==> PromoteSlot(old(View()), i) == None
      ensures r == 0 || r == -1 ==> View() == old(View())
      ensures -1 <= r <= 1
    {
      var slot := slots[i];
      assert slot == View().slots[i];
      if !slot.used {
        return 0;
      }
      if SeqLe(SlotEnd(slot), recvNext) {
        RemoveReassemblySlot(i);
        return 1;
      }
      if SeqGt(slot.start, recvNext) {
        return 0;
      }
      var delivered := DeliverFrom(slot.start, slot.payload);
      if delivered != 0 {
        return -1;
      }
      RemoveReassemblySlot(i);
      return 1;
    }

    /** One step of a pass, in terms of the pass. */
    method ScanSlotAt(i: nat, ghost progress: bool) returns (r: int)
      requires Valid() && i < SLOT_COUNT
      modifies this, slots, ready
      ensures Valid() && -1 <= r <= 1
      ensures r >= 0 ==> ScanSlots(View(), i + 1, progress || r > 0) == ScanSlots(old(View()), i, progress)
      ensures r < 0 ==> ScanSlots(old(View()), i, progress) == Scan(View(), progress, false)
    {
      r := PromoteSlotAt(i);
    }

    method PromoteReassembly() returns (r: int)
      requires Valid()
      modifies this, slots, ready
      ensures Valid()
      ensures View() == Promote(old(View())).0
      ensures r == (if Promote(old(View())).1 then 0 else -1)
    {
      ghost var entry := View();
      var progress := true;
      while progress
        invariant Valid()
        invariant progress ==> PromoteSlots(View()) == PromoteSlots(entry)
        invariant !progress ==> PromoteSlots(entry) == (View(), true)
        decreases UsedCount(slots[..]), progress
      {
        progress := false;
        ghost var passStart := View();
        ghost var pass := ScanSlots(passStart, 0, false);
        var i := 0;
        while i < slots.Length
          invariant i <= slots.Length
          invariant Valid()
          invariant ScanSlots(View(), i, progress) == pass
        {
          var promoted := ScanSlotAt(i, progress);
          if promoted < 0 {
            return -1;
          }
          if promoted > 0 {
            progress := true;
          }
          i := i + 1;
        }
        PassEnds(passStart, View(), progress);
      }
      ConsumePendingFin();
      return 0;
    }

    // ---------------------------------------------------------- segment arrival

    method ProcessPayload(seg: Segment) returns (r: int)
      requires Valid()
      modifies this, slots, ready
      ensures Valid()
      ensures View() == M.ProcessPayload(old(View()), seg).0
      ensures r == (if M.ProcessPayload(old(View()), seg).1 then 0 else -1)
    {
      if |seg.payload| == 0 {
        return 0;
      }
      var start := seg.seqNumber;
      var end := Wrap(start + |seg.payload|);
      if SeqLe(end, recvNext) {
        return 0;
      }
      if SeqGt(start, recvNext) {
        r := BufferFuturePayload(start, seg.payload);
        if r != 0 {
          r := -1;
        }
        return;
      }
      var delivered := DeliverFrom(start, seg.payload);
      if delivered != 0 {
        return -1;
      }
      r := PromoteReassembly();
    }

    method ProcessFin(seg: Segment)
      requires Valid()
      modifies this
      ensures Valid() && View() == M.ProcessFin(old(View()), seg)
    {
      if !seg.flags.fin {
        return;
      }
      var finSequence := Wrap(seg.seqNumber + |seg.payload|);
      if finSequence == recvNext {
        TakeFin();
        return;
      }
      if SeqGt(finSequence, recvNext) {
        if !pendingFin || SeqLt(finSequence, pendingFinSeq) {
          pendingFin, pendingFinSeq := true, finSequence;
        }
      }
    }

    method ProcessAck(seg: Segment)
      requires Valid()
      modifies this
      ensures Valid() && View() == M.ProcessAck(old(View()), seg)
    {
      if seg.flags.ack && SeqGt(seg.ackNumber, sendUna) && SeqLe(seg.ackNumber, sendNext) {
        sendUna := seg.ackNumber;
        if sendUna == sendNext {
          ResetRetransmission();
        } else {
          elapsed, retries := 0, 0;
        }
      }
    }

    method CompleteHandshake(seg: Segment)
      requires Valid()
      modifies this
      ensures Valid() && View() == M.CompleteHandshake(old(View()), seg)
    {
      recvNext := Wrap(seg.seqNumber + 1);
      state := Established;
      hist := hist.(irs := Some(seg.seqNumber), base := |hist.appended|, fins := 0);
      ResetRetransmission();
    }

    method ResetRetransmission()
      requires Valid()
      modifies this
      ensures Valid()
      ensures View() == old(View()).(hasRetransmit := false, retries := 0, elapsed := 0, rto := DEFAULT_RTO)
    {
      hasRetransmit, retries, elapsed, rto := false, 0, 0, DEFAULT_RTO;
    }

    method OnSegment(seg: Segment) returns (r: int)
      requires Valid()
      modifies this, slots, ready
      ensures Valid()
      ensures (View(), r) == M.OnSegment(old(View()), seg)
    {
      if seg.sourcePort != remotePort || seg.destinationPort != localPort {
        return -1;
      }
      if seg.flags.rst {
        state, hasRetransmit := Reset, false;
        ClearReassembly();
        return 0;
      }
      ProcessAck(seg);
      remoteWindow := seg.window;
      if state == SynSent {
        if seg.flags.syn && seg.flags.ack {
          if seg.ackNumber != sendNext {
            return -1;
          }
          CompleteHandshake(seg);
          return 1;
        }
        return 0;
      }
      if state != Established && state != FinWait1 && state != FinWait2 && state != CloseWait && state != LastAck {
        return 0;
      }
      r := ReceiveSegment(seg);
    }

    /** The part of on_segment that runs in the five receiving states. */
    method ReceiveSegment(seg: Segment) returns (r: int)
      requires Valid()
      modifies this, slots, ready
      ensures Valid()
      ensures (View(), r) == Receive(old(View()), seg)
    {
      var processed := ProcessPayload(seg);
      if processed != 0 {
        return -2;
      }
      ProcessFin(seg);
      ConsumePendingFin();
      if state == FinWait1 && sendUna == sendNext {
        state := FinWait2;
      }
      if state == LastAck && sendUna == sendNext {
        state, hasRetransmit := Closed, false;
      }
      return 0;
    }

    // ------------------------------------------------------------------ sending

    /** The next `len` sequence numbers are those of the segment being sent. */
    method Occupy(len: nat)
      requires Valid()
      modifies this
      ensures Valid() && View() == old(View()).(sendUna := old(sendNext), sendNext := Wrap(old(sendNext) + len))
    {
      sendUna := sendNext;
      sendNext := Wrap(sendNext + len);
    }

    method RememberForRetransmission(seg: Segment)
      requires Valid()
      modifies this
      ensures Valid() && View() == Remember(old(View()), seg)
    {
      last, hasRetransmit, elapsed := seg, true, 0;
    }

    method BuildSyn(window: U16) returns (seg: Option<Segment>)
      requires Valid()
      modifies this
      ensures Valid()
      ensures seg.Some? <==> M.BuildSyn(old(View()), window).Some?
      ensures seg.Some? ==> (View(), seg.value) == M.BuildSyn(old(View()), window).value
      ensures seg.None? ==> View() == old(View())
    {
      if state != Closed {
        return None;
      }
      seg := Build(localPort, remotePort, sendNext, 0, SYN, window, []);
      Occupy(1);
      state := SynSent;
      hist := hist.(irs := None);
      RememberForRetransmission(seg.value);
    }

    method BuildAck(window: U16) returns (seg: Option<Segment>)
      requires Valid()
      ensures seg == M.BuildAck(View(), window)
    {
      seg := Build(localPort, remotePort, sendNext, recvNext, ACK, window, []);
    }

    method BuildData(payload: seq<U8>, window: U16) returns (seg: Option<Segment>)
      requires Valid()
      modifies this
      ensures Valid()
      ensures seg.Some? <==> M.BuildData(old(View()), payload, window).Some?
      ensures seg.Some? ==> (View(), seg.value) == M.BuildData(old(View()), payload, window).value
      ensures seg.None? ==> View() == old(View())
    {
      if |payload| == 0 || state != Established {
        return None;
      }
      seg := Build(localPort, remotePort, sendNext, recvNext, PSH_ACK, window, payload);
      if seg.None? {
        return None;
      }
      Occupy(|payload|);
      RememberForRetransmission(seg.value);
    }

    method BuildFin(window: U16) returns (seg: Option<Segment>)
      requires Valid()
      modifies this
      ensures Valid()
      ensures seg.Some? <==> M.BuildFin(old(View()), window).Some?
      ensures seg.Some? ==> (View(), seg.value) == M.BuildFin(old(View()), window).value
      ensures seg.None? ==> View() == old(View())
    {
      if state != Established && state != CloseWait {
        return None;
      }
      seg := Build(localPort, remotePort, sendNext, recvNext, FIN_ACK, window, []);
      Occupy(1);
      if state == CloseWait {
        state := LastAck;
      } else {
        state := FinWait1;
      }
      RememberForRetransmission(seg.value);
    }

    // -------------------------------------------------------- timer, application

    method Tick(ms: U32) returns (r: int, again: Option<Segment>)
      requires Valid()
      modifies this
      ensures Valid()
      ensures (View(), r, again) == M.Tick(old(View()), ms)
    {
      if !hasRetransmit {
        return 0, None;
      }
      if ms > U32_MAX - elapsed {
        elapsed := U32_MAX;
      } else {
        elapsed := elapsed + ms;
      }
      if elapsed < rto {
        return 0, None;
      }
      if retries >= retryLimit {
        state, hasRetransmit := Reset, false;
        return -1, None;
      }
      again := Some(last);
      retries, elapsed := retries + 1, 0;
      if rto < MAX_RTO {
        var doubled := rto as int * 2;
        if doubled > MAX_RTO {
          doubled := MAX_RTO;
        }
        rto := doubled;
      }
      return 1, again;
    }

    /** Copies into the front of `buffer` and moves the remaining ready bytes down. */
    method Read(buffer: array<U8>) returns (n: nat)
      requires Valid() && buffer != ready
      modifies this, ready, buffer
      ensures Valid() && n <= buffer.Length
      ensures View() == M.Read(old(View()), buffer.Length).0
      ensures buffer[..n] == M.Read(old(View()), buffer.Length).1
      ensures buffer[n..] == old(buffer[n..])
    {
      if buffer.Length == 0 || readyLen == 0 {
        assert ready[..readyLen] == ready[..readyLen][0..];
        assert hist == hist.(taken := hist.taken + ready[..readyLen][..0]);
        return 0;
      }
      ghost var before := ready[..readyLen];
      n := readyLen;
      if n > buffer.Length {
        n := buffer.Length;
      }
      forall i | 0 <= i < n {
        buffer[i] := ready[i];
      }
      assert ready[..readyLen] == before;
      hist := hist.(taken := hist.taken + before[..n]);
      var remaining := readyLen - n;
      forall i | 0 <= i < remaining {
        ready[i] := ready[n + i];
      }
      readyLen := remaining;
      assert ready[..readyLen] == before[n..];
    }
  }
}
