/** src/dns.c: building an A query. */
module DnsQuery {
  import opened Bytes
  import opened DnsName
  import opened WireBuffer

  const HEADER_LEN: int := 12

  /** Identifier, recursion desired, one question. */
  function Header(id: U16): seq<U8> {
    BE16(id) + BE16(0x0100) + BE16(1) + BE16(0) + BE16(0) + BE16(0)
  }

  /** The root, type A and class IN. */
  const TRAILER: seq<U8> := [0] + BE16(1) + BE16(1)

  predicate GoodHost(host: seq<U8>) {
    1 <= |host| <= 253 && GoodLabels(Split(host))
  }

  function Query(id: U16, host: seq<U8>): seq<U8>
    requires GoodHost(host)
  {
    Header(id) + EncodeLabels(Split(host)) + TRAILER
  }

  /**
   What the query says: its labels read back as the host name, and the name ends 4 bytes before
   the end, also when it has 127 labels, the most the skipper takes.
   */
  lemma QueryReadsBack(id: U16, host: seq<U8>)
    requires GoodHost(host)
    ensures var q := Query(id, host);
            && DecodeLabels(q, HEADER_LEN) == Split(host) && Join(Split(host)) == host
            && SkipFrom(q, HEADER_LEN, 0) == Some(|q| - 4)
  {
    var q, ls := Query(id, host), Split(host);
    EncodedSize(ls);
    JoinSplit(host);
    var name := EncodeLabels(ls) + [0];
    assert q == Header(id) + (name + (BE16(1) + BE16(1)));
    assert q[HEADER_LEN..] == name + (BE16(1) + BE16(1));
    DecodeEncoded(q, HEADER_LEN, ls);
    assert q[HEADER_LEN..|q| - 4] == name;
    GrammarIsSkipped(q, HEADER_LEN, |q| - 4, 0, ls, [0]);
  }

  method WriteHeader(buffer: array<U8>, id: U16)
    requires buffer.Length >= HEADER_LEN
    modifies buffer
    ensures buffer[..HEADER_LEN] == Header(id)
    ensures forall i :: HEADER_LEN <= i < buffer.Length ==> buffer[i] == 0
  {
    forall i | 0 <= i < buffer.Length {
      buffer[i] := 0;
    }
    buffer[0], buffer[1] := id / 0x100, id % 0x100;
    buffer[2] := 1;
    buffer[5] := 1;
    assert buffer[..HEADER_LEN] == Header(id);
  }

  /** `done` holds the labels before `start`. */
  ghost predicate SplitAt(host: seq<U8>, start: nat, done: seq<Label>) {
    start <= |host| && Split(host) == done + Split(host[start..])
  }

  /** No dot from `start` up to `cursor`. */
  predicate DotFree(host: seq<U8>, start: nat, cursor: nat) {
    start <= cursor <= |host| && forall k :: start <= k < cursor ==> host[k] != DOT
  }

  /** A label the loop is about to write is one of the labels of the name. */
  lemma NextLabel(host: seq<U8>, start: nat, cursor: nat, done: seq<Label>)
    requires DotFree(host, start, cursor) && SplitAt(host, start, done)
    ensures cursor == |host| ==> Split(host) == done + [host[start..cursor]]
    ensures cursor < |host| && host[cursor] == DOT ==>
              host[start..cursor] in Split(host) && SplitAt(host, cursor + 1, done + [host[start..cursor]])
  {
    var rest, n := host[start..], cursor - start;
    assert rest[..n] == host[start..cursor];
    SplitRun(rest, n);
    if cursor == |host| {
      assert rest == host[start..cursor];
    } else if host[cursor] == DOT {
      assert rest[n + 1..] == host[cursor + 1..];
      LabelMoves(done, rest[..n], Split(host[cursor + 1..]));
    }
  }

  lemma LabelMoves(done: seq<Label>, l: Label, more: seq<Label>)
    ensures done + ([l] + more) == done + [l] + more
    ensures l in done + [l] + more
  {
    assert (done + [l] + more)[|done|] == l;
  }

  /** Write one label; the buffer check is the code's. */
  method WriteLabel(buffer: array<U8>, offset: nat, l: Label) returns (ok: bool)
    requires GoodLabel(l) && offset <= buffer.Length
    modifies buffer
    ensures ok <==> offset + 1 + |l| <= buffer.Length
    ensures ok ==> buffer[..offset + 1 + |l|] == old(buffer[..offset]) + ([|l|] + l)
    ensures !ok ==> buffer[..] == old(buffer[..])
    ensures forall i :: offset + 1 + |l| <= i < buffer.Length ==> buffer[i] == old(buffer[i])
  {
    if offset + 1 + |l| > buffer.Length {
      return false;
    }
    ghost var before := buffer[..offset];
    Write8(buffer, offset, |l|);
    Copy(buffer, offset + 1, l);
    assert buffer[..offset + 1 + |l|] == before + ([|l|] + l);
    return true;
  }

  /** The name so far: `done` is written, and the rest of the host name is still to be split. */
  ghost predicate Written(buffer: array<U8>, id: U16, host: seq<U8>, start: nat, done: seq<Label>)
    reads buffer
  {
    && GoodLabels(done)
    && HEADER_LEN + start <= buffer.Length
    && buffer[..HEADER_LEN + start] == Header(id) + EncodeLabels(done)
    && (forall i :: HEADER_LEN + start <= i < buffer.Length ==> buffer[i] == 0)
  }

  /** The label that ends at `cursor` goes behind those already written. */
  method PutLabel(buffer: array<U8>, id: U16, host: seq<U8>, start: nat, cursor: nat, ghost done: seq<Label>)
    returns (ok: bool)
    requires start <= cursor <= |host| && GoodLabel(host[start..cursor])
    requires Written(buffer, id, host, start, done)
    modifies buffer
    ensures ok <==> HEADER_LEN + cursor + 1 <= buffer.Length
    ensures ok ==> Written(buffer, id, host, cursor + 1, done + [host[start..cursor]])
    ensures !ok ==> buffer[..] == old(buffer[..])
  {
    var l := host[start..cursor];
    ok := WriteLabel(buffer, HEADER_LEN + start, l);
    AppendLabel(id, done, l);
  }

  /** Where the loop stands: the labels before `start` are `done`, are written, and fitted. */
  ghost predicate At(buffer: array<U8>, id: U16, host: seq<U8>, start: nat, done: seq<Label>)
    reads buffer
  {
    && SplitAt(host, start, done) && Written(buffer, id, host, start, done)
    && FitsSoFar(host, start, done, buffer.Length - HEADER_LEN)
  }

  /** All labels of the name are written. */
  ghost predicate AllWritten(buffer: array<U8>, id: U16, host: seq<U8>)
    reads buffer
  {
    && GoodLabels(Split(host)) && Written(buffer, id, host, |host| + 1, Split(host))
    && Fitting(Split(host), buffer.Length - HEADER_LEN) == Split(host)
  }

  /** A label is bad or does not fit, and those before it are written. */
  ghost predicate Stuck(buffer: array<U8>, id: U16, host: seq<U8>)
    reads buffer
  {
    && !(GoodLabels(Split(host)) && |host| + 13 <= buffer.Length)
    && OnlyLabels(buffer, id, Fitting(Split(host), buffer.Length - HEADER_LEN))
  }

  /** The body of the loop at a dot or at the end: the label before `cursor` is written, or refused. */
  method EndLabel(buffer: array<U8>, id: U16, host: seq<U8>, start: nat, cursor: nat, ghost done: seq<Label>)
    returns (ok: bool)
    requires DotFree(host, start, cursor) && (cursor == |host| || host[cursor] == DOT)
    requires HEADER_LEN <= buffer.Length && At(buffer, id, host, start, done)
    modifies buffer
    ensures !ok ==> Stuck(buffer, id, host)
    ensures ok ==> if cursor == |host| then AllWritten(buffer, id, host)
                   else At(buffer, id, host, cursor + 1, done + [host[start..cursor]])
  {
    var l := host[start..cursor];
    NextLabel(host, start, cursor, done);
    NextFits(host, start, cursor, done, buffer.Length - HEADER_LEN);
    if |l| == 0 || |l| > 63 {
      assert l in Split(host) && !GoodLabel(l);
      return false;
    }
    ok := PutLabel(buffer, id, host, start, cursor, done);
  }

  /** The loop over the host name: all labels are written, or one is bad or does not fit. */
  method WriteLabels(buffer: array<U8>, id: U16, host: seq<U8>) returns (ok: bool)
    requires HEADER_LEN <= buffer.Length && Written(buffer, id, host, 0, [])
    modifies buffer
    ensures if ok then AllWritten(buffer, id, host) else Stuck(buffer, id, host)
  {
    var start, cursor := 0, 0;
    ghost var done: seq<Label> := [];
    assert host[0..] == host;
    while true
      invariant DotFree(host, start, cursor)
      invariant At(buffer, id, host, start, done)
      decreases |host| - cursor
    {
      if cursor == |host| || host[cursor] == DOT {
        ok := EndLabel(buffer, id, host, start, cursor, done);
        if !ok || cursor == |host| {
          return;
        }
        done := done + [host[start..cursor]];
        start := cursor + 1;
      }
      cursor := cursor + 1;
    }
  }

  /** The labels that are written: those before the first that is bad or does not fit. */
  function Fitting(ls: seq<Label>, room: int): (done: seq<Label>)
    ensures GoodLabels(done)
  {
    if ls == [] || !GoodLabel(ls[0]) || 1 + |ls[0]| > room then [] else [ls[0]] + Fitting(ls[1..], room - 1 - |ls[0]|)
  }

  /** `done` is written; the rest of what fits is in the rest of the name. */
  ghost predicate FitsSoFar(host: seq<U8>, start: nat, done: seq<Label>, room: int) {
    start <= |host| && Fitting(Split(host), room) == done + Fitting(Split(host[start..]), room - start)
  }

  /** The label that ends at `cursor` is written next, or nothing more is. */
  lemma NextFits(host: seq<U8>, start: nat, cursor: nat, done: seq<Label>, room: int)
    requires DotFree(host, start, cursor) && FitsSoFar(host, start, done, room)
    requires cursor == |host| || host[cursor] == DOT
    ensures var l := host[start..cursor];
            if !GoodLabel(l) || 1 + cursor > room then Fitting(Split(host), room) == done
            else if cursor == |host| then Fitting(Split(host), room) == done + [l]
            else FitsSoFar(host, cursor + 1, done + [l], room)
  {
    var l := host[start..cursor];
    var more := if cursor < |host| then Split(host[cursor + 1..]) else [];
    FirstOfRest(host, start, cursor);
    FittingMoves(done, l, more, room - start);
  }

  lemma FirstOfRest(host: seq<U8>, start: nat, cursor: nat)
    requires DotFree(host, start, cursor) && (cursor == |host| || host[cursor] == DOT)
    ensures Split(host[start..]) ==
              [host[start..cursor]] + if cursor < |host| then Split(host[cursor + 1..]) else []
  {
    var rest, n := host[start..], cursor - start;
    assert rest[..n] == host[start..cursor];
    SplitRun(rest, n);
    if cursor < |host| {
      assert rest[n + 1..] == host[cursor + 1..];
    } else {
      assert rest == rest[..n];
    }
  }

  lemma FittingMoves(done: seq<Label>, l: Label, more: seq<Label>, room: int)
    ensures done + Fitting([l] + more, room) ==
              if !GoodLabel(l) || 1 + |l| > room then done else done + [l] + Fitting(more, room - 1 - |l|)
    ensures Fitting([], room - 1 - |l|) == []
  {
    assert ([l] + more)[1..] == more;
  }

  /** Header and labels, and zeros behind them. */
  ghost predicate OnlyLabels(buffer: array<U8>, id: U16, done: seq<Label>)
    requires GoodLabels(done)
    reads buffer
  {
    var front := Header(id) + EncodeLabels(done);
    |front| <= buffer.Length && buffer[..|front|] == front && forall i :: |front| <= i < buffer.Length ==> buffer[i] == 0
  }

  lemma AppendLabel(id: U16, done: seq<Label>, l: Label)
    requires GoodLabels(done) && GoodLabel(l)
    ensures GoodLabels(done + [l])
    ensures Header(id) + EncodeLabels(done) + ([|l|] + l) == Header(id) + EncodeLabels(done + [l])
  {
    EncodedConcat(done, [l]);
    assert [l][1..] == [];
    assert EncodeLabels([l]) == [|l|] + l;
  }

  method WriteTrailer(buffer: array<U8>, offset: nat)
    requires offset + 5 <= buffer.Length
    modifies buffer
    ensures WrittenAt(old(buffer[..]), buffer[..], offset, TRAILER)
  {
    Write8(buffer, offset, 0);
    Write16(buffer, offset + 1, 1);
    Write16(buffer, offset + 3, 1);
  }

  /**
   dns_build_a_query: succeeds exactly for a name of 1 to 253 bytes whose labels have 1 to 63 each,
   with room for the name and 18 bytes more. A name of a wrong length is refused before the buffer
   is touched; later refusals leave the header and the labels that were written.
   */
  method BuildAQuery(buffer: array<U8>, id: U16, host: seq<U8>) returns (n: nat)
    modifies buffer
    ensures n > 0 <==>
              && 1 <= |host| <= 253 && (forall l :: l in Split(host) ==> 1 <= |l| <= 63)
              && |host| + 18 <= buffer.Length
    ensures n > 0 ==> GoodHost(host) && n == |host| + 18 && buffer[..n] == Query(id, host)
    ensures n > 0 ==> forall i :: n <= i < buffer.Length ==> buffer[i] == 0
    ensures n == 0 ==>
              if |host| == 0 || buffer.Length < HEADER_LEN || |host| > 253 then buffer[..] == old(buffer[..])
              else OnlyLabels(buffer, id, Fitting(Split(host), buffer.Length - HEADER_LEN))
  {
    if |host| == 0 || buffer.Length < HEADER_LEN || |host| > 253 {
      return 0;
    }
    WriteHeader(buffer, id);
    var ok := WriteLabels(buffer, id, host);
    if !ok {
      return 0;
    }
    var offset := HEADER_LEN + |host| + 1;
    if offset + 1 + 4 > buffer.Length {
      return 0;
    }
    WriteTrailer(buffer, offset);
    return offset + 5;
  }

  /** The query byte by byte: identifier, recursion desired, one question; name, type A, class IN. */
  lemma QueryBytes(id: U16, host: seq<U8>)
    requires GoodHost(host)
    ensures Query(id, host) ==
              [id / 256, id % 256, 1, 0, 0, 1, 0, 0, 0, 0, 0, 0] + EncodeLabels(Split(host)) + [0, 0, 1, 0, 1]
  {
    assert Header(id) == [id / 256, id % 256, 1, 0, 0, 1, 0, 0, 0, 0, 0, 0];
    assert TRAILER == [0, 0, 1, 0, 1];
  }
}
