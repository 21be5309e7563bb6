/** src/dns.c: reading the A records of a response. */
module DnsResponse {
  import opened Bytes
  import opened DnsName
  import DnsQuery

  const HEADER_LEN: int := 12
  const MAX_ANSWERS: int := 16
  const TYPE_A: U16 := 1
  const CLASS_IN: U16 := 1

  /** A resource record, as section 4.1.3 of RFC 1035 lays it out after its name. */
  datatype Record = Record(kind: U16, class_: U16, ttl: U32, rdata: seq<U8>)

  datatype Answer = Answer(address: seq<U8>, ttl: U32)

  datatype Response = Response(
    id: U16,
    responseCode: U8,
    authoritative: bool,
    truncated: bool,
    recursionAvailable: bool,
    answers: seq<Answer>)

  // ------------------------------------------------------------------- specification

  /** Where `count` questions that start at `off` end. */
  function SkipQuestions(data: seq<U8>, off: nat, count: nat): Option<nat>
    decreases count
  {
    if count == 0 then Some(off)
    else
      match SkipFrom(data, off, 0)
      case None => None
      case Some(p) => if p + 4 > |data| then None else SkipQuestions(data, p + 4, count - 1)
  }

  /** The record at `off`, and where the next one starts. */
  function ReadRecord(data: seq<U8>, off: nat): (r: Option<(Record, nat)>)
    ensures r.Some? ==> off < r.value.1 <= |data|
  {
    match SkipFrom(data, off, 0)
    case None => None
    case Some(p) =>
      if p + 10 > |data| then None
      else
        var end := p + 10 + Read16(data, p + 8);
        if end > |data| then None
        else Some((Record(Read16(data, p), Read16(data, p + 2), Read32(data, p + 4), data[p + 10..end]), end))
  }

  function Prepend(front: seq<Record>, r: Option<seq<Record>>): Option<seq<Record>> {
    match r
    case None => None
    case Some(more) => Some(front + more)
  }

  /** The `count` records that start at `off`, in order, when all of them are inside the data. */
  function ReadRecords(data: seq<U8>, off: nat, count: nat): Option<seq<Record>>
    decreases count
  {
    if count == 0 then Some([])
    else
      match ReadRecord(data, off)
      case None => None
      case Some((record, next)) =>
        Prepend([record], ReadRecords(data, next, count - 1))
  }

  predicate IsAddress(r: Record) {
    r.kind == TYPE_A && r.class_ == CLASS_IN && |r.rdata| == 4
  }

  /** The IPv4 addresses among the records, with their times to live. */
  function Addresses(rs: seq<Record>): seq<Answer> {
    if rs == [] then []
    else
      var front := Addresses(rs[..|rs| - 1]);
      var r := rs[|rs| - 1];
      if IsAddress(r) then front + [Answer(r.rdata, r.ttl)] else front
  }

  function FirstAnswers(answers: seq<Answer>): seq<Answer> {
    if |answers| <= MAX_ANSWERS then answers else answers[..MAX_ANSWERS]
  }

  function Flag(flags: U16, bit: U16): bool
    requires bit > 0
  {
    flags / bit % 2 == 1
  }

  /** What a message means to dns_parse_response. */
  function Meaning(data: seq<U8>, expectedId: U16): Result<Response> {
    if |data| < HEADER_LEN then Err(-2)
    else if Read16(data, 0) != expectedId then Err(-3)
    else
      var flags := Read16(data, 2);
      if !Flag(flags, 0x8000) then Err(-4)
      else
        match SkipQuestions(data, HEADER_LEN, Read16(data, 4))
        case None => Err(-5)
        case Some(off) =>
          match ReadRecords(data, off, Read16(data, 6))
          case None => Err(-5)
          case Some(rs) =>
            Ok(Response(expectedId, flags % 16, Flag(flags, 0x0400), Flag(flags, 0x0200), Flag(flags, 0x0080),
                        FirstAnswers(Addresses(rs))))
  }

  // ------------------------------------------------------------------------- the parser

  method SkipAllQuestions(data: seq<U8>, count: U16) returns (r: Option<nat>)
    ensures r == SkipQuestions(data, HEADER_LEN, count)
  {
    var offset: nat := HEADER_LEN;
    var i := 0;
    while i < count
      invariant 0 <= i <= count
      invariant SkipQuestions(data, offset, count - i) == SkipQuestions(data, HEADER_LEN, count)
    {
      var p := SkipName(data, offset);
      if p.None? {
        return None;
      }
      if p.value + 4 > |data| {
        return None;
      }
      offset := p.value + 4;
      i := i + 1;
    }
    return Some(offset);
  }

  /** All records are those seen and those that the rest holds. */
  ghost predicate Reading(data: seq<U8>, all: Option<seq<Record>>, seen: seq<Record>, off: nat, left: nat) {
    all == Prepend(seen, ReadRecords(data, off, left))
  }

  lemma ReadingStep(data: seq<U8>, all: Option<seq<Record>>, seen: seq<Record>, off: nat, left: nat)
    requires Reading(data, all, seen, off, left)
    ensures left == 0 ==> all == Some(seen)
    ensures left > 0 && ReadRecord(data, off).None? ==> all == None
    ensures left > 0 && ReadRecord(data, off).Some? ==>
              var one := ReadRecord(data, off).value;
              Reading(data, all, seen + [one.0], one.1, left - 1)
  {
    if left == 0 {
      assert seen + [] == seen;
    } else if ReadRecord(data, off).Some? {
      var (record, next) := ReadRecord(data, off).value;
      var more := ReadRecords(data, next, left - 1);
      if more.Some? {
        assert seen + ([record] + more.value) == seen + [record] + more.value;
      }
    }
  }

  /** Keeping an answer while there is room keeps the first sixteen of those seen. */
  lemma AnswerKept(front: seq<Record>, record: Record)
    ensures var kept := FirstAnswers(Addresses(front));
            FirstAnswers(Addresses(front + [record])) ==
              if IsAddress(record) && |kept| < MAX_ANSWERS then kept + [Answer(record.rdata, record.ttl)] else kept
  {
    assert (front + [record])[..|front|] == front;
  }

  /** An address is kept while there is room for it. */
  method KeepAnswer(answers: seq<Answer>, record: Record, ghost seen: seq<Record>) returns (kept: seq<Answer>)
    requires answers == FirstAnswers(Addresses(seen))
    ensures kept == FirstAnswers(Addresses(seen + [record]))
  {
    AnswerKept(seen, record);
    kept := answers;
    if IsAddress(record) && |answers| < MAX_ANSWERS {
      kept := answers + [Answer(record.rdata, record.ttl)];
    }
  }

  method ReadOne(data: seq<U8>, off: nat) returns (r: Option<(Record, nat)>)
    ensures r == ReadRecord(data, off)
  {
    var p := SkipName(data, off);
    if p.None? || p.value + 10 > |data| {
      return None;
    }
    var kind, class_ := Read16(data, p.value), Read16(data, p.value + 2);
    var ttl, rdlength := Read32(data, p.value + 4), Read16(data, p.value + 8);
    var offset := p.value + 10;
    if offset + rdlength > |data| {
      return None;
    }
    return Some((Record(kind, class_, ttl, data[offset..offset + rdlength]), offset + rdlength));
  }

  /** The answers kept of a list of records. */
  function Kept(all: Option<seq<Record>>): Option<seq<Answer>> {
    match all
    case None => None
    case Some(rs) => Some(FirstAnswers(Addresses(rs)))
  }

  /** Where the answer loop stands: the answers are those kept of the records seen. */
  ghost predicate Walked(data: seq<U8>, all: Option<seq<Record>>, seen: seq<Record>, answers: seq<Answer>,
                         off: nat, left: nat)
  {
    Reading(data, all, seen, off, left) && answers == FirstAnswers(Addresses(seen))
  }

  lemma WalkStarts(data: seq<U8>, off: nat, count: nat)
    ensures Walked(data, ReadRecords(data, off, count), [], [], off, count)
  {
    var all := ReadRecords(data, off, count);
    assert all.Some? ==> [] + all.value == all.value;
  }

  lemma WalkEnds(data: seq<U8>, all: Option<seq<Record>>, seen: seq<Record>, answers: seq<Answer>, off: nat)
    requires Walked(data, all, seen, answers, off, 0)
    ensures Kept(all) == Some(answers)
  {
    ReadingStep(data, all, seen, off, 0);
  }

  /** The body of the answer loop: one record more, or none to be had. */
  method ReadNext(data: seq<U8>, answers: seq<Answer>, off: nat,
                  ghost all: Option<seq<Record>>, ghost seen: seq<Record>, ghost left: nat)
    returns (r: Option<(seq<Answer>, nat)>, ghost more: seq<Record>)
    requires left > 0 && Walked(data, all, seen, answers, off, left)
    ensures r.None? ==> Kept(all) == None
    ensures r.Some? ==> Walked(data, all, more, r.value.0, r.value.1, left - 1)
  {
    ReadingStep(data, all, seen, off, left);
    more := seen;
    var one := ReadOne(data, off);
    if one.None? {
      return None, more;
    }
    var kept := KeepAnswer(answers, one.value.0, seen);
    more := seen + [one.value.0];
    return Some((kept, one.value.1)), more;
  }

  /** The answer loop: all records are walked, and the first sixteen addresses are kept. */
  method ReadAnswers(data: seq<U8>, start: nat, count: U16) returns (r: Option<seq<Answer>>)
    ensures r == Kept(ReadRecords(data, start, count))
  {
    ghost var all, seen: seq<Record> := ReadRecords(data, start, count), [];
    var answers: seq<Answer> := [];
    var offset: nat, i := start, 0;
    WalkStarts(data, start, count);
    while i < count
      invariant 0 <= i <= count
      invariant Walked(data, all, seen, answers, offset, count - i)
    {
      var next;
      next, seen := ReadNext(data, answers, offset, all, seen, count - i);
      if next.None? {
        return None;
      }
      answers, offset := next.value.0, next.value.1;
      i := i + 1;
    }
    WalkEnds(data, all, seen, answers, offset);
    return Some(answers);
  }

  /** dns_parse_response. */
  method ParseResponse(data: seq<U8>, expectedId: U16) returns (r: Result<Response>)
    ensures r == Meaning(data, expectedId)
  {
    if |data| < HEADER_LEN {
      return Err(-2);
    }
    var id := Read16(data, 0);
    if id != expectedId {
      return Err(-3);
    }
    var flags := Read16(data, 2);
    if !Flag(flags, 0x8000) {
      return Err(-4);
    }
    var offset := SkipAllQuestions(data, Read16(data, 4));
    if offset.None? {
      return Err(-5);
    }
    var answers := ReadAnswers(data, offset.value, Read16(data, 6));
    if answers.None? {
      return Err(-5);
    }
    return Ok(Response(id, flags % 16, Flag(flags, 0x0400), Flag(flags, 0x0200), Flag(flags, 0x0080), answers.value));
  }

  // -------------------------------------------------------------------------- round trip

  /** A record on the wire behind a name written as a compression pointer. */
  function EncodeRecord(pointer: U16, r: Record): seq<U8>
    requires pointer >= 0xC000 && |r.rdata| <= 0xFFFF
  {
    BE16(pointer) + BE16(r.kind) + BE16(r.class_) + BE32(r.ttl) + BE16(|r.rdata|) + r.rdata
  }

  /** Every record's data has a 16-bit length. */
  predicate Writable(rs: seq<Record>) {
    forall i :: 0 <= i < |rs| ==> |rs[i].rdata| <= 0xFFFF
  }

  function EncodeRecords(pointer: U16, rs: seq<Record>): seq<U8>
    requires pointer >= 0xC000 && Writable(rs)
  {
    if rs == [] then [] else EncodeRecord(pointer, rs[0]) + EncodeRecords(pointer, rs[1..])
  }

  /** The records are at `off`. */
  predicate LaidOut(data: seq<U8>, off: nat, pointer: U16, rs: seq<Record>)
    requires pointer >= 0xC000 && Writable(rs)
  {
    off <= |data| && EncodeRecords(pointer, rs) <= data[off..]
  }

  lemma RecordReadsBack(data: seq<U8>, off: nat, pointer: U16, r: Record)
    requires pointer >= 0xC000 && |r.rdata| <= 0xFFFF
    requires off <= |data| && EncodeRecord(pointer, r) <= data[off..]
    ensures ReadRecord(data, off) == Some((r, off + 12 + |r.rdata|))
  {
    var bytes := data[off..];
    RecordFields(bytes, pointer, r);
    assert forall i :: 0 <= i < |bytes| ==> bytes[i] == data[off + i];
    assert SkipFrom(data, off, 0) == Some(off + 2);
    assert data[off + 12..off + 12 + |r.rdata|] == bytes[12..12 + |r.rdata|];
  }

  /** The fields of a record that begins at the front. */
  lemma RecordFields(bytes: seq<U8>, pointer: U16, r: Record)
    requires pointer >= 0xC000 && |r.rdata| <= 0xFFFF && EncodeRecord(pointer, r) <= bytes
    ensures |bytes| >= 12 + |r.rdata| && bytes[0] >= 0xC0
    ensures Read16(bytes, 2) == r.kind && Read16(bytes, 4) == r.class_
    ensures Read32(bytes, 6) == r.ttl && Read16(bytes, 10) == |r.rdata|
    ensures bytes[12..12 + |r.rdata|] == r.rdata
  {
    assert bytes[0] == BE16(pointer)[0];
    FieldReads16(bytes, 2, r.kind);
    FieldReads16(bytes, 4, r.class_);
    FieldReads32(bytes, 6, r.ttl);
    FieldReads16(bytes, 10, |r.rdata|);
  }

  lemma FirstRecordReadsBack(data: seq<U8>, off: nat, pointer: U16, rs: seq<Record>) returns (next: nat)
    requires pointer >= 0xC000 && Writable(rs) && rs != []
    requires LaidOut(data, off, pointer, rs)
    ensures ReadRecord(data, off) == Some((rs[0], next))
    ensures Writable(rs[1..]) && LaidOut(data, next, pointer, rs[1..])
  {
    var a := EncodeRecord(pointer, rs[0]);
    next := off + |a|;
    PrefixTail(a, EncodeRecords(pointer, rs[1..]), data[off..]);
    RecordReadsBack(data, off, pointer, rs[0]);
    assert data[off..][|a|..] == data[next..];
  }

  /** Records laid out one after the other are read back in order, whatever follows them. */
  lemma {:induction false} RecordsReadBack(data: seq<U8>, off: nat, pointer: U16, rs: seq<Record>)
    requires pointer >= 0xC000 && Writable(rs)
    requires LaidOut(data, off, pointer, rs)
    ensures ReadRecords(data, off, |rs|) == Some(rs)
    decreases |rs|
  {
    if rs != [] {
      var next, more := RestReadsBack(data, off, pointer, rs);
      RecordsReadBack(data, next, pointer, more);
    }
  }

  /** If the records behind the first are read back, so are all. */
  lemma RestReadsBack(data: seq<U8>, off: nat, pointer: U16, rs: seq<Record>)
    returns (next: nat, more: seq<Record>)
    requires pointer >= 0xC000 && Writable(rs) && rs != [] && LaidOut(data, off, pointer, rs)
    ensures |more| < |rs| && Writable(more) && LaidOut(data, next, pointer, more)
    ensures ReadRecords(data, next, |more|) == Some(more) ==> ReadRecords(data, off, |rs|) == Some(rs)
  {
    more := rs[1..];
    next := FirstRecordReadsBack(data, off, pointer, rs);
    OneMoreRecord(data, off, next, rs[0], more);
    assert rs == [rs[0]] + more;
  }

  lemma OneMoreRecord(data: seq<U8>, off: nat, next: nat, r: Record, more: seq<Record>)
    requires ReadRecord(data, off) == Some((r, next))
    ensures ReadRecords(data, next, |more|) == Some(more) ==> ReadRecords(data, off, |[r] + more|) == Some([r] + more)
  {
  }

  lemma PrefixTail(a: seq<U8>, b: seq<U8>, s: seq<U8>)
    requires a + b <= s
    ensures a <= s && b <= s[|a|..]
  {
    assert s == a + b + s[|a + b|..];
  }

  /** The question a server echoes: the labels of the host name, then type and class. */
  function Question(host: seq<U8>): seq<U8>
    requires DnsQuery.GoodHost(host)
  {
    EncodeLabels(Split(host)) + [0] + (BE16(TYPE_A) + BE16(CLASS_IN))
  }

  /** A reply to a query for `host`: header, the question, the records, and any further sections. */
  function Reply(id: U16, flags: U16, host: seq<U8>, rs: seq<Record>, more: seq<U8>): seq<U8>
    requires DnsQuery.GoodHost(host) && |rs| <= 0xFFFF && Writable(rs)
  {
    (BE16(id) + BE16(flags) + BE16(1) + BE16(|rs|) + BE16(0) + BE16(0))
    + (Question(host) + (EncodeRecords(0xC00C, rs) + more))
  }

  lemma QuestionSkipped(data: seq<U8>, host: seq<U8>)
    requires DnsQuery.GoodHost(host) && HEADER_LEN <= |data| && Question(host) <= data[HEADER_LEN..]
    ensures SkipQuestions(data, HEADER_LEN, 1) == Some(HEADER_LEN + |Question(host)|)
  {
    OneQuestionSkipped(data, HEADER_LEN, host, 0);
  }

  /** Any number of questions, one after the other. */
  function Questions(hosts: seq<seq<U8>>): seq<U8>
    requires forall i :: 0 <= i < |hosts| ==> DnsQuery.GoodHost(hosts[i])
  {
    if hosts == [] then [] else Question(hosts[0]) + Questions(hosts[1..])
  }

  /** All of them are skipped, to where the last one ends. */
  lemma {:induction false} QuestionsSkipped(data: seq<U8>, off: nat, hosts: seq<seq<U8>>)
    requires forall i :: 0 <= i < |hosts| ==> DnsQuery.GoodHost(hosts[i])
    requires off <= |data| && Questions(hosts) <= data[off..]
    ensures SkipQuestions(data, off, |hosts|) == Some(off + |Questions(hosts)|)
    decreases |hosts|
  {
    if hosts != [] {
      var q, rest := Question(hosts[0]), hosts[1..];
      PrefixTail(q, Questions(rest), data[off..]);
      assert data[off..][|q|..] == data[off + |q|..];
      OneQuestionSkipped(data, off, hosts[0], |rest|);
      QuestionsSkipped(data, off + |q|, rest);
    }
  }

  lemma OneQuestionSkipped(data: seq<U8>, off: nat, host: seq<U8>, more: nat)
    requires DnsQuery.GoodHost(host) && off <= |data| && Question(host) <= data[off..]
    ensures SkipQuestions(data, off, 1 + more) == SkipQuestions(data, off + |Question(host)|, more)
  {
    var ls := Split(host);
    var name := EncodeLabels(ls) + [0];
    EncodedSize(ls);
    JoinSplit(host);
    PrefixTail(name, BE16(TYPE_A) + BE16(CLASS_IN), data[off..]);
    var end := off + |name|;
    assert data[off..end] == data[off..][..|name|] == name;
    GrammarIsSkipped(data, off, end, 0, ls, [0]);
  }

  /** Where the parts of a reply are. */
  lemma ReplyLayout(id: U16, flags: U16, host: seq<U8>, rs: seq<Record>, more: seq<U8>)
    requires DnsQuery.GoodHost(host) && |rs| <= 0xFFFF && Writable(rs)
    ensures var data := Reply(id, flags, host, rs, more);
            var off := HEADER_LEN + |Question(host)|;
            && off <= |data|
            && Read16(data, 0) == id && Read16(data, 2) == flags && Read16(data, 4) == 1 && Read16(data, 6) == |rs|
            && Question(host) <= data[HEADER_LEN..] && EncodeRecords(0xC00C, rs) <= data[off..]
  {
    var data := Reply(id, flags, host, rs, more);
    var header := BE16(id) + BE16(flags) + BE16(1) + BE16(|rs|) + BE16(0) + BE16(0);
    var q, records := Question(host), EncodeRecords(0xC00C, rs) + more;
    PrefixTail(header, q + records, data);
    HeaderFields(data, id, flags, |rs|);
    PrefixTail(q, records, data[HEADER_LEN..]);
    PrefixTail(EncodeRecords(0xC00C, rs), more, data[HEADER_LEN..][|q|..]);
    assert data[HEADER_LEN..][|q|..] == data[HEADER_LEN + |q|..];
  }

  /** A message whose questions and records are where they should be means what its fields say. */
  lemma MeaningOf(data: seq<U8>, id: U16, off: nat, rs: seq<Record>)
    requires |data| >= HEADER_LEN && Read16(data, 0) == id && Flag(Read16(data, 2), 0x8000)
    requires SkipQuestions(data, HEADER_LEN, Read16(data, 4)) == Some(off)
    requires ReadRecords(data, off, Read16(data, 6)) == Some(rs)
    ensures var flags := Read16(data, 2);
            Meaning(data, id) ==
              Ok(Response(id, flags % 16, Flag(flags, 0x0400), Flag(flags, 0x0200), Flag(flags, 0x0080),
                          FirstAnswers(Addresses(rs))))
  {
  }

  /**
   Query and reply fit together: a reply that echoes the question and lists any records, named by a
   pointer to it, is understood as exactly the first sixteen addresses among them.
   */
  lemma ReplyUnderstood(id: U16, flags: U16, host: seq<U8>, rs: seq<Record>, more: seq<U8>)
    requires DnsQuery.GoodHost(host) && |rs| <= 0xFFFF && Writable(rs)
    requires Flag(flags, 0x8000)
    ensures Meaning(Reply(id, flags, host, rs, more), id) ==
              Ok(Response(id, flags % 16, Flag(flags, 0x0400), Flag(flags, 0x0200), Flag(flags, 0x0080),
                          FirstAnswers(Addresses(rs))))
  {
    ReplyLayout(id, flags, host, rs, more);
    ReplyMeans(Reply(id, flags, host, rs, more), id, host, rs);
  }

  lemma ReplyMeans(data: seq<U8>, id: U16, host: seq<U8>, rs: seq<Record>)
    requires DnsQuery.GoodHost(host) && |rs| <= 0xFFFF && Writable(rs)
    requires HEADER_LEN + |Question(host)| <= |data|
    requires Read16(data, 0) == id && Flag(Read16(data, 2), 0x8000)
    requires Read16(data, 4) == 1 && Read16(data, 6) == |rs|
    requires Question(host) <= data[HEADER_LEN..]
    requires EncodeRecords(0xC00C, rs) <= data[HEADER_LEN + |Question(host)|..]
    ensures var flags := Read16(data, 2);
            Meaning(data, id) ==
              Ok(Response(id, flags % 16, Flag(flags, 0x0400), Flag(flags, 0x0200), Flag(flags, 0x0080),
                          FirstAnswers(Addresses(rs))))
  {
    var off := HEADER_LEN + |Question(host)|;
    QuestionSkipped(data, host);
    RecordsReadBack(data, off, 0xC00C, rs);
    MeaningOf(data, id, off, rs);
  }

  lemma HeaderFields(data: seq<U8>, id: U16, flags: U16, count: U16)
    requires BE16(id) + BE16(flags) + BE16(1) + BE16(count) + BE16(0) + BE16(0) <= data
    ensures Read16(data, 0) == id && Read16(data, 2) == flags && Read16(data, 4) == 1 && Read16(data, 6) == count
  {
    FieldReads16(data, 0, id);
    FieldReads16(data, 2, flags);
    FieldReads16(data, 4, 1);
    FieldReads16(data, 6, count);
  }

  // ------------------------------------------------------------------- byte by byte

  lemma FlagBits(high: U8, low: U8)
    ensures var flags: U16 := 256 * high + low;
            && (Flag(flags, 0x8000) <==> high >= 128) && (Flag(flags, 0x0400) <==> high / 4 % 2 == 1)
            && (Flag(flags, 0x0200) <==> high / 2 % 2 == 1) && (Flag(flags, 0x0080) <==> low >= 128)
            && flags % 16 == low % 16
  {
    Halves(high, low);
  }

  /** Dividing by a power of two from 256 on looks at the high byte only. */
  lemma Halves(high: U8, low: U8)
    ensures (256 * high as int + low) / 0x8000 == high / 128
    ensures (256 * high as int + low) / 0x0400 == high / 4
    ensures (256 * high as int + low) / 0x0200 == high / 2
    ensures (256 * high as int + low) / 0x0080 == 2 * high as int + low / 128
  {
  }

  /** The header of a response, bit by bit, and every error code. */
  lemma HeaderMeans(data: seq<U8>, id: U16)
    ensures match Meaning(data, id)
            case Err(code) =>
              if |data| < 12 then code == -2
              else if 256 * data[0] as int + data[1] != id then code == -3
              else if data[2] < 128 then code == -4
              else code == -5
            case Ok(r) =>
              && |data| >= 12 && 256 * data[0] as int + data[1] == id == r.id && data[2] >= 128
              && (r.authoritative <==> data[2] / 4 % 2 == 1) && (r.truncated <==> data[2] / 2 % 2 == 1)
              && (r.recursionAvailable <==> data[3] >= 128) && r.responseCode == data[3] % 16
              && |r.answers| <= 16
  {
    if |data| >= 12 {
      FlagBits(data[2], data[3]);
    }
  }

  /** Addresses are the records of type 1 and class 1 with four bytes, in order; sixteen are kept. */
  lemma {:induction false} AddressesAre(rs: seq<Record>, r: Record, more: seq<Record>)
    ensures Addresses([]) == []
    ensures Addresses([r]) == if r.kind == 1 && r.class_ == 1 && |r.rdata| == 4 then [Answer(r.rdata, r.ttl)] else []
    ensures Addresses(rs + more) == Addresses(rs) + Addresses(more)
    ensures FirstAnswers(Addresses(rs)) == if |Addresses(rs)| < 16 then Addresses(rs) else Addresses(rs)[..16]
    decreases |more|
  {
    assert [r][..0] == [];
    if more == [] {
      assert rs + more == rs;
    } else {
      var k := |more| - 1;
      assert (rs + more)[..|rs + more| - 1] == rs + more[..k];
      AddressesAre(rs, r, more[..k]);
    }
  }

  /** A record on the wire: name, type, class, time to live, length and data. */
  lemma RecordBytes(pointer: U16, r: Record)
    requires pointer >= 0xC000 && |r.rdata| <= 0xFFFF
    ensures EncodeRecord(pointer, r) ==
              [pointer / 256, pointer % 256, r.kind / 256, r.kind % 256, r.class_ / 256, r.class_ % 256,
               r.ttl / 65536 / 256, r.ttl / 65536 % 256, r.ttl % 65536 / 256, r.ttl % 65536 % 256,
               |r.rdata| / 256, |r.rdata| % 256] + r.rdata
  {
  }

  /** A reply on the wire: identifier, flags, one question, the records and what follows. */
  lemma ReplyBytes(id: U16, flags: U16, host: seq<U8>, rs: seq<Record>, more: seq<U8>)
    requires DnsQuery.GoodHost(host) && |rs| <= 0xFFFF && Writable(rs)
    ensures Reply(id, flags, host, rs, more) ==
              [id / 256, id % 256, flags / 256, flags % 256, 0, 1, |rs| / 256, |rs| % 256, 0, 0, 0, 0]
              + EncodeLabels(Split(host)) + [0, 0, 1, 0, 1] + EncodeRecords(0xC00C, rs) + more
  {
    var header: seq<U8> := [id / 256, id % 256, flags / 256, flags % 256, 0, 1, |rs| / 256, |rs| % 256, 0, 0, 0, 0];
    var labels, records := EncodeLabels(Split(host)), EncodeRecords(0xC00C, rs);
    assert BE16(id) + BE16(flags) + BE16(1) + BE16(|rs|) + BE16(0) + BE16(0) == header;
    assert [0] + (BE16(TYPE_A) + BE16(CLASS_IN)) == [0, 0, 1, 0, 1];
    Flatten(header, labels, [0], BE16(TYPE_A) + BE16(CLASS_IN), records, more);
  }

  lemma Flatten(a: seq<U8>, b: seq<U8>, c: seq<U8>, d: seq<U8>, e: seq<U8>, f: seq<U8>)
    ensures a + ((b + c + d) + (e + f)) == a + b + (c + d) + e + f
  {
  }
}
