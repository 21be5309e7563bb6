/** src/http.c: the chunked transfer coding of section 7.1 of RFC 9112. */
module Chunked {
  import opened Bytes

  /** SIZE_MAX of a 64-bit `size_t`. */
  const SIZE_MAX: int := 0xFFFF_FFFF_FFFF_FFFF

  const CRLF: string := "\r\n"

  // ------------------------------------------------------------------- the size line

  /** hex_value. */
  function HexValue(c: char): int {
    if '0' <= c <= '9' then c as int - '0' as int
    else if 'a' <= c <= 'f' then 10 + (c as int - 'a' as int)
    else if 'A' <= c <= 'F' then 10 + (c as int - 'A' as int)
    else -1
  }

  predicate Blank(c: char) {
    c == ' ' || c == '\t'
  }

  /** The characters of the line that count: up to a semicolon, blanks left out wherever they are. */
  function Digits(line: string): string {
    if line == "" || line[0] == ';' then ""
    else if Blank(line[0]) then Digits(line[1..])
    else [line[0]] + Digits(line[1..])
  }

  /** The mathematical value of a hexadecimal numeral, in either letter case. */
  function HexNumber(d: string): Option<nat> {
    if d == "" then Some(0)
    else
      match HexNumber(d[..|d| - 1])
      case None => None
      case Some(v) => if HexValue(d[|d| - 1]) < 0 then None else Some(v * 16 + HexValue(d[|d| - 1]))
  }

  /** The exact size, when there are digits, all are hexadecimal and the value is a `size_t`. */
  function ChunkSize(line: string): Option<nat> {
    if Digits(line) == "" then None
    else
      match HexNumber(Digits(line))
      case None => None
      case Some(v) => if v <= SIZE_MAX then Some(v) else None
  }

  lemma OneMoreDigit(d: string, c: char)
    ensures HexNumber(d + [c]) ==
              match HexNumber(d)
              case None => None
              case Some(v) => if HexValue(c) < 0 then None else Some(v * 16 + HexValue(c))
  {
    assert (d + [c])[..|d|] == d;
  }

  /** A prefix of a numeral is a numeral, and no larger. */
  lemma {:induction false} MoreDigits(d: string, rest: string)
    requires HexNumber(d + rest).Some?
    ensures HexNumber(d).Some? && HexNumber(d).value <= HexNumber(d + rest).value
  {
    if rest == "" {
      assert d + rest == d;
    } else {
      var k := |rest| - 1;
      assert (d + rest)[..|d + rest| - 1] == d + rest[..k];
      MoreDigits(d, rest[..k]);
    }
  }

  /** A size line cannot be accepted once a bad character or an overflow has been met. */
  lemma Hopeless(seen: string, c: char, rest: string)
    requires HexNumber(seen).Some?
    requires HexValue(c) < 0 || HexNumber(seen).value * 16 + HexValue(c) > SIZE_MAX
    ensures HexNumber(seen + [c] + rest).Some? ==> HexNumber(seen + [c] + rest).value > SIZE_MAX
  {
    OneMoreDigit(seen, c);
    if HexNumber(seen + [c] + rest).Some? {
      MoreDigits(seen + [c], rest);
    }
  }

  /** parse_chunk_size: the guard before each multiplication rejects exactly what would not fit. */
  method ParseChunkSize(line: string) returns (r: Option<nat>)
    ensures r == ChunkSize(line)
  {
    var value, sawDigit := 0, false;
    ghost var seen := "";
    var i := 0;
    while i < |line|
      invariant 0 <= i <= |line|
      invariant Digits(line) == seen + Digits(line[i..])
      invariant HexNumber(seen) == Some(value) && value <= SIZE_MAX
      invariant sawDigit <==> seen != ""
    {
      var c := line[i];
      assert line[i..][1..] == line[i + 1..];
      if c == ';' {
        break;
      }
      if !Blank(c) {
        var digit := HexValue(c);
        assert Digits(line) == seen + [c] + Digits(line[i + 1..]);
        if digit < 0 || value > (SIZE_MAX - digit) / 16 {
          Hopeless(seen, c, Digits(line[i + 1..]));
          return None;
        }
        OneMoreDigit(seen, c);
        value := value * 16 + digit;
        seen := seen + [c];
        sawDigit := true;
      }
      i := i + 1;
    }
    assert Digits(line) == seen;
    return if sawDigit then Some(value) else None;
  }

  lemma {:induction false} FirstDigit(d: string)
    requires d != "" && HexNumber(d).Some?
    ensures HexValue(d[0]) >= 0 && HexNumber(d[1..]).Some?
  {
    if |d| > 1 {
      FirstDigit(d[..|d| - 1]);
      assert d[1..][..|d| - 2] == d[..|d| - 1][1..];
    }
  }

  /** A string without its blanks. */
  function Squeezed(s: string): string {
    if s == "" then "" else if Blank(s[0]) then Squeezed(s[1..]) else [s[0]] + Squeezed(s[1..])
  }

  /** An extension is not looked at. */
  lemma {:induction false} ExtensionIgnored(d: string, ext: string)
    requires ';' !in d
    ensures Digits(d) == Squeezed(d) && Digits(d + ";" + ext) == Squeezed(d)
  {
    if d == "" {
      assert d + ";" + ext == ";" + ext;
    } else {
      ExtensionIgnored(d[1..], ext);
      assert (d + ";" + ext)[1..] == d[1..] + ";" + ext;
    }
  }

  /** The line up to its semicolon. */
  function Head(line: string): (h: string)
    ensures h <= line && ';' !in h && (|h| < |line| ==> line[|h|] == ';')
  {
    if line == "" || line[0] == ';' then "" else [line[0]] + Head(line[1..])
  }

  // --------------------------------------------------------------------- the decoder

  predicate CrlfAt(s: string, i: nat) {
    i + 1 < |s| && s[i] == '\r' && s[i + 1] == '\n'
  }

  /** Where the line that starts at `off` ends: at the first CRLF. */
  function LineEnd(input: string, off: nat): (end: Option<nat>)
    ensures end.Some? ==> off <= end.value && CrlfAt(input, end.value)
    decreases |input| - off
  {
    if off + 1 >= |input| then None
    else if CrlfAt(input, off) then Some(off)
    else LineEnd(input, off + 1)
  }

  /** How a size line is read. The decoder is specified for any such rule and runs with `ChunkSize`. */
  type SizeRule = string -> Option<nat>

  function Prepend(front: string, r: Option<string>): Option<string> {
    match r
    case None => None
    case Some(tail) => Some(front + tail)
  }

  /** A chunk of `n` bytes starts at `at` and is closed by a CRLF. */
  predicate ClosedChunk(input: string, at: nat, n: nat) {
    CrlfAt(input, at + n)
  }

  /** The body, when a complete chunked body starts at `off`. */
  function Decode(size: SizeRule, input: string, off: nat): Option<string>
    decreases |input| - off, 1
  {
    match LineEnd(input, off)
    case None => None
    case Some(end) =>
      match size(input[off..end])
      case None => None
      case Some(n) => DecodeData(size, input, end + 2, n)
  }

  /** The body from the data of a chunk of `n` bytes on; a size of zero ends it. */
  function DecodeData(size: SizeRule, input: string, at: nat, n: nat): Option<string>
    decreases |input| - at, 0
  {
    if n == 0 then Some("")
    else if !ClosedChunk(input, at, n) then None
    else Prepend(input[at..at + n], Decode(size, input, at + n + 2))
  }

  /** What a call writes at the front of the output, and whether it comes to the end of the body. */
  datatype Output = Output(text: string, done: bool)

  function Behind(front: string, o: Output): Output {
    Output(front + o.text, o.done)
  }

  /** What the decoder writes from `off` on with `room` left in the output. */
  function Copied(size: SizeRule, input: string, off: nat, room: nat): Output
    decreases |input| - off, 1
  {
    match LineEnd(input, off)
    case None => Output("", false)
    case Some(end) =>
      match size(input[off..end])
      case None => Output("", false)
      case Some(n) => CopiedData(size, input, end + 2, n, room)
  }

  /** And from the data of a chunk of `n` bytes on: the data goes out before its CRLF is looked for. */
  function CopiedData(size: SizeRule, input: string, at: nat, n: nat, room: nat): Output
    decreases |input| - at, 0
  {
    if n == 0 then Output("\0", true)
    else if !ClosedChunk(input, at, n) || n >= room then Output(Piece(input, at, n, room), false)
    else Behind(Piece(input, at, n, room), Copied(size, input, at + n + 2, room - n))
  }

  /** The data of a chunk, when it is there and there is room for it. */
  function Piece(input: string, at: nat, n: nat, room: nat): string {
    if at + n > |input| || n >= room then "" else input[at..at + n]
  }

  /** The body and a NUL are written exactly when the input decodes and both fit, and nothing outside. */
  predicate Renders(o: Output, body: Option<string>, room: nat) {
    |o.text| <= room && (o.done <==> Fits(body, room)) && (o.done ==> o.text == body.value + "\0")
  }

  lemma RendersBehind(front: string, o: Output, body: Option<string>, room: nat)
    requires Renders(o, body, room)
    ensures Renders(Behind(front, o), Prepend(front, body), |front| + room)
  {
    if o.done {
      assert front + (body.value + "\0") == front + body.value + "\0";
    }
  }

  /** What the decoder writes is what the input decodes to. */
  lemma {:induction false} CopiedIsBody(size: SizeRule, input: string, off: nat, room: nat)
    requires room > 0
    ensures Renders(Copied(size, input, off, room), Decode(size, input, off), room)
    decreases |input| - off, 1
  {
    if LineEnd(input, off).Some? {
      var end := LineEnd(input, off).value;
      if size(input[off..end]).Some? {
        DataIsBody(size, input, end + 2, size(input[off..end]).value, room);
      }
    }
  }

  lemma {:induction false} DataIsBody(size: SizeRule, input: string, at: nat, n: nat, room: nat)
    requires room > 0
    ensures Renders(CopiedData(size, input, at, n, room), DecodeData(size, input, at, n), room)
    decreases |input| - at, 0
  {
    if n > 0 && ClosedChunk(input, at, n) && n < room {
      CopiedIsBody(size, input, at + n + 2, room - n);
      RendersBehind(input[at..at + n], Copied(size, input, at + n + 2, room - n), Decode(size, input, at + n + 2), room - n);
    }
  }

  method FindLineEnd(input: string, from: nat) returns (end: Option<nat>)
    ensures end == LineEnd(input, from)
  {
    var i := from;
    while i + 1 < |input|
      invariant LineEnd(input, i) == LineEnd(input, from)
      decreases |input| - i
    {
      if input[i] == '\r' && input[i + 1] == '\n' {
        return Some(i);
      }
      i := i + 1;
    }
    return None;
  }

  /** The second half of a turn: the chunk is complete and fits, and is copied; or not. */
  method TakeChunk(input: string, at: nat, n: nat, output: array<char>, outOff: nat) returns (ok: bool)
    requires at <= |input| && outOff < output.Length
    modifies output
    ensures ok <==> ClosedChunk(input, at, n) && outOff + n < output.Length
    ensures var piece := Piece(input, at, n, output.Length - outOff);
            output[..] == old(output[..outOff]) + piece + old(output[outOff + |piece|..])
  {
    assert output[..] == old(output[..outOff]) + "" + old(output[outOff..]);
    if n > |input| - at {
      return false;
    }
    if n > output.Length - outOff - 1 {
      return false;
    }
    forall i | 0 <= i < n {
      output[outOff + i] := input[at + i];
    }
    assert output[..] == old(output[..outOff]) + input[at..at + n] + old(output[outOff + n..]);
    var after := at + n;
    if after + 2 > |input| || input[after] != '\r' || input[after + 1] != '\n' {
      return false;
    }
    return true;
  }

  /** The input decodes, and the output has room for the body and a NUL. */
  predicate Fits(body: Option<string>, room: nat) {
    body.Some? && |body.value| < room
  }

  /** What http_decode_chunked_body returns for a given room in the output. */
  function Returned(body: Option<string>, room: nat): nat {
    if Fits(body, room) then |body.value| else 0
  }

  /** The rule the decoder runs with, named by a variable so that the loop does not look inside it. */
  ghost predicate IsChunkSize(size: SizeRule) {
    forall line {:trigger ChunkSize(line)} :: size(line) == ChunkSize(line)
  }

  method SizeOfLine(line: string, ghost size: SizeRule) returns (r: Option<nat>)
    requires IsChunkSize(size)
    ensures r == size(line)
  {
    r := ParseChunkSize(line);
  }

  /** The first half of a turn: the size line at `off`, and where the data after it starts. */
  method ReadSizeLine(input: string, off: nat, ghost size: SizeRule, ghost room: nat) returns (r: Option<(nat, nat)>)
    requires IsChunkSize(size)
    ensures r.None? ==> Copied(size, input, off, room) == Output("", false)
    ensures r.Some? ==> off < r.value.0 <= |input|
                        && Copied(size, input, off, room) == CopiedData(size, input, r.value.0, r.value.1, room)
  {
    var end := FindLineEnd(input, off);
    if end.None? {
      return None;
    }
    var chunkSize := SizeOfLine(input[off..end.value], size);
    if chunkSize.None? {
      return None;
    }
    return Some((end.value + 2, chunkSize.value));
  }

  /** The output began as `before`, and what is in it and what is still to be written make up `all`. */
  predicate Copying(all: Output, before: string, now: string, outOff: nat, rest: Output) {
    outOff < |now| == |before| && now[outOff..] == before[outOff..] && all == Behind(now[..outOff], rest)
  }

  /** The output is overwritten by `all`, and the length of the body is returned once it is complete. */
  predicate Finished(all: Output, before: string, now: string, r: int) {
    && |all.text| <= |before| && now == all.text + before[|all.text|..]
    && r == if all.done then |all.text| - 1 else 0
  }

  lemma CopyStarts(all: Output, before: string)
    requires before != ""
    ensures Copying(all, before, before, 0, all)
  {
    assert before[..0] + all.text == all.text;
  }

  /** A turn that ends the loop writes a last piece. */
  lemma CopyEnds(all: Output, before: string, now: string, outOff: nat, last: Output, after: string)
    requires Copying(all, before, now, outOff, last) && outOff + |last.text| <= |now|
    requires after == now[..outOff] + last.text + now[outOff + |last.text|..]
    ensures Finished(all, before, after, if last.done then outOff + |last.text| - 1 else 0)
  {
    assert now[outOff + |last.text|..] == now[outOff..][|last.text|..] == before[outOff..][|last.text|..];
  }

  /** Or nothing. */
  lemma CopyStops(all: Output, before: string, now: string, outOff: nat)
    requires Copying(all, before, now, outOff, Output("", false))
    ensures Finished(all, before, now, 0)
  {
    assert now == now[..outOff] + "" + now[outOff..];
    CopyEnds(all, before, now, outOff, Output("", false), now);
  }

  method Terminate(output: array<char>, outOff: nat)
    requires outOff < output.Length
    modifies output
    ensures output[..] == old(output[..outOff]) + "\0" + old(output[outOff + 1..])
  {
    output[outOff] := '\0';
  }

  /** Any other turn writes a chunk, and the rest goes behind it. */
  lemma CopyGoesOn(all: Output, before: string, now: string, outOff: nat, piece: string, rest: Output, after: string)
    requires Copying(all, before, now, outOff, Behind(piece, rest)) && outOff + |piece| < |now|
    requires after == now[..outOff] + piece + now[outOff + |piece|..]
    ensures Copying(all, before, after, outOff + |piece|, rest)
  {
    var k := outOff + |piece|;
    assert after[..k] == now[..outOff] + piece;
    assert now[..outOff] + piece + rest.text == now[..outOff] + (piece + rest.text);
    assert now[k..] == now[outOff..][|piece|..] == before[outOff..][|piece|..] == before[k..];
  }

  /** One turn of the loop: where the next one starts, or what the call returns. */
  method DecodeTurn(input: string, inOff: nat, output: array<char>, outOff: nat,
                    ghost size: SizeRule, ghost all: Output, ghost before: string)
    returns (next: Option<(nat, nat)>, r: nat)
    requires IsChunkSize(size) && outOff < output.Length
    requires Copying(all, before, output[..], outOff, Copied(size, input, inOff, output.Length - outOff))
    modifies output
    ensures next.Some? ==>
              && inOff < next.value.0 && next.value.1 < output.Length
              && Copying(all, before, output[..], next.value.1,
                         Copied(size, input, next.value.0, output.Length - next.value.1))
    ensures next.None? ==> Finished(all, before, output[..], r)
  {
    ghost var room := output.Length - outOff;
    var line := ReadSizeLine(input, inOff, size, room);
    if line.None? {
      CopyStops(all, before, output[..], outOff);
      return None, 0;
    }
    var at, n := line.value.0, line.value.1;
    if n == 0 {
      ghost var now := output[..];
      Terminate(output, outOff);
      CopyEnds(all, before, now, outOff, Output("\0", true), output[..]);
      return None, outOff;
    }
    next := DecodeChunkData(input, at, n, output, outOff, size, all, before);
    return next, 0;
  }

  /** The chunk is complete and fits, and is copied; or the call fails with what it copied. */
  method DecodeChunkData(input: string, at: nat, n: nat, output: array<char>, outOff: nat,
                         ghost size: SizeRule, ghost all: Output, ghost before: string)
    returns (next: Option<(nat, nat)>)
    requires at <= |input| && outOff < output.Length && n > 0
    requires Copying(all, before, output[..], outOff, CopiedData(size, input, at, n, output.Length - outOff))
    modifies output
    ensures next.Some? ==>
              && at < next.value.0 && next.value.1 < output.Length
              && Copying(all, before, output[..], next.value.1,
                         Copied(size, input, next.value.0, output.Length - next.value.1))
    ensures next.None? ==> Finished(all, before, output[..], 0)
  {
    ghost var now := output[..];
    ghost var piece := Piece(input, at, n, output.Length - outOff);
    var ok := TakeChunk(input, at, n, output, outOff);
    if !ok {
      CopyEnds(all, before, now, outOff, Output(piece, false), output[..]);
      return None;
    }
    CopyGoesOn(all, before, now, outOff, piece, Copied(size, input, at + n + 2, output.Length - outOff - n), output[..]);
    return Some((at + n + 2, outOff + n));
  }

  /** The loop of http_decode_chunked_body; `output.Length - outOff - 1` never goes below zero. */
  method DecodeLoop(input: string, output: array<char>, ghost size: SizeRule) returns (r: nat)
    requires output.Length > 0 && IsChunkSize(size)
    modifies output
    ensures Finished(Copied(size, input, 0, output.Length), old(output[..]), output[..], r)
  {
    ghost var all, before := Copied(size, input, 0, output.Length), output[..];
    var inOff: nat, outOff: nat := 0, 0;
    CopyStarts(all, before);
    while inOff < |input|
      invariant outOff < output.Length
      invariant Copying(all, before, output[..], outOff, Copied(size, input, inOff, output.Length - outOff))
      decreases |input| - inOff
    {
      var next;
      next, r := DecodeTurn(input, inOff, output, outOff, size, all, before);
      if next.None? {
        return;
      }
      inOff, outOff := next.value.0, next.value.1;
    }
    CopyStops(all, before, output[..], outOff);
    return 0;
  }

  /**
   http_decode_chunked_body: the decoded body and a terminating NUL are in the output exactly when
   the input is a chunked body and both fit; in any case the output is overwritten by what was
   copied and is otherwise left alone.
   */
  method DecodeChunkedBody(input: string, output: array<char>) returns (r: nat)
    modifies output
    ensures r == Returned(Decode(ChunkSize, input, 0), output.Length)
    ensures var body := Decode(ChunkSize, input, 0);
            Fits(body, output.Length) ==> output[..r] == body.value && output[r] == '\0'
    ensures var all := if output.Length == 0 then Output("", false) else Copied(ChunkSize, input, 0, output.Length);
            Finished(all, old(output[..]), output[..], r)
  {
    if output.Length == 0 {
      return 0;
    }
    CopiedIsBody(ChunkSize, input, 0, output.Length);
    r := DecodeLoop(input, output, ChunkSize);
  }

  // --------------------------------------------------------------------- the grammar

  /** A chunk as framed: its size line, extensions included, and its data. */
  datatype Chunk = Chunk(line: string, data: string)

  predicate CrlfFree(line: string) {
    forall i :: 0 <= i < |line| ==> !CrlfAt(line, i)
  }

  predicate WellFramed(size: SizeRule, c: Chunk) {
    CrlfFree(c.line) && c.data != "" && size(c.line) == Some(|c.data|)
  }

  predicate LastLine(size: SizeRule, line: string) {
    CrlfFree(line) && size(line) == Some(0)
  }

  /** Any chunks, the line of the last chunk, and whatever follows it. */
  function Frame(chunks: seq<Chunk>, last: string, trailer: string): string {
    if chunks == [] then last + CRLF + trailer
    else FrameChunk(chunks[0], Frame(chunks[1..], last, trailer))
  }

  function FrameChunk(c: Chunk, tail: string): string {
    c.line + CRLF + c.data + CRLF + tail
  }

  function Body(chunks: seq<Chunk>): string {
    if chunks == [] then "" else chunks[0].data + Body(chunks[1..])
  }

  /** A line from `off` to `end` with no CRLF before the one that ends it is found. */
  lemma {:induction false} LineFound(input: string, off: nat, end: nat)
    requires off <= end && CrlfAt(input, end) && forall i :: off <= i < end ==> !CrlfAt(input, i)
    ensures LineEnd(input, off) == Some(end)
    decreases end - off
  {
    if off < end {
      LineFound(input, off + 1, end);
    }
  }

  /** The line at the front of what starts at `off` is the next line. */
  lemma FramedLine(input: string, off: nat, line: string, rest: string)
    requires off <= |input| && input[off..] == line + CRLF + rest && CrlfFree(line)
    ensures LineEnd(input, off) == Some(off + |line|) && input[off..off + |line|] == line
    ensures input[off + |line| + 2..] == rest
  {
    var end := off + |line|;
    var here := input[off..];
    assert here[..|line|] == line && here[|line|..|line| + 2] == CRLF && here[|line| + 2..] == rest;
    assert input[end] == here[|line|] == CRLF[0] && input[end + 1] == here[|line| + 1] == CRLF[1];
    forall i | off <= i < end
      ensures !CrlfAt(input, i)
    {
      assert !CrlfAt(line, i - off);
      assert input[i] == here[i - off] == line[i - off];
      assert i + 1 < end ==> input[i + 1] == here[i + 1 - off] == line[i + 1 - off];
    }
    LineFound(input, off, end);
  }

  /** The first CRLF is the first. */
  lemma {:induction false} LineIsCrlfFree(input: string, off: nat)
    requires LineEnd(input, off).Some?
    ensures forall i :: off <= i < LineEnd(input, off).value ==> !CrlfAt(input, i)
    decreases |input| - off
  {
    if !CrlfAt(input, off) {
      LineIsCrlfFree(input, off + 1);
    }
  }

  /** Where data and its CRLF are. */
  lemma FramedData(input: string, at: nat, data: string, tail: string)
    requires at <= |input| && input[at..] == data + CRLF + tail
    ensures ClosedChunk(input, at, |data|) && input[at..at + |data|] == data && input[at + |data| + 2..] == tail
  {
    var here, n := input[at..], |data|;
    assert here[..n] == data && here[n + 2..] == tail;
    assert input[at + n] == here[n] == CRLF[0] && input[at + n + 1] == here[n + 1] == CRLF[1];
  }

  /** The chunk's line ends at the first CRLF from `off` on, and its data follow, closed by another. */
  predicate ChunkAt(input: string, off: nat, c: Chunk) {
    var at := off + |c.line| + 2;
    && LineEnd(input, off) == Some(off + |c.line|) && input[off..off + |c.line|] == c.line
    && ClosedChunk(input, at, |c.data|) && input[at..at + |c.data|] == c.data
  }

  /** Where the parts of a framed chunk are. */
  lemma FramedChunk(input: string, off: nat, c: Chunk, tail: string)
    requires off <= |input| && input[off..] == FrameChunk(c, tail) && CrlfFree(c.line)
    ensures ChunkAt(input, off, c)
    ensures off + |c.line| + 2 + |c.data| + 2 <= |input| && input[off + |c.line| + 2 + |c.data| + 2..] == tail
  {
    assert FrameChunk(c, tail) == c.line + CRLF + (c.data + CRLF + tail);
    FramedLine(input, off, c.line, c.data + CRLF + tail);
    FramedData(input, off + |c.line| + 2, c.data, tail);
  }

  /** One chunk, where it is: its data, then what the rest decodes to. */
  lemma ChunkDecodes(size: SizeRule, input: string, off: nat, end: nat, n: nat)
    requires LineEnd(input, off) == Some(end) && size(input[off..end]) == Some(n) && n > 0
    requires ClosedChunk(input, end + 2, n)
    ensures Decode(size, input, off) == Prepend(input[end + 2..end + 2 + n], Decode(size, input, end + 2 + n + 2))
  {
  }

  /** The parts of a chunk that decodes. */
  lemma DecodedChunk(size: SizeRule, input: string, off: nat)
    requires Decode(size, input, off).Some?
    ensures LineEnd(input, off).Some?
    ensures var end := LineEnd(input, off).value;
            && size(input[off..end]).Some?
            && (size(input[off..end]) == Some(0) ==> Decode(size, input, off) == Some(""))
            && (size(input[off..end]).value > 0 ==> ClosedChunk(input, end + 2, size(input[off..end]).value))
  {
  }

  lemma FramedChunkDecodes(size: SizeRule, input: string, off: nat, c: Chunk, tail: string) returns (next: nat)
    requires off <= |input| && input[off..] == FrameChunk(c, tail) && WellFramed(size, c)
    ensures next <= |input| && input[next..] == tail
    ensures Decode(size, input, off) == Prepend(c.data, Decode(size, input, next))
  {
    FramedChunk(input, off, c, tail);
    ChunkAtDecodes(size, input, off, c);
    next := off + |c.line| + 2 + |c.data| + 2;
  }

  lemma ChunkAtDecodes(size: SizeRule, input: string, off: nat, c: Chunk)
    requires ChunkAt(input, off, c) && WellFramed(size, c)
    ensures Decode(size, input, off) == Prepend(c.data, Decode(size, input, off + |c.line| + 2 + |c.data| + 2))
  {
    ChunkDecodes(size, input, off, off + |c.line|, |c.data|);
  }

  lemma LastLineDecodes(size: SizeRule, input: string, off: nat, last: string, trailer: string)
    requires off <= |input| && input[off..] == last + CRLF + trailer && LastLine(size, last)
    ensures Decode(size, input, off) == Some("")
  {
    FramedLine(input, off, last, trailer);
  }

  /** Decoding inverts framing: the chunks' data come back, whatever their size lines look like. */
  lemma {:induction false} DecodeFrame(size: SizeRule, input: string, off: nat,
                                       chunks: seq<Chunk>, last: string, trailer: string)
    requires off <= |input| && input[off..] == Frame(chunks, last, trailer)
    requires LastLine(size, last) && forall i :: 0 <= i < |chunks| ==> WellFramed(size, chunks[i])
    ensures Decode(size, input, off) == Some(Body(chunks))
    decreases |chunks|
  {
    if chunks == [] {
      LastLineDecodes(size, input, off, last, trailer);
    } else {
      var next := FramedChunkDecodes(size, input, off, chunks[0], Frame(chunks[1..], last, trailer));
      DecodeFrame(size, input, next, chunks[1..], last, trailer);
    }
  }

  lemma SizeLineIsCrlfFree(input: string, off: nat)
    requires LineEnd(input, off).Some?
    ensures CrlfFree(input[off..LineEnd(input, off).value])
  {
    var line := input[off..LineEnd(input, off).value];
    LineIsCrlfFree(input, off);
    assert forall i :: 0 <= i < |line| && CrlfAt(line, i) ==> CrlfAt(input, off + i);
  }

  // -------------------------------------------------------------- what a failed call leaves

  /** A chunk that is not closed, or has no room, ends the call: its data are copied if they are there and fit. */
  lemma BrokenChunk(size: SizeRule, input: string, off: nat, end: nat, n: nat, room: nat)
    requires LineEnd(input, off) == Some(end) && size(input[off..end]) == Some(n) && n > 0
    requires !CrlfAt(input, end + 2 + n) || n >= room
    ensures Copied(size, input, off, room) ==
              Output(if end + 2 + n <= |input| && n < room then input[end + 2..end + 2 + n] else "", false)
  {
  }

  /** Without a line that is read as a size nothing is copied. */
  lemma BrokenLine(size: SizeRule, input: string, off: nat, room: nat)
    requires LineEnd(input, off).None? || size(input[off..LineEnd(input, off).value]).None?
    ensures Copied(size, input, off, room) == Output("", false)
  {
  }

  /** Chunks as framed, and anything behind them. */
  function Chunks(chunks: seq<Chunk>, tail: string): string {
    if chunks == [] then tail else FrameChunk(chunks[0], Chunks(chunks[1..], tail))
  }

  /** What is copied from `off` on is the data and what is copied from `next` on. */
  predicate CopiesTo(size: SizeRule, input: string, off: nat, data: string, next: nat, room: nat) {
    |data| < room && Copied(size, input, off, room) == Behind(data, Copied(size, input, next, room - |data|))
  }

  lemma ChunkCopied(size: SizeRule, input: string, off: nat, c: Chunk, room: nat)
    requires ChunkAt(input, off, c) && WellFramed(size, c) && |c.data| < room
    ensures CopiesTo(size, input, off, c.data, ChunkEnd(off, c), room)
  {
  }

  function ChunkEnd(off: nat, c: Chunk): nat {
    off + |c.line| + 2 + |c.data| + 2
  }

  lemma CopiesOn(size: SizeRule, input: string, off: nat, a: string, mid: nat, b: string, next: nat, room: nat)
    requires CopiesTo(size, input, off, a, mid, room) && CopiesTo(size, input, mid, b, next, room - |a|)
    ensures CopiesTo(size, input, off, a + b, next, room)
  {
    BehindTwice(a, b, Copied(size, input, next, room - |a| - |b|));
  }

  /** The chunks stand one after the other from `off` to `next`. */
  predicate Standing(size: SizeRule, input: string, off: nat, chunks: seq<Chunk>, next: nat)
    decreases |chunks|
  {
    if chunks == [] then next == off
    else ChunkAt(input, off, chunks[0]) && WellFramed(size, chunks[0])
         && Standing(size, input, ChunkEnd(off, chunks[0]), chunks[1..], next)
  }

  lemma {:induction false} StandingCopied(size: SizeRule, input: string, off: nat, chunks: seq<Chunk>, next: nat, room: nat)
    requires Standing(size, input, off, chunks, next) && |Body(chunks)| < room
    ensures CopiesTo(size, input, off, Body(chunks), next, room)
    decreases |chunks|
  {
    if chunks == [] {
      BehindNothing(Copied(size, input, off, room));
    } else {
      var c, mid := chunks[0], ChunkEnd(off, chunks[0]);
      ChunkCopied(size, input, off, c, room);
      StandingCopied(size, input, mid, chunks[1..], next, room - |c.data|);
      CopiesOn(size, input, off, c.data, mid, Body(chunks[1..]), next, room);
    }
  }

  lemma {:induction false} ChunksStand(size: SizeRule, input: string, off: nat, chunks: seq<Chunk>, tail: string)
    returns (next: nat)
    requires off <= |input| && input[off..] == Chunks(chunks, tail)
    requires forall i :: 0 <= i < |chunks| ==> WellFramed(size, chunks[i])
    ensures next <= |input| && input[next..] == tail && Standing(size, input, off, chunks, next)
    decreases |chunks|
  {
    next := off;
    if chunks != [] {
      FramedChunk(input, off, chunks[0], Chunks(chunks[1..], tail));
      next := ChunksStand(size, input, ChunkEnd(off, chunks[0]), chunks[1..], tail);
    }
  }

  /** The data of all chunks before are in the output, whatever comes behind them. */
  lemma ChunksCopied(size: SizeRule, input: string, off: nat, chunks: seq<Chunk>, tail: string, room: nat)
    returns (next: nat)
    requires off <= |input| && input[off..] == Chunks(chunks, tail) && |Body(chunks)| < room
    requires forall i :: 0 <= i < |chunks| ==> WellFramed(size, chunks[i])
    ensures next <= |input| && input[next..] == tail && CopiesTo(size, input, off, Body(chunks), next, room)
  {
    next := ChunksStand(size, input, off, chunks, tail);
    StandingCopied(size, input, off, chunks, next, room);
  }

  lemma BehindNothing(o: Output)
    ensures Behind("", o) == o
  {
    assert "" + o.text == o.text;
  }

  lemma BehindTwice(a: string, b: string, o: Output)
    ensures Behind(a, Behind(b, o)) == Behind(a + b, o)
  {
    assert a + (b + o.text) == a + b + o.text;
  }

  /** What decodes starts with the last chunk's line, or with a well-framed chunk. */
  lemma FirstChunk(size: SizeRule, input: string, off: nat) returns (c: Chunk, next: nat)
    requires Decode(size, input, off).Some?
    ensures off < next <= |input|
    ensures c.data == "" ==>
              && LastLine(size, c.line) && input[off..] == c.line + CRLF + input[next..]
              && Decode(size, input, off) == Some("")
    ensures c.data != "" ==>
              && WellFramed(size, c) && input[off..] == FrameChunk(c, input[next..])
              && Decode(size, input, off) == Prepend(c.data, Decode(size, input, next))
  {
    DecodedChunk(size, input, off);
    var end := LineEnd(input, off).value;
    var line := input[off..end];
    var n := size(line).value;
    SizeLineIsCrlfFree(input, off);
    if n == 0 {
      c, next := Chunk(line, ""), end + 2;
      Relined(input, off, end);
    } else {
      c, next := FirstData(size, input, off, end, n);
    }
  }

  lemma FirstData(size: SizeRule, input: string, off: nat, end: nat, n: nat) returns (c: Chunk, next: nat)
    requires LineEnd(input, off) == Some(end) && CrlfFree(input[off..end]) && size(input[off..end]) == Some(n) && n > 0
    requires ClosedChunk(input, end + 2, n)
    ensures off < next <= |input| && c.data != ""
    ensures WellFramed(size, c) && input[off..] == FrameChunk(c, input[next..])
    ensures Decode(size, input, off) == Prepend(c.data, Decode(size, input, next))
  {
    c, next := Chunk(input[off..end], input[end + 2..end + 2 + n]), end + 2 + n + 2;
    ChunkDecodes(size, input, off, end, n);
    Reframed(input, off, end, n);
  }

  /** A CRLF splits the input into what is before it and what is after it. */
  lemma Relined(input: string, off: nat, end: nat)
    requires off <= end && CrlfAt(input, end)
    ensures input[off..] == input[off..end] + CRLF + input[end + 2..]
  {
  }

  lemma Reframed(input: string, off: nat, end: nat, n: nat)
    requires off <= end && CrlfAt(input, end) && CrlfAt(input, end + 2 + n)
    ensures input[off..] == FrameChunk(Chunk(input[off..end], input[end + 2..end + 2 + n]), input[end + 2 + n + 2..])
  {
    Relined(input, off, end);
    Relined(input, end + 2, end + 2 + n);
  }

  /** And only framed input decodes: the result is the data of chunks that the grammar frames. */
  lemma {:induction false} DecodedIsFramed(size: SizeRule, input: string, off: nat)
    returns (chunks: seq<Chunk>, last: string, trailer: string)
    requires Decode(size, input, off).Some?
    ensures LastLine(size, last) && forall i :: 0 <= i < |chunks| ==> WellFramed(size, chunks[i])
    ensures off <= |input| && input[off..] == Frame(chunks, last, trailer)
    ensures Decode(size, input, off) == Some(Body(chunks))
    decreases |input| - off
  {
    var c, next := FirstChunk(size, input, off);
    if c.data == "" {
      chunks, last, trailer := [], c.line, input[next..];
    } else {
      var more;
      more, last, trailer := DecodedIsFramed(size, input, next);
      chunks := [c] + more;
      assert chunks[1..] == more;
    }
  }

  /** The body is shorter than the input, so an output of one byte more than the input always has room. */
  lemma {:induction false} DecodedFits(size: SizeRule, input: string, off: nat)
    requires Decode(size, input, off).Some?
    ensures |Decode(size, input, off).value| < |input| - off
    ensures Returned(Decode(size, input, off), |input| + 1) == |Decode(size, input, off).value|
    decreases |input| - off
  {
    var end := LineEnd(input, off).value;
    var n := size(input[off..end]).value;
    if n > 0 {
      DecodedFits(size, input, end + 2 + n + 2);
    }
  }

  // -------------------------------------------------------------- framing with numerals

  /** The sixteen digits, in either letter case; a numeral may mix them. */
  const LOWER: string := "0123456789abcdef"
  const UPPER: string := "0123456789ABCDEF"

  /** Both tables are read as the values of their places, and no other character is a digit. */
  lemma DigitTable(c: char)
    ensures forall v :: 0 <= v < 16 ==> HexValue("0123456789abcdef"[v]) == v
    ensures forall v :: 0 <= v < 16 ==> HexValue("0123456789ABCDEF"[v]) == v
    ensures c !in "0123456789abcdef" && c !in "0123456789ABCDEF" ==> HexValue(c) < 0
  {
    if HexValue(c) >= 0 {
      var v := HexValue(c);
      assert 0 <= v < 16 && (LOWER[v] == c || UPPER[v] == c);
    }
  }

  /** `d` writes `n` in hexadecimal, letter by letter from either table. */
  predicate Writes(d: string, n: nat) {
    if d == "" then n == 0
    else (d[|d| - 1] == LOWER[n % 16] || d[|d| - 1] == UPPER[n % 16]) && Writes(d[..|d| - 1], n / 16)
  }

  lemma DigitIs(c: char, v: nat)
    requires v < 16
    ensures HexValue(c) == v <==> c == LOWER[v] || c == UPPER[v]
  {
    DigitTable(c);
  }

  /** What the reader takes for a number is what the numeral writes. */
  lemma {:induction false} WritesIsNumber(d: string, n: nat)
    ensures Writes(d, n) <==> HexNumber(d) == Some(n)
  {
    if d != "" {
      DigitIs(d[|d| - 1], n % 16);
      WritesIsNumber(d[..|d| - 1], n / 16);
      LastDigit(d, n);
    }
  }

  /** A number and its last digit. */
  lemma LastDigit(d: string, n: nat)
    requires d != ""
    ensures HexNumber(d) == Some(n) <==> HexNumber(d[..|d| - 1]) == Some(n / 16) && HexValue(d[|d| - 1]) == n % 16
  {
  }

  /** Every size can be written. */
  lemma {:induction false} Numeral(n: nat) returns (d: string)
    ensures d != "" && Writes(d, n)
  {
    var front := "";
    if n >= 16 {
      front := Numeral(n / 16);
    }
    d := front + [LOWER[n % 16]];
    assert d[..|d| - 1] == front;
  }

  /** A chunk to be framed: any numeral for its size, perhaps an extension, and its data. */
  datatype Part = Part(digits: string, ext: Option<string>, data: string)

  function SizeLineOf(digits: string, ext: Option<string>): string {
    match ext
    case None => digits
    case Some(e) => digits + ";" + e
  }

  /** The digits, blanks among them left out, spell `n`, and the extension has no CRLF in it. */
  predicate Spells(digits: string, ext: Option<string>, n: nat) {
    && ';' !in digits && Squeezed(digits) != "" && HexNumber(Squeezed(digits)) == Some(n) && n <= SIZE_MAX
    && (ext.Some? ==> CrlfFree(ext.value))
  }

  lemma {:induction false} DigitsAreHex(d: string, i: nat)
    requires HexNumber(Squeezed(d)).Some? && i < |d|
    ensures Blank(d[i]) || HexValue(d[i]) >= 0
  {
    if !Blank(d[0]) {
      FirstDigit(Squeezed(d));
      assert Squeezed(d)[1..] == Squeezed(d[1..]);
    }
    if i > 0 {
      DigitsAreHex(d[1..], i - 1);
    }
  }

  /** In either letter case, with blanks and any extension, the line is read as the size it spells. */
  lemma SpelledLine(digits: string, ext: Option<string>, n: nat)
    requires Spells(digits, ext, n)
    ensures var line := SizeLineOf(digits, ext); CrlfFree(line) && ChunkSize(line) == Some(n)
  {
    var line := SizeLineOf(digits, ext);
    ExtensionIgnored(digits, if ext.Some? then ext.value else "");
    forall i | 0 <= i < |line|
      ensures !CrlfAt(line, i)
    {
      if i < |digits| {
        DigitsAreHex(digits, i);
      } else if i > |digits| {
        assert !CrlfAt(ext.value, i - |digits| - 1);
      }
    }
  }

  /** And only a line that spells a size is read as one. */
  lemma LineIsSpelled(line: string, n: nat) returns (digits: string, ext: Option<string>)
    requires CrlfFree(line) && ChunkSize(line) == Some(n)
    ensures line == SizeLineOf(digits, ext) && Spells(digits, ext, n)
  {
    digits, ext := Head(line), None;
    if |digits| < |line| {
      var e := line[|digits| + 1..];
      ext := Some(e);
      assert line == digits + ";" + e;
      forall i | 0 <= i < |e|
        ensures !CrlfAt(e, i)
      {
        assert !CrlfAt(line, |digits| + 1 + i);
      }
    }
    ExtensionIgnored(digits, if ext.Some? then ext.value else "");
  }

  predicate BlankFree(s: string) {
    forall i :: 0 <= i < |s| ==> !Blank(s[i])
  }

  lemma {:induction false} SqueezedIsShorter(s: string)
    ensures |Squeezed(s)| <= |s| && (Squeezed(s) == s <==> BlankFree(s))
  {
    if s != "" {
      SqueezedIsShorter(s[1..]);
      assert s == [s[0]] + s[1..];
      assert forall i :: 0 <= i < |s| - 1 ==> s[1..][i] == s[i + 1];
      assert !Blank(s[0]) ==> Squeezed(s)[1..] == Squeezed(s[1..]);
    }
  }

  /** Blanks are what the code takes beyond the numeral: the digits are one exactly when there are none. */
  lemma NumeralIffNoBlanks(digits: string, ext: Option<string>, n: nat)
    requires Spells(digits, ext, n)
    ensures HexNumber(digits).Some? <==> BlankFree(digits)
    ensures BlankFree(digits) ==> HexNumber(digits) == Some(n)
  {
    SqueezedIsShorter(digits);
    if HexNumber(digits).Some? {
      forall i | 0 <= i < |digits|
        ensures !Blank(digits[i])
      {
        NumeralIsHex(digits, i);
      }
    }
  }

  lemma {:induction false} NumeralIsHex(d: string, i: nat)
    requires HexNumber(d).Some? && i < |d|
    ensures HexValue(d[i]) >= 0
  {
    FirstDigit(d);
    if i > 0 {
      NumeralIsHex(d[1..], i - 1);
    }
  }

  predicate Framable(p: Part) {
    p.data != "" && Spells(p.digits, p.ext, |p.data|)
  }

  function Framed(parts: seq<Part>): seq<Chunk> {
    seq(|parts|, i requires 0 <= i < |parts| => Chunk(SizeLineOf(parts[i].digits, parts[i].ext), parts[i].data))
  }

  /**
   Decoding inverts chunked framing: nonempty chunks with sizes in either letter case, blanks among
   the digits and any CRLF-free extensions, closed by any spelling of zero and followed by any
   trailer, decode to the concatenation of their data.
   */
  lemma FramingDecodes(parts: seq<Part>, zero: string, ext: Option<string>, trailer: string)
    requires forall i :: 0 <= i < |parts| ==> Framable(parts[i])
    requires Spells(zero, ext, 0)
    ensures Decode(ChunkSize, Frame(Framed(parts), SizeLineOf(zero, ext), trailer), 0) == Some(Body(Framed(parts)))
  {
    var chunks := Framed(parts);
    forall i | 0 <= i < |chunks|
      ensures WellFramed(ChunkSize, chunks[i])
    {
      assert Framable(parts[i]);
      SpelledLine(parts[i].digits, parts[i].ext, |parts[i].data|);
    }
    SpelledLine(zero, ext, 0);
    var input := Frame(chunks, SizeLineOf(zero, ext), trailer);
    assert input[0..] == input;
    DecodeFrame(ChunkSize, input, 0, chunks, SizeLineOf(zero, ext), trailer);
  }

  /** A chunk that the decoder reads, in parts. */
  lemma ChunkSpelled(c: Chunk) returns (p: Part)
    requires WellFramed(ChunkSize, c)
    ensures Framable(p) && c == Chunk(SizeLineOf(p.digits, p.ext), p.data)
  {
    var digits, ext := LineIsSpelled(c.line, |c.data|);
    p := Part(digits, ext, c.data);
  }

  lemma {:induction false} ChunksSpelled(chunks: seq<Chunk>) returns (parts: seq<Part>)
    requires forall i :: 0 <= i < |chunks| ==> WellFramed(ChunkSize, chunks[i])
    ensures (forall i :: 0 <= i < |parts| ==> Framable(parts[i])) && Framed(parts) == chunks
  {
    if chunks == [] {
      parts := [];
    } else {
      var k := |chunks| - 1;
      var front := ChunksSpelled(chunks[..k]);
      var p := ChunkSpelled(chunks[k]);
      parts := front + [p];
      assert Framed(parts) == Framed(front) + [chunks[k]];
    }
  }

  /** The other half: whatever decodes is framed by this very grammar, and decodes to its data. */
  lemma DecodedIsSpelled(input: string) returns (parts: seq<Part>, zero: string, ext: Option<string>, trailer: string)
    requires Decode(ChunkSize, input, 0).Some?
    ensures (forall i :: 0 <= i < |parts| ==> Framable(parts[i])) && Spells(zero, ext, 0)
    ensures input == Frame(Framed(parts), SizeLineOf(zero, ext), trailer)
    ensures Decode(ChunkSize, input, 0) == Some(Body(Framed(parts)))
  {
    var chunks, last;
    chunks, last, trailer := DecodedIsFramed(ChunkSize, input, 0);
    parts := ChunksSpelled(chunks);
    zero, ext := LineIsSpelled(last, 0);
    assert input[0..] == input;
  }

  // ------------------------------------------------------------------- plain framing

  /** A plain numeral has no blanks and no semicolon in it. */
  lemma NumeralSpells(d: string, n: nat)
    requires d != "" && Writes(d, n) && n <= SIZE_MAX
    ensures Spells(d, None, n)
  {
    WritesIsNumber(d, n);
    forall i | 0 <= i < |d|
      ensures !Blank(d[i]) && d[i] != ';'
    {
      NumeralIsHex(d, i);
    }
    SqueezedIsShorter(d);
  }

  /** A line that is a numeral is read as its value, and refused from 2^64 on. */
  lemma NumeralRead(d: string, n: nat)
    requires d != "" && Writes(d, n)
    ensures ChunkSize(d) == if n <= 0xFFFF_FFFF_FFFF_FFFF then Some(n) else None
  {
    WritesIsNumber(d, n);
    forall i | 0 <= i < |d|
      ensures !Blank(d[i]) && d[i] != ';'
    {
      NumeralIsHex(d, i);
    }
    SqueezedIsShorter(d);
    ExtensionIgnored(d, "");
  }

  /** A space and a tab are all that is left out. */
  lemma {:induction false} OnlyBlanksSqueezed(s: string, c: char)
    ensures c in Squeezed(s) <==> c in s && c != ' ' && c != '\t'
  {
    if s != "" {
      OnlyBlanksSqueezed(s[1..], c);
      assert s == [s[0]] + s[1..];
    }
  }

  /** Parts without extensions. */
  function Plain(pieces: seq<string>, sizes: seq<string>): seq<Part>
    requires |sizes| == |pieces|
  {
    seq(|pieces|, i requires 0 <= i < |pieces| => Part(sizes[i], None, pieces[i]))
  }

  function Concat(pieces: seq<string>): string {
    if pieces == [] then "" else pieces[0] + Concat(pieces[1..])
  }

  /** The pieces on the wire: size, CRLF, data and CRLF of each, then the last size, CRLF and the trailer. */
  function OnTheWire(pieces: seq<string>, sizes: seq<string>, zero: string, trailer: string): string
    requires |sizes| == |pieces|
  {
    if pieces == [] then zero + "\r\n" + trailer
    else sizes[0] + "\r\n" + pieces[0] + "\r\n" + OnTheWire(pieces[1..], sizes[1..], zero, trailer)
  }

  lemma {:induction false} PlainBody(pieces: seq<string>, sizes: seq<string>, zero: string, trailer: string)
    requires |sizes| == |pieces|
    ensures Body(Framed(Plain(pieces, sizes))) == Concat(pieces)
    ensures Frame(Framed(Plain(pieces, sizes)), zero, trailer) == OnTheWire(pieces, sizes, zero, trailer)
  {
    if pieces != [] {
      PlainBody(pieces[1..], sizes[1..], zero, trailer);
      assert Framed(Plain(pieces, sizes))[1..] == Framed(Plain(pieces[1..], sizes[1..]));
    }
  }

  /** The sizes are numerals for the pieces' lengths. */
  predicate Sized(pieces: seq<string>, sizes: seq<string>) {
    |sizes| == |pieces| && forall i :: 0 <= i < |pieces| ==>
      0 < |pieces[i]| <= 0xFFFF_FFFF_FFFF_FFFF && sizes[i] != "" && Writes(sizes[i], |pieces[i]|)
  }

  lemma PlainFramable(pieces: seq<string>, sizes: seq<string>)
    requires Sized(pieces, sizes)
    ensures forall i :: 0 <= i < |pieces| ==> Framable(Plain(pieces, sizes)[i])
  {
    forall i | 0 <= i < |pieces|
      ensures Framable(Plain(pieces, sizes)[i])
    {
      NumeralSpells(sizes[i], |pieces[i]|);
    }
  }

  /**
   So every body, cut anywhere into nonempty pieces and with sizes written letter by letter in either
   case, can be sent and comes back whole.
   */
  lemma AnyBodyDecodes(pieces: seq<string>, sizes: seq<string>, zero: string, trailer: string)
    requires Sized(pieces, sizes) && zero != "" && Writes(zero, 0)
    ensures Decode(ChunkSize, OnTheWire(pieces, sizes, zero, trailer), 0) == Some(Concat(pieces))
  {
    PlainFramable(pieces, sizes);
    NumeralSpells(zero, 0);
    FramingDecodes(Plain(pieces, sizes), zero, None, trailer);
    PlainBody(pieces, sizes, zero, trailer);
  }

  /** Sizes can always be found. */
  lemma {:induction false} SizesFor(pieces: seq<string>) returns (sizes: seq<string>)
    requires forall i :: 0 <= i < |pieces| ==> 0 < |pieces[i]| <= 0xFFFF_FFFF_FFFF_FFFF
    ensures Sized(pieces, sizes)
  {
    sizes := [];
    if pieces != [] {
      var front := SizesFor(pieces[..|pieces| - 1]);
      var d := Numeral(|pieces[|pieces| - 1]|);
      sizes := front + [d];
    }
  }
}
