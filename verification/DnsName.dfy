/** src/dns.c: names on the wire, as in sections 2.3.4, 3.1 and 4.1.4 of RFC 1035. */
module DnsName {
  import opened Bytes

  type Label = seq<U8>

  const DOT: U8 := 46
  const MAX_LABELS: nat := 127

  // --------------------------------------------------------------------------- labels

  predicate GoodLabel(l: Label) {
    1 <= |l| <= 63
  }

  predicate GoodLabels(ls: seq<Label>) {
    forall i :: 0 <= i < |ls| ==> GoodLabel(ls[i])
  }

  /** Length byte and bytes of each label. */
  function EncodeLabels(ls: seq<Label>): seq<U8>
    requires GoodLabels(ls)
  {
    if ls == [] then [] else [|ls[0]|] + ls[0] + EncodeLabels(ls[1..])
  }

  /** A host name split at its dots; never empty. */
  function Split(s: seq<U8>): (ls: seq<Label>)
    ensures |ls| > 0
  {
    if s == [] then [[]]
    else
      var ls := Split(s[1..]);
      if s[0] == DOT then [[]] + ls else [[s[0]] + ls[0]] + ls[1..]
  }

  function Join(ls: seq<Label>): seq<U8>
    requires |ls| > 0
  {
    if |ls| == 1 then ls[0] else ls[0] + [DOT] + Join(ls[1..])
  }

  lemma {:induction false} JoinSplit(s: seq<U8>)
    ensures Join(Split(s)) == s
  {
    if s != [] {
      var ls := Split(s[1..]);
      JoinSplit(s[1..]);
      if s[0] == DOT {
        assert ([[]] + ls)[1..] == ls;
        assert Join([[]] + ls) == [] + [DOT] + Join(ls);
      } else {
        var ms := [[s[0]] + ls[0]] + ls[1..];
        assert ms[1..] == ls[1..];
        assert Join(ms) == [s[0]] + Join(ls);
      }
    }
  }

  /** A dot-free run that reaches a dot, or the end, is the first label. */
  lemma {:induction false} SplitRun(s: seq<U8>, i: nat)
    requires i <= |s| && DOT !in s[..i]
    ensures i == |s| ==> Split(s) == [s]
    ensures i < |s| && s[i] == DOT ==> Split(s) == [s[..i]] + Split(s[i + 1..])
  {
    if i > 0 {
      assert s[0] == s[..i][0];
      assert s[1..][..i - 1] == s[..i][1..];
      SplitRun(s[1..], i - 1);
      assert s == [s[0]] + s[1..];
      if i < |s| {
        assert s[1..][i..] == s[i + 1..];
        assert s[..i] == [s[0]] + s[1..][..i - 1];
      }
    }
  }

  /** A host name is split at every full stop, and nowhere else. */
  lemma SplitAtStops(a: seq<U8>, b: seq<U8>)
    requires 46 !in a
    ensures Split(a) == [a]
    ensures Split(a + [46] + b) == [a] + Split(b)
  {
    var s := a + [46] + b;
    assert s[..|a|] == a && s[|a| + 1..] == b && a[..|a|] == a;
    SplitRun(a, |a|);
    SplitRun(s, |a|);
  }

  lemma {:induction false} EncodedConcat(a: seq<Label>, b: seq<Label>)
    requires GoodLabels(a) && GoodLabels(b)
    ensures GoodLabels(a + b) && EncodeLabels(a + b) == EncodeLabels(a) + EncodeLabels(b)
  {
    if a == [] {
      assert a + b == b;
    } else {
      EncodedConcat(a[1..], b);
      assert (a + b)[0] == a[0] && (a + b)[1..] == a[1..] + b;
      Regrouped([|a[0]|] + a[0], EncodeLabels(a[1..]), EncodeLabels(b));
    }
  }

  lemma Regrouped(a: seq<U8>, b: seq<U8>, c: seq<U8>)
    ensures a + (b + c) == a + b + c
  {
  }

  /** The encoding is one byte longer than the dotted name, and a label takes at least two of those. */
  lemma {:induction false} EncodedSize(ls: seq<Label>)
    requires |ls| > 0 && GoodLabels(ls)
    ensures |EncodeLabels(ls)| == |Join(ls)| + 1
    ensures 2 * |ls| <= |EncodeLabels(ls)|
  {
    if |ls| > 1 {
      EncodedSize(ls[1..]);
    } else {
      assert EncodeLabels(ls[1..]) == [];
    }
  }

  // -------------------------------------------------------------------------- skipping

  /** dns_skip_name from `pos`, with `seen` labels behind it. */
  function SkipFrom(data: seq<U8>, pos: nat, seen: nat): (r: Option<nat>)
    ensures r.Some? ==> pos < r.value <= |data|
    decreases |data| - pos
  {
    if pos >= |data| then None
    else
      var length := data[pos];
      if length >= 0xC0 then (if pos + 1 >= |data| then None else Some(pos + 2))
      else if length >= 0x40 then None
      else if length == 0 then Some(pos + 1)
      else if pos + 1 + length > |data| then None
      else if seen + 1 > MAX_LABELS then None
      else SkipFrom(data, pos + 1 + length, seen + 1)
  }

  /** dns_skip_name: every read is inside the data, and a name that is skipped is not empty. */
  method SkipName(data: seq<U8>, offset: nat) returns (r: Option<nat>)
    ensures r == SkipFrom(data, offset, 0)
  {
    if offset >= |data| {
      return None;
    }
    var pos, labelsSeen := offset, 0;
    while pos < |data|
      invariant offset <= pos <= |data|
      invariant SkipFrom(data, pos, labelsSeen) == SkipFrom(data, offset, 0)
    {
      var length := data[pos];
      if length / 0x40 == 3 {
        if pos + 1 >= |data| {
          return None;
        }
        return Some(pos + 2);
      }
      if length / 0x40 != 0 {
        return None;
      }
      pos := pos + 1;
      if length == 0 {
        return Some(pos);
      }
      if length > 63 || pos + length > |data| {
        return None;
      }
      pos := pos + length;
      labelsSeen := labelsSeen + 1;
      if labelsSeen > MAX_LABELS {
        return None;
      }
    }
    return None;
  }

  /** What ends a name: the root, or a compression pointer. */
  predicate Terminator(t: seq<U8>) {
    t == [0] || (|t| == 2 && t[0] >= 0xC0)
  }

  /** The grammar of a name: at most `room` labels, then a terminator. */
  predicate NameOf(bytes: seq<U8>, ls: seq<Label>, t: seq<U8>, room: int) {
    GoodLabels(ls) && |ls| <= room && Terminator(t) && bytes == EncodeLabels(ls) + t
  }

  /** A name by the grammar, followed by anything, is skipped to its end. */
  lemma {:induction false} GrammarIsSkipped(data: seq<U8>, pos: nat, end: nat, seen: nat, ls: seq<Label>, t: seq<U8>)
    requires pos <= end <= |data| && seen <= 127
    requires NameOf(data[pos..end], ls, t, 127 - seen)
    ensures SkipFrom(data, pos, seen) == Some(end)
    decreases |ls|
  {
    var bytes := data[pos..end];
    if ls == [] {
      assert bytes == t && data[pos] == t[0];
    } else {
      var l := ls[0];
      assert bytes == [|l|] + l + (EncodeLabels(ls[1..]) + t);
      assert data[pos] == |l|;
      var next := pos + 1 + |l|;
      assert data[next..end] == bytes[1 + |l|..] == EncodeLabels(ls[1..]) + t;
      GrammarIsSkipped(data, next, end, seen + 1, ls[1..], t);
    }
  }

  /** And what is skipped is a name by the grammar: these are its labels and its terminator. */
  lemma {:induction false} SkippedIsGrammar(data: seq<U8>, pos: nat, seen: nat) returns (ls: seq<Label>, t: seq<U8>)
    requires SkipFrom(data, pos, seen).Some? && seen <= 127
    ensures NameOf(data[pos..SkipFrom(data, pos, seen).value], ls, t, 127 - seen)
    decreases |data| - pos
  {
    var end := SkipFrom(data, pos, seen).value;
    var length := data[pos];
    if length >= 0xC0 || length == 0 {
      ls, t := [], data[pos..end];
      assert EncodeLabels([]) + t == t;
    } else {
      var next := pos + 1 + length;
      var l := data[pos + 1..next];
      var more;
      more, t := SkippedIsGrammar(data, next, seen + 1);
      ls := [l] + more;
      assert ls[1..] == more;
      assert data[pos..end] == [length] + l + data[next..end];
    }
  }

  // -------------------------------------------------------------------------- decoding

  /** The labels of an uncompressed name. */
  function DecodeLabels(data: seq<U8>, pos: nat): seq<Label>
    decreases |data| - pos
  {
    if pos >= |data| || data[pos] == 0 || pos + 1 + data[pos] as int > |data| then []
    else [data[pos + 1..pos + 1 + data[pos] as int]] + DecodeLabels(data, pos + 1 + data[pos] as int)
  }

  lemma {:induction false} DecodeEncoded(data: seq<U8>, pos: nat, ls: seq<Label>)
    requires GoodLabels(ls) && pos <= |data| && EncodeLabels(ls) + [0] <= data[pos..]
    ensures DecodeLabels(data, pos) == ls
    decreases |ls|
  {
    var rest := data[pos..];
    if ls == [] {
      assert rest[0] == ([] + [0])[0];
    } else {
      var l := ls[0];
      var next := pos + 1 + |l|;
      assert EncodeLabels(ls) + [0] == [|l|] + l + (EncodeLabels(ls[1..]) + [0]);
      assert rest[0] == |l| && rest[1..1 + |l|] == l;
      assert data[pos + 1..next] == rest[1..1 + |l|];
      assert data[next..] == rest[1 + |l|..];
      DecodeEncoded(data, next, ls[1..]);
    }
  }
}
