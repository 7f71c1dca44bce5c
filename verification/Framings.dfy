/** sendFmt of the D server: fixed-size and NUL-delimited messages. */
module Framings {
  import opened Prelude

  datatype Format = Fixed | Delim

  predicate NulFree(s: string) { NUL !in s }

  function Nuls(n: nat): (s: string)
    ensures |s| == n && forall k | 0 <= k < n :: s[k] == NUL
  {
    seq(n, _ => NUL)
  }

  /** The recursion of sendFmt, cut off after fuel calls; the result is the list of strings sent. */
  function SendWithin(size: nat, fmt: Format, str: string, fuel: nat): Option<seq<string>> {
    match fmt
    case Delim => Some([str + [NUL]])
    case Fixed =>
      if |str| > size then
        if fuel == 0 then None
        else match SendWithin(size, Fixed, str[size..], fuel - 1)
          case None => None
          case Some(rest) => Some([str[..size]] + rest)
      else Some([str + Nuls(size - |str|)])
  }

  /** sendFmt, on the arguments on which it returns. */
  function Send(size: nat, fmt: Format, str: string): seq<string>
    requires fmt.Delim? || size >= 1 || str == []
    decreases |str|
  {
    match fmt
    case Delim => [str + [NUL]]
    case Fixed =>
      if |str| > size then [str[..size]] + Send(size, Fixed, str[size..])
      else [str + Nuls(size - |str|)]
  }

  lemma {:induction false} WithinIsSend(size: nat, fmt: Format, str: string, fuel: nat)
    requires size >= 1 || fmt.Delim? || str == []
    ensures SendWithin(size, fmt, str, fuel).Some? ==> SendWithin(size, fmt, str, fuel) == Some(Send(size, fmt, str))
    ensures fuel >= |str| ==> SendWithin(size, fmt, str, fuel).Some?
    decreases |str|
  {
    if fmt.Fixed? && |str| > size && fuel > 0 { WithinIsSend(size, fmt, str[size..], fuel - 1); }
  }

  lemma {:induction false} NeverReturns(str: string, fuel: nat)
    requires str != []
    ensures SendWithin(0, Fixed, str, fuel).None?
    decreases fuel
  {
    if fuel > 0 {
      assert str[0..] == str;
      NeverReturns(str, fuel - 1);
    }
  }

  /** sendFmt returns exactly when it is delimited, or has a buffer, or nothing to send. */
  lemma ReturnsIff(size: nat, fmt: Format, str: string)
    ensures (exists fuel: nat :: SendWithin(size, fmt, str, fuel).Some?) <==> fmt.Delim? || size >= 1 || str == []
  {
    if fmt.Delim? || size >= 1 || str == [] {
      WithinIsSend(size, fmt, str, |str|);
    } else {
      forall fuel: nat ensures SendWithin(size, fmt, str, fuel).None? { NeverReturns(str, fuel); }
    }
  }

  function Concat(bs: seq<string>): string {
    if bs == [] then [] else bs[0] + Concat(bs[1..])
  }

  lemma {:induction false} TextOfPadded(s: string, n: nat)
    requires NulFree(s)
    ensures UpToNul(s + Nuls(n)) == s
  {
    if s != [] {
      assert (s + Nuls(n))[1..] == s[1..] + Nuls(n);
      TextOfPadded(s[1..], n);
    } else {
      assert s + Nuls(n) == Nuls(n);
    }
  }

  /** What the receiver takes from the blocks: of each, everything before its first NUL. */
  function Texts(bs: seq<string>): (r: seq<string>) {
    seq(|bs|, k requires 0 <= k < |bs| => UpToNul(bs[k]))
  }

  /**
   * Fixed framing sends full blocks only, as many as are needed and at least one, which hold the
   * string followed by NULs; without the NULs they are the string again.
   */
  lemma {:induction false} FixedBlocks(size: nat, str: string)
    requires size >= 1
    ensures var bs := Send(size, Fixed, str);
      && (forall k | 0 <= k < |bs| :: |bs[k]| == size)
      && (|bs| - 1) * size <= |str| <= |bs| * size && |bs| >= 1
      && (str != [] ==> (|bs| - 1) * size < |str|)
      && Concat(bs) == str + Nuls(|bs| * size - |str|)
      && (NulFree(str) ==> Concat(Texts(bs)) == str)
    decreases |str|
  {
    var bs := Send(size, Fixed, str);
    if |str| > size {
      var head, rest := str[..size], str[size..];
      FixedBlocks(size, rest);
      var more := Send(size, Fixed, rest);
      assert bs == [head] + more && bs[1..] == more;
      assert |bs| * size == |more| * size + size;
      assert Texts(bs)[1..] == Texts(more);
      assert head + rest == str;
      if NulFree(str) {
        TextOfPadded(head, 0);
        assert head + Nuls(0) == head;
      }
    } else {
      assert bs[1..] == [] && Texts(bs)[1..] == [];
      if NulFree(str) { TextOfPadded(str, size - |str|); }
    }
  }

  // Streams of messages -----------------------------------------------------------------------------------

  /** Everything sent for a list of messages. */
  function Stream(size: nat, fmt: Format, msgs: seq<string>): seq<string>
    requires fmt.Delim? || size >= 1
  {
    if msgs == [] then [] else Send(size, fmt, msgs[0]) + Stream(size, fmt, msgs[1..])
  }

  predicate AllNulFree(msgs: seq<string>) { forall k | 0 <= k < |msgs| :: NulFree(msgs[k]) }

  /** The receiver of a delimited stream: it cuts the bytes at every NUL. */
  function Split(bytes: string, part: string): seq<string> {
    if bytes == [] then []
    else if bytes[0] == NUL then [part] + Split(bytes[1..], [])
    else Split(bytes[1..], part + [bytes[0]])
  }

  lemma {:induction false} SplitMessage(msg: string, rest: string, part: string)
    requires NulFree(msg)
    ensures Split(msg + [NUL] + rest, part) == [part + msg] + Split(rest, [])
    decreases |msg|
  {
    var bytes := msg + [NUL] + rest;
    if msg == [] {
      assert bytes[1..] == rest && part + msg == part;
    } else {
      assert bytes[1..] == msg[1..] + [NUL] + rest;
      SplitMessage(msg[1..], rest, part + [msg[0]]);
      assert part + [msg[0]] + msg[1..] == part + msg;
    }
  }

  /** Delimited framing is decoded exactly: cutting the bytes at the NULs gives back every message. */
  lemma {:induction false} DelimRoundTrip(msgs: seq<string>)
    requires AllNulFree(msgs)
    ensures Split(Concat(Stream(0, Delim, msgs)), []) == msgs
  {
    if msgs != [] {
      DelimRoundTrip(msgs[1..]);
      var rest := Stream(0, Delim, msgs[1..]);
      assert Stream(0, Delim, msgs)[1..] == rest;
      SplitMessage(msgs[0], Concat(rest), []);
      assert [] + msgs[0] == msgs[0];
    }
  }

  /** The receiver of a fixed stream: it cuts the bytes into blocks and takes the text of each. */
  function Chop(size: nat, bytes: string): seq<string>
    requires size >= 1
  {
    if |bytes| < size then [] else [bytes[..size]] + Chop(size, bytes[size..])
  }

  lemma {:induction false} ChopBlocks(size: nat, bs: seq<string>)
    requires size >= 1 && forall k | 0 <= k < |bs| :: |bs[k]| == size
    ensures Chop(size, Concat(bs)) == bs
  {
    if bs != [] {
      ChopBlocks(size, bs[1..]);
      assert Concat(bs)[..size] == bs[0] && Concat(bs)[size..] == Concat(bs[1..]);
    }
  }

  lemma {:induction false} StreamBlocks(size: nat, msgs: seq<string>)
    requires size >= 1
    ensures forall k | 0 <= k < |Stream(size, Fixed, msgs)| :: |Stream(size, Fixed, msgs)[k]| == size
  {
    if msgs != [] {
      FixedBlocks(size, msgs[0]);
      StreamBlocks(size, msgs[1..]);
    }
  }

  lemma {:induction false} TextsOfStream(size: nat, msgs: seq<string>)
    requires size >= 1 && AllNulFree(msgs) && forall k | 0 <= k < |msgs| :: |msgs[k]| <= size
    ensures Texts(Stream(size, Fixed, msgs)) == msgs
  {
    if msgs != [] {
      TextsOfStream(size, msgs[1..]);
      TextOfPadded(msgs[0], size - |msgs[0]|);
      var bs := Stream(size, Fixed, msgs);
      assert bs[0] == msgs[0] + Nuls(size - |msgs[0]|) && bs[1..] == Stream(size, Fixed, msgs[1..]);
      assert Texts(bs) == [UpToNul(bs[0])] + Texts(bs[1..]);
    }
  }

  /** Fixed framing is decoded exactly when every message fits one block. */
  lemma FixedRoundTrip(size: nat, msgs: seq<string>)
    requires size >= 1 && AllNulFree(msgs) && forall k | 0 <= k < |msgs| :: |msgs[k]| <= size
    ensures Texts(Chop(size, Concat(Stream(size, Fixed, msgs)))) == msgs
  {
    StreamBlocks(size, msgs);
    ChopBlocks(size, Stream(size, Fixed, msgs));
    TextsOfStream(size, msgs);
  }

  // When a fixed stream can be read in only one way ---------------------------------------------------------

  ghost predicate ReadOneWay(size: nat, msgs: seq<string>)
    requires size >= 1
  {
    forall other | AllNulFree(other) && Stream(size, Fixed, other) == Stream(size, Fixed, msgs) :: other == msgs
  }

  /** No message is longer than a block, and one that fills its block is last or followed by an empty one. */
  predicate Unmistakable(size: nat, msgs: seq<string>) {
    forall k | 0 <= k < |msgs| :: |msgs[k]| <= size && (|msgs[k]| == size && k + 1 < |msgs| ==> msgs[k + 1] == [])
  }

  lemma {:induction false} StreamAppend(size: nat, a: seq<string>, b: seq<string>)
    requires size >= 1
    ensures Stream(size, Fixed, a + b) == Stream(size, Fixed, a) + Stream(size, Fixed, b)
  {
    if a == [] {
      assert a + b == b;
    } else {
      assert (a + b)[1..] == a[1..] + b;
      StreamAppend(size, a[1..], b);
    }
  }

  /** Two lists of messages that are sent alike may be exchanged inside a longer list. */
  lemma Exchange(size: nat, before: seq<string>, a: seq<string>, b: seq<string>, after: seq<string>)
    requires size >= 1 && Stream(size, Fixed, a) == Stream(size, Fixed, b)
    ensures Stream(size, Fixed, before + a + after) == Stream(size, Fixed, before + b + after)
  {
    StreamAppend(size, before + a, after); StreamAppend(size, before, a);
    StreamAppend(size, before + b, after); StreamAppend(size, before, b);
  }

  /** A full block followed by something is sent like one longer message. */
  lemma SentAlike(size: nat, head: string, rest: string)
    requires size >= 1 && |head| == size && rest != []
    ensures Stream(size, Fixed, [head, rest]) == Stream(size, Fixed, [head + rest])
  {
    assert (head + rest)[..size] == head && (head + rest)[size..] == rest;
    assert head + Nuls(0) == head;
    assert [head, rest][1..] == [rest] && [rest][1..] == [] && [head + rest][1..] == [];
    assert Stream(size, Fixed, [rest]) == Send(size, Fixed, rest) + Stream(size, Fixed, []);
    assert Stream(size, Fixed, [head, rest]) == Send(size, Fixed, head) + Stream(size, Fixed, [rest]);
    assert Stream(size, Fixed, [head + rest]) == Send(size, Fixed, head + rest) + Stream(size, Fixed, []);
  }

  lemma LongIsAmbiguous(size: nat, before: seq<string>, msg: string, after: seq<string>)
    requires size >= 1 && AllNulFree(before + [msg] + after) && |msg| > size
    ensures !ReadOneWay(size, before + [msg] + after)
  {
    var head, rest := msg[..size], msg[size..];
    assert head + rest == msg && (before + [msg] + after)[|before|] == msg;
    SentAlike(size, head, rest);
    Exchange(size, before, [head, rest], [msg], after);
    StillNulFree(before, [msg], [head, rest], after);
    assert |before + [head, rest] + after| != |before + [msg] + after|;
  }

  lemma PairIsAmbiguous(size: nat, before: seq<string>, head: string, rest: string, after: seq<string>)
    requires size >= 1 && AllNulFree(before + [head, rest] + after) && |head| == size && rest != []
    ensures !ReadOneWay(size, before + [head, rest] + after)
  {
    var msgs := before + [head, rest] + after;
    assert msgs[|before|] == head && msgs[|before| + 1] == rest;
    SentAlike(size, head, rest);
    Exchange(size, before, [head, rest], [head + rest], after);
    StillNulFree(before, [head, rest], [head + rest], after);
    assert |before + [head + rest] + after| != |msgs|;
  }

  lemma StillNulFree(before: seq<string>, a: seq<string>, b: seq<string>, after: seq<string>)
    requires AllNulFree(before + a + after) && AllNulFree(b)
    ensures AllNulFree(before + b + after)
  {
    forall k | 0 <= k < |before + b + after| ensures NulFree((before + b + after)[k]) {
      assert k < |before| ==> (before + b + after)[k] == (before + a + after)[k];
      assert k >= |before| + |b| ==> (before + b + after)[k] == (before + a + after)[k - |b| + |a|];
    }
  }

  lemma AmbiguousOtherwise(size: nat, msgs: seq<string>)
    requires size >= 1 && AllNulFree(msgs) && !Unmistakable(size, msgs)
    ensures !ReadOneWay(size, msgs)
  {
    var k :| 0 <= k < |msgs| && !(|msgs[k]| <= size && (|msgs[k]| == size && k + 1 < |msgs| ==> msgs[k + 1] == []));
    if |msgs[k]| > size {
      assert msgs == msgs[..k] + [msgs[k]] + msgs[k + 1..];
      LongIsAmbiguous(size, msgs[..k], msgs[k], msgs[k + 1..]);
    } else {
      assert msgs == msgs[..k] + [msgs[k], msgs[k + 1]] + msgs[k + 2..];
      PairIsAmbiguous(size, msgs[..k], msgs[k], msgs[k + 1], msgs[k + 2..]);
    }
  }

  lemma {:induction false} OnlyReading(size: nat, msgs: seq<string>, other: seq<string>)
    requires size >= 1 && AllNulFree(msgs) && AllNulFree(other) && Unmistakable(size, msgs)
    requires Stream(size, Fixed, other) == Stream(size, Fixed, msgs)
    ensures other == msgs
  {
    if msgs == [] || other == [] {
    } else {
      FirstMessage(size, msgs, other);
      assert Stream(size, Fixed, other)[1..] == Stream(size, Fixed, other[1..]);
      assert Stream(size, Fixed, msgs)[1..] == Stream(size, Fixed, msgs[1..]);
      OnlyReading(size, msgs[1..], other[1..]);
      assert msgs == [msgs[0]] + msgs[1..] && other == [other[0]] + other[1..];
    }
  }

  /** The blocks begin with a full one followed by a non-empty one. */
  predicate Continues(bs: seq<string>) {
    |bs| > 1 && NulFree(bs[0]) && bs[1] != [] && bs[1][0] != NUL
  }

  lemma LongContinues(size: nat, msgs: seq<string>)
    requires size >= 1 && AllNulFree(msgs) && msgs != [] && |msgs[0]| > size
    ensures Continues(Stream(size, Fixed, msgs))
  {
    var m := msgs[0];
    var more := Send(size, Fixed, m[size..]);
    assert Send(size, Fixed, m) == [m[..size]] + more;
    assert Stream(size, Fixed, msgs)[0] == m[..size] && Stream(size, Fixed, msgs)[1] == more[0];
    assert more[0][0] == m[size];
  }

  lemma UnmistakableStops(size: nat, msgs: seq<string>)
    requires size >= 1 && AllNulFree(msgs) && Unmistakable(size, msgs) && msgs != []
    ensures !Continues(Stream(size, Fixed, msgs))
  {
    var m, bs := msgs[0], Stream(size, Fixed, msgs);
    assert bs[0] == m + Nuls(size - |m|) && bs[1..] == Stream(size, Fixed, msgs[1..]);
    if |m| < size {
      assert bs[0][size - 1] == NUL;
    } else if |msgs| > 1 {
      assert bs[1] == Nuls(size);
    }
  }

  /** The first message is determined: a longer one would need a non-empty block where there is none. */
  lemma FirstMessage(size: nat, msgs: seq<string>, other: seq<string>)
    requires size >= 1 && AllNulFree(msgs) && AllNulFree(other) && Unmistakable(size, msgs) && msgs != [] && other != []
    requires Stream(size, Fixed, other) == Stream(size, Fixed, msgs)
    ensures other[0] == msgs[0]
  {
    UnmistakableStops(size, msgs);
    if |other[0]| > size {
      LongContinues(size, other);
      assert false;
    }
    var m, o := msgs[0], other[0];
    assert Stream(size, Fixed, msgs)[0] == m + Nuls(size - |m|) && Stream(size, Fixed, other)[0] == o + Nuls(size - |o|);
    TextOfPadded(m, size - |m|);
    TextOfPadded(o, size - |o|);
  }

  /** The exact limit of fixed framing: a stream has one reading if and only if it is unmistakable. */
  lemma ReadOneWayIff(size: nat, msgs: seq<string>)
    requires size >= 1 && AllNulFree(msgs)
    ensures ReadOneWay(size, msgs) <==> Unmistakable(size, msgs)
  {
    if Unmistakable(size, msgs) {
      forall other | AllNulFree(other) && Stream(size, Fixed, other) == Stream(size, Fixed, msgs) ensures other == msgs {
        OnlyReading(size, msgs, other);
      }
    } else {
      AmbiguousOtherwise(size, msgs);
    }
  }
}
