/** internal/runner/runner.go: the per-stream byte budget, kept as a head, a marker and a tail. */
module Limiter {
  import opened Ints
  import opened Text

  const MAX_STREAM_BYTES: nat := 0x10_0000
  const ELISION_MARKER: string := "\n...[fluffle: output truncated]...\n"
  const TAIL_BYTES: nat := MAX_STREAM_BYTES / 4
  const HEAD_BYTES: nat := MAX_STREAM_BYTES - TAIL_BYTES - |ELISION_MARKER|

  // ----- what the limiter is for, in terms of all the bytes pushed into it

  /** The last `n` bytes of `s`, all of them if there are fewer. */
  function LastBytes(s: string, n: nat): string {
    s[|s| - Min(|s|, n)..]
  }

  /** What is let through while the stream is still open. */
  function Passed(input: string): string {
    input[..Min(|input|, HEAD_BYTES)]
  }

  /** The whole transcript of a closed stream. */
  function Elide(input: string): string {
    if |input| <= HEAD_BYTES then input
    else input[..HEAD_BYTES] + ELISION_MARKER + LastBytes(input[HEAD_BYTES..], TAIL_BYTES)
  }

  /** What one push of `b` after `before` lets through. */
  function Emission(before: string, b: string): string {
    Passed(before + b)[|Passed(before)|..]
  }

  lemma PassedGrows(before: string, b: string)
    ensures Passed(before + b) == Passed(before) + Emission(before, b)
  {
    assert Passed(before) <= Passed(before + b);
  }

  /** What Seal adds after `before`. */
  function Sealing(before: string): string {
    Elide(before)[|Passed(before)|..]
  }

  lemma SealingCompletes(before: string)
    ensures Elide(before) == Passed(before) + Sealing(before)
  {
  }

  lemma SealingIs(before: string)
    ensures Sealing(before) ==
            if |before| > HEAD_BYTES then ELISION_MARKER + LastBytes(before[HEAD_BYTES..], TAIL_BYTES) else ""
  {
    if |before| > HEAD_BYTES {
      assert Elide(before) == before[..HEAD_BYTES] + (ELISION_MARKER + LastBytes(before[HEAD_BYTES..], TAIL_BYTES));
    }
    hide LastBytes;
  }

  /** Of a stream too long for its budget, the first bytes and the last are kept, and what is between is lost. */
  lemma ElideKeepsBothEnds(head: string, middle: string, tail: string)
    requires |head| == HEAD_BYTES && 0 < |tail| <= TAIL_BYTES && (middle != "" ==> |tail| == TAIL_BYTES)
    ensures Elide(head + middle + tail) == head + ELISION_MARKER + tail
  {
    var input := head + middle + tail;
    assert input[..HEAD_BYTES] == head && input[HEAD_BYTES..] == middle + tail;
    assert LastBytes(middle + tail, TAIL_BYTES) == tail;
  }

  /** The same of any output, by where the bytes are. */
  predicate KeepsBothEnds(input: string, out: string) {
    out == if |input| <= HEAD_BYTES then input
           else input[..HEAD_BYTES] + ELISION_MARKER + input[Max(HEAD_BYTES, |input| - TAIL_BYTES)..]
  }

  lemma ElideEnds(input: string)
    ensures KeepsBothEnds(input, Elide(input))
  {
    if |input| > HEAD_BYTES {
      var cut := Max(HEAD_BYTES, |input| - TAIL_BYTES);
      assert input == input[..HEAD_BYTES] + input[HEAD_BYTES..cut] + input[cut..];
      ElideKeepsBothEnds(input[..HEAD_BYTES], input[HEAD_BYTES..cut], input[cut..]);
    }
  }

  /** A transcript never exceeds the budget. */
  lemma ElideFits(input: string)
    ensures |Elide(input)| <= MAX_STREAM_BYTES
  {
  }

  /**
   The marker is inserted past HEAD_BYTES, but bytes are lost only past
   HEAD_BYTES + TAIL_BYTES: in between it splits a text that is all there.
   */
  lemma LossIff(input: string)
    requires |input| > HEAD_BYTES
    ensures Elide(input) == input[..HEAD_BYTES] + ELISION_MARKER + input[HEAD_BYTES..]
            <==> |input| <= HEAD_BYTES + TAIL_BYTES
  {
    var elided, whole := Elide(input), input[..HEAD_BYTES] + ELISION_MARKER + input[HEAD_BYTES..];
    if |input| <= HEAD_BYTES + TAIL_BYTES {
      assert elided == whole;
    } else {
      assert |elided| < |whole|;
    }
  }

  /** One byte past the head budget: the marker is there, and so is every byte. */
  lemma MarkerWithoutLoss()
    ensures
      var input := seq(HEAD_BYTES + 1, _ => 'x');
      && Elide(input) == input[..HEAD_BYTES] + ELISION_MARKER + input[HEAD_BYTES..]
      && Elide(input) != input
  {
    var input := seq(HEAD_BYTES + 1, _ => 'x');
    LossIff(input);
    assert |Elide(input)| > |input|;
  }

  /** The last bytes of a longer text are the last of its last bytes and the addition. */
  lemma LastBytesAppend(s: string, b: string, n: nat)
    ensures LastBytes(s + b, n) == LastBytes(LastBytes(s, n) + b, n)
  {
    if |s| + |b| <= n {
      assert LastBytes(s, n) == s;
    } else {
      var l, r := LastBytes(s + b, n), LastBytes(LastBytes(s, n) + b, n);
      assert |l| == |r| == n;
      forall i | 0 <= i < n
        ensures l[i] == r[i]
      {
        assert l[i] == (s + b)[|s| + |b| - n + i];
      }
    }
  }

  // The three places a push can fall: before, across and past the end of the head.

  lemma PushBefore(before: string, b: string)
    requires |before| + |b| <= HEAD_BYTES
    ensures Emission(before, b) == b
  {
    assert Passed(before) == before && Passed(before + b) == before + b;
  }

  lemma PushAcross(before: string, b: string)
    requires |before| <= HEAD_BYTES < |before| + |b|
    ensures Emission(before, b) == b[..HEAD_BYTES - |before|]
    ensures (before + b)[HEAD_BYTES..] == b[HEAD_BYTES - |before|..]
  {
  }

  lemma PushPast(before: string, b: string)
    requires |before| > HEAD_BYTES
    ensures Emission(before, b) == ""
    ensures (before + b)[HEAD_BYTES..] == before[HEAD_BYTES..] + b
  {
  }

  class Limiter {
    var head: nat
    var tail: string
    var overflow: bool
    var sealed: bool
    ghost var pushed: string

    ghost predicate Valid()
      reads this
    {
      && head == |Passed(pushed)|
      && (overflow <==> |pushed| > HEAD_BYTES)
      && tail == (if overflow then LastBytes(pushed[HEAD_BYTES..], TAIL_BYTES) else "")
    }

    constructor ()
      ensures Valid() && pushed == "" && !sealed
    {
      head, tail, overflow, sealed, pushed := 0, "", false, false, "";
    }

    /** Accepts `b` and returns what may be passed on at once; a sealed limiter drops it. */
    method Push(b: string) returns (out: string)
      requires Valid()
      modifies this
      ensures Valid() && sealed == old(sealed)
      ensures pushed == if sealed then old(pushed) else old(pushed) + b
      ensures out == if sealed then "" else Emission(old(pushed), b)
    {
      if sealed {
        return "";
      }
      pushed := pushed + b;
      if overflow {
        PushPast(old(pushed), b);
        LastBytesAppend(old(pushed)[HEAD_BYTES..], b, TAIL_BYTES);
        KeepTail(b);
        return "";
      }
      if |b| <= HEAD_BYTES - head {
        PushBefore(old(pushed), b);
        head := head + |b|;
        return b;
      }
      var room := HEAD_BYTES - head;
      head := HEAD_BYTES;
      overflow := true;
      PushAcross(old(pushed), b);
      assert "" + b[room..] == b[room..];
      KeepTail(b[room..]);
      return b[..room];
    }

    /** Slides the window `tail` over `b`. */
    method KeepTail(b: string)
      requires |tail| <= TAIL_BYTES
      modifies this`tail
      ensures tail == LastBytes(old(tail) + b, TAIL_BYTES)
      ensures tail == (old(tail) + b)[Max(0, |old(tail) + b| - TAIL_BYTES)..]
    {
      if |b| >= TAIL_BYTES {
        tail := b[|b| - TAIL_BYTES..];
        return;
      }
      var drop := |tail| + |b| - TAIL_BYTES;
      if drop > 0 {
        tail := tail[drop..];
      }
      tail := tail + b;
    }

    /** Closes the stream and returns what is still owed; a second call owes nothing. */
    method Seal() returns (out: string)
      requires Valid()
      modifies this`sealed
      ensures Valid() && sealed
      ensures out == if old(sealed) then "" else Sealing(pushed)
    {
      if sealed {
        return "";
      }
      sealed := true;
      SealingIs(pushed);
      hide Sealing, LastBytes;
      if !overflow {
        return "";
      }
      return ELISION_MARKER + tail;
    }
  }

  /**
   One stream read to its end, as the drain loop of internal/runner/exec.go does
   it: however the input is cut into reads, the chunks handed on are its elision.
   */
  method Drain(pieces: seq<string>) returns (chunks: seq<string>)
    ensures Flatten(chunks) == Elide(Flatten(pieces))
    ensures KeepsBothEnds(Flatten(pieces), Flatten(chunks))
    ensures NoneEmpty(chunks)
  {
    var lim := new Limiter();
    chunks := [];
    assert Flatten(chunks) == Passed(lim.pushed) && lim.pushed == Flatten(pieces[..0]);
    hide Flatten, Passed, Emission, Elide, Sealing, NoneEmpty, KeepsBothEnds;
    for i := 0 to |pieces|
      invariant lim.Valid() && !lim.sealed && fresh(lim)
      invariant lim.pushed == Flatten(pieces[..i])
      invariant Flatten(chunks) == Passed(lim.pushed)
      invariant NoneEmpty(chunks)
    {
      ghost var before := lim.pushed;
      var out := lim.Push(pieces[i]);
      FlattenNext(pieces, i);
      PassedGrows(before, pieces[i]);
      assert Flatten(chunks) + out == Passed(lim.pushed);
      chunks := Hand(chunks, out);
    }
    assert pieces[..|pieces|] == pieces;
    SealingCompletes(lim.pushed);
    ElideEnds(lim.pushed);
    var out := lim.Seal();
    chunks := Hand(chunks, out);
  }

  predicate NoneEmpty(chunks: seq<string>) {
    forall chunk | chunk in chunks :: chunk != ""
  }

  /** OnChunk is called with non-empty output only. */
  function Hand(chunks: seq<string>, out: string): (r: seq<string>)
    ensures Flatten(r) == Flatten(chunks) + out
    ensures NoneEmpty(chunks) ==> NoneEmpty(r)
  {
    if |out| > 0 then chunks + [out] else chunks
  }
}
