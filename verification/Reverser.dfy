/**
 AUDIO_IO_REVERSE::read_buffer (libecasound/audioio-reverse.cpp:180-245): blocks of the
 child are read from its end towards its beginning and turned round, each assembled from
 up to three child reads that may come back short.
 */
module Reverser {
  import opened Samples

  function Reverse(s: seq<real>): (r: seq<real>)
    ensures |r| == |s|
  {
    if s == [] then [] else Reverse(s[1..]) + [s[0]]
  }

  lemma {:induction false} ReverseAt(s: seq<real>, i: nat)
    requires i < |s|
    ensures Reverse(s)[i] == s[|s| - 1 - i]
  {
    if i < |s| - 1 {
      ReverseAt(s[1..], i);
    }
  }

  lemma {:induction false} ReverseConcat(a: seq<real>, b: seq<real>)
    ensures Reverse(a + b) == Reverse(b) + Reverse(a)
  {
    if a == [] {
      assert a + b == b;
    } else {
      assert (a + b)[1..] == a[1..] + b;
      ReverseConcat(a[1..], b);
    }
  }

  /** Two neighbouring stretches turned round are the whole stretch turned round, in the other order. */
  lemma ReverseSlices(data: seq<real>, a: nat, b: nat, c: nat)
    requires a <= b <= c <= |data|
    ensures Reverse(data[b..c]) + Reverse(data[a..b]) == Reverse(data[a..c])
  {
    ReverseConcat(data[a..b], data[b..c]);
    assert data[a..b] + data[b..c] == data[a..c];
  }

  lemma ReverseTail(data: seq<real>, a: nat, b: nat)
    requires a <= b <= |data|
    ensures Reverse(data[b..]) + Reverse(data[a..b]) == Reverse(data[a..])
  {
    ReverseSlices(data, a, b, |data|);
    assert data[b..|data|] == data[b..] && data[a..|data|] == data[a..];
  }

  /** A further piece goes in front of the part of a block that is already turned round. */
  lemma ReverseGrows(data: seq<real>, base: nat, mid: nat, end: nat, out: seq<real>, at: nat, seam: nat)
    requires base <= mid <= end <= |data| && at <= seam <= |out|
    requires out[at..seam] == Reverse(data[mid..end]) && out[seam..] == Reverse(data[base..mid])
    ensures out[at..] == Reverse(data[base..end])
  {
    ReverseSlices(data, base, mid, end);
    assert out[at..seam] + out[seam..] == out[at..];
  }

  /** The last `n` samples of `out` are `n` samples of the child from `base` on, turned round. */
  predicate Turned(data: seq<real>, base: nat, n: nat, out: seq<real>) {
    n <= |out| && base + n <= |data| && out[|out| - n..] == Reverse(data[base..base + n])
  }

  /** What is in front of the last `n` samples is as it was. */
  predicate SameFront(sbuf: seq<real>, out: seq<real>, n: nat) {
    n <= |out| == |sbuf| && out[..|out| - n] == sbuf[..|out| - n]
  }

  /** A block handed in as `given` that has got its last `n` samples. */
  predicate Assembled(data: seq<real>, base: nat, n: nat, given: seq<real>, out: seq<real>) {
    Turned(data, base, n, out) && SameFront(given, out, n)
  }

  lemma FrontStays(sbuf: seq<real>, before: seq<real>, out: seq<real>, m: nat, n: nat)
    requires m <= n && SameFront(sbuf, before, m) && SameFront(before, out, n)
    ensures SameFront(sbuf, out, n)
  {
    assert before[..|out| - n] == before[..|out| - m][..|out| - n];
    assert sbuf[..|out| - n] == sbuf[..|out| - m][..|out| - n];
  }

  /** Further reads bring no less. */
  lemma OfferedGrows(sizes: seq<nat>, buffersize: nat, i: nat, n: nat)
    requires i <= n <= |sizes|
    ensures Offered(sizes, buffersize, i) <= Offered(sizes, buffersize, n)
    decreases n - i
  {
    if i < n {
      OfferedGrows(sizes, buffersize, i, n - 1);
    }
  }

  lemma NothingTurned(data: seq<real>, base: nat, out: seq<real>)
    requires base <= |data|
    ensures Turned(data, base, 0, out)
  {
    assert out[|out|..] == [] && data[base..base] == [];
  }

  /** How many samples the first `n` child reads of these sizes can bring. */
  function Offered(sizes: seq<nat>, buffersize: nat, n: nat): nat
    requires n <= |sizes|
  {
    if n == 0 then 0 else Offered(sizes, buffersize, n - 1) + Min(sizes[n - 1], buffersize)
  }

  const MAX_LOOPS: nat := 3

  class Reverser {
    const data: seq<real>
    const buffersize: nat
    var childPos: nat
    var position: nat
    var finished: bool

    constructor (data: seq<real>, buffersize: nat)
      ensures this.data == data && this.buffersize == buffersize
      ensures childPos == 0 && position == 0 && !finished
    {
      this.data, this.buffersize := data, buffersize;
      childPos, position, finished := 0, 0, false;
    }

    /** A child read that may deliver fewer samples than asked for. */
    method ReadChild(size: nat) returns (tempbuf: seq<real>)
      requires childPos <= |data|
      modifies this`childPos
      ensures childPos == old(childPos) + |tempbuf| <= |data|
      ensures tempbuf == data[old(childPos)..childPos]
      ensures |tempbuf| == Min(Min(size, buffersize), |data| - old(childPos))
    {
      var n := Min(Min(size, buffersize), |data| - childPos);
      tempbuf := data[childPos..childPos + n];
      childPos := childPos + n;
    }

    /** The innermost loop: `tempbuf` backwards into `sbuf` from `at` on. */
    static method CopyReversed(sbuf: seq<real>, tempbuf: seq<real>, at: nat) returns (out: seq<real>)
      requires at + |tempbuf| <= |sbuf|
      ensures |out| == |sbuf| && out[..at] == sbuf[..at]
      ensures out[at..at + |tempbuf|] == Reverse(tempbuf) && out[at + |tempbuf|..] == sbuf[at + |tempbuf|..]
    {
      out := sbuf;
      var dst := at;
      for src := 0 to |tempbuf|
        invariant dst == at + src && |out| == |sbuf|
        invariant out[..at] == sbuf[..at] && out[dst..] == sbuf[dst..]
        invariant forall i :: 0 <= i < src ==> out[at..][i] == Reverse(tempbuf)[i]
      {
        ReverseAt(tempbuf, src);
        out := out[dst := tempbuf[|tempbuf| - src - 1]];
        dst := dst + 1;
      }
    }
  
    /** A child read of which no more than `room` samples are used. */
    method ReadAtMost(size: nat, room: nat) returns (tempbuf: seq<real>)
      requires childPos <= |data|
      modifies this`childPos
      ensures old(childPos) + |tempbuf| <= childPos <= |data| && |tempbuf| <= room
      ensures tempbuf == data[old(childPos)..old(childPos) + |tempbuf|]
      ensures |tempbuf| < room ==> old(childPos) + |tempbuf| == childPos
      ensures |tempbuf| == Min(Min(Min(size, buffersize), room), |data| - old(childPos))
    {
      tempbuf := ReadChild(size);
      if |tempbuf| > room {
        assert tempbuf[..room] == data[old(childPos)..old(childPos) + room];
        tempbuf := tempbuf[..room];
      }
    }

    /** One child read: what the block still lacks goes in front of what it already has. */
    method AddRead(sbuf: seq<real>, sofar: nat, size: nat, ghost base: nat, ghost given: seq<real>)
      returns (out: seq<real>, sofar': nat)
      requires base + sofar == childPos <= |data| && Assembled(data, base, sofar, given, sbuf)
      modifies this`childPos
      ensures sofar <= sofar' <= |given| && base + sofar' <= childPos <= |data|
      ensures Assembled(data, base, sofar', given, out)
      ensures sofar' < |given| ==> base + sofar' == childPos
      ensures sofar' == Min(Min(sofar + Min(size, buffersize), |given|), |data| - base)
    {
      var tempbuf := ReadAtMost(size, |sbuf| - sofar);
      var at := |sbuf| - sofar - |tempbuf|;
      out := CopyReversed(sbuf, tempbuf, at);
      sofar' := sofar + |tempbuf|;
      ReverseGrows(data, base, base + sofar, base + sofar', out, at, at + |tempbuf|);
      FrontStays(given, sbuf, out, sofar, sofar');
    }

    /** Phase 2: fill `sbuf` from its end, until the block is complete or the reads are used up. */
    method Assemble(sbuf: seq<real>, sizes: seq<nat>) returns (out: seq<real>, readSofar: nat)
      requires |sizes| == MAX_LOOPS && childPos <= |data|
      modifies this`childPos
      ensures Assembled(data, old(childPos), readSofar, sbuf, out)
      ensures readSofar == Min(Min(Offered(sizes, buffersize, MAX_LOOPS), |sbuf|), |data| - old(childPos))
    {
      ghost var base := childPos;
      out, readSofar := sbuf, 0;
      NothingTurned(data, base, out);
      for i := 0 to MAX_LOOPS
        invariant base + readSofar == childPos <= |data|
        invariant Assembled(data, base, readSofar, sbuf, out)
        invariant readSofar == Min(Min(Offered(sizes, buffersize, i), |sbuf|), |data| - base)
      {
        OfferedGrows(sizes, buffersize, i + 1, MAX_LOOPS);
        out, readSofar := AddRead(out, readSofar, sizes[i], base, sbuf);
        if readSofar >= |sbuf| {
          break;
        }
      }
    }

    /**
     `read_buffer`. A block that starts inside the child is the child's next `buffersize`
     samples from the end, turned round, if the child reads supply them. If not, what they
     supply is turned round at the end of the block, and the buffer handed in shows in front. The block that
     reaches the beginning has `-newpos` samples, which is the right number only if that
     is half the buffer size.
     */
    method ReadBuffer(sbuf: seq<real>, sizes: seq<nat>) returns (out: seq<real>)
      requires |sizes| == MAX_LOOPS && position <= |data|
      modifies this
      ensures var newpos := |data| - old(position) - buffersize;
              var supplied := Offered(sizes, buffersize, MAX_LOOPS) >= buffersize;
              if newpos > 0 then
                && finished == old(finished) && |out| == buffersize
                && (supplied <==> position == old(position) + buffersize)
                && (supplied ==> out == Reverse(data[newpos..newpos + buffersize]))
                && var got := Min(Offered(sizes, buffersize, MAX_LOOPS), buffersize);
                   position == old(position) + got && Turned(data, newpos, got, out)
                   && SameFront(Resized(sbuf, buffersize), out, got)
              else
                && finished && |out| == -newpos
                && (var got := Min(Min(Offered(sizes, buffersize, MAX_LOOPS), -newpos), |data|);
                    position == old(position) + got && Assembled(data, 0, got, Resized(sbuf, -newpos), out))
                && (supplied && -newpos <= |data| ==> out == Reverse(data[..-newpos]))
                && (supplied ==> (out == Reverse(data[..|data| - old(position)]) <==> 2 * (|data| - old(position)) == buffersize))
    {
      var readCount := buffersize;
      var curpos := position;
      var newpos := |data| - curpos - buffersize;
      if newpos <= 0 {
        childPos := 0;
        readCount := -newpos;
        finished := true;
      } else {
        childPos := newpos;
      }
      var readSofar;
      out, readSofar := Assemble(Resized(sbuf, readCount), sizes);
      assert out[|out| - |out|..] == out[0..] == out;
      position := curpos + readSofar;
    }
  
    /**
     Reading from the start until finished, each block `b` supplied by reads of `sizes[b]`: the whole is the child
     turned round exactly if what is left for the last block is half the buffer size.
     */
    method PlayAll(sbuf: seq<real>, sizes: seq<seq<nat>>) returns (stream: seq<real>, blocks: nat, rest: nat)
      requires position == 0 && !finished && buffersize > 0 && |sizes| > |data|
      requires forall b :: 0 <= b < |sizes| ==>
        |sizes[b]| == MAX_LOOPS && Offered(sizes[b], buffersize, MAX_LOOPS) >= buffersize
      modifies this
      ensures finished && |data| == blocks * buffersize + rest && rest <= buffersize && (rest == 0 ==> data == [])
      ensures Reverse(data[rest..]) <= stream
      ensures stream == Reverse(data) <==> 2 * rest == buffersize
    {
      stream, blocks, rest := [], 0, |data|;
      while |data| - position > buffersize
        invariant !finished && blocks <= position == |stream| == blocks * buffersize
        invariant rest == |data| - position >= 0 && stream == Reverse(data[rest..])
        invariant rest == 0 ==> data == []
        decreases |data| - position
      {
        var out := ReadBuffer(sbuf, sizes[blocks]);
        ReverseTail(data, rest - buffersize, rest);
        stream, blocks, rest := stream + out, blocks + 1, rest - buffersize;
        assert blocks * buffersize == (blocks - 1) * buffersize + buffersize;
      }
      var out := ReadBuffer(sbuf, sizes[blocks]);
      ReverseTail(data, 0, rest);
      assert data[0..] == data && data[0..rest] == data[..rest];
      stream := stream + out;
    }
  }
}
