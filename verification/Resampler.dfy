/**
 AUDIO_IO_RESAMPLE::read_buffer (libecasound/audioio-resample.cpp:304-423). Resampled
 child blocks rarely have the size asked for; what does not fit the target is kept for
 the next call. The child and the resampling step together are a given list of blocks.
 */
module Resampler {
  import opened Sequences
  import opened Samples

  /** One child read after resampling, and whether it carries the end-of-stream tag. */
  datatype Chunk = Chunk(samples: seq<real>, endTag: bool)

  function Flat(chunks: seq<Chunk>): seq<real> {
    if chunks == [] then [] else chunks[0].samples + Flat(chunks[1..])
  }

  lemma {:induction false} FlatAppend(a: seq<Chunk>, c: Chunk)
    ensures Flat(a + [c]) == Flat(a) + c.samples
  {
    if a == [] {
      assert [c][1..] == [] && a + [c] == [c];
      assert Flat([c]) == c.samples + Flat([]);
    } else {
      assert (a + [c])[1..] == a[1..] + [c];
      FlatAppend(a[1..], c);
    }
  }

  lemma {:induction false} FlatSplit(s: seq<Chunk>, k: nat)
    requires k <= |s|
    ensures Flat(s) == Flat(s[..k]) + Flat(s[k..])
  {
    if k == 0 {
      assert s[..k] == [] && s[k..] == s;
    } else {
      FlatSplit(s[1..], k - 1);
      assert s[..k][1..] == s[1..][..k - 1] && s[k..] == s[1..][k - 1..];
    }
  }

  /** Of the blocks read from `from` up to `next`, to come behind `at` samples, all but the last left room and went on. */
  predicate Needed(chunks: seq<Chunk>, from: nat, next: nat, at: nat, buffersize: nat)
    requires next <= |chunks|
  {
    from < next ==>
      at + |Flat(chunks[from..next - 1])| < buffersize && forall i :: from <= i < next - 1 ==> !chunks[i].endTag
  }

  lemma NeededStep(chunks: seq<Chunk>, from: nat, was: nat, next: nat, at: nat, pos: nat, buffersize: nat)
    requires from <= was <= next <= was + 1 && next <= |chunks|
    requires Needed(chunks, from, was, at, buffersize) && (from < was ==> !chunks[was - 1].endTag)
    requires at + |Flat(chunks[from..was])| == pos < buffersize
    ensures Needed(chunks, from, next, at, buffersize)
  {
  }

  /**
   `out` holds the first `at` samples of `given`, then, up to `pos`, the blocks from `from`
   up to `next`, of which what is too much is the leftover.
   */
  predicate Filling(chunks: seq<Chunk>, from: nat, next: nat, given: seq<real>, at: nat, out: seq<real>, pos: nat,
                    leftover: seq<real>, buffersize: nat)
    requires next <= |chunks|
  {
    && from <= next && at <= pos <= |out| == |given| == buffersize
    && out[..at] == given[..at] && out[at..pos] + leftover == Flat(chunks[from..next])
    && Needed(chunks, from, next, at, buffersize)
  }

  lemma NothingRead(chunks: seq<Chunk>, next: nat, given: seq<real>, at: nat, buffersize: nat)
    requires next <= |chunks| && at <= |given| == buffersize
    ensures Filling(chunks, next, next, given, at, given, at, [], buffersize)
  {
    assert chunks[next..next] == [];
  }

  class Resampler {
    const buffersize: nat
    const chunks: seq<Chunk>
    var next: nat
    var leftover: seq<real>
    var position: nat

    constructor (buffersize: nat, chunks: seq<Chunk>)
      ensures this.buffersize == buffersize && this.chunks == chunks
      ensures next == 0 && leftover == [] && position == 0
    {
      this.buffersize, this.chunks := buffersize, chunks;
      next, leftover, position := 0, [], 0;
    }

    /** Every child read brings at least one sample or says that the stream has ended. */
    predicate Productive() {
      forall i :: 0 <= i < |chunks| ==> |chunks[i].samples| > 0 || chunks[i].endTag
    }

    /** No resampled block is longer than the target. */
    predicate BlocksFit() {
      forall i :: 0 <= i < |chunks| ==> |chunks[i].samples| <= buffersize
    }

    /** None of the first `n` child reads says that the stream has ended, and there are more. */
    predicate GoesOn(n: nat) {
      n < |chunks| && forall i :: 0 <= i < n ==> !chunks[i].endTag
    }

    /** The last child read said that the stream has ended. */
    predicate SawEnd()
      requires next <= |chunks|
      reads this
    {
      next == |chunks| || (next > 0 && chunks[next - 1].endTag)
    }

    /** The resampled samples read since the child stood at block `from`. */
    function ReadSince(from: nat): seq<real>
      requires from <= next <= |chunks|
      reads this
    {
      Flat(chunks[from..next])
    }

    method ReadChild() returns (c: Chunk)
      requires next <= |chunks|
      modifies this`next
      ensures old(next) <= next <= |chunks|
      ensures if old(next) < |chunks| then next == old(next) + 1 && c == chunks[old(next)]
              else next == old(next) && c == Chunk([], true)
      ensures forall from :: 0 <= from <= old(next) ==> ReadSince(from) == Flat(chunks[from..old(next)]) + c.samples
    {
      if next < |chunks| {
        c := chunks[next];
        forall from | 0 <= from <= next
          ensures Flat(chunks[from..next + 1]) == Flat(chunks[from..next]) + c.samples
        {
          FlatAppend(chunks[from..next], c);
          assert chunks[from..next + 1] == chunks[from..next] + [c];
        }
        next := next + 1;
      } else {
        c := Chunk([], true);
      }
    }

    /** One pass of the loop: a child block goes into the target, what is too much into the leftover. */
    method CopyBlock(dst: seq<real>, at: nat) returns (out: seq<real>, at': nat, endTag: bool)
      requires next <= |chunks| && Productive() && leftover == [] && at < |dst| == buffersize
      modifies this`next, this`leftover
      ensures old(next) <= next <= |chunks| && at <= at' <= |out| == buffersize
      ensures next == Min(old(next) + 1, |chunks|)
      ensures endTag <==> old(next) == |chunks| || chunks[old(next)].endTag
      ensures forall from :: 0 <= from <= old(next) ==>
        ReadSince(from) == Flat(chunks[from..old(next)]) + (out[at..at'] + leftover)
      ensures out[..at] == dst[..at]
      ensures at' < buffersize ==> leftover == [] && (endTag || at < at')
      ensures endTag ==> SawEnd()
      ensures BlocksFit() ==> |leftover| < buffersize
    {
      var srcToCopy := buffersize - at;
      var sbuf := ReadChild();
      if |sbuf.samples| < srcToCopy {
        srcToCopy := |sbuf.samples|;
      }
      CopyRangeFits(dst, sbuf.samples, 0, srcToCopy, at);
      out := CopyRange(dst, sbuf.samples, 0, srcToCopy, at);
      at' := at + srcToCopy;
      endTag := sbuf.endTag;
      if |sbuf.samples| > srcToCopy {
        leftover := Resized(leftover, |sbuf.samples| - srcToCopy);
        CopyRangeFits(leftover, sbuf.samples, srcToCopy, |sbuf.samples|, 0);
        leftover := CopyRange(leftover, sbuf.samples, srcToCopy, |sbuf.samples|, 0);
        assert leftover == leftover[0..|leftover|];
      }
      assert out[at..at'] + leftover == sbuf.samples;
    }

    /** One pass within the loop: the blocks read since `from` keep standing behind the first `at` samples of `given`. */
    method FillStep(dst: seq<real>, pos: nat, ghost from: nat, ghost at: nat, ghost given: seq<real>)
      returns (out: seq<real>, pos': nat, endTag: bool)
      requires next <= |chunks| && Productive() && leftover == [] && pos < buffersize
      requires Filling(chunks, from, next, given, at, dst, pos, leftover, buffersize)
      requires from < next ==> !chunks[next - 1].endTag
      modifies this`next, this`leftover
      ensures next <= |chunks| && Filling(chunks, from, next, given, at, out, pos', leftover, buffersize)
      ensures pos' < buffersize ==> leftover == [] && (endTag || pos < pos')
      ensures if endTag then SawEnd() else from < next && !chunks[next - 1].endTag
      ensures BlocksFit() ==> |leftover| < buffersize
    {
      ghost var was := next;
      out, pos', endTag := CopyBlock(dst, pos);
      NeededStep(chunks, from, was, next, at, pos, buffersize);
      Joined(dst, out, at, pos, pos', ReadSince(from), Flat(chunks[from..was]), leftover);
    }

    /** The loop: child blocks until the target is full or the stream ends. */
    method FillRest(dst: seq<real>, at: nat) returns (out: seq<real>)
      requires next <= |chunks| && Productive() && leftover == [] && at <= |dst| == buffersize && buffersize > 0
      modifies this`next, this`leftover
      ensures old(next) <= next <= |chunks| && at <= |out| <= buffersize
      ensures Needed(chunks, old(next), next, at, buffersize) && (at == buffersize ==> next == old(next))
      ensures |out| < buffersize ==> SawEnd()
      ensures out[..at] == dst[..at] && out[at..] + leftover == ReadSince(old(next))
      ensures BlocksFit() ==> |leftover| < buffersize
    {
      out := dst;
      var pos := at;
      NothingRead(chunks, next, dst, at, buffersize);
      while pos < buffersize
        invariant next <= |chunks| && Filling(chunks, old(next), next, dst, at, out, pos, leftover, buffersize)
        invariant at == buffersize ==> next == old(next)
        invariant pos < buffersize ==> leftover == [] && (old(next) < next ==> !chunks[next - 1].endTag)
        invariant BlocksFit() ==> |leftover| < buffersize
      {
        var endTag;
        out, pos, endTag := FillStep(out, pos, old(next), at, dst);
        if pos < buffersize && endTag {
          CutShort(out, at, pos);
          out := Resized(out, pos);
          break;
        }
      }
      WholeBlock(out, at);
    }

    static lemma CutShort(out: seq<real>, at: nat, pos: nat)
      requires at <= pos <= |out|
      ensures Resized(out, pos)[..at] == out[..at] && Resized(out, pos)[at..] == out[at..pos]
    {
    }

    static lemma WholeBlock(out: seq<real>, at: nat)
      requires at <= |out|
      ensures out[at..|out|] == out[at..]
    {
    }

    static lemma Joined(before: seq<real>, out: seq<real>, at: nat, pos: nat, pos': nat,
                        now: seq<real>, was: seq<real>, leftover: seq<real>)
      requires at <= pos <= pos' <= |out| == |before| && out[..pos] == before[..pos]
      requires now == was + (out[pos..pos'] + leftover)
      requires before[at..pos] == was
      ensures out[..at] == before[..at] && out[at..pos'] + leftover == now
    {
      assert out[at..pos] == out[..pos][at..];
      assert before[at..pos] == before[..pos][at..];
      assert out[at..pos'] == out[at..pos] + out[pos..pos'];
      assert out[..at] == out[..pos][..at] && before[..at] == before[..pos][..at];
    }

    /**
     The leftover and the blocks read come out in order, split between the output and the
     new leftover, exactly if the old leftover fitted the target. An output is short only
     at the end of the stream, and with blocks no longer than the target the new leftover
     fits the next one.
     */
    method ReadBuffer(dst: seq<real>) returns (out: seq<real>)
      requires next <= |chunks| && Productive() && buffersize > 0
      modifies this
      ensures old(next) <= next <= |chunks| && position == old(position) + |out|
      ensures |out| <= buffersize && (|out| < buffersize ==> SawEnd())
      ensures |old(leftover)| <= buffersize <==> old(leftover) + ReadSince(old(next)) == out + leftover
      ensures |old(leftover)| >= buffersize ==>
        out == old(leftover)[..buffersize] && leftover == [] && next == old(next)
      ensures Needed(chunks, old(next), next, |old(leftover)|, buffersize)
      ensures BlocksFit() ==> |leftover| < buffersize
    {
      out := Resized(dst, buffersize);
      var dstWritePos := 0;
      if |leftover| > 0 {
        out := CopyRange(out, leftover, 0, |leftover|, dstWritePos);
        dstWritePos := |leftover|;
        leftover := [];
      }
      if dstWritePos <= buffersize {
        assert out[..dstWritePos] == old(leftover);
        out := FillRest(out, dstWritePos);
        assert out == out[..dstWritePos] + out[dstWritePos..];
      }
      position := position + |out|;
    }
  
    static lemma StreamGrows(chunks: seq<Chunk>, was: nat, next: nat, stream: seq<real>, kept: seq<real>,
                             out: seq<real>, leftover: seq<real>)
      requires was <= next <= |chunks|
      requires stream + kept == Flat(chunks[..was])
      requires kept + Flat(chunks[was..next]) == out + leftover
      ensures stream + out + leftover == Flat(chunks[..next])
    {
      FlatSplit(chunks[..next], was);
      assert chunks[..next][..was] == chunks[..was] && chunks[..next][was..] == chunks[was..next];
      ConcatAssoc(stream, kept, Flat(chunks[was..next]));
      ConcatAssoc(stream, out, leftover);
    }

    /**
     Any number of reads from the start: the outputs in a row are the resampled blocks in a
     row, up to the leftover, and all of them are full unless a child read so far ended the stream.
     */
    method ReadMany(count: nat, dst: seq<real>) returns (stream: seq<real>)
      requires next == 0 && leftover == [] && Productive() && BlocksFit() && buffersize > 0
      modifies this
      ensures next <= |chunks| && |leftover| < buffersize
      ensures stream + leftover == Flat(chunks[..next])
      ensures |stream| <= count * buffersize
      ensures GoesOn(next) ==> |stream| == count * buffersize
    {
      stream := [];
      for done := 0 to count
        invariant next <= |chunks| && |leftover| < buffersize
        invariant stream + leftover == Flat(chunks[..next])
        invariant |stream| <= done * buffersize
        invariant GoesOn(next) ==> |stream| == done * buffersize
      {
        ghost var was, kept := next, leftover;
        var out := ReadBuffer(dst);
        StreamGrows(chunks, was, next, stream, kept, out, leftover);
        stream := stream + out;
        assert (done + 1) * buffersize == done * buffersize + buffersize;
      }
    }
  }
}
