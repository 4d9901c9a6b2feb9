/**
 AUDIO_SEQUENCER_BASE (libecasound/audioio-seqbase.cpp): plays a section of a child
 object from a public position on, once or in a loop.
 */
module Sequencer {
  import opened Arithmetic
  import opened Samples

  /** A finite child object: its samples, a position, and the size of its next read. */
  class Child {
    const data: seq<real>
    var pos: nat
    var buffersize: nat

    constructor (data: seq<real>)
      ensures this.data == data && pos == 0 && buffersize == 0
    {
      this.data := data;
      pos, buffersize := 0, 0;
    }

    method ReadBuffer() returns (sbuf: seq<real>)
      modifies this`pos
      ensures old(pos) <= |data| ==>
                sbuf == data[old(pos)..Min(old(pos) + buffersize, |data|)] && pos == old(pos) + |sbuf|
      ensures old(pos) > |data| ==> sbuf == [] && pos == old(pos)
    {
      if pos > |data| {
        sbuf := [];
      } else {
        sbuf := data[pos..Min(pos + buffersize, |data|)];
        pos := pos + |sbuf|;
      }
    }
  }

  /** The block that reaches the child offset: the child's first samples go into `sbuf` as it was, behind `lead`. */
  function FirstBlock(sbuf: seq<real>, section: seq<real>, lead: nat, buffersize: nat): (out: seq<real>)
    ensures |out| == buffersize
  {
    CopyRange(Resized(sbuf, buffersize), section, 0, |section|, lead)
  }

  /** The first `n` samples of the buffer handed in are silent, as far as there are any. */
  predicate QuietFront(sbuf: seq<real>, n: nat) {
    forall j :: 0 <= j < n && j < |sbuf| ==> sbuf[j] == 0.0
  }

  /** What is in front of the child's first sample is what the buffer handed in held there. */
  lemma FirstBlockMeaning(sbuf: seq<real>, section: seq<real>, lead: nat, buffersize: nat)
    requires lead + |section| <= buffersize
    ensures var out := FirstBlock(sbuf, section, lead, buffersize);
            && out[..lead] == Resized(sbuf, buffersize)[..lead]
            && ((forall j :: 0 <= j < lead ==> out[j] == 0.0) <==> QuietFront(sbuf, lead))
            && (forall j :: lead <= j < lead + |section| ==> out[j] == section[j - lead])
            && out[lead..] == section + Resized(sbuf, buffersize)[lead + |section|..]
  {
    var out := FirstBlock(sbuf, section, lead, buffersize);
    assert forall j :: 0 <= j < lead ==> out[j] == if j < |sbuf| then sbuf[j] else 0.0;
  }

  /** A buffer that was not silent when handed in is still heard in front of the child. */
  lemma FrontNotSilenced()
    ensures FirstBlock([1.0, 1.0], [0.5], 1, 2) == [1.0, 0.5]
  {
  }

  class Sequencer {
    const child: Child
    const offset: nat
    const start: nat
    const length: nat
    const looping: bool
    const buffersize: nat
    var position: nat

    constructor (child: Child, offset: nat, start: nat, length: nat, looping: bool, buffersize: nat)
      ensures this.child == child && this.offset == offset && this.start == start && this.length == length
      ensures this.looping == looping && this.buffersize == buffersize && position == 0
    {
      this.child, this.offset, this.start, this.length := child, offset, start, length;
      this.looping, this.buffersize, position := looping, buffersize, 0;
    }

    /** The length of one round of the loop, as the code computes it. */
    function OneLoop(): int {
      length - start
    }

    /** `priv_public_to_child_pos`. */
    function ToChild(pub: nat): nat {
      if pub <= offset then start
      else if looping then
        if OneLoop() > 0 then (pub - offset) % OneLoop() + start else pub - offset + start
      else pub - offset + start
    }

    /** The child has been read to its end. */
    predicate ChildFinished()
      reads child
    {
      child.pos >= |child.data|
    }

    /** The section has been played to its end. */
    predicate SectionDone()
      reads this
    {
      !looping && ToChild(position) >= length + start
    }

    /** `finished` of an input object with a finite child. */
    predicate Finished()
      reads this, child
    {
      ChildFinished() || SectionDone()
    }

    /** The child stands where the public position says. */
    predicate InStep()
      reads this, child
    {
      child.pos == ToChild(position)
    }

    /** `seek_position`. */
    method Seek(pos: nat)
      modifies this`position, child`pos
      ensures position == pos && InStep()
    {
      child.pos := ToChild(pos);
      position := pos;
    }

    /**
     The child positions of a loop are those of a section of `length` samples, as the length is documented,
     exactly if the section starts at the beginning of the child.
     */
    lemma LoopLengthAgrees()
      requires looping && length > 0
      ensures (forall k: nat :: offset <= k ==> ToChild(k) == start + (k - offset) % length) <==> start == 0
    {
      ModUnique(0, length, 0, 0);
      if start > 0 {
        var k := offset + if OneLoop() > 0 then OneLoop() else length;
        if OneLoop() > 0 {
          ModUnique(OneLoop(), OneLoop(), 1, 0);
          ModUnique(OneLoop(), length, 0, OneLoop());
        } else {
          ModUnique(length, length, 1, 0);
        }
        assert ToChild(k) != start + (k - offset) % length;
      }
    }

    /** The section to be played lies within the child, and a loop is longer than one block. */
    predicate Loops() {
      looping && 0 < buffersize < OneLoop() && length <= |child.data|
    }

    /** Within a loop, the child position moves on and wraps at most once per block. */
    lemma LoopAdvance(p: nat, j: nat)
      requires looping && offset <= p && j <= OneLoop() && OneLoop() > 0
      ensures start <= ToChild(p) < length
      ensures ToChild(p + j)
           == if ToChild(p) + j < length then ToChild(p) + j else ToChild(p) + j - OneLoop()
    {
      ModAdvance(p - offset, j, OneLoop());
      ModUnique(0, OneLoop(), 0, 0);
    }

    /** The sample of the looped section that belongs at public position `k`. */
    function LoopSample(k: nat): real
      requires looping && OneLoop() > 0 && length <= |child.data| && offset <= k
    {
      LoopAdvance(k, 0);
      child.data[start + (k - offset) % OneLoop()]
    }

    /** `out`, played from public position `from`, is the looped section wherever that is active. */
    ghost predicate PlaysLoop(from: nat, out: seq<real>)
      requires looping && OneLoop() > 0 && length <= |child.data|
    {
      forall j :: 0 <= j < |out| && offset <= from + j ==> out[j] == LoopSample(from + j)
    }

    /** Inside the loop, the sample `j` places on is the child's sample there, or one loop earlier. */
    lemma LoopSampleAt(p: nat, j: nat)
      requires looping && OneLoop() > 0 && length <= |child.data| && offset <= p && j < OneLoop()
      ensures start <= ToChild(p) < length
      ensures LoopSample(p + j)
           == child.data[if ToChild(p) + j < length then ToChild(p) + j else ToChild(p) + j - OneLoop()]
    {
      LoopAdvance(p, j);
      LoopAdvance(p + j, 0);
      ModUnique(0, OneLoop(), 0, 0);
    }

    /** What `out`, played from public position `from`, holds of the time before the child is silence. */
    ghost predicate SilentBefore(from: nat, out: seq<real>) {
      forall j :: 0 <= j < |out| && from + j < offset ==> out[j] == 0.0
    }

    /** At most `n` samples of the child from `from` on. */
    function Section(from: nat, n: nat): (s: seq<real>)
      ensures |s| <= n
      ensures |s| == n <==> n == 0 || from + n <= |child.data|
    {
      if from <= |child.data| then child.data[from..from + Min(n, |child.data| - from)] else []
    }

    /** Put the child at `from` and read `n` samples there. */
    method ReadSection(from: nat, n: nat) returns (tmp: seq<real>)
      modifies child
      ensures tmp == Section(from, n) && child.pos == from + |tmp| && child.buffersize == buffersize
    {
      if from != child.pos {
        child.pos := from;
      }
      child.buffersize := n;
      tmp := child.ReadBuffer();
      child.buffersize := buffersize;
    }

    /** A block with `lead` samples to the child, put together as it should be. */
    ghost predicate Opens(sbuf: seq<real>, lead: nat, out: seq<real>) {
      lead <= buffersize && out == FirstBlock(sbuf, Section(start, buffersize - lead), lead, buffersize)
    }

    /** Behind the lead `out` holds the child's samples from the start position on, as many as the child has. */
    ghost predicate HoldsChild(lead: nat, out: seq<real>) {
      |out| == buffersize &&
      forall j :: lead <= j < buffersize && start + j - lead < |child.data| ==> out[j] == child.data[start + j - lead]
    }

    /** That is: the buffer as handed in, but for the child's first samples behind the lead, as many as it has. */
    lemma OpensMeaning(sbuf: seq<real>, lead: nat, out: seq<real>)
      requires Opens(sbuf, lead, out)
      ensures var given, opening := Resized(sbuf, buffersize), Section(start, buffersize - lead);
              && |out| == buffersize && out[..lead] == given[..lead]
              && out[lead..] == opening + given[lead + |opening|..]
      ensures HoldsChild(lead, out)
    {
      FirstBlockMeaning(sbuf, Section(start, buffersize - lead), lead, buffersize);
    }

    lemma OpensSilent(sbuf: seq<real>, p: nat, lead: nat, out: seq<real>)
      requires Opens(sbuf, lead, out) && p + lead == offset
      ensures SilentBefore(p, out) <==> QuietFront(sbuf, lead)
    {
      FirstBlockMeaning(sbuf, Section(start, buffersize - lead), lead, buffersize);
    }

    /** Case 2: the block reaches the child. */
    method ReadFirst(sbuf: seq<real>) returns (out: seq<real>)
      requires position < offset < position + buffersize
      modifies this`position, child
      ensures position == old(position) + buffersize && Opens(sbuf, offset - old(position), out)
      ensures child.pos == start + |Section(start, old(position) + buffersize - offset)|
    {
      var segment := position + buffersize - offset;
      if segment > buffersize {
        segment := buffersize;
      }
      var tmp := ReadSection(ToChild(position), segment);
      out := Resized(sbuf, buffersize);
      out := CopyRange(out, tmp, 0, |tmp|, buffersize - segment);
      position := position + buffersize;
    }

    /** Case 1 and case 2: the block starts before the child does. */
    method ReadBeforeChild(sbuf: seq<real>) returns (out: seq<real>)
      requires position < offset
      modifies this`position, child
      ensures position == old(position) + buffersize && |out| == buffersize
      ensures old(position) + buffersize <= offset ==>
                out == Silence(buffersize) && child.pos == old(child.pos)
      ensures old(position) + buffersize > offset ==>
                var lead := offset - old(position);
                && Opens(sbuf, lead, out)
                && (SilentBefore(old(position), out) <==> QuietFront(sbuf, lead))
                && HoldsChild(lead, out)
                && child.pos == start + |Section(start, old(position) + buffersize - offset)|
    {
      if position + buffersize <= offset {
        out := Silence(buffersize);
        position := position + buffersize;
      } else {
        ghost var p := position;
        out := ReadFirst(sbuf);
        OpensMeaning(sbuf, offset - p, out);
        OpensSilent(sbuf, p, offset - p, out);
      }
    }

    /** Case 3a: not looping and the section ends within this block. */
    method ReadLast(chipos1: nat) returns (out: seq<real>)
      requires chipos1 <= length + start
      modifies this`position, child
      ensures position == old(position) + |out|
      ensures var read := Section(old(child.pos), buffersize);
              out == read[..Min(|read|, length + start - chipos1)] && child.pos == old(child.pos) + |read|
    {
      var samplesToInclude := length + start - chipos1;
      out := ReadSection(child.pos, buffersize);
      if |out| > samplesToInclude {
        out := Resized(out, samplesToInclude);
      }
      position := position + |out|;
    }

    /** How much of a block lies behind the loop end; the rest takes the child to the loop start. */
    function OverLoopEnd(p: nat, chipos2: nat): (over: nat)
      requires looping && OneLoop() > 0 && buffersize > 0 && offset <= p
      requires chipos2 == ToChild(p + buffersize) && chipos2 < ToChild(p)
      ensures over == chipos2 - start <= buffersize
      ensures Loops() ==> start <= ToChild(p)
      ensures Loops() ==> ToChild(p + buffersize - over) == start && ToChild(p) + buffersize - over == length
    {
      LoopAdvance(p + buffersize, 0);
      if buffersize < OneLoop() then
        LoopAdvance(p, buffersize);
        LoopAdvance(p, buffersize - (chipos2 - start));
        chipos2 - start
      else chipos2 - start
    }

    /** A block read where the child stood, its end replaced by what is at the loop start. */
    ghost predicate WrapsAround(p: nat, at: nat, chipos2: nat, out: seq<real>) {
      start <= chipos2 <= start + buffersize <= start + p + buffersize &&
      var over := chipos2 - start;
      out == JoinedReads(Section(at, buffersize), Section(ToChild(p + buffersize - over), over), over)
    }

    /** Case 3b: the loop ends within this block. */
    method ReadAcrossLoopEnd(chipos2: nat) returns (out: seq<real>)
      requires looping && OneLoop() > 0 && buffersize > 0 && InStep() && offset <= position
      requires chipos2 == ToChild(position + buffersize) && chipos2 < ToChild(position)
      modifies this`position, child
      ensures position == old(position) + buffersize
      ensures Loops() ==>
                && InStep() && |out| == buffersize
                && out == child.data[old(child.pos)..length] + child.data[start..chipos2]
      ensures WrapsAround(old(position), old(child.pos), chipos2, out)
    {
      ghost var p, at := position, child.pos;
      var overChildEof := OverLoopEnd(position, chipos2);
      out := ReadWrapped(overChildEof, ToChild(position + buffersize - overChildEof));
      WrapIs(p, at, chipos2, out);
    }

    lemma WrapIs(p: nat, at: nat, chipos2: nat, out: seq<real>)
      requires start <= chipos2 <= start + buffersize
      requires var over := chipos2 - start;
               out == JoinedReads(Section(at, buffersize), Section(ToChild(p + buffersize - over), over), over)
      ensures WrapsAround(p, at, chipos2, out)
    {
    }

    /** The reads of case 3b and the new public position. */
    method ReadWrapped(overChildEof: nat, chistartpos: nat) returns (out: seq<real>)
      requires overChildEof <= buffersize
      modifies this`position, child
      ensures position == old(position) + buffersize
      ensures out == JoinedReads(Section(old(child.pos), buffersize), Section(chistartpos, overChildEof), overChildEof)
      ensures Loops() && start <= old(child.pos) && old(child.pos) + buffersize - overChildEof == length && chistartpos == start ==>
                && |out| == buffersize && child.pos == start + overChildEof
                && out == child.data[old(child.pos)..length] + child.data[start..child.pos]
    {
      ghost var p := child.pos;
      out := ReadBothSides(overChildEof, chistartpos);
      position := position + buffersize;
      if Loops() && start <= p && p + buffersize - overChildEof == length && chistartpos == start {
        WrapJoins(p, overChildEof, out);
      }
    }

    /** One read where the child stands, one at the loop start for what is over the loop end. */
    method ReadBothSides(overChildEof: nat, chistartpos: nat) returns (out: seq<real>)
      requires overChildEof <= buffersize
      modifies child
      ensures out == JoinedReads(Section(old(child.pos), buffersize), Section(chistartpos, overChildEof), overChildEof)
      ensures child.pos == chistartpos + |Section(chistartpos, overChildEof)|
    {
      out := ReadSection(child.pos, buffersize);
      child.pos := chistartpos;
      if overChildEof > 0 {
        var tmp := ReadSection(chistartpos, overChildEof);
        out := CopyRange(Resized(out, buffersize), tmp, 0, |tmp|, buffersize - overChildEof);
      }
    }

    function JoinedReads(first: seq<real>, second: seq<real>, over: nat): seq<real>
      requires over <= buffersize
    {
      if over > 0 then CopyRange(Resized(first, buffersize), second, 0, |second|, buffersize - over) else first
    }

    /** The two reads of a block that reaches over the loop end put together. */
    lemma WrapJoins(p: nat, over: nat, out: seq<real>)
      requires Loops() && over <= buffersize && start <= p && p + buffersize - over == length
      requires out == JoinedReads(Section(p, buffersize), Section(start, over), over)
      ensures |out| == buffersize && out == child.data[p..length] + child.data[start..start + over]
      ensures |Section(start, over)| == over
    {
      var first := Section(p, buffersize);
      assert first[..buffersize - over] == child.data[p..length];
      if over > 0 {
        Overlaid(first, Section(start, over), buffersize);
      }
    }

    /** Case 3c: nothing ends within this block. */
    method ReadPlain() returns (out: seq<real>)
      modifies this`position, child
      ensures position == old(position) + |out|
      ensures out == Section(old(child.pos), buffersize) && child.pos == old(child.pos) + |out|
    {
      out := ReadSection(child.pos, buffersize);
      position := position + |out|;
    }

    /** A block read straight from the child inside the loop plays it. */
    lemma PlainPlays(p: nat, out: seq<real>)
      requires looping && OneLoop() > 0 && length <= |child.data| && offset <= p
      requires ToChild(p) + |out| <= length && out == child.data[ToChild(p)..ToChild(p) + |out|]
      ensures PlaysLoop(p, out)
    {
      LoopAdvance(p, 0);
      forall j | 0 <= j < |out| ensures out[j] == LoopSample(p + j) {
        LoopSampleAt(p, j);
      }
    }

    /** Two pieces that each play the loop play it together. */
    lemma PlaysTogether(p: nat, a: seq<real>, b: seq<real>)
      requires looping && OneLoop() > 0 && length <= |child.data|
      requires PlaysLoop(p, a) && PlaysLoop(p + |a|, b)
      ensures PlaysLoop(p, a + b)
    {
      forall j | 0 <= j < |a + b| && offset <= p + j ensures (a + b)[j] == LoopSample(p + j) {
        if j >= |a| {
          assert (a + b)[j] == b[j - |a|] == LoopSample(p + |a| + (j - |a|));
        }
      }
    }

    lemma SilentTogether(p: nat, a: seq<real>, b: seq<real>)
      ensures SilentBefore(p, a + b) <==> SilentBefore(p, a) && SilentBefore(p + |a|, b)
    {
      if SilentBefore(p, a + b) {
        forall j | 0 <= j < |a| && p + j < offset ensures a[j] == 0.0 {
          assert (a + b)[j] == 0.0;
        }
        forall j | 0 <= j < |b| && p + |a| + j < offset ensures b[j] == 0.0 {
          assert (a + b)[|a| + j] == 0.0;
        }
      }
    }

    /** A block that reaches over the loop end continues at the loop start. */
    lemma WrapPlays(p: nat, out: seq<real>)
      requires Loops() && offset <= p && ToChild(p + buffersize) < ToChild(p)
      requires out == child.data[ToChild(p)..length] + child.data[start..ToChild(p + buffersize)]
      ensures PlaysLoop(p, out)
    {
      LoopAdvance(p, buffersize);
      var n := length - ToChild(p);
      LoopAdvance(p, n);
      PlainPlays(p, child.data[ToChild(p)..length]);
      PlainPlays(p + n, child.data[start..ToChild(p + buffersize)]);
      PlaysTogether(p, child.data[ToChild(p)..length], child.data[start..ToChild(p + buffersize)]);
    }

    /** A block that starts before the child plays the loop from the offset on. */
    lemma FirstPlays(p: nat, out: seq<real>)
      requires Loops() && p < offset < p + buffersize == p + |out|
      requires forall j :: offset - p <= j < buffersize ==> out[j] == child.data[start + j - (offset - p)]
      ensures PlaysLoop(p, out)
      ensures ToChild(p + buffersize) == start + (p + buffersize - offset)
    {
      LoopAdvance(offset, p + buffersize - offset);
      forall j | 0 <= j < |out| && offset <= p + j ensures out[j] == LoopSample(p + j) {
        LoopSampleAt(offset, p + j - offset);
      }
    }

    /** How much of the section of a non-looping object the child has. */
    function Available(): nat {
      if start <= |child.data| then Min(length, |child.data| - start) else 0
    }

    /** `out`, played from public position `from`, is the section once wherever that is active, and no more. */
    ghost predicate PlaysOnce(from: nat, out: seq<real>) {
      && (|out| > 0 && from + |out| > offset ==> from + |out| <= offset + Available())
      && forall j :: 0 <= j < |out| && offset <= from + j ==> out[j] == child.data[start + (from + j - offset)]
    }

    lemma OnceTogether(from: nat, a: seq<real>, b: seq<real>)
      requires PlaysOnce(from, a) && PlaysOnce(from + |a|, b)
      ensures PlaysOnce(from, a + b)
    {
    }

    /** Until the section has been played, the child is in step. */
    predicate Placed()
      reads this, child
    {
      if looping then InStep() else position <= offset + length && (SectionDone() || InStep())
    }

    /** The loop lies within the child. */
    predicate LoopWithin() {
      looping && buffersize > 0 && OneLoop() > 0 && length <= |child.data|
    }

    /**
     `read_buffer`. A looping object with blocks shorter than its loop plays the looped
     section and keeps the child in step; with longer blocks the first one read at the
     offset already puts the child out of step. Any other object plays its section once, as
     far as the child has it, in full blocks up to the last, exactly if the block that
     reaches the offset does not also reach beyond what there is.
     */
    method ReadBuffer(sbuf: seq<real>) returns (out: seq<real>)
      requires Placed()
      modifies this`position, child
      ensures Loops() ==>
                && position == old(position) + buffersize && |out| == buffersize
                && InStep() && PlaysLoop(old(position), out)
      ensures LoopWithin() && old(position) == offset ==> (InStep() <==> Loops())
      ensures looping && offset <= old(position) ==>
                var chipos1, chipos2 := ToChild(old(position)), ToChild(old(position) + buffersize);
                if chipos2 < chipos1 then WrapsAround(old(position), old(child.pos), chipos2, out)
                else out == Section(old(child.pos), buffersize) && position == old(position) + |out|
      ensures SilentBefore(old(position), out) <==>
                old(position) < offset < old(position) + buffersize ==> QuietFront(sbuf, offset - old(position))
      ensures old(position) < offset && old(position) + buffersize <= offset ==>
                out == Silence(buffersize) && position == old(position) + buffersize && child.pos == old(child.pos)
      ensures old(position) < offset < old(position) + buffersize ==>
                && Opens(sbuf, offset - old(position), out)
                && HoldsChild(offset - old(position), out)
                && |out| == buffersize && position == old(position) + buffersize
                && child.pos == start + |Section(start, old(position) + buffersize - offset)|
      ensures !looping ==> position == old(position) + |out|
      ensures !looping && !(old(position) < offset < old(position) + buffersize) ==>
                && PlaysOnce(old(position), out) && Placed()
                && (|out| == buffersize || Finished())
      ensures !looping && old(position) < offset < old(position) + buffersize ==>
                && |out| == buffersize
                && (PlaysOnce(old(position), out) && Placed() <==> old(position) + buffersize <= offset + Available())
      ensures !looping && buffersize > 0 && !old(Finished()) ==> |out| > 0
    {
      if position < offset {
        out := ReadBeforeActive(sbuf);
      } else if looping {
        out := ReadActiveLoop();
      } else {
        out := ReadActiveOnce();
      }
    }

    /** Case 1 and case 2, and what they mean for the stream. */
    method ReadBeforeActive(sbuf: seq<real>) returns (out: seq<real>)
      requires Placed() && position < offset
      modifies this`position, child
      ensures position == old(position) + buffersize && |out| == buffersize
      ensures Loops() ==> InStep() && PlaysLoop(old(position), out)
      ensures SilentBefore(old(position), out) <==>
                offset < old(position) + buffersize ==> QuietFront(sbuf, offset - old(position))
      ensures old(position) + buffersize <= offset ==> out == Silence(buffersize) && child.pos == old(child.pos)
      ensures offset < old(position) + buffersize ==>
                && Opens(sbuf, offset - old(position), out)
                && HoldsChild(offset - old(position), out)
                && child.pos == start + |Section(start, old(position) + buffersize - offset)|
      ensures !looping && old(position) + buffersize <= offset ==> PlaysOnce(old(position), out) && Placed()
      ensures !looping && offset < old(position) + buffersize ==>
                (PlaysOnce(old(position), out) && Placed() <==> old(position) + buffersize <= offset + Available())
    {
      ghost var p := position;
      out := ReadBeforeChild(sbuf);
      if offset < p + buffersize {
        OpeningPlays(p, out);
      } else {
        SilencePlays(p, out);
      }
    }

    /** What a block that reaches the offset plays, and where it leaves the child. */
    lemma OpeningPlays(p: nat, out: seq<real>)
      requires p < offset < p + buffersize == p + |out| == position
      requires HoldsChild(offset - p, out)
      requires child.pos == start + |Section(start, p + buffersize - offset)|
      ensures Loops() ==> InStep() && PlaysLoop(p, out)
      ensures !looping ==> (PlaysOnce(p, out) && Placed() <==> p + buffersize <= offset + Available())
    {
      if Loops() { FirstPlays(p, out); }
      if !looping { OpeningOnce(p, out); }
    }

    /** A block that ends before the child plays nothing of it. */
    lemma SilencePlays(p: nat, out: seq<real>)
      requires out == Silence(buffersize) && p + buffersize <= offset
      ensures PlaysOnce(p, out) && SilentBefore(p, out) && (Loops() ==> PlaysLoop(p, out))
      ensures ToChild(p) == start == ToChild(p + buffersize)
    {
    }

    /** The block that reaches the offset plays the section once exactly if it does not reach beyond it. */
    lemma OpeningOnce(p: nat, out: seq<real>)
      requires !looping && p < offset < p + buffersize == p + |out|
      requires HoldsChild(offset - p, out)
      ensures PlaysOnce(p, out) <==> p + buffersize <= offset + Available()
      ensures p + buffersize <= offset + Available() ==>
        |Section(start, p + buffersize - offset)| == p + buffersize - offset
    {
    }

    /** Case 3 while looping. */
    method ReadActiveLoop() returns (out: seq<real>)
      requires looping && InStep() && offset <= position
      modifies this`position, child
      ensures Loops() ==>
                && position == old(position) + buffersize && |out| == buffersize
                && InStep() && PlaysLoop(old(position), out)
      ensures LoopWithin() && old(position) == offset ==> (InStep() <==> Loops())
      ensures var chipos1, chipos2 := ToChild(old(position)), ToChild(old(position) + buffersize);
              if chipos2 < chipos1 then WrapsAround(old(position), old(child.pos), chipos2, out)
              else out == Section(old(child.pos), buffersize) && position == old(position) + |out|
    {
      ghost var p := position;
      if OneLoop() > 0 { LoopAdvance(p, 0); }
      var chipos1 := ToChild(position);
      var chipos2 := ToChild(position + buffersize);
      if chipos2 < chipos1 {
        out := ReadAcrossLoopEnd(chipos2);
        if Loops() { WrapPlays(p, out); }
      } else {
        out := ReadPlain();
        if Loops() {
          LoopAdvance(p, buffersize);
          PlainPlays(p, out);
        } else if LoopWithin() && p == offset {
          LoopAdvance(position, 0);
        }
      }
    }

    /** Case 3 while not looping. */
    method ReadActiveOnce() returns (out: seq<real>)
      requires !looping && Placed() && offset <= position
      modifies this`position, child
      ensures position == old(position) + |out|
      ensures PlaysOnce(old(position), out) && Placed() && (|out| == buffersize || Finished())
      ensures buffersize > 0 && !old(Finished()) ==> |out| > 0
    {
      var chipos1 := ToChild(position);
      var chipos2 := ToChild(position + buffersize);
      if chipos2 >= length + start {
        out := ReadLast(chipos1);
      } else {
        out := ReadPlain();
      }
    }

    /** A read while looping. */
    method ReadLooped(sbuf: seq<real>) returns (out: seq<real>)
      requires Loops() && InStep()
      modifies this`position, child
      ensures position == old(position) + buffersize && |out| == buffersize
      ensures InStep() && PlaysLoop(old(position), out)
      ensures QuietFront(sbuf, buffersize) ==> SilentBefore(old(position), out)
    {
      out := ReadBuffer(sbuf);
    }

    /** One more read while looping: the stream goes on where it was. */
    method PlayNext(from: nat, stream: seq<real>, sbuf: seq<real>) returns (stream': seq<real>)
      requires Loops() && InStep() && position == from + |stream| && PlaysLoop(from, stream)
      modifies this`position, child
      ensures |stream'| == |stream| + buffersize && position == from + |stream'|
      ensures InStep() && PlaysLoop(from, stream')
      ensures QuietFront(sbuf, buffersize) && SilentBefore(from, stream) ==> SilentBefore(from, stream')
    {
      var out := ReadLooped(sbuf);
      PlaysTogether(from, stream, out);
      SilentTogether(from, stream, out);
      stream' := stream + out;
    }

    /** After a seek, any number of reads plays the loop without gap or repetition, and never finishes. */
    method PlayLooped(from: nat, blocks: nat, sbuf: seq<real>) returns (stream: seq<real>)
      requires Loops()
      modifies this`position, child
      ensures |stream| == blocks * buffersize && position == from + |stream|
      ensures InStep() && PlaysLoop(from, stream) && !Finished()
      ensures QuietFront(sbuf, buffersize) ==> SilentBefore(from, stream)
    {
      Seek(from);
      stream := [];
      var done := 0;
      while done < blocks
        invariant done <= blocks && |stream| == done * buffersize
        invariant position == from + |stream| && InStep() && PlaysLoop(from, stream)
        invariant QuietFront(sbuf, buffersize) ==> SilentBefore(from, stream)
      {
        MulNext(done, buffersize);
        stream := PlayNext(from, stream, sbuf);
        done := done + 1;
      }
      LoopNeverFinishes(position);
    }

    /** In step, the child of a loop is never at its end. */
    lemma LoopNeverFinishes(p: nat)
      requires Loops()
      ensures ToChild(p) < |child.data|
    {
      if p > offset { LoopAdvance(p, 0); }
    }

    /** What is left to the offset in the block that reaches it, on the way from `from`. */
    function Lead(from: nat): nat
      requires buffersize > 0 && from < offset
    {
      (offset - from) % buffersize
    }

    /** The block that reaches the offset also reaches beyond what the child has of the section. */
    predicate Overshoots(from: nat)
      requires buffersize > 0
    {
      from < offset && Lead(from) > 0 && buffersize - Lead(from) > Available()
    }

    /** A block that ends before the offset leaves the lead as it is. */
    lemma LeadStays(from: nat)
      requires buffersize > 0 && from + buffersize < offset
      ensures Lead(from + buffersize) == Lead(from)
    {
      var a, q := offset - from - buffersize, (offset - from - buffersize) / buffersize;
      MulNext(q, buffersize);
      assert a == buffersize * q + a % buffersize;
      ModUnique(offset - from, buffersize, q + 1, a % buffersize);
    }

    lemma LeadAtEnd(from: nat)
      requires buffersize > 0 && from < offset <= from + buffersize
      ensures Lead(from) == if from + buffersize == offset then 0 else offset - from
    {
      if from + buffersize == offset {
        ModUnique(buffersize, buffersize, 1, 0);
      } else {
        ModUnique(offset - from, buffersize, 0, offset - from);
      }
    }

    /** Reading the blocks that end before the offset. */
    method PlaySilence(ghost from: nat, sbuf: seq<real>) returns (stream: seq<real>)
      requires !looping && buffersize > 0 && position == from < offset && InStep()
      modifies this`position, child
      ensures position == from + |stream| && position < offset <= position + buffersize && InStep()
      ensures Lead(position) == Lead(from) && SilentBefore(from, stream)
    {
      stream := [];
      while position + buffersize < offset
        invariant from <= position == from + |stream| < offset && InStep()
        invariant Lead(position) == Lead(from) && SilentBefore(from, stream)
        decreases offset - position
      {
        LeadStays(position);
        var out := ReadBuffer(sbuf);
        SilentTogether(from, stream, out);
        stream := stream + out;
      }
    }

    /** Reading from before the offset until it is reached. */
    method PlayFront(ghost from: nat, sbuf: seq<real>) returns (stream: seq<real>)
      requires !looping && buffersize > 0 && Available() > 0 && position == from < offset && InStep()
      modifies this`position, child
      ensures position == from + |stream| == offset + if Lead(from) == 0 then 0 else buffersize - Lead(from)
      ensures Lead(from) > 0 ==> |stream| >= buffersize && Opens(sbuf, Lead(from), stream[|stream| - buffersize..])
      ensures Lead(from) > 0 ==> child.pos == start + |Section(start, buffersize - Lead(from))|
      ensures !Overshoots(from) ==> Placed() && PlaysOnce(from, stream)
      ensures QuietFront(sbuf, buffersize) ==> SilentBefore(from, stream)
    {
      stream := PlaySilence(from, sbuf);
      LeadAtEnd(position);
      stream := PlayOpening(from, stream, sbuf, Lead(from));
    }

    method ReadOpening(sbuf: seq<real>, ghost lead: nat) returns (out: seq<real>)
      requires !looping && Available() > 0 && position < offset <= position + buffersize && InStep()
      requires lead == if position + buffersize == offset then 0 else offset - position
      modifies this`position, child
      ensures |out| == buffersize && position == old(position) + buffersize
      ensures lead > 0 ==> Opens(sbuf, lead, out) && child.pos == start + |Section(start, buffersize - lead)|
      ensures !(lead > 0 && buffersize - lead > Available()) ==> Placed() && PlaysOnce(old(position), out)
      ensures QuietFront(sbuf, buffersize) ==> SilentBefore(old(position), out)
    {
      out := ReadBuffer(sbuf);
    }

    /** Reading the block that reaches the offset, `lead` being what is left to it if that is not a whole block. */
    method PlayOpening(ghost from: nat, before: seq<real>, sbuf: seq<real>, ghost lead: nat) returns (stream: seq<real>)
      requires !looping && Available() > 0 && position == from + |before| < offset <= position + buffersize && InStep()
      requires lead == if position + buffersize == offset then 0 else offset - position
      requires SilentBefore(from, before)
      modifies this`position, child
      ensures position == from + |stream| == offset + if lead == 0 then 0 else buffersize - lead
      ensures lead > 0 ==> |stream| >= buffersize && Opens(sbuf, lead, stream[|stream| - buffersize..])
      ensures lead > 0 ==> child.pos == start + |Section(start, buffersize - lead)|
      ensures !(lead > 0 && buffersize - lead > Available()) ==> Placed() && PlaysOnce(from, stream)
      ensures QuietFront(sbuf, buffersize) ==> SilentBefore(from, stream)
    {
      var out := ReadOpening(sbuf, lead);
      SilentTogether(from, before, out);
      if !(lead > 0 && buffersize - lead > Available()) {
        OnceTogether(from, before, out);
      }
      LastOf(before, out);
      stream := before + out;
    }

    static lemma LastOf(before: seq<real>, out: seq<real>)
      ensures (before + out)[|before + out| - |out|..] == out
    {
    }

    /** Reading on until finished, from where all that was played so far is right. */
    method PlayRest(from: nat, front: seq<real>, sbuf: seq<real>) returns (stream: seq<real>)
      requires !looping && buffersize > 0 && Available() > 0
      requires Placed() && offset <= position == from + |front| <= offset + Available() && PlaysOnce(from, front)
      modifies this`position, child
      ensures Finished() && |stream| == offset + Available() - from && PlaysOnce(from, stream)
      ensures front <= stream
      ensures QuietFront(sbuf, buffersize) && SilentBefore(from, front) ==> SilentBefore(from, stream)
    {
      stream := front;
      while !Finished()
        invariant Placed() && offset <= position == from + |stream| <= offset + Available() && PlaysOnce(from, stream)
        invariant front <= stream
        invariant QuietFront(sbuf, buffersize) && SilentBefore(from, front) ==> SilentBefore(from, stream)
        decreases offset + Available() - position
      {
        var out := ReadBuffer(sbuf);
        SilentTogether(from, stream, out);
        OnceTogether(from, stream, out);
        stream := stream + out;
      }
    }

    /** When the block that reached the offset overshot, the object is finished. */
    lemma OvershotFinished(from: nat)
      requires !looping && buffersize > 0 && Available() > 0 && Overshoots(from)
      requires position == offset + buffersize - Lead(from)
      requires child.pos == start + |Section(start, buffersize - Lead(from))|
      ensures Finished()
    {
    }

    /**
     After a seek to the start or into the section, reading until finished plays exactly the
     rest the child has of it. Only a block that reaches the offset and beyond the section is
     left as it is: it ends the stream with what the child has there, also behind the section,
     and with what the buffer handed in held.
     */
    method PlayToEnd(from: nat, sbuf: seq<real>) returns (stream: seq<real>)
      requires !looping && buffersize > 0 && from <= offset + Available()
      modifies this`position, child
      ensures Finished()
      ensures Available() == 0 ==> stream == []
      ensures Available() > 0 && !Overshoots(from) ==>
                && |stream| == offset + Available() - from
                && if from <= offset then stream[offset - from..] == child.data[start..start + Available()]
                   else stream == child.data[start + (from - offset)..start + Available()]
      ensures Available() > 0 && Overshoots(from) ==>
                && |stream| == offset - from + buffersize - Lead(from) && |stream| >= buffersize
                && Opens(sbuf, Lead(from), stream[|stream| - buffersize..])
      ensures QuietFront(sbuf, buffersize) ==> SilentBefore(from, stream)
    {
      Seek(from);
      stream := [];
      if Finished() {
        return;
      }
      assert Available() > 0;
      if from < offset {
        stream := PlayFront(from, sbuf);
      }
      if Overshoots(from) {
        OvershotFinished(from);
      } else {
        stream := PlayRest(from, stream, sbuf);
      }
    }
  }
}
