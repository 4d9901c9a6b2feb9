/**
 EFFECT_MULTITAP_DELAY (libecasound/audiofx_timebased.cpp:405-453), one channel: a ring
 of the last `dtime * dnum` samples, read at `dnum` places and written downwards.
 */
module Multitap {
  import opened Arithmetic

  // --- The plain formula -----------------------------------------------------

  /** The stream at time `t`, silent before it began. */
  function At(xs: seq<real>, t: int): real {
    if 0 <= t < |xs| then xs[t] else 0.0
  }

  /** The sum of the `k` taps `dtime`, `2 * dtime`, ... `k * dtime` before time `n`. */
  function TapSum(xs: seq<real>, n: int, dtime: int, k: nat): real {
    if k == 0 then 0.0 else TapSum(xs, n, dtime, k - 1) + At(xs, n - k * dtime)
  }

  /** The output at time `n` for the whole input stream `xs`. */
  function Mixed(xs: seq<real>, n: nat, dtime: nat, dnum: nat, mix: real): real
    requires dnum > 0
  {
    Blend(At(xs, n), TapSum(xs, n, dtime, dnum), dnum, mix)
  }

  /** A sample and the sum of its delayed copies, each with its share. */
  function Blend(x: real, taps: real, dnum: nat, mix: real): real
    requires dnum > 0
  {
    x * (1.0 - mix) + taps * mix / dnum as real
  }

  // --- What the formula gives ------------------------------------------------

  /** `xs` holds nothing but the sample `v`, at time `t`. */
  ghost predicate Impulse(xs: seq<real>, t: nat, v: real) {
    At(xs, t) == v && forall i {:trigger At(xs, i)} :: i != t ==> At(xs, i) == 0.0
  }

  lemma {:induction false} TapsOfImpulse(xs: seq<real>, t: nat, v: real, n: int, dtime: nat, k: nat, j: nat)
    requires dtime > 0 && Impulse(xs, t, v) && 1 <= j && n - j * dtime == t
    ensures TapSum(xs, n, dtime, k) == if j <= k then v else 0.0
  {
    if k > 0 {
      TapsOfImpulse(xs, t, v, n, dtime, k - 1, j);
      MulStep(j, k, dtime);
      MulStep(k, j, dtime);
    }
  }

  lemma {:induction false} TapsElsewhere(xs: seq<real>, t: nat, v: real, n: int, dtime: nat, k: nat)
    requires Impulse(xs, t, v) && forall j :: 1 <= j <= k ==> n - j * dtime != t
    ensures TapSum(xs, n, dtime, k) == 0.0
  {
    if k > 0 {
      TapsElsewhere(xs, t, v, n, dtime, k - 1);
    }
  }

  /**
   A single sample comes out at once with the dry share, and `dtime`, `2 * dtime`, ...
   `dnum * dtime` later with an equal part of the wet share each.
   */
  lemma ImpulseResponse(xs: seq<real>, t: nat, v: real, k: nat, dtime: nat, dnum: nat, mix: real)
    requires dtime > 0 && dnum > 0 && Impulse(xs, t, v)
    ensures Mixed(xs, t + k * dtime, dtime, dnum, mix)
         == if k == 0 then v * (1.0 - mix) else if k <= dnum then v * mix / dnum as real else 0.0
  {
    MulStep(0, k, dtime);
    BlendShares(v, dnum, mix);
    if k == 0 {
      TapsBehind(xs, t, v, dtime, dnum);
    } else {
      TapsOfImpulse(xs, t, v, t + k * dtime, dtime, dnum, k);
    }
  }

  lemma TapsBehind(xs: seq<real>, t: nat, v: real, dtime: nat, dnum: nat)
    requires dtime > 0 && Impulse(xs, t, v)
    ensures TapSum(xs, t, dtime, dnum) == 0.0
  {
    forall j | 1 <= j <= dnum ensures t - j * dtime != t {
      MulStep(0, j, dtime);
    }
    TapsElsewhere(xs, t, v, t, dtime, dnum);
  }

  /** At every other time it is silent. */
  lemma ImpulseSilence(xs: seq<real>, t: nat, v: real, n: nat, dtime: nat, dnum: nat, mix: real)
    requires dnum > 0 && Impulse(xs, t, v) && forall k: nat :: k <= dnum ==> n != t + k * dtime
    ensures Mixed(xs, n, dtime, dnum, mix) == 0.0
  {
    assert n != t + 0 * dtime;
    TapsElsewhere(xs, t, v, n, dtime, dnum);
    BlendShares(v, dnum, mix);
  }

  lemma BlendShares(v: real, dnum: nat, mix: real)
    requires dnum > 0
    ensures Blend(v, 0.0, dnum, mix) == v * (1.0 - mix) && Blend(0.0, v, dnum, mix) == v * mix / dnum as real
    ensures Blend(0.0, 0.0, dnum, mix) == 0.0
  {
    ShareOfSilence(mix, dnum as real);
  }

  lemma ShareOfSilence(mix: real, d: real)
    requires d > 0.0
    ensures 0.0 * mix / d == 0.0 && 0.0 * (1.0 - mix) == 0.0
  {
  }

  lemma {:induction false} TapsOfSum(xs: seq<real>, ys: seq<real>, zs: seq<real>, n: int, dtime: nat, k: nat)
    requires forall i {:trigger At(zs, i)} :: At(zs, i) == At(xs, i) + At(ys, i)
    ensures TapSum(zs, n, dtime, k) == TapSum(xs, n, dtime, k) + TapSum(ys, n, dtime, k)
  {
    if k > 0 {
      TapsOfSum(xs, ys, zs, n, dtime, k - 1);
    }
  }

  /** Streams that are added up come out added up, so that the answers to single samples determine every output. */
  lemma Superposition(xs: seq<real>, ys: seq<real>, zs: seq<real>, n: nat, dtime: nat, dnum: nat, mix: real)
    requires dnum > 0 && forall i {:trigger At(zs, i)} :: At(zs, i) == At(xs, i) + At(ys, i)
    ensures Mixed(zs, n, dtime, dnum, mix) == Mixed(xs, n, dtime, dnum, mix) + Mixed(ys, n, dtime, dnum, mix)
  {
    TapsOfSum(xs, ys, zs, n, dtime, dnum);
    BlendSum(At(xs, n), At(ys, n), TapSum(xs, n, dtime, dnum), TapSum(ys, n, dtime, dnum), dnum, mix);
  }

  lemma BlendSum(a: real, b: real, s: real, t: real, dnum: nat, mix: real)
    requires dnum > 0
    ensures Blend(a + b, s + t, dnum, mix) == Blend(a, s, dnum, mix) + Blend(b, t, dnum, mix)
  {
    TimesSum(a, b, 1.0 - mix);
    TimesSum(s, t, mix);
    DivideSum(s * mix, t * mix, dnum as real);
  }

  lemma TimesSum(a: real, b: real, x: real)
    ensures (a + b) * x == a * x + b * x
  {
  }

  lemma DivideSum(a: real, b: real, d: real)
    requires d > 0.0
    ensures (a + b) / d == a / d + b / d
  {
  }

  // --- The ring against the formula ------------------------------------------

  /** What comes later does not change the output. */
  lemma {:induction false} TapSumPrefix(xs: seq<real>, ys: seq<real>, n: int, dtime: nat, k: nat)
    requires n <= |xs| && dtime > 0
    ensures TapSum(xs + ys, n, dtime, k) == TapSum(xs, n, dtime, k)
  {
    if k > 0 {
      TapSumPrefix(xs, ys, n, dtime, k - 1);
      MulStep(0, k, dtime);
    }
  }

  lemma MixedPrefix(xs: seq<real>, ys: seq<real>, n: nat, dtime: nat, dnum: nat, mix: real)
    requires n < |xs| && dtime > 0 && dnum > 0
    ensures Mixed(xs + ys, n, dtime, dnum, mix) == Mixed(xs, n, dtime, dnum, mix)
  {
    TapSumPrefix(xs, ys, n, dtime, dnum);
    assert At(xs + ys, n) == At(xs, n);
  }

  /** The output at the end of a stream in terms of the taps before its last sample. */
  lemma MixedOfLast(xs: seq<real>, x: real, dtime: nat, dnum: nat, mix: real)
    requires dtime > 0 && dnum > 0
    ensures Mixed(xs + [x], |xs|, dtime, dnum, mix)
         == Blend(x, TapSum(xs, |xs|, dtime, dnum), dnum, mix)
  {
    TapSumPrefix(xs, [x], |xs|, dtime, dnum);
    assert At(xs + [x], |xs|) == x;
  }

  /** How long ago the sample at tap `k` came in: the tap at 0 reads a whole ring back. */
  function TapAge(dtime: nat, dnum: nat, k: nat): int {
    if k == 0 then dtime * dnum else k * dtime
  }

  /** The sum of the first `k` taps in the order in which they are read. */
  function TapsRead(xs: seq<real>, n: int, dtime: nat, dnum: nat, k: nat): real {
    if k == 0 then 0.0 else TapSum(xs, n, dtime, k - 1) + At(xs, n - TapAge(dtime, dnum, 0))
  }

  lemma TapsReadStep(xs: seq<real>, n: int, dtime: nat, dnum: nat, k: nat)
    ensures TapsRead(xs, n, dtime, dnum, k + 1)
         == TapsRead(xs, n, dtime, dnum, k) + At(xs, n - TapAge(dtime, dnum, k))
  {
  }

  lemma TapsReadAll(xs: seq<real>, n: int, dtime: nat, dnum: nat)
    requires dnum > 0
    ensures TapsRead(xs, n, dtime, dnum, dnum) == TapSum(xs, n, dtime, dnum)
  {
    assert TapAge(dtime, dnum, 0) == dnum * dtime;
  }

  /** A tap is switched off only while it would still read from before the stream began. */
  ghost predicate Flags(filled: seq<bool>, n: nat, dtime: nat, dnum: nat) {
    |filled| == dnum && forall k :: 0 <= k < dnum ==> filled[k] || n == 0 || n < k * dtime
  }

  lemma FlagsStep(filled: seq<bool>, filled': seq<bool>, n: nat, below: int, dtime: nat, dnum: nat)
    requires dtime > 0 && Flags(filled, n, dtime, dnum) && |filled'| == dnum
    requires n < dtime * dnum ==> below == dtime * dnum - 2 - n
    requires forall k :: 0 <= k < dnum ==> filled'[k] == (filled[k] || below < dtime * dnum - dtime * k)
    ensures Flags(filled', n + 1, dtime, dnum)
  {
    forall k | 0 <= k < dnum ensures filled'[k] || n + 1 < k * dtime {
      MulStep(k, dnum, dtime);
      MulStep(0, dnum, dtime);
      assert dtime * k == k * dtime;
    }
  }

  /** Where the ring slot `d` places after `i` is. */
  function Slot(i: nat, d: nat, len: nat): nat
    requires i < len && d <= len
  {
    if i + d < len then i + d else i + d - len
  }

  class Multitap {
    const dtime: nat
    const dnum: nat
    const mix: real
    var delayIndex: nat
    var filled: seq<bool>
    var buffer: array<real>
    ghost var history: seq<real>

    function Len(): nat {
      dtime * dnum
    }

    /** The slot `d` places ahead of the index holds the input `d` samples ago. */
    ghost predicate Remembers()
      reads this, buffer
    {
      && delayIndex < Len() == buffer.Length
      && forall d :: 1 <= d <= Len() ==> buffer[Slot(delayIndex, d, Len())] == At(history, |history| - d)
    }

    ghost predicate FlagsOk()
      reads this
    {
      && (|history| < Len() ==> delayIndex == Len() - 1 - |history|)
      && Flags(filled, |history|, dtime, dnum)
    }

    ghost predicate Valid()
      reads this, buffer
    {
      dtime > 0 && dnum > 0 && Remembers() && FlagsOk()
    }

    /** `init`. */
    constructor (dtime: nat, dnum: nat, mix: real)
      requires dtime > 0 && dnum > 0
      ensures Valid() && fresh(buffer) && history == []
      ensures this.dtime == dtime && this.dnum == dnum && this.mix == mix
    {
      this.dtime, this.dnum, this.mix := dtime, dnum, mix;
      MulStep(0, dnum, dtime);
      delayIndex := dtime * dnum - 1;
      filled := seq(dnum, _ => false);
      buffer := new real[dtime * dnum](_ => 0.0);
      history := [];
    }

    /** The tap read at `k * dtime` is the input that long ago; the tap at 0 reads a whole ring back. */
    lemma TapAt(k: nat)
      requires Valid() && k < dnum
      ensures 0 <= k * dtime < Len() && (delayIndex + k * dtime) % Len() < Len()
      ensures var ago := TapAge(dtime, dnum, k);
              && buffer[(delayIndex + k * dtime) % Len()] == At(history, |history| - ago)
              && (!filled[k] ==> At(history, |history| - ago) == 0.0)
    {
      MulStep(k, dnum, dtime);
      MulStep(0, k, dtime);
      ModUnique(delayIndex, Len(), 0, delayIndex);
      ModAdvance(delayIndex, k * dtime, Len());
      var ago := TapAge(dtime, dnum, k);
      assert (delayIndex + k * dtime) % Len() == Slot(delayIndex, ago, Len());
    }

    /** The loop over the taps, for the sample about to come. */
    method SumTaps() returns (sum: real)
      requires Valid()
      ensures sum == TapSum(history, |history|, dtime, dnum)
    {
      sum := 0.0;
      for k := 0 to dnum
        invariant sum == TapsRead(history, |history|, dtime, dnum, k)
      {
        var tap := ReadTap(k);
        TapsReadStep(history, |history|, dtime, dnum, k);
        sum := sum + tap;
      }
      TapsReadAll(history, |history|, dtime, dnum);
    }

    /** One tap; one that is switched off counts as silence. */
    method ReadTap(k: nat) returns (tap: real)
      requires Valid() && k < dnum
      ensures tap == At(history, |history| - TapAge(dtime, dnum, k))
    {
      TapAt(k);
      tap := if filled[k] then buffer[(delayIndex + k * dtime) % (dtime * dnum)] else 0.0;
    }

    /** Write the sample at the index and move the index down, round the ring. */
    method Store(x: real)
      requires dtime > 0 && dnum > 0 && Remembers()
      modifies this`delayIndex, this`history, buffer
      ensures Remembers() && buffer == old(buffer) && history == old(history) + [x]
      ensures delayIndex == if old(delayIndex) == 0 then Len() - 1 else old(delayIndex) - 1
    {
      buffer[delayIndex] := x;
      delayIndex := if delayIndex == 0 then dtime * dnum - 1 else delayIndex - 1;
      history := history + [x];
      forall d | 1 <= d <= Len()
        ensures buffer[Slot(delayIndex, d, Len())] == At(history, |history| - d)
      {
        if d == 1 {
          assert Slot(delayIndex, d, Len()) == old(delayIndex);
        } else {
          assert Slot(delayIndex, d, Len()) == Slot(old(delayIndex), d - 1, Len()) != old(delayIndex);
        }
      }
    }

    /** Switch on the taps that the index, just moved to `below`, has passed. */
    method MarkFilled(below: int)
      requires |filled| == dnum
      modifies this`filled
      ensures |filled| == dnum
      ensures forall k :: 0 <= k < dnum ==> filled[k] == (old(filled)[k] || below < Len() - dtime * k)
    {
      for k := 0 to dnum
        invariant |filled| == dnum
        invariant forall j :: 0 <= j < k ==> filled[j] == (old(filled)[j] || below < Len() - dtime * j)
        invariant forall j :: k <= j < dnum ==> filled[j] == old(filled)[j]
      {
        if below < dtime * dnum - dtime * k {
          filled := filled[k := true];
        }
      }
    }

    /** One pass of the sample loop. */
    method ProcessSample(x: real) returns (y: real)
      requires Valid()
      modifies this`delayIndex, this`filled, this`history, buffer
      ensures Valid() && buffer == old(buffer)
      ensures history == old(history) + [x]
      ensures y == Mixed(history, |history| - 1, dtime, dnum, mix)
    {
      var temp1 := SumTaps();
      y := Blend(x, temp1, dnum, mix);
      MixedOfLast(history, x, dtime, dnum, mix);
      MarkFilled(delayIndex - 1);
      FlagsStep(old(filled), filled, |history|, delayIndex - 1, dtime, dnum);
      Store(x);
    }

    /** `out` is the mixed stream from time `from` on. */
    ghost predicate Renders(out: seq<real>, from: nat, xs: seq<real>)
      requires dnum > 0
    {
      forall j {:trigger out[j]} :: 0 <= j < |out| ==> out[j] == Mixed(xs, from + j, dtime, dnum, mix)
    }

    lemma RendersMore(out: seq<real>, from: nat, xs: seq<real>, x: real, y: real)
      requires dtime > 0 && dnum > 0 && from + |out| == |xs| && Renders(out, from, xs)
      requires y == Mixed(xs + [x], |xs|, dtime, dnum, mix)
      ensures Renders(out + [y], from, xs + [x])
    {
      forall j | 0 <= j < |out| ensures out[j] == Mixed(xs + [x], from + j, dtime, dnum, mix) {
        MixedPrefix(xs, [x], from + j, dtime, dnum, mix);
      }
    }

    /**
     `process` on a block, in place: whatever was processed before, each sample becomes the
     plain mix of itself with its delayed copies.
     */
    method Process(block: array<real>)
      requires Valid() && block != buffer
      modifies this`delayIndex, this`filled, this`history, buffer, block
      ensures Valid() && buffer == old(buffer)
      ensures history == old(history) + old(block[..])
      ensures Renders(block[..], |old(history)|, history)
    {
      ghost var from := |history|;
      for i := 0 to block.Length
        invariant Valid() && buffer == old(buffer)
        invariant history == old(history) + old(block[..i])
        invariant block[i..] == old(block[i..])
        invariant Renders(block[..i], from, history)
      {
        ghost var out, past := block[..i], history;
        var x := block[i];
        assert x == old(block[i..])[0];
        var y := ProcessSample(x);
        block[i] := y;
        RendersMore(out, from, past, x, y);
        assert block[..i + 1] == out + [y];
      }
      assert block[..block.Length] == block[..];
    }
  }
}
