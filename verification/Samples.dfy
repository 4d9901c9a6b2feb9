/** SAMPLE_BUFFER (libecasound/samplebuffer.cpp): one channel as a sequence of reals, and whole buffers. */
module Samples {

  function Min(a: int, b: int): int {
    if a < b then a else b
  }

  function Abs(x: real): real {
    if x < 0.0 then -x else x
  }

  function Scaled(g: real, x: real): real {
    g * x
  }

  lemma ScaledZero(g: real)
    ensures Scaled(g, 0.0) == 0.0
  {
  }

  function Silence(n: nat): (s: seq<real>)
    ensures |s| == n && forall i :: 0 <= i < n ==> s[i] == 0.0
  {
    seq(n, _ => 0.0)
  }

  /** `length_in_samples(n)`: cut, or extend with silence. */
  function Resized(s: seq<real>, n: nat): (r: seq<real>)
    ensures |r| == n
    ensures forall i :: 0 <= i < n ==> r[i] == if i < |s| then s[i] else 0.0
  {
    if n <= |s| then s[..n] else s + Silence(n - |s|)
  }

  /** `copy_range`: samples `from..to` of `src` over `dst` at `at`, clipped to both buffers. */
  function CopyRange(dst: seq<real>, src: seq<real>, from: nat, to: nat, at: nat): (r: seq<real>)
    ensures |r| == |dst|
    ensures forall j :: 0 <= j < |r| ==>
      r[j] == if at <= j < at + Min(to, |src|) - from then src[from + j - at] else dst[j]
  {
    seq(|dst|, j requires 0 <= j < |dst| =>
      if at <= j < at + Min(to, |src|) - from then src[from + j - at] else dst[j])
  }

  /** A range that fits arrives whole and leaves the samples before it alone. */
  lemma CopyRangeFits(dst: seq<real>, src: seq<real>, from: nat, to: nat, at: nat)
    requires from <= to <= |src| && at + (to - from) <= |dst|
    ensures var r := CopyRange(dst, src, from, to, at);
            r[..at] == dst[..at] && r[at..at + (to - from)] == src[from..to]
  {
    var r := CopyRange(dst, src, from, to, at);
    forall i | 0 <= i < to - from ensures r[at..at + (to - from)][i] == src[from..to][i] {
      assert r[at + i] == src[from + i];
    }
  }

  /** A buffer made `n` long whose end is overwritten keeps its beginning. */
  lemma Overlaid(s: seq<real>, tail: seq<real>, n: nat)
    requires |tail| <= n <= |s| + |tail|
    ensures CopyRange(Resized(s, n), tail, 0, |tail|, n - |tail|) == s[..n - |tail|] + tail
  {
  }

  /** A SAMPLE_BUFFER: the samples of each channel, replaced in place. */
  class SampleBuffer {
    var channels: seq<seq<real>>

    constructor (channels: seq<seq<real>>)
      ensures this.channels == channels
    {
      this.channels := channels;
    }
  }
}
