/**
 EFFECT_COMB_FILTER and EFFECT_INVERSE_COMB_FILTER (libecasound/audiofx_filter.cpp:341-432)
 over the reals, for any number of channels.
 */
module CombFilters {
  import opened Arithmetic
  import opened Samples

  /** `pow(radius, delay)` for an integer delay. */
  function Pow(radius: real, delay: nat): real {
    if delay == 0 then 1.0 else radius * Pow(radius, delay - 1)
  }

  // --- The filters as functions of a whole stream ----------------------------

  function Ago(s: seq<real>, delay: nat): real {
    if 0 < delay <= |s| then s[|s| - delay] else 0.0
  }

  /** Each output is the input plus the output `c` samples earlier, times `g`. */
  function Comb(g: real, c: nat, xs: seq<real>): (ys: seq<real>)
    ensures |ys| == |xs|
  {
    if xs == [] then []
    else
      var ys := Comb(g, c, xs[..|xs| - 1]);
      ys + [xs[|xs| - 1] + Scaled(g, Ago(ys, c))]
  }

  /** Each output is the input minus the input `c` samples earlier, times `g`. */
  function Inverse(g: real, c: nat, xs: seq<real>): (ys: seq<real>)
    ensures |ys| == |xs|
  {
    if xs == [] then []
    else
      var before := xs[..|xs| - 1];
      Inverse(g, c, before) + [xs[|xs| - 1] - Scaled(g, Ago(before, c))]
  }

  lemma CombStep(g: real, c: nat, xs: seq<real>, x: real)
    ensures Comb(g, c, xs + [x]) == Comb(g, c, xs) + [x + Scaled(g, Ago(Comb(g, c, xs), c))]
  {
    var all := xs + [x];
    assert all[..|all| - 1] == xs && all[|all| - 1] == x;
  }

  lemma InverseStep(g: real, c: nat, xs: seq<real>, x: real)
    ensures Inverse(g, c, xs + [x]) == Inverse(g, c, xs) + [x - Scaled(g, Ago(xs, c))]
  {
    var all := xs + [x];
    assert all[..|all| - 1] == xs && all[|all| - 1] == x;
  }

  /** The comb filter's difference equation, on a stream of any length. */
  lemma {:induction false} CombAt(g: real, c: nat, xs: seq<real>, n: nat)
    requires c >= 1 && n < |xs|
    ensures Comb(g, c, xs)[n] == xs[n] + if n >= c then g * Comb(g, c, xs)[n - c] else 0.0
    decreases |xs|
  {
    var before, x := xs[..|xs| - 1], xs[|xs| - 1];
    assert xs == before + [x];
    CombStep(g, c, before, x);
    ScaledZero(g);
    if n < |before| {
      CombAt(g, c, before, n);
    }
  }

  /** And the inverse filter's. */
  lemma {:induction false} InverseAt(g: real, c: nat, xs: seq<real>, n: nat)
    requires c >= 1 && n < |xs|
    ensures Inverse(g, c, xs)[n] == xs[n] - if n >= c then g * xs[n - c] else 0.0
    decreases |xs|
  {
    var before, x := xs[..|xs| - 1], xs[|xs| - 1];
    assert xs == before + [x];
    InverseStep(g, c, before, x);
    ScaledZero(g);
    if n < |before| {
      InverseAt(g, c, before, n);
    }
  }

  lemma {:induction false} PowAdd(r: real, a: nat, b: nat)
    ensures Pow(r, a + b) == Pow(r, a) * Pow(r, b)
  {
    if a > 0 {
      PowAdd(r, a - 1, b);
      MulAssoc(r, Pow(r, a - 1), Pow(r, b));
    }
  }

  lemma MulAssoc(x: real, y: real, z: real)
    ensures x * (y * z) == x * y * z
  {
  }

  /** A single sample followed by silence. */
  predicate Impulse(xs: seq<real>, v: real) {
    |xs| > 0 && xs[0] == v && forall i :: 0 < i < |xs| ==> xs[i] == 0.0
  }

  lemma Behind(n: nat, c: nat)
    requires c >= 1
    ensures n >= c ==> n % c == (n - c) % c
    ensures n < c ==> n % c == n
  {
    if n >= c {
      ModAdvance(n - c, c, c);
    } else {
      ModUnique(n, c, 0, n);
    }
  }

  /**
   A filter with the gain its `init` computes answers a single sample with an echo every
   `c` samples, falling by the radius with every sample in between.
   */
  lemma {:induction false} CombImpulse(radius: real, c: nat, xs: seq<real>, v: real, n: nat)
    requires c >= 1 && n < |xs| && Impulse(xs, v)
    ensures Comb(Pow(radius, c), c, xs)[n] == if n % c == 0 then Pow(radius, n) * v else 0.0
    decreases n
  {
    CombAt(Pow(radius, c), c, xs, n);
    Behind(n, c);
    if n >= c {
      CombImpulse(radius, c, xs, v, n - c);
      PowAdd(radius, c, n - c);
      MulAssoc(Pow(radius, c), Pow(radius, n - c), v);
    }
  }

  /** The inverse filter's answer: the sample, and once again `c` samples later. */
  lemma InverseImpulse(g: real, c: nat, xs: seq<real>, v: real, n: nat)
    requires c >= 1 && n < |xs| && Impulse(xs, v)
    ensures Inverse(g, c, xs)[n] == if n == 0 then v else if n == c then -(g * v) else 0.0
  {
    InverseAt(g, c, xs, n);
    ScaledZero(g);
    assert n > c ==> xs[n - c] == 0.0;
  }

  /** The inverse filter undoes the filter on every stream. */
  lemma {:induction false} InverseUndoesComb(g: real, c: nat, xs: seq<real>)
    ensures Inverse(g, c, Comb(g, c, xs)) == xs
  {
    if xs != [] {
      var before, x := xs[..|xs| - 1], xs[|xs| - 1];
      assert xs == before + [x];
      InverseUndoesComb(g, c, before);
      CombStep(g, c, before, x);
      var ys := Comb(g, c, before);
      InverseStep(g, c, ys, x + Scaled(g, Ago(ys, c)));
    }
  }

  /** The filter undoes the inverse filter on every stream. */
  lemma {:induction false} CombUndoesInverse(g: real, c: nat, xs: seq<real>)
    ensures Comb(g, c, Inverse(g, c, xs)) == xs
  {
    if xs != [] {
      var before, x := xs[..|xs| - 1], xs[|xs| - 1];
      assert xs == before + [x];
      CombUndoesInverse(g, c, before);
      InverseStep(g, c, before, x);
      CombStep(g, c, Inverse(g, c, before), x - Scaled(g, Ago(before, c)));
    }
  }

  /** The last `n` samples of a stream, or all of it. */
  function Last(s: seq<real>, n: nat): seq<real> {
    if |s| <= n then s else s[|s| - n..]
  }

  /** A deque of the last `c` samples takes in `y`: its front is the sample `c` ago and drops out. */
  lemma LastStep(s: seq<real>, c: nat, y: real)
    requires c >= 1
    ensures var b := Last(s, c);
            && (|b| >= c ==> b[0] == Ago(s, c))
            && (|b| < c ==> Ago(s, c) == 0.0)
            && Last(s + [y], c) == if |b| >= c then (b + [y])[1..] else b + [y]
  {
  }

  /** What the comb filter's deque computes for the next sample is what the whole stream says. */
  lemma CombSample(g: real, c: nat, fed: seq<real>, b: seq<real>, x: real, y: real)
    requires c >= 1 && b == Last(Comb(g, c, fed), c)
    requires y == if |b| >= c then x + Scaled(g, b[0]) else x
    ensures Comb(g, c, fed + [x]) == Comb(g, c, fed) + [y]
    ensures Last(Comb(g, c, fed + [x]), c) == if |b| >= c then (b + [y])[1..] else b + [y]
  {
    LastStep(Comb(g, c, fed), c, y);
    FrontIsAgo(g, c, Comb(g, c, fed), b);
    CombStep(g, c, fed, x);
  }

  /** The front of a full deque, or silence, scaled. */
  lemma FrontIsAgo(g: real, c: nat, ys: seq<real>, b: seq<real>)
    requires c >= 1 && b == Last(ys, c)
    ensures Scaled(g, Ago(ys, c)) == if |b| >= c then Scaled(g, b[0]) else 0.0
  {
    LastStep(ys, c, 0.0);
    ScaledZero(g);
  }

  /** What the inverse filter's deque and counter compute for the next sample. */
  lemma InverseSample(g: real, c: nat, fed: seq<real>, b: seq<real>, count: nat, x: real, y: real)
    requires c >= 1 && b == Last(fed, c) && count == |b|
    requires y == if count >= c then x - Scaled(g, (b + [x])[0]) else x
    ensures Inverse(g, c, fed + [x]) == Inverse(g, c, fed) + [y]
    ensures Last(fed + [x], c) == if count >= c then (b + [x])[1..] else b + [x]
  {
    LastStep(fed, c, x);
    InverseStep(g, c, fed, x);
    ScaledZero(g);
  }

  /** A comb filter that had been fed `past` turned `row` into `out`. */
  ghost predicate CombFeeds(g: real, c: nat, past: seq<real>, row: seq<real>, now: seq<real>, out: seq<real>) {
    now == past + row && Comb(g, c, now) == Comb(g, c, past) + out
  }

  lemma CombFeedsNothing(g: real, c: nat, past: seq<real>, row: seq<real>)
    ensures CombFeeds(g, c, past, row[..0], past, row[..0]) && row[0..] == row
  {
  }

  lemma CombFeedsMore(g: real, c: nat, past: seq<real>, row: seq<real>, now: seq<real>, out: seq<real>, x: real, y: real)
    requires CombFeeds(g, c, past, row, now, out) && Comb(g, c, now + [x]) == Comb(g, c, now) + [y]
    ensures CombFeeds(g, c, past, row + [x], now + [x], out + [y])
  {
    assert past + (row + [x]) == (past + row) + [x];
  }

  /** One sample of a row processed in place, `line` being half output, half input. */
  lemma CombFeedsAt(g: real, c: nat, past: seq<real>, row: seq<real>, now: seq<real>, line: seq<real>, i: nat, y: real)
    requires i < |line| == |row| && line[i..] == row[i..]
    requires CombFeeds(g, c, past, row[..i], now, line[..i]) && Comb(g, c, now + [line[i]]) == Comb(g, c, now) + [y]
    ensures line[i := y][i + 1..] == row[i + 1..]
    ensures CombFeeds(g, c, past, row[..i + 1], now + [line[i]], line[i := y][..i + 1])
  {
    assert line[i..][0] == row[i..][0];
    assert row[..i + 1] == row[..i] + [line[i]] && line[i := y][..i + 1] == line[..i] + [y];
    assert line[i := y][i + 1..] == line[i..][1..] && row[i + 1..] == row[i..][1..];
    CombFeedsMore(g, c, past, row[..i], now, line[..i], line[i], y);
  }

  /** An inverse comb filter that had been fed `past` turned `row` into `out`. */
  ghost predicate InverseFeeds(g: real, c: nat, past: seq<real>, row: seq<real>, now: seq<real>, out: seq<real>) {
    now == past + row && Inverse(g, c, now) == Inverse(g, c, past) + out
  }

  lemma InverseFeedsNothing(g: real, c: nat, past: seq<real>, row: seq<real>)
    ensures InverseFeeds(g, c, past, row[..0], past, row[..0]) && row[0..] == row
  {
  }

  lemma InverseFeedsMore(g: real, c: nat, past: seq<real>, row: seq<real>, now: seq<real>, out: seq<real>, x: real, y: real)
    requires InverseFeeds(g, c, past, row, now, out) && Inverse(g, c, now + [x]) == Inverse(g, c, now) + [y]
    ensures InverseFeeds(g, c, past, row + [x], now + [x], out + [y])
  {
    assert past + (row + [x]) == (past + row) + [x];
  }

  /** One sample of a row processed in place, `line` being half output, half input. */
  lemma InverseFeedsAt(g: real, c: nat, past: seq<real>, row: seq<real>, now: seq<real>, line: seq<real>, i: nat, y: real)
    requires i < |line| == |row| && line[i..] == row[i..]
    requires InverseFeeds(g, c, past, row[..i], now, line[..i]) && Inverse(g, c, now + [line[i]]) == Inverse(g, c, now) + [y]
    ensures line[i := y][i + 1..] == row[i + 1..]
    ensures InverseFeeds(g, c, past, row[..i + 1], now + [line[i]], line[i := y][..i + 1])
  {
    assert line[i..][0] == row[i..][0];
    assert row[..i + 1] == row[..i] + [line[i]] && line[i := y][..i + 1] == line[..i] + [y];
    assert line[i := y][i + 1..] == line[i..][1..] && row[i + 1..] == row[i..][1..];
    InverseFeedsMore(g, c, past, row[..i], now, line[..i], line[i], y);
  }

  class CombFilter {
    const delay: nat
    const gain: real
    /** One deque of past outputs per channel. */
    var buffer: seq<seq<real>>
    /** What each channel has been fed since `init`. */
    ghost var fed: seq<seq<real>>

    ghost predicate Valid()
      reads this
    {
      && delay >= 1 && |buffer| == |fed|
      && forall ch :: 0 <= ch < |fed| ==> buffer[ch] == Last(Comb(gain, delay, fed[ch]), delay)
    }

    /** `init` for `channels` channels. */
    constructor (delay: nat, radius: real, channels: nat)
      requires delay >= 1
      ensures Valid() && this.delay == delay && gain == Pow(radius, delay)
      ensures fed == seq(channels, _ => [])
    {
      this.delay, gain := delay, Pow(radius, delay);
      buffer, fed := seq(channels, _ => []), seq(channels, _ => []);
    }

    /** `init` again, on a filter in use: every channel starts over. */
    method Init(channels: nat)
      requires delay >= 1
      modifies this
      ensures Valid() && fed == seq(channels, _ => [])
    {
      buffer, fed := seq(channels, _ => []), seq(channels, _ => []);
    }

    /** The loop body on one sample of one channel. */
    method ProcessSample(ch: nat, x: real) returns (y: real)
      requires Valid() && ch < |fed|
      modifies this
      ensures Valid() && fed == old(fed)[ch := old(fed)[ch] + [x]]
      ensures Comb(gain, delay, fed[ch]) == Comb(gain, delay, old(fed)[ch]) + [y]
    {
      var b := buffer[ch];
      y := if |b| >= delay then x + Scaled(gain, b[0]) else x;
      buffer := buffer[ch := if |b| >= delay then (b + [y])[1..] else b + [y]];
      CombSample(gain, delay, fed[ch], b, x, y);
      fed := fed[ch := fed[ch] + [x]];
    }

    /** The loop body in place: sample `i` of a row of which `past` came before. */
    method ProcessAt(sb: SampleBuffer, ch: nat, i: nat, ghost past: seq<real>, ghost row: seq<real>)
      requires Valid() && ch < |fed| == |sb.channels| && i < |row| == |sb.channels[ch]|
      requires sb.channels[ch][i..] == row[i..]
      requires CombFeeds(gain, delay, past, row[..i], fed[ch], sb.channels[ch][..i])
      modifies this, sb
      ensures Valid() && |sb.channels| == |old(sb.channels)| && |fed| == |old(fed)|
      ensures forall q :: 0 <= q < |fed| && q != ch ==>
        fed[q] == old(fed)[q] && sb.channels[q] == old(sb.channels)[q]
      ensures |sb.channels[ch]| == |row| && sb.channels[ch][i + 1..] == row[i + 1..]
      ensures CombFeeds(gain, delay, past, row[..i + 1], fed[ch], sb.channels[ch][..i + 1])
    {
      ghost var line, now := sb.channels[ch], fed[ch];
      var x := sb.channels[ch][i];
      var y := ProcessSample(ch, x);
      sb.channels := sb.channels[ch := sb.channels[ch][i := y]];
      CombFeedsAt(gain, delay, past, row, now, line, i, y);
    }

    /** The inner loop: all samples of one channel, in place. */
    method ProcessChannel(sb: SampleBuffer, ch: nat)
      requires Valid() && ch < |fed| == |sb.channels|
      modifies this, sb
      ensures Valid() && |sb.channels| == |old(sb.channels)| && |fed| == |old(fed)|
      ensures forall q :: 0 <= q < |fed| && q != ch ==>
        fed[q] == old(fed)[q] && sb.channels[q] == old(sb.channels)[q]
      ensures CombFeeds(gain, delay, old(fed)[ch], old(sb.channels)[ch], fed[ch], sb.channels[ch])
    {
      ghost var row, past := sb.channels[ch], fed[ch];
      CombFeedsNothing(gain, delay, past, row);
      for i := 0 to |sb.channels[ch]|
        invariant Valid() && |sb.channels| == |old(sb.channels)| && |fed| == |old(fed)|
        invariant forall q :: 0 <= q < |fed| && q != ch ==>
          fed[q] == old(fed)[q] && sb.channels[q] == old(sb.channels)[q]
        invariant |sb.channels[ch]| == |row| && sb.channels[ch][i..] == row[i..]
        invariant CombFeeds(gain, delay, past, row[..i], fed[ch], sb.channels[ch][..i])
      {
        ProcessAt(sb, ch, i, past, row);
      }
      assert row[..|row|] == row && sb.channels[ch][..|row|] == sb.channels[ch];
    }

    /** `process`: every channel on its own, in place, continuing its stream. */
    method Process(sb: SampleBuffer)
      requires Valid() && |fed| == |sb.channels|
      modifies this, sb
      ensures Valid() && |sb.channels| == |old(sb.channels)| == |fed|
      ensures forall ch :: 0 <= ch < |fed| ==>
        CombFeeds(gain, delay, old(fed)[ch], old(sb.channels)[ch], fed[ch], sb.channels[ch])
    {
      for ch := 0 to |sb.channels|
        invariant Valid() && |sb.channels| == |old(sb.channels)| == |fed| == |old(fed)|
        invariant forall q :: 0 <= q < ch ==>
          CombFeeds(gain, delay, old(fed)[q], old(sb.channels)[q], fed[q], sb.channels[q])
        invariant forall q :: ch <= q < |fed| ==> fed[q] == old(fed)[q] && sb.channels[q] == old(sb.channels)[q]
      {
        ProcessChannel(sb, ch);
      }
    }
  }

  class InverseCombFilter {
    const delay: nat
    const gain: real
    /** One deque of past inputs per channel, and how many it holds. */
    var buffer: seq<seq<real>>
    var laskuri: seq<nat>
    /** What each channel has been fed since `init`. */
    ghost var fed: seq<seq<real>>

    ghost predicate Valid()
      reads this
    {
      && delay >= 1 && |buffer| == |laskuri| == |fed|
      && forall ch :: 0 <= ch < |fed| ==> buffer[ch] == Last(fed[ch], delay) && laskuri[ch] == |buffer[ch]|
    }

    /** `init` for `channels` channels. */
    constructor (delay: nat, radius: real, channels: nat)
      requires delay >= 1
      ensures Valid() && this.delay == delay && gain == Pow(radius, delay)
      ensures fed == seq(channels, _ => [])
    {
      this.delay, gain := delay, Pow(radius, delay);
      buffer, fed := seq(channels, _ => []), seq(channels, _ => []);
      laskuri := seq(channels, _ => 0);
    }

    /** `init` again, on a filter in use: every channel starts over. */
    method Init(channels: nat)
      requires delay >= 1
      modifies this
      ensures Valid() && fed == seq(channels, _ => [])
    {
      buffer, fed := seq(channels, _ => []), seq(channels, _ => []);
      laskuri := seq(channels, _ => 0);
    }

    /** The loop body on one sample of one channel. */
    method ProcessSample(ch: nat, x: real) returns (y: real)
      requires Valid() && ch < |fed|
      modifies this
      ensures Valid() && fed == old(fed)[ch := old(fed)[ch] + [x]]
      ensures Inverse(gain, delay, fed[ch]) == Inverse(gain, delay, old(fed)[ch]) + [y]
    {
      var b := buffer[ch] + [x];
      y := if laskuri[ch] >= delay then x - Scaled(gain, b[0]) else x;
      InverseSample(gain, delay, fed[ch], buffer[ch], laskuri[ch], x, y);
      if laskuri[ch] >= delay {
        buffer := buffer[ch := b[1..]];
      } else {
        buffer := buffer[ch := b];
        laskuri := laskuri[ch := laskuri[ch] + 1];
      }
      fed := fed[ch := fed[ch] + [x]];
    }

    /** The loop body in place: sample `i` of a row of which `past` came before. */
    method ProcessAt(sb: SampleBuffer, ch: nat, i: nat, ghost past: seq<real>, ghost row: seq<real>)
      requires Valid() && ch < |fed| == |sb.channels| && i < |row| == |sb.channels[ch]|
      requires sb.channels[ch][i..] == row[i..]
      requires InverseFeeds(gain, delay, past, row[..i], fed[ch], sb.channels[ch][..i])
      modifies this, sb
      ensures Valid() && |sb.channels| == |old(sb.channels)| && |fed| == |old(fed)|
      ensures forall q :: 0 <= q < |fed| && q != ch ==>
        fed[q] == old(fed)[q] && sb.channels[q] == old(sb.channels)[q]
      ensures |sb.channels[ch]| == |row| && sb.channels[ch][i + 1..] == row[i + 1..]
      ensures InverseFeeds(gain, delay, past, row[..i + 1], fed[ch], sb.channels[ch][..i + 1])
    {
      ghost var line, now := sb.channels[ch], fed[ch];
      var x := sb.channels[ch][i];
      var y := ProcessSample(ch, x);
      sb.channels := sb.channels[ch := sb.channels[ch][i := y]];
      InverseFeedsAt(gain, delay, past, row, now, line, i, y);
    }

    /** The inner loop: all samples of one channel, in place. */
    method ProcessChannel(sb: SampleBuffer, ch: nat)
      requires Valid() && ch < |fed| == |sb.channels|
      modifies this, sb
      ensures Valid() && |sb.channels| == |old(sb.channels)| && |fed| == |old(fed)|
      ensures forall q :: 0 <= q < |fed| && q != ch ==>
        fed[q] == old(fed)[q] && sb.channels[q] == old(sb.channels)[q]
      ensures InverseFeeds(gain, delay, old(fed)[ch], old(sb.channels)[ch], fed[ch], sb.channels[ch])
    {
      ghost var row, past := sb.channels[ch], fed[ch];
      InverseFeedsNothing(gain, delay, past, row);
      for i := 0 to |sb.channels[ch]|
        invariant Valid() && |sb.channels| == |old(sb.channels)| && |fed| == |old(fed)|
        invariant forall q :: 0 <= q < |fed| && q != ch ==>
          fed[q] == old(fed)[q] && sb.channels[q] == old(sb.channels)[q]
        invariant |sb.channels[ch]| == |row| && sb.channels[ch][i..] == row[i..]
        invariant InverseFeeds(gain, delay, past, row[..i], fed[ch], sb.channels[ch][..i])
      {
        ProcessAt(sb, ch, i, past, row);
      }
      assert row[..|row|] == row && sb.channels[ch][..|row|] == sb.channels[ch];
    }

    /** `process`: every channel on its own, in place, continuing its stream. */
    method Process(sb: SampleBuffer)
      requires Valid() && |fed| == |sb.channels|
      modifies this, sb
      ensures Valid() && |sb.channels| == |old(sb.channels)| == |fed|
      ensures forall ch :: 0 <= ch < |fed| ==>
        InverseFeeds(gain, delay, old(fed)[ch], old(sb.channels)[ch], fed[ch], sb.channels[ch])
    {
      for ch := 0 to |sb.channels|
        invariant Valid() && |sb.channels| == |old(sb.channels)| == |fed| == |old(fed)|
        invariant forall q :: 0 <= q < ch ==>
          InverseFeeds(gain, delay, old(fed)[q], old(sb.channels)[q], fed[q], sb.channels[q])
        invariant forall q :: ch <= q < |fed| ==> fed[q] == old(fed)[q] && sb.channels[q] == old(sb.channels)[q]
      {
        ProcessChannel(sb, ch);
      }
    }
  }

  // --- The two filters in a chain --------------------------------------------

  lemma RowUndoneByInverse(g: real, c: nat, past: seq<real>, row: seq<real>, now: seq<real>,
                           mid: seq<real>, now': seq<real>, out: seq<real>)
    requires CombFeeds(g, c, past, row, now, mid) && InverseFeeds(g, c, Comb(g, c, past), mid, now', out)
    ensures out == row && now' == Comb(g, c, now)
  {
    InverseUndoesComb(g, c, past);
    InverseUndoesComb(g, c, now);
    assert out == (past + out)[|past|..] && row == (past + row)[|past|..];
  }

  lemma RowUndoneByComb(g: real, c: nat, past: seq<real>, row: seq<real>, now: seq<real>,
                        mid: seq<real>, now': seq<real>, out: seq<real>)
    requires InverseFeeds(g, c, past, row, now, mid) && CombFeeds(g, c, Inverse(g, c, past), mid, now', out)
    ensures out == row && now' == Inverse(g, c, now)
  {
    CombUndoesInverse(g, c, past);
    CombUndoesInverse(g, c, now);
    assert out == (past + out)[|past|..] && row == (past + row)[|past|..];
  }

  /** A comb filter followed by its inverse leaves every block as it was, block after block. */
  method CombThenInverse(comb: CombFilter, inverse: InverseCombFilter, sb: SampleBuffer)
    requires comb.Valid() && inverse.Valid() && comb.delay == inverse.delay && comb.gain == inverse.gain
    requires |comb.fed| == |inverse.fed| == |sb.channels|
    requires forall ch :: 0 <= ch < |comb.fed| ==> inverse.fed[ch] == Comb(comb.gain, comb.delay, comb.fed[ch])
    modifies comb, inverse, sb
    ensures sb.channels == old(sb.channels)
    ensures comb.Valid() && inverse.Valid() && |comb.fed| == |inverse.fed| == |sb.channels|
    ensures forall ch :: 0 <= ch < |comb.fed| ==> inverse.fed[ch] == Comb(comb.gain, comb.delay, comb.fed[ch])
  {
    ghost var g, c := comb.gain, comb.delay;
    ghost var past, rows := comb.fed, sb.channels;
    comb.Process(sb);
    ghost var mid := sb.channels;
    inverse.Process(sb);
    forall ch | 0 <= ch < |past|
      ensures sb.channels[ch] == rows[ch] && inverse.fed[ch] == Comb(g, c, comb.fed[ch])
    {
      RowUndoneByInverse(g, c, past[ch], rows[ch], comb.fed[ch], mid[ch], inverse.fed[ch], sb.channels[ch]);
    }
  }

  /** An inverse comb filter followed by the filter leaves every block as it was, block after block. */
  method InverseThenComb(inverse: InverseCombFilter, comb: CombFilter, sb: SampleBuffer)
    requires comb.Valid() && inverse.Valid() && comb.delay == inverse.delay && comb.gain == inverse.gain
    requires |comb.fed| == |inverse.fed| == |sb.channels|
    requires forall ch :: 0 <= ch < |comb.fed| ==> comb.fed[ch] == Inverse(comb.gain, comb.delay, inverse.fed[ch])
    modifies comb, inverse, sb
    ensures sb.channels == old(sb.channels)
    ensures comb.Valid() && inverse.Valid() && |comb.fed| == |inverse.fed| == |sb.channels|
    ensures forall ch :: 0 <= ch < |comb.fed| ==> comb.fed[ch] == Inverse(comb.gain, comb.delay, inverse.fed[ch])
  {
    ghost var g, c := comb.gain, comb.delay;
    ghost var past, rows := inverse.fed, sb.channels;
    inverse.Process(sb);
    ghost var mid := sb.channels;
    comb.Process(sb);
    forall ch | 0 <= ch < |past|
      ensures sb.channels[ch] == rows[ch] && comb.fed[ch] == Inverse(g, c, inverse.fed[ch])
    {
      RowUndoneByComb(g, c, past[ch], rows[ch], inverse.fed[ch], mid[ch], comb.fed[ch], sb.channels[ch]);
    }
  }
}
