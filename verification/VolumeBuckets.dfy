/**
 EFFECT_VOLUME_BUCKETS (libecasound/audiofx_analysis.cpp:57-68, 219-296) over the reals:
 counts of samples by amplitude, and the gain that would bring the peak to full scale.
 */
module VolumeBuckets {
  import opened Arithmetic
  import opened Samples

  const MAX_AMPLITUDE := 1.0

  /** Falling thresholds would be usual; all that matters is the catch-all entry at the end. */
  predicate Table(t: seq<real>) {
    |t| > 0 && t[|t| - 1] == -1.0
  }

  /** The bucket of an amplitude: the first whose threshold it exceeds. */
  function Bucket(t: seq<real>, a: real, from: nat): (j: nat)
    requires Table(t) && a >= 0.0 && from < |t|
    ensures from <= j < |t| && a > t[j] && forall i :: from <= i < j ==> a <= t[i]
    decreases |t| - from
  {
    if a > t[from] then from else Bucket(t, a, from + 1)
  }

  /** How many samples of a stream belong in bucket `j` on the given side. */
  function CountIn(t: seq<real>, xs: seq<real>, j: nat, negative: bool): nat
    requires Table(t)
  {
    if xs == [] then 0
    else
      var x := xs[|xs| - 1];
      CountIn(t, xs[..|xs| - 1], j, negative) +
      if (x < 0.0) == negative && Bucket(t, Abs(x), 0) == j then 1 else 0
  }

  lemma CountStep(t: seq<real>, xs: seq<real>, x: real, j: nat, negative: bool)
    requires Table(t)
    ensures CountIn(t, xs + [x], j, negative) == CountIn(t, xs, j, negative) +
            if (x < 0.0) == negative && Bucket(t, Abs(x), 0) == j then 1 else 0
  {
    assert (xs + [x])[..|xs + [x]| - 1] == xs;
  }

  /** One channel's column of the statistics. */
  datatype Stats = Stats(pos: seq<nat>, neg: seq<nat>, num: nat)

  /** The statistics are those of the stream `xs`. */
  ghost predicate Counts(t: seq<real>, st: Stats, xs: seq<real>)
    requires Table(t)
  {
    && |st.pos| == |st.neg| == |t| && st.num == |xs|
    && (forall j :: 0 <= j < |t| ==> st.pos[j] == CountIn(t, xs, j, false))
    && (forall j :: 0 <= j < |t| ==> st.neg[j] == CountIn(t, xs, j, true))
    && Sum(st.pos) + Sum(st.neg) == st.num
  }

  /** The peaks bound the stream on both sides. */
  ghost predicate Bounded(xs: seq<real>, maxPos: real, maxNeg: real) {
    forall i :: 0 <= i < |xs| ==> -maxNeg <= xs[i] <= maxPos
  }

  /** The search loop: the first bucket whose threshold the amplitude exceeds. */
  method FindBucket(t: seq<real>, x: real) returns (j: nat)
    requires Table(t)
    ensures j == Bucket(t, Abs(x), 0)
  {
    j := 0;
    while j < |t|
      invariant j < |t| && Bucket(t, Abs(x), 0) == Bucket(t, Abs(x), j)
      decreases |t| - j
    {
      if (x >= 0.0 && x > t[j]) || (x < 0.0 && x < -t[j]) {
        break;
      }
      j := j + 1;
    }
  }

  /** The loop body on one sample. */
  method AddSample(t: seq<real>, st: Stats, x: real, ghost xs: seq<real>) returns (st': Stats)
    requires Table(t) && Counts(t, st, xs)
    ensures Counts(t, st', xs + [x])
  {
    var j := FindBucket(t, x);
    st' := st.(num := st.num + 1);
    if x >= 0.0 {
      SumUpdate(st.pos, j, st.pos[j] + 1);
      st' := st'.(pos := st.pos[j := st.pos[j] + 1]);
    } else {
      SumUpdate(st.neg, j, st.neg[j] + 1);
      st' := st'.(neg := st.neg[j := st.neg[j] + 1]);
    }
    forall i | 0 <= i < |t|
      ensures st'.pos[i] == CountIn(t, xs + [x], i, false) && st'.neg[i] == CountIn(t, xs + [x], i, true)
    {
      CountStep(t, xs, x, i, false);
      CountStep(t, xs, x, i, true);
    }
  }

  /** All samples of one channel; the peaks are shared by the channels. */
  method ProcessRow(t: seq<real>, st: Stats, row: seq<real>, maxPos: real, maxNeg: real, ghost past: seq<real>)
    returns (st': Stats, maxPos': real, maxNeg': real)
    requires Table(t) && Counts(t, st, past)
    ensures Counts(t, st', past + row)
    ensures maxPos <= maxPos' && (maxPos' == maxPos || maxPos' in row)
    ensures maxNeg <= maxNeg' && (maxNeg' == maxNeg || -maxNeg' in row)
    ensures 0.0 <= maxPos && 0.0 <= maxNeg ==> Bounded(row, maxPos', maxNeg')
  {
    st', maxPos', maxNeg' := st, maxPos, maxNeg;
    assert past + row[..0] == past;
    for i := 0 to |row|
      invariant Counts(t, st', past + row[..i])
      invariant maxPos <= maxPos' && (maxPos' == maxPos || maxPos' in row)
      invariant maxNeg <= maxNeg' && (maxNeg' == maxNeg || -maxNeg' in row)
      invariant 0.0 <= maxPos && 0.0 <= maxNeg ==> forall k :: 0 <= k < i ==> -maxNeg' <= row[k] <= maxPos'
    {
      var x := row[i];
      if x >= 0.0 {
        if x > maxPos' { maxPos' := x; }
      } else {
        if -x > maxNeg' { maxNeg' := -x; }
      }
      st' := AddSample(t, st', x, past + row[..i]);
      assert past + row[..i] + [x] == past + row[..i + 1];
    }
    assert row[..|row|] == row;
  }

  /** A peak is zero or the amplitude of a sample that was processed. */
  ghost predicate Hit(fed: seq<seq<real>>, v: real) {
    v == 0.0 || exists ch :: 0 <= ch < |fed| && v in fed[ch]
  }

  /** The peaks are those of everything in `fed`. */
  ghost predicate Peaks(fed: seq<seq<real>>, maxPos: real, maxNeg: real) {
    && 0.0 <= maxPos && 0.0 <= maxNeg
    && (forall ch :: 0 <= ch < |fed| ==> Bounded(fed[ch], maxPos, maxNeg))
    && Hit(fed, maxPos) && Hit(fed, -maxNeg)
  }

  lemma PeaksGrow(fed: seq<seq<real>>, ch: nat, row: seq<real>, maxPos: real, maxNeg: real, maxPos': real, maxNeg': real)
    requires Peaks(fed, maxPos, maxNeg) && ch < |fed| && Bounded(row, maxPos', maxNeg')
    requires maxPos <= maxPos' && (maxPos' == maxPos || maxPos' in row)
    requires maxNeg <= maxNeg' && (maxNeg' == maxNeg || -maxNeg' in row)
    ensures Peaks(fed[ch := fed[ch] + row], maxPos', maxNeg')
  {
    var fed' := fed[ch := fed[ch] + row];
    HitGrows(fed, fed', ch, row, maxPos, maxPos');
    HitGrows(fed, fed', ch, row, -maxNeg, -maxNeg');
    forall c | 0 <= c < |fed'| ensures Bounded(fed'[c], maxPos', maxNeg') {
      assert Bounded(fed[c], maxPos, maxNeg);
    }
  }

  function Peak(maxPos: real, maxNeg: real): real {
    if maxNeg > maxPos then maxNeg else maxPos
  }

  /** `max_multiplier`. */
  function MaxMultiplier(maxPos: real, maxNeg: real): real {
    if Peak(maxPos, maxNeg) != 0.0 then MAX_AMPLITUDE / Peak(maxPos, maxNeg) else 0.0
  }

  /** Scaled by the multiplier, no processed sample exceeds full scale. */
  lemma MultiplierFits(fed: seq<seq<real>>, maxPos: real, maxNeg: real, ch: nat, i: nat)
    requires Peaks(fed, maxPos, maxNeg) && ch < |fed| && i < |fed[ch]|
    ensures Abs(Scaled(MaxMultiplier(maxPos, maxNeg), fed[ch][i])) <= MAX_AMPLITUDE
  {
    assert Bounded(fed[ch], maxPos, maxNeg);
    if Peak(maxPos, maxNeg) != 0.0 { ScaleBy(Peak(maxPos, maxNeg), fed[ch][i]); }
  }

  /** Unless everything was silent, some processed sample reaches full scale. */
  lemma MultiplierReaches(fed: seq<seq<real>>, maxPos: real, maxNeg: real, c: nat, k: nat) returns (ch: nat, i: nat)
    requires Peaks(fed, maxPos, maxNeg) && c < |fed| && k < |fed[c]| && fed[c][k] != 0.0
    ensures ch < |fed| && i < |fed[ch]|
    ensures Abs(Scaled(MaxMultiplier(maxPos, maxNeg), fed[ch][i])) == MAX_AMPLITUDE
  {
    assert Bounded(fed[c], maxPos, maxNeg);
    var peak := Peak(maxPos, maxNeg);
    var v := if maxNeg > maxPos then -maxNeg else maxPos;
    assert peak > 0.0 && Abs(v) == peak && Hit(fed, v);
    ch :| 0 <= ch < |fed| && v in fed[ch];
    i :| 0 <= i < |fed[ch]| && fed[ch][i] == v;
    ScaleBy(peak, v);
  }

  /** The multiplier is never negative, and zero exactly if every processed sample was silent. */
  lemma MultiplierOfSilence(fed: seq<seq<real>>, maxPos: real, maxNeg: real)
    requires Peaks(fed, maxPos, maxNeg)
    ensures MaxMultiplier(maxPos, maxNeg) >= 0.0
    ensures MaxMultiplier(maxPos, maxNeg) == 0.0 <==>
      forall ch, i :: 0 <= ch < |fed| && 0 <= i < |fed[ch]| ==> fed[ch][i] == 0.0
  {
    var peak := Peak(maxPos, maxNeg);
    if peak == 0.0 {
      forall ch, i | 0 <= ch < |fed| && 0 <= i < |fed[ch]| ensures fed[ch][i] == 0.0 {
        assert Bounded(fed[ch], maxPos, maxNeg);
      }
    } else {
      var k := MAX_AMPLITUDE / peak;
      assert k * peak == MAX_AMPLITUDE;
      assert k > 0.0;
      var v := if maxNeg > maxPos then -maxNeg else maxPos;
      assert Hit(fed, v);
      var ch :| 0 <= ch < |fed| && v in fed[ch];
      var i :| 0 <= i < |fed[ch]| && fed[ch][i] == v;
    }
  }

  class Buckets {
    const t: seq<real>
    var stats: seq<Stats>
    var maxPos: real
    var maxNeg: real
    /** What each channel has been shown since `init`. */
    ghost var fed: seq<seq<real>>

    ghost predicate Valid()
      reads this
    {
      && Table(t) && |stats| == |fed| && Peaks(fed, maxPos, maxNeg)
      && forall ch :: 0 <= ch < |fed| ==> Counts(t, stats[ch], fed[ch])
    }

    /** `init` for `channels` channels. */
    constructor (t: seq<real>, channels: nat)
      requires Table(t)
      ensures Valid() && this.t == t && fed == seq(channels, _ => [])
    {
      this.t := t;
      stats := seq(channels, _ => Stats(seq(|t|, _ => 0), seq(|t|, _ => 0), 0));
      maxPos, maxNeg := 0.0, 0.0;
      fed := seq(channels, _ => []);
      new;
      SumZeros(|t|);
    }

    /** One channel of a buffer. */
    method ProcessChannel(row: seq<real>, ch: nat)
      requires Valid() && ch < |fed|
      modifies this
      ensures Valid() && fed == old(fed)[ch := old(fed)[ch] + row]
    {
      var st, mp, mn := ProcessRow(t, stats[ch], row, maxPos, maxNeg, fed[ch]);
      PeaksGrow(fed, ch, row, maxPos, maxNeg, mp, mn);
      stats, maxPos, maxNeg := stats[ch := st], mp, mn;
      fed := fed[ch := fed[ch] + row];
    }

    /** `process`: nothing at all happens while somebody else holds the lock. */
    method Process(sb: SampleBuffer, lockTaken: bool)
      requires Valid() && |fed| == |sb.channels|
      modifies this
      ensures Valid() && |fed| == |old(fed)|
      ensures forall ch :: 0 <= ch < |fed| ==>
        fed[ch] == if lockTaken then old(fed)[ch] else old(fed)[ch] + sb.channels[ch]
    {
      if !lockTaken {
        for ch := 0 to |sb.channels|
          invariant Valid() && |fed| == |old(fed)| && sb.channels == old(sb.channels)
          invariant forall q :: 0 <= q < |fed| ==>
            fed[q] == if q < ch then old(fed)[q] + sb.channels[q] else old(fed)[q]
        {
          ProcessChannel(sb.channels[ch], ch);
        }
      }
    }

    /** `max_multiplier`, for all the samples processed since `init`. */
    method GetMaxMultiplier() returns (k: real)
      requires Valid()
      ensures forall ch, i :: 0 <= ch < |fed| && 0 <= i < |fed[ch]| ==> Abs(Scaled(k, fed[ch][i])) <= MAX_AMPLITUDE
      ensures (exists ch, i :: 0 <= ch < |fed| && 0 <= i < |fed[ch]| && fed[ch][i] != 0.0) ==>
                exists ch, i :: 0 <= ch < |fed| && 0 <= i < |fed[ch]| && Abs(Scaled(k, fed[ch][i])) == MAX_AMPLITUDE
      ensures k >= 0.0
      ensures k == 0.0 <==> forall ch, i :: 0 <= ch < |fed| && 0 <= i < |fed[ch]| ==> fed[ch][i] == 0.0
    {
      var maxPeak := maxPos;
      if maxNeg > maxPos {
        maxPeak := maxNeg;
      }
      if maxPeak != 0.0 {
        k := MAX_AMPLITUDE / maxPeak;
      } else {
        k := 0.0;
      }
      assert k == MaxMultiplier(maxPos, maxNeg);
      forall ch, i | 0 <= ch < |fed| && 0 <= i < |fed[ch]| ensures Abs(Scaled(k, fed[ch][i])) <= MAX_AMPLITUDE {
        MultiplierFits(fed, maxPos, maxNeg, ch, i);
      }
      MultiplierOfSilence(fed, maxPos, maxNeg);
      if exists c, n :: 0 <= c < |fed| && 0 <= n < |fed[c]| && fed[c][n] != 0.0 {
        ghost var c, n :| 0 <= c < |fed| && 0 <= n < |fed[c]| && fed[c][n] != 0.0;
        ghost var ch, i := MultiplierReaches(fed, maxPos, maxNeg, c, n);
      }
    }
  }

  lemma {:induction false} SumZeros(n: nat)
    ensures Sum(seq(n, _ => 0)) == 0
  {
    if n > 0 {
      var z := seq(n, _ => 0);
      assert z[1..] == seq(n - 1, _ => 0);
      SumZeros(n - 1);
    }
  }

  lemma HitGrows(fed: seq<seq<real>>, fed': seq<seq<real>>, ch: nat, row: seq<real>, v: real, v': real)
    requires ch < |fed| && fed' == fed[ch := fed[ch] + row] && Hit(fed, v)
    requires v' == v || v' in row
    ensures Hit(fed', v')
  {
    if v' in row {
      assert v' in fed'[ch];
    } else if v != 0.0 {
      var c :| 0 <= c < |fed| && v in fed[c];
      assert v in fed'[c];
    }
  }

  /** Dividing by the peak takes everything up to the peak to full scale at most, and the peak to full scale. */
  lemma ScaleBy(peak: real, x: real)
    requires peak > 0.0 && Abs(x) <= peak
    ensures Abs(Scaled(MAX_AMPLITUDE / peak, x)) <= MAX_AMPLITUDE
    ensures Abs(x) == peak ==> Abs(Scaled(MAX_AMPLITUDE / peak, x)) == MAX_AMPLITUDE
  {
    var k := MAX_AMPLITUDE / peak;
    assert k * peak == MAX_AMPLITUDE;
    assert k > 0.0;
    assert Abs(k * x) == k * Abs(x);
    assert k * (peak - Abs(x)) >= 0.0;
  }
}
