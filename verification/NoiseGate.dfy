/**
 EFFECT_NOISEGATE (libecasound/audiofx_amplitude.cpp:611-729) over the reals: a state
 machine per channel that fades a signal out after it has been quiet for a while and
 back in after it has been loud for a while.
 */
module NoiseGate {
  import opened Samples

  /** Any values are accepted; `byZero` is what dividing by a release length of zero gives. */
  datatype Params = Params(level: real, thTime: real, atime: real, htime: real, rtime: real, byZero: real)

  datatype Status = Waiting | Attacking | Active | Holding | Releasing

  /** The state of one channel. */
  datatype Gate = Gate(
    status: Status, thTime: nat, attack: nat, hold: nat, release: nat, gain: real)

  const INITIAL := Gate(Waiting, 0, 0, 0, 0, 0.0)

  predicate Below(p: Params, x: real) {
    Abs(x) <= p.level
  }

  predicate Reached(count: nat, time: real) {
    count as real >= time
  }

  /** The gain in the middle of a release. */
  function ReleaseGain(p: Params, count: nat): real {
    if p.rtime == 0.0 then p.byZero else count as real / p.rtime
  }

  /** One pass of the sample loop: the next state, and the factor the sample is multiplied by. */
  function Step(p: Params, g: Gate, x: real): (Gate, real) {
    match g.status
    case Waiting =>
      if !Below(p, x) then (g.(thTime := 0), 1.0)
      else if Reached(g.thTime + 1, p.thTime) then (g.(thTime := 0, status := Attacking), 1.0)
      else (g.(thTime := g.thTime + 1), 1.0)
    case Attacking =>
      if !Below(p, x) then (g.(attack := 0, status := Waiting), 1.0)
      else if Reached(g.attack + 1, p.atime) then (g.(attack := 0, status := Active, gain := 0.0), 0.0)
      else
        var gain := 1.0 - (g.attack + 1) as real / p.atime;
        (g.(attack := g.attack + 1, gain := gain), gain)
    case Active => (if Below(p, x) then g else g.(status := Holding), 0.0)
    case Holding =>
      if Below(p, x) then (g, 0.0)
      else if Reached(g.hold + 1, p.htime) then (g.(hold := 0, status := Releasing), 0.0)
      else (g.(hold := g.hold + 1), 0.0)
    case Releasing =>
      var gain := ReleaseGain(p, g.release + 1);
      if Reached(g.release + 1, p.rtime) then (g.(release := 0, status := Waiting, gain := gain), gain)
      else (g.(release := g.release + 1, gain := gain), gain)
  }

  /** The state after a whole stream. */
  function After(p: Params, xs: seq<real>): Gate {
    if xs == [] then INITIAL else Step(p, After(p, xs[..|xs| - 1]), xs[|xs| - 1]).0
  }

  /** The factor applied to sample `i` of a stream. */
  function Factor(p: Params, xs: seq<real>, i: nat): real
    requires i < |xs|
  {
    Step(p, After(p, xs[..i]), xs[i]).1
  }

  /** What sample `i` of a stream becomes. */
  function Output(p: Params, xs: seq<real>, i: nat): real
    requires i < |xs|
  {
    Scaled(Factor(p, xs, i), xs[i])
  }

  lemma AfterStep(p: Params, xs: seq<real>, x: real)
    ensures After(p, xs + [x]) == Step(p, After(p, xs), x).0
  {
    assert (xs + [x])[..|xs + [x]| - 1] == xs;
  }

  // --- What holds after every stream -----------------------------------------

  /** Only the counter of the current state is running, and it has not reached its end. */
  predicate CountersOk(p: Params, g: Gate) {
    && (!g.status.Waiting? ==> g.thTime == 0)
    && (!g.status.Attacking? ==> g.attack == 0)
    && (!g.status.Holding? ==> g.hold == 0)
    && (!g.status.Releasing? ==> g.release == 0)
    && (g.thTime > 0 ==> !Reached(g.thTime, p.thTime))
    && (g.attack > 0 ==> !Reached(g.attack, p.atime))
    && (g.hold > 0 ==> !Reached(g.hold, p.htime))
    && (g.release > 0 ==> !Reached(g.release, p.rtime))
  }

  /** While waiting, the counter says how many samples in a row have just been quiet. */
  predicate QuietFor(p: Params, xs: seq<real>, n: nat) {
    n <= |xs| && forall i :: |xs| - n <= i < |xs| ==> Below(p, xs[i])
  }

  lemma {:induction false} CountersExclusive(p: Params, xs: seq<real>)
    ensures CountersOk(p, After(p, xs))
  {
    if xs != [] {
      CountersExclusive(p, xs[..|xs| - 1]);
    }
  }

  lemma {:induction false} WaitingCountsQuiet(p: Params, xs: seq<real>)
    ensures QuietFor(p, xs, After(p, xs).thTime)
  {
    if xs != [] {
      var before := xs[..|xs| - 1];
      WaitingCountsQuiet(p, before);
      CountersExclusive(p, before);
    }
  }

  /** An attack begins only with a sample that completes at least `thTime` quiet ones in a row. */
  lemma AttackNeedsQuiet(p: Params, xs: seq<real>, x: real) returns (quiet: nat)
    requires !After(p, xs).status.Attacking? && After(p, xs + [x]).status.Attacking?
    ensures QuietFor(p, xs + [x], quiet) && quiet as real >= p.thTime && quiet >= 1
  {
    AfterStep(p, xs, x);
    WaitingCountsQuiet(p, xs);
    quiet := After(p, xs).thTime + 1;
  }

  // --- The factors, from the samples -------------------------------------------

  /** The factor of a sample that comes after `xs`. */
  lemma FactorNext(p: Params, xs: seq<real>, x: real)
    ensures Factor(p, xs + [x], |xs|) == Step(p, After(p, xs), x).1
  {
    assert (xs + [x])[..|xs|] == xs;
  }

  /** What comes later does not change a factor. */
  lemma FactorStays(p: Params, xs: seq<real>, ys: seq<real>, i: nat)
    requires i < |xs|
    ensures Factor(p, xs + ys, i) == Factor(p, xs, i)
  {
    assert (xs + ys)[..i] == xs[..i];
  }

  /** The factor of a sample within a stretch depends on the samples up to it. */
  lemma FactorWithin(p: Params, xs: seq<real>, ys: seq<real>, k: nat)
    requires 0 < k <= |ys|
    ensures Factor(p, xs + ys, |xs| + k - 1) == Factor(p, xs + ys[..k - 1] + [ys[k - 1]], |xs + ys[..k - 1]|)
  {
    var zs := xs + ys[..k - 1] + [ys[k - 1]];
    assert xs + ys == zs + ys[k..];
    FactorStays(p, zs, ys[k..], |xs| + k - 1);
  }

  lemma QuietWithin(p: Params, ys: seq<real>, k: nat)
    requires AllQuiet(p, ys) && 0 < k <= |ys|
    ensures AllQuiet(p, ys[..k - 1]) && Below(p, ys[k - 1])
  {
    assert ys[k - 1] in ys;
    assert forall y <- ys[..k - 1] :: y in ys;
  }

  predicate AllQuiet(p: Params, ys: seq<real>) {
    forall x <- ys :: Below(p, x)
  }

  /** The samples i to j - 1 are quiet, and enough of them to set off an attack. */
  predicate LongQuiet(p: Params, ys: seq<real>, i: nat, j: nat) {
    i < j <= |ys| && AllQuiet(p, ys[i..j]) && Reached(j - i, p.thTime)
  }

  /** There are never that many quiet samples in a row. */
  ghost predicate Calm(p: Params, ys: seq<real>) {
    forall i: nat, j: nat :: !LongQuiet(p, ys, i, j)
  }

  /** How many quiet samples in a row the stream ends with. */
  function Trailing(p: Params, ys: seq<real>): (n: nat)
    ensures n <= |ys|
  {
    if ys != [] && Below(p, ys[|ys| - 1]) then Trailing(p, ys[..|ys| - 1]) + 1 else 0
  }

  lemma {:induction false} TrailingQuiet(p: Params, ys: seq<real>)
    ensures AllQuiet(p, ys[|ys| - Trailing(p, ys)..])
  {
    if ys != [] && Below(p, ys[|ys| - 1]) {
      var before := ys[..|ys| - 1];
      TrailingQuiet(p, before);
      assert ys[|ys| - Trailing(p, ys)..] == before[|before| - Trailing(p, before)..] + [ys[|ys| - 1]];
    }
  }

  /** And no more than those. */
  lemma {:induction false} TrailingMost(p: Params, ys: seq<real>, i: nat)
    requires i <= |ys| && AllQuiet(p, ys[i..])
    ensures |ys| - i <= Trailing(p, ys)
  {
    if i < |ys| {
      var before := ys[..|ys| - 1];
      assert ys[i..] == before[i..] + [ys[|ys| - 1]];
      assert ys[|ys| - 1] in ys[i..];
      assert forall x <- before[i..] :: x in ys[i..];
      TrailingMost(p, before, i);
    }
  }

  lemma CalmPrefix(p: Params, ys: seq<real>, x: real)
    requires Calm(p, ys + [x])
    ensures Calm(p, ys)
  {
    forall i: nat, j: nat ensures !LongQuiet(p, ys, i, j) {
      assert !LongQuiet(p, ys + [x], i, j);
      assert j <= |ys| && i <= j ==> (ys + [x])[i..j] == ys[i..j];
    }
  }

  /** In a calm stream the quiet samples at its end are too few. */
  lemma CalmEnd(p: Params, ys: seq<real>)
    requires Calm(p, ys) && Trailing(p, ys) > 0
    ensures !Reached(Trailing(p, ys), p.thTime)
  {
    var i: nat := |ys| - Trailing(p, ys);
    TrailingQuiet(p, ys);
    assert ys[i..|ys|] == ys[i..];
    assert !LongQuiet(p, ys, i, |ys|);
  }

  /** A sample ends the calm only if it is quiet and completes a long enough row. */
  lemma CalmBroken(p: Params, ys: seq<real>, x: real)
    requires Calm(p, ys) && !Calm(p, ys + [x])
    ensures Below(p, x) && Reached(Trailing(p, ys) + 1, p.thTime)
  {
    var zs := ys + [x];
    var i: nat, j: nat :| LongQuiet(p, zs, i, j);
    if j <= |ys| {
      assert zs[i..j] == ys[i..j];
      assert LongQuiet(p, ys, i, j);
    }
    assert j == |zs| && zs[i..j] == zs[i..];
    TrailingMost(p, zs, i);
    assert zs[..|zs| - 1] == ys && x in zs[i..j];
  }

  /** The share of a time that `n` samples are. */
  function Share(n: int, time: real): real
    requires time != 0.0
  {
    n as real / time
  }

  /** The gate has just begun to wait. */
  predicate WaitBegins(p: Params, xs: seq<real>) {
    After(p, xs).status.Waiting? && After(p, xs).thTime == 0
  }

  /** While the samples are calm, a waiting gate leaves them as they are. */
  lemma {:induction false} WaitingPhase(p: Params, xs: seq<real>, ys: seq<real>)
    requires WaitBegins(p, xs) && Calm(p, ys)
    ensures After(p, xs + ys).status.Waiting? && After(p, xs + ys).thTime == Trailing(p, ys)
    ensures forall i :: |xs| <= i < |xs + ys| ==> Factor(p, xs + ys, i) == 1.0
  {
    if ys == [] {
      assert xs + ys == xs;
    } else {
      var before, x := ys[..|ys| - 1], ys[|ys| - 1];
      assert ys == before + [x] && xs + ys == (xs + before) + [x];
      CalmPrefix(p, before, x);
      WaitingPhase(p, xs, before);
      AfterStep(p, xs + before, x);
      FactorNext(p, xs + before, x);
      if Below(p, x) {
        CalmEnd(p, ys);
      }
      forall i | |xs| <= i < |xs + ys| ensures Factor(p, xs + ys, i) == 1.0 {
        if i < |xs + before| {
          FactorStays(p, xs + before, [x], i);
        }
      }
    }
  }

  /** A stream that is never quiet for long comes out unchanged. */
  lemma CalmUnchanged(p: Params, xs: seq<real>, i: nat)
    requires Calm(p, xs) && i < |xs|
    ensures Factor(p, xs, i) == 1.0 && Output(p, xs, i) == xs[i]
  {
    WaitingPhase(p, [], xs);
    assert [] + xs == xs;
  }

  /** The sample that breaks the calm is left as it is and begins the attack. */
  lemma AttackBegins(p: Params, xs: seq<real>, ys: seq<real>, x: real)
    requires WaitBegins(p, xs) && Calm(p, ys) && !Calm(p, ys + [x])
    ensures var g := After(p, xs + ys + [x]); g.status.Attacking? && g.attack == 0
    ensures Factor(p, xs + ys + [x], |xs + ys|) == 1.0
  {
    WaitingPhase(p, xs, ys);
    CalmBroken(p, ys, x);
    CountersExclusive(p, xs + ys);
    AfterStep(p, xs + ys, x);
    FactorNext(p, xs + ys, x);
  }

  lemma AttackStep(p: Params, g: Gate, x: real)
    requires g.status.Attacking? && Below(p, x) && !Reached(g.attack + 1, p.atime)
    ensures p.atime > 0.0 && Step(p, g, x).1 == 1.0 - Share(g.attack + 1, p.atime)
    ensures Step(p, g, x).0.status.Attacking? && Step(p, g, x).0.attack == g.attack + 1
  {
  }

  /** Quiet samples count an attack on. */
  lemma {:induction false} AttackCounts(p: Params, xs: seq<real>, ys: seq<real>)
    requires After(p, xs).status.Attacking? && After(p, xs).attack == 0 && AllQuiet(p, ys)
    requires ys != [] ==> !Reached(|ys|, p.atime)
    ensures After(p, xs + ys).status.Attacking? && After(p, xs + ys).attack == |ys|
  {
    if ys == [] {
      assert xs + ys == xs;
    } else {
      var before, x := ys[..|ys| - 1], ys[|ys| - 1];
      assert ys == before + [x] && xs + ys == (xs + before) + [x] && x in ys;
      assert forall y <- before :: y in ys;
      AttackCounts(p, xs, before);
      AttackStep(p, After(p, xs + before), x);
      AfterStep(p, xs + before, x);
    }
  }

  lemma AttackFactorNext(p: Params, xs: seq<real>, zs: seq<real>, x: real, k: nat)
    requires After(p, xs).status.Attacking? && After(p, xs).attack == 0 && k == |zs| + 1
    requires !Reached(k, p.atime) && AllQuiet(p, zs) && Below(p, x)
    ensures p.atime > 0.0 && Factor(p, xs + zs + [x], |xs + zs|) == 1.0 - Share(k, p.atime)
  {
    AttackCounts(p, xs, zs);
    AttackStep(p, After(p, xs + zs), x);
    FactorNext(p, xs + zs, x);
  }

  /** The k-th quiet sample of an attack that is not over is multiplied by 1 - k / atime. */
  lemma AttackFactor(p: Params, xs: seq<real>, ys: seq<real>, k: nat)
    requires After(p, xs).status.Attacking? && After(p, xs).attack == 0 && AllQuiet(p, ys)
    requires 0 < k <= |ys| && !Reached(|ys|, p.atime)
    ensures p.atime > 0.0 && Factor(p, xs + ys, |xs| + k - 1) == 1.0 - Share(k, p.atime)
  {
    QuietWithin(p, ys, k);
    AttackFactorNext(p, xs, ys[..k - 1], ys[k - 1], k);
    FactorWithin(p, xs, ys, k);
  }

  /** The quiet sample that completes the attack is silenced. */
  lemma AttackEnds(p: Params, xs: seq<real>, ys: seq<real>, x: real)
    requires After(p, xs).status.Attacking? && After(p, xs).attack == 0 && AllQuiet(p, ys)
    requires (ys != [] ==> !Reached(|ys|, p.atime)) && Below(p, x) && Reached(|ys| + 1, p.atime)
    ensures After(p, xs + ys + [x]).status.Active? && Factor(p, xs + ys + [x], |xs + ys|) == 0.0
  {
    AttackCounts(p, xs, ys);
    AfterStep(p, xs + ys, x);
    FactorNext(p, xs + ys, x);
  }

  /** A loud sample during an attack is left as it is and ends it. */
  lemma AttackBroken(p: Params, xs: seq<real>, x: real)
    requires After(p, xs).status.Attacking? && !Below(p, x)
    ensures WaitBegins(p, xs + [x]) && Factor(p, xs + [x], |xs|) == 1.0
  {
    CountersExclusive(p, xs);
    AfterStep(p, xs, x);
    FactorNext(p, xs, x);
  }

  /** How many loud samples there are. */
  function Louds(p: Params, ys: seq<real>): nat {
    if ys == [] then 0 else Louds(p, ys[..|ys| - 1]) + if Below(p, ys[|ys| - 1]) then 0 else 1
  }

  /** Not yet enough loud samples to end the hold, the first one not counting. */
  predicate StillHeld(p: Params, ys: seq<real>) {
    Louds(p, ys) <= 1 || !Reached(Louds(p, ys) - 1, p.htime)
  }

  /** From the end of the attack until the hold is over, everything is silenced. */
  lemma {:induction false} MutedPhase(p: Params, xs: seq<real>, ys: seq<real>)
    requires After(p, xs).status.Active? && StillHeld(p, ys)
    ensures var g := After(p, xs + ys);
            if Louds(p, ys) == 0 then g.status.Active? else g.status.Holding? && g.hold == Louds(p, ys) - 1
    ensures forall i :: |xs| <= i < |xs + ys| ==> Factor(p, xs + ys, i) == 0.0
  {
    if ys == [] {
      assert xs + ys == xs;
    } else {
      var before, x := ys[..|ys| - 1], ys[|ys| - 1];
      assert ys == before + [x] && xs + ys == (xs + before) + [x];
      MutedPhase(p, xs, before);
      CountersExclusive(p, xs + before);
      AfterStep(p, xs + before, x);
      FactorNext(p, xs + before, x);
      forall i | |xs| <= i < |xs + ys| ensures Factor(p, xs + ys, i) == 0.0 {
        if i < |xs + before| {
          FactorStays(p, xs + before, [x], i);
        }
      }
    }
  }

  /** The loud sample that ends the hold is silenced, too. */
  lemma HoldEnds(p: Params, xs: seq<real>, ys: seq<real>, x: real)
    requires After(p, xs).status.Active? && StillHeld(p, ys) && Louds(p, ys) > 0
    requires !Below(p, x) && Reached(Louds(p, ys), p.htime)
    ensures var g := After(p, xs + ys + [x]); g.status.Releasing? && g.release == 0
    ensures Factor(p, xs + ys + [x], |xs + ys|) == 0.0
  {
    MutedPhase(p, xs, ys);
    CountersExclusive(p, xs + ys);
    AfterStep(p, xs + ys, x);
    FactorNext(p, xs + ys, x);
  }

  lemma ReleaseStep(p: Params, g: Gate, x: real)
    requires g.status.Releasing? && !Reached(g.release + 1, p.rtime)
    ensures p.rtime > 0.0 && Step(p, g, x).1 == Share(g.release + 1, p.rtime)
    ensures Step(p, g, x).0.status.Releasing? && Step(p, g, x).0.release == g.release + 1
  {
  }

  /** All samples count a release on. */
  lemma {:induction false} ReleaseCounts(p: Params, xs: seq<real>, ys: seq<real>)
    requires After(p, xs).status.Releasing? && After(p, xs).release == 0
    requires ys != [] ==> !Reached(|ys|, p.rtime)
    ensures After(p, xs + ys).status.Releasing? && After(p, xs + ys).release == |ys|
  {
    if ys == [] {
      assert xs + ys == xs;
    } else {
      var before, x := ys[..|ys| - 1], ys[|ys| - 1];
      assert ys == before + [x] && xs + ys == (xs + before) + [x];
      ReleaseCounts(p, xs, before);
      ReleaseStep(p, After(p, xs + before), x);
      AfterStep(p, xs + before, x);
    }
  }

  lemma ReleaseFactorNext(p: Params, xs: seq<real>, zs: seq<real>, x: real, k: nat)
    requires After(p, xs).status.Releasing? && After(p, xs).release == 0 && k == |zs| + 1
    requires !Reached(k, p.rtime)
    ensures p.rtime > 0.0 && Factor(p, xs + zs + [x], |xs + zs|) == Share(k, p.rtime)
  {
    ReleaseCounts(p, xs, zs);
    ReleaseStep(p, After(p, xs + zs), x);
    FactorNext(p, xs + zs, x);
  }

  /** The k-th sample of a release that is not over, loud or quiet, is multiplied by k / rtime. */
  lemma ReleaseFactor(p: Params, xs: seq<real>, ys: seq<real>, k: nat)
    requires After(p, xs).status.Releasing? && After(p, xs).release == 0
    requires 0 < k <= |ys| && !Reached(|ys|, p.rtime)
    ensures p.rtime > 0.0 && Factor(p, xs + ys, |xs| + k - 1) == Share(k, p.rtime)
  {
    ReleaseFactorNext(p, xs, ys[..k - 1], ys[k - 1], k);
    FactorWithin(p, xs, ys, k);
  }

  /** The sample that completes the release has its share of it, and the gate waits again. */
  lemma ReleaseEnds(p: Params, xs: seq<real>, ys: seq<real>, x: real)
    requires After(p, xs).status.Releasing? && After(p, xs).release == 0
    requires (ys != [] ==> !Reached(|ys|, p.rtime)) && Reached(|ys| + 1, p.rtime)
    ensures WaitBegins(p, xs + ys + [x])
    ensures Factor(p, xs + ys + [x], |xs + ys|) == if p.rtime == 0.0 then p.byZero else Share(|ys| + 1, p.rtime)
  {
    ReleaseCounts(p, xs, ys);
    CountersExclusive(p, xs + ys);
    AfterStep(p, xs + ys, x);
    FactorNext(p, xs + ys, x);
  }

  /** The stretches of one round of the gate, each a matter of the samples alone. */
  ghost predicate Round(p: Params, calm: seq<real>, q: real, fading: seq<real>, a: real, muted: seq<real>, m: real,
                        rising: seq<real>) {
    && Calm(p, calm) && !Calm(p, calm + [q])
    && AllQuiet(p, fading) && (fading != [] ==> !Reached(|fading|, p.atime))
    && Below(p, a) && Reached(|fading| + 1, p.atime)
    && StillHeld(p, muted) && Louds(p, muted) > 0
    && !Below(p, m) && Reached(Louds(p, muted), p.htime)
    && (rising != [] ==> !Reached(|rising|, p.rtime)) && Reached(|rising| + 1, p.rtime)
  }

  /** What has come by the end of each stretch. */
  function UpToAttack(xs: seq<real>, calm: seq<real>, q: real): seq<real> {
    xs + calm + [q]
  }

  function UpToMuted(xs: seq<real>, calm: seq<real>, q: real, fading: seq<real>, a: real): seq<real> {
    UpToAttack(xs, calm, q) + fading + [a]
  }

  function UpToRelease(xs: seq<real>, calm: seq<real>, q: real, fading: seq<real>, a: real, muted: seq<real>, m: real): seq<real> {
    UpToMuted(xs, calm, q, fading, a) + muted + [m]
  }

  /**
   A whole round: calm samples and the one that ends the calm pass unchanged, the k-th of the
   attack has 1 - k / atime, everything from its end to the end of the hold is silenced, the
   k-th of the release has k / rtime, and then the gate waits as at the start.
   */
  lemma WholeRound(p: Params, xs: seq<real>, calm: seq<real>, q: real, fading: seq<real>, a: real, muted: seq<real>, m: real,
                   rising: seq<real>, r: real)
    requires WaitBegins(p, xs) && Round(p, calm, q, fading, a, muted, m, rising) && p.rtime != 0.0
    ensures var s1, s2 := UpToAttack(xs, calm, q), UpToMuted(xs, calm, q, fading, a);
            var s3 := UpToRelease(xs, calm, q, fading, a, muted, m);
            var s4 := s3 + rising + [r];
            && (fading != [] ==> p.atime > 0.0)
            && (forall i :: |xs| <= i < |s1| ==> Factor(p, s1, i) == 1.0)
            && (forall i :: |s1| <= i < |s2| - 1 ==> Factor(p, s2, i) == 1.0 - Share(i - |s1| + 1, p.atime))
            && (forall i :: |s2| - 1 <= i < |s3| ==> Factor(p, s3, i) == 0.0)
            && (forall i :: |s3| <= i < |s4| ==> Factor(p, s4, i) == Share(i - |s3| + 1, p.rtime))
            && WaitBegins(p, s4)
  {
    var s1, s2 := UpToAttack(xs, calm, q), UpToMuted(xs, calm, q, fading, a);
    var s3 := UpToRelease(xs, calm, q, fading, a, muted, m);
    RoundCalm(p, xs, calm, q);
    RoundAttack(p, s1, fading, a);
    RoundMuted(p, s2, muted, m);
    forall i | |s2| - 1 <= i < |s3| ensures Factor(p, s3, i) == 0.0 {
      if i < |s2| {
        assert s3 == s2 + (muted + [m]);
        FactorStays(p, s2, muted + [m], i);
      }
    }
    RoundRelease(p, s3, rising, r);
  }

  lemma RoundCalm(p: Params, xs: seq<real>, calm: seq<real>, q: real)
    requires WaitBegins(p, xs) && Calm(p, calm) && !Calm(p, calm + [q])
    ensures var s := xs + calm + [q];
            && After(p, s).status.Attacking? && After(p, s).attack == 0
            && forall i :: |xs| <= i < |s| ==> Factor(p, s, i) == 1.0
  {
    WaitingPhase(p, xs, calm);
    AttackBegins(p, xs, calm, q);
    forall i | |xs| <= i < |xs + calm| ensures Factor(p, xs + calm + [q], i) == 1.0 {
      FactorStays(p, xs + calm, [q], i);
    }
  }

  lemma RoundAttack(p: Params, xs: seq<real>, fading: seq<real>, a: real)
    requires After(p, xs).status.Attacking? && After(p, xs).attack == 0 && AllQuiet(p, fading)
    requires (fading != [] ==> !Reached(|fading|, p.atime)) && Below(p, a) && Reached(|fading| + 1, p.atime)
    ensures var s := xs + fading + [a];
            && After(p, s).status.Active? && (fading != [] ==> p.atime > 0.0)
            && (forall i :: |xs| <= i < |s| - 1 ==> Factor(p, s, i) == 1.0 - Share(i - |xs| + 1, p.atime))
            && Factor(p, s, |s| - 1) == 0.0
  {
    AttackEnds(p, xs, fading, a);
    forall i | |xs| <= i < |xs + fading|
      ensures Factor(p, xs + fading + [a], i) == 1.0 - Share(i - |xs| + 1, p.atime)
    {
      AttackFactor(p, xs, fading, i - |xs| + 1);
      FactorStays(p, xs + fading, [a], i);
    }
  }

  lemma RoundMuted(p: Params, xs: seq<real>, muted: seq<real>, m: real)
    requires After(p, xs).status.Active? && StillHeld(p, muted) && Louds(p, muted) > 0
    requires !Below(p, m) && Reached(Louds(p, muted), p.htime)
    ensures var s := xs + muted + [m];
            && After(p, s).status.Releasing? && After(p, s).release == 0
            && forall i :: |xs| <= i < |s| ==> Factor(p, s, i) == 0.0
  {
    MutedPhase(p, xs, muted);
    HoldEnds(p, xs, muted, m);
    forall i | |xs| <= i < |xs + muted| ensures Factor(p, xs + muted + [m], i) == 0.0 {
      FactorStays(p, xs + muted, [m], i);
    }
  }

  lemma RoundRelease(p: Params, xs: seq<real>, rising: seq<real>, r: real)
    requires After(p, xs).status.Releasing? && After(p, xs).release == 0 && p.rtime != 0.0
    requires (rising != [] ==> !Reached(|rising|, p.rtime)) && Reached(|rising| + 1, p.rtime)
    ensures var s := xs + rising + [r];
            && WaitBegins(p, s)
            && forall i :: |xs| <= i < |s| ==> Factor(p, s, i) == Share(i - |xs| + 1, p.rtime)
  {
    ReleaseEnds(p, xs, rising, r);
    forall i | |xs| <= i < |xs + rising| ensures Factor(p, xs + rising + [r], i) == Share(i - |xs| + 1, p.rtime) {
      ReleaseFactor(p, xs, rising, i - |xs| + 1);
      FactorStays(p, xs + rising, [r], i);
    }
  }

  // --- How loud the output can get -------------------------------------------

  lemma Fraction(a: real, b: real)
    requires 0.0 <= a && 0.0 < b
    ensures 0.0 <= a / b && (a / b <= 1.0 <==> a <= b)
  {
    var q := a / b;
    var u := 1.0 - q;
    assert q * b == a && u * b == b - a;
    SameSign(q, b);
    SameSign(u, b);
  }

  lemma SameSign(u: real, b: real)
    requires b > 0.0
    ensures u * b >= 0.0 <==> u >= 0.0
  {
  }

  /** A factor between 0 and 1 makes no sample louder. */
  lemma NotLouder(k: real, x: real)
    requires 0.0 <= k <= 1.0
    ensures Abs(Scaled(k, x)) <= Abs(x)
  {
    assert Abs(k * x) == k * Abs(x);
    assert (1.0 - k) * Abs(x) >= 0.0;
  }

  predicate IsWhole(r: real) {
    r == r.Floor as real
  }

  /** A release of a whole, positive number of samples (or one whose division by zero is harmless). */
  predicate SoftRelease(p: Params) {
    if p.rtime == 0.0 then 0.0 <= p.byZero <= 1.0 else p.rtime > 0.0 && IsWhole(p.rtime)
  }

  lemma StepBounded(p: Params, g: Gate, x: real)
    requires CountersOk(p, g) && (g.status.Releasing? ==> SoftRelease(p))
    ensures 0.0 <= Step(p, g, x).1 <= 1.0
  {
    if g.status.Attacking? && !Reached(g.attack + 1, p.atime) {
      Fraction((g.attack + 1) as real, p.atime);
    }
    if g.status.Releasing? && p.rtime != 0.0 {
      assert g.release < p.rtime.Floor;
      Fraction((g.release + 1) as real, p.rtime);
    }
  }

  /** Below a negative level there is nothing: the gate never leaves its waiting state. */
  lemma {:induction false} NeverQuiet(p: Params, xs: seq<real>)
    requires p.level < 0.0
    ensures After(p, xs).status.Waiting?
  {
    if xs != [] {
      NeverQuiet(p, xs[..|xs| - 1]);
    }
  }

  /** With a soft release, no sample of any stream comes out louder than it went in. */
  lemma FactorsBounded(p: Params, xs: seq<real>, i: nat)
    requires i < |xs| && (p.level < 0.0 || SoftRelease(p))
    ensures 0.0 <= Factor(p, xs, i) <= 1.0
    ensures Abs(Output(p, xs, i)) <= Abs(xs[i])
  {
    var g := After(p, xs[..i]);
    CountersExclusive(p, xs[..i]);
    if p.level < 0.0 {
      NeverQuiet(p, xs[..i]);
    }
    StepBounded(p, g, xs[i]);
    NotLouder(Step(p, g, xs[i]).1, xs[i]);
  }

  /** Samples still needed before a counter has certainly reached its time. */
  function Remaining(count: nat, time: real): nat {
    if count <= time.Floor then time.Floor + 1 - count else 0
  }

  /** A release under way has to end before the next one can begin. */
  function StagesLeft(g: Gate): nat {
    match g.status
    case Waiting => 4
    case Attacking => 3
    case Active => 2
    case Holding => 1
    case Releasing => if g.release == 0 then 0 else 5
  }

  function StageRemaining(p: Params, g: Gate): nat {
    match g.status
    case Waiting => Remaining(g.thTime, p.thTime)
    case Attacking => Remaining(g.attack, p.atime)
    case Active => 0
    case Holding => Remaining(g.hold, p.htime)
    case Releasing => Remaining(g.release, p.rtime)
  }

  /** The input that takes a gate on: silence while it waits for quiet, then something loud. */
  function Driving(p: Params, s: Status): real {
    if s.Waiting? || s.Attacking? then 0.0 else p.level + 1.0
  }

  lemma DrivingStep(p: Params, g: Gate)
    requires p.level >= 0.0 && CountersOk(p, g) && StagesLeft(g) > 0
    ensures var h := Step(p, g, Driving(p, g.status)).0;
            || StagesLeft(h) < StagesLeft(g)
            || (StagesLeft(h) == StagesLeft(g) && StageRemaining(p, h) < StageRemaining(p, g))
  {
  }

  /** Every stream can be continued until the gate is about to release. */
  lemma {:induction false} DriveToRelease(p: Params, xs: seq<real>) returns (ys: seq<real>)
    requires p.level >= 0.0
    ensures xs <= ys && After(p, ys).status.Releasing? && After(p, ys).release == 0
    decreases StagesLeft(After(p, xs)), StageRemaining(p, After(p, xs))
  {
    var g := After(p, xs);
    CountersExclusive(p, xs);
    if StagesLeft(g) == 0 {
      ys := xs;
    } else {
      var x := Driving(p, g.status);
      DrivingStep(p, g);
      AfterStep(p, xs, x);
      ys := DriveToRelease(p, xs + [x]);
    }
  }

  /** And from there until the release has counted to any `n` short of its length. */
  lemma {:induction false} CountRelease(p: Params, xs: seq<real>, n: nat) returns (ys: seq<real>)
    requires After(p, xs).status.Releasing? && After(p, xs).release == 0
    requires n > 0 ==> !Reached(n, p.rtime)
    ensures xs <= ys && After(p, ys).status.Releasing? && After(p, ys).release == n
  {
    if n == 0 {
      ys := xs;
    } else {
      ys := CountRelease(p, xs, n - 1);
      AfterStep(p, ys, 0.0);
      ys := ys + [0.0];
    }
  }

  /** Without a soft release, some stream gets a factor outside [0, 1]. */
  lemma HarshRelease(p: Params) returns (xs: seq<real>, i: nat)
    requires p.level >= 0.0 && !SoftRelease(p)
    ensures i < |xs| && xs[i] == 1.0 && !(0.0 <= Factor(p, xs, i) <= 1.0)
    ensures p.rtime > 0.0 ==> Factor(p, xs, i) > 1.0
  {
    var ys := DriveToRelease(p, []);
    var n: nat := if p.rtime > 0.0 then p.rtime.Floor else 0;
    ys := CountRelease(p, ys, n);
    xs, i := ys + [1.0], |ys|;
    assert xs[..i] == ys;
    if p.rtime > 0.0 {
      Fraction((n + 1) as real, p.rtime);
    } else if p.rtime < 0.0 {
      NegativeFraction(p.rtime);
    }
  }

  lemma NegativeFraction(b: real)
    requires b < 0.0
    ensures 1.0 / b < 0.0
  {
    var q := 1.0 / b;
    assert q * b == 1.0 && q * (-b) == -1.0;
    SameSign(q, -b);
  }

  /** Every factor of every stream lies in [0, 1] exactly if the release is soft, or never comes because of a negative level. */
  lemma ReleaseBoundedExactly(p: Params)
    ensures (forall xs: seq<real>, i: nat :: i < |xs| ==> 0.0 <= Factor(p, xs, i) <= 1.0)
            <==> p.level < 0.0 || SoftRelease(p)
  {
    if p.level < 0.0 || SoftRelease(p) {
      forall xs: seq<real>, i: nat | i < |xs| ensures 0.0 <= Factor(p, xs, i) <= 1.0 {
        FactorsBounded(p, xs, i);
      }
    } else {
      var xs, i := HarshRelease(p);
    }
  }

  /** After a release of a broken number of samples, however long, a sample comes out louder than it went in. */
  lemma LouderAfterFractionalRelease(p: Params) returns (xs: seq<real>, i: nat)
    requires p.level >= 0.0 && p.rtime > 0.0 && !IsWhole(p.rtime)
    ensures i < |xs| && Abs(Output(p, xs, i)) > Abs(xs[i])
  {
    xs, i := HarshRelease(p);
    assert Scaled(Factor(p, xs, i), 1.0) == Factor(p, xs, i);
  }

  // --- The effect object -----------------------------------------------------

  /** The switch on one sample, updating the counters, the status and the gain of its channel. */
  method ProcessSample(p: Params, g: Gate, x: real) returns (g': Gate, y: real)
    ensures g' == Step(p, g, x).0 && y == Scaled(Step(p, g, x).1, x)
  {
    var below := Abs(x) <= p.level;
    g', y := g, x;
    match g.status
    case Waiting =>
      if below {
        g' := g'.(thTime := g'.thTime + 1);
        if g'.thTime as real >= p.thTime {
          g' := g'.(thTime := 0, status := Attacking);
        }
      } else {
        g' := g'.(thTime := 0);
      }
    case Attacking =>
      if below {
        g' := g'.(attack := g'.attack + 1);
        if g'.attack as real >= p.atime {
          g' := g'.(attack := 0, status := Active, gain := 0.0);
        } else {
          g' := g'.(gain := 1.0 - g'.attack as real / p.atime);
        }
        y := Scaled(g'.gain, x);
      } else {
        g' := g'.(attack := 0, status := Waiting);
      }
    case Active =>
      if !below {
        g' := g'.(status := Holding);
      }
      y := Scaled(0.0, x);
    case Holding =>
      if !below {
        g' := g'.(hold := g'.hold + 1);
        if g'.hold as real >= p.htime {
          g' := g'.(hold := 0, status := Releasing);
        }
      }
      y := Scaled(0.0, x);
    case Releasing =>
      g' := g'.(release := g'.release + 1);
      g' := g'.(gain := if p.rtime == 0.0 then p.byZero else g'.release as real / p.rtime);
      if g'.release as real >= p.rtime {
        g' := g'.(release := 0, status := Waiting);
      }
      y := Scaled(g'.gain, x);
  }

  /** `out` is what the stream `xs` becomes from sample `from` on. */
  ghost predicate Gated(p: Params, xs: seq<real>, from: nat, out: seq<real>) {
    from + |out| == |xs| && forall i :: 0 <= i < |out| ==> out[i] == Output(p, xs, from + i)
  }

  /** What comes later does not change the output. */
  lemma OutputPrefix(p: Params, xs: seq<real>, x: real, i: nat)
    requires i < |xs|
    ensures Output(p, xs + [x], i) == Output(p, xs, i)
  {
    assert (xs + [x])[..i] == xs[..i];
  }

  lemma GatedMore(p: Params, xs: seq<real>, from: nat, out: seq<real>, x: real)
    requires Gated(p, xs, from, out)
    ensures Gated(p, xs + [x], from, out + [Scaled(Step(p, After(p, xs), x).1, x)])
  {
    assert (xs + [x])[..|xs|] == xs;
    forall i | 0 <= i < |out| ensures out[i] == Output(p, xs + [x], from + i) {
      OutputPrefix(p, xs, x, from + i);
    }
  }

  /** The samples of one channel in a row, continuing the stream `past`. */
  method ProcessRow(p: Params, g: Gate, row: seq<real>, ghost past: seq<real>) returns (g': Gate, out: seq<real>)
    requires g == After(p, past)
    ensures g' == After(p, past + row) && Gated(p, past + row, |past|, out)
  {
    out, g' := [], g;
    assert past + row[..0] == past;
    for i := 0 to |row|
      invariant |out| == i && g' == After(p, past + row[..i])
      invariant Gated(p, past + row[..i], |past|, out)
    {
      GatedMore(p, past + row[..i], |past|, out, row[i]);
      AfterStep(p, past + row[..i], row[i]);
      assert past + row[..i] + [row[i]] == past + row[..i + 1];
      var y;
      g', y := ProcessSample(p, g', row[i]);
      out := out + [y];
    }
    assert row[..|row|] == row;
  }

  class Gates {
    const p: Params
    var gates: seq<Gate>
    /** What each channel has been fed since `init`. */
    ghost var fed: seq<seq<real>>

    ghost predicate Valid()
      reads this
    {
      && |gates| == |fed|
      && forall ch :: 0 <= ch < |fed| ==> gates[ch] == After(p, fed[ch])
    }

    /** `init` for `channels` channels. */
    constructor (p: Params, channels: nat)
      ensures Valid() && this.p == p && fed == seq(channels, _ => [])
    {
      this.p := p;
      gates := seq(channels, _ => INITIAL);
      fed := seq(channels, _ => []);
    }

    /** All samples of one channel. */
    method ProcessChannel(sb: SampleBuffer, ch: nat)
      requires Valid() && ch < |fed| == |sb.channels|
      modifies this`gates, this`fed, sb
      ensures Valid() && |sb.channels| == |old(sb.channels)| && |fed| == |old(fed)|
      ensures forall q :: 0 <= q < |fed| && q != ch ==>
        fed[q] == old(fed)[q] && sb.channels[q] == old(sb.channels)[q]
      ensures fed[ch] == old(fed)[ch] + old(sb.channels)[ch]
      ensures Gated(p, fed[ch], |old(fed)[ch]|, sb.channels[ch])
    {
      var g, out := ProcessRow(p, gates[ch], sb.channels[ch], fed[ch]);
      fed := fed[ch := fed[ch] + sb.channels[ch]];
      gates := gates[ch := g];
      sb.channels := sb.channels[ch := out];
    }

    /** `process`: every channel on its own, continuing its stream. */
    method Process(sb: SampleBuffer)
      requires Valid() && |fed| == |sb.channels|
      modifies this`gates, this`fed, sb
      ensures Valid() && |sb.channels| == |old(sb.channels)| == |fed|
      ensures forall ch :: 0 <= ch < |fed| ==>
        && fed[ch] == old(fed)[ch] + old(sb.channels)[ch]
        && Gated(p, fed[ch], |old(fed)[ch]|, sb.channels[ch])
    {
      for ch := 0 to |sb.channels|
        invariant Valid() && |sb.channels| == |old(sb.channels)| == |fed| == |old(fed)|
        invariant forall q :: 0 <= q < ch ==>
          && fed[q] == old(fed)[q] + old(sb.channels)[q]
          && Gated(p, fed[q], |old(fed)[q]|, sb.channels[q])
        invariant forall q :: ch <= q < |fed| ==> fed[q] == old(fed)[q] && sb.channels[q] == old(sb.channels)[q]
      {
        ProcessChannel(sb, ch);
      }
    }
  }
}
