/** The spike detector of `Machine_Learning/SDED.C`: an exponential DC
    baseline and a fixed threshold on the distance of each sample from the
    updated baseline. Doubles are modelled as reals. */
module Sded {
  import opened CMath

  lemma AbsProduct(a: real, b: real)
    ensures Abs(a * b) == Abs(a) * Abs(b)
  {
    if a < 0.0 && b < 0.0 {
      assert a * b == (-a) * (-b);
    } else if a < 0.0 {
      assert -(a * b) == (-a) * b;
    } else if b < 0.0 {
      assert -(a * b) == a * (-b);
    }
  }

  /** The three results of one `apply_sded` call. */
  datatype SdedStep = SdedStep(newEffDc: real, meas: real, spike: int)

  /** `apply_sded(x, eff_dc, alpha, delta, ...)`: the baseline moves towards
      `x` by `alpha`, the measure is the distance of `x` from the moved
      baseline, and a spike is flagged when that distance exceeds `delta`. */
  function ApplySded(x: real, effDc: real, alpha: real, delta: real): (s: SdedStep)
    ensures s.spike == 0 || s.spike == 1
    ensures s.spike == 1 <==> s.meas > delta
    ensures s.meas >= 0.0
  {
    var newEffDc := alpha * x + (1.0 - alpha) * effDc;
    var meas := Abs(x - newEffDc);
    SdedStep(newEffDc, meas, if meas > delta then 1 else 0)
  }

  /** Measured against the updated baseline, the distance is the old
      distance scaled by `|1 - alpha|`. */
  lemma MeasureScaled(x: real, effDc: real, alpha: real, delta: real)
    ensures ApplySded(x, effDc, alpha, delta).meas == Abs(1.0 - alpha) * Abs(x - effDc)
  {
    var newEffDc := alpha * x + (1.0 - alpha) * effDc;
    assert x - newEffDc == (1.0 - alpha) * (x - effDc);
    AbsProduct(1.0 - alpha, x - effDc);
  }

  /** A threshold equal to the measure flags nothing: the comparison is strict. */
  lemma ThresholdIsStrict(x: real, effDc: real, alpha: real)
    ensures var s := ApplySded(x, effDc, alpha, 0.0);
            ApplySded(x, effDc, alpha, s.meas).spike == 0
  {
  }

  /** With `0 <= alpha <= 1` the new baseline lies between the old one and
      the sample. */
  lemma BaselineBetween(x: real, effDc: real, alpha: real, delta: real)
    requires 0.0 <= alpha <= 1.0
    ensures var b := ApplySded(x, effDc, alpha, delta).newEffDc;
            (effDc <= b <= x) || (x <= b <= effDc)
  {
    var b := alpha * x + (1.0 - alpha) * effDc;
    assert b - effDc == alpha * (x - effDc);
    assert x - b == (1.0 - alpha) * (x - effDc);
    if effDc <= x {
      ProductNonNegative(alpha, x - effDc);
      ProductNonNegative(1.0 - alpha, x - effDc);
    } else {
      ProductNonNegative(alpha, effDc - x);
      ProductNonNegative(1.0 - alpha, effDc - x);
    }
  }

  lemma ProductNonNegative(a: real, b: real)
    requires a >= 0.0 && b >= 0.0
    ensures a * b >= 0.0
  {
  }

  /** The outputs of `apply_sded_full` over the samples `xs`: index 0 is
      all zeros, and index i >= 1 is one step from the baseline at i - 1. */
  function SdedRun(xs: seq<real>, alpha: real, delta: real): (steps: seq<SdedStep>)
    requires |xs| >= 1
    ensures |steps| == |xs|
    ensures steps[0] == SdedStep(0.0, 0.0, 0)
    ensures forall i :: 1 <= i < |xs| ==>
              steps[i] == ApplySded(xs[i], steps[i - 1].newEffDc, alpha, delta)
  {
    if |xs| == 1 then [SdedStep(0.0, 0.0, 0)]
    else
      var prev := SdedRun(xs[..|xs| - 1], alpha, delta);
      prev + [ApplySded(xs[|xs| - 1], prev[|prev| - 1].newEffDc, alpha, delta)]
  }

  /** The first sample is never read: runs that differ only there agree. */
  lemma {:induction false} SdedRunIgnoresFirst(xs: seq<real>, ys: seq<real>, alpha: real, delta: real)
    requires |xs| == |ys| >= 1 && xs[1..] == ys[1..]
    ensures SdedRun(xs, alpha, delta) == SdedRun(ys, alpha, delta)
  {
    var a, b := SdedRun(xs, alpha, delta), SdedRun(ys, alpha, delta);
    forall i | 0 <= i < |xs|
      ensures a[i] == b[i]
    {
      SameStep(xs, ys, alpha, delta, i);
    }
  }

  lemma {:induction false} SameStep(xs: seq<real>, ys: seq<real>, alpha: real, delta: real, i: nat)
    requires |xs| == |ys| >= 1 && xs[1..] == ys[1..] && i < |xs|
    ensures SdedRun(xs, alpha, delta)[i] == SdedRun(ys, alpha, delta)[i]
  {
    if i > 0 {
      SameStep(xs, ys, alpha, delta, i - 1);
      assert xs[i] == xs[1..][i - 1] == ys[1..][i - 1] == ys[i];
    }
  }

  /** A run keeps the baseline within any bound of the samples: with
      `0 <= alpha <= 1` and every sample after the first within
      `[-bound, bound]`, so is every baseline. */
  lemma {:induction false} BaselineBounded(xs: seq<real>, alpha: real, delta: real, bound: real, i: nat)
    requires |xs| >= 1 && i < |xs| && 0.0 <= alpha <= 1.0 && bound >= 0.0
    requires forall k :: 1 <= k < |xs| ==> -bound <= xs[k] <= bound
    ensures -bound <= SdedRun(xs, alpha, delta)[i].newEffDc <= bound
  {
    if i > 0 {
      var steps := SdedRun(xs, alpha, delta);
      BaselineBounded(xs, alpha, delta, bound, i - 1);
      BaselineBetween(xs[i], steps[i - 1].newEffDc, alpha, delta);
    }
  }

  /** `apply_sded_full(x, n, alpha, delta, eff_dc, measures, spikes)`: fills
      indices 0 .. n - 1 of the three outputs as `SdedRun` on the first `n`
      samples and leaves the rest of each array alone. The per-call timing and
      the performance log are not part of this model. */
  method ApplySdedFull(x: array<real>, n: int, alpha: real, delta: real,
                       effDc: array<real>, measures: array<real>, spikes: array<int>)
    requires 1 <= n <= x.Length && n <= effDc.Length && n <= measures.Length && n <= spikes.Length
    requires effDc != measures && x != effDc && x != measures
    modifies effDc, measures, spikes
    ensures forall i :: 0 <= i < n ==>
              SdedStep(effDc[i], measures[i], spikes[i]) == SdedRun(x[..n], alpha, delta)[i]
    ensures forall i :: n <= i < effDc.Length ==> effDc[i] == old(effDc[i])
    ensures forall i :: n <= i < measures.Length ==> measures[i] == old(measures[i])
    ensures forall i :: n <= i < spikes.Length ==> spikes[i] == old(spikes[i])
  {
    ghost var run := SdedRun(x[..n], alpha, delta);
    effDc[0] := 0.0;
    measures[0] := 0.0;
    spikes[0] := 0;
    for i := 1 to n
      invariant forall k :: 0 <= k < i ==> SdedStep(effDc[k], measures[k], spikes[k]) == run[k]
      invariant forall k :: n <= k < effDc.Length ==> effDc[k] == old(effDc[k])
      invariant forall k :: n <= k < measures.Length ==> measures[k] == old(measures[k])
      invariant forall k :: n <= k < spikes.Length ==> spikes[k] == old(spikes[k])
    {
      var s := ApplySded(x[i], effDc[i - 1], alpha, delta);
      assert s == run[i] by {
        assert x[..n][i] == x[i];
      }
      effDc[i], measures[i], spikes[i] := s.newEffDc, s.meas, s.spike;
    }
  }
}
