/** The normalised-LMS one-step predictor of `ml-model/NLMS.C`. Doubles are
    modelled as reals. */
module Nlms {
  import opened CMath

  lemma {:induction false} DotWithZeros(w: seq<real>, x: seq<real>)
    requires |w| == |x| && forall i :: 0 <= i < |x| ==> x[i] == 0.0
    ensures Dot(w, x) == 0.0
  {
    if x != [] {
      DotWithZeros(w[..|w| - 1], x[..|x| - 1]);
    }
  }

  /** The four results of one `apply_nlms_filter` call. */
  datatype NlmsStep = NlmsStep(yHat: real, e: real, muEff: real, wNew: seq<real>)

  /** Every weight moved along its input by the step `muEff` times the
      error `e`. */
  function Moved(w: seq<real>, x: seq<real>, muEff: real, e: real): (r: seq<real>)
    requires |w| == |x|
    ensures |r| == |w|
  {
    seq(|w|, i requires 0 <= i < |w| => w[i] + muEff * e * x[i])
  }

  /** The step size `mu / (power + eps)`: it times the regularised input
      power gives back `mu`, so it has the sign of `mu`. */
  function NormalisedStep(mu: real, power: real, eps: real): (muEff: real)
    requires power >= 0.0 && eps > 0.0
    ensures muEff * (power + eps) == mu
    ensures mu > 0.0 ==> muEff > 0.0
    ensures mu == 0.0 ==> muEff == 0.0
  {
    mu / (power + eps)
  }

  /** `apply_nlms_filter(x_in, w, y_noisy, M, mu, eps, ...)`: the prediction
      is `w·x`, the error is what remains of `y_noisy`, the step is `mu`
      normalised by the input power, and every weight moves along its input
      by the step times the error. */
  function NlmsUpdate(w: seq<real>, x: seq<real>, yNoisy: real, mu: real, eps: real): (s: NlmsStep)
    requires |w| == |x| && eps > 0.0
    ensures |s.wNew| == |w|
    ensures s.e == yNoisy - s.yHat
  {
    DotSelfNonNegative(x);
    var dot := Dot(w, x);
    var e := yNoisy - dot;
    var muEff := NormalisedStep(mu, Dot(x, x), eps);
    NlmsStep(dot, e, muEff, Moved(w, x, muEff, e))
  }

  /** An all-zero input predicts 0 and leaves the weights as they were. */
  lemma ZeroInputKeepsWeights(w: seq<real>, x: seq<real>, yNoisy: real, mu: real, eps: real)
    requires |w| == |x| && eps > 0.0
    requires forall i :: 0 <= i < |x| ==> x[i] == 0.0
    ensures var s := NlmsUpdate(w, x, yNoisy, mu, eps);
            s.yHat == 0.0 && s.e == yNoisy && s.wNew == w
  {
    DotWithZeros(w, x);
    var s := NlmsUpdate(w, x, yNoisy, mu, eps);
    assert s.wNew == w;
  }

  /** The regressor of step `k`: `x_eff[k .. k+M-1]`, which is
      `x_in[k-M .. k-1]` with zeros in place of negative indices. */
  function Regressor(xs: seq<real>, m: nat, k: nat): (r: seq<real>)
    requires k <= |xs|
    ensures |r| == m
  {
    seq(m, i requires 0 <= i < m => if k - m + i >= 0 then xs[k - m + i] else 0.0)
  }

  /** The weights in use at step `k` of `nlms_filter_full`: zeros at first,
      then the weights each step leaves behind. */
  function Weights(xs: seq<real>, ds: seq<real>, m: nat, mu: real, eps: real, k: nat): (w: seq<real>)
    requires k <= |xs| && k <= |ds| && eps > 0.0
    ensures |w| == m
  {
    if k == 0 then seq(m, _ => 0.0)
    else NlmsUpdate(Weights(xs, ds, m, mu, eps, k - 1), Regressor(xs, m, k - 1), ds[k - 1], mu, eps).wNew
  }

  /** Step `k` of `nlms_filter_full`: predicting `d[k]` from the regressor. */
  function StepAt(xs: seq<real>, ds: seq<real>, m: nat, mu: real, eps: real, k: nat): NlmsStep
    requires k < |xs| && k < |ds| && eps > 0.0
  {
    NlmsUpdate(Weights(xs, ds, m, mu, eps, k), Regressor(xs, m, k), ds[k], mu, eps)
  }

  /** The steps `0 .. k-1` of `nlms_filter_full`, in order. */
  function Run(xs: seq<real>, ds: seq<real>, m: nat, mu: real, eps: real, k: nat): (steps: seq<NlmsStep>)
    requires k <= |xs| && k <= |ds| && eps > 0.0
    ensures |steps| == k
    ensures forall j :: 0 <= j < k ==> |steps[j].wNew| == m
  {
    if k == 0 then [] else Run(xs, ds, m, mu, eps, k - 1) + [StepAt(xs, ds, m, mu, eps, k - 1)]
  }

  /** Entry `j` of a run is step `j`, and it leaves behind the weights of
      step `j + 1`. */
  lemma {:induction false} RunIsSteps(xs: seq<real>, ds: seq<real>, m: nat, mu: real, eps: real, k: nat, j: nat)
    requires k <= |xs| && k <= |ds| && eps > 0.0 && j < k
    ensures Run(xs, ds, m, mu, eps, k)[j] == StepAt(xs, ds, m, mu, eps, j)
    ensures Run(xs, ds, m, mu, eps, k)[j].wNew == Weights(xs, ds, m, mu, eps, j + 1)
  {
    if j < k - 1 {
      RunIsSteps(xs, ds, m, mu, eps, k - 1, j);
    }
  }

  lemma RunListsSteps(xs: seq<real>, ds: seq<real>, m: nat, mu: real, eps: real, k: nat)
    requires k <= |xs| && k <= |ds| && eps > 0.0
    ensures forall j :: 0 <= j < k ==> Run(xs, ds, m, mu, eps, k)[j] == StepAt(xs, ds, m, mu, eps, j)
  {
    forall j | 0 <= j < k
      ensures Run(xs, ds, m, mu, eps, k)[j] == StepAt(xs, ds, m, mu, eps, j)
    {
      RunIsSteps(xs, ds, m, mu, eps, k, j);
    }
  }

  /** Step `k` run on the weights of step `k` and the regressor of step `k`
      leaves the weights of step `k + 1`, and extends the run by one. */
  lemma StepExtendsRun(xs: seq<real>, ds: seq<real>, m: nat, mu: real, eps: real, k: nat,
                       w: seq<real>, x: seq<real>)
    requires k < |xs| && k < |ds| && eps > 0.0
    requires w == Weights(xs, ds, m, mu, eps, k) && x == Regressor(xs, m, k)
    ensures NlmsUpdate(w, x, ds[k], mu, eps) == StepAt(xs, ds, m, mu, eps, k)
    ensures StepAt(xs, ds, m, mu, eps, k).wNew == Weights(xs, ds, m, mu, eps, k + 1)
    ensures Run(xs, ds, m, mu, eps, k + 1) == Run(xs, ds, m, mu, eps, k) + [StepAt(xs, ds, m, mu, eps, k)]
  {
  }

  /** Step 0 sees only zeros: it predicts 0, its error is `d[0]`, and the
      weights stay zero. */
  lemma FirstStep(xs: seq<real>, ds: seq<real>, m: nat, mu: real, eps: real)
    requires 0 < |xs| && 0 < |ds| && eps > 0.0
    ensures var s := StepAt(xs, ds, m, mu, eps, 0);
            s.yHat == 0.0 && s.e == ds[0] && s.wNew == seq(m, _ => 0.0)
  {
    ZeroInputKeepsWeights(seq(m, _ => 0.0), Regressor(xs, m, 0), ds[0], mu, eps);
  }

  /** Step `k` reads no sample at or after `x_in[k]`: inputs that agree
      before `k` give the same step. */
  lemma {:induction false} StepIsCausal(xs: seq<real>, ys: seq<real>, ds: seq<real>, m: nat, mu: real, eps: real, k: nat)
    requires k < |xs| && k < |ys| && k < |ds| && eps > 0.0
    requires xs[..k] == ys[..k]
    ensures StepAt(xs, ds, m, mu, eps, k) == StepAt(ys, ds, m, mu, eps, k)
  {
    WeightsAreCausal(xs, ys, ds, m, mu, eps, k);
    RegressorsAgree(xs, ys, m, k);
  }

  lemma RegressorsAgree(xs: seq<real>, ys: seq<real>, m: nat, k: nat)
    requires k <= |xs| && k <= |ys| && xs[..k] == ys[..k]
    ensures Regressor(xs, m, k) == Regressor(ys, m, k)
  {
    forall j | 0 <= j < k
      ensures xs[j] == ys[j]
    {
      assert xs[j] == xs[..k][j];
    }
  }

  lemma {:induction false} WeightsAreCausal(xs: seq<real>, ys: seq<real>, ds: seq<real>, m: nat, mu: real, eps: real, k: nat)
    requires k <= |xs| && k <= |ys| && k <= |ds| && eps > 0.0
    requires xs[..k] == ys[..k]
    ensures Weights(xs, ds, m, mu, eps, k) == Weights(ys, ds, m, mu, eps, k)
  {
    if k > 0 {
      assert xs[..k - 1] == ys[..k - 1] by {
        assert xs[..k - 1] == xs[..k][..k - 1];
        assert ys[..k - 1] == ys[..k][..k - 1];
      }
      WeightsAreCausal(xs, ys, ds, m, mu, eps, k - 1);
      RegressorsAgree(xs, ys, m, k - 1);
    }
  }

  /** `m` zeros followed by the first samples: the C code's `x_eff`. */
  function Padded(xs: seq<real>, m: nat): (p: seq<real>)
    ensures |p| == m + |xs|
  {
    seq(m, _ => 0.0) + xs
  }

  /** The window of the padded input at `k` is the regressor of step `k`;
      its last element is `x_eff[k+M-1]`, below `N+M-1`. */
  lemma PaddedWindow(xs: seq<real>, m: nat, k: nat)
    requires k < |xs|
    ensures k + m <= |xs| + m - 1
    ensures Padded(xs, m)[k..k + m] == Regressor(xs, m, k)
  {
  }

  /** The first loop of `apply_nlms_filter`: `w·x` and `x·x` over the
      regressor starting at `x_in[xStart]`. */
  method DotAndPower(xIn: array<real>, xStart: nat, w: array<real>, m: nat)
    returns (dot: real, xPow: real)
    requires xStart + m <= xIn.Length && m <= w.Length
    ensures dot == Dot(w[..m], xIn[xStart..xStart + m])
    ensures xPow == Dot(xIn[xStart..xStart + m], xIn[xStart..xStart + m])
  {
    ghost var ws, xs := w[..m], xIn[xStart..xStart + m];
    dot := 0.0;
    xPow := 0.0;
    for i := 0 to m
      invariant dot == Dot(ws[..i], xs[..i])
      invariant xPow == Dot(xs[..i], xs[..i])
    {
      DotStep(ws, xs, i);
      DotStep(xs, xs, i);
      dot := dot + w[i] * xIn[xStart + i];
      xPow := xPow + xIn[xStart + i] * xIn[xStart + i];
    }
    assert ws[..m] == ws && xs[..m] == xs;
  }

  /** The second loop of `apply_nlms_filter`: `w_new[i] = w[i] + mu_eff·e·x[i]`. */
  method MoveWeights(xIn: array<real>, xStart: nat, w: array<real>, m: nat, muEff: real, e: real,
                     wNew: array<real>)
    requires xStart + m <= xIn.Length && m <= w.Length && m <= wNew.Length
    requires wNew != w && wNew != xIn
    modifies wNew
    ensures wNew[..m] == Moved(w[..m], xIn[xStart..xStart + m], muEff, e)
    ensures wNew[m..] == old(wNew[m..])
  {
    ghost var moved := Moved(w[..m], xIn[xStart..xStart + m], muEff, e);
    for i := 0 to m
      invariant forall k :: 0 <= k < i ==> wNew[k] == moved[k]
      invariant wNew[m..] == old(wNew[m..])
    {
      wNew[i] := w[i] + muEff * e * xIn[xStart + i];
    }
    assert wNew[..m] == moved;
  }

  /** `apply_nlms_filter` on the regressor that starts at `x_in[xStart]`
      (the C code passes the address of a window of the padded input). */
  method ApplyNlmsFilter(xIn: array<real>, xStart: nat, w: array<real>, yNoisy: real, m: nat,
                         mu: real, eps: real, wNew: array<real>)
    returns (yHat: real, muEff: real, e: real)
    requires xStart + m <= xIn.Length && m <= w.Length && m <= wNew.Length
    requires wNew != w && wNew != xIn && eps > 0.0
    modifies wNew
    ensures var s := NlmsUpdate(w[..m], xIn[xStart..xStart + m], yNoisy, mu, eps);
            yHat == s.yHat && e == s.e && muEff == s.muEff && wNew[..m] == s.wNew
    ensures wNew[m..] == old(wNew[m..])
  {
    var dot, xPow := DotAndPower(xIn, xStart, w, m);
    DotSelfNonNegative(xIn[xStart..xStart + m]);
    yHat := dot;
    e := yNoisy - dot;
    muEff := mu / (xPow + eps);
    assert muEff == NormalisedStep(mu, xPow, eps);
    MoveWeights(xIn, xStart, w, m, muEff, e, wNew);
  }

  /** The padded input `x_eff` of `nlms_filter_full`: `M` zeros, then the
      first `N` samples. */
  method PadInput(xIn: array<real>, n: nat, m: nat) returns (xEff: array<real>)
    requires n <= xIn.Length
    ensures fresh(xEff)
    ensures xEff[..] == Padded(xIn[..n], m)
  {
    xEff := new real[n + m];
    for i := 0 to m
      invariant forall j :: 0 <= j < i ==> xEff[j] == 0.0
    {
      xEff[i] := 0.0;
    }
    for i := 0 to n
      invariant forall j :: 0 <= j < m ==> xEff[j] == 0.0
      invariant forall j :: 0 <= j < i ==> xEff[j + m] == xIn[j]
    {
      xEff[i + m] := xIn[i];
    }
    assert xEff[..] == Padded(xIn[..n], m);
  }

  /** Row `k` of `w_hist` receives the first `M` new weights. */
  method RecordWeights(wHist: array2<real>, k: nat, wNew: array<real>, m: nat)
    requires k < wHist.Length0 && m <= wHist.Length1 && m <= wNew.Length
    modifies wHist
    ensures forall c :: 0 <= c < m ==> wHist[k, c] == wNew[c]
    ensures forall j, c :: 0 <= j < wHist.Length0 && 0 <= c < wHist.Length1 && (j != k || c >= m) ==>
              wHist[j, c] == old(wHist[j, c])
  {
    for i := 0 to m
      invariant forall c :: 0 <= c < i ==> wHist[k, c] == wNew[c]
      invariant forall j, c :: 0 <= j < wHist.Length0 && 0 <= c < wHist.Length1 && (j != k || c >= i) ==>
                  wHist[j, c] == old(wHist[j, c])
    {
      wHist[k, i] := wNew[i];
    }
  }

  /** `w[i] = w_new[i]` for every weight. */
  method CopyWeights(w: array<real>, wNew: array<real>)
    requires w.Length == wNew.Length && w != wNew
    modifies w
    ensures w[..] == wNew[..]
  {
    for i := 0 to w.Length
      invariant forall c :: 0 <= c < i ==> w[c] == wNew[c]
    {
      w[i] := wNew[i];
    }
    assert w[..] == wNew[..];
  }

  /** One pass of the main loop of `nlms_filter_full`: step `k` on the
      window of `x_eff` at `k`, its outputs stored at index `k` of the
      histories and, when there is one, in row `k` of `w_hist`, and the new
      weights copied into `w`. */
  method FilterStep(xEff: array<real>, k: nat, w: array<real>, wNew: array<real>, dk: real,
                    mu: real, eps: real, yHat: array<real>, eHist: array<real>,
                    muEffHist: array<real>, wHist: array2?<real>, ghost s: NlmsStep)
    requires k + w.Length <= xEff.Length && wNew.Length == w.Length && eps > 0.0
    requires s == NlmsUpdate(w[..], xEff[k..k + w.Length], dk, mu, eps)
    requires k < yHat.Length && k < eHist.Length && k < muEffHist.Length
    requires wHist != null ==> k < wHist.Length0 && w.Length <= wHist.Length1
    requires w != wNew && w != xEff && wNew != xEff
    requires yHat != eHist && yHat != muEffHist && eHist != muEffHist
    requires yHat != xEff && eHist != xEff && muEffHist != xEff
    requires yHat != w && eHist != w && muEffHist != w && yHat != wNew && eHist != wNew && muEffHist != wNew
    modifies w, wNew, yHat, eHist, muEffHist, wHist
    ensures w[..] == s.wNew
    ensures yHat[k] == s.yHat && eHist[k] == s.e && muEffHist[k] == s.muEff
    ensures forall j :: 0 <= j < yHat.Length && j != k ==> yHat[j] == old(yHat[j])
    ensures forall j :: 0 <= j < eHist.Length && j != k ==> eHist[j] == old(eHist[j])
    ensures forall j :: 0 <= j < muEffHist.Length && j != k ==> muEffHist[j] == old(muEffHist[j])
    ensures
            (wHist != null ==>
               (forall c :: 0 <= c < w.Length ==> wHist[k, c] == s.wNew[c]) &&
               (forall j, c :: 0 <= j < wHist.Length0 && 0 <= c < wHist.Length1 && (j != k || c >= w.Length) ==>
                  wHist[j, c] == old(wHist[j, c])))
  {
    var m := w.Length;
    assert w[..m] == w[..];
    var currentYHat, currentMuEff, currentE := ApplyNlmsFilter(xEff, k, w, dk, m, mu, eps, wNew);
    assert wNew[..] == wNew[..m];
    yHat[k] := currentYHat;
    eHist[k] := currentE;
    muEffHist[k] := currentMuEff;
    if wHist != null {
      RecordWeights(wHist, k, wNew, m);
    }
    CopyWeights(w, wNew);
  }

  /** The histories after the steps in `steps`: index `j` holds step `j`, and
      every slot from `n` on still holds its value from `yHat0`, `eHist0` and
      `muEffHist0`. */
  ghost predicate Recorded(yHat: array<real>, eHist: array<real>, muEffHist: array<real>, n: nat,
                           steps: seq<NlmsStep>, yHat0: seq<real>, eHist0: seq<real>, muEffHist0: seq<real>)
    reads yHat, eHist, muEffHist
  {
    |steps| <= n <= yHat.Length && n <= eHist.Length && n <= muEffHist.Length
    && |yHat0| == yHat.Length && |eHist0| == eHist.Length && |muEffHist0| == muEffHist.Length
    && (forall j :: 0 <= j < |steps| ==>
          yHat[j] == steps[j].yHat && eHist[j] == steps[j].e && muEffHist[j] == steps[j].muEff)
    && (forall j :: n <= j < yHat.Length ==> yHat[j] == yHat0[j])
    && (forall j :: n <= j < eHist.Length ==> eHist[j] == eHist0[j])
    && (forall j :: n <= j < muEffHist.Length ==> muEffHist[j] == muEffHist0[j])
  }

  /** Row `j` of `w_hist` holds the first `m` new weights of step `j`, and
      every other cell still holds its value from `wHist0`. */
  ghost predicate RecordedWeights(wHist: array2?<real>, m: nat, steps: seq<NlmsStep>, wHist0: seq<seq<real>>)
    reads wHist
  {
    wHist != null ==>
      |steps| <= wHist.Length0 && m <= wHist.Length1
      && |wHist0| == wHist.Length0 && (forall j :: 0 <= j < |wHist0| ==> |wHist0[j]| == wHist.Length1)
      && (forall j :: 0 <= j < |steps| ==> |steps[j].wNew| == m)
      && (forall j, i :: 0 <= j < |steps| && 0 <= i < m ==> wHist[j, i] == steps[j].wNew[i])
      && (forall j, i :: 0 <= j < wHist.Length0 && 0 <= i < wHist.Length1 && (j >= |steps| || i >= m) ==>
            wHist[j, i] == wHist0[j][i])
  }

  /** `FilterStep` at `k == |steps|`: the histories then record `steps`
      followed by step `s`. */
  method RecordStep(xEff: array<real>, k: nat, w: array<real>, wNew: array<real>, dk: real,
                    mu: real, eps: real, yHat: array<real>, eHist: array<real>,
                    muEffHist: array<real>, wHist: array2?<real>, n: nat, ghost s: NlmsStep,
                    ghost steps: seq<NlmsStep>, ghost yHat0: seq<real>, ghost eHist0: seq<real>,
                    ghost muEffHist0: seq<real>, ghost wHist0: seq<seq<real>>)
    requires k == |steps| < n && k + w.Length <= xEff.Length && wNew.Length == w.Length && eps > 0.0
    requires s == NlmsUpdate(w[..], xEff[k..k + w.Length], dk, mu, eps)
    requires wHist != null ==> n <= wHist.Length0
    requires Recorded(yHat, eHist, muEffHist, n, steps, yHat0, eHist0, muEffHist0)
    requires RecordedWeights(wHist, w.Length, steps, wHist0)
    requires w != wNew && w != xEff && wNew != xEff
    requires yHat != eHist && yHat != muEffHist && eHist != muEffHist
    requires yHat != xEff && eHist != xEff && muEffHist != xEff
    requires yHat != w && eHist != w && muEffHist != w && yHat != wNew && eHist != wNew && muEffHist != wNew
    modifies w, wNew, yHat, eHist, muEffHist, wHist
    ensures w[..] == s.wNew
    ensures Recorded(yHat, eHist, muEffHist, n, steps + [s], yHat0, eHist0, muEffHist0)
    ensures RecordedWeights(wHist, w.Length, steps + [s], wHist0)
  {
    ghost var m := w.Length;
    assert |s.wNew| == m;
    FilterStep(xEff, k, w, wNew, dk, mu, eps, yHat, eHist, muEffHist, wHist, s);
    ghost var extended := steps + [s];
    if wHist != null {
      forall j | 0 <= j < |extended|
        ensures |extended[j].wNew| == m
      {
        if j < k {
          assert extended[j] == steps[j];
        }
      }
      forall j, i | 0 <= j < |extended| && 0 <= i < m
        ensures wHist[j, i] == extended[j].wNew[i]
      {
        if j < k {
          assert extended[j] == steps[j];
          assert old(wHist[j, i] == steps[j].wNew[i]);
          assert wHist[j, i] == old(wHist[j, i]);
        } else {
          assert extended[j] == s;
          assert wHist[k, i] == s.wNew[i];
        }
      }
      forall j, i | 0 <= j < wHist.Length0 && 0 <= i < wHist.Length1 && (j >= |extended| || i >= m)
        ensures wHist[j, i] == wHist0[j][i]
      {
        assert wHist[j, i] == old(wHist[j, i]);
        assert old(wHist[j, i] == wHist0[j][i]);
      }
    }
    assert RecordedWeights(wHist, m, extended, wHist0);
  }

  /** The sample loop of `nlms_filter_full`, from zero weights on the padded
      input `xEff`: afterwards the histories record the whole run. */
  method RunSteps(xEff: array<real>, d: array<real>, n: nat, m: nat, mu: real, eps: real,
                  w: array<real>, wNew: array<real>, yHat: array<real>, eHist: array<real>,
                  muEffHist: array<real>, wHist: array2?<real>, ghost xs: seq<real>, ghost ds: seq<real>,
                  ghost yHat0: seq<real>, ghost eHist0: seq<real>, ghost muEffHist0: seq<real>,
                  ghost wHist0: seq<seq<real>>)
    requires |xs| == n && n <= d.Length && d[..n] == ds && eps > 0.0
    requires xEff[..] == Padded(xs, m) && w.Length == m && wNew.Length == m
    requires w[..] == Weights(xs, ds, m, mu, eps, 0)
    requires wHist != null ==> n <= wHist.Length0
    requires Recorded(yHat, eHist, muEffHist, n, [], yHat0, eHist0, muEffHist0)
    requires RecordedWeights(wHist, m, [], wHist0)
    requires w != wNew && w != xEff && wNew != xEff && d != w && d != wNew
    requires yHat != eHist && yHat != muEffHist && eHist != muEffHist
    requires yHat != xEff && eHist != xEff && muEffHist != xEff && yHat != d && eHist != d && muEffHist != d
    requires yHat != w && eHist != w && muEffHist != w && yHat != wNew && eHist != wNew && muEffHist != wNew
    modifies w, wNew, yHat, eHist, muEffHist, wHist
    ensures Recorded(yHat, eHist, muEffHist, n, Run(xs, ds, m, mu, eps, n), yHat0, eHist0, muEffHist0)
    ensures RecordedWeights(wHist, m, Run(xs, ds, m, mu, eps, n), wHist0)
  {
    ghost var steps: seq<NlmsStep> := [];
    for k := 0 to n
      invariant d[..n] == ds
      invariant xEff[..] == Padded(xs, m)
      invariant w[..] == Weights(xs, ds, m, mu, eps, k)
      invariant steps == Run(xs, ds, m, mu, eps, k)
      invariant Recorded(yHat, eHist, muEffHist, n, steps, yHat0, eHist0, muEffHist0)
      invariant RecordedWeights(wHist, m, steps, wHist0)
    {
      PaddedWindow(xs, m, k);
      assert xEff[k..k + m] == Regressor(xs, m, k) by {
        assert xEff[k..k + m] == xEff[..][k..k + m];
      }
      ghost var s := StepAt(xs, ds, m, mu, eps, k);
      assert d[k] == ds[k];
      StepExtendsRun(xs, ds, m, mu, eps, k, w[..], xEff[k..k + m]);
      RecordStep(xEff, k, w, wNew, d[k], mu, eps, yHat, eHist, muEffHist, wHist, n, s,
                 steps, yHat0, eHist0, muEffHist0, wHist0);
      steps := steps + [s];
    }
  }

  /** `nlms_filter_full(x_in, d, N, M, mu, eps, y_hat, e_hist, mu_eff_hist,
      w_hist)`: step `k` of the run is recorded at index `k` of each history,
      and the post-update weights in row `k` of `w_hist` unless it is null. */
  method NlmsFilterFull(xIn: array<real>, d: array<real>, n: nat, m: nat, mu: real, eps: real,
                        yHat: array<real>, eHist: array<real>, muEffHist: array<real>,
                        wHist: array2?<real>)
    requires n <= xIn.Length && n <= d.Length && eps > 0.0
    requires n <= yHat.Length && n <= eHist.Length && n <= muEffHist.Length
    requires wHist != null ==> n <= wHist.Length0 && m <= wHist.Length1
    requires yHat != eHist && yHat != muEffHist && eHist != muEffHist
    requires yHat != xIn && yHat != d && eHist != xIn && eHist != d && muEffHist != xIn && muEffHist != d
    modifies yHat, eHist, muEffHist, wHist
    ensures forall k :: 0 <= k < n ==>
              var s := StepAt(old(xIn[..n]), old(d[..n]), m, mu, eps, k);
              yHat[k] == s.yHat && eHist[k] == s.e && muEffHist[k] == s.muEff
    ensures wHist != null ==> forall k, i :: 0 <= k < n && 0 <= i < m ==>
              wHist[k, i] == StepAt(old(xIn[..n]), old(d[..n]), m, mu, eps, k).wNew[i]
    ensures forall k :: n <= k < yHat.Length ==> yHat[k] == old(yHat[k])
    ensures forall k :: n <= k < eHist.Length ==> eHist[k] == old(eHist[k])
    ensures forall k :: n <= k < muEffHist.Length ==> muEffHist[k] == old(muEffHist[k])
    ensures wHist != null ==> forall k, i :: 0 <= k < wHist.Length0 && 0 <= i < wHist.Length1 && (k >= n || i >= m) ==>
              wHist[k, i] == old(wHist[k, i])
  {
    ghost var xs, ds := xIn[..n], d[..n];
    ghost var yHat0, eHist0, muEffHist0 := yHat[..], eHist[..], muEffHist[..];
    ghost var wHist0 := if wHist == null then [] else
      seq(wHist.Length0, j requires 0 <= j < wHist.Length0 reads wHist =>
        seq(wHist.Length1, i requires 0 <= i < wHist.Length1 reads wHist => wHist[j, i]));
    var xEff := PadInput(xIn, n, m);
    var w := new real[m](_ => 0.0);
    var wNew := new real[m];
    assert w[..] == Weights(xs, ds, m, mu, eps, 0);
    RunSteps(xEff, d, n, m, mu, eps, w, wNew, yHat, eHist, muEffHist, wHist, xs, ds,
             yHat0, eHist0, muEffHist0, wHist0);
    RunListsSteps(xs, ds, m, mu, eps, n);
  }
}
