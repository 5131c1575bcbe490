/** The quantised kernel-LMS one-step predictor of `Machine_Learning/QKLMS.C`.
    The model is a codebook of centres with one coefficient each; a sample
    within `epsilon` of its nearest centre only adjusts that centre's
    coefficient, any other sample becomes a new centre. Doubles are modelled
    as reals and the C library's `exp` is a parameter. The learning rule is
    stated for any kernel `K`; `qklms_filter_full` uses the Gaussian one. */
module Qklms {
  import opened CMath

  /** `gaussian_kernel(u, v, sigma)` with `exp` supplied by the caller. */
  function GaussianKernel(u: real, v: real, sigma: real, exp: real -> real): real
    requires sigma != 0.0
  {
    exp(-((u - v) * (u - v)) / (2.0 * sigma * sigma))
  }

  /** The kernel depends only on the distance between its two points. */
  lemma KernelSymmetric(u: real, v: real, sigma: real, exp: real -> real)
    requires sigma != 0.0
    ensures GaussianKernel(u, v, sigma, exp) == GaussianKernel(v, u, sigma, exp)
  {
    assert (u - v) * (u - v) == (v - u) * (v - u);
  }

  /** The Gaussian kernel of width `sigma` as a function of two points. */
  ghost predicate IsGaussian(kernel: (real, real) -> real, sigma: real, exp: real -> real) {
    sigma != 0.0 && forall a, b :: kernel(a, b) == GaussianKernel(a, b, sigma, exp)
  }

  /** The tuning parameters of `qklms_filter_full`, with the kernel standing
      for `gaussian_kernel(., ., sigma)`. */
  datatype Params = Params(eta: real, epsilon: real, kernel: (real, real) -> real)

  /** The learned model: centres and their coefficients. */
  datatype Model = Model(codebook: seq<real>, coeffs: seq<real>)

  predicate WellFormed(m: Model) {
    1 <= |m.codebook| == |m.coeffs|
  }

  /** `Σ coeffs[j]·K(codebook[j], x)`, summed in index order. */
  function Predict(codebook: seq<real>, coeffs: seq<real>, x: real, p: Params): real
    requires |codebook| == |coeffs|
  {
    if codebook == [] then 0.0
    else
      var last := |codebook| - 1;
      Predict(codebook[..last], coeffs[..last], x, p) + coeffs[last] * p.kernel(codebook[last], x)
  }

  lemma PredictStep(codebook: seq<real>, coeffs: seq<real>, x: real, p: Params, j: nat)
    requires |codebook| == |coeffs| && j < |codebook|
    ensures Predict(codebook[..j + 1], coeffs[..j + 1], x, p)
         == Predict(codebook[..j], coeffs[..j], x, p) + coeffs[j] * p.kernel(codebook[j], x)
  {
    assert codebook[..j + 1][..j] == codebook[..j] && coeffs[..j + 1][..j] == coeffs[..j];
  }

  /** Adding `delta` to coefficient `j` moves every prediction by `delta`
      times the kernel of centre `j`. */
  lemma {:induction false} PredictLinear(codebook: seq<real>, coeffs: seq<real>, j: nat, delta: real, x: real, p: Params)
    requires |codebook| == |coeffs| && j < |codebook|
    ensures Predict(codebook, coeffs[j := coeffs[j] + delta], x, p)
         == Predict(codebook, coeffs, x, p) + delta * p.kernel(codebook[j], x)
  {
    var last := |codebook| - 1;
    var coeffs' := coeffs[j := coeffs[j] + delta];
    var k := p.kernel(codebook[j], x);
    if j < last {
      assert coeffs'[..last] == coeffs[..last][j := coeffs[j] + delta];
      PredictLinear(codebook[..last], coeffs[..last], j, delta, x, p);
    } else {
      assert coeffs'[..last] == coeffs[..last];
      Distribute(coeffs[j], delta, k);
    }
  }

  lemma Distribute(a: real, b: real, c: real)
    ensures (a + b) * c == a * c + b * c
  {
  }

  /** A new centre adds its own term to every prediction. */
  lemma PredictAppend(codebook: seq<real>, coeffs: seq<real>, c: real, a: real, x: real, p: Params)
    requires |codebook| == |coeffs|
    ensures Predict(codebook + [c], coeffs + [a], x, p)
         == Predict(codebook, coeffs, x, p) + a * p.kernel(c, x)
  {
    assert (codebook + [c])[..|codebook|] == codebook;
    assert (coeffs + [a])[..|coeffs|] == coeffs;
  }

  /** The index the search of `qklms_filter_full` settles on: a centre
      nearest to `x`, and the first such, since a later centre replaces the
      current one only when it is strictly nearer. */
  function Nearest(codebook: seq<real>, x: real): (j: nat)
    requires |codebook| >= 1
    ensures j < |codebook|
  {
    if |codebook| == 1 then 0
    else
      var last := |codebook| - 1;
      var j := Nearest(codebook[..last], x);
      if Abs(x - codebook[last]) < Abs(x - codebook[j]) then last else j
  }

  /** No centre is nearer to `x` than `Nearest`, and every earlier centre
      is strictly further away. */
  lemma {:induction false} NearestIsNearest(codebook: seq<real>, x: real)
    requires |codebook| >= 1
    ensures var j := Nearest(codebook, x);
            forall k :: 0 <= k < |codebook| ==> Abs(x - codebook[j]) <= Abs(x - codebook[k])
    ensures var j := Nearest(codebook, x);
            forall k :: 0 <= k < j ==> Abs(x - codebook[j]) < Abs(x - codebook[k])
  {
    if |codebook| > 1 {
      var last := |codebook| - 1;
      var prefix := codebook[..last];
      NearestIsNearest(prefix, x);
      var n := Nearest(prefix, x);
      assert forall k :: 0 <= k < last ==> codebook[k] == prefix[k];
    }
  }

  lemma NearestStep(codebook: seq<real>, x: real, j: nat)
    requires 1 <= j < |codebook|
    ensures var n := Nearest(codebook[..j], x);
            Nearest(codebook[..j + 1], x) == if Abs(x - codebook[j]) < Abs(x - codebook[n]) then j else n
  {
    assert codebook[..j + 1][..j] == codebook[..j];
  }

  /** The model change for sample `x` whose coefficient step is `step`
      (`eta` times the prediction error). */
  function Update(m: Model, x: real, step: real, epsilon: real): (r: Model)
    requires WellFormed(m)
    ensures WellFormed(r)
  {
    var j := Nearest(m.codebook, x);
    if Abs(x - m.codebook[j]) <= epsilon then Model(m.codebook, m.coeffs[j := m.coeffs[j] + step])
    else Model(m.codebook + [x], m.coeffs + [step])
  }

  /** A sample within `epsilon` of some centre adds the step to the
      coefficient of the nearest centre and changes nothing else. */
  lemma UpdateNear(m: Model, x: real, step: real, epsilon: real, k: nat)
    requires WellFormed(m) && k < |m.codebook| && Abs(x - m.codebook[k]) <= epsilon
    ensures var j := Nearest(m.codebook, x);
            Update(m, x, step, epsilon) == Model(m.codebook, m.coeffs[j := m.coeffs[j] + step])
  {
    NearestIsNearest(m.codebook, x);
  }

  /** A sample further than `epsilon` from every centre becomes a new centre
      whose coefficient is the step; the count grows by exactly one. */
  lemma UpdateFar(m: Model, x: real, step: real, epsilon: real)
    requires WellFormed(m)
    requires forall k :: 0 <= k < |m.codebook| ==> Abs(x - m.codebook[k]) > epsilon
    ensures Update(m, x, step, epsilon) == Model(m.codebook + [x], m.coeffs + [step])
    ensures |Update(m, x, step, epsilon).codebook| == |m.codebook| + 1
  {
    var j := Nearest(m.codebook, x);
    assert Abs(x - m.codebook[j]) > epsilon;
  }

  /** Any two centres are more than `epsilon` apart. */
  predicate Separated(codebook: seq<real>, epsilon: real) {
    forall i, j :: 0 <= i < j < |codebook| ==> Abs(codebook[i] - codebook[j]) > epsilon
  }

  /** A point further than `epsilon` from every centre can join them. */
  lemma AppendKeepsSeparated(codebook: seq<real>, x: real, epsilon: real)
    requires Separated(codebook, epsilon)
    requires forall k :: 0 <= k < |codebook| ==> Abs(x - codebook[k]) > epsilon
    ensures Separated(codebook + [x], epsilon)
  {
    var cb := codebook + [x];
    forall a, b | 0 <= a < b < |cb|
      ensures Abs(cb[a] - cb[b]) > epsilon
    {
      if b == |codebook| {
        AbsSymmetric(x, codebook[a]);
      }
    }
  }

  lemma UpdateKeepsSeparated(m: Model, x: real, step: real, epsilon: real)
    requires WellFormed(m) && Separated(m.codebook, epsilon)
    ensures Separated(Update(m, x, step, epsilon).codebook, epsilon)
  {
    var j := Nearest(m.codebook, x);
    if Abs(x - m.codebook[j]) > epsilon {
      assert Update(m, x, step, epsilon).codebook == m.codebook + [x];
      NearestIsNearest(m.codebook, x);
      AppendKeepsSeparated(m.codebook, x, epsilon);
    } else {
      assert Update(m, x, step, epsilon).codebook == m.codebook;
    }
  }

  /** The coefficient change for an error `e`: `eta·e`. */
  function Gain(eta: real, e: real): real {
    eta * e
  }

  /** The model after samples `0 .. k-1`: the first sample seeds the
      codebook with coefficient `eta·d[0]`, every later one is an `Update`
      with the error of the prediction made before it. */
  function Run(us: seq<real>, ds: seq<real>, k: nat, p: Params): (m: Model)
    requires 1 <= k <= |us| && k <= |ds|
    ensures WellFormed(m)
  {
    if k == 1 then Model([us[0]], [Gain(p.eta, ds[0])])
    else Learn(Run(us, ds, k - 1, p), us[k - 1], ds[k - 1], p)
  }

  /** What the model learns from input `u` with target `d`: the `Update`
      whose step is `eta` times the error of its own prediction at `u`. */
  function Learn(m: Model, u: real, d: real, p: Params): (r: Model)
    requires WellFormed(m)
    ensures WellFormed(r)
  {
    Update(m, u, Gain(p.eta, d - Predict(m.codebook, m.coeffs, u, p)), p.epsilon)
  }

  /** `y_hat[i]`: the prediction at sample `i` of the model that has seen
      samples `0 .. i-1`, except that `y_hat[0]` comes from the model already
      seeded with sample 0. */
  function Prediction(us: seq<real>, ds: seq<real>, i: nat, p: Params): real
    requires i < |us| && i < |ds|
  {
    var m := Run(us, ds, if i == 0 then 1 else i, p);
    Predict(m.codebook, m.coeffs, us[i], p)
  }

  /** `y_hat[0 .. k-1]`. */
  function Predictions(us: seq<real>, ds: seq<real>, k: nat, p: Params): (ys: seq<real>)
    requires k <= |us| && k <= |ds|
    ensures |ys| == k
  {
    if k == 0 then [] else Predictions(us, ds, k - 1, p) + [Prediction(us, ds, k - 1, p)]
  }

  /** Entry `i` of `Predictions` is `Prediction(i)`, whatever the length. */
  lemma {:induction false} PredictionsAt(us: seq<real>, ds: seq<real>, k: nat, p: Params, i: nat)
    requires k <= |us| && k <= |ds| && i < k
    ensures Predictions(us, ds, k, p)[i] == Prediction(us, ds, i, p)
  {
    if i < k - 1 {
      PredictionsAt(us, ds, k - 1, p, i);
    }
  }

  /** The first prediction has already learned from its own target: it is
      the seed coefficient `eta·d[0]` times the kernel of sample 0 with
      itself. */
  lemma FirstPredictionSeesItsTarget(us: seq<real>, ds: seq<real>, p: Params, seed: real, self: real)
    requires 1 <= |us| && 1 <= |ds|
    requires seed == Gain(p.eta, ds[0]) && self == p.kernel(us[0], us[0])
    ensures Prediction(us, ds, 0, p) == seed * self
  {
    var m := Run(us, ds, 1, p);
    assert m.codebook[..0] == [] && m.coeffs[..0] == [];
    assert Predict(m.codebook[..0], m.coeffs[..0], us[0], p) == 0.0;
  }

  /** One step of a run: sample `i` is predicted by the model that has
      seen samples `0 .. i-1`, which then learns from it. */
  lemma RunStep(us: seq<real>, ds: seq<real>, i: nat, p: Params)
    requires 1 <= i < |us| && i < |ds|
    ensures Prediction(us, ds, i, p) == Predict(Run(us, ds, i, p).codebook, Run(us, ds, i, p).coeffs, us[i], p)
    ensures Run(us, ds, i + 1, p) == Learn(Run(us, ds, i, p), us[i], ds[i], p)
  {
    var k := i + 1;
    assert k - 1 == i;
    assert Run(us, ds, k, p) == Learn(Run(us, ds, k - 1, p), us[k - 1], ds[k - 1], p);
  }

  /** After `k` samples there are at most `k` centres, so the `n`-sized
      arrays of `qklms_filter_full` always have room. */
  lemma {:induction false} RunSize(us: seq<real>, ds: seq<real>, k: nat, p: Params)
    requires 1 <= k <= |us| && k <= |ds|
    ensures |Run(us, ds, k, p).codebook| <= k
  {
    if k > 1 {
      RunSize(us, ds, k - 1, p);
    }
  }

  /** The centres of every model of a run are more than `epsilon` apart. */
  lemma {:induction false} RunSeparated(us: seq<real>, ds: seq<real>, k: nat, p: Params)
    requires 1 <= k <= |us| && k <= |ds|
    ensures Separated(Run(us, ds, k, p).codebook, p.epsilon)
  {
    if k > 1 {
      RunSeparated(us, ds, k - 1, p);
      var prev := Run(us, ds, k - 1, p);
      var y := Predict(prev.codebook, prev.coeffs, us[k - 1], p);
      UpdateKeepsSeparated(prev, us[k - 1], Gain(p.eta, ds[k - 1] - y), p.epsilon);
    }
  }

  /** Every centre is one of the samples seen so far. */
  lemma {:induction false} CentresAreSamples(us: seq<real>, ds: seq<real>, k: nat, p: Params)
    requires 1 <= k <= |us| && k <= |ds|
    ensures forall c :: c in Run(us, ds, k, p).codebook ==> c in us[..k]
  {
    if k > 1 {
      CentresAreSamples(us, ds, k - 1, p);
      var prev := Run(us, ds, k - 1, p);
      LearnCodebook(prev, us[k - 1], ds[k - 1], p);
      assert us[..k] == us[..k - 1] + [us[k - 1]];
    }
  }

  /** Learning a sample either keeps the codebook or appends the sample. */
  lemma LearnCodebook(m: Model, u: real, d: real, p: Params)
    requires WellFormed(m)
    ensures var cb := Learn(m, u, d, p).codebook;
            cb == m.codebook || cb == m.codebook + [u]
  {
    var step := Gain(p.eta, d - Predict(m.codebook, m.coeffs, u, p));
    assert Learn(m, u, d, p) == Update(m, u, step, p.epsilon);
  }



  /** The three output arrays are distinct from each other and from the
      two inputs. */
  predicate Distinct(u: array<real>, d: array<real>, yHat: array<real>, codebook: array<real>, coeffs: array<real>) {
    yHat != codebook && yHat != coeffs && codebook != coeffs &&
    u != yHat && u != codebook && u != coeffs && d != yHat && d != codebook && d != coeffs
  }

  /** The first loop of the per-sample step: the prediction of the first
      `count` centres at `x`. */
  method PredictAt(codebook: array<real>, coeffs: array<real>, count: nat, x: real,
                   kernel: (real, real) -> real, ghost p: Params)
    returns (y: real)
    requires count <= codebook.Length && count <= coeffs.Length && kernel == p.kernel
    ensures y == Predict(codebook[..count], coeffs[..count], x, p)
  {
    y := 0.0;
    for j := 0 to count
      invariant y == Predict(codebook[..j], coeffs[..j], x, p)
    {
      PredictStep(codebook[..count], coeffs[..count], x, p, j);
      assert codebook[..count][..j] == codebook[..j] && coeffs[..count][..j] == coeffs[..j];
      assert codebook[..count][..j + 1] == codebook[..j + 1] && coeffs[..count][..j + 1] == coeffs[..j + 1];
      y := y + coeffs[j] * kernel(codebook[j], x);
    }
  }

  /** The second loop of the per-sample step: the nearest centre among the
      first `count` and its distance. */
  method NearestAt(codebook: array<real>, count: nat, x: real) returns (jStar: nat, minDist: real)
    requires 1 <= count <= codebook.Length
    ensures jStar == Nearest(codebook[..count], x)
    ensures minDist == Abs(x - codebook[jStar])
  {
    ghost var cb := codebook[..count];
    minDist := Abs(x - codebook[0]);
    jStar := 0;
    assert cb[..1] == [codebook[0]];
    for j := 1 to count
      invariant jStar == Nearest(cb[..j], x)
      invariant jStar < j && minDist == Abs(x - codebook[jStar])
    {
      NearestStep(cb, x, j);
      var dist := Abs(x - codebook[j]);
      if dist < minDist {
        minDist := dist;
        jStar := j;
      }
    }
    assert cb[..count] == cb;
  }

  /** The body of the outer loop of `qklms_filter_full` for sample `i`:
      records the prediction of the current model `m` in `y_hat[i]`, then
      applies `Update` with the step `eta·(d[i] - y_hat[i])`. */
  method LearnSample(u: array<real>, d: array<real>, i: nat, eta: real, kernel: (real, real) -> real,
                     epsilon: real, yHat: array<real>, codebook: array<real>, coeffs: array<real>,
                     count: nat, ghost m: Model, ghost p: Params)
    returns (count': nat)
    requires i < u.Length && i < d.Length && i < yHat.Length
    requires p == Params(eta, epsilon, kernel)
    requires WellFormed(m) && count == |m.codebook| && count < codebook.Length && count < coeffs.Length
    requires codebook[..count] == m.codebook && coeffs[..count] == m.coeffs
    requires Distinct(u, d, yHat, codebook, coeffs)
    modifies yHat, codebook, coeffs
    ensures yHat[..] == old(yHat[..])[i := Predict(m.codebook, m.coeffs, u[i], p)]
    ensures var r := Learn(m, u[i], d[i], p);
            count' == |r.codebook| && codebook[..count'] == r.codebook && coeffs[..count'] == r.coeffs
  {
    var y := PredictAt(codebook, coeffs, count, u[i], kernel, p);
    yHat[i] := y;
    var e := d[i] - y;
    var step := eta * e;
    ghost var r := Update(m, u[i], Gain(eta, e), epsilon);
    var jStar, minDist := NearestAt(codebook, count, u[i]);
    assert codebook[..count] == m.codebook;
    assert jStar == Nearest(m.codebook, u[i]);
    assert minDist == Abs(u[i] - m.codebook[jStar]);
    assert Gain(eta, e) == step;
    if minDist <= epsilon {
      assert r == Model(m.codebook, m.coeffs[jStar := m.coeffs[jStar] + step]);
      coeffs[jStar] := coeffs[jStar] + step;
      count' := count;
      assert coeffs[..count] == m.coeffs[jStar := m.coeffs[jStar] + step];
    } else {
      assert r == Model(m.codebook + [u[i]], m.coeffs + [step]);
      codebook[count] := u[i];
      coeffs[count] := step;
      count' := count + 1;
      assert codebook[..count'] == m.codebook + [u[i]];
      assert coeffs[..count'] == m.coeffs + [step];
    }
  }

  /** The first sample seeds the codebook and makes the first prediction. */
  method Seed(u: array<real>, d: array<real>, eta: real, kernel: (real, real) -> real, epsilon: real,
              yHat: array<real>, codebook: array<real>, coeffs: array<real>,
              ghost us: seq<real>, ghost ds: seq<real>, ghost p: Params)
    requires 1 <= |us| <= u.Length && 1 <= |ds| <= d.Length && us[0] == u[0] && ds[0] == d[0]
    requires 1 <= yHat.Length && 1 <= codebook.Length && 1 <= coeffs.Length
    requires p == Params(eta, epsilon, kernel)
    requires Distinct(u, d, yHat, codebook, coeffs)
    modifies yHat, codebook, coeffs
    ensures codebook[..1] == Run(us, ds, 1, p).codebook && coeffs[..1] == Run(us, ds, 1, p).coeffs
    ensures yHat[..1] == Predictions(us, ds, 1, p)
  {
    var seed := eta * d[0];
    var self := kernel(u[0], u[0]);
    assert Run(us, ds, 1, p) == Model([u[0]], [seed]) by {
      assert Gain(p.eta, ds[0]) == seed;
    }
    FirstPredictionSeesItsTarget(us, ds, p, seed, self);
    assert Predictions(us, ds, 1, p) == [seed * self];
    codebook[0] := u[0];
    coeffs[0] := seed;
    yHat[0] := seed * self;
    assert codebook[..1] == [u[0]] && coeffs[..1] == [seed] && yHat[..1] == [seed * self];
  }

  /** The arrays hold the run after samples `0 .. i-1`: the model's centres
      and coefficients in the first `count` slots, and every prediction so far. */
  ghost predicate Learned(us: seq<real>, ds: seq<real>, p: Params, i: nat, count: nat,
                          yHat: array<real>, codebook: array<real>, coeffs: array<real>)
    reads yHat, codebook, coeffs
  {
    && 1 <= i <= |us| && i <= |ds|
    && i <= yHat.Length && count <= codebook.Length && count <= coeffs.Length
    && yHat[..i] == Predictions(us, ds, i, p)
    && var m := Run(us, ds, i, p);
       count == |m.codebook| && codebook[..count] == m.codebook && coeffs[..count] == m.coeffs
  }

  /** One pass of the outer loop of `qklms_filter_full`, stated against the
      run: from the model after samples `0 .. i-1` to the model after sample
      `i`, with `y_hat[i]` recorded. */
  method Advance(u: array<real>, d: array<real>, i: nat, eta: real, kernel: (real, real) -> real,
                 epsilon: real, yHat: array<real>, codebook: array<real>, coeffs: array<real>, count: nat,
                 ghost us: seq<real>, ghost ds: seq<real>, ghost p: Params)
    returns (count': nat)
    requires 1 <= i < |us| == |ds| && |us| <= u.Length && |ds| <= d.Length
    requires us == u[..|us|] && ds == d[..|ds|]
    requires |us| <= yHat.Length && |us| <= codebook.Length && |us| <= coeffs.Length
    requires p == Params(eta, epsilon, kernel)
    requires Distinct(u, d, yHat, codebook, coeffs)
    requires count <= i
    requires Learned(us, ds, p, i, count, yHat, codebook, coeffs)
    modifies yHat, codebook, coeffs
    ensures count' <= i + 1
    ensures Learned(us, ds, p, i + 1, count', yHat, codebook, coeffs)
  {
    ghost var m := Run(us, ds, i, p);
    RunSize(us, ds, i, p);
    RunStep(us, ds, i, p);
    assert us[i] == u[i] && ds[i] == d[i];
    ghost var before := yHat[..];
    count' := LearnSample(u, d, i, eta, kernel, epsilon, yHat, codebook, coeffs, count, m, p);
    assert yHat[..i + 1] == before[..i] + [Prediction(us, ds, i, p)];
  }

  /** `qklms_filter_full(u, d, n, eta, sigma, epsilon, y_hat, codebook,
      coeffs, &codebook_count)`, with `kernel` standing for
      `gaussian_kernel(., ., sigma)` (see `IsGaussian`): the returned count
      and the filled prefixes of `codebook` and `coeffs` are the model `Run`
      builds from all `n` samples, and `y_hat` holds every `Prediction`. */
  method QklmsFilterFull(u: array<real>, d: array<real>, n: nat, eta: real, kernel: (real, real) -> real,
                         epsilon: real, yHat: array<real>, codebook: array<real>, coeffs: array<real>)
    returns (count: nat)
    requires 1 <= n <= u.Length && n <= d.Length
    requires n <= yHat.Length && n <= codebook.Length && n <= coeffs.Length
    requires Distinct(u, d, yHat, codebook, coeffs)
    modifies yHat, codebook, coeffs
    ensures count <= n
    ensures var m := Run(u[..n], d[..n], n, Params(eta, epsilon, kernel));
            count == |m.codebook| && codebook[..count] == m.codebook && coeffs[..count] == m.coeffs
    ensures yHat[..n] == Predictions(u[..n], d[..n], n, Params(eta, epsilon, kernel))
  {
    ghost var p := Params(eta, epsilon, kernel);
    ghost var us, ds := u[..n], d[..n];
    Seed(u, d, eta, kernel, epsilon, yHat, codebook, coeffs, us, ds, p);
    count := 1;
    RunSize(us, ds, 1, p);
    for i := 1 to n
      invariant u[..n] == us && d[..n] == ds
      invariant count <= i
      invariant Learned(us, ds, p, i, count, yHat, codebook, coeffs)
    {
      count := Advance(u, d, i, eta, kernel, epsilon, yHat, codebook, coeffs, count, us, ds, p);
    }
    RunSize(us, ds, n, p);
    assert u[..n] == us && d[..n] == ds;
  }

  /** The one-step pairing of `main`: a recording of fewer than two samples
      is skipped; otherwise input `j` is sample `j` and target `j` is sample
      `j + 1`, for the `N - 1` pairs. */
  method PairSamples(voltage: array<real>) returns (paired: bool, u: array<real>, d: array<real>)
    ensures paired <==> voltage.Length >= 2
    ensures paired ==> u[..] == voltage[..voltage.Length - 1] && d[..] == voltage[1..]
    ensures !paired ==> u.Length == 0 && d.Length == 0
  {
    if voltage.Length < 2 {
      return false, new real[0], new real[0];
    }
    var l := voltage.Length - 1;
    u := new real[l];
    d := new real[l];
    for j := 0 to l
      invariant forall k :: 0 <= k < j ==> u[k] == voltage[k] && d[k] == voltage[k + 1]
    {
      u[j] := voltage[j];
      d[j] := voltage[j + 1];
    }
    paired := true;
  }
}
