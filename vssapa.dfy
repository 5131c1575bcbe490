/** The variable step-size affine projection filter of `ml-model/VSSAPA.C`.
    The C code's row-major buffers (`X`, `A`, `A_inv`) and the `double**`
    histories are modelled as `array2`s in the methods and as sequences of
    rows in the specification; doubles are modelled as reals, and `sqrt` is
    a parameter. */
module VssApa {
  import opened CMath
  import opened Wrappers
  import opened MatrixInverse

  /** Column `p` of an `m × cols` matrix. */
  function Column(x: Matrix, m: nat, cols: nat, p: nat): (c: seq<real>)
    requires IsMatrix(x, m, cols) && p < cols
    ensures |c| == m
    ensures forall i :: 0 <= i < m ==> c[i] == x[i][p]
  {
    seq(m, i requires 0 <= i < m => x[i][p])
  }

  /** `y = Xᵀ·w`. */
  function Outputs(x: Matrix, w: seq<real>, m: nat, cols: nat): (y: seq<real>)
    requires IsMatrix(x, m, cols) && |w| == m
    ensures |y| == cols
  {
    seq(cols, p requires 0 <= p < cols => Dot(Column(x, m, cols, p), w))
  }

  /** `e = d - y`. */
  function Errors(d: seq<real>, y: seq<real>): (e: seq<real>)
    requires |d| == |y|
    ensures |e| == |d|
  {
    seq(|d|, p requires 0 <= p < |d| => d[p] - y[p])
  }

  /** `A = XᵀX + delta·I`. */
  function Gram(x: Matrix, m: nat, cols: nat, delta: real): (a: Matrix)
    requires IsMatrix(x, m, cols)
    ensures IsMatrix(a, cols, cols)
  {
    seq(cols, p requires 0 <= p < cols =>
      seq(cols, q requires 0 <= q < cols =>
        Dot(Column(x, m, cols, p), Column(x, m, cols, q)) + (if p == q then delta else 0.0)))
  }

  /** `M·v` for a matrix with `|v|` columns. */
  function MatVec(a: Matrix, v: seq<real>, rows: nat): (r: seq<real>)
    requires IsMatrix(a, rows, |v|)
    ensures |r| == rows
  {
    seq(rows, p requires 0 <= p < rows => Dot(a[p], v))
  }

  /** `w + mu·u`. */
  function Advance(w: seq<real>, u: seq<real>, mu: real): (r: seq<real>)
    requires |w| == |u|
    ensures |r| == |w|
  {
    seq(|w|, i requires 0 <= i < |w| => Shifted(w[i], mu, u[i]))
  }

  function Shifted(w: real, mu: real, u: real): real {
    w + mu * u
  }

  /** The results of one `apply_vss_apa_filter` call; `wNew` is `None` when
      the inversion fails and `w_new` is left as it was. */
  datatype ApaStep = ApaStep(y: seq<real>, e: seq<real>, wNew: Option<seq<real>>)

  /** `apply_vss_apa_filter`: outputs and errors of the block, then
      `w + mu·X·A⁻¹·e` with `A = XᵀX + delta·I`. */
  function ApaUpdate(x: Matrix, d: seq<real>, w: seq<real>, mu: real, delta: real, m: nat, cols: nat)
    : (st: ApaStep)
    requires IsMatrix(x, m, cols) && |d| == cols && |w| == m
    ensures |st.y| == cols && |st.e| == cols
    ensures st.wNew.Some? <==> Invert(Gram(x, m, cols, delta), cols).Some?
    ensures st.wNew.Some? ==> |st.wNew.value| == m
  {
    var y := Outputs(x, w, m, cols);
    var e := Errors(d, y);
    match Invert(Gram(x, m, cols, delta), cols)
    case None => ApaStep(y, e, None)
    case Some(aInv) => ApaStep(y, e, Some(Advance(w, MatVec(x, MatVec(aInv, e, cols), m), mu)))
  }

  /** The regularised Gram matrix is symmetric. */
  lemma GramSymmetric(x: Matrix, m: nat, cols: nat, delta: real, p: nat, q: nat)
    requires IsMatrix(x, m, cols) && p < cols && q < cols
    ensures Gram(x, m, cols, delta)[p][q] == Gram(x, m, cols, delta)[q][p]
  {
    DotSymmetric(Column(x, m, cols, p), Column(x, m, cols, q));
  }

  /** Each error is the target minus the output: `y + e = d`. */
  lemma ErrorsComplementOutputs(x: Matrix, d: seq<real>, w: seq<real>, mu: real, delta: real,
                                m: nat, cols: nat, p: nat)
    requires IsMatrix(x, m, cols) && |d| == cols && |w| == m && p < cols
    ensures var st := ApaUpdate(x, d, w, mu, delta, m, cols);
            st.y[p] + st.e[p] == d[p] && st.y[p] == Dot(Column(x, m, cols, p), w)
  {
  }

  /** With projection order 1 the update is the regularised normalised LMS
      step: `w + mu·e·x / (x·x + delta)`, unless `|x·x + delta|` is below the
      pivot tolerance. */
  lemma SingleProjectionIsNormalisedLms(x: Matrix, d: seq<real>, w: seq<real>, mu: real,
                                        delta: real, m: nat)
    requires IsMatrix(x, m, 1) && |d| == 1 && |w| == m
    ensures var st := ApaUpdate(x, d, w, mu, delta, m, 1);
            (st.wNew.None? <==> Abs(RegularisedPower(x, m, delta)) < PivotTolerance) &&
            (st.wNew.Some? ==>
               forall i :: 0 <= i < m ==>
                 st.wNew.value[i] == w[i] + mu * st.e[0] / RegularisedPower(x, m, delta) * x[i][0])
  {
    var power := RegularisedPower(x, m, delta);
    GramOfOneColumn(x, m, delta);
    OneByOne(power);
    var st := ApaUpdate(x, d, w, mu, delta, m, 1);
    if st.wNew.Some? {
      assert st.wNew.value == Advance(w, MatVec(x, MatVec([[1.0 / power]], st.e, 1), m), mu);
      forall i | 0 <= i < m
        ensures st.wNew.value[i] == w[i] + mu * st.e[0] / power * x[i][0]
      {
        SingleProjectionWeight(x, st.e, w, mu, power, m, i);
      }
    }
  }

  /** `x·x + delta` for the single column of `x`. */
  function RegularisedPower(x: Matrix, m: nat, delta: real): real
    requires IsMatrix(x, m, 1)
  {
    Dot(Column(x, m, 1, 0), Column(x, m, 1, 0)) + delta
  }

  lemma GramOfOneColumn(x: Matrix, m: nat, delta: real)
    requires IsMatrix(x, m, 1)
    ensures Gram(x, m, 1, delta) == [[RegularisedPower(x, m, delta)]]
  {
    var a := Gram(x, m, 1, delta);
    assert a[0] == [Dot(Column(x, m, 1, 0), Column(x, m, 1, 0)) + delta];
  }

  lemma SingleProjectionWeight(x: Matrix, e: seq<real>, w: seq<real>, mu: real, power: real,
                               m: nat, i: nat)
    requires IsMatrix(x, m, 1) && |e| == 1 && |w| == m && i < m && power != 0.0
    ensures Advance(w, MatVec(x, MatVec([[1.0 / power]], e, 1), m), mu)[i]
            == w[i] + mu * e[0] / power * x[i][0]
  {
    var t := MatVec([[1.0 / power]], e, 1);
    assert e == [e[0]];
    DotSingle(1.0 / power, e[0]);
    assert t[0] == Dot([1.0 / power], e) == 1.0 / power * e[0];
    var u := MatVec(x, t, m);
    assert x[i] == [x[i][0]];
    DotSingle(x[i][0], t[0]);
    assert u[i] == Dot(x[i], t) == x[i][0] * (1.0 / power * e[0]);
    assert mu * (x[i][0] * (1.0 / power * e[0])) == mu * e[0] / power * x[i][0];
  }

  /** A two-dimensional array holds exactly the matrix its rows spell. */
  lemma HoldsRows(a: array2<real>, m: Matrix)
    requires Holds(a, m)
    ensures Rows(a) == m
  {
    var r := Rows(a);
    forall i | 0 <= i < a.Length0
      ensures r[i] == m[i]
    {
    }
  }

  /** `Σᵢ X[i][p]·v[i]`, accumulated over `i` as the C loops do. */
  method ColumnDotVector(x: array2<real>, p: nat, v: array<real>) returns (sum: real)
    requires p < x.Length1 && v.Length == x.Length0
    ensures sum == Dot(Column(Rows(x), x.Length0, x.Length1, p), v[..])
  {
    ghost var c := Column(Rows(x), x.Length0, x.Length1, p);
    sum := 0.0;
    for i := 0 to x.Length0
      invariant sum == Dot(c[..i], v[..i])
    {
      DotStep(c, v[..], i);
      sum := sum + x[i, p] * v[i];
    }
    assert c[..x.Length0] == c && v[..x.Length0] == v[..];
  }

  /** `Σᵢ X[i][p]·X[i][q]`. */
  method ColumnDotColumn(x: array2<real>, p: nat, q: nat) returns (sum: real)
    requires p < x.Length1 && q < x.Length1
    ensures sum == Dot(Column(Rows(x), x.Length0, x.Length1, p), Column(Rows(x), x.Length0, x.Length1, q))
  {
    ghost var c := Column(Rows(x), x.Length0, x.Length1, p);
    ghost var c' := Column(Rows(x), x.Length0, x.Length1, q);
    sum := 0.0;
    for i := 0 to x.Length0
      invariant sum == Dot(c[..i], c'[..i])
    {
      DotStep(c, c', i);
      sum := sum + x[i, p] * x[i, q];
    }
    assert c[..x.Length0] == c && c'[..x.Length0] == c';
  }

  /** `Σⱼ A[r][j]·v[j]`. */
  method RowDotVector(a: array2<real>, r: nat, v: array<real>) returns (sum: real)
    requires r < a.Length0 && v.Length == a.Length1
    ensures sum == Dot(Rows(a)[r], v[..])
  {
    ghost var row := Rows(a)[r];
    sum := 0.0;
    for j := 0 to a.Length1
      invariant sum == Dot(row[..j], v[..j])
    {
      DotStep(row, v[..], j);
      sum := sum + a[r, j] * v[j];
    }
    assert row[..a.Length1] == row && v[..a.Length1] == v[..];
  }

  /** `A = XᵀX + delta·I` into a fresh `P × P` array. */
  method BuildGram(x: array2<real>, delta: real) returns (a: array2<real>)
    ensures fresh(a) && a.Length0 == a.Length1 == x.Length1
    ensures Holds(a, Gram(Rows(x), x.Length0, x.Length1, delta))
  {
    ghost var g := Gram(Rows(x), x.Length0, x.Length1, delta);
    a := new real[x.Length1, x.Length1];
    for p := 0 to x.Length1
      modifies a
      invariant forall r, c :: 0 <= r < p && 0 <= c < x.Length1 ==> a[r, c] == g[r][c]
    {
      FillGramRow(x, delta, a, p);
    }
  }

  /** Row `p` of `XᵀX + delta·I`; the other rows keep their entries. */
  method FillGramRow(x: array2<real>, delta: real, a: array2<real>, p: nat)
    requires a.Length0 == a.Length1 == x.Length1 && p < x.Length1 && a != x
    modifies a
    ensures forall c :: 0 <= c < a.Length1 ==> a[p, c] == Gram(Rows(x), x.Length0, x.Length1, delta)[p][c]
    ensures forall r, c :: 0 <= r < a.Length0 && r != p && 0 <= c < a.Length1 ==> a[r, c] == old(a[r, c])
  {
    ghost var g := Gram(Rows(x), x.Length0, x.Length1, delta);
    for q := 0 to x.Length1
      invariant forall c :: 0 <= c < q ==> a[p, c] == g[p][c]
      invariant forall r, c :: 0 <= r < a.Length0 && r != p && 0 <= c < a.Length1 ==> a[r, c] == old(a[r, c])
    {
      var sum := ColumnDotColumn(x, p, q);
      if p == q {
        a[p, q] := sum + delta;
      } else {
        a[p, q] := sum;
      }
    }
  }

  /** `y_vec = Xᵀ·w`. */
  method ComputeOutputs(x: array2<real>, w: array<real>, yVec: array<real>)
    requires w.Length == x.Length0 && yVec.Length == x.Length1 && yVec != w
    modifies yVec
    ensures yVec[..] == Outputs(Rows(x), w[..], x.Length0, x.Length1)
  {
    ghost var y := Outputs(Rows(x), w[..], x.Length0, x.Length1);
    for k := 0 to x.Length1
      invariant forall j :: 0 <= j < k ==> yVec[j] == y[j]
    {
      yVec[k] := ColumnDotVector(x, k, w);
    }
  }

  /** `e_vec = d_vec - y_vec`. */
  method ComputeErrors(dVec: array<real>, yVec: array<real>, eVec: array<real>)
    requires dVec.Length == yVec.Length == eVec.Length && eVec != dVec && eVec != yVec
    modifies eVec
    ensures eVec[..] == Errors(dVec[..], yVec[..])
  {
    for k := 0 to eVec.Length
      invariant forall j :: 0 <= j < k ==> eVec[j] == dVec[j] - yVec[j]
    {
      eVec[k] := dVec[k] - yVec[k];
    }
  }

  /** `r = A·v` into a fresh array, one row sum at a time. */
  method MatVecInto(a: array2<real>, v: array<real>) returns (r: array<real>)
    requires v.Length == a.Length1
    ensures fresh(r) && r[..] == MatVec(Rows(a), v[..], a.Length0)
  {
    ghost var want := MatVec(Rows(a), v[..], a.Length0);
    r := new real[a.Length0];
    for k := 0 to a.Length0
      invariant forall j :: 0 <= j < k ==> r[j] == want[j]
    {
      var sum := RowDotVector(a, k, v);
      r[k] := sum;
    }
  }

  /** `temp = A_inv·e_vec`, `u = X·temp`, `w_new = w + mu·u`. */
  method MoveWeights(x: array2<real>, aInv: array2<real>, eVec: array<real>, w: array<real>, mu: real,
                     wNew: array<real>)
    requires aInv.Length0 == aInv.Length1 == x.Length1 == eVec.Length
    requires w.Length == wNew.Length == x.Length0 && wNew != w && wNew != eVec
    modifies wNew
    ensures wNew[..] == Advance(w[..], MatVec(Rows(x), MatVec(Rows(aInv), eVec[..], x.Length1), x.Length0), mu)
  {
    ghost var ws := w[..];
    var temp := MatVecInto(aInv, eVec);
    var u := MatVecInto(x, temp);
    ghost var moved := Advance(ws, u[..], mu);
    assert moved == Advance(w[..], MatVec(Rows(x), MatVec(Rows(aInv), eVec[..], x.Length1), x.Length0), mu);
    for i := 0 to x.Length0
      modifies wNew
      invariant forall j :: 0 <= j < i ==> wNew[j] == moved[j]
    {
      wNew[i] := Shifted(w[i], mu, u[i]);
    }
    assert wNew[..] == moved;
  }

  /** `apply_vss_apa_filter(X, d_vec, w, mu, delta, M, P, w_new, y_vec, e_vec)`:
      writes the outputs and errors of the block, and the moved weights
      unless the inversion fails, in which case `w_new` keeps what it held. */
  method ApplyVssApaFilter(x: array2<real>, dVec: array<real>, w: array<real>, mu: real, delta: real,
                           m: nat, p: nat, wNew: array<real>, yVec: array<real>, eVec: array<real>)
    requires x.Length0 == m && x.Length1 == p && dVec.Length == p && w.Length == m
    requires wNew.Length == m && yVec.Length == p && eVec.Length == p
    requires wNew != w && yVec != eVec && yVec != dVec && eVec != dVec
    requires yVec != w && eVec != w && wNew != yVec && wNew != eVec && wNew != dVec
    modifies wNew, yVec, eVec
    ensures var st := ApaUpdate(Rows(x), old(dVec[..]), old(w[..]), mu, delta, m, p);
            yVec[..] == st.y && eVec[..] == st.e &&
            wNew[..] == if st.wNew.Some? then st.wNew.value else old(wNew[..])
  {
    ghost var xs := Rows(x);
    ComputeOutputs(x, w, yVec);
    ComputeErrors(dVec, yVec, eVec);
    ghost var e := eVec[..];
    var a := BuildGram(x, delta);
    ghost var g := Gram(xs, m, p, delta);
    HoldsRows(a, g);
    var aInv := new real[p, p];
    var status := InvertMatrix(a, aInv, p);
    if status == 0 {
      return;
    }
    HoldsRows(aInv, Invert(g, p).value);
    MoveWeights(x, aInv, eVec, w, mu, wNew);
  }

  /** The tuning of `vss_apa_filter_full`: filter order `m`, projection
      order `p`, regularisation, step-size bounds and adaptation rates, the
      prediction horizon, and the `sqrt` the C library supplies. */
  datatype Settings = Settings(m: nat, p: nat, delta: real, muMin: real, muMax: real, rho: real,
                               eta: real, alpha: real, beta: real, horizon: nat,
                               sqrt: real -> real)

  /** What the C code needs of its settings: a projection order of at least
      one (it reads `y_vec[0]`) and a `sqrt` that is non-negative on
      non-negative arguments. */
  ghost predicate Usable(s: Settings) {
    s.p >= 1 && forall r :: r >= 0.0 ==> s.sqrt(r) >= 0.0
  }

  /** `start_index = M + P - 1`: the first block index. */
  function Start(s: Settings): nat
    requires s.p >= 1
  {
    s.m + s.p - 1
  }

  /** `num_iterations = N - (start_index + prediction_horizon)`, or no
      iterations when that is not positive. */
  function Iterations(n: int, s: Settings): (count: nat)
    requires s.p >= 1
    ensures count > 0 ==> Start(s) + count - 1 + s.horizon < n
  {
    if n - (Start(s) + s.horizon) > 0 then n - (Start(s) + s.horizon) else 0
  }

  /** The `M × P` input matrix of block `k`: column `q` holds the `M` samples
      ending at `k - q`. */
  function BlockInput(xs: seq<real>, s: Settings, k: nat): (x: Matrix)
    requires s.p >= 1 && Start(s) <= k < |xs|
    ensures IsMatrix(x, s.m, s.p)
  {
    seq(s.m, i requires 0 <= i < s.m =>
      seq(s.p, q requires 0 <= q < s.p => xs[k - q - s.m + 1 + i]))
  }

  /** `d_vec[q] = d[k + prediction_horizon - q]`. */
  function BlockTargets(ds: seq<real>, s: Settings, k: nat): (d: seq<real>)
    requires s.p >= 1 && Start(s) <= k && k + s.horizon < |ds|
    ensures |d| == s.p
  {
    seq(s.p, q requires 0 <= q < s.p => ds[k + s.horizon - q])
  }

  /** The error energy `Σ e[p]²`. */
  function Energy(e: seq<real>): (r: real)
    ensures r >= 0.0
  {
    DotSelfNonNegative(e);
    Dot(e, e)
  }

  /** The two `if`s that follow the momentum update: first up to `lo`, then
      down to `hi`. */
  function Clamp(v: real, lo: real, hi: real): (r: real)
    ensures lo <= hi ==> lo <= r <= hi
    ensures lo > hi ==> r == hi
    ensures lo <= v <= hi ==> r == v
  {
    var raised := if v < lo then lo else v;
    if raised > hi then hi else raised
  }

  /** `alpha·error_energy_prev + (1 - alpha)·error_energy`. */
  function Smoothed(energyPrev: real, energy: real, alpha: real): real {
    alpha * energyPrev + (1.0 - alpha) * energy
  }

  /** The momentum blend of the old step and
      `rho·(smoothed - eta) / (rms + 1e-6)`, with
      `rms = sqrt(error_energy / P + 1e-6)`. */
  function Blend(mu: real, energy: real, smoothed: real, s: Settings): real
    requires Usable(s) && energy >= 0.0
  {
    var rms := s.sqrt(energy / (s.p as real) + 0.000001);
    var muUpdate := s.rho * (smoothed - s.eta) / (rms + 0.000001);
    s.beta * mu + (1.0 - s.beta) * muUpdate
  }

  /** The step size after one block: the blend clamped to `[mu_min, mu_max]`. */
  function AdaptedMu(mu: real, energy: real, smoothed: real, s: Settings): real
    requires Usable(s) && energy >= 0.0
  {
    Clamp(Blend(mu, energy, smoothed, s), s.muMin, s.muMax)
  }

  /** What the loop carries from block to block: `w`, the `w_new` buffer,
      `mu` and `error_energy_prev`. */
  datatype Carry = Carry(w: seq<real>, wNew: seq<real>, mu: real, energyPrev: real)

  /** What one block writes: `predictions[j]`, row `j` of `w_hist` and of
      `error_hist`, and `mu_history[j]`. */
  datatype Record = Record(prediction: real, weights: seq<real>, errors: seq<real>, mu: real)

  datatype Outcome = Outcome(carry: Carry, record: Record)

  /** One pass of the block loop. When the inversion fails, `w_new` keeps its
      contents and is still copied into `w`. */
  function Iteration(c: Carry, x: Matrix, d: seq<real>, s: Settings): (o: Outcome)
    requires Usable(s) && IsMatrix(x, s.m, s.p) && |d| == s.p && |c.w| == s.m && |c.wNew| == s.m
    ensures |o.carry.w| == s.m && o.carry.wNew == o.carry.w
    ensures o.record.weights == o.carry.w && o.record.mu == o.carry.mu && |o.record.errors| == s.p
    ensures s.muMin <= s.muMax ==> s.muMin <= o.carry.mu <= s.muMax
  {
    var st := ApaUpdate(x, d, c.w, c.mu, s.delta, s.m, s.p);
    var wNew := if st.wNew.Some? then st.wNew.value else c.wNew;
    var energy := Energy(st.e);
    var smoothed := Smoothed(c.energyPrev, energy, s.alpha);
    var mu := AdaptedMu(c.mu, energy, smoothed, s);
    Outcome(Carry(wNew, wNew, mu, smoothed), Record(st.y[0], wNew, st.e, mu))
  }

  datatype Progress = Progress(carry: Carry, records: seq<Record>)

  /** The state after the first `j` blocks of `vss_apa_filter_full` and what
      those blocks wrote. `w` starts at zero (`calloc`), `w_new` at whatever
      `malloc` returned (`wNewInit`), `mu` at `mu0` and the previous energy at
      `eta`. */
  function Trace(xs: seq<real>, ds: seq<real>, s: Settings, mu0: real, wNewInit: seq<real>, j: nat)
    : (pr: Progress)
    requires Usable(s) && |xs| == |ds| && |wNewInit| == s.m && j <= Iterations(|xs|, s)
    ensures |pr.records| == j && |pr.carry.w| == s.m && |pr.carry.wNew| == s.m
    ensures s.muMin <= s.muMax ==> forall t :: 0 <= t < j ==> s.muMin <= pr.records[t].mu <= s.muMax
  {
    if j == 0 then Progress(Carry(seq(s.m, _ => 0.0), wNewInit, mu0, s.eta), [])
    else
      var prev := Trace(xs, ds, s, mu0, wNewInit, j - 1);
      var k := Start(s) + j - 1;
      var o := Iteration(prev.carry, BlockInput(xs, s, k), BlockTargets(ds, s, k), s);
      Progress(o.carry, prev.records + [o.record])
  }

  /** Column `q` of block `k` is the window of `M` samples that ends at
      sample `k - q`: the columns are the current window and the `P - 1`
      windows before it. */
  lemma BlockColumnsAreWindows(xs: seq<real>, s: Settings, k: nat, q: nat)
    requires s.p >= 1 && Start(s) <= k < |xs| && q < s.p
    ensures 0 <= k - q - s.m + 1 && k - q + 1 <= |xs|
    ensures Column(BlockInput(xs, s, k), s.m, s.p, q) == xs[k - q - s.m + 1 .. k - q + 1]
  {
  }

  /** Trace `j + 1` is trace `j` followed by block `Start + j`. */
  lemma TraceStep(xs: seq<real>, ds: seq<real>, s: Settings, mu0: real, wNewInit: seq<real>, j: nat)
    requires Usable(s) && |xs| == |ds| && |wNewInit| == s.m && j < Iterations(|xs|, s)
    ensures var prev := Trace(xs, ds, s, mu0, wNewInit, j);
            var k := Start(s) + j;
            var o := Iteration(prev.carry, BlockInput(xs, s, k), BlockTargets(ds, s, k), s);
            Trace(xs, ds, s, mu0, wNewInit, j + 1) == Progress(o.carry, prev.records + [o.record])
  {
  }

  /** A block's prediction is the window ending at its index against the
      carried weights, and its first error the first target minus that. */
  lemma IterationPredicts(c: Carry, xs: seq<real>, ds: seq<real>, s: Settings, k: nat)
    requires Usable(s) && Start(s) <= k && k + s.horizon < |ds| && k < |xs|
    requires |c.w| == s.m && |c.wNew| == s.m
    ensures var r := Iteration(c, BlockInput(xs, s, k), BlockTargets(ds, s, k), s).record;
            r.prediction == Dot(xs[k - s.m + 1 .. k + 1], c.w) && r.errors[0] == ds[k + s.horizon] - r.prediction
  {
    var x, d := BlockInput(xs, s, k), BlockTargets(ds, s, k);
    var y := Outputs(x, c.w, s.m, s.p);
    var st := ApaUpdate(x, d, c.w, c.mu, s.delta, s.m, s.p);
    assert st.y == y && st.e == Errors(d, y);
    var r := Iteration(c, x, d, s).record;
    assert r.prediction == y[0] && r.errors == st.e;
    BlockColumnsAreWindows(xs, s, k, 0);
    assert y[0] == Dot(xs[k - s.m + 1 .. k + 1], c.w);
    assert d[0] == ds[k + s.horizon];
  }

  /** The record of block `j` is the one `Iteration` produces from trace `j`. */
  lemma TraceRecord(xs: seq<real>, ds: seq<real>, s: Settings, mu0: real, wNewInit: seq<real>, j: nat)
    requires Usable(s) && |xs| == |ds| && |wNewInit| == s.m && j < Iterations(|xs|, s)
    ensures var prev := Trace(xs, ds, s, mu0, wNewInit, j);
            var k := Start(s) + j;
            Trace(xs, ds, s, mu0, wNewInit, j + 1).records[j]
            == Iteration(prev.carry, BlockInput(xs, s, k), BlockTargets(ds, s, k), s).record
  {
    TraceStep(xs, ds, s, mu0, wNewInit, j);
  }

  /** If the very first block's inversion fails, the weights carried on are
      the never-initialised contents of `w_new`. */
  lemma FirstFailureAdoptsUninitialised(xs: seq<real>, ds: seq<real>, s: Settings, mu0: real,
                                        wNewInit: seq<real>)
    requires Usable(s) && |xs| == |ds| && |wNewInit| == s.m && 1 <= Iterations(|xs|, s)
    requires Invert(Gram(BlockInput(xs, s, Start(s)), s.m, s.p, s.delta), s.p).None?
    ensures Trace(xs, ds, s, mu0, wNewInit, 1).carry.w == wNewInit
  {
  }

  /** From the second block on, a failed inversion leaves the weights as
      they were. */
  lemma LaterFailureKeepsWeights(xs: seq<real>, ds: seq<real>, s: Settings, mu0: real,
                                 wNewInit: seq<real>, j: nat)
    requires Usable(s) && |xs| == |ds| && |wNewInit| == s.m && 1 <= j < Iterations(|xs|, s)
    requires Invert(Gram(BlockInput(xs, s, Start(s) + j), s.m, s.p, s.delta), s.p).None?
    ensures Trace(xs, ds, s, mu0, wNewInit, j + 1).carry.w == Trace(xs, ds, s, mu0, wNewInit, j).carry.w
  {
    TraceStep(xs, ds, s, mu0, wNewInit, j);
    TraceStep(xs, ds, s, mu0, wNewInit, j - 1);
  }

  /** The input matrix `X` of block `k`, built column by column. */
  method BuildBlockInput(x: array<real>, s: Settings, k: nat) returns (xm: array2<real>)
    requires s.p >= 1 && Start(s) <= k < x.Length
    ensures fresh(xm) && xm.Length0 == s.m && xm.Length1 == s.p
    ensures Rows(xm) == BlockInput(x[..], s, k)
  {
    ghost var want := BlockInput(x[..], s, k);
    xm := new real[s.m, s.p];
    for q := 0 to s.p
      modifies xm
      invariant forall i, c :: 0 <= i < s.m && 0 <= c < q ==> xm[i, c] == want[i][c]
    {
      var idxEnd := k - q;
      var idxStart := idxEnd - s.m + 1;
      for i := 0 to s.m
        modifies xm
        invariant forall i', c :: 0 <= i' < s.m && 0 <= c < q ==> xm[i', c] == want[i'][c]
        invariant forall i' :: 0 <= i' < i ==> xm[i', q] == want[i'][q]
      {
        xm[i, q] := x[idxStart + i];
      }
    }
    HoldsRows(xm, want);
  }

  /** `d_vec` of block `k`. */
  method BuildTargets(d: array<real>, s: Settings, k: nat) returns (dVec: array<real>)
    requires s.p >= 1 && Start(s) <= k && k + s.horizon < d.Length
    ensures fresh(dVec) && dVec[..] == BlockTargets(d[..], s, k)
  {
    dVec := new real[s.p];
    for q := 0 to s.p
      modifies dVec
      invariant forall c :: 0 <= c < q ==> dVec[c] == d[k + s.horizon - c]
    {
      dVec[q] := d[k + s.horizon - q];
    }
  }

  /** `error_energy`, accumulated over the error vector. */
  method EnergyOf(eVec: array<real>) returns (energy: real)
    ensures energy == Energy(eVec[..])
  {
    ghost var e := eVec[..];
    energy := 0.0;
    for q := 0 to eVec.Length
      invariant energy == Dot(e[..q], e[..q])
    {
      DotStep(e, e, q);
      energy := energy + eVec[q] * eVec[q];
    }
    assert e[..eVec.Length] == e;
  }

  /** Row `j` of a history receives `v`; every other entry is kept. */
  method CopyRow(h: array2<real>, j: nat, v: array<real>)
    requires j < h.Length0 && v.Length == h.Length1
    modifies h
    ensures forall c :: 0 <= c < h.Length1 ==> h[j, c] == v[c]
    ensures forall t, c :: 0 <= t < h.Length0 && t != j && 0 <= c < h.Length1 ==> h[t, c] == old(h[t, c])
  {
    for c := 0 to h.Length1
      invariant forall c' :: 0 <= c' < c ==> h[j, c'] == v[c']
      invariant forall t, c' :: 0 <= t < h.Length0 && t != j && 0 <= c' < h.Length1 ==> h[t, c'] == old(h[t, c'])
    {
      h[j, c] := v[c];
    }
  }

  /** `w[i] = w_new[i]` for every weight. */
  method CopyWeights(w: array<real>, wNew: array<real>)
    requires w.Length == wNew.Length && w != wNew
    modifies w
    ensures w[..] == wNew[..]
  {
    for i := 0 to w.Length
      invariant forall i' :: 0 <= i' < i ==> w[i'] == wNew[i']
    {
      w[i] := wNew[i];
    }
  }

  /** The new step size and smoothed energy from the block's error energy. */
  method AdaptStep(mu: real, energy: real, energyPrev: real, s: Settings)
    returns (mu': real, smoothed: real)
    requires Usable(s) && energy >= 0.0
    ensures smoothed == Smoothed(energyPrev, energy, s.alpha)
    ensures mu' == AdaptedMu(mu, energy, smoothed, s)
  {
    smoothed := Smoothed(energyPrev, energy, s.alpha);
    mu' := Blend(mu, energy, smoothed, s);
    if mu' < s.muMin {
      mu' := s.muMin;
    }
    if mu' > s.muMax {
      mu' := s.muMax;
    }
  }

  /** The filtering half of a block: builds `X` and `d_vec` for block `k`
      and applies the filter; only `w_new` changes. */
  method ComputeBlock(x: array<real>, d: array<real>, s: Settings, k: nat, w: array<real>,
                      wNew: array<real>, mu: real)
    returns (yVec: array<real>, eVec: array<real>)
    requires s.p >= 1 && Start(s) <= k && k + s.horizon < d.Length && k < x.Length
    requires w.Length == s.m && wNew.Length == s.m && w != wNew && wNew != x && wNew != d
    modifies wNew
    ensures fresh(yVec) && fresh(eVec) && yVec != eVec
    ensures var st := ApaUpdate(BlockInput(x[..], s, k), BlockTargets(d[..], s, k), w[..], mu, s.delta, s.m, s.p);
            yVec[..] == st.y && eVec[..] == st.e &&
            wNew[..] == if st.wNew.Some? then st.wNew.value else old(wNew[..])
  {
    var xm := BuildBlockInput(x, s, k);
    var dVec := BuildTargets(d, s, k);
    yVec := new real[s.p];
    eVec := new real[s.p];
    ApplyVssApaFilter(xm, dVec, w, mu, s.delta, s.m, s.p, wNew, yVec, eVec);
  }

  /** The bookkeeping half of a block: `predictions[j]` and row `j` of the
      two histories; nothing else changes. */
  method RecordBlock(j: nat, yVec: array<real>, eVec: array<real>, wNew: array<real>,
                     predictions: array<real>, wHist: array2<real>, errorHist: array2<real>)
    requires yVec.Length >= 1 && j < predictions.Length
    requires j < wHist.Length0 && wHist.Length1 == wNew.Length
    requires j < errorHist.Length0 && errorHist.Length1 == eVec.Length
    requires wHist != errorHist && predictions != yVec && predictions != eVec && predictions != wNew
    modifies predictions, wHist, errorHist
    ensures predictions[..] == old(predictions[..])[j := yVec[0]]
    ensures forall i :: 0 <= i < wHist.Length1 ==> wHist[j, i] == wNew[i]
    ensures forall q :: 0 <= q < errorHist.Length1 ==> errorHist[j, q] == eVec[q]
    ensures forall t, i :: 0 <= t < wHist.Length0 && t != j && 0 <= i < wHist.Length1 ==>
              wHist[t, i] == old(wHist[t, i])
    ensures forall t, q :: 0 <= t < errorHist.Length0 && t != j && 0 <= q < errorHist.Length1 ==>
              errorHist[t, q] == old(errorHist[t, q])
  {
    predictions[j] := yVec[0];
    CopyRow(wHist, j, wNew);
    CopyRow(errorHist, j, eVec);
  }

  /** `Iteration` assembled from its parts. */
  lemma IterationOf(c: Carry, x: Matrix, d: seq<real>, s: Settings, st: ApaStep, wNew: seq<real>,
                    energy: real, smoothed: real, mu: real)
    requires Usable(s) && IsMatrix(x, s.m, s.p) && |d| == s.p && |c.w| == s.m && |c.wNew| == s.m
    requires st == ApaUpdate(x, d, c.w, c.mu, s.delta, s.m, s.p)
    requires wNew == if st.wNew.Some? then st.wNew.value else c.wNew
    requires energy == Energy(st.e) && smoothed == Smoothed(c.energyPrev, energy, s.alpha)
    requires mu == AdaptedMu(c.mu, energy, smoothed, s)
    ensures Iteration(c, x, d, s) == Outcome(Carry(wNew, wNew, mu, smoothed), Record(st.y[0], wNew, st.e, mu))
  {
  }

  /** The part of a block that computes: filter, error energy and step
      size, as `Iteration` says; only `w_new` changes. */
  method FilterAndAdapt(x: array<real>, d: array<real>, s: Settings, j: nat, w: array<real>,
                        wNew: array<real>, mu: real, energyPrev: real, ghost c: Carry,
                        ghost xm0: Matrix, ghost d0: seq<real>)
    returns (yVec: array<real>, eVec: array<real>, mu': real, energyPrev': real, ghost o: Outcome)
    requires Usable(s) && x.Length == d.Length && j < Iterations(x.Length, s)
    requires w.Length == s.m && wNew.Length == s.m && w != wNew && wNew != x && wNew != d
    requires c == Carry(w[..], wNew[..], mu, energyPrev)
    requires xm0 == BlockInput(x[..], s, Start(s) + j) && d0 == BlockTargets(d[..], s, Start(s) + j)
    modifies wNew
    ensures fresh(yVec) && fresh(eVec) && yVec.Length == eVec.Length == s.p
    ensures o == Iteration(c, xm0, d0, s)
    ensures o.carry == Carry(wNew[..], wNew[..], mu', energyPrev')
    ensures o.record.prediction == yVec[0] && o.record.errors == eVec[..]
  {
    ghost var st := ApaUpdate(xm0, d0, c.w, c.mu, s.delta, s.m, s.p);
    yVec, eVec := ComputeBlock(x, d, s, Start(s) + j, w, wNew, mu);
    var energy := EnergyOf(eVec);
    mu', energyPrev' := AdaptStep(mu, energy, energyPrev, s);
    IterationOf(c, xm0, d0, s, st, wNew[..], energy, energyPrev', mu');
    o := Iteration(c, xm0, d0, s);
  }

  /** One pass of the block loop of `vss_apa_filter_full`, for block
      `k = start_index + j`: state and outputs move as `Iteration` says. */
  method FilterBlock(x: array<real>, d: array<real>, s: Settings, j: nat, w: array<real>, wNew: array<real>,
                     mu: real, energyPrev: real, predictions: array<real>, wHist: array2<real>,
                     muHistory: array<real>, errorHist: array2<real>, ghost c: Carry,
                     ghost xm0: Matrix, ghost d0: seq<real>)
    returns (mu': real, energyPrev': real, ghost o: Outcome)
    requires Usable(s) && x.Length == d.Length && j < Iterations(x.Length, s)
    requires j < predictions.Length && j < muHistory.Length && j < wHist.Length0 && j < errorHist.Length0
    requires wHist.Length1 == s.m && errorHist.Length1 == s.p
    requires w.Length == s.m && wNew.Length == s.m && w != wNew
    requires predictions != muHistory && wHist != errorHist
    requires w != x && w != d && wNew != x && wNew != d && w != predictions && w != muHistory
    requires wNew != predictions && wNew != muHistory
    requires c == Carry(w[..], wNew[..], mu, energyPrev)
    requires xm0 == BlockInput(x[..], s, Start(s) + j) && d0 == BlockTargets(d[..], s, Start(s) + j)
    modifies w, wNew, predictions, wHist, muHistory, errorHist
    ensures o == Iteration(c, xm0, d0, s)
    ensures o.carry == Carry(w[..], wNew[..], mu', energyPrev')
    ensures predictions[..] == old(predictions[..])[j := o.record.prediction]
    ensures muHistory[..] == old(muHistory[..])[j := o.record.mu]
    ensures forall i :: 0 <= i < s.m ==> wHist[j, i] == o.record.weights[i]
    ensures forall q :: 0 <= q < s.p ==> errorHist[j, q] == o.record.errors[q]
    ensures forall t, i :: 0 <= t < wHist.Length0 && t != j && 0 <= i < s.m ==> wHist[t, i] == old(wHist[t, i])
    ensures forall t, q :: 0 <= t < errorHist.Length0 && t != j && 0 <= q < s.p ==> errorHist[t, q] == old(errorHist[t, q])
  {
    var yVec, eVec;
    yVec, eVec, mu', energyPrev', o := FilterAndAdapt(x, d, s, j, w, wNew, mu, energyPrev, c, xm0, d0);
    RecordBlock(j, yVec, eVec, wNew, predictions, wHist, errorHist);
    muHistory[j] := mu';
    CopyWeights(w, wNew);
  }

  /** The first `count` records are in the output buffers: entry `t` of
      `predictions` and `mu_history`, and row `t` of `w_hist` and `error_hist`. */
  ghost predicate Stored(rs: seq<Record>, count: nat, s: Settings, predictions: array<real>, wHist: array2<real>,
                         muHistory: array<real>, errorHist: array2<real>)
    reads predictions, wHist, muHistory, errorHist
  {
    && count <= |rs| && count <= predictions.Length && count <= muHistory.Length
    && count <= wHist.Length0 && count <= errorHist.Length0 && wHist.Length1 == s.m && errorHist.Length1 == s.p
    && (forall t :: 0 <= t < count ==> |rs[t].weights| == s.m && |rs[t].errors| == s.p)
    && (forall t :: 0 <= t < count ==> predictions[t] == rs[t].prediction && muHistory[t] == rs[t].mu)
    && (forall t, i :: 0 <= t < count && 0 <= i < s.m ==> wHist[t, i] == rs[t].weights[i])
    && (forall t, q :: 0 <= t < count && 0 <= q < s.p ==> errorHist[t, q] == rs[t].errors[q])
  }

  /** One block of the loop with its record appended to the ones stored so far. */
  method StoreBlock(x: array<real>, d: array<real>, s: Settings, j: nat, w: array<real>, wNew: array<real>,
                    mu: real, energyPrev: real, predictions: array<real>, wHist: array2<real>,
                    muHistory: array<real>, errorHist: array2<real>, ghost c: Carry,
                    ghost xm0: Matrix, ghost d0: seq<real>, ghost rs: seq<Record>)
    returns (mu': real, energyPrev': real, ghost o: Outcome)
    requires Usable(s) && x.Length == d.Length && j < Iterations(x.Length, s)
    requires j < predictions.Length && j < muHistory.Length && j < wHist.Length0 && j < errorHist.Length0
    requires Layout(s, x, d, w, wNew, predictions, wHist, muHistory, errorHist)
    requires c == Carry(w[..], wNew[..], mu, energyPrev)
    requires xm0 == BlockInput(x[..], s, Start(s) + j) && d0 == BlockTargets(d[..], s, Start(s) + j)
    requires |rs| == j && Stored(rs, j, s, predictions, wHist, muHistory, errorHist)
    modifies w, wNew, predictions, wHist, muHistory, errorHist
    ensures o == Iteration(c, xm0, d0, s)
    ensures o.carry == Carry(w[..], wNew[..], mu', energyPrev')
    ensures Stored(rs + [o.record], j + 1, s, predictions, wHist, muHistory, errorHist)
  {
    mu', energyPrev', o := FilterBlock(x, d, s, j, w, wNew, mu, energyPrev, predictions, wHist, muHistory,
                                       errorHist, c, xm0, d0);
    ghost var rs' := rs + [o.record];
    assert forall t :: 0 <= t < j ==> rs'[t] == rs[t];
  }

  /** The arrays of `vss_apa_filter_full`: `w` and `w_new` hold `M`
      weights, and no two of the arrays it writes or reads share storage. */
  predicate Layout(s: Settings, x: array<real>, d: array<real>, w: array<real>, wNew: array<real>,
                   predictions: array<real>, wHist: array2<real>, muHistory: array<real>, errorHist: array2<real>)
  {
    && w.Length == s.m && wNew.Length == s.m && w != wNew && predictions != muHistory && wHist != errorHist
    && w != x && w != d && wNew != x && wNew != d && w != predictions && w != muHistory
    && wNew != predictions && wNew != muHistory
    && predictions != x && predictions != d && muHistory != x && muHistory != d
  }

  /** Block `Start + j` of the loop: trace `j`, carried in the arrays and
      stored in the outputs, becomes trace `j + 1`. */
  method AdvanceTrace(x: array<real>, d: array<real>, s: Settings, mu0: real, wNewInit: seq<real>, j: nat,
                      w: array<real>, wNew: array<real>, mu: real, energyPrev: real, predictions: array<real>,
                      wHist: array2<real>, muHistory: array<real>, errorHist: array2<real>, ghost xs: seq<real>,
                      ghost ds: seq<real>, ghost pr: Progress)
    returns (mu': real, energyPrev': real, ghost pr': Progress)
    requires Usable(s) && x.Length == d.Length && |wNewInit| == s.m && j < Iterations(x.Length, s)
    requires Layout(s, x, d, w, wNew, predictions, wHist, muHistory, errorHist)
    requires j < predictions.Length && j < muHistory.Length && j < wHist.Length0 && j < errorHist.Length0
    requires xs == x[..] && ds == d[..] && pr == Trace(xs, ds, s, mu0, wNewInit, j)
    requires pr.carry == Carry(w[..], wNew[..], mu, energyPrev)
    requires Stored(pr.records, j, s, predictions, wHist, muHistory, errorHist)
    modifies w, wNew, predictions, wHist, muHistory, errorHist
    ensures x[..] == xs && d[..] == ds && pr' == Trace(xs, ds, s, mu0, wNewInit, j + 1)
    ensures pr'.carry == Carry(w[..], wNew[..], mu', energyPrev')
    ensures Stored(pr'.records, j + 1, s, predictions, wHist, muHistory, errorHist)
  {
    var k := Start(s) + j;
    ghost var o;
    mu', energyPrev', o := StoreBlock(x, d, s, j, w, wNew, mu, energyPrev, predictions, wHist, muHistory,
                                      errorHist, pr.carry, BlockInput(xs, s, k), BlockTargets(ds, s, k), pr.records);
    TraceStep(xs, ds, s, mu0, wNewInit, j);
    pr' := Progress(o.carry, pr.records + [o.record]);
    assert x[..] == xs && d[..] == ds;
  }

  /** The block loop of `vss_apa_filter_full`, from the state before the
      first block to the state after the last. */
  method RunBlocks(x: array<real>, d: array<real>, n: nat, s: Settings, mu0: real, wNewInit: seq<real>,
                   w: array<real>, wNew: array<real>, muStart: real, energyStart: real, predictions: array<real>,
                   wHist: array2<real>, muHistory: array<real>, errorHist: array2<real>)
    requires Usable(s) && x.Length == n && d.Length == n && |wNewInit| == s.m
    requires Layout(s, x, d, w, wNew, predictions, wHist, muHistory, errorHist)
    requires predictions.Length == Iterations(n, s) && muHistory.Length == Iterations(n, s)
    requires wHist.Length0 == Iterations(n, s) && errorHist.Length0 == Iterations(n, s)
    requires wHist.Length1 == s.m && errorHist.Length1 == s.p
    requires Trace(x[..], d[..], s, mu0, wNewInit, 0).carry == Carry(w[..], wNew[..], muStart, energyStart)
    modifies w, wNew, predictions, wHist, muHistory, errorHist
    ensures Stored(Trace(x[..], d[..], s, mu0, wNewInit, Iterations(n, s)).records, Iterations(n, s), s,
                   predictions, wHist, muHistory, errorHist)
  {
    var mu, energyPrev := muStart, energyStart;
    var startIndex := s.m + s.p - 1;
    var numIterations := n - (startIndex + s.horizon);
    ghost var xs, ds := x[..], d[..];
    ghost var pr := Trace(xs, ds, s, mu0, wNewInit, 0);
    var k := startIndex;
    while k < startIndex + numIterations
      invariant startIndex <= k && k - startIndex <= Iterations(n, s)
      invariant x[..] == xs && d[..] == ds && pr == Trace(xs, ds, s, mu0, wNewInit, k - startIndex)
      invariant pr.carry == Carry(w[..], wNew[..], mu, energyPrev)
      invariant Stored(pr.records, k - startIndex, s, predictions, wHist, muHistory, errorHist)
    {
      mu, energyPrev, pr := AdvanceTrace(x, d, s, mu0, wNewInit, k - startIndex, w, wNew, mu, energyPrev,
                                         predictions, wHist, muHistory, errorHist, xs, ds, pr);
      k := k + 1;
    }
    assert k - startIndex == Iterations(n, s);
  }

  /** `vss_apa_filter_full(x, d, N, M, P, mu0, delta, mu_min, mu_max, rho,
      eta, alpha, beta, prediction_horizon, predictions, w_hist, mu_history,
      error_hist)`, with the tuning bundled in `s` and the contents `malloc`
      gives `w_new` passed as `wNewInit`: every output row is what `Trace`
      records for its block. */
  method VssApaFilterFull(x: array<real>, d: array<real>, n: nat, s: Settings, mu0: real,
                          wNewInit: seq<real>, predictions: array<real>, wHist: array2<real>,
                          muHistory: array<real>, errorHist: array2<real>)
    requires Usable(s) && x.Length == n && d.Length == n && |wNewInit| == s.m
    requires predictions.Length == Iterations(n, s) && muHistory.Length == Iterations(n, s)
    requires wHist.Length0 == Iterations(n, s) && errorHist.Length0 == Iterations(n, s)
    requires wHist.Length1 == s.m && errorHist.Length1 == s.p
    requires predictions != muHistory && wHist != errorHist
    requires predictions != x && predictions != d && muHistory != x && muHistory != d
    modifies predictions, wHist, muHistory, errorHist
    ensures Stored(Trace(x[..], d[..], s, mu0, wNewInit, Iterations(n, s)).records, Iterations(n, s), s,
                   predictions, wHist, muHistory, errorHist)
  {
    var w := new real[s.m](_ => 0.0);
    var wNew := new real[s.m](i requires 0 <= i < s.m => wNewInit[i]);
    assert w[..] == seq(s.m, _ => 0.0) && wNew[..] == wNewInit;
    RunBlocks(x, d, n, s, mu0, wNewInit, w, wNew, mu0, s.eta, predictions, wHist, muHistory, errorHist);
  }
}
