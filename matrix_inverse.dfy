/** `invert_matrix` of `ml-model/VSSAPA.C`: Gauss-Jordan elimination on the
    augmented matrix `[A | I]`, pivoting on the diagonal only, with no row
    exchange. Matrices are square `array2`s in the methods and sequences of
    rows in the specification; doubles are modelled as reals. */
module MatrixInverse {
  import opened CMath
  import opened Wrappers

  type Matrix = seq<seq<real>>

  predicate IsMatrix(a: Matrix, rows: nat, cols: nat) {
    |a| == rows && forall i :: 0 <= i < rows ==> |a[i]| == cols
  }

  /** The array holds the matrix, entry by entry. */
  ghost predicate Holds(a: array2<real>, m: Matrix)
    reads a
  {
    IsMatrix(m, a.Length0, a.Length1) &&
    forall i, j :: 0 <= i < a.Length0 && 0 <= j < a.Length1 ==> a[i, j] == m[i][j]
  }

  /** The contents of an array as a matrix. */
  function Rows(a: array2<real>): (m: Matrix)
    reads a
    ensures IsMatrix(m, a.Length0, a.Length1)
    ensures forall i, j :: 0 <= i < a.Length0 && 0 <= j < a.Length1 ==> m[i][j] == a[i, j]
  {
    seq(a.Length0, i reads a requires 0 <= i < a.Length0 =>
      seq(a.Length1, j reads a requires 0 <= j < a.Length1 => a[i, j]))
  }

  /** A pivot whose magnitude is below this is taken to mean the matrix is
      singular. */
  const PivotTolerance: real := 0.000000000001

  function IdentityRow(n: nat, i: nat): (r: seq<real>)
    ensures |r| == n
  {
    seq(n, j => if i == j then 1.0 else 0.0)
  }

  function Identity(n: nat): (m: Matrix)
    ensures IsMatrix(m, n, n)
  {
    seq(n, i requires 0 <= i < n => IdentityRow(n, i))
  }

  /** `[A | I]`. */
  function Augment(a: Matrix, n: nat): (aug: Matrix)
    requires IsMatrix(a, n, n)
    ensures IsMatrix(aug, n, 2 * n)
  {
    seq(n, i requires 0 <= i < n => a[i] + IdentityRow(n, i))
  }

  /** Row `i` divided by its pivot. */
  function ScaleRow(row: seq<real>, pivot: real): (r: seq<real>)
    requires pivot != 0.0
    ensures |r| == |row|
  {
    seq(|row|, j requires 0 <= j < |row| => Quotient(row[j], pivot))
  }

  function Quotient(x: real, pivot: real): real
    requires pivot != 0.0
  {
    x / pivot
  }

  /** `row - factor·pivotRow`. */
  function EliminateRow(row: seq<real>, pivotRow: seq<real>, factor: real): (r: seq<real>)
    requires |row| == |pivotRow|
    ensures |r| == |row|
  {
    seq(|row|, j requires 0 <= j < |row| => Reduced(row[j], factor, pivotRow[j]))
  }

  function Reduced(x: real, factor: real, p: real): real {
    x - factor * p
  }

  /** The rows after the scaled pivot row `scaled` (row `i`) has been
      subtracted from rows `0 .. k-1` other than `i`, each with the factor it
      had in column `i` beforehand. */
  function EliminateUpTo(aug: Matrix, n: nat, i: nat, scaled: seq<real>, k: nat): (r: Matrix)
    requires IsMatrix(aug, n, 2 * n) && i < n && |scaled| == 2 * n && k <= n
    ensures IsMatrix(r, n, 2 * n)
  {
    seq(n, r requires 0 <= r < n =>
      if r == i then scaled
      else if r < k then EliminateRow(aug[r], scaled, aug[r][i])
      else aug[r])
  }

  /** One pass of the elimination loop: row `i` is scaled so that its pivot
      becomes 1, and column `i` is cleared in every other row. */
  function PivotStep(aug: Matrix, n: nat, i: nat): (r: Matrix)
    requires IsMatrix(aug, n, 2 * n) && i < n && aug[i][i] != 0.0
    ensures IsMatrix(r, n, 2 * n)
  {
    EliminateUpTo(aug, n, i, ScaleRow(aug[i], aug[i][i]), n)
  }

  /** The elimination from pivot `i` on: `None` at the first pivot whose
      magnitude is below `PivotTolerance`. */
  function GaussJordan(aug: Matrix, n: nat, i: nat): (r: Option<Matrix>)
    requires IsMatrix(aug, n, 2 * n) && i <= n
    ensures r.Some? ==> IsMatrix(r.value, n, 2 * n)
    decreases n - i
  {
    if i == n then Some(aug)
    else if Abs(aug[i][i]) < PivotTolerance then None
    else GaussJordan(PivotStep(aug, n, i), n, i + 1)
  }

  /** The right half of an `n × 2n` matrix. */
  function RightHalf(aug: Matrix, n: nat): (r: Matrix)
    requires IsMatrix(aug, n, 2 * n)
    ensures IsMatrix(r, n, n)
  {
    seq(n, i requires 0 <= i < n => aug[i][n..])
  }

  /** What `invert_matrix` computes: the right half of the eliminated
      augmented matrix, or `None` where it returns 0. */
  function Invert(a: Matrix, n: nat): (r: Option<Matrix>)
    requires IsMatrix(a, n, n)
    ensures r.Some? ==> IsMatrix(r.value, n, n)
  {
    match GaussJordan(Augment(a, n), n, 0)
    case None => None
    case Some(aug) => Some(RightHalf(aug, n))
  }

  /** The identity is its own inverse: every pivot is 1 and every factor 0,
      so no pass changes `[I | I]`. */
  lemma IdentityInverts(n: nat)
    ensures Invert(Identity(n), n) == Some(Identity(n))
  {
    var aug := Augment(Identity(n), n);
    IdentityPassesUnchanged(n, 0);
    assert RightHalf(aug, n) == Identity(n) by {
      forall i | 0 <= i < n
        ensures RightHalf(aug, n)[i] == Identity(n)[i]
      {
        assert aug[i][n..] == IdentityRow(n, i);
      }
    }
  }

  lemma {:induction false} IdentityPassesUnchanged(n: nat, i: nat)
    requires i <= n
    ensures GaussJordan(Augment(Identity(n), n), n, i) == Some(Augment(Identity(n), n))
    decreases n - i
  {
    if i < n {
      var aug := Augment(Identity(n), n);
      assert aug[i][i] == 1.0;
      IdentityPivotStep(n, i);
      IdentityPassesUnchanged(n, i + 1);
    }
  }

  lemma IdentityPivotStep(n: nat, i: nat)
    requires i < n
    ensures var aug := Augment(Identity(n), n);
            aug[i][i] == 1.0 && PivotStep(aug, n, i) == aug
  {
    var aug := Augment(Identity(n), n);
    assert aug[i][i] == 1.0;
    var scaled := ScaleRow(aug[i], 1.0);
    assert scaled == aug[i];
    var r := PivotStep(aug, n, i);
    forall k | 0 <= k < n
      ensures r[k] == aug[k]
    {
      if k != i {
        assert aug[k][i] == 0.0;
        assert EliminateRow(aug[k], scaled, 0.0) == aug[k];
      }
    }
  }

  /** A 1×1 matrix `[a]` inverts to `[1/a]` unless `|a|` is below the
      tolerance. */
  lemma OneByOne(a: real)
    ensures Invert([[a]], 1) == if Abs(a) < PivotTolerance then None else Some([[1.0 / a]])
  {
    var aug := Augment([[a]], 1);
    assert IdentityRow(1, 0) == [1.0];
    assert aug[0] == [a, 1.0];
    if Abs(a) >= PivotTolerance {
      var r := PivotStep(aug, 1, 0);
      assert r[0] == ScaleRow([a, 1.0], a);
      assert r[0][1] == 1.0 / a;
      assert GaussJordan(r, 1, 1) == Some(r);
      assert GaussJordan(aug, 1, 0) == Some(r);
      assert RightHalf(r, 1)[0] == [1.0 / a];
      assert RightHalf(r, 1) == [[1.0 / a]];
    } else {
      assert GaussJordan(aug, 1, 0) == None;
    }
  }

  /** A first pivot below the tolerance fails the whole inversion. */
  lemma SmallFirstPivotFails(a: Matrix, n: nat)
    requires IsMatrix(a, n, n) && n >= 1 && Abs(a[0][0]) < PivotTolerance
    ensures Invert(a, n) == None
  {
    assert Augment(a, n)[0][0] == a[0][0];
  }

  /** Without row exchange, the swap matrix `[[0, 1], [1, 0]]`, which is its
      own inverse, is reported singular. */
  lemma SwapReportedSingular()
    ensures Invert([[0.0, 1.0], [1.0, 0.0]], 2) == None
  {
    SmallFirstPivotFails([[0.0, 1.0], [1.0, 0.0]], 2);
  }

  /** Columns `0 .. k-1` of the left half are those of the identity. */
  predicate LeftReducedUpTo(aug: Matrix, n: nat, k: nat)
    requires IsMatrix(aug, n, 2 * n) && k <= n
  {
    forall r, c :: 0 <= r < n && 0 <= c < k ==> aug[r][c] == if r == c then 1.0 else 0.0
  }

  /** A pass on pivot `i` turns column `i` into a unit column and keeps the
      unit columns before it. */
  lemma PivotStepReduces(aug: Matrix, n: nat, i: nat)
    requires IsMatrix(aug, n, 2 * n) && i < n && aug[i][i] != 0.0
    requires LeftReducedUpTo(aug, n, i)
    ensures LeftReducedUpTo(PivotStep(aug, n, i), n, i + 1)
  {
    var pivot := aug[i][i];
    var scaled := ScaleRow(aug[i], pivot);
    var r := PivotStep(aug, n, i);
    forall row, c | 0 <= row < n && 0 <= c < i + 1
      ensures r[row][c] == if row == c then 1.0 else 0.0
    {
      if c < i {
        assert aug[i][c] == 0.0;
        assert scaled[c] == 0.0;
      } else {
        assert scaled[c] == pivot / pivot == 1.0;
      }
      if row != i {
        assert r[row] == EliminateRow(aug[row], scaled, aug[row][i]);
      }
    }
  }

  /** A successful elimination reduces the left half to the identity. */
  lemma {:induction false} GaussJordanReduces(aug: Matrix, n: nat, i: nat)
    requires IsMatrix(aug, n, 2 * n) && i <= n && LeftReducedUpTo(aug, n, i)
    requires GaussJordan(aug, n, i).Some?
    ensures LeftReducedUpTo(GaussJordan(aug, n, i).value, n, n)
    decreases n - i
  {
    if i < n {
      PivotStepReduces(aug, n, i);
      GaussJordanReduces(PivotStep(aug, n, i), n, i + 1);
    }
  }

  /** When `Invert` succeeds, the row operations it applied to `[A | I]`
      turned `A` into the identity, so the right half they produced from `I`
      is the inverse of `A`. */
  lemma InvertReducesLeftHalf(a: Matrix, n: nat)
    requires IsMatrix(a, n, n) && Invert(a, n).Some?
    ensures GaussJordan(Augment(a, n), n, 0).Some?
    ensures LeftReducedUpTo(GaussJordan(Augment(a, n), n, 0).value, n, n)
    ensures Invert(a, n).value == RightHalf(GaussJordan(Augment(a, n), n, 0).value, n)
  {
    GaussJordanReduces(Augment(a, n), n, 0);
  }

  /** `invert_matrix(A, A_inv, n)`: returns 1 and leaves the inverse in
      `aInv` when no pivot falls below the tolerance, and returns 0 with
      `aInv` untouched otherwise. */
  method InvertMatrix(a: array2<real>, aInv: array2<real>, n: nat) returns (status: int)
    requires a.Length0 == n && a.Length1 == n && aInv.Length0 == n && aInv.Length1 == n
    modifies aInv
    ensures status == 1 || status == 0
    ensures status == 1 <==> Invert(old(Rows(a)), n).Some?
    ensures status == 1 ==> Holds(aInv, Invert(old(Rows(a)), n).value)
    ensures status == 0 ==> unchanged(aInv)
  {
    ghost var source := Rows(a);
    var aug := new real[n, 2 * n];
    BuildAugmented(a, aug, n);
    ghost var start := Augment(source, n);
    ghost var cur := start;
    var i := 0;
    while i < n
      invariant 0 <= i <= n
      invariant IsMatrix(cur, n, 2 * n) && Holds(aug, cur)
      invariant GaussJordan(cur, n, i) == GaussJordan(start, n, 0)
      invariant unchanged(aInv)
    {
      var pivot := aug[i, i];
      if Abs(pivot) < PivotTolerance {
        return 0;
      }
      ghost var scaled := ScaleRow(cur[i], pivot);
      ScaleRowInPlace(aug, n, i, pivot, cur);
      EliminateOthers(aug, n, i, cur, scaled);
      cur := PivotStep(cur, n, i);
      i := i + 1;
    }
    Extract(aug, aInv, n, cur);
    return 1;
  }

  /** Fills `aug` with `[A | I]`. */
  method BuildAugmented(a: array2<real>, aug: array2<real>, n: nat)
    requires a.Length0 == n && a.Length1 == n && aug.Length0 == n && aug.Length1 == 2 * n
    requires a != aug
    modifies aug
    ensures Holds(aug, Augment(Rows(a), n))
  {
    ghost var want := Augment(Rows(a), n);
    for i := 0 to n
      invariant forall r, c :: 0 <= r < i && 0 <= c < 2 * n ==> aug[r, c] == want[r][c]
    {
      for j := 0 to n
        invariant forall r, c :: 0 <= r < i && 0 <= c < 2 * n ==> aug[r, c] == want[r][c]
        invariant forall c :: 0 <= c < j ==> aug[i, c] == want[i][c]
      {
        aug[i, j] := a[i, j];
      }
      for j := 0 to n
        invariant forall r, c :: 0 <= r < i && 0 <= c < 2 * n ==> aug[r, c] == want[r][c]
        invariant forall c :: 0 <= c < n + j ==> aug[i, c] == want[i][c]
      {
        aug[i, n + j] := if i == j then 1.0 else 0.0;
      }
    }
  }

  /** Divides row `i` of `aug` by `pivot`, entry by entry. */
  method ScaleRowInPlace(aug: array2<real>, n: nat, i: nat, pivot: real, ghost m: Matrix)
    requires aug.Length0 == n && aug.Length1 == 2 * n && i < n && pivot != 0.0
    requires Holds(aug, m)
    modifies aug
    ensures Holds(aug, m[i := ScaleRow(m[i], pivot)])
  {
    for j := 0 to 2 * n
      invariant forall r, c :: 0 <= r < n && 0 <= c < 2 * n ==>
                  aug[r, c] == (if r == i && c < j then Quotient(m[r][c], pivot) else m[r][c])
    {
      aug[i, j] := Quotient(aug[i, j], pivot);
    }
  }

  /** Subtracts `factor` times row `i` from row `k`. */
  method EliminateRowInPlace(aug: array2<real>, n: nat, i: nat, k: nat, factor: real, ghost m: Matrix)
    requires aug.Length0 == n && aug.Length1 == 2 * n && i < n && k < n && i != k
    requires Holds(aug, m)
    modifies aug
    ensures Holds(aug, m[k := EliminateRow(m[k], m[i], factor)])
  {
    for j := 0 to 2 * n
      invariant forall r, c :: 0 <= r < n && 0 <= c < 2 * n ==>
                  aug[r, c] == (if r == k && c < j then Reduced(m[r][c], factor, m[i][c]) else m[r][c])
    {
      aug[k, j] := Reduced(aug[k, j], factor, aug[i, j]);
    }
  }

  /** Clears column `i` in every row but `i`, once row `i` has been scaled. */
  method EliminateOthers(aug: array2<real>, n: nat, i: nat, ghost m: Matrix, ghost scaled: seq<real>)
    requires aug.Length0 == n && aug.Length1 == 2 * n && i < n
    requires IsMatrix(m, n, 2 * n) && |scaled| == 2 * n && Holds(aug, m[i := scaled])
    modifies aug
    ensures Holds(aug, EliminateUpTo(m, n, i, scaled, n))
  {
    assert EliminateUpTo(m, n, i, scaled, 0) == m[i := scaled];
    for k := 0 to n
      invariant Holds(aug, EliminateUpTo(m, n, i, scaled, k))
    {
      if k != i {
        ghost var before := EliminateUpTo(m, n, i, scaled, k);
        var factor := aug[k, i];
        EliminateRowInPlace(aug, n, i, k, factor, before);
        assert before[k := EliminateRow(before[k], before[i], factor)]
            == EliminateUpTo(m, n, i, scaled, k + 1);
      } else {
        assert EliminateUpTo(m, n, i, scaled, k) == EliminateUpTo(m, n, i, scaled, k + 1);
      }
    }
  }

  /** Copies the right half of `aug` into `aInv`. */
  method Extract(aug: array2<real>, aInv: array2<real>, n: nat, ghost m: Matrix)
    requires aug.Length0 == n && aug.Length1 == 2 * n && aInv.Length0 == n && aInv.Length1 == n
    requires aug != aInv && IsMatrix(m, n, 2 * n) && Holds(aug, m)
    modifies aInv
    ensures Holds(aInv, RightHalf(m, n))
  {
    for i := 0 to n
      invariant forall r, c :: 0 <= r < i && 0 <= c < n ==> aInv[r, c] == m[r][n + c]
    {
      for j := 0 to n
        invariant forall r, c :: 0 <= r < i && 0 <= c < n ==> aInv[r, c] == m[r][n + c]
        invariant forall c :: 0 <= c < j ==> aInv[i, c] == m[i][n + c]
      {
        aInv[i, j] := aug[i, n + j];
      }
    }
  }
}
