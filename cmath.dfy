/** The arithmetic the C filters share: `fabs` and sums of products
    accumulated in index order. */
module CMath {

  /** `fabs` on a real. */
  function Abs(r: real): (a: real)
    ensures a >= 0.0
  {
    if r < 0.0 then -r else r
  }

  /** The distance between two points does not depend on their order. */
  lemma AbsSymmetric(a: real, b: real)
    ensures Abs(a - b) == Abs(b - a)
  {
  }

  /** `Σ a[i]·b[i]`, summed in index order as the C loops accumulate it. */
  function Dot(a: seq<real>, b: seq<real>): real
    requires |a| == |b|
  {
    if a == [] then 0.0 else Dot(a[..|a| - 1], b[..|b| - 1]) + a[|a| - 1] * b[|b| - 1]
  }

  lemma {:induction false} DotSelfNonNegative(a: seq<real>)
    ensures Dot(a, a) >= 0.0
  {
    if a != [] {
      DotSelfNonNegative(a[..|a| - 1]);
      var t := a[|a| - 1];
      assert t * t >= 0.0 by {
        if t < 0.0 {
          assert t * t == (-t) * (-t);
        }
      }
    }
  }

  lemma DotStep(a: seq<real>, b: seq<real>, i: nat)
    requires |a| == |b| && i < |a|
    ensures Dot(a[..i + 1], b[..i + 1]) == Dot(a[..i], b[..i]) + a[i] * b[i]
  {
    assert a[..i + 1][..i] == a[..i] && b[..i + 1][..i] == b[..i];
  }

  lemma {:induction false} DotSymmetric(a: seq<real>, b: seq<real>)
    requires |a| == |b|
    ensures Dot(a, b) == Dot(b, a)
  {
    if a != [] {
      DotSymmetric(a[..|a| - 1], b[..|b| - 1]);
    }
  }

  /** The sum of one product. */
  lemma DotSingle(a: real, b: real)
    ensures Dot([a], [b]) == a * b
  {
    assert [a][..0] == [];
  }
}
