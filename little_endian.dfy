/** Little-endian byte layouts of unsigned and 32-bit two's-complement
    integers, as Python's `struct` reads them with `'<I'` and `'<i'`, and
    32-bit wrap-around. */
module LittleEndian {

  /** An element of a Python `bytes` object. */
  newtype byte = b: int | 0 <= b < 256

  function Pow256(n: nat): (r: nat)
    ensures r >= 1
  {
    if n == 0 then 1 else 256 * Pow256(n - 1)
  }

  const TwoTo31: int := 0x8000_0000
  const TwoTo32: int := 0x1_0000_0000

  predicate InInt32(x: int) {
    -TwoTo31 <= x < TwoTo31
  }

  /** `x` brought into the 32-bit two's-complement range the way an
      unchecked 32-bit addition wraps: the one value of that range that
      differs from `x` by a multiple of 2^32. */
  function Wrap32(x: int): (r: int)
    ensures InInt32(r)
    ensures (x - r) % TwoTo32 == 0
  {
    var u := x % TwoTo32;
    assert x - u == TwoTo32 * (x / TwoTo32);
    if u >= TwoTo31 then u - TwoTo32 else u
  }

  /** Values already in range are left alone. */
  lemma Wrap32Identity(x: int)
    requires InInt32(x)
    ensures Wrap32(x) == x
  {
    if x < 0 {
      DivModUniqueSigned(x, -1, x + TwoTo32);
    } else {
      DivModUniqueSigned(x, 0, x);
    }
  }

  lemma DivModUniqueSigned(x: int, q: int, r: int)
    requires 0 <= r < TwoTo32 && x == TwoTo32 * q + r
    ensures x % TwoTo32 == r
  {
  }

  /** The unsigned value of bytes read least significant first. */
  function LeValue(b: seq<byte>): (v: nat)
    ensures v < Pow256(|b|)
  {
    if b == [] then 0 else b[0] as nat + 256 * LeValue(b[1..])
  }

  /** The low `n` bytes of `v`, least significant first. */
  function LeBytes(v: nat, n: nat): (b: seq<byte>)
    ensures |b| == n
  {
    if n == 0 then [] else [(v % 256) as byte] + LeBytes(v / 256, n - 1)
  }

  lemma {:induction false} LeValueOfBytes(v: nat, n: nat)
    requires v < Pow256(n)
    ensures LeValue(LeBytes(v, n)) == v
  {
    if n > 0 {
      var q := v / 256;
      var r := v % 256;
      assert q < Pow256(n - 1) by {
        QuotientBound(v, Pow256(n - 1));
      }
      LeValueOfBytes(q, n - 1);
      var b := LeBytes(v, n);
      assert b[1..] == LeBytes(q, n - 1);
      assert b[0] as nat == r;
      calc {
        LeValue(b);
        b[0] as nat + 256 * LeValue(b[1..]);
        r + 256 * q;
        v;
      }
    }
  }

  lemma QuotientBound(v: nat, p: nat)
    requires v < 256 * p
    ensures v / 256 < p
  {
  }

  lemma {:induction false} LeBytesOfValue(b: seq<byte>)
    ensures LeBytes(LeValue(b), |b|) == b
  {
    if b != [] {
      var v := LeValue(b);
      var rest := LeValue(b[1..]);
      assert v == b[0] as nat + 256 * rest;
      DivModUnique(v, rest, b[0] as nat);
      LeBytesOfValue(b[1..]);
      assert ((v % 256) as byte) == b[0];
    }
  }

  lemma DivModUnique(v: nat, q: nat, r: nat)
    requires r < 256 && v == 256 * q + r
    ensures v / 256 == q && v % 256 == r
  {
  }

  /** The four bytes of a 32-bit two's-complement integer, least significant first. */
  function Int32Bytes(x: int): (b: seq<byte>)
    ensures |b| == 4
  {
    LeBytes(x % TwoTo32, 4)
  }

  /** The signed value of four little-endian bytes (`'<i'`). */
  function SignedLe32(b: seq<byte>): (x: int)
    requires |b| == 4
    ensures InInt32(x)
    ensures x % TwoTo32 == LeValue(b)
  {
    var u := LeValue(b);
    assert Pow256(4) == TwoTo32;
    if u >= TwoTo31 then u - TwoTo32 else u
  }

  /** Reading back the bytes of a 32-bit integer gives the integer. */
  lemma Int32RoundTrip(x: int)
    requires InInt32(x)
    ensures SignedLe32(Int32Bytes(x)) == x
  {
    assert Pow256(4) == TwoTo32;
    LeValueOfBytes(x % TwoTo32, 4);
  }

  /** Writing the signed value of four bytes gives the same four bytes. */
  lemma BytesRoundTrip(b: seq<byte>)
    requires |b| == 4
    ensures Int32Bytes(SignedLe32(b)) == b
  {
    LeBytesOfValue(b);
  }
}
