/** The parts of Python's `str` behaviour that the host-side scripts rely on:
    `str.isspace`, `str.split()` with no separator, `str.strip()`, the `in`
    substring test and `int(s, base)` for bases 10 and 16. */
module PyText {
  import opened Wrappers

  /** The characters for which Python's `str.isspace()` holds. `str.split()`,
      `str.strip()` and `int()` all use this set. */
  predicate IsSpace(c: char) {
    c == ' ' || ('\t' <= c <= '\r') || ('\U{1c}' <= c <= '\U{1f}')
    || c == '\U{85}' || c == '\U{a0}' || c == '\U{1680}'
    || ('\U{2000}' <= c <= '\U{200a}') || c == '\U{2028}' || c == '\U{2029}'
    || c == '\U{202f}' || c == '\U{205f}' || c == '\U{3000}'
  }

  predicate NoSpace(s: string) {
    forall i :: 0 <= i < |s| ==> !IsSpace(s[i])
  }

  /** The longest prefix of `s` that holds no whitespace. */
  function TokenPrefix(s: string): (t: string)
    ensures |t| <= |s| && t == s[..|t|] && NoSpace(t)
    ensures |t| < |s| ==> IsSpace(s[|t|])
  {
    if s == [] || IsSpace(s[0]) then [] else [s[0]] + TokenPrefix(s[1..])
  }

  /** `s.split()`: the maximal runs of non-whitespace characters of `s`, in order. */
  function Split(s: string): (tokens: seq<string>)
    ensures forall k :: 0 <= k < |tokens| ==> tokens[k] != [] && NoSpace(tokens[k])
    decreases |s|
  {
    if s == [] then []
    else if IsSpace(s[0]) then Split(s[1..])
    else
      var t := TokenPrefix(s);
      [t] + Split(s[|t|..])
  }

  /** The tokens joined with single spaces, as `" ".join(tokens)` does. */
  function JoinSpaced(tokens: seq<string>): string {
    if tokens == [] then []
    else if |tokens| == 1 then tokens[0]
    else tokens[0] + " " + JoinSpaced(tokens[1..])
  }

  lemma TokenPrefixOfSpaced(t: string, rest: string)
    requires NoSpace(t)
    requires rest == [] || IsSpace(rest[0])
    ensures TokenPrefix(t + rest) == t
  {
    if t != [] {
      assert (t + rest)[1..] == t[1..] + rest;
      TokenPrefixOfSpaced(t[1..], rest);
    }
  }

  /** Splitting undoes joining, for non-empty whitespace-free tokens. */
  lemma {:induction false} SplitJoinSpaced(tokens: seq<string>)
    requires forall k :: 0 <= k < |tokens| ==> tokens[k] != [] && NoSpace(tokens[k])
    ensures Split(JoinSpaced(tokens)) == tokens
  {
    if |tokens| == 1 {
      TokenPrefixOfSpaced(tokens[0], []);
      assert tokens[0] + [] == tokens[0];
      assert tokens[0][|tokens[0]|..] == [];
    } else if |tokens| > 1 {
      var t := tokens[0];
      var rest := JoinSpaced(tokens[1..]);
      var s := t + " " + rest;
      assert s == t + (" " + rest);
      TokenPrefixOfSpaced(t, " " + rest);
      assert s[|t|..] == " " + rest;
      assert (" " + rest)[1..] == rest;
      SplitJoinSpaced(tokens[1..]);
    }
  }

  /** `s.lstrip()`: `s` without its leading whitespace. */
  function StripLeft(s: string): (r: string)
    ensures |r| <= |s| && r == s[|s| - |r|..]
    ensures r == [] || !IsSpace(r[0])
  {
    if s != [] && IsSpace(s[0]) then StripLeft(s[1..]) else s
  }

  /** Only whitespace is removed by `lstrip`. */
  lemma {:induction false} StripLeftDropsSpace(s: string)
    ensures forall i :: 0 <= i < |s| - |StripLeft(s)| ==> IsSpace(s[i])
  {
    if s != [] && IsSpace(s[0]) {
      StripLeftDropsSpace(s[1..]);
      assert forall i :: 1 <= i < |s| - |StripLeft(s)| ==> s[i] == s[1..][i - 1];
    }
  }

  /** `s.rstrip()`: `s` without its trailing whitespace. */
  function StripRight(s: string): (r: string)
    ensures |r| <= |s| && r == s[..|r|]
    ensures r == [] || !IsSpace(r[|r| - 1])
  {
    if s != [] && IsSpace(s[|s| - 1]) then StripRight(s[..|s| - 1]) else s
  }

  /** Only whitespace is removed by `rstrip`. */
  lemma {:induction false} StripRightDropsSpace(s: string)
    ensures forall i :: |StripRight(s)| <= i < |s| ==> IsSpace(s[i])
  {
    if s != [] && IsSpace(s[|s| - 1]) {
      StripRightDropsSpace(s[..|s| - 1]);
    }
  }

  /** `s.strip()`. */
  function Strip(s: string): string {
    StripRight(StripLeft(s))
  }

  /** Python's `sub in s` for strings, written as a scan over the start positions. */
  predicate Contains(s: string, sub: string)
    decreases |s|
  {
    sub <= s || (s != [] && Contains(s[1..], sub))
  }

  /** `sub` occurs in `s` starting at position `i`. */
  predicate OccursAt(s: string, sub: string, i: int) {
    0 <= i <= |s| - |sub| && s[i..i + |sub|] == sub
  }

  lemma {:induction false} OccursContains(s: string, sub: string, i: int)
    requires OccursAt(s, sub, i)
    ensures Contains(s, sub)
    decreases |s|
  {
    if i > 0 {
      assert s[1..][i - 1..i - 1 + |sub|] == s[i..i + |sub|];
      OccursContains(s[1..], sub, i - 1);
    } else {
      assert sub <= s;
    }
  }

  lemma {:induction false} ContainsOccursSomewhere(s: string, sub: string)
    requires Contains(s, sub)
    ensures exists i :: OccursAt(s, sub, i)
    decreases |s|
  {
    if sub <= s {
      assert OccursAt(s, sub, 0);
    } else {
      ContainsOccursSomewhere(s[1..], sub);
      var i :| OccursAt(s[1..], sub, i);
      assert s[i + 1..i + 1 + |sub|] == s[1..][i..i + |sub|];
      assert OccursAt(s, sub, i + 1);
    }
  }

  /** `Contains` holds exactly when `sub` occurs at some position of `s`. */
  lemma ContainsOccurs(s: string, sub: string)
    ensures Contains(s, sub) <==> exists i :: OccursAt(s, sub, i)
  {
    if Contains(s, sub) {
      ContainsOccursSomewhere(s, sub);
    }
    if exists i :: OccursAt(s, sub, i) {
      var i :| OccursAt(s, sub, i);
      OccursContains(s, sub, i);
    }
  }

  /** The value of a character as a digit of bases up to 16 (`0-9`, `a-f`, `A-F`). */
  function DigitValue(c: char): (d: Option<nat>)
    ensures d.Some? ==> d.value < 16
  {
    if '0' <= c <= '9' then Some(c as nat - '0' as nat)
    else if 'a' <= c <= 'f' then Some(c as nat - 'a' as nat + 10)
    else if 'A' <= c <= 'F' then Some(c as nat - 'A' as nat + 10)
    else None
  }

  predicate IsDigitIn(c: char, base: nat) {
    DigitValue(c).Some? && DigitValue(c).value < base
  }

  predicate DigitsOrUnderscores(s: string, base: nat) {
    forall i :: 0 <= i < |s| ==> IsDigitIn(s[i], base) || s[i] == '_'
  }

  /** What `int()` accepts as the digits of a number: digits of the base with
      single underscores allowed between two digits. */
  predicate WellFormedDigits(s: string, base: nat) {
    && |s| > 0
    && DigitsOrUnderscores(s, base)
    && IsDigitIn(s[0], base)
    && IsDigitIn(s[|s| - 1], base)
    && forall i, j :: 0 <= i < |s| && 0 <= j < |s| && j == i + 1 && s[i] == '_' ==> s[j] != '_'
  }

  /** The number the digits of `s` denote, underscores ignored. */
  function DigitsValue(s: string, base: nat): nat
    requires DigitsOrUnderscores(s, base)
  {
    if s == [] then 0
    else if s[|s| - 1] == '_' then DigitsValue(s[..|s| - 1], base)
    else DigitsValue(s[..|s| - 1], base) * base + DigitValue(s[|s| - 1]).value
  }

  /** The digit part of an unsigned literal: for base 16 an optional `0x`/`0X`
      prefix, which may be followed by one underscore, is dropped. */
  function DigitPart(s: string, base: nat): string {
    if base == 16 && |s| >= 2 && s[0] == '0' && (s[1] == 'x' || s[1] == 'X') then
      if |s| > 2 && s[2] == '_' then s[3..] else s[2..]
    else s
  }

  function ParseUnsigned(s: string, base: nat): Option<nat> {
    var body := DigitPart(s, base);
    if WellFormedDigits(body, base) then Some(DigitsValue(body, base)) else None
  }

  /** An optionally signed literal with no surrounding whitespace. */
  function ParseSigned(t: string, base: nat): Option<int>
    requires base == 10 || base == 16
  {
    if |t| > 0 && (t[0] == '+' || t[0] == '-') then
      match ParseUnsigned(t[1..], base)
      case Some(v) => Some(if t[0] == '-' then -(v as int) else v)
      case None => None
    else
      ParseUnsigned(t, base)
  }

  /** Python's `int(s, base)` for base 10 or 16; `None` stands for the
      `ValueError` it raises on any other string. */
  function PyInt(s: string, base: nat): Option<int>
    requires base == 10 || base == 16
  {
    ParseSigned(Strip(s), base)
  }

  function DigitChar(d: nat): (c: char)
    requires d < 16
    ensures DigitValue(c) == Some(d)
  {
    if d < 10 then ('0' as nat + d) as char else ('a' as nat + d - 10) as char
  }

  /** The lower-case digits of `n` in `base`, as Python's `format(n, 'x')` or `str(n)` writes them. */
  function FormatNat(n: nat, base: nat): (s: string)
    requires 2 <= base <= 16
    decreases n
  {
    if n < base then [DigitChar(n)] else FormatNat(n / base, base) + [DigitChar(n % base)]
  }

  predicate PlainDigits(s: string, base: nat) {
    forall i :: 0 <= i < |s| ==> IsDigitIn(s[i], base) && s[i] != 'x' && s[i] != 'X'
  }

  lemma DigitCharPlain(d: nat, base: nat)
    requires d < base <= 16
    ensures PlainDigits([DigitChar(d)], base)
  {
    var c := DigitChar(d);
    assert '0' <= c <= '9' || 'a' <= c <= 'f';
  }

  lemma PlainConcat(a: string, b: string, base: nat)
    requires PlainDigits(a, base) && PlainDigits(b, base)
    ensures PlainDigits(a + b, base)
  {
    assert forall i :: 0 <= i < |a + b| ==> (a + b)[i] == if i < |a| then a[i] else b[i - |a|];
  }

  lemma {:induction false} FormatNatPlain(n: nat, base: nat)
    requires 2 <= base <= 16
    ensures |FormatNat(n, base)| > 0 && PlainDigits(FormatNat(n, base), base)
  {
    if n < base {
      DigitCharPlain(n, base);
    } else {
      var q, r := n / base, n % base;
      DivLess(n, base);
      FormatNatPlain(q, base);
      DigitCharPlain(r, base);
      PlainConcat(FormatNat(q, base), [DigitChar(r)], base);
    }
  }

  lemma PlainDigitsAreDigits(s: string, base: nat)
    requires PlainDigits(s, base)
    ensures DigitsOrUnderscores(s, base)
  {
  }

  lemma DigitsValueSnoc(f: string, d: nat, base: nat)
    requires d < base <= 16
    requires DigitsOrUnderscores(f, base)
    ensures DigitsOrUnderscores(f + [DigitChar(d)], base)
    ensures DigitsValue(f + [DigitChar(d)], base) == DigitsValue(f, base) * base + d
  {
    var s := f + [DigitChar(d)];
    assert s[..|s| - 1] == f;
  }

  lemma DivLess(n: nat, base: nat)
    requires 2 <= base <= n
    ensures n / base < n
  {
    var q := n / base;
    DivMod(n, base);
    MulNonNegative(q, base - 2);
    assert q * base == q * 2 + q * (base - 2);
  }

  lemma MulNonNegative(a: nat, b: nat)
    ensures a * b >= 0
  {
  }

  lemma DivMod(n: nat, base: nat)
    requires base > 0
    ensures (n / base) * base + n % base == n
  {
  }

  lemma {:induction false} FormatNatValue(n: nat, base: nat)
    requires 2 <= base <= 16
    ensures DigitsOrUnderscores(FormatNat(n, base), base)
    ensures DigitsValue(FormatNat(n, base), base) == n
    decreases n
  {
    var s := FormatNat(n, base);
    if n < base {
      DigitsValueSnoc([], n, base);
      assert s == [] + [DigitChar(n)];
    } else {
      var q, r := n / base, n % base;
      DivLess(n, base);
      var f := FormatNat(q, base);
      FormatNatValue(q, base);
      DigitsValueSnoc(f, r, base);
      assert s == f + [DigitChar(r)];
      var v := DigitsValue(f, base);
      assert DigitsValue(s, base) == v * base + r;
      assert v == q;
      DivMod(n, base);
      assert q * base + r == n;
    }
  }

  lemma DigitNotSpace(c: char, base: nat)
    requires IsDigitIn(c, base)
    ensures !IsSpace(c)
  {
  }

  lemma ParseFormatted(m: nat, base: nat)
    requires base == 10 || base == 16
    ensures ParseUnsigned(FormatNat(m, base), base) == Some(m)
  {
    var f := FormatNat(m, base);
    FormatNatValue(m, base);
    FormatNatPlain(m, base);
    assert DigitPart(f, base) == f;
    assert WellFormedDigits(f, base);
  }

  lemma StripUnpadded(s: string)
    requires s != [] && !IsSpace(s[0]) && !IsSpace(s[|s| - 1])
    ensures Strip(s) == s
  {
    assert StripLeft(s) == s;
  }

  /** `int(s, base)` reads back the digits `FormatNat` writes. */
  lemma ParseNonNegative(m: nat, base: nat)
    requires base == 10 || base == 16
    ensures PyInt(FormatNat(m, base), base) == Some(m)
  {
    var f := FormatNat(m, base);
    FormatNatPlain(m, base);
    ParseFormatted(m, base);
    DigitNotSpace(f[0], base);
    DigitNotSpace(f[|f| - 1], base);
    PyIntUnpadded(f, base);
    ParseSignedUnsigned(f, base, m);
  }

  /** ... and the same digits after a minus sign. */
  lemma ParseNegative(m: nat, base: nat)
    requires base == 10 || base == 16
    ensures PyInt("-" + FormatNat(m, base), base) == Some(-(m as int))
  {
    var f := FormatNat(m, base);
    FormatNatPlain(m, base);
    ParseFormatted(m, base);
    DigitNotSpace(f[|f| - 1], base);
    var s := "-" + f;
    assert s[|s| - 1] == f[|f| - 1];
    PyIntUnpadded(s, base);
    assert s[0] == '-' && s[1..] == f;
    ParseSignedNegative(s, base, m);
  }

  lemma ParseSignedNegative(s: string, base: nat, m: nat)
    requires base == 10 || base == 16
    requires |s| > 0 && s[0] == '-'
    requires ParseUnsigned(s[1..], base) == Some(m)
    ensures ParseSigned(s, base) == Some(-(m as int))
  {
  }

  lemma ParseSignedUnsigned(s: string, base: nat, m: nat)
    requires base == 10 || base == 16
    requires PlainDigits(s, base)
    requires ParseUnsigned(s, base) == Some(m)
    ensures ParseSigned(s, base) == Some(m)
  {
    if |s| > 0 {
      assert s[0] != '+' && s[0] != '-';
    }
  }

  lemma PyIntUnpadded(s: string, base: nat)
    requires base == 10 || base == 16
    requires s != [] && !IsSpace(s[0]) && !IsSpace(s[|s| - 1])
    ensures PyInt(s, base) == ParseSigned(s, base)
  {
    StripUnpadded(s);
  }

  /** `str(n)` for any integer. */
  function FormatInt(n: int): (s: string)
    ensures s != [] && NoSpace(s)
  {
    var m: nat := if n < 0 then -n else n;
    FormatNatPlain(m, 10);
    PlainNoSpace(FormatNat(m, 10), 10);
    if n < 0 then "-" + FormatNat(m, 10) else FormatNat(m, 10)
  }

  /** `int(str(n))` is `n`. */
  lemma FormatIntParses(n: int)
    ensures PyInt(FormatInt(n), 10) == Some(n)
  {
    var m: nat := if n < 0 then -n else n;
    if n < 0 {
      ParseNegative(m, 10);
      assert FormatInt(n) == "-" + FormatNat(m, 10);
    } else {
      ParseNonNegative(m, 10);
      assert FormatInt(n) == FormatNat(m, 10);
    }
  }

  lemma PlainNoSpace(s: string, base: nat)
    requires PlainDigits(s, base)
    ensures NoSpace(s)
  {
    forall i | 0 <= i < |s|
      ensures !IsSpace(s[i])
    {
      DigitNotSpace(s[i], base);
    }
  }

  /** A joined line starts with its first token's first character and ends
      with its last token's last character. */
  lemma {:induction false} JoinSpacedEnds(tokens: seq<string>)
    requires |tokens| > 0
    requires forall k :: 0 <= k < |tokens| ==> tokens[k] != []
    ensures JoinSpaced(tokens) != []
    ensures JoinSpaced(tokens)[0] == tokens[0][0]
    ensures JoinSpaced(tokens)[|JoinSpaced(tokens)| - 1] == tokens[|tokens| - 1][|tokens[|tokens| - 1]| - 1]
  {
    if |tokens| > 1 {
      JoinSpacedEnds(tokens[1..]);
    }
  }

  lemma {:induction false} ContainsMiddle(a: string, sub: string, b: string)
    ensures Contains(a + sub + b, sub)
  {
    if a == [] {
      assert a + sub + b == sub + b;
    } else {
      assert (a + sub + b)[1..] == a[1..] + sub + b;
      ContainsMiddle(a[1..], sub, b);
    }
  }
}
