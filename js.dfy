/** The pieces of the JavaScript runtime that the application's business logic leans on:
    `String.prototype.trim`'s notion of white space, `toLowerCase` (on ASCII letters),
    `includes`, the global `parseInt` without a radix (ECMA-262, section 19.2.5) and
    `Math.round` applied to an exact ratio. */
module Js {

  import opened Options

  /** WhiteSpace and LineTerminator code points of ECMA-262 (sections 12.2 and 12.3):
      the characters that `trim` removes and that `parseInt` skips before the number. */
  predicate IsWhitespace(c: char) {
    var n := c as int;
    n == 0x09 || n == 0x0A || n == 0x0B || n == 0x0C || n == 0x0D || n == 0x20
    || n == 0xA0 || n == 0x1680 || (0x2000 <= n <= 0x200A) || n == 0x2028
    || n == 0x2029 || n == 0x202F || n == 0x205F || n == 0x3000 || n == 0xFEFF
  }

  /** `!s.trim()`: the string is empty once white space is removed. */
  predicate IsBlank(s: string) {
    forall i :: 0 <= i < |s| ==> IsWhitespace(s[i])
  }

  /** Removes leading white space, as the first step of `parseInt` does. */
  function TrimStart(s: string): (r: string)
    ensures |r| <= |s| && r == s[|s| - |r|..]
    ensures r == [] || !IsWhitespace(r[0])
    ensures forall i :: 0 <= i < |s| - |r| ==> IsWhitespace(s[i])
  {
    if s != [] && IsWhitespace(s[0]) then TrimStart(s[1..]) else s
  }

  lemma TrimStartEmptyIffBlank(s: string)
    ensures TrimStart(s) == [] <==> IsBlank(s)
  {
  }

  /** Leading white space in front of a string that starts with something else is dropped. */
  lemma {:induction false} TrimStartPrefix(ws: string, x: string)
    requires IsBlank(ws)
    requires x != [] && !IsWhitespace(x[0])
    ensures TrimStart(ws + x) == x
  {
    if ws != [] {
      assert (ws + x)[1..] == ws[1..] + x;
      TrimStartPrefix(ws[1..], x);
    } else {
      assert ws + x == x;
    }
  }

  /** `toLowerCase`, restricted to the ASCII letters. */
  function LowerChar(c: char): char {
    if 'A' <= c <= 'Z' then (c as int + 32) as char else c
  }

  function ToLower(s: string): (r: string)
    ensures |r| == |s|
    ensures forall i :: 0 <= i < |s| ==> r[i] == LowerChar(s[i])
  {
    if s == [] then [] else [LowerChar(s[0])] + ToLower(s[1..])
  }

  /** A string without ASCII capitals is its own lower-case form. */
  lemma ToLowerUnchanged(s: string)
    requires forall i :: 0 <= i < |s| ==> !('A' <= s[i] <= 'Z')
    ensures ToLower(s) == s
  {
  }

  /** `s.includes(p)`: `p` occurs in `s` as a contiguous piece. */
  predicate Includes(s: string, p: string)
    decreases |s|
  {
    p <= s || (s != [] && Includes(s[1..], p))
  }

  lemma {:induction false} IncludesAt(s: string, p: string, k: nat)
    requires k + |p| <= |s| && s[k..k + |p|] == p
    ensures Includes(s, p)
  {
    if k > 0 {
      assert s[1..][k - 1..k - 1 + |p|] == s[k..k + |p|];
      IncludesAt(s[1..], p, k - 1);
    } else {
      assert p <= s;
    }
  }

  /** A digit of radix 10 or 16 (both letter cases for 16). */
  predicate IsDigit(c: char, radix: nat) {
    ('0' <= c <= '9') || (radix == 16 && (('a' <= c <= 'f') || ('A' <= c <= 'F')))
  }

  function DigitValue(c: char): nat {
    if '0' <= c <= '9' then c as int - '0' as int
    else if 'a' <= c <= 'f' then c as int - 'a' as int + 10
    else if 'A' <= c <= 'F' then c as int - 'A' as int + 10
    else 0
  }

  /** Length of the run of radix digits at the start of `s`. */
  function DigitRun(s: string, radix: nat): (n: nat)
    ensures n <= |s|
    ensures forall i :: 0 <= i < n ==> IsDigit(s[i], radix)
    ensures n < |s| ==> !IsDigit(s[n], radix)
  {
    if s != [] && IsDigit(s[0], radix) then 1 + DigitRun(s[1..], radix) else 0
  }

  /** The mathematical value of a digit string, most significant digit first. */
  function DigitsValue(ds: string, radix: nat): nat {
    if ds == [] then 0 else DigitsValue(ds[..|ds| - 1], radix) * radix + DigitValue(ds[|ds| - 1])
  }

  /** The part of `parseInt` after the sign: a `0x`/`0X` prefix selects radix 16, then the
      longest run of digits is read. `None` when there is no digit. */
  function ParseUnsigned(u: string): (r: Option<nat>)
  {
    if |u| >= 2 && u[0] == '0' && (u[1] == 'x' || u[1] == 'X') then
      var n := DigitRun(u[2..], 16);
      if n == 0 then None else Some(DigitsValue(u[2..][..n], 16))
    else
      var n := DigitRun(u, 10);
      if n == 0 then None else Some(DigitsValue(u[..n], 10))
  }

  /** The global `parseInt(s)` without a radix: skip white space, take an optional sign,
      then read the digits. `None` is NaN; a negative zero is reported as `Some(0)`. */
  function ParseInt(s: string): (r: Option<int>)
    ensures r.Some? && r.value < 0 ==> TrimStart(s) != [] && TrimStart(s)[0] == '-'
    ensures TrimStart(s) == [] ==> r == None
  {
    var t := TrimStart(s);
    if t == [] then None
    else
      var magnitude := ParseUnsigned(if t[0] == '-' || t[0] == '+' then t[1..] else t);
      match magnitude
      case None => None
      case Some(m) => Some(if t[0] == '-' then -(m as int) else m as int)
  }

  /** Decimal rendering of a natural number (what `String(n)` gives). */
  function DigitChar(d: nat): char
    requires d < 10
  {
    ('0' as int + d) as char
  }

  function Decimal(n: nat): (s: string)
    ensures s != []
  {
    if n < 10 then [DigitChar(n)] else Decimal(n / 10) + [DigitChar(n % 10)]
  }

  lemma {:induction false} DecimalDigits(n: nat)
    ensures forall i :: 0 <= i < |Decimal(n)| ==> '0' <= Decimal(n)[i] <= '9'
    ensures DigitsValue(Decimal(n), 10) == n
    ensures Decimal(n)[0] == '0' ==> n == 0
  {
    if n >= 10 {
      DecimalDigits(n / 10);
      var s := Decimal(n);
      assert s[..|s| - 1] == Decimal(n / 10);
      assert s[0] == Decimal(n / 10)[0];
    }
  }

  /** `parseInt` reads back what `String(n)` wrote, whatever white space precedes it and
      whatever non-digit text follows it (a `0` followed by `x` would start a hex literal). */
  lemma ParseIntDecimal(ws: string, negative: bool, n: nat, rest: string)
    requires IsBlank(ws)
    requires rest == [] || !IsDigit(rest[0], 10)
    requires n == 0 ==> rest == [] || (rest[0] != 'x' && rest[0] != 'X')
    ensures ParseInt(ws + (if negative then "-" else "") + Decimal(n) + rest)
            == Some(if negative then -(n as int) else n as int)
  {
    var d := Decimal(n);
    var u := d + rest;
    ConcatAssoc(ws, if negative then "-" else "", d, rest);
    DecimalDigits(n);
    ParseUnsignedDecimal(n, rest);
    if negative {
      var x := "-" + u;
      var s := ws + x;
      TrimStartPrefix(ws, x);
      assert x[1..] == u;
      ParseIntNegative(s, x, n);
      assert ws + (if negative then "-" else "") + Decimal(n) + rest == s;
    } else {
      var s := ws + u;
      assert "" + u == u;
      assert u[0] == d[0];
      TrimStartPrefix(ws, u);
      ParseIntUnsigned(s, u, n);
      assert ws + (if negative then "-" else "") + Decimal(n) + rest == s;
    }
  }

  /** The common case of `ParseIntDecimal`: no white space and no sign. */
  lemma ParseIntNat(n: nat, rest: string)
    requires rest == [] || !IsDigit(rest[0], 10)
    requires n == 0 ==> rest == [] || (rest[0] != 'x' && rest[0] != 'X')
    ensures ParseInt(Decimal(n) + rest) == Some(n as int)
  {
    var d := Decimal(n);
    var u := d + rest;
    DecimalDigits(n);
    ParseUnsignedDecimal(n, rest);
    assert !IsWhitespace(u[0]) by { assert u[0] == d[0]; }
    TrimStartPrefix("", u);
    assert "" + u == u;
    ParseIntUnsigned(u, u, n);
  }

  lemma ConcatAssoc(a: string, b: string, c: string, d: string)
    ensures a + b + c + d == a + (b + (c + d))
  {
  }

  lemma ParseIntNegative(s: string, t: string, m: nat)
    requires TrimStart(s) == t && t != [] && t[0] == '-'
    requires ParseUnsigned(t[1..]) == Some(m)
    ensures ParseInt(s) == Some(-(m as int))
  {
  }

  lemma ParseIntUnsigned(s: string, t: string, m: nat)
    requires TrimStart(s) == t && t != [] && t[0] != '-' && t[0] != '+'
    requires ParseUnsigned(t) == Some(m)
    ensures ParseInt(s) == Some(m as int)
  {
  }

  lemma ParseUnsignedDecimal(n: nat, rest: string)
    requires rest == [] || !IsDigit(rest[0], 10)
    requires n == 0 ==> rest == [] || (rest[0] != 'x' && rest[0] != 'X')
    ensures ParseUnsigned(Decimal(n) + rest) == Some(n)
  {
    var d := Decimal(n);
    var u := d + rest;
    DecimalDigits(n);
    assert !(|u| >= 2 && u[0] == '0' && (u[1] == 'x' || u[1] == 'X')) by {
      if |u| >= 2 && u[0] == '0' {
        assert n == 0;
        assert |d| == 1;
        assert u[1] == rest[0];
      }
    }
    DigitRunExact(d, rest);
    assert u[..|d|] == d;
  }

  lemma {:induction false} DigitRunExact(d: string, rest: string)
    requires forall i :: 0 <= i < |d| ==> '0' <= d[i] <= '9'
    requires rest == [] || !IsDigit(rest[0], 10)
    ensures DigitRun(d + rest, 10) == |d|
  {
    if d != [] {
      assert (d + rest)[1..] == d[1..] + rest;
      DigitRunExact(d[1..], rest);
    } else {
      assert d + rest == rest;
    }
  }

  /** `Math.round(n / d)` on the exact ratio: the nearest integer, halves rounded up. */
  function RoundRatio(n: int, d: int): (r: int)
    requires d > 0
    ensures 2 * d * r <= 2 * n + d < 2 * d * (r + 1)
  {
    (2 * n + d) / (2 * d)
  }

  /** The rounded ratio is the one integer `m` with `2dm <= 2n + d < 2d(m + 1)`. */
  lemma RoundRatioUnique(n: int, d: int, m: int)
    requires d > 0
    requires 2 * d * m <= 2 * n + d < 2 * d * (m + 1)
    ensures RoundRatio(n, d) == m
  {
    var r := RoundRatio(n, d);
    if r < m {
      MulMonotone(2 * d, r + 1, m);
    } else if r > m {
      MulMonotone(2 * d, m + 1, r);
    }
  }

  /** Both directions of the characterisation above. */
  lemma RoundRatioIff(n: int, d: int, m: int)
    requires d > 0
    ensures RoundRatio(n, d) == m <==> 2 * d * m <= 2 * n + d < 2 * d * (m + 1)
  {
    if 2 * d * m <= 2 * n + d < 2 * d * (m + 1) {
      RoundRatioUnique(n, d, m);
    }
  }

  lemma MulMonotone(c: int, a: int, b: int)
    requires c > 0 && a <= b
    ensures c * a <= c * b
  {
    assert c * b - c * a == c * (b - a);
  }

  /** A ratio between 0 and `m` rounds to a value between 0 and `m`. */
  lemma RoundRatioBounds(n: int, d: int, m: int)
    requires d > 0 && 0 <= n <= m * d
    ensures 0 <= RoundRatio(n, d) <= m
  {
    var r := RoundRatio(n, d);
    if r < 0 {
      MulMonotone(2 * d, r + 1, 0);
    }
    if r > m {
      MulMonotone(2 * d, m + 1, r);
    }
  }
}
