/**
 * The JavaScript string built-ins the core relies on: `trim`, ASCII
 * `toLowerCase`, `includes`, `join`, `length` (in UTF-16 code units),
 * `<` on strings, `toFixed(2)` on an amount in cents and `parseFloat`
 * on decimal text.
 */
module Text {
  import opened Optional

  // ---------------------------------------------------------------- whitespace and trim

  /** The ECMAScript WhiteSpace and LineTerminator code points that `trim` removes. */
  predicate IsJsSpace(c: char)
  {
    c == '\t' || c == '\n' || c == '\U{000B}' || c == '\U{000C}' || c == '\r' || c == ' '
    || c == '\U{00A0}' || c == '\U{1680}' || ('\U{2000}' <= c <= '\U{200A}')
    || c == '\U{2028}' || c == '\U{2029}' || c == '\U{202F}' || c == '\U{205F}'
    || c == '\U{3000}' || c == '\U{FEFF}'
  }

  predicate AllSpace(s: string)
  {
    forall i :: 0 <= i < |s| ==> IsJsSpace(s[i])
  }

  /** `trimStart`: leading whitespace removed. */
  function TrimStart(s: string): (r: string)
  {
    if s != [] && IsJsSpace(s[0]) then TrimStart(s[1..]) else s
  }

  /** `trimEnd`: trailing whitespace removed. */
  function TrimEnd(s: string): (r: string)
  {
    if s != [] && IsJsSpace(s[|s| - 1]) then TrimEnd(s[..|s| - 1]) else s
  }

  /** `TrimStart` keeps a suffix that does not start with whitespace, and removes only whitespace. */
  lemma {:induction false} TrimStartSpec(s: string)
    ensures var r := TrimStart(s);
            |r| <= |s| && r == s[|s| - |r|..] && (r == [] || !IsJsSpace(r[0])) && AllSpace(s[..|s| - |r|])
  {
    if s != [] && IsJsSpace(s[0]) {
      TrimStartSpec(s[1..]);
      var r := TrimStart(s[1..]);
      assert s[1..][|s| - 1 - |r|..] == s[|s| - |r|..];
      forall i | 0 <= i < |s| - |r| ensures IsJsSpace(s[i]) {
        if i > 0 { assert s[i] == s[1..][..|s| - 1 - |r|][i - 1]; }
      }
    }
  }

  /** `TrimEnd` keeps a prefix that does not end with whitespace, and removes only whitespace. */
  lemma {:induction false} TrimEndSpec(s: string)
    ensures var r := TrimEnd(s);
            |r| <= |s| && r == s[..|r|] && (r == [] || !IsJsSpace(r[|r| - 1])) && AllSpace(s[|r|..])
  {
    if s != [] && IsJsSpace(s[|s| - 1]) {
      var init := s[..|s| - 1];
      TrimEndSpec(init);
      var r := TrimEnd(init);
      assert init[..|r|] == s[..|r|];
      forall i | |r| <= i < |s| ensures IsJsSpace(s[i]) {
        if i < |s| - 1 { assert s[i] == init[|r|..][i - |r|]; }
      }
    }
  }

  /**
   * `s.trim()`: the text between the leading and the trailing whitespace. The
   * result has whitespace at neither end, and it is empty iff `s` is all whitespace.
   */
  function Trim(s: string): (r: string)
    ensures |r| <= |s|
    ensures r == [] || (!IsJsSpace(r[0]) && !IsJsSpace(r[|r| - 1]))
    ensures r == [] <==> AllSpace(s)
  {
    var u := TrimStart(s);
    TrimStartSpec(s);
    TrimEndSpec(u);
    TrimBothEnds(s, u, TrimEnd(u));
    TrimEnd(u)
  }

  /** The facts `Trim` combines: the inner text starts where the leading run ends. */
  lemma TrimBothEnds(s: string, u: string, t: string)
    requires |u| <= |s| && u == s[|s| - |u|..] && (u == [] || !IsJsSpace(u[0])) && AllSpace(s[..|s| - |u|])
    requires |t| <= |u| && t == u[..|t|] && (t == [] || !IsJsSpace(t[|t| - 1])) && AllSpace(u[|t|..])
    ensures t == [] || !IsJsSpace(t[0])
    ensures t == [] <==> AllSpace(s)
  {
    if t != [] {
      assert t[0] == u[0];
      assert s[|s| - |u|] == u[0];
    } else {
      assert s[..|s| - |u|] == s;
    }
  }

  /** `trim` is idempotent. */
  lemma TrimIdempotent(s: string)
    ensures Trim(Trim(s)) == Trim(s)
  {
    var t := Trim(s);
    assert TrimStart(t) == t;
    assert TrimEnd(t) == t;
  }

  // ---------------------------------------------------------------- case and search

  /** `toLowerCase` on one character, restricted to the ASCII letters. */
  function LowerChar(c: char): (d: char)
  {
    if 'A' <= c <= 'Z' then (c as int + 32) as char else c
  }

  function Lower(s: string): (r: string)
    ensures |r| == |s| && forall i :: 0 <= i < |s| ==> r[i] == LowerChar(s[i])
  {
    if s == [] then [] else [LowerChar(s[0])] + Lower(s[1..])
  }

  lemma LowerIdempotent(s: string)
    ensures Lower(Lower(s)) == Lower(s)
  {
  }

  predicate StartsWith(s: string, prefix: string)
  {
    |prefix| <= |s| && s[..|prefix|] == prefix
  }

  /** `s.includes(t)`: `t` occurs as a contiguous substring of `s`. */
  predicate Contains(s: string, t: string)
    decreases |s|
  {
    StartsWith(s, t) || (s != [] && Contains(s[1..], t))
  }

  /** `includes` holds exactly when some offset of `s` starts a copy of `t`. */
  lemma {:induction false} ContainsIff(s: string, t: string)
    ensures Contains(s, t) <==> exists i :: 0 <= i <= |s| - |t| && s[i..][..|t|] == t
    decreases |s|
  {
    if Contains(s, t) {
      if StartsWith(s, t) {
        assert s[0..] == s;
        assert 0 <= 0 <= |s| - |t| && s[0..][..|t|] == t;
      } else {
        ContainsIff(s[1..], t);
        var i :| 0 <= i <= |s[1..]| - |t| && s[1..][i..][..|t|] == t;
        assert s[i + 1..] == s[1..][i..];
        assert 0 <= i + 1 <= |s| - |t| && s[i + 1..][..|t|] == t;
      }
    }
    if exists i :: 0 <= i <= |s| - |t| && s[i..][..|t|] == t {
      var i :| 0 <= i <= |s| - |t| && s[i..][..|t|] == t;
      if i == 0 {
        assert s[0..] == s;
        assert StartsWith(s, t);
      } else {
        assert s[1..][i - 1..] == s[i..];
        assert 0 <= i - 1 <= |s[1..]| - |t| && s[1..][i - 1..][..|t|] == t;
        ContainsIff(s[1..], t);
      }
    }
  }

  // ---------------------------------------------------------------- length and order

  /** `s.length`: code points above U+FFFF take two UTF-16 code units. */
  function Utf16Length(s: string): (n: nat)
    ensures |s| <= n <= 2 * |s|
  {
    if s == [] then 0 else (if s[0] as int > 0xFFFF then 2 else 1) + Utf16Length(s[1..])
  }

  /** `a < b` on strings: lexicographic order of the characters. */
  predicate Less(a: string, b: string)
  {
    if b == [] then false
    else if a == [] then true
    else if a[0] != b[0] then a[0] < b[0]
    else Less(a[1..], b[1..])
  }

  lemma {:induction false} LessIrreflexive(a: string)
    ensures !Less(a, a)
  {
    if a != [] { LessIrreflexive(a[1..]); }
  }

  lemma {:induction false} LessTrichotomy(a: string, b: string)
    ensures a == b || Less(a, b) || Less(b, a)
    ensures !(Less(a, b) && Less(b, a))
  {
    if a != [] && b != [] && a[0] == b[0] {
      LessTrichotomy(a[1..], b[1..]);
      assert a == [a[0]] + a[1..] && b == [b[0]] + b[1..];
    }
  }

  lemma {:induction false} LessTransitive(a: string, b: string, c: string)
    requires Less(a, b) && Less(b, c)
    ensures Less(a, c)
  {
    if a != [] && a[0] == b[0] && b[0] == c[0] {
      LessTransitive(a[1..], b[1..], c[1..]);
    }
  }

  /** A common prefix does not affect the order. */
  lemma {:induction false} LessCommonPrefix(p: string, a: string, b: string)
    ensures Less(p + a, p + b) == Less(a, b)
  {
    if p != [] {
      assert (p + a)[1..] == p[1..] + a && (p + b)[1..] == p[1..] + b;
      LessCommonPrefix(p[1..], a, b);
    } else {
      assert p + a == a && p + b == b;
    }
  }

  // ---------------------------------------------------------------- join

  /** `parts.join(sep)`. */
  function Join(parts: seq<string>, sep: string): string
  {
    if |parts| == 0 then ""
    else if |parts| == 1 then parts[0]
    else parts[0] + sep + Join(parts[1..], sep)
  }

  // ---------------------------------------------------------------- decimal digits

  predicate IsDigit(c: char)
  {
    '0' <= c <= '9'
  }

  predicate AllDigits(s: string)
  {
    forall i :: 0 <= i < |s| ==> IsDigit(s[i])
  }

  function DigitChar(d: nat): (c: char)
    requires d < 10
    ensures IsDigit(c)
  {
    (48 + d) as char
  }

  function Pow10(n: nat): (p: nat)
    ensures p >= 1
  {
    if n == 0 then 1 else 10 * Pow10(n - 1)
  }

  /** The value of a string of decimal digits, most significant first. */
  function DigitsValue(s: string): (v: nat)
    requires AllDigits(s)
    ensures v < Pow10(|s|)
  {
    if s == [] then 0 else DigitsValue(s[..|s| - 1]) * 10 + (s[|s| - 1] as int - 48)
  }

  /** The shortest decimal representation of `n` (`String(n)`). */
  function NatToString(n: nat): (s: string)
    ensures |s| >= 1 && AllDigits(s)
    ensures |s| > 1 ==> s[0] != '0'
  {
    if n < 10 then [DigitChar(n)] else NatToString(n / 10) + [DigitChar(n % 10)]
  }

  /** The last `w` decimal digits of `n`, zero-padded (`yyyy`, `MM`, `dd`, the cents of `toFixed(2)`). */
  function FixedDigits(n: nat, w: nat): (s: string)
    ensures |s| == w && AllDigits(s)
  {
    if w == 0 then [] else FixedDigits(n / 10, w - 1) + [DigitChar(n % 10)]
  }

  lemma {:induction false} DigitsValueOfNatToString(n: nat)
    ensures DigitsValue(NatToString(n)) == n
  {
    if n >= 10 {
      DigitsValueOfNatToString(n / 10);
      var s := NatToString(n);
      assert s[..|s| - 1] == NatToString(n / 10);
    }
  }

  lemma {:induction false} DigitsValueOfFixedDigits(n: nat, w: nat)
    requires n < Pow10(w)
    ensures DigitsValue(FixedDigits(n, w)) == n
  {
    if w > 0 {
      assert n / 10 < Pow10(w - 1);
      DigitsValueOfFixedDigits(n / 10, w - 1);
      var s := FixedDigits(n, w);
      assert s[..|s| - 1] == FixedDigits(n / 10, w - 1);
    }
  }

  /** Fixed-width formatting inverts digit parsing: the digits come back unchanged. */
  lemma {:induction false} FixedDigitsOfDigitsValue(s: string)
    requires AllDigits(s)
    ensures FixedDigits(DigitsValue(s), |s|) == s
  {
    if s != [] {
      var init, last := s[..|s| - 1], s[|s| - 1];
      FixedDigitsOfDigitsValue(init);
      var d := last as int - 48;
      DivModDigit(DigitsValue(init), d);
      assert DigitChar(d) == last;
      assert s == init + [last];
    }
  }

  lemma DivModDigit(x: nat, d: nat)
    requires d < 10
    ensures (x * 10 + d) / 10 == x && (x * 10 + d) % 10 == d
  {
  }

  lemma DivModRecombine(n: nat)
    ensures (n / 100) * 100 + n % 100 == n
  {
  }

  lemma AllDigitsAppend(a: string, b: string)
    requires AllDigits(a) && AllDigits(b)
    ensures AllDigits(a + b)
  {
  }

  lemma MulStep(va: int, vb: int, p: int, d: int)
    ensures (va * p + vb) * 10 + d == va * (10 * p) + (vb * 10 + d)
  {
  }

  lemma {:induction false} DigitsValueAppend(a: string, b: string)
    requires AllDigits(a) && AllDigits(b)
    ensures AllDigits(a + b)
    ensures DigitsValue(a + b) == DigitsValue(a) * Pow10(|b|) + DigitsValue(b)
  {
    AllDigitsAppend(a, b);
    if b != [] {
      var ab := a + b;
      var b' := b[..|b| - 1];
      assert ab[..|ab| - 1] == a + b';
      assert ab[|ab| - 1] == b[|b| - 1];
      AllDigitsAppend(a, b');
      DigitsValueAppend(a, b');
      var d := b[|b| - 1] as int - 48;
      assert DigitsValue(ab) == DigitsValue(a + b') * 10 + d;
      assert DigitsValue(b) == DigitsValue(b') * 10 + d;
      MulStep(DigitsValue(a), DigitsValue(b'), Pow10(|b'|), d);
    } else {
      assert a + b == a;
    }
  }

  /** Number of leading decimal digits. */
  function DigitRun(s: string): (n: nat)
    ensures n <= |s| && AllDigits(s[..n])
    ensures n < |s| ==> !IsDigit(s[n])
  {
    if s != [] && IsDigit(s[0]) then 1 + DigitRun(s[1..]) else 0
  }

  lemma {:induction false} DigitRunOfDigitsThen(d: string, rest: string)
    requires AllDigits(d)
    requires rest == [] || !IsDigit(rest[0])
    ensures DigitRun(d + rest) == |d|
  {
    if d != [] {
      assert (d + rest)[1..] == d[1..] + rest;
      DigitRunOfDigitsThen(d[1..], rest);
    } else {
      assert d + rest == rest;
    }
  }

  // ---------------------------------------------------------------- amounts

  /** `(cents / 100).toFixed(2)`: an optional sign, the integer part, a point and exactly two digits. */
  function FormatFixed2(cents: int): (s: string)
    ensures |s| >= 4
    ensures s[0] == '-' <==> cents < 0
    ensures cents >= 0 ==> IsDigit(s[0])
  {
    var a := if cents < 0 then -cents else cents;
    (if cents < 0 then "-" else "") + NatToString(a / 100) + "." + FixedDigits(a % 100, 2)
  }

  /** An exact decimal number: `units / 10^scale`. */
  datatype Decimal = Decimal(units: int, scale: nat)

  /** The fraction digits after a leading point, if `rest` starts with one. */
  function FractionDigits(rest: string): (f: string)
    ensures AllDigits(f)
  {
    if rest != [] && rest[0] == '.' then rest[1..][..DigitRun(rest[1..])] else []
  }

  /** `digits [. digits]` with at least one digit, read as far as it goes. */
  function ParseUnsignedDecimal(u: string): (r: Option<Decimal>)
    ensures r.Some? ==> r.value.units >= 0
  {
    var n := DigitRun(u);
    var frac := FractionDigits(u[n..]);
    if n + |frac| == 0 then None
    else
      DigitsValueAppend(u[..n], frac);
      Some(Decimal(DigitsValue(u[..n] + frac), |frac|))
  }

  /**
   * `parseFloat(s)`: skip leading whitespace, read an optional sign, then the
   * longest run `digits [. digits]` with at least one digit; `None` is NaN.
   */
  function ParseDecimal(s: string): (r: Option<Decimal>)
    ensures r.Some? ==> var t := TrimStart(s);
              t != [] && (IsDigit(t[0]) || t[0] == '.' || t[0] == '-' || t[0] == '+')
    ensures r.Some? && r.value.units < 0 ==> TrimStart(s)[0] == '-'
  {
    var t := TrimStart(s);
    if t != [] && (t[0] == '-' || t[0] == '+') then
      match ParseUnsignedDecimal(t[1..])
      case None => None
      case Some(d) => Some(if t[0] == '-' then Decimal(-d.units, d.scale) else d)
    else ParseUnsignedDecimal(t)
  }

  /**
   * The decimal rounded to whole cents, half away from zero: exact up to two
   * decimals; beyond that, `q` units of the decimal make a cent, and the units
   * left over are at most half a cent, with an exact half rounded away from zero.
   */
  function ToCents(d: Decimal): (r: int)
    ensures d.scale <= 2 ==> r * Pow10(d.scale) == 100 * d.units
    ensures d.scale > 2 ==> var q: int := Pow10(d.scale - 2);
              (d.units >= 0 ==> -q <= 2 * (d.units - r * q) < q)
              && (d.units < 0 ==> -q < 2 * (d.units - r * q) <= q)
  {
    if d.scale <= 2 then
      ExactCents(d.units, d.scale);
      d.units * Pow10(2 - d.scale)
    else
      var q: int := Pow10(d.scale - 2);
      if d.units >= 0 then
        var k := (2 * d.units + q) / (2 * q);
        RoundHalf(d.units, q, k);
        k
      else
        var k := (-2 * d.units + q) / (2 * q);
        RoundHalf(-d.units, q, k);
        -k
  }

  /** Up to two decimals, scaling to cents is exact. */
  lemma ExactCents(u: int, s: nat)
    requires s <= 2
    ensures (u * Pow10(2 - s)) * Pow10(s) == 100 * u
  {
    assert Pow10(0) == 1 && Pow10(1) == 10 && Pow10(2) == 100;
    if s == 0 {
    } else if s == 1 {
      assert (u * 10) * 10 == 100 * u;
    } else {
      assert (u * 1) * 100 == 100 * u;
    }
  }

  /** Rounding `u / q` by `(2u + q) div 2q` leaves a remainder of at least minus half and below half. */
  lemma RoundHalf(u: int, q: int, k: int)
    requires u >= 0 && q > 0 && k == (2 * u + q) / (2 * q)
    ensures -q <= 2 * (u - k * q) < q
  {
    var n, m := 2 * u + q, 2 * q;
    var rem := n % m;
    assert n == m * k + rem && 0 <= rem < m;
    assert m * k == 2 * (k * q);
  }

  /** `digits . digits` reads as the digits taken together, scaled by the fraction's length. */
  lemma ParseUnsignedPointed(ip: string, fp: string)
    requires AllDigits(ip) && AllDigits(fp) && ip != []
    ensures ParseUnsignedDecimal(ip + "." + fp) == Some(Decimal(DigitsValue(ip + fp), |fp|))
  {
    var tail := "." + fp;
    var u := ip + tail;
    assert ip + "." + fp == u;
    DigitRunOfDigitsThen(ip, tail);
    assert u[..|ip|] == ip && u[|ip|..] == tail;
    assert tail[1..] == fp;
    DigitRunOfDigitsThen(fp, []);
    assert fp + [] == fp;
    assert FractionDigits(tail) == fp;
  }

  lemma ParseUnsignedFixed2(cents: nat)
    ensures ParseUnsignedDecimal(NatToString(cents / 100) + "." + FixedDigits(cents % 100, 2))
            == Some(Decimal(cents, 2))
  {
    var q, r := cents / 100, cents % 100;
    var ip, fp := NatToString(q), FixedDigits(r, 2);
    assert Pow10(2) == 100;
    DigitsValueOfNatToString(q);
    DigitsValueOfFixedDigits(r, 2);
    ParseUnsignedPointed(ip, fp);
    DigitsValueAppend(ip, fp);
    DivModRecombine(cents);
    assert DigitsValue(ip + fp) == q * 100 + r == cents;
  }

  /** Text that starts with a digit is read without a sign. */
  lemma ParseDecimalOfDigitFirst(t: string)
    requires t != [] && IsDigit(t[0])
    ensures ParseDecimal(t) == ParseUnsignedDecimal(t)
  {
    assert !IsJsSpace(t[0]) && t[0] != '-' && t[0] != '+';
    assert TrimStart(t) == t;
  }

  /** `parseFloat` reads back what `toFixed(2)` writes, for every amount, negative ones included. */
  lemma ParseFixed2(cents: int)
    ensures ParseDecimal(FormatFixed2(cents)) == Some(Decimal(cents, 2))
    ensures ToCents(Decimal(cents, 2)) == cents
  {
    var a: nat := if cents < 0 then -cents else cents;
    var ip := NatToString(a / 100);
    var u := ip + "." + FixedDigits(a % 100, 2);
    ParseUnsignedFixed2(a);
    if cents < 0 {
      var s := "-" + u;
      assert FormatFixed2(cents) == s;
      assert !IsJsSpace(s[0]) && TrimStart(s) == s;
      assert s[1..] == u;
    } else {
      assert FormatFixed2(cents) == u;
      assert u[0] == ip[0];
      ParseDecimalOfDigitFirst(u);
    }
    assert Pow10(2) == 100;
  }
}
