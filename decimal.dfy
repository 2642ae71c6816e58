/** Number formatting and parsing used for system ids: `i.toString()`,
    `padStart(3, '0')`, and `parseInt` without a radix as section 19.2.5
    of ECMA-262 defines it. */
module DecimalText {
  import opened Common

  predicate IsDigit(c: char) { '0' <= c <= '9' }

  /** A digit in base `radix`: `0`-`9`, and in base 16 also `a`-`f` and
      `A`-`F`. `parseInt` without a radix reads base 10 or base 16. */
  predicate IsDigitIn(c: char, radix: nat)
  {
    IsDigit(c) || (radix == 16 && ('a' <= c <= 'f' || 'A' <= c <= 'F'))
  }

  predicate AllDigits(s: string, radix: nat) { forall k :: 0 <= k < |s| ==> IsDigitIn(s[k], radix) }

  function DigitChar(d: nat): (c: char)
    requires d < 10
    ensures IsDigit(c)
  {
    ('0' as int + d) as char
  }

  function DigitValue(c: char, radix: nat): nat
    requires IsDigitIn(c, radix)
  {
    if IsDigit(c) then c as int - '0' as int
    else if 'a' <= c <= 'f' then c as int - 'a' as int + 10
    else c as int - 'A' as int + 10
  }

  /** `n.toString()` for a natural number. */
  function Decimal(n: nat): string
  {
    if n < 10 then [DigitChar(n)] else Decimal(n / 10) + [DigitChar(n % 10)]
  }

  /** `s.padStart(width, c)` with a one-character pad. */
  function PadStart(s: string, width: nat, c: char): string
  {
    if |s| >= width then s else seq(width - |s|, _ => c) + s
  }

  /** The padded text is `width` long unless `s` is longer, ends with `s` and
      is made of `c` before it. */
  lemma PadStartShape(s: string, width: nat, c: char)
    ensures var r := PadStart(s, width, c);
      && |r| == (if |s| >= width then |s| else width)
      && r[|r| - |s|..] == s
      && forall k :: 0 <= k < |r| - |s| ==> r[k] == c
  {
  }

  /** The value of a string of digits in base `radix`. */
  function DigitsValue(s: string, radix: nat): nat
    requires AllDigits(s, radix)
  {
    if s == [] then 0 else DigitsValue(s[..|s| - 1], radix) * radix + DigitValue(s[|s| - 1], radix)
  }

  /** The longest prefix of `s` made of digits in base `radix`. */
  function LeadingDigits(s: string, radix: nat): string
  {
    if s == [] || !IsDigitIn(s[0], radix) then [] else [s[0]] + LeadingDigits(s[1..], radix)
  }

  /** The prefix is made of digits and is followed by a non-digit, if
      anything. */
  lemma {:induction false} LeadingDigitsPrefix(s: string, radix: nat)
    ensures var r := LeadingDigits(s, radix);
      && |r| <= |s| && r == s[..|r|] && AllDigits(r, radix)
      && (|r| < |s| ==> !IsDigitIn(s[|r|], radix))
  {
    if s != [] && IsDigitIn(s[0], radix) {
      LeadingDigitsPrefix(s[1..], radix);
    }
  }

  /** A digit run followed by a non-digit, or by nothing, is the whole
      leading run. */
  lemma {:induction false} LeadingDigitsOf(d: string, rest: string, radix: nat)
    requires AllDigits(d, radix)
    requires rest == [] || !IsDigitIn(rest[0], radix)
    ensures LeadingDigits(d + rest, radix) == d
  {
    if d == [] {
      assert d + rest == rest;
    } else {
      assert (d + rest)[1..] == d[1..] + rest;
      LeadingDigitsOf(d[1..], rest, radix);
    }
  }

  /** A StrWhiteSpaceChar of ECMA-262: white space (tab, vertical tab, form
      feed, the byte order mark and the space separators of Unicode) or a
      line terminator. */
  predicate IsSpace(c: char)
  {
    c == '\t' || c == '\n' || c == '\U{B}' || c == '\U{C}' || c == '\r' || c == ' '
    || c == '\U{A0}' || c == '\U{1680}' || ('\U{2000}' <= c <= '\U{200A}')
    || c == '\U{2028}' || c == '\U{2029}' || c == '\U{202F}' || c == '\U{205F}'
    || c == '\U{3000}' || c == '\U{FEFF}'
  }

  /** `s` without its leading white space. */
  function TrimStart(s: string): string
  {
    if s != [] && IsSpace(s[0]) then TrimStart(s[1..]) else s
  }

  /** The trimmed text is a suffix of `s`, only white space is removed, and
      it does not start with white space. */
  lemma {:induction false} TrimStartShape(s: string)
    ensures var r := TrimStart(s);
      && |r| <= |s| && r == s[|s| - |r|..]
      && (forall k :: 0 <= k < |s| - |r| ==> IsSpace(s[k]))
      && (r == [] || !IsSpace(r[0]))
  {
    if s != [] && IsSpace(s[0]) {
      var rest := s[1..];
      TrimStartShape(rest);
      var r := TrimStart(rest);
      assert TrimStart(s) == r;
      assert rest[|rest| - |r|..] == s[|s| - |r|..];
      forall k | 0 <= k < |s| - |r|
        ensures IsSpace(s[k])
      {
        if k > 0 {
          assert s[k] == rest[k - 1];
        }
      }
    }
  }

  /** White space in front of a text that does not start with any is
      removed, and nothing else. */
  lemma {:induction false} TrimStartOf(w: string, t: string)
    requires forall k :: 0 <= k < |w| ==> IsSpace(w[k])
    requires t == [] || !IsSpace(t[0])
    ensures TrimStart(w + t) == t
  {
    if w == [] {
      assert w + t == t;
    } else {
      assert (w + t)[1..] == w[1..] + t;
      TrimStartOf(w[1..], t);
    }
  }

  /** `0x` or `0X` at the start of the text after the sign. */
  predicate HexPrefixed(s: string)
  {
    |s| >= 2 && s[0] == '0' && (s[1] == 'x' || s[1] == 'X')
  }

  /** The number after the sign: base 16 after a `0x` or `0X` prefix and
      base 10 otherwise, read from the longest run of digits; `None` when
      that run is empty. */
  function ParseUnsigned(u: string): Option<nat>
  {
    var radix := if HexPrefixed(u) then 16 else 10;
    var body := if HexPrefixed(u) then u[2..] else u;
    var digits := LeadingDigits(body, radix);
    LeadingDigitsPrefix(body, radix);
    if digits == [] then None else Some(DigitsValue(digits, radix))
  }

  /** The texts `parseInt` accepts as a sign. */
  predicate IsSign(sign: string) { sign == [] || sign == "+" || sign == "-" }

  function Signed(sign: string, n: nat): int
  {
    if sign == "-" then -(n as int) else n
  }

  /** `parseInt(s)`: skip leading white space, read an optional sign, then
      the number after it. `None` stands for NaN. */
  function ParseInt(s: string): Option<int>
  {
    var t := TrimStart(s);
    var sign := if t != [] && (t[0] == '-' || t[0] == '+') then [t[0]] else [];
    match ParseUnsigned(t[|sign|..])
    case None => None
    case Some(n) => Some(Signed(sign, n))
  }

  /** White space, a sign and a text that starts with neither read as that
      text's number with the sign. */
  lemma ParseIntParts(w: string, sign: string, u: string)
    requires forall k :: 0 <= k < |w| ==> IsSpace(w[k])
    requires IsSign(sign)
    requires u == [] || !(IsSpace(u[0]) || u[0] == '+' || u[0] == '-')
    ensures ParseInt(w + sign + u) ==
      match ParseUnsigned(u)
      case None => None
      case Some(n) => Some(Signed(sign, n))
  {
    var t := sign + u;
    assert w + sign + u == w + t;
    TrimStartOf(w, t);
    assert t[|sign|..] == u;
  }

  /** Decimal digits and then anything that is not a digit read as the
      digits' value; a lone `0` followed by `x` or `X` starts a hexadecimal
      number instead. */
  lemma UnsignedDecimal(d: string, rest: string)
    requires d != [] && AllDigits(d, 10)
    requires rest == [] || !IsDigit(rest[0])
    requires !(d == "0" && rest != [] && (rest[0] == 'x' || rest[0] == 'X'))
    ensures ParseUnsigned(d + rest) == Some(DigitsValue(d, 10))
  {
    var u := d + rest;
    assert !HexPrefixed(u) by {
      if |u| >= 2 && |d| >= 2 {
        assert u[1] == d[1] && IsDigitIn(d[1], 10);
      }
      if |u| >= 2 && |d| == 1 {
        assert u[1] == rest[0];
      }
    }
    LeadingDigitsOf(d, rest, 10);
  }

  /** White space, a sign, decimal digits and then anything that is not a
      digit read as the digits' value with the sign, unless the digits are a
      lone `0` followed by `x` or `X`. */
  lemma ParseIntDecimal(w: string, sign: string, d: string, rest: string)
    requires forall k :: 0 <= k < |w| ==> IsSpace(w[k])
    requires IsSign(sign)
    requires d != [] && AllDigits(d, 10)
    requires rest == [] || !IsDigit(rest[0])
    requires !(d == "0" && rest != [] && (rest[0] == 'x' || rest[0] == 'X'))
    ensures ParseInt(w + sign + d + rest) == Some(Signed(sign, DigitsValue(d, 10)))
  {
    assert IsDigitIn(d[0], 10);
    assert (d + rest)[0] == d[0];
    assert w + sign + d + rest == w + sign + (d + rest);
    ParseIntParts(w, sign, d + rest);
    UnsignedDecimal(d, rest);
  }

  /** White space, a sign, `0x` or `0X`, hexadecimal digits and then
      anything that is not one read as the digits' value in base 16 with the
      sign. */
  lemma ParseIntHex(w: string, sign: string, x: char, d: string, rest: string)
    requires forall k :: 0 <= k < |w| ==> IsSpace(w[k])
    requires IsSign(sign) && (x == 'x' || x == 'X')
    requires d != [] && AllDigits(d, 16)
    requires rest == [] || !IsDigitIn(rest[0], 16)
    ensures ParseInt(w + sign + ['0', x] + d + rest) == Some(Signed(sign, DigitsValue(d, 16)))
  {
    var u := ['0', x] + d + rest;
    assert w + sign + ['0', x] + d + rest == w + sign + u;
    ParseIntParts(w, sign, u);
    assert u[2..] == d + rest;
    LeadingDigitsOf(d, rest, 16);
  }

  /** With no digit where the number should start, after the sign or after a
      `0x` prefix, `parseInt` gives NaN. */
  lemma ParseIntNaN(w: string, sign: string, rest: string)
    requires forall k :: 0 <= k < |w| ==> IsSpace(w[k])
    requires IsSign(sign)
    requires rest == [] || !(IsDigit(rest[0]) || IsSpace(rest[0]) || rest[0] == '+' || rest[0] == '-')
    ensures ParseInt(w + sign + rest) == None
    ensures forall x :: (x == 'x' || x == 'X') && (rest == [] || !IsDigitIn(rest[0], 16)) ==>
      ParseInt(w + sign + ['0', x] + rest) == None
  {
    ParseIntParts(w, sign, rest);
    forall x | (x == 'x' || x == 'X') && (rest == [] || !IsDigitIn(rest[0], 16))
      ensures ParseInt(w + sign + ['0', x] + rest) == None
    {
      var u := ['0', x] + rest;
      assert w + sign + ['0', x] + rest == w + sign + u;
      ParseIntParts(w, sign, u);
      assert u[2..] == rest;
    }
  }

  lemma {:induction false} ZerosValue(z: string)
    requires forall k :: 0 <= k < |z| ==> z[k] == '0'
    ensures AllDigits(z, 10) && DigitsValue(z, 10) == 0
  {
    if z != [] {
      ZerosValue(z[..|z| - 1]);
    }
  }

  /** Leading zeros do not change the value. */
  lemma {:induction false} LeadingZerosValue(z: string, s: string)
    requires forall k :: 0 <= k < |z| ==> z[k] == '0'
    requires AllDigits(s, 10)
    ensures AllDigits(z + s, 10) && DigitsValue(z + s, 10) == DigitsValue(s, 10)
  {
    if s == [] {
      assert z + s == z;
      ZerosValue(z);
    } else {
      assert (z + s)[..|z + s| - 1] == z + s[..|s| - 1];
      LeadingZerosValue(z, s[..|s| - 1]);
    }
  }

  /** `toString` writes at least one character, all digits, and reading them
      back gives the number. */
  lemma {:induction false} DecimalValue(n: nat)
    ensures |Decimal(n)| >= 1 && AllDigits(Decimal(n), 10)
    ensures DigitsValue(Decimal(n), 10) == n
  {
    if n >= 10 {
      DecimalValue(n / 10);
      var d := Decimal(n / 10) + [DigitChar(n % 10)];
      assert d[..|d| - 1] == Decimal(n / 10);
    }
  }

  lemma PaddedDecimalValue(n: nat, width: nat)
    ensures |PadStart(Decimal(n), width, '0')| >= width
    ensures AllDigits(PadStart(Decimal(n), width, '0'), 10)
    ensures DigitsValue(PadStart(Decimal(n), width, '0'), 10) == n
  {
    var d := Decimal(n);
    DecimalValue(n);
    var p := PadStart(d, width, '0');
    PadStartShape(d, width, '0');
    var z := p[..|p| - |d|];
    assert p == z + d;
    LeadingZerosValue(z, d);
  }

  /** `parseInt` undoes `toString` followed by `padStart` with zeros. */
  lemma PaddedDecimalParses(n: nat, width: nat)
    ensures ParseInt(PadStart(Decimal(n), width, '0')) == Some(n)
  {
    var p := PadStart(Decimal(n), width, '0');
    PaddedDecimalValue(n, width);
    ParseIntDecimal([], [], p, []);
    assert [] + [] + p + [] == p;
  }

  /** The text after the last separator of `u + t`, where `u` ends with it and
      `t` does not contain it, is `t`. */
  lemma {:induction false} AfterLastOfJoined(u: string, t: string, c: char)
    requires u != [] && u[|u| - 1] == c && c !in t
    ensures AfterLast(u + t, c) == t
  {
    if t == [] {
      assert u + t == u;
    } else {
      assert (u + t)[..|u + t| - 1] == u + t[..|t| - 1];
      AfterLastOfJoined(u, t[..|t| - 1], c);
      assert t == t[..|t| - 1] + [t[|t| - 1]];
    }
  }
}
