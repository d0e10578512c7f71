/** The two JavaScript built-ins the client relies on: the whitespace set
    (ECMAScript's WhiteSpace and LineTerminator characters, which is also
    what `\s` matches in a regular expression) and `parseInt` without a
    radix argument. Numbers are unbounded integers here. */
module JsText {
  import opened Common

  predicate IsWhitespace(c: char) {
    var n := c as int;
    || (0x09 <= n <= 0x0D) || n == 0x20 || n == 0xA0 || n == 0x1680
    || (0x2000 <= n <= 0x200A) || n == 0x2028 || n == 0x2029 || n == 0x202F
    || n == 0x205F || n == 0x3000 || n == 0xFEFF
  }

  predicate IsDecimalDigit(c: char) {
    '0' <= c <= '9'
  }

  /** The two bases `parseInt` reads without a radix argument. */
  type Radix = r: nat | r == 10 || r == 16 witness 10

  /** The value of `c` as a digit in base 10 or 16, if it is one. */
  function DigitValue(c: char, radix: Radix): (d: Option<nat>)
    ensures d.Some? ==> d.value < radix
    ensures radix == 10 ==> (d.Some? <==> IsDecimalDigit(c))
  {
    if '0' <= c <= '9' && (c as int - '0' as int) < radix then Some(c as int - '0' as int)
    else if radix == 16 && 'a' <= c <= 'f' then Some(c as int - 'a' as int + 10)
    else if radix == 16 && 'A' <= c <= 'F' then Some(c as int - 'A' as int + 10)
    else None
  }

  /** `s` with its leading whitespace removed. */
  function TrimStart(s: string): (r: string)
    ensures |r| <= |s| && r == s[|s| - |r|..]
    ensures r == [] || !IsWhitespace(r[0])
    ensures forall i :: 0 <= i < |s| - |r| ==> IsWhitespace(s[i])
  {
    if s != [] && IsWhitespace(s[0]) then TrimStart(s[1..]) else s
  }

  /** The longest prefix of `s` made of digits in the radix. */
  function DigitPrefix(s: string, radix: Radix): (d: string)
    ensures |d| <= |s| && d == s[..|d|]
    ensures forall i :: 0 <= i < |d| ==> DigitValue(d[i], radix).Some?
    ensures |d| < |s| ==> DigitValue(s[|d|], radix).None?
  {
    if s == [] || DigitValue(s[0], radix).None? then [] else [s[0]] + DigitPrefix(s[1..], radix)
  }

  /** The number a digit string denotes in the radix. */
  function DigitsValue(d: string, radix: Radix): nat
    requires forall i :: 0 <= i < |d| ==> DigitValue(d[i], radix).Some?
  {
    if d == [] then 0
    else
      var init := d[..|d| - 1];
      assert forall i :: 0 <= i < |init| ==> init[i] == d[i];
      var high := DigitsValue(init, radix);
      (if radix == 16 then 16 * high else 10 * high) + DigitValue(d[|d| - 1], radix).value
  }

  /** `parseInt(s)`: skip leading whitespace, read an optional sign, then
      the digits of `ParseUnsigned`; no digit at all is NaN (`None`). */
  function ParseInt(s: string): Option<int> {
    var t := TrimStart(s);
    if t != [] && t[0] == '-' then
      match ParseUnsigned(t[1..])
      case None => None
      case Some(v) => Some(-(v as int))
    else if t != [] && t[0] == '+' then IntOf(ParseUnsigned(t[1..]))
    else IntOf(ParseUnsigned(t))
  }

  function IntOf(v: Option<nat>): Option<int> {
    match v
    case None => None
    case Some(n) => Some(n)
  }

  /** The unsigned part: base 16 after a `0x`/`0X` prefix, base 10
      otherwise, as many digits as there are. */
  function ParseUnsigned(u: string): Option<nat> {
    var hex := |u| >= 2 && u[0] == '0' && (u[1] == 'x' || u[1] == 'X');
    var radix: Radix := if hex then 16 else 10;
    var d := DigitPrefix(if hex then u[2..] else u, radix);
    if d == [] then None else Some(DigitsValue(d, radix))
  }

  /** The decimal digits of a natural number, most significant first. */
  function NatDigits(n: nat): (s: string)
    ensures s != []
    ensures forall i :: 0 <= i < |s| ==> IsDecimalDigit(s[i])
    ensures |s| > 1 ==> s[0] != '0'
  {
    if n < 10 then ['0' + n as char] else NatDigits(n / 10) + ['0' + (n % 10) as char]
  }

  /** How an integer is written in decimal (`String(n)`). */
  function ShowInt(n: int): string {
    if n < 0 then "-" + NatDigits(-n) else NatDigits(n)
  }

  lemma {:induction false} DigitsValueOfNatDigits(n: nat)
    ensures DigitsValue(NatDigits(n), 10) == n
  {
    if n >= 10 {
      var s := NatDigits(n);
      DigitsValueOfNatDigits(n / 10);
      assert s[..|s| - 1] == NatDigits(n / 10);
    }
  }

  /** A digit string followed by something that is not a digit is read whole. */
  lemma {:induction false} DigitPrefixOfDigits(d: string, rest: string, radix: Radix)
    requires forall i :: 0 <= i < |d| ==> DigitValue(d[i], radix).Some?
    requires rest == [] || DigitValue(rest[0], radix).None?
    ensures DigitPrefix(d + rest, radix) == d
  {
    if d != [] {
      assert (d + rest)[1..] == d[1..] + rest;
      DigitPrefixOfDigits(d[1..], rest, radix);
    } else {
      assert d + rest == rest;
    }
  }

  /** The unsigned part of a decimal numeral is its value. */
  lemma ParseUnsignedNatDigits(m: nat, rest: string)
    requires rest == [] || (!IsDecimalDigit(rest[0]) && rest[0] != 'x' && rest[0] != 'X')
    ensures ParseUnsigned(NatDigits(m) + rest) == Some(m)
  {
    var digits := NatDigits(m);
    var u := digits + rest;
    assert !(|u| >= 2 && u[0] == '0' && (u[1] == 'x' || u[1] == 'X')) by {
      if |digits| > 1 {
        assert u[1] == digits[1];
      } else if |u| >= 2 {
        assert u[1] == rest[0];
      }
    }
    DigitPrefixOfDigits(digits, rest, 10);
    DigitsValueOfNatDigits(m);
  }

  /** A string starting with a sign or a digit has no whitespace to skip. */
  lemma TrimStartNoWhitespace(s: string)
    requires s != [] && (s[0] == '-' || IsDecimalDigit(s[0]))
    ensures TrimStart(s) == s
  {
  }

  lemma ParseIntNegative(s: string, m: nat)
    requires s != [] && s[0] == '-' && ParseUnsigned(s[1..]) == Some(m)
    ensures ParseInt(s) == Some(-(m as int))
  {
    TrimStartNoWhitespace(s);
  }

  lemma ParseIntNonNegative(s: string, m: nat)
    requires s != [] && IsDecimalDigit(s[0]) && ParseUnsigned(s) == Some(m)
    ensures ParseInt(s) == Some(m)
  {
    TrimStartNoWhitespace(s);
  }

  /** How a negative number is written, split at the sign. */
  lemma ShowNegative(m: nat, rest: string)
    requires m > 0
    ensures ShowInt(-(m as int)) + rest == ['-'] + (NatDigits(m) + rest)
  {
  }

  /** A minus sign in front of a digit string negates what it reads. */
  lemma ParseIntMinus(u: string, m: nat)
    requires u != [] && IsDecimalDigit(u[0]) && ParseUnsigned(u) == Some(m)
    ensures ParseInt(['-'] + u) == Some(-(m as int))
  {
    var s := ['-'] + u;
    assert s[1..] == u;
    ParseIntNegative(s, m);
  }

  lemma ParseIntShowNegative(m: nat, rest: string)
    requires rest == [] || (!IsDecimalDigit(rest[0]) && rest[0] != 'x' && rest[0] != 'X')
    ensures ParseInt(['-'] + (NatDigits(m) + rest)) == Some(-(m as int))
  {
    var u := NatDigits(m) + rest;
    ParseUnsignedNatDigits(m, rest);
    assert u[0] == NatDigits(m)[0];
    ParseIntMinus(u, m);
  }

  lemma ParseIntShowNonNegative(n: nat, rest: string)
    requires rest == [] || (!IsDecimalDigit(rest[0]) && rest[0] != 'x' && rest[0] != 'X')
    ensures ParseInt(ShowInt(n) + rest) == Some(n)
  {
    var u := NatDigits(n) + rest;
    ParseUnsignedNatDigits(n, rest);
    assert u[0] == NatDigits(n)[0];
    ParseIntNonNegative(u, n);
  }

  /** `parseInt` reads back what `String` writes, also when the number is
      followed by text that cannot continue it (`parseInt("2 guests")` is 2). */
  lemma ParseIntShowInt(n: int, rest: string)
    requires rest == [] || (!IsDecimalDigit(rest[0]) && rest[0] != 'x' && rest[0] != 'X')
    ensures ParseInt(ShowInt(n) + rest) == Some(n)
  {
    if n < 0 {
      var m: nat := -n;
      ShowNegative(m, rest);
      ParseIntShowNegative(m, rest);
    } else {
      ParseIntShowNonNegative(n, rest);
    }
  }
}
