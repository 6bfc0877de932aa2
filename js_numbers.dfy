/** The two JavaScript number conversions the lead list relies on, restricted to
    integers: `Number.prototype.toString()` (base 10) and `parseInt` called
    without a radix. */
module JsNumbers {
  import opened Optional

  /** `Number.MAX_SAFE_INTEGER`: up to this magnitude every integer is a double and
      `toString` prints it digit for digit. */
  const MaxSafeInteger: int := 9007199254740991

  /** The two radixes `parseInt` chooses between when it is given none. */
  type Radix = r: nat | r == 10 || r == 16 witness 10

  predicate IsDigit(c: char) {
    '0' <= c <= '9'
  }

  /** A digit of radix `radix`; hexadecimal letters in either case. */
  predicate IsDigitOf(c: char, radix: Radix) {
    IsDigit(c) || (radix == 16 && ('a' <= c <= 'f' || 'A' <= c <= 'F'))
  }

  predicate AllDigits(s: string, radix: Radix) {
    forall i :: 0 <= i < |s| ==> IsDigitOf(s[i], radix)
  }

  function DigitChar(d: nat): (c: char)
    requires d < 10
    ensures IsDigit(c)
  {
    ('0' as int + d) as char
  }

  function DigitValue(c: char, radix: Radix): (d: nat)
    requires IsDigitOf(c, radix)
    ensures d < radix
  {
    if IsDigit(c) then c as int - '0' as int
    else if 'a' <= c <= 'f' then c as int - 'a' as int + 10
    else c as int - 'A' as int + 10
  }

  /** Decimal digits of a natural number, most significant first, without leading zeros. */
  function NatToString(n: nat): (s: string)
    ensures |s| >= 1 && AllDigits(s, 10)
    ensures s[0] == '0' <==> n == 0
    decreases n
  {
    if n < 10 then [DigitChar(n)] else NatToString(n / 10) + [DigitChar(n % 10)]
  }

  /** `n.toString()` for an integer `n`. */
  function IntToString(n: int): string {
    if n < 0 then "-" + NatToString(-n) else NatToString(n)
  }

  /** `toString` writes a minus sign exactly for negative numbers, then decimal digits
      with no leading zero. */
  lemma ToStringShape(n: int)
    ensures var s := IntToString(n);
      |s| >= 1 && (s[0] == '-' <==> n < 0) &&
      var digits := if n < 0 then s[1..] else s;
      |digits| >= 1 && AllDigits(digits, 10) && (digits[0] == '0' <==> n == 0)
  {
    if n < 0 {
      assert IntToString(n)[1..] == NatToString(-n);
    }
  }

  /** The longest prefix of `s` made of digits of radix `radix`. */
  function DigitPrefix(s: string, radix: Radix): (p: string)
    ensures |p| <= |s| && p == s[..|p|] && AllDigits(p, radix)
    ensures |p| < |s| ==> !IsDigitOf(s[|p|], radix)
  {
    if s != [] && IsDigitOf(s[0], radix) then [s[0]] + DigitPrefix(s[1..], radix) else []
  }

  /** The number a string of digits denotes in radix `radix`. */
  function DigitsValue(ds: string, radix: Radix): nat
    requires AllDigits(ds, radix)
  {
    if ds == [] then 0 else radix * DigitsValue(ds[..|ds| - 1], radix) + DigitValue(ds[|ds| - 1], radix)
  }

  /** `s` with one leading sign character removed. */
  function Unsigned(s: string): string {
    if s != [] && (s[0] == '-' || s[0] == '+') then s[1..] else s
  }

  /** Does the unsigned part begin with `0x` or `0X`? */
  predicate HexPrefixed(u: string) {
    |u| >= 2 && u[0] == '0' && (u[1] == 'x' || u[1] == 'X')
  }

  /** `parseInt(s)` without a radix: an optional sign, then, after `0x` or `0X`, the
      longest run of hexadecimal digits, otherwise the longest run of decimal digits.
      `None` stands for NaN, when that run is empty. Leading white space, which
      `parseInt` skips, is not modelled. */
  function ParseInt(s: string): (r: Option<int>)
    ensures r.Some? && r.value < 0 ==> s != [] && s[0] == '-'
    ensures AllDigits(s, 10) && s != [] ==> r.Some? && r.value >= 0
  {
    var negative := s != [] && s[0] == '-';
    var u := Unsigned(s);
    var radix: Radix := if HexPrefixed(u) then 16 else 10;
    var digits := DigitPrefix(if HexPrefixed(u) then u[2..] else u, radix);
    if digits == [] then None
    else
      var magnitude: int := DigitsValue(digits, radix);
      Some(if negative then -magnitude else magnitude)
  }

  lemma {:induction false} NatToStringValue(n: nat)
    ensures DigitsValue(NatToString(n), 10) == n
    decreases n
  {
    var s := NatToString(n);
    if n >= 10 {
      NatToStringValue(n / 10);
      assert s[..|s| - 1] == NatToString(n / 10);
    }
  }

  lemma {:induction false} AllDigitsPrefix(s: string, radix: Radix)
    requires AllDigits(s, radix)
    ensures DigitPrefix(s, radix) == s
    decreases |s|
  {
    if s != [] {
      AllDigitsPrefix(s[1..], radix);
    }
  }

  /** `parseInt(n.toString())` gives `n` back for every safe integer `n`. */
  lemma ParseIntOfToString(n: int)
    requires -MaxSafeInteger <= n <= MaxSafeInteger
    ensures ParseInt(IntToString(n)) == Some(n)
  {
    var m: nat := if n < 0 then -n else n;
    var digits := NatToString(m);
    AllDigitsPrefix(digits, 10);
    NatToStringValue(m);
    assert Unsigned(IntToString(n)) == digits;
    assert !HexPrefixed(digits) by {
      if |digits| >= 2 {
        assert IsDigitOf(digits[1], 10);
      }
    }
  }

  /** `parseInt` stops at the first character that is not a digit, so `"2.5"` and
      `"2abc"` read as 2. A number followed by such a rest reads as that number, except
      that `0` followed by `x` or `X` starts a hexadecimal literal. */
  lemma ParseIntStopsAtNonDigit(n: nat, rest: string)
    requires rest == [] || !IsDigit(rest[0])
    requires n == 0 ==> rest == [] || (rest[0] != 'x' && rest[0] != 'X')
    ensures ParseInt(NatToString(n) + rest) == Some(n)
  {
    var digits := NatToString(n);
    var s := digits + rest;
    assert Unsigned(s) == s;
    assert !HexPrefixed(s) by {
      if |s| >= 2 && s[0] == '0' {
        assert n == 0 && |digits| == 1;
        assert s[1] == rest[0];
      }
    }
    AllDigitsPrefix(digits, 10);
    DigitPrefixStops(digits, rest);
    NatToStringValue(n);
  }

  lemma {:induction false} DigitPrefixStops(digits: string, rest: string)
    requires AllDigits(digits, 10)
    requires rest == [] || !IsDigit(rest[0])
    ensures DigitPrefix(digits + rest, 10) == digits
    decreases |digits|
  {
    if digits == [] {
      assert digits + rest == rest;
    } else {
      assert (digits + rest)[1..] == digits[1..] + rest;
      DigitPrefixStops(digits[1..], rest);
    }
  }

  /** What `parseInt` makes of a few query-string values: hexadecimal after `0x`,
      the sign applied to it, a fraction cut off, and NaN for no digits. */
  lemma ParseIntExamples()
    ensures ParseInt("0x10") == Some(16)
    ensures ParseInt("-0x2") == Some(-2)
    ensures ParseInt("2.5") == Some(2)
    ensures ParseInt("0x") == None && ParseInt("abc") == None && ParseInt("") == None
  {
    assert HexPrefixed("0x10") && "0x10"[2..] == "10";
    assert DigitPrefix("10", 16) == "10";
    assert DigitsValue("10", 16) == 16 by {
      assert "10"[..1] == "1";
    }
    assert DigitPrefix("2", 16) == "2";
    assert DigitPrefix("2.5", 10) == "2";
  }
}
