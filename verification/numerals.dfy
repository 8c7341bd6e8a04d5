/** JavaScript's `parseInt(s)` (no radix) and the decimal rendering of an
    integer `Number`, which the arrival labels and the metro comparator
    depend on. */
module Numerals {
  import opened Wrappers

  predicate IsDigit(c: char) {
    '0' <= c <= '9'
  }

  predicate AllDigits(s: string) {
    forall i :: 0 <= i < |s| ==> IsDigit(s[i])
  }

  /** `s` contains no decimal digit at all. */
  predicate NoDigits(s: string) {
    forall i :: 0 <= i < |s| ==> !IsDigit(s[i])
  }

  /** White space and line terminators that `parseInt` skips (the
      ECMAScript StrWhiteSpaceChar set). */
  predicate IsJsWhitespace(c: char) {
    var n := c as int;
    n == 0x09 || n == 0x0A || n == 0x0B || n == 0x0C || n == 0x0D || n == 0x20
    || n == 0xA0 || n == 0x1680 || (0x2000 <= n <= 0x200A) || n == 0x2028
    || n == 0x2029 || n == 0x202F || n == 0x205F || n == 0x3000 || n == 0xFEFF
  }

  function DigitValue(c: char): nat
    requires IsDigit(c)
  {
    (c as int) - ('0' as int)
  }

  function DigitChar(d: nat): (c: char)
    requires d < 10
    ensures IsDigit(c) && DigitValue(c) == d
  {
    (('0' as int) + d) as char
  }

  /** Value of a non-empty hexadecimal digit, or None. */
  function HexDigitValue(c: char): Option<nat> {
    if IsDigit(c) then Some(DigitValue(c))
    else if 'a' <= c <= 'f' then Some((c as int) - ('a' as int) + 10)
    else if 'A' <= c <= 'F' then Some((c as int) - ('A' as int) + 10)
    else None
  }

  /** Drops the leading white space; the result is a suffix of `s`. */
  function TrimStart(s: string): (r: string)
    ensures |r| <= |s| && r == s[|s| - |r|..]
    ensures |r| > 0 ==> !IsJsWhitespace(r[0])
    ensures |s| > 0 && !IsJsWhitespace(s[0]) ==> r == s
  {
    if |s| > 0 && IsJsWhitespace(s[0]) then TrimStart(s[1..]) else s
  }

  /** The maximal prefix of decimal digits. */
  function LeadingDigits(s: string): (r: string)
    ensures |r| <= |s| && r == s[..|r|] && AllDigits(r)
    ensures |r| < |s| ==> !IsDigit(s[|r|])
  {
    if |s| > 0 && IsDigit(s[0]) then [s[0]] + LeadingDigits(s[1..]) else []
  }

  /** The maximal prefix of hexadecimal digits. */
  function LeadingHexDigits(s: string): (r: string)
    ensures |r| <= |s| && r == s[..|r|]
    ensures forall i :: 0 <= i < |r| ==> HexDigitValue(r[i]).Some?
  {
    if |s| > 0 && HexDigitValue(s[0]).Some? then [s[0]] + LeadingHexDigits(s[1..]) else []
  }

  /** Decimal value of a digit string, most significant digit first. */
  function DigitsValue(ds: string): nat
    requires AllDigits(ds)
    decreases |ds|
  {
    if |ds| == 0 then 0 else DigitsValue(ds[..|ds| - 1]) * 10 + DigitValue(ds[|ds| - 1])
  }

  /** Hexadecimal value of a hex-digit string, most significant digit first. */
  function HexValue(hs: string): nat
    requires forall i :: 0 <= i < |hs| ==> HexDigitValue(hs[i]).Some?
    decreases |hs|
  {
    if |hs| == 0 then 0 else HexValue(hs[..|hs| - 1]) * 16 + HexDigitValue(hs[|hs| - 1]).value
  }

  /** `u` starts with `0x` or `0X`. */
  predicate HexPrefixed(u: string) {
    |u| >= 2 && u[0] == '0' && (u[1] == 'x' || u[1] == 'X')
  }

  /** The value of the longest run of decimal digits `u` starts with. */
  function DecimalValue(u: string): nat {
    DigitsValue(LeadingDigits(u))
  }

  /** `u` starts with a decimal digit and is not `0x`-prefixed. */
  predicate StartsDecimal(u: string) {
    |u| > 0 && IsDigit(u[0]) && !HexPrefixed(u)
  }

  /** The value of the longest run of hexadecimal digits `u` starts with;
      none when it starts with no hexadecimal digit. */
  function HexMagnitude(u: string): Option<nat> {
    var h := LeadingHexDigits(u);
    if |h| == 0 then None else Some(HexValue(h))
  }

  /** `u` starts with a digit or a sign, the only starts `parseInt` reads
      a number from. */
  predicate StartsNumber(u: string) {
    |u| > 0 && (IsDigit(u[0]) || u[0] == '+' || u[0] == '-')
  }

  /** `u` is a minus sign followed by a decimal number. */
  predicate NegativeDecimal(u: string) {
    |u| > 0 && u[0] == '-' && StartsDecimal(u[1..])
  }

  /** Unsigned part of `parseInt`: a `0x`/`0X` prefix selects radix 16,
      otherwise radix 10; no digit at all gives NaN (None). */
  function ParseMagnitude(u: string): Option<nat> {
    if HexPrefixed(u) then HexMagnitude(u[2..])
    else
      var d := LeadingDigits(u);
      if |d| == 0 then None else Some(DigitsValue(d))
  }

  function Negate(m: Option<nat>): Option<int> {
    match m
    case None => None
    case Some(v) => Some(-(v as int))
  }

  function Widen(m: Option<nat>): Option<int> {
    match m
    case None => None
    case Some(v) => Some(v as int)
  }

  /** `parseInt` after the leading white space: an optional sign, then
      the magnitude. */
  function ParseSigned(t: string): Option<int> {
    if |t| > 0 && t[0] == '-' then Negate(ParseMagnitude(t[1..]))
    else if |t| > 0 && t[0] == '+' then Widen(ParseMagnitude(t[1..]))
    else Widen(ParseMagnitude(t))
  }

  lemma NoDigitsSuffix(s: string, k: nat)
    requires NoDigits(s) && k <= |s|
    ensures NoDigits(s[k..])
  {
    forall i | 0 <= i < |s| - k ensures !IsDigit(s[k..][i]) {
      assert s[k..][i] == s[k + i];
    }
  }

  /** `parseInt(s)` with the radix omitted; None stands for NaN. Values are
      exact integers (the source's double rounding of huge numbers is not
      modelled). After the leading white space: a first character other
      than a digit or a sign is NaN; a decimal number is the value of the
      longest run of leading digits, whatever follows; `0x` switches to
      hexadecimal (`-` negates, see ParseIntNegativeDecimal). A string
      without any digit never parses. */
  function ParseInt(s: string): (r: Option<int>)
    ensures NoDigits(s) ==> r.None?
    ensures var t := TrimStart(s);
      !StartsNumber(t) ==> r.None?
    ensures var t := TrimStart(s);
      StartsDecimal(t) ==> r == Some(DecimalValue(t) as int)
    ensures var t := TrimStart(s);
      HexPrefixed(t) ==>
        r == Widen(HexMagnitude(t[2..]))
  {
    SignedCases(TrimStart(s));
    TrimmedNoDigits(s);
    ParseSigned(TrimStart(s))
  }

  /** A minus sign after the white space, then decimal digits: the
      negated value of the longest run of those digits. */
  lemma ParseIntNegativeDecimal(s: string)
    requires NegativeDecimal(TrimStart(s))
    ensures ParseInt(s) == Some(-(DecimalValue(TrimStart(s)[1..]) as int))
  {
    ParseIntIsSignedTrim(s);
    SignedNegative(TrimStart(s));
  }

  lemma ParseIntIsSignedTrim(s: string)
    ensures ParseInt(s) == ParseSigned(TrimStart(s))
  {
  }

  lemma TrimmedNoDigits(s: string)
    ensures NoDigits(s) ==> ParseSigned(TrimStart(s)).None?
  {
    if NoDigits(s) {
      var t := TrimStart(s);
      NoDigitsSuffix(s, |s| - |t|);
      SignedOfNoDigits(t);
    }
  }

  /** The cases of `ParseSigned`, stated on the text after the white space. */
  lemma SignedNone(t: string)
    requires !StartsNumber(t)
    ensures ParseSigned(t).None?
  {
    if |t| > 0 {
      assert !HexPrefixed(t);
      assert LeadingDigits(t) == [];
    }
  }

  lemma SignedDecimal(t: string)
    requires StartsDecimal(t)
    ensures ParseSigned(t) == Some(DecimalValue(t) as int)
  {
    assert |LeadingDigits(t)| > 0;
    assert ParseMagnitude(t) == Some(DigitsValue(LeadingDigits(t)));
  }

  lemma SignedNegative(t: string)
    requires NegativeDecimal(t)
    ensures ParseSigned(t) == Some(-(DecimalValue(t[1..]) as int))
  {
    var u := t[1..];
    assert ParseSigned(t) == Negate(ParseMagnitude(u));
    assert |LeadingDigits(u)| > 0;
    assert ParseMagnitude(u) == Some(DecimalValue(u));
    NegateSome(ParseSigned(t), ParseMagnitude(u), DecimalValue(u));
  }

  lemma SignedHex(t: string)
    requires HexPrefixed(t)
    ensures ParseSigned(t) == Widen(HexMagnitude(t[2..]))
  {
  }

  /** The unsigned cases, each under its own condition. */
  lemma SignedCases(t: string)
    ensures !StartsNumber(t) ==> ParseSigned(t).None?
    ensures StartsDecimal(t) ==> ParseSigned(t) == Some(DecimalValue(t) as int)
    ensures HexPrefixed(t) ==>
      ParseSigned(t) == Widen(HexMagnitude(t[2..]))
  {
    if !StartsNumber(t) { SignedNone(t); }
    if StartsDecimal(t) { SignedDecimal(t); }
    if HexPrefixed(t) { SignedHex(t); }
  }

  lemma MagnitudeOfNoDigits(u: string)
    requires NoDigits(u)
    ensures ParseMagnitude(u).None?
  {
    if |u| > 0 {
      assert !IsDigit(u[0]);
    }
  }

  lemma SignedOfNoDigits(t: string)
    requires NoDigits(t)
    ensures ParseSigned(t).None?
  {
    if |t| > 0 {
      NoDigitsSuffix(t, 1);
      MagnitudeOfNoDigits(t[1..]);
    }
    MagnitudeOfNoDigits(t);
  }

  /** Decimal rendering of a natural number without leading zeros. */
  function NatToString(n: nat): (r: string)
    ensures |r| > 0 && AllDigits(r)
    ensures r[0] == '0' ==> n == 0
  {
    if n < 10 then [DigitChar(n)] else NatToString(n / 10) + [DigitChar(n % 10)]
  }

  /** `String(n)` / template-literal rendering of an integer `Number`. */
  function IntToString(n: int): (r: string)
    ensures |r| > 0
  {
    if n < 0 then "-" + NatToString(-n) else NatToString(n)
  }

  lemma {:induction false} DigitsValueOfNatToString(n: nat)
    ensures DigitsValue(NatToString(n)) == n
    decreases n
  {
    if n >= 10 {
      DigitsValueOfNatToString(n / 10);
      var s := NatToString(n / 10) + [DigitChar(n % 10)];
      assert s[..|s| - 1] == NatToString(n / 10);
    }
  }

  lemma {:induction false} LeadingDigitsOfDigitsThenOther(ds: string, rest: string)
    requires AllDigits(ds)
    requires |rest| == 0 || !IsDigit(rest[0])
    ensures LeadingDigits(ds + rest) == ds
    decreases |ds|
  {
    if |ds| > 0 {
      assert (ds + rest)[1..] == ds[1..] + rest;
      LeadingDigitsOfDigitsThenOther(ds[1..], rest);
    } else {
      assert ds + rest == rest;
    }
  }

  lemma ParseMagnitudeOfNatToString(m: nat, rest: string)
    requires |rest| == 0 || !IsDigit(rest[0])
    requires m == 0 ==> |rest| == 0 || (rest[0] != 'x' && rest[0] != 'X')
    ensures ParseMagnitude(NatToString(m) + rest) == Some(m)
  {
    var digits := NatToString(m);
    var u := digits + rest;
    LeadingDigitsOfDigitsThenOther(digits, rest);
    DigitsValueOfNatToString(m);
    assert u[0] == digits[0];
    if |u| >= 2 && u[0] == '0' {
      assert m == 0;
      assert |digits| == 1;
      assert u[1] == rest[0];
    }
  }

  lemma ParseIntWithoutSpace(s: string)
    requires |s| > 0 && (s[0] == '-' || IsDigit(s[0]))
    ensures ParseInt(s) == ParseSigned(s)
  {
    assert !IsJsWhitespace(s[0]);
  }

  lemma ParseIntOfNegative(n: int, rest: string)
    requires n < 0
    requires |rest| == 0 || !IsDigit(rest[0])
    ensures ParseInt(IntToString(n) + rest) == Some(n)
  {
    var m: nat := -n;
    ParseMagnitudeOfNatToString(m, rest);
    NegativeText(n, rest);
    ParseIntOfMinus(IntToString(n) + rest, m);
  }

  lemma NegativeText(n: int, rest: string)
    requires n < 0
    ensures var s := IntToString(n) + rest;
      |s| > 0 && s[0] == '-' && s[1..] == NatToString(-n) + rest
  {
    var s := IntToString(n) + rest;
    assert s == "-" + (NatToString(-n) + rest);
  }

  /** A leading minus sign negates the magnitude that follows it. */
  lemma ParseIntOfMinus(s: string, m: nat)
    requires |s| > 0 && s[0] == '-'
    requires ParseMagnitude(s[1..]) == Some(m)
    ensures ParseInt(s) == Some(-(m as int))
  {
    ParseIntOfSign(s);
    NegateSome(ParseInt(s), ParseMagnitude(s[1..]), m);
  }

  lemma NegateSome(x: Option<int>, y: Option<nat>, m: nat)
    requires x == Negate(y) && y == Some(m)
    ensures x == Some(-(m as int))
  {
  }

  lemma ParseIntOfSign(s: string)
    requires |s| > 0 && s[0] == '-'
    ensures ParseInt(s) == Negate(ParseMagnitude(s[1..]))
  {
    ParseIntWithoutSpace(s);
  }

  lemma ParseIntOfNonNegative(n: nat, rest: string)
    requires |rest| == 0 || !IsDigit(rest[0])
    requires n == 0 ==> |rest| == 0 || (rest[0] != 'x' && rest[0] != 'X')
    ensures ParseInt(IntToString(n) + rest) == Some(n)
  {
    var s := NatToString(n) + rest;
    ParseMagnitudeOfNatToString(n, rest);
    assert IntToString(n) == NatToString(n);
    assert s[0] == NatToString(n)[0];
    ParseIntWithoutSpace(s);
    assert ParseSigned(s) == Widen(ParseMagnitude(s));
  }

  /** Round trip: `parseInt` reads back the number written by `String(n)`,
      whatever non-digit text follows it (except that "0" followed by `x`
      or `X` would start a hexadecimal literal). */
  lemma ParseIntOfIntToString(n: int, rest: string)
    requires |rest| == 0 || !IsDigit(rest[0])
    requires n == 0 ==> |rest| == 0 || (rest[0] != 'x' && rest[0] != 'X')
    ensures ParseInt(IntToString(n) + rest) == Some(n)
  {
    if n < 0 {
      ParseIntOfNegative(n, rest);
    } else {
      ParseIntOfNonNegative(n, rest);
    }
  }
}
