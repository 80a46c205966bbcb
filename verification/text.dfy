/** The few pieces of java.lang.String, Long, Integer and BigDecimal text
    handling the services rely on: String.trim, the regular-expression class
    \s, the case folding of String.toLowerCase as far as it matters for ASCII
    keywords, Long.toString, Integer.parseInt and new BigDecimal(String).
    Digits are the ASCII digits '0'..'9'. */
module JavaText {
  import opened Nullable

  // ---------------------------------------------------------------------
  // String.trim and blankness
  // ---------------------------------------------------------------------

  /** String.trim() strips every character whose code is at most U+0020. */
  predicate IsTrimmable(c: char) {
    c <= ' '
  }

  /** Index of the first character trim() keeps. */
  function TrimStart(s: string): (lo: nat)
    ensures lo <= |s|
    ensures forall i :: 0 <= i < lo ==> IsTrimmable(s[i])
    ensures lo < |s| ==> !IsTrimmable(s[lo])
    decreases |s|
  {
    if |s| > 0 && IsTrimmable(s[0]) then 1 + TrimStart(s[1..]) else 0
  }

  /** One past the last character trim() keeps, never below `lo`. */
  function TrimStop(s: string, lo: nat): (hi: nat)
    requires lo <= |s|
    ensures lo <= hi <= |s|
    ensures forall i :: hi <= i < |s| ==> IsTrimmable(s[i])
    ensures hi > lo ==> !IsTrimmable(s[hi - 1])
    decreases |s|
  {
    if |s| > lo && IsTrimmable(s[|s| - 1]) then TrimStop(s[..|s| - 1], lo) else |s|
  }

  /** String.trim(): the infix left after dropping leading and trailing
      characters up to U+0020. It keeps every other character of `s`. */
  function Trim(s: string): (r: string)
    ensures |r| == TrimStop(s, TrimStart(s)) - TrimStart(s)
    ensures forall i :: 0 <= i < |r| ==> r[i] == s[TrimStart(s) + i]
    ensures |r| > 0 ==> !IsTrimmable(r[0]) && !IsTrimmable(r[|r| - 1])
    ensures forall i :: 0 <= i < |s| && !IsTrimmable(s[i]) ==>
              TrimStart(s) <= i < TrimStop(s, TrimStart(s)) &&
              r[i - TrimStart(s)] == s[i]
  {
    var lo := TrimStart(s);
    s[lo..TrimStop(s, lo)]
  }

  /** trim() takes a substring: a blank between kept characters stays. */
  lemma TrimKeepsInnerBlank()
    ensures Trim(" a b ") == "a b"
  {
    var s := " a b ";
    assert TrimStart(s) == 1 by { assert !IsTrimmable(s[1]); }
    assert TrimStop(s, 1) == 4 by { assert !IsTrimmable(s[3]); }
  }

  /** Some character survives trim(): the meaning of a non-blank string. */
  predicate HasVisibleChar(s: string) {
    exists i :: 0 <= i < |s| && !IsTrimmable(s[i])
  }

  lemma TrimEmptyIffBlank(s: string)
    ensures |Trim(s)| > 0 <==> HasVisibleChar(s)
  {
    if |Trim(s)| > 0 {
      var lo := TrimStart(s);
      assert s[lo] == Trim(s)[0];
    }
  }

  /** Trimming twice changes nothing. */
  lemma TrimIdempotent(s: string)
    ensures Trim(Trim(s)) == Trim(s)
  {
    var r := Trim(s);
    if |r| > 0 {
      assert TrimStart(r) == 0;
      assert TrimStop(r, 0) == |r|;
    }
  }

  // ---------------------------------------------------------------------
  // Regular-expression whitespace (java.util.regex \s)
  // ---------------------------------------------------------------------

  /** The characters \s matches without UNICODE_CHARACTER_CLASS:
      space, tab, newline, vertical tab, form feed, carriage return. */
  predicate IsRegexSpace(c: char) {
    c == ' ' || c == '\t' || c == '\n' || c == '\U{000B}' || c == '\U{000C}' || c == '\r'
  }

  /** What `\s*` consumes at the front of `s`: the suffix after the longest
      run of regex whitespace. */
  function SkipRegexSpace(s: string): (r: string)
    ensures |r| <= |s|
    ensures r == s[|s| - |r|..]
    ensures forall i :: 0 <= i < |s| - |r| ==> IsRegexSpace(s[i])
    ensures |r| > 0 ==> !IsRegexSpace(r[0])
    decreases |s|
  {
    if |s| > 0 && IsRegexSpace(s[0]) then SkipRegexSpace(s[1..]) else s
  }

  // ---------------------------------------------------------------------
  // Case folding for keyword matching
  // ---------------------------------------------------------------------

  /** String.toLowerCase on one character, as far as the result can be an
      ASCII letter or digit: 'A'..'Z' map to 'a'..'z' and KELVIN SIGN
      (U+212A) maps to 'k'. Every other character is kept, which agrees with
      Java on whether the result can equal an ASCII keyword. */
  function LowerChar(c: char): (d: char)
    ensures 'A' <= c <= 'Z' ==> d as int == c as int + 32
    ensures d != c ==> ('A' <= c <= 'Z' || c == '\U{212A}')
  {
    if 'A' <= c <= 'Z' then (c as int + 32) as char
    else if c == '\U{212A}' then 'k'
    else c
  }

  function Lower(s: string): (r: string)
    ensures |r| == |s|
    ensures forall i :: 0 <= i < |s| ==> r[i] == LowerChar(s[i])
  {
    seq(|s|, i requires 0 <= i < |s| => LowerChar(s[i]))
  }

  /** Lower-casing twice is lower-casing once. */
  lemma LowerIdempotent(s: string)
    ensures Lower(Lower(s)) == Lower(s)
  {
    forall i | 0 <= i < |s|
      ensures Lower(Lower(s))[i] == Lower(s)[i]
    {
      var c := s[i];
      assert LowerChar(LowerChar(c)) == LowerChar(c);
    }
  }

  // ---------------------------------------------------------------------
  // Decimal digits, Long.toString and Integer.parseInt
  // ---------------------------------------------------------------------

  predicate IsDigit(c: char) {
    '0' <= c <= '9'
  }

  predicate AllDigits(s: string) {
    forall i :: 0 <= i < |s| ==> IsDigit(s[i])
  }

  function DigitChar(d: nat): (c: char)
    requires d < 10
    ensures IsDigit(c)
  {
    ('0' as int + d) as char
  }

  function DigitValue(c: char): (d: nat)
    requires IsDigit(c)
    ensures d < 10
    ensures DigitChar(d) == c
  {
    c as int - '0' as int
  }

  /** The number a string of decimal digits denotes (most significant first). */
  function DigitsValue(s: string): nat
    requires AllDigits(s)
    decreases |s|
  {
    if |s| == 0 then 0 else DigitsValue(s[..|s| - 1]) * 10 + DigitValue(s[|s| - 1])
  }

  /** Long.toString for a non-negative value: shortest decimal digits. */
  function NatToString(n: nat): (s: string)
    ensures |s| > 0 && AllDigits(s)
    ensures |s| > 1 ==> s[0] != '0'
    decreases n
  {
    if n < 10 then [DigitChar(n)] else NatToString(n / 10) + [DigitChar(n % 10)]
  }

  /** Long.toString: a minus sign for negative values, then the digits. */
  function IntToString(i: int): (s: string)
    ensures |s| > 0
  {
    if i < 0 then "-" + NatToString(-i) else NatToString(i)
  }

  lemma {:induction false} NatToStringValue(n: nat)
    ensures DigitsValue(NatToString(n)) == n
    decreases n
  {
    if n >= 10 {
      var s := NatToString(n);
      NatToStringValue(n / 10);
      assert s[..|s| - 1] == NatToString(n / 10);
    }
  }

  /** Range of a Java int. */
  const IntMin: int := -0x8000_0000
  const IntMax: int := 0x7fff_ffff

  /** A leading '-' makes the number negative. */
  predicate Negative(s: string) {
    |s| > 0 && s[0] == '-'
  }

  /** The text after an optional leading '+' or '-'. */
  function Unsigned(s: string): (body: string)
    ensures body == s || (|s| > 0 && body == s[1..])
  {
    if |s| > 0 && (s[0] == '-' || s[0] == '+') then s[1..] else s
  }

  /** An optional sign, then at least one digit, as a signed integer. */
  function ParseSignedDigits(s: string): Option<int> {
    var body := Unsigned(s);
    if |body| == 0 || !AllDigits(body) then None
    else Some(if Negative(s) then -(DigitsValue(body) as int) else DigitsValue(body))
  }

  /** Integer.parseInt(s): an optional '+' or '-', then at least one digit,
      and the value must fit in a Java int; anything else is a
      NumberFormatException, here None. */
  function ParseInt(s: string): (r: Option<int>)
    ensures r.Some? ==> IntMin <= r.value <= IntMax
    ensures r.Some? ==> |s| > 0
  {
    match ParseSignedDigits(s)
    case None => None
    case Some(v) => if IntMin <= v <= IntMax then Some(v) else None
  }

  /** The sign and digits of a rendering, seen by the parsers. */
  lemma SignedRendering(neg: bool, digits: string)
    requires |digits| > 0 && AllDigits(digits)
    ensures Unsigned((if neg then "-" else "") + digits) == digits
    ensures Negative((if neg then "-" else "") + digits) == neg
  {
    var s := (if neg then "-" else "") + digits;
    if neg {
      assert s[1..] == digits;
    } else {
      assert s == digits;
    }
  }

  /** parseInt reads back what toString wrote, for every int in range,
      and refuses the rendering of every value outside it. */
  lemma ParseIntOfToString(i: int)
    ensures IntMin <= i <= IntMax ==> ParseInt(IntToString(i)) == Some(i)
    ensures !(IntMin <= i <= IntMax) ==> ParseInt(IntToString(i)) == None
  {
    SignedDigitsOfToString(i);
  }

  /** The sign-and-digits reader gives back every rendered long. */
  lemma SignedDigitsOfToString(i: int)
    ensures ParseSignedDigits(IntToString(i)) == Some(i)
  {
    var n: nat := if i < 0 then -i else i;
    var d := NatToString(n);
    NatToStringValue(n);
    SignedRendering(i < 0, d);
    assert IntToString(i) == (if i < 0 then "-" else "") + d;
  }

  // ---------------------------------------------------------------------
  // new BigDecimal(String)
  // ---------------------------------------------------------------------

  function Pow10(k: nat): (p: nat)
    ensures p >= 1
  {
    if k == 0 then 1 else 10 * Pow10(k - 1)
  }

  /** 10 raised to an integer exponent, exactly. */
  function Scale10(e: int): (r: real)
    ensures r > 0.0
  {
    if e >= 0 then Pow10(e) as real else 1.0 / (Pow10(-e) as real)
  }

  /** Position of the first 'e' or 'E', or |s| when there is none. */
  function ExponentMark(s: string): (k: nat)
    ensures k <= |s|
    ensures forall i :: 0 <= i < k ==> s[i] != 'e' && s[i] != 'E'
    ensures k < |s| ==> s[k] == 'e' || s[k] == 'E'
    decreases |s|
  {
    if |s| == 0 then 0
    else if s[0] == 'e' || s[0] == 'E' then 0
    else 1 + ExponentMark(s[1..])
  }

  /** Position of the first '.', or |s| when there is none. */
  function PointMark(s: string): (k: nat)
    ensures k <= |s|
    ensures forall i :: 0 <= i < k ==> s[i] != '.'
    ensures k < |s| ==> s[k] == '.'
    decreases |s|
  {
    if |s| == 0 then 0
    else if s[0] == '.' then 0
    else 1 + PointMark(s[1..])
  }

  /** The digits of a significand with at most one '.', holding at least
      one digit: the unscaled value and the number of fraction digits. */
  function ParseSignificand(s: string): Option<(nat, nat)> {
    var p := PointMark(s);
    var whole := s[..p];
    var fraction := if p < |s| then s[p + 1..] else "";
    if |whole| + |fraction| == 0 || !AllDigits(whole) || !AllDigits(fraction) then None
    else Some((DigitsValue(whole + fraction), |fraction|))
  }

  /** An unsigned BigDecimal literal: significand, then an optional exponent
      ('e' or 'E', an optional sign, digits). The result is the unscaled
      digits and the power of ten they are to be multiplied by. BigDecimal
      reads the exponent into a long and refuses it unless it fits in a
      Java int; it keeps the scale, the fraction digits less the exponent,
      in an int too, so a literal whose scale falls outside that range is
      refused as well. */
  function ParseLiteral(body: string): Option<(nat, int)> {
    var e := ExponentMark(body);
    var exponent := if e < |body| then ParseSignedDigits(body[e + 1..]) else Some(0);
    ApplyExponent(ParseSignificand(body[..e]), exponent)
  }

  /** The significand's digits and fraction length, and the exponent, as
      unscaled digits and a power of ten; None when either part is missing,
      or the exponent or the scale leaves the int range. */
  function ApplyExponent(significand: Option<(nat, nat)>, exponent: Option<int>): Option<(nat, int)> {
    if significand.None? || exponent.None? then None
    else if exponent.value < IntMin || exponent.value > IntMax then None
    else
      var shift := exponent.value - significand.value.1;
      if -shift < IntMin || -shift > IntMax then None else Some((significand.value.0, shift))
  }

  /** An exponent a whole significand can carry: it fits in an int, and so
      does the scale, its negation. */
  predicate ExponentFits(e: int) {
    IntMin <= e <= IntMax && IntMin <= -e <= IntMax
  }

  /** `unscaled` × 10^`shift`. */
  function Scaled(unscaled: nat, shift: int): (r: real)
    ensures shift == 0 ==> r == unscaled as real
  {
    (unscaled as real) * Scale10(shift)
  }

  /** The value of an unsigned BigDecimal literal. */
  function ParseMagnitude(body: string): Option<real> {
    match ParseLiteral(body)
    case None => None
    case Some((unscaled, shift)) => Some(Scaled(unscaled, shift))
  }

  /** new BigDecimal(s): an optional sign, then an unsigned literal whose
      value is the significand times ten to the exponent. Anything else is a
      NumberFormatException, here None. */
  function ParseDecimal(s: string): (r: Option<real>)
    ensures r.Some? ==> |s| > 0
  {
    match ParseMagnitude(Unsigned(s))
    case None => None
    case Some(m) => Some(if Negative(s) then -m else m)
  }

  /** A plain rendering of a long is read back by new BigDecimal as the same number. */
  lemma ParseDecimalOfToString(i: int)
    ensures ParseDecimal(IntToString(i)) == Some(i as real)
  {
    var n: nat := if i < 0 then -i else i;
    var digits := NatToString(n);
    var m := n as real;
    NatToStringValue(n);
    MagnitudeOfDigits(digits);
    assert ParseMagnitude(digits) == Some(m);
    if i < 0 {
      assert IntToString(i) == "-" + digits;
      NegatedMagnitude(digits, m);
    } else {
      assert IntToString(i) == digits;
      assert IsDigit(digits[0]);
      UnsignedDigitStart(digits);
      DecimalOfMagnitude(digits, m);
    }
  }

  /** A minus sign in front of an unsigned literal negates its value. */
  lemma NegatedMagnitude(body: string, m: real)
    requires ParseMagnitude(body) == Some(m)
    ensures ParseDecimal("-" + body) == Some(-m)
  {
    var s := "-" + body;
    assert s[1..] == body;
    DecimalOfMagnitude(s, m);
  }

  /** Digits with an exponent: new BigDecimal accepts the literal exactly
      when the exponent and its scale, the negated exponent, both fit in an
      int (so "1e2147483648" and "1e-2147483648" are refused), and then its
      value is the digits times ten to the exponent. */
  lemma ExponentLiteral(digits: string, e: int)
    requires |digits| > 0 && AllDigits(digits)
    ensures IntMin <= e <= IntMax && IntMin <= -e <= IntMax ==>
              ParseDecimal(digits + "e" + IntToString(e)) == Some(Scaled(DigitsValue(digits), e))
    ensures !(IntMin <= e <= IntMax && IntMin <= -e <= IntMax) ==>
              ParseDecimal(digits + "e" + IntToString(e)) == None
  {
    SignedDigitsOfToString(e);
    DecimalWithExponent(digits, IntToString(e), e);
  }

  /** new BigDecimal on digits, an 'e' and a signed exponent. */
  lemma DecimalWithExponent(digits: string, x: string, e: int)
    requires |digits| > 0 && AllDigits(digits)
    requires ParseSignedDigits(x) == Some(e)
    ensures ParseDecimal(digits + "e" + x) ==
              if ExponentFits(e) then Some(Scaled(DigitsValue(digits), e)) else None
  {
    var s := digits + "e" + x;
    LiteralWithExponent(digits, x, e);
    assert s[0] == digits[0];
    UnsignedDigitStart(s);
    if !ExponentFits(e) {
      assert ParseMagnitude(s) == None;
    } else {
      var m := Scaled(DigitsValue(digits), e);
      assert ParseMagnitude(s) == Some(m);
      DecimalOfMagnitude(s, m);
    }
  }

  /** A string that starts with a digit carries no sign. */
  lemma UnsignedDigitStart(s: string)
    requires |s| > 0 && IsDigit(s[0])
    ensures Unsigned(s) == s && !Negative(s)
  {
  }

  /** The literal reader on digits, an 'e' and a signed exponent. */
  lemma LiteralWithExponent(digits: string, x: string, e: int)
    requires |digits| > 0 && AllDigits(digits)
    requires ParseSignedDigits(x) == Some(e)
    ensures ParseLiteral(digits + "e" + x) == if ExponentFits(e) then Some((DigitsValue(digits), e)) else None
  {
    var s := digits + "e" + x;
    MarkAfterDigits(digits, x);
    SignificandOfDigits(digits);
    assert ParseLiteral(s) == ApplyExponent(ParseSignificand(digits), ParseSignedDigits(x));
    WholeExponent(DigitsValue(digits), e);
  }

  /** A whole significand takes the exponent as its power of ten. */
  lemma WholeExponent(v: nat, e: int)
    ensures ApplyExponent(Some((v, 0)), Some(e)) == if ExponentFits(e) then Some((v, e)) else None
  {
  }

  /** The exponent mark of digits, an 'e' and any tail sits right after the digits. */
  lemma MarkAfterDigits(digits: string, x: string)
    requires AllDigits(digits)
    ensures var s := digits + "e" + x;
            ExponentMark(s) == |digits| && s[|digits| + 1..] == x && s[..|digits|] == digits
  {
    var s := digits + "e" + x;
    assert s[|digits|] == 'e';
    assert forall i :: 0 <= i < |digits| ==> s[i] == digits[i];
  }

  lemma DecimalOfMagnitude(s: string, m: real)
    requires ParseMagnitude(Unsigned(s)) == Some(m)
    ensures Negative(s) ==> ParseDecimal(s) == Some(-m)
    ensures !Negative(s) ==> ParseDecimal(s) == Some(m)
  {
  }

  lemma MagnitudeOfDigits(digits: string)
    requires |digits| > 0 && AllDigits(digits)
    ensures ParseMagnitude(digits) == Some(DigitsValue(digits) as real)
  {
    LiteralOfDigits(digits);
  }

  lemma LiteralOfDigits(digits: string)
    requires |digits| > 0 && AllDigits(digits)
    ensures ParseLiteral(digits) == Some((DigitsValue(digits), 0))
  {
    NoMarksInDigits(digits);
    assert digits[..ExponentMark(digits)] == digits;
    SignificandOfDigits(digits);
  }

  lemma SignificandOfDigits(digits: string)
    requires |digits| > 0 && AllDigits(digits)
    ensures ParseSignificand(digits) == Some((DigitsValue(digits), 0))
  {
    NoMarksInDigits(digits);
    assert digits[..|digits|] == digits;
    assert digits + "" == digits;
  }

  lemma NoMarksInDigits(s: string)
    requires AllDigits(s)
    ensures ExponentMark(s) == |s|
    ensures PointMark(s) == |s|
  {
  }
}
