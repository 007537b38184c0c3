/**
 * Text to integer and back: JavaScript's `BigInt(string)` (StringToBigInt,
 * section 7.1.14 of ECMA-262), the page's `tryParseBigInt` built on it, and
 * `String(bigint)`, the decimal rendering shown in the output fields.
 */
module BigIntLiteral {
  import opened Wrappers
  import opened Whitespace

  /** The value of `c` as a digit `0`-`9`, `a`-`f` or `A`-`F`; 16 for any other character. */
  function DigitValue(c: char): (d: nat)
    ensures d <= 16
    ensures d < 10 <==> '0' <= c <= '9'
  {
    if '0' <= c <= '9' then c as int - '0' as int
    else if 'a' <= c <= 'f' then c as int - 'a' as int + 10
    else if 'A' <= c <= 'F' then c as int - 'A' as int + 10
    else 16
  }

  predicate AllDigits(d: string, radix: nat) {
    forall i :: 0 <= i < |d| ==> DigitValue(d[i]) < radix
  }

  /** The number a run of digits denotes in `radix`, most significant digit first. */
  function DigitsValue(d: string, radix: nat): nat {
    if d == [] then 0 else DigitsValue(d[..|d| - 1], radix) * radix + DigitValue(d[|d| - 1])
  }

  /** The radix a `0x`, `0o` or `0b` prefix letter selects, or 0 for any other character. */
  function RadixOf(c: char): nat {
    if c == 'x' || c == 'X' then 16
    else if c == 'o' || c == 'O' then 8
    else if c == 'b' || c == 'B' then 2
    else 0
  }

  /** A non-empty run of digits of `radix`, or nothing. */
  function DigitRun(d: string, radix: nat): (r: Option<int>)
    ensures r.Some? <==> d != [] && AllDigits(d, radix)
    ensures r.Some? ==> r.value >= 0
  {
    if d != [] && AllDigits(d, radix) then Some(DigitsValue(d, radix)) else None
  }

  /**
   * StrIntegerLiteral: a decimal digit run with an optional `+` or `-`, or an
   * unsigned `0x`/`0o`/`0b` literal (either case of the letter). Numeric
   * separators, exponents and fractions are not part of the grammar.
   */
  function IntegerLiteral(t: string): Option<int> {
    if |t| >= 2 && t[0] == '0' && RadixOf(t[1]) != 0 then DigitRun(t[2..], RadixOf(t[1]))
    else if |t| >= 1 && t[0] == '-' then
      match DigitRun(t[1..], 10)
      case Some(n) => Some(-n)
      case None => None
    else if |t| >= 1 && t[0] == '+' then DigitRun(t[1..], 10)
    else DigitRun(t, 10)
  }

  /**
   * `BigInt(s)` on a string: white space around the literal is skipped, and
   * text that is empty once that is done denotes 0. `None` stands for the
   * SyntaxError thrown on anything else.
   */
  function StringToBigInt(s: string): Option<int> {
    var t := Trim(s);
    if t == [] then Some(0) else IntegerLiteral(t)
  }

  /**
   * tryParseBigInt: trims the text, refuses what is then empty (where
   * `BigInt` would give 0), and otherwise gives what `BigInt` gives, with the
   * SyntaxError turned into `None`.
   */
  function TryParseBigInt(text: string): Option<int> {
    var t := Trim(text);
    if |t| == 0 then None else StringToBigInt(t)
  }

  /** Empty or all-white text gives no value, where `BigInt` would give 0. */
  lemma EmptyRefused(text: string)
    requires AllWhite(text)
    ensures TryParseBigInt(text) == None
    ensures StringToBigInt(text) == Some(0)
  {
    TrimFacts(text);
  }

  /** On text with some non-white character, tryParseBigInt gives exactly what `BigInt` gives. */
  lemma AgreesWithBigInt(text: string)
    requires !AllWhite(text)
    ensures TryParseBigInt(text) == StringToBigInt(text)
  {
    TrimFacts(text);
    TrimIdempotent(text);
  }

  /** White space around the text does not change the result. */
  lemma PaddingIgnored(w1: string, text: string, w2: string)
    requires AllWhite(w1) && AllWhite(w2)
    ensures TryParseBigInt(w1 + text + w2) == TryParseBigInt(text)
  {
    TrimIgnoresPadding(w1, text, w2);
  }

  /** The character for a decimal digit value. */
  function DigitChar(k: nat): (c: char)
    requires k < 10
    ensures DigitValue(c) == k
  {
    ('0' as int + k) as char
  }

  /** The decimal digits of `n` without leading zeros ("0" for zero). */
  function Digits(n: nat): (s: string)
    ensures s != [] && AllDigits(s, 10)
    ensures s[0] == '0' ==> n == 0 && |s| == 1
  {
    if n < 10 then [DigitChar(n)] else Digits(n / 10) + [DigitChar(n % 10)]
  }

  /** String(bigint): a `-` for negative values, then the decimal digits of the magnitude. */
  function DecimalString(n: int): (s: string)
    ensures s != [] && (s[0] == '-' <==> n < 0)
    ensures AllDigits(if n < 0 then s[1..] else s, 10)
  {
    if n < 0 then "-" + Digits(-n) else Digits(n)
  }

  lemma {:induction false} DigitsValueOfDigits(n: nat)
    ensures DigitsValue(Digits(n), 10) == n
  {
    if n >= 10 {
      var s := Digits(n);
      assert s[..|s| - 1] == Digits(n / 10);
      DigitsValueOfDigits(n / 10);
    }
  }

  /** Text that starts and ends with a non-white character is parsed as a literal directly. */
  lemma ParseTrimmed(t: string)
    requires t != [] && !IsWhite(t[0]) && !IsWhite(t[|t| - 1])
    ensures TryParseBigInt(t) == IntegerLiteral(t)
  {
    TrimOfTrimmed(t);
  }

  /** A decimal digit run, bare or after a sign, is a literal of its (signed) value. */
  lemma SignedRunLiteral(d: string)
    requires d != [] && AllDigits(d, 10)
    ensures IntegerLiteral(d) == Some(DigitsValue(d, 10))
    ensures IntegerLiteral("+" + d) == Some(DigitsValue(d, 10))
    ensures IntegerLiteral("-" + d) == Some(0 - DigitsValue(d, 10))
  {
    if |d| >= 2 { assert DigitValue(d[1]) < 10; }
    assert ("+" + d)[1..] == d;
    assert ("-" + d)[1..] == d;
  }

  lemma DecimalIsTrimmed(n: int)
    ensures TryParseBigInt(DecimalString(n)) == IntegerLiteral(DecimalString(n))
  {
    var s := DecimalString(n);
    assert DigitValue(s[|s| - 1]) < 10 by {
      if n < 0 { assert s[|s| - 1] == s[1..][|s| - 2]; }
    }
    ParseTrimmed(s);
  }

  lemma DecimalIsLiteral(n: int)
    ensures IntegerLiteral(DecimalString(n)) == Some(n)
  {
    if n < 0 {
      assert DecimalString(n) == "-" + Digits(-n);
      NegatedDigitsAreLiteral(-n);
    } else {
      var s := Digits(n);
      assert DecimalString(n) == s;
      SignedRunLiteral(s);
      DigitsValueOfDigits(n);
    }
  }

  lemma NegatedDigitsAreLiteral(m: nat)
    ensures IntegerLiteral("-" + Digits(m)) == Some(-(m as int))
  {
    SignedRunLiteral(Digits(m));
    DigitsValueOfDigits(m);
  }

  /** A rendered decimal is a literal whose value is the number rendered. */
  lemma DecimalRoundTrip(n: int)
    ensures TryParseBigInt(DecimalString(n)) == Some(n)
  {
    DecimalIsTrimmed(n);
    DecimalIsLiteral(n);
  }

  lemma {:induction false} LeadingDigitNonZero(d: string)
    requires d != [] && AllDigits(d, 10) && d[0] != '0'
    ensures DigitsValue(d, 10) >= 1
  {
    if |d| > 1 {
      LeadingDigitNonZero(d[..|d| - 1]);
    }
  }

  /** Rendering the value of a digit run without leading zeros gives the run back. */
  lemma {:induction false} DigitsOfValue(d: string)
    requires d != [] && AllDigits(d, 10)
    requires d[0] != '0' || |d| == 1
    ensures Digits(DigitsValue(d, 10)) == d
  {
    var last := DigitValue(d[|d| - 1]);
    assert DigitChar(last) == d[|d| - 1];
    if |d| > 1 {
      var p := d[..|d| - 1];
      var high := DigitsValue(p, 10);
      var n := DigitsValue(d, 10);
      assert n == high * 10 + last;
      LeadingDigitNonZero(p);
      assert n >= 10 && n / 10 == high && n % 10 == last;
      assert Digits(n) == Digits(high) + [DigitChar(last)];
      DigitsOfValue(p);
      assert d == p + [d[|d| - 1]];
    } else {
      assert Digits(last) == [DigitChar(last)];
    }
  }

  lemma {:induction false} LeadingZeroValue(d: string)
    ensures DigitsValue("0" + d, 10) == DigitsValue(d, 10)
  {
    if d != [] {
      assert ("0" + d)[..|"0" + d| - 1] == "0" + d[..|d| - 1];
      LeadingZeroValue(d[..|d| - 1]);
    }
  }

  /** A character that has no place anywhere in an integer literal. */
  predicate IsForeign(c: char) {
    DigitValue(c) == 16 && c != '+' && c != '-' && RadixOf(c) == 0
  }

  lemma ForeignCharacterInLiteral(t: string, i: nat)
    requires i < |t| && IsForeign(t[i])
    ensures IntegerLiteral(t) == None
  {
    if |t| >= 2 && t[0] == '0' && RadixOf(t[1]) != 0 {
      assert t[2..][i - 2] == t[i];
    } else if t[0] == '-' || t[0] == '+' {
      assert t[1..][i - 1] == t[i];
    }
  }

  /**
   * Text whose trimmed form holds a stray character (embedded white space,
   * a dot, a `_` separator, ...) gives no value instead of an exception.
   * Letters that are digits in some radix, such as `e` or `a`, are not
   * stray; `LiteralAccepted` refuses them where they do not belong.
   */
  lemma StrayCharacterRefused(text: string, i: nat)
    requires i < |Trim(text)| && IsForeign(Trim(text)[i])
    ensures TryParseBigInt(text) == None
  {
    var t := Trim(text);
    TrimIdempotent(text);
    ForeignCharacterInLiteral(t, i);
  }

  /** A sign that may precede a decimal digit run: none, `+` or `-`. */
  predicate IsSign(sign: string) {
    sign == "" || sign == "+" || sign == "-"
  }

  /** Every non-empty decimal digit run parses to its value, negated after a `-`. */
  lemma SignedDigitRun(sign: string, d: string)
    requires IsSign(sign) && d != [] && AllDigits(d, 10)
    ensures TryParseBigInt(sign + d) == Some(if sign == "-" then 0 - DigitsValue(d, 10) else DigitsValue(d, 10))
  {
    var t := sign + d;
    assert t[|t| - 1] == d[|d| - 1] && DigitValue(d[|d| - 1]) < 10;
    assert t[0] == if sign == "" then d[0] else sign[0];
    assert DigitValue(d[0]) < 10;
    ParseTrimmed(t);
    SignedRunLiteral(d);
    assert sign == "" ==> t == d;
  }

  /** Every non-empty run of digits after a `0x`, `0o` or `0b` prefix parses to its value in that radix. */
  lemma PrefixedRun(x: char, d: string)
    requires RadixOf(x) != 0 && d != [] && AllDigits(d, RadixOf(x))
    ensures TryParseBigInt(['0', x] + d) == Some(DigitsValue(d, RadixOf(x)))
  {
    var t := ['0', x] + d;
    assert t[|t| - 1] == d[|d| - 1] && DigitValue(d[|d| - 1]) < 16;
    ParseTrimmed(t);
    assert t[2..] == d;
  }

  /** A `0x`, `0o` or `0b` prefix (either case) followed by at least one digit of its radix. */
  predicate IsPrefixedLiteral(t: string) {
    |t| >= 3 && t[0] == '0' && RadixOf(t[1]) != 0 && AllDigits(t[2..], RadixOf(t[1]))
  }

  /** An optional sign followed by at least one decimal digit. */
  ghost predicate IsDecimalLiteral(t: string) {
    exists sign, d :: IsSign(sign) && d != [] && AllDigits(d, 10) && t == sign + d
  }

  /** A literal `IntegerLiteral` gives a value to is a prefixed or a signed decimal literal. */
  lemma LiteralShape(t: string)
    requires IntegerLiteral(t).Some?
    ensures IsPrefixedLiteral(t) || IsDecimalLiteral(t)
  {
    if |t| >= 2 && t[0] == '0' && RadixOf(t[1]) != 0 {
      assert IsPrefixedLiteral(t);
    } else if t[0] == '-' || t[0] == '+' {
      var sign, d := t[..1], t[1..];
      assert IsSign(sign) && d != [] && AllDigits(d, 10) && t == sign + d;
    } else {
      assert IsSign("") && t != [] && AllDigits(t, 10) && t == "" + t;
    }
  }

  /** What the parser accepts is, once trimmed, a prefixed or a signed decimal literal. */
  lemma AcceptedIsLiteral(text: string)
    requires TryParseBigInt(text).Some?
    ensures IsPrefixedLiteral(Trim(text)) || IsDecimalLiteral(Trim(text))
  {
    TrimIdempotent(text);
    LiteralShape(Trim(text));
  }

  /** A trimmed prefixed or signed decimal literal is accepted. */
  lemma LiteralIsAccepted(text: string)
    requires IsPrefixedLiteral(Trim(text)) || IsDecimalLiteral(Trim(text))
    ensures TryParseBigInt(text).Some?
  {
    var t := Trim(text);
    TrimIdempotent(text);
    assert TryParseBigInt(text) == TryParseBigInt(t);
    if IsPrefixedLiteral(t) {
      assert t == ['0', t[1]] + t[2..];
      PrefixedRun(t[1], t[2..]);
    } else {
      var sign, d :| IsSign(sign) && d != [] && AllDigits(d, 10) && t == sign + d;
      SignedDigitRun(sign, d);
    }
  }

  /**
   * The parser accepts exactly the StrIntegerLiteral grammar: text is given a
   * value if and only if, once trimmed, it is a prefixed run or a signed
   * decimal run. Everything else (`"12a"`, `"1-2"`, `"+-3"`, `"0b2"`, `"0x"`)
   * gives no value.
   */
  lemma LiteralAccepted(text: string)
    ensures TryParseBigInt(text).Some? <==> IsPrefixedLiteral(Trim(text)) || IsDecimalLiteral(Trim(text))
  {
    if TryParseBigInt(text).Some? {
      AcceptedIsLiteral(text);
    }
    if IsPrefixedLiteral(Trim(text)) || IsDecimalLiteral(Trim(text)) {
      LiteralIsAccepted(text);
    }
  }

  /** A digit run without its redundant leading zeros (a lone "0" is kept). */
  function StripZeros(d: string): (r: string)
    ensures d != [] ==> r != [] && (r[0] != '0' || |r| == 1)
  {
    if |d| > 1 && d[0] == '0' then StripZeros(d[1..]) else d
  }

  /** The canonical spelling of a signed decimal literal: no `+`, no leading zeros, no `-0`. */
  function CanonicalForm(sign: string, d: string): string {
    var digits := StripZeros(d);
    if sign == "-" && digits != "0" then "-" + digits else digits
  }

  lemma {:induction false} StripZerosValue(d: string)
    requires AllDigits(d, 10)
    ensures AllDigits(StripZeros(d), 10)
    ensures DigitsValue(StripZeros(d), 10) == DigitsValue(d, 10)
  {
    if |d| > 1 && d[0] == '0' {
      assert d == "0" + d[1..];
      LeadingZeroValue(d[1..]);
      StripZerosValue(d[1..]);
    }
  }

  /**
   * Parsing then rendering gives the canonical form of a signed decimal
   * literal: a `+` and leading zeros are dropped, a `-` is kept on a
   * non-zero value.
   */
  lemma CanonicalDecimal(sign: string, d: string)
    requires IsSign(sign) && d != [] && AllDigits(d, 10)
    ensures TryParseBigInt(sign + d).Some?
    ensures DecimalString(TryParseBigInt(sign + d).value) == CanonicalForm(sign, d)
  {
    var digits := StripZeros(d);
    var v: int := DigitsValue(d, 10);
    SignedDigitRun(sign, d);
    StripZerosValue(d);
    DigitsOfValue(digits);
    if digits != "0" {
      LeadingDigitNonZero(digits);
    }
  }
}
