/**
 * The parameter slots of the page: Param (exponent, modulus) and its
 * BaseParam variant, folded into one class told apart by `isBase`. The input
 * element's text is the argument of Parse; the output element's text is the
 * field `output`; the "parenthesize" class of each paren element around the
 * base is one flag of the array `parens`.
 */
module Params {
  import opened Wrappers
  import opened BigIntLiteral
  import opened Validation

  /** U+2212 MINUS SIGN, written before the magnitude of a negative base. */
  const Minus: char := '\U{2212}'

  /** What an output shows when its parameter has no value. */
  const NoValue: string := "???"

  /**
   * The text an output shows for `value`: the placeholder when there is no
   * value, the decimal otherwise, except that a negative base shows the minus
   * sign U+2212 and then its magnitude.
   */
  function Display(value: Option<int>, isBase: bool): (text: string)
    ensures text != [] && (text == NoValue <==> value.None?)
    ensures value.Some? && isBase && value.value < 0 ==> text[0] == Minus
  {
    match value
    case None => NoValue
    case Some(v) =>
      if isBase && v < 0 then
        assert ([Minus] + DecimalString(-v))[0] == Minus;
        [Minus] + DecimalString(-v)
      else
        assert DecimalString(v)[0] != '?';
        DecimalString(v)
  }

  /**
   * What an output shows reads back as its value, the placeholder included
   * (it reads back as no value); only a negative base is shown otherwise.
   */
  lemma DisplayReadsBack(value: Option<int>, isBase: bool)
    requires !(isBase && value.Some? && value.value < 0)
    ensures TryParseBigInt(Display(value, isBase)) == value
  {
    var text := Display(value, isBase);
    if value.None? {
      assert text == NoValue && IsForeign(text[0]);
      ParseTrimmed(text);
      ForeignCharacterInLiteral(text, 0);
    } else {
      assert text == DecimalString(value.value);
      DecimalRoundTrip(value.value);
    }
  }

  /** A negative base shows the minus sign U+2212 followed by text that reads back as its magnitude. */
  lemma NegativeBaseReadsBack(v: int)
    requires v < 0
    ensures Display(Some(v), true)[0] == Minus
    ensures TryParseBigInt(Display(Some(v), true)[1..]) == Some(-v)
  {
    assert Display(Some(v), true)[1..] == DecimalString(-v);
    DecimalRoundTrip(-v);
  }

  class Param {
    /** True for the base, whose negative values are shown in parentheses. */
    const isBase: bool
    const rangeCheck: RangeCheck
    /** The "parenthesize" class of each paren element around the base (none for the others). */
    const parens: array<bool>
    var value: Option<int>
    var output: string

    /** The output and the paren flags show `value`. */
    ghost predicate Shown()
      reads this, parens
    {
      && output == Display(value, isBase)
      && (isBase ==> forall j :: 0 <= j < parens.Length ==> parens[j] == (value.Some? && value.value < 0))
    }

    /** A plain parameter; leaving out the range check admits every value. */
    constructor (rangeCheck: RangeCheck := Unchecked)
      ensures !isBase && this.rangeCheck == rangeCheck && value == None
      ensures fresh(parens) && parens.Length == 0
    {
      isBase := false;
      this.rangeCheck := rangeCheck;
      parens := new bool[0];
      value := None;
    }

    /** The base parameter, with the paren elements found on the page; it has no range check. */
    constructor Base(parens: array<bool>)
      ensures isBase && rangeCheck == Unchecked && this.parens == parens && value == None
    {
      isBase := true;
      rangeCheck := Unchecked;
      this.parens := parens;
      value := None;
    }

    /**
     * Parses `text` into `value`, overwriting whatever was there, updates the
     * output either way, and reports whether there is now a value.
     */
    method Parse(text: string) returns (ok: bool)
      modifies this, parens
      ensures value == TryValidateBigInt(text, rangeCheck)
      ensures ok <==> value.Some?
      ensures Shown()
      ensures !isBase ==> parens[..] == old(parens[..])
    {
      value := TryValidateBigInt(text, rangeCheck);
      Show();
      ok := value.Some?;
    }

    /** Brings the output, and for the base the paren flags, in line with `value`. */
    method Show()
      modifies this`output, parens
      ensures Shown()
      ensures !isBase ==> parens[..] == old(parens[..])
    {
      if isBase && value.Some? && value.value < 0 {
        SetParens(true);
        output := [Minus] + DecimalString(-value.value);
      } else {
        if isBase {
          SetParens(false);
        }
        output := if value.None? then NoValue else DecimalString(value.value);
      }
    }

    /** Adds (`on`) or removes the "parenthesize" class on every paren element. */
    method SetParens(on: bool)
      modifies parens
      ensures forall j :: 0 <= j < parens.Length ==> parens[j] == on
    {
      var j := 0;
      while j < parens.Length
        invariant 0 <= j <= parens.Length
        invariant forall k :: 0 <= k < j ==> parens[k] == on
      {
        parens[j] := on;
        j := j + 1;
      }
    }
  }
}
