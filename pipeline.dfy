/**
 * The page's `params` object and its `update` pass: every input-change event
 * re-parses all three parameters, and the power output shows
 * `pow(base, exponent, mod)` only when all three have a value.
 */
module Pipeline {
  import opened Wrappers
  import opened BigIntLiteral
  import opened Validation
  import opened PythonPow
  import opened Params

  /**
   * The text the power output shows for the three input texts: the decimal
   * of `pow(base, exponent, mod)` when all three have a value, else the
   * placeholder.
   */
  function PowerText(baseText: string, exponentText: string, modText: string): (text: string)
  {
    var b := TryValidateBigInt(baseText, Unchecked);
    var e := TryValidateBigInt(exponentText, NonNegative);
    var m := TryValidateBigInt(modText, NonZero);
    if b.Some? && e.Some? && m.Some? then DecimalString(Pow(b.value, e.value, m.value)) else NoValue
  }

  /**
   * The power output is the placeholder exactly when some text is not an
   * integer, the exponent is negative or the modulus is zero; otherwise it
   * reads back as `pow` of the three parsed values.
   */
  lemma PowerTextMeaning(baseText: string, exponentText: string, modText: string)
    ensures var b, e, m := TryParseBigInt(baseText), TryParseBigInt(exponentText), TryParseBigInt(modText);
      var computable := b.Some? && e.Some? && e.value >= 0 && m.Some? && m.value != 0;
      && (PowerText(baseText, exponentText, modText) == NoValue <==> !computable)
      && (computable ==> TryParseBigInt(PowerText(baseText, exponentText, modText)) == Some(Pow(b.value, e.value, m.value)))
  {
    var b, e, m := TryParseBigInt(baseText), TryParseBigInt(exponentText), TryParseBigInt(modText);
    if b.Some? && e.Some? && e.value >= 0 && m.Some? && m.value != 0 {
      var p := Pow(b.value, e.value, m.value);
      assert PowerText(baseText, exponentText, modText) == DecimalString(p);
      assert DecimalString(p)[0] != '?';
      DecimalRoundTrip(p);
    }
  }

  /** When every text is the decimal of a valid value, the power output is the decimal of `pow` of those values. */
  lemma PowerTextOfDecimals(b: int, e: int, m: int)
    requires e >= 0 && m != 0
    ensures PowerText(DecimalString(b), DecimalString(e), DecimalString(m)) == DecimalString(Pow(b, e, m))
  {
    DecimalRoundTrip(b);
    DecimalRoundTrip(e);
    DecimalRoundTrip(m);
  }

  class Calculator {
    const base: Param
    const exponent: Param
    const mod: Param
    /** The text of the power output. */
    var powerOutput: string

    /** The three slots are distinct objects with the page's range checks; only the base shows parens. */
    ghost predicate Valid() {
      && base.isBase && base.rangeCheck == Unchecked
      && !exponent.isBase && exponent.rangeCheck == NonNegative
      && !mod.isBase && mod.rangeCheck == NonZero
      && base != exponent && base != mod && exponent != mod
      && base.parens != exponent.parens && base.parens != mod.parens && exponent.parens != mod.parens
      && exponent.parens.Length == 0 && mod.parens.Length == 0
    }

    /** Creates the three parameters; `baseParens` are the paren elements around the base. */
    constructor (baseParens: array<bool>)
      ensures Valid() && base.parens == baseParens
      ensures base.value == None && exponent.value == None && mod.value == None
    {
      base := new Param.Base(baseParens);
      exponent := new Param(NonNegative);
      mod := new Param(NonZero);
    }

    /**
     * One update pass: parses every parameter, even after one has failed,
     * and shows the power when all three have a value, the placeholder
     * otherwise. Nothing of the previous pass survives it.
     */
    method Update(baseText: string, exponentText: string, modText: string)
      requires Valid()
      modifies this, base, exponent, mod, base.parens, exponent.parens, mod.parens
      ensures base.value == TryValidateBigInt(baseText, Unchecked) && base.Shown()
      ensures exponent.value == TryValidateBigInt(exponentText, NonNegative) && exponent.Shown()
      ensures mod.value == TryValidateBigInt(modText, NonZero) && mod.Shown()
      ensures powerOutput == PowerText(baseText, exponentText, modText)
    {
      var slots := [base, exponent, mod];
      var texts := [baseText, exponentText, modText];
      var ok := true;
      var i := 0;
      while i < |slots|
        invariant 0 <= i <= |slots|
        invariant i > 0 ==> base.value == TryValidateBigInt(baseText, Unchecked) && base.Shown()
        invariant i > 1 ==> exponent.value == TryValidateBigInt(exponentText, NonNegative) && exponent.Shown()
        invariant i > 2 ==> mod.value == TryValidateBigInt(modText, NonZero) && mod.Shown()
        invariant ok <==> (i > 0 ==> base.value.Some?) && (i > 1 ==> exponent.value.Some?) && (i > 2 ==> mod.value.Some?)
      {
        var parsed := slots[i].Parse(texts[i]);
        ok := parsed && ok;
        i := i + 1;
      }
      if ok {
        ValidatedInRange(exponentText, NonNegative);
        ValidatedInRange(modText, NonZero);
        var power := Pow(base.value.value, exponent.value.value, mod.value.value);
        powerOutput := DecimalString(power);
      } else {
        powerOutput := NoValue;
      }
    }
  }
}
