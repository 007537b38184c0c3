/** tryValidateBigInt and the range predicates the three parameters use. */
module Validation {
  import opened Wrappers
  import opened BigIntLiteral

  /**
   * The range predicates of the page: the default that admits every value
   * (a parameter created without a rangeCheck), `value >= 0n` for the
   * exponent and `value !== 0n` for the modulus.
   */
  datatype RangeCheck = Unchecked | NonNegative | NonZero {
    predicate Admits(v: int) {
      match this
      case Unchecked => true
      case NonNegative => v >= 0
      case NonZero => v != 0
    }
  }

  /** The parsed value when there is one and the range predicate admits it; otherwise nothing. */
  function TryValidateBigInt(text: string, rangeCheck: RangeCheck): Option<int> {
    var value := TryParseBigInt(text);
    if value.Some? && rangeCheck.Admits(value.value) then value else None
  }

  /**
   * A validated value is present exactly when the text parses and the range
   * predicate admits the parsed value, and it is that value unchanged.
   */
  lemma ValidatedMeaning(text: string, rangeCheck: RangeCheck)
    ensures TryValidateBigInt(text, rangeCheck).Some? <==>
      TryParseBigInt(text).Some? && rangeCheck.Admits(TryParseBigInt(text).value)
    ensures TryValidateBigInt(text, rangeCheck).Some? ==> TryValidateBigInt(text, rangeCheck) == TryParseBigInt(text)
  {
  }

  /** Whatever value survives validation satisfies its range predicate. */
  lemma ValidatedInRange(text: string, rangeCheck: RangeCheck)
    requires TryValidateBigInt(text, rangeCheck).Some?
    ensures rangeCheck.Admits(TryValidateBigInt(text, rangeCheck).value)
  {
  }
}
