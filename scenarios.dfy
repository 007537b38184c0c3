/** Worked inputs of the page, stated as lemmas, and a client of the update pass. */
module Scenarios {
  import opened Wrappers
  import opened BigIntLiteral
  import opened Validation
  import opened PythonPow
  import opened Params
  import opened Pipeline

  /** Empty and blank text gives no value, where `BigInt` would give 0. */
  lemma BlankTexts()
    ensures TryParseBigInt("") == None && TryParseBigInt("   ") == None
  {
  }

  /** Text with a stray letter gives no value instead of an error. */
  lemma MalformedTexts()
    ensures TryParseBigInt("12a") == None && TryParseBigInt("1e3") == None
  {
  }

  /** A sign must touch a decimal run: a gap after it, or a prefixed run after it, gives no value. */
  lemma MisplacedSigns()
    ensures TryParseBigInt("- 3") == None && TryParseBigInt("-0x1") == None
  {
  }

  /** A sign and leading zeros are accepted before a decimal digit run. */
  lemma AcceptedDecimals()
    ensures TryParseBigInt("+007") == Some(7)
  {
    SignedDigitRun("+", "007");
    assert "+" + "007" == "+007";
    assert DigitsValue("007", 10) == 7 by {
      assert "007"[..2] == "00" && "00"[..1] == "0" && "0"[..0] == "";
    }
  }

  /** The hexadecimal prefix reads hexadecimal digits of either case. */
  lemma AcceptedHexadecimal()
    ensures TryParseBigInt("0x1F") == Some(31)
  {
    ParseTrimmed("0x1F");
    assert "0x1F"[2..] == "1F" && AllDigits("1F", 16);
    assert DigitsValue("1F", 16) == 31 by {
      assert "1F"[..1] == "1" && "1"[..0] == "";
    }
  }

  /** The octal prefix reads octal digits. */
  lemma AcceptedOctal()
    ensures TryParseBigInt("0o17") == Some(15)
  {
    PrefixedRun('o', "17");
    assert ['0', 'o'] + "17" == "0o17";
    assert DigitsValue("17", 8) == 15 by {
      assert "17"[..1] == "1" && "1"[..0] == "";
    }
  }

  /** The binary prefix is accepted with an upper-case letter too. */
  lemma AcceptedBinary()
    ensures TryParseBigInt("0B101") == Some(5)
  {
    ParseTrimmed("0B101");
    assert "0B101"[2..] == "101" && AllDigits("101", 2);
    assert DigitsValue("101", 2) == 5 by {
      assert "101"[..2] == "10" && "10"[..1] == "1" && "1"[..0] == "";
    }
  }

  /** Parses `DecimalString(n)` to `n`, for the worked inputs below. */
  lemma ValidatedDecimal(n: int, rangeCheck: RangeCheck)
    requires rangeCheck.Admits(n)
    ensures TryValidateBigInt(DecimalString(n), rangeCheck) == Some(n)
  {
    DecimalRoundTrip(n);
  }

  /** The residues of the worked examples, in Python's sign convention. */
  lemma WorkedResidues()
    ensures Pow(5, 3, 13) == 8 && Pow(-7, 3, 10) == 7 && Pow(2, 3, -5) == -2
  {
  }

  /** The decimal texts of the worked examples. */
  lemma WorkedDecimals()
    ensures DecimalString(5) == "5" && DecimalString(3) == "3" && DecimalString(13) == "13"
    ensures DecimalString(8) == "8" && DecimalString(-7) == "-7" && DecimalString(10) == "10"
    ensures DecimalString(7) == "7" && DecimalString(2) == "2" && DecimalString(-5) == "-5"
    ensures DecimalString(-2) == "-2"
  {
  }

  /** 5 to the 3rd is 125, which is 8 modulo 13. */
  lemma PowerFiveThreeThirteen()
    ensures PowerText("5", "3", "13") == "8"
  {
    WorkedResidues();
    WorkedDecimals();
    PowerTextOfDecimals(5, 3, 13);
  }

  /** -7 cubed is -343, which is 7 modulo 10 once floored. */
  lemma PowerNegativeBaseOddExponent()
    ensures PowerText("-7", "3", "10") == "7"
  {
    WorkedResidues();
    WorkedDecimals();
    PowerTextOfDecimals(-7, 3, 10);
  }

  /** A negative modulus gives a result of its sign: 8 is -2 modulo -5. */
  lemma PowerNegativeModulus()
    ensures PowerText("2", "3", "-5") == "-2"
  {
    WorkedResidues();
    WorkedDecimals();
    PowerTextOfDecimals(2, 3, -5);
  }

  /** A negative exponent leaves the power unavailable. */
  lemma NegativeExponentUnavailable()
    ensures PowerText("2", "-1", "5") == NoValue
  {
    assert TryValidateBigInt("-1", NonNegative) == None by {
      assert DecimalString(-1) == "-1";
      DecimalRoundTrip(-1);
    }
  }

  /** A zero modulus leaves the power unavailable. */
  lemma ZeroModulusUnavailable()
    ensures PowerText("5", "3", "0") == NoValue
  {
    assert TryValidateBigInt("0", NonZero) == None by {
      assert DecimalString(0) == "0";
      DecimalRoundTrip(0);
    }
  }

  /** A negative base is shown with U+2212 and its magnitude. */
  lemma NegativeBaseShown()
    ensures Display(Some(-7), true) == [Minus] + "7"
    ensures Display(Some(-7), false) == "-7"
  {
  }

  /** A pass depends on the texts alone: running it twice on the same texts shows the same power. */
  method UpdateTwice(c: Calculator, baseText: string, exponentText: string, modText: string)
    returns (first: string, second: string)
    requires c.Valid()
    modifies c, c.base, c.exponent, c.mod, c.base.parens, c.exponent.parens, c.mod.parens
    ensures first == second
  {
    c.Update(baseText, exponentText, modText);
    first := c.powerOutput;
    c.Update(baseText, exponentText, modText);
    second := c.powerOutput;
  }

  /**
   * After a pass that shows a power, changing only the modulus to "0" shows
   * the placeholder on the next pass, while base and exponent keep showing
   * their values.
   */
  method ZeroModulusClearsPower(c: Calculator) returns (before: string)
    requires c.Valid()
    modifies c, c.base, c.exponent, c.mod, c.base.parens, c.exponent.parens, c.mod.parens
    ensures before == "8" && c.powerOutput == NoValue
    ensures c.base.value == Some(5) && c.exponent.value == Some(3) && c.mod.value == None
  {
    c.Update("5", "3", "13");
    PowerFiveThreeThirteen();
    before := c.powerOutput;
    c.Update("5", "3", "0");
    ZeroModulusUnavailable();
    assert DecimalString(5) == "5" && DecimalString(3) == "3";
    ValidatedDecimal(5, Unchecked);
    ValidatedDecimal(3, NonNegative);
  }
}
