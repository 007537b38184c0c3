# Modular exponentiation page: input parsing, parameter slots and the update pass

This project models the core of `main.js` in Dafny. `main.js` is the script of a web page that
computes `base ** exponent % mod` over arbitrary-precision integers. Each time any of the three
input fields changes, the script:

- re-parses every field as a JavaScript `BigInt`;
- applies the field's range check (none for the base, `>= 0` for the exponent, `!== 0` for the
  modulus);
- shows each parsed value, or the placeholder `???`, in that field's output;
- shows Python's three-argument `pow` (through Pyodide) in the power output, but only when all
  three fields hold a value.

Modules, one per piece of the script:

| module | file | what it models |
|---|---|---|
| `Wrappers` | wrappers.dfy | `Option`, standing in for a value or `undefined` |
| `Whitespace` | whitespace.dfy | `String.prototype.trim` and the white space it strips |
| `BigIntLiteral` | bigint_literal.dfy | `BigInt(string)`, `tryParseBigInt`, `String(bigint)` |
| `Validation` | validation.dfy | `tryValidateBigInt` and the three range predicates |
| `PythonPow` | python_pow.dfy | the documented result of Python's `pow(b, e, m)` |
| `Params` | params.dfy | `Param` and `BaseParam`: one class, `value` and output overwritten by `Parse` |
| `Pipeline` | pipeline.dfy | the `params` object and `update` |
| `Scenarios` | scenarios.dfy | worked inputs and two clients of `Update` |

Design choices:

- `Param` and its subclass `BaseParam` are a single class with a flag `isBase`.
- The input element's text is the argument of `Parse`.
- The output element's `innerText` is the field `output`.
- Each paren element's `parenthesize` class is one flag in the array `parens`. The `forEach` that
  adds or removes the class is the loop in `SetParens`.
- `update` becomes `Calculator.Update(baseText, exponentText, modText)`. Its loop visits the slots
  in the order `Object.values(params)` gives: base, exponent, mod.
- Python's `pow` is foreign code. The model has no exponentiation algorithm for it. `Pow` is a
  function whose definition is Python's documented result: `b ** e` reduced with floor modulo, so
  a non-zero result has the sign of `m`. Its precondition `e >= 0 && m != 0` is checked at the
  call in `Update`, which proves the call is only reached with valid arguments.

Further modelling choices:

- The model accepts the `0x`/`0o`/`0b` literals that `BigInt` accepts, in either case of the
  letter, besides signed decimal text.
- Python's `pow` is not re-implemented: the model states its result, not an algorithm.
- A non-zero power takes the sign of the modulus, as Python's floor modulo gives.
- The negative-base display is the `parenthesize` class toggled on each paren element.
- A `Param` in `main.js` takes any predicate as its range check (main.js:56, 61-63). The model
  narrows this to the datatype `RangeCheck`, with one constructor per predicate the page uses:
  the default that admits everything, `>= 0` and `!== 0`.

## Model

| member | source | states |
|---|---|---|
| `Whitespace.Trim` | main.js:10 | `String.prototype.trim`, defined as dropping leading, then trailing white space; its meaning is stated by `TrimInfix` (the result is the input less a white prefix and a white suffix) with `TrimFacts` (that result is empty or bounded by non-white characters), which together fix it on every input, and by `TrimIdempotent` and `TrimIgnoresPadding` |
| `BigIntLiteral.IntegerLiteral` | main.js:17 | the StrIntegerLiteral grammar of `BigInt(text)` on trimmed text: a `0x`/`0o`/`0b` prefix and its digits, or an optional sign and a decimal run; anything else is `None`, standing for the SyntaxError; its values are stated by `SignedDigitRun` and `PrefixedRun`, and the text it accepts by `LiteralAccepted` (both directions), `StrayCharacterRefused` and `CanonicalDecimal` |
| `BigIntLiteral.StringToBigInt` | main.js:17 | `BigInt(text)`: white space is skipped, empty text is 0, and otherwise the text must be an `IntegerLiteral`; see `EmptyRefused` |
| `BigIntLiteral.TryParseBigInt` | main.js:9-25 | `tryParseBigInt`: trims, refuses empty text, and otherwise gives what `BigInt` gives, `None` for a SyntaxError; stated by `EmptyRefused`, `AgreesWithBigInt` and `PaddingIgnored` |
| `Validation.RangeCheck.Admits` | main.js:61-63 | the three range predicates: the default admits every value, the exponent's admits `>= 0` and the modulus's admits `!== 0` (main.js:113-114) |
| `Validation.TryValidateBigInt` | main.js:28-31 | `tryValidateBigInt`: the parsed value when it exists and the predicate admits it, otherwise nothing; stated by `ValidatedMeaning` and `ValidatedInRange` |
| `Pipeline.PowerText` | main.js:132-140 | the text the power output gets from the three input texts: `String(pow(...))` when all three validate, otherwise `???`; stated by `PowerTextMeaning` and `PowerTextOfDecimals` |
| `Scenarios.ZeroModulusClearsPower` | main.js:124-141 | a pass over 5, 3, 13 shows 8; a second pass with the modulus changed to "0" shows `???` for the power, keeps the values 5 and 3 and leaves the modulus without a value |
| `Whitespace.TrimStartFacts` | main.js:10 | dropping leading white space leaves the empty string exactly for all-white text, and otherwise text that starts with a non-white character |
| `Whitespace.TrimEndFacts` | main.js:10 | dropping trailing white space leaves the empty string exactly for all-white text, and otherwise text that keeps the first character and ends with a non-white one |
| `Whitespace.TrimFacts` | main.js:10 | `trim` gives "" exactly for all-white text, and otherwise text that starts and ends with a non-white character |
| `Whitespace.TrimStartInfix` | main.js:10 | dropping leading white space removes a white prefix of the text and nothing else |
| `Whitespace.TrimEndInfix` | main.js:10 | dropping trailing white space removes a white suffix of the text and nothing else |
| `Whitespace.TrimInfix` | main.js:10 | every text is a white prefix, then what `trim` returns, then a white suffix: `trim` keeps the middle of its input |
| `Whitespace.TrimIdempotent` | main.js:10 | trimming trimmed text changes nothing (so `BigInt`'s own white-space skipping is a no-op after `trim`) |
| `Whitespace.TrimIgnoresPadding` | main.js:10 | white space added on either side does not change what `trim` returns |
| `BigIntLiteral.EmptyRefused` | main.js:10-14 | empty or all-white text gives no value, while `BigInt` on the same text gives 0 |
| `BigIntLiteral.AgreesWithBigInt` | main.js:16-17 | on text with a non-white character, `tryParseBigInt` gives exactly what `BigInt(text)` gives |
| `BigIntLiteral.PaddingIgnored` | main.js:10 | leading and trailing white space does not change the parse result |
| `BigIntLiteral.StrayCharacterRefused` | main.js:16-20 | trimmed text that holds a character with no place in an integer literal gives no value instead of an exception |
| `BigIntLiteral.SignedDigitRun` | main.js:17 | every non-empty decimal digit run parses to its value, after `+` unchanged and after `-` negated |
| `BigIntLiteral.PrefixedRun` | main.js:17 | every non-empty run of digits after a `0x`, `0o` or `0b` prefix, in either case of the letter, parses to its value in that radix |
| `BigIntLiteral.LiteralShape` | main.js:17 | whatever `BigInt`'s literal grammar gives a value to is a prefixed run or a signed decimal run |
| `BigIntLiteral.AcceptedIsLiteral` | main.js:9-25 | text that `tryParseBigInt` accepts is, once trimmed, a prefixed run or a signed decimal run |
| `BigIntLiteral.LiteralIsAccepted` | main.js:9-25 | text that is, once trimmed, a prefixed run or a signed decimal run is accepted |
| `BigIntLiteral.LiteralAccepted` | main.js:9-25 | `tryParseBigInt` gives a value if and only if the trimmed text is a prefixed run or a signed decimal run, so `"12a"`, `"1-2"`, `"+-3"`, `"0b2"` and `"0x"` give none |
| `BigIntLiteral.CanonicalDecimal` | main.js:17 | parsing a signed decimal literal and rendering the value gives its canonical form: no `+`, no leading zeros, no `-0` |
| `BigIntLiteral.Digits` | main.js:78 | the decimal digits of a natural number are a non-empty run of decimal digits with no leading zero |
| `BigIntLiteral.DecimalString` | main.js:78 | `String(bigint)` starts with `-` exactly for negative values, and the rest is decimal digits |
| `BigIntLiteral.DecimalRoundTrip` | main.js:78 | the decimal text of any integer parses back to that integer |
| `BigIntLiteral.DigitsOfValue` | main.js:78 | rendering the value of a digit run without leading zeros gives the run back |
| `Validation.ValidatedMeaning` | main.js:28-31 | the validated result is present iff the text parses and the range predicate admits the value, and then it is the parsed value unchanged |
| `Validation.ValidatedInRange` | main.js:30 | a validated value satisfies its range predicate (exponent `>= 0`, modulus `!= 0`) |
| `PythonPow.FloorMod` | main.js:117-118 | Python's `%` lies in `[0, m)` for positive `m` and in `(m, 0]` for negative `m`, and differs from the dividend by a multiple of `m` |
| `PythonPow.FloorModUnique` | main.js:117-118 | that range together with the congruence determines the result |
| `PythonPow.Pow` | main.js:117-118 | `pow(b, e, m)` needs `e >= 0` and `m != 0`, lies between 0 and `m`, and is congruent to `b ** e` modulo `m` |
| `PythonPow.PowZeroExponent` | main.js:117-118 | a zero exponent gives 0 for a modulus of 1 or -1, 1 for a larger modulus, and `m + 1` for a modulus below -1 |
| `PythonPow.PowUnitModulus` | main.js:117-118 | every power is 0 modulo 1 or -1 |
| `Params.Display` | main.js:74-107 | an output shows `???` exactly when there is no value, and a negative base starts with U+2212 |
| `Params.DisplayReadsBack` | main.js:76-78 | every output other than a negative base reads back as its value; the placeholder `???` reads back as no value |
| `Params.NegativeBaseReadsBack` | main.js:96-100 | a negative base shows U+2212 followed by text that reads back as the magnitude `-value` |
| `Params.Param.constructor` | main.js:56-64 | a parameter created without a range check admits every value, starts with no value and has no paren elements |
| `Params.Param.Base` | main.js:86-91 | the base has no range check and keeps the page's paren elements |
| `Params.Param.Parse` | main.js:68-72 | `value` is overwritten with the validated parse of the text, a stale value included; the result is true iff there is a value; the output shows it |
| `Params.Param.Show` | main.js:95-107 | the output shows the value; for the base, every paren flag is set exactly when the value is negative; other parameters' flags are untouched |
| `Params.Param.SetParens` | main.js:96-103 | every paren element's class is added or removed |
| `Pipeline.PowerTextMeaning` | main.js:132-140 | the power shows `???` exactly when some text is not an integer, the exponent is negative or the modulus is zero; otherwise it reads back as `pow` of the three parsed values |
| `Pipeline.PowerTextOfDecimals` | main.js:132-137 | when the three texts are the decimals of a base, an exponent `>= 0` and a non-zero modulus, the power shows the decimal of `pow` of those values |
| `Pipeline.Calculator.constructor` | main.js:111-115 | base without a range check, exponent `>= 0`, modulus `!= 0`, three distinct slots, none with a value, and paren elements only around the base |
| `Pipeline.Calculator.Update` | main.js:124-141 | all three slots are re-parsed and shown whatever fails, and the power output is the function of the three texts stated by `PowerTextMeaning`, with nothing kept from the previous pass |
| `Scenarios.AcceptedDecimals` | main.js:17 | `"+007"` parses to 7 |
| `Scenarios.AcceptedHexadecimal` | main.js:17 | `"0x1F"` parses to 31 |
| `Scenarios.AcceptedOctal` | main.js:17 | `"0o17"` parses to 15 |
| `Scenarios.AcceptedBinary` | main.js:17 | `"0B101"` parses to 5 |
| `Scenarios.BlankTexts` | main.js:12-14 | `""` and `"   "` give no value |
| `Scenarios.MalformedTexts` | main.js:18-20 | `"12a"` and `"1e3"` give no value |
| `Scenarios.MisplacedSigns` | main.js:18-20 | `"- 3"` and `"-0x1"` give no value |
| `Scenarios.PowerFiveThreeThirteen` | main.js:132-137 | base 5, exponent 3, modulus 13 show 8 |
| `Scenarios.PowerNegativeBaseOddExponent` | main.js:132-137 | base -7, exponent 3, modulus 10 show 7 |
| `Scenarios.PowerNegativeModulus` | main.js:132-137 | base 2, exponent 3, modulus -5 show -2 |
| `Scenarios.NegativeExponentUnavailable` | main.js:138-140 | exponent -1 shows `???` for the power |
| `Scenarios.ZeroModulusUnavailable` | main.js:138-140 | modulus 0 shows `???` for the power |
| `Scenarios.NegativeBaseShown` | main.js:95-100 | base -7 shows U+2212 then 7; any other parameter shows `-7` |
| `Scenarios.UpdateTwice` | main.js:124-141 | two passes over the same texts show the same power |

## Left out

- Loading Pyodide and the status messages (main.js:34-51): startup I/O that happens once, before the first pass.
- The DOM: `getElementById`, `getElementsByClassName`, `classList`, `innerText` and `addEventListener` (main.js:57-58, 89-90, 143-146). The input text is a parameter, and outputs and classes are plain fields. The event wiring and the initial `update()` call are not modelled.
- The algorithm inside Python's `pow` (main.js:118, 133-135): it is foreign code. `Pow` is defined as its documented result.
- How Pyodide converts a `BigInt` to a Python `int` and the result back: the values are treated as the same integer on both sides.
- The rethrow of errors other than `SyntaxError` (main.js:21-23): `BigInt` on a string throws nothing else.
- The white-space set is written out from sections 12.2 and 12.3 of ECMA-262 (WhiteSpace, which includes every "Zs" space of Unicode, and LineTerminator). The model does not follow a change in the Unicode version the engine uses.
