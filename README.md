# Arithmetic expression engine of calc-back, modelled in Dafny

The calc-back service stores arithmetic expressions and evaluates them with one small engine,
`pkg/math/calcualte/calculable.go`. This project models that engine and proves what it does.

- `parsing` scans the expression text once, left to right. It keeps the current operand's digits
  and dots in a text buffer and appends to an operand slice and an operator slice. It stops at the
  first illegal character with one of five sentinel errors, or with the number-conversion error.
  Here it is the method `Parsing.Parse`. That method is proved equal to `Parsing.Parsed`: the
  start and end checks, then a fold of the one-character state machine `Parsing.Step` over the
  input (`Parsing.ScanFrom`), then the conversion of the last operand.
- `CalculateExpression` folds the operands strictly left to right through the `operations` table
  and hands the value to the caller's `SetResult`. The loop is `Evaluation.Evaluate`, proved equal
  to the left fold `Evaluation.Fold`. The entry point is `Evaluation.CalculateExpression`, which
  works on a `Calculation` object (the `Calculable` sink). Its ghost field `results` logs every
  value passed to `SetResult`.
- Numbers are abstract. An operand's buffer is its digit-and-dot text, and its value is
  `Value(text)`, an exact decimal `real`. "Conversion succeeds" is `Operand.ValidNumber`: only
  digits and dots, at least one digit, at most one dot. The four operations are over `real`.

The main results:
- `ParsingProperties.ParsedCharacterization`: parsing succeeds exactly on `WellFormed` input.
  WellFormed means a digit first and last, only allowed characters, and every space-free text
  between operators a valid number. The result is then the values of those texts and the operator
  characters in textual order.
- `ParsingProperties.FirstRejectionDecides` and `ParsingProperties.ScanErrorLocated`: the error is
  the one `Step` gives at the first character it rejects.
- `ParsingProperties.NumberFormatNeedsSecondDot`: the only text the float parser can reject is
  one with two dots separated by digits, such as `"1.2.3"`.
- `Evaluation.Calculated` and `Evaluation.CalculatedCharacterization`: the whole engine never
  reports `UnknownOperator`, and otherwise reports the parse error. It succeeds exactly on
  `WellFormed` input, and the result is the left fold of the operand values.

The start and end checks read the raw first and last character, not the first and last
non-space one, so `" 2+3"` is rejected as starting with an operator. The scan skips only `' '`,
so a tab is an invalid character.

## Model

| member | source | states |
|---|---|---|
| Operand.ValidNumber | pkg/math/calcualte/calculable.go:88 | A text the float parser accepts is never empty, never a lone dot, and never has two dots together. |
| Operand.ValueWithinUnitOfWhole | pkg/math/calcualte/calculable.go:102 | The converted value lies between the value of the digits before the dot and one more than that. |
| Parsing.Step | pkg/math/calcualte/calculable.go:69-98 | One character of the scan never gives UnknownOperator. Only an operator extends the operator slice, by itself, and the operand slice grows exactly as much as the operator slice. |
| Parsing.StepErrors | pkg/math/calcualte/calculable.go:69-98 | Each error of one scan step, both ways. An invalid character gives InvalidCharacter. A dot after a dot in the buffer gives DoubleDot. An operator on an empty or lone-dot buffer gives ConsecutiveOperators. An operator on any other buffer that does not convert gives NumberFormat with that buffer's text. |
| Parsing.ScanFrom | pkg/math/calcualte/calculable.go:69-99 | The scan never gives UnknownOperator. On success it has appended exactly the input's operator characters, in order, and as many operands as operators. |
| Parsing.Parsed | pkg/math/calcualte/calculable.go:54-109 | Parsing never gives UnknownOperator. On success there is one more operand than operators, and the operators are the input's operator characters in order. |
| Parsing.Parse | pkg/math/calcualte/calculable.go:54-109 | The imperative scan (buffer and two growing slices, early returns) returns exactly Parsed(input) for every non-empty input. |
| Parsing.Segments | pkg/math/calcualte/calculable.go:79-95 | The texts between operators: there is one more segment than there are operators, and no segment contains an operator. |
| ParsingProperties.SegmentsJoin | pkg/math/calcualte/calculable.go:79-95 | Putting the operators back between the segments gives back the text, so the segments are exactly the texts between consecutive operators. |
| ParsingProperties.ScanFromSegments | pkg/math/calcualte/calculable.go:65-99 | From any buffer without adjacent dots, the scan succeeds iff all characters are allowed, each closed segment converts, and the open one has no adjacent dots. On success it has appended the closed segments' values and the input's operators. |
| ParsingProperties.ParsedCharacterization | pkg/math/calcualte/calculable.go:54-109 | Parsing succeeds iff the input is WellFormed. The result is then the values of the space-free segments, with the input's operators in order. |
| ParsingProperties.BoundaryChecksFirst | pkg/math/calcualte/calculable.go:57-63 | A non-digit first character gives StartsWithOperator. Otherwise a non-digit last character gives EndsWithOperator. Both hold whatever lies between. |
| ParsingProperties.FirstRejectionDecides | pkg/math/calcualte/calculable.go:69-98 | If a prefix scans cleanly and Step rejects the next character, that rejection is the result of parsing. Nothing after it matters. |
| ParsingProperties.ScanErrorLocated | pkg/math/calcualte/calculable.go:69-98 | Every scan error is Step's error at some character whose prefix scanned cleanly. |
| ParsingProperties.ParsedAfterScan | pkg/math/calcualte/calculable.go:101-106 | After a clean scan, a last operand text that converts is appended as the last operand. One that does not convert gives NumberFormat with that text. |
| ParsingProperties.ScanBufferShape | pkg/math/calcualte/calculable.go:69-99 | The buffer always holds digits and dots with no two dots together, and so does the text of a conversion error raised during the scan, which is neither empty nor a lone dot. An input ending in a digit leaves a buffer ending in a digit. |
| ParsingProperties.NumberFormatNeedsSecondDot | pkg/math/calcualte/calculable.go:87-105 | A conversion error names a text of digits and dots with a digit, no two dots together, and at least two dots, as in "1.2.3". |
| ParsingProperties.ParsedIgnoresSpaces | pkg/math/calcualte/calculable.go:71-72 | With a digit first and last, parsing the input with every space removed gives the same result. |
| Evaluation.Quotient | pkg/math/calcualte/calculable.go:21 | For a non-zero divisor the quotient times the divisor is the dividend. A zero divisor gives 0.0 (see Left out). |
| Evaluation.OperationsCoverOperators | pkg/math/calcualte/calculable.go:17-22 | The operations table has an entry for exactly the four operator characters the scan accepts. '+', '-' and '*' add, subtract and multiply, and '/' divides. |
| Evaluation.Fold | pkg/math/calcualte/calculable.go:40-47 | The left fold fails iff some operator has no table entry, and the failure is then UnknownOperator. |
| Evaluation.FoldLeftmostFirst | pkg/math/calcualte/calculable.go:40-47 | No precedence: applying the leftmost operator first and continuing with its value gives the same result. |
| Evaluation.Evaluate | pkg/math/calcualte/calculable.go:40-47 | The accumulator loop returns exactly the left fold of operands and operators. |
| Evaluation.Calculated | pkg/math/calcualte/calculable.go:34-51 | A parse error comes back unchanged. A parsed expression always evaluates, so UnknownOperator never occurs. |
| Evaluation.CalculatedCharacterization | pkg/math/calcualte/calculable.go:34-51 | Evaluation succeeds iff the input is WellFormed. The value is then the left fold of the segment values. |
| Evaluation.CalculatedIgnoresSpaces | pkg/math/calcualte/calculable.go:71-72 | With a digit first and last, removing spaces does not change the computed value. |
| Evaluation.Calculation.GetExpression | internal/service/common_calculate.go:14-16 | The sink yields the stored expression text. |
| Evaluation.Calculation.SetResult | internal/service/common_calculate.go:18-20 | The sink stores the value and logs one call. The expression is unchanged. |
| Evaluation.CalculateExpression | pkg/math/calcualte/calculable.go:34-51 | Returns Pass iff the text evaluates. On an error the error is returned and SetResult is never called. On success SetResult is called exactly once, with the computed value. |
| Examples.BoundaryErrors | pkg/math/calcualte/calculable.go:57-63 | "+2+3", " 2+3" and ".5+1" start with an operator. "2+3+", "2+3x" and "2+3 " end with one. |
| Examples.ParsedDoubleOperator | internal/service/calculation_test.go:144 | "1++2" fails with ConsecutiveOperators. |
| Examples.ParsedDoubleDot | pkg/math/calcualte/calculable.go:74-78 | "2..5+3" fails with DoubleDot. |
| Examples.ParsedTab | pkg/math/calcualte/calculable.go:96-97 | "2\t+3" fails with InvalidCharacter. |
| Examples.ParsedTwoDots | pkg/math/calcualte/calculable.go:101-105 | "1.2.3" passes the scan and fails at conversion of the last operand. |
| Examples.OnePlusTwo | internal/service/calculation_test.go:143-149 | "1+2" evaluates to 3. |
| Examples.TwoPlusThreeTimesFour | pkg/math/calcualte/calculable.go:40-47 | "2+3*4" evaluates to 20, not 14. |
| Examples.SpacesIgnored | pkg/math/calcualte/calculable.go:71-72 | "2 + 3" evaluates like "2+3". |
| Examples.DecimalOperands | pkg/math/calcualte/calculable.go:88-91 | "2.5", ".5" and "5." convert to 2.5, 0.5 and 5. "." and "" do not convert. |

## Left out

- Floating point: operand values are exact decimals, and `+ - * /` are exact `real` operations. IEEE-754 rounding is not modelled.
- Evaluation.Quotient: division by zero gives 0.0 here. IEEE-754 gives +Inf, -Inf or NaN (calculable.go:21). The engine does not guard against this case.
- Operand.ValidNumber: models the float parser's syntax only. Range overflow on a very long digit string is not modelled. The parser's own error value is replaced by `NumberFormat(text)`.
- Bytes and runes: the start and end checks read raw bytes (calculable.go:57,61), while the scan reads runes. The model reads characters throughout. This is equivalent for the digit test, because no byte of a multi-byte UTF-8 character is an ASCII digit. Invalid UTF-8 cannot be represented.
- An empty expression makes the code panic on `input[0]`. The model requires a non-empty expression instead.
- Result formatting with shortest round-trip float text in `internal/service/common_calculate.go:19` is not modelled. SetResult stores the number.
- Evaluation.CalculateExpression returns `Pass` or `Fail(error)` where the code returns a nil or non-nil `error`.
- The service, repository, HTTP transport, configuration and start-up code are not part of this model. They are orchestration around database and HTTP libraries.
