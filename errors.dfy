/** The error kinds the expression engine reports (calculable.go, the sentinel errors
    and the error returned by number conversion), and the result type that carries them. */
module Errors {

  datatype Error =
    | UnknownOperator        // operator with no entry in the operations table
    | StartsWithOperator     // first character is not a digit
    | EndsWithOperator       // last character is not a digit
    | DoubleDot              // '.' while the operand buffer already ends in '.'
    | ConsecutiveOperators   // operator while the operand buffer is "" or "."
    | InvalidCharacter       // a character outside digits, '.', ' ', + - * /
    | NumberFormat(text: string)  // the operand text is not a decimal number

  datatype Result<T> = Ok(value: T) | Err(error: Error)
}
