/** The values the lexer of src/main.rs produces: tokens, the error it can
    report, and the Option and Result shapes its Rust signatures use. */
module Tokens {

  /** A lexical token. The source stores a number as an i32; here it is an
      unbounded integer (see README, "Left out"). */
  datatype Token =
    | Number(value: int)
    | Add
    | Subtract
    | Multiply
    | Divide
    | BeginParenthesis
    | EndParenthesis

  /** The only failure the lexer reports: a character outside the alphabet. */
  datatype CalculatorError = InvalidCharacter(c: char)

  datatype Option<T> = None | Some(value: T)

  /** Rust's Result<T, CalculatorError>. */
  datatype Result<T> = Ok(value: T) | Err(error: CalculatorError)
}
