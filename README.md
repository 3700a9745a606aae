# rust_calculator lexer, modelled in Dafny

The repository is meant to become an arithmetic calculator. So far it
contains one working stage: a lexer that turns text such as
`"1 + 232*32-  21"` into a sequence of tokens. It recognises:

- decimal numbers;
- `+ - * /`;
- parentheses.

Spaces are skipped. The first character outside that alphabet aborts the
scan with `InvalidCharacter(c)`. This project models that lexer
(`tokenize` and `append_to_number` in `src/main.rs`) and proves what it
computes.

Files:

- `tokens.dfy` (module `Tokens`): the `Token` and `CalculatorError` enums,
  plus the `Option` and `Result` wrappers.
- `tokenize_spec.dfy` (module `TokenizeSpec`): a reference definition
  `Spec` of what tokenizing means, written without the scanner's
  accumulator:
  - the input is rejected at its first illegal character (`FirstIllegal`);
  - otherwise every space is dropped (`Unspaced`);
  - the space-free text is then cut into maximal digit runs and single
    operator characters (`LexSpaceFree`).
- `lexer.dfy` (module `Lexer`): `AppendToNumber`, and `Tokenize`, an
  imperative transcription of the source's loop. It keeps the accumulator
  `current`, pushes onto `tokens` and returns early on an illegal
  character. It is proved to return exactly `Spec(input)`. The proof uses
  a ghost loop invariant (`Scanned`) that splits the space-free text read
  so far into two parts: the part already turned into tokens, and the
  digit run still pending in the accumulator.
- `tokenize_properties.dfy` (module `TokenizeProperties`): properties of
  `Spec`, and so of `Tokenize`:
  - acceptance;
  - the value of a digit string;
  - spaces having no effect;
  - operator tokens;
  - where numbers end.
- `tokenize_examples.dfy` (module `TokenizeExamples`): the three unit
  tests of `src/main.rs`, stated as lemmas about `Spec`.

Two consequences of the code as written:

- A space does not end a number. The loop skips `' '` without flushing
  the accumulator (src/main.rs:48), so `"1 2"` is the single token
  `Number(12)` (`SpaceInsideNumber`, `SpaceInsertion`).
- The lexer does no structural checking. Unbalanced parentheses and a
  trailing operator are accepted (`AcceptedIffLegal`, `Tokenize2`).
  `calculate` (src/main.rs:21-25) ignores the tokens and returns 3,
  although `main` (src/main.rs:3) calls it on `"1 + 3 * (3-1) / 2"`. No
  validator, tree builder or evaluator exists in the code.

## Model

| member | source | states |
|---|---|---|
| Lexer.Tokenize | src/main.rs:27-56 | The scanning loop returns exactly the reference result `Spec(input)`: the first illegal character's error, or the tokens of the space-free text |
| Lexer.AppendToNumber | src/main.rs:57-63 | Always returns `Some`; an absent accumulator counts as 0, so the result is `digit`, or `n*10 + digit` when the accumulator holds `n` |
| Lexer.AppendToNumberExtendsRun | src/main.rs:57-63 | Folding a digit into the accumulator that holds the value of a digit run gives the value of the run extended by that digit |
| Lexer.ScanDigit | src/main.rs:32-41 | A digit keeps the prefix legal, extends the pending run and keeps the accumulator equal to that run's value |
| Lexer.ScanOperator | src/main.rs:42-47 | An operator flushes a pending number, then pushes its own token; the tokens then cover all text read so far |
| Lexer.ScanSpace | src/main.rs:48 | A space changes neither the tokens nor the pending run |
| Lexer.ScanIllegal | src/main.rs:49 | A character outside the alphabet after a legal prefix makes the result `Err(InvalidCharacter(c))` for that character |
| Lexer.FlushThenPush | src/main.rs:42-47 | The tokens of the text read, the pending number if there is one, then the operator's token are the tokens of the text extended by the operator |
| Lexer.ScanEnd | src/main.rs:52-55 | At the end of the input, flushing a pending number gives the accepted result |
| TokenizeSpec.Spec | src/main.rs:27-56 | The reference result of tokenizing: an error always names a character of the input outside the alphabet, and an accepted input never has more tokens than characters. The full definition is tied to the source through `Lexer.Tokenize` |
| TokenizeSpec.LexSpaceFree | src/main.rs:32-54 | Tokens of space-free legal text, one maximal digit run per `Number` and one token per operator character: never more tokens than characters, and at least one for non-empty text. Its shape is pinned down by `LexDigits`, `LexConcat`, `LexRunThenOperator`, `LexOperators` and `LexLast` |
| TokenizeSpec.IsLegal | src/main.rs:31-49 | A character is accepted exactly when it is one of `0123456789+-*/() `, the characters with a match arm of their own |
| TokenizeSpec.OperatorToken | src/main.rs:42-47 | An operator character never yields a `Number`, and distinct characters yield distinct tokens (`OperatorTokenInjective`). The body maps `+ - * / ( )` to `Add`, `Subtract`, `Multiply`, `Divide`, `BeginParenthesis`, `EndParenthesis`, one branch per match arm |
| TokenizeSpec.DecimalValue | src/main.rs:57-63 | The non-negative value of a digit string, most significant digit first, as the `*10 + digit` fold builds it; see `DecimalValueConcat` and `DecimalValueBound` |
| TokenizeSpec.FirstIllegal | src/main.rs:31-50 | Returns the index of the first character that is not a digit, operator or space, with every earlier character legal; `None` exactly when all characters are legal |
| TokenizeSpec.LeadingDigits | src/main.rs:32-41 | The length of the maximal digit prefix: every character before it is a digit and the next one is not |
| TokenizeSpec.LeadingDigitsUnique | src/main.rs:32-41 | A maximal digit prefix has only one possible length |
| TokenizeSpec.Unspaced | src/main.rs:48 | Dropping spaces never lengthens the text and leaves no space in it |
| TokenizeSpec.UnspacedConcat | src/main.rs:48 | Dropping spaces distributes over concatenation |
| TokenizeSpec.LexDigits | src/main.rs:52-54 | A non-empty digit run on its own is exactly one `Number` token holding its decimal value |
| TokenizeSpec.LexConcat | src/main.rs:42-47 | Tokenizing space-free text splits wherever a digit run does not continue across the split |
| TokenizeSpec.LexRunThenOperator | src/main.rs:42-47 | A digit run followed by an operator gives the run's number, if the run is non-empty, then the operator's token |
| TokenizeSpec.SpecAtFirstIllegal | src/main.rs:49 | An input whose first illegal character is at index i is rejected with that character |
| TokenizeSpec.SpecOfLegal | src/main.rs:30-55 | An input whose characters are all legal is accepted with the tokens of its space-free text |
| TokenizeProperties.AcceptedIffLegal | src/main.rs:30-55 | An input is accepted exactly when every character is a digit, operator or space; an error always names the first other character; token order and parenthesis balance are never checked |
| TokenizeProperties.DigitsOnly | src/main.rs:32-41 | A non-empty input made only of digits is one `Number` token equal to its decimal value |
| TokenizeProperties.DecimalValueBound | src/main.rs:57-63 | The value accumulated from n digits is below 10^n |
| TokenizeProperties.DecimalValueConcat | src/main.rs:57-63 | Accumulating `a` then `b` gives value(a)·10^length(b) + value(b) |
| TokenizeProperties.NineDigitsFitI32 | src/main.rs:57-63 | A run of at most nine digits never exceeds the i32 maximum 2147483647 |
| TokenizeProperties.SpacesTransparent | src/main.rs:48 | Removing every space from the input does not change the result, whether it is an error or a token list |
| TokenizeProperties.SpaceInsertion | src/main.rs:48 | Inserting a space at any position, even inside a number, does not change the result |
| TokenizeProperties.OperatorTokenInjective | src/main.rs:42-47 | Distinct operator characters give distinct tokens |
| TokenizeProperties.OperatorsInOrder | src/main.rs:42-47 | On success, the non-number tokens are exactly one token per operator character, in input order |
| TokenizeProperties.NoAdjacentNumberTokens | src/main.rs:42-54 | On success, no two `Number` tokens are adjacent |
| TokenizeProperties.EndsWithNumber | src/main.rs:52-54 | On success, the last token is a `Number` exactly when the last non-space character is a digit |
| TokenizeProperties.LexOperators | src/main.rs:42-47 | On space-free legal text, the non-number tokens are the operator characters' tokens in order |
| TokenizeProperties.LexLast | src/main.rs:52-54 | On non-empty space-free legal text, the last token is a `Number` exactly when the last character is a digit |
| TokenizeExamples.Tokenize1 | src/main.rs:73-82 | `"1 + 232*32-  21"` gives the seven tokens `1 + 232 * 32 - 21` |
| TokenizeExamples.Tokenize2 | src/main.rs:88-99 | `"(1 + 232*(32)-"` gives the nine tokens `( 1 + 232 * ( 32 ) -`, despite the unbalanced parenthesis and the trailing operator |
| TokenizeExamples.TokenizeInvalidChar | src/main.rs:104-105 | `"1 +M 232*32-  21"` is rejected with `InvalidCharacter('M')` |
| TokenizeExamples.SpaceInsideNumber | src/main.rs:48 | `"1 2"` is the single token `Number(12)` |

## Left out

- `main` (src/main.rs:2-4) is an entry point with no logic of its own.
- `calculate` (src/main.rs:21-25) ignores the tokens and returns 3; there is no later stage to model.
- Lexer.AppendToNumber: does not model i32 arithmetic. The accumulator is an unbounded integer. In the source, a run whose value exceeds 2147483647 overflows `number *= 10` or `number += digit` (src/main.rs:60-61), which panics in a debug build and wraps in a release build; here it keeps growing. `NineDigitsFitI32` gives a length within which the two always agree.
- Lexer.Tokenize: `Number` holds an unbounded `int` instead of an `i32`, for the same reason.
- `input.chars()` iterates over Unicode scalar values. The model takes the input as a `seq<char>` and does no decoding.
- The `#[derive(Debug, PartialEq)]` impls are not modelled; datatype equality in Dafny stands in for `PartialEq`.
- The test harness itself is not modelled; each test's assertions become a lemma in `tokenize_examples.dfy`.
