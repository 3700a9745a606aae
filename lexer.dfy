/** The scanner of src/main.rs: a single left-to-right pass that keeps an
    optional accumulator for the number being read and pushes tokens onto a
    growing sequence. */
module Lexer {
  import opened Tokens
  import opened TokenizeSpec

  /** Folds one more digit into the pending number; an absent number counts
      as 0. */
  function AppendToNumber(digit: int, current: Option<int>): (r: Option<int>)
    ensures r.Some?
    ensures current.None? ==> r.value == digit
    ensures current.Some? ==> r.value == current.value * 10 + digit
  {
    var number := if current.Some? then current.value else 0;
    Some(number * 10 + digit)
  }

  /** Folding a digit into the accumulator that holds the value of a digit
      run gives the value of the run extended by that digit. */
  lemma AppendToNumberExtendsRun(run: seq<char>, c: char)
    requires AllDigits(run) && IsDigit(c)
    ensures AllDigits(run + [c])
    ensures AppendToNumber(DigitValue(c), if run == [] then None else Some(DecimalValue(run)))
            == Some(DecimalValue(run + [c]))
  {
    assert (run + [c])[..|run|] == run;
    if run == [] {
      assert DecimalValue(run) == 0;
    }
  }

  /** The tokens the scanner's accumulator contributes once it is flushed. */
  function Pending(current: Option<int>): (ts: seq<Token>)
  {
    if current.Some? then [Number(current.value)] else []
  }

  /** The scanner has read the legal prefix p: its space-free text is
      done + run, where done ends at an operator (or is empty) and run is
      the digit run still in the accumulator. */
  ghost predicate Scanned(p: seq<char>, done: seq<char>, run: seq<char>)
  {
    && (forall j :: 0 <= j < |p| ==> IsLegal(p[j]))
    && Unspaced(p) == done + run
    && SpaceFreeLegal(done) && AllDigits(run)
    && (done == [] || !IsDigit(done[|done| - 1]))
  }

  /** A digit extends the pending run. */
  lemma ScanDigit(input: seq<char>, i: nat, done: seq<char>, run: seq<char>, current: Option<int>)
    requires i < |input| && IsDigit(input[i])
    requires Scanned(input[..i], done, run) && Pending(current) == Flushed(run)
    ensures Scanned(input[..i + 1], done, run + [input[i]])
    ensures Pending(AppendToNumber(DigitValue(input[i]), current)) == Flushed(run + [input[i]])
  {
    var p, c := input[..i], input[i];
    assert input[..i + 1] == p + [c];
    UnspacedSnoc(p, c);
    AppendToNumberExtendsRun(run, c);
    ScannedLegal(p, c);
  }

  /** A space changes nothing but the position. */
  lemma ScanSpace(input: seq<char>, i: nat, done: seq<char>, run: seq<char>)
    requires i < |input| && input[i] == ' '
    requires Scanned(input[..i], done, run)
    ensures Scanned(input[..i + 1], done, run)
  {
    var p := input[..i];
    assert input[..i + 1] == p + [' '];
    UnspacedSnoc(p, ' ');
    ScannedLegal(p, ' ');
  }

  /** An operator flushes the pending run, then adds its own token. */
  lemma ScanOperator(input: seq<char>, i: nat, done: seq<char>, run: seq<char>,
                     tokens: seq<Token>, current: Option<int>)
    requires i < |input| && IsOperatorChar(input[i])
    requires Scanned(input[..i], done, run)
    requires tokens == LexSpaceFree(done) && Pending(current) == Flushed(run)
    ensures Scanned(input[..i + 1], done + run + [input[i]], [])
    ensures (if current.Some? then tokens + [Number(current.value)] else tokens) + [OperatorToken(input[i])]
            == LexSpaceFree(done + run + [input[i]])
  {
    var p, c := input[..i], input[i];
    assert input[..i + 1] == p + [c];
    ScannedOperator(p, c, done, run);
    FlushThenPush(done, run, c, tokens, current);
  }

  /** The tokens after an operator: those of done, the flushed run, then
      the operator's own token. */
  lemma FlushThenPush(done: seq<char>, run: seq<char>, c: char, tokens: seq<Token>, current: Option<int>)
    requires SpaceFreeLegal(done) && AllDigits(run) && IsOperatorChar(c)
    requires done == [] || !IsDigit(done[|done| - 1])
    requires tokens == LexSpaceFree(done) && Pending(current) == Flushed(run)
    ensures SpaceFreeLegal(done + run + [c])
    ensures (if current.Some? then tokens + [Number(current.value)] else tokens) + [OperatorToken(c)]
            == LexSpaceFree(done + run + [c])
  {
    LexRunThenOperator(run, c);
    LexConcat(done, run + [c]);
    assert done + run + [c] == done + (run + [c]);
    assert (if current.Some? then tokens + [Number(current.value)] else tokens) == tokens + Pending(current);
  }

  lemma ScannedLegal(p: seq<char>, c: char)
    requires forall j :: 0 <= j < |p| ==> IsLegal(p[j])
    requires IsLegal(c)
    ensures forall j :: 0 <= j < |p + [c]| ==> IsLegal((p + [c])[j])
  {
    var q := p + [c];
    forall j | 0 <= j < |q| ensures IsLegal(q[j]) {
      if j < |p| { assert q[j] == p[j]; }
    }
  }

  lemma ScannedOperator(p: seq<char>, c: char, done: seq<char>, run: seq<char>)
    requires Scanned(p, done, run) && IsOperatorChar(c)
    ensures Scanned(p + [c], done + run + [c], [])
  {
    UnspacedSnoc(p, c);
    ScannedLegal(p, c);
    LexRunThenOperator(run, c);
    SpaceFreeLegalConcat(done, run + [c]);
    assert done + run + [c] == done + (run + [c]);
  }

  /** A character outside the alphabet, after a legal prefix, is the
      first illegal one. */
  lemma ScanIllegal(input: seq<char>, i: nat, done: seq<char>, run: seq<char>)
    requires i < |input| && !IsLegal(input[i])
    requires Scanned(input[..i], done, run)
    ensures Spec(input) == Err(InvalidCharacter(input[i]))
  {
    forall j | 0 <= j < i ensures IsLegal(input[j]) {
      assert input[j] == input[..i][j];
    }
    SpecAtFirstIllegal(input, i);
  }

  /** At the end of the input the pending run is flushed. */
  lemma ScanEnd(input: seq<char>, done: seq<char>, run: seq<char>, tokens: seq<Token>, current: Option<int>)
    requires Scanned(input[..|input|], done, run)
    requires tokens == LexSpaceFree(done) && Pending(current) == Flushed(run)
    ensures Spec(input) == Ok(if current.Some? then tokens + [Number(current.value)] else tokens)
  {
    assert input[..|input|] == input;
    LexConcat(done, run);
    if run != [] {
      LexDigits(run);
    } else {
      assert done + run == done;
    }
    SpecOfLegal(input);
  }

  /** The loop of src/main.rs: digits go into the accumulator, an operator
      flushes it and adds its own token, a space is skipped, anything else
      aborts; at the end the accumulator is flushed. */
  method Tokenize(input: seq<char>) returns (r: Result<seq<Token>>)
    ensures r == Spec(input)
  {
    var tokens: seq<Token> := [];
    var current: Option<int> := None;
    // The space-free text read so far is done + run: done is what the
    // tokens already cover, run the digits of the pending number.
    ghost var done: seq<char> := [];
    ghost var run: seq<char> := [];
    for i := 0 to |input|
      invariant Scanned(input[..i], done, run)
      invariant tokens == LexSpaceFree(done)
      invariant Pending(current) == Flushed(run)
    {
      var c := input[i];
      if IsDigit(c) {
        ScanDigit(input, i, done, run, current);
        current := AppendToNumber(DigitValue(c), current);
        run := run + [c];
      } else if IsOperatorChar(c) {
        ScanOperator(input, i, done, run, tokens, current);
        if current.Some? {
          tokens := tokens + [Number(current.value)];
          current := None;
        }
        tokens := tokens + [OperatorToken(c)];
        done := done + run + [c];
        run := [];
      } else if c == ' ' {
        ScanSpace(input, i, done, run);
      } else {
        ScanIllegal(input, i, done, run);
        return Err(InvalidCharacter(c));
      }
    }
    ScanEnd(input, done, run, tokens, current);
    if current.Some? {
      tokens := tokens + [Number(current.value)];
    }
    r := Ok(tokens);
  }
}
