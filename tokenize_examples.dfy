/** The three tests of src/main.rs, and the space quirk, as facts about the
    reference definition of tokenizing. Each input is written as a
    concatenation of short pieces that spell the test's string. */
module TokenizeExamples {
  import opened Tokens
  import opened TokenizeSpec
  import opened TokenizeProperties

  // One unfolding of DecimalValue, stated for a run extended by a digit so
  // that it applies to concatenations of short literals.
  lemma DecimalValueSnoc(s: seq<char>, c: char)
    requires AllDigits(s) && IsDigit(c)
    ensures AllDigits(s + [c])
    ensures DecimalValue(s + [c]) == DecimalValue(s) * 10 + DigitValue(c)
  {
    assert (s + [c])[..|s|] == s;
  }

  lemma Value232()
    ensures DecimalValue("232") == 232
  {
    DecimalValueSnoc("2", '3');
    DecimalValueSnoc("23", '2');
  }

  lemma Value32()
    ensures DecimalValue("32") == 32
  {
    DecimalValueSnoc("3", '2');
  }

  lemma Value21()
    ensures DecimalValue("21") == 21
  {
    DecimalValueSnoc("2", '1');
  }

  lemma UnspacedOneTwo()
    ensures Unspaced("1" + " " + "2") == "1" + "2"
  {
    UnspacedConcat("1", " ");
    UnspacedConcat("1" + " ", "2");
  }

  lemma Value12()
    ensures AllDigits("1" + "2") && DecimalValue("1" + "2") == 12
  {
    DecimalValueSnoc("1", '2');
  }

  /** "1 2" reads as the single number 12: a space does not end a number. */
  lemma SpaceInsideNumber()
    ensures Spec("1" + " " + "2") == Ok([Number(12)])
  {
    UnspacedOneTwo();
    SpacesTransparent("1" + " " + "2");
    Value12();
    DigitsOnly("1" + "2");
  }

  // tokenize1_test: "1 + 232*32-  21", space-free "1+232*32-21"

  lemma Value1()
    ensures DecimalValue("1") == 1
  {
    DecimalValueSnoc([], '1');
    assert [] + ['1'] == "1";
  }

  /** LexChunk for a non-empty run whose value and whose tail's tokens are
      already known; naming them keeps each example step cheap for the
      solver. */
  lemma Chunk(run: seq<char>, v: int, c: char, rest: seq<char>, ts: seq<Token>)
    requires run != [] && AllDigits(run) && DecimalValue(run) == v
    requires IsOperatorChar(c) && SpaceFreeLegal(rest) && LexSpaceFree(rest) == ts
    ensures SpaceFreeLegal(run + [c] + rest)
    ensures LexSpaceFree(run + [c] + rest) == [Number(v), OperatorToken(c)] + ts
  {
    LexChunk(run, c, rest);
  }

  /** LexOperatorHead for a tail whose tokens are already known; naming the
      tail's tokens keeps each example step cheap for the solver. */
  lemma Head(c: char, rest: seq<char>, ts: seq<Token>)
    requires IsOperatorChar(c) && SpaceFreeLegal(rest) && LexSpaceFree(rest) == ts
    ensures SpaceFreeLegal([c] + rest)
    ensures LexSpaceFree([c] + rest) == [OperatorToken(c)] + ts
  {
    LexOperatorHead(c, rest);
  }

  lemma Lex1c()
    ensures SpaceFreeLegal("32" + "-" + "21")
    ensures LexSpaceFree("32" + "-" + "21") == [Number(32), Subtract, Number(21)]
  {
    Value21();
    LexDigits("21");
    Value32();
    Chunk("32", 32, '-', "21", [Number(21)]);
  }

  lemma Lex1b()
    ensures SpaceFreeLegal("232" + "*" + ("32" + "-" + "21"))
    ensures LexSpaceFree("232" + "*" + ("32" + "-" + "21"))
            == [Number(232), Multiply, Number(32), Subtract, Number(21)]
  {
    Lex1c();
    Value232();
    Chunk("232", 232, '*', "32" + "-" + "21", [Number(32), Subtract, Number(21)]);
  }

  lemma Lex1()
    ensures SpaceFreeLegal("1" + "+" + ("232" + "*" + ("32" + "-" + "21")))
    ensures LexSpaceFree("1" + "+" + ("232" + "*" + ("32" + "-" + "21")))
            == [Number(1), Add, Number(232), Multiply, Number(32), Subtract, Number(21)]
  {
    Lex1b();
    Value1();
    Chunk("1", 1, '+', "232" + "*" + ("32" + "-" + "21"),
          [Number(232), Multiply, Number(32), Subtract, Number(21)]);
  }

  lemma Unspaced1a()
    ensures Unspaced("1" + " " + "+" + " ") == "1" + "+"
  {
    UnspacedConcat("1", " ");
    UnspacedConcat("1" + " ", "+");
    UnspacedConcat("1" + " " + "+", " ");
  }

  lemma Unspaced1b()
    ensures Unspaced("1" + " " + "+" + " " + "232*32-") == "1" + "+" + "232*32-"
  {
    Unspaced1a();
    UnspacedWithoutSpaces("232*32-");
    UnspacedConcat("1" + " " + "+" + " ", "232*32-");
  }

  lemma Unspaced1()
    ensures Unspaced("1" + " " + "+" + " " + "232*32-" + "  " + "21")
            == "1" + "+" + ("232" + "*" + ("32" + "-" + "21"))
  {
    Unspaced1b();
    UnspacedConcat("1" + " " + "+" + " " + "232*32-", "  ");
    UnspacedWithoutSpaces("21");
    UnspacedConcat("1" + " " + "+" + " " + "232*32-" + "  ", "21");
  }

  /** The test tokenize1_test: operators and multi-digit numbers, with
      spaces around some of them. */
  lemma Tokenize1()
    ensures Spec("1" + " " + "+" + " " + "232*32-" + "  " + "21")
            == Ok([Number(1), Add, Number(232), Multiply, Number(32), Subtract, Number(21)])
  {
    Unspaced1();
    SpacesTransparent("1" + " " + "+" + " " + "232*32-" + "  " + "21");
    Lex1();
    SpecOfSpaceFree("1" + "+" + ("232" + "*" + ("32" + "-" + "21")));
  }

  // tokenize2_test: "(1 + 232*(32)-", space-free "(1+232*(32)-"

  lemma Lex2d()
    ensures SpaceFreeLegal("32" + ")" + "-")
    ensures LexSpaceFree("32" + ")" + "-") == [Number(32), EndParenthesis, Subtract]
  {
    assert LexSpaceFree("-") == [Subtract];
    Value32();
    Chunk("32", 32, ')', "-", [Subtract]);
  }

  lemma Lex2c()
    ensures SpaceFreeLegal("(" + ("32" + ")" + "-"))
    ensures LexSpaceFree("(" + ("32" + ")" + "-"))
            == [BeginParenthesis, Number(32), EndParenthesis, Subtract]
  {
    Lex2d();
    Head('(', "32" + ")" + "-", [Number(32), EndParenthesis, Subtract]);
  }

  lemma Lex2b()
    ensures SpaceFreeLegal("232" + "*" + ("(" + ("32" + ")" + "-")))
    ensures LexSpaceFree("232" + "*" + ("(" + ("32" + ")" + "-")))
            == [Number(232), Multiply, BeginParenthesis, Number(32), EndParenthesis, Subtract]
  {
    Lex2c();
    Value232();
    Chunk("232", 232, '*', "(" + ("32" + ")" + "-"),
          [BeginParenthesis, Number(32), EndParenthesis, Subtract]);
  }

  lemma Lex2a()
    ensures SpaceFreeLegal("1" + "+" + ("232" + "*" + ("(" + ("32" + ")" + "-"))))
    ensures LexSpaceFree("1" + "+" + ("232" + "*" + ("(" + ("32" + ")" + "-"))))
            == [Number(1), Add, Number(232), Multiply,
                BeginParenthesis, Number(32), EndParenthesis, Subtract]
  {
    Lex2b();
    Value1();
    Chunk("1", 1, '+', "232" + "*" + ("(" + ("32" + ")" + "-")),
          [Number(232), Multiply, BeginParenthesis, Number(32), EndParenthesis, Subtract]);
  }

  lemma Lex2()
    ensures SpaceFreeLegal("(" + ("1" + "+" + ("232" + "*" + ("(" + ("32" + ")" + "-")))))
    ensures LexSpaceFree("(" + ("1" + "+" + ("232" + "*" + ("(" + ("32" + ")" + "-")))))
            == [BeginParenthesis, Number(1), Add, Number(232), Multiply,
                BeginParenthesis, Number(32), EndParenthesis, Subtract]
  {
    Lex2a();
    Head('(', "1" + "+" + ("232" + "*" + ("(" + ("32" + ")" + "-"))),
         [Number(1), Add, Number(232), Multiply,
          BeginParenthesis, Number(32), EndParenthesis, Subtract]);
  }

  lemma Unspaced2a()
    ensures Unspaced("(1" + " " + "+" + " ") == "(1" + "+"
  {
    UnspacedWithoutSpaces("(1");
    UnspacedConcat("(1", " ");
    UnspacedConcat("(1" + " ", "+");
    UnspacedConcat("(1" + " " + "+", " ");
  }

  lemma Unspaced2b()
    ensures Unspaced("232*(32)-") == "232*(32)-"
  {
    UnspacedWithoutSpaces("232*(32)-");
  }

  lemma Unspaced2()
    ensures Unspaced("(1" + " " + "+" + " " + "232*(32)-") == "(1" + "+" + "232*(32)-"
  {
    Unspaced2a();
    Unspaced2b();
    UnspacedConcat("(1" + " " + "+" + " ", "232*(32)-");
  }

  /** The test tokenize2_test: unbalanced parentheses and a trailing
      operator are not the lexer's concern. */
  lemma Tokenize2()
    ensures Spec("(1" + " " + "+" + " " + "232*(32)-")
            == Ok([BeginParenthesis, Number(1), Add, Number(232), Multiply,
                   BeginParenthesis, Number(32), EndParenthesis, Subtract])
  {
    Unspaced2();
    assert "(1" + "+" + "232*(32)-" == "(" + ("1" + "+" + ("232" + "*" + ("(" + ("32" + ")" + "-"))));
    SpacesTransparent("(1" + " " + "+" + " " + "232*(32)-");
    Lex2();
    SpecOfSpaceFree("(" + ("1" + "+" + ("232" + "*" + ("(" + ("32" + ")" + "-")))));
  }

  /** The test tokenize_invalid_char_expect_error_test: the first character
      outside the alphabet is reported. */
  lemma TokenizeInvalidChar()
    ensures Spec("1 +M 232*32-  21") == Err(InvalidCharacter('M'))
  {
    SpecAtFirstIllegal("1 +M 232*32-  21", 3);
  }
}
