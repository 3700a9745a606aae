/** Properties of tokenizing that the scanner of src/main.rs and its tests
    promise, proved about the reference definition Spec (which Tokenize is
    proved to compute). */
module TokenizeProperties {
  import opened Tokens
  import opened TokenizeSpec

  // ---------------------------------------------------------------------
  // Numbers

  /** A digit string of length n is below 10^n. */
  lemma {:induction false} DecimalValueBound(s: seq<char>)
    requires AllDigits(s)
    ensures DecimalValue(s) < Pow10(|s|)
    decreases |s|
  {
    if s != [] {
      DecimalValueBound(s[..|s| - 1]);
    }
  }

  lemma AllDigitsConcat(a: seq<char>, b: seq<char>)
    requires AllDigits(a) && AllDigits(b)
    ensures AllDigits(a + b)
  {
    var ab := a + b;
    forall i | 0 <= i < |ab| ensures IsDigit(ab[i]) {
      if i < |a| { assert ab[i] == a[i]; } else { assert ab[i] == b[i - |a|]; }
    }
  }

  /** Reading a digit string in two pieces: the first piece is shifted left
      by the length of the second. */
  lemma {:induction false} DecimalValueConcat(a: seq<char>, b: seq<char>)
    requires AllDigits(a) && AllDigits(b)
    ensures AllDigits(a + b)
    ensures DecimalValue(a + b) == DecimalValue(a) * Pow10(|b|) + DecimalValue(b)
    decreases |b|
  {
    AllDigitsConcat(a, b);
    if b == [] {
      assert a + b == a;
    } else {
      var b', d := b[..|b| - 1], DigitValue(b[|b| - 1]);
      AllDigitsConcat(a, b');
      assert DecimalValue(a + b) == DecimalValue(a + b') * 10 + d by {
        assert (a + b)[..|a + b| - 1] == a + b';
        assert (a + b)[|a + b| - 1] == b[|b| - 1];
      }
      DecimalValueConcat(a, b');
      var x, y, p := DecimalValue(a), DecimalValue(b'), Pow10(|b'|);
      assert DecimalValue(b) == y * 10 + d;
      assert Pow10(|b|) == p * 10;
      ShiftByOneDigit(x, p, y, d);
    }
  }

  lemma ShiftByOneDigit(x: int, p: int, y: int, d: int)
    ensures (x * p + y) * 10 + d == x * (p * 10) + (y * 10 + d)
  {
    calc {
      (x * p + y) * 10 + d;
      x * p * 10 + y * 10 + d;
      x * (p * 10) + (y * 10 + d);
    }
  }

  lemma {:induction false} Pow10Monotone(m: nat, n: nat)
    requires m <= n
    ensures Pow10(m) <= Pow10(n)
    decreases n
  {
    if m < n {
      Pow10Monotone(m, n - 1);
    }
  }

  /** A run of at most nine digits fits in the source's i32 accumulator. */
  lemma NineDigitsFitI32(s: seq<char>)
    requires AllDigits(s) && |s| <= 9
    ensures DecimalValue(s) <= 0x7fff_ffff
  {
    DecimalValueBound(s);
    Pow10Monotone(|s|, 9);
    assert Pow10(9) == 1_000_000_000 by {
      assert Pow10(3) == 1000;
      assert Pow10(6) == 1000 * Pow10(3);
      assert Pow10(9) == 1000 * Pow10(6);
    }
  }

  // ---------------------------------------------------------------------
  // Acceptance

  /** An input is accepted exactly when all its characters are digits,
      operator characters or spaces; otherwise the error names the first
      character that is none of these. Nothing about the arrangement of the
      tokens is checked. */
  lemma AcceptedIffLegal(s: seq<char>)
    ensures Spec(s).Ok? <==> forall j :: 0 <= j < |s| ==> IsLegal(s[j])
    ensures Spec(s).Err? ==>
              exists i :: 0 <= i < |s| && !IsLegal(s[i])
                          && (forall j :: 0 <= j < i ==> IsLegal(s[j]))
                          && Spec(s).error == InvalidCharacter(s[i])
  {
    match FirstIllegal(s)
    case None =>
    case Some(i) =>
      assert !IsLegal(s[i]) && Spec(s).error == InvalidCharacter(s[i]);
  }

  // ---------------------------------------------------------------------
  // Inputs made only of digits

  lemma {:induction false} UnspacedWithoutSpaces(s: seq<char>)
    requires forall i :: 0 <= i < |s| ==> s[i] != ' '
    ensures Unspaced(s) == s
    decreases |s|
  {
    if s != [] {
      UnspacedWithoutSpaces(s[1..]);
      assert s == [s[0]] + s[1..];
    }
  }

  /** Text without spaces or illegal characters is tokenized as it stands. */
  lemma SpecOfSpaceFree(u: seq<char>)
    requires SpaceFreeLegal(u)
    ensures Spec(u) == Ok(LexSpaceFree(u))
  {
    UnspacedWithoutSpaces(u);
    SpecOfLegal(u);
  }

  /** A non-empty input of digits only is one Number token holding its
      decimal value. */
  lemma DigitsOnly(s: seq<char>)
    requires |s| > 0 && AllDigits(s)
    ensures Spec(s) == Ok([Number(DecimalValue(s))])
  {
    UnspacedWithoutSpaces(s);
    LexDigits(s);
    SpecOfLegal(s);
  }

  // ---------------------------------------------------------------------
  // Spaces

  /** Dropping spaces keeps the illegal characters and their order, so the
      first illegal character is the same before and after. */
  lemma {:induction false} FirstIllegalUnspaced(s: seq<char>)
    ensures FirstIllegal(Unspaced(s)).None? <==> FirstIllegal(s).None?
    ensures FirstIllegal(s).Some? ==>
              Unspaced(s)[FirstIllegal(Unspaced(s)).value] == s[FirstIllegal(s).value]
    decreases |s|
  {
    if s != [] {
      FirstIllegalUnspaced(s[1..]);
      if s[0] != ' ' {
        var u := Unspaced(s);
        assert u[0] == s[0];
        assert u[1..] == Unspaced(s[1..]);
      }
    }
  }

  /** Removing every space does not change the result. */
  lemma SpacesTransparent(s: seq<char>)
    ensures Spec(Unspaced(s)) == Spec(s)
  {
    FirstIllegalUnspaced(s);
    UnspacedWithoutSpaces(Unspaced(s));
  }

  /** Inserting a space anywhere, even inside a number, does not change the
      result: "1 2" reads as 12. */
  lemma SpaceInsertion(s: seq<char>, i: nat)
    requires i <= |s|
    ensures Spec(s[..i] + [' '] + s[i..]) == Spec(s)
  {
    var t := s[..i] + [' '] + s[i..];
    assert Unspaced(t) == Unspaced(s) by {
      UnspacedConcat(s[..i] + [' '], s[i..]);
      UnspacedSnoc(s[..i], ' ');
      UnspacedConcat(s[..i], s[i..]);
      assert s[..i] + s[i..] == s;
    }
    SpacesTransparent(t);
    SpacesTransparent(s);
  }

  // ---------------------------------------------------------------------
  // Operator tokens

  /** Distinct operator characters give distinct tokens, so each operator
      character can be read back from its token. */
  lemma OperatorTokenInjective(c: char, d: char)
    requires IsOperatorChar(c) && IsOperatorChar(d) && c != d
    ensures OperatorToken(c) != OperatorToken(d)
  {
  }

  lemma {:induction false} NonNumbersConcat(a: seq<Token>, b: seq<Token>)
    ensures NonNumbers(a + b) == NonNumbers(a) + NonNumbers(b)
    decreases |a|
  {
    if a == [] {
      assert a + b == b;
    } else {
      assert (a + b)[1..] == a[1..] + b;
      NonNumbersConcat(a[1..], b);
    }
  }

  lemma {:induction false} OperatorTokensConcat(a: seq<char>, b: seq<char>)
    ensures OperatorTokens(a + b) == OperatorTokens(a) + OperatorTokens(b)
    decreases |a|
  {
    if a == [] {
      assert a + b == b;
    } else {
      assert (a + b)[1..] == a[1..] + b;
      OperatorTokensConcat(a[1..], b);
    }
  }

  lemma {:induction false} OperatorTokensOfDigits(s: seq<char>)
    requires AllDigits(s)
    ensures OperatorTokens(s) == []
    decreases |s|
  {
    if s != [] {
      OperatorTokensOfDigits(s[1..]);
    }
  }

  lemma {:induction false} OperatorTokensUnspaced(s: seq<char>)
    ensures OperatorTokens(Unspaced(s)) == OperatorTokens(s)
    decreases |s|
  {
    if s != [] {
      OperatorTokensUnspaced(s[1..]);
      if s[0] != ' ' {
        OperatorTokensConcat([s[0]], Unspaced(s[1..]));
        assert [s[0]][1..] == [];
      }
    }
  }

  lemma {:induction false} LexOperators(u: seq<char>)
    requires SpaceFreeLegal(u)
    ensures NonNumbers(LexSpaceFree(u)) == OperatorTokens(u)
    decreases |u|, 1
  {
    if u == [] {
    } else if IsDigit(u[0]) {
      LexOperatorsAfterRun(u, LeadingDigits(u));
    } else {
      LexOperators(u[1..]);
      NonNumbersConcat([OperatorToken(u[0])], LexSpaceFree(u[1..]));
    }
  }

  lemma {:induction false} LexOperatorsAfterRun(u: seq<char>, k: nat)
    requires SpaceFreeLegal(u) && 0 < k <= |u|
    requires AllDigits(u[..k]) && (k == |u| || !IsDigit(u[k]))
    ensures NonNumbers(LexSpaceFree(u)) == OperatorTokens(u)
    decreases |u|, 0
  {
    LexDigitPrefix(u, k);
    assert NonNumbers(LexSpaceFree(u)) == OperatorTokens(u[k..]) by {
      LexOperators(u[k..]);
      NonNumbersConcat([Number(DecimalValue(u[..k]))], LexSpaceFree(u[k..]));
    }
    assert OperatorTokens(u) == OperatorTokens(u[k..]) by {
      assert u == u[..k] + u[k..];
      OperatorTokensConcat(u[..k], u[k..]);
      OperatorTokensOfDigits(u[..k]);
    }
  }

  /** Each operator character yields exactly one token of its kind, and
      those tokens come in the order of their characters. */
  lemma OperatorsInOrder(s: seq<char>)
    requires Spec(s).Ok?
    ensures NonNumbers(Spec(s).value) == OperatorTokens(s)
  {
    SpecOfLegal(s);
    LexOperators(Unspaced(s));
    OperatorTokensUnspaced(s);
  }

  // ---------------------------------------------------------------------
  // Where numbers end

  /** The tokens of a non-empty space-free text start with an operator
      token exactly when the text starts with an operator character. */
  lemma LexHead(u: seq<char>)
    requires SpaceFreeLegal(u) && u != []
    ensures LexSpaceFree(u) != []
    ensures LexSpaceFree(u)[0].Number? <==> IsDigit(u[0])
  {
  }

  lemma {:induction false} LexNoAdjacentNumbers(u: seq<char>)
    requires SpaceFreeLegal(u)
    ensures NoAdjacentNumbers(LexSpaceFree(u))
    decreases |u|
  {
    if u == [] {
    } else if IsDigit(u[0]) {
      var k := LeadingDigits(u);
      LexDigitPrefix(u, k);
      LexNoAdjacentNumbers(u[k..]);
      if k < |u| {
        LexHead(u[k..]);
      }
    } else {
      LexNoAdjacentNumbers(u[1..]);
    }
  }

  /** Two Number tokens are never next to each other. */
  lemma NoAdjacentNumberTokens(s: seq<char>)
    requires Spec(s).Ok?
    ensures NoAdjacentNumbers(Spec(s).value)
  {
    SpecOfLegal(s);
    LexNoAdjacentNumbers(Unspaced(s));
  }

  lemma {:induction false} LexLast(u: seq<char>)
    requires SpaceFreeLegal(u) && u != []
    ensures LexSpaceFree(u) != []
    ensures LexSpaceFree(u)[|LexSpaceFree(u)| - 1].Number? <==> IsDigit(u[|u| - 1])
    decreases |u|, 1
  {
    if IsDigit(u[0]) {
      LexLastAfterRun(u, LeadingDigits(u));
    } else if |u| > 1 {
      LexLast(u[1..]);
    }
  }

  lemma {:induction false} LexLastAfterRun(u: seq<char>, k: nat)
    requires SpaceFreeLegal(u) && 0 < k <= |u|
    requires AllDigits(u[..k]) && (k == |u| || !IsDigit(u[k]))
    ensures LexSpaceFree(u) != []
    ensures LexSpaceFree(u)[|LexSpaceFree(u)| - 1].Number? <==> IsDigit(u[|u| - 1])
    decreases |u|, 0
  {
    LexDigitPrefix(u, k);
    if k < |u| {
      LexLast(u[k..]);
      assert u[k..][|u| - k - 1] == u[|u| - 1];
    } else {
      assert u[..k][k - 1] == u[|u| - 1];
    }
  }

  lemma {:induction false} LastNonSpaceUnspaced(s: seq<char>)
    ensures LastNonSpace(s) == if Unspaced(s) == [] then None
                               else Some(Unspaced(s)[|Unspaced(s)| - 1])
    decreases |s|
  {
    if s != [] {
      var p, c := s[..|s| - 1], s[|s| - 1];
      assert s == p + [c];
      UnspacedSnoc(p, c);
      LastNonSpaceUnspaced(p);
    }
  }

  /** The tokens end with a Number exactly when the last non-space
      character of the input is a digit. */
  lemma EndsWithNumber(s: seq<char>)
    requires Spec(s).Ok?
    ensures var ts := Spec(s).value;
            (ts != [] && ts[|ts| - 1].Number?)
            <==> (LastNonSpace(s).Some? && IsDigit(LastNonSpace(s).value))
  {
    SpecOfLegal(s);
    LastNonSpaceUnspaced(s);
    if Unspaced(s) != [] {
      LexLast(Unspaced(s));
    }
  }
}
