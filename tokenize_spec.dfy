/** A reference definition of what tokenizing a string means, written
    without the scanner's accumulator: the input is rejected at its first
    illegal character; otherwise spaces are dropped and the remaining text
    is cut into maximal digit runs and single operator characters. */
module TokenizeSpec {
  import opened Tokens

  predicate IsDigit(c: char) { '0' <= c <= '9' }

  function DigitValue(c: char): (d: int)
    requires IsDigit(c)
    ensures 0 <= d <= 9
  {
    c as int - '0' as int
  }

  /** The six characters that each stand for one token of their own. */
  predicate IsOperatorChar(c: char) {
    c == '+' || c == '-' || c == '*' || c == '/' || c == '(' || c == ')'
  }

  /** The alphabet the lexer accepts: digits, operators and the space. */
  predicate IsLegal(c: char)
    ensures IsLegal(c) <==> c in "0123456789+-*/() "
  {
    IsDigit(c) || IsOperatorChar(c) || c == ' '
  }

  function OperatorToken(c: char): (t: Token)
    requires IsOperatorChar(c)
    ensures !t.Number?
  {
    if c == '+' then Add
    else if c == '-' then Subtract
    else if c == '*' then Multiply
    else if c == '/' then Divide
    else if c == '(' then BeginParenthesis
    else EndParenthesis
  }

  predicate AllDigits(s: seq<char>) { forall i :: 0 <= i < |s| ==> IsDigit(s[i]) }

  /** Text made only of digits and operator characters (no space, nothing illegal). */
  predicate SpaceFreeLegal(s: seq<char>) {
    forall i :: 0 <= i < |s| ==> IsDigit(s[i]) || IsOperatorChar(s[i])
  }

  function Pow10(n: nat): (p: nat)
    ensures p >= 1
  {
    if n == 0 then 1 else 10 * Pow10(n - 1)
  }

  /** The value of a string of decimal digits, most significant first. */
  function DecimalValue(s: seq<char>): (n: int)
    requires AllDigits(s)
    ensures 0 <= n
    decreases |s|
  {
    if s == [] then 0 else DecimalValue(s[..|s| - 1]) * 10 + DigitValue(s[|s| - 1])
  }

  /** The length of the longest prefix of s made of digits. */
  function LeadingDigits(s: seq<char>): (k: nat)
    ensures k <= |s| && AllDigits(s[..k])
    ensures k == |s| || !IsDigit(s[k])
  {
    if s == [] || !IsDigit(s[0]) then 0
    else
      var k := 1 + LeadingDigits(s[1..]);
      assert forall i :: 1 <= i < k ==> s[..k][i] == s[1..][..k - 1][i - 1];
      k
  }

  /** s with every space removed, the other characters kept in order. */
  function Unspaced(s: seq<char>): (u: seq<char>)
    ensures |u| <= |s|
    ensures forall i :: 0 <= i < |u| ==> u[i] != ' '
  {
    if s == [] then []
    else if s[0] == ' ' then Unspaced(s[1..])
    else [s[0]] + Unspaced(s[1..])
  }

  /** The index of the first character of s outside the alphabet, if any. */
  function FirstIllegal(s: seq<char>): (r: Option<nat>)
    ensures r.None? ==> forall j :: 0 <= j < |s| ==> IsLegal(s[j])
    ensures r.Some? ==> r.value < |s| && !IsLegal(s[r.value])
                        && forall j :: 0 <= j < r.value ==> IsLegal(s[j])
  {
    if s == [] then None
    else if !IsLegal(s[0]) then Some(0)
    else match FirstIllegal(s[1..])
      case None => None
      case Some(k) => Some(k + 1)
  }

  /** The tokens of a space-free legal text: each maximal digit run becomes
      one Number, each operator character its own token. */
  function LexSpaceFree(u: seq<char>): (ts: seq<Token>)
    requires SpaceFreeLegal(u)
    ensures |ts| <= |u|
    ensures u != [] ==> ts != []
    decreases |u|
  {
    if u == [] then []
    else if IsDigit(u[0]) then
      var k := LeadingDigits(u);
      [Number(DecimalValue(u[..k]))] + LexSpaceFree(u[k..])
    else
      [OperatorToken(u[0])] + LexSpaceFree(u[1..])
  }

  /** The tokens a pending digit run contributes once it is flushed. */
  function Flushed(run: seq<char>): (ts: seq<Token>)
    requires AllDigits(run)
  {
    if run == [] then [] else [Number(DecimalValue(run))]
  }

  /** What tokenizing s yields. */
  function Spec(s: seq<char>): (r: Result<seq<Token>>)
    ensures r.Err? ==> r.error.c in s && !IsLegal(r.error.c)
    ensures r.Ok? ==> |r.value| <= |s|
  {
    match FirstIllegal(s)
    case Some(i) => Err(InvalidCharacter(s[i]))
    case None =>
      UnspacedLegal(s);
      Ok(LexSpaceFree(Unspaced(s)))
  }

  /** The last character of s that is not a space, if any. */
  function LastNonSpace(s: seq<char>): (r: Option<char>)
    ensures r.None? ==> forall j :: 0 <= j < |s| ==> s[j] == ' '
    ensures r.Some? ==> exists i :: 0 <= i < |s| && s[i] == r.value && r.value != ' '
                                    && forall j :: i < j < |s| ==> s[j] == ' '
    decreases |s|
  {
    if s == [] then None
    else if s[|s| - 1] == ' ' then
      var r := LastNonSpace(s[..|s| - 1]);
      assert r.Some? ==> exists i :: 0 <= i < |s| - 1 && s[i] == r.value && r.value != ' '
                                    && forall j :: i < j < |s| ==> s[j] == ' ';
      r
    else Some(s[|s| - 1])
  }

  /** The operator tokens of s, one per operator character, in order. */
  function OperatorTokens(s: seq<char>): (ts: seq<Token>)
    ensures |ts| <= |s|
    ensures forall i :: 0 <= i < |ts| ==> !ts[i].Number?
  {
    if s == [] then []
    else if IsOperatorChar(s[0]) then [OperatorToken(s[0])] + OperatorTokens(s[1..])
    else OperatorTokens(s[1..])
  }

  /** The tokens of ts that are not numbers, in order. */
  function NonNumbers(ts: seq<Token>): (r: seq<Token>)
    ensures |r| <= |ts|
    ensures forall i :: 0 <= i < |r| ==> !r[i].Number?
  {
    if ts == [] then []
    else if ts[0].Number? then NonNumbers(ts[1..])
    else [ts[0]] + NonNumbers(ts[1..])
  }

  predicate NoAdjacentNumbers(ts: seq<Token>) {
    forall i :: 0 <= i < |ts| - 1 ==> !(ts[i].Number? && ts[i + 1].Number?)
  }

  // Basic facts about the definitions above, used by the scanner's proof
  // and by the properties.

  /** LeadingDigits is the only length its contract allows. */
  lemma {:induction false} LeadingDigitsUnique(s: seq<char>, k: nat)
    requires k <= |s| && AllDigits(s[..k]) && (k == |s| || !IsDigit(s[k]))
    ensures LeadingDigits(s) == k
    decreases |s|
  {
    if s != [] && IsDigit(s[0]) {
      if k == 0 {
        assert false;
      }
      var t := s[1..][..k - 1];
      forall i | 0 <= i < |t| ensures IsDigit(t[i]) {
        assert t[i] == s[..k][i + 1];
      }
      LeadingDigitsUnique(s[1..], k - 1);
    }
  }

  /** Removing the spaces of a legal text leaves digits and operators only. */
  lemma {:induction false} UnspacedLegal(s: seq<char>)
    requires forall j :: 0 <= j < |s| ==> IsLegal(s[j])
    ensures SpaceFreeLegal(Unspaced(s))
    decreases |s|
  {
    if s != [] {
      UnspacedLegal(s[1..]);
    }
  }

  lemma {:induction false} UnspacedConcat(a: seq<char>, b: seq<char>)
    ensures Unspaced(a + b) == Unspaced(a) + Unspaced(b)
    decreases |a|
  {
    if a == [] {
      assert a + b == b;
    } else {
      assert (a + b)[1..] == a[1..] + b;
      UnspacedConcat(a[1..], b);
    }
  }

  lemma UnspacedSnoc(p: seq<char>, c: char)
    ensures Unspaced(p + [c]) == Unspaced(p) + (if c == ' ' then [] else [c])
  {
    UnspacedConcat(p, [c]);
    assert [c][1..] == [];
  }

  /** A non-empty digit run is one Number token. */
  lemma LexDigits(run: seq<char>)
    requires run != [] && AllDigits(run)
    ensures SpaceFreeLegal(run)
    ensures LexSpaceFree(run) == [Number(DecimalValue(run))]
  {
    LeadingDigitsUnique(run, |run|);
    assert run[..|run|] == run;
    assert run[|run|..] == [];
  }

  lemma SliceConcat(u: seq<char>, w: seq<char>, k: nat)
    requires 0 < k <= |u|
    ensures (u + w)[0] == u[0] && (u + w)[..k] == u[..k] && (u + w)[k..] == u[k..] + w
    ensures k < |u| ==> (u + w)[k] == u[k] && u[k..][|u| - k - 1] == u[|u| - 1]
  {
  }

  lemma SpaceFreeLegalConcat(u: seq<char>, w: seq<char>)
    requires SpaceFreeLegal(u) && SpaceFreeLegal(w)
    ensures SpaceFreeLegal(u + w)
  {
    var uw := u + w;
    forall i | 0 <= i < |uw| ensures IsDigit(uw[i]) || IsOperatorChar(uw[i]) {
      if i < |u| { assert uw[i] == u[i]; } else { assert uw[i] == w[i - |u|]; }
    }
  }

  /** A text whose first k characters form a maximal digit run starts with
      that run's Number token. */
  lemma LexDigitPrefix(x: seq<char>, k: nat)
    requires SpaceFreeLegal(x) && 0 < k <= |x|
    requires AllDigits(x[..k]) && (k == |x| || !IsDigit(x[k]))
    ensures SpaceFreeLegal(x[k..])
    ensures LexSpaceFree(x) == [Number(DecimalValue(x[..k]))] + LexSpaceFree(x[k..])
  {
    LeadingDigitsUnique(x, k);
    assert x[..k][0] == x[0];
  }

  /** Tokenizing splits at any point where a digit run does not continue. */
  lemma {:induction false} LexConcat(u: seq<char>, w: seq<char>)
    requires SpaceFreeLegal(u) && SpaceFreeLegal(w)
    requires u == [] || w == [] || !IsDigit(u[|u| - 1]) || !IsDigit(w[0])
    ensures SpaceFreeLegal(u + w)
    ensures LexSpaceFree(u + w) == LexSpaceFree(u) + LexSpaceFree(w)
    decreases |u|, 1
  {
    SpaceFreeLegalConcat(u, w);
    if u == [] {
      assert u + w == w;
    } else if !IsDigit(u[0]) {
      LexConcatOperator(u, w);
    } else if LeadingDigits(u) < |u| {
      LexConcatInnerRun(u, w);
    } else {
      LexConcatFinalRun(u, w);
    }
  }

  lemma {:induction false} LexConcatOperator(u: seq<char>, w: seq<char>)
    requires SpaceFreeLegal(u) && SpaceFreeLegal(w) && SpaceFreeLegal(u + w)
    requires u != [] && !IsDigit(u[0])
    requires w == [] || !IsDigit(u[|u| - 1]) || !IsDigit(w[0])
    ensures LexSpaceFree(u + w) == LexSpaceFree(u) + LexSpaceFree(w)
    decreases |u|, 0
  {
    SliceConcat(u, w, 1);
    LexConcat(u[1..], w);
  }

  lemma {:induction false} LexConcatInnerRun(u: seq<char>, w: seq<char>)
    requires SpaceFreeLegal(u) && SpaceFreeLegal(w) && SpaceFreeLegal(u + w)
    requires u != [] && IsDigit(u[0]) && LeadingDigits(u) < |u|
    requires w == [] || !IsDigit(u[|u| - 1]) || !IsDigit(w[0])
    ensures LexSpaceFree(u + w) == LexSpaceFree(u) + LexSpaceFree(w)
    decreases |u|, 0
  {
    var k := LeadingDigits(u);
    LexRunThenRest(u, w, k);
    LexConcat(u[k..], w);
    JoinAfterRun([Number(DecimalValue(u[..k]))], LexSpaceFree(u[k..]), LexSpaceFree(w),
                 LexSpaceFree(u[k..] + w), LexSpaceFree(u), LexSpaceFree(u + w));
  }

  // Sequence associativity with every term named, so that the solver does
  // not have to rediscover it among the LexSpaceFree equations.
  lemma JoinAfterRun(n: seq<Token>, r: seq<Token>, tw: seq<Token>, rw: seq<Token>, tu: seq<Token>, tuw: seq<Token>)
    requires rw == r + tw && tu == n + r && tuw == n + rw
    ensures tuw == tu + tw
  {
  }

  /** Splitting off an inner digit run, in u alone and in u followed by w. */
  lemma LexRunThenRest(u: seq<char>, w: seq<char>, k: nat)
    requires SpaceFreeLegal(u) && SpaceFreeLegal(w) && SpaceFreeLegal(u + w)
    requires 0 < k < |u| && AllDigits(u[..k]) && !IsDigit(u[k])
    ensures SpaceFreeLegal(u[k..]) && u[k..] != [] && u[k..][|u| - k - 1] == u[|u| - 1]
    ensures LexSpaceFree(u) == [Number(DecimalValue(u[..k]))] + LexSpaceFree(u[k..])
    ensures LexSpaceFree(u + w) == [Number(DecimalValue(u[..k]))] + LexSpaceFree(u[k..] + w)
  {
    LexDigitPrefix(u, k);
    SliceConcat(u, w, k);
    LexDigitPrefix(u + w, k);
  }

  lemma {:induction false} LexConcatFinalRun(u: seq<char>, w: seq<char>)
    requires SpaceFreeLegal(u) && SpaceFreeLegal(w) && SpaceFreeLegal(u + w)
    requires u != [] && AllDigits(u)
    requires w == [] || !IsDigit(w[0])
    ensures LexSpaceFree(u + w) == LexSpaceFree(u) + LexSpaceFree(w)
  {
    var uw := u + w;
    var k := |u|;
    assert uw[..k] == u;
    if w != [] { assert uw[k] == w[0]; }
    LexDigitPrefix(uw, k);
    LexDigits(u);
    assert uw[k..] == w;
  }

  /** Tokenizing a pure digit run then an operator gives the run's number
      (when the run is not empty) followed by the operator's token. */
  lemma LexRunThenOperator(run: seq<char>, c: char)
    requires AllDigits(run) && IsOperatorChar(c)
    ensures SpaceFreeLegal(run + [c])
    ensures LexSpaceFree(run + [c]) == Flushed(run) + [OperatorToken(c)]
  {
    var w := run + [c];
    assert LexSpaceFree([c]) == [OperatorToken(c)] by {
      assert [c][1..] == [];
    }
    if run == [] {
      assert w == [c];
    } else {
      assert LexSpaceFree(w) == [Number(DecimalValue(run))] + LexSpaceFree([c]) by {
        assert w[..|run|] == run;
        assert w[|run|..] == [c];
        assert w[|run|] == c;
        LexDigitPrefix(w, |run|);
      }
    }
  }

  /** An operator character at the head of a text is a token of its own. */
  lemma LexOperatorHead(c: char, rest: seq<char>)
    requires IsOperatorChar(c) && SpaceFreeLegal(rest)
    ensures SpaceFreeLegal([c] + rest)
    ensures LexSpaceFree([c] + rest) == [OperatorToken(c)] + LexSpaceFree(rest)
  {
    var x := [c] + rest;
    assert x[1..] == rest;
    forall i | 0 <= i < |x| ensures IsDigit(x[i]) || IsOperatorChar(x[i]) {
      if i > 0 { assert x[i] == rest[i - 1]; }
    }
  }

  /** A digit run closed by an operator, followed by more text. */
  lemma LexChunk(run: seq<char>, c: char, rest: seq<char>)
    requires AllDigits(run) && IsOperatorChar(c) && SpaceFreeLegal(rest)
    ensures SpaceFreeLegal(run + [c] + rest)
    ensures LexSpaceFree(run + [c] + rest) == Flushed(run) + [OperatorToken(c)] + LexSpaceFree(rest)
  {
    LexRunThenOperator(run, c);
    LexConcat(run + [c], rest);
  }

  /** The input is rejected with the character at its first illegal position. */
  lemma SpecAtFirstIllegal(s: seq<char>, i: nat)
    requires i < |s| && !IsLegal(s[i])
    requires forall j :: 0 <= j < i ==> IsLegal(s[j])
    ensures Spec(s) == Err(InvalidCharacter(s[i]))
  {
    var r := FirstIllegal(s);
  }

  /** Legal input is accepted with the tokens of its space-free text. */
  lemma SpecOfLegal(s: seq<char>)
    requires forall j :: 0 <= j < |s| ==> IsLegal(s[j])
    ensures SpaceFreeLegal(Unspaced(s))
    ensures Spec(s) == Ok(LexSpaceFree(Unspaced(s)))
  {
    UnspacedLegal(s);
    assert FirstIllegal(s).None?;
  }
}
