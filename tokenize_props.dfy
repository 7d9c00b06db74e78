/**
 * What the lexer promises, stated on its reference definition `LexFrom`
 * and `Step` (which the `Tokenize` method is proved to compute): each
 * token rule in the order the main loop tries them, whitespace producing
 * nothing, and the prefix behaviour of keywords.
 */
module TokenizeProps {
  import opened Wrappers
  import opened Text
  import opened Tokenize

  /** The two-character operators, tried before the one-character punctuators. */
  predicate IsTwoCharOp(input: string, p: nat)
    requires p <= |input|
  {
    StartsAt(input, p, "==") || StartsAt(input, p, "!=") || StartsAt(input, p, "<=") || StartsAt(input, p, ">=")
  }

  /**
   * A digit starts a number token covering the maximal digit run
   * `input[p..e]`; its value is that run read in decimal, and a value
   * beyond isize fails at the end of the run.
   */
  lemma NumberRule(input: string, p: nat, e: nat)
    requires p < e <= |input| && forall i :: p <= i < e ==> IsDigit(input[i])
    requires e < |input| ==> !IsDigit(input[e])
    ensures AllDigits(input[p..e])
    ensures var v := DigitsValue(input[p..e]);
            Step(input, p) == if v <= IsizeMax then Success((Token(Num(v), e, ""), e)) else Failure(InvalidNumber(e))
  {
    RunEndIs(input, p, e, IsDigit);
  }

  /** No keyword of the table is a prefix of another one. */
  lemma KeywordsPrefixFree(i: nat, j: nat)
    requires i < |Keywords| && j < |Keywords| && Keywords[i] <= Keywords[j]
    ensures i == j
  {
    // No two keywords share their first two characters.
    assert Keywords[i][0] == Keywords[j][0] && Keywords[i][1] == Keywords[j][1];
  }

  /**
   * Whatever follows it, a keyword at `p` is read as that keyword:
   * `return4` starts with the keyword `return`, not with an identifier.
   */
  lemma {:induction false} KeywordRule(input: string, p: nat, i: nat)
    requires p < |input| && i < |Keywords| && StartsAt(input, p, Keywords[i])
    ensures Step(input, p) == Success((Token(Keyword, p + |Keywords[i]|, Keywords[i]), p + |Keywords[i]|))
  {
    KeywordFromFinds(input, p, 0, i);
    assert input[p] == Keywords[i][0];
    assert IsAlphaChar(input[p]);
  }

  /** The keyword search from `j` finds keyword `i` when the input continues with it. */
  lemma {:induction false} KeywordFromFinds(input: string, p: nat, j: nat, i: nat)
    requires p <= |input| && j <= i < |Keywords| && StartsAt(input, p, Keywords[i])
    ensures KeywordFrom(input, p, j) == Some(Keywords[i])
    decreases i - j
  {
    if j < i {
      if StartsAt(input, p, Keywords[j]) {
        // Both keywords are prefixes of input[p..], so one is a prefix of the other.
        if |Keywords[j]| <= |Keywords[i]| {
          assert Keywords[j] <= Keywords[i];
          KeywordsPrefixFree(j, i);
        } else {
          assert Keywords[i] <= Keywords[j];
          KeywordsPrefixFree(i, j);
        }
      }
      KeywordFromFinds(input, p, j + 1, i);
    }
  }

  /** With no keyword at `p`, the search reports none. */
  lemma {:induction false} KeywordFromNone(input: string, p: nat, j: nat)
    requires p <= |input| && j <= |Keywords|
    requires forall i :: j <= i < |Keywords| ==> !StartsAt(input, p, Keywords[i])
    ensures KeywordFrom(input, p, j) == None
    decreases |Keywords| - j
  {
    if j < |Keywords| {
      KeywordFromNone(input, p, j + 1);
    }
  }

  /**
   * A letter or '_' that does not begin a keyword starts an identifier
   * covering the maximal alphanumeric run `input[p..e]`.
   */
  lemma IdentRule(input: string, p: nat, e: nat)
    requires p < e <= |input| && IsAlphaChar(input[p])
    requires forall i :: 0 <= i < |Keywords| ==> !StartsAt(input, p, Keywords[i])
    requires forall i :: p <= i < e ==> IsAlnumChar(input[i])
    requires e < |input| ==> !IsAlnumChar(input[e])
    ensures Step(input, p) == Success((Token(Ident, e, input[p..e]), e))
  {
    KeywordFromNone(input, p, 0);
    RunEndIs(input, p, e, IsAlnumChar);
  }

  /** `==`, `!=`, `<=` and `>=` are one two-character token, never two one-character ones. */
  lemma TwoCharRule(input: string, p: nat)
    requires p < |input| && IsTwoCharOp(input, p)
    ensures Step(input, p) == Success((Token(Reserved, p + 2, input[p..p + 2]), p + 2))
    ensures input[p..p + 2] == "==" || input[p..p + 2] == "!=" || input[p..p + 2] == "<=" || input[p..p + 2] == ">="
  {
    assert input[p..p + 2] == input[p..][..2];
    assert input[p] == input[p..p + 2][0];
    assert !IsAlphaChar(input[p]);
  }

  /** Any other punctuation character is a one-character token. */
  lemma OneCharRule(input: string, p: nat)
    requires p < |input| && IsPunctChar(input[p]) && !IsAlphaChar(input[p]) && !IsTwoCharOp(input, p)
    ensures Step(input, p) == Success((Token(Reserved, p + 1, [input[p]]), p + 1))
  {
  }

  /**
   * The token rules fail exactly on a character no rule accepts and on a
   * number too large for isize.
   */
  lemma StepFailsIff(input: string, p: nat)
    requires p < |input|
    ensures Step(input, p).Failure? <==>
              (!IsDigit(input[p]) && !IsAlphaChar(input[p]) && !IsPunctChar(input[p]))
              || (IsDigit(input[p]) && DigitsValue(input[p..RunEnd(input, p, IsDigit)]) > IsizeMax)
    ensures !IsDigit(input[p]) && Step(input, p).Failure? ==> Step(input, p) == Failure(InvalidToken(p))
  {
    var c := input[p];
    if !IsDigit(c) && !IsKeywordAt(input, p) && !IsAlphaChar(c) && IsTwoCharOp(input, p) {
      assert c == '=' || c == '!' || c == '<' || c == '>';
    }
  }

  /** Whitespace before a token produces no token. */
  lemma WhitespaceSkipped(input: string, pos: nat)
    requires pos <= |input|
    ensures LexFrom(input, pos) == LexFrom(input, RunEnd(input, pos, IsSpaceChar))
  {
    var p := RunEnd(input, pos, IsSpaceChar);
    RunEndIs(input, p, p, IsSpaceChar);
  }

  /** A character no rule accepts makes the whole tokenization fail at it. */
  lemma InvalidCharFails(input: string, p: nat)
    requires p < |input| && !IsSpaceChar(input[p])
    requires !IsDigit(input[p]) && !IsAlphaChar(input[p]) && !IsPunctChar(input[p])
    ensures LexFrom(input, p) == Failure(InvalidToken(p))
  {
    RunEndIs(input, p, p, IsSpaceChar);
    StepFailsIff(input, p);
  }

  /** `return4`: the keyword `return`, then the number 4. */
  lemma KeywordThenNumber()
    ensures LexFrom("return4", 0) == Success([Token(Keyword, 6, "return"), Token(Num(4), 7, ""), Token(Eof, 7, "")])
  {
    var s := "return4";
    RunEndIs(s, 0, 0, IsSpaceChar);
    KeywordRule(s, 0, 0);
    LexFromUnfold(s, 0, Token(Keyword, 6, "return"), 6);
    RunEndIs(s, 6, 6, IsSpaceChar);
    NumberRule(s, 6, 7);
    assert s[6..7] == "4";
    assert DigitsValue("4") == 4 by {
      assert "4"[..0] == [];
    }
    LexFromUnfold(s, 6, Token(Num(4), 7, ""), 7);
    RunEndIs(s, 7, 7, IsSpaceChar);
    assert LexFrom(s, 7) == Success([Token(Eof, 7, "")]);
    assert [Token(Keyword, 6, "return")] + ([Token(Num(4), 7, "")] + [Token(Eof, 7, "")])
        == [Token(Keyword, 6, "return"), Token(Num(4), 7, ""), Token(Eof, 7, "")];
  }

  /** `returnx`: the keyword `return`, then the identifier `x`. */
  lemma KeywordThenIdent()
    ensures LexFrom("returnx", 0) == Success([Token(Keyword, 6, "return"), Token(Ident, 7, "x"), Token(Eof, 7, "")])
  {
    var s := "returnx";
    RunEndIs(s, 0, 0, IsSpaceChar);
    KeywordRule(s, 0, 0);
    RunEndIs(s, 6, 6, IsSpaceChar);
    forall i | 0 <= i < |Keywords|
      ensures !StartsAt(s, 6, Keywords[i])
    {
      assert s[6..] == "x";
    }
    LexFromUnfold(s, 0, Token(Keyword, 6, "return"), 6);
    IdentRule(s, 6, 7);
    assert s[6..7] == "x";
    LexFromUnfold(s, 6, Token(Ident, 7, "x"), 7);
    RunEndIs(s, 7, 7, IsSpaceChar);
    assert LexFrom(s, 7) == Success([Token(Eof, 7, "")]);
    assert [Token(Keyword, 6, "return")] + ([Token(Ident, 7, "x")] + [Token(Eof, 7, "")])
        == [Token(Keyword, 6, "return"), Token(Ident, 7, "x"), Token(Eof, 7, "")];
  }
}
