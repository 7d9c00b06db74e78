/**
 * The lexer: a cursor over the source text turns it into a token vector
 * terminated by one `Eof` token.  A digit starts a number, a keyword is
 * taken by prefix before identifiers, an identifier is a maximal
 * `[A-Za-z_][A-Za-z0-9_]*` run, and the two-character operators win over
 * their one-character prefixes.  The input is a sequence of characters
 * advanced one character at a time.
 */
module Tokenize {
  import opened Wrappers
  import opened Text

  /** The keyword table, in the order it is searched. */
  const Keywords: seq<string> := ["return", "if", "else", "for", "while", "int", "void"]

  /** The largest value of a 64-bit `isize`. */
  const IsizeMax: nat := 0x7FFF_FFFF_FFFF_FFFF

  /** Kinds of token; an identifier's name is the token's string. */
  datatype TokenKind = Reserved | Num(value: int) | Ident | Keyword | Eof

  /** A token, its string, and the cursor position right after it was read. */
  datatype Token = Token(kind: TokenKind, pos: nat, str: string)

  datatype TokenizeError =
    | InvalidToken(at: nat)      // no rule matches the character at `at`
    | InvalidNumber(at: nat)     // the digit run ending at `at` does not fit an isize
    | IdentExpected(at: nat)     // read_ident not at a letter or '_'
    | KeywordExpected(at: nat)   // read_keyword not at a keyword

  predicate IsAlphaChar(c: char) {
    'a' <= c <= 'z' || 'A' <= c <= 'Z' || c == '_'
  }

  predicate IsAlnumChar(c: char) {
    'a' <= c <= 'z' || 'A' <= c <= 'Z' || '0' <= c <= '9' || c == '_'
  }

  /** Rust's `char::is_whitespace`: the Unicode White_Space property. */
  predicate IsSpaceChar(c: char) {
    var n := c as int;
    (9 <= n <= 13) || n == 0x20 || n == 0x85 || n == 0xA0 || n == 0x1680
    || (0x2000 <= n <= 0x200A) || n == 0x2028 || n == 0x2029 || n == 0x202F
    || n == 0x205F || n == 0x3000
  }

  /**
   * The one-character punctuators: every printable ASCII character that is
   * neither a letter, a digit nor the single quote.
   */
  predicate IsPunctChar(c: char) {
    ('!' <= c <= '&') || ('(' <= c <= '/') || (':' <= c <= '@') || ('[' <= c <= '`') || ('{' <= c <= '~')
  }

  predicate StartsAt(input: string, pos: nat, s: string)
    requires pos <= |input|
  {
    s <= input[pos..]
  }

  /** The first keyword of `Keywords[i..]` that the input continues with at `pos`. */
  function KeywordFrom(input: string, pos: nat, i: nat): (r: Option<string>)
    requires pos <= |input| && i <= |Keywords|
    ensures r.Some? ==> StartsAt(input, pos, r.value)
    decreases |Keywords| - i
  {
    if i == |Keywords| then None
    else if StartsAt(input, pos, Keywords[i]) then Some(Keywords[i])
    else KeywordFrom(input, pos, i + 1)
  }

  /** `is_keyword`: a letter or '_' that begins some keyword. */
  predicate IsKeywordAt(input: string, pos: nat)
    requires pos <= |input|
  {
    pos < |input| && IsAlphaChar(input[pos]) && KeywordFrom(input, pos, 0).Some?
  }

  /** `read_number` at `p`: the maximal digit run, which must fit an isize. */
  function NumberToken(input: string, p: nat): (r: Result<(Token, nat), TokenizeError>)
    requires p < |input| && IsDigit(input[p])
    ensures r.Success? ==> p < r.value.1 <= |input| && r.value.0.pos == r.value.1 && r.value.0.kind.Num?
  {
    var e := RunEnd(input, p, IsDigit);
    var v := DigitsValue(input[p..e]);
    if v <= IsizeMax then Success((Token(Num(v), e, ""), e)) else Failure(InvalidNumber(e))
  }

  /** `read_keyword` at `p`: the first keyword of the table the input continues with. */
  function KeywordToken(input: string, p: nat): (r: Result<(Token, nat), TokenizeError>)
    requires p <= |input| && IsKeywordAt(input, p)
    ensures r.Success? && p < r.value.1 <= |input| && r.value.0.pos == r.value.1 && r.value.0.kind.Keyword?
  {
    var k := KeywordFrom(input, p, 0).value;
    Success((Token(Keyword, p + |k|, k), p + |k|))
  }

  /** `read_ident` at `p`: the maximal alphanumeric run. */
  function IdentToken(input: string, p: nat): (r: Result<(Token, nat), TokenizeError>)
    requires p < |input| && IsAlphaChar(input[p])
    ensures r.Success? && p < r.value.1 <= |input| && r.value.0.pos == r.value.1 && r.value.0.kind.Ident?
  {
    var e := RunEnd(input, p, IsAlnumChar);
    Success((Token(Ident, e, input[p..e]), e))
  }

  /**
   * One iteration of the main loop after whitespace: the token starting
   * at `p` and the position after it, the rules tried in the source's order.
   */
  function Step(input: string, p: nat): (r: Result<(Token, nat), TokenizeError>)
    requires p < |input|
    ensures r.Success? ==> p < r.value.1 <= |input| && r.value.0.pos == r.value.1
    ensures r.Success? ==> !r.value.0.kind.Eof?
  {
    var c := input[p];
    if IsDigit(c) then NumberToken(input, p)
    else if IsKeywordAt(input, p) then KeywordToken(input, p)
    else if IsAlphaChar(c) then IdentToken(input, p)
    else if StartsAt(input, p, "==") || StartsAt(input, p, "!=")
         || StartsAt(input, p, "<=") || StartsAt(input, p, ">=") then
      Success((Token(Reserved, p + 2, input[p..p + 2]), p + 2))
    else if IsPunctChar(c) then
      Success((Token(Reserved, p + 1, [c]), p + 1))
    else
      Failure(InvalidToken(p))
  }

  /**
   * The tokens of `input[pos..]`: whitespace is skipped, and the end of
   * the input gives the single `Eof` token.
   */
  function LexFrom(input: string, pos: nat): (r: Result<seq<Token>, TokenizeError>)
    requires pos <= |input|
    ensures r.Success? ==> |r.value| > 0 && r.value[|r.value| - 1] == Token(Eof, |input|, "")
    ensures r.Success? ==> forall i :: 0 <= i < |r.value| - 1 ==> !r.value[i].kind.Eof?
    decreases |input| - pos
  {
    var p := RunEnd(input, pos, IsSpaceChar);
    if p == |input| then Success([Token(Eof, p, "")])
    else
      match Step(input, p)
      case Failure(e) => Failure(e)
      case Success((t, q)) =>
        match LexFrom(input, q)
        case Failure(e) => Failure(e)
        case Success(ts) => Success([t] + ts)
  }

  /** `done` followed by whatever `rest` yields. */
  function Prepend(done: seq<Token>, rest: Result<seq<Token>, TokenizeError>): Result<seq<Token>, TokenizeError> {
    match rest
    case Success(ts) => Success(done + ts)
    case Failure(e) => Failure(e)
  }

  class Tokenizer {
    const input: string
    var pos: nat

    constructor (input: string)
      ensures this.input == input && pos == 0
    {
      this.input := input;
      pos := 0;
    }

    predicate Valid()
      reads this
    {
      pos <= |input|
    }

    predicate IsEof()
      reads this
    {
      pos >= |input|
    }

    function NextChar(): (c: char)
      reads this
      requires pos < |input|
      ensures c == input[pos]
    {
      input[pos]
    }

    predicate IsAl()
      reads this
      requires pos < |input|
    {
      IsAlphaChar(NextChar())
    }

    predicate IsAlnum()
      reads this
      requires pos < |input|
    {
      IsAlnumChar(NextChar())
    }

    predicate StartsWith(s: string)
      reads this
      requires Valid()
    {
      StartsAt(input, pos, s)
    }

    /** `is_keyword`: scans the keyword table in order. */
    method IsKeyword() returns (b: bool)
      requires Valid() && pos < |input|
      ensures b == IsKeywordAt(input, pos)
    {
      if !IsAl() {
        return false;
      }
      for i := 0 to |Keywords|
        invariant KeywordFrom(input, pos, 0) == KeywordFrom(input, pos, i)
      {
        if StartsWith(Keywords[i]) {
          return true;
        }
      }
      return false;
    }

    method ReadChar() returns (c: char)
      requires Valid() && pos < |input|
      modifies this
      ensures Valid() && pos == old(pos) + 1 && c == input[old(pos)]
    {
      c := input[pos];
      pos := pos + 1;
    }

    method ReadNChars(n: nat) returns (s: string)
      requires Valid() && pos + n <= |input|
      modifies this
      ensures Valid() && pos == old(pos) + n && s == input[old(pos)..pos]
    {
      s := [];
      for k := 0 to n
        invariant pos == old(pos) + k && s == input[old(pos)..pos]
      {
        var c := ReadChar();
        s := s + [c];
      }
    }

    /** `read_while`: consumes and returns the maximal run passing `test`. */
    method ReadWhile(test: char -> bool) returns (s: string)
      requires Valid()
      modifies this
      ensures Valid() && pos == RunEnd(input, old(pos), test) && s == input[old(pos)..pos]
    {
      s := [];
      while !IsEof() && test(NextChar())
        invariant Valid() && old(pos) <= pos && s == input[old(pos)..pos]
        invariant RunEnd(input, old(pos), test) == RunEnd(input, pos, test)
        decreases |input| - pos
      {
        var c := ReadChar();
        s := s + [c];
      }
    }

    method ReadWhitespace()
      requires Valid()
      modifies this
      ensures Valid() && pos == RunEnd(input, old(pos), IsSpaceChar)
    {
      var _ := ReadWhile(IsSpaceChar);
    }

    /** `read_number`: the digit run, which must fit an isize. */
    method ReadNumber() returns (r: Result<int, TokenizeError>)
      requires Valid()
      modifies this
      ensures Valid() && pos == RunEnd(input, old(pos), IsDigit)
      ensures var v := DigitsValue(input[old(pos)..pos]);
              r == if v <= IsizeMax then Success(v) else Failure(InvalidNumber(pos))
    {
      var s := ReadWhile(IsDigit);
      var v := DigitsValue(s);
      if v <= IsizeMax {
        r := Success(v);
      } else {
        r := Failure(InvalidNumber(pos));
      }
    }

    /** `read_ident`: a letter or '_' followed by the maximal alphanumeric run. */
    method ReadIdent() returns (r: Result<string, TokenizeError>)
      requires Valid() && pos < |input|
      modifies this
      ensures Valid()
      ensures !old(IsAl()) ==> r == Failure(IdentExpected(old(pos))) && pos == old(pos)
      ensures old(IsAl()) ==> pos == RunEnd(input, old(pos), IsAlnumChar) && r == Success(input[old(pos)..pos])
    {
      if !IsAl() {
        return Failure(IdentExpected(pos));
      }
      var s := ReadWhile(IsAlnumChar);
      return Success(s);
    }

    /** `read_keyword`: reads the first keyword of the table the input starts with. */
    method ReadKeyword() returns (r: Result<Token, TokenizeError>)
      requires Valid()
      modifies this
      ensures Valid()
      ensures match KeywordFrom(input, old(pos), 0)
              case Some(k) => r == Success(Token(Keyword, pos, k)) && pos == old(pos) + |k|
              case None => r == Failure(KeywordExpected(pos)) && pos == old(pos)
    {
      ghost var p0 := pos;
      for i := 0 to |Keywords|
        invariant pos == p0
        invariant KeywordFrom(input, p0, 0) == KeywordFrom(input, p0, i)
      {
        if StartsWith(Keywords[i]) {
          var k := Keywords[i];
          assert KeywordFrom(input, p0, 0) == Some(k);
          var keyword := ReadNChars(|k|);
          assert keyword == k;
          return Success(Token(Keyword, pos, keyword));
        }
      }
      return Failure(KeywordExpected(pos));
    }

    /** The body of `tokenize`'s loop after whitespace: one token, tried in the source's order. */
    method ReadToken() returns (r: Result<Token, TokenizeError>)
      requires Valid() && pos < |input|
      modifies this
      ensures Valid() && StepAgrees(r, pos, Step(input, old(pos)))
    {
      ghost var p := pos;
      // numeric literals
      if IsDigit(NextChar()) {
        var n := ReadNumber();
        if n.Failure? {
          return Failure(n.error);
        }
        return Success(Token(Num(n.value), pos, ""));
      }
      // keywords
      var kw := IsKeyword();
      if kw {
        var k := ReadKeyword();
        StepKeyword(input, p);
        return k;
      }
      // identifiers
      if IsAl() {
        var ident := ReadIdent();
        if ident.Failure? {
          return Failure(ident.error);
        }
        return Success(Token(Ident, pos, ident.value));
      }
      // punctuators
      if StartsWith("==") || StartsWith("!=") || StartsWith("<=") || StartsWith(">=") {
        var punc := ReadNChars(2);
        StepOperator(input, p, 2);
        return Success(Token(Reserved, pos, punc));
      }
      if IsPunctChar(NextChar()) {
        var punc := ReadNChars(1);
        StepOperator(input, p, 1);
        return Success(Token(Reserved, pos, punc));
      }
      return Failure(InvalidToken(pos));
    }
  }

  lemma StepKeyword(input: string, p: nat)
    requires p < |input| && !IsDigit(input[p]) && IsKeywordAt(input, p)
    ensures Step(input, p) == KeywordToken(input, p)
  {
  }

  lemma StepOperator(input: string, p: nat, n: nat)
    requires p < |input| && !IsDigit(input[p]) && !IsKeywordAt(input, p) && !IsAlphaChar(input[p])
    requires n == 2 <==> (StartsAt(input, p, "==") || StartsAt(input, p, "!=")
                          || StartsAt(input, p, "<=") || StartsAt(input, p, ">="))
    requires n == 2 || (n == 1 && IsPunctChar(input[p]))
    ensures Step(input, p) == Success((Token(Reserved, p + n, input[p..p + n]), p + n))
  {
    if n == 1 {
      assert input[p..p + 1] == [input[p]];
    }
  }

  /** One turn of the main loop, unfolded: whitespace, then Step. */
  lemma LexFromUnfold(input: string, start: nat, tok: Token, q: nat)
    requires start <= |input|
    requires var p := RunEnd(input, start, IsSpaceChar);
             p < |input| && Step(input, p) == Success((tok, q))
    ensures q <= |input| && LexFrom(input, start) == Prepend([tok], LexFrom(input, q))
  {
  }

  lemma LexFromFails(input: string, start: nat)
    requires start <= |input|
    requires var p := RunEnd(input, start, IsSpaceChar);
             p < |input| && Step(input, p).Failure?
    ensures LexFrom(input, start) == Failure(Step(input, RunEnd(input, start, IsSpaceChar)).error)
  {
  }

  lemma PrependPrepend(done: seq<Token>, tok: Token, rest: Result<seq<Token>, TokenizeError>)
    ensures Prepend(done, Prepend([tok], rest)) == Prepend(done + [tok], rest)
  {
    if rest.Success? {
      assert done + ([tok] + rest.value) == (done + [tok]) + rest.value;
    }
  }

  /** The loop invariant of Tokenize survives one token read by Step. */
  lemma Advance(input: string, start: nat, done: seq<Token>, tok: Token, q: nat)
    requires start <= |input| && LexFrom(input, 0) == Prepend(done, LexFrom(input, start))
    requires var p := RunEnd(input, start, IsSpaceChar);
             p < |input| && Step(input, p) == Success((tok, q))
    ensures q <= |input| && LexFrom(input, 0) == Prepend(done + [tok], LexFrom(input, q))
  {
    LexFromUnfold(input, start, tok, q);
    PrependPrepend(done, tok, LexFrom(input, q));
  }

  /** The token the loop body reads at `p`, and where the body leaves `pos`. */
  predicate StepAgrees(r: Result<Token, TokenizeError>, q: nat, s: Result<(Token, nat), TokenizeError>) {
    match s
    case Success((tok, e)) => r == Success(tok) && q == e
    case Failure(e) => r == Failure(e)
  }

  /** `tokenize`: the main loop, proved to compute LexFrom(input, 0). */
  method Tokenize(input: string) returns (r: Result<seq<Token>, TokenizeError>)
    ensures r == LexFrom(input, 0)
  {
    var tokens: seq<Token> := [];
    var t := new Tokenizer(input);
    assert Prepend(tokens, LexFrom(input, t.pos)) == LexFrom(input, 0) by {
      match LexFrom(input, 0)
      case Success(ts) => assert tokens + ts == ts;
      case Failure(_) =>
    }
    while !t.IsEof()
      invariant t.input == input && t.Valid()
      invariant LexFrom(input, 0) == Prepend(tokens, LexFrom(input, t.pos))
      decreases |input| - t.pos
    {
      ghost var start := t.pos;
      t.ReadWhitespace();
      if t.IsEof() {
        break;
      }
      ghost var p := t.pos;
      var tok := t.ReadToken();
      if tok.Failure? {
        LexFromFails(input, start);
        return Failure(tok.error);
      }
      Advance(input, start, tokens, tok.value, t.pos);
      tokens := tokens + [tok.value];
    }
    tokens := tokens + [Token(Eof, t.pos, "")];
    return Success(tokens);
  }
}
