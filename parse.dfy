/**
 * The parser object: a cursor into the token vector, the current stack
 * frame size and the table from local names to their frame offsets, all
 * updated in place while the recursive-descent methods build the tree.
 * Every method is proved to compute the corresponding function of the
 * reference grammar in ParseSpec, on the state the method starts from,
 * and to leave the object in the state that function returns.
 */
module Parse {
  import opened Wrappers
  import opened Ast
  import opened ParseSpec
  import T = Tokenize

  /** A method's result and final state are those of the reference grammar. */
  predicate Agrees<V(==)>(r: Result<V, PError>, s: PState, p: Parsed<V>) {
    match p
    case Ok(v, st) => r == Success(v) && s == st
    case Err(e) => r == Failure(e)
  }

  /** `done` followed by whatever the rest of a sequence parse yields. */
  function Prepend<V>(done: seq<V>, p: Parsed<seq<V>>): Parsed<seq<V>> {
    match p
    case Ok(vs, st) => Ok(done + vs, st)
    case Err(e) => Err(e)
  }

  lemma PrependAssoc<V>(done: seq<V>, v: V, p: Parsed<seq<V>>)
    ensures Prepend(done, Prepend([v], p)) == Prepend(done + [v], p)
  {
    if p.Ok? {
      assert done + ([v] + p.value) == (done + [v]) + p.value;
    }
  }

  lemma PrependEmpty<V>(p: Parsed<seq<V>>)
    ensures Prepend([], p) == p
  {
    if p.Ok? {
      assert [] + p.value == p.value;
    }
  }

  /** The leaf for a number read by `consume_number`. */
  function NumLeaf(n: Result<int, PError>): Result<AST, PError> {
    match n
    case Success(v) => Success(Leaf(Num(v)))
    case Failure(e) => Failure(e)
  }

  class Parser {
    const tokens: seq<T.Token>
    var pos: nat
    var offset: nat
    var locals: map<string, nat>

    /** `parse` creates the parser at the first token with an empty frame. */
    constructor (tokens: seq<T.Token>)
      requires Terminated(tokens)
      ensures this.tokens == tokens && State() == Init && Valid()
    {
      this.tokens := tokens;
      pos := 0;
      offset := 0;
      locals := map[];
    }

    function State(): PState
      reads this
    {
      PState(pos, offset, locals)
    }

    predicate Valid()
      reads this
    {
      Inv(tokens, State())
    }

    // ----- cursor helpers -----

    function CurToken(): (t: T.Token)
      reads this
      requires pos < |tokens|
      ensures t == tokens[pos]
    {
      tokens[pos]
    }

    predicate IsStr(s: string)
      reads this
      requires pos < |tokens|
    {
      CurToken().str == s
    }

    predicate IsEof()
      reads this
      requires pos < |tokens|
    {
      CurToken().kind.Eof?
    }

    predicate IsNum()
      reads this
      requires pos < |tokens|
    {
      CurToken().kind.Num?
    }

    predicate IsExpr()
      reads this
      requires pos < |tokens|
    {
      IsStr("+") || IsStr("-") || CurToken().kind.Ident? || CurToken().kind.Num?
    }

    /**
     * `consume_any`: returns the current token and moves past it.  Both
     * callers check the token's kind first, so the cursor is never moved
     * past the final `Eof` token.
     */
    method ConsumeAny() returns (t: T.Token)
      requires Valid() && pos < |tokens| - 1
      modifies this
      ensures Valid() && t == old(CurToken()) && State() == Next(old(State()))
    {
      t := CurToken();
      pos := pos + 1;
    }

    /** `consume(s)`: moves past the current token exactly when its string is `s`. */
    method Consume(s: string) returns (b: bool)
      requires Valid() && s != ""
      modifies this
      ensures Valid()
      ensures b <==> ParseSpec.Is(tokens, old(State()), s)
      ensures State() == if b then Next(old(State())) else old(State())
    {
      if CurToken().str == s {
        var _ := ConsumeAny();
        return true;
      }
      return false;
    }

    /** `expected(s)`: like `consume(s)`, but failing when the token is not `s`. */
    method Expected(s: string) returns (r: Result<(), PError>)
      requires Valid() && s != ""
      modifies this
      ensures Agrees(r, State(), Expect(tokens, old(State()), s))
    {
      var b := Consume(s);
      if !b {
        return Failure(UnexpectedToken(pos));
      }
      return Success(());
    }

    /** `consume_number`: the value of the current token, which must be a number. */
    method ConsumeNumber() returns (r: Result<int, PError>)
      requires Valid()
      modifies this
      ensures Agrees(r, State(), ParseSpec.ConsumeNumber(tokens, old(State())))
    {
      var t := CurToken();
      if !t.kind.Num? {
        return Failure(NumberExpected(pos));
      }
      var _ := ConsumeAny();
      return Success(t.kind.value);
    }

    // ----- the grammar -----

    /** `program`: statements until the `Eof` token. */
    method Program() returns (r: Result<seq<AST>, PError>)
      requires Valid()
      modifies this
      ensures Agrees(r, State(), ParseSpec.Program(tokens, old(State())))
      decreases |tokens| - pos, 30
    {
      var ret: seq<AST> := [];
      PrependEmpty(ParseSpec.Program(tokens, State()));
      while true
        invariant Valid() && old(pos) <= pos
        invariant ParseSpec.Program(tokens, old(State())) == Prepend(ret, ParseSpec.Program(tokens, State()))
        decreases |tokens| - pos
      {
        if IsEof() {
          break;
        }
        ghost var st := State();
        var s :- Stmt();
        PrependAssoc(ret, s, ParseSpec.Program(tokens, State()));
        ret := ret + [s];
      }
      assert ret + [] == ret;
      return Success(ret);
    }

    /** `stmt`: dispatches on the statement's first token. */
    method Stmt() returns (r: Result<AST, PError>)
      requires Valid()
      modifies this
      ensures Agrees(r, State(), ParseSpec.Stmt(tokens, old(State())))
      decreases |tokens| - pos, 28
    {
      if IsStr("return") {
        r := ReturnStmt();
      } else if IsStr("if") {
        r := IfStmt();
      } else if IsStr("while") {
        r := WhileStmt();
      } else if IsStr("for") {
        r := ForStmt();
      } else if IsStr("{") {
        r := BlockStmt();
      } else {
        var e :- Expr();
        var _ :- Expected(";");
        return Success(Leaf(ExprStmt(e)));
      }
    }

    method ReturnStmt() returns (r: Result<AST, PError>)
      requires Valid() && IsStr("return")
      modifies this
      ensures Agrees(r, State(), ParseSpec.ReturnStmt(tokens, old(State())))
      decreases |tokens| - pos, 27
    {
      var _ := Consume("return");
      var e :- Expr();
      var _ :- Expected(";");
      return Success(Node(Return, e, Nil));
    }

    method IfStmt() returns (r: Result<AST, PError>)
      requires Valid() && IsStr("if")
      modifies this
      ensures Agrees(r, State(), ParseSpec.IfStmt(tokens, old(State())))
      decreases |tokens| - pos, 27
    {
      var _ := Consume("if");
      var cond :- ParenExpr();
      var thn :- Stmt();
      var els := Nil;
      var b := Consume("else");
      if b {
        els :- Stmt();
      }
      return Success(Leaf(If(cond, thn, els)));
    }

    method WhileStmt() returns (r: Result<AST, PError>)
      requires Valid() && IsStr("while")
      modifies this
      ensures Agrees(r, State(), ParseSpec.WhileStmt(tokens, old(State())))
      decreases |tokens| - pos, 27
    {
      var _ := Consume("while");
      var cond :- ParenExpr();
      var body :- Stmt();
      return Success(Leaf(For(Nil, cond, Nil, body)));
    }

    /** `"(" expr ")"`, as `if` and `while` read their condition. */
    method ParenExpr() returns (r: Result<AST, PError>)
      requires Valid()
      modifies this
      ensures Agrees(r, State(), ParseSpec.ParenExpr(tokens, old(State())))
      decreases |tokens| - pos, 26
    {
      var _ :- Expected("(");
      var cond :- Expr();
      var _ :- Expected(")");
      return Success(cond);
    }

    method ForStmt() returns (r: Result<AST, PError>)
      requires Valid() && IsStr("for")
      modifies this
      ensures Agrees(r, State(), ParseSpec.ForStmt(tokens, old(State())))
      decreases |tokens| - pos, 27
    {
      var _ := Consume("for");
      var _ :- Expected("(");
      var a :- Expr();
      var _ := Consume(";");
      var b :- Expr();
      var _ := Consume(";");
      var c :- Expr();
      var _ :- Expected(")");
      var body :- Stmt();
      return Success(Leaf(For(a, b, c, body)));
    }

    /** `"{" stmt* "}"`: statements until a `}` is consumed. */
    method BlockStmt() returns (r: Result<AST, PError>)
      requires Valid() && IsStr("{")
      modifies this
      ensures Agrees(r, State(), ParseSpec.Stmt(tokens, old(State())))
      decreases |tokens| - pos, 27
    {
      ghost var st0 := State();
      var _ := Consume("{");
      var vec: seq<AST> := [];
      PrependEmpty(BlockBody(tokens, State()));
      while true
        invariant Valid() && st0.pos < pos
        invariant BlockBody(tokens, Next(st0)) == Prepend(vec, BlockBody(tokens, State()))
        decreases |tokens| - pos
      {
        var closed := Consume("}");
        if closed {
          break;
        }
        var s :- Stmt();
        PrependAssoc(vec, s, BlockBody(tokens, State()));
        vec := vec + [s];
      }
      assert vec + [] == vec;
      return Success(Leaf(Block(vec)));
    }

    /** `expr`: nothing at a `;`, an assignment expression otherwise. */
    method Expr() returns (r: Result<AST, PError>)
      requires Valid()
      modifies this
      ensures Agrees(r, State(), ParseSpec.Expr(tokens, old(State())))
      decreases |tokens| - pos, 20
    {
      if IsStr(";") {
        return Success(Nil);
      }
      r := Assign();
    }

    method Assign() returns (r: Result<AST, PError>)
      requires Valid()
      modifies this
      ensures Agrees(r, State(), ParseSpec.Assign(tokens, old(State())))
      decreases |tokens| - pos, 19
    {
      var ast :- Equality();
      while !IsEof()
        invariant Valid() && old(pos) <= pos
        invariant ParseSpec.Assign(tokens, old(State())) == AssignTail(tokens, ast, State())
        decreases |tokens| - pos
      {
        var b := Consume("=");
        if b {
          var rhs :- Assign();
          ast := Node(NodeKind.Assign, ast, rhs);
        } else {
          break;
        }
      }
      return Success(ast);
    }

    method Equality() returns (r: Result<AST, PError>)
      requires Valid()
      modifies this
      ensures Agrees(r, State(), ParseSpec.Equality(tokens, old(State())))
      decreases |tokens| - pos, 17
    {
      var ast :- Relational();
      while !IsEof()
        invariant Valid() && old(pos) <= pos
        invariant ParseSpec.Equality(tokens, old(State())) == EqualityTail(tokens, ast, State())
        decreases |tokens| - pos
      {
        var eq := Consume("==");
        if eq {
          var rhs :- Relational();
          ast := Node(Eq, ast, rhs);
          continue;
        }
        var ne := Consume("!=");
        if ne {
          var rhs :- Relational();
          ast := Node(Ne, ast, rhs);
          continue;
        }
        break;
      }
      return Success(ast);
    }

    method Relational() returns (r: Result<AST, PError>)
      requires Valid()
      modifies this
      ensures Agrees(r, State(), ParseSpec.Relational(tokens, old(State())))
      decreases |tokens| - pos, 15
    {
      var ast :- Add();
      while !IsEof()
        invariant Valid() && old(pos) <= pos
        invariant ParseSpec.Relational(tokens, old(State())) == RelationalTail(tokens, ast, State())
        decreases |tokens| - pos
      {
        var le := Consume("<=");
        if le {
          var rhs :- Add();
          ast := Node(Le, ast, rhs);
          continue;
        }
        var lt := Consume("<");
        if lt {
          var rhs :- Add();
          ast := Node(Lt, ast, rhs);
          continue;
        }
        var ge := Consume(">=");
        if ge {
          var lhs :- Add();
          ast := Node(Le, lhs, ast);
          continue;
        }
        var gt := Consume(">");
        if gt {
          var lhs :- Add();
          ast := Node(Lt, lhs, ast);
          continue;
        }
        break;
      }
      return Success(ast);
    }

    method Add() returns (r: Result<AST, PError>)
      requires Valid()
      modifies this
      ensures Agrees(r, State(), ParseSpec.Add(tokens, old(State())))
      decreases |tokens| - pos, 13
    {
      var ast :- Mul();
      while !IsEof()
        invariant Valid() && old(pos) <= pos
        invariant ParseSpec.Add(tokens, old(State())) == AddTail(tokens, ast, State())
        decreases |tokens| - pos
      {
        var plus := Consume("+");
        if plus {
          var rhs :- Mul();
          ast := Node(Plus, ast, rhs);
          continue;
        }
        var minus := Consume("-");
        if minus {
          var rhs :- Mul();
          ast := Node(Minus, ast, rhs);
          continue;
        }
        break;
      }
      return Success(ast);
    }

    method Mul() returns (r: Result<AST, PError>)
      requires Valid()
      modifies this
      ensures Agrees(r, State(), ParseSpec.Mul(tokens, old(State())))
      decreases |tokens| - pos, 11
    {
      var ast :- Unary();
      while !IsEof()
        invariant Valid() && old(pos) <= pos
        invariant ParseSpec.Mul(tokens, old(State())) == MulTail(tokens, ast, State())
        decreases |tokens| - pos
      {
        var star := Consume("*");
        if star {
          var rhs :- Unary();
          ast := Node(NodeKind.Mul, ast, rhs);
          continue;
        }
        var slash := Consume("/");
        if slash {
          var rhs :- Unary();
          ast := Node(Div, ast, rhs);
          continue;
        }
        break;
      }
      return Success(ast);
    }

    method Unary() returns (r: Result<AST, PError>)
      requires Valid()
      modifies this
      ensures Agrees(r, State(), ParseSpec.Unary(tokens, old(State())))
      decreases |tokens| - pos, 9
    {
      var plus := Consume("+");
      if plus {
        r := Unary();
        return;
      }
      var minus := Consume("-");
      if minus {
        var e :- Unary();
        return Success(Node(Minus, Leaf(Num(0)), e));
      }
      var star := Consume("*");
      if star {
        var e :- Unary();
        return Success(Node(Deref, e, Nil));
      }
      var amp := Consume("&");
      if amp {
        var e :- Unary();
        return Success(Node(Addr, e, Nil));
      }
      r := Primary();
    }

    method Primary() returns (r: Result<AST, PError>)
      requires Valid()
      modifies this
      ensures Agrees(r, State(), ParseSpec.Primary(tokens, old(State())))
      decreases |tokens| - pos, 8
    {
      var paren := Consume("(");
      if paren {
        var e :- Expr();
        var _ :- Expected(")");
        return Success(e);
      }
      if IsNum() {
        var n := ConsumeNumber();
        return NumLeaf(n);
      }
      r := Ident();
    }

    /** `ident`: a call, or a variable read from or registered in the locals table. */
    method Ident() returns (r: Result<AST, PError>)
      requires Valid()
      modifies this
      ensures Agrees(r, State(), ParseSpec.Ident(tokens, old(State())))
      decreases |tokens| - pos, 7
    {
      if !CurToken().kind.Ident? {
        return Failure(IdentExpected(pos));
      }
      var t := ConsumeAny();
      var name := t.str;
      var paren := Consume("(");
      if paren {
        r := Call(name);
        return;
      }
      if name in locals {
        return Success(Leaf(Var(name, locals[name])));
      }
      locals := locals[name := offset];
      var ret := Leaf(Var(name, offset));
      offset := offset + 8;
      return Success(ret);
    }

    /** The arguments after a call's `(`, then its `)`. */
    method Call(name: string) returns (r: Result<AST, PError>)
      requires Valid()
      modifies this
      ensures Agrees(r, State(), ParseSpec.Call(tokens, name, old(State())))
      decreases |tokens| - pos, 23
    {
      var argv: seq<AST> := [];
      if IsExpr() {
        var e :- Expr();
        argv := [e];
      }
      assert ParseSpec.CallArgs(tokens, old(State())) == ArgsTail(tokens, argv, State());
      while true
        invariant Valid() && old(pos) <= pos
        invariant ParseSpec.CallArgs(tokens, old(State())) == ArgsTail(tokens, argv, State())
        decreases |tokens| - pos
      {
        var comma := Consume(",");
        if !comma {
          break;
        }
        if !IsExpr() {
          break;
        }
        var e :- Expr();
        argv := argv + [e];
      }
      var _ :- Expected(")");
      return Success(Leaf(FuncCall(name, argv)));
    }
  }

  /** `parse`: the program of a token vector, from a fresh parser. */
  method Parse(tokens: seq<T.Token>) returns (r: Result<seq<AST>, PError>)
    requires Terminated(tokens)
    ensures match ParseSpec.Parse(tokens)
            case Ok(asts, _) => r == Success(asts)
            case Err(e) => r == Failure(e)
  {
    var parser := new Parser(tokens);
    r := parser.Program();
  }
}
