/**
 * Properties of the reference grammar: the symbol table, associativity
 * of the binary operators, the desugarings of `>`, `>=`, unary minus and
 * `while`, the empty expression, statement sequences and call arguments.
 */
module ParseProps {
  import opened Ast
  import opened ParseSpec
  import T = Tokenize

  /** The shape of the lexer's output: only the final token is `Eof`. */
  predicate LexerShaped(toks: seq<T.Token>) {
    Terminated(toks) && forall i :: 0 <= i < |toks| - 1 ==> !toks[i].kind.Eof?
  }

  /** Every token vector the lexer produces has this shape. */
  lemma LexerOutputShaped(input: string)
    requires T.LexFrom(input, 0).Success?
    ensures LexerShaped(T.LexFrom(input, 0).value)
  {
  }

  /** On a lexer-shaped vector, a token carrying an operator's string is not `Eof`. */
  lemma NotEofAtString(toks: seq<T.Token>, st: PState, s: string)
    requires LexerShaped(toks) && st.pos < |toks| && s != "" && Is(toks, st, s)
    ensures !AtEof(toks, st)
  {
  }

  // ----- the symbol table -----

  /** A registered name yields its stored offset and leaves the state unchanged. */
  lemma LookupRegistered(st: PState, name: string)
    requires name in st.locals
    ensures Lookup(st, name) == (st.locals[name], st)
  {
  }

  /** A new name is registered at the current offset, which grows by exactly 8. */
  lemma LookupFresh(st: PState, name: string)
    requires name !in st.locals
    ensures Lookup(st, name).0 == st.offset
    ensures Lookup(st, name).1 == st.(locals := st.locals[name := st.offset], offset := st.offset + 8)
  {
  }

  /**
   * Offsets follow first occurrence: a name registered later lies above
   * every name registered before it, and under the table invariant it no
   * offset is shared.
   */
  lemma LookupOrder(st: PState, old_name: string, name: string)
    requires TableOk(st) && old_name in st.locals && name !in st.locals
    ensures var st2 := Lookup(st, name).1;
            st2.locals[old_name] < st2.locals[name] && TableOk(st2)
  {
  }

  /** Under the invariant, distinct names have distinct offsets that are multiples of 8. */
  lemma DistinctOffsets(st: PState, n: string, m: string)
    requires TableOk(st) && n in st.locals && m in st.locals && n != m
    ensures st.locals[n] != st.locals[m] && st.locals[n] % 8 == 0 && st.locals[n] < st.offset
  {
  }

  /** `parse` ends at `Eof` with a table that satisfies the invariant. */
  lemma ParseKeepsTable(toks: seq<T.Token>)
    requires Terminated(toks) && Parse(toks).Ok?
    ensures TableOk(Parse(toks).st) && AtEof(toks, Parse(toks).st)
  {
    assert TableOk(Init);
  }

  // ----- associativity -----

  function AddKind(op: string): NodeKind {
    if op == "+" then Plus else Minus
  }

  /** `a op1 b op2 c` with `+`/`-` groups to the left: `(a op1 b) op2 c`. */
  lemma AddLeftAssoc(toks: seq<T.Token>, st: PState, op1: string, op2: string,
                     a: AST, s1: PState, b: AST, s2: PState, c: AST, s3: PState)
    requires LexerShaped(toks) && Inv(toks, st)
    requires op1 in {"+", "-"} && op2 in {"+", "-"}
    requires ParseSpec.Mul(toks, st) == Ok(a, s1) && Is(toks, s1, op1)
    requires ParseSpec.Mul(toks, Next(s1)) == Ok(b, s2) && Is(toks, s2, op2)
    requires ParseSpec.Mul(toks, Next(s2)) == Ok(c, s3) && !Is(toks, s3, "+") && !Is(toks, s3, "-")
    ensures Add(toks, st) == Ok(Node(AddKind(op2), Node(AddKind(op1), a, b), c), s3)
  {
    NotEofAtString(toks, s1, op1);
    NotEofAtString(toks, s2, op2);
    var ab := Node(AddKind(op1), a, b);
    assert AddTail(toks, Node(AddKind(op2), ab, c), s3) == Ok(Node(AddKind(op2), ab, c), s3);
    assert AddTail(toks, ab, s2) == Ok(Node(AddKind(op2), ab, c), s3);
    assert AddTail(toks, a, s1) == Ok(Node(AddKind(op2), ab, c), s3);
  }

  function MulKind(op: string): NodeKind {
    if op == "*" then NodeKind.Mul else Div
  }

  /** `a op1 b op2 c` with `*`/`/` groups to the left. */
  lemma MulLeftAssoc(toks: seq<T.Token>, st: PState, op1: string, op2: string,
                     a: AST, s1: PState, b: AST, s2: PState, c: AST, s3: PState)
    requires LexerShaped(toks) && Inv(toks, st)
    requires op1 in {"*", "/"} && op2 in {"*", "/"}
    requires Unary(toks, st) == Ok(a, s1) && Is(toks, s1, op1)
    requires Unary(toks, Next(s1)) == Ok(b, s2) && Is(toks, s2, op2)
    requires Unary(toks, Next(s2)) == Ok(c, s3) && !Is(toks, s3, "*") && !Is(toks, s3, "/")
    ensures ParseSpec.Mul(toks, st) == Ok(Node(MulKind(op2), Node(MulKind(op1), a, b), c), s3)
  {
    NotEofAtString(toks, s1, op1);
    NotEofAtString(toks, s2, op2);
    var ab := Node(MulKind(op1), a, b);
    assert MulTail(toks, Node(MulKind(op2), ab, c), s3) == Ok(Node(MulKind(op2), ab, c), s3);
    assert MulTail(toks, ab, s2) == Ok(Node(MulKind(op2), ab, c), s3);
    assert MulTail(toks, a, s1) == Ok(Node(MulKind(op2), ab, c), s3);
  }

  function EqKind(op: string): NodeKind {
    if op == "==" then Eq else Ne
  }

  /** `a op1 b op2 c` with `==`/`!=` groups to the left. */
  lemma EqualityLeftAssoc(toks: seq<T.Token>, st: PState, op1: string, op2: string,
                          a: AST, s1: PState, b: AST, s2: PState, c: AST, s3: PState)
    requires LexerShaped(toks) && Inv(toks, st)
    requires op1 in {"==", "!="} && op2 in {"==", "!="}
    requires Relational(toks, st) == Ok(a, s1) && Is(toks, s1, op1)
    requires Relational(toks, Next(s1)) == Ok(b, s2) && Is(toks, s2, op2)
    requires Relational(toks, Next(s2)) == Ok(c, s3) && !Is(toks, s3, "==") && !Is(toks, s3, "!=")
    ensures Equality(toks, st) == Ok(Node(EqKind(op2), Node(EqKind(op1), a, b), c), s3)
  {
    NotEofAtString(toks, s1, op1);
    NotEofAtString(toks, s2, op2);
    var ab := Node(EqKind(op1), a, b);
    assert EqualityTail(toks, Node(EqKind(op2), ab, c), s3) == Ok(Node(EqKind(op2), ab, c), s3);
    assert EqualityTail(toks, ab, s2) == Ok(Node(EqKind(op2), ab, c), s3);
    assert EqualityTail(toks, a, s1) == Ok(Node(EqKind(op2), ab, c), s3);
  }

  /** `a = b = c` groups to the right: `a = (b = c)`. */
  lemma AssignRightAssoc(toks: seq<T.Token>, st: PState,
                         a: AST, s1: PState, b: AST, s2: PState, c: AST, s3: PState)
    requires LexerShaped(toks) && Inv(toks, st)
    requires Equality(toks, st) == Ok(a, s1) && Is(toks, s1, "=")
    requires Equality(toks, Next(s1)) == Ok(b, s2) && Is(toks, s2, "=")
    requires Equality(toks, Next(s2)) == Ok(c, s3) && !Is(toks, s3, "=")
    ensures ParseSpec.Assign(toks, st) == Ok(Node(NodeKind.Assign, a, Node(NodeKind.Assign, b, c)), s3)
  {
    NotEofAtString(toks, s1, "=");
    NotEofAtString(toks, s2, "=");
    var bc := Node(NodeKind.Assign, b, c);
    assert AssignTail(toks, c, s3) == Ok(c, s3);
    assert ParseSpec.Assign(toks, Next(s2)) == Ok(c, s3);
    assert AssignTail(toks, bc, s3) == Ok(bc, s3);
    assert AssignTail(toks, b, s2) == Ok(bc, s3);
    assert ParseSpec.Assign(toks, Next(s1)) == Ok(bc, s3);
    assert AssignTail(toks, Node(NodeKind.Assign, a, bc), s3) == Ok(Node(NodeKind.Assign, a, bc), s3);
    assert AssignTail(toks, a, s1) == Ok(Node(NodeKind.Assign, a, bc), s3);
  }

  // ----- desugaring -----

  predicate IsRelOp(toks: seq<T.Token>, st: PState)
    requires st.pos < |toks|
  {
    Is(toks, st, "<") || Is(toks, st, "<=") || Is(toks, st, ">") || Is(toks, st, ">=")
  }

  /**
   * `x > y` is `y < x` and `x >= y` is `y <= x`, while `<` and `<=` keep
   * their operands in order.
   */
  lemma RelationalSwap(toks: seq<T.Token>, a: AST, st: PState, op: string, b: AST, s2: PState)
    requires LexerShaped(toks) && Inv(toks, st)
    requires op in {"<", "<=", ">", ">="} && Is(toks, st, op)
    requires Add(toks, Next(st)) == Ok(b, s2) && !IsRelOp(toks, s2)
    ensures RelationalTail(toks, a, st) ==
              if op == "<" then Ok(Node(Lt, a, b), s2)
              else if op == "<=" then Ok(Node(Le, a, b), s2)
              else if op == ">" then Ok(Node(Lt, b, a), s2)
              else Ok(Node(Le, b, a), s2)
  {
    NotEofAtString(toks, st, op);
  }

  /** `-x` is `0 - x`, `+x` is `x`, and `*x`, `&x` put `x` on the left of a Deref/Addr node. */
  lemma UnaryDesugar(toks: seq<T.Token>, st: PState, x: AST, s1: PState)
    requires Inv(toks, st)
    requires Is(toks, st, "+") || Is(toks, st, "-") || Is(toks, st, "*") || Is(toks, st, "&")
    requires Unary(toks, Next(st)) == Ok(x, s1)
    ensures Unary(toks, st) ==
              if Is(toks, st, "+") then Ok(x, s1)
              else if Is(toks, st, "-") then Ok(Node(Minus, Leaf(Num(0)), x), s1)
              else if Is(toks, st, "*") then Ok(Node(Deref, x, Nil), s1)
              else Ok(Node(Addr, x, Nil), s1)
  {
  }

  /** `while (c) s` is a `for` with no init and no step. */
  lemma WhileIsFor(toks: seq<T.Token>, st: PState, c: AST, s1: PState, body: AST, s2: PState)
    requires Inv(toks, st) && Is(toks, st, "while")
    requires ParenExpr(toks, Next(st)) == Ok(c, s1) && Stmt(toks, s1) == Ok(body, s2)
    ensures Stmt(toks, st) == Ok(Leaf(For(Nil, c, Nil, body)), s2)
  {
  }

  /** An `if` without `else` has a `Nil` else-branch. */
  lemma IfWithoutElse(toks: seq<T.Token>, st: PState, c: AST, s1: PState, thn: AST, s2: PState)
    requires Inv(toks, st) && Is(toks, st, "if")
    requires ParenExpr(toks, Next(st)) == Ok(c, s1) && Stmt(toks, s1) == Ok(thn, s2) && !Is(toks, s2, "else")
    ensures Stmt(toks, st) == Ok(Leaf(If(c, thn, Nil)), s2)
  {
  }

  /** `expr` at a `;` is the empty expression and consumes nothing. */
  lemma EmptyExpr(toks: seq<T.Token>, st: PState)
    requires Inv(toks, st) && Is(toks, st, ";")
    ensures Expr(toks, st) == Ok(Nil, st)
  {
  }

  /**
   * Only a `;` makes an expression empty: at a `)` the parser looks for
   * an identifier and fails, so a `for` whose third clause is empty is
   * rejected.
   */
  lemma ExprAtCloseParenFails(toks: seq<T.Token>, st: PState)
    requires Inv(toks, st) && Is(toks, st, ")") && toks[st.pos].kind.Reserved?
    ensures Expr(toks, st) == Err(IdentExpected(st.pos))
  {
    var e := Err(IdentExpected(st.pos));
    assert Primary(toks, st) == e;
    assert Unary(toks, st) == e;
    assert ParseSpec.Mul(toks, st) == e;
    assert Add(toks, st) == e;
    assert Relational(toks, st) == e;
    assert Equality(toks, st) == e;
  }

  // ----- statement sequences and arguments -----

  /**
   * An operand followed by a token that continues none of the operator
   * loops is the whole equality expression.
   */
  lemma OperandAlone(toks: seq<T.Token>, st: PState, a: AST, st1: PState)
    requires Inv(toks, st) && Unary(toks, st) == Ok(a, st1)
    requires toks[st1.pos].str !in {"*", "/", "+", "-", "<=", "<", ">=", ">", "==", "!="}
    ensures Equality(toks, st) == Ok(a, st1)
  {
    assert MulTail(toks, a, st1) == Ok(a, st1);
    assert ParseSpec.Mul(toks, st) == Ok(a, st1);
    assert AddTail(toks, a, st1) == Ok(a, st1);
    assert Add(toks, st) == Ok(a, st1);
    assert RelationalTail(toks, a, st1) == Ok(a, st1);
    assert Relational(toks, st) == Ok(a, st1);
    assert EqualityTail(toks, a, st1) == Ok(a, st1);
  }

  /** A one-letter variable name is none of the strings that start another rule. */
  predicate Letter(name: string) {
    |name| == 1 && 'a' <= name[0] <= 'z'
  }

  /** A variable not followed by `(` is a leaf, looked up in the table. */
  lemma VarOperand(toks: seq<T.Token>, st: PState, name: string)
    requires Inv(toks, st) && st.pos + 1 < |toks| && Letter(name)
    requires toks[st.pos].kind.Ident? && toks[st.pos].str == name && toks[st.pos + 1].str != "("
    ensures Unary(toks, st) == Ok(Leaf(Var(name, Lookup(Next(st), name).0)), Lookup(Next(st), name).1)
  {
    var st1 := Next(st);
    assert toks[st.pos].str[0] == name[0];
    assert IsNone(toks, st);
    assert !AtNum(toks, st);
    assert !Is(toks, st1, "(");
    assert Ident(toks, st) == Ok(Leaf(Var(name, Lookup(st1, name).0)), Lookup(st1, name).1);
    assert Primary(toks, st) == Ident(toks, st);
  }

  /** The current token starts none of the prefix rules of `unary` and `primary`. */
  predicate IsNone(toks: seq<T.Token>, st: PState)
    requires st.pos < |toks|
  {
    !Is(toks, st, "+") && !Is(toks, st, "-") && !Is(toks, st, "*") && !Is(toks, st, "&") && !Is(toks, st, "(")
  }

  /** A number token is a leaf. */
  lemma NumOperand(toks: seq<T.Token>, st: PState, n: int)
    requires Inv(toks, st) && toks[st.pos].kind == T.Num(n) && toks[st.pos].str == ""
    ensures Unary(toks, st) == Ok(Leaf(Num(n)), Next(st))
  {
    assert "" != "+" && "" != "-" && "" != "*" && "" != "&" && "" != "(";
  }

  /** `x = n ;` for a one-letter variable `x`: an assignment statement, `x` looked up first. */
  lemma VarAssignStmt(toks: seq<T.Token>, st: PState, name: string, n: int)
    requires Inv(toks, st) && st.pos + 4 < |toks| && Letter(name)
    requires toks[st.pos].kind.Ident? && toks[st.pos].str == name
    requires toks[st.pos + 1] == T.Token(T.Reserved, st.pos + 2, "=")
    requires toks[st.pos + 2].kind == T.Num(n) && toks[st.pos + 2].str == ""
    requires toks[st.pos + 3].str == ";"
    ensures var (ofs, s1) := Lookup(Next(st), name);
            Stmt(toks, st) == Ok(Leaf(ExprStmt(Node(NodeKind.Assign, Leaf(Var(name, ofs)), Leaf(Num(n))))),
                                 s1.(pos := st.pos + 4))
  {
    var (ofs, s1) := Lookup(Next(st), name);
    var x := Leaf(Var(name, ofs));
    var one := Leaf(Num(n));
    var asg := Node(NodeKind.Assign, x, one);
    VarOperand(toks, st, name);
    OperandAlone(toks, st, x, s1);
    var s2 := Next(s1);
    var s3 := Next(s2);
    NumOperand(toks, s2, n);
    OperandAlone(toks, s2, one, s3);
    assert AssignTail(toks, one, s3) == Ok(one, s3);
    assert ParseSpec.Assign(toks, s2) == Ok(one, s3);
    assert AssignTail(toks, asg, s3) == Ok(asg, s3);
    assert !AtEof(toks, s1) && Is(toks, s1, "=");
    assert AssignTail(toks, x, s1) == Ok(asg, s3);
    ExprStmtOf(toks, st, asg, s3);
  }

  /** An expression that ends at `;` makes an expression statement. */
  lemma ExprStmtOf(toks: seq<T.Token>, st: PState, e: AST, s1: PState)
    requires Inv(toks, st) && Letter(toks[st.pos].str)
    requires ParseSpec.Assign(toks, st) == Ok(e, s1) && Is(toks, s1, ";")
    ensures Stmt(toks, st) == Ok(Leaf(ExprStmt(e)), Next(s1))
  {
    var name := toks[st.pos].str;
    assert name != "return" && name != "if" && name != "while" && name != "for" && name != "{" && name != ";";
  }

  /**
   * `a=1;b=2;` is two assignment statements in order, `a` in the first
   * frame slot and `b` in the next one; parsing stops at `Eof`.
   */
  lemma TwoStatements(toks: seq<T.Token>)
    requires toks == TwoAssignments()
    ensures Parse(toks)
         == Ok([Leaf(ExprStmt(Node(NodeKind.Assign, Leaf(Var("a", 0)), Leaf(Num(1))))),
                Leaf(ExprStmt(Node(NodeKind.Assign, Leaf(Var("b", 8)), Leaf(Num(2)))))],
               PState(8, 16, map["a" := 0, "b" := 8]))
  {
    var s1 := PState(4, 8, map["a" := 0]);
    var s2 := PState(8, 16, map["a" := 0, "b" := 8]);
    var t1 := Leaf(ExprStmt(Node(NodeKind.Assign, Leaf(Var("a", 0)), Leaf(Num(1)))));
    var t2 := Leaf(ExprStmt(Node(NodeKind.Assign, Leaf(Var("b", 8)), Leaf(Num(2)))));
    FirstAssignment(toks);
    SecondAssignment(toks);
    assert Program(toks, s2) == Ok([], s2);
    ProgramCons(toks, s1, t2, s2, [], s2);
    assert [t2] + [] == [t2];
    ProgramCons(toks, Init, t1, s1, [t2], s2);
    assert [t1] + [t2] == [t1, t2];
  }

  /** The tokens of `a=1;b=2;`. */
  function TwoAssignments(): seq<T.Token>
  {
    [T.Token(T.Ident, 1, "a"), T.Token(T.Reserved, 2, "="), T.Token(T.Num(1), 3, ""),
     T.Token(T.Reserved, 4, ";"), T.Token(T.Ident, 5, "b"), T.Token(T.Reserved, 6, "="),
     T.Token(T.Num(2), 7, ""), T.Token(T.Reserved, 8, ";"), T.Token(T.Eof, 8, "")]
  }

  lemma FirstAssignment(toks: seq<T.Token>)
    requires toks == TwoAssignments()
    ensures Inv(toks, PState(4, 8, map["a" := 0]))
    ensures Stmt(toks, Init)
         == Ok(Leaf(ExprStmt(Node(NodeKind.Assign, Leaf(Var("a", 0)), Leaf(Num(1))))), PState(4, 8, map["a" := 0]))
  {
    assert Inv(toks, Init) && Letter("a");
    assert toks[0].kind.Ident? && toks[0].str == "a" && toks[1] == T.Token(T.Reserved, 2, "=");
    assert toks[2].kind == T.Num(1) && toks[2].str == "" && toks[3].str == ";";
    VarAssignStmt(toks, Init, "a", 1);
    assert Next(Init) == PState(1, 0, map[]);
    assert Lookup(Next(Init), "a") == (0, PState(1, 8, map["a" := 0]));
  }

  lemma SecondAssignment(toks: seq<T.Token>)
    requires toks == TwoAssignments()
    ensures Inv(toks, PState(4, 8, map["a" := 0]))
    ensures Stmt(toks, PState(4, 8, map["a" := 0]))
         == Ok(Leaf(ExprStmt(Node(NodeKind.Assign, Leaf(Var("b", 8)), Leaf(Num(2))))),
               PState(8, 16, map["a" := 0, "b" := 8]))
  {
    var s1 := PState(4, 8, map["a" := 0]);
    assert Inv(toks, s1) && Letter("b");
    assert toks[4].kind.Ident? && toks[4].str == "b" && toks[5] == T.Token(T.Reserved, 6, "=");
    assert toks[6].kind == T.Num(2) && toks[6].str == "" && toks[7].str == ";";
    VarAssignStmt(toks, s1, "b", 2);
    assert Next(s1) == PState(5, 8, map["a" := 0]);
    assert Lookup(Next(s1), "b") == (8, PState(5, 16, map["a" := 0, "b" := 8]));
  }

  /** A statement followed by the rest of the program. */
  lemma ProgramCons(toks: seq<T.Token>, st: PState, s: AST, st1: PState, ss: seq<AST>, st2: PState)
    requires Inv(toks, st) && !AtEof(toks, st) && Stmt(toks, st) == Ok(s, st1)
    requires Inv(toks, st1) && Program(toks, st1) == Ok(ss, st2)
    ensures Program(toks, st) == Ok([s] + ss, st2)
  {
  }

  /**
   * The argument loop appends what it reads to the arguments it starts
   * with: started on `args`, it yields `args` followed by the arguments
   * it yields when started on none, or the same error.
   */
  lemma {:induction false} ArgsAccumulate(toks: seq<T.Token>, args: seq<AST>, st: PState)
    requires Inv(toks, st)
    ensures match ArgsTail(toks, [], st)
            case Ok(more, st2) => ArgsTail(toks, args, st) == Ok(args + more, st2)
            case Err(e) => ArgsTail(toks, args, st) == Err(e)
    decreases |toks| - st.pos
  {
    if !Is(toks, st, ",") || !AtExprStart(toks, Next(st)) {
      assert args + [] == args;
    } else {
      match Expr(toks, Next(st))
      case Err(_) =>
      case Ok(e, st2) =>
        assert [] + [e] == [e];
        ArgsAccumulate(toks, args + [e], st2);
        ArgsAccumulate(toks, [e], st2);
        match ArgsTail(toks, [], st2) {
          case Err(_) =>
          case Ok(more, _) =>
            assert args + ([e] + more) == args + [e] + more;
        }
    }
  }

  /** `f(a, b)`: two arguments separated by a comma are collected as `[a, b]`. */
  lemma TwoArgs(toks: seq<T.Token>, st: PState, a: AST, s1: PState, b: AST, s2: PState)
    requires Inv(toks, st) && AtExprStart(toks, st) && Expr(toks, st) == Ok(a, s1)
    requires Is(toks, s1, ",") && s1.pos + 1 < |toks| && AtExprStart(toks, Next(s1))
    requires Expr(toks, Next(s1)) == Ok(b, s2) && !Is(toks, s2, ",")
    ensures CallArgs(toks, st) == Ok([a, b], s2)
  {
    assert ArgsTail(toks, [a, b], s2) == Ok([a, b], s2);
    assert [a] + [b] == [a, b];
  }

  /** A trailing `,` before the `)` is accepted: the loop stops after it. */
  lemma TrailingCommaAccepted(toks: seq<T.Token>, args: seq<AST>, st: PState)
    requires Inv(toks, st) && Is(toks, st, ",")
    requires Next(st).pos < |toks| && Is(toks, Next(st), ")") && toks[st.pos + 1].kind.Reserved?
    ensures ArgsTail(toks, args, st) == Ok(args, Next(st))
  {
  }
}
