/**
 * The earlier code generator: numbers, variables, assignments and binary
 * operators only, printed straight to the output.  Its `gen_lval` is the
 * same function as the later generator's, and so are the load, store and
 * operator lines; a number is pushed without the trailing `;`.  Every
 * other node kind goes through the operator branch.
 */
module Gen {
  import opened Wrappers
  import opened Text
  import opened Ast
  import opened Asm
  import opened CodegenSpec
  import opened CodegenProps

  /** `gen_from_ast`: the lines one tree prints. */
  function GenFromAst(a: AST): (r: Result<seq<string>, GenError>)
    ensures a.Nil? ==> r == Success([])
  {
    if a.Nil? then Success([])
    else if a.kind.Num? then Success(["    push " + IntToString(a.kind.value)])
    else if a.kind.Var? then Success(LvalLines(a.kind.offset) + LoadLines)
    else if a.kind.Assign? then
      var lv :- GenLval(a.lhs);
      var rv :- GenFromAst(a.rhs);
      Success(lv + rv + StoreLines)
    else
      var lc :- GenFromAst(a.lhs);
      var rc :- GenFromAst(a.rhs);
      Success(lc + rc + OperandLines + OpLines(a.kind) + [PushRax])
  }

  /** The statements from index `i` on, each followed by `pop rax`. */
  function ProgramStmts(asts: seq<AST>, i: nat): (r: Result<seq<string>, GenError>)
    requires i <= |asts|
    decreases |asts| - i
  {
    if i == |asts| then Success([])
    else
      var code :- GenFromAst(asts[i]);
      var rest :- ProgramStmts(asts, i + 1);
      Success(code + [PopRax] + rest)
  }

  /** What `gen_from_program` prints: the frame, the statements, the tear-down. */
  function Program(asts: seq<AST>): (r: Result<seq<string>, GenError>) {
    var body :- ProgramStmts(asts, 0);
    Success(Prologue + body + Epilogue)
  }

  /** `pre` followed by the lines of the rest of the statements. */
  function Prepended(pre: seq<string>, r: Result<seq<string>, GenError>): Result<seq<string>, GenError> {
    match r
    case Success(lines) => Success(pre + lines)
    case Failure(e) => Failure(e)
  }

  /** `gen_from_program`: prints the unit line by line, stopping at the first failure. */
  method GenFromProgram(vec: seq<AST>) returns (r: Result<seq<string>, GenError>)
    ensures r == Program(vec)
  {
    var out := Prologue;
    ghost var body: seq<string> := [];
    PrependedEmpty(ProgramStmts(vec, 0));
    for i := 0 to |vec|
      invariant out == Prologue + body
      invariant ProgramStmts(vec, 0) == Prepended(body, ProgramStmts(vec, i))
    {
      var res := GenFromAst(vec[i]);
      if res.Failure? {
        ProgramFails(vec, i, body);
        return Failure(res.error);
      }
      var code := res.value;
      ProgramStep(vec, i, body, code);
      out := out + code + [PopRax];
      body := body + (code + [PopRax]);
    }
    ProgramDone(vec, body);
    out := out + Epilogue;
    r := Success(out);
  }

  lemma PrependedEmpty(r: Result<seq<string>, GenError>)
    ensures Prepended([], r) == r
  {
    if r.Success? {
      assert [] + r.value == r.value;
    }
  }

  /** One more statement printed keeps the printed lines a prefix of the whole. */
  lemma ProgramStep(vec: seq<AST>, i: nat, done: seq<string>, code: seq<string>)
    requires i < |vec| && GenFromAst(vec[i]) == Success(code)
    requires ProgramStmts(vec, 0) == Prepended(done, ProgramStmts(vec, i))
    ensures ProgramStmts(vec, 0) == Prepended(done + (code + [PopRax]), ProgramStmts(vec, i + 1))
  {
    if ProgramStmts(vec, i + 1).Success? {
      var rest := ProgramStmts(vec, i + 1).value;
      assert done + (code + [PopRax] + rest) == done + (code + [PopRax]) + rest;
    }
  }

  lemma ProgramDone(vec: seq<AST>, body: seq<string>)
    requires ProgramStmts(vec, 0) == Prepended(body, ProgramStmts(vec, |vec|))
    ensures Program(vec) == Success(Prologue + body + Epilogue)
  {
    StmtsEnd(vec);
    assert body + [] == body;
    ProgramOf(vec, body);
  }

  lemma StmtsEnd(vec: seq<AST>)
    ensures ProgramStmts(vec, |vec|) == Success([])
  {
  }

  lemma ProgramOf(vec: seq<AST>, body: seq<string>)
    requires ProgramStmts(vec, 0) == Success(body)
    ensures Program(vec) == Success(Prologue + body + Epilogue)
  {
  }

  /** A statement that fails stops the whole unit with its error. */
  lemma ProgramFails(vec: seq<AST>, i: nat, done: seq<string>)
    requires i < |vec| && GenFromAst(vec[i]).Failure?
    requires ProgramStmts(vec, 0) == Prepended(done, ProgramStmts(vec, i))
    ensures Program(vec) == Failure(GenFromAst(vec[i]).error)
  {
  }

  // ----- properties -----

  /**
   * A number, a variable, an assignment to a variable and an operator
   * over such expressions never fail and push exactly one value.
   */
  lemma {:induction false} GenStackBalanced(a: AST)
    requires StackExpr(a)
    ensures GenFromAst(a).Success? && Net(GenFromAst(a).value) == 1
    decreases a, 1
  {
    match a
    case Node(k, l, r) =>
      if k.Num? {
        var line := "    push " + IntToString(k.value);
        assert "    push " <= line;
        NetOne(line);
      } else if k.Var? {
        NetLoadLines();
        NetAppend(LvalLines(k.offset), LoadLines);
      } else if k.Assign? {
        GenStackBalanced(r);
        NetStoreLines();
        var lv := GenLval(l).value;
        var rv := GenFromAst(r).value;
        NetAppend(lv + rv, StoreLines);
        NetAppend(lv, rv);
      } else {
        GenBinaryBalanced(a);
      }
  }

  lemma {:induction false} GenBinaryBalanced(a: AST)
    requires StackExpr(a) && IsBinaryOp(a.kind)
    ensures GenFromAst(a).Success? && Net(GenFromAst(a).value) == 1
    decreases a, 0
  {
    var k := a.kind;
    GenStackBalanced(a.lhs);
    GenStackBalanced(a.rhs);
    NetOperandLines();
    NetPushPop();
    OpLinesNeutral(k);
    var lc := GenFromAst(a.lhs).value;
    var rc := GenFromAst(a.rhs).value;
    BinaryLines(a);
    NetAppend(lc + rc + OperandLines + OpLines(k), [PushRax]);
    NetAppend(lc + rc + OperandLines, OpLines(k));
    NetAppend(lc + rc, OperandLines);
    NetAppend(lc, rc);
  }

  lemma BinaryLines(a: AST)
    requires a.Node? && IsBinaryOp(a.kind) && GenFromAst(a.lhs).Success? && GenFromAst(a.rhs).Success?
    ensures GenFromAst(a) == Success(GenFromAst(a.lhs).value + GenFromAst(a.rhs).value + OperandLines + OpLines(a.kind) + [PushRax])
  {
  }

  /** The later generator's code for an operator over stack expressions. */
  lemma CodeBinaryLines(a: AST, cnt: nat)
    requires StackExpr(a) && IsBinaryOp(a.kind)
    ensures CodegenSpec.GenExpr(a.lhs, cnt).Success? && CodegenSpec.GenExpr(a.rhs, cnt).Success?
    ensures CodegenSpec.GenExpr(a, cnt) == Success((CodegenSpec.GenExpr(a.lhs, cnt).value.0 + CodegenSpec.GenExpr(a.rhs, cnt).value.0
                                                    + OperandLines + OpLines(a.kind) + [PushRax], cnt))
  {
    StackExprBalanced(a.lhs, cnt);
    StackExprBalanced(a.rhs, cnt);
    assert CodegenSpec.GenExpr(a, cnt) == CodegenSpec.GenBinary(a, cnt);
  }

  /**
   * Every assignment this generator visits targets a variable.  It looks
   * only at `lhs` and `rhs`: subtrees a kind carries (the parts of an `if`,
   * call arguments, block statements) are never visited.
   */
  predicate GenTargetsOk(a: AST)
    decreases a
  {
    if a.Nil? then true
    else if a.kind.Num? || a.kind.Var? then true
    else if a.kind.Assign? then a.lhs.Node? && a.lhs.kind.Var? && GenTargetsOk(a.rhs)
    else GenTargetsOk(a.lhs) && GenTargetsOk(a.rhs)
  }

  /** Generation succeeds exactly when every assignment it visits targets a variable. */
  lemma {:induction false} GenSucceedsIff(a: AST)
    ensures GenFromAst(a).Success? <==> GenTargetsOk(a)
    decreases a
  {
    if a.Nil? || a.kind.Num? || a.kind.Var? {
    } else if a.kind.Assign? {
      GenSucceedsIff(a.rhs);
    } else {
      GenSucceedsIff(a.lhs);
      GenSucceedsIff(a.rhs);
    }
  }

  /** A unit compiles exactly when each of its statements does. */
  lemma ProgramSucceedsIff(asts: seq<AST>)
    ensures Program(asts).Success? <==> forall j :: 0 <= j < |asts| ==> GenTargetsOk(asts[j])
  {
    StmtsSucceedIff(asts, 0);
  }

  lemma {:induction false} StmtsSucceedIff(asts: seq<AST>, i: nat)
    requires i <= |asts|
    ensures ProgramStmts(asts, i).Success? <==> forall j :: i <= j < |asts| ==> GenTargetsOk(asts[j])
    decreases |asts| - i
  {
    if i < |asts| {
      GenSucceedsIff(asts[i]);
      StmtsSucceedIff(asts, i + 1);
    }
  }

  /**
   * An `if` whose arm assigns to a number: this generator emits the
   * operator lines for the two empty children and succeeds, where the
   * later one aborts.
   */
  lemma IfArmsNotVisited(c: AST, cnt: nat)
    ensures var bad := Node(Assign, Node(Num(1), Nil, Nil), Node(Num(2), Nil, Nil));
            var a := Node(If(c, bad, Nil), Nil, Nil);
            GenFromAst(a).Success? && CodegenSpec.GenExpr(a, cnt).Failure?
  {
    var bad := Node(Assign, Node(Num(1), Nil, Nil), Node(Num(2), Nil, Nil));
    var a := Node(If(c, bad, Nil), Nil, Nil);
    GenSucceedsIff(a);
    GenExprSucceedsIff(a, cnt);
  }

  /**
   * Here too a statement, block, loop or call falls into the operator
   * branch with two empty operands: an expression statement from the
   * parser prints none of its expression's code.
   */
  lemma GenExprStmtNotGenerated(e: AST)
    ensures GenFromAst(Leaf(ExprStmt(e))) == Success(OperandLines + [PushRax])
    ensures Program([Leaf(ExprStmt(e))]) == Success(Prologue + OperandLines + [PushRax, PopRax] + Epilogue)
  {
    var asts := [Leaf(ExprStmt(e))];
    assert OpLines(ExprStmt(e)) == [];
    assert [] + [] + OperandLines + [] + [PushRax] == OperandLines + [PushRax];
    assert ProgramStmts(asts, 1) == Success([]);
    assert OperandLines + [PushRax] + [PopRax] + [] == OperandLines + [PushRax, PopRax];
    assert ProgramStmts(asts, 0) == Success(OperandLines + [PushRax, PopRax]);
    assert Prologue + (OperandLines + [PushRax, PopRax]) + Epilogue == Prologue + OperandLines + [PushRax, PopRax] + Epilogue;
  }

  /** Assigning to anything but a variable aborts. */
  lemma AssignToNonVariableFails(l: AST, r: AST)
    requires !(l.Node? && l.kind.Var?)
    ensures GenFromAst(Node(Assign, l, r)) == Failure(NotAnLvalue)
  {
  }

  /** Line by line equal, except that the later generator may add a `;`. */
  predicate UpToSemicolons(g: seq<string>, c: seq<string>) {
    |g| == |c| && forall i :: 0 <= i < |g| ==> g[i] == c[i] || c[i] == g[i] + ";"
  }

  lemma UpToAppend(g1: seq<string>, c1: seq<string>, g2: seq<string>, c2: seq<string>)
    requires UpToSemicolons(g1, c1) && UpToSemicolons(g2, c2)
    ensures UpToSemicolons(g1 + g2, c1 + c2)
  {
    forall i | |g1| <= i < |g1 + g2|
      ensures (g1 + g2)[i] == g2[i - |g1|] && (c1 + c2)[i] == c2[i - |g1|]
    {
    }
  }

  lemma UpToSame(g: seq<string>)
    ensures UpToSemicolons(g, g)
  {
  }

  /**
   * On the expressions both generators handle, the earlier one prints the
   * later one's code line for line, without the `;` after a number push.
   */
  lemma {:induction false} GeneratorsAgree(a: AST, cnt: nat)
    requires StackExpr(a)
    ensures GenFromAst(a).Success? && CodegenSpec.GenExpr(a, cnt).Success?
    ensures UpToSemicolons(GenFromAst(a).value, CodegenSpec.GenExpr(a, cnt).value.0)
    decreases a, 1
  {
    match a
    case Node(k, l, r) =>
      if k.Num? {
      } else if k.Var? {
        UpToSame(LvalLines(k.offset) + LoadLines);
      } else if k.Assign? {
        AssignAgree(a, cnt);
      } else {
        BinaryAgree(a, cnt);
      }
  }

  lemma {:induction false} AssignAgree(a: AST, cnt: nat)
    requires StackExpr(a) && a.kind.Assign?
    ensures GenFromAst(a).Success? && CodegenSpec.GenExpr(a, cnt).Success?
    ensures UpToSemicolons(GenFromAst(a).value, CodegenSpec.GenExpr(a, cnt).value.0)
    decreases a, 0
  {
    GeneratorsAgree(a.rhs, cnt);
    var lv := GenLval(a.lhs).value;
    var gr := GenFromAst(a.rhs).value;
    var cr := CodegenSpec.GenExpr(a.rhs, cnt).value.0;
    assert GenFromAst(a) == Success(lv + gr + StoreLines);
    assert CodegenSpec.GenExpr(a, cnt).value.0 == lv + cr + StoreLines;
    UpToSame(lv);
    UpToSame(StoreLines);
    UpToAppend(lv, lv, gr, cr);
    UpToAppend(lv + gr, lv + cr, StoreLines, StoreLines);
  }

  lemma {:induction false} BinaryAgree(a: AST, cnt: nat)
    requires StackExpr(a) && IsBinaryOp(a.kind)
    ensures GenFromAst(a).Success? && CodegenSpec.GenExpr(a, cnt).Success?
    ensures UpToSemicolons(GenFromAst(a).value, CodegenSpec.GenExpr(a, cnt).value.0)
    decreases a, 0
  {
    GeneratorsAgree(a.lhs, cnt);
    GeneratorsAgree(a.rhs, cnt);
    CodeBinaryLines(a, cnt);
    var tail := OperandLines + OpLines(a.kind) + [PushRax];
    var gl := GenFromAst(a.lhs).value;
    var gr := GenFromAst(a.rhs).value;
    var cl := CodegenSpec.GenExpr(a.lhs, cnt).value.0;
    var cr := CodegenSpec.GenExpr(a.rhs, cnt).value.0;
    BinaryLines(a);
    UpToSame(tail);
    UpToAppend(gl, cl, gr, cr);
    UpToAppend(gl + gr, cl + cr, tail, tail);
  }
}
