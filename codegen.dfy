/**
 * The code generator object: the statements to translate, the label
 * counter and the output buffer, which the generating methods append to
 * line by line.  Each method is proved to emit exactly the lines of the
 * reference definition in CodegenSpec and to leave the counter where that
 * definition says, or to fail with its error.
 */
module Codegen {
  import opened Wrappers
  import opened Text
  import opened Ast
  import opened Asm
  import S = CodegenSpec

  /**
   * A generating method's outcome, output and counter are those of the
   * reference result `spec`, given the output `out0` it started from.
   */
  predicate Agrees(r: Outcome<GenError>, out: seq<string>, cnt: nat, out0: seq<string>, spec: S.Code) {
    if spec.Success? then r == Pass && out == out0 + spec.value.0 && cnt == spec.value.1
    else r == Fail(spec.error)
  }

  /** `pre` followed by the lines of the rest of the statements. */
  function Prefixed(pre: seq<string>, code: S.Code): S.Code {
    match code
    case Success((lines, c)) => Success((pre + lines, c))
    case Failure(e) => Failure(e)
  }

  class CodeGenerator {
    const astList: seq<AST>
    var labelCnt: nat
    var output: seq<string>

    constructor (vec: seq<AST>)
      ensures astList == vec && labelCnt == 0 && output == []
    {
      astList := vec;
      labelCnt := 0;
      output := [];
    }

    /** Appends one line to the output. */
    method Output(s: string)
      modifies this
      ensures output == old(output) + [s] && labelCnt == old(labelCnt)
    {
      output := output + [s];
    }

    /** Pushes the address of a variable; aborts on any other node. */
    method GenLval(a: AST) returns (r: Outcome<GenError>)
      modifies this
      ensures labelCnt == old(labelCnt)
      ensures S.GenLval(a).Success? ==> r == Pass && output == old(output) + S.GenLval(a).value
      ensures S.GenLval(a).Failure? ==> r == Fail(S.GenLval(a).error)
    {
      match a
      case Node(Var(_, ofs), _, _) =>
        Output("    mov rax, rbp");
        Output("    sub rax, " + NatToString(ofs));
        Output("    push rax;");
        r := Pass;
      case _ =>
        r := Fail(NotAnLvalue);
    }

    /** The loop of `codegen`: each statement's code, then `pop rax` to drop its value. */
    method GenStmts() returns (r: Outcome<GenError>)
      modifies this
      ensures Agrees(r, output, labelCnt, old(output), S.StmtsFrom(astList, 0, old(labelCnt)))
    {
      ghost var out0 := output;
      assert output[|out0|..] == [];
      PrefixedEmpty(S.StmtsFrom(astList, 0, labelCnt));
      for i := 0 to |astList|
        invariant |output| >= |out0| && output[..|out0|] == out0
        invariant S.StmtsFrom(astList, 0, old(labelCnt)) == Prefixed(output[|out0|..], S.StmtsFrom(astList, i, labelCnt))
      {
        ghost var out1 := output;
        StmtsStep(astList, i, labelCnt);
        r := GenExpr(astList[i]);
        if r.Fail? {
          return;
        }
        Output(PopRax);
        ghost var code := output[|out1|..|output| - 1];
        assert output[|out0|..] == out1[|out0|..] + (code + [PopRax]);
        PrefixedAssoc(out1[|out0|..], code + [PopRax], S.StmtsFrom(astList, i + 1, labelCnt));
      }
      r := Pass;
      ghost var body := output[|out0|..];
      assert body + [] == body;
      assert output == out0 + body;
    }

    /** Emits the code of `a`, leaving its value pushed. */
    method GenExpr(a: AST) returns (r: Outcome<GenError>)
      modifies this
      ensures Agrees(r, output, labelCnt, old(output), S.GenExpr(a, old(labelCnt)))
      decreases a, 2
    {
      match a
      case Nil =>
        r := Pass;
      case Node(k, l, rhs) =>
        match k
        case Num(i) =>
          Output("    push " + IntToString(i) + ";");
          r := Pass;
        case Var(_, _) =>
          r := GenLval(a);
          Output("    pop rax");
          Output("    mov rax, [rax]");
          Output("    push rax");
        case Assign =>
          r := GenAssign(a);
        case Return =>
          r := GenExpr(l);
          if r.Fail? {
            return;
          }
          Output(PopRax);
          Output("    mov rsp, rbp");
          Output("    pop rbp");
          Output("    ret");
        case If(_, _, els) =>
          if els.Node? {
            r := GenIfElse(a);
          } else {
            r := GenIfEnd(a);
          }
        case _ =>
          r := GenBinary(a);
    }

    /** Target address, value, then the store; the value stays pushed. */
    method GenAssign(a: AST) returns (r: Outcome<GenError>)
      requires a.Node? && a.kind.Assign?
      modifies this
      ensures Agrees(r, output, labelCnt, old(output), S.GenExpr(a, old(labelCnt)))
      decreases a, 0
    {
      ghost var out0 := output;
      r := GenLval(a.lhs);
      if r.Fail? {
        return;
      }
      ghost var out1 := output;
      r := GenExpr(a.rhs);
      if r.Fail? {
        return;
      }
      Output("    pop rdi");
      Output("    pop rax");
      Output("    mov [rax], rdi");
      Output("    push rdi");
      assert output == out0 + (out1[|out0|..] + output[|out1|..|output| - 4] + S.StoreLines);
    }

    /** `If` with an else-branch: two `.Lelse` labels, then the condition. */
    method GenIfElse(a: AST) returns (r: Outcome<GenError>)
      requires a.Node? && a.kind.If? && a.kind.els.Node?
      modifies this
      ensures Agrees(r, output, labelCnt, old(output), S.GenExpr(a, old(labelCnt)))
      decreases a, 1
    {
      assert S.GenExpr(a, labelCnt) == S.GenIfElse(a, labelCnt);
      ghost var out0 := output;
      var labelElse := ElseLabel(labelCnt);
      labelCnt := labelCnt + 1;
      var labelEnd := ElseLabel(labelCnt);
      labelCnt := labelCnt + 1;

      r := GenExpr(a.kind.cond);
      if r.Fail? {
        return;
      }
      ghost var c := output[|out0|..];
      Output(PopRax);
      Output("    cmp rax, 0");
      Output("    je " + labelElse);
      ghost var out1 := output;
      assert out1 == out0 + (c + [PopRax, "    cmp rax, 0", "    je " + labelElse]);
      r := GenArms(a, labelElse, labelEnd);
      if r.Fail? {
        return;
      }
      assert output == out0 + (c + [PopRax, "    cmp rax, 0", "    je " + labelElse] + output[|out1|..]);
    }

    /** The then-branch, the jump over the else-branch, and the else-branch. */
    method GenArms(a: AST, labelElse: string, labelEnd: string) returns (r: Outcome<GenError>)
      requires a.Node? && a.kind.If?
      modifies this
      ensures Agrees(r, output, labelCnt, old(output), S.GenArms(a, labelElse, labelEnd, old(labelCnt)))
      decreases a, 0
    {
      ghost var out0 := output;
      r := GenExpr(a.kind.thn);
      if r.Fail? {
        return;
      }
      ghost var t := output[|out0|..];
      Output("    jmp " + labelEnd);
      Output(labelElse + ":");
      ghost var out1 := output;
      assert out1 == out0 + (t + ["    jmp " + labelEnd, labelElse + ":"]);
      r := GenExpr(a.kind.els);
      if r.Fail? {
        return;
      }
      ghost var e := output[|out1|..];
      Output(labelEnd + ":");
      assert output == out0 + (t + ["    jmp " + labelEnd, labelElse + ":"] + e + [labelEnd + ":"]);
    }

    /** `If` without an else-branch. */
    method GenIfEnd(a: AST) returns (r: Outcome<GenError>)
      requires a.Node? && a.kind.If? && !a.kind.els.Node?
      modifies this
      ensures Agrees(r, output, labelCnt, old(output), S.GenExpr(a, old(labelCnt)))
      decreases a, 0
    {
      assert S.GenExpr(a, labelCnt) == S.GenIfEnd(a, labelCnt);
      ghost var out0 := output;
      var labelEnd := EndLabel(labelCnt);
      labelCnt := labelCnt + 1;

      r := GenExpr(a.kind.cond);
      if r.Fail? {
        return;
      }
      ghost var c := output[|out0|..];
      Output(PopRax);
      Output("    cmp rax, 0");
      Output("    je " + labelEnd);
      ghost var out1 := output;
      r := GenExpr(a.kind.thn);
      if r.Fail? {
        return;
      }
      ghost var t := output[|out1|..];
      Output(labelEnd + ":");
      assert output == out0 + (c + [PopRax, "    cmp rax, 0", "    je " + labelEnd] + t + [labelEnd + ":"]);
    }

    /** Left operand, right operand, the operator, the result pushed. */
    method GenBinary(a: AST) returns (r: Outcome<GenError>)
      requires a.Node? && !a.kind.Num? && !a.kind.Var? && !a.kind.Assign? && !a.kind.Return? && !a.kind.If?
      modifies this
      ensures Agrees(r, output, labelCnt, old(output), S.GenExpr(a, old(labelCnt)))
      decreases a, 0
    {
      assert S.GenExpr(a, labelCnt) == S.GenBinary(a, labelCnt);
      ghost var out0 := output;
      r := GenExpr(a.lhs);
      if r.Fail? {
        return;
      }
      ghost var lc := output[|out0|..];
      ghost var out1 := output;
      r := GenExpr(a.rhs);
      if r.Fail? {
        return;
      }
      ghost var rc := output[|out1|..];
      Output("    pop rdi");
      Output("    pop rax");
      OutputOperator(a.kind);
      Output(S.PushRax);
      assert output == out0 + (lc + rc + S.OperandLines + OpLines(a.kind) + [S.PushRax]);
    }

    /** The instructions of a binary operator; nothing for any other kind. */
    method OutputOperator(k: NodeKind)
      modifies this
      ensures output == old(output) + OpLines(k) && labelCnt == old(labelCnt)
    {
      match k
      case Plus =>
        Output("    add rax, rdi");
      case Minus =>
        Output("    sub rax, rdi");
      case Mul =>
        Output("    imul rax, rdi");
      case Div =>
        Output("    cqo");
        Output("    idiv rdi");
      case Eq =>
        Output("    cmp rax, rdi");
        Output("    sete al");
        Output("    movzb rax, al");
      case Ne =>
        Output("    cmp rax, rdi");
        Output("    setne al");
        Output("    movzb rax, al");
      case Lt =>
        Output("    cmp rax, rdi");
        Output("    setl al");
        Output("    movzb rax, al");
      case Le =>
        Output("    cmp rax, rdi");
        Output("    setle al");
        Output("    movzb rax, al");
      case _ =>
    }
  }

  /** One statement's code and its `pop rax`, then the rest. */
  lemma StmtsStep(vec: seq<AST>, i: nat, cnt: nat)
    requires i < |vec|
    ensures S.GenExpr(vec[i], cnt).Failure? ==> S.StmtsFrom(vec, i, cnt) == Failure(S.GenExpr(vec[i], cnt).error)
    ensures S.GenExpr(vec[i], cnt).Success? ==>
              var (code, c1) := S.GenExpr(vec[i], cnt).value;
              S.StmtsFrom(vec, i, cnt) == Prefixed(code + [PopRax], S.StmtsFrom(vec, i + 1, c1))
  {
  }

  lemma PrefixedEmpty(code: S.Code)
    ensures Prefixed([], code) == code
  {
    if code.Success? {
      assert [] + code.value.0 == code.value.0;
    }
  }

  lemma PrefixedAssoc(pre: seq<string>, more: seq<string>, code: S.Code)
    ensures Prefixed(pre, Prefixed(more, code)) == Prefixed(pre + more, code)
  {
    if code.Success? {
      assert pre + (more + code.value.0) == (pre + more) + code.value.0;
    }
  }

  /**
   * `codegen`: the frame set-up, every statement followed by `pop rax`,
   * and the frame tear-down, or the failure that stopped generation.
   */
  method Codegen(vec: seq<AST>) returns (r: Result<seq<string>, GenError>)
    ensures r == S.Unit(vec)
  {
    var gen := new CodeGenerator(vec);
    gen.Output(".intel_syntax noprefix");
    gen.Output(".global main");
    gen.Output("main:");
    gen.Output("    push rbp");
    gen.Output("    mov rbp, rsp");
    gen.Output("    sub rsp, 208");
    assert gen.output == Prologue;
    var o := gen.GenStmts();
    if o.Fail? {
      return Failure(o.error);
    }
    ghost var body := gen.output[|Prologue|..];
    gen.Output("    mov rsp, rbp");
    gen.Output("    pop rbp");
    gen.Output("    ret");
    assert gen.output == Prologue + body + Epilogue;
    r := Success(gen.output);
  }
}
