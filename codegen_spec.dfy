/**
 * Reference definition of the stack-machine code generator: the lines a
 * tree emits and the label counter after it, or the failure that stops
 * generation when an assignment target is not a variable.  Every
 * expression leaves its value pushed on the machine stack; `Return`
 * emits its own frame tear-down; `If` mints label numbers from the
 * counter before generating any of its parts.
 */
module CodegenSpec {
  import opened Wrappers
  import opened Text
  import opened Ast
  import opened Asm

  type Code = Result<(seq<string>, nat), GenError>

  /** Pushes the address `rbp - ofs` of a local variable. */
  function LvalLines(ofs: nat): (r: seq<string>)
    ensures AllInstr(r) && Net(r) == 1
  {
    var r := ["    mov rax, rbp", "    sub rax, " + NatToString(ofs), "    push rax;"];
    NeutralNet(r[..2]);
    assert r == r[..2] + r[2..];
    NetAppend(r[..2], r[2..]);
    assert r[2..][1..] == [];
    r
  }

  /** `gen_lval`: the address of a variable; anything else is not an lvalue. */
  function GenLval(a: AST): (r: Result<seq<string>, GenError>)
    ensures r.Success? <==> a.Node? && a.kind.Var?
    ensures r.Success? ==> AllInstr(r.value) && Net(r.value) == 1
  {
    match a
    case Node(Var(_, ofs), _, _) => Success(LvalLines(ofs))
    case _ => Failure(NotAnLvalue)
  }

  /** Loads the variable whose address is on the stack. */
  const LoadLines: seq<string> := ["    pop rax", "    mov rax, [rax]", "    push rax"]

  /** Stores the value on top of the stack into the address below it and pushes the value back. */
  const StoreLines: seq<string> := ["    pop rdi", "    pop rax", "    mov [rax], rdi", "    push rdi"]

  /** Pops the right operand into `rdi` and the left one into `rax`. */
  const OperandLines: seq<string> := ["    pop rdi", "    pop rax"]

  const PushRax := "    push rax"

  /**
   * `gen_expr`: the lines `a` emits when the label counter is `cnt`,
   * with the counter afterwards.
   */
  function GenExpr(a: AST, cnt: nat): (r: Code)
    ensures r.Success? ==> cnt <= r.value.1
    ensures a.Nil? ==> r == Success(([], cnt))
    decreases a, 2
  {
    match a
    case Nil => Success(([], cnt))
    case Node(k, l, rhs) =>
      match k
      case Num(i) => Success((["    push " + IntToString(i) + ";"], cnt))
      case Var(_, ofs) => Success((LvalLines(ofs) + LoadLines, cnt))
      case Assign =>
        var lv :- GenLval(l);
        var (rv, c1) :- GenExpr(rhs, cnt);
        Success((lv + rv + StoreLines, c1))
      case Return =>
        var (ev, c1) :- GenExpr(l, cnt);
        Success((ev + [PopRax] + Epilogue, c1))
      case If(_, _, els) =>
        if els.Node? then GenIfElse(a, cnt) else GenIfEnd(a, cnt)
      case _ => GenBinary(a, cnt)
  }

  /**
   * `If` with an else-branch: two fresh numbers, both for `.Lelse`
   * labels, taken before the condition is generated.
   */
  function GenIfElse(a: AST, cnt: nat): (r: Code)
    requires a.Node? && a.kind.If?
    ensures r.Success? ==> cnt + 2 <= r.value.1
    decreases a, 1
  {
    var (c, c1) :- GenExpr(a.kind.cond, cnt + 2);
    var (arms, c3) :- GenArms(a, ElseLabel(cnt), ElseLabel(cnt + 1), c1);
    Success((c + [PopRax, "    cmp rax, 0", "    je " + ElseLabel(cnt)] + arms, c3))
  }

  /** The two branches of an `If` with an else-branch, jumping to `endL` after the first. */
  function GenArms(a: AST, elseL: string, endL: string, cnt: nat): (r: Code)
    requires a.Node? && a.kind.If?
    ensures r.Success? ==> cnt <= r.value.1
    decreases a, 0
  {
    var (t, c1) :- GenExpr(a.kind.thn, cnt);
    var (e, c2) :- GenExpr(a.kind.els, c1);
    Success((t + ["    jmp " + endL, elseL + ":"] + e + [endL + ":"], c2))
  }

  /** `If` without an else-branch: one fresh number for an `.Lend` label. */
  function GenIfEnd(a: AST, cnt: nat): (r: Code)
    requires a.Node? && a.kind.If?
    ensures r.Success? ==> cnt + 1 <= r.value.1
    decreases a, 0
  {
    var endL := EndLabel(cnt);
    var (c, c1) :- GenExpr(a.kind.cond, cnt + 1);
    var (t, c2) :- GenExpr(a.kind.thn, c1);
    Success((c + [PopRax, "    cmp rax, 0", "    je " + endL] + t + [endL + ":"], c2))
  }

  /**
   * Every other node: left operand, right operand, pop both, the
   * operator's instructions (none for a kind that is not an operator),
   * push the result.
   */
  function GenBinary(a: AST, cnt: nat): (r: Code)
    requires a.Node?
    ensures r.Success? ==> cnt <= r.value.1
    decreases a, 0
  {
    var (lc, c1) :- GenExpr(a.lhs, cnt);
    var (rc, c2) :- GenExpr(a.rhs, c1);
    Success((lc + rc + OperandLines + OpLines(a.kind) + [PushRax], c2))
  }

  /** The statements from index `i` on, each followed by `pop rax`. */
  function StmtsFrom(asts: seq<AST>, i: nat, cnt: nat): (r: Code)
    requires i <= |asts|
    ensures r.Success? ==> cnt <= r.value.1
    decreases |asts| - i
  {
    if i == |asts| then Success(([], cnt))
    else
      var (code, c1) :- GenExpr(asts[i], cnt);
      var (rest, c2) :- StmtsFrom(asts, i + 1, c1);
      Success((code + [PopRax] + rest, c2))
  }

  /** `codegen`: the whole translation unit, the counter starting at 0. */
  function Unit(asts: seq<AST>): (r: Result<seq<string>, GenError>)
    ensures r.Success? ==> |r.value| >= |Prologue| + |Epilogue|
  {
    var (body, _) :- StmtsFrom(asts, 0, 0);
    Success(Prologue + body + Epilogue)
  }
}
