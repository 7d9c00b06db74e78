/**
 * What the stack-machine code generator promises, stated on its reference
 * definition (which the CodeGenerator methods are proved to compute):
 * every number, variable, assignment and operator expression leaves
 * exactly one value on the stack; label numbers come fresh from the
 * counter, so no label is defined twice in a unit; generation fails
 * exactly when an assignment it reaches has a target that is not a
 * variable.
 */
module CodegenProps {
  import opened Wrappers
  import opened Text
  import opened Ast
  import opened Asm
  import opened CodegenSpec

  // ----- stack balance -----

  lemma NetOne(line: string)
    ensures Net([line]) == Effect(line)
  {
    assert [line][1..] == [];
  }

  lemma NetLoadLines()
    ensures Net(LoadLines) == 0
  {
    assert LoadLines == [LoadLines[0]] + [LoadLines[1]] + [LoadLines[2]];
    NetAppend([LoadLines[0]] + [LoadLines[1]], [LoadLines[2]]);
    NetAppend([LoadLines[0]], [LoadLines[1]]);
    NetOne(LoadLines[0]);
    NetOne(LoadLines[1]);
    NetOne(LoadLines[2]);
    assert !IsPush(LoadLines[1]) && !IsPop(LoadLines[1]) by { assert LoadLines[1][4] == 'm'; }
  }

  lemma NetOperandLines()
    ensures Net(OperandLines) == -2
  {
    assert OperandLines == [OperandLines[0]] + [OperandLines[1]];
    NetAppend([OperandLines[0]], [OperandLines[1]]);
    NetOne(OperandLines[0]);
    NetOne(OperandLines[1]);
  }

  lemma NetStoreLines()
    ensures Net(StoreLines) == -1
  {
    NetOperandLines();
    assert StoreLines == OperandLines + [StoreLines[2]] + [StoreLines[3]];
    NetAppend(OperandLines + [StoreLines[2]], [StoreLines[3]]);
    NetAppend(OperandLines, [StoreLines[2]]);
    NetOne(StoreLines[2]);
    NetOne(StoreLines[3]);
    assert !IsPush(StoreLines[2]) && !IsPop(StoreLines[2]) by { assert StoreLines[2][4] == 'm'; }
  }

  lemma NetPushPop()
    ensures Net([PushRax]) == 1 && Net([PopRax]) == -1
  {
    NetOne(PushRax);
    NetOne(PopRax);
  }

  /** The frame set-up pushes `rbp` once and the tear-down pops it once. */
  lemma NetFrame()
    ensures Net(Prologue) == 1 && Net(Epilogue) == -1
  {
    assert Prologue == Prologue[..3] + [Prologue[3]] + Prologue[4..];
    NetAppend(Prologue[..3] + [Prologue[3]], Prologue[4..]);
    NetAppend(Prologue[..3], [Prologue[3]]);
    NetOne(Prologue[3]);
    NeutralNet(Prologue[4..]);
    forall i | 0 <= i < 3
      ensures Effect(Prologue[..3][i]) == 0
    {
      assert Prologue[..3][i][0] != ' ';
    }
    NoEffectNet(Prologue[..3]);
    assert Epilogue == [Epilogue[0]] + [Epilogue[1]] + [Epilogue[2]];
    NetAppend([Epilogue[0]] + [Epilogue[1]], [Epilogue[2]]);
    NetAppend([Epilogue[0]], [Epilogue[1]]);
    NetOne(Epilogue[0]);
    NetOne(Epilogue[1]);
    NetOne(Epilogue[2]);
    assert !IsPush(Epilogue[0]) && !IsPop(Epilogue[0]) by { assert Epilogue[0][4] == 'm'; }
    assert !IsPush(Epilogue[2]) && !IsPop(Epilogue[2]) by { assert Epilogue[2][4] == 'r'; }
  }

  lemma {:induction false} NoEffectNet(lines: seq<string>)
    requires forall i :: 0 <= i < |lines| ==> Effect(lines[i]) == 0
    ensures Net(lines) == 0
    decreases |lines|
  {
    if lines != [] {
      NoEffectNet(lines[1..]);
    }
  }

  /**
   * Code for a number, a variable, an assignment to a variable and a
   * binary operator over such expressions never fails, takes no label
   * and leaves exactly one more value on the stack.
   */
  lemma {:induction false} StackExprBalanced(a: AST, cnt: nat)
    requires StackExpr(a)
    ensures GenExpr(a, cnt).Success?
    ensures GenExpr(a, cnt).value.1 == cnt && Net(GenExpr(a, cnt).value.0) == 1
    decreases a, 1
  {
    match a
    case Node(k, l, r) =>
      if k.Num? {
        var line := "    push " + IntToString(k.value) + ";";
        assert "    push " <= line;
        NetOne(line);
      } else if k.Var? {
        NetLoadLines();
        NetAppend(LvalLines(k.offset), LoadLines);
      } else if k.Assign? {
        StackAssignBalanced(a, cnt);
      } else {
        StackBinaryBalanced(a, cnt);
      }
  }

  lemma {:induction false} StackAssignBalanced(a: AST, cnt: nat)
    requires StackExpr(a) && a.kind.Assign?
    ensures GenExpr(a, cnt).Success?
    ensures GenExpr(a, cnt).value.1 == cnt && Net(GenExpr(a, cnt).value.0) == 1
    decreases a, 0
  {
    StackExprBalanced(a.rhs, cnt);
    NetStoreLines();
    var lv := GenLval(a.lhs).value;
    var rv := GenExpr(a.rhs, cnt).value.0;
    NetAppend(lv + rv, StoreLines);
    NetAppend(lv, rv);
  }

  lemma {:induction false} StackBinaryBalanced(a: AST, cnt: nat)
    requires StackExpr(a) && IsBinaryOp(a.kind)
    ensures GenExpr(a, cnt).Success?
    ensures GenExpr(a, cnt).value.1 == cnt && Net(GenExpr(a, cnt).value.0) == 1
    decreases a, 0
  {
    var k := a.kind;
    StackExprBalanced(a.lhs, cnt);
    StackExprBalanced(a.rhs, cnt);
    NetOperandLines();
    NetPushPop();
    var lc := GenExpr(a.lhs, cnt).value.0;
    var rc := GenExpr(a.rhs, cnt).value.0;
    OpLinesNeutral(k);
    assert GenExpr(a, cnt) == Success((lc + rc + OperandLines + OpLines(k) + [PushRax], cnt));
    NetAppend(lc + rc + OperandLines + OpLines(k), [PushRax]);
    NetAppend(lc + rc + OperandLines, OpLines(k));
    NetAppend(lc + rc, OperandLines);
    NetAppend(lc, rc);
  }

  /** Statements that each push one value and have it popped leave the stack balanced. */
  lemma {:induction false} StackStmtsBalanced(asts: seq<AST>, i: nat, cnt: nat)
    requires i <= |asts| && forall j :: i <= j < |asts| ==> StackExpr(asts[j])
    ensures StmtsFrom(asts, i, cnt).Success? && Net(StmtsFrom(asts, i, cnt).value.0) == 0
    decreases |asts| - i
  {
    if i < |asts| {
      StackExprBalanced(asts[i], cnt);
      StackStmtsBalanced(asts, i + 1, cnt);
      NetPushPop();
      var code := GenExpr(asts[i], cnt).value.0;
      var rest := StmtsFrom(asts, i + 1, cnt).value.0;
      NetAppend(code + [PopRax], rest);
      NetAppend(code, [PopRax]);
    }
  }

  /**
   * A unit of such statements compiles, and the frame set-up's `push rbp`
   * is matched by the tear-down's `pop rbp`: pushes and pops balance.
   */
  lemma UnitBalanced(asts: seq<AST>)
    requires forall j :: 0 <= j < |asts| ==> StackExpr(asts[j])
    ensures Unit(asts).Success? && Net(Unit(asts).value) == 0
  {
    StackStmtsBalanced(asts, 0, 0);
    NetFrame();
    var body := StmtsFrom(asts, 0, 0).value.0;
    NetAppend(Prologue + body, Epilogue);
    NetAppend(Prologue, body);
  }

  // ----- when generation fails -----

  /**
   * The nodes generation reaches are fine: every assignment among them
   * has a variable as its target.  Generation visits an assignment's
   * value, a return's expression, an `If`'s condition and branches, and
   * both children of every other node.
   */
  predicate TargetsOk(a: AST)
    decreases a, 0
  {
    match a
    case Nil => true
    case Node(k, l, r) =>
      match k
      case Num(_) => true
      case Var(_, _) => true
      case Assign => l.Node? && l.kind.Var? && TargetsOk(r)
      case Return => TargetsOk(l)
      case If(c, t, e) => TargetsOk(c) && TargetsOk(t) && TargetsOk(e)
      case _ => TargetsOk(l) && TargetsOk(r)
  }

  /** Generation succeeds exactly when every assignment it reaches targets a variable. */
  lemma {:induction false} GenExprSucceedsIff(a: AST, cnt: nat)
    ensures GenExpr(a, cnt).Success? <==> TargetsOk(a)
    decreases a, 2
  {
    match a
    case Nil =>
    case Node(k, l, r) =>
      match k
      case Num(_) =>
      case Var(_, _) =>
      case Assign =>
        GenExprSucceedsIff(r, cnt);
      case Return =>
        GenExprSucceedsIff(l, cnt);
      case If(c, t, e) =>
        if e.Node? {
          GenExprSucceedsIff(c, cnt + 2);
          if GenExpr(c, cnt + 2).Success? {
            ArmsSucceedIff(a, ElseLabel(cnt), ElseLabel(cnt + 1), GenExpr(c, cnt + 2).value.1);
          }
        } else {
          GenExprSucceedsIff(c, cnt + 1);
          if GenExpr(c, cnt + 1).Success? {
            GenExprSucceedsIff(t, GenExpr(c, cnt + 1).value.1);
          }
        }
      case _ =>
        GenExprSucceedsIff(l, cnt);
        if GenExpr(l, cnt).Success? {
          GenExprSucceedsIff(r, GenExpr(l, cnt).value.1);
        }
  }

  lemma {:induction false} ArmsSucceedIff(a: AST, elseL: string, endL: string, cnt: nat)
    requires a.Node? && a.kind.If?
    ensures GenArms(a, elseL, endL, cnt).Success? <==> TargetsOk(a.kind.thn) && TargetsOk(a.kind.els)
    decreases a, 0
  {
    GenExprSucceedsIff(a.kind.thn, cnt);
    if GenExpr(a.kind.thn, cnt).Success? {
      GenExprSucceedsIff(a.kind.els, GenExpr(a.kind.thn, cnt).value.1);
    }
  }

  /** Assigning to anything but a variable aborts generation. */
  lemma AssignToNonVariableFails(l: AST, r: AST, cnt: nat)
    requires !(l.Node? && l.kind.Var?)
    ensures GenExpr(Node(Assign, l, r), cnt) == Failure(NotAnLvalue)
  {
  }

  // ----- labels -----

  lemma LabelLine(line: string, n: nat)
    requires IsLabelDef(line) && LabelNum(line) == n
    ensures LabelsIn([line], {n})
  {
  }

  /** Instruction lines around a piece of code add no label. */
  lemma LabelsPad(pre: seq<string>, lines: seq<string>, post: seq<string>, s: set<nat>)
    requires AllInstr(pre) && AllInstr(post) && LabelsIn(lines, s)
    ensures LabelsIn(pre + lines + post, s)
  {
    var none: set<nat> := {};
    InstrLabels(pre, none);
    InstrLabels(post, none);
    LabelsAppend(pre, none, lines, s);
    LabelsAppend(pre + lines, none + s, post, none);
    LabelsWeaken(pre + lines + post, none + s + none, s);
  }

  lemma FixedLinesInstr()
    ensures AllInstr(LoadLines) && AllInstr(StoreLines) && AllInstr(OperandLines)
    ensures AllInstr([PushRax]) && AllInstr([PopRax] + Epilogue)
  {
    assert IsInstr(LoadLines[0]) && IsInstr(LoadLines[1]) && IsInstr(LoadLines[2]);
    assert IsInstr(StoreLines[0]) && IsInstr(StoreLines[1]) && IsInstr(StoreLines[2]) && IsInstr(StoreLines[3]);
    assert IsInstr(PushRax);
    var tail := [PopRax] + Epilogue;
    assert IsInstr(tail[0]) && IsInstr(tail[1]) && IsInstr(tail[2]) && IsInstr(tail[3]);
  }

  /**
   * The labels `a` defines carry counter values taken while generating
   * it, each value at most once.
   */
  lemma {:induction false} LabelsFresh(a: AST, cnt: nat)
    requires GenExpr(a, cnt).Success?
    ensures LabelsIn(GenExpr(a, cnt).value.0, Range(cnt, GenExpr(a, cnt).value.1))
    decreases a, 2
  {
    var (lines, c) := GenExpr(a, cnt).value;
    match a
    case Nil =>
    case Node(k, l, r) =>
      match k
      case Num(_) =>
        assert AllInstr(lines) by { assert IsInstr(lines[0]); }
        InstrLabels(lines, Range(cnt, c));
      case Var(_, ofs) =>
        FixedLinesInstr();
        AllInstrAppend(LvalLines(ofs), LoadLines);
        InstrLabels(lines, Range(cnt, c));
      case Assign =>
        FixedLinesInstr();
        LabelsFresh(r, cnt);
        LabelsPad(GenLval(l).value, GenExpr(r, cnt).value.0, StoreLines, Range(cnt, c));
      case Return =>
        FixedLinesInstr();
        LabelsFresh(l, cnt);
        LabelsPad([], GenExpr(l, cnt).value.0, [PopRax] + Epilogue, Range(cnt, c));
        assert lines == [] + GenExpr(l, cnt).value.0 + ([PopRax] + Epilogue);
      case If(cond, thn, els) =>
        if els.Node? {
          IfElseLabels(a, cnt);
        } else {
          IfEndLabels(a, cnt);
        }
      case _ =>
        BinaryLabels(a, cnt);
  }

  lemma {:induction false} BinaryLabels(a: AST, cnt: nat)
    requires a.Node? && !a.kind.Num? && !a.kind.Var? && !a.kind.Assign? && !a.kind.Return? && !a.kind.If?
    requires GenExpr(a, cnt).Success?
    ensures LabelsIn(GenExpr(a, cnt).value.0, Range(cnt, GenExpr(a, cnt).value.1))
    decreases a, 1
  {
    var none: set<nat> := {};
    var (lc, c1) := GenExpr(a.lhs, cnt).value;
    var (rc, c2) := GenExpr(a.rhs, c1).value;
    LabelsFresh(a.lhs, cnt);
    LabelsFresh(a.rhs, c1);
    var tail := OperandLines + OpLines(a.kind) + [PushRax];
    var lines := GenExpr(a, cnt).value.0;
    assert GenExpr(a, cnt) == GenBinary(a, cnt) == Success((lc + rc + OperandLines + OpLines(a.kind) + [PushRax], c2));
    FixedLinesInstr();
    OpLinesNeutral(a.kind);
    AllInstrAppend(OperandLines, OpLines(a.kind));
    AllInstrAppend(OperandLines + OpLines(a.kind), [PushRax]);
    RangeDisjoint(cnt, c1, c1, c2);
    LabelsAppend(lc, Range(cnt, c1), rc, Range(c1, c2));
    LabelsPad([], lc + rc, tail, Range(cnt, c1) + Range(c1, c2));
    assert lines == [] + (lc + rc) + tail;
    RangeJoin(cnt, c1, c2);
    LabelsWeaken(lines, Range(cnt, c1) + Range(c1, c2), Range(cnt, c2));
  }

  /** With an else-branch: `.Lelse{cnt}` and `.Lelse{cnt+1}`, the parts above `cnt + 1`. */
  lemma {:induction false} IfElseLabels(a: AST, cnt: nat)
    requires a.Node? && a.kind.If? && a.kind.els.Node? && GenExpr(a, cnt).Success?
    ensures LabelsIn(GenExpr(a, cnt).value.0, Range(cnt, GenExpr(a, cnt).value.1))
    decreases a, 1
  {
    var none: set<nat> := {};
    var (cc, c1) := GenExpr(a.kind.cond, cnt + 2).value;
    var (arms, c3) := GenArms(a, ElseLabel(cnt), ElseLabel(cnt + 1), c1).value;
    LabelsFresh(a.kind.cond, cnt + 2);
    ArmsLabels(a, cnt, cnt + 1, c1);
    var mid := [PopRax, "    cmp rax, 0", "    je " + ElseLabel(cnt)];
    assert GenExpr(a, cnt) == Success((cc + mid + arms, c3));
    assert AllInstr(mid) by { assert IsInstr(mid[0]) && IsInstr(mid[1]) && IsInstr(mid[2]); }
    InstrLabels(mid, none);
    LabelsAppend(cc, Range(cnt + 2, c1), mid, none);
    LabelsAppend(cc + mid, Range(cnt + 2, c1) + none, arms, Range(c1, c3) + {cnt, cnt + 1});
    LabelsWeaken(cc + mid + arms, Range(cnt + 2, c1) + none + (Range(c1, c3) + {cnt, cnt + 1}), Range(cnt, c3));
  }

  /** The branches' labels: `n1` and `n2`, minted before them, and the rest from `cnt` on. */
  lemma {:induction false} ArmsLabels(a: AST, n1: nat, n2: nat, cnt: nat)
    requires a.Node? && a.kind.If? && n1 != n2 && n1 < cnt && n2 < cnt
    requires GenArms(a, ElseLabel(n1), ElseLabel(n2), cnt).Success?
    ensures var (arms, c) := GenArms(a, ElseLabel(n1), ElseLabel(n2), cnt).value;
            LabelsIn(arms, Range(cnt, c) + {n1, n2})
    decreases a, 0
  {
    var none: set<nat> := {};
    var (t, c1) := GenExpr(a.kind.thn, cnt).value;
    var (e, c2) := GenExpr(a.kind.els, c1).value;
    LabelsFresh(a.kind.thn, cnt);
    LabelsFresh(a.kind.els, c1);
    ElseLabelNum(n1);
    ElseLabelNum(n2);
    var jmp := ["    jmp " + ElseLabel(n2)];
    var def1 := [ElseLabel(n1) + ":"];
    var def2 := [ElseLabel(n2) + ":"];
    assert AllInstr(jmp) by { assert IsInstr(jmp[0]); }
    InstrLabels(jmp, none);
    LabelLine(def1[0], n1);
    LabelLine(def2[0], n2);
    var s1 := Range(cnt, c1) + none;
    LabelsAppend(t, Range(cnt, c1), jmp, none);
    var s2 := s1 + {n1};
    LabelsAppend(t + jmp, s1, def1, {n1});
    var s3 := s2 + Range(c1, c2);
    LabelsAppend(t + jmp + def1, s2, e, Range(c1, c2));
    LabelsAppend(t + jmp + def1 + e, s3, def2, {n2});
    assert t + jmp + def1 + e + def2 == t + ["    jmp " + ElseLabel(n2), ElseLabel(n1) + ":"] + e + [ElseLabel(n2) + ":"];
    LabelsWeaken(t + jmp + def1 + e + def2, s3 + {n2}, Range(cnt, c2) + {n1, n2});
  }

  /** Without an else-branch: `.Lend{cnt}`, the parts above `cnt`. */
  lemma {:induction false} IfEndLabels(a: AST, cnt: nat)
    requires a.Node? && a.kind.If? && !a.kind.els.Node? && GenExpr(a, cnt).Success?
    ensures LabelsIn(GenExpr(a, cnt).value.0, Range(cnt, GenExpr(a, cnt).value.1))
    decreases a, 1
  {
    var none: set<nat> := {};
    var (cc, c1) := GenExpr(a.kind.cond, cnt + 1).value;
    var (t, c2) := GenExpr(a.kind.thn, c1).value;
    LabelsFresh(a.kind.cond, cnt + 1);
    LabelsFresh(a.kind.thn, c1);
    EndLabelNum(cnt);
    var mid := [PopRax, "    cmp rax, 0", "    je " + EndLabel(cnt)];
    assert AllInstr(mid) by { assert IsInstr(mid[0]) && IsInstr(mid[1]) && IsInstr(mid[2]); }
    InstrLabels(mid, none);
    LabelLine(EndLabel(cnt) + ":", cnt);
    LabelsAppend(cc, Range(cnt + 1, c1), mid, none);
    LabelsAppend(cc + mid, Range(cnt + 1, c1) + none, t, Range(c1, c2));
    LabelsAppend(cc + mid + t, Range(cnt + 1, c1) + none + Range(c1, c2), [EndLabel(cnt) + ":"], {cnt});
    LabelsWeaken(cc + mid + t + [EndLabel(cnt) + ":"], Range(cnt + 1, c1) + none + Range(c1, c2) + {cnt}, Range(cnt, c2));
  }

  /** The statements' labels carry the counter values taken while generating them. */
  lemma {:induction false} StmtsLabels(asts: seq<AST>, i: nat, cnt: nat)
    requires i <= |asts| && StmtsFrom(asts, i, cnt).Success?
    ensures LabelsIn(StmtsFrom(asts, i, cnt).value.0, Range(cnt, StmtsFrom(asts, i, cnt).value.1))
    decreases |asts| - i
  {
    if i < |asts| {
      var (code, c1) := GenExpr(asts[i], cnt).value;
      var (rest, c2) := StmtsFrom(asts, i + 1, c1).value;
      assert StmtsFrom(asts, i, cnt).value == (code + [PopRax] + rest, c2);
      LabelsFresh(asts[i], cnt);
      StmtsLabels(asts, i + 1, c1);
      StmtLabelsJoin(code, rest, cnt, c1, c2);
    }
  }

  /** One statement's code, its `pop rax` and the rest, over adjacent counter ranges. */
  lemma StmtLabelsJoin(code: seq<string>, rest: seq<string>, lo: nat, mid: nat, hi: nat)
    requires lo <= mid <= hi && LabelsIn(code, Range(lo, mid)) && LabelsIn(rest, Range(mid, hi))
    ensures LabelsIn(code + [PopRax] + rest, Range(lo, hi))
  {
    FixedLinesInstr();
    LabelsPad([], code, [PopRax], Range(lo, mid));
    RangeDisjoint(lo, mid, mid, hi);
    LabelsAppend([] + code + [PopRax], Range(lo, mid), rest, Range(mid, hi));
    assert [] + code + [PopRax] + rest == code + [PopRax] + rest;
    RangeJoin(lo, mid, hi);
    LabelsWeaken(code + [PopRax] + rest, Range(lo, mid) + Range(mid, hi), Range(lo, hi));
  }

  /** The frame set-up and tear-down define no counter label. */
  lemma FrameHasNoLabels()
    ensures LabelsIn(Prologue, {}) && LabelsIn(Epilogue, {})
  {
    assert !IsLabelDef(Prologue[0]) by { assert Prologue[0][1] == 'i'; }
    assert !IsLabelDef(Prologue[1]) by { assert Prologue[1][1] == 'g'; }
    assert !IsLabelDef(Prologue[2]) by { assert Prologue[2][0] == 'm'; }
    forall i | 3 <= i < |Prologue|
      ensures !IsLabelDef(Prologue[i])
    {
      InstrIsNoLabel(Prologue[i]);
    }
    FixedLinesInstr();
    assert Epilogue == ([PopRax] + Epilogue)[1..];
    InstrLabels(Epilogue, {});
  }

  /** No label is defined twice in a translation unit. */
  lemma UnitLabelsDistinct(asts: seq<AST>)
    requires Unit(asts).Success?
    ensures var lines := Unit(asts).value;
            forall i, j :: 0 <= i < j < |lines| && IsLabelDef(lines[i]) && IsLabelDef(lines[j]) ==> lines[i] != lines[j]
  {
    var none: set<nat> := {};
    var (body, c) := StmtsFrom(asts, 0, 0).value;
    StmtsLabels(asts, 0, 0);
    FrameHasNoLabels();
    LabelsAppend(Prologue, none, body, Range(0, c));
    LabelsAppend(Prologue + body, none + Range(0, c), Epilogue, none);
    LabelsDistinct(Unit(asts).value, none + Range(0, c) + none);
  }

  // ----- the shape of `return` and of operators -----

  /** `return e` is `e`, `pop rax` and a whole frame tear-down ending in `ret`. */
  lemma ReturnEmitsEpilogue(e: AST, rhs: AST, cnt: nat)
    requires GenExpr(e, cnt).Success?
    ensures var (lines, c) := GenExpr(Node(Return, e, rhs), cnt).value;
            lines == GenExpr(e, cnt).value.0 + [PopRax] + Epilogue
            && c == GenExpr(e, cnt).value.1 && lines[|lines| - 1] == "    ret"
  {
  }

  /**
   * An operator node: the left operand's code, then the right one's,
   * `pop rdi`, `pop rax`, the operator's instructions and `push rax`.
   */
  lemma BinaryOrder(k: NodeKind, l: AST, r: AST, cnt: nat)
    requires IsBinaryOp(k) && GenExpr(l, cnt).Success? && GenExpr(r, GenExpr(l, cnt).value.1).Success?
    ensures var (lc, c1) := GenExpr(l, cnt).value;
            var (rc, c2) := GenExpr(r, c1).value;
            GenExpr(Node(k, l, r), cnt) == Success((lc + rc + ["    pop rdi", "    pop rax"] + OpLines(k) + ["    push rax"], c2))
  {
  }

  /** Each `return` brings its own `ret`: two returns and the unit's end give three. */
  lemma SeveralReturns()
    ensures Unit([Node(Return, Leaf(Num(1)), Nil), Node(Return, Leaf(Num(2)), Nil)])
         == Success(Prologue
                    + ["    push 1;", "    pop rax", "    mov rsp, rbp", "    pop rbp", "    ret", "    pop rax"]
                    + ["    push 2;", "    pop rax", "    mov rsp, rbp", "    pop rbp", "    ret", "    pop rax"]
                    + Epilogue)
  {
    var asts := [Node(Return, Leaf(Num(1)), Nil), Node(Return, Leaf(Num(2)), Nil)];
    assert IntToString(1) == "1" && IntToString(2) == "2";
    var r1 := ["    push 1;", "    pop rax", "    mov rsp, rbp", "    pop rbp", "    ret"];
    var r2 := ["    push 2;", "    pop rax", "    mov rsp, rbp", "    pop rbp", "    ret"];
    assert GenExpr(Leaf(Num(1)), 0) == Success((["    push " + "1" + ";"], 0));
    assert "    push " + "1" + ";" == "    push 1;";
    assert ["    push 1;"] + [PopRax] + Epilogue == r1;
    assert GenExpr(asts[0], 0) == Success((r1, 0));
    assert GenExpr(Leaf(Num(2)), 0) == Success((["    push " + "2" + ";"], 0));
    assert "    push " + "2" + ";" == "    push 2;";
    assert ["    push 2;"] + [PopRax] + Epilogue == r2;
    assert GenExpr(asts[1], 0) == Success((r2, 0));
    assert StmtsFrom(asts, 2, 0) == Success(([], 0));
    assert StmtsFrom(asts, 1, 0) == Success((r2 + [PopRax] + [], 0));
    var s1 := ["    push 1;", "    pop rax", "    mov rsp, rbp", "    pop rbp", "    ret", "    pop rax"];
    var s2 := ["    push 2;", "    pop rax", "    mov rsp, rbp", "    pop rbp", "    ret", "    pop rax"];
    assert r1 + [PopRax] + (r2 + [PopRax] + []) == s1 + s2;
    assert StmtsFrom(asts, 0, 0) == Success((s1 + s2, 0));
    assert Unit(asts) == Success(Prologue + (s1 + s2) + Epilogue);
    assert Prologue + (s1 + s2) + Epilogue == Prologue + s1 + s2 + Epilogue;
  }

  // ----- nodes whose subtrees sit in the kind -----

  /** Statements, blocks, loops and calls: the kinds that carry subtrees of their own. */
  predicate CarriesSubtrees(k: NodeKind) {
    k.ExprStmt? || k.Block? || k.For? || k.FuncCall?
  }

  /**
   * A leaf of such a kind falls into the operator branch with two empty
   * operands: the subtrees it carries get no code, and the node pops one
   * value more than it pushes.
   */
  lemma CarrierNotGenerated(k: NodeKind, cnt: nat)
    requires CarriesSubtrees(k)
    ensures GenExpr(Leaf(k), cnt) == Success((OperandLines + [PushRax], cnt))
    ensures Net(OperandLines + [PushRax]) == -1
  {
    assert OpLines(k) == [];
    assert GenExpr(Leaf(k), cnt) == GenBinary(Leaf(k), cnt);
    assert [] + [] + OperandLines + [] + [PushRax] == OperandLines + [PushRax];
    NetOperandLines();
    NetPushPop();
    NetAppend(OperandLines, [PushRax]);
  }

  /**
   * The parser wraps every expression statement in `ExprStmt`: a unit of
   * one such statement emits none of the expression's code, and its
   * pushes and pops do not balance.
   */
  lemma ExprStmtNotGenerated(e: AST)
    ensures Unit([Leaf(ExprStmt(e))]) == Success(Prologue + OperandLines + [PushRax, PopRax] + Epilogue)
    ensures Net(Prologue + OperandLines + [PushRax, PopRax] + Epilogue) == -2
  {
    var asts := [Leaf(ExprStmt(e))];
    CarrierNotGenerated(ExprStmt(e), 0);
    assert StmtsFrom(asts, 1, 0) == Success(([], 0));
    assert OperandLines + [PushRax] + [PopRax] + [] == OperandLines + [PushRax, PopRax];
    assert StmtsFrom(asts, 0, 0) == Success((OperandLines + [PushRax, PopRax], 0));
    assert Prologue + (OperandLines + [PushRax, PopRax]) + Epilogue == Prologue + OperandLines + [PushRax, PopRax] + Epilogue;
    NetFrame();
    NetPushPop();
    NetAppend(OperandLines + [PushRax], [PopRax]);
    assert OperandLines + [PushRax] + [PopRax] == OperandLines + [PushRax, PopRax];
    NetAppend(Prologue, OperandLines + [PushRax, PopRax]);
    assert Prologue + OperandLines + [PushRax, PopRax] == Prologue + (OperandLines + [PushRax, PopRax]);
    NetAppend(Prologue + OperandLines + [PushRax, PopRax], Epilogue);
  }

  /** A dereference or an address-of over a stack expression leaves the stack as it found it. */
  lemma UnaryPointerNeutral(k: NodeKind, x: AST, cnt: nat)
    requires (k.Deref? || k.Addr?) && StackExpr(x)
    ensures GenExpr(Node(k, x, Nil), cnt).Success?
    ensures Net(GenExpr(Node(k, x, Nil), cnt).value.0) == 0
  {
    StackExprBalanced(x, cnt);
    var xc := GenExpr(x, cnt).value.0;
    assert OpLines(k) == [];
    assert GenExpr(Node(k, x, Nil), cnt) == Success((xc + [] + OperandLines + [] + [PushRax], cnt));
    assert xc + [] + OperandLines + [] + [PushRax] == xc + OperandLines + [PushRax];
    NetOperandLines();
    NetPushPop();
    NetAppend(xc + OperandLines, [PushRax]);
    NetAppend(xc, OperandLines);
  }
}
