/**
 * Lines of assembly text as both stack-machine code generators emit them:
 * the fixed frame set-up and tear-down, the instruction lines of each
 * binary operator, label names minted from a counter, and a count of the
 * lines that push onto or pop from the machine stack.
 */
module Asm {
  import opened Text
  import opened Ast

  /** `gen_lval` aborts on anything but a variable node. */
  datatype GenError = NotAnLvalue

  /** An instruction line: indented by four spaces. */
  predicate IsInstr(line: string) {
    "    " <= line
  }

  predicate AllInstr(lines: seq<string>) {
    forall i :: 0 <= i < |lines| ==> IsInstr(lines[i])
  }

  /** `push rax`, `push rax;`, `push 5;` and `push 5` all put one value on the stack. */
  predicate IsPush(line: string) {
    "    push " <= line
  }

  predicate IsPop(line: string) {
    "    pop " <= line
  }

  /** The change in stack depth, in slots, of one line. */
  function Effect(line: string): (d: int)
    ensures -1 <= d <= 1
    ensures d == 1 <==> IsPush(line)
    ensures d == -1 <==> IsPop(line)
  {
    if IsPush(line) then assert line[5] == 'u'; 1
    else if IsPop(line) then -1
    else 0
  }

  /** Pushes minus pops over a run of lines. */
  function Net(lines: seq<string>): int {
    if lines == [] then 0 else Effect(lines[0]) + Net(lines[1..])
  }

  lemma {:induction false} NetAppend(a: seq<string>, b: seq<string>)
    ensures Net(a + b) == Net(a) + Net(b)
    decreases |a|
  {
    if a == [] {
      assert a + b == b;
    } else {
      assert (a + b)[1..] == a[1..] + b;
      NetAppend(a[1..], b);
    }
  }

  /** Lines none of which pushes or pops leave the stack as it was. */
  lemma {:induction false} NeutralNet(lines: seq<string>)
    requires forall i :: 0 <= i < |lines| ==> |lines[i]| > 4 && lines[i][4] != 'p'
    ensures Net(lines) == 0
    decreases |lines|
  {
    if lines != [] {
      assert lines[0][4] != "    pop "[4];
      NeutralNet(lines[1..]);
    }
  }

  lemma {:induction false} AllInstrAppend(a: seq<string>, b: seq<string>)
    requires AllInstr(a) && AllInstr(b)
    ensures AllInstr(a + b)
  {
    forall i | 0 <= i < |a + b|
      ensures IsInstr((a + b)[i])
    {
      if i >= |a| {
        assert (a + b)[i] == b[i - |a|];
      }
    }
  }

  // ----- the fixed frame around a translation unit -----

  /** Header, `main` label and a 208-byte frame for the locals. */
  const Prologue: seq<string> := [
    ".intel_syntax noprefix",
    ".global main",
    "main:",
    "    push rbp",
    "    mov rbp, rsp",
    "    sub rsp, 208"
  ]

  /** Frame tear-down and return; `Return` nodes emit it as well. */
  const Epilogue: seq<string> := [
    "    mov rsp, rbp",
    "    pop rbp",
    "    ret"
  ]

  /** The line each statement's value is discarded with. */
  const PopRax := "    pop rax"

  /** The operator instructions between `pop rax` and `push rax` of a binary node. */
  function OpLines(k: NodeKind): (r: seq<string>)
    ensures IsBinaryOp(k) <==> r != []
  {
    match k
    case Plus => ["    add rax, rdi"]
    case Minus => ["    sub rax, rdi"]
    case Mul => ["    imul rax, rdi"]
    case Div => ["    cqo", "    idiv rdi"]
    case Eq => ["    cmp rax, rdi", "    sete al", "    movzb rax, al"]
    case Ne => ["    cmp rax, rdi", "    setne al", "    movzb rax, al"]
    case Lt => ["    cmp rax, rdi", "    setl al", "    movzb rax, al"]
    case Le => ["    cmp rax, rdi", "    setle al", "    movzb rax, al"]
    case _ => []
  }

  /**
   * The operator lines are instructions that neither push nor pop, and a
   * comparison is `cmp`, one `set` instruction and `movzb`.
   */
  lemma OpLinesNeutral(k: NodeKind)
    ensures AllInstr(OpLines(k)) && Net(OpLines(k)) == 0
    ensures k.Eq? || k.Ne? || k.Lt? || k.Le? ==>
              |OpLines(k)| == 3 && OpLines(k)[0] == "    cmp rax, rdi" && OpLines(k)[2] == "    movzb rax, al"
  {
    NeutralNet(OpLines(k));
  }

  // ----- labels -----

  function ElseLabel(n: nat): string {
    ".Lelse" + NatToString(n)
  }

  function EndLabel(n: nat): string {
    ".Lend" + NatToString(n)
  }

  /** A line that defines a label minted from the counter. */
  predicate IsLabelDef(line: string) {
    ".L" <= line
  }

  /** The counter value a label definition line was minted from. */
  function LabelNum(line: string): nat {
    var n := |line|;
    if n >= 7 && line[..6] == ".Lelse" && line[n - 1] == ':' && AllDigits(line[6..n - 1]) then
      DigitsValue(line[6..n - 1])
    else if n >= 6 && line[..5] == ".Lend" && line[n - 1] == ':' && AllDigits(line[5..n - 1]) then
      DigitsValue(line[5..n - 1])
    else 0
  }

  /** Each label definition line names its counter value. */
  lemma ElseLabelNum(n: nat)
    ensures IsLabelDef(ElseLabel(n) + ":") && LabelNum(ElseLabel(n) + ":") == n
  {
    DigitsValueOfNatToString(n);
    var e := ElseLabel(n) + ":";
    assert e[..6] == ".Lelse";
    assert e[6..|e| - 1] == NatToString(n);
  }

  lemma EndLabelNum(n: nat)
    ensures IsLabelDef(EndLabel(n) + ":") && LabelNum(EndLabel(n) + ":") == n
  {
    DigitsValueOfNatToString(n);
    var d := EndLabel(n) + ":";
    assert d[..5] == ".Lend";
    assert d[..6] != ".Lelse" by { assert d[4] == 'd'; }
    assert d[5..|d| - 1] == NatToString(n);
  }

  /** Instruction lines define no label. */
  lemma InstrIsNoLabel(line: string)
    requires IsInstr(line)
    ensures !IsLabelDef(line)
  {
    assert line[0] == ' ';
  }

  /** The label numbers defined in `lines`: all in `s`, and no number defined twice. */
  predicate LabelsIn(lines: seq<string>, s: set<nat>) {
    (forall i :: 0 <= i < |lines| && IsLabelDef(lines[i]) ==> LabelNum(lines[i]) in s)
    && (forall i, j :: 0 <= i < j < |lines| && IsLabelDef(lines[i]) && IsLabelDef(lines[j]) ==>
          LabelNum(lines[i]) != LabelNum(lines[j]))
  }

  /** The counter values `lo` up to, but not including, `hi`. */
  function Range(lo: nat, hi: nat): (s: set<nat>)
    ensures forall n :: n in s <==> lo <= n < hi
    decreases hi - lo
  {
    if lo >= hi then {} else {lo} + Range(lo + 1, hi)
  }

  lemma RangeDisjoint(a: nat, b: nat, c: nat, d: nat)
    requires b <= c
    ensures Range(a, b) !! Range(c, d)
  {
    forall n | n in Range(a, b)
      ensures n !in Range(c, d)
    {
    }
  }

  lemma RangeJoin(a: nat, b: nat, c: nat)
    requires a <= b <= c
    ensures Range(a, b) + Range(b, c) <= Range(a, c)
  {
  }

  lemma InstrLabels(lines: seq<string>, s: set<nat>)
    requires AllInstr(lines)
    ensures LabelsIn(lines, s)
  {
    forall i | 0 <= i < |lines|
      ensures !IsLabelDef(lines[i])
    {
      InstrIsNoLabel(lines[i]);
    }
  }

  /** Code whose labels come from disjoint number sets never defines one label twice. */
  lemma {:induction false} LabelsAppend(a: seq<string>, sa: set<nat>, b: seq<string>, sb: set<nat>)
    requires LabelsIn(a, sa) && LabelsIn(b, sb) && sa !! sb
    ensures LabelsIn(a + b, sa + sb)
  {
    var c := a + b;
    forall i | 0 <= i < |c| && i >= |a|
      ensures c[i] == b[i - |a|]
    {
    }
    forall i, j | 0 <= i < j < |c| && IsLabelDef(c[i]) && IsLabelDef(c[j])
      ensures LabelNum(c[i]) != LabelNum(c[j])
    {
      if i < |a| && j >= |a| {
        assert LabelNum(c[i]) in sa && LabelNum(c[j]) in sb;
      } else if i >= |a| {
        assert c[i] == b[i - |a|] && c[j] == b[j - |a|];
      }
    }
  }

  lemma LabelsWeaken(lines: seq<string>, s: set<nat>, t: set<nat>)
    requires LabelsIn(lines, s) && s <= t
    ensures LabelsIn(lines, t)
  {
  }

  /** Distinct label numbers mean distinct label lines. */
  lemma LabelsDistinct(lines: seq<string>, s: set<nat>)
    requires LabelsIn(lines, s)
    ensures forall i, j :: 0 <= i < j < |lines| && IsLabelDef(lines[i]) && IsLabelDef(lines[j]) ==> lines[i] != lines[j]
  {
  }
}
