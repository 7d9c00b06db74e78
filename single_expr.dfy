/**
 * The first compiler of the project: one argument of the form
 * `n0 (+n | -n)*`, unsigned decimal numbers without spaces, translated
 * into a `mov` of the first number into `rax` and one `add` or `sub`
 * per further term.  A character cursor reads the argument; a number
 * that is missing or does not fit 32 bits aborts, and any other
 * character is reported and ends the output without `ret`.
 */
module SingleExpr {
  import opened Wrappers
  import opened Text

  /** `u32::MAX`. */
  const U32Max: nat := 4294967295

  /** Why `parse_uint` aborts: the digit run is empty, or its value exceeds `u32::MAX`. */
  datatype Abort = NoDigits | TooLarge

  /** How the translation ends. */
  datatype Exit = Finished | Unexpected(c: char) | Aborted(why: Abort)

  /** What a translation prints, and how it ends. */
  datatype Run = Run(lines: seq<string>, exit: Exit)

  /** The lines printed before the first number. */
  const Header: seq<string> := [".intel_syntax noprefix", ".section __TEXT,__text", ".global _main", "_main:"]

  const Ret := "    ret"

  // ----- reference definition -----

  /**
   * `parse_uint` at position `pos`: the value of the maximal digit run
   * there and the position after it.
   */
  function UintAt(input: string, pos: nat): (r: Result<(nat, nat), Abort>)
    requires pos <= |input|
    ensures r.Success? ==> pos < r.value.1 <= |input| && r.value.0 <= U32Max
    ensures r == Failure(NoDigits) <==> pos == |input| || !IsDigit(input[pos])
  {
    var e := RunEnd(input, pos, IsDigit);
    if e == pos then Failure(NoDigits)
    else
      var v := DigitsValue(input[pos..e]);
      if v > U32Max then Failure(TooLarge) else Success((v, e))
  }

  function TermLine(op: char, n: nat): string {
    (if op == '+' then "    add rax, " else "    sub rax, ") + NatToString(n)
  }

  function UnexpectedLine(c: char): string {
    "unexpected char: " + [c]
  }

  /** The loop of `main` from position `pos`: the lines it prints and how it stops. */
  function TermsFrom(input: string, pos: nat): (r: Run)
    requires pos <= |input|
    ensures r.exit.Unexpected? ==> r.lines != [] && r.lines[|r.lines| - 1] == UnexpectedLine(r.exit.c)
    decreases |input| - pos
  {
    if pos == |input| then Run([Ret], Finished)
    else if input[pos] == '+' || input[pos] == '-' then
      match UintAt(input, pos + 1)
      case Failure(e) => Run([], Aborted(e))
      case Success((n, p)) =>
        var rest := TermsFrom(input, p);
        Run([TermLine(input[pos], n)] + rest.lines, rest.exit)
    else Run([UnexpectedLine(input[pos])], Unexpected(input[pos]))
  }

  /** Lines 15-38 of `main`: everything printed for the argument `arg`. */
  function Translate(arg: string): (r: Run)
    ensures Header <= r.lines
  {
    match UintAt(arg, 0)
    case Failure(e) => Run(Header, Aborted(e))
    case Success((n, p)) =>
      var rest := TermsFrom(arg, p);
      Run(Header + ["    mov rax, " + NatToString(n)] + rest.lines, rest.exit)
  }

  /** The first number, then the loop. */
  lemma TranslateStart(arg: string)
    ensures var u := UintAt(arg, 0);
            Translate(arg)
            == if u.Failure? then Run(Header, Aborted(u.error))
               else Run(Header + ["    mov rax, " + NatToString(u.value.0)] + TermsFrom(arg, u.value.1).lines,
                        TermsFrom(arg, u.value.1).exit)
  {
  }

  // ----- the character cursor -----

  /** `Parser`: the argument and the position of the next character. */
  class CharParser {
    const input: string
    var pos: nat

    ghost predicate Valid()
      reads this
    {
      pos <= |input|
    }

    constructor (arg: string)
      ensures Valid() && input == arg && pos == 0
    {
      input := arg;
      pos := 0;
    }

    /** `next_char`: there must be one. */
    function NextChar(): (c: char)
      reads this
      requires Valid() && pos < |input|
      ensures c == input[pos]
    {
      input[pos]
    }

    /** `eof`: no character left. */
    predicate Eof()
      reads this
      requires Valid()
    {
      pos >= |input|
    }

    /** `consume_char`: returns the next character and steps over it. */
    method ConsumeChar() returns (c: char)
      requires Valid() && pos < |input|
      modifies this
      ensures Valid() && pos == old(pos) + 1 && c == input[old(pos)]
    {
      c := input[pos];
      pos := pos + 1;
    }

    /** `consume_while`: consumes and returns the maximal run passing `test`. */
    method ConsumeWhile(test: char -> bool) returns (s: string)
      requires Valid()
      modifies this
      ensures Valid() && old(pos) <= pos == RunEnd(input, old(pos), test) && s == input[old(pos)..pos]
    {
      s := [];
      while !Eof() && test(NextChar())
        invariant Valid() && old(pos) <= pos && s == input[old(pos)..pos]
        invariant RunEnd(input, old(pos), test) == RunEnd(input, pos, test)
        decreases |input| - pos
      {
        var c := ConsumeChar();
        s := s + [c];
      }
    }

    /** `parse_uint`: the digit run as a `u32`. */
    method ParseUint() returns (r: Result<nat, Abort>)
      requires Valid()
      modifies this
      ensures Valid() && pos == RunEnd(input, old(pos), IsDigit)
      ensures var u := UintAt(input, old(pos));
              if u.Success? then r == Success(u.value.0) && pos == u.value.1 else r == Failure(u.error)
    {
      var s := ConsumeWhile(IsDigit);
      if s == [] {
        r := Failure(NoDigits);
      } else if DigitsValue(s) > U32Max {
        r := Failure(TooLarge);
      } else {
        r := Success(DigitsValue(s));
      }
    }
  }

  /** Lines 15-38 of `main`, printing into `out` instead of standard output. */
  method Compile(arg: string) returns (out: seq<string>, exit: Exit)
    ensures Translate(arg) == Run(out, exit)
  {
    var parser := new CharParser(arg);
    out := [".intel_syntax noprefix", ".section __TEXT,__text", ".global _main", "_main:"];
    assert out == Header;
    var first := parser.ParseUint();
    TranslateStart(arg);
    if first.Failure? {
      return out, Aborted(first.error);
    }
    out := out + ["    mov rax, " + NatToString(first.value)];
    assert Translate(arg) == Prepend(out, TermsFrom(arg, parser.pos));
    out, exit := TranslateLoop(parser, out);
  }

  /**
   * Lines 23-38 of `main`: one `add` or `sub` per term, `ret` at the end
   * of the argument, or a report of the first other character.
   */
  method TranslateLoop(parser: CharParser, out0: seq<string>) returns (out: seq<string>, exit: Exit)
    requires parser.Valid()
    modifies parser
    ensures Run(out, exit) == Prepend(out0, TermsFrom(parser.input, old(parser.pos)))
  {
    out := out0;
    ghost var input := parser.input;
    ghost var goal := Prepend(out0, TermsFrom(input, parser.pos));
    while !parser.Eof()
      invariant parser.Valid() && parser.input == input
      invariant goal == Prepend(out, TermsFrom(input, parser.pos))
      decreases |input| - parser.pos
    {
      ghost var p0 := parser.pos;
      ghost var before := out;
      if parser.NextChar() == '+' || parser.NextChar() == '-' {
        var op := parser.ConsumeChar();
        var n := parser.ParseUint();
        if n.Failure? {
          TermsFromAbort(input, p0, n.error);
          PrependNothing(out, Aborted(n.error));
          return out, Aborted(n.error);
        }
        TermsFromTerm(input, p0, n.value, parser.pos);
        out := out + [TermLine(op, n.value)];
        PrependLine(before, TermLine(op, n.value), TermsFrom(input, parser.pos));
        continue;
      }
      var c := parser.NextChar();
      TermsFromOther(input, p0);
      out := out + [UnexpectedLine(c)];
      return out, Unexpected(c);
    }
    assert TermsFrom(input, parser.pos) == Run([Ret], Finished);
    out := out + [Ret];
    exit := Finished;
  }

  /** `pre` printed before a run. */
  function Prepend(pre: seq<string>, r: Run): Run {
    Run(pre + r.lines, r.exit)
  }

  lemma PrependLine(pre: seq<string>, line: string, r: Run)
    ensures Prepend(pre, Run([line] + r.lines, r.exit)) == Prepend(pre + [line], r)
  {
    assert pre + ([line] + r.lines) == pre + [line] + r.lines;
  }

  lemma PrependNothing(pre: seq<string>, x: Exit)
    ensures Prepend(pre, Run([], x)) == Run(pre, x)
  {
    assert pre + [] == pre;
  }

  // ----- properties -----

  /** `parse_uint` reads back a number printed in decimal, stopping at the next non-digit. */
  lemma UintOfNumeral(input: string, pos: nat, n: nat)
    requires n <= U32Max
    requires pos + |NatToString(n)| <= |input|
    requires input[pos..pos + |NatToString(n)|] == NatToString(n)
    requires var e := pos + |NatToString(n)|; e == |input| || !IsDigit(input[e])
    ensures UintAt(input, pos) == Success((n, pos + |NatToString(n)|))
  {
    var ns := NatToString(n);
    var e := pos + |ns|;
    forall i | pos <= i < e
      ensures IsDigit(input[i])
    {
      assert input[i] == ns[i - pos];
    }
    RunEndIs(input, pos, e, IsDigit);
    DigitsValueOfNatToString(n);
  }

  /** A digit run whose value does not fit 32 bits aborts `parse_uint`. */
  lemma UintTooLarge(input: string, pos: nat, n: nat)
    requires n > U32Max
    requires pos + |NatToString(n)| <= |input|
    requires input[pos..pos + |NatToString(n)|] == NatToString(n)
    requires var e := pos + |NatToString(n)|; e == |input| || !IsDigit(input[e])
    ensures UintAt(input, pos) == Failure(TooLarge)
  {
    var ns := NatToString(n);
    var e := pos + |ns|;
    forall i | pos <= i < e
      ensures IsDigit(input[i])
    {
      assert input[i] == ns[i - pos];
    }
    RunEndIs(input, pos, e, IsDigit);
    DigitsValueOfNatToString(n);
  }

  /** One `+n` or `-n` term of the argument. */
  datatype Term = Term(op: char, n: nat)

  predicate WellFormedTerms(terms: seq<Term>) {
    forall i :: 0 <= i < |terms| ==> (terms[i].op == '+' || terms[i].op == '-') && terms[i].n <= U32Max
  }

  /** The terms as they are written in the argument. */
  function RenderTerms(terms: seq<Term>): string {
    if terms == [] then "" else [terms[0].op] + NatToString(terms[0].n) + RenderTerms(terms[1..])
  }

  /** The `add` and `sub` lines of the terms, in their order. */
  function TermLines(terms: seq<Term>): seq<string> {
    if terms == [] then [] else [TermLine(terms[0].op, terms[0].n)] + TermLines(terms[1..])
  }

  /** Well-formed terms translate to their lines, then `ret`. */
  lemma {:induction false} TermsOfRendered(input: string, pos: nat, terms: seq<Term>)
    requires WellFormedTerms(terms)
    requires pos <= |input| && input[pos..] == RenderTerms(terms)
    ensures TermsFrom(input, pos) == Run(TermLines(terms) + [Ret], Finished)
    decreases |terms|
  {
    if terms == [] {
      assert |input[pos..]| == 0;
    } else {
      var e := pos + 1 + |NatToString(terms[0].n)|;
      assert WellFormedTerms(terms[1..]) by {
        forall i | 0 <= i < |terms[1..]|
          ensures terms[1..][i] == terms[i + 1]
        {
        }
      }
      RenderHead(terms[1..]);
      TermStep(input, pos, terms[0], RenderTerms(terms[1..]), e);
      TermsOfRendered(input, e, terms[1..]);
      var line := TermLine(terms[0].op, terms[0].n);
      var later := TermLines(terms[1..]) + [Ret];
      assert TermsFrom(input, e) == Run(later, Finished);
      assert TermsFrom(input, pos) == Run([line] + later, Finished);
      assert TermLines(terms) == [line] + TermLines(terms[1..]);
      assert TermLines(terms) + [Ret] == [line] + later;
    }
  }

  lemma RenderHead(terms: seq<Term>)
    ensures terms != [] ==> RenderTerms(terms) != [] && RenderTerms(terms)[0] == terms[0].op
  {
  }

  /** One well-formed term followed by the end or by another operator. */
  lemma TermStep(input: string, pos: nat, t: Term, rest: string, e: nat)
    requires (t.op == '+' || t.op == '-') && t.n <= U32Max
    requires pos <= |input| && input[pos..] == [t.op] + NatToString(t.n) + rest
    requires rest != [] ==> rest[0] == '+' || rest[0] == '-'
    requires e == pos + 1 + |NatToString(t.n)|
    ensures e <= |input| && input[e..] == rest
    ensures TermsFrom(input, pos) == Run([TermLine(t.op, t.n)] + TermsFrom(input, e).lines, TermsFrom(input, e).exit)
  {
    var ns := NatToString(t.n);
    SliceParts(input, pos, t.op, ns, rest);
    if e < |input| {
      assert input[e] == input[e..][0] == rest[0];
    }
    UintOfNumeral(input, pos + 1, t.n);
    TermsFromTerm(input, pos, t.n, e);
    var later := TermsFrom(input, e);
    assert TermsFrom(input, pos) == Run([TermLine(t.op, t.n)] + later.lines, later.exit);
  }

  lemma SliceParts(input: string, pos: nat, op: char, ns: string, rest: string)
    requires pos <= |input| && input[pos..] == [op] + ns + rest
    ensures pos + 1 + |ns| <= |input| && input[pos] == op
    ensures input[pos + 1..pos + 1 + |ns|] == ns && input[pos + 1 + |ns|..] == rest
  {
    var e := pos + 1 + |ns|;
    assert input[pos] == input[pos..][0];
    assert input[pos + 1..e] == input[pos..][1..1 + |ns|];
    assert input[e..] == input[pos..][1 + |ns|..];
  }

  /** One turn of the loop of `main` on an operator followed by a number. */
  lemma TermsFromTerm(input: string, pos: nat, n: nat, p: nat)
    requires pos < |input| && (input[pos] == '+' || input[pos] == '-')
    requires UintAt(input, pos + 1) == Success((n, p))
    ensures TermsFrom(input, pos) == Run([TermLine(input[pos], n)] + TermsFrom(input, p).lines, TermsFrom(input, p).exit)
  {
  }

  /** One turn of the loop of `main` on an operator whose number aborts. */
  lemma TermsFromAbort(input: string, pos: nat, e: Abort)
    requires pos < |input| && (input[pos] == '+' || input[pos] == '-')
    requires UintAt(input, pos + 1) == Failure(e)
    ensures TermsFrom(input, pos) == Run([], Aborted(e))
  {
  }

  /** One turn of the loop of `main` on any other character. */
  lemma TermsFromOther(input: string, pos: nat)
    requires pos < |input| && input[pos] != '+' && input[pos] != '-'
    ensures TermsFrom(input, pos) == Run([UnexpectedLine(input[pos])], Unexpected(input[pos]))
  {
  }

  /**
   * A well-formed argument prints the header, `mov rax, n0`, one `add` or
   * `sub` per term in order, and `ret`.
   */
  lemma TranslateWellFormed(n0: nat, terms: seq<Term>)
    requires n0 <= U32Max && WellFormedTerms(terms)
    ensures Translate(NatToString(n0) + RenderTerms(terms))
         == Run(Header + ["    mov rax, " + NatToString(n0)] + TermLines(terms) + [Ret], Finished)
  {
    var arg := NatToString(n0) + RenderTerms(terms);
    var e := |NatToString(n0)|;
    assert arg[..e] == NatToString(n0);
    assert arg[0..e] == arg[..e];
    assert arg[e..] == RenderTerms(terms);
    if e < |arg| {
      assert terms != [];
      assert arg[e] == terms[0].op;
    }
    UintOfNumeral(arg, 0, n0);
    TermsOfRendered(arg, e, terms);
  }

  lemma RetIsNoTermLine(op: char, n: nat)
    ensures TermLine(op, n) != Ret
  {
    assert TermLine(op, n)[4] == 'a' || TermLine(op, n)[4] == 's';
  }

  /**
   * The loop prints `ret` exactly when it reaches the end of the argument,
   * as its last line; a stray character is reported on the last line.
   */
  lemma {:induction false} TermsRet(input: string, pos: nat)
    requires pos <= |input|
    ensures var lines, x := TermsFrom(input, pos).lines, TermsFrom(input, pos).exit;
            (Ret in lines <==> x == Finished)
            && (x == Finished ==> lines[|lines| - 1] == Ret)
            && (x.Unexpected? ==> lines[|lines| - 1] == UnexpectedLine(x.c))
    decreases |input| - pos
  {
    if pos == |input| {
    } else if input[pos] == '+' || input[pos] == '-' {
      match UintAt(input, pos + 1)
      case Failure(_) =>
      case Success((n, p)) =>
        TermsRet(input, p);
        RetIsNoTermLine(input[pos], n);
        var rest := TermsFrom(input, p).lines;
        assert TermsFrom(input, pos).lines == [TermLine(input[pos], n)] + rest;
        assert Ret in [TermLine(input[pos], n)] + rest <==> Ret in rest;
    } else {
      assert UnexpectedLine(input[pos]) != Ret by { assert UnexpectedLine(input[pos])[0] == 'u'; }
    }
  }

  /**
   * The whole output ends in `ret` exactly when translation finishes; a
   * stray character or an aborted number leaves `ret` out.
   */
  lemma TranslateRet(arg: string)
    ensures var lines, x := Translate(arg).lines, Translate(arg).exit;
            (Ret in lines <==> x == Finished)
            && (x == Finished ==> lines[|lines| - 1] == Ret)
            && (x.Unexpected? ==> lines[|lines| - 1] == UnexpectedLine(x.c))
  {
    assert Ret !in Header;
    match UintAt(arg, 0)
    case Failure(_) =>
    case Success((n, p)) =>
      TermsRet(arg, p);
      var mov := "    mov rax, " + NatToString(n);
      assert mov != Ret by { assert mov[4] == 'm'; }
      var rest := TermsFrom(arg, p).lines;
      assert Translate(arg).lines == (Header + [mov]) + rest;
      assert Ret in (Header + [mov]) + rest <==> Ret in rest;
  }

  /** An operator with no number after it aborts before printing anything for the term. */
  lemma MissingNumberAborts(input: string, pos: nat)
    requires pos < |input| && (input[pos] == '+' || input[pos] == '-')
    requires pos + 1 == |input| || !IsDigit(input[pos + 1])
    ensures TermsFrom(input, pos) == Run([], Aborted(NoDigits))
  {
  }

  /** A concrete run: `5+20-4`. */
  lemma AddSubExample()
    ensures Translate("5+20-4")
         == Run(Header + ["    mov rax, 5", "    add rax, 20", "    sub rax, 4", "    ret"], Finished)
  {
    var terms := [Term('+', 20), Term('-', 4)];
    assert NatToString(5) == "5";
    assert NatToString(20) == "20";
    assert NatToString(4) == "4";
    assert TermLine('+', 20) == "    add rax, 20";
    assert TermLine('-', 4) == "    sub rax, 4";
    assert terms[1..][1..] == [];
    assert RenderTerms(terms[1..]) == "-4";
    assert RenderTerms(terms) == "+20-4";
    assert TermLines(terms[1..]) == ["    sub rax, 4"];
    assert TermLines(terms) == ["    add rax, 20", "    sub rax, 4"];
    TranslateWellFormed(5, terms);
    assert NatToString(5) + RenderTerms(terms) == "5+20-4";
    assert "    mov rax, " + NatToString(5) == "    mov rax, 5";
    assert Header + ["    mov rax, 5"] + TermLines(terms) + [Ret]
        == Header + ["    mov rax, 5", "    add rax, 20", "    sub rax, 4", "    ret"];
  }

  /** A concrete run: `1*2` reports the `*` and prints no `ret`. */
  lemma UnexpectedExample()
    ensures Translate("1*2") == Run(Header + ["    mov rax, 1", "unexpected char: *"], Unexpected('*'))
  {
    var arg := "1*2";
    assert NatToString(1) == "1";
    assert arg[0..1] == "1";
    assert !IsDigit(arg[1]);
    UintOfNumeral(arg, 0, 1);
    TermsFromOther(arg, 1);
    TranslateStart(arg);
    assert "    mov rax, " + NatToString(1) == "    mov rax, 1";
    assert UnexpectedLine('*') == "unexpected char: *";
    assert Header + ["    mov rax, 1"] + ["unexpected char: *"] == Header + ["    mov rax, 1", "unexpected char: *"];
  }
}
