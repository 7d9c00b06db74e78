/**
 * The recursive-descent grammar as pure functions over the token vector
 * and the parser's state (token cursor, frame offset, name-to-offset
 * table).  Each function returns the tree it builds and the state after
 * it, or the error that makes the parser abort.  The imperative `Parser`
 * class is proved to compute these functions, and the grammar's
 * properties are lemmas about them.
 *
 * Precedence, from loosest to tightest: assign, equality, relational,
 * add, mul, unary, primary.
 */
module ParseSpec {
  import opened Ast
  import T = Tokenize

  /** The parser's mutable state: cursor, current frame size and the locals table. */
  datatype PState = PState(pos: nat, offset: nat, locals: map<string, nat>)

  datatype PError =
    | UnexpectedToken(at: nat)   // `expected` did not find its string
    | NumberExpected(at: nat)    // `consume_number` not at a number
    | IdentExpected(at: nat)     // `ident` not at an identifier

  /** A parse result: the value and the state after it, or an error. */
  datatype Parsed<+V> = Ok(value: V, st: PState) | Err(error: PError) {
    predicate IsFailure() { Err? }
    function PropagateFailure<U>(): Parsed<U> requires Err? { Err(error) }
    function Extract(): (V, PState) requires Ok? { (value, st) }
  }

  /** The token vector ends with the `Eof` token the lexer appends, whose string is empty. */
  predicate Terminated(toks: seq<T.Token>) {
    |toks| > 0 && toks[|toks| - 1].kind.Eof? && toks[|toks| - 1].str == ""
  }

  /** The cursor is on a token of a terminated vector. */
  predicate Inv(toks: seq<T.Token>, st: PState) {
    Terminated(toks) && st.pos < |toks|
  }

  /** The initial state of `parse`. */
  const Init: PState := PState(0, 0, map[])

  /**
   * The symbol-table invariant: every registered offset is a multiple of
   * 8 below `offset`, distinct names have distinct offsets, and `offset`
   * is 8 bytes per registered name.
   */
  predicate TableOk(st: PState) {
    && st.offset == 8 * |st.locals|
    && (forall n :: n in st.locals ==> st.locals[n] % 8 == 0 && st.locals[n] < st.offset)
    && (forall n, m :: n in st.locals && m in st.locals && n != m ==> st.locals[n] != st.locals[m])
  }

  /**
   * What any parsing step does to the state: the cursor moves forward and
   * stays on a token, the frame only grows, registered names keep their
   * offsets, and the symbol-table invariant is kept.
   */
  predicate Grows(toks: seq<T.Token>, st: PState, st2: PState) {
    && st.pos <= st2.pos < |toks|
    && st.offset <= st2.offset
    && st.locals.Items <= st2.locals.Items
    && (TableOk(st) ==> TableOk(st2))
  }

  predicate Post<V>(toks: seq<T.Token>, st: PState, r: Parsed<V>) {
    r.Ok? ==> Grows(toks, st, r.st)
  }

  // ----- cursor queries (`is`, `is_eof`, `is_num`, `is_expr`) -----

  predicate Is(toks: seq<T.Token>, st: PState, s: string)
    requires st.pos < |toks|
  {
    toks[st.pos].str == s
  }

  predicate AtEof(toks: seq<T.Token>, st: PState)
    requires st.pos < |toks|
  {
    toks[st.pos].kind.Eof?
  }

  predicate AtNum(toks: seq<T.Token>, st: PState)
    requires st.pos < |toks|
  {
    toks[st.pos].kind.Num?
  }

  /** `is_expr`: the tokens that may begin a call argument. */
  predicate AtExprStart(toks: seq<T.Token>, st: PState)
    requires st.pos < |toks|
  {
    Is(toks, st, "+") || Is(toks, st, "-") || toks[st.pos].kind.Ident? || toks[st.pos].kind.Num?
  }

  /** The cursor one token further on. */
  function Next(st: PState): PState {
    st.(pos := st.pos + 1)
  }

  /** `expected(s)`: the current token must be `s`, and is consumed. */
  function Expect(toks: seq<T.Token>, st: PState, s: string): (r: Parsed<()>)
    requires Inv(toks, st) && s != ""
    ensures Post(toks, st, r)
    ensures r.Ok? <==> Is(toks, st, s)
    ensures r.Ok? ==> r.st == Next(st)
    ensures r.Err? ==> r.error == UnexpectedToken(st.pos)
  {
    if Is(toks, st, s) then Ok((), Next(st)) else Err(UnexpectedToken(st.pos))
  }

  /** `consume_number`: the current token must be a number, and is consumed. */
  function ConsumeNumber(toks: seq<T.Token>, st: PState): (r: Parsed<int>)
    requires Inv(toks, st)
    ensures Post(toks, st, r)
    ensures r.Ok? <==> AtNum(toks, st)
    ensures r.Ok? ==> r.st == Next(st) && toks[st.pos].kind == T.Num(r.value)
  {
    if AtNum(toks, st) then Ok(toks[st.pos].kind.value, Next(st)) else Err(NumberExpected(st.pos))
  }

  // ----- the grammar -----

  /** program = stmt* : statements up to the `Eof` token. */
  function Program(toks: seq<T.Token>, st: PState): (r: Parsed<seq<AST>>)
    requires Inv(toks, st)
    ensures Post(toks, st, r)
    ensures r.Ok? ==> AtEof(toks, r.st)
    decreases |toks| - st.pos, 30
  {
    if AtEof(toks, st) then Ok([], st)
    else
      var (s, st1) :- Stmt(toks, st);
      var (ss, st2) :- Program(toks, st1);
      Ok([s] + ss, st2)
  }

  /** The statements of a block after its `{`, up to and including the `}`. */
  function BlockBody(toks: seq<T.Token>, st: PState): (r: Parsed<seq<AST>>)
    requires Inv(toks, st)
    ensures Post(toks, st, r)
    decreases |toks| - st.pos, 29
  {
    if Is(toks, st, "}") then Ok([], Next(st))
    else
      var (s, st1) :- Stmt(toks, st);
      var (ss, st2) :- BlockBody(toks, st1);
      Ok([s] + ss, st2)
  }

  /**
   * stmt = "return" expr ";" | "if" "(" expr ")" stmt ("else" stmt)?
   *      | "while" "(" expr ")" stmt | "for" "(" expr ";" expr ";" expr ")" stmt
   *      | "{" stmt* "}" | expr ";"
   * A statement always consumes at least one token.
   */
  function Stmt(toks: seq<T.Token>, st: PState): (r: Parsed<AST>)
    requires Inv(toks, st)
    ensures Post(toks, st, r)
    ensures r.Ok? ==> r.st.pos > st.pos
    decreases |toks| - st.pos, 28
  {
    if Is(toks, st, "return") then ReturnStmt(toks, st)
    else if Is(toks, st, "if") then IfStmt(toks, st)
    else if Is(toks, st, "while") then WhileStmt(toks, st)
    else if Is(toks, st, "for") then ForStmt(toks, st)
    else if Is(toks, st, "{") then
      var (ss, st1) :- BlockBody(toks, Next(st));
      Ok(Leaf(Block(ss)), st1)
    else
      var (e, st1) :- Expr(toks, st);
      var (_, st2) :- Expect(toks, st1, ";");
      Ok(Leaf(ExprStmt(e)), st2)
  }

  /** "return" expr ";" */
  function ReturnStmt(toks: seq<T.Token>, st: PState): (r: Parsed<AST>)
    requires Inv(toks, st) && Is(toks, st, "return")
    ensures Post(toks, st, r)
    ensures r.Ok? ==> r.st.pos > st.pos
    decreases |toks| - st.pos, 27
  {
    var (e, st1) :- Expr(toks, Next(st));
    var (_, st2) :- Expect(toks, st1, ";");
    Ok(Node(Return, e, Nil), st2)
  }

  /** "if" "(" expr ")" stmt ("else" stmt)? ; a missing else-branch is `Nil`. */
  function IfStmt(toks: seq<T.Token>, st: PState): (r: Parsed<AST>)
    requires Inv(toks, st) && Is(toks, st, "if")
    ensures Post(toks, st, r)
    ensures r.Ok? ==> r.st.pos > st.pos
    decreases |toks| - st.pos, 27
  {
    var (c, st3) :- ParenExpr(toks, Next(st));
    var (thn, st4) :- Stmt(toks, st3);
    if Is(toks, st4, "else") then
      var (els, st5) :- Stmt(toks, Next(st4));
      Ok(Leaf(If(c, thn, els)), st5)
    else
      Ok(Leaf(If(c, thn, Nil)), st4)
  }

  /** "(" expr ")", the condition of `if` and `while`. */
  function ParenExpr(toks: seq<T.Token>, st: PState): (r: Parsed<AST>)
    requires Inv(toks, st)
    ensures Post(toks, st, r)
    ensures r.Ok? ==> r.st.pos > st.pos
    decreases |toks| - st.pos, 26
  {
    var (_, st1) :- Expect(toks, st, "(");
    var (c, st2) :- Expr(toks, st1);
    var (_, st3) :- Expect(toks, st2, ")");
    Ok(c, st3)
  }

  /** "while" "(" expr ")" stmt, built as a `for` without init and step. */
  function WhileStmt(toks: seq<T.Token>, st: PState): (r: Parsed<AST>)
    requires Inv(toks, st) && Is(toks, st, "while")
    ensures Post(toks, st, r)
    ensures r.Ok? ==> r.st.pos > st.pos
    decreases |toks| - st.pos, 27
  {
    var (c, st3) :- ParenExpr(toks, Next(st));
    var (body, st4) :- Stmt(toks, st3);
    Ok(Leaf(For(Nil, c, Nil, body)), st4)
  }

  /** "for" "(" expr ";" expr ";" expr ")" stmt, where each `;` is skipped if present. */
  function ForStmt(toks: seq<T.Token>, st: PState): (r: Parsed<AST>)
    requires Inv(toks, st) && Is(toks, st, "for")
    ensures Post(toks, st, r)
    ensures r.Ok? ==> r.st.pos > st.pos
    decreases |toks| - st.pos, 27
  {
    var (_, st1) :- Expect(toks, Next(st), "(");
    var (a, st2) :- Expr(toks, st1);
    var st3 := Skip(toks, st2, ";");
    var (b, st4) :- Expr(toks, st3);
    var st5 := Skip(toks, st4, ";");
    var (c, st6) :- Expr(toks, st5);
    var (_, st7) :- Expect(toks, st6, ")");
    var (body, st8) :- Stmt(toks, st7);
    Ok(Leaf(For(a, b, c, body)), st8)
  }

  /** The state after `consume(s)`, whose result is ignored. */
  function Skip(toks: seq<T.Token>, st: PState, s: string): (st2: PState)
    requires Inv(toks, st) && s != ""
    ensures Grows(toks, st, st2)
    ensures st2 == if Is(toks, st, s) then Next(st) else st
  {
    if Is(toks, st, s) then Next(st) else st
  }

  /** expr = assign, or nothing when the current token is `;`. */
  function Expr(toks: seq<T.Token>, st: PState): (r: Parsed<AST>)
    requires Inv(toks, st)
    ensures Post(toks, st, r)
    decreases |toks| - st.pos, 20
  {
    if Is(toks, st, ";") then Ok(Nil, st) else Assign(toks, st)
  }

  /** assign = equality ("=" assign)? */
  function Assign(toks: seq<T.Token>, st: PState): (r: Parsed<AST>)
    requires Inv(toks, st)
    ensures Post(toks, st, r)
    decreases |toks| - st.pos, 19
  {
    var (a, st1) :- Equality(toks, st);
    AssignTail(toks, a, st1)
  }

  /** The loop of `assign`: each `=` makes the tree so far the target of what follows. */
  function AssignTail(toks: seq<T.Token>, a: AST, st: PState): (r: Parsed<AST>)
    requires Inv(toks, st)
    ensures Post(toks, st, r)
    decreases |toks| - st.pos, 18
  {
    if AtEof(toks, st) || !Is(toks, st, "=") then Ok(a, st)
    else
      var (b, st1) :- Assign(toks, Next(st));
      AssignTail(toks, Node(NodeKind.Assign, a, b), st1)
  }

  /** equality = relational ("==" relational | "!=" relational)* */
  function Equality(toks: seq<T.Token>, st: PState): (r: Parsed<AST>)
    requires Inv(toks, st)
    ensures Post(toks, st, r)
    decreases |toks| - st.pos, 17
  {
    var (a, st1) :- Relational(toks, st);
    EqualityTail(toks, a, st1)
  }

  function EqualityTail(toks: seq<T.Token>, a: AST, st: PState): (r: Parsed<AST>)
    requires Inv(toks, st)
    ensures Post(toks, st, r)
    decreases |toks| - st.pos, 16
  {
    if AtEof(toks, st) then Ok(a, st)
    else if Is(toks, st, "==") then
      var (b, st1) :- Relational(toks, Next(st));
      EqualityTail(toks, Node(Eq, a, b), st1)
    else if Is(toks, st, "!=") then
      var (b, st1) :- Relational(toks, Next(st));
      EqualityTail(toks, Node(Ne, a, b), st1)
    else Ok(a, st)
  }

  /** relational = add ("<" add | "<=" add | ">" add | ">=" add)*, `>` and `>=` with swapped operands. */
  function Relational(toks: seq<T.Token>, st: PState): (r: Parsed<AST>)
    requires Inv(toks, st)
    ensures Post(toks, st, r)
    decreases |toks| - st.pos, 15
  {
    var (a, st1) :- Add(toks, st);
    RelationalTail(toks, a, st1)
  }

  function RelationalTail(toks: seq<T.Token>, a: AST, st: PState): (r: Parsed<AST>)
    requires Inv(toks, st)
    ensures Post(toks, st, r)
    decreases |toks| - st.pos, 14
  {
    if AtEof(toks, st) then Ok(a, st)
    else if Is(toks, st, "<=") then
      var (b, st1) :- Add(toks, Next(st));
      RelationalTail(toks, Node(Le, a, b), st1)
    else if Is(toks, st, "<") then
      var (b, st1) :- Add(toks, Next(st));
      RelationalTail(toks, Node(Lt, a, b), st1)
    else if Is(toks, st, ">=") then
      var (b, st1) :- Add(toks, Next(st));
      RelationalTail(toks, Node(Le, b, a), st1)
    else if Is(toks, st, ">") then
      var (b, st1) :- Add(toks, Next(st));
      RelationalTail(toks, Node(Lt, b, a), st1)
    else Ok(a, st)
  }

  /** add = mul ("+" mul | "-" mul)* */
  function Add(toks: seq<T.Token>, st: PState): (r: Parsed<AST>)
    requires Inv(toks, st)
    ensures Post(toks, st, r)
    decreases |toks| - st.pos, 13
  {
    var (a, st1) :- Mul(toks, st);
    AddTail(toks, a, st1)
  }

  function AddTail(toks: seq<T.Token>, a: AST, st: PState): (r: Parsed<AST>)
    requires Inv(toks, st)
    ensures Post(toks, st, r)
    decreases |toks| - st.pos, 12
  {
    if AtEof(toks, st) then Ok(a, st)
    else if Is(toks, st, "+") then
      var (b, st1) :- Mul(toks, Next(st));
      AddTail(toks, Node(Plus, a, b), st1)
    else if Is(toks, st, "-") then
      var (b, st1) :- Mul(toks, Next(st));
      AddTail(toks, Node(Minus, a, b), st1)
    else Ok(a, st)
  }

  /** mul = unary ("*" unary | "/" unary)* */
  function Mul(toks: seq<T.Token>, st: PState): (r: Parsed<AST>)
    requires Inv(toks, st)
    ensures Post(toks, st, r)
    decreases |toks| - st.pos, 11
  {
    var (a, st1) :- Unary(toks, st);
    MulTail(toks, a, st1)
  }

  function MulTail(toks: seq<T.Token>, a: AST, st: PState): (r: Parsed<AST>)
    requires Inv(toks, st)
    ensures Post(toks, st, r)
    decreases |toks| - st.pos, 10
  {
    if AtEof(toks, st) then Ok(a, st)
    else if Is(toks, st, "*") then
      var (b, st1) :- Unary(toks, Next(st));
      MulTail(toks, Node(NodeKind.Mul, a, b), st1)
    else if Is(toks, st, "/") then
      var (b, st1) :- Unary(toks, Next(st));
      MulTail(toks, Node(Div, a, b), st1)
    else Ok(a, st)
  }

  /** unary = ("+" | "-" | "*" | "&") unary | primary */
  function Unary(toks: seq<T.Token>, st: PState): (r: Parsed<AST>)
    requires Inv(toks, st)
    ensures Post(toks, st, r)
    decreases |toks| - st.pos, 9
  {
    if Is(toks, st, "+") then Unary(toks, Next(st))
    else if Is(toks, st, "-") then
      var (b, st1) :- Unary(toks, Next(st));
      Ok(Node(Minus, Leaf(Num(0)), b), st1)
    else if Is(toks, st, "*") then
      var (b, st1) :- Unary(toks, Next(st));
      Ok(Node(Deref, b, Nil), st1)
    else if Is(toks, st, "&") then
      var (b, st1) :- Unary(toks, Next(st));
      Ok(Node(Addr, b, Nil), st1)
    else Primary(toks, st)
  }

  /** primary = "(" expr ")" | num | ident */
  function Primary(toks: seq<T.Token>, st: PState): (r: Parsed<AST>)
    requires Inv(toks, st)
    ensures Post(toks, st, r)
    decreases |toks| - st.pos, 8
  {
    if Is(toks, st, "(") then
      var (e, st1) :- Expr(toks, Next(st));
      var (_, st2) :- Expect(toks, st1, ")");
      Ok(e, st2)
    else if AtNum(toks, st) then
      match ConsumeNumber(toks, st)
      case Ok(n, st1) => Ok(Leaf(Num(n)), st1)
      case Err(e) => Err(e)
    else Ident(toks, st)
  }

  /**
   * ident = ident "(" args ")" | ident : a call, or a variable that is
   * looked up in the locals table (and registered there when new).
   */
  function Ident(toks: seq<T.Token>, st: PState): (r: Parsed<AST>)
    requires Inv(toks, st)
    ensures Post(toks, st, r)
    decreases |toks| - st.pos, 7
  {
    if !toks[st.pos].kind.Ident? then Err(IdentExpected(st.pos))
    else
      var name := toks[st.pos].str;
      var st1 := Next(st);
      if Is(toks, st1, "(") then Call(toks, name, Next(st1))
      else
        var (ofs, st2) := Lookup(st1, name);
        Ok(Leaf(Var(name, ofs)), st2)
  }

  /** A call of `name` after its `(`: the arguments, then `)`. */
  function Call(toks: seq<T.Token>, name: string, st: PState): (r: Parsed<AST>)
    requires Inv(toks, st)
    ensures Post(toks, st, r)
    decreases |toks| - st.pos, 23
  {
    var (args, st1) :- CallArgs(toks, st);
    var (_, st2) :- Expect(toks, st1, ")");
    Ok(Leaf(FuncCall(name, args)), st2)
  }

  /**
   * The variable part of `ident`: a registered name yields its offset; a
   * new one is registered at the current offset, which then grows by 8.
   */
  function Lookup(st: PState, name: string): (r: (nat, PState))
    ensures r.1.pos == st.pos && st.offset <= r.1.offset && st.locals.Items <= r.1.locals.Items
    ensures name in r.1.locals && r.1.locals[name] == r.0
    ensures TableOk(st) ==> TableOk(r.1)
  {
    if name in st.locals then (st.locals[name], st)
    else (st.offset, st.(locals := st.locals[name := st.offset], offset := st.offset + 8))
  }

  /** The arguments of a call: an optional first one, then the loop over `,`. */
  function CallArgs(toks: seq<T.Token>, st: PState): (r: Parsed<seq<AST>>)
    requires Inv(toks, st)
    ensures Post(toks, st, r)
    decreases |toks| - st.pos, 22
  {
    if AtExprStart(toks, st) then
      var (e, st1) :- Expr(toks, st);
      ArgsTail(toks, [e], st1)
    else ArgsTail(toks, [], st)
  }

  /** The loop of the argument list: after each `,`, another argument if one starts there. */
  function ArgsTail(toks: seq<T.Token>, args: seq<AST>, st: PState): (r: Parsed<seq<AST>>)
    requires Inv(toks, st)
    ensures Post(toks, st, r)
    decreases |toks| - st.pos, 21
  {
    if !Is(toks, st, ",") then Ok(args, st)
    else
      var st1 := Next(st);
      if !AtExprStart(toks, st1) then Ok(args, st1)
      else
        var (e, st2) :- Expr(toks, st1);
        ArgsTail(toks, args + [e], st2)
  }

  /** `parse`: the program from the initial state. */
  function Parse(toks: seq<T.Token>): (r: Parsed<seq<AST>>)
    requires Terminated(toks)
    ensures Post(toks, Init, r)
    ensures r.Ok? ==> AtEof(toks, r.st) && TableOk(r.st)
  {
    Program(toks, Init)
  }
}
