# ccr, a tiny C compiler: the translation pipeline in Dafny

This project models the core of `ccr`, a small compiler from a C subset to
x86-64 assembly text. It has four stages and one earlier program:

- **The lexer** (`Tokenize`, `TokenizeProps`). A cursor over the source text
  produces a token vector that ends in one `Eof` token. A digit starts a
  number that must fit an `isize`. Keywords are matched by prefix before
  identifiers. An identifier is a maximal `[A-Za-z_][A-Za-z0-9_]*` run. The
  two-character operators `==`, `!=`, `<=` and `>=` win over their
  one-character prefixes. Every other printable ASCII character except
  the single quote becomes a one-character reserved token. The single
  quote and any other character are an error.
- **The recursive-descent parser** (`ParseSpec`, `Parse`, `ParseProps`).
  `Parser` has three fields that parsing changes: a token cursor, a
  frame-offset accumulator and a name-to-offset table. It builds syntax
  trees (`Ast`), desugaring `>`/`>=` by swapping operands, `-x` to `0 - x`
  and `while` to a `For` node. An unknown identifier is registered at the
  next free 8-byte slot. As in the source, a `for` header whose third
  clause is empty, as in `for (a; b;)`, aborts: the grammar comment allows
  it, but the code parses an expression at the `)`.
- **The stack-machine code generator of `codegen.rs`** (`Asm`, `CodegenSpec`,
  `Codegen`, `CodegenProps`). `CodeGenerator` walks the trees and appends
  lines to its output. A number, a variable, an assignment to a variable
  and an operator over such expressions leave exactly one value pushed.
  The other node kinds do not. A dereference or an address-of over such
  an expression leaves the stack as it found it. A call, a block, a loop
  and an expression statement pop one value more than they push, since
  the subtrees they carry inside their kind get no code. `If`
  mints label numbers from a counter. `Return` emits its own frame
  tear-down.
- **The earlier generator of `gen.rs`** (`Gen`). It covers the same
  expressions without `If` and `Return`.
- **The first single-expression compiler of `main.rs`** (`SingleExpr`). A
  character cursor translates `N(+N|-N)*` into `mov`/`add`/`sub` lines.

Each imperative piece of the source is a Dafny `class` with `modifies`
clauses: the `Tokenizer`, the `Parser`, the `CodeGenerator` and the
single-expression `CharParser`. Its loops become `while`/`for` loops with
invariants. Each method is proved to compute a pure reference function of
its old state. The functions include `LexFrom`, the `ParseSpec` grammar
functions, `CodegenSpec.GenExpr`/`Unit`, `Gen.Program` and
`SingleExpr.Translate`. The properties the compiler relies on are lemmas
about those functions.

Output files and standard output are modelled as a sequence of lines, one
string per line written. An abort (`panic!`, `unwrap` on an error,
`error_at`) is a `Failure`/`Err` result, or the `Aborted` exit of the
single-expression compiler. The three source files come from different
snapshots of the repository. They are reconciled into one token kind, whose
identifier name is the token's string, one `Var(name, offset)` node, and one
`If(cond, thn, els)` node whose `els` is `Nil` when there is no else-branch.

## Model

| member | source | states |
|---|---|---|
| Tokenize.KeywordFrom | src/tokenize.rs:192-201 | a keyword found by the table search is a prefix of the input at the cursor |
| Tokenize.IsKeywordAt | src/tokenize.rs:120-127 | true exactly at a letter or `_` where some keyword of the table begins |
| Tokenize.IsPunctChar | src/tokenize.rs:77-78 | true exactly at the punctuators the source lists: printable ASCII other than letters, digits and the single quote |
| Tokenize.IsSpaceChar | src/tokenize.rs:162-165 | true exactly at the characters with the Unicode White_Space property, the set `char::is_whitespace` tests |
| Tokenize.NumberToken | src/tokenize.rs:47-51 | a number token advances the cursor, records the position after it and has kind `Num` |
| Tokenize.KeywordToken | src/tokenize.rs:56-59 | at a keyword, lexing always succeeds with a `Keyword` token and advances |
| Tokenize.IdentToken | src/tokenize.rs:62-66 | at a letter or `_`, lexing always succeeds with an `Ident` token and advances |
| Tokenize.Step | src/tokenize.rs:46-86 | each successful step of the main loop advances the cursor by at least one character and never yields `Eof`, so tokenizing terminates |
| Tokenize.LexFrom | src/tokenize.rs:37-90 | a successful result ends with exactly one `Eof` token, at the end of the input, and has no earlier `Eof` |
| Tokenize.Tokenizer.constructor | src/tokenize.rs:39 | the cursor starts at 0 over the input |
| Tokenize.Tokenizer.NextChar | src/tokenize.rs:95-98 | the character at the cursor |
| Tokenize.Tokenizer.IsEof | src/tokenize.rs:100-102 | true exactly when the cursor is at or past the end of the input |
| Tokenize.Tokenizer.IsAl | src/tokenize.rs:104-110 | true exactly when the character at the cursor is an ASCII letter or `_` |
| Tokenize.Tokenizer.IsAlnum | src/tokenize.rs:112-118 | true exactly when the character at the cursor is an ASCII letter, digit or `_` |
| Tokenize.Tokenizer.StartsWith | src/tokenize.rs:147-149 | true exactly when the input from the cursor on begins with `s` |
| Tokenize.Tokenizer.IsKeyword | src/tokenize.rs:120-126 | true exactly when the cursor is at a letter or `_` that begins some keyword of the table |
| Tokenize.Tokenizer.ReadChar | src/tokenize.rs:129-135 | returns the character at the cursor and advances by one |
| Tokenize.Tokenizer.ReadNChars | src/tokenize.rs:138-144 | returns the next `n` characters and advances by `n` |
| Tokenize.Tokenizer.ReadWhile | src/tokenize.rs:152-159 | consumes and returns the longest run from the cursor that satisfies the test |
| Tokenize.Tokenizer.ReadWhitespace | src/tokenize.rs:162-164 | moves the cursor past the maximal whitespace run |
| Tokenize.Tokenizer.ReadNumber | src/tokenize.rs:167-179 | consumes the maximal digit run and returns its value, or fails when the value does not fit an isize |
| Tokenize.Tokenizer.ReadIdent | src/tokenize.rs:181-188 | at a letter or `_`, consumes and returns the maximal alphanumeric run; otherwise fails without moving |
| Tokenize.Tokenizer.ReadKeyword | src/tokenize.rs:192-201 | consumes and returns the first keyword of the table the input continues with; fails without moving when there is none |
| Tokenize.Tokenizer.ReadToken | src/tokenize.rs:46-86 | one iteration of the main loop reads the token and moves the cursor exactly as `Step` says |
| Tokenize.Tokenize | src/tokenize.rs:37-90 | the token vector is `LexFrom(input, 0)`, so it has the `Eof` property above |
| TokenizeProps.NumberRule | src/tokenize.rs:47-51 | at a digit, the token is `Num` of the value of the maximal digit run, or an error when that value exceeds the isize maximum |
| TokenizeProps.KeywordsPrefixFree | src/tokenize.rs:6 | no keyword of the table is a prefix of another |
| TokenizeProps.KeywordRule | src/tokenize.rs:56-59 | input continuing with a keyword lexes as that keyword, whatever follows it |
| TokenizeProps.KeywordFromFinds | src/tokenize.rs:192-201 | the table search finds a keyword the input continues with |
| TokenizeProps.KeywordFromNone | src/tokenize.rs:192-201 | the table search finds nothing when no keyword matches |
| TokenizeProps.IdentRule | src/tokenize.rs:62-66 | a letter or `_` that begins no keyword starts an `Ident` token spanning the maximal alphanumeric run |
| TokenizeProps.TwoCharRule | src/tokenize.rs:69-75 | `==`, `!=`, `<=` and `>=` are single two-character reserved tokens |
| TokenizeProps.OneCharRule | src/tokenize.rs:76-83 | any other punctuator is a one-character reserved token |
| TokenizeProps.StepFailsIff | src/tokenize.rs:46-86 | a step fails exactly at a character no rule accepts or at a number too large for isize; the first is an invalid-token error at that position |
| TokenizeProps.WhitespaceSkipped | src/tokenize.rs:43-44 | whitespace before a token produces no token |
| TokenizeProps.InvalidCharFails | src/tokenize.rs:76-86 | a character that is neither space, digit, letter nor punctuator makes tokenizing fail there |
| TokenizeProps.KeywordThenNumber | src/tokenize.rs:56-59 | `return4` lexes as keyword `return`, number 4, `Eof` |
| TokenizeProps.KeywordThenIdent | src/tokenize.rs:56-66 | `returnx` lexes as keyword `return`, identifier `x`, `Eof` |
| ParseSpec.Expect | src/parse.rs:157-161 | succeeds exactly when the current token is `s`, moving one token on; it fails otherwise |
| ParseSpec.Is | src/parse.rs:101-108 | true exactly when the current token's text is `s` |
| ParseSpec.AtEof | src/parse.rs:110-117 | true exactly at the `Eof` token |
| ParseSpec.AtNum | src/parse.rs:119-126 | true exactly at a number token |
| ParseSpec.AtExprStart | src/parse.rs:128-134 | true exactly at `+`, `-`, an identifier or a number |
| ParseSpec.ConsumeNumber | src/parse.rs:164-172 | succeeds exactly at a `Num` token, returning its value and moving one token on |
| ParseSpec.Program | src/parse.rs:183-191 | a parsed program stops at the `Eof` token, and the state only grows |
| ParseSpec.BlockBody | src/parse.rs:244-251 | the statements up to the closing brace; the state only grows |
| ParseSpec.Stmt | src/parse.rs:200-258 | a statement consumes at least one token, and the state only grows |
| ParseSpec.ReturnStmt | src/parse.rs:202-206 | `return expr ;` consumes at least one token |
| ParseSpec.IfStmt | src/parse.rs:208-219 | `if ( expr ) stmt (else stmt)?` consumes at least one token |
| ParseSpec.ParenExpr | src/parse.rs:209-211 | `( expr )` consumes at least one token |
| ParseSpec.WhileStmt | src/parse.rs:221-229 | `while ( expr ) stmt` consumes at least one token |
| ParseSpec.ForStmt | src/parse.rs:231-242 | `for ( expr? ; expr? ; expr? ) stmt` consumes at least one token |
| ParseSpec.Skip | src/parse.rs:234-236 | an optional `;` is consumed when present and the state is unchanged otherwise |
| ParseSpec.Expr | src/parse.rs:262-265 | the state only grows (cursor forward, frame and table kept) |
| ParseSpec.Assign | src/parse.rs:268-278 | the state only grows |
| ParseSpec.AssignTail | src/parse.rs:270-276 | the state only grows |
| ParseSpec.Equality | src/parse.rs:281-293 | the state only grows |
| ParseSpec.EqualityTail | src/parse.rs:283-291 | the state only grows |
| ParseSpec.Relational | src/parse.rs:296-313 | the state only grows |
| ParseSpec.RelationalTail | src/parse.rs:299-311 | the state only grows |
| ParseSpec.Add | src/parse.rs:316-331 | the state only grows |
| ParseSpec.AddTail | src/parse.rs:319-329 | the state only grows |
| ParseSpec.Mul | src/parse.rs:335-350 | the state only grows |
| ParseSpec.MulTail | src/parse.rs:338-348 | the state only grows |
| ParseSpec.Unary | src/parse.rs:354-369 | the state only grows |
| ParseSpec.Primary | src/parse.rs:373-389 | the state only grows |
| ParseSpec.Ident | src/parse.rs:393-434 | the state only grows, and the symbol-table invariant is kept |
| ParseSpec.Call | src/parse.rs:401-414 | the state only grows |
| ParseSpec.Lookup | src/parse.rs:417-431 | after a lookup the name is registered at the returned offset, earlier entries are kept, the frame does not shrink and the symbol-table invariant is kept |
| ParseSpec.CallArgs | src/parse.rs:402-409 | the state only grows |
| ParseSpec.ArgsTail | src/parse.rs:405-409 | the state only grows |
| ParseSpec.Parse | src/parse.rs:89-92 | a parse from the fresh state ends at `Eof` with the symbol-table invariant holding |
| Parse.Parser.constructor | src/parse.rs:90 | cursor 0, offset 0, empty table |
| Parse.Parser.CurToken | src/parse.rs:96-98 | the token at the cursor |
| Parse.Parser.IsStr | src/parse.rs:101-108 | `ParseSpec.Is` at the parser's cursor |
| Parse.Parser.IsEof | src/parse.rs:110-117 | `ParseSpec.AtEof` at the parser's cursor |
| Parse.Parser.IsNum | src/parse.rs:119-126 | `ParseSpec.AtNum` at the parser's cursor |
| Parse.Parser.IsExpr | src/parse.rs:128-134 | `ParseSpec.AtExprStart` at the parser's cursor: `+`, `-`, an identifier or a number |
| Parse.Parser.ConsumeAny | src/parse.rs:137-142 | returns the current token and moves the cursor one on, changing nothing else |
| Parse.Parser.Consume | src/parse.rs:146-154 | true exactly when the current token's string is `s`; then the cursor moves one on, otherwise nothing changes |
| Parse.Parser.Expected | src/parse.rs:157-161 | computes `ParseSpec.Expect`: consumes `s` or fails |
| Parse.Parser.ConsumeNumber | src/parse.rs:164-172 | computes `ParseSpec.ConsumeNumber` |
| Parse.Parser.Program | src/parse.rs:183-191 | the loop computes `ParseSpec.Program` and the new state |
| Parse.Parser.Stmt | src/parse.rs:200-258 | computes `ParseSpec.Stmt` and the new state |
| Parse.Parser.ReturnStmt | src/parse.rs:202-206 | computes `ParseSpec.ReturnStmt` |
| Parse.Parser.IfStmt | src/parse.rs:208-219 | computes `ParseSpec.IfStmt` |
| Parse.Parser.WhileStmt | src/parse.rs:221-229 | computes `ParseSpec.WhileStmt` |
| Parse.Parser.ParenExpr | src/parse.rs:209-211 | computes `ParseSpec.ParenExpr` |
| Parse.Parser.ForStmt | src/parse.rs:231-242 | computes `ParseSpec.ForStmt` |
| Parse.Parser.BlockStmt | src/parse.rs:244-251 | the block loop computes `ParseSpec.Stmt` at a `{` |
| Parse.Parser.Expr | src/parse.rs:262-265 | computes `ParseSpec.Expr` |
| Parse.Parser.Assign | src/parse.rs:268-278 | the loop computes `ParseSpec.Assign` |
| Parse.Parser.Equality | src/parse.rs:281-293 | the loop computes `ParseSpec.Equality` |
| Parse.Parser.Relational | src/parse.rs:296-313 | the loop computes `ParseSpec.Relational` |
| Parse.Parser.Add | src/parse.rs:316-331 | the loop computes `ParseSpec.Add` |
| Parse.Parser.Mul | src/parse.rs:335-350 | the loop computes `ParseSpec.Mul` |
| Parse.Parser.Unary | src/parse.rs:354-369 | computes `ParseSpec.Unary` |
| Parse.Parser.Primary | src/parse.rs:373-389 | computes `ParseSpec.Primary` |
| Parse.Parser.Ident | src/parse.rs:393-434 | computes `ParseSpec.Ident`, including the table insertion and the offset step |
| Parse.Parser.Call | src/parse.rs:401-414 | the argument loop computes `ParseSpec.Call` |
| Parse.Parse | src/parse.rs:89-92 | returns the trees of `ParseSpec.Parse`, or its error |
| ParseProps.LexerOutputShaped | src/tokenize.rs:37-90 | the lexer's output has the shape the parser relies on: it ends in an `Eof` token with an empty string, and no earlier token is `Eof` |
| ParseProps.NotEofAtString | src/parse.rs:270-338 | on lexer output, a token that matches an operator string is not `Eof`, so the operator loops do not stop early |
| ParseProps.LookupRegistered | src/parse.rs:419-422 | a registered name yields its stored offset and changes neither the table nor the offset |
| ParseProps.LookupFresh | src/parse.rs:424-431 | an unregistered name is inserted at the current offset, which then grows by exactly 8 |
| ParseProps.LookupOrder | src/parse.rs:417-431 | a name registered later gets a larger offset than every earlier one |
| ParseProps.DistinctOffsets | src/parse.rs:417-431 | distinct registered names have distinct offsets, multiples of 8 below the frame size |
| ParseProps.ParseKeepsTable | src/parse.rs:89-92 | a successful parse ends at `Eof` with the symbol-table invariant |
| ParseProps.AddLeftAssoc | src/parse.rs:316-331 | `a op1 b op2 c` with `+`/`-` parses as `(a op1 b) op2 c` |
| ParseProps.MulLeftAssoc | src/parse.rs:335-350 | `a op1 b op2 c` with `*`/`/` parses as `(a op1 b) op2 c` |
| ParseProps.EqualityLeftAssoc | src/parse.rs:281-293 | `a op1 b op2 c` with `==`/`!=` parses as `(a op1 b) op2 c` |
| ParseProps.AssignRightAssoc | src/parse.rs:268-278 | `a = b = c` parses as `Assign(a, Assign(b, c))` |
| ParseProps.RelationalSwap | src/parse.rs:300-307 | `x > y` is `Lt(y, x)`, `x >= y` is `Le(y, x)`; `<` and `<=` keep the order |
| ParseProps.UnaryDesugar | src/parse.rs:354-369 | `+x` is `x`, `-x` is `Minus(Num 0, x)`, and `*x`/`&x` are `Deref`/`Addr` with `x` on the left and `Nil` on the right |
| ParseProps.WhileIsFor | src/parse.rs:221-229 | `while (c) s` is a `For` node with `Nil` init and step |
| ParseProps.IfWithoutElse | src/parse.rs:208-219 | an `if` without `else` has `Nil` as its else-branch |
| ParseProps.EmptyExpr | src/parse.rs:262-265 | at `;` an expression is `Nil` and nothing is consumed |
| ParseProps.ExprAtCloseParenFails | src/parse.rs:393-398 | an expression cannot start at `)`: the identifier rule aborts there |
| ParseProps.TwoStatements | src/parse.rs:183-191 | the tokens of `a=1;b=2;` parse to two assignment statements in source order, `a` at offset 0 and `b` at offset 8, stopping at `Eof` |
| ParseProps.ArgsAccumulate | src/parse.rs:404-409 | the argument loop appends what it reads to the arguments it starts with: it yields `args + more` exactly when starting from no arguments yields `more`, and the same error otherwise |
| ParseProps.TwoArgs | src/parse.rs:400-409 | two expressions separated by a comma are the argument list `[a, b]`, in that order |
| ParseProps.TrailingCommaAccepted | src/parse.rs:405-407 | a comma right before `)` ends the argument list without another argument |
| Asm.Effect | src/codegen.rs:24-178 | a line changes the stack depth by +1 exactly when it is a push, by -1 exactly when it is a pop, and otherwise by 0 |
| Asm.OpLines | src/codegen.rs:138-178 | the operator kinds are exactly the kinds with operator instructions |
| Asm.OpLinesNeutral | src/codegen.rs:138-178 | operator instructions neither push nor pop; a comparison is `cmp rax, rdi`, one `set` instruction and `movzb rax, al` |
| Asm.ElseLabelNum | src/codegen.rs:102-105 | an `.Lelse` label line names the counter value it was minted from |
| Asm.EndLabelNum | src/codegen.rs:120-121 | an `.Lend` label line names the counter value it was minted from |
| Asm.Range | src/codegen.rs:102-121 | the counter values between two bounds |
| Asm.LabelsAppend | src/codegen.rs:97-132 | code pieces whose labels come from disjoint counter ranges never together define one label twice |
| Asm.LabelsDistinct | src/codegen.rs:97-132 | distinct label numbers mean distinct label lines |
| CodegenSpec.LvalLines | src/codegen.rs:187-201 | the address push of a variable is instruction lines with net stack effect +1 |
| CodegenSpec.GenLval | src/codegen.rs:187-201 | succeeds exactly on a variable node, pushing its address with net effect +1; any other node is not an lvalue |
| CodegenSpec.GenExpr | src/codegen.rs:52-184 | the label counter never decreases, and `Nil` emits nothing |
| CodegenSpec.GenIfElse | src/codegen.rs:97-119 | an `If` with else takes two counter values |
| CodegenSpec.GenArms | src/codegen.rs:107-119 | the two branches never decrease the counter |
| CodegenSpec.GenIfEnd | src/codegen.rs:120-132 | an `If` without else takes one counter value |
| CodegenSpec.GenBinary | src/codegen.rs:136-178 | operator code never decreases the counter |
| CodegenSpec.StmtsFrom | src/codegen.rs:30-34 | the statement loop never decreases the counter |
| CodegenSpec.Unit | src/codegen.rs:17-40 | the unit is at least the fixed prologue and epilogue |
| Codegen.CodeGenerator.constructor | src/codegen.rs:19 | counter 0, empty output |
| Codegen.CodeGenerator.Output | src/codegen.rs:47-49 | appends one line to the output |
| Codegen.CodeGenerator.GenLval | src/codegen.rs:187-201 | appends `CodegenSpec.GenLval`'s lines, or fails on a non-variable |
| Codegen.CodeGenerator.GenStmts | src/codegen.rs:30-34 | the loop appends `CodegenSpec.StmtsFrom`'s lines and sets the counter as it says |
| Codegen.CodeGenerator.GenExpr | src/codegen.rs:52-184 | appends `CodegenSpec.GenExpr`'s lines and leaves the counter as it says, or fails as it says |
| Codegen.CodeGenerator.GenAssign | src/codegen.rs:77-88 | the assignment branch computes `CodegenSpec.GenExpr` |
| Codegen.CodeGenerator.GenIfElse | src/codegen.rs:97-119 | the with-else branch computes `CodegenSpec.GenExpr` |
| Codegen.CodeGenerator.GenArms | src/codegen.rs:107-119 | the two branches compute `CodegenSpec.GenArms` |
| Codegen.CodeGenerator.GenIfEnd | src/codegen.rs:120-132 | the without-else branch computes `CodegenSpec.GenExpr` |
| Codegen.CodeGenerator.GenBinary | src/codegen.rs:136-178 | the operator branch computes `CodegenSpec.GenExpr` |
| Codegen.CodeGenerator.OutputOperator | src/codegen.rs:141-177 | appends the operator's instructions |
| Codegen.Codegen | src/codegen.rs:17-40 | the output is `CodegenSpec.Unit`: the prologue, each statement followed by `pop rax`, then the epilogue |
| CodegenProps.NetFrame | src/codegen.rs:21-39 | the prologue pushes one value (`rbp`) and the epilogue pops it |
| CodegenProps.StackExprBalanced | src/codegen.rs:60-88 | numbers, variables, assignments to variables and operators over such expressions succeed, leave the counter unchanged and have net effect +1 |
| CodegenProps.StackStmtsBalanced | src/codegen.rs:30-34 | statements that are such expressions, each followed by `pop rax`, have net effect 0 |
| CodegenProps.UnitBalanced | src/codegen.rs:17-40 | a unit of such statements is stack-balanced |
| CodegenProps.GenExprSucceedsIff | src/codegen.rs:77-79 | generation succeeds exactly when every assignment it reaches has a variable target; otherwise it aborts |
| CodegenProps.ArmsSucceedIff | src/codegen.rs:107-119 | the two branches succeed exactly when both meet that condition |
| CodegenProps.AssignToNonVariableFails | src/codegen.rs:77-79 | assigning to a non-variable aborts |
| CodegenProps.LabelsFresh | src/codegen.rs:97-132 | the labels an expression defines are numbered from the counter values it took, and none is defined twice |
| CodegenProps.IfElseLabels | src/codegen.rs:97-119 | an `If` with else defines `.Lelse` labels only from its own two counter values |
| CodegenProps.ArmsLabels | src/codegen.rs:107-119 | the branches and their two label lines define each number at most once |
| CodegenProps.IfEndLabels | src/codegen.rs:120-132 | an `If` without else defines its `.Lend` label from its own counter value |
| CodegenProps.StmtsLabels | src/codegen.rs:30-34 | a statement sequence defines labels only from the counter values it took, each once |
| CodegenProps.UnitLabelsDistinct | src/codegen.rs:17-40 | no label is defined twice in a translation unit |
| CodegenProps.ReturnEmitsEpilogue | src/codegen.rs:89-96 | `return e` emits `e`, `pop rax` and the frame tear-down ending in `ret` |
| CodegenProps.BinaryOrder | src/codegen.rs:136-178 | an operator emits the left operand, the right one, `pop rdi`, `pop rax`, its instructions and `push rax` |
| CodegenProps.SeveralReturns | src/codegen.rs:89-96 | two `return` statements give three `ret` lines in the unit |
| CodegenProps.CarrierNotGenerated | src/codegen.rs:136-180 | an expression statement, block, loop or call leaf emits only `pop rdi`, `pop rax`, `push rax`, net effect −1: what it carries gets no code |
| CodegenProps.ExprStmtNotGenerated | src/codegen.rs:136-180 | a unit of one parsed expression statement is the prologue, `pop rdi`, `pop rax`, `push rax`, `pop rax` and the epilogue, whatever the expression, with net effect −2 |
| CodegenProps.UnaryPointerNeutral | src/codegen.rs:136-180 | a dereference or address-of over a stack expression succeeds with net effect 0 |
| Gen.GenFromAst | src/gen.rs:41-113 | `Nil` emits nothing |
| Gen.GenSucceedsIff | src/gen.rs:41-113 | generation succeeds exactly when every assignment reached through `lhs`/`rhs` targets a variable; subtrees a kind carries, such as the parts of an `if`, are never visited |
| Gen.IfArmsNotVisited | src/gen.rs:71-72 | an `if` whose arm assigns to a number is generated without failure by this generator and aborts the later one |
| Gen.GenFromProgram | src/gen.rs:7-24 | the loop's output is `Program`: the prologue, each statement followed by `pop rax`, the epilogue, or the first failure |
| Gen.Program | src/gen.rs:7-24 | the prologue, each statement's lines followed by `pop rax`, the epilogue; the first failing statement's error otherwise |
| Gen.ProgramStmts | src/gen.rs:13-17 | the statements from index `i` on, each followed by `pop rax`, stopping at the first failure |
| Gen.ProgramSucceedsIff | src/gen.rs:7-24 | a unit compiles exactly when every statement meets `GenTargetsOk` |
| Gen.GenStackBalanced | src/gen.rs:48-107 | numbers, variables, assignments to variables and operators over such expressions succeed with net stack effect +1 |
| Gen.AssignToNonVariableFails | src/gen.rs:34-36 | assigning to a non-variable aborts |
| Gen.GenExprStmtNotGenerated | src/gen.rs:71-107 | an expression statement prints only the operator lines for two empty operands, and a unit of one is the prologue, those lines, `pop rax` and the epilogue, whatever the expression |
| Gen.GeneratorsAgree | src/gen.rs:41-113 | on those expressions it emits the later generator's code line for line, except that a number push has no `;` |
| SingleExpr.UintAt | src/main.rs:78-84 | a parsed number consumes at least one digit and fits a u32; it fails with no-digits exactly when the cursor is not at a digit |
| SingleExpr.TranslateStart | src/main.rs:15-21 | the translation starts with the four header lines and the `mov` of the first number, or aborts |
| SingleExpr.CharParser.constructor | src/main.rs:15 | the cursor starts at 0 |
| SingleExpr.CharParser.NextChar | src/main.rs:49-51 | the character at the cursor |
| SingleExpr.CharParser.Eof | src/main.rs:53-55 | true exactly when the cursor is at or past the end of the argument |
| SingleExpr.CharParser.ConsumeChar | src/main.rs:57-63 | returns the character at the cursor and advances by one |
| SingleExpr.CharParser.ConsumeWhile | src/main.rs:65-72 | consumes and returns the longest run from the cursor that satisfies the test; the cursor never moves back |
| SingleExpr.CharParser.ParseUint | src/main.rs:78-84 | consumes the maximal digit run and returns `UintAt`'s value or abort |
| SingleExpr.Compile | src/main.rs:15-38 | the printed lines and how the program ends are `Translate` of the argument |
| SingleExpr.Translate | src/main.rs:15-38 | every run starts with the four header lines; then the first number's `mov` and the loop's lines, or the abort right after the header |
| SingleExpr.TermsFrom | src/main.rs:23-38 | an unexpected character ends the run with its own message as the last line; each `+n`/`-n` gives one line, and the end of input gives `ret` |
| SingleExpr.TranslateLoop | src/main.rs:23-36 | the loop appends `TermsFrom` of the cursor to the lines printed so far |
| SingleExpr.UintOfNumeral | src/main.rs:78-84 | the decimal text of a u32 number, not followed by a digit, parses as that number |
| SingleExpr.UintTooLarge | src/main.rs:83 | a number above the u32 maximum aborts |
| SingleExpr.TermsOfRendered | src/main.rs:23-38 | the text of a sequence of `+n`/`-n` terms gives one `add`/`sub` line per term in order, then `ret` |
| SingleExpr.TranslateWellFormed | src/main.rs:15-38 | `n0 (op ni)*` translates to the header, `mov rax, n0`, one `add`/`sub` line per term, and `ret` |
| SingleExpr.TermsRet | src/main.rs:23-38 | `ret` is printed exactly when the input is read to its end; an unexpected character is the last line printed |
| SingleExpr.TranslateRet | src/main.rs:15-38 | the same for the whole translation |
| SingleExpr.MissingNumberAborts | src/main.rs:24-33 | a sign not followed by a digit aborts |
| SingleExpr.AddSubExample | src/main.rs:15-38 | `5+20-4` gives the header, `mov rax, 5`, `add rax, 20`, `sub rax, 4`, `ret` |
| SingleExpr.UnexpectedExample | src/main.rs:34-35 | `1*2` prints `unexpected char: *` after the `mov` and stops without `ret` |

## Left out

- Character positions: the source indexes a UTF-8 string by bytes. It advances by the width of a character, except past the last character, where it advances one byte whatever the width (src/tokenize.rs:129-135). The model's input is a sequence of characters and the cursor advances one character at a time. main.rs reads bytes of ASCII digits and operators only, so that part is not affected.
- Trailing multi-byte whitespace: input that ends in a whitespace character wider than one byte (U+00A0, for one) makes the source slice the string inside that character and abort (src/tokenize.rs:97). The model skips it and lexes the input.
- Files and standard output: `codegen` writes to a file and `gen.rs` and `main.rs` print. The model collects the same lines in a sequence. Opening and writing files, and errors when doing so, are not modelled.
- The argument-count check in `main` (src/main.rs:7-13): the model takes the one argument as a parameter.
- The diagnostics of `error_at` (src/tokenize.rs:203-212, src/parse.rs:174-177) and the panic messages: every abort is an error value naming its kind and position, not formatted text.
- Integer widths: the cursor, the parser's `offset` and `label_cnt` are `usize`, which the model treats as unbounded (`nat`). Overflow would need inputs far beyond any real size. The isize bound of number tokens and the u32 bound of `parse_uint` are modelled.
- Output written before an abort: `Gen.Program`, `CodegenSpec.Unit` and `Codegen.Codegen` return a bare failure, while gen.rs has already printed the prologue and the earlier statements (src/gen.rs:8-19), and codegen.rs has already written them to its output. For these two generators the model drops those lines. The single-expression compiler keeps the lines printed before its abort.
- The machine meaning of the emitted instructions: the model produces and compares text, and counts push and pop lines for stack balance.
- Code for parsed statements: the parser wraps every expression statement in `ExprStmt` and keeps the subtrees of `Block`, `For` and `FuncCall` inside the kind (src/parse.rs:254-256), but neither generator looks inside a kind for these nodes. As in the source, they fall into the operator branch with two empty operands, so their contents get no code (`CodegenProps.ExprStmtNotGenerated`, `Gen.GenExprStmtNotGenerated`). The balance and agreement results (`CodegenProps.StackStmtsBalanced`, `CodegenProps.UnitBalanced`, `Gen.GeneratorsAgree`) therefore concern units whose statements are bare expressions, not the trees the parser produces.
- Declarations (`declspec`, src/parse.rs:437-445) and the commented-out declarator: the parser never calls them.
- `consume_whitespace` (src/main.rs:74-76): nothing calls it.
- `Tokenize.Tokenizer.NextChar`, `Tokenize.Tokenizer.ReadChar`, `Tokenize.Tokenizer.ReadNChars`, `Parse.Parser.CurToken`, `Parse.Parser.ConsumeAny`, `SingleExpr.CharParser.NextChar` and `SingleExpr.CharParser.ConsumeChar` require a character or token at the cursor, where the source aborts on an empty remainder. Their callers establish this.
- `Tokenize.Tokenizer.ReadIdent` returns a failure without moving when the cursor is not at a letter or `_`, where the source panics. The main loop only calls it at a letter.
- Parse.Parser: the state after a failure is not specified; the source has aborted by then.
- The three source files come from different snapshots: `Lvar` and `Var` are one node, the tuple and struct forms of `If` are one node, and an identifier's name is the token's string.
- `gen.rs` has its own `gen_lval` (src/gen.rs:27-38), identical in text to the one of `codegen.rs`. The model has one definition, `CodegenSpec.GenLval`.
- Helper splits of the source's methods: `GenStmts`, `GenAssign`, `GenIfElse`, `GenArms`, `GenIfEnd`, `GenBinary` and `OutputOperator` are parts of `gen_expr`/`codegen`, and `TranslateLoop` is the loop of `main`. They exist to keep each proof small.
- The print-only `#[test]` functions (src/parse.rs:12-18, src/tokenize.rs:8-13) and the C helpers linked into test binaries (`link.c`): they are not compiler logic.
