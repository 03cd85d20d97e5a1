# A verified model of the calculator-language compiler

This project models the core of a small compiler for a calculator
language in Dafny and proves properties of the model. The language has:

- integer declarations (`int a, b = 5;`);
- plain and compound assignment (`=`, `+=`, `-=`, `*=`, `/=`, `%=`);
- arithmetic `+ - * / %` and `^` with a literal exponent;
- comparisons joined by `and` / `or`;
- `if` / `elif` / `else` and the pre-test loop `loopc`, each with a
  `begin ... end` block of assignments.

The model has four parts, file by file:

- **Lexer** (`tokens.dfy`, `lexer.dfy`).
  - Token kinds and `Token` with `is`/`isOneOf` (Lexer.h).
  - The character classes of `charinfo`.
  - A `Lexer` class with a cursor over a buffer. Its `Next` and
    `FormToken` methods are proved against a pure scanner function,
    `Scan`.
  - Properties of `Scan`: maximal munch, keyword classification,
    longest match for two-character operators, and progress. The tokens
    of a buffer, concatenated, are the buffer without its whitespace.
- **AST** (`ast.dfy`). The node classes of AST.h as datatypes. The
  visitor's `accept` dispatch becomes a `match` in the code generator.
- **Parser** (`grammar.dfy`, `printer.dfy`, `parser.dfy`).
  - `Grammar` states each production of parser.cpp as a function on the
    remaining token list.
  - The `Parser` class keeps the current token, the lexer and the
    `HasError` flag. Each of its parse methods is proved to return what
    the production returns and to leave exactly the tokens the
    production leaves. On failure it drains the input to end of input
    and sets `HasError` exactly when the production reports the error.
  - `Printer` prints any well-formed tree as tokens. It proves that
    parsing the printed tokens gives the tree back, for every level from
    a single operand to a whole program.
- **Code generation** (`ir.dfy`, `semantics.dfy`, `lowering.dfy`,
  `controlflow.dfy`, `runs.dfy`, `codegen.dfy`, `correctness.dfy`).
  - The IR is our own: numbered blocks of instructions with one
    terminator each, and a small-step machine over slots, registers and
    the list of written values.
  - `Semantics` gives the source language a meaning: a store, the list
    of values passed to `write`, and a fuel bound for loops.
  - `Lowering` and `ControlFlow` state what the visitor emits, as
    functions of its state.
  - The `ToIRVisitor` class (symbol table, insertion block, last value
    `V`) is proved to build exactly those blocks.
  - `Correctness` proves that the compiled program returns 0 having
    written exactly the values the source program writes, whenever the
    source program finishes.

Where the source does not compile or is plainly unfinished, the model
follows the evident intent. Each such place is noted in a comment at the
member and summarised under "Design notes" below. Where the code is
complete but wrong, both the code as written and the corrected version
are modelled; see "Findings".

## Model

| member | source | states |
|---|---|---|
| Tokens.Token.IsOneOf | Lexer.h:63-64 | the variadic `isOneOf` holds exactly when the token's kind is one of the listed kinds |
| Tokens.IsOneOfPair | Lexer.h:61-62 | the two-kind `isOneOf` is `is(K1) \|\| is(K2)`, which is the kind being K1 or K2, and agrees with the variadic form on two kinds |
| Lexer.CharClassesDisjoint | Lexer.cpp:4-14 | `isWhitespace` holds exactly for space, tab, form feed, vertical tab, CR and LF; `isDigit` exactly for `0`-`9`; no character is in two classes |
| Lexer.RunEnd | Lexer.cpp:27-29 | a run starting at p ends at the first position not in the class, or at the end of the buffer; every character before it is in the class |
| Lexer.SkipWhitespace | Lexer.cpp:18-20 | the skip stops at the first non-whitespace character, or at the end, having passed only whitespace |
| Lexer.KeywordKind | Lexer.cpp:30-50 | a letter run's kind is a keyword or `ident` |
| Lexer.KeywordClassification | Lexer.cpp:30-50 | a letter run is given keyword kind K exactly when it is spelled as K's keyword |
| Lexer.TwoCharKind | Lexer.cpp:85-120 | a two-character operator is one of `+= -= /= %= *= >= <= == !=` |
| Lexer.OneCharKindAsWritten | Lexer.cpp:121-155 | the active one-character chain as written; it never yields `eoi` |
| Lexer.PunctuationUnknownAsWritten | Lexer.cpp:121-155 | as written, `;`, `(`, `:` and `^` are scanned as `unknown` |
| Lexer.OneCharKind | Lexer.cpp:64-82 | the one-character table with the commented-out cases restored; it agrees with the active chain wherever that chain knows the character |
| Lexer.OneCharTable | Lexer.cpp:64-82 | exactly `+ - * / ( ) = : , ; ^ % > <` have a one-character kind, with `; , ( ) : ^` mapped to their punctuation kinds |
| Lexer.ScanOperator | Lexer.cpp:84-157 | an operator token takes one or two characters, and its text is exactly the characters it spans |
| Lexer.Scan | Lexer.cpp:17-159 | a token starts after the skipped whitespace, its text is exactly the characters it spans, it is `eoi` exactly at the end of the buffer, and any other token is non-empty |
| Lexer.ScanProgress | Lexer.cpp:17-165 | the cursor never moves back; a token other than `eoi` consumes at least one character and does not start with whitespace; `eoi` comes only when nothing but whitespace is left |
| Lexer.ScanWord | Lexer.cpp:27-52 | a letter starts a maximal run of letters without digits, classified by `KeywordKind`, and a keyword token is spelled as its keyword |
| Lexer.ScanNumber | Lexer.cpp:55-61 | a digit starts a maximal run of digits, which is one `number` token |
| Lexer.ScanOperatorLongestMatch | Lexer.cpp:85-155 | a two-character operator is taken whenever its two characters are present; otherwise the one-character kind is taken |
| Lexer.TokenStream | Lexer.cpp:17-165 | the token list of a buffer, read with `next` until `eoi`, holds no `eoi` |
| Lexer.TokenTextNoWhitespace | Lexer.cpp:18-20 | no token's text contains whitespace |
| Lexer.TokensCoverBuffer | Lexer.cpp:17-165 | the tokens' texts, concatenated, are the buffer with its whitespace removed: nothing is lost, duplicated or reordered |
| Lexer.Lexer.constructor | Lexer.h:72-75 | a fresh lexer has its cursor at the start of the buffer |
| Lexer.Lexer.Next | Lexer.cpp:17-159 | `next` returns the token `Scan` gives at the cursor and moves the cursor to that token's end |
| Lexer.Lexer.NextOperator | Lexer.cpp:84-157 | the operator chain returns the token `ScanOperator` gives and moves the cursor past it |
| Lexer.Lexer.FormToken | Lexer.cpp:161-165 | the token's text is exactly the buffer between the cursor and `TokEnd`, and the cursor moves to `TokEnd` |
| Lexer.RunFrom | Lexer.cpp:28-29 | the scanning loop stops where `RunEnd` says the run ends |
| Grammar.PFinal | parser.cpp:189-215 | an operand that succeeds consumes at least one token, so the recursive descent makes progress |
| Grammar.PIdents | parser.cpp:87-94 | the names after the first are appended in source order after those already read |
| Grammar.PDec | parser.cpp:71-110 | a successful declaration has at least one name and consumes its tokens |
| Grammar.PStmts | parser.cpp:12-66 | the statement loop, when it succeeds, stops only at end of input |
| Grammar.PGoal | parser.cpp:9-69 | a successful parse of a program leaves only end of input |
| Grammar.LoopBodyAsWritten | parser.cpp:389-403 | the body loop of `parseLoop` as written: it reads nothing before an identifier and never ends before anything else |
| Printer.ParsePrintedExpr | parser.cpp:156-215 | a printed expression parses back to the same tree, so `+ -` and `* / %` are left-associative with `* / %` binding tighter, and a parenthesised expression reads as its inside |
| Printer.MinusGroupsLeft | parser.cpp:156-167 | `a - b - c` parses as `(a - b) - c` |
| Printer.TimesBindsTighter | parser.cpp:156-187 | `a + b * c` parses as `a + (b * c)` and `a * b + c` as `(a * b) + c` |
| Printer.ParsePrintedConds | parser.cpp:327-365 | a printed chain of comparisons joined by `and`/`or` parses back to the same tree |
| Printer.ConditionsChainLeft | parser.cpp:327-338 | `p and q or r` parses as `(p and q) or r`: no precedence between `and` and `or` |
| Printer.PrintedComparison | parser.cpp:341-365 | a comparison is an expression, one of the six relational operators and an expression |
| Printer.PrintedEquation | parser.cpp:112-154 | an assignment is a name, one of the six assignment operators, an expression and `;` |
| Printer.PrintedEquations | parser.cpp:389-403 | the block loop reads every equation, in order, up to the first token that is not an identifier |
| Printer.PrintedBlock | parser.cpp:233-244 | a `begin ... end` block parses back to its equations |
| Printer.PrintedElif | parser.cpp:261-294 | an `elif` clause parses back to its condition and block |
| Printer.PrintedElifs | parser.cpp:246-250 | the elif loop collects the clauses in source order |
| Printer.PrintedElse | parser.cpp:296-325 | an `else` clause parses back to its block |
| Printer.PrintedIf | parser.cpp:221-257 | an `if` with its elifs and optional else parses back to the same statement |
| Printer.PrintedLoop | parser.cpp:367-408 | a `loopc` statement parses back to its condition and body |
| Printer.PrintedDeclaration | parser.cpp:71-110 | a declaration parses back to its names, in source order, and its optional initializer |
| Printer.PrintedStmt | parser.cpp:14-63 | every statement form parses back to itself, chosen by its leading token |
| Printer.PrintedStmts | parser.cpp:12-66 | the statement loop collects the statements in source order |
| Printer.ParsePrint | parser.cpp:3-69 | parsing a printed program gives the program back and consumes all of it |
| Printer.LoopBodyAsWrittenCounterexample | parser.cpp:389-403 | as written, a loop body `x = 1 ; end` yields no equation, where the intended loop reads `[x = 1]` and stops at `end` |
| Parser.ScanStep | parser.h:18 | the token list from the cursor is the token at the cursor followed by the list from its end; after `eoi` nothing is left |
| Parser.Parser.constructor | parser.h:56 | a new parser has `HasError` false and the first token loaded; what is left to read is the buffer's whole token list |
| Parser.Parser.Error | parser.h:13-17 | `error` sets `HasError` and moves nothing |
| Parser.Parser.Advance | parser.h:18 | `advance` moves exactly one token and leaves `HasError` unchanged |
| Parser.Parser.Expect | parser.h:20-28 | `expect(K)` returns false and changes nothing when the kind is K; otherwise it returns true and sets `HasError`; it never moves |
| Parser.Parser.Consume | parser.h:30-36 | `consume(K)` moves exactly one token when the kind is K and reports failure otherwise, setting `HasError` then |
| Parser.Parser.Drain | parser.cpp:106-109 | the `_error` exit discards every token up to end of input and leaves `eoi` current |
| Parser.Parser.ParseFinal | parser.cpp:189-215 | `parseFinal` returns what `PFinal` returns and leaves what it leaves; on failure it drains and sets `HasError` as reported |
| Parser.Parser.ParseFactor | parser.h:44 | the power level follows `PFactor` in the same sense |
| Parser.Parser.ParseTerm | parser.cpp:169-187 | `parseTerm` follows `PTerm`: left-associative `* / %` |
| Parser.Parser.ParseExpr | parser.cpp:156-167 | `parseExpr` follows `PExpr`: left-associative `+ -` |
| Parser.Parser.ParseCondition | parser.cpp:341-365 | `parseCondition` follows `PCond` |
| Parser.Parser.ParseConditions | parser.cpp:327-338 | `parseConditions` follows `PConds`: `and`/`or` chained left to right |
| Parser.Parser.ParseEquation | parser.cpp:112-154 | `parseEquation` follows `PEquation` |
| Parser.Parser.ParseEquations | parser.cpp:389-403 | the block loop follows `PEquations` |
| Parser.Parser.ParseBlock | parser.cpp:233-244 | `begin` equations `end` follows `PBlock` |
| Parser.Parser.ParseElif | parser.cpp:261-294 | `parseElif` follows `PElif` |
| Parser.Parser.ParseElse | parser.cpp:296-325 | `parseElse` follows `PElse` |
| Parser.Parser.ParseIf | parser.cpp:221-257 | `parseIf` follows `PIf` |
| Parser.Parser.ParseIfTail | parser.cpp:246-256 | the elifs and the optional else follow `PIfTail` |
| Parser.Parser.ParseLoop | parser.cpp:367-408 | `parseLoop` follows `PLoop` |
| Parser.Parser.ParseDec | parser.cpp:71-110 | `parseDec` follows `PDec` |
| Parser.Parser.ParseMoreNames | parser.cpp:87-94 | the name loop follows `PIdents` |
| Parser.Parser.ParseStmt | parser.cpp:14-63 | the statement switch follows `PStmt` |
| Parser.Parser.ParseGoal | parser.cpp:9-69 | `parseGoal` follows `PGoal` |
| Parser.Parser.Parse | parser.cpp:3-7 | `parse` follows `PGoal` |
| IR.TruncDivision | CodeGen.cpp:159-165 | `sdiv`/`srem` truncate toward zero: the quotient and remainder recompose the dividend, the remainder is smaller than the divisor and has the dividend's sign |
| IR.Evaluate | CodeGen.cpp:146-166 | an operation faults exactly when it is `sdiv` or `srem` by zero |
| Semantics.DecimalRoundTrip | CodeGen.cpp:131 | the decimal text of n reads back as n (the value `getAsInteger` gives a number token) |
| Lowering.PowCodeAsWritten | CodeGen.cpp:176-180 | the loop as written emits exactly k multiplications |
| Lowering.PowCode | CodeGen.cpp:172-181 | exponent k gives exactly k instructions and uses exactly k fresh values |
| Lowering.PowCodeMuls | CodeGen.cpp:176-179 | the i-th of those k instructions is a `mul` of the running product by the once-evaluated base into the i-th fresh value |
| Lowering.PowCorrect | CodeGen.cpp:167-181 | `^` with literal exponent k computes b to the power k: 1 for k = 0, otherwise the running product of k factors |
| Lowering.PowAsWrittenGivesBase | CodeGen.cpp:176-180 | as written, `b ^ k` with k > 0 computes b |
| Lowering.PowAsWrittenCounterexample | CodeGen.cpp:176-180 | as written, `2 ^ 3` computes 2, not 8 |
| Lowering.ExprCodeCorrect | CodeGen.cpp:120-184 | an expression's code computes the expression's value: left operand first, `Plus/Minus/Mul/Div/Mod` as add/sub/mul/sdiv/srem; it faults exactly where the expression has no value |
| Lowering.ComparisonCorrect | CodeGen.cpp:275-292 | a comparison's code computes 1 or 0 as the comparison holds |
| Lowering.CondCodeCorrect | CodeGen.cpp:275-292 | a condition's code computes its truth as 1 or 0, evaluating both sides of `and`/`or` (no short circuit) and combining them bitwise |
| Lowering.StoreBackRuns | CodeGen.cpp:76-116 | a compound assignment loads the slot, applies the operation with the rhs, stores the result to the same slot and writes it |
| Lowering.StoreBackAsWrittenRuns | CodeGen.cpp:76-116 | as written, plain `=` stores back the value the slot already held and writes that |
| Lowering.EquationCodeCorrect | CodeGen.cpp:70-117 | an assignment's code changes the target's slot to the assigned value, writes exactly that value once, and faults exactly when the assignment does |
| Lowering.PlainAssignAsWrittenKeepsOld | CodeGen.cpp:76-107 | as written, `x = e` leaves x's slot holding x's old value |
| Lowering.PlainAssignAsWrittenCounterexample | CodeGen.cpp:76-107 | as written, `x = 5` with x = 7 leaves 7, where the language gives 5 |
| Lowering.BoundNames | CodeGen.cpp:250-271 | after a declaration the symbol table holds the old names plus the declared ones, each declared name at a new slot |
| Lowering.SlotsCodeCorrect | CodeGen.cpp:250-271 | one slot per declared name, each holding the shared initial value, with slots kept distinct |
| Lowering.DeclCodeCorrect | CodeGen.cpp:248-273 | a declaration evaluates its initializer once and stores it into every new slot, or allocates without a store when there is none; it faults exactly when the initializer does |
| Lowering.EquationsCodeCorrect | CodeGen.cpp:198-202 | a block's code runs its assignments in order, with the same effect as the source block |
| ControlFlow.EquationsGen | CodeGen.cpp:198-202 | a block of assignments adds no block and stays in the insertion block |
| ControlFlow.DeclGen | CodeGen.cpp:248-273 | a declaration registers exactly its names in `nameMap` and stays in the insertion block |
| ControlFlow.LoopGen | CodeGen.cpp:186-205 | a loop adds exactly three blocks and leaves the insertion point at the last |
| ControlFlow.LoopShape | CodeGen.cpp:186-205 | the insertion block branches to `loopc.cond`; that block branches to `loopc.body` on true and `after.loopc` on false; the body branches back; code continues in `after.loopc`; nothing else changes |
| ControlFlow.IfGen | CodeGen.cpp:207-245 | an `if` adds at least three blocks and leaves the insertion point at its merge block |
| ControlFlow.IfShape | CodeGen.cpp:207-227 | the condition ends the insertion block with a branch to `then` or `else`, and `then` holds the then-body and branches to `merge` |
| ControlFlow.IfGrows | CodeGen.cpp:207-245 | after an `if` every block except the merge block ends with a branch to a block that exists, and no earlier block changes except the sealed insertion block |
| ControlFlow.ElifShape | CodeGen.cpp:231-234 | an `elif` tests its condition in the current else block and branches to a new then-block, which branches to the merge block, or to a new else block |
| ControlFlow.ElifsGrows | CodeGen.cpp:229-234 | a chain of elifs keeps every block but the current one and the merge block sealed, and leaves the merge block as it was |
| ControlFlow.IfGenAsWritten | CodeGen.cpp:236-244 | the `if` lowering as written, with the else body emitted after moving to the merge block |
| ControlFlow.ElseInMergeAsWritten | CodeGen.cpp:236-244 | as written, the else block branches straight to `merge`, and the else body lands in `merge`, which runs on both paths |
| ControlFlow.ElseInElseBlock | CodeGen.cpp:236-244 | corrected, the else body sits in the else block, which then branches to `merge`, and `merge` starts empty |
| ControlFlow.StmtsGrows | CodeGen.cpp:61-68 | the statements, in order, keep every finished block sealed with branches to blocks that exist |
| ControlFlow.CompileWellFormed | CodeGen.cpp:43-58 | the compiled `main` starts at its `entry` block, every block ends in a terminator, and every branch names a block of the function |
| CodeGen.ToIRVisitor.constructor | CodeGen.cpp:30-40 | a fresh visitor has no blocks, an empty `nameMap` and no values |
| CodeGen.ToIRVisitor.VisitFinal | CodeGen.cpp:120-134 | a name loads its slot, a number becomes a constant; `V` is the value and the code is `ExprCode`'s |
| CodeGen.ToIRVisitor.VisitBinaryOp | CodeGen.cpp:136-184 | both operands, left first, then the operation; `V` and the emitted code are `ExprCode`'s |
| CodeGen.ToIRVisitor.VisitPow | CodeGen.cpp:167-181 | the loop runs k times, each round multiplying the running product (starting at 1) by the base, and leaves the product in `V`, exactly `PowCode`'s instructions |
| CodeGen.ToIRVisitor.VisitExpr | CodeGen.cpp:120-184 | the expression visitor emits `ExprCode` at the insertion point and sets `V` to its value |
| CodeGen.ToIRVisitor.VisitCondition | CodeGen.cpp:275-292 | a comparison emits both sides and an `icmp`, as `CondCode` |
| CodeGen.ToIRVisitor.VisitC | CodeGen.cpp:275-292 | `and`/`or` emit both sides and a bitwise `and`/`or`, as `CondCode` |
| CodeGen.ToIRVisitor.VisitCond | CodeGen.cpp:275-292 | the condition visitor emits `CondCode` and sets `V` to its value |
| CodeGen.ToIRVisitor.VisitEquation | CodeGen.cpp:70-117 | an assignment emits `EquationCode` at the insertion point |
| CodeGen.ToIRVisitor.VisitEquations | CodeGen.cpp:198-202 | the loop over a block's equations builds `EquationsGen` |
| CodeGen.ToIRVisitor.VisitDeclaration | CodeGen.cpp:248-273 | the loop over the names builds `DeclGen`: one slot and one store per name, registered in `nameMap` |
| CodeGen.ToIRVisitor.VisitLoop | CodeGen.cpp:186-205 | the loop visitor builds `LoopGen` |
| CodeGen.ToIRVisitor.VisitIfHead | CodeGen.cpp:207-227 | the condition, the three blocks and the then-block, as `IfHead` |
| CodeGen.ToIRVisitor.VisitElif | CodeGen.cpp:231-234 | one elif builds `ElifGen` |
| CodeGen.ToIRVisitor.VisitElifs | CodeGen.cpp:229-234 | the elif loop builds `ElifsGen` |
| CodeGen.ToIRVisitor.VisitChain | CodeGen.cpp:229-244 | the elifs and the else body build `ChainGen` |
| CodeGen.ToIRVisitor.VisitIf | CodeGen.cpp:207-245 | the `if` visitor builds `IfGen` |
| CodeGen.ToIRVisitor.VisitStmt | AST.h:75-78 | `accept` dispatches on the node's kind to its visitor, building `StmtGen` |
| CodeGen.ToIRVisitor.VisitGoal | CodeGen.cpp:61-68 | the statements are visited in order, building `StmtsGen` |
| CodeGen.ToIRVisitor.Run | CodeGen.cpp:43-58 | `run` builds exactly `Compile(goal)`: an `entry` block, the program, and `ret 0` |
| Correctness.LoopSim | CodeGen.cpp:186-205 | running a loop's blocks from the insertion block reaches `after.loopc` with the slots and output the source loop gives |
| Correctness.IfSim | CodeGen.cpp:207-245 | running an `if`'s blocks reaches the merge block with the effect of the branch the source takes |
| Correctness.ChainSim | CodeGen.cpp:229-244 | the elif chain runs the first clause whose condition holds, or the else body, and reaches the merge block |
| Correctness.StmtsSim | CodeGen.cpp:61-68 | running the statements' blocks gives the effect of the statements in order |
| Correctness.CompileCorrect | CodeGen.cpp:43-68 | the compiled program, started at `entry` with no slots, returns 0 having written exactly the values the source program writes, whenever the source program finishes |

## Left out

- I/O and the runtime library (rtmain.c): `write` is an abstract call
  instruction that appends its argument to the list of written values,
  and `read` is not used by the core.
- `CodeGen::compile` (CodeGen.cpp:296-308): it creates an LLVM context and
  module and prints the module. This is library plumbing.
- LLVM itself: `IRBuilder`, `Function::Create`, `BasicBlock::Create`, the
  pointer types and the `main(argc, argv)` signature. The IR here is a
  small datatype of blocks, instructions and terminators.
- Diagnostics printed to `llvm::errs`. Only the `HasError` flag and the
  failure result are modelled.
- 32-bit arithmetic: values are unbounded integers. `nsw` overflow and its
  poison semantics are not modelled, and neither is the range of
  `getAsInteger`.
- `alloca` without a store gives an undefined value in LLVM; here a fresh
  slot holds 0.
- Raw-pointer ownership and NUL-terminated buffer arithmetic in the
  lexer. The buffer is a sequence with an index cursor.
- The pieces of parser.h that are declared but not defined (`parseOperator`,
  `parseId`, `parseNum`, `parseC` and the rest).
- Correctness.CompileCorrect: it says nothing about programs that fault
  (division by zero, a name read before it has a value) or do not finish
  within the fuel bound. The fuel bounds the rounds of each loop.
- CodeGen.ToIRVisitor.Run: it requires every name a statement reads or
  assigns to be declared before it, and every `^` to have a literal
  exponent. The source indexes `nameMap` unchecked and casts the exponent
  to `Final`, which is undefined behaviour otherwise.

## Findings

| source | as written | input that shows it | evidently intended | confidence | as-written member | corrected member |
|---|---|---|---|---|---|---|
| Lexer.cpp:121-155 | the active one-character chain has no case for `^ ( ) , ; :`, so they become `unknown` | `x = (1);` scans `(` and `;` as `unknown` | the commented-out table at Lexer.cpp:64-82 maps them to their punctuation kinds | high, not executed | Lexer.PunctuationUnknownAsWritten | Lexer.OneCharTable |
| CodeGen.cpp:176-180 | the loop computes `Left * Left` k times, discarding each product, then sets `V = Left` | `2 ^ 3` computes 2 | the running product, giving `left ^ k` | high, not executed | Lowering.PowAsWrittenCounterexample | Lowering.PowCorrect |
| CodeGen.cpp:76-107 | for plain `=` the switch leaves the loaded old value in `varValue`, which is what is stored | `x = 5` with x = 7 leaves 7 | store the rhs, as the comment at CodeGen.cpp:81-84 says | high, not executed | Lowering.PlainAssignAsWrittenCounterexample | Lowering.EquationCodeCorrect |
| CodeGen.cpp:236-244 | the else block branches straight to `merge`, and the else body is emitted after moving to `merge` | `if x > 0: begin end else: begin y = 1; end` sets y on both paths | the else body in the else block, before its branch to `merge` | high, not executed | ControlFlow.ElseInMergeAsWritten | ControlFlow.ElseInElseBlock |
| parser.cpp:389-403 | the body loop runs while the token is not an identifier and acts only on an identifier, so it never moves | a loop body `x = 1;` yields no equation; a body starting with `end` never ends | read equations while the token is an identifier | high, not executed | Printer.LoopBodyAsWrittenCounterexample | Printer.PrintedEquations |

## Design notes

Places where the source does not compile or is unfinished, and the reading
chosen here:

- Names. The source mixes `Factor`/`Final`, `parseFactor`/`parseFinal`,
  `Token::num`/`Token::id` with `number`/`ident`, and `KW_colon`/`KW_mod`/
  `KW_EqEq` with the kinds Lexer.h declares. The model uses one set of names.
- `next` tests `!BufferPtr` (Lexer.cpp:22), the cursor itself rather than
  the character under it. The model tests for the end of the buffer. An `eoi` token has
  empty text, and an `unknown` token spans one character (the source
  leaves the length unset).
- `parseFactor` is declared and called but never defined. It is read as
  the power level: an operand, optionally followed by `^` and a number.
- `parseEquation`'s operator loop never advances and mixes arithmetic and
  assignment kinds. The model reads one assignment operator. Every
  statement production consumes its own terminator, so `parseGoal` does
  not advance between statements (the `advance()` at parser.cpp:65 would
  skip a token after an `if` or a loop).
- `parseDec`'s opening checks are garbled and its result is commented out.
  The model follows the grammar its comments describe.
- `parseIf` and `parseElif` parse the conditions before checking their
  keyword; the model checks the keyword first. `parseIf` reads its else
  clause with `parseElif`; the model uses `parseElse`. `parseElse` omits
  the `begin` check that the other blocks make; the model restores it.
- `parseLoop` advances once more after the conditions (parser.cpp:375),
  which would skip the colon, and never checks `end`. The model makes no
  extra advance and expects `end`.
- A missing `)` in `parseFinal` is reported, but the inner expression is
  returned. The model fails there, since the unit is rejected anyway.
- On any other mismatch `parseFinal` reports, skips to one of
  `) * + - / eoi` and returns null (parser.cpp:206-212). `parseTerm` and
  `parseExpr` (parser.cpp:156-187) never test for null and go on building
  operator nodes over it. The model replaces this skip-and-continue
  recovery with the panic-mode exit the statements use: the operand fails,
  and the parser reports, drains to `eoi` and rejects the unit. The end
  state the driver sees is the same: the error flag set and no tree.
- `parseCondition` (parser.cpp:341-365) loops while it sees a relational
  operator, building `Condition` nodes left to right, and returns the bare
  left `Expr` as a `Condition *` when there is none. A `Condition` node has
  one operator and two expression operands (AST.h:216-242), so the model reads
  exactly one relational operator and reports a condition without one.
- CodeGen.cpp has no `visit(Condition &)`. The only condition visitor is
  `visit(C &)` (CodeGen.cpp:275-292), which combines two sub-conditions
  with `and`/`or`. The model adds the comparison lowering the language
  needs: both operands, then a signed `icmp` for the relational operator
  (`Lowering.PredOf`, `CodeGen.ToIRVisitor.VisitCondition`). The Model rows
  for it cite the `C` visitor's lines, the nearest code there is.
- The source has no visitor for `Elif` (CodeGen.cpp:231-234 calls one).
  The model lowers each elif in the else block of the clause before it.
- The `write` call passes an undeclared `val` (CodeGen.cpp:116). The model
  writes the stored value.
