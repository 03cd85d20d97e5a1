// The recursive-descent grammar of parser.cpp, as functions over the token
// list the scanner produces.
//
// Each production reads a prefix of the remaining tokens `ts` with one token
// of lookahead and either succeeds with a node and the tokens after it, or
// fails. A failure records whether the production reported it through
// `error()` (which sets `HasError`): a few checks in the source jump to the
// error exit without reporting. What the source does after a failure
// (discard every token up to end of input) is the Parser class's business;
// here a failure simply propagates.
//
// The source does not compile as it stands, and several productions are
// visibly unfinished. Where this grammar departs from the letter of
// parser.cpp to follow its evident intent, the comment on the production
// says so.

module Grammar {
  import opened Wrappers
  import opened Tokens
  import AST

  /** The outcome of a production: the node and the tokens left after it,
      or a failure. */
  datatype Parsed<T> = Ok(value: T, rest: seq<Token>) | Fail(reported: bool)

  /** The kind of the current token; with no tokens left, end of input. */
  function Kind(ts: seq<Token>): TokenKind {
    if ts == [] then Eoi else ts[0].kind
  }

  /** A production that succeeds consumed at least one token. */
  predicate Advances<T>(r: Parsed<T>, ts: seq<Token>) {
    r.Ok? ==> |r.rest| < |ts|
  }

  /** A loop that succeeds consumed zero or more tokens. */
  predicate Stays<T>(r: Parsed<T>, ts: seq<Token>) {
    r.Ok? ==> |r.rest| <= |ts|
  }

  // ---------------------------------------------------------------------
  // Operator tokens
  // ---------------------------------------------------------------------

  /** The additive operators that continue an expression (parser.cpp:159-161). */
  function AddOp(k: TokenKind): Option<AST.BinOp> {
    if k == Plus then Some(AST.Plus)
    else if k == Minus then Some(AST.Minus)
    else None
  }

  /** The multiplicative operators that continue a term (parser.cpp:172-181):
      `*`, `/` and `%` (the source's `KW_mod` is the `percent` kind). */
  function MulOp(k: TokenKind): Option<AST.BinOp> {
    if k == Star then Some(AST.Mul)
    else if k == Slash then Some(AST.Div)
    else if k == Percent then Some(AST.Mod)
    else None
  }

  /** The six relational operators (parser.cpp:343-356). */
  function RelOpOf(k: TokenKind): Option<AST.RelOp> {
    if k == EqualEqual then Some(AST.EqualEqual)
    else if k == NotEqual then Some(AST.NotEqual)
    else if k == GreaterEqual then Some(AST.GreaterEqual)
    else if k == LessEqual then Some(AST.LessEqual)
    else if k == Less then Some(AST.Less)
    else if k == Greater then Some(AST.Greater)
    else None
  }

  /** The logical connectives (parser.cpp:330-332). */
  function LogicOpOf(k: TokenKind): Option<AST.LogicOp> {
    if k == KwAnd then Some(AST.And)
    else if k == KwOr then Some(AST.Or)
    else None
  }

  /** The six assignment operators (parser.cpp:120-146, restricted to the
      `Equation::Operator` set of AST.h:165-173). */
  function AssignOpOf(k: TokenKind): Option<AST.AssignOp> {
    if k == Equal then Some(AST.Equal)
    else if k == PlusEqual then Some(AST.PlusEqual)
    else if k == MinusEqual then Some(AST.MinusEqual)
    else if k == StarEqual then Some(AST.StarEqual)
    else if k == SlashEqual then Some(AST.SlashEqual)
    else if k == PercentEqual then Some(AST.PercentEqual)
    else None
  }

  // ---------------------------------------------------------------------
  // Expressions
  // ---------------------------------------------------------------------

  /** `parseFinal` (parser.cpp:189-215): a number, an identifier, or a
      parenthesised expression that must be closed by `)`. On a mismatch the
      source reports, skips to a token that may follow an operand and
      returns null, and its callers `parseTerm` and `parseExpr`
      (parser.cpp:156-187) go on parsing over the null operand. Here the
      operand fails at once and the failure reaches the statement's error
      exit; either way the error is reported and the unit is rejected. The
      source leaves a missing `)` reported but returns the inner expression;
      here that fails too. */
  function PFinal(ts: seq<Token>): (r: Parsed<AST.Expr>)
    ensures Advances(r, ts)
    decreases |ts|, 0
  {
    if Kind(ts) == Number then Ok(AST.Final(AST.Num, ts[0].text), ts[1..])
    else if Kind(ts) == Ident then Ok(AST.Final(AST.Id, ts[0].text), ts[1..])
    else if Kind(ts) == LParen then
      match PExpr(ts[1..])
      case Fail(rep) => Fail(rep)
      case Ok(e, rest) => if Kind(rest) == RParen then Ok(e, rest[1..]) else Fail(true)
    else Fail(true)
  }

  /** `parseFactor`: declared in parser.h:44 and called by `parseTerm`, but
      never defined. It is read here as the power level: an operand,
      optionally followed by `^` and an integer literal, which is the only
      exponent `BinaryOp::Pow` is lowered for. */
  function PFactor(ts: seq<Token>): (r: Parsed<AST.Expr>)
    ensures Advances(r, ts)
    decreases |ts|, 1
  {
    match PFinal(ts)
    case Fail(rep) => Fail(rep)
    case Ok(base, rest) =>
      if Kind(rest) != Power then Ok(base, rest)
      else if Kind(rest[1..]) == Number then
        Ok(AST.BinaryOp(AST.Pow, base, AST.Final(AST.Num, rest[1].text)), rest[2..])
      else Fail(true)
  }

  /** `parseTerm` (parser.cpp:169-187): factors joined by `*`, `/`, `%`. */
  function PTerm(ts: seq<Token>): (r: Parsed<AST.Expr>)
    ensures Advances(r, ts)
    decreases |ts|, 2
  {
    match PFactor(ts)
    case Fail(rep) => Fail(rep)
    case Ok(left, rest) => PTermTail(rest, left)
  }

  /** The loop of `parseTerm`: fold further factors into `left`, left to
      right. */
  function PTermTail(ts: seq<Token>, left: AST.Expr): (r: Parsed<AST.Expr>)
    ensures Stays(r, ts)
    decreases |ts|, 4
  {
    match MulOp(Kind(ts))
    case None => Ok(left, ts)
    case Some(op) =>
      (match PFactor(ts[1..])
       case Fail(rep) => Fail(rep)
       case Ok(right, rest) => PTermTail(rest, AST.BinaryOp(op, left, right)))
  }

  /** `parseExpr` (parser.cpp:156-167): terms joined by `+`, `-`. */
  function PExpr(ts: seq<Token>): (r: Parsed<AST.Expr>)
    ensures Advances(r, ts)
    decreases |ts|, 3
  {
    match PTerm(ts)
    case Fail(rep) => Fail(rep)
    case Ok(left, rest) => PExprTail(rest, left)
  }

  /** The loop of `parseExpr`: fold further terms into `left`, left to
      right. */
  function PExprTail(ts: seq<Token>, left: AST.Expr): (r: Parsed<AST.Expr>)
    ensures Stays(r, ts)
    decreases |ts|, 4
  {
    match AddOp(Kind(ts))
    case None => Ok(left, ts)
    case Some(op) =>
      (match PTerm(ts[1..])
       case Fail(rep) => Fail(rep)
       case Ok(right, rest) => PExprTail(rest, AST.BinaryOp(op, left, right)))
  }

  // ---------------------------------------------------------------------
  // Conditions
  // ---------------------------------------------------------------------

  /** `parseCondition` (parser.cpp:341-365): an expression, one relational
      operator and an expression. The source loops while it sees a
      relational operator and returns the bare expression when there is
      none; the grammar asks for exactly one, so a missing one is reported. */
  function PCond(ts: seq<Token>): (r: Parsed<AST.Cond>)
    ensures Advances(r, ts)
  {
    match PExpr(ts)
    case Fail(rep) => Fail(rep)
    case Ok(left, rest) =>
      match RelOpOf(Kind(rest))
      case None => Fail(true)
      case Some(rel) =>
        match PExpr(rest[1..])
        case Fail(rep) => Fail(rep)
        case Ok(right, rest') => Ok(AST.Condition(left, rel, right), rest')
  }

  /** `parseConditions` (parser.cpp:327-338): conditions joined by `and` /
      `or`, left to right, with no precedence between the two. */
  function PConds(ts: seq<Token>): (r: Parsed<AST.Cond>)
    ensures Advances(r, ts)
  {
    match PCond(ts)
    case Fail(rep) => Fail(rep)
    case Ok(left, rest) => PCondsTail(rest, left)
  }

  function PCondsTail(ts: seq<Token>, left: AST.Cond): (r: Parsed<AST.Cond>)
    ensures Stays(r, ts)
    decreases |ts|
  {
    match LogicOpOf(Kind(ts))
    case None => Ok(left, ts)
    case Some(op) =>
      match PCond(ts[1..])
      case Fail(rep) => Fail(rep)
      case Ok(right, rest) => PCondsTail(rest, AST.C(op, left, right))
  }

  // ---------------------------------------------------------------------
  // Statements
  // ---------------------------------------------------------------------

  /** `parseEquation` (parser.cpp:112-154): identifier, one assignment
      operator, expression, `;`. The source's operator loop never advances
      and mixes arithmetic and assignment kinds; the grammar takes one
      assignment operator and reports anything else. The production consumes
      its `;`, so that a block's loop sees the next statement. */
  function PEquation(ts: seq<Token>): (r: Parsed<AST.Equation>)
    ensures Advances(r, ts)
  {
    if Kind(ts) != Ident then Fail(false)
    else
      match AssignOpOf(Kind(ts[1..]))
      case None => Fail(true)
      case Some(op) =>
        match PExpr(ts[2..])
        case Fail(rep) => Fail(rep)
        case Ok(e, rest) =>
          if Kind(rest) == Semicolon then Ok(AST.Equation(ts[0].text, e, op), rest[1..])
          else Fail(true)
  }

  /** The block loop `while (Tok.is(id)) parseEquation()` of parseIf,
      parseElif, parseElse and parseLoop; `acc` holds the equations already
      read. (parser.cpp:389 tests the inverted condition; the loop as
      intended runs while the current token is an identifier.) */
  function PEquations(ts: seq<Token>, acc: seq<AST.Equation>): (r: Parsed<seq<AST.Equation>>)
    ensures Stays(r, ts)
    decreases |ts|
  {
    if Kind(ts) != Ident then Ok(acc, ts)
    else
      match PEquation(ts)
      case Fail(rep) => Fail(rep)
      case Ok(eq, rest) => PEquations(rest, acc + [eq])
  }

  /** The body loop of parseLoop as parser.cpp:389-403 writes it: it runs
      while the current token is NOT an identifier, and its body acts only
      on an identifier, so it never moves the cursor. Before an identifier
      it reads no equation at all; before anything else it never ends,
      which `None` stands for here. */
  function LoopBodyAsWritten(ts: seq<Token>): (r: Option<seq<AST.Equation>>)
    ensures r.Some? <==> Kind(ts) == Ident
    ensures r.Some? ==> r.value == []
  {
    if Kind(ts) == Ident then Some([]) else None
  }

  /** `begin` equations `end`, the block of every compound statement. The
      source writes the check of `begin`, the loop and the check of `end` out
      in each of parseIf, parseElif, parseElse and parseLoop. */
  function PBlock(ts: seq<Token>): (r: Parsed<seq<AST.Equation>>)
    ensures Advances(r, ts)
  {
    if Kind(ts) != KwBegin then Fail(true)
    else
      match PEquations(ts[1..], [])
      case Fail(rep) => Fail(rep)
      case Ok(eqs, rest) =>
        if Kind(rest) != KwEnd then Fail(true) else Ok(eqs, rest[1..])
  }

  /** `parseElif` (parser.cpp:261-294): `elif` Conds `:` block. The source
      parses the conditions before checking `elif`; here the keyword comes
      first, as in the text. */
  function PElif(ts: seq<Token>): (r: Parsed<AST.Elif>)
    ensures Advances(r, ts)
  {
    if Kind(ts) != KwElif then Fail(true)
    else
      match PConds(ts[1..])
      case Fail(rep) => Fail(rep)
      case Ok(c, rest) =>
        if Kind(rest) != Colon then Fail(true)
        else
          match PBlock(rest[1..])
          case Fail(rep) => Fail(rep)
          case Ok(eqs, rest') => Ok(AST.Elif(c, eqs), rest')
  }

  /** The elif loop of parseIf (parser.cpp:246-250). */
  function PElifs(ts: seq<Token>, acc: seq<AST.Elif>): (r: Parsed<seq<AST.Elif>>)
    ensures Stays(r, ts)
    decreases |ts|
  {
    if Kind(ts) != KwElif then Ok(acc, ts)
    else
      match PElif(ts)
      case Fail(rep) => Fail(rep)
      case Ok(e, rest) => PElifs(rest, acc + [e])
  }

  /** `parseElse` (parser.cpp:296-325): `else` `:` block. The source omits
      the `begin` check that parseIf and parseElif make; it is restored here,
      as the language has one block form. */
  function PElse(ts: seq<Token>): (r: Parsed<AST.Else>)
    ensures Advances(r, ts)
  {
    if Kind(ts) != KwElse then Fail(true)
    else if Kind(ts[1..]) != Colon then Fail(true)
    else
      match PBlock(ts[2..])
      case Fail(rep) => Fail(rep)
      case Ok(eqs, rest) => Ok(AST.Else(eqs), rest)
  }

  /** `parseIf` (parser.cpp:221-257): `if` Conds `:` block, then any number
      of elifs and an optional else. The source parses the conditions before
      checking `if` and parses the else clause with parseElif; here the
      keyword comes first and the else clause is read by its own
      production. */
  function PIf(ts: seq<Token>): (r: Parsed<AST.Stmt>)
    ensures Advances(r, ts)
  {
    if Kind(ts) != KwIf then Fail(true)
    else
      match PConds(ts[1..])
      case Fail(rep) => Fail(rep)
      case Ok(c, rest) =>
        if Kind(rest) != Colon then Fail(true)
        else
          match PBlock(rest[1..])
          case Fail(rep) => Fail(rep)
          case Ok(eqs, rest') => PIfTail(rest', c, eqs)
  }

  /** The rest of parseIf after the then-block (parser.cpp:246-256): the
      elifs, then the else clause if `else` follows. */
  function PIfTail(ts: seq<Token>, c: AST.Cond, body: seq<AST.Equation>): (r: Parsed<AST.Stmt>)
    ensures Stays(r, ts)
  {
    match PElifs(ts, [])
    case Fail(rep) => Fail(rep)
    case Ok(elifs, rest) =>
      if Kind(rest) != KwElse then Ok(AST.If(c, body, elifs, None), rest)
      else
        match PElse(rest)
        case Fail(rep) => Fail(rep)
        case Ok(els, rest') => Ok(AST.If(c, body, elifs, Some(els)), rest')
  }

  /** `parseLoop` (parser.cpp:367-408): `loopc` Conds `:` block. The
      keyword, colon and `begin` checks jump to the error exit without
      reporting, as in the source. The source advances once more after the
      conditions (line 375), which would skip the colon, and never checks
      `end`; here there is no extra advance and `end` is expected. */
  function PLoop(ts: seq<Token>): (r: Parsed<AST.Stmt>)
    ensures Advances(r, ts)
  {
    if Kind(ts) != KwLoopc then Fail(false)
    else
      match PConds(ts[1..])
      case Fail(rep) => Fail(rep)
      case Ok(c, rest) =>
        if Kind(rest) != Colon then Fail(false)
        else if Kind(rest[1..]) != KwBegin then Fail(false)
        else
          match PBlock(rest[1..])
          case Fail(rep) => Fail(rep)
          case Ok(eqs, rest') => Ok(AST.Loop(c, eqs), rest')
  }

  /** The name list of parseDec (parser.cpp:87-94): `,` Ident, repeated. */
  function PIdents(ts: seq<Token>, acc: seq<string>): (r: Parsed<seq<string>>)
    ensures Stays(r, ts)
    ensures r.Ok? ==> |r.value| >= |acc| && r.value[..|acc|] == acc
    decreases |ts|
  {
    if Kind(ts) != Comma then Ok(acc, ts)
    else if Kind(ts[1..]) != Ident then Fail(true)
    else PIdents(ts[2..], acc + [ts[1].text])
  }

  /** `parseDec` (parser.cpp:71-110): `int` Ident (`,` Ident)* [`=` Expr] `;`.
      The source's opening checks are garbled (it accepts `int` or an
      identifier, advances, then expects `int` again, and never advances past
      the first name) and its `return new Declaration` is commented out; the
      production here is the one the comments and the grammar describe. A
      leading token other than `int` takes the error exit unreported, as in
      the source's first check. */
  function PDec(ts: seq<Token>): (r: Parsed<AST.Stmt>)
    ensures Advances(r, ts)
    ensures r.Ok? ==> r.value.Declaration? && |r.value.vars| > 0
  {
    if Kind(ts) != KwInt then Fail(false)
    else if Kind(ts[1..]) != Ident then Fail(true)
    else
      match PIdents(ts[2..], [ts[1].text])
      case Fail(rep) => Fail(rep)
      case Ok(vars, rest) =>
        if Kind(rest) == Equal then
          match PExpr(rest[1..])
          case Fail(rep) => Fail(rep)
          case Ok(e, rest') =>
            if Kind(rest') != Semicolon then Fail(true)
            else Ok(AST.Declaration(vars, Some(e)), rest'[1..])
        else if Kind(rest) != Semicolon then Fail(true)
        else Ok(AST.Declaration(vars, None), rest[1..])
  }

  /** One top-level statement, chosen by its leading token (parser.cpp:14-63);
      any other leading token takes the error exit unreported. */
  function PStmt(ts: seq<Token>): (r: Parsed<AST.Stmt>)
    ensures Advances(r, ts)
  {
    if Kind(ts) == KwInt then PDec(ts)
    else if Kind(ts) == Ident then
      match PEquation(ts)
      case Fail(rep) => Fail(rep)
      case Ok(eq, rest) => Ok(AST.Assignment(eq), rest)
    else if Kind(ts) == KwLoopc then PLoop(ts)
    else if Kind(ts) == KwIf then PIf(ts)
    else Fail(false)
  }

  /** The statement loop of parseGoal (parser.cpp:12-66), up to end of input.
      Each statement consumes its own terminator, so the loop does not
      advance between statements (the source's `advance()` at line 65 would
      skip the first token of the next statement after an `if` or a loop). */
  function PStmts(ts: seq<Token>, acc: seq<AST.Stmt>): (r: Parsed<seq<AST.Stmt>>)
    ensures Stays(r, ts)
    ensures r.Ok? ==> Kind(r.rest) == Eoi
    decreases |ts|
  {
    if Kind(ts) == Eoi then Ok(acc, ts)
    else
      match PStmt(ts)
      case Fail(rep) => Fail(rep)
      case Ok(s, rest) => PStmts(rest, acc + [s])
  }

  /** `parseGoal`: the whole program. */
  function PGoal(ts: seq<Token>): (r: Parsed<AST.Goal>)
    ensures r.Ok? ==> Kind(r.rest) == Eoi
  {
    match PStmts(ts, [])
    case Fail(rep) => Fail(rep)
    case Ok(stmts, rest) => Ok(AST.Goal(stmts), rest)
  }
}
