// A token printer for the AST, and the theorem that the grammar reads back
// exactly what the printer writes.
//
// The printer puts parentheses only where the grammar needs them: the left
// operand of a left-associative operator is printed bare, the right operand
// one precedence level up, so `(a - b) - c` prints as `a - b - c` while
// `a - (b - c)` keeps its parentheses. Parsing the printed tokens giving the
// tree back is then the statement that `+ -` and `* / %` associate to the
// left, that `* / %` bind tighter than `+ -`, that `and`/`or` chain left to
// right, and that statements, names, equations and elifs come out in
// source order.

module Printer {
  import opened Wrappers
  import opened Tokens
  import opened Grammar
  import AST

  // ---------------------------------------------------------------------
  // Which trees the concrete syntax can express
  // ---------------------------------------------------------------------

  /** The exponent of `^` is an integer literal. */
  predicate WellFormedExpr(e: AST.Expr) {
    match e
    case Final(_, _) => true
    case BinaryOp(op, l, r) =>
      WellFormedExpr(l) &&
      if op == AST.Pow then r.Final? && r.kind == AST.Num else WellFormedExpr(r)
  }

  /** `and`/`or` chain to the left, so the right operand of a `C` node is a
      single comparison. */
  predicate WellFormedCond(c: AST.Cond) {
    match c
    case Condition(l, _, r) => WellFormedExpr(l) && WellFormedExpr(r)
    case C(_, lhs, rhs) => WellFormedCond(lhs) && rhs.Condition? && WellFormedCond(rhs)
  }

  predicate WellFormedEquations(eqs: seq<AST.Equation>) {
    forall k :: 0 <= k < |eqs| ==> WellFormedExpr(eqs[k].rhs)
  }

  predicate WellFormedElif(el: AST.Elif) {
    WellFormedCond(el.cond) && WellFormedEquations(el.body)
  }

  predicate WellFormedStmt(s: AST.Stmt) {
    match s
    case Declaration(vars, init) => |vars| > 0 && (init.Some? ==> WellFormedExpr(init.value))
    case Assignment(eq) => WellFormedExpr(eq.rhs)
    case If(c, body, elifs, els) =>
      && WellFormedCond(c) && WellFormedEquations(body)
      && (forall k :: 0 <= k < |elifs| ==> WellFormedElif(elifs[k]))
      && (els.Some? ==> WellFormedEquations(els.value.body))
    case Loop(c, body) => WellFormedCond(c) && WellFormedEquations(body)
  }

  predicate WellFormedGoal(g: AST.Goal) {
    forall k :: 0 <= k < |g.stmts| ==> WellFormedStmt(g.stmts[k])
  }

  // ---------------------------------------------------------------------
  // Tokens for operators and keywords
  // ---------------------------------------------------------------------

  function Tk(k: TokenKind): Token {
    Token(k, "")
  }

  function BinOpKind(op: AST.BinOp): TokenKind {
    match op
    case Plus => Plus
    case Minus => Minus
    case Mul => Star
    case Div => Slash
    case Mod => Percent
    case Pow => Power
  }

  function RelOpKind(rel: AST.RelOp): TokenKind {
    match rel
    case Greater => Greater
    case Less => Less
    case GreaterEqual => GreaterEqual
    case LessEqual => LessEqual
    case EqualEqual => EqualEqual
    case NotEqual => NotEqual
  }

  function LogicOpKind(op: AST.LogicOp): TokenKind {
    match op
    case And => KwAnd
    case Or => KwOr
  }

  function AssignOpKind(op: AST.AssignOp): TokenKind {
    match op
    case Equal => Equal
    case PlusEqual => PlusEqual
    case MinusEqual => MinusEqual
    case StarEqual => StarEqual
    case SlashEqual => SlashEqual
    case PercentEqual => PercentEqual
  }

  // ---------------------------------------------------------------------
  // Printing
  // ---------------------------------------------------------------------

  /** The four precedence levels of the grammar, loosest first. */
  datatype Level = ExprLevel | TermLevel | FactorLevel | FinalLevel

  function LevelIndex(lvl: Level): nat {
    match lvl
    case ExprLevel => 1
    case TermLevel => 2
    case FactorLevel => 3
    case FinalLevel => 4
  }

  /** The level at which an operator's node is read without parentheses. */
  function Prec(op: AST.BinOp): nat {
    match op
    case Plus => 1
    case Minus => 1
    case Mul => 2
    case Div => 2
    case Mod => 2
    case Pow => 3
  }

  function PrintExpr(e: AST.Expr, lvl: Level): seq<Token>
    decreases e, if lvl == ExprLevel then 0 else 1
  {
    match e
    case Final(k, v) => if k == AST.Id then [Token(Ident, v)] else [Token(Number, v)]
    case BinaryOp(op, l, r) =>
      if LevelIndex(lvl) > Prec(op) then
        [Tk(LParen)] + PrintExpr(e, ExprLevel) + [Tk(RParen)]
      else if Prec(op) == 1 then
        PrintExpr(l, ExprLevel) + [Tk(BinOpKind(op))] + PrintExpr(r, TermLevel)
      else if Prec(op) == 2 then
        PrintExpr(l, TermLevel) + [Tk(BinOpKind(op))] + PrintExpr(r, FactorLevel)
      else
        PrintExpr(l, FinalLevel) + [Tk(Power)] + PrintExpr(r, FinalLevel)
  }

  function PrintCond(c: AST.Cond): seq<Token> {
    match c
    case Condition(l, rel, r) =>
      PrintExpr(l, ExprLevel) + [Tk(RelOpKind(rel))] + PrintExpr(r, ExprLevel)
    case C(op, lhs, rhs) =>
      PrintCond(lhs) + [Tk(LogicOpKind(op))] + PrintCond(rhs)
  }

  function PrintEquation(eq: AST.Equation): seq<Token> {
    [Token(Ident, eq.target), Tk(AssignOpKind(eq.op))] + PrintExpr(eq.rhs, ExprLevel) + [Tk(Semicolon)]
  }

  function PrintEquations(eqs: seq<AST.Equation>): seq<Token> {
    if eqs == [] then [] else PrintEquation(eqs[0]) + PrintEquations(eqs[1..])
  }

  function PrintBlock(eqs: seq<AST.Equation>): seq<Token> {
    [Tk(KwBegin)] + PrintEquations(eqs) + [Tk(KwEnd)]
  }

  /** A keyword, a condition, `:` and a block: the shape shared by `if`,
      `elif` and `loopc`. */
  function PrintGuarded(kw: TokenKind, c: AST.Cond, body: seq<AST.Equation>): seq<Token> {
    [Tk(kw)] + PrintCond(c) + [Tk(Colon)] + PrintBlock(body)
  }

  function PrintElif(e: AST.Elif): seq<Token> {
    PrintGuarded(KwElif, e.cond, e.body)
  }

  function PrintElifs(elifs: seq<AST.Elif>): seq<Token> {
    if elifs == [] then [] else PrintElif(elifs[0]) + PrintElifs(elifs[1..])
  }

  function PrintElse(e: AST.Else): seq<Token> {
    [Tk(KwElse), Tk(Colon)] + PrintBlock(e.body)
  }

  function PrintOptElse(els: Option<AST.Else>): seq<Token> {
    if els.Some? then PrintElse(els.value) else []
  }

  /** `, b , c` for the names after the first. */
  function PrintMoreNames(vars: seq<string>): seq<Token> {
    if vars == [] then [] else [Tk(Comma), Token(Ident, vars[0])] + PrintMoreNames(vars[1..])
  }

  function PrintInit(init: Option<AST.Expr>): seq<Token> {
    match init
    case None => []
    case Some(e) => [Tk(Equal)] + PrintExpr(e, ExprLevel)
  }

  function PrintDeclaration(vars: seq<string>, init: Option<AST.Expr>): seq<Token>
    requires |vars| > 0
  {
    [Tk(KwInt), Token(Ident, vars[0])] + PrintMoreNames(vars[1..]) + PrintInit(init) + [Tk(Semicolon)]
  }

  function PrintStmt(s: AST.Stmt): seq<Token>
    requires WellFormedStmt(s)
  {
    match s
    case Declaration(vars, init) => PrintDeclaration(vars, init)
    case Assignment(eq) => PrintEquation(eq)
    case If(c, body, elifs, els) => PrintGuarded(KwIf, c, body) + PrintElifs(elifs) + PrintOptElse(els)
    case Loop(c, body) => PrintGuarded(KwLoopc, c, body)
  }

  function PrintStmts(ss: seq<AST.Stmt>): seq<Token>
    requires forall k :: 0 <= k < |ss| ==> WellFormedStmt(ss[k])
  {
    if ss == [] then [] else PrintStmt(ss[0]) + PrintStmts(ss[1..])
  }

  function PrintGoal(g: AST.Goal): seq<Token>
    requires WellFormedGoal(g)
  {
    PrintStmts(g.stmts)
  }

  // ---------------------------------------------------------------------
  // Reading a printed piece back
  // ---------------------------------------------------------------------
  //
  // Each lemma reads a printed piece followed by arbitrary further tokens
  // `rest`, under a condition on the kind of token that follows, and states
  // what the production returns.

  /** The token kinds at which an expression stops. */
  predicate EndsExpr(k: TokenKind) {
    AddOp(k).None? && MulOp(k).None? && k != Power
  }

  /** The number of steps `lvl`, next level, ... it takes to reach the level
      that reads `e` without descending (Expr, Term, Factor, Final, then a
      parenthesised Expr again): the measure of the round-trip lemmas. */
  function Rank(e: AST.Expr, lvl: Level): nat {
    var home := if e.Final? then 4 else Prec(e.op);
    var here := LevelIndex(lvl);
    if home >= here then home - here else home + 4 - here
  }

  lemma OperatorTokens(op: AST.BinOp)
    ensures Prec(op) == 1 ==> AddOp(BinOpKind(op)) == Some(op) && MulOp(BinOpKind(op)).None?
    ensures Prec(op) == 2 ==> MulOp(BinOpKind(op)) == Some(op)
    ensures BinOpKind(op) != Power <==> op != AST.Pow
  {
  }

  /** Above its own level an operator node is printed in parentheses, the
      same at every level. */
  lemma PrintAboveHome(e: AST.Expr, lvl: Level)
    requires e.BinaryOp? && LevelIndex(lvl) > Prec(e.op)
    ensures PrintExpr(e, lvl) == [Tk(LParen)] + PrintExpr(e, ExprLevel) + [Tk(RParen)]
  {
  }

  /** At its own level an operator node is its operands around the
      operator, printed one level apart. */
  lemma PrintAtHome(e: AST.Expr)
    requires e.BinaryOp?
    ensures Prec(e.op) == 1 ==>
      PrintExpr(e, ExprLevel) == PrintExpr(e.left, ExprLevel) + [Tk(BinOpKind(e.op))] + PrintExpr(e.right, TermLevel)
    ensures Prec(e.op) == 2 ==>
      PrintExpr(e, TermLevel) == PrintExpr(e.left, TermLevel) + [Tk(BinOpKind(e.op))] + PrintExpr(e.right, FactorLevel)
    ensures Prec(e.op) == 3 ==>
      PrintExpr(e, FactorLevel) == PrintExpr(e.left, FinalLevel) + [Tk(Power)] + PrintExpr(e.right, FinalLevel)
  {
  }

  // One step of each expression production, each in a small context of its
  // own.

  lemma FinalParenStep(inner: seq<Token>, e: AST.Expr, rest: seq<Token>)
    requires PExpr(inner + ([Tk(RParen)] + rest)) == Ok(e, [Tk(RParen)] + rest)
    ensures PFinal([Tk(LParen)] + inner + [Tk(RParen)] + rest) == Ok(e, rest)
  {
    var ts := [Tk(LParen)] + inner + [Tk(RParen)] + rest;
    assert ts[1..] == inner + ([Tk(RParen)] + rest);
    assert ([Tk(RParen)] + rest)[1..] == rest;
  }

  lemma FactorPowStep(pl: seq<Token>, base: AST.Expr, k: string, rest: seq<Token>)
    requires PFinal(pl + ([Tk(Power), Token(Number, k)] + rest)) == Ok(base, [Tk(Power), Token(Number, k)] + rest)
    ensures PFactor(pl + [Tk(Power)] + [Token(Number, k)] + rest)
         == Ok(AST.BinaryOp(AST.Pow, base, AST.Final(AST.Num, k)), rest)
  {
    var after := [Tk(Power), Token(Number, k)] + rest;
    var ts := pl + [Tk(Power)] + [Token(Number, k)] + rest;
    assert ts == pl + after && Kind(after) == Power && Kind(after[1..]) == Number && after[1].text == k && after[2..] == rest by {
      assert after[1..] == [Token(Number, k)] + rest;
    }
    FactorPowUnfold(ts, base, after);
  }

  /** `parseFactor` reading `^` and a number after its base. */
  lemma FactorPowUnfold(ts: seq<Token>, base: AST.Expr, after: seq<Token>)
    requires PFinal(ts) == Ok(base, after) && Kind(after) == Power && Kind(after[1..]) == Number
    ensures PFactor(ts) == Ok(AST.BinaryOp(AST.Pow, base, AST.Final(AST.Num, after[1].text)), after[2..])
  {
  }

  lemma FactorPlainStep(ts: seq<Token>, e: AST.Expr, rest: seq<Token>)
    requires PFinal(ts) == Ok(e, rest) && Kind(rest) != Power
    ensures PFactor(ts) == Ok(e, rest)
  {
  }

  lemma TermStep(ts: seq<Token>, e: AST.Expr, rest: seq<Token>)
    requires PFactor(ts) == Ok(e, rest)
    ensures PTerm(ts) == PTermTail(rest, e)
  {
  }

  lemma TermTailStep(op: AST.BinOp, pr: seq<Token>, left: AST.Expr, right: AST.Expr, rest: seq<Token>)
    requires Prec(op) == 2 && PFactor(pr + rest) == Ok(right, rest)
    ensures PTermTail([Tk(BinOpKind(op))] + pr + rest, left) == PTermTail(rest, AST.BinaryOp(op, left, right))
  {
    OperatorTokens(op);
    OperatorAhead(op, pr, rest);
    TermTailUnfold([Tk(BinOpKind(op))] + pr + rest, left, op, right, rest);
  }

  /** An operator's token, then the printed right operand. */
  lemma OperatorAhead(op: AST.BinOp, pr: seq<Token>, rest: seq<Token>)
    ensures var ts := [Tk(BinOpKind(op))] + pr + rest; Kind(ts) == BinOpKind(op) && ts[1..] == pr + rest
  {
    var ts := [Tk(BinOpKind(op))] + pr + rest;
    assert ts[1..] == pr + rest;
  }

  /** One round of `parseTerm`'s loop. */
  lemma TermTailUnfold(ts: seq<Token>, left: AST.Expr, op: AST.BinOp, right: AST.Expr, rest: seq<Token>)
    requires MulOp(Kind(ts)) == Some(op) && PFactor(ts[1..]) == Ok(right, rest)
    ensures PTermTail(ts, left) == PTermTail(rest, AST.BinaryOp(op, left, right))
  {
  }

  lemma ExprStep(ts: seq<Token>, e: AST.Expr, rest: seq<Token>)
    requires PTerm(ts) == PTermTail(rest, e) && MulOp(Kind(rest)).None?
    ensures PExpr(ts) == PExprTail(rest, e)
  {
  }

  lemma ExprTailStep(op: AST.BinOp, pr: seq<Token>, left: AST.Expr, right: AST.Expr, rest: seq<Token>)
    requires Prec(op) == 1 && PTerm(pr + rest) == PTermTail(rest, right) && MulOp(Kind(rest)).None?
    ensures PExprTail([Tk(BinOpKind(op))] + pr + rest, left) == PExprTail(rest, AST.BinaryOp(op, left, right))
  {
    OperatorTokens(op);
    OperatorAhead(op, pr, rest);
    TermTailStop(rest, right);
    ExprTailUnfold([Tk(BinOpKind(op))] + pr + rest, left, op, right, rest);
  }

  /** One round of `parseExpr`'s loop. */
  lemma ExprTailUnfold(ts: seq<Token>, left: AST.Expr, op: AST.BinOp, right: AST.Expr, rest: seq<Token>)
    requires AddOp(Kind(ts)) == Some(op) && PTerm(ts[1..]) == Ok(right, rest)
    ensures PExprTail(ts, left) == PExprTail(rest, AST.BinaryOp(op, left, right))
  {
  }

  lemma TermTailStop(ts: seq<Token>, e: AST.Expr)
    requires MulOp(Kind(ts)).None?
    ensures PTermTail(ts, e) == Ok(e, ts)
  {
  }

  lemma ExprTailStop(ts: seq<Token>, e: AST.Expr)
    requires AddOp(Kind(ts)).None?
    ensures PExprTail(ts, e) == Ok(e, ts)
  {
  }

  // The round-trip lemmas for expressions are mutually recursive: each
  // level either reads its own kind of node or passes the same node to the
  // next level, so they decrease on the node, then on its distance to the
  // level that reads it.

  lemma {:induction false} PrintedFinal(e: AST.Expr, rest: seq<Token>)
    requires WellFormedExpr(e)
    ensures PFinal(PrintExpr(e, FinalLevel) + rest) == Ok(e, rest)
    decreases e, Rank(e, FinalLevel), 1
  {
    if e.Final? {
      assert (PrintExpr(e, FinalLevel) + rest)[1..] == rest;
    } else {
      PrintedParenthesised(e, rest);
    }
  }

  lemma {:induction false} PrintedParenthesised(e: AST.Expr, rest: seq<Token>)
    requires e.BinaryOp? && WellFormedExpr(e)
    ensures PFinal(PrintExpr(e, FinalLevel) + rest) == Ok(e, rest)
    decreases e, Rank(e, FinalLevel), 0
  {
    PrintAboveHome(e, FinalLevel);
    PrintedExpr(e, [Tk(RParen)] + rest);
    ExprTailStop([Tk(RParen)] + rest, e);
    FinalParenStep(PrintExpr(e, ExprLevel), e, rest);
  }

  lemma {:induction false} PrintedFactor(e: AST.Expr, rest: seq<Token>)
    requires WellFormedExpr(e) && Kind(rest) != Power
    ensures PFactor(PrintExpr(e, FactorLevel) + rest) == Ok(e, rest)
    decreases e, Rank(e, FactorLevel), 1
  {
    if e.BinaryOp? && e.op == AST.Pow {
      PrintedPower(e, rest);
    } else {
      assert PrintExpr(e, FactorLevel) == PrintExpr(e, FinalLevel) by {
        if e.BinaryOp? {
          PrintAboveHome(e, FactorLevel);
          PrintAboveHome(e, FinalLevel);
        }
      }
      PrintedFinal(e, rest);
      FactorPlainStep(PrintExpr(e, FinalLevel) + rest, e, rest);
    }
  }

  lemma {:induction false} PrintedPower(e: AST.Expr, rest: seq<Token>)
    requires e.BinaryOp? && e.op == AST.Pow && WellFormedExpr(e)
    ensures PFactor(PrintExpr(e, FactorLevel) + rest) == Ok(e, rest)
    decreases e, Rank(e, FactorLevel), 0
  {
    var l, r := e.left, e.right;
    PrintAtHome(e);
    assert PrintExpr(r, FinalLevel) == [Token(Number, r.val)];
    PrintedFinal(l, [Tk(Power), Token(Number, r.val)] + rest);
    FactorPowStep(PrintExpr(l, FinalLevel), l, r.val, rest);
  }

  lemma {:induction false} PrintedTerm(e: AST.Expr, rest: seq<Token>)
    requires WellFormedExpr(e) && Kind(rest) != Power
    ensures PTerm(PrintExpr(e, TermLevel) + rest) == PTermTail(rest, e)
    decreases e, Rank(e, TermLevel), 1
  {
    if e.BinaryOp? && Prec(e.op) == 2 {
      PrintedProduct(e, rest);
    } else {
      assert PrintExpr(e, TermLevel) == PrintExpr(e, FactorLevel) by {
        if e.BinaryOp? && e.op != AST.Pow {
          PrintAboveHome(e, TermLevel);
          PrintAboveHome(e, FactorLevel);
        }
      }
      PrintedFactor(e, rest);
      TermStep(PrintExpr(e, FactorLevel) + rest, e, rest);
    }
  }

  lemma {:induction false} PrintedProduct(e: AST.Expr, rest: seq<Token>)
    requires e.BinaryOp? && Prec(e.op) == 2 && WellFormedExpr(e) && Kind(rest) != Power
    ensures PTerm(PrintExpr(e, TermLevel) + rest) == PTermTail(rest, e)
    decreases e, Rank(e, TermLevel), 0
  {
    var op, l, r := e.op, e.left, e.right;
    var pl, pr := PrintExpr(l, TermLevel), PrintExpr(r, FactorLevel);
    var opTok := [Tk(BinOpKind(op))];
    assert PrintExpr(e, TermLevel) + rest == pl + (opTok + pr + rest) by {
      PrintAtHome(e);
    }
    assert PTerm(pl + (opTok + pr + rest)) == PTermTail(opTok + pr + rest, l) by {
      OperatorTokens(op);
      PrintedTerm(l, opTok + pr + rest);
    }
    assert PFactor(pr + rest) == Ok(r, rest) by {
      PrintedFactor(r, rest);
    }
    TermTailStep(op, pr, l, r, rest);
  }

  lemma {:induction false} PrintedExpr(e: AST.Expr, rest: seq<Token>)
    requires WellFormedExpr(e) && MulOp(Kind(rest)).None? && Kind(rest) != Power
    ensures PExpr(PrintExpr(e, ExprLevel) + rest) == PExprTail(rest, e)
    decreases e, Rank(e, ExprLevel), 1
  {
    if e.BinaryOp? && Prec(e.op) == 1 {
      PrintedSum(e, rest);
    } else {
      assert PrintExpr(e, ExprLevel) == PrintExpr(e, TermLevel);
      PrintedTerm(e, rest);
      ExprStep(PrintExpr(e, TermLevel) + rest, e, rest);
    }
  }

  lemma {:induction false} PrintedSum(e: AST.Expr, rest: seq<Token>)
    requires e.BinaryOp? && Prec(e.op) == 1 && WellFormedExpr(e)
    requires MulOp(Kind(rest)).None? && Kind(rest) != Power
    ensures PExpr(PrintExpr(e, ExprLevel) + rest) == PExprTail(rest, e)
    decreases e, Rank(e, ExprLevel), 0
  {
    var op, l, r := e.op, e.left, e.right;
    var pl, pr := PrintExpr(l, ExprLevel), PrintExpr(r, TermLevel);
    var opTok := [Tk(BinOpKind(op))];
    assert PrintExpr(e, ExprLevel) + rest == pl + (opTok + pr + rest) by {
      PrintAtHome(e);
    }
    assert PExpr(pl + (opTok + pr + rest)) == PExprTail(opTok + pr + rest, l) by {
      OperatorTokens(op);
      PrintedExpr(l, opTok + pr + rest);
    }
    assert PTerm(pr + rest) == PTermTail(rest, r) by {
      PrintedTerm(r, rest);
    }
    ExprTailStep(op, pr, l, r, rest);
  }

  /** A printed expression followed by a token that cannot continue it reads
      back as the same tree, and the production stops right after it. */
  lemma ParsePrintedExpr(e: AST.Expr, rest: seq<Token>)
    requires WellFormedExpr(e) && EndsExpr(Kind(rest))
    ensures PExpr(PrintExpr(e, ExprLevel) + rest) == Ok(e, rest)
  {
    PrintedExpr(e, rest);
    ExprTailStop(rest, e);
  }

  // ---------------------------------------------------------------------
  // Token-list bookkeeping
  // ---------------------------------------------------------------------

  lemma Assoc(a: seq<Token>, b: seq<Token>, c: seq<Token>)
    ensures a + b + c == a + (b + c)
  {
  }

  lemma Regroup<T>(acc: seq<T>, xs: seq<T>)
    requires xs != []
    ensures acc + [xs[0]] + xs[1..] == acc + xs
  {
    assert xs == [xs[0]] + xs[1..];
  }

  lemma EmptyPrefix<T>(xs: seq<T>)
    ensures [] + xs == xs
  {
  }

  lemma HeadKind(p: seq<Token>, rest: seq<Token>)
    requires |p| > 0
    ensures (p + rest)[0] == p[0] && Kind(p + rest) == p[0].kind
  {
  }

  lemma DropOne(t: Token, x: seq<Token>)
    ensures Kind([t] + x) == t.kind && ([t] + x)[1..] == x
  {
  }

  lemma DropTwo(t: Token, u: Token, x: seq<Token>)
    ensures Kind([t, u] + x) == t.kind && |[t, u] + x| >= 2 && ([t, u] + x)[1] == u
    ensures Kind(([t, u] + x)[1..]) == u.kind && ([t, u] + x)[2..] == x
  {
    assert ([t, u] + x)[1..] == [u] + x;
  }

  // ---------------------------------------------------------------------
  // Conditions
  // ---------------------------------------------------------------------

  lemma ConditionTokens(rel: AST.RelOp, op: AST.LogicOp)
    ensures RelOpOf(RelOpKind(rel)) == Some(rel) && EndsExpr(RelOpKind(rel))
    ensures LogicOpOf(LogicOpKind(op)) == Some(op) && EndsExpr(LogicOpKind(op))
  {
  }

  lemma CondStep(ts: seq<Token>, l: AST.Expr, rel: AST.RelOp, after: seq<Token>, r: AST.Expr, rest: seq<Token>)
    requires PExpr(ts) == Ok(l, after) && RelOpOf(Kind(after)) == Some(rel)
    requires PExpr(after[1..]) == Ok(r, rest)
    ensures PCond(ts) == Ok(AST.Condition(l, rel, r), rest)
  {
  }

  lemma ComparisonTokens(c: AST.Cond, rest: seq<Token>)
    requires c.Condition?
    ensures PrintCond(c) + rest
         == PrintExpr(c.left, ExprLevel) + ([Tk(RelOpKind(c.rel))] + (PrintExpr(c.right, ExprLevel) + rest))
  {
    var pl, pr, t := PrintExpr(c.left, ExprLevel), PrintExpr(c.right, ExprLevel), [Tk(RelOpKind(c.rel))];
    Assoc(pl + t, pr, rest);
    Assoc(pl, t, pr + rest);
  }

  lemma PrintedComparison(c: AST.Cond, rest: seq<Token>)
    requires c.Condition? && WellFormedCond(c) && EndsExpr(Kind(rest))
    ensures PCond(PrintCond(c) + rest) == Ok(c, rest)
  {
    var pr := PrintExpr(c.right, ExprLevel);
    var after := [Tk(RelOpKind(c.rel))] + (pr + rest);
    ComparisonTokens(c, rest);
    DropOne(Tk(RelOpKind(c.rel)), pr + rest);
    ConditionTokens(c.rel, AST.And);
    ParsePrintedExpr(c.left, after);
    ParsePrintedExpr(c.right, rest);
    CondStep(PrintCond(c) + rest, c.left, c.rel, after, c.right, rest);
  }

  lemma CondsStep(ts: seq<Token>, c: AST.Cond, rest: seq<Token>)
    requires PCond(ts) == Ok(c, rest)
    ensures PConds(ts) == PCondsTail(rest, c)
  {
  }

  lemma CondsTailStep(ts: seq<Token>, op: AST.LogicOp, left: AST.Cond, right: AST.Cond, rest: seq<Token>)
    requires LogicOpOf(Kind(ts)) == Some(op) && PCond(ts[1..]) == Ok(right, rest)
    ensures PCondsTail(ts, left) == PCondsTail(rest, AST.C(op, left, right))
  {
  }

  lemma CondsTailStop(ts: seq<Token>, c: AST.Cond)
    requires LogicOpOf(Kind(ts)).None?
    ensures PCondsTail(ts, c) == Ok(c, ts)
  {
  }

  lemma ChainTokens(c: AST.Cond, rest: seq<Token>)
    requires c.C?
    ensures PrintCond(c) + rest == PrintCond(c.lhs) + ([Tk(LogicOpKind(c.lop))] + (PrintCond(c.rhs) + rest))
  {
    var pl, pr, t := PrintCond(c.lhs), PrintCond(c.rhs), [Tk(LogicOpKind(c.lop))];
    Assoc(pl + t, pr, rest);
    Assoc(pl, t, pr + rest);
  }

  /** A printed condition chain reads back as the same left-leaning chain. */
  lemma {:induction false} PrintedConds(c: AST.Cond, rest: seq<Token>)
    requires WellFormedCond(c) && EndsExpr(Kind(rest))
    ensures PConds(PrintCond(c) + rest) == PCondsTail(rest, c)
    decreases c, 1
  {
    if c.Condition? {
      PrintedComparison(c, rest);
      CondsStep(PrintCond(c) + rest, c, rest);
    } else {
      PrintedChain(c, rest);
    }
  }

  lemma {:induction false} PrintedChain(c: AST.Cond, rest: seq<Token>)
    requires c.C? && WellFormedCond(c) && EndsExpr(Kind(rest))
    ensures PConds(PrintCond(c) + rest) == PCondsTail(rest, c)
    decreases c, 0
  {
    var after := [Tk(LogicOpKind(c.lop))] + (PrintCond(c.rhs) + rest);
    ChainTokens(c, rest);
    DropOne(Tk(LogicOpKind(c.lop)), PrintCond(c.rhs) + rest);
    ConditionTokens(AST.Less, c.lop);
    PrintedConds(c.lhs, after);
    PrintedComparison(c.rhs, rest);
    CondsTailStep(after, c.lop, c.lhs, c.rhs, rest);
  }

  /** The kinds that may follow a condition in a statement. */
  predicate EndsConds(k: TokenKind) {
    EndsExpr(k) && LogicOpOf(k).None?
  }

  lemma ColonEndsConds()
    ensures EndsConds(Colon)
  {
  }

  lemma ParsePrintedConds(c: AST.Cond, rest: seq<Token>)
    requires WellFormedCond(c) && EndsConds(Kind(rest))
    ensures PConds(PrintCond(c) + rest) == Ok(c, rest)
  {
    PrintedConds(c, rest);
    CondsTailStop(rest, c);
  }

  // ---------------------------------------------------------------------
  // Equations and blocks
  // ---------------------------------------------------------------------

  lemma AssignTokens(op: AST.AssignOp)
    ensures AssignOpOf(AssignOpKind(op)) == Some(op)
  {
  }

  lemma EquationStep(ts: seq<Token>, x: string, op: AST.AssignOp, e: AST.Expr, semi: seq<Token>, rest: seq<Token>)
    requires Kind(ts) == Ident && |ts| >= 2 && ts[0].text == x
    requires AssignOpOf(Kind(ts[1..])) == Some(op) && PExpr(ts[2..]) == Ok(e, semi)
    requires Kind(semi) == Semicolon && semi[1..] == rest
    ensures PEquation(ts) == Ok(AST.Equation(x, e, op), rest)
  {
  }

  lemma EquationTokens(eq: AST.Equation, rest: seq<Token>)
    ensures PrintEquation(eq) + rest
         == [Token(Ident, eq.target), Tk(AssignOpKind(eq.op))] + (PrintExpr(eq.rhs, ExprLevel) + ([Tk(Semicolon)] + rest))
  {
    var h, pe, t := [Token(Ident, eq.target), Tk(AssignOpKind(eq.op))], PrintExpr(eq.rhs, ExprLevel), [Tk(Semicolon)];
    Assoc(h + pe, t, rest);
    Assoc(h, pe, t + rest);
  }

  lemma PrintedEquation(eq: AST.Equation, rest: seq<Token>)
    requires WellFormedExpr(eq.rhs)
    ensures PEquation(PrintEquation(eq) + rest) == Ok(eq, rest)
  {
    var semi := [Tk(Semicolon)] + rest;
    var ts := PrintEquation(eq) + rest;
    EquationTokens(eq, rest);
    DropTwo(Token(Ident, eq.target), Tk(AssignOpKind(eq.op)), PrintExpr(eq.rhs, ExprLevel) + semi);
    DropOne(Tk(Semicolon), rest);
    AssignTokens(eq.op);
    ParsePrintedExpr(eq.rhs, semi);
    EquationStep(ts, eq.target, eq.op, eq.rhs, semi, rest);
  }

  lemma EquationsStep(ts: seq<Token>, acc: seq<AST.Equation>, eq: AST.Equation, rest: seq<Token>)
    requires Kind(ts) == Ident && PEquation(ts) == Ok(eq, rest)
    ensures PEquations(ts, acc) == PEquations(rest, acc + [eq])
  {
  }

  /** Reading the first printed equation of a non-empty list. */
  lemma PrintedFirstEquation(eqs: seq<AST.Equation>, rest: seq<Token>, acc: seq<AST.Equation>)
    requires eqs != [] && WellFormedEquations(eqs)
    ensures PEquations(PrintEquations(eqs) + rest, acc) == PEquations(PrintEquations(eqs[1..]) + rest, acc + [eqs[0]])
  {
    var p0, ps := PrintEquation(eqs[0]), PrintEquations(eqs[1..]);
    Assoc(p0, ps, rest);
    PrintedEquation(eqs[0], ps + rest);
    HeadKind(p0, ps + rest);
    EquationsStep(p0 + (ps + rest), acc, eqs[0], ps + rest);
  }

  lemma {:induction false} PrintedEquations(eqs: seq<AST.Equation>, rest: seq<Token>, acc: seq<AST.Equation>)
    requires WellFormedEquations(eqs) && Kind(rest) != Ident
    ensures PEquations(PrintEquations(eqs) + rest, acc) == Ok(acc + eqs, rest)
    decreases |eqs|
  {
    if eqs == [] {
      assert acc + eqs == acc;
      assert PrintEquations(eqs) + rest == rest;
    } else {
      PrintedFirstEquation(eqs, rest, acc);
      PrintedEquations(eqs[1..], rest, acc + [eqs[0]]);
      Regroup(acc, eqs);
    }
  }

  lemma BlockStep(ts: seq<Token>, eqs: seq<AST.Equation>, after: seq<Token>, rest: seq<Token>)
    requires Kind(ts) == KwBegin && PEquations(ts[1..], []) == Ok(eqs, after)
    requires Kind(after) == KwEnd && after[1..] == rest
    ensures PBlock(ts) == Ok(eqs, rest)
  {
  }

  lemma PrintedBlock(eqs: seq<AST.Equation>, rest: seq<Token>)
    requires WellFormedEquations(eqs)
    ensures Kind(PrintBlock(eqs) + rest) == KwBegin
    ensures PBlock(PrintBlock(eqs) + rest) == Ok(eqs, rest)
  {
    var tail := [Tk(KwEnd)] + rest;
    var ts := PrintBlock(eqs) + rest;
    Assoc([Tk(KwBegin)] + PrintEquations(eqs), [Tk(KwEnd)], rest);
    Assoc([Tk(KwBegin)], PrintEquations(eqs), tail);
    DropOne(Tk(KwBegin), PrintEquations(eqs) + tail);
    DropOne(Tk(KwEnd), rest);
    PrintedEquations(eqs, tail, []);
    EmptyPrefix(eqs);
    BlockStep(ts, eqs, tail, rest);
  }

  // ---------------------------------------------------------------------
  // Statements
  // ---------------------------------------------------------------------

  lemma GuardTokens(kw: TokenKind, c: AST.Cond, body: seq<AST.Equation>, rest: seq<Token>)
    ensures PrintGuarded(kw, c, body) + rest
         == [Tk(kw)] + (PrintCond(c) + ([Tk(Colon)] + (PrintBlock(body) + rest)))
  {
    var h, pc, t, pb := [Tk(kw)], PrintCond(c), [Tk(Colon)], PrintBlock(body);
    Assoc(h + pc + t, pb, rest);
    Assoc(h + pc, t, pb + rest);
    Assoc(h, pc, t + (pb + rest));
  }

  /** What the productions read from a keyword, a printed condition, `:` and
      a printed block. */
  lemma PrintedGuard(kw: TokenKind, c: AST.Cond, body: seq<AST.Equation>, rest: seq<Token>)
    requires WellFormedCond(c) && WellFormedEquations(body)
    ensures var ts, after := PrintGuarded(kw, c, body) + rest, [Tk(Colon)] + (PrintBlock(body) + rest);
      && Kind(ts) == kw && PConds(ts[1..]) == Ok(c, after)
      && Kind(after) == Colon && Kind(after[1..]) == KwBegin
      && PBlock(after[1..]) == Ok(body, rest)
  {
    var after := [Tk(Colon)] + (PrintBlock(body) + rest);
    GuardTokens(kw, c, body, rest);
    DropOne(Tk(kw), PrintCond(c) + after);
    assert PConds(PrintCond(c) + after) == Ok(c, after) by {
      DropOne(Tk(Colon), PrintBlock(body) + rest);
      ColonEndsConds();
      ParsePrintedConds(c, after);
    }
    DropOne(Tk(Colon), PrintBlock(body) + rest);
    PrintedBlock(body, rest);
  }

  lemma ElifStep(ts: seq<Token>, c: AST.Cond, after: seq<Token>, body: seq<AST.Equation>, rest: seq<Token>)
    requires Kind(ts) == KwElif && PConds(ts[1..]) == Ok(c, after)
    requires Kind(after) == Colon && PBlock(after[1..]) == Ok(body, rest)
    ensures PElif(ts) == Ok(AST.Elif(c, body), rest)
  {
  }

  lemma PrintedElif(el: AST.Elif, rest: seq<Token>)
    requires WellFormedElif(el)
    ensures Kind(PrintElif(el) + rest) == KwElif
    ensures PElif(PrintElif(el) + rest) == Ok(el, rest)
  {
    PrintedGuard(KwElif, el.cond, el.body, rest);
    ElifStep(PrintElif(el) + rest, el.cond, [Tk(Colon)] + (PrintBlock(el.body) + rest), el.body, rest);
  }

  lemma ElifsStep(ts: seq<Token>, acc: seq<AST.Elif>, el: AST.Elif, rest: seq<Token>)
    requires Kind(ts) == KwElif && PElif(ts) == Ok(el, rest)
    ensures PElifs(ts, acc) == PElifs(rest, acc + [el])
  {
  }

  /** Reading the first printed elif of a non-empty list. */
  lemma PrintedFirstElif(elifs: seq<AST.Elif>, rest: seq<Token>, acc: seq<AST.Elif>)
    requires elifs != [] && WellFormedElif(elifs[0])
    ensures PElifs(PrintElifs(elifs) + rest, acc) == PElifs(PrintElifs(elifs[1..]) + rest, acc + [elifs[0]])
  {
    var p0, ps := PrintElif(elifs[0]), PrintElifs(elifs[1..]);
    Assoc(p0, ps, rest);
    PrintedElif(elifs[0], ps + rest);
    ElifsStep(p0 + (ps + rest), acc, elifs[0], ps + rest);
  }

  lemma {:induction false} PrintedElifs(elifs: seq<AST.Elif>, rest: seq<Token>, acc: seq<AST.Elif>)
    requires forall k :: 0 <= k < |elifs| ==> WellFormedElif(elifs[k])
    requires Kind(rest) != KwElif
    ensures PElifs(PrintElifs(elifs) + rest, acc) == Ok(acc + elifs, rest)
    decreases |elifs|
  {
    if elifs == [] {
      assert acc + elifs == acc;
      assert PrintElifs(elifs) + rest == rest;
    } else {
      PrintedFirstElif(elifs, rest, acc);
      PrintedElifs(elifs[1..], rest, acc + [elifs[0]]);
      Regroup(acc, elifs);
    }
  }

  lemma ElseStep(ts: seq<Token>, body: seq<AST.Equation>, rest: seq<Token>)
    requires Kind(ts) == KwElse && Kind(ts[1..]) == Colon && PBlock(ts[2..]) == Ok(body, rest)
    ensures PElse(ts) == Ok(AST.Else(body), rest)
  {
  }

  lemma PrintedElse(el: AST.Else, rest: seq<Token>)
    requires WellFormedEquations(el.body)
    ensures Kind(PrintElse(el) + rest) == KwElse
    ensures PElse(PrintElse(el) + rest) == Ok(el, rest)
  {
    Assoc([Tk(KwElse), Tk(Colon)], PrintBlock(el.body), rest);
    DropTwo(Tk(KwElse), Tk(Colon), PrintBlock(el.body) + rest);
    PrintedBlock(el.body, rest);
    ElseStep(PrintElse(el) + rest, el.body, rest);
  }

  lemma NamesStep(ts: seq<Token>, acc: seq<string>, v: string)
    requires Kind(ts) == Comma && |ts| >= 2 && ts[1] == Token(Ident, v)
    ensures PIdents(ts, acc) == PIdents(ts[2..], acc + [v])
  {
  }

  /** Reading the first printed `, name` of a non-empty list. */
  lemma PrintedFirstName(vars: seq<string>, rest: seq<Token>, acc: seq<string>)
    requires vars != []
    ensures PIdents(PrintMoreNames(vars) + rest, acc) == PIdents(PrintMoreNames(vars[1..]) + rest, acc + [vars[0]])
  {
    var ps := PrintMoreNames(vars[1..]);
    Assoc([Tk(Comma), Token(Ident, vars[0])], ps, rest);
    DropTwo(Tk(Comma), Token(Ident, vars[0]), ps + rest);
    NamesStep(PrintMoreNames(vars) + rest, acc, vars[0]);
  }

  lemma {:induction false} PrintedMoreNames(vars: seq<string>, rest: seq<Token>, acc: seq<string>)
    requires Kind(rest) != Comma
    ensures PIdents(PrintMoreNames(vars) + rest, acc) == Ok(acc + vars, rest)
    decreases |vars|
  {
    if vars == [] {
      assert acc + vars == acc;
      assert PrintMoreNames(vars) + rest == rest;
    } else {
      PrintedFirstName(vars, rest, acc);
      PrintedMoreNames(vars[1..], rest, acc + [vars[0]]);
      Regroup(acc, vars);
    }
  }

  lemma DecStep(ts: seq<Token>, v: string, names: seq<Token>, vars: seq<string>, init: Option<AST.Expr>, after: seq<Token>, semi: seq<Token>, rest: seq<Token>)
    requires ts == [Tk(KwInt), Token(Ident, v)] + names
    requires PIdents(names, [v]) == Ok(vars, after)
    requires init.None? ==> after == semi
    requires init.Some? ==> Kind(after) == Equal && PExpr(after[1..]) == Ok(init.value, semi)
    requires Kind(semi) == Semicolon && semi[1..] == rest
    ensures PDec(ts) == Ok(AST.Declaration(vars, init), rest)
  {
    DropTwo(Tk(KwInt), Token(Ident, v), names);
  }

  lemma DeclarationTokens(vars: seq<string>, init: Option<AST.Expr>, rest: seq<Token>)
    requires |vars| > 0
    ensures PrintDeclaration(vars, init) + rest
         == [Tk(KwInt), Token(Ident, vars[0])] + (PrintMoreNames(vars[1..]) + (PrintInit(init) + ([Tk(Semicolon)] + rest)))
  {
    var h, pn, pi, t := [Tk(KwInt), Token(Ident, vars[0])], PrintMoreNames(vars[1..]), PrintInit(init), [Tk(Semicolon)];
    Assoc(h + pn + pi, t, rest);
    Assoc(h + pn, pi, t + rest);
    Assoc(h, pn, pi + (t + rest));
  }

  /** The optional initializer and the `;` after the names. */
  lemma PrintedInit(init: Option<AST.Expr>, rest: seq<Token>)
    requires init.Some? ==> WellFormedExpr(init.value)
    ensures var semi := [Tk(Semicolon)] + rest; var after := PrintInit(init) + semi;
      && Kind(after) != Comma && Kind(semi) == Semicolon && semi[1..] == rest
      && (init.None? ==> after == semi)
      && (init.Some? ==> Kind(after) == Equal && PExpr(after[1..]) == Ok(init.value, semi))
  {
    var semi := [Tk(Semicolon)] + rest;
    DropOne(Tk(Semicolon), rest);
    if init.Some? {
      var pe := PrintExpr(init.value, ExprLevel);
      Assoc([Tk(Equal)], pe, semi);
      DropOne(Tk(Equal), pe + semi);
      ParsePrintedExpr(init.value, semi);
    } else {
      assert PrintInit(init) + semi == semi;
    }
  }

  lemma PrintedDeclaration(vars: seq<string>, init: Option<AST.Expr>, rest: seq<Token>)
    requires |vars| > 0 && (init.Some? ==> WellFormedExpr(init.value))
    ensures Kind(PrintDeclaration(vars, init) + rest) == KwInt
    ensures PDec(PrintDeclaration(vars, init) + rest) == Ok(AST.Declaration(vars, init), rest)
  {
    var semi := [Tk(Semicolon)] + rest;
    var after := PrintInit(init) + semi;
    var names := PrintMoreNames(vars[1..]) + after;
    DeclarationTokens(vars, init, rest);
    PrintedInit(init, rest);
    PrintedNames(vars, after);
    DecStep(PrintDeclaration(vars, init) + rest, vars[0], names, vars, init, after, semi, rest);
  }

  lemma PrintedNames(vars: seq<string>, after: seq<Token>)
    requires |vars| > 0 && Kind(after) != Comma
    ensures PIdents(PrintMoreNames(vars[1..]) + after, [vars[0]]) == Ok(vars, after)
  {
    PrintedMoreNames(vars[1..], after, [vars[0]]);
    assert [vars[0]] + vars[1..] == vars;
  }

  /** The kinds that may follow a statement: anything but the keywords that
      would extend an if. */
  predicate EndsStmt(k: TokenKind) {
    k != KwElif && k != KwElse
  }

  lemma IfTailStep(ts: seq<Token>, c: AST.Cond, body: seq<AST.Equation>, elifs: seq<AST.Elif>,
                   els: Option<AST.Else>, after: seq<Token>, rest: seq<Token>)
    requires PElifs(ts, []) == Ok(elifs, after)
    requires els.None? ==> Kind(after) != KwElse && after == rest
    requires els.Some? ==> Kind(after) == KwElse && PElse(after) == Ok(els.value, rest)
    ensures PIfTail(ts, c, body) == Ok(AST.If(c, body, elifs, els), rest)
  {
  }

  lemma PrintedOptElse(els: Option<AST.Else>, rest: seq<Token>)
    requires els.Some? ==> WellFormedEquations(els.value.body)
    requires EndsStmt(Kind(rest))
    ensures var after := PrintOptElse(els) + rest;
      && Kind(after) != KwElif
      && (els.None? ==> Kind(after) != KwElse && after == rest)
      && (els.Some? ==> Kind(after) == KwElse && PElse(after) == Ok(els.value, rest))
  {
    if els.Some? {
      PrintedElse(els.value, rest);
    } else {
      assert PrintOptElse(els) + rest == rest;
    }
  }

  lemma PrintedIfTail(c: AST.Cond, body: seq<AST.Equation>, elifs: seq<AST.Elif>, els: Option<AST.Else>, rest: seq<Token>)
    requires forall k :: 0 <= k < |elifs| ==> WellFormedElif(elifs[k])
    requires els.Some? ==> WellFormedEquations(els.value.body)
    requires EndsStmt(Kind(rest))
    ensures PIfTail(PrintElifs(elifs) + (PrintOptElse(els) + rest), c, body) == Ok(AST.If(c, body, elifs, els), rest)
  {
    var after := PrintOptElse(els) + rest;
    PrintedOptElse(els, rest);
    PrintedElifs(elifs, after, []);
    EmptyPrefix(elifs);
    IfTailStep(PrintElifs(elifs) + after, c, body, elifs, els, after, rest);
  }

  lemma IfStep(ts: seq<Token>, c: AST.Cond, after: seq<Token>, body: seq<AST.Equation>, tail: seq<Token>, s: AST.Stmt, rest: seq<Token>)
    requires Kind(ts) == KwIf && PConds(ts[1..]) == Ok(c, after)
    requires Kind(after) == Colon && PBlock(after[1..]) == Ok(body, tail)
    requires PIfTail(tail, c, body) == Ok(s, rest)
    ensures PIf(ts) == Ok(s, rest)
  {
  }

  lemma PrintedIf(s: AST.Stmt, rest: seq<Token>)
    requires s.If? && WellFormedStmt(s) && EndsStmt(Kind(rest))
    ensures Kind(PrintStmt(s) + rest) == KwIf
    ensures PIf(PrintStmt(s) + rest) == Ok(s, rest)
  {
    var pg := PrintGuarded(KwIf, s.cond, s.body);
    var tail := PrintElifs(s.elifs) + (PrintOptElse(s.els) + rest);
    Assoc(pg + PrintElifs(s.elifs), PrintOptElse(s.els), rest);
    Assoc(pg, PrintElifs(s.elifs), PrintOptElse(s.els) + rest);
    PrintedGuard(KwIf, s.cond, s.body, tail);
    PrintedIfTail(s.cond, s.body, s.elifs, s.els, rest);
    IfStep(pg + tail, s.cond, [Tk(Colon)] + (PrintBlock(s.body) + tail), s.body, tail, s, rest);
  }

  lemma LoopStep(ts: seq<Token>, c: AST.Cond, after: seq<Token>, body: seq<AST.Equation>, rest: seq<Token>)
    requires Kind(ts) == KwLoopc && PConds(ts[1..]) == Ok(c, after)
    requires Kind(after) == Colon && Kind(after[1..]) == KwBegin && PBlock(after[1..]) == Ok(body, rest)
    ensures PLoop(ts) == Ok(AST.Loop(c, body), rest)
  {
  }

  lemma PrintedLoop(s: AST.Stmt, rest: seq<Token>)
    requires s.Loop? && WellFormedStmt(s)
    ensures Kind(PrintStmt(s) + rest) == KwLoopc
    ensures PLoop(PrintStmt(s) + rest) == Ok(s, rest)
  {
    PrintedGuard(KwLoopc, s.cond, s.body, rest);
    LoopStep(PrintStmt(s) + rest, s.cond, [Tk(Colon)] + (PrintBlock(s.body) + rest), s.body, rest);
  }

  /** `PStmt` hands the tokens to the production its leading token selects. */
  lemma StmtDispatch(ts: seq<Token>)
    ensures Kind(ts) == KwInt ==> PStmt(ts) == PDec(ts)
    ensures Kind(ts) == KwIf ==> PStmt(ts) == PIf(ts)
    ensures Kind(ts) == KwLoopc ==> PStmt(ts) == PLoop(ts)
  {
  }

  lemma AssignmentStep(ts: seq<Token>, eq: AST.Equation, rest: seq<Token>)
    requires Kind(ts) == Ident && PEquation(ts) == Ok(eq, rest)
    ensures PStmt(ts) == Ok(AST.Assignment(eq), rest)
  {
  }

  lemma PrintedAssignment(eq: AST.Equation, rest: seq<Token>)
    requires WellFormedExpr(eq.rhs)
    ensures PStmt(PrintEquation(eq) + rest) == Ok(AST.Assignment(eq), rest)
  {
    PrintedEquation(eq, rest);
    EquationTokens(eq, rest);
    AssignmentStep(PrintEquation(eq) + rest, eq, rest);
  }

  lemma PrintedStmt(s: AST.Stmt, rest: seq<Token>)
    requires WellFormedStmt(s) && EndsStmt(Kind(rest))
    ensures PStmt(PrintStmt(s) + rest) == Ok(s, rest)
  {
    StmtDispatch(PrintStmt(s) + rest);
    match s
    case Declaration(vars, init) => PrintedDeclaration(vars, init, rest);
    case Assignment(eq) => PrintedAssignment(eq, rest);
    case If(_, _, _, _) => PrintedIf(s, rest);
    case Loop(_, _) => PrintedLoop(s, rest);
  }

  /** Every printed statement starts with the token that selects its
      production. */
  lemma PrintedStmtHead(s: AST.Stmt, rest: seq<Token>)
    requires WellFormedStmt(s)
    ensures Kind(PrintStmt(s) + rest) in {KwInt, Ident, KwIf, KwLoopc}
  {
    match s
    case Declaration(vars, init) => DeclarationTokens(vars, init, rest);
    case Assignment(eq) => EquationTokens(eq, rest);
    case If(c, body, elifs, els) =>
      var pg := PrintGuarded(KwIf, c, body);
      Assoc(pg + PrintElifs(elifs), PrintOptElse(els), rest);
      Assoc(pg, PrintElifs(elifs), PrintOptElse(els) + rest);
      GuardTokens(KwIf, c, body, PrintElifs(elifs) + (PrintOptElse(els) + rest));
    case Loop(c, body) => GuardTokens(KwLoopc, c, body, rest);
  }

  /** The token after a printed statement list: the first token of the
      next statement, or what follows the list. */
  lemma PrintedStmtsHead(ss: seq<AST.Stmt>, rest: seq<Token>)
    requires forall k :: 0 <= k < |ss| ==> WellFormedStmt(ss[k])
    requires Kind(rest) == Eoi
    ensures ss != [] ==> Kind(PrintStmts(ss) + rest) in {KwInt, Ident, KwIf, KwLoopc}
    ensures EndsStmt(Kind(PrintStmts(ss) + rest))
  {
    if ss == [] {
      assert PrintStmts(ss) + rest == rest;
    } else {
      Assoc(PrintStmt(ss[0]), PrintStmts(ss[1..]), rest);
      PrintedStmtHead(ss[0], PrintStmts(ss[1..]) + rest);
    }
  }

  lemma StmtsStep(ts: seq<Token>, acc: seq<AST.Stmt>, s: AST.Stmt, rest: seq<Token>)
    requires Kind(ts) != Eoi && PStmt(ts) == Ok(s, rest)
    ensures PStmts(ts, acc) == PStmts(rest, acc + [s])
  {
  }

  /** Reading the first printed statement of a non-empty list. */
  lemma PrintedFirstStmt(ss: seq<AST.Stmt>, rest: seq<Token>, acc: seq<AST.Stmt>)
    requires ss != [] && forall k :: 0 <= k < |ss| ==> WellFormedStmt(ss[k])
    requires Kind(rest) == Eoi
    ensures PStmts(PrintStmts(ss) + rest, acc) == PStmts(PrintStmts(ss[1..]) + rest, acc + [ss[0]])
  {
    var p0, ps := PrintStmt(ss[0]), PrintStmts(ss[1..]);
    Assoc(p0, ps, rest);
    PrintedStmtsHead(ss, rest);
    PrintedStmtsHead(ss[1..], rest);
    PrintedStmt(ss[0], ps + rest);
    StmtsStep(p0 + (ps + rest), acc, ss[0], ps + rest);
  }

  lemma {:induction false} PrintedStmts(ss: seq<AST.Stmt>, rest: seq<Token>, acc: seq<AST.Stmt>)
    requires forall k :: 0 <= k < |ss| ==> WellFormedStmt(ss[k])
    requires Kind(rest) == Eoi
    ensures PStmts(PrintStmts(ss) + rest, acc) == Ok(acc + ss, rest)
    decreases |ss|
  {
    if ss == [] {
      assert acc + ss == acc;
      assert PrintStmts(ss) + rest == rest;
    } else {
      PrintedFirstStmt(ss, rest, acc);
      PrintedStmts(ss[1..], rest, acc + [ss[0]]);
      Regroup(acc, ss);
    }
  }

  /** Parsing a printed program gives the program back and consumes all of
      it. */
  lemma ParsePrint(g: AST.Goal)
    requires WellFormedGoal(g)
    ensures PGoal(PrintGoal(g)) == Ok(g, [])
  {
    assert PrintGoal(g) + [] == PrintGoal(g);
    PrintedStmts(g.stmts, [], []);
    EmptyPrefix(g.stmts);
  }
  // ---------------------------------------------------------------------
  // Grouping
  // ---------------------------------------------------------------------

  /** `a - b - c` reads as `(a - b) - c`: `+` and `-` group to the left
      (parser.cpp:156-167). */
  lemma MinusGroupsLeft(a: string, b: string, c: string, rest: seq<Token>)
    requires EndsExpr(Kind(rest))
    ensures PExpr([Token(Ident, a), Tk(Minus), Token(Ident, b), Tk(Minus), Token(Ident, c)] + rest)
      == Ok(AST.BinaryOp(AST.Minus, AST.BinaryOp(AST.Minus, AST.Final(AST.Id, a), AST.Final(AST.Id, b)), AST.Final(AST.Id, c)), rest)
  {
    var x, y, z := AST.Final(AST.Id, a), AST.Final(AST.Id, b), AST.Final(AST.Id, c);
    var l := AST.BinaryOp(AST.Minus, x, y);
    assert PrintExpr(l, ExprLevel) == [Token(Ident, a)] + [Tk(Minus)] + [Token(Ident, b)] by {
      assert PrintExpr(x, ExprLevel) == [Token(Ident, a)];
      assert PrintExpr(y, TermLevel) == [Token(Ident, b)];
    }
    var e := AST.BinaryOp(AST.Minus, l, z);
    assert PrintExpr(e, ExprLevel) == [Token(Ident, a), Tk(Minus), Token(Ident, b), Tk(Minus), Token(Ident, c)] by {
      assert PrintExpr(z, TermLevel) == [Token(Ident, c)];
    }
    ParsePrintedExpr(e, rest);
  }

  /** `a + b * c` reads as `a + (b * c)` and `a * b + c` as `(a * b) + c`:
      `*` binds tighter than `+` (parser.cpp:156-187). */
  lemma TimesBindsTighter(a: string, b: string, c: string, rest: seq<Token>)
    requires EndsExpr(Kind(rest))
    ensures PExpr([Token(Ident, a), Tk(Plus), Token(Ident, b), Tk(Star), Token(Ident, c)] + rest)
      == Ok(AST.BinaryOp(AST.Plus, AST.Final(AST.Id, a), AST.BinaryOp(AST.Mul, AST.Final(AST.Id, b), AST.Final(AST.Id, c))), rest)
    ensures PExpr([Token(Ident, a), Tk(Star), Token(Ident, b), Tk(Plus), Token(Ident, c)] + rest)
      == Ok(AST.BinaryOp(AST.Plus, AST.BinaryOp(AST.Mul, AST.Final(AST.Id, a), AST.Final(AST.Id, b)), AST.Final(AST.Id, c)), rest)
  {
    var x, y, z := AST.Final(AST.Id, a), AST.Final(AST.Id, b), AST.Final(AST.Id, c);
    var e1 := AST.BinaryOp(AST.Plus, x, AST.BinaryOp(AST.Mul, y, z));
    assert PrintExpr(e1, ExprLevel) == [Token(Ident, a), Tk(Plus), Token(Ident, b), Tk(Star), Token(Ident, c)] by {
      assert PrintExpr(x, ExprLevel) == [Token(Ident, a)];
      assert PrintExpr(y, TermLevel) == [Token(Ident, b)];
      assert PrintExpr(z, FactorLevel) == [Token(Ident, c)];
      assert PrintExpr(AST.BinaryOp(AST.Mul, y, z), TermLevel) == [Token(Ident, b)] + [Tk(Star)] + [Token(Ident, c)];
    }
    ParsePrintedExpr(e1, rest);
    var e2 := AST.BinaryOp(AST.Plus, AST.BinaryOp(AST.Mul, x, y), z);
    assert PrintExpr(e2, ExprLevel) == [Token(Ident, a), Tk(Star), Token(Ident, b), Tk(Plus), Token(Ident, c)] by {
      assert PrintExpr(x, TermLevel) == [Token(Ident, a)];
      assert PrintExpr(y, FactorLevel) == [Token(Ident, b)];
      assert PrintExpr(z, TermLevel) == [Token(Ident, c)];
      assert PrintExpr(AST.BinaryOp(AST.Mul, x, y), ExprLevel) == [Token(Ident, a)] + [Tk(Star)] + [Token(Ident, b)] by {
        assert PrintExpr(AST.BinaryOp(AST.Mul, x, y), ExprLevel) == PrintExpr(x, TermLevel) + [Tk(Star)] + PrintExpr(y, FactorLevel);
      }
    }
    ParsePrintedExpr(e2, rest);
  }

  /** `p and q or r` reads as `(p and q) or r`: `and` and `or` chain to the
      left with no precedence between them (parser.cpp:327-338). */
  lemma ConditionsChainLeft(p: AST.Cond, q: AST.Cond, r: AST.Cond, rest: seq<Token>)
    requires WellFormedCond(p) && q.Condition? && WellFormedCond(q) && r.Condition? && WellFormedCond(r)
    requires EndsConds(Kind(rest))
    ensures PConds(PrintCond(p) + [Tk(KwAnd)] + PrintCond(q) + [Tk(KwOr)] + PrintCond(r) + rest)
      == Ok(AST.C(AST.Or, AST.C(AST.And, p, q), r), rest)
  {
    var c := AST.C(AST.Or, AST.C(AST.And, p, q), r);
    assert PrintCond(c) == PrintCond(p) + [Tk(KwAnd)] + PrintCond(q) + [Tk(KwOr)] + PrintCond(r);
    ParsePrintedConds(c, rest);
  }

  /** The body loop of parseLoop as written drops the equations of a body
      that starts with one (and, by `LoopBodyAsWritten`'s contract, never
      ends on any other body), where the intended loop reads every equation
      up to the first token that is not an identifier. */
  lemma LoopBodyAsWrittenCounterexample(x: string)
    ensures var ts := [Token(Ident, x), Tk(Equal), Token(Number, "1"), Tk(Semicolon), Tk(KwEnd)];
      && LoopBodyAsWritten(ts) == Some([])
      && PEquations(ts, []) == Ok([AST.Equation(x, AST.Final(AST.Num, "1"), AST.Equal)], [Tk(KwEnd)])
  {
    var eq := AST.Equation(x, AST.Final(AST.Num, "1"), AST.Equal);
    assert PrintEquations([eq]) == [Token(Ident, x), Tk(Equal), Token(Number, "1"), Tk(Semicolon)] by {
      assert [eq][1..] == [];
      assert PrintExpr(eq.rhs, ExprLevel) == [Token(Number, "1")];
    }
    var ts := [Token(Ident, x), Tk(Equal), Token(Number, "1"), Tk(Semicolon), Tk(KwEnd)];
    assert ts == PrintEquations([eq]) + [Tk(KwEnd)];
    PrintedEquations([eq], [Tk(KwEnd)], []);
    assert [] + [eq] == [eq];
  }
}

