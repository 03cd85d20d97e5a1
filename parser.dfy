// The recursive-descent parser (parser.h, parser.cpp) as a class that pulls
// tokens from a Lexer one at a time.
//
// The parser's state is the lexer it reads from, the current token and the
// error flag. Each parse method is proved against the production of the same
// name in module Grammar: run on the tokens not consumed yet, it returns the
// node the production returns and leaves exactly the tokens the production
// leaves, or, when the production fails, it returns nothing, has consumed
// every token up to end of input (the source's `_error:` exit) and has set
// the error flag exactly when the production reports the failure.

module Parser {
  import opened Wrappers
  import opened Tokens
  import opened Grammar
  import Lexer
  import AST

  /** What a parse method's result and final state are, given the outcome
      `p` of its production on the tokens it started from: `rem` is what is
      left to read and `err`/`err0` the error flag after and before. */
  ghost predicate Outcome<T>(r: Option<T>, p: Parsed<T>, rem: seq<Token>, err: bool, err0: bool) {
    match p
    case Ok(v, rest) => r == Some(v) && rem == rest && err == err0
    case Fail(rep) => r.None? && rem == [] && err == (err0 || rep)
  }

  /** The tokens after the first one; none after end of input. */
  function Rest(ts: seq<Token>): seq<Token> {
    if ts == [] then [] else ts[1..]
  }

  /** One step of the scanner over the token stream: the stream from `p` is
      the token scanned at `p` followed by the stream from where it ends,
      and once end of input is scanned nothing is left. */
  lemma ScanStep(buf: string, p: nat)
    requires p <= |buf|
    ensures var s := Lexer.Scan(buf, p);
      && Lexer.TokenStream(buf, p) == (if s.tok.kind == Eoi then [] else [s.tok] + Lexer.TokenStream(buf, s.end))
      && (s.tok.kind == Eoi ==> Lexer.TokenStream(buf, s.end) == [])
  {
    var s := Lexer.Scan(buf, p);
    if s.tok.kind == Eoi {
      assert s.end == |buf|;
      assert Lexer.SkipWhitespace(buf, |buf|) == |buf|;
    }
  }

  /** One round of the statement loop. */
  lemma StmtsUnfold(ts: seq<Token>, acc: seq<AST.Stmt>)
    requires Kind(ts) != Eoi
    ensures PStmt(ts).Fail? ==> PStmts(ts, acc) == Fail(PStmt(ts).reported)
    ensures PStmt(ts).Ok? ==> PStmts(ts, acc) == PStmts(PStmt(ts).rest, acc + [PStmt(ts).value])
  {
  }

  /** `PCond` after its left operand. */
  lemma CondUnfold(ts: seq<Token>, left: AST.Expr, mid: seq<Token>)
    requires PExpr(ts) == Ok(left, mid)
    ensures RelOpOf(Kind(mid)).None? ==> PCond(ts) == Fail(true)
    ensures RelOpOf(Kind(mid)).Some? && PExpr(mid[1..]).Fail? ==> PCond(ts) == Fail(PExpr(mid[1..]).reported)
    ensures RelOpOf(Kind(mid)).Some? && PExpr(mid[1..]).Ok? ==>
      PCond(ts) == Ok(AST.Condition(left, RelOpOf(Kind(mid)).value, PExpr(mid[1..]).value), PExpr(mid[1..]).rest)
  {
  }

  class Parser {
    const lex: Lexer.Lexer
    var tok: Token
    var hasError: bool

    /** The current token is the last one scanned; once it is end of input,
        the lexer has nothing more to give. */
    ghost predicate Valid()
      reads this, lex
    {
      && lex.Valid()
      && (tok.kind == Eoi ==> Lexer.TokenStream(lex.buffer, lex.bufferPtr) == [])
    }

    /** The tokens not consumed yet: the current token, then what the lexer
        has still to scan. */
    ghost function Remaining(): (ts: seq<Token>)
      requires lex.Valid()
      reads this, lex
      ensures Kind(ts) == tok.kind
      ensures ts != [] ==> ts[0] == tok
    {
      if tok.kind == Eoi then [] else [tok] + Lexer.TokenStream(lex.buffer, lex.bufferPtr)
    }

    /** `Parser(Lexer &)` (parser.h:56): clear the error flag and read the
        first token. */
    constructor (lex: Lexer.Lexer)
      requires lex.Valid()
      modifies lex
      ensures Valid() && this.lex == lex && !hasError
      ensures Remaining() == old(Lexer.TokenStream(lex.buffer, lex.bufferPtr))
    {
      ScanStep(lex.buffer, lex.bufferPtr);
      var t := lex.Next();
      this.lex := lex;
      tok := t;
      hasError := false;
    }

    /** `error` (parser.h:13-17): set the error flag. The message it prints
        is not modelled. */
    method Error()
      requires Valid()
      modifies this
      ensures Valid() && hasError && tok == old(tok)
      ensures Remaining() == old(Remaining())
    {
      hasError := true;
    }

    /** `advance` (parser.h:18): read the next token. */
    method Advance()
      requires Valid()
      modifies this, lex
      ensures Valid() && hasError == old(hasError)
      ensures Remaining() == Rest(old(Remaining()))
    {
      ScanStep(lex.buffer, lex.bufferPtr);
      tok := lex.Next();
    }

    /** `expect` (parser.h:20-28): report when the current token is not of
        the given kind; true means it was not. */
    method Expect(k: TokenKind) returns (failed: bool)
      requires Valid()
      modifies this
      ensures Valid() && tok == old(tok)
      ensures failed <==> old(tok.kind) != k
      ensures hasError == (old(hasError) || failed)
      ensures Remaining() == old(Remaining())
    {
      if tok.kind != k {
        Error();
        return true;
      }
      return false;
    }

    /** `consume` (parser.h:30-36): `expect`, and on success advance. */
    method Consume(k: TokenKind) returns (failed: bool)
      requires Valid()
      modifies this, lex
      ensures Valid()
      ensures failed <==> Kind(old(Remaining())) != k
      ensures hasError == (old(hasError) || failed)
      ensures Remaining() == if failed then old(Remaining()) else Rest(old(Remaining()))
    {
      failed := Expect(k);
      if failed {
        return;
      }
      Advance();
    }

    /** The error exit `_error:` (parser.cpp:106-109, 411-416): skip every
        token up to end of input. */
    method Drain()
      requires Valid()
      modifies this, lex
      ensures Valid() && hasError == old(hasError)
      ensures Remaining() == [] && tok.kind == Eoi
    {
      while tok.kind != Eoi
        invariant Valid() && hasError == old(hasError)
        decreases |Remaining()|
      {
        Advance();
      }
    }

    // -------------------------------------------------------------------
    // Expressions
    // -------------------------------------------------------------------

    /** `parseFinal` (parser.cpp:189-215). */
    method ParseFinal() returns (r: Option<AST.Expr>)
      requires Valid()
      modifies this, lex
      ensures Valid()
      ensures Outcome(r, PFinal(old(Remaining())), Remaining(), hasError, old(hasError))
      decreases |Remaining()|, 0
    {
      if tok.Is(Number) {
        r := Some(AST.Final(AST.Num, tok.text));
        Advance();
      } else if tok.Is(Ident) {
        r := Some(AST.Final(AST.Id, tok.text));
        Advance();
      } else if tok.Is(LParen) {
        Advance();
        r := ParseExpr();
        if r.None? {
          return;
        }
        var failed := Consume(RParen);
        if failed {
          Drain();
          r := None;
        }
      } else {
        Error();
        Drain();
        r := None;
      }
    }

    /** `parseFactor` (declared at parser.h:44, never defined): an operand,
        then optionally `^` and an integer literal. */
    method ParseFactor() returns (r: Option<AST.Expr>)
      requires Valid()
      modifies this, lex
      ensures Valid()
      ensures Outcome(r, PFactor(old(Remaining())), Remaining(), hasError, old(hasError))
      decreases |Remaining()|, 1
    {
      r := ParseFinal();
      if r.None? || !tok.Is(Power) {
        return;
      }
      Advance();
      if !tok.Is(Number) {
        Error();
        Drain();
        return None;
      }
      r := Some(AST.BinaryOp(AST.Pow, r.value, AST.Final(AST.Num, tok.text)));
      Advance();
    }

    /** `parseTerm` (parser.cpp:169-187): factors joined by `*`, `/`, `%`,
        folded to the left. */
    method ParseTerm() returns (r: Option<AST.Expr>)
      requires Valid()
      modifies this, lex
      ensures Valid()
      ensures Outcome(r, PTerm(old(Remaining())), Remaining(), hasError, old(hasError))
      decreases |Remaining()|, 2
    {
      var left := ParseFactor();
      if left.None? {
        return None;
      }
      var e := left.value;
      while tok.kind in {Star, Slash, Percent}
        invariant Valid() && hasError == old(hasError)
        invariant PTerm(old(Remaining())) == PTermTail(Remaining(), e)
        decreases |Remaining()|
      {
        var op := if tok.Is(Star) then AST.Mul else if tok.Is(Slash) then AST.Div else AST.Mod;
        assert MulOp(Kind(Remaining())) == Some(op);
        Advance();
        var right := ParseFactor();
        if right.None? {
          return None;
        }
        e := AST.BinaryOp(op, e, right.value);
      }
      return Some(e);
    }

    /** `parseExpr` (parser.cpp:156-167): terms joined by `+`, `-`, folded to
        the left. */
    method ParseExpr() returns (r: Option<AST.Expr>)
      requires Valid()
      modifies this, lex
      ensures Valid()
      ensures Outcome(r, PExpr(old(Remaining())), Remaining(), hasError, old(hasError))
      decreases |Remaining()|, 3
    {
      var left := ParseTerm();
      if left.None? {
        return None;
      }
      var e := left.value;
      while tok.IsOneOf2(Plus, Minus)
        invariant Valid() && hasError == old(hasError)
        invariant PExpr(old(Remaining())) == PExprTail(Remaining(), e)
        decreases |Remaining()|
      {
        var op := if tok.Is(Plus) then AST.Plus else AST.Minus;
        Advance();
        var right := ParseTerm();
        if right.None? {
          return None;
        }
        e := AST.BinaryOp(op, e, right.value);
      }
      return Some(e);
    }

    // -------------------------------------------------------------------
    // Conditions
    // -------------------------------------------------------------------

    /** `parseCondition` (parser.cpp:341-365): expression, relational
        operator, expression. */
    method ParseCondition() returns (r: Option<AST.Cond>)
      requires Valid()
      modifies this, lex
      ensures Valid()
      ensures Outcome(r, PCond(old(Remaining())), Remaining(), hasError, old(hasError))
    {
      ghost var ts := Remaining();
      var left := ParseExpr();
      if left.None? {
        return None;
      }
      ghost var mid := Remaining();
      CondUnfold(ts, left.value, mid);
      var rel := RelOpOf(tok.kind);
      if rel.None? {
        Error();
        Drain();
        return None;
      }
      Advance();
      assert Remaining() == mid[1..];
      var right := ParseExpr();
      if right.None? {
        return None;
      }
      return Some(AST.Condition(left.value, rel.value, right.value));
    }

    /** `parseConditions` (parser.cpp:327-338): conditions joined by `and`,
        `or`, folded to the left. */
    method ParseConditions() returns (r: Option<AST.Cond>)
      requires Valid()
      modifies this, lex
      ensures Valid()
      ensures Outcome(r, PConds(old(Remaining())), Remaining(), hasError, old(hasError))
    {
      var left := ParseCondition();
      if left.None? {
        return None;
      }
      var c := left.value;
      while tok.IsOneOf2(KwAnd, KwOr)
        invariant Valid() && hasError == old(hasError)
        invariant PConds(old(Remaining())) == PCondsTail(Remaining(), c)
        decreases |Remaining()|
      {
        var op := if tok.Is(KwAnd) then AST.And else AST.Or;
        Advance();
        var right := ParseCondition();
        if right.None? {
          return None;
        }
        c := AST.C(op, c, right.value);
      }
      return Some(c);
    }

    // -------------------------------------------------------------------
    // Statements
    // -------------------------------------------------------------------

    /** `parseEquation` (parser.cpp:112-154): identifier, assignment
        operator, expression, `;`. */
    method ParseEquation() returns (r: Option<AST.Equation>)
      requires Valid()
      modifies this, lex
      ensures Valid()
      ensures Outcome(r, PEquation(old(Remaining())), Remaining(), hasError, old(hasError))
    {
      if !tok.Is(Ident) {
        Drain();
        return None;
      }
      ghost var ts := Remaining();
      var target := tok.text;
      Advance();
      assert Remaining() == ts[1..];
      var op := AssignOpOf(tok.kind);
      if op.None? {
        Error();
        Drain();
        return None;
      }
      Advance();
      assert Remaining() == ts[2..];
      var e := ParseExpr();
      if e.None? {
        return None;
      }
      var failed := Consume(Semicolon);
      if failed {
        Drain();
        return None;
      }
      return Some(AST.Equation(target, e.value, op.value));
    }

    /** `begin`, the loop `while (Tok.is(id)) parseEquation()`, `end`: the
        block of parseIf, parseElif, parseElse and parseLoop. */
    method ParseBlock() returns (r: Option<seq<AST.Equation>>)
      requires Valid()
      modifies this, lex
      ensures Valid()
      ensures Outcome(r, PBlock(old(Remaining())), Remaining(), hasError, old(hasError))
    {
      var failed := Consume(KwBegin);
      if failed {
        Drain();
        return None;
      }
      var eqs := ParseEquations();
      if eqs.None? {
        return None;
      }
      failed := Consume(KwEnd);
      if failed {
        Drain();
        return None;
      }
      return eqs;
    }

    /** The loop `while (Tok.is(id)) parseEquation()` of a block. */
    method ParseEquations() returns (r: Option<seq<AST.Equation>>)
      requires Valid()
      modifies this, lex
      ensures Valid()
      ensures Outcome(r, PEquations(old(Remaining()), []), Remaining(), hasError, old(hasError))
    {
      ghost var start := Remaining();
      var eqs: seq<AST.Equation> := [];
      while tok.Is(Ident)
        invariant Valid() && hasError == old(hasError)
        invariant PEquations(start, []) == PEquations(Remaining(), eqs)
        decreases |Remaining()|
      {
        var eq := ParseEquation();
        if eq.None? {
          return None;
        }
        eqs := eqs + [eq.value];
      }
      return Some(eqs);
    }

    /** `parseElif` (parser.cpp:261-294): `elif` conditions `:` block. */
    method ParseElif() returns (r: Option<AST.Elif>)
      requires Valid()
      modifies this, lex
      ensures Valid()
      ensures Outcome(r, PElif(old(Remaining())), Remaining(), hasError, old(hasError))
    {
      var failed := Consume(KwElif);
      if failed {
        Drain();
        return None;
      }
      var c := ParseConditions();
      if c.None? {
        return None;
      }
      failed := Consume(Colon);
      if failed {
        Drain();
        return None;
      }
      var body := ParseBlock();
      if body.None? {
        return None;
      }
      return Some(AST.Elif(c.value, body.value));
    }

    /** `parseElse` (parser.cpp:296-325): `else` `:` block. */
    method ParseElse() returns (r: Option<AST.Else>)
      requires Valid()
      modifies this, lex
      ensures Valid()
      ensures Outcome(r, PElse(old(Remaining())), Remaining(), hasError, old(hasError))
    {
      var failed := Consume(KwElse);
      if failed {
        Drain();
        return None;
      }
      failed := Consume(Colon);
      if failed {
        Drain();
        return None;
      }
      var body := ParseBlock();
      if body.None? {
        return None;
      }
      return Some(AST.Else(body.value));
    }

    /** `parseIf` (parser.cpp:221-257): `if` conditions `:` block, the
        elifs, and an else clause when `else` follows. */
    method ParseIf() returns (r: Option<AST.Stmt>)
      requires Valid()
      modifies this, lex
      ensures Valid()
      ensures Outcome(r, PIf(old(Remaining())), Remaining(), hasError, old(hasError))
    {
      var failed := Consume(KwIf);
      if failed {
        Drain();
        return None;
      }
      var c := ParseConditions();
      if c.None? {
        return None;
      }
      failed := Consume(Colon);
      if failed {
        Drain();
        return None;
      }
      var body := ParseBlock();
      if body.None? {
        return None;
      }
      r := ParseIfTail(c.value, body.value);
    }

    /** The rest of parseIf (parser.cpp:246-256): the elif loop, then the
        else clause. */
    method ParseIfTail(c: AST.Cond, body: seq<AST.Equation>) returns (r: Option<AST.Stmt>)
      requires Valid()
      modifies this, lex
      ensures Valid()
      ensures Outcome(r, PIfTail(old(Remaining()), c, body), Remaining(), hasError, old(hasError))
    {
      var elifs: seq<AST.Elif> := [];
      while tok.Is(KwElif)
        invariant Valid() && hasError == old(hasError)
        invariant PElifs(old(Remaining()), []) == PElifs(Remaining(), elifs)
        decreases |Remaining()|
      {
        var el := ParseElif();
        if el.None? {
          return None;
        }
        elifs := elifs + [el.value];
      }
      if !tok.Is(KwElse) {
        return Some(AST.If(c, body, elifs, None));
      }
      var els := ParseElse();
      if els.None? {
        return None;
      }
      return Some(AST.If(c, body, elifs, Some(els.value)));
    }

    /** `parseLoop` (parser.cpp:367-408): `loopc` conditions `:` block; the
        keyword, colon and `begin` checks leave without reporting. */
    method ParseLoop() returns (r: Option<AST.Stmt>)
      requires Valid()
      modifies this, lex
      ensures Valid()
      ensures Outcome(r, PLoop(old(Remaining())), Remaining(), hasError, old(hasError))
    {
      if !tok.Is(KwLoopc) {
        Drain();
        return None;
      }
      Advance();
      var c := ParseConditions();
      if c.None? {
        return None;
      }
      if !tok.Is(Colon) {
        Drain();
        return None;
      }
      Advance();
      if !tok.Is(KwBegin) {
        Drain();
        return None;
      }
      var body := ParseBlock();
      if body.None? {
        return None;
      }
      return Some(AST.Loop(c.value, body.value));
    }

    /** `parseDec` (parser.cpp:71-110): `int`, names separated by `,`, an
        optional `=` initializer, `;`. */
    method ParseDec() returns (r: Option<AST.Stmt>)
      requires Valid()
      modifies this, lex
      ensures Valid()
      ensures Outcome(r, PDec(old(Remaining())), Remaining(), hasError, old(hasError))
    {
      if !tok.Is(KwInt) {
        Drain();
        return None;
      }
      Advance();
      var failed := Expect(Ident);
      if failed {
        Drain();
        return None;
      }
      var first := tok.text;
      Advance();
      var vars := ParseMoreNames([first]);
      if vars.None? {
        return None;
      }
      var init: Option<AST.Expr> := None;
      if tok.Is(Equal) {
        Advance();
        var e := ParseExpr();
        if e.None? {
          return None;
        }
        init := Some(e.value);
      }
      failed := Consume(Semicolon);
      if failed {
        Drain();
        return None;
      }
      return Some(AST.Declaration(vars.value, init));
    }

    /** The name loop of parseDec (parser.cpp:87-94): `,` and a name, as
        long as a comma follows; `vars` holds the names already read. */
    method ParseMoreNames(vars: seq<string>) returns (r: Option<seq<string>>)
      requires Valid()
      modifies this, lex
      ensures Valid()
      ensures Outcome(r, PIdents(old(Remaining()), vars), Remaining(), hasError, old(hasError))
    {
      var names := vars;
      while tok.Is(Comma)
        invariant Valid() && hasError == old(hasError)
        invariant PIdents(old(Remaining()), vars) == PIdents(Remaining(), names)
        decreases |Remaining()|
      {
        Advance();
        var failed := Expect(Ident);
        if failed {
          Drain();
          return None;
        }
        names := names + [tok.text];
        Advance();
      }
      return Some(names);
    }

    /** `parseGoal` (parser.cpp:9-69): statements up to end of input, each
        chosen by its leading token. */
    method ParseGoal() returns (r: Option<AST.Goal>)
      requires Valid()
      modifies this, lex
      ensures Valid()
      ensures Outcome(r, PGoal(old(Remaining())), Remaining(), hasError, old(hasError))
    {
      var stmts: seq<AST.Stmt> := [];
      while !tok.Is(Eoi)
        invariant Valid() && hasError == old(hasError)
        invariant PStmts(old(Remaining()), []) == PStmts(Remaining(), stmts)
        decreases |Remaining()|
      {
        ghost var ts := Remaining();
        var s := ParseStmt();
        StmtsUnfold(ts, stmts);
        if s.None? {
          return None;
        }
        stmts := stmts + [s.value];
      }
      return Some(AST.Goal(stmts));
    }

    /** The body of parseGoal's loop (parser.cpp:14-64): one statement,
        chosen by its leading token; any other token takes the error exit. */
    method ParseStmt() returns (r: Option<AST.Stmt>)
      requires Valid()
      modifies this, lex
      ensures Valid()
      ensures Outcome(r, PStmt(old(Remaining())), Remaining(), hasError, old(hasError))
    {
      if tok.Is(KwInt) {
        r := ParseDec();
      } else if tok.Is(Ident) {
        var eq := ParseEquation();
        r := if eq.Some? then Some(AST.Assignment(eq.value)) else None;
      } else if tok.Is(KwLoopc) {
        r := ParseLoop();
      } else if tok.Is(KwIf) {
        r := ParseIf();
      } else {
        Drain();
        r := None;
      }
    }

    /** `parse` (parser.cpp:3-7). */
    method Parse() returns (r: Option<AST.Goal>)
      requires Valid()
      modifies this, lex
      ensures Valid()
      ensures Outcome(r, PGoal(old(Remaining())), Remaining(), hasError, old(hasError))
    {
      r := ParseGoal();
    }
  }
}
