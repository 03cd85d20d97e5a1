// The blocks the code generator's visitor builds for whole statements and
// for the program (CodeGen.cpp:43-68, :186-273), as functions of the
// builder's state, with the shape of what they build.
//
// The builder's state is the list of `main`'s blocks, the insertion block
// (where `IRBuilder` appends), the symbol table and the next free value
// number. Blocks are numbered by their place in the list. The source
// creates an `if`'s else and merge blocks detached and adds them to the
// function later (CodeGen.cpp:214-215, :228, :238), which only changes where
// they are listed; here every block is listed when it is created.

module ControlFlow {
  import opened Wrappers
  import opened AST
  import opened IR
  import opened Semantics
  import opened Lowering

  /** The builder: `main`'s blocks so far, the insertion block, the symbol
      table (`nameMap`) and the next free value number. */
  datatype Gen = Gen(blocks: seq<Block>, cur: nat, names: map<string, nat>, next: nat)

  function NewBlock(name: string): Block {
    Block(name, [], None)
  }

  /** Appends straight-line code at the insertion point. */
  function Emit(g: Gen, c: Code): Gen
    requires g.cur < |g.blocks|
  {
    g.(blocks := g.blocks[g.cur := g.blocks[g.cur].(body := g.blocks[g.cur].body + c.instrs)], next := c.next)
  }

  /** Adds new, empty blocks to the function. */
  function Open(g: Gen, bs: seq<Block>): Gen {
    g.(blocks := g.blocks + bs)
  }

  /** Ends the insertion block with `t` and moves the insertion point to
      block `to` (`CreateBr`/`CreateCondBr`, then `SetInsertPoint`). */
  function Jump(g: Gen, t: Terminator, to: nat): Gen
    requires g.cur < |g.blocks|
  {
    g.(blocks := g.blocks[g.cur := g.blocks[g.cur].(term := Some(t))], cur := to)
  }

  predicate ElifsReady(elifs: seq<Elif>, declared: set<string>) {
    forall i :: 0 <= i < |elifs| ==> CondReady(elifs[i].cond, declared) && EquationsReady(elifs[i].body, declared)
  }

  /** What the visitor assumes of a statement: every name it reads or
      assigns has a slot, given the names declared before it. */
  predicate StmtReady(s: Stmt, declared: set<string>) {
    match s
    case Declaration(_, init) => init.Some? ==> ExprReady(init.value, declared)
    case Assignment(eq) => EquationReady(eq, declared)
    case If(c, body, elifs, els) =>
      && CondReady(c, declared) && EquationsReady(body, declared) && ElifsReady(elifs, declared)
      && (els.Some? ==> EquationsReady(els.value.body, declared))
    case Loop(c, body) => CondReady(c, declared) && EquationsReady(body, declared)
  }

  /** The names declared after a statement. */
  function Scope(s: Stmt, declared: set<string>): set<string> {
    if s.Declaration? then declared + NamesOf(s.vars) else declared
  }

  function ScopeAfter(ss: seq<Stmt>, declared: set<string>): set<string>
    decreases |ss|
  {
    if ss == [] then declared else Scope(ss[|ss| - 1], ScopeAfter(ss[..|ss| - 1], declared))
  }

  /** Every statement is ready given the declarations before it. */
  predicate StmtsReady(ss: seq<Stmt>, declared: set<string>) {
    forall i :: 0 <= i < |ss| ==> StmtReady(ss[i], ScopeAfter(ss[..i], declared))
  }

  lemma StmtsReadyFront(ss: seq<Stmt>, declared: set<string>)
    requires ss != [] && StmtsReady(ss, declared)
    ensures StmtsReady(ss[..|ss| - 1], declared)
    ensures StmtReady(ss[|ss| - 1], ScopeAfter(ss[..|ss| - 1], declared))
  {
    var front := ss[..|ss| - 1];
    forall i | 0 <= i < |front| ensures StmtReady(front[i], ScopeAfter(front[..i], declared)) {
      assert front[..i] == ss[..i];
    }
  }

  lemma StmtsReadyPrefix(ss: seq<Stmt>, n: nat, declared: set<string>)
    requires n <= |ss| && StmtsReady(ss, declared)
    ensures StmtsReady(ss[..n], declared)
  {
    forall i | 0 <= i < n ensures StmtReady(ss[..n][i], ScopeAfter(ss[..n][..i], declared)) {
      assert ss[..n][..i] == ss[..i];
    }
  }

  // ---------------------------------------------------------------------
  // Statements
  // ---------------------------------------------------------------------

  /** A block of assignments at the insertion point. */
  function EquationsGen(eqs: seq<Equation>, g: Gen): (g': Gen)
    requires g.cur < |g.blocks| && EquationsReady(eqs, g.names.Keys)
    ensures g'.cur == g.cur && |g'.blocks| == |g.blocks| && g'.names == g.names && g.next <= g'.next
  {
    Emit(g, EquationsCode(eqs, g.names, g.next))
  }

  /** A declaration (CodeGen.cpp:248-273): its code at the insertion point,
      and its names registered with their new slots. */
  function DeclGen(vars: seq<string>, init: Option<Expr>, g: Gen): (g': Gen)
    requires g.cur < |g.blocks| && (init.Some? ==> ExprReady(init.value, g.names.Keys))
    ensures g'.cur == g.cur && |g'.blocks| == |g.blocks| && g'.names.Keys == g.names.Keys + NamesOf(vars)
    ensures g.next <= g'.next
  {
    var base := DeclBase(init, g.names, g.next);
    BoundNames(vars, g.names, base);
    Emit(g, DeclCode(vars, init, g.names, g.next)).(names := Bound(vars, g.names, base))
  }

  /** A loop (CodeGen.cpp:186-205): three new blocks; the insertion block
      branches to the condition block, which tests the condition and
      branches to the body or past the loop; the body branches back to the
      condition; code after the loop goes in the block past it. */
  function LoopGen(c: Cond, body: seq<Equation>, g: Gen): (g': Gen)
    requires g.cur < |g.blocks| && CondReady(c, g.names.Keys) && EquationsReady(body, g.names.Keys)
    ensures g'.cur == |g.blocks| + 2 && |g'.blocks| == |g.blocks| + 3 && g'.names == g.names && g.next <= g'.next
  {
    var cc := CondCode(c, g.names, g.next);
    LoopOf(g, cc, EquationsCode(body, g.names, cc.next))
  }

  /** The loop's blocks around the condition's code `cc` and the body's
      code `bc`. */
  function LoopOf(g: Gen, cc: Code, bc: Code): Gen
    requires g.cur < |g.blocks|
  {
    var head := |g.blocks|;
    var g1 := Jump(Open(g, [NewBlock("loopc.cond"), NewBlock("loopc.body"), NewBlock("after.loopc")]), Br(head), head);
    var g2 := Jump(Emit(g1, cc), CondBr(cc.v, head + 1, head + 2), head + 1);
    Jump(Emit(g2, bc), Br(head), head + 2)
  }

  /** One `elif` in the else block of the clause before it: its condition,
      then a branch to its own then-block, which ends by branching to the
      merge block, or on to a new block for whatever comes next. The source
      has no visitor for `Elif` (CodeGen.cpp:231-234 calls one); this is the
      lowering its place in the `if` evidently calls for. */
  function ElifGen(el: Elif, merge: nat, g: Gen): (g': Gen)
    requires g.cur < |g.blocks| && CondReady(el.cond, g.names.Keys) && EquationsReady(el.body, g.names.Keys)
    ensures g'.cur == |g.blocks| + 1 && |g'.blocks| == |g.blocks| + 2 && g'.names == g.names && g.next <= g'.next
  {
    var t := |g.blocks|;
    var cc := CondCode(el.cond, g.names, g.next);
    var g1 := Jump(Open(Emit(g, cc), [NewBlock("elif.then"), NewBlock("elif.else")]), CondBr(cc.v, t, t + 1), t);
    Jump(EquationsGen(el.body, g1), Br(merge), t + 1)
  }

  function ElifsGen(elifs: seq<Elif>, merge: nat, g: Gen): (g': Gen)
    requires g.cur < |g.blocks| && ElifsReady(elifs, g.names.Keys)
    ensures g'.cur < |g'.blocks| && |g.blocks| <= |g'.blocks| && g'.names == g.names && g.next <= g'.next
    decreases |elifs|
  {
    if elifs == [] then g
    else ElifsGen(elifs[1..], merge, ElifGen(elifs[0], merge, g))
  }

  /** What follows an `if`'s then-block: the elifs, each in the else block
      of the clause before it, then the else body, if any, in the last such
      block, which ends by branching to the merge block, where code after
      the `if` goes (CodeGen.cpp:229-239, with the else body before the
      branch to the merge block). */
  function ChainGen(elifs: seq<Elif>, els: Option<Else>, merge: nat, g: Gen): (g': Gen)
    requires g.cur < |g.blocks| && ElifsReady(elifs, g.names.Keys) && (els.Some? ==> EquationsReady(els.value.body, g.names.Keys))
    ensures g'.cur == merge && |g.blocks| <= |g'.blocks| && g'.names == g.names && g.next <= g'.next
  {
    var g3 := ElifsGen(elifs, merge, g);
    var g4 := if els.Some? then EquationsGen(els.value.body, g3) else g3;
    Jump(g4, Br(merge), merge)
  }

  /** An `if` (CodeGen.cpp:207-245): the condition at the insertion point
      and three new blocks; a conditional branch to the then-block or the
      else-block; the then-block ends by branching to the merge block; the
      elifs and the else body follow in the else-block (see `ChainGen`).
      The source emits the else body after moving to the merge block
      (CodeGen.cpp:239-244); the model puts it in the else-block, where it
      evidently belongs (see the README's findings). */
  function IfGen(c: Cond, body: seq<Equation>, elifs: seq<Elif>, els: Option<Else>, g: Gen): (g': Gen)
    requires g.cur < |g.blocks| && CondReady(c, g.names.Keys) && EquationsReady(body, g.names.Keys)
    requires ElifsReady(elifs, g.names.Keys) && (els.Some? ==> EquationsReady(els.value.body, g.names.Keys))
    ensures g'.cur == |g.blocks| + 2 && |g.blocks| + 3 <= |g'.blocks| && g'.names == g.names && g.next <= g'.next
  {
    ChainGen(elifs, els, |g.blocks| + 2, IfHead(c, body, g))
  }

  /** An `if` as CodeGen.cpp:236-244 writes it: the else body goes into the
      merge block, after both branches have joined. */
  function IfGenAsWritten(c: Cond, body: seq<Equation>, elifs: seq<Elif>, els: Option<Else>, g: Gen): (g': Gen)
    requires g.cur < |g.blocks| && CondReady(c, g.names.Keys) && EquationsReady(body, g.names.Keys)
    requires ElifsReady(elifs, g.names.Keys) && (els.Some? ==> EquationsReady(els.value.body, g.names.Keys))
    ensures g'.cur == |g.blocks| + 2
  {
    var t := |g.blocks|;
    var cc := CondCode(c, g.names, g.next);
    var g1 := Jump(Open(Emit(g, cc), [NewBlock("then"), NewBlock("else"), NewBlock("merge")]), CondBr(cc.v, t, t + 1), t);
    var g2 := Jump(EquationsGen(body, g1), Br(t + 2), t + 1);
    var g3 := Jump(ElifsGen(elifs, t + 2, g2), Br(t + 2), t + 2);
    if els.Some? then EquationsGen(els.value.body, g3) else g3
  }

  /** The visitor's dispatch on a statement (the `accept` calls of
      AST.h, one `visit` per node kind). */
  function StmtGen(s: Stmt, g: Gen): (g': Gen)
    requires g.cur < |g.blocks| && StmtReady(s, g.names.Keys)
    ensures g'.cur < |g'.blocks| && g'.names.Keys == Scope(s, g.names.Keys) && g.next <= g'.next
  {
    match s
    case Declaration(vars, init) => DeclGen(vars, init, g)
    case Assignment(eq) =>
      var c := EquationCode(eq, g.names, g.next);
      Emit(g, c)
    case If(c, body, elifs, els) => IfGen(c, body, elifs, els, g)
    case Loop(c, body) => LoopGen(c, body, g)
  }

  /** The statements of a program, first to last (CodeGen.cpp:61-68). */
  function StmtsGen(ss: seq<Stmt>, g: Gen): (g': Gen)
    requires g.cur < |g.blocks| && StmtsReady(ss, g.names.Keys)
    ensures g'.cur < |g'.blocks| && g'.names.Keys == ScopeAfter(ss, g.names.Keys) && g.next <= g'.next
    decreases |ss|
  {
    if ss == [] then g
    else
      StmtsReadyFront(ss, g.names.Keys);
      StmtGen(ss[|ss| - 1], StmtsGen(ss[..|ss| - 1], g))
  }

  /** `run` (CodeGen.cpp:43-58): an entry block, the program's statements,
      and `ret 0` at the end. */
  function Compile(goal: Goal): (blocks: seq<Block>)
    requires StmtsReady(goal.stmts, {})
  {
    var g0 := Gen([NewBlock("entry")], 0, map[], 0);
    assert g0.names.Keys == {};
    var g := StmtsGen(goal.stmts, g0);
    Jump(g, Ret(Const(0)), g.cur).blocks
  }

  // ---------------------------------------------------------------------
  // The shape of what is built
  // ---------------------------------------------------------------------

  /** Every block a terminator names exists. */
  predicate TargetsIn(t: Terminator, n: nat) {
    match t
    case Br(b) => b < n
    case CondBr(_, b1, b2) => b1 < n && b2 < n
    case Ret(_) => true
  }

  /** The blocks in `open` have no terminator yet, and every other block
      has one whose targets exist; the insertion block is open. */
  predicate SealedExcept(g: Gen, open: set<nat>) {
    && g.cur < |g.blocks| && g.cur in open
    && (forall j :: j in open ==> j < |g.blocks| && g.blocks[j].term.None?)
    && (forall j :: 0 <= j < |g.blocks| && j !in open ==>
          g.blocks[j].term.Some? && TargetsIn(g.blocks[j].term.value, |g.blocks|))
  }

  /** A block keeps its name, only grows until it is sealed, and never
      changes after. */
  predicate Kept(b: Block, b': Block) {
    b'.name == b.name && b.body <= b'.body && (b.term.Some? ==> b' == b)
  }

  /** Every block of `bs` is still there, kept, in `bs'`. */
  predicate Grows(bs: seq<Block>, bs': seq<Block>) {
    |bs| <= |bs'| && forall j :: 0 <= j < |bs| ==> Kept(bs[j], bs'[j])
  }

  lemma GrowsTrans(a: seq<Block>, b: seq<Block>, c: seq<Block>)
    requires Grows(a, b) && Grows(b, c)
    ensures Grows(a, c)
  {
    forall j | 0 <= j < |a| ensures Kept(a[j], c[j]) {
      assert Kept(a[j], b[j]) && Kept(b[j], c[j]);
    }
  }

  /** Emitting at an open insertion block only lengthens that block. */
  lemma EmitGrows(g: Gen, c: Code, open: set<nat>)
    requires SealedExcept(g, open)
    ensures SealedExcept(Emit(g, c), open) && Grows(g.blocks, Emit(g, c).blocks)
  {
  }

  /** A block of assignments keeps the shape. */
  lemma EquationsGenGrows(eqs: seq<Equation>, g: Gen, open: set<nat>)
    requires SealedExcept(g, open) && EquationsReady(eqs, g.names.Keys)
    ensures SealedExcept(EquationsGen(eqs, g), open) && Grows(g.blocks, EquationsGen(eqs, g).blocks)
  {
    EmitGrows(g, EquationsCode(eqs, g.names, g.next), open);
  }

  /** The blocks of a loop: the insertion block branches to the condition
      block; the condition block holds the condition's code and branches to
      the body block when it holds and to the block after the loop when it
      does not; the body block holds the body's code and branches back to
      the condition block; the block after the loop is new and empty, and
      code after the loop goes there (CodeGen.cpp:186-205). Nothing else
      changes. */
  lemma LoopShape(c: Cond, body: seq<Equation>, g: Gen)
    requires g.cur < |g.blocks| && CondReady(c, g.names.Keys) && EquationsReady(body, g.names.Keys)
    ensures var g' := LoopGen(c, body, g); var h := |g.blocks|;
      var cc := CondCode(c, g.names, g.next);
      var bc := EquationsCode(body, g.names, cc.next);
      && g'.cur == h + 2 && g'.names == g.names && g'.next == bc.next
      && g'.blocks == g.blocks[g.cur := g.blocks[g.cur].(term := Some(Br(h)))]
                      + [Block("loopc.cond", cc.instrs, Some(CondBr(cc.v, h + 1, h + 2))),
                         Block("loopc.body", bc.instrs, Some(Br(h))), NewBlock("after.loopc")]
  {
    var cc := CondCode(c, g.names, g.next);
    LoopBlocks(g, cc, EquationsCode(body, g.names, cc.next));
  }

  /** The blocks of a loop around given condition and body code. */
  lemma LoopBlocks(g: Gen, cc: Code, bc: Code)
    requires g.cur < |g.blocks|
    ensures var h := |g.blocks|;
      LoopOf(g, cc, bc).blocks
        == g.blocks[g.cur := g.blocks[g.cur].(term := Some(Br(h)))]
           + [Block("loopc.cond", cc.instrs, Some(CondBr(cc.v, h + 1, h + 2))),
              Block("loopc.body", bc.instrs, Some(Br(h))), NewBlock("after.loopc")]
  {
    var h := |g.blocks|;
    var pre := g.blocks[g.cur := g.blocks[g.cur].(term := Some(Br(h)))];
    var g1 := Jump(Open(g, [NewBlock("loopc.cond"), NewBlock("loopc.body"), NewBlock("after.loopc")]), Br(h), h);
    assert g1.blocks == pre + [NewBlock("loopc.cond"), NewBlock("loopc.body"), NewBlock("after.loopc")];
    var cb := Block("loopc.cond", cc.instrs, Some(CondBr(cc.v, h + 1, h + 2)));
    var g2 := Jump(Emit(g1, cc), CondBr(cc.v, h + 1, h + 2), h + 1);
    assert g2.blocks == pre + [cb, NewBlock("loopc.body"), NewBlock("after.loopc")] by {
      assert [] + cc.instrs == cc.instrs;
      UpdateAppend(pre, [NewBlock("loopc.cond"), NewBlock("loopc.body"), NewBlock("after.loopc")], h, Block("loopc.cond", cc.instrs, None));
      UpdateAppend(pre, [Block("loopc.cond", cc.instrs, None), NewBlock("loopc.body"), NewBlock("after.loopc")], h, cb);
    }
    assert [] + bc.instrs == bc.instrs;
    UpdateAppend(pre, [cb, NewBlock("loopc.body"), NewBlock("after.loopc")], h + 1, Block("loopc.body", bc.instrs, None));
    UpdateAppend(pre, [cb, Block("loopc.body", bc.instrs, None), NewBlock("after.loopc")], h + 1, Block("loopc.body", bc.instrs, Some(Br(h))));
  }

  /** A loop keeps the shape: the three new blocks are added, the
      insertion block and the condition and body blocks are sealed with
      branches to blocks that exist. */
  lemma LoopGrows(c: Cond, body: seq<Equation>, g: Gen)
    requires SealedExcept(g, {g.cur}) && CondReady(c, g.names.Keys) && EquationsReady(body, g.names.Keys)
    ensures var g' := LoopGen(c, body, g); SealedExcept(g', {g'.cur}) && Grows(g.blocks, g'.blocks)
  {
    LoopShape(c, body, g);
    var cc := CondCode(c, g.names, g.next);
    LoopSealed(g, LoopGen(c, body, g), cc.v, cc.instrs, EquationsCode(body, g.names, cc.next).instrs);
  }

  /** The blocks of an `if`'s head: the insertion block holds the
      condition's code and branches to the then-block when it holds and to
      the else-block when it does not; the then-block holds the then-body's
      code and branches to the merge block (CodeGen.cpp:207-227). */
  lemma IfShape(c: Cond, body: seq<Equation>, g: Gen)
    requires g.cur < |g.blocks| && CondReady(c, g.names.Keys) && EquationsReady(body, g.names.Keys)
    ensures var t := |g.blocks|;
      var cc := CondCode(c, g.names, g.next);
      var bc := EquationsCode(body, g.names, cc.next);
      var g2 := IfHead(c, body, g);
      && g2.cur == t + 1 && g2.names == g.names && g2.next == bc.next
      && g2.blocks == g.blocks[g.cur := Block(g.blocks[g.cur].name, g.blocks[g.cur].body + cc.instrs, Some(CondBr(cc.v, t, t + 1)))]
                      + [Block("then", bc.instrs, Some(Br(t + 2))), NewBlock("else"), NewBlock("merge")]
  {
    var t := |g.blocks|;
    var cc := CondCode(c, g.names, g.next);
    var bc := EquationsCode(body, g.names, cc.next);
    var g1 := Jump(Open(Emit(g, cc), [NewBlock("then"), NewBlock("else"), NewBlock("merge")]), CondBr(cc.v, t, t + 1), t);
    assert EquationsGen(body, g1) == Emit(g1, bc);
    IfBlocks(g, cc, bc);
  }

  /** The blocks of an `if`'s head around given condition and then-body
      code. */
  lemma IfBlocks(g: Gen, cc: Code, bc: Code)
    requires g.cur < |g.blocks|
    ensures var t := |g.blocks|;
      var g1 := Jump(Open(Emit(g, cc), [NewBlock("then"), NewBlock("else"), NewBlock("merge")]), CondBr(cc.v, t, t + 1), t);
      Jump(Emit(g1, bc), Br(t + 2), t + 1).blocks
        == g.blocks[g.cur := Block(g.blocks[g.cur].name, g.blocks[g.cur].body + cc.instrs, Some(CondBr(cc.v, t, t + 1)))]
           + [Block("then", bc.instrs, Some(Br(t + 2))), NewBlock("else"), NewBlock("merge")]
  {
    var t := |g.blocks|;
    var pre := g.blocks[g.cur := Block(g.blocks[g.cur].name, g.blocks[g.cur].body + cc.instrs, Some(CondBr(cc.v, t, t + 1)))];
    var g1 := Jump(Open(Emit(g, cc), [NewBlock("then"), NewBlock("else"), NewBlock("merge")]), CondBr(cc.v, t, t + 1), t);
    assert g1.blocks == pre + [NewBlock("then"), NewBlock("else"), NewBlock("merge")];
    var g2 := Emit(g1, bc);
    UpdateAppend(pre, [NewBlock("then"), NewBlock("else"), NewBlock("merge")], t, Block("then", bc.instrs, None));
    assert [] + bc.instrs == bc.instrs;
    assert g2.blocks == pre + [Block("then", bc.instrs, None), NewBlock("else"), NewBlock("merge")];
    UpdateAppend(pre, [Block("then", bc.instrs, None), NewBlock("else"), NewBlock("merge")], t, Block("then", bc.instrs, Some(Br(t + 2))));
  }

  /** Changing an element of a concatenation past its first part changes
      only the second part. */
  lemma UpdateAppend<T>(a: seq<T>, b: seq<T>, i: nat, x: T)
    requires |a| <= i < |a| + |b|
    ensures (a + b)[i := x] == a + b[i - |a| := x]
  {
  }

  /** The head of an `if`: the condition, the three new blocks, the
      conditional branch and the then-block. */
  function IfHead(c: Cond, body: seq<Equation>, g: Gen): (g': Gen)
    requires g.cur < |g.blocks| && CondReady(c, g.names.Keys) && EquationsReady(body, g.names.Keys)
    ensures g'.cur == |g.blocks| + 1 && |g'.blocks| == |g.blocks| + 3 && g'.names == g.names
  {
    var t := |g.blocks|;
    var cc := CondCode(c, g.names, g.next);
    var g1 := Jump(Open(Emit(g, cc), [NewBlock("then"), NewBlock("else"), NewBlock("merge")]), CondBr(cc.v, t, t + 1), t);
    Jump(EquationsGen(body, g1), Br(t + 2), t + 1)
  }

  /** The blocks of an `elif`: the insertion block holds its condition's
      code and branches to a new then-block when it holds and to a new,
      empty block when it does not; the then-block holds the body's code and
      branches to the merge block. */
  lemma ElifShape(el: Elif, merge: nat, g: Gen)
    requires g.cur < |g.blocks| && CondReady(el.cond, g.names.Keys) && EquationsReady(el.body, g.names.Keys)
    ensures var t := |g.blocks|; var g' := ElifGen(el, merge, g);
      var cc := CondCode(el.cond, g.names, g.next);
      var bc := EquationsCode(el.body, g.names, cc.next);
      && g'.cur == t + 1 && g'.names == g.names && g'.next == bc.next
      && g'.blocks == g.blocks[g.cur := Block(g.blocks[g.cur].name, g.blocks[g.cur].body + cc.instrs, Some(CondBr(cc.v, t, t + 1)))]
                      + [Block("elif.then", bc.instrs, Some(Br(merge))), NewBlock("elif.else")]
  {
    var cc := CondCode(el.cond, g.names, g.next);
    var bc := EquationsCode(el.body, g.names, cc.next);
    assert [] + bc.instrs == bc.instrs;
  }

  /** An `elif` keeps the shape, with the merge block open as well. */
  lemma ElifGrows(el: Elif, merge: nat, g: Gen)
    requires SealedExcept(g, {g.cur, merge}) && g.cur != merge
    requires CondReady(el.cond, g.names.Keys) && EquationsReady(el.body, g.names.Keys)
    ensures var g' := ElifGen(el, merge, g); SealedExcept(g', {g'.cur, merge}) && g'.cur != merge && Grows(g.blocks, g'.blocks)
    ensures ElifGen(el, merge, g).blocks[merge] == g.blocks[merge]
  {
    ElifShape(el, merge, g);
    var t := |g.blocks|;
    var cc := CondCode(el.cond, g.names, g.next);
    var bc := EquationsCode(el.body, g.names, cc.next);
    var b := Block(g.blocks[g.cur].name, g.blocks[g.cur].body + cc.instrs, Some(CondBr(cc.v, t, t + 1)));
    ElifSealed(g, ElifGen(el, merge, g), merge, b, Block("elif.then", bc.instrs, Some(Br(merge))));
  }

  lemma {:induction false} ElifsGrows(elifs: seq<Elif>, merge: nat, g: Gen)
    requires SealedExcept(g, {g.cur, merge}) && g.cur != merge && ElifsReady(elifs, g.names.Keys)
    ensures var g' := ElifsGen(elifs, merge, g); SealedExcept(g', {g'.cur, merge}) && g'.cur != merge && Grows(g.blocks, g'.blocks)
    ensures ElifsGen(elifs, merge, g).blocks[merge] == g.blocks[merge]
    decreases |elifs|
  {
    if elifs != [] {
      var g1 := ElifGen(elifs[0], merge, g);
      ElifGrows(elifs[0], merge, g);
      ElifsGrows(elifs[1..], merge, g1);
      GrowsTrans(g.blocks, g1.blocks, ElifsGen(elifs, merge, g).blocks);
    }
  }

  /** The elifs and the else body keep the shape, and leave the merge
      block as the insertion point. */
  lemma {:induction false} ChainGrows(elifs: seq<Elif>, els: Option<Else>, merge: nat, g: Gen)
    requires SealedExcept(g, {g.cur, merge}) && g.cur != merge
    requires ElifsReady(elifs, g.names.Keys) && (els.Some? ==> EquationsReady(els.value.body, g.names.Keys))
    ensures var g' := ChainGen(elifs, els, merge, g); SealedExcept(g', {merge}) && Grows(g.blocks, g'.blocks)
    ensures ChainGen(elifs, els, merge, g).blocks[merge] == g.blocks[merge]
  {
    ElifsGrows(elifs, merge, g);
    var g3 := ElifsGen(elifs, merge, g);
    if els.Some? {
      EquationsGenGrows(els.value.body, g3, {g3.cur, merge});
      GrowsTrans(g.blocks, g3.blocks, EquationsGen(els.value.body, g3).blocks);
    }
  }

  lemma IfGrows(c: Cond, body: seq<Equation>, elifs: seq<Elif>, els: Option<Else>, g: Gen)
    requires SealedExcept(g, {g.cur}) && CondReady(c, g.names.Keys) && EquationsReady(body, g.names.Keys)
    requires ElifsReady(elifs, g.names.Keys) && (els.Some? ==> EquationsReady(els.value.body, g.names.Keys))
    ensures var g' := IfGen(c, body, elifs, els, g); SealedExcept(g', {g'.cur}) && Grows(g.blocks, g'.blocks)
    ensures var g' := IfGen(c, body, elifs, els, g); var g2 := IfHead(c, body, g);
      Grows(g2.blocks, g'.blocks) && g'.blocks[|g.blocks| + 2] == g2.blocks[|g.blocks| + 2]
  {
    var g2 := IfHead(c, body, g);
    var gN := ChainGen(elifs, els, |g.blocks| + 2, g2);
    IfHeadGrows(c, body, g);
    ChainGrows(elifs, els, |g.blocks| + 2, g2);
    GrowsTrans(g.blocks, g2.blocks, gN.blocks);
  }

  /** As CodeGen.cpp:236-244 writes an `if` with an else body and no
      elifs, the then-block branches to the merge block and the else
      body's code is in the merge block: the else body runs after the
      then-body as well. */
  lemma ElseInMergeAsWritten(c: Cond, body: seq<Equation>, els: Else, g: Gen)
    requires g.cur < |g.blocks| && CondReady(c, g.names.Keys) && EquationsReady(body, g.names.Keys)
    requires EquationsReady(els.body, g.names.Keys)
    ensures var t := |g.blocks|; var g2 := IfHead(c, body, g);
      var g' := IfGenAsWritten(c, body, [], Some(els), g);
      && g'.blocks[t].term == Some(Br(t + 2)) && g'.cur == t + 2
      && g'.blocks[t + 2].body == EquationsCode(els.body, g.names, g2.next).instrs
  {
    var t := |g.blocks|;
    var g2 := IfHead(c, body, g);
    IfShape(c, body, g);
    var g3 := Jump(g2, Br(t + 2), t + 2);
    assert IfGenAsWritten(c, body, [], Some(els), g) == EquationsGen(els.body, g3);
    assert g3.blocks[t + 2] == NewBlock("merge");
  }

  /** The corrected `if` with an else body and no elifs: the else body's
      code is in the else-block, which branches to the merge block, and
      the merge block starts empty. */
  lemma ElseInElseBlock(c: Cond, body: seq<Equation>, els: Else, g: Gen)
    requires g.cur < |g.blocks| && CondReady(c, g.names.Keys) && EquationsReady(body, g.names.Keys)
    requires EquationsReady(els.body, g.names.Keys)
    ensures var t := |g.blocks|; var g2 := IfHead(c, body, g);
      var g' := IfGen(c, body, [], Some(els), g);
      && g'.blocks[t].term == Some(Br(t + 2)) && g'.cur == t + 2 && g'.blocks[t + 2].body == []
      && g'.blocks[t + 1] == Block("else", EquationsCode(els.body, g.names, g2.next).instrs, Some(Br(t + 2)))
  {
    var t := |g.blocks|;
    IfHeadBlocks(c, body, g);
    ElseOnly(els, t, IfHead(c, body, g));
  }

  /** The blocks an `if`'s head leaves, one by one: the then-block
      branches to the merge block, and the else-block and the merge block
      are empty and open. */
  lemma IfHeadBlocks(c: Cond, body: seq<Equation>, g: Gen)
    requires g.cur < |g.blocks| && CondReady(c, g.names.Keys) && EquationsReady(body, g.names.Keys)
    ensures var t, g2 := |g.blocks|, IfHead(c, body, g);
      && g2.cur == t + 1 && |g2.blocks| == t + 3 && g2.names == g.names
      && g2.blocks[t].term == Some(Br(t + 2)) && g2.blocks[t + 1] == NewBlock("else")
      && g2.blocks[t + 2] == NewBlock("merge")
  {
    IfShape(c, body, g);
  }

  /** A chain with no elifs and an else body, generated from an `if`'s
      else-block `t + 1`: the else body's code fills that block, which
      branches to the merge block `t + 2`; block `t` and the merge block
      are left as they were. */
  lemma ElseOnly(els: Else, t: nat, g: Gen)
    requires g.cur == t + 1 && |g.blocks| == t + 3 && EquationsReady(els.body, g.names.Keys)
    requires g.blocks[t + 1] == NewBlock("else")
    ensures var g' := ChainGen([], Some(els), t + 2, g);
      && g'.blocks[t] == g.blocks[t] && g'.cur == t + 2 && g'.blocks[t + 2] == g.blocks[t + 2]
      && g'.blocks[t + 1] == Block("else", EquationsCode(els.body, g.names, g.next).instrs, Some(Br(t + 2)))
  {
    var bc := EquationsCode(els.body, g.names, g.next);
    assert ElifsGen([], t + 2, g) == g;
    assert [] + bc.instrs == bc.instrs;
  }

  lemma IfHeadGrows(c: Cond, body: seq<Equation>, g: Gen)
    requires SealedExcept(g, {g.cur}) && CondReady(c, g.names.Keys) && EquationsReady(body, g.names.Keys)
    ensures var g2 := IfHead(c, body, g); var merge := |g.blocks| + 2;
      && SealedExcept(g2, {g2.cur, merge}) && g2.cur != merge && Grows(g.blocks, g2.blocks)
      && g2.blocks[merge].body == [] && g2.blocks[g2.cur].body == []
  {
    IfShape(c, body, g);
    var t := |g.blocks|;
    var cc := CondCode(c, g.names, g.next);
    var bc := EquationsCode(body, g.names, cc.next);
    var b := Block(g.blocks[g.cur].name, g.blocks[g.cur].body + cc.instrs, Some(CondBr(cc.v, t, t + 1)));
    IfHeadSealed(g, IfHead(c, body, g), b, Block("then", bc.instrs, Some(Br(t + 2))));
  }

  /** The blocks a loop leaves: the insertion block branches to the new
      condition block; the condition and body blocks are sealed; the block
      after the loop is the only open one. */
  lemma LoopSealed(g: Gen, g': Gen, v: Operand, condCode: seq<Instr>, bodyCode: seq<Instr>)
    requires SealedExcept(g, {g.cur}) && g'.cur == |g.blocks| + 2
    requires var h := |g.blocks|;
      g'.blocks == g.blocks[g.cur := g.blocks[g.cur].(term := Some(Br(h)))]
                   + [Block("loopc.cond", condCode, Some(CondBr(v, h + 1, h + 2))),
                      Block("loopc.body", bodyCode, Some(Br(h))), NewBlock("after.loopc")]
    ensures SealedExcept(g', {g'.cur}) && Grows(g.blocks, g'.blocks)
  {
    var h := |g.blocks|;
    var added := [Block("loopc.cond", condCode, Some(CondBr(v, h + 1, h + 2))),
                  Block("loopc.body", bodyCode, Some(Br(h))), NewBlock("after.loopc")];
    assert TargetsIn(added[0].term.value, h + 3) && TargetsIn(added[1].term.value, h + 3);
    SealAndOpen(g, g', g.blocks[g.cur].(term := Some(Br(h))), added, {g.cur}, {h + 2});
  }

  /** The blocks an elif leaves: the insertion block and the then-block are
      sealed; the new else-block and the merge block are open. */
  lemma ElifSealed(g: Gen, g': Gen, merge: nat, b: Block, th: Block)
    requires SealedExcept(g, {g.cur, merge}) && g.cur != merge && g'.cur == |g.blocks| + 1
    requires g'.blocks == g.blocks[g.cur := b] + [th, NewBlock("elif.else")]
    requires Kept(g.blocks[g.cur], b) && b.term.Some? && TargetsIn(b.term.value, |g.blocks| + 2)
    requires th.term.Some? && TargetsIn(th.term.value, |g.blocks| + 2)
    ensures SealedExcept(g', {g'.cur, merge}) && g'.cur != merge && Grows(g.blocks, g'.blocks)
    ensures g'.blocks[merge] == g.blocks[merge]
  {
    var t := |g.blocks|;
    SealAndOpen(g, g', b, [th, NewBlock("elif.else")], {g.cur, merge}, {t + 1, merge});
  }

  /** The blocks an `if`'s head leaves: the insertion block and the
      then-block are sealed; the else-block and the merge block are open. */
  lemma IfHeadSealed(g: Gen, g2: Gen, b: Block, th: Block)
    requires SealedExcept(g, {g.cur}) && g2.cur == |g.blocks| + 1
    requires g2.blocks == g.blocks[g.cur := b] + [th, NewBlock("else"), NewBlock("merge")]
    requires Kept(g.blocks[g.cur], b) && b.term.Some? && TargetsIn(b.term.value, |g.blocks| + 3)
    requires th.term.Some? && TargetsIn(th.term.value, |g.blocks| + 3)
    ensures SealedExcept(g2, {g2.cur, |g.blocks| + 2}) && Grows(g.blocks, g2.blocks)
    ensures g2.blocks[|g.blocks| + 2].body == [] && g2.blocks[g2.cur].body == []
  {
    var t := |g.blocks|;
    SealAndOpen(g, g2, b, [th, NewBlock("else"), NewBlock("merge")], {g.cur}, {t + 1, t + 2});
  }

  /** Sealing the insertion block and appending new blocks keeps every
      block, and the shape holds with the new set of open blocks. */
  lemma SealAndOpen(g: Gen, g2: Gen, b: Block, nb: seq<Block>, open: set<nat>, open2: set<nat>)
    requires SealedExcept(g, open) && g2.blocks == g.blocks[g.cur := b] + nb
    requires Kept(g.blocks[g.cur], b) && b.term.Some? && TargetsIn(b.term.value, |g2.blocks|)
    requires g2.cur in open2 && g.cur !in open2 && (forall j :: j in open && j != g.cur ==> j in open2)
    requires forall j :: j in open2 ==> j < |g2.blocks| && g2.blocks[j].term.None?
    requires forall i :: 0 <= i < |nb| && |g.blocks| + i !in open2 ==>
      nb[i].term.Some? && TargetsIn(nb[i].term.value, |g2.blocks|)
    ensures SealedExcept(g2, open2) && Grows(g.blocks, g2.blocks)
    ensures forall j :: 0 <= j < |g.blocks| && j != g.cur ==> g2.blocks[j] == g.blocks[j]
  {
    var t := |g.blocks|;
    forall j | 0 <= j < |g2.blocks| && j !in open2
      ensures g2.blocks[j].term.Some? && TargetsIn(g2.blocks[j].term.value, |g2.blocks|)
    {
      if j >= t {
        assert g2.blocks[j] == nb[j - t];
      } else if j != g.cur {
        assert TargetsIn(g.blocks[j].term.value, t);
      }
    }
  }

  /** Every statement keeps the shape: only the insertion block is open, and
      every branch goes to a block that exists. */
  lemma StmtGrows(s: Stmt, g: Gen)
    requires SealedExcept(g, {g.cur}) && StmtReady(s, g.names.Keys)
    ensures var g' := StmtGen(s, g); SealedExcept(g', {g'.cur}) && Grows(g.blocks, g'.blocks)
  {
    match s
    case Declaration(vars, init) =>
      EmitGrows(g, DeclCode(vars, init, g.names, g.next), {g.cur});
    case Assignment(eq) =>
      EmitGrows(g, EquationCode(eq, g.names, g.next), {g.cur});
    case If(c, body, elifs, els) => IfGrows(c, body, elifs, els, g);
    case Loop(c, body) => LoopGrows(c, body, g);
  }

  lemma {:induction false} StmtsGrows(ss: seq<Stmt>, g: Gen)
    requires SealedExcept(g, {g.cur}) && StmtsReady(ss, g.names.Keys)
    ensures var g' := StmtsGen(ss, g); SealedExcept(g', {g'.cur}) && Grows(g.blocks, g'.blocks)
    decreases |ss|
  {
    if ss != [] {
      StmtsReadyFront(ss, g.names.Keys);
      var front := ss[..|ss| - 1];
      StmtsGrows(front, g);
      var g1 := StmtsGen(front, g);
      StmtGrows(ss[|ss| - 1], g1);
      GrowsTrans(g.blocks, g1.blocks, StmtsGen(ss, g).blocks);
    }
  }

  /** The compiled program is a well-formed function: it starts at the
      entry block, every block ends in a terminator, and every branch goes
      to a block of the function. */
  lemma CompileWellFormed(goal: Goal)
    requires StmtsReady(goal.stmts, {})
    ensures var P := Compile(goal);
      && 0 < |P| && P[0].name == "entry"
      && forall j :: 0 <= j < |P| ==> P[j].term.Some? && TargetsIn(P[j].term.value, |P|)
  {
    var g0 := Gen([NewBlock("entry")], 0, map[], 0);
    assert g0.names.Keys == {};
    assert SealedExcept(g0, {0});
    StmtsGrows(goal.stmts, g0);
    var g := StmtsGen(goal.stmts, g0);
    assert Kept(g0.blocks[0], g.blocks[0]);
    var P := Compile(goal);
    assert P == g.blocks[g.cur := g.blocks[g.cur].(term := Some(Ret(Const(0))))];
    forall j | 0 <= j < |P| ensures P[j].term.Some? && TargetsIn(P[j].term.value, |P|) {
      if j != g.cur {
        assert P[j] == g.blocks[j];
      }
    }
  }
}
