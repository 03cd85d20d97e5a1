// The code generator's visitor, `ToIRVisitor` (CodeGen.cpp:12-293), as a
// class whose methods change its state step by step as the source's do.
//
// The source's `IRBuilder` appends instructions to its insertion block and
// `main`'s block list grows as blocks are created; here both are fields:
// `blocks` (the function's blocks) and `insert` (the insertion block). `V`
// and `nameMap` are the source's own fields. `next` is the next free value
// number, which LLVM keeps for itself. Each visit method is proved to leave
// exactly the state the matching function of Lowering or ControlFlow
// describes, and what that state means is proved there and in
// Correctness.

module CodeGen {
  import opened Wrappers
  import opened AST
  import opened IR
  import opened Semantics
  import opened Lowering
  import opened ControlFlow

  /** Emitting two stretches of code one after the other is emitting their
      concatenation. */
  lemma EmitThen(g: Gen, a: Code, b: Code)
    requires g.cur < |g.blocks|
    ensures Emit(Emit(g, a), b) == Emit(g, Code(a.instrs + b.instrs, b.v, b.next))
  {
    assert g.blocks[g.cur].body + a.instrs + b.instrs == g.blocks[g.cur].body + (a.instrs + b.instrs);
  }

  class ToIRVisitor {
    var blocks: seq<Block>
    var insert: nat
    var nameMap: map<string, nat>
    var next: nat
    var V: Operand

    /** A visitor before `run`: no blocks and no names (CodeGen.cpp:30-40). */
    constructor ()
      ensures blocks == [] && insert == 0 && nameMap == map[] && next == 0
    {
      blocks := [];
      insert := 0;
      nameMap := map[];
      next := 0;
      V := Const(0);
    }

    ghost function State(): Gen
      reads this
    {
      Gen(blocks, insert, nameMap, next)
    }

    /** The state is `g0` with `code` emitted at its insertion point, with
        the value counter where it now is. */
    ghost predicate Emitted(g0: Gen, code: seq<Instr>)
      reads this
      requires g0.cur < |g0.blocks|
    {
      State() == Emit(g0, Code(code, Const(0), next))
    }

    /** `IRBuilder::Create...`: one instruction at the end of the insertion
        block. */
    method Append(i: Instr, ghost g0: Gen, ghost code: seq<Instr>)
      requires g0.cur < |g0.blocks| && Emitted(g0, code)
      modifies this
      ensures Emitted(g0, code + [i]) && V == old(V) && next == old(next)
    {
      EmitThen(g0, Code(code, Const(0), next), Code([i], Const(0), next));
      blocks := blocks[insert := blocks[insert].(body := blocks[insert].body + [i])];
    }

    /** `CreateBr`/`CreateCondBr`/`CreateRet` end the insertion block;
        `SetInsertPoint` then moves on to block `to`. */
    method Seal(t: Terminator, to: nat)
      requires insert < |blocks|
      modifies this
      ensures State() == Jump(old(State()), t, to) && V == old(V)
    {
      blocks := blocks[insert := blocks[insert].(term := Some(t))];
      insert := to;
    }

    /** `BasicBlock::Create`: new, empty blocks at the end of the function. */
    method AddBlocks(bs: seq<Block>)
      modifies this
      ensures State() == Open(old(State()), bs) && V == old(V)
    {
      blocks := blocks + bs;
    }

    // -------------------------------------------------------------------
    // Expressions (CodeGen.cpp:120-184)
    // -------------------------------------------------------------------

    method VisitExpr(e: Expr)
      requires insert < |blocks| && ExprReady(e, nameMap.Keys)
      modifies this
      ensures State() == Emit(old(State()), ExprCode(e, old(nameMap), old(next)))
      ensures V == ExprCode(e, old(nameMap), old(next)).v
      decreases e, 1
    {
      match e
      case Final(kind, val) => VisitFinal(kind, val);
      case BinaryOp(_, _, _) => VisitBinaryOp(e);
    }

    /** A name loads its slot; a number is a constant (CodeGen.cpp:120-134). */
    method VisitFinal(kind: ValueKind, val: string)
      requires insert < |blocks| && ExprReady(Final(kind, val), nameMap.Keys)
      modifies this
      ensures State() == Emit(old(State()), ExprCode(Final(kind, val), old(nameMap), old(next)))
      ensures V == ExprCode(Final(kind, val), old(nameMap), old(next)).v
    {
      ghost var g0 := State();
      if kind == Id {
        var d := next;
        next := next + 1;
        assert g0.blocks[g0.cur].body + [] == g0.blocks[g0.cur].body;
        assert Emitted(g0, []);
        Append(Load(d, nameMap[val]), g0, []);
        V := Reg(d);
        assert [] + [Load(d, g0.names[val])] == [Load(d, g0.names[val])];
      } else {
        V := Const(DecimalValue(val));
        assert g0.blocks[g0.cur].body + [] == g0.blocks[g0.cur].body;
      }
    }

    /** Both operands, left first, then the operation; `^` multiplies the
        base by itself as often as the literal exponent asks
        (CodeGen.cpp:136-184). The source's unrolled loop multiplies the base
        by the base each time and ends with `V = Left`; `VisitPow` keeps the
        running product in `V` (see the README's findings). */
    method VisitBinaryOp(e: Expr)
      requires e.BinaryOp? && insert < |blocks| && ExprReady(e, nameMap.Keys)
      modifies this
      ensures State() == Emit(old(State()), ExprCode(e, old(nameMap), old(next)))
      ensures V == ExprCode(e, old(nameMap), old(next)).v
      decreases e, 0
    {
      ghost var g0 := State();
      ghost var cl := ExprCode(e.left, nameMap, next);
      VisitExpr(e.left);
      var Left := V;
      ghost var cr := ExprCode(e.right, nameMap, next);
      VisitExpr(e.right);
      var Right := V;
      EmitThen(g0, cl, cr);
      ghost var code := cl.instrs + cr.instrs;
      assert Emitted(g0, code);
      if e.op == Pow {
        VisitPow(Left, Exponent(e.right), g0, code);
      } else {
        var d := next;
        next := next + 1;
        Append(Op(d, ArithOf(e.op), Left, Right), g0, code);
        V := Reg(d);
      }
    }

    /** The `^` branch (CodeGen.cpp:172-181): the constant 1 for exponent
        0, otherwise `k` multiplications by the base, each of the running
        product, which starts at 1. */
    method VisitPow(base: Operand, k: nat, ghost g0: Gen, ghost code: seq<Instr>)
      requires g0.cur < |g0.blocks| && Emitted(g0, code) && Below(base, next)
      modifies this
      ensures Emitted(g0, code + PowCode(base, k, old(next)).instrs)
      ensures V == PowCode(base, k, old(next)).v && next == PowCode(base, k, old(next)).next
    {
      if k == 0 {
        V := Const(1);
        assert code + [] == code;
      } else {
        V := Const(1);
        assert code + [] == code;
        ghost var n0 := next;
        for i := 0 to k
          invariant Emitted(g0, code + Chain(base, i, n0).instrs)
          invariant V == Chain(base, i, n0).v && next == Chain(base, i, n0).next
        {
          ghost var p := Chain(base, i, n0);
          var d := next;
          next := next + 1;
          Append(Op(d, Opcode.Mul, V, base), g0, code + p.instrs);
          V := Reg(d);
          assert code + p.instrs + [Op(d, Opcode.Mul, p.v, base)] == code + Chain(base, i + 1, n0).instrs;
        }
      }
    }

    // -------------------------------------------------------------------
    // Conditions (CodeGen.cpp:275-292)
    // -------------------------------------------------------------------

    method VisitCond(c: Cond)
      requires insert < |blocks| && CondReady(c, nameMap.Keys)
      modifies this
      ensures State() == Emit(old(State()), CondCode(c, old(nameMap), old(next)))
      ensures V == CondCode(c, old(nameMap), old(next)).v
      decreases c, 1
    {
      match c
      case Condition(_, _, _) => VisitCondition(c);
      case C(_, _, _) => VisitC(c);
    }

    /** A comparison: both operands, then an `icmp`. The source has no
        visitor for `Condition`; this is the one its `C` visitor relies on. */
    method VisitCondition(c: Cond)
      requires c.Condition? && insert < |blocks| && CondReady(c, nameMap.Keys)
      modifies this
      ensures State() == Emit(old(State()), CondCode(c, old(nameMap), old(next)))
      ensures V == CondCode(c, old(nameMap), old(next)).v
      decreases c, 0
    {
      ghost var g0 := State();
      ghost var cl := ExprCode(c.left, nameMap, next);
      VisitExpr(c.left);
      var LeftValue := V;
      ghost var cr := ExprCode(c.right, nameMap, next);
      VisitExpr(c.right);
      var RightValue := V;
      EmitThen(g0, cl, cr);
      var d := next;
      next := next + 1;
      Append(Op(d, ICmp(PredOf(c.rel)), LeftValue, RightValue), g0, cl.instrs + cr.instrs);
      V := Reg(d);
    }

    /** `and`/`or`: both sides, always, then the bitwise operation
        (CodeGen.cpp:275-292). The source's null test on the two sides
        always passes on a tree the parser built. */
    method VisitC(c: Cond)
      requires c.C? && insert < |blocks| && CondReady(c, nameMap.Keys)
      modifies this
      ensures State() == Emit(old(State()), CondCode(c, old(nameMap), old(next)))
      ensures V == CondCode(c, old(nameMap), old(next)).v
      decreases c, 0
    {
      ghost var g0 := State();
      ghost var ca := CondCode(c.lhs, nameMap, next);
      VisitCond(c.lhs);
      var LeftValue := V;
      ghost var cb := CondCode(c.rhs, nameMap, next);
      VisitCond(c.rhs);
      var RightValue := V;
      EmitThen(g0, ca, cb);
      var d := next;
      next := next + 1;
      Append(Op(d, JoinOf(c.lop), LeftValue, RightValue), g0, ca.instrs + cb.instrs);
      V := Reg(d);
    }

    // -------------------------------------------------------------------
    // Statements
    // -------------------------------------------------------------------

    /** An assignment (CodeGen.cpp:70-117): the rhs, a load of the target's
        slot, the update for a compound operator, a store back to the slot
        and a call to `write` with the stored value. For plain `=` the
        source's switch keeps the loaded value and stores that back; here
        the rhs is stored, as the comment at CodeGen.cpp:81-84 intends (see
        the README's findings). */
    method VisitEquation(eq: Equation)
      requires insert < |blocks| && EquationReady(eq, nameMap.Keys)
      modifies this
      ensures State() == Emit(old(State()), EquationCode(eq, old(nameMap), old(next)))
      ensures V == ExprCode(eq.rhs, old(nameMap), old(next)).v
    {
      ghost var g0 := State();
      ghost var r := ExprCode(eq.rhs, nameMap, next);
      VisitExpr(eq.rhs);
      var rhsVal := V;
      var varPtr := nameMap[eq.target];
      var loaded := next;
      next := next + 1;
      ghost var code := r.instrs;
      Append(Load(loaded, varPtr), g0, code);
      code := code + [Load(loaded, varPtr)];
      var varValue := Reg(loaded);
      if eq.op == Equal {
        varValue := rhsVal;
      } else {
        var d := next;
        next := next + 1;
        Append(Op(d, AssignArith(eq.op), varValue, rhsVal), g0, code);
        code := code + [Op(d, AssignArith(eq.op), Reg(loaded), rhsVal)];
        varValue := Reg(d);
      }
      Append(Store(varValue, varPtr), g0, code);
      code := code + [Store(varValue, varPtr)];
      Append(CallWrite(varValue), g0, code);
      code := code + [CallWrite(varValue)];
      V := rhsVal;
      assert code == r.instrs + StoreBack(eq.op, varPtr, r.v, r.next).instrs;
    }

    /** The assignments of a block, first to last (the `for` loops at
        CodeGen.cpp:198-202 and :221-224). */
    method VisitEquations(eqs: seq<Equation>)
      requires insert < |blocks| && EquationsReady(eqs, nameMap.Keys)
      modifies this
      ensures State() == EquationsGen(eqs, old(State()))
    {
      ghost var g0 := State();
      assert g0.blocks[g0.cur].body + [] == g0.blocks[g0.cur].body;
      for i := 0 to |eqs|
        invariant Emitted(g0, EquationsCode(eqs[..i], g0.names, g0.next).instrs)
        invariant next == EquationsCode(eqs[..i], g0.names, g0.next).next
      {
        ghost var p := EquationsCode(eqs[..i], g0.names, g0.next);
        ghost var c := EquationCode(eqs[i], nameMap, next);
        VisitEquation(eqs[i]);
        EmitThen(g0, Code(p.instrs, Const(0), p.next), c);
        assert eqs[..i + 1][..i] == eqs[..i];
      }
      assert eqs[..|eqs|] == eqs;
    }

    /** A declaration (CodeGen.cpp:248-273): the initializer once, if there
        is one; then for each name, in order, a new slot, registered in
        `nameMap`, and a store of the initializer's value into it. */
    method VisitDeclaration(vars: seq<string>, init: Option<Expr>)
      requires insert < |blocks| && (init.Some? ==> ExprReady(init.value, nameMap.Keys))
      modifies this
      ensures State() == DeclGen(vars, init, old(State()))
    {
      ghost var g0 := State();
      var val: Option<Operand> := None;
      ghost var code: seq<Instr> := [];
      assert g0.blocks[g0.cur].body + [] == g0.blocks[g0.cur].body;
      if init.Some? {
        VisitExpr(init.value);
        val := Some(V);
        code := ExprCode(init.value, g0.names, g0.next).instrs;
      }
      ghost var base := next;
      assert base == DeclBase(init, g0.names, g0.next);
      assert code + [] == code;
      for i := 0 to |vars|
        invariant insert == g0.cur && next == base + i
        invariant blocks == Emit(g0, Code(code + SlotsCode(vars[..i], val, base), Const(0), 0)).blocks
        invariant nameMap == Bound(vars[..i], g0.names, base)
      {
        ghost var acc := code + SlotsCode(vars[..i], val, base);
        var slot := next;
        next := next + 1;
        Append(Alloca(slot), g0.(names := nameMap), acc);
        acc := acc + [Alloca(slot)];
        if val.Some? {
          Append(Store(val.value, slot), g0.(names := nameMap), acc);
          acc := acc + [Store(val.value, slot)];
        }
        nameMap := nameMap[vars[i] := slot];
        SlotsStep(vars, i, val, g0.names, base);
        assert acc == code + SlotsCode(vars[..i], val, base) + SlotCode(slot, val);
        assert acc == code + SlotsCode(vars[..i + 1], val, base);
      }
      assert vars[..|vars|] == vars;
      assert code + SlotsCode(vars, val, base) == DeclCode(vars, init, g0.names, g0.next).instrs;
    }

    /** A loop (CodeGen.cpp:186-205). */
    method VisitLoop(c: Cond, body: seq<Equation>)
      requires insert < |blocks| && CondReady(c, nameMap.Keys) && EquationsReady(body, nameMap.Keys)
      modifies this
      ensures State() == LoopGen(c, body, old(State()))
    {
      var WhileCondBB := |blocks|;
      AddBlocks([NewBlock("loopc.cond"), NewBlock("loopc.body"), NewBlock("after.loopc")]);
      Seal(Br(WhileCondBB), WhileCondBB);
      VisitCond(c);
      var val := V;
      Seal(CondBr(val, WhileCondBB + 1, WhileCondBB + 2), WhileCondBB + 1);
      VisitEquations(body);
      Seal(Br(WhileCondBB), WhileCondBB + 2);
    }

    /** One `elif` (see ControlFlow.ElifGen). */
    method VisitElif(el: Elif, merge: nat)
      requires insert < |blocks| && CondReady(el.cond, nameMap.Keys) && EquationsReady(el.body, nameMap.Keys)
      modifies this
      ensures State() == ElifGen(el, merge, old(State()))
    {
      VisitCond(el.cond);
      var condValue := V;
      var ThenBB := |blocks|;
      AddBlocks([NewBlock("elif.then"), NewBlock("elif.else")]);
      Seal(CondBr(condValue, ThenBB, ThenBB + 1), ThenBB);
      VisitEquations(el.body);
      Seal(Br(merge), ThenBB + 1);
    }

    /** The elifs of an `if`, in order (CodeGen.cpp:231-234). */
    method VisitElifs(elifs: seq<Elif>, merge: nat)
      requires insert < |blocks| && ElifsReady(elifs, nameMap.Keys)
      modifies this
      ensures State() == ElifsGen(elifs, merge, old(State()))
    {
      ghost var g0 := State();
      for i := 0 to |elifs|
        invariant insert < |blocks| && nameMap == g0.names
        invariant ElifsGen(elifs, merge, g0) == ElifsGen(elifs[i..], merge, State())
      {
        assert elifs[i..][1..] == elifs[i + 1..];
        VisitElif(elifs[i], merge);
      }
    }

    /** An `if` (CodeGen.cpp:207-245), with the else body in the else block
        (see ControlFlow.IfGen). */
    method VisitIf(c: Cond, body: seq<Equation>, elifs: seq<Elif>, els: Option<Else>)
      requires insert < |blocks| && CondReady(c, nameMap.Keys) && EquationsReady(body, nameMap.Keys)
      requires ElifsReady(elifs, nameMap.Keys) && (els.Some? ==> EquationsReady(els.value.body, nameMap.Keys))
      modifies this
      ensures State() == IfGen(c, body, elifs, els, old(State()))
    {
      var MergeBB := |blocks| + 2;
      VisitIfHead(c, body);
      VisitChain(elifs, els, MergeBB);
    }

    /** The rest of an `if` (CodeGen.cpp:231-245): the elifs, the else body,
        and the branch to the merge block, where the insertion point stays. */
    method VisitChain(elifs: seq<Elif>, els: Option<Else>, MergeBB: nat)
      requires insert < |blocks| && ElifsReady(elifs, nameMap.Keys)
      requires els.Some? ==> EquationsReady(els.value.body, nameMap.Keys)
      modifies this
      ensures State() == ChainGen(elifs, els, MergeBB, old(State()))
    {
      VisitElifs(elifs, MergeBB);
      if els.Some? {
        VisitEquations(els.value.body);
      }
      Seal(Br(MergeBB), MergeBB);
    }

    /** The head of an `if` (CodeGen.cpp:207-227): the condition, the three
        new blocks, the conditional branch and the then-body. */
    method VisitIfHead(c: Cond, body: seq<Equation>)
      requires insert < |blocks| && CondReady(c, nameMap.Keys) && EquationsReady(body, nameMap.Keys)
      modifies this
      ensures State() == IfHead(c, body, old(State()))
    {
      ghost var g := State();
      ghost var cc := CondCode(c, nameMap, next);
      VisitCond(c);
      var ifCondValue := V;
      var ThenBB := |blocks|;
      AddBlocks([NewBlock("then"), NewBlock("else"), NewBlock("merge")]);
      Seal(CondBr(ifCondValue, ThenBB, ThenBB + 1), ThenBB);
      VisitEquations(body);
      Seal(Br(ThenBB + 2), ThenBB + 1);
    }

    /** The `accept` dispatch on a statement. */
    method VisitStmt(s: Stmt)
      requires insert < |blocks| && StmtReady(s, nameMap.Keys)
      modifies this
      ensures State() == StmtGen(s, old(State()))
    {
      match s
      case Declaration(vars, init) => VisitDeclaration(vars, init);
      case Assignment(eq) => VisitEquation(eq);
      case If(c, body, elifs, els) => VisitIf(c, body, elifs, els);
      case Loop(c, body) => VisitLoop(c, body);
    }

    /** The program's statements, first to last (CodeGen.cpp:61-68). */
    method VisitGoal(goal: Goal)
      requires insert < |blocks| && StmtsReady(goal.stmts, nameMap.Keys)
      modifies this
      ensures State() == StmtsGen(goal.stmts, old(State()))
    {
      ghost var g0 := State();
      var ss := goal.stmts;
      for i := 0 to |ss|
        invariant StmtsReady(ss[..i], g0.names.Keys)
        invariant insert < |blocks| && State() == StmtsGen(ss[..i], g0)
      {
        StmtsReadyPrefix(ss, i + 1, g0.names.Keys);
        StmtsReadyFront(ss[..i + 1], g0.names.Keys);
        assert ss[..i + 1][..i] == ss[..i];
        VisitStmt(ss[i]);
      }
      assert ss[..|ss|] == ss;
    }

    /** `run` (CodeGen.cpp:43-58): `main`'s entry block, the program, and
        `ret 0`. */
    method Run(goal: Goal)
      requires nameMap == map[] && StmtsReady(goal.stmts, {})
      modifies this
      ensures blocks == Compile(goal)
    {
      blocks := [NewBlock("entry")];
      insert := 0;
      next := 0;
      assert nameMap.Keys == {};
      VisitGoal(goal);
      Seal(Ret(Const(0)), insert);
    }
  }
}
