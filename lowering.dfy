// The straight-line code that the code generator's visitor emits for one
// expression, condition, assignment or declaration (CodeGen.cpp), as
// functions of the node, the symbol table and the next free value number,
// and proofs that running that code computes what the node means.
//
// The symbol table maps each declared name to the `alloca` of its slot
// (`nameMap`, CodeGen.cpp:26). The visitor's `V` field, the value of the
// last node visited, is the `v` of the code returned here. LLVM numbers
// the values an instruction defines by itself; this model numbers them from
// a counter, `next`, that only grows.

module Lowering {
  import opened Wrappers
  import opened AST
  import opened IR
  import opened Semantics

  /** What the visitor assumes of an expression: each name it reads has a
      slot (`nameMap[x]` on a missing name yields a null slot, CodeGen.cpp:125),
      each number literal is a run of digits (its `getAsInteger` result is
      otherwise left uninitialised, CodeGen.cpp:130-131), and the right
      operand of `^` is a `Final` (it is cast to one, CodeGen.cpp:169). */
  predicate ExprReady(e: Expr, declared: set<string>) {
    match e
    case Final(Id, x) => x in declared
    case Final(Num, s) => IsDigits(s)
    case BinaryOp(op, l, r) => ExprReady(l, declared) && ExprReady(r, declared) && (op == Pow ==> r.Final?)
  }

  predicate CondReady(c: Cond, declared: set<string>) {
    match c
    case Condition(l, _, r) => ExprReady(l, declared) && ExprReady(r, declared)
    case C(_, a, b) => CondReady(a, declared) && CondReady(b, declared)
  }

  predicate EquationReady(eq: Equation, declared: set<string>) {
    eq.target in declared && ExprReady(eq.rhs, declared)
  }

  predicate EquationsReady(eqs: seq<Equation>, declared: set<string>) {
    forall i :: 0 <= i < |eqs| ==> EquationReady(eqs[i], declared)
  }

  /** Emitted instructions, the operand holding the result, and the next
      free value number afterwards. */
  datatype Code = Code(instrs: seq<Instr>, v: Operand, next: nat)

  /** The operand is a constant or a value numbered below `n`. */
  predicate Below(v: Operand, n: nat) {
    v.Reg? ==> v.r < n
  }

  /** `BinaryOp::Plus/Minus/Mul/Div/Mod` to `add/sub/mul/sdiv/srem`
      (CodeGen.cpp:146-166). */
  function ArithOf(op: BinOp): Opcode
    requires op != Pow
  {
    match op
    case Plus => Add
    case Minus => Sub
    case Mul => Opcode.Mul
    case Div => SDiv
    case Mod => SRem
  }

  /** The signed comparison for each relational operator. The source has no
      visitor for `Condition` (a `Condition` dispatches to the `C` visitor,
      CodeGen.cpp:275, which reads children it does not have); the model
      emits the `icmp` the comparison evidently calls for. */
  function PredOf(rel: RelOp): Pred {
    match rel
    case Greater => SGT
    case Less => SLT
    case GreaterEqual => SGE
    case LessEqual => SLE
    case EqualEqual => EQ
    case NotEqual => NE
  }

  /** `and`/`or` to the bitwise `and`/`or` (CodeGen.cpp:281-290). */
  function JoinOf(lop: LogicOp): Opcode {
    if lop == LogicOp.And then Opcode.And else Opcode.Or
  }

  /** `+= -= *= /= %=` to `add/sub/mul/sdiv/srem` (CodeGen.cpp:85-104). */
  function AssignArith(op: AssignOp): Opcode
    requires op != Equal
  {
    match op
    case PlusEqual => Add
    case MinusEqual => Sub
    case StarEqual => Opcode.Mul
    case SlashEqual => SDiv
    case PercentEqual => SRem
  }

  // ---------------------------------------------------------------------
  // Expressions (CodeGen.cpp:120-184)
  // ---------------------------------------------------------------------

  /** `n` multiplications by `base` of a running product that starts at
      the constant 1: the unrolled `^` (CodeGen.cpp:176-179, as intended). */
  function Chain(base: Operand, n: nat, next: nat): (c: Code)
    requires Below(base, next)
    ensures c.next == next + n && |c.instrs| == n && Below(c.v, c.next)
  {
    if n == 0 then Code([], Const(1), next)
    else
      var p := Chain(base, n - 1, next);
      Code(p.instrs + [Op(p.next, Opcode.Mul, p.v, base)], Reg(p.next), p.next + 1)
  }

  /** `^` with exponent `k`: the constant 1 for 0 (CodeGen.cpp:174-175),
      otherwise the `k` multiplications of the loop at CodeGen.cpp:176-179,
      each of the running product by the base (the product kept, see the
      README's findings). */
  function PowCode(base: Operand, k: nat, next: nat): (c: Code)
    requires Below(base, next)
    ensures c.next == next + k && |c.instrs| == k && Below(c.v, c.next)
  {
    if k == 0 then Code([], Const(1), next) else Chain(base, k, next)
  }

  /** The i-th instruction of a product chain multiplies by the base into
      the i-th fresh value. */
  predicate MulBy(ins: Instr, d: nat, base: Operand) {
    ins.Op? && ins.dst == d && ins.code == Opcode.Mul && ins.b == base
  }

  lemma {:induction false} ChainMuls(base: Operand, n: nat, next: nat)
    requires Below(base, next)
    ensures forall i :: 0 <= i < n ==> MulBy(Chain(base, n, next).instrs[i], next + i, base)
    decreases n
  {
    if n > 0 {
      ChainMuls(base, n - 1, next);
      var p, c := Chain(base, n - 1, next), Chain(base, n, next);
      assert c.instrs == p.instrs + [Op(p.next, Opcode.Mul, p.v, base)];
      forall i | 0 <= i < n
        ensures MulBy(c.instrs[i], next + i, base)
      {
        if i < n - 1 {
          assert c.instrs[i] == p.instrs[i];
        }
      }
    }
  }

  /** `^` with exponent `k` is exactly `k` multiplications, each by the
      once-evaluated base into the next fresh value. */
  lemma PowCodeMuls(base: Operand, k: nat, next: nat)
    requires Below(base, next)
    ensures |PowCode(base, k, next).instrs| == k
    ensures forall i :: 0 <= i < k ==> MulBy(PowCode(base, k, next).instrs[i], next + i, base)
  {
    ChainMuls(base, k, next);
  }

  /** `^` as CodeGen.cpp:176-180 writes it: `k` products of the base with
      itself, each discarded, then the base itself as the result. */
  function PowCodeAsWritten(base: Operand, k: nat, next: nat): (c: Code)
    ensures c.next == next + k
  {
    if k == 0 then Code([], Const(1), next)
    else
      var p := PowCodeAsWritten(base, k - 1, next);
      Code(p.instrs + [Op(p.next, Opcode.Mul, base, base)], base, p.next + 1)
  }

  /** The visitor on an expression: a name loads its slot, a number is a
      constant, and a binary node emits its left operand's code, then its
      right operand's, then the operation (CodeGen.cpp:120-184). */
  function ExprCode(e: Expr, names: map<string, nat>, next: nat): (c: Code)
    requires ExprReady(e, names.Keys)
    ensures next <= c.next && Below(c.v, c.next)
  {
    match e
    case Final(Id, x) => Code([Load(next, names[x])], Reg(next), next + 1)
    case Final(Num, s) => Code([], Const(DecimalValue(s)), next)
    case BinaryOp(op, l, r) =>
      var cl := ExprCode(l, names, next);
      var cr := ExprCode(r, names, cl.next);
      if op == Pow then
        var p := PowCode(cl.v, Exponent(r), cr.next);
        Code(cl.instrs + cr.instrs + p.instrs, p.v, p.next)
      else
        Code(cl.instrs + cr.instrs + [Op(cr.next, ArithOf(op), cl.v, cr.v)], Reg(cr.next), cr.next + 1)
  }

  // ---------------------------------------------------------------------
  // Conditions (CodeGen.cpp:275-292)
  // ---------------------------------------------------------------------

  /** A comparison emits both operands and an `icmp`; `and`/`or` emit both
      sides, with no short circuit, and combine them bitwise. */
  function CondCode(c: Cond, names: map<string, nat>, next: nat): (r: Code)
    requires CondReady(c, names.Keys)
    ensures next <= r.next && Below(r.v, r.next)
  {
    match c
    case Condition(l, rel, rr) =>
      var cl := ExprCode(l, names, next);
      var cr := ExprCode(rr, names, cl.next);
      Code(cl.instrs + cr.instrs + [Op(cr.next, ICmp(PredOf(rel)), cl.v, cr.v)], Reg(cr.next), cr.next + 1)
    case C(lop, a, b) =>
      var ca := CondCode(a, names, next);
      var cb := CondCode(b, names, ca.next);
      Code(ca.instrs + cb.instrs + [Op(cb.next, JoinOf(lop), ca.v, cb.v)], Reg(cb.next), cb.next + 1)
  }

  // ---------------------------------------------------------------------
  // Assignments (CodeGen.cpp:70-117)
  // ---------------------------------------------------------------------

  /** After the rhs: a load of the target's slot, the update for a compound
      operator, one store to the slot and one `write` of the stored value
      (CodeGen.cpp:76-116). `rhs` holds the rhs's value and `loaded` is the
      first free value number. Plain `=` stores the rhs, as the comment at
      CodeGen.cpp:81-84 intends; the source's call passes an undeclared `val`
      (CodeGen.cpp:116), taken here to be the stored value. */
  function StoreBack(op: AssignOp, slot: nat, rhs: Operand, loaded: nat): (c: Code)
    requires Below(rhs, loaded)
    ensures loaded < c.next && Below(c.v, c.next)
  {
    if op == Equal then
      Code([Load(loaded, slot), Store(rhs, slot), CallWrite(rhs)], rhs, loaded + 1)
    else
      Code([Load(loaded, slot), Op(loaded + 1, AssignArith(op), Reg(loaded), rhs),
            Store(Reg(loaded + 1), slot), CallWrite(Reg(loaded + 1))], Reg(loaded + 1), loaded + 2)
  }

  /** The same as CodeGen.cpp:76-107 writes it: for plain `=` the switch leaves
      the loaded value in place, and that is what is stored. */
  function StoreBackAsWritten(op: AssignOp, slot: nat, rhs: Operand, loaded: nat): (c: Code)
    requires Below(rhs, loaded)
    ensures loaded < c.next
  {
    if op == Equal then
      Code([Load(loaded, slot), Store(Reg(loaded), slot), CallWrite(Reg(loaded))], Reg(loaded), loaded + 1)
    else StoreBack(op, slot, rhs, loaded)
  }

  /** An assignment: the rhs first, then the store back (CodeGen.cpp:70-117). */
  function EquationCode(eq: Equation, names: map<string, nat>, next: nat): (c: Code)
    requires EquationReady(eq, names.Keys)
    ensures next <= c.next && Below(c.v, c.next)
  {
    var r := ExprCode(eq.rhs, names, next);
    var b := StoreBack(eq.op, names[eq.target], r.v, r.next);
    Code(r.instrs + b.instrs, b.v, b.next)
  }

  /** An assignment as written. */
  function EquationCodeAsWritten(eq: Equation, names: map<string, nat>, next: nat): (c: Code)
    requires EquationReady(eq, names.Keys)
    ensures next <= c.next
  {
    var r := ExprCode(eq.rhs, names, next);
    var b := StoreBackAsWritten(eq.op, names[eq.target], r.v, r.next);
    Code(r.instrs + b.instrs, b.v, b.next)
  }

  /** A block of assignments, first to last (the `for` loops over equations
      at CodeGen.cpp:198-202 and :221-224). */
  function EquationsCode(eqs: seq<Equation>, names: map<string, nat>, next: nat): (c: Code)
    requires EquationsReady(eqs, names.Keys)
    ensures next <= c.next
    decreases |eqs|
  {
    if eqs == [] then Code([], Const(0), next)
    else
      var p := EquationsCode(eqs[..|eqs| - 1], names, next);
      var e := EquationCode(eqs[|eqs| - 1], names, p.next);
      Code(p.instrs + e.instrs, e.v, e.next)
  }

  // ---------------------------------------------------------------------
  // Declarations (CodeGen.cpp:248-273)
  // ---------------------------------------------------------------------

  /** One declared name: a fresh slot, and a store of the initializer's value
      when there is one. */
  function SlotCode(slot: nat, val: Option<Operand>): seq<Instr> {
    [Alloca(slot)] + (if val.Some? then [Store(val.value, slot)] else [])
  }

  /** The names of `vars`, in order, get slots `base`, `base + 1`, ... */
  function SlotsCode(vars: seq<string>, val: Option<Operand>, base: nat): seq<Instr>
    decreases |vars|
  {
    if vars == [] then []
    else SlotsCode(vars[..|vars| - 1], val, base) + SlotCode(base + |vars| - 1, val)
  }

  /** The symbol table after the slots for `vars` are registered; a name
      declared twice keeps its last slot. */
  function Bound(vars: seq<string>, names: map<string, nat>, base: nat): map<string, nat>
    decreases |vars|
  {
    if vars == [] then names
    else Bound(vars[..|vars| - 1], names, base)[vars[|vars| - 1] := base + |vars| - 1]
  }

  /** One more declared name: its slot's code after the others', and its
      slot in the symbol table. */
  lemma SlotsStep(vars: seq<string>, i: nat, val: Option<Operand>, names: map<string, nat>, base: nat)
    requires i < |vars|
    ensures SlotsCode(vars[..i + 1], val, base) == SlotsCode(vars[..i], val, base) + SlotCode(base + i, val)
    ensures Bound(vars[..i + 1], names, base) == Bound(vars[..i], names, base)[vars[i] := base + i]
  {
    assert vars[..i + 1][..i] == vars[..i];
  }

  function NamesOf(vars: seq<string>): set<string> {
    set i | 0 <= i < |vars| :: vars[i]
  }

  /** The symbol table gains exactly the declared names, and each declared
      name maps to a slot made by the declaration. */
  lemma {:induction false} BoundNames(vars: seq<string>, names: map<string, nat>, base: nat)
    ensures Bound(vars, names, base).Keys == names.Keys + NamesOf(vars)
    ensures forall x :: x in NamesOf(vars) ==> base <= Bound(vars, names, base)[x] < base + |vars|
    ensures forall x :: x in names && x !in NamesOf(vars) ==> Bound(vars, names, base)[x] == names[x]
    decreases |vars|
  {
    if vars != [] {
      var front := vars[..|vars| - 1];
      BoundNames(front, names, base);
      assert NamesOf(vars) == NamesOf(front) + {vars[|vars| - 1]} by {
        forall x | x in NamesOf(vars) ensures x in NamesOf(front) + {vars[|vars| - 1]} {
          var i :| 0 <= i < |vars| && vars[i] == x;
          if i < |vars| - 1 {
            assert front[i] == x;
          }
        }
        forall x | x in NamesOf(front) ensures x in NamesOf(vars) {
          var i :| 0 <= i < |front| && front[i] == x;
          assert vars[i] == x;
        }
      }
    }
  }

  /** A declaration evaluates its initializer once (if any), then gives each
      name a fresh slot and stores the value into it. */
  function DeclCode(vars: seq<string>, init: Option<Expr>, names: map<string, nat>, next: nat): (c: Code)
    requires init.Some? ==> ExprReady(init.value, names.Keys)
    ensures next <= c.next
  {
    if init.Some? then
      var e := ExprCode(init.value, names, next);
      Code(e.instrs + SlotsCode(vars, Some(e.v), e.next), e.v, e.next + |vars|)
    else Code(SlotsCode(vars, None, next), Const(0), next + |vars|)
  }

  /** Where a declaration's slots start: after its initializer's values. */
  function DeclBase(init: Option<Expr>, names: map<string, nat>, next: nat): (b: nat)
    requires init.Some? ==> ExprReady(init.value, names.Keys)
    ensures next <= b
  {
    if init.Some? then ExprCode(init.value, names, next).next else next
  }

  // ---------------------------------------------------------------------
  // What running the code does
  // ---------------------------------------------------------------------

  /** The stack slots hold the store: every declared name has a slot that
      holds the name's value. */
  predicate Holds(f: Frame, names: map<string, nat>, st: Store) {
    && names.Keys == st.Keys
    && (forall x :: x in names ==> names[x] in f.mem && f.mem[names[x]] == st[x])
  }

  /** No two names share a slot. */
  predicate Distinct(names: map<string, nat>) {
    forall x, y :: x in names && y in names && x != y ==> names[x] != names[y]
  }

  /** Every slot in the table was made before value number `next`. */
  predicate SlotsBelow(names: map<string, nat>, next: nat) {
    forall x :: x in names ==> names[x] < next
  }

  /** Running the code left every value numbered below `next` as it was. */
  predicate RegsKept(f: Frame, f': Frame, next: nat) {
    forall r :: r in f.regs && r < next ==> r in f'.regs && f'.regs[r] == f.regs[r]
  }

  /** ... and changed neither the slots nor the output. */
  predicate Keeps(f: Frame, f': Frame, next: nat) {
    f'.mem == f.mem && f'.out == f.out && RegsKept(f, f', next)
  }

  /** Running `code` from `f` faults exactly when `x` is `None`, and
      otherwise leaves `x` in `v` and keeps the slots, the output and every
      value numbered below `next`. */
  predicate Computes(code: seq<Instr>, v: Operand, next: nat, f: Frame, x: Option<int>) {
    && (Exec(code, f).Some? <==> x.Some?)
    && (x.Some? ==> Keeps(f, Exec(code, f).value, next) && Read(v, Exec(code, f).value) == x)
  }

  lemma KeepsRead(v: Operand, f: Frame, f': Frame, next: nat)
    requires Below(v, next) && RegsKept(f, f', next) && Read(v, f).Some?
    ensures Read(v, f') == Read(v, f)
  {
  }

  /** Two pieces of code one after the other. */
  lemma Then(ca: seq<Instr>, va: Operand, cb: seq<Instr>, vb: Operand, next: nat, mid: nat,
             f: Frame, x: Option<int>, y: Option<int>)
    requires next <= mid
    requires Computes(ca, va, next, f, x)
    requires x.Some? ==> Computes(cb, vb, mid, Exec(ca, f).value, y)
    ensures Computes(ca + cb, vb, next, f, if x.Some? then y else None)
  {
    ExecAppend(ca, cb, f);
  }

  /** Two operands, then one instruction that combines them. */
  lemma Combined(ca: seq<Instr>, va: Operand, cb: seq<Instr>, vb: Operand, op: Opcode, d: nat,
                 next: nat, mid: nat, f: Frame, x: Option<int>, y: Option<int>)
    requires next <= mid <= d && Below(va, mid) && Below(vb, d)
    requires Computes(ca, va, next, f, x)
    requires x.Some? ==> Computes(cb, vb, mid, Exec(ca, f).value, y)
    ensures Computes(ca + cb + [Op(d, op, va, vb)], Reg(d), next, f,
                     if x.Some? && y.Some? then Evaluate(op, x.value, y.value) else None)
  {
    ExecAppend(ca, cb, f);
    ExecAppend(ca + cb, [Op(d, op, va, vb)], f);
    if x.Some? && y.Some? {
      var f1 := Exec(ca, f).value;
      var f2 := Exec(cb, f1).value;
      KeepsRead(va, f1, f2, mid);
    }
  }

  /** The unrolled product computes the power. */
  lemma {:induction false} ChainCorrect(base: Operand, n: nat, next: nat, f: Frame, b: int)
    requires Below(base, next) && Read(base, f) == Some(b)
    ensures var c := Chain(base, n, next); Computes(c.instrs, c.v, next, f, Some(Power(b, n)))
    decreases n
  {
    if n > 0 {
      var p := Chain(base, n - 1, next);
      ChainCorrect(base, n - 1, next, f, b);
      var f1 := Exec(p.instrs, f).value;
      ExecAppend(p.instrs, [Op(p.next, Opcode.Mul, p.v, base)], f);
      KeepsRead(base, f, f1, next);
    }
  }

  /** `^` with a literal exponent computes the power. */
  lemma PowCorrect(base: Operand, k: nat, next: nat, f: Frame, b: int)
    requires Below(base, next) && Read(base, f) == Some(b)
    ensures var c := PowCode(base, k, next); Computes(c.instrs, c.v, next, f, Some(Power(b, k)))
  {
    if k > 0 {
      ChainCorrect(base, k, next, f, b);
    }
  }

  /** As written, `x ^ k` with `k > 0` computes `x` itself. */
  lemma {:induction false} PowAsWrittenGivesBase(base: Operand, k: nat, next: nat, f: Frame, b: int)
    requires k > 0 && Below(base, next) && Read(base, f) == Some(b)
    ensures var c := PowCodeAsWritten(base, k, next); Computes(c.instrs, c.v, next, f, Some(b))
    decreases k
  {
    var p := PowCodeAsWritten(base, k - 1, next);
    if k > 1 {
      PowAsWrittenGivesBase(base, k - 1, next, f, b);
    }
    var f1 := Exec(p.instrs, f).value;
    KeepsRead(base, f, f1, next);
    ExecAppend(p.instrs, [Op(p.next, Opcode.Mul, base, base)], f);
  }

  /** The discrepancy on one input: as written, `2 ^ 3` is 2, not 8. */
  lemma PowAsWrittenCounterexample()
    ensures var c := PowCodeAsWritten(Const(2), 3, 0);
      Computes(c.instrs, c.v, 0, Frame(map[], map[], []), Some(2)) && Power(2, 3) == 8
  {
    PowAsWrittenGivesBase(Const(2), 3, 0, Frame(map[], map[], []), 2);
  }

  lemma ApplyEvaluate(op: BinOp, x: int, y: int)
    requires op != Pow
    ensures Apply(op, x, y) == Evaluate(ArithOf(op), x, y)
  {
  }

  /** The code of an expression computes its value, faults exactly when
      evaluating it does (a division by zero), and leaves the slots, the
      output and every earlier value alone. */
  lemma {:induction false} ExprCodeCorrect(e: Expr, names: map<string, nat>, next: nat, f: Frame, st: Store)
    requires ExprReady(e, names.Keys) && Holds(f, names, st)
    ensures var c := ExprCode(e, names, next); Computes(c.instrs, c.v, next, f, Eval(e, st))
    decreases e
  {
    match e
    case Final(Id, x) =>
    case Final(Num, s) =>
    case BinaryOp(op, l, r) =>
      var cl := ExprCode(l, names, next);
      var cr := ExprCode(r, names, cl.next);
      ExprCodeCorrect(l, names, next, f, st);
      if Eval(l, st).Some? {
        ExprCodeCorrect(r, names, cl.next, Exec(cl.instrs, f).value, st);
      }
      if op == Pow {
        PowOperands(cl, cr, Exponent(r), next, f, Eval(l, st), Eval(r, st));
      } else {
        Combined(cl.instrs, cl.v, cr.instrs, cr.v, ArithOf(op), cr.next, next, cl.next, f, Eval(l, st), Eval(r, st));
        if Eval(l, st).Some? && Eval(r, st).Some? {
          ApplyEvaluate(op, Eval(l, st).value, Eval(r, st).value);
        }
      }
  }

  /** The operands of `^`, then the unrolled product of the left one. */
  lemma PowOperands(cl: Code, cr: Code, k: nat, next: nat, f: Frame, x: Option<int>, y: Option<int>)
    requires next <= cl.next <= cr.next && Below(cl.v, cl.next)
    requires Computes(cl.instrs, cl.v, next, f, x)
    requires x.Some? ==> Computes(cr.instrs, cr.v, cl.next, Exec(cl.instrs, f).value, y) && y.Some?
    ensures var p := PowCode(cl.v, k, cr.next);
      Computes(cl.instrs + cr.instrs + p.instrs, p.v, next, f, if x.Some? then Some(Power(x.value, k)) else None)
  {
    var p := PowCode(cl.v, k, cr.next);
    Then(cl.instrs, cl.v, cr.instrs, cr.v, next, cl.next, f, x, y);
    ExecAppend(cl.instrs, cr.instrs, f);
    if x.Some? {
      var f1 := Exec(cl.instrs, f).value;
      var f2 := Exec(cr.instrs, f1).value;
      KeepsRead(cl.v, f1, f2, cl.next);
      PowCorrect(cl.v, k, cr.next, f2, x.value);
      Then(cl.instrs + cr.instrs, cr.v, p.instrs, p.v, next, cr.next, f, y, Some(Power(x.value, k)));
    } else {
      ExecAppend(cl.instrs + cr.instrs, p.instrs, f);
    }
  }

  /** A condition's outcome as the i1 value the code leaves. */
  function Bits(t: Option<bool>): Option<int> {
    if t.None? then None else Some(Bit(t.value))
  }

  /** A comparison's code computes 1 when it holds and 0 when not, and
      faults exactly when evaluating a side does. */
  lemma ComparisonCorrect(l: Expr, rel: RelOp, rr: Expr, names: map<string, nat>, next: nat, f: Frame, st: Store)
    requires ExprReady(l, names.Keys) && ExprReady(rr, names.Keys) && Holds(f, names, st)
    ensures var r := CondCode(Condition(l, rel, rr), names, next);
      Computes(r.instrs, r.v, next, f, Bits(Test(Condition(l, rel, rr), st)))
  {
    var cl := ExprCode(l, names, next);
    var cr := ExprCode(rr, names, cl.next);
    ExprCodeCorrect(l, names, next, f, st);
    if Eval(l, st).Some? {
      ExprCodeCorrect(rr, names, cl.next, Exec(cl.instrs, f).value, st);
    }
    Combined(cl.instrs, cl.v, cr.instrs, cr.v, ICmp(PredOf(rel)), cr.next, next, cl.next, f, Eval(l, st), Eval(rr, st));
    CompareBits(l, rel, rr, st);
  }

  /** `icmp` with the predicate of a relation gives the i1 value of the
      comparison. */
  lemma CompareBits(l: Expr, rel: RelOp, rr: Expr, st: Store)
    ensures var x := Eval(l, st); var y := Eval(rr, st);
      Bits(Test(Condition(l, rel, rr), st)) == (if x.Some? && y.Some? then Evaluate(ICmp(PredOf(rel)), x.value, y.value) else None)
  {
  }

  /** `and`/`or` on the i1 values of two conditions is the i1 value of their
      conjunction or disjunction. */
  lemma JoinBits(lop: LogicOp, a: Cond, b: Cond, st: Store)
    ensures var x := Bits(Test(a, st)); var y := Bits(Test(b, st));
      Bits(Test(C(lop, a, b), st)) == (if x.Some? && y.Some? then Evaluate(JoinOf(lop), x.value, y.value) else None)
  {
  }

  /** `and`/`or`, given that each side's code computes that side. */
  lemma ConnectiveCorrect(lop: LogicOp, a: Cond, b: Cond, names: map<string, nat>, next: nat, f: Frame, st: Store)
    requires CondReady(a, names.Keys) && CondReady(b, names.Keys)
    requires var ca := CondCode(a, names, next);
      && Computes(ca.instrs, ca.v, next, f, Bits(Test(a, st)))
      && (Test(a, st).Some? ==>
            var cb := CondCode(b, names, ca.next); Computes(cb.instrs, cb.v, ca.next, Exec(ca.instrs, f).value, Bits(Test(b, st))))
    ensures var r := CondCode(C(lop, a, b), names, next); Computes(r.instrs, r.v, next, f, Bits(Test(C(lop, a, b), st)))
  {
    var ca := CondCode(a, names, next);
    var cb := CondCode(b, names, ca.next);
    Combined(ca.instrs, ca.v, cb.instrs, cb.v, JoinOf(lop), cb.next, next, ca.next, f, Bits(Test(a, st)), Bits(Test(b, st)));
    JoinBits(lop, a, b, st);
  }

  /** The code of a condition computes 1 when it holds and 0 when not, and
      faults exactly when testing it does. */
  lemma {:induction false} CondCodeCorrect(c: Cond, names: map<string, nat>, next: nat, f: Frame, st: Store)
    requires CondReady(c, names.Keys) && Holds(f, names, st)
    ensures var r := CondCode(c, names, next); Computes(r.instrs, r.v, next, f, Bits(Test(c, st)))
    decreases c
  {
    if c.Condition? {
      ComparisonCorrect(c.left, c.rel, c.right, names, next, f, st);
    } else {
      var ca := CondCode(c.lhs, names, next);
      CondCodeCorrect(c.lhs, names, next, f, st);
      if Test(c.lhs, st).Some? {
        CondCodeCorrect(c.rhs, names, ca.next, Exec(ca.instrs, f).value, st);
      }
      ConnectiveCorrect(c.lop, c.lhs, c.rhs, names, next, f, st);
    }
  }

  /** The store back of an assignment, run with the rhs's value in hand:
      it faults exactly when combining does, and otherwise leaves the new
      value in the slot and appends it to the output. */
  lemma StoreBackRuns(op: AssignOp, slot: nat, rhs: Operand, loaded: nat, f: Frame, x: int)
    requires Below(rhs, loaded) && slot in f.mem && Read(rhs, f) == Some(x)
    ensures var b := StoreBack(op, slot, rhs, loaded);
      && (Exec(b.instrs, f).Some? <==> Combine(op, f.mem[slot], x).Some?)
      && (Combine(op, f.mem[slot], x).Some? ==>
            var n := Combine(op, f.mem[slot], x).value;
            && Exec(b.instrs, f).value.mem == f.mem[slot := n]
            && Exec(b.instrs, f).value.out == f.out + [n]
            && RegsKept(f, Exec(b.instrs, f).value, loaded))
  {
    var f1 := f.(regs := f.regs[loaded := f.mem[slot]]);
    assert Step(Load(loaded, slot), f) == Some(f1);
    KeepsRead(rhs, f, f1, loaded);
    if op == Equal {
      WriteBack(rhs, slot, x, f1);
      ExecCons(Load(loaded, slot), [Store(rhs, slot), CallWrite(rhs)], f);
    } else {
      var u := Op(loaded + 1, AssignArith(op), Reg(loaded), rhs);
      ExecCons(Load(loaded, slot), [u, Store(Reg(loaded + 1), slot), CallWrite(Reg(loaded + 1))], f);
      ExecCons(u, [Store(Reg(loaded + 1), slot), CallWrite(Reg(loaded + 1))], f1);
      assert Evaluate(AssignArith(op), f.mem[slot], x) == Combine(op, f.mem[slot], x);
      if Combine(op, f.mem[slot], x).Some? {
        var n := Combine(op, f.mem[slot], x).value;
        var f2 := f1.(regs := f1.regs[loaded + 1 := n]);
        assert Step(u, f1) == Some(f2);
        WriteBack(Reg(loaded + 1), slot, n, f2);
      }
    }
  }

  /** A store of a value to a slot, then a `write` of the same value. */
  lemma WriteBack(v: Operand, slot: nat, n: int, f: Frame)
    requires slot in f.mem && Read(v, f) == Some(n)
    ensures Exec([Store(v, slot), CallWrite(v)], f) == Some(f.(mem := f.mem[slot := n], out := f.out + [n]))
  {
    var f1 := f.(mem := f.mem[slot := n]);
    assert Step(Store(v, slot), f) == Some(f1);
    ExecCons(Store(v, slot), [CallWrite(v)], f);
    ExecCons(CallWrite(v), [], f1);
  }

  /** As written, the store back of a plain `=` leaves the slot as it was. */
  lemma StoreBackAsWrittenRuns(slot: nat, rhs: Operand, loaded: nat, f: Frame)
    requires Below(rhs, loaded) && slot in f.mem
    ensures var b := StoreBackAsWritten(Equal, slot, rhs, loaded);
      && Exec(b.instrs, f).Some?
      && Exec(b.instrs, f).value.mem == f.mem
      && Exec(b.instrs, f).value.out == f.out + [f.mem[slot]]
  {
    var f1 := f.(regs := f.regs[loaded := f.mem[slot]]);
    assert Step(Load(loaded, slot), f) == Some(f1);
    ExecCons(Load(loaded, slot), [Store(Reg(loaded), slot), CallWrite(Reg(loaded))], f);
    WriteBack(Reg(loaded), slot, f.mem[slot], f1);
    assert f1.mem[slot := f.mem[slot]] == f.mem;
  }

  /** The slots still hold the store after the target's slot takes a new
      value and the target is updated in the store. */
  lemma HoldsAfterStore(f: Frame, names: map<string, nat>, st: Store, x: string, n: int)
    requires Holds(f, names, st) && Distinct(names) && x in names
    ensures Holds(f.(mem := f.mem[names[x] := n]), names, st[x := n])
  {
    var f' := f.(mem := f.mem[names[x] := n]);
    forall y | y in names ensures names[y] in f'.mem && f'.mem[names[y]] == st[x := n][y] {
      if y != x {
        assert names[y] != names[x];
      }
    }
  }

  /** The code of an assignment faults exactly when the assignment does;
      otherwise the target's slot holds the new value, every other slot
      keeps its value, and the new value has been written out once. */
  lemma EquationCodeCorrect(eq: Equation, names: map<string, nat>, next: nat, f: Frame, env: Env)
    requires EquationReady(eq, names.Keys) && Holds(f, names, env.store) && Distinct(names) && f.out == env.out
    ensures var c := EquationCode(eq, names, next);
      && (Exec(c.instrs, f).Some? <==> Assign(eq, env).Some?)
      && (Assign(eq, env).Some? ==>
            && Holds(Exec(c.instrs, f).value, names, Assign(eq, env).value.store)
            && Exec(c.instrs, f).value.out == Assign(eq, env).value.out
            && RegsKept(f, Exec(c.instrs, f).value, next))
  {
    var r := ExprCode(eq.rhs, names, next);
    var slot := names[eq.target];
    var b := StoreBack(eq.op, slot, r.v, r.next);
    ExprCodeCorrect(eq.rhs, names, next, f, env.store);
    ExecAppend(r.instrs, b.instrs, f);
    if Eval(eq.rhs, env.store).Some? {
      var f1 := Exec(r.instrs, f).value;
      StoreBackRuns(eq.op, slot, r.v, r.next, f1, Eval(eq.rhs, env.store).value);
      if Assign(eq, env).Some? {
        HoldsAfterStore(f1, names, env.store, eq.target, Assign(eq, env).value.store[eq.target]);
      }
    }
  }

  /** As written, plain `=` leaves the target's slot holding the value it
      had, while the assignment gives the target the rhs's value. */
  lemma PlainAssignAsWrittenKeepsOld(eq: Equation, names: map<string, nat>, next: nat, f: Frame, env: Env)
    requires eq.op == Equal && EquationReady(eq, names.Keys) && Holds(f, names, env.store)
    requires Eval(eq.rhs, env.store).Some?
    ensures var c := EquationCodeAsWritten(eq, names, next);
      && Exec(c.instrs, f).Some?
      && names[eq.target] in Exec(c.instrs, f).value.mem
      && Exec(c.instrs, f).value.mem[names[eq.target]] == env.store[eq.target]
      && Assign(eq, env).Some? && Assign(eq, env).value.store[eq.target] == Eval(eq.rhs, env.store).value
  {
    var r := ExprCode(eq.rhs, names, next);
    var b := StoreBackAsWritten(eq.op, names[eq.target], r.v, r.next);
    ExprCodeCorrect(eq.rhs, names, next, f, env.store);
    ExecAppend(r.instrs, b.instrs, f);
    StoreBackAsWrittenRuns(names[eq.target], r.v, r.next, Exec(r.instrs, f).value);
  }

  /** The discrepancy on one input: with `x` holding 7, `x = 5` as written
      leaves 7 in `x`'s slot, where the assignment sets `x` to 5. */
  lemma PlainAssignAsWrittenCounterexample()
    ensures var eq := Equation("x", Final(Num, "5"), Equal);
      var f := Exec(EquationCodeAsWritten(eq, map["x" := 0], 1).instrs, Frame(map[], map[0 := 7], []));
      && f.Some? && 0 in f.value.mem && f.value.mem[0] == 7
      && Assign(eq, Env(map["x" := 7], [])) == Some(Env(map["x" := 5], [5]))
  {
    var eq := Equation("x", Final(Num, "5"), Equal);
    assert DecimalValue("5") == 5 by {
      assert "5"[..0] == [];
    }
    PlainAssignAsWrittenKeepsOld(eq, map["x" := 0], 1, Frame(map[], map[0 := 7], []), Env(map["x" := 7], []));
    assert Eval(eq.rhs, map["x" := 7]) == Some(5);
    assert Combine(Equal, 7, 5) == Some(5);
    assert Assign(eq, Env(map["x" := 7], [])) == Some(Env(map["x" := 7]["x" := 5], [] + [5]));
    assert map["x" := 7]["x" := 5] == map["x" := 5];
    assert [] + [5] == [5];
    assert Assign(eq, Env(map["x" := 7], [])) == Some(Env(map["x" := 5], [5]));
    var f := Exec(EquationCodeAsWritten(eq, map["x" := 0], 1).instrs, Frame(map[], map[0 := 7], []));
    assert f.Some?;
    assert 0 in f.value.mem;
    assert f.value.mem[0] == 7;
  }

  /** One declared name's slot is made and, with an initializer, set. */
  lemma SlotCodeRuns(s: nat, val: Option<Operand>, v: int, f: Frame)
    requires val.Some? ==> Read(val.value, f) == Some(v)
    requires val.None? ==> v == 0
    ensures Exec(SlotCode(s, val), f) == Some(f.(mem := f.mem[s := v]))
  {
    var f1 := f.(mem := f.mem[s := 0]);
    assert Step(Alloca(s), f) == Some(f1);
    ExecCons(Alloca(s), if val.Some? then [Store(val.value, s)] else [], f);
    if val.Some? {
      assert f1.regs == f.regs;
      assert Read(val.value, f1) == Some(v);
      assert f1.mem[s := v] == f.mem[s := v];
      assert Step(Store(val.value, s), f1) == Some(f.(mem := f.mem[s := v]));
      ExecCons(Store(val.value, s), [], f1);
    } else {
      assert f1 == f.(mem := f.mem[s := v]);
    }
  }

  /** The slots for a declaration: each name's slot is new and holds the
      initial value; the other names keep their slots and values. */
  lemma {:induction false} SlotsCodeCorrect(vars: seq<string>, val: Option<Operand>, v: int, base: nat,
                                            names: map<string, nat>, f: Frame, st: Store)
    requires Holds(f, names, st) && Distinct(names) && SlotsBelow(names, base)
    requires val.Some? ==> Read(val.value, f) == Some(v)
    requires val.None? ==> v == 0
    ensures var f' := Exec(SlotsCode(vars, val, base), f);
      && f'.Some?
      && Holds(f'.value, Bound(vars, names, base), Bind(vars, v, st))
      && Distinct(Bound(vars, names, base))
      && SlotsBelow(Bound(vars, names, base), base + |vars|)
      && f'.value.regs == f.regs && f'.value.out == f.out
    decreases |vars|
  {
    if vars != [] {
      var front := vars[..|vars| - 1];
      var x := vars[|vars| - 1];
      var s := base + |vars| - 1;
      SlotsCodeCorrect(front, val, v, base, names, f, st);
      var f1 := Exec(SlotsCode(front, val, base), f).value;
      var n1 := Bound(front, names, base);
      SlotCodeRuns(s, val, v, f1);
      ExecAppend(SlotsCode(front, val, base), SlotCode(s, val), f);
      NewSlot(f1, n1, Bind(front, v, st), x, s, v);
    }
  }

  /** Registering a name with a new slot that holds its value. */
  lemma NewSlot(f: Frame, names: map<string, nat>, st: Store, x: string, s: nat, v: int)
    requires Holds(f, names, st) && Distinct(names) && SlotsBelow(names, s)
    ensures Holds(f.(mem := f.mem[s := v]), names[x := s], st[x := v])
    ensures Distinct(names[x := s]) && SlotsBelow(names[x := s], s + 1)
  {
    var n' := names[x := s];
    forall y, z | y in n' && z in n' && y != z ensures n'[y] != n'[z] {
      if y != x && z != x {
        assert names[y] != names[z];
      }
    }
  }

  /** A declaration's code faults exactly when its initializer does; then
      every declared name has a new slot holding the initial value (0 with
      no initializer), and nothing is written out. */
  lemma DeclCodeCorrect(vars: seq<string>, init: Option<Expr>, names: map<string, nat>, next: nat, f: Frame, env: Env)
    requires init.Some? ==> ExprReady(init.value, names.Keys)
    requires Holds(f, names, env.store) && Distinct(names) && SlotsBelow(names, next) && f.out == env.out
    ensures var c := DeclCode(vars, init, names, next);
      var base := DeclBase(init, names, next);
      && (Exec(c.instrs, f).Some? <==> Declare(vars, init, env).Some?)
      && (Declare(vars, init, env).Some? ==>
            && Holds(Exec(c.instrs, f).value, Bound(vars, names, base), Declare(vars, init, env).value.store)
            && Distinct(Bound(vars, names, base))
            && SlotsBelow(Bound(vars, names, base), c.next)
            && Exec(c.instrs, f).value.out == env.out
            && RegsKept(f, Exec(c.instrs, f).value, next))
  {
    if init.Some? {
      var e := ExprCode(init.value, names, next);
      ExprCodeCorrect(init.value, names, next, f, env.store);
      ExecAppend(e.instrs, SlotsCode(vars, Some(e.v), e.next), f);
      if Eval(init.value, env.store).Some? {
        var f1 := Exec(e.instrs, f).value;
        SlotsCodeCorrect(vars, Some(e.v), Eval(init.value, env.store).value, e.next, names, f1, env.store);
      }
    } else {
      SlotsCodeCorrect(vars, None, 0, next, names, f, env.store);
    }
  }

  /** The assignments of a block run one after the other. */
  lemma {:induction false} AssignAllSnoc(eqs: seq<Equation>, eq: Equation, env: Env)
    ensures AssignAll(eqs + [eq], Some(env)) ==
      (if AssignAll(eqs, Some(env)).None? then None else Assign(eq, AssignAll(eqs, Some(env)).value))
    decreases |eqs|
  {
    if eqs == [] {
      assert [] + [eq] == [eq];
      assert [eq][1..] == [];
    } else {
      assert (eqs + [eq])[0] == eqs[0];
      assert (eqs + [eq])[1..] == eqs[1..] + [eq];
      if Assign(eqs[0], env).Some? {
        AssignAllSnoc(eqs[1..], eq, Assign(eqs[0], env).value);
      } else {
        NoneStaysNone(eqs[1..] + [eq]);
        NoneStaysNone(eqs[1..]);
      }
    }
  }

  lemma {:induction false} NoneStaysNone(eqs: seq<Equation>)
    ensures AssignAll(eqs, None) == None
  {
  }

  /** What a block of assignments needs of the frame it starts from. */
  predicate Ready(f: Frame, names: map<string, nat>, next: nat, env: Env) {
    Holds(f, names, env.store) && Distinct(names) && SlotsBelow(names, next) && f.out == env.out
  }

  /** The code of a block of assignments faults exactly when one of them
      does; otherwise the slots hold the store the block leaves and the
      output is the values it wrote, in order. */
  lemma {:induction false} EquationsCodeCorrect(eqs: seq<Equation>, names: map<string, nat>, next: nat, f: Frame, env: Env)
    requires EquationsReady(eqs, names.Keys) && Ready(f, names, next, env)
    ensures var c := EquationsCode(eqs, names, next);
      && (Exec(c.instrs, f).Some? <==> AssignAll(eqs, Some(env)).Some?)
      && (AssignAll(eqs, Some(env)).Some? ==> Ready(Exec(c.instrs, f).value, names, c.next, AssignAll(eqs, Some(env)).value))
    decreases |eqs|
  {
    if eqs == [] {
    } else {
      var front := eqs[..|eqs| - 1];
      var last := eqs[|eqs| - 1];
      assert eqs == front + [last];
      var p := EquationsCode(front, names, next);
      EquationsCodeCorrect(front, names, next, f, env);
      AssignAllSnoc(front, last, env);
      ExecAppend(p.instrs, EquationCode(last, names, p.next).instrs, f);
      if AssignAll(front, Some(env)).Some? {
        EquationCodeCorrect(last, names, p.next, Exec(p.instrs, f).value, AssignAll(front, Some(env)).value);
      }
    }
  }
}
