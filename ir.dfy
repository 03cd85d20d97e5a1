// The intermediate representation the code generator emits (CodeGen.cpp)
// and what running it does.
//
// The source builds LLVM IR through `IRBuilder`. This model replaces LLVM
// with a small IR of its own that has the instructions CodeGen.cpp creates:
// `alloca`, `load` and `store` of 32-bit stack slots, `add`/`sub`/`mul`/
// `sdiv`/`srem`, `icmp`, `and`/`or` on i1 values and the call to the
// runtime's `write` function; blocks end in `br`, a conditional `br` or
// `ret`. A value is a constant or a numbered register; a stack slot is named
// by the number of the `alloca` that made it, as the source's `nameMap` maps
// a name to its `AllocaInst`. Arithmetic is on unbounded integers (see the
// README for what that leaves out); `sdiv`/`srem` truncate toward zero.

module IR {
  import opened Wrappers

  /** A constant or the value an earlier instruction defined. */
  datatype Operand = Const(n: int) | Reg(r: nat)

  /** The signed `icmp` predicates, one per relational operator. */
  datatype Pred = SGT | SLT | SGE | SLE | EQ | NE

  /** The instructions that combine two values into a new one: the
      arithmetic of CodeGen.cpp:85-104 and :146-166, the comparison, and the
      `and`/`or` of CodeGen.cpp:281-290. */
  datatype Opcode = Add | Sub | Mul | SDiv | SRem | ICmp(pred: Pred) | And | Or

  datatype Instr =
    | Alloca(slot: nat)
    | Load(dst: nat, slot: nat)
    | Store(val: Operand, slot: nat)
    | Op(dst: nat, code: Opcode, a: Operand, b: Operand)
    | CallWrite(arg: Operand)

  /** Block numbers are positions in the function's block list. */
  datatype Terminator =
    | Br(target: nat)
    | CondBr(cond: Operand, ifTrue: nat, ifFalse: nat)
    | Ret(val: Operand)

  /** A basic block; `term` is `None` while the builder may still append to it. */
  datatype Block = Block(name: string, body: seq<Instr>, term: Option<Terminator>)

  /** The machine state: register values, stack slots and what `write` has
      been called with so far. */
  datatype Frame = Frame(regs: map<nat, int>, mem: map<nat, int>, out: seq<int>)

  function Abs(n: int): nat {
    if n < 0 then -n else n
  }

  /** `sdiv`: the quotient truncated toward zero. */
  function TruncDiv(a: int, b: int): int
    requires b != 0
  {
    if (a < 0) == (b < 0) then Abs(a) / Abs(b) else -(Abs(a) / Abs(b))
  }

  /** `srem`: the remainder that goes with `TruncDiv`. */
  function TruncRem(a: int, b: int): int
    requires b != 0
  {
    a - b * TruncDiv(a, b)
  }

  /** Quotient and remainder split the dividend, the remainder is smaller than
      the divisor and takes the dividend's sign, and the quotient rounds
      toward zero. */
  lemma TruncDivision(a: int, b: int)
    requires b != 0
    ensures a == b * TruncDiv(a, b) + TruncRem(a, b)
    ensures Abs(TruncRem(a, b)) < Abs(b)
    ensures TruncRem(a, b) == 0 || ((TruncRem(a, b) < 0) == (a < 0))
    ensures Abs(b * TruncDiv(a, b)) <= Abs(a)
  {
    var A: int, B: int := Abs(a), Abs(b);
    var q: int := A / B;
    var d := TruncDiv(a, b);
    DivParts(A, B);
    SignedMul(b, d, B, q, b < 0, (a < 0) != (b < 0));
  }

  /** Euclidean division of naturals: the product part of the dividend is
      no larger than the dividend itself. */
  lemma DivParts(A: nat, B: nat)
    requires B > 0
    ensures A == B * (A / B) + A % B && 0 <= A % B < B && 0 <= B * (A / B) <= A
  {
    var q: int := A / B;
    assert 0 <= q;
    MulNat(B, q);
  }

  lemma MulNat(x: nat, y: nat)
    ensures 0 <= x * y
  {
  }

  /** The sign of a product follows the signs of its factors. */
  lemma SignedMul(x: int, y: int, X: int, Y: int, sx: bool, sy: bool)
    requires x == (if sx then -X else X) && y == (if sy then -Y else Y)
    ensures x * y == (if sx == sy then X * Y else -(X * Y))
  {
  }

  /** An i1 value as an integer. */
  function Bit(b: bool): int {
    if b then 1 else 0
  }

  function Compare(p: Pred, x: int, y: int): bool {
    match p
    case SGT => x > y
    case SLT => x < y
    case SGE => x >= y
    case SLE => x <= y
    case EQ => x == y
    case NE => x != y
  }

  /** What a combining instruction computes; division and remainder by zero
      fault. `and`/`or` act on the i1 results of comparisons, where bitwise
      and logical agree. */
  function Evaluate(op: Opcode, x: int, y: int): (r: Option<int>)
    ensures r.None? <==> (op == SDiv || op == SRem) && y == 0
  {
    match op
    case Add => Some(x + y)
    case Sub => Some(x - y)
    case Mul => Some(x * y)
    case SDiv => if y == 0 then None else Some(TruncDiv(x, y))
    case SRem => if y == 0 then None else Some(TruncRem(x, y))
    case ICmp(p) => Some(Bit(Compare(p, x, y)))
    case And => Some(Bit(x != 0 && y != 0))
    case Or => Some(Bit(x != 0 || y != 0))
  }

  /** The value of an operand; reading a register nothing has defined faults. */
  function Read(o: Operand, f: Frame): Option<int> {
    match o
    case Const(n) => Some(n)
    case Reg(r) => if r in f.regs then Some(f.regs[r]) else None
  }

  /** One instruction. A new slot holds 0 (LLVM leaves it undefined); using a
      slot no `alloca` made faults. */
  function Step(i: Instr, f: Frame): Option<Frame> {
    match i
    case Alloca(s) => Some(f.(mem := f.mem[s := 0]))
    case Load(d, s) => if s in f.mem then Some(f.(regs := f.regs[d := f.mem[s]])) else None
    case Store(v, s) =>
      if s in f.mem && Read(v, f).Some? then Some(f.(mem := f.mem[s := Read(v, f).value])) else None
    case Op(d, op, a, b) =>
      if Read(a, f).Some? && Read(b, f).Some? && Evaluate(op, Read(a, f).value, Read(b, f).value).Some?
      then Some(f.(regs := f.regs[d := Evaluate(op, Read(a, f).value, Read(b, f).value).value]))
      else None
    case CallWrite(a) => if Read(a, f).Some? then Some(f.(out := f.out + [Read(a, f).value])) else None
  }

  /** A straight-line instruction sequence, first to last. */
  function Exec(code: seq<Instr>, f: Frame): Option<Frame>
    decreases |code|
  {
    if code == [] then Some(f)
    else match Step(code[0], f)
      case None => None
      case Some(f') => Exec(code[1..], f')
  }

  /** Running an instruction and then the rest. */
  lemma ExecCons(i: Instr, rest: seq<Instr>, f: Frame)
    ensures Exec([i] + rest, f) == (if Step(i, f).None? then None else Exec(rest, Step(i, f).value))
  {
    assert ([i] + rest)[0] == i;
    assert ([i] + rest)[1..] == rest;
  }

  /** Running two sequences one after the other is running their
      concatenation. */
  lemma {:induction false} ExecAppend(a: seq<Instr>, b: seq<Instr>, f: Frame)
    ensures Exec(a + b, f) == (if Exec(a, f).None? then None else Exec(b, Exec(a, f).value))
    decreases |a|
  {
    if a == [] {
      assert a + b == b;
    } else {
      assert (a + b)[0] == a[0];
      assert (a + b)[1..] == a[1..] + b;
      if Step(a[0], f).Some? {
        ExecAppend(a[1..], b, Step(a[0], f).value);
      }
    }
  }

  /** How running a function ends: it returned with a frame and a value,
      it faulted, or it was still running when the fuel was spent. */
  datatype Outcome = Returned(frame: Frame, status: int) | Crashed | Running

  /** Runs block `pc` from its instruction `at` on, then whatever it
      branches to; every branch taken costs one unit of fuel. A block
      without a terminator faults. A function starts at instruction 0 of its
      first block. */
  function Run(blocks: seq<Block>, pc: nat, at: nat, f: Frame, fuel: nat): Outcome
    decreases fuel
  {
    if fuel == 0 then Running
    else if pc >= |blocks| || at > |blocks[pc].body| then Crashed
    else match Exec(blocks[pc].body[at..], f)
      case None => Crashed
      case Some(f') =>
        match blocks[pc].term
        case None => Crashed
        case Some(Br(t)) => Run(blocks, t, 0, f', fuel - 1)
        case Some(CondBr(c, t, e)) =>
          if Read(c, f').None? then Crashed
          else Run(blocks, if Read(c, f').value != 0 then t else e, 0, f', fuel - 1)
        case Some(Ret(v)) => if Read(v, f').None? then Crashed else Returned(f', Read(v, f').value)
  }

  /** Running a stretch of straight-line code inside a block and then the
      rest of the block is running the rest from the frame the stretch
      leaves. */
  lemma RunStraight(blocks: seq<Block>, pc: nat, at: nat, code: seq<Instr>, f: Frame, f': Frame, fuel: nat)
    requires pc < |blocks| && at + |code| <= |blocks[pc].body|
    requires blocks[pc].body[at..at + |code|] == code
    requires Exec(code, f) == Some(f')
    ensures Run(blocks, pc, at, f, fuel) == Run(blocks, pc, at + |code|, f', fuel)
  {
    var body := blocks[pc].body;
    assert body[at..] == code + body[at + |code|..];
    ExecAppend(code, body[at + |code|..], f);
  }
}
