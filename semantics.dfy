// What a program of the calculator language means: the reference against
// which the code generator's output is proved.
//
// The repository has no interpreter; its meaning is the one CodeGen.cpp
// gives it. A declared variable is a 32-bit stack slot (modelled as an
// unbounded integer) that holds 0 until something is stored in it, every
// assignment stores its new value and hands it to the runtime's `write`
// function, `/` and `%` truncate toward zero, `^` raises to the literal
// exponent written after it, and `and`/`or` evaluate both sides.

module Semantics {
  import opened Wrappers
  import opened AST
  import IR

  type Store = map<string, int>

  predicate IsDigits(s: string) {
    forall i :: 0 <= i < |s| ==> '0' <= s[i] <= '9'
  }

  /** The value of a run of decimal digits, as `StringRef::getAsInteger`
      with radix 10 reads it (CodeGen.cpp:131, :171). */
  function DecimalValue(s: string): nat
    requires IsDigits(s)
  {
    if s == [] then 0 else DecimalValue(s[..|s| - 1]) * 10 + (s[|s| - 1] - '0') as int
  }

  /** The shortest decimal spelling of `n`. */
  function DecimalText(n: nat): string
    decreases n
  {
    (if n < 10 then "" else DecimalText(n / 10)) + [(n % 10 + '0' as int) as char]
  }

  /** Spelling a number in decimal and reading it back gives the number. */
  lemma {:induction false} DecimalRoundTrip(n: nat)
    ensures IsDigits(DecimalText(n))
    ensures DecimalValue(DecimalText(n)) == n
    decreases n
  {
    var d := (n % 10 + '0' as int) as char;
    assert (d - '0') as int == n % 10;
    if n < 10 {
      DigitAppended([], d);
      assert DecimalText(n) == [] + [d];
    } else {
      DecimalRoundTrip(n / 10);
      DigitAppended(DecimalText(n / 10), d);
    }
  }

  /** Appending a digit to a run of digits multiplies its value by ten and
      adds the digit. */
  lemma DigitAppended(s: string, d: char)
    requires IsDigits(s) && '0' <= d <= '9'
    ensures IsDigits(s + [d]) && DecimalValue(s + [d]) == DecimalValue(s) * 10 + (d - '0') as int
  {
    assert (s + [d])[..|s|] == s;
  }

  /** The exponent of `l ^ r`: the decimal value of the right operand's text,
      and 0 when that text is not a number, as `getAsInteger` leaves the
      zero-initialised `rightValue` untouched on failure (CodeGen.cpp:168-171). */
  function Exponent(r: Expr): nat {
    if r.Final? && IsDigits(r.val) then DecimalValue(r.val) else 0
  }

  function Power(b: int, k: nat): int {
    if k == 0 then 1 else Power(b, k - 1) * b
  }

  /** The value of an expression in a store; `None` when it reads an
      undeclared name or a literal that is not a number, or divides by zero. */
  function Eval(e: Expr, st: Store): Option<int> {
    match e
    case Final(Id, x) => if x in st then Some(st[x]) else None
    case Final(Num, s) => if IsDigits(s) then Some(DecimalValue(s)) else None
    case BinaryOp(op, l, r) =>
      if op == Pow then
        (match Eval(l, st)
         case None => None
         case Some(x) => Some(Power(x, Exponent(r))))
      else
        match (Eval(l, st), Eval(r, st))
        case (Some(x), Some(y)) => Apply(op, x, y)
        case _ => None
  }

  /** `+ - * / %` on two values. */
  function Apply(op: BinOp, x: int, y: int): Option<int>
    requires op != Pow
  {
    match op
    case Plus => Some(x + y)
    case Minus => Some(x - y)
    case Mul => Some(x * y)
    case Div => if y == 0 then None else Some(IR.TruncDiv(x, y))
    case Mod => if y == 0 then None else Some(IR.TruncRem(x, y))
  }

  function Relate(rel: RelOp, x: int, y: int): bool {
    match rel
    case Greater => x > y
    case Less => x < y
    case GreaterEqual => x >= y
    case LessEqual => x <= y
    case EqualEqual => x == y
    case NotEqual => x != y
  }

  /** Whether a condition holds; both sides of `and`/`or` are evaluated, so
      a fault on either side is a fault of the whole. */
  function Test(c: Cond, st: Store): Option<bool> {
    match c
    case Condition(l, rel, r) =>
      (match (Eval(l, st), Eval(r, st))
       case (Some(x), Some(y)) => Some(Relate(rel, x, y))
       case _ => None)
    case C(lop, a, b) =>
      match (Test(a, st), Test(b, st))
      case (Some(x), Some(y)) => Some(if lop == And then x && y else x || y)
      case _ => None
  }

  /** The variables and everything written so far. */
  datatype Env = Env(store: Store, out: seq<int>)

  /** The new value of an assignment's target. */
  function Combine(op: AssignOp, cur: int, rhs: int): Option<int> {
    match op
    case Equal => Some(rhs)
    case PlusEqual => Some(cur + rhs)
    case MinusEqual => Some(cur - rhs)
    case StarEqual => Some(cur * rhs)
    case SlashEqual => if rhs == 0 then None else Some(IR.TruncDiv(cur, rhs))
    case PercentEqual => if rhs == 0 then None else Some(IR.TruncRem(cur, rhs))
  }

  /** An assignment stores the new value and writes it out. */
  function Assign(eq: Equation, env: Env): Option<Env> {
    if eq.target !in env.store then None
    else match Eval(eq.rhs, env.store)
      case None => None
      case Some(v) =>
        match Combine(eq.op, env.store[eq.target], v)
        case None => None
        case Some(n) => Some(Env(env.store[eq.target := n], env.out + [n]))
  }

  /** A block of assignments, first to last. */
  function AssignAll(eqs: seq<Equation>, env: Option<Env>): Option<Env>
    decreases |eqs|
  {
    if eqs == [] || env.None? then env
    else AssignAll(eqs[1..], Assign(eqs[0], env.value))
  }

  /** Every name in `vars` bound to `v`. */
  function Bind(vars: seq<string>, v: int, st: Store): Store
    decreases |vars|
  {
    if vars == [] then st else Bind(vars[..|vars| - 1], v, st)[vars[|vars| - 1] := v]
  }

  /** A declaration evaluates its initializer once and gives every name that
      value, or 0 without one. */
  function Declare(vars: seq<string>, init: Option<Expr>, env: Env): Option<Env> {
    match init
    case None => Some(env.(store := Bind(vars, 0, env.store)))
    case Some(e) =>
      match Eval(e, env.store)
      case None => None
      case Some(v) => Some(env.(store := Bind(vars, v, env.store)))
  }

  /** How running statements ends: finished, faulted, or out of fuel inside
      a loop. */
  datatype Result = Done(env: Env) | Fault | OutOfFuel

  function Lift(r: Option<Env>): Result {
    if r.None? then Fault else Done(r.value)
  }

  /** The elif chain and the else: the first clause whose condition holds
      runs; with none, the else block, if any. */
  function Branch(elifs: seq<Elif>, els: Option<Else>, env: Env): Option<Env>
    decreases |elifs|
  {
    if elifs == [] then (if els.None? then Some(env) else AssignAll(els.value.body, Some(env)))
    else match Test(elifs[0].cond, env.store)
      case None => None
      case Some(true) => AssignAll(elifs[0].body, Some(env))
      case Some(false) => Branch(elifs[1..], els, env)
  }

  /** A pre-test loop; each round costs one unit of fuel. */
  function Repeat(c: Cond, body: seq<Equation>, env: Env, fuel: nat): Result
    decreases fuel
  {
    if fuel == 0 then OutOfFuel
    else match Test(c, env.store)
      case None => Fault
      case Some(false) => Done(env)
      case Some(true) =>
        match AssignAll(body, Some(env))
        case None => Fault
        case Some(env') => Repeat(c, body, env', fuel - 1)
  }

  function ExecStmt(s: Stmt, env: Env, fuel: nat): Result {
    match s
    case Declaration(vars, init) => Lift(Declare(vars, init, env))
    case Assignment(eq) => Lift(Assign(eq, env))
    case If(c, body, elifs, els) =>
      (match Test(c, env.store)
       case None => Fault
       case Some(true) => Lift(AssignAll(body, Some(env)))
       case Some(false) => Lift(Branch(elifs, els, env)))
    case Loop(c, body) => Repeat(c, body, env, fuel)
  }

  /** Statements run first to last; the first that does not finish ends
      the run. */
  function ExecStmts(ss: seq<Stmt>, env: Env, fuel: nat): Result
    decreases |ss|
  {
    if ss == [] then Done(env)
    else match ExecStmts(ss[..|ss| - 1], env, fuel)
      case Done(env') => ExecStmt(ss[|ss| - 1], env', fuel)
      case r => r
  }

  /** A program starts with no variables and nothing written. */
  function ExecGoal(g: Goal, fuel: nat): Result {
    ExecStmts(g.stmts, Env(map[], []), fuel)
  }
}
