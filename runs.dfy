// Running the blocks of a finished function a few branches at a time:
// where a run stands after the rest of one block and a number of branches,
// and how such steps compose.

module Runs {
  import opened Wrappers
  import opened IR

  // ---------------------------------------------------------------------
  // Running blocks
  // ---------------------------------------------------------------------

  /** A run paused at the end of block `pc`, before its terminator, with
      frame `f`. */
  datatype Paused = Paused(pc: nat, f: Frame)

  /** Runs the rest of block `pc` from instruction `at`; `None` when that
      crashes. */
  ghost function RunBlock(P: seq<Block>, pc: nat, at: nat, f: Frame): Option<Paused> {
    if pc >= |P| || at > |P[pc].body| then None
    else match Exec(P[pc].body[at..], f)
      case None => None
      case Some(f') => Some(Paused(pc, f'))
  }

  /** Takes the branch that ends a paused block and runs the block it
      goes to; `None` when the run crashes or returns instead. */
  ghost function TakeBranch(P: seq<Block>, s: Option<Paused>): Option<Paused> {
    match s
    case None => None
    case Some(Paused(pc, f)) =>
      if pc >= |P| then None
      else match P[pc].term
        case Some(Br(t)) => RunBlock(P, t, 0, f)
        case Some(CondBr(c, t, e)) =>
          if Read(c, f).None? then None else RunBlock(P, if Read(c, f).value != 0 then t else e, 0, f)
        case _ => None
  }

  ghost function Branches(P: seq<Block>, s: Option<Paused>, n: nat): Option<Paused>
    decreases n
  {
    if n == 0 then s else Branches(P, TakeBranch(P, s), n - 1)
  }

  /** From (pc, at) with frame f, the run gets, `cost` branches later, to
      the same place as it gets from (pc', at') with frame f' directly: the
      end of the same block, with the same frame. */
  ghost predicate Leads(P: seq<Block>, pc: nat, at: nat, f: Frame, pc': nat, at': nat, f': Frame, cost: nat) {
    Branches(P, RunBlock(P, pc, at, f), cost) == RunBlock(P, pc', at', f')
  }

  lemma {:induction false} BranchesAdd(P: seq<Block>, s: Option<Paused>, a: nat, b: nat)
    ensures Branches(P, s, a + b) == Branches(P, Branches(P, s, a), b)
    decreases a
  {
    if a > 0 {
      BranchesAdd(P, TakeBranch(P, s), a - 1, b);
      assert a + b - 1 == (a - 1) + b;
    }
  }

  /** A run that is still going after some branches was going before
      them. */
  lemma {:induction false} BranchesGoing(P: seq<Block>, s: Option<Paused>, n: nat)
    requires Branches(P, s, n).Some?
    ensures s.Some?
    decreases n
  {
    if n > 0 {
      BranchesGoing(P, TakeBranch(P, s), n - 1);
    }
  }

  lemma LeadsTrans(P: seq<Block>, pc: nat, at: nat, f: Frame, pc1: nat, at1: nat, f1: Frame, c1: nat,
                   pc2: nat, at2: nat, f2: Frame, c2: nat, cost: nat)
    requires Leads(P, pc, at, f, pc1, at1, f1, c1) && Leads(P, pc1, at1, f1, pc2, at2, f2, c2)
    requires cost == c1 + c2
    ensures Leads(P, pc, at, f, pc2, at2, f2, cost)
  {
    BranchesAdd(P, RunBlock(P, pc, at, f), c1, c2);
  }

  /** Restates where a run leads in terms of other expressions for the
      same block and position. */
  lemma LeadsAt(P: seq<Block>, pc: nat, at: nat, f: Frame, pc1: nat, at1: nat, f1: Frame, cost: nat,
                pc2: nat, at2: nat)
    requires Leads(P, pc, at, f, pc1, at1, f1, cost) && pc2 == pc1 && at2 == at1
    ensures Leads(P, pc, at, f, pc2, at2, f1, cost)
  {
  }

  /** What `Leads` means for `Run`: with `k` branches to spare after the
      `cost` branches, the two runs end alike. */
  lemma {:induction false} LeadsRun(P: seq<Block>, pc: nat, at: nat, f: Frame, pc': nat, at': nat, f': Frame,
                                    cost: nat, k: nat)
    requires Leads(P, pc, at, f, pc', at', f', cost) && RunBlock(P, pc', at', f').Some?
    ensures Run(P, pc, at, f, k + cost) == Run(P, pc', at', f', k)
    decreases cost
  {
    var s := RunBlock(P, pc, at, f);
    if cost > 0 {
      BranchesGoing(P, TakeBranch(P, s), cost - 1);
      var f1 := s.value.f;
      match P[pc].term
      case Some(Br(t)) =>
        LeadsRun(P, t, 0, f1, pc', at', f', cost - 1, k);
      case Some(CondBr(c, t, e)) =>
        LeadsRun(P, if Read(c, f1).value != 0 then t else e, 0, f1, pc', at', f', cost - 1, k);
    }
  }

  /** The rest of a block, then its unconditional branch. */
  lemma RunJump(P: seq<Block>, pc: nat, at: nat, f: Frame, f1: Frame, t: nat)
    requires pc < |P| && at <= |P[pc].body| && Exec(P[pc].body[at..], f) == Some(f1)
    requires P[pc].term == Some(Br(t))
    ensures Leads(P, pc, at, f, t, 0, f1, 1)
  {
  }

  /** The rest of a block, then its conditional branch. */
  lemma RunCond(P: seq<Block>, pc: nat, at: nat, f: Frame, f1: Frame, v: Operand, t: nat, e: nat, x: int)
    requires pc < |P| && at <= |P[pc].body| && Exec(P[pc].body[at..], f) == Some(f1)
    requires P[pc].term == Some(CondBr(v, t, e)) && Read(v, f1) == Some(x)
    ensures Leads(P, pc, at, f, if x != 0 then t else e, 0, f1, 1)
  {
  }
}
