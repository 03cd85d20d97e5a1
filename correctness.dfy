// What running the compiled program does: the blocks `run` builds
// (CodeGen.cpp:43-68) return 0, having written exactly what the program
// writes, whenever the program finishes.
//
// A statement's code starts where the insertion point stood before it and
// ends where the insertion point stands after it; in between, the branches
// go through the blocks the statement created, which later statements never
// change (ControlFlow.Grows). The proofs follow the statement's own
// structure: straight-line code runs in place, a loop runs its condition
// and body blocks once per round, and an `if` runs its then-block or walks
// the chain of elifs and the else body, ending in the merge block.

module Correctness {
  import opened Wrappers
  import opened AST
  import opened IR
  import opened Semantics
  import opened Lowering
  import opened ControlFlow
  import opened Runs

  /** Code emitted at the end of an open block is found there in the
      finished function. */
  lemma {:induction false} Placed(b: Block, code: seq<Instr>, p: Block)
    requires Kept(b.(body := b.body + code), p)
    ensures |b.body| + |code| <= |p.body| && p.body[|b.body|..|b.body| + |code|] == code
  {
    assert p.body[..|b.body| + |code|] == b.body + code;
    assert p.body[|b.body|..|b.body| + |code|] == (b.body + code)[|b.body|..];
  }

  /** A block that is already sealed is found unchanged in the finished
      function. */
  lemma {:induction false} Fixed(bs: seq<Block>, P: seq<Block>, j: nat)
    requires Grows(bs, P) && j < |bs| && bs[j].term.Some?
    ensures j < |P| && P[j] == bs[j]
  {
    assert Kept(bs[j], P[j]);
  }

  lemma {:induction false} ReadyMore(f: Frame, names: map<string, nat>, n: nat, m: nat, env: Env)
    requires Ready(f, names, n, env) && n <= m
    ensures Ready(f, names, m, env)
  {
  }

  /** Code that changes neither the slots nor the output keeps the frame
      ready. */
  lemma {:induction false} ReadyKept(f: Frame, f1: Frame, names: map<string, nat>, n: nat, m: nat, env: Env)
    requires Ready(f, names, n, env) && Keeps(f, f1, n) && n <= m
    ensures Ready(f1, names, m, env)
  {
  }

  // ---------------------------------------------------------------------
  // Straight-line statements
  // ---------------------------------------------------------------------

  /** Straight-line code emitted at the insertion point runs in place. */
  lemma {:induction false} Straight(g: Gen, c: Code, P: seq<Block>, f: Frame, f1: Frame)
    requires g.cur < |g.blocks| && g.blocks[g.cur].term.None?
    requires Grows(Emit(g, c).blocks, P) && Exec(c.instrs, f) == Some(f1)
    ensures Leads(P, g.cur, |g.blocks[g.cur].body|, f, g.cur, |Emit(g, c).blocks[g.cur].body|, f1, 0)
  {
    var b := g.blocks[g.cur];
    assert Kept(Emit(g, c).blocks[g.cur], P[g.cur]);
    Placed(b, c.instrs, P[g.cur]);
    var code := P[g.cur].body[|b.body|..];
    assert code == c.instrs + P[g.cur].body[|b.body| + |c.instrs|..];
    ExecAppend(c.instrs, P[g.cur].body[|b.body| + |c.instrs|..], f);
  }

  // ---------------------------------------------------------------------
  // Loops
  // ---------------------------------------------------------------------

  /** A condition's code at the end of a block, then a conditional branch
      on its value: the program goes on in the block the condition picks,
      with the slots and the output as they were. */
  lemma {:induction false} CondRuns(c: Cond, names: map<string, nat>, n: nat, P: seq<Block>, pc: nat, at: nat, t: nat, e: nat,
                 f: Frame, env: Env)
    returns (f1: Frame)
    requires CondReady(c, names.Keys) && Ready(f, names, n, env) && Test(c, env.store).Some?
    requires var cc := CondCode(c, names, n);
      && pc < |P| && at <= |P[pc].body| && P[pc].body[at..] == cc.instrs && P[pc].term == Some(CondBr(cc.v, t, e))
    ensures Ready(f1, names, CondCode(c, names, n).next, env)
    ensures Leads(P, pc, at, f, if Test(c, env.store).value then t else e, 0, f1, 1)
  {
    var cc := CondCode(c, names, n);
    CondCodeCorrect(c, names, n, f, env.store);
    f1 := Exec(cc.instrs, f).value;
    ReadyKept(f, f1, names, n, cc.next, env);
    RunCond(P, pc, at, f, f1, cc.v, t, e, if Test(c, env.store).value then 1 else 0);
  }

  /** A block holding a block of assignments and branching to `t`: the
      program goes on in `t` with the slots holding the store the
      assignments leave. */
  lemma {:induction false} BodyRuns(body: seq<Equation>, names: map<string, nat>, n: nat, P: seq<Block>, b: nat, t: nat,
                 f: Frame, env: Env)
    returns (f1: Frame)
    requires EquationsReady(body, names.Keys) && Ready(f, names, n, env) && AssignAll(body, Some(env)).Some?
    requires b < |P| && P[b].body == EquationsCode(body, names, n).instrs && P[b].term == Some(Br(t))
    ensures Ready(f1, names, EquationsCode(body, names, n).next, AssignAll(body, Some(env)).value)
    ensures Leads(P, b, 0, f, t, 0, f1, 1)
  {
    EquationsCodeCorrect(body, names, n, f, env);
    f1 := Exec(EquationsCode(body, names, n).instrs, f).value;
    assert P[b].body[0..] == P[b].body;
    RunJump(P, b, 0, f, f1, t);
  }

  /** A condition that holds, at `at` in block `pc`, followed by its body
      in block `t`: the program runs both and reaches `merge`. */
  lemma {:induction false} TakenRuns(c: Cond, body: seq<Equation>, names: map<string, nat>, n: nat, P: seq<Block>,
                  pc: nat, at: nat, t: nat, e: nat, merge: nat, f: Frame, env: Env)
    returns (f': Frame, cost: nat)
    requires CondReady(c, names.Keys) && EquationsReady(body, names.Keys) && Ready(f, names, n, env)
    requires Test(c, env.store) == Some(true) && AssignAll(body, Some(env)).Some?
    requires var cc := CondCode(c, names, n);
      && pc < |P| && at <= |P[pc].body| && P[pc].body[at..] == cc.instrs && P[pc].term == Some(CondBr(cc.v, t, e))
      && t < |P| && P[t].body == EquationsCode(body, names, cc.next).instrs && P[t].term == Some(Br(merge))
    ensures Ready(f', names, EquationsCode(body, names, CondCode(c, names, n).next).next, AssignAll(body, Some(env)).value)
    ensures Leads(P, pc, at, f, merge, 0, f', cost)
  {
    var f1 := CondRuns(c, names, n, P, pc, at, t, e, f, env);
    var f2 := BodyRuns(body, names, CondCode(c, names, n).next, P, t, merge, f1, env);
    f', cost := f2, 2;
    LeadsTrans(P, pc, at, f, t, 0, f1, 1, merge, 0, f', 1, cost);
  }

  /** The rounds of a loop: from the condition block, the program reaches
      the block after the loop with the slots holding the store the loop
      leaves. */
  lemma {:induction false} RepeatSim(c: Cond, body: seq<Equation>, names: map<string, nat>, n: nat,
                                     P: seq<Block>, h: nat, f: Frame, env: Env, fuel: nat)
    returns (f': Frame, cost: nat)
    requires CondReady(c, names.Keys) && EquationsReady(body, names.Keys) && h + 2 < |P|
    requires var cc := CondCode(c, names, n);
      && P[h].body == cc.instrs && P[h].term == Some(CondBr(cc.v, h + 1, h + 2))
      && P[h + 1].body == EquationsCode(body, names, cc.next).instrs && P[h + 1].term == Some(Br(h))
    requires Ready(f, names, n, env) && Repeat(c, body, env, fuel).Done?
    ensures Ready(f', names, EquationsCode(body, names, CondCode(c, names, n).next).next, Repeat(c, body, env, fuel).env)
    ensures Leads(P, h, 0, f, h + 2, 0, f', cost)
    decreases fuel
  {
    var cc := CondCode(c, names, n);
    var bc := EquationsCode(body, names, cc.next);
    assert P[h].body[0..] == cc.instrs;
    var f1 := CondRuns(c, names, n, P, h, 0, h + 1, h + 2, f, env);
    if Test(c, env.store) == Some(false) {
      ReadyMore(f1, names, cc.next, bc.next, env);
      f', cost := f1, 1;
    } else {
      var f2 := BodyRuns(body, names, cc.next, P, h + 1, h, f1, env);
      LeadsTrans(P, h, 0, f, h + 1, 0, f1, 1, h, 0, f2, 1, 2);
      var f3, rest := RepeatSim(c, body, names, n, P, h, f2, AssignAll(body, Some(env)).value, fuel - 1);
      f', cost := f3, 2 + rest;
      LeadsTrans(P, h, 0, f, h, 0, f2, 2, h + 2, 0, f', rest, cost);
    }
  }

  lemma {:induction false} LoopSim(c: Cond, body: seq<Equation>, g: Gen, P: seq<Block>, f: Frame, env: Env, fuel: nat)
    returns (f': Frame, cost: nat)
    requires SealedExcept(g, {g.cur}) && CondReady(c, g.names.Keys) && EquationsReady(body, g.names.Keys)
    requires Grows(LoopGen(c, body, g).blocks, P)
    requires Ready(f, g.names, g.next, env) && Repeat(c, body, env, fuel).Done?
    ensures var g' := LoopGen(c, body, g);
      && Ready(f', g'.names, g'.next, Repeat(c, body, env, fuel).env)
      && Leads(P, g.cur, |g.blocks[g.cur].body|, f, g'.cur, |g'.blocks[g'.cur].body|, f', cost)
  {
    LoopPlaced(c, body, g, P);
    f', cost := LoopRuns(c, body, g.names, g.next, P, g.cur, |g.blocks[g.cur].body|, |g.blocks|, f, env, fuel);
  }

  /** Where the loop's blocks stand in the finished function. */
  lemma {:induction false} LoopPlaced(c: Cond, body: seq<Equation>, g: Gen, P: seq<Block>)
    requires SealedExcept(g, {g.cur}) && CondReady(c, g.names.Keys) && EquationsReady(body, g.names.Keys)
    requires Grows(LoopGen(c, body, g).blocks, P)
    ensures var g', h := LoopGen(c, body, g), |g.blocks|;
      var cc := CondCode(c, g.names, g.next);
      var bc := EquationsCode(body, g.names, cc.next);
      && g'.cur == h + 2 && g'.blocks[h + 2].body == [] && g'.names == g.names && g'.next == bc.next
      && h + 2 < |P| && |g.blocks[g.cur].body| <= |P[g.cur].body|
      && P[g.cur].body[|g.blocks[g.cur].body|..] == [] && P[g.cur].term == Some(Br(h))
      && P[h].body == cc.instrs && P[h].term == Some(CondBr(cc.v, h + 1, h + 2))
      && P[h + 1].body == bc.instrs && P[h + 1].term == Some(Br(h))
  {
    var g', h := LoopGen(c, body, g), |g.blocks|;
    LoopShape(c, body, g);
    assert g'.blocks[g.cur] == g'.blocks[..h][g.cur];
    Fixed(g'.blocks, P, g.cur);
    Fixed(g'.blocks, P, h);
    Fixed(g'.blocks, P, h + 1);
  }

  /** The loop's blocks in place: the jump into the condition block, then
      the rounds. */
  lemma {:induction false} LoopRuns(c: Cond, body: seq<Equation>, names: map<string, nat>, n: nat, P: seq<Block>,
                 pc: nat, at: nat, h: nat, f: Frame, env: Env, fuel: nat)
    returns (f': Frame, cost: nat)
    requires CondReady(c, names.Keys) && EquationsReady(body, names.Keys) && h + 2 < |P|
    requires pc < |P| && at <= |P[pc].body| && P[pc].body[at..] == [] && P[pc].term == Some(Br(h))
    requires var cc := CondCode(c, names, n);
      && P[h].body == cc.instrs && P[h].term == Some(CondBr(cc.v, h + 1, h + 2))
      && P[h + 1].body == EquationsCode(body, names, cc.next).instrs && P[h + 1].term == Some(Br(h))
    requires Ready(f, names, n, env) && Repeat(c, body, env, fuel).Done?
    ensures Ready(f', names, EquationsCode(body, names, CondCode(c, names, n).next).next, Repeat(c, body, env, fuel).env)
    ensures Leads(P, pc, at, f, h + 2, 0, f', cost)
  {
    var f1, rounds := RepeatSim(c, body, names, n, P, h, f, env, fuel);
    assert Exec(P[pc].body[at..], f) == Some(f);
    RunJump(P, pc, at, f, f, h);
    LeadsTrans(P, pc, at, f, h, 0, f, 1, h + 2, 0, f1, rounds, 1 + rounds);
    f', cost := f1, 1 + rounds;
  }

  // ---------------------------------------------------------------------
  // Conditionals
  // ---------------------------------------------------------------------

  /** The end of the chain: the else body, if any, runs in the last
      else-block, which branches to the merge block. */
  lemma {:induction false} ElseSim(els: Option<Else>, merge: nat, g: Gen, P: seq<Block>, f: Frame, env: Env)
    returns (f': Frame, cost: nat)
    requires SealedExcept(g, {g.cur, merge}) && g.cur != merge
    requires els.Some? ==> EquationsReady(els.value.body, g.names.Keys)
    requires Grows(ChainGen([], els, merge, g).blocks, P)
    requires Ready(f, g.names, g.next, env) && Branch([], els, env).Some?
    ensures Ready(f', g.names, ChainGen([], els, merge, g).next, Branch([], els, env).value)
    ensures Leads(P, g.cur, |g.blocks[g.cur].body|, f, merge, 0, f', cost)
  {
    var at := |g.blocks[g.cur].body|;
    var gN := ChainGen([], els, merge, g);
    assert ElifsGen([], merge, g) == g;
    if els.Some? {
      var code := EquationsCode(els.value.body, g.names, g.next);
      assert gN == Jump(Emit(g, code), Br(merge), merge);
      Fixed(gN.blocks, P, g.cur);
      Placed(g.blocks[g.cur], code.instrs, P[g.cur]);
      EquationsCodeCorrect(els.value.body, g.names, g.next, f, env);
      f' := Exec(code.instrs, f).value;
      RunJump(P, g.cur, at, f, f', merge);
    } else {
      assert gN == Jump(g, Br(merge), merge);
      Fixed(gN.blocks, P, g.cur);
      assert P[g.cur].body[at..] == [];
      f' := f;
      RunJump(P, g.cur, at, f, f, merge);
    }
    cost := 1;
  }

  /** An elif's condition block and then-block, as found in the finished
      function. */
  lemma {:induction false} ElifPlaced(el: Elif, merge: nat, g: Gen, P: seq<Block>)
    requires g.cur < |g.blocks| && CondReady(el.cond, g.names.Keys) && EquationsReady(el.body, g.names.Keys)
    requires Grows(ElifGen(el, merge, g).blocks, P)
    ensures var t := |g.blocks|; var at := |g.blocks[g.cur].body|;
      var cc := CondCode(el.cond, g.names, g.next);
      var bc := EquationsCode(el.body, g.names, cc.next);
      && t + 1 < |P| && at <= |P[g.cur].body|
      && P[g.cur].body[at..] == cc.instrs && P[g.cur].term == Some(CondBr(cc.v, t, t + 1))
      && P[t].body == bc.instrs && P[t].term == Some(Br(merge))
      && ElifGen(el, merge, g).next == bc.next && ElifGen(el, merge, g).blocks[t + 1].body == []
  {
    var t := |g.blocks|;
    var g1 := ElifGen(el, merge, g);
    ElifShape(el, merge, g);
    assert g1.blocks[g.cur] == g1.blocks[..t][g.cur];
    Fixed(g1.blocks, P, g.cur);
    Fixed(g1.blocks, P, t);
  }

  /** An elif whose condition holds: its body runs and the program goes on
      in the merge block. */
  lemma {:induction false} ElifTaken(el: Elif, merge: nat, g: Gen, P: seq<Block>, f: Frame, env: Env)
    returns (f': Frame, cost: nat)
    requires g.cur < |g.blocks| && CondReady(el.cond, g.names.Keys) && EquationsReady(el.body, g.names.Keys)
    requires Grows(ElifGen(el, merge, g).blocks, P) && Ready(f, g.names, g.next, env)
    requires Test(el.cond, env.store) == Some(true) && AssignAll(el.body, Some(env)).Some?
    ensures Ready(f', g.names, ElifGen(el, merge, g).next, AssignAll(el.body, Some(env)).value)
    ensures Leads(P, g.cur, |g.blocks[g.cur].body|, f, merge, 0, f', cost)
  {
    var t := |g.blocks|;
    ElifPlaced(el, merge, g, P);
    f', cost := TakenRuns(el.cond, el.body, g.names, g.next, P, g.cur, |g.blocks[g.cur].body|, t, t + 1, merge, f, env);
  }

  /** An elif whose condition fails: the program goes on in the elif's
      else-block, where the rest of the chain is. */
  lemma {:induction false} ElifSkipped(el: Elif, merge: nat, g: Gen, P: seq<Block>, f: Frame, env: Env)
    returns (f1: Frame)
    requires g.cur < |g.blocks| && CondReady(el.cond, g.names.Keys) && EquationsReady(el.body, g.names.Keys)
    requires Grows(ElifGen(el, merge, g).blocks, P) && Ready(f, g.names, g.next, env)
    requires Test(el.cond, env.store) == Some(false)
    ensures Ready(f1, g.names, ElifGen(el, merge, g).next, env)
    ensures var g1 := ElifGen(el, merge, g);
      Leads(P, g.cur, |g.blocks[g.cur].body|, f, g1.cur, |g1.blocks[g1.cur].body|, f1, 1)
  {
    var t := |g.blocks|;
    var g1 := ElifGen(el, merge, g);
    ElifPlaced(el, merge, g, P);
    var cc := CondCode(el.cond, g.names, g.next);
    f1 := CondRuns(el.cond, g.names, g.next, P, g.cur, |g.blocks[g.cur].body|, t, t + 1, f, env);
    ReadyMore(f1, g.names, cc.next, g1.next, env);
    LeadsAt(P, g.cur, |g.blocks[g.cur].body|, f, t + 1, 0, f1, 1, g1.cur, |g1.blocks[g1.cur].body|);
  }

  /** What the rest of a chain starts from, once its first elif is
      generated. */
  lemma {:induction false} ElifNext(elifs: seq<Elif>, els: Option<Else>, merge: nat, g: Gen, P: seq<Block>)
    requires elifs != [] && SealedExcept(g, {g.cur, merge}) && g.cur != merge && g.blocks[merge].body == []
    requires ElifsReady(elifs, g.names.Keys) && (els.Some? ==> EquationsReady(els.value.body, g.names.Keys))
    requires Grows(ChainGen(elifs, els, merge, g).blocks, P)
    ensures var g1 := ElifGen(elifs[0], merge, g);
      && SealedExcept(g1, {g1.cur, merge}) && g1.cur == |g.blocks| + 1 && g1.cur != merge
      && g1.blocks[merge].body == [] && g1.blocks[g1.cur].body == [] && g1.names == g.names
      && ElifsReady(elifs[1..], g.names.Keys)
      && ChainGen(elifs[1..], els, merge, g1) == ChainGen(elifs, els, merge, g)
      && Grows(g1.blocks, P)
  {
    var el := elifs[0];
    var g1 := ElifGen(el, merge, g);
    var gN := ChainGen(elifs, els, merge, g);
    assert ElifsReady(elifs[1..], g.names.Keys);
    assert gN == ChainGen(elifs[1..], els, merge, g1);
    assert g1.blocks[g1.cur].body == [] by {
      ElifShape(el, merge, g);
    }
    ElifGrows(el, merge, g);
    assert Grows(g1.blocks, P) by {
      ChainGrows(elifs[1..], els, merge, g1);
      GrowsTrans(g1.blocks, gN.blocks, P);
    }
  }

  /** The chain after an `if`'s condition has failed: the first elif whose
      condition holds runs its body, or else the else body runs, and either
      way the program goes on in the merge block. */
  lemma {:induction false} ChainSim(elifs: seq<Elif>, els: Option<Else>, merge: nat, g: Gen,
                                    P: seq<Block>, f: Frame, env: Env)
    returns (f': Frame, cost: nat)
    requires SealedExcept(g, {g.cur, merge}) && g.cur != merge && g.blocks[merge].body == []
    requires ElifsReady(elifs, g.names.Keys) && (els.Some? ==> EquationsReady(els.value.body, g.names.Keys))
    requires Grows(ChainGen(elifs, els, merge, g).blocks, P)
    requires Ready(f, g.names, g.next, env) && Branch(elifs, els, env).Some?
    ensures Ready(f', g.names, ChainGen(elifs, els, merge, g).next, Branch(elifs, els, env).value)
    ensures Leads(P, g.cur, |g.blocks[g.cur].body|, f, merge, 0, f', cost)
    decreases |elifs|, 1
  {
    if elifs == [] {
      f', cost := ElseSim(els, merge, g, P, f, env);
    } else if Test(elifs[0].cond, env.store) == Some(true) {
      f', cost := ChainTaken(elifs, els, merge, g, P, f, env);
    } else {
      f', cost := ChainSkipped(elifs, els, merge, g, P, f, env);
    }
  }

  /** A chain whose first elif's condition holds. */
  lemma {:induction false} ChainTaken(elifs: seq<Elif>, els: Option<Else>, merge: nat, g: Gen, P: seq<Block>, f: Frame, env: Env)
    returns (f': Frame, cost: nat)
    requires elifs != [] && SealedExcept(g, {g.cur, merge}) && g.cur != merge && g.blocks[merge].body == []
    requires ElifsReady(elifs, g.names.Keys) && (els.Some? ==> EquationsReady(els.value.body, g.names.Keys))
    requires Grows(ChainGen(elifs, els, merge, g).blocks, P)
    requires Ready(f, g.names, g.next, env) && Branch(elifs, els, env).Some?
    requires Test(elifs[0].cond, env.store) == Some(true)
    ensures Ready(f', g.names, ChainGen(elifs, els, merge, g).next, Branch(elifs, els, env).value)
    ensures Leads(P, g.cur, |g.blocks[g.cur].body|, f, merge, 0, f', cost)
  {
    var el := elifs[0];
    var g1 := ElifGen(el, merge, g);
    ElifNext(elifs, els, merge, g, P);
    f', cost := ElifTaken(el, merge, g, P, f, env);
    ReadyMore(f', g.names, g1.next, ChainGen(elifs, els, merge, g).next, Branch(elifs, els, env).value);
  }

  /** A chain whose first elif's condition fails: the rest of the chain
      runs from the elif's else-block. */
  lemma {:induction false} ChainSkipped(elifs: seq<Elif>, els: Option<Else>, merge: nat, g: Gen,
                                        P: seq<Block>, f: Frame, env: Env)
    returns (f': Frame, cost: nat)
    requires elifs != [] && SealedExcept(g, {g.cur, merge}) && g.cur != merge && g.blocks[merge].body == []
    requires ElifsReady(elifs, g.names.Keys) && (els.Some? ==> EquationsReady(els.value.body, g.names.Keys))
    requires Grows(ChainGen(elifs, els, merge, g).blocks, P)
    requires Ready(f, g.names, g.next, env) && Branch(elifs, els, env).Some?
    requires Test(elifs[0].cond, env.store) != Some(true)
    ensures Ready(f', g.names, ChainGen(elifs, els, merge, g).next, Branch(elifs, els, env).value)
    ensures Leads(P, g.cur, |g.blocks[g.cur].body|, f, merge, 0, f', cost)
    decreases |elifs|, 0
  {
    var el := elifs[0];
    var g1 := ElifGen(el, merge, g);
    ElifNext(elifs, els, merge, g, P);
    var f1 := ElifSkipped(el, merge, g, P, f, env);
    assert Branch(elifs[1..], els, env) == Branch(elifs, els, env);
    assert Ready(f1, g1.names, g1.next, env);
    assert ElifsReady(elifs[1..], g1.names.Keys);
    assert els.Some? ==> EquationsReady(els.value.body, g1.names.Keys);
    assert Grows(ChainGen(elifs[1..], els, merge, g1).blocks, P);
    assert SealedExcept(g1, {g1.cur, merge}) && g1.cur != merge && g1.blocks[merge].body == [];
    var f2, rest := ChainSim(elifs[1..], els, merge, g1, P, f1, env);
    f', cost := f2, 1 + rest;
    LeadsTrans(P, g.cur, |g.blocks[g.cur].body|, f, g1.cur, |g1.blocks[g1.cur].body|, f1, 1, merge, 0, f', rest, cost);
  }

  /** An `if`'s condition block and then-block, as found in the finished
      function. */
  lemma {:induction false} IfPlaced(c: Cond, body: seq<Equation>, g: Gen, P: seq<Block>)
    requires g.cur < |g.blocks| && CondReady(c, g.names.Keys) && EquationsReady(body, g.names.Keys)
    requires Grows(IfHead(c, body, g).blocks, P)
    ensures var t := |g.blocks|; var at := |g.blocks[g.cur].body|;
      var cc := CondCode(c, g.names, g.next);
      var bc := EquationsCode(body, g.names, cc.next);
      && t + 2 < |P| && at <= |P[g.cur].body|
      && P[g.cur].body[at..] == cc.instrs && P[g.cur].term == Some(CondBr(cc.v, t, t + 1))
      && P[t].body == bc.instrs && P[t].term == Some(Br(t + 2))
      && IfHead(c, body, g).next == bc.next
  {
    var t := |g.blocks|;
    var g2 := IfHead(c, body, g);
    IfShape(c, body, g);
    assert g2.blocks[g.cur] == g2.blocks[..t][g.cur];
    Fixed(g2.blocks, P, g.cur);
    Fixed(g2.blocks, P, t);
  }

  /** An `if` whose condition holds: the then-body runs and the program
      goes on in the merge block. */
  lemma {:induction false} IfTaken(c: Cond, body: seq<Equation>, g: Gen, P: seq<Block>, f: Frame, env: Env)
    returns (f': Frame, cost: nat)
    requires g.cur < |g.blocks| && CondReady(c, g.names.Keys) && EquationsReady(body, g.names.Keys)
    requires Grows(IfHead(c, body, g).blocks, P) && Ready(f, g.names, g.next, env)
    requires Test(c, env.store) == Some(true) && AssignAll(body, Some(env)).Some?
    ensures Ready(f', g.names, IfHead(c, body, g).next, AssignAll(body, Some(env)).value)
    ensures Leads(P, g.cur, |g.blocks[g.cur].body|, f, |g.blocks| + 2, 0, f', cost)
  {
    var t := |g.blocks|;
    IfPlaced(c, body, g, P);
    f', cost := TakenRuns(c, body, g.names, g.next, P, g.cur, |g.blocks[g.cur].body|, t, t + 1, t + 2, f, env);
  }

  /** An `if` whose condition fails: the program goes on in the
      else-block, where the chain of elifs and the else body is. */
  lemma {:induction false} IfSkipped(c: Cond, body: seq<Equation>, g: Gen, P: seq<Block>, f: Frame, env: Env)
    returns (f1: Frame)
    requires g.cur < |g.blocks| && CondReady(c, g.names.Keys) && EquationsReady(body, g.names.Keys)
    requires Grows(IfHead(c, body, g).blocks, P) && Ready(f, g.names, g.next, env)
    requires Test(c, env.store) == Some(false)
    ensures Ready(f1, g.names, IfHead(c, body, g).next, env)
    ensures Leads(P, g.cur, |g.blocks[g.cur].body|, f, |g.blocks| + 1, 0, f1, 1)
  {
    var t := |g.blocks|;
    IfPlaced(c, body, g, P);
    var cc := CondCode(c, g.names, g.next);
    f1 := CondRuns(c, g.names, g.next, P, g.cur, |g.blocks[g.cur].body|, t, t + 1, f, env);
    ReadyMore(f1, g.names, cc.next, IfHead(c, body, g).next, env);
  }

  /** What the chain of an `if` starts from, once its head is generated. */
  lemma {:induction false} IfNext(c: Cond, body: seq<Equation>, elifs: seq<Elif>, els: Option<Else>, g: Gen, P: seq<Block>)
    requires SealedExcept(g, {g.cur}) && CondReady(c, g.names.Keys) && EquationsReady(body, g.names.Keys)
    requires ElifsReady(elifs, g.names.Keys) && (els.Some? ==> EquationsReady(els.value.body, g.names.Keys))
    requires Grows(IfGen(c, body, elifs, els, g).blocks, P)
    ensures var t := |g.blocks|; var g2 := IfHead(c, body, g);
      && SealedExcept(g2, {g2.cur, t + 2}) && g2.cur == t + 1
      && g2.blocks[t + 2].body == [] && g2.blocks[g2.cur].body == [] && g2.names == g.names
      && Grows(g2.blocks, P)
      && IfGen(c, body, elifs, els, g).blocks[t + 2].body == []
  {
    var t := |g.blocks|;
    var g2 := IfHead(c, body, g);
    var gN := IfGen(c, body, elifs, els, g);
    IfHeadGrows(c, body, g);
    IfGrows(c, body, elifs, els, g);
    GrowsTrans(g2.blocks, gN.blocks, P);
  }

  lemma {:induction false} IfSim(c: Cond, body: seq<Equation>, elifs: seq<Elif>, els: Option<Else>, g: Gen,
              P: seq<Block>, f: Frame, env: Env, fuel: nat)
    returns (f': Frame, cost: nat)
    requires SealedExcept(g, {g.cur}) && CondReady(c, g.names.Keys) && EquationsReady(body, g.names.Keys)
    requires ElifsReady(elifs, g.names.Keys) && (els.Some? ==> EquationsReady(els.value.body, g.names.Keys))
    requires Grows(IfGen(c, body, elifs, els, g).blocks, P) && Ready(f, g.names, g.next, env)
    requires ExecStmt(If(c, body, elifs, els), env, fuel).Done?
    ensures var g' := IfGen(c, body, elifs, els, g);
      && Ready(f', g'.names, g'.next, ExecStmt(If(c, body, elifs, els), env, fuel).env)
      && Leads(P, g.cur, |g.blocks[g.cur].body|, f, g'.cur, |g'.blocks[g'.cur].body|, f', cost)
  {
    var t := |g.blocks|;
    var at := |g.blocks[g.cur].body|;
    var g2 := IfHead(c, body, g);
    var gN := IfGen(c, body, elifs, els, g);
    IfNext(c, body, elifs, els, g, P);
    if Test(c, env.store) == Some(true) {
      f', cost := IfTaken(c, body, g, P, f, env);
      ReadyMore(f', g.names, g2.next, gN.next, AssignAll(body, Some(env)).value);
    } else {
      f', cost := IfElse(c, body, elifs, els, g, P, f, env);
    }
  }

  /** An `if` whose condition fails goes on through the elifs and the else
      body to the merge block. */
  lemma {:induction false} IfElse(c: Cond, body: seq<Equation>, elifs: seq<Elif>, els: Option<Else>, g: Gen,
               P: seq<Block>, f: Frame, env: Env)
    returns (f': Frame, cost: nat)
    requires SealedExcept(g, {g.cur}) && CondReady(c, g.names.Keys) && EquationsReady(body, g.names.Keys)
    requires ElifsReady(elifs, g.names.Keys) && (els.Some? ==> EquationsReady(els.value.body, g.names.Keys))
    requires Grows(IfGen(c, body, elifs, els, g).blocks, P) && Ready(f, g.names, g.next, env)
    requires Test(c, env.store) == Some(false) && Branch(elifs, els, env).Some?
    ensures var g' := IfGen(c, body, elifs, els, g);
      && Ready(f', g'.names, g'.next, Branch(elifs, els, env).value)
      && Leads(P, g.cur, |g.blocks[g.cur].body|, f, g'.cur, |g'.blocks[g'.cur].body|, f', cost)
  {
    var t := |g.blocks|;
    var at := |g.blocks[g.cur].body|;
    var g2 := IfHead(c, body, g);
    var gN := IfGen(c, body, elifs, els, g);
    IfNext(c, body, elifs, els, g, P);
    var f1 := IfSkipped(c, body, g, P, f, env);
    var f2, rest := ChainSim(elifs, els, t + 2, g2, P, f1, env);
    f', cost := f2, 1 + rest;
    var at1 := |g2.blocks[g2.cur].body|;
    LeadsAt(P, g.cur, at, f, t + 1, 0, f1, 1, g2.cur, at1);
    LeadsTrans(P, g.cur, at, f, g2.cur, at1, f1, 1, t + 2, 0, f', rest, cost);
    LeadsAt(P, g.cur, at, f, t + 2, 0, f', cost, gN.cur, |gN.blocks[gN.cur].body|);
  }

  // ---------------------------------------------------------------------
  // Statements and programs
  // ---------------------------------------------------------------------

  /** A statement that finishes: its code runs from where the insertion
      point stood before it to where it stands after it, and leaves the
      slots holding the store the statement leaves and the output the
      statement has written. */
  lemma {:induction false} StmtSim(s: Stmt, g: Gen, P: seq<Block>, f: Frame, env: Env, fuel: nat)
    returns (f': Frame, cost: nat)
    requires SealedExcept(g, {g.cur}) && StmtReady(s, g.names.Keys)
    requires Grows(StmtGen(s, g).blocks, P) && Ready(f, g.names, g.next, env)
    requires ExecStmt(s, env, fuel).Done?
    ensures var g' := StmtGen(s, g);
      && Ready(f', g'.names, g'.next, ExecStmt(s, env, fuel).env)
      && Leads(P, g.cur, |g.blocks[g.cur].body|, f, g'.cur, |g'.blocks[g'.cur].body|, f', cost)
  {
    match s
    case Declaration(vars, init) =>
      var c := DeclCode(vars, init, g.names, g.next);
      DeclCodeCorrect(vars, init, g.names, g.next, f, env);
      f', cost := Exec(c.instrs, f).value, 0;
      Straight(g, c, P, f, f');
    case Assignment(eq) =>
      var c := EquationCode(eq, g.names, g.next);
      EquationCodeCorrect(eq, g.names, g.next, f, env);
      f', cost := Exec(c.instrs, f).value, 0;
      Straight(g, c, P, f, f');
    case If(c, body, elifs, els) =>
      f', cost := IfSim(c, body, elifs, els, g, P, f, env, fuel);
    case Loop(c, body) =>
      f', cost := LoopSim(c, body, g, P, f, env, fuel);
  }

  lemma {:induction false} StmtsSim(ss: seq<Stmt>, g: Gen, P: seq<Block>, f: Frame, env: Env, fuel: nat)
    returns (f': Frame, cost: nat)
    requires SealedExcept(g, {g.cur}) && StmtsReady(ss, g.names.Keys)
    requires Grows(StmtsGen(ss, g).blocks, P) && Ready(f, g.names, g.next, env)
    requires ExecStmts(ss, env, fuel).Done?
    ensures var g' := StmtsGen(ss, g);
      && Ready(f', g'.names, g'.next, ExecStmts(ss, env, fuel).env)
      && Leads(P, g.cur, |g.blocks[g.cur].body|, f, g'.cur, |g'.blocks[g'.cur].body|, f', cost)
    decreases |ss|
  {
    if ss == [] {
      f', cost := f, 0;
      assert StmtsGen(ss, g) == g;
      assert Leads(P, g.cur, |g.blocks[g.cur].body|, f, g.cur, |g.blocks[g.cur].body|, f, 0);
    } else {
      var front := ss[..|ss| - 1];
      var last := ss[|ss| - 1];
      StmtsReadyFront(ss, g.names.Keys);
      var g1 := StmtsGen(front, g);
      var g2 := StmtsGen(ss, g);
      assert g2 == StmtGen(last, g1);
      StmtsGrows(front, g);
      StmtGrows(last, g1);
      GrowsTrans(g1.blocks, g2.blocks, P);
      var f1, c1 := StmtsSim(front, g, P, f, env, fuel);
      var env1 := ExecStmts(front, env, fuel).env;
      var f2, c2 := StmtSim(last, g1, P, f1, env1, fuel);
      f', cost := f2, c1 + c2;
      LeadsTrans(P, g.cur, |g.blocks[g.cur].body|, f, g1.cur, |g1.blocks[g1.cur].body|, f1, c1,
                 g2.cur, |g2.blocks[g2.cur].body|, f', c2, cost);
    }
  }

  /** A run that reaches the end of a block ending in `ret 0` returns 0
      with the frame it reached. */
  lemma {:induction false} RunsToReturn(P: seq<Block>, pc: nat, f0: Frame, f': Frame, cost: nat)
    requires pc < |P| && P[pc].term == Some(Ret(Const(0)))
    requires Leads(P, 0, 0, f0, pc, |P[pc].body|, f', cost)
    ensures Run(P, 0, 0, f0, 1 + cost) == Returned(f', 0)
  {
    var at := |P[pc].body|;
    assert P[pc].body[at..] == [];
    assert RunBlock(P, pc, at, f') == Some(Paused(pc, f'));
    LeadsRun(P, 0, 0, f0, pc, at, f', cost, 1);
  }

  /** The program a statement list compiles to, started from its entry
      block with no slots and nothing written, returns 0 having written
      exactly what the program writes, whenever the program finishes. */
  lemma {:induction false} CompileCorrect(goal: Goal, fuel: nat)
    requires StmtsReady(goal.stmts, {}) && ExecGoal(goal, fuel).Done?
    ensures exists n: nat ::
      var o := Run(Compile(goal), 0, 0, Frame(map[], map[], []), n);
      o.Returned? && o.status == 0 && o.frame.out == ExecGoal(goal, fuel).env.out
  {
    var g0 := Gen([NewBlock("entry")], 0, map[], 0);
    assert g0.names.Keys == {};
    var g := StmtsGen(goal.stmts, g0);
    var P := Compile(goal);
    var f0 := Frame(map[], map[], []);
    assert SealedExcept(g0, {0}) && Ready(f0, g0.names, g0.next, Env(map[], []));
    assert Grows(g.blocks, P) && g.cur < |P| && P[g.cur].term == Some(Ret(Const(0)))
        && |P[g.cur].body| == |g.blocks[g.cur].body| by {
      StmtsGrows(goal.stmts, g0);
      assert P == g.blocks[g.cur := g.blocks[g.cur].(term := Some(Ret(Const(0))))];
    }
    var f', cost := StmtsSim(goal.stmts, g0, P, f0, Env(map[], []), fuel);
    RunsToReturn(P, g.cur, f0, f', cost);
  }
}
