/** Whole functions keep their meaning. */
module Preservation {
  // What the source returns, the generated code returns; when the source runs for ever, so does the
  // code.

  import opened Words
  import opened Ast
  import opened IrGenerator
  import opened IrMachine
  import opened Source
  import opened Domain
  import opened Labels
  import opened Lowering
  import opened LoweringStmt

  /** With some fuel the body ends, returning `v` (None when it falls off its end). */
  ghost predicate Ends(w: World, body: seq<Stmt>, m: Memory, fuel: nat, v: Option<word>, m': Memory) {
    var r := ExecSeq(w, body, m, fuel);
    r == Done(Returning(v), m') || (v == None && r == Done(Completed, m'))
  }

  ghost predicate Means(w: World, body: seq<Stmt>, m: Memory, v: Option<word>, m': Memory) {
    exists fuel: nat :: Ends(w, body, m, fuel, v, m')
  }

  ghost predicate Diverges(w: World, body: seq<Stmt>, m: Memory) {
    forall fuel: nat :: ExecSeq(w, body, m, fuel).OutOfFuel?
  }

  ghost predicate NeverUndefined(w: World, body: seq<Stmt>, m: Memory) {
    forall fuel: nat :: !ExecSeq(w, body, m, fuel).Undefined?
  }

  /** The code, started at its entry, returns `v`. */
  ghost predicate Halts(w: World, code: seq<Instr>, l: Local, v: Option<word>, l': Local) {
    exists n: nat :: Run(w, code, Running(0, l), n) == Returned(v, l')
  }

  /** Functions in the domain of the theorems, started in a memory the store agrees with. */
  ghost predicate Starts(w: World, f: Function, m: Memory, l: Local) {
    && f.body != [] && ScalarStmts(w, f.body) && NoHidingIn(f.body) && FreshIn(f.body, m.frames)
    && Ready(m.frames, m.trace, l)
  }

  lemma BodyRuns(w: World, f: Function, g: GenState, m: Memory, l: Local, fuel: nat) returns (n: nat)
    requires Starts(w, f, m, l)
    ensures var code := LowerFunction(f, g).code;
            var s := Run(w, code, Running(0, l), n);
            match ExecSeq(w, f.body, m, fuel)
            case Undefined => true
            case OutOfFuel => s.Running? && n >= fuel
            case Done(o, m') =>
              && s.Returned? && Ready(m'.frames, m'.trace, s.local)
              && s.value == (if o.Returning? then o.value else None)
  {
    var g0 := g.(temps := 0, labels := 0);
    var B := LowerStmts(f.body, g0);
    var code := LowerFunction(f, g).code;
    FunctionLabels(f, g);
    EntryRuns(w, f, g, l);
    n := SeqCorrect(w, f.body, g0, m, l, code, 1, fuel);
    var r := ExecSeq(w, f.body, m, fuel);
    SimulatesAfter(w, code, Running(0, l), 1, Running(1, l), 1 + |B.code|, r, fuel, fuel, n);
    n := 1 + n;
    assert code[1 + |B.code|] == FunctionExitIR(f.name);
    n := FallsOff(w, code, Running(0, l), 1 + |B.code|, r, fuel, n);
  }

  /** Falling off the end meets the exit marker, which returns nothing. */
  lemma FallsOff(w: World, code: seq<Instr>, s0: State, end: nat, r: XResult, fuel: nat, n0: nat) returns (n: nat)
    requires s0.Running? && Simulates(w, code, s0, end, r, fuel, n0)
    requires end < |code| && code[end].FunctionExitIR?
    ensures var s := Run(w, code, s0, n);
            match r
            case Undefined => true
            case OutOfFuel => s.Running? && n >= fuel
            case Done(o, m') =>
              && s.Returned? && Ready(m'.frames, m'.trace, s.local)
              && s.value == (if o.Returning? then o.value else None)
  {
    n := n0;
    if r.Done? && r.o == Completed {
      OneStep(w, code, Run(w, code, s0, n));
      RunAdds(w, code, s0, n, 1);
      n := n + 1;
    }
  }

  lemma EntryRuns(w: World, f: Function, g: GenState, l: Local)
    requires f.body != []
    ensures var code := LowerFunction(f, g).code;
            && Run(w, code, Running(0, l), 1) == Running(1, l)
            && HasCode(code, 1, LowerStmts(f.body, g.(temps := 0, labels := 0)).code)
  {
    var code := LowerFunction(f, g).code;
    OneStep(w, code, Running(0, l));
  }

  /** Lowering preserves meaning: a function that ends in the source ends in the code, with the
      same value, the same calls in the same order, and the same value in every variable. */
  lemma MeaningPreserved(w: World, f: Function, g: GenState, m: Memory, l: Local, v: Option<word>, m': Memory)
    requires Starts(w, f, m, l) && Means(w, f.body, m, v, m')
    ensures exists l' :: Halts(w, LowerFunction(f, g).code, l, v, l') && Ready(m'.frames, m'.trace, l')
  {
    var fuel: nat :| Ends(w, f.body, m, fuel, v, m');
    var n := BodyRuns(w, f, g, m, l, fuel);
    var s := Run(w, LowerFunction(f, g).code, Running(0, l), n);
    assert Halts(w, LowerFunction(f, g).code, l, v, s.local);
  }

  /** A function that never ends in the source never ends, and never gets stuck, in the code. */
  lemma DivergencePreserved(w: World, f: Function, g: GenState, m: Memory, l: Local, k: nat)
    requires Starts(w, f, m, l) && Diverges(w, f.body, m)
    ensures Run(w, LowerFunction(f, g).code, Running(0, l), k).Running?
  {
    var n := BodyRuns(w, f, g, m, l, k);
    RunningBefore(w, LowerFunction(f, g).code, Running(0, l), k, n);
  }

  /** The machine is deterministic: a run returns at most one thing. */
  lemma HaltsOnce(w: World, code: seq<Instr>, l: Local, v1: Option<word>, l1: Local, v2: Option<word>, l2: Local)
    requires Halts(w, code, l, v1, l1) && Halts(w, code, l, v2, l2)
    ensures v1 == v2 && l1 == l2
  {
    var a: nat :| Run(w, code, Running(0, l), a) == Returned(v1, l1);
    var b: nat :| Run(w, code, Running(0, l), b) == Returned(v2, l2);
    if a <= b {
      RunAdds(w, code, Running(0, l), a, b - a);
      HaltedStays(w, code, Returned(v1, l1), b - a);
    } else {
      RunAdds(w, code, Running(0, l), b, a - b);
      HaltedStays(w, code, Returned(v2, l2), a - b);
    }
  }

  /** Nothing is added either: for a source without undefined behaviour, whatever the code
      returns is what the source means. With the two theorems above, the code returns `v` if and
      only if the source does. */
  lemma MeaningReflected(w: World, f: Function, g: GenState, m: Memory, l: Local, v: Option<word>, l': Local)
    requires Starts(w, f, m, l) && NeverUndefined(w, f.body, m)
    requires Halts(w, LowerFunction(f, g).code, l, v, l')
    ensures exists m' :: Means(w, f.body, m, v, m') && Ready(m'.frames, m'.trace, l')
  {
    var code := LowerFunction(f, g).code;
    var k: nat :| Run(w, code, Running(0, l), k) == Returned(v, l');
    var fuel := k + 1;
    var n := BodyRuns(w, f, g, m, l, fuel);
    var r := ExecSeq(w, f.body, m, fuel);
    if r.OutOfFuel? {
      RunningBefore(w, code, Running(0, l), k, n);
      assert false;
    }
    var s := Run(w, code, Running(0, l), n);
    assert Halts(w, code, l, s.value, s.local);
    HaltsOnce(w, code, l, v, l', s.value, s.local);
    assert Ends(w, f.body, m, fuel, v, r.m);
    assert Means(w, f.body, m, v, r.m);
  }
}
