/** Lowering of statements: structured control flow against labels and jumps. Running the code of a
    statement does what the statement means, for every number of turns of its loops. */
module LoweringStmt {
  import opened Words
  import opened Ast
  import opened IrGenerator
  import opened IrMachine
  import opened Source
  import opened Domain
  import opened Labels
  import opened Lowering

  /** Running from `s0` for `n` steps does what result `r` says: it arrives at `end`, or returns
      the same value, or (when the source ran out of fuel) is still running after `fuel` steps. */
  ghost predicate Simulates(w: World, code: seq<Instr>, s0: State, end: nat, r: XResult, fuel: nat, n: nat)
    requires s0.Running?
  {
    var s := Run(w, code, s0, n);
    match r
    case Undefined => true
    case OutOfFuel => s.Running? && n >= fuel
    case Done(Completed, m) =>
      s.Running? && s.pc == end && s.local.params == s0.local.params && Ready(m.frames, m.trace, s.local)
    case Done(Returning(v), m) => s.Returned? && s.value == v && Ready(m.frames, m.trace, s.local)
  }

  lemma SimulatesAfter(w: World, code: seq<Instr>, s0: State, n1: nat, s1: State, end: nat, r: XResult,
                       fuel: nat, less: nat, n2: nat)
    requires s0.Running? && s1.Running? && Run(w, code, s0, n1) == s1 && s1.local.params == s0.local.params
    requires Simulates(w, code, s1, end, r, less, n2) && fuel <= n1 + less
    ensures Simulates(w, code, s0, end, r, fuel, n1 + n2)
  {
    RunAdds(w, code, s0, n1, n2);
  }

  /** A statement that completes, followed by whatever comes next. */
  lemma SimulatesThen(w: World, code: seq<Instr>, s0: State, mid: nat, m: Memory, n1: nat, end: nat, r: XResult,
                      fuel: nat, less: nat, n2: nat)
    requires s0.Running? && Simulates(w, code, s0, mid, Done(Completed, m), fuel, n1)
    requires Simulates(w, code, Run(w, code, s0, n1), end, r, less, n2) && fuel <= n1 + less
    ensures Simulates(w, code, s0, end, r, fuel, n1 + n2)
  {
    SimulatesAfter(w, code, s0, n1, Run(w, code, s0, n1), end, r, fuel, less, n2);
  }

  lemma OneStep(w: World, code: seq<Instr>, s: State)
    ensures Run(w, code, s, 1) == Step(w, code, s)
  {
    assert Run(w, code, Step(w, code, s), 0) == Step(w, code, s);
  }

  /** The names declared in blocks inside a statement hide nothing. */
  ghost predicate Fresh(s: Stmt, fs: Frames) {
    fs != [] && InnerDecls(s) !! Keys(fs)
  }

  ghost predicate FreshIn(ss: seq<Stmt>, fs: Frames) {
    fs != [] && InnerDeclsIn(ss) !! Keys(fs)
  }

  lemma FreshAfter(s: Stmt, fs: Frames, fs': Frames, added: set<string>)
    requires Fresh(s, fs) && Grown(fs, fs', added) && added !! InnerDecls(s)
    ensures Fresh(s, fs')
  {
    GrownKeys(fs, fs', added);
  }

  lemma FreshRest(ss: seq<Stmt>, fs: Frames, fs': Frames)
    requires ss != [] && NoHidingIn(ss) && FreshIn(ss, fs) && Grown(fs, fs', TopDecls(ss[0]))
    ensures FreshIn(ss[1..], fs')
  {
    GrownKeys(fs, fs', TopDecls(ss[0]));
  }

  ghost predicate StmtOk(w: World, s: Stmt, m: Memory, l: Local) {
    ScalarStmt(w, s) && NoHiding(s) && Fresh(s, m.frames) && Ready(m.frames, m.trace, l)
  }

  /** Embedded expression code reaches its end with the value in its result operand. */
  lemma ExprRuns(w: World, e: Expr, g: GenState, m: Memory, l: Local, code: seq<Instr>, pc: nat)
    requires ScalarExpr(w, e) && Ready(m.frames, m.trace, l) && EvalExpr(w, e, m).Value?
    requires HasCode(code, pc, LowerExpr(e, g).code)
    ensures var L := LowerExpr(e, g);
            var E := EvalExpr(w, e, m);
            var s := Run(w, code, Running(pc, l), |L.code|);
            && s.Running? && s.pc == pc + |L.code| && s.local.params == l.params
            && Ready(E.m.frames, E.m.trace, s.local) && Operand(s.local.store, L.result) == E.v
  {
    ExprCorrect(w, e, g, m, l);
    RunStraight(w, code, pc, LowerExpr(e, g).code, l);
  }

  lemma OptionalRuns(w: World, e: Option<Expr>, g: GenState, m: Memory, l: Local, code: seq<Instr>, pc: nat, fuel: nat)
    requires ScalarOptional(w, e) && Ready(m.frames, m.trace, l)
    requires HasCode(code, pc, LowerOptional(e, g).code)
    ensures var n := |LowerOptional(e, g).code|;
            Simulates(w, code, Running(pc, l), pc + n, EvalOptional(w, e, m), fuel, n)
  {
    if e.Some? && EvalExpr(w, e.value, m).Value? {
      ExprRuns(w, e.value, g, m, l, code, pc);
    }
  }

  lemma DeclareReady(m: Memory, l: Local, x: string, b: Binding, v: word)
    requires Ready(m.frames, m.trace, l) && NameOk(x) && m.frames != []
    requires b.Set? ==> b.v == v
    ensures b.Set? ==> Ready(Declare(m.frames, x, b), m.trace, l.(store := l.store[x := v]))
    ensures b.Unset? ==> Ready(Declare(m.frames, x, b), m.trace, l)
  {
    var fs := Declare(m.frames, x, b);
    forall y
      ensures Lookup(fs, y) == if y == x then Some(b) else Lookup(m.frames, y)
    {
      LookupDeclare(m.frames, x, b, y);
    }
    forall y | y in Keys(fs)
      ensures NameOk(y)
    {
      LookupIsKey(fs, y);
      LookupIsKey(m.frames, y);
    }
  }

  lemma VarDeclCorrect(w: World, s: Stmt, g: GenState, m: Memory, l: Local, code: seq<Instr>, pc: nat, fuel: nat)
      returns (n: nat)
    requires s.VarDecl? && StmtOk(w, s, m, l) && HasCode(code, pc, LowerStmt(s, g).code)
    ensures Simulates(w, code, Running(pc, l), pc + |LowerStmt(s, g).code|, Exec(w, s, m, fuel), fuel, n)
  {
    n := |LowerStmt(s, g).code|;
    DeclareReady(m, l, s.name, Unset, 0);
    var m1 := m.(frames := Declare(m.frames, s.name, Unset));
    if s.initializer.Some? {
      var e := s.initializer.value;
      var L := LowerExpr(e, g);
      var V := EvalExpr(w, e, m1);
      if V.Value? && V.m.frames != [] {
        ExprCorrect(w, e, g, m1, l);
        var l1 := RunLocal(w, L.code, l).value;
        RunOneMore(w, L.code, AssignIR(s.name, L.result), l, l1);
        RunStraight(w, code, pc, LowerStmt(s, g).code, l);
        DeclareReady(V.m, l1, s.name, Set(V.v), V.v);
      }
    }
  }

  lemma ReturnCorrect(w: World, s: Stmt, g: GenState, m: Memory, l: Local, code: seq<Instr>, pc: nat, fuel: nat)
      returns (n: nat)
    requires s.ReturnStmt? && StmtOk(w, s, m, l) && HasCode(code, pc, LowerStmt(s, g).code)
    ensures Simulates(w, code, Running(pc, l), pc + |LowerStmt(s, g).code|, Exec(w, s, m, fuel), fuel, n)
  {
    hide Lookup, Keys, Agrees, NamesOk, LowerExpr, EvalExpr, ScalarExpr;
    n := |LowerStmt(s, g).code|;
    if s.value.None? {
      assert code[pc] == code[pc..pc + 1][0];
      OneStep(w, code, Running(pc, l));
    } else {
      var L := LowerExpr(s.value.value, g);
      HasCodeSplit(code, pc, L.code, [ReturnIR(Some(L.result))]);
      if EvalExpr(w, s.value.value, m).Value? {
        ExprRuns(w, s.value.value, g, m, l, code, pc);
        var s1 := Run(w, code, Running(pc, l), |L.code|);
        assert code[s1.pc] == code[s1.pc..s1.pc + 1][0];
        RunAdds(w, code, Running(pc, l), |L.code|, 1);
        OneStep(w, code, s1);
      }
    }
  }

  /** Statements. The step count is returned; out of fuel, it is at least the fuel. */
  lemma {:induction false} StmtCorrect(w: World, s: Stmt, g: GenState, m: Memory, l: Local, code: seq<Instr>, pc: nat,
                                       fuel: nat) returns (n: nat)
    requires StmtOk(w, s, m, l) && HasCode(code, pc, LowerStmt(s, g).code) && UniqueLabels(code)
    ensures Simulates(w, code, Running(pc, l), pc + |LowerStmt(s, g).code|, Exec(w, s, m, fuel), fuel, n)
    decreases fuel, s, 3
  {
    hide Lookup, Keys, Agrees, NamesOk, LowerExpr, EvalExpr, EvalBin, Run;
    match s
    case VarDecl(_, _, _) => n := VarDeclCorrect(w, s, g, m, l, code, pc, fuel);
    case CompoundStmt(ss) => n := BlockCorrect(w, s, g, m, l, code, pc, fuel);
    case ExprStmt(e) =>
      OptionalRuns(w, e, g, m, l, code, pc, fuel);
      n := |LowerOptional(e, g).code|;
    case IfStmt(_, _, _) => n := IfCorrect(w, s, g, m, l, code, pc, fuel);
    case WhileStmt(c, body) =>
      WhileIsFor(c, body, g);
      n := ForCorrect(w, None, Some(c), None, body, g, m, l, code, pc, fuel);
    case ForStmt(init, test, incr, body) =>
      n := ForCorrect(w, init, test, incr, body, g, m, l, code, pc, fuel);
    case ReturnStmt(_) => n := ReturnCorrect(w, s, g, m, l, code, pc, fuel);
  }

  lemma {:induction false} SeqCorrect(w: World, ss: seq<Stmt>, g: GenState, m: Memory, l: Local, code: seq<Instr>,
                                      pc: nat, fuel: nat) returns (n: nat)
    requires ScalarStmts(w, ss) && NoHidingIn(ss) && FreshIn(ss, m.frames) && Ready(m.frames, m.trace, l)
    requires HasCode(code, pc, LowerStmts(ss, g).code) && UniqueLabels(code)
    ensures Simulates(w, code, Running(pc, l), pc + |LowerStmts(ss, g).code|, ExecSeq(w, ss, m, fuel), fuel, n)
    decreases fuel, ss, 0
  {
    hide Lookup, Keys, Agrees, NamesOk, LowerStmt, Exec, EvalExpr, TopDecls, InnerDecls, NoHiding, ScalarStmt;
    if ss == [] {
      n := 0;
    } else {
      var S := LowerStmt(ss[0], g);
      var rest := LowerStmts(ss[1..], S.g);
      var end := pc + |S.code| + |rest.code|;
      assert LowerStmts(ss, g).code == S.code + rest.code;
      HasCodeSplit(code, pc, S.code, rest.code);
      n := StmtCorrect(w, ss[0], g, m, l, code, pc, fuel);
      var r := Exec(w, ss[0], m, fuel);
      if r.Done? && r.o == Completed {
        ExecShape(w, ss[0], m, fuel);
        FreshRest(ss, m.frames, r.m.frames);
        var s1 := Run(w, code, Running(pc, l), n);
        var n2 := SeqCorrect(w, ss[1..], S.g, r.m, s1.local, code, pc + |S.code|, fuel);
        SimulatesThen(w, code, Running(pc, l), pc + |S.code|, r.m, n, end, ExecSeq(w, ss[1..], r.m, fuel),
                      fuel, fuel, n2);
        n := n + n2;
      }
    }
  }

  /** Leaving a block: no outer variable is hidden by the names of the block. */
  lemma LeaveReady(fs: Frames, trace: seq<Event>, l: Local)
    requires fs != [] && Ready(fs, trace, l) && fs[|fs| - 1].Keys !! Keys(fs[..|fs| - 1])
    ensures Ready(fs[..|fs| - 1], trace, l)
  {
    forall x | Lookup(fs[..|fs| - 1], x).Some?
      ensures Lookup(fs, x) == Lookup(fs[..|fs| - 1], x)
    {
      LookupIsKey(fs[..|fs| - 1], x);
    }
  }

  /** Entering a block: a new scope with nothing in it. */
  lemma EnterReady(m: Memory, l: Local)
    requires Ready(m.frames, m.trace, l)
    ensures var fs := m.frames + [map[]];
            Ready(fs, m.trace, l) && Keys(fs) == Keys(m.frames) && fs[..|fs| - 1] == m.frames
  {
    var fs := m.frames + [map[]];
    assert fs[..|fs| - 1] == m.frames;
    forall x
      ensures Lookup(fs, x) == Lookup(m.frames, x)
    {
    }
  }

  lemma {:induction false} BlockCorrect(w: World, s: Stmt, g: GenState, m: Memory, l: Local, code: seq<Instr>, pc: nat,
                                        fuel: nat) returns (n: nat)
    requires s.CompoundStmt? && StmtOk(w, s, m, l) && HasCode(code, pc, LowerStmt(s, g).code) && UniqueLabels(code)
    ensures Simulates(w, code, Running(pc, l), pc + |LowerStmt(s, g).code|, Exec(w, s, m, fuel), fuel, n)
    decreases fuel, s, 1
  {
    var fs := m.frames + [map[]];
    var m1 := m.(frames := fs);
    EnterReady(m, l);
    hide Lookup, Keys, Agrees, NamesOk, LowerStmts, ExecSeq, ScalarStmts, NoHidingIn;
    n := SeqCorrect(w, s.statements, g, m1, l, code, pc, fuel);
    var r := ExecSeq(w, s.statements, m1, fuel);
    if r.Done? {
      SeqShape(w, s.statements, m1, fuel);
      GrownKeys(fs, r.m.frames, TopDeclsIn(s.statements));
      LeaveReady(r.m.frames, r.m.trace, Run(w, code, Running(pc, l), n).local);
    }
  }

  /** A test: fall through when it holds, jump to the given label when it does not. */
  lemma TestRuns(w: World, test: Option<Expr>, lEnd: string, g: GenState, m: Memory, l: Local, code: seq<Instr>,
                 pc: nat)
    requires ScalarOptional(w, test) && Ready(m.frames, m.trace, l) && EvalTest(w, test, m).Value?
    requires HasCode(code, pc, LowerTest(test, lEnd, g).code)
    ensures var T := LowerTest(test, lEnd, g).code;
            var E := EvalTest(w, test, m);
            var s := Run(w, code, Running(pc, l), |T|);
            && s.Running? && s.pc == (if E.v != 0 then pc + |T| else Target(code, lEnd))
            && s.local.params == l.params && Ready(E.m.frames, E.m.trace, s.local)
  {
    if test.Some? {
      var C := LowerExpr(test.value, g);
      HasCodeSplit(code, pc, C.code, [CondGotoIR(C.result, lEnd, false)]);
      HasInstr(code, pc + |C.code|, [CondGotoIR(C.result, lEnd, false)], 0);
      ExprRuns(w, test.value, g, m, l, code, pc);
      RunAdds(w, code, Running(pc, l), |C.code|, 1);
      OneStep(w, code, Run(w, code, Running(pc, l), |C.code|));
    }
  }

  lemma {:induction false} IfCorrect(w: World, s: Stmt, g: GenState, m: Memory, l: Local, code: seq<Instr>, pc: nat,
                                     fuel: nat) returns (n: nat)
    requires s.IfStmt? && StmtOk(w, s, m, l) && HasCode(code, pc, LowerStmt(s, g).code) && UniqueLabels(code)
    ensures Simulates(w, code, Running(pc, l), pc + |LowerStmt(s, g).code|, Exec(w, s, m, fuel), fuel, n)
    decreases fuel, s, 2
  {
    hide *;
    var p := IfCode(s, g);
    var end := pc + |LowerStmt(s, g).code|;
    var r := EvalExpr(w, s.condition, m);
    ExecOfIf(w, p, m, fuel);
    IfLayout(p, code, pc);
    n := 0;
    if r.Value? {
      var k := |p.C().code|;
      IfHead(w, p, m, l, code, pc);
      var s1 := Run(w, code, Running(pc, l), k);
      n := BranchRuns(w, p, r, s1, code, pc, fuel);
      SimulatesAfter(w, code, Running(pc, l), k, s1, end, p.Branch(w, r, fuel), fuel, fuel, n);
      n := k + n;
    } else {
      MeaninglessSimulates(w, code, Running(pc, l), end, fuel);
    }
  }

  lemma ExecOfIf(w: World, p: IfCode, m: Memory, fuel: nat)
    requires p.s.IfStmt?
    ensures var r := EvalExpr(w, p.s.condition, m);
            Exec(w, p.s, m, fuel) == if r.Meaningless? then Undefined else p.Branch(w, r, fuel)
  {
  }

  lemma IfHead(w: World, p: IfCode, m: Memory, l: Local, code: seq<Instr>, pc: nat)
    requires p.s.IfStmt? && StmtOk(w, p.s, m, l) && p.At(code, pc) && EvalExpr(w, p.s.condition, m).Value?
    ensures var r := EvalExpr(w, p.s.condition, m);
            var s1 := Run(w, code, Running(pc, l), |p.C().code|);
            && s1.Running? && s1.local.params == l.params && StmtOk(w, p.s, r.m, s1.local)
            && s1.pc == (if r.v != 0 then pc + |p.C().code| else Target(code, p.lElse()))
  {
    hide Lookup, Keys, Agrees, NamesOk, LowerExpr, LowerStmt, EvalExpr, Run;
    TestRuns(w, Some(p.s.condition), p.lElse(), p.g, m, l, code, pc);
    EvalShape(w, p.s.condition, m);
    FreshAfter(p.s, m.frames, EvalExpr(w, p.s.condition, m).m.frames, {});
  }

  lemma MeaninglessSimulates(w: World, code: seq<Instr>, s0: State, end: nat, fuel: nat)
    requires s0.Running?
    ensures Simulates(w, code, s0, end, Undefined, fuel, 0)
  {
  }

  /** The pieces of an if statement. */
  datatype IfCode = IfCode(s: Stmt, g: GenState)
  {
    function C(): Block
      requires s.IfStmt?
    {
      LowerTest(Some(s.condition), lElse(), g)
    }
    function lElse(): string
      requires s.IfStmt?
    {
      LabelName(LowerExpr(s.condition, g).g.labels)
    }
    function lEnd(): string
      requires s.IfStmt?
    {
      LabelName(C().g.labels + 1)
    }
    function T(): Block
      requires s.IfStmt?
    {
      LowerStmt(s.thenStmt, C().g.(labels := C().g.labels + 2))
    }
    function E(): Block
      requires s.IfStmt?
    {
      if s.elseStmt.Some? then LowerStmt(s.elseStmt.value, T().g) else Block([], T().g)
    }
    /** The branch an if statement takes. */
    function Branch(w: World, r: EResult, fuel: nat): XResult
      requires s.IfStmt? && r.Value?
    {
      if r.v != 0 then Exec(w, s.thenStmt, r.m, fuel)
      else if s.elseStmt.Some? then Exec(w, s.elseStmt.value, r.m, fuel)
      else Done(Completed, r.m)
    }
    ghost predicate At(code: seq<Instr>, pc: nat)
      requires s.IfStmt?
    {
      var pcT := pc + |C().code|;
      var pcE := pcT + |T().code| + 2;
      && HasCode(code, pc, C().code) && HasCode(code, pcT, T().code) && HasCode(code, pcE, E().code)
      && pcE + |E().code| < |code|
      && code[pcE - 2] == GotoIR(lEnd()) && code[pcE - 1] == LabelIR(lElse())
      && code[pcE + |E().code|] == LabelIR(lEnd())
      && pcE + |E().code| + 1 == pc + |LowerStmt(s, g).code|
    }
  }

  lemma {:induction false} BranchRuns(w: World, p: IfCode, r: EResult, s1: State, code: seq<Instr>, pc: nat, fuel: nat)
      returns (n: nat)
    requires p.s.IfStmt? && p.At(code, pc) && UniqueLabels(code)
    requires s1.Running? && r.Value? && StmtOk(w, p.s, r.m, s1.local)
    requires s1.pc == if r.v != 0 then pc + |p.C().code| else Target(code, p.lElse())
    ensures Simulates(w, code, s1, pc + |LowerStmt(p.s, p.g).code|, p.Branch(w, r, fuel), fuel, n)
    decreases fuel, p.s, 1
  {
    hide Lookup, Keys, Agrees, NamesOk, LowerExpr, LowerTest, LowerStmt, Exec, EvalExpr, HasCode, Run, Simulates, Fresh,
      Ready;
    var pcT := pc + |p.C().code|;
    var pcE := pcT + |p.T().code| + 2;
    var end := pcE + |p.E().code| + 1;
    if r.v != 0 {
      n := ThenRuns(w, p.s, r.m, s1.local, p.C().g.(labels := p.C().g.labels + 2), code, pcT, end, p.lEnd(), fuel);
    } else {
      TargetIsDefinition(code, pcE - 1);
      n := ElseRuns(w, p.s, r.m, s1.local, p.T().g, code, pcE - 1, end, fuel);
    }
  }

  /** Where the pieces of an if statement sit. */
  lemma IfLayout(p: IfCode, code: seq<Instr>, pc: nat)
    requires p.s.IfStmt? && HasCode(code, pc, LowerStmt(p.s, p.g).code)
    ensures p.At(code, pc)
  {
    hide *;
    IfShape(p);
    var (c, t, e) := (p.C().code, p.T().code, p.E().code);
    var (m, z) := ([GotoIR(p.lEnd()), LabelIR(p.lElse())], [LabelIR(p.lEnd())]);
    HasCodeSplit(code, pc, c + t + m + e, z);
    HasCodeSplit(code, pc, c + t + m, e);
    HasCodeSplit(code, pc, c + t, m);
    HasCodeSplit(code, pc, c, t);
    HasInstr(code, pc + |c| + |t|, m, 0);
    HasInstr(code, pc + |c| + |t|, m, 1);
    HasInstr(code, pc + |c| + |t| + |e| + 2, z, 0);
    IfAt(p, code, pc);
  }

  lemma IfShape(p: IfCode)
    requires p.s.IfStmt?
    ensures LowerStmt(p.s, p.g).code
            == p.C().code + p.T().code + [GotoIR(p.lEnd()), LabelIR(p.lElse())] + p.E().code + [LabelIR(p.lEnd())]
  {
    hide LowerExpr;
  }

  lemma IfAt(p: IfCode, code: seq<Instr>, pc: nat)
    requires p.s.IfStmt?
    requires LowerStmt(p.s, p.g).code
             == p.C().code + p.T().code + [GotoIR(p.lEnd()), LabelIR(p.lElse())] + p.E().code + [LabelIR(p.lEnd())]
    requires var pcT := pc + |p.C().code|;
             var pcE := pcT + |p.T().code| + 2;
             && HasCode(code, pc, p.C().code) && HasCode(code, pcT, p.T().code) && HasCode(code, pcE, p.E().code)
             && pcE + |p.E().code| < |code|
             && code[pcE - 2] == GotoIR(p.lEnd()) && code[pcE - 1] == LabelIR(p.lElse())
             && code[pcE + |p.E().code|] == LabelIR(p.lEnd())
    ensures p.At(code, pc)
  {
    hide LowerExpr, LowerStmt, LowerTest, HasCode;
  }

  lemma HasInstr(code: seq<Instr>, pc: nat, part: seq<Instr>, k: nat)
    requires HasCode(code, pc, part) && k < |part|
    ensures code[pc + k] == part[k]
  {
    assert code[pc..pc + |part|][k] == part[k];
  }

  lemma {:induction false} ThenRuns(w: World, s: Stmt, m: Memory, l: Local, g: GenState, code: seq<Instr>, pcT: nat,
                                    end: nat, lEnd: string, fuel: nat) returns (n: nat)
    requires s.IfStmt? && StmtOk(w, s, m, l) && UniqueLabels(code) && HasCode(code, pcT, LowerStmt(s.thenStmt, g).code)
    requires var pcG := pcT + |LowerStmt(s.thenStmt, g).code|;
             0 < end <= |code| && pcG < |code| && code[pcG] == GotoIR(lEnd) && code[end - 1] == LabelIR(lEnd)
    ensures Simulates(w, code, Running(pcT, l), end, Exec(w, s.thenStmt, m, fuel), fuel, n)
    decreases fuel, s, 0
  {
    hide Lookup, Keys, Agrees, NamesOk, LowerExpr, LowerStmt, Exec, EvalExpr, EvalBin;
    n := StmtCorrect(w, s.thenStmt, g, m, l, code, pcT, fuel);
    var r := Exec(w, s.thenStmt, m, fuel);
    if r.Done? && r.o == Completed {
      var s1 := Run(w, code, Running(pcT, l), n);
      TargetIsDefinition(code, end - 1);
      RunAdds(w, code, s1, 1, 1);
      OneStep(w, code, s1);
      OneStep(w, code, Step(w, code, s1));
      RunAdds(w, code, Running(pcT, l), n, 2);
      n := n + 2;
    }
  }

  lemma {:induction false} ElseRuns(w: World, s: Stmt, m: Memory, l: Local, g: GenState, code: seq<Instr>, pcL: nat,
                                    end: nat, fuel: nat) returns (n: nat)
    requires s.IfStmt? && StmtOk(w, s, m, l) && UniqueLabels(code)
    requires pcL < |code| && code[pcL].LabelIR?
    requires var E := if s.elseStmt.Some? then LowerStmt(s.elseStmt.value, g).code else [];
             HasCode(code, pcL + 1, E) && pcL + |E| + 2 == end <= |code| && code[end - 1].LabelIR?
    ensures var r := if s.elseStmt.Some? then Exec(w, s.elseStmt.value, m, fuel) else Done(Completed, m);
            Simulates(w, code, Running(pcL, l), end, r, fuel, n)
    decreases fuel, s, 0
  {
    hide Lookup, Keys, Agrees, NamesOk, LowerExpr, LowerStmt, Exec, EvalExpr, EvalBin;
    var s1 := Running(pcL + 1, l);
    OneStep(w, code, Running(pcL, l));
    n := 0;
    var r := Done(Completed, m);
    if s.elseStmt.Some? {
      n := StmtCorrect(w, s.elseStmt.value, g, m, l, code, pcL + 1, fuel);
      r := Exec(w, s.elseStmt.value, m, fuel);
    }
    if r.Done? && r.o == Completed {
      RunAdds(w, code, s1, n, 1);
      OneStep(w, code, Run(w, code, s1, n));
      n := n + 1;
    }
    SimulatesAfter(w, code, Running(pcL, l), 1, s1, end, r, fuel, fuel, n);
    n := n + 1;
  }

  // ------------------------------------------------------------------ loops

  /** The pieces of a loop, from its start label to its end label. */
  datatype LoopCode = LoopCode(test: Option<Expr>, incr: Option<Expr>, body: Stmt, lStart: string, lEnd: string,
                               g: GenState)
  {
    function T(): Block { LowerTest(test, lEnd, g) }
    function B(): Block { LowerStmt(body, T().g) }
    function N(): Block { LowerOptional(incr, B().g) }
    function Code(): seq<Instr> {
      [LabelIR(lStart)] + T().code + B().code + N().code + [GotoIR(lStart), LabelIR(lEnd)]
    }
    ghost predicate At(code: seq<Instr>, pc: nat) {
      var pcB := pc + 1 + |T().code|;
      var pcN := pcB + |B().code|;
      var pcG := pcN + |N().code|;
      && HasCode(code, pc + 1, T().code) && HasCode(code, pcB, B().code) && HasCode(code, pcN, N().code)
      && pcG + 1 < |code| && code[pc] == LabelIR(lStart)
      && code[pcG] == GotoIR(lStart) && code[pcG + 1] == LabelIR(lEnd)
    }
    ghost predicate Ok(w: World, m: Memory, l: Local) {
      && ScalarOptional(w, test) && ScalarOptional(w, incr) && StmtOk(w, body, m, l)
    }
  }

  lemma LoopLayout(p: LoopCode, code: seq<Instr>, pc: nat)
    requires HasCode(code, pc, p.Code())
    ensures p.At(code, pc)
  {
    hide LowerExpr, LowerStmt, LowerTest, LowerOptional, HasCode;
    var (t, b, n) := (p.T().code, p.B().code, p.N().code);
    var tail := [GotoIR(p.lStart), LabelIR(p.lEnd)];
    HasCodeSplit(code, pc, [LabelIR(p.lStart)] + t + b + n, tail);
    HasCodeSplit(code, pc, [LabelIR(p.lStart)] + t + b, n);
    HasCodeSplit(code, pc, [LabelIR(p.lStart)] + t, b);
    HasCodeSplit(code, pc, [LabelIR(p.lStart)], t);
    HasInstr(code, pc, [LabelIR(p.lStart)], 0);
    HasInstr(code, pc + 1 + |t| + |b| + |n|, tail, 0);
    HasInstr(code, pc + 1 + |t| + |b| + |n|, tail, 1);
  }

  /** From the start label through the test: into the body, or to the end label. */
  lemma LoopHead(w: World, p: LoopCode, m: Memory, l: Local, code: seq<Instr>, pc: nat)
    requires p.Ok(w, m, l) && p.At(code, pc) && UniqueLabels(code) && EvalTest(w, p.test, m).Value?
    ensures var T := EvalTest(w, p.test, m);
            var s := Run(w, code, Running(pc, l), 1 + |p.T().code|);
            && s.Running? && s.local.params == l.params && Ready(T.m.frames, T.m.trace, s.local)
            && s.pc == (if T.v != 0 then pc + 1 + |p.T().code| else pc + |p.Code()| - 1)
            && (T.v != 0 ==> p.Ok(w, T.m, s.local))
            && (T.v == 0 ==> s.pc < |code| && code[s.pc].LabelIR? && s.pc + 1 == pc + |p.Code()|)
  {
    var end := pc + |p.Code()|;
    hide Lookup, Keys, Agrees, NamesOk, LowerExpr, LowerStmt, EvalExpr, LowerTest, LowerOptional, Run;
    OneStep(w, code, Running(pc, l));
    TestRuns(w, p.test, p.lEnd, p.g, m, l, code, pc + 1);
    RunAdds(w, code, Running(pc, l), 1, |p.T().code|);
    TargetIsDefinition(code, end - 1);
    TestShape(w, p.test, m);
    FreshAfter(p.body, m.frames, EvalTest(w, p.test, m).m.frames, {});
  }

  lemma LabelStep(w: World, code: seq<Instr>, s: State, m: Memory, fuel: nat)
    requires s.Running? && s.pc < |code| && code[s.pc].LabelIR? && Ready(m.frames, m.trace, s.local)
    ensures Simulates(w, code, s, s.pc + 1, Done(Completed, m), fuel, 1)
  {
    OneStep(w, code, s);
  }

  /** A loop, from its start label, by induction on the turns left. */
  lemma {:induction false} LoopCorrect(w: World, p: LoopCode, m: Memory, l: Local, code: seq<Instr>, pc: nat, fuel: nat)
      returns (n: nat)
    requires p.Ok(w, m, l) && p.At(code, pc) && UniqueLabels(code)
    ensures Simulates(w, code, Running(pc, l), pc + |p.Code()|, Loop(w, p.test, p.incr, p.body, m, fuel), fuel, n)
    decreases fuel, p.body, 5
  {
    hide *;
    var end := pc + |p.Code()|;
    var T := EvalTest(w, p.test, m);
    LoopUnfolds(w, p, m, fuel);
    n := 0;
    if fuel == 0 {
      OutOfFuelSimulates(w, code, Running(pc, l), end);
    } else if T.Meaningless? {
      MeaninglessSimulates(w, code, Running(pc, l), end, fuel);
    } else {
      LoopHead(w, p, m, l, code, pc);
      var k := 1 + |p.T().code|;
      var s1 := Run(w, code, Running(pc, l), k);
      var n2;
      if T.v == 0 {
        LabelStep(w, code, s1, T.m, fuel);
        n2 := 1;
      } else {
        n2 := TurnCorrect(w, p, T.m, s1.local, code, pc, fuel);
      }
      SimulatesAfter(w, code, Running(pc, l), k, s1, end, Loop(w, p.test, p.incr, p.body, m, fuel), fuel, fuel, n2);
      n := k + n2;
    }
  }

  lemma LoopUnfolds(w: World, p: LoopCode, m: Memory, fuel: nat)
    ensures var T := EvalTest(w, p.test, m);
            Loop(w, p.test, p.incr, p.body, m, fuel)
            == if fuel == 0 then OutOfFuel
               else if T.Meaningless? then Undefined
               else if T.v == 0 then Done(Completed, T.m)
               else AfterTest(w, p, T.m, fuel)
  {
  }

  lemma OutOfFuelSimulates(w: World, code: seq<Instr>, s0: State, end: nat)
    requires s0.Running?
    ensures Simulates(w, code, s0, end, OutOfFuel, 0, 0)
  {
  }

  /** What is left of a turn after its test held, and the turns after it. */
  function AfterTest(w: World, p: LoopCode, m: Memory, fuel: nat): XResult
    requires fuel > 0
  {
    var B := Exec(w, p.body, m, fuel);
    if !(B.Done? && B.o == Completed) then B
    else
      var N := EvalOptional(w, p.incr, B.m);
      if N.Done? then Loop(w, p.test, p.incr, p.body, N.m, fuel - 1) else N
  }

  lemma {:induction false} TurnCorrect(w: World, p: LoopCode, m: Memory, l: Local, code: seq<Instr>, pc: nat, fuel: nat)
      returns (n: nat)
    requires fuel > 0 && p.Ok(w, m, l) && p.At(code, pc) && UniqueLabels(code)
    ensures Simulates(w, code, Running(pc + 1 + |p.T().code|, l), pc + |p.Code()|, AfterTest(w, p, m, fuel), fuel, n)
    decreases fuel, p.body, 4
  {
    hide Lookup, Keys, Agrees, NamesOk, LowerExpr, LowerStmt, Exec, EvalExpr, EvalBin, LowerTest, LowerOptional, Loop;
    var pcB := pc + 1 + |p.T().code|;
    var pcN := pcB + |p.B().code|;
    var s0 := Running(pcB, l);
    n := StmtCorrect(w, p.body, p.T().g, m, l, code, pcB, fuel);
    var B := Exec(w, p.body, m, fuel);
    if B.Done? && B.o == Completed {
      ExecShape(w, p.body, m, fuel);
      TopApartFromInner(p.body);
      FreshAfter(p.body, m.frames, B.m.frames, TopDecls(p.body));
      var s1 := Run(w, code, s0, n);
      var n2 := NextTurn(w, p, B.m, s1.local, code, pc, fuel);
      SimulatesThen(w, code, s0, pcN, B.m, n, pc + |p.Code()|, AfterTest(w, p, m, fuel), fuel, fuel, n2);
      n := n + n2;
    }
  }

  lemma {:induction false} NextTurn(w: World, p: LoopCode, m: Memory, l: Local, code: seq<Instr>, pc: nat, fuel: nat)
      returns (n: nat)
    requires fuel > 0 && p.Ok(w, m, l) && p.At(code, pc) && UniqueLabels(code)
    ensures var N := EvalOptional(w, p.incr, m);
            var r := if N.Done? then Loop(w, p.test, p.incr, p.body, N.m, fuel - 1) else N;
            Simulates(w, code, Running(pc + 1 + |p.T().code| + |p.B().code|, l), pc + |p.Code()|, r, fuel, n)
    decreases fuel, p.body, 1
  {
    hide Lookup, Keys, Agrees, NamesOk, LowerExpr, LowerStmt, Exec, EvalExpr, EvalBin, LowerTest, LowerOptional, Loop;
    var pcN := pc + 1 + |p.T().code| + |p.B().code|;
    OptionalRuns(w, p.incr, p.B().g, m, l, code, pcN, fuel);
    n := |p.N().code|;
    var N := EvalOptional(w, p.incr, m);
    if N.Done? {
      OptionalShape(w, p.incr, m);
      FreshAfter(p.body, m.frames, N.m.frames, {});
      var s1 := Run(w, code, Running(pcN, l), n);
      TargetIsDefinition(code, pc);
      OneStep(w, code, s1);
      RunAdds(w, code, Running(pcN, l), n, 1);
      n := n + 1;
      var n2 := LoopCorrect(w, p, N.m, s1.local, code, pc, fuel - 1);
      SimulatesAfter(w, code, Running(pcN, l), n, Running(pc, s1.local), pc + |p.Code()|,
                     Loop(w, p.test, p.incr, p.body, N.m, fuel - 1), fuel, fuel - 1, n2);
      n := n + n2;
    }
  }

  lemma ForShape(init: Option<Expr>, p: LoopCode, g: GenState)
    requires var I := LowerOptional(init, g);
             p.lStart == LabelName(I.g.labels) && p.lEnd == LabelName(I.g.labels + 1)
             && p.g == I.g.(labels := I.g.labels + 2)
    ensures LowerStmt(ForStmt(init, p.test, p.incr, p.body), g).code == LowerOptional(init, g).code + p.Code()
  {
    hide LowerExpr, LowerTest, LowerOptional;
    var I := LowerOptional(init, g).code;
    var (t, b, n) := (p.T().code, p.B().code, p.N().code);
    var (head, tail) := ([LabelIR(p.lStart)], [GotoIR(p.lStart), LabelIR(p.lEnd)]);
    assert I + head + t + b + n + tail == I + (head + t + b + n + tail);
  }

  lemma {:induction false} ForCorrect(w: World, init: Option<Expr>, test: Option<Expr>, incr: Option<Expr>, body: Stmt,
                                      g: GenState, m: Memory, l: Local, code: seq<Instr>, pc: nat, fuel: nat)
      returns (n: nat)
    requires var s := ForStmt(init, test, incr, body);
             StmtOk(w, s, m, l) && HasCode(code, pc, LowerStmt(s, g).code) && UniqueLabels(code)
    ensures var s := ForStmt(init, test, incr, body);
            Simulates(w, code, Running(pc, l), pc + |LowerStmt(s, g).code|, Exec(w, s, m, fuel), fuel, n)
    decreases fuel, body, 6
  {
    hide *;
    var s := ForStmt(init, test, incr, body);
    var I := LowerOptional(init, g);
    var p := LoopCode(test, incr, body, LabelName(I.g.labels), LabelName(I.g.labels + 1),
                      I.g.(labels := I.g.labels + 2));
    var end := pc + |I.code| + |p.Code()|;
    var r := EvalOptional(w, init, m);
    var x := Exec(w, s, m, fuel);
    ExecOfFor(w, init, p, m, fuel);
    ForShape(init, p, g);
    ForHead(w, init, p, g, m, l, code, pc, fuel);
    n := |I.code|;
    if r.Done? {
      var s1 := Run(w, code, Running(pc, l), n);
      var n2 := LoopCorrect(w, p, r.m, s1.local, code, pc + n, fuel);
      SimulatesAfter(w, code, Running(pc, l), n, s1, end, x, fuel, fuel, n2);
      n := n + n2;
    } else {
      n := 0;
      MeaninglessSimulates(w, code, Running(pc, l), end, fuel);
    }
  }

  lemma ExecOfFor(w: World, init: Option<Expr>, p: LoopCode, m: Memory, fuel: nat)
    ensures var r := EvalOptional(w, init, m);
            Exec(w, ForStmt(init, p.test, p.incr, p.body), m, fuel)
            == if r.Done? then Loop(w, p.test, p.incr, p.body, r.m, fuel) else Undefined
  {
  }

  lemma ForHead(w: World, init: Option<Expr>, p: LoopCode, g: GenState, m: Memory, l: Local, code: seq<Instr>, pc: nat,
                fuel: nat)
    requires StmtOk(w, ForStmt(init, p.test, p.incr, p.body), m, l)
    requires HasCode(code, pc, LowerOptional(init, g).code + p.Code())
    ensures var n := |LowerOptional(init, g).code|;
            var s := Run(w, code, Running(pc, l), n);
            var r := EvalOptional(w, init, m);
            && p.At(code, pc + n)
            && (r.Done? ==>
                  s.Running? && s.pc == pc + n && s.local.params == l.params && p.Ok(w, r.m, s.local))
  {
    hide Lookup, Keys, Agrees, NamesOk, LowerExpr, LowerStmt, EvalExpr, LowerTest, Run, TopDecls, InnerDecls,
      NoHiding, ScalarExpr;
    var I := LowerOptional(init, g).code;
    HasCodeSplit(code, pc, I, p.Code());
    LoopLayout(p, code, pc + |I|);
    OptionalRuns(w, init, g, m, l, code, pc, fuel);
    var r := EvalOptional(w, init, m);
    if r.Done? {
      OptionalShape(w, init, m);
      LoopOk(w, init, p, m, l, r.m, Run(w, code, Running(pc, l), |I|).local);
    }
  }

  lemma LoopOk(w: World, init: Option<Expr>, p: LoopCode, m: Memory, l: Local, m': Memory, l': Local)
    requires StmtOk(w, ForStmt(init, p.test, p.incr, p.body), m, l)
    requires Grown(m.frames, m'.frames, {}) && Ready(m'.frames, m'.trace, l')
    ensures p.Ok(w, m', l')
  {
    FreshAfter(p.body, m.frames, m'.frames, {});
  }
}
