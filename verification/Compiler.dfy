/** From source to processor, function by function. */
module Compiler {
  // The assembly of a whole program, entered at one of its functions, returns what the source means,
  // by the rules of the procedure call standard.

  import opened Words
  import opened Ast
  import opened IrGenerator
  import opened IrMachine
  import opened RegisterAllocation
  import opened CodeGeneration
  import opened ArmMachine
  import opened ArmSimulation
  import opened ArmRuns
  import opened ArmDomain
  import Source
  import Domain
  import Labels
  import Lowering
  import Preservation
  import ArmLabels

  // ------------------------------------------------------------------ finding a function

  /** `lines` do not define the global label `x`. */
  ghost predicate Foreign(lines: seq<Line>, x: string) {
    forall k :: 0 <= k < |lines| ==> lines[k] != Label(x)
  }

  lemma {:induction false} FindPast(a: seq<Line>, b: seq<Line>, x: string)
    requires Foreign(a, x)
    ensures Find(a + b, x) == |a| + Find(b, x)
    decreases a
  {
    if a == [] {
      assert a + b == b;
    } else {
      assert (a + b)[1..] == a[1..] + b && (a + b)[0] == a[0];
      assert forall k :: 0 <= k < |a[1..]| ==> a[1..][k] == a[k + 1];
      FindPast(a[1..], b, x);
    }
  }

  lemma InstrForeign(m: Assignment, c: Context, i: Instr, x: string)
    requires GlobalName(x) && (i.FunctionEntryIR? ==> i.name != x) && (i.StringLiteralIR? ==> "str_" <= i.mark)
    ensures Foreign(GenInstr(m, c, i), x)
  {
    if !(i.LabelIR? || i.FunctionEntryIR? || i.FunctionExitIR? || i.StringLiteralIR?) {
      ArmLabels.NoLabelLines(m, c, i);
      hide GenInstr;
    } else if i.LabelIR? {
      assert "." <= MarkOf(c.fn, i.mark);
    } else if i.FunctionExitIR? {
      assert "." <= "." + i.name + "_epilogue";
    }
  }

  /** Code whose entries are not called `x`. */
  ghost predicate NotIn(code: seq<Instr>, x: string) {
    forall k :: 0 <= k < |code| ==>
      (code[k].FunctionEntryIR? ==> code[k].name != x) && (code[k].StringLiteralIR? ==> "str_" <= code[k].mark)
  }

  lemma {:induction false} CodeForeign(m: Assignment, c: Context, code: seq<Instr>, x: string)
    requires GlobalName(x) && NotIn(code, x)
    ensures Foreign(GenCode(m, c, code), x)
    decreases code
  {
    if code != [] {
      assert forall k :: 0 <= k < |code[1..]| ==> code[1..][k] == code[k + 1];
      InstrForeign(m, c, code[0], x);
      CodeForeign(m, Next(c, code[0]), code[1..], x);
    }
  }

  /** A generated function with another name. */
  lemma FunctionForeign(m: Assignment, f: Function, g: GenState, x: string)
    requires f.body != [] && ArmLabels.StringsPlain(g) && GlobalName(x) && f.name != x
    ensures Foreign(GenCode(m, Context("", []), LowerFunction(f, g).code), x)
  {
    var g0 := g.(temps := 0, labels := 0);
    ArmLabels.StmtsShape(f.body, g0);
    hide LowerStmts;
    CodeForeign(m, Context("", []), LowerFunction(f, g).code, x);
  }

  lemma {:induction false} ProgramForeign(maps: seq<Assignment>, fs: seq<Function>, g: GenState, x: string)
    requires ArmLabels.WellNamed(fs) && ArmLabels.StringsPlain(g) && |maps| == |fs| && GlobalName(x)
    requires forall k :: 0 <= k < |fs| ==> fs[k].name != x
    ensures |ArmLabels.Lowered(fs, g)| == |fs| && Foreign(GenProgram(maps, ArmLabels.Lowered(fs, g)), x)
    decreases fs
  {
    hide GenCode, LowerFunction, ArmLabels.StringsPlain;
    ArmLabels.LoweredSize(fs, g);
    if fs != [] {
      var n := |fs| - 1;
      ProgramForeign(maps[..n], fs[..n], g, x);
      ArmLabels.StatePlain(fs[..n], g);
      FunctionForeign(maps[n], fs[n], ArmLabels.LoweredState(fs[..n], g), x);
      assert ArmLabels.Lowered(fs, g)[..n] == ArmLabels.Lowered(fs[..n], g);
    }
  }

  // ------------------------------------------------------------------ one function of a program

  /** Where the code of function `i` starts. */
  function BaseOf(maps: seq<Assignment>, codes: seq<seq<Instr>>, i: nat): nat
    requires |maps| == |codes| && i <= |codes|
  {
    |HEADER| + |GenProgram(maps[..i], codes[..i])|
  }

  lemma {:induction false} ProgramSplit(maps: seq<Assignment>, codes: seq<seq<Instr>>, i: nat) returns (rest: seq<Line>)
    requires |maps| == |codes| && i < |codes|
    ensures GenProgram(maps, codes)
            == GenProgram(maps[..i], codes[..i]) + (GenCode(maps[i], Context("", []), codes[i]) + rest)
    decreases codes
  {
    hide GenCode;
    var n := |codes| - 1;
    if i == n {
      rest := [];
      assert GenCode(maps[i], Context("", []), codes[i]) + [] == GenCode(maps[i], Context("", []), codes[i]);
    } else {
      var r := ProgramSplit(maps[..n], codes[..n], i);
      assert maps[..n][..i] == maps[..i] && codes[..n][..i] == codes[..i];
      rest := r + GenCode(maps[n], Context("", []), codes[n]);
    }
  }

  lemma {:induction false} LoweredAt(fs: seq<Function>, g: GenState, i: nat)
    requires i < |fs|
    ensures |ArmLabels.Lowered(fs, g)| == |fs|
    ensures ArmLabels.Lowered(fs, g)[i] == LowerFunction(fs[i], ArmLabels.LoweredState(fs[..i], g)).code
    ensures ArmLabels.Lowered(fs, g)[..i] == ArmLabels.Lowered(fs[..i], g)
    decreases fs
  {
    hide LowerFunction;
    ArmLabels.LoweredSize(fs, g);
    var n := |fs| - 1;
    ArmLabels.LoweredSize(fs[..n], g);
    assert ArmLabels.Lowered(fs, g)[..n] == ArmLabels.Lowered(fs[..n], g);
    if i < n {
      LoweredAt(fs[..n], g, i);
      assert fs[..n][..i] == fs[..i];
      assert ArmLabels.Lowered(fs, g)[..i] == ArmLabels.Lowered(fs, g)[..n][..i];
    }
  }

  /** What the code generator answers. */
  ghost predicate Emitted(fs: seq<Function>, g: GenState, maps: seq<Assignment>, p: seq<Line>) {
    && ArmLabels.StringsPlain(g) && |maps| == |fs|
    && |ArmLabels.Lowered(fs, g)| == |fs|
    && p == HEADER + GenProgram(maps, ArmLabels.Lowered(fs, g))
    && (forall k :: 0 <= k < |fs| ==> GoodMap(maps[k], ArmLabels.Lowered(fs, g)[k]))
  }

  /** The assembly of a program that can be loaded: no two functions have the same name, none that
      of the division runtime. */
  ghost predicate IsAssembly(fs: seq<Function>, g: GenState, maps: seq<Assignment>, p: seq<Line>) {
    && ArmLabels.WellNamed(fs) && Emitted(fs, g, maps, p) && |p| < TWO32
    && !Defines(fs, "__aeabi_idiv") && !Defines(fs, "__aeabi_idivmod")
  }

  ghost predicate Defines(fs: seq<Function>, x: string) {
    exists k :: 0 <= k < |fs| && fs[k].name == x
  }

  /** A function the target can run: eight names at most, counting temporaries. */
  ghost predicate Targetable(arity: Arity, f: Function, g: GenState) {
    f.body != [] && StmtsFit(arity, f.body) && GlobalName(f.name)
    && |AllUses(Context("", []), LowerFunction(f, g).code)| <= 8
  }

  /** The generator's state when it comes to function `i`. */
  function StateAt(fs: seq<Function>, g: GenState, i: nat): GenState
    requires i < |fs|
  {
    ArmLabels.LoweredState(fs[..i], g)
  }

  lemma HeaderLocals(maps: seq<Assignment>, fs: seq<Function>, g: GenState, p: seq<Line>)
    requires IsAssembly(fs, g, maps, p)
    ensures ArmLabels.UniqueLocals(p)
  {
    hide GenProgram, LowerFunction, ArmLabels.WellNamed, ArmLabels.StringsPlain;
    ArmLabels.ProgramLocals(maps, fs, g);
    assert ArmLabels.Locals(HEADER) == {} && ArmLabels.UniqueLocals(HEADER);
    ArmLabels.LocalsJoin(HEADER, GenProgram(maps, ArmLabels.Lowered(fs, g)));
  }

  lemma FunctionAt(maps: seq<Assignment>, fs: seq<Function>, g: GenState, p: seq<Line>, i: nat)
    requires IsAssembly(fs, g, maps, p) && i < |fs|
    ensures var codes := ArmLabels.Lowered(fs, g);
            && codes[i] == LowerFunction(fs[i], StateAt(fs, g, i)).code
            && HasLines(p, BaseOf(maps, codes, i), GenCode(maps[i], Context("", []), codes[i]))
            && (GlobalName(fs[i].name) ==> Find(p, fs[i].name) == BaseOf(maps, codes, i) + 2)
            && ArmLabels.StringsPlain(StateAt(fs, g, i)) && fs[i].body != []
  {
    hide LowerFunction, GenCode, ArmLabels.StringsPlain, GlobalName, GenProgram, GoodMap;
    var codes := ArmLabels.Lowered(fs, g);
    LoweredAt(fs, g, i);
    var rest := ProgramSplit(maps, codes, i);
    var (before, own) := (GenProgram(maps[..i], codes[..i]), GenCode(maps[i], Context("", []), codes[i]));
    assert p == (HEADER + before) + (own + rest);
    assert p[|HEADER + before|..|HEADER + before| + |own|] == own;
    ArmLabels.StatePlain(fs[..i], g);
    var x := fs[i].name;
    if GlobalName(x) {
      ProgramForeign(maps[..i], fs[..i], g, x);
      HeaderForeign(before, x);
      FindPast(HEADER + before, own + rest, x);
      EntryFirst(maps[i], fs[i], StateAt(fs, g, i), rest);
    }
  }

  /** A name none of the functions has is no function of the program. */
  lemma NotInside(maps: seq<Assignment>, fs: seq<Function>, g: GenState, p: seq<Line>, x: string)
    requires ArmLabels.WellNamed(fs) && Emitted(fs, g, maps, p) && GlobalName(x) && !Defines(fs, x)
    ensures !Inside(p, x)
  {
    hide GenProgram, GlobalName, ArmLabels.WellNamed, ArmLabels.StringsPlain, GoodMap;
    var body := GenProgram(maps, ArmLabels.Lowered(fs, g));
    ProgramForeign(maps, fs, g, x);
    HeaderForeign(body, x);
    FindPast(HEADER + body, [], x);
    assert p == HEADER + body + [];
  }

  lemma AssemblyLoadable(maps: seq<Assignment>, fs: seq<Function>, g: GenState, p: seq<Line>)
    requires IsAssembly(fs, g, maps, p)
    ensures Loadable(p)
  {
    hide Emitted, Inside, ArmLabels.WellNamed;
    assert "__aeabi_idiv"[0] == "__aeabi_idivmod"[0] == '_';
    NotInside(maps, fs, g, p, "__aeabi_idiv");
    NotInside(maps, fs, g, p, "__aeabi_idivmod");
  }

  lemma HeaderForeign(before: seq<Line>, x: string)
    requires Foreign(before, x)
    ensures Foreign(HEADER + before, x)
  {
  }

  lemma EntryFirst(m: Assignment, f: Function, g: GenState, rest: seq<Line>)
    requires f.body != []
    ensures Find(GenCode(m, Context("", []), LowerFunction(f, g).code) + rest, f.name) == 2
  {
    hide LowerStmts;
    var code := LowerFunction(f, g).code;
    assert code[0] == FunctionEntryIR(f.name);
    EntryPrefix(m, code, rest);
  }

  lemma EntryPrefix(m: Assignment, code: seq<Instr>, rest: seq<Line>)
    requires code != [] && code[0].FunctionEntryIR?
    ensures Find(GenCode(m, Context("", []), code) + rest, code[0].name) == 2
  {
    var (c, x) := (Context("", []), code[0].name);
    var tail := GenCode(m, Next(c, code[0]), code[1..]) + rest;
    var a := [Text(".global " + x), Text(".type " + x + ", %function")];
    var b := [Label(x), Text("@ Function prologue"), PushSaved, Text("@ Stack frame allocation (placeholder)")];
    assert GenInstr(m, c, code[0]) == a + b;
    assert GenCode(m, c, code) == GenInstr(m, c, code[0]) + GenCode(m, Next(c, code[0]), code[1..]);
    hide GenCode, GenInstr, Next;
    Regrouped(a, b, GenCode(m, Next(c, code[0]), code[1..]), rest);
    assert Find(b + tail, x) == 0;
    FindPast(a, b + tail, x);
  }

  lemma Regrouped<T>(a: seq<T>, b: seq<T>, c: seq<T>, d: seq<T>)
    ensures ((a + b) + c) + d == a + (b + (c + d))
  {
  }

  /** Everything the simulation needs holds of a targetable function. */
  lemma FunctionCompiled(w: World, arity: Arity, fs: seq<Function>, g: GenState, maps: seq<Assignment>, p: seq<Line>,
                         i: nat)
    requires MachineWorld(w) && IsAssembly(fs, g, maps, p) && i < |fs| && Targetable(arity, fs[i], StateAt(fs, g, i))
    ensures var codes := ArmLabels.Lowered(fs, g);
            && Find(p, fs[i].name) == BaseOf(maps, codes, i) + 2
            && codes[i] == LowerFunction(fs[i], StateAt(fs, g, i)).code && |codes[i]| > 1
            && Compiled(w, arity, maps[i], fs[i].name, codes[i], p, BaseOf(maps, codes, i))
  {
    hide *;
    var f := fs[i];
    var g1 := StateAt(fs, g, i);
    TargetMeans(arity, f, g1);
    FunctionAt(maps, fs, g, p, i);
    AssemblyMaps(fs, g, maps, p, i);
    var (m, code) := (maps[i], ArmLabels.Lowered(fs, g)[i]);
    HeaderLocals(maps, fs, g, p);
    AssemblyLoadable(maps, fs, g, p);
    FunctionShaped(arity, f, g1);
    GoodMeans(m, code);
    LeadsShaped(arity, code, Context(f.name, []));
    Labels.FunctionLabels(f, g1);
    FunctionEnds(f, g1);
    forall k | 0 <= k < |code|
      ensures InstrOk(arity, m, CtxAt(code, k), code[k])
    {
      InstrsOk(arity, m, code, k);
    }
    AllCompiled(w, arity, m, f.name, code, p, BaseOf(maps, ArmLabels.Lowered(fs, g), i));
  }

  lemma AllCompiled(w: World, arity: Arity, m: Assignment, fn: string, code: seq<Instr>, p: seq<Line>, base: nat)
    requires MapOk(m) && MachineWorld(w) && HasLines(p, base, GenCode(m, Context("", []), code))
             && ArmLabels.UniqueLocals(p)
    requires Loadable(p)
    requires |code| > 0 && code[0] == FunctionEntryIR(fn) && code[|code| - 1] == FunctionExitIR(fn)
    requires Labels.UniqueLabels(code) && Labels.Jumps(code) <= Labels.Defined(code)
    requires forall k :: 0 < k < |code| ==> !code[k].FunctionEntryIR?
    requires forall k :: 0 <= k < |code| - 1 ==> !code[k].FunctionExitIR?
    requires forall k :: 0 <= k < |code| ==> InstrOk(arity, m, CtxAt(code, k), code[k])
    ensures Compiled(w, arity, m, fn, code, p, base)
  {
    hide InstrOk, MapOk, MachineWorld, HasLines, GenCode, ArmLabels.UniqueLocals, Labels.UniqueLabels, Loadable;
  }

  lemma TargetMeans(arity: Arity, f: Function, g: GenState)
    requires Targetable(arity, f, g)
    ensures f.body != [] && StmtsFit(arity, f.body) && GlobalName(f.name)
    ensures |AllUses(Context("", []), LowerFunction(f, g).code)| <= 8
  {
  }

  lemma AssemblyMaps(fs: seq<Function>, g: GenState, maps: seq<Assignment>, p: seq<Line>, i: nat)
    requires IsAssembly(fs, g, maps, p) && i < |fs|
    ensures |maps| == |fs| && |ArmLabels.Lowered(fs, g)| == |fs| && GoodMap(maps[i], ArmLabels.Lowered(fs, g)[i])
  {
  }

  lemma GoodMeans(m: Assignment, code: seq<Instr>)
    requires GoodMap(m, code) && |AllUses(Context("", []), code)| <= 8
    ensures MapOk(m) && AllUses(Context("", []), code) <= m.Keys
  {
  }

  lemma LeadsShaped(arity: Arity, code: seq<Instr>, d: Context)
    requires Leads(arity, Context("", []), code, d)
    ensures AllShaped(arity, Context("", []), code)
  {
  }

  lemma FunctionEnds(f: Function, g: GenState)
    requires f.body != [] && ArmLabels.StringsPlain(g)
    ensures var code := LowerFunction(f, g).code;
            && |code| > 1 && code[0] == FunctionEntryIR(f.name) && code[|code| - 1] == FunctionExitIR(f.name)
            && (forall k :: 0 < k < |code| ==> !code[k].FunctionEntryIR?)
            && (forall k :: 0 <= k < |code| - 1 ==> !code[k].FunctionExitIR?)
  {
    var g0 := g.(temps := 0, labels := 0);
    ArmLabels.StmtsShape(f.body, g0);
    hide LowerStmts;
  }

  // ------------------------------------------------------------------ the whole compiler

  /** The processor is about to run `f`: `room` bytes of stack besides its frame, no call made yet
      that `m` lacks. */
  ghost predicate Called(p: seq<Line>, f: Function, m: Source.Memory, t: ArmState, room: nat) {
    && t.At? && t.pc == Find(p, f.name) && Unsigned(t.cpu.regs[SP]) >= room + 36
    && m.frames == [map[]] && t.cpu.trace == m.trace
  }

  /** Back from the call made in state `t`, by the rules: at the return address, with r4-r11, sp and
      the caller's memory as they were, the value in r0, and the calls `trace` made. */
  ghost predicate CameBack(p: seq<Line>, t: Cpu, s: ArmState, v: Option<word>, trace: seq<Event>) {
    && !s.Fault? && s == Land(p, t.regs[LR], s.cpu) && s.cpu.regs[4..12] == t.regs[4..12]
       && s.cpu.regs[SP] == t.regs[SP]
    && (forall a :: a in t.mem && a >= Unsigned(t.regs[SP]) ==> a in s.cpu.mem && s.cpu.mem[a] == t.mem[a])
    && (v.Some? ==> s.cpu.regs[0] == v.value) && s.cpu.trace == trace
  }

  ghost predicate Answers(w: World, arity: Arity, p: seq<Line>, t: ArmState, v: Option<word>, trace: seq<Event>)
    requires t.At?
  {
    exists n: nat :: CameBack(p, t.cpu, Execute(w, arity, p, t, n), v, trace)
  }

  /** A function in the domain of both halves of the compiler. */
  ghost predicate InDomain(w: World, arity: Arity, f: Function, g: GenState) {
    && MachineWorld(w) && Targetable(arity, f, g) && Domain.ScalarStmts(w, f.body) && Domain.NoHidingIn(f.body)
  }

  lemma ReturnsIsCameBack(p: seq<Line>, t: Cpu, s: ArmState, v: Option<word>, trace: seq<Event>)
    requires Unsigned(t.regs[SP]) >= 36 && FrameOk(EntryFrame(t)) && Returns(p, s, v, trace, EntryFrame(t))
    ensures CameBack(p, t, s, v, trace)
  {
    var saved := SavedRegs(t.regs);
    assert saved[..8] == t.regs[4..12];
    SameWord(s.cpu.regs[SP], t.regs[SP]);
  }

  lemma SameWord(a: word, b: word)
    requires Unsigned(a) == Unsigned(b)
    ensures a == b
  {
  }

  /** The three-address machine and the assembly, from the entry on, any number of steps. */
  lemma EntrySimulated(w: World, arity: Arity, m: Assignment, fn: string, code: seq<Instr>, p: seq<Line>, base: nat,
                       cpu: Cpu, steps: nat)
      returns (n: nat)
    requires Compiled(w, arity, m, fn, code, p, base) && Unsigned(cpu.regs[SP]) >= 36 && |code| > 1
    requires code[0].FunctionEntryIR? && Serves(w, arity, p, Unsigned(cpu.regs[SP]) - 36)
    ensures FrameOk(EntryFrame(cpu))
    ensures var s := IrMachine.Run(w, code, Running(0, Local(EntryStore(m, cpu), [], cpu.trace)), steps + 1);
            && Follows(m, code, p, base, s, Execute(w, arity, p, At(base + 2, cpu), n), EntryFrame(cpu))
            && (s.Running? ==> n * |code| + s.pc >= steps)
  {
    hide *;
    var l := Local(EntryStore(m, cpu), [], cpu.trace);
    var fr := EntryFrame(cpu);
    EntryRoom(cpu);
    var t := ArmRuns.EntryRuns(w, arity, m, fn, code, p, base, cpu);
    var n1 := RunSimulated(w, arity, m, fn, code, p, base, 1, l, t, fr, steps);
    ExecuteAdds(w, arity, p, At(base + 2, cpu), 4, n1);
    RunUnfolds(w, code, Running(0, l), steps + 1);
    EntryStep(w, code, l);
    n := 4 + n1;
    Longer(n1, 4, |code|);
  }

  lemma EntryRoom(cpu: Cpu)
    ensures EntryFrame(cpu).sp == Unsigned(cpu.regs[SP]) - 36
  {
  }

  lemma Longer(a: nat, b: nat, c: nat)
    ensures (b + a) * c >= a * c
  {
  }

  lemma EntryStep(w: World, code: seq<Instr>, l: Local)
    requires |code| > 0 && code[0].FunctionEntryIR?
    ensures IrMachine.Step(w, code, Running(0, l)) == Running(1, l)
  {
  }

  /** Nothing declared yet: any registers agree with the source memory. */
  lemma Begins(w: World, f: Function, m: Source.Memory, l: Local)
    requires f.body != [] && Domain.ScalarStmts(w, f.body) && Domain.NoHidingIn(f.body)
    requires m.frames == [map[]] && l.params == [] && l.trace == m.trace
    ensures Preservation.Starts(w, f, m, l)
  {
    assert m.frames[..0] == [];
    assert Domain.Keys(m.frames) == {};
    assert forall x :: Source.Lookup(m.frames, x).None?;
  }

  /** The compiler is correct, function by function: when calls of other functions of the program do
      what the source takes them to do, whatever the source function means its assembly does, and
      then returns to its caller by the rules. */
  lemma CompilerCorrect(w: World, arity: Arity, fs: seq<Function>, g: GenState, maps: seq<Assignment>, p: seq<Line>,
                        i: nat, m: Source.Memory, t: ArmState, room: nat, v: Option<word>, m': Source.Memory)
    requires IsAssembly(fs, g, maps, p) && i < |fs| && InDomain(w, arity, fs[i], StateAt(fs, g, i))
    requires Called(p, fs[i], m, t, room) && Serves(w, arity, p, room)
    requires Preservation.Means(w, fs[i].body, m, v, m')
    ensures Answers(w, arity, p, t, v, m'.trace)
  {
    hide *;
    var f := fs[i];
    DomainMeans(w, arity, f, StateAt(fs, g, i));
    CalledMeans(p, f, m, t, room);
    MoreRoom(w, arity, p, room, Unsigned(t.cpu.regs[SP]) - 36);
    FunctionCompiled(w, arity, fs, g, maps, p, i);
    AssemblyMaps(fs, g, maps, p, i);
    var code := ArmLabels.Lowered(fs, g)[i];
    var base := BaseOf(maps, ArmLabels.Lowered(fs, g), i);
    CompiledMeans(w, arity, maps[i], f.name, code, p, base, 0);
    var l := Local(EntryStore(maps[i], t.cpu), [], t.cpu.trace);
    Begins(w, f, m, l);
    Preservation.MeaningPreserved(w, f, StateAt(fs, g, i), m, l, v, m');
    var l' :| Preservation.Halts(w, code, l, v, l') && Lowering.Ready(m'.frames, m'.trace, l');
    ReadyTrace(m', l');
    var steps := HaltSteps(w, code, l, v, l');
    var n := EntrySimulated(w, arity, maps[i], f.name, code, p, base, t.cpu, steps - 1);
    FollowsMeans(maps[i], code, p, base, Returned(v, l'), Execute(w, arity, p, t, n), EntryFrame(t.cpu));
    ReturnsIsCameBack(p, t.cpu, Execute(w, arity, p, t, n), v, m'.trace);
    AnswersBy(w, arity, p, t, v, m'.trace, n);
  }

  lemma AnswersBy(w: World, arity: Arity, p: seq<Line>, t: ArmState, v: Option<word>, trace: seq<Event>, n: nat)
    requires t.At? && CameBack(p, t.cpu, Execute(w, arity, p, t, n), v, trace)
    ensures Answers(w, arity, p, t, v, trace)
  {
  }

  lemma HaltSteps(w: World, code: seq<Instr>, l: Local, v: Option<word>, l': Local) returns (n: nat)
    requires Preservation.Halts(w, code, l, v, l')
    ensures n > 0 && IrMachine.Run(w, code, Running(0, l), n) == Returned(v, l')
  {
    n :| IrMachine.Run(w, code, Running(0, l), n) == Returned(v, l');
  }

  lemma ReadyTrace(m: Source.Memory, l: Local)
    requires Lowering.Ready(m.frames, m.trace, l)
    ensures l.trace == m.trace
  {
  }

  lemma DomainMeans(w: World, arity: Arity, f: Function, g: GenState)
    requires InDomain(w, arity, f, g)
    ensures MachineWorld(w) && Targetable(arity, f, g) && Domain.ScalarStmts(w, f.body) && Domain.NoHidingIn(f.body)
    ensures f.body != []
  {
  }

  lemma MoreRoom(w: World, arity: Arity, p: seq<Line>, less: nat, room: nat)
    requires Serves(w, arity, p, less) && less <= room
    ensures Serves(w, arity, p, room)
  {
    hide ComesBack, Inside, GlobalName;
  }

  lemma CalledMeans(p: seq<Line>, f: Function, m: Source.Memory, t: ArmState, room: nat)
    requires Called(p, f, m, t, room)
    ensures t == At(Find(p, f.name), t.cpu) && Unsigned(t.cpu.regs[SP]) >= room + 36
    ensures m.frames == [map[]] && t.cpu.trace == m.trace
  {
  }

  /** When the source runs for ever, so does the assembly: it is inside the program after any
      number of steps, and never faults. */
  lemma DivergenceCompiled(w: World, arity: Arity, fs: seq<Function>, g: GenState, maps: seq<Assignment>, p: seq<Line>,
                           i: nat, m: Source.Memory, t: ArmState, room: nat, k: nat)
    requires IsAssembly(fs, g, maps, p) && i < |fs| && InDomain(w, arity, fs[i], StateAt(fs, g, i))
    requires Called(p, fs[i], m, t, room) && Serves(w, arity, p, room) && Preservation.Diverges(w, fs[i].body, m)
    ensures Execute(w, arity, p, t, k).At?
  {
    hide *;
    var f := fs[i];
    DomainMeans(w, arity, f, StateAt(fs, g, i));
    CalledMeans(p, f, m, t, room);
    MoreRoom(w, arity, p, room, Unsigned(t.cpu.regs[SP]) - 36);
    FunctionCompiled(w, arity, fs, g, maps, p, i);
    AssemblyMaps(fs, g, maps, p, i);
    var code := ArmLabels.Lowered(fs, g)[i];
    var base := BaseOf(maps, ArmLabels.Lowered(fs, g), i);
    CompiledMeans(w, arity, maps[i], f.name, code, p, base, 0);
    var l := Local(EntryStore(maps[i], t.cpu), [], t.cpu.trace);
    Begins(w, f, m, l);
    var steps := (k + 1) * |code|;
    Preservation.DivergencePreserved(w, f, StateAt(fs, g, i), m, l, steps + 1);
    var n := EntrySimulated(w, arity, maps[i], f.name, code, p, base, t.cpu, steps);
    var s := IrMachine.Run(w, code, Running(0, l), steps + 1);
    FollowsMeans(maps[i], code, p, base, s, Execute(w, arity, p, t, n), EntryFrame(t.cpu));
    StandingMeans(maps[i], code, base, s.pc, s.local, Execute(w, arity, p, t, n), EntryFrame(t.cpu));
    ManyLines(n, k, |code|, s.pc);
    AtBefore(w, arity, p, t, k, n);
  }

  lemma ManyLines(n: nat, k: nat, size: nat, pc: nat)
    requires n * size + pc >= (k + 1) * size && pc < size
    ensures n >= k
  {
    if n < k {
      Times(n + 1, k + 1, size);
    }
  }

  lemma Times(a: nat, b: nat, c: nat)
    requires a <= b
    ensures a * c <= b * c
  {
  }

  /** Still inside after n steps means inside after every fewer. */
  lemma AtBefore(w: World, arity: Arity, p: seq<Line>, t: ArmState, k: nat, n: nat)
    requires k <= n && Execute(w, arity, p, t, n).At?
    ensures Execute(w, arity, p, t, k).At?
  {
    ExecuteAdds(w, arity, p, t, k, n - k);
    if !Execute(w, arity, p, t, k).At? {
      OutStays(w, arity, p, Execute(w, arity, p, t, k), n - k);
    }
  }

  lemma {:induction false} OutStays(w: World, arity: Arity, p: seq<Line>, s: ArmState, n: nat)
    requires !s.At?
    ensures Execute(w, arity, p, s, n) == s
    decreases n
  {
    if n > 0 {
      OutStays(w, arity, p, s, n - 1);
    }
  }

  /** Nothing is added: when the source has no undefined behaviour and the function is called from
      outside, the state in which the assembly leaves the program is one the source means. */
  lemma CompilerReflected(w: World, arity: Arity, fs: seq<Function>, g: GenState, maps: seq<Assignment>, p: seq<Line>,
                          i: nat, m: Source.Memory, t: ArmState, room: nat, k: nat)
      returns (v: Option<word>, m': Source.Memory)
    requires IsAssembly(fs, g, maps, p) && i < |fs| && InDomain(w, arity, fs[i], StateAt(fs, g, i))
    requires Called(p, fs[i], m, t, room) && Serves(w, arity, p, room) && Preservation.NeverUndefined(w, fs[i].body, m)
    requires Unsigned(t.cpu.regs[LR]) >= |p|
    requires !Execute(w, arity, p, t, k).At?
    ensures Preservation.Means(w, fs[i].body, m, v, m') && CameBack(p, t.cpu, Execute(w, arity, p, t, k), v, m'.trace)
  {
    hide *;
    if Preservation.Diverges(w, fs[i].body, m) {
      DivergenceCompiled(w, arity, fs, g, maps, p, i, m, t, room, k);
      assert false;
    }
    v, m' := EndsSomehow(w, fs[i].body, m);
    CompilerCorrect(w, arity, fs, g, maps, p, i, m, t, room, v, m');
    CalledMeans(p, fs[i], m, t, room);
    BackIsEnd(w, arity, p, t, v, m'.trace, k);
  }

  /** A body that neither runs for ever nor loses its meaning ends. */
  lemma EndsSomehow(w: World, body: seq<Stmt>, m: Source.Memory) returns (v: Option<word>, m': Source.Memory)
    requires !Preservation.Diverges(w, body, m) && Preservation.NeverUndefined(w, body, m)
    ensures Preservation.Means(w, body, m, v, m')
  {
    hide Source.ExecSeq;
    var fuel: nat :| !Source.ExecSeq(w, body, m, fuel).OutOfFuel?;
    var r := Source.ExecSeq(w, body, m, fuel);
    v, m' := if r.o.Returning? then r.o.value else None, r.m;
    assert Preservation.Ends(w, body, m, fuel, v, m');
  }

  /** Back outside the program is where the run stops. */
  lemma BackIsEnd(w: World, arity: Arity, p: seq<Line>, t: ArmState, v: Option<word>, trace: seq<Event>, k: nat)
    requires t.At? && Answers(w, arity, p, t, v, trace) && !Execute(w, arity, p, t, k).At?
    requires Unsigned(t.cpu.regs[LR]) >= |p|
    ensures CameBack(p, t.cpu, Execute(w, arity, p, t, k), v, trace)
  {
    hide Execute;
    var n: nat :| CameBack(p, t.cpu, Execute(w, arity, p, t, n), v, trace);
    if n <= k {
      ExecuteAdds(w, arity, p, t, n, k - n);
      OutStays(w, arity, p, Execute(w, arity, p, t, n), k - n);
    } else {
      ExecuteAdds(w, arity, p, t, k, n - k);
      OutStays(w, arity, p, Execute(w, arity, p, t, k), n - k);
    }
  }

  // ------------------------------------------------------------------ running the compiler

  /** No parameter waits after the code of an expression if none did before. */
  ghost predicate Calm(c: Context, code: seq<Instr>) {
    After(c, code) == c || After(c, code) == c.(pend := [])
  }

  lemma CalmJoin(c: Context, a: seq<Instr>, b: seq<Instr>)
    requires Calm(c, a) && Calm(After(c, a), b)
    ensures Calm(c, a + b)
  {
    AfterAppend(c, a, b);
  }

  lemma CalmTail(c: Context, code: seq<Instr>)
    requires forall k :: 0 <= k < |code| ==> !code[k].FunctionEntryIR? && !code[k].ParamIR?
    ensures Calm(c, code)
    decreases code
  {
    if code != [] {
      assert forall k :: 0 <= k < |code[1..]| ==> code[1..][k] == code[k + 1];
      CalmTail(Next(c, code[0]), code[1..]);
    }
  }

  lemma {:induction false} ExprCalm(e: Expr, g: GenState, c: Context)
    ensures Calm(c, LowerExpr(e, g).code)
    decreases e, 1
  {
    hide Calm, After, LowerArgs, LowerElementStore;
    CalmTail(c, []);
    match e
    case BinaryOp(op, l, r) =>
      var L := LowerExpr(l, g);
      var R := LowerExpr(r, L.g);
      ExprCalm(l, g, c);
      ExprCalm(r, L.g, After(c, L.code));
      CalmJoin(c, L.code, R.code);
      CalmEnd(c, L.code + R.code, [BinaryOpIR(TempName(R.g.temps), op, L.result, R.result)]);
    case UnaryOp(op, a) =>
      var A := LowerExpr(a, g);
      var t := TempName(A.g.temps);
      ExprCalm(a, g, c);
      CalmEnd(c, A.code, [if op == Deref then LoadIR(t, A.result) else UnaryOpIR(t, op, A.result)]);
    case Assignment(t, v) =>
      var V := LowerExpr(v, g);
      ExprCalm(v, g, c);
      if t.Identifier? {
        CalmEnd(c, V.code, [AssignIR(t.name, V.result)]);
      } else if t.ArrayAccess? {
        StoreCalm(t, V.result, V.g, After(c, V.code));
        CalmJoin(c, V.code, LowerElementStore(t, V.result, V.g).code);
      } else if t.UnaryOp? && t.uop == Deref {
        var P := LowerExpr(t.operand, V.g);
        ExprCalm(t.operand, V.g, After(c, V.code));
        CalmJoin(c, V.code, P.code);
        CalmEnd(c, V.code + P.code, [StoreIR(P.result, V.result)]);
      }
    case FunctionCall(f, args) =>
      var A := LowerArgs(args, g);
      var call := CallIR(TempName(A.g.temps), f, |args|);
      ArgsStay(args, g, c);
      CallCalms(c, A.code, call);
    case ArrayAccess(a, i) =>
      var A := LowerExpr(a, g);
      var I := LowerExpr(i, A.g);
      var (t, u) := (TempName(I.g.temps), TempName(I.g.temps + 1));
      ExprCalm(a, g, c);
      ExprCalm(i, A.g, After(c, A.code));
      CalmJoin(c, A.code, I.code);
      CalmEnd(c, A.code + I.code, [BinaryOpIR(t, Add, A.result, I.result), LoadIR(u, t)]);
    case StringLiteral(s) => CalmTail(c, LowerExpr(e, g).code);
    case _ =>
  }

  lemma CalmEnd(c: Context, a: seq<Instr>, b: seq<Instr>)
    requires Calm(c, a) && forall k :: 0 <= k < |b| ==> !b[k].FunctionEntryIR? && !b[k].ParamIR?
    ensures Calm(c, a + b)
  {
    CalmTail(After(c, a), b);
    CalmJoin(c, a, b);
  }

  lemma CallCalms(c: Context, a: seq<Instr>, call: Instr)
    requires After(c, a).fn == c.fn && call.CallIR?
    ensures Calm(c, a + [call])
  {
    AfterAppend(c, a, [call]);
    GenOne(map[], After(c, a), call);
  }

  lemma {:induction false} StoreCalm(t: Expr, value: string, g: GenState, c: Context)
    requires t.ArrayAccess?
    ensures Calm(c, LowerElementStore(t, value, g).code)
    decreases t, 0
  {
    hide Calm, After, LowerExpr;
    var A := LowerExpr(t.base, g);
    var I := LowerExpr(t.index, A.g);
    var u := TempName(I.g.temps);
    ExprCalm(t.base, g, c);
    ExprCalm(t.index, A.g, After(c, A.code));
    CalmJoin(c, A.code, I.code);
    CalmEnd(c, A.code + I.code, [BinaryOpIR(u, Add, A.result, I.result), StoreIR(u, value)]);
  }

  lemma {:induction false} ArgsStay(es: seq<Expr>, g: GenState, c: Context)
    ensures After(c, LowerArgs(es, g).code).fn == c.fn
    decreases es, 0
  {
    hide LowerExpr, After;
    if es == [] {
      assert After(c, []) == c by {
        AfterNone(c);
      }
    } else {
      var A := LowerExpr(es[0], g);
      var p := ParamIR(A.result);
      ExprCalm(es[0], g, c);
      AfterAppend(c, A.code, [p]);
      GenOne(map[], After(c, A.code), p);
      var d := After(c, A.code + [p]);
      ArgsStay(es[1..], A.g, d);
      AfterAppend(c, A.code + [p], LowerArgs(es[1..], A.g).code);
    }
  }

  lemma AfterNone(c: Context)
    ensures After(c, []) == c
  {
  }

  lemma OptionalCalm(e: Option<Expr>, g: GenState, c: Context)
    ensures Calm(c, LowerOptional(e, g).code)
  {
    CalmTail(c, []);
    if e.Some? {
      ExprCalm(e.value, g, c);
    }
  }

  lemma TestCalm(test: Option<Expr>, mark: string, g: GenState, c: Context)
    ensures Calm(c, LowerTest(test, mark, g).code)
  {
    CalmTail(c, []);
    if test.Some? {
      hide LowerExpr, Calm;
      var T := LowerExpr(test.value, g);
      ExprCalm(test.value, g, c);
      CalmEnd(c, T.code, [CondGotoIR(T.result, mark, false)]);
    }
  }

  lemma {:induction false} StmtCalm(s: Stmt, g: GenState, c: Context)
    ensures Calm(c, LowerStmt(s, g).code)
    decreases s, 1
  {
    hide Calm, After, LowerExpr, LowerOptional, LowerTest;
    CalmTail(c, []);
    match s
    case VarDecl(x, _, init) =>
      if init.Some? {
        var E := LowerExpr(init.value, g);
        ExprCalm(init.value, g, c);
        CalmEnd(c, E.code, [AssignIR(x, E.result)]);
      }
    case CompoundStmt(ss) => StmtsCalm(ss, g, c);
    case ExprStmt(e) => OptionalCalm(e, g, c);
    case IfStmt(cond, thn, els) =>
      var C := LowerExpr(cond, g);
      var (lElse, lEnd) := (LabelName(C.g.labels), LabelName(C.g.labels + 1));
      var g1 := C.g.(labels := C.g.labels + 2);
      var T := LowerStmt(thn, g1);
      var head := C.code + [CondGotoIR(C.result, lElse, false)];
      ExprCalm(cond, g, c);
      CalmEnd(c, C.code, [CondGotoIR(C.result, lElse, false)]);
      StmtCalm(thn, g1, After(c, head));
      CalmJoin(c, head, T.code);
      var middle := head + T.code + [GotoIR(lEnd), LabelIR(lElse)];
      CalmEnd(c, head + T.code, [GotoIR(lEnd), LabelIR(lElse)]);
      CalmTail(After(c, middle), []);
      if els.Some? {
        StmtCalm(els.value, T.g, After(c, middle));
      }
      var E := if els.Some? then LowerStmt(els.value, T.g) else Block([], T.g);
      CalmJoin(c, middle, E.code);
      CalmEnd(c, middle + E.code, [LabelIR(lEnd)]);
    case WhileStmt(cond, body) =>
      Labels.WhileIsFor(cond, body, g);
      LoopCalm(None, Some(cond), None, body, g, c);
    case ForStmt(init, test, incr, body) => LoopCalm(init, test, incr, body, g, c);
    case ReturnStmt(v) =>
      if v.Some? {
        var E := LowerExpr(v.value, g);
        ExprCalm(v.value, g, c);
        CalmEnd(c, E.code, [ReturnIR(Some(E.result))]);
      } else {
        CalmTail(c, [ReturnIR(None)]);
      }
  }

  lemma {:induction false} LoopCalm(init: Option<Expr>, test: Option<Expr>, incr: Option<Expr>, body: Stmt, g: GenState,
                                    c: Context)
    ensures Calm(c, LowerStmt(ForStmt(init, test, incr, body), g).code)
    decreases body, 2
  {
    ForParts(init, test, incr, body, g);
    hide *;
    var I := LowerOptional(init, g);
    var (lStart, lEnd) := (LabelName(I.g.labels), LabelName(I.g.labels + 1));
    var T := LowerTest(test, lEnd, I.g.(labels := I.g.labels + 2));
    var B := LowerStmt(body, T.g);
    var N := LowerOptional(incr, B.g);
    OptionalCalm(init, g, c);
    CalmEnd(c, I.code, [LabelIR(lStart)]);
    var a := I.code + [LabelIR(lStart)];
    TestCalm(test, lEnd, I.g.(labels := I.g.labels + 2), After(c, a));
    CalmJoin(c, a, T.code);
    StmtCalm(body, T.g, After(c, a + T.code));
    CalmJoin(c, a + T.code, B.code);
    OptionalCalm(incr, B.g, After(c, a + T.code + B.code));
    CalmJoin(c, a + T.code + B.code, N.code);
    CalmEnd(c, a + T.code + B.code + N.code, [GotoIR(lStart), LabelIR(lEnd)]);
  }

  lemma {:induction false} StmtsCalm(ss: seq<Stmt>, g: GenState, c: Context)
    ensures Calm(c, LowerStmts(ss, g).code)
    decreases ss, 0
  {
    hide Calm, After, LowerStmt;
    CalmTail(c, []);
    if ss != [] {
      var S := LowerStmt(ss[0], g);
      StmtCalm(ss[0], g, c);
      StmtsCalm(ss[1..], S.g, After(c, S.code));
      CalmJoin(c, S.code, LowerStmts(ss[1..], S.g).code);
    }
  }

  /** Every generated function consumes the parameters it passes, so the next starts with none. */
  lemma FunctionCalm(f: Function, g: GenState, fn: string)
    requires f.body != []
    ensures After(Context(fn, []), LowerFunction(f, g).code).pend == []
  {
    hide LowerStmts, After;
    var g0 := g.(temps := 0, labels := 0);
    var B := LowerStmts(f.body, g0);
    var (c, entry) := (Context(fn, []), FunctionEntryIR(f.name));
    GenOne(map[], c, entry);
    var d := Context(f.name, []);
    StmtsCalm(f.body, g0, d);
    CalmEnd(d, B.code, [FunctionExitIR(f.name)]);
    AfterAppend(c, [entry], B.code + [FunctionExitIR(f.name)]);
    assert [entry] + B.code + [FunctionExitIR(f.name)] == [entry] + (B.code + [FunctionExitIR(f.name)]);
  }

  /** Prototypes have no body and give no code. */
  function WithBodies(fs: seq<Function>): (r: seq<Function>)
    ensures forall f :: f in r <==> f in fs && f.body != []
  {
    if fs == [] then []
    else WithBodies(fs[..|fs| - 1]) + if fs[|fs| - 1].body == [] then [] else [fs[|fs| - 1]]
  }

  lemma {:induction false} ProgramJoin(a: seq<Function>, f: Function, g: GenState)
    ensures LowerProgram(a + [f], g).code
            == LowerProgram(a, g).code + LowerFunction(f, LowerProgram(a, g).g).code
    ensures LowerProgram(a + [f], g).g == LowerFunction(f, LowerProgram(a, g).g).g
    decreases a
  {
    hide LowerFunction;
    if a == [] {
      assert [f][1..] == [];
    } else {
      assert (a + [f])[1..] == a[1..] + [f];
      ProgramJoin(a[1..], f, LowerFunction(a[0], g).g);
    }
  }

  /** The instruction list of a program is that of its functions one after the other. */
  lemma {:induction false} ProgramIsFlat(fs: seq<Function>, g: GenState)
    ensures LowerProgram(fs, g).code == Flat(ArmLabels.Lowered(WithBodies(fs), g))
    ensures LowerProgram(fs, g).g == ArmLabels.LoweredState(WithBodies(fs), g)
    decreases fs
  {
    hide *;
    if fs == [] {
      NoProgram(g);
    } else {
      var (before, f) := (fs[..|fs| - 1], fs[|fs| - 1]);
      ProgramIsFlat(before, g);
      assert fs == before + [f];
      ProgramJoin(before, f, g);
      BodiesJoin(before, f);
      if f.body == [] {
        NoCode(f, LowerProgram(before, g).g);
        assert WithBodies(before) + [] == WithBodies(before);
        assert LowerProgram(before, g).code + [] == LowerProgram(before, g).code;
      } else {
        LoweredJoin(WithBodies(before), f, g);
        FlatSnoc(ArmLabels.Lowered(WithBodies(before), g),
                 LowerFunction(f, ArmLabels.LoweredState(WithBodies(before), g)).code);
      }
    }
  }

  lemma NoProgram(g: GenState)
    ensures LowerProgram([], g) == Block([], g) && WithBodies([]) == []
    ensures Flat(ArmLabels.Lowered([], g)) == [] && ArmLabels.LoweredState([], g) == g
  {
  }

  lemma NoCode(f: Function, g: GenState)
    requires f.body == []
    ensures LowerFunction(f, g) == Block([], g)
  {
  }

  lemma BodiesJoin(fs: seq<Function>, f: Function)
    ensures WithBodies(fs + [f]) == WithBodies(fs) + if f.body == [] then [] else [f]
  {
    assert (fs + [f])[..|fs|] == fs;
  }

  lemma LoweredJoin(fs: seq<Function>, f: Function, g: GenState)
    ensures ArmLabels.Lowered(fs + [f], g)
            == ArmLabels.Lowered(fs, g) + [LowerFunction(f, ArmLabels.LoweredState(fs, g)).code]
    ensures ArmLabels.LoweredState(fs + [f], g) == LowerFunction(f, ArmLabels.LoweredState(fs, g)).g
  {
    hide LowerFunction;
    assert (fs + [f])[..|fs|] == fs;
  }

  lemma FunctionsReady(fs: seq<Function>, g: GenState)
    requires ArmLabels.StringsPlain(g) && forall i :: 0 <= i < |fs| ==> fs[i].body != []
    ensures forall f :: f in ArmLabels.Lowered(fs, g) ==>
                          IsFunction(f) && forall fn :: After(Context(fn, []), f).pend == []
  {
    hide LowerFunction, After, IsFunction, ArmLabels.StringsPlain;
    ArmLabels.LoweredSize(fs, g);
    forall i | 0 <= i < |fs|
      ensures IsFunction(ArmLabels.Lowered(fs, g)[i])
      ensures forall fn :: After(Context(fn, []), ArmLabels.Lowered(fs, g)[i]).pend == []
    {
      LoweredAt(fs, g, i);
      ArmLabels.StatePlain(fs[..i], g);
      ArmLabels.LoweredBody(fs[i], StateAt(fs, g, i));
      forall fn
        ensures After(Context(fn, []), ArmLabels.Lowered(fs, g)[i]).pend == []
      {
        FunctionCalm(fs[i], StateAt(fs, g, i), fn);
      }
    }
  }

  lemma NoStrings(g: GenState)
    requires g.strings == map[]
    ensures ArmLabels.StringsPlain(g)
  {
  }

  /** Middle end and back end, one after the other. */
  method Compile(fs: seq<Function>) returns (asm: seq<Line>, ghost maps: seq<Assignment>)
    ensures Emitted(WithBodies(fs), FRESH, maps, asm)
  {
    hide GenProgram, GoodMap, IsFunction, After, Flat, LowerProgram, LowerFunction, ArmLabels.Lowered,
      ArmLabels.LoweredState, ArmLabels.StringsPlain;
    var middle := new IRGenerator();
    var instructions := middle.Generate(fs);
    ghost var g := FRESH;
    ProgramIsFlat(fs, g);
    assert forall i :: 0 <= i < |WithBodies(fs)| ==> WithBodies(fs)[i] in WithBodies(fs);
    NoStrings(g);
    FunctionsReady(WithBodies(fs), g);
    ArmLabels.LoweredSize(WithBodies(fs), g);
    var back := new CodeGenerator();
    asm, maps := back.Generate(instructions, ArmLabels.Lowered(WithBodies(fs), g));
  }
}
