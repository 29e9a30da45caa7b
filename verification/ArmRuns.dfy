/** Whole runs: the assembly of a function goes wherever its three-address code goes, into the
    functions it calls and back. */
module ArmRuns {
  import opened Words
  import opened Ast
  import opened IrGenerator
  import opened IrMachine
  import opened RegisterAllocation
  import opened CodeGeneration
  import opened ArmMachine
  import opened WordMemory
  import opened ArmSimulation
  import Labels
  import ArmLabels

  ghost predicate FrameOk(fr: Frame) {
    |fr.saved| == 9 && 0 <= fr.sp && fr.sp + 36 < TWO32
  }

  /** Back at the caller: the return address, r4-r11, sp and the caller's memory are those of the
      entry, r0 holds the value returned. */
  ghost predicate Returns(p: seq<Line>, s: ArmState, v: Option<word>, trace: seq<Event>, fr: Frame)
    requires FrameOk(fr)
  {
    && !s.Fault? && s == Land(p, fr.saved[8], s.cpu) && s.cpu.regs[4..12] == fr.saved[..8]
    && Unsigned(s.cpu.regs[SP]) == fr.sp + 36 && s.cpu.trace == trace
    && (forall a :: a in fr.entry && a >= fr.sp + 36 ==> a in s.cpu.mem && s.cpu.mem[a] == fr.entry[a])
    && (v.Some? ==> s.cpu.regs[0] == v.value)
  }

  /** pop {r4-r11, pc} undoes the push of the prologue. */
  lemma PopReturns(p: seq<Line>, m: Assignment, l: Local, cpu: Cpu, fr: Frame)
    requires FrameOk(fr) && Match(m, [], l, cpu, fr)
    ensures Returns(p, Pop(p, cpu), None, l.trace, fr) && Pop(p, cpu).cpu.regs[0] == cpu.regs[0]
  {
    var c := PopIs(p, cpu, fr);
    hide Pop;
  }

  lemma PopIs(p: seq<Line>, cpu: Cpu, fr: Frame) returns (c: Cpu)
    requires FrameOk(fr) && Unsigned(cpu.regs[SP]) == fr.sp && FrameHeld(cpu.mem, fr)
    ensures Pop(p, cpu) == Land(p, fr.saved[8], c) && c.mem == cpu.mem && c.trace == cpu.trace
    ensures c.regs[0] == cpu.regs[0] && c.regs[4..12] == fr.saved[..8] && Unsigned(c.regs[SP]) == fr.sp + 36
  {
    hide Land, Unsigned;
    var s := fr.saved;
    assert forall i :: 0 <= i < 9 ==> fr.sp + 4 * i in cpu.mem && cpu.mem[fr.sp + 4 * i] == s[i];
    assert seq(9, i requires 0 <= i < 9 => cpu.mem[fr.sp + 4 * i]) == s;
    c := cpu.(regs := (cpu.regs[..4] + s[..8] + cpu.regs[12..])[SP := Wrap(fr.sp + 36)]);
    UnsignedWrap(fr.sp + 36);
    assert Pop(p, cpu) == Land(p, fr.saved[8], c);
  }

  /** From the first line of the exit, or from the epilogue label, out of the function. */
  lemma LeaveRuns(w: World, arity: Arity, m: Assignment, fn: string, p: seq<Line>, e: nat, start: nat, l: Local,
                  cpu: Cpu, fr: Frame)
      returns (n: nat)
    requires HasLines(p, e, ExitLines(fn, 0)) && e <= start <= e + 1 && FrameOk(fr) && Match(m, [], l, cpu, fr)
    ensures !Execute(w, arity, p, At(start, cpu), n).Fault?
    ensures Returns(p, Execute(w, arity, p, At(start, cpu), n), None, l.trace, fr)
    ensures Execute(w, arity, p, At(start, cpu), n).cpu.regs[0] == cpu.regs[0]
  {
    hide *;
    n := 4 - (start - e);
    ExitStands(fn, p, e);
    SkipLine(w, arity, p, e, cpu, 3);
    SkipLine(w, arity, p, e + 1, cpu, 2);
    SkipLine(w, arity, p, e + 2, cpu, 1);
    ExecuteOne(w, arity, p, At(e + 3, cpu));
    PopStep(w, arity, p, e + 3, cpu);
    PopReturns(p, m, l, cpu, fr);
    ReturnsSafe(p, Pop(p, cpu), l.trace, fr);
  }

  lemma ExitStands(fn: string, p: seq<Line>, e: nat)
    requires HasLines(p, e, ExitLines(fn, 0))
    ensures e + 3 < |p| && p[e] == Text("") && p[e + 1].Label? && p[e + 2].Text? && p[e + 3] == PopReturn
  {
    forall k | 0 <= k < 5
      ensures e + k < |p| && p[e + k] == ExitLines(fn, 0)[k]
    {
      HasLine(p, e, ExitLines(fn, 0), k);
    }
  }

  lemma PopStep(w: World, arity: Arity, p: seq<Line>, pc: nat, cpu: Cpu)
    requires pc < |p| && p[pc] == PopReturn
    ensures ExecuteStep(w, arity, p, At(pc, cpu)) == Pop(p, cpu)
  {
  }

  lemma ReturnsSafe(p: seq<Line>, t: ArmState, trace: seq<Event>, fr: Frame)
    requires FrameOk(fr) && Returns(p, t, None, trace, fr)
    ensures !t.Fault?
  {
  }

  lemma SkipLine(w: World, arity: Arity, p: seq<Line>, pc: nat, cpu: Cpu, n: nat)
    requires pc < |p| && (p[pc].Text? || p[pc].Label?)
    ensures Execute(w, arity, p, At(pc, cpu), n + 1) == Execute(w, arity, p, At(pc + 1, cpu), n)
  {
  }

  /** The assembly stands at the code of instruction `k` in a matching state. */
  ghost predicate Standing(m: Assignment, code: seq<Instr>, base: nat, k: nat, l: Local, t: ArmState, fr: Frame) {
    0 < k < |code| && t.At? && t.pc == base + Offset(m, code, k) && Match(m, CtxAt(code, k).pend, l, t.cpu, fr)
  }

  /** One machine step of the code is some steps of the assembly. */
  ghost predicate Follows(m: Assignment, code: seq<Instr>, p: seq<Line>, base: nat, s: State, t: ArmState, fr: Frame)
    requires FrameOk(fr)
  {
    match s
    case Running(k, l) => Standing(m, code, base, k, l, t, fr)
    case Returned(v, l) => Returns(p, t, v, l.trace, fr)
    case Stuck => true
  }

  lemma StraightStep(w: World, arity: Arity, m: Assignment, fn: string, code: seq<Instr>, p: seq<Line>, base: nat,
                     k: nat, l: Local, t: ArmState, fr: Frame)
      returns (n: nat)
    requires Compiled(w, arity, m, fn, code, p, base) && FrameOk(fr) && Standing(m, code, base, k, l, t, fr)
    requires k + 1 < |code| && StepLocal(w, code[k], l).Some? && (code[k].CallIR? ==> !Inside(p, code[k].callee))
    ensures Standing(m, code, base, k + 1, StepLocal(w, code[k], l).value, Execute(w, arity, p, t, n), fr)
  {
    hide *;
    var c := CtxAt(code, k);
    var lines := GenInstr(m, c, code[k]);
    StandingMeans(m, code, base, k, l, t, fr);
    CompiledMeans(w, arity, m, fn, code, p, base, k);
    InstrAt(m, code, k, p, base);
    LocalSimulated(w, arity, m, c, code[k], l, t.cpu, fr);
    SimulatedMeans(w, arity, m, c, code[k], l, t.cpu, fr);
    InstrOutward(p, arity, m, c, code[k]);
    ExecuteStraight(w, arity, p, t.pc, lines, t.cpu);
    n := |lines|;
    StandingNext(m, code, base, k + 1, StepLocal(w, code[k], l).value, RunLines(w, arity, lines, t.cpu).value, fr);
  }

  /** Only calls of functions of the program, and the division runtime, could lead elsewhere. */
  lemma InstrOutward(p: seq<Line>, arity: Arity, m: Assignment, c: Context, i: Instr)
    requires Loadable(p) && InstrOk(arity, m, c, i) && (i.CallIR? ==> !Inside(p, i.callee))
    ensures Outward(p, GenInstr(m, c, i))
  {
    hide OperandLines, ParamLines, Known, Inside;
    match i
    case BinaryOpIR(t, op, a, b) =>
      OperandOutward(p, a);
      OperandOutward(p, b);
      BinaryOutward(p, op, RegOf(m, t), OperandReg(m, a), OperandReg(m, b));
    case UnaryOpIR(_, _, a) => OperandOutward(p, a);
    case AssignIR(_, a) => OperandOutward(p, a);
    case CallIR(_, _, _) =>
      CallLines(arity, m, c, i);
      ParamsOutward(p, m, c.pend, 0);
    case CondGotoIR(a, _, _) => OperandOutward(p, a);
    case ReturnIR(v) =>
      if v.Some? {
        OperandOutward(p, v.value);
      }
    case _ =>
  }

  lemma OperandOutward(p: seq<Line>, a: string)
    ensures Outward(p, OperandLines(a))
  {
  }

  lemma BinaryOutward(p: seq<Line>, op: BinOp, rd: Reg, l: Reg, r: Reg)
    requires Loadable(p)
    ensures Outward(p, BinaryLines(op, rd, l, r))
  {
    hide Inside;
  }

  lemma {:induction false} ParamsOutward(p: seq<Line>, m: Assignment, pend: seq<string>, k: nat)
    requires k + |pend| <= 4
    ensures Outward(p, ParamLines(m, pend, k))
    decreases pend
  {
    hide OperandLines, Inside;
    if pend != [] {
      OperandOutward(p, pend[0]);
      ParamsOutward(p, m, pend[1..], k + 1);
    }
  }

  // ------------------------------------------------------------------ calls inside the program

  /** Called in state `cpu`, the function comes back by the rules with answer `r`. */
  ghost predicate ComesBack(w: World, arity: Arity, p: seq<Line>, f: string, cpu: Cpu, r: Answer) {
    exists n: nat :: BackAfter(w, arity, p, f, cpu, r, n)
  }

  ghost predicate BackAfter(w: World, arity: Arity, p: seq<Line>, f: string, cpu: Cpu, r: Answer, n: nat) {
    var s := Execute(w, arity, p, At(Find(p, f), cpu), n);
    !s.Fault? && s == Land(p, cpu.regs[LR], s.cpu) && Obeys(cpu, s.cpu, r)
  }

  /** The functions of the program, called with `room` bytes of stack, do what calls are said to do. */
  ghost predicate Serves(w: World, arity: Arity, p: seq<Line>, room: nat) {
    forall f, args, cpu: Cpu ::
      GlobalName(f) && Inside(p, f) && Unsigned(cpu.regs[SP]) >= room && w.call(f, args, cpu.trace).Some? ==>
        ComesBack(w, arity, p, f, cpu, w.call(f, args, cpu.trace).value)
  }

  /** A call of a function of the program: into it, through it, and back to the next line. */
  lemma InsideStep(w: World, arity: Arity, m: Assignment, fn: string, code: seq<Instr>, p: seq<Line>, base: nat, k: nat,
                   l: Local, t: ArmState, fr: Frame) returns (n: nat)
    requires Compiled(w, arity, m, fn, code, p, base) && FrameOk(fr) && Standing(m, code, base, k, l, t, fr)
    requires k + 1 < |code| && StepLocal(w, code[k], l).Some? && code[k].CallIR? && Inside(p, code[k].callee)
    requires Serves(w, arity, p, fr.sp)
    ensures Standing(m, code, base, k + 1, StepLocal(w, code[k], l).value, Execute(w, arity, p, t, n), fr)
  {
    hide *;
    var (c, i) := (CtxAt(code, k), code[k]);
    StandingMeans(m, code, base, k, l, t, fr);
    CompiledMeans(w, arity, m, fn, code, p, base, k);
    LoadableMeans(p);
    InstrAt(m, code, k, p, base);
    CallLines(arity, m, c, i);
    CallNamed(arity, m, c, i);
    var c1, r := CallStarts(w, arity, m, c, i, l, t.cpu, fr);
    var (head, rd) := (ParamLines(m, c.pend, 0), m[i.result]);
    HasLinesSplit(p, t.pc, head, [Bl(i.callee), Mov(AL, rd, 0)]);
    var pc := t.pc + |head|;
    HasLine(p, pc, [Bl(i.callee), Mov(AL, rd, 0)], 0);
    HasLine(p, pc, [Bl(i.callee), Mov(AL, rd, 0)], 1);
    ParamsOutward(p, m, c.pend, 0);
    ExecuteStraight(w, arity, p, t.pc, head, t.cpu);
    EnterRuns(w, arity, p, i.callee, pc, c1);
    var c2 := SetReg(c1, LR, Wrap(pc + 1));
    RoomLeft(m, l, t.cpu, c1, c2, fr);
    var n1, c3 := ServedCall(w, arity, p, fr.sp, i.callee, l.params, c2, r, pc + 1);
    var c4 := MovRuns(w, arity, p, pc + 1, rd, c3);
    ObeysFrom(c1, c2, c3, r);
    CallMatch(m, l, t.cpu, c1, c3, fr, i.result, r);
    var here := Execute(w, arity, p, t, |head|);
    ExecuteAdds(w, arity, p, t, |head|, 1);
    ExecuteAdds(w, arity, p, t, |head| + 1, n1);
    ExecuteAdds(w, arity, p, t, |head| + 1 + n1, 1);
    n := |head| + 1 + n1 + 1;
    StandingNext(m, code, base, k + 1, StepLocal(w, i, l).value, c4, fr);
  }

  lemma LoadableMeans(p: seq<Line>)
    requires Loadable(p)
    ensures |p| < TWO32
  {
  }

  lemma CallNamed(arity: Arity, m: Assignment, c: Context, i: Instr)
    requires i.CallIR? && InstrOk(arity, m, c, i)
    ensures i.result in m && Next(c, i).pend == [] && GlobalName(i.callee)
  {
  }

  lemma EnterRuns(w: World, arity: Arity, p: seq<Line>, f: string, pc: nat, cpu: Cpu)
    requires pc < |p| && p[pc] == Bl(f) && Inside(p, f)
    ensures Execute(w, arity, p, At(pc, cpu), 1) == At(Find(p, f), SetReg(cpu, LR, Wrap(pc + 1)))
  {
    ExecuteOne(w, arity, p, At(pc, cpu));
    hide Find, StepLine, Pop;
  }

  /** The registers hold the frame's sp, and linking changes neither that nor the calls made. */
  lemma RoomLeft(m: Assignment, l: Local, cpu: Cpu, c1: Cpu, c2: Cpu, fr: Frame)
    requires Unsigned(cpu.regs[SP]) == fr.sp && PassingOnly(cpu, c1, 0) && c2 == SetReg(c1, LR, c2.regs[LR])
    ensures Unsigned(c2.regs[SP]) == fr.sp
  {
  }

  lemma ServedCall(w: World, arity: Arity, p: seq<Line>, room: nat, f: string, args: seq<word>, cpu: Cpu, r: Answer,
                   pc: nat)
      returns (n: nat, c: Cpu)
    requires Serves(w, arity, p, room) && GlobalName(f) && Inside(p, f) && Unsigned(cpu.regs[SP]) >= room
    requires w.call(f, args, cpu.trace) == Some(r) && cpu.regs[LR] == Wrap(pc) && pc < |p| < TWO32
    ensures Execute(w, arity, p, At(Find(p, f), cpu), n) == At(pc, c) && Obeys(cpu, c, r)
  {
    hide Execute, Find, Inside, Obeys, GlobalName;
    n :| BackAfter(w, arity, p, f, cpu, r, n);
    c := Execute(w, arity, p, At(Find(p, f), cpu), n).cpu;
    UnsignedWrap(pc);
  }

  lemma MovRuns(w: World, arity: Arity, p: seq<Line>, pc: nat, rd: Reg, cpu: Cpu) returns (c: Cpu)
    requires pc < |p| && p[pc] == Mov(AL, rd, 0)
    ensures c == SetReg(cpu, rd, cpu.regs[0]) && Execute(w, arity, p, At(pc, cpu), 1) == At(pc + 1, c)
  {
    c := SetReg(cpu, rd, cpu.regs[0]);
    ExecuteOne(w, arity, p, At(pc, cpu));
  }

  /** What holds of the call from lr on holds of it from before. */
  lemma ObeysFrom(a: Cpu, b: Cpu, c: Cpu, r: Answer)
    requires b == SetReg(a, LR, b.regs[LR]) && Obeys(b, c, r)
    ensures Obeys(a, c, r)
  {
  }

  lemma StandingMeans(m: Assignment, code: seq<Instr>, base: nat, k: nat, l: Local, t: ArmState, fr: Frame)
    requires Standing(m, code, base, k, l, t, fr)
    ensures 0 < k < |code| && t == At(base + Offset(m, code, k), t.cpu) && Match(m, CtxAt(code, k).pend, l, t.cpu, fr)
  {
  }

  lemma StandingNext(m: Assignment, code: seq<Instr>, base: nat, k: nat, l: Local, cpu: Cpu, fr: Frame)
    requires 0 < k < |code| && Match(m, CtxAt(code, k).pend, l, cpu, fr)
    ensures Standing(m, code, base, k, l, At(base + Offset(m, code, k), cpu), fr)
  {
  }

  lemma SimulatedMeans(w: World, arity: Arity, m: Assignment, c: Context, i: Instr, l: Local, cpu: Cpu, fr: Frame)
    requires Simulated(w, arity, m, c, i, l, cpu, fr)
    ensures var r := RunLines(w, arity, GenInstr(m, c, i), cpu);
            r.Some? && StepLocal(w, i, l).Some? && Match(m, Next(c, i).pend, StepLocal(w, i, l).value, r.value, fr)
  {
  }

  lemma LabelStep(w: World, arity: Arity, m: Assignment, fn: string, code: seq<Instr>, p: seq<Line>, base: nat, k: nat,
                  l: Local, t: ArmState, fr: Frame)
    requires Compiled(w, arity, m, fn, code, p, base) && FrameOk(fr) && Standing(m, code, base, k, l, t, fr)
    requires 0 < k < |code| - 1 && code[k].LabelIR?
    ensures Standing(m, code, base, k + 1, l, Execute(w, arity, p, t, 1), fr)
  {
    hide *;
    StandingMeans(m, code, base, k, l, t, fr);
    CompiledMeans(w, arity, m, fn, code, p, base, k);
    LabelOk(arity, m, CtxAt(code, k), code[k]);
    InstrAt(m, code, k, p, base);
    HasLine(p, t.pc, [Label(MarkOf(fn, code[k].mark))], 0);
    SkipLine(w, arity, p, t.pc, t.cpu, 0);
    ExecuteNone(w, arity, p, At(t.pc + 1, t.cpu));
    StandingNext(m, code, base, k + 1, l, t.cpu, fr);
  }

  lemma ExecuteNone(w: World, arity: Arity, p: seq<Line>, t: ArmState)
    ensures Execute(w, arity, p, t, 0) == t
  {
  }

  lemma BranchRuns(w: World, arity: Arity, p: seq<Line>, t: ArmState)
    requires t.At? && t.pc < |p| && p[t.pc].Branch?
    ensures Execute(w, arity, p, t, 1)
            == At(if Holds(p[t.pc].c, t.cpu.flags) then Find(p, p[t.pc].target) else t.pc + 1, t.cpu)
  {
    ExecuteOne(w, arity, p, t);
  }

  lemma GotoStep(w: World, arity: Arity, m: Assignment, fn: string, code: seq<Instr>, p: seq<Line>, base: nat, k: nat,
                 l: Local, t: ArmState, fr: Frame)
    requires Compiled(w, arity, m, fn, code, p, base) && FrameOk(fr) && Standing(m, code, base, k, l, t, fr)
    requires 0 < k < |code| && code[k].GotoIR?
    ensures Standing(m, code, base, Target(code, code[k].mark), l, Execute(w, arity, p, t, 1), fr)
  {
    hide *;
    var mark := code[k].mark;
    StandingMeans(m, code, base, k, l, t, fr);
    CompiledMeans(w, arity, m, fn, code, p, base, k);
    LabelOk(arity, m, CtxAt(code, k), code[k]);
    InstrAt(m, code, k, p, base);
    HasLine(p, t.pc, [Branch(AL, MarkOf(fn, mark))], 0);
    JumpIn(code, k);
    BranchArrives(w, arity, m, fn, code, p, base, mark);
    BranchRuns(w, arity, p, t);
    Always(t.cpu.flags);
    StandingNext(m, code, base, Target(code, mark), l, t.cpu, fr);
  }

  lemma Always(f: Flags)
    ensures Holds(AL, f)
  {
  }

  lemma JumpIn(code: seq<Instr>, k: nat)
    requires k < |code| && Labels.Jumps(code) <= Labels.Defined(code)
    ensures code[k].GotoIR? || code[k].CondGotoIR? ==> code[k].mark in Labels.Defined(code)
  {
    assert code[k].GotoIR? || code[k].CondGotoIR? ==> code[k].mark in Labels.Jumps(code);
  }

  lemma CondGotoStep(w: World, arity: Arity, m: Assignment, fn: string, code: seq<Instr>, p: seq<Line>, base: nat,
                     k: nat, l: Local, t: ArmState, fr: Frame)
      returns (n: nat)
    requires Compiled(w, arity, m, fn, code, p, base) && FrameOk(fr) && Standing(m, code, base, k, l, t, fr)
    requires 0 < k < |code| - 1 && code[k].CondGotoIR?
    ensures n > 0
    ensures var i := code[k];
            var k' := if (Operand(l.store, i.condition) != 0) == i.isTrue then Target(code, i.mark) else k + 1;
            Standing(m, code, base, k', l, Execute(w, arity, p, t, n), fr)
  {
    hide *;
    StandingMeans(m, code, base, k, l, t, fr);
    var (i, c) := (code[k], CtxAt(code, k));
    CompiledMeans(w, arity, m, fn, code, p, base, k);
    LabelOk(arity, m, c, i);
    InstrAt(m, code, k, p, base);
    JumpIn(code, k);
    BranchArrives(w, arity, m, fn, code, p, base, i.mark);
    n := CondLines(w, arity, m, c, i, l, t, p, fr);
    var s := Execute(w, arity, p, t, n);
    var k' := if (Operand(l.store, i.condition) != 0) == i.isTrue then Target(code, i.mark) else k + 1;
    StandingNext(m, code, base, k', l, s.cpu, fr);
  }

  /** The lines of a conditional jump: load, compare with zero, branch. */
  lemma CondLines(w: World, arity: Arity, m: Assignment, c: Context, i: Instr, l: Local, t: ArmState, p: seq<Line>,
                  fr: Frame)
      returns (n: nat)
    requires MapOk(m) && i.CondGotoIR? && c.pend == [] && Known(m, i.condition) && t.At?
    requires Match(m, [], l, t.cpu, fr) && HasLines(p, t.pc, GenInstr(m, c, i))
    ensures n > 0
    ensures var s := Execute(w, arity, p, t, n);
            && s.At? && Match(m, [], l, s.cpu, fr)
            && s.pc == (if (Operand(l.store, i.condition) != 0) == i.isTrue then Find(p, MarkOf(c.fn, i.mark))
                        else t.pc + |GenInstr(m, c, i)|)
  {
    hide *;
    var (la, ra) := (OperandLines(i.condition), OperandReg(m, i.condition));
    var branch := Branch(if i.isTrue then NE else EQ, MarkOf(c.fn, i.mark));
    CondGen(m, c, i);
    OperandLoads(w, arity, m, [], i.condition, l, t.cpu, fr);
    var c1 := RunLines(w, arity, la, t.cpu).value;
    RunLinesAppend(w, arity, la, [CmpZero(ra)], t.cpu);
    RunLine(w, arity, CmpZero(ra), c1);
    var c2 := FlagsSet(w, arity, m, ra, l, c1, fr);
    HasLinesSplit(p, t.pc, la + [CmpZero(ra)], [branch]);
    OperandOutward(p, i.condition);
    OutwardEnd(p, la, CmpZero(ra));
    ExecuteStraight(w, arity, p, t.pc, la + [CmpZero(ra)], t.cpu);
    n := |la| + 1;
    var s := Execute(w, arity, p, t, n);
    HasLine(p, s.pc, [branch], 0);
    ExecuteAdds(w, arity, p, t, n, 1);
    BranchRuns(w, arity, p, s);
    n := n + 1;
  }

  lemma OutwardEnd(p: seq<Line>, part: seq<Line>, line: Line)
    requires Outward(p, part) && !line.Bl?
    ensures Outward(p, part + [line])
  {
    hide Inside;
  }

  lemma CondGen(m: Assignment, c: Context, i: Instr)
    requires i.CondGotoIR?
    ensures GenInstr(m, c, i) == (OperandLines(i.condition) + [CmpZero(OperandReg(m, i.condition))])
                                 + [Branch(if i.isTrue then NE else EQ, MarkOf(c.fn, i.mark))]
  {
  }

  /** A comparison with zero sets the flags and nothing else. */
  lemma FlagsSet(w: World, arity: Arity, m: Assignment, r: Reg, l: Local, cpu: Cpu, fr: Frame) returns (c: Cpu)
    requires MapOk(m) && Match(m, [], l, cpu, fr)
    ensures StepLine(w, arity, CmpZero(r), cpu) == Some(c) && Match(m, [], l, c, fr)
    ensures (Holds(EQ, c.flags) <==> cpu.regs[r] == 0) && (Holds(NE, c.flags) <==> cpu.regs[r] != 0)
  {
    c := cpu.(flags := CompareFlags(cpu.regs[r], 0));
    CompareMeaning(cpu.regs[r], 0);
    hide CompareFlags, FrameHeld, Operand;
    MatchPassing(m, l, cpu, c, fr);
  }

  lemma ReturnStep(w: World, arity: Arity, m: Assignment, fn: string, code: seq<Instr>, p: seq<Line>, base: nat, k: nat,
                   l: Local, t: ArmState, fr: Frame) returns (n: nat)
    requires Compiled(w, arity, m, fn, code, p, base) && FrameOk(fr) && Standing(m, code, base, k, l, t, fr)
    requires 0 < k < |code| && code[k].ReturnIR?
    ensures var v := code[k].returned;
            Returns(p, Execute(w, arity, p, t, n), if v.None? then None else Some(Operand(l.store, v.value)), l.trace,
                    fr)
  {
    hide *;
    StandingMeans(m, code, base, k, l, t, fr);
    var (i, c) := (code[k], CtxAt(code, k));
    CompiledMeans(w, arity, m, fn, code, p, base, k);
    LabelOk(arity, m, c, i);
    InstrAt(m, code, k, p, base);
    EpilogueArrives(w, arity, m, fn, code, p, base);
    var e := base + Offset(m, code, |code| - 1);
    n := ReturnLines(w, arity, m, c, i, l, t, p, fr);
    var s := Execute(w, arity, p, t, n);
    var n2 := LeaveRuns(w, arity, m, fn, p, e, e + 1, l, s.cpu, fr);
    ExecuteAdds(w, arity, p, t, n, n2);
    n := n + n2;
    ReturnsValue(p, Execute(w, arity, p, t, n),
                 if i.returned.None? then None else Some(Operand(l.store, i.returned.value)),
                 l.trace, fr);
  }

  lemma ReturnsValue(p: seq<Line>, s: ArmState, v: Option<word>, trace: seq<Event>, fr: Frame)
    requires FrameOk(fr) && Returns(p, s, None, trace, fr) && (v.Some? ==> s.cpu.regs[0] == v.value)
    ensures Returns(p, s, v, trace, fr)
  {
  }

  lemma RunNoLines(w: World, arity: Arity, cpu: Cpu)
    ensures RunLines(w, arity, [], cpu) == Some(cpu)
  {
  }

  /** The lines of a return: the value into r0, branch to the epilogue. */
  lemma ReturnLines(w: World, arity: Arity, m: Assignment, c: Context, i: Instr, l: Local, t: ArmState, p: seq<Line>,
                    fr: Frame)
      returns (n: nat)
    requires MapOk(m) && i.ReturnIR? && t.At? && (i.returned.Some? ==> Known(m, i.returned.value))
    requires Match(m, [], l, t.cpu, fr) && HasLines(p, t.pc, GenInstr(m, c, i))
    ensures var s := Execute(w, arity, p, t, n);
            && s.At? && Match(m, [], l, s.cpu, fr) && s.pc == Find(p, MarkOf(c.fn, "epilogue"))
            && (i.returned.Some? ==> s.cpu.regs[0] == Operand(l.store, i.returned.value))
  {
    hide *;
    var branch := Branch(AL, MarkOf(c.fn, "epilogue"));
    var first := ValueLines(m, i.returned);
    ReturnIs(m, c, i);
    HasLinesSplit(p, t.pc, first, [branch]);
    var c1 := ValueRuns(w, arity, m, i.returned, l, t.cpu, p, fr);
    ExecuteStraight(w, arity, p, t.pc, first, t.cpu);
    n := |first|;
    var s := Execute(w, arity, p, t, n);
    HasLine(p, s.pc, [branch], 0);
    ExecuteAdds(w, arity, p, t, n, 1);
    BranchTaken(w, arity, p, s, MarkOf(c.fn, "epilogue"));
    n := n + 1;
  }

  /** The lines that put a returned value into r0. */
  function ValueLines(m: Assignment, v: Option<string>): seq<Line> {
    if v.None? then [] else OperandLines(v.value) + [Mov(AL, 0, OperandReg(m, v.value))]
  }

  lemma ReturnIs(m: Assignment, c: Context, i: Instr)
    requires i.ReturnIR?
    ensures GenInstr(m, c, i) == ValueLines(m, i.returned) + [Branch(AL, MarkOf(c.fn, "epilogue"))]
  {
    hide OperandLines, OperandReg;
  }

  lemma ValueRuns(w: World, arity: Arity, m: Assignment, v: Option<string>, l: Local, cpu: Cpu, p: seq<Line>, fr: Frame)
      returns (c1: Cpu)
    requires MapOk(m) && Match(m, [], l, cpu, fr) && (v.Some? ==> Known(m, v.value))
    ensures RunLines(w, arity, ValueLines(m, v), cpu) == Some(c1) && Match(m, [], l, c1, fr)
    ensures v.Some? ==> c1.regs[0] == Operand(l.store, v.value)
    ensures Outward(p, ValueLines(m, v))
  {
    hide Known, Match, OperandLines, Operand, OperandReg, RunLines, MapOk;
    RunNoLines(w, arity, cpu);
    c1 := cpu;
    if v.Some? {
      c1 := OneParam(w, arity, m, v.value, 0, l, cpu, fr);
      OperandOutward(p, v.value);
      OutwardEnd(p, OperandLines(v.value), Mov(AL, 0, OperandReg(m, v.value)));
    }
  }

  lemma BranchTaken(w: World, arity: Arity, p: seq<Line>, s: ArmState, mark: string)
    requires s.At? && s.pc < |p| && p[s.pc] == Branch(AL, mark)
    ensures Execute(w, arity, p, s, 1) == At(Find(p, mark), s.cpu)
  {
    ExecuteOne(w, arity, p, s);
    hide Find;
  }

  /** The simulation: whatever the three-address machine does next, the assembly does, and only
      moving to the next instruction can take no lines at all. */
  lemma StepSimulated(w: World, arity: Arity, m: Assignment, fn: string, code: seq<Instr>, p: seq<Line>, base: nat,
                      k: nat, l: Local, t: ArmState, fr: Frame)
      returns (n: nat)
    requires Compiled(w, arity, m, fn, code, p, base) && FrameOk(fr) && k > 0 && Standing(m, code, base, k, l, t, fr)
    requires Serves(w, arity, p, fr.sp)
    ensures Follows(m, code, p, base, IrMachine.Step(w, code, Running(k, l)), Execute(w, arity, p, t, n), fr)
    ensures var s := IrMachine.Step(w, code, Running(k, l));
            s.Running? && n == 0 ==> s.pc == k + 1
  {
    hide Compiled, Standing, Returns, InstrOk, Execute, Match, FrameOk, Serves, Inside;
    n := 0;
    if !IrMachine.Step(w, code, Running(k, l)).Stuck? {
      CompiledMeans(w, arity, m, fn, code, p, base, k);
      StandingMeans(m, code, base, k, l, t, fr);
      match code[k]
      case LabelIR(_) =>
        LabelStep(w, arity, m, fn, code, p, base, k, l, t, fr);
        n := 1;
      case GotoIR(_) =>
        GotoStep(w, arity, m, fn, code, p, base, k, l, t, fr);
        n := 1;
      case CondGotoIR(_, _, _) => n := CondGotoStep(w, arity, m, fn, code, p, base, k, l, t, fr);
      case ReturnIR(_) => n := ReturnStep(w, arity, m, fn, code, p, base, k, l, t, fr);
      case FunctionExitIR(_) => n := ExitStep(w, arity, m, fn, code, p, base, k, l, t, fr);
      case CallIR(_, f, _) =>
        if Inside(p, f) {
          n := InsideStep(w, arity, m, fn, code, p, base, k, l, t, fr);
        } else {
          n := StraightStep(w, arity, m, fn, code, p, base, k, l, t, fr);
        }
      case _ => n := StraightStep(w, arity, m, fn, code, p, base, k, l, t, fr);
    }
  }

  lemma ExitStep(w: World, arity: Arity, m: Assignment, fn: string, code: seq<Instr>, p: seq<Line>, base: nat, k: nat,
                 l: Local, t: ArmState, fr: Frame) returns (n: nat)
    requires Compiled(w, arity, m, fn, code, p, base) && FrameOk(fr) && Standing(m, code, base, k, l, t, fr)
    requires code[k].FunctionExitIR? && k == |code| - 1
    ensures Returns(p, Execute(w, arity, p, t, n), None, l.trace, fr)
  {
    EpilogueArrives(w, arity, m, fn, code, p, base);
    assert InstrOk(arity, m, CtxAt(code, k), code[k]);
    n := LeaveRuns(w, arity, m, fn, p, t.pc, t.pc, l, t.cpu, fr);
  }

  /** Any number of steps. Each round of |code| machine steps takes at least one line. */
  lemma {:induction false} RunSimulated(w: World, arity: Arity, m: Assignment, fn: string, code: seq<Instr>,
                                        p: seq<Line>, base: nat, k: nat, l: Local, t: ArmState, fr: Frame, steps: nat)
      returns (n: nat)
    requires Compiled(w, arity, m, fn, code, p, base) && FrameOk(fr) && Standing(m, code, base, k, l, t, fr)
    requires Serves(w, arity, p, fr.sp)
    ensures var s := IrMachine.Run(w, code, Running(k, l), steps);
            && Follows(m, code, p, base, s, Execute(w, arity, p, t, n), fr)
            && (s.Running? ==> n * |code| + s.pc >= steps + k)
    decreases steps
  {
    hide *;
    if steps == 0 {
      n := 0;
      RunNone(w, code, Running(k, l));
      ExecuteNone(w, arity, p, t);
      FollowsStanding(m, code, p, base, k, l, t, fr);
    } else {
      StandingMeans(m, code, base, k, l, t, fr);
      n := StepSimulated(w, arity, m, fn, code, p, base, k, l, t, fr);
      var s := IrMachine.Step(w, code, Running(k, l));
      var t1 := Execute(w, arity, p, t, n);
      RunUnfolds(w, code, Running(k, l), steps);
      if s.Running? {
        FollowsMeans(m, code, p, base, s, t1, fr);
        var n1 := RunSimulated(w, arity, m, fn, code, p, base, s.pc, s.local, t1, fr, steps - 1);
        ExecuteAdds(w, arity, p, t, n, n1);
        Progress(n, n1, |code|, s.pc, k, steps, IrMachine.Run(w, code, s, steps - 1));
        n := n + n1;
      } else {
        HaltedStays(w, code, s, steps - 1);
      }
    }
  }

  lemma Progress(n: nat, n1: nat, size: nat, pc: nat, k: nat, steps: nat, s: State)
    requires k < size && (n == 0 ==> pc == k + 1) && steps > 0
    requires s.Running? ==> n1 * size + s.pc >= steps - 1 + pc
    ensures s.Running? ==> (n + n1) * size + s.pc >= steps + k
  {
    assert (n + n1) * size == n * size + n1 * size;
    if n > 0 {
      assert n * size >= size;
    }
  }

  lemma RunNone(w: World, code: seq<Instr>, s: State)
    ensures IrMachine.Run(w, code, s, 0) == s
  {
  }

  lemma RunUnfolds(w: World, code: seq<Instr>, s: State, steps: nat)
    requires steps > 0
    ensures IrMachine.Run(w, code, s, steps) == IrMachine.Run(w, code, IrMachine.Step(w, code, s), steps - 1)
  {
  }

  lemma FollowsStanding(m: Assignment, code: seq<Instr>, p: seq<Line>, base: nat, k: nat, l: Local, t: ArmState,
                        fr: Frame)
    requires FrameOk(fr) && Standing(m, code, base, k, l, t, fr)
    ensures Follows(m, code, p, base, Running(k, l), t, fr)
  {
  }

  lemma FollowsMeans(m: Assignment, code: seq<Instr>, p: seq<Line>, base: nat, s: State, t: ArmState, fr: Frame)
    requires FrameOk(fr) && Follows(m, code, p, base, s, t, fr)
    ensures s.Running? ==> Standing(m, code, base, s.pc, s.local, t, fr)
    ensures s.Returned? ==> Returns(p, t, s.value, s.local.trace, fr)
  {
  }

  // ------------------------------------------------------------------ entering a function

  /** What the function finds on entry: registers decide the values of its names. */
  function EntryStore(m: Assignment, cpu: Cpu): Store {
    map x | x in m :: cpu.regs[m[x]]
  }

  function EntryFrame(cpu: Cpu): Frame {
    Frame(Unsigned(cpu.regs[SP]) - 36, SavedRegs(cpu.regs), cpu.mem)
  }

  /** From the label of the function through the prologue to its first instruction. */
  lemma EntryRuns(w: World, arity: Arity, m: Assignment, fn: string, code: seq<Instr>, p: seq<Line>, base: nat,
                  cpu: Cpu)
      returns (t: ArmState)
    requires Compiled(w, arity, m, fn, code, p, base) && Unsigned(cpu.regs[SP]) >= 36 && |code| > 1
    ensures FrameOk(EntryFrame(cpu)) && Execute(w, arity, p, At(base + 2, cpu), 4) == t
    ensures Standing(m, code, base, 1, Local(EntryStore(m, cpu), [], cpu.trace), t, EntryFrame(cpu))
  {
    hide *;
    var fr := EntryFrame(cpu);
    FrameFits(cpu);
    CompiledMeans(w, arity, m, fn, code, p, base, 0);
    EntryOffset(w, arity, m, fn, code, p, base);
    var c1 := Pushed(w, arity, m, cpu);
    var e := EntryLines(fn);
    EntryLine(p, base, fn);
    SkipLine(w, arity, p, base + 2, cpu, 3);
    SkipLine(w, arity, p, base + 3, cpu, 2);
    PushStep(w, arity, p, base + 4, cpu, c1, 1);
    SkipLine(w, arity, p, base + 5, c1, 0);
    ExecuteNone(w, arity, p, At(base + 6, c1));
    t := At(base + 6, c1);
    StandingNext(m, code, base, 1, Local(EntryStore(m, cpu), [], cpu.trace), c1, fr);
  }

  function EntryLines(fn: string): seq<Line> {
    [Text(".global " + fn), Text(".type " + fn + ", %function"), Label(fn), Text("@ Function prologue"),
     PushSaved, Text("@ Stack frame allocation (placeholder)")]
  }

  lemma EntryLine(p: seq<Line>, base: nat, fn: string)
    requires HasLines(p, base, EntryLines(fn))
    ensures base + 6 <= |p| && p[base + 2] == Label(fn) && p[base + 3].Text? && p[base + 4] == PushSaved
            && p[base + 5].Text?
  {
    HasLine(p, base, EntryLines(fn), 2);
    HasLine(p, base, EntryLines(fn), 3);
    HasLine(p, base, EntryLines(fn), 4);
    HasLine(p, base, EntryLines(fn), 5);
  }

  lemma PushStep(w: World, arity: Arity, p: seq<Line>, pc: nat, cpu: Cpu, c: Cpu, n: nat)
    requires pc < |p| && p[pc] == PushSaved && StepLine(w, arity, PushSaved, cpu) == Some(c)
    ensures Execute(w, arity, p, At(pc, cpu), n + 1) == Execute(w, arity, p, At(pc + 1, c), n)
  {
    hide StepLine;
    StepOfLine(w, arity, p, pc, cpu);
  }

  lemma FrameFits(cpu: Cpu)
    requires Unsigned(cpu.regs[SP]) >= 36
    ensures FrameOk(EntryFrame(cpu))
  {
  }

  lemma EntryOffset(w: World, arity: Arity, m: Assignment, fn: string, code: seq<Instr>, p: seq<Line>, base: nat)
    requires Compiled(w, arity, m, fn, code, p, base) && |code| > 1
    ensures Offset(m, code, 1) == 6 && CtxAt(code, 1).pend == [] && HasLines(p, base, EntryLines(fn))
  {
    assert code[..0] == [];
    InstrAt(m, code, 0, p, base);
  }

  /** push {r4-r11, lr}: the frame is built below the old sp, names keep their values. */
  lemma Pushed(w: World, arity: Arity, m: Assignment, cpu: Cpu) returns (c: Cpu)
    requires MapOk(m) && Unsigned(cpu.regs[SP]) >= 36
    ensures StepLine(w, arity, PushSaved, cpu) == Some(c)
    ensures Match(m, [], Local(EntryStore(m, cpu), [], cpu.trace), c, EntryFrame(cpu))
  {
    var sp := Unsigned(cpu.regs[SP]);
    var saved := SavedRegs(cpu.regs);
    var mem := Stored(cpu.mem, sp - 36, saved);
    c := SetReg(cpu.(mem := mem), SP, Wrap(sp - 36));
    PoolRegs(m);
    StoredHolds(cpu.mem, sp - 36, saved);
    forall a | a in cpu.mem && a >= sp
      ensures a in mem && mem[a] == cpu.mem[a]
    {
      StoredElsewhere(cpu.mem, sp - 36, saved, a);
    }
    UnsignedWrap(sp - 36);
  }

  lemma UnsignedWrap(x: nat)
    requires x < TWO32
    ensures Unsigned(Wrap(x)) == x
  {
  }
}
