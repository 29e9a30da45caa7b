/** Every instruction of the three-address machine is matched by the assembly generated for it: it
    leaves a matching state when it starts in one. */
module ArmSimulation {
  import opened Words
  import opened Ast
  import opened IrGenerator
  import opened IrMachine
  import opened RegisterAllocation
  import opened CodeGeneration
  import opened ArmMachine
  import opened WordMemory
  import Divmod
  import Labels
  import ArmLabels

  type Arity = string -> nat

  /** The frame of the running function: where sp points, what the prologue saved there, and the
      memory it was entered with. */
  datatype Frame = Frame(sp: int, saved: seq<word>, entry: map<int, word>)

  /** The saved registers are in place and the caller's memory, above them, is untouched. */
  ghost predicate FrameHeld(mem: map<int, word>, fr: Frame) {
    && InMemory(mem, fr.sp, fr.saved)
    && (forall a :: a in fr.entry && a >= fr.sp + 36 ==> a in mem && mem[a] == fr.entry[a])
  }

  ghost predicate MapOk(m: Assignment) {
    Injective(m) && m.Values <= POOL
  }

  /** Every name's register holds its value, the waiting parameters still have the values they had
      when they were passed, the calls made agree, and the saved registers are in place. */
  ghost predicate Match(m: Assignment, pend: seq<string>, l: Local, cpu: Cpu, fr: Frame) {
    && (forall x :: x in m ==> cpu.regs[m[x]] == Get(l.store, x))
    && cpu.trace == l.trace
    && |l.params| == |pend| && (forall i :: 0 <= i < |pend| ==> l.params[i] == Operand(l.store, pend[i]))
    && Unsigned(cpu.regs[SP]) == fr.sp && FrameHeld(cpu.mem, fr)
  }

  /** What the lines of an operator compute: always what `EvalBin` says, except for divisions the
      routine does not do. */
  function LinesResult(w: World, op: BinOp, a: word, b: word): Option<word> {
    if op != Div && op != Mod then Some(EvalBin(op, a, b))
    else if Divmod.Returns(a, b) then Some(Divided(w, op, a, b)) else None
  }

  /** The world the target can keep up with: where an operation has a meaning the lines compute it,
      and where it has none, what the three-address machine is said to make of it is what they do. */
  ghost predicate MachineWorld(w: World) {
    forall op, a: word, b: word :: w.Result(op, a, b).Some? ==>
      && LinesResult(w, op, a, b) == w.Result(op, a, b)
      && (w.defined(op, a, b) && (op == Div || op == Mod) ==> Divmod.Divides(a, b))
  }

  /** An operand the function keeps in a register, or a constant. */
  predicate Known(m: Assignment, a: string) {
    !IsStringLabel(a) && (IsName(a) ==> a in m)
  }

  /** From `a` to `b` only r0-r3, r12, lr, flags, memory below sp and perhaps `rd` changed. */
  ghost predicate Undisturbed(a: Cpu, b: Cpu, rd: Reg) {
    && (forall r: Reg :: 4 <= r <= 11 && r != rd ==> b.regs[r] == a.regs[r])
    && b.regs[SP] == a.regs[SP] && b.trace == a.trace
    && (forall k :: k in a.mem && k >= Unsigned(a.regs[SP]) ==> k in b.mem && b.mem[k] == a.mem[k])
  }

  // ------------------------------------------------------------------ operands

  /** A constant of any size ends up in r12, modulo 2^32. */
  lemma ConstantLoads(w: World, arity: Arity, v: int, cpu: Cpu)
    ensures RunLines(w, arity, ConstantLines(v), cpu) == Some(SetReg(cpu, IP, Wrap(v)))
  {
    if -255 <= v <= 255 {
      RunLine(w, arity, MovImm(AL, IP, v), cpu);
    } else {
      var (low, high) := (v % 0x1_0000, (v / 0x1_0000) % 0x1_0000);
      var c1 := SetReg(cpu, IP, Wrap(low));
      RunLine(w, arity, Movw(IP, low), cpu);
      if v > 0xFFFF || v < 0 {
        RunLinesAppend(w, arity, [Movw(IP, low)], [Movt(IP, high)], cpu);
        RunLine(w, arity, Movt(IP, high), c1);
        HalvesWrap(v);
        assert c1.regs[IP := Wrap(v)] == cpu.regs[IP := Wrap(v)];
      }
    }
  }

  lemma HalvesWrap(v: int)
    ensures Wrap((v / 0x1_0000) % 0x1_0000 * 0x1_0000 + Unsigned(Wrap(v % 0x1_0000)) % 0x1_0000) == Wrap(v)
  {
    var (low, high) := (v % 0x1_0000, (v / 0x1_0000) % 0x1_0000);
    var top := (v / 0x1_0000) / 0x1_0000;
    assert v == (high * 0x1_0000 + low) + top * TWO32;
    WrapShift(high * 0x1_0000 + low, top);
  }

  /** Making an operand available changes r12 at most. */
  lemma OperandLoads(w: World, arity: Arity, m: Assignment, pend: seq<string>, a: string, l: Local, cpu: Cpu, fr: Frame)
    requires MapOk(m) && Match(m, pend, l, cpu, fr) && Known(m, a)
    ensures var r := RunLines(w, arity, OperandLines(a), cpu);
            && r.Some? && r.value == (if IsConstant(a) then SetReg(cpu, IP, Operand(l.store, a)) else cpu)
            && r.value.regs[OperandReg(m, a)] == Operand(l.store, a)
            && 4 <= OperandReg(m, a) <= 12 && Match(m, pend, l, r.value, fr)
  {
    if IsConstant(a) {
      ConstantLoads(w, arity, ConstantValue(a), cpu);
      PoolRegs(m);
    } else {
      PoolRegs(m);
    }
  }

  lemma PoolRegs(m: Assignment)
    requires MapOk(m)
    ensures forall x :: x in m ==> 4 <= m[x] <= 11
  {
    forall x | x in m
      ensures m[x] in POOL
    {
      assert m[x] in m.Values;
    }
  }

  // ------------------------------------------------------------------ operators

  lemma Run2(w: World, arity: Arity, a: Line, b: Line, cpu: Cpu)
    requires StepLine(w, arity, a, cpu).Some?
    ensures RunLines(w, arity, [a, b], cpu) == StepLine(w, arity, b, StepLine(w, arity, a, cpu).value)
  {
    assert [a, b][1..] == [b];
    RunLine(w, arity, b, StepLine(w, arity, a, cpu).value);
  }

  lemma Run3(w: World, arity: Arity, a: Line, b: Line, c: Line, cpu: Cpu)
    requires StepLine(w, arity, a, cpu).Some?
    requires StepLine(w, arity, b, StepLine(w, arity, a, cpu).value).Some?
    ensures RunLines(w, arity, [a, b, c], cpu)
            == StepLine(w, arity, c, StepLine(w, arity, b, StepLine(w, arity, a, cpu).value).value)
  {
    assert [a, b, c][1..] == [b, c];
    Run2(w, arity, b, c, StepLine(w, arity, a, cpu).value);
  }

  /** cmp, then one of two conditional moves. */
  lemma CompareRuns(w: World, arity: Arity, rd: Reg, l: Reg, r: Reg, yes: Cond, no: Cond, cpu: Cpu, t: bool)
    requires 4 <= rd <= 11
    requires var f := CompareFlags(cpu.regs[l], cpu.regs[r]);
             (Holds(yes, f) <==> t) && (Holds(no, f) <==> !t)
    ensures var s := RunLines(w, arity, CompareLines(rd, l, r, yes, no), cpu);
            s.Some? && s.value.regs[rd] == Truth(t) && Undisturbed(cpu, s.value, rd)
  {
    Run3(w, arity, Cmp(l, r), MovImm(yes, rd, 1), MovImm(no, rd, 0), cpu);
  }

  /** Does the code of an operator compute `v` into `rd`? */
  ghost predicate Computes(w: World, arity: Arity, lines: seq<Line>, cpu: Cpu, rd: Reg, v: word) {
    var s := RunLines(w, arity, lines, cpu);
    s.Some? && s.value.regs[rd] == v && Undisturbed(cpu, s.value, rd)
  }

  lemma AndRuns(w: World, arity: Arity, rd: Reg, l: Reg, r: Reg, cpu: Cpu)
    requires 4 <= rd <= 11 && rd != r
    ensures Computes(w, arity, BinaryLines(LogAnd, rd, l, r), cpu, rd, EvalBin(LogAnd, cpu.regs[l], cpu.regs[r]))
  {
    var (x, y) := (cpu.regs[l], cpu.regs[r]);
    CompareMeaning(x, 0);
    CompareMeaning(y, 0);
    var first := [CmpZero(l), MovImm(NE, rd, 1), MovImm(EQ, rd, 0)];
    var second := [CmpZero(r), MovImm(EQ, rd, 0)];
    assert BinaryLines(LogAnd, rd, l, r) == first + second;
    RunLinesAppend(w, arity, first, second, cpu);
    Run3(w, arity, CmpZero(l), MovImm(NE, rd, 1), MovImm(EQ, rd, 0), cpu);
    var c := RunLines(w, arity, first, cpu).value;
    Run2(w, arity, CmpZero(r), MovImm(EQ, rd, 0), c);
  }

  lemma OrRuns(w: World, arity: Arity, rd: Reg, l: Reg, r: Reg, cpu: Cpu)
    requires 4 <= rd <= 11
    ensures Computes(w, arity, BinaryLines(LogOr, rd, l, r), cpu, rd, EvalBin(LogOr, cpu.regs[l], cpu.regs[r]))
  {
    var v := BitsW(Or, cpu.regs[l], cpu.regs[r]);
    OrWIsZero(cpu.regs[l], cpu.regs[r]);
    CompareMeaning(v, 0);
    Run3(w, arity, Alu(ORR, rd, l, r), CmpZero(rd), MovImm(NE, rd, 1), cpu);
  }

  lemma DivisionRuns(w: World, arity: Arity, op: BinOp, rd: Reg, l: Reg, r: Reg, cpu: Cpu)
    requires (op == Div || op == Mod) && 4 <= rd <= 11 && 4 <= l && 4 <= r
    requires LinesResult(w, op, cpu.regs[l], cpu.regs[r]).Some?
    ensures Computes(w, arity, BinaryLines(op, rd, l, r), cpu, rd, LinesResult(w, op, cpu.regs[l], cpu.regs[r]).value)
  {
    var (x, y) := (cpu.regs[l], cpu.regs[r]);
    var f := if op == Div then "__aeabi_idiv" else "__aeabi_idivmod";
    var from: Reg := if op == Div then 0 else 1;
    var first := [Mov(AL, 0, l), Mov(AL, 1, r)];
    var second := [Bl(f), Mov(AL, rd, from)];
    assert BinaryLines(op, rd, l, r) == first + second;
    RunLinesAppend(w, arity, first, second, cpu);
    Run2(w, arity, Mov(AL, 0, l), Mov(AL, 1, r), cpu);
    var c := RunLines(w, arity, first, cpu).value;
    assert c.regs[0] == x && c.regs[1] == y;
    Run2(w, arity, Bl(f), Mov(AL, rd, from), c);
  }

  lemma BinaryRuns(w: World, arity: Arity, op: BinOp, rd: Reg, l: Reg, r: Reg, cpu: Cpu)
    requires 4 <= rd <= 11 && 4 <= l && 4 <= r && (op == LogAnd ==> rd != r)
    requires LinesResult(w, op, cpu.regs[l], cpu.regs[r]).Some?
    ensures Computes(w, arity, BinaryLines(op, rd, l, r), cpu, rd, LinesResult(w, op, cpu.regs[l], cpu.regs[r]).value)
  {
    var (x, y) := (cpu.regs[l], cpu.regs[r]);
    CompareMeaning(x, y);
    match op
    case LogAnd => AndRuns(w, arity, rd, l, r, cpu);
    case LogOr => OrRuns(w, arity, rd, l, r, cpu);
    case Div => DivisionRuns(w, arity, op, rd, l, r, cpu);
    case Mod => DivisionRuns(w, arity, op, rd, l, r, cpu);
    case Eq => CompareRuns(w, arity, rd, l, r, EQ, NE, cpu, x == y);
    case Ne => CompareRuns(w, arity, rd, l, r, NE, EQ, cpu, x != y);
    case Lt => CompareRuns(w, arity, rd, l, r, LT, GE, cpu, x < y);
    case Gt => CompareRuns(w, arity, rd, l, r, GT, LE, cpu, x > y);
    case Le => CompareRuns(w, arity, rd, l, r, LE, GT, cpu, x <= y);
    case Ge => CompareRuns(w, arity, rd, l, r, GE, LT, cpu, x >= y);
    case _ => AluRuns(w, arity, op, rd, l, r, cpu);
  }

  lemma AluRuns(w: World, arity: Arity, op: BinOp, rd: Reg, l: Reg, r: Reg, cpu: Cpu)
    requires op in {Add, Sub, Mul, BitAnd, BitOr, BitXor, Shl, Shr} && 4 <= rd <= 11
    ensures Computes(w, arity, BinaryLines(op, rd, l, r), cpu, rd, EvalBin(op, cpu.regs[l], cpu.regs[r]))
  {
    var line := BinaryLines(op, rd, l, r)[0];
    AluValue(op, cpu.regs[l], cpu.regs[r], line.op);
    hide AluResult, EvalBin;
    RunLine(w, arity, line, cpu);
  }

  /** The instruction chosen for an operator computes it. */
  lemma AluValue(op: BinOp, x: word, y: word, alu: AluOp)
    requires op in {Add, Sub, Mul, BitAnd, BitOr, BitXor, Shl, Shr}
    requires forall rd: Reg, l: Reg, r: Reg :: BinaryLines(op, rd, l, r) == [Alu(alu, rd, l, r)]
    ensures AluResult(alu, x, y) == EvalBin(op, x, y)
  {
    hide Bits, Pow2;
    assert BinaryLines(op, 4, 4, 4) == [Alu(alu, 4, 4, 4)];
  }

  lemma UnaryRuns(w: World, arity: Arity, op: UnOp, rd: Reg, a: Reg, cpu: Cpu)
    requires (op == Neg || op == Not) && 4 <= rd <= 11
    ensures Computes(w, arity, UnaryLines(op, rd, a), cpu, rd, EvalUn(op, cpu.regs[a]).value)
  {
    if op == Neg {
      RunLine(w, arity, RsbZero(rd, a), cpu);
    } else {
      CompareMeaning(cpu.regs[a], 0);
      Run3(w, arity, CmpZero(a), MovImm(EQ, rd, 1), MovImm(NE, rd, 0), cpu);
    }
  }

  // ------------------------------------------------------------------ instructions

  /** What the target can do with an instruction in context `c`: names in registers of their own,
      at most one constant among two operands, a logical and that does not write its right operand,
      parameters that are not reassigned while they wait, and calls that take all of them. */
  predicate InstrOk(arity: Arity, m: Assignment, c: Context, i: Instr) {
    match i
    case BinaryOpIR(t, op, a, b) =>
      && t in m && t !in c.pend && Known(m, a) && Known(m, b)
      && (IsConstant(a) && IsConstant(b) ==> a == b)
      && (op == LogAnd ==> t != b)
    case UnaryOpIR(t, op, a) => t in m && t !in c.pend && Known(m, a) && (op == Neg || op == Not)
    case AssignIR(x, a) => x in m && x !in c.pend && Known(m, a)
    case ParamIR(_) => true
    case CallIR(t, f, n) =>
      && t in m && |c.pend| == n == arity(f) && n <= 4 && (forall a :: a in c.pend ==> Known(m, a))
      && GlobalName(f) && f !in SYSCALLS && f != "__aeabi_idiv" && f != "__aeabi_idivmod"
    case LabelIR(_) => c.pend == []
    case GotoIR(_) => c.pend == []
    case CondGotoIR(a, _, _) => c.pend == [] && Known(m, a)
    case ReturnIR(v) => c.pend == [] && (v.Some? ==> Known(m, v.value))
    case FunctionEntryIR(_) => c.pend == []
    case FunctionExitIR(_) => c.pend == []
    case _ => false
  }

  /** Writing a name's register: the other names keep theirs. */
  lemma MatchSet(m: Assignment, pend: seq<string>, l: Local, cpu: Cpu, fr: Frame, t: string, v: word, cpu': Cpu)
    requires MapOk(m) && Match(m, pend, l, cpu, fr) && t in m && t !in pend
    requires Undisturbed(cpu, cpu', m[t]) && cpu'.regs[m[t]] == v
    ensures Match(m, pend, l.(store := l.store[t := v]), cpu', fr)
  {
    PoolRegs(m);
    forall x | x in m && x != t
      ensures cpu'.regs[m[x]] == cpu.regs[m[x]]
    {
      assert m[x] != m[t];
    }
  }

  /** Straight-line instructions. */
  ghost predicate Simulated(w: World, arity: Arity, m: Assignment, c: Context, i: Instr, l: Local, cpu: Cpu,
                            fr: Frame) {
    var r := RunLines(w, arity, GenInstr(m, c, i), cpu);
    var l' := StepLocal(w, i, l);
    r.Some? && l'.Some? && Match(m, Next(c, i).pend, l'.value, r.value, fr)
  }

  lemma BinarySimulated(w: World, arity: Arity, m: Assignment, c: Context, i: Instr, l: Local, cpu: Cpu, fr: Frame)
    requires MapOk(m) && MachineWorld(w) && i.BinaryOpIR? && InstrOk(arity, m, c, i) && Match(m, c.pend, l, cpu, fr)
    requires StepLocal(w, i, l).Some?
    ensures Simulated(w, arity, m, c, i, l, cpu, fr)
  {
    hide EvalBin, BinaryLines, OperandLines, RunLines, LinesResult, FrameHeld, StepLine;
    var (la, lb) := (OperandLines(i.left), OperandLines(i.right));
    var (ra, rb, rd) := (OperandReg(m, i.left), OperandReg(m, i.right), RegOf(m, i.result));
    OperandLoads(w, arity, m, c.pend, i.left, l, cpu, fr);
    var c1 := RunLines(w, arity, la, cpu).value;
    OperandLoads(w, arity, m, c.pend, i.right, l, c1, fr);
    var c2 := RunLines(w, arity, lb, c1).value;
    PoolRegs(m);
    var (x, y) := (Operand(l.store, i.left), Operand(l.store, i.right));
    assert c2.regs[ra] == x && c2.regs[rb] == y;
    var v := w.Result(i.op, x, y).value;
    assert LinesResult(w, i.op, x, y) == Some(v);
    if i.op == LogAnd && IsName(i.right) {
      assert m[i.result] != m[i.right];
    }
    BinaryRuns(w, arity, i.op, rd, ra, rb, c2);
    RunLinesAppend(w, arity, la, lb, cpu);
    RunLinesAppend(w, arity, la + lb, BinaryLines(i.op, rd, ra, rb), cpu);
    var c3 := RunLines(w, arity, BinaryLines(i.op, rd, ra, rb), c2).value;
    MatchSet(m, c.pend, l, c2, fr, i.result, v, c3);
  }

  lemma UnarySimulated(w: World, arity: Arity, m: Assignment, c: Context, i: Instr, l: Local, cpu: Cpu, fr: Frame)
    requires MapOk(m) && i.UnaryOpIR? && InstrOk(arity, m, c, i) && Match(m, c.pend, l, cpu, fr)
    ensures Simulated(w, arity, m, c, i, l, cpu, fr)
  {
    hide UnaryLines, OperandLines, RunLines, FrameHeld, StepLine;
    var la := OperandLines(i.operand);
    var (ra, rd) := (OperandReg(m, i.operand), RegOf(m, i.result));
    OperandLoads(w, arity, m, c.pend, i.operand, l, cpu, fr);
    var c1 := RunLines(w, arity, la, cpu).value;
    PoolRegs(m);
    UnaryRuns(w, arity, i.uop, rd, ra, c1);
    RunLinesAppend(w, arity, la, UnaryLines(i.uop, rd, ra), cpu);
    var v := EvalUn(i.uop, c1.regs[ra]).value;
    MatchSet(m, c.pend, l, c1, fr, i.result, v, RunLines(w, arity, UnaryLines(i.uop, rd, ra), c1).value);
  }

  lemma AssignSimulated(w: World, arity: Arity, m: Assignment, c: Context, i: Instr, l: Local, cpu: Cpu, fr: Frame)
    requires MapOk(m) && i.AssignIR? && InstrOk(arity, m, c, i) && Match(m, c.pend, l, cpu, fr)
    ensures Simulated(w, arity, m, c, i, l, cpu, fr)
  {
    var la := OperandLines(i.source);
    var (ra, rd) := (OperandReg(m, i.source), RegOf(m, i.dest));
    OperandLoads(w, arity, m, c.pend, i.source, l, cpu, fr);
    hide OperandLines, RunLines, FrameHeld;
    var c1 := RunLines(w, arity, la, cpu).value;
    PoolRegs(m);
    var c2 := SetReg(c1, rd, c1.regs[ra]);
    MatchSet(m, c.pend, l, c1, fr, i.dest, c1.regs[ra], c2);
    if ra == rd {
      assert c2.regs == c1.regs;
      assert la + [] == la;
    } else {
      RunLinesAppend(w, arity, la, [Mov(AL, rd, ra)], cpu);
      RunLine(w, arity, Mov(AL, rd, ra), c1);
    }
  }

  /** From `a` to `b` only r0-r3 and r12 changed. */
  ghost predicate PassingOnly(a: Cpu, b: Cpu, k: nat) {
    && (forall r: Reg :: r < k || 4 <= r <= 11 || r >= 13 ==> b.regs[r] == a.regs[r])
    && b.trace == a.trace && b.mem == a.mem
  }

  /** The waiting parameters reach r_k, r_(k+1), ... */
  lemma {:induction false} ParamsPass(w: World, arity: Arity, m: Assignment, pend: seq<string>, k: nat, l: Local,
                                      cpu: Cpu, fr: Frame)
    requires k + |pend| <= 4 && MapOk(m) && Match(m, [], l, cpu, fr) && forall a :: a in pend ==> Known(m, a)
    ensures var r := RunLines(w, arity, ParamLines(m, pend, k), cpu);
            && r.Some? && PassingOnly(cpu, r.value, k)
            && forall i :: 0 <= i < |pend| ==> r.value.regs[k + i] == Operand(l.store, pend[i])
    decreases pend
  {
    if pend != [] {
      hide RunLines, OperandLines, OperandReg, Operand, Known, Match, MapOk;
      assert pend[0] in pend;
      var c2 := OneParam(w, arity, m, pend[0], k, l, cpu, fr);
      ParamsPass(w, arity, m, pend[1..], k + 1, l, c2, fr);
      RunLinesAppend(w, arity, OperandLines(pend[0]) + [Mov(AL, k, OperandReg(m, pend[0]))],
                     ParamLines(m, pend[1..], k + 1), cpu);
      ParamsHeld(l.store, pend, k, cpu, c2, RunLines(w, arity, ParamLines(m, pend[1..], k + 1), c2).value);
    } else {
      assert ParamLines(m, pend, k) == [];
    }
  }

  /** Later parameters leave the registers of earlier ones alone. */
  lemma ParamsHeld(store: Store, pend: seq<string>, k: nat, a: Cpu, b: Cpu, c: Cpu)
    requires pend != [] && k + |pend| <= 4 && PassingOnly(a, b, k) && PassingOnly(b, c, k + 1)
    requires b.regs[k] == Operand(store, pend[0])
    requires forall i :: 0 <= i < |pend[1..]| ==> c.regs[k + 1 + i] == Operand(store, pend[1..][i])
    ensures PassingOnly(a, c, k)
    ensures forall i :: 0 <= i < |pend| ==> c.regs[k + i] == Operand(store, pend[i])
  {
    hide Operand;
    forall i | 0 < i < |pend|
      ensures c.regs[k + i] == Operand(store, pend[i])
    {
      assert pend[1..][i - 1] == pend[i];
      assert c.regs[k + 1 + (i - 1)] == Operand(store, pend[1..][i - 1]);
    }
  }

  lemma OneParam(w: World, arity: Arity, m: Assignment, a: string, k: nat, l: Local, cpu: Cpu, fr: Frame)
      returns (c: Cpu)
    requires k < 4 && MapOk(m) && Match(m, [], l, cpu, fr) && Known(m, a)
    ensures RunLines(w, arity, OperandLines(a) + [Mov(AL, k, OperandReg(m, a))], cpu) == Some(c)
    ensures PassingOnly(cpu, c, k) && c.regs[k] == Operand(l.store, a) && Match(m, [], l, c, fr)
  {
    hide RunLines, OperandLines, Operand, IsConstant, IsName, FrameHeld;
    var (la, ra) := (OperandLines(a), OperandReg(m, a));
    OperandLoads(w, arity, m, [], a, l, cpu, fr);
    var c1 := RunLines(w, arity, la, cpu).value;
    RunLinesAppend(w, arity, la, [Mov(AL, k, ra)], cpu);
    RunLine(w, arity, Mov(AL, k, ra), c1);
    c := SetReg(c1, k, c1.regs[ra]);
    MatchPassing(m, l, c1, c, fr);
  }

  lemma MatchPassing(m: Assignment, l: Local, a: Cpu, b: Cpu, fr: Frame)
    requires MapOk(m) && Match(m, [], l, a, fr) && PassingOnly(a, b, 0)
    ensures Match(m, [], l, b, fr)
  {
    PoolRegs(m);
  }

  /** What a call leaves as it was, by the rules: from `a` to `b` only r0-r3, r12, lr, the flags and
      memory below sp changed, and the answer is in r0. */
  ghost predicate Obeys(a: Cpu, b: Cpu, r: Answer) {
    && Undisturbed(a.(trace := r.trace), b, 0) && b.regs[0] == r.value
  }

  /** A call of a function outside the program. */
  lemma CallSimulated(w: World, arity: Arity, m: Assignment, c: Context, i: Instr, l: Local, cpu: Cpu, fr: Frame)
    requires MapOk(m) && i.CallIR? && InstrOk(arity, m, c, i) && Match(m, c.pend, l, cpu, fr)
    requires StepLocal(w, i, l).Some?
    ensures Simulated(w, arity, m, c, i, l, cpu, fr)
  {
    hide RunLines, ParamLines, Operand, Known, FrameHeld;
    var c1, r := CallStarts(w, arity, m, c, i, l, cpu, fr);
    CallRuns(w, arity, i, l, c1, r);
    var c2 := AfterCall(w, c1, r.value, r.trace);
    var rd := RegOf(m, i.result);
    CallLines(arity, m, c, i);
    RunLinesAppend(w, arity, ParamLines(m, c.pend, 0), [Bl(i.callee), Mov(AL, rd, 0)], cpu);
    Run2(w, arity, Bl(i.callee), Mov(AL, rd, 0), c1);
    CallMatch(m, l, cpu, c1, c2, fr, i.result, r);
  }

  lemma CallLines(arity: Arity, m: Assignment, c: Context, i: Instr)
    requires i.CallIR? && InstrOk(arity, m, c, i)
    ensures |c.pend| <= 4
    ensures GenInstr(m, c, i) == ParamLines(m, c.pend, 0) + [Bl(i.callee), Mov(AL, m[i.result], 0)]
  {
    hide ParamLines, Known;
    assert FirstFour(c.pend) == c.pend && TransferLines(i.callee) == [Bl(i.callee)];
  }

  /** Up to the transfer: the arguments are where the callee expects them. */
  lemma CallStarts(w: World, arity: Arity, m: Assignment, c: Context, i: Instr, l: Local, cpu: Cpu, fr: Frame)
      returns (c1: Cpu, r: Answer)
    requires MapOk(m) && i.CallIR? && InstrOk(arity, m, c, i) && Match(m, c.pend, l, cpu, fr)
    requires StepLocal(w, i, l).Some?
    ensures |c.pend| <= 4 && RunLines(w, arity, ParamLines(m, c.pend, 0), cpu) == Some(c1) && PassingOnly(cpu, c1, 0)
    ensures arity(i.callee) <= 4 && c1.regs[..arity(i.callee)] == l.params && c1.trace == l.trace
    ensures w.call(i.callee, l.params, l.trace) == Some(r)
    ensures StepLocal(w, i, l) == Some(Local(l.store[i.result := r.value], [], r.trace))
  {
    hide RunLines, ParamLines, Operand, Known, FrameHeld;
    ParamsPass(w, arity, m, c.pend, 0, l.(params := []), cpu, fr);
    c1 := RunLines(w, arity, ParamLines(m, c.pend, 0), cpu).value;
    assert c1.regs[..|c.pend|] == l.params;
    r := CallEffect(w, i, l);
  }

  lemma CallRuns(w: World, arity: Arity, i: Instr, l: Local, c1: Cpu, r: Answer)
    requires i.CallIR? && arity(i.callee) <= 4 && i.callee != "__aeabi_idiv" && i.callee != "__aeabi_idivmod"
    requires c1.regs[..arity(i.callee)] == l.params && c1.trace == l.trace
    requires w.call(i.callee, l.params, l.trace) == Some(r)
    ensures Call(w, arity, i.callee, c1) == Some(AfterCall(w, c1, r.value, r.trace))
    ensures Obeys(c1, AfterCall(w, c1, r.value, r.trace), r)
  {
  }

  /** A call of all waiting parameters. */
  lemma CallEffect(w: World, i: Instr, l: Local) returns (r: Answer)
    requires i.CallIR? && |l.params| == i.numArgs && StepLocal(w, i, l).Some?
    ensures w.call(i.callee, l.params, l.trace) == Some(r)
    ensures StepLocal(w, i, l) == Some(Local(l.store[i.result := r.value], [], r.trace))
  {
    assert l.params[0..] == l.params && l.params[..0] == [];
    r := w.call(i.callee, l.params, l.trace).value;
  }

  lemma CallMatch(m: Assignment, l: Local, cpu: Cpu, c1: Cpu, c2: Cpu, fr: Frame, t: string, r: Answer)
    requires MapOk(m) && t in m && Match(m, [], l.(params := []), cpu, fr) && PassingOnly(cpu, c1, 0)
    requires Obeys(c1, c2, r)
    ensures Match(m, [], Local(l.store[t := r.value], [], r.trace), SetReg(c2, m[t], c2.regs[0]), fr)
  {
    PoolRegs(m);
    var c3 := SetReg(c2, m[t], c2.regs[0]);
    forall x | x in m && x != t
      ensures c3.regs[m[x]] == cpu.regs[m[x]]
    {
      assert m[x] != m[t];
    }
  }

  /** Every straight-line instruction the target can do. */
  lemma LocalSimulated(w: World, arity: Arity, m: Assignment, c: Context, i: Instr, l: Local, cpu: Cpu, fr: Frame)
    requires MapOk(m) && MachineWorld(w) && InstrOk(arity, m, c, i) && Match(m, c.pend, l, cpu, fr)
    requires StepLocal(w, i, l).Some?
    ensures Simulated(w, arity, m, c, i, l, cpu, fr)
  {
    match i
    case BinaryOpIR(_, _, _, _) => BinarySimulated(w, arity, m, c, i, l, cpu, fr);
    case UnaryOpIR(_, _, _) => UnarySimulated(w, arity, m, c, i, l, cpu, fr);
    case AssignIR(_, _) => AssignSimulated(w, arity, m, c, i, l, cpu, fr);
    case CallIR(_, _, _) => CallSimulated(w, arity, m, c, i, l, cpu, fr);
    case ParamIR(_) =>
    case _ =>
  }

  // ------------------------------------------------------------------ control flow

  /** Where the code of instruction `k` starts, relative to the code of the function. */
  function Offset(m: Assignment, code: seq<Instr>, k: nat): nat
    requires k <= |code|
  {
    |GenCode(m, Context("", []), code[..k])|
  }

  function CtxAt(code: seq<Instr>, k: nat): Context
    requires k <= |code|
  {
    After(Context("", []), code[..k])
  }

  lemma InstrAt(m: Assignment, code: seq<Instr>, k: nat, p: seq<Line>, base: nat)
    requires k < |code| && HasLines(p, base, GenCode(m, Context("", []), code))
    ensures HasLines(p, base + Offset(m, code, k), GenInstr(m, CtxAt(code, k), code[k]))
    ensures Offset(m, code, k + 1) == Offset(m, code, k) + |GenInstr(m, CtxAt(code, k), code[k])|
    ensures CtxAt(code, k + 1) == Next(CtxAt(code, k), code[k])
  {
    var c0 := Context("", []);
    hide GenCode, GenInstr, Next, After, HasLines;
    assert code == code[..k] + ([code[k]] + code[k + 1..]);
    GenAppend(m, c0, code[..k], [code[k]] + code[k + 1..]);
    GenAppend(m, CtxAt(code, k), [code[k]], code[k + 1..]);
    GenOne(m, CtxAt(code, k), code[k]);
    HasLinesSplit(p, base, GenCode(m, c0, code[..k]), GenCode(m, CtxAt(code, k), [code[k]] + code[k + 1..]));
    HasLinesSplit(p, base + Offset(m, code, k), GenInstr(m, CtxAt(code, k), code[k]),
                  GenCode(m, After(CtxAt(code, k), [code[k]]), code[k + 1..]));
    assert code[..k + 1] == code[..k] + [code[k]];
    GenAppend(m, c0, code[..k], [code[k]]);
    AfterAppend(c0, code[..k], [code[k]]);
  }

  /** The program fits the address space, and the division runtime is not part of it. */
  ghost predicate Loadable(p: seq<Line>) {
    |p| < TWO32 && !Inside(p, "__aeabi_idiv") && !Inside(p, "__aeabi_idivmod")
  }

  /** Everything known about one compiled function inside a program. */
  ghost predicate Compiled(w: World, arity: Arity, m: Assignment, fn: string, code: seq<Instr>, p: seq<Line>,
                           base: nat) {
    && MapOk(m) && MachineWorld(w)
    && HasLines(p, base, GenCode(m, Context("", []), code)) && ArmLabels.UniqueLocals(p) && Loadable(p)
    && |code| > 0 && code[0] == FunctionEntryIR(fn) && code[|code| - 1] == FunctionExitIR(fn)
    && Labels.UniqueLabels(code) && Labels.Jumps(code) <= Labels.Defined(code)
    && (forall k :: 0 < k < |code| ==> !code[k].FunctionEntryIR?)
    && (forall k :: 0 <= k < |code| - 1 ==> !code[k].FunctionExitIR?)
    && (forall k :: 0 <= k < |code| ==> InstrOk(arity, m, CtxAt(code, k), code[k]))
  }

  lemma {:induction false} FnAt(code: seq<Instr>, k: nat)
    requires 0 < k <= |code| && code[0].FunctionEntryIR? && forall j :: 0 < j < |code| ==> !code[j].FunctionEntryIR?
    ensures CtxAt(code, k).fn == code[0].name
  {
    if k == 1 {
      assert code[..1] == [code[0]] && [code[0]][1..] == [];
      assert After(Context("", []), [code[0]]) == Next(Context("", []), code[0]);
    } else {
      FnAt(code, k - 1);
      assert code[..k] == code[..k - 1] + [code[k - 1]];
      AfterAppend(Context("", []), code[..k - 1], [code[k - 1]]);
      assert [code[k - 1]][1..] == [];
    }
  }

  lemma CompiledMeans(w: World, arity: Arity, m: Assignment, fn: string, code: seq<Instr>, p: seq<Line>, base: nat,
                      k: nat)
    requires Compiled(w, arity, m, fn, code, p, base) && k < |code|
    ensures MapOk(m) && MachineWorld(w) && HasLines(p, base, GenCode(m, Context("", []), code))
    ensures ArmLabels.UniqueLocals(p) && Labels.UniqueLabels(code) && Labels.Jumps(code) <= Labels.Defined(code)
    ensures Loadable(p)
    ensures InstrOk(arity, m, CtxAt(code, k), code[k])
    ensures code[0].FunctionEntryIR? && (k == 0 || CtxAt(code, k).fn == fn)
    ensures k == |code| - 1 <==> code[k].FunctionExitIR?
    ensures k > 0 ==> !code[k].FunctionEntryIR?
  {
    hide InstrOk, HasLines, MapOk, MachineWorld, GenCode, After, ArmLabels.UniqueLocals, Labels.UniqueLabels,
      Labels.Jumps;
    if k > 0 {
      FnAt(code, k);
    }
  }

  /** A branch to a label of the function arrives at the code of that label. */
  lemma BranchArrives(w: World, arity: Arity, m: Assignment, fn: string, code: seq<Instr>, p: seq<Line>, base: nat,
                      mark: string)
    requires Compiled(w, arity, m, fn, code, p, base) && mark in Labels.Defined(code)
    ensures var j := Target(code, mark);
            && j < |code| && code[j] == LabelIR(mark)
            && Find(p, MarkOf(fn, mark)) == base + Offset(m, code, j)
            && CtxAt(code, j).pend == []
  {
    hide *;
    var j := DefinedAt(code, mark);
    CompiledMeans(w, arity, m, fn, code, p, base, j);
    LabelOk(arity, m, CtxAt(code, j), code[j]);
    Labels.TargetIsDefinition(code, j);
    InstrAt(m, code, j, p, base);
    LocalMark(fn, mark);
    HasLine(p, base + Offset(m, code, j), [Label(MarkOf(fn, mark))], 0);
    ArmLabels.FindIsDefinition(p, base + Offset(m, code, j));
  }

  lemma LocalMark(fn: string, mark: string)
    ensures ArmLabels.IsLocal(Label(MarkOf(fn, mark)))
  {
  }

  lemma DefinedAt(code: seq<Instr>, mark: string) returns (j: nat)
    requires mark in Labels.Defined(code)
    ensures j < |code| && code[j] == LabelIR(mark)
  {
    j :| 0 <= j < |code| && code[j].LabelIR? && code[j].mark == mark;
  }

  /** Control never moves while parameters wait. */
  lemma LabelOk(arity: Arity, m: Assignment, c: Context, i: Instr)
    requires InstrOk(arity, m, c, i)
    ensures i.LabelIR? || i.GotoIR? || i.CondGotoIR? || i.ReturnIR? || i.FunctionExitIR? || i.FunctionEntryIR? ==>
              c.pend == []
    ensures i.LabelIR? ==> GenInstr(m, c, i) == [Label(MarkOf(c.fn, i.mark))] && Next(c, i) == c
    ensures i.GotoIR? ==> GenInstr(m, c, i) == [Branch(AL, MarkOf(c.fn, i.mark))]
    ensures i.CondGotoIR? ==> Known(m, i.condition) && Next(c, i) == c
    ensures i.ReturnIR? ==> i.returned.Some? ==> Known(m, i.returned.value)
    ensures i.FunctionExitIR? ==> GenInstr(m, c, i) == ExitLines(i.name, 0)
  {
    hide Known;
  }

  /** The epilogue label of the function stands in the code of its exit. */
  lemma EpilogueArrives(w: World, arity: Arity, m: Assignment, fn: string, code: seq<Instr>, p: seq<Line>, base: nat)
    requires Compiled(w, arity, m, fn, code, p, base)
    ensures var e := base + Offset(m, code, |code| - 1);
            Find(p, MarkOf(fn, "epilogue")) == e + 1 && HasLines(p, e, ExitLines(fn, 0))
  {
    hide *;
    ExitIsLast(w, arity, m, fn, code, p, base);
    var j := |code| - 1;
    CompiledMeans(w, arity, m, fn, code, p, base, j);
    LabelOk(arity, m, CtxAt(code, j), code[j]);
    InstrAt(m, code, j, p, base);
    var e := base + Offset(m, code, j);
    ExitMark(fn);
    HasLine(p, e, ExitLines(fn, 0), 1);
    LocalMark(fn, "epilogue");
    ArmLabels.FindIsDefinition(p, e + 1);
  }

  lemma ExitIsLast(w: World, arity: Arity, m: Assignment, fn: string, code: seq<Instr>, p: seq<Line>, base: nat)
    requires Compiled(w, arity, m, fn, code, p, base)
    ensures |code| > 0 && code[|code| - 1] == FunctionExitIR(fn)
  {
    hide InstrOk, HasLines, MapOk, MachineWorld, GenCode, After, ArmLabels.UniqueLocals, Labels.UniqueLabels,
      Labels.Jumps;
  }

  lemma ExitMark(fn: string)
    ensures |ExitLines(fn, 0)| > 1 && ExitLines(fn, 0)[1] == Label(MarkOf(fn, "epilogue"))
  {
    assert "." + fn + "_epilogue" == MarkOf(fn, "epilogue");
  }
}
