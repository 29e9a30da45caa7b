/** The target machine: sixteen registers, flags, word memory, and the assembly lines as its
    program. A line's place in the program is its address. A call of a function of the program goes
    to its label with the return address in lr. Calls of functions outside the program obey the
    procedure call standard (AAPCS32, section 6.1.1): they answer in r0, may change r1-r3, r12, lr,
    the flags and memory below sp, and leave r4-r11, sp and memory from sp up as they were. */
module ArmMachine {
  import opened Words
  import opened Ast
  import opened IrMachine
  import opened RegisterAllocation
  import opened CodeGeneration
  import opened WordMemory
  import Divmod

  type Regs = s: seq<word> | |s| == 16 witness [0, 0, 0, 0, 0, 0, 0, 0, 0, 0, 0, 0, 0, 0, 0, 0]

  datatype Flags = Flags(n: bool, z: bool, c: bool, v: bool)

  datatype Cpu = Cpu(regs: Regs, flags: Flags, mem: map<int, word>, trace: seq<Event>)

  datatype ArmState =
    | At(pc: nat, cpu: Cpu)
    | Left(address: word, cpu: Cpu)
    | Fault

  /** The flags of a comparison, from the 32-bit difference. */
  function CompareFlags(a: word, b: word): Flags {
    var r := Wrap(a as int - b as int);
    Flags(r < 0, r == 0, Unsigned(a) >= Unsigned(b), a as int - b as int != r)
  }

  predicate Holds(c: Cond, f: Flags) {
    match c
    case AL => true
    case EQ => f.z
    case NE => !f.z
    case LT => f.n != f.v
    case GE => f.n == f.v
    case GT => !f.z && f.n == f.v
    case LE => f.z || f.n != f.v
  }

  /** A shift by register uses its bottom byte; 32 or more shifts everything out. */
  function AluResult(op: AluOp, a: word, b: word): word {
    var amount := Unsigned(b) % 256;
    match op
    case ADD => Wrap(a + b)
    case SUB => Wrap(a as int - b as int)
    case MUL => Wrap(a * b)
    case AND => BitsW(And, a, b)
    case ORR => BitsW(Or, a, b)
    case EOR => BitsW(Xor, a, b)
    case LSL => if amount < 32 then Wrap(a * Pow2(amount)) else 0
    case ASR => if amount < 32 then Wrap(a / Pow2(amount)) else if a < 0 then -1 else 0
  }

  function SetReg(cpu: Cpu, r: Reg, v: word): (c: Cpu)
    ensures c.flags == cpu.flags && c.mem == cpu.mem && c.trace == cpu.trace
    ensures forall q: Reg :: c.regs[q] == if q == r then v else cpu.regs[q]
  {
    cpu.(regs := cpu.regs[r := v])
  }

  /** What a call leaves behind, apart from its answer. */
  function AfterCall(w: World, cpu: Cpu, answer: word, trace: seq<Event>): (c: Cpu)
    ensures c.regs[0] == answer && c.regs[SP] == cpu.regs[SP] && c.trace == trace
    ensures forall r: Reg :: 4 <= r <= 11 ==> c.regs[r] == cpu.regs[r]
    ensures forall a :: a in cpu.mem && a >= Unsigned(cpu.regs[SP]) ==> a in c.mem && c.mem[a] == cpu.mem[a]
  {
    var s := k => w.scratch(trace, k);
    Cpu(cpu.regs[0 := answer][1 := s(1)][2 := s(2)][3 := s(3)][IP := s(12)][LR := s(14)],
        Flags(s(16) != 0, s(17) != 0, s(18) != 0, s(19) != 0),
        map a | a in cpu.mem && a >= Unsigned(cpu.regs[SP]) :: cpu.mem[a], trace)
  }

  /** What the division routine yields when it returns: the right word for operands it divides, some
      word for others. */
  function Divided(w: World, op: BinOp, n: word, d: word): word {
    if Divmod.Divides(n, d) then EvalBin(op, n, d)
    else if w.stray(op, n, d).Some? then w.stray(op, n, d).value else 0
  }

  /** A call: the two division routines, by the contract proved for them, or a function outside the
      program, which takes its `arity` arguments from r0 on. */
  function Call(w: World, arity: string -> nat, f: string, cpu: Cpu): Option<Cpu> {
    if f == "__aeabi_idiv" || f == "__aeabi_idivmod" then
      var (n, d) := (cpu.regs[0], cpu.regs[1]);
      if !Divmod.Returns(n, d) then None
      else
        var c := AfterCall(w, cpu, Divided(w, Div, n, d), cpu.trace);
        Some(if f == "__aeabi_idivmod" then SetReg(c, 1, Divided(w, Mod, n, d)) else c)
    else if arity(f) > 4 then None
    else
      var a := w.call(f, cpu.regs[..arity(f)], cpu.trace);
      if a.None? then None else Some(AfterCall(w, cpu, a.value.value, a.value.trace))
  }

  /** r4-r11 and lr, as the prologue stores them from the new sp up. */
  function SavedRegs(regs: Regs): seq<word> {
    regs[4..12] + [regs[LR]]
  }

  /** Lines after which the next line runs. */
  function StepLine(w: World, arity: string -> nat, line: Line, cpu: Cpu): Option<Cpu> {
    match line
    case Text(_) => Some(cpu)
    case Label(_) => Some(cpu)
    case Mov(c, rd, rm) => Some(if Holds(c, cpu.flags) then SetReg(cpu, rd, cpu.regs[rm]) else cpu)
    case MovImm(c, rd, v) => Some(if Holds(c, cpu.flags) then SetReg(cpu, rd, Wrap(v)) else cpu)
    case Movw(rd, low) => Some(SetReg(cpu, rd, Wrap(low)))
    case Movt(rd, high) => Some(SetReg(cpu, rd, Wrap(high * 0x1_0000 + Unsigned(cpu.regs[rd]) % 0x1_0000)))
    case Alu(op, rd, rn, rm) => Some(SetReg(cpu, rd, AluResult(op, cpu.regs[rn], cpu.regs[rm])))
    case RsbZero(rd, rm) => Some(SetReg(cpu, rd, Wrap(0 - cpu.regs[rm] as int)))
    case Cmp(rn, rm) => Some(cpu.(flags := CompareFlags(cpu.regs[rn], cpu.regs[rm])))
    case CmpZero(rn) => Some(cpu.(flags := CompareFlags(cpu.regs[rn], 0)))
    case Bl(f) => Call(w, arity, f, cpu)
    case PushSaved =>
      var sp := Unsigned(cpu.regs[SP]);
      if sp < 36 then None
      else Some(SetReg(cpu.(mem := Stored(cpu.mem, sp - 36, SavedRegs(cpu.regs))), SP, Wrap(sp - 36)))
    case AddSp(n) => Some(SetReg(cpu, SP, Wrap(Unsigned(cpu.regs[SP]) + n)))
    case _ => None
  }

  function RunLines(w: World, arity: string -> nat, lines: seq<Line>, cpu: Cpu): Option<Cpu> {
    if lines == [] then Some(cpu)
    else
      var r := StepLine(w, arity, lines[0], cpu);
      if r.None? then None else RunLines(w, arity, lines[1..], r.value)
  }

  lemma {:induction false} RunLinesAppend(w: World, arity: string -> nat, a: seq<Line>, b: seq<Line>, cpu: Cpu)
    ensures RunLines(w, arity, a + b, cpu)
            == if RunLines(w, arity, a, cpu).None? then None
               else RunLines(w, arity, b, RunLines(w, arity, a, cpu).value)
    decreases a
  {
    if a == [] {
      assert a + b == b;
    } else {
      assert (a + b)[1..] == a[1..] + b;
      var r := StepLine(w, arity, a[0], cpu);
      if r.Some? {
        RunLinesAppend(w, arity, a[1..], b, r.value);
      }
    }
  }

  lemma RunLine(w: World, arity: string -> nat, line: Line, cpu: Cpu)
    ensures RunLines(w, arity, [line], cpu) == StepLine(w, arity, line, cpu)
  {
    assert [line][1..] == [];
  }

  /** Where a label stands in the program; past the end when it does not. */
  function Find(p: seq<Line>, mark: string): nat {
    if p == [] then 0 else if p[0] == Label(mark) then 0 else 1 + Find(p[1..], mark)
  }

  /** Going to an address, in the program or outside. */
  function Land(p: seq<Line>, address: word, cpu: Cpu): ArmState {
    if Unsigned(address) < |p| then At(Unsigned(address), cpu) else Left(address, cpu)
  }

  /** A name no local label and no string label can be. */
  predicate GlobalName(x: string) {
    !("." <= x) && !("str_" <= x)
  }

  /** A function of the program. */
  predicate Inside(p: seq<Line>, f: string) {
    Find(p, f) < |p|
  }

  /** pop {r4-r11, pc}: leave the function for the saved return address. */
  function Pop(p: seq<Line>, cpu: Cpu): ArmState {
    var sp := Unsigned(cpu.regs[SP]);
    if exists i :: 0 <= i < 9 && sp + 4 * i !in cpu.mem then Fault
    else
      var saved := seq(9, i requires 0 <= i < 9 => cpu.mem[sp + 4 * i]);
      var regs := cpu.regs[..4] + saved[..8] + cpu.regs[12..];
      Land(p, saved[8], cpu.(regs := regs[SP := Wrap(sp + 36)]))
  }

  function ExecuteStep(w: World, arity: string -> nat, p: seq<Line>, s: ArmState): ArmState {
    if !s.At? then s
    else if s.pc >= |p| then Fault
    else
      match p[s.pc]
      case Branch(c, mark) => At(if Holds(c, s.cpu.flags) then Find(p, mark) else s.pc + 1, s.cpu)
      case PopReturn => Pop(p, s.cpu)
      case Bl(f) => if Inside(p, f) then Enter(p, f, s.pc, s.cpu) else Onward(s.pc, Call(w, arity, f, s.cpu))
      case line => Onward(s.pc, StepLine(w, arity, line, s.cpu))
  }

  function Onward(pc: nat, r: Option<Cpu>): ArmState {
    if r.None? then Fault else At(pc + 1, r.value)
  }

  /** A call of a function of the program. */
  function Enter(p: seq<Line>, f: string, pc: nat, cpu: Cpu): ArmState {
    At(Find(p, f), SetReg(cpu, LR, Wrap(pc + 1)))
  }

  /** None of the lines calls a function of the program. */
  ghost predicate Outward(p: seq<Line>, part: seq<Line>) {
    forall k :: 0 <= k < |part| && part[k].Bl? ==> !Inside(p, part[k].callee)
  }

  function Execute(w: World, arity: string -> nat, p: seq<Line>, s: ArmState, n: nat): ArmState
    decreases n
  {
    if n == 0 then s else Execute(w, arity, p, ExecuteStep(w, arity, p, s), n - 1)
  }

  lemma {:induction false} ExecuteAdds(w: World, arity: string -> nat, p: seq<Line>, s: ArmState, m: nat, n: nat)
    ensures Execute(w, arity, p, s, m + n) == Execute(w, arity, p, Execute(w, arity, p, s, m), n)
    decreases m
  {
    if m > 0 {
      ExecuteAdds(w, arity, p, ExecuteStep(w, arity, p, s), m - 1, n);
    }
  }

  lemma ExecuteOne(w: World, arity: string -> nat, p: seq<Line>, s: ArmState)
    ensures Execute(w, arity, p, s, 1) == ExecuteStep(w, arity, p, s)
  {
    assert Execute(w, arity, p, ExecuteStep(w, arity, p, s), 0) == ExecuteStep(w, arity, p, s);
  }

  ghost predicate HasLines(p: seq<Line>, pc: nat, part: seq<Line>) {
    pc + |part| <= |p| && p[pc..pc + |part|] == part
  }

  lemma HasLinesSplit(p: seq<Line>, pc: nat, a: seq<Line>, b: seq<Line>)
    requires HasLines(p, pc, a + b)
    ensures HasLines(p, pc, a) && HasLines(p, pc + |a|, b)
  {
    var part := p[pc..pc + |a + b|];
    assert part[..|a|] == a && part[|a|..] == b;
    assert p[pc..pc + |a|] == part[..|a|];
    assert p[pc + |a|..pc + |a| + |b|] == part[|a|..];
  }

  lemma HasLine(p: seq<Line>, pc: nat, part: seq<Line>, k: nat)
    requires HasLines(p, pc, part) && k < |part|
    ensures pc + k < |p| && p[pc + k] == part[k]
  {
    assert p[pc..pc + |part|][k] == part[k];
  }

  lemma StepOfLine(w: World, arity: string -> nat, p: seq<Line>, pc: nat, cpu: Cpu)
    requires pc < |p| && StepLine(w, arity, p[pc], cpu).Some? && Outward(p, [p[pc]])
    ensures ExecuteStep(w, arity, p, At(pc, cpu)) == At(pc + 1, StepLine(w, arity, p[pc], cpu).value)
  {
    assert [p[pc]][0] == p[pc];
    hide Land, Pop;
  }

  /** Straight lines embedded anywhere take one step each. */
  lemma {:induction false} ExecuteStraight(w: World, arity: string -> nat, p: seq<Line>, pc: nat, part: seq<Line>,
                                           cpu: Cpu)
    requires HasLines(p, pc, part) && RunLines(w, arity, part, cpu).Some? && Outward(p, part)
    ensures Execute(w, arity, p, At(pc, cpu), |part|) == At(pc + |part|, RunLines(w, arity, part, cpu).value)
    decreases |part|
  {
    hide StepLine;
    if part != [] {
      assert p[pc] == p[pc..pc + |part|][0] == part[0];
      assert p[pc + 1..pc + |part|] == p[pc..pc + |part|][1..];
      StepOfLine(w, arity, p, pc, cpu);
      ExecuteStraight(w, arity, p, pc + 1, part[1..], StepLine(w, arity, part[0], cpu).value);
    }
  }

  /** The conditions mean what their names say after a comparison. */
  lemma CompareMeaning(a: word, b: word)
    ensures var f := CompareFlags(a, b);
            && (Holds(EQ, f) <==> a == b) && (Holds(NE, f) <==> a != b)
            && (Holds(LT, f) <==> a < b) && (Holds(GE, f) <==> a >= b)
            && (Holds(GT, f) <==> a > b) && (Holds(LE, f) <==> a <= b)
  {
  }
}
