/** A system call from a compiled program to the kernel and back. */
module SystemCalls {
  // The lines the code generator emits for one, run up to the svc, served by the kernel, and run on.

  import opened Words
  import opened Ast
  import opened IrGenerator
  import opened IrMachine
  import opened RegisterAllocation
  import opened CodeGeneration
  import opened ArmMachine
  import opened ArmSimulation
  import Loader
  import Scheduling
  import K = SvcHandler

  const NUMBER: Reg := 7

  /** The registers the kernel saves, without signs. */
  function Saved(cpu: Cpu, pc: u32): K.Frame {
    K.Frame(seq(13, k requires 0 <= k < 13 => Unsigned(cpu.regs[k]) as u32), pc)
  }

  /** The processor when the kernel has gone back to `f`: everything else is as it was. */
  function Resumed(cpu: Cpu, f: K.Frame): Cpu {
    cpu.(regs := seq(16, k requires 0 <= k < 16 => if k < 13 then Wrap(f.r[k]) else cpu.regs[k]))
  }

  /** The lines before the svc. */
  function Approach(m: Assignment, c: Context, callee: string): seq<Line>
    requires callee in SYSCALLS
  {
    ParamLines(m, FirstFour(c.pend), 0) + [MovImm(AL, NUMBER, SYSCALLS[callee])]
  }

  /** A system call: lines that end in an svc, and a move of the answer. */
  lemma CallCode(m: Assignment, c: Context, i: Instr)
    requires i.CallIR? && i.callee in SYSCALLS && i.result in m
    ensures GenInstr(m, c, i) == Approach(m, c, i.callee) + [Svc, Mov(AL, m[i.result], 0)]
  {
    hide ParamLines, FirstFour;
  }

  /** A call of a system call's name that the target can do, but for the svc. */
  ghost predicate Sound(m: Assignment, c: Context, i: Instr, l: Local, cpu: Cpu, fr: Frame) {
    && MapOk(m) && i.CallIR? && i.callee in SYSCALLS && i.result in m
    && |c.pend| <= 4 && (forall a :: a in c.pend ==> Known(m, a)) && Match(m, c.pend, l, cpu, fr)
  }

  /** At the svc the number is in r7 and the arguments are in r0 to r3. */
  lemma CallArrives(w: World, arity: Arity, m: Assignment, c: Context, i: Instr, l: Local, cpu: Cpu, fr: Frame,
                    pc: u32)
      returns (c1: Cpu)
    requires Sound(m, c, i, l, cpu, fr)
    ensures RunLines(w, arity, Approach(m, c, i.callee), cpu) == Some(c1)
    ensures var r := Saved(c1, pc).r;
            r[7] == SYSCALLS[i.callee] && forall k :: 0 <= k < |l.params| ==> r[k] == Unsigned(l.params[k])
    ensures c1.trace == cpu.trace && c1.mem == cpu.mem && c1.regs[SP] == cpu.regs[SP]
    ensures forall q: Reg :: 4 <= q <= 11 ==> c1.regs[q] == if q == NUMBER then SYSCALLS[i.callee] else cpu.regs[q]
  {
    hide RunLines, ParamLines, Operand, Known, FrameHeld;
    ParamsPass(w, arity, m, c.pend, 0, l.(params := []), cpu, fr);
    var c0 := RunLines(w, arity, ParamLines(m, c.pend, 0), cpu).value;
    var line := MovImm(AL, NUMBER, SYSCALLS[i.callee]);
    RunLinesAppend(w, arity, ParamLines(m, c.pend, 0), [line], cpu);
    RunLine(w, arity, line, c0);
    c1 := RunLines(w, arity, Approach(m, c, i.callee), cpu).value;
    assert SYSCALLS[i.callee] < 4;
    forall k | 0 <= k < |l.params|
      ensures Saved(c1, pc).r[k] == Unsigned(l.params[k])
    {
      assert c0.regs[0 + k] == Operand(l.store, c.pend[k]);
    }
  }

  /** Only the name in r7 is in danger. */
  ghost predicate Unharmed(m: Assignment, store: Store, t: string, number: nat) {
    forall x :: x in m && m[x] == NUMBER && x != t ==> Get(store, x) == number
  }

  /** Coming back with an answer in r0, the program goes on with the answer in the name that takes it.
      Every other name has its value if and only if none of them lives in r7, or its value is the
      number of the call. */
  lemma CallReturns(w: World, arity: Arity, m: Assignment, c: Context, i: Instr, l: Local, cpu: Cpu, fr: Frame,
                    pc: u32, c1: Cpu, answer: u32)
    requires Sound(m, c, i, l, cpu, fr)
    requires c1.trace == cpu.trace && c1.mem == cpu.mem && c1.regs[SP] == cpu.regs[SP]
    requires forall q: Reg :: 4 <= q <= 11 ==> c1.regs[q] == if q == NUMBER then SYSCALLS[i.callee] else cpu.regs[q]
    ensures var f := Saved(c1, pc);
            var r := RunLines(w, arity, [Mov(AL, m[i.result], 0)], Resumed(c1, f.(r := f.r[0 := answer])));
            && r.Some?
            && (Match(m, [], Local(l.store[i.result := Wrap(answer)], [], l.trace), r.value, fr)
                <==> Unharmed(m, l.store, i.result, SYSCALLS[i.callee]))
  {
    hide RunLines, ParamLines, Operand, Known, FrameHeld;
    var f := Saved(c1, pc);
    var c2 := Resumed(c1, f.(r := f.r[0 := answer]));
    var (t, rd) := (i.result, m[i.result]);
    RunLine(w, arity, Mov(AL, rd, 0), c2);
    PoolRegs(m);
    var c3 := SetReg(c2, rd, c2.regs[0]);
    forall q: Reg | 4 <= q <= 11
      ensures c2.regs[q] == if q == NUMBER then SYSCALLS[i.callee] else cpu.regs[q]
    {
      assert f.r[q] == Unsigned(c1.regs[q]);
    }
    forall x | x in m && x != t
      ensures c3.regs[m[x]] == if m[x] == NUMBER then SYSCALLS[i.callee] else Get(l.store, x)
    {
      assert m[x] != rd && 4 <= m[x] <= 11;
    }
  }

  /** What each of the four calls asks of the kernel, with its arguments in r0 to r2. */
  ghost predicate Meant(callee: string, before: K.Machine, r: K.Regs, reply: K.Reply, pc: u32) {
    match callee
    case "write" =>
      && reply.Back? && reply.frame.pc == pc
      && (K.Writes(before, r[0], r[1], r[2], reply.machine, Wrap(reply.frame.r[0])) <==> !K.InWindow(r[0], r[1]))
    case "read" =>
      && reply.Back? && reply.frame.pc == pc
      && (K.Reads(before, r[0], r[1], r[2], reply.machine, Wrap(reply.frame.r[0])) <==> !K.InWindow(r[0], r[1]))
    case "yield" =>
      && reply.Back? && reply.frame.pc == pc && reply.frame.r[0] == 0
      && reply.machine == before.(sched := reply.machine.sched)
    case "exit" =>
      if before.sched.current in before.shells then reply.Back? && reply.frame.pc == Loader.WINDOW
      else
        && reply.Gone? && before.sched.current < |reply.machine.sched.states|
        && reply.machine.sched.states[before.sched.current] == Scheduling.ZOMBIE
    case _ => false
  }

  /** The kernel does for each number what the name the compiler gave it says. */
  lemma NamesMeant(callee: string, mach: K.Machine, f: K.Frame)
    requires callee in SYSCALLS && f.r[7] == SYSCALLS[callee]
    requires Scheduling.Inv(mach.sched) && mach.sched.current != 0
    ensures Meant(callee, mach, f.r, K.Serve(mach, f), f.pc)
    ensures var reply := K.Serve(mach, f);
            reply.Back? && callee != "exit" ==> reply.frame == f.(r := f.r[0 := reply.frame.r[0]])
  {
    var reply := K.Serve(mach, f);
    if callee == "write" {
      K.WriteExactly(mach, f.r);
      CodeFits(K.WriteService(mach, f.r).1);
      hide K.WriteService, K.Writes;
    } else if callee == "read" {
      K.ReadExactly(mach, f.r);
      CodeFits(K.ReadService(mach, f.r).1);
      hide K.ReadService, K.Reads;
    } else if callee == "yield" {
      K.YieldServed(mach, f);
    } else {
      K.ExitServed(mach, f);
    }
  }

  /** An answer comes back through 32 bits. */
  lemma CodeFits(code: int)
    requires -TWO31 <= code < TWO31
    ensures Wrap(code % 0x1_0000_0000) == code
  {
    WrapShift(code, -(code / 0x1_0000_0000));
  }

  /** A compiled system call, from its arguments to the name that takes the answer: the kernel gets
      the arguments in order and does what the name says; every name but the one for the answer keeps
      its value if and only if none of them lives in r7 with a value other than the number. */
  lemma SystemCall(w: World, arity: Arity, m: Assignment, c: Context, i: Instr, l: Local, cpu: Cpu, fr: Frame,
                   pc: u32, mach: K.Machine)
      returns (c1: Cpu)
    requires Sound(m, c, i, l, cpu, fr) && Scheduling.Inv(mach.sched) && mach.sched.current != 0
    ensures GenInstr(m, c, i) == Approach(m, c, i.callee) + [Svc, Mov(AL, m[i.result], 0)]
    ensures RunLines(w, arity, Approach(m, c, i.callee), cpu) == Some(c1)
    ensures forall k :: 0 <= k < |l.params| ==> Saved(c1, pc).r[k] == Unsigned(l.params[k])
    ensures var reply := K.Serve(mach, Saved(c1, pc));
            && Meant(i.callee, mach, Saved(c1, pc).r, reply, pc)
            && (reply.Back? && i.callee != "exit" ==>
                  var r := RunLines(w, arity, [Mov(AL, m[i.result], 0)], Resumed(c1, reply.frame));
                  && r.Some?
                  && (Match(m, [], Local(l.store[i.result := Wrap(reply.frame.r[0])], [], l.trace), r.value, fr)
                      <==> Unharmed(m, l.store, i.result, SYSCALLS[i.callee])))
  {
    hide RunLines, Match, K.Serve, Meant, Unharmed, GenInstr, Approach, Resumed;
    CallCode(m, c, i);
    c1 := CallArrives(w, arity, m, c, i, l, cpu, fr, pc);
    NamesMeant(i.callee, mach, Saved(c1, pc));
    var reply := K.Serve(mach, Saved(c1, pc));
    if reply.Back? && i.callee != "exit" {
      CallReturns(w, arity, m, c, i, l, cpu, fr, pc, c1, reply.frame.r[0]);
    }
  }

  /** A name in r7 that is still needed has the number of the call in its place. */
  lemma NumberStays(w: World, arity: Arity, m: Assignment, c: Context, i: Instr, l: Local, cpu: Cpu, fr: Frame,
                    pc: u32, x: string, answer: u32)
      returns (c1: Cpu)
    requires Sound(m, c, i, l, cpu, fr) && x in m && m[x] == NUMBER && x != i.result
    ensures RunLines(w, arity, Approach(m, c, i.callee), cpu) == Some(c1)
    ensures var f := Saved(c1, pc);
            var r := RunLines(w, arity, [Mov(AL, m[i.result], 0)], Resumed(c1, f.(r := f.r[0 := answer])));
            r.Some? && r.value.regs[m[x]] == SYSCALLS[i.callee]
  {
    c1 := CallArrives(w, arity, m, c, i, l, cpu, fr, pc);
    hide RunLines, Match, Approach, Sound;
    SoundApart(m, c, i, l, cpu, fr, x);
    var f := Saved(c1, pc);
    RunLine(w, arity, Mov(AL, m[i.result], 0), Resumed(c1, f.(r := f.r[0 := answer])));
    assert f.r[7] == Unsigned(c1.regs[NUMBER]);
  }

  lemma SoundApart(m: Assignment, c: Context, i: Instr, l: Local, cpu: Cpu, fr: Frame, x: string)
    requires Sound(m, c, i, l, cpu, fr) && x in m && m[x] == NUMBER && x != i.result
    ensures m[i.result] != NUMBER
  {
    hide Match;
  }
}
