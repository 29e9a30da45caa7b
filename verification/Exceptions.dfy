/** System calls and interrupts. */
module Exceptions {
  // What the entry and exit code saves and gives back, whatever runs in between.

  import opened Words
  import opened WordMemory
  import opened KernelCpu
  import opened ContextSwitching

  /** From the instruction interrupted, or from the svc, up to the call of the C handler; and from
      its return back. */
  function EnterIrq(m: Cpu): Cpu {
    Run(IRQ_ENTRY, TakeIrq(m))
  }

  function LeaveIrq(m: Cpu): Cpu {
    Run(IRQ_EXIT, m)
  }

  function EnterSvc(m: Cpu): Cpu {
    Run(SVC_ENTRY, TakeSvc(m))
  }

  function LeaveSvc(m: Cpu): Cpu {
    Run(SVC_EXIT, m)
  }

  // ------------------------------------------------------------------ interrupts

  /** The part of a task's stack kept for the kernel. */
  const KERNEL_STACK_RESERVE: nat := 512

  predicate KernelPart(t: Task, a: int) {
    t.base + t.size - KERNEL_STACK_RESERVE <= a < t.base + t.size
  }

  /** On the stack of task `t`, only the kernel's part below `sp` may have changed. */
  ghost predicate StackSafe(t: Task, before: map<int, u32>, after: map<int, u32>, sp: u32) {
    forall a: int :: InStack(t, a) && !(KernelPart(t, a) && a < sp) ==> WordAt(after, a) == WordAt(before, a)
  }

  /** The C dispatcher keeps to the procedure call standard and off the stack above it. */
  ghost predicate Dispatched(t: Task, before: Cpu, after: Cpu) {
    && ModeOf(after.cpsr) == SVC && after.spSvc == before.spSvc && after.r[4..12] == before.r[4..12]
    && after.spUsr == before.spUsr && after.lrUsr == before.lrUsr
    && StackSafe(t, before.mem, after.mem, before.spSvc)
  }

  /** Room for `n` bytes below the stack pointer in the kernel's part. */
  predicate Room(t: Task, sp: u32, n: nat) {
    t.base + t.size < 0x1_0000_0000 && t.size >= KERNEL_STACK_RESERVE
    && t.base + t.size - KERNEL_STACK_RESERVE + n <= sp <= t.base + t.size
  }

  /** The words an interrupt leaves on the stack: r0 to r12, lr_svc, the return address and status. */
  function IrqFrame(m: Cpu): (ws: seq<u32>)
    ensures |ws| == 16 && ws[..13] == m.r && ws[13] == m.lrSvc && ws[14] == m.pc && ws[15] == m.cpsr
  {
    m.r + [m.lrSvc, m.pc, m.cpsr]
  }

  lemma {:induction false} StoredTwice(mem: map<int, u32>, at: int, low: seq<u32>, high: seq<u32>)
    ensures Stored(Stored(mem, at + 4 * |low|, high), at, low) == Stored(mem, at, low + high)
    decreases low
  {
    if low == [] {
      assert low + high == high;
    } else {
      var mem1 := mem[at := low[0]];
      assert (low + high)[1..] == low[1..] + high;
      StoredTwice(mem1, at + 4, low[1..], high);
      StoredCommutes(mem, at, low[0], at + 4 * |low|, high);
    }
  }

  lemma {:induction false} StoredCommutes(mem: map<int, u32>, a: int, w: u32, at: int, ws: seq<u32>)
    requires a < at
    ensures Stored(mem[a := w], at, ws) == Stored(mem, at, ws)[a := w]
    decreases ws
  {
    if ws != [] {
      assert mem[a := w][at := ws[0]] == mem[at := ws[0]][a := w];
      StoredCommutes(mem[at := ws[0]], a, w, at + 4, ws[1..]);
    }
  }

  /** Taking an interrupt saves everything below the stack pointer. */
  lemma IrqEnters(m: Cpu)
    requires m.spSvc >= 64
    ensures var e := EnterIrq(m);
            && e.mem == Stored(m.mem, m.spSvc - 64, IrqFrame(m)) && e.spSvc == m.spSvc - 64
            && e.spUsr == m.spUsr && e.lrUsr == m.lrUsr && e.r[4..12] == m.r[4..12]
  {
    var i := TakeIrq(m);
    hide Run, Exec;
    EntryParts();
    RunAppend([SubLr(4), SrsdbSvc, Cps(SVC)], [Push(0, 12, true), MovSp(0)], i);
    RunThree(SubLr(4), SrsdbSvc, Cps(SVC), i);
    var s := Run([SubLr(4), SrsdbSvc, Cps(SVC)], i);
    ReturnSaved(m);
    RunTwo(Push(0, 12, true), MovSp(0), s);
    RegistersSaved(s);
    StoredTwice(m.mem, m.spSvc - 64, m.r + [m.lrSvc], [m.pc, m.cpsr]);
    assert (m.r + [m.lrSvc]) + [m.pc, m.cpsr] == IrqFrame(m);
  }

  lemma EntryParts()
    ensures IRQ_ENTRY == [SubLr(4), SrsdbSvc, Cps(SVC)] + [Push(0, 12, true), MovSp(0)]
    ensures ValidCode([SubLr(4), SrsdbSvc, Cps(SVC)]) && ValidCode([Push(0, 12, true), MovSp(0)])
  {
  }

  lemma RunTwo(a: Ins, b: Ins, m: Cpu)
    requires ValidIns(a) && ValidIns(b)
    ensures ValidCode([a, b]) && Run([a, b], m) == Exec(b, Exec(a, m))
  {
    hide Exec;
    assert [a, b][1..] == [b];
    RunOne(b, Exec(a, m));
  }

  lemma ReturnSaved(m: Cpu)
    requires m.spSvc >= 64
    ensures var s := Exec(Cps(SVC), Exec(SrsdbSvc, Exec(SubLr(4), TakeIrq(m))));
            && s.mem == Stored(m.mem, m.spSvc - 8, [m.pc, m.cpsr]) && s.spSvc == m.spSvc - 8 && s.r == m.r
            && s.lrSvc == m.lrSvc && s.spUsr == m.spUsr && s.lrUsr == m.lrUsr && ModeOf(s.cpsr) == SVC
  {
    ReturnAdjusted(m);
    var a := Exec(SubLr(4), TakeIrq(m));
    StatusSaved(a);
    var b := Exec(SrsdbSvc, a);
    hide Stored, Plus, Mask, Unmask;
  }

  lemma ReturnAdjusted(m: Cpu)
    ensures var a := Exec(SubLr(4), TakeIrq(m));
            && a == m.(lrIrq := m.pc, spsrIrq := m.cpsr, cpsr := a.cpsr)
  {
    PlusBack(m.pc, 4);
    assert ModeOf(TakeIrq(m).cpsr) == IRQ;
    hide WithMode, Mask, Unmask, Plus, Stored, WordAt, WordsAt;
  }

  lemma PlusBack(a: u32, k: nat)
    ensures Plus(Plus(a, k), 0 - k as int) == a
  {
  }

  lemma PlusBelow(a: u32, k: nat)
    requires k <= a
    ensures Plus(a, 0 - k as int) == a - k
  {
  }

  lemma StatusSaved(a: Cpu)
    requires a.spSvc >= 8
    ensures Exec(SrsdbSvc, a) == a.(mem := Stored(a.mem, a.spSvc - 8, [a.lrIrq, a.spsrIrq]), spSvc := a.spSvc - 8)
  {
    assert Plus(a.spSvc, -8) == a.spSvc - 8;
  }

  lemma RegistersSaved(s: Cpu)
    requires ModeOf(s.cpsr) == SVC && s.spSvc >= 56
    ensures var e := Exec(MovSp(0), Exec(Push(0, 12, true), s));
            && e.mem == Stored(s.mem, s.spSvc - 56, s.r + [s.lrSvc]) && e.spSvc == s.spSvc - 56
            && e.spUsr == s.spUsr && e.lrUsr == s.lrUsr && e.r[4..12] == s.r[4..12]
  {
    assert s.r[0..13] == s.r;
    var p := Exec(Push(0, 12, true), s);
    assert p.spSvc == s.spSvc - 56;
  }

  /** Returning from an interrupt gives back what the frame holds. */
  lemma IrqLeaves(h: Cpu, m: Cpu)
    requires ModeOf(h.cpsr) == SVC && m.spSvc >= 64 && h.spSvc == m.spSvc - 64
    requires WordsAt(h.mem, h.spSvc, 16) == IrqFrame(m)
    ensures var e := LeaveIrq(h);
            && e.r == m.r && e.lrSvc == m.lrSvc && e.spSvc == m.spSvc && e.pc == m.pc && e.cpsr == m.cpsr
            && e.spUsr == h.spUsr && e.lrUsr == h.lrUsr && e.mem == h.mem
  {
    RunTwo(Pop(0, 12, true), RfefdSvc, h);
    hide Run, IrqFrame;
    RegistersBack(h);
    StatusBack(Exec(Pop(0, 12, true), h));
    var ws := WordsAt(h.mem, h.spSvc, 16);
    assert WordsAt(h.mem, h.spSvc, 13) == ws[..13];
    hide Exec, WordAt;
    assert ws[13] == WordAt(h.mem, h.spSvc as int + 4 * 13) && ws[14] == WordAt(h.mem, h.spSvc as int + 4 * 14)
        && ws[15] == WordAt(h.mem, h.spSvc as int + 4 * 15);
  }

  lemma RegistersBack(h: Cpu)
    requires ModeOf(h.cpsr) == SVC && h.spSvc as int + 64 < 0x1_0000_0000
    ensures var p := Exec(Pop(0, 12, true), h);
            && p.r == WordsAt(h.mem, h.spSvc, 13) && p.lrSvc == WordAt(h.mem, h.spSvc as int + 52)
            && p.spSvc == h.spSvc + 56 && p.spUsr == h.spUsr && p.lrUsr == h.lrUsr && p.mem == h.mem
  {
    var ws := WordsAt(h.mem, h.spSvc, 13);
    assert h.r[..0] + ws + h.r[13..] == ws;
  }

  lemma StatusBack(p: Cpu)
    requires p.spSvc as int + 8 < 0x1_0000_0000
    ensures Exec(RfefdSvc, p)
            == p.(pc := WordAt(p.mem, p.spSvc), cpsr := WordAt(p.mem, p.spSvc as int + 4), spSvc := p.spSvc + 8)
  {
  }

  /** Interrupts are transparent: taken in user code or in a handler, they change no register, no
      status, no stack pointer, and nothing on the task's stack but the free part of the kernel's. */
  lemma InterruptTransparent(t: Task, m: Cpu, handled: Cpu)
    requires Room(t, m.spSvc, 64) && Dispatched(t, EnterIrq(m), handled)
    ensures var e := LeaveIrq(handled);
            && e.r == m.r && e.lrSvc == m.lrSvc && e.spSvc == m.spSvc && e.pc == m.pc && e.cpsr == m.cpsr
            && e.spUsr == m.spUsr && e.lrUsr == m.lrUsr && StackSafe(t, m.mem, e.mem, m.spSvc)
  {
    IrqEnters(m);
    var e := EnterIrq(m);
    var at := m.spSvc - 64;
    StoredHolds(m.mem, at, IrqFrame(m));
    hide Run, IrqFrame;
    forall k | 0 <= k < 16
      ensures WordsAt(handled.mem, at, 16)[k] == IrqFrame(m)[k]
    {
      assert InStack(t, at + 4 * k);
      assert WordAt(handled.mem, at + 4 * k) == WordAt(e.mem, at + 4 * k);
    }
    IrqLeaves(handled, m);
    StackKept(t, m, e.mem, handled);
  }

  /** The interrupt's frame and the handler's own stack are below the sp of before. */
  lemma StackKept(t: Task, m: Cpu, mem: map<int, u32>, handled: Cpu)
    requires Room(t, m.spSvc, 64) && mem == Stored(m.mem, m.spSvc - 64, IrqFrame(m))
    requires StackSafe(t, mem, handled.mem, m.spSvc - 64)
    ensures StackSafe(t, m.mem, handled.mem, m.spSvc)
  {
    hide IrqFrame;
    forall a: int | InStack(t, a) && !(KernelPart(t, a) && a < m.spSvc)
      ensures WordAt(handled.mem, a) == WordAt(m.mem, a)
    {
      StoredElsewhere(m.mem, m.spSvc - 64, IrqFrame(m), a);
    }
  }

  // ------------------------------------------------------------------ system calls

  /** The words a system call leaves on the stack, as the handler sees them: status, padding,
      r0 to r12 and the return address. */
  function SvcFrame(m: Cpu): (ws: seq<u32>)
    ensures |ws| == 16 && ws[0] == m.cpsr && ws[1] == 0 && ws[2..15] == m.r && ws[15] == Plus(m.pc, 4)
  {
    [m.cpsr, 0] + (m.r + [Plus(m.pc, 4)])
  }

  lemma SvcEnters(m: Cpu)
    requires m.spSvc >= 64
    ensures var e := EnterSvc(m);
            && e.mem == Stored(m.mem, m.spSvc - 64, SvcFrame(m)) && e.spSvc == m.spSvc - 64 && e.r[0] == m.spSvc - 64
            && e.spUsr == m.spUsr && e.lrUsr == m.lrUsr && ModeOf(e.cpsr) == SVC && !Masked(e.cpsr)
  {
    var s := TakeSvc(m);
    hide Run, Exec;
    SvcEntryParts();
    var (a, b) := ([Push(0, 12, true), Mrs(0), MovImm(1, 0)], [Push(0, 1, false), Cpsie, MovSp(0)]);
    RunAppend(a, b, s);
    RunThree(Push(0, 12, true), Mrs(0), MovImm(1, 0), s);
    RunThree(Push(0, 1, false), Cpsie, MovSp(0), Run(a, s));
    SvcRegisters(m);
    SvcStatus(Run(a, s));
    StoredTwice(m.mem, m.spSvc - 64, [m.cpsr, 0], m.r + [Plus(m.pc, 4)]);
  }

  lemma SvcEntryParts()
    ensures SVC_ENTRY == [Push(0, 12, true), Mrs(0), MovImm(1, 0)] + [Push(0, 1, false), Cpsie, MovSp(0)]
    ensures ValidCode([Push(0, 12, true), Mrs(0), MovImm(1, 0)]) && ValidCode([Push(0, 1, false), Cpsie, MovSp(0)])
  {
  }

  lemma SvcRegisters(m: Cpu)
    requires m.spSvc >= 64
    ensures var s := Exec(MovImm(1, 0), Exec(Mrs(0), Exec(Push(0, 12, true), TakeSvc(m))));
            && s.mem == Stored(m.mem, m.spSvc - 56, m.r + [Plus(m.pc, 4)]) && s.spSvc == m.spSvc - 56
            && s.r[0] == m.cpsr && s.r[1] == 0 && ModeOf(s.cpsr) == SVC
            && s.spUsr == m.spUsr && s.lrUsr == m.lrUsr
  {
    assert m.r[0..13] == m.r;
    PlusBelow(m.spSvc, 56);
    assert ModeOf(TakeSvc(m).cpsr) == SVC;
    hide WithMode, Mask, Unmask, Plus, Stored, WordAt, WordsAt;
  }

  lemma SvcStatus(s: Cpu)
    requires ModeOf(s.cpsr) == SVC && s.spSvc >= 8
    ensures var e := Exec(MovSp(0), Exec(Cpsie, Exec(Push(0, 1, false), s)));
            && e.mem == Stored(s.mem, s.spSvc - 8, [s.r[0], s.r[1]]) && e.spSvc == s.spSvc - 8 && e.r[0] == s.spSvc - 8
            && e.spUsr == s.spUsr && e.lrUsr == s.lrUsr && ModeOf(e.cpsr) == SVC && !Masked(e.cpsr)
  {
    assert s.r[0..2] == [s.r[0], s.r[1]];
    assert s.r[0..2] + [] == s.r[0..2];
    var p := Exec(Push(0, 1, false), s);
    assert p.spSvc == s.spSvc - 8;
  }

  /** svc_exit_trampoline: everything comes out of the frame, whoever wrote it. */
  lemma SvcLeaves(m: Cpu, ws: seq<u32>)
    requires ModeOf(m.cpsr) == SVC && m.spSvc as int + 64 < 0x1_0000_0000 && |ws| == 16
             && WordsAt(m.mem, m.spSvc, 16) == ws
    ensures var e := LeaveSvc(m);
            && e.cpsr == ws[0] && e.r == ws[2..15] && e.pc == ws[15] && e.spSvc == m.spSvc + 64
            && e.spUsr == m.spUsr && e.lrUsr == m.lrUsr && e.mem == m.mem
  {
    RunThree(Pop(0, 1, false), Msr(0), PopUser, m);
    hide Run;
    StatusOut(m);
    UserOut(Exec(Msr(0), Exec(Pop(0, 1, false), m)));
    hide Exec, WordAt;
    assert WordsAt(m.mem, m.spSvc, 16)[0] == WordAt(m.mem, m.spSvc as int + 4 * 0);
    assert WordsAt(m.mem, m.spSvc, 16)[15] == WordAt(m.mem, m.spSvc as int + 8 + 4 * 13);
    forall i | 0 <= i < 13
      ensures WordsAt(m.mem, m.spSvc + 8, 13)[i] == ws[2..15][i]
    {
      assert WordsAt(m.mem, m.spSvc, 16)[i + 2] == WordAt(m.mem, m.spSvc as int + 4 * (i + 2));
      assert m.spSvc as int + 4 * (i + 2) == m.spSvc as int + 8 + 4 * i;
    }
  }

  lemma StatusOut(m: Cpu)
    requires ModeOf(m.cpsr) == SVC && m.spSvc as int + 64 < 0x1_0000_0000
    ensures var q := Exec(Msr(0), Exec(Pop(0, 1, false), m));
            && q.spsrSvc == WordAt(m.mem, m.spSvc) && q.spSvc == m.spSvc + 8 && q.mem == m.mem
            && q.spUsr == m.spUsr && q.lrUsr == m.lrUsr
  {
    var p := Exec(Pop(0, 1, false), m);
    assert p.r[0] == WordsAt(m.mem, m.spSvc, 2)[0];
  }

  lemma UserOut(q: Cpu)
    requires q.spSvc as int + 56 < 0x1_0000_0000
    ensures var e := Exec(PopUser, q);
            && e.r == WordsAt(q.mem, q.spSvc, 13) && e.pc == WordAt(q.mem, q.spSvc as int + 4 * 13)
            && e.cpsr == q.spsrSvc && e.spSvc == q.spSvc + 56 && e.spUsr == q.spUsr && e.lrUsr == q.lrUsr
            && e.mem == q.mem
  {
  }

  /** Inside the handler of a system call made in state `m`: on the task's own kernel stack, below
      the frame, which is intact except for the result in the slot of r0. */
  ghost predicate Serving(t: Task, m: Cpu, k: Cpu) {
    && Room(t, m.spSvc, 64) && ModeOf(k.cpsr) == SVC
    && t.base + t.size - KERNEL_STACK_RESERVE <= k.spSvc <= m.spSvc - 64
    && k.spUsr == m.spUsr && k.lrUsr == m.lrUsr
    && (forall i :: 0 <= i < 16 && i != 2 ==> WordAt(k.mem, m.spSvc as int - 64 + 4 * i) == SvcFrame(m)[i])
  }

  /** What happens while a system call is served: code of the handler, an interrupt, or the task
      is switched out and back in. */
  datatype Step =
    | Work(after: Cpu)
    | Interrupt(handled: Cpu)
    | Away(tasks: seq<Task>, s: System, between: seq<Turn>, out: Turn, back: Turn)

  /** The handler stays below the frame and writes none of it but the slot of r0. Interrupts and
      switches find room on the stack. */
  ghost predicate Possible(t: Task, m: Cpu, k: Cpu, step: Step)
    requires m.spSvc >= 64
  {
    match step
    case Work(after) =>
      && ModeOf(after.cpsr) == SVC && after.spUsr == k.spUsr && after.lrUsr == k.lrUsr
      && t.base + t.size - KERNEL_STACK_RESERVE <= after.spSvc <= m.spSvc - 64
      && (forall i :: 0 <= i < 16 && i != 2 ==>
                        WordAt(after.mem, m.spSvc as int - 64 + 4 * i) == WordAt(k.mem, m.spSvc as int - 64 + 4 * i))
    case Interrupt(handled) => Room(t, k.spSvc, 64) && Dispatched(t, EnterIrq(k), handled)
    case Away(tasks, s, between, out, back) =>
      && Inv(tasks, s) && tasks[s.current] == t && out.before == k
      && IsRun(tasks, s, [out] + between + [back])
      && back.next == s.current && forall j :: 0 <= j < |between| ==> between[j].next != s.current
  }

  ghost function Next(t: Task, m: Cpu, k: Cpu, step: Step): Cpu
    requires m.spSvc >= 64 && Possible(t, m, k, step)
  {
    match step
    case Work(after) => after
    case Interrupt(handled) => LeaveIrq(handled)
    case Away(tasks, s, between, out, back) => After(tasks, s, [out] + between + [back]).cpu
  }

  lemma WorkServes(t: Task, m: Cpu, k: Cpu, step: Step)
    requires Serving(t, m, k) && step.Work? && Possible(t, m, k, step)
    ensures Serving(t, m, Next(t, m, k, step))
  {
  }

  lemma InterruptServes(t: Task, m: Cpu, k: Cpu, step: Step)
    requires Serving(t, m, k) && step.Interrupt? && Possible(t, m, k, step)
    ensures Serving(t, m, Next(t, m, k, step))
  {
    InterruptTransparent(t, k, step.handled);
    hide Run, Dispatched;
    FrameSafe(t, m, k, LeaveIrq(step.handled));
  }

  lemma FrameSafe(t: Task, m: Cpu, k: Cpu, e: Cpu)
    requires Serving(t, m, k) && e.spSvc == k.spSvc && e.cpsr == k.cpsr && e.spUsr == k.spUsr && e.lrUsr == k.lrUsr
    requires StackSafe(t, k.mem, e.mem, k.spSvc)
    ensures Serving(t, m, e)
  {
    forall i | 0 <= i < 16 && i != 2
      ensures WordAt(e.mem, m.spSvc as int - 64 + 4 * i) == WordAt(k.mem, m.spSvc as int - 64 + 4 * i)
    {
      assert InStack(t, m.spSvc as int - 64 + 4 * i);
    }
  }

  lemma AwayServes(t: Task, m: Cpu, k: Cpu, step: Step)
    requires Serving(t, m, k) && step.Away? && Possible(t, m, k, step)
    ensures Serving(t, m, Next(t, m, k, step))
  {
    var Away(tasks, s, between, out, back) := step;
    Isolation(tasks, s, out, between, back);
    hide Inv, IsRun, After;
    var e := Next(t, m, k, step);
    SnapshotParts(e, k);
    forall i | 0 <= i < 16 && i != 2
      ensures WordAt(e.mem, m.spSvc as int - 64 + 4 * i) == WordAt(k.mem, m.spSvc as int - 64 + 4 * i)
    {
      assert InStack(t, m.spSvc as int - 64 + 4 * i);
    }
  }

  lemma SnapshotParts(a: Cpu, b: Cpu)
    requires SnapshotOf(a) == SnapshotOf(b)
    ensures a.spSvc == b.spSvc && a.spUsr == b.spUsr && a.lrUsr == b.lrUsr
  {
  }

  ghost predicate AllPossible(t: Task, m: Cpu, k: Cpu, steps: seq<Step>)
    requires m.spSvc >= 64
    decreases |steps|
  {
    steps == [] || (Possible(t, m, k, steps[0]) && AllPossible(t, m, Next(t, m, k, steps[0]), steps[1..]))
  }

  ghost function AfterAll(t: Task, m: Cpu, k: Cpu, steps: seq<Step>): Cpu
    requires m.spSvc >= 64 && AllPossible(t, m, k, steps)
    decreases |steps|
  {
    if steps == [] then k else AfterAll(t, m, Next(t, m, k, steps[0]), steps[1..])
  }

  lemma {:induction false} ServingStays(t: Task, m: Cpu, k: Cpu, steps: seq<Step>)
    requires m.spSvc >= 64 && Serving(t, m, k) && AllPossible(t, m, k, steps)
    ensures Serving(t, m, AfterAll(t, m, k, steps))
    decreases |steps|
  {
    if steps != [] {
      match steps[0] {
        case Work(_) => WorkServes(t, m, k, steps[0]);
        case Interrupt(_) => InterruptServes(t, m, k, steps[0]);
        case Away(_, _, _, _, _) => AwayServes(t, m, k, steps[0]);
      }
      hide Serving, Possible, Next;
      ServingStays(t, m, Next(t, m, k, steps[0]), steps[1..]);
    }
  }

  lemma SvcServes(t: Task, m: Cpu)
    requires Room(t, m.spSvc, 64)
    ensures m.spSvc >= 64 && Serving(t, m, EnterSvc(m))
  {
    hide *;
    RoomMeans(t, m.spSvc);
    SvcEnters(m);
    FrameStored(m);
    EntryServes(t, m, EnterSvc(m));
  }

  lemma RoomMeans(t: Task, sp: u32)
    requires Room(t, sp, 64)
    ensures sp >= 64
  {
  }

  lemma FrameStored(m: Cpu)
    requires m.spSvc >= 64
    ensures forall i :: 0 <= i < 16 ==>
                          WordAt(Stored(m.mem, m.spSvc - 64, SvcFrame(m)), m.spSvc as int - 64 + 4 * i)
                              == SvcFrame(m)[i]
  {
    StoredHolds(m.mem, m.spSvc - 64, SvcFrame(m));
    hide Stored, SvcFrame;
  }

  lemma EntryServes(t: Task, m: Cpu, e: Cpu)
    requires Room(t, m.spSvc, 64) && e.spSvc == m.spSvc - 64 && ModeOf(e.cpsr) == SVC
    requires e.spUsr == m.spUsr && e.lrUsr == m.lrUsr
    requires forall i :: 0 <= i < 16 ==> WordAt(e.mem, m.spSvc as int - 64 + 4 * i) == SvcFrame(m)[i]
    ensures Serving(t, m, e)
  {
    hide SvcFrame, WordAt;
  }

  /** System calls are transparent: through any interrupts and any switches away and back, when the
      handler has returned the task goes on after its svc with only r0 changed, to what the handler
      left in its slot. */
  lemma SyscallTransparent(t: Task, m: Cpu, steps: seq<Step>)
    requires Room(t, m.spSvc, 64) && m.spSvc >= 64 && AllPossible(t, m, EnterSvc(m), steps)
    requires AfterAll(t, m, EnterSvc(m), steps).spSvc == m.spSvc - 64
    ensures var k := AfterAll(t, m, EnterSvc(m), steps);
            var e := LeaveSvc(k);
            && e.r == m.r[0 := WordAt(k.mem, m.spSvc as int - 56)] && e.pc == Plus(m.pc, 4) && e.cpsr == m.cpsr
            && e.spUsr == m.spUsr && e.lrUsr == m.lrUsr && e.spSvc == m.spSvc
  {
    SvcServes(t, m);
    ServingStays(t, m, EnterSvc(m), steps);
    var k := AfterAll(t, m, EnterSvc(m), steps);
    hide Run, AfterAll, AllPossible;
    Frame(t, m, k);
  }

  lemma Frame(t: Task, m: Cpu, k: Cpu)
    requires Serving(t, m, k) && k.spSvc == m.spSvc - 64
    ensures var e := LeaveSvc(k);
            && e.r == m.r[0 := WordAt(k.mem, m.spSvc as int - 56)] && e.pc == Plus(m.pc, 4) && e.cpsr == m.cpsr
            && e.spUsr == m.spUsr && e.lrUsr == m.lrUsr && e.spSvc == m.spSvc
  {
    var ws := SvcFrame(m)[2 := WordAt(k.mem, m.spSvc as int - 56)];
    forall i | 0 <= i < 16
      ensures WordsAt(k.mem, k.spSvc, 16)[i] == ws[i]
    {
      assert i == 2 ==> k.spSvc as int + 4 * i == m.spSvc as int - 56;
    }
    assert WordsAt(k.mem, k.spSvc, 16) == ws;
    hide Run;
    SvcLeaves(k, ws);
    forall i | 0 <= i < 13
      ensures ws[2..15][i] == m.r[0 := ws[2]][i]
    {
      assert i > 0 ==> SvcFrame(m)[2..15][i] == m.r[i];
    }
  }
}
