/** Switching between tasks. */
module ContextSwitching {
  // What context_switch leaves behind, and what a task finds when it is resumed after any number of
  // switches.

  import opened Words
  import opened WordMemory
  import opened KernelCpu

  // ------------------------------------------------------------------ one half at a time

  /** What a task must find again. */
  datatype Snapshot = Snapshot(saved: seq<u32>, lr: u32, sp: u32, spUsr: u32, lrUsr: u32)

  /** r3 to r11, lr_svc, sp_svc, sp_usr and lr_usr. */
  function SnapshotOf(m: Cpu): Snapshot {
    Snapshot(m.r[3..12], m.lrSvc, m.spSvc, m.spUsr, m.lrUsr)
  }

  /** Room for the frame below the stack pointer, and a task structure inside the address space. */
  predicate Fits(m: Cpu, tcb: u32) {
    ModeOf(m.cpsr) == SVC && m.spSvc >= 40 && tcb as int + 72 < 0x1_0000_0000
  }

  /** The words of the frame, r3 first. */
  function FrameWords(m: Cpu): (ws: seq<u32>)
    ensures |ws| == 10 && ws[9] == m.lrSvc && ws[..9] == m.r[3..12] && forall i :: 0 <= i < 9 ==> ws[i] == m.r[3 + i]
  {
    m.r[3..12] + [m.lrSvc]
  }

  /** Memory after the first half: the frame, then the stack pointers in the task structure. */
  function OutMemory(m: Cpu, tcb: u32): map<int, u32>
    requires m.spSvc >= 40
  {
    var at: u32 := m.spSvc - 40;
    var frame := Stored(m.mem, at, FrameWords(m));
    Stored(frame[tcb as int + 52 := at], tcb as int + 64, [m.spUsr, m.lrUsr])
  }

  lemma SwitchesOut(m: Cpu)
    requires Fits(m, m.r[0])
    ensures var s := Run(SWITCH_OUT, m);
            && s.mem == OutMemory(m, m.r[0]) && s.r == m.r[2 := Plus(m.r[0], 64)] && ModeOf(s.cpsr) == SVC
  {
    hide *;
    var (a, b) := ([Push(3, 11, true), StrSp(0, 52), Dsb], [Cps(SYS), AddImm(2, 0, 64), StmSpLr(2), Cps(SVC)]);
    SwitchOutParts();
    RunThree(Push(3, 11, true), StrSp(0, 52), Dsb, m);
    RunFour(Cps(SYS), AddImm(2, 0, 64), StmSpLr(2), Cps(SVC), Run(a, m));
    RunAppend(a, b, m);
    SavesFrame(m);
    SavesPointers(Run(a, m));
    OutIs(m);
  }

  lemma SwitchOutParts()
    ensures SWITCH_OUT == [Push(3, 11, true), StrSp(0, 52), Dsb] + [Cps(SYS), AddImm(2, 0, 64), StmSpLr(2), Cps(SVC)]
    ensures ValidIns(Push(3, 11, true)) && ValidIns(StrSp(0, 52)) && ValidIns(Dsb) && ValidIns(Cps(SYS))
    ensures ValidIns(AddImm(2, 0, 64)) && ValidIns(StmSpLr(2)) && ValidIns(Cps(SVC))
  {
  }

  lemma OutIs(m: Cpu)
    requires Fits(m, m.r[0])
    ensures OutMemory(m, m.r[0])
            == Stored(Stored(m.mem, m.spSvc - 40, FrameWords(m))[m.r[0] as int + 52 := (m.spSvc - 40) as u32],
                      m.r[0] as int + 64, [m.spUsr, m.lrUsr])
  {
  }

  lemma SavesFrame(m: Cpu)
    requires Fits(m, m.r[0])
    ensures ModeOf(m.cpsr) == SVC && m.r[0] as int + 72 < 0x1_0000_0000
    ensures var s := Exec(Dsb, Exec(StrSp(0, 52), Exec(Push(3, 11, true), m)));
            s == m.(spSvc := m.spSvc - 40,
                    mem := Stored(m.mem, m.spSvc - 40, FrameWords(m))[m.r[0] as int + 52 := (m.spSvc - 40) as u32])
  {
  }

  lemma SavesPointers(m: Cpu)
    requires ModeOf(m.cpsr) == SVC && m.r[0] as int + 72 < 0x1_0000_0000
    ensures Exec(Cps(SVC), Exec(StmSpLr(2), Exec(AddImm(2, 0, 64), Exec(Cps(SYS), m)))).mem
            == Stored(m.mem, m.r[0] as int + 64, [m.spUsr, m.lrUsr])
    ensures var s := Exec(Cps(SVC), Exec(StmSpLr(2), Exec(AddImm(2, 0, 64), Exec(Cps(SYS), m))));
            s.r == m.r[2 := Plus(m.r[0], 64)]
    ensures var s := Exec(Cps(SVC), Exec(StmSpLr(2), Exec(AddImm(2, 0, 64), Exec(Cps(SYS), m))));
            ModeOf(s.cpsr) == SVC
  {
    var a := Exec(Cps(SYS), m);
    assert Sp(a) == m.spUsr && Lr(a) == m.lrUsr;
    var b := Exec(AddImm(2, 0, 64), a);
    assert b.r[2] == m.r[0] as int + 64;
    assert Sp(b) == m.spUsr && Lr(b) == m.lrUsr;
    var c := Exec(StmSpLr(2), b);
    assert c.mem == Stored(b.mem, b.r[2], [m.spUsr, m.lrUsr]);
    var d := Exec(Cps(SVC), c);
    assert d.mem == c.mem;
    assert ModeOf(d.cpsr) == SVC;
  }

  lemma RunFour(a: Ins, b: Ins, c: Ins, d: Ins, m: Cpu)
    requires ValidIns(a) && ValidIns(b) && ValidIns(c) && ValidIns(d)
    ensures ValidCode([a, b, c, d]) && Run([a, b, c, d], m) == Exec(d, Exec(c, Exec(b, Exec(a, m))))
  {
    hide Exec;
    assert [a, b, c, d][1..] == [b, c, d];
    RunThree(b, c, d, Exec(a, m));
  }

  /** The frame of a suspended task lies just below its stack pointer. */
  predicate Framed(mem: map<int, u32>, s: Snapshot) {
    && |s.saved| == 9 && s.sp >= 40
    && (forall i :: 0 <= i < 9 ==> WordAt(mem, s.sp as int - 40 + 4 * i) == s.saved[i])
    && WordAt(mem, s.sp as int - 4) == s.lr
  }

  /** The task whose structure is at `tcb` is laid out in memory as `s`. */
  predicate Suspended(mem: map<int, u32>, tcb: u32, s: Snapshot) {
    && Framed(mem, s)
    && WordAt(mem, tcb as int + 52) == s.sp - 40
    && WordAt(mem, tcb as int + 64) == s.spUsr && WordAt(mem, tcb as int + 68) == s.lrUsr
  }

  /** Loading a task gives it back everything, and goes on where it was. */
  lemma LoadsTask(m: Cpu, rn: nat, s: Snapshot)
    requires rn <= 1 && ModeOf(m.cpsr) == SVC && m.r[rn] as int + 72 < 0x1_0000_0000 && Suspended(m.mem, m.r[rn], s)
    ensures ValidCode(LoadTask(rn))
    ensures var t := Run(LoadTask(rn), m);
            && SnapshotOf(t) == s && t.pc == s.lr && t.mem == m.mem && ModeOf(t.cpsr) == SVC
  {
    hide *;
    var (a, b) := ([LdrSp(rn, 52), Cps(SYS), AddImm(2, rn, 64), LdmSpLr(2)], [Cps(SVC), Pop(3, 11, true), BxLr]);
    LoadTaskParts(rn);
    RunFour(LdrSp(rn, 52), Cps(SYS), AddImm(2, rn, 64), LdmSpLr(2), m);
    RunThree(Cps(SVC), Pop(3, 11, true), BxLr, Run(a, m));
    RunAppend(a, b, m);
    LoadsPointers(m, rn, s);
    LoadsFrame(Run(a, m), s);
  }

  lemma LoadTaskParts(rn: nat)
    requires rn <= 1
    ensures LoadTask(rn)
            == [LdrSp(rn, 52), Cps(SYS), AddImm(2, rn, 64), LdmSpLr(2)] + [Cps(SVC), Pop(3, 11, true), BxLr]
    ensures ValidIns(LdrSp(rn, 52)) && ValidIns(Cps(SYS)) && ValidIns(AddImm(2, rn, 64)) && ValidIns(LdmSpLr(2))
    ensures ValidIns(Cps(SVC)) && ValidIns(Pop(3, 11, true)) && ValidIns(BxLr)
  {
  }

  lemma LoadsPointers(m: Cpu, rn: nat, s: Snapshot)
    requires rn <= 1 && ModeOf(m.cpsr) == SVC && m.r[rn] as int + 72 < 0x1_0000_0000 && Suspended(m.mem, m.r[rn], s)
    ensures var m1 := Exec(LdmSpLr(2), Exec(AddImm(2, rn, 64), Exec(Cps(SYS), Exec(LdrSp(rn, 52), m))));
            && s.sp >= 40 && m1.spSvc == s.sp - 40 && m1.spUsr == s.spUsr && m1.lrUsr == s.lrUsr && m1.mem == m.mem
            && Framed(m1.mem, s)
  {
    var a := Exec(LdrSp(rn, 52), m);
    assert a.spSvc == s.sp - 40 && a.mem == m.mem && a.r == m.r;
    var b := Exec(Cps(SYS), a);
    assert ModeOf(b.cpsr) == SYS && b.mem == m.mem && b.r == m.r && b.spSvc == a.spSvc;
    var c := Exec(AddImm(2, rn, 64), b);
    assert c.r[2] == m.r[rn] as int + 64 && c.mem == m.mem && c.spSvc == a.spSvc && c.cpsr == b.cpsr;
    var d := Exec(LdmSpLr(2), c);
    assert d.spUsr == s.spUsr && d.lrUsr == s.lrUsr && d.spSvc == a.spSvc;
  }

  lemma RunThree(a: Ins, b: Ins, c: Ins, m: Cpu)
    requires ValidIns(a) && ValidIns(b) && ValidIns(c)
    ensures ValidCode([a, b, c]) && Run([a, b, c], m) == Exec(c, Exec(b, Exec(a, m)))
  {
    hide Exec;
    assert [a, b, c][1..] == [b, c] && [b, c][1..] == [c];
    RunOne(c, Exec(b, Exec(a, m)));
  }

  lemma LoadsFrame(m: Cpu, s: Snapshot)
    requires Framed(m.mem, s) && m.spSvc == s.sp - 40 && m.spUsr == s.spUsr && m.lrUsr == s.lrUsr
    ensures var t := Exec(BxLr, Exec(Pop(3, 11, true), Exec(Cps(SVC), m)));
            SnapshotOf(t) == s && t.pc == s.lr && t.mem == m.mem && ModeOf(t.cpsr) == SVC
  {
    var c := Exec(Cps(SVC), m);
    var t := Exec(Pop(3, 11, true), c);
    assert t.r[3..12] == WordsAt(m.mem, s.sp - 40, 9);
    assert s.sp - 40 + 4 * 9 == s.sp - 4;
    assert t.r[3..12] == s.saved;
    assert t.lrSvc == s.lr && t.spSvc == s.sp && t.spUsr == s.spUsr && t.lrUsr == s.lrUsr;
  }

  /** The first half lays the task out as it is. */
  lemma LaysOut(m: Cpu, tcb: u32)
    requires Fits(m, tcb) && (tcb as int + 72 <= m.spSvc - 40 || m.spSvc <= tcb)
    ensures Suspended(OutMemory(m, tcb), tcb, SnapshotOf(m))
  {
    var words := FrameWords(m);
    var at: u32 := m.spSvc - 40;
    var pointers: seq<u32> := [m.spUsr, m.lrUsr];
    var frame := Stored(m.mem, at, words);
    var mem1 := frame[tcb as int + 52 := at];
    var mem2 := OutMemory(m, tcb);
    StoredHolds(m.mem, at, words);
    StoredHolds(mem1, tcb as int + 64, pointers);
    StoredElsewhere(mem1, tcb as int + 64, pointers, tcb as int + 52);
    forall i | 0 <= i < 10
      ensures WordAt(mem2, at as int + 4 * i) == words[i]
    {
      StoredElsewhere(mem1, tcb as int + 64, pointers, at as int + 4 * i);
      assert at as int + 4 * i in frame && frame[at as int + 4 * i] == words[i];
    }
    assert pointers[0] == mem2[tcb as int + 64 + 4 * 0] && pointers[1] == mem2[tcb as int + 64 + 4 * 1];
    assert words[9] == m.lrSvc && at + 4 * 9 == m.spSvc - 4;
    forall i | 0 <= i < 9
      ensures WordAt(mem2, m.spSvc as int - 40 + 4 * i) == m.r[3..12][i]
    {
      assert words[i] == m.r[3..12][i];
    }
  }

  /** Outside the frame and the task structure the first half writes nothing. */
  lemma OutsideKept(m: Cpu, tcb: u32, a: int)
    requires Fits(m, tcb) && !(m.spSvc - 40 <= a < m.spSvc) && !(tcb <= a < tcb + 72)
    ensures WordAt(OutMemory(m, tcb), a) == WordAt(m.mem, a)
  {
    var words := FrameWords(m);
    var at: u32 := m.spSvc - 40;
    var frame := Stored(m.mem, at, words);
    StoredElsewhere(m.mem, at, words, a);
    StoredElsewhere(frame[tcb as int + 52 := at], tcb as int + 64, [m.spUsr, m.lrUsr], a);
  }

  /** context_switch(current, next). */
  function Switch(m: Cpu, current: u32, next: u32): Cpu {
    Run(CONTEXT_SWITCH, m.(r := m.r[0 := current][1 := next]))
  }

  /** What context_switch does, as one step: the current task is laid out, the next one loaded. */
  lemma SwitchEffect(m: Cpu, current: u32, next: u32, s: Snapshot)
    requires Fits(m, current) && next as int + 72 < 0x1_0000_0000
    requires Suspended(OutMemory(m, current), next, s)
    ensures var t := Switch(m, current, next);
            && t.mem == OutMemory(m, current) && SnapshotOf(t) == s && t.pc == s.lr && ModeOf(t.cpsr) == SVC
  {
    var m0 := m.(r := m.r[0 := current][1 := next]);
    assert m0.r[3..12] == m.r[3..12];
    assert OutMemory(m0, current) == OutMemory(m, current);
    hide Run, OutMemory, Suspended;
    SwitchesOut(m0);
    RunAppend(SWITCH_OUT, SWITCH_IN, m0);
    LoadsTask(Run(SWITCH_OUT, m0), 1, s);
  }

  // ------------------------------------------------------------------ whole runs

  /** Where the tasks' structures and stacks are. */
  datatype Task = Task(tcb: u32, base: u32, size: u32)

  predicate InStack(t: Task, a: int) {
    t.base <= a < t.base + t.size
  }

  predicate InStruct(t: Task, a: int) {
    t.tcb <= a < t.tcb + 72
  }

  predicate Own(t: Task, a: int) {
    InStack(t, a) || InStruct(t, a)
  }

  /** Stacks and structures of different tasks, and the two of one task, do not overlap. */
  ghost predicate Disjoint(tasks: seq<Task>) {
    && (forall i :: 0 <= i < |tasks| ==>
          && tasks[i].tcb as int + 72 < 0x1_0000_0000
          && tasks[i].base + tasks[i].size < 0x1_0000_0000)
    && (forall i, a: int :: 0 <= i < |tasks| ==> !(InStack(tasks[i], a) && InStruct(tasks[i], a)))
    && (forall i, j, a: int :: 0 <= i < |tasks| && 0 <= j < |tasks| && i != j ==>
          !(Own(tasks[i], a) && Own(tasks[j], a)))
  }

  /** Between switches the running task changes registers as it likes, and memory only on its own
      stack or outside every task's memory. */
  ghost predicate Acts(tasks: seq<Task>, current: nat, before: Cpu, after: Cpu)
    requires current < |tasks|
  {
    forall i, a: int :: 0 <= i < |tasks| && (if i == current then InStruct(tasks[i], a) else Own(tasks[i], a)) ==>
      WordAt(after.mem, a) == WordAt(before.mem, a)
  }

  /** About to call context_switch: in SVC mode, with room for the frame on the own stack. */
  predicate Ready(t: Task, m: Cpu) {
    ModeOf(m.cpsr) == SVC && t.base + 40 <= m.spSvc <= t.base + t.size
  }

  /** A suspended task's layout, its frame on its own stack. */
  predicate Parked(t: Task, mem: map<int, u32>, s: Snapshot) {
    Suspended(mem, t.tcb, s) && t.base + 40 <= s.sp <= t.base + t.size
  }

  /** Who runs, and what everyone who does not run has to find again. */
  datatype System = System(cpu: Cpu, current: nat, parked: map<nat, Snapshot>)

  ghost predicate Inv(tasks: seq<Task>, s: System) {
    && Disjoint(tasks) && s.current < |tasks|
    && (forall i :: 0 <= i < |tasks| && i != s.current ==> i in s.parked)
    && (forall i :: i in s.parked && i != s.current ==> i < |tasks| && Parked(tasks[i], s.cpu.mem, s.parked[i]))
  }

  /** One turn: the running task acts until it calls context_switch in state `before`; `next` runs. */
  datatype Turn = Turn(before: Cpu, next: nat)

  ghost predicate Allowed(tasks: seq<Task>, s: System, t: Turn)
    requires s.current < |tasks|
  {
    Acts(tasks, s.current, s.cpu, t.before) && Ready(tasks[s.current], t.before) && t.next < |tasks|
        && t.next != s.current
  }

  function Take(tasks: seq<Task>, s: System, t: Turn): System
    requires s.current < |tasks| && t.next < |tasks|
  {
    System(Switch(t.before, tasks[s.current].tcb, tasks[t.next].tcb), t.next,
           s.parked[s.current := SnapshotOf(t.before)])
  }

  /** The memory of a task is alike in both. */
  ghost predicate SameOwn(t: Task, mem: map<int, u32>, mem': map<int, u32>) {
    forall a: int :: Own(t, a) ==> WordAt(mem, a) == WordAt(mem', a)
  }

  lemma ParkedKept(t: Task, mem: map<int, u32>, mem': map<int, u32>, s: Snapshot)
    requires Parked(t, mem, s) && t.tcb as int + 72 < 0x1_0000_0000 && t.base + t.size < 0x1_0000_0000
    requires SameOwn(t, mem', mem)
    ensures Parked(t, mem', s)
  {
    assert Own(t, t.tcb + 52) && Own(t, t.tcb + 64) && Own(t, t.tcb + 68) && Own(t, s.sp as int - 4);
    forall i | 0 <= i < 9
      ensures WordAt(mem', s.sp as int - 40 + 4 * i) == s.saved[i]
    {
      assert Own(t, s.sp as int - 40 + 4 * i);
    }
  }

  /** After acting and laying out the current task, every task is parked. */
  lemma AllParked(tasks: seq<Task>, s: System, t: Turn)
    requires Inv(tasks, s) && Allowed(tasks, s, t)
    ensures t.before.spSvc >= 40
    ensures var mem := OutMemory(t.before, tasks[s.current].tcb);
            && Fits(t.before, tasks[s.current].tcb)
            && Parked(tasks[s.current], mem, SnapshotOf(t.before))
            && (forall i :: 0 <= i < |tasks| && i != s.current ==> i in s.parked && Parked(tasks[i], mem, s.parked[i]))
            && (forall i :: 0 <= i < |tasks| && i != s.current ==> SameOwn(tasks[i], mem, s.cpu.mem))
  {
    var own := tasks[s.current];
    var mem := OutMemory(t.before, own.tcb);
    hide OutMemory, Suspended, WordAt;
    var a: int := if own.tcb >= t.before.spSvc - 40 then own.tcb else t.before.spSvc - 40;
    assert !(InStack(own, a) && InStruct(own, a));
    LaysOut(t.before, own.tcb);
    forall i | 0 <= i < |tasks| && i != s.current
      ensures i in s.parked && Parked(tasks[i], mem, s.parked[i]) && SameOwn(tasks[i], mem, s.cpu.mem)
    {
      forall a: int | Own(tasks[i], a)
        ensures WordAt(mem, a) == WordAt(s.cpu.mem, a)
      {
        assert !Own(own, a);
        OutsideKept(t.before, own.tcb, a);
      }
      ParkedKept(tasks[i], s.cpu.mem, mem, s.parked[i]);
    }
  }

  lemma DisjointBounds(tasks: seq<Task>, i: nat)
    requires Disjoint(tasks) && i < |tasks|
    ensures tasks[i].tcb as int + 72 < 0x1_0000_0000
  {
  }

  /** A switch gives the next task exactly what it left, and keeps every other task's layout. */
  lemma TurnKeeps(tasks: seq<Task>, s: System, t: Turn)
    requires Inv(tasks, s) && Allowed(tasks, s, t)
    ensures t.before.spSvc >= 40 && Fits(t.before, tasks[s.current].tcb)
    ensures var s' := Take(tasks, s, t);
            && Inv(tasks, s') && SnapshotOf(s'.cpu) == s.parked[t.next] && s'.cpu.pc == s.parked[t.next].lr
            && ModeOf(s'.cpu.cpsr) == SVC && s'.cpu.mem == OutMemory(t.before, tasks[s.current].tcb)
            && forall i :: 0 <= i < |tasks| && i != s.current ==> SameOwn(tasks[i], s'.cpu.mem, s.cpu.mem)
  {
    hide *;
    AllParked(tasks, s, t);
    InvMeans(tasks, s);
    AllowedMeans(tasks, s, t);
    DisjointBounds(tasks, t.next);
    var next := s.parked[t.next];
    ParkedMeans(tasks[t.next], OutMemory(t.before, tasks[s.current].tcb), next);
    SwitchEffect(t.before, tasks[s.current].tcb, tasks[t.next].tcb, next);
    TakeIs(tasks, s, t);
    InvAfter(tasks, s, t, OutMemory(t.before, tasks[s.current].tcb));
  }

  lemma InvMeans(tasks: seq<Task>, s: System)
    requires Inv(tasks, s)
    ensures Disjoint(tasks) && s.current < |tasks|
  {
  }

  lemma AllowedMeans(tasks: seq<Task>, s: System, t: Turn)
    requires s.current < |tasks| && Allowed(tasks, s, t)
    ensures t.next < |tasks| && t.next != s.current
  {
  }

  lemma ParkedMeans(t: Task, mem: map<int, u32>, s: Snapshot)
    requires Parked(t, mem, s)
    ensures Suspended(mem, t.tcb, s)
  {
  }

  lemma TakeIs(tasks: seq<Task>, s: System, t: Turn)
    requires s.current < |tasks| && t.next < |tasks|
    ensures Take(tasks, s, t)
            == System(Switch(t.before, tasks[s.current].tcb, tasks[t.next].tcb), t.next,
                      s.parked[s.current := SnapshotOf(t.before)])
  {
  }

  lemma InvAfter(tasks: seq<Task>, s: System, t: Turn, mem: map<int, u32>)
    requires Inv(tasks, s) && t.next < |tasks| && Take(tasks, s, t).cpu.mem == mem
    requires Parked(tasks[s.current], mem, SnapshotOf(t.before))
    requires forall i :: 0 <= i < |tasks| && i != s.current ==> i in s.parked && Parked(tasks[i], mem, s.parked[i])
    ensures Inv(tasks, Take(tasks, s, t))
  {
    hide Parked, Disjoint, Switch, SnapshotOf;
  }

  ghost predicate IsRun(tasks: seq<Task>, s: System, turns: seq<Turn>)
    decreases turns
  {
    turns == [] ||
    (s.current < |tasks| && Allowed(tasks, s, turns[0]) && IsRun(tasks, Take(tasks, s, turns[0]), turns[1..]))
  }

  ghost function After(tasks: seq<Task>, s: System, turns: seq<Turn>): System
    requires IsRun(tasks, s, turns)
    decreases turns
  {
    if turns == [] then s else After(tasks, Take(tasks, s, turns[0]), turns[1..])
  }

  lemma {:induction false} RunKeeps(tasks: seq<Task>, s: System, turns: seq<Turn>)
    requires Inv(tasks, s) && IsRun(tasks, s, turns)
    ensures Inv(tasks, After(tasks, s, turns))
    decreases turns
  {
    if turns != [] {
      TurnKeeps(tasks, s, turns[0]);
      hide Inv, Allowed;
      RunKeeps(tasks, Take(tasks, s, turns[0]), turns[1..]);
    }
  }

  /** While a task does not run, what it has to find again stays the same. */
  lemma {:induction false} ParkedStays(tasks: seq<Task>, s: System, turns: seq<Turn>, i: nat)
    requires Inv(tasks, s) && IsRun(tasks, s, turns) && i < |tasks| && i != s.current
    requires forall k :: 0 <= k < |turns| ==> turns[k].next != i
    ensures i in s.parked
    ensures var s' := After(tasks, s, turns);
            && i != s'.current && i in s'.parked && s'.parked[i] == s.parked[i]
            && SameOwn(tasks[i], s'.cpu.mem, s.cpu.mem)
    decreases turns
  {
    hide *;
    RunUnfolds(tasks, s, turns);
    if turns == [] {
      SameOwnSelf(tasks[i], s.cpu.mem);
      InvParked(tasks, s, i);
    } else {
      TurnKeeps(tasks, s, turns[0]);
      var s1 := Take(tasks, s, turns[0]);
      AllowedMeans(tasks, s, turns[0]);
      TakeIs(tasks, s, turns[0]);
      assert forall k :: 0 <= k < |turns[1..]| ==> turns[1..][k] == turns[k + 1];
      InvParked(tasks, s, i);
      ParkedStays(tasks, s1, turns[1..], i);
      SameOwnTwice(tasks[i], After(tasks, s, turns).cpu.mem, s1.cpu.mem, s.cpu.mem);
    }
  }

  lemma InvParked(tasks: seq<Task>, s: System, i: nat)
    requires Inv(tasks, s) && i < |tasks| && i != s.current
    ensures i in s.parked
  {
  }

  lemma SameOwnSelf(t: Task, mem: map<int, u32>)
    ensures SameOwn(t, mem, mem)
  {
  }

  lemma RunUnfolds(tasks: seq<Task>, s: System, turns: seq<Turn>)
    requires IsRun(tasks, s, turns)
    ensures turns == [] ==> After(tasks, s, turns) == s
    ensures turns != [] ==>
              && s.current < |tasks| && Allowed(tasks, s, turns[0]) && turns[0].next < |tasks|
              && IsRun(tasks, Take(tasks, s, turns[0]), turns[1..])
              && After(tasks, s, turns) == After(tasks, Take(tasks, s, turns[0]), turns[1..])
  {
  }

  /** Isolation over whole runs: a task is switched out, others run for any number of turns, and
      it is switched in again. It finds r3 to r11, lr_svc, sp_svc, sp_usr and lr_usr as they were
      when it was switched out, its stack from there up unchanged, and goes on after its call of
      context_switch. */
  lemma Isolation(tasks: seq<Task>, s: System, out: Turn, between: seq<Turn>, back: Turn)
    requires Inv(tasks, s) && IsRun(tasks, s, [out] + between + [back])
    requires back.next == s.current && forall k :: 0 <= k < |between| ==> between[k].next != s.current
    ensures var s' := After(tasks, s, [out] + between + [back]);
            && s'.current == s.current && SnapshotOf(s'.cpu) == SnapshotOf(out.before)
            && s'.cpu.pc == out.before.lrSvc && ModeOf(s'.cpu.cpsr) == SVC && Inv(tasks, s')
    ensures StackKept(tasks[s.current], out.before, After(tasks, s, [out] + between + [back]).cpu)
  {
    hide *;
    var i := s.current;
    var rest := between + [back];
    var all := [out] + between + [back];
    assert all[1..] == rest && all[0] == out;
    RunUnfolds(tasks, s, all);
    InvMeans(tasks, s);
    TurnKeeps(tasks, s, out);
    AllowedMeans(tasks, s, out);
    TakeIs(tasks, s, out);
    var s1 := Take(tasks, s, out);
    RunSplits(tasks, s1, between, back);
    var s2 := After(tasks, s1, between);
    ParkedStays(tasks, s1, between, i);
    RunKeeps(tasks, s1, between);
    TurnKeeps(tasks, s2, back);
    TakeIs(tasks, s2, back);
    SnapshotIs(out.before);
    OutKeepsStack(tasks, s, out);
    SameOwnTwice(tasks[i], After(tasks, s, all).cpu.mem, s2.cpu.mem, s1.cpu.mem);
    StackThrough(tasks[i], out.before, s1.cpu, After(tasks, s, all).cpu);
  }

  lemma SnapshotIs(m: Cpu)
    ensures SnapshotOf(m).lr == m.lrSvc
  {
  }

  /** The stack of a task, from its stack pointer up, is as it was. */
  ghost predicate StackKept(t: Task, before: Cpu, after: Cpu) {
    forall a: int :: InStack(t, a) && a >= before.spSvc ==> WordAt(after.mem, a) == WordAt(before.mem, a)
  }

  lemma OutKeepsStack(tasks: seq<Task>, s: System, out: Turn)
    requires Inv(tasks, s) && Allowed(tasks, s, out)
    ensures Fits(out.before, tasks[s.current].tcb)
    ensures var t := tasks[s.current];
            forall a: int :: InStack(t, a) && a >= out.before.spSvc ==>
                               WordAt(OutMemory(out.before, t.tcb), a) == WordAt(out.before.mem, a)
  {
    AllParked(tasks, s, out);
    var t := tasks[s.current];
    hide OutMemory;
    forall a: int | InStack(t, a) && a >= out.before.spSvc
      ensures WordAt(OutMemory(out.before, t.tcb), a) == WordAt(out.before.mem, a)
    {
      assert !InStruct(t, a);
      OutsideKept(out.before, t.tcb, a);
    }
  }

  lemma SameOwnTwice(t: Task, a: map<int, u32>, b: map<int, u32>, c: map<int, u32>)
    requires SameOwn(t, a, b) && SameOwn(t, b, c)
    ensures SameOwn(t, a, c)
  {
    hide WordAt;
  }

  lemma StackThrough(t: Task, before: Cpu, middle: Cpu, after: Cpu)
    requires forall a: int :: InStack(t, a) && a >= before.spSvc ==> WordAt(middle.mem, a) == WordAt(before.mem, a)
    requires SameOwn(t, after.mem, middle.mem)
    ensures StackKept(t, before, after)
  {
    hide WordAt;
  }

  /** The last turn of a run, taken apart. */
  lemma {:induction false} RunSplits(tasks: seq<Task>, s: System, turns: seq<Turn>, last: Turn)
    requires IsRun(tasks, s, turns + [last])
    ensures IsRun(tasks, s, turns)
    ensures var s1 := After(tasks, s, turns);
            && s1.current < |tasks| && Allowed(tasks, s1, last)
            && After(tasks, s, turns + [last]) == Take(tasks, s1, last)
    decreases turns
  {
    if turns == [] {
      assert [] + [last] == [last] && [last][1..] == [];
    } else {
      assert (turns + [last])[1..] == turns[1..] + [last] && (turns + [last])[0] == turns[0];
      RunSplits(tasks, Take(tasks, s, turns[0]), turns[1..], last);
    }
  }
}
