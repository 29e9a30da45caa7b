/** The hand-built first stack of a task. */
module TaskInit {
  // Whoever loads it arrives at the entry point in the right mode with the promised registers.

  import opened Words
  import opened WordMemory
  import opened KernelCpu
  import opened ContextSwitching
  import opened Exceptions

  const STACK_CANARY_VALUE: u32 := 0xDEADBEEF
  const KERNEL_BASE: u32 := 0xC0000000
  const READY: u32 := 0

  /** Entry points in the kernel half run in SVC mode, others in User mode. */
  function FirstMode(entry: u32): u32 {
    if entry >= KERNEL_BASE then SVC else USR
  }

  /** 0x0BAD0000 | i, which adds i while i < 2^16. */
  function Pattern(i: nat): u32
    requires i < 13
  {
    0x0BAD0000 + i
  }

  function Patterns(): (r: Gprs)
    ensures forall i :: 0 <= i < 13 ==> r[i] == Pattern(i)
  {
    seq(13, i requires 0 <= i < 13 => Pattern(i))
  }

  function Zeros(n: nat): (ws: seq<u32>)
    ensures |ws| == n && forall i :: 0 <= i < n ==> ws[i] == 0
  {
    seq(n, _ => 0)
  }

  /** The exception frame, from its lowest word: status, padding, r0 to r12, the entry point. */
  function UserFrame(entry: u32): (ws: seq<u32>)
    ensures |ws| == 16 && ws[0] == FirstMode(entry) && ws[1] == 0 && ws[2..15] == Patterns() && ws[15] == entry
  {
    [FirstMode(entry), 0] + (Patterns() + [entry])
  }

  /** Both frames: r3 to r11, the way out, then the exception frame. */
  function BootFrames(entry: u32, trampoline: u32): (ws: seq<u32>)
    ensures |ws| == 26
  {
    Zeros(9) + ([trampoline] + UserFrame(entry))
  }

  /** Memory after task_stack_init: the canary, the frames, and the task structure. */
  function BootMemory(mem: map<int, u32>, tcb: u32, entry: u32, trampoline: u32, base: u32, size: u32): map<int, u32>
    requires base as int + size as int < 0x1_0000_0000 && base + size >= 104
  {
    var sp: u32 := base + size - 104;
    var frames := Stored(mem[base := STACK_CANARY_VALUE], sp, BootFrames(entry, trampoline));
    StructAt(frames, tcb, entry, base, size)
  }

  /** The fields of the task structure that the routine sets. */
  function StructAt(mem: map<int, u32>, tcb: u32, entry: u32, base: u32, size: u32): map<int, u32>
    requires base as int + size as int < 0x1_0000_0000 && base + size >= 104
  {
    var sp: u32 := base + size - 104;
    mem[tcb as int + 52 := sp][tcb as int + 64 := Plus(base + size, -512)][tcb as int + 68 := entry]
    [tcb as int + 72 := base][tcb as int + 76 := size][tcb as int + 80 := READY]
  }

  /** The two checks at the end of the routine. */
  predicate Panics(base: u32, size: u32)
    requires base as int + size as int < 0x1_0000_0000
  {
    size <= 104 || Plus(base + size, -512) <= base
  }

  lemma PushStores(mem: map<int, u32>, sp: int, ws: seq<u32>, v: u32)
    ensures Stored(mem, sp, ws)[sp - 4 := v] == Stored(mem, sp - 4, [v] + ws)
  {
    assert ([v] + ws)[1..] == ws;
    StoredCommutes(mem, sp - 4, v, sp, ws);
  }

  class Ram {
    var words: map<int, u32>

    constructor ()
      ensures words == map[]
    {
      words := map[];
    }

    /** *--stack_ptr = v */
    method Push(sp: u32, v: u32) returns (below: u32)
      requires sp >= 4
      modifies this
      ensures below == sp - 4 && words == old(words)[sp as int - 4 := v]
    {
      below := sp - 4;
      words := words[below as int := v];
    }

    /** Frame 1: what a system call would have saved. */
    method PushUserFrame(top: u32, entry: u32) returns (sp: u32)
      requires top >= 64
      modifies this
      ensures sp == top - 64 && words == Stored(old(words), top - 64, UserFrame(entry))
    {
      hide Stored;
      ghost var start := words;
      sp := top;
      ghost var ws: seq<u32> := [entry];
      NothingStored(start, sp);
      PushStores(start, sp, [], entry);
      assert [entry] + [] == ws;
      sp := Push(sp, entry);
      for i := 13 downto 0
        invariant sp as int == top - 4 * |ws| && words == Stored(start, sp, ws)
        invariant ws == Patterns()[i..] + [entry]
      {
        PushStores(start, sp, ws, Pattern(i));
        sp := Push(sp, Pattern(i));
        ws := [Pattern(i)] + ws;
      }
      PushStores(start, sp, ws, 0);
      sp := Push(sp, 0);
      ws := [0] + ws;
      PushStores(start, sp, ws, FirstMode(entry));
      sp := Push(sp, if entry >= KERNEL_BASE then 0x13 else 0x10);
      ws := [FirstMode(entry)] + ws;
      assert ws == UserFrame(entry);
    }

    /** Frame 2: what context_switch would have saved. */
    method PushKernelFrame(top: u32, trampoline: u32) returns (sp: u32)
      requires top >= 40
      modifies this
      ensures sp == top - 40 && words == Stored(old(words), top - 40, Zeros(9) + [trampoline])
    {
      hide Stored;
      ghost var start := words;
      ghost var ws: seq<u32> := [trampoline];
      NothingStored(start, top);
      PushStores(start, top, [], trampoline);
      assert [trampoline] + [] == ws;
      sp := Push(top, trampoline);
      for i := 0 to 9
        invariant sp as int == top - 4 * |ws| && words == Stored(start, sp, ws)
        invariant ws == Zeros(i) + [trampoline]
      {
        PushStores(start, sp, ws, 0);
        sp := Push(sp, 0);
        assert [0] + Zeros(i) == Zeros(i + 1);
        ws := [0] + ws;
      }
    }

    method TaskStackInit(tcb: u32, entry: u32, trampoline: u32, base: u32, size: u32) returns (panic: bool)
      requires base as int + size as int < 0x1_0000_0000 && base + size >= 104
      modifies this
      ensures words == BootMemory(old(words), tcb, entry, trampoline, base, size) && panic == Panics(base, size)
    {
      hide Stored, UserFrame, StructAt, Zeros;
      words := words[base as int := STACK_CANARY_VALUE];
      ghost var start := words;
      var sp := PushUserFrame(base + size, entry);
      sp := PushKernelFrame(sp, trampoline);
      StoredTwice(start, base + size - 104, Zeros(9) + [trampoline], UserFrame(entry));
      assert (Zeros(9) + [trampoline]) + UserFrame(entry) == BootFrames(entry, trampoline);
      words := StructAt(words, tcb, entry, base, size);
      panic := sp <= base || Plus(base + size, -512) <= base;
    }
  }

  lemma NothingStored(mem: map<int, u32>, sp: int)
    ensures Stored(mem, sp, []) == mem
  {
  }

  // ------------------------------------------------------------------ what the frames lead to

  /** A stack the routine accepts, and a structure apart from it. */
  predicate Accepts(tcb: u32, base: u32, size: u32) {
    && base as int + size as int < 0x1_0000_0000 && size > 512 && tcb as int + 92 < 0x1_0000_0000
    && (tcb as int + 92 <= base || base + size <= tcb)
  }

  function BootSnapshot(entry: u32, trampoline: u32, base: u32, size: u32): Snapshot
    requires base as int + size as int < 0x1_0000_0000 && size > 512
  {
    Snapshot(Zeros(9), trampoline, base + size - 64, base + size - 512, entry)
  }

  /** The bootstrap frames are a suspended task's, with an exception frame above, and the canary is
      still at the bottom. */
  lemma BootLaidOut(mem: map<int, u32>, tcb: u32, entry: u32, trampoline: u32, base: u32, size: u32)
    requires Accepts(tcb, base, size)
    ensures var b := BootMemory(mem, tcb, entry, trampoline, base, size);
            && Suspended(b, tcb, BootSnapshot(entry, trampoline, base, size))
            && WordsAt(b, base as int + size as int - 64, 16) == UserFrame(entry)
            && WordAt(b, base) == STACK_CANARY_VALUE
  {
    hide *;
    BootStackWords(mem, tcb, entry, trampoline, base, size);
    BootStructWords(mem, tcb, entry, trampoline, base, size);
    BootWords(entry, trampoline);
    BootIs(BootMemory(mem, tcb, entry, trampoline, base, size), tcb, entry, trampoline, base, size);
  }

  lemma BootStackWords(mem: map<int, u32>, tcb: u32, entry: u32, trampoline: u32, base: u32, size: u32)
    requires Accepts(tcb, base, size)
    ensures base as int + size as int < 0x1_0000_0000 && size > 512
    ensures var b := BootMemory(mem, tcb, entry, trampoline, base, size);
            && (forall i :: 0 <= i < 26 ==>
                              WordAt(b, base as int + size as int - 104 + 4 * i) == BootFrames(entry, trampoline)[i])
            && WordAt(b, base) == STACK_CANARY_VALUE
  {
    var sp: u32 := base + size - 104;
    var ws := BootFrames(entry, trampoline);
    var m0 := mem[base as int := STACK_CANARY_VALUE];
    StoredHolds(m0, sp, ws);
    StoredElsewhere(m0, sp, ws, base);
    hide Stored, BootFrames;
  }

  lemma BootStructWords(mem: map<int, u32>, tcb: u32, entry: u32, trampoline: u32, base: u32, size: u32)
    requires Accepts(tcb, base, size)
    ensures var b := BootMemory(mem, tcb, entry, trampoline, base, size);
            && WordAt(b, tcb as int + 52) == base + size - 104 && WordAt(b, tcb as int + 64) == base + size - 512
            && WordAt(b, tcb as int + 68) == entry
  {
    hide Stored, BootFrames;
  }

  lemma BootIs(b: map<int, u32>, tcb: u32, entry: u32, trampoline: u32, base: u32, size: u32)
    requires base as int + size as int < 0x1_0000_0000 && size > 512
    requires forall i :: 0 <= i < 26 ==>
                           WordAt(b, base as int + size as int - 104 + 4 * i) == BootFrames(entry, trampoline)[i]
    requires var ws := BootFrames(entry, trampoline);
             && (forall i :: 0 <= i < 9 ==> ws[i] == 0) && ws[9] == trampoline
             && (forall i :: 0 <= i < 16 ==> ws[10 + i] == UserFrame(entry)[i])
    requires WordAt(b, tcb as int + 52) == base + size - 104 && WordAt(b, tcb as int + 64) == base + size - 512
    requires WordAt(b, tcb as int + 68) == entry
    ensures Suspended(b, tcb, BootSnapshot(entry, trampoline, base, size))
    ensures WordsAt(b, base as int + size as int - 64, 16) == UserFrame(entry)
  {
    var at := base as int + size as int - 104;
    var ws := BootFrames(entry, trampoline);
    var s := BootSnapshot(entry, trampoline, base, size);
    hide WordAt, BootFrames, UserFrame;
    forall i | 0 <= i < 9
      ensures WordAt(b, s.sp as int - 40 + 4 * i) == s.saved[i]
    {
      assert WordAt(b, at + 4 * i) == ws[i];
      assert s.sp as int - 40 + 4 * i == at + 4 * i;
    }
    assert WordAt(b, at + 4 * 9) == ws[9];
    assert s.sp as int - 4 == at + 4 * 9;
    forall i | 0 <= i < 16
      ensures WordsAt(b, base as int + size as int - 64, 16)[i] == UserFrame(entry)[i]
    {
      assert WordAt(b, at + 4 * (10 + i)) == ws[10 + i];
      assert base as int + size as int - 64 + 4 * i == at + 4 * (10 + i);
    }
  }

  lemma BootWords(entry: u32, trampoline: u32)
    ensures var ws := BootFrames(entry, trampoline);
            && (forall i :: 0 <= i < 9 ==> ws[i] == 0) && ws[9] == trampoline
            && (forall i :: 0 <= i < 16 ==> ws[10 + i] == UserFrame(entry)[i])
  {
    hide UserFrame;
  }

  /** At the entry point, in User mode below 0xC0000000 and in SVC mode from there up, interrupts
      enabled; the register pattern; both stack pointers at their tops. */
  predicate Started(e: Cpu, entry: u32, base: u32, size: u32) {
    && e.pc == entry && e.cpsr == (if entry < 0xC0000000 then 0x10 else 0x13)
    && (forall i :: 0 <= i < 13 ==> e.r[i] == 0x0BAD0000 + i)
    && e.spSvc as int == base as int + size as int && e.spUsr as int == base as int + size as int - 512
    && e.lrUsr == entry
  }

  lemma FramesStart(t: Cpu, tcb: u32, entry: u32, trampoline: u32, base: u32, size: u32)
    requires Accepts(tcb, base, size) && ModeOf(t.cpsr) == SVC
    requires SnapshotOf(t) == BootSnapshot(entry, trampoline, base, size)
    requires WordsAt(t.mem, base as int + size as int - 64, 16) == UserFrame(entry)
    ensures Started(LeaveSvc(t), entry, base, size)
  {
    hide LeaveSvc, UserFrame;
    SvcLeaves(t, UserFrame(entry));
  }

  /** start_first_task arrives at the way out of a system call, and from there at the entry point. */
  lemma FirstTaskStarts(m: Cpu, mem: map<int, u32>, entry: u32, trampoline: u32, base: u32, size: u32)
    requires Accepts(m.r[0], base, size) && ModeOf(m.cpsr) == SVC
    requires m.mem == BootMemory(mem, m.r[0], entry, trampoline, base, size)
    ensures var t := Run(START_FIRST_TASK, m);
            && t.pc == trampoline && Started(LeaveSvc(t), entry, base, size)
               && WordAt(t.mem, base) == STACK_CANARY_VALUE
  {
    hide Run, BootMemory, LeaveSvc, Started, Suspended, UserFrame;
    BootLaidOut(mem, m.r[0], entry, trampoline, base, size);
    LoadsTask(m, 0, BootSnapshot(entry, trampoline, base, size));
    FramesStart(Run(START_FIRST_TASK, m), m.r[0], entry, trampoline, base, size);
  }

  /** So does a switch from another task, provided nobody wrote to the new task's memory since. */
  lemma SwitchedTaskStarts(m: Cpu, current: u32, t: Task, mem: map<int, u32>, entry: u32, trampoline: u32)
    requires Accepts(t.tcb, t.base, t.size) && Fits(m, current) && m.spSvc >= 40
    requires SameOwn(t, OutMemory(m, current), BootMemory(mem, t.tcb, entry, trampoline, t.base, t.size))
    ensures var s := Switch(m, current, t.tcb);
            && s.pc == trampoline && Started(LeaveSvc(s), entry, t.base, t.size)
            && WordAt(s.mem, t.base) == STACK_CANARY_VALUE
  {
    hide Switch, BootMemory, LeaveSvc, Started, UserFrame, OutMemory;
    var b := BootMemory(mem, t.tcb, entry, trampoline, t.base, t.size);
    var o := OutMemory(m, current);
    BootLaidOut(mem, t.tcb, entry, trampoline, t.base, t.size);
    var s := BootSnapshot(entry, trampoline, t.base, t.size);
    ParkedKept(t, b, o, s);
    SwitchEffect(m, current, t.tcb, s);
    var at := t.base as int + t.size as int - 64;
    forall i | 0 <= i < 16
      ensures WordsAt(o, at, 16)[i] == WordsAt(b, at, 16)[i]
    {
      assert Own(t, at + 4 * i);
    }
    assert WordsAt(o, at, 16) == WordsAt(b, at, 16);
    assert Own(t, t.base);
    FramesStart(Switch(m, current, t.tcb), t.tcb, entry, trampoline, t.base, t.size);
  }
}
