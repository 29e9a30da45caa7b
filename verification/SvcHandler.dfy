/** The kernel's side of a system call. */
module SvcHandler {
  // The numbers, the services programs write, read, yield and exit with, and the two orders of
  // arguments that writing and reading accept.

  import opened Words
  import opened FileSystem
  import opened Loader
  import opened Scheduling

  const E_INVAL: int := -2

  const SYS_WRITE: u32 := 0
  const SYS_EXIT: u32 := 1
  const SYS_YIELD: u32 := 2
  const SYS_READ: u32 := 3
  const SYS_GET_TASKS: u32 := 4
  const SYS_GET_MEMINFO: u32 := 5
  const SYS_OPEN: u32 := 6
  const SYS_READ_FILE: u32 := 7
  const SYS_CLOSE: u32 := 8
  const SYS_LISTDIR: u32 := 9
  const SYS_EXEC: u32 := 10

  const WRITE_MAX: nat := 256
  const NEWLINE: u8 := 10
  const RETURN: u8 := 13

  type Regs = s: seq<u32> | |s| == 13 witness [0, 0, 0, 0, 0, 0, 0, 0, 0, 0, 0, 0, 0]
  type Payload = s: seq<u8> | |s| <= WINDOW_SIZE

  /** The saved registers of the caller, and where it goes on. */
  datatype Frame = Frame(r: Regs, pc: u32)

  /** The user's memory, the bytes received and not yet read, the bytes sent so far, the scheduler,
      the slots of tasks with the shell's name, and the shell's program. */
  datatype Machine = Machine(user: Window, waiting: seq<u8>, sent: seq<u8>, sched: Sched, shells: set<nat>,
                             payload: Payload)

  /** The service returns to its caller, its caller is gone, or it is not one of the four. */
  datatype Reply = Back(machine: Machine, frame: Frame) | Gone(machine: Machine) | Elsewhere

  // ------------------------------------------------------------------ the specification

  /** What a terminal gets for some text. */
  function Cooked(s: seq<u8>): seq<u8> {
    if s == [] then [] else (if s[0] == NEWLINE then [RETURN, NEWLINE] else [s[0]]) + Cooked(s[1..])
  }

  function BytesAt(user: Window, buf: u32, len: u32): (b: seq<u8>)
    requires PointerOk(buf, len)
    ensures |b| == len
  {
    PointerOkExactly(buf, len);
    user[buf - WINDOW..buf - WINDOW + len]
  }

  function WriteTo(m: Machine, fd: u32, buf: u32, len: u32): (Machine, int)
    requires PointerOk(buf, len)
  {
    if (fd != 1 && fd != 2) || len > WRITE_MAX then (m, E_ARG)
    else (m.(sent := m.sent + Cooked(BytesAt(m.user, buf, len))), len)
  }

  /** sys_write. */
  function WriteService(m: Machine, r: Regs): (Machine, int) {
    if PointerOk(r[0], r[1]) then WriteTo(m, 1, r[0], r[1])
    else if PointerOk(r[1], r[2]) then WriteTo(m, r[0], r[1], r[2])
    else (m, E_PTR)
  }

  function ReadFrom(m: Machine, fd: u32, buf: u32, len: u32): (Machine, int)
    requires PointerOk(buf, len)
  {
    PointerOkExactly(buf, len);
    if fd != 0 then (m, E_ARG)
    else if len == 0 || m.waiting == [] then (m, 0)
    else (m.(user := m.user[buf - WINDOW := m.waiting[0]], waiting := m.waiting[1..]), 1)
  }

  /** sys_read. */
  function ReadService(m: Machine, r: Regs): (Machine, int) {
    if PointerOk(r[0], r[1]) then ReadFrom(m, 0, r[0], r[1])
    else if PointerOk(r[1], r[2]) then ReadFrom(m, r[0], r[1], r[2])
    else (m, E_PTR)
  }

  /** The result goes into the caller's r0, in 32 bits. */
  function Answer(m: Machine, frame: Frame, code: int): Reply {
    Back(m, frame.(r := frame.r[0 := code % 0x1_0000_0000]))
  }

  /** sys_yield: asks for a reschedule first. */
  function YieldNow(m: Machine, frame: Frame): Reply
    requires m.sched.current < |m.sched.states|
  {
    Answer(m.(sched := Happens(Happens(m.sched, Tick).0, YieldCall).0), frame, E_OK)
  }

  /** sys_exit: the shell starts anew, any other task is terminated. */
  function Exit(m: Machine, frame: Frame): Reply
    requires m.sched.current < |m.sched.states|
  {
    if m.sched.current in m.shells then
      Answer(m.(user := m.payload + m.user[|m.payload|..]),
             Frame(frame.r[0 := 0][1 := 0][2 := 0][3 := 0], WINDOW), E_OK)
    else
      var (sched, o) := Happens(m.sched, Kill(m.sched.current));
      if o.Stays? then Answer(m.(sched := sched), frame, 0) else Gone(m.(sched := sched))
  }

  /** svc_handler, by the number in r7. */
  function Serve(m: Machine, frame: Frame): Reply
    requires m.sched.current < |m.sched.states|
  {
    if frame.r[7] == SYS_WRITE then var (m1, code) := WriteService(m, frame.r); Answer(m1, frame, code)
    else if frame.r[7] == SYS_EXIT then Exit(m, frame)
    else if frame.r[7] == SYS_YIELD then YieldNow(m, frame)
    else if frame.r[7] == SYS_READ then var (m1, code) := ReadService(m, frame.r); Answer(m1, frame, code)
    else if frame.r[7] <= SYS_EXEC then Elsewhere
    else Answer(m, frame, E_INVAL)
  }

  // ------------------------------------------------------------------ what a terminal shows

  /** Without the carriage returns that belong to a newline. */
  function Uncooked(t: seq<u8>): seq<u8> {
    if t == [] then []
    else if |t| >= 2 && t[0] == RETURN && t[1] == NEWLINE then [NEWLINE] + Uncooked(t[2..])
    else [t[0]] + Uncooked(t[1..])
  }

  /** Every newline has a carriage return before it. */
  ghost predicate LinesReturn(t: seq<u8>) {
    forall i :: 0 <= i < |t| && t[i] == NEWLINE ==> i > 0 && t[i - 1] == RETURN
  }

  lemma {:induction false} CookedSound(s: seq<u8>)
    ensures Uncooked(Cooked(s)) == s && LinesReturn(Cooked(s))
    ensures Cooked(s) != [] ==> Cooked(s)[0] != NEWLINE
  {
    if s != [] {
      CookedSound(s[1..]);
      var (t, rest) := (Cooked(s), Cooked(s[1..]));
      if s[0] == NEWLINE {
        assert t == [RETURN, NEWLINE] + rest && t[2..] == rest;
        forall i | 2 <= i < |t| && t[i] == NEWLINE
          ensures t[i - 1] == RETURN
        {
          assert rest[i - 2] == NEWLINE;
        }
      } else {
        assert t == [s[0]] + rest && t[1..] == rest;
        forall i | 1 <= i < |t| && t[i] == NEWLINE
          ensures t[i - 1] == RETURN
        {
          assert rest[i - 1] == NEWLINE;
        }
      }
    }
  }

  lemma {:induction false} CookedComplete(t: seq<u8>)
    requires LinesReturn(t)
    ensures t == Cooked(Uncooked(t))
    decreases |t|
  {
    if t != [] {
      var n := if |t| >= 2 && t[0] == RETURN && t[1] == NEWLINE then 2 else 1;
      forall i | 0 <= i < |t[n..]| && t[n..][i] == NEWLINE
        ensures i > 0 && t[n..][i - 1] == RETURN
      {
        assert t[i + n] == NEWLINE && t[i + n - 1] == RETURN;
      }
      CookedComplete(t[n..]);
      assert t[0] != NEWLINE;
      if n == 2 {
        assert t == [RETURN, NEWLINE] + t[2..];
        assert Uncooked(t)[0] == NEWLINE && Uncooked(t)[1..] == Uncooked(t[2..]);
      } else {
        assert t == [t[0]] + t[1..];
        assert Uncooked(t)[0] == t[0] && Uncooked(t)[1..] == Uncooked(t[1..]);
      }
    }
  }

  /** What is sent for a text is the one sequence in which every newline follows a carriage return
      and which is the text without them. */
  lemma CookedExactly(s: seq<u8>, t: seq<u8>)
    ensures t == Cooked(s) <==> Uncooked(t) == s && LinesReturn(t)
  {
    CookedSound(s);
    if LinesReturn(t) {
      CookedComplete(t);
    }
  }

  // ------------------------------------------------------------------ the two orders of arguments

  /** The range of bytes lies in the user's window. */
  predicate InWindow(start: u32, len: u32) {
    WINDOW <= start && start as int + len as int <= WINDOW + WINDOW_SIZE
  }

  /** write(fd, buf, count), as a program means it. */
  ghost predicate Writes(m: Machine, fd: u32, buf: u32, count: u32, m': Machine, code: int) {
    if !InWindow(buf, count) then m' == m && code == E_PTR
    else if fd !in {1, 2} || count > 256 then m' == m && code == E_ARG
    else
      && code == count && m' == m.(sent := m'.sent) && m.sent <= m'.sent
      && Uncooked(m'.sent[|m.sent|..]) == m.user[buf - WINDOW..buf - WINDOW + count]
      && LinesReturn(m'.sent[|m.sent|..])
  }

  /** read(fd, buf, count), as a program means it: one byte at most, and no waiting. */
  ghost predicate Reads(m: Machine, fd: u32, buf: u32, count: u32, m': Machine, code: int) {
    if !InWindow(buf, count) then m' == m && code == E_PTR
    else if fd != 0 then m' == m && code == E_ARG
    else if count == 0 || m.waiting == [] then m' == m && code == 0
    else
      && code == 1 && m.waiting == [m'.user[buf - WINDOW]] + m'.waiting
      && m'.user == m.user[buf - WINDOW := m'.user[buf - WINDOW]]
      && m' == m.(user := m'.user, waiting := m'.waiting)
  }

  lemma WriteToMeans(m: Machine, fd: u32, buf: u32, count: u32)
    requires PointerOk(buf, count)
    ensures var (m', code) := WriteTo(m, fd, buf, count);
            Writes(m, fd, buf, count, m', code)
  {
    PointerOkExactly(buf, count);
    var (m', code) := WriteTo(m, fd, buf, count);
    if code >= 0 {
      CookedSound(m.user[buf - WINDOW..buf - WINDOW + count]);
      assert m'.sent[|m.sent|..] == Cooked(BytesAt(m.user, buf, count));
    }
  }

  /** write(fd, buf, count) does what it means unless descriptor and buffer happen to be an address
      and a length in the window, and then it does not. */
  lemma WriteExactly(m: Machine, r: Regs)
    ensures var (m', code) := WriteService(m, r);
            Writes(m, r[0], r[1], r[2], m', code) <==> !InWindow(r[0], r[1])
  {
    PointerOkExactly(r[0], r[1]);
    PointerOkExactly(r[1], r[2]);
    if PointerOk(r[0], r[1]) {
      WriteToMeans(m, 1, r[0], r[1]);
      hide Uncooked, Cooked;
    } else if PointerOk(r[1], r[2]) {
      WriteToMeans(m, r[0], r[1], r[2]);
    }
  }

  /** write(buf, count), the other order, with 0 in r2: right unless the buffer is outside the window
      and its length is an address in the window. */
  lemma LegacyWriteExactly(m: Machine, r: Regs)
    requires r[2] == 0
    ensures var (m', code) := WriteService(m, r);
            Writes(m, 1, r[0], r[1], m', code) <==> InWindow(r[0], r[1]) || !InWindow(r[1], 0)
  {
    PointerOkExactly(r[0], r[1]);
    PointerOkExactly(r[1], r[2]);
    if PointerOk(r[0], r[1]) {
      WriteToMeans(m, 1, r[0], r[1]);
    } else if PointerOk(r[1], r[2]) {
      WriteToMeans(m, r[0], r[1], r[2]);
    }
  }

  lemma ReadExactly(m: Machine, r: Regs)
    ensures var (m', code) := ReadService(m, r);
            Reads(m, r[0], r[1], r[2], m', code) <==> !InWindow(r[0], r[1])
  {
    PointerOkExactly(r[0], r[1]);
    PointerOkExactly(r[1], r[2]);
  }

  lemma LegacyReadExactly(m: Machine, r: Regs)
    requires r[2] == 0
    ensures var (m', code) := ReadService(m, r);
            Reads(m, 0, r[0], r[1], m', code) <==> InWindow(r[0], r[1]) || !InWindow(r[1], 0)
  {
    PointerOkExactly(r[0], r[1]);
    PointerOkExactly(r[1], r[2]);
  }

  /** A yield answers 0 and disturbs nothing of its caller's; another task runs if one is ready, with
      or without a tick since the last switch. */
  lemma YieldServed(m: Machine, frame: Frame)
    requires Inv(m.sched) && frame.r[7] == SYS_YIELD
    ensures var reply := Serve(m, frame);
            && reply.Back? && reply.frame == frame.(r := frame.r[0 := 0])
            && var s' := reply.machine.sched;
               && reply.machine == m.(sched := s')
               && if exists i :: 0 <= i < |m.sched.states| && m.sched.states[i] == READY
                  then HandsOver(m.sched, s', s'.current)
                  else s'.states == m.sched.states && s'.current == m.sched.current
  {
    var s := m.sched;
    EventMeans(s, Tick);
    var s1 := Happens(s, Tick).0;
    EventMeans(s1, YieldCall);
    var s2 := Happens(s1, YieldCall).0;
    if exists i :: 0 <= i < |s.states| && s.states[i] == READY {
      HandsOverSame(s1, s, s2);
    }
    hide Happens, HandsOver;
  }

  /** A task that exits is terminated and another runs, unless it is the shell, which starts anew at
      the beginning of the window with its own program there. */
  lemma ExitServed(m: Machine, frame: Frame)
    requires Inv(m.sched) && m.sched.current != 0 && frame.r[7] == SYS_EXIT
    ensures var reply := Serve(m, frame);
            if m.sched.current in m.shells then
              && reply.Back? && reply.frame.pc == WINDOW && reply.frame.r == [0, 0, 0, 0] + frame.r[4..]
              && reply.machine == m.(user := reply.machine.user)
              && reply.machine.user[..|m.payload|] == m.payload
              && reply.machine.user[|m.payload|..] == m.user[|m.payload|..]
            else
              && reply.Gone? && reply.machine == m.(sched := reply.machine.sched)
              && HandsOver(m.sched.(states := m.sched.states[m.sched.current := ZOMBIE]), reply.machine.sched,
                           reply.machine.sched.current)
  {
    EventMeans(m.sched, Kill(m.sched.current));
    hide Happens, HandsOver;
  }

  // ------------------------------------------------------------------ the code

  class Kernel {
    var user: Window
    var waiting: seq<u8>
    var sent: seq<u8>
    var sched: Sched
    var frame: Frame
    const shells: set<nat>
    const payload: Payload

    function View(): Machine
      reads this
    {
      Machine(user, waiting, sent, sched, shells, payload)
    }

    constructor (user: Window, sched: Sched, frame: Frame, shells: set<nat>, payload: Payload)
      ensures View() == Machine(user, [], [], sched, shells, payload) && this.frame == frame
    {
      this.user, waiting, sent, this.sched, this.frame := user, [], [], sched, frame;
      this.shells, this.payload := shells, payload;
    }

    method UartPutc(c: u8)
      modifies this`sent
      ensures sent == old(sent) + [c]
    {
      sent := sent + [c];
    }

    /** The loop of sys_write. */
    method SendText(buf: u32, len: u32)
      requires PointerOk(buf, len)
      modifies this`sent
      ensures sent == old(sent) + Cooked(BytesAt(user, buf, len))
    {
      PointerOkExactly(buf, len);
      ghost var text := BytesAt(user, buf, len);
      assert text[0..] == text;
      hide PointerOk;
      for i := 0 to len
        invariant sent + Cooked(text[i..]) == old(sent) + Cooked(text)
      {
        assert text[i..][0] == user[buf - WINDOW + i] && text[i..][1..] == text[i + 1..];
        if user[buf - WINDOW + i] == NEWLINE {
          UartPutc(RETURN);
        }
        UartPutc(user[buf - WINDOW + i]);
      }
      assert text[len..] == [];
    }

    method SysWrite(r: Regs) returns (code: int)
      modifies this`sent
      ensures (View(), code) == WriteService(old(View()), r)
    {
      var (fd, buf, len) := (1, 0, 0);
      if PointerOk(r[0], r[1]) {
        buf, len := r[0], r[1];
      } else if PointerOk(r[1], r[2]) {
        fd, buf, len := r[0], r[1], r[2];
      } else {
        return E_PTR;
      }
      if fd != 1 && fd != 2 {
        return E_ARG;
      }
      if len > WRITE_MAX {
        return E_ARG;
      }
      SendText(buf, len);
      return len;
    }

    method SysRead(r: Regs) returns (code: int)
      modifies this`user, this`waiting
      ensures (View(), code) == ReadService(old(View()), r)
    {
      var (fd, buf, len) := (0, 0, 0);
      if PointerOk(r[0], r[1]) {
        buf, len := r[0], r[1];
      } else if PointerOk(r[1], r[2]) {
        fd, buf, len := r[0], r[1], r[2];
      } else {
        return E_PTR;
      }
      if fd != 0 {
        return E_ARG;
      }
      if len == 0 || waiting == [] {
        return 0;
      }
      PointerOkExactly(buf, len);
      user, waiting := user[buf - WINDOW := waiting[0]], waiting[1..];
      return 1;
    }

    /** The shell's part of sys_exit: its program is copied over the window again. */
    method ReloadShell()
      modifies this`user
      ensures user == payload + old(user)[|payload|..]
    {
      for i := 0 to |payload|
        invariant user == payload[..i] + old(user)[i..]
      {
        user := user[i := payload[i]];
      }
    }

    /** sys_exit. The third result says whether there is anybody to go back to. */
    method SysExit() returns (code: int, back: bool)
      requires sched.current < |sched.states|
      modifies this
      ensures Reached(code, back) == Exit(old(View()), old(frame))
    {
      code, back := E_OK, true;
      if sched.current in shells {
        ReloadShell();
        frame := Frame(frame.r[0 := 0][1 := 0][2 := 0][3 := 0], WINDOW);
      } else {
        var (s, o) := Happens(sched, Kill(sched.current));
        sched, back := s, o.Stays?;
      }
    }

    /** Where a service that answers `code` leads. */
    function Reached(code: int, back: bool): Reply
      reads this
    {
      if back then Answer(View(), frame, code) else Gone(View())
    }

    /** svc_handler: true if the caller goes on, with the answer in its r0. */
    method SvcHandler() returns (back: bool)
      requires sched.current < |sched.states|
      requires !(SYS_GET_TASKS <= frame.r[7] <= SYS_EXEC)
      modifies this
      ensures Serve(old(View()), old(frame)) == if back then Back(View(), frame) else Gone(View())
    {
      var code := E_INVAL;
      back := true;
      if frame.r[7] == SYS_WRITE {
        code := SysWrite(frame.r);
      } else if frame.r[7] == SYS_EXIT {
        code, back := SysExit();
      } else if frame.r[7] == SYS_YIELD {
        sched := Happens(sched, Tick).0;
        sched := Happens(sched, YieldCall).0;
        code := E_OK;
      } else if frame.r[7] == SYS_READ {
        code := SysRead(frame.r);
      }
      if back {
        frame := frame.(r := frame.r[0 := code % 0x1_0000_0000]);
      }
    }
  }
}
