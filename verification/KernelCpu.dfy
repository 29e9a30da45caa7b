/** The processor as the kernel's assembly sees it: general registers, the banked stack pointers
    and link registers of the modes, the status registers and word memory. */
module KernelCpu {
  import opened Words
  import opened Arithmetic
  import opened WordMemory

  type Gprs = s: seq<u32> | |s| == 13 witness [0, 0, 0, 0, 0, 0, 0, 0, 0, 0, 0, 0, 0]

  const USR: nat := 0x10
  const IRQ: nat := 0x12
  const SVC: nat := 0x13
  const SYS: nat := 0x1F

  /** r0 to r12, the banked r13 and r14 (User and System mode share theirs), and the saved status
      registers. Status words keep the mode in their low five bits and the IRQ mask in bit 7. */
  datatype Cpu = Cpu(r: Gprs, cpsr: u32, pc: u32,
                     spUsr: u32, lrUsr: u32,
                     spSvc: u32, lrSvc: u32, spsrSvc: u32,
                     lrIrq: u32, spsrIrq: u32,
                     mem: map<int, u32>)

  function ModeOf(psr: u32): nat {
    psr % 32
  }

  function WithMode(psr: u32, mode: nat): (p: u32)
    requires mode < 32
    ensures ModeOf(p) == mode
  {
    Quotient(psr / 32 * 32 + mode, 32, psr / 32, mode);
    psr / 32 * 32 + mode
  }

  predicate Masked(psr: u32) {
    psr / 128 % 2 == 1
  }

  /** A status word, from the bits above the mask, the mask, and the bits below it. */
  lemma StatusFields(high: nat, mask: nat, low: nat)
    requires mask < 2 && low < 128
    ensures var p := 256 * high + 128 * mask + low;
            p / 128 % 2 == mask && p % 32 == low % 32
  {
    var p := 256 * high + 128 * mask + low;
    Quotient(p, 128, 2 * high + mask, low);
    Quotient(2 * high + mask, 2, high, mask);
    Quotient(p, 32, 8 * high + 4 * mask + low / 32, low % 32);
  }

  lemma StatusParts(psr: nat)
    ensures psr == 256 * (psr / 256) + 128 * (psr % 256 / 128) + psr % 128 && psr % 256 / 128 < 2
    ensures psr % 128 % 32 == psr % 32
  {
    var (h, r) := (psr / 256, psr % 256);
    var (b, l) := (r / 128, r % 128);
    assert psr == 256 * h + 128 * b + l;
    Quotient(psr, 128, 2 * h + b, l);
    StatusFields(h, b, l);
  }

  function Unmask(psr: u32): (p: u32)
    ensures ModeOf(p) == ModeOf(psr) && !Masked(p)
  {
    StatusParts(psr);
    StatusFields(psr / 256, 0, psr % 128);
    256 * (psr / 256) + psr % 128
  }

  function Mask(psr: u32): (p: u32)
    ensures ModeOf(p) == ModeOf(psr) && Masked(p)
  {
    StatusParts(psr);
    StatusFields(psr / 256, 1, psr % 128);
    256 * (psr / 256) + 128 + psr % 128
  }

  /** Addresses wrap around. */
  function Plus(a: u32, n: int): u32 {
    (a + n) % 0x1_0000_0000
  }

  function WordAt(mem: map<int, u32>, a: int): u32 {
    if a in mem then mem[a] else 0
  }

  function WordsAt(mem: map<int, u32>, a: int, n: nat): (ws: seq<u32>)
    ensures |ws| == n && forall i :: 0 <= i < n ==> ws[i] == WordAt(mem, a + 4 * i)
  {
    seq(n, i requires 0 <= i < n => WordAt(mem, a + 4 * i))
  }

  /** r13 and r14 of the mode the processor is in. */
  function Sp(m: Cpu): u32 {
    if ModeOf(m.cpsr) == SVC then m.spSvc else m.spUsr
  }

  function Lr(m: Cpu): u32 {
    if ModeOf(m.cpsr) == SVC then m.lrSvc else if ModeOf(m.cpsr) == IRQ then m.lrIrq else m.lrUsr
  }

  function WithSp(m: Cpu, v: u32): Cpu {
    if ModeOf(m.cpsr) == SVC then m.(spSvc := v) else m.(spUsr := v)
  }

  function WithLr(m: Cpu, v: u32): Cpu {
    if ModeOf(m.cpsr) == SVC then m.(lrSvc := v)
    else if ModeOf(m.cpsr) == IRQ then m.(lrIrq := v)
    else m.(lrUsr := v)
  }

  /** The instructions the kernel's entry and switching code is made of. Push and Pop take the
      registers from r_lo to r_hi, and lr after them. */
  datatype Ins =
    | Push(lo: nat, hi: nat, withLr: bool)
    | Pop(lo: nat, hi: nat, withLr: bool)
    | StrSp(rn: nat, offset: nat)
    | LdrSp(rn: nat, offset: nat)
    | AddImm(rd: nat, rn: nat, imm: nat)
    | StmSpLr(rn: nat)
    | LdmSpLr(rn: nat)
    | Cps(mode: nat)
    | Cpsie
    | MovSp(rd: nat)
    | MovImm(rd: nat, value: u32)
    | Mrs(rd: nat)
    | Msr(rn: nat)
    | SubLr(imm: nat)
    | SrsdbSvc
    | RfefdSvc
    | PopUser
    | Dsb
    | BxLr

  predicate ValidIns(i: Ins) {
    match i
    case Push(lo, hi, _) => lo <= hi <= 12
    case Pop(lo, hi, _) => lo <= hi <= 12
    case StrSp(rn, _) => rn <= 12
    case LdrSp(rn, _) => rn <= 12
    case AddImm(rd, rn, _) => rd <= 12 && rn <= 12
    case StmSpLr(rn) => rn <= 12
    case LdmSpLr(rn) => rn <= 12
    case Cps(mode) => mode < 32
    case MovSp(rd) => rd <= 12
    case MovImm(rd, _) => rd <= 12
    case Mrs(rd) => rd <= 12
    case Msr(rn) => rn <= 12
    case _ => true
  }

  function Exec(i: Ins, m: Cpu): Cpu
    requires ValidIns(i)
  {
    match i
    case Push(lo, hi, withLr) =>
      var ws := m.r[lo..hi + 1] + if withLr then [Lr(m)] else [];
      var sp := Plus(Sp(m), -4 * |ws|);
      WithSp(m.(mem := Stored(m.mem, sp, ws)), sp)
    case Pop(lo, hi, withLr) =>
      var n := hi + 1 - lo;
      var m1 := m.(r := m.r[..lo] + WordsAt(m.mem, Sp(m), n) + m.r[hi + 1..]);
      var m2 := if withLr then WithLr(m1, WordAt(m.mem, Sp(m) as int + 4 * n)) else m1;
      WithSp(m2, Plus(Sp(m), 4 * (n + if withLr then 1 else 0)))
    case StrSp(rn, k) => m.(mem := m.mem[m.r[rn] as int + k := Sp(m)])
    case LdrSp(rn, k) => WithSp(m, WordAt(m.mem, m.r[rn] as int + k))
    case AddImm(rd, rn, v) => m.(r := m.r[rd := Plus(m.r[rn], v)])
    case StmSpLr(rn) => m.(mem := Stored(m.mem, m.r[rn], [Sp(m), Lr(m)]))
    case LdmSpLr(rn) => WithLr(WithSp(m, WordAt(m.mem, m.r[rn])), WordAt(m.mem, m.r[rn] as int + 4))
    case Cps(mode) => m.(cpsr := WithMode(m.cpsr, mode))
    case Cpsie => m.(cpsr := Unmask(m.cpsr))
    case MovSp(rd) => m.(r := m.r[rd := Sp(m)])
    case MovImm(rd, v) => m.(r := m.r[rd := v])
    case Mrs(rd) => m.(r := m.r[rd := m.spsrSvc])
    case Msr(rn) => m.(spsrSvc := m.r[rn])
    case SubLr(v) => WithLr(m, Plus(Lr(m), 0 - v as int))
    case SrsdbSvc =>
      var sp := Plus(m.spSvc, -8);
      m.(mem := Stored(m.mem, sp, [m.lrIrq, m.spsrIrq]), spSvc := sp)
    case RfefdSvc =>
      m.(pc := WordAt(m.mem, m.spSvc), cpsr := WordAt(m.mem, m.spSvc as int + 4), spSvc := Plus(m.spSvc, 8))
    case PopUser =>
      m.(r := WordsAt(m.mem, m.spSvc, 13), pc := WordAt(m.mem, m.spSvc as int + 52), cpsr := m.spsrSvc,
         spSvc := Plus(m.spSvc, 56))
    case Dsb => m
    case BxLr => m.(pc := Lr(m))
  }

  predicate ValidCode(code: seq<Ins>) {
    forall i :: 0 <= i < |code| ==> ValidIns(code[i])
  }

  function Run(code: seq<Ins>, m: Cpu): Cpu
    requires ValidCode(code)
    decreases |code|
  {
    if code == [] then m else Run(code[1..], Exec(code[0], m))
  }

  lemma {:induction false} RunAppend(a: seq<Ins>, b: seq<Ins>, m: Cpu)
    requires ValidCode(a) && ValidCode(b)
    ensures ValidCode(a + b) && Run(a + b, m) == Run(b, Run(a, m))
    decreases |a|
  {
    if a == [] {
      assert a + b == b;
    } else {
      assert (a + b)[1..] == a[1..] + b;
      RunAppend(a[1..], b, Exec(a[0], m));
    }
  }

  lemma RunOne(i: Ins, m: Cpu)
    requires ValidIns(i)
    ensures Run([i], m) == Exec(i, m)
  {
    assert [i][1..] == [];
  }

  // ------------------------------------------------------------------ the kernel's code

  const CONTEXT_SWITCH: seq<Ins> := SWITCH_OUT + SWITCH_IN

  const SWITCH_OUT: seq<Ins> :=
    [Push(3, 11, true), StrSp(0, 52), Dsb, Cps(SYS), AddImm(2, 0, 64), StmSpLr(2), Cps(SVC)]

  /** Also start_first_task, on r0 instead of r1. */
  function LoadTask(rn: nat): seq<Ins> {
    [LdrSp(rn, 52), Cps(SYS), AddImm(2, rn, 64), LdmSpLr(2), Cps(SVC), Pop(3, 11, true), BxLr]
  }

  const SWITCH_IN: seq<Ins> := LoadTask(1)
  const START_FIRST_TASK: seq<Ins> := LoadTask(0)

  const SVC_ENTRY: seq<Ins> := [Push(0, 12, true), Mrs(0), MovImm(1, 0), Push(0, 1, false), Cpsie, MovSp(0)]
  const SVC_EXIT: seq<Ins> := [Pop(0, 1, false), Msr(0), PopUser]

  const IRQ_ENTRY: seq<Ins> := [SubLr(4), SrsdbSvc, Cps(SVC), Push(0, 12, true), MovSp(0)]
  const IRQ_EXIT: seq<Ins> := [Pop(0, 12, true), RfefdSvc]

  /** What the hardware does on svc and on an interrupt. */
  function TakeSvc(m: Cpu): Cpu {
    m.(lrSvc := Plus(m.pc, 4), spsrSvc := m.cpsr, cpsr := Mask(WithMode(m.cpsr, SVC)))
  }

  function TakeIrq(m: Cpu): Cpu {
    m.(lrIrq := Plus(m.pc, 4), spsrIrq := m.cpsr, cpsr := Mask(WithMode(m.cpsr, IRQ)))
  }
}
