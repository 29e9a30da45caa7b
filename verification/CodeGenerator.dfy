/** ARM assembly lines and their generation from three-address code: the generator walks a flat
    instruction list, and what it emits is that list's lines under one assignment of registers. */
module CodeGeneration {
  import opened Words
  import opened Ast
  import opened IrGenerator
  import opened IrMachine
  import opened RegisterAllocation

  datatype Cond = AL | EQ | NE | LT | GE | GT | LE

  datatype AluOp = ADD | SUB | MUL | AND | ORR | EOR | LSL | ASR

  datatype Line =
    | Text(text: string)
    | Label(name: string)
    | Mov(c: Cond, rd: Reg, rm: Reg)
    | MovImm(c: Cond, rd: Reg, imm: int)
    | Movw(rd: Reg, low: nat)
    | Movt(rd: Reg, high: nat)
    | Alu(op: AluOp, rd: Reg, rn: Reg, rm: Reg)
    | RsbZero(rd: Reg, rm: Reg)
    | Cmp(rn: Reg, rm: Reg)
    | CmpZero(rn: Reg)
    | Branch(c: Cond, target: string)
    | Bl(callee: string)
    | Svc
    | PushSaved
    | PopReturn
    | AddSp(n: nat)
    | Ldr(rd: Reg, rn: Reg)
    | LdrLabel(rd: Reg, target: string)
    | Str(rd: Reg, rn: Reg)

  const IP: Reg := 12
  const SP: Reg := 13
  const LR: Reg := 14

  const SYSCALLS: map<string, nat> := map["write" := 0, "exit" := 1, "yield" := 2, "read" := 3]

  function MarkOf(fn: string, mark: string): string {
    "." + fn + "_" + mark
  }

  // ------------------------------------------------------------------ the specification

  predicate IsStringLabel(a: string) {
    !IsConstant(a) && "str_" <= a
  }

  /** An operand that lives in a register of its own. */
  predicate IsName(a: string) {
    !IsConstant(a) && !IsStringLabel(a)
  }

  function ConstantLines(v: int): seq<Line> {
    if -255 <= v <= 255 then [MovImm(AL, IP, v)]
    else [Movw(IP, v % 0x1_0000)] + if v > 0xFFFF || v < 0 then [Movt(IP, (v / 0x1_0000) % 0x1_0000)] else []
  }

  /** Lines that make an operand available, and the register it is then in. */
  function OperandLines(a: string): seq<Line> {
    if IsConstant(a) then ConstantLines(ConstantValue(a))
    else if IsStringLabel(a) then [LdrLabel(IP, a)]
    else []
  }

  function OperandReg(m: Assignment, a: string): Reg {
    if IsName(a) then RegOf(m, a) else IP
  }

  function CompareLines(rd: Reg, l: Reg, r: Reg, yes: Cond, no: Cond): seq<Line> {
    [Cmp(l, r), MovImm(yes, rd, 1), MovImm(no, rd, 0)]
  }

  function BinaryLines(op: BinOp, rd: Reg, l: Reg, r: Reg): seq<Line> {
    match op
    case Add => [Alu(ADD, rd, l, r)]
    case Sub => [Alu(SUB, rd, l, r)]
    case Mul => [Alu(MUL, rd, l, r)]
    case Div => [Mov(AL, 0, l), Mov(AL, 1, r), Bl("__aeabi_idiv"), Mov(AL, rd, 0)]
    case Mod => [Mov(AL, 0, l), Mov(AL, 1, r), Bl("__aeabi_idivmod"), Mov(AL, rd, 1)]
    case Eq => CompareLines(rd, l, r, EQ, NE)
    case Ne => CompareLines(rd, l, r, NE, EQ)
    case Lt => CompareLines(rd, l, r, LT, GE)
    case Gt => CompareLines(rd, l, r, GT, LE)
    case Le => CompareLines(rd, l, r, LE, GT)
    case Ge => CompareLines(rd, l, r, GE, LT)
    case LogAnd => [CmpZero(l), MovImm(NE, rd, 1), MovImm(EQ, rd, 0), CmpZero(r), MovImm(EQ, rd, 0)]
    case LogOr => [Alu(ORR, rd, l, r), CmpZero(rd), MovImm(NE, rd, 1)]
    case BitAnd => [Alu(AND, rd, l, r)]
    case BitOr => [Alu(ORR, rd, l, r)]
    case BitXor => [Alu(EOR, rd, l, r)]
    case Shl => [Alu(LSL, rd, l, r)]
    case Shr => [Alu(ASR, rd, l, r)]
  }

  function UnaryLines(op: UnOp, rd: Reg, a: Reg): seq<Line> {
    match op
    case Neg => [RsbZero(rd, a)]
    case Not => [CmpZero(a), MovImm(EQ, rd, 1), MovImm(NE, rd, 0)]
    case AddrOf => [Text("@ Address-of operator"), Mov(AL, rd, a)]
    case Deref => []
  }

  /** Only the first four waiting parameters are passed. */
  function FirstFour(pend: seq<string>): seq<string> {
    if |pend| <= 4 then pend else pend[..4]
  }

  /** Parameters go to consecutive registers, from `k`. */
  function ParamLines(m: Assignment, pend: seq<string>, k: nat): seq<Line>
    requires k + |pend| <= 4
  {
    if pend == [] then []
    else OperandLines(pend[0]) + [Mov(AL, k, OperandReg(m, pend[0]))] + ParamLines(m, pend[1..], k + 1)
  }

  function TransferLines(callee: string): seq<Line> {
    if callee in SYSCALLS then [MovImm(AL, 7, SYSCALLS[callee]), Svc] else [Bl(callee)]
  }

  /** What the generator remembers between instructions: the function it is in and the parameters
      waiting for a call. */
  datatype Context = Context(fn: string, pend: seq<string>)

  function Next(c: Context, i: Instr): Context {
    match i
    case FunctionEntryIR(name) => c.(fn := name)
    case ParamIR(a) => c.(pend := c.pend + [a])
    case CallIR(_, _, _) => c.(pend := [])
    case _ => c
  }

  function ExitLines(name: string, stackSize: nat): seq<Line> {
    [Text(""), Label("." + name + "_epilogue"), Text("@ Function epilogue")]
    + (if stackSize > 0 then [AddSp(stackSize)] else []) + [PopReturn, Text("")]
  }

  function GenInstr(m: Assignment, c: Context, i: Instr): seq<Line> {
    match i
    case FunctionEntryIR(name) =>
      [Text(".global " + name), Text(".type " + name + ", %function"), Label(name), Text("@ Function prologue"),
       PushSaved, Text("@ Stack frame allocation (placeholder)")]
    case FunctionExitIR(name) => ExitLines(name, 0)
    case BinaryOpIR(t, op, a, b) =>
      OperandLines(a) + OperandLines(b) + BinaryLines(op, RegOf(m, t), OperandReg(m, a), OperandReg(m, b))
    case UnaryOpIR(t, op, a) => OperandLines(a) + UnaryLines(op, RegOf(m, t), OperandReg(m, a))
    case AssignIR(x, a) =>
      OperandLines(a) + if OperandReg(m, a) == RegOf(m, x) then [] else [Mov(AL, RegOf(m, x), OperandReg(m, a))]
    case LoadIR(t, a) => OperandLines(a) + [Ldr(RegOf(m, t), OperandReg(m, a))]
    case StoreIR(a, v) => OperandLines(a) + OperandLines(v) + [Str(OperandReg(m, v), OperandReg(m, a))]
    case LabelIR(mark) => [Label(MarkOf(c.fn, mark))]
    case GotoIR(mark) => [Branch(AL, MarkOf(c.fn, mark))]
    case CondGotoIR(a, mark, isTrue) =>
      OperandLines(a) + [CmpZero(OperandReg(m, a)), Branch(if isTrue then NE else EQ, MarkOf(c.fn, mark))]
    case ParamIR(_) => []
    case CallIR(t, f, _) => ParamLines(m, FirstFour(c.pend), 0) + TransferLines(f) + [Mov(AL, RegOf(m, t), 0)]
    case ReturnIR(v) =>
      (if v.None? then [] else OperandLines(v.value) + [Mov(AL, 0, OperandReg(m, v.value))])
      + [Branch(AL, MarkOf(c.fn, "epilogue"))]
    case StringLiteralIR(mark, content) =>
      [Text(".section .rodata"), Label(mark), Text(".asciz \"" + Escape(content) + "\""), Text(".section .text")]
  }

  /** Backslashes and quotes escaped, as the assembler wants them. */
  function Escape(s: string): string {
    if s == "" then ""
    else (if s[0] == '\\' then "\\\\" else if s[0] == '"' then "\\\"" else [s[0]]) + Escape(s[1..])
  }

  function GenCode(m: Assignment, c: Context, code: seq<Instr>): seq<Line>
    decreases code
  {
    if code == [] then [] else GenInstr(m, c, code[0]) + GenCode(m, Next(c, code[0]), code[1..])
  }

  function After(c: Context, code: seq<Instr>): Context
    decreases code
  {
    if code == [] then c else After(Next(c, code[0]), code[1..])
  }

  lemma {:induction false} AfterAppend(c: Context, a: seq<Instr>, b: seq<Instr>)
    ensures After(c, a + b) == After(After(c, a), b)
    decreases a
  {
    if a == [] {
      assert a + b == b;
    } else {
      assert (a + b)[1..] == a[1..] + b;
      AfterAppend(Next(c, a[0]), a[1..], b);
    }
  }

  lemma {:induction false} GenAppend(m: Assignment, c: Context, a: seq<Instr>, b: seq<Instr>)
    ensures GenCode(m, c, a + b) == GenCode(m, c, a) + GenCode(m, After(c, a), b)
    decreases a
  {
    hide GenInstr, Next;
    if a == [] {
      assert a + b == b;
    } else {
      assert (a + b)[1..] == a[1..] + b;
      GenAppend(m, Next(c, a[0]), a[1..], b);
    }
  }

  lemma GenOne(m: Assignment, c: Context, i: Instr)
    ensures GenCode(m, c, [i]) == GenInstr(m, c, i) && After(c, [i]) == Next(c, i)
  {
    assert [i][1..] == [];
  }

  // ------------------------------------------------------------------ names and stability

  function Named(a: string): set<string> {
    if IsName(a) then {a} else {}
  }

  function NamesIn(pend: seq<string>): set<string> {
    set a | a in pend && IsName(a)
  }

  /** The names whose registers the code of an instruction depends on: its result, and its
      operands that are neither constants nor string labels. */
  function Uses(c: Context, i: Instr): set<string> {
    match i
    case BinaryOpIR(t, _, a, b) => {t} + Named(a) + Named(b)
    case UnaryOpIR(t, _, a) => {t} + Named(a)
    case AssignIR(x, a) => {x} + Named(a)
    case LoadIR(t, a) => {t} + Named(a)
    case StoreIR(a, v) => Named(a) + Named(v)
    case CondGotoIR(a, _, _) => Named(a)
    case CallIR(t, _, _) => {t} + NamesIn(FirstFour(c.pend))
    case ReturnIR(v) => if v.None? then {} else Named(v.value)
    case _ => {}
  }

  function AllUses(c: Context, code: seq<Instr>): set<string>
    decreases code
  {
    if code == [] then {} else Uses(c, code[0]) + AllUses(Next(c, code[0]), code[1..])
  }

  ghost predicate SameOn(m: Assignment, m': Assignment, xs: set<string>) {
    forall x :: x in xs ==> RegOf(m, x) == RegOf(m', x)
  }

  lemma {:induction false} ParamsStable(m: Assignment, m': Assignment, pend: seq<string>, k: nat)
    requires k + |pend| <= 4
    requires forall a :: a in pend && IsName(a) ==> RegOf(m, a) == RegOf(m', a)
    ensures ParamLines(m, pend, k) == ParamLines(m', pend, k)
    decreases |pend|
  {
    if pend != [] {
      assert pend[0] in pend;
      assert forall a :: a in pend[1..] ==> a in pend;
      ParamsStable(m, m', pend[1..], k + 1);
    }
  }

  /** The code of an instruction depends only on the registers of the names it uses. */
  lemma InstrStable(m: Assignment, m': Assignment, c: Context, i: Instr)
    requires SameOn(m, m', Uses(c, i))
    ensures GenInstr(m, c, i) == GenInstr(m', c, i)
  {
    if i.CallIR? {
      ParamsStable(m, m', FirstFour(c.pend), 0);
    }
  }

  lemma {:induction false} CodeStable(m: Assignment, m': Assignment, c: Context, code: seq<Instr>)
    requires SameOn(m, m', AllUses(c, code))
    ensures GenCode(m, c, code) == GenCode(m', c, code)
    decreases code
  {
    if code != [] {
      InstrStable(m, m', c, code[0]);
      CodeStable(m, m', Next(c, code[0]), code[1..]);
    }
  }

  lemma {:induction false} UsesAppend(c: Context, a: seq<Instr>, b: seq<Instr>)
    ensures AllUses(c, a + b) == AllUses(c, a) + AllUses(After(c, a), b)
    decreases a
  {
    if a == [] {
      assert a + b == b;
    } else {
      assert (a + b)[1..] == a[1..] + b;
      UsesAppend(Next(c, a[0]), a[1..], b);
    }
  }

  // ------------------------------------------------------------------ the generator

  /** An operand made available stays in its register. */
  lemma OperandKeeps(b: Holding, c: Holding, x: string, names: set<string>)
    requires Kept(b, c, names) && (IsName(x) ==> Settled(b, x))
    ensures OperandReg(b.regs, x) == OperandReg(c.regs, x) && (IsName(x) ==> Settled(c, x))
  {
    if IsName(x) {
      SettledKeeps(b, c, names, x);
    }
  }

  /** Two operands and a result, made available one after the other. */
  lemma KeptThrice(a: Holding, b: Holding, c: Holding, d: Holding, x: string, y: string, t: string)
    requires Kept(a, b, Named(x)) && Kept(b, c, Named(y)) && Kept(c, d, {t})
    ensures Kept(a, d, {t} + Named(x) + Named(y))
    ensures OperandReg(b.regs, x) == OperandReg(d.regs, x) && OperandReg(c.regs, y) == OperandReg(d.regs, y)
  {
    OperandKeeps(b, c, x, Named(y));
    OperandKeeps(c, d, x, {t});
    OperandKeeps(c, d, y, {t});
    KeptTwice(a, b, c, Named(x), Named(y));
    KeptTwice(a, c, d, Named(x) + Named(y), {t});
    assert {t} + Named(x) + Named(y) == Named(x) + Named(y) + {t};
  }

  /** One operand and then another name. */
  lemma KeptOperand(a: Holding, b: Holding, c: Holding, x: string, names: set<string>)
    requires Kept(a, b, Named(x)) && Kept(b, c, names)
    ensures Kept(a, c, names + Named(x)) && Kept(a, c, Named(x) + names)
    ensures OperandReg(b.regs, x) == OperandReg(c.regs, x)
  {
    OperandKeeps(b, c, x, names);
    KeptTwice(a, b, c, Named(x), names);
    assert names + Named(x) == Named(x) + names;
  }

  lemma OneOperandGen(m: Assignment, c: Context, i: Instr)
    requires i.UnaryOpIR? || i.AssignIR? || i.LoadIR? || i.StoreIR?
    ensures Next(c, i) == c
    ensures i.UnaryOpIR? ==>
              && Uses(c, i) == {i.result} + Named(i.operand)
              && GenInstr(m, c, i)
                 == OperandLines(i.operand) + UnaryLines(i.uop, RegOf(m, i.result), OperandReg(m, i.operand))
    ensures i.AssignIR? ==>
              && Uses(c, i) == {i.dest} + Named(i.source)
              && GenInstr(m, c, i)
                 == OperandLines(i.source)
                    + if OperandReg(m, i.source) == RegOf(m, i.dest) then []
                      else [Mov(AL, RegOf(m, i.dest), OperandReg(m, i.source))]
    ensures i.LoadIR? ==>
              && Uses(c, i) == {i.result} + Named(i.address)
              && GenInstr(m, c, i)
                 == OperandLines(i.address) + [Ldr(RegOf(m, i.result), OperandReg(m, i.address))]
    ensures i.StoreIR? ==>
              && Uses(c, i) == Named(i.address) + Named(i.value)
              && GenInstr(m, c, i)
                 == OperandLines(i.address) + OperandLines(i.value)
                    + [Str(OperandReg(m, i.value), OperandReg(m, i.address))]
  {
  }

  lemma CallGen(m: Assignment, c: Context, i: Instr)
    requires i.CallIR?
    ensures Next(c, i) == c.(pend := []) && Uses(c, i) == {i.result} + NamesIn(FirstFour(c.pend))
    ensures GenInstr(m, c, i)
            == ParamLines(m, FirstFour(c.pend), 0) + TransferLines(i.callee) + [Mov(AL, RegOf(m, i.result), 0)]
  {
  }

  /** Parameters made available stay in their registers. */
  lemma ParamsKeep(b: Holding, c: Holding, pend: seq<string>, names: set<string>, k: nat)
    requires k + |pend| <= 4 && Kept(b, c, names) && forall a :: a in NamesIn(pend) ==> Settled(b, a)
    ensures ParamLines(b.regs, pend, k) == ParamLines(c.regs, pend, k)
  {
    forall a | a in pend && IsName(a)
      ensures RegOf(b.regs, a) == RegOf(c.regs, a)
    {
      assert a in NamesIn(pend);
      SettledKeeps(b, c, names, a);
    }
    ParamsStable(b.regs, c.regs, pend, k);
  }

  lemma BinaryGen(m: Assignment, c: Context, i: Instr)
    requires i.BinaryOpIR?
    ensures Next(c, i) == c && Uses(c, i) == {i.result} + Named(i.left) + Named(i.right)
    ensures GenInstr(m, c, i) == OperandLines(i.left) + OperandLines(i.right)
            + BinaryLines(i.op, RegOf(m, i.result), OperandReg(m, i.left), OperandReg(m, i.right))
  {
  }

  class CodeGenerator {
    var assembly: seq<Line>
    const allocator: RegisterAllocator
    var currentFunction: string
    var stackSize: nat
    var pendingParams: seq<string>

    ghost predicate Valid()
      reads this, allocator
    {
      allocator.Valid() && stackSize == 0
    }

    function Ctx(): Context
      reads this
    {
      Context(currentFunction, pendingParams)
    }

    constructor ()
      ensures Valid() && assembly == [] && Ctx() == Context("", []) && fresh(allocator) && allocator.registers == map[]
    {
      assembly, currentFunction, stackSize, pendingParams := [], "", 0, [];
      allocator := new RegisterAllocator();
    }

    method Emit(l: Line)
      modifies `assembly
      ensures assembly == old(assembly) + [l]
    {
      assembly := assembly + [l];
    }

    method EmitAll(ls: seq<Line>)
      modifies `assembly
      ensures assembly == old(assembly) + ls
    {
      for i := 0 to |ls|
        invariant assembly == old(assembly) + ls[..i]
      {
        Emit(ls[i]);
      }
    }

    method GetOperand(a: string) returns (r: Reg)
      requires Valid()
      modifies this`assembly, allocator
      ensures Valid() && Kept(old(allocator.Held()), allocator.Held(), Named(a))
              && currentFunction == old(currentFunction)
      ensures assembly == old(assembly) + OperandLines(a) && r == OperandReg(allocator.registers, a)
    {
      if IsConstant(a) {
        EmitAll(ConstantLines(ConstantValue(a)));
        return IP;
      }
      if "str_" <= a {
        Emit(LdrLabel(IP, a));
        return IP;
      }
      var found := allocator.GetRegister(a);
      if found.Some? {
        return found.value;
      }
      r := allocator.Allocate(a);
    }

    method VisitBinaryOp(i: Instr)
      requires Valid() && i.BinaryOpIR?
      modifies this`assembly, allocator
      ensures Valid() && Kept(old(allocator.Held()), allocator.Held(), Uses(old(Ctx()), i))
              && Ctx() == Next(old(Ctx()), i)
      ensures assembly == old(assembly) + GenInstr(allocator.registers, old(Ctx()), i)
    {
      hide GenInstr, Uses, Next, BinaryLines, OperandLines, OperandReg, Named, Kept, RegOf, Consistent;
      ghost var before := assembly;
      ghost var h := allocator.Held();
      var left := GetOperand(i.left);
      ghost var h1 := allocator.Held();
      var right := GetOperand(i.right);
      ghost var h2 := allocator.Held();
      var result := allocator.Allocate(i.result);
      EmitAll(BinaryLines(i.op, result, left, right));
      KeptThrice(h, h1, h2, allocator.Held(), i.left, i.right, i.result);
      BinaryGen(allocator.registers, Ctx(), i);
      assert assembly == before + (OperandLines(i.left) + OperandLines(i.right)
                                   + BinaryLines(i.op, result, left, right));
    }

    method VisitUnaryOp(i: Instr)
      requires Valid() && i.UnaryOpIR?
      modifies this`assembly, allocator
      ensures Valid() && Kept(old(allocator.Held()), allocator.Held(), Uses(old(Ctx()), i))
              && Ctx() == Next(old(Ctx()), i)
      ensures assembly == old(assembly) + GenInstr(allocator.registers, old(Ctx()), i)
    {
      hide GenInstr, Uses, Next, UnaryLines, OperandLines, OperandReg, Named, Kept, RegOf, Consistent;
      ghost var before := assembly;
      ghost var h := allocator.Held();
      var operand := GetOperand(i.operand);
      ghost var h1 := allocator.Held();
      var result := allocator.Allocate(i.result);
      EmitAll(UnaryLines(i.uop, result, operand));
      KeptOperand(h, h1, allocator.Held(), i.operand, {i.result});
      OneOperandGen(allocator.registers, Ctx(), i);
      assert assembly == before + (OperandLines(i.operand) + UnaryLines(i.uop, result, operand));
    }

    method VisitAssign(i: Instr)
      requires Valid() && i.AssignIR?
      modifies this`assembly, allocator
      ensures Valid() && Kept(old(allocator.Held()), allocator.Held(), Uses(old(Ctx()), i))
              && Ctx() == Next(old(Ctx()), i)
      ensures assembly == old(assembly) + GenInstr(allocator.registers, old(Ctx()), i)
    {
      hide GenInstr, Uses, Next, UnaryLines, OperandLines, OperandReg, Named, Kept, RegOf, Consistent;
      ghost var h := allocator.Held();
      var source := GetOperand(i.source);
      ghost var h1 := allocator.Held();
      var dest := allocator.Allocate(i.dest);
      if source != dest {
        Emit(Mov(AL, dest, source));
      }
      KeptOperand(h, h1, allocator.Held(), i.source, {i.dest});
      OneOperandGen(allocator.registers, Ctx(), i);
    }

    method VisitLoad(i: Instr)
      requires Valid() && i.LoadIR?
      modifies this`assembly, allocator
      ensures Valid() && Kept(old(allocator.Held()), allocator.Held(), Uses(old(Ctx()), i))
              && Ctx() == Next(old(Ctx()), i)
      ensures assembly == old(assembly) + GenInstr(allocator.registers, old(Ctx()), i)
    {
      hide GenInstr, Uses, Next, UnaryLines, OperandLines, OperandReg, Named, Kept, RegOf, Consistent;
      ghost var h := allocator.Held();
      var address := GetOperand(i.address);
      ghost var h1 := allocator.Held();
      var result := allocator.Allocate(i.result);
      Emit(Ldr(result, address));
      KeptOperand(h, h1, allocator.Held(), i.address, {i.result});
      OneOperandGen(allocator.registers, Ctx(), i);
    }

    method VisitStore(i: Instr)
      requires Valid() && i.StoreIR?
      modifies this`assembly, allocator
      ensures Valid() && Kept(old(allocator.Held()), allocator.Held(), Uses(old(Ctx()), i))
              && Ctx() == Next(old(Ctx()), i)
      ensures assembly == old(assembly) + GenInstr(allocator.registers, old(Ctx()), i)
    {
      hide GenInstr, Uses, Next, UnaryLines, OperandLines, OperandReg, Named, Kept, RegOf, Consistent;
      ghost var before := assembly;
      ghost var h := allocator.Held();
      var address := GetOperand(i.address);
      ghost var h1 := allocator.Held();
      var value := GetOperand(i.value);
      Emit(Str(value, address));
      KeptOperand(h, h1, allocator.Held(), i.address, Named(i.value));
      OneOperandGen(allocator.registers, Ctx(), i);
      assert assembly == before + (OperandLines(i.address) + OperandLines(i.value) + [Str(value, address)]);
    }

    method VisitCondGoto(i: Instr)
      requires Valid() && i.CondGotoIR?
      modifies this`assembly, allocator
      ensures Valid() && Kept(old(allocator.Held()), allocator.Held(), Uses(old(Ctx()), i))
              && Ctx() == Next(old(Ctx()), i)
      ensures assembly == old(assembly) + GenInstr(allocator.registers, old(Ctx()), i)
    {
      var cond := GetOperand(i.condition);
      EmitAll([CmpZero(cond), Branch(if i.isTrue then NE else EQ, MarkOf(currentFunction, i.mark))]);
    }

    method VisitReturn(i: Instr)
      requires Valid() && i.ReturnIR?
      modifies this`assembly, allocator
      ensures Valid() && Kept(old(allocator.Held()), allocator.Held(), Uses(old(Ctx()), i))
              && Ctx() == Next(old(Ctx()), i)
      ensures assembly == old(assembly) + GenInstr(allocator.registers, old(Ctx()), i)
    {
      if i.returned.Some? {
        var value := GetOperand(i.returned.value);
        Emit(Mov(AL, 0, value));
      }
      Emit(Branch(AL, MarkOf(currentFunction, "epilogue")));
    }

    /** Moves the waiting parameters, at most four, to r0-r3. */
    method MoveParams()
      requires Valid()
      modifies this`assembly, allocator
      ensures Valid() && Kept(old(allocator.Held()), allocator.Held(), NamesIn(FirstFour(pendingParams)))
      ensures assembly == old(assembly) + ParamLines(allocator.registers, FirstFour(pendingParams), 0)
    {
      var params := FirstFour(pendingParams);
      hide ParamLines, OperandLines, OperandReg, IsName, Kept, RegOf, Consistent, Settled;
      ghost var (h, before) := (allocator.Held(), assembly);
      ParamsNone(allocator.registers, 0);
      KeptNothing(h);
      assert NamesIn(params[..0]) == {};
      for i := 0 to |params|
        invariant Valid() && Kept(h, allocator.Held(), NamesIn(params[..i])) && currentFunction == old(currentFunction)
        invariant assembly == before + ParamLines(allocator.registers, params[..i], 0)
      {
        ghost var h1 := allocator.Held();
        var value := GetOperand(params[i]);
        ghost var h2 := allocator.Held();
        assert params[..i + 1] == params[..i] + [params[i]];
        NamesSnoc(params[..i], params[i]);
        KeptTwice(h, h1, h2, NamesIn(params[..i]), Named(params[i]));
        KeptSettles(h, h1, NamesIn(params[..i]));
        ParamsKeep(h1, h2, params[..i], Named(params[i]), 0);
        ParamsSnoc(allocator.registers, params[..i], params[i], 0);
        Emit(Mov(AL, i, value));
      }
      assert params[..|params|] == params;
    }

    method VisitCall(i: Instr)
      requires Valid() && i.CallIR?
      modifies this, allocator
      ensures Valid() && Kept(old(allocator.Held()), allocator.Held(), Uses(old(Ctx()), i))
              && Ctx() == Next(old(Ctx()), i)
      ensures assembly == old(assembly) + GenInstr(allocator.registers, old(Ctx()), i)
    {
      hide GenInstr, Uses, Next, ParamLines, NamesIn, TransferLines, Kept, RegOf, Consistent, Settled;
      ghost var before := assembly;
      ghost var (h, c) := (allocator.Held(), Ctx());
      MoveParams();
      ghost var h1 := allocator.Held();
      ghost var params := FirstFour(pendingParams);
      pendingParams := [];
      EmitAll(TransferLines(i.callee));
      var result := allocator.Allocate(i.result);
      ghost var h2 := allocator.Held();
      Emit(Mov(AL, result, 0));
      KeptSettles(h, h1, NamesIn(params));
      ParamsKeep(h1, h2, params, {i.result}, 0);
      KeptTwice(h, h1, h2, NamesIn(params), {i.result});
      assert {i.result} + NamesIn(params) == NamesIn(params) + {i.result};
      CallGen(allocator.registers, c, i);
      assert assembly == before + (ParamLines(h2.regs, params, 0) + TransferLines(i.callee) + [Mov(AL, result, 0)]);
    }

    /** Any instruction: the lines appended are those of the specification under the registers
        held afterwards, and every name used keeps its register from here on. */
    method VisitInstruction(i: Instr)
      requires Valid() && !i.FunctionEntryIR?
      modifies this, allocator
      ensures Valid() && Kept(old(allocator.Held()), allocator.Held(), Uses(old(Ctx()), i))
              && Ctx() == Next(old(Ctx()), i)
      ensures assembly == old(assembly) + GenInstr(allocator.registers, old(Ctx()), i)
    {
      match i
      case FunctionExitIR(name) => VisitFunctionExit(name);
      case BinaryOpIR(_, _, _, _) => VisitBinaryOp(i);
      case UnaryOpIR(_, _, _) => VisitUnaryOp(i);
      case AssignIR(_, _) => VisitAssign(i);
      case LoadIR(_, _) => VisitLoad(i);
      case StoreIR(_, _) => VisitStore(i);
      case LabelIR(mark) => Emit(Label(MarkOf(currentFunction, mark)));
      case GotoIR(mark) => Emit(Branch(AL, MarkOf(currentFunction, mark)));
      case CondGotoIR(_, _, _) => VisitCondGoto(i);
      case ParamIR(value) => pendingParams := pendingParams + [value];
      case CallIR(_, _, _) => VisitCall(i);
      case ReturnIR(_) => VisitReturn(i);
      case StringLiteralIR(mark, content) =>
        EmitAll([Text(".section .rodata"), Label(mark), Text(".asciz \"" + Escape(content) + "\""),
                 Text(".section .text")]);
    }

    method VisitFunctionExit(name: string)
      modifies this`assembly
      ensures assembly == old(assembly) + ExitLines(name, stackSize)
    {
      EmitAll([Text(""), Label("." + name + "_epilogue"), Text("@ Function epilogue")]);
      if stackSize > 0 {
        Emit(AddSp(stackSize));
      }
      EmitAll([PopReturn, Text("")]);
    }

    /** A new function starts with every register free. */
    method VisitFunctionEntry(i: Instr)
      requires Valid() && i.FunctionEntryIR?
      modifies this, allocator
      ensures Valid() && Ctx() == Next(old(Ctx()), i) && allocator.registers == map[]
      ensures assembly == old(assembly) + GenInstr(map[], old(Ctx()), i)
    {
      currentFunction := i.name;
      allocator.Reset();
      stackSize := 0;
      EmitAll(GenInstr(map[], Ctx(), i));
    }

    /** The instructions of `code` have been visited, starting from `start` in context `c`. */
    ghost predicate Done(start: seq<Line>, c: Context, code: seq<Instr>)
      reads this, allocator
    {
      && Ctx() == After(c, code)
      && assembly == start + GenCode(allocator.registers, c, code)
      && allocator.registers.Keys <= AllUses(c, code)
      && (forall x :: x in AllUses(c, code) ==> Settled(allocator.Held(), x))
    }

    method VisitNext(ghost start: seq<Line>, ghost c: Context, instr: Instr, ghost code: seq<Instr>, ghost i: nat)
      requires Valid() && i < |code| && instr == code[i] && !instr.FunctionEntryIR? && Done(start, c, code[..i])
      modifies this, allocator
      ensures Valid() && Done(start, c, code[..i + 1])
    {
      hide GenCode, GenInstr, After, Next, AllUses, Uses, Kept, Settled, RegOf, Consistent;
      ghost var (h, lines) := (allocator.Held(), assembly);
      ghost var here := Ctx();
      VisitInstruction(instr);
      ghost var h1 := allocator.Held();
      CodeKeeps(h, h1, c, code[..i], Uses(here, code[i]));
      assert code[..i + 1] == code[..i] + [code[i]];
      GenAppend(allocator.registers, c, code[..i], [code[i]]);
      GenOne(allocator.registers, here, code[i]);
      AfterAppend(c, code[..i], [code[i]]);
      UsesAppend(c, code[..i], [code[i]]);
      UsesOne(here, code[i]);
      KeptKeys(h, h1, AllUses(c, code[..i]), Uses(here, code[i]));
      assert assembly == start + (GenCode(h1.regs, c, code[..i]) + GenInstr(h1.regs, here, code[i]));
    }

    /** The first instruction of a function. */
    method VisitFirst(ghost start: seq<Line>, ghost c: Context, i: Instr, ghost code: seq<Instr>)
      requires Valid() && IsFunction(code) && i == code[0] && assembly == start && Ctx() == c
      modifies this, allocator
      ensures Valid() && Done(start, c, code[..1])
    {
      VisitFunctionEntry(i);
      assert code[..1] == [code[0]];
      GenOne(map[], c, code[0]);
      UsesOne(c, code[0]);
    }

    /** Where the generator stands: `i` functions done, with the register assignments `maps`, and
        `k` instructions of the next. */
    ghost predicate Reached(functions: seq<seq<Instr>>, maps: seq<Assignment>, i: nat, k: nat, c: Context)
      reads this, allocator
    {
      && i <= |functions| && |maps| == i && c.pend == []
      && (k > 0 ==>
            && i < |functions| && k < |functions[i]|
            && Done(HEADER + GenProgram(maps, functions[..i]), c, functions[i][..k]))
      && (k == 0 ==> Ctx() == c && assembly == HEADER + GenProgram(maps, functions[..i]))
    }

    /** A program: the flat list of the instructions of its `functions`. `maps` are the register
        assignments of the functions. */
    method Generate(instructions: seq<Instr>, ghost functions: seq<seq<Instr>>)
        returns (asm: seq<Line>, ghost maps: seq<Assignment>)
      requires Valid() && Ctx().pend == [] && instructions == Flat(functions)
      requires forall f :: f in functions ==> IsFunction(f) && forall fn :: After(Context(fn, []), f).pend == []
      modifies this, allocator
      ensures asm == assembly && |maps| == |functions| && asm == HEADER + GenProgram(maps, functions)
      ensures forall k :: 0 <= k < |maps| ==> GoodMap(maps[k], functions[k])
    {
      hide GenCode, GenInstr, After, Next, AllUses, GoodMap, IsFunction, Consistent, Settled, GenProgram, Flat;
      assembly := [];
      EmitAll(HEADER);
      maps := [];
      ghost var i: nat, k: nat, c := 0, 0, Ctx();
      assert functions[..0] == [];
      NothingYet();
      for pos := 0 to |instructions|
        invariant Valid() && Reached(functions, maps, i, k, c) && pos == |Flat(functions[..i])| + k
        invariant forall j :: 0 <= j < i ==> GoodMap(maps[j], functions[j])
      {
        FlatAt(functions, i, k);
        assert functions[i] in functions;
        VisitAt(HEADER + GenProgram(maps, functions[..i]), c, instructions[pos], functions[i], k);
        k := k + 1;
        if k == |functions[i]| {
          NextFunction(functions, maps, i, c);
          maps, i, k, c := maps + [allocator.registers], i + 1, 0, Ctx();
        }
      }
      AllFlat(functions, i, k);
      assert functions[..|functions|] == functions;
      asm := assembly;
    }

    /** From the end of one function to the start of the next. */
    lemma NextFunction(functions: seq<seq<Instr>>, maps: seq<Assignment>, i: nat, c: Context)
      requires Valid() && i < |functions| && |maps| == i && c.pend == [] && IsFunction(functions[i])
      requires forall fn :: After(Context(fn, []), functions[i]).pend == []
      requires Done(HEADER + GenProgram(maps, functions[..i]), c, functions[i][..|functions[i]|])
      ensures Reached(functions, maps + [allocator.registers], i + 1, 0, Ctx())
      ensures GoodMap(allocator.registers, functions[i])
      ensures |Flat(functions[..i + 1])| == |Flat(functions[..i])| + |functions[i]|
    {
      hide GenCode, GenInstr, After, Next, AllUses, GoodMap, IsFunction, Consistent, Settled, GenProgram, Flat, Done;
      var m := allocator.registers;
      FunctionDone(m, allocator.freeRegisters, HEADER + GenProgram(maps, functions[..i]), c, functions[i]);
      assert functions[..i + 1] == functions[..i] + [functions[i]];
      ProgramSnoc(maps, functions[..i], m, functions[i]);
      FlatSnoc(functions[..i], functions[i]);
    }

    method VisitAt(ghost start: seq<Line>, ghost c: Context, i: Instr, ghost code: seq<Instr>, ghost k: nat)
      requires Valid() && IsFunction(code) && k < |code| && i == code[k]
      requires if k == 0 then assembly == start && Ctx() == c else Done(start, c, code[..k])
      modifies this, allocator
      ensures Valid() && Done(start, c, code[..k + 1])
    {
      hide GenCode, After, AllUses;
      if i.FunctionEntryIR? {
        VisitFirst(start, c, i, code);
      } else {
        VisitNext(start, c, i, code, k);
      }
    }

    /** At its end a function has the lines of the specification, under the one assignment of
        registers reached there. */
    lemma FunctionDone(m: Assignment, free: set<Reg>, start: seq<Line>, c: Context, code: seq<Instr>)
      requires Valid() && IsFunction(code) && c.pend == [] && Done(start, c, code[..|code|])
      requires m == allocator.registers && free == allocator.freeRegisters
      requires forall fn :: After(Context(fn, []), code).pend == []
      ensures GoodMap(m, code) && Ctx().pend == [] && assembly == start + GenCode(m, Context("", []), code)
    {
      hide GenCode, GenInstr, Next, AllUses, After;
      assert code[..|code|] == code;
      assert c == Context(c.fn, []);
      ContextIgnored(m, c.fn, code);
      AllocatorGood(free, m, code);
    }
  }

  /** The flat list of the instructions of several functions. */
  function Flat(functions: seq<seq<Instr>>): seq<Instr> {
    if functions == [] then [] else Flat(functions[..|functions| - 1]) + functions[|functions| - 1]
  }

  lemma FlatSnoc(functions: seq<seq<Instr>>, f: seq<Instr>)
    ensures Flat(functions + [f]) == Flat(functions) + f
  {
    assert (functions + [f])[..|functions|] == functions;
  }

  lemma NothingYet()
    ensures Flat([]) == [] && GenProgram([], []) == []
  {
  }

  /** The first functions are a prefix of the whole. */
  lemma {:induction false} FlatPrefix(functions: seq<seq<Instr>>, i: nat)
    requires i <= |functions|
    ensures Flat(functions[..i]) <= Flat(functions)
    decreases functions
  {
    var n := |functions|;
    if i < n {
      FlatPrefix(functions[..n - 1], i);
      assert functions[..n - 1][..i] == functions[..i];
    } else {
      assert functions[..i] == functions;
    }
  }

  /** Before the end of the list, the next instruction is that of the function stood in. */
  lemma FlatAt(functions: seq<seq<Instr>>, i: nat, k: nat)
    requires i <= |functions| && (k > 0 ==> i < |functions| && k < |functions[i]|)
    requires |Flat(functions[..i])| + k < |Flat(functions)| && forall f :: f in functions ==> IsFunction(f)
    ensures i < |functions| && k < |functions[i]| && Flat(functions)[|Flat(functions[..i])| + k] == functions[i][k]
  {
    hide Flat;
    assert functions[..|functions|] == functions;
    assert i < |functions|;
    assert functions[i] in functions;
    assert functions[..i + 1] == functions[..i] + [functions[i]];
    FlatSnoc(functions[..i], functions[i]);
    FlatPrefix(functions, i + 1);
  }

  lemma AllFlat(functions: seq<seq<Instr>>, i: nat, k: nat)
    requires i <= |functions| && (k > 0 ==> i < |functions| && k < |functions[i]|)
    requires |Flat(functions[..i])| + k == |Flat(functions)| && forall f :: f in functions ==> IsFunction(f)
    ensures i == |functions| && k == 0
  {
    hide Flat;
    if i < |functions| {
      assert functions[i] in functions;
      assert functions[..i + 1] == functions[..i] + [functions[i]];
      FlatSnoc(functions[..i], functions[i]);
      FlatPrefix(functions, i + 1);
    }
  }

  const HEADER: seq<Line> := [Text(".syntax unified"), Text(".arch armv7-a"), Text(".text"), Text("")]

  /** Entry first, and no other entry. */
  ghost predicate IsFunction(code: seq<Instr>) {
    |code| > 0 && code[0].FunctionEntryIR? && forall i :: 0 < i < |code| ==> !code[i].FunctionEntryIR?
  }

  lemma UsesOne(c: Context, i: Instr)
    ensures AllUses(c, [i]) == Uses(c, i)
  {
    assert [i][1..] == [];
  }

  lemma CodeKeeps(a: Holding, b: Holding, c: Context, code: seq<Instr>, names: set<string>)
    requires Kept(a, b, names) && forall x :: x in AllUses(c, code) ==> Settled(a, x)
    ensures GenCode(a.regs, c, code) == GenCode(b.regs, c, code)
    ensures forall x :: x in AllUses(c, code) ==> Settled(b, x)
  {
    forall x | x in AllUses(c, code)
      ensures Settled(b, x) && RegOf(b.regs, x) == RegOf(a.regs, x)
    {
      SettledKeeps(a, b, names, x);
    }
    CodeStable(a.regs, b.regs, c, code);
  }

  lemma KeptKeys(a: Holding, b: Holding, known: set<string>, names: set<string>)
    requires Kept(a, b, names) && a.regs.Keys <= known
    ensures b.regs.Keys <= known + names && forall x :: x in names ==> Settled(b, x)
  {
  }

  lemma KeptNothing(h: Holding)
    ensures Kept(h, h, {})
  {
  }

  lemma KeptSettles(a: Holding, b: Holding, names: set<string>)
    requires Kept(a, b, names)
    ensures forall x :: x in names ==> Settled(b, x)
  {
  }

  lemma NamesSnoc(pend: seq<string>, a: string)
    ensures NamesIn(pend + [a]) == NamesIn(pend) + Named(a)
  {
  }

  lemma ParamsNone(m: Assignment, k: nat)
    requires k <= 4
    ensures ParamLines(m, [], k) == []
  {
  }

  lemma {:induction false} ParamsSnoc(m: Assignment, pend: seq<string>, a: string, k: nat)
    requires k + |pend| < 4
    ensures ParamLines(m, pend + [a], k)
            == ParamLines(m, pend, k) + OperandLines(a) + [Mov(AL, k + |pend|, OperandReg(m, a))]
    decreases pend
  {
    if pend != [] {
      assert (pend + [a])[1..] == pend[1..] + [a];
      ParamsSnoc(m, pend[1..], a, k + 1);
    } else {
      assert [a][1..] == [];
    }
  }

  function GenProgram(maps: seq<Assignment>, functions: seq<seq<Instr>>): seq<Line>
    requires |maps| == |functions|
  {
    if functions == [] then []
    else GenProgram(maps[..|maps| - 1], functions[..|functions| - 1])
         + GenCode(maps[|maps| - 1], Context("", []), functions[|functions| - 1])
  }

  lemma ProgramSnoc(maps: seq<Assignment>, functions: seq<seq<Instr>>, m: Assignment, f: seq<Instr>)
    requires |maps| == |functions|
    ensures GenProgram(maps + [m], functions + [f]) == GenProgram(maps, functions) + GenCode(m, Context("", []), f)
  {
    assert (maps + [m])[..|maps|] == maps && (functions + [f])[..|functions|] == functions;
  }

  /** Distinct names in distinct registers of the pool; no name without one if eight suffice. */
  ghost predicate GoodMap(m: Assignment, code: seq<Instr>) {
    && Injective(m) && m.Values <= POOL
    && (|AllUses(Context("", []), code)| <= 8 ==> AllUses(Context("", []), code) <= m.Keys)
  }

  lemma AllocatorGood(free: set<Reg>, m: Assignment, code: seq<Instr>)
    requires Consistent(free, m) && m.Keys <= AllUses(Context("", []), code)
    requires forall x :: x in AllUses(Context("", []), code) ==> x in m || free == {}
    ensures GoodMap(m, code)
  {
    var names := AllUses(Context("", []), code);
    if |names| <= 8 {
      forall x | x in names
        ensures x in m
      {
        if x !in m {
          RoomForEight(free, m, names, x);
        }
      }
    }
  }

  /** A function sets the current function itself. */
  lemma ContextIgnored(m: Assignment, fn: string, code: seq<Instr>)
    requires IsFunction(code)
    ensures GenCode(m, Context(fn, []), code) == GenCode(m, Context("", []), code)
    ensures AllUses(Context(fn, []), code) == AllUses(Context("", []), code)
    ensures After(Context(fn, []), code) == After(Context("", []), code)
  {
  }
}
