/** Exactly when the assembly does something else. */
module ArmLimits {
  // Outside the domain of the simulation the assembly can do something else than the three-address
  // code. For each condition of the domain: exactly when it does, and a case where it does.

  import opened Words
  import opened Ast
  import opened IrGenerator
  import opened IrMachine
  import opened RegisterAllocation
  import opened CodeGeneration
  import opened ArmMachine
  import opened ArmSimulation
  import Decimal

  // ------------------------------------------------------------------ two constants

  /** Both constants go to r12 and the second stays there: the operation is done on it twice. */
  lemma TwoConstantsRun(w: World, arity: Arity, m: Assignment, c: Context, t: string, op: BinOp, a: string, b: string,
                        cpu: Cpu)
    requires MapOk(m) && t in m && IsConstant(a) && IsConstant(b)
    requires LinesResult(w, op, Operand(map[], b), Operand(map[], b)).Some?
    ensures var r := RunLines(w, arity, GenInstr(m, c, BinaryOpIR(t, op, a, b)), cpu);
            r.Some? && Some(r.value.regs[m[t]]) == LinesResult(w, op, Operand(map[], b), Operand(map[], b))
  {
    hide BinaryLines, RunLines, StepLine, EvalBin, LinesResult, ConstantLines;
    var (la, lb) := (OperandLines(a), OperandLines(b));
    ConstantLoads(w, arity, ConstantValue(a), cpu);
    var c1 := RunLines(w, arity, la, cpu).value;
    ConstantLoads(w, arity, ConstantValue(b), c1);
    var c2 := RunLines(w, arity, lb, c1).value;
    PoolRegs(m);
    RunLinesAppend(w, arity, la, lb, cpu);
    RunLinesAppend(w, arity, la + lb, BinaryLines(op, m[t], IP, IP), cpu);
    BinaryRuns(w, arity, op, m[t], IP, IP, c2);
  }

  /** So an operation on two constants is right if and only if the first might as well be the second. */
  lemma TwoConstantsExactly(w: World, arity: Arity, m: Assignment, c: Context, t: string, op: BinOp, a: string,
                            b: string, cpu: Cpu)
    requires MapOk(m) && t in m && IsConstant(a) && IsConstant(b)
    requires LinesResult(w, op, Operand(map[], b), Operand(map[], b)).Some?
    ensures var (x, y) := (Operand(map[], a), Operand(map[], b));
            var r := RunLines(w, arity, GenInstr(m, c, BinaryOpIR(t, op, a, b)), cpu);
            r.Some? && (r.value.regs[m[t]] == EvalBin(op, x, y)
                <==> LinesResult(w, op, y, y) == Some(EvalBin(op, x, y)))
  {
    hide *;
    TwoConstantsRun(w, arity, m, c, t, op, a, b, cpu);
  }

  /** 7 - 5 comes out as 0. */
  lemma TwoConstantsFail(w: World, arity: Arity, m: Assignment, c: Context, t: string, cpu: Cpu)
    requires MapOk(m) && t in m
    ensures var i := BinaryOpIR(t, Sub, Decimal.Show(7), Decimal.Show(5));
            var r := RunLines(w, arity, GenInstr(m, c, i), cpu);
            && r.Some? && r.value.regs[m[t]] == 0
            && EvalBin(Sub, Operand(map[], i.left), Operand(map[], i.right)) == 2
  {
    Decimal.ReadShow(7);
    Decimal.ReadShow(5);
    hide RunLines, GenInstr;
    TwoConstantsRun(w, arity, m, c, t, Sub, Decimal.Show(7), Decimal.Show(5), cpu);
  }

  // ------------------------------------------------------------------ nine names

  ghost predicate Separate(m: Assignment, names: set<string>) {
    forall x, y :: x in names && y in names && RegOf(m, x) == RegOf(m, y) ==> x == y
  }

  /** There is no room for more than eight names in registers of their own. */
  lemma SeparateFew(m: Assignment, names: set<string>)
    requires m.Values <= POOL && Separate(m, names)
    ensures |names| <= 8
  {
    var own: Assignment := map x | x in names :: RegOf(m, x);
    InjectiveSize(own);
    forall r | r in own.Values
      ensures r in POOL
    {
      var x :| x in own && own[x] == r;
      assert x in m ==> m[x] in m.Values;
    }
    SubsetSize(own.Values, POOL);
    PoolSize();
    assert own.Keys == names;
  }

  /** Names of a program, no two the same. */
  ghost predicate Names(xs: seq<string>) {
    && (forall i :: 0 <= i < |xs| ==> IsName(xs[i]))
    && (forall i, j :: 0 <= i < j < |xs| ==> xs[i] != xs[j])
  }

  /** x_0 = 0; x_1 = 1; and so on. */
  function Fill(xs: seq<string>): seq<Instr> {
    if xs == [] then [] else Fill(xs[..|xs| - 1]) + [AssignIR(xs[|xs| - 1], Decimal.Show(|xs| - 1))]
  }

  function NamesOf(xs: seq<string>): set<string> {
    set x | x in xs
  }

  lemma NumberUses(c: Context, x: string, n: nat)
    requires IsName(x)
    ensures var i := AssignIR(x, Decimal.Show(n));
            Uses(c, i) == {x} && Next(c, i) == c
  {
    Decimal.ReadShow(n);
  }

  lemma {:induction false} FillUses(c: Context, xs: seq<string>)
    requires Names(xs)
    ensures AllUses(c, Fill(xs)) == NamesOf(xs) && After(c, Fill(xs)) == c
    decreases xs
  {
    if xs != [] {
      var n := |xs| - 1;
      var i := AssignIR(xs[n], Decimal.Show(n));
      hide AllUses, After, Uses, Next, Fill, IsName;
      assert Names(xs[..n]);
      FillUses(c, xs[..n]);
      FillLast(xs);
      NumberUses(c, xs[n], n);
      UsesAppend(c, Fill(xs[..n]), [i]);
      AfterAppend(c, Fill(xs[..n]), [i]);
      UsesOne(c, i);
      GenOne(map[], c, i);
      assert xs == xs[..n] + [xs[n]];
    }
  }

  /** The register of name i holds the last of the numbers put into it, which is i or a later one;
      and i when no later name has the same register. */
  ghost predicate Filled(m: Assignment, xs: seq<string>, cpu: Cpu) {
    forall i :: 0 <= i < |xs| ==>
      (forall j :: i < j < |xs| ==> RegOf(m, xs[j]) != RegOf(m, xs[i])) ==> cpu.regs[RegOf(m, xs[i])] == Wrap(i)
  }

  lemma {:induction false} FillRuns(w: World, arity: Arity, m: Assignment, c: Context, xs: seq<string>, cpu: Cpu)
    requires m.Values <= POOL && Names(xs)
    ensures var r := RunLines(w, arity, GenCode(m, c, Fill(xs)), cpu);
            r.Some? && Filled(m, xs, r.value)
    decreases xs
  {
    if xs == [] {
      assert GenCode(m, c, []) == [];
    } else {
      hide RunLines, GenInstr, GenCode, Fill, IsName, Wrap, AllUses, After;
      var n := |xs| - 1;
      var i := AssignIR(xs[n], Decimal.Show(n));
      FillLast(xs);
      assert Names(xs[..n]);
      FillRuns(w, arity, m, c, xs[..n], cpu);
      FillUses(c, xs[..n]);
      var c1 := RunLines(w, arity, GenCode(m, c, Fill(xs[..n])), cpu).value;
      NumberPut(w, arity, m, c, xs[n], n, c1);
      GenAppend(m, c, Fill(xs[..n]), [i]);
      GenOne(m, c, i);
      RunLinesAppend(w, arity, GenCode(m, c, Fill(xs[..n])), GenInstr(m, c, i), cpu);
      FilledNext(m, xs, c1, RunLines(w, arity, GenInstr(m, c, i), c1).value);
    }
  }

  lemma FilledNext(m: Assignment, xs: seq<string>, a: Cpu, b: Cpu)
    requires xs != [] && m.Values <= POOL
    requires var n := |xs| - 1;
             && Filled(m, xs[..n], a) && b.regs[RegOf(m, xs[n])] == Wrap(n)
             && forall q: Reg :: 4 <= q <= 11 && q != RegOf(m, xs[n]) ==> b.regs[q] == a.regs[q]
    ensures Filled(m, xs, b)
  {
    var n := |xs| - 1;
    forall i | 0 <= i < n && forall j :: i < j < |xs| ==> RegOf(m, xs[j]) != RegOf(m, xs[i])
      ensures b.regs[RegOf(m, xs[i])] == Wrap(i)
    {
      FilledAt(m, xs[..n], a, i);
      InPool(m, xs[i]);
      hide *;
      assert xs[..n][i] == xs[i];
    }
    hide Wrap, RegOf;
  }

  lemma FilledAt(m: Assignment, xs: seq<string>, cpu: Cpu, i: nat)
    requires Filled(m, xs, cpu) && i < |xs|
    ensures (forall j :: i < j < |xs| ==> RegOf(m, xs[j]) != RegOf(m, xs[i])) ==> cpu.regs[RegOf(m, xs[i])] == Wrap(i)
  {
    hide Wrap, RegOf;
  }

  lemma InPool(m: Assignment, x: string)
    requires m.Values <= POOL
    ensures 4 <= RegOf(m, x) <= 11
  {
    assert x in m ==> m[x] in m.Values;
  }

  lemma FillLast(xs: seq<string>)
    requires xs != []
    ensures Fill(xs) == Fill(xs[..|xs| - 1]) + [AssignIR(xs[|xs| - 1], Decimal.Show(|xs| - 1))]
  {
  }

  /** A number reaches the register of a name, and no other register of the pool. */
  lemma NumberPut(w: World, arity: Arity, m: Assignment, c: Context, x: string, n: nat, cpu: Cpu)
    requires m.Values <= POOL
    ensures 4 <= RegOf(m, x) <= 11
    ensures var r := RunLines(w, arity, GenInstr(m, c, AssignIR(x, Decimal.Show(n))), cpu);
            && r.Some? && r.value.regs[RegOf(m, x)] == Wrap(n)
            && forall q: Reg :: 4 <= q <= 11 && q != RegOf(m, x) ==> r.value.regs[q] == cpu.regs[q]
  {
    assert x in m ==> m[x] in m.Values;
    var rd := RegOf(m, x);
    Decimal.ReadShow(n);
    ConstantLoads(w, arity, n, cpu);
    var c1 := SetReg(cpu, IP, Wrap(n));
    RunLinesAppend(w, arity, ConstantLines(n), [Mov(AL, rd, IP)], cpu);
    RunLine(w, arity, Mov(AL, rd, IP), c1);
  }

  /** What the names hold in the three-address machine. */
  lemma {:induction false} FillMeans(w: World, xs: seq<string>, l: Local)
    requires Names(xs)
    ensures var r := RunLocal(w, Fill(xs), l);
            r.Some? && forall i :: 0 <= i < |xs| ==> Get(r.value.store, xs[i]) == Wrap(i)
    decreases xs
  {
    if xs != [] {
      var n := |xs| - 1;
      var i := AssignIR(xs[n], Decimal.Show(n));
      hide RunLocal, Fill, Wrap, IsName;
      assert Names(xs[..n]);
      FillMeans(w, xs[..n], l);
      FillLast(xs);
      Decimal.ReadShow(n);
      RunLocalAppend(w, Fill(xs[..n]), [i], l);
      RunLocalOne(w, i, RunLocal(w, Fill(xs[..n]), l).value);
      assert forall k :: 0 <= k < n ==> xs[..n][k] == xs[k];
    }
  }

  /** Every name's register holds the name's number. */
  ghost predicate AllHeld(m: Assignment, xs: seq<string>, cpu: Cpu) {
    forall i :: 0 <= i < |xs| ==> cpu.regs[RegOf(m, xs[i])] == Wrap(i)
  }

  /** After x_0 = 0; x_1 = 1; ... every name has its own number in the three-address machine. In the
      assembly it does if and only if there are at most eight names, whichever registers the
      allocator chose. */
  lemma EightNamesExactly(w: World, arity: Arity, m: Assignment, c: Context, xs: seq<string>, l: Local, cpu: Cpu)
    requires Names(xs) && GoodMap(m, Fill(xs))
    ensures var ir := RunLocal(w, Fill(xs), l);
            ir.Some? && forall i :: 0 <= i < |xs| ==> Get(ir.value.store, xs[i]) == Wrap(i)
    ensures var arm := RunLines(w, arity, GenCode(m, c, Fill(xs)), cpu);
            arm.Some? && (AllHeld(m, xs, arm.value) <==> |xs| <= 8)
  {
    FillMeans(w, xs, l);
    FillRuns(w, arity, m, c, xs, cpu);
    FillUses(Context("", []), xs);
    DistinctNames(xs, |xs|);
    hide RunLines, GenCode, Fill, AllUses;
    var r := RunLines(w, arity, GenCode(m, c, Fill(xs)), cpu).value;
    if |xs| <= 8 {
      OwnRegisters(m, xs);
    } else if AllHeld(m, xs, r) {
      FirstNine(m, xs, r);
    }
  }

  /** With at most eight names, none shares a register. */
  lemma OwnRegisters(m: Assignment, xs: seq<string>)
    requires Names(xs) && Injective(m) && NamesOf(xs) <= m.Keys
    ensures forall i, j :: 0 <= i < j < |xs| ==> RegOf(m, xs[j]) != RegOf(m, xs[i])
  {
    forall i, j | 0 <= i < j < |xs|
      ensures RegOf(m, xs[j]) != RegOf(m, xs[i])
    {
      assert xs[i] in NamesOf(xs) && xs[j] in NamesOf(xs);
    }
  }

  /** Nine different numbers cannot be held by eight registers. */
  lemma FirstNine(m: Assignment, xs: seq<string>, cpu: Cpu)
    requires Names(xs) && |xs| > 8 && m.Values <= POOL
    ensures !AllHeld(m, xs, cpu)
  {
    DistinctNames(xs, 9);
    var names := NamesOf(xs[..9]);
    if AllHeld(m, xs, cpu) {
      forall x, y | x in names && y in names && RegOf(m, x) == RegOf(m, y)
        ensures x == y
      {
        var i :| 0 <= i < 9 && xs[..9][i] == x;
        var j :| 0 <= j < 9 && xs[..9][j] == y;
        assert Wrap(i) == cpu.regs[RegOf(m, xs[i])] == cpu.regs[RegOf(m, xs[j])] == Wrap(j);
      }
      SeparateFew(m, names);
    }
  }

  lemma {:induction false} DistinctNames(xs: seq<string>, k: nat)
    requires Names(xs) && k <= |xs|
    ensures |NamesOf(xs[..k])| == k && xs[..|xs|] == xs
    decreases k
  {
    if k > 0 {
      DistinctNames(xs, k - 1);
      NameAdded(xs, k);
      hide NamesOf, Names;
    } else {
      assert NamesOf(xs[..0]) == {};
    }
  }

  lemma NameAdded(xs: seq<string>, k: nat)
    requires Names(xs) && 0 < k <= |xs|
    ensures NamesOf(xs[..k]) == NamesOf(xs[..k - 1]) + {xs[k - 1]} && xs[k - 1] !in NamesOf(xs[..k - 1])
  {
    hide IsName;
    assert xs[..k] == xs[..k - 1] + [xs[k - 1]];
    var (front, x) := (xs[..k - 1], xs[k - 1]);
    forall j | 0 <= j < |front|
      ensures front[j] != x
    {
      assert front[j] == xs[j];
    }
  }

  const NINE: seq<string> := ["a", "b", "c", "d", "e", "f", "g", "h", "i"]

  /** With the nine names a to i, some name does not hold its number. */
  lemma EightNamesFail(w: World, arity: Arity, m: Assignment, c: Context, cpu: Cpu) returns (i: nat)
    requires GoodMap(m, Fill(NINE))
    ensures var r := RunLines(w, arity, GenCode(m, c, Fill(NINE)), cpu);
            i < 9 && r.Some? && r.value.regs[RegOf(m, NINE[i])] != i
  {
    hide RunLines, GenCode, Fill, RegOf, GoodMap;
    NineNames();
    EightNamesExactly(w, arity, m, c, NINE, Local(map[], [], []), cpu);
    var r := RunLines(w, arity, GenCode(m, c, Fill(NINE)), cpu).value;
    i :| 0 <= i < 9 && r.regs[RegOf(m, NINE[i])] != Wrap(i);
  }

  lemma NineNames()
    ensures Names(NINE)
  {
    forall i | 0 <= i < 9
      ensures IsName(NINE[i])
    {
      assert 'a' <= NINE[i][0] <= 'i';
    }
  }

  // ------------------------------------------------------------------ a call in a later argument

  /** f(x, g(y)), up to the call of g. */
  function InnerCall(x: string, y: string, t: string, g: string): seq<Instr> {
    [ParamIR(x), ParamIR(y), CallIR(t, g, 1)]
  }

  lemma InnerCallIsGenerated(x: string, y: string, f: string, h: string, g: GenState)
    ensures var code := LowerExpr(FunctionCall(f, [Identifier(x), FunctionCall(h, [Identifier(y)])]), g).code;
            |code| >= 3 && code[..3] == InnerCall(x, y, TempName(g.temps), h)
  {
    var inner := FunctionCall(h, [Identifier(y)]);
    OneArgument(y, h, g);
    var I := LowerExpr(inner, g);
    var t := TempName(g.temps);
    assert [Identifier(x), inner][1..] == [inner] && [inner][1..] == [];
    hide TempName;
    assert LowerArgs([inner], g).code == [ParamIR(y), CallIR(t, h, 1), ParamIR(t)];
    assert LowerArgs([Identifier(x), inner], g).code == [ParamIR(x), ParamIR(y), CallIR(t, h, 1), ParamIR(t)];
  }

  lemma OneArgument(y: string, h: string, g: GenState)
    ensures var I := LowerExpr(FunctionCall(h, [Identifier(y)]), g);
            I.code == [ParamIR(y), CallIR(TempName(g.temps), h, 1)] && I.result == TempName(g.temps)
  {
    assert [Identifier(y)][1..] == [];
    assert LowerArgs([Identifier(y)], g) == Block([ParamIR(y)], g);
  }

  /** Calls of `g` are seen outside: they are added to the calls made. */
  ghost predicate Seen(w: World, g: string) {
    forall args, trace :: w.call(g, args, trace).Some? && w.call(g, args, trace).value.trace == trace + [Event(g, args)]
  }

  predicate Ordinary(arity: Arity, f: string, n: nat) {
    arity(f) == n <= 4 && f !in SYSCALLS && f != "__aeabi_idiv" && f != "__aeabi_idivmod"
  }

  /** The inner call is made with the first argument of the outer one: right if and only if the
      two arguments have the same value. */
  lemma InnerCallExactly(w: World, arity: Arity, m: Assignment, fn: string, x: string, y: string, t: string, g: string,
                         l: Local, cpu: Cpu, fr: Frame)
    requires MapOk(m) && Match(m, [], l, cpu, fr) && IsName(x) && IsName(y) && x in m && y in m && t in m
    requires Ordinary(arity, g, 1) && Seen(w, g)
    ensures var code := InnerCall(x, y, t, g);
            var (ir, arm) := (RunLocal(w, code, l), RunLines(w, arity, GenCode(m, Context(fn, []), code), cpu));
            ir.Some? && arm.Some? && (ir.value.trace == arm.value.trace <==> Get(l.store, x) == Get(l.store, y))
  {
    var code := InnerCall(x, y, t, g);
    InnerCallSource(w, x, y, t, g, l);
    InnerCallCode(m, fn, x, y, t, g);
    hide RunLocal, GenCode, InnerCall, RunLines, ParamLines, Match;
    assert forall a :: a in [x, y] ==> Known(m, a);
    CallMade(w, arity, m, [x, y], g, m[t], l, cpu, fr);
    assert ValuesOf(l.store, [x, y][..1]) == [Get(l.store, x)];
    SameEvent(l.trace, g, [Get(l.store, x)], [Get(l.store, y)]);
  }

  lemma SameEvent(trace: seq<Event>, f: string, xs: seq<word>, ys: seq<word>)
    ensures trace + [Event(f, xs)] == trace + [Event(f, ys)] <==> xs == ys
  {
    assert (trace + [Event(f, xs)])[|trace|] == Event(f, xs);
    assert (trace + [Event(f, ys)])[|trace|] == Event(f, ys);
  }

  function ValuesOf(store: Store, names: seq<string>): (vs: seq<word>)
    ensures |vs| == |names| && forall i :: 0 <= i < |vs| ==> vs[i] == Operand(store, names[i])
  {
    seq(|names|, i requires 0 <= i < |names| => Operand(store, names[i]))
  }

  /** The lines of a call: the callee gets the first of the waiting values, as many as it takes, as
      they are at the call. */
  lemma CallMade(w: World, arity: Arity, m: Assignment, pend: seq<string>, g: string, rd: Reg, l: Local, cpu: Cpu,
                 fr: Frame)
    requires MapOk(m) && Match(m, [], l, cpu, fr) && |pend| <= 4 && forall a :: a in pend ==> Known(m, a)
    requires arity(g) <= |pend| && Ordinary(arity, g, arity(g)) && Seen(w, g)
    ensures var r := RunLines(w, arity, ParamLines(m, pend, 0) + [Bl(g), Mov(AL, rd, 0)], cpu);
            r.Some? && r.value.trace == l.trace + [Event(g, ValuesOf(l.store, pend[..arity(g)]))]
  {
    hide RunLines, ParamLines, Operand, Known, FrameHeld;
    var lines := ParamLines(m, pend, 0);
    ParamsPass(w, arity, m, pend, 0, l, cpu, fr);
    var c1 := RunLines(w, arity, lines, cpu).value;
    RunLinesAppend(w, arity, lines, [Bl(g), Mov(AL, rd, 0)], cpu);
    var args := ValuesOf(l.store, pend[..arity(g)]);
    forall i | 0 <= i < arity(g)
      ensures c1.regs[..arity(g)][i] == args[i]
    {
      assert c1.regs[0 + i] == Operand(l.store, pend[i]);
    }
    assert c1.regs[..arity(g)] == args;
    BlRuns(w, arity, g, c1, rd);
  }

  lemma BlRuns(w: World, arity: Arity, g: string, cpu: Cpu, rd: Reg)
    requires arity(g) <= 4 && Ordinary(arity, g, arity(g)) && Seen(w, g)
    ensures var r := RunLines(w, arity, [Bl(g), Mov(AL, rd, 0)], cpu);
            r.Some? && r.value.trace == cpu.trace + [Event(g, cpu.regs[..arity(g)])]
  {
    assert w.call(g, cpu.regs[..arity(g)], cpu.trace).Some?;
    Run2(w, arity, Bl(g), Mov(AL, rd, 0), cpu);
  }

  lemma InnerCallSource(w: World, x: string, y: string, t: string, g: string, l: Local)
    requires IsName(x) && IsName(y) && Seen(w, g)
    ensures var r := RunLocal(w, InnerCall(x, y, t, g), l);
            r.Some? && r.value.trace == l.trace + [Event(g, [Get(l.store, y)])]
  {
    var (px, py) := (Get(l.store, x), Get(l.store, y));
    var l2 := l.(params := l.params + [px] + [py]);
    var code := InnerCall(x, y, t, g);
    assert code[1..] == [ParamIR(y), CallIR(t, g, 1)] && code[1..][1..] == [CallIR(t, g, 1)];
    assert RunLocal(w, code, l) == RunLocal(w, [CallIR(t, g, 1)], l2);
    RunLocalOne(w, CallIR(t, g, 1), l2);
    assert l2.params[|l2.params| - 1..] == [py];
    assert w.call(g, [py], l.trace).Some?;
  }

  lemma InnerCallCode(m: Assignment, fn: string, x: string, y: string, t: string, g: string)
    requires t in m && g !in SYSCALLS
    ensures GenCode(m, Context(fn, []), InnerCall(x, y, t, g)) == ParamLines(m, [x, y], 0) + [Bl(g), Mov(AL, m[t], 0)]
  {
    hide ParamLines;
    var code := InnerCall(x, y, t, g);
    assert code[1..] == [ParamIR(y), CallIR(t, g, 1)] && code[1..][1..] == [CallIR(t, g, 1)];
    assert [] + [x] + [y] == [x, y];
    GenOne(m, Context(fn, [x, y]), CallIR(t, g, 1));
    assert GenCode(m, Context(fn, []), code) == GenCode(m, Context(fn, [x, y]), [CallIR(t, g, 1)]);
    assert TransferLines(g) + [Mov(AL, m[t], 0)] == [Bl(g), Mov(AL, m[t], 0)];
  }

  // ------------------------------------------------------------------ an assignment in a later argument

  /** f(x, x = a), where `a` is an operand. */
  function LateArgument(x: string, a: string, t: string, f: string): seq<Instr> {
    [ParamIR(x), AssignIR(x, a), ParamIR(x), CallIR(t, f, 2)]
  }

  lemma LateArgumentIsGenerated(x: string, e: Expr, f: string, g: GenState)
    requires e.Identifier? || e.IntegerLiteral? || e.CharLiteral?
    ensures LowerExpr(FunctionCall(f, [Identifier(x), Assignment(Identifier(x), e)]), g).code
            == LateArgument(x, LowerExpr(e, g).result, TempName(g.temps), f)
  {
    var late := Assignment(Identifier(x), e);
    var a := LowerExpr(e, g).result;
    assert LowerExpr(e, g) == Lowered([], a, g);
    var L := LowerExpr(late, g);
    assert L.code == [] + [AssignIR(x, a)] && L.result == x && L.g == g;
    assert [Identifier(x), late][1..] == [late] && [late][1..] == [];
    assert LowerArgs([late], g).code == [AssignIR(x, a), ParamIR(x)] && LowerArgs([late], g).g == g;
    assert LowerArgs([Identifier(x), late], g).code == [ParamIR(x), AssignIR(x, a), ParamIR(x)];
  }

  /** The first argument is read at the call, after the assignment: right if and only if the
      assignment does not change the variable. */
  lemma LateArgumentExactly(w: World, arity: Arity, m: Assignment, fn: string, x: string, a: string, t: string,
                            f: string, l: Local, cpu: Cpu, fr: Frame)
    requires MapOk(m) && Match(m, [], l, cpu, fr) && IsName(x) && x in m && t in m && Known(m, a)
    requires Ordinary(arity, f, 2) && Seen(w, f)
    ensures var code := LateArgument(x, a, t, f);
            var (ir, arm) := (RunLocal(w, code, l), RunLines(w, arity, GenCode(m, Context(fn, []), code), cpu));
            ir.Some? && arm.Some? && (ir.value.trace == arm.value.trace <==> Get(l.store, x) == Operand(l.store, a))
  {
    hide RunLocal, GenCode, LateArgument, RunLines, ParamLines, Match, GenInstr, Known, MapOk, Seen, Ordinary;
    var c := Context(fn, []);
    var (i, v) := (AssignIR(x, a), Operand(l.store, a));
    OrdinaryArity(arity, f, 2);
    LateArgumentSource(w, x, a, t, f, l);
    LateArgumentCode(m, fn, x, a, t, f);
    var c1 := AssignRuns(w, arity, m, c, x, a, l, cpu, fr);
    var l1 := l.(store := l.store[x := v]);
    var tail := ParamLines(m, [x, x], 0) + [Bl(f), Mov(AL, m[t], 0)];
    RunLinesAppend(w, arity, GenInstr(m, c, i), tail, cpu);
    CallMade(w, arity, m, [x, x], f, m[t], l1, c1, fr);
    assert [x, x][..2] == [x, x] && ValuesOf(l1.store, [x, x]) == [v, v];
    SameEvent(l.trace, f, [Get(l.store, x), v], [v, v]);
  }

  lemma OrdinaryArity(arity: Arity, f: string, n: nat)
    requires Ordinary(arity, f, n)
    ensures arity(f) == n <= 4 && f !in SYSCALLS
  {
  }

  lemma AssignRuns(w: World, arity: Arity, m: Assignment, c: Context, x: string, a: string, l: Local, cpu: Cpu,
                   fr: Frame)
      returns (c1: Cpu)
    requires MapOk(m) && Match(m, [], l, cpu, fr) && IsName(x) && x in m && Known(m, a) && c.pend == []
    ensures RunLines(w, arity, GenInstr(m, c, AssignIR(x, a)), cpu) == Some(c1)
    ensures Match(m, [], l.(store := l.store[x := Operand(l.store, a)]), c1, fr) && Known(m, x)
  {
    hide RunLines, Match;
    AssignSimulated(w, arity, m, c, AssignIR(x, a), l, cpu, fr);
    c1 := RunLines(w, arity, GenInstr(m, c, AssignIR(x, a)), cpu).value;
  }

  lemma LateArgumentSource(w: World, x: string, a: string, t: string, f: string, l: Local)
    requires IsName(x) && Seen(w, f)
    ensures var r := RunLocal(w, LateArgument(x, a, t, f), l);
            r.Some? && r.value.trace == l.trace + [Event(f, [Get(l.store, x), Operand(l.store, a)])]
  {
    var (px, v) := (Get(l.store, x), Operand(l.store, a));
    var code := LateArgument(x, a, t, f);
    var l1 := l.(params := l.params + [px]);
    var l2 := l1.(store := l.store[x := v]);
    var l3 := l2.(params := l1.params + [v]);
    assert code[1..] == [AssignIR(x, a), ParamIR(x), CallIR(t, f, 2)];
    assert code[1..][1..] == [ParamIR(x), CallIR(t, f, 2)] && code[1..][1..][1..] == [CallIR(t, f, 2)];
    assert RunLocal(w, code, l) == RunLocal(w, code[1..], l1) == RunLocal(w, code[1..][1..], l2);
    assert RunLocal(w, code[1..][1..], l2) == RunLocal(w, [CallIR(t, f, 2)], l3);
    RunLocalOne(w, CallIR(t, f, 2), l3);
    assert l3.params[|l3.params| - 2..] == [px, v];
    assert w.call(f, [px, v], l.trace).Some?;
  }

  lemma LateArgumentCode(m: Assignment, fn: string, x: string, a: string, t: string, f: string)
    requires t in m && f !in SYSCALLS
    ensures GenCode(m, Context(fn, []), LateArgument(x, a, t, f))
            == GenInstr(m, Context(fn, []), AssignIR(x, a)) + (ParamLines(m, [x, x], 0) + [Bl(f), Mov(AL, m[t], 0)])
  {
    hide ParamLines, OperandLines;
    var code := LateArgument(x, a, t, f);
    assert code[1..] == [AssignIR(x, a), ParamIR(x), CallIR(t, f, 2)];
    assert code[1..][1..] == [ParamIR(x), CallIR(t, f, 2)] && code[1..][1..][1..] == [CallIR(t, f, 2)];
    assert [] + [x] + [x] == [x, x];
    var (c1, c2) := (Context(fn, [x]), Context(fn, [x, x]));
    GenOne(m, c2, CallIR(t, f, 2));
    assert GenInstr(m, c1, AssignIR(x, a)) == GenInstr(m, Context(fn, []), AssignIR(x, a));
    assert Next(Context(fn, []), ParamIR(x)) == c1 && Next(c1, ParamIR(x)) == c2;
    assert GenCode(m, Context(fn, []), code) == [] + GenCode(m, c1, code[1..]) == GenCode(m, c1, code[1..]);
    assert GenCode(m, c1, code[1..]) == GenInstr(m, c1, AssignIR(x, a)) + GenCode(m, c1, code[1..][1..]);
    assert GenCode(m, c1, code[1..][1..]) == [] + GenCode(m, c2, [CallIR(t, f, 2)])
           == GenCode(m, c2, [CallIR(t, f, 2)]);
    assert TransferLines(f) + [Mov(AL, m[t], 0)] == [Bl(f), Mov(AL, m[t], 0)];
  }
}
