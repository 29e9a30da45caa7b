/** Whole programs: functions that call each other. */
module Linking {
  // Calls go to any depth and may recurse. The assembly of a program does what the source means when
  // a call runs the body of the function called.

  import opened Words
  import opened Ast
  import opened IrGenerator
  import opened IrMachine
  import opened Source
  import opened RegisterAllocation
  import opened CodeGeneration
  import opened ArmMachine
  import opened ArmSimulation
  import opened ArmRuns
  import opened Compiler
  import Domain
  import Preservation
  import ArmLabels

  // ------------------------------------------------------------------ what a call means

  /** Where the function called `f` is; the number of functions when there is none. */
  function IndexOf(fs: seq<Function>, f: string): (i: nat)
    ensures i <= |fs| && (i < |fs| <==> exists k :: 0 <= k < |fs| && fs[k].name == f)
    ensures i < |fs| ==> fs[i].name == f
  {
    if fs == [] then 0
    else if fs[0].name == f then 0
    else
      assert forall k :: 0 < k < |fs| ==> fs[k] == fs[1..][k - 1];
      1 + IndexOf(fs[1..], f)
  }

  /** The world inside a program. A call of a linked function runs its body in a memory of its own,
      with calls inside calls up to `depth` and at most `fuel` turns of each loop; it has a meaning
      when that returns a value. Functions of the program that are not linked must not be called,
      and functions outside it answer as in `w`. */
  function Linked(w: World, fs: seq<Function>, linked: set<string>, depth: nat, fuel: nat): World
    decreases depth, 1
  {
    w.(call := (f, args, trace) => CallIn(w, fs, linked, depth, fuel, f, args, trace))
  }

  function CallIn(w: World, fs: seq<Function>, linked: set<string>, depth: nat, fuel: nat, f: string, args: seq<word>,
                  trace: seq<Event>): Option<Answer>
    decreases depth, 0
  {
    var i := IndexOf(fs, f);
    if i == |fs| then w.call(f, args, trace)
    else if depth == 0 || f !in linked then None
    else
      var r := ExecSeq(Linked(w, fs, linked, depth - 1, fuel), fs[i].body, Memory([map[]], trace), fuel);
      if r.Done? && r.o.Returning? && r.o.value.Some? then Some(Answer(r.o.value.value, r.m.trace)) else None
  }

  // ------------------------------------------------------------------ the bounds do not matter

  /** What has a meaning in `w` has the same in `v`. */
  ghost predicate Extends(w: World, v: World) {
    && w.defined == v.defined
    && forall f, args, trace :: w.call(f, args, trace).Some? ==> v.call(f, args, trace) == w.call(f, args, trace)
  }

  lemma {:induction false} EvalExtends(w: World, v: World, e: Expr, m: Memory)
    requires Extends(w, v) && EvalExpr(w, e, m).Value?
    ensures EvalExpr(v, e, m) == EvalExpr(w, e, m)
    decreases e, 1
  {
    match e
    case BinaryOp(op, l, r) =>
      EvalExtends(w, v, l, m);
      var L := EvalExpr(w, l, m);
      if !Domain.Skips(op, L.v) {
        EvalExtends(w, v, r, L.m);
      }
    case UnaryOp(_, a) => EvalExtends(w, v, a, m);
    case Assignment(_, a) => EvalExtends(w, v, a, m);
    case FunctionCall(_, args) => ArgsExtend(w, v, args, m);
    case _ =>
  }

  lemma {:induction false} ArgsExtend(w: World, v: World, es: seq<Expr>, m: Memory)
    requires Extends(w, v) && EvalArgs(w, es, m).Values?
    ensures EvalArgs(v, es, m) == EvalArgs(w, es, m)
    decreases es, 0
  {
    if es != [] {
      EvalExtends(w, v, es[0], m);
      ArgsExtend(w, v, es[1..], EvalExpr(w, es[0], m).m);
    }
  }

  lemma OptionalExtends(w: World, v: World, e: Option<Expr>, m: Memory)
    requires Extends(w, v) && !EvalOptional(w, e, m).Undefined?
    ensures EvalOptional(v, e, m) == EvalOptional(w, e, m)
  {
    if e.Some? {
      EvalExtends(w, v, e.value, m);
    }
  }

  lemma {:induction false} ExecExtends(w: World, v: World, s: Stmt, m: Memory, fuel: nat)
    requires Extends(w, v) && !Exec(w, s, m, fuel).Undefined?
    ensures Exec(v, s, m, fuel) == Exec(w, s, m, fuel)
    decreases fuel, s, 1
  {
    hide Extends, EvalExpr;
    match s
    case VarDecl(x, _, init) =>
      if init.Some? {
        EvalExtends(w, v, init.value, m.(frames := Declare(m.frames, x, Unset)));
      }
    case CompoundStmt(ss) => SeqExtends(w, v, ss, m.(frames := m.frames + [map[]]), fuel);
    case ExprStmt(e) => OptionalExtends(w, v, e, m);
    case IfStmt(c, thn, els) =>
      EvalExtends(w, v, c, m);
      var C := EvalExpr(w, c, m);
      if C.v != 0 {
        ExecExtends(w, v, thn, C.m, fuel);
      } else if els.Some? {
        ExecExtends(w, v, els.value, C.m, fuel);
      }
    case WhileStmt(c, body) => LoopExtends(w, v, Some(c), None, body, m, fuel);
    case ForStmt(init, test, incr, body) =>
      OptionalExtends(w, v, init, m);
      var I := EvalOptional(w, init, m);
      if I.Done? {
        LoopExtends(w, v, test, incr, body, I.m, fuel);
      }
    case ReturnStmt(e) =>
      if e.Some? {
        EvalExtends(w, v, e.value, m);
      }
  }

  lemma {:induction false} SeqExtends(w: World, v: World, ss: seq<Stmt>, m: Memory, fuel: nat)
    requires Extends(w, v) && !ExecSeq(w, ss, m, fuel).Undefined?
    ensures ExecSeq(v, ss, m, fuel) == ExecSeq(w, ss, m, fuel)
    decreases fuel, ss, 0
  {
    hide Extends;
    if ss != [] {
      ExecExtends(w, v, ss[0], m, fuel);
      var r := Exec(w, ss[0], m, fuel);
      if r.Done? && r.o == Completed {
        SeqExtends(w, v, ss[1..], r.m, fuel);
      }
    }
  }

  lemma {:induction false} LoopExtends(w: World, v: World, test: Option<Expr>, incr: Option<Expr>, body: Stmt,
                                       m: Memory, fuel: nat)
    requires Extends(w, v) && !Loop(w, test, incr, body, m, fuel).Undefined?
    ensures Loop(v, test, incr, body, m, fuel) == Loop(w, test, incr, body, m, fuel)
    decreases fuel, body, 2
  {
    hide Extends, EvalExpr;
    if fuel > 0 {
      if test.Some? {
        EvalExtends(w, v, test.value, m);
      }
      var T := EvalTest(w, test, m);
      if T.v != 0 {
        ExecExtends(w, v, body, T.m, fuel);
        var B := Exec(w, body, T.m, fuel);
        if B.Done? && B.o == Completed {
          OptionalExtends(w, v, incr, B.m);
          var N := EvalOptional(w, incr, B.m);
          if N.Done? {
            LoopExtends(w, v, test, incr, body, N.m, fuel - 1);
          }
        }
      }
    }
  }

  /** A meaning found with some depth and fuel is the meaning with more of either: it does not depend
      on the bounds. */
  lemma {:induction false} LinkedExtends(w: World, fs: seq<Function>, linked: set<string>, depth: nat, fuel: nat)
    ensures Extends(Linked(w, fs, linked, depth, fuel), Linked(w, fs, linked, depth + 1, fuel))
    ensures Extends(Linked(w, fs, linked, depth, fuel), Linked(w, fs, linked, depth, fuel + 1))
    decreases depth
  {
    forall f, args, trace | CallIn(w, fs, linked, depth, fuel, f, args, trace).Some?
      ensures var r := CallIn(w, fs, linked, depth, fuel, f, args, trace);
              && CallIn(w, fs, linked, depth + 1, fuel, f, args, trace) == r
              && CallIn(w, fs, linked, depth, fuel + 1, f, args, trace) == r
    {
      var i := IndexOf(fs, f);
      if i < |fs| {
        LinkedExtends(w, fs, linked, depth - 1, fuel);
        var inner := Linked(w, fs, linked, depth - 1, fuel);
        var m := Memory([map[]], trace);
        hide ExecSeq, Linked, Extends;
        SeqExtends(inner, Linked(w, fs, linked, depth, fuel), fs[i].body, m, fuel);
        FuelSeq(inner, fs[i].body, m, fuel);
        SeqExtends(inner, Linked(w, fs, linked, depth - 1, fuel + 1), fs[i].body, m, fuel + 1);
      }
    }
  }

  /** So a function means the same with more depth and fuel. */
  lemma MeansMore(w: World, fs: seq<Function>, linked: set<string>, depth: nat, fuel: nat, body: seq<Stmt>, m: Memory,
                  x: Option<word>, m': Memory)
    requires Preservation.Means(Linked(w, fs, linked, depth, fuel), body, m, x, m')
    ensures Preservation.Means(Linked(w, fs, linked, depth + 1, fuel), body, m, x, m')
    ensures Preservation.Means(Linked(w, fs, linked, depth, fuel + 1), body, m, x, m')
  {
    hide ExecSeq, Linked, Extends;
    var v := Linked(w, fs, linked, depth, fuel);
    LinkedExtends(w, fs, linked, depth, fuel);
    var turns: nat :| Preservation.Ends(v, body, m, turns, x, m');
    SeqExtends(v, Linked(w, fs, linked, depth + 1, fuel), body, m, turns);
    SeqExtends(v, Linked(w, fs, linked, depth, fuel + 1), body, m, turns);
    assert Preservation.Ends(Linked(w, fs, linked, depth + 1, fuel), body, m, turns, x, m');
    assert Preservation.Ends(Linked(w, fs, linked, depth, fuel + 1), body, m, turns, x, m');
  }

  // ------------------------------------------------------------------ the domain does not see calls

  lemma {:induction false} HarmlessSame(w: World, v: World, zeros: set<string>, e: Expr)
    requires w.defined == v.defined && w.stray == v.stray && Domain.Harmless(w, zeros, e)
    ensures Domain.Harmless(v, zeros, e)
  {
    match e
    case BinaryOp(op, l, r) =>
      assert forall a, b :: v.Result(op, a, b) == w.Result(op, a, b);
      HarmlessSame(w, v, zeros, l);
      HarmlessSame(w, v, zeros, r);
    case UnaryOp(_, a) => HarmlessSame(w, v, zeros, a);
    case _ =>
  }

  lemma {:induction false} ScalarSame(w: World, v: World, e: Expr)
    requires w.defined == v.defined && w.stray == v.stray && Domain.ScalarExpr(w, e)
    ensures Domain.ScalarExpr(v, e)
    decreases e, 1
  {
    match e
    case BinaryOp(op, l, r) =>
      ScalarSame(w, v, l);
      ScalarSame(w, v, r);
      if op == LogAnd || op == LogOr {
        HarmlessSame(w, v, Domain.ZerosOf(op, l), r);
      }
    case UnaryOp(_, a) => ScalarSame(w, v, a);
    case Assignment(_, a) => ScalarSame(w, v, a);
    case FunctionCall(_, args) => ScalarArgsSame(w, v, args);
    case _ =>
  }

  lemma {:induction false} ScalarArgsSame(w: World, v: World, es: seq<Expr>)
    requires w.defined == v.defined && w.stray == v.stray && Domain.ScalarArgs(w, es)
    ensures Domain.ScalarArgs(v, es)
    decreases es, 0
  {
    if es != [] {
      ScalarSame(w, v, es[0]);
      ScalarArgsSame(w, v, es[1..]);
    }
  }

  lemma ScalarOptionalSame(w: World, v: World, e: Option<Expr>)
    requires w.defined == v.defined && w.stray == v.stray && Domain.ScalarOptional(w, e)
    ensures Domain.ScalarOptional(v, e)
  {
    if e.Some? {
      ScalarSame(w, v, e.value);
    }
  }

  lemma {:induction false} ScalarStmtSame(w: World, v: World, s: Stmt)
    requires w.defined == v.defined && w.stray == v.stray && Domain.ScalarStmt(w, s)
    ensures Domain.ScalarStmt(v, s)
    decreases s, 1
  {
    match s
    case VarDecl(_, _, init) => ScalarOptionalSame(w, v, init);
    case CompoundStmt(ss) => ScalarStmtsSame(w, v, ss);
    case ExprStmt(e) => ScalarOptionalSame(w, v, e);
    case IfStmt(c, thn, els) =>
      ScalarSame(w, v, c);
      ScalarStmtSame(w, v, thn);
      if els.Some? {
        ScalarStmtSame(w, v, els.value);
      }
    case WhileStmt(c, body) =>
      ScalarSame(w, v, c);
      ScalarStmtSame(w, v, body);
    case ForStmt(init, test, incr, body) =>
      ScalarOptionalSame(w, v, init);
      ScalarOptionalSame(w, v, test);
      ScalarOptionalSame(w, v, incr);
      ScalarStmtSame(w, v, body);
    case ReturnStmt(e) => ScalarOptionalSame(w, v, e);
  }

  lemma {:induction false} ScalarStmtsSame(w: World, v: World, ss: seq<Stmt>)
    requires w.defined == v.defined && w.stray == v.stray && Domain.ScalarStmts(w, ss)
    ensures Domain.ScalarStmts(v, ss)
    decreases ss, 0
  {
    if ss != [] {
      ScalarStmtSame(w, v, ss[0]);
      ScalarStmtsSame(w, v, ss[1..]);
    }
  }

  lemma DomainSame(w: World, v: World, arity: Arity, f: Function, g: GenState)
    requires w.defined == v.defined && w.stray == v.stray && InDomain(w, arity, f, g)
    ensures InDomain(v, arity, f, g)
  {
    hide Targetable;
    assert forall op, a, b :: v.Result(op, a, b) == w.Result(op, a, b);
    assert forall op, a, b :: LinesResult(v, op, a, b) == LinesResult(w, op, a, b);
    ScalarStmtsSame(w, v, f.body);
  }

  // ------------------------------------------------------------------ the machine does not see depth

  /** The two worlds differ in nothing a program `p` can notice. */
  ghost predicate SameOutside(p: seq<Line>, w: World, v: World) {
    && w.stray == v.stray && w.scratch == v.scratch
    && forall f, args, trace :: !Inside(p, f) ==> w.call(f, args, trace) == v.call(f, args, trace)
  }

  lemma StepSame(w: World, v: World, arity: Arity, p: seq<Line>, s: ArmState)
    requires SameOutside(p, w, v)
    ensures ExecuteStep(w, arity, p, s) == ExecuteStep(v, arity, p, s)
  {
    hide Inside, Pop, Land, CompareFlags, AluResult;
    if s.At? && s.pc < |p| && p[s.pc].Bl? {
      var f := p[s.pc].callee;
      if !Inside(p, f) {
        CallSame(w, v, arity, p, f, s.cpu);
      }
    }
  }

  lemma CallSame(w: World, v: World, arity: Arity, p: seq<Line>, f: string, cpu: Cpu)
    requires SameOutside(p, w, v) && !Inside(p, f)
    ensures Call(w, arity, f, cpu) == Call(v, arity, f, cpu)
  {
    hide Inside;
  }

  lemma {:induction false} ExecuteSame(w: World, v: World, arity: Arity, p: seq<Line>, s: ArmState, n: nat)
    requires SameOutside(p, w, v)
    ensures Execute(w, arity, p, s, n) == Execute(v, arity, p, s, n)
    decreases n
  {
    hide SameOutside, ExecuteStep;
    if n > 0 {
      StepSame(w, v, arity, p, s);
      ExecuteSame(w, v, arity, p, ExecuteStep(w, arity, p, s), n - 1);
    }
  }

  /** Every function of the program is inside it. */
  lemma DefinedInside(fs: seq<Function>, g: GenState, maps: seq<Assignment>, p: seq<Line>, i: nat)
    requires IsAssembly(fs, g, maps, p) && i < |fs|
    ensures Inside(p, fs[i].name)
  {
    hide *;
    FunctionAt(maps, fs, g, p, i);
    AssemblyMaps(fs, g, maps, p, i);
    var (m, code) := (maps[i], ArmLabels.Lowered(fs, g)[i]);
    var base := BaseOf(maps, ArmLabels.Lowered(fs, g), i);
    EntryLabel(m, fs[i], StateAt(fs, g, i));
    HasLine(p, base, GenCode(m, Context("", []), code), 2);
    FoundBy(p, base + 2, fs[i].name);
  }

  lemma EntryLabel(m: Assignment, f: Function, g: GenState)
    requires f.body != []
    ensures var lines := GenCode(m, Context("", []), LowerFunction(f, g).code);
            |lines| > 2 && lines[2] == Label(f.name)
  {
    hide LowerStmts;
    var code := LowerFunction(f, g).code;
    assert code[0] == FunctionEntryIR(f.name);
    assert GenInstr(m, Context("", []), code[0])[2] == Label(f.name);
  }

  lemma {:induction false} FoundBy(p: seq<Line>, k: nat, x: string)
    requires k < |p| && p[k] == Label(x)
    ensures Find(p, x) <= k && Inside(p, x)
    decreases |p|
  {
    if p[0] != Label(x) {
      FoundBy(p[1..], k - 1, x);
    }
  }

  /** Outside the program the linked worlds are the world they were made from. */
  lemma LinkedOutside(w: World, fs: seq<Function>, linked: set<string>, g: GenState, maps: seq<Assignment>,
                      p: seq<Line>, depth: nat, fuel: nat)
    requires IsAssembly(fs, g, maps, p)
    ensures SameOutside(p, w, Linked(w, fs, linked, depth, fuel))
    ensures SameOutside(p, Linked(w, fs, linked, depth, fuel), w)
  {
    hide IsAssembly, Inside;
    forall f, args, trace | !Inside(p, f)
      ensures CallIn(w, fs, linked, depth, fuel, f, args, trace) == w.call(f, args, trace)
    {
      if IndexOf(fs, f) < |fs| {
        DefinedInside(fs, g, maps, p, IndexOf(fs, f));
      }
    }
  }

  // ------------------------------------------------------------------ whole programs

  /** The linked functions are in the domain of the compiler. */
  ghost predicate AllInDomain(w: World, arity: Arity, fs: seq<Function>, linked: set<string>, g: GenState) {
    forall i :: 0 <= i < |fs| && fs[i].name in linked ==> InDomain(w, arity, fs[i], StateAt(fs, g, i))
  }

  /** With 36 bytes of stack for each call in progress, the functions of the program do what the
      linked world says, by induction on the depth of calls. */
  lemma {:induction false} LinkedServes(w: World, arity: Arity, fs: seq<Function>, linked: set<string>, g: GenState,
                                        maps: seq<Assignment>, p: seq<Line>, depth: nat, fuel: nat)
    requires IsAssembly(fs, g, maps, p) && AllInDomain(w, arity, fs, linked, g)
    ensures Serves(Linked(w, fs, linked, depth, fuel), arity, p, 36 * depth)
    decreases depth, 1
  {
    hide IsAssembly, AllInDomain, ComesBack, Inside, GlobalName, CallIn;
    var v := Linked(w, fs, linked, depth, fuel);
    forall f, args, cpu: Cpu
      | GlobalName(f) && Inside(p, f) && Unsigned(cpu.regs[SP]) >= 36 * depth && v.call(f, args, cpu.trace).Some?
      ensures ComesBack(v, arity, p, f, cpu, v.call(f, args, cpu.trace).value)
    {
      CalledInside(w, fs, linked, g, maps, p, depth, fuel, f, args, cpu.trace);
      BodyServes(w, arity, fs, linked, g, maps, p, depth, fuel, f, args, cpu);
    }
  }

  /** A call that goes inside is one of a linked function, with depth to spare. */
  lemma CalledInside(w: World, fs: seq<Function>, linked: set<string>, g: GenState, maps: seq<Assignment>, p: seq<Line>,
                     depth: nat, fuel: nat, f: string, args: seq<word>, trace: seq<Event>)
    requires IsAssembly(fs, g, maps, p) && GlobalName(f) && Inside(p, f)
    requires CallIn(w, fs, linked, depth, fuel, f, args, trace).Some?
    ensures IndexOf(fs, f) < |fs| && depth > 0 && f in linked
    ensures var r := CallIn(w, fs, linked, depth, fuel, f, args, trace).value;
            var body := fs[IndexOf(fs, f)].body;
            var m := Memory([map[]], trace);
            exists m' :: Preservation.Means(Linked(w, fs, linked, depth - 1, fuel), body, m, Some(r.value), m')
                && m'.trace == r.trace
  {
    hide IsAssembly, Inside, GlobalName, ExecSeq, Linked;
    if IndexOf(fs, f) == |fs| {
      AssemblyNamed(fs, g, maps, p);
      NotInside(maps, fs, g, p, f);
    }
    var r := CallIn(w, fs, linked, depth, fuel, f, args, trace).value;
    var body := fs[IndexOf(fs, f)].body;
    var v := Linked(w, fs, linked, depth - 1, fuel);
    var m' := ExecSeq(v, body, Memory([map[]], trace), fuel).m;
    assert Preservation.Ends(v, body, Memory([map[]], trace), fuel, Some(r.value), m');
    assert Preservation.Means(v, body, Memory([map[]], trace), Some(r.value), m');
  }

  lemma AssemblyNamed(fs: seq<Function>, g: GenState, maps: seq<Assignment>, p: seq<Line>)
    requires IsAssembly(fs, g, maps, p)
    ensures ArmLabels.WellNamed(fs) && Emitted(fs, g, maps, p)
  {
  }

  lemma {:induction false} BodyServes(w: World, arity: Arity, fs: seq<Function>, linked: set<string>, g: GenState,
                                      maps: seq<Assignment>, p: seq<Line>, depth: nat, fuel: nat, f: string,
                                      args: seq<word>, cpu: Cpu)
    requires IsAssembly(fs, g, maps, p) && AllInDomain(w, arity, fs, linked, g)
    requires GlobalName(f) && Inside(p, f) && depth > 0 && Unsigned(cpu.regs[SP]) >= 36 * depth
    requires CallIn(w, fs, linked, depth, fuel, f, args, cpu.trace).Some?
    ensures ComesBack(Linked(w, fs, linked, depth, fuel), arity, p, f, cpu,
                      CallIn(w, fs, linked, depth, fuel, f, args, cpu.trace).value)
    decreases depth, 0
  {
    hide *;
    CalledInside(w, fs, linked, g, maps, p, depth, fuel, f, args, cpu.trace);
    var r := CallIn(w, fs, linked, depth, fuel, f, args, cpu.trace).value;
    var i := IndexOf(fs, f);
    var (inner, outer) := (Linked(w, fs, linked, depth - 1, fuel), Linked(w, fs, linked, depth, fuel));
    var m := Memory([map[]], cpu.trace);
    var m' :| Preservation.Means(inner, fs[i].body, m, Some(r.value), m') && m'.trace == r.trace;
    LinkedServes(w, arity, fs, linked, g, maps, p, depth - 1, fuel);
    LinkedDomain(w, arity, fs, linked, g, depth - 1, fuel, i);
    var t := At(Find(p, f), cpu);
    CalledIs(p, fs[i], m, t, 36 * (depth - 1));
    CompilerCorrect(inner, arity, fs, g, maps, p, i, m, t, 36 * (depth - 1), Some(r.value), m');
    LinkedOutside(w, fs, linked, g, maps, p, depth - 1, fuel);
    LinkedOutside(w, fs, linked, g, maps, p, depth, fuel);
    OutsideThen(p, inner, w, outer);
    AnswersComeBack(inner, outer, arity, p, f, cpu, r);
  }

  lemma OutsideThen(p: seq<Line>, a: World, b: World, c: World)
    requires SameOutside(p, a, b) && SameOutside(p, b, c)
    ensures SameOutside(p, a, c)
  {
    hide Inside;
  }

  lemma LinkedDomain(w: World, arity: Arity, fs: seq<Function>, linked: set<string>, g: GenState, depth: nat, fuel: nat,
                     i: nat)
    requires AllInDomain(w, arity, fs, linked, g) && i < |fs| && fs[i].name in linked
    ensures InDomain(Linked(w, fs, linked, depth, fuel), arity, fs[i], StateAt(fs, g, i))
  {
    hide InDomain;
    DomainSame(w, Linked(w, fs, linked, depth, fuel), arity, fs[i], StateAt(fs, g, i));
  }

  lemma CalledIs(p: seq<Line>, f: Function, m: Memory, t: ArmState, room: nat)
    requires t.At? && t.pc == Find(p, f.name) && Unsigned(t.cpu.regs[SP]) >= room + 36
    requires m == Memory([map[]], t.cpu.trace)
    ensures Called(p, f, m, t, room)
  {
  }

  lemma AnswersComeBack(w: World, v: World, arity: Arity, p: seq<Line>, f: string, cpu: Cpu, r: Answer)
    requires SameOutside(p, w, v) && Answers(w, arity, p, At(Find(p, f), cpu), Some(r.value), r.trace)
    ensures ComesBack(v, arity, p, f, cpu, r)
  {
    hide Execute, Find, Land, SameOutside;
    var t := At(Find(p, f), cpu);
    var n: nat :| CameBack(p, cpu, Execute(w, arity, p, t, n), Some(r.value), r.trace);
    ExecuteSame(w, v, arity, p, t, n);
    var s := Execute(v, arity, p, t, n);
    assert forall q: Reg :: 4 <= q <= 11 ==> s.cpu.regs[q] == s.cpu.regs[4..12][q - 4];
    assert BackAfter(v, arity, p, f, cpu, r, n);
  }

  lemma AnswersSame(w: World, v: World, arity: Arity, p: seq<Line>, t: ArmState, x: Option<word>, trace: seq<Event>)
    requires SameOutside(p, w, v) && t.At? && Answers(w, arity, p, t, x, trace)
    ensures Answers(v, arity, p, t, x, trace)
  {
    hide Execute, SameOutside, CameBack;
    var n: nat :| CameBack(p, t.cpu, Execute(w, arity, p, t, n), x, trace);
    ExecuteSame(w, v, arity, p, t, n);
  }

  /** The compiler is correct on whole programs: what a function means, calls of the other functions
      included, its assembly does in the assembly of the program, given 36 bytes of stack for its own
      frame and for each call in progress. */
  lemma ProgramCorrect(w: World, arity: Arity, fs: seq<Function>, linked: set<string>, g: GenState,
                       maps: seq<Assignment>, p: seq<Line>, depth: nat, fuel: nat, i: nat, m: Memory, t: ArmState,
                       x: Option<word>, m': Memory)
    requires IsAssembly(fs, g, maps, p) && AllInDomain(w, arity, fs, linked, g) && i < |fs| && fs[i].name in linked
    requires Called(p, fs[i], m, t, 36 * depth)
    requires Preservation.Means(Linked(w, fs, linked, depth, fuel), fs[i].body, m, x, m')
    ensures Answers(w, arity, p, t, x, m'.trace)
  {
    hide *;
    var v := Linked(w, fs, linked, depth, fuel);
    LinkedServes(w, arity, fs, linked, g, maps, p, depth, fuel);
    LinkedDomain(w, arity, fs, linked, g, depth, fuel, i);
    CompilerCorrect(v, arity, fs, g, maps, p, i, m, t, 36 * depth, x, m');
    LinkedOutside(w, fs, linked, g, maps, p, depth, fuel);
    CalledMeans(p, fs[i], m, t, 36 * depth);
    AnswersSame(v, w, arity, p, t, x, m'.trace);
  }

  /** A function that runs for ever, in a loop of its own, does so in the assembly of the program. */
  lemma ProgramDiverges(w: World, arity: Arity, fs: seq<Function>, linked: set<string>, g: GenState,
                        maps: seq<Assignment>, p: seq<Line>, depth: nat, fuel: nat, i: nat, m: Memory, t: ArmState,
                        k: nat)
    requires IsAssembly(fs, g, maps, p) && AllInDomain(w, arity, fs, linked, g) && i < |fs| && fs[i].name in linked
    requires Called(p, fs[i], m, t, 36 * depth)
    requires Preservation.Diverges(Linked(w, fs, linked, depth, fuel), fs[i].body, m)
    ensures Execute(w, arity, p, t, k).At?
  {
    hide *;
    var v := Linked(w, fs, linked, depth, fuel);
    LinkedServes(w, arity, fs, linked, g, maps, p, depth, fuel);
    LinkedDomain(w, arity, fs, linked, g, depth, fuel, i);
    DivergenceCompiled(v, arity, fs, g, maps, p, i, m, t, 36 * depth, k);
    LinkedOutside(w, fs, linked, g, maps, p, depth, fuel);
    ExecuteSame(w, v, arity, p, t, k);
  }

  /** Nothing is added: called from outside, a function of a program without undefined behaviour
      leaves the program only in a state its source means. */
  lemma ProgramReflected(w: World, arity: Arity, fs: seq<Function>, linked: set<string>, g: GenState,
                         maps: seq<Assignment>, p: seq<Line>, depth: nat, fuel: nat, i: nat, m: Memory, t: ArmState,
                         k: nat)
      returns (x: Option<word>, m': Memory)
    requires IsAssembly(fs, g, maps, p) && AllInDomain(w, arity, fs, linked, g) && i < |fs| && fs[i].name in linked
    requires Called(p, fs[i], m, t, 36 * depth) && Unsigned(t.cpu.regs[LR]) >= |p|
    requires Preservation.NeverUndefined(Linked(w, fs, linked, depth, fuel), fs[i].body, m)
    requires !Execute(w, arity, p, t, k).At?
    ensures Preservation.Means(Linked(w, fs, linked, depth, fuel), fs[i].body, m, x, m')
    ensures CameBack(p, t.cpu, Execute(w, arity, p, t, k), x, m'.trace)
  {
    hide *;
    var v := Linked(w, fs, linked, depth, fuel);
    LinkedServes(w, arity, fs, linked, g, maps, p, depth, fuel);
    LinkedDomain(w, arity, fs, linked, g, depth, fuel, i);
    LinkedOutside(w, fs, linked, g, maps, p, depth, fuel);
    ExecuteSame(w, v, arity, p, t, k);
    x, m' := CompilerReflected(v, arity, fs, g, maps, p, i, m, t, 36 * depth, k);
  }
}
