/** What a function body means: a big-step semantics of the int-scalar part of Subset C, with
    block scopes, short-circuit && and ||, and 32-bit wrap-around. */
module Source {
  import opened Words
  import opened Ast
  import opened IrMachine
  import opened IrGenerator
  import Decimal

  /** A declared variable before and after it first gets a value. */
  datatype Binding = Unset | Set(v: word)

  /** The scopes in force, outermost first. */
  type Frames = seq<map<string, Binding>>

  datatype Memory = Memory(frames: Frames, trace: seq<Event>)

  function Lookup(fs: Frames, x: string): Option<Binding> {
    if fs == [] then None
    else if x in fs[|fs| - 1] then Some(fs[|fs| - 1][x])
    else Lookup(fs[..|fs| - 1], x)
  }

  /** Assigns the innermost variable called `x`. */
  function Update(fs: Frames, x: string, v: word): (r: Frames)
    ensures |r| == |fs|
  {
    if fs == [] then []
    else if x in fs[|fs| - 1] then fs[|fs| - 1 := fs[|fs| - 1][x := Set(v)]]
    else Update(fs[..|fs| - 1], x, v) + [fs[|fs| - 1]]
  }

  /** Declares `x` in the innermost scope. */
  function Declare(fs: Frames, x: string, b: Binding): (r: Frames)
    requires fs != []
    ensures |r| == |fs|
  {
    fs[|fs| - 1 := fs[|fs| - 1][x := b]]
  }

  datatype EResult = Value(v: word, m: Memory) | Meaningless

  datatype AResult = Values(vs: seq<word>, m: Memory) | NoValues

  function EvalExpr(w: World, e: Expr, m: Memory): EResult
    decreases e, 1
  {
    match e
    case Identifier(x) =>
      var b := Lookup(m.frames, x);
      if b.Some? && b.value.Set? then Value(b.value.v, m) else Meaningless
    case IntegerLiteral(n) => Value(Wrap(n), m)
    case CharLiteral(c) => Value(Wrap(c as int), m)
    case StringLiteral(_) => Meaningless
    case BinaryOp(op, l, r) =>
      var L := EvalExpr(w, l, m);
      if L.Meaningless? then L
      else if op == LogAnd && L.v == 0 then Value(0, L.m)
      else if op == LogOr && L.v != 0 then Value(1, L.m)
      else
        var R := EvalExpr(w, r, L.m);
        if R.Meaningless? || !w.defined(op, L.v, R.v) then Meaningless
        else Value(EvalBin(op, L.v, R.v), R.m)
    case UnaryOp(op, a) =>
      var A := EvalExpr(w, a, m);
      if A.Meaningless? || EvalUn(op, A.v).None? then Meaningless else Value(EvalUn(op, A.v).value, A.m)
    case Assignment(target, e') =>
      var V := EvalExpr(w, e', m);
      if V.Meaningless? || !target.Identifier? || Lookup(V.m.frames, target.name).None? then Meaningless
      else Value(V.v, V.m.(frames := Update(V.m.frames, target.name, V.v)))
    case FunctionCall(f, args) =>
      var A := EvalArgs(w, args, m);
      if A.NoValues? then Meaningless
      else
        var a := w.call(f, A.vs, A.m.trace);
        if a.None? then Meaningless else Value(a.value.value, A.m.(trace := a.value.trace))
    case ArrayAccess(_, _) => Meaningless
  }

  function EvalArgs(w: World, es: seq<Expr>, m: Memory): (r: AResult)
    ensures r.Values? ==> |r.vs| == |es|
    decreases es, 0
  {
    if es == [] then Values([], m)
    else
      var E := EvalExpr(w, es[0], m);
      if E.Meaningless? then NoValues
      else
        var rest := EvalArgs(w, es[1..], E.m);
        if rest.NoValues? then NoValues else Values([E.v] + rest.vs, rest.m)
  }

  datatype Outcome = Completed | Returning(value: Option<word>)

  /** How a statement ends: normally or by return, without a meaning, or not within the fuel. */
  datatype XResult = Done(o: Outcome, m: Memory) | Undefined | OutOfFuel

  function Completes(r: EResult): XResult {
    if r.Meaningless? then Undefined else Done(Completed, r.m)
  }

  function EvalOptional(w: World, e: Option<Expr>, m: Memory): XResult {
    if e.None? then Done(Completed, m) else Completes(EvalExpr(w, e.value, m))
  }

  /** Leaving a block forgets its scope. */
  function Leave(r: XResult): XResult {
    if r.Done? && r.m.frames != [] then r.(m := r.m.(frames := r.m.frames[..|r.m.frames| - 1])) else r
  }

  /** `fuel` bounds the number of turns of each loop. */
  function Exec(w: World, s: Stmt, m: Memory, fuel: nat): XResult
    decreases fuel, s, 1
  {
    match s
    case VarDecl(x, size, init) =>
      if size.Some? || m.frames == [] then Undefined
      else
        var m1 := m.(frames := Declare(m.frames, x, Unset));
        if init.None? then Done(Completed, m1)
        else
          var V := EvalExpr(w, init.value, m1);
          if V.Meaningless? || V.m.frames == [] then Undefined
          else Done(Completed, V.m.(frames := Declare(V.m.frames, x, Set(V.v))))
    case CompoundStmt(ss) => Leave(ExecSeq(w, ss, m.(frames := m.frames + [map[]]), fuel))
    case ExprStmt(e) => EvalOptional(w, e, m)
    case IfStmt(c, thn, els) =>
      var C := EvalExpr(w, c, m);
      if C.Meaningless? then Undefined
      else if C.v != 0 then Exec(w, thn, C.m, fuel)
      else if els.Some? then Exec(w, els.value, C.m, fuel)
      else Done(Completed, C.m)
    case WhileStmt(c, body) => Loop(w, Some(c), None, body, m, fuel)
    case ForStmt(init, test, incr, body) =>
      var I := EvalOptional(w, init, m);
      if I.Done? then Loop(w, test, incr, body, I.m, fuel) else I
    case ReturnStmt(v) =>
      if v.None? then Done(Returning(None), m)
      else
        var V := EvalExpr(w, v.value, m);
        if V.Meaningless? then Undefined else Done(Returning(Some(V.v)), V.m)
  }

  function ExecSeq(w: World, ss: seq<Stmt>, m: Memory, fuel: nat): XResult
    decreases fuel, ss, 0
  {
    if ss == [] then Done(Completed, m)
    else
      var r := Exec(w, ss[0], m, fuel);
      if r.Done? && r.o == Completed then ExecSeq(w, ss[1..], r.m, fuel) else r
  }

  /** The test of a loop: an absent one holds. */
  function EvalTest(w: World, test: Option<Expr>, m: Memory): EResult {
    if test.None? then Value(1, m) else EvalExpr(w, test.value, m)
  }

  function Loop(w: World, test: Option<Expr>, incr: Option<Expr>, body: Stmt, m: Memory, fuel: nat): XResult
    decreases fuel, body, 2
  {
    if fuel == 0 then OutOfFuel
    else
      var T := EvalTest(w, test, m);
      if T.Meaningless? then Undefined
      else if T.v == 0 then Done(Completed, T.m)
      else
        var B := Exec(w, body, T.m, fuel);
        if !(B.Done? && B.o == Completed) then B
        else
          var N := EvalOptional(w, incr, B.m);
          if N.Done? then Loop(w, test, incr, body, N.m, fuel - 1) else N
  }

  // ------------------------------------------------------------------ fuel does not matter

  /** More fuel never changes a result that was reached. */
  lemma {:induction false} FuelExec(w: World, s: Stmt, m: Memory, fuel: nat)
    requires !Exec(w, s, m, fuel).OutOfFuel?
    ensures Exec(w, s, m, fuel + 1) == Exec(w, s, m, fuel)
    decreases fuel, s, 1
  {
    match s
    case CompoundStmt(ss) => FuelSeq(w, ss, m.(frames := m.frames + [map[]]), fuel);
    case IfStmt(c, thn, els) =>
      var C := EvalExpr(w, c, m);
      if C.Value? {
        if C.v != 0 {
          FuelExec(w, thn, C.m, fuel);
        } else if els.Some? {
          FuelExec(w, els.value, C.m, fuel);
        }
      }
    case WhileStmt(c, body) => FuelLoop(w, Some(c), None, body, m, fuel);
    case ForStmt(init, test, incr, body) =>
      var I := EvalOptional(w, init, m);
      if I.Done? {
        FuelLoop(w, test, incr, body, I.m, fuel);
      }
    case _ =>
  }

  lemma {:induction false} FuelSeq(w: World, ss: seq<Stmt>, m: Memory, fuel: nat)
    requires !ExecSeq(w, ss, m, fuel).OutOfFuel?
    ensures ExecSeq(w, ss, m, fuel + 1) == ExecSeq(w, ss, m, fuel)
    decreases fuel, ss, 0
  {
    if ss != [] {
      FuelExec(w, ss[0], m, fuel);
      var r := Exec(w, ss[0], m, fuel);
      if r.Done? && r.o == Completed {
        FuelSeq(w, ss[1..], r.m, fuel);
      }
    }
  }

  lemma {:induction false} FuelLoop(w: World, test: Option<Expr>, incr: Option<Expr>, body: Stmt, m: Memory, fuel: nat)
    requires !Loop(w, test, incr, body, m, fuel).OutOfFuel?
    ensures Loop(w, test, incr, body, m, fuel + 1) == Loop(w, test, incr, body, m, fuel)
    decreases fuel, body, 2
  {
    var T := EvalTest(w, test, m);
    if T.Value? && T.v != 0 {
      FuelExec(w, body, T.m, fuel);
      var B := Exec(w, body, T.m, fuel);
      if B.Done? && B.o == Completed {
        var N := EvalOptional(w, incr, B.m);
        if N.Done? {
          FuelLoop(w, test, incr, body, N.m, fuel - 1);
        }
      }
    }
  }
}
