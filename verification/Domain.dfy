/** The programs whose lowering is proved to keep their meaning, and the scoping facts about them. */
module Domain {
  import opened Words
  import opened Ast
  import opened IrGenerator
  import opened IrMachine
  import opened Source
  import Decimal

  /** The number of a generated temporary name. */
  function TempNumber(x: string): Option<nat> {
    if |x| > 1 && x[0] == 't' && Decimal.IsDigits(x[1..]) && Decimal.Show(Decimal.Read(x[1..])) == x[1..]
    then Some(Decimal.Read(x[1..])) else None
  }

  lemma TempNameNumber(n: nat)
    ensures TempNumber(TempName(n)) == Some(n) && !IsConstant(TempName(n))
  {
    assert TempName(n)[1..] == Decimal.Show(n);
    Decimal.ReadShow(n);
  }

  predicate TempIn(x: string, lo: nat, hi: nat) {
    TempNumber(x).Some? && lo <= TempNumber(x).value < hi
  }

  /** A name the flat IR name space keeps apart from temporaries, constants and string labels. */
  predicate NameOk(x: string) {
    x != "" && !IsConstant(x) && TempNumber(x).None? && !("str_" <= x)
  }

  /** The operator has a meaning on every pair of words. */
  ghost predicate Always(w: World, op: BinOp) {
    forall a: word, b: word :: w.defined(op, a, b)
  }

  /** Is `v` a possible value of `e`, given that the variables in `zeros` are 0? Decided for
      literals and those variables. */
  predicate Admits(zeros: set<string>, e: Expr, v: word) {
    match e
    case IntegerLiteral(n) => v == Wrap(n)
    case CharLiteral(c) => v == Wrap(c as int)
    case Identifier(x) => x in zeros ==> v == 0
    case _ => true
  }

  /** The machine gets past the operation on all values the operands can have. */
  ghost predicate Survives(w: World, zeros: set<string>, op: BinOp, l: Expr, r: Expr) {
    forall a: word, b: word :: Admits(zeros, l, a) && Admits(zeros, r, b) ==> w.Result(op, a, b).Some?
  }

  /** Evaluating `e` even when C would not, while the variables in `zeros` are 0, changes nothing
      and comes to an end. */
  ghost predicate Harmless(w: World, zeros: set<string>, e: Expr) {
    match e
    case Identifier(x) => NameOk(x)
    case IntegerLiteral(_) => true
    case CharLiteral(_) => true
    case BinaryOp(op, l, r) => Survives(w, zeros, op, l, r) && Harmless(w, zeros, l) && Harmless(w, zeros, r)
    case UnaryOp(op, a) => (op == Neg || op == Not) && Harmless(w, zeros, a)
    case _ => false
  }

  /** C does not evaluate the right operand of `op` when the left one is `v`. */
  predicate Skips(op: BinOp, v: word) {
    (op == LogAnd && v == 0) || (op == LogOr && v != 0)
  }

  /** The variables that are 0 whenever the left operand `l` makes C skip the right one. */
  function ZerosOf(op: BinOp, l: Expr): set<string> {
    match l
    case Identifier(x) => if op == LogAnd then {x} else {}
    case BinaryOp(c, Identifier(x), IntegerLiteral(0)) =>
      if (op == LogAnd && c == Ne) || (op == LogOr && c == Eq) then {x} else {}
    case UnaryOp(Not, Identifier(x)) => if op == LogOr then {x} else {}
    case _ => {}
  }

  function Assigned(e: Expr): set<string>
    decreases e, 1
  {
    match e
    case BinaryOp(_, l, r) => Assigned(l) + Assigned(r)
    case UnaryOp(_, a) => Assigned(a)
    case Assignment(t, v) => Assigned(v) + (if t.Identifier? then {t.name} else {})
    case FunctionCall(_, args) => AssignedIn(args)
    case _ => {}
  }

  function AssignedIn(es: seq<Expr>): set<string>
    decreases es, 0
  {
    if es == [] then {} else Assigned(es[0]) + AssignedIn(es[1..])
  }

  /** The variable an expression's value is read from after the fact, if any. */
  function ResultVar(e: Expr): Option<string> {
    if e.Identifier? then Some(e.name)
    else if e.Assignment? && e.target.Identifier? then Some(e.target.name)
    else None
  }

  /** Int-scalar expressions whose operands are not disturbed: the right operand never assigns the
      variable the left value sits in, and && and || guard only harmless operands. */
  ghost predicate ScalarExpr(w: World, e: Expr)
    decreases e, 1
  {
    match e
    case Identifier(x) => NameOk(x)
    case IntegerLiteral(_) => true
    case CharLiteral(_) => true
    case StringLiteral(_) => false
    case BinaryOp(op, l, r) =>
      && ScalarExpr(w, l) && ScalarExpr(w, r)
      && (ResultVar(l).Some? ==> ResultVar(l).value !in Assigned(r))
      && (op == LogAnd || op == LogOr ==> Always(w, op) && Harmless(w, ZerosOf(op, l), r))
    case UnaryOp(op, a) => (op == Neg || op == Not) && ScalarExpr(w, a)
    case Assignment(t, v) => t.Identifier? && NameOk(t.name) && ScalarExpr(w, v)
    case FunctionCall(_, args) => ScalarArgs(w, args)
    case ArrayAccess(_, _) => false
  }

  ghost predicate ScalarArgs(w: World, es: seq<Expr>)
    decreases es, 0
  {
    es == [] || (ScalarExpr(w, es[0]) && ScalarArgs(w, es[1..]))
  }

  ghost predicate ScalarOptional(w: World, e: Option<Expr>) {
    e.Some? ==> ScalarExpr(w, e.value)
  }

  ghost predicate ScalarStmt(w: World, s: Stmt)
    decreases s, 1
  {
    match s
    case VarDecl(x, size, init) => size.None? && NameOk(x) && ScalarOptional(w, init)
    case CompoundStmt(ss) => ScalarStmts(w, ss)
    case ExprStmt(e) => ScalarOptional(w, e)
    case IfStmt(c, thn, els) =>
      ScalarExpr(w, c) && ScalarStmt(w, thn) && (els.Some? ==> ScalarStmt(w, els.value))
    case WhileStmt(c, body) => ScalarExpr(w, c) && ScalarStmt(w, body)
    case ForStmt(init, test, incr, body) =>
      ScalarOptional(w, init) && ScalarOptional(w, test) && ScalarOptional(w, incr) && ScalarStmt(w, body)
    case ReturnStmt(v) => ScalarOptional(w, v)
  }

  ghost predicate ScalarStmts(w: World, ss: seq<Stmt>)
    decreases ss, 0
  {
    ss == [] || (ScalarStmt(w, ss[0]) && ScalarStmts(w, ss[1..]))
  }

  // ------------------------------------------------------------------ declarations

  /** Names declared by a statement in the scope it stands in. */
  function TopDecls(s: Stmt): set<string> {
    match s
    case VarDecl(x, _, _) => {x}
    case IfStmt(_, thn, els) => TopDecls(thn) + (if els.Some? then TopDecls(els.value) else {})
    case WhileStmt(_, body) => TopDecls(body)
    case ForStmt(_, _, _, body) => TopDecls(body)
    case _ => {}
  }

  function TopDeclsIn(ss: seq<Stmt>): set<string> {
    if ss == [] then {} else TopDecls(ss[0]) + TopDeclsIn(ss[1..])
  }

  /** Names declared in blocks nested inside a statement. */
  function InnerDecls(s: Stmt): set<string>
    decreases s, 1
  {
    match s
    case CompoundStmt(ss) => TopDeclsIn(ss) + InnerDeclsIn(ss)
    case IfStmt(_, thn, els) => InnerDecls(thn) + (if els.Some? then InnerDecls(els.value) else {})
    case WhileStmt(_, body) => InnerDecls(body)
    case ForStmt(_, _, _, body) => InnerDecls(body)
    case _ => {}
  }

  function InnerDeclsIn(ss: seq<Stmt>): set<string>
    decreases ss, 0
  {
    if ss == [] then {} else InnerDecls(ss[0]) + InnerDeclsIn(ss[1..])
  }

  /** No declaration hides another: a name declared in a nested block is not one declared before in
      a block around it. Blocks side by side may declare the same names. */
  predicate NoHiding(s: Stmt)
    decreases s, 1
  {
    match s
    case CompoundStmt(ss) => NoHidingIn(ss)
    case IfStmt(_, thn, els) =>
      && NoHiding(thn)
      && (els.Some? ==>
            && NoHiding(els.value)
            && TopDecls(thn) !! InnerDecls(els.value) && TopDecls(els.value) !! InnerDecls(thn))
    case WhileStmt(_, body) => NoHiding(body)
    case ForStmt(_, _, _, body) => NoHiding(body)
    case _ => true
  }

  predicate NoHidingIn(ss: seq<Stmt>)
    decreases ss, 0
  {
    ss == [] || (NoHiding(ss[0]) && NoHidingIn(ss[1..]) && TopDecls(ss[0]) !! InnerDeclsIn(ss[1..]))
  }

  lemma {:induction false} TopApartFromInner(s: Stmt)
    requires NoHiding(s)
    ensures TopDecls(s) !! InnerDecls(s)
    decreases s, 1
  {
    match s
    case IfStmt(_, thn, els) =>
      TopApartFromInner(thn);
      if els.Some? {
        TopApartFromInner(els.value);
      }
    case WhileStmt(_, body) => TopApartFromInner(body);
    case ForStmt(_, _, _, body) => TopApartFromInner(body);
    case _ =>
  }

  // ------------------------------------------------------------------ scopes

  function Keys(fs: Frames): set<string> {
    if fs == [] then {} else Keys(fs[..|fs| - 1]) + fs[|fs| - 1].Keys
  }

  lemma {:induction false} LookupIsKey(fs: Frames, x: string)
    ensures Lookup(fs, x).Some? <==> x in Keys(fs)
  {
    if fs != [] {
      LookupIsKey(fs[..|fs| - 1], x);
    }
  }

  lemma {:induction false} LookupUpdate(fs: Frames, x: string, v: word, y: string)
    requires Lookup(fs, x).Some?
    ensures Lookup(Update(fs, x, v), y) == if y == x then Some(Set(v)) else Lookup(fs, y)
  {
    var n := |fs| - 1;
    if x in fs[n] {
      assert Update(fs, x, v)[..n] == fs[..n];
    } else {
      LookupUpdate(fs[..n], x, v, y);
      assert Update(fs, x, v)[..n] == Update(fs[..n], x, v);
    }
  }

  lemma LookupDeclare(fs: Frames, x: string, b: Binding, y: string)
    requires fs != []
    ensures Lookup(Declare(fs, x, b), y) == if y == x then Some(b) else Lookup(fs, y)
  {
    assert Declare(fs, x, b)[..|fs| - 1] == fs[..|fs| - 1];
  }

  /** The same scopes with the same names, except that the innermost may have gained some. */
  ghost predicate Grown(fs: Frames, fs': Frames, added: set<string>) {
    && |fs'| == |fs|
    && (forall i :: 0 <= i < |fs| - 1 ==> fs'[i].Keys == fs[i].Keys)
    && (fs != [] ==> fs[|fs| - 1].Keys <= fs'[|fs| - 1].Keys <= fs[|fs| - 1].Keys + added)
  }

  lemma {:induction false} KeysByFrame(fs: Frames, fs': Frames)
    requires |fs'| == |fs| && forall i :: 0 <= i < |fs| ==> fs'[i].Keys == fs[i].Keys
    ensures Keys(fs') == Keys(fs)
  {
    if fs != [] {
      KeysByFrame(fs[..|fs| - 1], fs'[..|fs| - 1]);
    }
  }

  lemma GrownKeys(fs: Frames, fs': Frames, added: set<string>)
    requires fs != [] && Grown(fs, fs', added)
    ensures Keys(fs'[..|fs| - 1]) == Keys(fs[..|fs| - 1])
    ensures Keys(fs) <= Keys(fs') <= Keys(fs) + added
  {
    KeysByFrame(fs[..|fs| - 1], fs'[..|fs| - 1]);
  }

  lemma {:induction false} UpdateKeepsKeys(fs: Frames, x: string, v: word)
    requires Lookup(fs, x).Some?
    ensures forall i :: 0 <= i < |fs| ==> Update(fs, x, v)[i].Keys == fs[i].Keys
  {
    var n := |fs| - 1;
    if x !in fs[n] {
      UpdateKeepsKeys(fs[..n], x, v);
      assert Update(fs, x, v)[..n] == Update(fs[..n], x, v);
      assert forall i :: 0 <= i < n ==> Update(fs, x, v)[i] == Update(fs[..n], x, v)[i];
    }
  }

  lemma GrownTwice(a: Frames, b: Frames, c: Frames, s: set<string>, t: set<string>)
    requires Grown(a, b, s) && Grown(b, c, t)
    ensures Grown(a, c, s + t)
  {
  }

  lemma {:induction false} EvalShape(w: World, e: Expr, m: Memory)
    requires EvalExpr(w, e, m).Value?
    ensures Grown(m.frames, EvalExpr(w, e, m).m.frames, {})
    decreases e, 1
  {
    match e
    case BinaryOp(op, l, r) =>
      EvalShape(w, l, m);
      var L := EvalExpr(w, l, m);
      if !(op == LogAnd && L.v == 0) && !(op == LogOr && L.v != 0) {
        EvalShape(w, r, L.m);
        GrownTwice(m.frames, L.m.frames, EvalExpr(w, r, L.m).m.frames, {}, {});
      }
    case UnaryOp(_, a) => EvalShape(w, a, m);
    case Assignment(t, v) =>
      EvalShape(w, v, m);
      var V := EvalExpr(w, v, m);
      UpdateKeepsKeys(V.m.frames, t.name, V.v);
      GrownTwice(m.frames, V.m.frames, Update(V.m.frames, t.name, V.v), {}, {});
    case FunctionCall(_, args) => ArgsShape(w, args, m);
    case _ =>
  }

  lemma {:induction false} ArgsShape(w: World, es: seq<Expr>, m: Memory)
    requires EvalArgs(w, es, m).Values?
    ensures Grown(m.frames, EvalArgs(w, es, m).m.frames, {})
    decreases es, 0
  {
    if es != [] {
      EvalShape(w, es[0], m);
      var E := EvalExpr(w, es[0], m);
      ArgsShape(w, es[1..], E.m);
      GrownTwice(m.frames, E.m.frames, EvalArgs(w, es[1..], E.m).m.frames, {}, {});
    }
  }

  lemma OptionalShape(w: World, e: Option<Expr>, m: Memory)
    requires EvalOptional(w, e, m).Done?
    ensures Grown(m.frames, EvalOptional(w, e, m).m.frames, {})
  {
    if e.Some? {
      EvalShape(w, e.value, m);
    }
  }

  lemma TestShape(w: World, e: Option<Expr>, m: Memory)
    requires EvalTest(w, e, m).Value?
    ensures Grown(m.frames, EvalTest(w, e, m).m.frames, {})
  {
    if e.Some? {
      EvalShape(w, e.value, m);
    }
  }

  /** Running a statement adds nothing to the scopes but its own top declarations. */
  lemma {:induction false} ExecShape(w: World, s: Stmt, m: Memory, fuel: nat)
    requires m.frames != [] && Exec(w, s, m, fuel).Done?
    ensures Grown(m.frames, Exec(w, s, m, fuel).m.frames, TopDecls(s))
    decreases fuel, s, 1
  {
    hide EvalExpr, Keys, Lookup;
    match s
    case VarDecl(x, _, init) =>
      if init.Some? {
        var m1 := m.(frames := Declare(m.frames, x, Unset));
        EvalShape(w, init.value, m1);
      }
    case CompoundStmt(ss) =>
      BlockShape(w, ss, m, fuel);
    case ExprStmt(e) => OptionalShape(w, e, m);
    case IfStmt(c, thn, els) =>
      EvalShape(w, c, m);
      var C := EvalExpr(w, c, m);
      if C.v != 0 {
        ExecShape(w, thn, C.m, fuel);
      } else if els.Some? {
        ExecShape(w, els.value, C.m, fuel);
      }
    case WhileStmt(c, body) => LoopShape(w, Some(c), None, body, m, fuel);
    case ForStmt(init, test, incr, body) =>
      OptionalShape(w, init, m);
      LoopShape(w, test, incr, body, EvalOptional(w, init, m).m, fuel);
    case ReturnStmt(v) =>
      if v.Some? {
        EvalShape(w, v.value, m);
      }
  }

  lemma {:induction false} BlockShape(w: World, ss: seq<Stmt>, m: Memory, fuel: nat)
    requires m.frames != []
    ensures var r := Leave(ExecSeq(w, ss, m.(frames := m.frames + [map[]]), fuel));
            r.Done? ==> Grown(m.frames, r.m.frames, {})
    decreases fuel, ss, 1
  {
    var inner := m.frames + [map[]];
    var r := ExecSeq(w, ss, m.(frames := inner), fuel);
    if r.Done? {
      SeqShape(w, ss, m.(frames := inner), fuel);
      assert forall i :: 0 <= i < |m.frames| ==> inner[i] == m.frames[i];
    }
  }

  lemma {:induction false} SeqShape(w: World, ss: seq<Stmt>, m: Memory, fuel: nat)
    requires m.frames != [] && ExecSeq(w, ss, m, fuel).Done?
    ensures Grown(m.frames, ExecSeq(w, ss, m, fuel).m.frames, TopDeclsIn(ss))
    decreases fuel, ss, 0
  {
    if ss != [] {
      ExecShape(w, ss[0], m, fuel);
      var r := Exec(w, ss[0], m, fuel);
      if r.o == Completed {
        SeqShape(w, ss[1..], r.m, fuel);
      }
    }
  }

  lemma {:induction false} LoopShape(w: World, test: Option<Expr>, incr: Option<Expr>, body: Stmt, m: Memory, fuel: nat)
    requires m.frames != [] && Loop(w, test, incr, body, m, fuel).Done?
    ensures Grown(m.frames, Loop(w, test, incr, body, m, fuel).m.frames, TopDecls(body))
    decreases fuel, body, 2
  {
    TestShape(w, test, m);
    var T := EvalTest(w, test, m);
    if T.v != 0 {
      ExecShape(w, body, T.m, fuel);
      var B := Exec(w, body, T.m, fuel);
      if B.o == Completed {
        OptionalShape(w, incr, B.m);
        LoopShape(w, test, incr, body, EvalOptional(w, incr, B.m).m, fuel - 1);
      }
    }
  }
}
