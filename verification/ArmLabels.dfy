/** Local labels of a whole assembly program: `.<function>_<label>` and `.<function>_epilogue` are
    pairwise distinct when the functions have distinct names. */
module ArmLabels {
  import opened Words
  import opened Ast
  import opened IrGenerator
  import opened RegisterAllocation
  import opened CodeGeneration
  import opened Labels
  import Decimal
  import ArmMachine

  /** Local labels start with a dot; names of functions and strings do not. */
  predicate IsLocal(l: Line) {
    l.Label? && |l.name| > 0 && l.name[0] == '.'
  }

  function Locals(p: seq<Line>): set<string> {
    set i | 0 <= i < |p| && IsLocal(p[i]) :: p[i].name
  }

  /** No local label stands at two places. */
  ghost predicate UniqueLocals(p: seq<Line>) {
    forall i, j :: 0 <= i < j < |p| && IsLocal(p[i]) && IsLocal(p[j]) ==> p[i].name != p[j].name
  }

  lemma LocalsJoin(a: seq<Line>, b: seq<Line>)
    ensures Locals(a + b) == Locals(a) + Locals(b)
    ensures UniqueLocals(a) && UniqueLocals(b) && Locals(a) !! Locals(b) ==> UniqueLocals(a + b)
  {
    var c := a + b;
    assert forall i :: 0 <= i < |a| ==> c[i] == a[i];
    assert forall i :: 0 <= i < |b| ==> c[|a| + i] == b[i];
    if UniqueLocals(a) && UniqueLocals(b) && Locals(a) !! Locals(b) {
      forall i, j | 0 <= i < j < |c| && IsLocal(c[i]) && IsLocal(c[j])
        ensures c[i].name != c[j].name
      {
        if i < |a| <= j {
          assert c[j] == b[j - |a|];
          assert c[i].name in Locals(a) && c[j].name in Locals(b);
        }
      }
    }
  }

  /** With the shorter function name, the other name's underscore falls into the mark. */
  lemma ShorterName(f: string, x: string, g: string, y: string)
    requires MarkOf(f, x) == MarkOf(g, y) && |f| < |g|
    ensures '_' in x
  {
    var s := MarkOf(f, x);
    assert s[|g| + 1] == '_' && s[|f| + 2..] == x;
    assert x[|g| - |f| - 1] == '_';
  }

  /** A function name and a mark without underscores can be read back from a local label. */
  lemma MarkInjective(f: string, x: string, g: string, y: string)
    requires '_' !in x && '_' !in y && MarkOf(f, x) == MarkOf(g, y)
    ensures f == g && x == y
  {
    if |f| < |g| {
      ShorterName(f, x, g, y);
    } else if |g| < |f| {
      ShorterName(g, y, f, x);
    } else {
      var s := MarkOf(f, x);
      assert s[1..|f| + 1] == f && MarkOf(g, y)[1..|f| + 1] == g;
      assert s[|f| + 2..] == x && MarkOf(g, y)[|f| + 2..] == y;
    }
  }

  lemma LabelNamePlain(n: nat)
    ensures '_' !in LabelName(n) && LabelName(n) != "epilogue"
  {
    assert LabelName(n)[0] == 'L';
  }

  /** Marks a function's code may define: generated label names. */
  ghost predicate PlainMarks(code: seq<Instr>) {
    forall i :: 0 <= i < |code| && code[i].LabelIR? ==> '_' !in code[i].mark && code[i].mark != "epilogue"
  }

  /** The local labels the body of function `fn` gives rise to. */
  function LocalsOf(fn: string, code: seq<Instr>): set<string> {
    (set x | x in Defined(code) :: MarkOf(fn, x))
    + (if HasExit(code) then {MarkOf(fn, "epilogue")} else {})
  }

  predicate HasExit(code: seq<Instr>) {
    exists i :: 0 <= i < |code| && code[i].FunctionExitIR?
  }

  /** Code after the entry of function `fn`, with one exit, its own, at the end. */
  ghost predicate IsBody(fn: string, code: seq<Instr>) {
    && (forall i :: 0 <= i < |code| ==> !code[i].FunctionEntryIR?)
    && (forall i :: 0 <= i < |code| && code[i].FunctionExitIR? ==> i == |code| - 1 && code[i].name == fn)
    && (forall i :: 0 <= i < |code| && code[i].StringLiteralIR? ==> !("." <= code[i].mark))
    && PlainMarks(code)
  }

  lemma InstrLocals(m: Assignment, c: Context, i: Instr)
    requires IsBody(c.fn, [i])
    ensures UniqueLocals(GenInstr(m, c, i))
    ensures Locals(GenInstr(m, c, i))
            == if i.LabelIR? then {MarkOf(c.fn, i.mark)}
               else if i.FunctionExitIR? then {MarkOf(c.fn, "epilogue")} else {}
  {
    var lines := GenInstr(m, c, i);
    assert [i][0] == i;
    if i.LabelIR? {
      assert lines[0].name in Locals(lines);
    } else if i.FunctionExitIR? {
      assert "." + i.name + "_epilogue" == MarkOf(c.fn, "epilogue");
      assert lines[1].name in Locals(lines);
    } else if !i.StringLiteralIR? {
      NoLabelLines(m, c, i);
    }
  }

  ghost predicate NoLocals(ls: seq<Line>) {
    forall k :: 0 <= k < |ls| ==> !IsLocal(ls[k])
  }

  ghost predicate NoLabels(ls: seq<Line>) {
    forall k :: 0 <= k < |ls| ==> !ls[k].Label?
  }

  lemma OperandNoLabels(a: string)
    ensures NoLabels(OperandLines(a))
  {
    hide IsStringLabel;
  }

  lemma BinaryNoLabels(op: BinOp, rd: Reg, l: Reg, r: Reg)
    ensures NoLabels(BinaryLines(op, rd, l, r))
  {
  }

  lemma NoLabelLines(m: Assignment, c: Context, i: Instr)
    requires !i.LabelIR? && !i.FunctionEntryIR? && !i.FunctionExitIR? && !i.StringLiteralIR?
    ensures NoLabels(GenInstr(m, c, i))
  {
    hide OperandLines, BinaryLines, ParamLines, OperandReg, MarkOf, Escape;
    match i
    case BinaryOpIR(t, op, a, b) =>
      OperandNoLabels(a);
      OperandNoLabels(b);
      BinaryNoLabels(op, RegOf(m, t), OperandReg(m, a), OperandReg(m, b));
    case UnaryOpIR(_, _, a) => OperandNoLabels(a);
    case AssignIR(_, a) => OperandNoLabels(a);
    case LoadIR(_, a) => OperandNoLabels(a);
    case StoreIR(a, v) =>
      OperandNoLabels(a);
      OperandNoLabels(v);
    case CondGotoIR(a, _, _) => OperandNoLabels(a);
    case CallIR(_, _, _) => NoLabelParams(m, FirstFour(c.pend), 0);
    case ReturnIR(v) =>
      if v.Some? {
        OperandNoLabels(v.value);
      }
    case _ =>
  }

  lemma {:induction false} NoLabelParams(m: Assignment, pend: seq<string>, k: nat)
    requires k + |pend| <= 4
    ensures NoLabels(ParamLines(m, pend, k))
    decreases pend
  {
    if pend != [] {
      OperandNoLabels(pend[0]);
      NoLabelParams(m, pend[1..], k + 1);
    }
  }

  lemma {:induction false} BodyLocals(m: Assignment, c: Context, code: seq<Instr>)
    requires IsBody(c.fn, code) && UniqueLabels(code)
    ensures UniqueLocals(GenCode(m, c, code)) && Locals(GenCode(m, c, code)) == LocalsOf(c.fn, code)
    decreases |code|
  {
    if code != [] {
      var (i, rest) := (code[0], code[1..]);
      BodyParts(c.fn, i, rest, code);
      InstrLocals(m, c, i);
      BodyLocals(m, Next(c, i), rest);
      hide IsBody, UniqueLabels, GenInstr, LocalsOf, Locals, UniqueLocals;
      LocalsJoin(GenInstr(m, c, i), GenCode(m, Next(c, i), rest));
      LocalsOfCons(c.fn, i, rest);
    }
  }

  lemma BodyParts(fn: string, i: Instr, rest: seq<Instr>, code: seq<Instr>)
    requires code != [] && i == code[0] && rest == code[1..] && IsBody(fn, code) && UniqueLabels(code)
    ensures code == [i] + rest && IsBody(fn, [i]) && IsBody(fn, rest) && UniqueLabels(rest)
  {
    assert forall k :: 0 <= k < |rest| ==> rest[k] == code[k + 1];
    Joined([i], rest);
  }

  lemma LocalsOfCons(fn: string, i: Instr, rest: seq<Instr>)
    requires IsBody(fn, [i] + rest) && UniqueLabels([i] + rest)
    ensures var one := if i.LabelIR? then {MarkOf(fn, i.mark)}
                       else if i.FunctionExitIR? then {MarkOf(fn, "epilogue")} else {};
            LocalsOf(fn, [i] + rest) == one + LocalsOf(fn, rest) && one !! LocalsOf(fn, rest)
  {
    hide IsBody, UniqueLabels, Defined, HasExit, MarkOf;
    DefinedCons(i, rest);
    ExitsCons(fn, i, rest);
    if i.LabelIR? {
      PlainCons(fn, i, rest);
      if MarkOf(fn, "epilogue") == MarkOf(fn, i.mark) {
        MarkInjective(fn, "epilogue", fn, i.mark);
      }
      forall y | y in Defined(rest)
        ensures MarkOf(fn, y) != MarkOf(fn, i.mark)
      {
        if MarkOf(fn, y) == MarkOf(fn, i.mark) {
          MarkInjective(fn, y, fn, i.mark);
        }
      }
    }
  }

  lemma DefinedCons(i: Instr, rest: seq<Instr>)
    requires UniqueLabels([i] + rest)
    ensures Defined([i] + rest) == (if i.LabelIR? then {i.mark} else {}) + Defined(rest)
    ensures i.LabelIR? ==> i.mark !in Defined(rest)
  {
    Joined([i], rest);
    assert i.LabelIR? ==> [i][0].mark in Defined([i]);
    assert forall k :: 0 <= k < |rest| ==> rest[k] == ([i] + rest)[k + 1];
    assert ([i] + rest)[0] == i;
  }

  lemma ExitsCons(fn: string, i: Instr, rest: seq<Instr>)
    requires IsBody(fn, [i] + rest)
    ensures HasExit([i] + rest) <==> i.FunctionExitIR? || HasExit(rest)
    ensures i.FunctionExitIR? ==> Defined(rest) == {} && !HasExit(rest)
  {
    var code := [i] + rest;
    assert forall k :: 0 <= k < |rest| ==> rest[k] == code[k + 1];
    assert code[0] == i;
  }

  lemma PlainCons(fn: string, i: Instr, rest: seq<Instr>)
    requires IsBody(fn, [i] + rest) && i.LabelIR?
    ensures '_' !in i.mark && i.mark != "epilogue" && forall y :: y in Defined(rest) ==> '_' !in y
  {
    var code := [i] + rest;
    assert forall k :: 0 <= k < |rest| ==> rest[k] == code[k + 1];
    assert code[0] == i;
  }

  // ------------------------------------------------------------------ whole programs

  /** The functions of a program by name, each generated from a source function. */
  ghost predicate WellNamed(fs: seq<Function>) {
    && (forall i, j :: 0 <= i < j < |fs| ==> fs[i].name != fs[j].name)
    && (forall i :: 0 <= i < |fs| ==> fs[i].body != [] && !("." <= fs[i].name))
  }

  /** The code of a generated function, between its entry and its end. */
  lemma LoweredBody(f: Function, g: GenState)
    requires f.body != [] && StringsPlain(g)
    ensures var code := LowerFunction(f, g).code;
            && code != [] && code[0] == FunctionEntryIR(f.name) && IsBody(f.name, code[1..]) && UniqueLabels(code[1..])
            && IsFunction(code) && StringsPlain(LowerFunction(f, g).g)
  {
    var g0 := g.(temps := 0, labels := 0);
    var B := LowerStmts(f.body, g0);
    var code := LowerFunction(f, g).code;
    StmtsLabels(f.body, g0);
    StmtsShape(f.body, g0);
    hide LowerStmts, StringsPlain;
    var body := B.code + [FunctionExitIR(f.name)];
    assert code[1..] == body;
    Joined(B.code, [FunctionExitIR(f.name)]);
    forall i | 0 <= i < |body| && body[i].StringLiteralIR?
      ensures !("." <= body[i].mark)
    {
      assert "str_" <= B.code[i].mark;
      assert B.code[i].mark[0] == 's';
    }
    forall i | 0 <= i < |B.code| && B.code[i].LabelIR?
      ensures '_' !in B.code[i].mark && B.code[i].mark != "epilogue"
    {
      assert B.code[i].mark in Defined(B.code);
      var k: nat :| B.code[i].mark == LabelName(k);
      LabelNamePlain(k);
    }
  }

  /** String labels already handed out start like one. */
  ghost predicate StringsPlain(g: GenState) {
    forall s :: s in g.strings ==> "str_" <= g.strings[s]
  }

  /** Generated code has no entries, no exits, and string labels that look like one. */
  ghost predicate Inner(code: seq<Instr>) {
    forall i :: 0 <= i < |code| ==>
                  && !code[i].FunctionEntryIR? && !code[i].FunctionExitIR?
                  && (code[i].StringLiteralIR? ==> "str_" <= code[i].mark)
  }

  lemma {:induction false} ExprShape(e: Expr, g: GenState)
    requires StringsPlain(g)
    ensures Inner(LowerExpr(e, g).code) && StringsPlain(LowerExpr(e, g).g)
    decreases e, 1
  {
    hide LowerArgs, LowerElementStore, Inner, TempName, Decimal.Show;
    InnerTail([]);
    match e
    case Identifier(_) =>
    case IntegerLiteral(_) =>
    case CharLiteral(_) =>
    case StringLiteral(s) => StringShape(s, g);
    case BinaryOp(op, l, r) =>
      var L := LowerExpr(l, g);
      var R := LowerExpr(r, L.g);
      ExprShape(l, g);
      ExprShape(r, L.g);
      InnerJoin(L.code, R.code);
      InnerEnd(L.code + R.code, [BinaryOpIR(TempName(R.g.temps), op, L.result, R.result)]);
    case UnaryOp(op, a) =>
      var A := LowerExpr(a, g);
      ExprShape(a, g);
      var t := TempName(A.g.temps);
      InnerEnd(A.code, [if op == Deref then LoadIR(t, A.result) else UnaryOpIR(t, op, A.result)]);
    case Assignment(t, v) =>
      var V := LowerExpr(v, g);
      ExprShape(v, g);
      if t.Identifier? {
        InnerEnd(V.code, [AssignIR(t.name, V.result)]);
      } else if t.ArrayAccess? {
        StoreShape(t, V.result, V.g);
        InnerJoin(V.code, LowerElementStore(t, V.result, V.g).code);
      } else if t.UnaryOp? && t.uop == Deref {
        var P := LowerExpr(t.operand, V.g);
        ExprShape(t.operand, V.g);
        InnerJoin(V.code, P.code);
        InnerEnd(V.code + P.code, [StoreIR(P.result, V.result)]);
      }
    case FunctionCall(f, args) =>
      var A := LowerArgs(args, g);
      ArgsShape(args, g);
      InnerEnd(A.code, [CallIR(TempName(A.g.temps), f, |args|)]);
    case ArrayAccess(a, i) =>
      var A := LowerExpr(a, g);
      var I := LowerExpr(i, A.g);
      ExprShape(a, g);
      ExprShape(i, A.g);
      InnerJoin(A.code, I.code);
      var (t, u) := (TempName(I.g.temps), TempName(I.g.temps + 1));
      InnerEnd(A.code + I.code, [BinaryOpIR(t, Add, A.result, I.result), LoadIR(u, t)]);
  }

  lemma InnerJoin(a: seq<Instr>, b: seq<Instr>)
    requires Inner(a) && Inner(b)
    ensures Inner(a + b)
  {
  }

  lemma InnerTail(tail: seq<Instr>)
    requires forall i :: i in tail ==> !i.FunctionEntryIR? && !i.FunctionExitIR? && !i.StringLiteralIR?
    ensures Inner(tail)
  {
  }

  lemma InnerEnd(code: seq<Instr>, tail: seq<Instr>)
    requires Inner(code)
    requires forall i :: i in tail ==> !i.FunctionEntryIR? && !i.FunctionExitIR? && !i.StringLiteralIR?
    ensures Inner(code + tail)
  {
    InnerTail(tail);
    InnerJoin(code, tail);
  }

  lemma StringShape(s: string, g: GenState)
    requires StringsPlain(g)
    ensures var L := LowerExpr(StringLiteral(s), g);
            Inner(L.code) && StringsPlain(L.g)
  {
  }

  lemma {:induction false} StoreShape(t: Expr, value: string, g: GenState)
    requires t.ArrayAccess? && StringsPlain(g)
    ensures Inner(LowerElementStore(t, value, g).code) && StringsPlain(LowerElementStore(t, value, g).g)
    decreases t, 0
  {
    ExprShape(t.base, g);
    ExprShape(t.index, LowerExpr(t.base, g).g);
  }

  lemma {:induction false} ArgsShape(es: seq<Expr>, g: GenState)
    requires StringsPlain(g)
    ensures Inner(LowerArgs(es, g).code) && StringsPlain(LowerArgs(es, g).g)
    decreases es, 0
  {
    if es != [] {
      ExprShape(es[0], g);
      ArgsShape(es[1..], LowerExpr(es[0], g).g);
    }
  }

  lemma OptionalShape(e: Option<Expr>, g: GenState)
    requires StringsPlain(g)
    ensures Inner(LowerOptional(e, g).code) && StringsPlain(LowerOptional(e, g).g)
  {
    if e.Some? {
      ExprShape(e.value, g);
    }
  }

  lemma TestShape(test: Option<Expr>, lEnd: string, g: GenState)
    requires StringsPlain(g)
    ensures Inner(LowerTest(test, lEnd, g).code) && StringsPlain(LowerTest(test, lEnd, g).g)
  {
    if test.Some? {
      ExprShape(test.value, g);
    }
  }

  lemma {:induction false} StmtShape(s: Stmt, g: GenState)
    requires StringsPlain(g)
    ensures Inner(LowerStmt(s, g).code) && StringsPlain(LowerStmt(s, g).g)
    decreases s, 1
  {
    hide LowerExpr;
    match s
    case VarDecl(_, _, init) =>
      if init.Some? {
        ExprShape(init.value, g);
      }
    case CompoundStmt(ss) => StmtsShape(ss, g);
    case ExprStmt(e) => OptionalShape(e, g);
    case IfStmt(c, thn, els) =>
      ExprShape(c, g);
      var C := LowerExpr(c, g);
      var g1 := C.g.(labels := C.g.labels + 2);
      StmtShape(thn, g1);
      if els.Some? {
        StmtShape(els.value, LowerStmt(thn, g1).g);
      }
    case WhileStmt(c, body) =>
      WhileIsFor(c, body, g);
      ForShape(None, Some(c), None, body, g);
    case ForStmt(init, test, incr, body) => ForShape(init, test, incr, body, g);
    case ReturnStmt(v) =>
      if v.Some? {
        ExprShape(v.value, g);
      }
  }

  lemma {:induction false} ForShape(init: Option<Expr>, test: Option<Expr>, incr: Option<Expr>, body: Stmt, g: GenState)
    requires StringsPlain(g)
    ensures var s := ForStmt(init, test, incr, body);
            Inner(LowerStmt(s, g).code) && StringsPlain(LowerStmt(s, g).g)
    decreases body, 2
  {
    hide LowerExpr, LowerOptional, LowerTest;
    OptionalShape(init, g);
    var I := LowerOptional(init, g);
    var g1 := I.g.(labels := I.g.labels + 2);
    var lEnd := LabelName(I.g.labels + 1);
    TestShape(test, lEnd, g1);
    var T := LowerTest(test, lEnd, g1);
    StmtShape(body, T.g);
    OptionalShape(incr, LowerStmt(body, T.g).g);
  }

  lemma {:induction false} StmtsShape(ss: seq<Stmt>, g: GenState)
    requires StringsPlain(g)
    ensures Inner(LowerStmts(ss, g).code) && StringsPlain(LowerStmts(ss, g).g)
    decreases ss, 0
  {
    if ss != [] {
      StmtShape(ss[0], g);
      StmtsShape(ss[1..], LowerStmt(ss[0], g).g);
    }
  }

  /** The code of each function of a program. */
  function Lowered(fs: seq<Function>, g: GenState): seq<seq<Instr>> {
    if fs == [] then []
    else Lowered(fs[..|fs| - 1], g) + [LowerFunction(fs[|fs| - 1], LoweredState(fs[..|fs| - 1], g)).code]
  }

  function LoweredState(fs: seq<Function>, g: GenState): GenState {
    if fs == [] then g else LowerFunction(fs[|fs| - 1], LoweredState(fs[..|fs| - 1], g)).g
  }

  lemma {:induction false} LoweredSize(fs: seq<Function>, g: GenState)
    ensures |Lowered(fs, g)| == |fs|
  {
    if fs != [] {
      LoweredSize(fs[..|fs| - 1], g);
    }
  }

  /** One function's local labels are its own name's. */
  lemma FunctionLocals(m: Assignment, f: Function, g: GenState)
    requires f.body != [] && StringsPlain(g) && !("." <= f.name)
    ensures var lines := GenCode(m, Context("", []), LowerFunction(f, g).code);
            UniqueLocals(lines) && OwnLocals(f.name, lines)
    ensures StringsPlain(LowerFunction(f, g).g)
  {
    hide *;
    LoweredBody(f, g);
    var code := LowerFunction(f, g).code;
    var (c, head) := (Context(f.name, []), GenInstr(map[], Context("", []), code[0]));
    BodyLocals(m, c, code[1..]);
    EntryAhead(m, code);
    LocalsJoin(head, GenCode(m, c, code[1..]));
    OwnMarks(f.name, code[1..], GenCode(m, Context("", []), code));
  }

  /** The entry of a function has no local labels. */
  lemma EntryAhead(m: Assignment, code: seq<Instr>)
    requires code != [] && code[0].FunctionEntryIR? && !("." <= code[0].name)
    ensures var head := GenInstr(map[], Context("", []), code[0]);
            && Locals(head) == {} && UniqueLocals(head)
            && GenCode(m, Context("", []), code) == head + GenCode(m, Context(code[0].name, []), code[1..])
  {
    assert NoLocals(GenInstr(m, Context("", []), code[0]));
  }

  lemma OwnMarks(fn: string, code: seq<Instr>, lines: seq<Line>)
    requires Locals(lines) == LocalsOf(fn, code) && IsBody(fn, code)
    ensures OwnLocals(fn, lines)
  {
    hide MarkOf, IsLocal, Locals;
    forall x | x in LocalsOf(fn, code)
      ensures exists y :: '_' !in y && x == MarkOf(fn, y)
    {
      if x == MarkOf(fn, "epilogue") {
        assert '_' !in "epilogue";
      }
    }
  }

  ghost predicate OwnLocals(fn: string, lines: seq<Line>) {
    forall x :: x in Locals(lines) ==> exists y :: '_' !in y && x == MarkOf(fn, y)
  }

  /** The local labels of `lines` are made of names of `fs`. */
  ghost predicate OwnedBy(fs: seq<Function>, lines: seq<Line>) {
    forall x :: x in Locals(lines) ==> exists i, y :: 0 <= i < |fs| && '_' !in y && x == MarkOf(fs[i].name, y)
  }

  lemma OwnedJoin(before: seq<Function>, a: seq<Line>, f: Function, b: seq<Line>)
    requires OwnedBy(before, a) && OwnLocals(f.name, b) && forall i :: 0 <= i < |before| ==> before[i].name != f.name
    ensures Locals(a) !! Locals(b) && OwnedBy(before + [f], a + b)
  {
    LocalsJoin(a, b);
    hide Locals, MarkOf;
    forall x | x in Locals(a) && x in Locals(b)
      ensures false
    {
      var i, y :| 0 <= i < |before| && '_' !in y && x == MarkOf(before[i].name, y);
      var z :| '_' !in z && x == MarkOf(f.name, z);
      MarkInjective(before[i].name, y, f.name, z);
    }
    var fs := before + [f];
    forall x | x in Locals(a)
      ensures exists i, y :: 0 <= i < |fs| && '_' !in y && x == MarkOf(fs[i].name, y)
    {
      var i, y :| 0 <= i < |before| && '_' !in y && x == MarkOf(before[i].name, y);
      assert fs[i] == before[i];
    }
    forall x | x in Locals(b)
      ensures exists i, y :: 0 <= i < |fs| && '_' !in y && x == MarkOf(fs[i].name, y)
    {
      var y :| '_' !in y && x == MarkOf(f.name, y);
      assert fs[|before|] == f;
    }
  }

  /** Lowering hands out string labels that look like one, whatever the functions are called. */
  lemma {:induction false} StatePlain(fs: seq<Function>, g: GenState)
    requires StringsPlain(g) && forall i :: 0 <= i < |fs| ==> fs[i].body != []
    ensures StringsPlain(LoweredState(fs, g))
    decreases fs
  {
    if fs != [] {
      StatePlain(fs[..|fs| - 1], g);
      LoweredBody(fs[|fs| - 1], LoweredState(fs[..|fs| - 1], g));
    }
  }

  /** Over a whole program the local labels are pairwise distinct. */
  lemma {:induction false} ProgramLocals(maps: seq<Assignment>, fs: seq<Function>, g: GenState)
    requires WellNamed(fs) && StringsPlain(g) && |maps| == |fs|
    ensures |Lowered(fs, g)| == |fs| && UniqueLocals(GenProgram(maps, Lowered(fs, g)))
    ensures OwnedBy(fs, GenProgram(maps, Lowered(fs, g)))
    decreases fs
  {
    hide *;
    LoweredSize(fs, g);
    if fs == [] {
      NoLines(maps, g);
    } else {
      var (before, f) := (fs[..|fs| - 1], fs[|fs| - 1]);
      NamedParts(fs);
      ProgramLocals(maps[..|fs| - 1], before, g);
      StatePlain(before, g);
      FunctionLocals(maps[|fs| - 1], f, LoweredState(before, g));
      LastFunction(maps, fs, g);
      var code := LowerFunction(f, LoweredState(before, g)).code;
      var (a, b) := (GenProgram(maps[..|fs| - 1], Lowered(before, g)), GenCode(maps[|fs| - 1], Context("", []), code));
      OwnedJoin(before, a, f, b);
      LocalsJoin(a, b);
      assert before + [f] == fs;
    }
  }

  lemma NoLines(maps: seq<Assignment>, g: GenState)
    requires maps == []
    ensures Lowered([], g) == [] && UniqueLocals(GenProgram(maps, Lowered([], g)))
    ensures OwnedBy([], GenProgram(maps, Lowered([], g)))
  {
  }

  lemma NamedParts(fs: seq<Function>)
    requires WellNamed(fs) && fs != []
    ensures var (before, f) := (fs[..|fs| - 1], fs[|fs| - 1]);
            && WellNamed(before) && f.body != [] && !("." <= f.name)
            && (forall i :: 0 <= i < |before| ==> before[i].name != f.name && before[i].body != [])
  {
  }

  lemma LastFunction(maps: seq<Assignment>, fs: seq<Function>, g: GenState)
    requires fs != [] && |maps| == |fs| == |Lowered(fs, g)|
    ensures var (before, f) := (fs[..|fs| - 1], fs[|fs| - 1]);
            && |Lowered(before, g)| == |before|
            && GenProgram(maps, Lowered(fs, g))
               == GenProgram(maps[..|fs| - 1], Lowered(before, g))
                  + GenCode(maps[|fs| - 1], Context("", []), LowerFunction(f, LoweredState(before, g)).code)
  {
    hide GenCode, LowerFunction;
    LoweredSize(fs[..|fs| - 1], g);
    assert Lowered(fs, g)[..|fs| - 1] == Lowered(fs[..|fs| - 1], g);
  }

  /** The machine finds a local label where it stands. */
  lemma {:induction false} FindIsDefinition(p: seq<Line>, i: nat)
    requires UniqueLocals(p) && i < |p| && IsLocal(p[i])
    ensures ArmMachine.Find(p, p[i].name) == i
    decreases |p|
  {
    if i > 0 {
      var rest := p[1..];
      assert forall j :: 0 <= j < |rest| ==> rest[j] == p[j + 1];
      FindIsDefinition(rest, i - 1);
      assert p[0] != Label(p[i].name);
    }
  }
}
