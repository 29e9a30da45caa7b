/** The source programs the target can run: what a source function must satisfy for every
    instruction generated for it to be one the assembly matches. */
module ArmDomain {
  import opened Words
  import opened Ast
  import opened IrGenerator
  import opened IrMachine
  import opened RegisterAllocation
  import opened CodeGeneration
  import opened ArmMachine
  import opened ArmSimulation
  import opened Domain
  import Decimal
  import Divmod
  import Labels

  // ------------------------------------------------------------------ source programs

  predicate IsLiteral(e: Expr) {
    e.IntegerLiteral? || e.CharLiteral?
  }

  /** The same constant, or not two constants: both go through r12. */
  predicate OneConstant(l: Expr, r: Expr) {
    IsLiteral(l) && IsLiteral(r) ==> LiteralText(l) == LiteralText(r)
  }

  function LiteralText(e: Expr): string
    requires IsLiteral(e)
  {
    Decimal.Show(if e.IntegerLiteral? then e.value else e.ch as nat)
  }

  predicate CallFree(e: Expr)
    decreases e
  {
    match e
    case BinaryOp(_, l, r) => CallFree(l) && CallFree(r)
    case UnaryOp(_, a) => CallFree(a)
    case Assignment(_, v) => CallFree(v)
    case FunctionCall(_, _) => false
    case _ => true
  }

  /** A function the program may call, with as many arguments as it takes: no system call, and not
      the division runtime. */
  predicate Callee(arity: Arity, f: string, n: nat) {
    arity(f) == n <= 4 && GlobalName(f) && f !in SYSCALLS && f != "__aeabi_idiv" && f != "__aeabi_idivmod"
  }

  /** At most one constant per operation; calls of known functions, whose later arguments make no
      calls and assign no variable an earlier argument is read from. */
  predicate Fits(arity: Arity, e: Expr)
    decreases e, 1
  {
    match e
    case Identifier(x) => NameOk(x)
    case IntegerLiteral(_) => true
    case CharLiteral(_) => true
    case BinaryOp(_, l, r) => Fits(arity, l) && Fits(arity, r) && OneConstant(l, r)
    case UnaryOp(op, a) => (op == Neg || op == Not) && Fits(arity, a)
    case Assignment(t, v) => t.Identifier? && NameOk(t.name) && Fits(arity, v)
    case FunctionCall(f, args) => Callee(arity, f, |args|) && ArgsFit(arity, args)
    case _ => false
  }

  predicate ArgsFit(arity: Arity, es: seq<Expr>)
    decreases es, 0
  {
    es == [] ||
    (&& Fits(arity, es[0]) && ArgsFit(arity, es[1..]) && NoCalls(es[1..])
     && (ResultVar(es[0]).Some? ==> ResultVar(es[0]).value !in AssignedIn(es[1..])))
  }

  predicate NoCalls(es: seq<Expr>) {
    forall e :: e in es ==> CallFree(e)
  }

  predicate OptionFits(arity: Arity, e: Option<Expr>) {
    e.Some? ==> Fits(arity, e.value)
  }

  predicate StmtFits(arity: Arity, s: Stmt)
    decreases s, 1
  {
    match s
    case VarDecl(x, _, init) => NameOk(x) && OptionFits(arity, init)
    case CompoundStmt(ss) => StmtsFit(arity, ss)
    case ExprStmt(e) => OptionFits(arity, e)
    case IfStmt(c, thn, els) => Fits(arity, c) && StmtFits(arity, thn) && (els.Some? ==> StmtFits(arity, els.value))
    case WhileStmt(c, body) => Fits(arity, c) && StmtFits(arity, body)
    case ForStmt(init, test, incr, body) =>
      OptionFits(arity, init) && OptionFits(arity, test) && OptionFits(arity, incr) && StmtFits(arity, body)
    case ReturnStmt(v) => OptionFits(arity, v)
  }

  predicate StmtsFit(arity: Arity, ss: seq<Stmt>)
    decreases ss, 0
  {
    ss == [] || (StmtFits(arity, ss[0]) && StmtsFit(arity, ss[1..]))
  }

  // ------------------------------------------------------------------ guards

  /** The world of a machine that comes to an end with every operation the target does. */
  ghost predicate GetsPast(w: World) {
    forall op, a: word, b: word :: (op == Div || op == Mod ==> Divmod.Returns(a, b)) ==> w.Result(op, a, b).Some?
  }

  /** Divisions the machine gets past whatever the values: by 0, and of most constants. */
  lemma SafeDivisions(w: World, x: string, y: string, n: nat, op: BinOp)
    requires GetsPast(w) && Wrap(n) != -TWO31 && (op == Div || op == Mod)
    ensures Survives(w, {x}, op, Identifier(y), Identifier(x))
    ensures Survives(w, {x}, op, IntegerLiteral(n), Identifier(y))
  {
    forall a: word
      ensures w.Result(op, a, 0).Some?
    {
      Divmod.SmallReturns(a, 0);
    }
    forall b: word
      ensures w.Result(op, Wrap(n), b).Some?
    {
      Divmod.SmallReturns(Wrap(n), b);
    }
  }

  /** The usual guards are in the domain: a division of anything by the variable that is tested. */
  lemma GuardsAreScalar(w: World, x: string, y: string, op: BinOp)
    requires GetsPast(w) && Always(w, LogAnd) && Always(w, LogOr) && NameOk(x) && NameOk(y) && (op == Div || op == Mod)
    ensures var q := BinaryOp(op, Identifier(y), Identifier(x));
            && ScalarExpr(w, BinaryOp(LogAnd, Identifier(x), q))
            && ScalarExpr(w, BinaryOp(LogAnd, BinaryOp(Ne, Identifier(x), IntegerLiteral(0)), q))
            && ScalarExpr(w, BinaryOp(LogOr, BinaryOp(Eq, Identifier(x), IntegerLiteral(0)), q))
  {
    var (vx, q) := (Identifier(x), BinaryOp(op, Identifier(y), Identifier(x)));
    SafeDivisions(w, x, y, 1, op);
    hide Survives, NameOk, GetsPast;
    GuardIsScalar(w, LogAnd, vx, q);
    GuardIsScalar(w, LogAnd, BinaryOp(Ne, vx, IntegerLiteral(0)), q);
    GuardIsScalar(w, LogOr, BinaryOp(Eq, vx, IntegerLiteral(0)), q);
  }

  /** So are a division of a constant by anything, and a shift of anything by anything. */
  lemma OperandsAreScalar(w: World, x: string, y: string, n: nat, op: BinOp)
    requires GetsPast(w) && Always(w, LogAnd) && NameOk(x) && NameOk(y) && Wrap(n) != -TWO31 && (op == Div || op == Mod)
    ensures ScalarExpr(w, BinaryOp(LogAnd, Identifier(x), BinaryOp(op, IntegerLiteral(n), Identifier(y))))
    ensures ScalarExpr(w, BinaryOp(LogAnd, Identifier(x), BinaryOp(Shl, Identifier(y), Identifier(x))))
  {
    SafeDivisions(w, x, y, n, op);
    assert Survives(w, {x}, Shl, Identifier(y), Identifier(x));
    hide Survives, NameOk, GetsPast;
    GuardIsScalar(w, LogAnd, Identifier(x), BinaryOp(op, IntegerLiteral(n), Identifier(y)));
    GuardIsScalar(w, LogAnd, Identifier(x), BinaryOp(Shl, Identifier(y), Identifier(x)));
  }

  lemma GuardIsScalar(w: World, op: BinOp, l: Expr, r: Expr)
    requires ScalarExpr(w, l) && ScalarExpr(w, r) && Assigned(r) == {} && Always(w, op)
    requires Harmless(w, ZerosOf(op, l), r)
    ensures ScalarExpr(w, BinaryOp(op, l, r))
  {
  }

  // ------------------------------------------------------------------ the code generated for them

  /** What is asked of an instruction apart from its names having registers. */
  predicate Shape(arity: Arity, c: Context, i: Instr) {
    match i
    case BinaryOpIR(t, op, a, b) =>
      && IsName(t) && t !in c.pend && !IsStringLabel(a) && !IsStringLabel(b)
      && (IsConstant(a) && IsConstant(b) ==> a == b)
      && (op == LogAnd ==> t != b)
    case UnaryOpIR(t, op, a) => IsName(t) && t !in c.pend && !IsStringLabel(a) && (op == Neg || op == Not)
    case AssignIR(x, a) => IsName(x) && x !in c.pend && !IsStringLabel(a)
    case ParamIR(_) => true
    case CallIR(t, f, n) =>
      IsName(t) && |c.pend| == n && Callee(arity, f, n) && forall a :: a in c.pend ==> !IsStringLabel(a)
    case LabelIR(_) => c.pend == []
    case GotoIR(_) => c.pend == []
    case CondGotoIR(a, _, _) => c.pend == [] && !IsStringLabel(a)
    case ReturnIR(v) => c.pend == [] && (v.Some? ==> !IsStringLabel(v.value))
    case FunctionEntryIR(_) => c.pend == []
    case FunctionExitIR(_) => c.pend == []
    case _ => false
  }

  predicate AllShaped(arity: Arity, c: Context, code: seq<Instr>)
    decreases code
  {
    code == [] || (Shape(arity, c, code[0]) && AllShaped(arity, Next(c, code[0]), code[1..]))
  }

  /** With a register for every name used, a well-shaped instruction is one the target can do. */
  lemma ShapeIsOk(arity: Arity, m: Assignment, c: Context, i: Instr)
    requires Shape(arity, c, i) && Uses(c, i) <= m.Keys
    ensures InstrOk(arity, m, c, i)
  {
    if i.CallIR? {
      assert FirstFour(c.pend) == c.pend;
      forall a | a in c.pend && IsName(a)
        ensures a in m
      {
        assert a in NamesIn(c.pend);
      }
    }
  }

  lemma {:induction false} ShapedAppend(arity: Arity, c: Context, a: seq<Instr>, b: seq<Instr>)
    ensures AllShaped(arity, c, a + b) <==> AllShaped(arity, c, a) && AllShaped(arity, After(c, a), b)
    decreases a
  {
    if a == [] {
      assert a + b == b;
    } else {
      assert (a + b)[1..] == a[1..] + b;
      ShapedAppend(arity, Next(c, a[0]), a[1..], b);
    }
  }

  lemma ShapedOne(arity: Arity, c: Context, i: Instr)
    ensures AllShaped(arity, c, [i]) <==> Shape(arity, c, i)
    ensures After(c, [i]) == Next(c, i)
  {
    assert [i][1..] == [];
  }

  /** Well-shaped from `c` to `d`. */
  ghost predicate Leads(arity: Arity, c: Context, code: seq<Instr>, d: Context) {
    AllShaped(arity, c, code) && After(c, code) == d
  }

  lemma LeadsJoin(arity: Arity, c: Context, a: seq<Instr>, d: Context, b: seq<Instr>, e: Context)
    requires Leads(arity, c, a, d) && Leads(arity, d, b, e)
    ensures Leads(arity, c, a + b, e)
  {
    ShapedAppend(arity, c, a, b);
    AfterAppend(c, a, b);
  }

  lemma LeadsOne(arity: Arity, c: Context, i: Instr)
    requires Shape(arity, c, i)
    ensures Leads(arity, c, [i], Next(c, i))
  {
    ShapedOne(arity, c, i);
  }

  lemma LeadsNowhere(arity: Arity, c: Context)
    ensures Leads(arity, c, [], c)
  {
  }

  /** A waiting parameter stays what it was while the code of `e` runs from state `g` on. */
  ghost predicate Waiting(a: string, written: set<string>, temps: nat) {
    !IsStringLabel(a) && a !in written && (TempNumber(a).Some? ==> TempNumber(a).value < temps)
  }

  ghost predicate AllWaiting(pend: seq<string>, written: set<string>, temps: nat) {
    forall a :: a in pend ==> Waiting(a, written, temps)
  }

  /** A fresh temporary is a name, and no waiting parameter. */
  lemma FreshTemp(pend: seq<string>, written: set<string>, n: nat)
    requires AllWaiting(pend, written, n)
    ensures TempName(n) !in pend && IsName(TempName(n))
  {
    TempNameNumber(n);
    assert TempName(n)[0] == 't';
  }

  /** What the operand an expression leaves its value in looks like. */
  lemma ResultShape(arity: Arity, e: Expr, g: GenState)
    requires Fits(arity, e)
    ensures var E := LowerExpr(e, g);
            && !IsStringLabel(E.result) && (IsConstant(E.result) <==> IsLiteral(e))
            && (IsLiteral(e) ==> E.result == LiteralText(e))
            && (TempNumber(E.result).Some? ==> TempNumber(E.result).value + 1 == E.g.temps)
            && (TempNumber(E.result).None? && !IsLiteral(e) ==> ResultVar(e) == Some(E.result))
  {
    match e
    case Identifier(_) =>
    case IntegerLiteral(n) => LiteralResult(n);
    case CharLiteral(ch) => LiteralResult(ch as nat);
    case BinaryOp(_, l, r) => TempResult(LowerExpr(r, LowerExpr(l, g).g).g.temps);
    case UnaryOp(_, a) => TempResult(LowerExpr(a, g).g.temps);
    case Assignment(_, _) =>
    case FunctionCall(_, args) => TempResult(LowerArgs(args, g).g.temps);
    case _ =>
  }

  lemma TempResult(n: nat)
    ensures TempNumber(TempName(n)) == Some(n) && IsName(TempName(n))
  {
    TempNameNumber(n);
    assert TempName(n)[0] == 't';
  }

  lemma LiteralResult(n: nat)
    ensures IsConstant(Decimal.Show(n)) && TempNumber(Decimal.Show(n)).None?
  {
    Decimal.ReadShow(n);
    assert Decimal.Show(n)[0] != 't';
  }

  /** Temporaries only count up. */
  lemma {:induction false} TempsGrow(arity: Arity, e: Expr, g: GenState)
    requires Fits(arity, e)
    ensures LowerExpr(e, g).g.temps >= g.temps
    decreases e, 1
  {
    match e
    case BinaryOp(_, l, r) =>
      TempsGrow(arity, l, g);
      TempsGrow(arity, r, LowerExpr(l, g).g);
    case UnaryOp(_, a) => TempsGrow(arity, a, g);
    case Assignment(_, v) => TempsGrow(arity, v, g);
    case FunctionCall(_, args) => TempsGrowArgs(arity, args, g);
    case _ =>
  }

  lemma {:induction false} TempsGrowArgs(arity: Arity, es: seq<Expr>, g: GenState)
    requires ArgsFit(arity, es)
    ensures LowerArgs(es, g).g.temps >= g.temps
    decreases es, 0
  {
    if es != [] {
      TempsGrow(arity, es[0], g);
      TempsGrowArgs(arity, es[1..], LowerExpr(es[0], g).g);
    }
  }

  lemma WaitingOn(pend: seq<string>, written: set<string>, temps: nat, written': set<string>, temps': nat)
    requires AllWaiting(pend, written, temps) && written' <= written && temps <= temps'
    ensures AllWaiting(pend, written', temps')
  {
  }

  /** The code of a fitting expression leaves the waiting parameters as they are. */
  lemma {:induction false} ExprShaped(arity: Arity, e: Expr, g: GenState, c: Context)
    requires Fits(arity, e) && AllWaiting(c.pend, Assigned(e), g.temps) && (c.pend == [] || CallFree(e))
    ensures Leads(arity, c, LowerExpr(e, g).code, c)
    decreases e, 1
  {
    hide *;
    match e
    case Identifier(_) => SimpleShaped(arity, e, g, c);
    case IntegerLiteral(_) => SimpleShaped(arity, e, g, c);
    case CharLiteral(_) => SimpleShaped(arity, e, g, c);
    case BinaryOp(op, l, r) =>
      BinaryParts(arity, op, l, r, g);
      var L := LowerExpr(l, g);
      var R := LowerExpr(r, L.g);
      TempsGrow(arity, l, g);
      TempsGrow(arity, r, L.g);
      WaitingOn(c.pend, Assigned(e), g.temps, Assigned(l), g.temps);
      WaitingOn(c.pend, Assigned(e), g.temps, Assigned(r), L.g.temps);
      ExprShaped(arity, l, g, c);
      ExprShaped(arity, r, L.g, c);
      LeadsJoin(arity, c, L.code, c, R.code, c);
      WaitingOn(c.pend, Assigned(e), g.temps, Assigned(e), R.g.temps);
      BinaryShaped(arity, op, l, r, g, c, Assigned(e));
      LeadsJoin(arity, c, L.code + R.code, c, [BinaryOpIR(TempName(R.g.temps), op, L.result, R.result)], c);
    case UnaryOp(op, a) =>
      UnaryParts(arity, op, a, g);
      var A := LowerExpr(a, g);
      TempsGrow(arity, a, g);
      ExprShaped(arity, a, g, c);
      WaitingOn(c.pend, Assigned(e), g.temps, Assigned(e), A.g.temps);
      UnaryShaped(arity, op, a, g, c, Assigned(e));
      LeadsJoin(arity, c, A.code, c, [UnaryOpIR(TempName(A.g.temps), op, A.result)], c);
    case Assignment(t, v) =>
      AssignParts(arity, t, v, g);
      var V := LowerExpr(v, g);
      WaitingOn(c.pend, Assigned(e), g.temps, Assigned(v), g.temps);
      ExprShaped(arity, v, g, c);
      AssignShaped(arity, t, v, g, c);
      LeadsJoin(arity, c, V.code, c, [AssignIR(t.name, V.result)], c);
    case FunctionCall(f, args) =>
      CallParts(arity, f, args, g);
      var A := LowerArgs(args, g);
      WaitingOn(c.pend, Assigned(e), g.temps, AssignedIn(args), g.temps);
      var d := ArgsShaped(arity, args, g, c);
      CallShaped(arity, f, args, A.g, c, d);
      LeadsJoin(arity, c, A.code, d, [CallIR(TempName(A.g.temps), f, |args|)], c);
    case StringLiteral(_) => NotFit(arity, e);
    case ArrayAccess(_, _) => NotFit(arity, e);
  }

  lemma NotFit(arity: Arity, e: Expr)
    requires Fits(arity, e)
    ensures !e.StringLiteral? && !e.ArrayAccess?
  {
  }

  lemma SimpleShaped(arity: Arity, e: Expr, g: GenState, c: Context)
    requires e.Identifier? || e.IntegerLiteral? || e.CharLiteral?
    ensures Leads(arity, c, LowerExpr(e, g).code, c)
  {
  }

  lemma BinaryParts(arity: Arity, op: BinOp, l: Expr, r: Expr, g: GenState)
    requires Fits(arity, BinaryOp(op, l, r))
    ensures var e := BinaryOp(op, l, r);
            var L := LowerExpr(l, g);
            var R := LowerExpr(r, L.g);
            && Fits(arity, l) && Fits(arity, r) && OneConstant(l, r) && Assigned(e) == Assigned(l) + Assigned(r)
            && (CallFree(e) ==> CallFree(l) && CallFree(r))
            && LowerExpr(e, g).code == L.code + R.code + [BinaryOpIR(TempName(R.g.temps), op, L.result, R.result)]
  {
  }

  lemma UnaryParts(arity: Arity, op: UnOp, a: Expr, g: GenState)
    requires Fits(arity, UnaryOp(op, a))
    ensures var e := UnaryOp(op, a);
            var A := LowerExpr(a, g);
            && Fits(arity, a) && (op == Neg || op == Not) && Assigned(e) == Assigned(a)
            && (CallFree(e) ==> CallFree(a))
            && LowerExpr(e, g).code == A.code + [UnaryOpIR(TempName(A.g.temps), op, A.result)]
  {
  }

  lemma AssignParts(arity: Arity, t: Expr, v: Expr, g: GenState)
    requires Fits(arity, Assignment(t, v))
    ensures var e := Assignment(t, v);
            var V := LowerExpr(v, g);
            && t.Identifier? && NameOk(t.name) && Fits(arity, v) && Assigned(e) == Assigned(v) + {t.name}
            && (CallFree(e) ==> CallFree(v))
            && LowerExpr(e, g).code == V.code + [AssignIR(t.name, V.result)]
  {
  }

  lemma CallParts(arity: Arity, f: string, args: seq<Expr>, g: GenState)
    requires Fits(arity, FunctionCall(f, args))
    ensures var e := FunctionCall(f, args);
            var A := LowerArgs(args, g);
            && Callee(arity, f, |args|) && ArgsFit(arity, args) && Assigned(e) == AssignedIn(args) && !CallFree(e)
            && LowerExpr(e, g).code == A.code + [CallIR(TempName(A.g.temps), f, |args|)]
  {
  }

  lemma BinaryShaped(arity: Arity, op: BinOp, l: Expr, r: Expr, g: GenState, c: Context, written: set<string>)
    requires Fits(arity, l) && Fits(arity, r) && OneConstant(l, r)
    requires AllWaiting(c.pend, written, LowerExpr(r, LowerExpr(l, g).g).g.temps)
    ensures var L := LowerExpr(l, g);
            var R := LowerExpr(r, L.g);
            Leads(arity, c, [BinaryOpIR(TempName(R.g.temps), op, L.result, R.result)], c)
  {
    hide Fits, LowerExpr, AllWaiting, TempName, TempNumber, IsName, IsStringLabel, IsConstant;
    var L := LowerExpr(l, g);
    var R := LowerExpr(r, L.g);
    ResultShape(arity, l, g);
    ResultShape(arity, r, L.g);
    FreshTemp(c.pend, written, R.g.temps);
    TempResult(R.g.temps);
    LeadsOne(arity, c, BinaryOpIR(TempName(R.g.temps), op, L.result, R.result));
  }

  lemma UnaryShaped(arity: Arity, op: UnOp, a: Expr, g: GenState, c: Context, written: set<string>)
    requires Fits(arity, a) && (op == Neg || op == Not) && AllWaiting(c.pend, written, LowerExpr(a, g).g.temps)
    ensures var A := LowerExpr(a, g);
            Leads(arity, c, [UnaryOpIR(TempName(A.g.temps), op, A.result)], c)
  {
    hide Fits, LowerExpr, AllWaiting, TempName, TempNumber, IsName, IsStringLabel, IsConstant;
    var A := LowerExpr(a, g);
    ResultShape(arity, a, g);
    FreshTemp(c.pend, written, A.g.temps);
    LeadsOne(arity, c, UnaryOpIR(TempName(A.g.temps), op, A.result));
  }

  lemma AssignShaped(arity: Arity, t: Expr, v: Expr, g: GenState, c: Context)
    requires t.Identifier? && NameOk(t.name) && Fits(arity, v)
    requires AllWaiting(c.pend, Assigned(Assignment(t, v)), g.temps)
    ensures Leads(arity, c, [AssignIR(t.name, LowerExpr(v, g).result)], c)
  {
    hide Fits, LowerExpr;
    ResultShape(arity, v, g);
    assert t.name in Assigned(Assignment(t, v));
    assert t.name !in c.pend;
    LeadsOne(arity, c, AssignIR(t.name, LowerExpr(v, g).result));
  }

  /** The arguments wait, one after the other, behind those already waiting. */
  lemma {:induction false} ArgsShaped(arity: Arity, es: seq<Expr>, g: GenState, c: Context) returns (d: Context)
    requires ArgsFit(arity, es) && AllWaiting(c.pend, AssignedIn(es), g.temps) && (c.pend == [] || NoCalls(es))
    ensures Leads(arity, c, LowerArgs(es, g).code, d)
    ensures d.fn == c.fn && |d.pend| == |c.pend| + |es| && AllWaiting(d.pend, {}, LowerArgs(es, g).g.temps)
    decreases es, 0
  {
    hide *;
    ArgsParts(arity, es, g);
    if es == [] {
      d := c;
      WaitingOn(c.pend, AssignedIn(es), g.temps, {}, g.temps);
      LeadsNowhere(arity, c);
    } else {
      var A := LowerExpr(es[0], g);
      var rest := LowerArgs(es[1..], A.g);
      CallFreeParts(es);
      WaitingOn(c.pend, AssignedIn(es), g.temps, Assigned(es[0]), g.temps);
      ExprShaped(arity, es[0], g, c);
      TempsGrow(arity, es[0], g);
      var c1 := ParamShaped(arity, es, g, c);
      LeadsJoin(arity, c, A.code, c, [ParamIR(A.result)], c1);
      d := ArgsShaped(arity, es[1..], A.g, c1);
      LeadsJoin(arity, c, A.code + [ParamIR(A.result)], c1, rest.code, d);
    }
  }

  lemma ArgsParts(arity: Arity, es: seq<Expr>, g: GenState)
    requires ArgsFit(arity, es)
    ensures es == [] ==> LowerArgs(es, g) == Block([], g)
    ensures es != [] ==>
              var A := LowerExpr(es[0], g);
              var rest := LowerArgs(es[1..], A.g);
              && Fits(arity, es[0]) && ArgsFit(arity, es[1..]) && NoCalls(es[1..])
              && AssignedIn(es) == Assigned(es[0]) + AssignedIn(es[1..])
              && LowerArgs(es, g) == Block(A.code + [ParamIR(A.result)] + rest.code, rest.g)
  {
  }

  lemma CallFreeParts(es: seq<Expr>)
    requires es != []
    ensures NoCalls(es) ==> CallFree(es[0])
  {
  }

  lemma ParamShaped(arity: Arity, es: seq<Expr>, g: GenState, c: Context) returns (d: Context)
    requires es != [] && ArgsFit(arity, es) && AllWaiting(c.pend, AssignedIn(es), g.temps)
    ensures Leads(arity, c, [ParamIR(LowerExpr(es[0], g).result)], d)
    ensures d.fn == c.fn && |d.pend| == |c.pend| + 1
    ensures AllWaiting(d.pend, AssignedIn(es[1..]), LowerExpr(es[0], g).g.temps)
  {
    var A := LowerExpr(es[0], g);
    var i := ParamIR(A.result);
    d := Next(c, i);
    TempsGrow(arity, es[0], g);
    ResultShape(arity, es[0], g);
    LeadsOne(arity, c, i);
    ConstantUnassigned(arity, es, g);
    hide LowerExpr, Fits, Leads, TempNumber, IsStringLabel;
    WaitingOn(c.pend, AssignedIn(es), g.temps, AssignedIn(es[1..]), A.g.temps);
  }

  /** The operand of an argument is not written by the arguments after it. */
  lemma ConstantUnassigned(arity: Arity, es: seq<Expr>, g: GenState)
    requires es != [] && ArgsFit(arity, es)
    ensures LowerExpr(es[0], g).result !in AssignedIn(es[1..])
  {
    ResultShape(arity, es[0], g);
    NamesAssigned(arity, es[1..]);
  }

  /** Only proper names are written. */
  lemma {:induction false} NamesAssigned(arity: Arity, es: seq<Expr>)
    requires ArgsFit(arity, es)
    ensures forall x :: x in AssignedIn(es) ==> NameOk(x)
    decreases es, 0
  {
    if es != [] {
      NameAssigned(arity, es[0]);
      NamesAssigned(arity, es[1..]);
    }
  }

  lemma {:induction false} NameAssigned(arity: Arity, e: Expr)
    requires Fits(arity, e)
    ensures forall x :: x in Assigned(e) ==> NameOk(x)
    decreases e, 1
  {
    hide NameOk;
    match e
    case BinaryOp(_, l, r) =>
      NameAssigned(arity, l);
      NameAssigned(arity, r);
    case UnaryOp(_, a) => NameAssigned(arity, a);
    case Assignment(_, v) => NameAssigned(arity, v);
    case FunctionCall(_, args) => NamesAssigned(arity, args);
    case _ =>
  }

  /** The call takes every parameter that waits: there were none before its own. */
  lemma CallShaped(arity: Arity, f: string, args: seq<Expr>, g: GenState, c: Context, d: Context)
    requires c.pend == [] && Callee(arity, f, |args|)
    requires d.fn == c.fn && |d.pend| == |args| && AllWaiting(d.pend, {}, g.temps)
    ensures Leads(arity, d, [CallIR(TempName(g.temps), f, |args|)], c)
  {
    FreshTemp(d.pend, {}, g.temps);
    hide IsStringLabel, TempName, IsName, Callee;
    assert forall a :: a in d.pend ==> Waiting(a, {}, g.temps);
    LeadsOne(arity, d, CallIR(TempName(g.temps), f, |args|));
  }

  // ------------------------------------------------------------------ statements

  lemma ExprAlone(arity: Arity, e: Expr, g: GenState, c: Context)
    requires Fits(arity, e) && c.pend == []
    ensures Leads(arity, c, LowerExpr(e, g).code, c) && !IsStringLabel(LowerExpr(e, g).result)
  {
    hide Fits, LowerExpr;
    ExprShaped(arity, e, g, c);
    ResultShape(arity, e, g);
  }

  lemma OptionalShaped(arity: Arity, e: Option<Expr>, g: GenState, c: Context)
    requires OptionFits(arity, e) && c.pend == []
    ensures Leads(arity, c, LowerOptional(e, g).code, c)
  {
    hide Fits, LowerExpr;
    if e.Some? {
      ExprAlone(arity, e.value, g, c);
    }
  }

  lemma JumpShaped(arity: Arity, e: Expr, mark: string, g: GenState, c: Context)
    requires Fits(arity, e) && c.pend == []
    ensures Leads(arity, c, LowerExpr(e, g).code + [CondGotoIR(LowerExpr(e, g).result, mark, false)], c)
  {
    hide Fits, LowerExpr, IsStringLabel;
    var E := LowerExpr(e, g);
    ExprAlone(arity, e, g, c);
    LeadsOne(arity, c, CondGotoIR(E.result, mark, false));
    LeadsJoin(arity, c, E.code, c, [CondGotoIR(E.result, mark, false)], c);
  }

  lemma TestShaped(arity: Arity, test: Option<Expr>, mark: string, g: GenState, c: Context)
    requires OptionFits(arity, test) && c.pend == []
    ensures Leads(arity, c, LowerTest(test, mark, g).code, c)
  {
    hide Fits, LowerExpr;
    if test.Some? {
      JumpShaped(arity, test.value, mark, g, c);
    }
  }

  lemma MarkShaped(arity: Arity, mark: string, c: Context)
    requires c.pend == []
    ensures Leads(arity, c, [LabelIR(mark)], c) && Leads(arity, c, [GotoIR(mark)], c)
  {
    LeadsOne(arity, c, LabelIR(mark));
    LeadsOne(arity, c, GotoIR(mark));
  }

  lemma {:induction false} StmtShaped(arity: Arity, s: Stmt, g: GenState, c: Context)
    requires StmtFits(arity, s) && c.pend == []
    ensures Leads(arity, c, LowerStmt(s, g).code, c)
    decreases s, 1
  {
    hide Leads, Fits, LowerExpr, LowerOptional, NameOk, LowerStmts, StmtsFit;
    match s
    case VarDecl(x, _, init) => ValueShaped(arity, s, g, c);
    case CompoundStmt(ss) => StmtsShaped(arity, ss, g, c);
    case ExprStmt(e) => OptionalShaped(arity, e, g, c);
    case IfStmt(cond, thn, els) =>
      hide *;
      IfParts(arity, cond, thn, els, g);
      var C := LowerExpr(cond, g);
      var g1 := C.g.(labels := C.g.labels + 2);
      var (lElse, lEnd) := (LabelName(C.g.labels), LabelName(C.g.labels + 1));
      JumpShaped(arity, cond, lElse, g, c);
      StmtShaped(arity, thn, g1, c);
      var T := LowerStmt(thn, g1);
      MarkShaped(arity, lElse, c);
      MarkShaped(arity, lEnd, c);
      LeadsNowhere(arity, c);
      if els.Some? {
        StmtShaped(arity, els.value, T.g, c);
      }
      var E := if els.Some? then LowerStmt(els.value, T.g) else Block([], T.g);
      var head := C.code + [CondGotoIR(C.result, lElse, false)];
      LeadsJoin(arity, c, head, c, T.code, c);
      LeadsJoin(arity, c, [GotoIR(lEnd)], c, [LabelIR(lElse)], c);
      assert [GotoIR(lEnd)] + [LabelIR(lElse)] == [GotoIR(lEnd), LabelIR(lElse)];
      LeadsJoin(arity, c, head + T.code, c, [GotoIR(lEnd), LabelIR(lElse)], c);
      LeadsJoin(arity, c, head + T.code + [GotoIR(lEnd), LabelIR(lElse)], c, E.code, c);
      LeadsJoin(arity, c, head + T.code + [GotoIR(lEnd), LabelIR(lElse)] + E.code, c, [LabelIR(lEnd)], c);
    case WhileStmt(cond, body) =>
      Labels.WhileIsFor(cond, body, g);
      LoopShaped(arity, None, Some(cond), None, body, g, c);
    case ForStmt(init, test, incr, body) => LoopShaped(arity, init, test, incr, body, g, c);
    case ReturnStmt(v) => ValueShaped(arity, s, g, c);
  }

  lemma ValueShaped(arity: Arity, s: Stmt, g: GenState, c: Context)
    requires (s.VarDecl? || s.ReturnStmt?) && StmtFits(arity, s) && c.pend == []
    ensures Leads(arity, c, LowerStmt(s, g).code, c)
  {
    hide Fits, LowerExpr, Leads;
    LeadsNowhere(arity, c);
    match s
    case VarDecl(x, _, init) =>
      if init.Some? {
        var E := LowerExpr(init.value, g);
        ExprAlone(arity, init.value, g, c);
        LeadsOne(arity, c, AssignIR(x, E.result));
        LeadsJoin(arity, c, E.code, c, [AssignIR(x, E.result)], c);
      }
    case ReturnStmt(v) =>
      if v.Some? {
        var E := LowerExpr(v.value, g);
        ExprAlone(arity, v.value, g, c);
        LeadsOne(arity, c, ReturnIR(Some(E.result)));
        LeadsJoin(arity, c, E.code, c, [ReturnIR(Some(E.result))], c);
      } else {
        LeadsOne(arity, c, ReturnIR(None));
      }
  }

  lemma IfParts(arity: Arity, cond: Expr, thn: Stmt, els: Option<Stmt>, g: GenState)
    requires StmtFits(arity, IfStmt(cond, thn, els))
    ensures Fits(arity, cond) && StmtFits(arity, thn) && (els.Some? ==> StmtFits(arity, els.value))
    ensures var C := LowerExpr(cond, g);
            var (lElse, lEnd) := (LabelName(C.g.labels), LabelName(C.g.labels + 1));
            var T := LowerStmt(thn, C.g.(labels := C.g.labels + 2));
            var E := if els.Some? then LowerStmt(els.value, T.g) else Block([], T.g);
            LowerStmt(IfStmt(cond, thn, els), g).code
            == C.code + [CondGotoIR(C.result, lElse, false)] + T.code + [GotoIR(lEnd), LabelIR(lElse)]
               + E.code + [LabelIR(lEnd)]
  {
  }

  lemma {:induction false} LoopShaped(arity: Arity, init: Option<Expr>, test: Option<Expr>, incr: Option<Expr>,
                                      body: Stmt, g: GenState, c: Context)
    requires OptionFits(arity, init) && OptionFits(arity, test) && OptionFits(arity, incr) && StmtFits(arity, body)
    requires c.pend == []
    ensures Leads(arity, c, LowerStmt(ForStmt(init, test, incr, body), g).code, c)
    decreases body, 2
  {
    ForParts(init, test, incr, body, g);
    hide *;
    var I := LowerOptional(init, g);
    var (lStart, lEnd) := (LabelName(I.g.labels), LabelName(I.g.labels + 1));
    var T := LowerTest(test, lEnd, I.g.(labels := I.g.labels + 2));
    var B := LowerStmt(body, T.g);
    var N := LowerOptional(incr, B.g);
    OptionalShaped(arity, init, g, c);
    TestShaped(arity, test, lEnd, I.g.(labels := I.g.labels + 2), c);
    StmtShaped(arity, body, T.g, c);
    OptionalShaped(arity, incr, B.g, c);
    MarkShaped(arity, lStart, c);
    MarkShaped(arity, lEnd, c);
    LeadsJoin(arity, c, [GotoIR(lStart)], c, [LabelIR(lEnd)], c);
    assert [GotoIR(lStart)] + [LabelIR(lEnd)] == [GotoIR(lStart), LabelIR(lEnd)];
    LeadsJoin(arity, c, I.code, c, [LabelIR(lStart)], c);
    LeadsJoin(arity, c, I.code + [LabelIR(lStart)], c, T.code, c);
    LeadsJoin(arity, c, I.code + [LabelIR(lStart)] + T.code, c, B.code, c);
    LeadsJoin(arity, c, I.code + [LabelIR(lStart)] + T.code + B.code, c, N.code, c);
    LeadsJoin(arity, c, I.code + [LabelIR(lStart)] + T.code + B.code + N.code, c, [GotoIR(lStart), LabelIR(lEnd)], c);
  }

  lemma ForParts(init: Option<Expr>, test: Option<Expr>, incr: Option<Expr>, body: Stmt, g: GenState)
    ensures var I := LowerOptional(init, g);
            var (lStart, lEnd) := (LabelName(I.g.labels), LabelName(I.g.labels + 1));
            var T := LowerTest(test, lEnd, I.g.(labels := I.g.labels + 2));
            var B := LowerStmt(body, T.g);
            var N := LowerOptional(incr, B.g);
            LowerStmt(ForStmt(init, test, incr, body), g).code
            == I.code + [LabelIR(lStart)] + T.code + B.code + N.code + [GotoIR(lStart), LabelIR(lEnd)]
  {
    hide LowerTest, LowerOptional, LabelName, LowerExpr;
  }

  lemma {:induction false} StmtsShaped(arity: Arity, ss: seq<Stmt>, g: GenState, c: Context)
    requires StmtsFit(arity, ss) && c.pend == []
    ensures Leads(arity, c, LowerStmts(ss, g).code, c)
    decreases ss, 0
  {
    hide Leads, StmtFits, LowerStmt;
    if ss == [] {
      LeadsNowhere(arity, c);
    } else {
      var S := LowerStmt(ss[0], g);
      StmtShaped(arity, ss[0], g, c);
      StmtsShaped(arity, ss[1..], S.g, c);
      LeadsJoin(arity, c, S.code, c, LowerStmts(ss[1..], S.g).code, c);
    }
  }

  /** The whole function: no parameter waits where control can arrive, nor at the end. */
  lemma FunctionShaped(arity: Arity, f: Function, g: GenState)
    requires f.body != [] && StmtsFit(arity, f.body)
    ensures Leads(arity, Context("", []), LowerFunction(f, g).code, Context(f.name, []))
  {
    hide StmtsFit, LowerStmts, Leads;
    var (c, d) := (Context("", []), Context(f.name, []));
    var B := LowerStmts(f.body, g.(temps := 0, labels := 0));
    LeadsOne(arity, c, FunctionEntryIR(f.name));
    StmtsShaped(arity, f.body, g.(temps := 0, labels := 0), d);
    LeadsOne(arity, d, FunctionExitIR(f.name));
    LeadsJoin(arity, c, [FunctionEntryIR(f.name)], d, B.code, d);
    LeadsJoin(arity, c, [FunctionEntryIR(f.name)] + B.code, d, [FunctionExitIR(f.name)], d);
  }

  // ------------------------------------------------------------------ every instruction

  /** In well-shaped code whose names all have registers, every instruction can be done. */
  lemma InstrsOk(arity: Arity, m: Assignment, code: seq<Instr>, k: nat)
    requires AllShaped(arity, Context("", []), code) && AllUses(Context("", []), code) <= m.Keys && k < |code|
    ensures InstrOk(arity, m, CtxAt(code, k), code[k])
  {
    hide *;
    var c0 := Context("", []);
    assert code == code[..k] + code[k..];
    ShapedAppend(arity, c0, code[..k], code[k..]);
    UsesAppend(c0, code[..k], code[k..]);
    CtxIs(code, k);
    FirstShaped(arity, CtxAt(code, k), code[k..]);
    assert code[k..][0] == code[k];
    ShapeIsOk(arity, m, CtxAt(code, k), code[k]);
  }

  lemma CtxIs(code: seq<Instr>, k: nat)
    requires k <= |code|
    ensures CtxAt(code, k) == After(Context("", []), code[..k])
  {
  }

  lemma FirstShaped(arity: Arity, c: Context, code: seq<Instr>)
    requires code != [] && AllShaped(arity, c, code)
    ensures Shape(arity, c, code[0]) && Uses(c, code[0]) <= AllUses(c, code)
  {
  }
}
