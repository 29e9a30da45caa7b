/** Lowering of expressions preserves meaning: the generated three-address code computes what the
    source means and disturbs nothing but the temporaries it draws. */
module Lowering {
  import opened Words
  import opened Ast
  import opened IrGenerator
  import opened IrMachine
  import opened Source
  import opened Domain
  import opened Labels
  import Decimal

  /** The flat store holds the value of every variable that has one. */
  ghost predicate Agrees(fs: Frames, store: Store) {
    forall x :: Lookup(fs, x).Some? && Lookup(fs, x).value.Set? ==> Get(store, x) == Lookup(fs, x).value.v
  }

  ghost predicate NamesOk(fs: Frames) {
    forall x :: x in Keys(fs) ==> NameOk(x)
  }

  /** Only the variables in `xs` and the temporaries numbered from `lo` to `hi` differ. */
  ghost predicate Preserves(a: Store, b: Store, xs: set<string>, lo: nat, hi: nat) {
    forall x :: x !in xs && !TempIn(x, lo, hi) ==> Get(a, x) == Get(b, x)
  }

  /** Where the value of a lowered expression is found. */
  ghost predicate ResultOk(e: Expr, result: string, lo: nat, hi: nat) {
    IsConstant(result) || TempIn(result, lo, hi) || (NameOk(result) && ResultVar(e) == Some(result))
  }

  ghost predicate ExprSimulated(w: World, e: Expr, g: GenState, m: Memory, l: Local) {
    var L := LowerExpr(e, g);
    var E := EvalExpr(w, e, m);
    var r := RunLocal(w, L.code, l);
    && r.Some? && r.value.params == l.params
    && g.temps <= L.g.temps && ResultOk(e, L.result, g.temps, L.g.temps)
    && Preserves(l.store, r.value.store, Assigned(e), g.temps, L.g.temps)
    && (E.Value? ==>
          && r.value.trace == E.m.trace
          && Agrees(E.m.frames, r.value.store) && NamesOk(E.m.frames)
          && Operand(r.value.store, L.result) == E.v)
  }

  lemma ConstantNumeral(n: nat)
    ensures IsConstant(Decimal.Show(n)) && ConstantValue(Decimal.Show(n)) == n
  {
    Decimal.ReadShow(n);
  }

  /** Writing a fresh temporary disturbs no variable. */
  lemma SetTemp(fs: Frames, store: Store, k: nat, v: word)
    requires Agrees(fs, store) && NamesOk(fs)
    ensures Agrees(fs, store[TempName(k) := v])
  {
    TempNameNumber(k);
    forall x | Lookup(fs, x).Some?
      ensures x != TempName(k)
    {
      LookupIsKey(fs, x);
    }
  }

  /** The variables in `zeros` are 0. */
  ghost predicate ZeroIn(zeros: set<string>, store: Store) {
    forall x :: x in zeros ==> NameOk(x) && Get(store, x) == 0
  }

  lemma AdmittedOperand(w: World, zeros: set<string>, e: Expr, g: GenState, store: Store)
    requires Harmless(w, zeros, e) && ZeroIn(zeros, store)
    ensures Admits(zeros, e, Operand(store, LowerExpr(e, g).result))
  {
    match e
    case IntegerLiteral(n) => ConstantNumeral(n);
    case CharLiteral(c) => ConstantNumeral(c as nat);
    case _ =>
  }

  lemma ZeroStays(zeros: set<string>, a: Store, b: Store, lo: nat, hi: nat)
    requires ZeroIn(zeros, a) && Preserves(a, b, {}, lo, hi)
    ensures ZeroIn(zeros, b)
  {
  }

  /** What a harmless operand does to the machine: new temporaries, nothing else. */
  lemma {:induction false} HarmlessRuns(w: World, zeros: set<string>, e: Expr, g: GenState, l: Local)
    requires Harmless(w, zeros, e) && ZeroIn(zeros, l.store)
    ensures var L := LowerExpr(e, g);
            var r := RunLocal(w, L.code, l);
            && r.Some? && r.value.params == l.params && r.value.trace == l.trace
            && g.temps <= L.g.temps && Preserves(l.store, r.value.store, {}, g.temps, L.g.temps)
    decreases e, 1
  {
    hide ZeroIn, Admits;
    match e
    case BinaryOp(op, a, b) => HarmlessPair(w, zeros, e, g, l);
    case UnaryOp(op, a) =>
      var A := LowerExpr(a, g);
      HarmlessRuns(w, zeros, a, g, l);
      var l1 := RunLocal(w, A.code, l).value;
      RunOneMore(w, A.code, UnaryOpIR(TempName(A.g.temps), op, A.result), l, l1);
      TempNameNumber(A.g.temps);
    case _ =>
  }

  lemma {:induction false} HarmlessPair(w: World, zeros: set<string>, e: Expr, g: GenState, l: Local)
    requires Harmless(w, zeros, e) && ZeroIn(zeros, l.store) && e.BinaryOp?
    ensures var L := LowerExpr(e, g);
            var r := RunLocal(w, L.code, l);
            && r.Some? && r.value.params == l.params && r.value.trace == l.trace
            && g.temps <= L.g.temps && Preserves(l.store, r.value.store, {}, g.temps, L.g.temps)
    decreases e, 0
  {
    hide ZeroIn, Admits, RunLocal;
    var (a, b) := (e.left, e.right);
    var A := LowerExpr(a, g);
    var B := LowerExpr(b, A.g);
    HarmlessRuns(w, zeros, a, g, l);
    var l1 := RunLocal(w, A.code, l).value;
    ZeroStays(zeros, l.store, l1.store, g.temps, A.g.temps);
    HarmlessRuns(w, zeros, b, A.g, l1);
    var l2 := RunLocal(w, B.code, l1).value;
    ZeroStays(zeros, l1.store, l2.store, A.g.temps, B.g.temps);
    AdmittedOperand(w, zeros, a, g, l2.store);
    AdmittedOperand(w, zeros, b, A.g, l2.store);
    RunLocalAppend(w, A.code, B.code, l);
    RunOneMore(w, A.code + B.code, BinaryOpIR(TempName(B.g.temps), e.op, A.result, B.result), l, l2);
    TempNameNumber(B.g.temps);
  }

  /** A left operand that makes C skip the right one leaves its guarded variables 0. */
  lemma GuardHolds(w: World, op: BinOp, e: Expr, m: Memory, store: Store)
    requires ScalarExpr(w, e) && EvalExpr(w, e, m).Value? && Skips(op, EvalExpr(w, e, m).v)
    requires Agrees(EvalExpr(w, e, m).m.frames, store)
    ensures ZeroIn(ZerosOf(op, e), store)
  {
  }

  /** The value of the left operand survives the evaluation of the right one. */
  lemma LeftSurvives(l: Expr, r: Expr, result: string, a: Store, b: Store, lo: nat, mid: nat, hi: nat)
    requires ResultOk(l, result, lo, mid) && Preserves(a, b, Assigned(r), mid, hi)
    requires ResultVar(l).Some? ==> ResultVar(l).value !in Assigned(r)
    requires forall x :: x in Assigned(r) ==> NameOk(x)
    ensures Operand(a, result) == Operand(b, result)
  {
  }

  lemma {:induction false} AssignedOk(w: World, e: Expr)
    requires ScalarExpr(w, e)
    ensures forall x :: x in Assigned(e) ==> NameOk(x)
    decreases e, 1
  {
    match e
    case BinaryOp(_, l, r) =>
      AssignedOk(w, l);
      AssignedOk(w, r);
    case UnaryOp(_, a) => AssignedOk(w, a);
    case Assignment(_, v) => AssignedOk(w, v);
    case FunctionCall(_, args) => AssignedInOk(w, args);
    case _ =>
  }

  lemma {:induction false} AssignedInOk(w: World, es: seq<Expr>)
    requires ScalarArgs(w, es)
    ensures forall x :: x in AssignedIn(es) ==> NameOk(x)
    decreases es, 0
  {
    if es != [] {
      AssignedOk(w, es[0]);
      AssignedInOk(w, es[1..]);
    }
  }

  ghost predicate Ready(fs: Frames, trace: seq<Event>, l: Local) {
    Agrees(fs, l.store) && NamesOk(fs) && l.trace == trace
  }

  /** Expressions: the generated straight-line code yields the value, the calls and the store. */
  lemma {:induction false} ExprCorrect(w: World, e: Expr, g: GenState, m: Memory, l: Local)
    requires ScalarExpr(w, e) && Ready(m.frames, m.trace, l) && EvalExpr(w, e, m).Value?
    ensures ExprSimulated(w, e, g, m, l)
    decreases e, 1
  {
    match e
    case Identifier(x) =>
    case IntegerLiteral(n) => ConstantNumeral(n);
    case CharLiteral(c) => ConstantNumeral(c as nat);
    case BinaryOp(_, _, _) => BinaryCorrect(w, e, g, m, l);
    case UnaryOp(_, _) => UnaryCorrect(w, e, g, m, l);
    case Assignment(_, _) => AssignmentCorrect(w, e, g, m, l);
    case FunctionCall(_, _) => CallCorrect(w, e, g, m, l);
  }

  /** One more instruction after code that has run. */
  lemma RunOneMore(w: World, code: seq<Instr>, i: Instr, l: Local, l1: Local)
    requires RunLocal(w, code, l) == Some(l1)
    ensures RunLocal(w, code + [i], l) == StepLocal(w, i, l1)
  {
    RunLocalAppend(w, code, [i], l);
    RunLocalOne(w, i, l1);
  }

  lemma PreservesThen(a: Store, b: Store, c: Store, xs: set<string>, ys: set<string>, lo: nat, mid: nat, hi: nat)
    requires lo <= mid <= hi && Preserves(a, b, xs, lo, mid) && Preserves(b, c, ys, mid, hi)
    ensures Preserves(a, c, xs + ys, lo, hi)
  {
  }

  /** Finishing an expression by writing its value to the next temporary. */
  lemma ResultInTemp(fs: Frames, a: Store, b: Store, xs: set<string>, lo: nat, k: nat, v: word)
    requires lo <= k && Preserves(a, b, xs, lo, k) && Agrees(fs, b) && NamesOk(fs)
    ensures var c := b[TempName(k) := v];
            && Preserves(a, c, xs, lo, k + 1) && Agrees(fs, c) && Operand(c, TempName(k)) == v
            && TempIn(TempName(k), lo, k + 1)
  {
    TempNameNumber(k);
    SetTemp(fs, b, k, v);
  }

  lemma {:induction false} UnaryCorrect(w: World, e: Expr, g: GenState, m: Memory, l: Local)
    requires e.UnaryOp? && ScalarExpr(w, e) && Ready(m.frames, m.trace, l) && EvalExpr(w, e, m).Value?
    ensures ExprSimulated(w, e, g, m, l)
    decreases e, 0
  {
    var A := LowerExpr(e.operand, g);
    ExprCorrect(w, e.operand, g, m, l);
    var l1 := RunLocal(w, A.code, l).value;
    RunOneMore(w, A.code, UnaryOpIR(TempName(A.g.temps), e.uop, A.result), l, l1);
    ResultInTemp(EvalExpr(w, e.operand, m).m.frames, l.store, l1.store, Assigned(e), g.temps, A.g.temps,
                 EvalExpr(w, e, m).v);
  }

  lemma {:induction false} AssignmentCorrect(w: World, e: Expr, g: GenState, m: Memory, l: Local)
    requires e.Assignment? && ScalarExpr(w, e) && Ready(m.frames, m.trace, l) && EvalExpr(w, e, m).Value?
    ensures ExprSimulated(w, e, g, m, l)
    decreases e, 0
  {
    var V := LowerExpr(e.source, g);
    ExprCorrect(w, e.source, g, m, l);
    var l1 := RunLocal(w, V.code, l).value;
    RunOneMore(w, V.code, AssignIR(e.target.name, V.result), l, l1);
    var E := EvalExpr(w, e.source, m);
    AssignAgrees(E.m.frames, l1.store, e.target.name, E.v);
  }

  lemma {:induction false} CallCorrect(w: World, e: Expr, g: GenState, m: Memory, l: Local)
    requires e.FunctionCall? && ScalarExpr(w, e) && Ready(m.frames, m.trace, l) && EvalExpr(w, e, m).Value?
    ensures ExprSimulated(w, e, g, m, l)
    decreases e, 0
  {
    hide Lookup, Keys, EvalArgs, LowerArgs, RunLocal;
    var A := LowerArgs(e.arguments, g);
    ArgsCorrect(w, e.arguments, g, m, l);
    var l1 := RunLocal(w, A.code, l).value;
    var E := EvalArgs(w, e.arguments, m);
    assert l1.params[|l.params|..] == E.vs && l1.params[..|l.params|] == l.params;
    RunOneMore(w, A.code, CallIR(TempName(A.g.temps), e.callee, |e.arguments|), l, l1);
    ResultInTemp(E.m.frames, l.store, l1.store, Assigned(e), g.temps, A.g.temps, EvalExpr(w, e, m).v);
  }

  lemma AssignAgrees(fs: Frames, store: Store, x: string, v: word)
    requires Agrees(fs, store) && NamesOk(fs) && Lookup(fs, x).Some?
    ensures Agrees(Update(fs, x, v), store[x := v]) && NamesOk(Update(fs, x, v))
  {
    forall y
      ensures Lookup(Update(fs, x, v), y) == if y == x then Some(Set(v)) else Lookup(fs, y)
    {
      LookupUpdate(fs, x, v, y);
    }
    UpdateKeepsKeys(fs, x, v);
    KeysByFrame(fs, Update(fs, x, v));
  }

  lemma {:induction false} BinaryCorrect(w: World, e: Expr, g: GenState, m: Memory, l: Local)
    requires e.BinaryOp? && ScalarExpr(w, e) && Ready(m.frames, m.trace, l) && EvalExpr(w, e, m).Value?
    ensures ExprSimulated(w, e, g, m, l)
    decreases e, 0
  {
    var A := LowerExpr(e.left, g);
    var B := LowerExpr(e.right, A.g);
    ExprCorrect(w, e.left, g, m, l);
    var l1 := RunLocal(w, A.code, l).value;
    var frames := RightRuns(w, e, g, m, l, l1);
    var l2 := RunLocal(w, B.code, l1).value;
    AssignedOk(w, e.right);
    LeftSurvives(e.left, e.right, A.result, l1.store, l2.store, g.temps, A.g.temps, B.g.temps);
    PreservesThen(l.store, l1.store, l2.store, Assigned(e.left), Assigned(e.right), g.temps, A.g.temps, B.g.temps);
    RunLocalAppend(w, A.code, B.code, l);
    RunOneMore(w, A.code + B.code, BinaryOpIR(TempName(B.g.temps), e.op, A.result, B.result), l, l2);
    ResultInTemp(frames, l.store, l2.store, Assigned(e), g.temps, B.g.temps, EvalExpr(w, e, m).v);
  }

  /** The right operand, evaluated by the source or (under && and ||) only by the machine. */
  lemma {:induction false} RightRuns(w: World, e: Expr, g: GenState, m: Memory, l: Local, l1: Local)
      returns (frames: Frames)
    requires e.BinaryOp? && ScalarExpr(w, e) && Ready(m.frames, m.trace, l) && EvalExpr(w, e, m).Value?
    requires ExprSimulated(w, e.left, g, m, l)
    requires RunLocal(w, LowerExpr(e.left, g).code, l) == Some(l1)
    ensures var A := LowerExpr(e.left, g);
            var B := LowerExpr(e.right, A.g);
            var r := RunLocal(w, B.code, l1);
            && r.Some? && r.value.params == l1.params && r.value.trace == EvalExpr(w, e, m).m.trace
            && A.g.temps <= B.g.temps
            && Preserves(l1.store, r.value.store, Assigned(e.right), A.g.temps, B.g.temps)
            && frames == EvalExpr(w, e, m).m.frames && Agrees(frames, r.value.store) && NamesOk(frames)
            && EvalExpr(w, e, m).v
               == EvalBin(e.op, EvalExpr(w, e.left, m).v, Operand(r.value.store, B.result))
            && w.defined(e.op, EvalExpr(w, e.left, m).v, Operand(r.value.store, B.result))
    decreases e.right, 2
  {
    hide RunLocal, LowerExpr, Lookup, Keys;
    var A := LowerExpr(e.left, g);
    var E := EvalExpr(w, e.left, m);
    frames := EvalExpr(w, e, m).m.frames;
    if Skips(e.op, E.v) {
      var zeros := ZerosOf(e.op, e.left);
      GuardHolds(w, e.op, e.left, m, l1.store);
      HarmlessRuns(w, zeros, e.right, A.g, l1);
      HarmlessAssigns(w, zeros, e.right);
      var B := LowerExpr(e.right, A.g);
      HarmlessAgrees(frames, l1.store, RunLocal(w, B.code, l1).value.store, A.g.temps, B.g.temps);
    } else {
      ExprCorrect(w, e.right, A.g, E.m, l1);
    }
  }

  lemma {:induction false} HarmlessAssigns(w: World, zeros: set<string>, e: Expr)
    requires Harmless(w, zeros, e)
    ensures Assigned(e) == {}
  {
    match e
    case BinaryOp(_, l, r) =>
      HarmlessAssigns(w, zeros, l);
      HarmlessAssigns(w, zeros, r);
    case UnaryOp(_, a) => HarmlessAssigns(w, zeros, a);
    case _ =>
  }

  lemma HarmlessAgrees(fs: Frames, a: Store, b: Store, lo: nat, hi: nat)
    requires Agrees(fs, a) && NamesOk(fs) && Preserves(a, b, {}, lo, hi)
    ensures Agrees(fs, b)
  {
    forall x | Lookup(fs, x).Some?
      ensures Get(a, x) == Get(b, x)
    {
      LookupIsKey(fs, x);
    }
  }

  /** Arguments: their values end up on the parameter list, in order. */
  lemma {:induction false} ArgsCorrect(w: World, es: seq<Expr>, g: GenState, m: Memory, l: Local)
    requires ScalarArgs(w, es) && Ready(m.frames, m.trace, l) && EvalArgs(w, es, m).Values?
    ensures var A := LowerArgs(es, g);
            var E := EvalArgs(w, es, m);
            var r := RunLocal(w, A.code, l);
            && r.Some? && r.value.params == l.params + E.vs && Ready(E.m.frames, E.m.trace, r.value)
            && g.temps <= A.g.temps && Preserves(l.store, r.value.store, AssignedIn(es), g.temps, A.g.temps)
    decreases es, 0
  {
    hide Lookup, Keys, EvalExpr, LowerExpr;
    if es != [] {
      var A := LowerExpr(es[0], g);
      var rest := LowerArgs(es[1..], A.g);
      ExprCorrect(w, es[0], g, m, l);
      var E := EvalExpr(w, es[0], m);
      var l1 := RunLocal(w, A.code, l).value;
      var i := ParamIR(A.result);
      RunLocalOne(w, i, l1);
      RunLocalAppend(w, A.code, [i], l);
      var l2 := StepLocal(w, i, l1).value;
      ArgsCorrect(w, es[1..], A.g, E.m, l2);
      RunLocalAppend(w, A.code + [i], rest.code, l);
      assert l.params + [E.v] + EvalArgs(w, es[1..], E.m).vs == l.params + EvalArgs(w, es, m).vs;
    }
  }
}
