/** Loads and stores through pointers. */
module Pointers {
  // What *, [] and assignments through them mean on a memory of words, what the generated code does
  // with it, and exactly when the two agree.

  import opened Words
  import opened Ast
  import opened IrGenerator
  import opened IrMachine
  import opened Domain
  import opened Lowering
  import opened RegisterAllocation
  import opened CodeGeneration
  import opened ArmMachine
  import opened ArmSimulation
  import opened WordMemory
  import Decimal

  // ------------------------------------------------------------------ meaning

  /** The words at the addresses that may be read and written. */
  type Heap = map<word, word>

  datatype Space = Space(vars: Store, heap: Heap)

  function Load(h: Heap, address: word): Option<word> {
    if address in h then Some(h[address]) else None
  }

  /** An operation on two words; division by zero has no meaning. */
  function Operate(op: BinOp, a: word, b: word): Option<word> {
    if (op == Div || op == Mod) && b == 0 then None else Some(EvalBin(op, a, b))
  }

  /** The address of an element, `size` bytes to an element. */
  function Element(size: nat, a: word, i: word): word {
    Wrap(a + size * i)
  }

  /** The value of an expression without side effects (sections 6.5.2.1 and 6.5.3.2 of ISO C99). */
  function Eval(size: nat, e: Expr, s: Space): Option<word> {
    match e
    case Identifier(x) => Some(Get(s.vars, x))
    case IntegerLiteral(n) => Some(Wrap(n))
    case CharLiteral(c) => Some(Wrap(c as int))
    case BinaryOp(op, l, r) =>
      var (a, b) := (Eval(size, l, s), Eval(size, r, s));
      if a.None? then None
      else if op == LogAnd && a.value == 0 then Some(0)
      else if op == LogOr && a.value != 0 then Some(1)
      else if b.None? then None
      else Operate(op, a.value, b.value)
    case UnaryOp(op, x) =>
      var a := Eval(size, x, s);
      if a.None? then None else if op == Deref then Load(s.heap, a.value) else EvalUn(op, a.value)
    case ArrayAccess(x, i) =>
      var (a, b) := (Eval(size, x, s), Eval(size, i, s));
      if a.None? || b.None? then None else Load(s.heap, Element(size, a.value, b.value))
    case _ => None
  }

  /** Where an assignment writes. */
  function Place(size: nat, target: Expr, s: Space): Option<word> {
    match target
    case ArrayAccess(x, i) =>
      var (a, b) := (Eval(size, x, s), Eval(size, i, s));
      if a.None? || b.None? then None else Some(Element(size, a.value, b.value))
    case UnaryOp(op, x) => if op == Deref then Eval(size, x, s) else None
    case _ => None
  }

  /** No assignments and no calls; variables are named apart from temporaries; no operator whose right
      operand C may skip. */
  predicate Pure(e: Expr) {
    match e
    case Identifier(x) => NameOk(x)
    case IntegerLiteral(_) => true
    case CharLiteral(_) => true
    case BinaryOp(op, l, r) => op != LogAnd && op != LogOr && Pure(l) && Pure(r)
    case UnaryOp(op, x) => op != AddrOf && Pure(x)
    case ArrayAccess(x, i) => Pure(x) && Pure(i)
    case _ => false
  }

  // ------------------------------------------------------------------ what the code does

  function StepSpace(i: Instr, s: Space): Option<Space> {
    match i
    case BinaryOpIR(t, op, a, b) =>
      var v := Operate(op, Operand(s.vars, a), Operand(s.vars, b));
      if v.None? then None else Some(s.(vars := s.vars[t := v.value]))
    case UnaryOpIR(t, op, a) =>
      var v := EvalUn(op, Operand(s.vars, a));
      if v.None? then None else Some(s.(vars := s.vars[t := v.value]))
    case AssignIR(x, a) => Some(s.(vars := s.vars[x := Operand(s.vars, a)]))
    case LoadIR(t, a) =>
      var v := Load(s.heap, Operand(s.vars, a));
      if v.None? then None else Some(s.(vars := s.vars[t := v.value]))
    case StoreIR(a, v) =>
      var p := Operand(s.vars, a);
      if p in s.heap then Some(s.(heap := s.heap[p := Operand(s.vars, v)])) else None
    case _ => None
  }

  function RunSpace(code: seq<Instr>, s: Space): Option<Space> {
    if code == [] then Some(s)
    else
      var r := StepSpace(code[0], s);
      if r.None? then None else RunSpace(code[1..], r.value)
  }

  lemma {:induction false} RunAppend(a: seq<Instr>, b: seq<Instr>, s: Space)
    ensures RunSpace(a + b, s) == if RunSpace(a, s).None? then None else RunSpace(b, RunSpace(a, s).value)
    decreases a
  {
    if a == [] {
      assert a + b == b;
    } else {
      assert (a + b)[1..] == a[1..] + b;
      var r := StepSpace(a[0], s);
      if r.Some? {
        RunAppend(a[1..], b, r.value);
      }
    }
  }

  lemma RunThen(a: seq<Instr>, i: Instr, s: Space)
    requires RunSpace(a, s).Some?
    ensures RunSpace(a + [i], s) == StepSpace(i, RunSpace(a, s).value)
  {
    RunAppend(a, [i], s);
    assert [i][1..] == [];
    hide StepSpace;
  }

  // ------------------------------------------------------------------ code and meaning

  /** Only temporaries numbered from `lo` to `hi` differ. */
  ghost predicate Grown(a: Space, b: Space, lo: nat, hi: nat) {
    a.heap == b.heap && forall x :: !TempIn(x, lo, hi) ==> Get(a.vars, x) == Get(b.vars, x)
  }

  /** Where the value of a pure expression is found: a constant, one of its temporaries, or a variable. */
  predicate Found(result: string, lo: nat, hi: nat) {
    IsConstant(result) || TempIn(result, lo, hi) || NameOk(result)
  }

  /** The code for the expression leaves its value in its result. */
  ghost predicate Computes(L: Lowered, g: GenState, s: Space, v: word) {
    var r := RunSpace(L.code, s);
    && r.Some? && g.temps <= L.g.temps && Found(L.result, g.temps, L.g.temps)
    && Grown(s, r.value, g.temps, L.g.temps) && Operand(r.value.vars, L.result) == v
  }

  /** A pure expression's meaning does not depend on temporaries. */
  lemma {:induction false} EvalGrown(size: nat, e: Expr, a: Space, b: Space, lo: nat, hi: nat)
    requires Pure(e) && Grown(a, b, lo, hi)
    ensures Eval(size, e, a) == Eval(size, e, b)
    decreases e
  {
    hide Grown;
    match e
    case Identifier(x) => NameKept(x, a, b, lo, hi);
    case BinaryOp(_, l, r) =>
      EvalGrown(size, l, a, b, lo, hi);
      EvalGrown(size, r, a, b, lo, hi);
    case UnaryOp(_, x) =>
      EvalGrown(size, x, a, b, lo, hi);
      HeapKept(a, b, lo, hi);
    case ArrayAccess(x, i) =>
      EvalGrown(size, x, a, b, lo, hi);
      EvalGrown(size, i, a, b, lo, hi);
      HeapKept(a, b, lo, hi);
    case _ =>
  }

  lemma NameKept(x: string, a: Space, b: Space, lo: nat, hi: nat)
    requires Grown(a, b, lo, hi) && NameOk(x)
    ensures Get(a.vars, x) == Get(b.vars, x)
  {
  }

  lemma HeapKept(a: Space, b: Space, lo: nat, hi: nat)
    requires Grown(a, b, lo, hi)
    ensures a.heap == b.heap
  {
  }

  lemma GrownTwice(a: Space, b: Space, c: Space, lo: nat, mid: nat, hi: nat)
    requires Grown(a, b, lo, mid) && Grown(b, c, mid, hi) && lo <= mid <= hi
    ensures Grown(a, c, lo, hi)
  {
    forall x | !TempIn(x, lo, hi)
      ensures Get(a.vars, x) == Get(c.vars, x)
    {
      assert !TempIn(x, lo, mid) && !TempIn(x, mid, hi);
    }
  }

  /** A result found earlier stays what it is while later temporaries are drawn. */
  lemma FoundKept(result: string, a: Space, b: Space, lo: nat, mid: nat, hi: nat)
    requires Found(result, lo, mid) && Grown(a, b, mid, hi)
    ensures Operand(a.vars, result) == Operand(b.vars, result)
  {
  }

  /** The next temporary gets a value. */
  lemma GrownByOne(a: Space, b: Space, lo: nat, hi: nat, v: word)
    requires Grown(a, b, lo, hi) && lo <= hi
    ensures Grown(a, b.(vars := b.vars[TempName(hi) := v]), lo, hi + 1) && Found(TempName(hi), lo, hi + 1)
    ensures Operand(b.vars[TempName(hi) := v], TempName(hi)) == v
  {
    TempNameNumber(hi);
    var t := TempName(hi);
    forall x | !TempIn(x, lo, hi + 1)
      ensures x != t && !TempIn(x, lo, hi)
    {
    }
  }

  /** Two expressions one after the other. */
  lemma BothCompute(l: Expr, r: Expr, g: GenState, s: Space, a: word, b: word) returns (s2: Space)
    requires Computes(LowerExpr(l, g), g, s, a)
    requires var L := LowerExpr(l, g);
             Computes(LowerExpr(r, L.g), L.g, RunSpace(L.code, s).value, b)
    ensures var (L, R) := (LowerExpr(l, g), LowerExpr(r, LowerExpr(l, g).g));
            && RunSpace(L.code + R.code, s) == Some(s2) && g.temps <= R.g.temps && Grown(s, s2, g.temps, R.g.temps)
            && Operand(s2.vars, L.result) == a && Operand(s2.vars, R.result) == b
  {
    hide RunSpace, Grown, Found, Operand, LowerExpr;
    var L := LowerExpr(l, g);
    var R := LowerExpr(r, L.g);
    var s1 := RunSpace(L.code, s).value;
    s2 := RunSpace(R.code, s1).value;
    RunAppend(L.code, R.code, s);
    GrownTwice(s, s1, s2, g.temps, L.g.temps, R.g.temps);
    FoundKept(L.result, s1, s2, g.temps, L.g.temps, R.g.temps);
  }

  /** Where the computation of an expression ends. */
  lemma ComputesMeans(L: Lowered, g: GenState, s: Space, v: word)
    requires Computes(L, g, s, v)
    ensures RunSpace(L.code, s).Some? && Grown(s, RunSpace(L.code, s).value, g.temps, L.g.temps)
    ensures g.temps <= L.g.temps && Operand(RunSpace(L.code, s).value.vars, L.result) == v
  {
    hide RunSpace, Grown, Found;
  }

  lemma ComputesIs(L: Lowered, g: GenState, s: Space, s1: Space, v: word)
    requires RunSpace(L.code, s) == Some(s1) && g.temps <= L.g.temps && Found(L.result, g.temps, L.g.temps)
    requires Grown(s, s1, g.temps, L.g.temps) && Operand(s1.vars, L.result) == v
    ensures Computes(L, g, s, v)
  {
    hide RunSpace, Grown, Found;
  }

  /** The code for a pure expression computes its value, with one byte to an element. */
  lemma {:induction false} PureComputes(e: Expr, g: GenState, s: Space)
    requires Pure(e) && Eval(1, e, s).Some?
    ensures Computes(LowerExpr(e, g), g, s, Eval(1, e, s).value)
    decreases e, 1
  {
    hide RunSpace, Grown, Found, Computes, LowerExpr;
    match e
    case BinaryOp(op, l, r) => BinaryComputes(e, g, s);
    case UnaryOp(op, x) => UnaryComputes(e, g, s);
    case ArrayAccess(a, i) => ElementComputes(e, g, s);
    case _ => LeafComputes(e, g, s);
  }

  lemma LeafComputes(e: Expr, g: GenState, s: Space)
    requires Pure(e) && !e.BinaryOp? && !e.UnaryOp? && !e.ArrayAccess?
    ensures Eval(1, e, s).Some? && Computes(LowerExpr(e, g), g, s, Eval(1, e, s).value)
  {
    match e
    case IntegerLiteral(n) => ConstantNumeral(n);
    case CharLiteral(c) => ConstantNumeral(c as nat);
    case _ =>
  }

  lemma {:induction false} BinaryComputes(e: Expr, g: GenState, s: Space)
    requires e.BinaryOp? && Pure(e) && Eval(1, e, s).Some?
    ensures Computes(LowerExpr(e, g), g, s, Eval(1, e, s).value)
    decreases e, 0
  {
    hide RunSpace, Grown, Found, Computes, Operand;
    var (l, r) := (e.left, e.right);
    var L := LowerExpr(l, g);
    var R := LowerExpr(r, L.g);
    PureComputes(l, g, s);
    ComputesMeans(L, g, s, Eval(1, l, s).value);
    var s1 := RunSpace(L.code, s).value;
    EvalGrown(1, r, s, s1, g.temps, L.g.temps);
    PureComputes(r, L.g, s1);
    var s2 := BothCompute(l, r, g, s, Eval(1, l, s).value, Eval(1, r, s).value);
    var i := BinaryOpIR(TempName(R.g.temps), e.op, L.result, R.result);
    RunThen(L.code + R.code, i, s);
    GrownByOne(s, s2, g.temps, R.g.temps, Eval(1, e, s).value);
    ComputesIs(LowerExpr(e, g), g, s, s2.(vars := s2.vars[TempName(R.g.temps) := Eval(1, e, s).value]),
               Eval(1, e, s).value);
  }

  lemma {:induction false} UnaryComputes(e: Expr, g: GenState, s: Space)
    requires e.UnaryOp? && Pure(e) && Eval(1, e, s).Some?
    ensures Computes(LowerExpr(e, g), g, s, Eval(1, e, s).value)
    decreases e, 0
  {
    hide RunSpace, Grown, Found, Computes, Operand;
    var A := LowerExpr(e.operand, g);
    PureComputes(e.operand, g, s);
    ComputesMeans(A, g, s, Eval(1, e.operand, s).value);
    var s1 := RunSpace(A.code, s).value;
    HeapKept(s, s1, g.temps, A.g.temps);
    var t := TempName(A.g.temps);
    RunThen(A.code, if e.uop == Deref then LoadIR(t, A.result) else UnaryOpIR(t, e.uop, A.result), s);
    GrownByOne(s, s1, g.temps, A.g.temps, Eval(1, e, s).value);
    ComputesIs(LowerExpr(e, g), g, s, s1.(vars := s1.vars[t := Eval(1, e, s).value]), Eval(1, e, s).value);
  }

  /** The address of an element is left in the temporary `t`. */
  lemma {:induction false} AddressComputes(a: Expr, i: Expr, g: GenState, s: Space, e: Expr) returns (s3: Space)
    requires Pure(a) && Pure(i) && Eval(1, a, s).Some? && Eval(1, i, s).Some?
    requires e == ArrayAccess(a, i)
    ensures var A := LowerExpr(a, g);
            var I := LowerExpr(i, A.g);
            var t := TempName(I.g.temps);
            && RunSpace(A.code + I.code + [BinaryOpIR(t, Add, A.result, I.result)], s) == Some(s3)
            && g.temps <= I.g.temps && Grown(s, s3, g.temps, I.g.temps + 1)
            && Operand(s3.vars, t) == Element(1, Eval(1, a, s).value, Eval(1, i, s).value)
    decreases e, 0
  {
    hide RunSpace, Grown, Found, Computes, Operand, LowerExpr, Pure, Eval;
    var A := LowerExpr(a, g);
    var I := LowerExpr(i, A.g);
    PureComputes(a, g, s);
    ComputesMeans(A, g, s, Eval(1, a, s).value);
    var s1 := RunSpace(A.code, s).value;
    EvalGrown(1, i, s, s1, g.temps, A.g.temps);
    PureComputes(i, A.g, s1);
    var s2 := BothCompute(a, i, g, s, Eval(1, a, s).value, Eval(1, i, s).value);
    var t := TempName(I.g.temps);
    RunThen(A.code + I.code, BinaryOpIR(t, Add, A.result, I.result), s);
    var v := Element(1, Eval(1, a, s).value, Eval(1, i, s).value);
    GrownByOne(s, s2, g.temps, I.g.temps, v);
    s3 := s2.(vars := s2.vars[t := v]);
  }

  lemma {:induction false} ElementComputes(e: Expr, g: GenState, s: Space)
    requires e.ArrayAccess? && Pure(e) && Eval(1, e, s).Some?
    ensures Computes(LowerExpr(e, g), g, s, Eval(1, e, s).value)
    decreases e, 1, 0
  {
    hide RunSpace, Grown, Found, Computes, Operand;
    var A := LowerExpr(e.base, g);
    var I := LowerExpr(e.index, A.g);
    var s3 := AddressComputes(e.base, e.index, g, s, e);
    var (t, u) := (TempName(I.g.temps), TempName(I.g.temps + 1));
    var code := A.code + I.code + [BinaryOpIR(t, Add, A.result, I.result)];
    HeapKept(s, s3, g.temps, I.g.temps + 1);
    RunThen(code, LoadIR(u, t), s);
    assert LowerExpr(e, g).code == code + [LoadIR(u, t)];
    GrownByOne(s, s3, g.temps, I.g.temps + 1, Eval(1, e, s).value);
    ComputesIs(LowerExpr(e, g), g, s, s3.(vars := s3.vars[u := Eval(1, e, s).value]), Eval(1, e, s).value);
  }

  // ------------------------------------------------------------------ assignments

  /** An assignment through a pointer or to an element writes its value at its place, and nothing
      else, with one byte to an element. */
  lemma AssignmentWrites(target: Expr, v: Expr, g: GenState, s: Space)
    requires target.ArrayAccess? ==> Pure(target.base) && Pure(target.index)
    requires target.UnaryOp? ==> Pure(target.operand)
    requires Pure(v) && Eval(1, v, s).Some? && Place(1, target, s).Some? && Place(1, target, s).value in s.heap
    ensures var L := LowerExpr(Assignment(target, v), g);
            var r := RunSpace(L.code, s);
            && r.Some? && r.value.heap == s.heap[Place(1, target, s).value := Eval(1, v, s).value]
            && Operand(r.value.vars, L.result) == Eval(1, v, s).value
            && forall x :: !TempIn(x, g.temps, L.g.temps) ==> Get(r.value.vars, x) == Get(s.vars, x)
  {
    hide RunSpace, Found, Computes, Pure, Eval;
    var V := LowerExpr(v, g);
    PureComputes(v, g, s);
    ComputesMeans(V, g, s, Eval(1, v, s).value);
    var s1 := RunSpace(V.code, s).value;
    HeapKept(s, s1, g.temps, V.g.temps);
    PureFound(v, g, s);
    match target
    case ArrayAccess(a, i) => ElementWritten(a, i, v, g, s, s1);
    case UnaryOp(_, p) => PointedWritten(p, v, g, s, s1);
  }

  lemma PureFound(e: Expr, g: GenState, s: Space)
    requires Pure(e) && Eval(1, e, s).Some?
    ensures Found(LowerExpr(e, g).result, g.temps, LowerExpr(e, g).g.temps)
  {
    PureComputes(e, g, s);
    hide LowerExpr, Pure, Eval, RunSpace, Found, Grown;
  }

  /** What storing `value` at an address does to the space `b`, which has grown from `a`. */
  lemma Stored1(a: Space, b: Space, lo: nat, hi: nat, address: string, value: string, p: word, v: word)
    requires Grown(a, b, lo, hi) && Operand(b.vars, address) == p && Operand(b.vars, value) == v && p in a.heap
    ensures StepSpace(StoreIR(address, value), b) == Some(b.(heap := a.heap[p := v]))
    ensures forall x :: !TempIn(x, lo, hi) ==> Get(b.vars, x) == Get(a.vars, x)
  {
  }

  lemma ElementWritten(a: Expr, i: Expr, v: Expr, g: GenState, s: Space, s1: Space)
    requires Pure(a) && Pure(i) && Eval(1, v, s).Some? && Eval(1, a, s).Some? && Eval(1, i, s).Some?
    requires var V := LowerExpr(v, g);
             && RunSpace(V.code, s) == Some(s1) && g.temps <= V.g.temps && Grown(s, s1, g.temps, V.g.temps)
             && Found(V.result, g.temps, V.g.temps) && Operand(s1.vars, V.result) == Eval(1, v, s).value
    requires Element(1, Eval(1, a, s).value, Eval(1, i, s).value) in s.heap
    ensures var L := LowerExpr(Assignment(ArrayAccess(a, i), v), g);
            var r := RunSpace(L.code, s);
            var p := Element(1, Eval(1, a, s).value, Eval(1, i, s).value);
            && r.Some? && r.value.heap == s.heap[p := Eval(1, v, s).value]
            && Operand(r.value.vars, L.result) == Eval(1, v, s).value
            && forall x :: !TempIn(x, g.temps, L.g.temps) ==> Get(r.value.vars, x) == Get(s.vars, x)
  {
    hide RunSpace, Grown, Found, Computes, Operand, Pure, Eval, StepSpace;
    var V := LowerExpr(v, g);
    var A := LowerExpr(a, V.g);
    var I := LowerExpr(i, A.g);
    var t := TempName(I.g.temps);
    EvalGrown(1, a, s, s1, g.temps, V.g.temps);
    EvalGrown(1, i, s, s1, g.temps, V.g.temps);
    var s3 := AddressComputes(a, i, V.g, s1, ArrayAccess(a, i));
    var code := A.code + I.code + [BinaryOpIR(t, Add, A.result, I.result)];
    RunAppend(V.code, code, s);
    RunThen(V.code + code, StoreIR(t, V.result), s);
    assert LowerExpr(Assignment(ArrayAccess(a, i), v), g).code == V.code + code + [StoreIR(t, V.result)];
    GrownTwice(s, s1, s3, g.temps, V.g.temps, I.g.temps + 1);
    FoundKept(V.result, s1, s3, g.temps, V.g.temps, I.g.temps + 1);
    Stored1(s, s3, g.temps, I.g.temps + 1, t, V.result, Element(1, Eval(1, a, s).value, Eval(1, i, s).value),
            Eval(1, v, s).value);
  }

  lemma PointedWritten(p: Expr, v: Expr, g: GenState, s: Space, s1: Space)
    requires Pure(p) && Eval(1, v, s).Some? && Eval(1, p, s).Some? && Eval(1, p, s).value in s.heap
    requires var V := LowerExpr(v, g);
             && RunSpace(V.code, s) == Some(s1) && g.temps <= V.g.temps && Grown(s, s1, g.temps, V.g.temps)
             && Found(V.result, g.temps, V.g.temps) && Operand(s1.vars, V.result) == Eval(1, v, s).value
    ensures var L := LowerExpr(Assignment(UnaryOp(Deref, p), v), g);
            var r := RunSpace(L.code, s);
            && r.Some? && r.value.heap == s.heap[Eval(1, p, s).value := Eval(1, v, s).value]
            && Operand(r.value.vars, L.result) == Eval(1, v, s).value
            && forall x :: !TempIn(x, g.temps, L.g.temps) ==> Get(r.value.vars, x) == Get(s.vars, x)
  {
    hide RunSpace, Grown, Found, Computes, Operand, Pure, Eval, StepSpace;
    var V := LowerExpr(v, g);
    var P := LowerExpr(p, V.g);
    EvalGrown(1, p, s, s1, g.temps, V.g.temps);
    PureComputes(p, V.g, s1);
    ComputesMeans(P, V.g, s1, Eval(1, p, s).value);
    var s2 := RunSpace(P.code, s1).value;
    RunAppend(V.code, P.code, s);
    RunThen(V.code + P.code, StoreIR(P.result, V.result), s);
    GrownTwice(s, s1, s2, g.temps, V.g.temps, P.g.temps);
    FoundKept(V.result, s1, s2, g.temps, V.g.temps, P.g.temps);
    Stored1(s, s2, g.temps, P.g.temps, P.result, V.result, Eval(1, p, s).value, Eval(1, v, s).value);
  }

  // ------------------------------------------------------------------ exactly when the address is C's

  /** No element inside. */
  predicate Flat(e: Expr) {
    match e
    case BinaryOp(_, l, r) => Flat(l) && Flat(r)
    case UnaryOp(_, x) => Flat(x)
    case ArrayAccess(_, _) => false
    case _ => true
  }

  /** Where there are no elements their size does not matter. */
  lemma {:induction false} EvalFlat(size: nat, e: Expr, s: Space)
    requires Flat(e)
    ensures Eval(size, e, s) == Eval(1, e, s)
    decreases e
  {
    match e
    case BinaryOp(_, l, r) =>
      EvalFlat(size, l, s);
      EvalFlat(size, r, s);
    case UnaryOp(_, x) => EvalFlat(size, x, s);
    case _ =>
  }

  /** Indices are not scaled: the place of an element of an array of int, four bytes each, is the place
      the code goes to if and only if the index is 0. */
  lemma ElementExactly(a: Expr, i: Expr, s: Space)
    requires Flat(a) && Flat(i) && Eval(1, a, s).Some? && Eval(1, i, s).Some?
    ensures Place(4, ArrayAccess(a, i), s).Some?
    ensures Place(1, ArrayAccess(a, i), s) == Place(4, ArrayAccess(a, i), s) <==> Eval(1, i, s) == Some(0)
  {
    EvalFlat(4, a, s);
    EvalFlat(4, i, s);
    ThreeTimes(Eval(1, a, s).value, Eval(1, i, s).value);
    hide Eval, Element;
  }

  lemma ThreeTimes(a: word, i: word)
    ensures Element(1, a, i) == Element(4, a, i) <==> i == 0
  {
    var (x, y) := (Element(1, a, i), Element(4, a, i));
    var (p, q) := ((a + i - x) / TWO32, (a + 4 * i - y) / TWO32);
    assert a + i == x + p * TWO32 && a + 4 * i == y + q * TWO32;
    hide Element, Wrap;
    if x == y {
      assert 3 * i == (q - p) * TWO32;
      assert -1 <= q - p <= 1;
    }
  }

  /** p && *p reads through p even when it is 0: C gives 0 and does not read. The code gets through if
      and only if there is something to read at p. */
  lemma GuardedReadExactly(p: string, g: GenState, s: Space)
    requires NameOk(p)
    ensures var e := BinaryOp(LogAnd, Identifier(p), UnaryOp(Deref, Identifier(p)));
            && (RunSpace(LowerExpr(e, g).code, s).Some? <==> Get(s.vars, p) in s.heap)
            && (Get(s.vars, p) == 0 ==> Eval(1, e, s) == Some(0))
  {
    var (t, u) := (TempName(g.temps), TempName(g.temps + 1));
    var e := BinaryOp(LogAnd, Identifier(p), UnaryOp(Deref, Identifier(p)));
    var code := [LoadIR(t, p), BinaryOpIR(u, LogAnd, p, t)];
    assert [] + ([] + [LoadIR(t, p)]) + [BinaryOpIR(u, LogAnd, p, t)] == code;
    assert LowerExpr(e, g).code == code;
    assert code[1..] == [BinaryOpIR(u, LogAnd, p, t)] && code[1..][1..] == [];
    assert Operand(s.vars, p) == Get(s.vars, p);
    if Get(s.vars, p) in s.heap {
      var s1 := StepSpace(LoadIR(t, p), s).value;
      assert RunSpace(code[1..], s1) == StepSpace(BinaryOpIR(u, LogAnd, p, t), s1);
    }
  }

  // ------------------------------------------------------------------ the assembly

  /** A word read into a register, or written from one. */
  function Transfer(line: Line, cpu: Cpu): Option<Cpu> {
    match line
    case Ldr(rd, rn) =>
      var p := Unsigned(cpu.regs[rn]);
      if p in cpu.mem then Some(SetReg(cpu, rd, cpu.mem[p])) else None
    case Str(rd, rn) =>
      var p := Unsigned(cpu.regs[rn]);
      if p in cpu.mem then Some(cpu.(mem := cpu.mem[p := cpu.regs[rd]])) else None
    case _ => None
  }

  /** The processor's memory holds the words of the heap. */
  ghost predicate Held(h: Heap, mem: map<int, word>) {
    forall p :: p in h ==> Unsigned(p) in mem && mem[Unsigned(p)] == h[p]
  }

  /** Some lines, and then one that reads or writes memory. */
  function RunTransfer(w: World, arity: Arity, lines: seq<Line>, cpu: Cpu): Option<Cpu>
    requires lines != []
  {
    var r := RunLines(w, arity, lines[..|lines| - 1], cpu);
    if r.None? then None else Transfer(lines[|lines| - 1], r.value)
  }

  /** A load leaves the word at the address in the name's register. */
  lemma LoadSimulated(w: World, arity: Arity, m: Assignment, c: Context, t: string, a: string, l: Local, h: Heap,
                      cpu: Cpu, fr: ArmSimulation.Frame)
    requires MapOk(m) && Match(m, [], l, cpu, fr) && t in m && Known(m, a) && Held(h, cpu.mem)
    requires StepSpace(LoadIR(t, a), Space(l.store, h)).Some?
    ensures var code := GenInstr(m, c, LoadIR(t, a));
            var s := StepSpace(LoadIR(t, a), Space(l.store, h)).value;
            && code != []
            && var r := RunTransfer(w, arity, code, cpu);
               r.Some? && Match(m, [], l.(store := s.vars), r.value, fr) && Held(s.heap, r.value.mem)
  {
    hide RunLines, OperandLines, FrameHeld, Operand, MapOk, Known;
    OperandLoads(w, arity, m, [], a, l, cpu, fr);
    var code := GenInstr(m, c, LoadIR(t, a));
    assert code[..|code| - 1] == OperandLines(a);
    var c1 := RunLines(w, arity, OperandLines(a), cpu).value;
    var v := h[Operand(l.store, a)];
    PoolRegs(m);
    MatchSet(m, [], l, c1, fr, t, v, SetReg(c1, m[t], v));
    hide Match;
  }

  /** A store writes the value at the address and leaves every name's register alone, unless address
      and value are two constants. */
  lemma StoreSimulated(w: World, arity: Arity, m: Assignment, c: Context, a: string, v: string, l: Local, h: Heap,
                       cpu: Cpu, fr: ArmSimulation.Frame)
    requires MapOk(m) && Match(m, [], l, cpu, fr) && Known(m, a) && Known(m, v) && Held(h, cpu.mem)
    requires StepSpace(StoreIR(a, v), Space(l.store, h)).Some? && (IsConstant(a) && IsConstant(v) ==> a == v)
    ensures var code := GenInstr(m, c, StoreIR(a, v));
            var s := StepSpace(StoreIR(a, v), Space(l.store, h)).value;
            && code != []
            && var r := RunTransfer(w, arity, code, cpu);
               && r.Some? && Held(s.heap, r.value.mem) && s.vars == l.store
               && (forall x :: x in m ==> r.value.regs[m[x]] == cpu.regs[m[x]]) && r.value.regs[SP] == cpu.regs[SP]
               && r.value.mem == cpu.mem[Unsigned(Operand(l.store, a)) := Operand(l.store, v)]
  {
    hide RunLines, OperandLines, FrameHeld, MapOk, Known, Match, Operand;
    var c1, c2 := TwoLoaded(w, arity, m, a, v, l, cpu, fr);
    var code := GenInstr(m, c, StoreIR(a, v));
    assert code[..|code| - 1] == OperandLines(a) + OperandLines(v);
    RunLinesAppend(w, arity, OperandLines(a), OperandLines(v), cpu);
    HeldWrite(h, cpu.mem, Operand(l.store, a), Operand(l.store, v));
    hide Held;
    PoolRegs(m);
  }

  lemma HeldWrite(h: Heap, mem: map<int, word>, p: word, v: word)
    requires Held(h, mem)
    ensures Held(h[p := v], mem[Unsigned(p) := v])
  {
    forall q | q in h && q != p
      ensures Unsigned(q) != Unsigned(p)
    {
      assert Wrap(Unsigned(q)) == q && Wrap(Unsigned(p)) == p;
    }
    hide Unsigned, Wrap;
  }

  /** Both operands in registers; only r12 has changed. */
  lemma TwoLoaded(w: World, arity: Arity, m: Assignment, a: string, v: string, l: Local, cpu: Cpu,
                  fr: ArmSimulation.Frame)
      returns (c1: Cpu, c2: Cpu)
    requires MapOk(m) && Match(m, [], l, cpu, fr) && Known(m, a) && Known(m, v)
    ensures RunLines(w, arity, OperandLines(a), cpu) == Some(c1)
    ensures RunLines(w, arity, OperandLines(v), c1) == Some(c2)
    ensures c2.mem == cpu.mem && forall q: Reg :: q != IP ==> c2.regs[q] == cpu.regs[q]
    ensures c2.regs[OperandReg(m, v)] == Operand(l.store, v)
    ensures c2.regs[OperandReg(m, a)] == if IsConstant(a) && IsConstant(v) then Operand(l.store, v)
                                         else Operand(l.store, a)
  {
    hide RunLines, OperandLines, FrameHeld, Operand, MapOk;
    OperandLoads(w, arity, m, [], a, l, cpu, fr);
    c1 := RunLines(w, arity, OperandLines(a), cpu).value;
    OperandLoads(w, arity, m, [], v, l, c1, fr);
    c2 := RunLines(w, arity, OperandLines(v), c1).value;
    PoolRegs(m);
    hide Match;
  }

  /** Two constants share r12: the word is written at the address that the value is. That is the memory
      meant if and only if the two are equal, or both places held that value already. */
  lemma StoreExactly(w: World, arity: Arity, m: Assignment, c: Context, a: string, v: string, l: Local, cpu: Cpu,
                     fr: ArmSimulation.Frame)
    requires MapOk(m) && Match(m, [], l, cpu, fr) && IsConstant(a) && IsConstant(v)
    requires Unsigned(Operand(l.store, a)) in cpu.mem && Unsigned(Operand(l.store, v)) in cpu.mem
    ensures var (p, x) := (Operand(l.store, a), Operand(l.store, v));
            var code := GenInstr(m, c, StoreIR(a, v));
            && code != []
            && var r := RunTransfer(w, arity, code, cpu);
               && r.Some? && r.value.mem == cpu.mem[Unsigned(x) := x]
               && (r.value.mem == cpu.mem[Unsigned(p) := x]
                   <==> p == x || (cpu.mem[Unsigned(p)] == x && cpu.mem[Unsigned(x)] == x))
  {
    hide RunLines, OperandLines, FrameHeld, MapOk, Match, Operand;
    var c1, c2 := TwoLoaded(w, arity, m, a, v, l, cpu, fr);
    var code := GenInstr(m, c, StoreIR(a, v));
    assert code[..|code| - 1] == OperandLines(a) + OperandLines(v);
    RunLinesAppend(w, arity, OperandLines(a), OperandLines(v), cpu);
    WriteElsewhere(cpu.mem, Unsigned(Operand(l.store, a)), Unsigned(Operand(l.store, v)), Operand(l.store, v));
    assert Wrap(Unsigned(Operand(l.store, a))) == Operand(l.store, a);
    assert Wrap(Unsigned(Operand(l.store, v))) == Operand(l.store, v);
    hide Unsigned, Wrap;
  }

  lemma WriteElsewhere(mem: map<int, word>, p: int, q: int, x: word)
    requires p in mem && q in mem
    ensures mem[q := x] == mem[p := x] <==> p == q || (mem[p] == x && mem[q] == x)
  {
    var (one, other) := (mem[q := x], mem[p := x]);
    if one == other && p != q {
      assert one[p] == other[p] && one[q] == other[q];
    }
  }

  /** The address of a variable comes out as its value: variables live in registers. */
  lemma AddressIsValue(w: World, arity: Arity, m: Assignment, c: Context, t: string, x: string, l: Local, cpu: Cpu,
                       fr: ArmSimulation.Frame)
    requires MapOk(m) && Match(m, [], l, cpu, fr) && t in m && Known(m, x)
    ensures var r := RunLines(w, arity, GenInstr(m, c, UnaryOpIR(t, AddrOf, x)), cpu);
            r.Some? && Match(m, [], l.(store := l.store[t := Operand(l.store, x)]), r.value, fr)
  {
    hide RunLines, OperandLines, FrameHeld, Operand, Known;
    OperandLoads(w, arity, m, [], x, l, cpu, fr);
    var c1 := RunLines(w, arity, OperandLines(x), cpu).value;
    PoolRegs(m);
    var (note, move) := (Text("@ Address-of operator"), Mov(AL, m[t], OperandReg(m, x)));
    RunLinesAppend(w, arity, OperandLines(x), [note, move], cpu);
    Run2(w, arity, note, move, c1);
    MatchSet(m, [], l, c1, fr, t, Operand(l.store, x), SetReg(c1, m[t], c1.regs[OperandReg(m, x)]));
    hide Match, MapOk;
  }
}
