/** Exactly when lowered code does something else. */
module LoweringLimits {
  // Outside the domain of the lowering theorems the code can do something else than the source means.
  // For each condition of the domain: exactly when it does, and an input where it does.

  import opened Words
  import opened Ast
  import opened IrGenerator
  import opened IrMachine
  import opened Source
  import opened Domain
  import opened Labels
  import opened Lowering
  import opened LoweringStmt
  import Decimal

  /** The code of `e` yields the value `e` has and leaves the memory `e` leaves. */
  ghost predicate Right(w: World, e: Expr, g: GenState, m: Memory, l: Local) {
    var L := LowerExpr(e, g);
    var E := EvalExpr(w, e, m);
    var run := RunLocal(w, L.code, l);
    && E.Value? && run.Some? && Operand(run.value.store, L.result) == E.v
    && Ready(E.m.frames, E.m.trace, run.value)
  }

  // ------------------------------------------------------------------ what an expression leaves alone

  ghost predicate HasValue(fs: Frames, x: string) {
    Lookup(fs, x).Some? && Lookup(fs, x).value.Set?
  }

  /** A variable with a value keeps having one, the same one unless `xs` holds it. */
  ghost predicate Keeps(a: Frames, b: Frames, xs: set<string>) {
    forall x :: HasValue(a, x) ==> HasValue(b, x) && (x !in xs ==> Lookup(b, x) == Lookup(a, x))
  }

  lemma KeepsThen(a: Frames, b: Frames, c: Frames, xs: set<string>, ys: set<string>)
    requires Keeps(a, b, xs) && Keeps(b, c, ys)
    ensures Keeps(a, c, xs + ys)
  {
  }

  lemma {:induction false} EvalKeeps(w: World, e: Expr, m: Memory)
    requires EvalExpr(w, e, m).Value?
    ensures Keeps(m.frames, EvalExpr(w, e, m).m.frames, Assigned(e))
    decreases e, 1
  {
    match e
    case BinaryOp(op, a, b) =>
      var A := EvalExpr(w, a, m);
      EvalKeeps(w, a, m);
      if !Skips(op, A.v) {
        EvalKeeps(w, b, A.m);
        KeepsThen(m.frames, A.m.frames, EvalExpr(w, b, A.m).m.frames, Assigned(a), Assigned(b));
      }
    case UnaryOp(_, a) => EvalKeeps(w, a, m);
    case Assignment(t, v) =>
      var V := EvalExpr(w, v, m);
      EvalKeeps(w, v, m);
      UpdateKeeps(V.m.frames, t.name, V.v);
      KeepsThen(m.frames, V.m.frames, Update(V.m.frames, t.name, V.v), Assigned(v), {t.name});
    case FunctionCall(_, args) => ArgsKeep(w, args, m);
    case _ =>
  }

  lemma {:induction false} ArgsKeep(w: World, es: seq<Expr>, m: Memory)
    requires EvalArgs(w, es, m).Values?
    ensures Keeps(m.frames, EvalArgs(w, es, m).m.frames, AssignedIn(es))
    decreases es, 0
  {
    if es != [] {
      var E := EvalExpr(w, es[0], m);
      EvalKeeps(w, es[0], m);
      ArgsKeep(w, es[1..], E.m);
      KeepsThen(m.frames, E.m.frames, EvalArgs(w, es[1..], E.m).m.frames, Assigned(es[0]), AssignedIn(es[1..]));
    }
  }

  lemma UpdateKeeps(fs: Frames, x: string, v: word)
    requires Lookup(fs, x).Some?
    ensures Keeps(fs, Update(fs, x, v), {x})
  {
    forall y
      ensures Lookup(Update(fs, x, v), y) == if y == x then Some(Set(v)) else Lookup(fs, y)
    {
      LookupUpdate(fs, x, v, y);
    }
  }

  // ------------------------------------------------------------------ binary operations

  /** The value the left operand has when the operation is done: that of its variable after the
      right operand, if it is read from a variable. */
  function LateValue(left: Expr, v: word, after: Frames): word {
    var x := ResultVar(left);
    if x.Some? && Lookup(after, x.value).Some? && Lookup(after, x.value).value.Set?
    then Lookup(after, x.value).value.v else v
  }

  /** An expression read from a variable has the value of that variable. */
  lemma ResultValue(w: World, e: Expr, m: Memory)
    requires EvalExpr(w, e, m).Value? && ResultVar(e).Some?
    ensures Lookup(EvalExpr(w, e, m).m.frames, ResultVar(e).value) == Some(Set(EvalExpr(w, e, m).v))
  {
    if e.Assignment? {
      var V := EvalExpr(w, e.source, m);
      LookupUpdate(V.m.frames, e.target.name, V.v, e.target.name);
    }
  }

  /** Both operands have a meaning, whether or not C evaluates the right one. */
  ghost predicate Operands(w: World, e: Expr, m: Memory, l: Local) {
    && e.BinaryOp? && ScalarExpr(w, e.left) && ScalarExpr(w, e.right) && Ready(m.frames, m.trace, l)
    && (e.op == LogAnd || e.op == LogOr ==> Always(w, e.op))
    && EvalExpr(w, e, m).Value? && EvalExpr(w, e.left, m).Value?
    && EvalExpr(w, e.right, EvalExpr(w, e.left, m).m).Value?
  }

  lemma BothMean(w: World, e: Expr, m: Memory, l: Local, v: word, m1: Memory, v2: word)
    requires e.BinaryOp? && ScalarExpr(w, e.left) && ScalarExpr(w, e.right) && Ready(m.frames, m.trace, l)
    requires EvalExpr(w, e.left, m) == Value(v, m1) && EvalExpr(w, e.right, m1).Value?
    requires EvalExpr(w, e.right, m1).v == v2 && w.defined(e.op, v, v2)
    requires e.op == LogAnd || e.op == LogOr ==> Always(w, e.op)
    ensures Operands(w, e, m, l)
  {
  }

  /** What the code does, in all cases: both operands, then the operation on the late left value. */
  lemma BinaryRun(w: World, e: Expr, g: GenState, m: Memory, l: Local)
    requires Operands(w, e, m, l)
    ensures var L := LowerExpr(e, g);
            var A := EvalExpr(w, e.left, m);
            var R := EvalExpr(w, e.right, A.m);
            var v := w.Result(e.op, LateValue(e.left, A.v, R.m.frames), R.v);
            var run := RunLocal(w, L.code, l);
            && run.Some? == v.Some? && NamesOk(A.m.frames)
            && (run.Some? ==> Operand(run.value.store, L.result) == v.value && Ready(R.m.frames, R.m.trace, run.value))
  {
    hide Lookup, Keys, LowerExpr, EvalExpr, Agrees, NamesOk, Preserves, ResultOk, ResultVar, Assigned, ScalarExpr,
      RunLocal, Operand, LateValue;
    var A := LowerExpr(e.left, g);
    var B := LowerExpr(e.right, A.g);
    var E := EvalExpr(w, e.left, m);
    var R := EvalExpr(w, e.right, E.m);
    ExprCorrect(w, e.left, g, m, l);
    var l1 := RunLocal(w, A.code, l).value;
    ExprCorrect(w, e.right, A.g, E.m, l1);
    var l2 := RunLocal(w, B.code, l1).value;
    LateOperand(w, e, g, m, l1.store, l2.store);
    RunLocalAppend(w, A.code, B.code, l);
    var t := TempName(B.g.temps);
    var i := BinaryOpIR(t, e.op, A.result, B.result);
    RunOneMore(w, A.code + B.code, i, l, l2);
    BinaryCode(e, g);
    var v := w.Result(e.op, LateValue(e.left, E.v, R.m.frames), R.v);
    if v.Some? {
      TempOperand(l2.store, B.g.temps, v.value);
      SetTemp(R.m.frames, l2.store, B.g.temps, v.value);
    }
  }

  lemma BinaryCode(e: Expr, g: GenState)
    requires e.BinaryOp?
    ensures var A := LowerExpr(e.left, g);
            var B := LowerExpr(e.right, A.g);
            var (t, L) := (TempName(B.g.temps), LowerExpr(e, g));
            L.code == A.code + B.code + [BinaryOpIR(t, e.op, A.result, B.result)] && L.result == t
  {
  }

  lemma TempOperand(store: Store, k: nat, v: word)
    ensures Operand(store[TempName(k) := v], TempName(k)) == v
  {
    TempNameNumber(k);
  }

  /** What the left operand reads as after the right one. */
  lemma LateOperand(w: World, e: Expr, g: GenState, m: Memory, a: Store, b: Store)
    requires e.BinaryOp? && ScalarExpr(w, e.left) && ScalarExpr(w, e.right) && EvalExpr(w, e.left, m).Value?
    requires EvalExpr(w, e.right, EvalExpr(w, e.left, m).m).Value?
    requires var A := LowerExpr(e.left, g);
             && g.temps <= A.g.temps && ResultOk(e.left, A.result, g.temps, A.g.temps)
             && Operand(a, A.result) == EvalExpr(w, e.left, m).v
             && Preserves(a, b, Assigned(e.right), A.g.temps, LowerExpr(e.right, A.g).g.temps)
    requires Agrees(EvalExpr(w, e.right, EvalExpr(w, e.left, m).m).m.frames, b)
    ensures var A := EvalExpr(w, e.left, m);
            Operand(b, LowerExpr(e.left, g).result)
            == LateValue(e.left, A.v, EvalExpr(w, e.right, A.m).m.frames)
  {
    hide LowerExpr, EvalExpr, Lookup, ResultVar, Assigned, ScalarExpr;
    AssignedOk(w, e.right);
    var A := EvalExpr(w, e.left, m);
    if ResultVar(e.left).Some? {
      ResultValue(w, e.left, m);
      EvalKeeps(w, e.right, A.m);
      VariableResult(w, e.left, g);
    }
  }

  lemma VariableResult(w: World, e: Expr, g: GenState)
    requires ScalarExpr(w, e) && ResultVar(e).Some?
    ensures LowerExpr(e, g).result == ResultVar(e).value && NameOk(ResultVar(e).value)
  {
  }

  /** Evaluating the right operand made no call and changed no variable that has a value. */
  ghost predicate NoEffect(a: Memory, b: Memory) {
    b.trace == a.trace && forall x :: HasValue(a.frames, x) ==> Lookup(b.frames, x) == Lookup(a.frames, x)
  }

  /** A binary operation is lowered right if and only if, when C skips its right operand, that
      operand has no effect, and when C does not, the operation yields the same on what its left
      operand reads as afterwards. */
  lemma BinaryExactly(w: World, e: Expr, g: GenState, m: Memory, l: Local)
    requires Operands(w, e, m, l)
    ensures var A := EvalExpr(w, e.left, m);
            var R := EvalExpr(w, e.right, A.m);
            Right(w, e, g, m, l)
            <==> if Skips(e.op, A.v) then NoEffect(A.m, R.m)
                 else w.Result(e.op, LateValue(e.left, A.v, R.m.frames), R.v) == Some(EvalBin(e.op, A.v, R.v))
  {
    hide Lookup, Keys, LowerExpr, EvalExpr, NamesOk, ResultVar, ScalarExpr, RunLocal, Operand, EvalBin;
    var A := EvalExpr(w, e.left, m);
    var R := EvalExpr(w, e.right, A.m);
    BinaryRun(w, e, g, m, l);
    BinaryMeans(w, e, m);
    if Skips(e.op, A.v) {
      EvalKeeps(w, e.right, A.m);
      SkippedValue(w, e, m);
    }
  }

  lemma BinaryMeans(w: World, e: Expr, m: Memory)
    requires e.BinaryOp? && EvalExpr(w, e, m).Value?
    ensures var A := EvalExpr(w, e.left, m);
            var R := EvalExpr(w, e.right, A.m);
            A.Value? && if Skips(e.op, A.v) then EvalExpr(w, e, m) == Value(if e.op == LogAnd then 0 else 1, A.m)
                        else R.Value? && w.defined(e.op, A.v, R.v)
                             && EvalExpr(w, e, m) == Value(EvalBin(e.op, A.v, R.v), R.m)
  {
  }

  /** Without an effect of the right operand, the left one still makes C skip it. */
  lemma SkippedValue(w: World, e: Expr, m: Memory)
    requires e.BinaryOp? && EvalExpr(w, e.left, m).Value? && Skips(e.op, EvalExpr(w, e.left, m).v) && Always(w, e.op)
    requires EvalExpr(w, e.right, EvalExpr(w, e.left, m).m).Value?
    ensures var A := EvalExpr(w, e.left, m);
            var R := EvalExpr(w, e.right, A.m);
            NoEffect(A.m, R.m) ==>
              w.Result(e.op, LateValue(e.left, A.v, R.m.frames), R.v) == Some(if e.op == LogAnd then 0 else 1)
  {
    hide Lookup, EvalExpr, ResultVar;
    var A := EvalExpr(w, e.left, m);
    if ResultVar(e.left).Some? {
      ResultValue(w, e.left, m);
    }
  }

  // ------------------------------------------------------------------ a variable is read late

  /** With right operand `b` the operator tells any two left operands apart. */
  ghost predicate InjectiveAt(w: World, op: BinOp, b: word) {
    forall a: word, c: word :: w.Result(op, a, b) == w.Result(op, c, b) ==> a == c
  }

  /** A left operand read from x: right if x has the same value after the right operand as before
      it, whatever the operator, and for operators that tell left operands apart only then. */
  lemma LateReadExactly(w: World, e: Expr, x: string, g: GenState, m: Memory, l: Local)
    requires Operands(w, e, m, l) && ResultVar(e.left) == Some(x) && !Skips(e.op, EvalExpr(w, e.left, m).v)
    ensures var A := EvalExpr(w, e.left, m);
            var R := EvalExpr(w, e.right, A.m);
            && (Lookup(R.m.frames, x) == Lookup(A.m.frames, x) ==> Right(w, e, g, m, l))
            && (InjectiveAt(w, e.op, R.v) ==>
                  (Right(w, e, g, m, l) <==> Lookup(R.m.frames, x) == Lookup(A.m.frames, x)))
  {
    hide Lookup, EvalExpr, ResultVar, Right, EvalBin, Operands;
    OperandsMean(w, e, m, l);
    var A := EvalExpr(w, e.left, m);
    BinaryExactly(w, e, g, m, l);
    BinaryMeans(w, e, m);
    ResultValue(w, e.left, m);
    EvalKeeps(w, e.right, A.m);
    assert HasValue(A.m.frames, x);
    var R := EvalExpr(w, e.right, A.m);
    assert w.Result(e.op, A.v, R.v) == Some(EvalBin(e.op, A.v, R.v));
  }

  lemma OperandsMean(w: World, e: Expr, m: Memory, l: Local)
    requires Operands(w, e, m, l)
    ensures e.BinaryOp? && EvalExpr(w, e, m).Value? && EvalExpr(w, e.left, m).Value?
    ensures EvalExpr(w, e.right, EvalExpr(w, e.left, m).m).Value?
  {
    hide EvalExpr, ScalarExpr;
  }

  /** Sums, differences and exclusive ors tell their left operands apart. */
  lemma SumsAreInjective(w: World, op: BinOp, b: word)
    requires op in {Add, Sub, BitXor} && Always(w, op)
    ensures InjectiveAt(w, op, b)
  {
    forall a: word, c: word | w.Result(op, a, b) == w.Result(op, c, b)
      ensures a == c
    {
      assert w.defined(op, a, b) && w.defined(op, c, b);
      hide EvalBin;
      EqualResults(op, a, c, b);
    }
  }

  lemma EqualResults(op: BinOp, a: word, c: word, b: word)
    requires op in {Add, Sub, BitXor} && EvalBin(op, a, b) == EvalBin(op, c, b)
    ensures a == c
  {
    if op == BitXor {
      EqualXors(a, c, b);
    } else {
      EqualSums(op, a, c, b);
    }
  }

  lemma EqualSums(op: BinOp, a: word, c: word, b: word)
    requires op in {Add, Sub} && EvalBin(op, a, b) == EvalBin(op, c, b)
    ensures a == c
  {
    EqualWraps(a, c, if op == Add then b else 0 - b as int);
    hide Wrap;
  }

  lemma EqualWraps(a: word, c: word, k: int)
    ensures Wrap(a + k) == Wrap(c + k) ==> a == c
  {
  }

  lemma EqualXors(a: word, c: word, b: word)
    requires BitsW(Xor, a, b) == BitsW(Xor, c, b)
    ensures a == c
  {
    XorTwice(Unsigned(a), Unsigned(b));
    XorTwice(Unsigned(c), Unsigned(b));
    XorWord(a, b);
    XorWord(c, b);
    hide Bits, BitsW;
  }

  lemma {:induction false} XorTwice(x: nat, y: nat)
    ensures Bits(Xor, Bits(Xor, x, y), y) == x
  {
    if x > 0 || y > 0 {
      XorTwice(x / 2, y / 2);
      var z := Bits(Xor, x, y);
      assert z / 2 == Bits(Xor, x / 2, y / 2) && z % 2 == OneBit(Xor, x, y);
      assert z > 0 || y > 0 ==> Bits(Xor, z, y) == OneBit(Xor, z, y) + 2 * Bits(Xor, z / 2, y / 2);
    }
  }

  /** The exclusive or of two words fits a word. */
  lemma XorWord(a: word, b: word)
    ensures Unsigned(BitsW(Xor, a, b)) == Bits(Xor, Unsigned(a), Unsigned(b))
  {
    WordPower();
    BitsBounded(Xor, Unsigned(a), Unsigned(b), 32);
  }

  /** x + (x = n) gives n + n, not x + n, whenever x was not n already. */
  lemma LateReadFails(w: World, x: string, n: nat, g: GenState, v: word, store: Store)
    requires NameOk(x) && Always(w, Add) && v != Wrap(n) && Get(store, x) == v
    ensures var e := BinaryOp(Add, Identifier(x), Assignment(Identifier(x), IntegerLiteral(n)));
            var m := Memory([map[x := Set(v)]], []);
            var L := LowerExpr(e, g);
            var run := RunLocal(w, L.code, Local(store, [], []));
            && EvalExpr(w, e, m) == Value(EvalBin(Add, v, Wrap(n)), Memory([map[x := Set(Wrap(n))]], []))
            && run.Some? && Operand(run.value.store, L.result) == EvalBin(Add, Wrap(n), Wrap(n)) != EvalExpr(w, e, m).v
  {
    hide *;
    var e := BinaryOp(Add, Identifier(x), Assignment(Identifier(x), IntegerLiteral(n)));
    var (m, l) := (Memory([map[x := Set(v)]], []), Local(store, [], []));
    var b := Wrap(n);
    LateSource(w, x, n, v, l);
    SumOf(w, b, b);
    LateIs(x, v, b);
    BinaryRun(w, e, g, m, l);
    BinarySum(w, e, m);
    SumsDiffer(w, v, b, b);
  }

  lemma BinarySum(w: World, e: Expr, m: Memory)
    requires e.BinaryOp? && e.op == Add && EvalExpr(w, e.left, m).Value? && Always(w, Add)
    requires EvalExpr(w, e.right, EvalExpr(w, e.left, m).m).Value?
    ensures var A := EvalExpr(w, e.left, m);
            var R := EvalExpr(w, e.right, A.m);
            EvalExpr(w, e, m) == Value(EvalBin(Add, A.v, R.v), R.m)
  {
    assert w.defined(Add, EvalExpr(w, e.left, m).v, EvalExpr(w, e.right, EvalExpr(w, e.left, m).m).v);
    hide EvalBin;
  }

  lemma LateIs(x: string, v: word, late: word)
    ensures LateValue(Identifier(x), v, [map[x := Set(late)]]) == late
  {
  }

  lemma SumsDiffer(w: World, a: word, c: word, b: word)
    requires Always(w, Add) && a != c
    ensures EvalBin(Add, a, b) != EvalBin(Add, c, b)
  {
    SumsAreInjective(w, Add, b);
    assert w.defined(Add, a, b) && w.defined(Add, c, b);
    hide EvalBin;
    assert w.Result(Add, a, b) == Some(EvalBin(Add, a, b)) && w.Result(Add, c, b) == Some(EvalBin(Add, c, b));
  }

  lemma LateSource(w: World, x: string, n: nat, v: word, l: Local)
    requires NameOk(x) && Always(w, Add) && Get(l.store, x) == v && l.trace == []
    ensures var e := BinaryOp(Add, Identifier(x), Assignment(Identifier(x), IntegerLiteral(n)));
            var (m, m') := (Memory([map[x := Set(v)]], []), Memory([map[x := Set(Wrap(n))]], []));
            && EvalExpr(w, e.left, m) == Value(v, m) && EvalExpr(w, e.right, m) == Value(Wrap(n), m')
            && Lookup(m'.frames, x) == Some(Set(Wrap(n))) && Operands(w, e, m, l)
  {
    var e := BinaryOp(Add, Identifier(x), Assignment(Identifier(x), IntegerLiteral(n)));
    var m := Memory([map[x := Set(v)]], []);
    OneVariable(x, v, l.store);
    AssignOne(w, x, n, v);
    assert EvalExpr(w, Identifier(x), m) == Value(v, m);
    hide EvalExpr, Lookup, Keys, Agrees, NamesOk, NameOk, Wrap, EvalBin;
    SumOf(w, v, Wrap(n));
    BothMean(w, e, m, l, v, m, Wrap(n));
  }

  lemma SumOf(w: World, a: word, b: word)
    requires Always(w, Add)
    ensures w.defined(Add, a, b)
    ensures w.Result(Add, a, b) == Some(EvalBin(Add, a, b))
  {
    assert w.defined(Add, a, b);
  }

  /** x = n in a memory of one variable. */
  lemma AssignOne(w: World, x: string, n: nat, v: word)
    ensures var a := Assignment(Identifier(x), IntegerLiteral(n));
            var m' := Memory([map[x := Set(Wrap(n))]], []);
            EvalExpr(w, a, Memory([map[x := Set(v)]], [])) == Value(Wrap(n), m')
                && Lookup(m'.frames, x) == Some(Set(Wrap(n)))
  {
    var m := Memory([map[x := Set(v)]], []);
    assert m.frames[0][x := Set(Wrap(n))] == map[x := Set(Wrap(n))];
    assert Update(m.frames, x, Wrap(n)) == [map[x := Set(Wrap(n))]];
    assert EvalExpr(w, IntegerLiteral(n), m) == Value(Wrap(n), m);
  }

  lemma OneVariable(x: string, v: word, store: Store)
    requires NameOk(x) && Get(store, x) == v
    ensures Agrees([map[x := Set(v)]], store) && NamesOk([map[x := Set(v)]])
    ensures Lookup([map[x := Set(v)]], x) == Some(Set(v))
  {
    var fs := [map[x := Set(v)]];
    assert fs[..0] == [];
    forall y
      ensures Lookup(fs, y) == if y == x then Some(Set(v)) else None
    {
    }
    assert Keys(fs) == {x};
  }

  // ------------------------------------------------------------------ a name like a temporary's

  /** A variable with the name of the next temporary is overwritten by it: x + -n is right if and only
      if x had the value of -n already. */
  lemma TempNameExactly(w: World, n: nat, g: GenState, v: word, store: Store)
    requires Always(w, Add) && Get(store, TempName(g.temps)) == v
    ensures var x := TempName(g.temps);
            var e := BinaryOp(Add, Identifier(x), UnaryOp(Neg, IntegerLiteral(n)));
            var E := EvalExpr(w, e, Memory([map[x := Set(v)]], []));
            var L := LowerExpr(e, g);
            var run := RunLocal(w, L.code, Local(store, [], []));
            && E.Value? && run.Some?
            && (Operand(run.value.store, L.result) == E.v <==> v == Wrap(0 - Wrap(n)))
  {
    var (x, b) := (TempName(g.temps), Wrap(0 - Wrap(n)));
    var (m, l) := (Memory([map[x := Set(v)]], []), Local(store, [], []));
    var minus := UnaryOp(Neg, IntegerLiteral(n));
    var e := BinaryOp(Add, Identifier(x), minus);
    assert EvalExpr(w, Identifier(x), m) == Value(v, m);
    assert EvalExpr(w, IntegerLiteral(n), m) == Value(Wrap(n), m);
    assert EvalExpr(w, minus, m) == Value(b, m);
    SumOf(w, v, b);
    SumOf(w, b, b);
    assert EvalExpr(w, e, m) == Value(EvalBin(Add, v, b), m);
    TempNameCode(n, g);
    TempNameNumber(g.temps);
    ConstantNumeral(n);
    hide EvalExpr, LowerExpr, EvalBin;
    var l1 := l.(store := store[x := b]);
    var neg := UnaryOpIR(x, Neg, Decimal.Show(n));
    RunLocalOne(w, neg, l);
    TempOperand(store, g.temps, b);
    RunOneMore(w, [neg], BinaryOpIR(TempName(g.temps + 1), Add, x, x), l, l1);
    TempOperand(l1.store, g.temps + 1, EvalBin(Add, b, b));
    SumsAreInjective(w, Add, b);
  }

  lemma TempNameCode(n: nat, g: GenState)
    ensures var x := TempName(g.temps);
            var L := LowerExpr(BinaryOp(Add, Identifier(x), UnaryOp(Neg, IntegerLiteral(n))), g);
            L == Lowered([UnaryOpIR(x, Neg, Decimal.Show(n))] + [BinaryOpIR(TempName(g.temps + 1), Add, x, x)],
                         TempName(g.temps + 1), g.(temps := g.temps + 2))
  {
    hide TempName, Decimal.Show, LowerArgs, LowerElementStore;
    var x := TempName(g.temps);
    var minus := UnaryOp(Neg, IntegerLiteral(n));
    assert LowerExpr(minus, g) == Lowered([] + [UnaryOpIR(x, Neg, Decimal.Show(n))], x, g.(temps := g.temps + 1));
    assert [] + [UnaryOpIR(x, Neg, Decimal.Show(n))] == [UnaryOpIR(x, Neg, Decimal.Show(n))];
  }

  // ------------------------------------------------------------------ && and || evaluate both operands

  /** l && r and l || r are lowered right if and only if C evaluates r or r has no effect: no call,
      and no change of a variable that has a value. */
  lemma EagerExactly(w: World, e: Expr, g: GenState, m: Memory, l: Local)
    requires Operands(w, e, m, l) && (e.op == LogAnd || e.op == LogOr)
    requires ResultVar(e.left).Some? ==> ResultVar(e.left).value !in Assigned(e.right)
    ensures var A := EvalExpr(w, e.left, m);
            var R := EvalExpr(w, e.right, A.m);
            Right(w, e, g, m, l) <==> !Skips(e.op, A.v) || NoEffect(A.m, R.m)
  {
    hide Lookup, EvalExpr, ResultVar, Right, Assigned, Operands;
    OperandsMean(w, e, m, l);
    var A := EvalExpr(w, e.left, m);
    BinaryExactly(w, e, g, m, l);
    BinaryMeans(w, e, m);
    if ResultVar(e.left).Some? {
      ResultValue(w, e.left, m);
      EvalKeeps(w, e.right, A.m);
      assert HasValue(A.m.frames, ResultVar(e.left).value);
    }
  }

  /** 0 && f() and 1 || f() call f, which shows when f makes a call seen outside. */
  lemma EagerCallFails(w: World, op: BinOp, f: string, g: GenState)
    requires (op == LogAnd || op == LogOr) && Always(w, op)
    requires w.call(f, [], []).Some? && w.call(f, [], []).value.trace != []
    ensures var e := BinaryOp(op, IntegerLiteral(if op == LogAnd then 0 else 1), FunctionCall(f, []));
            var (m, l) := (Memory([], []), Local(map[], [], []));
            && EvalExpr(w, e, m) == Value(if op == LogAnd then 0 else 1, m) && !Right(w, e, g, m, l)
  {
    var (v, m, l) := (if op == LogAnd then 0 else 1, Memory([], []), Local(map[], [], []));
    var e := BinaryOp(op, IntegerLiteral(v), FunctionCall(f, []));
    assert EvalExpr(w, e.left, m) == Value(v, m);
    var R := EvalExpr(w, e.right, m);
    assert EvalArgs(w, [], m) == Values([], m);
    assert R.Value? && R.m.trace == w.call(f, [], []).value.trace;
    assert w.defined(op, v, R.v);
    BothMean(w, e, m, l, v, m, R.v);
    EagerExactly(w, e, g, m, l);
  }

  /** 0 && (x = n) and 1 || (x = n) assign x. */
  lemma EagerAssignFails(w: World, op: BinOp, x: string, n: nat, g: GenState, v: word, store: Store)
    requires (op == LogAnd || op == LogOr) && Always(w, op) && NameOk(x) && v != Wrap(n) && Get(store, x) == v
    ensures var left := IntegerLiteral(if op == LogAnd then 0 else 1);
            var e := BinaryOp(op, left, Assignment(Identifier(x), IntegerLiteral(n)));
            var m := Memory([map[x := Set(v)]], []);
            var run := RunLocal(w, LowerExpr(e, g).code, Local(store, [], []));
            && EvalExpr(w, e, m) == Value(if op == LogAnd then 0 else 1, m)
            && run.Some? && Get(run.value.store, x) == Wrap(n)
  {
    var left := IntegerLiteral(if op == LogAnd then 0 else 1);
    var e := BinaryOp(op, left, Assignment(Identifier(x), IntegerLiteral(n)));
    var (m, l) := (Memory([map[x := Set(v)]], []), Local(store, [], []));
    OneVariable(x, v, store);
    AssignOne(w, x, n, v);
    var b := if op == LogAnd then 0 else 1;
    assert EvalExpr(w, left, m) == Value(b, m);
    assert w.defined(op, b, Wrap(n));
    BothMean(w, e, m, l, b, m, Wrap(n));
    hide LowerExpr, RunLocal, EvalExpr, Lookup;
    BinaryRun(w, e, g, m, l);
    BinaryMeans(w, e, m);
  }

  // ------------------------------------------------------------------ scopes are flat

  /** Variables of the innermost scope that hide one with a value. */
  ghost predicate Hidden(fs: Frames, x: string)
    requires fs != []
  {
    x in fs[|fs| - 1] && HasValue(fs[..|fs| - 1], x)
  }

  /** The outer variable has the value of the one that hides it. */
  ghost predicate SameAsHidden(fs: Frames, x: string)
    requires fs != []
  {
    x in fs[|fs| - 1] && Lookup(fs[..|fs| - 1], x) == Some(fs[|fs| - 1][x])
  }

  /** A block whose own declarations may hide outer variables runs right to its end, and leaves the
      outer variables right if and only if each hidden one has, by then, the value of the variable
      that hides it. */
  lemma HidingExactly(w: World, ss: seq<Stmt>, g: GenState, m: Memory, l: Local, code: seq<Instr>, pc: nat, fuel: nat)
      returns (n: nat)
    requires ScalarStmts(w, ss) && NoHidingIn(ss) && InnerDeclsIn(ss) !! Keys(m.frames) && Ready(m.frames, m.trace, l)
    requires HasCode(code, pc, LowerStmt(CompoundStmt(ss), g).code) && UniqueLabels(code)
    requires var r := ExecSeq(w, ss, m.(frames := m.frames + [map[]]), fuel);
             r.Done? && r.m.frames != []
             && forall x :: Hidden(r.m.frames, x) ==> r.m.frames[|r.m.frames| - 1][x].Set?
    ensures var r := ExecSeq(w, ss, m.(frames := m.frames + [map[]]), fuel);
            var out := Exec(w, CompoundStmt(ss), m, fuel);
            var s := Run(w, code, Running(pc, l), n);
            && out == Done(r.o, r.m.(frames := r.m.frames[..|r.m.frames| - 1]))
            && (if r.o == Completed then s.Running? && s.pc == pc + |LowerStmt(CompoundStmt(ss), g).code|
                else s.Returned? && s.value == r.o.value)
            && (Ready(out.m.frames, out.m.trace, s.local)
                <==> forall x :: Hidden(r.m.frames, x) ==> SameAsHidden(r.m.frames, x))
  {
    var fs := m.frames + [map[]];
    var m1 := m.(frames := fs);
    EnterReady(m, l);
    hide Exec, ExecSeq, LowerStmt, LowerStmts, Run, ScalarStmts, NoHidingIn, Lookup, Keys, Agrees, NamesOk;
    BlockIs(w, ss, g, m, fuel);
    n := SeqCorrect(w, ss, g, m1, l, code, pc, fuel);
    var r := ExecSeq(w, ss, m1, fuel);
    LeaveExactly(r.m.frames, r.m.trace, Run(w, code, Running(pc, l), n).local);
  }

  lemma BlockIs(w: World, ss: seq<Stmt>, g: GenState, m: Memory, fuel: nat)
    ensures LowerStmt(CompoundStmt(ss), g).code == LowerStmts(ss, g).code
    ensures Exec(w, CompoundStmt(ss), m, fuel) == Leave(ExecSeq(w, ss, m.(frames := m.frames + [map[]]), fuel))
  {
  }

  lemma LeaveExactly(fs: Frames, trace: seq<Event>, l: Local)
    requires fs != [] && Ready(fs, trace, l) && forall x :: Hidden(fs, x) ==> fs[|fs| - 1][x].Set?
    ensures Ready(fs[..|fs| - 1], trace, l) <==> forall x :: Hidden(fs, x) ==> SameAsHidden(fs, x)
  {
    var outer := fs[..|fs| - 1];
    assert forall x :: x in fs[|fs| - 1] ==> Lookup(fs, x) == Some(fs[|fs| - 1][x]);
    assert forall x :: x !in fs[|fs| - 1] ==> Lookup(fs, x) == Lookup(outer, x);
    assert NamesOk(outer) by {
      assert Keys(outer) <= Keys(fs);
    }
    if Agrees(outer, l.store) {
      forall x | Hidden(fs, x)
        ensures SameAsHidden(fs, x)
      {
        assert Get(l.store, x) == fs[|fs| - 1][x].v;
      }
    }
    if forall x :: Hidden(fs, x) ==> SameAsHidden(fs, x) {
      forall x | HasValue(outer, x)
        ensures Get(l.store, x) == Lookup(outer, x).value.v
      {
        assert Hidden(fs, x) || x !in fs[|fs| - 1];
      }
    }
  }

  /** With x = v, { int x = n; } leaves v in x in the source and n in the code. */
  lemma HidingFails(w: World, x: string, n: nat, g: GenState, v: word, store: Store) returns (k: nat)
    requires NameOk(x) && v != Wrap(n) && Get(store, x) == v
    ensures var s := CompoundStmt([VarDecl(x, None, Some(IntegerLiteral(n)))]);
            var m := Memory([map[x := Set(v)]], []);
            var code := LowerStmt(s, g).code;
            var end := Run(w, code, Running(0, Local(store, [], [])), k);
            && Exec(w, s, m, 0) == Done(Completed, m)
            && end.Running? && end.pc == |code| && Get(end.local.store, x) == Wrap(n)
  {
    var d := VarDecl(x, None, Some(IntegerLiteral(n)));
    var (m, l) := (Memory([map[x := Set(v)]], []), Local(store, [], []));
    var code := LowerStmt(CompoundStmt([d]), g).code;
    var m1 := m.(frames := m.frames + [map[]]);
    OneVariable(x, v, store);
    assert [d][1..] == [];
    var i := AssignIR(x, Decimal.Show(n));
    assert LowerStmts([d], g).code == LowerStmt(d, g).code + [] && LowerStmt(d, g).code == [] + [i];
    assert code == [i];
    ConstantNumeral(n);
    DeclaresOver(w, x, n, v);
    k := 1;
    OneStep(w, code, Running(0, l));
  }

  lemma DeclaresOver(w: World, x: string, n: nat, v: word)
    ensures var m := Memory([map[x := Set(v)]], []);
            Exec(w, CompoundStmt([VarDecl(x, None, Some(IntegerLiteral(n)))]), m, 0) == Done(Completed, m)
  {
    var d := VarDecl(x, None, Some(IntegerLiteral(n)));
    var m := Memory([map[x := Set(v)]], []);
    var m1 := m.(frames := m.frames + [map[]]);
    assert [d][1..] == [];
    assert Exec(w, d, m1, 0).m.frames[..1] == m.frames;
    assert ExecSeq(w, [d], m1, 0) == Exec(w, d, m1, 0);
  }
}
