/** Label discipline of generated code: within one function every label is defined exactly once
    and every jump goes to a label of that function. */
module Labels {
  import opened Words
  import opened Ast
  import opened IrGenerator
  import opened IrMachine
  import Decimal

  function Defined(code: seq<Instr>): set<string> {
    set i | 0 <= i < |code| && code[i].LabelIR? :: code[i].mark
  }

  function Jumps(code: seq<Instr>): set<string> {
    set i | 0 <= i < |code| && (code[i].GotoIR? || code[i].CondGotoIR?) :: code[i].mark
  }

  /** No label is defined at two places. */
  ghost predicate UniqueLabels(code: seq<Instr>) {
    forall i, j :: 0 <= i < j < |code| && code[i].LabelIR? && code[j].LabelIR? ==> code[i].mark != code[j].mark
  }

  /** The labels numbered from `lo` up to but not including `hi`. */
  function Numbered(lo: nat, hi: nat): set<string> {
    set k: nat | lo <= k < hi :: LabelName(k)
  }

  lemma LabelNameInjective(m: nat, n: nat)
    requires LabelName(m) == LabelName(n)
    ensures m == n
  {
    assert LabelName(m)[1..] == Decimal.Show(m) && LabelName(n)[1..] == Decimal.Show(n);
    Decimal.ShowInjective(m, n);
  }

  lemma NumberedDisjoint(a: nat, b: nat, c: nat, d: nat)
    requires b <= c || d <= a
    ensures Numbered(a, b) !! Numbered(c, d)
  {
    forall x | x in Numbered(a, b) && x in Numbered(c, d)
      ensures false
    {
      var m: nat :| a <= m < b && x == LabelName(m);
      var n: nat :| c <= n < d && x == LabelName(n);
      LabelNameInjective(m, n);
    }
  }

  lemma Joined(a: seq<Instr>, b: seq<Instr>)
    ensures Defined(a + b) == Defined(a) + Defined(b)
    ensures Jumps(a + b) == Jumps(a) + Jumps(b)
    ensures UniqueLabels(a) && UniqueLabels(b) && Defined(a) !! Defined(b) ==> UniqueLabels(a + b)
  {
    var c := a + b;
    forall x | x in Defined(a) + Defined(b) || x in Jumps(a) + Jumps(b)
      ensures x in Defined(a) + Defined(b) ==> x in Defined(c)
      ensures x in Jumps(a) + Jumps(b) ==> x in Jumps(c)
    {
      assert forall i :: 0 <= i < |a| ==> c[i] == a[i];
      assert forall i :: 0 <= i < |b| ==> c[|a| + i] == b[i];
    }
    if UniqueLabels(a) && UniqueLabels(b) && Defined(a) !! Defined(b) {
      forall i, j | 0 <= i < j < |c| && c[i].LabelIR? && c[j].LabelIR?
        ensures c[i].mark != c[j].mark
      {
        if i < |a| <= j {
          assert c[i].mark in Defined(a) && c[j].mark in Defined(b) by {
            assert c[j] == b[j - |a|];
          }
        }
      }
    }
  }

  /** No labels and no jumps at all. */
  ghost predicate Straight(code: seq<Instr>) {
    forall i :: 0 <= i < |code| ==> !code[i].LabelIR? && !code[i].GotoIR? && !code[i].CondGotoIR?
  }

  lemma StraightHasNone(code: seq<Instr>)
    requires Straight(code)
    ensures Defined(code) == {} && Jumps(code) == {} && UniqueLabels(code)
  {
  }

  lemma StraightJoin(a: seq<Instr>, b: seq<Instr>)
    requires Straight(a) && Straight(b)
    ensures Straight(a + b)
  {
  }

  lemma StraightEnd(code: seq<Instr>, tail: seq<Instr>)
    requires Straight(code) && forall i :: i in tail ==> !i.LabelIR? && !i.GotoIR? && !i.CondGotoIR?
    ensures Straight(code + tail)
  {
    assert forall k :: 0 <= k < |tail| ==> tail[k] in tail;
  }

  lemma {:induction false} ExprIsStraight(e: Expr, g: GenState)
    ensures Straight(LowerExpr(e, g).code) && LowerExpr(e, g).g.labels == g.labels
    decreases e, 1
  {
    hide LowerArgs, LowerElementStore, Straight, TempName, Decimal.Show;
    StraightNothing();
    match e
    case Identifier(_) =>
    case IntegerLiteral(_) =>
    case CharLiteral(_) =>
    case StringLiteral(s) => StringIsStraight(s, g);
    case BinaryOp(op, l, r) =>
      var L := LowerExpr(l, g);
      var R := LowerExpr(r, L.g);
      ExprIsStraight(l, g);
      ExprIsStraight(r, L.g);
      StraightJoin(L.code, R.code);
      StraightEnd(L.code + R.code, [BinaryOpIR(TempName(R.g.temps), op, L.result, R.result)]);
    case UnaryOp(op, a) =>
      var A := LowerExpr(a, g);
      ExprIsStraight(a, g);
      var t := TempName(A.g.temps);
      StraightEnd(A.code, [if op == Deref then LoadIR(t, A.result) else UnaryOpIR(t, op, A.result)]);
    case Assignment(t, v) =>
      var V := LowerExpr(v, g);
      ExprIsStraight(v, g);
      if t.Identifier? {
        StraightEnd(V.code, [AssignIR(t.name, V.result)]);
      } else if t.ArrayAccess? {
        StoreIsStraight(t, V.result, V.g);
        StraightJoin(V.code, LowerElementStore(t, V.result, V.g).code);
      } else if t.UnaryOp? && t.uop == Deref {
        var P := LowerExpr(t.operand, V.g);
        ExprIsStraight(t.operand, V.g);
        StraightJoin(V.code, P.code);
        StraightEnd(V.code + P.code, [StoreIR(P.result, V.result)]);
      }
    case FunctionCall(f, args) =>
      var A := LowerArgs(args, g);
      ArgsAreStraight(args, g);
      StraightEnd(A.code, [CallIR(TempName(A.g.temps), f, |args|)]);
    case ArrayAccess(a, i) =>
      var A := LowerExpr(a, g);
      var I := LowerExpr(i, A.g);
      ExprIsStraight(a, g);
      ExprIsStraight(i, A.g);
      StraightJoin(A.code, I.code);
      var (t, u) := (TempName(I.g.temps), TempName(I.g.temps + 1));
      StraightEnd(A.code + I.code, [BinaryOpIR(t, Add, A.result, I.result), LoadIR(u, t)]);
  }

  lemma StringIsStraight(s: string, g: GenState)
    ensures var L := LowerExpr(StringLiteral(s), g);
            Straight(L.code) && L.g.labels == g.labels
  {
  }

  lemma StraightNothing()
    ensures Straight([])
  {
  }

  lemma {:induction false} StoreIsStraight(t: Expr, value: string, g: GenState)
    requires t.ArrayAccess?
    ensures Straight(LowerElementStore(t, value, g).code) && LowerElementStore(t, value, g).g.labels == g.labels
    decreases t, 0
  {
    ExprIsStraight(t.base, g);
    ExprIsStraight(t.index, LowerExpr(t.base, g).g);
  }

  lemma {:induction false} ArgsAreStraight(es: seq<Expr>, g: GenState)
    ensures Straight(LowerArgs(es, g).code) && LowerArgs(es, g).g.labels == g.labels
    decreases es, 0
  {
    if es != [] {
      ExprIsStraight(es[0], g);
      ArgsAreStraight(es[1..], LowerExpr(es[0], g).g);
    }
  }

  /** Code whose labels are exactly those numbered from `lo` to `hi`, each defined once. */
  ghost predicate Disciplined(code: seq<Instr>, lo: nat, hi: nat) {
    lo <= hi && UniqueLabels(code) && Defined(code) == Numbered(lo, hi)
  }

  lemma NumberedSplit(lo: nat, mid: nat, hi: nat)
    requires lo <= mid <= hi
    ensures Numbered(lo, hi) == Numbered(lo, mid) + Numbered(mid, hi)
  {
    forall x | x in Numbered(lo, hi)
      ensures x in Numbered(lo, mid) + Numbered(mid, hi)
    {
      var k: nat :| lo <= k < hi && x == LabelName(k);
      assert k < mid || mid <= k;
    }
  }

  lemma DisciplinedJoin(a: seq<Instr>, b: seq<Instr>, lo: nat, mid: nat, hi: nat)
    requires Disciplined(a, lo, mid) && Disciplined(b, mid, hi)
    ensures Disciplined(a + b, lo, hi)
  {
    NumberedDisjoint(lo, mid, mid, hi);
    NumberedSplit(lo, mid, hi);
    Joined(a, b);
  }

  lemma StraightIsDisciplined(code: seq<Instr>, lo: nat)
    requires Straight(code)
    ensures Disciplined(code, lo, lo)
  {
  }

  lemma OptionalIsStraight(e: Option<Expr>, g: GenState)
    ensures Straight(LowerOptional(e, g).code) && LowerOptional(e, g).g.labels == g.labels
  {
    if e.Some? {
      ExprIsStraight(e.value, g);
    }
  }

  lemma TestJumps(test: Option<Expr>, lEnd: string, g: GenState)
    ensures Defined(LowerTest(test, lEnd, g).code) == {} && Jumps(LowerTest(test, lEnd, g).code) <= {lEnd}
    ensures LowerTest(test, lEnd, g).g.labels == g.labels
  {
    if test.Some? {
      ExprIsStraight(test.value, g);
    }
  }

  /** A statement defines exactly the labels it draws from the generator, each once, and jumps
      only to labels it defines. */
  lemma {:induction false} StmtLabels(s: Stmt, g: GenState)
    ensures var B := LowerStmt(s, g);
            Disciplined(B.code, g.labels, B.g.labels) && Jumps(B.code) <= Defined(B.code)
    decreases s, 1
  {
    match s
    case VarDecl(_, _, init) =>
      if init.Some? {
        ExprIsStraight(init.value, g);
      }
      StraightIsDisciplined(LowerStmt(s, g).code, g.labels);
    case CompoundStmt(ss) => StmtsLabels(ss, g);
    case ExprStmt(e) =>
      OptionalIsStraight(e, g);
      StraightIsDisciplined(LowerStmt(s, g).code, g.labels);
    case IfStmt(_, _, _) => IfLabels(s, g);
    case WhileStmt(c, body) =>
      LoopLabels(None, Some(c), None, body, g);
      WhileIsFor(c, body, g);
    case ForStmt(init, test, incr, body) => LoopLabels(init, test, incr, body, g);
    case ReturnStmt(v) =>
      if v.Some? {
        ExprIsStraight(v.value, g);
      }
      StraightIsDisciplined(LowerStmt(s, g).code, g.labels);
  }

  lemma {:induction false} StmtsLabels(ss: seq<Stmt>, g: GenState)
    ensures var B := LowerStmts(ss, g);
            Disciplined(B.code, g.labels, B.g.labels) && Jumps(B.code) <= Defined(B.code)
    decreases ss, 0
  {
    if ss == [] {
      StraightIsDisciplined([], g.labels);
    } else {
      var S := LowerStmt(ss[0], g);
      var rest := LowerStmts(ss[1..], S.g);
      StmtLabels(ss[0], g);
      StmtsLabels(ss[1..], S.g);
      DisciplinedJoin(S.code, rest.code, g.labels, S.g.labels, rest.g.labels);
      Joined(S.code, rest.code);
    }
  }

  /** A while loop is generated exactly as the for loop with only a test. */
  lemma WhileIsFor(c: Expr, body: Stmt, g: GenState)
    ensures LowerStmt(WhileStmt(c, body), g) == LowerStmt(ForStmt(None, Some(c), None, body), g)
  {
    hide LowerExpr;
    var (lStart, lEnd) := (LabelName(g.labels), LabelName(g.labels + 1));
    var C := LowerExpr(c, g.(labels := g.labels + 2));
    var B := LowerStmt(body, C.g);
    var T := C.code + [CondGotoIR(C.result, lEnd, false)];
    assert [LabelIR(lStart)] + C.code + [CondGotoIR(C.result, lEnd, false)] + B.code + [GotoIR(lStart), LabelIR(lEnd)]
        == [] + [LabelIR(lStart)] + T + B.code + [] + [GotoIR(lStart), LabelIR(lEnd)];
  }

  lemma LabelAlone(n: nat)
    ensures Disciplined([LabelIR(LabelName(n))], n, n + 1)
    ensures Numbered(n, n + 1) == {LabelName(n)} && Jumps([LabelIR(LabelName(n))]) == {}
  {
    var one := [LabelIR(LabelName(n))];
    assert one[0].mark in Defined(one);
  }

  lemma NoneIsUnique(code: seq<Instr>)
    requires Defined(code) == {}
    ensures UniqueLabels(code)
  {
    assert forall i :: 0 <= i < |code| && code[i].LabelIR? ==> code[i].mark in Defined(code);
  }

  /** Code with no labels of its own, in front of one label or one jump. */
  lemma Ended(a: seq<Instr>, last: Instr)
    requires Defined(a) == {} && UniqueLabels(a)
    requires last.LabelIR? || last.GotoIR? || last.CondGotoIR?
    ensures UniqueLabels(a + [last])
    ensures Defined(a + [last]) == if last.LabelIR? then {last.mark} else {}
    ensures Jumps(a + [last]) == Jumps(a) + if last.LabelIR? then {} else {last.mark}
  {
    assert [last][0].mark == last.mark;
    assert Defined([last]) == if last.LabelIR? then {last.mark} else {};
    assert Jumps([last]) == if last.LabelIR? then {} else {last.mark};
    Joined(a, [last]);
  }

  /** Two labels numbered `n` and `n + 1` around code that uses the numbers after them. */
  lemma Bracketed(a: seq<Instr>, b: seq<Instr>, c: seq<Instr>, n: nat, hi: nat)
    requires n + 2 <= hi && UniqueLabels(b)
    requires UniqueLabels(a) && UniqueLabels(c) && Defined(a) !! Defined(c)
    requires Defined(b) !! Defined(a) && Defined(b) !! Defined(c)
    requires Defined(a) + Defined(b) + Defined(c) == Numbered(n, hi)
    ensures Disciplined(a + b + c, n, hi) && Jumps(a + b + c) == Jumps(a) + Jumps(b) + Jumps(c)
  {
    Joined(a, b);
    Joined(a + b, c);
  }

  lemma TwoLabels(n: nat, hi: nat)
    requires n + 2 <= hi
    ensures LabelName(n) != LabelName(n + 1)
    ensures Numbered(n, hi) == {LabelName(n), LabelName(n + 1)} + Numbered(n + 2, hi)
    ensures LabelName(n) !in Numbered(n + 2, hi) && LabelName(n + 1) !in Numbered(n + 2, hi)
  {
    LabelAlone(n);
    LabelAlone(n + 1);
    NumberedSplit(n, n + 1, hi);
    NumberedSplit(n + 1, n + 2, hi);
    NumberedDisjoint(n, n + 1, n + 1, hi);
    NumberedDisjoint(n + 1, n + 2, n + 2, hi);
    assert LabelName(n + 1) in Numbered(n + 1, n + 2);
  }

  lemma {:induction false} LoopLabels(init: Option<Expr>, test: Option<Expr>, incr: Option<Expr>, body: Stmt,
                                      g: GenState)
    ensures var B := LowerStmt(ForStmt(init, test, incr, body), g);
            Disciplined(B.code, g.labels, B.g.labels) && Jumps(B.code) <= Defined(B.code)
    decreases body, 2
  {
    hide LowerExpr, Defined, Jumps, UniqueLabels, Numbered;
    var I := LowerOptional(init, g);
    var n := g.labels;
    OptionalIsStraight(init, g);
    var (lStart, lEnd) := (LabelName(n), LabelName(n + 1));
    var T := LowerTest(test, lEnd, I.g.(labels := n + 2));
    TestJumps(test, lEnd, I.g.(labels := n + 2));
    var B := LowerStmt(body, T.g);
    StmtLabels(body, T.g);
    var N := LowerOptional(incr, B.g);
    OptionalIsStraight(incr, B.g);
    LoopShape(I.code, T.code, B.code, N.code, n, B.g.labels);
  }

  lemma LoopShape(i: seq<Instr>, t: seq<Instr>, b: seq<Instr>, incr: seq<Instr>, n: nat, hi: nat)
    requires Straight(i) && Straight(incr) && Defined(t) == {} && Jumps(t) <= {LabelName(n + 1)}
    requires Disciplined(b, n + 2, hi) && Jumps(b) <= Defined(b)
    ensures var (lStart, lEnd) := (LabelName(n), LabelName(n + 1));
            var code := i + [LabelIR(lStart)] + t + b + incr + [GotoIR(lStart), LabelIR(lEnd)];
            Disciplined(code, n, hi) && Jumps(code) <= Defined(code)
  {
    var (lStart, lEnd) := (LabelName(n), LabelName(n + 1));
    var (x, y) := (i + [LabelIR(lStart)], [GotoIR(lStart)] + [LabelIR(lEnd)]);
    var middle := t + b + incr;
    assert i + [LabelIR(lStart)] + t + b + incr + [GotoIR(lStart), LabelIR(lEnd)] == x + middle + y;
    TwoLabels(n, hi);
    Ended(i, LabelIR(lStart));
    Ended([], GotoIR(lStart));
    assert [] + [GotoIR(lStart)] == [GotoIR(lStart)];
    Ended([GotoIR(lStart)], LabelIR(lEnd));
    NoneIsUnique(t);
    Joined(t, b);
    Joined(t + b, incr);
    StraightHasNone(i);
    StraightHasNone(incr);
    Bracketed(x, middle, y, n, hi);
  }

  lemma {:induction false} IfLabels(s: Stmt, g: GenState)
    requires s.IfStmt?
    ensures var B := LowerStmt(s, g);
            Disciplined(B.code, g.labels, B.g.labels) && Jumps(B.code) <= Defined(B.code)
    decreases s, 0
  {
    var C := LowerExpr(s.condition, g);
    var n := g.labels;
    ExprIsStraight(s.condition, g);
    var T := LowerStmt(s.thenStmt, C.g.(labels := n + 2));
    StmtLabels(s.thenStmt, C.g.(labels := n + 2));
    var E := if s.elseStmt.Some? then LowerStmt(s.elseStmt.value, T.g) else Block([], T.g);
    if s.elseStmt.Some? {
      StmtLabels(s.elseStmt.value, T.g);
    } else {
      StraightIsDisciplined([], T.g.labels);
    }
    IfShape(C.code, C.result, T.code, E.code, n, T.g.labels, E.g.labels);
  }

  lemma IfShape(c: seq<Instr>, result: string, t: seq<Instr>, e: seq<Instr>, n: nat, mid: nat, hi: nat)
    requires Straight(c)
    requires Disciplined(t, n + 2, mid) && Jumps(t) <= Defined(t)
    requires Disciplined(e, mid, hi) && Jumps(e) <= Defined(e)
    ensures var (lElse, lEnd) := (LabelName(n), LabelName(n + 1));
            var code := c + [CondGotoIR(result, lElse, false)] + t + [GotoIR(lEnd), LabelIR(lElse)] + e
                        + [LabelIR(lEnd)];
            Disciplined(code, n, hi) && Jumps(code) <= Defined(code)
  {
    var (lElse, lEnd) := (LabelName(n), LabelName(n + 1));
    var x := c + [CondGotoIR(result, lElse, false)];
    var m := [GotoIR(lEnd), LabelIR(lElse)];
    var y := [LabelIR(lEnd)];
    var middle := t + m + e;
    assert c + [CondGotoIR(result, lElse, false)] + t + m + e + y == x + middle + y;
    TwoLabels(n, hi);
    StraightHasNone(c);
    Ended(c, CondGotoIR(result, lElse, false));
    LabelAlone(n + 1);
    IfMiddle(t, m, e, lElse, lEnd, n, mid, hi);
    Bracketed(x, middle, y, n, hi);
  }

  lemma IfMiddle(t: seq<Instr>, m: seq<Instr>, e: seq<Instr>, lElse: string, lEnd: string, n: nat, mid: nat, hi: nat)
    requires Disciplined(t, n + 2, mid) && Disciplined(e, mid, hi)
    requires m == [GotoIR(lEnd), LabelIR(lElse)] && lElse !in Numbered(n + 2, hi)
    ensures UniqueLabels(t + m + e) && Defined(t + m + e) == {lElse} + Numbered(n + 2, hi)
    ensures Jumps(t + m + e) == Jumps(t) + {lEnd} + Jumps(e)
  {
    assert m[0].mark == lEnd && m[1].mark == lElse;
    assert Defined(m) == {lElse} && Jumps(m) == {lEnd};
    NumberedSplit(n + 2, mid, hi);
    NumberedDisjoint(n + 2, mid, mid, hi);
    Joined(t, m);
    Joined(t + m, e);
  }

  /** Label discipline of a whole function: it starts counting at L0, defines every label it
      draws exactly once, and every jump in it finds its label in it. */
  lemma FunctionLabels(f: Function, g: GenState)
    requires f.body != []
    ensures var B := LowerFunction(f, g);
            && UniqueLabels(B.code)
            && Defined(B.code) == Numbered(0, B.g.labels)
            && Jumps(B.code) <= Defined(B.code)
  {
    var B := LowerStmts(f.body, g.(temps := 0, labels := 0));
    StmtsLabels(f.body, g.(temps := 0, labels := 0));
    Joined([FunctionEntryIR(f.name)], B.code);
    Joined([FunctionEntryIR(f.name)] + B.code, [FunctionExitIR(f.name)]);
  }

  /** With unique labels, the machine finds a label exactly where it is defined. */
  lemma {:induction false} TargetIsDefinition(code: seq<Instr>, i: nat)
    requires UniqueLabels(code) && i < |code| && code[i].LabelIR?
    ensures Target(code, code[i].mark) == i
    decreases |code|
  {
    if i > 0 {
      var rest := code[1..];
      assert forall j :: 0 <= j < |rest| ==> rest[j] == code[j + 1];
      TargetIsDefinition(rest, i - 1);
      assert code[0] != LabelIR(code[i].mark);
    }
  }
}
