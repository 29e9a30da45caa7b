/** Three-address code and its generation from syntax trees. */
module IrGenerator {
  import opened Words
  import opened Ast
  import Decimal

  /** Operands are strings: a variable, a temporary `t<n>`, a decimal constant or a string label. */
  datatype Instr =
    | BinaryOpIR(result: string, op: BinOp, left: string, right: string)
    | UnaryOpIR(result: string, uop: UnOp, operand: string)
    | AssignIR(dest: string, source: string)
    | LoadIR(result: string, address: string)
    | StoreIR(address: string, value: string)
    | LabelIR(mark: string)
    | GotoIR(mark: string)
    | CondGotoIR(condition: string, mark: string, isTrue: bool)
    | FunctionEntryIR(name: string)
    | FunctionExitIR(name: string)
    | ParamIR(value: string)
    | CallIR(result: string, callee: string, numArgs: nat)
    | ReturnIR(returned: Option<string>)
    | StringLiteralIR(mark: string, content: string)

  function TempName(n: nat): string {
    "t" + Decimal.Show(n)
  }

  function LabelName(n: nat): string {
    "L" + Decimal.Show(n)
  }

  /** The counters and the string table of the generator. */
  datatype GenState = GenState(temps: nat, labels: nat, strings: map<string, string>, stringCounter: nat)

  /** Before anything is generated. */
  const FRESH: GenState := GenState(0, 0, map[], 0)

  /** Code for an expression, the operand that holds its value, and the generator afterwards. */
  datatype Lowered = Lowered(code: seq<Instr>, result: string, g: GenState)

  /** Code without a value. */
  datatype Block = Block(code: seq<Instr>, g: GenState)

  // ------------------------------------------------------------------ the specification

  function LowerExpr(e: Expr, g: GenState): Lowered
    decreases e, 1
  {
    match e
    case Identifier(name) => Lowered([], name, g)
    case IntegerLiteral(n) => Lowered([], Decimal.Show(n), g)
    case CharLiteral(c) => Lowered([], Decimal.Show(c as nat), g)
    case StringLiteral(s) =>
      if s in g.strings then Lowered([], g.strings[s], g)
      else
        var mark := StringMark(g.stringCounter);
        Lowered([StringLiteralIR(mark, s)], mark,
                g.(strings := g.strings[s := mark], stringCounter := g.stringCounter + 1))
    case BinaryOp(op, l, r) =>
      var L := LowerExpr(l, g);
      var R := LowerExpr(r, L.g);
      var t := TempName(R.g.temps);
      Lowered(L.code + R.code + [BinaryOpIR(t, op, L.result, R.result)], t, R.g.(temps := R.g.temps + 1))
    case UnaryOp(op, a) =>
      var A := LowerExpr(a, g);
      var t := TempName(A.g.temps);
      Lowered(A.code + [if op == Deref then LoadIR(t, A.result) else UnaryOpIR(t, op, A.result)], t,
              A.g.(temps := A.g.temps + 1))
    case Assignment(target, v) =>
      var V := LowerExpr(v, g);
      if target.Identifier? then
        Lowered(V.code + [AssignIR(target.name, V.result)], target.name, V.g)
      else if target.ArrayAccess? then
        var S := LowerElementStore(target, V.result, V.g);
        Lowered(V.code + S.code, V.result, S.g)
      else if target.UnaryOp? && target.uop == Deref then
        var P := LowerExpr(target.operand, V.g);
        Lowered(V.code + P.code + [StoreIR(P.result, V.result)], V.result, P.g)
      else
        V
    case FunctionCall(f, args) =>
      var A := LowerArgs(args, g);
      var t := TempName(A.g.temps);
      Lowered(A.code + [CallIR(t, f, |args|)], t, A.g.(temps := A.g.temps + 1))
    case ArrayAccess(a, i) =>
      var A := LowerExpr(a, g);
      var I := LowerExpr(i, A.g);
      var t := TempName(I.g.temps);
      var u := TempName(I.g.temps + 1);
      Lowered(A.code + I.code + [BinaryOpIR(t, Add, A.result, I.result), LoadIR(u, t)], u,
              I.g.(temps := I.g.temps + 2))
  }

  /** Stores an operand into an array element. */
  function LowerElementStore(target: Expr, value: string, g: GenState): Block
    requires target.ArrayAccess?
    decreases target, 0
  {
    var A := LowerExpr(target.base, g);
    var I := LowerExpr(target.index, A.g);
    var t := TempName(I.g.temps);
    Block(A.code + I.code + [BinaryOpIR(t, Add, A.result, I.result), StoreIR(t, value)],
          I.g.(temps := I.g.temps + 1))
  }

  function LowerArgs(es: seq<Expr>, g: GenState): Block
    decreases es, 0
  {
    if es == [] then Block([], g)
    else
      var A := LowerExpr(es[0], g);
      var rest := LowerArgs(es[1..], A.g);
      Block(A.code + [ParamIR(A.result)] + rest.code, rest.g)
  }

  function LowerStmt(s: Stmt, g: GenState): Block
    decreases s, 1
  {
    match s
    case VarDecl(name, _, init) =>
      if init.None? then Block([], g)
      else
        var E := LowerExpr(init.value, g);
        Block(E.code + [AssignIR(name, E.result)], E.g)
    case CompoundStmt(ss) => LowerStmts(ss, g)
    case ExprStmt(e) => LowerOptional(e, g)
    case IfStmt(c, thn, els) =>
      var C := LowerExpr(c, g);
      var (lElse, lEnd) := (LabelName(C.g.labels), LabelName(C.g.labels + 1));
      var T := LowerStmt(thn, C.g.(labels := C.g.labels + 2));
      var E := if els.Some? then LowerStmt(els.value, T.g) else Block([], T.g);
      Block(C.code + [CondGotoIR(C.result, lElse, false)] + T.code + [GotoIR(lEnd), LabelIR(lElse)]
            + E.code + [LabelIR(lEnd)], E.g)
    case WhileStmt(c, body) =>
      var (lStart, lEnd) := (LabelName(g.labels), LabelName(g.labels + 1));
      var C := LowerExpr(c, g.(labels := g.labels + 2));
      var B := LowerStmt(body, C.g);
      Block([LabelIR(lStart)] + C.code + [CondGotoIR(C.result, lEnd, false)] + B.code
            + [GotoIR(lStart), LabelIR(lEnd)], B.g)
    case ForStmt(init, test, incr, body) =>
      var I := LowerOptional(init, g);
      var (lStart, lEnd) := (LabelName(I.g.labels), LabelName(I.g.labels + 1));
      var T := LowerTest(test, lEnd, I.g.(labels := I.g.labels + 2));
      var B := LowerStmt(body, T.g);
      var N := LowerOptional(incr, B.g);
      Block(I.code + [LabelIR(lStart)] + T.code + B.code + N.code + [GotoIR(lStart), LabelIR(lEnd)], N.g)
    case ReturnStmt(v) =>
      if v.None? then Block([ReturnIR(None)], g)
      else
        var E := LowerExpr(v.value, g);
        Block(E.code + [ReturnIR(Some(E.result))], E.g)
  }

  function LowerStmts(ss: seq<Stmt>, g: GenState): Block
    decreases ss, 0
  {
    if ss == [] then Block([], g)
    else
      var S := LowerStmt(ss[0], g);
      var rest := LowerStmts(ss[1..], S.g);
      Block(S.code + rest.code, rest.g)
  }

  /** An expression evaluated for its effects, if there is one. */
  function LowerOptional(e: Option<Expr>, g: GenState): Block {
    if e.None? then Block([], g)
    else
      var E := LowerExpr(e.value, g);
      Block(E.code, E.g)
  }

  /** A loop test, if there is one, leaving the loop when it is zero. */
  function LowerTest(test: Option<Expr>, lEnd: string, g: GenState): Block {
    if test.None? then Block([], g)
    else
      var T := LowerExpr(test.value, g);
      Block(T.code + [CondGotoIR(T.result, lEnd, false)], T.g)
  }

  /** One function: counters restart, prototypes (empty bodies) give no code. */
  function LowerFunction(f: Function, g: GenState): Block {
    if f.body == [] then Block([], g)
    else
      var B := LowerStmts(f.body, g.(temps := 0, labels := 0));
      Block([FunctionEntryIR(f.name)] + B.code + [FunctionExitIR(f.name)], B.g)
  }

  function LowerProgram(fs: seq<Function>, g: GenState): Block {
    if fs == [] then Block([], g)
    else
      var F := LowerFunction(fs[0], g);
      var rest := LowerProgram(fs[1..], F.g);
      Block(F.code + rest.code, rest.g)
  }

  // ------------------------------------------------------------------ string literals

  /** The string literals an instruction list defines, in order. */
  function StringsOf(code: seq<Instr>): (r: seq<Instr>)
    ensures forall k :: 0 <= k < |r| ==> r[k].StringLiteralIR? && r[k] in code
  {
    if code == [] then [] else (if code[0].StringLiteralIR? then [code[0]] else []) + StringsOf(code[1..])
  }

  lemma {:induction false} StringsJoin(a: seq<Instr>, b: seq<Instr>)
    ensures StringsOf(a + b) == StringsOf(a) + StringsOf(b)
  {
    if a == [] {
      assert a + b == b;
    } else {
      assert (a + b)[1..] == a[1..] + b;
      StringsJoin(a[1..], b);
    }
  }

  /** No two string literals of the list have the same label or the same content. */
  ghost predicate UniqueStrings(code: seq<Instr>) {
    forall i, j :: 0 <= i < j < |code| && code[i].StringLiteralIR? && code[j].StringLiteralIR? ==>
      code[i].mark != code[j].mark && code[i].content != code[j].content
  }

  /** The list defines string `s` under the label `mark`. */
  predicate DefinesString(code: seq<Instr>, mark: string, s: string) {
    StringLiteralIR(mark, s) in code
  }

  /** The n-th string label. */
  function StringMark(n: nat): string {
    "str_" + Decimal.Show(n)
  }

  lemma StringMarkInjective(m: nat, n: nat)
    requires StringMark(m) == StringMark(n)
    ensures m == n
  {
    assert StringMark(m)[4..] == Decimal.Show(m) && StringMark(n)[4..] == Decimal.Show(n);
    Decimal.ShowInjective(m, n);
  }

  function Contents(lits: seq<Instr>): set<string> {
    set k | 0 <= k < |lits| && lits[k].StringLiteralIR? :: lits[k].content
  }

  /** The table holds exactly the strings of the list, each once, the k-th one labelled `str_k`. */
  ghost predicate TableOf(g: GenState, code: seq<Instr>) {
    var lits := StringsOf(code);
    && g.stringCounter == |lits|
    && (forall k :: 0 <= k < |lits| ==>
          && lits[k].mark == StringMark(k)
          && lits[k].content in g.strings && g.strings[lits[k].content] == lits[k].mark)
    && g.strings.Keys == Contents(lits)
    && (forall i, j :: 0 <= i < j < |lits| ==> lits[i].content != lits[j].content)
  }

  lemma NoTable(g: GenState)
    ensures g.strings == map[] && g.stringCounter == 0 ==> TableOf(g, [])
  {
  }

  /** The table stays that of the list when instructions that define no string are added. */
  lemma TableSame(g: GenState, g': GenState, code: seq<Instr>, tail: seq<Instr>)
    requires TableOf(g, code) && g'.strings == g.strings && g'.stringCounter == g.stringCounter
    requires forall i :: i in tail ==> !i.StringLiteralIR?
    ensures TableOf(g', code + tail)
  {
    StringsJoin(code, tail);
    NoStringsIn(tail);
    assert StringsOf(code) + [] == StringsOf(code);
  }

  /** The same for the end of the code of one construct. */
  lemma TableEnd(g: GenState, g': GenState, before: seq<Instr>, part: seq<Instr>, whole: seq<Instr>)
    requires TableOf(g, before + part) && g'.strings == g.strings && g'.stringCounter == g.stringCounter
    requires part <= whole && forall k :: |part| <= k < |whole| ==> !whole[k].StringLiteralIR?
    ensures TableOf(g', before + whole)
  {
    TableSame(g, g', before + part, whole[|part|..]);
    assert before + part + whole[|part|..] == before + whole;
  }

  lemma Reassociate(a: seq<Instr>, b: seq<Instr>, c: seq<Instr>)
    ensures a + b + c == a + (b + c)
  {
  }

  lemma {:induction false} NoStringsIn(code: seq<Instr>)
    requires forall i :: i in code ==> !i.StringLiteralIR?
    ensures StringsOf(code) == []
  {
    if code != [] {
      NoStringsIn(code[1..]);
    }
  }

  /** What a table that fits its list says about the labels. */
  lemma TableUnique(g: GenState, code: seq<Instr>)
    requires TableOf(g, code)
    ensures UniqueStrings(code)
    ensures forall s :: s in g.strings ==> DefinesString(code, g.strings[s], s)
    ensures forall s, x :: DefinesString(code, x, s) ==> s in g.strings && x == g.strings[s]
  {
    var lits := StringsOf(code);
    forall i, j | 0 <= i < j < |lits|
      ensures lits[i].mark != lits[j].mark
    {
      if StringMark(i) == StringMark(j) {
        StringMarkInjective(i, j);
      }
    }
    StringsDistinct(code);
    forall s, x | DefinesString(code, x, s)
      ensures s in g.strings && x == g.strings[s]
    {
      StringsHold(code, StringLiteralIR(x, s));
    }
    forall s | s in g.strings
      ensures DefinesString(code, g.strings[s], s)
    {
      var k :| 0 <= k < |lits| && lits[k].content == s;
      assert lits[k] == StringLiteralIR(g.strings[s], s);
    }
  }

  lemma {:induction false} StringsHold(code: seq<Instr>, i: Instr)
    requires i in code && i.StringLiteralIR?
    ensures i in StringsOf(code)
  {
    if code[0] != i {
      StringsHold(code[1..], i);
    }
  }

  /** Neither label nor content of `x` is found in the list. */
  ghost predicate ApartFrom(x: Instr, code: seq<Instr>) {
    x.StringLiteralIR? ==>
      forall i :: i in code && i.StringLiteralIR? ==> i.mark != x.mark && i.content != x.content
  }

  lemma UniqueCons(x: Instr, code: seq<Instr>)
    ensures UniqueStrings([x] + code) <==> UniqueStrings(code) && ApartFrom(x, code)
  {
    var all := [x] + code;
    if UniqueStrings(all) {
      forall i, j | 0 <= i < j < |code| && code[i].StringLiteralIR? && code[j].StringLiteralIR?
        ensures code[i].mark != code[j].mark && code[i].content != code[j].content
      {
        assert all[i + 1] == code[i] && all[j + 1] == code[j];
      }
      forall i | i in code && i.StringLiteralIR? && x.StringLiteralIR?
        ensures i.mark != x.mark && i.content != x.content
      {
        var k :| 0 <= k < |code| && code[k] == i;
        assert all[k + 1] == i && all[0] == x;
      }
    }
  }

  /** A list is unique if its string literals are. */
  lemma {:induction false} StringsDistinct(code: seq<Instr>)
    requires UniqueStrings(StringsOf(code))
    ensures UniqueStrings(code)
    decreases code
  {
    if code != [] {
      var (x, rest) := (code[0], code[1..]);
      assert code == [x] + rest;
      UniqueCons(x, rest);
      UniqueCons(x, StringsOf(rest));
      assert StringsOf(code) == (if x.StringLiteralIR? then [x] else []) + StringsOf(rest);
      assert [] + StringsOf(rest) == StringsOf(rest);
      hide UniqueStrings, StringsOf;
      StringsDistinct(rest);
      forall i | i in rest && i.StringLiteralIR?
        ensures i in StringsOf(rest)
      {
        StringsHold(rest, i);
      }
    }
  }

  /** A literal: its string is defined afterwards, under the label that is its operand. */
  lemma LiteralTable(s: string, g: GenState, before: seq<Instr>)
    requires TableOf(g, before)
    ensures var L := LowerExpr(StringLiteral(s), g);
            TableOf(L.g, before + L.code) && s in L.g.strings && L.result == L.g.strings[s]
  {
    var L := LowerExpr(StringLiteral(s), g);
    if s in g.strings {
      assert before + [] == before;
    } else {
      NewLiteral(s, g, before);
    }
  }

  lemma NewLiteral(s: string, g: GenState, before: seq<Instr>)
    requires TableOf(g, before) && s !in g.strings
    ensures var mark := StringMark(g.stringCounter);
            TableOf(g.(strings := g.strings[s := mark], stringCounter := g.stringCounter + 1),
                    before + [StringLiteralIR(mark, s)])
  {
    var (lits, i) := (StringsOf(before), StringLiteralIR(StringMark(g.stringCounter), s));
    StringsJoin(before, [i]);
    assert StringsOf([i]) == [i];
    hide StringMark, StringsOf;
    ContentsNext(lits, i);
  }

  lemma ContentsNext(lits: seq<Instr>, i: Instr)
    requires i.StringLiteralIR?
    ensures Contents(lits + [i]) == Contents(lits) + {i.content}
  {
    var after := lits + [i];
    assert after[|lits|] == i;
    forall s | s in Contents(lits)
      ensures s in Contents(after)
    {
      var k :| 0 <= k < |lits| && lits[k].StringLiteralIR? && lits[k].content == s;
      assert after[k] == lits[k];
    }
  }

  lemma LiteralUnique(s: string, g: GenState, before: seq<Instr>)
    requires TableOf(g, before)
    ensures var L := LowerExpr(StringLiteral(s), g);
            var code := before + L.code;
            && UniqueStrings(code) && DefinesString(code, L.result, s)
            && forall x, t :: DefinesString(code, x, t) ==> (x == L.result <==> t == s)
  {
    var L := LowerExpr(StringLiteral(s), g);
    var code := before + L.code;
    LiteralTable(s, g, before);
    hide TableOf, LowerExpr;
    TableUnique(L.g, code);
    forall x, t | DefinesString(code, x, t)
      ensures x == L.result <==> t == s
    {
      var i :| 0 <= i < |code| && code[i] == StringLiteralIR(x, t);
      var j :| 0 <= j < |code| && code[j] == StringLiteralIR(L.result, s);
      assert i != j ==> x != L.result && t != s;
    }
  }

  lemma {:induction false} ExprTable(e: Expr, g: GenState, before: seq<Instr>)
    requires TableOf(g, before)
    ensures TableOf(LowerExpr(e, g).g, before + LowerExpr(e, g).code)
    decreases e, 1
  {
    hide TableOf, TempName, LowerArgs, LowerElementStore;
    var E := LowerExpr(e, g);
    match e
    case StringLiteral(s) => LiteralTable(s, g, before);
    case BinaryOp(_, l, r) =>
      var L := LowerExpr(l, g);
      var R := LowerExpr(r, L.g);
      ExprTable(l, g, before);
      ExprTable(r, L.g, before + L.code);
      Reassociate(before, L.code, R.code);
      TableEnd(R.g, E.g, before, L.code + R.code, E.code);
    case UnaryOp(_, a) =>
      var A := LowerExpr(a, g);
      ExprTable(a, g, before);
      TableEnd(A.g, E.g, before, A.code, E.code);
    case Assignment(t, v) => AssignmentTable(t, v, g, before);
    case FunctionCall(_, args) =>
      var A := LowerArgs(args, g);
      ArgsTable(args, g, before);
      TableEnd(A.g, E.g, before, A.code, E.code);
    case ArrayAccess(a, i) =>
      var A := LowerExpr(a, g);
      var I := LowerExpr(i, A.g);
      ExprTable(a, g, before);
      ExprTable(i, A.g, before + A.code);
      Reassociate(before, A.code, I.code);
      TableEnd(I.g, E.g, before, A.code + I.code, E.code);
    case _ => TableSame(g, g, before, []);
  }

  lemma {:induction false} AssignmentTable(t: Expr, v: Expr, g: GenState, before: seq<Instr>)
    requires TableOf(g, before)
    ensures var E := LowerExpr(Assignment(t, v), g);
            TableOf(E.g, before + E.code)
    decreases Assignment(t, v), 0
  {
    hide TableOf, TempName, LowerElementStore;
    var V := LowerExpr(v, g);
    var E := LowerExpr(Assignment(t, v), g);
    ExprTable(v, g, before);
    if t.ArrayAccess? {
      StoreTable(t, V.result, V.g, before + V.code);
      var S := LowerElementStore(t, V.result, V.g);
      Reassociate(before, V.code, S.code);
    } else if t.UnaryOp? && t.uop == Deref {
      var P := LowerExpr(t.operand, V.g);
      ExprTable(t.operand, V.g, before + V.code);
      Reassociate(before, V.code, P.code);
      TableEnd(P.g, E.g, before, V.code + P.code, E.code);
    } else {
      TableEnd(V.g, E.g, before, V.code, E.code);
    }
  }

  lemma {:induction false} StoreTable(t: Expr, value: string, g: GenState, before: seq<Instr>)
    requires t.ArrayAccess? && TableOf(g, before)
    ensures var S := LowerElementStore(t, value, g);
            TableOf(S.g, before + S.code)
    decreases t, 0
  {
    hide TableOf, TempName, LowerExpr;
    var S := LowerElementStore(t, value, g);
    var A := LowerExpr(t.base, g);
    var I := LowerExpr(t.index, A.g);
    ExprTable(t.base, g, before);
    ExprTable(t.index, A.g, before + A.code);
    Reassociate(before, A.code, I.code);
    TableEnd(I.g, S.g, before, A.code + I.code, S.code);
  }

  lemma {:induction false} ArgsTable(es: seq<Expr>, g: GenState, before: seq<Instr>)
    requires TableOf(g, before)
    ensures TableOf(LowerArgs(es, g).g, before + LowerArgs(es, g).code)
    decreases es, 0
  {
    hide TableOf, LowerExpr;
    if es == [] {
      assert before + [] == before;
    } else {
      var A := LowerExpr(es[0], g);
      var rest := LowerArgs(es[1..], A.g);
      ExprTable(es[0], g, before);
      TableSame(A.g, A.g, before + A.code, [ParamIR(A.result)]);
      ArgsTable(es[1..], A.g, before + A.code + [ParamIR(A.result)]);
      assert before + A.code + [ParamIR(A.result)] + rest.code == before + LowerArgs(es, g).code;
    }
  }

  lemma OptionalTable(e: Option<Expr>, g: GenState, before: seq<Instr>)
    requires TableOf(g, before)
    ensures TableOf(LowerOptional(e, g).g, before + LowerOptional(e, g).code)
  {
    hide TableOf, LowerExpr;
    if e.Some? {
      ExprTable(e.value, g, before);
    } else {
      assert before + [] == before;
    }
  }

  lemma TestTable(test: Option<Expr>, mark: string, g: GenState, before: seq<Instr>)
    requires TableOf(g, before)
    ensures TableOf(LowerTest(test, mark, g).g, before + LowerTest(test, mark, g).code)
  {
    hide TableOf, LowerExpr;
    if test.Some? {
      var T := LowerExpr(test.value, g);
      ExprTable(test.value, g, before);
      TableSame(T.g, T.g, before + T.code, [CondGotoIR(T.result, mark, false)]);
      assert before + T.code + [CondGotoIR(T.result, mark, false)] == before + LowerTest(test, mark, g).code;
    } else {
      assert before + [] == before;
    }
  }

  lemma {:induction false} StmtTable(s: Stmt, g: GenState, before: seq<Instr>)
    requires TableOf(g, before)
    ensures TableOf(LowerStmt(s, g).g, before + LowerStmt(s, g).code)
    decreases s, 1
  {
    hide TableOf, LowerExpr, LowerStmts, LowerOptional, LabelName;
    match s
    case VarDecl(_, _, _) => ValueTable(s, g, before);
    case CompoundStmt(ss) => StmtsTable(ss, g, before);
    case ExprStmt(e) => OptionalTable(e, g, before);
    case IfStmt(_, _, _) => IfTable(s, g, before);
    case WhileStmt(_, _) => WhileTable(s, g, before);
    case ForStmt(_, _, _, _) => ForTable(s, g, before);
    case ReturnStmt(_) => ValueTable(s, g, before);
  }

  lemma ValueTable(s: Stmt, g: GenState, before: seq<Instr>)
    requires (s.VarDecl? || s.ReturnStmt?) && TableOf(g, before)
    ensures TableOf(LowerStmt(s, g).g, before + LowerStmt(s, g).code)
  {
    hide TableOf, LowerExpr;
    var S := LowerStmt(s, g);
    var e := if s.VarDecl? then s.initializer else s.value;
    if e.Some? {
      var E := LowerExpr(e.value, g);
      ExprTable(e.value, g, before);
      TableEnd(E.g, E.g, before, E.code, S.code);
    } else {
      TableSame(g, g, before, S.code);
    }
  }

  lemma {:induction false} IfTable(s: Stmt, g: GenState, before: seq<Instr>)
    requires s.IfStmt? && TableOf(g, before)
    ensures TableOf(LowerStmt(s, g).g, before + LowerStmt(s, g).code)
    decreases s, 0
  {
    hide TableOf, LowerExpr, LabelName;
    var C := LowerExpr(s.condition, g);
    var g1 := C.g.(labels := C.g.labels + 2);
    var (lElse, lEnd) := (LabelName(C.g.labels), LabelName(C.g.labels + 1));
    var T := LowerStmt(s.thenStmt, g1);
    var E := if s.elseStmt.Some? then LowerStmt(s.elseStmt.value, T.g) else Block([], T.g);
    var (a, b) := ([CondGotoIR(C.result, lElse, false)], [GotoIR(lEnd), LabelIR(lElse)]);
    ExprTable(s.condition, g, before);
    TableSame(C.g, g1, before + C.code, a);
    StmtTable(s.thenStmt, g1, before + C.code + a);
    TableSame(T.g, T.g, before + C.code + a + T.code, b);
    if s.elseStmt.Some? {
      StmtTable(s.elseStmt.value, T.g, before + C.code + a + T.code + b);
    } else {
      assert before + C.code + a + T.code + b + [] == before + C.code + a + T.code + b;
    }
    TableSame(E.g, E.g, before + C.code + a + T.code + b + E.code, [LabelIR(lEnd)]);
    assert before + C.code + a + T.code + b + E.code + [LabelIR(lEnd)] == before + LowerStmt(s, g).code;
  }

  lemma {:induction false} WhileTable(s: Stmt, g: GenState, before: seq<Instr>)
    requires s.WhileStmt? && TableOf(g, before)
    ensures TableOf(LowerStmt(s, g).g, before + LowerStmt(s, g).code)
    decreases s, 0
  {
    hide TableOf, LowerExpr, LabelName;
    var (lStart, lEnd) := (LabelName(g.labels), LabelName(g.labels + 1));
    var g1 := g.(labels := g.labels + 2);
    var C := LowerExpr(s.condition, g1);
    var B := LowerStmt(s.body, C.g);
    var (a, b, c) := ([LabelIR(lStart)], [CondGotoIR(C.result, lEnd, false)], [GotoIR(lStart), LabelIR(lEnd)]);
    TableSame(g, g1, before, a);
    ExprTable(s.condition, g1, before + a);
    TableSame(C.g, C.g, before + a + C.code, b);
    StmtTable(s.body, C.g, before + a + C.code + b);
    TableSame(B.g, B.g, before + a + C.code + b + B.code, c);
    assert before + a + C.code + b + B.code + c == before + LowerStmt(s, g).code;
  }

  lemma {:induction false} ForTable(s: Stmt, g: GenState, before: seq<Instr>)
    requires s.ForStmt? && TableOf(g, before)
    ensures TableOf(LowerStmt(s, g).g, before + LowerStmt(s, g).code)
    decreases s, 0
  {
    hide TableOf, LowerExpr, LowerOptional, LowerTest, LabelName;
    var I := LowerOptional(s.init, g);
    var (lStart, lEnd) := (LabelName(I.g.labels), LabelName(I.g.labels + 1));
    var g1 := I.g.(labels := I.g.labels + 2);
    var T := LowerTest(s.test, lEnd, g1);
    var B := LowerStmt(s.body, T.g);
    var N := LowerOptional(s.increment, B.g);
    var (a, c) := ([LabelIR(lStart)], [GotoIR(lStart), LabelIR(lEnd)]);
    OptionalTable(s.init, g, before);
    TableSame(I.g, g1, before + I.code, a);
    TestTable(s.test, lEnd, g1, before + I.code + a);
    StmtTable(s.body, T.g, before + I.code + a + T.code);
    OptionalTable(s.increment, B.g, before + I.code + a + T.code + B.code);
    TableSame(N.g, N.g, before + I.code + a + T.code + B.code + N.code, c);
    assert before + I.code + a + T.code + B.code + N.code + c == before + LowerStmt(s, g).code;
  }

  lemma {:induction false} StmtsTable(ss: seq<Stmt>, g: GenState, before: seq<Instr>)
    requires TableOf(g, before)
    ensures TableOf(LowerStmts(ss, g).g, before + LowerStmts(ss, g).code)
    decreases ss, 0
  {
    hide TableOf, LowerStmt;
    if ss == [] {
      assert before + [] == before;
    } else {
      var S := LowerStmt(ss[0], g);
      var rest := LowerStmts(ss[1..], S.g);
      StmtTable(ss[0], g, before);
      StmtsTable(ss[1..], S.g, before + S.code);
      assert before + S.code + rest.code == before + LowerStmts(ss, g).code;
    }
  }

  lemma FunctionTable(f: Function, g: GenState, before: seq<Instr>)
    requires TableOf(g, before)
    ensures TableOf(LowerFunction(f, g).g, before + LowerFunction(f, g).code)
  {
    hide TableOf, LowerStmts;
    if f.body == [] {
      assert before + [] == before;
    } else {
      var g0 := g.(temps := 0, labels := 0);
      var B := LowerStmts(f.body, g0);
      var (a, c) := ([FunctionEntryIR(f.name)], [FunctionExitIR(f.name)]);
      TableSame(g, g0, before, a);
      StmtsTable(f.body, g0, before + a);
      TableSame(B.g, B.g, before + a + B.code, c);
      assert before + a + B.code + c == before + LowerFunction(f, g).code;
    }
  }

  // ------------------------------------------------------------------ the generator

  /** The visitor object: it appends to `instructions` and advances its counters in place. */
  class IRGenerator {
    var instructions: seq<Instr>
    var temps: nat
    var labels: nat
    var strings: map<string, string>
    var stringCounter: nat

    constructor ()
      ensures instructions == [] && State() == FRESH
    {
      instructions, temps, labels, strings, stringCounter := [], 0, 0, map[], 0;
    }

    function State(): GenState
      reads this
    {
      GenState(temps, labels, strings, stringCounter)
    }

    method Emit(i: Instr)
      modifies `instructions
      ensures instructions == old(instructions) + [i]
    {
      instructions := instructions + [i];
    }

    method NewTemp() returns (t: string)
      modifies `temps
      ensures t == TempName(old(temps)) && temps == old(temps) + 1
    {
      t := TempName(temps);
      temps := temps + 1;
    }

    method NewLabel() returns (l: string)
      modifies `labels
      ensures l == LabelName(old(labels)) && labels == old(labels) + 1
    {
      l := LabelName(labels);
      labels := labels + 1;
    }

    /** The table is that of the instructions so far. */
    ghost predicate StringsOk()
      reads this
    {
      TableOf(State(), instructions)
    }

    /** One label per string: afterwards the string is defined once, under the label answered, and no
        other string is. */
    method CreateStringLiteral(content: string) returns (mark: string)
      modifies this
      ensures var L := LowerExpr(StringLiteral(content), old(State()));
              instructions == old(instructions) + L.code && mark == L.result && State() == L.g
      ensures old(StringsOk()) ==>
                && StringsOk() && UniqueStrings(instructions) && DefinesString(instructions, mark, content)
                && forall x, s :: DefinesString(instructions, x, s) ==> (x == mark <==> s == content)
    {
      ghost var before := instructions;
      if StringsOk() {
        LiteralTable(content, State(), before);
        LiteralUnique(content, State(), before);
      }
      if content in strings {
        return strings[content];
      }
      mark := StringMark(stringCounter);
      stringCounter := stringCounter + 1;
      strings := strings[content := mark];
      Emit(StringLiteralIR(mark, content));
    }

    method VisitExpression(e: Expr) returns (r: string)
      modifies this
      ensures var L := LowerExpr(e, old(State()));
              instructions == old(instructions) + L.code && r == L.result && State() == L.g
      decreases e, 2
    {
      match e
      case Identifier(name) => r := name;
      case IntegerLiteral(n) => r := Decimal.Show(n);
      case CharLiteral(c) => r := Decimal.Show(c as nat);
      case StringLiteral(s) => r := CreateStringLiteral(s);
      case BinaryOp(_, _, _) => r := VisitBinaryOp(e);
      case UnaryOp(_, _) => r := VisitUnaryOp(e);
      case Assignment(_, _) => r := VisitAssignment(e);
      case FunctionCall(_, _) => r := VisitFunctionCall(e);
      case ArrayAccess(_, _) => r := VisitArrayAccess(e);
    }

    method VisitBinaryOp(e: Expr) returns (r: string)
      requires e.BinaryOp?
      modifies this
      ensures var L := LowerExpr(e, old(State()));
              instructions == old(instructions) + L.code && r == L.result && State() == L.g
      decreases e, 1
    {
      var left := VisitExpression(e.left);
      var right := VisitExpression(e.right);
      r := NewTemp();
      Emit(BinaryOpIR(r, e.op, left, right));
    }

    method VisitUnaryOp(e: Expr) returns (r: string)
      requires e.UnaryOp?
      modifies this
      ensures var L := LowerExpr(e, old(State()));
              instructions == old(instructions) + L.code && r == L.result && State() == L.g
      decreases e, 1
    {
      var operand := VisitExpression(e.operand);
      r := NewTemp();
      if e.uop == Deref {
        Emit(LoadIR(r, operand));
      } else {
        Emit(UnaryOpIR(r, e.uop, operand));
      }
    }

    method VisitAssignment(e: Expr) returns (r: string)
      requires e.Assignment?
      modifies this
      ensures var L := LowerExpr(e, old(State()));
              instructions == old(instructions) + L.code && r == L.result && State() == L.g
      decreases e, 1
    {
      hide LowerElementStore;
      var value := VisitExpression(e.source);
      var target := e.target;
      if target.Identifier? {
        Emit(AssignIR(target.name, value));
        r := target.name;
      } else if target.ArrayAccess? {
        VisitElementStore(target, value);
        r := value;
      } else if target.UnaryOp? && target.uop == Deref {
        var ptr := VisitExpression(target.operand);
        Emit(StoreIR(ptr, value));
        r := value;
      } else {
        r := value;
      }
    }

    method VisitElementStore(target: Expr, value: string)
      requires target.ArrayAccess?
      modifies this
      ensures var B := LowerElementStore(target, value, old(State()));
              instructions == old(instructions) + B.code && State() == B.g
      decreases target, 0
    {
      ghost var before := instructions;
      ghost var code := LowerExpr(target.base, State()).code;
      var base := VisitExpression(target.base);
      code := code + LowerExpr(target.index, State()).code;
      var index := VisitExpression(target.index);
      assert instructions == before + code;
      var addr := NewTemp();
      Emit(BinaryOpIR(addr, Add, base, index));
      Emit(StoreIR(addr, value));
      assert instructions == before + (code + [BinaryOpIR(addr, Add, base, index), StoreIR(addr, value)]);
    }

    method VisitFunctionCall(e: Expr) returns (r: string)
      requires e.FunctionCall?
      modifies this
      ensures var L := LowerExpr(e, old(State()));
              instructions == old(instructions) + L.code && r == L.result && State() == L.g
      decreases e, 1
    {
      ghost var whole := LowerArgs(e.arguments, State());
      ghost var before := instructions;
      assert e.arguments[0..] == e.arguments;
      for i := 0 to |e.arguments|
        invariant instructions + LowerArgs(e.arguments[i..], State()).code == before + whole.code
        invariant LowerArgs(e.arguments[i..], State()).g == whole.g
      {
        assert e.arguments[i..][1..] == e.arguments[i + 1..];
        var arg := VisitExpression(e.arguments[i]);
        Emit(ParamIR(arg));
      }
      assert instructions == before + whole.code;
      r := NewTemp();
      Emit(CallIR(r, e.callee, |e.arguments|));
    }

    method VisitArrayAccess(e: Expr) returns (r: string)
      requires e.ArrayAccess?
      modifies this
      ensures var L := LowerExpr(e, old(State()));
              instructions == old(instructions) + L.code && r == L.result && State() == L.g
      decreases e, 1
    {
      ghost var before := instructions;
      ghost var code := LowerExpr(e.base, State()).code;
      var base := VisitExpression(e.base);
      code := code + LowerExpr(e.index, State()).code;
      var index := VisitExpression(e.index);
      assert instructions == before + code;
      var addr := NewTemp();
      Emit(BinaryOpIR(addr, Add, base, index));
      r := NewTemp();
      Emit(LoadIR(r, addr));
      code := code + [BinaryOpIR(addr, Add, base, index), LoadIR(r, addr)];
      assert instructions == before + code;
    }

    method VisitOptional(e: Option<Expr>)
      modifies this
      ensures var B := LowerOptional(e, old(State()));
              instructions == old(instructions) + B.code && State() == B.g
    {
      if e.Some? {
        var _ := VisitExpression(e.value);
      }
    }

    method VisitTest(test: Option<Expr>, lEnd: string)
      modifies this
      ensures var B := LowerTest(test, lEnd, old(State()));
              instructions == old(instructions) + B.code && State() == B.g
    {
      if test.Some? {
        var cond := VisitExpression(test.value);
        Emit(CondGotoIR(cond, lEnd, false));
      }
    }

    method VisitStatement(s: Stmt)
      modifies this
      ensures var B := LowerStmt(s, old(State()));
              instructions == old(instructions) + B.code && State() == B.g
      decreases s, 1
    {
      match s
      case VarDecl(name, _, init) =>
        if init.Some? {
          var value := VisitExpression(init.value);
          Emit(AssignIR(name, value));
        }
      case CompoundStmt(ss) => VisitStatements(ss);
      case ExprStmt(e) => VisitOptional(e);
      case IfStmt(_, _, _) => VisitIf(s);
      case WhileStmt(_, _) => VisitWhile(s);
      case ForStmt(_, _, _, _) => VisitFor(s);
      case ReturnStmt(v) =>
        if v.Some? {
          var value := VisitExpression(v.value);
          Emit(ReturnIR(Some(value)));
        } else {
          Emit(ReturnIR(None));
        }
    }

    method VisitStatements(ss: seq<Stmt>)
      modifies this
      ensures var B := LowerStmts(ss, old(State()));
              instructions == old(instructions) + B.code && State() == B.g
      decreases ss, 0
    {
      ghost var whole := LowerStmts(ss, State());
      ghost var before := instructions;
      for i := 0 to |ss|
        invariant instructions + LowerStmts(ss[i..], State()).code == before + whole.code
        invariant LowerStmts(ss[i..], State()).g == whole.g
      {
        assert ss[i..][1..] == ss[i + 1..];
        VisitStatement(ss[i]);
      }
    }

    method VisitIf(s: Stmt)
      requires s.IfStmt?
      modifies this
      ensures var B := LowerStmt(s, old(State()));
              instructions == old(instructions) + B.code && State() == B.g
      decreases s, 0
    {
      hide LowerExpr;
      ghost var before := instructions;
      ghost var code := LowerExpr(s.condition, State()).code;
      var cond := VisitExpression(s.condition);
      var lElse := NewLabel();
      var lEnd := NewLabel();
      Emit(CondGotoIR(cond, lElse, false));
      code := code + [CondGotoIR(cond, lElse, false)];
      assert instructions == before + code;
      code := code + LowerStmt(s.thenStmt, State()).code;
      VisitStatement(s.thenStmt);
      assert instructions == before + code;
      Emit(GotoIR(lEnd));
      Emit(LabelIR(lElse));
      code := code + [GotoIR(lEnd), LabelIR(lElse)];
      assert instructions == before + code;
      if s.elseStmt.Some? {
        code := code + LowerStmt(s.elseStmt.value, State()).code;
        VisitStatement(s.elseStmt.value);
        assert instructions == before + code;
      }
      Emit(LabelIR(lEnd));
      assert instructions == before + (code + [LabelIR(lEnd)]);
    }

    method VisitWhile(s: Stmt)
      requires s.WhileStmt?
      modifies this
      ensures var B := LowerStmt(s, old(State()));
              instructions == old(instructions) + B.code && State() == B.g
      decreases s, 0
    {
      hide LowerExpr;
      var lStart := NewLabel();
      var lEnd := NewLabel();
      ghost var before := instructions;
      Emit(LabelIR(lStart));
      ghost var code := [LabelIR(lStart)] + LowerExpr(s.condition, State()).code;
      assert instructions + LowerExpr(s.condition, State()).code == before + code;
      var cond := VisitExpression(s.condition);
      Emit(CondGotoIR(cond, lEnd, false));
      code := code + [CondGotoIR(cond, lEnd, false)];
      assert instructions == before + code;
      code := code + LowerStmt(s.body, State()).code;
      VisitStatement(s.body);
      assert instructions == before + code;
      Emit(GotoIR(lStart));
      Emit(LabelIR(lEnd));
      assert instructions == before + (code + [GotoIR(lStart), LabelIR(lEnd)]);
    }

    method VisitFor(s: Stmt)
      requires s.ForStmt?
      modifies this
      ensures var B := LowerStmt(s, old(State()));
              instructions == old(instructions) + B.code && State() == B.g
      decreases s, 0
    {
      hide LowerExpr, LowerOptional, LowerTest;
      ghost var before := instructions;
      ghost var code := LowerOptional(s.init, State()).code;
      VisitOptional(s.init);
      var lStart := NewLabel();
      var lEnd := NewLabel();
      Emit(LabelIR(lStart));
      code := code + [LabelIR(lStart)];
      assert instructions == before + code;
      code := code + LowerTest(s.test, lEnd, State()).code;
      VisitTest(s.test, lEnd);
      assert instructions == before + code;
      code := code + LowerStmt(s.body, State()).code;
      VisitStatement(s.body);
      assert instructions == before + code;
      code := code + LowerOptional(s.increment, State()).code;
      VisitOptional(s.increment);
      assert instructions == before + code;
      Emit(GotoIR(lStart));
      Emit(LabelIR(lEnd));
      assert instructions == before + (code + [GotoIR(lStart), LabelIR(lEnd)]);
    }

    method VisitFunction(f: Function)
      modifies this
      ensures var B := LowerFunction(f, old(State()));
              instructions == old(instructions) + B.code && State() == B.g
    {
      if f.body != [] {
        temps, labels := 0, 0;
        Emit(FunctionEntryIR(f.name));
        VisitStatements(f.body);
        Emit(FunctionExitIR(f.name));
      }
    }

    /** A generator fresh at the start defines every string literal once, under a label of its own. */
    method Generate(fs: seq<Function>) returns (code: seq<Instr>)
      modifies this
      ensures var B := LowerProgram(fs, old(State()));
              code == instructions == B.code && State() == B.g
      ensures old(State().strings == map[] && State().stringCounter == 0) ==> StringsOk() && UniqueStrings(code)
    {
      hide LowerFunction, TableOf, UniqueStrings;
      instructions := [];
      ghost var starts := State().strings == map[] && State().stringCounter == 0;
      NoTable(State());
      ghost var whole := LowerProgram(fs, State());
      for i := 0 to |fs|
        invariant instructions + LowerProgram(fs[i..], State()).code == whole.code
        invariant LowerProgram(fs[i..], State()).g == whole.g
        invariant starts ==> StringsOk()
      {
        assert fs[i..][1..] == fs[i + 1..];
        if StringsOk() {
          FunctionTable(fs[i], State(), instructions);
        }
        VisitFunction(fs[i]);
      }
      code := instructions;
      if StringsOk() {
        TableUnique(State(), code);
      }
    }
  }
}
