/** The grammar of statements. */
module StatementGrammar {
  // Which tokens are a statement, and that the parser accepts exactly those.

  import opened Words
  import opened Ast
  import opened Lexing
  import opened Parsing
  import opened Printing
  import opened ProgramPrinting
  import opened Grammar
  import Decimal

  // ------------------------------------------------------------------ declarations of variables

  predicate Stars(ts: seq<Token>, i: nat, n: nat) {
    i <= n <= |ts| && forall k :: i <= k < n ==> ts[k].kind == STAR
  }

  /** A type, which starts at the i-th token, and a name, which is the n-th. */
  predicate Declarator(ts: seq<Token>, i: nat, n: nat) {
    && i < n < |ts| && IsType(ts[i].kind) && Stars(ts, i + 1, n) && ts[n].kind == IDENTIFIER
  }

  function SizeEnd(i: nat, size: Option<nat>): (m: nat)
    ensures m >= i
  {
    if size.None? then i else i + 3
  }

  /** [ number ], or nothing. */
  predicate Size(ts: seq<Token>, i: nat, size: Option<nat>) {
    size.Some? ==>
      && i + 2 < |ts| && ts[i].kind == LBRACKET && ts[i + 1].kind == INTEGER_LITERAL && ts[i + 2].kind == RBRACKET
      && Decimal.IsDigits(ts[i + 1].value) && size.value == Decimal.Read(ts[i + 1].value)
  }

  /** = expression, or nothing, and a semicolon. */
  ghost predicate Initial(ts: seq<Token>, i: nat, j: nat, init: Option<Expr>) {
    && i < j <= |ts| && ts[j - 1].kind == SEMICOLON
    && if init.None? then i == j - 1 else ts[i].kind == ASSIGN && i < j - 1 && Phrase(0, ts, i + 1, j - 1, init.value)
  }

  /** What follows the name of a variable, which is the n-th token. */
  ghost predicate Variable(ts: seq<Token>, n: nat, j: nat, v: Stmt) {
    && v.VarDecl? && n < |ts| && v.name == ts[n].value
    && Size(ts, n + 1, v.arraySize) && Initial(ts, SizeEnd(n + 1, v.arraySize), j, v.initializer)
  }

  // ------------------------------------------------------------------ statements

  ghost predicate Optional(ts: seq<Token>, i: nat, j: nat, e: Option<Expr>) {
    if e.None? then i == j else Phrase(0, ts, i, j, e.value)
  }

  /** A keyword and a condition in parentheses. */
  ghost predicate Guarded(keyword: Kind, ts: seq<Token>, i: nat, k: nat, c: Expr) {
    && i + 2 < k - 1 < |ts| && ts[i].kind == keyword && ts[i + 1].kind == LPAREN && ts[k - 1].kind == RPAREN
    && Phrase(0, ts, i + 2, k - 1, c)
  }

  ghost predicate ForHead(ts: seq<Token>, i: nat, x: nat, y: nat, k: nat, s: Stmt) {
    && s.ForStmt? && i + 2 <= x < y < k - 1 < |ts| && ts[i].kind == FOR && ts[i + 1].kind == LPAREN
    && Optional(ts, i + 2, x, s.init) && ts[x].kind == SEMICOLON
    && Optional(ts, x + 1, y, s.test) && ts[y].kind == SEMICOLON
    && Optional(ts, y + 1, k - 1, s.increment) && ts[k - 1].kind == RPAREN
  }

  /** The tokens from the i-th up to the j-th are the statement. Local variables are of type int or
      char; an else belongs to the nearest if. */
  ghost predicate Statement(ts: seq<Token>, i: nat, j: nat, s: Stmt)
    decreases j - i, 2
  {
    && i < j <= |ts|
    && match s
       case VarDecl(_, _, _) =>
         (ts[i].kind == INT || ts[i].kind == CHAR) && exists n :: Declarator(ts, i, n) && Variable(ts, n, j, s)
       case CompoundStmt(ss) => Block(ts, i, j, ss)
       case ExprStmt(e) => ts[j - 1].kind == SEMICOLON && Optional(ts, i, j - 1, e)
       case ReturnStmt(v) =>
         i + 1 < j && ts[i].kind == RETURN && ts[j - 1].kind == SEMICOLON && Optional(ts, i + 1, j - 1, v)
       case IfStmt(_, _, els) => exists k, m :: If(ts, i, k, m, j, s)
       case WhileStmt(_, _) => exists k :: While(ts, i, k, j, s)
       case ForStmt(_, _, _, _) => exists x, y, k :: For(ts, i, x, y, k, j, s)
  }

  /** With `m` the place of the else, or the end. */
  ghost predicate If(ts: seq<Token>, i: nat, k: nat, m: nat, j: nat, s: Stmt)
    decreases j - i, 0
  {
    && s.IfStmt? && i < k < m <= j <= |ts| && Guarded(IF, ts, i, k, s.condition) && Statement(ts, k, m, s.thenStmt)
    && if s.elseStmt.None? then m == j
       else m < j && ts[m].kind == ELSE && Closed(s.thenStmt) && Statement(ts, m + 1, j, s.elseStmt.value)
  }

  ghost predicate While(ts: seq<Token>, i: nat, k: nat, j: nat, s: Stmt)
    decreases j - i, 0
  {
    s.WhileStmt? && i < k < j <= |ts| && Guarded(WHILE, ts, i, k, s.condition) && Statement(ts, k, j, s.body)
  }

  ghost predicate For(ts: seq<Token>, i: nat, x: nat, y: nat, k: nat, j: nat, s: Stmt)
    decreases j - i, 0
  {
    s.ForStmt? && i < k < j <= |ts| && ForHead(ts, i, x, y, k, s) && Statement(ts, k, j, s.body)
  }

  ghost predicate Block(ts: seq<Token>, i: nat, j: nat, ss: seq<Stmt>)
    decreases j - i, 1
  {
    i < j - 1 < |ts| && ts[i].kind == LBRACE && ts[j - 1].kind == RBRACE && Items(ts, i + 1, j - 1, ss)
  }

  ghost predicate Items(ts: seq<Token>, i: nat, j: nat, ss: seq<Stmt>)
    decreases j - i, 4
  {
    if ss == [] then i == j else exists k :: FirstItem(ts, i, k, j, ss)
  }

  ghost predicate FirstItem(ts: seq<Token>, i: nat, k: nat, j: nat, ss: seq<Stmt>)
    decreases j - i, 3
  {
    ss != [] && i < k <= j <= |ts| && Statement(ts, i, k, ss[0]) && Items(ts, k, j, ss[1..])
  }

  // ------------------------------------------------------------------ what is read is a statement

  lemma {:induction false} StarsSkipped(ts: Stream, i: nat) returns (n: nat)
    requires i < |ts|
    ensures i <= n < |ts| && Stars(ts, i, n) && ts[n].kind != STAR && SkipStars(From(ts, i)) == From(ts, n)
    decreases |ts| - i
  {
    TokenAt(ts, i);
    if ts[i].kind == STAR {
      n := StarsSkipped(ts, i + 1);
    } else {
      n := i;
    }
  }

  lemma {:induction false} StarsAre(ts: Stream, i: nat, n: nat)
    requires Stars(ts, i, n) && n < |ts| && ts[n].kind != STAR
    ensures SkipStars(From(ts, i)) == From(ts, n)
    decreases n - i
  {
    TokenAt(ts, i);
    if i < n {
      StarsAre(ts, i + 1, n);
    }
  }

  /** If no error was reported, a statement was read; an else after it is not taken by it. */
  ghost predicate SoundStmt(ts: Stream, i: nat, g: Got<Option<Stmt>>) {
    g.ok ==>
      var j := Place(ts, g.rest);
      && i < j < |ts| && g.rest == From(ts, j) && g.value.Some? && Statement(ts, i, j, g.value.value)
      && (ts[j].kind == ELSE ==> Closed(g.value.value))
  }

  ghost predicate SoundVar(ts: Stream, n: nat, g: Got<Stmt>) {
    g.ok ==>
      var j := Place(ts, g.rest);
      n < j < |ts| && g.rest == From(ts, j) && Variable(ts, n, j, g.value)
  }

  lemma SizeSound(ts: Stream, i: nat)
    requires i < |ts| && Spelled(ts)
    ensures var A := ParseSize(From(ts, i));
            A.ok ==> Size(ts, i, A.value) && SizeEnd(i, A.value) < |ts| && A.rest == From(ts, SizeEnd(i, A.value))
  {
    hide Spelled, IntegerValue;
    TokenAt(ts, i);
    if ts[i].kind == LBRACKET {
      TokenAt(ts, i + 1);
      if ts[i + 1].kind == INTEGER_LITERAL {
        TokenAt(ts, i + 2);
        NumberSpelled(ts, i + 1);
      }
    }
  }

  lemma NumberSpelled(ts: seq<Token>, i: nat)
    requires i < |ts| && Spelled(ts) && ts[i].kind == INTEGER_LITERAL
    ensures Decimal.IsDigits(ts[i].value) && IntegerValue(ts[i].value) == Decimal.Read(ts[i].value)
  {
    assert ts[i] in ts;
  }

  lemma VariableSound(ts: Stream, n: nat)
    requires n + 1 < |ts| && Spelled(ts)
    ensures SoundVar(ts, n, ParseVarRest(ts[n].value, From(ts, n + 1)))
  {
    hide *;
    VarRestIs(ts[n].value, From(ts, n + 1));
    SizeSound(ts, n + 1);
    var A := ParseSize(From(ts, n + 1));
    if A.ok {
      var m := SizeEnd(n + 1, A.value);
      TokenAt(ts, m);
      if ts[m].kind == ASSIGN {
        ExprSound(0, ts, m + 1);
        InitialSound(ts, n, m, A.value, ParseAt(0, From(ts, m + 1)));
      } else {
        PlainSound(ts, n, m, A.value);
      }
    } else {
      FailedVar(ts, n, ParseVarRest(ts[n].value, From(ts, n + 1)));
    }
  }

  lemma FailedVar(ts: Stream, n: nat, g: Got<Stmt>)
    requires !g.ok
    ensures SoundVar(ts, n, g)
  {
  }

  lemma InitialSound(ts: Stream, n: nat, m: nat, size: Option<nat>, E: Got<Expr>)
    requires n < m < |ts| - 1 && m == SizeEnd(n + 1, size) && Size(ts, n + 1, size) && ts[m].kind == ASSIGN
    requires Sound(0, ts, m + 1, E)
    ensures SoundVar(ts, n, Got(VarDecl(ts[n].value, size, Some(E.value)), Shift(E.rest),
                                E.ok && E.rest[0].kind == SEMICOLON))
  {
    hide Phrase, Size, From, Sound, Shift;
    EndSound(ts, m + 1, E);
  }

  lemma PlainSound(ts: Stream, n: nat, m: nat, size: Option<nat>)
    requires n < m < |ts| && m == SizeEnd(n + 1, size) && Size(ts, n + 1, size)
    ensures SoundVar(ts, n, Got(VarDecl(ts[n].value, size, None), Shift(From(ts, m)), ts[m].kind == SEMICOLON))
  {
    hide Phrase, Size;
  }

  /** The token after an expression. */
  lemma EndSound(ts: Stream, i: nat, g: Got<Expr>)
    requires Sound(0, ts, i, g)
    ensures g.ok ==>
              var j := Place(ts, g.rest);
              && i < j < |ts| && g.rest == From(ts, j) && Phrase(0, ts, i, j, g.value) && g.rest[0] == ts[j]
              && (ts[j].kind != EOF ==>
                    j + 1 < |ts| && Shift(g.rest) == From(ts, j + 1) && Place(ts, Shift(g.rest)) == j + 1)
  {
    hide Phrase;
    if g.ok {
      TokenAt(ts, Place(ts, g.rest));
    }
  }

  lemma {:induction false} StmtSound(ts: Stream, i: nat)
    requires i < |ts| && Spelled(ts)
    ensures SoundStmt(ts, i, ParseStmt(From(ts, i)))
    decreases |ts| - i, 25
  {
    hide *;
    StatementUnfolds(From(ts, i));
    TokenAt(ts, i);
    match ts[i].kind
    case INT => LocalSound(ts, i);
    case CHAR => LocalSound(ts, i);
    case LBRACE =>
      BlockSound(ts, i);
      CompoundSound(ts, i, ParseBlock(From(ts, i)));
    case IF => IfSound(ts, i);
    case WHILE => WhileSound(ts, i);
    case FOR => ForSound(ts, i);
    case RETURN => ReturnSound(ts, i);
    case _ => ExprStmtSound(ts, i);
  }

  lemma FailedStmt(ts: Stream, i: nat, g: Got<Option<Stmt>>)
    requires !g.ok
    ensures SoundStmt(ts, i, g)
  {
  }

  lemma LocalUnfolds(ts: Stream)
    requires ts[0].kind != EOF
    ensures var n := SkipStars(Shift(ts));
            ParseLocal(ts) == if n[0].kind != IDENTIFIER then Got(None, Synchronize(n), false)
                              else
                                var V := ParseVarRest(n[0].value, Shift(n));
                                Got(Some(V.value), V.rest, V.ok)
  {
  }

  lemma LocalSound(ts: Stream, i: nat)
    requires i < |ts| && Spelled(ts) && (ts[i].kind == INT || ts[i].kind == CHAR)
    ensures SoundStmt(ts, i, ParseLocal(From(ts, i)))
  {
    hide *;
    TokenAt(ts, i);
    LocalUnfolds(From(ts, i));
    var n := StarsSkipped(ts, i + 1);
    TokenAt(ts, n);
    if ts[n].kind == IDENTIFIER {
      VariableSound(ts, n);
      VariableIs(ts, i, n, ParseVarRest(ts[n].value, From(ts, n + 1)));
    } else {
      FailedStmt(ts, i, ParseLocal(From(ts, i)));
    }
  }

  lemma VariableIs(ts: Stream, i: nat, n: nat, V: Got<Stmt>)
    requires i < n < |ts| && (ts[i].kind == INT || ts[i].kind == CHAR)
    requires Stars(ts, i + 1, n) && ts[n].kind == IDENTIFIER
    requires SoundVar(ts, n, V)
    ensures SoundStmt(ts, i, Got(Some(V.value), V.rest, V.ok))
  {
    hide Variable, Stars;
    assert Declarator(ts, i, n);
    VariableForm(ts, n, V);
  }

  lemma VariableForm(ts: Stream, n: nat, V: Got<Stmt>)
    requires SoundVar(ts, n, V)
    ensures V.ok ==> V.value.VarDecl?
  {
  }

  lemma ReturnSound(ts: Stream, i: nat)
    requires i < |ts| && Spelled(ts) && ts[i].kind == RETURN
    ensures SoundStmt(ts, i, ParseReturn(From(ts, i)))
  {
    hide *;
    TokenAt(ts, i);
    ReturnIs(From(ts, i));
    OptionalSound(ts, i + 1, SEMICOLON);
    var V := ParseUnless(SEMICOLON, From(ts, i + 1));
    if V.ok && V.rest[0].kind == SEMICOLON {
      var j := Place(ts, V.rest);
      OptionalEnd(ts, i + 1, V);
      ReturnForm(ts, i, j + 1, V.value);
      SoundIs(ts, i, j + 1, ReturnStmt(V.value));
    } else {
      FailedStmt(ts, i, ParseReturn(From(ts, i)));
    }
  }

  /** An optional expression was read from the i-th token on. */
  ghost predicate SoundOption(ts: Stream, i: nat, g: Got<Option<Expr>>) {
    g.ok ==>
      var j := Place(ts, g.rest);
      i <= j < |ts| && g.rest == From(ts, j) && Optional(ts, i, j, g.value)
  }

  lemma OptionalSound(ts: Stream, i: nat, stop: Kind)
    requires i < |ts| && Spelled(ts)
    ensures SoundOption(ts, i, ParseUnless(stop, From(ts, i)))
  {
    hide Phrase, Spelled, ParseAt;
    TokenAt(ts, i);
    if ts[i].kind != stop {
      ExprSound(0, ts, i);
    }
  }

  lemma OptionalEnd(ts: Stream, i: nat, g: Got<Option<Expr>>)
    requires SoundOption(ts, i, g) && g.ok
    ensures var j := Place(ts, g.rest);
            && i <= j < |ts| && g.rest == From(ts, j) && Optional(ts, i, j, g.value) && g.rest[0] == ts[j]
            && (ts[j].kind != EOF ==> j + 1 < |ts| && Shift(g.rest) == From(ts, j + 1))
  {
    hide Phrase;
    TokenAt(ts, Place(ts, g.rest));
  }

  lemma ReturnForm(ts: seq<Token>, i: nat, j: nat, v: Option<Expr>)
    requires i + 1 < j <= |ts| && ts[i].kind == RETURN && ts[j - 1].kind == SEMICOLON && Optional(ts, i + 1, j - 1, v)
    ensures Statement(ts, i, j, ReturnStmt(v)) && Closed(ReturnStmt(v))
  {
    hide Phrase;
  }

  lemma SoundIs(ts: Stream, i: nat, j: nat, s: Stmt)
    requires i < j < |ts| && Statement(ts, i, j, s) && (ts[j].kind == ELSE ==> Closed(s))
    ensures SoundStmt(ts, i, Got(Some(s), From(ts, j), true))
  {
    hide Statement, Closed;
  }

  lemma ExprStmtIs(ts: Stream)
    ensures ParseExprStmt(ts)
            == if ts[0].kind == SEMICOLON then Got(Some(ExprStmt(None)), Shift(ts), true)
               else
                 var E := ParseAt(0, ts);
                 Got(Some(ExprStmt(Some(E.value))), Shift(E.rest), E.ok && E.rest[0].kind == SEMICOLON)
  {
  }

  lemma ExprStmtSound(ts: Stream, i: nat)
    requires i < |ts| && Spelled(ts)
    ensures SoundStmt(ts, i, ParseExprStmt(From(ts, i)))
  {
    hide *;
    TokenAt(ts, i);
    ExprStmtIs(From(ts, i));
    if ts[i].kind == SEMICOLON {
      ExprStmtForm(ts, i, i + 1, None);
      SoundIs(ts, i, i + 1, ExprStmt(None));
    } else {
      ExprSound(0, ts, i);
      var E := ParseAt(0, From(ts, i));
      if E.ok && E.rest[0].kind == SEMICOLON {
        EndSound(ts, i, E);
        var j := Place(ts, E.rest);
        ExprStmtForm(ts, i, j + 1, Some(E.value));
        SoundIs(ts, i, j + 1, ExprStmt(Some(E.value)));
      } else {
        FailedStmt(ts, i, ParseExprStmt(From(ts, i)));
      }
    }
  }

  lemma ExprStmtForm(ts: seq<Token>, i: nat, j: nat, e: Option<Expr>)
    requires i < j <= |ts| && ts[j - 1].kind == SEMICOLON
    requires if e.None? then i == j - 1 else Phrase(0, ts, i, j - 1, e.value)
    ensures Statement(ts, i, j, ExprStmt(e)) && Closed(ExprStmt(e))
  {
    hide Phrase;
  }

  ghost predicate SoundList(ts: Stream, i: nat, g: Got<seq<Stmt>>) {
    g.ok ==>
      var j := Place(ts, g.rest);
      i <= j < |ts| && g.rest == From(ts, j) && Items(ts, i, j, g.value)
  }

  ghost predicate SoundBlock(ts: Stream, i: nat, g: Got<seq<Stmt>>) {
    g.ok ==>
      var j := Place(ts, g.rest);
      i < j < |ts| && g.rest == From(ts, j) && Block(ts, i, j, g.value)
  }

  lemma CompoundSound(ts: Stream, i: nat, B: Got<seq<Stmt>>)
    requires SoundBlock(ts, i, B)
    ensures SoundStmt(ts, i, Got(Some(CompoundStmt(B.value)), B.rest, B.ok))
  {
    hide Block;
  }

  lemma {:induction false} BlockSound(ts: Stream, i: nat)
    requires i < |ts| && Spelled(ts)
    ensures SoundBlock(ts, i, ParseBlock(From(ts, i)))
    decreases |ts| - i, 24
  {
    hide *;
    TokenAt(ts, i);
    BlockUnfolds(From(ts, i));
    if ts[i].kind == LBRACE {
      ItemsSound(ts, i + 1);
      BlockIs(ts, i, ParseItems(From(ts, i + 1)));
    } else {
      FailedBlock(ts, i, ParseBlock(From(ts, i)));
    }
  }

  lemma FailedBlock(ts: Stream, i: nat, g: Got<seq<Stmt>>)
    requires !g.ok
    ensures SoundBlock(ts, i, g) && SoundList(ts, i, g)
  {
  }

  lemma PlaceFrom(ts: Stream, j: nat)
    ensures j < |ts| ==> Place(ts, From(ts, j)) == j
  {
  }

  lemma BlockIs(ts: Stream, i: nat, B: Got<seq<Stmt>>)
    requires i + 1 < |ts| && ts[i].kind == LBRACE && SoundList(ts, i + 1, B)
    ensures SoundBlock(ts, i, Got(B.value, Shift(B.rest), B.ok && B.rest[0].kind == RBRACE))
  {
    hide Items, From, Shift;
    if B.ok {
      TokenAt(ts, Place(ts, B.rest));
      PlaceFrom(ts, Place(ts, B.rest) + 1);
    }
  }

  lemma {:induction false} ItemsSound(ts: Stream, i: nat)
    requires i < |ts| && Spelled(ts)
    ensures SoundList(ts, i, ParseItems(From(ts, i)))
    decreases |ts| - i, 26
  {
    hide *;
    TokenAt(ts, i);
    ItemsUnfold(From(ts, i));
    if ts[i].kind == RBRACE || ts[i].kind == EOF {
      NoItems(ts, i);
    } else {
      StmtSound(ts, i);
      var S := ParseStmt(From(ts, i));
      if S.ok {
        StmtEnd(ts, i, S);
        ItemsSound(ts, Place(ts, S.rest));
        ItemsIs(ts, i, S, ParseItems(S.rest));
      } else {
        FailedBlock(ts, i, ParseItems(From(ts, i)));
      }
    }
  }

  lemma NoItems(ts: Stream, i: nat)
    requires i < |ts|
    ensures SoundList(ts, i, Got([], From(ts, i), true))
  {
  }

  lemma StmtEnd(ts: Stream, i: nat, S: Got<Option<Stmt>>)
    requires SoundStmt(ts, i, S) && S.ok
    ensures var k := Place(ts, S.rest);
            && i < k < |ts| && S.rest == From(ts, k) && S.rest[0] == ts[k] && S.value.Some?
            && Statement(ts, i, k, S.value.value) && (ts[k].kind == ELSE ==> Closed(S.value.value))
            && (ts[k].kind != EOF ==> k + 1 < |ts| && Shift(S.rest) == From(ts, k + 1))
  {
    hide Statement;
    TokenAt(ts, Place(ts, S.rest));
  }

  lemma ItemsIs(ts: Stream, i: nat, S: Got<Option<Stmt>>, R: Got<seq<Stmt>>)
    requires SoundStmt(ts, i, S) && S.ok && SoundList(ts, Place(ts, S.rest), R)
    ensures SoundList(ts, i, Got((if S.value.Some? then [S.value.value] else []) + R.value, R.rest, R.ok))
  {
    hide Statement;
    if R.ok {
      var ss := [S.value.value] + R.value;
      assert ss[1..] == R.value;
      assert FirstItem(ts, i, Place(ts, S.rest), Place(ts, R.rest), ss);
    }
  }

  /** The keyword and the condition of an if or a while. */
  lemma GuardSound(keyword: Kind, ts: Stream, i: nat) returns (k: nat)
    requires i < |ts| && Spelled(ts) && ts[i].kind == keyword != EOF
    ensures var t1 := Shift(From(ts, i));
            var C := ParseAt(0, Shift(t1));
            t1[0].kind == LPAREN && C.ok && C.rest[0].kind == RPAREN ==>
              i < k < |ts| && Guarded(keyword, ts, i, k, C.value) && Shift(C.rest) == From(ts, k)
  {
    hide *;
    k := 0;
    TokenAt(ts, i);
    TokenAt(ts, i + 1);
    if ts[i + 1].kind == LPAREN {
      ExprSound(0, ts, i + 2);
      var C := ParseAt(0, From(ts, i + 2));
      if C.ok && C.rest[0].kind == RPAREN {
        EndSound(ts, i + 2, C);
        k := Place(ts, C.rest) + 1;
        GuardIs(keyword, ts, i, k, C.value);
      }
    }
  }

  lemma GuardIs(keyword: Kind, ts: seq<Token>, i: nat, k: nat, c: Expr)
    requires i + 2 < k - 1 < |ts| && ts[i].kind == keyword && ts[i + 1].kind == LPAREN && ts[k - 1].kind == RPAREN
    requires Phrase(0, ts, i + 2, k - 1, c)
    ensures Guarded(keyword, ts, i, k, c)
  {
  }

  lemma {:induction false} IfSound(ts: Stream, i: nat)
    requires i < |ts| && Spelled(ts) && ts[i].kind == IF
    ensures SoundStmt(ts, i, ParseIf(From(ts, i)))
    decreases |ts| - i, 24
  {
    hide *;
    TokenAt(ts, i);
    IfUnfolds(From(ts, i));
    var k := GuardSound(IF, ts, i);
    var t1 := Shift(From(ts, i));
    var C := ParseAt(0, Shift(t1));
    var T := ParseStmt(Shift(C.rest));
    if t1[0].kind == LPAREN && C.ok && C.rest[0].kind == RPAREN && T.ok {
      StmtSound(ts, k);
      StmtEnd(ts, k, T);
      var m := Place(ts, T.rest);
      if T.rest[0].kind == ELSE {
        StmtSound(ts, m + 1);
        ElseSound(ts, i, k, m, C.value, T.value.value, ParseStmt(From(ts, m + 1)));
      } else {
        ThenSound(ts, i, k, m, C.value, T.value.value);
      }
    } else {
      FailedStmt(ts, i, ParseIf(From(ts, i)));
    }
  }

  lemma ThenSound(ts: Stream, i: nat, k: nat, m: nat, c: Expr, s: Stmt)
    requires i < k < m < |ts| && Guarded(IF, ts, i, k, c) && Statement(ts, k, m, s) && ts[m].kind != ELSE
    ensures SoundStmt(ts, i, Got(Some(IfStmt(c, Kept(Some(s)), None)), From(ts, m), true))
  {
    hide *;
    KeptSome(s);
    IfIs(ts, i, k, m, m, IfStmt(c, s, None));
    SoundIs(ts, i, m, IfStmt(c, s, None));
  }

  lemma ElseSound(ts: Stream, i: nat, k: nat, m: nat, c: Expr, s: Stmt, E: Got<Option<Stmt>>)
    requires i < k < m < |ts| - 1 && Guarded(IF, ts, i, k, c) && Statement(ts, k, m, s) && Closed(s)
    requires ts[m].kind == ELSE && SoundStmt(ts, m + 1, E)
    ensures SoundStmt(ts, i, Got(Some(IfStmt(c, Kept(Some(s)), Some(Kept(E.value)))), E.rest, E.ok))
  {
    hide Guarded, Statement, From;
    if E.ok {
      IfIs(ts, i, k, m, Place(ts, E.rest), IfStmt(c, s, Some(E.value.value)));
    }
  }

  lemma IfIs(ts: seq<Token>, i: nat, k: nat, m: nat, j: nat, s: Stmt)
    requires s.IfStmt? && i < k < m <= j <= |ts| && Guarded(IF, ts, i, k, s.condition)
    requires Statement(ts, k, m, s.thenStmt)
    requires if s.elseStmt.None? then m == j
             else m < j && ts[m].kind == ELSE && Closed(s.thenStmt) && Statement(ts, m + 1, j, s.elseStmt.value)
    ensures Statement(ts, i, j, s)
  {
    hide Guarded;
    assert If(ts, i, k, m, j, s);
  }

  lemma {:induction false} WhileSound(ts: Stream, i: nat)
    requires i < |ts| && Spelled(ts) && ts[i].kind == WHILE
    ensures SoundStmt(ts, i, ParseWhile(From(ts, i)))
    decreases |ts| - i, 24
  {
    hide *;
    TokenAt(ts, i);
    WhileUnfolds(From(ts, i));
    var k := GuardSound(WHILE, ts, i);
    var t1 := Shift(From(ts, i));
    var C := ParseAt(0, Shift(t1));
    if t1[0].kind == LPAREN && C.ok && C.rest[0].kind == RPAREN {
      StmtSound(ts, k);
      WhileIs(ts, i, k, C.value, ParseStmt(From(ts, k)));
    } else {
      FailedStmt(ts, i, ParseWhile(From(ts, i)));
    }
  }

  lemma WhileIs(ts: Stream, i: nat, k: nat, c: Expr, B: Got<Option<Stmt>>)
    requires i < k < |ts| && Guarded(WHILE, ts, i, k, c) && SoundStmt(ts, k, B)
    ensures SoundStmt(ts, i, Got(Some(WhileStmt(c, Kept(B.value))), B.rest, B.ok))
  {
    hide Guarded;
    if B.ok {
      assert While(ts, i, k, Place(ts, B.rest), WhileStmt(c, B.value.value));
    }
  }

  lemma {:induction false} ForSound(ts: Stream, i: nat)
    requires i < |ts| && Spelled(ts) && ts[i].kind == FOR
    ensures SoundStmt(ts, i, ParseFor(From(ts, i)))
    decreases |ts| - i, 24
  {
    hide *;
    TokenAt(ts, i);
    ForUnfolds(From(ts, i));
    TokenAt(ts, i + 1);
    if ParseFor(From(ts, i)).ok {
      OptionalSound(ts, i + 2, SEMICOLON);
      var I := ParseUnless(SEMICOLON, From(ts, i + 2));
      OptionalEnd(ts, i + 2, I);
      var x := Place(ts, I.rest);
      OptionalSound(ts, x + 1, SEMICOLON);
      var C := ParseUnless(SEMICOLON, From(ts, x + 1));
      OptionalEnd(ts, x + 1, C);
      var y := Place(ts, C.rest);
      OptionalSound(ts, y + 1, RPAREN);
      var N := ParseUnless(RPAREN, From(ts, y + 1));
      OptionalEnd(ts, y + 1, N);
      var k := Place(ts, N.rest) + 1;
      StmtSound(ts, k);
      ForIs(ts, i, x, y, k, I.value, C.value, N.value, ParseStmt(From(ts, k)));
    } else {
      FailedStmt(ts, i, ParseFor(From(ts, i)));
    }
  }

  lemma ForIs(ts: Stream, i: nat, x: nat, y: nat, k: nat, a: Option<Expr>, b: Option<Expr>, c: Option<Expr>,
              B: Got<Option<Stmt>>)
    requires i + 2 <= x < y < k - 1 < |ts| - 1 && ts[i].kind == FOR && ts[i + 1].kind == LPAREN
    requires Optional(ts, i + 2, x, a) && ts[x].kind == SEMICOLON && Optional(ts, x + 1, y, b)
    requires ts[y].kind == SEMICOLON && Optional(ts, y + 1, k - 1, c) && ts[k - 1].kind == RPAREN
    requires SoundStmt(ts, k, B)
    ensures SoundStmt(ts, i, Got(Some(ForStmt(a, b, c, Kept(B.value))), B.rest, B.ok))
  {
    hide Optional;
    if B.ok {
      var s := ForStmt(a, b, c, B.value.value);
      assert ForHead(ts, i, x, y, k, s);
      hide ForHead;
      assert For(ts, i, x, y, k, Place(ts, B.rest), s);
    }
  }

  // ------------------------------------------------------------------ every statement is read

  /** The statement is read whole. */
  ghost predicate ReadStmt(ts: Stream, i: nat, j: nat, s: Stmt) {
    ParseStmt(From(ts, i)) == Got(Some(s), From(ts, j), true)
  }

  lemma VariableCase(ts: seq<Token>, i: nat, j: nat, s: Stmt) returns (n: nat)
    requires Statement(ts, i, j, s) && s.VarDecl?
    ensures (ts[i].kind == INT || ts[i].kind == CHAR) && Declarator(ts, i, n) && Variable(ts, n, j, s)
  {
    n :| Declarator(ts, i, n) && Variable(ts, n, j, s);
  }

  lemma IfCase(ts: seq<Token>, i: nat, j: nat, s: Stmt) returns (k: nat, m: nat)
    requires Statement(ts, i, j, s) && s.IfStmt?
    ensures i < k < m <= j <= |ts| && Guarded(IF, ts, i, k, s.condition) && Statement(ts, k, m, s.thenStmt)
    ensures if s.elseStmt.None? then m == j
            else m < j && ts[m].kind == ELSE && Closed(s.thenStmt) && Statement(ts, m + 1, j, s.elseStmt.value)
  {
    k, m :| If(ts, i, k, m, j, s);
  }

  lemma WhileCase(ts: seq<Token>, i: nat, j: nat, s: Stmt) returns (k: nat)
    requires Statement(ts, i, j, s) && s.WhileStmt?
    ensures i < k < j <= |ts| && Guarded(WHILE, ts, i, k, s.condition) && Statement(ts, k, j, s.body)
  {
    k :| While(ts, i, k, j, s);
  }

  lemma ForCase(ts: seq<Token>, i: nat, j: nat, s: Stmt) returns (x: nat, y: nat, k: nat)
    requires Statement(ts, i, j, s) && s.ForStmt?
    ensures i < k < j <= |ts| && ForHead(ts, i, x, y, k, s) && Statement(ts, k, j, s.body)
  {
    x, y, k :| For(ts, i, x, y, k, j, s);
  }

  lemma EndCases(ts: seq<Token>, i: nat, j: nat, s: Stmt)
    requires Statement(ts, i, j, s)
    ensures i < j <= |ts|
    ensures s.CompoundStmt? ==> Block(ts, i, j, s.statements)
    ensures s.ExprStmt? ==> ts[j - 1].kind == SEMICOLON && Optional(ts, i, j - 1, s.expression)
    ensures s.ReturnStmt? ==>
              && i + 1 < j && ts[i].kind == RETURN && ts[j - 1].kind == SEMICOLON && Optional(ts, i + 1, j - 1, s.value)
  {
  }

  lemma {:induction false} StmtComplete(ts: Stream, i: nat, j: nat, s: Stmt)
    requires Statement(ts, i, j, s) && j < |ts| && (ts[j].kind == ELSE ==> Closed(s))
    ensures i < j && ReadStmt(ts, i, j, s) && ts[i].kind != RBRACE && ts[i].kind != EOF
    decreases j - i, 2
  {
    hide *;
    EndCases(ts, i, j, s);
    match s
    case VarDecl(_, _, _) => LocalComplete(ts, i, j, s);
    case CompoundStmt(ss) => CompoundComplete(ts, i, j, ss);
    case ExprStmt(e) => ExprStmtComplete(ts, i, j, e);
    case ReturnStmt(v) => ReturnComplete(ts, i, j, v);
    case IfStmt(_, _, _) => IfComplete(ts, i, j, s);
    case WhileStmt(_, _) => WhileComplete(ts, i, j, s);
    case ForStmt(_, _, _, _) => ForComplete(ts, i, j, s);
  }

  lemma ReadIs(ts: Stream, i: nat, j: nat, s: Stmt)
    requires ParseStmt(From(ts, i)) == Got(Some(s), From(ts, j), true)
    ensures ReadStmt(ts, i, j, s)
  {
  }

  lemma DeclaratorParts(ts: seq<Token>, i: nat, n: nat)
    requires Declarator(ts, i, n)
    ensures i < n < |ts| && IsType(ts[i].kind) && Stars(ts, i + 1, n) && ts[n].kind == IDENTIFIER && ts[i].kind != EOF
  {
  }

  lemma LocalComplete(ts: Stream, i: nat, j: nat, s: Stmt)
    requires Statement(ts, i, j, s) && s.VarDecl? && j < |ts|
    ensures ReadStmt(ts, i, j, s) && ts[i].kind != RBRACE && ts[i].kind != EOF
  {
    hide *;
    var n := VariableCase(ts, i, j, s);
    DeclaratorParts(ts, i, n);
    TokenAt(ts, i);
    StatementUnfolds(From(ts, i));
    LocalUnfolds(From(ts, i));
    StarsAre(ts, i + 1, n);
    TokenAt(ts, n);
    VariableComplete(ts, n, j, s);
    ReadIs(ts, i, j, s);
  }

  lemma VariableParts(ts: seq<Token>, n: nat, j: nat, v: Stmt)
    requires Variable(ts, n, j, v)
    ensures v.VarDecl? && n < |ts| && v.name == ts[n].value && v == VarDecl(v.name, v.arraySize, v.initializer)
    ensures Size(ts, n + 1, v.arraySize)
    ensures var m := SizeEnd(n + 1, v.arraySize);
            && n < m < j <= |ts| && ts[j - 1].kind == SEMICOLON
            && if v.initializer.None? then m == j - 1
               else ts[m].kind == ASSIGN && m < j - 1 && Phrase(0, ts, m + 1, j - 1, v.initializer.value)
  {
    hide Phrase, Size;
  }

  lemma SizeComplete(ts: Stream, i: nat, size: Option<nat>)
    requires i < |ts| && Size(ts, i, size) && (size.None? ==> ts[i].kind != LBRACKET)
    ensures SizeEnd(i, size) < |ts| && ParseSize(From(ts, i)) == Got(size, From(ts, SizeEnd(i, size)), true)
  {
    TokenAt(ts, i);
    if size.Some? {
      TokenAt(ts, i + 1);
      TokenAt(ts, i + 2);
    }
  }

  lemma VariableComplete(ts: Stream, n: nat, j: nat, v: Stmt)
    requires Variable(ts, n, j, v) && j < |ts|
    ensures ParseVarRest(ts[n].value, From(ts, n + 1)) == Got(v, From(ts, j), true)
  {
    hide *;
    VariableParts(ts, n, j, v);
    var m := SizeEnd(n + 1, v.arraySize);
    NoSize(n + 1, v.arraySize);
    TokenAt(ts, m);
    SizeComplete(ts, n + 1, v.arraySize);
    InitialComplete(ts, m, j, v.initializer);
    VariableRead(v, From(ts, n + 1), From(ts, m), From(ts, j));
  }

  /** What the parser does from the end of the size on. */
  ghost predicate InitialRead(rest: Stream, init: Option<Expr>, end: Stream) {
    if init.None? then rest[0].kind == SEMICOLON && Shift(rest) == end
    else
      var E := ParseAt(0, Shift(rest));
      && rest[0].kind == ASSIGN && E.ok && E.value == init.value && E.rest[0].kind == SEMICOLON && Shift(E.rest) == end
  }

  lemma InitialComplete(ts: Stream, m: nat, j: nat, init: Option<Expr>)
    requires m < j < |ts| && ts[j - 1].kind == SEMICOLON
    requires if init.None? then m == j - 1
             else ts[m].kind == ASSIGN && m < j - 1 && Phrase(0, ts, m + 1, j - 1, init.value)
    ensures InitialRead(From(ts, m), init, From(ts, j))
  {
    hide Phrase, From, Shift, ParseAt, Stops;
    TokenAt(ts, m);
    TokenAt(ts, j - 1);
    if init.Some? {
      AssignStops();
      ExprComplete(0, ts, m + 1, j - 1, init.value);
    }
  }

  lemma VariableRead(v: Stmt, start: Stream, rest: Stream, end: Stream)
    requires v.VarDecl? && ParseSize(start) == Got(v.arraySize, rest, true) && InitialRead(rest, v.initializer, end)
    ensures ParseVarRest(v.name, start) == Got(v, end, true)
  {
    hide ParseSize, ParseAt, Shift, ParseVarRest;
    VarRestIs(v.name, start);
  }

  lemma NoSize(i: nat, size: Option<nat>)
    ensures size.None? ==> SizeEnd(i, size) == i
  {
  }

  lemma {:induction false} CompoundComplete(ts: Stream, i: nat, j: nat, ss: seq<Stmt>)
    requires Block(ts, i, j, ss) && j < |ts|
    ensures ReadStmt(ts, i, j, CompoundStmt(ss)) && ts[i].kind != RBRACE && ts[i].kind != EOF
    decreases j - i, 1, 1
  {
    hide *;
    StatementUnfolds(From(ts, i));
    BlockParts(ts, i, j, ss);
    TokenAt(ts, i);
    BlockComplete(ts, i, j, ss);
    ReadIs(ts, i, j, CompoundStmt(ss));
  }

  lemma BlockParts(ts: seq<Token>, i: nat, j: nat, ss: seq<Stmt>)
    requires Block(ts, i, j, ss)
    ensures i < j - 1 < |ts| && ts[i].kind == LBRACE && ts[j - 1].kind == RBRACE && Items(ts, i + 1, j - 1, ss)
  {
  }

  lemma {:induction false} BlockComplete(ts: Stream, i: nat, j: nat, ss: seq<Stmt>)
    requires Block(ts, i, j, ss) && j < |ts|
    ensures i < j && ParseBlock(From(ts, i)) == Got(ss, From(ts, j), true)
    decreases j - i, 1, 0
  {
    hide *;
    BlockParts(ts, i, j, ss);
    BlockUnfolds(From(ts, i));
    TokenAt(ts, i);
    TokenAt(ts, j - 1);
    ItemsComplete(ts, i + 1, j - 1, ss);
  }

  lemma ItemsCase(ts: seq<Token>, i: nat, j: nat, ss: seq<Stmt>) returns (k: nat)
    requires Items(ts, i, j, ss)
    ensures ss == [] ==> i == j
    ensures ss != [] ==> i < k <= j <= |ts| && Statement(ts, i, k, ss[0]) && Items(ts, k, j, ss[1..])
  {
    k := 0;
    if ss != [] {
      k :| FirstItem(ts, i, k, j, ss);
    }
  }

  lemma {:induction false} ItemsComplete(ts: Stream, i: nat, j: nat, ss: seq<Stmt>)
    requires Items(ts, i, j, ss) && j < |ts| && ts[j].kind == RBRACE
    ensures i <= j && ParseItems(From(ts, i)) == Got(ss, From(ts, j), true) && ts[i].kind != ELSE
    decreases j - i, 4
  {
    hide *;
    var k := ItemsCase(ts, i, j, ss);
    TokenAt(ts, i);
    ItemsUnfold(From(ts, i));
    if ss != [] {
      ItemsComplete(ts, k, j, ss[1..]);
      StmtComplete(ts, i, k, ss[0]);
      ReadMeans(ts, i, k, ss[0]);
      NotElse(ts, i, k, ss[0]);
      assert [ss[0]] + ss[1..] == ss;
    }
  }

  lemma ReadMeans(ts: Stream, i: nat, j: nat, s: Stmt)
    requires ReadStmt(ts, i, j, s)
    ensures ParseStmt(From(ts, i)) == Got(Some(s), From(ts, j), true)
  {
  }

  /** No statement begins with else. */
  lemma NotElse(ts: seq<Token>, i: nat, j: nat, s: Stmt)
    requires Statement(ts, i, j, s)
    ensures ts[i].kind != ELSE
  {
    EndCases(ts, i, j, s);
    match s
    case VarDecl(_, _, _) => var n := VariableCase(ts, i, j, s);
    case IfStmt(_, _, _) => var k, m := IfCase(ts, i, j, s);
    case WhileStmt(_, _) => var k := WhileCase(ts, i, j, s);
    case ForStmt(_, _, _, _) => var x, y, k := ForCase(ts, i, j, s);
    case ExprStmt(e) =>
      if e.Some? {
        PhraseStarts(0, ts, i, j - 1, e.value);
        StartsNot(ts[i].kind, 0);
      }
    case _ =>
      hide Items;
  }

  lemma OptionalWithin(ts: seq<Token>, i: nat, j: nat, e: Option<Expr>)
    requires Optional(ts, i, j, e) && i <= j <= |ts|
    ensures e.None? ==> i == j
    ensures e.Some? ==> i < j && Phrase(0, ts, i, j, e.value)
  {
    if e.Some? {
      PhraseWithin(0, ts, i, j, e.value);
    }
    hide Phrase;
  }

  lemma UnlessIs(stop: Kind, ts: Stream)
    ensures ParseUnless(stop, ts) == if ts[0].kind == stop then Got(None, ts, true)
                                     else
                                       var E := ParseAt(0, ts);
                                       Got(Some(E.value), E.rest, E.ok)
  {
  }

  /** An optional expression and the token that ends it. */
  lemma OptionalComplete(stop: Kind, ts: Stream, i: nat, j: nat, e: Option<Expr>)
    requires i <= j < |ts| && Optional(ts, i, j, e) && ts[j].kind == stop && (stop == SEMICOLON || stop == RPAREN)
    ensures ParseUnless(stop, From(ts, i)) == Got(e, From(ts, j), true)
    ensures From(ts, j)[0].kind == stop && j + 1 < |ts| && Shift(From(ts, j)) == From(ts, j + 1)
  {
    hide *;
    OptionalWithin(ts, i, j, e);
    UnlessIs(stop, From(ts, i));
    TokenAt(ts, i);
    TokenAt(ts, j);
    if e.Some? {
      PhraseStarts(0, ts, i, j, e.value);
      StartsNot(ts[i].kind, 0);
      AssignStops();
      ExprComplete(0, ts, i, j, e.value);
    }
  }

  lemma ExprStmtComplete(ts: Stream, i: nat, j: nat, e: Option<Expr>)
    requires i < j < |ts| && ts[j - 1].kind == SEMICOLON && Optional(ts, i, j - 1, e)
    ensures ReadStmt(ts, i, j, ExprStmt(e)) && ts[i].kind != RBRACE && ts[i].kind != EOF
  {
    hide *;
    OptionalWithin(ts, i, j - 1, e);
    TokenAt(ts, j - 1);
    if e.Some? {
      WholeComplete(ts, i, j - 1, e.value);
      ExprStmtRead(e.value, From(ts, i), From(ts, j - 1));
    } else {
      EmptyRead(From(ts, i));
    }
    ReadIs(ts, i, j, ExprStmt(e));
  }

  lemma WholeComplete(ts: Stream, i: nat, k: nat, e: Expr)
    requires Phrase(0, ts, i, k, e) && k < |ts| && ts[k].kind == SEMICOLON
    ensures i < k && ParseAt(0, From(ts, i)) == Got(e, From(ts, k), true)
    ensures Starts(From(ts, i)[0].kind, 0) && ts[i].kind != RBRACE && ts[i].kind != EOF
  {
    hide *;
    AssignStops();
    PhraseStarts(0, ts, i, k, e);
    TokenAt(ts, i);
    StartsNot(ts[i].kind, 0);
    ExprComplete(0, ts, i, k, e);
  }

  lemma ExprStmtRead(e: Expr, start: Stream, close: Stream)
    requires Starts(start[0].kind, 0) && ParseAt(0, start) == Got(e, close, true) && close[0].kind == SEMICOLON
    ensures ParseStmt(start) == Got(Some(ExprStmt(Some(e))), Shift(close), true)
  {
    hide *;
    StartsNot(start[0].kind, 0);
    StatementUnfolds(start);
    ExprStmtIs(start);
  }

  lemma EmptyRead(start: Stream)
    requires start[0].kind == SEMICOLON
    ensures ParseStmt(start) == Got(Some(ExprStmt(None)), Shift(start), true)
  {
    hide *;
    StatementUnfolds(start);
    ExprStmtIs(start);
  }

  lemma ReturnComplete(ts: Stream, i: nat, j: nat, v: Option<Expr>)
    requires i + 1 < j < |ts| && ts[i].kind == RETURN && ts[j - 1].kind == SEMICOLON && Optional(ts, i + 1, j - 1, v)
    ensures ReadStmt(ts, i, j, ReturnStmt(v)) && ts[i].kind != RBRACE && ts[i].kind != EOF
  {
    hide *;
    StatementUnfolds(From(ts, i));
    TokenAt(ts, i);
    ReturnIs(From(ts, i));
    OptionalComplete(SEMICOLON, ts, i + 1, j - 1, v);
    ReadIs(ts, i, j, ReturnStmt(v));
  }

  lemma GuardComplete(keyword: Kind, ts: Stream, i: nat, k: nat, c: Expr)
    requires Guarded(keyword, ts, i, k, c) && keyword != EOF && k < |ts|
    ensures i < k && From(ts, i)[0].kind == keyword
    ensures var t1 := Shift(From(ts, i));
            var C := ParseAt(0, Shift(t1));
            t1[0].kind == LPAREN && C == Got(c, From(ts, k - 1), true) && C.rest[0].kind == RPAREN
            && Shift(C.rest) == From(ts, k)
  {
    hide *;
    GuardParts(keyword, ts, i, k, c);
    TokenAt(ts, i);
    TokenAt(ts, i + 1);
    TokenAt(ts, k - 1);
    AssignStops();
    ExprComplete(0, ts, i + 2, k - 1, c);
  }

  lemma GuardParts(keyword: Kind, ts: seq<Token>, i: nat, k: nat, c: Expr)
    requires Guarded(keyword, ts, i, k, c)
    ensures i + 2 < k - 1 < |ts| && ts[i].kind == keyword && ts[i + 1].kind == LPAREN && ts[k - 1].kind == RPAREN
    ensures Phrase(0, ts, i + 2, k - 1, c)
  {
  }

  lemma {:induction false} IfComplete(ts: Stream, i: nat, j: nat, s: Stmt)
    requires Statement(ts, i, j, s) && s.IfStmt? && j < |ts| && (ts[j].kind == ELSE ==> Closed(s))
    ensures i < j && ReadStmt(ts, i, j, s) && ts[i].kind != RBRACE && ts[i].kind != EOF
    decreases j - i, 1
  {
    hide *;
    var k, m := IfCase(ts, i, j, s);
    GuardParts(IF, ts, i, k, s.condition);
    GuardComplete(IF, ts, i, k, s.condition);
    ClosedParts(s);
    StmtComplete(ts, k, m, s.thenStmt);
    ReadMeans(ts, k, m, s.thenStmt);
    TokenAt(ts, i);
    TokenAt(ts, m);
    if s.elseStmt.Some? {
      StmtComplete(ts, m + 1, j, s.elseStmt.value);
      ReadMeans(ts, m + 1, j, s.elseStmt.value);
    }
    IfRead(s, From(ts, i), From(ts, k - 1), From(ts, k), From(ts, m), From(ts, j));
    ReadIs(ts, i, j, s);
  }

  lemma IfRead(s: Stmt, start: Stream, close: Stream, inner: Stream, after: Stream, end: Stream)
    requires s.IfStmt? && start[0].kind == IF && Shift(start)[0].kind == LPAREN && close[0].kind == RPAREN
    requires ParseAt(0, Shift(Shift(start))) == Got(s.condition, close, true) && Shift(close) == inner
    requires ParseStmt(inner) == Got(Some(s.thenStmt), after, true)
    requires if s.elseStmt.None? then after[0].kind != ELSE && after == end
             else after[0].kind == ELSE && ParseStmt(Shift(after)) == Got(s.elseStmt, end, true)
    ensures ParseStmt(start) == Got(Some(s), end, true)
  {
    hide *;
    StatementUnfolds(start);
    IfUnfolds(start);
    KeptSome(s.thenStmt);
    if s.elseStmt.Some? {
      KeptSome(s.elseStmt.value);
    }
  }

  lemma ClosedParts(s: Stmt)
    ensures Closed(s) && s.IfStmt? ==> s.elseStmt.Some? && Closed(s.elseStmt.value)
    ensures Closed(s) && (s.WhileStmt? || s.ForStmt?) ==> Closed(s.body)
  {
  }

  lemma {:induction false} WhileComplete(ts: Stream, i: nat, j: nat, s: Stmt)
    requires Statement(ts, i, j, s) && s.WhileStmt? && j < |ts| && (ts[j].kind == ELSE ==> Closed(s))
    ensures i < j && ReadStmt(ts, i, j, s) && ts[i].kind != RBRACE && ts[i].kind != EOF
    decreases j - i, 1
  {
    hide *;
    var k := WhileCase(ts, i, j, s);
    GuardParts(WHILE, ts, i, k, s.condition);
    GuardComplete(WHILE, ts, i, k, s.condition);
    StatementUnfolds(From(ts, i));
    WhileUnfolds(From(ts, i));
    ClosedParts(s);
    StmtComplete(ts, k, j, s.body);
    ReadMeans(ts, k, j, s.body);
    TokenAt(ts, i);
    KeptSome(s.body);
    ReadIs(ts, i, j, s);
  }

  lemma HeadParts(ts: seq<Token>, i: nat, x: nat, y: nat, k: nat, s: Stmt)
    requires ForHead(ts, i, x, y, k, s)
    ensures s.ForStmt? && i + 2 <= x < y < k - 1 < |ts| && ts[i].kind == FOR && ts[i + 1].kind == LPAREN
    ensures Optional(ts, i + 2, x, s.init) && ts[x].kind == SEMICOLON
    ensures Optional(ts, x + 1, y, s.test) && ts[y].kind == SEMICOLON
    ensures Optional(ts, y + 1, k - 1, s.increment) && ts[k - 1].kind == RPAREN
  {
    hide Optional;
  }

  lemma {:induction false} ForComplete(ts: Stream, i: nat, j: nat, s: Stmt)
    requires Statement(ts, i, j, s) && s.ForStmt? && j < |ts| && (ts[j].kind == ELSE ==> Closed(s))
    ensures i < j && ReadStmt(ts, i, j, s) && ts[i].kind != RBRACE && ts[i].kind != EOF
    decreases j - i, 1
  {
    hide *;
    var x, y, k := ForCase(ts, i, j, s);
    HeadParts(ts, i, x, y, k, s);
    TokenAt(ts, i);
    TokenAt(ts, i + 1);
    OptionalComplete(SEMICOLON, ts, i + 2, x, s.init);
    OptionalComplete(SEMICOLON, ts, x + 1, y, s.test);
    OptionalComplete(RPAREN, ts, y + 1, k - 1, s.increment);
    ClosedParts(s);
    StmtComplete(ts, k, j, s.body);
    ReadMeans(ts, k, j, s.body);
    ForRead(s, From(ts, i), From(ts, x), From(ts, y), From(ts, k - 1), From(ts, j));
    ReadIs(ts, i, j, s);
  }

  lemma ForRead(s: Stmt, start: Stream, first: Stream, second: Stream, close: Stream, end: Stream)
    requires s.ForStmt? && start[0].kind == FOR && Shift(start)[0].kind == LPAREN
    requires ParseUnless(SEMICOLON, Shift(Shift(start))) == Got(s.init, first, true) && first[0].kind == SEMICOLON
    requires ParseUnless(SEMICOLON, Shift(first)) == Got(s.test, second, true) && second[0].kind == SEMICOLON
    requires ParseUnless(RPAREN, Shift(second)) == Got(s.increment, close, true) && close[0].kind == RPAREN
    requires ParseStmt(Shift(close)) == Got(Some(s.body), end, true)
    ensures ParseStmt(start) == Got(Some(s), end, true)
  {
    hide *;
    StatementUnfolds(start);
    ForUnfolds(start);
    KeptSome(s.body);
  }
}
