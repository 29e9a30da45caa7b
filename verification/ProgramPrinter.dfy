/** Statements and programs printed and read back. */
module ProgramPrinting {
  // Types are not part of the trees: everything is printed as int.

  import opened Words
  import opened Ast
  import opened Lexing
  import opened Parsing
  import opened Printing
  import Decimal

  // ------------------------------------------------------------------ printing

  /** An else after this statement would not be taken by it. */
  predicate Closed(s: Stmt) {
    match s
    case IfStmt(_, _, els) => els.Some? && Closed(els.value)
    case WhileStmt(_, body) => Closed(body)
    case ForStmt(_, _, _, body) => Closed(body)
    case _ => true
  }

  function PrintOptional(e: Option<Expr>): seq<Token> {
    if e.None? then [] else Print(e.value, 0)
  }

  function PrintSize(size: Option<nat>): seq<Token> {
    if size.None? then [] else [Tok(LBRACKET), Token(INTEGER_LITERAL, Decimal.Show(size.value)), Tok(RBRACKET)]
  }

  function PrintInit(init: Option<Expr>): seq<Token> {
    if init.None? then [] else [Tok(ASSIGN)] + Print(init.value, 0)
  }

  function PrintStmt(s: Stmt): seq<Token>
    decreases s, 1
  {
    match s
    case VarDecl(x, size, init) =>
      [Tok(INT), Token(IDENTIFIER, x)] + (PrintSize(size) + (PrintInit(init) + [Tok(SEMICOLON)]))
    case CompoundStmt(ss) => [Tok(LBRACE)] + (PrintStmts(ss) + [Tok(RBRACE)])
    case ExprStmt(e) => PrintOptional(e) + [Tok(SEMICOLON)]
    case IfStmt(c, thn, els) =>
      [Tok(IF)] + ([Tok(LPAREN)] + (Print(c, 0) + ([Tok(RPAREN)] + (PrintStmt(thn) + PrintElse(els)))))
    case WhileStmt(c, body) => [Tok(WHILE)] + ([Tok(LPAREN)] + (Print(c, 0) + ([Tok(RPAREN)] + PrintStmt(body))))
    case ForStmt(init, test, incr, body) =>
      [Tok(FOR)]
      + ([Tok(LPAREN)]
         + (PrintOptional(init) + ([Tok(SEMICOLON)]
            + (PrintOptional(test) + ([Tok(SEMICOLON)] + (PrintOptional(incr) + ([Tok(RPAREN)] + PrintStmt(body))))))))
    case ReturnStmt(v) => [Tok(RETURN)] + (PrintOptional(v) + [Tok(SEMICOLON)])
  }

  function PrintElse(els: Option<Stmt>): seq<Token>
    decreases els, 2
  {
    if els.None? then [] else [Tok(ELSE)] + PrintStmt(els.value)
  }

  function PrintStmts(ss: seq<Stmt>): seq<Token>
    decreases ss, 0
  {
    if ss == [] then [] else PrintStmt(ss[0]) + PrintStmts(ss[1..])
  }

  predicate PrintableOption(e: Option<Expr>) {
    e.Some? ==> Printable(e.value)
  }

  /** Printable names, and no else that would go to an inner if. */
  predicate PrintableStmt(s: Stmt)
    decreases s, 1
  {
    match s
    case VarDecl(x, _, init) => ValidName(x) && PrintableOption(init)
    case CompoundStmt(ss) => PrintableStmts(ss)
    case ExprStmt(e) => PrintableOption(e)
    case IfStmt(c, thn, els) =>
      && Printable(c) && PrintableStmt(thn)
      && (els.Some? ==> Closed(thn) && PrintableStmt(els.value))
    case WhileStmt(c, body) => Printable(c) && PrintableStmt(body)
    case ForStmt(init, test, incr, body) =>
      PrintableOption(init) && PrintableOption(test) && PrintableOption(incr) && PrintableStmt(body)
    case ReturnStmt(v) => PrintableOption(v)
  }

  predicate PrintableStmts(ss: seq<Stmt>)
    decreases ss, 0
  {
    ss == [] || (PrintableStmt(ss[0]) && PrintableStmts(ss[1..]))
  }

  // ------------------------------------------------------------------ on tokens

  /** Taking a fixed token off the front. */
  lemma Front(k: Kind, a: seq<Token>, ts: Stream)
    requires k != EOF
    ensures var all := Then([Tok(k)] + a, ts);
            all[0].kind == k && Shift(all) == Then(a, ts)
  {
    hide *;
    Kinds(k);
    ThenJoin([Tok(k)], a, ts);
    ThenOne(Tok(k), Then(a, ts));
  }

  lemma FrontOnly(k: Kind, ts: Stream)
    requires k != EOF
    ensures Then([Tok(k)], ts)[0].kind == k && Shift(Then([Tok(k)], ts)) == ts
  {
    hide *;
    Kinds(k);
    ThenOne(Tok(k), ts);
  }

  lemma StopKinds()
    ensures Stops(0, SEMICOLON) && Stops(0, RPAREN)
  {
  }

  /** An expression in front of a token that ends it. */
  lemma ExprFront(e: Expr, a: seq<Token>, ts: Stream)
    requires Printable(e) && Stops(0, Then(a, ts)[0].kind)
    ensures ParseAt(0, Then(Print(e, 0) + a, ts)) == Got(e, Then(a, ts), true)
    ensures StartsExpr(Then(Print(e, 0) + a, ts)[0].kind)
  {
    hide *;
    ThenJoin(Print(e, 0), a, ts);
    ExprTrip(0, e, Then(a, ts));
    PrintStarts(e, 0);
    ThenFirst(Print(e, 0), Then(a, ts));
    StartsAre(Print(e, 0)[0].kind);
  }

  /** Not a token a statement of another kind, or an optional expression's end, starts with. */
  predicate StartsExpr(k: Kind) {
    k !in {SEMICOLON, RPAREN, RBRACE, LBRACE, EOF, ELSE, INT, CHAR, IF, WHILE, FOR, RETURN}
  }

  lemma StartsAre(k: Kind)
    requires Starts(k, 0)
    ensures StartsExpr(k)
  {
    StartsNot(k, 0);
  }

  lemma StartsExprNot(k: Kind)
    requires StartsExpr(k)
    ensures k != SEMICOLON && k != RPAREN && k != ELSE && k != RBRACE && k != EOF && k != INT && k != CHAR
    ensures k != LBRACE && k != IF && k != WHILE && k != FOR && k != RETURN
  {
  }

  lemma OptionalFront(e: Option<Expr>, stop: Kind, a: seq<Token>, ts: Stream)
    requires PrintableOption(e) && (stop == SEMICOLON || stop == RPAREN) && Then(a, ts)[0].kind == stop
    ensures ParseUnless(stop, Then(PrintOptional(e) + a, ts)) == Got(e, Then(a, ts), true)
  {
    if e.None? {
      assert [] + a == a;
    } else {
      StopKinds();
      ExprFront(e.value, a, ts);
      StartsExprNot(Then(Print(e.value, 0) + a, ts)[0].kind);
      hide Then, Print, ParseAt;
    }
  }

  lemma SizeFront(size: Option<nat>, a: seq<Token>, ts: Stream)
    requires Then(a, ts)[0].kind != LBRACKET
    ensures ParseSize(Then(PrintSize(size) + a, ts)) == Got(size, Then(a, ts), true)
  {
    if size.None? {
      assert [] + a == a;
    } else {
      var n := Token(INTEGER_LITERAL, Decimal.Show(size.value));
      Decimal.ReadShow(size.value);
      assert PrintSize(size) + a == [Tok(LBRACKET)] + ([n] + ([Tok(RBRACKET)] + a));
      Front(LBRACKET, [n] + ([Tok(RBRACKET)] + a), ts);
      ThenJoin([n], [Tok(RBRACKET)] + a, ts);
      ThenOne(n, Then([Tok(RBRACKET)] + a, ts));
      Front(RBRACKET, a, ts);
      hide Then, Shift, Tok;
    }
  }

  lemma InitNotBracket(init: Option<Expr>, ts: Stream)
    ensures Then(PrintInit(init) + [Tok(SEMICOLON)], ts)[0].kind != LBRACKET
  {
    if init.None? {
      assert [] + [Tok(SEMICOLON)] == [Tok(SEMICOLON)];
    }
  }

  lemma VarRestTrip(x: string, size: Option<nat>, init: Option<Expr>, ts: Stream)
    requires PrintableOption(init)
    ensures ParseVarRest(x, Then(PrintSize(size) + (PrintInit(init) + [Tok(SEMICOLON)]), ts))
            == Got(VarDecl(x, size, init), ts, true)
  {
    hide *;
    var a := PrintInit(init) + [Tok(SEMICOLON)];
    InitNotBracket(init, ts);
    SizeFront(size, a, ts);
    FrontOnly(SEMICOLON, ts);
    VarRestIs(x, Then(PrintSize(size) + a, ts));
    InitParts(init);
    if init.Some? {
      Front(ASSIGN, Print(init.value, 0) + [Tok(SEMICOLON)], ts);
      StopKinds();
      ExprFront(init.value, [Tok(SEMICOLON)], ts);
    }
  }

  lemma InitParts(init: Option<Expr>)
    requires PrintableOption(init)
    ensures init.None? ==> PrintInit(init) + [Tok(SEMICOLON)] == [Tok(SEMICOLON)]
    ensures init.Some? ==>
            && PrintInit(init) + [Tok(SEMICOLON)] == [Tok(ASSIGN)] + (Print(init.value, 0) + [Tok(SEMICOLON)])
                           && Printable(init.value)
  {
    if init.Some? {
      assert [Tok(ASSIGN)] + Print(init.value, 0) + [Tok(SEMICOLON)]
          == [Tok(ASSIGN)] + (Print(init.value, 0) + [Tok(SEMICOLON)]);
    }
  }

  lemma VarRestIs(x: string, ts: Stream)
    ensures var A := ParseSize(ts);
            ParseVarRest(x, ts)
            == if A.rest[0].kind == ASSIGN then
                 var E := ParseAt(0, Shift(A.rest));
                 Got(VarDecl(x, A.value, Some(E.value)), Shift(E.rest), A.ok && E.ok && E.rest[0].kind == SEMICOLON)
               else Got(VarDecl(x, A.value, None), Shift(A.rest), A.ok && A.rest[0].kind == SEMICOLON)
  {
  }

  /** No star after the type of something printed. */
  lemma NoStars(ts: Stream)
    requires ts[0].kind != STAR
    ensures SkipStars(ts) == ts
  {
  }

  /** What a printed statement starts with. */
  lemma StmtStarts(s: Stmt, ts: Stream)
    requires PrintableStmt(s)
    ensures var k := Then(PrintStmt(s), ts)[0].kind;
            k != RBRACE && k != EOF && k != ELSE
  {
    hide PrintStmts;
    match s
    case ExprStmt(e) =>
      if e.Some? {
        PrintStarts(e.value, 0);
        StartsNot(Print(e.value, 0)[0].kind, 0);
      } else {
        assert [] + [Tok(SEMICOLON)] == [Tok(SEMICOLON)];
      }
    case _ =>
  }

  /** Parsing a printed statement gives it back and leaves what follows. */
  lemma {:induction false} StmtTrip(s: Stmt, ts: Stream)
    requires PrintableStmt(s) && (ts[0].kind == ELSE ==> Closed(s))
    ensures ParseStmt(Then(PrintStmt(s), ts)) == Got(Some(s), ts, true)
    decreases s, 1
  {
    hide *;
    StatementUnfolds(Then(PrintStmt(s), ts));
    match s
    case VarDecl(x, size, init) => LocalTrip(x, size, init, ts);
    case CompoundStmt(ss) =>
      CompoundParts(ss);
      BlockTrip(ss, ts);
    case ExprStmt(e) => ExprStmtTrip(e, ts);
    case IfStmt(c, thn, els) => IfTrip(c, thn, els, ts);
    case WhileStmt(c, body) => WhileTrip(c, body, ts);
    case ForStmt(init, test, incr, body) => ForTrip(init, test, incr, body, ts);
    case ReturnStmt(v) => ReturnTrip(v, ts);
  }

  lemma LocalTrip(x: string, size: Option<nat>, init: Option<Expr>, ts: Stream)
    requires PrintableStmt(VarDecl(x, size, init))
    ensures var all := Then(PrintStmt(VarDecl(x, size, init)), ts);
            all[0].kind == INT && ParseLocal(all) == Got(Some(VarDecl(x, size, init)), ts, true)
  {
    hide PrintStmt, Then, Shift, SkipStars, ParseVarRest, Tok;
    var rest := PrintSize(size) + (PrintInit(init) + [Tok(SEMICOLON)]);
    var name := Token(IDENTIFIER, x);
    LocalParts(x, size, init);
    Front(INT, [name] + rest, ts);
    ThenJoin([name], rest, ts);
    ThenOne(name, Then(rest, ts));
    NoStars(Then([name], Then(rest, ts)));
    VarRestTrip(x, size, init, ts);
  }

  lemma LocalParts(x: string, size: Option<nat>, init: Option<Expr>)
    ensures PrintStmt(VarDecl(x, size, init))
            == [Tok(INT)] + ([Token(IDENTIFIER, x)] + (PrintSize(size) + (PrintInit(init) + [Tok(SEMICOLON)])))
  {
    hide PrintSize, PrintInit, Tok;
  }

  lemma CompoundParts(ss: seq<Stmt>)
    requires PrintableStmt(CompoundStmt(ss))
    ensures PrintableStmts(ss) && PrintStmt(CompoundStmt(ss)) == [Tok(LBRACE)] + (PrintStmts(ss) + [Tok(RBRACE)])
  {
  }

  lemma ExprStmtTrip(e: Option<Expr>, ts: Stream)
    requires PrintableStmt(ExprStmt(e))
    ensures var all := Then(PrintStmt(ExprStmt(e)), ts);
            && all[0].kind !in {INT, CHAR, LBRACE, IF, WHILE, FOR, RETURN}
            && ParseExprStmt(all) == Got(Some(ExprStmt(e)), ts, true)
  {
    FrontOnly(SEMICOLON, ts);
    if e.None? {
      assert [] + [Tok(SEMICOLON)] == [Tok(SEMICOLON)];
    } else {
      StopKinds();
      ExprFront(e.value, [Tok(SEMICOLON)], ts);
      StartsExprNot(Then(Print(e.value, 0) + [Tok(SEMICOLON)], ts)[0].kind);
      hide Then, Shift, Tok, Print, ParseAt;
    }
  }

  lemma ReturnTrip(v: Option<Expr>, ts: Stream)
    requires PrintableStmt(ReturnStmt(v))
    ensures var all := Then(PrintStmt(ReturnStmt(v)), ts);
            all[0].kind == RETURN && ParseReturn(all) == Got(Some(ReturnStmt(v)), ts, true)
  {
    hide *;
    ReturnParts(v);
    Front(RETURN, PrintOptional(v) + [Tok(SEMICOLON)], ts);
    FrontOnly(SEMICOLON, ts);
    OptionalFront(v, SEMICOLON, [Tok(SEMICOLON)], ts);
    ReturnIs(Then(PrintStmt(ReturnStmt(v)), ts));
  }

  lemma ReturnParts(v: Option<Expr>)
    requires PrintableStmt(ReturnStmt(v))
    ensures PrintableOption(v) && PrintStmt(ReturnStmt(v)) == [Tok(RETURN)] + (PrintOptional(v) + [Tok(SEMICOLON)])
  {
  }

  lemma ReturnIs(ts: Stream)
    requires ts[0].kind == RETURN
    ensures var V := ParseUnless(SEMICOLON, Shift(ts));
            ParseReturn(ts) == Got(Some(ReturnStmt(V.value)), Shift(V.rest), V.ok && V.rest[0].kind == SEMICOLON)
  {
  }

  lemma {:induction false} BlockTrip(ss: seq<Stmt>, ts: Stream)
    requires PrintableStmts(ss)
    ensures var all := Then([Tok(LBRACE)] + (PrintStmts(ss) + [Tok(RBRACE)]), ts);
            all[0].kind == LBRACE && ParseBlock(all) == Got(ss, ts, true)
    decreases ss, 2
  {
    hide *;
    var close := Then([Tok(RBRACE)], ts);
    Front(LBRACE, PrintStmts(ss) + [Tok(RBRACE)], ts);
    BlockUnfolds(Then([Tok(LBRACE)] + (PrintStmts(ss) + [Tok(RBRACE)]), ts));
    ThenJoin(PrintStmts(ss), [Tok(RBRACE)], ts);
    FrontOnly(RBRACE, ts);
    ItemsTrip(ss, close);
  }

  lemma {:induction false} ItemsTrip(ss: seq<Stmt>, close: Stream)
    requires PrintableStmts(ss) && close[0].kind == RBRACE
    ensures ParseItems(Then(PrintStmts(ss), close)) == Got(ss, close, true)
    ensures Then(PrintStmts(ss), close)[0].kind != ELSE
    decreases ss, 0
  {
    hide *;
    ItemsUnfold(Then(PrintStmts(ss), close));
    StmtsParts(ss);
    if ss == [] {
      ThenNone(close);
    } else {
      var rest := Then(PrintStmts(ss[1..]), close);
      ItemsTrip(ss[1..], close);
      ThenJoin(PrintStmt(ss[0]), PrintStmts(ss[1..]), close);
      StmtStarts(ss[0], rest);
      StmtTrip(ss[0], rest);
      assert [ss[0]] + ss[1..] == ss;
    }
  }

  lemma StmtsParts(ss: seq<Stmt>)
    requires PrintableStmts(ss)
    ensures ss == [] ==> PrintStmts(ss) == []
    ensures ss != [] ==> && PrintableStmt(ss[0]) && PrintableStmts(ss[1..])
                         && PrintStmts(ss) == PrintStmt(ss[0]) + PrintStmts(ss[1..])
  {
  }

  lemma {:induction false} IfTrip(c: Expr, thn: Stmt, els: Option<Stmt>, ts: Stream)
    requires PrintableStmt(IfStmt(c, thn, els)) && (ts[0].kind == ELSE ==> Closed(IfStmt(c, thn, els)))
    ensures var all := Then(PrintStmt(IfStmt(c, thn, els)), ts);
            all[0].kind == IF && ParseIf(all) == Got(Some(IfStmt(c, thn, els)), ts, true)
    decreases IfStmt(c, thn, els), 0
  {
    hide *;
    IfParts(c, thn, els, ts);
    var tail := PrintStmt(thn) + PrintElse(els);
    Front(IF, [Tok(LPAREN)] + (Print(c, 0) + ([Tok(RPAREN)] + tail)), ts);
    Front(LPAREN, Print(c, 0) + ([Tok(RPAREN)] + tail), ts);
    Front(RPAREN, tail, ts);
    StopKinds();
    ExprFront(c, [Tok(RPAREN)] + tail, ts);
    IfUnfolds(Then(PrintStmt(IfStmt(c, thn, els)), ts));
    ThenJoin(PrintStmt(thn), PrintElse(els), ts);
    if els.None? {
      ThenNone(ts);
      StmtTrip(thn, ts);
      KeptSome(thn);
    } else {
      Front(ELSE, PrintStmt(els.value), ts);
      StmtTrip(thn, Then(PrintElse(els), ts));
      StmtTrip(els.value, ts);
      KeptSome(thn);
      KeptSome(els.value);
    }
  }

  lemma KeptSome(s: Stmt)
    ensures Kept(Some(s)) == s
  {
  }

  lemma IfParts(c: Expr, thn: Stmt, els: Option<Stmt>, ts: Stream)
    requires PrintableStmt(IfStmt(c, thn, els)) && (ts[0].kind == ELSE ==> Closed(IfStmt(c, thn, els)))
    ensures Printable(c) && PrintableStmt(thn)
    ensures els.Some? ==> && Closed(thn) && PrintableStmt(els.value)
                          && PrintElse(els) == [Tok(ELSE)] + PrintStmt(els.value)
                          && (ts[0].kind == ELSE ==> Closed(els.value))
    ensures els.None? ==> PrintElse(els) == [] && ts[0].kind != ELSE
    ensures PrintStmt(IfStmt(c, thn, els))
            == [Tok(IF)] + ([Tok(LPAREN)] + (Print(c, 0) + ([Tok(RPAREN)] + (PrintStmt(thn) + PrintElse(els)))))
  {
  }

  lemma {:induction false} WhileTrip(c: Expr, body: Stmt, ts: Stream)
    requires PrintableStmt(WhileStmt(c, body)) && (ts[0].kind == ELSE ==> Closed(WhileStmt(c, body)))
    ensures var all := Then(PrintStmt(WhileStmt(c, body)), ts);
            all[0].kind == WHILE && ParseWhile(all) == Got(Some(WhileStmt(c, body)), ts, true)
    decreases WhileStmt(c, body), 0
  {
    hide *;
    WhileParts(c, body, ts);
    var tail := PrintStmt(body);
    Front(WHILE, [Tok(LPAREN)] + (Print(c, 0) + ([Tok(RPAREN)] + tail)), ts);
    Front(LPAREN, Print(c, 0) + ([Tok(RPAREN)] + tail), ts);
    Front(RPAREN, tail, ts);
    StopKinds();
    ExprFront(c, [Tok(RPAREN)] + tail, ts);
    WhileUnfolds(Then(PrintStmt(WhileStmt(c, body)), ts));
    StmtTrip(body, ts);
    KeptSome(body);
  }

  lemma WhileParts(c: Expr, body: Stmt, ts: Stream)
    requires PrintableStmt(WhileStmt(c, body)) && (ts[0].kind == ELSE ==> Closed(WhileStmt(c, body)))
    ensures Printable(c) && PrintableStmt(body) && (ts[0].kind == ELSE ==> Closed(body))
    ensures PrintStmt(WhileStmt(c, body))
            == [Tok(WHILE)] + ([Tok(LPAREN)] + (Print(c, 0) + ([Tok(RPAREN)] + PrintStmt(body))))
  {
  }

  lemma {:induction false} ForTrip(init: Option<Expr>, test: Option<Expr>, incr: Option<Expr>, body: Stmt, ts: Stream)
    requires var s := ForStmt(init, test, incr, body);
             PrintableStmt(s) && (ts[0].kind == ELSE ==> Closed(s))
    ensures var s := ForStmt(init, test, incr, body);
            var all := Then(PrintStmt(s), ts);
            all[0].kind == FOR && ParseFor(all) == Got(Some(s), ts, true)
    decreases ForStmt(init, test, incr, body), 0
  {
    hide *;
    ForStmtParts(init, test, incr, body, ts);
    var tail := [Tok(RPAREN)] + PrintStmt(body);
    var third := [Tok(SEMICOLON)] + (PrintOptional(incr) + tail);
    var second := [Tok(SEMICOLON)] + (PrintOptional(test) + third);
    Front(FOR, [Tok(LPAREN)] + (PrintOptional(init) + second), ts);
    Front(LPAREN, PrintOptional(init) + second, ts);
    Front(SEMICOLON, PrintOptional(test) + third, ts);
    Front(SEMICOLON, PrintOptional(incr) + tail, ts);
    Front(RPAREN, PrintStmt(body), ts);
    OptionalFront(init, SEMICOLON, second, ts);
    OptionalFront(test, SEMICOLON, third, ts);
    OptionalFront(incr, RPAREN, tail, ts);
    ForUnfolds(Then(PrintStmt(ForStmt(init, test, incr, body)), ts));
    StmtTrip(body, ts);
    KeptSome(body);
  }

  lemma ForStmtParts(init: Option<Expr>, test: Option<Expr>, incr: Option<Expr>, body: Stmt, ts: Stream)
    requires var s := ForStmt(init, test, incr, body);
             PrintableStmt(s) && (ts[0].kind == ELSE ==> Closed(s))
    ensures PrintableOption(init) && PrintableOption(test) && PrintableOption(incr) && PrintableStmt(body)
    ensures ts[0].kind == ELSE ==> Closed(body)
    ensures PrintStmt(ForStmt(init, test, incr, body))
            == [Tok(FOR)]
               + ([Tok(LPAREN)]
                  + (PrintOptional(init) + ([Tok(SEMICOLON)]
                     + (PrintOptional(test)
                         + ([Tok(SEMICOLON)] + (PrintOptional(incr) + ([Tok(RPAREN)] + PrintStmt(body))))))))
  {
  }

  // ------------------------------------------------------------------ programs

  function PrintDecl(d: Decl): seq<Token> {
    match d
    case FunctionDecl(f) =>
      [Tok(INT), Token(IDENTIFIER, f.name), Tok(LPAREN), Tok(RPAREN)]
      + (if f.body == [] then [Tok(SEMICOLON)] else [Tok(LBRACE)] + (PrintStmts(f.body) + [Tok(RBRACE)]))
    case Global(v) => PrintStmt(v)
  }

  function PrintDecls(ds: seq<Decl>): seq<Token> {
    if ds == [] then [] else PrintDecl(ds[0]) + PrintDecls(ds[1..])
  }

  predicate PrintableDecl(d: Decl) {
    match d
    case FunctionDecl(f) => ValidName(f.name) && PrintableStmts(f.body)
    case Global(v) => v.VarDecl? && PrintableStmt(v)
  }

  lemma FunctionTrip(f: Function, ts: Stream)
    requires PrintableStmts(f.body)
    ensures ParseFunction(f.name, Then([Tok(LPAREN)] + ([Tok(RPAREN)] + BodyOf(f)), ts))
            == Got(FunctionDecl(f), ts, true)
    ensures Then([Tok(LPAREN)] + ([Tok(RPAREN)] + BodyOf(f)), ts)[0].kind == LPAREN
  {
    hide *;
    Front(LPAREN, [Tok(RPAREN)] + BodyOf(f), ts);
    Front(RPAREN, BodyOf(f), ts);
    FunctionIs(f.name, Then([Tok(LPAREN)] + ([Tok(RPAREN)] + BodyOf(f)), ts));
    BodyParts(f);
    if f.body == [] {
      FrontOnly(SEMICOLON, ts);
    } else {
      BlockTrip(f.body, ts);
    }
  }

  lemma BodyParts(f: Function)
    ensures f.body == [] ==> BodyOf(f) == [Tok(SEMICOLON)]
    ensures f.body != [] ==> BodyOf(f) == [Tok(LBRACE)] + (PrintStmts(f.body) + [Tok(RBRACE)])
  {
  }

  /** A function without parameters. */
  lemma FunctionIs(name: string, ts: Stream)
    requires ts[0].kind == LPAREN && Shift(ts)[0].kind == RPAREN
    ensures var after := Shift(Shift(ts));
            ParseFunction(name, ts)
            == if after[0].kind == SEMICOLON then Got(FunctionDecl(Function(name, [])), Shift(after), true)
               else
                 var B := ParseBlock(after);
                 Got(FunctionDecl(Function(name, B.value)), B.rest, B.ok)
  {
    hide ParseBlock, Shift;
  }

  function BodyOf(f: Function): seq<Token> {
    if f.body == [] then [Tok(SEMICOLON)] else [Tok(LBRACE)] + (PrintStmts(f.body) + [Tok(RBRACE)])
  }

  lemma DeclTrip(d: Decl, ts: Stream)
    requires PrintableDecl(d)
    ensures var all := Then(PrintDecl(d), ts);
            all[0].kind == INT && ParseDecl(all) == Got(Some(d), ts, true)
  {
    hide *;
    match d
    case FunctionDecl(f) =>
      FunctionParts(f);
      var rest := [Tok(LPAREN)] + ([Tok(RPAREN)] + BodyOf(f));
      FunctionTrip(f, ts);
      NamedDecl(f.name, rest, ts);
      DeclOfFunction(d, rest, ts);
    case Global(v) =>
      GlobalParts(v);
      var rest := PrintSize(v.arraySize) + (PrintInit(v.initializer) + [Tok(SEMICOLON)]);
      VarRestTrip(v.name, v.arraySize, v.initializer, ts);
      NamedDecl(v.name, rest, ts);
      RestNotParen(v, ts);
      DeclOfVariable(v, rest, ts);
  }

  lemma FunctionParts(f: Function)
    requires PrintableDecl(FunctionDecl(f))
    ensures PrintableStmts(f.body)
    ensures PrintDecl(FunctionDecl(f))
            == [Tok(INT)] + ([Token(IDENTIFIER, f.name)] + ([Tok(LPAREN)] + ([Tok(RPAREN)] + BodyOf(f))))
  {
  }

  lemma GlobalParts(v: Stmt)
    requires PrintableDecl(Global(v))
    ensures v.VarDecl? && PrintableOption(v.initializer)
    ensures PrintDecl(Global(v))
            == [Tok(INT)] + ([Token(IDENTIFIER, v.name)]
                             + (PrintSize(v.arraySize) + (PrintInit(v.initializer) + [Tok(SEMICOLON)])))
  {
  }

  lemma RestNotParen(v: Stmt, ts: Stream)
    requires v.VarDecl?
    ensures Then(PrintSize(v.arraySize) + (PrintInit(v.initializer) + [Tok(SEMICOLON)]), ts)[0].kind != LPAREN
  {
    if v.arraySize.None? {
      assert [] + (PrintInit(v.initializer) + [Tok(SEMICOLON)]) == PrintInit(v.initializer) + [Tok(SEMICOLON)];
      if v.initializer.None? {
        assert [] + [Tok(SEMICOLON)] == [Tok(SEMICOLON)];
      }
    }
  }

  lemma NamedDecl(x: string, rest: seq<Token>, ts: Stream)
    ensures var all := Then([Tok(INT)] + ([Token(IDENTIFIER, x)] + rest), ts);
            var n := SkipStars(Shift(all));
            all[0].kind == INT && n[0] == Token(IDENTIFIER, x) && Shift(n) == Then(rest, ts)
  {
    var name := Token(IDENTIFIER, x);
    Front(INT, [name] + rest, ts);
    ThenJoin([name], rest, ts);
    ThenOne(name, Then(rest, ts));
    NoStars(Then([name], Then(rest, ts)));
    hide Then, Shift, SkipStars, Tok;
  }

  lemma DeclOfFunction(d: Decl, rest: seq<Token>, ts: Stream)
    requires d.FunctionDecl?
    requires var all := Then([Tok(INT)] + ([Token(IDENTIFIER, d.f.name)] + rest), ts);
             var n := SkipStars(Shift(all));
             all[0].kind == INT && n[0] == Token(IDENTIFIER, d.f.name) && Shift(n) == Then(rest, ts)
    requires Then(rest, ts)[0].kind == LPAREN && ParseFunction(d.f.name, Then(rest, ts)) == Got(d, ts, true)
    ensures ParseDecl(Then([Tok(INT)] + ([Token(IDENTIFIER, d.f.name)] + rest), ts)) == Got(Some(d), ts, true)
  {
    hide Then, Shift, SkipStars, Tok, ParseFunction;
  }

  lemma DeclOfVariable(v: Stmt, rest: seq<Token>, ts: Stream)
    requires v.VarDecl?
    requires var all := Then([Tok(INT)] + ([Token(IDENTIFIER, v.name)] + rest), ts);
             var n := SkipStars(Shift(all));
             all[0].kind == INT && n[0] == Token(IDENTIFIER, v.name) && Shift(n) == Then(rest, ts)
    requires Then(rest, ts)[0].kind != LPAREN && ParseVarRest(v.name, Then(rest, ts)) == Got(v, ts, true)
    ensures ParseDecl(Then([Tok(INT)] + ([Token(IDENTIFIER, v.name)] + rest), ts)) == Got(Some(Global(v)), ts, true)
  {
    hide Then, Shift, SkipStars, Tok, ParseVarRest;
  }

  lemma {:induction false} DeclsTrip(ds: seq<Decl>)
    requires forall d :: d in ds ==> PrintableDecl(d)
    ensures var end := [Token(EOF, "")];
            ParseProgram(Then(PrintDecls(ds), end)) == Some(Got(ds, end, true))
    decreases ds
  {
    hide *;
    var end: Stream := [Token(EOF, "")];
    DeclsParts(ds);
    if ds == [] {
      ThenNone(end);
      ProgramIs(end);
    } else {
      var (d, rest) := (ds[0], ds[1..]);
      DeclsTrip(rest);
      ThenJoin(PrintDecl(d), PrintDecls(rest), end);
      DeclTrip(d, Then(PrintDecls(rest), end));
      ProgramIs(Then(PrintDecls(ds), end));
      assert [d] + rest == ds;
    }
  }

  lemma DeclsParts(ds: seq<Decl>)
    requires forall d :: d in ds ==> PrintableDecl(d)
    ensures ds == [] ==> PrintDecls(ds) == []
    ensures ds != [] ==> PrintDecls(ds) == PrintDecl(ds[0]) + PrintDecls(ds[1..]) && PrintableDecl(ds[0])
    ensures ds != [] ==> forall d :: d in ds[1..] ==> PrintableDecl(d)
  {
  }

  lemma ProgramIs(ts: Stream)
    ensures ts[0].kind == EOF ==> ParseProgram(ts) == Some(Got([], ts, true))
    ensures ts[0].kind == INT ==>
              var D := ParseDecl(ts);
              var R := ParseProgram(D.rest);
              ParseProgram(ts)
              == if R.None? then None
                 else Some(Got((if D.value.Some? then [D.value.value] else []) + R.value.value, R.value.rest,
                               D.ok && R.value.ok))
  {
    hide ParseDecl;
  }

  // ------------------------------------------------------------------ on text

  lemma OptionalWritable(e: Option<Expr>)
    requires PrintableOption(e)
    ensures forall t :: t in PrintOptional(e) ==> Writable(t)
    ensures forall t :: t in PrintInit(e) ==> Writable(t)
  {
    if e.Some? {
      PrintWritable(e.value, 0);
    }
  }

  lemma {:induction false} StmtWritable(s: Stmt)
    requires PrintableStmt(s)
    ensures forall t :: t in PrintStmt(s) ==> Writable(t)
    decreases s, 1
  {
    TokensWritable();
    hide Writable, Tok, Print, PrintOptional, PrintInit, PrintStmts, PrintElse, Printable, ValidName, PrintableStmts;
    match s
    case VarDecl(x, size, init) =>
      NameWritable(x);
      OptionalWritable(init);
      SizeWritable(size);
    case CompoundStmt(ss) => StmtsWritable(ss);
    case ExprStmt(e) => OptionalWritable(e);
    case IfStmt(c, thn, els) =>
      PrintWritable(c, 0);
      StmtWritable(thn);
      if els.Some? {
        StmtWritable(els.value);
      }
      ElseWritable(els);
    case WhileStmt(c, body) =>
      PrintWritable(c, 0);
      StmtWritable(body);
    case ForStmt(init, test, incr, body) =>
      OptionalWritable(init);
      OptionalWritable(test);
      OptionalWritable(incr);
      StmtWritable(body);
    case ReturnStmt(v) => OptionalWritable(v);
  }

  lemma ElseWritable(els: Option<Stmt>)
    requires els.Some? ==> forall t :: t in PrintStmt(els.value) ==> Writable(t)
    ensures forall t :: t in PrintElse(els) ==> Writable(t)
  {
    hide PrintStmt;
  }

  lemma SizeWritable(size: Option<nat>)
    ensures forall t :: t in PrintSize(size) ==> Writable(t)
  {
  }

  lemma TokensWritable()
    ensures Writable(Tok(INT)) && Writable(Tok(IF)) && Writable(Tok(ELSE)) && Writable(Tok(WHILE)) && Writable(Tok(FOR))
    ensures Writable(Tok(RETURN)) && Writable(Tok(SEMICOLON)) && Writable(Tok(LBRACE)) && Writable(Tok(RBRACE))
    ensures Writable(Tok(LPAREN)) && Writable(Tok(RPAREN))
  {
  }

  lemma {:induction false} StmtsWritable(ss: seq<Stmt>)
    requires PrintableStmts(ss)
    ensures forall t :: t in PrintStmts(ss) ==> Writable(t)
    decreases ss, 0
  {
    hide Writable, PrintStmt, PrintableStmt;
    if ss != [] {
      StmtWritable(ss[0]);
      StmtsWritable(ss[1..]);
    }
  }

  lemma {:induction false} DeclsWritable(ds: seq<Decl>)
    requires forall d :: d in ds ==> PrintableDecl(d)
    ensures forall t :: t in PrintDecls(ds) ==> Writable(t)
    decreases ds
  {
    hide Writable, Tok, PrintStmt, PrintStmts, ValidName, PrintableStmt, PrintableStmts;
    if ds != [] {
      TokensWritable();
      assert ds[0] in ds && PrintableDecl(ds[0]);
      match ds[0] {
        case FunctionDecl(f) =>
          NameWritable(f.name);
          StmtsWritable(f.body);
        case Global(v) => StmtWritable(v);
      }
      DeclsWritable(ds[1..]);
    }
  }

  /** The round trip for whole programs: lexing and parsing the printed text gives the program
      back, without errors, down to the end of the text. */
  lemma ProgramRoundTrip(ds: seq<Decl>)
    requires forall d :: d in ds ==> PrintableDecl(d)
    ensures var L := Lex(Spaced(PrintDecls(ds)));
            L.ok && ParseProgram(L.tokens) == Some(Got(ds, [Token(EOF, "")], true))
  {
    hide *;
    DeclsWritable(ds);
    LexTrip(PrintDecls(ds), "");
    LexNone();
    assert Spaced(PrintDecls(ds)) + "" == Spaced(PrintDecls(ds));
    ThenIs(PrintDecls(ds), [Token(EOF, "")]);
    DeclsTrip(ds);
  }
}
