/** The grammar of programs. */
module ProgramGrammar {
  // The parser accepts exactly the programs of the grammar, each as the one tree the grammar gives it.

  import opened Words
  import opened Ast
  import opened Lexing
  import opened Parsing
  import opened Grammar
  import opened StatementGrammar
  import Decimal

  // ------------------------------------------------------------------ programs

  /** Parameters with commas between them, perhaps with one more after the last. */
  ghost predicate Parameters(ts: seq<Token>, i: nat, j: nat)
    decreases j - i
  {
    || i == j
    || exists n: nat :: Declarator(ts, i, n) && i < n < j && MoreParameters(ts, n + 1, j)
  }

  ghost predicate MoreParameters(ts: seq<Token>, i: nat, j: nat)
    decreases j - i
  {
    i == j || (i < j <= |ts| && ts[i].kind == COMMA && Parameters(ts, i + 1, j))
  }

  /** A prototype or a definition; the n-th token is its name and the k-th closes its parameters. */
  ghost predicate FunctionAt(ts: seq<Token>, i: nat, n: nat, k: nat, j: nat, f: Function) {
    && Declarator(ts, i, n) && n + 1 < k < j <= |ts| && ts[n].value == f.name
    && ts[n + 1].kind == LPAREN && Parameters(ts, n + 2, k) && ts[k].kind == RPAREN
    && ((f.body == [] && j == k + 2 && ts[k + 1].kind == SEMICOLON) || Block(ts, k + 1, j, f.body))
  }

  ghost predicate Declaration(ts: seq<Token>, i: nat, j: nat, d: Decl) {
    match d
    case FunctionDecl(f) => exists n, k :: FunctionAt(ts, i, n, k, j, f)
    case Global(v) => exists n :: Declarator(ts, i, n) && Variable(ts, n, j, v)
  }

  ghost predicate Program(ts: seq<Token>, i: nat, j: nat, ds: seq<Decl>)
    decreases ds
  {
    if ds == [] then i == j
    else exists k :: i < k <= j && Declaration(ts, i, k, ds[0]) && Program(ts, k, j, ds[1..])
  }

  // ------------------------------------------------------------------ parameters

  lemma ParamIs(g: Got<seq<string>>)
    ensures ParseParam(g) == if !IsType(g.rest[0].kind) then (g, false)
                             else
                               var n := SkipStars(Shift(g.rest));
                               if n[0].kind != IDENTIFIER then (Got(g.value, n, false), false)
                               else (Got(g.value + [n[0].value], Shift(n), g.ok), true)
    ensures !IsType(EOF)
  {
    hide SkipStars, Shift;
  }

  lemma NamedComplete(ts: Stream, i: nat, n: nat)
    requires Declarator(ts, i, n)
    ensures i < n < |ts| - 1 && IsType(ts[i].kind) && From(ts, i)[0] == ts[i]
    ensures var rest := SkipStars(Shift(From(ts, i)));
            rest[0] == ts[n] && ts[n].kind == IDENTIFIER && Shift(rest) == From(ts, n + 1)
  {
    hide *;
    DeclaratorParts(ts, i, n);
    TokenAt(ts, i);
    StarsAre(ts, i + 1, n);
    TokenAt(ts, n);
  }

  /** One parameter is read, and perhaps the comma after it. */
  lemma ParamStep(ts: Stream, i: nat, n: nat, names: seq<string>)
    requires Declarator(ts, i, n)
    ensures i < n < |ts| - 1 && (ts[n + 1].kind == COMMA ==> n + 2 < |ts|)
    ensures var more := names + [ts[n].value];
            ParseParams(Got(names, From(ts, i), true))
            == if ts[n + 1].kind == COMMA then ParseParams(Got(more, From(ts, n + 2), true))
               else Got(more, From(ts, n + 1), true)
  {
    hide *;
    var g := Got(names, From(ts, i), true);
    ParamsUnfold(g);
    ParamIs(g);
    NamedComplete(ts, i, n);
    TokenAt(ts, n + 1);
  }

  lemma ParamFails(ts: Stream, i: nat, n: nat, names: seq<string>)
    requires i < n < |ts| && IsType(ts[i].kind) && SkipStars(Shift(From(ts, i))) == From(ts, n)
    requires ts[n].kind != IDENTIFIER
    ensures !ParseParams(Got(names, From(ts, i), true)).ok
  {
    hide *;
    var g := Got(names, From(ts, i), true);
    ParamsUnfold(g);
    ParamIs(g);
    TokenAt(ts, i);
    TokenAt(ts, n);
  }

  lemma NoParam(ts: Stream, i: nat, names: seq<string>)
    requires i < |ts| && !IsType(ts[i].kind)
    ensures ParseParams(Got(names, From(ts, i), true)) == Got(names, From(ts, i), true)
  {
    hide *;
    var g := Got(names, From(ts, i), true);
    ParamsUnfold(g);
    ParamIs(g);
    TokenAt(ts, i);
  }

  /** If no error was reported, parameters were read from the i-th token on. */
  ghost predicate SoundParams(ts: Stream, i: nat, g: Got<seq<string>>) {
    g.ok ==>
      var j := Place(ts, g.rest);
      i <= j < |ts| && g.rest == From(ts, j) && Parameters(ts, i, j)
  }

  lemma {:induction false} ParamsSound(ts: Stream, i: nat, names: seq<string>)
    requires i < |ts|
    ensures SoundParams(ts, i, ParseParams(Got(names, From(ts, i), true)))
    decreases |ts| - i
  {
    hide *;
    if IsType(ts[i].kind) {
      NoType();
      TokenAt(ts, i);
      var n := StarsSkipped(ts, i + 1);
      if ts[n].kind == IDENTIFIER {
        DeclaratorIs(ts, i, n);
        ParamStep(ts, i, n, names);
        if ts[n + 1].kind == COMMA {
          ParamsSound(ts, n + 2, names + [ts[n].value]);
          MoreSound(ts, i, n, ParseParams(Got(names + [ts[n].value], From(ts, n + 2), true)));
        } else {
          LastSound(ts, i, n, names + [ts[n].value]);
        }
      } else {
        ParamFails(ts, i, n, names);
        FailedParams(ts, i, ParseParams(Got(names, From(ts, i), true)));
      }
    } else {
      NoParam(ts, i, names);
      NoneSound(ts, i, names);
    }
  }

  lemma DeclaratorIs(ts: seq<Token>, i: nat, n: nat)
    requires i < n < |ts| && IsType(ts[i].kind) && Stars(ts, i + 1, n) && ts[n].kind == IDENTIFIER
    ensures Declarator(ts, i, n)
  {
  }

  lemma FailedParams(ts: Stream, i: nat, g: Got<seq<string>>)
    requires !g.ok
    ensures SoundParams(ts, i, g)
  {
  }

  lemma NoneSound(ts: Stream, i: nat, names: seq<string>)
    requires i < |ts|
    ensures SoundParams(ts, i, Got(names, From(ts, i), true))
  {
  }

  lemma LastSound(ts: Stream, i: nat, n: nat, names: seq<string>)
    requires n + 1 < |ts| && Declarator(ts, i, n)
    ensures SoundParams(ts, i, Got(names, From(ts, n + 1), true))
  {
    hide Stars;
    assert MoreParameters(ts, n + 1, n + 1);
  }

  lemma MoreSound(ts: Stream, i: nat, n: nat, g: Got<seq<string>>)
    requires n + 2 < |ts| && Declarator(ts, i, n) && ts[n + 1].kind == COMMA && SoundParams(ts, n + 2, g)
    ensures SoundParams(ts, i, g)
  {
    hide Stars;
    if g.ok {
      assert MoreParameters(ts, n + 1, Place(ts, g.rest));
    }
  }

  lemma ParamsCase(ts: seq<Token>, i: nat, j: nat) returns (n: nat)
    requires Parameters(ts, i, j) && i != j
    ensures i < n < j && Declarator(ts, i, n)
    ensures n + 1 == j || (n + 1 < j <= |ts| && ts[n + 1].kind == COMMA && Parameters(ts, n + 2, j))
  {
    n :| Declarator(ts, i, n) && i < n < j && MoreParameters(ts, n + 1, j);
  }

  lemma {:induction false} ParamsComplete(ts: Stream, i: nat, j: nat, names: seq<string>)
    requires Parameters(ts, i, j) && i <= j < |ts| && ts[j].kind == RPAREN
    ensures var g := ParseParams(Got(names, From(ts, i), true));
            g.ok && g.rest == From(ts, j)
    decreases j - i
  {
    hide *;
    if i == j {
      NoType();
      NoParam(ts, i, names);
    } else {
      var n := ParamsCase(ts, i, j);
      ParamStep(ts, i, n, names);
      if n + 1 < j {
        ParamsComplete(ts, n + 2, j, names + [ts[n].value]);
      }
    }
  }

  lemma NoType()
    ensures !IsType(RPAREN) && !IsType(EOF)
  {
  }

  // ------------------------------------------------------------------ declarations and programs

  lemma FunctionUnfolds(name: string, ts: Stream)
    requires ts[0].kind == LPAREN
    ensures var open := Shift(ts);
            var P := if open[0].kind == RPAREN then Got([], open, true) else ParseParams(Got([], open, true));
            var after := Shift(P.rest);
            var ok := P.ok && P.rest[0].kind == RPAREN;
            ParseFunction(name, ts)
            == if after[0].kind == SEMICOLON then Got(FunctionDecl(Function(name, [])), Shift(after), ok)
               else
                 var B := ParseBlock(after);
                 Got(FunctionDecl(Function(name, B.value)), B.rest, ok && B.ok)
  {
    hide ParseBlock, ParseParams, Shift;
  }

  ghost predicate SoundDecl(ts: Stream, i: nat, g: Got<Option<Decl>>) {
    g.ok ==>
      var j := Place(ts, g.rest);
      i < j < |ts| && g.rest == From(ts, j) && g.value.Some? && Declaration(ts, i, j, g.value.value)
  }

  /** The parser's two ways to read a list of parameters are one. */
  lemma EmptyParams(ts: Stream)
    requires ts[0].kind == RPAREN
    ensures ParseParams(Got([], ts, true)) == Got([], ts, true)
  {
  }

  lemma FunctionSound(ts: Stream, i: nat, n: nat)
    requires n + 1 < |ts| && Spelled(ts) && Declarator(ts, i, n) && ts[n + 1].kind == LPAREN
    ensures var F := ParseFunction(ts[n].value, From(ts, n + 1));
            SoundDecl(ts, i, Got(Some(F.value), F.rest, F.ok))
  {
    hide *;
    TokenAt(ts, n + 1);
    FunctionUnfolds(ts[n].value, From(ts, n + 1));
    TokenAt(ts, n + 2);
    ParamsSound(ts, n + 2, []);
    if ts[n + 2].kind == RPAREN {
      EmptyParams(From(ts, n + 2));
    }
    var P := ParseParams(Got([], From(ts, n + 2), true));
    var F := ParseFunction(ts[n].value, From(ts, n + 1));
    if P.ok && P.rest[0].kind == RPAREN {
      BodySound(ts, i, n, P);
    } else {
      FailedDecl(ts, i, Got(Some(F.value), F.rest, F.ok));
    }
  }

  /** What follows the parameters. */
  lemma BodySound(ts: Stream, i: nat, n: nat, P: Got<seq<string>>)
    requires n + 2 < |ts| && Spelled(ts) && Declarator(ts, i, n) && ts[n + 1].kind == LPAREN
    requires SoundParams(ts, n + 2, P) && P.ok && P.rest[0].kind == RPAREN
    ensures var after := Shift(P.rest);
            var B := ParseBlock(after);
            if after[0].kind == SEMICOLON
            then SoundDecl(ts, i, Got(Some(FunctionDecl(Function(ts[n].value, []))), Shift(after), true))
            else SoundDecl(ts, i, Got(Some(FunctionDecl(Function(ts[n].value, B.value))), B.rest, B.ok))
  {
    hide *;
    ParamsEnd(ts, n + 2, P);
    var k := Place(ts, P.rest);
    TokenAt(ts, k + 1);
    if ts[k + 1].kind == SEMICOLON {
      PrototypeIs(ts, i, n, k);
    } else {
      BlockSound(ts, k + 1);
      DefinitionIs(ts, i, n, k, ParseBlock(From(ts, k + 1)));
    }
  }

  lemma ParamsEnd(ts: Stream, i: nat, P: Got<seq<string>>)
    requires SoundParams(ts, i, P) && P.ok && P.rest[0].kind == RPAREN
    ensures var k := Place(ts, P.rest);
            i <= k < |ts| - 1 && Parameters(ts, i, k) && ts[k].kind == RPAREN && Shift(P.rest) == From(ts, k + 1)
  {
    hide Parameters;
    TokenAt(ts, Place(ts, P.rest));
  }

  lemma FailedDecl(ts: Stream, i: nat, g: Got<Option<Decl>>)
    requires !g.ok
    ensures SoundDecl(ts, i, g)
  {
  }

  lemma PrototypeIs(ts: Stream, i: nat, n: nat, k: nat)
    requires Declarator(ts, i, n) && n + 2 <= k < |ts| - 1 && ts[n + 1].kind == LPAREN && Parameters(ts, n + 2, k)
    requires ts[k].kind == RPAREN && ts[k + 1].kind == SEMICOLON
    ensures SoundDecl(ts, i, Got(Some(FunctionDecl(Function(ts[n].value, []))), Shift(From(ts, k + 1)), true))
  {
    hide *;
    TokenAt(ts, k + 1);
    PlaceFrom(ts, k + 2);
    PrototypeAt(ts, i, n, k);
    SoundDeclIs(ts, i, k + 2, FunctionDecl(Function(ts[n].value, [])));
  }

  lemma PrototypeAt(ts: seq<Token>, i: nat, n: nat, k: nat)
    requires Declarator(ts, i, n) && n + 2 <= k < |ts| - 1 && ts[n + 1].kind == LPAREN && Parameters(ts, n + 2, k)
    requires ts[k].kind == RPAREN && ts[k + 1].kind == SEMICOLON
    ensures i < n && Declaration(ts, i, k + 2, FunctionDecl(Function(ts[n].value, [])))
  {
    hide Parameters, Block, Stars;
    assert FunctionAt(ts, i, n, k, k + 2, Function(ts[n].value, []));
  }

  lemma SoundDeclIs(ts: Stream, i: nat, j: nat, d: Decl)
    requires i < j < |ts| && Declaration(ts, i, j, d)
    ensures SoundDecl(ts, i, Got(Some(d), From(ts, j), true))
  {
    hide Declaration;
  }

  lemma DefinitionIs(ts: Stream, i: nat, n: nat, k: nat, B: Got<seq<Stmt>>)
    requires Declarator(ts, i, n) && n + 2 <= k < |ts| - 1 && ts[n + 1].kind == LPAREN && Parameters(ts, n + 2, k)
    requires ts[k].kind == RPAREN && SoundBlock(ts, k + 1, B)
    ensures SoundDecl(ts, i, Got(Some(FunctionDecl(Function(ts[n].value, B.value))), B.rest, B.ok))
  {
    hide Parameters, Block;
    if B.ok {
      assert FunctionAt(ts, i, n, k, Place(ts, B.rest), Function(ts[n].value, B.value));
    }
  }

  lemma DeclUnfolds(ts: Stream)
    requires IsType(ts[0].kind)
    ensures var n := SkipStars(Shift(ts));
            ParseDecl(ts) == if n[0].kind != IDENTIFIER then Got(None, Synchronize(n), false)
                             else if Shift(n)[0].kind == LPAREN then
                               var F := ParseFunction(n[0].value, Shift(n));
                               Got(Some(F.value), F.rest, F.ok)
                             else
                               var V := ParseVarRest(n[0].value, Shift(n));
                               Got(Some(Global(V.value)), V.rest, V.ok)
  {
    hide ParseFunction, ParseVarRest, Shift, SkipStars, Synchronize;
  }

  lemma DeclSound(ts: Stream, i: nat)
    requires i < |ts| && Spelled(ts) && IsType(ts[i].kind)
    ensures SoundDecl(ts, i, ParseDecl(From(ts, i)))
  {
    hide *;
    NoType();
    TokenAt(ts, i);
    DeclUnfolds(From(ts, i));
    var n := StarsSkipped(ts, i + 1);
    TokenAt(ts, n);
    if ts[n].kind != IDENTIFIER {
      FailedDecl(ts, i, ParseDecl(From(ts, i)));
    } else {
      DeclaratorIs(ts, i, n);
      TokenAt(ts, n + 1);
      if ts[n + 1].kind == LPAREN {
        FunctionSound(ts, i, n);
      } else {
        VariableSound(ts, n);
        GlobalIs(ts, i, n, ParseVarRest(ts[n].value, From(ts, n + 1)));
      }
    }
  }

  lemma GlobalIs(ts: Stream, i: nat, n: nat, V: Got<Stmt>)
    requires Declarator(ts, i, n) && SoundVar(ts, n, V)
    ensures SoundDecl(ts, i, Got(Some(Global(V.value)), V.rest, V.ok))
  {
    hide Stars, Variable;
  }

  lemma DeclComplete(ts: Stream, i: nat, j: nat, d: Decl)
    requires Declaration(ts, i, j, d) && j < |ts|
    ensures i < |ts| && IsType(ts[i].kind) && ParseDecl(From(ts, i)) == Got(Some(d), From(ts, j), true)
  {
    match d
    case FunctionDecl(f) =>
      var n, k :| FunctionAt(ts, i, n, k, j, f);
      FunctionComplete(ts, i, n, k, j, f);
    case Global(v) =>
      var n :| Declarator(ts, i, n) && Variable(ts, n, j, v);
      GlobalComplete(ts, i, n, j, v);
  }

  lemma GlobalComplete(ts: Stream, i: nat, n: nat, j: nat, v: Stmt)
    requires Declarator(ts, i, n) && Variable(ts, n, j, v) && j < |ts|
    ensures i < |ts| && IsType(ts[i].kind) && ParseDecl(From(ts, i)) == Got(Some(Global(v)), From(ts, j), true)
  {
    hide *;
    NamedComplete(ts, i, n);
    DeclUnfolds(From(ts, i));
    TokenAt(ts, n + 1);
    VariableNext(ts, n, j, v);
    VariableComplete(ts, n, j, v);
  }

  lemma VariableNext(ts: seq<Token>, n: nat, j: nat, v: Stmt)
    requires Variable(ts, n, j, v)
    ensures n + 1 < |ts| && ts[n + 1].kind != LPAREN
  {
    hide Phrase;
  }

  lemma FunctionComplete(ts: Stream, i: nat, n: nat, k: nat, j: nat, f: Function)
    requires FunctionAt(ts, i, n, k, j, f) && j < |ts|
    ensures i < |ts| && IsType(ts[i].kind) && ParseDecl(From(ts, i)) == Got(Some(FunctionDecl(f)), From(ts, j), true)
  {
    hide *;
    FunctionAtParts(ts, i, n, k, j, f);
    NamedComplete(ts, i, n);
    DeclUnfolds(From(ts, i));
    TokenAt(ts, n + 1);
    FunctionUnfolds(f.name, From(ts, n + 1));
    TokenAt(ts, n + 2);
    TokenAt(ts, k);
    TokenAt(ts, k + 1);
    ParamsComplete(ts, n + 2, k, []);
    if ts[n + 2].kind == RPAREN {
      EmptyParams(From(ts, n + 2));
    }
    if ts[k + 1].kind != SEMICOLON {
      BlockComplete(ts, k + 1, j, f.body);
    }
    FunctionForm(f);
  }

  lemma FunctionForm(f: Function)
    ensures f == Function(f.name, f.body)
  {
  }

  lemma FunctionAtParts(ts: seq<Token>, i: nat, n: nat, k: nat, j: nat, f: Function)
    requires FunctionAt(ts, i, n, k, j, f)
    ensures Declarator(ts, i, n) && n + 1 < k && k + 1 < j <= |ts| && ts[n].value == f.name && ts[n + 1].kind == LPAREN
    ensures Parameters(ts, n + 2, k) && ts[k].kind == RPAREN
    ensures if ts[k + 1].kind == SEMICOLON then f.body == [] && j == k + 2 else Block(ts, k + 1, j, f.body)
  {
    hide Parameters, Items;
  }

  // ------------------------------------------------------------------ the language

  /** Only the last token says that the text is at its end. */
  predicate OneEnd(ts: Stream) {
    forall k :: 0 <= k < |ts| - 1 ==> ts[k].kind != EOF
  }

  lemma {:induction false} ProgramSound(ts: Stream, i: nat)
    requires i < |ts| && Spelled(ts) && OneEnd(ts)
    ensures var r := ParseProgram(From(ts, i));
            r.Some? && r.value.ok ==> Program(ts, i, |ts| - 1, r.value.value)
    decreases |ts| - i
  {
    hide *;
    TokenAt(ts, i);
    ProgramUnfolds(From(ts, i));
    if ts[i].kind == EOF {
      EmptyProgram(ts, i);
    } else if IsType(ts[i].kind) {
      DeclSound(ts, i);
      var D := ParseDecl(From(ts, i));
      if D.ok {
        DeclEnd(ts, i, D);
        ProgramSound(ts, Place(ts, D.rest));
        NextSound(ts, i, D, ParseProgram(D.rest));
      } else {
        FailedProgram(D, ParseProgram(D.rest));
      }
    }
  }

  lemma EmptyProgram(ts: Stream, i: nat)
    requires i < |ts| && OneEnd(ts) && ts[i].kind == EOF
    ensures Program(ts, i, |ts| - 1, [])
  {
  }

  lemma DeclEnd(ts: Stream, i: nat, D: Got<Option<Decl>>)
    requires SoundDecl(ts, i, D) && D.ok
    ensures var j := Place(ts, D.rest);
            i < j < |ts| && D.rest == From(ts, j) && D.value.Some? && Declaration(ts, i, j, D.value.value)
  {
    hide Declaration;
  }

  lemma FailedProgram(D: Got<Option<Decl>>, R: Option<Got<seq<Decl>>>)
    requires !D.ok
    ensures R.Some? ==> !Before(D, R.value).ok
  {
  }

  lemma NextSound(ts: Stream, i: nat, D: Got<Option<Decl>>, R: Option<Got<seq<Decl>>>)
    requires D.ok && D.value.Some? && i < Place(ts, D.rest) < |ts|
    requires Declaration(ts, i, Place(ts, D.rest), D.value.value)
    requires R.Some? && R.value.ok ==> Program(ts, Place(ts, D.rest), |ts| - 1, R.value.value)
    ensures R.Some? && Before(D, R.value).ok ==> Program(ts, i, |ts| - 1, Before(D, R.value).value)
  {
    hide Declaration;
    if R.Some? && R.value.ok {
      var ds := Before(D, R.value).value;
      assert ds[0] == D.value.value && ds[1..] == R.value.value;
    }
  }

  lemma ProgramCase(ts: seq<Token>, i: nat, j: nat, ds: seq<Decl>) returns (k: nat)
    requires Program(ts, i, j, ds)
    ensures ds == [] ==> i == j
    ensures ds != [] ==> i < k <= j && Declaration(ts, i, k, ds[0]) && Program(ts, k, j, ds[1..])
  {
    hide Declaration;
    k := 0;
    if ds != [] {
      k :| i < k <= j && Declaration(ts, i, k, ds[0]) && Program(ts, k, j, ds[1..]);
    }
  }

  lemma {:induction false} ProgramComplete(ts: Stream, i: nat, ds: seq<Decl>)
    requires i < |ts| && Program(ts, i, |ts| - 1, ds)
    ensures ParseProgram(From(ts, i)) == Some(Got(ds, From(ts, |ts| - 1), true))
    decreases ds
  {
    hide *;
    var j := |ts| - 1;
    TokenAt(ts, i);
    ProgramUnfolds(From(ts, i));
    var k := ProgramCase(ts, i, j, ds);
    if ds != [] {
      NoType();
      DeclComplete(ts, i, k, ds[0]);
      ProgramComplete(ts, k, ds[1..]);
      BeforeIs(ds, From(ts, k), From(ts, j));
    }
  }

  /** Where declarations are followed by something that does not begin one, the parser never ends. */
  lemma {:induction false} StrayHangs(ts: Stream, i: nat, k: nat, ds: seq<Decl>)
    requires i <= k < |ts| && Program(ts, i, k, ds) && ts[k].kind != EOF && !IsType(ts[k].kind)
    ensures ParseProgram(From(ts, i)).None?
    decreases ds
  {
    hide *;
    TokenAt(ts, i);
    ProgramUnfolds(From(ts, i));
    var n := ProgramCase(ts, i, k, ds);
    if ds != [] {
      NoType();
      DeclComplete(ts, i, n, ds[0]);
      StrayHangs(ts, n, k, ds[1..]);
    }
  }

  lemma BeforeIs(ds: seq<Decl>, rest: Stream, end: Stream)
    requires ds != []
    ensures Before(Got(Some(ds[0]), rest, true), Got(ds[1..], end, true)) == Got(ds, end, true)
  {
    assert [ds[0]] + ds[1..] == ds;
  }

  /** The parser accepts tokens, as a program, if and only if the grammar makes them that program. */
  lemma ParsesExactly(ts: Stream, ds: seq<Decl>)
    requires Spelled(ts) && OneEnd(ts)
    ensures (exists rest :: ParseProgram(ts) == Some(Got(ds, rest, true))) <==> Program(ts, 0, |ts| - 1, ds)
  {
    hide *;
    Whole(ts);
    ProgramSound(ts, 0);
    if Program(ts, 0, |ts| - 1, ds) {
      ProgramComplete(ts, 0, ds);
    }
  }

  lemma Whole(ts: Stream)
    ensures From(ts, 0) == ts
  {
  }

  /** No tokens are two programs. */
  lemma Unambiguous(ts: Stream, a: seq<Decl>, b: seq<Decl>)
    requires Program(ts, 0, |ts| - 1, a) && Program(ts, 0, |ts| - 1, b)
    ensures a == b
  {
    hide *;
    ProgramComplete(ts, 0, a);
    ProgramComplete(ts, 0, b);
  }

  // ------------------------------------------------------------------ tokens of the lexer

  /** The lexer makes tokens of that kind: digits for numbers, a character for a character, and one
      end. */
  lemma {:induction false} LexSpelled(s: string)
    ensures Spelled(Lex(s).tokens) && OneEnd(Lex(s).tokens)
    decreases |s|
  {
    if s == "" {
      LexNone();
    } else {
      var t := OneTurn(s);
      LexOne(s);
      TurnSpelled(s);
      LexSpelled(s[t.length..]);
      var (ts, rest) := (Lex(s).tokens, Lex(s[t.length..]).tokens);
      if t.token.Some? {
        OneMoreSpelled(t.token.value, rest);
      } else {
        assert ts == rest;
      }
      hide Lex, OneTurn, Spelled, OneEnd;
    }
  }

  lemma OneMoreSpelled(t: Token, rest: Stream)
    requires Spelled(rest) && OneEnd(rest) && t.kind != EOF
    requires (t.kind == INTEGER_LITERAL ==> Decimal.IsDigits(t.value)) && (t.kind == CHAR_LITERAL ==> |t.value| > 0)
    ensures Spelled([t] + rest) && OneEnd([t] + rest)
  {
    hide Decimal.IsDigits;
    var ts := [t] + rest;
    forall k | 0 < k < |ts| - 1
      ensures ts[k].kind != EOF
    {
      assert ts[k] == rest[k - 1];
    }
  }

  lemma TurnSpelled(s: string)
    requires s != ""
    ensures var t := OneTurn(s).token;
            t.Some? ==>
              && t.value.kind != EOF
              && (t.value.kind == INTEGER_LITERAL ==> Decimal.IsDigits(t.value.value))
              && (t.value.kind == CHAR_LITERAL ==> |t.value.value| > 0)
  {
    hide ReadString, BlockEnd;
  }

  /** A text is accepted, as a program, if and only if its tokens are well formed and the grammar
      makes them that program. */
  lemma AcceptsExactly(text: string, ds: seq<Decl>)
    ensures var ts := Lex(text).tokens;
            (exists rest :: ParseProgram(ts) == Some(Got(ds, rest, true))) <==> Program(ts, 0, |ts| - 1, ds)
  {
    hide *;
    LexSpelled(text);
    ParsesExactly(Lex(text).tokens, ds);
  }
}
