/** The grammar of Subset C. */
module Grammar {
  // Which tokens are a program, production by production, without reference to the parser, and
  // the proof that the parser accepts exactly those and reads them as the grammar says.

  import opened Words
  import opened Ast
  import opened Lexing
  import opened Parsing
  import opened Printing
  import Decimal

  // ------------------------------------------------------------------ expressions

  /** The tokens from the i-th up to the j-th are an expression of level `p`: 0 assignments, 1 to 10
      the binary operators from the loosest to the tightest, 11 prefix operators, 12 postfix. */
  ghost predicate Phrase(p: nat, ts: seq<Token>, i: nat, j: nat, e: Expr)
    decreases j - i, 40 - p
  {
    && p <= 12 && i < j <= |ts|
    && if p == 0 then Phrase(1, ts, i, j, e) || exists k :: Assigns(ts, i, k, j, e)
       else if p <= 10 then Phrase(p + 1, ts, i, j, e) || exists k :: Infix(p, ts, i, k, j, e)
       else if p == 11 then Phrase(12, ts, i, j, e) || Prefix(ts, i, j, e)
       else
         || Primary(ts, i, j, e)
         || (e.ArrayAccess? && exists k :: Indexed(ts, i, k, j, e))
         || (e.FunctionCall? && exists k :: Called(ts, i, k, j, e))
  }

  /** target = source, grouped to the right. */
  ghost predicate Assigns(ts: seq<Token>, i: nat, k: nat, j: nat, e: Expr)
    decreases j - i, 0
  {
    && e.Assignment? && i < k < j <= |ts| && ts[k].kind == ASSIGN
    && Phrase(1, ts, i, k, e.target) && Phrase(0, ts, k + 1, j, e.source)
  }

  /** left op right, grouped to the left. */
  ghost predicate Infix(p: nat, ts: seq<Token>, i: nat, k: nat, j: nat, e: Expr)
    decreases j - i, 0
  {
    && e.BinaryOp? && Precedence(e.op) == p && i < k < j <= |ts| && ts[k].kind == KindOf(e.op)
    && Phrase(p, ts, i, k, e.left) && Phrase(p + 1, ts, k + 1, j, e.right)
  }

  ghost predicate Prefix(ts: seq<Token>, i: nat, j: nat, e: Expr)
    decreases j - i, 0
  {
    && e.UnaryOp? && i < j <= |ts| && ts[i].kind == KindOfUnary(e.uop) && Phrase(11, ts, i + 1, j, e.operand)
  }

  ghost predicate Indexed(ts: seq<Token>, i: nat, k: nat, j: nat, e: Expr)
    decreases j - i, 0
  {
    && e.ArrayAccess? && i < k < j - 1 < |ts| && ts[k].kind == LBRACKET && ts[j - 1].kind == RBRACKET
    && Phrase(12, ts, i, k, e.base) && Phrase(0, ts, k + 1, j - 1, e.index)
  }

  /** A call of a name, which may stand in parentheses. */
  ghost predicate Called(ts: seq<Token>, i: nat, k: nat, j: nat, e: Expr)
    decreases j - i, 0
  {
    && e.FunctionCall? && i < k < j - 1 < |ts| && ts[k].kind == LPAREN && ts[j - 1].kind == RPAREN
    && Phrase(12, ts, i, k, Identifier(e.callee))
    && if e.arguments == [] then k + 1 == j - 1 else Arguments(ts, k + 1, j - 1, e.arguments)
  }

  /** Expressions with commas between them. */
  ghost predicate Arguments(ts: seq<Token>, i: nat, j: nat, es: seq<Expr>)
    decreases j - i, 50
  {
    && i < j <= |ts| && es != []
    && if |es| == 1 then Phrase(0, ts, i, j, es[0]) else exists k :: OneMore(ts, i, k, j, es)
  }

  ghost predicate OneMore(ts: seq<Token>, i: nat, k: nat, j: nat, es: seq<Expr>)
    decreases j - i, 0
  {
    && |es| > 1 && i < k < j <= |ts| && ts[k].kind == COMMA
    && Arguments(ts, i, k, es[..|es| - 1]) && Phrase(0, ts, k + 1, j, es[|es| - 1])
  }

  ghost predicate Primary(ts: seq<Token>, i: nat, j: nat, e: Expr)
    decreases j - i, 0
  {
    && i < j <= |ts|
    && ((j == i + 1 && Leaf(ts[i], e))
        || (i + 1 < j - 1 && ts[i].kind == LPAREN && ts[j - 1].kind == RPAREN && Phrase(0, ts, i + 1, j - 1, e)))
  }

  predicate Leaf(t: Token, e: Expr) {
    match t.kind
    case IDENTIFIER => e == Identifier(t.value)
    case INTEGER_LITERAL => Decimal.IsDigits(t.value) && e == IntegerLiteral(Decimal.Read(t.value))
    case CHAR_LITERAL => |t.value| > 0 && e == CharLiteral(t.value[0])
    case STRING_LITERAL => e == StringLiteral(t.value)
    case _ => false
  }

  // ------------------------------------------------------------------ what is read is an expression

  /** Literals as the lexer makes them. */
  predicate Spelled(ts: seq<Token>) {
    forall t :: t in ts ==>
      (t.kind == INTEGER_LITERAL ==> Decimal.IsDigits(t.value)) && (t.kind == CHAR_LITERAL ==> |t.value| > 0)
  }

  /** The rest of the tokens, from the i-th on. */
  function From(ts: Stream, i: nat): Stream {
    if i < |ts| then ts[i..] else ts
  }

  /** Where the rest begins. */
  function Place(ts: Stream, rest: Stream): int {
    |ts| - |rest|
  }

  /** If no error was reported, an expression of level `p` was read from the i-th token on. */
  ghost predicate Sound(p: nat, ts: Stream, i: nat, g: Got<Expr>) {
    g.ok ==>
      var j := Place(ts, g.rest);
      i < j < |ts| && g.rest == From(ts, j) && Phrase(p, ts, i, j, g.value)
  }

  lemma ShiftFrom(ts: Stream, j: nat)
    requires j < |ts| && ts[j].kind != EOF
    ensures j + 1 < |ts| && Shift(From(ts, j)) == From(ts, j + 1) && Place(ts, From(ts, j + 1)) == j + 1
  {
  }

  lemma {:induction false} ExprSound(p: nat, ts: Stream, i: nat)
    requires p <= 12 && i < |ts| && Spelled(ts)
    ensures Sound(p, ts, i, ParseAt(p, From(ts, i)))
    decreases |ts| - i, 20 - p
  {
    hide *;
    var here := From(ts, i);
    FromStarts(ts, i);
    if p == 0 {
      AssignmentUnfolds(here);
      ExprSound(1, ts, i);
      AssignSound(ts, i);
    } else if p <= 10 {
      LevelUnfolds(p, here);
      ExprSound(p + 1, ts, i);
      var g := ParseAt(p + 1, here);
      NoLonger(ts, i, g.rest);
      SoundUp(p, ts, i, g);
      TailSound(p, ts, i, g);
    } else if p == 11 {
      UnaryUnfolds(here);
      UnaryHasKind(here[0].kind);
      if UnaryOf(here[0].kind).Some? {
        ShiftFrom(ts, i);
        ExprSound(11, ts, i + 1);
        PrefixSound(ts, i, ParseAt(11, From(ts, i + 1)), UnaryOf(here[0].kind).value);
      } else {
        ExprSound(12, ts, i);
        SoundUp(11, ts, i, ParseAt(12, here));
      }
    } else {
      PostfixUnfolds(here);
      PrimarySound(ts, i);
      NoLonger(ts, i, ParsePrimary(here).rest);
      PostfixSound(ts, i, ParsePrimary(here));
    }
  }

  lemma NoLonger(ts: Stream, i: nat, rest: Stream)
    requires i < |ts| && Advances(From(ts, i), rest)
    ensures |rest| <= |ts| - i
  {
  }

  lemma SoundUp(p: nat, ts: Stream, i: nat, g: Got<Expr>)
    requires p < 12 && Sound(p + 1, ts, i, g)
    ensures Sound(p, ts, i, g)
  {
    if g.ok {
      PhraseUp(p, ts, i, Place(ts, g.rest), g.value);
    }
    hide Phrase;
  }

  /** An expression of a level is one of every looser level. */
  lemma PhraseUp(p: nat, ts: seq<Token>, i: nat, j: nat, e: Expr)
    requires p < 12 && Phrase(p + 1, ts, i, j, e)
    ensures Phrase(p, ts, i, j, e)
  {
  }

  lemma PhraseWithin(p: nat, ts: seq<Token>, i: nat, j: nat, e: Expr)
    requires Phrase(p, ts, i, j, e)
    ensures i < j <= |ts|
  {
  }

  lemma {:induction false} AssignSound(ts: Stream, i: nat)
    requires i < |ts| && Spelled(ts) && Sound(1, ts, i, ParseAt(1, From(ts, i)))
    ensures Sound(0, ts, i, ParseAt(0, From(ts, i)))
    decreases |ts| - i, 0
  {
    hide ParseAt, Phrase, From, Shift, Spelled;
    var L := ParseAt(1, From(ts, i));
    AssignmentUnfolds(From(ts, i));
    SoundUp(0, ts, i, L);
    if L.ok && L.rest[0].kind == ASSIGN {
      var k := Place(ts, L.rest);
      FromStarts(ts, k);
      ShiftFrom(ts, k);
      ExprSound(0, ts, k + 1);
      var V := ParseAt(0, Shift(L.rest));
      if V.ok {
        AssignsIs(ts, i, k, Place(ts, V.rest), Assignment(L.value, V.value));
      }
    }
  }

  lemma AssignsIs(ts: seq<Token>, i: nat, k: nat, j: nat, e: Expr)
    requires e.Assignment? && i < k < j <= |ts| && ts[k].kind == ASSIGN
    requires Phrase(1, ts, i, k, e.target) && Phrase(0, ts, k + 1, j, e.source)
    ensures Phrase(0, ts, i, j, e)
  {
    assert Assigns(ts, i, k, j, e);
  }

  lemma PrefixSound(ts: Stream, i: nat, g: Got<Expr>, op: UnOp)
    requires i + 1 < |ts| && Sound(11, ts, i + 1, g) && ts[i].kind == KindOfUnary(op)
    ensures Sound(11, ts, i, g.(value := UnaryOp(op, g.value)))
  {
    assert g.ok ==> Prefix(ts, i, Place(ts, g.rest), UnaryOp(op, g.value));
  }

  /** What has failed stays so. */
  lemma {:induction false} TailFails(p: nat, g: Got<Expr>)
    requires 1 <= p <= 10 && !g.ok
    ensures !Tail(p, g).ok
    decreases |g.rest|
  {
    if OperatorAt(p, g.rest[0].kind) {
      var R := ParseAt(p + 1, Shift(g.rest));
      TailFails(p, Got(BinaryOp(BinaryOf(g.rest[0].kind).value, g.value, R.value), R.rest, false));
    }
  }

  lemma {:induction false} TailSound(p: nat, ts: Stream, i: nat, g: Got<Expr>)
    requires 1 <= p <= 10 && i < |ts| && Spelled(ts) && Sound(p, ts, i, g)
    ensures Sound(p, ts, i, Tail(p, g))
    decreases |g.rest|, 0
  {
    hide ParseAt, Phrase, Infix, BinaryOf, LevelOf, KindOf, Precedence, Spelled, From, Shift;
    if !g.ok {
      TailFails(p, g);
    } else if OperatorAt(p, g.rest[0].kind) {
      var op := BinaryOf(g.rest[0].kind).value;
      var k := Place(ts, g.rest);
      FromStarts(ts, k);
      OperatorStarts(p, ts, k);
      ShiftFrom(ts, k);
      ExprSound(p + 1, ts, k + 1);
      var R := ParseAt(p + 1, Shift(g.rest));
      var next := Got(BinaryOp(op, g.value, R.value), R.rest, R.ok);
      if R.ok {
        InfixIs(p, ts, i, k, Place(ts, R.rest), next.value);
      }
      TailSound(p, ts, i, next);
    }
  }

  lemma OperatorStarts(p: nat, ts: Stream, k: nat)
    requires k < |ts| && OperatorAt(p, ts[k].kind)
    ensures From(ts, k)[0] == ts[k] && ts[k].kind != EOF
    ensures BinaryOf(ts[k].kind).Some?
    ensures var op := BinaryOf(ts[k].kind).value;
            Precedence(op) == p && KindOf(op) == ts[k].kind
  {
    OperatorsHaveKinds(ts[k].kind);
    LevelsAreStandard(BinaryOf(ts[k].kind).value);
  }

  lemma InfixIs(p: nat, ts: seq<Token>, i: nat, k: nat, j: nat, e: Expr)
    requires 1 <= p <= 10 && e.BinaryOp? && Precedence(e.op) == p && i < k < j <= |ts| && ts[k].kind == KindOf(e.op)
    requires Phrase(p, ts, i, k, e.left) && Phrase(p + 1, ts, k + 1, j, e.right)
    ensures Phrase(p, ts, i, j, e)
  {
    hide KindOf, Precedence;
    assert Infix(p, ts, i, k, j, e);
  }

  lemma {:induction false} PostfixFails(g: Got<Expr>)
    requires !g.ok
    ensures !PostfixTail(g).ok
    decreases |g.rest|
  {
    if g.rest[0].kind == LBRACKET {
      var I := ParseAt(0, Shift(g.rest));
      PostfixFails(Got(ArrayAccess(g.value, I.value), Shift(I.rest), false));
    } else if g.rest[0].kind == LPAREN {
      var A := ParseArgs(Shift(g.rest));
      PostfixFails(if g.value.Identifier? then Got(FunctionCall(g.value.name, A.value), Shift(A.rest), false)
                   else Got(g.value, Shift(A.rest), false));
    }
  }

  lemma {:induction false} PostfixSound(ts: Stream, i: nat, g: Got<Expr>)
    requires i < |ts| && Spelled(ts) && Sound(12, ts, i, g)
    ensures Sound(12, ts, i, PostfixTail(g))
    decreases |g.rest|, 2
  {
    if !g.ok {
      PostfixFails(g);
    } else {
      hide ParseAt, Phrase, Spelled, From, Shift, PostfixTail, ParseArgs;
      PostfixTailUnfolds(g);
      FromStarts(ts, Place(ts, g.rest));
      if g.rest[0].kind == LBRACKET {
        IndexSound(ts, i, g);
      } else if g.rest[0].kind == LPAREN {
        CallSound(ts, i, g);
      }
    }
  }

  lemma {:induction false} IndexSound(ts: Stream, i: nat, g: Got<Expr>)
    requires i < |ts| && Spelled(ts) && Sound(12, ts, i, g) && g.ok && g.rest[0].kind == LBRACKET
    ensures Sound(12, ts, i, PostfixTail(g))
    decreases |g.rest|, 1
  {
    hide ParseAt, Phrase, Spelled, From, Shift, PostfixTail, ParseArgs;
    PostfixTailUnfolds(g);
    var k := Place(ts, g.rest);
    FromStarts(ts, k);
    ShiftFrom(ts, k);
    ExprSound(0, ts, k + 1);
    var I := ParseAt(0, Shift(g.rest));
    var next := Got(ArrayAccess(g.value, I.value), Shift(I.rest), I.ok && I.rest[0].kind == RBRACKET);
    if next.ok {
      var j := Place(ts, I.rest);
      FromStarts(ts, j);
      ShiftFrom(ts, j);
      IndexedIs(ts, i, k, j + 1, next.value);
    }
    NoLonger(ts, k + 1, I.rest);
    ShiftShorter(I.rest);
    PostfixSound(ts, i, next);
  }

  lemma {:induction false} CallSound(ts: Stream, i: nat, g: Got<Expr>)
    requires i < |ts| && Spelled(ts) && Sound(12, ts, i, g) && g.ok && g.rest[0].kind == LPAREN
    ensures Sound(12, ts, i, PostfixTail(g))
    decreases |g.rest|, 1
  {
    hide ParseAt, Phrase, Spelled, From, Shift, PostfixTail, ParseArgs, Arguments;
    PostfixTailUnfolds(g);
    var k := Place(ts, g.rest);
    FromStarts(ts, k);
    ShiftFrom(ts, k);
    ArgsSound(ts, k + 1);
    var A := ParseArgs(Shift(g.rest));
    var ok := A.ok && A.rest[0].kind == RPAREN;
    ShiftShorter(A.rest);
    if g.value.Identifier? {
      CalledSound(ts, i, k, g.value.name, A);
      PostfixSound(ts, i, Got(FunctionCall(g.value.name, A.value), Shift(A.rest), ok));
    } else {
      PostfixFails(Got(g.value, Shift(A.rest), false));
    }
  }

  lemma CalledSound(ts: Stream, i: nat, k: nat, f: string, A: Got<seq<Expr>>)
    requires i < k < |ts| - 1 && ts[k].kind == LPAREN && Phrase(12, ts, i, k, Identifier(f)) && SoundArgs(ts, k + 1, A)
    ensures Sound(12, ts, i, Got(FunctionCall(f, A.value), Shift(A.rest), A.ok && A.rest[0].kind == RPAREN))
  {
    hide Phrase, Arguments;
    if A.ok && A.rest[0].kind == RPAREN {
      var j := Place(ts, A.rest);
      FromStarts(ts, j);
      ShiftFrom(ts, j);
      CalledIs(ts, i, k, j + 1, FunctionCall(f, A.value));
    }
  }

  lemma ShiftShorter(ts: Stream)
    ensures |Shift(ts)| <= |ts|
  {
  }

  lemma FromStarts(ts: Stream, k: nat)
    requires k < |ts|
    ensures From(ts, k)[0] == ts[k]
  {
  }

  lemma IndexedIs(ts: seq<Token>, i: nat, k: nat, j: nat, e: Expr)
    requires e.ArrayAccess? && i < k < j - 1 < |ts| && ts[k].kind == LBRACKET && ts[j - 1].kind == RBRACKET
    requires Phrase(12, ts, i, k, e.base) && Phrase(0, ts, k + 1, j - 1, e.index)
    ensures Phrase(12, ts, i, j, e)
  {
    assert Indexed(ts, i, k, j, e);
  }

  lemma CalledIs(ts: seq<Token>, i: nat, k: nat, j: nat, e: Expr)
    requires e.FunctionCall? && i < k < j - 1 < |ts| && ts[k].kind == LPAREN && ts[j - 1].kind == RPAREN
    requires Phrase(12, ts, i, k, Identifier(e.callee))
    requires if e.arguments == [] then k + 1 == j - 1 else Arguments(ts, k + 1, j - 1, e.arguments)
    ensures Phrase(12, ts, i, j, e)
  {
    assert Called(ts, i, k, j, e);
  }

  /** The same for a list of arguments, or none before the closing parenthesis. */
  ghost predicate SoundArgs(ts: Stream, i: nat, g: Got<seq<Expr>>) {
    g.ok ==>
      var j := Place(ts, g.rest);
      && i <= j < |ts| && g.rest == From(ts, j)
      && if g.value == [] then i == j && ts[i].kind == RPAREN else Arguments(ts, i, j, g.value)
  }

  lemma {:induction false} ArgsSound(ts: Stream, i: nat)
    requires i < |ts| && Spelled(ts)
    ensures SoundArgs(ts, i, ParseArgs(From(ts, i)))
    decreases |ts| - i, 21
  {
    if ts[i].kind != RPAREN {
      ExprSound(0, ts, i);
      var E := ParseAt(0, From(ts, i));
      ArgsTailSound(ts, i, Got([E.value], E.rest, E.ok));
    }
  }

  lemma {:induction false} ArgsTailFails(g: Got<seq<Expr>>)
    requires !g.ok
    ensures !ArgsTail(g).ok
    decreases |g.rest|
  {
    if g.rest[0].kind == COMMA {
      var E := ParseAt(0, Shift(g.rest));
      ArgsTailFails(Got(g.value + [E.value], E.rest, false));
    }
  }

  lemma {:induction false} ArgsTailSound(ts: Stream, i: nat, g: Got<seq<Expr>>)
    requires i < |ts| && Spelled(ts) && SoundArgs(ts, i, g) && g.value != []
    ensures SoundArgs(ts, i, ArgsTail(g)) && ArgsTail(g).value != []
    decreases |g.rest|, 0
  {
    if g.rest[0].kind == COMMA {
      var E := ParseAt(0, Shift(g.rest));
      var next := Got(g.value + [E.value], E.rest, g.ok && E.ok);
      if g.ok {
        var k := Place(ts, g.rest);
        ShiftFrom(ts, k);
        ExprSound(0, ts, k + 1);
        assert next.value[..|next.value| - 1] == g.value;
        assert E.ok ==> OneMore(ts, i, k, Place(ts, E.rest), next.value);
      }
      ArgsTailSound(ts, i, next);
    }
  }

  lemma {:induction false} PrimarySound(ts: Stream, i: nat)
    requires i < |ts| && Spelled(ts)
    ensures Sound(12, ts, i, ParsePrimary(From(ts, i)))
    decreases |ts| - i, 1
  {
    hide ParseAt, Phrase, From, Shift, ParsePrimary, Spelled;
    FromStarts(ts, i);
    PrimaryUnfolds(From(ts, i));
    if ts[i].kind == LPAREN {
      ShiftFrom(ts, i);
      ExprSound(0, ts, i + 1);
      var E := ParseAt(0, From(ts, i + 1));
      if E.ok && E.rest[0].kind == RPAREN {
        var j := Place(ts, E.rest);
        FromStarts(ts, j);
        ShiftFrom(ts, j);
        ClosedIs(ts, i, j + 1, E.value);
      }
    } else if ParsePrimary(From(ts, i)).ok {
      ShiftFrom(ts, i);
      LeafSpelled(ts, i);
      LeafIs(ts, i, ParsePrimary(From(ts, i)).value);
    }
  }

  lemma ClosedIs(ts: seq<Token>, i: nat, j: nat, e: Expr)
    requires i + 1 < j - 1 < |ts| && ts[i].kind == LPAREN && ts[j - 1].kind == RPAREN && Phrase(0, ts, i + 1, j - 1, e)
    ensures Phrase(12, ts, i, j, e)
  {
    assert Primary(ts, i, j, e);
  }

  lemma LeafIs(ts: seq<Token>, i: nat, e: Expr)
    requires i < |ts| && Leaf(ts[i], e)
    ensures Phrase(12, ts, i, i + 1, e)
  {
    assert Primary(ts, i, i + 1, e);
  }

  lemma LeafSpelled(ts: Stream, i: nat)
    requires i < |ts| && Spelled(ts)
    ensures var g := ParsePrimary(From(ts, i));
            ts[i].kind != LPAREN && g.ok ==> Leaf(ts[i], g.value)
    ensures ts[i].kind == EOF ==> !ParsePrimary(From(ts, i)).ok
  {
    assert ts[i] in ts;
  }

  lemma UnaryHasKind(k: Kind)
    ensures UnaryOf(k).Some? ==> KindOfUnary(UnaryOf(k).value) == k && k != EOF
  {
  }

  // ------------------------------------------------------------------ every expression is read

  lemma AssignCase(ts: seq<Token>, i: nat, j: nat, e: Expr) returns (k: nat)
    requires Phrase(0, ts, i, j, e) && !Phrase(1, ts, i, j, e)
    ensures e.Assignment? && i < k < j <= |ts| && ts[k].kind == ASSIGN
    ensures Phrase(1, ts, i, k, e.target) && Phrase(0, ts, k + 1, j, e.source)
  {
    k :| Assigns(ts, i, k, j, e);
  }

  lemma InfixCase(p: nat, ts: seq<Token>, i: nat, j: nat, e: Expr) returns (k: nat)
    requires 1 <= p <= 10 && Phrase(p, ts, i, j, e) && !Phrase(p + 1, ts, i, j, e)
    ensures e.BinaryOp? && Precedence(e.op) == p && i < k < j <= |ts| && ts[k].kind == KindOf(e.op)
    ensures Phrase(p, ts, i, k, e.left) && Phrase(p + 1, ts, k + 1, j, e.right)
  {
    k :| Infix(p, ts, i, k, j, e);
    hide Precedence, KindOf;
  }

  lemma PrefixCase(ts: seq<Token>, i: nat, j: nat, e: Expr)
    requires Phrase(11, ts, i, j, e) && !Phrase(12, ts, i, j, e)
    ensures e.UnaryOp? && i < j <= |ts| && ts[i].kind == KindOfUnary(e.uop) && Phrase(11, ts, i + 1, j, e.operand)
  {
  }

  /** The three ways to be a postfix expression. */
  lemma PostCases(ts: seq<Token>, i: nat, j: nat, e: Expr) returns (k: nat)
    requires Phrase(12, ts, i, j, e)
    ensures Primary(ts, i, j, e) || Indexed(ts, i, k, j, e) || Called(ts, i, k, j, e)
  {
    k := 0;
    if !Primary(ts, i, j, e) {
      if e.ArrayAccess? {
        k :| Indexed(ts, i, k, j, e);
      } else {
        k :| Called(ts, i, k, j, e);
      }
    }
  }

  lemma {:induction false} PhraseStarts(p: nat, ts: seq<Token>, i: nat, j: nat, e: Expr)
    requires Phrase(p, ts, i, j, e)
    ensures p <= 12 && i < j <= |ts| && Starts(ts[i].kind, p)
    decreases j - i, 40 - p
  {
    if p < 12 && Phrase(p + 1, ts, i, j, e) {
      PhraseStarts(p + 1, ts, i, j, e);
    } else if p == 0 {
      var k := AssignCase(ts, i, j, e);
      PhraseStarts(1, ts, i, k, e.target);
    } else if p <= 10 {
      var k := InfixCase(p, ts, i, j, e);
      PhraseStarts(p, ts, i, k, e.left);
    } else if p == 11 {
      PrefixCase(ts, i, j, e);
      UnaryKinds(e.uop);
    } else {
      var k := PostCases(ts, i, j, e);
      if Indexed(ts, i, k, j, e) {
        PhraseStarts(12, ts, i, k, e.base);
      } else if Called(ts, i, k, j, e) {
        PhraseStarts(12, ts, i, k, Identifier(e.callee));
      }
    }
  }

  /** An expression of level `p` is read whole when what follows cannot belong to it. */
  lemma {:induction false} ExprComplete(p: nat, ts: Stream, i: nat, j: nat, e: Expr)
    requires Phrase(p, ts, i, j, e) && j < |ts| && Stops(p, ts[j].kind)
    ensures i < j && ParseAt(p, From(ts, i)) == Got(e, From(ts, j), true)
    decreases j - i, 40 - p, 1
  {
    hide *;
    PhraseStarts(p, ts, i, j, e);
    TokenAt(ts, j);
    if p == 0 {
      AssignComplete(ts, i, j, e);
    } else if p <= 10 {
      StopsUp(p, p + 1, ts[j].kind);
      TailComplete(p, ts, i, j, e);
      TailStops(p, Got(e, From(ts, j), true));
    } else if p == 11 {
      UnaryComplete(ts, i, j, e);
    } else {
      StopsPostfix(p, ts[j].kind);
      PostComplete(ts, i, j, e);
      PostfixStops(Got(e, From(ts, j), true));
    }
  }

  lemma {:induction false} UnaryComplete(ts: Stream, i: nat, j: nat, e: Expr)
    requires Phrase(11, ts, i, j, e) && j < |ts| && Stops(11, ts[j].kind)
    ensures i < j && ParseAt(11, From(ts, i)) == Got(e, From(ts, j), true)
    decreases j - i, 29, 0
  {
    hide *;
    PhraseStarts(11, ts, i, j, e);
    TokenAt(ts, i);
    UnaryUnfolds(From(ts, i));
    if Phrase(12, ts, i, j, e) {
      PhraseStarts(12, ts, i, j, e);
      NotUnary(ts[i].kind);
      StopsUp(11, 12, ts[j].kind);
      ExprComplete(12, ts, i, j, e);
    } else {
      PrefixCase(ts, i, j, e);
      UnaryKinds(e.uop);
      PhraseStarts(11, ts, i + 1, j, e.operand);
      ExprComplete(11, ts, i + 1, j, e.operand);
    }
  }

  lemma {:induction false} AssignComplete(ts: Stream, i: nat, j: nat, e: Expr)
    requires Phrase(0, ts, i, j, e) && j < |ts| && Stops(0, ts[j].kind)
    ensures i < j && ParseAt(0, From(ts, i)) == Got(e, From(ts, j), true)
    decreases j - i, 40, 0
  {
    hide *;
    PhraseStarts(0, ts, i, j, e);
    if Phrase(1, ts, i, j, e) {
      AssignmentUnfolds(From(ts, i));
      TokenAt(ts, j);
      StopsPostfix(0, ts[j].kind);
      StopsUp(0, 1, ts[j].kind);
      ExprComplete(1, ts, i, j, e);
    } else {
      var k := AssignCase(ts, i, j, e);
      TokenAt(ts, k);
      AssignStops();
      ExprComplete(1, ts, i, k, e.target);
      ExprComplete(0, ts, k + 1, j, e.source);
      AssignStep(e, From(ts, i), From(ts, k), From(ts, j));
    }
  }

  lemma AssignStep(e: Expr, start: Stream, sign: Stream, end: Stream)
    requires e.Assignment? && ParseAt(1, start) == Got(e.target, sign, true) && sign[0].kind == ASSIGN
    requires ParseAt(0, Shift(sign)) == Got(e.source, end, true)
    ensures ParseAt(0, start) == Got(e, end, true)
  {
    hide *;
    AssignmentUnfolds(start);
  }

  /** Up to the operators of its own level that follow. */
  lemma {:induction false} TailComplete(p: nat, ts: Stream, i: nat, j: nat, e: Expr)
    requires 1 <= p <= 10 && Phrase(p, ts, i, j, e) && j < |ts| && Stops(p + 1, ts[j].kind)
    ensures i < j && ParseAt(p, From(ts, i)) == Tail(p, Got(e, From(ts, j), true))
    decreases j - i, 40 - p, 0
  {
    hide *;
    LevelUnfolds(p, From(ts, i));
    PhraseStarts(p, ts, i, j, e);
    if Phrase(p + 1, ts, i, j, e) {
      ExprComplete(p + 1, ts, i, j, e);
    } else {
      var k := InfixCase(p, ts, i, j, e);
      FromStarts(ts, k);
      OperatorStops(e.op);
      ShiftFrom(ts, k);
      TailComplete(p, ts, i, k, e.left);
      TailUnfolds(p, Got(e.left, From(ts, k), true));
      ExprComplete(p + 1, ts, k + 1, j, e.right);
    }
  }

  lemma {:induction false} PostComplete(ts: Stream, i: nat, j: nat, e: Expr)
    requires Phrase(12, ts, i, j, e) && j < |ts|
    ensures i < j && ParseAt(12, From(ts, i)) == PostfixTail(Got(e, From(ts, j), true))
    decreases j - i, 28, 0
  {
    hide *;
    PhraseStarts(12, ts, i, j, e);
    var k := PostCases(ts, i, j, e);
    if Indexed(ts, i, k, j, e) {
      IndexComplete(ts, i, k, j, e);
    } else if Called(ts, i, k, j, e) {
      CallComplete(ts, i, k, j, e);
    } else {
      PrimaryComplete(ts, i, j, e);
    }
  }

  lemma IndexedParts(ts: seq<Token>, i: nat, k: nat, j: nat, e: Expr)
    requires Indexed(ts, i, k, j, e)
    ensures e.ArrayAccess? && i < k < j - 1 < |ts| && ts[k].kind == LBRACKET && ts[j - 1].kind == RBRACKET
    ensures Phrase(12, ts, i, k, e.base) && Phrase(0, ts, k + 1, j - 1, e.index)
  {
  }

  lemma CalledParts(ts: seq<Token>, i: nat, k: nat, j: nat, e: Expr)
    requires Called(ts, i, k, j, e)
    ensures e.FunctionCall? && i < k < j - 1 < |ts| && ts[k].kind == LPAREN && ts[j - 1].kind == RPAREN
    ensures Phrase(12, ts, i, k, Identifier(e.callee))
    ensures if e.arguments == [] then k + 1 == j - 1 else Arguments(ts, k + 1, j - 1, e.arguments)
  {
  }

  lemma {:induction false} IndexComplete(ts: Stream, i: nat, k: nat, j: nat, e: Expr)
    requires Indexed(ts, i, k, j, e) && j < |ts|
    ensures i < j && ParseAt(12, From(ts, i)) == PostfixTail(Got(e, From(ts, j), true))
    decreases j - i, 27, 0
  {
    hide *;
    IndexedParts(ts, i, k, j, e);
    PostComplete(ts, i, k, e.base);
    IndexRead(ts, k, j, e);
  }

  lemma {:induction false} IndexRead(ts: Stream, k: nat, j: nat, e: Expr)
    requires e.ArrayAccess? && k < j - 1 < |ts| - 1 && ts[k].kind == LBRACKET && ts[j - 1].kind == RBRACKET
    requires Phrase(0, ts, k + 1, j - 1, e.index)
    ensures PostfixTail(Got(e.base, From(ts, k), true)) == PostfixTail(Got(e, From(ts, j), true))
    decreases j - k, 0, 0
  {
    hide *;
    TokenAt(ts, k);
    TokenAt(ts, j - 1);
    AssignStops();
    ExprComplete(0, ts, k + 1, j - 1, e.index);
    IndexStep(e, From(ts, k), From(ts, k + 1), From(ts, j - 1), From(ts, j));
  }

  lemma IndexStep(e: Expr, open: Stream, inner: Stream, close: Stream, after: Stream)
    requires e.ArrayAccess? && open[0].kind == LBRACKET && Shift(open) == inner
    requires ParseAt(0, inner) == Got(e.index, close, true) && close[0].kind == RBRACKET && Shift(close) == after
    ensures PostfixTail(Got(e.base, open, true)) == PostfixTail(Got(e, after, true))
  {
    hide *;
    PostfixTailUnfolds(Got(e.base, open, true));
  }

  lemma {:induction false} CallComplete(ts: Stream, i: nat, k: nat, j: nat, e: Expr)
    requires Called(ts, i, k, j, e) && j < |ts|
    ensures i < j && ParseAt(12, From(ts, i)) == PostfixTail(Got(e, From(ts, j), true))
    decreases j - i, 27, 0
  {
    hide *;
    CalledParts(ts, i, k, j, e);
    PostComplete(ts, i, k, Identifier(e.callee));
    CallRead(ts, k, j, e);
  }

  lemma {:induction false} CallRead(ts: Stream, k: nat, j: nat, e: Expr)
    requires e.FunctionCall? && k < j - 1 < |ts| - 1 && ts[k].kind == LPAREN && ts[j - 1].kind == RPAREN
    requires if e.arguments == [] then k + 1 == j - 1 else Arguments(ts, k + 1, j - 1, e.arguments)
    ensures PostfixTail(Got(Identifier(e.callee), From(ts, k), true)) == PostfixTail(Got(e, From(ts, j), true))
    decreases j - k, 0, 0
  {
    hide *;
    TokenAt(ts, k);
    TokenAt(ts, j - 1);
    if e.arguments == [] {
      ArgsUnfold(From(ts, k + 1));
    } else {
      AssignStops();
      ArgsComplete(ts, k + 1, j - 1, e.arguments);
      ArgsTailUnfolds(Got(e.arguments, From(ts, j - 1), true));
    }
    CallStep(e, From(ts, k), From(ts, k + 1), From(ts, j - 1), From(ts, j));
  }

  lemma CallStep(e: Expr, open: Stream, inner: Stream, close: Stream, after: Stream)
    requires e.FunctionCall? && open[0].kind == LPAREN && Shift(open) == inner
    requires ParseArgs(inner) == Got(e.arguments, close, true) && close[0].kind == RPAREN && Shift(close) == after
    ensures PostfixTail(Got(Identifier(e.callee), open, true)) == PostfixTail(Got(e, after, true))
  {
    hide *;
    PostfixTailUnfolds(Got(Identifier(e.callee), open, true));
  }

  /** A token that is not the last, and the rest behind it. */
  lemma TokenAt(ts: Stream, k: nat)
    requires k < |ts|
    ensures From(ts, k)[0] == ts[k]
    ensures ts[k].kind != EOF ==> k + 1 < |ts| && Shift(From(ts, k)) == From(ts, k + 1)
  {
  }

  lemma ArgumentsWithin(ts: seq<Token>, i: nat, j: nat, es: seq<Expr>)
    requires Arguments(ts, i, j, es)
    ensures i < j <= |ts| && es != []
    ensures |es| == 1 ==> Phrase(0, ts, i, j, es[0])
  {
  }

  lemma MoreCase(ts: seq<Token>, i: nat, j: nat, es: seq<Expr>) returns (k: nat)
    requires Arguments(ts, i, j, es) && |es| > 1
    ensures i < k < j <= |ts| && ts[k].kind == COMMA
    ensures Arguments(ts, i, k, es[..|es| - 1]) && Phrase(0, ts, k + 1, j, es[|es| - 1])
  {
    k :| OneMore(ts, i, k, j, es);
  }

  /** Up to the arguments that follow. */
  lemma {:induction false} ArgsComplete(ts: Stream, i: nat, j: nat, es: seq<Expr>)
    requires Arguments(ts, i, j, es) && j < |ts| && Stops(0, ts[j].kind)
    ensures i < j && ParseArgs(From(ts, i)) == ArgsTail(Got(es, From(ts, j), true))
    decreases j - i, 50, 0
  {
    hide *;
    ArgumentsWithin(ts, i, j, es);
    if |es| == 1 {
      ArgsUnfold(From(ts, i));
      TokenAt(ts, i);
      PhraseStarts(0, ts, i, j, es[0]);
      StartsNot(ts[i].kind, 0);
      ExprComplete(0, ts, i, j, es[0]);
      assert [es[0]] == es;
    } else {
      var k := MoreCase(ts, i, j, es);
      TokenAt(ts, k);
      AssignStops();
      ArgsComplete(ts, i, k, es[..|es| - 1]);
      ExprComplete(0, ts, k + 1, j, es[|es| - 1]);
      MoreStep(es, From(ts, k), From(ts, k + 1), From(ts, j));
    }
  }

  lemma MoreStep(es: seq<Expr>, comma: Stream, inner: Stream, after: Stream)
    requires |es| > 1 && comma[0].kind == COMMA && Shift(comma) == inner
    requires ParseAt(0, inner) == Got(es[|es| - 1], after, true)
    ensures ArgsTail(Got(es[..|es| - 1], comma, true)) == ArgsTail(Got(es, after, true))
  {
    hide *;
    ArgsTailUnfolds(Got(es[..|es| - 1], comma, true));
    assert es[..|es| - 1] + [es[|es| - 1]] == es;
  }

  lemma {:induction false} PrimaryComplete(ts: Stream, i: nat, j: nat, e: Expr)
    requires Primary(ts, i, j, e) && j < |ts|
    ensures i < j && ParseAt(12, From(ts, i)) == PostfixTail(Got(e, From(ts, j), true))
    decreases j - i, 27, 0
  {
    hide *;
    PrimaryParts(ts, i, j, e);
    PostfixUnfolds(From(ts, i));
    if j == i + 1 && Leaf(ts[i], e) {
      LeafComplete(ts, i, e);
    } else {
      ClosedRead(ts, i, j, e);
    }
  }

  lemma {:induction false} ClosedRead(ts: Stream, i: nat, j: nat, e: Expr)
    requires i + 1 < j - 1 < |ts| - 1 && ts[i].kind == LPAREN && ts[j - 1].kind == RPAREN
    requires Phrase(0, ts, i + 1, j - 1, e)
    ensures ParsePrimary(From(ts, i)) == Got(e, From(ts, j), true)
    decreases j - i, 26, 0
  {
    hide *;
    TokenAt(ts, i);
    TokenAt(ts, j - 1);
    AssignStops();
    ExprComplete(0, ts, i + 1, j - 1, e);
    ClosedStep(e, From(ts, i), From(ts, i + 1), From(ts, j - 1), From(ts, j));
  }

  lemma ClosedStep(e: Expr, open: Stream, inner: Stream, close: Stream, after: Stream)
    requires open[0].kind == LPAREN && Shift(open) == inner
    requires ParseAt(0, inner) == Got(e, close, true) && close[0].kind == RPAREN && Shift(close) == after
    ensures ParsePrimary(open) == Got(e, after, true)
  {
    hide *;
    PrimaryUnfolds(open);
  }

  lemma PrimaryParts(ts: seq<Token>, i: nat, j: nat, e: Expr)
    requires Primary(ts, i, j, e)
    ensures i < j <= |ts|
    ensures (j == i + 1 && Leaf(ts[i], e))
            || (i + 1 < j - 1 && ts[i].kind == LPAREN && ts[j - 1].kind == RPAREN && Phrase(0, ts, i + 1, j - 1, e))
  {
  }

  lemma LeafComplete(ts: Stream, i: nat, e: Expr)
    requires i + 1 < |ts| && Leaf(ts[i], e)
    ensures ParsePrimary(From(ts, i)) == Got(e, From(ts, i + 1), true)
  {
    ShiftFrom(ts, i);
  }
}
