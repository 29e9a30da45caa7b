/** The recursive-descent parser of Subset C. */
module Parsing {
  // Types and positions are not kept. Every function of the specification takes the tokens still to
  // be read, which always end in EOF.

  import opened Words
  import opened Ast
  import opened Lexing
  import Decimal

  type Stream = ts: seq<Token> | |ts| > 0 && ts[|ts| - 1].kind == EOF witness [Token(EOF, "")]

  /** What was read, what is left, and whether no error was reported. */
  datatype Got<+T> = Got(value: T, rest: Stream, ok: bool)

  /** Something was read, or there was nothing left to read. */
  predicate Advances(ts: Stream, rest: Stream) {
    |rest| < |ts| || (ts[0].kind == EOF && rest == ts)
  }

  // ------------------------------------------------------------------ tokens

  /** The next token is taken, except at the end. Expecting a token takes it right or wrong. */
  function Shift(ts: Stream): (r: Stream)
    ensures Advances(ts, r)
  {
    if ts[0].kind == EOF then ts else ts[1..]
  }

  function Synchronize(ts: Stream): (r: Stream)
    ensures |r| <= |ts|
  {
    if ts[0].kind == EOF then ts
    else if ts[0].kind == SEMICOLON || ts[0].kind == RBRACE then Shift(ts)
    else Synchronize(Shift(ts))
  }

  /** Past the first semicolon or closing brace, or at the end when there is none before it. */
  lemma {:induction false} SynchronizeMeans(ts: Stream) returns (k: nat)
    ensures k < |ts| && (forall i :: 0 <= i < k ==> ts[i].kind !in {SEMICOLON, RBRACE, EOF})
    ensures ts[k].kind in {SEMICOLON, RBRACE, EOF}
    ensures Synchronize(ts) == if ts[k].kind == EOF then ts[k..] else ts[k + 1..]
    decreases |ts|
  {
    if ts[0].kind in {SEMICOLON, RBRACE, EOF} {
      k := 0;
      assert ts[0..] == ts;
    } else {
      k := SynchronizeMeans(ts[1..]);
      assert forall i :: 0 <= i < k ==> ts[1..][i] == ts[i + 1];
      k := k + 1;
    }
  }

  // ------------------------------------------------------------------ expressions

  /** Precedence: 0 assignment, 1 to 10 binary operators, 11 prefix operators, 12 the rest. */
  function LevelOf(op: BinOp): (p: nat)
    ensures 1 <= p <= 10
  {
    match op
    case LogOr => 1
    case LogAnd => 2
    case BitOr => 3
    case BitXor => 4
    case BitAnd => 5
    case Eq => 6
    case Ne => 6
    case Lt => 7
    case Gt => 7
    case Le => 7
    case Ge => 7
    case Shl => 8
    case Shr => 8
    case Add => 9
    case Sub => 9
    case Mul => 10
    case Div => 10
    case Mod => 10
  }

  function BinaryOf(k: Kind): Option<BinOp> {
    match k
    case OR => Some(LogOr)
    case AND => Some(LogAnd)
    case BITOR => Some(BitOr)
    case BITXOR => Some(BitXor)
    case BITAND => Some(BitAnd)
    case EQ => Some(Eq)
    case NE => Some(Ne)
    case LT => Some(Lt)
    case GT => Some(Gt)
    case LE => Some(Le)
    case GE => Some(Ge)
    case LSHIFT => Some(Shl)
    case RSHIFT => Some(Shr)
    case PLUS => Some(Add)
    case MINUS => Some(Sub)
    case STAR => Some(Mul)
    case SLASH => Some(Div)
    case PERCENT => Some(Mod)
    case _ => None
  }

  function UnaryOf(k: Kind): Option<UnOp> {
    match k
    case NOT => Some(Not)
    case MINUS => Some(Neg)
    case STAR => Some(Deref)
    case BITAND => Some(AddrOf)
    case _ => None
  }

  /** Is this an operator of level `p`? */
  predicate OperatorAt(p: nat, k: Kind) {
    BinaryOf(k).Some? && LevelOf(BinaryOf(k).value) == p
  }

  /** The value of an integer literal; the lexer only makes digits. */
  function IntegerValue(s: string): nat {
    if Decimal.IsDigits(s) then Decimal.Read(s) else 0
  }

  function CharacterValue(s: string): char {
    if s == "" then '\0' else s[0]
  }

  /** The parser for level `p`. */
  function ParseAt(p: nat, ts: Stream): (r: Got<Expr>)
    requires p <= 12
    ensures Advances(ts, r.rest)
    decreases |ts|, 20 - p
  {
    if p == 0 then
      var L := ParseAt(1, ts);
      if L.rest[0].kind == ASSIGN then
        var V := ParseAt(0, Shift(L.rest));
        Got(Assignment(L.value, V.value), V.rest, L.ok && V.ok)
      else L
    else if p <= 10 then Tail(p, ParseAt(p + 1, ts))
    else if p == 11 then
      var op := UnaryOf(ts[0].kind);
      if op.Some? then
        var A := ParseAt(11, Shift(ts));
        A.(value := UnaryOp(op.value, A.value))
      else ParseAt(12, ts)
    else PostfixTail(ParsePrimary(ts))
  }

  /** Operators of level `p`, grouped to the left. */
  function Tail(p: nat, g: Got<Expr>): (r: Got<Expr>)
    requires 1 <= p <= 10
    ensures |r.rest| <= |g.rest| && (g.rest[0].kind == EOF ==> r == g)
    decreases |g.rest|, 0
  {
    if OperatorAt(p, g.rest[0].kind) then
      var R := ParseAt(p + 1, Shift(g.rest));
      Tail(p, Got(BinaryOp(BinaryOf(g.rest[0].kind).value, g.value, R.value), R.rest, g.ok && R.ok))
    else g
  }

  function PostfixTail(g: Got<Expr>): (r: Got<Expr>)
    ensures |r.rest| <= |g.rest| && (g.rest[0].kind == EOF ==> r == g)
    decreases |g.rest|, 0
  {
    if g.rest[0].kind == LBRACKET then
      var I := ParseAt(0, Shift(g.rest));
      PostfixTail(Got(ArrayAccess(g.value, I.value), Shift(I.rest), g.ok && I.ok && I.rest[0].kind == RBRACKET))
    else if g.rest[0].kind == LPAREN then
      var A := ParseArgs(Shift(g.rest));
      var ok := g.ok && A.ok && A.rest[0].kind == RPAREN;
      PostfixTail(if g.value.Identifier? then Got(FunctionCall(g.value.name, A.value), Shift(A.rest), ok)
                  else Got(g.value, Shift(A.rest), false))
    else g
  }

  /** The arguments of a call, up to its closing parenthesis. */
  function ParseArgs(ts: Stream): (r: Got<seq<Expr>>)
    ensures |r.rest| <= |ts|
    decreases |ts|, 21
  {
    if ts[0].kind == RPAREN then Got([], ts, true)
    else
      var E := ParseAt(0, ts);
      ArgsTail(Got([E.value], E.rest, E.ok))
  }

  function ArgsTail(g: Got<seq<Expr>>): (r: Got<seq<Expr>>)
    ensures |r.rest| <= |g.rest|
    decreases |g.rest|, 0
  {
    if g.rest[0].kind == COMMA then
      var E := ParseAt(0, Shift(g.rest));
      ArgsTail(Got(g.value + [E.value], E.rest, g.ok && E.ok))
    else g
  }

  function ParsePrimary(ts: Stream): (r: Got<Expr>)
    ensures Advances(ts, r.rest)
    decreases |ts|, 1
  {
    var t := ts[0];
    match t.kind
    case IDENTIFIER => Got(Identifier(t.value), Shift(ts), true)
    case INTEGER_LITERAL => Got(IntegerLiteral(IntegerValue(t.value)), Shift(ts), true)
    case CHAR_LITERAL => Got(CharLiteral(CharacterValue(t.value)), Shift(ts), true)
    case STRING_LITERAL => Got(StringLiteral(t.value), Shift(ts), true)
    case LPAREN =>
      var E := ParseAt(0, Shift(ts));
      Got(E.value, Shift(E.rest), E.ok && E.rest[0].kind == RPAREN)
    case _ => Got(IntegerLiteral(0), Shift(ts), false)
  }

  // ------------------------------------------------------------------ statements

  function SkipStars(ts: Stream): (r: Stream)
    ensures |r| <= |ts|
  {
    if ts[0].kind == STAR then SkipStars(Shift(ts)) else ts
  }

  /** A variable declaration after its name. */
  function ParseVarRest(name: string, ts: Stream): (r: Got<Stmt>)
    ensures |r.rest| <= |ts|
  {
    var A := ParseSize(ts);
    if A.rest[0].kind == ASSIGN then
      var E := ParseAt(0, Shift(A.rest));
      Got(VarDecl(name, A.value, Some(E.value)), Shift(E.rest), A.ok && E.ok && E.rest[0].kind == SEMICOLON)
    else Got(VarDecl(name, A.value, None), Shift(A.rest), A.ok && A.rest[0].kind == SEMICOLON)
  }

  function ParseSize(ts: Stream): (r: Got<Option<nat>>)
    ensures |r.rest| <= |ts|
  {
    if ts[0].kind != LBRACKET then Got(None, ts, true)
    else
      var t := Shift(ts);
      if t[0].kind == INTEGER_LITERAL then
        Got(Some(IntegerValue(t[0].value)), Shift(Shift(t)), Shift(t)[0].kind == RBRACKET)
      else Got(None, Shift(t), false)
  }

  /** A statement in a place that must have one; a lost one counts as empty. */
  function Kept(s: Option<Stmt>): Stmt {
    if s.Some? then s.value else ExprStmt(None)
  }

  /** An expression unless the next token is `stop`. */
  function ParseUnless(stop: Kind, ts: Stream): (r: Got<Option<Expr>>)
    ensures |r.rest| <= |ts|
  {
    if ts[0].kind == stop then Got(None, ts, true)
    else
      var E := ParseAt(0, ts);
      Got(Some(E.value), E.rest, E.ok)
  }

  /** None when the statement was lost to an error. */
  function ParseStmt(ts: Stream): (r: Got<Option<Stmt>>)
    ensures Advances(ts, r.rest)
    decreases |ts|, 25
  {
    match ts[0].kind
    case INT => ParseLocal(ts)
    case CHAR => ParseLocal(ts)
    case LBRACE =>
      var B := ParseBlock(ts);
      Got(Some(CompoundStmt(B.value)), B.rest, B.ok)
    case IF => ParseIf(ts)
    case WHILE => ParseWhile(ts)
    case FOR => ParseFor(ts)
    case RETURN => ParseReturn(ts)
    case _ => ParseExprStmt(ts)
  }

  function ParseReturn(ts: Stream): (r: Got<Option<Stmt>>)
    requires ts[0].kind == RETURN
    ensures |r.rest| < |ts|
  {
    var V := ParseUnless(SEMICOLON, Shift(ts));
    Got(Some(ReturnStmt(V.value)), Shift(V.rest), V.ok && V.rest[0].kind == SEMICOLON)
  }

  function ParseExprStmt(ts: Stream): (r: Got<Option<Stmt>>)
    ensures Advances(ts, r.rest)
  {
    if ts[0].kind == SEMICOLON then Got(Some(ExprStmt(None)), Shift(ts), true)
    else
      var E := ParseAt(0, ts);
      Got(Some(ExprStmt(Some(E.value))), Shift(E.rest), E.ok && E.rest[0].kind == SEMICOLON)
  }

  function ParseLocal(ts: Stream): (r: Got<Option<Stmt>>)
    requires ts[0].kind != EOF
    ensures |r.rest| < |ts|
  {
    var n := SkipStars(Shift(ts));
    if n[0].kind != IDENTIFIER then Got(None, Synchronize(n), false)
    else
      var V := ParseVarRest(n[0].value, Shift(n));
      Got(Some(V.value), V.rest, V.ok)
  }

  /** A block, from its opening brace, even if that is missing. */
  function ParseBlock(ts: Stream): (r: Got<seq<Stmt>>)
    ensures Advances(ts, r.rest)
    decreases |ts|, 24
  {
    if ts[0].kind == EOF then Got([], ts, false)
    else
      var B := ParseItems(Shift(ts));
      Got(B.value, Shift(B.rest), ts[0].kind == LBRACE && B.ok && B.rest[0].kind == RBRACE)
  }

  function ParseItems(ts: Stream): (r: Got<seq<Stmt>>)
    ensures |r.rest| <= |ts|
    decreases |ts|, 26
  {
    if ts[0].kind == RBRACE || ts[0].kind == EOF then Got([], ts, true)
    else
      var S := ParseStmt(ts);
      var R := ParseItems(S.rest);
      Got((if S.value.Some? then [S.value.value] else []) + R.value, R.rest, S.ok && R.ok)
  }

  function ParseIf(ts: Stream): (r: Got<Option<Stmt>>)
    requires ts[0].kind == IF
    ensures |r.rest| < |ts|
    decreases |ts|, 24
  {
    var t1 := Shift(ts);
    var C := ParseAt(0, Shift(t1));
    var T := ParseStmt(Shift(C.rest));
    var ok := t1[0].kind == LPAREN && C.ok && C.rest[0].kind == RPAREN && T.ok;
    if T.rest[0].kind == ELSE then
      var E := ParseStmt(Shift(T.rest));
      Got(Some(IfStmt(C.value, Kept(T.value), Some(Kept(E.value)))), E.rest, ok && E.ok)
    else Got(Some(IfStmt(C.value, Kept(T.value), None)), T.rest, ok)
  }

  function ParseWhile(ts: Stream): (r: Got<Option<Stmt>>)
    requires ts[0].kind == WHILE
    ensures |r.rest| < |ts|
    decreases |ts|, 24
  {
    var t1 := Shift(ts);
    var C := ParseAt(0, Shift(t1));
    var B := ParseStmt(Shift(C.rest));
    Got(Some(WhileStmt(C.value, Kept(B.value))), B.rest,
        t1[0].kind == LPAREN && C.ok && C.rest[0].kind == RPAREN && B.ok)
  }

  function ParseFor(ts: Stream): (r: Got<Option<Stmt>>)
    requires ts[0].kind == FOR
    ensures |r.rest| < |ts|
    decreases |ts|, 24
  {
    var t1 := Shift(ts);
    var I := ParseUnless(SEMICOLON, Shift(t1));
    var C := ParseUnless(SEMICOLON, Shift(I.rest));
    var N := ParseUnless(RPAREN, Shift(C.rest));
    var B := ParseStmt(Shift(N.rest));
    Got(Some(ForStmt(I.value, C.value, N.value, Kept(B.value))), B.rest,
        t1[0].kind == LPAREN && I.ok && I.rest[0].kind == SEMICOLON && C.ok && C.rest[0].kind == SEMICOLON
        && N.ok && N.rest[0].kind == RPAREN && B.ok)
  }

  // ------------------------------------------------------------------ programs

  datatype Decl = FunctionDecl(f: Function) | Global(v: Stmt)

  predicate IsType(k: Kind) {
    k == INT || k == CHAR || k == VOID
  }

  /** One more parameter, which is only a name here; false when there is none to read. */
  function ParseParam(g: Got<seq<string>>): (r: (Got<seq<string>>, bool))
    ensures |r.0.rest| <= |g.rest| && (r.1 ==> |r.0.rest| < |g.rest|)
  {
    if !IsType(g.rest[0].kind) then (g, false)
    else
      var n := SkipStars(Shift(g.rest));
      if n[0].kind != IDENTIFIER then (Got(g.value, n, false), false)
      else (Got(g.value + [n[0].value], Shift(n), g.ok), true)
  }

  function ParseParams(g: Got<seq<string>>): (r: Got<seq<string>>)
    ensures |r.rest| <= |g.rest|
    decreases |g.rest|
  {
    var (p, more) := ParseParam(g);
    if more && p.rest[0].kind == COMMA then ParseParams(p.(rest := Shift(p.rest))) else p
  }

  function ParseFunction(name: string, ts: Stream): (r: Got<Decl>)
    requires ts[0].kind == LPAREN
    ensures |r.rest| < |ts|
  {
    var open := Shift(ts);
    var P := if open[0].kind == RPAREN then Got([], open, true) else ParseParams(Got([], open, true));
    var after := Shift(P.rest);
    var ok := P.ok && P.rest[0].kind == RPAREN;
    if after[0].kind == SEMICOLON then Got(FunctionDecl(Function(name, [])), Shift(after), ok)
    else
      var B := ParseBlock(after);
      Got(FunctionDecl(Function(name, B.value)), B.rest, ok && B.ok)
  }

  function ParseDecl(ts: Stream): (r: Got<Option<Decl>>)
    ensures |r.rest| <= |ts|
    ensures IsType(ts[0].kind) ==> |r.rest| < |ts|
    ensures !IsType(ts[0].kind) ==> r == Got(None, ts, true)
  {
    if !IsType(ts[0].kind) then Got(None, ts, true)
    else
      var n := SkipStars(Shift(ts));
      if n[0].kind != IDENTIFIER then Got(None, Synchronize(n), false)
      else if Shift(n)[0].kind == LPAREN then
        var F := ParseFunction(n[0].value, Shift(n));
        Got(Some(F.value), F.rest, F.ok)
      else
        var V := ParseVarRest(n[0].value, Shift(n));
        Got(Some(Global(V.value)), V.rest, V.ok)
  }

  /** The whole program; None when the loop over declarations never ends. */
  function ParseProgram(ts: Stream): Option<Got<seq<Decl>>>
    decreases |ts|
  {
    if ts[0].kind == EOF then Some(Got([], ts, true))
    else if !IsType(ts[0].kind) then None
    else
      var D := ParseDecl(ts);
      var R := ParseProgram(D.rest);
      if R.None? then None else Some(Before(D, R.value))
  }

  // ------------------------------------------------------------------ the parser

  /** The parser object. Every method reads from the position on what the specification reads, and
      the position never passes the EOF at the end. */
  class Parser {
    const tokens: Stream
    var pos: nat
    var failed: bool

    ghost predicate Valid()
      reads `pos
    {
      pos < |tokens|
    }

    function Rest(): Stream
      requires Valid()
      reads `pos
    {
      tokens[pos..]
    }

    /** Standing where the specification does, having failed if it did. */
    ghost predicate Stands(rest: Stream, failedBefore: bool, ok: bool)
      reads this
    {
      Valid() && Rest() == rest && failed == (failedBefore || !ok)
    }

    constructor (tokens: Stream)
      ensures this.tokens == tokens && Valid() && Rest() == tokens && !failed
    {
      this.tokens := tokens;
      pos, failed := 0, false;
    }

    function Current(): (t: Token)
      requires Valid()
      reads `pos
      ensures t == Rest()[0]
    {
      tokens[pos]
    }

    predicate Match(k: Kind): (b: bool)
      requires Valid()
      reads `pos
      ensures b <==> Rest()[0].kind == k
    {
      tokens[pos].kind == k
    }

    method Advance()
      requires Valid() && !Match(EOF)
      modifies `pos
      ensures Valid() && Rest() == Shift(old(Rest())) && |Rest()| < old(|Rest()|)
    {
      pos := pos + 1;
    }

    method Expect(k: Kind) returns (t: Token)
      requires Valid() && k != EOF
      modifies this
      ensures Stands(Shift(old(Rest())), old(failed), old(Match(k))) && |Rest()| <= old(|Rest()|)
      ensures t == if old(Match(k)) then old(Current()) else Token(k, "")
    {
      if Match(k) {
        t := Current();
        Advance();
      } else {
        failed := true;
        if !Match(EOF) {
          Advance();
        }
        t := Token(k, "");
      }
    }

    method DoSynchronize()
      requires Valid()
      modifies `pos
      ensures Valid() && Rest() == Synchronize(old(Rest()))
    {
      while !Match(EOF)
        invariant Valid() && Synchronize(Rest()) == Synchronize(old(Rest()))
        decreases |Rest()|
      {
        if Match(SEMICOLON) || Match(RBRACE) {
          Advance();
          return;
        }
        Advance();
      }
    }

    method ParseExpression() returns (e: Expr)
      requires Valid()
      modifies this
      ensures var r := ParseAt(0, old(Rest()));
              e == r.value && Stands(r.rest, old(failed), r.ok)
      decreases |Rest()|, 30
    {
      e := ParseAssignment();
    }

    method ParseAssignment() returns (e: Expr)
      requires Valid()
      modifies this
      ensures var r := ParseAt(0, old(Rest()));
              e == r.value && Stands(r.rest, old(failed), r.ok)
      decreases |Rest()|, 29
    {
      hide ParseAt, Shift, Rest, Current, Match;
      AssignmentUnfolds(Rest());
      e := ParseBinary(1);
      if Match(ASSIGN) {
        Advance();
        var value := ParseAssignment();
        e := Assignment(e, value);
      }
    }

    /** parse_logical_or (level 1) to parse_multiplicative (level 10): one loop a level. */
    method ParseBinary(p: nat) returns (left: Expr)
      requires Valid() && 1 <= p <= 10
      modifies this
      ensures var r := ParseAt(p, old(Rest()));
              left == r.value && Stands(r.rest, old(failed), r.ok)
      decreases |Rest()|, 28 - p, 0
    {
      hide ParseAt, Tail, OperatorAt, Shift, Rest, Current, Match;
      LevelUnfolds(p, Rest());
      left := ParseOperand(p + 1);
      ghost var g := ParseAt(p + 1, old(Rest()));
      while OperatorAt(p, Current().kind)
        invariant Valid() && g == Got(left, Rest(), g.ok) && failed == (old(failed) || !g.ok)
        invariant Tail(p, g) == ParseAt(p, old(Rest())) && |Rest()| <= old(|Rest()|)
        decreases |Rest()|
      {
        TailUnfolds(p, g);
        OperatorIsBinary(p, Current().kind);
        var op := BinaryOf(Current().kind).value;
        Advance();
        ghost var R := ParseAt(p + 1, Rest());
        var right := ParseOperand(p + 1);
        left := BinaryOp(op, left, right);
        g := Got(left, Rest(), g.ok && R.ok);
      }
      TailUnfolds(p, g);
    }

    /** The operands of level `p - 1`. */
    method ParseOperand(p: nat) returns (e: Expr)
      requires Valid() && 2 <= p <= 11
      modifies this
      ensures var r := ParseAt(p, old(Rest()));
              e == r.value && Stands(r.rest, old(failed), r.ok)
      decreases |Rest()|, 28 - p, 1
    {
      if p <= 10 {
        e := ParseBinary(p);
      } else {
        e := ParseUnary();
      }
    }

    method ParseUnary() returns (e: Expr)
      requires Valid()
      modifies this
      ensures var r := ParseAt(11, old(Rest()));
              e == r.value && Stands(r.rest, old(failed), r.ok)
      decreases |Rest()|, 10
    {
      hide ParseAt, Shift, Rest, Current, Match;
      UnaryUnfolds(Rest());
      var op := UnaryOf(Current().kind);
      if op.Some? {
        Advance();
        var operand := ParseUnary();
        e := UnaryOp(op.value, operand);
      } else {
        e := ParsePostfix();
      }
    }

    method ParsePostfix() returns (e: Expr)
      requires Valid()
      modifies this
      ensures var r := ParseAt(12, old(Rest()));
              e == r.value && Stands(r.rest, old(failed), r.ok)
      decreases |Rest()|, 9
    {
      hide ParseAt, PostfixTail, ParsePrimary, Shift, Rest, Current, Match;
      PostfixUnfolds(Rest());
      ghost var g := ParsePrimary(Rest());
      e := DoParsePrimary();
      while Match(LBRACKET) || Match(LPAREN)
        invariant g == Got(e, g.rest, g.ok) && Stands(g.rest, old(failed), g.ok)
        invariant PostfixTail(g) == ParseAt(12, old(Rest())) && |Rest()| <= old(|Rest()|)
        decreases |Rest()|
      {
        if Match(LBRACKET) {
          e, g := ParseIndex(e, g);
        } else {
          e, g := ParseCall(e, g);
        }
      }
      PostfixTailUnfolds(g);
    }

    method ParseIndex(base: Expr, ghost g: Got<Expr>) returns (e: Expr, ghost g': Got<Expr>)
      requires Valid() && Match(LBRACKET) && g == Got(base, Rest(), g.ok) && (g.ok || failed)
      modifies this
      ensures g' == Got(e, g'.rest, g'.ok) && Stands(g'.rest, old(failed), g'.ok) && (g'.ok ==> g.ok)
      ensures PostfixTail(g') == PostfixTail(g) && |Rest()| < old(|Rest()|)
      decreases |Rest()|, 7
    {
      hide ParseAt, PostfixTail, Shift, Rest, Current, Match;
      PostfixTailUnfolds(g);
      Advance();
      ghost var I := ParseAt(0, Rest());
      var index := ParseExpression();
      var _ := Expect(RBRACKET);
      e := ArrayAccess(base, index);
      g' := Got(e, Rest(), g.ok && I.ok && I.rest[0].kind == RBRACKET);
    }

    /** The callee must be a name; the arguments of anything else are dropped. */
    method ParseCall(callee: Expr, ghost g: Got<Expr>) returns (e: Expr, ghost g': Got<Expr>)
      requires Valid() && Match(LPAREN) && g == Got(callee, Rest(), g.ok) && (g.ok || failed)
      modifies this
      ensures g' == Got(e, g'.rest, g'.ok) && Stands(g'.rest, old(failed), g'.ok) && (g'.ok ==> g.ok)
      ensures PostfixTail(g') == PostfixTail(g) && |Rest()| < old(|Rest()|)
      decreases |Rest()|, 7
    {
      hide ParseAt, PostfixTail, ParseArgs, Shift, Rest, Current, Match;
      PostfixTailUnfolds(g);
      Advance();
      ghost var A := ParseArgs(Rest());
      var args := ParseArguments();
      var _ := Expect(RPAREN);
      if callee.Identifier? {
        e := FunctionCall(callee.name, args);
        g' := Got(e, Rest(), g.ok && A.ok && A.rest[0].kind == RPAREN);
      } else {
        failed := true;
        e := callee;
        g' := Got(e, Rest(), false);
      }
    }

    /** Nothing before a closing parenthesis, else parse_arg_list. */
    method ParseArguments() returns (args: seq<Expr>)
      requires Valid()
      modifies this
      ensures var r := ParseArgs(old(Rest()));
              args == r.value && Stands(r.rest, old(failed), r.ok)
      decreases |Rest()|, 32
    {
      hide ParseAt, ArgsTail, ParseArgs, Shift, Rest, Current, Match;
      ArgsUnfold(Rest());
      if Match(RPAREN) {
        args := [];
      } else {
        args := ParseArgList();
      }
    }

    method ParseArgList() returns (args: seq<Expr>)
      requires Valid()
      modifies this
      ensures var E := ParseAt(0, old(Rest()));
              var r := ArgsTail(Got([E.value], E.rest, E.ok));
              args == r.value && Stands(r.rest, old(failed), r.ok)
      decreases |Rest()|, 31
    {
      hide ParseAt, ArgsTail, Shift, Rest, Current, Match;
      ghost var E := ParseAt(0, Rest());
      var first := ParseExpression();
      args := [first];
      ghost var g := Got(args, E.rest, E.ok);
      while Match(COMMA)
        invariant g == Got(args, g.rest, g.ok) && Stands(g.rest, old(failed), g.ok)
        invariant ArgsTail(g) == ArgsTail(Got([E.value], E.rest, E.ok)) && |Rest()| <= old(|Rest()|)
        decreases |Rest()|
      {
        ArgsTailUnfolds(g);
        Advance();
        ghost var N := ParseAt(0, Rest());
        var next := ParseExpression();
        args := args + [next];
        g := Got(args, N.rest, g.ok && N.ok);
      }
      ArgsTailUnfolds(g);
    }

    method DoParsePrimary() returns (e: Expr)
      requires Valid()
      modifies this
      ensures var r := ParsePrimary(old(Rest()));
              e == r.value && Stands(r.rest, old(failed), r.ok)
      decreases |Rest()|, 8
    {
      hide ParseAt, ParsePrimary, Rest, Current, Match;
      PrimaryUnfolds(Rest());
      var t := Current();
      if Match(IDENTIFIER) {
        Advance();
        return Identifier(t.value);
      }
      if Match(INTEGER_LITERAL) {
        Advance();
        return IntegerLiteral(IntegerValue(t.value));
      }
      if Match(CHAR_LITERAL) {
        Advance();
        return CharLiteral(CharacterValue(t.value));
      }
      if Match(STRING_LITERAL) {
        Advance();
        return StringLiteral(t.value);
      }
      if Match(LPAREN) {
        Advance();
        e := ParseExpression();
        var _ := Expect(RPAREN);
        return;
      }
      failed := true;
      if !Match(EOF) {
        Advance();
      }
      e := IntegerLiteral(0);
    }

    method SkipType()
      requires Valid() && !Match(EOF)
      modifies `pos
      ensures Valid() && Rest() == SkipStars(Shift(old(Rest()))) && |Rest()| < old(|Rest()|)
    {
      Advance();
      while Match(STAR)
        invariant Valid() && SkipStars(Rest()) == SkipStars(Shift(old(Rest()))) && |Rest()| < old(|Rest()|)
        decreases |Rest()|
      {
        Advance();
      }
    }

    method DoParseVarRest(name: string) returns (v: Stmt)
      requires Valid()
      modifies this
      ensures var r := ParseVarRest(name, old(Rest()));
              v == r.value && Stands(r.rest, old(failed), r.ok)
    {
      hide ParseAt, Rest, Current, Match;
      var size := DoParseSize();
      var initializer := None;
      if Match(ASSIGN) {
        Advance();
        var e := ParseExpression();
        initializer := Some(e);
      }
      var _ := Expect(SEMICOLON);
      v := VarDecl(name, size, initializer);
    }

    method DoParseSize() returns (size: Option<nat>)
      requires Valid()
      modifies this
      ensures var r := ParseSize(old(Rest()));
              size == r.value && Stands(r.rest, old(failed), r.ok)
    {
      hide Shift, IntegerValue, Rest, Current, Match;
      size := None;
      if Match(LBRACKET) {
        Advance();
        if !Match(INTEGER_LITERAL) {
          failed := true;
        } else {
          size := Some(IntegerValue(Current().value));
          Advance();
        }
        var _ := Expect(RBRACKET);
      }
    }

    method DoParseUnless(stop: Kind) returns (e: Option<Expr>)
      requires Valid()
      modifies this
      ensures var r := ParseUnless(stop, old(Rest()));
              e == r.value && Stands(r.rest, old(failed), r.ok)
    {
      hide ParseAt, Shift, Rest, Current, Match;
      e := None;
      if !Match(stop) {
        var v := ParseExpression();
        e := Some(v);
      }
    }

    method ParseStatement() returns (s: Option<Stmt>)
      requires Valid()
      modifies this
      ensures var r := ParseStmt(old(Rest()));
              s == r.value && Stands(r.rest, old(failed), r.ok)
      decreases |Rest()|, 25
    {
      hide ParseStmt, ParseLocal, ParseBlock, ParseIf, ParseWhile, ParseFor, ParseReturn, ParseExprStmt, Rest, Current,
        Match;
      StatementUnfolds(Rest());
      if Match(INT) || Match(CHAR) {
        s := DoParseLocal();
      } else if Match(LBRACE) {
        var ss := ParseCompound();
        s := Some(CompoundStmt(ss));
      } else if Match(IF) {
        s := DoParseIf();
      } else if Match(WHILE) {
        s := DoParseWhile();
      } else if Match(FOR) {
        s := DoParseFor();
      } else if Match(RETURN) {
        s := DoParseReturn();
      } else {
        s := DoParseExprStmt();
      }
    }

    method DoParseReturn() returns (s: Option<Stmt>)
      requires Valid() && Match(RETURN)
      modifies this
      ensures var r := ParseReturn(old(Rest()));
              s == r.value && Stands(r.rest, old(failed), r.ok)
    {
      hide ParseUnless, Shift, Rest, Current, Match;
      Advance();
      var v := DoParseUnless(SEMICOLON);
      var _ := Expect(SEMICOLON);
      s := Some(ReturnStmt(v));
    }

    method DoParseExprStmt() returns (s: Option<Stmt>)
      requires Valid()
      modifies this
      ensures var r := ParseExprStmt(old(Rest()));
              s == r.value && Stands(r.rest, old(failed), r.ok)
    {
      hide ParseAt, Rest, Current, Match;
      if Match(SEMICOLON) {
        Advance();
        return Some(ExprStmt(None));
      }
      var e := ParseExpression();
      var _ := Expect(SEMICOLON);
      s := Some(ExprStmt(Some(e)));
    }

    method DoParseLocal() returns (s: Option<Stmt>)
      requires Valid() && !Match(EOF)
      modifies this
      ensures var r := ParseLocal(old(Rest()));
              s == r.value && Stands(r.rest, old(failed), r.ok)
    {
      hide ParseVarRest, SkipStars, Synchronize, Rest, Current, Match;
      SkipType();
      if !Match(IDENTIFIER) {
        failed := true;
        DoSynchronize();
        return None;
      }
      var name := Current().value;
      Advance();
      var v := DoParseVarRest(name);
      s := Some(v);
    }

    method ParseCompound() returns (ss: seq<Stmt>)
      requires Valid()
      modifies this
      ensures var r := ParseBlock(old(Rest()));
              ss == r.value && Stands(r.rest, old(failed), r.ok)
      decreases |Rest()|, 24
    {
      hide ParseStmt, ParseBlock, ParseItems, Rest, Current, Match, ItemsFrom;
      BlockUnfolds(Rest());
      ghost var start := Rest();
      var _ := Expect(LBRACE);
      ghost var (inner, bad) := (Rest(), failed);
      ss := [];
      ghost var ok := true;
      ItemsStart(ParseItems(inner));
      while !Match(RBRACE) && !Match(EOF)
        invariant Valid() && failed == (bad || !ok)
        invariant if start[0].kind == EOF then Rest() == start else |Rest()| < old(|Rest()|)
        invariant ItemsFrom(ParseItems(inner), ss, ok, ParseItems(Rest()))
        decreases |Rest()|
      {
        ItemsNext(ParseItems(inner), ss, ok, Rest());
        ghost var S := ParseStmt(Rest());
        var s := ParseStatement();
        if s.Some? {
          ss := ss + [s.value];
        }
        ok := ok && S.ok;
      }
      ItemsEnd(ParseItems(inner), ss, ok, Rest());
      ItemsUnfold(inner);
      var _ := Expect(RBRACE);
    }

    method DoParseIf() returns (s: Option<Stmt>)
      requires Valid() && Match(IF)
      modifies this
      ensures var r := ParseIf(old(Rest()));
              s == r.value && Stands(r.rest, old(failed), r.ok)
      decreases |Rest()|, 24
    {
      hide ParseAt, ParseStmt, ParseIf, Shift, Rest, Current, Match;
      IfUnfolds(Rest());
      Advance();
      var c := DoParseCondition();
      var thn := ParseStatement();
      var els := DoParseElse();
      s := Some(IfStmt(c, Kept(thn), els));
    }

    method DoParseCondition() returns (c: Expr)
      requires Valid()
      modifies this
      ensures var C := ParseAt(0, Shift(old(Rest())));
              && c == C.value
              && Stands(Shift(C.rest), old(failed), old(Match(LPAREN)) && C.ok && C.rest[0].kind == RPAREN)
      decreases |Rest()|, 31
    {
      hide ParseAt, Shift, Rest, Current;
      var _ := Expect(LPAREN);
      c := ParseExpression();
      var _ := Expect(RPAREN);
    }

    method DoParseElse() returns (els: Option<Stmt>)
      requires Valid()
      modifies this
      ensures var ts := old(Rest());
              if ts[0].kind == ELSE then
                var E := ParseStmt(Shift(ts));
                els == Some(Kept(E.value)) && Stands(E.rest, old(failed), E.ok)
              else els == None && Stands(ts, old(failed), true)
      decreases |Rest()|, 27
    {
      hide ParseStmt, Shift, Rest, Current, Match;
      els := None;
      if Match(ELSE) {
        Advance();
        var e := ParseStatement();
        els := Some(Kept(e));
      }
    }

    method DoParseWhile() returns (s: Option<Stmt>)
      requires Valid() && Match(WHILE)
      modifies this
      ensures var r := ParseWhile(old(Rest()));
              s == r.value && Stands(r.rest, old(failed), r.ok)
      decreases |Rest()|, 24
    {
      hide ParseAt, ParseStmt, ParseWhile, Shift, Rest, Current, Match;
      WhileUnfolds(Rest());
      Advance();
      var c := DoParseCondition();
      var body := ParseStatement();
      s := Some(WhileStmt(c, Kept(body)));
    }

    method DoParseFor() returns (s: Option<Stmt>)
      requires Valid() && Match(FOR)
      modifies this
      ensures var r := ParseFor(old(Rest()));
              s == r.value && Stands(r.rest, old(failed), r.ok)
      decreases |Rest()|, 24
    {
      hide ParseUnless, ParseStmt, ParseFor, Shift, Rest, Current, Match, Kept, Advances;
      ForUnfolds(Rest());
      Advance();
      var _ := Expect(LPAREN);
      ghost var I := ParseUnless(SEMICOLON, Rest());
      var init := DoParseUnless(SEMICOLON);
      var _ := Expect(SEMICOLON);
      assert Rest() == Shift(I.rest);
      ghost var C := ParseUnless(SEMICOLON, Rest());
      var test := DoParseUnless(SEMICOLON);
      var _ := Expect(SEMICOLON);
      assert Rest() == Shift(C.rest);
      ghost var N := ParseUnless(RPAREN, Rest());
      var increment := DoParseUnless(RPAREN);
      var _ := Expect(RPAREN);
      assert Rest() == Shift(N.rest);
      var body := ParseStatement();
      s := Some(ForStmt(init, test, increment, Kept(body)));
    }

    method ParseDeclaration() returns (d: Option<Decl>)
      requires Valid()
      modifies this
      ensures var r := ParseDecl(old(Rest()));
              d == r.value && Stands(r.rest, old(failed), r.ok)
    {
      hide ParseFunction, ParseVarRest, SkipStars, Synchronize, Shift, Rest, Current, Match;
      if !IsType(Current().kind) {
        return None;
      }
      SkipType();
      if !Match(IDENTIFIER) {
        failed := true;
        DoSynchronize();
        return None;
      }
      var name := Current().value;
      Advance();
      if Match(LPAREN) {
        var f := DoParseFunction(name);
        d := Some(f);
      } else {
        var v := DoParseVarRest(name);
        d := Some(Global(v));
      }
    }

    method DoParseFunction(name: string) returns (d: Decl)
      requires Valid() && Match(LPAREN)
      modifies this
      ensures var r := ParseFunction(name, old(Rest()));
              d == r.value && Stands(r.rest, old(failed), r.ok)
    {
      hide ParseParams, ParseBlock, Shift, Rest, Current, Match;
      var _ := Expect(LPAREN);
      var _ := DoParseOptionalParams();
      var _ := Expect(RPAREN);
      d := DoParseBody(name);
    }

    method DoParseOptionalParams() returns (params: seq<string>)
      requires Valid()
      modifies this
      ensures var ts := old(Rest());
              var r := if ts[0].kind == RPAREN then Got([], ts, true) else ParseParams(Got([], ts, true));
              params == r.value && Stands(r.rest, old(failed), r.ok)
    {
      hide ParseParams, Shift, Rest, Current, Match;
      params := [];
      if !Match(RPAREN) {
        params := DoParseParams();
      }
    }

    /** Nothing but a semicolon for a prototype. */
    method DoParseBody(name: string) returns (d: Decl)
      requires Valid()
      modifies this
      ensures var ts := old(Rest());
              if ts[0].kind == SEMICOLON then d == FunctionDecl(Function(name, []))
                  && Stands(Shift(ts), old(failed), true)
              else
                var B := ParseBlock(ts);
                d == FunctionDecl(Function(name, B.value)) && Stands(B.rest, old(failed), B.ok)
    {
      hide ParseBlock, Shift, Rest, Current, Match;
      if Match(SEMICOLON) {
        Advance();
        return FunctionDecl(Function(name, []));
      }
      var body := ParseCompound();
      d := FunctionDecl(Function(name, body));
    }

    method DoParseParams() returns (params: seq<string>)
      requires Valid()
      modifies this
      ensures var r := ParseParams(Got([], old(Rest()), true));
              params == r.value && Stands(r.rest, old(failed), r.ok)
    {
      hide ParseParam, Shift, Rest, Current, Match, ParseParams;
      ghost var g := Got([], Rest(), true);
      ghost var whole := ParseParams(g);
      ParamsUnfold(g);
      var more;
      params, more, g := DoParseParam([], g);
      while more && Match(COMMA)
        invariant g == Got(params, g.rest, g.ok) && Stands(g.rest, old(failed), g.ok)
        invariant whole == if more && g.rest[0].kind == COMMA then ParseParams(g.(rest := Shift(g.rest))) else g
        decreases |Rest()|
      {
        Advance();
        g := g.(rest := Rest());
        ParamsUnfold(g);
        params, more, g := DoParseParam(params, g);
      }
    }

    method DoParseParam(params: seq<string>, ghost g: Got<seq<string>>)
        returns (r: seq<string>, more: bool, ghost g': Got<seq<string>>)
      requires Valid() && g == Got(params, Rest(), g.ok) && (g.ok || failed)
      modifies this
      ensures (g', more) == ParseParam(g) && r == g'.value && Stands(g'.rest, old(failed), g'.ok)
      ensures |Rest()| <= old(|Rest()|) && (g'.ok ==> g.ok)
    {
      hide SkipStars, Shift, Rest, Current, Match;
      g' := ParseParam(g).0;
      r, more := params, false;
      if IsType(Current().kind) {
        SkipType();
        if !Match(IDENTIFIER) {
          failed := true;
        } else {
          r, more := r + [Current().value], true;
          Advance();
        }
      }
    }

    /** The declarations of a whole program; nothing if any error was reported. The loop never ends
        (`ends` is false) when a turn leaves the parser where it was: without a type keyword, every
        further turn does the same. */
    method Parse() returns (program: Option<seq<Decl>>, ends: bool)
      requires Valid()
      modifies this
      ensures ends <==> ParseProgram(old(Rest())).Some?
      ensures ends ==>
                var r := ParseProgram(old(Rest())).value;
                && Stands(r.rest, old(failed), r.ok)
                && program == if failed then None else Some(r.value)
      ensures !ends ==> Valid() && !Match(EOF) && ParseDecl(Rest()) == Got(None, Rest(), true)
    {
      hide ParseProgram, ParseDecl, Shift, Current, Match, IsType;
      var ds := [];
      program, ends := None, true;
      ghost var ok := true;
      ghost var whole := ParseProgram(Rest());
      assert whole.Some? ==> [] + whole.value.value == whole.value.value;
      while !Match(EOF)
        invariant Valid() && failed == (old(failed) || !ok)
        invariant ProgramFrom(whole, ds, ok, ParseProgram(Rest()))
        decreases |Rest()|
      {
        ghost var ts := Rest();
        ProgramUnfolds(ts);
        ghost var D := ParseDecl(ts);
        ghost var R := ParseProgram(D.rest);
        var start := pos;
        var d := ParseDeclaration();
        if pos == start {
          assert !IsType(ts[0].kind);
          return None, false;
        }
        assert |D.rest| != |ts|;
        assert ParseProgram(ts) == if R.None? then None else Some(Before(D, R.value));
        ProgramFromNext(whole, ds, ok, D, R);
        if d.Some? {
          ds := ds + [d.value];
        }
        ok := ok && D.ok;
      }
      ProgramUnfolds(Rest());
      assert ds + [] == ds;
      program := if failed then None else Some(ds);
    }
  }

  /** Having read `ds`, reading on gives the rest of the whole program. */
  ghost predicate ProgramFrom(whole: Option<Got<seq<Decl>>>, ds: seq<Decl>, ok: bool, rest: Option<Got<seq<Decl>>>) {
    && (whole.Some? <==> rest.Some?)
    && (whole.Some? ==> whole.value == Got(ds + rest.value.value, rest.value.rest, ok && rest.value.ok))
  }

  /** Having read `ss`, reading on gives the rest of the whole block. */
  ghost predicate ItemsFrom(whole: Got<seq<Stmt>>, ss: seq<Stmt>, ok: bool, rest: Got<seq<Stmt>>) {
    whole == Got(ss + rest.value, rest.rest, ok && rest.ok)
  }

  lemma ItemsStart(g: Got<seq<Stmt>>)
    ensures ItemsFrom(g, [], true, g)
  {
    assert [] + g.value == g.value;
  }

  lemma ItemsNext(whole: Got<seq<Stmt>>, ss: seq<Stmt>, ok: bool, ts: Stream)
    requires ItemsFrom(whole, ss, ok, ParseItems(ts)) && ts[0].kind != RBRACE && ts[0].kind != EOF
    ensures var S := ParseStmt(ts);
            ItemsFrom(whole, if S.value.Some? then ss + [S.value.value] else ss, ok && S.ok, ParseItems(S.rest))
  {
    hide ParseStmt, ParseItems;
    ItemsUnfold(ts);
    var S := ParseStmt(ts);
    var R := ParseItems(S.rest);
    assert [] + R.value == R.value;
    assert S.value.Some? ==> ss + ([S.value.value] + R.value) == (ss + [S.value.value]) + R.value;
  }

  lemma ItemsEnd(whole: Got<seq<Stmt>>, ss: seq<Stmt>, ok: bool, ts: Stream)
    requires ItemsFrom(whole, ss, ok, ParseItems(ts)) && (ts[0].kind == RBRACE || ts[0].kind == EOF)
    ensures whole == Got(ss, ts, ok)
  {
    hide ParseItems;
    ItemsUnfold(ts);
    assert ss + [] == ss;
  }

  // ------------------------------------------------------------------ one step of each function

  lemma AssignmentUnfolds(ts: Stream)
    ensures var L := ParseAt(1, ts);
            ParseAt(0, ts) == if L.rest[0].kind == ASSIGN then
                                var V := ParseAt(0, Shift(L.rest));
                                Got(Assignment(L.value, V.value), V.rest, L.ok && V.ok)
                              else L
  {
  }

  lemma LevelUnfolds(p: nat, ts: Stream)
    requires 1 <= p <= 10
    ensures ParseAt(p, ts) == Tail(p, ParseAt(p + 1, ts))
  {
  }

  lemma TailUnfolds(p: nat, g: Got<Expr>)
    requires 1 <= p <= 10
    ensures Tail(p, g) == if OperatorAt(p, g.rest[0].kind) then
                            var R := ParseAt(p + 1, Shift(g.rest));
                            Tail(p, Got(BinaryOp(BinaryOf(g.rest[0].kind).value, g.value, R.value), R.rest,
                                        g.ok && R.ok))
                          else g
  {
  }

  lemma OperatorIsBinary(p: nat, k: Kind)
    requires OperatorAt(p, k)
    ensures BinaryOf(k).Some? && k != EOF
  {
  }

  lemma UnaryUnfolds(ts: Stream)
    ensures var op := UnaryOf(ts[0].kind);
            ParseAt(11, ts) == if op.Some? then
                                 var A := ParseAt(11, Shift(ts));
                                 A.(value := UnaryOp(op.value, A.value))
                               else ParseAt(12, ts)
    ensures UnaryOf(ts[0].kind).Some? ==> ts[0].kind != EOF
  {
  }

  lemma PostfixUnfolds(ts: Stream)
    ensures ParseAt(12, ts) == PostfixTail(ParsePrimary(ts))
  {
  }

  lemma PostfixTailUnfolds(g: Got<Expr>)
    ensures PostfixTail(g)
            == if g.rest[0].kind == LBRACKET then
                 var I := ParseAt(0, Shift(g.rest));
                 PostfixTail(Got(ArrayAccess(g.value, I.value), Shift(I.rest), g.ok && I.ok
                     && I.rest[0].kind == RBRACKET))
               else if g.rest[0].kind == LPAREN then
                 var A := ParseArgs(Shift(g.rest));
                 var ok := g.ok && A.ok && A.rest[0].kind == RPAREN;
                 PostfixTail(if g.value.Identifier? then Got(FunctionCall(g.value.name, A.value), Shift(A.rest), ok)
                             else Got(g.value, Shift(A.rest), false))
               else g
  {
  }

  lemma ArgsUnfold(ts: Stream)
    ensures ParseArgs(ts) == if ts[0].kind == RPAREN then Got([], ts, true)
                             else
                               var E := ParseAt(0, ts);
                               ArgsTail(Got([E.value], E.rest, E.ok))
  {
  }

  lemma ArgsTailUnfolds(g: Got<seq<Expr>>)
    ensures ArgsTail(g) == if g.rest[0].kind == COMMA then
                             var E := ParseAt(0, Shift(g.rest));
                             ArgsTail(Got(g.value + [E.value], E.rest, g.ok && E.ok))
                           else g
  {
  }

  lemma PrimaryUnfolds(ts: Stream)
    ensures var t := ts[0];
            ParsePrimary(ts) == match t.kind
            case IDENTIFIER => Got(Identifier(t.value), Shift(ts), true)
            case INTEGER_LITERAL => Got(IntegerLiteral(IntegerValue(t.value)), Shift(ts), true)
            case CHAR_LITERAL => Got(CharLiteral(CharacterValue(t.value)), Shift(ts), true)
            case STRING_LITERAL => Got(StringLiteral(t.value), Shift(ts), true)
            case LPAREN =>
              var E := ParseAt(0, Shift(ts));
              Got(E.value, Shift(E.rest), E.ok && E.rest[0].kind == RPAREN)
            case _ => Got(IntegerLiteral(0), Shift(ts), false)
  {
  }

  lemma StatementUnfolds(ts: Stream)
    ensures ParseStmt(ts) == match ts[0].kind
            case INT => ParseLocal(ts)
            case CHAR => ParseLocal(ts)
            case LBRACE =>
              var B := ParseBlock(ts);
              Got(Some(CompoundStmt(B.value)), B.rest, B.ok)
            case IF => ParseIf(ts)
            case WHILE => ParseWhile(ts)
            case FOR => ParseFor(ts)
            case RETURN => ParseReturn(ts)
            case _ => ParseExprStmt(ts)
  {
  }

  lemma BlockUnfolds(ts: Stream)
    ensures ParseBlock(ts) == if ts[0].kind == EOF then Got([], ts, false)
                              else
                                var B := ParseItems(Shift(ts));
                                Got(B.value, Shift(B.rest), ts[0].kind == LBRACE && B.ok && B.rest[0].kind == RBRACE)
  {
  }

  lemma ItemsUnfold(ts: Stream)
    ensures ParseItems(ts)
            == if ts[0].kind == RBRACE || ts[0].kind == EOF then Got([], ts, true)
               else
                 var S := ParseStmt(ts);
                 var R := ParseItems(S.rest);
                 Got((if S.value.Some? then [S.value.value] else []) + R.value, R.rest, S.ok && R.ok)
  {
  }

  lemma IfUnfolds(ts: Stream)
    requires ts[0].kind == IF
    ensures var t1 := Shift(ts);
            var C := ParseAt(0, Shift(t1));
            var T := ParseStmt(Shift(C.rest));
            var ok := t1[0].kind == LPAREN && C.ok && C.rest[0].kind == RPAREN && T.ok;
            ParseIf(ts) == if T.rest[0].kind == ELSE then
                             var E := ParseStmt(Shift(T.rest));
                             Got(Some(IfStmt(C.value, Kept(T.value), Some(Kept(E.value)))), E.rest, ok && E.ok)
                           else Got(Some(IfStmt(C.value, Kept(T.value), None)), T.rest, ok)
  {
  }

  lemma WhileUnfolds(ts: Stream)
    requires ts[0].kind == WHILE
    ensures var t1 := Shift(ts);
            var C := ParseAt(0, Shift(t1));
            var B := ParseStmt(Shift(C.rest));
            ParseWhile(ts) == Got(Some(WhileStmt(C.value, Kept(B.value))), B.rest,
                                  t1[0].kind == LPAREN && C.ok && C.rest[0].kind == RPAREN && B.ok)
  {
  }

  lemma ForUnfolds(ts: Stream)
    requires ts[0].kind == FOR
    ensures var t1 := Shift(ts);
            var I := ParseUnless(SEMICOLON, Shift(t1));
            var C := ParseUnless(SEMICOLON, Shift(I.rest));
            var N := ParseUnless(RPAREN, Shift(C.rest));
            var B := ParseStmt(Shift(N.rest));
            ParseFor(ts) == Got(Some(ForStmt(I.value, C.value, N.value, Kept(B.value))), B.rest,
                                t1[0].kind == LPAREN && I.ok && I.rest[0].kind == SEMICOLON && C.ok
                                && C.rest[0].kind == SEMICOLON && N.ok && N.rest[0].kind == RPAREN && B.ok)
  {
  }

  lemma ParamsUnfold(g: Got<seq<string>>)
    ensures var (p, more) := ParseParam(g);
            ParseParams(g) == if more && p.rest[0].kind == COMMA then ParseParams(p.(rest := Shift(p.rest))) else p
  {
  }

  lemma ProgramFromNext(whole: Option<Got<seq<Decl>>>, ds: seq<Decl>, ok: bool, D: Got<Option<Decl>>,
                        R: Option<Got<seq<Decl>>>)
    requires ProgramFrom(whole, ds, ok, if R.None? then None else Some(Before(D, R.value)))
    ensures ProgramFrom(whole, if D.value.Some? then ds + [D.value.value] else ds, ok && D.ok, R)
  {
    if R.Some? {
      assert ds + ([] + R.value.value) == ds + R.value.value;
      assert D.value.Some? ==> ds + ([D.value.value] + R.value.value) == ds + [D.value.value] + R.value.value;
    }
  }

  lemma ProgramUnfolds(ts: Stream)
    ensures ts[0].kind == EOF ==> ParseProgram(ts) == Some(Got([], ts, true))
    ensures ts[0].kind != EOF && !IsType(ts[0].kind) ==> ParseProgram(ts).None?
    ensures ts[0].kind != EOF && IsType(ts[0].kind) ==>
              var D := ParseDecl(ts);
              var R := ParseProgram(D.rest);
              ParseProgram(ts) == if R.None? then None else Some(Before(D, R.value))
  {
  }

  /** A declaration, if one was read, before the rest of the program. */
  function Before(D: Got<Option<Decl>>, R: Got<seq<Decl>>): Got<seq<Decl>> {
    Got((if D.value.Some? then [D.value.value] else []) + R.value, R.rest, D.ok && R.ok)
  }
}
