/** Expressions printed and read back. */
module Printing {
  // As few parentheses are printed as the grammar allows. Lexing and parsing the text gives the tree
  // back and leaves what follows unread.

  import opened Words
  import opened Ast
  import opened Lexing
  import opened Parsing
  import Decimal

  // ------------------------------------------------------------------ printing

  function Spelling(k: Kind): string {
    match k
    case INT => "int"
    case CHAR => "char"
    case IF => "if"
    case ELSE => "else"
    case WHILE => "while"
    case FOR => "for"
    case RETURN => "return"
    case VOID => "void"
    case PLUS => "+"
    case MINUS => "-"
    case STAR => "*"
    case SLASH => "/"
    case PERCENT => "%"
    case EQ => "=="
    case NE => "!="
    case LT => "<"
    case GT => ">"
    case LE => "<="
    case GE => ">="
    case AND => "&&"
    case OR => "||"
    case NOT => "!"
    case BITAND => "&"
    case BITOR => "|"
    case BITXOR => "^"
    case LSHIFT => "<<"
    case RSHIFT => ">>"
    case ASSIGN => "="
    case LPAREN => "("
    case RPAREN => ")"
    case LBRACE => "{"
    case RBRACE => "}"
    case LBRACKET => "["
    case RBRACKET => "]"
    case SEMICOLON => ";"
    case COMMA => ","
    case _ => ""
  }

  /** The token of a keyword, an operator or a delimiter. */
  function Tok(k: Kind): Token {
    Token(k, Spelling(k))
  }

  function KindOf(op: BinOp): Kind {
    match op
    case LogOr => OR
    case LogAnd => AND
    case BitOr => BITOR
    case BitXor => BITXOR
    case BitAnd => BITAND
    case Eq => EQ
    case Ne => NE
    case Lt => LT
    case Gt => GT
    case Le => LE
    case Ge => GE
    case Shl => LSHIFT
    case Shr => RSHIFT
    case Add => PLUS
    case Sub => MINUS
    case Mul => STAR
    case Div => SLASH
    case Mod => PERCENT
  }

  function KindOfUnary(op: UnOp): Kind {
    match op
    case Not => NOT
    case Neg => MINUS
    case Deref => STAR
    case AddrOf => BITAND
  }

  /** The subsection of section 6.5 of ISO C99 that defines the operator. The later, the looser the
      operator binds. */
  function Subsection(op: BinOp): nat {
    match op
    case Mul => 5
    case Div => 5
    case Mod => 5
    case Add => 6
    case Sub => 6
    case Shl => 7
    case Shr => 7
    case Lt => 8
    case Gt => 8
    case Le => 8
    case Ge => 8
    case Eq => 9
    case Ne => 9
    case BitAnd => 10
    case BitXor => 11
    case BitOr => 12
    case LogAnd => 13
    case LogOr => 14
  }

  function Precedence(op: BinOp): (p: nat)
    ensures 1 <= p <= 10
  {
    15 - Subsection(op)
  }

  /** The parser's levels are those of the standard. */
  lemma LevelsAreStandard(op: BinOp)
    ensures LevelOf(op) == Precedence(op)
  {
  }

  /** The level an expression belongs to. */
  function LevelOfExpr(e: Expr): (p: nat)
    ensures p <= 12
  {
    match e
    case Assignment(_, _) => 0
    case BinaryOp(op, _, _) => Precedence(op)
    case UnaryOp(_, _) => 11
    case _ => 12
  }

  /** An expression where level `p` is wanted, in parentheses only if its own level is lower. */
  function Print(e: Expr, p: nat): seq<Token>
    decreases e, 1
  {
    if LevelOfExpr(e) < p then [Tok(LPAREN)] + Bare(e) + [Tok(RPAREN)] else Bare(e)
  }

  function Bare(e: Expr): seq<Token>
    decreases e, 0
  {
    match e
    case Identifier(x) => [Token(IDENTIFIER, x)]
    case IntegerLiteral(n) => [Token(INTEGER_LITERAL, Decimal.Show(n))]
    case CharLiteral(c) => [Token(CHAR_LITERAL, [c])]
    case StringLiteral(s) => [Token(STRING_LITERAL, s)]
    case BinaryOp(op, l, r) => Print(l, Precedence(op)) + [Tok(KindOf(op))] + Print(r, Precedence(op) + 1)
    case UnaryOp(op, a) => [Tok(KindOfUnary(op))] + Print(a, 11)
    case Assignment(t, v) => Print(t, 1) + [Tok(ASSIGN)] + Print(v, 0)
    case ArrayAccess(a, i) => Print(a, 12) + [Tok(LBRACKET)] + Print(i, 0) + [Tok(RBRACKET)]
    case FunctionCall(f, args) =>
      [Token(IDENTIFIER, f), Tok(LPAREN)] + (if args == [] then [] else Print(args[0], 0) + PrintMore(args[1..]))
      + [Tok(RPAREN)]
  }

  function PrintMore(es: seq<Expr>): seq<Token>
    decreases es, 0
  {
    if es == [] then [] else [Tok(COMMA)] + Print(es[0], 0) + PrintMore(es[1..])
  }

  /** Letters, digits and the underscore (section 6.4.2.1 of ISO C99). */
  predicate NameChar(c: char) {
    'a' <= c <= 'z' || 'A' <= c <= 'Z' || '0' <= c <= '9' || c == '_'
  }

  /** An identifier: it does not start with a digit and is no keyword. */
  predicate ValidName(x: string) {
    && x != "" && !('0' <= x[0] <= '9') && (forall i :: 0 <= i < |x| ==> NameChar(x[i]))
    && forall k :: Spelling(k) != x
  }

  /** Only names can be unprintable. */
  predicate Printable(e: Expr)
    decreases e
  {
    match e
    case Identifier(x) => ValidName(x)
    case BinaryOp(_, l, r) => Printable(l) && Printable(r)
    case UnaryOp(_, a) => Printable(a)
    case Assignment(t, v) => Printable(t) && Printable(v)
    case ArrayAccess(a, i) => Printable(a) && Printable(i)
    case FunctionCall(f, args) => ValidName(f) && forall a :: a in args ==> Printable(a)
    case _ => true
  }

  // ------------------------------------------------------------------ tokens before a stream

  function Then(a: seq<Token>, ts: Stream): Stream {
    a + ts
  }

  lemma ThenJoin(a: seq<Token>, b: seq<Token>, ts: Stream)
    ensures Then(a + b, ts) == Then(a, Then(b, ts))
  {
    assert (a + b) + ts == a + (b + ts);
  }

  lemma ThenOne(t: Token, ts: Stream)
    requires t.kind != EOF
    ensures Then([t], ts)[0] == t && Shift(Then([t], ts)) == ts
  {
  }

  lemma ThenNone(ts: Stream)
    ensures Then([], ts) == ts
  {
  }

  lemma ThenFirst(a: seq<Token>, ts: Stream)
    requires |a| > 0
    ensures Then(a, ts)[0] == a[0]
  {
  }

  // ------------------------------------------------------------------ what may follow

  /** After an expression of level `p`, a token of kind `k` is not taken to belong to it. */
  predicate Stops(p: nat, k: Kind) {
    && k != LBRACKET && k != LPAREN
    && (forall op :: KindOf(op) == k ==> Precedence(op) < p)
    && (p == 0 ==> k != ASSIGN)
  }

  lemma StopsUp(p: nat, q: nat, k: Kind)
    requires Stops(p, k) && p <= q
    ensures Stops(q, k) && (1 <= p <= 10 ==> !OperatorAt(p, k))
  {
    OperatorsHaveKinds(k);
    if BinaryOf(k).Some? {
      LevelsAreStandard(BinaryOf(k).value);
    }
    hide KindOf, BinaryOf, Precedence, LevelOf;
  }

  lemma OperatorStops(op: BinOp)
    ensures Stops(Precedence(op) + 1, KindOf(op)) && BinaryOf(KindOf(op)) == Some(op)
            && OperatorAt(Precedence(op), KindOf(op))
    ensures KindOf(op) != EOF
  {
    KindsAreOperators(op);
    LevelsAreStandard(op);
    forall o | KindOf(o) == KindOf(op)
      ensures o == op
    {
      KindsAreOperators(o);
    }
    hide KindOf, BinaryOf, Precedence, LevelOf;
  }

  /** The parser takes the token of an operator for that operator, and no other token for it. */
  lemma KindsAreOperators(op: BinOp)
    ensures BinaryOf(KindOf(op)) == Some(op) && KindOf(op) != EOF && KindOf(op) != LBRACKET && KindOf(op) != LPAREN
    ensures KindOf(op) != ASSIGN
  {
  }

  lemma OperatorsHaveKinds(k: Kind)
    ensures BinaryOf(k).Some? ==> KindOf(BinaryOf(k).value) == k
  {
  }

  lemma UnaryKinds(op: UnOp)
    ensures UnaryOf(KindOfUnary(op)) == Some(op) && KindOfUnary(op) != EOF
  {
  }

  /** What an expression can start with. */
  predicate Starts(k: Kind, p: nat) {
    || k == IDENTIFIER || k == INTEGER_LITERAL || k == CHAR_LITERAL || k == STRING_LITERAL || k == LPAREN
    || (p < 12 && UnaryOf(k).Some?)
  }

  lemma {:induction false} PrintStarts(e: Expr, p: nat)
    requires p <= 12
    ensures |Print(e, p)| > 0 && Starts(Print(e, p)[0].kind, p)
    decreases e
  {
    if LevelOfExpr(e) >= p {
      match e
      case BinaryOp(op, l, _) => PrintStarts(l, Precedence(op));
      case Assignment(t, _) => PrintStarts(t, 1);
      case ArrayAccess(a, _) => PrintStarts(a, 12);
      case UnaryOp(op, _) => UnaryKinds(op);
      case _ =>
    }
  }

  /** A tail that has nothing to take. */
  lemma TailStops(p: nat, g: Got<Expr>)
    requires 1 <= p <= 10 && Stops(p, g.rest[0].kind)
    ensures Tail(p, g) == g
  {
    StopsUp(p, p, g.rest[0].kind);
    hide BinaryOf, LevelOf, ParseAt, Stops;
  }

  lemma PostfixStops(g: Got<Expr>)
    requires g.rest[0].kind != LBRACKET && g.rest[0].kind != LPAREN
    ensures PostfixTail(g) == g
  {
  }

  lemma StopsPostfix(p: nat, k: Kind)
    requires Stops(p, k)
    ensures k != LBRACKET && k != LPAREN && (p == 0 ==> k != ASSIGN)
  {
  }

  /** Away from its own level, an expression is printed alike for the next. */
  lemma PrintUp(e: Expr, p: nat)
    requires LevelOfExpr(e) != p
    ensures Print(e, p) == Print(e, p + 1)
  {
  }

  lemma PrintOwn(e: Expr, p: nat)
    requires LevelOfExpr(e) >= p
    ensures Print(e, p) == Bare(e)
  {
  }

  lemma PrintClosed(e: Expr, p: nat)
    requires LevelOfExpr(e) < p
    ensures Print(e, p) == [Tok(LPAREN)] + Print(e, 0) + [Tok(RPAREN)]
  {
  }

  // ------------------------------------------------------------------ the round trip, on tokens

  /** How far an expression is from the place where its own structure is printed. */
  function Distance(e: Expr, p: nat): nat
    requires p <= 12
  {
    if p > LevelOfExpr(e) then 26 - p else LevelOfExpr(e) - p
  }

  /** Parsing what was printed gives the tree and what came after. */
  lemma {:induction false} ExprTrip(p: nat, e: Expr, ts: Stream)
    requires p <= 12 && Printable(e) && Stops(p, ts[0].kind)
    ensures ParseAt(p, Then(Print(e, p), ts)) == Got(e, ts, true)
    decreases e, Distance(e, p), 3
  {
    hide *;
    StopsUp(p, if p < 12 then p + 1 else p, ts[0].kind);
    StopsPostfix(p, ts[0].kind);
    if p == 0 {
      AssignTrip(e, ts);
    } else if p <= 10 {
      LevelTrip(p, e, ts);
      TailStops(p, Got(e, ts, true));
    } else if p == 11 {
      UnaryTrip(e, ts);
    } else {
      PostTrip(e, ts);
      PostfixStops(Got(e, ts, true));
    }
  }

  lemma DistanceUp(e: Expr, p: nat)
    requires p < 12 && LevelOfExpr(e) != p
    ensures Distance(e, p + 1) < Distance(e, p)
  {
  }

  lemma OwnLevel(e: Expr)
    ensures LevelOfExpr(e) == 0 <==> e.Assignment?
    ensures LevelOfExpr(e) == 11 <==> e.UnaryOp?
    ensures 1 <= LevelOfExpr(e) <= 10 <==> e.BinaryOp?
    ensures e.BinaryOp? ==> LevelOfExpr(e) == Precedence(e.op)
  {
  }

  lemma PrintableParts(e: Expr)
    requires Printable(e)
    ensures e.BinaryOp? ==> Printable(e.left) && Printable(e.right)
    ensures e.UnaryOp? ==> Printable(e.operand)
    ensures e.Assignment? ==> Printable(e.target) && Printable(e.source)
    ensures e.ArrayAccess? ==> Printable(e.base) && Printable(e.index)
    ensures e.FunctionCall? ==> forall a :: a in e.arguments ==> Printable(a)
  {
  }

  lemma BareParts(e: Expr)
    ensures e.BinaryOp? ==>
              Bare(e) == Print(e.left, Precedence(e.op)) + ([Tok(KindOf(e.op))] + Print(e.right, Precedence(e.op) + 1))
    ensures e.UnaryOp? ==> Bare(e) == [Tok(KindOfUnary(e.uop))] + Print(e.operand, 11)
    ensures e.Assignment? ==> Bare(e) == Print(e.target, 1) + ([Tok(ASSIGN)] + Print(e.source, 0))
    ensures e.ArrayAccess? ==>
              Bare(e) == Print(e.base, 12) + ([Tok(LBRACKET)] + (Print(e.index, 0) + [Tok(RBRACKET)]))
    ensures e.FunctionCall? ==>
              Bare(e) == [Token(IDENTIFIER, e.callee)] + ([Tok(LPAREN)] + (PrintArgs(e.arguments) + [Tok(RPAREN)]))
  {
    hide Print, PrintMore, Tok, KindOf, KindOfUnary, Precedence;
    match e
    case BinaryOp(op, l, r) =>
      assert (Print(l, Precedence(op)) + [Tok(KindOf(op))]) + Print(r, Precedence(op) + 1)
          == Print(l, Precedence(op)) + ([Tok(KindOf(op))] + Print(r, Precedence(op) + 1));
    case FunctionCall(f, args) =>
      assert [Token(IDENTIFIER, f), Tok(LPAREN)] == [Token(IDENTIFIER, f)] + [Tok(LPAREN)];
    case _ =>
  }

  function PrintArgs(args: seq<Expr>): seq<Token> {
    if args == [] then [] else Print(args[0], 0) + PrintMore(args[1..])
  }

  lemma Kinds(k: Kind)
    ensures Tok(k).kind == k
  {
  }

  lemma {:induction false} AssignTrip(e: Expr, ts: Stream)
    requires Printable(e) && Stops(0, ts[0].kind)
    ensures ParseAt(0, Then(Print(e, 0), ts)) == Got(e, ts, true)
    decreases e, Distance(e, 0), 2
  {
    hide *;
    OwnLevel(e);
    StopsUp(0, 1, ts[0].kind);
    StopsPostfix(0, ts[0].kind);
    AssignmentUnfolds(Then(Print(e, 0), ts));
    if e.Assignment? {
      PrintableParts(e);
      PrintOwn(e, 0);
      BareParts(e);
      Kinds(ASSIGN);
      var rest := Then([Tok(ASSIGN)], Then(Print(e.source, 0), ts));
      ThenJoin(Print(e.target, 1), [Tok(ASSIGN)] + Print(e.source, 0), ts);
      ThenJoin([Tok(ASSIGN)], Print(e.source, 0), ts);
      ThenOne(Tok(ASSIGN), Then(Print(e.source, 0), ts));
      AssignStops();
      ExprTrip(1, e.target, rest);
      ExprTrip(0, e.source, ts);
    } else {
      PrintUp(e, 0);
      DistanceUp(e, 0);
      ExprTrip(1, e, ts);
    }
  }

  lemma AssignStops()
    ensures Stops(1, ASSIGN) && Stops(0, RBRACKET) && Stops(0, RPAREN) && Stops(0, COMMA) && Stops(0, SEMICOLON)
  {
  }

  /** An expression of level `p`, or one whose operators all bind tighter, up to the operators of
      level `p` that follow it. */
  lemma {:induction false} LevelTrip(p: nat, e: Expr, ts: Stream)
    requires 1 <= p <= 10 && Printable(e) && Stops(p + 1, ts[0].kind)
    ensures ParseAt(p, Then(Print(e, p), ts)) == Tail(p, Got(e, ts, true))
    decreases e, Distance(e, p), 2
  {
    hide *;
    OwnLevel(e);
    LevelUnfolds(p, Then(Print(e, p), ts));
    if LevelOfExpr(e) == p {
      PrintableParts(e);
      PrintOwn(e, p);
      BareParts(e);
      OperatorStops(e.op);
      var op := Tok(KindOf(e.op));
      Kinds(KindOf(e.op));
      var rest := Then([op], Then(Print(e.right, p + 1), ts));
      ThenJoin(Print(e.left, p), [op] + Print(e.right, p + 1), ts);
      ThenJoin([op], Print(e.right, p + 1), ts);
      ThenOne(op, Then(Print(e.right, p + 1), ts));
      LevelTrip(p, e.left, rest);
      TailUnfolds(p, Got(e.left, rest, true));
      ExprTrip(p + 1, e.right, ts);
    } else {
      PrintUp(e, p);
      DistanceUp(e, p);
      ExprTrip(p + 1, e, ts);
    }
  }

  lemma {:induction false} UnaryTrip(e: Expr, ts: Stream)
    requires Printable(e) && Stops(11, ts[0].kind)
    ensures ParseAt(11, Then(Print(e, 11), ts)) == Got(e, ts, true)
    decreases e, Distance(e, 11), 2
  {
    hide *;
    OwnLevel(e);
    StopsUp(11, 12, ts[0].kind);
    UnaryUnfolds(Then(Print(e, 11), ts));
    if e.UnaryOp? {
      PrintableParts(e);
      PrintOwn(e, 11);
      BareParts(e);
      UnaryKinds(e.uop);
      Kinds(KindOfUnary(e.uop));
      ThenJoin([Tok(KindOfUnary(e.uop))], Print(e.operand, 11), ts);
      ThenOne(Tok(KindOfUnary(e.uop)), Then(Print(e.operand, 11), ts));
      ExprTrip(11, e.operand, ts);
    } else {
      PrintUp(e, 11);
      DistanceUp(e, 11);
      PrintStarts(e, 12);
      ThenFirst(Print(e, 12), ts);
      NotUnary(Print(e, 12)[0].kind);
      ExprTrip(12, e, ts);
    }
  }

  lemma NotUnary(k: Kind)
    requires Starts(k, 12)
    ensures UnaryOf(k).None?
  {
  }

  /** A primary and its postfix operators, up to the postfix operators that follow. */
  lemma {:induction false} PostTrip(e: Expr, ts: Stream)
    requires Printable(e)
    ensures ParseAt(12, Then(Print(e, 12), ts)) == PostfixTail(Got(e, ts, true))
    decreases e, Distance(e, 12), 2
  {
    hide *;
    if LevelOfExpr(e) < 12 {
      SmallDistance(e);
      ClosedTrip(e, ts);
    } else {
      PrintOwn(e, 12);
      PrintableParts(e);
      BareParts(e);
      PostfixUnfolds(Then(Print(e, 12), ts));
      match e
      case ArrayAccess(a, i) => IndexTrip(a, i, ts);
      case FunctionCall(f, args) => CallTrip(f, args, ts);
      case _ => LiteralTrip(e, ts);
    }
  }

  lemma LiteralTrip(e: Expr, ts: Stream)
    requires LevelOfExpr(e) == 12 && !e.ArrayAccess? && !e.FunctionCall?
    ensures ParsePrimary(Then(Bare(e), ts)) == Got(e, ts, true)
  {
    var t := Bare(e)[0];
    assert Bare(e) == [t];
    ThenOne(t, ts);
    PrimaryUnfolds(Then([t], ts));
    hide ParsePrimary, Then, Shift;
    if e.IntegerLiteral? {
      Decimal.ReadShow(e.value);
    }
  }

  lemma {:induction false} ClosedTrip(e: Expr, ts: Stream)
    requires Printable(e) && LevelOfExpr(e) < 12
    ensures ParseAt(12, Then(Print(e, 12), ts)) == PostfixTail(Got(e, ts, true))
    decreases e, 13, 0
  {
    hide *;
    PrintClosed(e, 12);
    Kinds(LPAREN);
    Kinds(RPAREN);
    var close := Then([Tok(RPAREN)], ts);
    ThenOne(Tok(RPAREN), ts);
    var inner := Then(Print(e, 0), close);
    ThenJoin([Tok(LPAREN)], Print(e, 0) + [Tok(RPAREN)], ts);
    assert [Tok(LPAREN)] + (Print(e, 0) + [Tok(RPAREN)]) == [Tok(LPAREN)] + Print(e, 0) + [Tok(RPAREN)];
    ThenJoin(Print(e, 0), [Tok(RPAREN)], ts);
    ThenOne(Tok(LPAREN), inner);
    AssignStops();
    SmallDistance(e);
    ExprTrip(0, e, close);
    PostfixUnfolds(Then([Tok(LPAREN)], inner));
    PrimaryUnfolds(Then([Tok(LPAREN)], inner));
  }

  lemma SmallDistance(e: Expr)
    requires LevelOfExpr(e) < 12
    ensures Distance(e, 0) < 13 && 13 < Distance(e, 12)
  {
  }

  lemma {:induction false} IndexTrip(a: Expr, i: Expr, ts: Stream)
    requires Printable(a) && Printable(i)
    ensures ParseAt(12, Then(Bare(ArrayAccess(a, i)), ts)) == PostfixTail(Got(ArrayAccess(a, i), ts, true))
    decreases ArrayAccess(a, i), 0, 0
  {
    BareParts(ArrayAccess(a, i));
    hide *;
    Kinds(LBRACKET);
    Kinds(RBRACKET);
    var close := Then([Tok(RBRACKET)], ts);
    var inner := Then(Print(i, 0), close);
    var open := Then([Tok(LBRACKET)], inner);
    ThenJoin(Print(a, 12), [Tok(LBRACKET)] + (Print(i, 0) + [Tok(RBRACKET)]), ts);
    ThenJoin([Tok(LBRACKET)], Print(i, 0) + [Tok(RBRACKET)], ts);
    ThenJoin(Print(i, 0), [Tok(RBRACKET)], ts);
    ThenOne(Tok(RBRACKET), ts);
    ThenOne(Tok(LBRACKET), inner);
    AssignStops();
    PostTrip(a, open);
    PostfixTailUnfolds(Got(a, open, true));
    ExprTrip(0, i, close);
  }

  lemma {:induction false} CallTrip(f: string, args: seq<Expr>, ts: Stream)
    requires forall a :: a in args ==> Printable(a)
    ensures ParseAt(12, Then(Bare(FunctionCall(f, args)), ts)) == PostfixTail(Got(FunctionCall(f, args), ts, true))
    decreases FunctionCall(f, args), 0, 0
  {
    BareParts(FunctionCall(f, args));
    hide *;
    Kinds(LPAREN);
    Kinds(RPAREN);
    var name := Token(IDENTIFIER, f);
    var close := Then([Tok(RPAREN)], ts);
    var inner := Then(PrintArgs(args), close);
    var open := Then([Tok(LPAREN)], inner);
    ThenJoin([name], [Tok(LPAREN)] + (PrintArgs(args) + [Tok(RPAREN)]), ts);
    ThenJoin([Tok(LPAREN)], PrintArgs(args) + [Tok(RPAREN)], ts);
    ThenJoin(PrintArgs(args), [Tok(RPAREN)], ts);
    ThenOne(Tok(RPAREN), ts);
    ThenOne(Tok(LPAREN), inner);
    ThenOne(name, open);
    PostfixUnfolds(Then([name], open));
    PrimaryUnfolds(Then([name], open));
    PostfixTailUnfolds(Got(Identifier(f), open, true));
    ArgsTrip(args, close);
  }

  lemma {:induction false} ArgsTrip(args: seq<Expr>, close: Stream)
    requires (forall a :: a in args ==> Printable(a)) && close[0].kind == RPAREN
    ensures ParseArgs(Then(PrintArgs(args), close)) == Got(args, close, true)
    decreases args, 1
  {
    hide *;
    ArgsUnfold(Then(PrintArgs(args), close));
    if args == [] {
      NoMore();
      ThenNone(close);
    } else {
      ArgsStart(args);
      var more := Then(PrintMore(args[1..]), close);
      ThenJoin(Print(args[0], 0), PrintMore(args[1..]), close);
      PrintStarts(args[0], 0);
      ThenFirst(Print(args[0], 0), more);
      StartsNot(Print(args[0], 0)[0].kind, 0);
      MoreStops(args[1..], close);
      ExprTrip(0, args[0], more);
      MoreTrip([args[0]], args[1..], close);
      assert [args[0]] + args[1..] == args;
    }
  }

  lemma ArgsStart(args: seq<Expr>)
    requires args != [] && forall a :: a in args ==> Printable(a)
    ensures PrintArgs(args) == Print(args[0], 0) + PrintMore(args[1..]) && Printable(args[0])
    ensures forall a :: a in args[1..] ==> Printable(a)
  {
  }

  lemma StartsNot(k: Kind, p: nat)
    requires Starts(k, p)
    ensures k != RPAREN && k != RBRACE && k != SEMICOLON && k != EOF && k != ELSE && k != LBRACE
    ensures k != INT && k != CHAR && k != IF && k != WHILE && k != FOR && k != RETURN
  {
  }

  lemma MoreStops(es: seq<Expr>, close: Stream)
    requires close[0].kind == RPAREN
    ensures Stops(0, Then(PrintMore(es), close)[0].kind)
  {
    if es == [] {
      ThenNone(close);
    } else {
      ThenFirst(PrintMore(es), close);
    }
  }

  lemma {:induction false} MoreTrip(done: seq<Expr>, es: seq<Expr>, close: Stream)
    requires (forall a :: a in es ==> Printable(a)) && close[0].kind == RPAREN
    ensures ArgsTail(Got(done, Then(PrintMore(es), close), true)) == Got(done + es, close, true)
    decreases es, 0
  {
    hide *;
    ArgsTailUnfolds(Got(done, Then(PrintMore(es), close), true));
    if es == [] {
      NoMore();
      ThenNone(close);
      assert done + es == done;
    } else {
      MoreParts(es);
      Kinds(COMMA);
      var more := Then(PrintMore(es[1..]), close);
      ThenJoin([Tok(COMMA)], Print(es[0], 0) + PrintMore(es[1..]), close);
      ThenJoin(Print(es[0], 0), PrintMore(es[1..]), close);
      ThenOne(Tok(COMMA), Then(Print(es[0], 0), more));
      MoreStops(es[1..], close);
      ExprTrip(0, es[0], more);
      MoreTrip(done + [es[0]], es[1..], close);
      assert done + [es[0]] + es[1..] == done + es;
    }
  }

  lemma NoMore()
    ensures PrintMore([]) == [] && PrintArgs([]) == []
  {
  }

  lemma MoreParts(es: seq<Expr>)
    requires es != [] && forall a :: a in es ==> Printable(a)
    ensures PrintMore(es) == [Tok(COMMA)] + (Print(es[0], 0) + PrintMore(es[1..])) && Printable(es[0])
    ensures forall a :: a in es[1..] ==> Printable(a)
  {
    hide Print, Printable;
  }

  /** a op1 b op2 c, for operands without operators, groups to the left unless the standard defines
      op2 before op1. */
  lemma Grouping(a: Expr, op1: BinOp, b: Expr, op2: BinOp, c: Expr, ts: Stream)
    requires Printable(a) && Printable(b) && Printable(c) && Stops(0, ts[0].kind)
    requires LevelOfExpr(a) == LevelOfExpr(b) == LevelOfExpr(c) == 12
    ensures var tokens := Bare(a) + [Tok(KindOf(op1))] + Bare(b) + [Tok(KindOf(op2))] + Bare(c);
            var e := if Subsection(op1) <= Subsection(op2) then BinaryOp(op2, BinaryOp(op1, a, b), c)
                     else BinaryOp(op1, a, BinaryOp(op2, b, c));
            ParseAt(0, Then(tokens, ts)) == Got(e, ts, true)
  {
    var e := if Subsection(op1) <= Subsection(op2) then BinaryOp(op2, BinaryOp(op1, a, b), c)
             else BinaryOp(op1, a, BinaryOp(op2, b, c));
    hide *;
    GroupedParts(a, op1, b, op2, c);
    ExprTrip(0, e, ts);
  }

  lemma GroupedParts(a: Expr, op1: BinOp, b: Expr, op2: BinOp, c: Expr)
    requires Printable(a) && Printable(b) && Printable(c)
    requires LevelOfExpr(a) == LevelOfExpr(b) == LevelOfExpr(c) == 12
    ensures var tokens := Bare(a) + [Tok(KindOf(op1))] + Bare(b) + [Tok(KindOf(op2))] + Bare(c);
            var e := if Subsection(op1) <= Subsection(op2) then BinaryOp(op2, BinaryOp(op1, a, b), c)
                     else BinaryOp(op1, a, BinaryOp(op2, b, c));
            Printable(e) && Print(e, 0) == tokens
  {
    hide Print, Bare, Tok, KindOf, Printable, LevelOfExpr, Subsection, Precedence;
    var (o1, o2) := ([Tok(KindOf(op1))], [Tok(KindOf(op2))]);
    var (p1, p2) := (Precedence(op1), Precedence(op2));
    AtomPrinted(a, p1);
    AtomPrinted(b, p1 + 1);
    AtomPrinted(b, p2);
    AtomPrinted(c, p2 + 1);
    PrecedenceIs(op1, op2);
    if Subsection(op1) <= Subsection(op2) {
      BinaryPrinted(op1, a, b, p2);
      BinaryPrinted(op2, BinaryOp(op1, a, b), c, 0);
    } else {
      BinaryPrinted(op2, b, c, p1 + 1);
      BinaryPrinted(op1, a, BinaryOp(op2, b, c), 0);
      assert Bare(a) + o1 + (Bare(b) + o2 + Bare(c)) == Bare(a) + o1 + Bare(b) + o2 + Bare(c);
    }
  }

  lemma PrecedenceIs(op1: BinOp, op2: BinOp)
    ensures Subsection(op1) <= Subsection(op2) <==> Precedence(op2) <= Precedence(op1)
    ensures 1 <= Precedence(op1) <= 10 && 1 <= Precedence(op2) <= 10
  {
  }

  lemma AtomPrinted(e: Expr, p: nat)
    requires LevelOfExpr(e) == 12 && p <= 12
    ensures Print(e, p) == Bare(e)
  {
  }

  lemma BinaryPrinted(op: BinOp, l: Expr, r: Expr, p: nat)
    requires p <= Precedence(op)
    ensures Print(BinaryOp(op, l, r), p)
            == Print(l, Precedence(op)) + [Tok(KindOf(op))] + Print(r, Precedence(op) + 1)
    ensures Printable(BinaryOp(op, l, r)) <==> Printable(l) && Printable(r)
  {
  }

  // ------------------------------------------------------------------ the round trip, on text

  /** A character in a string literal, as an escape sequence where there is one (section 6.4.4.4 of
      ISO C99). */
  function QuoteChar(c: char): string {
    match c
    case '\\' => "\\\\"
    case '"' => "\\\""
    case '\n' => "\\n"
    case '\t' => "\\t"
    case '\r' => "\\r"
    case '\0' => "\\0"
    case _ => [c]
  }

  function Quote(s: string): string {
    if s == "" then "" else QuoteChar(s[0]) + Quote(s[1..])
  }

  function Text(t: Token): string {
    match t.kind
    case IDENTIFIER => t.value
    case INTEGER_LITERAL => t.value
    case CHAR_LITERAL => "'" + t.value + "'"
    case STRING_LITERAL => "\"" + Quote(t.value) + "\""
    case k => Spelling(k)
  }

  /** The tokens, each followed by a space. */
  function Spaced(ts: seq<Token>): string {
    if ts == [] then "" else Text(ts[0]) + " " + Spaced(ts[1..])
  }

  /** A token the lexer can make. */
  predicate Writable(t: Token) {
    match t.kind
    case IDENTIFIER => ValidName(t.value)
    case INTEGER_LITERAL => Decimal.IsDigits(t.value)
    case CHAR_LITERAL => |t.value| == 1
    case STRING_LITERAL => true
    case EOF => false
    case k => t == Tok(k)
  }

  /** The characters that would make a token a longer one, or a comment, if they followed it. */
  predicate Extends(t: Token, c: char) {
    match t.kind
    case IDENTIFIER => NameChar(c)
    case INTEGER_LITERAL => '0' <= c <= '9'
    case CHAR_LITERAL => false
    case STRING_LITERAL => false
    case k => if IsKeyword(k) then NameChar(c) else Joins(Spelling(k), c)
  }

  predicate Joins(w: string, c: char) {
    (exists k :: Spelling(k) == w + [c]) || (w == "/" && (c == '/' || c == '*'))
  }

  /** The text that follows does not continue the token. */
  predicate Apart(t: Token, s: string) {
    s == "" || !Extends(t, s[0])
  }

  lemma WordTurn(w: string, s: string)
    requires w != "" && !('0' <= w[0] <= '9') && (forall i :: 0 <= i < |w| ==> NameChar(w[i]))
    requires s == "" || !NameChar(s[0])
    ensures OneTurn(w + s) == Turn(Some(WordToken(w)), |w|, true)
  {
    var text := w + s;
    SpanFrom(text, |w|, IsWord);
    assert text[0] == w[0] && text[..|w|] == w;
    hide Span, BlockEnd, ReadString;
  }

  lemma NumberTurn(w: string, s: string)
    requires Decimal.IsDigits(w) && (s == "" || !('0' <= s[0] <= '9'))
    ensures OneTurn(w + s) == Turn(Some(Token(INTEGER_LITERAL, w)), |w|, true)
  {
    var text := w + s;
    SpanFrom(text, |w|, IsDigit);
    assert text[0] == w[0] && text[..|w|] == w;
    assert IsDigit(w[0]);
    hide Span, BlockEnd, ReadString;
  }

  lemma CharacterTurn(c: char, s: string)
    ensures OneTurn("'" + [c] + "'" + s) == Turn(Some(Token(CHAR_LITERAL, [c])), 3, true)
  {
    hide Span, BlockEnd, ReadString;
    var text := "'" + [c] + "'" + s;
    assert text[0] == '\'' && text[1] == c && text[2] == '\'';
  }

  lemma {:induction false} QuoteReads(pre: string, v: string, s: string)
    ensures ReadString(pre + Quote(v) + "\"" + s, |pre|) == StringRead(v, |pre| + |Quote(v)|, true)
    decreases v
  {
    hide ReadString;
    var text := pre + Quote(v) + "\"" + s;
    ReadOne(text, |pre|);
    if v == "" {
      assert Quote(v) == "";
      assert text[|pre|] == '"';
    } else {
      var first := QuoteChar(v[0]);
      assert Quote(v) == first + Quote(v[1..]);
      assert text == (pre + first) + Quote(v[1..]) + "\"" + s;
      QuoteReads(pre + first, v[1..], s);
      assert text[|pre|] == first[0];
      QuotedChar(v[0]);
      assert |first| == 2 ==> text[|pre| + 1] == first[1];
      assert [v[0]] + v[1..] == v;
    }
  }

  /** What is quoted as an escape sequence is what the lexer makes of that sequence. */
  lemma QuotedChar(c: char)
    ensures var q := QuoteChar(c);
            if |q| == 2 then q[0] == '\\' && Escaped(q[1]) == c else q == [c] && c != '\\' && c != '"'
  {
  }

  lemma StringLiteralTurn(v: string, s: string)
    ensures OneTurn("\"" + Quote(v) + "\"" + s) == Turn(Some(Token(STRING_LITERAL, v)), |Quote(v)| + 2, true)
  {
    hide Span, BlockEnd, ReadString, Quote;
    var text := "\"" + Quote(v) + "\"" + s;
    QuoteReads("\"", v, s);
    assert text[0] == '"';
  }

  predicate IsKeyword(k: Kind) {
    k in {INT, CHAR, IF, ELSE, WHILE, FOR, RETURN, VOID}
  }

  predicate IsSymbol(k: Kind) {
    !IsKeyword(k) && k !in {IDENTIFIER, INTEGER_LITERAL, CHAR_LITERAL, STRING_LITERAL, EOF}
  }

  lemma KeywordSpelled(k: Kind)
    requires IsKeyword(k)
    ensures var w := Spelling(k);
            && w != "" && !('0' <= w[0] <= '9') && (forall i :: 0 <= i < |w| ==> NameChar(w[i]))
            && WordToken(w) == Tok(k)
  {
  }

  /** An operator or delimiter is read as itself unless what follows makes it a longer one. */
  lemma SymbolTurn(k: Kind, s: string)
    requires IsSymbol(k) && (s == "" || !Joins(Spelling(k), s[0]))
    ensures OneTurn(Spelling(k) + s) == Turn(Some(Tok(k)), |Spelling(k)|, true)
  {
    hide Span, BlockEnd, ReadString, TwoChars, OneChar, Joins, Spelling, IsSpace, IsAlpha, IsDigit;
    var text := Spelling(k) + s;
    SymbolSpelled(k);
    assert text[0] == Spelling(k)[0];
    assert |text| > 1 ==> text[1] == if |Spelling(k)| == 2 then Spelling(k)[1] else s[0];
    if |text| > 1 {
      TwoCharsIs(text);
      assert text[..2] == if |Spelling(k)| == 2 then Spelling(k) else Spelling(k) + [s[0]];
    }
    if |Spelling(k)| == 1 {
      SymbolTwo(k, text, s);
      assert [text[0]] == Spelling(k);
    }
    SymbolFirst(k, text, s);
  }

  lemma SymbolSpelled(k: Kind)
    requires IsSymbol(k)
    ensures 1 <= |Spelling(k)| <= 2
    ensures |Spelling(k)| == 2 ==> TwoChars(Spelling(k)) == Some(k)
    ensures |Spelling(k)| == 1 ==> OneChar(Spelling(k)[0]) == Some(k)
  {
    var w := Spelling(k);
    assert |w| == 2 ==> w[..2] == w;
  }

  lemma TwoCharsIs(text: string)
    requires |text| >= 2
    ensures TwoChars(text) == TwoChars(text[..2])
  {
    assert text[..2][..2] == text[..2];
  }

  /** The lexer's two-character operators are spelled so. */
  lemma TwoCharsSpelled(w: string)
    requires |w| == 2 && TwoChars(w).Some?
    ensures Spelling(TwoChars(w).value) == w
  {
    assert w[..2] == w;
  }

  lemma SymbolTwo(k: Kind, text: string, s: string)
    requires IsSymbol(k) && |Spelling(k)| == 1 && text == Spelling(k) + s && (s == "" || !Joins(Spelling(k), s[0]))
    ensures TwoChars(text).None?
  {
    if s != "" {
      var w := Spelling(k) + [s[0]];
      assert text[..2] == w;
      TwoCharsIs(text);
      if TwoChars(w).Some? {
        TwoCharsSpelled(w);
      }
    }
  }

  /** Symbols are not spaces, words, numbers, literals or comments. */
  lemma SymbolFirst(k: Kind, text: string, s: string)
    requires IsSymbol(k) && text == Spelling(k) + s && (s == "" || !Joins(Spelling(k), s[0]))
    ensures text != "" && !IsSpace(text[0]) && text[0] != '#' && !("//" <= text) && !("/*" <= text)
    ensures !IsAlpha(text[0]) && text[0] != '_' && !IsDigit(text[0]) && text[0] != '\'' && text[0] != '"'
  {
    SymbolAlone(k);
    assert |text| > 1 && |Spelling(k)| == 1 ==> text[1] == s[0];
    assert |text| > 1 && |Spelling(k)| == 2 ==> text[1] == Spelling(k)[1];
    assert text[0] == Spelling(k)[0];
    assert text[0] == '/' && s != "" ==> Joins("/", '/') && Joins("/", '*');
    hide Spelling, IsSpace, IsAlpha, IsDigit, Joins, IsSymbol;
  }

  lemma SymbolAlone(k: Kind)
    requires IsSymbol(k)
    ensures var w := Spelling(k);
            && w != "" && !IsSpace(w[0]) && w[0] != '#' && (w[0] == '/' ==> w == "/")
            && !IsAlpha(w[0]) && w[0] != '_' && !IsDigit(w[0]) && w[0] != '\'' && w[0] != '"'
  {
  }

  lemma TokenTurn(t: Token, s: string)
    requires Writable(t) && Apart(t, s)
    ensures OneTurn(Text(t) + s) == Turn(Some(t), |Text(t)|, true)
  {
    hide OneTurn, Quote, Spelling, Joins;
    match t.kind
    case IDENTIFIER =>
      NameIsNoKeyword(t.value);
      WordTurn(t.value, s);
    case INTEGER_LITERAL => NumberTurn(t.value, s);
    case CHAR_LITERAL =>
      assert t.value == [t.value[0]];
      CharacterTurn(t.value[0], s);
    case STRING_LITERAL => StringLiteralTurn(t.value, s);
    case k =>
      if IsKeyword(k) {
        KeywordSpelled(k);
        WordTurn(Spelling(k), s);
      } else {
        SymbolTurn(k, s);
      }
  }

  lemma NameIsNoKeyword(x: string)
    requires forall k :: Spelling(k) != x
    ensures x !in KEYWORDS
  {
    if x in KEYWORDS {
      KeywordText(x);
    }
  }

  lemma KeywordText(x: string)
    requires x in KEYWORDS
    ensures Spelling(KEYWORDS[x]) == x
  {
  }

  /** A space continues no token. */
  lemma SpaceApart(t: Token, s: string)
    requires Writable(t)
    ensures Apart(t, " " + s)
  {
    var w := Spelling(t.kind) + [' '];
    forall k
      ensures Spelling(k) != w
    {
      NoSpace(k);
      assert w[|w| - 1] == ' ';
    }
    hide Spelling;
  }

  lemma NoSpace(k: Kind)
    ensures ' ' !in Spelling(k)
  {
  }

  lemma SpaceTurn(s: string)
    ensures Lex(" " + s).tokens == Lex(s).tokens && Lex(" " + s).ok == Lex(s).ok
    decreases |s|
  {
    hide Lex;
    var text := " " + s;
    var n := Span(s, IsSpace);
    assert text[1..] == s;
    assert Span(text, IsSpace) == 1 + n;
    LexOne(text);
    assert text[1 + n..] == s[n..];
    if n > 0 {
      LexOne(s);
    } else {
      assert s[0..] == s;
    }
  }

  /** A token before text that does not continue it. */
  lemma TokenLex(t: Token, s: string)
    requires Writable(t) && Apart(t, s)
    ensures Lex(Text(t) + s) == Lexed([t] + Lex(s).tokens, Lex(s).ok)
  {
    hide Lex, OneTurn, Text, Writable, Apart;
    TokenTurn(t, s);
    var text := Text(t) + s;
    assert text != "";
    LexOne(text);
    assert text[|Text(t)|..] == s;
  }

  lemma SpacedParts(ts: seq<Token>, s: string)
    requires ts != []
    ensures Spaced(ts) + s == Text(ts[0]) + (" " + (Spaced(ts[1..]) + s))
  {
    hide Text;
  }

  lemma TokensJoin(t: Token, rest: seq<Token>, more: seq<Token>, ts: seq<Token>)
    requires ts == [t] + rest
    ensures [t] + (rest + more) == ts + more
  {
  }

  lemma {:induction false} LexTrip(ts: seq<Token>, s: string)
    requires forall t :: t in ts ==> Writable(t)
    ensures Lex(Spaced(ts) + s) == Lexed(ts + Lex(s).tokens, Lex(s).ok)
    decreases ts
  {
    hide Lex, Text, Writable, Apart;
    if ts == [] {
      assert Spaced(ts) + s == s;
    } else {
      var (t, rest) := (ts[0], ts[1..]);
      var after := Spaced(rest) + s;
      SpacedParts(ts, s);
      hide Spaced;
      SpaceApart(t, after);
      TokenLex(t, " " + after);
      SpaceTurn(after);
      LexTrip(rest, s);
      TokensJoin(t, rest, Lex(s).tokens, ts);
    }
  }

  lemma {:induction false} PrintWritable(e: Expr, p: nat)
    requires Printable(e)
    ensures forall t :: t in Print(e, p) ==> Writable(t)
    decreases e, 1
  {
    BareWritable(e);
    hide Bare;
  }

  lemma TokWritable(k: Kind)
    requires k !in {IDENTIFIER, INTEGER_LITERAL, CHAR_LITERAL, STRING_LITERAL, EOF}
    ensures Writable(Tok(k))
  {
  }

  lemma {:induction false} BareWritable(e: Expr)
    requires Printable(e)
    ensures forall t :: t in Bare(e) ==> Writable(t)
    decreases e, 0
  {
    hide Writable, Tok, Print, PrintMore, ValidName;
    match e
    case Identifier(x) => NameWritable(x);
    case IntegerLiteral(n) => ValueWritable(Token(INTEGER_LITERAL, Decimal.Show(n)));
    case CharLiteral(c) => ValueWritable(Token(CHAR_LITERAL, [c]));
    case StringLiteral(s) => ValueWritable(Token(STRING_LITERAL, s));
    case BinaryOp(op, l, r) =>
      TokWritable(KindOf(op));
      PrintWritable(l, Precedence(op));
      PrintWritable(r, Precedence(op) + 1);
    case UnaryOp(op, a) =>
      TokWritable(KindOfUnary(op));
      PrintWritable(a, 11);
    case Assignment(t, v) =>
      TokWritable(ASSIGN);
      PrintWritable(t, 1);
      PrintWritable(v, 0);
    case ArrayAccess(a, i) =>
      TokWritable(LBRACKET);
      TokWritable(RBRACKET);
      PrintWritable(a, 12);
      PrintWritable(i, 0);
    case FunctionCall(f, args) =>
      TokWritable(LPAREN);
      TokWritable(RPAREN);
      NameWritable(f);
      if args != [] {
        PrintWritable(args[0], 0);
        MoreWritable(args[1..]);
      }
  }

  lemma NameWritable(x: string)
    requires ValidName(x)
    ensures Writable(Token(IDENTIFIER, x))
  {
  }

  lemma ValueWritable(t: Token)
    requires t.kind == STRING_LITERAL || (t.kind == INTEGER_LITERAL && Decimal.IsDigits(t.value))
             || (t.kind == CHAR_LITERAL && |t.value| == 1)
    ensures Writable(t)
  {
  }

  lemma {:induction false} MoreWritable(es: seq<Expr>)
    requires forall a :: a in es ==> Printable(a)
    ensures forall t :: t in PrintMore(es) ==> Writable(t)
    decreases es, 0
  {
    hide Writable, Tok, Print;
    if es != [] {
      TokWritable(COMMA);
      PrintWritable(es[0], 0);
      MoreWritable(es[1..]);
    }
  }

  /** The round trip: print an expression, with only the parentheses precedence asks for, put any
      text after it that does not continue it; lexing and parsing gives the expression and leaves
      exactly the tokens of that text. */
  lemma RoundTrip(e: Expr, s: string)
    requires Printable(e) && Stops(0, Lex(s).tokens[0].kind)
    ensures var text := Spaced(Print(e, 0)) + s;
            ParseAt(0, Lex(text).tokens) == Got(e, Lex(s).tokens, true) && Lex(text).ok == Lex(s).ok
  {
    hide *;
    PrintWritable(e, 0);
    LexTrip(Print(e, 0), s);
    ExprTrip(0, e, Lex(s).tokens);
    ThenIs(Print(e, 0), Lex(s).tokens);
  }

  lemma ThenIs(a: seq<Token>, ts: Stream)
    ensures Then(a, ts) == a + ts
  {
  }
}
