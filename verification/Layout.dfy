/** White space, comments and directives between tokens. */
module Layout {
  // Whatever stands between tokens that needs nothing between them, or keeps apart those that need it,
  // the lexer reads the same tokens; so programs may be laid out freely.

  import opened Words
  import opened Ast
  import opened Lexing
  import opened Parsing
  import opened Printing
  import opened ProgramPrinting

  /** What may stand between tokens. A line comment and a directive include the end of their line. */
  datatype Gap = Blank(c: char) | LineComment(text: string) | BlockComment(text: string) | Directive(text: string)

  function GapText(g: Gap): string {
    match g
    case Blank(c) => [c]
    case LineComment(text) => "//" + text + "\n"
    case BlockComment(text) => "/*" + text + "*/"
    case Directive(text) => "#" + text + "\n"
  }

  /** White space characters (section 6.4 of ISO C99) and carriage returns; comments on one line; block
      comments without a closing mark inside (section 6.4.9). */
  predicate GapOk(g: Gap) {
    match g
    case Blank(c) => c in {' ', '\t', '\n', '\U{0b}', '\U{0c}', '\r'}
    case LineComment(text) => '\n' !in text
    case BlockComment(text) => forall i :: 0 <= i < |text| - 1 ==> !(text[i] == '*' && text[i + 1] == '/')
    case Directive(text) => '\n' !in text
  }

  /** The same tokens, and errors in the one text if and only if in the other. */
  ghost predicate SameTokens(a: string, b: string) {
    Lex(a) == Lex(b)
  }

  lemma LineEnds(text: string, s: string)
    requires '\n' !in text
    ensures LineLength(text + "\n" + s) == |text|
  {
    var all := text + "\n" + s;
    assert forall i :: 0 <= i < |text| ==> all[i] == text[i];
    assert all[|text|] == '\n';
    SpanFrom(all, |text|, c => c != '\n');
    LineLengthIs(all);
  }

  lemma LineLengthIs(s: string)
    ensures LineLength(s) <= |s| && (forall i :: 0 <= i < LineLength(s) ==> s[i] != '\n')
    ensures LineLength(s) < |s| ==> s[LineLength(s)] == '\n'
  {
  }

  lemma BlankSkipped(c: char, s: string)
    requires GapOk(Blank(c))
    ensures SameTokens([c] + s, s)
  {
    hide Lex;
    var text := [c] + s;
    var n := Span(s, IsSpace);
    assert text[1..] == s;
    assert Span(text, IsSpace) == 1 + n;
    LexOne(text);
    assert text[1 + n..] == s[n..];
    if n > 0 {
      LexOne(s);
    } else {
      assert s[0..] == s;
    }
  }

  /** A line comment ends with its line. */
  lemma LineCommentSkipped(text: string, s: string)
    requires '\n' !in text
    ensures SameTokens("//" + text + "\n" + s, s)
  {
    hide Lex, LineLength;
    var all := "//" + text + "\n" + s;
    assert all[0] == all[1] == '/' && all[..2] == "//" && all[2..] == text + "\n" + s;
    LineEnds(text, s);
    LexOne(all);
    assert all[2 + |text|..] == ['\n'] + s;
    BlankSkipped('\n', s);
  }

  /** So does a directive. */
  lemma DirectiveSkipped(text: string, s: string)
    requires '\n' !in text
    ensures SameTokens("#" + text + "\n" + s, s)
  {
    hide Lex, LineLength;
    var all := "#" + text + "\n" + s;
    var line := "#" + text;
    assert all == line + "\n" + s && '\n' !in line;
    LineEnds(line, s);
    LexOne(all);
    assert all[|line| + 1..] == s;
  }

  /** A block comment ends at the first closing mark. */
  lemma BlockCommentSkipped(text: string, s: string)
    requires GapOk(BlockComment(text))
    ensures SameTokens("/*" + text + "*/" + s, s)
  {
    hide Lex;
    var all := "/*" + text + "*/" + s;
    var end := 2 + |text|;
    assert all[0] == '/' && all[1] == '*' && all[..2] == "/*";
    assert ClosesAt(all, end);
    forall k: nat | 2 <= k < end
      ensures !ClosesAt(all, k)
    {
      assert all[k] == text[k - 2];
      assert k + 1 < end ==> all[k + 1] == text[k - 1];
    }
    var e := BlockEnd(all, 2);
    assert e == Some(end);
    LexOne(all);
    assert all[end + 2..] == s;
  }

  lemma GapSkipped(g: Gap, s: string)
    requires GapOk(g)
    ensures SameTokens(GapText(g) + s, s)
  {
    match g
    case Blank(c) => BlankSkipped(c, s);
    case LineComment(text) => LineCommentSkipped(text, s);
    case BlockComment(text) => BlockCommentSkipped(text, s);
    case Directive(text) => DirectiveSkipped(text, s);
  }

  // ------------------------------------------------------------------ whole texts

  function GapsText(gs: seq<Gap>): string {
    if gs == [] then "" else GapText(gs[0]) + GapsText(gs[1..])
  }

  /** A token and what stands after it. */
  datatype Piece = Piece(token: Token, gaps: seq<Gap>)

  function PiecesText(ps: seq<Piece>): string {
    if ps == [] then "" else Printing.Text(ps[0].token) + (GapsText(ps[0].gaps) + PiecesText(ps[1..]))
  }

  function TokensOf(ps: seq<Piece>): seq<Token> {
    if ps == [] then [] else [ps[0].token] + TokensOf(ps[1..])
  }

  predicate GapsOk(gs: seq<Gap>) {
    forall i :: 0 <= i < |gs| ==> GapOk(gs[i])
  }

  /** Every token is one the lexer can make and is not continued by what follows it. */
  predicate LaidOut(ps: seq<Piece>, s: string) {
    ps == [] ||
    (&& Writable(ps[0].token) && GapsOk(ps[0].gaps) && LaidOut(ps[1..], s)
     && Apart(ps[0].token, GapsText(ps[0].gaps) + (PiecesText(ps[1..]) + s)))
  }

  lemma {:induction false} GapsSkipped(gs: seq<Gap>, s: string)
    requires GapsOk(gs)
    ensures SameTokens(GapsText(gs) + s, s)
    decreases gs
  {
    hide Lex, GapText, GapOk;
    if gs == [] {
      assert GapsText(gs) + s == s;
    } else {
      var rest := GapsText(gs[1..]) + s;
      assert GapsText(gs) + s == GapText(gs[0]) + rest;
      GapSkipped(gs[0], rest);
      GapsSkipped(gs[1..], s);
    }
  }

  /** However tokens are laid out, the lexer reads exactly them, and then what follows. */
  lemma {:induction false} LayoutReads(ps: seq<Piece>, s: string)
    requires LaidOut(ps, s)
    ensures Lex(PiecesText(ps) + s) == Lexed(TokensOf(ps) + Lex(s).tokens, Lex(s).ok)
    decreases ps
  {
    hide Lex, Printing.Text, Writable, Apart, GapsOk, GapsText;
    if ps == [] {
      assert PiecesText(ps) + s == s;
    } else {
      var (p, rest) := (ps[0], PiecesText(ps[1..]) + s);
      var after := GapsText(p.gaps) + rest;
      PiecesApart(ps, s);
      TokenLex(p.token, after);
      GapsSkipped(p.gaps, rest);
      LayoutReads(ps[1..], s);
      TokensJoin(p.token, TokensOf(ps[1..]), Lex(s).tokens, TokensOf(ps));
    }
  }

  lemma PiecesApart(ps: seq<Piece>, s: string)
    requires ps != []
    ensures PiecesText(ps) + s == Printing.Text(ps[0].token) + (GapsText(ps[0].gaps) + (PiecesText(ps[1..]) + s))
  {
    hide Printing.Text, GapsText;
  }

  /** A program laid out in any way is read as that program. */
  lemma ProgramLayout(ds: seq<Decl>, gs: seq<Gap>, ps: seq<Piece>)
    requires (forall d :: d in ds ==> PrintableDecl(d)) && TokensOf(ps) == PrintDecls(ds)
    requires GapsOk(gs) && LaidOut(ps, "")
    ensures var L := Lex(GapsText(gs) + PiecesText(ps));
            L.ok && ParseProgram(L.tokens) == Some(Got(ds, [Token(EOF, "")], true))
  {
    hide *;
    GapsSkipped(gs, PiecesText(ps));
    LayoutReads(ps, "");
    NothingMore(ps, ds);
    SameMeans(GapsText(gs) + PiecesText(ps), PiecesText(ps));
    LexNone();
    DeclsTrip(ds);
  }

  lemma SameMeans(a: string, b: string)
    requires SameTokens(a, b)
    ensures Lex(a) == Lex(b)
  {
  }

  lemma NothingMore(ps: seq<Piece>, ds: seq<Decl>)
    ensures PiecesText(ps) + "" == PiecesText(ps)
    ensures Then(PrintDecls(ds), [Token(EOF, "")]) == PrintDecls(ds) + [Token(EOF, "")]
  {
  }

  // ------------------------------------------------------------------ what is refused

  /** What cannot be read. */
  datatype Flaw =
    | OpenComment(text: string)
    | OpenString(text: string)
    | OpenQuote
    | BadQuote(c: char, rest: string)
    | Stray(c: char, rest: string)

  function FlawText(f: Flaw): string {
    match f
    case OpenComment(text) => "/*" + text
    case OpenString(text) => "\"" + text
    case OpenQuote => "'"
    case BadQuote(c, rest) => ['\'', c] + rest
    case Stray(c, rest) => [c] + rest
  }

  /** A comment or a string that is never closed, a character without its quotes, and a character
      that starts no token. */
  predicate IsFlaw(f: Flaw) {
    match f
    case OpenComment(text) => GapOk(BlockComment(text))
    case OpenString(text) => '"' !in text
    case OpenQuote => true
    case BadQuote(_, rest) => rest == "" || rest[0] != '\''
    case Stray(c, _) =>
      && !NameChar(c) && !IsSpace(c) && c !in {'#', '\'', '"'}
      && forall k :: Spelling(k) == "" || Spelling(k)[0] != c
  }

  /** Wherever in a text it stands, a flaw is reported. */
  lemma FlawsRefused(gs: seq<Gap>, ps: seq<Piece>, f: Flaw)
    requires GapsOk(gs) && LaidOut(ps, FlawText(f)) && IsFlaw(f)
    ensures !Lex(GapsText(gs) + (PiecesText(ps) + FlawText(f))).ok
  {
    hide *;
    GapsSkipped(gs, PiecesText(ps) + FlawText(f));
    SameMeans(GapsText(gs) + (PiecesText(ps) + FlawText(f)), PiecesText(ps) + FlawText(f));
    LayoutReads(ps, FlawText(f));
    FlawRefused(f);
  }

  lemma FlawRefused(f: Flaw)
    requires IsFlaw(f)
    ensures !Lex(FlawText(f)).ok
  {
    hide Lex;
    var s := FlawText(f);
    LexOne(s);
    match f
    case OpenComment(text) => OpenCommentTurn(text);
    case OpenString(text) => OpenStringTurn(text);
    case OpenQuote =>
    case BadQuote(_, _) =>
    case Stray(c, rest) => StrayTurn(c, rest);
  }

  lemma OpenCommentTurn(text: string)
    requires GapOk(BlockComment(text))
    ensures !OneTurn("/*" + text).ok
  {
    var s := "/*" + text;
    assert s[0] == '/' && s[1] == '*' && s[..2] == "/*";
    forall k: nat | 2 <= k < |s| - 1
      ensures !ClosesAt(s, k)
    {
      assert s[k] == text[k - 2] && s[k + 1] == text[k - 1];
    }
    var e := BlockEnd(s, 2);
    assert e.None?;
  }

  lemma OpenStringTurn(text: string)
    requires '"' !in text
    ensures !OneTurn("\"" + text).ok
  {
    var s := "\"" + text;
    var r := ReadString(s, 1);
    NeverClosed(s, 1);
  }

  lemma {:induction false} NeverClosed(s: string, i: nat)
    requires i <= |s| && forall k :: i <= k < |s| ==> s[k] != '"'
    ensures !ReadString(s, i).ok
    decreases |s| - i
  {
    ReadOne(s, i);
    if i < |s| && s[i] == '\\' && i + 1 < |s| {
      NeverClosed(s, i + 2);
    } else if i < |s| && s[i] != '\\' {
      NeverClosed(s, i + 1);
    }
  }

  lemma StrayTurn(c: char, rest: string)
    requires IsFlaw(Stray(c, rest))
    ensures !OneTurn([c] + rest).ok
  {
    var s := [c] + rest;
    assert Spelling(SLASH) == "/" && c != '/';
    NoSymbol(c, s);
    hide Span, BlockEnd, ReadString, TwoChars, OneChar, Spelling, IsSpace;
  }

  lemma NoSymbol(c: char, s: string)
    requires s != "" && s[0] == c && forall k :: Spelling(k) == "" || Spelling(k)[0] != c
    ensures TwoChars(s).None? && OneChar(c).None?
  {
    TwoSpelled(s);
    OneSpelled(c);
    hide TwoChars, OneChar, Spelling;
  }

  lemma OneSpelled(c: char)
    ensures OneChar(c).Some? ==> Spelling(OneChar(c).value) == [c]
  {
  }

  lemma TwoSpelled(s: string)
    ensures TwoChars(s).Some? ==> |s| >= 2 && Spelling(TwoChars(s).value) == s[..2]
  {
  }
}
