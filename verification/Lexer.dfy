/** Tokens of Subset C and their recognition, on ASCII text and without source positions. */
module Lexing {
  import opened Words

  datatype Kind =
    | INT | CHAR | IF | ELSE | WHILE | FOR | RETURN | VOID
    | IDENTIFIER | INTEGER_LITERAL | CHAR_LITERAL | STRING_LITERAL
    | PLUS | MINUS | STAR | SLASH | PERCENT
    | EQ | NE | LT | GT | LE | GE
    | AND | OR | NOT
    | BITAND | BITOR | BITXOR | LSHIFT | RSHIFT
    | ASSIGN
    | LPAREN | RPAREN | LBRACE | RBRACE | LBRACKET | RBRACKET | SEMICOLON | COMMA
    | EOF

  datatype Token = Token(kind: Kind, value: string)

  const KEYWORDS: map<string, Kind> :=
    map["int" := INT, "char" := CHAR, "if" := IF, "else" := ELSE, "while" := WHILE, "for" := FOR, "return" := RETURN,
        "void" := VOID]

  predicate IsSpace(c: char) {
    c == ' ' || '\t' <= c <= '\r' || '\U{1c}' <= c <= '\U{1f}'
  }

  predicate IsAlpha(c: char) {
    'a' <= c <= 'z' || 'A' <= c <= 'Z'
  }

  predicate IsWord(c: char) {
    IsAlpha(c) || IsDigit(c) || c == '_'
  }

  // ------------------------------------------------------------------ the specification

  /** The number of leading characters of a class. */
  function Span(s: string, f: char -> bool): (n: nat)
    ensures n <= |s| && (forall i :: 0 <= i < n ==> f(s[i])) && (n < |s| ==> !f(s[n]))
  {
    if s == "" || !f(s[0]) then 0 else 1 + Span(s[1..], f)
  }

  predicate ClosesAt(s: string, i: nat) {
    i + 1 < |s| && s[i] == '*' && s[i + 1] == '/'
  }

  /** Where the first end of a block comment stands, from `i` on. */
  function BlockEnd(s: string, i: nat): (r: Option<nat>)
    ensures r.Some? ==> i <= r.value && ClosesAt(s, r.value)
    ensures forall k: nat :: i <= k && (r.None? || k < r.value) ==> !ClosesAt(s, k)
    decreases |s| - i
  {
    if i >= |s| then None
    else if ClosesAt(s, i) then Some(i)
    else BlockEnd(s, i + 1)
  }

  function Escaped(c: char): char {
    match c
    case 'n' => '\n'
    case 't' => '\t'
    case 'r' => '\r'
    case '0' => '\0'
    case _ => c
  }

  /** The characters of a string literal from `i` to its closing quote. */
  datatype StringRead = StringRead(value: string, end: nat, ok: bool)

  function ReadString(s: string, i: nat): (r: StringRead)
    requires i <= |s|
    ensures i <= r.end <= |s| && (r.ok ==> r.end < |s| && s[r.end] == '"') && (!r.ok ==> r.end == |s|)
    decreases |s| - i
  {
    if i == |s| then StringRead("", i, false)
    else if s[i] == '"' then StringRead("", i, true)
    else if s[i] == '\\' then
      if i + 1 == |s| then StringRead("", i + 1, false)
      else
        var r := ReadString(s, i + 2);
        r.(value := [Escaped(s[i + 1])] + r.value)
    else
      var r := ReadString(s, i + 1);
      r.(value := [s[i]] + r.value)
  }

  /** Having read `text`, reading on gives the rest of the whole. */
  ghost predicate Continues(whole: StringRead, text: string, rest: StringRead) {
    whole == rest.(value := text + rest.value)
  }

  lemma ReadOne(s: string, i: nat)
    requires i <= |s|
    ensures var r := ReadString(s, i);
            if i == |s| then r == StringRead("", i, false)
            else if s[i] == '"' then r == StringRead("", i, true)
            else if s[i] == '\\' && i + 1 == |s| then r == StringRead("", i + 1, false)
            else
              var (c, n) := if s[i] == '\\' then (Escaped(s[i + 1]), i + 2) else (s[i], i + 1);
              && r == ReadString(s, n).(value := [c] + ReadString(s, n).value)
              && forall text: string :: text + r.value == (text + [c]) + ReadString(s, n).value
  {
  }

  function TwoChars(s: string): Option<Kind>
  {
    if |s| < 2 then None
    else
      match s[..2]
      case "==" => Some(EQ)
      case "!=" => Some(NE)
      case "<=" => Some(LE)
      case ">=" => Some(GE)
      case "&&" => Some(AND)
      case "||" => Some(OR)
      case "<<" => Some(LSHIFT)
      case ">>" => Some(RSHIFT)
      case _ => None
  }

  function OneChar(c: char): Option<Kind> {
    match c
    case '+' => Some(PLUS)
    case '-' => Some(MINUS)
    case '*' => Some(STAR)
    case '/' => Some(SLASH)
    case '%' => Some(PERCENT)
    case '<' => Some(LT)
    case '>' => Some(GT)
    case '!' => Some(NOT)
    case '&' => Some(BITAND)
    case '|' => Some(BITOR)
    case '^' => Some(BITXOR)
    case '=' => Some(ASSIGN)
    case '(' => Some(LPAREN)
    case ')' => Some(RPAREN)
    case '{' => Some(LBRACE)
    case '}' => Some(RBRACE)
    case '[' => Some(LBRACKET)
    case ']' => Some(RBRACKET)
    case ';' => Some(SEMICOLON)
    case ',' => Some(COMMA)
    case _ => None
  }

  /** What one turn of the lexer makes of the text: a token or none, the characters used, and
      whether they were well formed. */
  datatype Turn = Turn(token: Option<Token>, length: nat, ok: bool)

  function WordToken(w: string): Token {
    Token(if w in KEYWORDS then KEYWORDS[w] else IDENTIFIER, w)
  }

  function CharTurn(s: string): (t: Turn)
    requires |s| > 0
    ensures 0 < t.length <= |s|
  {
    if |s| == 1 then Turn(None, 1, false)
    else if |s| == 2 || s[2] != '\'' then Turn(None, 2, false)
    else Turn(Some(Token(CHAR_LITERAL, [s[1]])), 3, true)
  }

  function StringTurn(s: string): (t: Turn)
    requires |s| > 0
    ensures 0 < t.length <= |s|
  {
    var r := ReadString(s, 1);
    if r.ok then Turn(Some(Token(STRING_LITERAL, r.value)), r.end + 1, true) else Turn(None, r.end, false)
  }

  function OperatorTurn(s: string): (t: Turn)
    requires |s| > 0
    ensures 0 < t.length <= |s|
  {
    if TwoChars(s).Some? then Turn(Some(Token(TwoChars(s).value, s[..2])), 2, true)
    else if OneChar(s[0]).Some? then Turn(Some(Token(OneChar(s[0]).value, [s[0]])), 1, true)
    else Turn(None, 1, false)
  }

  function LineLength(s: string): (n: nat)
    ensures n <= |s|
  {
    Span(s, c => c != '\n')
  }

  function OneTurn(s: string): (t: Turn)
    requires s != ""
    ensures 0 < t.length <= |s|
  {
    if IsSpace(s[0]) then Turn(None, Span(s, IsSpace), true)
    else if s[0] == '#' then Turn(None, if LineLength(s) < |s| then LineLength(s) + 1 else LineLength(s), true)
    else if "//" <= s then Turn(None, 2 + LineLength(s[2..]), true)
    else if "/*" <= s then
      var e := BlockEnd(s, 2);
      if e.Some? then Turn(None, e.value + 2, true) else Turn(None, |s|, false)
    else if IsAlpha(s[0]) || s[0] == '_' then
      var n := Span(s, IsWord);
      Turn(Some(WordToken(s[..n])), n, true)
    else if IsDigit(s[0]) then
      var n := Span(s, IsDigit);
      Turn(Some(Token(INTEGER_LITERAL, s[..n])), n, true)
    else if s[0] == '\'' then CharTurn(s)
    else if s[0] == '"' then StringTurn(s)
    else OperatorTurn(s)
  }

  datatype Lexed = Lexed(tokens: seq<Token>, ok: bool)

  function Lex(s: string): (r: Lexed)
    ensures |r.tokens| > 0 && r.tokens[|r.tokens| - 1].kind == EOF
  {
    if s == "" then Lexed([Token(EOF, "")], true)
    else
      var t := OneTurn(s);
      var r := Lex(s[t.length..]);
      Lexed((if t.token.Some? then [t.token.value] else []) + r.tokens, t.ok && r.ok)
  }

  lemma LexOne(s: string)
    requires s != ""
    ensures var t := OneTurn(s);
            && Lex(s).tokens == (if t.token.Some? then [t.token.value] else []) + Lex(s[t.length..]).tokens
            && Lex(s).ok == (t.ok && Lex(s[t.length..]).ok)
  {
  }

  lemma LexNone()
    ensures Lex("") == Lexed([Token(EOF, "")], true)
  {
  }

  // ------------------------------------------------------------------ the lexer

  lemma SpanFrom(s: string, n: nat, f: char -> bool)
    requires n <= |s| && (forall i :: 0 <= i < n ==> f(s[i])) && (n < |s| ==> !f(s[n]))
    ensures Span(s, f) == n
  {
  }

  class Lexer {
    const source: string
    var pos: nat
    var failed: bool

    ghost predicate Valid()
      reads this
    {
      pos <= |source|
    }

    function Rest(): string
      reads this
      requires Valid()
    {
      source[pos..]
    }

    constructor (source: string)
      ensures this.source == source && pos == 0 && !failed && Valid()
    {
      this.source := source;
      pos, failed := 0, false;
    }

    function Current(): Option<char>
      reads this
    {
      if pos < |source| then Some(source[pos]) else None
    }

    function Peek(): Option<char>
      reads this
    {
      if pos + 1 < |source| then Some(source[pos + 1]) else None
    }

    /** Moves on; past the end it stays there. */
    method Advance()
      requires Valid()
      modifies `pos
      ensures Valid() && pos == if old(pos) < |source| then old(pos) + 1 else |source|
    {
      if pos < |source| {
        pos := pos + 1;
      }
    }

    method SkipWhile(f: char -> bool)
      requires Valid()
      modifies `pos
      ensures Valid() && pos == old(pos) + Span(old(Rest()), f)
    {
      ghost var s := Rest();
      while pos < |source| && f(source[pos])
        invariant old(pos) <= pos <= |source|
        invariant forall i :: 0 <= i < pos - old(pos) ==> f(s[i])
      {
        Advance();
      }
      SpanFrom(s, pos - old(pos), f);
    }

    method SkipWhitespace()
      requires Valid()
      modifies `pos
      ensures Valid() && pos == old(pos) + Span(old(Rest()), IsSpace)
    {
      SkipWhile(IsSpace);
    }

    method SkipLineComment()
      requires Valid() && "//" <= Rest()
      modifies `pos
      ensures Valid() && pos == old(pos) + 2 + LineLength(old(Rest())[2..])
    {
      ghost var s := Rest();
      Advance();
      Advance();
      assert Rest() == s[2..];
      SkipWhile(c => c != '\n');
    }

    method SkipBlockComment()
      requires Valid() && "/*" <= Rest()
      modifies `pos, `failed
      ensures Valid()
      ensures var e := BlockEnd(old(Rest()), 2);
              && pos == (if e.Some? then old(pos) + e.value + 2 else |source|)
              && failed == (old(failed) || e.None?)
    {
      ghost var s := Rest();
      Advance();
      Advance();
      while pos < |source|
        invariant old(pos) + 2 <= pos <= |source|
        invariant BlockEnd(s, pos - old(pos)) == BlockEnd(s, 2) && failed == old(failed)
      {
        assert source[pos] == s[pos - old(pos)];
        assert pos + 1 < |source| ==> source[pos + 1] == s[pos - old(pos) + 1];
        if source[pos] == '*' && Peek() == Some('/') {
          Advance();
          Advance();
          return;
        }
        Advance();
      }
      failed := true;
    }

    method ReadIdentifier() returns (w: string)
      requires Valid()
      modifies `pos
      ensures Valid() && pos == old(pos) + Span(old(Rest()), IsWord) && w == old(Rest())[..Span(old(Rest()), IsWord)]
    {
      var start := pos;
      SkipWhile(IsWord);
      w := source[start..pos];
    }

    method ReadNumber() returns (w: string)
      requires Valid()
      modifies `pos
      ensures Valid() && pos == old(pos) + Span(old(Rest()), IsDigit) && w == old(Rest())[..Span(old(Rest()), IsDigit)]
    {
      var start := pos;
      SkipWhile(IsDigit);
      w := source[start..pos];
    }

    /** No escapes: any one character between single quotes. */
    method ReadCharLiteral() returns (c: Option<char>)
      requires Valid() && pos < |source|
      modifies `pos, `failed
      ensures Valid()
      ensures var t := CharTurn(old(Rest()));
              && pos == old(pos) + t.length && failed == (old(failed) || !t.ok)
              && t.token == (if c.None? then None else Some(Token(CHAR_LITERAL, [c.value])))
    {
      Advance();
      if pos == |source| {
        failed := true;
        return None;
      }
      var ch := source[pos];
      Advance();
      if Current() != Some('\'') {
        failed := true;
        return None;
      }
      Advance();
      return Some(ch);
    }

    method ReadStringLiteral() returns (value: Option<string>)
      requires Valid() && pos < |source|
      modifies `pos, `failed
      ensures Valid()
      ensures var t := StringTurn(old(Rest()));
              && pos == old(pos) + t.length && failed == (old(failed) || !t.ok)
              && t.token == (if value.None? then None else Some(Token(STRING_LITERAL, value.value)))
    {
      hide ReadString, Escaped;
      ghost var s := Rest();
      Advance();
      var text := "";
      while pos < |source| && source[pos] != '"'
        invariant old(pos) + 1 <= pos <= |source| && failed == old(failed)
        invariant Continues(ReadString(s, 1), text, ReadString(s, pos - old(pos)))
      {
        ghost var k := pos - old(pos);
        ReadOne(s, k);
        assert source[pos] == s[k];
        if source[pos] == '\\' {
          Advance();
          if pos == |source| {
            failed := true;
            return None;
          }
          assert source[pos] == s[k + 1];
          text := text + [Escaped(source[pos])];
        } else {
          text := text + [source[pos]];
        }
        Advance();
      }
      ReadOne(s, pos - old(pos));
      if Current() != Some('"') {
        failed := true;
        return None;
      }
      assert s[pos - old(pos)] == '"';
      assert text + "" == text;
      Advance();
      return Some(text);
    }

    method SkipPreprocessorDirective()
      requires Valid()
      modifies `pos
      ensures Valid()
      ensures var n := LineLength(old(Rest()));
              pos == old(pos) + if n < |old(Rest())| then n + 1 else n
    {
      SkipWhile(c => c != '\n');
      if Current() == Some('\n') {
        Advance();
      }
    }

    /** One turn of the loop over the text. */
    method NextTurn() returns (token: Option<Token>)
      requires Valid() && pos < |source|
      modifies `pos, `failed
      ensures Valid()
      ensures var t := OneTurn(old(Rest()));
              token == t.token && pos == old(pos) + t.length && failed == (old(failed) || !t.ok)
    {
      hide BlockEnd, ReadString, TwoChars, OneChar, Span;
      ghost var s := Rest();
      assert s[0] == source[pos];
      assert |s| > 1 ==> s[1] == source[pos + 1];
      var c := source[pos];
      if IsSpace(c) {
        SkipWhitespace();
        return None;
      }
      if c == '#' {
        SkipPreprocessorDirective();
        return None;
      }
      if c == '/' && Peek() == Some('/') {
        SkipLineComment();
        return None;
      }
      if c == '/' && Peek() == Some('*') {
        SkipBlockComment();
        return None;
      }
      if IsAlpha(c) || c == '_' {
        var w := ReadIdentifier();
        return Some(Token(if w in KEYWORDS then KEYWORDS[w] else IDENTIFIER, w));
      }
      if IsDigit(c) {
        var w := ReadNumber();
        return Some(Token(INTEGER_LITERAL, w));
      }
      if c == '\'' {
        var ch := ReadCharLiteral();
        return if ch.None? then None else Some(Token(CHAR_LITERAL, [ch.value]));
      }
      if c == '"' {
        var text := ReadStringLiteral();
        return if text.None? then None else Some(Token(STRING_LITERAL, text.value));
      }
      token := ReadOperator();
    }

    method ReadOperator() returns (token: Option<Token>)
      requires Valid() && pos < |source|
      modifies `pos, `failed
      ensures Valid()
      ensures var t := OperatorTurn(old(Rest()));
              token == t.token && pos == old(pos) + t.length && failed == (old(failed) || !t.ok)
    {
      hide TwoChars, OneChar;
      var s := source[pos..];
      assert s == Rest();
      if TwoChars(s).Some? {
        TwoCharsLength(s);
        Advance();
        Advance();
        return Some(Token(TwoChars(s).value, s[..2]));
      }
      Advance();
      if OneChar(s[0]).Some? {
        return Some(Token(OneChar(s[0]).value, [s[0]]));
      }
      failed := true;
      return None;
    }

    method Tokenize() returns (tokens: seq<Token>)
      requires pos == 0
      modifies `pos, `failed
      ensures tokens == Lex(source).tokens && failed == (old(failed) || !Lex(source).ok)
    {
      hide OneTurn, Lex;
      tokens := [];
      assert source[0..] == source;
      while pos < |source|
        invariant Valid()
        invariant tokens + Lex(Rest()).tokens == Lex(source).tokens
        invariant failed || !Lex(Rest()).ok <==> old(failed) || !Lex(source).ok
        decreases |source| - pos
      {
        ghost var s := Rest();
        LexOne(s);
        var token := NextTurn();
        assert Rest() == s[OneTurn(s).length..];
        if token.Some? {
          tokens := tokens + [token.value];
        }
      }
      assert Rest() == "";
      LexNone();
      tokens := tokens + [Token(EOF, "")];
    }
  }

  lemma TwoCharsLength(s: string)
    requires TwoChars(s).Some?
    ensures |s| >= 2
  {
  }
}
