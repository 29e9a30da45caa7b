/** String literals in the assembly. */
module StringData {
  // The label a literal's operand names stands before one .asciz line, and the assembler reads that
  // line as the characters of the literal.

  import opened Words
  import opened Ast
  import opened IrGenerator
  import opened RegisterAllocation
  import opened CodeGeneration
  import ArmMachine
  import ArmLabels
  import Compiler

  // ------------------------------------------------------------------ the characters

  /** The character a backslash and `c` stand for (GNU as, section 3.6.1.1). */
  function Unescaped(c: char): Option<char> {
    match c
    case '\\' => Some('\\')
    case '"' => Some('"')
    case 'n' => Some('\n')
    case 't' => Some('\t')
    case 'r' => Some('\r')
    case 'b' => Some('\U{08}')
    case 'f' => Some('\U{0c}')
    case _ => None
  }

  /** What the assembler makes of the text after an opening quote: the characters up to the closing
      quote, and what follows it. */
  function ReadQuoted(s: string): Option<(string, string)> {
    if s == "" then None
    else if s[0] == '"' then Some(("", s[1..]))
    else if s[0] != '\\' then Prepend(s[0], ReadQuoted(s[1..]))
    else if |s| == 1 || Unescaped(s[1]).None? then None
    else Prepend(Unescaped(s[1]).value, ReadQuoted(s[2..]))
  }

  function Prepend(c: char, r: Option<(string, string)>): Option<(string, string)> {
    if r.None? then None else Some(([c] + r.value.0, r.value.1))
  }

  /** The assembler reads an escaped string as the string. */
  lemma {:induction false} EscapeReads(s: string, rest: string)
    ensures ReadQuoted(Escape(s) + "\"" + rest) == Some((s, rest))
    decreases s
  {
    var all := Escape(s) + "\"" + rest;
    if s == "" {
      assert all == "\"" + rest;
    } else {
      var more := Escape(s[1..]) + "\"" + rest;
      EscapeReads(s[1..], rest);
      assert [s[0]] + s[1..] == s;
      if s[0] == '\\' || s[0] == '"' {
        assert all == ['\\', s[0]] + more && all[2..] == more;
      } else {
        assert all == [s[0]] + more && all[1..] == more;
      }
    }
  }

  // ------------------------------------------------------------------ the label

  /** The line that holds the characters. */
  function DataLine(content: string): Line {
    Text(".asciz \"" + Escape(content) + "\"")
  }

  /** Wherever the label stands, the characters stand behind it. */
  ghost predicate Followed(p: seq<Line>, mark: string, content: string) {
    forall k :: 0 <= k < |p| && p[k] == Label(mark) ==> k + 1 < |p| && p[k + 1] == DataLine(content)
  }

  lemma FollowedJoin(a: seq<Line>, b: seq<Line>, mark: string, content: string)
    requires Followed(a, mark, content) && Followed(b, mark, content)
    ensures Followed(a + b, mark, content)
  {
    hide DataLine;
    forall k | 0 <= k < |a + b| && (a + b)[k] == Label(mark)
      ensures k + 1 < |a + b| && (a + b)[k + 1] == DataLine(content)
    {
      if k < |a| {
        assert a[k] == Label(mark);
      } else {
        assert b[k - |a|] == Label(mark);
      }
    }
  }

  /** The instruction defines the label for this string or not at all. */
  predicate Respects(i: Instr, mark: string, content: string) {
    i != FunctionEntryIR(mark) && (i.StringLiteralIR? && i.mark == mark ==> i.content == content)
  }

  lemma InstrFollowed(m: Assignment, c: Context, i: Instr, mark: string, content: string)
    requires Respects(i, mark, content) && !("." <= mark)
    ensures Followed(GenInstr(m, c, i), mark, content)
    ensures i == StringLiteralIR(mark, content) ==> Label(mark) in GenInstr(m, c, i)
  {
    if !i.LabelIR? && !i.FunctionEntryIR? && !i.FunctionExitIR? && !i.StringLiteralIR? {
      ArmLabels.NoLabelLines(m, c, i);
      hide GenInstr, DataLine;
    } else {
      DotFirst(c.fn, mark);
      hide Escape;
    }
  }

  lemma DotFirst(fn: string, mark: string)
    requires !("." <= mark)
    ensures forall x :: MarkOf(fn, x) != mark
    ensures forall name :: "." + name + "_epilogue" != mark
  {
    forall x
      ensures MarkOf(fn, x) != mark
    {
      assert MarkOf(fn, x)[0] == '.';
    }
    forall name: string
      ensures "." + name + "_epilogue" != mark
    {
      assert ("." + name + "_epilogue")[0] == '.';
    }
  }

  lemma {:induction false} CodeFollowed(m: Assignment, c: Context, code: seq<Instr>, mark: string, content: string)
    requires (forall i :: i in code ==> Respects(i, mark, content)) && !("." <= mark)
    ensures Followed(GenCode(m, c, code), mark, content)
    ensures StringLiteralIR(mark, content) in code ==> Label(mark) in GenCode(m, c, code)
    decreases code
  {
    hide Respects, GenInstr, Next, Followed;
    if code == [] {
      NoneFollowed(mark, content);
    } else {
      assert code == [code[0]] + code[1..];
      InstrFollowed(m, c, code[0], mark, content);
      CodeFollowed(m, Next(c, code[0]), code[1..], mark, content);
      FollowedJoin(GenInstr(m, c, code[0]), GenCode(m, Next(c, code[0]), code[1..]), mark, content);
    }
  }

  lemma NoneFollowed(mark: string, content: string)
    ensures Followed([], mark, content)
  {
  }

  lemma {:induction false} ProgramFollowed(maps: seq<Assignment>, codes: seq<seq<Instr>>, mark: string, content: string)
    requires |maps| == |codes| && (forall i :: i in Flat(codes) ==> Respects(i, mark, content)) && !("." <= mark)
    ensures Followed(GenProgram(maps, codes), mark, content)
    ensures StringLiteralIR(mark, content) in Flat(codes) ==> Label(mark) in GenProgram(maps, codes)
    decreases codes
  {
    hide Respects, GenCode, Followed;
    if codes == [] {
      NoneFollowed(mark, content);
    } else {
      var n := |codes| - 1;
      ProgramFollowed(maps[..n], codes[..n], mark, content);
      CodeFollowed(maps[n], Context("", []), codes[n], mark, content);
      FollowedJoin(GenProgram(maps[..n], codes[..n]), GenCode(maps[n], Context("", []), codes[n]), mark, content);
    }
  }

  lemma {:induction false} FindsLabel(p: seq<Line>, mark: string)
    requires Label(mark) in p
    ensures ArmMachine.Find(p, mark) < |p| && p[ArmMachine.Find(p, mark)] == Label(mark)
    decreases p
  {
    if p[0] != Label(mark) {
      assert p == [p[0]] + p[1..];
      FindsLabel(p[1..], mark);
    }
  }

  lemma HeaderFollowed(mark: string, content: string)
    ensures Followed(HEADER, mark, content)
  {
    hide DataLine;
  }

  /** In the assembly of a program, the label of a string literal leads to the characters of that
      literal, unless a function has the name of the label. */
  lemma StringFound(maps: seq<Assignment>, codes: seq<seq<Instr>>, mark: string, content: string)
    requires |maps| == |codes| && UniqueStrings(Flat(codes)) && DefinesString(Flat(codes), mark, content)
    requires !("." <= mark) && FunctionEntryIR(mark) !in Flat(codes)
    ensures var p := HEADER + GenProgram(maps, codes);
            var i := ArmMachine.Find(p, mark);
            && i + 1 < |p| && p[i] == Label(mark) && p[i + 1] == DataLine(content)
            && forall rest :: ReadQuoted(Escape(content) + "\"" + rest) == Some((content, rest))
  {
    var p := HEADER + GenProgram(maps, codes);
    forall i | i in Flat(codes)
      ensures Respects(i, mark, content)
    {
      OneContent(Flat(codes), i, mark, content);
    }
    ProgramFollowed(maps, codes, mark, content);
    HeaderFollowed(mark, content);
    FollowedJoin(HEADER, GenProgram(maps, codes), mark, content);
    FindsLabel(p, mark);
    forall rest
      ensures ReadQuoted(Escape(content) + "\"" + rest) == Some((content, rest))
    {
      EscapeReads(content, rest);
    }
    hide GenProgram, Escape, DataLine, ReadQuoted, ArmMachine.Find, Respects;
  }

  lemma OneContent(code: seq<Instr>, i: Instr, mark: string, content: string)
    requires UniqueStrings(code) && DefinesString(code, mark, content) && i in code && i != FunctionEntryIR(mark)
    ensures Respects(i, mark, content)
  {
  }

  // ------------------------------------------------------------------ whole programs

  lemma {:induction false} ProgramTable(fs: seq<Function>, g: GenState, before: seq<Instr>)
    requires TableOf(g, before)
    ensures TableOf(LowerProgram(fs, g).g, before + LowerProgram(fs, g).code)
    decreases fs
  {
    hide TableOf, LowerFunction;
    if fs == [] {
      assert before + [] == before;
    } else {
      var F := LowerFunction(fs[0], g);
      FunctionTable(fs[0], g, before);
      ProgramTable(fs[1..], F.g, before + F.code);
      Reassociate(before, F.code, LowerProgram(fs[1..], F.g).code);
    }
  }

  /** Only functions with a body are entered. */
  lemma {:induction false} EntriesAre(fs: seq<Function>, g: GenState, name: string)
    requires ArmLabels.StringsPlain(g) && FunctionEntryIR(name) in LowerProgram(fs, g).code
    ensures exists f :: f in fs && f.body != [] && f.name == name
    decreases fs
  {
    hide LowerFunction, ArmLabels.StringsPlain;
    var (f, F) := (fs[0], LowerFunction(fs[0], g));
    OneEntry(f, g, name);
    if FunctionEntryIR(name) in F.code {
      assert f in fs;
    } else {
      EntriesAre(fs[1..], F.g, name);
      var h :| h in fs[1..] && h.body != [] && h.name == name;
      assert h in fs;
    }
  }

  lemma OneEntry(f: Function, g: GenState, name: string)
    requires ArmLabels.StringsPlain(g)
    ensures ArmLabels.StringsPlain(LowerFunction(f, g).g)
    ensures FunctionEntryIR(name) in LowerFunction(f, g).code ==> f.body != [] && f.name == name
  {
    if f.body != [] {
      ArmLabels.StmtsShape(f.body, g.(temps := 0, labels := 0));
    }
    hide LowerStmts;
  }

  /** What a fresh generator says about a literal's label. */
  lemma ProgramLiterals(fs: seq<Function>, mark: string, content: string)
    requires DefinesString(LowerProgram(fs, FRESH).code, mark, content)
    ensures UniqueStrings(LowerProgram(fs, FRESH).code) && !("." <= mark)
  {
    var code := LowerProgram(fs, FRESH).code;
    NoTable(FRESH);
    ProgramTable(fs, FRESH, []);
    assert [] + code == code;
    TableUnique(LowerProgram(fs, FRESH).g, code);
    TableMarks(LowerProgram(fs, FRESH).g, code, mark, content);
    hide LowerProgram, TableOf;
    assert mark[0] == 's';
  }

  lemma TableMarks(g: GenState, code: seq<Instr>, mark: string, content: string)
    requires TableOf(g, code) && DefinesString(code, mark, content)
    ensures "str_" <= mark
  {
    StringsHold(code, StringLiteralIR(mark, content));
    var k :| 0 <= k < |StringsOf(code)| && StringsOf(code)[k] == StringLiteralIR(mark, content);
    assert mark == StringMark(k);
  }

  /** Whatever string literal a program contains, its label in the compiled program leads to its
      characters, unless a function has the name of the label. */
  lemma ProgramString(fs: seq<Function>, maps: seq<Assignment>, p: seq<Line>, mark: string, content: string)
    requires Compiler.Emitted(Compiler.WithBodies(fs), FRESH, maps, p)
    requires DefinesString(LowerProgram(fs, FRESH).code, mark, content)
    requires forall f :: f in fs && f.body != [] ==> f.name != mark
    ensures var i := ArmMachine.Find(p, mark);
            && i + 1 < |p| && p[i] == Label(mark) && p[i + 1] == DataLine(content)
            && forall rest :: ReadQuoted(Escape(content) + "\"" + rest) == Some((content, rest))
  {
    ProgramLiterals(fs, mark, content);
    Compiler.ProgramIsFlat(fs, FRESH);
    if FunctionEntryIR(mark) in LowerProgram(fs, FRESH).code {
      EntriesAre(fs, FRESH, mark);
    }
    StringFound(maps, ArmLabels.Lowered(Compiler.WithBodies(fs), FRESH), mark, content);
    hide *;
    EmittedIs(Compiler.WithBodies(fs), maps, p);
  }

  lemma EmittedIs(fs: seq<Function>, maps: seq<Assignment>, p: seq<Line>)
    requires Compiler.Emitted(fs, FRESH, maps, p)
    ensures |maps| == |ArmLabels.Lowered(fs, FRESH)| && p == HEADER + GenProgram(maps, ArmLabels.Lowered(fs, FRESH))
  {
    hide GenProgram, ArmLabels.Lowered;
  }
}
