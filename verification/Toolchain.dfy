/** The stages of the compiler one after the other, from program text to assembly. */
module Toolchain {
  import opened Words
  import opened Ast
  import opened IrGenerator
  import CodeGeneration
  import RegisterAllocation
  import Compiler
  import Lexing
  import Parsing
  import Printing
  import ProgramPrinting
  import ProgramGrammar
  import ArmMachine
  import ArmSimulation
  import IrMachine
  import Source
  import Preservation
  import Linking

  /** The functions among the declarations, in order. */
  function FunctionsOf(ds: seq<Parsing.Decl>): seq<Function> {
    if ds == [] then [] else (if ds[0].FunctionDecl? then [ds[0].f] else []) + FunctionsOf(ds[1..])
  }

  function Parsed(text: string): Option<Parsing.Got<seq<Parsing.Decl>>> {
    Parsing.ParseProgram(Lexing.Lex(text).tokens)
  }

  /** Functions of the program with a body. */
  function Bodies(ds: seq<Parsing.Decl>): seq<Function> {
    Compiler.WithBodies(FunctionsOf(ds))
  }

  method SelectFunctions(ds: seq<Parsing.Decl>) returns (fs: seq<Function>)
    ensures fs == FunctionsOf(ds)
  {
    fs := [];
    for i := 0 to |ds|
      invariant fs + FunctionsOf(ds[i..]) == FunctionsOf(ds)
    {
      assert ds[i..][1..] == ds[i + 1..];
      if ds[i].FunctionDecl? {
        fs := fs + [ds[i].f];
      }
    }
  }

  datatype Built = Assembly(lines: seq<CodeGeneration.Line>) | Rejected | Hangs

  /** Text in, assembly out, unless an error was reported or the parser never ends. */
  method Build(text: string) returns (built: Built, ghost maps: seq<RegisterAllocation.Assignment>)
    ensures built.Hangs? <==> Lexing.Lex(text).ok && Parsed(text).None?
    ensures built.Assembly? <==> Lexing.Lex(text).ok && Parsed(text).Some? && Parsed(text).value.ok
    ensures built.Assembly? ==> Compiler.Emitted(Bodies(Parsed(text).value.value), FRESH, maps, built.lines)
  {
    hide Lexing.Lex, Parsing.ParseProgram, Compiler.Emitted, FunctionsOf;
    maps := [];
    var lexer := new Lexing.Lexer(text);
    var tokens := lexer.Tokenize();
    if lexer.failed {
      return Rejected, maps;
    }
    var parser := new Parsing.Parser(tokens);
    var program, ends := parser.Parse();
    if !ends {
      return Hangs, maps;
    }
    if program.None? {
      return Rejected, maps;
    }
    var fs := SelectFunctions(program.value);
    var lines;
    lines, maps := Compiler.Compile(fs);
    built := Assembly(lines);
  }

  /** For a program in print, what Build starts from is that very program. */
  lemma PrintedIsParsed(ds: seq<Parsing.Decl>)
    requires forall d :: d in ds ==> ProgramPrinting.PrintableDecl(d)
    ensures var text := Printing.Spaced(ProgramPrinting.PrintDecls(ds));
            && Lexing.Lex(text).ok && Parsed(text).Some? && Parsed(text).value.ok
            && Bodies(Parsed(text).value.value) == Bodies(ds)
  {
    ProgramPrinting.ProgramRoundTrip(ds);
  }

  lemma {:induction false} FunctionsAre(ds: seq<Parsing.Decl>, f: Function)
    ensures f in FunctionsOf(ds) <==> Parsing.FunctionDecl(f) in ds
    decreases ds
  {
    if ds != [] {
      FunctionsAre(ds[1..], f);
      assert ds == [ds[0]] + ds[1..];
    }
  }

  /** What the grammar says a text is. */
  ghost predicate Denotes(text: string, ds: seq<Parsing.Decl>) {
    var ts := Lexing.Lex(text).tokens;
    Lexing.Lex(text).ok && ProgramGrammar.Program(ts, 0, |ts| - 1, ds)
  }

  /** Assembly is made of a text, from a program, if and only if the grammar makes it that program. */
  lemma BuildsExactly(text: string, ds: seq<Parsing.Decl>)
    ensures (Lexing.Lex(text).ok && Parsed(text).Some? && Parsed(text).value.ok && Parsed(text).value.value == ds)
            <==> Denotes(text, ds)
  {
    hide Lexing.Lex, Parsing.ParseProgram, ProgramGrammar.Program;
    ProgramGrammar.AcceptsExactly(text, ds);
    if Parsed(text).Some? && Parsed(text).value.ok && Parsed(text).value.value == ds {
      assert Parsing.ParseProgram(Lexing.Lex(text).tokens) == Some(Parsing.Got(ds, Parsed(text).value.rest, true));
    }
  }

  /** From text to running code: what a function of the program that the grammar reads in a text means,
      the assembly made of the text does. */
  lemma TextCorrect(text: string, ds: seq<Parsing.Decl>, w: IrMachine.World, arity: ArmSimulation.Arity,
                    linked: set<string>, maps: seq<RegisterAllocation.Assignment>, p: seq<CodeGeneration.Line>,
                    depth: nat, fuel: nat, f: Function, m: Source.Memory, t: ArmMachine.ArmState, x: Option<word>,
                    m': Source.Memory)
    requires Denotes(text, ds) && Compiler.IsAssembly(Bodies(ds), FRESH, maps, p)
    requires Linking.AllInDomain(w, arity, Bodies(ds), linked, FRESH)
    requires Parsing.FunctionDecl(f) in ds && f.body != [] && f.name in linked
    requires Compiler.Called(p, f, m, t, 36 * depth)
    requires Preservation.Means(Linking.Linked(w, Bodies(ds), linked, depth, fuel), f.body, m, x, m')
    ensures Parsed(text).Some? && Parsed(text).value.ok && Bodies(Parsed(text).value.value) == Bodies(ds)
    ensures t.At? && Compiler.Answers(w, arity, p, t, x, m'.trace)
  {
    hide *;
    BuildsExactly(text, ds);
    var i := BodyIndex(ds, f);
    Linking.ProgramCorrect(w, arity, Bodies(ds), linked, FRESH, maps, p, depth, fuel, i, m, t, x, m');
    StandsAt(p, f, m, t, 36 * depth);
  }

  lemma StandsAt(p: seq<CodeGeneration.Line>, f: Function, m: Source.Memory, t: ArmMachine.ArmState, room: nat)
    requires Compiler.Called(p, f, m, t, room)
    ensures t.At?
  {
  }

  lemma BodyIndex(ds: seq<Parsing.Decl>, f: Function) returns (i: nat)
    requires Parsing.FunctionDecl(f) in ds && f.body != []
    ensures i < |Bodies(ds)| && Bodies(ds)[i] == f
  {
    FunctionsAre(ds, f);
    i :| 0 <= i < |Bodies(ds)| && Bodies(ds)[i] == f;
  }
}
