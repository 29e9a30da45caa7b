/** What three-address code does: a small-step machine over one function's instruction list. */
module IrMachine {
  import opened Words
  import opened Ast
  import opened IrGenerator
  import Decimal

  /** One call made by the program, with the arguments it passed. */
  datatype Event = Event(callee: string, args: seq<word>)

  /** The value a call returns, and the calls made by then. */
  datatype Answer = Answer(value: word, trace: seq<Event>)

  /** Everything outside the function: which operations have a meaning, what the machine makes of
      the others (None when it does not get past them), what a call of a function with arguments
      answers after the calls made before (None when it has no meaning), and what calls leave in
      scratch registers. */
  datatype World = World(defined: (BinOp, word, word) -> bool,
                         stray: (BinOp, word, word) -> Option<word>,
                         call: (string, seq<word>, seq<Event>) -> Option<Answer>,
                         scratch: (seq<Event>, nat) -> word)
  {
    /** What the machine computes, meaningful or not. */
    function Result(op: BinOp, a: word, b: word): Option<word> {
      if defined(op, a, b) then Some(EvalBin(op, a, b)) else stray(op, a, b)
    }
  }

  predicate IsConstant(s: string) {
    Decimal.IsDigits(s) || (|s| > 0 && s[0] == '-' && Decimal.IsDigits(s[1..]))
  }

  function ConstantValue(s: string): int
    requires IsConstant(s)
  {
    if Decimal.IsDigits(s) then Decimal.Read(s) else 0 - Decimal.Read(s[1..])
  }

  type Store = map<string, word>

  function Get(store: Store, x: string): word {
    if x in store then store[x] else 0
  }

  function Operand(store: Store, s: string): word {
    if IsConstant(s) then Wrap(ConstantValue(s)) else Get(store, s)
  }

  /** Variables and temporaries, the parameters waiting for a call, and the calls made. */
  datatype Local = Local(store: Store, params: seq<word>, trace: seq<Event>)

  datatype State =
    | Running(pc: nat, local: Local)
    | Returned(value: Option<word>, local: Local)
    | Stuck

  /** The effect of an instruction that only moves to the next one; None when it is not such an
      instruction, or has no meaning. A call pops its own number of parameters. */
  function StepLocal(w: World, i: Instr, l: Local): Option<Local> {
    match i
    case BinaryOpIR(t, op, a, b) =>
      var v := w.Result(op, Operand(l.store, a), Operand(l.store, b));
      if v.Some? then Some(l.(store := l.store[t := v.value])) else None
    case UnaryOpIR(t, op, a) =>
      var v := EvalUn(op, Operand(l.store, a));
      if v.Some? then Some(l.(store := l.store[t := v.value])) else None
    case AssignIR(x, a) => Some(l.(store := l.store[x := Operand(l.store, a)]))
    case ParamIR(a) => Some(l.(params := l.params + [Operand(l.store, a)]))
    case CallIR(t, f, n) =>
      if n > |l.params| then None
      else
        var keep := |l.params| - n;
        var a := w.call(f, l.params[keep..], l.trace);
        if a.None? then None
        else Some(Local(l.store[t := a.value.value], l.params[..keep], a.value.trace))
    case StringLiteralIR(_, _) => Some(l)
    case _ => None
  }

  function RunLocal(w: World, code: seq<Instr>, l: Local): Option<Local> {
    if code == [] then Some(l)
    else
      var r := StepLocal(w, code[0], l);
      if r.None? then None else RunLocal(w, code[1..], r.value)
  }

  lemma {:induction false} RunLocalAppend(w: World, a: seq<Instr>, b: seq<Instr>, l: Local)
    ensures RunLocal(w, a + b, l)
            == if RunLocal(w, a, l).None? then None else RunLocal(w, b, RunLocal(w, a, l).value)
  {
    if a == [] {
      assert a + b == b;
    } else {
      assert (a + b)[1..] == a[1..] + b;
      var r := StepLocal(w, a[0], l);
      if r.Some? {
        RunLocalAppend(w, a[1..], b, r.value);
      }
    }
  }

  lemma RunLocalOne(w: World, i: Instr, l: Local)
    ensures RunLocal(w, [i], l) == StepLocal(w, i, l)
  {
    assert [i][1..] == [];
  }

  /** Where a label is defined; the length of the code when it is not. */
  function Target(code: seq<Instr>, mark: string): nat {
    if code == [] then 0
    else if code[0] == LabelIR(mark) then 0
    else 1 + Target(code[1..], mark)
  }

  function Step(w: World, code: seq<Instr>, s: State): State {
    if !s.Running? then s
    else if s.pc >= |code| then Stuck
    else
      match code[s.pc]
      case LabelIR(_) => s.(pc := s.pc + 1)
      case FunctionEntryIR(_) => s.(pc := s.pc + 1)
      case GotoIR(mark) => s.(pc := Target(code, mark))
      case CondGotoIR(c, mark, isTrue) =>
        s.(pc := if (Operand(s.local.store, c) != 0) == isTrue then Target(code, mark) else s.pc + 1)
      case ReturnIR(v) =>
        Returned(if v.None? then None else Some(Operand(s.local.store, v.value)), s.local)
      case FunctionExitIR(_) => Returned(None, s.local)
      case i =>
        var r := StepLocal(w, i, s.local);
        if r.None? then Stuck else Running(s.pc + 1, r.value)
  }

  function Run(w: World, code: seq<Instr>, s: State, n: nat): State
    decreases n
  {
    if n == 0 then s else Run(w, code, Step(w, code, s), n - 1)
  }

  lemma {:induction false} RunAdds(w: World, code: seq<Instr>, s: State, m: nat, n: nat)
    ensures Run(w, code, s, m + n) == Run(w, code, Run(w, code, s, m), n)
    decreases m
  {
    if m > 0 {
      RunAdds(w, code, Step(w, code, s), m - 1, n);
    }
  }

  /** Once halted, halted for good. */
  lemma {:induction false} HaltedStays(w: World, code: seq<Instr>, s: State, n: nat)
    requires !s.Running?
    ensures Run(w, code, s, n) == s
    decreases n
  {
    if n > 0 {
      HaltedStays(w, code, s, n - 1);
    }
  }

  /** Still running after n steps means running after every fewer. */
  lemma RunningBefore(w: World, code: seq<Instr>, s: State, m: nat, n: nat)
    requires m <= n && Run(w, code, s, n).Running?
    ensures Run(w, code, s, m).Running?
  {
    RunAdds(w, code, s, m, n - m);
    if !Run(w, code, s, m).Running? {
      HaltedStays(w, code, Run(w, code, s, m), n - m);
    }
  }

  /** `part` sits in `code` at `pc`. */
  ghost predicate HasCode(code: seq<Instr>, pc: nat, part: seq<Instr>) {
    pc + |part| <= |code| && code[pc..pc + |part|] == part
  }

  lemma HasCodeSplit(code: seq<Instr>, pc: nat, a: seq<Instr>, b: seq<Instr>)
    requires HasCode(code, pc, a + b)
    ensures HasCode(code, pc, a) && HasCode(code, pc + |a|, b)
  {
    var part := code[pc..pc + |a + b|];
    assert part[..|a|] == a && part[|a|..] == b;
    assert code[pc..pc + |a|] == part[..|a|];
    assert code[pc + |a|..pc + |a| + |b|] == part[|a|..];
  }

  lemma StepOfLocal(w: World, code: seq<Instr>, pc: nat, l: Local)
    requires pc < |code| && StepLocal(w, code[pc], l).Some?
    ensures Step(w, code, Running(pc, l)) == Running(pc + 1, StepLocal(w, code[pc], l).value)
  {
  }

  /** Straight-line code embedded anywhere takes one step per instruction. */
  lemma {:induction false} RunStraight(w: World, code: seq<Instr>, pc: nat, part: seq<Instr>, l: Local)
    requires HasCode(code, pc, part) && RunLocal(w, part, l).Some?
    ensures Run(w, code, Running(pc, l), |part|) == Running(pc + |part|, RunLocal(w, part, l).value)
    decreases |part|
  {
    if part != [] {
      assert code[pc] == code[pc..pc + |part|][0] == part[0];
      assert code[pc + 1..pc + |part|] == code[pc..pc + |part|][1..];
      StepOfLocal(w, code, pc, l);
      var l' := StepLocal(w, part[0], l).value;
      RunStraight(w, code, pc + 1, part[1..], l');
    }
  }
}
