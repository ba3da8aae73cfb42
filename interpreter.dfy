/**
 * The dispatch loop of `main`: one instruction at a time over the token array, with
 * the value stack and the variable store. `Step` gives the effect of the instruction
 * at `pc`, `Exec` runs the loop for a bounded number of steps, and the methods do the
 * same on the `ValueStack` and `VarStore` objects, as the C loop does on its lists.
 *
 * What the console and the clock supply (`in`, `inchar`, `rand()`) and the
 * transcendental functions come from an `Env`; output is not modelled.
 */
module Interpreter {
  import opened Wrappers
  import opened CNum
  import opened Tokens
  import Stack
  import Vars
  import Control
  import Literals
  import Validator
  import Lexer

  /** What `in` reads, the character code `inchar` reads, what `rand()` answers, at a given step; and the math library. */
  datatype Env = Env(number: nat -> real, key: nat -> int, rand: nat -> nat, math: Stack.MathLib)

  datatype Instr =
    | Push | Pop | Dup | Clear | Swap
    | Binary(bop: Stack.BinOp)
    | Unary(uop: Stack.UnOp)
    | Print | PrintNl | In | InChar | Out | OutInt | OutChar | SClear | ShowStack
    | If(cond: Control.Cond) | EndIf | Goto | Label
    | Var | Store | PStore | Load | Del | VClear
    | Randint | Halt | Unknown

  /** The instruction a token names; anything else is unknown. */
  function Decode(t: string): Instr {
    match t
    case "push" => Push
    case "pop" => Pop
    case "dup" => Dup
    case "clear" => Clear
    case "swap" => Swap
    case "sum" => Binary(Stack.Sum)
    case "sub" => Binary(Stack.Sub)
    case "mult" => Binary(Stack.Mult)
    case "div" => Binary(Stack.Div)
    case "rem" => Binary(Stack.Rem)
    case "toint" => Unary(Stack.ToInt)
    case "inc" => Unary(Stack.Inc)
    case "dec" => Unary(Stack.Dec)
    case "and" => Binary(Stack.And)
    case "or" => Binary(Stack.Or)
    case "not" => Unary(Stack.Not)
    case "xor" => Binary(Stack.Xor)
    case "lshift" => Unary(Stack.LShift)
    case "rshift" => Unary(Stack.RShift)
    case "print" => Print
    case "printnl" => PrintNl
    case "in" => In
    case "inchar" => InChar
    case "out" => Out
    case "outint" => OutInt
    case "outchar" => OutChar
    case "sclear" => SClear
    case "ifeq" => If(Control.Eq)
    case "ifdif" => If(Control.Dif)
    case "ifgr" => If(Control.Gr)
    case "iflw" => If(Control.Lw)
    case "iftrue" => If(Control.IsTrue)
    case "iffalse" => If(Control.IsFalse)
    case "endif" => EndIf
    case "goto" => Goto
    case "var" => Var
    case "store" => Store
    case "pstore" => PStore
    case "load" => Load
    case "del" => Del
    case "randint" => Randint
    case "vclear" => VClear
    case "abs" => Unary(Stack.Abs)
    case "pow" => Binary(Stack.Pow)
    case "ln" => Unary(Stack.Ln)
    case "log" => Unary(Stack.Log)
    case "ceil" => Unary(Stack.Ceil)
    case "logtwo" => Unary(Stack.LogTwo)
    case "sqrt" => Unary(Stack.Sqrt)
    case "sin" => Unary(Stack.Sin)
    case "cos" => Unary(Stack.Cos)
    case "tan" => Unary(Stack.Tan)
    case "stack" => ShowStack
    case "label" => Label
    case "halt" => Halt
    case _ => Unknown
  }

  /** The exit code when a one-operand operation meets too small a stack: 5 for the integer ones, 4 for the rest. */
  function UnaryError(op: Stack.UnOp): int {
    if op in {Stack.ToInt, Stack.Inc, Stack.Dec, Stack.Not, Stack.LShift, Stack.RShift} then 5 else 4
  }

  /** The token after `pc`, when it lies within the program. */
  function Arg(code: seq<Token>, elements: nat, pc: nat): (r: Option<string>)
    requires pc < elements <= |code|
    ensures r.Some? <==> pc + 1 < elements
  {
    if pc + 1 < elements then Some(code[pc + 1].text) else None
  }

  /**
   * Instruction `ins` with argument `arg` has a defined meaning in C on this state.
   * The excluded cases dereference NULL, divide by zero or declare an array
   * of length 0.
   */
  predicate Defined(ins: Instr, arg: Option<string>, s: seq<real>, vs: seq<Vars.Var>) {
    match ins
    // `if_true`/`if_false` read past the last node of a stack of two or more.
    case If(c) => (c == Control.IsTrue || c == Control.IsFalse) ==> |s| < 2
    // `rem` divides by zero on a top in (-1, 1) other than 0.
    case Binary(op) => Stack.BinaryDefined(op, s)
    // `store` walks to the top of an empty stack once the name is found.
    case Store => arg.Some? && Vars.Find(vs, arg.value) != -1 ==> s != []
    // `prepare_string` declares `char temp[len]`, an array of length 0 for an empty argument.
    case Print => arg.Some? ==> |arg.value| >= 1
    case PrintNl => arg.Some? ==> |arg.value| >= 1
    // `rand() % limit` with a limit of 0.
    case Randint => arg.Some? && Literals.IsNumeric(arg.value) ==> Trunc(Literals.Atof(arg.value)) != 0
    case _ => true
  }

  predicate DefinedAt(code: seq<Token>, elements: nat, pc: nat, s: seq<real>, vs: seq<Vars.Var>)
    requires pc < elements <= |code|
  {
    Defined(Decode(code[pc].text), Arg(code, elements, pc), s, vs)
  }

  /** What one instruction leads to: the next index and state, `halt`, or an exit code. */
  datatype Outcome =
    | Next(pc: nat, stack: seq<real>, vars: seq<Vars.Var>)
    | Stop(stack: seq<real>, vars: seq<Vars.Var>)
    | Fail(code: int)

  /** The instructions that only work on the value stack. */
  predicate IsStackInstr(ins: Instr) {
    ins.Pop? || ins.Dup? || ins.Clear? || ins.VClear? || ins.Swap? || ins.Binary? || ins.Unary?
  }

  /** The instructions that take an argument literal. */
  predicate IsLiteralInstr(ins: Instr) {
    ins.Push? || ins.Print? || ins.PrintNl? || ins.Randint?
  }

  /** The console instructions. */
  predicate IsConsoleInstr(ins: Instr) {
    ins.In? || ins.InChar? || ins.Out? || ins.OutInt? || ins.OutChar? || ins.SClear? || ins.ShowStack?
  }

  /** The variable instructions. */
  predicate IsVarInstr(ins: Instr) {
    ins.Var? || ins.Store? || ins.PStore? || ins.Load? || ins.Del?
  }

  /** The conditionals, `endif`, `goto`, `label`, `halt` and unknown tokens. */
  predicate IsFlowInstr(ins: Instr) {
    ins.If? || ins.EndIf? || ins.Goto? || ins.Label? || ins.Halt? || ins.Unknown?
  }

  function OrFail(r: Option<seq<real>>, pc: nat, vs: seq<Vars.Var>, code: int): (o: Outcome)
    ensures o.Fail? <==> r.None?
    ensures o.Fail? ==> o.code == code
    ensures o.Next? ==> o == Next(pc, r.value, vs)
  {
    if r.None? then Fail(code) else Next(pc, r.value, vs)
  }

  /**
   * `pop`, `dup`, `clear`, `vclear`, `swap` and the operations on the top: the stack
   * function's result, or exit code 4 or 5 when the stack is too small.
   */
  function StackStep(ins: Instr, pc: nat, s: seq<real>, vs: seq<Vars.Var>, m: Stack.MathLib): (r: Outcome)
    requires IsStackInstr(ins)
    requires ins.Binary? ==> Stack.BinaryDefined(ins.bop, s)
    ensures r.Fail? ==> r.code == 4 || r.code == 5
    ensures r.Next? ==> r.pc == pc + 1 && r.vars == vs
    ensures !r.Stop?
    ensures (ins.Clear? || ins.VClear?) ==> r == Next(pc + 1, [], vs)
  {
    if ins.Pop? then OrFail(Stack.Popped(s), pc + 1, vs, 4)
    else if ins.Dup? then OrFail(Stack.Duplicated(s), pc + 1, vs, 4)
    else if ins.Clear? || ins.VClear? then Next(pc + 1, [], vs)
    else if ins.Swap? then OrFail(Stack.Swapped(s), pc + 1, vs, 5)
    else if ins.Binary? then OrFail(Stack.Binary(ins.bop, s, m), pc + 1, vs, 5)
    else OrFail(Stack.Unary(ins.uop, s, m), pc + 1, vs, UnaryError(ins.uop))
  }

  /** The value `randint` pushes: `rand() % limit + 1`, with C's remainder. */
  function RandomIn(r: nat, limit: int): (v: int)
    requires limit != 0
    ensures 1 <= v <= if limit > 0 then limit else -limit
  {
    CRem(r, limit) + 1
  }

  /**
   * `push`, `print`, `printnl` and `randint`: an argument that is not a number (exit
   * code 3) or not between quotes (6) stops the program; the argument is skipped.
   */
  function LiteralStep(ins: Instr, pc: nat, arg: Option<string>, s: seq<real>, vs: seq<Vars.Var>, t: nat, env: Env): (r: Outcome)
    requires IsLiteralInstr(ins) && Defined(ins, arg, s, vs)
    ensures r.Fail? <==> arg.Some? && if ins.Print? || ins.PrintNl? then !Literals.IsQuoted(arg.value) else !Literals.IsNumeric(arg.value)
    ensures r.Fail? ==> r.code == if ins.Print? || ins.PrintNl? then 6 else 3
    ensures r.Next? ==> r.pc == pc + 2 && r.vars == vs
    ensures r.Next? && (ins.Print? || ins.PrintNl? || arg.None?) ==> r.stack == s
    ensures r.Next? && ins.Push? && arg.Some? ==> r.stack == s + [Literals.Atof(arg.value)]
    ensures !r.Stop?
  {
    if arg.None? then Next(pc + 2, s, vs)
    else if ins.Print? || ins.PrintNl? then
      if Literals.IsQuoted(arg.value) then Next(pc + 2, s, vs) else Fail(6)
    else if !Literals.IsNumeric(arg.value) then Fail(3)
    else if ins.Push? then Next(pc + 2, Stack.Pushed(s, Literals.Atof(arg.value)), vs)
    else Next(pc + 2, Stack.Pushed(s, RandomIn(env.rand(t), Trunc(Literals.Atof(arg.value))) as real), vs)
  }

  /** `in` and `inchar` push what the console gives; the output instructions need a non-empty stack (exit code 5). */
  function ConsoleStep(ins: Instr, pc: nat, s: seq<real>, vs: seq<Vars.Var>, t: nat, env: Env): (r: Outcome)
    requires IsConsoleInstr(ins)
    ensures r.Fail? <==> (ins.Out? || ins.OutInt? || ins.OutChar?) && s == []
    ensures r.Fail? ==> r.code == 5
    ensures r.Next? ==> r.pc == pc + 1 && r.vars == vs
    ensures r.Next? && !ins.In? && !ins.InChar? ==> r.stack == s
    ensures !r.Stop?
  {
    if ins.In? then Next(pc + 1, Stack.Pushed(s, env.number(t)), vs)
    else if ins.InChar? then Next(pc + 1, Stack.Pushed(s, env.key(t) as real), vs)
    else if (ins.Out? || ins.OutInt? || ins.OutChar?) && s == [] then Fail(5)
    else Next(pc + 1, s, vs)
  }

  /**
   * `var`, `store`, `pstore`, `load` and `del`: a name that is not declared gives exit
   * code 7, `pstore` on an empty stack 4. Without an argument only `pstore` acts: it pops.
   */
  function VarStep(ins: Instr, pc: nat, arg: Option<string>, s: seq<real>, vs: seq<Vars.Var>): (r: Outcome)
    requires IsVarInstr(ins) && Defined(ins, arg, s, vs)
    ensures r.Fail? ==> arg.Some? && !ins.Var?
    ensures r.Fail? ==> r.code == if ins.PStore? && s == [] then 4 else 7
    ensures r.Fail? && r.code == 7 ==> Vars.Find(vs, arg.value) == -1
    ensures r.Next? ==> r.pc == if ins.Var? && arg.None? then pc + 1 else pc + 2
    ensures r.Next? && arg.None? ==> r.vars == vs
    ensures !r.Stop?
  {
    if ins.Var? then
      if arg.None? then Next(pc + 1, s, vs) else Next(pc + 2, s, Vars.Declared(vs, arg.value))
    else if ins.PStore? && arg.None? then
      Next(pc + 2, if s == [] then s else Stack.Popped(s).value, vs)
    else if arg.None? then Next(pc + 2, s, vs)
    else if ins.Store? then
      if Vars.Find(vs, arg.value) == -1 then Fail(7)
      else Next(pc + 2, s, Vars.Stored(vs, arg.value, Stack.Top(s)).value)
    else if ins.PStore? then
      if s == [] then Fail(4)
      else if Vars.Find(vs, arg.value) == -1 then Fail(7)
      else Next(pc + 2, Stack.Popped(s).value, Vars.Stored(vs, arg.value, Stack.Top(s)).value)
    else if ins.Load? then
      match Vars.Loaded(vs, arg.value)
      case None => Fail(7)
      case Some(v) => Next(pc + 2, Stack.Pushed(s, v), vs)
    else
      match Vars.Deleted(vs, arg.value)
      case None => Fail(7)
      case Some(vs') => Next(pc + 2, s, vs')
  }

  /**
   * The conditionals, `endif`, `goto`, `label`, `halt` and an unknown token: only the
   * index changes. A false conditional resumes after the `endif` found by
   * `next_valid_instruction`, `goto` after the label's name; a comparison on a stack
   * of fewer than two elements gives exit code 5, a missing label 6, an unknown token 8.
   */
  function FlowStep(code: seq<Token>, elements: nat, pc: nat, ins: Instr, s: seq<real>, vs: seq<Vars.Var>): (r: Outcome)
    requires pc < elements <= |code|
    requires IsFlowInstr(ins) && Defined(ins, Arg(code, elements, pc), s, vs)
    ensures r.Fail? ==> r.code == (if ins.If? then 5 else if ins.Goto? then 6 else 8)
    ensures r.Fail? <==> (
      || (ins.If? && |s| < 2)
      || ins.Unknown?
      || (ins.Goto? && (pc + 1 >= elements || Control.LabelTarget(code, elements, code[pc + 1].text) == -1)))
    ensures r.Next? ==> r.stack == s && r.vars == vs
    ensures r.Stop? <==> ins.Halt?
    ensures r.Stop? ==> r == Stop(s, vs)
  {
    if ins.If? then
      if |s| < 2 then Fail(5)
      else if Control.Compare(ins.cond, s) == 1 then Next(pc + 1, s, vs)
      else Next(Control.NextValidFrom(code, elements, pc, 0) + 1, s, vs)
    else if ins.EndIf? then Next(pc + 1, s, vs)
    else if ins.Goto? then
      if pc + 1 >= elements then Fail(6)
      else
        var j := Control.LabelTarget(code, elements, code[pc + 1].text);
        if j == -1 then Fail(6) else Next(j + 1, s, vs)
    else if ins.Label? then Next(pc + 2, s, vs)
    else if ins.Halt? then Stop(s, vs)
    else Fail(8)
  }

  /**
   * One round of the dispatch loop at `pc`. The next index is the one the loop's own
   * `i++` reaches: instructions with an argument skip it, a false conditional resumes
   * after its `endif` (at 1 when there is none), `goto` resumes after the label's name.
   */
  function Step(code: seq<Token>, elements: nat, pc: nat, s: seq<real>, vs: seq<Vars.Var>, t: nat, env: Env): (r: Outcome)
    requires pc < elements <= |code|
    requires DefinedAt(code, elements, pc, s, vs)
    ensures r.Fail? ==> 3 <= r.code <= 8
    ensures r.Next? && !Decode(code[pc].text).If? && Decode(code[pc].text) != Goto ==>
      r.pc == pc + 1 || r.pc == pc + 2
    ensures r.Next? && !IsVarInstr(Decode(code[pc].text)) ==> r.vars == vs
    ensures r.Stop? <==> Decode(code[pc].text) == Halt
  {
    var ins := Decode(code[pc].text);
    var arg := Arg(code, elements, pc);
    if IsStackInstr(ins) then StackStep(ins, pc, s, vs, env.math)
    else if IsLiteralInstr(ins) then LiteralStep(ins, pc, arg, s, vs, t, env)
    else if IsConsoleInstr(ins) then ConsoleStep(ins, pc, s, vs, t, env)
    else if IsVarInstr(ins) then VarStep(ins, pc, arg, s, vs)
    else FlowStep(code, elements, pc, ins, s, vs)
  }

  /** How a run ends. `OutOfFuel` bounds the number of steps; `LoadHangs` is a loader that never finishes. */
  datatype RunResult =
    | Finished(stack: seq<real>, vars: seq<Vars.Var>)
    | Failed(code: int)
    | Undefined
    | OutOfFuel
    | LoadHangs

  /** The dispatch loop from `pc`, step `t`, for at most `fuel` rounds; it ends normally once `pc` reaches `elements` or at `halt`. */
  function Exec(code: seq<Token>, elements: nat, pc: nat, s: seq<real>, vs: seq<Vars.Var>, t: nat, env: Env, fuel: nat): (r: RunResult)
    requires elements <= |code|
    ensures r.Failed? ==> 3 <= r.code <= 8
    ensures !r.LoadHangs?
    decreases fuel, 0
  {
    if pc >= elements then Finished(s, vs)
    else if fuel == 0 then OutOfFuel
    else Round(code, elements, pc, s, vs, t, env, fuel - 1)
  }

  /** A round at an index within the program: the instruction must have a defined meaning. */
  function Round(code: seq<Token>, elements: nat, pc: nat, s: seq<real>, vs: seq<Vars.Var>, t: nat, env: Env, fuel: nat): (r: RunResult)
    requires pc < elements <= |code|
    ensures r.Failed? ==> 3 <= r.code <= 8
    ensures !r.LoadHangs?
    decreases fuel, 2
  {
    if !DefinedAt(code, elements, pc, s, vs) then Undefined
    else Resume(code, elements, pc, s, vs, t, env, fuel)
  }

  /** The instruction's outcome, then the rest of the run with the fuel that is left. */
  function Resume(code: seq<Token>, elements: nat, pc: nat, s: seq<real>, vs: seq<Vars.Var>, t: nat, env: Env, fuel: nat): (r: RunResult)
    requires pc < elements <= |code| && DefinedAt(code, elements, pc, s, vs)
    ensures r.Failed? ==> 3 <= r.code <= 8
    ensures !r.LoadHangs?
    decreases fuel, 1
  {
    match Step(code, elements, pc, s, vs, t, env)
    case Next(pc', s', vs') => Exec(code, elements, pc', s', vs', t + 1, env, fuel)
    case Stop(s', vs') => Finished(s', vs')
    case Fail(c) => Failed(c)
  }

  /** The exit code of `main`: 0 after `halt` or the last token, the error code otherwise. */
  function ExitCode(r: RunResult): (c: Option<int>)
    ensures c.Some? <==> r.Finished? || r.Failed?
  {
    match r
    case Finished(_, _) => Some(0)
    case Failed(code) => Some(code)
    case _ => None
  }

  /**
   * The whole of `main` after the file is read: load, validate (exit code 9 when the
   * validator rejects the program), then run with an empty stack and no variables.
   */
  function Interpretation(src: string, c0: char, memory: nat -> Token, env: Env, fuel: nat): (r: RunResult)
    ensures r.Failed? ==> 3 <= r.code <= 9
    ensures r == Failed(9) <==> (
      && Lexer.LoadSpec(src, c0, memory).Ready?
      && var l := Lexer.LoadSpec(src, c0, memory);
        Validator.Defined(l.code, l.elements) && !Validator.Validate(l.code, l.elements).ok)
  {
    match Lexer.LoadSpec(src, c0, memory)
    case Hangs => LoadHangs
    case Ready(elements, code) =>
      if !Validator.Defined(code, elements) then Undefined
      else if !Validator.Validate(code, elements).ok then Failed(9)
      else Exec(code, elements, 0, [], [], 0, env, fuel)
  }

  // ---------------------------------------------------------------------------
  // Properties of the dispatch loop

  /** One round of the loop that carries on. */
  lemma ExecNext(code: seq<Token>, elements: nat, pc: nat, s: seq<real>, vs: seq<Vars.Var>, t: nat, env: Env, fuel: nat)
    requires pc < elements <= |code| && fuel > 0 && DefinedAt(code, elements, pc, s, vs)
    requires Step(code, elements, pc, s, vs, t, env).Next?
    ensures var r := Step(code, elements, pc, s, vs, t, env);
      Exec(code, elements, pc, s, vs, t, env, fuel) == Exec(code, elements, r.pc, r.stack, r.vars, t + 1, env, fuel - 1)
  {
    assert Exec(code, elements, pc, s, vs, t, env, fuel) == Resume(code, elements, pc, s, vs, t, env, fuel - 1);
  }

  /** One round of the loop that ends the run. */
  lemma ExecLast(code: seq<Token>, elements: nat, pc: nat, s: seq<real>, vs: seq<Vars.Var>, t: nat, env: Env, fuel: nat)
    requires pc < elements <= |code| && fuel > 0 && DefinedAt(code, elements, pc, s, vs)
    requires !Step(code, elements, pc, s, vs, t, env).Next?
    ensures var r := Step(code, elements, pc, s, vs, t, env);
      Exec(code, elements, pc, s, vs, t, env, fuel) == if r.Stop? then Finished(r.stack, r.vars) else Failed(r.code)
  {
    assert Exec(code, elements, pc, s, vs, t, env, fuel) == Resume(code, elements, pc, s, vs, t, env, fuel - 1);
  }

  /** An instruction without a defined meaning ends the model's run. */
  lemma ExecUndefined(code: seq<Token>, elements: nat, pc: nat, s: seq<real>, vs: seq<Vars.Var>, t: nat, env: Env, fuel: nat)
    requires pc < elements <= |code| && fuel > 0 && !DefinedAt(code, elements, pc, s, vs)
    ensures Exec(code, elements, pc, s, vs, t, env, fuel) == Undefined
  {
    assert Exec(code, elements, pc, s, vs, t, env, fuel) == Round(code, elements, pc, s, vs, t, env, fuel - 1);
  }

  /** A run that ends within some number of steps ends the same way with more. */
  lemma {:induction false} MoreFuelSameEnd(code: seq<Token>, elements: nat, pc: nat, s: seq<real>, vs: seq<Vars.Var>,
                                           t: nat, env: Env, fuel: nat, more: nat)
    requires elements <= |code| && fuel <= more
    requires !Exec(code, elements, pc, s, vs, t, env, fuel).OutOfFuel?
    ensures Exec(code, elements, pc, s, vs, t, env, more) == Exec(code, elements, pc, s, vs, t, env, fuel)
    decreases fuel, 0
  {
    if pc < elements && fuel > 0 {
      RoundMoreFuel(code, elements, pc, s, vs, t, env, fuel - 1, more - 1);
    }
  }

  lemma {:induction false} RoundMoreFuel(code: seq<Token>, elements: nat, pc: nat, s: seq<real>, vs: seq<Vars.Var>,
                                         t: nat, env: Env, fuel: nat, more: nat)
    requires pc < elements <= |code| && fuel <= more
    requires !Round(code, elements, pc, s, vs, t, env, fuel).OutOfFuel?
    ensures Round(code, elements, pc, s, vs, t, env, more) == Round(code, elements, pc, s, vs, t, env, fuel)
    decreases fuel, 2
  {
    if DefinedAt(code, elements, pc, s, vs) {
      ResumeMoreFuel(code, elements, pc, s, vs, t, env, fuel, more);
    }
  }

  lemma {:induction false} ResumeMoreFuel(code: seq<Token>, elements: nat, pc: nat, s: seq<real>, vs: seq<Vars.Var>,
                                          t: nat, env: Env, fuel: nat, more: nat)
    requires pc < elements <= |code| && fuel <= more && DefinedAt(code, elements, pc, s, vs)
    requires !Resume(code, elements, pc, s, vs, t, env, fuel).OutOfFuel?
    ensures Resume(code, elements, pc, s, vs, t, env, more) == Resume(code, elements, pc, s, vs, t, env, fuel)
    decreases fuel, 1
  {
    var r := Step(code, elements, pc, s, vs, t, env);
    if r.Next? {
      MoreFuelSameEnd(code, elements, r.pc, r.stack, r.vars, t + 1, env, fuel, more);
    }
  }

  /**
   * A comparison that holds enters the block; one that fails resumes after the
   * `endif` that closes it, skipping nested blocks, or at index 1 when none does.
   */
  lemma ConditionalBranches(code: seq<Token>, elements: nat, pc: nat, s: seq<real>, vs: seq<Vars.Var>, t: nat, env: Env)
    requires pc < elements <= |code| && Decode(code[pc].text).If?
    requires Decode(code[pc].text).cond != Control.IsTrue && Decode(code[pc].text).cond != Control.IsFalse
    ensures var r := Step(code, elements, pc, s, vs, t, env);
      && (|s| < 2 <==> r == Fail(5))
      && (|s| >= 2 && Control.Holds(Decode(code[pc].text).cond, Stack.Second(s), Stack.Top(s)) ==> r == Next(pc + 1, s, vs))
      && (|s| >= 2 && !Control.Holds(Decode(code[pc].text).cond, Stack.Second(s), Stack.Top(s)) ==>
        && r.Next? && r.stack == s && r.vars == vs
        && ((r.pc == 1 && forall j :: pc < j < elements ==> !Control.Closes(code, pc, j))
          || (pc + 1 < r.pc <= elements && Control.Closes(code, pc, r.pc - 1)
            && forall j :: pc < j < r.pc - 1 ==> !Control.Closes(code, pc, j))))
  {
    var c := Decode(code[pc].text).cond;
    var r := Step(code, elements, pc, s, vs, t, env);
    assert IsOpener(code[pc].text);
    if |s| < 2 {
      assert r == Fail(5);
    } else if Control.Holds(c, Stack.Second(s), Stack.Top(s)) {
      assert r == Next(pc + 1, s, vs);
    } else {
      assert r == Next(Control.NextValidFrom(code, elements, pc, 0) + 1, s, vs);
      Control.NextValidAtOpener(code, elements, pc);
    }
  }

  /**
   * `goto name` exits with 6 when it has no argument or no `label name` pair lies
   * within the program; otherwise it resumes after the name of the first such pair.
   */
  lemma GotoResumesAfterLabel(code: seq<Token>, elements: nat, pc: nat, name: string, s: seq<real>, vs: seq<Vars.Var>, t: nat, env: Env)
    requires pc < elements <= |code| && Decode(code[pc].text) == Goto
    requires pc + 1 < elements ==> code[pc + 1].text == name
    ensures var r := Step(code, elements, pc, s, vs, t, env);
      && (r.Fail? <==> pc + 1 >= elements || forall k :: 0 <= k < elements ==> !Control.LabelAt(code, elements, name, k))
      && (r.Fail? ==> r.code == 6)
      && (r.Next? ==>
        && 2 <= r.pc <= elements && r.stack == s && r.vars == vs
        && Control.LabelAt(code, elements, name, r.pc - 2)
        && forall k :: 0 <= k < r.pc - 2 ==> !Control.LabelAt(code, elements, name, k))
  {
  }

  /** A round at `store name` with the name declared and a value on the stack. */
  lemma StoreRound(code: seq<Token>, elements: nat, pc: nat, s: seq<real>, vs: seq<Vars.Var>, t: nat, env: Env, fuel: nat)
    requires pc + 1 < elements <= |code| && Decode(code[pc].text) == Store
    requires Vars.Find(vs, code[pc + 1].text) != -1 && s != []
    ensures Exec(code, elements, pc, s, vs, t, env, fuel + 1)
         == Exec(code, elements, pc + 2, s, Vars.Stored(vs, code[pc + 1].text, Stack.Top(s)).value, t + 1, env, fuel)
  {
    var w := Vars.Stored(vs, code[pc + 1].text, Stack.Top(s)).value;
    assert DefinedAt(code, elements, pc, s, vs);
    assert Step(code, elements, pc, s, vs, t, env) == Next(pc + 2, s, w);
    assert Resume(code, elements, pc, s, vs, t, env, fuel) == Exec(code, elements, pc + 2, s, w, t + 1, env, fuel);
    assert Exec(code, elements, pc, s, vs, t, env, fuel + 1) == Resume(code, elements, pc, s, vs, t, env, fuel);
  }

  /** A round at `load name` with the name declared. */
  lemma LoadRound(code: seq<Token>, elements: nat, pc: nat, s: seq<real>, vs: seq<Vars.Var>, t: nat, env: Env, fuel: nat)
    requires pc + 1 < elements <= |code| && Decode(code[pc].text) == Load
    requires Vars.Loaded(vs, code[pc + 1].text).Some?
    ensures Exec(code, elements, pc, s, vs, t, env, fuel + 1)
         == Exec(code, elements, pc + 2, s + [Vars.Loaded(vs, code[pc + 1].text).value], vs, t + 1, env, fuel)
  {
    var s2 := s + [Vars.Loaded(vs, code[pc + 1].text).value];
    assert DefinedAt(code, elements, pc, s, vs);
    assert Step(code, elements, pc, s, vs, t, env) == Next(pc + 2, s2, vs);
    assert Resume(code, elements, pc, s, vs, t, env, fuel) == Exec(code, elements, pc + 2, s2, vs, t + 1, env, fuel);
    assert Exec(code, elements, pc, s, vs, t, env, fuel + 1) == Resume(code, elements, pc, s, vs, t, env, fuel);
  }

  /** `store name` followed by `load name` pushes a copy of the top. */
  lemma StoreThenLoad(code: seq<Token>, elements: nat, pc: nat, s: seq<real>, vs: seq<Vars.Var>, t: nat, env: Env, fuel: nat)
    requires pc + 3 < elements <= |code|
    requires Decode(code[pc].text) == Store && Decode(code[pc + 2].text) == Load && code[pc + 3].text == code[pc + 1].text
    requires Vars.Find(vs, code[pc + 1].text) != -1 && s != []
    ensures Exec(code, elements, pc, s, vs, t, env, fuel + 2)
         == Exec(code, elements, pc + 4, s + [Stack.Top(s)], Vars.Stored(vs, code[pc + 1].text, Stack.Top(s)).value, t + 2, env, fuel)
  {
    var w := Vars.Stored(vs, code[pc + 1].text, Stack.Top(s)).value;
    StoreRound(code, elements, pc, s, vs, t, env, fuel + 1);
    Vars.LoadAfterStore(vs, code[pc + 1].text, Stack.Top(s));
    LoadRound(code, elements, pc + 2, s, w, t + 1, env, fuel);
  }

  /** Reaching `halt` ends the run with the state it has. */
  lemma HaltFinishes(code: seq<Token>, elements: nat, pc: nat, s: seq<real>, vs: seq<Vars.Var>, t: nat, env: Env, fuel: nat)
    requires pc < elements <= |code| && Decode(code[pc].text) == Halt && fuel > 0
    ensures Exec(code, elements, pc, s, vs, t, env, fuel) == Finished(s, vs)
  {
    ExecLast(code, elements, pc, s, vs, t, env, fuel);
  }

  /** `push` with a numeric argument pushes the value of the literal and skips it. */
  lemma PushLiteral(code: seq<Token>, elements: nat, pc: nat, s: seq<real>, vs: seq<Vars.Var>, t: nat, env: Env)
    requires pc + 1 < elements <= |code| && Decode(code[pc].text) == Push && Literals.IsNumeric(code[pc + 1].text)
    ensures DefinedAt(code, elements, pc, s, vs)
    ensures Step(code, elements, pc, s, vs, t, env) == Next(pc + 2, s + [Literals.Atof(code[pc + 1].text)], vs)
  {
  }

  /** A two-operand instruction replaces the two top elements `a` (under) and `b` (top) by its result. */
  lemma BinaryOnTop(code: seq<Token>, elements: nat, pc: nat, s: seq<real>, a: real, b: real, vs: seq<Vars.Var>, t: nat, env: Env)
    requires pc < elements <= |code| && Decode(code[pc].text).Binary?
    requires Stack.Accepts(Decode(code[pc].text).bop, b)
    requires Decode(code[pc].text).bop == Stack.Rem ==> Trunc(b) != 0
    ensures DefinedAt(code, elements, pc, s + [a, b], vs)
    ensures Step(code, elements, pc, s + [a, b], vs, t, env)
         == Next(pc + 1, s + [Stack.Combine(Decode(code[pc].text).bop, a, b, env.math)], vs)
  {
    assert s + [a, b] == Stack.Pushed(Stack.Pushed(s, a), b);
    Stack.BinaryAfterPushes(Decode(code[pc].text).bop, s, a, b, env.math);
  }

  lemma AtofOfTen()
    ensures Literals.IsNumeric("10") && Literals.Atof("10") == 10.0
  {
    Literals.AtofOfIntText(10);
    assert Literals.NatDigits(1) == "1";
    assert Literals.IntText(10) == "10";
  }

  lemma AtofOfThree()
    ensures Literals.IsNumeric("3") && Literals.Atof("3") == 3.0
  {
    Literals.AtofOfIntText(3);
    assert Literals.IntText(3) == "3";
  }

  /** A round at `push` with a numeric argument. */
  lemma PushRound(code: seq<Token>, elements: nat, pc: nat, s: seq<real>, vs: seq<Vars.Var>, t: nat, env: Env, fuel: nat)
    requires pc + 1 < elements <= |code| && Decode(code[pc].text) == Push && Literals.IsNumeric(code[pc + 1].text)
    ensures Exec(code, elements, pc, s, vs, t, env, fuel + 1)
         == Exec(code, elements, pc + 2, s + [Literals.Atof(code[pc + 1].text)], vs, t + 1, env, fuel)
  {
    var s2 := s + [Literals.Atof(code[pc + 1].text)];
    PushLiteral(code, elements, pc, s, vs, t, env);
    assert Resume(code, elements, pc, s, vs, t, env, fuel) == Exec(code, elements, pc + 2, s2, vs, t + 1, env, fuel);
    assert Exec(code, elements, pc, s, vs, t, env, fuel + 1) == Resume(code, elements, pc, s, vs, t, env, fuel);
  }

  /** A round at a two-operand instruction whose operands are accepted. */
  lemma BinaryRound(code: seq<Token>, elements: nat, pc: nat, s: seq<real>, a: real, b: real, vs: seq<Vars.Var>, t: nat, env: Env, fuel: nat)
    requires pc < elements <= |code| && Decode(code[pc].text).Binary?
    requires Stack.Accepts(Decode(code[pc].text).bop, b)
    requires Decode(code[pc].text).bop == Stack.Rem ==> Trunc(b) != 0
    ensures Exec(code, elements, pc, s + [a, b], vs, t, env, fuel + 1)
         == Exec(code, elements, pc + 1, s + [Stack.Combine(Decode(code[pc].text).bop, a, b, env.math)], vs, t + 1, env, fuel)
  {
    var s2 := s + [a, b];
    var s3 := s + [Stack.Combine(Decode(code[pc].text).bop, a, b, env.math)];
    BinaryOnTop(code, elements, pc, s, a, b, vs, t, env);
    assert Resume(code, elements, pc, s2, vs, t, env, fuel) == Exec(code, elements, pc + 1, s3, vs, t + 1, env, fuel);
    assert Exec(code, elements, pc, s2, vs, t, env, fuel + 1) == Resume(code, elements, pc, s2, vs, t, env, fuel);
  }

  /** The tokens of `push 10 push 3 sub halt`. */
  predicate IsSubtraction(code: seq<Token>) {
    && |code| == 6
    && code[0].text == "push" && code[1].text == "10" && code[2].text == "push" && code[3].text == "3"
    && code[4].text == "sub" && code[5].text == "halt"
  }

  /** The keywords of that program name the instructions they should. */
  lemma SubtractionKeywords()
    ensures Decode("push") == Push && Decode("sub") == Binary(Stack.Sub) && Decode("halt") == Halt
  {
  }

  /** Its first round pushes 10. */
  lemma SubtractionPushesTen(code: seq<Token>, env: Env)
    requires IsSubtraction(code)
    ensures Exec(code, 6, 0, [], [], 0, env, 4) == Exec(code, 6, 2, [10.0], [], 1, env, 3)
  {
    AtofOfTen();
    SubtractionKeywords();
    PushRound(code, 6, 0, [], [], 0, env, 3);
    assert [] + [10.0] == [10.0];
  }

  /** Its second round pushes 3 above the 10. */
  lemma SubtractionPushesThree(code: seq<Token>, env: Env)
    requires IsSubtraction(code)
    ensures Exec(code, 6, 2, [10.0], [], 1, env, 3) == Exec(code, 6, 4, [10.0, 3.0], [], 2, env, 2)
  {
    AtofOfThree();
    SubtractionKeywords();
    PushRound(code, 6, 2, [10.0], [], 1, env, 2);
    assert [10.0] + [3.0] == [10.0, 3.0];
  }

  /** `push 10 push 3 sub halt` ends with 10 - 3 on the stack. */
  lemma SubtractionProgram(code: seq<Token>, env: Env)
    requires IsSubtraction(code)
    ensures Exec(code, 6, 0, [], [], 0, env, 4) == Finished([7.0], [])
  {
    SubtractionPushesTen(code, env);
    SubtractionPushesThree(code, env);
    SubtractionKeywords();
    assert [10.0, 3.0] == [] + [10.0, 3.0];
    BinaryRound(code, 6, 4, [], 10.0, 3.0, [], 2, env, 1);
    assert [] + [Stack.Combine(Stack.Sub, 10.0, 3.0, env.math)] == [7.0];
    HaltFinishes(code, 6, 5, [7.0], [], 3, env, 1);
  }

  // ---------------------------------------------------------------------------
  // The loop as the C code runs it

  /**
   * What a round of the loop tells the loop: carry on at an index, stop at `halt`,
   * return an exit code, or (in the model only) an instruction without a defined meaning.
   */
  datatype Signal = Go(pc: nat) | Halted | Raised(code: int) | Stuck

  /** The state after a round agrees with the outcome the functions give on the state before it. */
  predicate Agrees(o: Signal, r: Outcome, s: seq<real>, vs: seq<Vars.Var>) {
    match r
    case Next(pc', s', vs') => o == Go(pc') && s == s' && vs == vs'
    case Stop(s', vs') => o == Halted && s == s' && vs == vs'
    case Fail(c) => o == Raised(c)
  }

  /** `pop`, `dup`, `clear`, `vclear`, `swap` and the operations on the top, on the value stack object. */
  method ExecStack(ins: Instr, pc: nat, env: Env, stack: Stack.ValueStack, vars: Vars.VarStore) returns (o: Signal)
    requires IsStackInstr(ins)
    requires ins.Binary? ==> Stack.BinaryDefined(ins.bop, stack.items)
    modifies stack
    ensures Agrees(o, StackStep(ins, pc, old(stack.items), vars.entries, env.math), stack.items, vars.entries)
  {
    var ok := true;
    if ins.Pop? {
      ok := stack.Pop();
      if !ok { return Raised(4); }
    } else if ins.Dup? {
      ok := stack.Dup();
      if !ok { return Raised(4); }
    } else if ins.Clear? || ins.VClear? {
      stack.Clear();
    } else if ins.Swap? {
      ok := stack.Swap();
      if !ok { return Raised(5); }
    } else if ins.Binary? {
      ok := stack.Apply2(ins.bop, env.math);
      if !ok { return Raised(5); }
    } else {
      ok := stack.Apply1(ins.uop, env.math);
      if !ok { return Raised(UnaryError(ins.uop)); }
    }
    o := Go(pc + 1);
  }

  /** `push`, `print`, `printnl` and `randint`, which check their argument literal. */
  method ExecLiteral(ins: Instr, pc: nat, arg: Option<string>, t: nat, env: Env, stack: Stack.ValueStack, vars: Vars.VarStore)
    returns (o: Signal)
    requires IsLiteralInstr(ins) && Defined(ins, arg, stack.items, vars.entries)
    modifies stack
    ensures Agrees(o, LiteralStep(ins, pc, arg, old(stack.items), vars.entries, t, env), stack.items, vars.entries)
  {
    if arg.Some? {
      var text := arg.value;
      if ins.Push? || ins.Randint? {
        var numeric := Literals.RealNumber(text);
        if !numeric {
          return Raised(3);
        }
        var x := Literals.Atof(text);
        if ins.Push? {
          stack.Push(x);
        } else {
          stack.Push(RandomIn(env.rand(t), Trunc(x)) as real);
        }
      } else {
        var len := |text|;
        var temp := new char[len];
        if text[0] == '"' && text[len - 1] == '"' {
          // The text between the quotes goes to the console, which is not modelled.
          Literals.PrepareString(text, len, temp);
        } else {
          return Raised(6);
        }
      }
    }
    o := Go(pc + 2);
  }

  /** `in`, `inchar`, `out`, `outint`, `outchar`, `sclear` and `stack`. */
  method ExecConsole(ins: Instr, pc: nat, t: nat, env: Env, stack: Stack.ValueStack, vars: Vars.VarStore) returns (o: Signal)
    requires IsConsoleInstr(ins)
    modifies stack
    ensures Agrees(o, ConsoleStep(ins, pc, old(stack.items), vars.entries, t, env), stack.items, vars.entries)
  {
    if ins.In? {
      stack.Push(env.number(t));
    } else if ins.InChar? {
      stack.Push(env.key(t) as real);
    } else if (ins.Out? || ins.OutInt? || ins.OutChar?) && stack.items == [] {
      return Raised(5);
    }
    o := Go(pc + 1);
  }

  /** `var`, `store`, `pstore`, `load` and `del`, on the variable store object. */
  method ExecVar(ins: Instr, pc: nat, arg: Option<string>, stack: Stack.ValueStack, vars: Vars.VarStore) returns (o: Signal)
    requires IsVarInstr(ins) && Defined(ins, arg, stack.items, vars.entries)
    modifies stack, vars
    ensures Agrees(o, VarStep(ins, pc, arg, old(stack.items), old(vars.entries)), stack.items, vars.entries)
  {
    if ins.Var? {
      if arg.Some? {
        vars.Declare(arg.value);
        return Go(pc + 2);
      }
      return Go(pc + 1);
    }
    if arg.Some? {
      var ok := true;
      if ins.Store? {
        ok := vars.Store(arg.value, stack);
      } else if ins.PStore? {
        if stack.items == [] {
          return Raised(4);
        }
        ok := vars.Store(arg.value, stack);
      } else if ins.Load? {
        ok := vars.Load(arg.value, stack);
      } else {
        ok := vars.Delete(arg.value);
      }
      if !ok {
        return Raised(7);
      }
    }
    if ins.PStore? {
      var _ := stack.Pop();
    }
    o := Go(pc + 2);
  }

  /** The conditionals, `endif`, `goto`, `label`, `halt` and an unknown token. */
  method ExecFlow(code: seq<Token>, elements: nat, pc: nat, ins: Instr, stack: Stack.ValueStack, vars: Vars.VarStore)
    returns (o: Signal)
    requires pc < elements <= |code|
    requires IsFlowInstr(ins) && Defined(ins, Arg(code, elements, pc), stack.items, vars.entries)
    ensures Agrees(o, FlowStep(code, elements, pc, ins, stack.items, vars.entries), stack.items, vars.entries)
  {
    if ins.If? {
      if |stack.items| < 2 {
        return Raised(5);
      }
      if Control.Compare(ins.cond, stack.items) == 1 {
        o := Go(pc + 1);
      } else {
        var j := Control.NextValidInstruction(code, elements, pc);
        o := Go(j + 1);
      }
    } else if ins.EndIf? {
      o := Go(pc + 1);
    } else if ins.Goto? {
      if pc + 1 >= elements {
        return Raised(6);
      }
      var j := Control.Jump(code, elements, code[pc + 1].text);
      if j == -1 {
        return Raised(6);
      }
      o := Go(j + 1);
    } else if ins.Label? {
      o := Go(pc + 2);
    } else if ins.Halt? {
      o := Halted;
    } else {
      o := Raised(8);
    }
  }

  /** One round of the dispatch loop of `main`, on the objects. */
  method ExecuteAt(code: seq<Token>, elements: nat, pc: nat, t: nat, env: Env, stack: Stack.ValueStack, vars: Vars.VarStore)
    returns (o: Signal)
    requires pc < elements <= |code|
    requires DefinedAt(code, elements, pc, stack.items, vars.entries)
    modifies stack, vars
    ensures Agrees(o, Step(code, elements, pc, old(stack.items), old(vars.entries), t, env), stack.items, vars.entries)
  {
    var ins := Decode(code[pc].text);
    var arg := Arg(code, elements, pc);
    if IsStackInstr(ins) {
      o := ExecStack(ins, pc, env, stack, vars);
    } else if IsLiteralInstr(ins) {
      o := ExecLiteral(ins, pc, arg, t, env, stack, vars);
    } else if IsConsoleInstr(ins) {
      o := ExecConsole(ins, pc, t, env, stack, vars);
    } else if IsVarInstr(ins) {
      o := ExecVar(ins, pc, arg, stack, vars);
    } else {
      o := ExecFlow(code, elements, pc, ins, stack, vars);
    }
  }

  /** What the loop does after a round that agrees with `Step`, in terms of the run from before the round. */
  lemma AfterRound(code: seq<Token>, elements: nat, pc: nat, s: seq<real>, vs: seq<Vars.Var>, t: nat, env: Env, fuel: nat,
                   o: Signal, s': seq<real>, vs': seq<Vars.Var>)
    requires pc < elements <= |code| && fuel > 0 && DefinedAt(code, elements, pc, s, vs)
    requires Agrees(o, Step(code, elements, pc, s, vs, t, env), s', vs')
    ensures o.Go? ==> Exec(code, elements, pc, s, vs, t, env, fuel) == Exec(code, elements, o.pc, s', vs', t + 1, env, fuel - 1)
    ensures o.Halted? ==> Exec(code, elements, pc, s, vs, t, env, fuel) == Finished(s', vs')
    ensures o.Raised? ==> Exec(code, elements, pc, s, vs, t, env, fuel) == Failed(o.code)
  {
    if o.Go? {
      ExecNext(code, elements, pc, s, vs, t, env, fuel);
    } else {
      ExecLast(code, elements, pc, s, vs, t, env, fuel);
    }
  }

  /** A round of the loop, stated as what it leaves of the run with `left` rounds to go. */
  method Advance(code: seq<Token>, elements: nat, pc: nat, t: nat, env: Env, left: nat, stack: Stack.ValueStack, vars: Vars.VarStore)
    returns (o: Signal)
    requires pc < elements <= |code| && left > 0
    modifies stack, vars
    ensures o.Go? ==> (
      Exec(code, elements, pc, old(stack.items), old(vars.entries), t, env, left)
      == Exec(code, elements, o.pc, stack.items, vars.entries, t + 1, env, left - 1))
    ensures o.Halted? ==> Exec(code, elements, pc, old(stack.items), old(vars.entries), t, env, left) == Finished(stack.items, vars.entries)
    ensures o.Raised? ==> Exec(code, elements, pc, old(stack.items), old(vars.entries), t, env, left) == Failed(o.code)
    ensures o.Stuck? <==> !DefinedAt(code, elements, pc, old(stack.items), old(vars.entries))
    ensures o.Stuck? ==> Exec(code, elements, pc, old(stack.items), old(vars.entries), t, env, left) == Undefined
  {
    if !DefinedAt(code, elements, pc, stack.items, vars.entries) {
      ExecUndefined(code, elements, pc, stack.items, vars.entries, t, env, left);
      return Stuck;
    }
    ghost var s0, vs0 := stack.items, vars.entries;
    o := ExecuteAt(code, elements, pc, t, env, stack, vars);
    AfterRound(code, elements, pc, s0, vs0, t, env, left, o, stack.items, vars.entries);
  }

  /** The `for` loop of `main` over the program, for at most `fuel` rounds. */
  method Run(code: seq<Token>, elements: nat, env: Env, fuel: nat, stack: Stack.ValueStack, vars: Vars.VarStore)
    returns (r: RunResult)
    requires elements <= |code|
    modifies stack, vars
    ensures r == Exec(code, elements, 0, old(stack.items), old(vars.entries), 0, env, fuel)
  {
    var pc: nat := 0;
    var t: nat := 0;
    var left := fuel;
    while pc < elements
      invariant Exec(code, elements, pc, stack.items, vars.entries, t, env, left)
             == Exec(code, elements, 0, old(stack.items), old(vars.entries), 0, env, fuel)
      decreases left
    {
      if left == 0 {
        return OutOfFuel;
      }
      var o := Advance(code, elements, pc, t, env, left, stack, vars);
      match o {
        case Go(next) => pc := next;
        case Halted => return Finished(stack.items, vars.entries);
        case Raised(c) => return Failed(c);
        case Stuck => return Undefined;
      }
      t, left := t + 1, left - 1;
    }
    r := Finished(stack.items, vars.entries);
  }

  /** `main` after the file is read: load, validate, run on an empty stack and an empty variable list. */
  method Interpret(src: string, c0: char, memory: nat -> Token, env: Env, fuel: nat) returns (r: RunResult)
    ensures r == Interpretation(src, c0, memory, env, fuel)
  {
    var loaded := Lexer.LoadProgram(src, c0, memory);
    if loaded.Hangs? {
      return LoadHangs;
    }
    var code, elements := loaded.code, loaded.elements;
    if !Validator.Defined(code, elements) {
      return Undefined;
    }
    var report := Validator.InitialDebug(code, elements);
    if !report.ok {
      return Failed(9);
    }
    var stack := new Stack.ValueStack();
    var vars := new Vars.VarStore();
    r := Run(code, elements, env, fuel, stack, vars);
  }
}
