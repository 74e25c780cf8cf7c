/** The two machines that run compiled functions, as step functions.

    `PlainStep` is the convention the compiler was written for: a conditional jump
    only peeks and POP always pops.  `AvatarStep` is the run loop of an avatar: its
    taken conditional jump pops, its POP stops at the locals, the stack has a fixed
    capacity, and instructions are counted. */
module Machine {
  import opened Wrappers
  import opened Values
  import opened Bytecode

  const STACK_MAX: nat := 2048
  const MAX_INSTRUCTIONS: nat := 100000

  datatype Program = Program(code: seq<byte>, consts: seq<Value>, localCount: nat)

  function Top(stack: seq<Value>): Value
    requires stack != []
  {
    stack[|stack| - 1]
  }

  function Drop(stack: seq<Value>, n: nat): seq<Value>
    requires n <= |stack|
  {
    stack[..|stack| - n]
  }

  // ----- instructions that neither jump nor end the run -----

  /** `Away`: the instruction leaves the model (globals, calls, stale cells). */
  datatype Effect = Next(stack: seq<Value>) | Stop(fault: Fault) | Away

  function PushResult(rest: seq<Value>, r: Result): Effect {
    match r
    case Ok(v) => Next(rest + [v])
    case Bad(f) => Stop(f)
  }

  predicate BeyondModel(op: byte) {
    op == 31 || op == 40 || op == 46 || 50 <= op <= 56
  }

  predicate IsControl(i: Instr) {
    i.Pop? || i.Return? || i.Jump? || i.JumpIfFalse? || i.Loop?
  }

  function Straight(fp: Arith, consts: seq<Value>, i: Instr, stack: seq<Value>): Effect
    requires !IsControl(i)
  {
    var n := |stack|;
    match i
    case Constant(k) => if k < |consts| then Next(stack + [consts[k]]) else Stop(InvalidConstant)
    case PushNil => Next(stack + [Nil])
    case PushTrue => Next(stack + [Bool(true)])
    case PushFalse => Next(stack + [Bool(false)])
    case Dup => if n < 1 then Stop(StackUnderflow) else Next(stack + [Top(stack)])
    case Binary(op) =>
      if n < 2 then Stop(StackUnderflow)
      else PushResult(Drop(stack, 2), ApplyBinary(fp, op, stack[n - 2], stack[n - 1]))
    case Unary(op) =>
      if n < 1 then Stop(StackUnderflow)
      else PushResult(Drop(stack, 1), ApplyUnary(fp, op, stack[n - 1]))
    case ToString =>
      if n < 1 then Stop(StackUnderflow) else Next(Drop(stack, 1) + [Str(ToText(fp, Top(stack)))])
    case GetLocal(s) => if s < n then Next(stack + [stack[s]]) else Away
    case SetLocal(s) =>
      if n < 1 then Stop(StackUnderflow) else if s < n then Next(stack[s := Top(stack)]) else Away
    case Array(c) =>
      if n < c then Stop(StackUnderflow) else Next(Drop(stack, c) + [Arr(stack[n - c..])])
    case ArrayGet =>
      if n < 2 then Stop(StackUnderflow)
      else PushResult(Drop(stack, 2), Index(fp, stack[n - 2], stack[n - 1]))
    case ObjectNew => Next(stack + [Obj([])])
    case ObjectGet =>
      if n < 2 then Stop(StackUnderflow)
      else PushResult(Drop(stack, 2), GetProperty(fp, stack[n - 2], stack[n - 1]))
    case ObjectSet =>
      if n < 3 then Stop(StackUnderflow)
      else PushResult(Drop(stack, 3), SetProperty(stack[n - 3], stack[n - 2], stack[n - 1]))
    case GetGlobal(_) => Away
    case SetGlobal(_) => Away
    case Other(op) => if BeyondModel(op) then Away else Stop(UnsupportedOpcode(op))
    case ConstantLong(_) => Stop(UnsupportedOpcode(1))
    case GetGlobalLong(_) => Stop(UnsupportedOpcode(27))
    case SetGlobalLong(_) => Stop(UnsupportedOpcode(28))
    case _ => Away
  }

  // ----- the plain machine -----

  datatype State =
    | Running(ip: int, stack: seq<Value>)
    | Done(v: Value)
    | Halted(fault: Fault)
    | Outside

  function PlainStep(fp: Arith, prog: Program, s: State): State {
    if !s.Running? then s
    else if !(0 <= s.ip < |prog.code|) then Halted(BadInstructionPointer)
    else
      match Decode(prog.code, s.ip)
      case None => Outside
      case Some(i) => PlainExec(fp, prog, i, s.ip + Width(i), s.stack)
  }

  function PlainExec(fp: Arith, prog: Program, i: Instr, next: int, stack: seq<Value>): State {
    match i
    case Pop => Running(next, if stack == [] then [] else Drop(stack, 1))
    case Return => if stack == [] then Halted(StackUnderflow) else Done(Top(stack))
    case Jump(off) => Running(next + off, stack)
    case Loop(off) => Running(next - off, stack)
    case JumpIfFalse(off) =>
      if stack == [] then Halted(StackUnderflow)
      else Running(if BranchFalsy(fp, Top(stack)) then next + off else next, stack)
    case _ =>
      match Straight(fp, prog.consts, i, stack)
      case Next(st) => Running(next, st)
      case Stop(f) => Halted(f)
      case Away => Outside
  }

  function PlainRun(fp: Arith, prog: Program, s: State, n: nat): State
    decreases n
  {
    if n == 0 then s else PlainRun(fp, prog, PlainStep(fp, prog, s), n - 1)
  }

  lemma {:induction false} PlainRunAdd(fp: Arith, prog: Program, s: State, m: nat, n: nat)
    ensures PlainRun(fp, prog, s, m + n) == PlainRun(fp, prog, PlainRun(fp, prog, s, m), n)
    decreases m
  {
    if m > 0 {
      PlainRunAdd(fp, prog, PlainStep(fp, prog, s), m - 1, n);
    }
  }

  /** A run that is still going after `n` steps was going at every earlier step. */
  lemma {:induction false} PlainRunPrefix(fp: Arith, prog: Program, s: State, m: nat, n: nat)
    requires m <= n && PlainRun(fp, prog, s, n).Running?
    ensures PlainRun(fp, prog, s, m).Running?
  {
    PlainRunAdd(fp, prog, s, m, n - m);
    PlainRunStopped(fp, prog, PlainRun(fp, prog, s, m), n - m);
  }

  lemma {:induction false} PlainRunStopped(fp: Arith, prog: Program, s: State, n: nat)
    ensures !s.Running? ==> PlainRun(fp, prog, s, n) == s
    decreases n
  {
    if n > 0 {
      PlainRunStopped(fp, prog, PlainStep(fp, prog, s), n - 1);
    }
  }

  // ----- the avatar machine -----

  /** What an avatar run leaves in its handle. */
  datatype Outcome = Result(v: Value) | Error(fault: Fault) | Left

  /** `flag` is the error flag that some pushes raise without ending the run. */
  datatype AvatarState =
    | Active(ip: int, stack: seq<Value>, flag: Option<Fault>, count: nat)
    | Ended(outcome: Outcome)

  /** Arguments first, then nil in every remaining local slot. */
  function AvatarStart(prog: Program, args: seq<Value>): AvatarState {
    if |args| > STACK_MAX || prog.localCount > STACK_MAX then Ended(Error(StackOverflow))
    else Active(0, Frame(prog.localCount, args), None, 0)
  }

  function Frame(localCount: nat, args: seq<Value>): (r: seq<Value>)
    ensures |r| == if |args| < localCount then localCount else |args|
    ensures forall i :: 0 <= i < |r| ==> r[i] == if i < |args| then args[i] else Nil
  {
    args + seq(if |args| < localCount then localCount - |args| else 0, _ => Nil)
  }

  function AvatarStep(fp: Arith, prog: Program, s: AvatarState): (r: AvatarState)
    ensures s.Active? && r.Active? ==> r.count == s.count + 1 <= MAX_INSTRUCTIONS
  {
    if s.Ended? then s
    else if !(0 <= s.ip < |prog.code|) then Ended(Error(BadInstructionPointer))
    else if s.count + 1 > MAX_INSTRUCTIONS then Ended(Error(InstructionLimit))
    else
      match Decode(prog.code, s.ip)
      case None => Ended(Left)
      case Some(i) => AvatarExec(fp, prog, i, s.ip + Width(i), s)
  }

  function AvatarExec(fp: Arith, prog: Program, i: Instr, next: int, s: AvatarState): (r: AvatarState)
    requires s.Active?
    ensures r.Active? ==> r.count == s.count + 1
  {
    var stack, flag, c := s.stack, s.flag, s.count + 1;
    match i
    case Pop => Active(next, if |stack| <= prog.localCount then stack else Drop(stack, 1), flag, c)
    case Return =>
      if stack == [] then Ended(Error(StackUnderflow))
      else if flag.Some? then Ended(Error(flag.value))
      else Ended(Result(Top(stack)))
    case Jump(off) => Active(next + off, stack, flag, c)
    case Loop(off) => Active(next - off, stack, flag, c)
    case JumpIfFalse(off) =>
      if stack == [] then Ended(Error(StackUnderflow))
      else if BranchFalsy(fp, Top(stack)) then Active(next + off, Drop(stack, 1), flag, c)
      else Active(next, stack, flag, c)
    case _ => AvatarStraight(prog, i, next, s, Straight(fp, prog.consts, i, stack))
  }

  /** Carries out the effect `e` of instruction `i`; the stack cannot grow past its capacity. */
  function AvatarStraight(prog: Program, i: Instr, next: int, s: AvatarState, e: Effect): (r: AvatarState)
    requires s.Active?
    ensures r.Active? ==> r.count == s.count + 1
  {
    match e
    case Stop(f) => Ended(Error(f))
    case Away => Ended(Left)
    case Next(st) =>
      if |st| <= STACK_MAX then
        if (i.GetLocal? || i.SetLocal?) && s.flag.Some? then Ended(Error(s.flag.value))
        else Active(next, st, s.flag, s.count + 1)
      else if i.Constant? || i.Dup? then Ended(Left)
      else if i.GetLocal? then Ended(Error(StackOverflow))
      else Active(next, s.stack, Some(StackOverflow), s.count + 1)
  }

  function AvatarRun(fp: Arith, prog: Program, s: AvatarState): Outcome
    decreases if s.Active? then 1 + MAX_INSTRUCTIONS - s.count else 0
  {
    if s.Ended? then s.outcome
    else
      var t := AvatarStep(fp, prog, s);
      if t.Ended? then t.outcome else AvatarRun(fp, prog, t)
  }
}
