/** The main results about compiled functions. */
module Correctness {
  import opened Wrappers
  import opened Values
  import opened Bytecode
  import opened Source
  import opened CodeGen
  import opened Typing
  import opened TypedCode
  import opened Machine
  import opened Lockstep
  import opened Relation
  import opened Runs
  import opened Simulation
  import opened Statements

  /** What the plain machine does when the source says `r`. */
  ghost predicate Agrees(fp: Arith, prog: Program, s: State, r: ExecResult, fuel: nat) {
    match r
    case Returned(v) => Reaches(fp, prog, s, Done(v), 0)
    case Failed(f) => Reaches(fp, prog, s, Halted(f), 0)
    case OutOfFuel => Alive(fp, prog, s, fuel)
    case _ => true
  }

  /** Compiler correctness on the machine the compiler was written for: a call ends
      as the source says, and a call that keeps looping keeps the machine running. */
  lemma {:induction false} CompiledCallAgrees(fp: Arith, f: Function, args: seq<Value>, fuel: nat)
    requires WithinLimits(fp, f, Any)
    ensures var prog := Compile(fp, f);
            Agrees(fp, prog, Running(0, Frame(prog.localCount, args)), Call(fp, f, args, fuel), fuel)
  {
    hide GenFunction, PeakAll, AllJumpsFit, SmallStmt, Frame, ExecAll, Bind, Rel;
    var prog := Compile(fp, f);
    var cells, env := Frame(prog.localCount, args), Bind(f.params, args);
    var c := Layout(fp, prog, [0], f.params);
    RelBind(f.params, args, cells);
    SimFunction(c, f, env, cells, fuel);
  }

  // ----- the avatar -----

  lemma {:induction false} RunFromIter(fp: Arith, prog: Program, s: AvatarState, n: nat)
    ensures AvatarRun(fp, prog, s) == AvatarRun(fp, prog, AvatarIter(fp, prog, s, n))
    decreases n
  {
    if n > 0 {
      RunFromIter(fp, prog, s, n - 1);
      RunFromStep(fp, prog, AvatarIter(fp, prog, s, n - 1));
    }
  }

  lemma RunFromStep(fp: Arith, prog: Program, s: AvatarState)
    ensures AvatarRun(fp, prog, s) == AvatarRun(fp, prog, AvatarStep(fp, prog, s))
  {
    hide AvatarExec, Decode;
  }

  /** The outcome an avatar reports when the plain machine stands at `s` after the last instruction it may run. */
  function Reported(s: State): Outcome {
    match s
    case Running(_, _) => Error(InstructionLimit)
    case Done(v) => Result(v)
    case Halted(f) => Error(f)
    case Outside => Left
  }

  predicate Runnable(fp: Arith, f: Function, args: seq<Value>) {
    var prog := Compile(fp, f);
    && WithinLimits(fp, f, Single)
    && |args| <= prog.localCount && prog.localCount + NeedFunction(f) <= STACK_MAX
  }

  /** The outcome of an avatar is the plain machine's, cut off at the instruction limit. */
  lemma AvatarReports(fp: Arith, f: Function, args: seq<Value>)
    requires Runnable(fp, f, args)
    ensures var prog := Compile(fp, f);
            AvatarRun(fp, prog, AvatarStart(prog, args))
              == Reported(PlainRun(fp, prog, Running(0, Frame(prog.localCount, args)), MAX_INSTRUCTIONS))
  {
    hide GenFunction, PeakAll, NeedFunction, WithinLimits, Frame, PlainRun, AvatarIter, AvatarExec, Decode, AvatarStart;
    var prog := Compile(fp, f);
    var av := AvatarStart(prog, args);
    RunsInLockstep(fp, f, Single, args, MAX_INSTRUCTIONS);
    RunFromIter(fp, prog, av, MAX_INSTRUCTIONS);
    RunFromStep(fp, prog, AvatarIter(fp, prog, av, MAX_INSTRUCTIONS));
  }

  /** The limit ends a run if and only if the plain machine is still going after 100000
      instructions. */
  lemma LimitReached(fp: Arith, f: Function, args: seq<Value>)
    requires Runnable(fp, f, args)
    ensures var prog := Compile(fp, f);
            var o := AvatarRun(fp, prog, AvatarStart(prog, args));
            var plain := PlainRun(fp, prog, Running(0, Frame(prog.localCount, args)), 100000);
            o == Error(InstructionLimit) <==> plain.Running?
  {
    hide GenFunction, PeakAll, NeedFunction, WithinLimits, Frame, PlainRun, AvatarIter, AvatarRun, AvatarStart;
    AvatarReports(fp, f, args);
    RunsInLockstep(fp, f, Single, args, MAX_INSTRUCTIONS);
  }

  /** A run that has ended within the limit, or that the limit cuts off. */
  lemma CutOff(fp: Arith, prog: Program, s: State, t: State, n: nat)
    requires Reaches(fp, prog, s, t, 0) && !t.Running?
    ensures PlainRun(fp, prog, s, n).Running? || PlainRun(fp, prog, s, n) == t
  {
    var i: nat :| PlainRun(fp, prog, s, i) == t;
    if i <= n {
      PlainRunAdd(fp, prog, s, i, n - i);
      PlainRunStopped(fp, prog, t, n - i);
    } else if !PlainRun(fp, prog, s, n).Running? {
      PlainRunAdd(fp, prog, s, n, i - n);
      PlainRunStopped(fp, prog, PlainRun(fp, prog, s, n), i - n);
    }
  }

  /** Compiler correctness on an avatar, for all bodies and arguments: the run ends with
      the value or the error the source gives, or at the instruction limit; if some loop
      makes as many turns as the limit allows instructions, it ends at the limit. */
  lemma {:induction false} AvatarCorrect(fp: Arith, f: Function, args: seq<Value>, fuel: nat)
    requires Runnable(fp, f, args)
    ensures var prog := Compile(fp, f);
            var o := AvatarRun(fp, prog, AvatarStart(prog, args));
            match Call(fp, f, args, fuel) {
              case Returned(v) => o == Result(v) || o == Error(InstructionLimit)
              case Failed(e) => o == Error(e) || o == Error(InstructionLimit)
              case OutOfFuel => fuel >= MAX_INSTRUCTIONS ==> o == Error(InstructionLimit)
              case _ => true
            }
  {
    hide Compile, AvatarRun, AvatarStart, PlainRun, Call, Frame, SmallStmt, AllJumpsFit, PeakAll, GenFunction;
    var prog := Compile(fp, f);
    var s := Running(0, Frame(prog.localCount, args));
    LooserLimits(fp, f);
    CompiledCallAgrees(fp, f, args, fuel);
    AvatarReports(fp, f, args);
    match Call(fp, f, args, fuel)
    case Returned(v) => CutOff(fp, prog, s, Done(v), MAX_INSTRUCTIONS);
    case Failed(e) => CutOff(fp, prog, s, Halted(e), MAX_INSTRUCTIONS);
    case OutOfFuel => if fuel >= MAX_INSTRUCTIONS { PlainRunPrefix(fp, prog, s, MAX_INSTRUCTIONS, fuel); }
    case _ =>
  }

  lemma LooserLimits(fp: Arith, f: Function)
    requires WithinLimits(fp, f, Single)
    ensures WithinLimits(fp, f, Any)
  {
    hide AllJumpsFit, PeakAll, GenFunction, SmallStmt;
    forall s | s in f.body
      ensures SmallStmt(s, Any)
    {
      LooserSmall(s);
    }
  }

  lemma {:induction false} LooserSmall(s: Stmt)
    requires SmallStmt(s, Single)
    ensures SmallStmt(s, Any)
    decreases s
  {
    hide Small;
    match s
    case Block(ss) =>
      forall x | x in ss
        ensures SmallStmt(x, Any)
      {
        LooserSmall(x);
      }
    case If(_, t, e) =>
      LooserSmall(t);
      if e.Some? { LooserSmall(e.value); }
    case While(_, body) => LooserSmall(body);
    case For(_, _, _, body) => LooserSmall(body);
    case Switch(_, cases, d) =>
      forall x | x in cases
        ensures SmallStmt(x.body, Any)
      {
        LooserSmall(x.body);
      }
      if d.Some? { LooserSmall(d.value); }
    case _ =>
  }

  /** Compiled code never trips a check of the run loop that guards against bad code. */
  lemma OnlyOperandFaults(fp: Arith, f: Function, args: seq<Value>)
    requires Runnable(fp, f, args)
    ensures var prog := Compile(fp, f);
            var o := AvatarRun(fp, prog, AvatarStart(prog, args));
            o.Error? ==> OperandFault(o.fault) || o.fault.InstructionLimit?
  {
    hide GenFunction, PeakAll, NeedFunction, WithinLimits, Frame, PlainRun, AvatarIter, AvatarRun, AvatarStart;
    AvatarReports(fp, f, args);
    RunsInLockstep(fp, f, Single, args, MAX_INSTRUCTIONS);
  }

  /** The stack never falls below the locals and never rises above the need computed from the
      body, so no push is ever refused. */
  lemma StackBounded(fp: Arith, f: Function, args: seq<Value>, n: nat)
    requires Runnable(fp, f, args) && n <= MAX_INSTRUCTIONS && Standing(fp, f, args, n).Active?
    ensures var av := Standing(fp, f, args, n);
            var locals := Compile(fp, f).localCount;
            locals <= |av.stack| <= locals + NeedFunction(f) && av.flag.None?
  {
    hide GenFunction, PeakAll, NeedFunction, WithinLimits, Frame, PlainRun, AvatarStart, AvatarIter;
    RunsInLockstep(fp, f, Single, args, n);
  }

  /** In any program, compiled or not: after a push that was refused for want of room, the run
      never ends with a value. */
  lemma {:induction false} RefusalIsFinal(fp: Arith, prog: Program, s: AvatarState)
    requires s.Active? && s.flag.Some?
    ensures !AvatarRun(fp, prog, s).Result?
    decreases 1 + MAX_INSTRUCTIONS - s.count
  {
    hide Decode, Straight;
    var t := AvatarStep(fp, prog, s);
    if t.Active? { RefusalIsFinal(fp, prog, t); }
  }

  /** In any program the stack holds at most 2048 values at every step. */
  lemma {:induction false} StackCapacity(fp: Arith, prog: Program, args: seq<Value>, n: nat)
    ensures var s := AvatarIter(fp, prog, AvatarStart(prog, args), n); s.Active? ==> |s.stack| <= 2048
    decreases n
  {
    hide Decode, Straight;
    if n > 0 { StackCapacity(fp, prog, args, n - 1); }
  }

  // ----- the two deviations -----

  /** Where the avatar stands after `n` instructions of a run of `f`. */
  function Standing(fp: Arith, f: Function, args: seq<Value>, n: nat): AvatarState {
    var prog := Compile(fp, f);
    AvatarIter(fp, prog, AvatarStart(prog, args), n)
  }

  /** A conditional jump that is taken, and so pops, lands on a POP with nothing above the locals;
      for the case of a switch, on two POPs with only the scrutinee above them. */
  lemma TakenJumpLands(fp: Arith, f: Function, args: seq<Value>, n: nat)
    requires Runnable(fp, f, args) && n < MAX_INSTRUCTIONS
    requires var prog, av := Compile(fp, f), Standing(fp, f, args, n);
             && av.Active? && 0 <= av.ip < |prog.code|
             && Decode(prog.code, av.ip).Some? && Decode(prog.code, av.ip).value.JumpIfFalse?
             && av.stack != [] && BranchFalsy(fp, Top(av.stack))
    ensures var prog, av := Compile(fp, f), Standing(fp, f, args, n + 1);
            && av.Active? && 0 <= av.ip < |prog.code| && prog.code[av.ip] == Opcode(Pop)
            && (|av.stack| == prog.localCount ||
                (|av.stack| == prog.localCount + 1 && av.ip + 1 < |prog.code| && prog.code[av.ip + 1] == Opcode(Pop)))
            && (WithinLimits(fp, f, NoCase) ==> |av.stack| == prog.localCount)
  {
    hide GenFunction, PeakAll, NeedFunction, WithinLimits, Frame, PlainRun, AvatarStart, Decode, BranchFalsy, Typed,
      InstrOk, Mirror;
    JumpLandsAt(fp, f, Single, args, n);
    if WithinLimits(fp, f, NoCase) { JumpLandsAt(fp, f, NoCase, args, n); }
  }

  lemma JumpLandsAt(fp: Arith, f: Function, limit: CaseLimit, args: seq<Value>, n: nat)
    requires Runnable(fp, f, args) && n < MAX_INSTRUCTIONS && WithinLimits(fp, f, limit) && !limit.Any?
    requires var prog, av := Compile(fp, f), Standing(fp, f, args, n);
             && av.Active? && 0 <= av.ip < |prog.code|
             && Decode(prog.code, av.ip).Some? && Decode(prog.code, av.ip).value.JumpIfFalse?
             && av.stack != [] && BranchFalsy(fp, Top(av.stack))
    ensures var prog, av := Compile(fp, f), Standing(fp, f, args, n + 1);
            && av.Active? && 0 <= av.ip < |prog.code| && prog.code[av.ip] == Opcode(Pop)
            && (|av.stack| == prog.localCount ||
                (limit.Single? && |av.stack| == prog.localCount + 1
                 && av.ip + 1 < |prog.code| && prog.code[av.ip + 1] == Opcode(Pop)))
  {
    hide GenFunction, PeakAll, NeedFunction, WithinLimits, Frame, PlainRun, AvatarStart, Decode, BranchFalsy, Typed,
      InstrOk, Mirror;
    var prog, b, g := Compile(fp, f), BoundsOf(fp, f, limit), GenFunction(fp, f);
    FunctionTyped(fp, f, limit);
    RunsInLockstep(fp, f, limit, args, n);
    var av := Standing(fp, f, args, n);
    MirrorFacts(b, g, PlainRun(fp, prog, Running(0, Frame(prog.localCount, args)), n), av, n);
    var i := DecodeTyped(b, g, av.ip);
    BranchTarget(b, i, g, av.ip);
  }

  lemma MirrorFacts(b: Bounds, g: Frag, pl: State, av: AvatarState, n: nat)
    requires Mirror(b, g, pl, av, n) && av.Active?
    ensures pl.Running? && av.count == n && 0 <= av.ip < |g.code| && g.marks[av.ip] >= 0
    ensures |pl.stack| == b.locals + g.marks[av.ip]
    ensures av.stack == pl.stack || Pending(b, g, av.ip, pl.stack, av.stack)
  {
  }

  lemma BranchTarget(b: Bounds, i: Instr, g: Frag, ip: nat)
    requires i.JumpIfFalse? && !b.limit.Any? && ip < |g.code| && g.code[ip] == Opcode(i) && g.marks[ip] >= 0
    requires InstrOk(b, i, g.code, g.marks + [-1], ip + Width(i), g.marks[ip])
    ensures var t := ip + 3 + i.off;
            && t < |g.code| && g.code[t] == Opcode(Pop)
            && (g.marks[ip] == 1 || (b.limit.Single? && g.marks[ip] == 2 && t + 1 < |g.code|
              && g.code[t + 1] == Opcode(Pop)))
    ensures g.code[ip] != Opcode(Pop)
  {
  }

  /** The guard on POP blocks exactly the pops that a taken jump has made already: those before
      which the avatar is one value short of the plain machine and nothing is left above the
      locals.  Without cases, these are all the pops before which the machines differ. */
  lemma GuardBlocksEarlyPops(fp: Arith, f: Function, args: seq<Value>, n: nat)
    requires Runnable(fp, f, args) && n <= MAX_INSTRUCTIONS
    requires var prog, av := Compile(fp, f), Standing(fp, f, args, n);
             && av.Active? && 0 <= av.ip < |prog.code| && Decode(prog.code, av.ip) == Some(Pop)
    ensures var prog, av := Compile(fp, f), Standing(fp, f, args, n);
            var pl := PlainRun(fp, prog, Running(0, Frame(prog.localCount, args)), n);
            && pl.Running? && pl.stack != []
            && (|av.stack| <= prog.localCount <==> av.stack != pl.stack && |pl.stack| == prog.localCount + 1)
            && (av.stack != pl.stack ==> av.stack == Drop(pl.stack, 1))
            && (WithinLimits(fp, f, NoCase) ==> (|av.stack| <= prog.localCount <==> av.stack != pl.stack))
  {
    hide GenFunction, PeakAll, NeedFunction, WithinLimits, Frame, PlainRun, AvatarStart, AvatarIter, Decode, Typed,
      Mirror;
    PopFacts(fp, f, Single, args, n);
    if WithinLimits(fp, f, NoCase) { PopFacts(fp, f, NoCase, args, n); }
  }

  lemma PopFacts(fp: Arith, f: Function, limit: CaseLimit, args: seq<Value>, n: nat)
    requires Runnable(fp, f, args) && n <= MAX_INSTRUCTIONS && WithinLimits(fp, f, limit) && !limit.Any?
    requires var prog, av := Compile(fp, f), Standing(fp, f, args, n);
             && av.Active? && 0 <= av.ip < |prog.code| && Decode(prog.code, av.ip) == Some(Pop)
    ensures var prog, av := Compile(fp, f), Standing(fp, f, args, n);
            var pl := PlainRun(fp, prog, Running(0, Frame(prog.localCount, args)), n);
            && pl.Running? && |pl.stack| > prog.localCount
            && (av.stack == pl.stack ||
                (av.stack == Drop(pl.stack, 1)
                 && (|pl.stack| == prog.localCount + 1 || (limit.Single? && |pl.stack| == prog.localCount + 2))))
  {
    hide GenFunction, PeakAll, NeedFunction, WithinLimits, Frame, PlainRun, AvatarStart, AvatarIter, Decode, Typed,
      Mirror;
    var prog, b, g := Compile(fp, f), BoundsOf(fp, f, limit), GenFunction(fp, f);
    FunctionTyped(fp, f, limit);
    RunsInLockstep(fp, f, limit, args, n);
    var av := Standing(fp, f, args, n);
    MirrorFacts(b, g, PlainRun(fp, prog, Running(0, Frame(prog.localCount, args)), n), av, n);
    var i := DecodeTyped(b, g, av.ip);
  }
}
