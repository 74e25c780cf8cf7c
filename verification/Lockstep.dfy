/** On compiled code the avatar machine runs in lockstep with the plain machine.

    A taken conditional jump of the avatar pops, and it always lands on a POP: at the height of
    the locals, where the guard blocks exactly that POP, or, for the only case of a switch, one
    above it, where the POP takes the scrutinee away and the guard blocks the POP after it. */
module Lockstep {
  import opened Wrappers
  import opened Values
  import opened Bytecode
  import opened Source
  import opened CodeGen
  import opened Typing
  import opened TypedCode
  import opened Machine

  // ----- compiled functions -----

  /** What the compiler hands to the runtime for `f`. */
  function Compile(fp: Arith, f: Function): Program {
    var g := GenFunction(fp, f);
    Program(g.code, g.consts, PeakAll(f.body, |f.params|))
  }

  /** The limits of the bytecode format, and those on `switch`. */
  predicate WithinLimits(fp: Arith, f: Function, limit: CaseLimit) {
    && (forall s | s in f.body :: SmallStmt(s, limit))
    && AllJumpsFit(fp, f.body, f.params, 0)
    && PeakAll(f.body, |f.params|) <= 0x100
    && |GenFunction(fp, f).consts| <= 0x100
  }

  function BoundsOf(fp: Arith, f: Function, limit: CaseLimit): Bounds {
    Bounds(PeakAll(f.body, |f.params|), |GenFunction(fp, f).consts|, NeedFunction(f), limit)
  }

  /** Every compiled function is typed, from height 0 to an end that is never reached. */
  lemma FunctionTyped(fp: Arith, f: Function, limit: CaseLimit)
    requires WithinLimits(fp, f, limit)
    ensures Spans(BoundsOf(fp, f, limit), GenFunction(fp, f), 0, -1)
  {
    hide Spans, One, Encode, Cat, GenStmts, SmallStmt, AllJumpsFit, PeakAll, NeedStmts;
    var b := BoundsOf(fp, f, limit);
    SpansStmts(b, fp, f.body, f.params, 0);
    SpansOne(b, PushNil, 0, 1);
    SpansOne(b, Return, 1, -1);
    SpansCat(b, One(PushNil, 0), One(Return, 1), 0, 1, -1);
    SpansCat(b, GenStmts(fp, f.body, f.params, 0), Cat(One(PushNil, 0), One(Return, 1)), 0, 0, -1);
  }

  // ----- the relation between the two runs -----

  /** The avatar has popped already and stands before the POP its guard will block; or, after
      the only case of a switch has missed, one POP before it. */
  predicate Pending(b: Bounds, g: Frag, ip: int, plain: seq<Value>, avatar: seq<Value>) {
    && 0 <= ip < |g.code| && g.code[ip] == Opcode(Pop)
    && plain != [] && avatar == Drop(plain, 1)
    && (|plain| == b.locals + 1
        || (b.limit.Single? && |plain| == b.locals + 2 && ip + 1 < |g.code| && g.code[ip + 1] == Opcode(Pop)))
  }

  /** Faults that depend on the operands, as opposed to malformed code. */
  predicate OperandFault(f: Fault) {
    !f.StackUnderflow? && !f.StackOverflow? && !f.InvalidConstant?
    && !f.BadInstructionPointer? && !f.InstructionLimit? && !f.UnsupportedOpcode?
  }

  /** State after `n` steps of either machine; stack height and mark agree. */
  predicate Mirror(b: Bounds, g: Frag, pl: State, av: AvatarState, n: nat) {
    match pl
    case Running(ip, st) =>
      && av.Active? && av.ip == ip && av.flag.None? && av.count == n
      && 0 <= ip < |g.code| && 0 <= g.marks[ip] <= b.height
      && |st| == b.locals + g.marks[ip]
      && (av.stack == st || Pending(b, g, ip, st, av.stack))
    case Done(v) => av == Ended(Result(v))
    case Halted(f) => av == Ended(Error(f)) && OperandFault(f)
    case Outside => av == Ended(Left)
  }

  /** A straight instruction with enough operands moves the stack by a fixed amount. */
  lemma StraightHeight(fp: Arith, consts: seq<Value>, i: Instr, stack: seq<Value>)
    requires !IsControl(i) && Pops(i) <= |stack|
    requires InBounds(Bounds(|stack|, |consts|, 0, Any), i)
    ensures var e := Straight(fp, consts, i, stack);
            && (e.Next? ==> |e.stack| == |stack| - Pops(i) + Pushes(i))
            && (e.Stop? ==> OperandFault(e.fault))
  {
  }

  /** The facts a typed fragment gives about the instruction at `ip`. */
  lemma DecodeTyped(b: Bounds, g: Frag, ip: nat) returns (i: Instr)
    requires Typed(b, g, -1) && ip < |g.code| && g.marks[ip] >= 0
    ensures Decode(g.code, ip) == Some(i)
    ensures InstrOk(b, i, g.code, g.marks + [-1], ip + Width(i), g.marks[ip])
    ensures g.code[ip] == Opcode(i)
  {
    hide Decode, InstrOk, Width;
    assert OkAt(b, g.code, g.marks + [-1], ip);
    i := Decode(g.code, ip).value;
  }

  lemma LandsInside(g: Frag, t: int, h: nat)
    requires Lands(g.marks + [-1], t, h)
    ensures 0 <= t < |g.code| && g.marks[t] == h
  {
  }

  predicate Setting(b: Bounds, g: Frag, prog: Program) {
    && prog == Program(g.code, g.consts, b.locals) && b.consts == |g.consts| && !b.limit.Any?
    && Spans(b, g, 0, -1) && b.locals + b.height <= STACK_MAX
  }

  lemma MirrorStep(fp: Arith, b: Bounds, g: Frag, prog: Program, pl: State, av: AvatarState, n: nat)
    requires Setting(b, g, prog) && Mirror(b, g, pl, av, n) && n < MAX_INSTRUCTIONS
    ensures Mirror(b, g, PlainStep(fp, prog, pl), AvatarStep(fp, prog, av), n + 1)
  {
    hide Decode, Typed, Opcode, Straight, InstrOk;
    if pl.Running? {
      var i := DecodeTyped(b, g, pl.ip);
      if i.Pop? {
        MirrorPop(fp, b, g, prog, pl, av, n);
      } else if i.JumpIfFalse? {
        MirrorBranch(fp, b, g, prog, i, pl, av, n);
      } else {
        MirrorOther(fp, b, g, prog, i, pl, av, n);
      }
    }
  }

  lemma MirrorPop(fp: Arith, b: Bounds, g: Frag, prog: Program, pl: State, av: AvatarState, n: nat)
    requires Setting(b, g, prog) && Mirror(b, g, pl, av, n) && n < MAX_INSTRUCTIONS && pl.Running?
    requires Decode(g.code, pl.ip) == Some(Pop)
    requires InstrOk(b, Pop, g.code, g.marks + [-1], pl.ip + 1, g.marks[pl.ip])
    ensures Mirror(b, g, PlainStep(fp, prog, pl), AvatarStep(fp, prog, av), n + 1)
  {
    hide Decode, Typed, Opcode, Straight;
    LandsInside(g, pl.ip + 1, g.marks[pl.ip] - 1);
    MarksBounded(b, g, pl.ip + 1);
  }

  lemma MarksBounded(b: Bounds, g: Frag, ip: nat)
    requires Typed(b, g, -1) && ip < |g.code|
    ensures g.marks[ip] <= b.height
  {
    hide Decode, InstrOk;
    assert OkAt(b, g.code, g.marks + [-1], ip);
  }

  lemma MirrorBranch(fp: Arith, b: Bounds, g: Frag, prog: Program, i: Instr, pl: State, av: AvatarState, n: nat)
    requires Setting(b, g, prog) && Mirror(b, g, pl, av, n) && n < MAX_INSTRUCTIONS && pl.Running?
    requires i.JumpIfFalse? && Decode(g.code, pl.ip) == Some(i) && g.code[pl.ip] == Opcode(i)
    requires InstrOk(b, i, g.code, g.marks + [-1], pl.ip + Width(i), g.marks[pl.ip])
    ensures Mirror(b, g, PlainStep(fp, prog, pl), AvatarStep(fp, prog, av), n + 1)
  {
    hide Decode, Typed, Straight;
    LandsInside(g, pl.ip + 3, g.marks[pl.ip]);
    LandsInside(g, pl.ip + 3 + i.off, g.marks[pl.ip]);
  }

  lemma MirrorOther(fp: Arith, b: Bounds, g: Frag, prog: Program, i: Instr, pl: State, av: AvatarState, n: nat)
    requires Setting(b, g, prog) && Mirror(b, g, pl, av, n) && n < MAX_INSTRUCTIONS && pl.Running?
    requires !i.Pop? && !i.JumpIfFalse? && Decode(g.code, pl.ip) == Some(i) && g.code[pl.ip] == Opcode(i)
    requires InstrOk(b, i, g.code, g.marks + [-1], pl.ip + Width(i), g.marks[pl.ip])
    ensures Mirror(b, g, PlainStep(fp, prog, pl), AvatarStep(fp, prog, av), n + 1)
  {
    hide Decode, Typed, Opcode, Straight;
    var h, next := g.marks[pl.ip], pl.ip + Width(i);
    assert av.stack == pl.stack by {
      if Pending(b, g, pl.ip, pl.stack, av.stack) { NotPending(b, i); }
    }
    if i.Return? {
    } else if i.Jump? {
      LandsInside(g, next + i.off, h);
    } else if i.Loop? {
      LandsInside(g, next - i.off, h);
    } else {
      LandsInside(g, next, h - Pops(i) + Pushes(i));
      MarksBounded(b, g, next);
      StraightHeight(fp, g.consts, i, pl.stack);
    }
  }

  lemma NotPending(b: Bounds, i: Instr)
    requires !i.Pop? && (IsControl(i) || InBounds(b, i))
    ensures Opcode(i) != Opcode(Pop)
  {
  }

  function AvatarIter(fp: Arith, prog: Program, s: AvatarState, n: nat): AvatarState
    decreases n
  {
    if n == 0 then s else AvatarStep(fp, prog, AvatarIter(fp, prog, s, n - 1))
  }

  lemma {:induction false} PlainRunLast(fp: Arith, prog: Program, s: State, n: nat)
    ensures PlainRun(fp, prog, s, n + 1) == PlainStep(fp, prog, PlainRun(fp, prog, s, n))
    decreases n
  {
    PlainRunAdd(fp, prog, s, n, 1);
    assert PlainRun(fp, prog, PlainRun(fp, prog, s, n), 1)
        == PlainRun(fp, prog, PlainStep(fp, prog, PlainRun(fp, prog, s, n)), 0);
  }

  /** Lockstep: at every step of every run within the instruction limit the two
      machines agree, up to the one condition the avatar has popped early. */
  lemma {:induction false} RunsInLockstep(fp: Arith, f: Function, limit: CaseLimit, args: seq<Value>, n: nat)
    requires WithinLimits(fp, f, limit) && !limit.Any?
    requires var prog := Compile(fp, f);
             |args| <= prog.localCount && prog.localCount + NeedFunction(f) <= STACK_MAX
    requires n <= MAX_INSTRUCTIONS
    ensures var prog := Compile(fp, f);
            Mirror(BoundsOf(fp, f, limit), GenFunction(fp, f),
              PlainRun(fp, prog, Running(0, Frame(prog.localCount, args)), n),
              AvatarIter(fp, prog, AvatarStart(prog, args), n), n)
    decreases n
  {
    hide Mirror, Spans, GenFunction, PeakAll, NeedFunction, PlainStep, AvatarStep, Frame;
    var prog, b, g := Compile(fp, f), BoundsOf(fp, f, limit), GenFunction(fp, f);
    FunctionTyped(fp, f, limit);
    if n == 0 {
      MirrorStart(b, g, prog, args);
    } else {
      RunsInLockstep(fp, f, limit, args, n - 1);
      PlainRunLast(fp, prog, Running(0, Frame(prog.localCount, args)), n - 1);
      MirrorStep(fp, b, g, prog, PlainRun(fp, prog, Running(0, Frame(prog.localCount, args)), n - 1),
        AvatarIter(fp, prog, AvatarStart(prog, args), n - 1), n - 1);
    }
  }

  lemma MirrorStart(b: Bounds, g: Frag, prog: Program, args: seq<Value>)
    requires Setting(b, g, prog) && |args| <= b.locals
    ensures Mirror(b, g, Running(0, Frame(prog.localCount, args)), AvatarStart(prog, args), 0)
  {
    hide Typed;
    LandsInside(g, 0, 0);
  }
}
