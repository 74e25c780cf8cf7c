/** Functions without loops: the instruction limit is out of reach, so an avatar ends exactly
    as the source says. */
module LoopFrees {
  import opened Wrappers
  import opened Values
  import opened Bytecode
  import opened Source
  import opened CodeGen
  import opened Typing
  import opened TypedCode
  import opened Machine
  import opened Lockstep
  import opened Runs
  import opened Boundaries
  import opened Correctness

  predicate NoLoops(f: Function) { forall s | s in f.body :: LoopFree(s) }

  function Begin(fp: Arith, f: Function, args: seq<Value>): State {
    Running(0, Frame(Compile(fp, f).localCount, args))
  }

  /** An instruction that is not LOOP leads forward. */
  lemma StepForward(fp: Arith, prog: Program, s: State)
    requires s.Running? && 0 <= s.ip < |prog.code|
    requires Decode(prog.code, s.ip).Some? && !Decode(prog.code, s.ip).value.Loop?
    ensures var t := PlainStep(fp, prog, s); t.Running? ==> t.ip > s.ip
  {
    hide Straight, Decode;
  }

  /** Where a run within the limit stands, there is an instruction, and it is not LOOP. */
  lemma StandsOn(fp: Arith, f: Function, args: seq<Value>, n: nat)
    requires Runnable(fp, f, args) && NoLoops(f) && n <= MAX_INSTRUCTIONS
    ensures var prog := Compile(fp, f);
            var s := PlainRun(fp, prog, Begin(fp, f, args), n);
            s.Running? ==>
              && 0 <= s.ip < |prog.code|
              && Decode(prog.code, s.ip).Some? && !Decode(prog.code, s.ip).value.Loop?
  {
    hide Decode, GenFunction, PeakAll, AllJumpsFit, SmallStmt, NeedFunction, Parses, Comes, LoopFree, PlainRun,
      AvatarIter, AvatarStart, Frame, Pending;
    var g := GenFunction(fp, f);
    RunsInLockstep(fp, f, Single, args, n);
    WellFunction(false, fp, f);
    assert g.code[0..] == g.code && g.marks[0..] == g.marks;
    var s := PlainRun(fp, Compile(fp, f), Begin(fp, f, args), n);
    if s.Running? { MarkedStarts(false, g.code, g.marks, 0, s.ip); }
  }

  /** Every instruction takes the run at least one byte further. */
  lemma {:induction false} RunForward(fp: Arith, f: Function, args: seq<Value>, n: nat)
    requires Runnable(fp, f, args) && NoLoops(f) && n <= MAX_INSTRUCTIONS
    ensures var s := PlainRun(fp, Compile(fp, f), Begin(fp, f, args), n);
            s.Running? ==> n <= s.ip < |Compile(fp, f).code|
    decreases n
  {
    hide Decode, Runnable, Compile, LoopFree, Frame, PlainStep, PlainRun;
    var prog, s0 := Compile(fp, f), Begin(fp, f, args);
    StandsOn(fp, f, args, n);
    if n == 0 {
      RunNone(fp, prog, s0);
    } else {
      RunForward(fp, f, args, n - 1);
      StandsOn(fp, f, args, n - 1);
      PlainRunLast(fp, prog, s0, n - 1);
      var s := PlainRun(fp, prog, s0, n - 1);
      if s.Running? { StepForward(fp, prog, s); } else { RunNoMore(fp, prog, s); }
    }
  }

  lemma RunNone(fp: Arith, prog: Program, s: State)
    ensures PlainRun(fp, prog, s, 0) == s
  {
  }

  lemma RunNoMore(fp: Arith, prog: Program, s: State)
    requires !s.Running?
    ensures PlainStep(fp, prog, s) == s
  {
  }

  /** The limit never ends a run without loops whose code is at most as long as the limit. */
  lemma NeverCut(fp: Arith, f: Function, args: seq<Value>)
    requires Runnable(fp, f, args) && NoLoops(f) && |Compile(fp, f).code| <= 100000
    ensures var prog := Compile(fp, f);
            AvatarRun(fp, prog, AvatarStart(prog, args)) != Error(InstructionLimit)
  {
    hide Runnable, Compile, AvatarRun, AvatarStart, PlainRun, NoLoops;
    LimitReached(fp, f, args);
    RunForward(fp, f, args, 100000);
  }

  /** Compiler correctness without a way out: a function without loops whose code fits the limit
      byte for byte ends in an avatar with the value or the error the source gives it. */
  lemma LoopFreeExact(fp: Arith, f: Function, args: seq<Value>, fuel: nat)
    requires Runnable(fp, f, args) && NoLoops(f) && |Compile(fp, f).code| <= 100000
    ensures var prog := Compile(fp, f);
            var o := AvatarRun(fp, prog, AvatarStart(prog, args));
            match Call(fp, f, args, fuel) {
              case Returned(v) => o == Result(v)
              case Failed(e) => o == Error(e)
              case OutOfFuel => fuel < 100000
              case _ => true
            }
  {
    hide Runnable, Compile, AvatarRun, AvatarStart, Call, NoLoops;
    NeverCut(fp, f, args);
    AvatarCorrect(fp, f, args, fuel);
  }
}
