/** The compiler object and the run loop, one after the other. */
module EndToEnd {
  import opened Wrappers
  import opened Values
  import opened Source
  import opened CodeGen
  import opened TypedCode
  import opened Machine
  import opened Lockstep
  import opened Correctness
  import opened LoopFrees
  import opened Compiling
  import opened Avatars

  /** Compiles a function and runs it in an avatar.  The run ends as the source says or at the
      instruction limit; a source run with a loop of that many turns ends at the limit, and without
      loops the limit is out of reach. */
  method CompileAndRun(fp: Arith, f: Function, args: seq<Value>, ghost fuel: nat) returns (ok: Status, o: Outcome)
    requires Runnable(fp, f, args)
    ensures ok.Pass?
    ensures match Call(fp, f, args, fuel) {
              case Returned(v) => o == Result(v) || o == Error(InstructionLimit)
              case Failed(e) => o == Error(e) || o == Error(InstructionLimit)
              case OutOfFuel => fuel >= MAX_INSTRUCTIONS ==> o == Error(InstructionLimit)
              case _ => true
            }
    ensures NoLoops(f) && |Compile(fp, f).code| <= 100000 ==> o != Error(InstructionLimit)
  {
    hide *;
    var prog: Program;
    ok, prog := CompileFunction(fp, f);
    RunnableFits(fp, f, args);
    o := RunAvatar(fp, prog, args);
    AvatarCorrect(fp, f, args, fuel);
    if NoLoops(f) && |Compile(fp, f).code| <= 100000 { NeverCut(fp, f, args); }
  }

  /** What can run can be compiled. */
  lemma RunnableFits(fp: Arith, f: Function, args: seq<Value>)
    requires Runnable(fp, f, args)
    ensures FunctionFits(fp, f)
  {
    hide GenStmts, AllJumpsFit, PeakAll, NeedFunction, SmallStmt;
    assert GenFunction(fp, f).consts == GenStmts(fp, f.body, f.params, 0).consts;
  }
}
