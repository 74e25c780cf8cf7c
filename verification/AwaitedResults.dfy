/** What an await returns, from the source of the function that was submitted. */
module AwaitedResults {
  import opened Wrappers
  import opened Values
  import opened Source
  import opened Machine
  import opened Lockstep
  import opened Correctness
  import opened LoopFrees
  import H = Handles

  /** The function and the arguments a handle was made for. */
  datatype Job = Job(f: Function, args: seq<Value>)

  /** What the task function leaves in the handle: errors leave nil. */
  function LeftIn(o: Outcome): Value {
    if o.Result? then o.v else Nil
  }

  function OutcomeOf(fp: Arith, job: Job): Outcome {
    var prog := Compile(fp, job.f);
    AvatarRun(fp, prog, AvatarStart(prog, job.args))
  }

  /** The result each task function computes: the outcome of its run. */
  function FinalOf(fp: Arith, jobs: nat -> Job): nat -> Value {
    (id: nat) => LeftIn(OutcomeOf(fp, jobs(id)))
  }

  /** Compiler, avatar, pool and handle together: whatever the interleaving, an await of a handle
      that was not cancelled returns what the source of its function returns, or nil if that
      fails; unless the run was cut off at the instruction limit, which leaves nil as well and
      does not happen without loops. */
  lemma AwaitReturnsSource(fp: Arith, jobs: nat -> Job, r: H.Runtime, requested: nat, processors: int,
                           es: seq<H.Event>, o: H.Seen, fuel: nat)
    requires H.Reachable(FinalOf(fp, jobs), r, requested, processors, es) && o in r.seen && !o.cancelled
    requires Runnable(fp, jobs(o.id).f, jobs(o.id).args)
    ensures var job := jobs(o.id);
            var cut := OutcomeOf(fp, job) == Error(InstructionLimit);
            && (cut ==> o.value == Nil)
            && (NoLoops(job.f) && |Compile(fp, job.f).code| <= 100000 ==> !cut)
            && match Call(fp, job.f, job.args, fuel) {
                 case Returned(v) => cut || o.value == v
                 case Failed(_) => o.value == Nil
                 case OutOfFuel => fuel >= MAX_INSTRUCTIONS ==> cut
                 case _ => true
               }
  {
    hide Runnable, AvatarRun, Compile, AvatarStart, Call, H.Reachable;
    H.AwaitsFinal(FinalOf(fp, jobs), r, requested, processors, es, o);
    var f, args := jobs(o.id).f, jobs(o.id).args;
    AvatarCorrect(fp, f, args, fuel);
    if NoLoops(f) && |Compile(fp, f).code| <= 100000 { NeverCut(fp, f, args); }
  }
}
