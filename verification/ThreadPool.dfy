/** The thread pool as a transition system: every critical section is one atomic step,
    and steps of submitters, workers and the main thread interleave freely. */
module Pools {
  import opened Wrappers

  /** `callback`: the task was submitted with a completion function. */
  datatype Task = Task(id: nat, callback: bool)

  // ----- what the locks protect -----

  datatype Shared = Shared(queue: seq<Task>, completions: seq<Task>, pending: int, shutdown: bool)

  datatype Decision = Wait | Exit | Take(task: Task)

  /** Critical section of `thread_pool_submit`; the flag says whether the task was accepted. */
  function SubmitTo(s: Shared, t: Task): (Shared, bool) {
    if s.shutdown then (s, false)
    else (s.(queue := s.queue + [t], pending := s.pending + 1), true)
  }

  /** Critical section of a worker: it waits, exits, or takes the oldest task. */
  function Check(s: Shared): (Shared, Decision) {
    if s.queue == [] then (s, if s.shutdown then Exit else Wait)
    else (s.(queue := s.queue[1..], pending := s.pending - 1), Take(s.queue[0]))
  }

  function PublishTo(s: Shared, t: Task): Shared {
    s.(completions := s.completions + [t])
  }

  function PickFrom(s: Shared): (Shared, Option<Task>) {
    if s.completions == [] then (s, None)
    else (s.(completions := s.completions[1..]), Some(s.completions[0]))
  }

  // ----- the whole system -----

  /** `Checking`: about to look at the queue; `Woken`: was waiting and has not looked again. */
  datatype Worker = Checking | Waiting | Woken | Running(task: Task) | Publishing(task: Task) | Exited

  /** The last six fields are histories: tasks accepted and taken, tasks whose function has
      returned, callbacks being called, callbacks that have returned, tasks freed without a
      callback, and completions thrown away by the destructor. */
  datatype State = State(
    shared: Shared,
    workers: seq<Worker>,
    accepted: seq<Task>,
    taken: seq<Task>,
    executed: seq<Task>,
    calling: seq<Task>,
    called: seq<Task>,
    freed: seq<Task>,
    discarded: seq<Task>)

  datatype Event =
    | Submit(t: Task, woken: set<nat>)
    | SpuriousWake(i: nat)
    | Look(i: nat)
    | Finish(i: nat)
    | Publish(i: nat)
    | Pick
    | Return(j: nat)
    | ShutDown
    | Destroy

  /** As many threads as requested; by default one per processor, or four. */
  function ThreadCount(requested: nat, processors: int): (n: nat)
    ensures n > 0
  {
    if requested > 0 then requested else if processors > 0 then processors else 4
  }

  function Start(requested: nat, processors: int): State {
    State(Shared([], [], 0, false), seq(ThreadCount(requested, processors), _ => Checking), [], [], [], [], [], [], [])
  }

  /** Whether the workers `woken` may be the ones a signal wakes: they wait, and there is at
      least one if anybody waits. */
  predicate Signals(ws: seq<Worker>, woken: set<nat>) {
    && (forall i | i in woken :: i < |ws| && ws[i].Waiting?)
    && ((exists i :: 0 <= i < |ws| && ws[i].Waiting?) ==> woken != {})
  }

  function WakeAll(ws: seq<Worker>, woken: set<nat>): (r: seq<Worker>)
    ensures |r| == |ws|
    ensures forall i :: 0 <= i < |ws| ==> r[i] == if i in woken && ws[i].Waiting? then Woken else ws[i]
  {
    seq(|ws|, i requires 0 <= i < |ws| => if i in woken && ws[i].Waiting? then Woken else ws[i])
  }

  function Sleepers(ws: seq<Worker>): set<nat> {
    set i | 0 <= i < |ws| && ws[i].Waiting?
  }

  /** A submit after the shutdown is an event too; it changes nothing. */
  predicate Enabled(s: State, e: Event) {
    match e
    case Submit(t, woken) => t !in s.accepted && Signals(s.workers, woken)
    case SpuriousWake(i) => i < |s.workers| && s.workers[i].Waiting?
    case Look(i) => i < |s.workers| && (s.workers[i].Checking? || s.workers[i].Woken?)
    case Finish(i) => i < |s.workers| && s.workers[i].Running?
    case Publish(i) => i < |s.workers| && s.workers[i].Publishing?
    case Pick => s.shared.completions != []
    case Return(j) => j < |s.calling|
    case ShutDown => true
    case Destroy => s.shared.shutdown && AllExited(s.workers)
  }

  predicate AllExited(ws: seq<Worker>) {
    forall i :: 0 <= i < |ws| ==> ws[i].Exited?
  }

  function Next(s: State, e: Event): State
    requires Enabled(s, e)
  {
    match e
    case Submit(t, woken) =>
      var (shared, ok) := SubmitTo(s.shared, t);
      if ok then s.(shared := shared, accepted := s.accepted + [t], workers := WakeAll(s.workers, woken)) else s
    case SpuriousWake(i) => s.(workers := s.workers[i := Woken])
    case Look(i) =>
      var (shared, d) := Check(s.shared);
      (match d
       case Wait => s.(workers := s.workers[i := Waiting])
       case Exit => s.(workers := s.workers[i := Exited])
       case Take(t) => s.(shared := shared, workers := s.workers[i := Running(t)], taken := s.taken + [t]))
    case Finish(i) =>
      var t := s.workers[i].task;
      var s' := s.(executed := s.executed + [t]);
      if t.callback then s'.(workers := s.workers[i := Publishing(t)])
      else s'.(workers := s.workers[i := Checking], freed := s.freed + [t])
    case Publish(i) =>
      s.(shared := PublishTo(s.shared, s.workers[i].task), workers := s.workers[i := Checking])
    case Pick => s.(shared := PickFrom(s.shared).0, calling := s.calling + [s.shared.completions[0]])
    case Return(j) => s.(calling := s.calling[..j] + s.calling[j + 1..], called := s.called + [s.calling[j]])
    case ShutDown => s.(shared := s.shared.(shutdown := true), workers := WakeAll(s.workers, Sleepers(s.workers)))
    case Destroy => s.(shared := s.shared.(queue := [], completions := []),
      discarded := s.discarded + s.shared.completions)
  }

  /** The states of a run: `es` happen in turn, each when it is enabled. */
  predicate Allowed(s: State, es: seq<Event>)
    decreases es
  {
    es != [] ==> Enabled(s, es[0]) && Allowed(Next(s, es[0]), es[1..])
  }

  function After(s: State, es: seq<Event>): State
    requires Allowed(s, es)
    decreases es
  {
    if es == [] then s else After(Next(s, es[0]), es[1..])
  }

  // ----- counting workers -----

  function Sum(ws: seq<Worker>, f: Worker -> nat): nat {
    if ws == [] then 0 else f(ws[0]) + Sum(ws[1..], f)
  }

  function Waits(w: Worker): nat { if w.Waiting? then 1 else 0 }
  function Wakes(w: Worker): nat { if w.Woken? then 1 else 0 }

  lemma {:induction false} SumUpdate(ws: seq<Worker>, i: nat, w: Worker, f: Worker -> nat)
    requires i < |ws|
    ensures Sum(ws[i := w], f) == Sum(ws, f) - f(ws[i]) + f(w)
    decreases |ws|
  {
    if i == 0 {
      assert ws[i := w][1..] == ws[1..];
    } else {
      assert ws[i := w][1..] == ws[1..][i - 1 := w];
      SumUpdate(ws[1..], i - 1, w, f);
    }
  }

  lemma {:induction false} SumZero(ws: seq<Worker>, f: Worker -> nat)
    ensures Sum(ws, f) == 0 <==> forall i :: 0 <= i < |ws| ==> f(ws[i]) == 0
    decreases |ws|
  {
    if ws != [] {
      SumZero(ws[1..], f);
      assert forall i :: 0 < i < |ws| ==> ws[i] == ws[1..][i - 1];
    }
  }

  /** Waking does not lose workers; waking somebody raises the count. */
  lemma {:induction false} WakeCounts(ws: seq<Worker>, woken: set<nat>)
    requires forall i | i in woken :: i < |ws| && ws[i].Waiting?
    ensures Sum(WakeAll(ws, woken), Waits) <= Sum(ws, Waits)
    ensures Sum(WakeAll(ws, woken), Wakes) >= Sum(ws, Wakes) + if woken == {} then 0 else 1
    decreases |ws|
  {
    if ws != [] {
      var rest := set i | i in woken && i > 0 :: i - 1;
      assert WakeAll(ws, woken)[1..] == WakeAll(ws[1..], rest);
      WakeCounts(ws[1..], rest);
      if woken != {} && 0 !in woken {
        var i :| i in woken;
        assert i - 1 in rest;
      }
    }
  }

  // ----- tasks in the hands of workers -----

  function Held(ws: seq<Worker>, f: Worker -> multiset<Task>): multiset<Task> {
    if ws == [] then multiset{} else f(ws[0]) + Held(ws[1..], f)
  }

  function Runs(w: Worker): multiset<Task> { if w.Running? then multiset{w.task} else multiset{} }
  function Publishes(w: Worker): multiset<Task> { if w.Publishing? then multiset{w.task} else multiset{} }

  lemma {:induction false} HeldUpdate(ws: seq<Worker>, i: nat, w: Worker, f: Worker -> multiset<Task>)
    requires i < |ws|
    ensures f(ws[i]) <= Held(ws, f)
    ensures Held(ws[i := w], f) == Held(ws, f) - f(ws[i]) + f(w)
    decreases |ws|
  {
    if i == 0 {
      assert ws[i := w][1..] == ws[1..];
    } else {
      assert ws[i := w][1..] == ws[1..][i - 1 := w];
      HeldUpdate(ws[1..], i - 1, w, f);
    }
  }

  lemma {:induction false} HeldSame(ws: seq<Worker>, ws': seq<Worker>, f: Worker -> multiset<Task>)
    requires |ws| == |ws'| && forall i :: 0 <= i < |ws| ==> f(ws'[i]) == f(ws[i])
    ensures Held(ws', f) == Held(ws, f)
    decreases |ws|
  {
    if ws != [] {
      HeldSame(ws[1..], ws'[1..], f);
    }
  }

  // ----- invariants -----

  /** Queued work never coexists with a pool that is entirely asleep: while anybody waits,
      at least as many workers are on their way to the queue as tasks are in it. */
  predicate NoLostWakeup(s: State) {
    Sum(s.workers, Waits) > 0 ==> |s.shared.queue| <= Sum(s.workers, Wakes)
  }

  /** Nobody waits after the shutdown, and who has left has left an empty queue behind. */
  predicate Closing(s: State) {
    && (s.shared.shutdown ==> Sum(s.workers, Waits) == 0)
    && ((exists i :: 0 <= i < |s.workers| && s.workers[i].Exited?) ==> s.shared.shutdown && s.shared.queue == [])
  }

  /** Tasks leave the queue in the order in which they were accepted, and the counter counts the queue. */
  predicate Ordered(s: State) {
    s.accepted == s.taken + s.shared.queue && s.shared.pending == |s.shared.queue|
  }

  /** Tasks that have reached the completion queue, wherever they are now. */
  function Handed(s: State): multiset<Task> {
    multiset(s.shared.completions) + multiset(s.calling) + multiset(s.called) + multiset(s.discarded)
  }

  /** Every task is in exactly one place. */
  predicate Conserved(s: State) {
    && multiset(s.taken) == Held(s.workers, Runs) + multiset(s.executed)
    && multiset(s.executed) == Held(s.workers, Publishes) + multiset(s.freed) + Handed(s)
    && Unique(s.accepted)
  }

  predicate Unique(ts: seq<Task>) {
    forall i, j :: 0 <= i < j < |ts| ==> ts[i] != ts[j]
  }

  predicate Inv(s: State) {
    s.workers != [] && NoLostWakeup(s) && Closing(s) && Ordered(s) && Conserved(s)
  }

  lemma StartInv(requested: nat, processors: int)
    ensures Inv(Start(requested, processors))
  {
    var ws := Start(requested, processors).workers;
    SumZero(ws, Waits);
    Idle(ws);
  }

  lemma {:induction false} Idle(ws: seq<Worker>)
    requires forall i :: 0 <= i < |ws| ==> ws[i].Checking?
    ensures Held(ws, Runs) == multiset{} && Held(ws, Publishes) == multiset{}
    decreases |ws|
  {
    if ws != [] { Idle(ws[1..]); }
  }

  lemma NoneWaits(ws: seq<Worker>)
    ensures Sum(ws, Waits) == 0 <==> !exists i :: 0 <= i < |ws| && ws[i].Waiting?
  {
    SumZero(ws, Waits);
    assert forall i :: 0 <= i < |ws| ==> (Waits(ws[i]) == 0 <==> !ws[i].Waiting?);
  }

  lemma CountsUpdate(ws: seq<Worker>, i: nat, w: Worker)
    requires i < |ws|
    ensures Sum(ws[i := w], Waits) == Sum(ws, Waits) - Waits(ws[i]) + Waits(w)
    ensures Sum(ws[i := w], Wakes) == Sum(ws, Wakes) - Wakes(ws[i]) + Wakes(w)
  {
    SumUpdate(ws, i, w, Waits);
    SumUpdate(ws, i, w, Wakes);
  }

  /** The worker that takes the step, if it is a worker's step. */
  function Mover(s: State, e: Event): Option<nat>
    requires Enabled(s, e)
  {
    if e.Look? || e.Finish? || e.Publish? then Some(e.i) else None
  }

  lemma NextWakeup(s: State, e: Event)
    requires Inv(s) && Enabled(s, e)
    ensures NoLostWakeup(Next(s, e)) && s.workers != []
  {
    hide Conserved, Ordered, Sum, Held;
    var ws := s.workers;
    NoneWaits(ws);
    if Mover(s, e).Some? || e.SpuriousWake? {
      CountsUpdate(ws, e.i, Next(s, e).workers[e.i]);
    } else if e.Submit? {
      WakeCounts(ws, e.woken);
    } else if e.ShutDown? {
      NoneWaits(Next(s, e).workers);
    }
  }

  lemma NextClosing(s: State, e: Event)
    requires Inv(s) && Enabled(s, e)
    ensures Closing(Next(s, e))
  {
    hide Conserved, Ordered, Sum, Held, NoLostWakeup;
    NoneWaits(s.workers);
    NoneWaits(Next(s, e).workers);
  }

  lemma NextOrdered(s: State, e: Event)
    requires Inv(s) && Enabled(s, e)
    ensures Ordered(Next(s, e))
  {
    hide Conserved, NoLostWakeup, Sum, Held;
    if e.Look? && s.shared.queue != [] {
      assert s.shared.queue == [s.shared.queue[0]] + s.shared.queue[1..];
    } else if e.Destroy? {
      DestroyEmpty(s);
    }
  }

  /** When every worker has left, the queue is empty already. */
  lemma DestroyEmpty(s: State)
    requires Closing(s) && AllExited(s.workers) && s.workers != []
    ensures s.shared.queue == []
  {
    assert s.workers[0].Exited?;
  }

  lemma HeldMove(ws: seq<Worker>, i: nat, w: Worker)
    requires i < |ws|
    ensures Runs(ws[i]) <= Held(ws, Runs) && Held(ws[i := w], Runs) == Held(ws, Runs) - Runs(ws[i]) + Runs(w)
    ensures Publishes(ws[i]) <= Held(ws, Publishes)
    ensures Held(ws[i := w], Publishes) == Held(ws, Publishes) - Publishes(ws[i]) + Publishes(w)
  {
    HeldUpdate(ws, i, w, Runs);
    HeldUpdate(ws, i, w, Publishes);
  }

  lemma HeldWoken(ws: seq<Worker>, woken: set<nat>)
    ensures Held(WakeAll(ws, woken), Runs) == Held(ws, Runs)
      && Held(WakeAll(ws, woken), Publishes) == Held(ws, Publishes)
  {
    HeldSame(ws, WakeAll(ws, woken), Runs);
    HeldSame(ws, WakeAll(ws, woken), Publishes);
  }

  lemma First(ts: seq<Task>)
    requires ts != []
    ensures multiset(ts) == multiset{ts[0]} + multiset(ts[1..])
  {
    assert ts == [ts[0]] + ts[1..];
  }

  lemma Without(ts: seq<Task>, j: nat)
    requires j < |ts|
    ensures multiset(ts) == multiset(ts[..j] + ts[j + 1..]) + multiset{ts[j]}
  {
    assert ts == ts[..j] + [ts[j]] + ts[j + 1..];
  }

  lemma Snoc(ts: seq<Task>, t: Task)
    ensures multiset(ts + [t]) == multiset(ts) + multiset{t}
  {
  }

  lemma LookConserved(s: State, i: nat)
    requires Inv(s) && Enabled(s, Look(i))
    ensures Conserved(Next(s, Look(i)))
  {
    hide NoLostWakeup, Sum, Held, Unique, Closing, Ordered, Handed;
    HandedSame(s, Next(s, Look(i)));
    var w := Next(s, Look(i)).workers[i];
    var R, P := Held(s.workers, Runs), Held(s.workers, Publishes);
    HeldMove(s.workers, i, w);
    assert Held(s.workers[i := w], Publishes) == P;
    if w.Running? {
      Snoc(s.taken, w.task);
      assert Held(s.workers[i := w], Runs) == R + multiset{w.task};
    } else {
      assert Held(s.workers[i := w], Runs) == R;
    }
  }

  lemma HandedSame(s: State, s': State)
    requires s'.shared.completions == s.shared.completions && s'.calling == s.calling && s'.called == s.called
    requires s'.discarded == s.discarded
    ensures Handed(s') == Handed(s)
  {
  }

  lemma HandedMore(s: State, s': State, t: Task)
    requires s'.shared.completions == s.shared.completions + [t] && s'.calling == s.calling && s'.called == s.called
    requires s'.discarded == s.discarded
    ensures Handed(s') == Handed(s) + multiset{t}
  {
    Snoc(s.shared.completions, t);
    Joined(t, multiset(s.shared.completions), multiset(s.calling), multiset(s.called) + multiset(s.discarded));
    assert Handed(s) == multiset(s.shared.completions) + multiset(s.calling)
      + (multiset(s.called) + multiset(s.discarded));
    assert Handed(s') == multiset(s'.shared.completions) + multiset(s.calling)
      + (multiset(s.called) + multiset(s.discarded));
  }

  /** The main thread and the destructor only move tasks about. */
  lemma HandedMoved(s: State, e: Event)
    requires Enabled(s, e) && (e.Pick? || e.Return? || e.Destroy?)
    ensures Handed(Next(s, e)) == Handed(s)
  {
    if e.Pick? {
      First(s.shared.completions);
      Snoc(s.calling, s.shared.completions[0]);
    } else if e.Return? {
      Without(s.calling, e.j);
      Snoc(s.called, s.calling[e.j]);
    }
  }

  /** A task moves from one heap to another. */
  lemma Moved(t: Task, a: multiset<Task>, a': multiset<Task>, b: multiset<Task>, c: multiset<Task>)
    requires a == a' + multiset{t}
    ensures a + b + c == a' + (b + multiset{t}) + c && a + b + c == a' + b + (c + multiset{t})
    ensures a + b == a' + (b + multiset{t})
  {
  }

  /** A task joins the first or the second heap. */
  lemma Joined(t: Task, a: multiset<Task>, b: multiset<Task>, c: multiset<Task>)
    ensures a + b + c + multiset{t} == (a + multiset{t}) + b + c == a + (b + multiset{t}) + c
  {
  }

  lemma FinishConserved(s: State, i: nat)
    requires Inv(s) && Enabled(s, Finish(i))
    ensures Conserved(Next(s, Finish(i)))
  {
    hide NoLostWakeup, Sum, Held, Unique, Closing, Ordered, Handed, Runs, Publishes;
    var t, n := s.workers[i].task, Next(s, Finish(i));
    FinishMoves(s, i);
    Moved(t, Held(s.workers, Runs), Held(n.workers, Runs), multiset(s.executed), multiset{});
    Joined(t, Held(s.workers, Publishes), multiset(s.freed), Handed(s));
  }

  lemma FinishMoves(s: State, i: nat)
    requires Enabled(s, Finish(i))
    ensures var t, n := s.workers[i].task, Next(s, Finish(i));
            && Held(s.workers, Runs) == Held(n.workers, Runs) + multiset{t}
            && multiset(n.executed) == multiset(s.executed) + multiset{t}
            && Held(n.workers, Publishes) == Held(s.workers, Publishes)
              + (if t.callback then multiset{t} else multiset{})
            && multiset(n.freed) == multiset(s.freed) + (if t.callback then multiset{} else multiset{t})
            && Handed(n) == Handed(s) && n.taken == s.taken && n.accepted == s.accepted
  {
    hide Held, Handed;
    var t, n := s.workers[i].task, Next(s, Finish(i));
    HeldMove(s.workers, i, n.workers[i]);
    Snoc(s.executed, t);
    Snoc(s.freed, t);
    HandedSame(s, n);
  }

  lemma PublishConserved(s: State, i: nat)
    requires Inv(s) && Enabled(s, Publish(i))
    ensures Conserved(Next(s, Publish(i)))
  {
    hide NoLostWakeup, Sum, Held, Unique, Closing, Ordered, Handed, Runs, Publishes;
    var t, n := s.workers[i].task, Next(s, Publish(i));
    PublishMoves(s, i);
    Moved(t, Held(s.workers, Publishes), Held(n.workers, Publishes), multiset(s.freed), Handed(s));
  }

  lemma PublishMoves(s: State, i: nat)
    requires Enabled(s, Publish(i))
    ensures var t, n := s.workers[i].task, Next(s, Publish(i));
            && Held(s.workers, Publishes) == Held(n.workers, Publishes) + multiset{t}
            && Held(n.workers, Runs) == Held(s.workers, Runs) && Handed(n) == Handed(s) + multiset{t}
            && n.executed == s.executed && n.freed == s.freed && n.taken == s.taken && n.accepted == s.accepted
  {
    hide Held, Handed;
    var t, n := s.workers[i].task, Next(s, Publish(i));
    HeldMove(s.workers, i, Checking);
    HandedMore(s, n, t);
  }

  lemma SubmitConserved(s: State, e: Event)
    requires Inv(s) && Enabled(s, e) && e.Submit?
    ensures Conserved(Next(s, e))
  {
    hide NoLostWakeup, Sum, Held, Closing;
    HeldWoken(s.workers, e.woken);
  }

  lemma OtherConserved(s: State, e: Event)
    requires Inv(s) && Enabled(s, e) && !e.Submit? && Mover(s, e).None?
    ensures Conserved(Next(s, e))
  {
    hide NoLostWakeup, Sum, Held, Closing, Unique, Ordered, Handed;
    if e.SpuriousWake? {
      HeldMove(s.workers, e.i, Woken);
      assert Held(s.workers[e.i := Woken], Runs) == Held(s.workers, Runs);
      assert Held(s.workers[e.i := Woken], Publishes) == Held(s.workers, Publishes);
      HandedSame(s, Next(s, e));
    } else if e.ShutDown? {
      HeldWoken(s.workers, Sleepers(s.workers));
      HandedSame(s, Next(s, e));
    } else {
      HandedMoved(s, e);
    }
  }

  /** Every step keeps every invariant. */
  lemma NextInv(s: State, e: Event)
    requires Inv(s) && Enabled(s, e)
    ensures Inv(Next(s, e))
  {
    hide Inv, Next, Enabled;
    NextWakeup(s, e);
    NextClosing(s, e);
    NextOrdered(s, e);
    match e {
      case Submit(_, _) => SubmitConserved(s, e);
      case Look(i) => LookConserved(s, i);
      case Finish(i) => FinishConserved(s, i);
      case Publish(i) => PublishConserved(s, i);
      case _ => OtherConserved(s, e);
    }
    InvParts(s, e);
  }

  lemma InvParts(s: State, e: Event)
    requires Inv(s) && Enabled(s, e)
    ensures var n := Next(s, e);
            NoLostWakeup(n) && Closing(n) && Ordered(n) && Conserved(n) ==> Inv(n)
  {
    hide NoLostWakeup, Closing, Ordered, Conserved;
  }

  /** The invariants hold after every run, whatever the interleaving. */
  lemma {:induction false} RunInv(s: State, es: seq<Event>)
    requires Inv(s) && Allowed(s, es)
    ensures Inv(After(s, es))
    decreases es
  {
    hide Inv, Next, Enabled;
    if es != [] {
      NextInv(s, es[0]);
      RunInv(Next(s, es[0]), es[1..]);
    }
  }

  /** After every run from a fresh pool. */
  predicate Reachable(s: State, requested: nat, processors: int, es: seq<Event>) {
    Allowed(Start(requested, processors), es) && s == After(Start(requested, processors), es)
  }

  lemma ReachableInv(s: State, requested: nat, processors: int, es: seq<Event>)
    requires Reachable(s, requested, processors, es)
    ensures Inv(s)
  {
    hide Inv;
    StartInv(requested, processors);
    RunInv(Start(requested, processors), es);
  }

  lemma {:induction false} WorkersStay(s: State, es: seq<Event>)
    requires Allowed(s, es)
    ensures |After(s, es).workers| == |s.workers|
    decreases es
  {
    if es != [] { WorkersStay(Next(s, es[0]), es[1..]); }
  }

  /** Whatever happens, the pool has as many workers as were asked for; if none were, one for each
      processor, or four when their number is not known. */
  lemma WorkerCount(s: State, requested: nat, processors: int, es: seq<Event>)
    requires Reachable(s, requested, processors, es)
    ensures requested > 0 ==> |s.workers| == requested
    ensures requested == 0 && processors > 0 ==> |s.workers| == processors
    ensures requested == 0 && processors <= 0 ==> |s.workers| == 4
  {
    WorkersStay(Start(requested, processors), es);
  }

  // ----- what follows -----

  /** Queued work never coexists with a pool that is entirely asleep. */
  lemma NeverAllAsleep(s: State, requested: nat, processors: int, es: seq<Event>)
    requires Reachable(s, requested, processors, es) && s.shared.queue != []
    ensures exists i :: 0 <= i < |s.workers| && !s.workers[i].Waiting?
    ensures (exists i :: 0 <= i < |s.workers| && s.workers[i].Waiting?) ==>
              exists i :: 0 <= i < |s.workers| && s.workers[i].Woken?
  {
    hide Conserved, Ordered, Closing;
    ReachableInv(s, requested, processors, es);
    NoneWaits(s.workers);
    SumZero(s.workers, Wakes);
    if forall i :: 0 <= i < |s.workers| ==> Wakes(s.workers[i]) == 0 {
      assert !s.workers[0].Waiting?;
    } else {
      var i :| 0 <= i < |s.workers| && Wakes(s.workers[i]) != 0;
      assert s.workers[i].Woken?;
    }
  }

  lemma {:induction false} CountUnique(ts: seq<Task>, t: Task)
    requires Unique(ts)
    ensures multiset(ts)[t] <= 1
    decreases |ts|
  {
    if ts != [] {
      First(ts);
      CountUnique(ts[1..], t);
      if multiset(ts[1..])[t] > 0 {
        assert t in ts[1..];
        var k :| 0 <= k < |ts[1..]| && ts[1..][k] == t;
        assert ts[k + 1] == t;
      }
    }
  }

  /** No task runs twice; a callback fires at most once, and only after its task has run. */
  lemma ExactlyOnce(s: State, requested: nat, processors: int, es: seq<Event>, t: Task)
    requires Reachable(s, requested, processors, es)
    ensures multiset(s.executed)[t] <= multiset(s.accepted)[t] <= 1
    ensures multiset(s.calling)[t] + multiset(s.called)[t] <= multiset(s.executed)[t]
  {
    hide NoLostWakeup, Closing;
    ReachableInv(s, requested, processors, es);
    CountUnique(s.accepted, t);
    assert s.accepted == s.taken + s.shared.queue;
  }

  /** The task a worker publishes in a step, and the task the main thread starts to call back. */
  function PublishedBy(s: State, e: Event): seq<Task>
    requires Enabled(s, e)
  {
    if e.Publish? then [s.workers[e.i].task] else []
  }

  function CalledBy(s: State, e: Event): seq<Task>
    requires Enabled(s, e)
  {
    if e.Pick? then Next(s, e).calling[|s.calling|..] else []
  }

  /** The same for a run, in order. */
  function Published(s: State, es: seq<Event>): seq<Task>
    requires Allowed(s, es)
    decreases es
  {
    if es == [] then [] else PublishedBy(s, es[0]) + Published(Next(s, es[0]), es[1..])
  }

  function CalledBack(s: State, es: seq<Event>): seq<Task>
    requires Allowed(s, es)
    decreases es
  {
    if es == [] then [] else CalledBy(s, es[0]) + CalledBack(Next(s, es[0]), es[1..])
  }

  lemma StepInOrder(s: State, e: Event)
    requires Enabled(s, e) && !e.Destroy?
    ensures s.shared.completions + PublishedBy(s, e) == CalledBy(s, e) + Next(s, e).shared.completions
  {
    hide WakeAll, Sleepers, Signals, AllExited;
    if e.Pick? { assert Next(s, e).calling[|s.calling|..] == [s.shared.completions[0]]; }
  }

  lemma Regroup<T>(a: seq<T>, b: seq<T>, c: seq<T>, d: seq<T>, e: seq<T>, f: seq<T>, g: seq<T>)
    requires a + b == c + d && d + e == f + g
    ensures a + (b + e) == (c + f) + g
  {
    assert a + (b + e) == (a + b) + e == (c + d) + e == c + (d + e) == c + (f + g) == (c + f) + g;
  }

  /** Callbacks are called in the order in which the workers published their tasks, and what has
      not been called is still in the completion queue, in that order. */
  lemma {:induction false} CallbacksInOrder(s: State, es: seq<Event>)
    requires Allowed(s, es) && forall e :: e in es ==> !e.Destroy?
    ensures s.shared.completions + Published(s, es) == CalledBack(s, es) + After(s, es).shared.completions
    decreases es
  {
    hide Next, Enabled, PublishedBy, CalledBy;
    if es == [] {
      assert s.shared.completions + [] == [] + s.shared.completions;
    } else {
      var e, n := es[0], Next(s, es[0]);
      assert es == [e] + es[1..];
      StepInOrder(s, e);
      CallbacksInOrder(n, es[1..]);
      Regroup(s.shared.completions, PublishedBy(s, e), CalledBy(s, e), n.shared.completions, Published(n, es[1..]),
        CalledBack(n, es[1..]), After(s, es).shared.completions);
    }
  }

  /** When every worker has left, every accepted task has been executed, once, and the queue is empty. */
  lemma DrainedAtExit(s: State, requested: nat, processors: int, es: seq<Event>)
    requires Reachable(s, requested, processors, es) && AllExited(s.workers)
    ensures s.shared.shutdown && s.shared.queue == [] && s.shared.pending == 0
    ensures multiset(s.executed) == multiset(s.accepted)
    ensures multiset(s.accepted) == multiset(s.shared.completions) + multiset(s.calling) + multiset(s.called)
              + multiset(s.freed) + multiset(s.discarded)
  {
    hide NoLostWakeup;
    ReachableInv(s, requested, processors, es);
    DestroyEmpty(s);
    NobodyHolds(s.workers);
    assert s.taken + [] == s.taken;
  }

  lemma {:induction false} NobodyHolds(ws: seq<Worker>)
    requires AllExited(ws)
    ensures Held(ws, Runs) == multiset{} && Held(ws, Publishes) == multiset{}
    decreases |ws|
  {
    if ws != [] { NobodyHolds(ws[1..]); }
  }

  // ----- callbacks -----

  /** Tasks without a completion function are freed; those with one are not. */
  predicate Sorted(s: State) {
    && (forall t | t in s.freed :: !t.callback)
    && (forall t | t in s.shared.completions + s.calling + s.called + s.discarded :: t.callback)
    && (forall i :: 0 <= i < |s.workers| && s.workers[i].Publishing? ==> s.workers[i].task.callback)
  }

  lemma NextSorted(s: State, e: Event)
    requires Sorted(s) && Enabled(s, e)
    ensures Sorted(Next(s, e))
  {
  }

  lemma {:induction false} RunSorted(s: State, es: seq<Event>)
    requires Sorted(s) && Allowed(s, es)
    ensures Sorted(After(s, es))
    decreases es
  {
    hide Sorted, Next, Enabled;
    if es != [] {
      NextSorted(s, es[0]);
      RunSorted(Next(s, es[0]), es[1..]);
    }
  }

  /** Once every worker has left, a task with a callback has been called back, is being called
      back, still waits for the main thread, or was thrown away by the destructor; nothing
      else can have happened to it. */
  lemma CallbacksAccounted(s: State, requested: nat, processors: int, es: seq<Event>, t: Task)
    requires Reachable(s, requested, processors, es) && AllExited(s.workers) && t in s.accepted && t.callback
    ensures t in s.shared.completions || t in s.calling || t in s.called || t in s.discarded
  {
    hide Inv;
    DrainedAtExit(s, requested, processors, es);
    RunSorted(Start(requested, processors), es);
    assert multiset(s.accepted)[t] > 0;
    assert t !in s.freed;
  }

  // ----- shutting down -----

  function Rank(w: Worker): nat {
    match w
    case Running(_) => 3
    case Publishing(_) => 2
    case Exited => 0
    case _ => 1
  }

  /** Queued tasks, tasks in hand, and workers that have not left. */
  function Remaining(s: State): nat {
    4 * |s.shared.queue| + Sum(s.workers, Rank)
  }

  function WorkerSteps(s: State, es: seq<Event>): nat
    requires Allowed(s, es)
    decreases es
  {
    if es == [] then 0 else (if Mover(s, es[0]).Some? then 1 else 0) + WorkerSteps(Next(s, es[0]), es[1..])
  }

  lemma {:induction false} RankWoken(ws: seq<Worker>, woken: set<nat>)
    ensures Sum(WakeAll(ws, woken), Rank) == Sum(ws, Rank)
    decreases |ws|
  {
    if ws != [] {
      var rest := set i | i in woken && i > 0 :: i - 1;
      assert WakeAll(ws, woken)[1..] == WakeAll(ws[1..], rest);
      RankWoken(ws[1..], rest);
    }
  }

  /** After the shutdown every step of a worker gets closer to the end; no other step gets further from it. */
  lemma StepsDrain(s: State, e: Event)
    requires Inv(s) && Enabled(s, e) && s.shared.shutdown
    ensures Next(s, e).shared.shutdown
    ensures Remaining(Next(s, e)) <= Remaining(s) - if Mover(s, e).Some? then 1 else 0
  {
    hide NoLostWakeup, Conserved, Ordered, Sum, Held;
    NoneWaits(s.workers);
    if Mover(s, e).Some? || e.SpuriousWake? {
      SumUpdate(s.workers, e.i, Next(s, e).workers[e.i], Rank);
    } else if e.ShutDown? {
      RankWoken(s.workers, Sleepers(s.workers));
    }
  }

  /** So a pool that is shut down makes only boundedly many more worker steps, in any run. */
  lemma {:induction false} DrainBounded(s: State, es: seq<Event>)
    requires Inv(s) && s.shared.shutdown && Allowed(s, es)
    ensures WorkerSteps(s, es) + Remaining(After(s, es)) <= Remaining(s)
    decreases es
  {
    hide Inv, Next, Enabled, Remaining;
    if es != [] {
      StepsDrain(s, es[0]);
      NextInv(s, es[0]);
      DrainBounded(Next(s, es[0]), es[1..]);
    }
  }

  /** And as long as somebody has not left, some worker can take a step: after the shutdown
      every worker that has not left can. */
  lemma DrainProgress(s: State, i: nat)
    requires Inv(s) && s.shared.shutdown && i < |s.workers| && !s.workers[i].Exited?
    ensures Enabled(s, Look(i)) || Enabled(s, Finish(i)) || Enabled(s, Publish(i))
  {
    hide NoLostWakeup, Conserved, Ordered;
    NoneWaits(s.workers);
  }

  /** No submit is accepted after the shutdown, and the shutdown is for good. */
  lemma ClosedForGood(s: State, e: Event)
    requires s.shared.shutdown && Enabled(s, e)
    ensures Next(s, e).shared.shutdown && Next(s, e).accepted == s.accepted
  {
  }
}
