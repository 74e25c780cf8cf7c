/** Avatar handles on top of the pool: a worker writes the result, the main thread marks
    the handle completed, anybody may cancel it, and awaiting threads read it. */
module Handles {
  import opened Wrappers
  import opened Values
  import P = Pools

  /** `written`: the task function has stored its result; `cancelled` is a history. */
  datatype Handle = Handle(result: Value, written: bool, completed: bool, cancelled: bool)

  /** What an await returned, and whether the handle had been cancelled by then. */
  datatype Seen = Seen(id: nat, value: Value, cancelled: bool)

  datatype Runtime = Runtime(pool: P.State, handles: map<nat, Handle>, seen: seq<Seen>)

  /** `final` gives the result each task function computes. */
  datatype Event =
    | InPool(e: P.Event)
    | Write(i: nat)
    | Complete(j: nat)
    | Cancel(id: nat)
    | Await(id: nat)

  function Start(requested: nat, processors: int): Runtime {
    Runtime(P.Start(requested, processors), map[], [])
  }

  /** The task of handle `id`; every one has a completion function. */
  function TaskOf(id: nat): P.Task { P.Task(id, true) }

  predicate Enabled(r: Runtime, e: Event) {
    match e
    case InPool(p) =>
      && P.Enabled(r.pool, p)
      && (p.Submit? ==> p.t.callback && p.t.id !in r.handles)
      && (p.Finish? ==> var id := r.pool.workers[p.i].task.id; id in r.handles && r.handles[id].written)
      && (p.Return? ==> var id := r.pool.calling[p.j].id; id in r.handles && r.handles[id].completed)
    case Write(i) => i < |r.pool.workers| && r.pool.workers[i].Running? && r.pool.workers[i].task.id in r.handles
    case Complete(j) => j < |r.pool.calling| && r.pool.calling[j].id in r.handles
    case Cancel(id) => id in r.handles
    case Await(id) => id in r.handles && r.handles[id].completed
  }

  function Next(final: nat -> Value, r: Runtime, e: Event): Runtime
    requires Enabled(r, e)
  {
    match e
    case InPool(p) =>
      var pool := P.Next(r.pool, p);
      if p.Submit? && !r.pool.shared.shutdown
      then Runtime(pool, r.handles[p.t.id := Handle(Nil, false, false, false)], r.seen)
      else r.(pool := pool)
    case Write(i) =>
      var id := r.pool.workers[i].task.id;
      r.(handles := r.handles[id := r.handles[id].(result := final(id), written := true)])
    case Complete(j) =>
      var id := r.pool.calling[j].id;
      r.(handles := r.handles[id := r.handles[id].(completed := true)])
    case Cancel(id) => r.(handles := r.handles[id := r.handles[id].(completed := true, cancelled := true)])
    case Await(id) => r.(seen := r.seen + [Seen(id, r.handles[id].result, r.handles[id].cancelled)])
  }

  predicate Allowed(final: nat -> Value, r: Runtime, es: seq<Event>)
    decreases es
  {
    es != [] ==> Enabled(r, es[0]) && Allowed(final, Next(final, r, es[0]), es[1..])
  }

  function After(final: nat -> Value, r: Runtime, es: seq<Event>): Runtime
    requires Allowed(final, r, es)
    decreases es
  {
    if es == [] then r else After(final, Next(final, r, es[0]), es[1..])
  }

  // ----- invariants -----

  /** Handles and accepted tasks correspond. */
  predicate Matched(r: Runtime) {
    && (forall t | t in r.pool.accepted :: t.callback && t.id in r.handles)
    && (forall id | id in r.handles :: TaskOf(id) in r.pool.accepted)
  }

  /** A handle holds nil until its task has stored the final result. */
  predicate Stored(final: nat -> Value, r: Runtime) {
    forall id | id in r.handles :: r.handles[id].result == if r.handles[id].written then final(id) else Nil
  }

  /** A task function returns only after it has stored its result; a handle that was not
      cancelled is completed only after its task function has returned. */
  predicate InTime(r: Runtime) {
    && (forall t | t in r.pool.executed :: t.id in r.handles && r.handles[t.id].written)
    && (forall id | id in r.handles && r.handles[id].completed
      && !r.handles[id].cancelled :: TaskOf(id) in r.pool.executed)
  }

  predicate SeenFinal(final: nat -> Value, r: Runtime) {
    forall o | o in r.seen && !o.cancelled :: o.value == final(o.id)
  }

  predicate Inv(final: nat -> Value, r: Runtime) {
    P.Inv(r.pool) && Matched(r) && Stored(final, r) && InTime(r) && SeenFinal(final, r)
  }

  lemma StartInv(final: nat -> Value, requested: nat, processors: int)
    ensures Inv(final, Start(requested, processors))
  {
    hide P.Inv;
    P.StartInv(requested, processors);
  }

  /** Where the tasks of workers and of callbacks in progress come from. */
  lemma Origins(s: P.State)
    requires P.Inv(s)
    ensures forall t | t in s.calling :: t in s.executed && t in s.accepted
    ensures forall i :: 0 <= i < |s.workers| && s.workers[i].Running? ==> s.workers[i].task in s.accepted
  {
    hide P.NoLostWakeup, P.Closing, P.Unique;
    forall t | t in s.calling
      ensures t in s.executed && t in s.accepted
    {
      assert multiset(s.calling)[t] > 0;
      assert multiset(s.executed)[t] > 0;
      assert multiset(s.taken)[t] > 0;
    }
    forall i | 0 <= i < |s.workers| && s.workers[i].Running?
      ensures s.workers[i].task in s.accepted
    {
      P.HeldUpdate(s.workers, i, P.Checking, P.Runs);
      assert P.Runs(s.workers[i]) <= multiset(s.taken);
      assert multiset(s.taken)[s.workers[i].task] > 0;
    }
  }

  /** What a step of the pool adds to the tasks accepted and executed. */
  lemma PoolStep(s: P.State, e: P.Event)
    requires P.Enabled(s, e)
    ensures var n := P.Next(s, e);
            && n.accepted == s.accepted + (if e.Submit? && !s.shared.shutdown then [e.t] else [])
            && n.executed == s.executed + (if e.Finish? then [s.workers[e.i].task] else [])
  {
  }

  lemma PoolKeeps(final: nat -> Value, r: Runtime, e: Event)
    requires Inv(final, r) && Enabled(r, e) && e.InPool?
    ensures Inv(final, Next(final, r, e))
  {
    hide P.Inv, P.Next, P.Enabled;
    P.NextInv(r.pool, e.e);
    PoolStep(r.pool, e.e);
  }

  lemma HandleKeeps(final: nat -> Value, r: Runtime, e: Event)
    requires Inv(final, r) && Enabled(r, e) && !e.InPool?
    ensures Inv(final, Next(final, r, e))
  {
    hide P.Inv;
    Origins(r.pool);
    if e.Complete? {
      var t := r.pool.calling[e.j];
      assert t == TaskOf(t.id);
    }
  }

  /** The invariants hold after every run. */
  lemma {:induction false} RunInv(final: nat -> Value, r: Runtime, es: seq<Event>)
    requires Inv(final, r) && Allowed(final, r, es)
    ensures Inv(final, After(final, r, es))
    decreases es
  {
    hide Inv, Next, Enabled;
    if es != [] {
      if es[0].InPool? { PoolKeeps(final, r, es[0]); } else { HandleKeeps(final, r, es[0]); }
      RunInv(final, Next(final, r, es[0]), es[1..]);
    }
  }

  predicate Reachable(final: nat -> Value, r: Runtime, requested: nat, processors: int, es: seq<Event>) {
    Allowed(final, Start(requested, processors), es) && r == After(final, Start(requested, processors), es)
  }

  lemma ReachableInv(final: nat -> Value, r: Runtime, requested: nat, processors: int, es: seq<Event>)
    requires Reachable(final, r, requested, processors, es)
    ensures Inv(final, r)
  {
    hide Inv;
    StartInv(final, requested, processors);
    RunInv(final, Start(requested, processors), es);
  }

  // ----- what awaiting threads see -----

  /** Every await of a handle that was not cancelled returns the one final result. */
  lemma AwaitsFinal(final: nat -> Value, r: Runtime, requested: nat, processors: int, es: seq<Event>, o: Seen)
    requires Reachable(final, r, requested, processors, es) && o in r.seen && !o.cancelled
    ensures o.value == final(o.id)
  {
    ReachableInv(final, r, requested, processors, es);
  }

  /** A handle that was not cancelled is completed only when its task has run. */
  lemma CompletedAfterRun(final: nat -> Value, r: Runtime, requested: nat, processors: int, es: seq<Event>, id: nat)
    requires Reachable(final, r, requested, processors, es)
    requires id in r.handles && r.handles[id].completed && !r.handles[id].cancelled
    ensures TaskOf(id) in r.pool.executed && r.handles[id].result == final(id)
  {
    ReachableInv(final, r, requested, processors, es);
    assert r.handles[TaskOf(id).id].written;
  }

  /** In the run `es` from `r`, the worker that runs the task of `id` stores its result. */
  predicate StoresIn(final: nat -> Value, r: Runtime, es: seq<Event>, id: nat)
    requires Allowed(final, r, es)
    decreases es
  {
    es != [] &&
    ((es[0].Write? && r.pool.workers[es[0].i].task.id == id) || StoresIn(final, Next(final, r, es[0]), es[1..], id))
  }

  /** The histories of a handle are the schedule's. */
  lemma {:induction false} Histories(final: nat -> Value, r: Runtime, es: seq<Event>, id: nat)
    requires Allowed(final, r, es)
    ensures var r', h := After(final, r, es), id in r.handles;
            && (id in r'.handles && r'.handles[id].written <==>
                (h && r.handles[id].written) || StoresIn(final, r, es, id))
            && (id in r'.handles && r'.handles[id].cancelled <==> (h && r.handles[id].cancelled) || Cancel(id) in es)
    decreases es
  {
    hide P.Next, P.Enabled;
    if es != [] {
      assert es == [es[0]] + es[1..];
      Histories(final, Next(final, r, es[0]), es[1..], id);
    }
  }

  /** Exactly when an await reads something else than the final result: the handle has been
      cancelled, and the worker that runs its task has not stored a result yet. */
  lemma AwaitExact(final: nat -> Value, r: Runtime, requested: nat, processors: int, es: seq<Event>, id: nat)
    requires Reachable(final, r, requested, processors, es) && Enabled(r, Await(id))
    ensures var o := Next(final, r, Await(id)).seen[|r.seen|];
            o.value != final(id) <==>
              final(id) != Nil && Cancel(id) in es && !StoresIn(final, Start(requested, processors), es, id)
  {
    hide P.Inv;
    ReachableInv(final, r, requested, processors, es);
    Histories(final, Start(requested, processors), es, id);
    assert TaskOf(id).id == id;
  }

  /** Once completed, a handle stays completed; a stored result is never changed. */
  lemma {:induction false} CompletedForGood(final: nat -> Value, r: Runtime, es: seq<Event>, id: nat)
    requires Inv(final, r) && Allowed(final, r, es) && id in r.handles
    ensures var r' := After(final, r, es);
            && id in r'.handles
            && (r.handles[id].completed ==> r'.handles[id].completed)
            && (r.handles[id].written ==> r'.handles[id].written && r'.handles[id].result == r.handles[id].result)
    decreases es
  {
    hide P.Inv, P.Next, P.Enabled;
    if es != [] {
      var n := Next(final, r, es[0]);
      if es[0].InPool? { PoolKeeps(final, r, es[0]); } else { HandleKeeps(final, r, es[0]); }
      CompletedForGood(final, n, es[1..], id);
    }
  }

  /** A cancelled handle may be observed before its task has run: submit, cancel, await. */
  lemma CancelledTooEarly(final: nat -> Value, requested: nat, processors: int)
    requires final(0) != Nil
    ensures var es := [InPool(P.Submit(TaskOf(0), {})), Cancel(0), Await(0)];
            var s := Start(requested, processors);
            && Allowed(final, s, es)
            && After(final, s, es).seen == [Seen(0, Nil, true)]
  {
    var e0, e1, e2 := InPool(P.Submit(TaskOf(0), {})), Cancel(0), Await(0);
    var es := [e0, e1, e2];
    var s0 := Start(requested, processors);
    var s1 := Next(final, s0, e0);
    var s2 := Next(final, s1, e1);
    var s3 := Next(final, s2, e2);
    assert es[1..] == [e1, e2] && [e1, e2][1..] == [e2] && [e2][1..] == [];
    assert Allowed(final, s3, []) && After(final, s3, []) == s3;
    assert Allowed(final, s2, [e2]) && After(final, s2, [e2]) == s3;
    assert Allowed(final, s1, [e1, e2]) && After(final, s1, [e1, e2]) == s3;
  }
}
