/** The pool's data structure: two linked queues, a counter and the shutdown flag, and the
    critical sections that change them. */
module PoolObjects {
  import opened Wrappers
  import opened LinkedQueues
  import opened Pools

  class ThreadPool {
    const work: LinkedQueue<Task>
    const done: LinkedQueue<Task>
    var pending: int
    var shutdown: bool

    ghost predicate Valid()
      reads this, work, work.repr, done, done.repr
    {
      work.Valid() && done.Valid() && work.repr !! done.repr && this !in work.repr + done.repr
    }

    ghost function View(): Shared
      reads this, work, done
    {
      Shared(work.Contents(), done.Contents(), pending, shutdown)
    }

    constructor ()
      ensures Valid() && View() == Shared([], [], 0, false)
      ensures fresh(work.repr) && fresh(done.repr)
    {
      work := new LinkedQueue<Task>();
      done := new LinkedQueue<Task>();
      pending, shutdown := 0, false;
    }

    method Submit(t: Task) returns (ok: bool)
      requires Valid()
      modifies this, work.repr
      ensures Valid() && (View(), ok) == SubmitTo(old(View()), t)
      ensures fresh(work.repr - old(work.repr)) && done.repr == old(done.repr)
    {
      hide ValuesOf;
      if shutdown { return false; }
      work.Enqueue(t);
      pending := pending + 1;
      ok := true;
    }

    /** What a worker does when it holds the lock. */
    method Look() returns (d: Decision)
      requires Valid()
      modifies this, work
      ensures Valid() && (View(), d) == Check(old(View()))
    {
      hide ValuesOf;
      if !shutdown && work.head == null { return Wait; }
      if shutdown && work.head == null { return Exit; }
      var task := work.Dequeue();
      pending := pending - 1;
      d := Take(task.value);
    }

    method Publish(t: Task)
      requires Valid()
      modifies done.repr
      ensures Valid() && View() == PublishTo(old(View()), t)
    {
      done.Enqueue(t);
    }

    method Pick() returns (t: Option<Task>)
      requires Valid()
      modifies done
      ensures Valid() && (View(), t) == PickFrom(old(View()))
    {
      t := done.Dequeue();
    }

    /** Takes completions in order until there are none, or `max` if that is not 0. */
    method ProcessCompletions(max: int) returns (called: seq<Task>)
      requires Valid()
      modifies done
      ensures Valid()
      ensures var before := old(View()).completions;
              && before == called + View().completions
              && |called| == if max == 0 then |before| else if max < 0 then 0 else if max < |before| then max
                else |before|
    {
      hide ValuesOf, Valid, View;
      called := [];
      while max == 0 || |called| < max
        invariant Valid() && old(View()).completions == called + View().completions
        invariant max < 0 ==> called == []
        invariant max > 0 ==> |called| <= max
        decreases |View().completions|
      {
        var t := Pick();
        if t.None? { return; }
        called := called + [t.value];
      }
    }

    /** What is left when all workers have been joined. */
    method Destroy() returns (tasks: nat, completions: nat)
      requires Valid()
      modifies work, done
      ensures Valid() && View() == old(View()).(queue := [], completions := [])
      ensures tasks == |old(View()).queue| && completions == |old(View()).completions|
    {
      tasks := work.Drain();
      completions := done.Drain();
    }
  }
}
