/** Avatar handles and the runtime that lists them: the fields the critical sections change. */
module HandleObjects {
  import opened Wrappers
  import opened Values
  import LinkedQueues
  import opened PoolObjects
  import P = Pools
  import H = Handles

  class AvatarHandle {
    const id: nat
    var result: Value
    var completed: bool
    var next: AvatarHandle?
    ghost var written: bool
    ghost var cancelled: bool

    constructor (id: nat)
      ensures this.id == id && View() == H.Handle(Nil, false, false, false)
    {
      this.id, result, completed, next := id, Nil, false, null;
      written, cancelled := false, false;
    }

    ghost function View(): H.Handle
      reads this
    {
      H.Handle(result, written, completed, cancelled)
    }

    /** The last thing a task function does. */
    method Store(v: Value)
      modifies this`result, this`written
      ensures View() == old(View()).(result := v, written := true)
    {
      result := v;
      written := true;
    }

    method Complete()
      modifies this`completed
      ensures View() == old(View()).(completed := true)
    {
      completed := true;
    }

    method Cancel()
      modifies this`completed, this`cancelled
      ensures View() == old(View()).(completed := true, cancelled := true)
    {
      completed := true;
      cancelled := true;
    }

    /** What a waiting thread does each time it holds the lock.  It reads the result exactly when
        the await step of the system is enabled, and the result is what that step records. */
    method Await(ghost final: nat -> Value, ghost r: H.Runtime) returns (seen: Option<Value>)
      requires id in r.handles && r.handles[id] == View()
      ensures seen.Some? <==> H.Enabled(r, H.Await(id))
      ensures seen.Some? ==> H.Next(final, r, H.Await(id)).seen == r.seen + [H.Seen(id, seen.value, cancelled)]
    {
      seen := if completed then Some(result) else None;
    }
  }

  /** The handles but the one at `k`. */
  ghost function Without(hs: seq<AvatarHandle>, k: nat): (r: seq<AvatarHandle>)
    requires k < |hs|
    ensures |r| == |hs| - 1 && forall i :: 0 <= i < |r| ==> r[i] == hs[if i < k then i else i + 1]
  {
    hs[..k] + hs[k + 1..]
  }

  lemma WithoutFirst(h: AvatarHandle, hs: seq<AvatarHandle>)
    ensures Without([h] + hs, 0) == hs
  {
  }

  class AvatarRuntime {
    const pool: ThreadPool
    var handles: AvatarHandle?
    var pendingCount: int
    /** The handles in list order. */
    ghost var list: seq<AvatarHandle>

    ghost predicate Linked()
      reads this, list
    {
      && (if list == [] then handles == null else handles == list[0])
      && (forall i, j :: 0 <= i < j < |list| ==> list[i] != list[j])
      && (forall i :: 0 <= i < |list| ==> list[i].next == Follower(i))
    }

    ghost function Follower(i: nat): AvatarHandle?
      reads this
    {
      if i + 1 < |list| then list[i + 1] else null
    }

    ghost predicate Valid()
      reads this, list, pool, pool.work, pool.work.repr, pool.done, pool.done.repr
    {
      && Linked() && pool.Valid()
      && this !in pool.work.repr && this !in pool.done.repr
      && (forall i :: 0 <= i < |list| ==> list[i] !in pool.work.repr && list[i] !in pool.done.repr)
    }

    constructor ()
      ensures Valid() && list == [] && pendingCount == 0 && pool.View() == P.Shared([], [], 0, false)
      ensures fresh(pool) && fresh(pool.work.repr) && fresh(pool.done.repr)
    {
      pool := new ThreadPool();
      handles, pendingCount, list := null, 0, [];
    }

    /** Puts a handle in front of the list. */
    method Link(h: AvatarHandle)
      requires Linked() && h !in list
      modifies this, h`next
      ensures Linked() && list == [h] + old(list) && pendingCount == old(pendingCount) + 1 && unchanged(old(list))
    {
      h.next := handles;
      handles := h;
      pendingCount := pendingCount + 1;
      list := [h] + list;
    }

    /** Takes a handle out again, wherever it is by then. */
    method Unlink(h: AvatarHandle, ghost k: nat)
      requires Linked() && k < |list| && list[k] == h
      modifies this, (if k > 0 then {list[k - 1]} else {})`next
      ensures Linked() && list == Without(old(list), k) && pendingCount == old(pendingCount) - 1
    {
      hide Without;
      if handles == h {
        handles := h.next;
      } else {
        var prev := handles;
        ghost var i := 0;
        while prev != null && prev.next != h
          invariant i < k && prev == list[i]
          decreases k - i
        {
          assert prev.next == Follower(i);
          prev := prev.next;
          i := i + 1;
        }
        assert list[k - 1].next == Follower(k - 1);
        assert prev == list[k - 1];
        prev.next := h.next;
      }
      list := Without(list, k);
      pendingCount := pendingCount - 1;
    }

    /** A new handle in the list and its task in the pool; nothing at all after the shutdown. */
    method Submit(id: nat) returns (r: AvatarHandle?)
      requires Valid()
      modifies this, pool, pool.work.repr
      ensures Valid()
      ensures pool.View() == P.SubmitTo(old(pool.View()), H.TaskOf(id)).0
      ensures r != null <==> P.SubmitTo(old(pool.View()), H.TaskOf(id)).1
      ensures r != null ==>
                && fresh(r) && r.id == id && r.View() == H.Handle(Nil, false, false, false)
                && list == [r] + old(list) && pendingCount == old(pendingCount) + 1
      ensures r == null ==> list == old(list) && pendingCount == old(pendingCount)
    {
      hide LinkedQueues.ValuesOf, P.SubmitTo, ThreadPool.Valid, ThreadPool.View, Without, H.TaskOf;
      ghost var before, listed := pool.View(), list;
      var h := new AvatarHandle(id);
      Link(h);
      assert pool.View() == before;
      var ok := pool.Submit(H.TaskOf(id));
      assert Linked();
      ghost var after := pool.View();
      assert (after, ok) == P.SubmitTo(before, H.TaskOf(id)) && old(pool.View()) == before;
      if !ok {
        Unlink(h, 0);
        WithoutFirst(h, listed);
        assert pool.View() == after;
        return null;
      }
      r := h;
    }
  }
}
