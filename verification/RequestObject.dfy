/** The request queue's data structure and the loops that walk it. */
module RequestObjects {
  import W = Wrappers
  import opened LinkedQueues
  import opened Requests

  class Req {
    const id: int
    const kind: Kind
    var status: Status

    constructor (id: int, kind: Kind)
      ensures this.id == id && this.kind == kind && status == Pending
    {
      this.id, this.kind, status := id, kind, Pending;
    }

    function View(): Entry
      reads this
    {
      Entry(id, kind, status)
    }

    /** The callback of a transfer: the step of the system, wherever the request stands there. */
    method HttpDone(code: int)
      modifies this`status
      ensures forall s: State, k: nat | k < |s.list| && s.list[k].stage.Transferring?
        && ViewOf(s.list[k]) == old(View()) ::
                View() == ViewOf(Next(s, Event.HttpDone(k, code)).list[k])
    {
      status := if 200 <= code < 300 then Completed else Failed;
    }
  }

  /** What can be seen of a request. */
  datatype Entry = Entry(id: int, kind: Kind, status: Status)

  /** One request looked at by a processor, and whether it counts as processed: a pending HTTP
      request is handed to the client if there is one and stays in processing; a file request
      is settled at once, `io` saying how.  */
  function Treat(e: Entry, client: bool, io: int -> bool): (Entry, bool) {
    if !e.status.Pending? then (e, false)
    else if IsHttp(e.kind) then (e.(status := Processing), client)
    else (e.(status := if io(e.id) then Completed else Failed), true)
  }

  /** A pass over the list that stops when `max` requests have been processed. */
  function Sweep(es: seq<Entry>, max: int, client: bool, io: int -> bool): (r: (seq<Entry>, int))
    ensures |r.0| == |es|
    decreases es
  {
    if es == [] || max <= 0 then (es, 0)
    else
      var (e, counts) := Treat(es[0], client, io);
      var (rest, n) := Sweep(es[1..], if counts then max - 1 else max, client, io);
      ([e] + rest, if counts then n + 1 else n)
  }

  /** How many of the requests would count as processed. */
  function Countable(es: seq<Entry>, client: bool): nat {
    if es == [] then 0
    else (if es[0].status.Pending? && (client || !IsHttp(es[0].kind)) then 1 else 0) + Countable(es[1..], client)
  }

  /** A pass treats exactly the requests before which fewer than `max` have counted. */
  lemma {:induction false} SweepAt(es: seq<Entry>, max: int, client: bool, io: int -> bool, i: nat)
    requires i < |es|
    ensures Sweep(es, max, client, io).0[i]
              == if Countable(es[..i], client) < max then Treat(es[i], client, io).0 else es[i]
    decreases es
  {
    if max > 0 && i > 0 {
      var counts := Treat(es[0], client, io).1;
      SweepAt(es[1..], if counts then max - 1 else max, client, io, i - 1);
      assert es[..i][1..] == es[1..][..i - 1];
    }
  }

  /** It reports as many as counted, and never more than `max`. */
  lemma {:induction false} SweepCount(es: seq<Entry>, max: int, client: bool, io: int -> bool)
    ensures var n := Countable(es, client);
            Sweep(es, max, client, io).1 == if max <= 0 then 0 else if n < max then n else max
    decreases es
  {
    if es != [] && max > 0 {
      SweepCount(es[1..], if Treat(es[0], client, io).1 then max - 1 else max, client, io);
    }
  }

  function ViewOf(r: Request): Entry { Entry(r.id, r.kind, r.status) }

  /** What the processing loop does to a pending request is a claim, a dispatch and, for a file,
      its completion; it counts exactly the requests it dispatches. */
  lemma TreatIsSteps(s: State, k: nat, io: int -> bool)
    requires k < |s.list| && s.list[k].status.Pending?
    ensures var r := s.list[k];
            var es := [Claim(k), Dispatch(k)] + if IsHttp(r.kind) then [] else [FileDone(k, io(r.id))];
            && Allowed(s, es)
            && var s' := After(s, es);
            && |s'.list| == |s.list| && s' == s.(list := s.list[k := s'.list[k]])
            && (ViewOf(s'.list[k]), s'.list[k].dispatched > r.dispatched) == Treat(ViewOf(r), s.client, io)
  {
    var r := s.list[k];
    var done := if IsHttp(r.kind) then [] else [FileDone(k, io(r.id))];
    var es := [Claim(k), Dispatch(k)] + done;
    var s1 := Next(s, Claim(k));
    var s2 := Next(s1, Dispatch(k));
    var rest := es[1..];
    assert rest == [Dispatch(k)] + done && rest[0] == Dispatch(k) && rest[1..] == done;
    assert Enabled(s, es[0]) && Enabled(s1, rest[0]);
    if !IsHttp(r.kind) {
      assert done[1..] == [];
      assert Enabled(s2, done[0]);
      assert Allowed(s2, done) && After(s2, done) == Next(s2, done[0]);
    } else {
      assert Allowed(s2, done) && After(s2, done) == s2;
    }
    assert Allowed(s1, rest) && After(s1, rest) == After(s2, done);
  }

  class AsyncRequestQueue {
    const list: LinkedQueue<Req>
    var nextId: int

    ghost predicate Valid()
      reads this, list, list.repr
    {
      && list.Valid() && this !in list.repr
      && (forall i, j :: 0 <= i < j < |list.nodes| ==> list.nodes[i].value != list.nodes[j].value)
      && (forall i :: 0 <= i < |list.nodes| ==> list.nodes[i].value !in list.repr)
    }

    ghost function Requests(): seq<Req>
      reads list
    {
      list.Contents()
    }

    ghost function Entries(): (r: seq<Entry>)
      reads list, Requests()
      ensures |r| == |Requests()|
    {
      EntriesOf(Requests())
    }

    constructor ()
      ensures Valid() && Requests() == [] && nextId == 1 && fresh(list.repr)
    {
      list := new LinkedQueue<Req>();
      nextId := 1;
    }

    /** Takes the next id; the request is not in the list yet. */
    method CreateRequest(kind: Kind) returns (r: Req)
      requires Valid()
      modifies this
      ensures Valid() && fresh(r) && r.id == old(nextId) && r.kind == kind && r.status == Pending
        && nextId == old(nextId) + 1
    {
      r := new Req(nextId, kind);
      nextId := nextId + 1;
    }

    method EnqueueRequest(r: Req)
      requires Valid() && r !in Requests() && r !in list.repr
      modifies list.repr
      ensures Valid() && Requests() == old(Requests()) + [r]
    {
      list.Enqueue(r);
    }

    /** The first request of that id. */
    method Lookup(id: int) returns (r: Req?)
      requires Valid()
      ensures r == null <==> forall q | q in Requests() :: q.id != id
      ensures r != null ==> exists k :: 0 <= k < |Requests()| && Requests()[k] == r && IsFirst(Requests(), id, k)
    {
      var node := list.head;
      ghost var i := 0;
      while node != null
        invariant i <= |list.nodes| && node == if i < |list.nodes| then list.nodes[i] else null
        invariant forall j :: 0 <= j < i ==> Requests()[j].id != id
        decreases |list.nodes| - i
      {
        if node.value.id == id {
          assert IsFirst(Requests(), id, i);
          return node.value;
        }
        assert list.nodes[i].next == list.Follower(i);
        node := node.next;
        i := i + 1;
      }
      r := null;
    }

    /** An unknown id reads as an error. */
    method GetStatus(id: int) returns (s: Status)
      requires Valid()
      ensures (forall q | q in Requests() :: q.id != id) ==> s == Failed
      ensures forall k :: 0 <= k < |Requests()| && IsFirst(Requests(), id, k) ==> s == Requests()[k].status
    {
      var r := Lookup(id);
      s := if r == null then Failed else r.status;
    }

    /** What a waiter does each time it holds the lock: go on waiting, or answer.  There is no
        request to wait for behind an unknown id. */
    method TryWait(id: int) returns (answer: W.Option<bool>)
      requires Valid()
      ensures (forall q | q in Requests() :: q.id != id) ==> answer == W.Some(false)
      ensures forall k :: 0 <= k < |Requests()| && IsFirst(Requests(), id, k) ==>
                var s := Requests()[k].status;
                answer == if Settled(s) then W.Some(s.Completed?) else W.None
    {
      var r := Lookup(id);
      if r == null { return W.Some(false); }
      if r.status.Pending? || r.status.Processing? { return W.None; }
      return W.Some(r.status.Completed?);
    }

    /** What a processor does with one request, the one after those already treated. */
    method Advance(r: Req, client: bool, io: int -> bool, ghost rs: seq<Req>, ghost treated: seq<Entry>,
                   ghost before: seq<Entry>)
      returns (counts: bool)
      requires Mixed(rs, treated, before) && |treated| < |rs| && rs[|treated|] == r
      requires forall i, j :: 0 <= i < j < |rs| ==> rs[i] != rs[j]
      modifies r
      ensures (r.View(), counts) == Treat(old(r.View()), client, io) && old(r.View()) == before[|treated|]
      ensures Mixed(rs, treated + [r.View()], before)
    {
      counts := false;
      if r.status.Pending? {
        r.status := Processing;
        if IsHttp(r.kind) {
          counts := client;
        } else {
          r.status := if io(r.id) then Completed else Failed;
          counts := true;
        }
      }
    }

    /** The processing loop, when nobody else touches the requests meanwhile. */
    method Process(max: int, client: bool, io: int -> bool) returns (processed: int)
      requires Valid()
      modifies Requests()
      ensures Valid() && Requests() == old(Requests())
      ensures (Entries(), processed) == Sweep(old(Entries()), max, client, io)
    {
      hide Treat, ValuesOf, EntriesOf, Sweep, PartWay, Mixed;
      processed := 0;
      var node := list.head;
      ghost var i, before := 0, Entries();
      ghost var treated: seq<Entry> := [];
      PartWayStart(before, max, client, io);
      MixedStart(Requests());
      while node != null && processed < max
        invariant i == |treated| <= |list.nodes| && node == if i < |list.nodes| then list.nodes[i] else null
        invariant Valid() && Requests() == old(Requests())
        invariant Mixed(Requests(), treated, before)
        invariant PartWay(before, max, client, io, treated, processed)
        decreases |list.nodes| - i
      {
        assert Requests()[i] == node.value;
        PartWayStep(before, max, client, io, treated, processed);
        var counts := Advance(node.value, client, io, Requests(), treated, before);
        treated := treated + [node.value.View()];
        if counts { processed := processed + 1; }
        assert list.nodes[i].next == list.Follower(i);
        node := node.next;
        i := i + 1;
      }
      PartWayEnd(before, max, client, io, treated, processed);
      MixedEnd(Requests(), treated, before);
    }
  }

  /** The first requests have been treated, the others are as before. */
  ghost predicate Mixed(rs: seq<Req>, treated: seq<Entry>, before: seq<Entry>)
    reads rs
  {
    && |treated| <= |rs| == |before|
    && forall j :: 0 <= j < |rs| ==> rs[j].View() == if j < |treated| then treated[j] else before[j]
  }

  lemma MixedStart(rs: seq<Req>)
    ensures Mixed(rs, [], EntriesOf(rs))
  {
  }

  lemma MixedEnd(rs: seq<Req>, treated: seq<Entry>, before: seq<Entry>)
    requires Mixed(rs, treated, before)
    ensures EntriesOf(rs) == treated + before[|treated|..]
  {
    hide EntriesOf;
  }

  /** A pass that has treated the first requests, and what it still has to do. */
  ghost predicate PartWay(es: seq<Entry>, max: int, client: bool, io: int -> bool, treated: seq<Entry>,
                          processed: int) {
    && |treated| <= |es|
    && var rest := Sweep(es[|treated|..], max - processed, client, io);
    && Sweep(es, max, client, io) == (treated + rest.0, processed + rest.1)
  }

  lemma PartWayStart(es: seq<Entry>, max: int, client: bool, io: int -> bool)
    ensures PartWay(es, max, client, io, [], 0)
  {
    assert es[0..] == es;
    var s := Sweep(es, max, client, io);
    assert [] + s.0 == s.0;
  }

  lemma PartWayStep(es: seq<Entry>, max: int, client: bool, io: int -> bool, treated: seq<Entry>, processed: int)
    requires PartWay(es, max, client, io, treated, processed) && |treated| < |es| && processed < max
    ensures var (e, counts) := Treat(es[|treated|], client, io);
            PartWay(es, max, client, io, treated + [e], if counts then processed + 1 else processed)
  {
    hide Treat;
    var i := |treated|;
    var e := Treat(es[i], client, io).0;
    assert es[i..][0] == es[i] && es[i..][1..] == es[i + 1..];
    var rest := Sweep(es[i..], max - processed, client, io);
    assert treated + ([e] + rest.0[1..]) == treated + [e] + rest.0[1..];
  }

  lemma PartWayEnd(es: seq<Entry>, max: int, client: bool, io: int -> bool, treated: seq<Entry>, processed: int)
    requires PartWay(es, max, client, io, treated, processed) && (|treated| == |es| || processed >= max)
    ensures Sweep(es, max, client, io) == (treated + es[|treated|..], processed)
  {
  }

  ghost function EntriesOf(rs: seq<Req>): (r: seq<Entry>)
    reads rs
    ensures |r| == |rs| && forall i :: 0 <= i < |rs| ==> r[i] == rs[i].View()
  {
    if rs == [] then [] else [rs[0].View()] + EntriesOf(rs[1..])
  }

  ghost predicate IsFirst(rs: seq<Req>, id: int, k: nat) {
    k < |rs| && rs[k].id == id && forall j :: 0 <= j < k ==> rs[j].id != id
  }
}
