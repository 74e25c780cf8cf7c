/** The asynchronous request queue: submitters, processors, transfers and waiters interleave;
    every critical section is one step. */
module Requests {

  datatype Kind = HttpPost | HttpGet | FileRead | FileWrite

  datatype Status = Pending | Processing | Completed | Failed

  /** Where a request is on its way: `Claimed` by a processor that has not dispatched it yet,
      `Transferring` in the HTTP client, `Working` on a file, `Stranded` because there was no
      client, or `Finished`. */
  datatype Stage = Queued | Claimed | Transferring | Working | Stranded | Finished

  /** `dispatched` counts how often the request was handed to the client or to the file system. */
  datatype Request = Request(id: int, kind: Kind, status: Status, stage: Stage, dispatched: nat)

  datatype Answer = Answer(id: int, ok: bool)

  datatype State = State(nextId: int, made: seq<Request>, list: seq<Request>, client: bool, answers: seq<Answer>)

  datatype Event =
    | Create(kind: Kind)
    | Enqueue(j: nat)
    | SetClient(set_: bool)
    | Claim(k: nat)
    | Dispatch(k: nat)
    | FileDone(k: nat, ok: bool)
    | HttpDone(k: nat, code: int)
    | Wait(k: nat)

  const START := State(1, [], [], false, [])

  predicate IsHttp(kind: Kind) { kind.HttpPost? || kind.HttpGet? }

  predicate Settled(s: Status) { s.Completed? || s.Failed? }

  predicate Enabled(s: State, e: Event) {
    match e
    case Create(_) => true
    case Enqueue(j) => j < |s.made|
    case SetClient(_) => true
    case Claim(k) => k < |s.list| && s.list[k].status.Pending?
    case Dispatch(k) => k < |s.list| && s.list[k].stage.Claimed?
    case FileDone(k, _) => k < |s.list| && s.list[k].stage.Working?
    case HttpDone(k, _) => k < |s.list| && s.list[k].stage.Transferring?
    case Wait(k) => k < |s.list| && Settled(s.list[k].status)
  }

  function Settle(s: State, k: nat, status: Status): State
    requires k < |s.list|
  {
    s.(list := s.list[k := s.list[k].(status := status, stage := Finished)])
  }

  function Next(s: State, e: Event): State
    requires Enabled(s, e)
  {
    match e
    case Create(kind) =>
      s.(nextId := s.nextId + 1, made := s.made + [Request(s.nextId, kind, Pending, Queued, 0)])
    case Enqueue(j) => s.(list := s.list + [s.made[j]], made := s.made[..j] + s.made[j + 1..])
    case SetClient(b) => s.(client := b)
    case Claim(k) => s.(list := s.list[k := s.list[k].(status := Processing, stage := Claimed)])
    case Dispatch(k) =>
      var r := s.list[k];
      var stage := if !IsHttp(r.kind) then Working else if s.client then Transferring else Stranded;
      s.(list := s.list[k := r.(stage := stage, dispatched := r.dispatched + if stage.Stranded? then 0 else 1)])
    case FileDone(k, ok) => Settle(s, k, if ok then Completed else Failed)
    case HttpDone(k, code) => Settle(s, k, if 200 <= code < 300 then Completed else Failed)
    case Wait(k) => s.(answers := s.answers + [Answer(s.list[k].id, s.list[k].status.Completed?)])
  }

  predicate Allowed(s: State, es: seq<Event>)
    decreases es
  {
    es != [] ==> Enabled(s, es[0]) && Allowed(Next(s, es[0]), es[1..])
  }

  function After(s: State, es: seq<Event>): State
    requires Allowed(s, es)
    decreases es
  {
    if es == [] then s else After(Next(s, es[0]), es[1..])
  }

  /** What a lookup by id finds: the first request of that id. */
  function Find(list: seq<Request>, id: int): (k: nat)
    ensures k <= |list| && (k < |list| ==> list[k].id == id)
    ensures forall j :: 0 <= j < k ==> list[j].id != id
  {
    if list == [] || list[0].id == id then 0 else 1 + Find(list[1..], id)
  }

  // ----- invariants -----

  function IdsOf(rs: seq<Request>): (ids: seq<int>)
    ensures |ids| == |rs| && forall i :: 0 <= i < |rs| ==> ids[i] == rs[i].id
  {
    seq(|rs|, i requires 0 <= i < |rs| => rs[i].id)
  }

  /** The ids given so far. */
  function Ids(s: State): seq<int> { IdsOf(s.made) + IdsOf(s.list) }

  /** Every id is given once. */
  predicate Numbered(s: State) {
    && (forall i :: 0 <= i < |Ids(s)| ==> 1 <= Ids(s)[i] < s.nextId)
    && Distinct(Ids(s))
  }

  predicate Distinct(ids: seq<int>) {
    forall i, j :: 0 <= i < j < |ids| ==> ids[i] != ids[j]
  }

  /** Stage, status and number of dispatches of a request agree. */
  predicate Consistent(r: Request) {
    match r.stage
    case Queued => r.status.Pending? && r.dispatched == 0
    case Claimed => r.status.Processing? && r.dispatched == 0
    case Transferring => r.status.Processing? && r.dispatched == 1 && IsHttp(r.kind)
    case Working => r.status.Processing? && r.dispatched == 1 && !IsHttp(r.kind)
    case Stranded => r.status.Processing? && r.dispatched == 0 && IsHttp(r.kind)
    case Finished => Settled(r.status) && r.dispatched == 1
  }

  predicate AllConsistent(s: State) {
    && (forall r | r in s.list :: Consistent(r))
    && (forall r | r in s.made :: Consistent(r) && r.stage.Queued?)
  }

  /** What waiters were told is still so. */
  predicate Answered(s: State) {
    forall a | a in s.answers ::
      exists k :: 0 <= k < |s.list| && s.list[k].id == a.id && s.list[k].status == if a.ok then Completed else Failed
  }

  predicate Inv(s: State) {
    s.nextId >= 1 && Numbered(s) && AllConsistent(s) && Answered(s)
  }

  lemma NextNumbered(s: State, e: Event)
    requires Inv(s) && Enabled(s, e)
    ensures Numbered(Next(s, e))
  {
    hide Consistent, Answered;
    if e.Enqueue? {
      EnqueueNumbered(s, e.j);
    } else if e.Create? {
      CreateNumbered(s, e.kind);
    } else {
      assert Ids(Next(s, e)) == Ids(s);
    }
  }

  lemma CreateNumbered(s: State, kind: Kind)
    requires Numbered(s)
    requires s.nextId >= 1
    ensures Numbered(Next(s, Create(kind)))
  {
    var ids, m := Ids(s), |s.made|;
    assert Ids(Next(s, Create(kind))) == ids[..m] + [s.nextId] + ids[m..];
    InsertDistinct(ids, m, s.nextId);
  }

  lemma InsertDistinct(ids: seq<int>, m: nat, id: int)
    requires m <= |ids| && Distinct(ids) && id >= 1 && forall i :: 0 <= i < |ids| ==> 1 <= ids[i] < id
    ensures Distinct(ids[..m] + [id] + ids[m..])
    ensures forall i :: 0 <= i <= |ids| ==> 1 <= (ids[..m] + [id] + ids[m..])[i] < id + 1
  {
    var r := ids[..m] + [id] + ids[m..];
    assert forall i :: 0 <= i < |r| ==> r[i] == if i < m then ids[i] else if i == m then id else ids[i - 1];
  }

  /** Moving a request from one list to the other keeps the ids distinct. */
  lemma EnqueueNumbered(s: State, j: nat)
    requires Numbered(s) && j < |s.made|
    ensures Numbered(Next(s, Enqueue(j)))
  {
    var ids, ids' := Ids(s), Ids(Next(s, Enqueue(j)));
    var last := |ids'| - 1;
    assert forall i :: 0 <= i < last ==> ids'[i] == ids[if i < j then i else i + 1];
    assert ids'[last] == ids[j];
  }

  lemma NextConsistent(s: State, e: Event)
    requires Inv(s) && Enabled(s, e)
    ensures AllConsistent(Next(s, e))
  {
    hide Numbered, Answered;
    var n := Next(s, e);
    assert e.Enqueue? ==> forall r | r in n.made :: r in s.made;
    assert forall r | r in n.list ::
        r in s.list || (e.Enqueue? && r == s.made[e.j]) || (!e.Enqueue? && r == n.list[e.k]);
    assert !e.Create? && !e.Enqueue? && !e.SetClient? ==> s.list[e.k] in s.list;
  }

  lemma NextAnswered(s: State, e: Event)
    requires Inv(s) && Enabled(s, e)
    ensures Answered(Next(s, e))
  {
    hide Numbered;
    var n := Next(s, e);
    forall a | a in n.answers
      ensures exists k :: 0 <= k < |n.list| && n.list[k].id == a.id && n.list[k].status == if a.ok then Completed
        else Failed
    {
      if a in s.answers {
        var k :| 0 <= k < |s.list| && s.list[k].id == a.id && s.list[k].status == if a.ok then Completed else Failed;
        assert Consistent(s.list[k]);
        assert n.list[k].id == a.id;
      } else {
        assert n.list[e.k].id == a.id;
      }
    }
  }

  /** Every step keeps every invariant. */
  lemma NextInv(s: State, e: Event)
    requires Inv(s) && Enabled(s, e)
    ensures Inv(Next(s, e))
  {
    NextNumbered(s, e);
    NextConsistent(s, e);
    NextAnswered(s, e);
  }

  lemma {:induction false} RunInv(s: State, es: seq<Event>)
    requires Inv(s) && Allowed(s, es)
    ensures Inv(After(s, es))
    decreases es
  {
    hide Inv, Next, Enabled;
    if es != [] {
      NextInv(s, es[0]);
      RunInv(Next(s, es[0]), es[1..]);
    }
  }

  predicate Reachable(s: State, es: seq<Event>) {
    Allowed(START, es) && s == After(START, es)
  }

  lemma ReachableInv(s: State, es: seq<Event>)
    requires Reachable(s, es)
    ensures Inv(s)
  {
    RunInv(START, es);
  }

  // ----- what follows -----

  /** Every id finds its own request, whatever has happened so far. */
  lemma FindsOwn(s: State, es: seq<Event>, k: nat)
    requires Reachable(s, es) && k < |s.list|
    ensures Find(s.list, s.list[k].id) == k
  {
    ReachableInv(s, es);
    var m, f := |s.made|, Find(s.list, s.list[k].id);
    assert Ids(s)[m + k] == s.list[k].id;
    assert Ids(s)[m + f] == s.list[f].id;
  }

  /** No request is dispatched twice. */
  lemma DispatchedOnce(s: State, es: seq<Event>, k: nat)
    requires Reachable(s, es) && k < |s.list|
    ensures s.list[k].dispatched <= 1
    ensures s.list[k].status.Pending? ==> s.list[k].dispatched == 0
    ensures Settled(s.list[k].status) ==> s.list[k].dispatched == 1
  {
    ReachableInv(s, es);
    assert Consistent(s.list[k]);
  }

  function Progress(s: Status): nat {
    match s case Pending => 0 case Processing => 1 case _ => 2
  }

  /** Statuses only move forward, and the last ones are final; requests keep their place. */
  lemma {:induction false} Forward(s: State, es: seq<Event>, k: nat)
    requires Inv(s) && Allowed(s, es) && k < |s.list|
    ensures var s' := After(s, es);
            && k < |s'.list| && s'.list[k].id == s.list[k].id && s'.list[k].kind == s.list[k].kind
            && Progress(s.list[k].status) <= Progress(s'.list[k].status)
            && (Settled(s.list[k].status) ==> s'.list[k].status == s.list[k].status)
            && (s.list[k].stage.Stranded? ==> s'.list[k].stage.Stranded?)
    decreases es
  {
    if es != [] {
      assert s.list[k] in s.list;
      NextInv(s, es[0]);
      Forward(Next(s, es[0]), es[1..], k);
    }
  }

  /** A wait that returned true was for a completed request, which still is completed. */
  lemma WaitTrue(s: State, es: seq<Event>, a: Answer)
    requires Reachable(s, es) && a in s.answers
    ensures var k := Find(s.list, a.id);
            k < |s.list| && s.list[k].status == if a.ok then Completed else Failed
  {
    ReachableInv(s, es);
    var k :| 0 <= k < |s.list| && s.list[k].id == a.id && s.list[k].status == if a.ok then Completed else Failed;
    FindsOwn(s, es, k);
  }

  /** A transfer for request `k` has ended with a status code of the 200s, or its file operation
      has succeeded. */
  predicate Succeeds(e: Event, k: nat) {
    || (e.HttpDone? && e.k == k && 200 <= e.code <= 299)
    || (e.FileDone? && e.k == k && e.ok)
  }

  /** The same has ended otherwise. */
  predicate FallsThrough(e: Event, k: nat) {
    || (e.HttpDone? && e.k == k && !(200 <= e.code <= 299))
    || (e.FileDone? && e.k == k && !e.ok)
  }

  predicate HasStatus(s: State, k: nat, status: Status) { k < |s.list| && s.list[k].status == status }

  /** One step settles a request as it was completed, and no other step touches a settled one. */
  lemma StepSettles(s: State, e: Event, k: nat)
    requires Inv(s) && Enabled(s, e)
    ensures HasStatus(Next(s, e), k, Completed) <==> HasStatus(s, k, Completed) || Succeeds(e, k)
    ensures HasStatus(Next(s, e), k, Failed) <==> HasStatus(s, k, Failed) || FallsThrough(e, k)
  {
    hide Numbered, Answered;
    if e.Enqueue? {
      assert s.made[e.j] in s.made;
    } else if !e.Create? && !e.SetClient? {
      assert s.list[e.k] in s.list;
    }
  }

  /** The settled requests are those the run has settled. */
  lemma {:induction false} RunSettles(s: State, es: seq<Event>, k: nat)
    requires Inv(s) && Allowed(s, es)
    ensures HasStatus(After(s, es), k, Completed) <==>
              HasStatus(s, k, Completed) || exists e :: e in es && Succeeds(e, k)
    ensures HasStatus(After(s, es), k, Failed) <==>
              HasStatus(s, k, Failed) || exists e :: e in es && FallsThrough(e, k)
    decreases es
  {
    hide Inv, Next, Enabled, HasStatus, Succeeds, FallsThrough;
    if es != [] {
      StepSettles(s, es[0], k);
      NextInv(s, es[0]);
      RunSettles(Next(s, es[0]), es[1..], k);
      assert es == [es[0]] + es[1..];
    }
  }

  /** What a waiter is told, from the schedule: true if and only if the transfer ended with a
      status code from 200 to 299 or the file operation succeeded, and false if and only if it
      ended in any other way. */
  lemma AnswerExact(s: State, es: seq<Event>, k: nat, a: Answer)
    requires Reachable(s, es) && k < |s.list| && a in s.answers && a.id == s.list[k].id
    ensures a.ok <==> exists e :: e in es && Succeeds(e, k)
    ensures !a.ok <==> exists e :: e in es && FallsThrough(e, k)
  {
    hide Succeeds, FallsThrough, Inv;
    WaitTrue(s, es, a);
    FindsOwn(s, es, k);
    RunSettles(START, es, k) by { StartInv(); }
  }

  lemma StartInv()
    ensures Inv(START)
  {
  }

  /** Exactly when dispatching a request can lead to an answer: it is for a file, or there is a client. */
  lemma DispatchExact(s: State, es: seq<Event>, k: nat)
    requires Reachable(s, es) && Enabled(s, Dispatch(k))
    ensures var n := Next(s, Dispatch(k));
            (!IsHttp(s.list[k].kind) || s.client) <==> exists e :: Finishes(n, k, e)
  {
    ReachableInv(s, es);
    assert Consistent(s.list[k]);
    var n := Next(s, Dispatch(k));
    if !IsHttp(s.list[k].kind) {
      assert Finishes(n, k, FileDone(k, true));
    } else if s.client {
      assert Finishes(n, k, HttpDone(k, 200));
    }
  }

  /** The step `e` settles request `k`. */
  predicate Finishes(s: State, k: nat, e: Event) {
    k < |s.list| && !Settled(s.list[k].status) && Enabled(s, e) && Settled(Next(s, e).list[k].status)
  }

  /** A request stranded for want of a client is never settled, so nobody waiting for it is ever answered. */
  lemma StrandedForever(s: State, es: seq<Event>, k: nat)
    requires Inv(s) && Allowed(s, es) && k < |s.list| && s.list[k].stage.Stranded?
    ensures k < |After(s, es).list|
    ensures !Settled(After(s, es).list[k].status) && !Enabled(After(s, es), Wait(k))
  {
    RunInv(s, es);
    Forward(s, es, k);
    assert Consistent(After(s, es).list[k]);
  }

  const STRANDING := [Create(HttpGet), Enqueue(0), Claim(0), Dispatch(0)]

  lemma StrandingRuns()
    ensures Allowed(START, STRANDING)
    ensures var s := After(START, STRANDING);
            |s.list| == 1 && s.list[0].stage.Stranded?
  {
    var e0, e1, e2, e3 := Create(HttpGet), Enqueue(0), Claim(0), Dispatch(0);
    var s1 := Next(START, e0);
    var s2 := Next(s1, e1);
    var s3 := Next(s2, e2);
    var s4 := Next(s3, e3);
    assert STRANDING[1..] == [e1, e2, e3] && [e1, e2, e3][1..] == [e2, e3] && [e2, e3][1..] == [e3] && [e3][1..] == [];
    assert Allowed(s4, []) && After(s4, []) == s4;
    assert Allowed(s3, [e3]) && After(s3, [e3]) == s4;
    assert Allowed(s2, [e2, e3]) && After(s2, [e2, e3]) == s4;
    assert Allowed(s1, [e1, e2, e3]) && After(s1, [e1, e2, e3]) == s4;
  }

  /** Such requests exist: with no client set, create, enqueue, claim and dispatch strand a
      request, and whatever happens afterwards a wait for it is never answered. */
  lemma StrandedRun()
    ensures Allowed(START, STRANDING) && |After(START, STRANDING).list| == 1
    ensures forall more | Allowed(After(START, STRANDING), more) ::
              !Enabled(After(After(START, STRANDING), more), Wait(0))
  {
    StrandingRuns();
    hide *;
    var s := After(START, STRANDING);
    ReachableInv(s, STRANDING) by { StrandingReached(); }
    forall more | Allowed(s, more) ensures !Enabled(After(s, more), Wait(0)) {
      StrandedForever(s, more, 0);
    }
  }

  lemma StrandingReached()
    requires Allowed(START, STRANDING)
    ensures Reachable(After(START, STRANDING), STRANDING)
  {
    hide Allowed, After;
  }
}
