/** A singly linked queue with head and tail pointers, as the work queue, the completion
    queue and the request list are. */
module LinkedQueues {
  import opened Wrappers

  class Node<T> {
    const value: T
    var next: Node?<T>

    constructor (value: T)
      ensures this.value == value && next == null
    {
      this.value := value;
      next := null;
    }
  }

  function ValuesOf<T>(nodes: seq<Node<T>>): (r: seq<T>)
    ensures |r| == |nodes| && forall i :: 0 <= i < |nodes| ==> r[i] == nodes[i].value
  {
    seq(|nodes|, i requires 0 <= i < |nodes| => nodes[i].value)
  }

  class LinkedQueue<T> {
    var head: Node?<T>
    var tail: Node?<T>
    /** The nodes in list order. */
    ghost var nodes: seq<Node<T>>
    ghost var repr: set<object>

    /** Head and tail are the ends of a proper list; both are null when it is empty. */
    ghost predicate Valid()
      reads this, repr
    {
      && this in repr && (forall i :: 0 <= i < |nodes| ==> nodes[i] in repr)
      && (if nodes == [] then head == null && tail == null else head == nodes[0] && tail == nodes[|nodes| - 1])
      && (forall i, j :: 0 <= i < j < |nodes| ==> nodes[i] != nodes[j])
      && (forall i :: 0 <= i < |nodes| ==> nodes[i].next == Follower(i))
    }

    ghost function Follower(i: nat): Node?<T>
      reads this
    {
      if i + 1 < |nodes| then nodes[i + 1] else null
    }

    ghost function Contents(): (r: seq<T>)
      reads this
      ensures |r| == |nodes|
    {
      ValuesOf(nodes)
    }

    constructor ()
      ensures Valid() && Contents() == [] && fresh(repr)
    {
      head, tail, nodes, repr := null, null, [], {this};
    }

    method Enqueue(v: T)
      requires Valid()
      modifies repr
      ensures Valid() && Contents() == old(Contents()) + [v] && fresh(repr - old(repr))
    {
      var node := new Node(v);
      if tail != null {
        tail.next := node;
      } else {
        head := node;
      }
      tail := node;
      nodes, repr := nodes + [node], repr + {node};
    }

    method Dequeue() returns (r: Option<T>)
      requires Valid()
      modifies this
      ensures Valid() && repr == old(repr)
      ensures old(Contents()) == [] ==> r == None && Contents() == []
      ensures old(Contents()) != [] ==> r == Some(old(Contents())[0]) && Contents() == old(Contents())[1..]
    {
      if head == null { return None; }
      r := Some(head.value);
      ghost var i := 0;
      assert nodes[i].next == Follower(i);
      head := head.next;
      if head == null {
        tail := null;
      }
      nodes := nodes[1..];
      assert forall i :: 0 <= i < |nodes| ==> nodes[i] == old(nodes)[i + 1] && nodes[i].next == old(nodes)[i + 1].next;
    }

    /** Frees what is left. */
    method Drain() returns (freed: nat)
      requires Valid()
      modifies this
      ensures Valid() && Contents() == [] && repr == old(repr) && freed == |old(Contents())|
    {
      freed := 0;
      while head != null
        invariant Valid() && repr == old(repr) && freed + |nodes| == |old(nodes)|
        decreases |nodes|
      {
        var gone := Dequeue();
        freed := freed + 1;
      }
    }
  }
}
