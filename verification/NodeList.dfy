/** The doubly linked lists of the stream buffer pool, as pointers: heap nodes with `next` and `prev`. */
module NodeLists {
  import opened StreamMessage
  import opened QueueSpec

  /** A heap node. The address of its command buffer is what callers know it by. */
  class Node {
    const addr: Addr
    var command: Command
    var length: nat
    var counter: int
    var next: Node?
    var prev: Node?

    constructor (addr: Addr)
      ensures this.addr == addr && next == null && prev == null && Fields() == ZERO_CELL
    {
      this.addr := addr;
      command, length, counter := ZERO_CELL.command, ZERO_CELL.length, ZERO_CELL.counter;
      next, prev := null, null;
    }

    ghost function Fields(): Cell
      reads this
    {
      Cell(command, length, counter)
    }
  }

  /** No two nodes have the same address. */
  ghost predicate AddrsApart(nodes: seq<Node>) {
    forall i, j :: 0 <= i < j < |nodes| ==> nodes[i].addr != nodes[j].addr
  }

  lemma AddrsApartWithout(nodes: seq<Node>, k: nat)
    requires AddrsApart(nodes) && k < |nodes|
    ensures AddrsApart(nodes[..k] + nodes[k + 1..])
  {
  }

  ghost function Addrs(nodes: seq<Node>): (r: seq<Addr>)
    ensures |r| == |nodes| && forall i :: 0 <= i < |nodes| ==> r[i] == nodes[i].addr
  {
    seq(|nodes|, i requires 0 <= i < |nodes| => nodes[i].addr)
  }

  /** The fields of these nodes, other than their links, are as they were. */
  twostate predicate FieldsKept(nodes: set<Node>)
    reads nodes
  {
    forall n :: n in nodes ==> n.Fields() == old(n.Fields())
  }

  class NodeList {
    var head: Node?
    ghost var nodes: seq<Node>

    /** `next` and `prev` are inverse, the list is acyclic, and following `next` from the head visits `nodes`. */
    ghost predicate Valid()
      reads this, (set x | x in nodes)`next, (set x | x in nodes)`prev
    {
      && AddrsApart(nodes) && NoDup(nodes)
      && (head == null <==> nodes == [])
      && (nodes != [] ==> head == nodes[0])
      && Chained(nodes)
    }

    /** `next` and `prev` lead from each node to its neighbours, and nowhere at the ends. */
    static ghost predicate Chained(list: seq<Node>)
      reads (set x | x in list)`next, (set x | x in list)`prev
    {
      && (list != [] ==> list[0].prev == null && list[|list| - 1].next == null)
      && (forall i {:trigger list[i].next} :: 0 <= i < |list| - 1 ==> list[i].next == list[i + 1])
      && (forall i {:trigger list[i].prev} :: 1 <= i < |list| ==> list[i].prev == list[i - 1])
    }

    constructor ()
      ensures Valid() && nodes == []
    {
      head, nodes := null, [];
    }

    /** push_stream_pool: the node is zeroed and becomes the head. A node that is the head already is linked to
        itself. */
    method PushFront(n: Node)
      requires head != n ==> Valid() && n !in nodes && forall x :: x in nodes ==> x.addr != n.addr
      modifies this, nodes, n
      ensures head == n && n.Fields() == ZERO_CELL && n.prev == null
      ensures old(head) != n ==> Valid() && nodes == [n] + old(nodes)
      ensures old(head) == n ==> n.next == n && nodes == old(nodes)
      ensures old(head) == n ==> forall x :: x in nodes && x != n ==> x.next == old(x.next) && x.prev == old(x.prev)
      ensures FieldsKept(set x | x in old(nodes) && x != n)
    {
      var old_head := head;
      n.command, n.length, n.counter := ZERO_CELL.command, ZERO_CELL.length, ZERO_CELL.counter;
      n.next, n.prev := null, null;
      if old_head != null {
        old_head.prev := n;
      }
      n.next := old_head;
      n.prev := null;
      head := n;
      if old_head != n {
        nodes := [n] + nodes;
      }
    }

    /** pop_stream_pool, pop_recv_queue, pop_release_list: the head leaves the list, unlinked. */
    method PopFront() returns (n: Node?)
      requires Valid()
      modifies this, nodes
      ensures Valid()
      ensures n == null <==> old(nodes) == []
      ensures n == null ==> nodes == []
      ensures n != null ==> n == old(nodes)[0] && nodes == old(nodes)[1..] && n !in nodes
      ensures n != null ==> n.next == null && n.prev == null
      ensures FieldsKept(set x | x in old(nodes))
    {
      n := head;
      var next: Node? := null;
      if n != null {
        next := n.next;
        n.prev := null;
        n.next := null;
      }
      if next != null {
        next.prev := null;
      }
      head := next;
      if n != null {
        nodes := nodes[1..];
      }
    }

    /** push_recv_queue, push_release_list: walk to the last node and append. */
    method PushBack(n: Node)
      requires Valid() && n !in nodes && forall x :: x in nodes ==> x.addr != n.addr
      modifies this, nodes, n
      ensures Valid() && nodes == old(nodes) + [n]
      ensures FieldsKept((set x | x in old(nodes)) + {n})
    {
      var last: Node? := null;
      if head != null {
        var x: Node := head;
        ghost var i := 0;
        while x.next != null
          invariant 0 <= i < |nodes| && x == nodes[i]
          decreases |nodes| - i
        {
          x := x.next;
          i := i + 1;
        }
        x.next := n;
        last := x;
      } else {
        head := n;
      }
      n.next := null;
      n.prev := last;
      nodes := nodes + [n];
    }

    /** A node `n` that was not on this list has been unlinked from its neighbours; without one before it, the one
        behind it has become the head of this list. */
    twostate predicate Unhooked(n: Node?, next: Node?, prev: Node?)
      reads this, next, prev
    {
      && head == (if n == null || prev == null then next else old(head))
      && (next !in {null, n} ==> next.prev == prev && (next != prev ==> next.next == old(next.next)))
      && (prev !in {null, n} ==> prev.next == next && (next != prev ==> prev.prev == old(prev.prev)))
    }

    /** remove_release_list. A member leaves the list and the others keep their order; `k` is its place, or -1 for a
        node that is not on the list and has its neighbours in `around`. That one is unlinked from where it is, and
        without a node before it there, the node behind it becomes the head of this list. */
    method Remove(n: Node?, ghost k: int, ghost around: set<Node>)
      requires Valid()
      requires (0 <= k < |nodes| && nodes[k] == n) || (k == -1 && n !in nodes)
      requires k == -1 && n != null ==> n.next in around + {null} && n.prev in around + {null}
      modifies this, nodes, n, around
      ensures n != null ==> n.Fields() == old(n.Fields())
      ensures n != null && old(n.next) != n && old(n.prev) != n ==> n.next == null && n.prev == null
      ensures k >= 0 ==> n.next == null && n.prev == null
      ensures k >= 0 ==> Valid() && nodes == old(nodes)[..k] + old(nodes)[k + 1..] && n !in nodes
      ensures k == -1 ==>
                && nodes == old(nodes)
                && Unhooked(n, if n == null then null else old(n.next), if n == null then null else old(n.prev))
      ensures FieldsKept(set x | x in old(nodes))
    {
      hide AddrsApart;
      ghost var was := nodes;
      var next: Node?, prev: Node? := null, null;
      if n != null {
        next, prev := n.next, n.prev;
        n.prev := null;
        n.next := null;
      }
      if next != null {
        next.prev := prev;
      }
      if prev != null {
        prev.next := next;
      } else {
        head := next;
      }
      if k >= 0 {
        nodes := was[..k] + was[k + 1..];
        AddrsApartWithout(was, k);
        assert next == if k + 1 < |was| then was[k + 1] else null;
        assert prev == if k > 0 then was[k - 1] else null;
        Relinked(was, k);
      }
    }

    /** Once the neighbours of node `k` are linked to each other, the others are chained. */
    static lemma Relinked(was: seq<Node>, k: nat)
      requires NoDup(was) && k < |was|
      requires forall i {:trigger was[i].next} :: 0 <= i < |was| && i != k ==>
                 was[i].next == if i + 1 == k then (if k + 1 < |was| then was[k + 1] else null)
                                else if i + 1 < |was| then was[i + 1] else null
      requires forall i {:trigger was[i].prev} :: 0 <= i < |was| && i != k ==>
                 was[i].prev == if i == k + 1 then (if k > 0 then was[k - 1] else null)
                                else if i > 0 then was[i - 1] else null
      ensures Chained(was[..k] + was[k + 1..]) && NoDup(was[..k] + was[k + 1..])
    {
      var nodes := was[..k] + was[k + 1..];
      forall i | 0 <= i < |nodes|
        ensures nodes[i].next == if i + 1 < |nodes| then nodes[i + 1] else null
        ensures nodes[i].prev == if i > 0 then nodes[i - 1] else null
      {
        var x := if i < k then i else i + 1;
        assert nodes[i] == was[x];
        assert i + 1 < |nodes| ==> nodes[i + 1] == was[if i + 1 < k then i + 1 else i + 2];
        assert i > 0 ==> nodes[i - 1] == was[if i - 1 < k then i - 1 else i];
      }
    }

    /** The neighbours of a node on the list, and its head, are on the list. */
    lemma NeighboursListed()
      requires Valid()
      ensures head != null ==> head in nodes
      ensures forall n :: n in nodes && n.next != null ==> n.next in nodes
      ensures forall n :: n in nodes && n.prev != null ==> n.prev in nodes
    {
      forall n | n in nodes
        ensures (n.next != null ==> n.next in nodes) && (n.prev != null ==> n.prev in nodes)
      {
        var i :| 0 <= i < |nodes| && nodes[i] == n;
      }
    }

    /** search_release_list: the node whose command buffer is at this address, if it is on the list. */
    method Search(p: Addr) returns (n: Node?)
      requires Valid()
      ensures n != null ==> n in nodes && n.addr == p
      ensures n == null <==> p !in Addrs(nodes)
    {
      n := head;
      ghost var i := 0;
      while n != null
        invariant 0 <= i <= |nodes| && n == if i < |nodes| then nodes[i] else null
        invariant forall j :: 0 <= j < i ==> nodes[j].addr != p
        decreases |nodes| - i
      {
        if n.addr == p {
          assert p == Addrs(nodes)[i];
          return;
        }
        n := n.next;
        i := i + 1;
      }
    }
  }
}
