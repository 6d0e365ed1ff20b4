/** The stream buffer pool of the library: three linked lists over one set of heap nodes. Each method is what one
    call does while nothing interferes with it, proved against the function of the same section in QueueSpec. */
module StreamQueues {
  import opened Bytes
  import opened StreamMessage
  import opened QueueSpec
  import opened NodeLists

  ghost predicate Injective(all: set<Node>) {
    forall m, n :: m in all && n in all && m.addr == n.addr ==> m == n
  }

  /** The fields of all nodes, by address. */
  ghost function CellsOf(all: set<Node>): (cells: map<Addr, Cell>)
    reads all
    requires Injective(all)
    ensures cells.Keys == set n | n in all :: n.addr
    ensures forall n :: n in all ==> cells[n.addr] == n.Fields()
  {
    map n | n in all :: n.addr := n.Fields()
  }

  /** The cells before, when since then only the fields of `n` changed. */
  lemma CellsUpdate(all: set<Node>, n: Node, before: map<Addr, Cell>)
    requires Injective(all) && n in all && before.Keys == (set m | m in all :: m.addr)
    requires forall m :: m in all && m != n ==> m.Fields() == before[m.addr]
    ensures CellsOf(all) == before[n.addr := n.Fields()]
  {
  }

  lemma CellsSame(all: set<Node>, before: map<Addr, Cell>)
    requires Injective(all) && before.Keys == (set m | m in all :: m.addr)
    requires forall m :: m in all ==> m.Fields() == before[m.addr]
    ensures CellsOf(all) == before
  {
  }

  lemma ListApart(l: NodeList)
    requires l.Valid()
    ensures AddrsApart(l.nodes)
  {
  }

  /** Dropping the node at `k` drops its address. */
  lemma WithoutAddr(nodes: seq<Node>, k: nat)
    requires AddrsApart(nodes) && k < |nodes|
    ensures Addrs(nodes[..k] + nodes[k + 1..]) == Without(Addrs(nodes), nodes[k].addr)
  {
    var addrs := Addrs(nodes);
    WithoutAt(addrs, nodes[k].addr, k);
    assert Addrs(nodes[..k] + nodes[k + 1..]) == addrs[..k] + addrs[k + 1..];
  }

  /** The cells before, when since then only the node `n` was added. */
  lemma CellsGrow(all: set<Node>, n: Node, before: map<Addr, Cell>)
    requires Injective(all) && n in all && before.Keys == (set m | m in all - {n} :: m.addr)
    requires forall m :: m in all && m != n ==> m.Fields() == before[m.addr]
    ensures CellsOf(all) == before[n.addr := n.Fields()]
  {
  }

  lemma TailOfList(nodes: seq<Node>)
    requires AddrsApart(nodes) && NoDup(nodes) && nodes != []
    ensures AddrsApart(nodes[1..]) && NoDup(nodes[1..]) && nodes[0] !in nodes[1..]
  {
  }

  class StreamQueue {
    const pool: NodeList     // a stack
    const recv: NodeList     // a queue
    const release: NodeList  // a list, oldest first
    var stop: bool
    ghost var all: set<Node> // every allocated node, on a list or in a caller's hands

    ghost predicate Valid()
      reads this, pool, recv, release, all
      reads (set x | x in pool.nodes), (set x | x in recv.nodes), (set x | x in release.nodes)
    {
      && pool != recv && pool != release && recv != release
      && pool.Valid() && recv.Valid() && release.Valid()
      && Injective(all)
      && (forall n :: n in pool.nodes ==> n in all && n !in recv.nodes && n !in release.nodes)
      && (forall n :: n in recv.nodes ==> n in all && n !in release.nodes)
      && (forall n :: n in release.nodes ==> n in all)
    }

    /** A node that is on no list. */
    ghost predicate Loose(n: Node)
      reads this, pool, recv, release
    {
      n in all && n !in pool.nodes && n !in recv.nodes && n !in release.nodes
    }

    /** The queues as values. */
    ghost function Abs(): (q: Queues)
      reads this, pool, recv, release, all
      reads (set x | x in pool.nodes), (set x | x in recv.nodes), (set x | x in release.nodes)
      requires Valid()
      ensures forall a :: a in q.pool || a in q.recv || a in q.release ==> a in q.cells
    {
      ListedHaveCells();
      Queues(Addrs(pool.nodes), Addrs(recv.nodes), Addrs(release.nodes), CellsOf(all))
    }

    lemma ListedHaveCells()
      requires Valid()
      ensures forall a ::
                a in Addrs(pool.nodes) || a in Addrs(recv.nodes) || a in Addrs(release.nodes) ==> a in CellsOf(all)
    {
    }

    lemma HeadsTell()
      requires Valid()
      ensures pool.head == null <==> Abs().pool == []
      ensures recv.head == null <==> Abs().recv == []
      ensures release.head == null <==> Abs().release == []
    {
    }

    constructor ()
      ensures Valid() && all == {} && !stop && fresh(pool) && fresh(recv) && fresh(release)
      ensures Abs() == Queues([], [], [], map[])
    {
      var p := new NodeList();
      var q := new NodeList();
      var r := new NodeList();
      pool, recv, release := p, q, r;
      stop, all := false, {};
    }

    // ----- the leaf sections

    /** push_stream_pool */
    method PushPool(n: Node)
      requires Valid() && Loose(n)
      modifies pool, all
      ensures Valid() && all == old(all) && stop == old(stop)
      ensures Abs() == PoolPush(old(Abs()), n.addr)
    {
      hide NodeList.Valid, AddrsApart, CellsOf, Addrs;
      ghost var before := CellsOf(all);
      pool.NeighboursListed();
      pool.PushFront(n);
      CellsUpdate(all, n, before);
    }

    /** pop_stream_pool */
    method PopPool() returns (n: Node?)
      requires Valid()
      modifies pool, all
      ensures Valid() && all == old(all) && stop == old(stop)
      ensures n == null <==> old(Abs()).pool == []
      ensures n == null ==> Abs() == old(Abs())
      ensures n != null ==>
                Loose(n) && n.addr == old(Abs()).pool[0] && Abs() == QueueSpec.PoolPop(old(Abs()))
    {
      hide NodeList.Valid, AddrsApart, CellsOf;
      ghost var before := CellsOf(all);
      ghost var was := pool.nodes;
      n := pool.PopFront();
      assert was != [] ==> Addrs(was[1..]) == Addrs(was)[1..];
      CellsSame(all, before);
    }

    /** push_recv_queue */
    method PushRecv(n: Node)
      requires Valid() && Loose(n)
      modifies recv, all
      ensures Valid() && all == old(all) && stop == old(stop)
      ensures Abs() == RecvPush(old(Abs()), n.addr)
    {
      hide NodeList.Valid, AddrsApart, CellsOf;
      ghost var before := CellsOf(all);
      recv.PushBack(n);
      CellsSame(all, before);
    }

    /** pop_recv_queue */
    method PopRecv() returns (n: Node?)
      requires Valid()
      modifies recv, all
      ensures Valid() && all == old(all) && stop == old(stop)
      ensures n == null <==> old(Abs()).recv == []
      ensures n == null ==> Abs() == old(Abs())
      ensures n != null ==>
                Loose(n) && n.addr == old(Abs()).recv[0] && Abs() == QueueSpec.RecvPop(old(Abs()))
    {
      hide NodeList.Valid, AddrsApart, CellsOf;
      ghost var before := CellsOf(all);
      ghost var was := recv.nodes;
      n := recv.PopFront();
      assert was != [] ==> Addrs(was[1..]) == Addrs(was)[1..];
      CellsSame(all, before);
    }

    /** push_release_list */
    method PushRelease(n: Node)
      requires Valid() && Loose(n)
      modifies release, all
      ensures Valid() && all == old(all) && stop == old(stop)
      ensures Abs() == ReleasePush(old(Abs()), n.addr)
    {
      hide NodeList.Valid, AddrsApart, CellsOf;
      ghost var before := CellsOf(all);
      release.PushBack(n);
      CellsSame(all, before);
    }

    /** pop_release_list */
    method PopRelease() returns (n: Node?)
      requires Valid()
      modifies release, all
      ensures Valid() && all == old(all) && stop == old(stop)
      ensures n == null <==> old(Abs()).release == []
      ensures n == null ==> Abs() == old(Abs())
      ensures n != null ==>
                Loose(n) && n.addr == old(Abs()).release[0] && Abs() == QueueSpec.ReleasePop(old(Abs()))
    {
      hide NodeList.Valid, AddrsApart, CellsOf;
      ghost var before := CellsOf(all);
      ghost var was := release.nodes;
      n := release.PopFront();
      assert was != [] ==> Addrs(was[1..]) == Addrs(was)[1..];
      CellsSame(all, before);
    }

    /** remove_release_list of a member */
    method RemoveRelease(n: Node)
      requires Valid() && n in release.nodes
      modifies release, all
      ensures Valid() && all == old(all) && stop == old(stop)
      ensures Loose(n) && Abs() == ReleaseRemove(old(Abs()), n.addr)
    {
      hide NodeList.Valid, CellsOf, AddrsApart, NodeList.Unhooked, Addrs, NoDup, Without;
      ghost var before, k := CellsOf(all), 0;
      k :| 0 <= k < |release.nodes| && release.nodes[k] == n;
      ListApart(release);
      WithoutAddr(release.nodes, k);
      release.Remove(n, k, {});
      CellsSame(all, before);
    }

    // ----- the calls

    /** malloc and push_stream_pool of one node. */
    method AddNode(addr: Addr)
      requires Valid() && forall n :: n in all ==> n.addr != addr
      modifies this, pool, all
      ensures Valid() && stop == old(stop) && Abs() == PoolPush(old(Abs()), addr)
      ensures all > old(all) && fresh(all - old(all)) && forall n :: n in all - old(all) ==> n.addr == addr
    {
      hide NodeList.Valid, AddrsApart, CellsOf;
      ghost var before := CellsOf(all);
      var n := new Node(addr);
      all := all + {n};
      CellsGrow(all, n, before);
      PushPool(n);
    }

    /** initialize_stream_pool. `addrs` are the addresses that malloc returns, in order. */
    method Initialize(addrs: seq<Addr>) returns (ret: int)
      requires Valid() && NoDup(addrs) && forall n :: n in all ==> n.addr !in addrs
      modifies this, pool, all
      ensures Valid() && stop == old(stop)
      ensures ret == if old(Abs()).pool == [] && old(Abs()).recv == [] && old(Abs()).release == [] then 0 else -1
      ensures ret == -1 ==> all == old(all) && Abs() == old(Abs())
      ensures ret == 0 ==> Abs() == PushAll(old(Abs()), addrs)
    {
      hide Valid, Abs;
      HeadsTell();
      if pool.head != null || recv.head != null || release.head != null {
        return -1;
      }
      ghost var start := Abs();
      for i := 0 to |addrs|
        invariant Valid() && stop == old(stop) && fresh(all - old(all))
        invariant forall n :: n in all ==> n.addr !in addrs[i..]
        invariant Abs() == PushAll(start, addrs[..i])
      {
        AddNode(addrs[i]);
        assert addrs[..i + 1][..i] == addrs[..i];
      }
      assert addrs[..|addrs|] == addrs;
      ret := 0;
    }

    /** finalize_stream_pool; `freed` are the addresses given to free, in order. */
    method Finalize() returns (ret: int, freed: seq<Addr>)
      requires Valid()
      modifies this, pool, all
      ensures Valid() && stop == old(stop)
      ensures ret == if old(Abs()).recv == [] && old(Abs()).release == [] then 0 else -1
      ensures ret == -1 ==> freed == [] && Abs() == old(Abs())
      ensures ret == 0 ==> freed == old(Abs()).pool && Abs().pool == [] && Abs().recv == [] && Abs().release == []
    {
      hide Valid, Abs, Loose;
      HeadsTell();
      freed := [];
      if recv.head != null || release.head != null {
        return -1, [];
      }
      ghost var start := Abs();
      while true
        invariant Valid() && stop == old(stop) && all <= old(all)
        invariant freed + Abs().pool == start.pool && Abs().recv == [] && Abs().release == []
        decreases |Abs().pool|
      {
        var n := PopPool();
        if n == null {
          break;
        }
        freed := freed + [n.addr];
      }
      ret := 0;
    }

    /** enqueue_recv_command */
    method EnqueueRecv(m: Msg) returns (r: EnqueueResult)
      requires Valid()
      modifies pool, recv, all
      ensures Valid() && all == old(all) && stop == old(stop)
      ensures (Abs(), r) == QueueSpec.Enqueue(old(Abs()), stop, m)
      ensures r == Accepted ==>
                && old(Abs()).pool != [] && Abs().pool == old(Abs()).pool[1..]
                && var a := old(Abs()).pool[0];
                   && Abs().recv == old(Abs()).recv + [a] && a in Abs().cells
                   && m <= Abs().cells[a].command && Abs().cells[a].length == |m|
    {
      if |m| > COMMAND_MAX {
        return TooLong;
      }
      if stop {
        return Stopped;
      }
      var n := PopPool();
      if n == null {
        return PoolEmpty;
      }
      FillNode(n, m);
      PushRecv(n);
      r := Accepted;
    }

    /** The memcpy into the node, between the two list operations. */
    method FillNode(n: Node, m: Msg)
      requires Valid() && Loose(n) && |m| <= COMMAND_MAX
      modifies n
      ensures Valid() && Loose(n) && n.addr in old(Abs()).cells && Abs() == Fill(old(Abs()), n.addr, m)
    {
      hide NodeList.Valid, AddrsApart, CellsOf;
      ghost var before := CellsOf(all);
      n.command := Overlay(n.command, m);
      n.length := |m|;
      CellsUpdate(all, n, before);
    }

    /** store_release_command */
    method Store(n: Node)
      requires Valid() && Loose(n)
      modifies release, all
      ensures Valid() && all == old(all) && stop == old(stop)
      ensures n.addr in old(Abs()).cells && Abs() == QueueSpec.Store(old(Abs()), n.addr)
      ensures Abs().release == old(Abs()).release + [n.addr] && n.counter == 1
    {
      hide NodeList.Valid, AddrsApart, CellsOf;
      ghost var before := CellsOf(all);
      n.counter := 1;
      CellsUpdate(all, n, before);
      PushRelease(n);
    }

    /** check_release_counter */
    method CheckCounter(p: Addr) returns (ret: int, n: Node?)
      requires Valid()
      modifies all
      ensures Valid() && all == old(all) && stop == old(stop)
      ensures (Abs(), ret) == QueueSpec.CheckCounter(old(Abs()), p)
      ensures n != null <==> p in Abs().release
      ensures n != null ==> n in release.nodes && n.addr == p
    {
      hide NodeList.Valid, AddrsApart, CellsOf;
      ghost var before := CellsOf(all);
      ret := 0;
      n := release.Search(p);
      if n == null {
        ret := -1;
        return;
      }
      n.counter := n.counter - 1;
      if n.counter > 0 {
        ret := n.counter;
      }
      CellsUpdate(all, n, before);
    }

    /** set_release_count */
    method SetReleaseCount(p: Addr, count: int) returns (ret: int)
      requires Valid()
      modifies all
      ensures Valid() && all == old(all) && stop == old(stop)
      ensures (Abs(), ret) == QueueSpec.SetCount(old(Abs()), p, count)
      ensures ret == 0 <==> p in old(Abs()).release
      ensures ret == 0 ==> p in Abs().cells && Abs().cells[p].counter == count
    {
      hide NodeList.Valid, AddrsApart, CellsOf;
      ghost var before := CellsOf(all);
      var n := release.Search(p);
      if n == null {
        return -1;
      }
      n.counter := count;
      CellsUpdate(all, n, before);
      ret := 0;
    }

    lemma ListedAddr(n: Node)
      requires Valid() && n in release.nodes
      ensures n.addr in Abs().release && NoDup(Abs().release)
    {
      ghost var k :| 0 <= k < |release.nodes| && release.nodes[k] == n;
      assert Addrs(release.nodes)[k] == n.addr;
    }

    /** remove_release_command */
    method RemoveCommand(n: Node)
      requires Valid() && n in release.nodes
      modifies pool, release, all
      ensures Valid() && all == old(all) && stop == old(stop)
      ensures Abs() == Recycle(old(Abs()), n.addr)
      ensures Abs().pool == [n.addr] + old(Abs()).pool && n.addr !in Abs().release
      ensures Abs().cells == old(Abs()).cells[n.addr := ZERO_CELL]
    {
      ListedAddr(n);
      hide Valid, Abs, Loose, NoDup;
      RecycleEffect(Abs(), n.addr);
      RemoveRelease(n);
      PushPool(n);
    }

    /** remove_release_list of the head of the pool: the release list becomes the rest of the pool. */
    method RemoveReleaseAgain(n: Node)
      requires Valid() && pool.nodes != [] && pool.nodes[0] == n
      modifies release, all
      ensures release.Valid() && release.nodes == old(pool.nodes)[1..] && n !in release.nodes
      ensures forall p :: p in old(Abs()).release ==> p !in Addrs(release.nodes)
      ensures pool.head == n && pool.nodes == old(pool.nodes)
    {
      hide AddrsApart, CellsOf, Injective, NoDup, Valid;
      ghost var was, rest := pool.nodes, pool.nodes[1..];
      RestOfPool();
      TailOfList(was);
      release.Remove(n, -1, if rest == [] then {} else {rest[0]});
      assert forall i :: 0 <= i < |rest| ==> rest[i].next == old(rest[i].next);
      assert forall i :: 1 <= i < |rest| ==> rest[i].prev == old(rest[i].prev);
      release.nodes := rest;
    }

    /** remove_release_command once more, when the node has come back to the head of the pool. The release list becomes
        the rest of the pool, and the nodes that were on it are found no more; the pool becomes one node that is linked
        to itself. */
    method RemoveCommandAgain(n: Node)
      requires Valid() && pool.nodes != [] && pool.nodes[0] == n
      modifies pool, release, all
      ensures release.Valid() && release.nodes == old(pool.nodes)[1..]
      ensures forall p :: p in old(Abs()).release ==> p !in Addrs(release.nodes)
      ensures pool.head == n && n.next == n && n.prev == null && n.Fields() == ZERO_CELL
    {
      hide AddrsApart, CellsOf, Injective, NoDup;
      RestOfPool();
      RemoveReleaseAgain(n);
      hide Valid;
      pool.PushFront(n);
      assert forall x :: x in release.nodes ==> x in pool.nodes && x != n;
    }

    /** The pool behind its head is chained, and is apart from the release list. */
    lemma RestOfPool()
      requires Valid() && pool.nodes != []
      ensures var n, rest := pool.nodes[0], pool.nodes[1..];
              && n.prev == null && n.next == (if rest == [] then null else rest[0])
              && (rest != [] ==> rest[|rest| - 1].next == null)
              && (forall i :: 0 <= i < |rest| - 1 ==> rest[i].next == rest[i + 1])
              && (forall i :: 1 <= i < |rest| ==> rest[i].prev == rest[i - 1])
              && (forall i :: 0 <= i < |rest| ==> rest[i] != n && rest[i] !in release.nodes && rest[i] !in recv.nodes)
              && (forall i :: 1 <= i < |rest| ==> rest[i] != rest[0])
              && (forall p :: p in Abs().release ==> p !in Addrs(rest))
              && release.Valid() && AddrsApart(pool.nodes) && NoDup(pool.nodes)
              && pool.head == n && n !in release.nodes && n in all
              && (forall x :: x in pool.nodes || x in release.nodes ==> x in all)
    {
      var was, rest := pool.nodes, pool.nodes[1..];
      assert forall i :: 0 <= i < |rest| ==> rest[i] == was[i + 1];
      forall p | p in Addrs(release.nodes)
        ensures p !in Addrs(rest)
      {
        var i :| 0 <= i < |release.nodes| && Addrs(release.nodes)[i] == p;
        forall j | 0 <= j < |rest|
          ensures Addrs(rest)[j] != p
        {
          assert rest[j] in all && release.nodes[i] in release.nodes;
        }
      }
    }

    /** force_remove_release_command */
    method ForceRemove()
      requires Valid()
      modifies pool, release, all
      ensures Valid() && all == old(all) && stop == old(stop)
      ensures Abs() == RecycleAll(old(Abs()))
    {
      hide Valid, Abs, Loose;
      ghost var start := Abs();
      while true
        invariant Valid() && all == old(all) && stop == old(stop)
        invariant RecycleAll(Abs()) == RecycleAll(start)
        decreases |Abs().release|
      {
        var n := PopRelease();
        if n == null {
          break;
        }
        PushPool(n);
      }
    }
  }
}
