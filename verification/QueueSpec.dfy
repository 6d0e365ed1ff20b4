/** What the critical sections of the stream buffer pool do, on values: the free pool (a stack), the receive
    queue and the release list are sequences of node addresses, and every node has a cell with its fields. */
module QueueSpec {
  import opened Bytes
  import opened StreamMessage

  const STREAM_QUEUE_SIZE: nat := 128

  /** A node is named by the address of its command buffer, which is what callers pass around. */
  type Addr = nat

  datatype Cell = Cell(command: Command, length: nat, counter: int)

  const ZERO_CELL: Cell := Cell(Zeros(COMMAND_MAX), 0, 0)

  datatype Queues = Queues(pool: seq<Addr>, recv: seq<Addr>, release: seq<Addr>, cells: map<Addr, Cell>)

  predicate NoDup<T(==)>(s: seq<T>) {
    forall i, j :: 0 <= i < j < |s| ==> s[i] != s[j]
  }

  /** `s` without its first occurrence of `x`; the other elements keep their order. */
  function Without<T(==)>(s: seq<T>, x: T): seq<T> {
    if s == [] then [] else if s[0] == x then s[1..] else [s[0]] + Without(s[1..], x)
  }

  lemma {:induction false} WithoutAt<T>(s: seq<T>, x: T, k: nat)
    requires NoDup(s) && k < |s| && s[k] == x
    ensures Without(s, x) == s[..k] + s[k + 1..]
  {
    if k == 0 {
    } else {
      WithoutAt(s[1..], x, k - 1);
      assert s[..k] == [s[0]] + s[1..][..k - 1];
    }
  }

  /** Removing a member of a duplicate-free list removes it and nothing else. */
  lemma WithoutMember<T>(s: seq<T>, x: T)
    requires NoDup(s) && x in s
    ensures var r := Without(s, x); NoDup(r) && |r| == |s| - 1 && forall y :: y in r <==> y in s && y != x
  {
    var k :| 0 <= k < |s| && s[k] == x;
    WithoutAt(s, x, k);
    var r := Without(s, x);
    forall y
      ensures y in r <==> y in s && y != x
    {
      if y in s && y != x {
        var j :| 0 <= j < |s| && s[j] == y;
        assert r[if j < k then j else j - 1] == y;
      }
    }
  }

  lemma {:induction false} WithoutOthers<T>(s: seq<T>, x: T)
    ensures forall y :: y in s && y != x ==> y in Without(s, x)
  {
    if s != [] {
      WithoutOthers(s[1..], x);
      assert s == [s[0]] + s[1..];
    }
  }

  // The leaf critical sections: one per list mutex.

  function PoolPush(q: Queues, a: Addr): Queues {
    q.(pool := [a] + q.pool, cells := q.cells[a := ZERO_CELL])
  }

  function PoolPop(q: Queues): Queues
    requires q.pool != []
  {
    q.(pool := q.pool[1..])
  }

  function RecvPush(q: Queues, a: Addr): Queues {
    q.(recv := q.recv + [a])
  }

  function RecvPop(q: Queues): Queues
    requires q.recv != []
  {
    q.(recv := q.recv[1..])
  }

  function ReleasePush(q: Queues, a: Addr): Queues {
    q.(release := q.release + [a])
  }

  function ReleasePop(q: Queues): Queues
    requires q.release != []
  {
    q.(release := q.release[1..])
  }

  function ReleaseRemove(q: Queues, a: Addr): Queues {
    q.(release := Without(q.release, a))
  }

  // Writes to a node's fields between two leaf sections.

  function Fill(q: Queues, a: Addr, m: Msg): Queues
    requires a in q.cells && |m| <= COMMAND_MAX
  {
    q.(cells := q.cells[a := q.cells[a].(command := Overlay(q.cells[a].command, m), length := |m|)])
  }

  function SetCounter(q: Queues, a: Addr, n: int): Queues
    requires a in q.cells
  {
    q.(cells := q.cells[a := q.cells[a].(counter := n)])
  }

  function Translate(q: Queues, a: Addr, conv: Translation): Queues
    requires a in q.cells
  {
    q.(cells := q.cells[a := q.cells[a].(command := Converted(conv, q.cells[a].command))])
  }

  /** Fresh nodes pushed onto the pool one after another. */
  function PushAll(q: Queues, addrs: seq<Addr>): (r: Queues)
    ensures |r.pool| == |q.pool| + |addrs| && r.recv == q.recv && r.release == q.release
  {
    if addrs == [] then q else PoolPush(PushAll(q, addrs[..|addrs| - 1]), addrs[|addrs| - 1])
  }

  // The outer sections run alone: what a call does when nothing interferes with it.

  datatype EnqueueResult = Accepted | Stopped | TooLong | PoolEmpty

  function Enqueue(q: Queues, stop: bool, m: Msg): (r: (Queues, EnqueueResult))
    requires forall a :: a in q.pool ==> a in q.cells
  {
    if |m| > COMMAND_MAX then (q, TooLong)
    else if stop then (q, Stopped)
    else if q.pool == [] then (q, PoolEmpty)
    else (RecvPush(Fill(PoolPop(q), q.pool[0], m), q.pool[0]), Accepted)
  }

  function Store(q: Queues, a: Addr): Queues
    requires a in q.cells
  {
    ReleasePush(SetCounter(q, a, 1), a)
  }

  /** The result is the return value: -1 when the address is not on the release list, else the count left, or 0. */
  function CheckCounter(q: Queues, p: Addr): (r: (Queues, int))
    requires forall a :: a in q.release ==> a in q.cells
  {
    if p !in q.release then (q, -1)
    else
      var c := q.cells[p].counter - 1;
      (SetCounter(q, p, c), if c > 0 then c else 0)
  }

  function Recycle(q: Queues, p: Addr): Queues {
    PoolPush(ReleaseRemove(q, p), p)
  }

  function {:tailrecursion false} RecycleAll(q: Queues): (r: Queues)
    decreases |q.release|
  {
    if q.release == [] then q else RecycleAll(PoolPush(ReleasePop(q), q.release[0]))
  }

  function SetCount(q: Queues, p: Addr, n: int): (r: (Queues, int))
    requires forall a :: a in q.release ==> a in q.cells
  {
    if p in q.release then (SetCounter(q, p, n), 0) else (q, -1)
  }

  /** From `q` to `q'` nothing changes but the cell of `p`. */
  predicate OnlyCell(q: Queues, q': Queues, p: Addr) {
    && q'.pool == q.pool && q'.recv == q.recv && q'.release == q.release && q'.cells.Keys == q.cells.Keys
    && forall a :: a in q.cells && a != p ==> q'.cells[a] == q.cells[a]
  }

  /** Recycling a listed node takes it off the list, and nothing else, and puts it at the head of the pool, zeroed. */
  lemma RecycleEffect(q: Queues, p: Addr)
    requires NoDup(q.release) && p in q.release
    ensures var q' := Recycle(q, p);
            && q'.pool == [p] + q.pool && q'.recv == q.recv
            && p !in q'.release
            && (forall k :: 0 <= k < |q.release| && q.release[k] == p ==>
                  q'.release == q.release[..k] + q.release[k + 1..])
            && q'.cells == q.cells[p := Cell(Zeros(256), 0, 0)]
  {
    WithoutMember(q.release, p);
    forall k | 0 <= k < |q.release| && q.release[k] == p
      ensures Recycle(q, p).release == q.release[..k] + q.release[k + 1..]
    {
      WithoutAt(q.release, p, k);
    }
  }

  // ----- more or fewer release calls than the count

  /** A whole release call that nobody interrupts: the return value, and whether the release is sent. The sending
      fails for a command without the magic of a message; the node is recycled all the same. */
  function ReleaseCall(q: Queues, p: Addr): (r: (Queues, int, bool))
    requires forall a :: a in q.release ==> a in q.cells
  {
    var (q', ret) := CheckCounter(q, p);
    if ret == 0 then
      var sent := ValidMagic(q.cells[p].command);
      (Recycle(q', p), if sent then 0 else -1, sent)
    else (q', ret, false)
  }

  lemma ReleaseCallKeeps(q: Queues, p: Addr)
    requires NoDup(q.release) && forall a :: a in q.release ==> a in q.cells
    ensures var q' := ReleaseCall(q, p).0;
            && NoDup(q'.release) && forall a :: a in q'.release ==> a in q'.cells
    ensures var (q', ret, sent) := ReleaseCall(q, p);
            if p !in q.release then q' == q && ret == -1 && !sent
            else if q.cells[p].counter > 1 then
              && q'.release == q.release && q'.cells[p].counter == q.cells[p].counter - 1 && p in q'.release
              && ret == q.cells[p].counter - 1 && !sent
            else
              && p !in q'.release && sent == ValidMagic(q.cells[p].command) && ret == (if sent then 0 else -1)
              && q'.pool == [p] + q.pool && q'.cells[p] == ZERO_CELL
    ensures ReleaseCall(q, p).0.recv == q.recv
    ensures p in q.release && q.cells[p].counter > 1 ==> ReleaseCall(q, p).0.pool == q.pool
    ensures p in ReleaseCall(q, p).0.release ==> ReleaseCall(q, p).0.cells[p].command == q.cells[p].command
  {
    hide ValidMagic;
    if p in q.release {
      WithoutMember(q.release, p);
    }
  }

  /** `m` calls for the node at `p`, one after another: what they return, and how many send the release. */
  function ReleaseMany(q: Queues, p: Addr, m: nat): (r: (Queues, seq<int>, nat))
    requires NoDup(q.release) && forall a :: a in q.release ==> a in q.cells
    ensures NoDup(r.0.release) && forall a :: a in r.0.release ==> a in r.0.cells
    ensures |r.1| == m
  {
    if m == 0 then (q, [], 0)
    else
      var (q', rets, sends) := ReleaseMany(q, p, m - 1);
      ReleaseCallKeeps(q', p);
      var (q'', ret, sent) := ReleaseCall(q', p);
      (q'', rets + [ret], if sent then sends + 1 else sends)
  }

  /** A count below 1 counts as 1. */
  function CallsNeeded(counter: int): (n: nat) {
    if counter < 1 then 1 else counter
  }

  /** The calls return n-1, n-2, ..., 1, and -1 after the n-th. The n-th sends the release and returns 0, if the
      command is that of a message, and sends nothing and returns -1 if not; either way it puts the node at the head
      of the pool, zeroed. */
  lemma {:induction false} ReleaseManyReturns(q: Queues, p: Addr, m: nat)
    requires NoDup(q.release) && p in q.release && forall a :: a in q.release ==> a in q.cells
    ensures var n, valid := CallsNeeded(q.cells[p].counter), ValidMagic(q.cells[p].command);
            var (q', rets, sends) := ReleaseMany(q, p, m);
            && (forall i :: 0 <= i < m ==>
                  rets[i] == if i < n - 1 then n - 1 - i else if i == n - 1 && valid then 0 else -1)
            && sends == (if m >= n && valid then 1 else 0)
            && (p in q'.release <==> m < n)
            && q'.recv == q.recv && q'.pool == (if m < n then q.pool else [p] + q.pool)
            && (m >= n ==> p in q'.cells && q'.cells[p] == ZERO_CELL)
            && (p in q'.release ==>
                  && CallsNeeded(q'.cells[p].counter) == n - m
                  && q'.cells[p].command == q.cells[p].command)
  {
    if m > 0 {
      hide ReleaseCall, ValidMagic;
      ReleaseManyReturns(q, p, m - 1);
      ReleaseCallKeeps(ReleaseMany(q, p, m - 1).0, p);
    }
  }

  lemma OneCallMore(q: Queues, p: Addr, m: nat)
    requires NoDup(q.release) && (forall a :: a in q.release ==> a in q.cells)
    requires m > 0 && p !in ReleaseMany(q, p, m - 1).0.release
    ensures ReleaseMany(q, p, m).0 == ReleaseMany(q, p, m - 1).0
  {
    hide ReleaseCall, ValidMagic, CheckCounter;
    ReleaseCallKeeps(ReleaseMany(q, p, m - 1).0, p);
  }

  /** One after another, n calls or more send exactly one release, if the command is that of a message, and none
      otherwise; calls beyond the n-th change nothing. */
  lemma {:induction false} ExtraCallsDoNothing(q: Queues, p: Addr, m: nat)
    requires NoDup(q.release) && p in q.release && forall a :: a in q.release ==> a in q.cells
    ensures var n := CallsNeeded(q.cells[p].counter);
            && (ReleaseMany(q, p, m).2 == 1 <==> m >= n && ValidMagic(q.cells[p].command))
            && ReleaseMany(q, p, m).2 <= 1
            && (m >= n ==> ReleaseMany(q, p, m).0 == ReleaseMany(q, p, n).0)
  {
    hide ValidMagic, ReleaseMany;
    ReleaseManyReturns(q, p, m);
    if m > CallsNeeded(q.cells[p].counter) {
      ExtraCallsDoNothing(q, p, m - 1);
      ReleaseManyReturns(q, p, m - 1);
      OneCallMore(q, p, m);
    }
  }

  /** A count is set for listed nodes and for no others. From then on the calls return n-1, n-2, ... for the count n
      that was given, and the n-th is the one that sends; 0 and below count as 1. */
  lemma SetCountEffect(q: Queues, p: Addr, n: int, m: nat)
    requires NoDup(q.release) && forall a :: a in q.release ==> a in q.cells
    ensures var (q', ret) := SetCount(q, p, n);
            && ret == (if p in q.release then 0 else -1)
            && (p !in q.release ==> q' == q)
            && (p in q.release ==>
                  OnlyCell(q, q', p) && q'.cells[p] == Cell(q.cells[p].command, q.cells[p].length, n))
            && (p in q.release && ValidMagic(q.cells[p].command) ==>
                  && NoDup(q'.release) && (forall a :: a in q'.release ==> a in q'.cells)
                  && var (needed, (_, rets, sends)) := (if n < 1 then 1 else n, ReleaseMany(q', p, m));
                  && (forall i :: 0 <= i < m ==> rets[i] == if i < needed then needed - 1 - i else -1)
                  && sends == if m >= needed then 1 else 0)
  {
    hide ValidMagic, ReleaseMany;
    if p in q.release {
      ReleaseManyReturns(SetCount(q, p, n).0, p, m);
    }
  }
}
