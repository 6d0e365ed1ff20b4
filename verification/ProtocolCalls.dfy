/** The transition system and the calls agree: a call that meets no interference does to the queues, step by step,
    what the pointer-level method of the same call is proved to do. */
module ProtocolCalls {
  import opened Bytes
  import opened StreamMessage
  import opened QueueSpec
  import opened Protocol
  import opened ProtocolInvariant

  /** initialize_stream_pool leaves the queues that every run starts from. */
  lemma {:induction false} InitializePool(addrs: seq<Addr>)
    requires NoDup(addrs)
    ensures var q := PushAll(Queues([], [], [], map[]), addrs);
            && NoDup(q.pool) && |q.pool| == |addrs| && (forall a :: a in q.pool <==> a in addrs)
            && q.cells == (map a | a in q.pool :: ZERO_CELL) && q.recv == [] && q.release == []
  {
    if addrs != [] {
      var rest, last := addrs[..|addrs| - 1], addrs[|addrs| - 1];
      InitializePool(rest);
      var q := PushAll(Queues([], [], [], map[]), rest);
      assert addrs == rest + [last] && last !in q.pool;
      NoDupCons(last, q.pool);
      var q' := PoolPush(q, last);
      assert q' == PushAll(Queues([], [], [], map[]), addrs);
      assert q'.cells == (map a | a in q'.pool :: ZERO_CELL);
    }
  }

  lemma NoDupCons(a: Addr, s: seq<Addr>)
    requires NoDup(s) && a !in s
    ensures NoDup([a] + s)
  {
  }

  /** enqueue_recv_command, from the entry to the signal or the refusal. */
  lemma EnqueueAlone(s: State, t: Tid, m: Msg)
    requires forall a :: a in s.q.pool ==> a in s.q.cells
    ensures var (q, r) := Enqueue(s.q, s.stop, m);
            var pc := Target(s, EnqEnter(m)).value;
            match r
            case Accepted =>
              && pc == EnqPop(m) && s.q.pool != [] && |m| <= COMMAND_MAX
              && var s1 := StepEnqPop(s, t, m);
              && s1.threads[t].pc == EnqPush(m, s.q.pool[0])
              && StepEnqPush(s1, t, m, s.q.pool[0]).q == q
            case PoolEmpty => pc == EnqPop(m) && StepEnqPop(s, t, m).threads[t].pc == Refuse(m) && q == s.q
            case _ => pc == Refuse(m) && q == s.q
  {
  }

  /** check_release_counter: the return value, and whether the call goes on to send. */
  lemma CheckCounterAlone(s: State, t: Tid, p: Addr, call: nat)
    requires forall a :: a in s.q.release ==> a in s.q.cells && HasLife(s, a)
    ensures var (q, ret) := CheckCounter(s.q, p);
            var s' := StepRelCheck(s, t, p, call);
            && s'.q == q && (s'.threads[t].pc == RelSend(p) <==> ret == 0)
            && (p in s.q.release ==> LifeOf(s', p).results == LifeOf(s, p).results + [ret])
  {
  }

  /** set_release_count: the counter of a listed node is the count of the call, and nothing else in the queues
      changes. */
  lemma SetCountAlone(s: State, t: Tid, p: Addr, n: int)
    requires forall a :: a in s.q.release ==> a in s.q.cells && HasLife(s, a)
    ensures var s' := StepCntSet(s, t, p, n);
            && s'.q == SetCount(s.q, p, n).0 && s'.threads[t].pc == Idle && s'.wire == s.wire
            && (p in s.q.release ==> OnlyCell(s.q, s'.q, p) && s'.q.cells[p].counter == n)
            && (p !in s.q.release ==> s'.q == s.q)
  {
  }

  /** remove_release_command: unlinking a listed node and pushing it are the removal and recycling of the pointer level.
      The node is at the head of the pool afterwards, zeroed, and no longer listed. */
  lemma RecycleAlone(s: State, t: Tid, p: Addr)
    requires HasLife(s, p) && NoDup(s.q.release) && p in s.q.release
    ensures var s' := StepRmvPush(StepRmvUnlink(s, t, p), t, p);
            && s'.q == Recycle(s.q, p) && s'.threads[t].pc == RmvSignal && s'.wire == s.wire
            && s'.q.pool == [p] + s.q.pool && s'.q.recv == s.q.recv && p !in s'.q.release
            && s'.q.cells == s.q.cells[p := ZERO_CELL]
  {
    hide NoDup;
    RecycleEffect(s.q, p);
  }

  lemma SendAndRecycle(s: State, t: Tid, p: Addr)
    requires p in s.q.cells && HasLife(s, p)
    ensures var s2 := StepRelease(s, t, p);
            && s2.threads[t].pc == RmvEnter(p) && HasLife(s2, p)
            && var s4 := StepRmvPush(StepRmvUnlink(s2, t, p), t, p);
               && s4.q == Recycle(s.q, p) && s4.threads[t].pc == RmvSignal
               && s4.wire == s.wire + if ValidMagic(s.q.cells[p].command)
                                      then [Wire(OfAccepted(s.owner[p]), ReleaseOf(s.q.cells[p].command))] else []
  {
    hide ReleaseOf, ValidMagic, Without;
  }

  /** Stream_release_with_queue, from the counting to the signal: the queues, and whether a release goes out. */
  lemma ReleaseCallAlone(s: State, t: Tid, p: Addr, call: nat)
    requires forall a :: a in s.q.release ==> a in s.q.cells && HasLife(s, a)
    ensures var (q, _, sent) := ReleaseCall(s.q, p);
            var s1 := StepRelCheck(s, t, p, call);
            if s1.threads[t].pc == RelSend(p) then
              && p in s1.q.cells && HasLife(s1, p)
              && var s2 := StepRelease(s1, t, p);
              && s2.threads[t].pc == RmvEnter(p) && HasLife(s2, p)
              && var s4 := StepRmvPush(StepRmvUnlink(s2, t, p), t, p);
              && s4.q == q && s4.threads[t].pc == RmvSignal
              && s4.wire == s.wire + if sent
                                     then [Wire(OfAccepted(s.owner[p]), ReleaseOf(s.q.cells[p].command))] else []
            else s1.q == q && !sent && s1.threads[t].pc == Idle && s1.wire == s.wire
  {
    hide ReleaseOf, ValidMagic, Recycle, StepRelease, StepRmvPush, StepRmvUnlink;
    if p in s.q.release {
      SendAndRecycle(StepRelCheck(s, t, p, call), t, p);
    }
  }

  /** One turn of force_remove_release_command. */
  lemma ForceRemoveTurn(s: State, t: Tid)
    ensures var s1 := StepFrcPop(s, t);
            if s.q.release == [] then s1.q == s.q == RecycleAll(s.q) && s1.threads[t].pc == FrcSignal
            else
              && s1.threads[t].pc == FrcPush(s.q.release[0])
              && var s2 := StepFrcPush(s1, t, s.q.release[0]);
                 && RecycleAll(s2.q) == RecycleAll(s.q) && |s2.q.release| < |s.q.release| && s2.threads[t].pc == FrcPop
  {
  }

  /** force_remove_release_command puts every listed node back in the pool; what it was called for in a run, the
      empty list, it leaves alone. */
  lemma {:induction false} RecycleAllReturns(q: Queues)
    ensures var r := RecycleAll(q);
            && r.release == [] && r.recv == q.recv && |r.pool| == |q.pool| + |q.release|
            && (forall a :: a in r.pool <==> a in q.pool || a in q.release)
            && (forall a :: a in q.release ==> a in r.cells && r.cells[a] == ZERO_CELL)
            && (q.release == [] ==> r == q)
    decreases |q.release|
  {
    if q.release != [] {
      var q' := PoolPush(ReleasePop(q), q.release[0]);
      RecycleAllReturns(q');
      RecycleAllZeroes(q', q.release[0]);
    }
  }

  /** A node that the forced removal has zeroed stays zeroed. */
  lemma {:induction false} RecycleAllZeroes(q: Queues, a: Addr)
    requires a in q.cells && q.cells[a] == ZERO_CELL
    ensures a in RecycleAll(q).cells && RecycleAll(q).cells[a] == ZERO_CELL
    decreases |q.release|
  {
    if q.release != [] {
      RecycleAllZeroes(PoolPush(ReleasePop(q), q.release[0]), a);
    }
  }
}
