/** The steps of the stream thread and of the closing thread keep the invariant: stream_thread_proc,
    stop_stream_thread and finalize_stream_pool. */
module ProtocolStream {
  import opened Options
  import opened Bytes
  import opened StreamMessage
  import opened QueueSpec
  import opened Protocol
  import opened ProtocolInvariant
  import opened ProtocolFrames
  import opened ProtocolSteps

  // ----- the receive queue is popped

  /** What the stream thread finds at the head of the receive queue: the oldest message not yet taken. */
  lemma HeadFacts(s: State)
    requires Shape(s) && ListsOk(s) && NodesOk(s) && LivesOk(s) && s.q.recv != []
    ensures var a := s.q.recv[0];
            && a in s.nodes && s.place[a] == InRecv && s.taken < |s.lives| && s.lives[s.taken].node == a
            && Serves(s, a) && s.owner[a] == s.taken && HoldsMessage(s, a)
            && s.lives[s.taken].stage == Queued && CallsOk(s.lives[s.taken])
            && forall b :: b in s.q.recv[1..] ==> b != a
  {
    var a := s.q.recv[0];
    assert LifeOk(s, s.taken) && NodeOk(s, a);
    forall i | 1 <= i < |s.q.recv|
      ensures s.q.recv[i] != a
    {
      assert LifeOk(s, s.taken + i);
    }
  }

  lemma LoopPopLists(s: State, t: Tid)
    requires Shape(s) && ListsOk(s) && s.q.recv != [] && s.taken < |s.lives| && s.lives[s.taken].node == s.q.recv[0]
    requires forall b :: b in s.q.recv[1..] ==> b != s.q.recv[0]
    ensures Shape(StepLoopPop(s, t)) && ListsOk(StepLoopPop(s, t))
  {
    hide NoDup;
    var s' := StepLoopPop(s, t);
    assert Shape(s');
    forall i | 0 <= i < |s'.q.recv|
      ensures s'.q.recv[i] == s'.lives[s'.taken + i].node
    {
      assert s'.q.recv[i] == s.q.recv[i + 1];
    }
  }

  lemma LoopPopThread(s: State, t: Tid)
    requires Shape(s) && s.q.recv != [] && t == STREAM_THREAD && Shape(StepLoopPop(s, t))
    requires var a := s.q.recv[0];
             && a in s.nodes && s.taken < |s.lives| && s.lives[s.taken].node == a
             && Serves(s, a) && s.owner[a] == s.taken && HoldsMessage(s, a)
             && s.lives[s.taken].stage == Queued && CallsOk(s.lives[s.taken])
    ensures ThreadOk(StepLoopPop(s, t), t)
  {
    hide CountsDown, Deliverable, LifeOk, NodeOk;
  }

  lemma LoopPopSelf(s: State, t: Tid)
    requires Shape(s) && s.q.recv != [] && t == STREAM_THREAD && Shape(StepLoopPop(s, t))
    requires var a := s.q.recv[0];
             && a in s.nodes && s.taken < |s.lives| && s.lives[s.taken].node == a
             && Serves(s, a) && s.owner[a] == s.taken && HoldsMessage(s, a)
             && s.lives[s.taken].stage == Queued && CallsOk(s.lives[s.taken])
    ensures var s' := StepLoopPop(s, t);
            ThreadOk(s', t) && NodeOk(s', s.q.recv[0]) && LifeOk(s', s.taken)
  {
    hide CountsDown, Deliverable, ThreadOk;
    LoopPopThread(s, t);
  }

  lemma LoopPopHistory(s: State, t: Tid)
    requires Shape(s) && HistoryOk(s) && s.q.recv != [] && t == STREAM_THREAD && s.taken < |s.lives|
    requires s.threads[t].pc == LoopPop && Shape(StepLoopPop(s, t))
    ensures WakeOk(StepLoopPop(s, t)) && HistoryOk(StepLoopPop(s, t))
  {
    hide HistoryOk;
    HistoryFrame(s, StepLoopPop(s, t));
  }

  lemma LoopPopOnly(s: State, t: Tid)
    requires Shape(s) && s.q.recv != [] && s.taken < |s.lives| && s.lives[s.taken].node == s.q.recv[0]
    requires s.q.recv[0] in s.nodes && t == STREAM_THREAD && s.threads[t].pc == LoopPop && Shape(StepLoopPop(s, t))
    ensures OnlyNode(s, StepLoopPop(s, t), s.q.recv[0], s.taken)
  {
  }

  lemma LoopPopFrame(s: State, t: Tid)
    requires Shape(s) && s.q.recv != [] && s.taken < |s.lives| && s.lives[s.taken].node == s.q.recv[0]
    requires s.q.recv[0] in s.nodes && t == STREAM_THREAD && s.threads[t].pc == LoopPop && Shape(StepLoopPop(s, t))
    ensures NodeStep(s, StepLoopPop(s, t), t, s.q.recv[0], s.taken)
    ensures GivesUp(s.threads[t], StepLoopPop(s, t).threads[t])
  {
    hide OnlyNode;
    LoopPopOnly(s, t);
  }

  lemma LoopPopKeeps(s: State, t: Tid)
    requires Inv(s) && t == STREAM_THREAD && s.threads[t].pc == LoopPop && s.q.recv != []
    ensures Inv(StepLoopPop(s, t))
  {
    hide NodesOk, LivesOk, ListsOk, WakeOk, HistoryOk, NodeOk, LifeOk, NodeStep, NotSubject, CallsOk, HoldsMessage,
      CarryOk, ClientOk, StreamOk, CloserOk, PairOk, GivesUp, NoNewClaims;
    var s', a := StepLoopPop(s, t), s.q.recv[0];
    HeadFacts(s);
    LoopPopLists(s, t);
    LoopPopSelf(s, t);
    LoopPopHistory(s, t);
    LoopPopFrame(s, t);
    NoSubject(s, t, a);
    ClaimsKept(s, t, s'.threads[t]);
    OwnNodeStep(s, s', t, a, s.taken);
  }

  // ----- the release list is pushed

  lemma StoPushShape(s: State, t: Tid, a: Addr)
    requires Shape(s) && ListsOk(s) && Serves(s, a) && a in s.nodes && s.place[a] == With(t)
    ensures Shape(StepStoPush(s, t, a))
  {
    hide ListsOk;
  }

  lemma StoPushLists(s: State, t: Tid, a: Addr)
    requires Shape(s) && ListsOk(s) && Serves(s, a) && a in s.nodes && s.place[a] == With(t)
    ensures Shape(StepStoPush(s, t, a)) && ListsOk(StepStoPush(s, t, a))
  {
    hide NoDup;
    StoPushShape(s, t, a);
    NoDupSnoc(s.q.release, a);
  }

  lemma StoPushStream(s: State, t: Tid, a: Addr)
    requires Shape(s) && t == STREAM_THREAD && s.threads[t].pc == StoPush(a) && CarryOk(s, t) && StreamOk(s, t)
    requires LifeOk(s, s.owner[a]) && Shape(StepStoPush(s, t, a))
    ensures StreamOk(StepStoPush(s, t, a), t)
  {
    hide CountsDown, Deliverable, LifeOk, NodeOk, CallsOk;
    assert LifeOf(s, a).node == a;
  }

  lemma StoPushThread(s: State, t: Tid, a: Addr)
    requires Shape(s) && t == STREAM_THREAD && s.threads[t].pc == StoPush(a) && CarryOk(s, t) && StreamOk(s, t)
    requires LifeOk(s, s.owner[a]) && Shape(StepStoPush(s, t, a))
    ensures ThreadOk(StepStoPush(s, t, a), t)
  {
    hide CountsDown, Deliverable, LifeOk, NodeOk, StreamOk;
    StoPushStream(s, t, a);
  }

  lemma StoPushSelf(s: State, t: Tid, a: Addr)
    requires Shape(s) && t == STREAM_THREAD && s.threads[t].pc == StoPush(a) && CarryOk(s, t) && StreamOk(s, t)
    requires LifeOk(s, s.owner[a]) && Shape(StepStoPush(s, t, a))
    ensures var s' := StepStoPush(s, t, a); ThreadOk(s', t) && NodeOk(s', a) && LifeOk(s', s.owner[a])
  {
    hide CountsDown, Deliverable, ThreadOk;
    StoPushThread(s, t, a);
    assert (s.q.release + [a])[|s.q.release|] == a;
  }

  lemma StoPushHistory(s: State, t: Tid, a: Addr)
    requires Shape(s) && HistoryOk(s) && t == STREAM_THREAD && s.threads[t].pc == StoPush(a) && Serves(s, a)
    requires a in s.nodes && Shape(StepStoPush(s, t, a))
    ensures WakeOk(StepStoPush(s, t, a)) && HistoryOk(StepStoPush(s, t, a))
  {
    hide HistoryOk;
    HistoryFrame(s, StepStoPush(s, t, a));
  }

  lemma StoPushOnly(s: State, t: Tid, a: Addr)
    requires Shape(s) && Serves(s, a) && a in s.nodes
    requires t == STREAM_THREAD && s.threads[t].pc == StoPush(a) && Shape(StepStoPush(s, t, a))
    ensures OnlyNode(s, StepStoPush(s, t, a), a, s.owner[a])
  {
  }

  lemma StoPushFrame(s: State, t: Tid, a: Addr)
    requires Shape(s) && Serves(s, a) && a in s.nodes
    requires t == STREAM_THREAD && s.threads[t].pc == StoPush(a) && Shape(StepStoPush(s, t, a))
    ensures NodeStep(s, StepStoPush(s, t, a), t, a, s.owner[a])
    ensures GivesUp(s.threads[t], StepStoPush(s, t, a).threads[t])
  {
    hide OnlyNode;
    StoPushOnly(s, t, a);
  }

  lemma StoPushKeeps(s: State, t: Tid, a: Addr)
    requires Inv(s) && t == STREAM_THREAD && s.threads[t].pc == StoPush(a)
    ensures a in s.q.cells && HasLife(s, a) && Inv(StepStoPush(s, t, a))
  {
    hide NodesOk, LivesOk, ListsOk, WakeOk, HistoryOk, NodeOk, LifeOk, NodeStep, NotSubject, HoldsMessage,
      ClientOk, CloserOk, PairOk, GivesUp, NoNewClaims;
    assert ThreadOk(s, t);
    assert Serves(s, a) && a in s.nodes && s.place[a] == With(t);
    var s', k := StepStoPush(s, t, a), s.owner[a];
    assert LifeOk(s, k) by {
      LifeAt(s, k);
    }
    StoPushLists(s, t, a);
    StoPushSelf(s, t, a);
    StoPushHistory(s, t, a);
    StoPushFrame(s, t, a);
    NoSubject(s, t, a);
    ClaimsKept(s, t, s'.threads[t]);
    OwnNodeStep(s, s', t, a, k);
  }

  lemma LifeAt(s: State, k: nat)
    requires Shape(s) && LivesOk(s) && k < |s.lives|
    ensures LifeOk(s, k)
  {
  }

  // ----- the message is dispatched

  /** The stream thread holds a listed node whose message it has not dispatched. */
  ghost predicate Dispatching(s: State, t: Tid, a: Addr) {
    && Shape(s) && t == STREAM_THREAD && s.threads[t].pc == Receive(a)
    && a in s.nodes && a in s.q.release && Serves(s, a) && s.place[a] == InRelease && LifeOf(s, a).stage == Listed
    && HoldsMessage(s, a) && s.owner[a] == s.taken - 1 && CallsOk(LifeOf(s, a))
    && s.q.cells[a].counter == LifeOf(s, a).quota - |LifeOf(s, a).results|
  }

  lemma IsDispatching(s: State, t: Tid, a: Addr)
    requires Inv(s) && t == STREAM_THREAD && s.threads[t].pc == Receive(a)
    ensures Dispatching(s, t, a) && LifeOk(s, s.owner[a]) && NotSubject(s, t, a)
  {
    hide ListsOk, WakeOk, HistoryOk, CallsOk, NotSubject;
    assert ThreadOk(s, t);
    assert NodeOk(s, a) && LifeOk(s, s.owner[a]);
    Alone(s, t, a);
  }

  /** A step that changes the stage of the node's life, and perhaps its cell, leaves the lists. */
  lemma StageLists(s: State, s': State, a: Addr, l: Life, c: Cell)
    requires Shape(s) && ListsOk(s) && a in s.nodes && Serves(s, a) && l.node == a && s.threads.Keys <= s'.threads.Keys
    requires s' == s.(threads := s'.threads, calls := s'.calls, lives := s.lives[s.owner[a] := l],
                      q := s.q.(cells := s.q.cells[a := c]))
    ensures Shape(s') && ListsOk(s')
  {
    hide NoDup;
  }

  lemma CallData(s: State, t: Tid, a: Addr)
    requires Dispatching(s, t, a) && ListsOk(s)
    ensures Shape(StepCall(s, t, a)) && ListsOk(StepCall(s, t, a))
  {
    hide CallsOk, Deliverable, ListsOk, Converted, Stored, HoldsMessage;
    var s', l, c := StepCall(s, t, a), LifeOf(s, a), s.q.cells[a];
    StageLists(s, s', a, l.(stage := Called), c.(command := Converted(s.conv, c.command)));
  }

  lemma CallNode(s: State, t: Tid, a: Addr)
    requires Dispatching(s, t, a) && Deliverable(s.q.cells[a].command) && Shape(StepCall(s, t, a))
    ensures var s' := StepCall(s, t, a); NodeOk(s', a) && LifeOk(s', s.owner[a])
  {
    hide CountsDown, Deliverable, Converted, Stored;
    DeliverableStored(s.accepted[s.owner[a]]);
  }

  lemma DropData(s: State, t: Tid, a: Addr)
    requires Dispatching(s, t, a) && ListsOk(s) && !Deliverable(s.q.cells[a].command)
    ensures var s' := StepDrop(s, t, a); Shape(s') && ListsOk(s') && NodeOk(s', a) && LifeOk(s', s.owner[a])
  {
    hide CountsDown, Deliverable, ListsOk, Converted, Stored;
    var s', l := StepDrop(s, t, a), LifeOf(s, a);
    assert s.q.cells[a := s.q.cells[a]] == s.q.cells;
    StageLists(s, s', a, l.(stage := Dropped), s.q.cells[a]);
    DeliverableStored(s.accepted[s.owner[a]]);
  }

  /** One more message dispatched: the callbacks so far are those of one more accepted message. */
  lemma ReceiveHistory(s: State, s': State, t: Tid, a: Addr)
    requires Dispatching(s, t, a) && HistoryOk(s) && Shape(s')
    requires var m := s.accepted[s.owner[a]];
             && s' == s.(threads := s'.threads, q := s'.q, calls := s'.calls, lives := s'.lives)
             && s'.calls == s.calls + (if Deliverable(m) then [Converted(s.conv, Stored(m))] else [])
             && |s'.lives| == |s.lives| && (forall k :: 0 <= k < |s.lives| ==> s'.lives[k].sent == s.lives[k].sent)
             && s'.threads[t].pc in {Callback, LoopEnter}
    ensures WakeOk(s') && HistoryOk(s')
  {
    hide Deliverable, Converted, Stored, CallsOk, ReleaseOf;
    var k := s.owner[a];
    assert s.accepted[..k + 1][..k] == s.accepted[..k];
    forall i | 0 <= i < |s'.wire|
      ensures WireOk(s', s'.wire[i])
    {
      assert WireOk(s, s.wire[i]);
    }
  }

  lemma AtRestOk(s: State, t: Tid)
    requires Shape(s) && t == STREAM_THREAD && s.threads[t] in {Thread(Callback, false), Thread(LoopEnter, false)}
    ensures ThreadOk(s, t)
  {
  }

  lemma CallOnly(s: State, t: Tid, a: Addr)
    requires Dispatching(s, t, a) && Shape(StepCall(s, t, a))
    ensures OnlyNode(s, StepCall(s, t, a), a, s.owner[a])
  {
    hide Deliverable, Converted, Stored, CallsOk, HoldsMessage, StreamOk, CarryOk;
  }

  lemma CallFrame(s: State, t: Tid, a: Addr)
    requires Dispatching(s, t, a) && Shape(StepCall(s, t, a))
    ensures NodeStep(s, StepCall(s, t, a), t, a, s.owner[a]) && GivesUp(s.threads[t], StepCall(s, t, a).threads[t])
  {
    hide Deliverable, Converted, Stored, CallsOk, HoldsMessage, OnlyNode;
    CallOnly(s, t, a);
  }

  lemma DropOnly(s: State, t: Tid, a: Addr)
    requires Dispatching(s, t, a) && Shape(StepDrop(s, t, a))
    ensures OnlyNode(s, StepDrop(s, t, a), a, s.owner[a])
  {
    hide Deliverable, Converted, Stored, CallsOk, HoldsMessage, StreamOk, CarryOk;
  }

  lemma DropFrame(s: State, t: Tid, a: Addr)
    requires Dispatching(s, t, a) && Shape(StepDrop(s, t, a))
    ensures NodeStep(s, StepDrop(s, t, a), t, a, s.owner[a]) && GivesUp(s.threads[t], StepDrop(s, t, a).threads[t])
  {
    hide Deliverable, Converted, Stored, CallsOk, HoldsMessage, OnlyNode;
    DropOnly(s, t, a);
  }

  lemma CallKeeps(s: State, t: Tid, a: Addr)
    requires Inv(s) && t == STREAM_THREAD && s.threads[t].pc == Receive(a)
    requires Dispatching(s, t, a) && Deliverable(s.q.cells[a].command)
    ensures Inv(StepCall(s, t, a))
  {
    hide NodesOk, LivesOk, ListsOk, WakeOk, HistoryOk, NodeOk, LifeOk, NodeStep, NotSubject, CallsOk, Converted,
      CarryOk, StreamOk, ClientOk, CloserOk, PairOk, GivesUp, NoNewClaims, Stored, Deliverable;
    var s', k := StepCall(s, t, a), s.owner[a];
    IsDispatching(s, t, a);
    CallData(s, t, a);
    CallNode(s, t, a);
    DeliverableStored(s.accepted[k]);
    ReceiveHistory(s, s', t, a);
    AtRestOk(s', t);
    CallFrame(s, t, a);
    ClaimsKept(s, t, s'.threads[t]);
    OwnNodeStep(s, s', t, a, k);
  }

  lemma DropKeeps(s: State, t: Tid, a: Addr)
    requires Inv(s) && t == STREAM_THREAD && s.threads[t].pc == Receive(a)
    requires Dispatching(s, t, a) && !Deliverable(s.q.cells[a].command)
    ensures Inv(StepDrop(s, t, a))
  {
    hide NodesOk, LivesOk, ListsOk, WakeOk, HistoryOk, NodeOk, LifeOk, NodeStep, NotSubject, CallsOk, Converted,
      CarryOk, StreamOk, ClientOk, CloserOk, PairOk, GivesUp, NoNewClaims, Stored, Deliverable;
    var s', k := StepDrop(s, t, a), s.owner[a];
    IsDispatching(s, t, a);
    DropData(s, t, a);
    DeliverableStored(s.accepted[k]);
    ReceiveHistory(s, s', t, a);
    AtRestOk(s', t);
    DropFrame(s, t, a);
    ClaimsKept(s, t, s'.threads[t]);
    OwnNodeStep(s, s', t, a, k);
  }

  lemma ReceiveKeeps(s: State, t: Tid, a: Addr)
    requires Inv(s) && t == STREAM_THREAD && s.threads[t].pc == Receive(a)
    ensures a in s.q.cells && HasLife(s, a) && Inv(StepReceive(s, t, a))
  {
    hide Inv, Dispatching, Deliverable, StepCall, StepDrop;
    IsDispatching(s, t, a);
    assert a in s.q.cells && HasLife(s, a) by {
      DispatchingNode(s, t, a);
    }
    if Deliverable(s.q.cells[a].command) {
      CallKeeps(s, t, a);
    } else {
      DropKeeps(s, t, a);
    }
  }

  lemma DispatchingNode(s: State, t: Tid, a: Addr)
    requires Dispatching(s, t, a)
    ensures a in s.q.cells && HasLife(s, a)
  {
  }

  // ----- waiting

  /** The stream thread has drained: no queue holds a node, and no thread carries one. */
  lemma AllHome(s: State, a: Addr)
    requires Shape(s) && ListsOk(s) && NodesOk(s) && ThreadsOk(s) && a in s.nodes
    requires s.threads[STREAM_THREAD].pc == DrainTest && s.q.release == []
    ensures s.place[a] in {InPool, Freed}
  {
    hide ClientOk, CloserOk, ClaimsApart;
    assert NodeOk(s, a) && ThreadOk(s, STREAM_THREAD);
    assert Holds(s.threads[STREAM_THREAD], ReleaseStream);
    forall u | u in s.threads && u != STREAM_THREAD
      ensures Carried(s.threads[u].pc) == None
    {
      assert PairOk(s, u, STREAM_THREAD) && ThreadOk(s, u);
    }
  }

  lemma DrainTestHome(s: State)
    requires Shape(s) && ListsOk(s) && NodesOk(s) && ThreadsOk(s) && s.threads[STREAM_THREAD].pc == DrainTest
    ensures ThreadOk(s, STREAM_THREAD)
    ensures s.q.release == [] ==> forall a :: a in s.nodes ==> s.place[a] in {InPool, Freed}
  {
    hide NodeOk, PairOk, NoDup;
    assert ThreadOk(s, STREAM_THREAD);
    if s.q.release == [] {
      forall a | a in s.nodes
        ensures s.place[a] in {InPool, Freed}
      {
        AllHome(s, a);
      }
    }
  }

  lemma DrainTestSelf(s: State, t: Tid, pc': Pc)
    requires Shape(s) && ListsOk(s) && NodesOk(s) && ThreadsOk(s) && t == STREAM_THREAD && s.threads[t].pc == DrainTest
    requires pc' == if s.q.release == [] then FrcEnter else DrainWait
    requires Shape(Go(s, t, pc'))
    ensures ThreadOk(Go(s, t, pc'), t)
  {
    hide NodeOk, PairOk, ListsOk, NodesOk, ThreadsOk;
    DrainTestHome(s);
  }

  /** The stream thread goes to wait, or wakes up. */
  lemma StreamMove(s: State, t: Tid, pc': Pc)
    requires Inv(s) && t == STREAM_THREAD && !s.threads[t].pc.Exited?
    requires GivesUp(s.threads[t], Thread(pc', false)) && Carried(pc') == Carried(s.threads[t].pc)
    requires TakenBy(pc') == TakenBy(s.threads[t].pc) && ListedBy(pc') == ListedBy(s.threads[t].pc)
    requires Shape(Go(s, t, pc')) && ThreadOk(Go(s, t, pc'), t) && WakeOk(Go(s, t, pc'))
    ensures Inv(Go(s, t, pc'))
  {
    hide ListsOk, NodesOk, LivesOk, ThreadOk, PairOk, HistoryOk, WakeOk, NoNewClaims, GivesUp, ThreadKept, Carried,
      TakenBy, ListedBy;
    var s' := Go(s, t, pc');
    ClaimsKept(s, t, s'.threads[t]);
    MoveKeepsHistory(s, s', t);
    MoveKeepsThreads(s, s', t);
    MoveKeeps(s, s', t);
  }

  lemma DrainTestKeeps(s: State, t: Tid)
    requires Inv(s) && t == STREAM_THREAD && s.threads[t].pc == DrainTest
    ensures Inv(Go(s, t, if s.q.release == [] then FrcEnter else DrainWait))
  {
    hide ListsOk, NodesOk, LivesOk, HistoryOk, ThreadOk, PairOk;
    var pc' := if s.q.release == [] then FrcEnter else DrainWait;
    DrainTestSelf(s, t, pc');
    StreamMove(s, t, pc');
  }

  lemma LoopPopEmptySelf(s: State, t: Tid, pc': Pc)
    requires Shape(s) && t == STREAM_THREAD && ThreadOk(s, t) && s.threads[t].pc == LoopPop && s.q.recv == []
    requires pc' == if s.stop then DrainEnter else LoopWait
    requires Shape(Go(s, t, pc'))
    ensures ThreadOk(Go(s, t, pc'), t) && WakeOk(Go(s, t, pc'))
  {
  }

  lemma LoopPopEmptyKeeps(s: State, t: Tid)
    requires Inv(s) && t == STREAM_THREAD && s.threads[t].pc == LoopPop && s.q.recv == []
    ensures Inv(StepLoopPop(s, t))
  {
    hide ListsOk, NodesOk, LivesOk, HistoryOk, PairOk, CarryOk, ClientOk, StreamOk, CloserOk, WakeOk;
    var pc' := if s.stop then DrainEnter else LoopWait;
    LoopPopEmptySelf(s, t, pc');
    StreamMove(s, t, pc');
  }

  lemma FrcSelf(s: State, t: Tid, pc': Pc)
    requires Shape(s) && t == STREAM_THREAD && ThreadOk(s, t) && CloserOk(s, CLOSING_THREAD)
    requires (s.threads[t].pc == FrcPop && pc' == FrcSignal) || (s.threads[t].pc == FrcSignal && pc' == Exited(true))
    requires Shape(Go(s, t, pc'))
    ensures ThreadOk(Go(s, t, pc'), t) && s.q.release == []
  {
  }

  lemma FrcThreads(s: State, t: Tid)
    requires Inv(s) && t == STREAM_THREAD && s.threads[t].pc in {FrcPop, FrcSignal}
    ensures t in s.threads && CLOSING_THREAD in s.threads && Shape(s)
    ensures ThreadOk(s, t) && ThreadOk(s, CLOSING_THREAD)
  {
    hide ListsOk, NodesOk, LivesOk, HistoryOk, PairOk, ThreadOk, WakeOk;
  }

  lemma FrcMove(s: State, t: Tid, pc': Pc)
    requires Shape(s) && WakeOk(s) && t == STREAM_THREAD
    requires (s.threads[t].pc == FrcPop && pc' == FrcSignal) || (s.threads[t].pc == FrcSignal && pc' == Exited(true))
    ensures GivesUp(s.threads[t], Thread(pc', false)) && Carried(pc') == Carried(s.threads[t].pc)
    ensures TakenBy(pc') == TakenBy(s.threads[t].pc) && ListedBy(pc') == ListedBy(s.threads[t].pc)
    ensures Shape(Go(s, t, pc')) && WakeOk(Go(s, t, pc'))
  {
  }

  /** The forced removal finds the release list empty, and ends. */
  lemma FrcKeeps(s: State, t: Tid)
    requires Inv(s) && t == STREAM_THREAD && s.threads[t].pc in {FrcPop, FrcSignal}
    ensures s.q.release == []
    ensures Inv(Go(s, t, if s.threads[t].pc.FrcPop? then FrcSignal else Exited(true)))
  {
    hide ListsOk, NodesOk, LivesOk, ThreadsOk, WakeOk, HistoryOk, Shape, ThreadOk, CarryOk, ClientOk, StreamOk,
      CloserOk, GivesUp, Carried, TakenBy, ListedBy;
    FrcThreads(s, t);
    var pc' := if s.threads[t].pc.FrcPop? then FrcSignal else Exited(true);
    FrcMove(s, t, pc');
    CloserOfThread(s, CLOSING_THREAD);
    FrcSelf(s, t, pc');
    StreamMove(s, t, pc');
  }

  lemma CloserOfThread(s: State, t: Tid)
    requires Shape(s) && t in s.threads && ThreadOk(s, t)
    ensures CloserOk(s, t)
  {
    hide CloserOk;
  }

  lemma WakeSelf(s: State, t: Tid, pc': Pc)
    requires Shape(s) && t == STREAM_THREAD && ThreadOk(s, t)
    requires (s.threads[t].pc == LoopWait && pc' == LoopEnter)
          || (s.threads[t].pc == DrainWait && pc' in {DrainEnter, DrainLate})
    requires Shape(Go(s, t, pc'))
    ensures ThreadOk(Go(s, t, pc'), t)
  {
  }

  lemma WakeKeeps(s: State, t: Tid, pc': Pc)
    requires Inv(s) && t == STREAM_THREAD
    requires (s.threads[t].pc == LoopWait && pc' == LoopEnter)
          || (s.threads[t].pc == DrainWait && pc' in {DrainEnter, DrainLate})
    ensures Inv(Go(s, t, pc'))
  {
    hide ListsOk, NodesOk, LivesOk, HistoryOk, PairOk, CarryOk, ClientOk, StreamOk, CloserOk;
    WakeSelf(s, t, pc');
    StreamMove(s, t, pc');
  }

  // ----- the stream is stopped

  /** While the closing thread holds recv_stream_mutex, no message is being enqueued. */
  lemma NoneEnqueuing(s: State, t: Tid, u: Tid)
    requires Shape(s) && t in s.threads && u in s.threads && u != t && LocksApart(s.threads[t], s.threads[u])
    requires s.threads[t] == Thread(CloseEnter, true)
    ensures !s.threads[u].pc.EnqPop? && !s.threads[u].pc.EnqPush? && !s.threads[u].pc.EnqSignal?
  {
    assert Holds(s.threads[t], RecvStream);
  }

  function Stopped(s: State, t: Tid): State {
    SignalRecv(Go(s.(stop := true), t, Joining))
  }

  lemma StopThread(s: State, t: Tid, u: Tid)
    requires Shape(s) && t == CLOSING_THREAD && u in s.threads && u != t && PairOk(s, t, u) && ThreadOk(s, u)
    requires s.threads[t] == Thread(CloseEnter, true) && Shape(Stopped(s, t))
    ensures ThreadKept(s, Stopped(s, t), u)
  {
    hide LocksApart, ClaimsApart, ClientOk, StreamOk, CloserOk, Serves, HoldsMessage;
    NoneEnqueuing(s, t, u);
  }

  lemma StopSelf(s: State, t: Tid)
    requires Shape(s) && t == CLOSING_THREAD && ThreadOk(s, t) && ThreadOk(s, STREAM_THREAD)
    requires s.threads[t] == Thread(CloseEnter, true) && Shape(Stopped(s, t))
    ensures ThreadOk(Stopped(s, t), t)
  {
    hide ClientOk, StreamOk;
    assert ClientOk(Stopped(s, t), t) && StreamOk(Stopped(s, t), t) by {
      JoiningOk(Stopped(s, t), t);
    }
  }

  lemma JoiningOk(s: State, t: Tid)
    requires Shape(s) && t in s.threads && s.threads[t].pc == Joining
    ensures ClientOk(s, t) && StreamOk(s, t)
  {
  }

  lemma StopMoves(s: State, t: Tid)
    requires Shape(s) && t == CLOSING_THREAD && s.threads[t] == Thread(CloseEnter, true)
    ensures OnlyThreads(s, Stopped(s, t), t) && GivesUp(s.threads[t], Stopped(s, t).threads[t])
    ensures Shape(Stopped(s, t))
  {
  }

  lemma StopWake(s: State, t: Tid)
    requires Shape(s) && WakeOk(s) && t == CLOSING_THREAD && s.threads[t] == Thread(CloseEnter, true)
    requires Shape(Stopped(s, t))
    ensures WakeOk(Stopped(s, t))
  {
    var s' := Stopped(s, t);
    if s'.threads[STREAM_THREAD].pc.DrainWait? && s.q.release == [] {
      var u :| u in s.threads && (s.threads[u].pc.RmvPush? || s.threads[u].pc.RmvSignal?);
      assert s'.threads[u].pc == s.threads[u].pc;
    }
  }

  lemma StopKeeps(s: State, t: Tid)
    requires Inv(s) && t == CLOSING_THREAD && s.threads[t] == Thread(CloseEnter, true)
    ensures Inv(Stopped(s, t))
  {
    hide ListsOk, NodesOk, LivesOk, HistoryOk, PairOk, ThreadOk, WakeOk, OnlyThreads, GivesUp, ThreadKept, Shape,
      NoNewClaims;
    var s' := Stopped(s, t);
    StopMoves(s, t);
    StopSelf(s, t);
    StopWake(s, t);
    ClaimsKept(s, t, s'.threads[t]);
    MoveKeepsHistory(s, s', t);
    forall u | u in s.threads && u != t
      ensures ThreadKept(s, s', u)
    {
      StopThread(s, t, u);
    }
    MoveKeeps(s, s', t);
  }

  // ----- the pool is freed

  lemma FreeingLists(s: State, t: Tid)
    requires Shape(s) && ListsOk(s) && s.q.pool != []
    ensures Shape(StepFreeing(s, t)) && ListsOk(StepFreeing(s, t))
  {
    var a := s.q.pool[0];
    assert a !in s.freed && a !in s.q.pool[1..];
    NoDupSnoc(s.freed, a);
  }

  lemma NoDupSnoc(s: seq<Addr>, a: Addr)
    requires NoDup(s) && a !in s
    ensures NoDup(s + [a])
  {
  }

  lemma FreeingSelf(s: State, t: Tid)
    requires Shape(s) && WakeOk(s) && HistoryOk(s) && s.q.pool != [] && s.q.pool[0] in s.nodes
    requires t in s.threads && t == CLOSING_THREAD && s.threads[t].pc == Freeing && ThreadOk(s, t)
    requires Shape(StepFreeing(s, t))
    ensures var s' := StepFreeing(s, t);
            ThreadOk(s', t) && WakeOk(s') && HistoryOk(s') && NodeOk(s', s.q.pool[0])
  {
    hide WakeOk, HistoryOk;
    var s' := StepFreeing(s, t);
    assert s'.freed[|s.freed|] == s.q.pool[0];
    WakeFrame(s, s', t);
    HistoryFrame(s, s');
  }

  lemma FreeingFrame(s: State, t: Tid)
    requires Shape(s) && s.q.pool != [] && s.q.pool[0] in s.nodes && s.place[s.q.pool[0]] == InPool
    requires t in s.threads && t == CLOSING_THREAD && s.threads[t].pc == Freeing && Shape(StepFreeing(s, t))
    ensures NodeStep(s, StepFreeing(s, t), t, s.q.pool[0], |s.lives|) && Vacant(s, s.q.pool[0])
    ensures GivesUp(s.threads[t], StepFreeing(s, t).threads[t])
  {
  }

  lemma FreeingKeeps(s: State, t: Tid)
    requires Inv(s) && t in s.threads && t == CLOSING_THREAD && s.threads[t].pc == Freeing && s.q.pool != []
    ensures Inv(StepFreeing(s, t))
  {
    hide NodesOk, LivesOk, WakeOk, HistoryOk, NodeOk, LifeOk, NodeStep, NotSubject, CarryOk, ClientOk, StreamOk,
      CloserOk, PairOk, GivesUp, NoNewClaims, Vacant, NoDup;
    var s', a := StepFreeing(s, t), s.q.pool[0];
    FreeingLists(s, t);
    FreeingSelf(s, t);
    FreeingFrame(s, t);
    NoSubject(s, t, a);
    ClaimsKept(s, t, s'.threads[t]);
    OwnNodeStep(s, s', t, a, |s.lives|);
  }

  lemma FreedSelf(s: State, t: Tid)
    requires Shape(s) && t == CLOSING_THREAD && s.threads[t].pc == Freeing && ThreadOk(s, t) && s.q.pool == []
    requires Shape(Go(s, t, Closed(true)))
    ensures ThreadOk(Go(s, t, Closed(true)), t) && PlainMove(s.threads[t], Closed(true))
  {
  }

  lemma FreedKeeps(s: State, t: Tid)
    requires Inv(s) && t == CLOSING_THREAD && s.threads[t].pc == Freeing && s.q.pool == []
    ensures Inv(StepFreeing(s, t))
  {
    hide NodesOk, LivesOk, ListsOk, WakeOk, HistoryOk, PairOk, CarryOk, ClientOk, StreamOk, CloserOk, PlainMove;
    FreedSelf(s, t);
    PlainStep(s, t, Closed(true));
  }
}
