/** The steps of the receiver keep the invariant: enqueue_recv_command and the refusal of a message. */
module ProtocolEnqueue {
  import opened Options
  import opened Bytes
  import opened StreamMessage
  import opened QueueSpec
  import opened Protocol
  import opened ProtocolInvariant
  import opened ProtocolFrames
  import opened ProtocolSteps

  // ----- the pool is popped

  lemma EnqPopData(s: State, t: Tid, m: Msg)
    requires Shape(s) && ListsOk(s) && NodesOk(s) && s.q.pool != []
    requires t in s.threads && s.threads[t].pc == EnqPop(m)
    ensures var s' := StepEnqPop(s, t, m); Shape(s') && ListsOk(s') && NodeOk(s', s.q.pool[0])
  {
    assert NodeOk(s, s.q.pool[0]);
  }

  lemma EnqPopThread(s: State, t: Tid, m: Msg)
    requires Shape(s) && ListsOk(s) && s.q.pool != [] && NodeOk(s, s.q.pool[0])
    requires t in s.threads && s.threads[t].pc == EnqPop(m) && ThreadOk(s, t) && WakeOk(s) && HistoryOk(s)
    ensures Shape(StepEnqPop(s, t, m)) && ThreadOk(StepEnqPop(s, t, m), t) && t != STREAM_THREAD
  {
    hide WakeOk, HistoryOk, NoDup;
  }

  lemma EnqPopSelf(s: State, t: Tid, m: Msg)
    requires Shape(s) && ListsOk(s) && s.q.pool != [] && NodeOk(s, s.q.pool[0])
    requires t in s.threads && s.threads[t].pc == EnqPop(m) && ThreadOk(s, t) && WakeOk(s) && HistoryOk(s)
    ensures var s' := StepEnqPop(s, t, m); Shape(s') && ThreadOk(s', t) && WakeOk(s') && HistoryOk(s')
  {
    hide Shape, ListsOk, NodeOk, ThreadOk, WakeOk, HistoryOk;
    var s' := StepEnqPop(s, t, m);
    EnqPopThread(s, t, m);
    WakeFrame(s, s', t);
    HistoryFrame(s, s');
  }

  lemma EnqPopFrame(s: State, t: Tid, m: Msg)
    requires Shape(s) && ListsOk(s) && s.q.pool != [] && Shape(StepEnqPop(s, t, m))
    requires t in s.threads && s.threads[t].pc == EnqPop(m) && ThreadOk(s, t) && ThreadOk(s, STREAM_THREAD)
    ensures NodeStep(s, StepEnqPop(s, t, m), t, s.q.pool[0], |s.lives|)
  {
    hide NoDup, ClientOk, CloserOk, Serves, HoldsMessage;
  }

  lemma EnqPopGives(s: State, t: Tid, m: Msg)
    requires Inv(s) && s.q.pool != [] && t in s.threads && s.threads[t] == Thread(EnqPop(m), true)
    ensures ThreadOk(s, t) && ThreadOk(s, STREAM_THREAD) && s.q.pool[0] in s.nodes && NodeOk(s, s.q.pool[0])
    ensures s.place[s.q.pool[0]] == InPool
    ensures GivesUp(s.threads[t], StepEnqPop(s, t, m).threads[t])
  {
    hide LivesOk, WakeOk, HistoryOk, ThreadOk, NodeOk, PairOk;
  }

  lemma EnqPopKeeps(s: State, t: Tid, m: Msg)
    requires Inv(s) && s.q.pool != [] && t in s.threads && s.threads[t] == Thread(EnqPop(m), true)
    ensures Inv(StepEnqPop(s, t, m))
  {
    hide NodesOk, LivesOk, ListsOk, WakeOk, HistoryOk, ThreadOk, NodeOk, NodeStep, NotSubject, NoNewClaims, GivesUp,
      PairOk;
    var s', a := StepEnqPop(s, t, m), s.q.pool[0];
    EnqPopGives(s, t, m);
    EnqPopData(s, t, m);
    EnqPopSelf(s, t, m);
    EnqPopFrame(s, t, m);
    NoSubject(s, t, a);
    ClaimsKept(s, t, s'.threads[t]);
    OwnNodeStep(s, s', t, a, |s.lives|);
  }

  // ----- the receive queue is pushed

  lemma EnqPushShape(s: State, t: Tid, m: Msg, a: Addr)
    requires Shape(s) && ListsOk(s) && t in s.threads && s.threads[t].pc == EnqPush(m, a) && CarryOk(s, t)
    ensures Shape(StepEnqPush(s, t, m, a))
  {
  }

  lemma EnqPushLists(s: State, t: Tid, m: Msg, a: Addr)
    requires Shape(s) && ListsOk(s) && t in s.threads && s.threads[t].pc == EnqPush(m, a) && CarryOk(s, t)
    ensures var s' := StepEnqPush(s, t, m, a); Shape(s') && ListsOk(s')
  {
    hide Shape;
    EnqPushShape(s, t, m, a);
  }

  lemma EnqPushNode(s: State, t: Tid, m: Msg, a: Addr)
    requires Shape(s) && t in s.threads && s.threads[t].pc == EnqPush(m, a) && CarryOk(s, t)
    requires Shape(StepEnqPush(s, t, m, a))
    ensures var s' := StepEnqPush(s, t, m, a); NodeOk(s', a) && LifeOk(s', |s.lives|)
  {
    var s' := StepEnqPush(s, t, m, a);
    assert LifeOk(s', |s.lives|);
    hide LifeOk;
    assert s'.q.recv[|s.q.recv|] == a;
  }

  lemma EnqPushThread(s: State, t: Tid, m: Msg, a: Addr)
    requires Shape(s) && t in s.threads && s.threads[t].pc == EnqPush(m, a) && CarryOk(s, t) && CloserOk(s, t)
    requires HistoryOk(s) && WakeOk(s) && Shape(StepEnqPush(s, t, m, a))
    ensures ThreadOk(StepEnqPush(s, t, m, a), t)
  {
    hide WakeOk, HistoryOk, Fill, NoDup, HoldsMessage;
  }

  lemma EnqPushWake(s: State, t: Tid, m: Msg, a: Addr)
    requires Shape(s) && t in s.threads && s.threads[t].pc == EnqPush(m, a) && CarryOk(s, t) && CloserOk(s, t)
    requires HistoryOk(s) && WakeOk(s) && Shape(StepEnqPush(s, t, m, a))
    ensures WakeOk(StepEnqPush(s, t, m, a))
  {
    hide HistoryOk, WakeOk, ThreadOk, CloserOk, HoldsMessage;
    WakeFrame(s, StepEnqPush(s, t, m, a), t);
  }

  lemma EnqPushSelf(s: State, t: Tid, m: Msg, a: Addr)
    requires Shape(s) && t in s.threads && s.threads[t].pc == EnqPush(m, a) && CarryOk(s, t) && CloserOk(s, t)
    requires HistoryOk(s) && WakeOk(s) && Shape(StepEnqPush(s, t, m, a))
    ensures var s' := StepEnqPush(s, t, m, a); ThreadOk(s', t) && WakeOk(s') && HistoryOk(s')
  {
    hide WakeOk, ThreadOk, Fill, CloserOk, HoldsMessage;
    EnqPushThread(s, t, m, a);
    EnqPushWake(s, t, m, a);
    var s' := StepEnqPush(s, t, m, a);
    assert s'.accepted[..Dispatched(s')] == s.accepted[..Dispatched(s)];
    forall i | 0 <= i < |s'.wire|
      ensures WireOk(s', s'.wire[i])
    {
      assert WireOk(s, s.wire[i]);
    }
  }

  lemma EnqPushFrame(s: State, t: Tid, m: Msg, a: Addr)
    requires Shape(s) && t in s.threads && s.threads[t].pc == EnqPush(m, a)
    requires ThreadOk(s, t) && ThreadOk(s, STREAM_THREAD) && Shape(StepEnqPush(s, t, m, a))
    ensures NodeStep(s, StepEnqPush(s, t, m, a), t, a, |s.lives|)
  {
    hide ClientOk, CloserOk, Serves, HoldsMessage;
  }

  lemma EnqPushGives(s: State, t: Tid, m: Msg, a: Addr)
    requires Inv(s) && t in s.threads && s.threads[t] == Thread(EnqPush(m, a), true)
    ensures ThreadOk(s, t) && ThreadOk(s, STREAM_THREAD) && CarryOk(s, t) && CloserOk(s, t)
    ensures a in s.nodes && a in s.q.cells && |m| <= COMMAND_MAX && s.place[a] == With(t) && Vacant(s, a)
    ensures GivesUp(s.threads[t], StepEnqPush(s, t, m, a).threads[t])
  {
    hide NodesOk, LivesOk, ListsOk, WakeOk, HistoryOk, PairOk, ClientOk, StreamOk;
    assert ThreadOk(s, t);
  }

  lemma EnqPushKeeps(s: State, t: Tid, m: Msg, a: Addr)
    requires Inv(s) && t in s.threads && s.threads[t] == Thread(EnqPush(m, a), true)
    ensures a in s.q.cells && |m| <= COMMAND_MAX && Inv(StepEnqPush(s, t, m, a))
  {
    hide NodesOk, LivesOk, ListsOk, WakeOk, HistoryOk, ThreadOk, NodeOk, LifeOk, NodeStep, NotSubject, NoNewClaims,
      GivesUp, Vacant, CarryOk, CloserOk, PairOk;
    EnqPushGives(s, t, m, a);
    EnqPushLists(s, t, m, a);
    EnqPushNode(s, t, m, a);
    EnqPushSelf(s, t, m, a);
    EnqPushFrame(s, t, m, a);
    NoSubject(s, t, a);
    ClaimsKept(s, t, StepEnqPush(s, t, m, a).threads[t]);
    OwnNodeStep(s, StepEnqPush(s, t, m, a), t, a, |s.lives|);
  }

  // ----- the stream thread is signalled

  lemma EnqSignalThread(s: State, t: Tid)
    requires Shape(s) && WakeOk(s) && t in s.threads && s.threads[t].pc == EnqSignal && ThreadOk(s, t)
    ensures Shape(SignalRecv(Go(s, t, Idle))) && ThreadOk(SignalRecv(Go(s, t, Idle)), t)
  {
    hide WakeOk;
  }

  lemma EnqSignalSelf(s: State, t: Tid)
    requires Shape(s) && WakeOk(s) && t in s.threads && s.threads[t].pc == EnqSignal && ThreadOk(s, t)
    ensures var s' := SignalRecv(Go(s, t, Idle));
            GivesUp(s.threads[t], s'.threads[t]) && OnlyThreads(s, s', t) && Shape(s') && ThreadOk(s', t)
  {
    hide WakeOk, ThreadOk;
    EnqSignalThread(s, t);
  }

  lemma EnqSignalWake(s: State, t: Tid)
    requires Shape(s) && WakeOk(s) && t in s.threads && s.threads[t].pc == EnqSignal && Role(t, EnqSignal)
    requires Shape(SignalRecv(Go(s, t, Idle)))
    ensures WakeOk(SignalRecv(Go(s, t, Idle)))
  {
    var s' := SignalRecv(Go(s, t, Idle));
    if s'.threads[STREAM_THREAD].pc.DrainWait? && s.q.release == [] {
      var u :| u in s.threads && (s.threads[u].pc.RmvPush? || s.threads[u].pc.RmvSignal?);
      assert s'.threads[u].pc == s.threads[u].pc;
    }
  }

  lemma EnqSignalKeeps(s: State, t: Tid)
    requires Inv(s) && t in s.threads && s.threads[t].pc == EnqSignal
    ensures Inv(SignalRecv(Go(s, t, Idle)))
  {
    var s' := SignalRecv(Go(s, t, Idle));
    assert ThreadOk(s, t) && Role(t, EnqSignal);
    assert t != STREAM_THREAD && Carried(s'.threads[t].pc) == Carried(s.threads[t].pc) == None;
    hide ListsOk, NodesOk, LivesOk, ThreadOk, PairOk, HistoryOk, WakeOk, NoNewClaims, GivesUp, ThreadKept,
      OnlyThreads, Role, SignalRecv, Shape;
    EnqSignalSelf(s, t);
    EnqSignalWake(s, t);
    MoveOwn(s, s', t);
  }

  // ----- a message is refused

  lemma RefuseWires(s: State, t: Tid, m: Msg)
    requires Shape(s) && HistoryOk(s) && t in s.threads && Shape(StepRefuse(s, t, m))
    ensures var s' := StepRefuse(s, t, m);
            && (forall i :: 0 <= i < |s.wire| ==> WireOk(s', s.wire[i]) && s.wire[i].origin != OfRefused(|s.refused|))
            && (ValidMagic(m) ==> WireOk(s', s'.wire[|s.wire|]))
  {
    hide Dispatched, Delivered, OriginsDiffer, SentFor, ReleaseOf, Converted, Stored;
    forall i | 0 <= i < |s.wire|
      ensures WireOk(StepRefuse(s, t, m), s.wire[i]) && s.wire[i].origin != OfRefused(|s.refused|)
    {
      assert WireOk(s, s.wire[i]);
    }
  }

  /** What a refusal leaves as it was. */
  lemma RefuseKept(s: State, t: Tid, m: Msg)
    requires Shape(s) && t in s.threads && s.threads[t].pc == Refuse(m) && CarryOk(s, t)
    ensures var s' := StepRefuse(s, t, m);
            && Shape(s') && Dispatched(s') == Dispatched(s) && s'.calls == s.calls && s'.accepted == s.accepted
            && s'.lives == s.lives && s'.conv == s.conv
  {
    hide ReleaseOf, ValidMagic;
  }

  lemma RefuseHistory(s: State, t: Tid, m: Msg)
    requires Shape(s) && HistoryOk(s) && t in s.threads && s.threads[t].pc == Refuse(m) && ThreadOk(s, t)
    ensures var s' := StepRefuse(s, t, m); Shape(s') && HistoryOk(s')
  {
    hide Shape, CarryOk, ClientOk, StreamOk, CloserOk, WireOk, SentFor, OriginsDiffer, Delivered, Dispatched, ReleaseOf,
      ValidMagic;
    RefuseKept(s, t, m);
    RefuseWires(s, t, m);
    if ValidMagic(m) {
      var w := Wire(OfRefused(|s.refused|), ReleaseOf(m));
      SentGrows(s.wire, w);
      OriginsGrow(s.wire, w);
    }
  }

  lemma RefuseSelf(s: State, t: Tid, m: Msg)
    requires Shape(s) && WakeOk(s) && t in s.threads && s.threads[t].pc == Refuse(m) && ThreadOk(s, t)
    ensures var s' := StepRefuse(s, t, m);
            && GivesUp(s.threads[t], s'.threads[t]) && OnlyThreads(s, s', t) && Shape(s') && ThreadOk(s', t)
            && WakeOk(s')
  {
    hide WakeOk;
    WakeFrame(s, StepRefuse(s, t, m), t);
  }

  lemma RefuseKeeps(s: State, t: Tid, m: Msg)
    requires Inv(s) && t in s.threads && s.threads[t].pc == Refuse(m)
    ensures Inv(StepRefuse(s, t, m))
  {
    var s' := StepRefuse(s, t, m);
    assert ThreadOk(s, t) && Role(t, Refuse(m));
    assert t != STREAM_THREAD && Carried(s'.threads[t].pc) == Carried(s.threads[t].pc) == None;
    hide ListsOk, NodesOk, LivesOk, ThreadOk, PairOk, HistoryOk, WakeOk, NoNewClaims, GivesUp, ThreadKept,
      OnlyThreads, Role, StepRefuse, Shape;
    RefuseSelf(s, t, m);
    RefuseHistory(s, t, m);
    MoveOwn(s, s', t);
  }
}
