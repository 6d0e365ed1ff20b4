/** Progress of the release protocol: no step reads outside a node, no signal is lost, no lock is waited for in
    vain, and shutdown is orderly. */
module ProtocolProgress {
  import opened Options
  import opened Bytes
  import opened StreamMessage
  import opened QueueSpec
  import opened Protocol
  import opened ProtocolInvariant
  import opened ProtocolSteps
  import opened ProtocolSafety
  import opened ProtocolHistory
  import opened ProtocolTheorems
  import opened ProtocolLastCall

  // ----- locks

  function Rank(l: Lock): nat {
    match l
    case RecvStream => 0
    case ReleaseStream => 0
    case _ => 1
  }

  /** Locks are taken in order of rank: a thread that holds an outer lock asks only for a list lock. */
  lemma LockOrder(pc: Pc)
    requires Outer(pc).Some? && Wants(pc).Some?
    ensures Rank(Outer(pc).value) < Rank(Wants(pc).value)
  {
  }

  /** A user callback, a wait for a signal and a wait for the stream thread hold no lock. */
  lemma CallbackHoldsNothing(th: Thread, l: Lock)
    requires th.pc.Callback? || th.pc.LoopWait? || th.pc.DrainWait? || th.pc.Joining? || th.pc.Idle?
    ensures !Holds(th, l)
  {
  }

  /** A thread that waits for something other than a lock, or for nothing at all. */
  predicate AtRest(s: State, t: Tid)
    requires t in s.threads
  {
    var pc := s.threads[t].pc;
    || pc.Idle? || pc.LoopWait? || pc.DrainWait? || pc.Exited? || pc.Closed?
    || (pc.Joining? && !(STREAM_THREAD in s.threads && s.threads[STREAM_THREAD].pc.Exited?))
  }

  /** A thread that is not at rest and has its lock can step. */
  lemma ReadySteps(s: State, t: Tid)
    requires Inv(s) && t in s.threads && !AtRest(s, t) && (Wants(s.threads[t].pc).Some? ==> s.threads[t].got)
    ensures CanStep(s, t)
  {
    hide NodesOk, LivesOk, HistoryOk, WakeOk, PairOk, NoDup, Wants;
    assert ThreadOk(s, t);
  }

  /** Some thread can take a lock or run a step. */
  ghost predicate SomeoneMoves(s: State) {
    exists u :: u in s.threads && (CanAcquire(s, u) || CanStep(s, u))
  }

  /** The holder of a list lock can step. */
  lemma ListHolderSteps(s: State, u: Tid, l: Lock)
    requires Inv(s) && u in s.threads && Holds(s.threads[u], l) && Rank(l) == 1
    ensures CanStep(s, u)
  {
    hide Inv, CanStep;
    ReadySteps(s, u);
  }

  /** The holder of any lock can step, or can take the list lock it needs, or waits for one whose holder can step. */
  lemma HolderMoves(s: State, u: Tid, l: Lock)
    requires Inv(s) && u in s.threads && Holds(s.threads[u], l)
    ensures SomeoneMoves(s)
  {
    hide Inv, CanStep;
    var th := s.threads[u];
    if Wants(th.pc).None? || th.got {
      ReadySteps(s, u);
    } else if !CanAcquire(s, u) {
      LockOrder(th.pc);
      var v :| v in s.threads && Holds(s.threads[v], Wants(th.pc).value);
      ListHolderSteps(s, v, Wants(th.pc).value);
    }
  }

  /** No deadlock: in every state of every run, if any thread is not at rest then some thread can move. */
  lemma NoDeadlock(run: seq<State>, acts: seq<Action>, i: nat, t: Tid)
    requires IsRun(run, acts) && i < |run| && t in run[i].threads && !AtRest(run[i], t)
    ensures SomeoneMoves(run[i])
  {
    hide Inv, CanStep, IsRun, Holds, Wants, AtRest;
    RunInv(run, acts, i);
    var s, th := run[i], run[i].threads[t];
    if Wants(th.pc).None? || th.got {
      ReadySteps(s, t);
    } else if !CanAcquire(s, t) {
      var v :| v in s.threads && Holds(s.threads[v], Wants(th.pc).value);
      HolderMoves(s, v, Wants(th.pc).value);
    }
  }

  /** Waiting for a lock never goes in a circle, and never behind a callback: its holder is at work, and can step, or
      can take the list lock it needs, or waits for one whose holder can step. */
  lemma WaitsAreShort(run: seq<State>, acts: seq<Action>, i: nat, t: Tid, u: Tid)
    requires IsRun(run, acts) && i < |run| && t in run[i].threads && u in run[i].threads && t != u
    requires var th := run[i].threads[t]; Wants(th.pc).Some? && Holds(run[i].threads[u], Wants(th.pc).value)
    ensures var s, pc := run[i], run[i].threads[u].pc;
            && !AtRest(s, u) && !pc.Callback? && !pc.Joining?
            && (CanStep(s, u) || CanAcquire(s, u)
                || (Wants(pc).Some?
                    && exists v :: v in s.threads && Holds(s.threads[v], Wants(pc).value) && CanStep(s, v)))
  {
    hide Inv, CanStep, IsRun, Wants, Outer;
    RunInv(run, acts, i);
    var s, th := run[i], run[i].threads[u];
    HolderWorks(s, u, Wants(run[i].threads[t].pc).value);
    if Wants(th.pc).None? || th.got {
      ReadySteps(s, u);
    } else if !CanAcquire(s, u) {
      LockOrder(th.pc);
      var v :| v in s.threads && Holds(s.threads[v], Wants(th.pc).value);
      ListHolderSteps(s, v, Wants(th.pc).value);
    }
  }

  lemma HolderWorks(s: State, u: Tid, l: Lock)
    requires u in s.threads && Holds(s.threads[u], l)
    ensures !AtRest(s, u) && !s.threads[u].pc.Callback? && !s.threads[u].pc.Joining?
  {
    if s.threads[u].pc.Callback? || AtRest(s, u) {
      CallbackHoldsNothing(s.threads[u], l);
    }
  }

  // ----- the nodes a step touches

  /** The nodes that the next step of a thread reads or writes: its own, and those of the lists it walks or links. */
  function Touched(s: State, pc: Pc): set<Addr> {
    match pc
    case EnqPop(_) => Elems(s.q.pool)
    case EnqPush(_, a) => {a} + Elems(s.q.recv)
    case RelCheck(_, _) => Elems(s.q.release)
    case RelSend(p) => {p}
    case RmvUnlink(p) => {p} + Elems(s.q.release)
    case RmvPush(p) => {p} + Elems(s.q.pool)
    case CntSet(_, _) => Elems(s.q.release)
    case LoopPop => Elems(s.q.recv)
    case StoPush(a) => {a} + Elems(s.q.release)
    case Receive(a) => {a}
    case DrainTest => Elems(s.q.release)
    case FrcPop => Elems(s.q.release)
    case FrcPush(a) => {a} + Elems(s.q.pool)
    case Freeing => Elems(s.q.pool)
    case _ => {}
  }

  /** The node that a thread's own step is about. */
  function OwnNode(pc: Pc): Option<Addr> {
    match pc
    case EnqPush(_, a) => Some(a)
    case RelSend(p) => Some(p)
    case RmvUnlink(p) => Some(p)
    case RmvPush(p) => Some(p)
    case StoPush(a) => Some(a)
    case Receive(a) => Some(a)
    case FrcPush(a) => Some(a)
    case _ => None
  }

  lemma OwnNodeLives(s: State, t: Tid)
    requires Inv(s) && t in s.threads && OwnNode(s.threads[t].pc).Some?
    ensures var a := OwnNode(s.threads[t].pc).value;
            a in s.nodes && a !in s.freed
  {
    hide NodesOk, LivesOk, HistoryOk, WakeOk, PairOk, NoDup, Serves;
    assert ThreadOk(s, t);
  }

  lemma ListedLive(s: State, a: Addr)
    requires Inv(s) && (a in s.q.pool || a in s.q.recv || a in s.q.release)
    ensures a in s.nodes && a !in s.freed
  {
    hide NodesOk, LivesOk, HistoryOk, WakeOk, ThreadsOk, NoDup;
  }

  lemma TouchedParts(s: State, pc: Pc, a: Addr)
    requires a in Touched(s, pc)
    ensures OwnNode(pc) == Some(a) || a in s.q.pool || a in s.q.recv || a in s.q.release
  {
  }

  /** No step reads or writes a node that is not allocated or is already freed: in every state of every run, and for
      every thread, the nodes its next step touches are allocated ones, none of them freed. */
  lemma TouchesLiveNodes(run: seq<State>, acts: seq<Action>, i: nat, t: Tid)
    requires IsRun(run, acts) && i < |run| && t in run[i].threads
    ensures var touched := Touched(run[i], run[i].threads[t].pc);
            touched <= run[0].nodes && forall a :: a in touched ==> a !in run[i].freed
  {
    hide Inv, IsRun, Touched, OwnNode;
    RunInv(run, acts, i);
    Conservation(run, acts, i);
    var s, pc := run[i], run[i].threads[t].pc;
    forall a | a in Touched(s, pc) ensures a in s.nodes && a !in s.freed {
      TouchedParts(s, pc, a);
      if OwnNode(pc) == Some(a) {
        OwnNodeLives(s, t);
      } else {
        ListedLive(s, a);
      }
    }
  }

  // ----- signals

  predicate LockFree(s: State, l: Lock) {
    forall t :: t in s.threads ==> !Holds(s.threads[t], l)
  }

  /** No lost wakeup: while the stream thread waits, unsignalled, and nobody holds the lock, there is nothing to
      wake it up for. */
  lemma NoLostWakeup(run: seq<State>, acts: seq<Action>, i: nat)
    requires IsRun(run, acts) && i < |run|
    ensures var s := run[i];
            && STREAM_THREAD in s.threads
            && var pc := s.threads[STREAM_THREAD].pc;
            && (pc == LoopWait && LockFree(s, RecvStream) ==> s.q.recv == [] && !s.stop)
            && (pc == DrainWait && LockFree(s, ReleaseStream) ==> s.q.release != [])
  {
    hide IsRun, ListsOk, NodesOk, LivesOk, ThreadsOk, HistoryOk;
    RunInv(run, acts, i);
    var s := run[i];
    forall t | t in s.threads && s.threads[t].pc.EnqSignal?
      ensures Holds(s.threads[t], RecvStream)
    {
    }
    forall t | t in s.threads && (s.threads[t].pc.RmvPush? || s.threads[t].pc.RmvSignal?)
      ensures Holds(s.threads[t], ReleaseStream)
    {
    }
  }

  // ----- shutdown

  /** The closing thread never waits in vain: while it joins a stream thread that has not ended, some thread can
      move, or the stream thread's timed wait can run out. */
  lemma JoinMakesProgress(run: seq<State>, acts: seq<Action>, i: nat)
    requires IsRun(run, acts) && i < |run| && CLOSING_THREAD in run[i].threads && STREAM_THREAD in run[i].threads
    requires run[i].threads[CLOSING_THREAD].pc == Joining && !run[i].threads[STREAM_THREAD].pc.Exited?
    ensures SomeoneMoves(run[i]) || Enabled(run[i], Timeout)
  {
    hide Inv, IsRun, CanStep, Role;
    RunInv(run, acts, i);
    var s := run[i];
    JoinFacts(s);
    if !s.threads[STREAM_THREAD].pc.DrainWait? {
      NoDeadlock(run, acts, i, STREAM_THREAD);
    }
  }

  lemma JoinFacts(s: State)
    requires Inv(s) && s.threads[CLOSING_THREAD].pc == Joining
    ensures s.stop && !s.threads[STREAM_THREAD].pc.LoopWait? && !s.threads[STREAM_THREAD].pc.Idle?
    ensures !s.threads[STREAM_THREAD].pc.Closed? && !s.threads[STREAM_THREAD].pc.Joining?
  {
    hide ListsOk, NodesOk, LivesOk, HistoryOk, PairOk, ClientOk, StreamOk;
    assert ThreadOk(s, CLOSING_THREAD) && ThreadOk(s, STREAM_THREAD);
  }

  lemma DrainingStep(s: State, t: Tid)
    requires CanStep(s, t) && STREAM_THREAD in s.threads && Draining(s.threads[STREAM_THREAD].pc)
    ensures STREAM_THREAD in Step(s, t).threads && Draining(Step(s, t).threads[STREAM_THREAD].pc)
  {
    hide CanStep, Step;
    if t == STREAM_THREAD {
      OwnDrainingStep(s);
    } else {
      StepMovesOne(s, t);
    }
  }

  lemma OwnDrainingStep(s: State)
    requires CanStep(s, STREAM_THREAD) && Draining(s.threads[STREAM_THREAD].pc)
    ensures STREAM_THREAD in Step(s, STREAM_THREAD).threads
    ensures Draining(Step(s, STREAM_THREAD).threads[STREAM_THREAD].pc)
  {
    hide Wants, PoolPush, ReleasePop;
  }

  /** The stream thread that has left its loop stays out of it. */
  lemma DrainingStays(s: State, act: Action)
    requires Inv(s) && Enabled(s, act) && STREAM_THREAD in s.threads && Draining(s.threads[STREAM_THREAD].pc)
    ensures STREAM_THREAD in Next(s, act).threads && Draining(Next(s, act).threads[STREAM_THREAD].pc)
  {
    hide Inv, Step, CanStep, Draining, Wants, Holds;
    StepFacts(s, STREAM_THREAD);
    if act.Run? {
      DrainingStep(s, act.t);
    } else {
      DrainingTells(s.threads[STREAM_THREAD].pc);
    }
  }

  lemma DrainingTells(pc: Pc)
    requires Draining(pc)
    ensures !pc.Idle? && !pc.LoopWait? && Draining(DrainEnter) && Draining(DrainLate)
  {
  }

  lemma {:induction false} DrainingFrom(run: seq<State>, acts: seq<Action>, i: nat, j: nat)
    requires IsRun(run, acts) && i <= j < |run|
    requires STREAM_THREAD in run[i].threads && Draining(run[i].threads[STREAM_THREAD].pc)
    ensures STREAM_THREAD in run[j].threads && Draining(run[j].threads[STREAM_THREAD].pc)
    decreases j
  {
    hide Inv, Draining, Enabled, Next, Init;
    if i < j {
      DrainingFrom(run, acts, i, j - 1);
      RunInv(run, acts, j - 1);
      DrainingStays(run[j - 1], acts[j - 1]);
    }
  }

  /** A stop is for good: from then on nothing is accepted, and once the stream thread has left its loop it stays out,
      and the receive queue stays empty. */
  lemma StopIsFinal(run: seq<State>, acts: seq<Action>, i: nat, j: nat)
    requires IsRun(run, acts) && i <= j < |run| && run[i].stop
    ensures run[j].stop && run[j].accepted == run[i].accepted
    ensures STREAM_THREAD in run[i].threads && STREAM_THREAD in run[j].threads
    ensures Draining(run[i].threads[STREAM_THREAD].pc) ==>
              Draining(run[j].threads[STREAM_THREAD].pc) && run[j].q.recv == []
  {
    RunInv(run, acts, i);
    DrainFacts(run[i]);
    if Draining(run[i].threads[STREAM_THREAD].pc) {
      DrainingFrom(run, acts, i, j);
    }
    hide Grows;
    RunGrows(run, acts, i, j);
    RunInv(run, acts, j);
    DrainFacts(run[j]);
    assert run[j].stop by {
      StopStays(run[i], run[j]);
    }
  }

  lemma DrainFacts(s: State)
    requires Inv(s)
    ensures STREAM_THREAD in s.threads
    ensures Draining(s.threads[STREAM_THREAD].pc) ==> s.stop && s.q.recv == []
    ensures Drained(s.threads[STREAM_THREAD].pc) ==>
              s.q.release == [] && forall a :: a in s.nodes ==> a in s.q.pool || a in s.freed
  {
    hide NodesOk, LivesOk, HistoryOk, PairOk, ClientOk, CloserOk, CarryOk, WakeOk, NodeOk;
    assert ThreadOk(s, STREAM_THREAD);
    if Drained(s.threads[STREAM_THREAD].pc) {
      forall a | a in s.nodes
        ensures a in s.q.pool || a in s.freed
      {
        HomeNode(s, a);
      }
    }
  }

  lemma HomeNode(s: State, a: Addr)
    requires Shape(s) && NodesOk(s) && a in s.nodes && s.place[a] in {InPool, Freed}
    ensures a in s.q.pool || a in s.freed
  {
    assert NodeOk(s, a);
  }

  /** When the release wait has returned 0: every accepted message was called back, released and recycled; every
      node is back in the pool or already freed; and the forced removal has nothing to remove. */
  lemma DrainedMeansDone(run: seq<State>, acts: seq<Action>, i: nat)
    requires IsRun(run, acts) && i < |run| && STREAM_THREAD in run[i].threads
    requires Drained(run[i].threads[STREAM_THREAD].pc)
    ensures var s := run[i];
            && s.q.recv == [] && s.q.release == []
            && Elems(s.q.pool) + Elems(s.freed) == s.nodes && |s.q.pool| + |s.freed| == STREAM_QUEUE_SIZE
            && (forall k :: 0 <= k < |s.lives| ==> s.lives[k].stage == Recycled && s.lives[k].sent)
  {
    RunInv(run, acts, i);
    Conservation(run, acts, i);
    var s := run[i];
    DrainFacts(s);
    DrainedConserved(s);
    hide Inv, IsRun, Conserved;
    forall k | 0 <= k < |s.lives|
      ensures s.lives[k].stage == Recycled && s.lives[k].sent
    {
      DrainedLife(s, k);
    }
  }

  lemma DrainedConserved(s: State)
    requires Conserved(s) && s.q.recv == [] && s.q.release == []
    requires forall a :: a in s.nodes ==> a in s.q.pool || a in s.freed
    ensures Elems(s.q.pool) + Elems(s.freed) == s.nodes && |s.q.pool| + |s.freed| == |s.nodes|
  {
    hide InHand;
    assert s.nodes == Elems(s.q.pool) + Elems(s.freed);
    assert InHand(s) == InHand(s) * s.nodes == {};
  }

  lemma DrainedLife(s: State, k: nat)
    requires Inv(s) && k < |s.lives| && Drained(s.threads[STREAM_THREAD].pc)
    ensures s.lives[k].stage == Recycled && s.lives[k].sent
  {
    hide NodesOk, HistoryOk, PairOk, ClientOk, CloserOk, CarryOk, WakeOk, CountsDown;
    assert ThreadOk(s, STREAM_THREAD) && LifeOk(s, k);
  }

  /** Closing after a drained stream frees exactly the 128 nodes that were allocated, each once. */
  lemma CloseFreesAll(run: seq<State>, acts: seq<Action>, i: nat)
    requires IsRun(run, acts) && i < |run| && STREAM_THREAD in run[i].threads && CLOSING_THREAD in run[i].threads
    requires run[i].threads[STREAM_THREAD].pc == Exited(true) && run[i].threads[CLOSING_THREAD].pc.Closed?
    ensures var s := run[i];
            && s.threads[CLOSING_THREAD].pc == Closed(true)
            && Elems(s.freed) == run[0].nodes && |s.freed| == STREAM_QUEUE_SIZE && NoDup(s.freed)
  {
    RunInv(run, acts, i);
    DrainedMeansDone(run, acts, i);
    Conservation(run, acts, i);
    ClosedFacts(run[i]);
    assert Elems(run[i].q.pool) == {};
  }

  lemma ClosedFacts(s: State)
    requires Inv(s) && s.threads[STREAM_THREAD].pc == Exited(true) && s.threads[CLOSING_THREAD].pc.Closed?
    ensures s.threads[CLOSING_THREAD].pc == Closed(true) && s.q.pool == [] && NoDup(s.freed)
  {
    hide NodesOk, LivesOk, HistoryOk, PairOk, ClientOk, CarryOk, WakeOk;
    assert ThreadOk(s, CLOSING_THREAD);
  }

  lemma DroppedListed(s: State, k: nat)
    requires Inv(s) && k < |s.lives| && s.lives[k].stage == Dropped
    ensures s.lives[k].node in s.q.release
  {
    hide HistoryOk, ThreadsOk, WakeOk, CallsOk;
    assert LifeOk(s, k) && NodeOk(s, s.lives[k].node);
  }

  lemma UndeliverableLife(s: State, k: nat)
    requires Inv(s) && k < |s.lives| && !Deliverable(s.accepted[k])
    ensures s.lives[k].stage !in {Called, Recycled}
    ensures !s.lives[k].sent && s.lives[k].results == []
  {
    hide ListsOk, NodesOk, ThreadsOk, HistoryOk, WakeOk;
    assert LifeOk(s, k);
    BoundedSize(s.lives[k].counted, s.lives[k].begun);
  }

  /** A message that is accepted but that no callback takes - its magic or its sub-command is unknown - is never
      called back, never released and never recycled, and from then on the release wait never returns 0. */
  lemma UndeliverableBlocksDrain(run: seq<State>, acts: seq<Action>, i: nat, j: nat, k: nat)
    requires IsRun(run, acts) && i <= j < |run| && k < |run[i].accepted| && !Deliverable(run[i].accepted[k])
    ensures k < |run[j].lives| && run[j].lives[k].stage !in {Called, Recycled}
    ensures run[j].lives[k].stage == Dropped ==> run[j].lives[k].node in run[j].q.release
    ensures |Sendings(run[j].wire, OfAccepted(k))| == 0
    ensures STREAM_THREAD in run[j].threads && !Drained(run[j].threads[STREAM_THREAD].pc)
  {
    hide Inv, IsRun, Deliverable, Drained, CountsDown;
    RunGrows(run, acts, i, j);
    RunInv(run, acts, j);
    AcceptedStays(run[i], run[j], k);
    UndeliverableLife(run[j], k);
    if run[j].lives[k].stage == Dropped {
      DroppedListed(run[j], k);
    }
    ReleasedOnce(run, acts, j, k);
    DrainFacts(run[j]);
    if Drained(run[j].threads[STREAM_THREAD].pc) {
      DrainedLife(run[j], k);
    }
  }

  lemma AcceptedStays(s: State, s': State, k: nat)
    requires Grows(s, s') && Inv(s') && k < |s.accepted|
    ensures k < |s'.accepted| && s'.accepted[k] == s.accepted[k] && k < |s'.lives|
  {
    hide ListsOk, NodesOk, LivesOk, ThreadsOk, HistoryOk, WakeOk;
  }

  /** The release wait returns 0 exactly when every accepted message has been called back, released and recycled. */
  lemma WaitReturnsIff(run: seq<State>, acts: seq<Action>, i: nat)
    requires IsRun(run, acts) && i < |run| && STREAM_THREAD in run[i].threads
    requires run[i].threads[STREAM_THREAD] == Thread(DrainTest, true)
    ensures var s := run[i];
            && CanStep(s, STREAM_THREAD) && STREAM_THREAD in Step(s, STREAM_THREAD).threads
            && (Step(s, STREAM_THREAD).threads[STREAM_THREAD].pc == FrcEnter
                <==> forall k :: 0 <= k < |s.lives| ==> s.lives[k].stage == Recycled)
            && (Step(s, STREAM_THREAD).threads[STREAM_THREAD].pc in {FrcEnter, DrainWait})
  {
    hide Inv, IsRun;
    RunInv(run, acts, i);
    var s := run[i];
    if s.q.release == [] {
      forall k | 0 <= k < |s.lives| ensures s.lives[k].stage == Recycled {
        UnlistedLife(s, k);
      }
    } else {
      ListedLife(s, s.q.release[0]);
    }
  }

  lemma UnlistedLife(s: State, k: nat)
    requires Inv(s) && k < |s.lives| && s.threads[STREAM_THREAD].pc.DrainTest? && s.q.release == []
    ensures s.lives[k].stage == Recycled
  {
    hide HistoryOk, PairOk, ClientOk, CloserOk, CarryOk, WakeOk, CallsOk, HoldsMessage;
    assert LifeOk(s, k) && NodeOk(s, s.lives[k].node) && ThreadOk(s, STREAM_THREAD);
  }

  lemma ListedLife(s: State, a: Addr)
    requires Inv(s) && a in s.q.release
    ensures a in s.q.cells && HasLife(s, a) && LifeOf(s, a).stage != Recycled
  {
    hide LivesOk, ThreadsOk, HistoryOk, WakeOk, HoldsMessage, NoDup;
    assert a in s.nodes && NodeOk(s, a);
  }
}
