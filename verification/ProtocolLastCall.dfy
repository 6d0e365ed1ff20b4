/** The last counted call is always carried through: a message whose count has run out is either being released
    by exactly one thread, or released and recycled. */
module ProtocolLastCall {
  import opened Options
  import opened Bytes
  import opened StreamMessage
  import opened QueueSpec
  import opened Protocol
  import opened ProtocolInvariant
  import opened ProtocolFrames
  import opened ProtocolSteps
  import opened ProtocolRelease
  import opened ProtocolSafety
  import opened ProtocolHistory
  import opened ProtocolTheorems

  /** The count has run out and the node is still listed. */
  predicate RunOut(l: Life) {
    l.stage == Called && |l.results| == l.quota
  }

  predicate BeingClosed(s: State, a: Addr) {
    exists t :: t in s.threads && Closing(s.threads[t].pc) == Some(a)
  }

  ghost predicate LastCallsOk(s: State) {
    forall k :: 0 <= k < |s.lives| && RunOut(s.lives[k]) ==> BeingClosed(s, s.lives[k].node)
  }

  /** Thread `t` takes no message to the end of its count, except one that it goes on to close itself. */
  ghost predicate ClosesOwn(s: State, s': State, t: Tid) {
    && t in s.threads && t in s'.threads
    && forall k :: 0 <= k < |s'.lives| && RunOut(s'.lives[k]) ==>
         || Closing(s'.threads[t].pc) == Some(s'.lives[k].node)
         || (k < |s.lives| && RunOut(s.lives[k]) && s.lives[k].node == s'.lives[k].node
             && Closing(s.threads[t].pc) != Some(s.lives[k].node))
  }

  lemma LastCallsKept(s: State, s': State, t: Tid)
    requires LastCallsOk(s) && OthersWoken(s, s', t) && ClosesOwn(s, s', t)
    ensures LastCallsOk(s')
  {
    forall k | 0 <= k < |s'.lives| && RunOut(s'.lives[k])
      ensures BeingClosed(s', s'.lives[k].node)
    {
      if Closing(s'.threads[t].pc) != Some(s'.lives[k].node) {
        var u :| u in s.threads && Closing(s.threads[u].pc) == Some(s.lives[k].node);
        assert Woken(s.threads[u], s'.threads[u]);
      }
    }
  }

  /** A step of a thread that is not closing any message, and that makes no life run out, is no concern. */
  lemma ClosesNothing(s: State, s': State, t: Tid)
    requires t in s.threads && t in s'.threads && |s.lives| <= |s'.lives|
    requires Closing(s.threads[t].pc) in {None, Closing(s'.threads[t].pc)}
    requires forall k :: 0 <= k < |s.lives| ==> s'.lives[k].node == s.lives[k].node
    requires forall k :: 0 <= k < |s'.lives| && RunOut(s'.lives[k]) ==> k < |s.lives| && RunOut(s.lives[k])
    ensures ClosesOwn(s, s', t)
  {
  }

  lemma TargetClosesOwn(s: State, t: Tid)
    requires CanStep(s, t)
    requires var pc := s.threads[t].pc;
             Target(s, pc).Some?
    ensures ClosesOwn(s, Step(s, t), t)
  {
    hide ClosesOwn, Fill, ReleaseOf, ValidMagic, Outer, Holds;
    ClosesNothing(s, Step(s, t), t);
  }

  lemma ReceiverClosesOwn(s: State, t: Tid)
    requires CanStep(s, t)
    requires var pc := s.threads[t].pc;
             pc.EnqPop? || pc.EnqPush? || pc.EnqSignal? || pc.Refuse?
    ensures ClosesOwn(s, Step(s, t), t)
  {
    hide ClosesOwn, Fill, ReleaseOf, ValidMagic, Outer, Holds;
    ClosesNothing(s, Step(s, t), t);
  }

  lemma PlainClosesOwn(s: State, t: Tid)
    requires CanStep(s, t)
    requires var pc := s.threads[t].pc;
             pc.RmvPush? || pc.RmvSignal? || pc.LoopPop? || pc.DrainTest?
    ensures ClosesOwn(s, Step(s, t), t)
  {
    hide ClosesOwn, Fill, ReleaseOf, ValidMagic, Outer, Holds;
    ClosesNothing(s, Step(s, t), t);
  }

  lemma DrainClosesOwn(s: State, t: Tid)
    requires CanStep(s, t)
    requires var pc := s.threads[t].pc;
             pc.FrcPop? || pc.FrcPush? || pc.FrcSignal? || pc.CloseEnter? || pc.Freeing?
    ensures ClosesOwn(s, Step(s, t), t)
  {
    hide ClosesOwn, Fill, ReleaseOf, ValidMagic, Outer, Holds;
    ClosesNothing(s, Step(s, t), t);
  }

  lemma StreamClosesOwn(s: State, t: Tid)
    requires CanStep(s, t) && (s.threads[t].pc.StoPush? || s.threads[t].pc.Receive?)
    requires s.threads[t].pc.Receive? ==>
               var l := LifeOf(s, s.threads[t].pc.a); |l.results| < l.quota
    ensures ClosesOwn(s, Step(s, t), t)
  {
    hide ClosesOwn, Store, Translate, Deliverable, Converted, Outer, Holds;
    ClosesNothing(s, Step(s, t), t);
  }

  lemma ReleaserClosesOwn(s: State, t: Tid)
    requires CanStep(s, t) && (s.threads[t].pc.RelSend? || s.threads[t].pc.RmvUnlink?)
    requires HasLife(s, s.threads[t].pc.p) && LifeOf(s, s.threads[t].pc.p).node == s.threads[t].pc.p
    requires OthersElsewhere(s, s.threads[t].pc.p, s.owner[s.threads[t].pc.p])
    ensures ClosesOwn(s, Step(s, t), t)
  {
    hide ReleaseOf, Outer, Holds;
  }

  lemma CounterClosesOwn(s: State, t: Tid)
    requires CanStep(s, t) && (s.threads[t].pc.RelCheck? || s.threads[t].pc.CntSet?)
    requires s.threads[t].pc.p in s.q.release ==>
               var p, l := s.threads[t].pc.p, LifeOf(s, s.threads[t].pc.p);
               && l.node == p && (s.threads[t].pc.CntSet? ==> |l.results| < s.threads[t].pc.n)
               && (s.threads[t].pc.RelCheck? ==> s.q.cells[p].counter == l.quota - |l.results|)
    ensures ClosesOwn(s, Step(s, t), t)
  {
    hide Outer, Holds;
  }

  lemma TargetMovesOne(s: State, t: Tid)
    requires CanStep(s, t)
    requires var pc := s.threads[t].pc;
             Target(s, pc).Some?
    ensures OthersWoken(s, Step(s, t), t)
  {
    hide Target, Holds, Outer, Wants;
  }

  lemma ReceiverMovesOne(s: State, t: Tid)
    requires CanStep(s, t)
    requires var pc := s.threads[t].pc;
             pc.EnqPop? || pc.EnqPush? || pc.EnqSignal? || pc.Refuse?
    ensures OthersWoken(s, Step(s, t), t)
  {
    hide ReleaseOf, Fill, ValidMagic, Holds, Outer, SetCounter, PoolPush, PoolPop, RecvPush, ReleaseRemove, FreshLife;
  }

  lemma ReleaserMovesOne(s: State, t: Tid)
    requires CanStep(s, t)
    requires var pc := s.threads[t].pc;
             pc.RelCheck? || pc.RelSend? || pc.RmvUnlink? || pc.RmvPush? || pc.RmvSignal? || pc.CntSet?
    ensures OthersWoken(s, Step(s, t), t)
  {
    hide ReleaseOf, Fill, ValidMagic, Holds, Outer, SetCounter, PoolPush, PoolPop, RecvPush, ReleaseRemove, FreshLife;
  }

  lemma LoopMovesOne(s: State, t: Tid)
    requires CanStep(s, t)
    requires var pc := s.threads[t].pc; pc.LoopPop? || pc.StoPush? || pc.Receive?
    ensures OthersWoken(s, Step(s, t), t)
  {
    hide Deliverable, Converted, Translate, Store, Holds, Outer, RecvPop;
  }

  lemma DrainMovesOne(s: State, t: Tid)
    requires CanStep(s, t)
    requires var pc := s.threads[t].pc;
             pc.DrainTest? || pc.FrcPop? || pc.FrcPush? || pc.FrcSignal?
    ensures OthersWoken(s, Step(s, t), t)
  {
    hide Holds, Outer, PoolPush, PoolPop, ReleasePop;
  }

  lemma CloseMovesOne(s: State, t: Tid)
    requires CanStep(s, t)
    requires var pc := s.threads[t].pc;
             pc.CloseEnter? || pc.Freeing?
    ensures OthersWoken(s, Step(s, t), t)
  {
    hide Holds, Outer, PoolPush, PoolPop, ReleasePop;
  }

  lemma StepMovesOne(s: State, t: Tid)
    requires CanStep(s, t)
    ensures OthersWoken(s, Step(s, t), t)
  {
    hide Step, OthersWoken, Holds, Outer, Wants;
    var pc := s.threads[t].pc;
    if Target(s, pc).Some? {
      TargetMovesOne(s, t);
    } else if pc.EnqPop? || pc.EnqPush? || pc.EnqSignal? || pc.Refuse? {
      ReceiverMovesOne(s, t);
    } else if pc.RelCheck? || pc.RelSend? || pc.RmvUnlink? || pc.RmvPush? || pc.RmvSignal? || pc.CntSet? {
      ReleaserMovesOne(s, t);
    } else if pc.DrainTest? || pc.FrcPop? || pc.FrcPush? || pc.FrcSignal? {
      DrainMovesOne(s, t);
    } else if pc.LoopPop? || pc.StoPush? || pc.Receive? {
      LoopMovesOne(s, t);
    } else {
      CloseMovesOne(s, t);
    }
  }

  /** What the invariant says of the life that a step is about. */
  lemma StepLife(s: State, t: Tid)
    requires Inv(s) && CanStep(s, t)
    ensures var pc := s.threads[t].pc;
            && (pc.Receive? ==> |LifeOf(s, pc.a).results| < LifeOf(s, pc.a).quota)
            && (pc.RelSend? || pc.RmvUnlink? ==>
                  LifeOf(s, pc.p).node == pc.p && OthersElsewhere(s, pc.p, s.owner[pc.p]))
            && (pc.CntSet? ==> pc.p in s.q.cells && HasLife(s, pc.p)
                               && LifeOf(s, pc.p).node == pc.p && |LifeOf(s, pc.p).results| < pc.n)
            && (pc.RelCheck? && pc.p in s.q.release ==>
                  && LifeOf(s, pc.p).node == pc.p
                  && s.q.cells[pc.p].counter == LifeOf(s, pc.p).quota - |LifeOf(s, pc.p).results|)
  {
    hide HistoryOk, WakeOk, PairOk, OthersElsewhere, CountsDown, HoldsMessage, ListsOk;
    assert ThreadOk(s, t) && ThreadOk(s, STREAM_THREAD);
    var pc := s.threads[t].pc;
    if pc.Receive? {
      NoCallsYet(s, s.owner[pc.a]);
    } else if pc.RelSend? || pc.RmvUnlink? {
      OneLife(s, pc.p, s.owner[pc.p]);
    } else if pc.CntSet? {
      NoCallsYet(s, s.owner[pc.p]);
    } else if pc.RelCheck? && pc.p in s.q.release {
      ListedNode(s, pc.p);
    }
  }

  lemma NoCallsYet(s: State, k: nat)
    requires Shape(s) && LivesOk(s) && k < |s.lives| && (s.lives[k].stage == Listed || s.lives[k].setting)
    ensures s.lives[k].results == [] && s.lives[k].quota >= 1
  {
    assert LifeOk(s, k);
    assert s.lives[k].counted == {};
  }

  lemma ListedNode(s: State, p: Addr)
    requires Inv(s) && p in s.q.release
    ensures p in s.nodes && Serves(s, p) && s.q.cells[p].counter == LifeOf(s, p).quota - |LifeOf(s, p).results|
  {
    hide HistoryOk, WakeOk, ThreadsOk, LivesOk, HoldsMessage;
    assert NodeOk(s, p);
  }

  lemma StepLastCalls(s: State, t: Tid)
    requires Inv(s) && CanStep(s, t) && LastCallsOk(s)
    ensures LastCallsOk(Step(s, t))
  {
    hide Inv, LastCallsOk, ClosesOwn, OthersWoken, Step, OthersElsewhere, Holds, Outer, Wants;
    StepMovesOne(s, t);
    StepLife(s, t);
    var pc := s.threads[t].pc;
    if pc.StoPush? || pc.Receive? {
      StreamClosesOwn(s, t);
    } else if pc.RelSend? || pc.RmvUnlink? {
      ReleaserClosesOwn(s, t);
    } else if pc.RelCheck? || pc.CntSet? {
      CounterClosesOwn(s, t);
    } else if Target(s, pc).Some? {
      TargetClosesOwn(s, t);
    } else if pc.EnqPop? || pc.EnqPush? || pc.EnqSignal? || pc.Refuse? {
      ReceiverClosesOwn(s, t);
    } else if pc.RmvPush? || pc.RmvSignal? || pc.LoopPop? || pc.DrainTest? {
      PlainClosesOwn(s, t);
    } else {
      DrainClosesOwn(s, t);
    }
    LastCallsKept(s, Step(s, t), t);
  }

  lemma ActionLastCalls(s: State, act: Action)
    requires Inv(s) && Enabled(s, act) && LastCallsOk(s)
    ensures LastCallsOk(Next(s, act))
  {
    hide Inv, LastCallsOk, ClosesOwn, Step, CanStep, Holds;
    var s' := Next(s, act);
    match act
    case Run(t) => StepLastCalls(s, t);
    case Acquire(t) => ClosesNothing(s, s', t); LastCallsKept(s, s', t);
    case Arrive(t, m) => ClosesNothing(s, s', t); LastCallsKept(s, s', t);
    case CallRelease(t, p) => ClosesNothing(s, s', t); LastCallsKept(s, s', t);
    case CallSetCount(t, p, n) => ClosesNothing(s, s', t); LastCallsKept(s, s', t);
    case CallClose => ClosesNothing(s, s', CLOSING_THREAD); LastCallsKept(s, s', CLOSING_THREAD);
    case Wakeup => ClosesNothing(s, s', STREAM_THREAD); LastCallsKept(s, s', STREAM_THREAD);
    case Timeout => ClosesNothing(s, s', STREAM_THREAD); LastCallsKept(s, s', STREAM_THREAD);
  }

  lemma {:induction false} RunLastCalls(run: seq<State>, acts: seq<Action>, i: nat)
    requires IsRun(run, acts) && i < |run|
    ensures LastCallsOk(run[i])
  {
    hide Inv, Enabled, Next;
    if i > 0 {
      RunLastCalls(run, acts, i - 1);
      RunInv(run, acts, i - 1);
      ActionLastCalls(run[i - 1], acts[i - 1]);
    }
  }

  /** Exactly once: when the count of a message has run out and no thread is carrying out its last release, the
      release has been sent once and the node has left the release list. */
  lemma LastCallReleases(run: seq<State>, acts: seq<Action>, i: nat, k: nat)
    requires IsRun(run, acts) && i < |run| && k < |run[i].lives|
    requires var l := run[i].lives[k];
             |l.results| == l.quota && !BeingClosed(run[i], l.node)
    ensures var s, l := run[i], run[i].lives[k];
            l.stage == Recycled && l.sent && |Sendings(s.wire, OfAccepted(k))| == 1
  {
    RunLastCalls(run, acts, i);
    ReleasedOnce(run, acts, i, k);
    RunInv(run, acts, i);
    CountedIsCalled(run[i], k);
  }

  lemma CountedIsCalled(s: State, k: nat)
    requires Inv(s) && k < |s.lives| && |s.lives[k].results| == s.lives[k].quota
    ensures s.lives[k].stage in {Called, Recycled}
  {
    hide ListsOk, NodesOk, ThreadsOk, HistoryOk, WakeOk;
    var l := s.lives[k];
    assert LifeOk(s, k);
    BoundedSize(l.counted, l.begun);
  }

  /** At most one thread carries out the last release of a message. */
  lemma OneCloser(run: seq<State>, acts: seq<Action>, i: nat, t: Tid, u: Tid)
    requires IsRun(run, acts) && i < |run| && t in run[i].threads && u in run[i].threads && t != u
    requires Closing(run[i].threads[t].pc).Some?
    ensures Closing(run[i].threads[t].pc) != Closing(run[i].threads[u].pc)
  {
    hide ListsOk, NodesOk, LivesOk, HistoryOk, WakeOk, ThreadOk, LocksApart;
    RunInv(run, acts, i);
    assert PairOk(run[i], t, u);
  }
}
