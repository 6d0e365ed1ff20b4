/** How the release wait and the close end, whether or not the wait has run out of time. */
module ProtocolClose {
  import opened Options
  import opened Bytes
  import opened StreamMessage
  import opened QueueSpec
  import opened Protocol
  import opened ProtocolInvariant
  import opened ProtocolFrames
  import opened ProtocolSteps
  import opened ProtocolSafety
  import opened ProtocolLastCall
  import opened ProtocolTheorems
  import opened ProtocolProgress

  // ----- the release wait

  /** The release wait has run out of time. */
  predicate Late(pc: Pc) {
    pc.DrainLate? || pc == Exited(false)
  }

  lemma TargetLate(s: State)
    requires CanStep(s, STREAM_THREAD)
    requires var pc := s.threads[STREAM_THREAD].pc;
             Target(s, pc).Some?
    ensures STREAM_THREAD in Step(s, STREAM_THREAD).threads
    ensures Late(Step(s, STREAM_THREAD).threads[STREAM_THREAD].pc) <==> Late(s.threads[STREAM_THREAD].pc)
  {
    hide Wants, PoolPush, PoolPop, RecvPush, RecvPop, ReleasePop, ReleaseRemove, Fill, Store, Translate, SetCounter,
      Deliverable, ReleaseOf, ValidMagic, Converted;
  }

  lemma LoopLate(s: State)
    requires CanStep(s, STREAM_THREAD)
    requires var pc := s.threads[STREAM_THREAD].pc;
             pc.LoopPop? || pc.StoPush? || pc.Receive?
    ensures STREAM_THREAD in Step(s, STREAM_THREAD).threads
    ensures Late(Step(s, STREAM_THREAD).threads[STREAM_THREAD].pc) <==> Late(s.threads[STREAM_THREAD].pc)
  {
    hide Wants, PoolPush, PoolPop, RecvPush, RecvPop, ReleasePop, ReleaseRemove, Fill, Store, Translate, SetCounter,
      Deliverable, ReleaseOf, ValidMagic, Converted;
  }

  lemma DrainLates(s: State)
    requires CanStep(s, STREAM_THREAD)
    requires var pc := s.threads[STREAM_THREAD].pc;
             pc.DrainTest? || pc.FrcPop? || pc.FrcPush? || pc.FrcSignal?
    ensures STREAM_THREAD in Step(s, STREAM_THREAD).threads
    ensures Late(Step(s, STREAM_THREAD).threads[STREAM_THREAD].pc) <==> Late(s.threads[STREAM_THREAD].pc)
  {
    hide Wants, PoolPush, PoolPop, RecvPush, RecvPop, ReleasePop, ReleaseRemove, Fill, Store, Translate, SetCounter,
      Deliverable, ReleaseOf, ValidMagic, Converted;
  }

  lemma OwnLate(s: State)
    requires CanStep(s, STREAM_THREAD) && Role(STREAM_THREAD, s.threads[STREAM_THREAD].pc)
    ensures STREAM_THREAD in Step(s, STREAM_THREAD).threads
    ensures Late(Step(s, STREAM_THREAD).threads[STREAM_THREAD].pc) <==> Late(s.threads[STREAM_THREAD].pc)
  {
    hide Step, CanStep, Late, Target;
    StepCases(s, STREAM_THREAD);
    RoleThread(STREAM_THREAD, s.threads[STREAM_THREAD].pc);
    var pc := s.threads[STREAM_THREAD].pc;
    if Target(s, pc).Some? {
      TargetLate(s);
    } else if pc.LoopPop? || pc.StoPush? || pc.Receive? {
      LoopLate(s);
    } else {
      DrainLates(s);
    }
  }

  lemma WokenLate(th: Thread, th': Thread)
    requires Woken(th, th')
    ensures Late(th'.pc) <==> Late(th.pc)
  {
  }

  lemma ActionLate(s: State, act: Action)
    requires Inv(s) && Enabled(s, act) && STREAM_THREAD in s.threads
    ensures STREAM_THREAD in Next(s, act).threads
    ensures Late(Next(s, act).threads[STREAM_THREAD].pc) <==> Late(s.threads[STREAM_THREAD].pc) || act == Timeout
  {
    hide Inv, Step, CanStep, Holds, Wants, Late, Woken;
    StepFacts(s, STREAM_THREAD);
    LatePcs();
    if act.Run? {
      if act.t == STREAM_THREAD {
        OwnLate(s);
      } else {
        StepMovesOne(s, act.t);
        WokenLate(s.threads[STREAM_THREAD], Next(s, act).threads[STREAM_THREAD]);
      }
    }
  }

  lemma LatePcs()
    ensures Late(DrainLate) && !Late(LoopEnter) && !Late(DrainEnter) && !Late(LoopWait)
    ensures !Late(DrainWait) && !Late(Idle)
    ensures forall m :: !Late(EnqEnter(m))
  {
  }

  ghost predicate TimedOut(acts: seq<Action>, j: nat)
    requires j <= |acts|
  {
    exists i :: 0 <= i < j && acts[i] == Timeout
  }

  lemma {:induction false} LateIff(run: seq<State>, acts: seq<Action>, j: nat)
    requires IsRun(run, acts) && j < |run|
    ensures STREAM_THREAD in run[j].threads
    ensures Late(run[j].threads[STREAM_THREAD].pc) <==> TimedOut(acts, j)
  {
    hide Inv, Enabled, Next, Late;
    if j == 0 {
      LatePcs();
    } else {
      LateIff(run, acts, j - 1);
      RunInv(run, acts, j - 1);
      ActionLate(run[j - 1], acts[j - 1]);
      assert TimedOut(acts, j) <==> TimedOut(acts, j - 1) || acts[j - 1] == Timeout;
    }
  }

  /** The whole wait: the stream thread ends with the wait having returned 0 if and only if the time has not run out,
      and then every accepted message has been released and recycled. Once the time has run out the wait fails, even
      if the release list is empty by then. */
  lemma WaitOutcome(run: seq<State>, acts: seq<Action>, j: nat)
    requires IsRun(run, acts) && j < |run|
    requires STREAM_THREAD in run[j].threads && run[j].threads[STREAM_THREAD].pc.Exited?
    ensures run[j].threads[STREAM_THREAD].pc == Exited(true) <==> !TimedOut(acts, j)
    ensures !TimedOut(acts, j) ==> forall k :: 0 <= k < |run[j].lives| ==> run[j].lives[k].stage == Recycled
  {
    hide IsRun;
    LateIff(run, acts, j);
    if run[j].threads[STREAM_THREAD].pc == Exited(true) {
      DrainedMeansDone(run, acts, j);
    }
  }

  // ----- the close

  /** The release list was found empty, and the pool is being freed, or has been. */
  predicate Frees(pc: Pc) {
    pc.Freeing? || pc == Closed(true)
  }

  /** In this step the closing thread finds the release list empty. */
  predicate FindsEmpty(s: State, act: Action) {
    && act == Run(CLOSING_THREAD) && CLOSING_THREAD in s.threads
    && s.threads[CLOSING_THREAD].pc.CheckRelease? && s.q.release == []
  }

  lemma OwnFrees(s: State)
    requires CanStep(s, CLOSING_THREAD) && Role(CLOSING_THREAD, s.threads[CLOSING_THREAD].pc)
    ensures CLOSING_THREAD in Step(s, CLOSING_THREAD).threads
    ensures Frees(Step(s, CLOSING_THREAD).threads[CLOSING_THREAD].pc)
       <==> Frees(s.threads[CLOSING_THREAD].pc) || FindsEmpty(s, Run(CLOSING_THREAD))
  {
    hide Wants, PoolPush, PoolPop, RecvPush, RecvPop, ReleasePop, ReleaseRemove, Fill, Store, Translate, SetCounter,
      Deliverable, ReleaseOf, ValidMagic, Converted;
  }

  lemma FreesPcs()
    ensures !Frees(Idle) && !Frees(CloseEnter) && !Frees(LoopEnter) && !Frees(DrainEnter)
    ensures forall m :: !Frees(EnqEnter(m))
  {
  }

  lemma WokenFrees(th: Thread, th': Thread)
    requires Woken(th, th')
    ensures Frees(th'.pc) <==> Frees(th.pc)
  {
  }

  lemma ActionFrees(s: State, act: Action)
    requires Inv(s) && Enabled(s, act) && CLOSING_THREAD in s.threads
    ensures CLOSING_THREAD in Next(s, act).threads
    ensures Frees(Next(s, act).threads[CLOSING_THREAD].pc)
       <==> Frees(s.threads[CLOSING_THREAD].pc) || FindsEmpty(s, act)
  {
    hide Inv, Step, CanStep, Holds, Wants, Frees, Woken;
    StepFacts(s, CLOSING_THREAD);
    FreesPcs();
    if act.Run? {
      if act.t == CLOSING_THREAD {
        OwnFrees(s);
      } else {
        StepMovesOne(s, act.t);
        WokenFrees(s.threads[CLOSING_THREAD], Next(s, act).threads[CLOSING_THREAD]);
      }
    }
  }

  ghost predicate FoundEmpty(run: seq<State>, acts: seq<Action>, j: nat)
    requires j <= |acts| && |run| == |acts| + 1
  {
    exists i :: 0 <= i < j && FindsEmpty(run[i], acts[i])
  }

  /** Finalising frees the pool if and only if it has found the release list empty. */
  lemma {:induction false} FreesIff(run: seq<State>, acts: seq<Action>, j: nat)
    requires IsRun(run, acts) && j < |run|
    ensures CLOSING_THREAD in run[j].threads
    ensures Frees(run[j].threads[CLOSING_THREAD].pc) <==> FoundEmpty(run, acts, j)
  {
    hide Inv, Enabled, Next, Frees, FindsEmpty;
    if j == 0 {
      FreesPcs();
    } else {
      FreesIff(run, acts, j - 1);
      RunInv(run, acts, j - 1);
      ActionFrees(run[j - 1], acts[j - 1]);
      assert FoundEmpty(run, acts, j) <==> FoundEmpty(run, acts, j - 1) || FindsEmpty(run[j - 1], acts[j - 1]);
    }
  }

  /** Once it frees, nothing is queued or listed any more. */
  ghost predicate NothingListed(s: State) {
    CLOSING_THREAD in s.threads && (Frees(s.threads[CLOSING_THREAD].pc) ==> s.q.recv == [] && s.q.release == [])
  }

  lemma FreeingFacts(s: State)
    requires Inv(s) && CLOSING_THREAD in s.threads
    requires Frees(s.threads[CLOSING_THREAD].pc) || s.threads[CLOSING_THREAD].pc.CheckRelease?
    ensures s.q.recv == [] && forall t :: t in s.threads ==> !s.threads[t].pc.EnqPush? && !s.threads[t].pc.StoPush?
  {
    hide ListsOk, NodesOk, LivesOk, HistoryOk, WakeOk, PairOk, ClientOk;
    assert ThreadOk(s, CLOSING_THREAD) && ThreadOk(s, STREAM_THREAD);
    forall t | t in s.threads
      ensures !s.threads[t].pc.EnqPush? && !s.threads[t].pc.StoPush?
    {
      assert ThreadOk(s, t);
    }
  }

  lemma EmptyStays(s: State, t: Tid)
    requires CanStep(s, t) && !s.threads[t].pc.StoPush? && s.q.release == []
    ensures Step(s, t).q.release == []
  {
    hide Step, CanStep;
    StepCases(s, t);
    var pc := s.threads[t].pc;
    if Target(s, pc).Some? || pc.EnqSignal? || pc.RmvSignal? || pc.DrainTest? || pc.FrcSignal? || pc.CloseEnter? {
      MoveEmpty(s, t);
    } else {
      WorkEmpty(s, t);
    }
  }

  lemma MoveEmpty(s: State, t: Tid)
    requires CanStep(s, t) && s.q.release == []
    requires var pc := s.threads[t].pc;
             Target(s, pc).Some? || pc.EnqSignal? || pc.RmvSignal? || pc.DrainTest? || pc.FrcSignal? || pc.CloseEnter?
    ensures Step(s, t).q.release == []
  {
    hide Wants, Target;
  }

  lemma WorkEmpty(s: State, t: Tid)
    requires CanStep(s, t) && s.q.release == []
    requires var pc := s.threads[t].pc;
             || pc.RelCheck? || pc.RelSend? || pc.RmvUnlink? || pc.RmvPush? || pc.CntSet?
             || pc.LoopPop? || pc.Receive? || pc.FrcPop? || pc.FrcPush?
             || pc.EnqPop? || pc.EnqPush? || pc.Refuse? || pc.Freeing?
    ensures Step(s, t).q.release == []
  {
    hide Wants, Target, ValidMagic, ReleaseOf, Deliverable, Converted, Overlay;
  }

  lemma ActionNothingListed(s: State, act: Action)
    requires Inv(s) && Enabled(s, act) && NothingListed(s) && Inv(Next(s, act))
    ensures NothingListed(Next(s, act))
  {
    hide Inv, Step, CanStep, Holds, Wants, Frees;
    ActionFrees(s, act);
    var s' := Next(s, act);
    if Frees(s'.threads[CLOSING_THREAD].pc) {
      FreeingFacts(s');
      if Frees(s.threads[CLOSING_THREAD].pc) {
        FreeingFacts(s);
      }
      if act.Run? {
        StepCases(s, act.t);
        EmptyStays(s, act.t);
      }
    }
  }

  lemma {:induction false} FreesNothingListed(run: seq<State>, acts: seq<Action>, j: nat)
    requires IsRun(run, acts) && j < |run|
    ensures NothingListed(run[j])
  {
    hide Inv, Enabled, Next;
    if j > 0 {
      FreesNothingListed(run, acts, j - 1);
      RunInv(run, acts, j - 1);
      RunInv(run, acts, j);
      ActionNothingListed(run[j - 1], acts[j - 1]);
    }
  }

  /** What a close frees, also after a wait that has run out of time: it frees anything if and only if it has found the
      release list empty, and then every node is freed, in a thread's hands, or - pushed there by such a thread - in the
      pool; nothing is queued or listed. */
  lemma CloseOutcome(run: seq<State>, acts: seq<Action>, j: nat)
    requires IsRun(run, acts) && j < |run| && CLOSING_THREAD in run[j].threads
    requires run[j].threads[CLOSING_THREAD].pc.Closed?
    ensures var s := run[j];
            && (s.threads[CLOSING_THREAD].pc == Closed(true) <==> FoundEmpty(run, acts, j))
            && (FoundEmpty(run, acts, j) ==>
                  && s.q.recv == [] && s.q.release == []
                  && Elems(s.freed) + InHand(s) + Elems(s.q.pool) == run[0].nodes
                  && |s.freed| + |InHand(s)| + |s.q.pool| == STREAM_QUEUE_SIZE)
  {
    hide IsRun, InHand, Elems;
    FreesIff(run, acts, j);
    FreesNothingListed(run, acts, j);
    Conservation(run, acts, j);
    NoElems();
  }

  lemma NoElems()
    ensures Elems<Addr>([]) == {}
  {
  }

  /** When the last free node has been freed, the nodes not freed are exactly those in threads' hands. */
  lemma AllFreed(run: seq<State>, acts: seq<Action>, j: nat)
    requires IsRun(run, acts) && j < |run| && CLOSING_THREAD in run[j].threads
    requires run[j].threads[CLOSING_THREAD] == Thread(Freeing, true) && run[j].q.pool == []
    ensures var s := run[j];
            && CanStep(s, CLOSING_THREAD) && CLOSING_THREAD in Step(s, CLOSING_THREAD).threads
            && Step(s, CLOSING_THREAD).threads[CLOSING_THREAD].pc == Closed(true)
            && Elems(s.freed) !! InHand(s) && Elems(s.freed) + InHand(s) == run[0].nodes
            && |s.freed| + |InHand(s)| == STREAM_QUEUE_SIZE
  {
    hide IsRun, InHand, Elems;
    FreesNothingListed(run, acts, j);
    Conservation(run, acts, j);
    NoElems();
  }
}
