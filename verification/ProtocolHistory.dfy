/** How one state of a run grows out of an earlier one. */
module ProtocolHistory {
  import opened Options
  import opened Bytes
  import opened StreamMessage
  import opened QueueSpec
  import opened Protocol
  import opened ProtocolInvariant
  import opened ProtocolSteps
  import opened ProtocolSafety

  /** How far a message has come. */
  function Progress(stage: Stage): nat {
    match stage
    case Queued => 0
    case Taken => 1
    case Listed => 2
    case Called => 3
    case Dropped => 5
    case Recycled => 5
  }

  /** The later life of a message: it has only gone on. */
  ghost predicate LifeGrows(l: Life, l': Life) {
    && l'.node == l.node
    && (l'.stage == l.stage || Progress(l.stage) < Progress(l'.stage))
    && (l.sent ==> l'.sent)
    && l.results <= l'.results
    && (l.begun > 0 ==> l'.quota == l.quota) && l.begun <= l'.begun
  }

  /** The later state: the nodes are the same, a stop is for good, and the history has only grown. */
  ghost predicate Grows(s: State, s': State) {
    && s'.nodes == s.nodes && s'.conv == s.conv && s.threads.Keys <= s'.threads.Keys
    && (s.stop ==> s'.stop)
    && s.accepted <= s'.accepted && s.calls <= s'.calls && s.refused <= s'.refused && s.wire <= s'.wire
    && |s.lives| <= |s'.lives|
    && forall k :: 0 <= k < |s.lives| ==> LifeGrows(s.lives[k], s'.lives[k])
  }

  lemma GrowsTrans(s: State, s': State, s'': State)
    requires Grows(s, s') && Grows(s', s'')
    ensures Grows(s, s'')
  {
  }

  lemma LifeSame(l: Life)
    ensures LifeGrows(l, l)
  {
  }

  /** A step that replaces one life by a later one. */
  lemma OneLifeGrows(s: State, s': State, k: nat, l': Life)
    requires k < |s.lives| && LifeGrows(s.lives[k], l') && s'.lives == s.lives[k := l']
    requires s'.nodes == s.nodes && s'.conv == s.conv && s.threads.Keys <= s'.threads.Keys && (s.stop ==> s'.stop)
    requires s.accepted <= s'.accepted && s.calls <= s'.calls && s.refused <= s'.refused && s.wire <= s'.wire
    ensures Grows(s, s')
  {
    hide LifeGrows;
    forall l: Life
      ensures LifeGrows(l, l)
    {
      LifeSame(l);
    }
  }

  /** A step that changes no life. */
  lemma NoLifeGrows(s: State, s': State)
    requires s.lives <= s'.lives
    requires s'.nodes == s.nodes && s'.conv == s.conv && s.threads.Keys <= s'.threads.Keys && (s.stop ==> s'.stop)
    requires s.accepted <= s'.accepted && s.calls <= s'.calls && s.refused <= s'.refused && s.wire <= s'.wire
    ensures Grows(s, s')
  {
  }

  lemma ReceiverGrows(s: State, t: Tid)
    requires CanStep(s, t)
    requires var pc := s.threads[t].pc; pc.EnqPop? || pc.EnqPush? || pc.EnqSignal? || pc.Refuse?
    ensures Grows(s, Step(s, t))
  {
    hide Fill, ReleaseOf, ValidMagic, LifeGrows, Progress, Grows;
    NoLifeGrows(s, Step(s, t));
  }

  lemma RelCheckGrows(s: State, t: Tid)
    requires CanStep(s, t) && s.threads[t].pc.RelCheck?
    ensures Grows(s, Step(s, t))
  {
    hide Target;
  }

  lemma ReleaserGrows(s: State, t: Tid)
    requires CanStep(s, t)
    requires var pc := s.threads[t].pc; pc.RelSend? || pc.RmvUnlink?
    requires LifeOf(s, s.threads[t].pc.p).stage == Called
    ensures Grows(s, Step(s, t))
  {
    hide ReleaseOf, Grows;
    var p := s.threads[t].pc.p;
    OneLifeGrows(s, Step(s, t), s.owner[p], LifeOf(Step(s, t), p));
  }

  lemma CntSetGrows(s: State, t: Tid)
    requires CanStep(s, t) && s.threads[t].pc.CntSet?
    requires s.threads[t].pc.p in s.q.release ==> LifeOf(s, s.threads[t].pc.p).begun == 0
    ensures Grows(s, Step(s, t))
  {
    hide Grows;
    var p := s.threads[t].pc.p;
    if p in s.q.release {
      OneLifeGrows(s, Step(s, t), s.owner[p], LifeOf(Step(s, t), p));
    } else {
      NoLifeGrows(s, Step(s, t));
    }
  }

  lemma StoPushGrows(s: State, t: Tid)
    requires CanStep(s, t) && s.threads[t].pc.StoPush? && LifeOf(s, s.threads[t].pc.a).stage == Taken
    ensures Grows(s, Step(s, t))
  {
    hide Store, Translate, Deliverable, Converted, Grows;
    var a := s.threads[t].pc.a;
    OneLifeGrows(s, Step(s, t), s.owner[a], LifeOf(Step(s, t), a));
  }

  lemma ReceiveGrows(s: State, t: Tid)
    requires CanStep(s, t) && s.threads[t].pc.Receive? && LifeOf(s, s.threads[t].pc.a).stage == Listed
    ensures Grows(s, Step(s, t))
  {
    hide Store, Translate, Deliverable, Converted, Grows;
    var a := s.threads[t].pc.a;
    OneLifeGrows(s, Step(s, t), s.owner[a], LifeOf(Step(s, t), a));
  }

  lemma LoopPopGrows(s: State, t: Tid)
    requires CanStep(s, t) && s.threads[t].pc.LoopPop?
    requires s.taken < |s.lives| ==> s.lives[s.taken].stage == Queued
    ensures Grows(s, Step(s, t))
  {
    hide Grows;
    if s.q.recv == [] || s.taken >= |s.lives| {
      NoLifeGrows(s, Step(s, t));
    } else {
      OneLifeGrows(s, Step(s, t), s.taken, s.lives[s.taken].(stage := Taken));
    }
  }

  lemma TargetGrows(s: State, t: Tid)
    requires CanStep(s, t)
    requires var pc := s.threads[t].pc;
             Target(s, pc).Some?
    ensures Grows(s, Step(s, t))
  {
    hide Grows, Target, Wants;
    NoLifeGrows(s, Step(s, t));
  }

  lemma CloseGrows(s: State, t: Tid)
    requires CanStep(s, t)
    requires var pc := s.threads[t].pc;
             pc.CloseEnter? || pc.Freeing?
    ensures Grows(s, Step(s, t))
  {
    hide Grows;
    NoLifeGrows(s, Step(s, t));
  }

  lemma RmvGrows(s: State, t: Tid)
    requires CanStep(s, t)
    requires var pc := s.threads[t].pc;
             pc.RmvPush? || pc.RmvSignal?
    ensures Grows(s, Step(s, t))
  {
    hide Grows;
    NoLifeGrows(s, Step(s, t));
  }

  lemma DrainGrows(s: State, t: Tid)
    requires CanStep(s, t)
    requires var pc := s.threads[t].pc;
             pc.DrainTest? || pc.FrcPop? || pc.FrcPush? || pc.FrcSignal?
    ensures Grows(s, Step(s, t))
  {
    hide Grows;
    NoLifeGrows(s, Step(s, t));
  }

  /** The stages the invariant gives the message that a step is about. */
  lemma StepStages(s: State, t: Tid)
    requires Inv(s) && CanStep(s, t)
    ensures var pc := s.threads[t].pc;
            && (pc.RelSend? || pc.RmvUnlink? ==> LifeOf(s, pc.p).stage == Called)
            && (pc.CntSet? && pc.p in s.q.release ==> LifeOf(s, pc.p).begun == 0)
            && (pc.StoPush? ==> LifeOf(s, pc.a).stage == Taken)
            && (pc.Receive? ==> LifeOf(s, pc.a).stage == Listed)
            && (s.taken < |s.lives| ==> s.lives[s.taken].stage == Queued)
            && (pc.EnqPush? ==> !s.stop)
  {
    hide ListsOk, NodesOk, HistoryOk, WakeOk, PairOk, CountsDown;
    assert ThreadOk(s, t);
    var pc := s.threads[t].pc;
    if s.taken < |s.lives| {
      assert LifeOk(s, s.taken);
    }
    if pc.CntSet? {
      assert LifeOk(s, s.owner[pc.p]);
    }
  }

  lemma StepGrows(s: State, t: Tid)
    requires Inv(s) && CanStep(s, t)
    ensures Grows(s, Step(s, t))
  {
    StepStages(s, t);
    hide Inv, Grows, Step, Holds, Outer, Wants;
    var pc := s.threads[t].pc;
    if Target(s, pc).Some? {
      TargetGrows(s, t);
    } else if pc.EnqPop? || pc.EnqPush? || pc.EnqSignal? || pc.Refuse? {
      ReceiverGrows(s, t);
    } else if pc.RelCheck? {
      RelCheckGrows(s, t);
    } else if pc.RelSend? || pc.RmvUnlink? {
      ReleaserGrows(s, t);
    } else if pc.CntSet? {
      CntSetGrows(s, t);
    } else if pc.StoPush? {
      StoPushGrows(s, t);
    } else if pc.Receive? {
      ReceiveGrows(s, t);
    } else if pc.LoopPop? {
      LoopPopGrows(s, t);
    } else if pc.DrainTest? || pc.FrcPop? || pc.FrcPush? || pc.FrcSignal? {
      DrainGrows(s, t);
    } else if pc.RmvPush? || pc.RmvSignal? {
      RmvGrows(s, t);
    } else {
      CloseGrows(s, t);
    }
  }

  lemma ActionGrows(s: State, act: Action)
    requires Inv(s) && Enabled(s, act)
    ensures Grows(s, Next(s, act))
  {
    hide Inv, Grows, Step, CanStep, CanAcquire;
    match act
    case Run(t) => StepGrows(s, t);
    case CallRelease(t, p) =>
      if p in s.nodes {
        OneLifeGrows(s, Next(s, act), s.owner[p], LifeOf(Next(s, act), p));
      } else {
        NoLifeGrows(s, Next(s, act));
      }
    case CallSetCount(t, p, n) => OneLifeGrows(s, Next(s, act), s.owner[p], LifeOf(Next(s, act), p));
    case _ => 
      assert Next(s, act).lives == s.lives;
      NoLifeGrows(s, Next(s, act));
  }

  /** Once stopped, no message is accepted any more. */
  lemma StopAccepts(s: State, act: Action)
    requires Inv(s) && Enabled(s, act) && s.stop
    ensures Next(s, act).accepted == s.accepted
  {
    if act.Run? {
      StepStages(s, act.t);
      hide Inv;
      StopAcceptsStep(s, act.t);
    }
  }

  lemma StopAcceptsStep(s: State, t: Tid)
    requires CanStep(s, t) && (s.threads[t].pc.EnqPush? ==> !s.stop) && s.stop
    ensures Step(s, t).accepted == s.accepted
  {
    hide Step, Target;
    var pc := s.threads[t].pc;
    if Target(s, pc).Some? {
      TargetAccepts(s, t);
    } else if pc.EnqPop? || pc.EnqSignal? || pc.Refuse? || pc.RelCheck? || pc.RelSend? || pc.CntSet? {
      ClientAccepts(s, t);
    } else if pc.RmvUnlink? || pc.RmvPush? || pc.RmvSignal? || pc.CloseEnter? || pc.Freeing? {
      RemoverAccepts(s, t);
    } else {
      StepCases(s, t);
      StreamAccepts(s, t);
    }
  }

  lemma TargetAccepts(s: State, t: Tid)
    requires CanStep(s, t) && Target(s, s.threads[t].pc).Some?
    ensures Step(s, t).accepted == s.accepted
  {
    hide Target;
  }

  lemma ClientAccepts(s: State, t: Tid)
    requires CanStep(s, t)
    requires var pc := s.threads[t].pc;
             pc.EnqPop? || pc.EnqSignal? || pc.Refuse? || pc.RelCheck? || pc.RelSend? || pc.CntSet?
    ensures Step(s, t).accepted == s.accepted
  {
    hide Deliverable, ReleaseOf, Converted, Translate, Store, ValidMagic, Target, Wants, PoolPush, PoolPop, RecvPush,
      RecvPop, ReleasePop, ReleaseRemove, Fill, SetCounter, Outer, Holds;
  }

  lemma RemoverAccepts(s: State, t: Tid)
    requires CanStep(s, t)
    requires var pc := s.threads[t].pc; pc.RmvUnlink? || pc.RmvPush? || pc.RmvSignal? || pc.CloseEnter? || pc.Freeing?
    ensures Step(s, t).accepted == s.accepted
  {
    hide Deliverable, ReleaseOf, Converted, Translate, Store, ValidMagic, Target, Wants, PoolPush, PoolPop, RecvPush,
      RecvPop, ReleasePop, ReleaseRemove, Fill, SetCounter, Outer, Holds;
  }

  lemma StreamAccepts(s: State, t: Tid)
    requires CanStep(s, t)
    requires var pc := s.threads[t].pc;
             || pc.LoopPop? || pc.StoPush? || pc.Receive? || pc.DrainTest? || pc.FrcPop? || pc.FrcPush? || pc.FrcSignal?
    ensures Step(s, t).accepted == s.accepted
  {
    hide Deliverable, ReleaseOf, Converted, Translate, Store, ValidMagic, Target, Wants, PoolPush, PoolPop, RecvPush,
      RecvPop, ReleasePop, ReleaseRemove, Fill, SetCounter, Outer, Holds;
  }

  lemma GrowsSame(s: State)
    ensures Grows(s, s)
  {
    forall l: Life
      ensures LifeGrows(l, l)
    {
      LifeSame(l);
    }
  }

  /** A later state of a run has grown out of every earlier one. */
  lemma {:induction false} RunGrows(run: seq<State>, acts: seq<Action>, i: nat, j: nat)
    requires IsRun(run, acts) && i <= j < |run|
    ensures Grows(run[i], run[j]) && (run[i].stop ==> run[j].accepted == run[i].accepted)
    decreases j
  {
    hide Inv, Grows, Enabled, Next, Init;
    if i == j {
      GrowsSame(run[i]);
    } else {
      RunGrows(run, acts, i, j - 1);
      RunInv(run, acts, j - 1);
      var s, act := run[j - 1], acts[j - 1];
      ActionGrows(s, act);
      if run[i].stop {
        StopStays(run[i], s);
        StopAccepts(s, act);
      }
      GrowsTrans(run[i], s, run[j]);
    }
  }

  lemma StopStays(s: State, s': State)
    requires Grows(s, s') && s.stop
    ensures s'.stop
  {
  }
}
