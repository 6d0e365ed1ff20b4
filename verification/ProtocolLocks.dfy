/** Which lock guards what: shared state is written only under its lock, which no other thread has then; and which
    nodes a step leaves alone. */
module ProtocolLocks {
  import opened Options
  import opened Bytes
  import opened StreamMessage
  import opened QueueSpec
  import opened Protocol
  import opened ProtocolInvariant
  import opened ProtocolFrames
  import opened ProtocolSteps
  import opened ProtocolSafety
  import opened ProtocolTheorems
  import opened ProtocolProgress

  predicate CounterChanges(s: State, s': State, a: Addr) {
    a in s.q.cells && a in s'.q.cells && s'.q.cells[a].counter != s.q.cells[a].counter
  }

  /** A step of a thread changes each list only under the mutex of that list, counters of listed nodes only under the
      release mutex, accepts messages and stops only under the receive mutex, and sends only under the send mutex. */
  predicate Guarded(s: State, s': State, th: Thread) {
    && (s'.q.pool != s.q.pool ==> Holds(th, PoolList))
    && (s'.q.recv != s.q.recv ==> Holds(th, RecvList))
    && (s'.q.release != s.q.release ==> Holds(th, ReleaseList) && Holds(th, ReleaseStream))
    && (s'.wire != s.wire ==> Holds(th, Send))
    && (s'.accepted != s.accepted || s'.taken != s.taken || s'.stop != s.stop ==> Holds(th, RecvStream))
    && (forall a :: a in s.q.release && CounterChanges(s, s', a) ==> Holds(th, ReleaseStream))
  }

  lemma TargetGuarded(s: State, t: Tid)
    requires CanStep(s, t) && Target(s, s.threads[t].pc).Some?
    ensures Guarded(s, Step(s, t), s.threads[t])
  {
    hide Target, Holds;
  }

  lemma ReceiverGuarded(s: State, t: Tid)
    requires CanStep(s, t) && Target(s, s.threads[t].pc).None?
    requires var pc := s.threads[t].pc; pc.EnqPop? || pc.EnqPush? || pc.EnqSignal? || pc.Refuse?
    ensures Guarded(s, Step(s, t), s.threads[t])
  {
    hide Step, Target, Overlay, ReleaseOf, ValidMagic;
    StepIs(s, t);
  }

  lemma ReleaserGuarded(s: State, t: Tid)
    requires CanStep(s, t) && Target(s, s.threads[t].pc).None?
    requires var pc := s.threads[t].pc; pc.RelCheck? || pc.RelSend? || pc.RmvUnlink? || pc.CntSet?
    ensures Guarded(s, Step(s, t), s.threads[t])
  {
    hide Step, Target, ReleaseOf, ValidMagic, Without;
    StepIs(s, t);
  }

  lemma RemoverGuarded(s: State, t: Tid)
    requires CanStep(s, t) && Target(s, s.threads[t].pc).None?
    requires var pc := s.threads[t].pc; pc.RmvPush? || pc.RmvSignal? || pc.CloseEnter? || pc.Freeing?
    ensures Guarded(s, Step(s, t), s.threads[t])
  {
    hide Step, Target;
    StepIs(s, t);
  }

  lemma StreamGuarded(s: State, t: Tid)
    requires CanStep(s, t) && Target(s, s.threads[t].pc).None?
    requires var pc := s.threads[t].pc; pc.LoopPop? || pc.StoPush? || pc.Receive?
    ensures Guarded(s, Step(s, t), s.threads[t])
  {
    hide Step, Target, Deliverable, Converted;
    StepIs(s, t);
  }

  lemma DrainGuarded(s: State, t: Tid)
    requires CanStep(s, t) && Target(s, s.threads[t].pc).None?
    requires var pc := s.threads[t].pc; pc.DrainTest? || pc.FrcPop? || pc.FrcPush? || pc.FrcSignal?
    ensures Guarded(s, Step(s, t), s.threads[t])
  {
    hide Step, Target;
    StepIs(s, t);
  }

  lemma StepGuarded(s: State, t: Tid)
    requires CanStep(s, t)
    ensures Guarded(s, Step(s, t), s.threads[t])
  {
    hide Step, Target, Guarded;
    StepCases(s, t);
    var pc := s.threads[t].pc;
    if Target(s, pc).Some? {
      TargetGuarded(s, t);
    } else if pc.EnqPop? || pc.EnqPush? || pc.EnqSignal? || pc.Refuse? {
      ReceiverGuarded(s, t);
    } else if pc.RelCheck? || pc.RelSend? || pc.RmvUnlink? || pc.CntSet? {
      ReleaserGuarded(s, t);
    } else if pc.RmvPush? || pc.RmvSignal? || pc.CloseEnter? || pc.Freeing? {
      RemoverGuarded(s, t);
    } else if pc.LoopPop? || pc.StoPush? || pc.Receive? {
      StreamGuarded(s, t);
    } else {
      DrainGuarded(s, t);
    }
  }

  /** In every state of every run, whichever thread steps next writes the shared state only under the locks that guard
      what it writes, and no other thread has any lock that it has. */
  lemma WritesAreGuarded(run: seq<State>, acts: seq<Action>, i: nat, t: Tid)
    requires IsRun(run, acts) && i < |run| && CanStep(run[i], t)
    ensures var s := run[i];
            && Guarded(s, Step(s, t), s.threads[t])
            && forall u, l :: u in s.threads && u != t && Holds(s.threads[t], l) ==> !Holds(s.threads[u], l)
  {
    RunInv(run, acts, i);
    StepGuarded(run[i], t);
    hide IsRun, CanStep, Step, Guarded, ListsOk, NodesOk, LivesOk, HistoryOk, WakeOk, ThreadOk, ClaimsApart, Holds;
    var s := run[i];
    forall u, l | u in s.threads && u != t && Holds(s.threads[t], l)
      ensures !Holds(s.threads[u], l)
    {
      assert PairOk(s, t, u);
    }
  }

  // ----- the nodes that a step does not touch

  /** The node at `a` keeps its fields, and stays on the lists it is on and off the others. */
  predicate NodeKept(s: State, s': State, a: Addr) {
    && (a in s'.q.cells <==> a in s.q.cells) && (a in s.q.cells ==> s'.q.cells[a] == s.q.cells[a])
    && (a in s'.q.pool <==> a in s.q.pool) && (a in s'.q.recv <==> a in s.q.recv)
    && (a in s'.q.release <==> a in s.q.release)
  }

  lemma TargetKeepsNode(s: State, t: Tid, a: Addr)
    requires CanStep(s, t) && Target(s, s.threads[t].pc).Some?
    ensures NodeKept(s, Step(s, t), a)
  {
    hide Target, Wants;
  }

  lemma ReceiverKeepsNode(s: State, t: Tid, a: Addr)
    requires CanStep(s, t) && Target(s, s.threads[t].pc).None? && a !in Touched(s, s.threads[t].pc)
    requires var pc := s.threads[t].pc; pc.EnqPop? || pc.EnqPush? || pc.EnqSignal? || pc.Refuse?
    ensures NodeKept(s, Step(s, t), a)
  {
    hide Step, Wants, Target, Overlay, ReleaseOf, ValidMagic;
    StepIs(s, t);
  }

  lemma ReleaserKeepsNode(s: State, t: Tid, a: Addr)
    requires CanStep(s, t) && Target(s, s.threads[t].pc).None? && a !in Touched(s, s.threads[t].pc)
    requires var pc := s.threads[t].pc; pc.RelCheck? || pc.RelSend? || pc.RmvUnlink? || pc.CntSet?
    ensures NodeKept(s, Step(s, t), a)
  {
    hide Step, Wants, Target, ReleaseOf, ValidMagic, Without;
    StepIs(s, t);
    if s.threads[t].pc.RmvUnlink? {
      WithoutSubset(s.q.release, s.threads[t].pc.p);
    }
  }

  lemma {:induction false} WithoutSubset(s: seq<Addr>, x: Addr)
    ensures forall y :: y in Without(s, x) ==> y in s
  {
    if s != [] {
      WithoutSubset(s[1..], x);
    }
  }

  lemma RemoverKeepsNode(s: State, t: Tid, a: Addr)
    requires CanStep(s, t) && Target(s, s.threads[t].pc).None? && a !in Touched(s, s.threads[t].pc)
    requires var pc := s.threads[t].pc; pc.RmvPush? || pc.RmvSignal? || pc.CloseEnter? || pc.Freeing?
    ensures NodeKept(s, Step(s, t), a)
  {
    hide Step, Wants, Target;
    StepIs(s, t);
  }

  lemma StreamKeepsNode(s: State, t: Tid, a: Addr)
    requires CanStep(s, t) && Target(s, s.threads[t].pc).None? && a !in Touched(s, s.threads[t].pc)
    requires var pc := s.threads[t].pc; pc.LoopPop? || pc.StoPush? || pc.Receive?
    ensures NodeKept(s, Step(s, t), a)
  {
    hide Step, Wants, Target, Deliverable, Converted;
    StepIs(s, t);
  }

  lemma DrainKeepsNode(s: State, t: Tid, a: Addr)
    requires CanStep(s, t) && Target(s, s.threads[t].pc).None? && a !in Touched(s, s.threads[t].pc)
    requires var pc := s.threads[t].pc; pc.DrainTest? || pc.FrcPop? || pc.FrcPush? || pc.FrcSignal?
    ensures NodeKept(s, Step(s, t), a)
  {
    hide Step, Wants, Target;
    StepIs(s, t);
  }

  /** A step changes no field of a node, and moves none, that is not among those it touches. */
  lemma UntouchedKept(s: State, t: Tid, a: Addr)
    requires CanStep(s, t) && a !in Touched(s, s.threads[t].pc)
    ensures NodeKept(s, Step(s, t), a)
  {
    hide Step, Target, NodeKept, Touched;
    StepCases(s, t);
    var pc := s.threads[t].pc;
    if Target(s, pc).Some? {
      TargetKeepsNode(s, t, a);
    } else if pc.EnqPop? || pc.EnqPush? || pc.EnqSignal? || pc.Refuse? {
      ReceiverKeepsNode(s, t, a);
    } else if pc.RelCheck? || pc.RelSend? || pc.RmvUnlink? || pc.CntSet? {
      ReleaserKeepsNode(s, t, a);
    } else if pc.RmvPush? || pc.RmvSignal? || pc.CloseEnter? || pc.Freeing? {
      RemoverKeepsNode(s, t, a);
    } else if pc.LoopPop? || pc.StoPush? || pc.Receive? {
      StreamKeepsNode(s, t, a);
    } else {
      DrainKeepsNode(s, t, a);
    }
  }
}
