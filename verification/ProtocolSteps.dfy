/** Every action keeps the invariant. */
module ProtocolSteps {
  import opened Options
  import opened Bytes
  import opened StreamMessage
  import opened QueueSpec
  import opened Protocol
  import opened ProtocolInvariant
  import opened ProtocolFrames

  /** The whole invariant from its parts, when only thread `t` moved. */
  lemma Assemble(s: State, s': State, t: Tid)
    requires Inv(s) && t in s.threads && s'.nodes == s.nodes
    requires Shape(s') && ListsOk(s') && NodesOk(s') && LivesOk(s') && WakeOk(s') && HistoryOk(s')
    requires OthersWoken(s, s', t) && NoNewClaims(s, t, s'.threads[t])
    requires forall u :: u in s.threads && u != t ==> ThreadKept(s, s', u)
    requires ThreadOk(s', t)
    ensures Inv(s')
  {
    hide Shape, ListsOk, NodesOk, LivesOk, WakeOk, HistoryOk, ThreadOk, ThreadKept, PairOk, NoNewClaims, Woken;
    forall u | u in s'.threads
      ensures ThreadOk(s', u)
    {
      if u != t {
        ThreadFrame(s, s', u);
      }
    }
    PairsFrame(s, s', t);
  }

  /** Whether a thread at this step is about to signal. */
  predicate Signalling(pc: Pc) {
    pc.EnqSignal? || pc.RmvPush? || pc.RmvSignal?
  }

  /** A thread that is about to signal still is: the waiter can rely on it. */
  lemma WakeFrame(s: State, s': State, t: Tid)
    requires Shape(s) && Shape(s') && WakeOk(s) && t in s.threads && OthersWoken(s, s', t)
    requires s'.threads[STREAM_THREAD].pc == s.threads[STREAM_THREAD].pc
    requires !Signalling(s.threads[t].pc) || (s.threads[t].pc.RmvPush? && s'.threads[t].pc.RmvSignal?)
    requires s'.stop == s.stop
    requires s'.q.recv == s.q.recv || s'.threads[t].pc.EnqSignal?
    requires s'.q.release == s.q.release || s'.q.release != [] || s'.threads[t].pc.RmvPush?
    ensures WakeOk(s')
  {
    var pc := s'.threads[STREAM_THREAD].pc;
    if pc.LoopWait? && s'.q.recv != [] && s'.q.recv == s.q.recv {
      var u :| u in s.threads && s.threads[u].pc.EnqSignal?;
      assert s'.threads[u].pc.EnqSignal?;
    }
    if pc.DrainWait? && s'.q.release == [] && s.q.release == [] {
      var u :| u in s.threads && (s.threads[u].pc.RmvPush? || s.threads[u].pc.RmvSignal?);
      assert s'.threads[u].pc.RmvPush? || s'.threads[u].pc.RmvSignal?;
    }
  }

  /** From `s` to `s'` threads moved, and perhaps the stop flag, the refusals and the releases sent; nothing else. */
  ghost predicate OnlyThreads(s: State, s': State, t: Tid) {
    && s' == s.(threads := s'.threads, stop := s'.stop, refused := s'.refused, wire := s'.wire)
    && t in s.threads && OthersWoken(s, s', t)
  }

  /** A step that moves thread `t`, and perhaps wakes the stream thread. */
  lemma MoveKeeps(s: State, s': State, t: Tid)
    requires Inv(s) && OnlyThreads(s, s', t) && NoNewClaims(s, t, s'.threads[t])
    requires Carried(s'.threads[t].pc) == Carried(s.threads[t].pc)
    requires t == STREAM_THREAD ==>
               var pc, pc' := s.threads[t].pc, s'.threads[t].pc;
               TakenBy(pc') == TakenBy(pc) && ListedBy(pc') == ListedBy(pc)
    requires Shape(s') && ThreadOk(s', t) && WakeOk(s') && HistoryOk(s')
    requires forall u :: u in s.threads && u != t ==> ThreadKept(s, s', u)
    ensures Inv(s')
  {
    hide ListsOk, NodesOk, LivesOk, ThreadOk, PairOk, HistoryOk, WakeOk, NoNewClaims, Shape, Dispatched;
    MoveKeepsNodes(s, s', t);
    MoveKeepsLives(s, s', t);
    Assemble(s, s', t);
  }

  lemma MoveKeepsNodes(s: State, s': State, t: Tid)
    requires Shape(s) && Shape(s') && ListsOk(s) && NodesOk(s) && OnlyThreads(s, s', t)
    requires Carried(s'.threads[t].pc) == Carried(s.threads[t].pc)
    ensures ListsOk(s') && NodesOk(s')
  {
    hide NodeOk;
    forall a | a in s.nodes
      ensures NodeOk(s', a)
    {
      NodeFrame(s, s', a);
    }
  }

  lemma MoveKeepsLives(s: State, s': State, t: Tid)
    requires Shape(s) && Shape(s') && LivesOk(s) && OnlyThreads(s, s', t)
    requires t == STREAM_THREAD ==>
               var pc, pc' := s.threads[t].pc, s'.threads[t].pc;
               TakenBy(pc') == TakenBy(pc) && ListedBy(pc') == ListedBy(pc)
    ensures LivesOk(s')
  {
    hide LifeOk;
    forall k | 0 <= k < |s.lives|
      ensures LifeOk(s', k)
    {
      LifeFrame(s, s', k);
    }
  }

  lemma MoveKeepsHistory(s: State, s': State, t: Tid)
    requires Shape(s) && Shape(s') && HistoryOk(s) && OnlyThreads(s, s', t)
    requires s'.wire == s.wire && s'.refused == s.refused
    requires t == STREAM_THREAD ==>
               var pc, pc' := s.threads[t].pc, s'.threads[t].pc;
               TakenBy(pc') == TakenBy(pc) && ListedBy(pc') == ListedBy(pc)
    ensures HistoryOk(s')
  {
    hide HistoryOk;
    HistoryFrame(s, s');
  }

  lemma MoveKeepsThread(s: State, s': State, t: Tid, u: Tid)
    requires Shape(s) && Shape(s') && u in s.threads && u != t && ThreadOk(s, u)
    requires OnlyThreads(s, s', t) && s'.stop == s.stop && (t == STREAM_THREAD ==> !s.threads[t].pc.Exited?)
    ensures ThreadKept(s, s', u)
  {
  }

  lemma MoveKeepsThreads(s: State, s': State, t: Tid)
    requires Shape(s) && Shape(s') && ThreadsOk(s)
    requires OnlyThreads(s, s', t) && s'.stop == s.stop && (t == STREAM_THREAD ==> !s.threads[t].pc.Exited?)
    ensures forall u :: u in s.threads && u != t ==> ThreadKept(s, s', u)
  {
    hide Shape, ThreadOk, PairOk, OnlyThreads, ThreadKept;
    forall u | u in s.threads && u != t
      ensures ThreadKept(s, s', u)
    {
      MoveKeepsThread(s, s', t, u);
    }
  }

  /** A thread that goes from `th` to `th'` gives up locks and claims or keeps them. */
  ghost predicate GivesUp(th: Thread, th': Thread) {
    && (forall l :: Holds(th', l) ==> Holds(th, l))
    && Closing(th'.pc) in {None, Closing(th.pc)} && Uncounted(th'.pc) in {None, Uncounted(th.pc)}
    && Setting(th'.pc) in {None, Setting(th.pc)}
  }

  lemma ClaimsKept(s: State, t: Tid, th': Thread)
    requires Shape(s) && ThreadsOk(s) && t in s.threads && GivesUp(s.threads[t], th')
    ensures NoNewClaims(s, t, th')
  {
    hide ThreadOk, Holds, Closing, Uncounted, Setting;
    forall u | u in s.threads && u != t
      ensures LocksApart(th', s.threads[u]) && LocksApart(s.threads[u], th')
      ensures ClaimsApart(s.nodes, th'.pc, s.threads[u].pc) && ClaimsApart(s.nodes, s.threads[u].pc, th'.pc)
    {
      assert PairOk(s, t, u) && PairOk(s, u, t);
    }
  }

  /** A step of a thread other than the stream thread that gives up claims, keeps the stop flag and the node it
      carries, and perhaps wakes the stream thread. */
  lemma MoveOwn(s: State, s': State, t: Tid)
    requires Inv(s) && t in s.threads && t in s'.threads && OnlyThreads(s, s', t)
    requires GivesUp(s.threads[t], s'.threads[t])
    requires Carried(s'.threads[t].pc) == Carried(s.threads[t].pc) && t != STREAM_THREAD && s'.stop == s.stop
    requires Shape(s') && ThreadOk(s', t) && WakeOk(s')
    requires HistoryOk(s') || (s'.wire == s.wire && s'.refused == s.refused)
    ensures Inv(s')
  {
    hide ListsOk, NodesOk, LivesOk, ThreadOk, PairOk, HistoryOk, WakeOk, NoNewClaims, GivesUp, ThreadKept, OnlyThreads,
      Shape, Carried;
    ClaimsKept(s, t, s'.threads[t]);
    if s'.wire == s.wire && s'.refused == s.refused {
      MoveKeepsHistory(s, s', t);
    }
    MoveKeepsThreads(s, s', t);
    MoveKeeps(s, s', t);
  }

  /** A thread that goes from `th` to `pc'` makes no claim, carries the same node and signals nobody. */
  ghost predicate PlainMove(th: Thread, pc': Pc) {
    var pc := th.pc;
    && GivesUp(th, Thread(pc', false)) && Carried(pc') == Carried(pc)
    && TakenBy(pc') == TakenBy(pc) && ListedBy(pc') == ListedBy(pc)
    && !Signalling(pc) && !pc.Exited? && pc' != LoopWait && pc' != DrainWait
  }

  /** A step of thread `t` that changes nothing but its program counter. */
  lemma PlainStep(s: State, t: Tid, pc': Pc)
    requires Inv(s) && t in s.threads && PlainMove(s.threads[t], pc') && ThreadOk(Go(s, t, pc'), t)
    ensures Inv(Go(s, t, pc'))
  {
    var s' := Go(s, t, pc');
    hide ListsOk, NodesOk, LivesOk, HistoryOk, GivesUp, Carried, ThreadOk, NoNewClaims, ThreadKept;
    ClaimsKept(s, t, s'.threads[t]);
    MoveKeepsHistory(s, s', t);
    MoveKeepsThreads(s, s', t);
    assert WakeOk(s') by {
      if t != STREAM_THREAD {
        WakeFrame(s, s', t);
      }
    }
    MoveKeeps(s, s', t);
  }

  /** Every step is one of these. */
  lemma StepCases(s: State, t: Tid)
    requires CanStep(s, t)
    ensures t in s.threads
    ensures var pc := s.threads[t].pc;
            || Target(s, pc).Some? || pc.EnqSignal? || pc.RmvSignal? || pc.DrainTest? || pc.FrcSignal? || pc.CloseEnter?
            || pc.RelCheck? || pc.RelSend? || pc.RmvUnlink? || pc.RmvPush? || pc.CntSet?
            || pc.LoopPop? || pc.StoPush? || pc.Receive? || pc.FrcPop? || pc.FrcPush?
            || pc.EnqPop? || pc.EnqPush? || pc.Refuse? || pc.Freeing?
  {
  }

  /** Which function a step is. */
  lemma StepIs(s: State, t: Tid)
    requires CanStep(s, t) && Target(s, s.threads[t].pc).None?
    ensures var s' := Step(s, t);
            match s.threads[t].pc
            case EnqPop(m) => s' == StepEnqPop(s, t, m)
            case EnqPush(m, a) => s' == StepEnqPush(s, t, m, a)
            case EnqSignal => s' == SignalRecv(Go(s, t, Idle))
            case Refuse(m) => s' == StepRefuse(s, t, m)
            case RelCheck(p, call) => s' == StepRelCheck(s, t, p, call)
            case RelSend(p) => s' == StepRelease(s, t, p)
            case RmvUnlink(p) => s' == StepRmvUnlink(s, t, p)
            case RmvPush(p) => s' == StepRmvPush(s, t, p)
            case RmvSignal => s' == SignalRelease(Go(s, t, Idle))
            case CntSet(p, n) => s' == StepCntSet(s, t, p, n)
            case LoopPop => s' == StepLoopPop(s, t)
            case StoPush(a) => s' == StepStoPush(s, t, a)
            case Receive(a) => s' == StepReceive(s, t, a)
            case DrainTest => s' == Go(s, t, if s.q.release == [] then FrcEnter else DrainWait)
            case FrcPop => s' == StepFrcPop(s, t)
            case FrcPush(a) => s' == StepFrcPush(s, t, a)
            case FrcSignal => s' == SignalRelease(Go(s, t, Exited(true)))
            case CloseEnter => s' == SignalRecv(Go(s.(stop := true), t, Joining))
            case Freeing => s' == StepFreeing(s, t)
            case _ => false
  {
    hide StepEnqPop, StepEnqPush, SignalRecv, StepRefuse, StepRelCheck, StepRelease, StepRmvUnlink, StepRmvPush,
      SignalRelease, StepCntSet, StepLoopPop, StepStoPush, StepReceive, StepFrcPop, StepFrcPush, StepFreeing, Go, Wants;
  }

  // ----- steps that only move their thread

  /** These steps keep the role of their thread, and take no node. */
  lemma TargetTells(s: State, t: Tid, pc: Pc, pc': Pc)
    requires Target(s, pc) == Some(pc') && Role(t, pc)
    ensures Role(t, pc') && Carried(pc') in {None, Carried(pc)} && !pc'.EnqPush? && !pc'.EnqSignal?
    ensures pc'.EnqPop? ==> |pc'.m| <= COMMAND_MAX && !s.stop
  {
  }

  lemma TargetCarry(s: State, t: Tid, pc': Pc)
    requires Shape(s) && t in s.threads && CarryOk(s, t) && Target(s, s.threads[t].pc) == Some(pc')
    ensures CarryOk(Go(s, t, pc'), t)
  {
    hide Target, Role, Carried, Wants;
    TargetTells(s, t, s.threads[t].pc, pc');
  }

  /** They go on with the call they were in, and begin none. */
  lemma TargetClaims(s: State, pc: Pc, pc': Pc)
    requires Target(s, pc) == Some(pc')
    ensures Uncounted(pc') in {None, Uncounted(pc)} && Closing(pc') in {None, Closing(pc)}
    ensures Setting(pc') in {None, Setting(pc)}
    ensures Closing(pc').Some? ==> !pc.RelSend? && !pc'.RelSend?
    ensures Setting(pc').Some? ==> (pc.CntEnter? || pc.CntSet?) && (pc'.CntEnter? || pc'.CntSet?) && pc'.n == pc.n
  {
  }

  lemma TargetClient(s: State, t: Tid, pc': Pc)
    requires Shape(s) && t in s.threads && ClientOk(s, t) && Target(s, s.threads[t].pc) == Some(pc')
    ensures Shape(Go(s, t, pc')) && ClientOk(Go(s, t, pc'), t)
  {
    hide Target, Uncounted, Closing;
    TargetClaims(s, s.threads[t].pc, pc');
  }

  /** Of these steps only one goes on with a message in hand. */
  lemma TargetTaken(s: State, t: Tid, pc': Pc)
    requires Shape(s) && t in s.threads && Target(s, s.threads[t].pc) == Some(pc')
    ensures ListedBy(pc') == None
    ensures TakenBy(pc').Some? ==> TakenBy(pc') == TakenBy(s.threads[t].pc)
  {
    hide Shape;
  }

  lemma TargetDrains(s: State, t: Tid, pc': Pc)
    requires Shape(s) && t in s.threads && Target(s, s.threads[t].pc) == Some(pc')
    ensures !pc'.FrcPush?
    ensures Draining(pc') ==> Draining(s.threads[t].pc)
    ensures Drained(pc') ==> Drained(s.threads[t].pc)
  {
    hide Shape;
  }

  lemma TargetStream(s: State, t: Tid, pc': Pc)
    requires Shape(s) && t in s.threads && StreamOk(s, t) && Target(s, s.threads[t].pc) == Some(pc')
    ensures StreamOk(Go(s, t, pc'), t)
  {
    hide Target, TakenBy, ListedBy, Draining, Drained;
    TargetTaken(s, t, pc');
    TargetDrains(s, t, pc');
  }

  lemma TargetCloser(s: State, t: Tid, pc': Pc)
    requires Shape(s) && t in s.threads && CarryOk(s, t) && CloserOk(s, t) && StreamOk(s, STREAM_THREAD)
    requires Target(s, s.threads[t].pc) == Some(pc')
    requires s.threads[t].pc.Joining? ==> s.threads[STREAM_THREAD].pc.Exited?
    ensures CloserOk(Go(s, t, pc'), t)
  {
  }

  lemma TargetMoves(s: State, th: Thread, pc': Pc)
    requires Target(s, th.pc) == Some(pc') && (Wants(th.pc).Some? ==> th.got)
    ensures PlainMove(th, pc')
  {
  }

  lemma TargetSteps(s: State, t: Tid, pc': Pc)
    requires Inv(s) && t in s.threads && Target(s, s.threads[t].pc) == Some(pc')
    requires Wants(s.threads[t].pc).Some? ==> s.threads[t].got
    requires s.threads[t].pc.Joining? ==> s.threads[STREAM_THREAD].pc.Exited?
    ensures Inv(Go(s, t, pc'))
  {
    assert ThreadOk(s, t) && ThreadOk(s, STREAM_THREAD);
    hide Target, NodesOk, LivesOk, HistoryOk, ListsOk, WakeOk, PlainMove, PairOk, CarryOk, ClientOk, StreamOk, CloserOk;
    TargetCarry(s, t, pc');
    TargetClient(s, t, pc');
    TargetStream(s, t, pc');
    TargetCloser(s, t, pc');
    TargetMoves(s, s.threads[t], pc');
    PlainStep(s, t, pc');
  }

  // ----- steps about one node

  /** A step about the node at `a`, whose life is `k` (past the end when no life changes). */
  ghost predicate NodeStep(s: State, s': State, t: Tid, a: Addr, k: nat) {
    && t in s.threads && Shape(s) && Shape(s') && a in s.nodes && s'.nodes == s.nodes
    && OnlyNode(s, s', a, k) && OthersWoken(s, s', t)
    && Carried(s.threads[t].pc) in {None, Some(a)}
    && DispatchKept(s.threads[STREAM_THREAD].pc, s'.threads[STREAM_THREAD].pc, a)
    && s'.stop == s.stop && (t != STREAM_THREAD ==> s'.taken == s.taken)
    && StaysDrained(s, s', t, a)
  }

  /** What the step leaves behind at the places it touched. */
  ghost predicate StepDone(s': State, t: Tid, a: Addr, k: nat) {
    && Shape(s') && t in s'.threads && a in s'.nodes
    && ListsOk(s') && NodeOk(s', a) && (k < |s'.lives| ==> LifeOk(s', k)) && ThreadOk(s', t)
    && WakeOk(s') && HistoryOk(s')
  }

  lemma NodeStepKeeps(s: State, s': State, t: Tid, a: Addr, k: nat)
    requires Inv(s) && NodeStep(s, s', t, a, k) && StepDone(s', t, a, k)
    requires OthersElsewhere(s, a, k) && NoNewClaims(s, t, s'.threads[t])
    requires forall u :: u in s.threads && u != t ==> SubjectKept(s, s', u)
    ensures Inv(s')
  {
    hide NodesOk, LivesOk, ListsOk, ThreadOk, PairOk, WakeOk, HistoryOk, NoNewClaims, Shape, OnlyNode, OthersElsewhere,
      OthersWoken, SubjectKept, StaysDrained, DispatchKept, NodeOk, LifeOk;
    NodesFrame(s, s', t, a, k);
    LivesFrame(s, s', a, k);
    forall u | u in s.threads && u != t
      ensures ThreadKept(s, s', u)
    {
      ThreadKeptOne(s, s', t, a, k, u);
    }
    Assemble(s, s', t);
  }

  /** A node off the release list and not carried by another thread is nobody else's subject. */
  lemma NoSubject(s: State, t: Tid, a: Addr)
    requires Shape(s) && ThreadsOk(s) && a in s.nodes && s.place[a] in {InPool, InRecv, Freed, With(t)}
    ensures NotSubject(s, t, a)
  {
    forall u | u in s.threads && u != t
      ensures Carried(s.threads[u].pc) != Some(a) && Subject(s.threads[u].pc) != Some(a)
    {
      hide CloserOk, PairOk;
      assert ThreadOk(s, u);
    }
  }

  lemma NoSubjectKept(s: State, s': State, t: Tid, a: Addr, k: nat)
    requires NodeStep(s, s', t, a, k) && NotSubject(s, t, a)
    ensures forall u :: u in s.threads && u != t ==> SubjectKept(s, s', u)
  {
    hide Shape, OnlyNode, NotSubject, SubjectKept, StaysDrained, DispatchKept, OthersWoken;
    forall u | u in s.threads && u != t
      ensures SubjectKept(s, s', u)
    {
      SubjectKeptOne(s, s', t, a, k, u);
    }
  }

  /** The lives at a node that is in the pool, or that a client carries, are over, but for a new one. */
  predicate Vacant(s: State, a: Addr) {
    a in s.place && (s.place[a] in {InPool, Freed} || (s.place[a].With? && s.place[a].t != STREAM_THREAD))
  }

  /** The only life at a node that is not over is the one it serves now. */
  lemma OneLife(s: State, a: Addr, k: nat)
    requires Shape(s) && LivesOk(s) && ThreadOk(s, STREAM_THREAD) && a in s.nodes
    requires Vacant(s, a) || (a in s.owner && s.owner[a] == k)
    ensures OthersElsewhere(s, a, k)
  {
    forall j | 0 <= j < |s.lives| && j != k && s.lives[j].node == a
      ensures s.lives[j].stage == Recycled
    {
      hide ClientOk, StreamOk, CloserOk;
      assert LifeOk(s, j);
    }
  }

  /** A step about a node that no other thread cares about. */
  lemma OwnNodeStep(s: State, s': State, t: Tid, a: Addr, k: nat)
    requires Inv(s) && NodeStep(s, s', t, a, k) && StepDone(s', t, a, k) && NotSubject(s, t, a)
    requires Vacant(s, a) || (a in s.owner && s.owner[a] == k)
    requires NoNewClaims(s, t, s'.threads[t])
    ensures Inv(s')
  {
    assert ThreadOk(s, STREAM_THREAD);
    hide NodesOk, LivesOk, ListsOk, ThreadOk, PairOk, WakeOk, HistoryOk, OthersElsewhere,
      NodeStep, StepDone, SubjectKept, NotSubject, NoNewClaims, Vacant;
    assert a in s.nodes by {
      hide OnlyNode, StaysDrained;
    }
    OneLife(s, a, k);
    NoSubjectKept(s, s', t, a, k);
    NodeStepKeeps(s, s', t, a, k);
  }

  /** A release call that is begun and not counted means that the count has not run out. */
  lemma CallLeft(l: Life, call: nat)
    requires CallsOk(l) && call < l.begun && call !in l.counted
    ensures |l.results| < l.quota
  {
    BoundedSize(l.counted + {call}, l.begun);
  }

  lemma {:induction false} BoundedSize(s: set<nat>, n: nat)
    requires forall i :: i in s ==> i < n
    ensures |s| <= n
  {
    if n == 0 {
      assert s == {};
    } else {
      BoundedSize(s - {n - 1}, n - 1);
    }
  }

  /** A call is working on the message of the listed node `p` alone: it is not delivered yet, or its count has
      run out, or no release has begun. */
  lemma Alone(s: State, t: Tid, p: Addr)
    requires Shape(s) && LivesOk(s) && ThreadsOk(s) && t in s.threads && p in s.nodes && Serves(s, p)
    requires s.place[p] == InRelease
    requires var l := LifeOf(s, p);
             || (l.stage == Listed && t == STREAM_THREAD)
             || (l.stage == Called && |l.results| == l.quota && Closing(s.threads[t].pc) == Some(p))
             || (l.stage == Called && l.begun == 0 && (Setting(s.threads[t].pc) == Some(p) || !l.setting))
    ensures NotSubject(s, t, p)
  {
    forall u | u in s.threads && u != t
      ensures Carried(s.threads[u].pc) != Some(p) && Subject(s.threads[u].pc) != Some(p)
    {
      hide ThreadOk, PairOk, LifeOk, Carried, Subject, Closing, Setting;
      AloneFrom(s, t, p, u);
    }
  }

  lemma AloneFrom(s: State, t: Tid, p: Addr, u: Tid)
    requires Shape(s) && t in s.threads && p in s.nodes && Serves(s, p) && s.place[p] == InRelease
    requires u in s.threads && u != t && ThreadOk(s, u) && PairOk(s, t, u) && LifeOk(s, s.owner[p])
    requires var l := LifeOf(s, p);
             || (l.stage == Listed && t == STREAM_THREAD)
             || (l.stage == Called && |l.results| == l.quota && Closing(s.threads[t].pc) == Some(p))
             || (l.stage == Called && l.begun == 0 && (Setting(s.threads[t].pc) == Some(p) || !l.setting))
    ensures Carried(s.threads[u].pc) != Some(p) && Subject(s.threads[u].pc) != Some(p)
  {
    hide CloserOk, LocksApart;
    var pc, l := s.threads[u].pc, LifeOf(s, p);
    if Uncounted(pc).Some? && Uncounted(pc).value.0 == p {
      CallLeft(l, Uncounted(pc).value.1);
    }
    if l.begun == 0 {
      assert l.counted == {};
    }
  }
}
