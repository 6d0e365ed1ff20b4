/** The invariant holds in every state of every run. */
module ProtocolSafety {
  import opened Options
  import opened Bytes
  import opened StreamMessage
  import opened QueueSpec
  import opened Protocol
  import opened ProtocolInvariant
  import opened ProtocolFrames
  import opened ProtocolSteps
  import opened ProtocolEnqueue
  import opened ProtocolRelease
  import opened ProtocolStream

  /** What every step may take for granted of its thread. */
  lemma StepFacts(s: State, t: Tid)
    requires Inv(s) && t in s.threads
    ensures Role(t, s.threads[t].pc) && !s.threads[t].pc.FrcPush?
    ensures s.threads[t].pc.RelCheck? && s.threads[t].pc.p !in s.q.release ==> s.threads[t].pc.p !in s.nodes
  {
    hide LivesOk, HistoryOk, WakeOk, PairOk;
    assert ThreadOk(s, t);
    var pc := s.threads[t].pc;
    if pc.RelCheck? && pc.p in s.nodes {
      assert NodeOk(s, pc.p);
    }
  }

  /** A call that finds nothing, or a pool that has nothing, ends the call. */
  lemma GiveUpSelf(s: State, t: Tid, pc': Pc)
    requires Shape(s) && t in s.threads && ThreadOk(s, t) && Shape(Go(s, t, pc'))
    requires (s.threads[t].pc.RelCheck? && pc' == Idle) || (s.threads[t].pc.EnqPop? && pc'.Refuse?)
    ensures ThreadOk(Go(s, t, pc'), t) && PlainMove(s.threads[t], pc')
  {
  }

  lemma GiveUpKeeps(s: State, t: Tid, pc': Pc)
    requires Inv(s) && t in s.threads
    requires (s.threads[t].pc.RelCheck? && pc' == Idle) || (s.threads[t].pc.EnqPop? && pc'.Refuse?)
    ensures Inv(Go(s, t, pc'))
  {
    hide NodesOk, LivesOk, ListsOk, WakeOk, HistoryOk, PairOk, CarryOk, ClientOk, StreamOk, CloserOk, PlainMove;
    GiveUpSelf(s, t, pc');
    PlainStep(s, t, pc');
  }

  lemma StepKeeps(s: State, t: Tid)
    requires Inv(s) && CanStep(s, t)
    ensures Inv(Step(s, t))
  {
    hide Inv, Role, StepEnqPush, StepRefuse, StepRelease, StepRmvUnlink, StepRmvPush, StepCntSet, StepStoPush,
      StepReceive, SignalRecv, Holds, Outer, Carried;
    StepFacts(s, t);
    RoleThread(t, s.threads[t].pc);
    var pc := s.threads[t].pc;
    if Target(s, pc).Some? {
      TargetSteps(s, t, Target(s, pc).value);
    } else {
      match pc
      case EnqPop(m) => if s.q.pool == [] { GiveUpKeeps(s, t, Refuse(m)); } else { EnqPopKeeps(s, t, m); }
      case EnqPush(m, a) => EnqPushKeeps(s, t, m, a);
      case EnqSignal => EnqSignalKeeps(s, t);
      case Refuse(m) => RefuseKeeps(s, t, m);
      case RelCheck(p, call) =>
        if p in s.q.release { RelCheckKeeps(s, t, p, call); } else { GiveUpKeeps(s, t, Idle); }
      case RelSend(p) => ReleaseKeeps(s, t, p);
      case RmvUnlink(p) => RmvUnlinkKeeps(s, t, p);
      case RmvPush(p) => RmvPushKeeps(s, t, p);
      case RmvSignal => RmvSignalKeeps(s, t);
      case CntSet(p, n) => CntSetKeeps(s, t, p, n);
      case LoopPop => if s.q.recv == [] { LoopPopEmptyKeeps(s, t); } else { LoopPopKeeps(s, t); }
      case StoPush(a) => StoPushKeeps(s, t, a);
      case Receive(a) => ReceiveKeeps(s, t, a);
      case DrainTest => DrainTestKeeps(s, t);
      case FrcPop => FrcKeeps(s, t);
      case FrcSignal => FrcKeeps(s, t);
      case CloseEnter => StopKeeps(s, t);
      case Freeing => if s.q.pool == [] { FreedKeeps(s, t); } else { FreeingKeeps(s, t); }
    }
  }

  lemma RoleThread(t: Tid, pc: Pc)
    requires Role(t, pc)
    ensures pc.LoopPop? || pc.StoPush? || pc.Receive? || pc.DrainTest? || pc.FrcPop? || pc.FrcSignal?
            ==> t == STREAM_THREAD
    ensures pc.CloseEnter? || pc.Freeing? ==> t == CLOSING_THREAD
  {
  }

  // ----- the other actions

  lemma AcquireSelf(s: State, t: Tid)
    requires Shape(s) && CanAcquire(s, t) && ThreadOk(s, t) && Shape(Acquired(s, t))
    ensures ThreadOk(Acquired(s, t), t)
  {
  }

  lemma AcquireClaims(s: State, t: Tid)
    requires Shape(s) && ThreadsOk(s) && CanAcquire(s, t)
    ensures NoNewClaims(s, t, Acquired(s, t).threads[t])
  {
    hide ThreadOk;
    forall u | u in s.threads && u != t
      ensures var th' := Acquired(s, t).threads[t];
              && LocksApart(th', s.threads[u]) && LocksApart(s.threads[u], th')
              && ClaimsApart(s.nodes, th'.pc, s.threads[u].pc) && ClaimsApart(s.nodes, s.threads[u].pc, th'.pc)
    {
      assert PairOk(s, t, u) && PairOk(s, u, t);
    }
  }

  lemma AcquireMoves(s: State, t: Tid)
    requires Shape(s) && CanAcquire(s, t) && WakeOk(s)
    ensures OnlyThreads(s, Acquired(s, t), t) && Shape(Acquired(s, t)) && WakeOk(Acquired(s, t))
    ensures !s.threads[t].pc.Exited?
  {
    var s' := Acquired(s, t);
    var pc := s.threads[STREAM_THREAD].pc;
    if pc.LoopWait? && s.q.recv != [] {
      var u :| u in s.threads && s.threads[u].pc.EnqSignal?;
      assert s'.threads[u].pc.EnqSignal?;
    }
    if pc.DrainWait? && s.q.release == [] {
      var u :| u in s.threads && (s.threads[u].pc.RmvPush? || s.threads[u].pc.RmvSignal?);
      assert s'.threads[u].pc == s.threads[u].pc;
    }
  }

  lemma AcquireKeeps(s: State, t: Tid)
    requires Inv(s) && CanAcquire(s, t)
    ensures Inv(Acquired(s, t))
  {
    hide NodesOk, LivesOk, ListsOk, WakeOk, HistoryOk, PairOk, CarryOk, ClientOk, StreamOk, CloserOk, NoNewClaims,
      OnlyThreads, ThreadKept;
    var s' := Acquired(s, t);
    assert ThreadOk(s, t);
    AcquireMoves(s, t);
    AcquireSelf(s, t);
    AcquireClaims(s, t);
    MoveKeepsHistory(s, s', t);
    MoveKeepsThreads(s, s', t);
    MoveKeeps(s, s', t);
  }

  lemma BeginSelf(s: State, t: Tid, pc': Pc)
    requires Shape(s) && t in s.threads && ThreadOk(s, t) && s.threads[t].pc == Idle && Shape(Go(s, t, pc'))
    requires (ClientAtRest(s, t) && pc'.EnqEnter?) || (t == CLOSING_THREAD && pc' == CloseEnter)
    ensures ThreadOk(Go(s, t, pc'), t) && PlainMove(s.threads[t], pc')
  {
  }

  lemma BeginKeeps(s: State, t: Tid, pc': Pc)
    requires Inv(s) && t in s.threads && s.threads[t].pc == Idle
    requires (ClientAtRest(s, t) && pc'.EnqEnter?) || (t == CLOSING_THREAD && pc' == CloseEnter)
    ensures Inv(Go(s, t, pc'))
  {
    hide NodesOk, LivesOk, ListsOk, WakeOk, HistoryOk, PairOk, CarryOk, ClientOk, StreamOk, CloserOk, PlainMove;
    BeginSelf(s, t, pc');
    PlainStep(s, t, pc');
  }

  /** Every action keeps the invariant. */
  lemma ActionKeeps(s: State, act: Action)
    requires Inv(s) && Enabled(s, act)
    ensures Inv(Next(s, act))
  {
    hide Inv, Step, CanStep, MayRelease, MaySetCount, BeginRelease, BeginSetCount, CanAcquire, Acquired;
    match act
    case Acquire(t) => AcquireKeeps(s, t);
    case Run(t) => StepKeeps(s, t);
    case Arrive(t, m) => BeginKeeps(s, t, EnqEnter(m));
    case CallRelease(t, p) =>
      if p in s.nodes { BeginReleaseKeeps(s, t, p); } else { StrayReleaseKeeps(s, t, p); }
    case CallSetCount(t, p, n) => BeginSetKeeps(s, t, p, n);
    case CallClose => BeginKeeps(s, CLOSING_THREAD, CloseEnter);
    case Wakeup =>
      WakeKeeps(s, STREAM_THREAD, if s.threads[STREAM_THREAD].pc == LoopWait then LoopEnter else DrainEnter);
    case Timeout => WakeKeeps(s, STREAM_THREAD, DrainLate);
  }

  /** The invariant holds in every state of every run: whatever the interleaving, and through shutdown. */
  lemma {:induction false} RunInv(run: seq<State>, acts: seq<Action>, i: nat)
    requires IsRun(run, acts) && i < |run|
    ensures Inv(run[i])
  {
    hide Inv, Enabled, Next, Init;
    if i == 0 {
      InitInv(run[0]);
    } else {
      RunInv(run, acts, i - 1);
      ActionKeeps(run[i - 1], acts[i - 1]);
    }
  }
}
