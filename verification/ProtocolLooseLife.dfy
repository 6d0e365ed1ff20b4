/** What a node serves in runs in which clients release what they like: it keeps its message until it is pushed back to
    the pool, and never serves that message again. */
module ProtocolLooseLife {
  import opened Options
  import opened Bytes
  import opened StreamMessage
  import opened QueueSpec
  import opened Protocol
  import opened ProtocolInvariant
  import opened ProtocolFrames
  import opened ProtocolSteps
  import opened ProtocolLastCall
  import opened ProtocolLoose

  /** What a step can mean for a node: it is pushed back to the pool, put on the release list, or taken off it. */
  datatype Meaning = NoMove | IsPushed | IsListed | IsUnlinked

  function MeaningOf(s: State, act: Action, p: Addr): Meaning {
    if !act.Run? || act.t !in s.threads then NoMove
    else
      match s.threads[act.t].pc
      case RmvPush(p') => if p' == p then IsPushed else NoMove
      case StoPush(a) => if a == p then IsListed else NoMove
      case RmvUnlink(p') => if p' == p then IsUnlinked else NoMove
      case _ => NoMove
  }

  /** From `s` to `s'`, the node at `p` keeps the message it serves, or loses it for good, or gets a new one. */
  ghost predicate Serving(s: State, s': State, p: Addr, what: Meaning) {
    && |s.lives| <= |s'.lives| && s.accepted <= s'.accepted && p in s.place && p in s'.place
    && (s'.place[p] == InRelease <==> what == IsListed || (s.place[p] == InRelease && what != IsUnlinked))
    && (Loaded(s, p) ==> (Loaded(s', p) <==> what != IsPushed))
    && (Loaded(s, p) && p in s.owner ==> p in s'.owner && s'.owner[p] == s.owner[p])
    && (!Loaded(s, p) && p in s.owner ==>
          p in s'.owner && (s'.owner[p] == s.owner[p] || s'.owner[p] >= |s.lives|))
    && (!Loaded(s, p) && Loaded(s', p) ==> p in s'.owner && s'.owner[p] >= |s.lives|)
  }

  lemma StillServing(s: State, s': State, t: Tid, p: Addr)
    requires Shape(s) && Shape(s') && Still(s, s', t) && p in s.nodes && LooseNode(s, p)
    ensures Serving(s, s', p, NoMove)
  {
    hide Carried, Role, Drained, ValidMagic;
    if s.place[p].With? && s.place[p].t != t {
      WokenKeeps(s.threads[s.place[p].t], s'.threads[s.place[p].t], s.place[p].t);
    }
  }

  /** A step about another node. */
  lemma AboutServing(s: State, s': State, t: Tid, a: Addr, p: Addr)
    requires Shape(s) && Shape(s') && About(s, s', t, a) && p in s.nodes && p != a && LooseNode(s, p)
    ensures Serving(s, s', p, NoMove)
  {
    hide Carried, Role, Drained, ValidMagic;
    assert OtherNode(s, s', p);
    if s.place[p].With? {
      OtherCarries(s, s', t, s.place[p].t, p);
    }
  }

  // ----- the node that a step is about

  lemma TakesServing(s: State, t: Tid)
    requires Shape(s) && CanStep(s, t)
    requires var pc := s.threads[t].pc;
             || (pc.EnqPop? && s.q.pool != [] && s.q.pool[0] in s.nodes && s.place[s.q.pool[0]] == InPool)
             || (pc.Freeing? && s.q.pool != [] && s.q.pool[0] in s.nodes && s.place[s.q.pool[0]] == InPool)
    ensures Serving(s, Step(s, t), s.q.pool[0], NoMove)
  {
    hide Wants;
  }

  lemma QueueServing(s: State, t: Tid)
    requires Shape(s) && CanStep(s, t)
    requires s.threads[t].pc.LoopPop? && s.q.recv != [] && s.q.recv[0] in s.nodes && s.place[s.q.recv[0]] == InRecv
    ensures Serving(s, Step(s, t), s.q.recv[0], NoMove)
  {
    hide Wants;
  }

  lemma EnqPushServing(s: State, t: Tid, a: Addr)
    requires Shape(s) && CanStep(s, t) && s.threads[t].pc.EnqPush? && s.threads[t].pc.a == a
    requires a in s.nodes && s.place[a] == With(t)
    ensures Serving(s, Step(s, t), a, NoMove)
  {
    hide Wants, Overlay;
  }

  lemma StoPushServing(s: State, t: Tid, a: Addr)
    requires Shape(s) && CanStep(s, t) && s.threads[t].pc == StoPush(a) && a in s.nodes && s.place[a] == With(t)
    ensures Serving(s, Step(s, t), a, IsListed)
  {
    hide Wants;
  }

  lemma ListedServing(s: State, t: Tid, p: Addr)
    requires Shape(s) && CanStep(s, t) && p in s.nodes && s.place[p] == InRelease && p in s.q.release
    requires var pc := s.threads[t].pc; (pc.RelCheck? || pc.CntSet? || pc.RmvUnlink?) && pc.p == p
    ensures Serving(s, Step(s, t), p, if s.threads[t].pc.RmvUnlink? then IsUnlinked else NoMove)
  {
    hide Wants, Without;
  }

  lemma RmvPushServing(s: State, t: Tid, p: Addr)
    requires Shape(s) && CanStep(s, t) && s.threads[t].pc == RmvPush(p) && p in s.nodes && s.place[p] == With(t)
    ensures Serving(s, Step(s, t), p, IsPushed)
  {
    hide Wants;
  }

  /** The node that a step is about, if any. */
  function StepNode(s: State, pc: Pc): Option<Addr> {
    match pc
    case EnqPop(_) => if s.q.pool != [] then Some(s.q.pool[0]) else None
    case EnqPush(_, a) => Some(a)
    case LoopPop => if s.q.recv != [] then Some(s.q.recv[0]) else None
    case StoPush(a) => Some(a)
    case RmvUnlink(p) => Some(p)
    case RmvPush(p) => Some(p)
    case RelCheck(p, _) => if p in s.q.release then Some(p) else None
    case CntSet(p, _) => if p in s.q.release then Some(p) else None
    case Freeing => if s.q.pool != [] then Some(s.q.pool[0]) else None
    case _ => None
  }

  lemma OwnServing(s: State, t: Tid)
    requires LooseInv(s) && CanStep(s, t) && !Damages(s, Run(t)) && StepNode(s, s.threads[t].pc).Some?
    ensures var p := StepNode(s, s.threads[t].pc).value;
            p in s.nodes && Serving(s, Step(s, t), p, MeaningOf(s, Run(t), p))
  {
    hide Shape, ListsOk, NoDup, Serving, Step, Wants, Role, LooseNodes, LooseLists;
    var pc := s.threads[t].pc;
    var p := StepNode(s, pc).value;
    ListsShape(s);
    assert LooseThread(s, t);
    OwnPlace(s, t);
    PlaceInList(s, p);
    match pc
    case EnqPop(_) => TakesServing(s, t);
    case EnqPush(_, a) => EnqPushServing(s, t, a);
    case LoopPop => QueueServing(s, t);
    case StoPush(a) => StoPushServing(s, t, a);
    case RmvPush(_) => RmvPushServing(s, t, p);
    case Freeing => TakesServing(s, t);
    case _ => ListedServing(s, t, p);
  }

  lemma OwnAbout(s: State, t: Tid)
    requires LooseInv(s) && CanStep(s, t) && !Damages(s, Run(t)) && StepNode(s, s.threads[t].pc).Some?
    requires Shape(Step(s, t))
    ensures Shape(s) && About(s, Step(s, t), t, StepNode(s, s.threads[t].pc).value)
  {
    hide Shape, ListsOk, NoDup, About, Wants, Role, LooseNodes, LooseLists, StepEnqPop, StepEnqPush, StepLoopPop,
      StepStoPush, StepRmvUnlink, StepRmvPush, StepFreeing, StepRelCheck, StepCntSet;
    var pc := s.threads[t].pc;
    ListsShape(s);
    assert LooseThread(s, t);
    OwnPlace(s, t);
    PlaceInList(s, StepNode(s, pc).value);
    RoleOf(s, t);
    match pc
    case EnqPop(m) => EnqPopAbout(s, t, m);
    case EnqPush(m, a) => EnqPushAbout(s, t, m, a);
    case LoopPop => LoopPopAbout(s, t);
    case StoPush(a) => StoPushAbout(s, t, a);
    case RmvUnlink(p) => RmvUnlinkAbout(s, t, p);
    case RmvPush(p) => RmvPushAbout(s, t, p);
    case RelCheck(p, call) => RelCheckAbout(s, t, p, call);
    case CntSet(p, n) => CntSetAbout(s, t, p, n);
    case Freeing => FreeingAbout(s, t);
  }

  lemma NoneStill(s: State, t: Tid)
    requires LooseInv(s) && CanStep(s, t) && StepNode(s, s.threads[t].pc).None?
    ensures Shape(s) && Still(s, Step(s, t), t)
  {
    hide LooseInv, Shape, Still, Role, Drained, Carried, Wants, Deliverable, StepCall, StepDrop, StepRelease,
      StepRefuse, SignalRecv, SignalRelease;
    RoleOf(s, t);
    var pc := s.threads[t].pc;
    if Target(s, pc).Some? {
      TargetStill(s, t, Target(s, pc).value);
    } else {
      match pc
      case Refuse(m) => RefuseStill(s, t, m);
      case RelSend(p) => ReleaseStill(s, t, p);
      case Receive(a) => if Deliverable(s.q.cells[a].command) { CallStill(s, t, a); } else { DropStill(s, t, a); }
      case FrcPop => DrainedFrc(); OtherStill(s, t);
      case _ => OtherStill(s, t);
    }
  }

  lemma RunServing(s: State, t: Tid, p: Addr)
    requires LooseInv(s) && CanStep(s, t) && !Damages(s, Run(t)) && p in s.nodes
    ensures Shape(s) && Serving(s, Step(s, t), p, MeaningOf(s, Run(t), p))
  {
    hide LooseInv, Shape, Serving, Step, StepNode, About, Still, LooseNode, Wants, MeaningOf;
    StepLoose(s, t);
    LooseShape(s);
    LooseShape(Step(s, t));
    NodeOfLoose(s, p);
    var pc := s.threads[t].pc;
    if StepNode(s, pc) != Some(p) {
      OtherMeaning(s, t, p);
    }
    if StepNode(s, pc).None? {
      NoneStill(s, t);
      StillServing(s, Step(s, t), t, p);
    } else if StepNode(s, pc).value == p {
      OwnServing(s, t);
    } else {
      OwnAbout(s, t);
      AboutServing(s, Step(s, t), t, StepNode(s, pc).value, p);
    }
  }

  lemma OtherMeaning(s: State, t: Tid, p: Addr)
    requires t in s.threads && StepNode(s, s.threads[t].pc) != Some(p)
    ensures MeaningOf(s, Run(t), p) == NoMove
  {
  }

  lemma NodeOfLoose(s: State, p: Addr)
    requires LooseInv(s) && p in s.nodes
    ensures Shape(s) && LooseNode(s, p)
  {
    hide LooseNode;
  }

  lemma ActionServing(s: State, act: Action, p: Addr)
    requires LooseInv(s) && LooseEnabled(s, act) && p in s.nodes
    ensures Serving(s, LooseNext(s, act), p, MeaningOf(s, act, p))
  {
    hide LooseInv, Shape, Serving, Still, Step, CanStep, Holds, Wants, LooseNode;
    LooseShape(s);
    LooseActionKeeps(s, act);
    LooseShape(LooseNext(s, act));
    NodeOfLoose(s, p);
    var t := match act
      case Run(t) => t
      case Acquire(t) => t
      case Arrive(t, _) => t
      case CallRelease(t, _) => t
      case CallSetCount(t, _, _) => t
      case CallClose => CLOSING_THREAD
      case Wakeup => STREAM_THREAD
      case Timeout => STREAM_THREAD;
    match act
    case Run(_) => RunServing(s, t, p);
    case Acquire(_) => AcquireStill(s, t); StillServing(s, LooseNext(s, act), t, p);
    case CallRelease(_, _) => BeginStill(s, act); StillServing(s, LooseNext(s, act), t, p);
    case CallSetCount(_, _, _) => SetCountStill(s, act); StillServing(s, LooseNext(s, act), t, p);
    case Wakeup => WakeStill(s, act); StillServing(s, LooseNext(s, act), t, p);
    case Timeout => WakeStill(s, act); StillServing(s, LooseNext(s, act), t, p);
    case _ => EnterStill(s, act); StillServing(s, LooseNext(s, act), t, p);
  }

  lemma StepNodes(s: State, t: Tid)
    requires LooseInv(s) && CanStep(s, t) && !Damages(s, Run(t))
    ensures Step(s, t).nodes == s.nodes
  {
    hide LooseInv, Shape, Step, StepNode, Wants;
    StepLoose(s, t);
    LooseShape(Step(s, t));
    if StepNode(s, s.threads[t].pc).None? {
      NoneStill(s, t);
    } else {
      OwnAbout(s, t);
    }
  }

  lemma ActionNodes(s: State, act: Action)
    requires LooseInv(s) && LooseEnabled(s, act)
    ensures LooseNext(s, act).nodes == s.nodes
  {
    hide LooseInv, Step, CanStep, Holds, Wants;
    if act.Run? {
      StepNodes(s, act.t);
    }
  }
}
