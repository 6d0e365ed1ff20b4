/** The steps of the clients keep the invariant: Stream_release_with_queue and Stream_release_set_count. */
module ProtocolRelease {
  import opened Options
  import opened Bytes
  import opened StreamMessage
  import opened QueueSpec
  import opened Protocol
  import opened ProtocolInvariant
  import opened ProtocolFrames
  import opened ProtocolSteps

  /** The node at `p` is on the release list with a delivered message. */
  ghost predicate ActiveNode(s: State, p: Addr) {
    && Shape(s) && p in s.nodes && s.place[p] == InRelease && p in s.q.release && Serves(s, p)
    && var l := LifeOf(s, p);
    && l.stage == Called && CallsOk(l) && s.owner[p] < s.taken
    && Deliverable(s.accepted[s.owner[p]]) && HoldsMessage(s, p)
    && s.q.cells[p].counter == l.quota - |l.results|
  }

  lemma IsActive(s: State, p: Addr)
    requires Shape(s) && NodesOk(s) && LivesOk(s) && p in s.nodes && s.place[p] == InRelease && Serves(s, p)
    requires LifeOf(s, p).stage == Called
    ensures ActiveNode(s, p)
  {
    hide CallsOk;
    assert NodeOk(s, p) && LifeOk(s, s.owner[p]);
  }

  /** An active node may change its counts and its life, within the rules. */
  lemma ActiveNodeOk(s: State, p: Addr)
    requires ActiveNode(s, p)
    ensures NodeOk(s, p) && LifeOk(s, s.owner[p])
  {
    hide CallsOk;
  }

  /** From `s` to `s'` the count of the node at `p` and its life changed, and a thread moved. */
  ghost predicate CountStep(s: State, s': State, p: Addr, l: Life, count: int)
    requires ActiveNode(s, p)
  {
    && s' == s.(threads := s'.threads, wire := s'.wire, lives := s.lives[s.owner[p] := l],
                q := s.q.(cells := s.q.cells[p := s.q.cells[p].(counter := count)]))
    && s.threads.Keys <= s'.threads.Keys
    && l.node == p && l.stage == Called && CallsOk(l) && count == l.quota - |l.results|
  }

  lemma CountStepData(s: State, s': State, p: Addr, l: Life, count: int)
    requires ActiveNode(s, p) && ListsOk(s) && CountStep(s, s', p, l, count)
    ensures Shape(s') && ListsOk(s') && ActiveNode(s', p)
  {
    hide CallsOk, Deliverable, NoDup;
    assert Shape(s') && ListsOk(s') by {
      hide HoldsMessage;
    }
  }

  // ----- a call is counted

  /** The life of a node after one more counted call. */
  lemma CountedLife(l: Life, call: nat, ret: int)
    requires CallsOk(l) && l.stage == Called && call < l.begun && call !in l.counted
    requires ret == l.quota - |l.results| - 1
    ensures |l.results| < l.quota && !l.setting && !l.sent
    ensures CallsOk(l.(results := l.results + [ret], counted := l.counted + {call}))
  {
    CallLeft(l, call);
  }

  lemma RelCheckData(s: State, t: Tid, p: Addr, call: nat)
    requires ActiveNode(s, p) && ListsOk(s) && call < LifeOf(s, p).begun && call !in LifeOf(s, p).counted
    requires t in s.threads
    ensures var s' := StepRelCheck(s, t, p, call); Shape(s') && ListsOk(s') && ActiveNode(s', p)
  {
    hide CallsOk, NoDup, ListsOk, HoldsMessage;
    var l, s', count := LifeOf(s, p), StepRelCheck(s, t, p, call), s.q.cells[p].counter - 1;
    CountedLife(l, call, count);
    CountStepData(s, s', p, l.(results := l.results + [count], counted := l.counted + {call}), count);
  }

  lemma RelCheckSelf(s: State, t: Tid, p: Addr, call: nat)
    requires ActiveNode(s, p) && call < LifeOf(s, p).begun && call !in LifeOf(s, p).counted
    requires t in s.threads && s.threads[t].pc == RelCheck(p, call) && CarryOk(s, t) && CloserOk(s, t)
    requires Shape(StepRelCheck(s, t, p, call))
    ensures ThreadOk(StepRelCheck(s, t, p, call), t)
  {
    hide CallsOk, HoldsMessage, Deliverable, CountsDown;
    var s' := StepRelCheck(s, t, p, call);
    CountedLife(LifeOf(s, p), call, s.q.cells[p].counter - 1);
    assert CarryOk(s', t) && StreamOk(s', t) && CloserOk(s', t);
    assert ClientOk(s', t);
  }

  lemma RelCheckHistory(s: State, t: Tid, p: Addr, call: nat)
    requires ActiveNode(s, p) && WakeOk(s) && HistoryOk(s) && Shape(StepRelCheck(s, t, p, call))
    requires t in s.threads && s.threads[t].pc == RelCheck(p, call) && CarryOk(s, t)
    ensures var s' := StepRelCheck(s, t, p, call); WakeOk(s') && HistoryOk(s')
  {
    var s' := StepRelCheck(s, t, p, call);
    hide WakeOk, HistoryOk, CallsOk;
    WakeFrame(s, s', t);
    HistoryFrame(s, s');
  }

  lemma RelCheckFrame(s: State, t: Tid, p: Addr, call: nat)
    requires Shape(s) && ListsOk(s) && p in s.q.release
    requires t in s.threads && s.threads[t].pc == RelCheck(p, call) && ThreadOk(s, t) && ThreadOk(s, STREAM_THREAD)
    requires p in s.q.cells && HasLife(s, p) && Shape(StepRelCheck(s, t, p, call))
    ensures NodeStep(s, StepRelCheck(s, t, p, call), t, p, s.owner[p])
  {
    hide NoDup, ClientOk, CloserOk, HoldsMessage;
  }

  /** Any other call about `p` is a release that is still to be counted. */
  lemma OnlyUncounted(s: State, t: Tid, p: Addr, call: nat, u: Tid)
    requires Shape(s) && t in s.threads && p in s.nodes && Serves(s, p) && LifeOk(s, s.owner[p])
    requires s.place[p] == InRelease && LifeOf(s, p).stage == Called && !LifeOf(s, p).setting
    requires |LifeOf(s, p).results| < LifeOf(s, p).quota
    requires u in s.threads && u != t && ThreadOk(s, u)
    ensures Carried(s.threads[u].pc) != Some(p) && Closing(s.threads[u].pc) != Some(p)
    ensures Subject(s.threads[u].pc) == Some(p) ==> Uncounted(s.threads[u].pc).Some?
  {
    hide CloserOk;
  }

  lemma RelCheckOther(s: State, t: Tid, p: Addr, call: nat, u: Tid)
    requires Shape(s) && p in s.q.release && t in s.threads && s.threads[t].pc == RelCheck(p, call)
    requires p in s.nodes && p in s.q.cells && Serves(s, p) && LifeOk(s, s.owner[p])
    requires s.place[p] == InRelease && LifeOf(s, p).stage == Called && !LifeOf(s, p).setting
    requires |LifeOf(s, p).results| < LifeOf(s, p).quota
    requires u in s.threads && u != t && ThreadOk(s, u) && PairOk(s, t, u)
    requires Shape(StepRelCheck(s, t, p, call)) && NodeStep(s, StepRelCheck(s, t, p, call), t, p, s.owner[p])
    ensures SubjectKept(s, StepRelCheck(s, t, p, call), u)
  {
    OnlyUncounted(s, t, p, call, u);
    hide ThreadOk, LifeOk, StaysDrained, OthersWoken, DispatchKept, LocksApart;
  }

  lemma RelCheckTells(s: State, t: Tid, p: Addr, call: nat)
    requires Inv(s) && p in s.q.release && t in s.threads && s.threads[t].pc == RelCheck(p, call)
    requires p in s.q.cells && HasLife(s, p)
    ensures p in s.nodes && Serves(s, p) && LifeOk(s, s.owner[p]) && |LifeOf(s, p).results| < LifeOf(s, p).quota
    ensures LifeOf(s, p).stage == Called && !LifeOf(s, p).setting && s.place[p] == InRelease
  {
    hide NodesOk, WakeOk, HistoryOk, PairOk;
    assert ThreadOk(s, t) && LifeOk(s, s.owner[p]);
    CallLeft(LifeOf(s, p), call);
  }

  lemma RelCheckOthers(s: State, t: Tid, p: Addr, call: nat)
    requires Inv(s) && p in s.q.release && t in s.threads && s.threads[t].pc == RelCheck(p, call)
    requires p in s.q.cells && HasLife(s, p) && Shape(StepRelCheck(s, t, p, call))
    requires NodeStep(s, StepRelCheck(s, t, p, call), t, p, s.owner[p])
    ensures forall u :: u in s.threads && u != t ==> SubjectKept(s, StepRelCheck(s, t, p, call), u)
    ensures forall u :: u in s.threads && u != t ==> Closing(s.threads[u].pc) != Some(p)
  {
    hide ListsOk, NodesOk, LivesOk, WakeOk, HistoryOk, ThreadOk, PairOk, LifeOk, NodeStep, SubjectKept, Shape,
      Closing, Carried, Serves, CallsOk;
    RelCheckTells(s, t, p, call);
    forall u | u in s.threads && u != t
      ensures SubjectKept(s, StepRelCheck(s, t, p, call), u) && Closing(s.threads[u].pc) != Some(p)
    {
      OnlyUncounted(s, t, p, call, u);
      RelCheckOther(s, t, p, call, u);
    }
  }

  lemma RelCheckClaims(s: State, t: Tid, p: Addr, pc': Pc)
    requires Shape(s) && ThreadsOk(s) && t in s.threads && s.threads[t].pc.RelCheck?
    requires pc' in {Idle, RelSend(p)}
    requires forall u :: u in s.threads && u != t ==> Closing(s.threads[u].pc) != Some(p)
    ensures NoNewClaims(s, t, Thread(pc', false))
  {
    hide ThreadOk;
    forall u | u in s.threads && u != t
      ensures LocksApart(Thread(pc', false), s.threads[u]) && LocksApart(s.threads[u], Thread(pc', false))
    {
      assert PairOk(s, t, u) && PairOk(s, u, t);
    }
  }

  lemma RelCheckGives(s: State, t: Tid, p: Addr, call: nat)
    requires Inv(s) && t in s.threads && s.threads[t].pc == RelCheck(p, call) && p in s.q.release
    ensures ThreadOk(s, t) && ThreadOk(s, STREAM_THREAD) && CarryOk(s, t) && CloserOk(s, t)
    ensures p in s.nodes && p in s.q.cells && Serves(s, p) && s.place[p] == InRelease
    ensures var l := LifeOf(s, p); l.stage == Called && call < l.begun && call !in l.counted
  {
    hide NodesOk, LivesOk, WakeOk, HistoryOk, PairOk, NoDup;
    assert ThreadOk(s, t) && ThreadOk(s, STREAM_THREAD);
  }

  lemma RelCheckKeeps(s: State, t: Tid, p: Addr, call: nat)
    requires Inv(s) && t in s.threads && s.threads[t].pc == RelCheck(p, call) && p in s.q.release
    ensures p in s.q.cells && HasLife(s, p) && Inv(StepRelCheck(s, t, p, call))
  {
    hide NodesOk, LivesOk, ListsOk, WakeOk, HistoryOk, ThreadOk, NodeOk, LifeOk, NodeStep, NoNewClaims, Serves,
      ActiveNode, OthersElsewhere, SubjectKept, PairOk;
    RelCheckGives(s, t, p, call);
    ServesLife(s, p);
    var s', k := StepRelCheck(s, t, p, call), s.owner[p];
    IsActive(s, p);
    RelCheckData(s, t, p, call);
    RelCheckSelf(s, t, p, call);
    RelCheckHistory(s, t, p, call);
    ActiveNodeOk(s', p);
    RelCheckFrame(s, t, p, call);
    RelCheckOthers(s, t, p, call);
    RelCheckClaims(s, t, p, s'.threads[t].pc);
    OneLife(s, p, k);
    NodeStepKeeps(s, s', t, p, k);
  }

  lemma ServesLife(s: State, p: Addr)
    requires Serves(s, p)
    ensures HasLife(s, p)
  {
  }

  // ----- the release is sent

  lemma RelSendData(s: State, t: Tid, p: Addr)
    requires ActiveNode(s, p) && ListsOk(s) && |LifeOf(s, p).results| == LifeOf(s, p).quota
    ensures var s' := StepRelSend(s, t, p); Shape(s') && ListsOk(s') && ActiveNode(s', p)
  {
    hide NoDup, CountsDown, ListsOk, HoldsMessage;
    CountStepData(s, StepRelSend(s, t, p), p, LifeOf(s, p).(sent := true), s.q.cells[p].counter);
  }

  lemma RelSendSelf(s: State, t: Tid, p: Addr)
    requires ActiveNode(s, p) && |LifeOf(s, p).results| == LifeOf(s, p).quota
    requires t in s.threads && s.threads[t].pc == RelSend(p) && CarryOk(s, t) && CloserOk(s, t)
    requires Shape(StepRelSend(s, t, p))
    ensures ThreadOk(StepRelSend(s, t, p), t)
  {
    hide CallsOk, HoldsMessage, Deliverable, CountsDown;
  }

  lemma RelSendWires(s: State, t: Tid, p: Addr)
    requires ActiveNode(s, p) && HistoryOk(s) && !LifeOf(s, p).sent && t in s.threads && Shape(StepRelSend(s, t, p))
    ensures var s' := StepRelSend(s, t, p);
            && (forall i :: 0 <= i < |s.wire| ==> WireOk(s', s.wire[i]) && s.wire[i].origin != OfAccepted(s.owner[p]))
            && WireOk(s', s'.wire[|s.wire|])
  {
    hide Dispatched, Delivered, OriginsDiffer, SentFor, ReleaseOf, Converted, Stored, CallsOk;
    forall i | 0 <= i < |s.wire|
      ensures WireOk(StepRelSend(s, t, p), s.wire[i]) && s.wire[i].origin != OfAccepted(s.owner[p])
    {
      assert WireOk(s, s.wire[i]);
    }
  }

  lemma RelSendHistory(s: State, t: Tid, p: Addr)
    requires ActiveNode(s, p) && HistoryOk(s) && !LifeOf(s, p).sent && t in s.threads && t != STREAM_THREAD
    requires Shape(StepRelSend(s, t, p))
    ensures HistoryOk(StepRelSend(s, t, p))
  {
    hide CallsOk, Converted, Stored, Delivered, ReleaseOf, WireOk, SentFor, OriginsDiffer, HoldsMessage;
    RelSendWires(s, t, p);
    var w := StepRelSend(s, t, p).wire[|s.wire|];
    SentGrows(s.wire, w);
    OriginsGrow(s.wire, w);
  }

  lemma RelSendOnly(s: State, t: Tid, p: Addr)
    requires Shape(s) && WakeOk(s) && p in s.nodes && HasLife(s, p) && Shape(StepRelSend(s, t, p))
    requires t in s.threads && s.threads[t].pc == RelSend(p) && CarryOk(s, t)
    ensures OnlyNode(s, StepRelSend(s, t, p), p, s.owner[p])
  {
    hide WakeOk, ReleaseOf;
  }

  lemma RelSendFrame(s: State, t: Tid, p: Addr)
    requires Shape(s) && WakeOk(s) && p in s.nodes && HasLife(s, p) && Shape(StepRelSend(s, t, p))
    requires t in s.threads && s.threads[t].pc == RelSend(p) && CarryOk(s, t)
    ensures NodeStep(s, StepRelSend(s, t, p), t, p, s.owner[p]) && WakeOk(StepRelSend(s, t, p))
    ensures GivesUp(s.threads[t], StepRelSend(s, t, p).threads[t])
  {
    hide WakeOk, OnlyNode, ReleaseOf;
    RelSendOnly(s, t, p);
    WakeFrame(s, StepRelSend(s, t, p), t);
  }

  /** What a thread carrying out the last release of `p` relies on. */
  lemma ClosingFacts(s: State, t: Tid, p: Addr)
    requires Inv(s) && t in s.threads && Closing(s.threads[t].pc) == Some(p)
    ensures t != STREAM_THREAD && ThreadOk(s, t) && ThreadOk(s, STREAM_THREAD)
    ensures ActiveNode(s, p) && |LifeOf(s, p).results| == LifeOf(s, p).quota
    ensures LifeOf(s, p).sent <==> !s.threads[t].pc.RelSend?
    ensures NotSubject(s, t, p)
  {
    hide ListsOk, NodesOk, LivesOk, WakeOk, HistoryOk, PairOk, NotSubject, ActiveNode;
    assert ThreadOk(s, t) && ThreadOk(s, STREAM_THREAD);
    IsActive(s, p);
    Alone(s, t, p);
  }

  lemma RelSendKeeps(s: State, t: Tid, p: Addr)
    requires Inv(s) && t in s.threads && s.threads[t].pc == RelSend(p)
    ensures p in s.q.cells && HasLife(s, p) && Inv(StepRelSend(s, t, p))
  {
    hide NodesOk, LivesOk, ListsOk, WakeOk, HistoryOk, NodeOk, LifeOk, NodeStep, NoNewClaims, NotSubject, CarryOk,
      ClientOk, StreamOk, CloserOk, GivesUp, PairOk;
    ClosingFacts(s, t, p);
    var s', k := StepRelSend(s, t, p), s.owner[p];
    RelSendData(s, t, p);
    RelSendSelf(s, t, p);
    RelSendHistory(s, t, p);
    RelSendFrame(s, t, p);
    ActiveNodeOk(s', p);
    ClaimsKept(s, t, s'.threads[t]);
    OwnNodeStep(s, s', t, p, k);
  }

  /** The message of an active node has been delivered, so its magic is valid. */
  lemma ActiveMagic(s: State, p: Addr)
    requires ActiveNode(s, p)
    ensures ValidMagic(s.q.cells[p].command)
  {
    hide Deliverable, ValidMagic, Stored, Converted, CallsOk;
    var m := s.accepted[s.owner[p]];
    DeliverableStored(m);
    DeliverableConverted(s.conv, Stored(m));
    DeliverableMagic(m);
  }

  lemma ReleaseKeeps(s: State, t: Tid, p: Addr)
    requires Inv(s) && t in s.threads && s.threads[t].pc == RelSend(p)
    ensures p in s.q.cells && HasLife(s, p) && ValidMagic(s.q.cells[p].command)
    ensures Inv(StepRelease(s, t, p))
  {
    hide Inv, StepRelSend, ValidMagic, ActiveNode, ThreadOk;
    RelSendKeeps(s, t, p);
    ClosingFacts(s, t, p);
    ActiveMagic(s, p);
  }

  // ----- the node leaves the release list

  lemma RmvUnlinkLists(s: State, t: Tid, p: Addr)
    requires ActiveNode(s, p) && ListsOk(s)
    ensures NoDup(s.q.release) && Shape(StepRmvUnlink(s, t, p)) && ListsOk(StepRmvUnlink(s, t, p))
  {
    hide HoldsMessage, Without, CallsOk, Deliverable;
    WithoutMember(s.q.release, p);
  }

  lemma RmvUnlinkNode(s: State, t: Tid, p: Addr)
    requires ActiveNode(s, p) && LifeOf(s, p).sent && Shape(StepRmvUnlink(s, t, p))
    requires t in s.threads && t != STREAM_THREAD
    ensures var s' := StepRmvUnlink(s, t, p); NodeOk(s', p) && LifeOk(s', s.owner[p])
  {
    hide HoldsMessage, Without;
  }

  lemma RmvUnlinkThread(s: State, t: Tid, p: Addr)
    requires ActiveNode(s, p) && WakeOk(s) && HistoryOk(s) && Shape(StepRmvUnlink(s, t, p))
    requires t in s.threads && s.threads[t].pc == RmvUnlink(p) && CarryOk(s, t) && CloserOk(s, t)
    ensures ThreadOk(StepRmvUnlink(s, t, p), t)
  {
    hide CallsOk, HoldsMessage, Deliverable, WakeOk, HistoryOk;
  }

  lemma RmvUnlinkSelf(s: State, t: Tid, p: Addr)
    requires ActiveNode(s, p) && WakeOk(s) && HistoryOk(s) && Shape(StepRmvUnlink(s, t, p))
    requires t in s.threads && s.threads[t].pc == RmvUnlink(p) && CarryOk(s, t) && CloserOk(s, t)
    ensures var s' := StepRmvUnlink(s, t, p); ThreadOk(s', t) && WakeOk(s') && HistoryOk(s')
  {
    hide CallsOk, HoldsMessage, Deliverable, WakeOk, HistoryOk, ThreadOk;
    RmvUnlinkThread(s, t, p);
    var s' := StepRmvUnlink(s, t, p);
    WakeFrame(s, s', t);
    HistoryFrame(s, s');
  }

  lemma RmvUnlinkOnly(s: State, t: Tid, p: Addr)
    requires ActiveNode(s, p) && NoDup(s.q.release) && Shape(StepRmvUnlink(s, t, p))
    requires t in s.threads && s.threads[t].pc == RmvUnlink(p) && CarryOk(s, t) && StreamOk(s, STREAM_THREAD)
    ensures OnlyNode(s, StepRmvUnlink(s, t, p), p, s.owner[p])
  {
    hide CallsOk, HoldsMessage, Deliverable, NoDup, Without, StreamOk;
    WithoutMember(s.q.release, p);
  }

  lemma RmvUnlinkFrame(s: State, t: Tid, p: Addr)
    requires ActiveNode(s, p) && NoDup(s.q.release) && Shape(StepRmvUnlink(s, t, p))
    requires t in s.threads && s.threads[t].pc == RmvUnlink(p) && CarryOk(s, t) && StreamOk(s, STREAM_THREAD)
    ensures NodeStep(s, StepRmvUnlink(s, t, p), t, p, s.owner[p])
    ensures GivesUp(s.threads[t], StepRmvUnlink(s, t, p).threads[t])
  {
    hide CallsOk, HoldsMessage, Deliverable, NoDup, Without, OnlyNode;
    RmvUnlinkOnly(s, t, p);
    WithoutMember(s.q.release, p);
  }

  lemma RmvUnlinkKeeps(s: State, t: Tid, p: Addr)
    requires Inv(s) && t in s.threads && s.threads[t].pc == RmvUnlink(p)
    ensures p in s.q.cells && HasLife(s, p) && Inv(StepRmvUnlink(s, t, p))
  {
    hide NodesOk, LivesOk, ListsOk, WakeOk, HistoryOk, NodeOk, LifeOk, NodeStep, NoNewClaims, NotSubject, CarryOk,
      ClientOk, StreamOk, CloserOk, GivesUp, PairOk;
    ClosingFacts(s, t, p);
    var s', k := StepRmvUnlink(s, t, p), s.owner[p];
    RmvUnlinkLists(s, t, p);
    RmvUnlinkNode(s, t, p);
    RmvUnlinkSelf(s, t, p);
    RmvUnlinkFrame(s, t, p);
    ClaimsKept(s, t, s'.threads[t]);
    OwnNodeStep(s, s', t, p, k);
  }

  // ----- the node goes back to the pool

  lemma RmvPushData(s: State, t: Tid, p: Addr)
    requires Shape(s) && ListsOk(s) && t in s.threads && s.threads[t].pc == RmvPush(p) && CarryOk(s, t)
    ensures var s' := StepRmvPush(s, t, p); Shape(s') && ListsOk(s') && NodeOk(s', p)
  {
  }

  lemma RmvPushSelf(s: State, t: Tid, p: Addr)
    requires Shape(s) && Shape(StepRmvPush(s, t, p))
    requires t in s.threads && s.threads[t].pc == RmvPush(p) && CarryOk(s, t) && CloserOk(s, t)
    ensures ThreadOk(StepRmvPush(s, t, p), t)
  {
  }

  lemma RmvPushHistory(s: State, t: Tid, p: Addr)
    requires Shape(s) && WakeOk(s) && HistoryOk(s) && Shape(StepRmvPush(s, t, p))
    requires t in s.threads && s.threads[t].pc == RmvPush(p) && CarryOk(s, t)
    ensures var s' := StepRmvPush(s, t, p); WakeOk(s') && HistoryOk(s')
  {
    hide WakeOk, HistoryOk;
    var s' := StepRmvPush(s, t, p);
    WakeFrame(s, s', t);
    HistoryFrame(s, s');
  }

  lemma RmvPushOnly(s: State, t: Tid, p: Addr)
    requires Shape(s) && p in s.nodes && s.place[p] == With(t) && Shape(StepRmvPush(s, t, p))
    requires t in s.threads && s.threads[t].pc == RmvPush(p) && CarryOk(s, t) && StreamOk(s, STREAM_THREAD)
    ensures OnlyNode(s, StepRmvPush(s, t, p), p, |s.lives|)
  {
    hide StreamOk;
  }

  lemma RmvPushGives(s: State, t: Tid, p: Addr)
    requires Shape(s) && p in s.nodes && s.place[p] == With(t) && Shape(StepRmvPush(s, t, p))
    requires t in s.threads && s.threads[t].pc == RmvPush(p) && CarryOk(s, t) && StreamOk(s, STREAM_THREAD)
    ensures GivesUp(s.threads[t], StepRmvPush(s, t, p).threads[t])
  {
    hide OnlyNode, StreamOk, PoolPush;
  }

  lemma RmvPushFrame(s: State, t: Tid, p: Addr)
    requires Shape(s) && p in s.nodes && s.place[p] == With(t) && Shape(StepRmvPush(s, t, p))
    requires t in s.threads && s.threads[t].pc == RmvPush(p) && CarryOk(s, t) && StreamOk(s, STREAM_THREAD)
    ensures NodeStep(s, StepRmvPush(s, t, p), t, p, |s.lives|) && Vacant(s, p)
    ensures GivesUp(s.threads[t], StepRmvPush(s, t, p).threads[t])
  {
    hide OnlyNode, GivesUp;
    RmvPushGives(s, t, p);
    RmvPushOnly(s, t, p);
  }

  lemma RmvPushKeeps(s: State, t: Tid, p: Addr)
    requires Inv(s) && t in s.threads && s.threads[t].pc == RmvPush(p)
    ensures Inv(StepRmvPush(s, t, p))
  {
    hide NodesOk, LivesOk, ListsOk, WakeOk, HistoryOk, NodeOk, LifeOk, NodeStep, NoNewClaims, NotSubject, ClientOk,
      StreamOk, CloserOk, GivesUp, PairOk, Vacant;
    assert ThreadOk(s, t) && ThreadOk(s, STREAM_THREAD);
    var s' := StepRmvPush(s, t, p);
    RmvPushData(s, t, p);
    RmvPushSelf(s, t, p);
    RmvPushHistory(s, t, p);
    RmvPushFrame(s, t, p);
    NoSubject(s, t, p);
    ClaimsKept(s, t, s'.threads[t]);
    OwnNodeStep(s, s', t, p, |s.lives|);
  }

  // ----- the stream thread is signalled

  lemma RmvSignalSelf(s: State, t: Tid)
    requires Shape(s) && WakeOk(s) && t in s.threads && s.threads[t].pc == RmvSignal && ThreadOk(s, t)
    ensures var s' := SignalRelease(Go(s, t, Idle));
            GivesUp(s.threads[t], s'.threads[t]) && OnlyThreads(s, s', t) && Shape(s') && ThreadOk(s', t)
  {
    hide WakeOk, Serves, HoldsMessage;
    var s' := SignalRelease(Go(s, t, Idle));
    assert Shape(s') && s'.threads[t] == Thread(Idle, false);
    IdleOk(s', t);
  }

  /** A client at rest relies on nothing. */
  lemma IdleOk(s: State, t: Tid)
    requires Shape(s) && t in s.threads && s.threads[t] == Thread(Idle, false)
    requires t != STREAM_THREAD && t != CLOSING_THREAD
    ensures ThreadOk(s, t)
  {
  }

  lemma RmvSignalWake(s: State, t: Tid)
    requires Shape(s) && WakeOk(s) && t in s.threads && s.threads[t].pc == RmvSignal && Role(t, RmvSignal)
    requires Shape(SignalRelease(Go(s, t, Idle)))
    ensures WakeOk(SignalRelease(Go(s, t, Idle)))
  {
    var s' := SignalRelease(Go(s, t, Idle));
    if s'.threads[STREAM_THREAD].pc.LoopWait? && s.q.recv != [] {
      var u :| u in s.threads && s.threads[u].pc.EnqSignal?;
      assert s'.threads[u].pc == s.threads[u].pc;
    }
  }

  lemma RmvSignalKeeps(s: State, t: Tid)
    requires Inv(s) && t in s.threads && s.threads[t].pc == RmvSignal
    ensures Inv(SignalRelease(Go(s, t, Idle)))
  {
    hide ListsOk, NodesOk, LivesOk, PairOk, HistoryOk, WakeOk, GivesUp, OnlyThreads, ClientOk, StreamOk, CloserOk;
    var s' := SignalRelease(Go(s, t, Idle));
    assert ThreadOk(s, t) && Role(t, RmvSignal);
    RmvSignalSelf(s, t);
    RmvSignalWake(s, t);
    MoveOwn(s, s', t);
  }

  // ----- the count is set

  lemma CntSetData(s: State, t: Tid, p: Addr, n: int)
    requires ActiveNode(s, p) && ListsOk(s) && LifeOf(s, p).setting && n >= 1
    ensures var s' := StepCntSet(s, t, p, n); Shape(s') && ListsOk(s') && ActiveNode(s', p)
  {
    hide NoDup, ListsOk, HoldsMessage;
    assert LifeOf(s, p).counted == {};
    CountStepData(s, StepCntSet(s, t, p, n), p, LifeOf(s, p).(quota := n, setting := false), n);
  }

  lemma CntSetSelf(s: State, t: Tid, p: Addr, n: int)
    requires ActiveNode(s, p) && WakeOk(s) && HistoryOk(s) && Shape(StepCntSet(s, t, p, n))
    requires t in s.threads && s.threads[t].pc == CntSet(p, n) && CarryOk(s, t) && CloserOk(s, t)
    ensures var s' := StepCntSet(s, t, p, n); ThreadOk(s', t) && WakeOk(s') && HistoryOk(s')
  {
    hide CallsOk, HoldsMessage, Deliverable, WakeOk, HistoryOk;
    var s' := StepCntSet(s, t, p, n);
    WakeFrame(s, s', t);
    HistoryFrame(s, s');
  }

  lemma CntSetFrame(s: State, t: Tid, p: Addr, n: int)
    requires ActiveNode(s, p) && Shape(StepCntSet(s, t, p, n))
    requires t in s.threads && s.threads[t].pc == CntSet(p, n) && CarryOk(s, t)
    ensures NodeStep(s, StepCntSet(s, t, p, n), t, p, s.owner[p])
    ensures GivesUp(s.threads[t], StepCntSet(s, t, p, n).threads[t])
  {
    hide CallsOk, HoldsMessage, Deliverable;
  }

  /** What a thread setting the count of `p` relies on. */
  lemma SettingFacts(s: State, t: Tid, p: Addr)
    requires Inv(s) && t in s.threads && Setting(s.threads[t].pc) == Some(p)
    ensures ThreadOk(s, t) && ActiveNode(s, p) && LifeOf(s, p).setting && NotSubject(s, t, p)
  {
    hide ListsOk, NodesOk, LivesOk, WakeOk, HistoryOk, PairOk, NotSubject;
    assert ThreadOk(s, t);
    IsActive(s, p);
    Alone(s, t, p);
  }

  lemma CntSetKeeps(s: State, t: Tid, p: Addr, n: int)
    requires Inv(s) && t in s.threads && s.threads[t].pc == CntSet(p, n)
    ensures p in s.q.cells && HasLife(s, p) && Inv(StepCntSet(s, t, p, n))
  {
    hide NodesOk, LivesOk, ListsOk, WakeOk, HistoryOk, NodeOk, LifeOk, NodeStep, NoNewClaims, NotSubject, CarryOk,
      StreamOk, CloserOk, GivesUp, PairOk;
    SettingFacts(s, t, p);
    var s', k := StepCntSet(s, t, p, n), s.owner[p];
    CntSetData(s, t, p, n);
    CntSetSelf(s, t, p, n);
    CntSetFrame(s, t, p, n);
    ActiveNodeOk(s', p);
    ClaimsKept(s, t, s'.threads[t]);
    OwnNodeStep(s, s', t, p, k);
  }

  // ----- a client begins a release

  /** The facts a begun call relies on, at a node that may still be released. */
  lemma MayReleaseFacts(s: State, p: Addr)
    requires Inv(s) && p in s.nodes && MayRelease(s, p)
    ensures ActiveNode(s, p) && |LifeOf(s, p).results| < LifeOf(s, p).quota && !LifeOf(s, p).setting
    ensures LifeOk(s, s.owner[p])
  {
    hide ListsOk, ThreadsOk, WakeOk, HistoryOk, NodeOk;
    assert LifeOk(s, s.owner[p]);
    IsActive(s, p);
    var l := LifeOf(s, p);
    CallLeft(l.(begun := l.begun + 1), l.begun);
  }

  lemma BeginReleaseSelf(s: State, t: Tid, p: Addr)
    requires ActiveNode(s, p) && MayRelease(s, p) && ClientAtRest(s, t) && CarryOk(s, t) && CloserOk(s, t)
    requires Shape(BeginRelease(s, t, p))
    ensures ThreadOk(BeginRelease(s, t, p), t)
  {
    hide HoldsMessage, CountsDown, Deliverable;
  }

  lemma BeginReleaseHistory(s: State, t: Tid, p: Addr)
    requires Shape(s) && HasLife(s, p) && MayRelease(s, p) && ClientAtRest(s, t) && WakeOk(s) && HistoryOk(s)
    requires Shape(BeginRelease(s, t, p))
    ensures WakeOk(BeginRelease(s, t, p)) && HistoryOk(BeginRelease(s, t, p))
  {
    hide WakeOk, HistoryOk;
    WakeFrame(s, BeginRelease(s, t, p), t);
    HistoryFrame(s, BeginRelease(s, t, p));
  }

  lemma BeginReleaseFrame(s: State, t: Tid, p: Addr)
    requires Shape(s) && p in s.nodes && MayRelease(s, p) && ClientAtRest(s, t) && Shape(BeginRelease(s, t, p))
    ensures NodeStep(s, BeginRelease(s, t, p), t, p, s.owner[p])
  {
  }

  lemma BeginReleaseOther(s: State, t: Tid, p: Addr, u: Tid)
    requires ActiveNode(s, p) && MayRelease(s, p) && ClientAtRest(s, t) && u in s.threads && u != t
    requires |LifeOf(s, p).results| < LifeOf(s, p).quota && LifeOk(s, s.owner[p]) && ThreadOk(s, u)
    requires Shape(BeginRelease(s, t, p)) && NodeStep(s, BeginRelease(s, t, p), t, p, s.owner[p])
    ensures SubjectKept(s, BeginRelease(s, t, p), u)
    ensures var pc := RelEnter(p, LifeOf(s, p).begun);
            ClaimsApart(s.nodes, pc, s.threads[u].pc) && ClaimsApart(s.nodes, s.threads[u].pc, pc)
  {
    hide StaysDrained, OthersWoken, DispatchKept, HoldsMessage, CountsDown, Deliverable, CarryOk, StreamOk, CloserOk;
    OnlyUncounted(s, t, p, 0, u);
  }

  lemma BeginReleaseKeeps(s: State, t: Tid, p: Addr)
    requires Inv(s) && p in s.nodes && MayRelease(s, p) && ClientAtRest(s, t)
    ensures Inv(BeginRelease(s, t, p))
  {
    hide NodesOk, LivesOk, ListsOk, WakeOk, HistoryOk, NodeOk, LifeOk, NodeStep, CarryOk, ActiveNode, OthersElsewhere,
      ClientOk, StreamOk, CloserOk, SubjectKept, ClaimsApart, CountStep, CallsOk;
    assert ThreadOk(s, t) && ThreadOk(s, STREAM_THREAD);
    MayReleaseFacts(s, p);
    var s', k, l := BeginRelease(s, t, p), s.owner[p], LifeOf(s, p);
    assert ActiveNode(s, p) && CountStep(s, s', p, l.(begun := l.begun + 1), s.q.cells[p].counter) by {
      BeginReleaseCounts(s, t, p);
    }
    CountStepData(s, s', p, l.(begun := l.begun + 1), s.q.cells[p].counter);
    BeginReleaseSelf(s, t, p);
    BeginReleaseHistory(s, t, p);
    BeginReleaseFrame(s, t, p);
    ActiveNodeOk(s', p);
    forall u | u in s.threads && u != t
      ensures SubjectKept(s, s', u)
      ensures ClaimsApart(s.nodes, s'.threads[t].pc, s.threads[u].pc)
           && ClaimsApart(s.nodes, s.threads[u].pc, s'.threads[t].pc)
    {
      BeginReleaseOther(s, t, p, u);
    }
    OneLife(s, p, k);
    NodeStepKeeps(s, s', t, p, k);
  }

  lemma BeginReleaseCounts(s: State, t: Tid, p: Addr)
    requires ActiveNode(s, p) && MayRelease(s, p) && ClientAtRest(s, t)
    ensures var l := LifeOf(s, p);
            CountStep(s, BeginRelease(s, t, p), p, l.(begun := l.begun + 1), s.q.cells[p].counter)
  {
    hide HoldsMessage, CountsDown, Deliverable;
    assert s.q.cells[p := s.q.cells[p].(counter := s.q.cells[p].counter)] == s.q.cells;
  }

  lemma StrayThreadOk(s: State, t: Tid)
    requires Shape(s) && ThreadsOk(s) && t in s.threads
    ensures ThreadOk(s, t)
  {
    hide ThreadOk, PairOk;
  }

  lemma StrayFrame(s: State, t: Tid, p: Addr)
    requires Shape(s) && ThreadsOk(s) && p !in s.nodes && ClientAtRest(s, t)
    ensures var s' := BeginRelease(s, t, p);
            && s' == Go(s, t, RelEnter(p, 0)) && Shape(s') && OnlyThreads(s, s', t)
            && NoNewClaims(s, t, s'.threads[t])
  {
    hide ThreadOk;
  }

  /** A release of an address that no node has. */
  lemma StrayMove(s: State, t: Tid, p: Addr)
    requires Inv(s) && p !in s.nodes && ClientAtRest(s, t)
    ensures var s' := BeginRelease(s, t, p);
            && Shape(s') && ThreadOk(s', t) && OnlyThreads(s, s', t) && NoNewClaims(s, t, s'.threads[t])
  {
    hide NodesOk, LivesOk, ListsOk, WakeOk, HistoryOk, ThreadsOk, ThreadOk, Shape, OnlyThreads, NoNewClaims;
    StrayFrame(s, t, p);
    StrayThreadOk(s, t);
    StraySelf(s, t, p);
  }

  lemma StrayReleaseKeeps(s: State, t: Tid, p: Addr)
    requires Inv(s) && p !in s.nodes && ClientAtRest(s, t)
    ensures Inv(BeginRelease(s, t, p))
  {
    hide NodesOk, LivesOk, ListsOk, WakeOk, HistoryOk, ThreadsOk, ThreadOk, Shape, ThreadKept, PairOk, NoNewClaims;
    var s' := BeginRelease(s, t, p);
    StrayMove(s, t, p);
    WakeFrame(s, s', t);
    MoveKeepsHistory(s, s', t);
    MoveKeepsThreads(s, s', t);
    MoveKeeps(s, s', t);
  }

  lemma StraySelf(s: State, t: Tid, p: Addr)
    requires Shape(s) && p !in s.nodes && ClientAtRest(s, t) && ThreadOk(s, t) && Shape(Go(s, t, RelEnter(p, 0)))
    ensures ThreadOk(Go(s, t, RelEnter(p, 0)), t)
  {
  }

  // ----- a client begins to set a count

  lemma BeginSetSelf(s: State, t: Tid, p: Addr, n: int)
    requires ActiveNode(s, p) && MaySetCount(s, p, n) && ClientAtRest(s, t) && CarryOk(s, t) && CloserOk(s, t)
    requires Shape(BeginSetCount(s, t, p, n))
    ensures ThreadOk(BeginSetCount(s, t, p, n), t)
  {
    hide HoldsMessage, CountsDown, Deliverable;
  }

  lemma BeginSetHistory(s: State, t: Tid, p: Addr, n: int)
    requires Shape(s) && MaySetCount(s, p, n) && ClientAtRest(s, t) && WakeOk(s) && HistoryOk(s)
    requires Shape(BeginSetCount(s, t, p, n))
    ensures WakeOk(BeginSetCount(s, t, p, n)) && HistoryOk(BeginSetCount(s, t, p, n))
  {
    hide WakeOk, HistoryOk;
    WakeFrame(s, BeginSetCount(s, t, p, n), t);
    HistoryFrame(s, BeginSetCount(s, t, p, n));
  }

  lemma BeginSetFrame(s: State, t: Tid, p: Addr, n: int)
    requires ActiveNode(s, p) && MaySetCount(s, p, n) && ClientAtRest(s, t) && Shape(BeginSetCount(s, t, p, n))
    ensures NodeStep(s, BeginSetCount(s, t, p, n), t, p, s.owner[p])
    ensures var l := LifeOf(s, p);
            CountStep(s, BeginSetCount(s, t, p, n), p, l.(setting := true), s.q.cells[p].counter)
  {
    hide HoldsMessage, CountsDown, Deliverable;
    assert s.q.cells[p := s.q.cells[p].(counter := s.q.cells[p].counter)] == s.q.cells;
  }

  lemma BeginSetClaims(s: State, t: Tid, p: Addr, n: int)
    requires Shape(s) && ThreadsOk(s) && ClientAtRest(s, t) && p in s.nodes && NotSubject(s, t, p)
    ensures NoNewClaims(s, t, Thread(CntEnter(p, n), false))
  {
    hide ThreadOk, PairOk;
  }

  lemma BeginSetKeeps(s: State, t: Tid, p: Addr, n: int)
    requires Inv(s) && MaySetCount(s, p, n) && ClientAtRest(s, t)
    ensures Inv(BeginSetCount(s, t, p, n))
  {
    hide NodesOk, LivesOk, ListsOk, WakeOk, HistoryOk, NodeOk, LifeOk, NodeStep, CarryOk, ActiveNode, NotSubject,
      ClientOk, StreamOk, CloserOk, SubjectKept, CountStep, CallsOk, PairOk, NoNewClaims;
    assert ThreadOk(s, t) && ThreadOk(s, STREAM_THREAD);
    SetFacts(s, t, p, n);
    var s', k, l := BeginSetCount(s, t, p, n), s.owner[p], LifeOf(s, p);
    assert Shape(s') by {
      SetShape(s, t, p, n);
    }
    BeginSetFrame(s, t, p, n);
    CountStepData(s, s', p, l.(setting := true), s.q.cells[p].counter);
    BeginSetSelf(s, t, p, n);
    BeginSetHistory(s, t, p, n);
    ActiveNodeOk(s', p);
    BeginSetClaims(s, t, p, n);
    OwnNodeStep(s, s', t, p, k);
  }

  lemma SetFacts(s: State, t: Tid, p: Addr, n: int)
    requires Inv(s) && MaySetCount(s, p, n) && ClientAtRest(s, t)
    ensures ActiveNode(s, p) && NotSubject(s, t, p)
  {
    hide ListsOk, WakeOk, HistoryOk, NodeOk, NodesOk, ThreadOk, NotSubject;
    assert LifeOk(s, s.owner[p]);
    IsActive(s, p);
    Alone(s, t, p);
  }

  lemma SetShape(s: State, t: Tid, p: Addr, n: int)
    requires Shape(s) && MaySetCount(s, p, n) && ClientAtRest(s, t)
    ensures Shape(BeginSetCount(s, t, p, n))
  {
  }
}
