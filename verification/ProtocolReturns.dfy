/** The release calls that clients make, over whole runs: each call for a message is counted for it once, and n calls
    after the count was set to n release it. */
module ProtocolReturns {
  import opened Options
  import opened Bytes
  import opened StreamMessage
  import opened QueueSpec
  import opened Protocol
  import opened ProtocolInvariant
  import opened ProtocolFrames
  import opened ProtocolSteps
  import opened ProtocolSafety
  import opened ProtocolHistory
  import opened ProtocolTheorems
  import opened ProtocolLastCall
  import opened ProtocolCounts

  /** A client calls to release the `k`-th accepted message. */
  predicate Releases(s: State, act: Action, k: nat) {
    act.CallRelease? && act.p in s.nodes && act.p in s.owner && s.owner[act.p] == k
  }

  /** How many such calls are made among the first `i` actions. */
  function CallsMade(run: seq<State>, acts: seq<Action>, k: nat, i: nat): nat
    requires i <= |acts| && |run| == |acts| + 1
  {
    if i == 0 then 0 else CallsMade(run, acts, k, i - 1) + if Releases(run[i - 1], acts[i - 1], k) then 1 else 0
  }

  /** The program counter of a call for the `k`-th accepted message that is not counted yet. */
  predicate CallsFor(s: State, pc: Pc, k: nat) {
    && Uncounted(pc).Some?
    && var p := Uncounted(pc).value.0; p in s.nodes && p in s.owner && s.owner[p] == k
  }

  function Calling(s: State, k: nat): set<Tid> {
    set t | t in s.threads && CallsFor(s, s.threads[t].pc, k)
  }

  function Results(s: State, k: nat): nat {
    if k < |s.lives| then |s.lives[k].results| else 0
  }

  /** The calls for the `k`-th message, counted or on their way. */
  function CallsSeen(s: State, k: nat): nat {
    Results(s, k) + |Calling(s, k)|
  }

  /** Only thread `t` goes on, and the calls of the others stay calls for the same messages. */
  ghost predicate OthersCall(s: State, s': State, t: Tid, k: nat) {
    && t in s.threads && s'.threads.Keys == s.threads.Keys
    && forall u :: u in s.threads && u != t ==> (CallsFor(s', s'.threads[u].pc, k) <==> CallsFor(s, s.threads[u].pc, k))
  }

  lemma CallingChanges(s: State, s': State, t: Tid, k: nat)
    requires OthersCall(s, s', t, k)
    ensures |Calling(s', k)| + (if CallsFor(s, s.threads[t].pc, k) then 1 else 0)
         == |Calling(s, k)| + (if CallsFor(s', s'.threads[t].pc, k) then 1 else 0)
  {
    hide CallsFor;
    var a, b := Calling(s, k), Calling(s', k);
    assert a - {t} == b - {t};
    assert |a| == |a - {t}| + (if t in a then 1 else 0) && |b| == |b - {t}| + (if t in b then 1 else 0);
  }

  lemma SameOwners(s: State, s': State, t: Tid, k: nat)
    requires t in s.threads && OthersWoken(s, s', t) && s'.owner == s.owner && s'.nodes == s.nodes
    ensures OthersCall(s, s', t, k)
  {
  }

  /** A node that is filled has no call on its way. */
  lemma FillerAlone(s: State, t: Tid, u: Tid)
    requires Inv(s) && t in s.threads && u in s.threads && s.threads[t].pc.EnqPush? && u != t
    ensures Uncounted(s.threads[u].pc).Some? ==> Uncounted(s.threads[u].pc).value.0 != s.threads[t].pc.a
  {
    hide ListsOk, NodesOk, LivesOk, HistoryOk, WakeOk, PairOk, StreamOk, CloserOk, Serves, Wants, Role;
    assert ThreadOk(s, t) && ThreadOk(s, u);
  }

  lemma FillerCalls(s: State, s': State, t: Tid, k: nat)
    requires Inv(s) && t in s.threads && s.threads[t].pc.EnqPush? && OthersWoken(s, s', t) && s'.nodes == s.nodes
    requires s'.owner == s.owner[s.threads[t].pc.a := |s.lives|]
    ensures OthersCall(s, s', t, k)
  {
    hide Inv;
    forall u | u in s.threads && u != t
      ensures CallsFor(s', s'.threads[u].pc, k) <==> CallsFor(s, s.threads[u].pc, k)
    {
      FillerAlone(s, t, u);
    }
  }

  /** A thread's own step: only counting ends a call that is on its way. */
  lemma OwnCall(s: State, t: Tid)
    requires CanStep(s, t) && t in Step(s, t).threads && !s.threads[t].pc.RelCheck?
    ensures Uncounted(Step(s, t).threads[t].pc) == Uncounted(s.threads[t].pc)
  {
    hide Step, Target, Uncounted;
    StepCases(s, t);
    var pc := s.threads[t].pc;
    if Target(s, pc).Some? {
      TargetCall(s, t);
    } else if pc.EnqPop? || pc.EnqPush? || pc.EnqSignal? || pc.Refuse? {
      ReceiverCall(s, t);
    } else if pc.Freeing? || pc.CloseEnter? {
      CloserCall(s, t);
    } else if pc.RelSend? || pc.RmvUnlink? {
      ReleaserCall(s, t);
    } else if pc.RmvPush? || pc.RmvSignal? || pc.CntSet? {
      RemoverCall(s, t);
    } else if pc.DrainTest? || pc.FrcPop? || pc.FrcPush? || pc.FrcSignal? {
      DrainCall(s, t);
    } else if pc.LoopPop? {
      LoopPopCall(s, t);
    } else {
      DispatchCall(s, t);
    }
  }

  lemma TargetCall(s: State, t: Tid)
    requires CanStep(s, t) && Target(s, s.threads[t].pc).Some?
    ensures t in Step(s, t).threads && Uncounted(Step(s, t).threads[t].pc) == Uncounted(s.threads[t].pc)
  {
    hide Wants;
  }

  lemma ReceiverCall(s: State, t: Tid)
    requires CanStep(s, t) && Target(s, s.threads[t].pc).None?
    requires var pc := s.threads[t].pc;
             pc.EnqPop? || pc.EnqPush? || pc.EnqSignal? || pc.Refuse?
    ensures t in Step(s, t).threads && Uncounted(Step(s, t).threads[t].pc) == Uncounted(s.threads[t].pc)
  {
    hide Step, CanStep, Target, ReleaseOf, ValidMagic, PoolPop, RecvPush, Fill;
    StepIs(s, t);
  }

  lemma CloserCall(s: State, t: Tid)
    requires CanStep(s, t) && Target(s, s.threads[t].pc).None?
    requires var pc := s.threads[t].pc;
             pc.Freeing? || pc.CloseEnter?
    ensures t in Step(s, t).threads && Uncounted(Step(s, t).threads[t].pc) == Uncounted(s.threads[t].pc)
  {
    hide Step, CanStep, Target, PoolPop;
    StepIs(s, t);
  }

  lemma ReleaserCall(s: State, t: Tid)
    requires CanStep(s, t) && Target(s, s.threads[t].pc).None?
    requires var pc := s.threads[t].pc; pc.RelSend? || pc.RmvUnlink?
    ensures t in Step(s, t).threads && Uncounted(Step(s, t).threads[t].pc) == Uncounted(s.threads[t].pc)
  {
    hide Step, CanStep, Target, ReleaseOf, ValidMagic, ReleaseRemove;
    StepIs(s, t);
  }

  lemma RemoverCall(s: State, t: Tid)
    requires CanStep(s, t) && Target(s, s.threads[t].pc).None?
    requires var pc := s.threads[t].pc; pc.RmvPush? || pc.RmvSignal? || pc.CntSet?
    ensures t in Step(s, t).threads && Uncounted(Step(s, t).threads[t].pc) == Uncounted(s.threads[t].pc)
  {
    hide Step, CanStep, Target, PoolPush, SetCounter;
    StepIs(s, t);
  }

  lemma LoopPopCall(s: State, t: Tid)
    requires CanStep(s, t) && Target(s, s.threads[t].pc).None? && s.threads[t].pc.LoopPop?
    ensures t in Step(s, t).threads && Uncounted(Step(s, t).threads[t].pc) == Uncounted(s.threads[t].pc)
  {
    hide Step, CanStep, Target, RecvPop;
    StepIs(s, t);
  }

  lemma DispatchCall(s: State, t: Tid)
    requires CanStep(s, t) && Target(s, s.threads[t].pc).None? && (s.threads[t].pc.StoPush? || s.threads[t].pc.Receive?)
    ensures t in Step(s, t).threads && Uncounted(Step(s, t).threads[t].pc) == Uncounted(s.threads[t].pc)
  {
    hide Step, CanStep, Target, Deliverable, Converted, Translate, Store;
    StepIs(s, t);
  }

  lemma DrainCall(s: State, t: Tid)
    requires CanStep(s, t) && Target(s, s.threads[t].pc).None?
    requires var pc := s.threads[t].pc; pc.DrainTest? || pc.FrcPop? || pc.FrcPush? || pc.FrcSignal?
    ensures t in Step(s, t).threads && Uncounted(Step(s, t).threads[t].pc) == Uncounted(s.threads[t].pc)
  {
    hide Step, CanStep, Target, PoolPush, ReleasePop;
    StepIs(s, t);
  }

  lemma SameNodes(s: State, t: Tid)
    requires Inv(s) && CanStep(s, t)
    ensures Step(s, t).nodes == s.nodes && t in s.threads && t in Step(s, t).threads
  {
    hide Inv, CanStep, Step, LifeGrows;
    StepGrows(s, t);
    StepCases(s, t);
  }

  lemma CntSetNone(s: State, t: Tid)
    requires CanStep(s, t) && s.threads[t].pc.CntSet? && s.threads[t].pc.p !in s.q.release
    ensures Step(s, t) == Go(s, t, Idle)
  {
  }

  lemma OwnersStay(s: State, t: Tid)
    requires CanStep(s, t) && !s.threads[t].pc.EnqPush?
    ensures Step(s, t).owner == s.owner
  {
    hide CanStep, Step;
    StepCases(s, t);
    var pc := s.threads[t].pc;
    if pc.RelCheck? {
      RelCheckCounts(s, t);
    } else if pc.CntSet? && pc.p in s.q.release {
      CntSetStep(s, t);
    } else if pc.CntSet? {
      CntSetNone(s, t);
    } else {
      StepCounts(s, t);
    }
  }

  lemma ListedIsNode(s: State, p: Addr)
    requires Inv(s) && p in s.q.release
    ensures p in s.nodes && p in s.owner && s.owner[p] < |s.lives|
  {
    hide LivesOk, ThreadsOk, HistoryOk, WakeOk, HoldsMessage;
    assert NodeOk(s, p);
  }

  /** The step of a thread that counts a call: the call is no longer on its way, and its message has one more. */
  lemma CheckSeen(s: State, t: Tid, k: nat)
    requires Inv(s) && CanStep(s, t) && s.threads[t].pc.RelCheck?
    ensures t in Step(s, t).threads && !CallsFor(Step(s, t), Step(s, t).threads[t].pc, k)
    ensures Results(Step(s, t), k) == Results(s, k) + if CallsFor(s, s.threads[t].pc, k) then 1 else 0
  {
    hide Inv, CanStep, Step;
    StepCases(s, t);
    var p := s.threads[t].pc.p;
    RelCheckCounts(s, t);
    StepFacts(s, t);
    if p in s.q.release {
      ListedIsNode(s, p);
    }
  }

  /** Any other step. */
  lemma OtherSeen(s: State, t: Tid, k: nat)
    requires Inv(s) && CanStep(s, t) && !s.threads[t].pc.RelCheck?
    ensures t in Step(s, t).threads && Results(Step(s, t), k) == Results(s, k)
    ensures CallsFor(Step(s, t), Step(s, t).threads[t].pc, k) <==> CallsFor(s, s.threads[t].pc, k)
  {
    hide Inv, CanStep, Step;
    SameNodes(s, t);
    OwnCall(s, t);
    var pc := s.threads[t].pc;
    if pc.CntSet? && pc.p in s.q.release {
      CntSetStep(s, t);
    } else if pc.CntSet? {
      CntSetNone(s, t);
    } else {
      StepCounts(s, t);
    }
  }

  lemma StepSeen(s: State, t: Tid, k: nat)
    requires Inv(s) && CanStep(s, t)
    ensures CallsSeen(Step(s, t), k) == CallsSeen(s, k)
  {
    hide Inv, CanStep, Step, Calling, CallsFor, OthersWoken, Results, OthersCall, Grows;
    SameNodes(s, t);
    var s', pc := Step(s, t), s.threads[t].pc;
    StepMovesOne(s, t);
    if pc.EnqPush? {
      StepCounts(s, t);
      FillerCalls(s, s', t, k);
    } else {
      assert s'.owner == s.owner by { OwnersStay(s, t); }
      SameOwners(s, s', t, k);
    }
    CallingChanges(s, s', t, k);
    if pc.RelCheck? {
      CheckSeen(s, t, k);
    } else {
      OtherSeen(s, t, k);
    }
  }

  /** An action in which thread `t` begins a call, takes a lock or is woken. */
  ghost predicate BeginsSeen(s: State, s': State, t: Tid, k: nat, releases: bool) {
    && OthersCall(s, s', t, k) && Results(s', k) == Results(s, k)
    && (CallsFor(s', s'.threads[t].pc, k) <==> CallsFor(s, s.threads[t].pc, k) || releases)
    && (CallsFor(s, s.threads[t].pc, k) ==> !releases)
  }

  lemma BeginSeen(s: State, s': State, t: Tid, k: nat)
    requires t in s.threads && t in s'.threads && s' == s.(threads := s'.threads)
    requires s'.threads == s.threads[t := s'.threads[t]]
    requires Uncounted(s'.threads[t].pc) == Uncounted(s.threads[t].pc)
    ensures BeginsSeen(s, s', t, k, false)
  {
  }

  lemma CallSeen(s: State, act: Action, k: nat)
    requires Enabled(s, act) && (act.CallRelease? || act.CallSetCount?)
    ensures BeginsSeen(s, Next(s, act), act.t, k, Releases(s, act, k))
  {
  }

  lemma ActionSeen(s: State, act: Action, k: nat)
    requires Inv(s) && Enabled(s, act)
    ensures CallsSeen(Next(s, act), k) == CallsSeen(s, k) + if Releases(s, act, k) then 1 else 0
  {
    hide Inv, Step, CanStep, Holds, Wants, Calling, Results, OthersCall, CallsFor;
    var s' := Next(s, act);
    match act
    case Run(t) => StepSeen(s, t, k);
    case Acquire(t) => BeginSeen(s, s', t, k); CallingChanges(s, s', t, k);
    case Arrive(t, _) => BeginSeen(s, s', t, k); CallingChanges(s, s', t, k);
    case CallRelease(t, _) => CallSeen(s, act, k); CallingChanges(s, s', t, k);
    case CallSetCount(t, _, _) => CallSeen(s, act, k); CallingChanges(s, s', t, k);
    case CallClose => BeginSeen(s, s', CLOSING_THREAD, k); CallingChanges(s, s', CLOSING_THREAD, k);
    case _ => BeginSeen(s, s', STREAM_THREAD, k); CallingChanges(s, s', STREAM_THREAD, k);
  }

  lemma NoneSeen(s: State, k: nat)
    requires Init(s)
    ensures CallsSeen(s, k) == 0
  {
    assert Calling(s, k) == {};
  }

  /** Each call that a client makes for an accepted message is counted for it, once, or on its way to be. */
  lemma {:induction false} EveryCallCounted(run: seq<State>, acts: seq<Action>, i: nat, k: nat)
    requires IsRun(run, acts) && i < |run|
    ensures k < |run[i].lives| ==> |run[i].lives[k].results| + |Calling(run[i], k)| == CallsMade(run, acts, k, i)
    ensures CallsSeen(run[i], k) == CallsMade(run, acts, k, i)
  {
    hide Inv, Enabled, Next, Init, Releases, Calling;
    if i == 0 {
      NoneSeen(run[0], k);
    } else {
      EveryCallCounted(run, acts, i - 1, k);
      RunInv(run, acts, i - 1);
      ActionSeen(run[i - 1], acts[i - 1], k);
    }
  }

  /** Once a client has set the count to n, and n calls for the message have been made and have returned, its release
      has been sent exactly once, and its node is recycled. */
  lemma ReleasedAfterN(run: seq<State>, acts: seq<Action>, i: nat, j: nat, t: Tid, p: Addr, n: int)
    requires IsRun(run, acts) && i < j < |run| && acts[i] == CallSetCount(t, p, n)
    requires p in run[i].owner && Unset(run, acts, run[i].owner[p], i + 1, j)
    requires CallsMade(run, acts, run[i].owner[p], j) == n && Calling(run[j], run[i].owner[p]) == {}
    requires !BeingClosed(run[j], p)
    ensures var k := run[i].owner[p];
            && k < |run[j].lives| && run[j].lives[k].stage == Recycled
            && |Sendings(run[j].wire, OfAccepted(k))| == 1
  {
    hide Inv, Next, Enabled, Unset, Sendings, BeingClosed, CallsMade;
    CountSet(run, acts, i, j, t, p, n);
    EveryCallCounted(run, acts, j, run[i].owner[p]);
    SameNode(run, acts, i, j, p);
  }

  /** A message whose count nobody sets is released by the first call. */
  lemma ReleasedAfterOne(run: seq<State>, acts: seq<Action>, j: nat, k: nat)
    requires IsRun(run, acts) && j < |run| && k < |run[j].lives| && Unset(run, acts, k, 0, j)
    requires CallsMade(run, acts, k, j) == 1 && Calling(run[j], k) == {} && !BeingClosed(run[j], run[j].lives[k].node)
    ensures run[j].lives[k].stage == Recycled && |Sendings(run[j].wire, OfAccepted(k))| == 1
  {
    hide Inv, IsRun, Unset, Sendings, BeingClosed, CallsMade;
    CountDefault(run, acts, j, k);
    EveryCallCounted(run, acts, j, k);
  }

  lemma SameNode(run: seq<State>, acts: seq<Action>, i: nat, j: nat, p: Addr)
    requires IsRun(run, acts) && i <= j < |run| && p in run[i].owner
    ensures var k := run[i].owner[p]; k < |run[j].lives| && run[j].lives[k].node == p
  {
    RunInv(run, acts, i);
    hide IsRun, ListsOk, NodesOk, LivesOk, ThreadsOk, HistoryOk, WakeOk;
    RunGrows(run, acts, i, j);
  }
}
