/** Setting the release count, over whole runs: the count that a client gives is the count that its message's release
    calls go down from, and without such a call it is 1. */
module ProtocolCounts {
  import opened Options
  import opened Bytes
  import opened StreamMessage
  import opened QueueSpec
  import opened Protocol
  import opened ProtocolInvariant
  import opened ProtocolFrames
  import opened ProtocolSteps
  import opened ProtocolSafety
  import opened ProtocolHistory
  import opened ProtocolTheorems
  import opened ProtocolLastCall

  /** A client sets the count of the `k`-th accepted message. */
  predicate SetsCount(s: State, act: Action, k: nat) {
    act.CallSetCount? && act.p in s.owner && s.owner[act.p] == k
  }

  // ----- what other steps leave alone

  /** The count of a message stays as it is, and so do the calls counted. */
  predicate CountKept(l: Life, l': Life) {
    l'.quota == l.quota && l'.setting == l.setting && l'.results == l.results
  }

  /** From `s` to `s'` no accepted message gets another count, and no call is counted. */
  predicate CountsKept(s: State, s': State) {
    && |s.lives| <= |s'.lives|
    && (forall k :: 0 <= k < |s.lives| ==> CountKept(s.lives[k], s'.lives[k]))
    && (forall k :: |s.lives| <= k < |s'.lives| ==>
          s'.lives[k].quota == 1 && !s'.lives[k].setting && s'.lives[k].results == [])
  }

  lemma TargetCounts(s: State, t: Tid)
    requires CanStep(s, t) && Target(s, s.threads[t].pc).Some?
    ensures CountsKept(s, Step(s, t)) && Step(s, t).owner == s.owner
  {
    hide Target, Wants;
  }

  lemma ClientCounts(s: State, t: Tid)
    requires CanStep(s, t) && Target(s, s.threads[t].pc).None?
    requires var pc := s.threads[t].pc;
             pc.EnqPop? || pc.EnqSignal? || pc.Refuse? || pc.RelSend? || pc.RmvUnlink?
    ensures CountsKept(s, Step(s, t)) && Step(s, t).owner == s.owner
  {
    hide Step, Wants, Target, ReleaseOf, ValidMagic, PoolPop, ReleaseRemove;
    StepIs(s, t);
  }

  /** A call is counted for the message that its node serves, and for no other; the count stays. */
  lemma RelCheckCounts(s: State, t: Tid)
    requires CanStep(s, t) && s.threads[t].pc.RelCheck?
    ensures var p, s' := s.threads[t].pc.p, Step(s, t);
            && s'.owner == s.owner && |s'.lives| == |s.lives|
            && t in s'.threads && s'.threads[t].pc in {Idle, RelSend(p)}
            && forall k :: 0 <= k < |s.lives| ==>
                 && s'.lives[k].quota == s.lives[k].quota && s'.lives[k].setting == s.lives[k].setting
                 && if p in s.q.release && k == s.owner[p] then |s'.lives[k].results| == |s.lives[k].results| + 1
                    else s'.lives[k] == s.lives[k]
  {
    hide Outer, Holds, SetCounter;
  }

  lemma EnqPushCounts(s: State, t: Tid)
    requires CanStep(s, t) && s.threads[t].pc.EnqPush?
    ensures CountsKept(s, Step(s, t)) && Step(s, t).owner == s.owner[s.threads[t].pc.a := |s.lives|]
  {
    hide Wants, RecvPush, Fill, Outer, Holds;
  }

  lemma RemoverCounts(s: State, t: Tid)
    requires CanStep(s, t) && Target(s, s.threads[t].pc).None?
    requires var pc := s.threads[t].pc; pc.RmvPush? || pc.RmvSignal? || pc.CloseEnter? || pc.Freeing?
    ensures CountsKept(s, Step(s, t)) && Step(s, t).owner == s.owner
  {
    hide Step, CanStep, Target, PoolPush, PoolPop;
    StepIs(s, t);
  }

  lemma StreamCounts(s: State, t: Tid)
    requires CanStep(s, t) && Target(s, s.threads[t].pc).None?
    requires var pc := s.threads[t].pc;
             pc.LoopPop? || pc.StoPush? || pc.Receive?
    ensures CountsKept(s, Step(s, t)) && Step(s, t).owner == s.owner
  {
    hide Step, Wants, Target, Deliverable, Converted, Translate, Store, RecvPop;
    StepIs(s, t);
  }

  lemma DrainCounts(s: State, t: Tid)
    requires CanStep(s, t) && Target(s, s.threads[t].pc).None?
    requires var pc := s.threads[t].pc; pc.DrainTest? || pc.FrcPop? || pc.FrcPush? || pc.FrcSignal?
    ensures CountsKept(s, Step(s, t)) && Step(s, t).owner == s.owner
  {
    hide Step, CanStep, Target, PoolPush, ReleasePop;
    StepIs(s, t);
  }

  /** A step that sets no count and counts no call. */
  lemma StepCounts(s: State, t: Tid)
    requires CanStep(s, t) && !s.threads[t].pc.CntSet? && !s.threads[t].pc.RelCheck?
    ensures CountsKept(s, Step(s, t))
    ensures !s.threads[t].pc.EnqPush? ==> Step(s, t).owner == s.owner
    ensures s.threads[t].pc.EnqPush? ==> Step(s, t).owner == s.owner[s.threads[t].pc.a := |s.lives|]
  {
    hide Step, Target, CountsKept;
    var pc := s.threads[t].pc;
    if Target(s, pc).Some? {
      TargetIsNoPush(s, pc);
      TargetCounts(s, t);
    } else if pc.EnqPush? {
      EnqPushCounts(s, t);
    } else if pc.EnqPop? || pc.EnqSignal? || pc.Refuse? || pc.RelSend? || pc.RmvUnlink? {
      ClientCounts(s, t);
    } else if pc.RmvPush? || pc.RmvSignal? || pc.CloseEnter? || pc.Freeing? {
      RemoverCounts(s, t);
    } else if pc.DrainTest? || pc.FrcPop? || pc.FrcPush? || pc.FrcSignal? {
      DrainCounts(s, t);
    } else {
      StepCases(s, t);
      StreamCounts(s, t);
    }
  }

  lemma TargetIsNoPush(s: State, pc: Pc)
    requires Target(s, pc).Some?
    ensures !pc.EnqPush?
  {
  }

  // ----- from the call to the count

  /** Thread `t` is inside its call that gives the `k`-th accepted message the count `n`. */
  predicate BeingSet(s: State, t: Tid, p: Addr, n: int, k: nat) {
    && k < |s.lives| && s.lives[k].setting && p in s.owner && s.owner[p] == k
    && t in s.threads && s.threads[t].pc in {CntEnter(p, n), CntSet(p, n)}
  }

  predicate HasCount(s: State, k: nat, n: int) {
    k < |s.lives| && !s.lives[k].setting && s.lives[k].quota == n
  }

  /** What the invariant says of a thread that sets a count, or fills a node. */
  lemma SetterFacts(s: State, t: Tid)
    requires Inv(s) && t in s.threads
    ensures var pc := s.threads[t].pc;
            && (pc.CntEnter? || pc.CntSet? ==>
                  pc.p in s.q.release && Serves(s, pc.p) && LifeOf(s, pc.p).setting
                  && pc.p in s.place && s.place[pc.p] == InRelease)
            && (pc.EnqPush? ==> pc.a in s.place && s.place[pc.a] == With(t))
  {
    hide LivesOk, HistoryOk, WakeOk, PairOk, HoldsMessage, ListsOk, StreamOk, CloserOk;
    assert ThreadOk(s, t);
    var pc := s.threads[t].pc;
    if pc.CntEnter? || pc.CntSet? {
      assert NodeOk(s, pc.p);
    }
  }

  lemma TwoSetters(s: State, t: Tid, u: Tid)
    requires Inv(s) && t in s.threads && u in s.threads && t != u && Setting(s.threads[t].pc).Some?
    ensures Setting(s.threads[u].pc) != Setting(s.threads[t].pc)
  {
    hide ListsOk, NodesOk, LivesOk, HistoryOk, WakeOk, ThreadOk, LocksApart;
    assert PairOk(s, t, u);
  }

  /** The step that writes the count. */
  lemma CntSetStep(s: State, u: Tid)
    requires CanStep(s, u) && s.threads[u].pc.CntSet? && s.threads[u].pc.p in s.q.release
    ensures var p, s' := s.threads[u].pc.p, Step(s, u);
            && s'.owner == s.owner && |s'.lives| == |s.lives|
            && HasCount(s', s.owner[p], s.threads[u].pc.n)
            && s'.lives[s.owner[p]].results == s.lives[s.owner[p]].results
            && u in s'.threads && s'.threads[u].pc == Idle
            && forall k :: 0 <= k < |s.lives| && k != s.owner[p] ==> s'.lives[k] == s.lives[k]
  {
    hide Outer, Holds, SetCounter;
  }

  lemma CntEnterStep(s: State, t: Tid)
    requires CanStep(s, t) && s.threads[t].pc.CntEnter?
    ensures Step(s, t).threads == s.threads[t := Thread(CntSet(s.threads[t].pc.p, s.threads[t].pc.n), false)]
  {
  }

  lemma OthersStay(s: State, u: Tid, t: Tid)
    requires CanStep(s, u) && t in s.threads && t != u && (s.threads[t].pc.CntEnter? || s.threads[t].pc.CntSet?)
    ensures t in Step(s, u).threads && Step(s, u).threads[t] == s.threads[t]
  {
    hide Step, CanStep;
    StepMovesOne(s, u);
  }

  lemma RunBeingSet(s: State, u: Tid, t: Tid, p: Addr, n: int, k: nat)
    requires Inv(s) && CanStep(s, u) && BeingSet(s, t, p, n, k)
    ensures BeingSet(Step(s, u), t, p, n, k) || HasCount(Step(s, u), k, n)
  {
    hide Inv, Step, CanStep;
    SetterFacts(s, t);
    StepCases(s, u);
    SetterFacts(s, u);
    if u != t {
      OthersStay(s, u, t);
      TwoSetters(s, t, u);
    } else if s.threads[t].pc.CntEnter? {
      CntEnterStep(s, t);
    }
    if s.threads[u].pc.CntSet? {
      CntSetStep(s, u);
    } else if s.threads[u].pc.RelCheck? {
      RelCheckCounts(s, u);
    } else {
      StepCounts(s, u);
    }
  }

  /** The call that sets a count goes on until the count is set. */
  lemma ActionBeingSet(s: State, act: Action, t: Tid, p: Addr, n: int, k: nat)
    requires Inv(s) && Enabled(s, act) && BeingSet(s, t, p, n, k)
    ensures BeingSet(Next(s, act), t, p, n, k) || HasCount(Next(s, act), k, n)
  {
    hide Inv, Step, CanStep, Holds, Wants;
    if act.Run? {
      RunBeingSet(s, act.t, t, p, n, k);
    }
  }

  /** A count stays until a client sets it anew. */
  lemma ActionHasCount(s: State, act: Action, k: nat, n: int)
    requires Inv(s) && Enabled(s, act) && HasCount(s, k, n) && !SetsCount(s, act, k)
    ensures HasCount(Next(s, act), k, n)
  {
    hide Inv, Step, CanStep, Holds, Wants;
    if act.Run? {
      StepCases(s, act.t);
      SetterFacts(s, act.t);
      if s.threads[act.t].pc.CntSet? {
        CntSetStep(s, act.t);
      } else if s.threads[act.t].pc.RelCheck? {
        RelCheckCounts(s, act.t);
      } else {
        StepCounts(s, act.t);
      }
    }
  }

  // ----- whole runs

  /** No client sets the count of the `k`-th accepted message from `i` to `j`. */
  predicate Unset(run: seq<State>, acts: seq<Action>, k: nat, i: nat, j: nat)
    requires i <= j <= |acts| && |run| == |acts| + 1
  {
    forall f :: i <= f < j ==> !SetsCount(run[f], acts[f], k)
  }

  lemma SetBegins(s: State, t: Tid, p: Addr, n: int)
    requires Enabled(s, CallSetCount(t, p, n))
    ensures p in s.owner && BeingSet(Next(s, CallSetCount(t, p, n)), t, p, n, s.owner[p])
  {
  }

  lemma {:induction false} SetGoesOn(run: seq<State>, acts: seq<Action>, i: nat, j: nat, t: Tid, p: Addr, n: int)
    requires IsRun(run, acts) && i < j < |run| && acts[i] == CallSetCount(t, p, n)
    requires p in run[i].owner && Unset(run, acts, run[i].owner[p], i + 1, j)
    ensures BeingSet(run[j], t, p, n, run[i].owner[p]) || HasCount(run[j], run[i].owner[p], n)
    decreases j
  {
    hide Inv, Enabled, Next, BeingSet, HasCount, SetsCount, Init;
    if j == i + 1 {
      SetBegins(run[i], t, p, n);
    } else {
      SetGoesOn(run, acts, i, j - 1, t, p, n);
      RunInv(run, acts, j - 1);
      if BeingSet(run[j - 1], t, p, n, run[i].owner[p]) {
        ActionBeingSet(run[j - 1], acts[j - 1], t, p, n, run[i].owner[p]);
      } else {
        ActionHasCount(run[j - 1], acts[j - 1], run[i].owner[p], n);
      }
    }
  }

  /** The life of an accepted message whose count is `n`: its counted calls have returned n-1, n-2, ... and are at
      most n; a release has been sent only if they are n, and then at most one; once they are n, one thread is
      carrying the release out, or it has been sent and the node recycled. Till it is recycled, n less the calls
      counted is left on its counter. */
  ghost predicate CountedFrom(s: State, k: nat, n: int)
    requires k < |s.lives|
  {
    var l, sendings := s.lives[k], |Sendings(s.wire, OfAccepted(k))|;
    && |l.results| <= n && (forall i :: 0 <= i < |l.results| ==> l.results[i] == n - 1 - i)
    && sendings <= 1 && (sendings == 1 ==> |l.results| == n)
    && (|l.results| == n ==> BeingClosed(s, l.node) || (l.stage == Recycled && sendings == 1))
    && (l.stage == Called ==> l.node in s.q.cells && s.q.cells[l.node].counter == n - |l.results|)
  }

  lemma CountHolds(run: seq<State>, acts: seq<Action>, j: nat, k: nat, n: int)
    requires IsRun(run, acts) && j < |run| && HasCount(run[j], k, n)
    ensures CountedFrom(run[j], k, n)
  {
    hide Inv, IsRun, Sendings, BeingClosed;
    RunInv(run, acts, j);
    ReleasedOnce(run, acts, j, k);
    var l := run[j].lives[k];
    if |l.results| == n && !BeingClosed(run[j], l.node) {
      LastCallReleases(run, acts, j, k);
    }
    if l.stage == Called {
      CalledCounter(run[j], k);
    }
  }

  lemma CalledCounter(s: State, k: nat)
    requires Inv(s) && k < |s.lives| && s.lives[k].stage == Called
    ensures s.lives[k].node in s.q.cells
    ensures s.q.cells[s.lives[k].node].counter == s.lives[k].quota - |s.lives[k].results|
  {
    hide ListsOk, ThreadsOk, HistoryOk, WakeOk, HoldsMessage, CallsOk;
    assert LifeOk(s, k) && NodeOk(s, s.lives[k].node);
  }

  lemma NothingCounted(s: State, k: nat)
    requires Inv(s) && k < |s.lives| && s.lives[k].setting
    ensures s.lives[k].results == [] && s.lives[k].begun == 0 && !s.lives[k].sent
  {
    hide ListsOk, NodesOk, ThreadsOk, HistoryOk, WakeOk;
    assert LifeOk(s, k);
    BoundedSize(s.lives[k].counted, 0);
  }

  /** Once a client has called for the count `n`, and until a count is set anew, the message it serves is counted from
      n, but for the time that this call takes: till then no call is counted, and nothing sent. */
  lemma CountSet(run: seq<State>, acts: seq<Action>, i: nat, j: nat, t: Tid, p: Addr, n: int)
    requires IsRun(run, acts) && i < j < |run| && acts[i] == CallSetCount(t, p, n)
    requires p in run[i].owner ==> Unset(run, acts, run[i].owner[p], i + 1, j)
    ensures n >= 1 && p in run[i].owner && run[i].owner[p] < |run[j].lives|
    ensures var s, k := run[j], run[i].owner[p];
            if t in s.threads && s.threads[t].pc in {CntEnter(p, n), CntSet(p, n)} && s.lives[k].setting
            then s.lives[k].results == [] && |Sendings(s.wire, OfAccepted(k))| == 0
            else CountedFrom(s, k, n)
  {
    hide Inv, CountedFrom, Sendings, Next;
    SetBegins(run[i], t, p, n);
    SetGoesOn(run, acts, i, j, t, p, n);
    hide IsRun;
    RunInv(run, acts, j);
    var k := run[i].owner[p];
    if HasCount(run[j], k, n) {
      CountHolds(run, acts, j, k, n);
    } else {
      NothingCounted(run[j], k);
      ReleasedOnce(run, acts, j, k);
    }
  }

  lemma {:induction false} NeverSet(run: seq<State>, acts: seq<Action>, j: nat, k: nat)
    requires IsRun(run, acts) && j < |run| && k < |run[j].lives| && Unset(run, acts, k, 0, j)
    ensures HasCount(run[j], k, 1)
  {
    hide Inv, Enabled, Next, HasCount, SetsCount;
    if j > 0 {
      RunInv(run, acts, j - 1);
      if k < |run[j - 1].lives| {
        NeverSet(run, acts, j - 1, k);
        ActionHasCount(run[j - 1], acts[j - 1], k, 1);
      } else {
        FreshCount(run[j - 1], acts[j - 1], k);
      }
    }
  }

  lemma FreshCount(s: State, act: Action, k: nat)
    requires Inv(s) && Enabled(s, act) && |s.lives| <= k < |Next(s, act).lives|
    ensures HasCount(Next(s, act), k, 1)
  {
    hide Inv, Step, CanStep, Holds, Wants;
    if act.Run? {
      StepCases(s, act.t);
      SetterFacts(s, act.t);
      if s.threads[act.t].pc.CntSet? {
        CntSetStep(s, act.t);
      } else if s.threads[act.t].pc.RelCheck? {
        RelCheckCounts(s, act.t);
      } else {
        StepCounts(s, act.t);
      }
    }
  }

  /** A message whose count no client sets is counted from 1: the first call sends its release. */
  lemma CountDefault(run: seq<State>, acts: seq<Action>, j: nat, k: nat)
    requires IsRun(run, acts) && j < |run| && k < |run[j].lives| && Unset(run, acts, k, 0, j)
    ensures CountedFrom(run[j], k, 1)
  {
    NeverSet(run, acts, j, k);
    CountHolds(run, acts, j, k, 1);
  }

  /** After the call for the count `n`, the call that is counted next returns n less the calls counted, itself included;
      it goes on to send if it is the n-th, and ends if not. */
  lemma CountedCall(run: seq<State>, acts: seq<Action>, i: nat, j: nat, t: Tid, p: Addr, n: int, u: Tid, call: nat)
    requires IsRun(run, acts) && i < j < |run| && acts[i] == CallSetCount(t, p, n)
    requires p in run[i].owner && Unset(run, acts, run[i].owner[p], i + 1, j)
    requires p in run[j].owner && run[j].owner[p] == run[i].owner[p]
    requires p in run[j].nodes && u in run[j].threads && run[j].threads[u] == Thread(RelCheck(p, call), true)
    ensures CanStep(run[j], u) && HasLife(run[j], p) && HasLife(Step(run[j], u), p)
    ensures var before, s' := LifeOf(run[j], p).results, Step(run[j], u);
            && LifeOf(s', p).results == before + [n - 1 - |before|] && s'.wire == run[j].wire && u in s'.threads
            && s'.threads[u].pc == if |before| + 1 == n then RelSend(p) else Idle
  {
    hide Inv, IsRun, CanStep, Step, Unset;
    RunInv(run, acts, j);
    SetGoesOn(run, acts, i, j, t, p, n);
    CallResult(run, acts, j, u, p, call);
    if !HasCount(run[j], run[i].owner[p], n) {
      NoCallYet(run[j], u, p);
    }
    CountHolds(run, acts, j, run[i].owner[p], n);
  }

  lemma NoCallYet(s: State, u: Tid, p: Addr)
    requires Inv(s) && u in s.threads && s.threads[u].pc.RelCheck? && s.threads[u].pc.p == p && p in s.nodes
    ensures HasLife(s, p) && !LifeOf(s, p).setting
  {
    hide ListsOk, NodesOk, HistoryOk, WakeOk, PairOk;
    assert ThreadOk(s, u) && LifeOk(s, s.owner[p]);
  }
}
