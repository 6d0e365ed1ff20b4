/** Release calls beyond the rule for clients: what one call too many does, and when. */
module ProtocolExtraCalls {
  import opened Options
  import opened Bytes
  import opened StreamMessage
  import opened QueueSpec
  import opened Protocol
  import opened ProtocolInvariant
  import opened ProtocolSteps
  import opened ProtocolRelease
  import opened ProtocolSafety
  import opened ProtocolTheorems
  import opened ProtocolLastCall
  import opened ProtocolProgress
  import opened ProtocolLoose

  /** The state that the actions lead to, if they are all possible. */
  function LooseAfter(s: State, acts: seq<Action>): Option<State>
    decreases |acts|
  {
    if acts == [] then Some(s)
    else if LooseEnabled(s, acts[0]) then LooseAfter(LooseNext(s, acts[0]), acts[1..])
    else None
  }

  // ----- calls counted while the node stays listed

  /** The step takes the node at `p` off the release list or puts it there, recycles it, or sets its count. */
  predicate Moves(s: State, act: Action, p: Addr) {
    act.Run? && act.t in s.threads
    && match s.threads[act.t].pc
       case RmvUnlink(p') => p' == p
       case RmvPush(p') => p' == p
       case CntSet(p', _) => p' == p
       case StoPush(a) => a == p
       case FrcPop => s.q.release != [] && s.q.release[0] == p
       case FrcPush(a) => a == p
       case _ => false
  }

  /** The step counts a call for `p`. */
  predicate Counts(s: State, act: Action, p: Addr) {
    act.Run? && act.t in s.threads && s.threads[act.t].pc.RelCheck? && s.threads[act.t].pc.p == p
  }

  function CountsBetween(run: seq<State>, acts: seq<Action>, p: Addr, i: nat, j: nat): nat
    requires i <= j <= |acts| && |run| == |acts| + 1
    decreases j
  {
    if i == j then 0
    else CountsBetween(run, acts, p, i, j - 1) + if Counts(run[j - 1], acts[j - 1], p) then 1 else 0
  }

  /** How many of these calls go on to send the release. */
  function SendersBetween(run: seq<State>, acts: seq<Action>, p: Addr, i: nat, j: nat): nat
    requires i <= j <= |acts| && |run| == |acts| + 1
    decreases j
  {
    if i == j then 0
    else
      SendersBetween(run, acts, p, i, j - 1)
      + if Counts(run[j - 1], acts[j - 1], p) && acts[j - 1].t in run[j].threads
           && run[j].threads[acts[j - 1].t].pc == RelSend(p) then 1 else 0
  }

  /** Listed, with `n` left of its count. */
  predicate ListedWith(s: State, p: Addr, n: int) {
    p in s.q.release && p in s.q.cells && s.q.cells[p].counter == n
  }

  lemma RelCheckListed(s: State, t: Tid, p: Addr, n: int)
    requires CanStep(s, t) && s.threads[t].pc.RelCheck? && ListedWith(s, p, n)
    ensures var s' := Step(s, t);
            if s.threads[t].pc.p != p then ListedWith(s', p, n)
            else
              && ListedWith(s', p, n - 1) && t in s'.threads
              && (s'.threads[t].pc == RelSend(p) <==> n <= 1)
  {
  }

  lemma ReleaserListed(s: State, t: Tid, p: Addr, n: int)
    requires CanStep(s, t) && ListedWith(s, p, n) && !Moves(s, Run(t), p)
    requires var pc := s.threads[t].pc; pc.RelSend? || pc.RmvUnlink? || pc.RmvPush? || pc.CntSet?
    ensures ListedWith(Step(s, t), p, n)
  {
    hide Without, Wants, ReleaseOf;
    if s.threads[t].pc.RmvUnlink? {
      WithoutOthers(s.q.release, s.threads[t].pc.p);
    }
  }

  lemma StreamListed(s: State, t: Tid, p: Addr, n: int)
    requires CanStep(s, t) && ListedWith(s, p, n) && !Moves(s, Run(t), p)
    requires var pc := s.threads[t].pc; pc.LoopPop? || pc.StoPush? || pc.Receive?
    ensures ListedWith(Step(s, t), p, n)
  {
    hide Wants, Deliverable, Converted;
  }

  lemma DrainListed(s: State, t: Tid, p: Addr, n: int)
    requires CanStep(s, t) && ListedWith(s, p, n) && !Moves(s, Run(t), p)
    requires var pc := s.threads[t].pc; pc.FrcPop? || pc.FrcPush?
    ensures ListedWith(Step(s, t), p, n)
  {
    hide Wants, Deliverable, Converted;
  }

  lemma ReceiverListed(s: State, t: Tid, p: Addr, n: int)
    requires CanStep(s, t) && ListedWith(s, p, n)
    requires var pc := s.threads[t].pc; pc.EnqPop? || pc.EnqPush? || pc.Refuse? || pc.Freeing?
    ensures ListedWith(Step(s, t), p, n)
  {
    hide Wants, Overlay, ReleaseOf, ValidMagic;
  }

  lemma OtherListed(s: State, t: Tid, p: Addr, n: int)
    requires CanStep(s, t) && ListedWith(s, p, n) && Step(s, t).q == s.q
    ensures ListedWith(Step(s, t), p, n)
  {
    hide Step, CanStep;
  }

  lemma TargetKeepsQueues(s: State, t: Tid)
    requires CanStep(s, t) && Target(s, s.threads[t].pc).Some?
    ensures Step(s, t).q == s.q
  {
    hide Target;
  }

  lemma SignalKeepsQueues(s: State, t: Tid)
    requires CanStep(s, t)
    requires var pc := s.threads[t].pc;
             pc.EnqSignal? || pc.RmvSignal? || pc.DrainTest? || pc.FrcSignal? || pc.CloseEnter?
    ensures Step(s, t).q == s.q
  {
    hide Wants;
  }

  /** A step that does not move the node leaves it listed; it takes one off the count if it counts a call, and that
      call goes on to send exactly when nothing is left then. */
  lemma ListedStep(s: State, act: Action, p: Addr, n: int)
    requires LooseEnabled(s, act) && ListedWith(s, p, n) && !Moves(s, act, p)
    ensures var s' := LooseNext(s, act);
            if !Counts(s, act, p) then ListedWith(s', p, n)
            else
              && ListedWith(s', p, n - 1) && act.t in s'.threads
              && (s'.threads[act.t].pc == RelSend(p) <==> n <= 1)
  {
    hide Step, CanStep, Target;
    if act.Run? {
      var t := act.t;
      StepCases(s, t);
      var pc := s.threads[t].pc;
      if pc.RelCheck? {
        RelCheckListed(s, t, p, n);
      } else if pc.RelSend? || pc.RmvUnlink? || pc.RmvPush? || pc.CntSet? {
        ReleaserListed(s, t, p, n);
      } else if pc.LoopPop? || pc.StoPush? || pc.Receive? {
        StreamListed(s, t, p, n);
      } else if pc.FrcPop? || pc.FrcPush? {
        DrainListed(s, t, p, n);
      } else if pc.EnqPop? || pc.EnqPush? || pc.Refuse? || pc.Freeing? {
        ReceiverListed(s, t, p, n);
      } else {
        if Target(s, pc).Some? {
          TargetKeepsQueues(s, t);
        } else {
          SignalKeepsQueues(s, t);
        }
        OtherListed(s, t, p, n);
      }
    }
  }

  /** While a node stays listed, any number of calls for it may be counted, by any clients and in any order: the count
      goes down by one with each, and each one from the n-th on goes on to send the release. */
  lemma {:induction false} ListedCalls(run: seq<State>, acts: seq<Action>, p: Addr, n: int, i: nat, j: nat)
    requires IsLooseRun(run, acts) && i <= j < |run| && ListedWith(run[i], p, n)
    requires forall k :: i <= k < j ==> !Moves(run[k], acts[k], p)
    ensures var m, needed := CountsBetween(run, acts, p, i, j), CallsNeeded(n);
            && ListedWith(run[j], p, n - m)
            && SendersBetween(run, acts, p, i, j) == if m < needed then 0 else m - needed + 1
    decreases j
  {
    hide LooseEnabled, LooseNext, ListedWith, Moves, Counts;
    if i < j {
      ListedCalls(run, acts, p, n, i, j - 1);
      ListedStep(run[j - 1], acts[j - 1], p, n - CountsBetween(run, acts, p, i, j - 1));
    }
  }

  // ----- one call too many, step by step

  /** A client's call up to the end of its counting section, with nothing in between. */
  function CountCall(u: Tid, p: Addr): seq<Action> {
    [CallRelease(u, p), Acquire(u), Run(u), Acquire(u), Run(u)]
  }

  /** The sending section of a call. */
  function SendCall(u: Tid): seq<Action> {
    [Acquire(u), Run(u)]
  }

  /** Nobody is in the middle of a call on the release list, or of a sending. */
  predicate Quiet(s: State) {
    LockFree(s, ReleaseStream) && LockFree(s, ReleaseList) && LockFree(s, Send)
  }

  lemma LooseAfterStep(s: State, acts: seq<Action>)
    requires acts != [] && LooseEnabled(s, acts[0])
    ensures LooseAfter(s, acts) == LooseAfter(LooseNext(s, acts[0]), acts[1..])
  {
    hide LooseEnabled, LooseNext;
  }

  lemma LooseAfterNone(s: State)
    ensures LooseAfter(s, []) == Some(s)
  {
  }

  lemma {:induction false} LooseAfterConcat(s: State, a: seq<Action>, b: seq<Action>)
    requires LooseAfter(s, a).Some?
    ensures LooseAfter(s, a + b) == LooseAfter(LooseAfter(s, a).value, b)
    decreases |a|
  {
    hide LooseEnabled, LooseNext;
    if a == [] {
      assert a + b == b;
    } else {
      assert (a + b)[1..] == a[1..] + b;
      LooseAfterConcat(LooseNext(s, a[0]), a[1..], b);
    }
  }

  /** Taking a free lock and running the section it protects. */
  lemma LockAndRun(s: State, u: Tid, rest: seq<Action>)
    requires u in s.threads && !s.threads[u].got && Wants(s.threads[u].pc).Some?
    requires LockFree(s, Wants(s.threads[u].pc).value) && CanStep(Acquired(s, u), u)
    requires s.threads[u].pc.RmvUnlink? ==> s.threads[u].pc.p in s.q.release
    ensures LooseAfter(s, [Acquire(u), Run(u)] + rest) == LooseAfter(Step(Acquired(s, u), u), rest)
  {
    hide CanStep, Step, Holds, Wants, LooseAfter;
    var acts := [Acquire(u), Run(u)] + rest;
    LooseAfterStep(s, acts);
    LooseAfterStep(Acquired(s, u), acts[1..]);
    assert acts[1..][1..] == rest;
  }

  lemma EnterAlone(s: State, u: Tid, p: Addr, call: nat)
    requires u in s.threads && s.threads[u] == Thread(RelEnter(p, call), false) && Quiet(s)
    ensures var s2 := Go(s, u, RelCheck(p, call));
            && CanStep(Acquired(s, u), u) && Step(Acquired(s, u), u) == s2
            && LockFree(s, ReleaseStream) && LockFree(s2, ReleaseList)
  {
    assert Acquired(s, u).threads[u := Thread(RelCheck(p, call), false)]
        == s.threads[u := Thread(RelCheck(p, call), false)];
  }

  lemma EnterThenCheck(s: State, u: Tid, p: Addr, call: nat)
    requires u in s.threads && s.threads[u] == Thread(RelEnter(p, call), false) && Quiet(s)
    requires p in s.q.release ==> p in s.q.cells && HasLife(s, p)
    ensures LooseAfter(s, [Acquire(u), Run(u), Acquire(u), Run(u)])
         == Some(StepRelCheck(s, u, p, call))
  {
    hide LooseAfter, StepRelCheck, CanStep, Step, Quiet, LockFree;
    var s2 := Go(s, u, RelCheck(p, call));
    EnterAlone(s, u, p, call);
    LockAndRun(s, u, [Acquire(u), Run(u)]);
    CheckAlone(s, u, p, call);
    LockAndRun(s2, u, []);
    LooseAfterNone(StepRelCheck(s, u, p, call));
    assert [Acquire(u), Run(u)] + [Acquire(u), Run(u)] == [Acquire(u), Run(u), Acquire(u), Run(u)];
    assert [Acquire(u), Run(u)] + [] == [Acquire(u), Run(u)];
  }

  lemma CheckAlone(s: State, u: Tid, p: Addr, call: nat)
    requires u in s.threads && (p in s.q.release ==> p in s.q.cells && HasLife(s, p))
    ensures var s3 := Acquired(Go(s, u, RelCheck(p, call)), u);
            CanStep(s3, u) && Step(s3, u) == StepRelCheck(s, u, p, call)
  {
    var s3 := Acquired(Go(s, u, RelCheck(p, call)), u);
    assert s3.threads[u := Thread(Idle, false)] == s.threads[u := Thread(Idle, false)];
    assert s3.threads[u := Thread(RelSend(p), false)] == s.threads[u := Thread(RelSend(p), false)];
  }

  /** What the counting of such a call does, whoever makes it and whatever the client rule says: nothing if the node
      is not listed; else it counts for the message that the node serves now. */
  ghost predicate CallOutcome(s: State, s': State, u: Tid, p: Addr) {
    && u in s'.threads && s'.threads[u] == Thread(s'.threads[u].pc, false)
    && (forall t :: t in s.threads && t != u ==> t in s'.threads && s'.threads[t] == s.threads[t])
    && s'.threads.Keys == s.threads.Keys && s'.wire == s.wire && s'.owner == s.owner && |s'.lives| == |s.lives|
    && s'.accepted == s.accepted && s'.taken == s.taken && s'.stop == s.stop
    && s'.q.release == s.q.release && s'.q.cells.Keys == s.q.cells.Keys
    && (forall a :: a in s.q.cells ==> s'.q.cells[a].command == s.q.cells[a].command)
    && (forall k :: 0 <= k < |s.lives| && !(p in s.q.release && HasLife(s, p) && k == s.owner[p]) ==>
          s'.lives[k].results == s.lives[k].results && s'.lives[k].sent == s.lives[k].sent)
    && if p !in s.q.release then s'.threads[u].pc == Idle && s'.q == s.q
       else
         && p in s.q.cells && HasLife(s, p) && HasLife(s', p)
         && var left := s.q.cells[p].counter - 1;
            && s'.q == SetCounter(s.q, p, left)
            && s'.threads[u].pc == (if left > 0 then Idle else RelSend(p))
            && LifeOf(s', p).results == LifeOf(s, p).results + [if left > 0 then left else 0]
            && LifeOf(s', p).sent == LifeOf(s, p).sent
  }

  lemma CallCounted(s: State, u: Tid, p: Addr)
    requires ClientAtRest(s, u) && Quiet(s) && (p in s.q.release ==> p in s.q.cells && HasLife(s, p))
    ensures var r := LooseAfter(s, CountCall(u, p));
            r.Some? && CallOutcome(s, r.value, u, p) && Quiet(r.value)
  {
    hide LooseAfter, CallOutcome, StepRelCheck, Quiet;
    var acts := CountCall(u, p);
    var s1 := LooseNext(s, acts[0]);
    LooseAfterStep(s, acts);
    assert acts[1..] == [Acquire(u), Run(u), Acquire(u), Run(u)];
    CallBegins(s, u, p);
    var call := s1.threads[u].pc.call;
    EnterThenCheck(s1, u, p, call);
    CheckOutcome(s, s1, u, p, call);
  }

  lemma CallEntered(s: State, u: Tid, p: Addr)
    requires ClientAtRest(s, u)
    ensures var s1 := LooseNext(s, CallRelease(u, p));
            && u in s1.threads && s1.threads[u].pc.RelEnter?
            && s1.threads[u] == Thread(RelEnter(p, s1.threads[u].pc.call), false)
            && Begun(s, s1, u)
  {
  }

  lemma CallBegins(s: State, u: Tid, p: Addr)
    requires ClientAtRest(s, u) && Quiet(s) && (p in s.q.release ==> p in s.q.cells && HasLife(s, p))
    ensures var s1 := LooseNext(s, CallRelease(u, p));
            && u in s1.threads && s1.threads[u].pc.RelEnter?
            && s1.threads[u] == Thread(RelEnter(p, s1.threads[u].pc.call), false)
            && Quiet(s1) && Begun(s, s1, u)
  {
    hide LooseNext, ClientAtRest;
    CallEntered(s, u, p);
    var s1 := LooseNext(s, CallRelease(u, p));
    forall l ensures !Holds(s1.threads[u], l) {
    }
  }

  /** From `s` to `s1` a call has begun, no more. */
  ghost predicate Begun(s: State, s1: State, u: Tid) {
    && u in s.threads && u in s1.threads && s1.threads == s.threads[u := s1.threads[u]]
    && s1.q == s.q && s1.wire == s.wire && s1.owner == s.owner && |s1.lives| == |s.lives|
    && s1.accepted == s.accepted && s1.taken == s.taken && s1.stop == s.stop
    && forall k :: 0 <= k < |s.lives| ==>
         s1.lives[k].results == s.lives[k].results && s1.lives[k].sent == s.lives[k].sent
  }

  lemma CheckLeavesQuiet(s1: State, u: Tid, p: Addr, call: nat)
    requires u in s1.threads && Quiet(s1) && (p in s1.q.release ==> p in s1.q.cells && HasLife(s1, p))
    ensures Quiet(StepRelCheck(s1, u, p, call))
  {
    hide Wants;
    var s' := StepRelCheck(s1, u, p, call);
    assert s'.threads == s1.threads[u := s'.threads[u]];
    assert s'.threads[u] in {Thread(Idle, false), Thread(RelSend(p), false)};
    forall l ensures !Holds(s'.threads[u], l) {
    }
  }

  lemma MissOutcome(s: State, s1: State, u: Tid, p: Addr, call: nat)
    requires Begun(s, s1, u) && p !in s.q.release
    ensures CallOutcome(s, StepRelCheck(s1, u, p, call), u, p)
  {
  }

  lemma HitOutcome(s: State, s1: State, u: Tid, p: Addr, call: nat)
    requires Begun(s, s1, u) && p in s.q.release && p in s.q.cells && HasLife(s, p)
    ensures CallOutcome(s, StepRelCheck(s1, u, p, call), u, p)
  {
  }

  lemma CheckOutcome(s: State, s1: State, u: Tid, p: Addr, call: nat)
    requires Begun(s, s1, u) && Quiet(s1) && (p in s.q.release ==> p in s.q.cells && HasLife(s, p))
    ensures CallOutcome(s, StepRelCheck(s1, u, p, call), u, p) && Quiet(StepRelCheck(s1, u, p, call))
  {
    hide Quiet, CallOutcome, StepRelCheck;
    CheckLeavesQuiet(s1, u, p, call);
    if p in s.q.release {
      HitOutcome(s, s1, u, p, call);
    } else {
      MissOutcome(s, s1, u, p, call);
    }
  }

  /** A call that has come to its sending sends the release of the message that the node serves now, if its command is
      that of a message. */
  lemma CallSends(s: State, u: Tid, p: Addr)
    requires u in s.threads && s.threads[u] == Thread(RelSend(p), false) && LockFree(s, Send)
    requires p in s.q.cells && HasLife(s, p)
    ensures var r := LooseAfter(s, SendCall(u));
            && r.Some?
            && r.value.wire
               == (if ValidMagic(s.q.cells[p].command)
                   then s.wire + [Wire(OfAccepted(s.owner[p]), ReleaseOf(s.q.cells[p].command))] else s.wire)
            && r.value.owner == s.owner && r.value.q == s.q && |r.value.lives| == |s.lives|
            && r.value.accepted == s.accepted && r.value.taken == s.taken && r.value.stop == s.stop
            && r.value.threads == s.threads[u := Thread(RmvEnter(p), false)]
  {
    hide LooseAfter, ValidMagic, ReleaseOf;
    LockAndRun(s, u, []);
    var s' := Step(Acquired(s, u), u);
    assert Acquired(s, u).threads[u := Thread(RmvEnter(p), false)] == s.threads[u := Thread(RmvEnter(p), false)];
    LooseAfterNone(s');
    assert [Acquire(u), Run(u)] + [] == [Acquire(u), Run(u)];
  }

  // ----- what one call too many does

  lemma CountedOut(s: State, k: nat)
    requires Inv(s) && k < |s.lives| && |s.lives[k].results| == s.lives[k].quota
    ensures var l := s.lives[k];
            && l.stage in {Called, Recycled} && l.node in s.nodes
            && (l.stage == Called ==> l.node in s.q.release && s.owner[l.node] == k)
            && (l.stage == Recycled && l.node in s.q.release ==> HasLife(s, l.node) && s.owner[l.node] != k)
  {
    hide ListsOk, ThreadsOk, HistoryOk, WakeOk, HoldsMessage, CallsOk;
    CountedIsCalled(s, k);
    var p := s.lives[k].node;
    assert LifeOk(s, k) && NodeOk(s, p);
    if p in s.q.release {
      ListedLife(s, p);
    }
  }

  /** What is left of the count of the message that the node at `p` serves. */
  function Left(s: State, p: Addr): int
    requires HasLife(s, p)
  {
    LifeOf(s, p).quota - |LifeOf(s, p).results|
  }

  lemma ListedLeft(s: State, p: Addr)
    requires Inv(s) && p in s.q.release
    ensures p in s.q.cells && HasLife(s, p) && s.q.cells[p].counter == Left(s, p)
  {
    hide Inv;
    ListedLife(s, p);
    ListedNode(s, p);
  }

  /** One call more after all n calls for message `k` have been counted. It is counted for `k`, and goes on to another
      sending, if and only if the node has not been taken off the release list yet. Otherwise it finds nothing, or, if
      the node serves another message by now, it counts for that one, and goes on to a sending exactly if one call was
      left. What such a sending sends depends on when it comes: see SentAgainIff. */
  lemma ExtraCallOutcome(run: seq<State>, acts: seq<Action>, i: nat, u: Tid, k: nat)
    requires IsRun(run, acts) && i < |run| && k < |run[i].lives| && ClientAtRest(run[i], u) && Quiet(run[i])
    requires |run[i].lives[k].results| == run[i].lives[k].quota
    ensures var s, l := run[i], run[i].lives[k];
            var p, r := l.node, LooseAfter(s, CountCall(u, l.node));
            && r.Some? && u in r.value.threads && r.value.wire == s.wire
            && var sends := r.value.threads[u].pc == RelSend(p);
               && (sends && p in r.value.owner && r.value.owner[p] == k <==> l.stage != Recycled)
               && (p !in s.q.release ==> r.value.threads[u].pc == Idle && r.value.q == s.q)
               && (p in s.q.release ==> HasLife(s, p) && (sends <==> Left(s, p) <= 1))
               && (l.stage == Recycled && p in s.q.release ==> s.owner[p] != k)
  {
    hide Inv, IsRun, LooseAfter, Quiet, ClientAtRest;
    RunInv(run, acts, i);
    var s, p := run[i], run[i].lives[k].node;
    CountedOut(s, k);
    if p in s.q.release {
      ListedLeft(s, p);
    }
    CallCounted(s, u, p);
  }

  lemma TwoMore(wire: seq<Wire>, a: Wire, b: Wire, o: Origin)
    requires a.origin == b.origin == o && Sendings(wire, o) == {}
    ensures |Sendings(wire + [a] + [b], o)| == 2
  {
    var w, n := wire + [a] + [b], |wire|;
    forall i: nat | i < n ensures w[i].origin != o {
      assert i in Sendings(wire, o) <==> w[i].origin == o;
    }
    assert Sendings(w, o) == {n, n + 1};
  }

  /** The node at `p` is listed for message `k`, whose magic is valid, with one call left, and nothing has been sent for
      it. */
  ghost predicate OneLeft(s: State, p: Addr, k: nat) {
    && p in s.q.release && p in s.q.cells && s.q.cells[p].counter == 1 && ValidMagic(s.q.cells[p].command)
    && HasLife(s, p) && s.owner[p] == k && Sendings(s.wire, OfAccepted(k)) == {}
  }

  function TwoCalls(t: Tid, u: Tid, p: Addr): seq<Action> {
    CountCall(t, p) + CountCall(u, p) + SendCall(t) + SendCall(u)
  }

  /** Two threads are at the same place, all others where they were. */
  ghost predicate BothAt(s: State, s': State, t: Tid, u: Tid, pc: Pc) {
    && s'.threads.Keys == s.threads.Keys && t in s'.threads && u in s'.threads
    && s'.threads[t] == s'.threads[u] == Thread(pc, false)
    && forall x :: x in s.threads && x != t && x != u ==> s'.threads[x] == s.threads[x]
  }

  lemma BothCallsSend(s: State, t: Tid, u: Tid, p: Addr, k: nat)
    requires t != u && ClientAtRest(s, t) && ClientAtRest(s, u) && Quiet(s) && OneLeft(s, p, k)
    ensures var r := LooseAfter(s, TwoCalls(t, u, p));
            && r.Some? && |Sendings(r.value.wire, OfAccepted(k))| == 2
            && r.value.q.release == s.q.release && r.value.q.pool == s.q.pool && p in r.value.q.cells
            && HasLife(r.value, p) && BothAt(s, r.value, t, u, RmvEnter(p))
  {
    hide LooseAfter, Quiet, CountCall, SendCall, ReleaseOf, Sendings, ValidMagic;
    CallCounted(s, t, p);
    var s1 := LooseAfter(s, CountCall(t, p)).value;
    CallCounted(s1, u, p);
    var s2 := LooseAfter(s1, CountCall(u, p)).value;
    SendFree(s2);
    CallSends(s2, t, p);
    var s3 := LooseAfter(s2, SendCall(t)).value;
    SendStaysFree(s2, s3, t, p);
    CallSends(s3, u, p);
    LooseAfterConcat(s, CountCall(t, p), CountCall(u, p));
    LooseAfterConcat(s, CountCall(t, p) + CountCall(u, p), SendCall(t));
    LooseAfterConcat(s, CountCall(t, p) + CountCall(u, p) + SendCall(t), SendCall(u));
    var o := OfAccepted(k);
    TwoMore(s.wire, Wire(o, ReleaseOf(s2.q.cells[p].command)), Wire(o, ReleaseOf(s3.q.cells[p].command)), o);
  }

  /** n + 1 calls for one message. When n - 1 have been counted, the last of the n and one more are counted, and both
      come to their sending before the node is taken off the list: the release is sent twice. */
  lemma OneCallTooMany(run: seq<State>, acts: seq<Action>, i: nat, t: Tid, u: Tid, k: nat)
    requires IsRun(run, acts) && i < |run| && k < |run[i].lives|
    requires t != u && ClientAtRest(run[i], t) && ClientAtRest(run[i], u) && Quiet(run[i])
    requires var l := run[i].lives[k]; l.stage == Called && |l.results| == l.quota - 1
    ensures var r := LooseAfter(run[i], TwoCalls(t, u, run[i].lives[k].node));
            r.Some? && |Sendings(r.value.wire, OfAccepted(k))| == 2
  {
    hide Inv, IsRun, LooseAfter, Quiet, TwoCalls, CountsDown, ValidMagic;
    RunInv(run, acts, i);
    ReleasedOnce(run, acts, i, k);
    var s, p := run[i], run[i].lives[k].node;
    DeliveredListed(s, k);
    DeliveredMagic(s, k);
    ListedLeft(s, p);
    BothCallsSend(s, t, u, p, k);
  }

  lemma SendFree(s: State)
    requires Quiet(s)
    ensures LockFree(s, Send)
  {
  }

  lemma SendStaysFree(s: State, s': State, t: Tid, p: Addr)
    requires LockFree(s, Send) && s'.threads == s.threads[t := Thread(RmvEnter(p), false)]
    ensures LockFree(s', Send)
  {
  }

  lemma DeliveredListed(s: State, k: nat)
    requires Inv(s) && k < |s.lives| && s.lives[k].stage == Called
    ensures s.lives[k].node in s.q.release && HasLife(s, s.lives[k].node) && s.owner[s.lives[k].node] == k
  {
    hide ListsOk, ThreadsOk, HistoryOk, WakeOk, HoldsMessage, CallsOk;
    assert LifeOk(s, k) && NodeOk(s, s.lives[k].node);
  }

  lemma DeliveredMagic(s: State, k: nat)
    requires Inv(s) && k < |s.lives| && s.lives[k].stage == Called
    ensures s.lives[k].node in s.q.cells && ValidMagic(s.q.cells[s.lives[k].node].command)
  {
    hide ListsOk, ThreadsOk, HistoryOk, WakeOk, HoldsMessage, CallsOk, ActiveNode, ValidMagic, NodesOk;
    assert LifeOk(s, k);
    IsActive(s, s.lives[k].node);
    ActiveMagic(s, s.lives[k].node);
  }

  /** A call too many for a message whose node serves the next message already, with one call left for that one: the
      release of that one is sent, if its magic is valid, though none of its own clients need have called. */
  lemma NextMessageReleased(run: seq<State>, acts: seq<Action>, i: nat, u: Tid, k: nat)
    requires IsRun(run, acts) && i < |run| && k < |run[i].lives| && ClientAtRest(run[i], u) && Quiet(run[i])
    requires var l := run[i].lives[k];
             && |l.results| == l.quota && l.stage == Recycled && l.node in run[i].q.release
             && HasLife(run[i], l.node) && Left(run[i], l.node) == 1
    ensures var s, p := run[i], run[i].lives[k].node;
            var r := LooseAfter(s, CountCall(u, p) + SendCall(u));
            && r.Some? && s.owner[p] != k
            && |Sendings(s.wire, OfAccepted(s.owner[p]))| == 0
            && p in s.q.cells
            && |Sendings(r.value.wire, OfAccepted(s.owner[p]))| == if ValidMagic(s.q.cells[p].command) then 1 else 0
  {
    hide Inv, IsRun, LooseAfter, Quiet, CountCall, SendCall, CountsDown, ReleaseOf, ValidMagic;
    RunInv(run, acts, i);
    var s, p := run[i], run[i].lives[k].node;
    ReleasedOnce(run, acts, i, s.owner[p]);
    CountedOut(s, k);
    ListedLeft(s, p);
    CallCounted(s, u, p);
    var s1 := LooseAfter(s, CountCall(u, p)).value;
    SendFree(s1);
    CallSends(s1, u, p);
    LooseAfterConcat(s, CountCall(u, p), SendCall(u));
    OneMore(s.wire, Wire(OfAccepted(s.owner[p]), ReleaseOf(s1.q.cells[p].command)));
  }

  lemma OneMore(wire: seq<Wire>, a: Wire)
    requires Sendings(wire, a.origin) == {}
    ensures |Sendings(wire + [a], a.origin)| == 1
  {
    var w, n := wire + [a], |wire|;
    forall i: nat | i < n ensures w[i].origin != a.origin {
      assert i in Sendings(wire, a.origin) <==> w[i].origin == a.origin;
    }
    assert Sendings(w, a.origin) == {n};
  }
}
