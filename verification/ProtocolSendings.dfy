/** What becomes of release calls beyond the rule for clients, over whole runs: which sendings are sent, and when a node
    is removed that is not on the release list. */
module ProtocolSendings {
  import opened Options
  import opened Bytes
  import opened StreamMessage
  import opened QueueSpec
  import opened Protocol
  import opened ProtocolInvariant
  import opened ProtocolFrames
  import opened ProtocolSteps
  import opened ProtocolRelease
  import opened ProtocolSafety
  import opened ProtocolLastCall
  import opened ProtocolTheorems
  import opened ProtocolLoose
  import opened ProtocolLooseLife
  import opened ProtocolExtraCalls

  // ----- the sending of a counted call

  predicate HappensBetween(run: seq<State>, acts: seq<Action>, p: Addr, what: Meaning, i: nat, j: nat)
    requires i <= j <= |acts| && |run| == |acts| + 1
  {
    exists k :: i <= k < j && MeaningOf(run[k], acts[k], p) == what
  }

  /** From state `i` to state `j`: as long as the node is not pushed to the pool, it serves its message; after that it
      is zeroed, or serves a later one. */
  lemma {:induction false} ServingRun(run: seq<State>, acts: seq<Action>, p: Addr, i: nat, j: nat)
    requires IsLooseRun(run, acts) && i <= j < |run| && p in run[i].nodes && Loaded(run[i], p)
    ensures p in run[j].nodes && p in run[i].owner && p in run[j].owner
    ensures |run[i].lives| <= |run[j].lives| && run[i].accepted <= run[j].accepted
    ensures if !HappensBetween(run, acts, p, IsPushed, i, j) then
              Loaded(run[j], p) && run[j].owner[p] == run[i].owner[p]
            else !Loaded(run[j], p) || run[j].owner[p] >= |run[i].lives|
    decreases j
  {
    hide LooseInv, LooseEnabled, LooseNext, MeaningOf, Loaded, Shape, Init;
    LooseRunInv(run, acts, i);
    LoadedOwner(run[i], p);
    if i < j {
      ServingRun(run, acts, p, i, j - 1);
      LooseRunInv(run, acts, j - 1);
      LooseNodesSame(run, acts, j - 1);
      ActionServing(run[j - 1], acts[j - 1], p);
      if HappensBetween(run, acts, p, IsPushed, i, j) && !HappensBetween(run, acts, p, IsPushed, i, j - 1) {
        assert MeaningOf(run[j - 1], acts[j - 1], p) == IsPushed;
      }
      if HappensBetween(run, acts, p, IsPushed, i, j - 1) {
        var k :| i <= k < j - 1 && MeaningOf(run[k], acts[k], p) == IsPushed;
        assert i <= k < j;
      }
    }
  }

  lemma LoadedOwner(s: State, p: Addr)
    requires LooseInv(s) && p in s.nodes
    ensures Loaded(s, p) ==> p in s.owner && s.owner[p] < |s.lives| && |s.lives| == |s.accepted|
  {
    hide ValidMagic, AtHome;
    assert LooseNode(s, p);
  }

  /** A sending is sent exactly if the node is loaded with a message of valid magic; it is then that message's
      release. */
  lemma SendingOutcome(s: State, t: Tid, p: Addr)
    requires LooseInv(s) && CanStep(s, t) && s.threads[t].pc == RelSend(p)
    ensures p in s.nodes && p in s.q.cells && p in s.owner && s.owner[p] < |s.accepted|
    ensures Step(s, t).wire
         == if Loaded(s, p) && ValidMagic(s.accepted[s.owner[p]])
            then s.wire + [Wire(OfAccepted(s.owner[p]), ReleaseOf(s.q.cells[p].command))] else s.wire
  {
    hide ValidMagic, ReleaseOf, Wants, AtHome, Loaded;
    ZeroMagic();
    assert LooseNode(s, p);
  }

  /** `u` counts a call for the node at `p` in step `c`, and comes to its sending in step `j`. */
  predicate CountsAndSends(run: seq<State>, acts: seq<Action>, p: Addr, u: Tid, c: nat, j: nat)
    requires |run| == |acts| + 1
  {
    && c < j < |acts| && acts[c] == Run(u) && acts[j] == Run(u) && Counts(run[c], acts[c], p)
    && u in run[c + 1].threads && run[c + 1].threads[u].pc == RelSend(p)
    && u in run[j].threads && run[j].threads[u].pc == RelSend(p)
  }

  lemma CountedNode(s: State, u: Tid, p: Addr)
    requires LooseInv(s) && CanStep(s, u) && s.threads[u].pc.RelCheck? && s.threads[u].pc.p == p
    requires u in Step(s, u).threads && Step(s, u).threads[u].pc == RelSend(p)
    ensures p in s.q.release && p in s.nodes && Loaded(s, p)
  {
    hide ValidMagic, LooseNodes, LooseThreads, NoDup, Wants;
  }

  /** Each counted call that comes to a sending was counted for one message. As long as its node has not been pushed to
      the pool in between, that message's release is sent, if its magic is valid. After that it is never sent again:
      nothing is sent while the node is zeroed, and once it has been filled again, the release of that later message is,
      if its magic is valid. */
  lemma SentAgainIff(run: seq<State>, acts: seq<Action>, p: Addr, u: Tid, c: nat, j: nat)
    requires IsLooseRun(run, acts) && CountsAndSends(run, acts, p, u, c, j)
    ensures p in run[c].owner && run[c].owner[p] < |run[c].accepted|
    ensures p in run[j].owner && run[j].owner[p] < |run[j].accepted| && p in run[j].q.cells
    ensures var k, now := run[c].owner[p], run[j].owner[p];
            var before, after := run[j].wire, run[j + 1].wire;
            var w := Wire(OfAccepted(now), ReleaseOf(run[j].q.cells[p].command));
            if !HappensBetween(run, acts, p, IsPushed, c, j) then
              now == k && after == if ValidMagic(run[c].accepted[k]) then before + [w] else before
            else if Loaded(run[j], p) then
              now >= |run[c].lives| && after == if ValidMagic(run[j].accepted[now]) then before + [w] else before
            else after == before
  {
    hide LooseInv, LooseEnabled, Next, Step, CanStep, MeaningOf, Loaded, ValidMagic, ReleaseOf, Init;
    LooseRunInv(run, acts, c);
    LooseRunInv(run, acts, j);
    RunStep(run, acts, c, u);
    RunStep(run, acts, j, u);
    CountedNode(run[c], u, p);
    LoadedOwner(run[c], p);
    ServingRun(run, acts, p, c, j);
    SendingOutcome(run[j], u, p);
  }

  lemma RunStep(run: seq<State>, acts: seq<Action>, i: nat, t: Tid)
    requires IsLooseRun(run, acts) && i < |acts| && acts[i] == Run(t)
    ensures CanStep(run[i], t) && run[i + 1] == Step(run[i], t) && !Damages(run[i], Run(t))
  {
    hide CanStep, Step, Damages;
  }

  // ----- removals of a node that is not on the list

  /** Thread `t` carries out a last release of the node at `p`. */
  predicate Closes(s: State, t: Tid, p: Addr) {
    t in s.threads && Closing(s.threads[t].pc) == Some(p)
  }

  lemma RunCloser(s: State, u: Tid, t: Tid, p: Addr)
    requires CanStep(s, u) && Closes(Step(s, u), t, p)
    ensures Closes(s, t, p) || (u == t && s.threads[t].pc.RelCheck? && s.threads[t].pc.p == p && p in s.q.release)
  {
    hide CanStep, Step;
    if u == t {
      OwnCloser(s, t, p);
    } else {
      StepMovesOne(s, u);
    }
  }

  lemma ClientCloser(s: State, t: Tid, p: Addr)
    requires CanStep(s, t) && Closes(Step(s, t), t, p)
    requires var pc := s.threads[t].pc; pc.RelCheck? || pc.RelSend? || pc.RmvEnter?
    ensures Closes(s, t, p) || (s.threads[t].pc.RelCheck? && s.threads[t].pc.p == p && p in s.q.release)
  {
    hide Wants, ValidMagic, ReleaseOf, SetCounter;
  }

  lemma TargetCloses(s: State, t: Tid)
    requires CanStep(s, t) && Target(s, s.threads[t].pc).Some? && !s.threads[t].pc.RmvEnter?
    ensures t in Step(s, t).threads && Closing(Step(s, t).threads[t].pc) == None
  {
    hide Wants;
  }

  lemma ReceiverCloses(s: State, t: Tid)
    requires CanStep(s, t)
    requires var pc := s.threads[t].pc;
             pc.EnqPop? || pc.EnqPush? || pc.EnqSignal? || pc.Refuse?
    ensures t in Step(s, t).threads && Closing(Step(s, t).threads[t].pc) == None
  {
    hide Wants, ValidMagic, ReleaseOf, Deliverable, PoolPush, PoolPop, RecvPush, RecvPop, ReleasePop,
      ReleaseRemove, Fill, Store, Translate, SetCounter, Converted;
  }

  lemma RemoverCloses(s: State, t: Tid)
    requires CanStep(s, t)
    requires var pc := s.threads[t].pc;
             pc.RmvUnlink? || pc.RmvPush? || pc.RmvSignal? || pc.CntSet?
    ensures t in Step(s, t).threads && Closing(Step(s, t).threads[t].pc) == None
  {
    hide Wants, ValidMagic, ReleaseOf, Deliverable, PoolPush, PoolPop, RecvPush, RecvPop, ReleasePop,
      ReleaseRemove, Fill, Store, Translate, SetCounter, Converted;
  }

  lemma LoopCloses(s: State, t: Tid)
    requires CanStep(s, t)
    requires var pc := s.threads[t].pc;
             pc.LoopPop? || pc.StoPush?
    ensures t in Step(s, t).threads && Closing(Step(s, t).threads[t].pc) == None
  {
    hide Wants, ValidMagic, ReleaseOf, Deliverable, PoolPush, PoolPop, RecvPush, RecvPop, ReleasePop,
      ReleaseRemove, Fill, Store, Translate, SetCounter, Converted;
  }

  lemma DispatchCloses(s: State, t: Tid)
    requires CanStep(s, t)
    requires var pc := s.threads[t].pc;
             pc.Receive? || pc.DrainTest?
    ensures t in Step(s, t).threads && Closing(Step(s, t).threads[t].pc) == None
  {
    hide Wants, ValidMagic, ReleaseOf, Deliverable, PoolPush, PoolPop, RecvPush, RecvPop, ReleasePop,
      ReleaseRemove, Fill, Store, Translate, SetCounter, Converted;
  }

  lemma EndCloses(s: State, t: Tid)
    requires CanStep(s, t)
    requires var pc := s.threads[t].pc;
             pc.FrcPop? || pc.FrcPush? || pc.FrcSignal?
    ensures t in Step(s, t).threads && Closing(Step(s, t).threads[t].pc) == None
  {
    hide Wants, ValidMagic, ReleaseOf, Deliverable, PoolPush, PoolPop, RecvPush, RecvPop, ReleasePop,
      ReleaseRemove, Fill, Store, Translate, SetCounter, Converted;
  }

  lemma CloseCloses(s: State, t: Tid)
    requires CanStep(s, t)
    requires var pc := s.threads[t].pc;
             pc.CloseEnter? || pc.Freeing?
    ensures t in Step(s, t).threads && Closing(Step(s, t).threads[t].pc) == None
  {
    hide Wants, ValidMagic, ReleaseOf, Deliverable, PoolPush, PoolPop, RecvPush, RecvPop, ReleasePop,
      ReleaseRemove, Fill, Store, Translate, SetCounter, Converted;
  }

  lemma OwnCloser(s: State, t: Tid, p: Addr)
    requires CanStep(s, t) && Closes(Step(s, t), t, p)
    ensures Closes(s, t, p) || (s.threads[t].pc.RelCheck? && s.threads[t].pc.p == p && p in s.q.release)
  {
    hide Step, Target, Wants;
    var pc := s.threads[t].pc;
    if pc.RelCheck? || pc.RelSend? || pc.RmvEnter? {
      ClientCloser(s, t, p);
    } else if Target(s, pc).Some? {
      TargetCloses(s, t);
    } else if pc.EnqPop? || pc.EnqPush? || pc.EnqSignal? || pc.Refuse? {
      ReceiverCloses(s, t);
    } else if pc.RmvUnlink? || pc.RmvPush? || pc.RmvSignal? || pc.CntSet? {
      RemoverCloses(s, t);
    } else if pc.LoopPop? || pc.StoPush? {
      LoopCloses(s, t);
    } else if pc.Receive? || pc.DrainTest? {
      DispatchCloses(s, t);
    } else if pc.FrcPop? || pc.FrcPush? || pc.FrcSignal? {
      EndCloses(s, t);
    } else {
      StepCases(s, t);
      CloseCloses(s, t);
    }
  }

  lemma CallCloser(s: State, act: Action, t: Tid, p: Addr)
    requires LooseEnabled(s, act) && !act.Run? && Closes(LooseNext(s, act), t, p)
    ensures Closes(s, t, p)
  {
    hide CanStep, Holds;
  }

  /** A thread begins to close a node only by counting a call for it while it is listed. */
  lemma CloserBegins(s: State, act: Action, t: Tid, p: Addr)
    requires LooseEnabled(s, act) && Closes(LooseNext(s, act), t, p)
    ensures Closes(s, t, p) || (act == Run(t) && Counts(s, act, p) && p in s.q.release)
  {
    hide Step, Closes, Holds, Wants;
    if act.Run? {
      RunCloser(s, act.t, t, p);
    } else {
      CallCloser(s, act, t, p);
    }
  }

  /** In step `i`, another thread takes the node at `p` off the release list while `t`, too, closes it. */
  predicate UnlinkedUnder(run: seq<State>, acts: seq<Action>, p: Addr, t: Tid, i: nat)
    requires i < |acts| && |run| == |acts| + 1
  {
    && MeaningOf(run[i], acts[i], p) == IsUnlinked && acts[i].t != t
    && p in run[i].q.release && Closes(run[i], t, p)
  }

  lemma ListedIsPlaced(s: State, p: Addr)
    requires LooseInv(s) && p in s.nodes
    ensures p in s.place && (p in s.q.release <==> s.place[p] == InRelease)
  {
    hide ValidMagic, NoDup, LooseThreads, Loaded;
    assert LooseNode(s, p);
  }

  lemma UnlinkerLeaves(s: State, t: Tid, p: Addr)
    requires CanStep(s, t) && s.threads[t].pc == RmvUnlink(p)
    ensures !Closes(Step(s, t), t, p)
  {
    hide Wants;
  }

  ghost predicate UnlinkedSince(run: seq<State>, acts: seq<Action>, p: Addr, t: Tid, i: nat, j: nat)
    requires i < j <= |acts| && |run| == |acts| + 1
  {
    UnlinkedUnder(run, acts, p, t, i) && !HappensBetween(run, acts, p, IsListed, i + 1, j)
  }

  /** A thread is about to remove a node that is not on the list if and only if another thread has removed the node
      while both were closing it - both of their calls were counted, at a count of 0 or below, before it was taken
      off - and it has not been listed again since. */
  lemma UnlistedIff(run: seq<State>, acts: seq<Action>, j: nat, t: Tid, p: Addr)
    requires IsLooseRun(run, acts) && j < |run| && Closes(run[j], t, p) && p in run[j].nodes
    ensures p !in run[j].q.release <==> exists i :: 0 <= i < j && UnlinkedSince(run, acts, p, t, i, j)
  {
    hide Closes, UnlinkedUnder, HappensBetween, LooseEnabled, LooseNext;
    if p !in run[j].q.release {
      UnlistedWhy(run, acts, j, t, p);
    }
    if i :| 0 <= i < j && UnlinkedSince(run, acts, p, t, i, j) {
      UnlinkedStays(run, acts, i, j, t, p);
    }
  }

  lemma {:induction false} UnlinkedStays(run: seq<State>, acts: seq<Action>, i: nat, j: nat, t: Tid, p: Addr)
    requires IsLooseRun(run, acts) && i < j < |run| && p in run[j].nodes && UnlinkedSince(run, acts, p, t, i, j)
    ensures p in run[i].nodes && p !in run[j].q.release
    decreases j
  {
    hide LooseInv, LooseEnabled, LooseNext, MeaningOf, Loaded, Shape, Init, Closes;
    LooseRunInv(run, acts, j - 1);
    LooseRunInv(run, acts, j);
    LooseNodesSame(run, acts, j - 1);
    ActionServing(run[j - 1], acts[j - 1], p);
    ListedIsPlaced(run[j - 1], p);
    ListedIsPlaced(run[j], p);
    if i < j - 1 {
      NotListedBefore(run, acts, p, i + 1, j - 1);
      UnlinkedStays(run, acts, i, j - 1, t, p);
    }
  }

  lemma LooseNodesSame(run: seq<State>, acts: seq<Action>, i: nat)
    requires IsLooseRun(run, acts) && i < |acts|
    ensures run[i + 1].nodes == run[i].nodes
  {
    hide LooseInv, LooseEnabled, LooseNext, Init, Shape;
    LooseRunInv(run, acts, i);
    ActionNodes(run[i], acts[i]);
  }

  lemma {:induction false} UnlistedWhy(run: seq<State>, acts: seq<Action>, j: nat, t: Tid, p: Addr)
    requires IsLooseRun(run, acts) && j < |run| && Closes(run[j], t, p) && p in run[j].nodes && p !in run[j].q.release
    ensures exists i :: 0 <= i < j && UnlinkedSince(run, acts, p, t, i, j)
    decreases j
  {
    hide LooseInv, LooseEnabled, LooseNext, MeaningOf, Closes, Shape, Init, HappensBetween;
    if j == 0 {
      InitCloses(run[0], t, p);
    } else {
      var h := j - 1;
      LooseRunInv(run, acts, h);
      LooseRunInv(run, acts, j);
      LooseNodesSame(run, acts, h);
      CloserBegins(run[h], acts[h], t, p);
      ActionServing(run[h], acts[h], p);
      ListedIsPlaced(run[h], p);
      ListedIsPlaced(run[j], p);
      if p in run[h].q.release {
        UnlinkedHere(run, acts, h, t, p);
        assert UnlinkedSince(run, acts, p, t, h, j);
      } else {
        UnlistedWhy(run, acts, h, t, p);
        var i :| 0 <= i < h && UnlinkedSince(run, acts, p, t, i, h);
        NotListedOn(run, acts, p, i + 1, h);
        assert UnlinkedSince(run, acts, p, t, i, j);
      }
    }
  }

  lemma InitCloses(s: State, t: Tid, p: Addr)
    requires Init(s)
    ensures !Closes(s, t, p)
  {
  }

  lemma NotListedOn(run: seq<State>, acts: seq<Action>, p: Addr, i: nat, h: nat)
    requires i <= h < |acts| && |run| == |acts| + 1
    requires !HappensBetween(run, acts, p, IsListed, i, h) && MeaningOf(run[h], acts[h], p) != IsListed
    ensures !HappensBetween(run, acts, p, IsListed, i, h + 1)
  {
    hide MeaningOf;
  }

  lemma NotListedBefore(run: seq<State>, acts: seq<Action>, p: Addr, i: nat, h: nat)
    requires i <= h < |acts| && |run| == |acts| + 1 && !HappensBetween(run, acts, p, IsListed, i, h + 1)
    ensures !HappensBetween(run, acts, p, IsListed, i, h) && MeaningOf(run[h], acts[h], p) != IsListed
  {
    hide MeaningOf;
  }

  /** The step that takes the node off while `t` closes it is another thread's. */
  lemma UnlinkedHere(run: seq<State>, acts: seq<Action>, h: nat, t: Tid, p: Addr)
    requires IsLooseRun(run, acts) && h < |acts| && p in run[h].q.release && p !in run[h + 1].q.release
    requires MeaningOf(run[h], acts[h], p) == IsUnlinked && Closes(run[h + 1], t, p)
    requires Closes(run[h], t, p) || (acts[h] == Run(t) && Counts(run[h], acts[h], p) && p in run[h].q.release)
    ensures UnlinkedUnder(run, acts, p, t, h) && !HappensBetween(run, acts, p, IsListed, h + 1, h + 1)
  {
    hide CanStep, Step, Closes, Damages;
    var u := acts[h].t;
    RunStep(run, acts, h, u);
    if u == t {
      UnlinkerLeaves(run[h], t, p);
    }
  }

  /** How a thread came to close the node: it counted a call at which nothing was left, and has been closing since. */
  ghost predicate CountedOutAt(run: seq<State>, acts: seq<Action>, p: Addr, t: Tid, c: nat, j: nat)
    requires c < j <= |acts| && |run| == |acts| + 1
  {
    && acts[c] == Run(t) && Counts(run[c], acts[c], p) && p in run[c].q.release
    && p in run[c].q.cells && run[c].q.cells[p].counter <= 1
    && forall i :: c < i <= j ==> Closes(run[i], t, p)
  }

  lemma {:induction false} CloserCounted(run: seq<State>, acts: seq<Action>, j: nat, t: Tid, p: Addr)
    requires IsLooseRun(run, acts) && j < |run| && Closes(run[j], t, p)
    ensures exists c :: 0 <= c < j && CountedOutAt(run, acts, p, t, c, j)
    decreases j
  {
    hide LooseEnabled, LooseNext, Closes, Init, Counts;
    if j == 0 {
      InitCloses(run[0], t, p);
    } else {
      var h := j - 1;
      CloserBegins(run[h], acts[h], t, p);
      if Closes(run[h], t, p) {
        CloserCounted(run, acts, h, t, p);
        var c :| 0 <= c < h && CountedOutAt(run, acts, p, t, c, h);
        assert CountedOutAt(run, acts, p, t, c, j);
      } else {
        CountedCloses(run, acts, h, t, p);
        assert CountedOutAt(run, acts, p, t, h, j);
      }
    }
  }

  lemma CountedCloses(run: seq<State>, acts: seq<Action>, h: nat, t: Tid, p: Addr)
    requires IsLooseRun(run, acts) && h < |acts| && acts[h] == Run(t) && Counts(run[h], acts[h], p)
    requires p in run[h].q.release && Closes(run[h + 1], t, p)
    ensures p in run[h].q.cells && run[h].q.cells[p].counter <= 1
  {
    hide Step, Closes, Wants, Damages;
    RunStep(run, acts, h, t);
    RelCheckListed(run[h], t, p, run[h].q.cells[p].counter);
    ClosesSends(run[h + 1], t, p);
    CountedGoes(run[h], t, p);
  }

  lemma CountedGoes(s: State, t: Tid, p: Addr)
    requires CanStep(s, t) && s.threads[t].pc.RelCheck? && s.threads[t].pc.p == p
    ensures t in Step(s, t).threads && Step(s, t).threads[t].pc in {Idle, RelSend(p)}
  {
    hide Wants;
  }

  lemma ClosesSends(s: State, t: Tid, p: Addr)
    requires Closes(s, t, p)
    ensures t in s.threads && s.threads[t].pc != Idle
  {
  }

  /** What stands behind a removal of a node that is not listed: a step of another thread that took the node off while
      both were closing it, and the two calls counted at 0 or below that brought them there. */
  lemma DamageNeedsTwoCalls(run: seq<State>, acts: seq<Action>, j: nat, t: Tid, p: Addr)
    requires IsLooseRun(run, acts) && j < |run| && p in run[j].nodes && p !in run[j].q.release
    requires t in run[j].threads && run[j].threads[t].pc == RmvUnlink(p)
    ensures exists i ::
              && 0 <= i < j && UnlinkedSince(run, acts, p, t, i, j)
              && (exists c :: 0 <= c < i && CountedOutAt(run, acts, p, t, c, i))
              && (exists d :: 0 <= d < i && CountedOutAt(run, acts, p, acts[i].t, d, i))
  {
    hide LooseEnabled, LooseNext, Init, UnlinkedSince, CountedOutAt;
    UnlistedWhy(run, acts, j, t, p);
    var i :| 0 <= i < j && UnlinkedSince(run, acts, p, t, i, j);
    BothClose(run, acts, i, j, t, p);
    CloserCounted(run, acts, i, t, p);
    CloserCounted(run, acts, i, acts[i].t, p);
  }

  lemma BothClose(run: seq<State>, acts: seq<Action>, i: nat, j: nat, t: Tid, p: Addr)
    requires IsLooseRun(run, acts) && i < j < |run| && UnlinkedSince(run, acts, p, t, i, j)
    ensures acts[i].Run? && acts[i].t != t && Closes(run[i], t, p) && Closes(run[i], acts[i].t, p)
  {
    hide LooseEnabled, LooseNext, Init, HappensBetween;
  }

  /** Clients that keep the rule never bring this about: their runs are loose runs. */
  lemma RunIsLoose(run: seq<State>, acts: seq<Action>)
    requires IsRun(run, acts)
    ensures IsLooseRun(run, acts)
  {
    hide Enabled, Next, Init, Inv, Damages;
    forall i | 0 <= i < |acts|
      ensures LooseEnabled(run[i], acts[i]) && run[i + 1] == LooseNext(run[i], acts[i])
    {
      RunInv(run, acts, i);
      NoDamage(run[i], acts[i]);
    }
  }

  lemma NoDamage(s: State, act: Action)
    requires Inv(s)
    ensures !Damages(s, act)
  {
    hide ActiveNode, Inv, ThreadOk;
    if act.Run? && act.t in s.threads && s.threads[act.t].pc.RmvUnlink? {
      ClosingFacts(s, act.t, s.threads[act.t].pc.p);
      ActiveListed(s, s.threads[act.t].pc.p);
    }
  }

  lemma ActiveListed(s: State, p: Addr)
    requires ActiveNode(s, p)
    ensures p in s.q.release
  {
  }
}
