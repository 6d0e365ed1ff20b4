/** A first message and what becomes of it: concrete runs from an initial state. */
module ProtocolDelivery {
  import opened Options
  import opened Bytes
  import opened StreamMessage
  import opened QueueSpec
  import opened Protocol
  import opened ProtocolInvariant
  import opened ProtocolTheorems
  import opened ProtocolProgress
  import opened ProtocolLoose
  import opened ProtocolExtraCalls

  /** The receiver enqueues a message. */
  function EnqueueActs(t: Tid, m: Msg, rest: seq<Action>): seq<Action> {
    [Arrive(t, m)] + (Locked(t) + (Locked(t) + (Locked(t) + ([Run(t)] + rest))))
  }

  /** The stream thread takes it, lists it and dispatches it. */
  function StreamActs(): seq<Action> {
    var t := STREAM_THREAD;
    Locked(t) + (Locked(t) + (Locked(t) + (Locked(t) + [Run(t)])))
  }

  function FirstMessage(t: Tid, m: Msg): seq<Action> {
    EnqueueActs(t, m, StreamActs())
  }

  function Locked(t: Tid): seq<Action> {
    [Acquire(t), Run(t)]
  }

  /** No thread holds any lock. */
  predicate NoLocks(s: State) {
    forall t, l :: t in s.threads ==> !Holds(s.threads[t], l)
  }

  // The state after each part of it.

  function Enqueued(s: State, t: Tid, m: Msg): State
    requires s.q.pool != [] && s.q.pool[0] in s.q.cells && |m| <= COMMAND_MAX
  {
    StepEnqPush(StepEnqPop(s, t, m), t, m, s.q.pool[0]).(threads := s.threads)
  }

  /** A message is queued whose node is `a`. */
  predicate Waiting(s: State, a: Addr) {
    s.q.recv != [] && s.q.recv[0] == a && a in s.q.cells && HasLife(s, a) && s.taken < |s.lives|
  }

  function Listing(s: State, a: Addr): State
    requires Waiting(s, a)
  {
    StepStoPush(StepLoopPop(s, STREAM_THREAD), STREAM_THREAD, a)
  }

  lemma FreeWhile(s: State, s': State, t: Tid, pc: Pc, l: Lock)
    requires NoLocks(s) && s'.threads == s.threads[t := Thread(pc, false)] && Outer(pc) != Some(l)
    ensures LockFree(s', l)
  {
  }

  /** Taking the lock and running the section, from `s` to `s'`. */
  ghost predicate LockedStep(s: State, t: Tid, s': State) {
    && t in s.threads && !s.threads[t].got && Wants(s.threads[t].pc).Some?
    && CanStep(Acquired(s, t), t) && Step(Acquired(s, t), t) == s'
  }

  lemma Overwritten(s: State, t: Tid, pc: Pc)
    requires t in s.threads
    ensures Acquired(s, t).threads[t := Thread(pc, false)] == s.threads[t := Thread(pc, false)]
    ensures forall pc' ::
              s.threads[t := Thread(pc', false)][t := Thread(pc, false)] == s.threads[t := Thread(pc, false)]
  {
  }

  lemma EnterLocked(s: State, t: Tid, pc: Pc, pc': Pc)
    requires t in s.threads && Wants(pc).Some? && !pc.Joining? && Target(s, pc) == Some(pc')
    requires pc.EnqEnter? || pc.LoopEnter? || pc.StoEnter?
    ensures LockedStep(Go(s, t, pc), t, Go(s, t, pc'))
  {
    Overwritten(Go(s, t, pc), t, pc');
    Overwritten(s, t, pc');
  }

  lemma PopLocked(s: State, t: Tid, m: Msg)
    requires t in s.threads && s.q.pool != []
    ensures LockedStep(Go(s, t, EnqPop(m)), t, StepEnqPop(s, t, m))
  {
    Overwritten(Go(s, t, EnqPop(m)), t, EnqPush(m, s.q.pool[0]));
    Overwritten(s, t, EnqPush(m, s.q.pool[0]));
  }

  lemma PushLocked(s: State, t: Tid, m: Msg, a: Addr)
    requires t in s.threads && s.threads[t] == Thread(EnqPush(m, a), false) && a in s.q.cells && |m| <= COMMAND_MAX
    ensures LockedStep(s, t, StepEnqPush(s, t, m, a))
  {
    Overwritten(s, t, EnqSignal);
  }

  lemma LoopPopLocked(s: State, t: Tid)
    requires t in s.threads && s.q.recv != []
    ensures LockedStep(Go(s, t, LoopPop), t, StepLoopPop(s, t))
  {
    Overwritten(Go(s, t, LoopPop), t, StoEnter(s.q.recv[0]));
    Overwritten(s, t, StoEnter(s.q.recv[0]));
  }

  lemma StoPushLocked(s: State, t: Tid, a: Addr)
    requires t in s.threads && a in s.q.cells && HasLife(s, a)
    ensures LockedStep(Go(s, t, StoPush(a)), t, StepStoPush(s, t, a))
  {
    Overwritten(Go(s, t, StoPush(a)), t, Receive(a));
    Overwritten(s, t, Receive(a));
  }

  lemma After(s: State, t: Tid, s': State, rest: seq<Action>)
    requires LockedStep(s, t, s') && LockFree(s, Wants(s.threads[t].pc).value)
    requires s.threads[t].pc.RmvUnlink? ==> s.threads[t].pc.p in s.q.release
    ensures LooseAfter(s, Locked(t) + rest) == LooseAfter(s', rest)
  {
    hide LooseAfter, CanStep, Step, LockFree, Wants;
    LockAndRun(s, t, rest);
  }

  lemma Signals(s: State, s4: State, t: Tid)
    requires ClientAtRest(s, t) && s.threads[t] == Thread(Idle, false)
    requires STREAM_THREAD in s.threads && !s.threads[STREAM_THREAD].pc.LoopWait?
    requires s4.threads == s.threads[t := Thread(EnqSignal, false)]
    ensures LooseEnabled(s4, Run(t)) && LooseNext(s4, Run(t)) == s4.(threads := s.threads)
  {
    assert s4.threads[t := Thread(Idle, false)] == s.threads;
  }

  lemma EnqueueRun(s: State, t: Tid, m: Msg, rest: seq<Action>)
    requires ClientAtRest(s, t) && s.threads[t] == Thread(Idle, false) && NoLocks(s)
    requires STREAM_THREAD in s.threads && !s.threads[STREAM_THREAD].pc.LoopWait?
    requires s.q.pool != [] && s.q.pool[0] in s.q.cells && |m| <= COMMAND_MAX && !s.stop
    ensures LooseAfter(s, EnqueueActs(t, m, rest)) == LooseAfter(Enqueued(s, t, m), rest)
  {
    hide LooseAfter, StepEnqPush, LockedStep, Locked, NoLocks, Fill;
    var acts, a := EnqueueActs(t, m, rest), s.q.pool[0];
    var s1, s2, s3 := Go(s, t, EnqEnter(m)), Go(s, t, EnqPop(m)), StepEnqPop(s, t, m);
    var s4 := StepEnqPush(s3, t, m, a);
    var r1 := [Run(t)] + rest;
    var r2 := Locked(t) + r1;
    var r3 := Locked(t) + r2;
    LooseAfterStep(s, acts);
    assert acts[1..] == Locked(t) + r3;
    EnterLocked(s, t, EnqEnter(m), EnqPop(m));
    FreeWhile(s, s1, t, EnqEnter(m), RecvStream);
    After(s1, t, s2, r3);
    PopLocked(s, t, m);
    FreeWhile(s, s2, t, EnqPop(m), PoolList);
    After(s2, t, s3, r2);
    PushLocked(s3, t, m, a);
    FreeWhile(s, s3, t, EnqPush(m, a), RecvList);
    After(s3, t, s4, r1);
    PushedThreads(s, s3, t, m, a);
    Signals(s, s4, t);
    LooseAfterStep(s4, r1);
    assert r1[1..] == rest;
  }

  lemma PushedThreads(s: State, s3: State, t: Tid, m: Msg, a: Addr)
    requires a in s3.q.cells && |m| <= COMMAND_MAX && s3.threads == s.threads[t := Thread(EnqPush(m, a), false)]
    ensures StepEnqPush(s3, t, m, a).threads == s.threads[t := Thread(EnqSignal, false)]
  {
  }

  lemma Popped(s: State, a: Addr)
    requires STREAM_THREAD in s.threads && Waiting(s, a)
    ensures var s2 := StepLoopPop(s, STREAM_THREAD);
            && s2.threads == s.threads[STREAM_THREAD := Thread(StoEnter(a), false)]
            && Go(s2, STREAM_THREAD, StoEnter(a)) == s2
            && a in s2.q.cells && HasLife(s2, a) && STREAM_THREAD in s2.threads
  {
    assert s.threads[STREAM_THREAD := Thread(StoEnter(a), false)][STREAM_THREAD := Thread(StoEnter(a), false)]
        == s.threads[STREAM_THREAD := Thread(StoEnter(a), false)];
  }

  lemma Listed(s: State, s2: State, a: Addr, pc: Pc)
    requires STREAM_THREAD in s.threads && s2.threads == s.threads[STREAM_THREAD := Thread(pc, false)]
    requires a in s2.q.cells && HasLife(s2, a)
    ensures var s4 := StepStoPush(s2, STREAM_THREAD, a);
            && s4.threads == s.threads[STREAM_THREAD := Thread(Receive(a), false)]
            && a in s4.q.cells && HasLife(s4, a)
            && LooseEnabled(s4, Run(STREAM_THREAD))
            && LooseNext(s4, Run(STREAM_THREAD)) == StepReceive(s4, STREAM_THREAD, a)
  {
    hide StepReceive;
  }

  lemma TakeRun(s: State, a: Addr, rest: seq<Action>)
    requires STREAM_THREAD in s.threads && s.threads[STREAM_THREAD] == Thread(LoopEnter, false) && NoLocks(s)
    requires Waiting(s, a)
    ensures LooseAfter(s, Locked(STREAM_THREAD) + (Locked(STREAM_THREAD) + rest))
         == LooseAfter(StepLoopPop(s, STREAM_THREAD), rest)
  {
    hide LooseAfter, LockedStep, Locked, NoLocks, StepLoopPop, LooseEnabled, LooseNext, Waiting;
    var t := STREAM_THREAD;
    var s1 := Go(s, t, LoopPop);
    WaitingTells(s, a);
    assert s.threads[t := Thread(LoopEnter, false)] == s.threads;
    EnterLocked(s, t, LoopEnter, LoopPop);
    FreeWhile(s, s, t, LoopEnter, RecvStream);
    After(s, t, s1, Locked(t) + rest);
    LoopPopLocked(s, t);
    FreeWhile(s, s1, t, LoopPop, RecvList);
    After(s1, t, StepLoopPop(s, t), rest);
  }

  lemma StoreRun(s: State, s2: State, a: Addr, rest: seq<Action>)
    requires STREAM_THREAD in s.threads && NoLocks(s)
    requires s2.threads == s.threads[STREAM_THREAD := Thread(StoEnter(a), false)]
    requires Go(s2, STREAM_THREAD, StoEnter(a)) == s2
    requires a in s2.q.cells && HasLife(s2, a)
    ensures LooseAfter(s2, Locked(STREAM_THREAD) + (Locked(STREAM_THREAD) + rest))
         == LooseAfter(StepStoPush(s2, STREAM_THREAD, a), rest)
  {
    hide LooseAfter, LockedStep, Locked, NoLocks, StepStoPush, LooseEnabled, LooseNext;
    var t := STREAM_THREAD;
    var s3 := Go(s2, t, StoPush(a));
    EnterLocked(s2, t, StoEnter(a), StoPush(a));
    FreeWhile(s, s2, t, StoEnter(a), ReleaseStream);
    After(s2, t, s3, Locked(t) + rest);
    StoPushLocked(s2, t, a);
    assert s3.threads == s.threads[t := Thread(StoPush(a), false)];
    FreeWhile(s, s3, t, StoPush(a), ReleaseList);
    After(s3, t, StepStoPush(s2, t, a), rest);
  }

  lemma StreamRun(s: State, a: Addr)
    requires STREAM_THREAD in s.threads && s.threads[STREAM_THREAD] == Thread(LoopEnter, false) && NoLocks(s)
    requires Waiting(s, a)
    ensures STREAM_THREAD in Listing(s, a).threads && a in Listing(s, a).q.cells && HasLife(Listing(s, a), a)
    ensures LooseAfter(s, StreamActs()) == Some(StepReceive(Listing(s, a), STREAM_THREAD, a))
  {
    hide LooseAfter, Locked, NoLocks, StepStoPush, StepLoopPop, StepReceive, LooseEnabled, LooseNext, Waiting;
    var t := STREAM_THREAD;
    var r1 := [Run(t)];
    var s2 := StepLoopPop(s, t);
    Popped(s, a);
    WaitingTells(s, a);
    TakeRun(s, a, Locked(t) + (Locked(t) + r1));
    StoreRun(s, s2, a, r1);
    Listed(s, s2, a, StoEnter(a));
    var s4 := StepStoPush(s2, t, a);
    LooseAfterStep(s4, r1);
    LooseAfterNone(StepReceive(s4, t, a));
    assert r1[1..] == [];
  }

  lemma WaitingTells(s: State, a: Addr)
    requires Waiting(s, a)
    ensures s.q.recv != [] && s.q.recv[0] == a
  {
  }

  // ----- one message from start to end

  /** Nothing is under way, `k` messages have come and gone, and the node at `a` is the next one. */
  ghost predicate Ready(s: State, a: Addr, k: nat, w: seq<Wire>) {
    && !s.stop && STREAM_THREAD in s.threads && s.threads[STREAM_THREAD] == Thread(LoopEnter, false) && NoLocks(s)
    && s.q.pool != [] && s.q.pool[0] == a && a in s.q.cells && s.q.cells[a] == ZERO_CELL
    && s.q.recv == [] && s.q.release == [] && s.taken == k && |s.lives| == k && |s.accepted| == k && s.wire == w
  }

  /** The `k`-th message is at node `a`, with this command. */
  predicate Holding(s: State, a: Addr, k: nat, w: seq<Wire>, m: Msg, c: Command) {
    && a in s.q.cells && s.q.cells[a].command == c && a in s.owner && s.owner[a] == k && !s.stop
    && |s.lives| == k + 1 && |s.accepted| == k + 1 && s.accepted[k] == m && s.wire == w && STREAM_THREAD in s.threads
  }

  lemma EnqueuedIs(s: State, t: Tid, m: Msg, a: Addr, k: nat, w: seq<Wire>)
    requires Ready(s, a, k, w) && |m| <= COMMAND_MAX
    ensures var e := Enqueued(s, t, m);
            && Holding(e, a, k, w, m, Stored(m)) && Waiting(e, a) && NoLocks(e) && e.threads == s.threads
            && e.q.recv == [a] && e.q.release == [] && e.q.pool == s.q.pool[1..] && e.taken == k
  {
    hide Overlay, Holds;
  }

  lemma ListingIs(e: State, a: Addr, k: nat, w: seq<Wire>, m: Msg, c: Command)
    requires Holding(e, a, k, w, m, c) && e.q.recv == [a] && e.q.release == [] && e.taken == k && Waiting(e, a)
    ensures var s := Listing(e, a);
            && Holding(s, a, k, w, m, c) && s.q.release == [a] && s.q.recv == [] && s.q.pool == e.q.pool
            && s.q.cells[a].counter == 1 && s.taken == k + 1
            && s.threads == e.threads[STREAM_THREAD := Thread(Receive(a), false)]
  {
  }

  lemma ReceiveIs(s: State, a: Addr, k: nat, w: seq<Wire>, m: Msg, c: Command)
    requires Holding(s, a, k, w, m, c) && s.q.release == [a] && s.q.recv == [] && s.q.cells[a].counter == 1
    ensures var s', d := StepReceive(s, STREAM_THREAD, a), Deliverable(c);
            && s'.q.release == [a] && s'.q.recv == [] && s'.q.pool == s.q.pool && s'.taken == s.taken
            && Holding(s', a, k, w, m, if d then Converted(s.conv, c) else c) && s'.q.cells[a].counter == 1
            && s'.lives[k].stage == (if d then Called else Dropped)
            && s'.threads == s.threads[STREAM_THREAD := Thread(if d then Callback else LoopEnter, false)]
  {
    hide Deliverable, Converted;
  }

  /** The `k`-th message has been dispatched at node `a`: it is listed with count 1, and nothing else has changed. */
  ghost predicate Given(s: State, s': State, a: Addr, k: nat, w: seq<Wire>, m: Msg) {
    && |m| <= COMMAND_MAX && s.q.pool != []
    && s'.q.release == [a] && s'.q.recv == [] && s'.q.pool == s.q.pool[1..] && s'.taken == k + 1
    && Holding(s', a, k, w, m, if Deliverable(m) then Converted(s'.conv, Stored(m)) else Stored(m))
    && s'.q.cells[a].counter == 1
    && s'.lives[k].stage == (if Deliverable(m) then Called else Dropped)
    && s'.threads == s.threads[STREAM_THREAD := Thread(if Deliverable(m) then Callback else LoopEnter, false)]
  }

  lemma MessageGiven(s: State, t: Tid, m: Msg, a: Addr, k: nat, w: seq<Wire>)
    requires Ready(s, a, k, w) && |m| <= COMMAND_MAX && ClientAtRest(s, t) && s.threads[t] == Thread(Idle, false)
    ensures var r := LooseAfter(s, FirstMessage(t, m)); r.Some? && Given(s, r.value, a, k, w, m)
  {
    hide LooseAfter, Listing, NoLocks, EnqueueActs, StreamActs, StepReceive, ClientAtRest, Enqueued, Waiting,
      Deliverable, Converted, Stored, ZERO_CELL, Overlay;
    var e := Enqueued(s, t, m);
    EnqueuedIs(s, t, m, a, k, w);
    EnqueueRun(s, t, m, StreamActs());
    StreamRun(e, a);
    ListingIs(e, a, k, w, m, Stored(m));
    ReceiveIs(Listing(e, a), a, k, w, m, Stored(m));
    DeliverableStored(m);
    SameConv(s, t, m, a);
    assert e.threads[STREAM_THREAD := Thread(Receive(a), false)]
             [STREAM_THREAD := Thread(if Deliverable(m) then Callback else LoopEnter, false)]
        == s.threads[STREAM_THREAD := Thread(if Deliverable(m) then Callback else LoopEnter, false)];
  }

  lemma SameConv(s: State, t: Tid, m: Msg, a: Addr)
    requires s.q.pool != [] && s.q.pool[0] in s.q.cells && |m| <= COMMAND_MAX && Waiting(Enqueued(s, t, m), a)
    requires var l := Listing(Enqueued(s, t, m), a); a in l.q.cells && HasLife(l, a)
    ensures var l := Listing(Enqueued(s, t, m), a); StepReceive(l, STREAM_THREAD, a).conv == l.conv
  {
    hide Deliverable, Converted;
  }

  // ----- the end of a call

  /** A call that has sent the release takes the node off the list and recycles it. */
  function FinishActs(t: Tid, rest: seq<Action>): seq<Action> {
    Locked(t) + (Locked(t) + (Locked(t) + ([Run(t)] + rest)))
  }

  function Finished(s: State, t: Tid, p: Addr): State
    requires HasLife(s, p)
  {
    Go(StepRmvPush(StepRmvUnlink(s, t, p), t, p), t, Idle)
  }

  lemma RmvEnterLocked(s: State, t: Tid, p: Addr)
    requires t in s.threads
    ensures LockedStep(Go(s, t, RmvEnter(p)), t, Go(s, t, RmvUnlink(p)))
  {
    Overwritten(Go(s, t, RmvEnter(p)), t, RmvUnlink(p));
    Overwritten(s, t, RmvUnlink(p));
  }

  lemma UnlinkLocked(s: State, t: Tid, p: Addr)
    requires t in s.threads && p in s.q.cells && HasLife(s, p)
    ensures LockedStep(Go(s, t, RmvUnlink(p)), t, StepRmvUnlink(s, t, p))
  {
    hide Without;
    Overwritten(Go(s, t, RmvUnlink(p)), t, RmvPush(p));
    Overwritten(s, t, RmvPush(p));
  }

  lemma RmvPushLocked(s: State, t: Tid, p: Addr)
    requires t in s.threads && s.threads[t] == Thread(RmvPush(p), false)
    ensures LockedStep(s, t, StepRmvPush(s, t, p))
  {
    Overwritten(s, t, RmvSignal);
  }

  lemma RmvSignals(s: State, t: Tid)
    requires t in s.threads && t != STREAM_THREAD && s.threads[t] == Thread(RmvSignal, false)
    requires STREAM_THREAD in s.threads && !s.threads[STREAM_THREAD].pc.DrainWait?
    ensures LooseEnabled(s, Run(t)) && LooseNext(s, Run(t)) == Go(s, t, Idle)
  {
  }

  /** Nobody but `t` holds a lock. */
  predicate OnlyLocker(s: State, t: Tid) {
    forall u, l :: u in s.threads && u != t ==> !Holds(s.threads[u], l)
  }

  lemma FreeBut(s: State, s': State, t: Tid, pc: Pc, l: Lock)
    requires OnlyLocker(s, t) && s'.threads == s.threads[t := Thread(pc, false)] && Outer(pc) != Some(l)
    ensures LockFree(s', l)
  {
  }

  lemma FinishRun(s: State, t: Tid, p: Addr, rest: seq<Action>)
    requires t in s.threads && t != STREAM_THREAD && s.threads[t] == Thread(RmvEnter(p), false) && OnlyLocker(s, t)
    requires STREAM_THREAD in s.threads && !s.threads[STREAM_THREAD].pc.DrainWait?
    requires p in s.q.release && p in s.q.cells && HasLife(s, p)
    ensures LooseAfter(s, FinishActs(t, rest)) == LooseAfter(Finished(s, t, p), rest)
  {
    hide LooseAfter, LockedStep, Locked, OnlyLocker, StepRmvUnlink, StepRmvPush, LooseEnabled, LooseNext;
    var s1, s2 := Go(s, t, RmvUnlink(p)), StepRmvUnlink(s, t, p);
    var s3 := StepRmvPush(s2, t, p);
    var r1 := [Run(t)] + rest;
    FinishThreads(s, t, p);
    RmvEnterLocked(s, t, p);
    FreeBut(s, s, t, RmvEnter(p), ReleaseStream);
    After(s, t, s1, Locked(t) + (Locked(t) + r1));
    UnlinkLocked(s, t, p);
    FreeBut(s, s1, t, RmvUnlink(p), ReleaseList);
    After(s1, t, s2, Locked(t) + r1);
    RmvPushLocked(s2, t, p);
    FreeBut(s, s2, t, RmvPush(p), PoolList);
    After(s2, t, s3, r1);
    RmvSignals(s3, t);
    LooseAfterStep(s3, r1);
    assert r1[1..] == rest;
  }

  lemma FinishThreads(s: State, t: Tid, p: Addr)
    requires t in s.threads && s.threads[t] == Thread(RmvEnter(p), false) && HasLife(s, p)
    ensures var s2 := StepRmvUnlink(s, t, p);
            && s2.threads == s.threads[t := Thread(RmvPush(p), false)]
            && StepRmvPush(s2, t, p).threads == s.threads[t := Thread(RmvSignal, false)]
            && Go(s, t, RmvEnter(p)) == s && s.threads[t := Thread(RmvEnter(p), false)] == s.threads
  {
    hide Without;
    assert s.threads[t := Thread(RmvPush(p), false)][t := Thread(RmvSignal, false)]
        == s.threads[t := Thread(RmvSignal, false)];
    assert s.threads[t := Thread(RmvEnter(p), false)] == s.threads;
  }

  // ----- from an initial state

  predicate IsClient(s: State, t: Tid) {
    t in s.threads && t != STREAM_THREAD && t != CLOSING_THREAD
  }

  lemma InitReady(s: State)
    requires Init(s)
    ensures s.q.pool != [] && Ready(s, s.q.pool[0], 0, [])
    ensures forall t :: IsClient(s, t) ==> ClientAtRest(s, t) && s.threads[t] == Thread(Idle, false)
  {
  }

  lemma QuietCallback(s: State, s': State)
    requires NoLocks(s) && s'.threads == s.threads[STREAM_THREAD := Thread(Callback, false)]
    ensures Quiet(s') && NoLocks(s')
  {
  }

  lemma GivenMagic(s: State, s': State, a: Addr, k: nat, w: seq<Wire>, m: Msg)
    requires Given(s, s', a, k, w, m) && Deliverable(m)
    ensures ValidMagic(s'.q.cells[a].command)
  {
    hide Deliverable, ValidMagic, Converted, Stored;
    DeliverableStored(m);
    DeliverableConverted(s'.conv, Stored(m));
    DeliverableMagic(m);
  }
}
