/** Concrete runs from an initial state in which a call too many, or a message nobody delivers, does its damage. */
module ProtocolRuns {
  import opened Options
  import opened Bytes
  import opened StreamMessage
  import opened QueueSpec
  import opened Protocol
  import opened ProtocolInvariant
  import opened ProtocolTheorems
  import opened ProtocolProgress
  import opened ProtocolLoose
  import opened ProtocolExtraCalls
  import opened ProtocolDelivery

  // ----- two calls at a count of 1

  function TwiceActs(t: Tid, u: Tid, m: Msg, a: Addr): seq<Action> {
    FirstMessage(t, m) + TwoCalls(t, u, a)
  }

  lemma TwiceRun(s: State, t: Tid, u: Tid, m: Msg)
    requires Init(s) && IsClient(s, t) && IsClient(s, u) && t != u && |m| <= COMMAND_MAX && Deliverable(m)
    ensures s.q.pool != []
    ensures var r := LooseAfter(s, TwiceActs(t, u, m, s.q.pool[0]));
            && r.Some? && |Sendings(r.value.wire, OfAccepted(0))| == 2
            && BothClosing(r.value, t, u, s.q.pool[0], s.q.pool[1..])
  {
    hide Init, LooseAfter, FirstMessage, TwoCalls, Deliverable, NoLocks, Quiet, ClientAtRest, Holding, BothAt;
    InitReady(s);
    var a := s.q.pool[0];
    MessageGiven(s, t, m, a, 0, []);
    var s1 := LooseAfter(s, FirstMessage(t, m)).value;
    QuietCallback(s, s1);
    GivenLeft(s, s1, a, m);
    StillAtRest(s, s1, t);
    StillAtRest(s, s1, u);
    BothCallsSend(s1, t, u, a, 0);
    LooseAfterConcat(s, FirstMessage(t, m), TwoCalls(t, u, a));
    NowClosing(s, s1, LooseAfter(s1, TwoCalls(t, u, a)).value, t, u, a);
  }

  lemma GivenLeft(s: State, s1: State, a: Addr, m: Msg)
    requires Given(s, s1, a, 0, [], m) && Deliverable(m)
    ensures OneLeft(s1, a, 0)
  {
    hide Deliverable, ValidMagic, Converted, Stored;
    GivenMagic(s, s1, a, 0, [], m);
  }

  lemma StillAtRest(s: State, s1: State, t: Tid)
    requires ClientAtRest(s, t) && s1.threads == s.threads[STREAM_THREAD := Thread(Callback, false)]
    ensures ClientAtRest(s1, t) && s1.threads[t] == s.threads[t]
  {
  }

  /** Two clients are about to remove the node at `a`, which is alone on the release list; nobody holds a lock. */
  ghost predicate BothClosing(s: State, t: Tid, u: Tid, a: Addr, pool: seq<Addr>) {
    && s.q.release == [a] && s.q.pool == pool && a in s.q.cells && HasLife(s, a) && NoLocks(s)
    && IsClient(s, t) && IsClient(s, u) && t != u
    && s.threads[t] == s.threads[u] == Thread(RmvEnter(a), false)
    && STREAM_THREAD in s.threads && s.threads[STREAM_THREAD] == Thread(Callback, false)
  }

  lemma NowClosing(s: State, s1: State, s2: State, t: Tid, u: Tid, a: Addr)
    requires NoLocks(s) && s1.threads == s.threads[STREAM_THREAD := Thread(Callback, false)] && s.q.pool != []
    requires IsClient(s, t) && IsClient(s, u) && t != u && BothAt(s1, s2, t, u, RmvEnter(a))
    requires s2.q.release == s1.q.release == [a] && s2.q.pool == s1.q.pool == s.q.pool[1..]
    requires a in s2.q.cells && HasLife(s2, a)
    ensures BothClosing(s2, t, u, a, s.q.pool[1..])
  {
    forall x, l | x in s2.threads
      ensures !Holds(s2.threads[x], l)
    {
      if x != t && x != u && x != STREAM_THREAD {
        assert s2.threads[x] == s.threads[x];
      }
    }
  }

  /** From any initial state, with any message that is delivered: the count is 1, and two clients each make one call,
      both counted and sent before the node is taken off the release list. The release is sent twice. */
  lemma ReleasedTwice(s: State, t: Tid, u: Tid, m: Msg)
    requires Init(s) && IsClient(s, t) && IsClient(s, u) && t != u && |m| <= COMMAND_MAX && Deliverable(m)
    ensures s.q.pool != []
    ensures var r := LooseAfter(s, TwiceActs(t, u, m, s.q.pool[0]));
            r.Some? && |Sendings(r.value.wire, OfAccepted(0))| == 2
  {
    hide *;
    TwiceRun(s, t, u, m);
  }

  /** Then one client removes and recycles the node, and the other one is about to remove it again. */
  function DamageActs(t: Tid, u: Tid, m: Msg, a: Addr): seq<Action> {
    TwiceActs(t, u, m, a) + FinishActs(t, Locked(u))
  }

  /** That run goes on to a removal of a node that is not listed, but is the head of the pool. */
  lemma DamageReached(s: State, t: Tid, u: Tid, m: Msg)
    requires Init(s) && IsClient(s, t) && IsClient(s, u) && t != u && |m| <= COMMAND_MAX && Deliverable(m)
    ensures s.q.pool != []
    ensures var r, a := LooseAfter(s, DamageActs(t, u, m, s.q.pool[0])), s.q.pool[0];
            && r.Some? && r.value.q.pool == s.q.pool && r.value.q.release == [] && CanAcquire(r.value, u)
            && r.value.threads[u].pc == RmvUnlink(a) && Damages(Acquired(r.value, u), Run(u))
  {
    hide Init, LooseAfter, TwiceActs, FinishActs, Deliverable, BothClosing, CanAcquire;
    TwiceRun(s, t, u, m);
    var a := s.q.pool[0];
    var s2 := LooseAfter(s, TwiceActs(t, u, m, a)).value;
    FinishThenEnter(s2, t, u, a, s.q.pool[1..]);
    LooseAfterConcat(s, TwiceActs(t, u, m, a), FinishActs(t, Locked(u)));
    assert [a] + s.q.pool[1..] == s.q.pool;
  }

  lemma FinishThenEnter(s: State, t: Tid, u: Tid, a: Addr, pool: seq<Addr>)
    requires BothClosing(s, t, u, a, pool)
    ensures var r := LooseAfter(s, FinishActs(t, Locked(u)));
            && r.Some? && r.value.q.pool == [a] + pool && r.value.q.release == [] && u in r.value.threads
            && CanAcquire(r.value, u) && r.value.threads[u].pc == RmvUnlink(a)
  {
    hide LooseAfter, FinishActs, CanAcquire, LockedStep;
    AloneOf(s, t);
    FinishRun(s, t, a, Locked(u));
    var s3 := Finished(s, t, a);
    FinishedIs(s, t, u, a, pool);
    RmvEnterLocked(s3, u, a);
    After(s3, u, Go(s3, u, RmvUnlink(a)), []);
    LooseAfterNone(Go(s3, u, RmvUnlink(a)));
    assert Locked(u) + [] == Locked(u);
    MayAcquire(s3, u, a);
  }

  lemma AloneOf(s: State, t: Tid)
    requires NoLocks(s)
    ensures OnlyLocker(s, t)
  {
  }

  lemma FinishedIs(s: State, t: Tid, u: Tid, a: Addr, pool: seq<Addr>)
    requires BothClosing(s, t, u, a, pool)
    ensures var s3 := Finished(s, t, a);
            && s3.q.pool == [a] + pool && s3.q.release == [] && s3.threads == s.threads[t := Thread(Idle, false)]
            && Go(s3, u, RmvEnter(a)) == s3 && NoLocks(s3) && LockFree(s3, ReleaseStream)
  {
    var s3 := Finished(s, t, a);
    assert s3.threads == s.threads[t := Thread(Idle, false)];
    assert s3.threads[u := Thread(RmvEnter(a), false)] == s3.threads;
  }

  lemma MayAcquire(s: State, u: Tid, a: Addr)
    requires NoLocks(s) && u in s.threads
    ensures CanAcquire(Go(s, u, RmvUnlink(a)), u)
  {
  }

  // ----- a late call on a node that serves the next message

  /** A client's whole call: counted, sent, removed and recycled; then the stream thread comes back from its callback.
      */
  function WholeCall(t: Tid, a: Addr): seq<Action> {
    CountCall(t, a) + SendCall(t) + FinishActs(t, [Run(STREAM_THREAD)])
  }

  function LateActs(t: Tid, u: Tid, m: Msg, m': Msg, a: Addr): seq<Action> {
    FirstMessage(t, m) + WholeCall(t, a) + FirstMessage(t, m') + (CountCall(u, a) + SendCall(u))
  }

  /** The state when a message is dispatched and its client is about to call. */
  ghost predicate Callable(s: State, a: Addr, k: nat, w: seq<Wire>, pool: seq<Addr>) {
    && !s.stop && STREAM_THREAD in s.threads && s.threads[STREAM_THREAD] == Thread(Callback, false) && NoLocks(s)
    && s.q.pool == pool && s.q.recv == [] && s.q.release == [a] && s.taken == k + 1
    && |s.lives| == k + 1 && |s.accepted| == k + 1 && s.wire == w
    && a in s.q.cells && s.q.cells[a].counter == 1 && ValidMagic(s.q.cells[a].command)
    && a in s.owner && s.owner[a] == k
  }

  lemma GivenCallable(s: State, s1: State, a: Addr, k: nat, w: seq<Wire>, m: Msg)
    requires Given(s, s1, a, k, w, m) && Deliverable(m) && NoLocks(s)
    ensures Callable(s1, a, k, w, s.q.pool[1..])
    ensures forall t :: IsClient(s, t) && ClientAtRest(s, t) ==> ClientAtRest(s1, t) && s1.threads[t] == s.threads[t]
  {
    hide Deliverable, ValidMagic, Converted, Stored;
    GivenMagic(s, s1, a, k, w, m);
    QuietCallback(s, s1);
  }

  lemma CallableQuiet(s: State)
    requires NoLocks(s)
    ensures Quiet(s)
  {
  }

  /** A client that rests makes its call up to its sending: one release more. */
  lemma SendsOnce(s: State, t: Tid, a: Addr, k: nat, w: seq<Wire>, pool: seq<Addr>)
    requires Callable(s, a, k, w, pool) && ClientAtRest(s, t)
    ensures var r := LooseAfter(s, CountCall(t, a) + SendCall(t));
            && r.Some? && |r.value.wire| == |w| + 1 && w < r.value.wire && r.value.wire[|w|].origin == OfAccepted(k)
            && Sent(s, r.value, t, a)
  {
    hide LooseAfter, CountCall, SendCall, ReleaseOf, ValidMagic, NoLocks, Quiet;
    CallableQuiet(s);
    CallCounted(s, t, a);
    var s1 := LooseAfter(s, CountCall(t, a)).value;
    SendFree(s1);
    CallSends(s1, t, a);
    LooseAfterConcat(s, CountCall(t, a), SendCall(t));
  }

  /** From `s` to `s'`, `t` has made a call for `a` up to its sending. */
  ghost predicate Sent(s: State, s': State, t: Tid, a: Addr) {
    && t in s'.threads && s'.threads.Keys == s.threads.Keys && s'.threads[t] == Thread(RmvEnter(a), false)
    && (forall x :: x in s.threads && x != t ==> s'.threads[x] == s.threads[x])
    && s'.q.pool == s.q.pool && s'.q.recv == s.q.recv && s'.q.release == s.q.release && a in s'.q.cells
    && s'.accepted == s.accepted && |s'.lives| == |s.lives| && s'.taken == s.taken && s'.stop == s.stop
    && HasLife(s', a)
  }

  /** The rest of the call brings the node back to the head of the pool. */
  lemma CallFinishes(s: State, s2: State, t: Tid, a: Addr, k: nat, w: seq<Wire>, pool: seq<Addr>)
    requires Callable(s, a, k, w, pool) && ClientAtRest(s, t) && s.threads[t] == Thread(Idle, false)
    requires Sent(s, s2, t, a)
    ensures var r := LooseAfter(s2, FinishActs(t, [Run(STREAM_THREAD)]));
            && r.Some? && Ready(r.value, a, k + 1, s2.wire)
            && (forall x :: x in s.threads && x != STREAM_THREAD ==>
                  x in r.value.threads && r.value.threads[x] == s.threads[x])
  {
    hide LooseAfter, FinishActs, OnlyLocker, LooseEnabled, LooseNext, Finished, Ready, Callable, Sent, ClientAtRest;
    SentAlone(s, s2, t, a, k, w, pool);
    FinishRun(s2, t, a, [Run(STREAM_THREAD)]);
    var s3 := Finished(s2, t, a);
    FinishedReady(s, s2, t, a, k, w, pool);
    LooseAfterStep(s3, [Run(STREAM_THREAD)]);
    LooseAfterNone(Go(s3, STREAM_THREAD, LoopEnter));
    assert [Run(STREAM_THREAD)][1..] == [];
  }

  lemma SentAlone(s: State, s2: State, t: Tid, a: Addr, k: nat, w: seq<Wire>, pool: seq<Addr>)
    requires Callable(s, a, k, w, pool) && ClientAtRest(s, t) && Sent(s, s2, t, a)
    ensures OnlyLocker(s2, t) && t != STREAM_THREAD && t in s2.threads && s2.threads[t] == Thread(RmvEnter(a), false)
    ensures STREAM_THREAD in s2.threads && s2.threads[STREAM_THREAD] == Thread(Callback, false)
    ensures a in s2.q.release && a in s2.q.cells && HasLife(s2, a)
  {
    hide ValidMagic;
    forall u, l | u in s2.threads && u != t
      ensures !Holds(s2.threads[u], l)
    {
      assert s2.threads[u] == s.threads[u];
    }
  }

  lemma FinishedThreads(s: State, s2: State, t: Tid, a: Addr, k: nat, w: seq<Wire>, pool: seq<Addr>)
    requires Callable(s, a, k, w, pool) && ClientAtRest(s, t) && s.threads[t] == Thread(Idle, false)
    requires Sent(s, s2, t, a)
    ensures var s3 := Finished(s2, t, a);
            var s4 := Go(s3, STREAM_THREAD, LoopEnter);
            && STREAM_THREAD in s3.threads && s3.threads[STREAM_THREAD] == Thread(Callback, false)
            && STREAM_THREAD in s4.threads && s4.threads[STREAM_THREAD] == Thread(LoopEnter, false)
            && s4.threads.Keys == s.threads.Keys
            && (forall x :: x in s.threads && x != STREAM_THREAD ==> x in s4.threads && s4.threads[x] == s.threads[x])
  {
    hide ValidMagic, ReleaseOf, Without, Holds;
  }

  lemma FinishedLists(s: State, s2: State, t: Tid, a: Addr, k: nat, w: seq<Wire>, pool: seq<Addr>)
    requires Callable(s, a, k, w, pool) && Sent(s, s2, t, a)
    ensures var s3 := Finished(s2, t, a);
            && !s3.stop && s3.q.pool == [a] + pool && a in s3.q.cells && s3.q.cells[a] == ZERO_CELL
            && s3.q.recv == [] && s3.q.release == [] && s3.taken == k + 1
            && |s3.lives| == k + 1 && |s3.accepted| == k + 1 && s3.wire == s2.wire
  {
    hide ValidMagic, ReleaseOf, NoLocks;
  }

  lemma FinishedReady(s: State, s2: State, t: Tid, a: Addr, k: nat, w: seq<Wire>, pool: seq<Addr>)
    requires Callable(s, a, k, w, pool) && ClientAtRest(s, t) && s.threads[t] == Thread(Idle, false)
    requires Sent(s, s2, t, a)
    ensures var s3 := Finished(s2, t, a);
            var s4 := Go(s3, STREAM_THREAD, LoopEnter);
            && LooseEnabled(s3, Run(STREAM_THREAD)) && LooseNext(s3, Run(STREAM_THREAD)) == s4
            && Ready(s4, a, k + 1, s2.wire)
            && (forall x :: x in s.threads && x != STREAM_THREAD ==> x in s4.threads && s4.threads[x] == s.threads[x])
  {
    hide ValidMagic, ReleaseOf, Finished, Holds;
    FinishedThreads(s, s2, t, a, k, w, pool);
    FinishedLists(s, s2, t, a, k, w, pool);
    RestingLocks(s, Go(Finished(s2, t, a), STREAM_THREAD, LoopEnter));
  }

  lemma RestingLocks(s: State, s': State)
    requires NoLocks(s) && s'.threads.Keys == s.threads.Keys
    requires STREAM_THREAD in s'.threads && s'.threads[STREAM_THREAD] == Thread(LoopEnter, false)
    requires forall x :: x in s.threads && x != STREAM_THREAD ==> x in s'.threads && s'.threads[x] == s.threads[x]
    ensures NoLocks(s')
  {
  }

  /** A run in which a call for one message releases the next: the first is delivered, released and recycled, the node
      is taken for the second, and then another client makes a call for the first. The second message's release is sent,
      although nobody has released it. */
  lemma NextReleasedRun(s: State, t: Tid, u: Tid, m: Msg, m': Msg)
    requires Init(s) && IsClient(s, t) && IsClient(s, u) && t != u
    requires |m| <= COMMAND_MAX && Deliverable(m) && |m'| <= COMMAND_MAX && Deliverable(m')
    ensures s.q.pool != []
    ensures var r := LooseAfter(s, LateActs(t, u, m, m', s.q.pool[0]));
            && r.Some? && |r.value.wire| == 2
            && r.value.wire[0].origin == OfAccepted(0) && r.value.wire[1].origin == OfAccepted(1)
  {
    hide Init, LooseAfter, FirstMessage, CountCall, SendCall, FinishActs, Deliverable, NoLocks, ClientAtRest, Given,
      Callable, Sent, Ready, IsClient;
    InitReady(s);
    var a, pool := s.q.pool[0], s.q.pool[1..];
    ReadyFacts(s, a, 0, []);
    MessageGiven(s, t, m, a, 0, []);
    var s1 := LooseAfter(s, FirstMessage(t, m)).value;
    GivenCallable(s, s1, a, 0, [], m);
    SendsOnce(s1, t, a, 0, [], pool);
    var s2 := LooseAfter(s1, CountCall(t, a) + SendCall(t)).value;
    CallFinishes(s1, s2, t, a, 0, [], pool);
    var s3 := LooseAfter(s2, FinishActs(t, [Run(STREAM_THREAD)])).value;
    ClientsKept(s, s1, s3, t, u);
    ReadyFacts(s3, a, 1, s2.wire);
    MessageGiven(s3, t, m', a, 1, s2.wire);
    var s4 := LooseAfter(s3, FirstMessage(t, m')).value;
    GivenCallable(s3, s4, a, 1, s2.wire, m');
    SendsOnce(s4, u, a, 1, s2.wire, s3.q.pool[1..]);
    var sends := CountCall(t, a) + SendCall(t);
    LooseAfterConcat(s, FirstMessage(t, m), WholeCall(t, a));
    LooseAfterConcat(s1, sends, FinishActs(t, [Run(STREAM_THREAD)]));
    LooseAfterConcat(s, FirstMessage(t, m) + WholeCall(t, a), FirstMessage(t, m'));
    LooseAfterConcat(s, FirstMessage(t, m) + WholeCall(t, a) + FirstMessage(t, m'), CountCall(u, a) + SendCall(u));
  }

  lemma ReadyFacts(s: State, a: Addr, k: nat, w: seq<Wire>)
    requires Ready(s, a, k, w)
    ensures NoLocks(s) && STREAM_THREAD in s.threads && s.q.pool != []
  {
  }

  lemma ClientsKept(s: State, s1: State, s3: State, t: Tid, u: Tid)
    requires IsClient(s, t) && IsClient(s, u) && ClientAtRest(s1, t) && ClientAtRest(s1, u)
    requires s1.threads[t] == Thread(Idle, false)
    requires forall x :: x in s1.threads && x != STREAM_THREAD ==> x in s3.threads && s3.threads[x] == s1.threads[x]
    ensures ClientAtRest(s3, t) && ClientAtRest(s3, u) && s3.threads[t] == Thread(Idle, false)
    ensures IsClient(s3, t) && IsClient(s3, u)
  {
  }

  // ----- a message without a callback

  /** A message with valid magic and a sub-command of 0, which is none. */
  const UNKNOWN: Msg := [0xEE, 0xEE, 0x99, 0x99] + Zeros(252)

  lemma UnknownSubCommand()
    ensures |UNKNOWN| == COMMAND_MAX && ValidMagic(UNKNOWN) && !Deliverable(UNKNOWN)
  {
  }

  /** From any initial state, such a message is accepted and ends on the release list without a callback. */
  lemma UnknownStays(s: State, t: Tid)
    requires Init(s) && IsClient(s, t)
    ensures |UNKNOWN| <= COMMAND_MAX
    ensures var r := LooseAfter(s, FirstMessage(t, UNKNOWN));
            && r.Some? && r.value.accepted == [UNKNOWN] && |r.value.lives| == 1
            && r.value.lives[0].stage == Dropped && |r.value.q.release| == 1
  {
    hide Init, LooseAfter, FirstMessage, Deliverable, UNKNOWN, ClientAtRest;
    UnknownSubCommand();
    InitReady(s);
    MessageGiven(s, t, UNKNOWN, s.q.pool[0], 0, []);
  }
}
