/** The properties of the release protocol, over every run: conservation of the nodes, first-in first-out
    delivery, one release a message, no lost wakeup, no deadlock and orderly shutdown. */
module ProtocolTheorems {
  import opened Options
  import opened Bytes
  import opened StreamMessage
  import opened QueueSpec
  import opened Protocol
  import opened ProtocolInvariant
  import opened ProtocolSteps
  import opened ProtocolRelease
  import opened ProtocolSafety
  import opened ProtocolHistory

  // ----- conservation

  function Elems<T(==)>(s: seq<T>): set<T> {
    set x | x in s
  }

  lemma {:induction false} ElemsSize<T>(s: seq<T>)
    requires NoDup(s)
    ensures |Elems(s)| == |s|
  {
    if s == [] {
    } else {
      ElemsSize(s[1..]);
      assert Elems(s) == {s[0]} + Elems(s[1..]);
    }
  }

  /** The nodes that threads have taken off one list and not yet put on another. */
  function InHand(s: State): set<Addr> {
    set t | t in s.threads && Carried(s.threads[t].pc).Some? :: Carried(s.threads[t].pc).value
  }

  /** Every node is in exactly one place: the pool, the receive queue, the release list, one thread's hands, or
      freed. */
  ghost predicate Conserved(s: State) {
    var pool, recv, release, freed := Elems(s.q.pool), Elems(s.q.recv), Elems(s.q.release), Elems(s.freed);
    && pool !! recv !! release !! freed !! InHand(s)
    && pool + recv + release + freed + InHand(s) == s.nodes
    && |s.q.pool| + |s.q.recv| + |s.q.release| + |s.freed| + |InHand(s)| == |s.nodes|
    && forall t, u :: t in s.threads && u in s.threads && t != u && Carried(s.threads[t].pc).Some? ==>
                        Carried(s.threads[t].pc) != Carried(s.threads[u].pc)
  }

  lemma QueueNoDup(s: State)
    requires Shape(s) && ListsOk(s) && LivesOk(s)
    ensures NoDup(s.q.recv)
  {
    forall i, j | 0 <= i < j < |s.q.recv|
      ensures s.q.recv[i] != s.q.recv[j]
    {
      assert LifeOk(s, s.taken + i) && LifeOk(s, s.taken + j);
    }
  }

  lemma HandsApart(s: State)
    requires Shape(s) && ThreadsOk(s)
    ensures forall t :: t in s.threads && Carried(s.threads[t].pc).Some? ==>
                          var a := Carried(s.threads[t].pc).value; a in s.nodes && s.place[a] == With(t)
  {
    hide ClientOk, StreamOk, CloserOk, PairOk;
    forall t | t in s.threads && Carried(s.threads[t].pc).Some?
      ensures var a := Carried(s.threads[t].pc).value; a in s.nodes && s.place[a] == With(t)
    {
      assert ThreadOk(s, t);
    }
  }

  lemma PlaceOf(s: State, a: Addr)
    requires Shape(s) && NodesOk(s) && a in s.nodes
    ensures a in s.q.pool || a in s.q.recv || a in s.q.release || a in s.freed || a in InHand(s)
  {
    assert NodeOk(s, a);
  }

  lemma FiveSizes(a: set<Addr>, b: set<Addr>, c: set<Addr>, d: set<Addr>, e: set<Addr>)
    requires a !! b !! c !! d !! e
    ensures |a + b + c + d + e| == |a| + |b| + |c| + |d| + |e|
  {
    assert |a + b + c| == |a| + |b| + |c|;
    assert |a + b + c + d| == |a + b + c| + |d|;
  }

  lemma PartsDisjoint(s: State)
    requires Shape(s) && ListsOk(s)
    requires forall t :: t in s.threads && Carried(s.threads[t].pc).Some? ==>
                           var a := Carried(s.threads[t].pc).value; a in s.nodes && s.place[a] == With(t)
    ensures Elems(s.q.pool) !! Elems(s.q.recv) !! Elems(s.q.release) !! Elems(s.freed) !! InHand(s)
    ensures Elems(s.q.pool) + Elems(s.q.recv) + Elems(s.q.release) + Elems(s.freed) + InHand(s) <= s.nodes
  {
    hide NoDup, Carried;
  }

  lemma PartsConserve(s: State)
    requires Shape(s) && ListsOk(s) && NoDup(s.q.recv)
    requires forall t :: t in s.threads && Carried(s.threads[t].pc).Some? ==>
                           var a := Carried(s.threads[t].pc).value; a in s.nodes && s.place[a] == With(t)
    requires s.nodes <= Elems(s.q.pool) + Elems(s.q.recv) + Elems(s.q.release) + Elems(s.freed) + InHand(s)
    ensures Conserved(s)
  {
    hide Carried, Elems, InHand;
    var pool, recv, release := Elems(s.q.pool), Elems(s.q.recv), Elems(s.q.release);
    var freed, hands := Elems(s.freed), InHand(s);
    ElemsSize(s.q.pool);
    ElemsSize(s.q.recv);
    ElemsSize(s.q.release);
    ElemsSize(s.freed);
    PartsDisjoint(s);
    assert pool + recv + release + freed + hands == s.nodes;
    FiveSizes(pool, recv, release, freed, hands);
  }

  lemma InvConserves(s: State)
    requires Inv(s)
    ensures Conserved(s)
  {
    hide ListsOk, NodesOk, LivesOk, ThreadsOk, WakeOk, HistoryOk, Carried, Elems, InHand, NoDup, Conserved;
    QueueNoDup(s);
    HandsApart(s);
    AllPlaced(s);
    PartsConserve(s);
  }

  lemma AllPlaced(s: State)
    requires Shape(s) && NodesOk(s)
    ensures s.nodes <= Elems(s.q.pool) + Elems(s.q.recv) + Elems(s.q.release) + Elems(s.freed) + InHand(s)
  {
    hide NodesOk, InHand;
    forall a | a in s.nodes
      ensures a in Elems(s.q.pool) + Elems(s.q.recv) + Elems(s.q.release) + Elems(s.freed) + InHand(s)
    {
      PlaceOf(s, a);
    }
  }

  /** Conservation: in every state of every run each of the 128 nodes is in exactly one place. */
  lemma Conservation(run: seq<State>, acts: seq<Action>, i: nat)
    requires IsRun(run, acts) && i < |run|
    ensures Conserved(run[i]) && run[i].nodes == run[0].nodes && |run[i].nodes| == STREAM_QUEUE_SIZE
  {
    hide Inv, Conserved;
    RunInv(run, acts, i);
    InvConserves(run[i]);
    RunGrows(run, acts, 0, i);
    ElemsSize(run[0].q.pool);
    assert run[0].nodes == Elems(run[0].q.pool);
  }

  // ----- refusal

  lemma EnterFacts(s: State, t: Tid, m: Msg)
    requires t in s.threads && s.threads[t] == Thread(EnqEnter(m), true)
    ensures CanStep(s, t) && t in Step(s, t).threads
    ensures Step(s, t).threads[t].pc == if |m| > COMMAND_MAX || s.stop then Refuse(m) else EnqPop(m)
  {
  }

  lemma PopFacts(s: State, t: Tid, m: Msg)
    requires Inv(s) && t in s.threads && s.threads[t] == Thread(EnqPop(m), true)
    ensures |m| <= COMMAND_MAX && !s.stop && CanStep(s, t) && Step(s, t) == StepEnqPop(s, t, m)
  {
    hide NodesOk, LivesOk, HistoryOk, WakeOk, ListsOk, PairOk, ClientOk, StreamOk, CloserOk, StepEnqPop;
    assert ThreadOk(s, t);
  }

  /** An arriving message meets two decisions, whatever other threads do between them. At the first it is refused
      exactly when it is too long or comes after the stop. At the second it fits, and the stop has still not come;
      it is refused exactly when the pool is empty, and that is when all 128 nodes are queued, listed, in hand or
      freed. */
  lemma RefusedExactly(run: seq<State>, acts: seq<Action>, i: nat, t: Tid, m: Msg)
    requires IsRun(run, acts) && i < |run| && t in run[i].threads
    requires run[i].threads[t] in {Thread(EnqEnter(m), true), Thread(EnqPop(m), true)}
    ensures var s := run[i];
            && CanStep(s, t) && t in Step(s, t).threads
            && (s.threads[t].pc.EnqEnter? ==>
                  (Step(s, t).threads[t].pc == Refuse(m) <==> |m| > COMMAND_MAX || s.stop))
            && (s.threads[t].pc.EnqPop? ==>
                  && |m| <= COMMAND_MAX && !s.stop
                  && (Step(s, t).threads[t].pc == Refuse(m) <==> s.q.pool == []))
            && (s.q.pool == [] <==>
                  |s.q.recv| + |s.q.release| + |s.freed| + |InHand(s)| == STREAM_QUEUE_SIZE)
  {
    hide Inv, IsRun, CanStep, Step, InHand, Elems;
    RunInv(run, acts, i);
    Conservation(run, acts, i);
    if run[i].threads[t].pc.EnqEnter? {
      EnterFacts(run[i], t, m);
    } else {
      PopFacts(run[i], t, m);
    }
  }

  // ----- first in, first out

  /** The callbacks have seen the deliverable ones of the first so many accepted messages, in the order accepted;
      the messages after those are in the receive queue, but for one that the stream thread is working on. */
  ghost predicate InOrder(s: State) {
    && Shape(s) && |s.q.recv| <= |s.accepted| && 0 <= Dispatched(s) <= |s.accepted|
    && s.calls == Delivered(s.conv, s.accepted[..Dispatched(s)])
    && |s.accepted| - |s.q.recv| - 1 <= Dispatched(s) <= |s.accepted| - |s.q.recv|
    && forall j :: 0 <= j < |s.q.recv| ==>
         s.q.recv[j] in s.q.cells
         && s.q.cells[s.q.recv[j]].command == Stored(s.accepted[|s.accepted| - |s.q.recv| + j])
  }

  lemma QueuedAt(s: State, j: nat)
    requires Shape(s) && ListsOk(s) && NodesOk(s) && LivesOk(s) && j < |s.q.recv|
    ensures s.q.recv[j] in s.q.cells && s.q.cells[s.q.recv[j]].command == Stored(s.accepted[s.taken + j])
  {
    hide Stored, Converted, CallsOk;
    assert LifeOk(s, s.taken + j) && NodeOk(s, s.q.recv[j]);
  }

  lemma InvInOrder(s: State)
    requires Inv(s)
    ensures InOrder(s)
  {
    hide NodesOk, LivesOk, ThreadsOk, WakeOk, Stored, Converted, NoDup;
    forall j | 0 <= j < |s.q.recv|
      ensures s.q.recv[j] in s.q.cells && s.q.cells[s.q.recv[j]].command == Stored(s.accepted[s.taken + j])
    {
      QueuedAt(s, j);
    }
  }

  lemma FirstInFirstOut(run: seq<State>, acts: seq<Action>, i: nat)
    requires IsRun(run, acts) && i < |run|
    ensures InOrder(run[i])
  {
    hide Inv, IsRun, InOrder;
    RunInv(run, acts, i);
    InvInOrder(run[i]);
  }

  // ----- one release a message

  /** The places on the wire of the releases sent for `o`. */
  function Sendings(wire: seq<Wire>, o: Origin): set<nat> {
    set i: nat | i < |wire| && wire[i].origin == o
  }

  lemma SendingsSize(wire: seq<Wire>, o: Origin)
    requires forall i, j :: 0 <= i < j < |wire| ==> wire[i].origin != wire[j].origin
    ensures |Sendings(wire, o)| == if SentFor(wire, o) then 1 else 0
  {
    if SentFor(wire, o) {
      var i :| 0 <= i < |wire| && wire[i].origin == o;
      assert Sendings(wire, o) == {i};
    } else {
      assert Sendings(wire, o) == {};
    }
  }

  /** The release that belongs to an accepted message, field for field that of the message as received; a meta
      release carries the translated address. */
  function DueRelease(conv: Translation, m: Msg): Release {
    if WordAt(m, SUB_COMMAND) != SUB_META then
      StreamRelease(WordAt(m, SUB_COMMAND), WordAt(m, STYPE), WordAt(m, SFORMAT), WordAt(m, STREAM_ID),
                    WordAt(m, STREAM_END), WordAt(m, AREA_INDEX))
    else
      MetaRelease(WordAt(m, STYPE), WordAt(m, STREAM_ID), conv(WordAt(m, SAMPLE_ADDRESS)))
  }

  /** The `k`-th accepted message: its counted release calls returned quota-1, quota-2, ... in order; its release
      was sent at most once, only when that count reached 0, with the fields of the message; and its node is
      recycled only after that. */
  lemma ReleasedOnce(run: seq<State>, acts: seq<Action>, i: nat, k: nat)
    requires IsRun(run, acts) && i < |run| && k < |run[i].lives|
    ensures var s, l := run[i], run[i].lives[k];
            && |s.accepted| == |s.lives| && |s.accepted[k]| <= COMMAND_MAX
            && CountsDown(l.results, l.quota) && |l.results| <= l.begun
            && |Sendings(s.wire, OfAccepted(k))| == (if l.sent then 1 else 0)
            && (l.sent ==> |l.results| == l.quota) && (l.stage == Recycled ==> l.sent)
            && (forall w :: w in s.wire && w.origin == OfAccepted(k) ==> w.release == DueRelease(s.conv, s.accepted[k]))
  {
    RunInv(run, acts, i);
    hide IsRun, WakeOk, ThreadsOk, ListsOk, NodesOk, ReleaseOf, Converted, Stored, Delivered, WordAt;
    var s := run[i];
    assert LifeOk(s, k);
    BoundedSize(s.lives[k].counted, s.lives[k].begun);
    SendingsSize(s.wire, OfAccepted(k));
    forall w | w in s.wire && w.origin == OfAccepted(k)
      ensures w.release == DueRelease(s.conv, s.accepted[k]) && s.lives[k].sent
    {
      var j :| 0 <= j < |s.wire| && s.wire[j] == w;
      assert WireOk(s, s.wire[j]);
      ReleaseAfterDelivery(s.conv, s.accepted[k]);
    }
  }

  /** A refused message is released at once when its magic is valid, exactly once, and never when it is not. */
  lemma RefusedReleased(run: seq<State>, acts: seq<Action>, i: nat, j: nat)
    requires IsRun(run, acts) && i < |run| && j < |run[i].refused|
    ensures var s := run[i];
            && |Sendings(s.wire, OfRefused(j))| == (if ValidMagic(s.refused[j]) then 1 else 0)
            && (forall w :: w in s.wire && w.origin == OfRefused(j) ==> w.release == ReleaseOf(s.refused[j]))
  {
    RunInv(run, acts, i);
    hide IsRun, WakeOk, ThreadsOk, ListsOk, NodesOk, LivesOk, ReleaseOf, Converted, Stored, Delivered, ValidMagic;
    var s := run[i];
    SendingsSize(s.wire, OfRefused(j));
    forall w | w in s.wire && w.origin == OfRefused(j)
      ensures w.release == ReleaseOf(s.refused[j]) && ValidMagic(s.refused[j])
    {
      var n :| 0 <= n < |s.wire| && s.wire[n] == w;
      assert WireOk(s, s.wire[n]);
    }
  }

  /** Nothing else is ever sent: every release on the wire is that of a refused or an accepted message. */
  lemma OnlyDueReleases(run: seq<State>, acts: seq<Action>, i: nat, w: Wire)
    requires IsRun(run, acts) && i < |run| && w in run[i].wire
    ensures match w.origin
            case OfRefused(j) => j < |run[i].refused|
            case OfAccepted(k) => k < |run[i].lives| && run[i].lives[k].sent
  {
    RunInv(run, acts, i);
    hide IsRun, WakeOk, ThreadsOk, ListsOk, NodesOk, LivesOk, ReleaseOf, Converted, Stored, Delivered, ValidMagic;
    var n :| 0 <= n < |run[i].wire| && run[i].wire[n] == w;
    assert WireOk(run[i], run[i].wire[n]);
  }

  /** A counted call returns what is left of the count, and sends nothing; only the call that takes the count to 0
      goes on to send. */
  ghost predicate CallReturns(s: State, t: Tid, p: Addr) {
    && CanStep(s, t) && HasLife(s, p)
    && var l, s' := LifeOf(s, p), Step(s, t);
    && HasLife(s', p) && |l.results| < l.quota
    && LifeOf(s', p).results == l.results + [l.quota - 1 - |l.results|]
    && s'.wire == s.wire && t in s'.threads
    && s'.threads[t].pc == if |l.results| + 1 < l.quota then Idle else RelSend(p)
  }

  lemma CallResult(run: seq<State>, acts: seq<Action>, i: nat, t: Tid, p: Addr, call: nat)
    requires IsRun(run, acts) && i < |run| && t in run[i].threads && p in run[i].nodes
    requires run[i].threads[t] == Thread(RelCheck(p, call), true)
    ensures CallReturns(run[i], t, p)
  {
    hide Inv, IsRun, CallReturns;
    RunInv(run, acts, i);
    CallFacts(run[i], t, p, call);
    CallCounts(run[i], t, p, call);
  }

  lemma CallFacts(s: State, t: Tid, p: Addr, call: nat)
    requires Inv(s) && t in s.threads && p in s.nodes && s.threads[t] == Thread(RelCheck(p, call), true)
    ensures ActiveNode(s, p) && |LifeOf(s, p).results| < LifeOf(s, p).quota
  {
    hide ListsOk, HistoryOk, WakeOk, PairOk, CountsDown, HoldsMessage, ActiveNode, NodesOk;
    assert ThreadOk(s, t) && LifeOk(s, s.owner[p]);
    IsActive(s, p);
    CallLeft(LifeOf(s, p), call);
  }

  lemma CheckStep(s: State, t: Tid, p: Addr, call: nat)
    requires ActiveNode(s, p) && t in s.threads && s.threads[t] == Thread(RelCheck(p, call), true)
    ensures CanStep(s, t) && Step(s, t) == StepRelCheck(s, t, p, call)
  {
    hide HoldsMessage, CallsOk, Deliverable, StepRelCheck;
  }

  lemma CallCounts(s: State, t: Tid, p: Addr, call: nat)
    requires ActiveNode(s, p) && |LifeOf(s, p).results| < LifeOf(s, p).quota
    requires t in s.threads && s.threads[t] == Thread(RelCheck(p, call), true)
    ensures CallReturns(s, t, p)
  {
    hide HoldsMessage, CallsOk, Deliverable, CanStep, Step;
    CheckStep(s, t, p, call);
  }
}
