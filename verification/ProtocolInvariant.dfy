/** The invariant of the release protocol. */
module ProtocolInvariant {
  import opened Options
  import opened Bytes
  import opened StreamMessage
  import opened QueueSpec
  import opened Protocol

  /** Which thread runs which calls. */
  predicate Role(t: Tid, pc: Pc) {
    match pc
    case LoopEnter | LoopPop | LoopWait | StoEnter(_) | StoPush(_) | Receive(_) | Callback
       | DrainEnter | DrainTest | DrainWait | DrainLate
       | FrcEnter | FrcPop | FrcPush(_) | FrcSignal | Exited(_) => t == STREAM_THREAD
    case CloseEnter | Joining | CheckRecv | CheckRelease | Freeing | Closed(_) => t == CLOSING_THREAD
    case Idle => t != STREAM_THREAD
    case _ => t != STREAM_THREAD && t != CLOSING_THREAD
  }

  predicate Draining(pc: Pc) {
    pc.DrainEnter? || pc.DrainTest? || pc.DrainWait? || pc.DrainLate? || Drained(pc) || pc.Exited?
  }

  /** The release wait has returned 0. */
  predicate Drained(pc: Pc) {
    pc.FrcEnter? || pc.FrcPop? || pc.FrcPush? || pc.FrcSignal? || pc == Exited(true)
  }

  /** The address whose last counted release this thread is carrying out. */
  function Closing(pc: Pc): Option<Addr> {
    match pc
    case RelSend(p) => Some(p)
    case RmvEnter(p) => Some(p)
    case RmvUnlink(p) => Some(p)
    case _ => None
  }

  /** The release call this thread has begun and not yet counted. */
  function Uncounted(pc: Pc): Option<(Addr, nat)> {
    match pc
    case RelEnter(p, call) => Some((p, call))
    case RelCheck(p, call) => Some((p, call))
    case _ => None
  }

  function Setting(pc: Pc): Option<Addr> {
    match pc
    case CntEnter(p, _) => Some(p)
    case CntSet(p, _) => Some(p)
    case _ => None
  }

  /** The node the stream thread carries from the receive queue to the release list. */
  function TakenBy(pc: Pc): Option<Addr> {
    match pc
    case StoEnter(a) => Some(a)
    case StoPush(a) => Some(a)
    case _ => None
  }

  /** The listed node whose message the stream thread is about to dispatch. */
  function ListedBy(pc: Pc): Option<Addr> {
    if pc.Receive? then Some(pc.a) else None
  }

  ghost predicate Shape(s: State) {
    && s.q.cells.Keys == s.nodes && s.place.Keys == s.nodes && s.owner.Keys <= s.nodes
    && STREAM_THREAD in s.threads && CLOSING_THREAD in s.threads
    && |s.accepted| == |s.lives| && s.taken <= |s.lives|
    && (forall a :: a in s.owner ==> s.owner[a] < |s.lives| && s.lives[s.owner[a]].node == a)
    && (forall k :: 0 <= k < |s.accepted| ==> |s.accepted[k]| <= COMMAND_MAX)
  }

  /** Every list entry is where its node is said to be; the receive queue holds the untaken messages in order. */
  ghost predicate ListsOk(s: State)
    requires Shape(s)
  {
    && NoDup(s.q.pool) && NoDup(s.q.release) && NoDup(s.freed)
    && (forall a :: a in s.q.pool ==> a in s.nodes && s.place[a] == InPool)
    && (forall a :: a in s.q.recv ==> a in s.nodes && s.place[a] == InRecv)
    && (forall a :: a in s.q.release ==> a in s.nodes && s.place[a] == InRelease)
    && (forall a :: a in s.freed ==> a in s.nodes && s.place[a] == Freed)
    && |s.q.recv| == |s.lives| - s.taken
    && (forall i :: 0 <= i < |s.q.recv| ==> s.q.recv[i] == s.lives[s.taken + i].node)
  }

  predicate Serves(s: State, a: Addr) {
    HasLife(s, a) && LifeOf(s, a).node == a
  }

  /** The command buffer of a node that serves an accepted message. */
  predicate HoldsMessage(s: State, a: Addr)
    requires Shape(s) && Serves(s, a)
  {
    var m := s.accepted[s.owner[a]];
    s.q.cells[a].command == if LifeOf(s, a).stage == Called then Converted(s.conv, Stored(m)) else Stored(m)
  }

  /** Where a node is said to be, it is, with the fields that belong there. */
  ghost predicate NodeOk(s: State, a: Addr)
    requires Shape(s) && a in s.nodes
  {
    match s.place[a]
    case InPool => a in s.q.pool && s.q.cells[a] == ZERO_CELL
    case InRecv => a in s.q.recv && Serves(s, a) && LifeOf(s, a).stage == Queued && HoldsMessage(s, a)
    case InRelease =>
      && a in s.q.release && Serves(s, a) && HoldsMessage(s, a)
      && var l := LifeOf(s, a);
      l.stage in {Listed, Called, Dropped} && s.q.cells[a].counter == l.quota - |l.results|
    case Freed => a in s.freed
    case With(t) => t in s.threads && Carried(s.threads[t].pc) == Some(a)
  }

  /** The return values of the counted calls, in the order counted, go down to 0. */
  predicate CountsDown(results: seq<int>, quota: int) {
    |results| <= quota && forall i :: 0 <= i < |results| ==> results[i] == quota - 1 - i
  }

  predicate CallsOk(l: Life) {
    && 1 <= l.quota && l.begun <= l.quota
    && (forall i :: i in l.counted ==> i < l.begun)
    && |l.counted| == |l.results|
    && CountsDown(l.results, l.quota)
    && (l.stage in {Queued, Taken, Listed, Dropped} ==> l.begun == 0 && l.quota == 1)
    && (l.setting ==> l.stage == Called && l.begun == 0)
    && (l.sent ==> |l.results| == l.quota)
    && (l.stage == Recycled ==> l.sent)
  }

  ghost predicate LifeOk(s: State, k: nat)
    requires Shape(s) && k < |s.lives|
  {
    var l := s.lives[k];
    var pc := s.threads[STREAM_THREAD].pc;
    && l.node in s.nodes && CallsOk(l)
    && (l.stage == Queued <==> s.taken <= k)
    && (l.stage != Recycled ==> l.node in s.owner && s.owner[l.node] == k)
    && (l.stage == Queued ==> s.place[l.node] == InRecv)
    && (l.stage == Taken ==> TakenBy(pc) == Some(l.node))
    && (l.stage in {Listed, Called, Dropped} ==> s.place[l.node] == InRelease)
    && (l.stage == Listed ==> ListedBy(pc) == Some(l.node))
    && (l.stage in {Called, Recycled} ==> Deliverable(s.accepted[k]))
    && (l.stage == Dropped ==> !Deliverable(s.accepted[k]))
  }

  /** A thread stays in its role, and a node it carries is nobody else's. */
  ghost predicate CarryOk(s: State, t: Tid)
    requires Shape(s) && t in s.threads
  {
    var Thread(pc, got) := s.threads[t];
    && Role(t, pc)
    && (got ==> Wants(pc).Some?)
    && (Carried(pc).Some? ==> Carried(pc).value in s.nodes && s.place[Carried(pc).value] == With(t))
    && (pc.EnqPop? || pc.EnqPush? ==> |pc.m| <= COMMAND_MAX)
    && (pc.EnqPop? || pc.EnqPush? || pc.EnqSignal? ==> !s.stop)
    && (pc.EnqPush? ==> s.q.cells[pc.a] == ZERO_CELL)
  }

  /** A client inside a call works on a delivered message: a release still to be counted, the last counted
      release, or a count still to be set. */
  ghost predicate ClientOk(s: State, t: Tid)
    requires Shape(s) && t in s.threads
  {
    var pc := s.threads[t].pc;
    && (Uncounted(pc).Some? && Uncounted(pc).value.0 in s.nodes ==>
          var (p, call) := Uncounted(pc).value;
          && s.place[p] == InRelease && Serves(s, p)
          && var l := LifeOf(s, p);
          l.stage == Called && call < l.begun && call !in l.counted)
    && (Closing(pc).Some? ==>
          var p := Closing(pc).value;
          && p in s.nodes && s.place[p] == InRelease && Serves(s, p)
          && var l := LifeOf(s, p);
          l.stage == Called && |l.results| == l.quota && (l.sent <==> !pc.RelSend?))
    && (Setting(pc).Some? ==>
          var p := Setting(pc).value;
          && pc.n >= 1 && p in s.nodes && s.place[p] == InRelease && Serves(s, p)
          && var l := LifeOf(s, p);
          l.stage == Called && l.setting)
  }

  /** The stream thread holds the message it took last; it drains only when stopped and with nothing queued;
      once drained, every node is home. */
  ghost predicate StreamOk(s: State, t: Tid)
    requires Shape(s) && t in s.threads
  {
    var pc := s.threads[t].pc;
    && (TakenBy(pc).Some? ==>
          var a := TakenBy(pc).value;
          Serves(s, a) && LifeOf(s, a).stage == Taken && s.owner[a] == s.taken - 1 && HoldsMessage(s, a))
    && (ListedBy(pc).Some? ==>
          var a := ListedBy(pc).value;
          && a in s.nodes && s.place[a] == InRelease && Serves(s, a)
          && LifeOf(s, a).stage == Listed && s.owner[a] == s.taken - 1)
    && (Draining(pc) ==> s.stop && s.q.recv == [])
    && (Drained(pc) ==> s.q.release == [] && forall a :: a in s.nodes ==> s.place[a] in {InPool, Freed})
    && !pc.FrcPush?
  }

  /** The stop flag is set exactly when the closing thread has set it; it goes on only once the stream thread has
      ended, and after a drained stream it frees everything. */
  ghost predicate CloserOk(s: State, t: Tid)
    requires Shape(s) && t in s.threads
  {
    var pc, stream := s.threads[t].pc, s.threads[STREAM_THREAD].pc;
    && (t == CLOSING_THREAD ==> (s.stop <==> !pc.Idle? && !pc.CloseEnter?))
    && (pc.CheckRecv? || pc.CheckRelease? || pc.Freeing? || pc.Closed? ==> stream.Exited?)
    && (pc.Closed? && stream == Exited(true) ==> pc.finalized && s.q.pool == [])
  }

  /** What thread `t` may rely on, whatever the other threads do. */
  ghost predicate ThreadOk(s: State, t: Tid)
    requires Shape(s) && t in s.threads
  {
    CarryOk(s, t) && ClientOk(s, t) && StreamOk(s, t) && CloserOk(s, t)
  }

  /** Two threads never hold one lock. */
  ghost predicate LocksApart(tt: Thread, uu: Thread) {
    forall l :: !(Holds(tt, l) && Holds(uu, l))
  }

  /** Two threads never carry out the last release of one node, count one release call, or set one count. */
  ghost predicate ClaimsApart(nodes: set<Addr>, pc: Pc, pc': Pc) {
    && (Closing(pc).Some? ==> Closing(pc) != Closing(pc'))
    && (Uncounted(pc).Some? && Uncounted(pc).value.0 in nodes ==> Uncounted(pc) != Uncounted(pc'))
    && (Setting(pc).Some? ==> Setting(pc) != Setting(pc'))
  }

  ghost predicate PairOk(s: State, t: Tid, u: Tid)
    requires t in s.threads && u in s.threads
  {
    LocksApart(s.threads[t], s.threads[u]) && ClaimsApart(s.nodes, s.threads[t].pc, s.threads[u].pc)
  }

  /** No signal is lost: a thread that waits, unsignalled, on a condition that has come about, is about to be
      signalled by a thread that holds the lock. */
  ghost predicate WakeOk(s: State)
    requires Shape(s)
  {
    var pc := s.threads[STREAM_THREAD].pc;
    && (pc.LoopWait? ==> !s.stop)
    && (pc.LoopWait? && s.q.recv != [] ==> exists t :: t in s.threads && s.threads[t].pc.EnqSignal?)
    && (pc.DrainWait? && s.q.release == [] ==>
          exists t :: t in s.threads && (s.threads[t].pc.RmvPush? || s.threads[t].pc.RmvSignal?))
  }

  /** What the callbacks see of the messages `ms`: the deliverable ones, in order, with translated addresses. */
  function Delivered(conv: Translation, ms: seq<Msg>): seq<Command>
    requires forall k :: 0 <= k < |ms| ==> |ms[k]| <= COMMAND_MAX
  {
    if ms == [] then []
    else
      var last := ms[|ms| - 1];
      Delivered(conv, ms[..|ms| - 1]) + if Deliverable(last) then [Converted(conv, Stored(last))] else []
  }

  /** How many accepted messages the stream thread is done dispatching. */
  function Dispatched(s: State): int
    requires STREAM_THREAD in s.threads
  {
    var pc := s.threads[STREAM_THREAD].pc;
    if TakenBy(pc).Some? || ListedBy(pc).Some? then s.taken - 1 else s.taken
  }

  predicate SentFor(wire: seq<Wire>, o: Origin) {
    exists i :: 0 <= i < |wire| && wire[i].origin == o
  }

  /** One more release sent: nothing that was sent is forgotten. */
  lemma SentGrows(wire: seq<Wire>, w: Wire)
    ensures SentFor(wire + [w], w.origin)
    ensures forall o :: SentFor(wire, o) ==> SentFor(wire + [w], o)
  {
    assert (wire + [w])[|wire|] == w;
    forall o | SentFor(wire, o)
      ensures SentFor(wire + [w], o)
    {
      var i :| 0 <= i < |wire| && wire[i].origin == o;
      assert (wire + [w])[i] == wire[i];
    }
  }

  /** The releases on a wire go to different origins. */
  predicate OriginsDiffer(wire: seq<Wire>) {
    forall i, j :: 0 <= i < j < |wire| ==> wire[i].origin != wire[j].origin
  }

  lemma OriginsGrow(wire: seq<Wire>, w: Wire)
    requires OriginsDiffer(wire) && forall i :: 0 <= i < |wire| ==> wire[i].origin != w.origin
    ensures OriginsDiffer(wire + [w])
  {
  }

  ghost predicate WireOk(s: State, w: Wire)
    requires Shape(s)
  {
    match w.origin
    case OfRefused(j) => j < |s.refused| && ValidMagic(s.refused[j]) && w.release == ReleaseOf(s.refused[j])
    case OfAccepted(k) =>
      && k < |s.lives| && s.lives[k].sent
      && w.release == ReleaseOf(Converted(s.conv, Stored(s.accepted[k])))
  }

  ghost predicate HistoryOk(s: State)
    requires Shape(s)
  {
    && 0 <= Dispatched(s) && s.calls == Delivered(s.conv, s.accepted[..Dispatched(s)])
    && (forall i :: 0 <= i < |s.wire| ==> WireOk(s, s.wire[i]))
    && OriginsDiffer(s.wire)
    && (forall j :: 0 <= j < |s.refused| && ValidMagic(s.refused[j]) ==> SentFor(s.wire, OfRefused(j)))
    && (forall k :: 0 <= k < |s.lives| && s.lives[k].sent ==> SentFor(s.wire, OfAccepted(k)))
  }

  ghost predicate NodesOk(s: State)
    requires Shape(s)
  {
    forall a :: a in s.nodes ==> NodeOk(s, a)
  }

  ghost predicate LivesOk(s: State)
    requires Shape(s)
  {
    forall k :: 0 <= k < |s.lives| ==> LifeOk(s, k)
  }

  ghost predicate ThreadsOk(s: State)
    requires Shape(s)
  {
    && (forall t :: t in s.threads ==> ThreadOk(s, t))
    && (forall t, u :: t in s.threads && u in s.threads && t != u ==> PairOk(s, t, u))
  }

  ghost predicate Inv(s: State) {
    Shape(s) && ListsOk(s) && NodesOk(s) && LivesOk(s) && ThreadsOk(s) && WakeOk(s) && HistoryOk(s)
  }

  lemma InitData(s: State)
    requires Init(s)
    ensures Shape(s) && ListsOk(s) && NodesOk(s) && LivesOk(s) && WakeOk(s) && HistoryOk(s)
  {
  }

  lemma InitThreads(s: State)
    requires Init(s) && Shape(s)
    ensures ThreadsOk(s)
  {
    hide NodeOk, LifeOk, HistoryOk, ListsOk, HoldsMessage;
    forall t | t in s.threads
      ensures ThreadOk(s, t)
    {
    }
  }

  lemma InitInv(s: State)
    requires Init(s)
    ensures Inv(s)
  {
    hide Init, Shape, ListsOk, NodesOk, LivesOk, ThreadsOk, WakeOk, HistoryOk;
    InitData(s);
    InitThreads(s);
  }
}
