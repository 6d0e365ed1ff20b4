/** The asynchronous release protocol as a transition system.

    Every thread has a program counter. A critical section is one step of the thread that holds its lock; taking
    a lock is a step of its own, so that every interleaving of the receiver, the stream thread, any number of
    releasing threads and the closing thread is a run. Threads that hold an outer lock keep it from one step to
    the next; a list lock is held only for the one step it protects. */
module Protocol {
  import opened Options
  import opened Bytes
  import opened StreamMessage
  import opened QueueSpec

  type Tid = nat

  const STREAM_THREAD: Tid := 0
  const CLOSING_THREAD: Tid := 1

  datatype Lock = RecvStream | ReleaseStream | PoolList | RecvList | ReleaseList | Send

  datatype Pc =
    | Idle
    // callback_camif_async and enqueue_recv_command
    | EnqEnter(m: Msg) | EnqPop(m: Msg) | EnqPush(m: Msg, a: Addr) | EnqSignal | Refuse(m: Msg)
    // Stream_release_with_queue, its `call`-th call for this delivery
    | RelEnter(p: Addr, call: nat) | RelCheck(p: Addr, call: nat) | RelSend(p: Addr)
    | RmvEnter(p: Addr) | RmvUnlink(p: Addr) | RmvPush(p: Addr) | RmvSignal
    // Stream_release_set_count
    | CntEnter(p: Addr, n: int) | CntSet(p: Addr, n: int)
    // stream_thread_proc: the loop
    | LoopEnter | LoopPop | LoopWait | StoEnter(a: Addr) | StoPush(a: Addr) | Receive(a: Addr) | Callback
    // stream_thread_proc: wait_release_list_empty and force_remove_release_command
    | DrainEnter | DrainTest | DrainWait | DrainLate
    | FrcEnter | FrcPop | FrcPush(a: Addr) | FrcSignal | Exited(drained: bool)
    // stop_stream_thread and finalize_stream_pool
    | CloseEnter | Joining | CheckRecv | CheckRelease | Freeing | Closed(finalized: bool)

  /** A program counter, and whether the lock that its step needs has been taken. */
  datatype Thread = Thread(pc: Pc, got: bool)

  /** The outer lock a thread carries into this step. */
  function Outer(pc: Pc): Option<Lock> {
    match pc
    case EnqPop(_) | EnqPush(_, _) | EnqSignal | LoopPop => Some(RecvStream)
    case RelCheck(_, _) | RmvUnlink(_) | RmvPush(_) | RmvSignal | CntSet(_, _) | StoPush(_)
       | DrainTest | FrcPop | FrcPush(_) | FrcSignal => Some(ReleaseStream)
    case _ => None
  }

  /** The lock a thread takes before this step. */
  function Wants(pc: Pc): Option<Lock> {
    match pc
    case EnqEnter(_) | LoopEnter | CloseEnter => Some(RecvStream)
    case RelEnter(_, _) | RmvEnter(_) | CntEnter(_, _) | StoEnter(_) | DrainEnter | DrainLate | FrcEnter =>
      Some(ReleaseStream)
    case EnqPop(_) | RmvPush(_) | FrcPush(_) | Freeing => Some(PoolList)
    case EnqPush(_, _) | LoopPop => Some(RecvList)
    case RelCheck(_, _) | RmvUnlink(_) | CntSet(_, _) | StoPush(_) | FrcPop => Some(ReleaseList)
    case RelSend(_) => Some(Send)
    case Refuse(m) => if ValidMagic(m) then Some(Send) else None
    case _ => None
  }

  predicate Holds(th: Thread, l: Lock) {
    Outer(th.pc) == Some(l) || (th.got && Wants(th.pc) == Some(l))
  }

  /** The node a thread has taken off one list and not yet put on another. */
  function Carried(pc: Pc): Option<Addr> {
    match pc
    case EnqPush(_, a) => Some(a)
    case StoEnter(a) => Some(a)
    case StoPush(a) => Some(a)
    case RmvPush(p) => Some(p)
    case FrcPush(a) => Some(a)
    case _ => None
  }

  // History, kept to state properties: the program never reads it.

  datatype Place = InPool | InRecv | InRelease | Freed | With(t: Tid)

  datatype Stage = Queued | Taken | Listed | Called | Dropped | Recycled

  /** The life of an accepted message: its node, its release count, the return values of the counted release
      calls in order, which calls were begun and which were counted, and whether its release was sent. */
  datatype Life = Life(node: Addr, stage: Stage, quota: int, results: seq<int>,
                       begun: nat, counted: set<nat>, setting: bool, sent: bool)

  datatype Origin = OfRefused(index: nat) | OfAccepted(index: nat)

  datatype Wire = Wire(origin: Origin, release: Release)

  datatype State = State(
    q: Queues,
    stop: bool,
    threads: map<Tid, Thread>,
    conv: Translation,
    // history
    nodes: set<Addr>,          // what initialize_stream_pool allocated
    freed: seq<Addr>,
    place: map<Addr, Place>,
    accepted: seq<Msg>,        // the messages accepted, in order
    lives: seq<Life>,          // what became of each accepted message
    owner: map<Addr, nat>,     // the life a node serves now
    taken: nat,                // messages the stream thread has dequeued
    calls: seq<Command>,       // what the user callbacks saw, in order
    refused: seq<Msg>,
    wire: seq<Wire>)           // every release sent, in order

  predicate Init(s: State) {
    && |s.q.pool| == STREAM_QUEUE_SIZE && NoDup(s.q.pool)
    && s.nodes == (set a | a in s.q.pool)
    && s.q.recv == [] && s.q.release == []
    && s.q.cells == (map a | a in s.nodes :: ZERO_CELL)
    && s.place == (map a | a in s.nodes :: InPool)
    && !s.stop
    && STREAM_THREAD in s.threads && CLOSING_THREAD in s.threads
    && (forall t :: t in s.threads ==>
          s.threads[t] == Thread(if t == STREAM_THREAD then LoopEnter else Idle, false))
    && s.freed == [] && s.accepted == [] && s.lives == [] && s.owner == map[] && s.taken == 0
    && s.calls == [] && s.refused == [] && s.wire == []
  }

  function Go(s: State, t: Tid, pc: Pc): State {
    s.(threads := s.threads[t := Thread(pc, false)])
  }

  /** pthread_cond_signal on recv_stream_cond, whose only waiter is the stream thread. */
  function SignalRecv(s: State): State {
    if STREAM_THREAD in s.threads && s.threads[STREAM_THREAD].pc == LoopWait
    then Go(s, STREAM_THREAD, LoopEnter) else s
  }

  /** pthread_cond_signal on release_stream_cond, whose only waiter is the stream thread. */
  function SignalRelease(s: State): State {
    if STREAM_THREAD in s.threads && s.threads[STREAM_THREAD].pc == DrainWait
    then Go(s, STREAM_THREAD, DrainEnter) else s
  }

  function Put(s: State, q: Queues, a: Addr, where: Place): State {
    s.(q := q, place := s.place[a := where])
  }

  function WithLife(s: State, k: nat, l: Life): State
    requires k < |s.lives|
  {
    s.(lives := s.lives[k := l])
  }

  function FreshLife(a: Addr): Life {
    Life(a, Queued, 1, [], 0, {}, false, false)
  }

  /** The life that the node at `a` serves. */
  predicate HasLife(s: State, a: Addr) {
    a in s.owner && s.owner[a] < |s.lives|
  }

  function LifeOf(s: State, a: Addr): Life
    requires HasLife(s, a)
  {
    s.lives[s.owner[a]]
  }

  // The steps of each call, one function a step. They describe the state after thread `t`, at the program
  // counter named, has run the section that its lock protects.

  /** The steps that read the shared state and only move their thread: where they go. */
  function Target(s: State, pc: Pc): Option<Pc> {
    match pc
    case EnqEnter(m) => Some(if |m| > COMMAND_MAX || s.stop then Refuse(m) else EnqPop(m))
    case RelEnter(p, call) => Some(RelCheck(p, call))
    case RmvEnter(p) => Some(RmvUnlink(p))
    case CntEnter(p, n) => Some(CntSet(p, n))
    case LoopEnter => Some(LoopPop)
    case StoEnter(a) => Some(StoPush(a))
    case Callback => Some(LoopEnter)
    case DrainEnter => Some(DrainTest)
    case DrainLate => Some(Exited(false))
    case FrcEnter => Some(FrcPop)
    case Joining => Some(CheckRecv)
    case CheckRecv => Some(if s.q.recv != [] then Closed(false) else CheckRelease)
    case CheckRelease => Some(if s.q.release != [] then Closed(false) else Freeing)
    case _ => None
  }

  function StepEnqPop(s: State, t: Tid, m: Msg): State {
    if s.q.pool == [] then Go(s, t, Refuse(m))
    else Go(Put(s, PoolPop(s.q), s.q.pool[0], With(t)), t, EnqPush(m, s.q.pool[0]))
  }

  function StepEnqPush(s: State, t: Tid, m: Msg, a: Addr): State
    requires a in s.q.cells && |m| <= COMMAND_MAX
  {
    Go(Put(s, RecvPush(Fill(s.q, a, m), a), a, InRecv), t, EnqSignal)
    .(accepted := s.accepted + [m], lives := s.lives + [FreshLife(a)], owner := s.owner[a := |s.lives|])
  }

  function StepRefuse(s: State, t: Tid, m: Msg): State {
    Go(s, t, Idle)
    .(refused := s.refused + [m],
      wire := if ValidMagic(m) then s.wire + [Wire(OfRefused(|s.refused|), ReleaseOf(m))] else s.wire)
  }

  function StepRelCheck(s: State, t: Tid, p: Addr, call: nat): State
    requires p in s.q.release ==> p in s.q.cells && HasLife(s, p)
  {
    if p !in s.q.release then Go(s, t, Idle)
    else
      var count := s.q.cells[p].counter - 1;
      var ret := if count > 0 then count else 0;
      var l := LifeOf(s, p);
      Go(WithLife(s, s.owner[p], l.(results := l.results + [ret], counted := l.counted + {call})),
         t, if count > 0 then Idle else RelSend(p))
      .(q := SetCounter(s.q, p, count))
  }

  function StepRelSend(s: State, t: Tid, p: Addr): State
    requires p in s.q.cells && HasLife(s, p)
  {
    Go(WithLife(s, s.owner[p], LifeOf(s, p).(sent := true)), t, RmvEnter(p))
    .(wire := s.wire + [Wire(OfAccepted(s.owner[p]), ReleaseOf(s.q.cells[p].command))])
  }

  /** release_stream sends nothing unless the node's command has the magic of a message. */
  function StepRelease(s: State, t: Tid, p: Addr): State
    requires p in s.q.cells && HasLife(s, p)
  {
    if ValidMagic(s.q.cells[p].command) then StepRelSend(s, t, p) else Go(s, t, RmvEnter(p))
  }

  function StepRmvUnlink(s: State, t: Tid, p: Addr): State
    requires HasLife(s, p)
  {
    Go(Put(WithLife(s, s.owner[p], LifeOf(s, p).(stage := Recycled)), ReleaseRemove(s.q, p), p, With(t)),
       t, RmvPush(p))
  }

  function StepRmvPush(s: State, t: Tid, p: Addr): State {
    Go(Put(s, PoolPush(s.q, p), p, InPool), t, RmvSignal)
  }

  function StepCntSet(s: State, t: Tid, p: Addr, n: int): State
    requires p in s.q.release ==> p in s.q.cells && HasLife(s, p)
  {
    if p !in s.q.release then Go(s, t, Idle)
    else
      Go(WithLife(s, s.owner[p], LifeOf(s, p).(quota := n, setting := false)), t, Idle)
      .(q := SetCounter(s.q, p, n))
  }

  function StepLoopPop(s: State, t: Tid): State {
    if s.q.recv == [] then Go(s, t, if s.stop then DrainEnter else LoopWait)
    else
      var s' := Go(Put(s, RecvPop(s.q), s.q.recv[0], With(t)), t, StoEnter(s.q.recv[0])).(taken := s.taken + 1);
      if s.taken < |s.lives| then WithLife(s', s.taken, s.lives[s.taken].(stage := Taken)) else s'
  }

  function StepStoPush(s: State, t: Tid, a: Addr): State
    requires a in s.q.cells && HasLife(s, a)
  {
    Go(Put(WithLife(s, s.owner[a], LifeOf(s, a).(stage := Listed)), Store(s.q, a), a, InRelease), t, Receive(a))
  }

  /** recv_stream calls back: the sample address is translated in the node's own buffer. */
  function StepCall(s: State, t: Tid, a: Addr): State
    requires a in s.q.cells && HasLife(s, a)
  {
    Go(WithLife(s, s.owner[a], LifeOf(s, a).(stage := Called)), t, Callback)
    .(q := Translate(s.q, a, s.conv), calls := s.calls + [Converted(s.conv, s.q.cells[a].command)])
  }

  /** recv_stream has no callback for the message: its node stays on the release list. */
  function StepDrop(s: State, t: Tid, a: Addr): State
    requires HasLife(s, a)
  {
    Go(WithLife(s, s.owner[a], LifeOf(s, a).(stage := Dropped)), t, LoopEnter)
  }

  function StepReceive(s: State, t: Tid, a: Addr): State
    requires a in s.q.cells && HasLife(s, a)
  {
    if Deliverable(s.q.cells[a].command) then StepCall(s, t, a) else StepDrop(s, t, a)
  }

  function StepFrcPop(s: State, t: Tid): State {
    if s.q.release == [] then Go(s, t, FrcSignal)
    else Go(Put(s, ReleasePop(s.q), s.q.release[0], With(t)), t, FrcPush(s.q.release[0]))
  }

  function StepFrcPush(s: State, t: Tid, a: Addr): State {
    Go(Put(s, PoolPush(s.q, a), a, InPool), t, FrcPop)
  }

  function StepFreeing(s: State, t: Tid): State {
    if s.q.pool == [] then Go(s, t, Closed(true))
    else Put(Go(s, t, Freeing), PoolPop(s.q), s.q.pool[0], Freed).(freed := s.freed + [s.q.pool[0]])
  }

  /** Whether thread `t` can run the step it is at; waiting for a lock, a signal or the end of the stream
      thread, it cannot. The last conjuncts say that the fields the step reads belong to a node. */
  predicate CanStep(s: State, t: Tid) {
    && t in s.threads
    && var Thread(pc, got) := s.threads[t];
    && (Wants(pc).Some? ==> got)
    && !pc.Idle? && !pc.LoopWait? && !pc.DrainWait? && !pc.Exited? && !pc.Closed?
    && (pc.Joining? ==> STREAM_THREAD in s.threads && s.threads[STREAM_THREAD].pc.Exited?)
    && (pc.EnqPush? ==> pc.a in s.q.cells && |pc.m| <= COMMAND_MAX)
    && (pc.RelCheck? || pc.CntSet? ==> pc.p in s.q.release ==> pc.p in s.q.cells && HasLife(s, pc.p))
    && (pc.RelSend? || pc.RmvUnlink? ==> pc.p in s.q.cells && HasLife(s, pc.p))
    && (pc.StoPush? || pc.Receive? ==> pc.a in s.q.cells && HasLife(s, pc.a))
  }

  function Step(s: State, t: Tid): State
    requires CanStep(s, t)
  {
    var pc := s.threads[t].pc;
    if Target(s, pc).Some? then Go(s, t, Target(s, pc).value) else
    match pc
    case EnqPop(m) => StepEnqPop(s, t, m)
    case EnqPush(m, a) => StepEnqPush(s, t, m, a)
    case EnqSignal => SignalRecv(Go(s, t, Idle))
    case Refuse(m) => StepRefuse(s, t, m)
    case RelCheck(p, call) => StepRelCheck(s, t, p, call)
    case RelSend(p) => StepRelease(s, t, p)
    case RmvUnlink(p) => StepRmvUnlink(s, t, p)
    case RmvPush(p) => StepRmvPush(s, t, p)
    case RmvSignal => SignalRelease(Go(s, t, Idle))
    case CntSet(p, n) => StepCntSet(s, t, p, n)
    case LoopPop => StepLoopPop(s, t)
    case StoPush(a) => StepStoPush(s, t, a)
    case Receive(a) => StepReceive(s, t, a)
    case DrainTest => Go(s, t, if s.q.release == [] then FrcEnter else DrainWait)
    case FrcPop => StepFrcPop(s, t)
    case FrcPush(a) => StepFrcPush(s, t, a)
    case FrcSignal => SignalRelease(Go(s, t, Exited(true)))
    case CloseEnter => SignalRecv(Go(s.(stop := true), t, Joining))
    case Freeing => StepFreeing(s, t)
  }

  datatype Action =
    | Acquire(t: Tid)                       // take the lock that the next step needs
    | Run(t: Tid)                           // run the next step
    | Arrive(t: Tid, m: Msg)                // the driver calls callback_camif_async
    | CallRelease(t: Tid, p: Addr)          // a client calls Stream_release_with_queue
    | CallSetCount(t: Tid, p: Addr, n: int) // a client calls Stream_release_set_count
    | CallClose                             // Stream_ipcu_ch_close
    | Wakeup                                // a spurious wakeup of the stream thread
    | Timeout                               // pthread_cond_timedwait runs out of time

  predicate ClientAtRest(s: State, t: Tid) {
    t in s.threads && t != STREAM_THREAD && t != CLOSING_THREAD && s.threads[t].pc == Idle
  }

  predicate CanAcquire(s: State, t: Tid) {
    && t in s.threads && !s.threads[t].got && Wants(s.threads[t].pc).Some?
    && forall u :: u in s.threads ==> !Holds(s.threads[u], Wants(s.threads[t].pc).value)
  }

  /** The rule clients keep: they release only what a callback handed them, they set the count (to at least 1)
      before any release, and they make at most that many releases. An address that is not a node's may be
      released at any time: the call finds nothing. */
  predicate MayRelease(s: State, p: Addr) {
    p in s.nodes ==>
      && HasLife(s, p)
      && var l := LifeOf(s, p);
      l.stage == Called && !l.setting && l.begun < l.quota
  }

  predicate MaySetCount(s: State, p: Addr, n: int) {
    && p in s.nodes && HasLife(s, p) && n >= 1
    && var l := LifeOf(s, p);
    l.stage == Called && !l.setting && l.begun == 0
  }

  predicate Enabled(s: State, act: Action) {
    match act
    case Acquire(t) => CanAcquire(s, t)
    case Run(t) => CanStep(s, t)
    case Arrive(t, m) => ClientAtRest(s, t)
    case CallRelease(t, p) => ClientAtRest(s, t) && MayRelease(s, p)
    case CallSetCount(t, p, n) => ClientAtRest(s, t) && MaySetCount(s, p, n)
    case CallClose => CLOSING_THREAD in s.threads && s.threads[CLOSING_THREAD].pc == Idle
    case Wakeup => STREAM_THREAD in s.threads && s.threads[STREAM_THREAD].pc in {LoopWait, DrainWait}
    case Timeout => STREAM_THREAD in s.threads && s.threads[STREAM_THREAD].pc == DrainWait
  }

  function Acquired(s: State, t: Tid): State
    requires t in s.threads
  {
    s.(threads := s.threads[t := s.threads[t].(got := true)])
  }

  function BeginRelease(s: State, t: Tid, p: Addr): State
    requires MayRelease(s, p)
  {
    if p !in s.nodes then Go(s, t, RelEnter(p, 0))
    else
      var l := LifeOf(s, p);
      Go(WithLife(s, s.owner[p], l.(begun := l.begun + 1)), t, RelEnter(p, l.begun))
  }

  function BeginSetCount(s: State, t: Tid, p: Addr, n: int): State
    requires MaySetCount(s, p, n)
  {
    Go(WithLife(s, s.owner[p], LifeOf(s, p).(setting := true)), t, CntEnter(p, n))
  }

  function Next(s: State, act: Action): State
    requires Enabled(s, act)
  {
    match act
    case Acquire(t) => Acquired(s, t)
    case Run(t) => Step(s, t)
    case Arrive(t, m) => Go(s, t, EnqEnter(m))
    case CallRelease(t, p) => BeginRelease(s, t, p)
    case CallSetCount(t, p, n) => BeginSetCount(s, t, p, n)
    case CallClose => Go(s, CLOSING_THREAD, CloseEnter)
    case Wakeup => Go(s, STREAM_THREAD, if s.threads[STREAM_THREAD].pc == LoopWait then LoopEnter else DrainEnter)
    case Timeout => Go(s, STREAM_THREAD, DrainLate)
  }

  /** `run` is the sequence of states that the actions `acts` go through from an initial state. */
  ghost predicate IsRun(run: seq<State>, acts: seq<Action>) {
    && |run| == |acts| + 1
    && Init(run[0])
    && forall i :: 0 <= i < |acts| ==> Enabled(run[i], acts[i]) && run[i + 1] == Next(run[i], acts[i])
  }
}
