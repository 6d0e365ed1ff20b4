/** Where messages go, over whole runs: each one that arrives is accepted, refused or still in its receiver's hands,
    and the callbacks see the bytes that arrived. */
module ProtocolMessages {
  import opened Options
  import opened Bytes
  import opened StreamMessage
  import opened QueueSpec
  import opened Protocol
  import opened ProtocolInvariant
  import opened ProtocolFrames
  import opened ProtocolSteps
  import opened ProtocolSafety
  import opened ProtocolHistory
  import opened ProtocolTheorems
  import opened ProtocolLastCall

  // ----- what the callbacks see

  /** How many of the first `k` messages are deliverable. */
  function DeliverableBefore(ms: seq<Msg>, k: nat): (n: nat)
    requires k <= |ms|
    ensures n <= k
  {
    if k == 0 then 0 else DeliverableBefore(ms, k - 1) + if Deliverable(ms[k - 1]) then 1 else 0
  }

  /** `c` is the message with its address translated: no other byte of it is changed, and behind it are zeros. */
  predicate Sees(conv: Translation, m: Msg, c: Command) {
    && WordAt(c, 40) == conv(WordAt(m, 40))
    && forall i :: 0 <= i < 256 && !(40 <= i < 44) ==> c[i] == ByteAt(m, i)
  }

  lemma ConvertedSees(conv: Translation, m: Msg)
    requires |m| <= COMMAND_MAX
    ensures Sees(conv, m, Converted(conv, Stored(m)))
  {
    hide Converted;
    StoredReads(m, 40);
    OnlyAddressConverted(conv, Stored(m));
  }

  lemma {:induction false} DeliveredAt(conv: Translation, ms: seq<Msg>, n: nat, k: nat)
    requires k < n <= |ms| && forall i :: 0 <= i < |ms| ==> |ms[i]| <= COMMAND_MAX
    ensures |Delivered(conv, ms[..n])| == DeliverableBefore(ms, n)
    ensures DeliverableBefore(ms, k) <= DeliverableBefore(ms, n)
    ensures Deliverable(ms[k]) ==>
              && DeliverableBefore(ms, k) < DeliverableBefore(ms, n)
              && Sees(conv, ms[k], Delivered(conv, ms[..n])[DeliverableBefore(ms, k)])
    decreases n
  {
    hide Deliverable, Sees, Converted, Stored;
    assert ms[..n][..n - 1] == ms[..n - 1] && ms[..n][n - 1] == ms[n - 1];
    ConvertedSees(conv, ms[n - 1]);
    if k < n - 1 {
      DeliveredAt(conv, ms, n - 1, k);
    } else if n > 1 {
      DeliveredAt(conv, ms, n - 1, 0);
    }
  }

  /** The callbacks so far and the deliverable messages among the first so many accepted correspond one to one and in
      order, and each callback saw the bytes of its message with the address translated. */
  lemma CallbacksSee(run: seq<State>, acts: seq<Action>, i: nat)
    requires IsRun(run, acts) && i < |run|
    ensures var s := run[i];
            && STREAM_THREAD in s.threads && 0 <= Dispatched(s) <= |s.accepted|
            && |s.accepted| - |s.q.recv| - 1 <= Dispatched(s) <= |s.accepted| - |s.q.recv|
            && |s.calls| == DeliverableBefore(s.accepted, Dispatched(s))
            && forall k :: 0 <= k < Dispatched(s) && Deliverable(s.accepted[k]) ==>
                 var c := DeliverableBefore(s.accepted, k);
                 c < |s.calls| && Sees(s.conv, s.accepted[k], s.calls[c])
  {
    RunInv(run, acts, i);
    FirstInFirstOut(run, acts, i);
    hide IsRun, NodesOk, LivesOk, ThreadsOk, WakeOk, HistoryOk, ListsOk, Deliverable, Sees, Delivered, Stored;
    var s := run[i];
    var n := Dispatched(s);
    assert s.accepted[..0] == [];
    NoneDelivered(s.conv);
    if n > 0 {
      DeliveredAt(s.conv, s.accepted, n, 0);
    }
    forall k | 0 <= k < n && Deliverable(s.accepted[k])
      ensures var c := DeliverableBefore(s.accepted, k); c < |s.calls| && Sees(s.conv, s.accepted[k], s.calls[c])
    {
      DeliveredAt(s.conv, s.accepted, n, k);
    }
  }

  lemma NoneDelivered(conv: Translation)
    ensures Delivered(conv, []) == []
  {
  }

  // ----- no message is lost

  /** The messages that the driver has handed over, in order. */
  function Arrived(acts: seq<Action>, i: nat): seq<Msg>
    requires i <= |acts|
  {
    if i == 0 then []
    else Arrived(acts, i - 1) + if acts[i - 1].Arrive? then [acts[i - 1].m] else []
  }

  /** The message that a receiving thread has neither accepted nor refused yet. */
  function Handled(pc: Pc): Option<Msg> {
    match pc
    case EnqEnter(m) => Some(m)
    case EnqPop(m) => Some(m)
    case EnqPush(m, _) => Some(m)
    case Refuse(m) => Some(m)
    case _ => None
  }

  /** The threads with that message in their hands. */
  function Handling(s: State, m: Msg): set<Tid> {
    set t | t in s.threads && Handled(s.threads[t].pc) == Some(m)
  }

  /** Only thread `t` goes on. It keeps the message it handles, or ends handling it, and then that message alone is
      accepted or refused. */
  ghost predicate Passes(s: State, s': State, t: Tid) {
    && t in s.threads && OthersWoken(s, s', t)
    && var h, h' := Handled(s.threads[t].pc), Handled(s'.threads[t].pc);
       || (h' == h && s'.accepted == s.accepted && s'.refused == s.refused)
       || (h.Some? && h' == None && s'.accepted == s.accepted + [h.value] && s'.refused == s.refused)
       || (h.Some? && h' == None && s'.accepted == s.accepted && s'.refused == s.refused + [h.value])
  }

  /** How often `m` is accepted, refused or in a thread's hands. */
  function Accounted(s: State, m: Msg): nat {
    multiset(s.accepted)[m] + multiset(s.refused)[m] + |Handling(s, m)|
  }

  lemma OthersHandled(s: State, s': State, t: Tid)
    requires t in s.threads && OthersWoken(s, s', t)
    ensures s'.threads.Keys == s.threads.Keys
    ensures forall u :: u in s.threads && u != t ==> Handled(s'.threads[u].pc) == Handled(s.threads[u].pc)
  {
  }

  lemma OthersHandle(s: State, s': State, t: Tid, m: Msg)
    requires t in s.threads && OthersWoken(s, s', t)
    ensures Handling(s', m) - {t} == Handling(s, m) - {t}
  {
    OthersHandled(s, s', t);
    hide OthersWoken;
  }

  lemma SetSize(a: set<Tid>, t: Tid)
    ensures |a| == |a - {t}| + if t in a then 1 else 0
  {
  }

  lemma HandlingChanges(s: State, s': State, t: Tid, m: Msg)
    requires t in s.threads && OthersWoken(s, s', t)
    ensures t in s'.threads
    ensures |Handling(s', m)| + (if Handled(s.threads[t].pc) == Some(m) then 1 else 0)
         == |Handling(s, m)| + (if Handled(s'.threads[t].pc) == Some(m) then 1 else 0)
  {
    OthersHandled(s, s', t);
    OthersHandle(s, s', t, m);
    hide OthersWoken, Handled;
    SetSize(Handling(s, m), t);
    SetSize(Handling(s', m), t);
  }

  lemma PassesAccounted(s: State, s': State, t: Tid, m: Msg)
    requires Passes(s, s', t)
    ensures Accounted(s', m) == Accounted(s, m)
  {
    hide OthersWoken, Handled, Handling;
    HandlingChanges(s, s', t, m);
  }

  lemma BeginAccounted(s: State, t: Tid, x: Msg, m: Msg)
    requires t in s.threads && Handled(s.threads[t].pc) == None
    ensures Accounted(Go(s, t, EnqEnter(x)), m) == Accounted(s, m) + if x == m then 1 else 0
  {
    hide Handling;
    HandlingChanges(s, Go(s, t, EnqEnter(x)), t, m);
  }

  // ----- the steps

  lemma TargetPasses(s: State, t: Tid)
    requires CanStep(s, t) && Target(s, s.threads[t].pc).Some? && OthersWoken(s, Step(s, t), t)
    ensures Passes(s, Step(s, t), t)
  {
    hide Wants, OthersWoken;
  }

  lemma ReceiverPasses(s: State, t: Tid)
    requires CanStep(s, t) && Target(s, s.threads[t].pc).None? && OthersWoken(s, Step(s, t), t)
    requires var pc := s.threads[t].pc; pc.EnqPop? || pc.EnqPush? || pc.EnqSignal? || pc.Refuse?
    ensures Passes(s, Step(s, t), t)
  {
    hide Step, CanStep, Target, OthersWoken, ReleaseOf, ValidMagic, PoolPop, RecvPush, Fill;
    StepCases(s, t);
    StepIs(s, t);
  }

  lemma ReleaserPasses(s: State, t: Tid)
    requires CanStep(s, t) && Target(s, s.threads[t].pc).None? && OthersWoken(s, Step(s, t), t)
    requires var pc := s.threads[t].pc; pc.RelCheck? || pc.RelSend? || pc.RmvUnlink? || pc.CntSet?
    ensures Passes(s, Step(s, t), t)
  {
    hide Step, CanStep, Target, OthersWoken, ReleaseOf, ValidMagic, ReleaseRemove, SetCounter;
    StepCases(s, t);
    StepIs(s, t);
  }

  lemma RemoverPasses(s: State, t: Tid)
    requires CanStep(s, t) && Target(s, s.threads[t].pc).None? && OthersWoken(s, Step(s, t), t)
    requires var pc := s.threads[t].pc; pc.RmvPush? || pc.RmvSignal?
    ensures Passes(s, Step(s, t), t)
  {
    hide Step, CanStep, Target, OthersWoken, PoolPush;
    StepCases(s, t);
    StepIs(s, t);
  }

  lemma CloserPasses(s: State, t: Tid)
    requires CanStep(s, t) && Target(s, s.threads[t].pc).None? && OthersWoken(s, Step(s, t), t)
    requires var pc := s.threads[t].pc; pc.CloseEnter? || pc.Freeing?
    ensures Passes(s, Step(s, t), t)
  {
    hide Step, CanStep, Target, OthersWoken, PoolPop;
    StepCases(s, t);
    StepIs(s, t);
  }

  lemma StreamPasses(s: State, t: Tid)
    requires CanStep(s, t) && Target(s, s.threads[t].pc).None? && OthersWoken(s, Step(s, t), t)
    requires var pc := s.threads[t].pc; pc.LoopPop? || pc.StoPush? || pc.Receive?
    ensures Passes(s, Step(s, t), t)
  {
    hide Step, CanStep, Target, OthersWoken, Deliverable, Converted, Translate, Store, RecvPop;
    StepCases(s, t);
    StepIs(s, t);
  }

  lemma DrainPasses(s: State, t: Tid)
    requires CanStep(s, t) && Target(s, s.threads[t].pc).None? && OthersWoken(s, Step(s, t), t)
    requires var pc := s.threads[t].pc; pc.DrainTest? || pc.FrcPop? || pc.FrcPush? || pc.FrcSignal?
    ensures Passes(s, Step(s, t), t)
  {
    hide Step, CanStep, Target, OthersWoken, PoolPush, ReleasePop;
    StepCases(s, t);
    StepIs(s, t);
  }

  lemma StepPasses(s: State, t: Tid)
    requires CanStep(s, t)
    ensures Passes(s, Step(s, t), t)
  {
    hide Step, Target, Passes, OthersWoken;
    StepMovesOne(s, t);
    StepCases(s, t);
    var pc := s.threads[t].pc;
    if Target(s, pc).Some? {
      TargetPasses(s, t);
    } else if pc.EnqPop? || pc.EnqPush? || pc.EnqSignal? || pc.Refuse? {
      ReceiverPasses(s, t);
    } else if pc.RelCheck? || pc.RelSend? || pc.RmvUnlink? || pc.CntSet? {
      ReleaserPasses(s, t);
    } else if pc.RmvPush? || pc.RmvSignal? {
      RemoverPasses(s, t);
    } else if pc.CloseEnter? || pc.Freeing? {
      CloserPasses(s, t);
    } else if pc.LoopPop? || pc.StoPush? || pc.Receive? {
      StreamPasses(s, t);
    } else {
      DrainPasses(s, t);
    }
  }

  lemma WakePasses(s: State, act: Action)
    requires Enabled(s, act) && (act.Wakeup? || act.Timeout? || act.CallClose?)
    ensures Passes(s, Next(s, act), if act.CallClose? then CLOSING_THREAD else STREAM_THREAD)
  {
  }

  lemma BeginPasses(s: State, act: Action)
    requires Enabled(s, act) && (act.CallRelease? || act.CallSetCount?)
    ensures Passes(s, Next(s, act), act.t)
  {
  }

  lemma AcquirePasses(s: State, t: Tid)
    requires Enabled(s, Acquire(t))
    ensures Passes(s, Next(s, Acquire(t)), t)
  {
    hide Holds, Wants;
  }

  lemma ActionAccounted(s: State, act: Action, m: Msg)
    requires Enabled(s, act)
    ensures Accounted(Next(s, act), m) == Accounted(s, m) + if act.Arrive? && act.m == m then 1 else 0
  {
    hide Step, CanStep, Accounted, Passes, CanAcquire, MayRelease, MaySetCount;
    match act
    case Arrive(t, x) => BeginAccounted(s, t, x, m);
    case Run(t) => StepPasses(s, t); PassesAccounted(s, Next(s, act), t, m);
    case Acquire(t) => AcquirePasses(s, t); PassesAccounted(s, Next(s, act), t, m);
    case CallRelease(t, _) => BeginPasses(s, act); PassesAccounted(s, Next(s, act), t, m);
    case CallSetCount(t, _, _) => BeginPasses(s, act); PassesAccounted(s, Next(s, act), t, m);
    case CallClose => WakePasses(s, act); PassesAccounted(s, Next(s, act), CLOSING_THREAD, m);
    case _ => WakePasses(s, act); PassesAccounted(s, Next(s, act), STREAM_THREAD, m);
  }

  lemma NoneAccounted(s: State, m: Msg)
    requires Init(s)
    ensures Accounted(s, m) == 0
  {
    assert Handling(s, m) == {};
  }

  lemma {:induction false} Accounting(run: seq<State>, acts: seq<Action>, i: nat, m: Msg)
    requires IsRun(run, acts) && i < |run|
    ensures multiset(Arrived(acts, i))[m] == Accounted(run[i], m)
  {
    hide Enabled, Next, Init, Accounted;
    if i == 0 {
      NoneAccounted(run[0], m);
    } else {
      Accounting(run, acts, i - 1, m);
      ActionAccounted(run[i - 1], acts[i - 1], m);
    }
  }

  /** No message is lost and none is made up: each one that has arrived, as often as it has arrived, is accepted,
      refused or in the hands of one receiving thread; once no thread is receiving, it is accepted or refused. */
  lemma EveryMessageAccounted(run: seq<State>, acts: seq<Action>, i: nat)
    requires IsRun(run, acts) && i < |run|
    ensures var s := run[i];
            && (forall m ::
                  multiset(Arrived(acts, i))[m] == multiset(s.accepted)[m] + multiset(s.refused)[m] + |Handling(s, m)|)
            && ((forall t :: t in s.threads ==> Handled(s.threads[t].pc) == None) ==>
                  multiset(Arrived(acts, i)) == multiset(s.accepted) + multiset(s.refused))
  {
    var s := run[i];
    forall m
      ensures multiset(Arrived(acts, i))[m] == multiset(s.accepted)[m] + multiset(s.refused)[m] + |Handling(s, m)|
    {
      Accounting(run, acts, i, m);
    }
    hide IsRun;
    if forall t :: t in s.threads ==> Handled(s.threads[t].pc) == None {
      forall m
        ensures multiset(Arrived(acts, i))[m] == (multiset(s.accepted) + multiset(s.refused))[m]
      {
        assert Handling(s, m) == {};
      }
    }
  }
}
