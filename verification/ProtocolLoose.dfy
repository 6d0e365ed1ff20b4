/** Runs in which clients release what they like, up to the first removal of a node that is not on the release list:
    what the lists and nodes keep even then. */
module ProtocolLoose {
  import opened Options
  import opened Bytes
  import opened StreamMessage
  import opened QueueSpec
  import opened Protocol
  import opened ProtocolInvariant
  import opened ProtocolFrames
  import opened ProtocolSteps
  import opened ProtocolLastCall
  import opened ProtocolTheorems

  /** The step removes a node from the release list that is not on it. What remove_release_list does then is no
      operation on lists any more: a loose run ends before it. */
  predicate Damages(s: State, act: Action) {
    act.Run? && act.t in s.threads && s.threads[act.t].pc.RmvUnlink? && s.threads[act.t].pc.p !in s.q.release
  }

  predicate LooseEnabled(s: State, act: Action) {
    && (Enabled(s, act) || (act.CallRelease? && ClientAtRest(s, act.t)))
    && !Damages(s, act)
  }

  function LooseNext(s: State, act: Action): State
    requires LooseEnabled(s, act)
  {
    if Enabled(s, act) then Next(s, act) else Go(s, act.t, RelEnter(act.p, 0))
  }

  ghost predicate IsLooseRun(run: seq<State>, acts: seq<Action>) {
    && |run| == |acts| + 1
    && Init(run[0])
    && forall i :: 0 <= i < |acts| ==> LooseEnabled(run[i], acts[i]) && run[i + 1] == LooseNext(run[i], acts[i])
  }

  // ----- the invariant of loose runs

  /** The node at `a` has been filled with a message and not been zeroed since. */
  predicate Loaded(s: State, a: Addr) {
    a in s.place &&
    match s.place[a]
    case InPool => false
    case InRecv => true
    case InRelease => true
    case Freed => false
    case With(t) => t in s.threads && !s.threads[t].pc.EnqPush?
  }

  /** Where a node is said to be, it is. */
  predicate AtHome(s: State, a: Addr) {
    a in s.place &&
    match s.place[a]
    case InPool => a in s.q.pool
    case InRecv => a in s.q.recv
    case InRelease => a in s.q.release
    case Freed => a in s.freed
    case With(t) => t in s.threads && Carried(s.threads[t].pc) == Some(a)
  }

  /** A loaded node has the magic of the message it serves, any other is zeroed. */
  ghost predicate LooseNode(s: State, a: Addr)
    requires Shape(s) && a in s.nodes
  {
    && AtHome(s, a)
    && if Loaded(s, a) then
         a in s.owner && (ValidMagic(s.q.cells[a].command) <==> ValidMagic(s.accepted[s.owner[a]]))
       else s.q.cells[a] == ZERO_CELL
  }

  ghost predicate LooseThread(s: State, t: Tid)
    requires Shape(s) && t in s.threads
  {
    var pc := s.threads[t].pc;
    && Role(t, pc)
    && (Carried(pc).Some? ==> Carried(pc).value in s.nodes && s.place[Carried(pc).value] == With(t))
    && (Drained(pc) ==> s.q.release == []) && !pc.FrcPush?
  }

  ghost predicate LooseNodes(s: State)
    requires Shape(s)
  {
    forall a :: a in s.nodes ==> LooseNode(s, a)
  }

  ghost predicate LooseThreads(s: State)
    requires Shape(s)
  {
    forall t :: t in s.threads ==> LooseThread(s, t)
  }

  ghost predicate LooseLists(s: State) {
    Shape(s) && ListsOk(s) && NoDup(s.q.recv)
  }

  ghost predicate LooseInv(s: State) {
    LooseLists(s) && LooseNodes(s) && LooseThreads(s)
  }

  lemma InitLoose(s: State)
    requires Init(s)
    ensures LooseInv(s)
  {
    hide HistoryOk;
  }

  // ----- steps that move no node

  /** A cell stays as it is, or goes from one message with valid magic to another. */
  predicate CellKept(c: Cell, c': Cell) {
    c' == c || (ValidMagic(c.command) && ValidMagic(c'.command))
  }

  /** Only the thread `t` goes on; it keeps what it carries. Lists and nodes stay as they are. */
  ghost predicate Still(s: State, s': State, t: Tid) {
    && t in s.threads && OthersWoken(s, s', t) && t in s'.threads
    && s'.q.pool == s.q.pool && s'.q.recv == s.q.recv && s'.q.release == s.q.release
    && s'.q.cells.Keys == s.q.cells.Keys
    && (forall a :: a in s.q.cells ==> CellKept(s.q.cells[a], s'.q.cells[a]))
    && s'.nodes == s.nodes && s'.freed == s.freed && s'.place == s.place && s'.owner == s.owner
    && s'.accepted == s.accepted && s'.taken == s.taken && |s'.lives| == |s.lives|
    && (forall k :: 0 <= k < |s.lives| ==> s'.lives[k].node == s.lives[k].node)
    && var pc, pc' := s.threads[t].pc, s'.threads[t].pc;
       && Carried(pc') == Carried(pc) && (pc'.EnqPush? <==> pc.EnqPush?)
       && (Role(t, pc) ==> Role(t, pc'))
       && (Drained(pc') ==> Drained(pc) || s.q.release == []) && (pc'.FrcPush? ==> pc.FrcPush?)
  }

  lemma WokenKeeps(th: Thread, th': Thread, t: Tid)
    requires Woken(th, th')
    ensures Carried(th'.pc) == Carried(th.pc) && (th'.pc.EnqPush? <==> th.pc.EnqPush?)
    ensures Role(t, th.pc) ==> Role(t, th'.pc)
    ensures (Drained(th'.pc) <==> Drained(th.pc)) && (th'.pc.FrcPush? <==> th.pc.FrcPush?)
  {
  }

  lemma StillThread(s: State, s': State, t: Tid, u: Tid)
    requires Shape(s) && Shape(s') && Still(s, s', t) && u in s.threads && u in s'.threads && LooseThread(s, u)
    ensures LooseThread(s', u)
    ensures Carried(s'.threads[u].pc) == Carried(s.threads[u].pc)
    ensures s'.threads[u].pc.EnqPush? <==> s.threads[u].pc.EnqPush?
  {
    hide Shape, Role, Drained, Carried, Woken;
    if u != t {
      WokenKeeps(s.threads[u], s'.threads[u], u);
    }
  }

  lemma StillNode(s: State, s': State, t: Tid, a: Addr)
    requires Shape(s) && Shape(s') && Still(s, s', t) && a in s.nodes && LooseNode(s, a)
    requires s.place[a].With? ==>
               var u := s.place[a].t;
               && u in s'.threads && u in s.threads
               && Carried(s'.threads[u].pc) == Carried(s.threads[u].pc)
               && (s'.threads[u].pc.EnqPush? <==> s.threads[u].pc.EnqPush?)
    ensures LooseNode(s', a)
  {
    hide Role, Drained, ValidMagic, Carried, OthersWoken;
    ZeroMagic();
  }

  lemma ZeroMagic()
    ensures !ValidMagic(ZERO_CELL.command)
  {
  }

  lemma StillShape(s: State, s': State, t: Tid)
    requires LooseLists(s) && Still(s, s', t)
    ensures LooseLists(s')
  {
    hide Role, Drained, Carried, NoDup, Woken;
  }

  lemma StillKeeps(s: State, s': State, t: Tid)
    requires LooseInv(s) && Still(s, s', t)
    ensures LooseInv(s')
  {
    hide Still, Shape, ListsOk, NoDup, LooseThread, LooseNode, Carried;
    StillShape(s, s', t);
    StillKeys(s, s', t);
    forall u | u in s'.threads
      ensures LooseThread(s', u)
    {
      StillThread(s, s', t, u);
    }
    forall a | a in s'.nodes
      ensures LooseNode(s', a)
    {
      HomeThread(s, a);
      if s.place[a].With? {
        StillThread(s, s', t, s.place[a].t);
      }
      StillNode(s, s', t, a);
    }
  }

  lemma StillKeys(s: State, s': State, t: Tid)
    requires Still(s, s', t) && Shape(s)
    ensures s'.threads.Keys == s.threads.Keys && s'.nodes == s.nodes && s.place.Keys == s.nodes
  {
  }

  lemma HomeThread(s: State, a: Addr)
    requires Shape(s) && a in s.nodes && LooseNode(s, a)
    ensures a in s.place && (s.place[a].With? ==> s.place[a].t in s.threads)
  {
  }

  // ----- steps that are about one node

  /** Thread `t` works on the node at `a`, and on no other. */
  ghost predicate About(s: State, s': State, t: Tid, a: Addr) {
    && t in s.threads && OthersWoken(s, s', t) && t in s'.threads && a in s.nodes && s'.nodes == s.nodes
    && s.accepted <= s'.accepted
    && (forall b :: b in s.nodes && b != a ==> OtherNode(s, s', b))
    && var pc, pc' := s.threads[t].pc, s'.threads[t].pc;
       && Carried(pc) in {None, Some(a)} && Carried(pc') in {None, Some(a)}
       && (Role(t, pc) ==> Role(t, pc'))
       && (Drained(pc') ==> Drained(pc)) && !pc'.FrcPush?
       && (s.q.release == [] && s'.q.release != [] ==> t == STREAM_THREAD && !Drained(pc'))
  }

  ghost predicate OtherNode(s: State, s': State, b: Addr) {
    && b in s.place && b in s'.place && s'.place[b] == s.place[b]
    && b in s.q.cells && b in s'.q.cells && s'.q.cells[b] == s.q.cells[b]
    && (b in s.owner ==> b in s'.owner && s'.owner[b] == s.owner[b])
    && (b in s.q.pool ==> b in s'.q.pool) && (b in s.q.recv ==> b in s'.q.recv)
    && (b in s.q.release ==> b in s'.q.release) && (b in s.freed ==> b in s'.freed)
  }

  lemma AboutNode(s: State, s': State, t: Tid, a: Addr, b: Addr)
    requires Shape(s) && Shape(s') && b in s.nodes && b != a && s'.nodes == s.nodes && LooseNode(s, b)
    requires OtherNode(s, s', b) && OthersWoken(s, s', t) && s.accepted <= s'.accepted
    requires t in s.threads && Carried(s.threads[t].pc) in {None, Some(a)}
    ensures LooseNode(s', b)
  {
    hide Role, Drained, ValidMagic, OthersWoken, Carried;
    if s.place[b].With? {
      OtherCarries(s, s', t, s.place[b].t, b);
    }
  }

  lemma OtherCarries(s: State, s': State, t: Tid, u: Tid, b: Addr)
    requires OthersWoken(s, s', t) && u in s.threads && u != t && Carried(s.threads[u].pc) == Some(b)
    ensures u in s'.threads && Carried(s'.threads[u].pc) == Some(b)
    ensures s'.threads[u].pc.EnqPush? <==> s.threads[u].pc.EnqPush?
  {
    hide Carried;
    WokenKeeps(s.threads[u], s'.threads[u], u);
  }

  lemma AboutThread(s: State, s': State, t: Tid, a: Addr, u: Tid)
    requires Shape(s) && Shape(s') && About(s, s', t, a) && u in s.threads && u != t && LooseThread(s, u)
    requires s.place[a] != With(u)
    ensures u in s'.threads && LooseThread(s', u)
  {
    hide Shape, Carried, Woken, Role;
    WokenKeeps(s.threads[u], s'.threads[u], u);
    if Drained(s.threads[u].pc) {
      DrainedRole(u, s.threads[u].pc);
    }
    if Carried(s.threads[u].pc).Some? {
      assert Carried(s.threads[u].pc).value != a ==> OtherNode(s, s', Carried(s.threads[u].pc).value);
    }
  }

  lemma DrainedRole(t: Tid, pc: Pc)
    requires Role(t, pc) && Drained(pc)
    ensures t == STREAM_THREAD
  {
  }

  lemma AboutKeeps(s: State, s': State, t: Tid, a: Addr)
    requires LooseInv(s) && About(s, s', t, a) && LooseLists(s')
    requires s.place[a] != With(t) ==> !s.place[a].With?
    requires LooseNode(s', a) && (Carried(s'.threads[t].pc) == Some(a) ==> s'.place[a] == With(t))
    ensures LooseInv(s')
  {
    hide ListsOk, NoDup, LooseThread, LooseNode, Carried, OtherNode, Shape;
    AboutKeys(s, s', t, a);
    forall b | b in s'.nodes
      ensures LooseNode(s', b)
    {
      if b != a {
        AboutNode(s, s', t, a, b);
      }
    }
    forall u | u in s'.threads
      ensures LooseThread(s', u)
    {
      if u != t {
        AboutThread(s, s', t, a, u);
      } else {
        AboutSelf(s, s', t, a);
      }
    }
  }

  lemma AboutKeys(s: State, s': State, t: Tid, a: Addr)
    requires About(s, s', t, a) && Shape(s)
    ensures s'.threads.Keys == s.threads.Keys && s.place.Keys == s.nodes
  {
    hide OtherNode;
  }

  lemma AboutSelf(s: State, s': State, t: Tid, a: Addr)
    requires Shape(s) && Shape(s') && About(s, s', t, a) && LooseThread(s, t)
    requires Carried(s'.threads[t].pc) == Some(a) ==> s'.place[a] == With(t)
    ensures LooseThread(s', t)
  {
    hide OtherNode, Carried, Role, OthersWoken;
    if Drained(s'.threads[t].pc) {
      assert s.q.release == [];
    }
  }

  // ----- the steps

  lemma ListsShape(s: State)
    requires LooseLists(s)
    ensures Shape(s)
  {
  }

  /** What a thread carries is with it. */
  lemma OwnPlace(s: State, t: Tid)
    requires Shape(s) && t in s.threads && LooseThread(s, t)
    ensures Role(t, s.threads[t].pc)
    ensures Carried(s.threads[t].pc).Some? ==>
              var a := Carried(s.threads[t].pc).value; a in s.nodes && a in s.place && s.place[a] == With(t)
  {
    hide Role, Carried;
  }

  lemma PlaceInList(s: State, a: Addr)
    requires LooseLists(s)
    ensures a in s.q.pool ==> a in s.nodes && a in s.place && s.place[a] == InPool
    ensures a in s.q.recv ==> a in s.nodes && a in s.place && s.place[a] == InRecv
    ensures a in s.q.release ==> a in s.nodes && a in s.place && s.place[a] == InRelease
  {
    hide NoDup;
  }

  lemma NoDupTail(s: seq<Addr>)
    requires NoDup(s) && s != []
    ensures NoDup(s[1..]) && s[0] !in s[1..]
  {
  }

  lemma NoDupPush(a: Addr, s: seq<Addr>)
    requires NoDup(s) && a !in s
    ensures NoDup([a] + s) && NoDup(s + [a])
  {
  }

  lemma InTail(s: seq<Addr>)
    requires s != []
    ensures forall b :: b in s && b != s[0] ==> b in s[1..]
  {
  }

  lemma StoredMagic(m: Msg)
    requires |m| <= COMMAND_MAX
    ensures ValidMagic(Overlay(ZERO_CELL.command, m)) == ValidMagic(m)
  {
    hide ValidMagic, Deliverable;
    DeliverableStored(m);
  }

  lemma EnqPopLists(s: State, t: Tid, m: Msg)
    requires LooseLists(s) && t in s.threads && s.threads[t].pc == EnqPop(m) && s.q.pool != []
    requires s.q.pool[0] in s.nodes && s.place[s.q.pool[0]] == InPool
    ensures LooseLists(StepEnqPop(s, t, m))
  {
    hide ValidMagic, Deliverable, Converted, Overlay, ReleaseOf, Wants, Carried, Role;
    NoDupTail(s.q.pool);
  }

  lemma EnqPopAbout(s: State, t: Tid, m: Msg)
    requires Shape(s) && t in s.threads && s.threads[t].pc == EnqPop(m) && s.q.pool != []
    requires s.q.pool[0] in s.nodes && s.place[s.q.pool[0]] == InPool && Role(t, s.threads[t].pc)
    requires Shape(StepEnqPop(s, t, m))
    ensures About(s, StepEnqPop(s, t, m), t, s.q.pool[0])
  {
    hide ValidMagic, Deliverable, Converted, Overlay, ReleaseOf, NoDup, Wants;
    InTail(s.q.pool);
  }

  lemma EnqPopNode(s: State, t: Tid, m: Msg)
    requires LooseLists(s) && t in s.threads && s.threads[t].pc == EnqPop(m) && s.q.pool != []
    requires s.q.pool[0] in s.nodes && s.place[s.q.pool[0]] == InPool && LooseNode(s, s.q.pool[0])
    requires Shape(StepEnqPop(s, t, m))
    ensures LooseNode(StepEnqPop(s, t, m), s.q.pool[0])
    ensures Carried(StepEnqPop(s, t, m).threads[t].pc) == Some(s.q.pool[0]) ==>
              StepEnqPop(s, t, m).place[s.q.pool[0]] == With(t)
  {
    hide ValidMagic, Deliverable, Converted, Overlay, ReleaseOf, NoDup, Wants, ListsOk;
  }

  lemma EnqPopLoose(s: State, t: Tid, m: Msg)
    requires LooseInv(s) && t in s.threads && s.threads[t].pc == EnqPop(m) && s.q.pool != []
    ensures LooseInv(StepEnqPop(s, t, m))
  {
    hide LooseLists, About, Shape, ListsOk, NoDup, Wants, Role, LooseNode, StepEnqPop;
    ListsShape(s);
    assert LooseThread(s, t);
    OwnPlace(s, t);
    PlaceInList(s, s.q.pool[0]);
    EnqPopLists(s, t, m);
    ListsShape(StepEnqPop(s, t, m));
    EnqPopAbout(s, t, m);
    EnqPopNode(s, t, m);
    AboutKeeps(s, StepEnqPop(s, t, m), t, s.q.pool[0]);
  }

  lemma EnqPushShape(s: State, t: Tid, m: Msg, a: Addr)
    requires LooseLists(s) && t in s.threads && s.threads[t].pc == EnqPush(m, a) && CanStep(s, t)
    requires a in s.nodes && s.place[a] == With(t)
    ensures Shape(StepEnqPush(s, t, m, a))
  {
    hide ValidMagic, Deliverable, Converted, Overlay, ReleaseOf, Wants, Carried, Role, NoDup, ListsOk;
  }

  lemma EnqPushLists(s: State, t: Tid, m: Msg, a: Addr)
    requires LooseLists(s) && t in s.threads && s.threads[t].pc == EnqPush(m, a) && CanStep(s, t)
    requires a in s.nodes && s.place[a] == With(t)
    ensures LooseLists(StepEnqPush(s, t, m, a))
  {
    hide ValidMagic, Deliverable, Converted, Overlay, ReleaseOf, Wants, Carried, Role, Shape, NoDup;
    ListsShape(s);
    EnqPushShape(s, t, m, a);
    NoDupPush(a, s.q.recv);
  }

  lemma EnqPushAbout(s: State, t: Tid, m: Msg, a: Addr)
    requires Shape(s) && t in s.threads && s.threads[t].pc == EnqPush(m, a) && CanStep(s, t)
    requires a in s.nodes && s.place[a] == With(t) && Role(t, s.threads[t].pc)
    requires Shape(StepEnqPush(s, t, m, a))
    ensures About(s, StepEnqPush(s, t, m, a), t, a)
  {
    hide ValidMagic, Deliverable, Converted, Overlay, ReleaseOf, NoDup, Wants;
  }

  lemma EnqPushNode(s: State, t: Tid, m: Msg, a: Addr)
    requires LooseLists(s) && t in s.threads && s.threads[t].pc == EnqPush(m, a) && CanStep(s, t)
    requires a in s.nodes && s.place[a] == With(t) && LooseNode(s, a)
    requires Shape(StepEnqPush(s, t, m, a))
    ensures LooseNode(StepEnqPush(s, t, m, a), a)
    ensures Carried(StepEnqPush(s, t, m, a).threads[t].pc) == Some(a) ==> StepEnqPush(s, t, m, a).place[a] == With(t)
  {
    hide ValidMagic, Deliverable, Converted, Overlay, ReleaseOf, NoDup, Wants, ListsOk;
    StoredMagic(m);
  }

  lemma EnqPushLoose(s: State, t: Tid, m: Msg, a: Addr)
    requires LooseInv(s) && t in s.threads && s.threads[t].pc == EnqPush(m, a) && CanStep(s, t)
    ensures LooseInv(StepEnqPush(s, t, m, a))
  {
    hide LooseLists, About, Shape, ListsOk, NoDup, Wants, Role, LooseNode, StepEnqPush;
    ListsShape(s);
    assert LooseThread(s, t);
    OwnPlace(s, t);
    PlaceInList(s, a);
    EnqPushLists(s, t, m, a);
    ListsShape(StepEnqPush(s, t, m, a));
    EnqPushAbout(s, t, m, a);
    EnqPushNode(s, t, m, a);
    AboutKeeps(s, StepEnqPush(s, t, m, a), t, a);
  }

  lemma LoopPopLists(s: State, t: Tid)
    requires LooseLists(s) && t in s.threads && s.threads[t].pc == LoopPop && s.q.recv != []
    requires s.q.recv[0] in s.nodes && s.place[s.q.recv[0]] == InRecv && s.taken < |s.lives|
    ensures LooseLists(StepLoopPop(s, t))
  {
    hide ValidMagic, Deliverable, Converted, Overlay, ReleaseOf, Wants, Carried, Role;
    NoDupTail(s.q.recv);
  }

  lemma LoopPopAbout(s: State, t: Tid)
    requires Shape(s) && t in s.threads && s.threads[t].pc == LoopPop && s.q.recv != []
    requires s.q.recv[0] in s.nodes && s.place[s.q.recv[0]] == InRecv && Role(t, s.threads[t].pc) && s.taken < |s.lives|
    requires Shape(StepLoopPop(s, t))
    ensures About(s, StepLoopPop(s, t), t, s.q.recv[0])
  {
    hide ValidMagic, Deliverable, Converted, Overlay, ReleaseOf, NoDup, Wants;
    InTail(s.q.recv);
  }

  lemma LoopPopNode(s: State, t: Tid)
    requires LooseLists(s) && t in s.threads && s.threads[t].pc == LoopPop && s.q.recv != []
    requires s.q.recv[0] in s.nodes && s.place[s.q.recv[0]] == InRecv && LooseNode(s, s.q.recv[0])
    requires s.taken < |s.lives|
    requires Shape(StepLoopPop(s, t))
    ensures LooseNode(StepLoopPop(s, t), s.q.recv[0])
    ensures Carried(StepLoopPop(s, t).threads[t].pc) == Some(s.q.recv[0]) ==>
              StepLoopPop(s, t).place[s.q.recv[0]] == With(t)
  {
    hide ValidMagic, Deliverable, Converted, Overlay, ReleaseOf, NoDup, Wants, ListsOk;
  }

  lemma LoopPopLoose(s: State, t: Tid)
    requires LooseInv(s) && t in s.threads && s.threads[t].pc == LoopPop && s.q.recv != [] && s.taken < |s.lives|
    ensures LooseInv(StepLoopPop(s, t))
  {
    hide LooseLists, About, Shape, ListsOk, NoDup, Wants, Role, LooseNode, StepLoopPop;
    ListsShape(s);
    assert LooseThread(s, t);
    OwnPlace(s, t);
    PlaceInList(s, s.q.recv[0]);
    LoopPopLists(s, t);
    ListsShape(StepLoopPop(s, t));
    LoopPopAbout(s, t);
    LoopPopNode(s, t);
    AboutKeeps(s, StepLoopPop(s, t), t, s.q.recv[0]);
  }

  lemma StoPushLists(s: State, t: Tid, a: Addr)
    requires LooseLists(s) && t in s.threads && s.threads[t].pc == StoPush(a) && CanStep(s, t)
    requires a in s.nodes && s.place[a] == With(t)
    ensures LooseLists(StepStoPush(s, t, a))
  {
    hide ValidMagic, Deliverable, Converted, Overlay, ReleaseOf, Wants, Carried, Role;
    NoDupPush(a, s.q.release);
  }

  lemma StoPushAbout(s: State, t: Tid, a: Addr)
    requires Shape(s) && t in s.threads && s.threads[t].pc == StoPush(a) && CanStep(s, t)
    requires a in s.nodes && s.place[a] == With(t) && Role(t, s.threads[t].pc)
    requires Shape(StepStoPush(s, t, a))
    ensures About(s, StepStoPush(s, t, a), t, a)
  {
    hide ValidMagic, Deliverable, Converted, Overlay, ReleaseOf, NoDup, Wants;
  }

  lemma StoPushNode(s: State, t: Tid, a: Addr)
    requires LooseLists(s) && t in s.threads && s.threads[t].pc == StoPush(a) && CanStep(s, t)
    requires a in s.nodes && s.place[a] == With(t) && LooseNode(s, a)
    requires Shape(StepStoPush(s, t, a))
    ensures LooseNode(StepStoPush(s, t, a), a)
    ensures Carried(StepStoPush(s, t, a).threads[t].pc) == Some(a) ==> StepStoPush(s, t, a).place[a] == With(t)
  {
    hide ValidMagic, Deliverable, Converted, Overlay, ReleaseOf, NoDup, Wants, ListsOk;
  }

  lemma StoPushLoose(s: State, t: Tid, a: Addr)
    requires LooseInv(s) && t in s.threads && s.threads[t].pc == StoPush(a) && CanStep(s, t)
    ensures LooseInv(StepStoPush(s, t, a))
  {
    hide LooseLists, About, Shape, ListsOk, NoDup, Wants, Role, LooseNode, StepStoPush;
    ListsShape(s);
    assert LooseThread(s, t);
    OwnPlace(s, t);
    PlaceInList(s, a);
    StoPushLists(s, t, a);
    ListsShape(StepStoPush(s, t, a));
    StoPushAbout(s, t, a);
    StoPushNode(s, t, a);
    AboutKeeps(s, StepStoPush(s, t, a), t, a);
  }

  lemma RmvUnlinkLists(s: State, t: Tid, p: Addr)
    requires LooseLists(s) && t in s.threads && s.threads[t].pc == RmvUnlink(p) && CanStep(s, t)
    requires p in s.nodes && s.place[p] == InRelease && p in s.q.release
    ensures LooseLists(StepRmvUnlink(s, t, p))
  {
    hide ValidMagic, Deliverable, Converted, Overlay, ReleaseOf, Wants, Carried, Role;
    hide Without;
    WithoutMember(s.q.release, p);
  }

  lemma RmvUnlinkAbout(s: State, t: Tid, p: Addr)
    requires Shape(s) && t in s.threads && s.threads[t].pc == RmvUnlink(p) && CanStep(s, t)
    requires p in s.nodes && s.place[p] == InRelease && Role(t, s.threads[t].pc) && p in s.q.release
    requires Shape(StepRmvUnlink(s, t, p))
    ensures About(s, StepRmvUnlink(s, t, p), t, p)
  {
    hide ValidMagic, Deliverable, Converted, Overlay, ReleaseOf, NoDup, Wants;
    hide Without;
    WithoutOthers(s.q.release, p);
  }

  lemma RmvUnlinkNode(s: State, t: Tid, p: Addr)
    requires LooseLists(s) && t in s.threads && s.threads[t].pc == RmvUnlink(p) && CanStep(s, t)
    requires p in s.nodes && s.place[p] == InRelease && LooseNode(s, p) && p in s.q.release
    requires Shape(StepRmvUnlink(s, t, p))
    ensures LooseNode(StepRmvUnlink(s, t, p), p)
    ensures Carried(StepRmvUnlink(s, t, p).threads[t].pc) == Some(p) ==> StepRmvUnlink(s, t, p).place[p] == With(t)
  {
    hide ValidMagic, Deliverable, Converted, Overlay, ReleaseOf, NoDup, Wants, ListsOk;
  }

  lemma RmvUnlinkLoose(s: State, t: Tid, p: Addr)
    requires LooseInv(s) && t in s.threads && s.threads[t].pc == RmvUnlink(p) && CanStep(s, t) && p in s.q.release
    ensures LooseInv(StepRmvUnlink(s, t, p))
  {
    hide LooseLists, About, Shape, ListsOk, NoDup, Wants, Role, LooseNode, StepRmvUnlink;
    ListsShape(s);
    assert LooseThread(s, t);
    OwnPlace(s, t);
    PlaceInList(s, p);
    RmvUnlinkLists(s, t, p);
    ListsShape(StepRmvUnlink(s, t, p));
    RmvUnlinkAbout(s, t, p);
    RmvUnlinkNode(s, t, p);
    AboutKeeps(s, StepRmvUnlink(s, t, p), t, p);
  }

  lemma RmvPushLists(s: State, t: Tid, p: Addr)
    requires LooseLists(s) && t in s.threads && s.threads[t].pc == RmvPush(p)
    requires p in s.nodes && s.place[p] == With(t)
    ensures LooseLists(StepRmvPush(s, t, p))
  {
    hide ValidMagic, Deliverable, Converted, Overlay, ReleaseOf, Wants, Carried, Role;
    NoDupPush(p, s.q.pool);
  }

  lemma RmvPushAbout(s: State, t: Tid, p: Addr)
    requires Shape(s) && t in s.threads && s.threads[t].pc == RmvPush(p)
    requires p in s.nodes && s.place[p] == With(t) && Role(t, s.threads[t].pc)
    requires Shape(StepRmvPush(s, t, p))
    ensures About(s, StepRmvPush(s, t, p), t, p)
  {
    hide ValidMagic, Deliverable, Converted, Overlay, ReleaseOf, NoDup, Wants;
  }

  lemma RmvPushNode(s: State, t: Tid, p: Addr)
    requires LooseLists(s) && t in s.threads && s.threads[t].pc == RmvPush(p)
    requires p in s.nodes && s.place[p] == With(t) && LooseNode(s, p)
    requires Shape(StepRmvPush(s, t, p))
    ensures LooseNode(StepRmvPush(s, t, p), p)
    ensures Carried(StepRmvPush(s, t, p).threads[t].pc) == Some(p) ==> StepRmvPush(s, t, p).place[p] == With(t)
  {
    hide ValidMagic, Deliverable, Converted, Overlay, ReleaseOf, NoDup, Wants, ListsOk;
  }

  lemma RmvPushLoose(s: State, t: Tid, p: Addr)
    requires LooseInv(s) && t in s.threads && s.threads[t].pc == RmvPush(p)
    ensures LooseInv(StepRmvPush(s, t, p))
  {
    hide LooseLists, About, Shape, ListsOk, NoDup, Wants, Role, LooseNode, StepRmvPush;
    ListsShape(s);
    assert LooseThread(s, t);
    OwnPlace(s, t);
    PlaceInList(s, p);
    RmvPushLists(s, t, p);
    ListsShape(StepRmvPush(s, t, p));
    RmvPushAbout(s, t, p);
    RmvPushNode(s, t, p);
    AboutKeeps(s, StepRmvPush(s, t, p), t, p);
  }

  lemma FreeingLists(s: State, t: Tid)
    requires LooseLists(s) && t in s.threads && s.threads[t].pc == Freeing && s.q.pool != []
    requires s.q.pool[0] in s.nodes && s.place[s.q.pool[0]] == InPool
    ensures LooseLists(StepFreeing(s, t))
  {
    hide ValidMagic, Deliverable, Converted, Overlay, ReleaseOf, Wants, Carried, Role;
    NoDupTail(s.q.pool);
    NoDupPush(s.q.pool[0], s.freed);
  }

  lemma FreeingAbout(s: State, t: Tid)
    requires Shape(s) && t in s.threads && s.threads[t].pc == Freeing && s.q.pool != []
    requires s.q.pool[0] in s.nodes && s.place[s.q.pool[0]] == InPool && Role(t, s.threads[t].pc)
    requires Shape(StepFreeing(s, t))
    ensures About(s, StepFreeing(s, t), t, s.q.pool[0])
  {
    hide ValidMagic, Deliverable, Converted, Overlay, ReleaseOf, NoDup, Wants;
    InTail(s.q.pool);
  }

  lemma FreeingNode(s: State, t: Tid)
    requires LooseLists(s) && t in s.threads && s.threads[t].pc == Freeing && s.q.pool != []
    requires s.q.pool[0] in s.nodes && s.place[s.q.pool[0]] == InPool && LooseNode(s, s.q.pool[0])
    requires Shape(StepFreeing(s, t))
    ensures LooseNode(StepFreeing(s, t), s.q.pool[0])
    ensures Carried(StepFreeing(s, t).threads[t].pc) == Some(s.q.pool[0]) ==>
              StepFreeing(s, t).place[s.q.pool[0]] == With(t)
  {
    hide ValidMagic, Deliverable, Converted, Overlay, ReleaseOf, NoDup, Wants, ListsOk;
  }

  lemma FreeingLoose(s: State, t: Tid)
    requires LooseInv(s) && t in s.threads && s.threads[t].pc == Freeing && s.q.pool != []
    ensures LooseInv(StepFreeing(s, t))
  {
    hide LooseLists, About, Shape, ListsOk, NoDup, Wants, Role, LooseNode, StepFreeing;
    ListsShape(s);
    assert LooseThread(s, t);
    OwnPlace(s, t);
    PlaceInList(s, s.q.pool[0]);
    FreeingLists(s, t);
    ListsShape(StepFreeing(s, t));
    FreeingAbout(s, t);
    FreeingNode(s, t);
    AboutKeeps(s, StepFreeing(s, t), t, s.q.pool[0]);
  }

  lemma RelCheckLists(s: State, t: Tid, p: Addr, call: nat)
    requires LooseLists(s) && t in s.threads && s.threads[t].pc == RelCheck(p, call) && CanStep(s, t)
    requires p in s.nodes && s.place[p] == InRelease && p in s.q.release
    ensures LooseLists(StepRelCheck(s, t, p, call))
  {
    hide ValidMagic, Deliverable, Converted, Overlay, ReleaseOf, Wants, Carried, Role;
  }

  lemma RelCheckAbout(s: State, t: Tid, p: Addr, call: nat)
    requires Shape(s) && t in s.threads && s.threads[t].pc == RelCheck(p, call) && CanStep(s, t)
    requires p in s.nodes && s.place[p] == InRelease && Role(t, s.threads[t].pc) && p in s.q.release
    requires Shape(StepRelCheck(s, t, p, call))
    ensures About(s, StepRelCheck(s, t, p, call), t, p)
  {
    hide ValidMagic, Deliverable, Converted, Overlay, ReleaseOf, NoDup, Wants;
  }

  lemma RelCheckNode(s: State, t: Tid, p: Addr, call: nat)
    requires LooseLists(s) && t in s.threads && s.threads[t].pc == RelCheck(p, call) && CanStep(s, t)
    requires p in s.nodes && s.place[p] == InRelease && LooseNode(s, p) && p in s.q.release
    requires Shape(StepRelCheck(s, t, p, call))
    ensures LooseNode(StepRelCheck(s, t, p, call), p)
    ensures Carried(StepRelCheck(s, t, p, call).threads[t].pc) == Some(p) ==>
              StepRelCheck(s, t, p, call).place[p] == With(t)
  {
    hide ValidMagic, Deliverable, Converted, Overlay, ReleaseOf, NoDup, Wants, ListsOk;
  }

  lemma RelCheckLoose(s: State, t: Tid, p: Addr, call: nat)
    requires LooseInv(s) && t in s.threads && s.threads[t].pc == RelCheck(p, call) && CanStep(s, t) && p in s.q.release
    ensures LooseInv(StepRelCheck(s, t, p, call))
  {
    hide LooseLists, About, Shape, ListsOk, NoDup, Wants, Role, LooseNode, StepRelCheck;
    ListsShape(s);
    assert LooseThread(s, t);
    OwnPlace(s, t);
    PlaceInList(s, p);
    RelCheckLists(s, t, p, call);
    ListsShape(StepRelCheck(s, t, p, call));
    RelCheckAbout(s, t, p, call);
    RelCheckNode(s, t, p, call);
    AboutKeeps(s, StepRelCheck(s, t, p, call), t, p);
  }

  lemma CntSetLists(s: State, t: Tid, p: Addr, n: int)
    requires LooseLists(s) && t in s.threads && s.threads[t].pc == CntSet(p, n) && CanStep(s, t)
    requires p in s.nodes && s.place[p] == InRelease && p in s.q.release
    ensures LooseLists(StepCntSet(s, t, p, n))
  {
    hide ValidMagic, Deliverable, Converted, Overlay, ReleaseOf, Wants, Carried, Role;
  }

  lemma CntSetAbout(s: State, t: Tid, p: Addr, n: int)
    requires Shape(s) && t in s.threads && s.threads[t].pc == CntSet(p, n) && CanStep(s, t)
    requires p in s.nodes && s.place[p] == InRelease && Role(t, s.threads[t].pc) && p in s.q.release
    requires Shape(StepCntSet(s, t, p, n))
    ensures About(s, StepCntSet(s, t, p, n), t, p)
  {
    hide ValidMagic, Deliverable, Converted, Overlay, ReleaseOf, NoDup, Wants;
  }

  lemma CntSetNode(s: State, t: Tid, p: Addr, n: int)
    requires LooseLists(s) && t in s.threads && s.threads[t].pc == CntSet(p, n) && CanStep(s, t)
    requires p in s.nodes && s.place[p] == InRelease && LooseNode(s, p) && p in s.q.release
    requires Shape(StepCntSet(s, t, p, n))
    ensures LooseNode(StepCntSet(s, t, p, n), p)
    ensures Carried(StepCntSet(s, t, p, n).threads[t].pc) == Some(p) ==> StepCntSet(s, t, p, n).place[p] == With(t)
  {
    hide ValidMagic, Deliverable, Converted, Overlay, ReleaseOf, NoDup, Wants, ListsOk;
  }

  lemma CntSetLoose(s: State, t: Tid, p: Addr, n: int)
    requires LooseInv(s) && t in s.threads && s.threads[t].pc == CntSet(p, n) && CanStep(s, t) && p in s.q.release
    ensures LooseInv(StepCntSet(s, t, p, n))
  {
    hide LooseLists, About, Shape, ListsOk, NoDup, Wants, Role, LooseNode, StepCntSet;
    ListsShape(s);
    assert LooseThread(s, t);
    OwnPlace(s, t);
    PlaceInList(s, p);
    CntSetLists(s, t, p, n);
    ListsShape(StepCntSet(s, t, p, n));
    CntSetAbout(s, t, p, n);
    CntSetNode(s, t, p, n);
    AboutKeeps(s, StepCntSet(s, t, p, n), t, p);
  }

  // ----- all the others

  lemma CallStill(s: State, t: Tid, a: Addr)
    requires Shape(s) && t in s.threads && s.threads[t].pc == Receive(a) && a in s.q.cells && HasLife(s, a)
    requires Role(t, Receive(a)) && Deliverable(s.q.cells[a].command)
    ensures Still(s, StepCall(s, t, a), t)
  {
    hide Deliverable, Converted, ValidMagic;
    DeliverableConverted(s.conv, s.q.cells[a].command);
    DeliverableMagic(s.q.cells[a].command);
  }

  lemma DropStill(s: State, t: Tid, a: Addr)
    requires Shape(s) && t in s.threads && s.threads[t].pc == Receive(a) && HasLife(s, a) && Role(t, Receive(a))
    ensures Still(s, StepDrop(s, t, a), t)
  {
    hide ValidMagic;
  }

  lemma ReleaseStill(s: State, t: Tid, p: Addr)
    requires Shape(s) && t in s.threads && s.threads[t].pc == RelSend(p) && p in s.q.cells && HasLife(s, p)
    ensures Still(s, StepRelease(s, t, p), t)
  {
    hide ValidMagic, ReleaseOf;
  }

  lemma RefuseStill(s: State, t: Tid, m: Msg)
    requires Shape(s) && t in s.threads && s.threads[t].pc == Refuse(m)
    ensures Still(s, StepRefuse(s, t, m), t)
  {
    hide ValidMagic, ReleaseOf;
  }

  /** A step that only moves its thread. */
  predicate Moved(s: State, t: Tid, pc': Pc) {
    && t in s.threads
    && var pc := s.threads[t].pc;
       && Carried(pc') == Carried(pc) && (pc'.EnqPush? <==> pc.EnqPush?)
       && (Role(t, pc) ==> Role(t, pc'))
       && (Drained(pc') ==> Drained(pc) || s.q.release == []) && (pc'.FrcPush? ==> pc.FrcPush?)
  }

  lemma GoStill(s: State, t: Tid, pc': Pc)
    requires Shape(s) && Moved(s, t, pc')
    ensures Still(s, Go(s, t, pc'), t) && Still(s, Go(s.(stop := true), t, pc'), t)
  {
    hide Carried, Role, Drained, ValidMagic;
  }

  /** It may also wake up the stream thread, if that is another one or does not wait. */
  lemma SignalStill(s: State, s': State, t: Tid)
    requires Still(s, s', t) && (t != STREAM_THREAD || !Waits(s'.threads[t].pc))
    requires STREAM_THREAD in s'.threads
    requires (STREAM_THREAD != t ==> s'.threads[STREAM_THREAD] == s.threads[STREAM_THREAD])
    ensures Still(s, SignalRecv(s'), t) && Still(s, SignalRelease(s'), t)
  {
    hide Carried, Role, Drained, ValidMagic, CellKept;
    SignalWoken(s, s', t);
  }

  lemma SignalWoken(s: State, s': State, t: Tid)
    requires t in s.threads && OthersWoken(s, s', t) && (t != STREAM_THREAD || !Waits(s'.threads[t].pc))
    requires STREAM_THREAD in s'.threads
    requires (STREAM_THREAD != t ==> s'.threads[STREAM_THREAD] == s.threads[STREAM_THREAD])
    ensures OthersWoken(s, SignalRecv(s'), t) && OthersWoken(s, SignalRelease(s'), t)
    ensures SignalRecv(s').threads[t] == s'.threads[t] == SignalRelease(s').threads[t]
  {
  }

  predicate Waits(pc: Pc) {
    pc.LoopWait? || pc.DrainWait?
  }

  lemma TargetStill(s: State, t: Tid, pc': Pc)
    requires Shape(s) && t in s.threads && Target(s, s.threads[t].pc) == Some(pc') && Role(t, s.threads[t].pc)
    ensures Still(s, Go(s, t, pc'), t)
  {
    hide Carried, Role, ValidMagic, Wants;
    TargetKeepsHands(s, t, s.threads[t].pc, pc');
    GoStill(s, t, pc');
  }

  lemma TargetKeepsHands(s: State, t: Tid, pc: Pc, pc': Pc)
    requires Target(s, pc) == Some(pc') && Role(t, pc)
    ensures Carried(pc') == Carried(pc) && !pc'.EnqPush? && !pc.EnqPush? && Role(t, pc') && !pc'.FrcPush?
    ensures Drained(pc') ==> Drained(pc)
  {
  }

  lemma OtherStill(s: State, t: Tid)
    requires Shape(s) && CanStep(s, t) && Role(t, s.threads[t].pc)
    requires var pc := s.threads[t].pc;
             || (pc.EnqPop? && s.q.pool == []) || pc.EnqSignal? || pc.RmvSignal? || pc.DrainTest? || pc.CloseEnter?
             || (pc.RelCheck? && pc.p !in s.q.release) || (pc.CntSet? && pc.p !in s.q.release)
             || (pc.LoopPop? && s.q.recv == []) || (pc.FrcPop? && s.q.release == []) || pc.FrcSignal?
             || (pc.Freeing? && s.q.pool == [])
    ensures Still(s, Step(s, t), t)
  {
    hide ValidMagic, Wants, Still, SignalRecv, SignalRelease;
    var pc := s.threads[t].pc;
    var pc' := match pc
      case EnqPop(m) => Refuse(m)
      case DrainTest => if s.q.release == [] then FrcEnter else DrainWait
      case LoopPop => if s.stop then DrainEnter else LoopWait
      case FrcPop => FrcSignal
      case FrcSignal => Exited(true)
      case CloseEnter => Joining
      case Freeing => Closed(true)
      case _ => Idle;
    GoStill(s, t, pc');
    if !Waits(pc') {
      SignalStill(s, Go(s, t, pc'), t);
      SignalStill(s, Go(s.(stop := true), t, pc'), t);
    }
  }

  lemma RoleOf(s: State, t: Tid)
    requires LooseInv(s) && t in s.threads
    ensures Shape(s) && Role(t, s.threads[t].pc) && !s.threads[t].pc.FrcPush?
    ensures Drained(s.threads[t].pc) ==> s.q.release == []
    ensures s.q.recv != [] ==> s.taken < |s.lives|
  {
    hide Role, Drained, NoDup, Carried, LooseNode;
    assert LooseThread(s, t);
  }

  lemma StepLoose(s: State, t: Tid)
    requires LooseInv(s) && CanStep(s, t) && !Damages(s, Run(t))
    ensures LooseInv(Step(s, t))
  {
    hide LooseInv, Shape, Still, Role, Drained, Carried, Wants, Deliverable, StepEnqPop, StepEnqPush, StepRelCheck,
      StepRmvUnlink, StepRmvPush, StepCntSet, StepLoopPop, StepStoPush, StepCall, StepDrop, StepRelease, StepRefuse,
      StepFreeing, SignalRecv, SignalRelease;
    RoleOf(s, t);
    var pc := s.threads[t].pc;
    if Target(s, pc).Some? {
      TargetStill(s, t, Target(s, pc).value);
      StillKeeps(s, Step(s, t), t);
    } else {
      match pc
      case EnqPush(m, a) => EnqPushLoose(s, t, m, a);
      case StoPush(a) => StoPushLoose(s, t, a);
      case RmvUnlink(p) => RmvUnlinkLoose(s, t, p);
      case RmvPush(p) => RmvPushLoose(s, t, p);
      case Refuse(m) => RefuseStill(s, t, m); StillKeeps(s, Step(s, t), t);
      case RelSend(p) => ReleaseStill(s, t, p); StillKeeps(s, Step(s, t), t);
      case Receive(a) =>
        if Deliverable(s.q.cells[a].command) { CallStill(s, t, a); } else { DropStill(s, t, a); }
        StillKeeps(s, Step(s, t), t);
      case EnqPop(m) => if s.q.pool != [] { EnqPopLoose(s, t, m); } else { OtherLoose(s, t); }
      case RelCheck(p, call) => if p in s.q.release { RelCheckLoose(s, t, p, call); } else { OtherLoose(s, t); }
      case CntSet(p, n) => if p in s.q.release { CntSetLoose(s, t, p, n); } else { OtherLoose(s, t); }
      case LoopPop => if s.q.recv != [] { LoopPopLoose(s, t); } else { OtherLoose(s, t); }
      case Freeing => if s.q.pool != [] { FreeingLoose(s, t); } else { OtherLoose(s, t); }
      case FrcPop => DrainedFrc(); OtherLoose(s, t);
      case _ => OtherLoose(s, t);
    }
  }

  lemma DrainedFrc()
    ensures Drained(FrcPop)
  {
  }

  lemma OtherLoose(s: State, t: Tid)
    requires LooseInv(s) && CanStep(s, t) && Shape(s) && Role(t, s.threads[t].pc)
    requires var pc := s.threads[t].pc;
             || (pc.EnqPop? && s.q.pool == []) || pc.EnqSignal? || pc.RmvSignal? || pc.DrainTest? || pc.CloseEnter?
             || (pc.RelCheck? && pc.p !in s.q.release) || (pc.CntSet? && pc.p !in s.q.release)
             || (pc.LoopPop? && s.q.recv == []) || (pc.FrcPop? && s.q.release == []) || pc.FrcSignal?
             || (pc.Freeing? && s.q.pool == [])
    ensures LooseInv(Step(s, t))
  {
    hide LooseInv, Shape, Still, Role, Step, CanStep;
    OtherStill(s, t);
    StillKeeps(s, Step(s, t), t);
  }

  // ----- runs

  lemma RuledStill(s: State, act: Action)
    requires Shape(s) && Enabled(s, act) && act.CallRelease? && !Damages(s, act)
    ensures Still(s, LooseNext(s, act), act.t)
  {
    hide ValidMagic;
  }

  lemma BeginStill(s: State, act: Action)
    requires Shape(s) && LooseEnabled(s, act) && act.CallRelease?
    ensures Still(s, LooseNext(s, act), act.t)
  {
    hide ValidMagic, Still;
    if Enabled(s, act) {
      RuledStill(s, act);
    } else {
      GoStill(s, act.t, RelEnter(act.p, 0));
    }
  }

  lemma SetCountStill(s: State, act: Action)
    requires Shape(s) && LooseEnabled(s, act) && act.CallSetCount?
    ensures Still(s, LooseNext(s, act), act.t)
  {
    hide ValidMagic;
  }

  lemma AcquireStill(s: State, t: Tid)
    requires Shape(s) && CanAcquire(s, t)
    ensures Still(s, Acquired(s, t), t)
  {
    hide ValidMagic, Carried, Role, Drained, Holds, Wants;
  }

  lemma EnterStill(s: State, act: Action)
    requires Shape(s) && LooseEnabled(s, act) && (act.Arrive? || act.CallClose?)
    ensures Still(s, LooseNext(s, act), if act.Arrive? then act.t else CLOSING_THREAD)
  {
    hide ValidMagic, Still;
    GoStill(s, if act.Arrive? then act.t else CLOSING_THREAD, if act.Arrive? then EnqEnter(act.m) else CloseEnter);
  }

  lemma WakeStill(s: State, act: Action)
    requires Shape(s) && LooseEnabled(s, act) && (act.Wakeup? || act.Timeout?)
    ensures Still(s, LooseNext(s, act), STREAM_THREAD)
  {
    hide ValidMagic, Still;
    var pc' := if act.Timeout? then DrainLate
               else if s.threads[STREAM_THREAD].pc == LoopWait then LoopEnter else DrainEnter;
    GoStill(s, STREAM_THREAD, pc');
  }

  lemma LooseShape(s: State)
    requires LooseInv(s)
    ensures Shape(s)
  {
  }

  lemma LooseActionKeeps(s: State, act: Action)
    requires LooseInv(s) && LooseEnabled(s, act)
    ensures LooseInv(LooseNext(s, act))
  {
    hide LooseInv, Shape, Still, CanStep, Step, Holds, Wants;
    LooseShape(s);
    match act
    case Run(t) => StepLoose(s, t);
    case Acquire(t) => AcquireStill(s, t); StillKeeps(s, LooseNext(s, act), t);
    case Arrive(t, m) => EnterStill(s, act); StillKeeps(s, LooseNext(s, act), t);
    case CallRelease(t, p) => BeginStill(s, act); StillKeeps(s, LooseNext(s, act), t);
    case CallSetCount(t, p, n) => SetCountStill(s, act); StillKeeps(s, LooseNext(s, act), t);
    case CallClose => EnterStill(s, act); StillKeeps(s, LooseNext(s, act), CLOSING_THREAD);
    case Wakeup => WakeStill(s, act); StillKeeps(s, LooseNext(s, act), STREAM_THREAD);
    case Timeout => WakeStill(s, act); StillKeeps(s, LooseNext(s, act), STREAM_THREAD);
  }

  /** Whatever clients release, the lists stay lists, every node stays at its one place, and zeroed nodes stay zeroed
      until they are filled - until a node is removed that is not listed. */
  lemma {:induction false} LooseRunInv(run: seq<State>, acts: seq<Action>, i: nat)
    requires IsLooseRun(run, acts) && i < |run|
    ensures LooseInv(run[i])
  {
    hide LooseInv, LooseEnabled, LooseNext, Init;
    if i == 0 {
      InitLoose(run[0]);
    } else {
      LooseRunInv(run, acts, i - 1);
      LooseActionKeeps(run[i - 1], acts[i - 1]);
    }
  }

  lemma LooseConserved(s: State)
    requires LooseInv(s)
    ensures Conserved(s)
  {
    hide ListsOk, LooseNodes, LooseThreads, Carried, Elems, InHand, NoDup, Conserved;
    LooseHands(s);
    LoosePlaced(s);
    PartsConserve(s);
  }

  lemma LooseHands(s: State)
    requires Shape(s) && LooseThreads(s)
    ensures forall t :: t in s.threads && Carried(s.threads[t].pc).Some? ==>
                          var a := Carried(s.threads[t].pc).value; a in s.nodes && s.place[a] == With(t)
  {
    hide Role, Drained, Carried;
    forall t | t in s.threads && Carried(s.threads[t].pc).Some?
      ensures var a := Carried(s.threads[t].pc).value; a in s.nodes && s.place[a] == With(t)
    {
      assert LooseThread(s, t);
    }
  }

  lemma LoosePlaced(s: State)
    requires Shape(s) && LooseNodes(s)
    ensures s.nodes <= Elems(s.q.pool) + Elems(s.q.recv) + Elems(s.q.release) + Elems(s.freed) + InHand(s)
  {
    hide Carried, Loaded;
    forall a | a in s.nodes
      ensures a in Elems(s.q.pool) + Elems(s.q.recv) + Elems(s.q.release) + Elems(s.freed) + InHand(s)
    {
      assert LooseNode(s, a);
    }
  }

  /** Conservation does not depend on the rule for clients: it holds in every run up to such a removal. */
  lemma LooseConservation(run: seq<State>, acts: seq<Action>, i: nat)
    requires IsLooseRun(run, acts) && i < |run|
    ensures Conserved(run[i])
  {
    hide LooseInv, IsLooseRun, Conserved;
    LooseRunInv(run, acts, i);
    LooseConserved(run[i]);
  }
}
