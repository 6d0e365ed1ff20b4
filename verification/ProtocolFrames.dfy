/** What a step leaves alone, part by part of the invariant: a node, a life, a thread or a pair of threads that
    the step does not touch stays as the invariant wants it. */
module ProtocolFrames {
  import opened Options
  import opened Bytes
  import opened StreamMessage
  import opened QueueSpec
  import opened Protocol
  import opened ProtocolInvariant

  // ----- nodes

  /** The node at `a` still serves the same life, which has not changed. */
  ghost predicate LifeKept(s: State, s': State, a: Addr)
    requires Shape(s) && Shape(s')
  {
    HasLife(s, a) ==>
      && HasLife(s', a) && s'.owner[a] == s.owner[a] && LifeOf(s', a) == LifeOf(s, a)
      && s'.accepted[s.owner[a]] == s.accepted[s.owner[a]]
  }

  ghost predicate NodeKept(s: State, s': State, a: Addr)
    requires Shape(s) && Shape(s') && a in s.nodes
  {
    && s'.conv == s.conv && s'.nodes == s.nodes
    && s'.place[a] == s.place[a] && s'.q.cells[a] == s.q.cells[a]
    && LifeKept(s, s', a)
    && (s.place[a] == InPool && a in s.q.pool ==> a in s'.q.pool)
    && (s.place[a] == InRecv && a in s.q.recv ==> a in s'.q.recv)
    && (s.place[a] == InRelease && a in s.q.release ==> a in s'.q.release)
    && (s.place[a] == Freed && a in s.freed ==> a in s'.freed)
    && (s.place[a].With? ==>
          var u := s.place[a].t;
          u in s.threads && Carried(s.threads[u].pc) == Some(a) ==>
            u in s'.threads && Carried(s'.threads[u].pc) == Some(a))
  }

  lemma NodeFrame(s: State, s': State, a: Addr)
    requires Shape(s) && Shape(s') && a in s.nodes && NodeOk(s, a) && NodeKept(s, s', a)
    ensures NodeOk(s', a)
  {
  }

  // ----- lives

  ghost predicate LifeUnmoved(s: State, s': State, k: nat)
    requires Shape(s) && Shape(s') && k < |s.lives|
  {
    && s'.nodes == s.nodes
    && k < |s'.lives| && s'.lives[k] == s.lives[k] && s'.accepted[k] == s.accepted[k]
    && (s.taken <= k <==> s'.taken <= k)
    && var l := s.lives[k];
    && (l.node in s.nodes ==> s'.place[l.node] == s.place[l.node])
    && (l.node in s.owner && s.owner[l.node] == k ==> l.node in s'.owner && s'.owner[l.node] == k)
    && var pc, pc' := s.threads[STREAM_THREAD].pc, s'.threads[STREAM_THREAD].pc;
    && (l.stage == Taken ==> TakenBy(pc') == TakenBy(pc))
    && (l.stage == Listed ==> ListedBy(pc') == ListedBy(pc))
  }

  lemma LifeFrame(s: State, s': State, k: nat)
    requires Shape(s) && Shape(s') && k < |s.lives| && LifeOk(s, k)
    requires s'.nodes == s.nodes
    requires LifeUnmoved(s, s', k) || (Recycling(s, k) && LifeUnplaced(s, s', k))
    ensures LifeOk(s', k)
  {
  }

  /** A recycled life no longer depends on where its node is. */
  predicate Recycling(s: State, k: nat)
    requires k < |s.lives|
  {
    s.lives[k].stage == Recycled
  }

  ghost predicate LifeUnplaced(s: State, s': State, k: nat)
    requires Shape(s) && Shape(s') && k < |s.lives|
  {
    k < |s'.lives| && s'.lives[k] == s.lives[k] && s'.accepted[k] == s.accepted[k] && (s.taken <= k <==> s'.taken <= k)
  }

  // ----- threads

  /** A thread that did not move, or that was waiting and has been woken. */
  predicate Woken(th: Thread, th': Thread) {
    || th' == th
    || (th.pc == LoopWait && th' == Thread(LoopEnter, false))
    || (th.pc == DrainWait && th' == Thread(DrainEnter, false))
  }

  /** The node whose life this thread relies on. */
  function Subject(pc: Pc): Option<Addr> {
    if Uncounted(pc).Some? then Some(Uncounted(pc).value.0)
    else if Closing(pc).Some? then Closing(pc)
    else if Setting(pc).Some? then Setting(pc)
    else if TakenBy(pc).Some? then TakenBy(pc)
    else ListedBy(pc)
  }

  /** The life of `p` has moved on, but the release call `call` is still to be counted. */
  ghost predicate CallKept(s: State, s': State, p: Addr, call: nat)
    requires Shape(s) && Shape(s')
  {
    Serves(s, p) ==>
      && Serves(s', p)
      && var l, l' := LifeOf(s, p), LifeOf(s', p);
      l'.stage == l.stage && l.begun <= l'.begun && (call in l'.counted ==> call in l.counted)
  }

  ghost predicate SubjectKept(s: State, s': State, u: Tid)
    requires Shape(s) && Shape(s') && u in s.threads
  {
    && s'.conv == s.conv && s'.nodes == s.nodes
    && var pc := s.threads[u].pc;
    && (Carried(pc).Some? && Carried(pc).value in s.nodes ==>
          var a := Carried(pc).value; s'.place[a] == s.place[a] && s'.q.cells[a] == s.q.cells[a])
    && (Subject(pc).Some? && Subject(pc).value in s.nodes ==>
          var p := Subject(pc).value;
          && s'.place[p] == s.place[p]
          && (LifeKept(s, s', p) || (Uncounted(pc).Some? && CallKept(s, s', p, Uncounted(pc).value.1))))
  }

  ghost predicate ThreadKept(s: State, s': State, u: Tid)
    requires Shape(s) && Shape(s') && u in s.threads
  {
    && SubjectKept(s, s', u)
    && u in s'.threads && Woken(s.threads[u], s'.threads[u])
    && var pc := s.threads[u].pc;
    && (pc.EnqPop? || pc.EnqPush? || pc.EnqSignal? ==> s'.stop == s.stop)
    && (TakenBy(pc).Some? || ListedBy(pc).Some? ==> s'.taken == s.taken)
    && (Draining(pc) && s.stop && s.q.recv == [] ==> s'.stop && s'.q.recv == [])
    && (Drained(pc) ==>
          && (s.q.release == [] ==> s'.q.release == [])
          && forall a :: a in s.nodes && s.place[a] in {InPool, Freed} ==> s'.place[a] in {InPool, Freed})
    && (u == CLOSING_THREAD ==> s'.stop == s.stop)
    && (pc.CheckRecv? || pc.CheckRelease? || pc.Freeing? || pc.Closed? ==>
          s'.threads[STREAM_THREAD].pc == s.threads[STREAM_THREAD].pc)
    && (pc.Closed? && s.threads[STREAM_THREAD].pc == Exited(true) && s.q.pool == [] ==> s'.q.pool == [])
  }

  lemma CarryFrame(s: State, s': State, u: Tid)
    requires Shape(s) && Shape(s') && u in s.threads && CarryOk(s, u) && ThreadKept(s, s', u)
    ensures CarryOk(s', u)
  {
  }

  lemma ClientFrame(s: State, s': State, u: Tid)
    requires Shape(s) && Shape(s') && u in s.threads && ClientOk(s, u) && ThreadKept(s, s', u)
    ensures ClientOk(s', u)
  {
  }

  lemma StreamFrame(s: State, s': State, u: Tid)
    requires Shape(s) && Shape(s') && u in s.threads && StreamOk(s, u) && CarryOk(s, u) && ThreadKept(s, s', u)
    ensures StreamOk(s', u)
  {
  }

  lemma CloserFrame(s: State, s': State, u: Tid)
    requires Shape(s) && Shape(s') && u in s.threads && CloserOk(s, u) && CarryOk(s, u) && ThreadKept(s, s', u)
    ensures CloserOk(s', u)
  {
  }

  lemma ThreadFrame(s: State, s': State, u: Tid)
    requires Shape(s) && Shape(s') && u in s.threads && ThreadOk(s, u) && ThreadKept(s, s', u)
    ensures ThreadOk(s', u)
  {
    hide CarryOk, ClientOk, StreamOk, CloserOk, ThreadKept, Shape;
    CarryFrame(s, s', u);
    ClientFrame(s, s', u);
    StreamFrame(s, s', u);
    CloserFrame(s, s', u);
  }

  // ----- pairs of threads

  /** Thread `t`, now at `th'`, claims nothing that another thread claims. */
  ghost predicate NoNewClaims(s: State, t: Tid, th': Thread)
    requires t in s.threads
  {
    forall u :: u in s.threads && u != t ==>
      && LocksApart(th', s.threads[u]) && LocksApart(s.threads[u], th')
      && ClaimsApart(s.nodes, th'.pc, s.threads[u].pc) && ClaimsApart(s.nodes, s.threads[u].pc, th'.pc)
  }

  ghost predicate OthersWoken(s: State, s': State, t: Tid) {
    && s'.threads.Keys == s.threads.Keys
    && forall u :: u in s.threads && u != t ==> Woken(s.threads[u], s'.threads[u])
  }

  /** A woken thread holds no lock and claims nothing. */
  lemma WokenClaims(th: Thread, th': Thread)
    requires Woken(th, th')
    ensures forall l :: Holds(th', l) ==> Holds(th, l)
    ensures th' == th || (Closing(th'.pc) == None && Uncounted(th'.pc) == None && Setting(th'.pc) == None)
  {
  }

  lemma PairFrame(s: State, s': State, t: Tid, u: Tid, v: Tid)
    requires t in s.threads && u in s.threads && v in s.threads && u != v && s'.nodes == s.nodes
    requires PairOk(s, u, v)
    requires OthersWoken(s, s', t) && NoNewClaims(s, t, s'.threads[t])
    ensures PairOk(s', u, v)
  {
    hide Holds, Closing, Uncounted, Setting;
    if u != t {
      WokenClaims(s.threads[u], s'.threads[u]);
    }
    if v != t {
      WokenClaims(s.threads[v], s'.threads[v]);
    }
  }

  lemma PairsFrame(s: State, s': State, t: Tid)
    requires t in s.threads && s'.nodes == s.nodes
    requires forall u, v :: u in s.threads && v in s.threads && u != v ==> PairOk(s, u, v)
    requires OthersWoken(s, s', t) && NoNewClaims(s, t, s'.threads[t])
    ensures forall u, v :: u in s'.threads && v in s'.threads && u != v ==> PairOk(s', u, v)
  {
    hide PairOk, NoNewClaims;
    forall u, v | u in s'.threads && v in s'.threads && u != v
      ensures PairOk(s', u, v)
    {
      PairFrame(s, s', t, u, v);
    }
  }

  // ----- history

  /** Nothing was accepted, dispatched, refused or sent. */
  ghost predicate HistoryKept(s: State, s': State) {
    && s'.conv == s.conv && s'.accepted == s.accepted && s'.calls == s.calls
    && s'.refused == s.refused && s'.wire == s.wire && |s'.lives| == |s.lives|
    && forall k :: 0 <= k < |s.lives| ==> s'.lives[k].sent == s.lives[k].sent
  }

  lemma HistoryFrame(s: State, s': State)
    requires Shape(s) && Shape(s') && HistoryOk(s) && HistoryKept(s, s') && Dispatched(s') == Dispatched(s)
    ensures HistoryOk(s')
  {
    forall i | 0 <= i < |s'.wire|
      ensures WireOk(s', s'.wire[i])
    {
      assert WireOk(s, s.wire[i]);
    }
  }

  // ----- a step about one node

  /** From `s` to `s'` only the node at `a`, its place on the lists and the life `k` changed. */
  ghost predicate OnlyNode(s: State, s': State, a: Addr, k: nat)
    requires Shape(s) && Shape(s')
  {
    && s'.conv == s.conv && s'.nodes == s.nodes
    && (forall b :: b in s.nodes && b != a ==> s'.place[b] == s.place[b] && s'.q.cells[b] == s.q.cells[b])
    && (forall b :: b in s.owner && b != a ==> b in s'.owner && s'.owner[b] == s.owner[b])
    && (forall b :: b in s.q.pool && b != a ==> b in s'.q.pool)
    && (forall b :: b in s.q.recv && b != a ==> b in s'.q.recv)
    && (forall b :: b in s.q.release && b != a ==> b in s'.q.release)
    && (forall b :: b in s.freed && b != a ==> b in s'.freed)
    && OnlyLife(s, s', a, k)
  }

  ghost predicate OnlyLife(s: State, s': State, a: Addr, k: nat) {
    && |s.lives| <= |s'.lives| && |s.accepted| == |s.lives| && |s'.accepted| == |s'.lives|
    && (forall j :: 0 <= j < |s.lives| ==> s'.accepted[j] == s.accepted[j])
    && (forall j :: 0 <= j < |s.lives| && j != k ==> s'.lives[j] == s.lives[j])
    && (|s'.lives| > |s.lives| ==> k == |s.lives| && |s'.lives| == k + 1)
    && (s'.taken == s.taken || (k == s.taken && s'.taken == k + 1))
    && (k < |s.lives| ==> s.lives[k].node == a)
  }

  /** No life but `k` is at the node `a`: the earlier ones there are over. */
  ghost predicate OthersElsewhere(s: State, a: Addr, k: nat) {
    forall j :: 0 <= j < |s.lives| && j != k && s.lives[j].node == a ==> s.lives[j].stage == Recycled
  }

  lemma NodesFrame(s: State, s': State, t: Tid, a: Addr, k: nat)
    requires Shape(s) && Shape(s') && NodesOk(s) && OnlyNode(s, s', a, k) && OthersWoken(s, s', t)
    requires t in s.threads && Carried(s.threads[t].pc) in {None, Some(a)}
    requires a in s.nodes ==> NodeOk(s', a)
    ensures NodesOk(s')
  {
    hide NodeOk, OnlyLife;
    forall b | b in s.nodes && b != a
      ensures NodeOk(s', b)
    {
      NodeFrameOne(s, s', t, a, k, b);
    }
  }

  lemma NodeFrameOne(s: State, s': State, t: Tid, a: Addr, k: nat, b: Addr)
    requires Shape(s) && Shape(s') && b in s.nodes && b != a && NodeOk(s, b)
    requires OnlyNode(s, s', a, k) && OthersWoken(s, s', t)
    requires t in s.threads && Carried(s.threads[t].pc) in {None, Some(a)}
    ensures NodeOk(s', b)
  {
  }

  /** The stream thread neither takes up nor finishes a message, except that of node `a`. */
  predicate DispatchKept(pc: Pc, pc': Pc, a: Addr) {
    && (TakenBy(pc') == TakenBy(pc) || TakenBy(pc) in {None, Some(a)})
    && (ListedBy(pc') == ListedBy(pc) || ListedBy(pc) in {None, Some(a)})
  }

  lemma LivesFrame(s: State, s': State, a: Addr, k: nat)
    requires Shape(s) && Shape(s') && LivesOk(s) && OnlyNode(s, s', a, k) && OthersElsewhere(s, a, k)
    requires k < |s'.lives| ==> LifeOk(s', k)
    requires DispatchKept(s.threads[STREAM_THREAD].pc, s'.threads[STREAM_THREAD].pc, a)
    ensures LivesOk(s')
  {
    hide LifeOk;
    forall j | 0 <= j < |s'.lives|
      ensures LifeOk(s', j)
    {
      if j != k {
        LifeFrameOne(s, s', a, k, j);
      }
    }
  }

  lemma LifeFrameOne(s: State, s': State, a: Addr, k: nat, j: nat)
    requires Shape(s) && Shape(s') && j < |s.lives| && j != k && LifeOk(s, j)
    requires OnlyNode(s, s', a, k) && (s.lives[j].node == a ==> s.lives[j].stage == Recycled)
    requires DispatchKept(s.threads[STREAM_THREAD].pc, s'.threads[STREAM_THREAD].pc, a)
    ensures LifeOk(s', j)
  {
    LifeFrame(s, s', j);
  }

  /** What a thread other than `t` does not rely on, thread `t` may change. */
  ghost predicate NotSubject(s: State, t: Tid, a: Addr) {
    forall u :: u in s.threads && u != t ==> Carried(s.threads[u].pc) != Some(a) && Subject(s.threads[u].pc) != Some(a)
  }

  /** While the stream thread drains, nothing is queued; once it has drained, every node stays home; and after a
      drained close the pool stays empty. */
  ghost predicate StaysDrained(s: State, s': State, t: Tid, a: Addr)
    requires Shape(s) && Shape(s')
  {
    var pc := s.threads[STREAM_THREAD].pc;
    && (t != STREAM_THREAD && Draining(pc) && s.q.recv == [] ==> s'.q.recv == [])
    && (t != STREAM_THREAD && Drained(pc) ==>
          && (s.q.release == [] ==> s'.q.release == [])
          && (a in s.nodes && a in s'.nodes && s.place[a] in {InPool, Freed} ==> s'.place[a] in {InPool, Freed}))
    && (t != CLOSING_THREAD && pc == Exited(true) && s.q.pool == [] ==> s'.q.pool == [])
    && (t == STREAM_THREAD ==> !pc.Exited?)
  }

  lemma SubjectKeptOne(s: State, s': State, t: Tid, a: Addr, k: nat, u: Tid)
    requires Shape(s) && Shape(s') && t in s.threads && u in s.threads && u != t
    requires OnlyNode(s, s', a, k) && NotSubject(s, t, a)
    ensures SubjectKept(s, s', u)
  {
  }

  lemma ThreadKeptOne(s: State, s': State, t: Tid, a: Addr, k: nat, u: Tid)
    requires Shape(s) && Shape(s') && t in s.threads && u in s.threads && u != t && ThreadOk(s, u)
    requires OthersWoken(s, s', t) && OnlyNode(s, s', a, k) && SubjectKept(s, s', u)
    requires s'.stop == s.stop && (t != STREAM_THREAD ==> s'.taken == s.taken)
    requires StaysDrained(s, s', t, a)
    ensures ThreadKept(s, s', u)
  {
    hide SubjectKept, ClientOk, StreamOk, OnlyLife;
  }
}
