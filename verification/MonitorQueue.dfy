/** What every step keeps, part two: waiter lists, contention flags and their mutexes. */
module MonitorQueue {
  import opened Options
  import opened MonitorModel
  import opened MonitorInvariant

  /** Inside the critical section of another thread's waiter list. */
  ghost predicate Visiting(pc: Pc, o: Tid) {
    (pc.Recheck? || pc.Enqueue? || pc.Restore? || pc.QueueOut?) && pc.o == o
  }

  /** Inside the critical section of its own waiter list. */
  ghost predicate Serving(pc: Pc) {
    pc.Waking? || ((pc.Inflate? || pc.StoreFat?) && pc.k.ToWaking?)
  }

  ghost function Pending(pc: Pc): seq<Tid>
    requires Serving(pc)
  {
    if pc.Waking? then pc.pending else pc.k.pending
  }

  /** On the way from a release to emptying its own waiter list. */
  ghost predicate Releasing(pc: Pc, x: Obj) {
    Unserved(pc, x) || (pc.Waking? && pc.x == x) || ((pc.Inflate? || pc.StoreFat?) && pc.k.ToWaking? && pc.k.released == x)
  }

  /** On that way, and the list is still to be locked. */
  ghost predicate Unserved(pc: Pc, x: Obj) {
    (pc.Released? || pc.WakeIn?) && pc.x == x
  }

  ghost predicate InSection(s: State, t: Tid, o: Tid)
    requires t in s.threads
  {
    Visiting(s.threads[t].pc, o) || (t == o && Serving(s.threads[t].pc))
  }

  ghost predicate MutexOk(s: State) {
    forall o, t :: o in s.threads && t in s.threads ==> (s.threads[o].mutex == Some(t) <==> InSection(s, t, o))
  }

  ghost predicate MutexHolders(s: State) {
    forall o :: o in s.threads && s.threads[o].mutex.Some? ==> s.threads[o].mutex.value in s.threads
  }

  /** A fat lockword that reads like a thin one of `o`: the thread's id is in the high bits of the lock's. */
  predicate Mistakable(w: LockWord, o: Tid) {
    w.Fat? && w.id / FAT_IDS_PER_TID == o
  }

  /** `o` holds `x`, or is on the way to waking everyone who waits for it, or is taken for
      the owner by the recheck. */
  ghost predicate WillWake(s: State, o: Tid, x: Obj) {
    && x in s.words && o in s.threads
    && (Owner(s, x) == Some(o) || Releasing(s.threads[o].pc, x) || Mistakable(s.words[x], o))
  }

  ghost predicate WaiterOk(s: State, o: Tid, w: Tid) {
    && w in s.threads
    && var pc := s.threads[w].pc;
    && ((pc.QueueOut? && pc.notified) || pc.Waiting?)
    && pc.o == o && s.threads[w].waitObj == Some(pc.x)
    && WillWake(s, o, pc.x)
  }

  ghost predicate ListOk(s: State, o: Tid)
    requires o in s.threads
  {
    && (s.threads[o].waiters != [] ==> s.threads[o].contention)
    && (forall i :: 0 <= i < |s.threads[o].waiters| ==> WaiterOk(s, o, s.threads[o].waiters[i]))
  }

  /** What being at a point of the queueing code says about the owner's record. */
  ghost predicate PointOk(s: State, t: Tid, pc: Pc) {
    match pc
    case Recheck(_, o, f) => o in s.threads && s.threads[o].contention && (!f ==> s.threads[o].waiters == [])
    case Enqueue(x, o) => o in s.threads && s.threads[o].contention && x in s.words &&
      (Owner(s, x) == Some(o) || Unserved(s.threads[o].pc, x) || Mistakable(s.words[x], o))
    case Restore(_, o, f) => o in s.threads && (!f ==> s.threads[o].waiters == [])
    case QueueOut(_, o, notified) => o in s.threads && (notified ==> t in s.threads[o].waiters)
    case _ => t in s.threads && (Serving(pc) ==> forall i :: 0 <= i < |Pending(pc)| ==> Pending(pc)[i] in s.threads[t].waiters)
  }

  ghost predicate Queued(s: State) {
    && MutexOk(s) && MutexHolders(s)
    && (forall o :: o in s.threads ==> ListOk(s, o))
    && (forall t :: t in s.threads ==> PointOk(s, t, s.threads[t].pc))
  }

  /** A waking thread inflates only thin locks it owns itself. */
  lemma WakingOwns(s: State, t: Tid)
    requires Queued(s)
    ensures WakesOwn(s, t)
  {
    hide MutexOk, MutexHolders;
    if t in s.threads && s.threads[t].pc.Waking? && s.threads[t].pc.pending != [] {
      var w := s.threads[t].pc.pending[0];
      assert PointOk(s, t, s.threads[t].pc);
      assert Pending(s.threads[t].pc)[0] == w;
      assert ListOk(s, t) && w in s.threads[t].waiters;
      assert WaiterOk(s, t, w);
    }
  }

  // ---------------------------------------------------------------------------
  // Steps outside all critical sections, and inside the thread's own

  ghost predicate Outside(pc: Pc) {
    !pc.Recheck? && !pc.Enqueue? && !pc.Restore? && !pc.QueueOut? && !pc.Waiting?
  }

  /** Only `t`'s program point, words and fat locks change, and no one loses an owner who will wake him. */
  ghost predicate Unqueued(s: State, s': State, t: Tid) {
    && t in s.threads && t in s'.threads && s'.words.Keys == s.words.Keys
    && var pc, pc' := s.threads[t].pc, s'.threads[t].pc;
    && s'.threads == s.threads[t := s.threads[t].(pc := pc')]
    && Outside(pc) && Outside(pc')
    && (Serving(pc) <==> Serving(pc'))
    && (Serving(pc) ==> forall i :: 0 <= i < |Pending(pc')| ==> Pending(pc')[i] in Pending(pc))
    && (forall x :: x in s.words && s.words[x].Fat? ==> s'.words[x] == s.words[x])
    && (forall x, o :: x in s.words && Owner(s, x) == Some(o) ==> Owner(s', x) == Some(o) || (o == t && Unserved(pc', x)))
    && (s.threads[t].contention || Serving(pc) ==>
          forall x :: (Releasing(pc, x) ==> Releasing(pc', x)) && (Unserved(pc, x) ==> Unserved(pc', x)))
  }

  lemma UnqueuedWakes(s: State, s': State, t: Tid, o: Tid, x: Obj)
    requires Queued(s) && Unqueued(s, s', t) && WillWake(s, o, x)
    requires o == t ==> s.threads[t].contention || Serving(s.threads[t].pc)
    ensures WillWake(s', o, x)
  {
    hide Queued;
  }

  lemma UnqueuedList(s: State, s': State, t: Tid, o: Tid)
    requires Queued(s) && Unqueued(s, s', t) && o in s.threads
    ensures ListOk(s', o)
  {
    assert ListOk(s, o);
    forall i | 0 <= i < |s'.threads[o].waiters|
      ensures WaiterOk(s', o, s'.threads[o].waiters[i])
    {
      var w := s.threads[o].waiters[i];
      assert WaiterOk(s, o, w);
      UnqueuedWakes(s, s', t, o, s.threads[w].pc.x);
    }
  }

  lemma UnqueuedPoint(s: State, s': State, t: Tid, u: Tid)
    requires Unqueued(s, s', t) && u in s.threads && PointOk(s, u, s.threads[u].pc)
    requires s.threads[u].pc.Enqueue? ==> s.threads[t].contention || s.threads[u].pc.o != t
    ensures PointOk(s', u, s'.threads[u].pc)
  {
    if u == t {
      var pc, pc' := s.threads[t].pc, s'.threads[t].pc;
      if Serving(pc') {
        forall i | 0 <= i < |Pending(pc')|
          ensures Pending(pc')[i] in s'.threads[t].waiters
        {
          assert Pending(pc')[i] in Pending(pc);
        }
      }
    }
  }

  lemma EnqueueContended(s: State, u: Tid)
    requires u in s.threads && PointOk(s, u, s.threads[u].pc)
    ensures s.threads[u].pc.Enqueue? ==> s.threads[u].pc.o in s.threads && s.threads[s.threads[u].pc.o].contention
  {
  }

  lemma UnqueuedQueued(s: State, s': State, t: Tid)
    requires Queued(s) && Unqueued(s, s', t)
    ensures Queued(s')
  {
    hide ListOk, PointOk;
    forall o | o in s'.threads
      ensures ListOk(s', o)
    {
      UnqueuedList(s, s', t, o);
    }
    forall u | u in s'.threads
      ensures PointOk(s', u, s'.threads[u].pc)
    {
      assert PointOk(s, u, s.threads[u].pc);
      EnqueueContended(s, u);
      UnqueuedPoint(s, s', t, u);
    }
    assert MutexOk(s') by {
      forall o, u | o in s'.threads && u in s'.threads
        ensures s'.threads[o].mutex == Some(u) <==> InSection(s', u, o)
      {
        assert s.threads[o].mutex == Some(u) <==> InSection(s, u, o);
      }
    }
  }
}
