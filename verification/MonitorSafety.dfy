/** Every step of the locking code keeps both halves of the invariant. */
module MonitorSafety {
  import opened Options
  import opened MonitorModel
  import opened MonitorInvariant
  import opened MonitorQueue

  // ---------------------------------------------------------------------------
  // Steps that leave other threads' waiter lists alone

  lemma ReadUnqueued(s: State, t: Tid, c: Choice)
    requires Queued(s) && Enabled(s, t, c)
    requires s.threads[t].pc.Idle? || s.threads[t].pc.Retry? || s.threads[t].pc.ReadUnlock? || s.threads[t].pc.Released?
    ensures Unqueued(s, Step(s, t, c), t)
  {
    hide Queued;
  }

  lemma CasUnqueued(s: State, t: Tid, x: Obj, seen: LockWord)
    requires t in s.threads && x in s.words && s.threads[t].pc == Cas(x, seen)
    ensures Unqueued(s, TryCas(s, t, x, seen), t)
  {
    if s.words[x] == Unlocked { TakenUnqueued(s, t, x); } else { FailedUnqueued(s, t, AfterCas(t, x, seen)); }
  }

  lemma TakenUnqueued(s: State, t: Tid, x: Obj)
    requires t in s.threads && x in s.words && s.threads[t].pc.Cas? && s.words[x] == Unlocked
    ensures Unqueued(s, SetPc(s, t, Pc.Idle).(words := s.words[x := Thin(t, 0)], held := s.held + multiset{(t, x)}), t)
  {
  }

  lemma FailedUnqueued(s: State, t: Tid, pc: Pc)
    requires t in s.threads && s.threads[t].pc.Cas? && Outside(pc) && !Serving(pc)
    ensures Unqueued(s, SetPc(s, t, pc), t)
  {
  }

  lemma RelockUnqueued(s: State, t: Tid, x: Obj, c: nat)
    requires t in s.threads && x in s.words && s.threads[t].pc == Bump(x, c)
    requires s.words[x] == Thin(t, c)
    ensures Unqueued(s, Relock(s, t, x, c), t)
  {
  }

  lemma LockFatUnqueued(s: State, t: Tid, x: Obj, id: FatId)
    requires t in s.threads && s.threads[t].pc == EnterFat(x, id)
    requires id in s.fat && FatOk(s, s.fat[id]) && (s.fat[id].recursion == 0 || s.fat[id].owner == Some(t))
    ensures Unqueued(s, LockFat(s, t, x, id), t)
  {
  }

  lemma GiveUpUnqueued(s: State, t: Tid, x: Obj, k: Cont)
    requires t in s.threads && s.threads[t].pc == Pc.Inflate(x, k)
    ensures Unqueued(s, SetPc(s, t, if k == ToRetry then Pc.Idle else AfterInflate(x, k)), t)
  {
  }

  lemma TakeFatUnqueued(s: State, t: Tid, x: Obj, k: Cont, fail: bool)
    requires t in s.threads && s.threads[t].pc == Pc.Inflate(x, k)
    requires s.nextId !in s.fat
    ensures Unqueued(s, TakeFat(s, t, x, k, fail), t)
  {
    if s.free == [] && (fail || s.nextId >= s.limit) {
      GiveUpUnqueued(s, t, x, k);
    } else {
      var s' := TakeFat(s, t, x, k, fail);
      assert s'.threads[t].pc.StoreFat?;
      hide AfterInflate;
    }
  }

  lemma FattenUnqueued(s: State, t: Tid, x: Obj, id: FatId, k: Cont)
    requires t in s.threads && s.threads[t].pc == StoreFat(x, id, k)
    requires x in s.words && s.words[x].Thin? && s.words[x].owner == t && InHand(s, id)
    ensures Unqueued(s, Fatten(s, t, x, id, k), t)
  {
  }

  lemma UnlockThinUnqueued(s: State, t: Tid, x: Obj, c: nat)
    requires t in s.threads && x in s.words && s.words[x] == Thin(t, c)
    requires s.threads[t].pc == Unlocking(x, Thin(t, c))
    ensures Unqueued(s, UnlockThin(s, t, x, c), t)
  {
  }

  lemma UnlockFatUnqueued(s: State, t: Tid, x: Obj, id: FatId)
    requires FatPlaced(s) && t in s.threads && s.threads[t].pc == Unlocking(x, Fat(id))
    requires x in s.words && s.words[x] == Fat(id) && id in s.fat && s.fat[id].recursion > 0 && s.fat[id].owner == Some(t)
    ensures Unqueued(s, UnlockFat(s, t, x, id), t)
  {
    var s' := UnlockFat(s, t, x, id);
    forall y, o | y in s.words && Owner(s, y) == Some(o)
      ensures Owner(s', y) == Some(o) || (o == t && Unserved(s'.threads[t].pc, y))
    {
      assert y != x && s.words[y].Fat? ==> s.words[y].id != id;
    }
    hide FatPlaced;
  }

  lemma UnlockUnqueued(s: State, t: Tid, x: Obj, seen: LockWord)
    requires FatPlaced(s) && t in s.threads && s.threads[t].pc == Unlocking(x, seen)
    requires x in s.words && KnownWord(s, t, x, seen)
    ensures Unqueued(s, TryUnlock(s, t, x, seen), t)
  {
    hide FatPlaced;
    if seen.Thin? && seen.owner == t {
      UnlockThinUnqueued(s, t, x, seen.count);
    } else if seen.Fat? && s.fat[seen.id].recursion > 0 && s.fat[seen.id].owner == Some(t) {
      UnlockFatUnqueued(s, t, x, seen.id);
    }
  }

  lemma WakeUnqueued(s: State, t: Tid, x: Obj, pending: seq<Tid>)
    requires t in s.threads && s.threads[t].pc == Waking(x, pending) && pending != []
    ensures Unqueued(s, WakeNext(s, t, x, pending), t)
  {
  }

  /** The steps at which waiter lists, flags and mutexes change. */
  ghost predicate Touches(pc: Pc) {
    Queues(pc) || pc.WakeIn? || (pc.Waking? && pc.pending == [])
  }

  lemma StepUnqueued(s: State, t: Tid, c: Choice)
    requires Sound(s) && Queued(s) && Enabled(s, t, c) && !Touches(s.threads[t].pc)
    ensures Unqueued(s, Step(s, t, c), t)
  {
    hide Queued, Unqueued, Local, FatOk, FatPlaced, Counted;
    var pc := s.threads[t].pc;
    TypedLocal(s, t);
    match pc
    case Cas(x, seen) => CasUnqueued(s, t, x, seen);
    case Bump(x, n) => BumpKnows(s, t, x, n); RelockUnqueued(s, t, x, n);
    case Inflate(x, k) => TakeFatUnqueued(s, t, x, k, c == NoFatLock);
    case StoreFat(x, id, k) => StoreFatKnows(s, t, x, id, k); FattenUnqueued(s, t, x, id, k);
    case EnterFat(x, id) => FatKnows(s, id); LockFatUnqueued(s, t, x, id);
    case Unlocking(x, seen) => UnlockingKnows(s, t, x, seen); UnlockUnqueued(s, t, x, seen);
    case Waking(x, pending) => WakeUnqueued(s, t, x, pending);
    case _ => ReadUnqueued(s, t, c);
  }

  lemma BumpKnows(s: State, t: Tid, x: Obj, n: nat)
    requires Typed(s) && t in s.threads && s.threads[t].pc == Bump(x, n)
    ensures x in s.words && s.words[x] == Thin(t, n)
  {
  }

  lemma FatKnows(s: State, id: FatId)
    requires FatPlaced(s) && id in s.fat
    ensures FatOk(s, s.fat[id])
  {
  }

  // ---------------------------------------------------------------------------
  // Steps inside the critical section of a waiter list

  ghost predicate SameLists(s: State, s': State, t: Tid) {
    && Quiet(s, s', t)
    && (forall u :: u in s.threads && u != t ==> s'.threads[u].waitObj == s.threads[u].waitObj)
    && (forall x :: Releasing(s.threads[t].pc, x) ==> Releasing(s'.threads[t].pc, x))
  }

  lemma ListKept(s: State, s': State, t: Tid, o: Tid)
    requires o in s.threads && ListOk(s, o) && SameLists(s, s', t)
    requires s'.threads[o].waiters == s.threads[o].waiters
    requires s'.threads[o].waiters == [] || s'.threads[o].contention || !s.threads[o].contention
    requires t !in s.threads[o].waiters || WaiterOk(s', o, t)
    ensures ListOk(s', o)
  {
  }

  /** The record of `o` is as it was for whoever holds its mutex. */
  ghost predicate SameRecord(s: State, s': State, o: Tid) {
    && o in s.threads && o in s'.threads
    && s'.threads[o].contention == s.threads[o].contention && s'.threads[o].waiters == s.threads[o].waiters
    && forall x :: Unserved(s.threads[o].pc, x) ==> Unserved(s'.threads[o].pc, x)
  }

  lemma PointKept(s: State, s': State, t: Tid, u: Tid)
    requires Quiet(s, s', t) && u in s.threads && u != t && PointOk(s, u, s.threads[u].pc)
    requires forall o :: o in s.threads && InSection(s, u, o) ==> SameRecord(s, s', o)
    ensures PointOk(s', u, s'.threads[u].pc)
  {
    var pc := s.threads[u].pc;
    if pc.Recheck? || pc.Enqueue? || pc.Restore? || pc.QueueOut? {
      assert InSection(s, u, pc.o);
    } else if Serving(pc) {
      assert InSection(s, u, u);
    }
  }

  /** Records change only where the mutex is held by no one else, and pass from `t` to `t`. */
  ghost predicate Exclusive(s: State, s': State, t: Tid) {
    && SameLists(s, s', t)
    && (forall o :: o in s.threads ==>
          SameRecord(s, s', o) || s.threads[o].mutex == None || s.threads[o].mutex == Some(t))
    && (forall o :: o in s.threads ==>
          && (s.threads[o].mutex == None || s.threads[o].mutex == Some(t) || s'.threads[o].mutex == s.threads[o].mutex)
          && (s'.threads[o].mutex == None || s'.threads[o].mutex == Some(t) || s'.threads[o].mutex == s.threads[o].mutex)
          && (s'.threads[o].mutex == Some(t) <==> InSection(s', t, o)))
  }

  lemma ExclusivePoints(s: State, s': State, t: Tid)
    requires Queued(s) && Exclusive(s, s', t)
    requires PointOk(s', t, s'.threads[t].pc)
    ensures MutexOk(s') && MutexHolders(s')
    ensures forall u :: u in s'.threads ==> PointOk(s', u, s'.threads[u].pc)
  {
    hide PointOk, ListOk;
    forall u | u in s'.threads && u != t
      ensures PointOk(s', u, s'.threads[u].pc)
    {
      forall o | o in s.threads && InSection(s, u, o)
        ensures SameRecord(s, s', o)
      {
        assert s.threads[o].mutex == Some(u);
      }
      PointKept(s, s', t, u);
    }
    forall o, u | o in s'.threads && u in s'.threads
      ensures s'.threads[o].mutex == Some(u) <==> InSection(s', u, o)
    {
      assert s.threads[o].mutex == Some(u) <==> InSection(s, u, o);
    }
  }

  /** A thread not asleep and not notified is on no list. */
  lemma Unlisted(s: State, t: Tid, o: Tid)
    requires o in s.threads && t in s.threads && ListOk(s, o)
    requires !((s.threads[t].pc.QueueOut? && s.threads[t].pc.notified) || s.threads[t].pc.Waiting?) || s.threads[t].pc.o != o
    ensures t !in s.threads[o].waiters
  {
  }

  /** Waiter lists and flags keep what they promise. */
  ghost predicate ListsStay(s: State, s': State, t: Tid) {
    forall p :: p in s.threads ==>
      && p in s'.threads && s'.threads[p].waiters == s.threads[p].waiters
      && (s'.threads[p].waiters == [] || s'.threads[p].contention || !s.threads[p].contention)
  }

  ghost predicate Listed(pc: Pc) {
    (pc.QueueOut? && pc.notified) || pc.Waiting?
  }

  lemma ExclusiveQueued(s: State, s': State, t: Tid)
    requires Queued(s) && Exclusive(s, s', t) && ListsStay(s, s', t) && !Listed(s.threads[t].pc)
    requires PointOk(s', t, s'.threads[t].pc)
    ensures Queued(s')
  {
    hide ListOk, PointOk, MutexOk, MutexHolders;
    forall p | p in s'.threads
      ensures ListOk(s', p)
    {
      Unlisted(s, t, p);
      ListKept(s, s', t, p);
    }
    ExclusivePoints(s, s', t);
  }

  /** A thread holds exactly the mutexes of the sections it is in. */
  ghost predicate OwnMutexes(s: State, t: Tid) {
    t in s.threads && forall o :: o in s.threads ==> (s.threads[o].mutex == Some(t) <==> InSection(s, t, o))
  }

  lemma KnowsOwnMutexes(s: State, t: Tid)
    requires Queued(s) && t in s.threads
    ensures OwnMutexes(s, t) && PointOk(s, t, s.threads[t].pc) && ListOk(s, t)
  {
  }

  lemma QueueInExclusive(s: State, t: Tid, x: Obj, o: Tid)
    requires OwnMutexes(s, t) && o in s.threads && o != t && s.threads[t].pc == Contend(x, o) && s.threads[o].mutex == None
    ensures Exclusive(s, QueueIn(s, t, x, o), t) && ListsStay(s, QueueIn(s, t, x, o), t)
  {
    var s' := QueueIn(s, t, x, o);
    QueueInRecords(s, t, x, o);
    hide QueueIn;
    forall p | p in s.threads
      ensures s'.threads[p].mutex == Some(t) <==> InSection(s', t, p)
    {
      assert s.threads[p].mutex == Some(t) <==> InSection(s, t, p);
    }
  }

  lemma QueueInRecords(s: State, t: Tid, x: Obj, o: Tid)
    requires t in s.threads && o in s.threads && o != t && s.threads[t].pc == Contend(x, o)
    ensures var s' := QueueIn(s, t, x, o);
            && Quiet(s, s', t) && s'.threads[t] == s.threads[t].(pc := Recheck(x, o, s.threads[o].contention))
            && s'.threads[o] == s.threads[o].(mutex := Some(t), contention := true)
            && forall p :: p in s.threads && p != o && p != t ==> s'.threads[p] == s.threads[p]
  {
  }

  lemma QueueInPoint(s: State, t: Tid, x: Obj, o: Tid)
    requires t in s.threads && o in s.threads && o != t && ListOk(s, o)
    ensures PointOk(QueueIn(s, t, x, o), t, Recheck(x, o, s.threads[o].contention))
  {
  }

  lemma QueueInQueued(s: State, t: Tid, x: Obj, o: Tid)
    requires Queued(s) && t in s.threads && o in s.threads && o != t
    requires s.threads[t].pc == Contend(x, o) && s.threads[o].mutex == None
    ensures Queued(QueueIn(s, t, x, o))
  {
    hide Queued, PointOk, Exclusive, ListsStay, OwnMutexes;
    KnowsOwnMutexes(s, t);
    KnowsOwnMutexes(s, o);
    QueueInExclusive(s, t, x, o);
    QueueInPoint(s, t, x, o);
    ExclusiveQueued(s, QueueIn(s, t, x, o), t);
  }

  lemma CheckOwnerExclusive(s: State, t: Tid, x: Obj, o: Tid, f: bool)
    requires OwnMutexes(s, t) && x in s.words && s.threads[t].pc == Recheck(x, o, f)
    ensures Exclusive(s, CheckOwner(s, t, x, o, f), t) && ListsStay(s, CheckOwner(s, t, x, o, f), t)
  {
  }

  lemma CheckOwnerPoint(s: State, t: Tid, x: Obj, o: Tid, f: bool)
    requires t in s.threads && x in s.words && PointOk(s, t, Recheck(x, o, f))
    requires RecheckPasses(s.words[x], o) ==> Owner(s, x) == Some(o) || Mistakable(s.words[x], o)
    ensures var s' := CheckOwner(s, t, x, o, f); PointOk(s', t, s'.threads[t].pc)
  {
  }

  /** The lockword comparison finds the owner, unless a fat lock's id looks like the thread's. */
  lemma PassesOwned(s: State, x: Obj, o: Tid)
    requires Typed(s) && x in s.words && o in s.threads && RecheckPasses(s.words[x], o)
    ensures Owner(s, x) == Some(o) || Mistakable(s.words[x], o)
  {
  }

  lemma CheckOwnerQueued(s: State, t: Tid, x: Obj, o: Tid, f: bool)
    requires Typed(s) && Queued(s) && t in s.threads && x in s.words && o in s.threads
    requires s.threads[t].pc == Recheck(x, o, f)
    ensures Queued(CheckOwner(s, t, x, o, f))
  {
    hide Queued, PointOk, Exclusive, ListsStay, OwnMutexes, Typed;
    KnowsOwnMutexes(s, t);
    CheckOwnerExclusive(s, t, x, o, f);
    if RecheckPasses(s.words[x], o) { PassesOwned(s, x, o); }
    CheckOwnerPoint(s, t, x, o, f);
    ExclusiveQueued(s, CheckOwner(s, t, x, o, f), t);
  }

  lemma InsertExclusive(s: State, t: Tid, x: Obj, o: Tid)
    requires OwnMutexes(s, t) && o in s.threads && o != t && s.threads[t].pc == Enqueue(x, o)
    ensures Exclusive(s, Insert(s, t, x, o), t)
  {
  }

  lemma InsertPoint(s: State, t: Tid, x: Obj, o: Tid)
    requires t in s.threads && o in s.threads && o != t
    ensures PointOk(Insert(s, t, x, o), t, QueueOut(x, o, true))
  {
  }

  lemma InsertedList(s: State, t: Tid, x: Obj, o: Tid)
    requires t in s.threads && o in s.threads && o != t && ListOk(s, o) && t !in s.threads[o].waiters
    requires s.threads[t].pc == Enqueue(x, o) && PointOk(s, t, Enqueue(x, o))
    ensures ListOk(Insert(s, t, x, o), o)
  {
  }

  lemma InsertQueued(s: State, t: Tid, x: Obj, o: Tid)
    requires Queued(s) && t in s.threads && o in s.threads && o != t
    requires s.threads[t].pc == Enqueue(x, o)
    ensures Queued(Insert(s, t, x, o))
  {
    hide ListOk, PointOk, MutexOk, MutexHolders, OwnMutexes;
    var s' := Insert(s, t, x, o);
    KnowsOwnMutexes(s, t);
    InsertExclusive(s, t, x, o);
    forall p | p in s'.threads
      ensures ListOk(s', p)
    {
      Unlisted(s, t, p);
      if p == o { InsertedList(s, t, x, o); } else { ListKept(s, s', t, p); }
    }
    InsertPoint(s, t, x, o);
    ExclusivePoints(s, s', t);
  }

  lemma RestoreExclusive(s: State, t: Tid, x: Obj, o: Tid, f: bool)
    requires OwnMutexes(s, t) && o in s.threads && o != t && s.threads[t].pc == Restore(x, o, f)
    requires !f ==> s.threads[o].waiters == []
    ensures Exclusive(s, RestoreFlag(s, t, x, o, f), t) && ListsStay(s, RestoreFlag(s, t, x, o, f), t)
  {
    var s' := RestoreFlag(s, t, x, o, f);
    RestoreRecords(s, t, x, o, f);
    hide RestoreFlag;
    forall p | p in s.threads
      ensures s'.threads[p].mutex == Some(t) <==> InSection(s', t, p)
    {
      assert s.threads[p].mutex == Some(t) <==> InSection(s, t, p);
    }
  }

  lemma RestoreRecords(s: State, t: Tid, x: Obj, o: Tid, f: bool)
    requires t in s.threads && o in s.threads && o != t && s.threads[t].pc == Restore(x, o, f)
    ensures var s' := RestoreFlag(s, t, x, o, f);
            && Quiet(s, s', t) && s'.threads[t] == s.threads[t].(pc := QueueOut(x, o, false))
            && s'.threads[o] == s.threads[o].(contention := f)
            && forall p :: p in s.threads && p != o && p != t ==> s'.threads[p] == s.threads[p]
  {
  }

  lemma RestoreQueued(s: State, t: Tid, x: Obj, o: Tid, f: bool)
    requires Queued(s) && t in s.threads && o in s.threads && o != t
    requires s.threads[t].pc == Restore(x, o, f)
    ensures Queued(RestoreFlag(s, t, x, o, f))
  {
    hide Queued, Exclusive, ListsStay, OwnMutexes;
    KnowsOwnMutexes(s, t);
    RestoreExclusive(s, t, x, o, f);
    ExclusiveQueued(s, RestoreFlag(s, t, x, o, f), t);
  }

  lemma LeaveExclusive(s: State, t: Tid, x: Obj, o: Tid, notified: bool)
    requires OwnMutexes(s, t) && o in s.threads && o != t && s.threads[t].pc == QueueOut(x, o, notified)
    ensures Exclusive(s, Leave(s, t, x, o, notified), t) && ListsStay(s, Leave(s, t, x, o, notified), t)
  {
    var s' := Leave(s, t, x, o, notified);
    LeaveRecords(s, t, x, o, notified);
    hide Leave;
    forall p | p in s.threads
      ensures s'.threads[p].mutex == Some(t) <==> InSection(s', t, p)
    {
      assert s.threads[p].mutex == Some(t) <==> p == o;
    }
  }

  lemma LeaveRecords(s: State, t: Tid, x: Obj, o: Tid, notified: bool)
    requires t in s.threads && o in s.threads && o != t && s.threads[t].pc == QueueOut(x, o, notified)
    ensures var s' := Leave(s, t, x, o, notified);
            && Quiet(s, s', t) && s'.threads[t] == s.threads[t].(pc := if notified then Waiting(x, o) else Retry(x))
            && s'.threads[o] == s.threads[o].(mutex := None)
            && forall p :: p in s.threads && p != o && p != t ==> s'.threads[p] == s.threads[p]
  {
  }

  lemma LeaverListed(s: State, t: Tid, x: Obj, o: Tid, notified: bool, p: Tid)
    requires t in s.threads && o in s.threads && o != t && p in s.threads && ListOk(s, p)
    requires s.threads[t].pc == QueueOut(x, o, notified)
    ensures t !in s.threads[p].waiters || WaiterOk(Leave(s, t, x, o, notified), p, t)
  {
  }

  lemma LeavePoint(s: State, t: Tid, x: Obj, o: Tid, notified: bool)
    requires t in s.threads && o in s.threads
    ensures var s' := Leave(s, t, x, o, notified); PointOk(s', t, if notified then Waiting(x, o) else Retry(x))
  {
  }

  lemma LeaveQueued(s: State, t: Tid, x: Obj, o: Tid, notified: bool)
    requires Queued(s) && t in s.threads && o in s.threads && o != t
    requires s.threads[t].pc == QueueOut(x, o, notified)
    ensures Queued(Leave(s, t, x, o, notified))
  {
    hide ListOk, PointOk, MutexOk, MutexHolders, WaiterOk, OwnMutexes;
    var s' := Leave(s, t, x, o, notified);
    KnowsOwnMutexes(s, t);
    LeaveExclusive(s, t, x, o, notified);
    forall p | p in s'.threads
      ensures ListOk(s', p)
    {
      LeaverListed(s, t, x, o, notified, p);
      ListKept(s, s', t, p);
    }
    LeavePoint(s, t, x, o, notified);
    ExclusivePoints(s, s', t);
  }

  lemma WokenExclusive(s: State, t: Tid, x: Obj, o: Tid)
    requires OwnMutexes(s, t) && s.threads[t].pc == Waiting(x, o)
    ensures Exclusive(s, Woken(s, t, x), t) && ListsStay(s, Woken(s, t, x), t)
  {
  }

  lemma WokenQueued(s: State, t: Tid, x: Obj, o: Tid)
    requires Queued(s) && t in s.threads && o in s.threads && t !in s.threads[o].waiters
    requires s.threads[t].pc == Waiting(x, o)
    ensures Queued(Woken(s, t, x))
  {
    hide ListOk, MutexOk, MutexHolders, OwnMutexes;
    var s' := Woken(s, t, x);
    KnowsOwnMutexes(s, t);
    WokenExclusive(s, t, x, o);
    forall p | p in s'.threads
      ensures ListOk(s', p)
    {
      if p != o { Unlisted(s, t, p); }
      ListKept(s, s', t, p);
    }
    ExclusivePoints(s, s', t);
  }

  lemma BeginExclusive(s: State, t: Tid, x: Obj)
    requires OwnMutexes(s, t) && s.threads[t].pc == WakeIn(x) && s.threads[t].mutex == None
    ensures Exclusive(s, BeginWaking(s, t, x), t) && ListsStay(s, BeginWaking(s, t, x), t)
  {
  }

  lemma BeginQueued(s: State, t: Tid, x: Obj)
    requires Queued(s) && t in s.threads && s.threads[t].pc == WakeIn(x) && s.threads[t].mutex == None
    ensures Queued(BeginWaking(s, t, x))
  {
    hide Queued, Exclusive, ListsStay, OwnMutexes;
    KnowsOwnMutexes(s, t);
    BeginExclusive(s, t, x);
    ExclusiveQueued(s, BeginWaking(s, t, x), t);
  }

  lemma EndedList(s: State, t: Tid, x: Obj, p: Tid)
    requires t in s.threads && p in s.threads && ListOk(s, p)
    requires s.threads[t].pc == Waking(x, [])
    ensures ListOk(EndWaking(s, t), p)
  {
  }

  lemma EndedPoint(s: State, t: Tid, x: Obj, u: Tid)
    requires MutexOk(s) && t in s.threads && u in s.threads && PointOk(s, u, s.threads[u].pc)
    requires s.threads[t].pc == Waking(x, [])
    ensures PointOk(EndWaking(s, t), u, EndWaking(s, t).threads[u].pc)
  {
    assert InSection(s, t, t);
    assert s.threads[t].mutex == Some(t);
    assert u != t ==> !InSection(s, u, t);
  }

  lemma EndedMutexes(s: State, t: Tid, x: Obj)
    requires MutexOk(s) && MutexHolders(s) && t in s.threads && s.threads[t].pc == Waking(x, [])
    ensures MutexOk(EndWaking(s, t)) && MutexHolders(EndWaking(s, t))
  {
    var s' := EndWaking(s, t);
    assert s.threads[t].mutex == Some(t) <==> InSection(s, t, t);
    forall o, u | o in s'.threads && u in s'.threads
      ensures s'.threads[o].mutex == Some(u) <==> InSection(s', u, o)
    {
      assert s.threads[o].mutex == Some(u) <==> InSection(s, u, o);
    }
  }

  lemma EndQueued(s: State, t: Tid, x: Obj)
    requires Queued(s) && t in s.threads && s.threads[t].pc == Waking(x, [])
    ensures Queued(EndWaking(s, t))
  {
    hide ListOk, PointOk, MutexOk, MutexHolders;
    var s' := EndWaking(s, t);
    forall p | p in s'.threads
      ensures ListOk(s', p) && PointOk(s', p, s'.threads[p].pc)
    {
      EndedList(s, t, x, p);
      EndedPoint(s, t, x, p);
    }
    EndedMutexes(s, t, x);
  }

  // ---------------------------------------------------------------------------
  // Every step and every recycling

  lemma TouchesQueued(s: State, t: Tid, c: Choice)
    requires Sound(s) && Queued(s) && Enabled(s, t, c) && Touches(s.threads[t].pc)
    ensures Queued(Step(s, t, c))
  {
    hide Queued, Typed, Local, Counted, FatPlaced;
    TypedLocal(s, t);
    if Queues(s.threads[t].pc) { QueueLocal(s, t, s.threads[t].pc); }
    match s.threads[t].pc
    case Contend(x, o) => QueueInQueued(s, t, x, o);
    case Recheck(x, o, f) => CheckOwnerQueued(s, t, x, o, f);
    case Enqueue(x, o) => InsertQueued(s, t, x, o);
    case Restore(x, o, f) => RestoreQueued(s, t, x, o, f);
    case QueueOut(x, o, notified) => LeaveQueued(s, t, x, o, notified);
    case Waiting(x, o) => WokenQueued(s, t, x, o);
    case WakeIn(x) => BeginQueued(s, t, x);
    case Waking(x, pending) => EndQueued(s, t, x);
  }

  lemma QueueLocal(s: State, t: Tid, pc: Pc)
    requires Local(s, t, pc) && Queues(pc)
    ensures pc.o in s.threads && pc.o != t
  {
  }

  lemma StepQueued(s: State, t: Tid, c: Choice)
    requires Sound(s) && Queued(s) && Enabled(s, t, c)
    ensures Queued(Step(s, t, c))
  {
    hide Queued, Sound, Unqueued, Step;
    if Touches(s.threads[t].pc) {
      TouchesQueued(s, t, c);
    } else {
      StepUnqueued(s, t, c);
      UnqueuedQueued(s, Step(s, t, c), t);
    }
  }

  lemma RecycledOwners(s: State, x: Obj)
    requires FatPlaced(s) && CanRecycle(s, x)
    ensures SameOwners(s, Recycle(s, x))
  {
  }

  /** Owners stay, and so do the words threads are working on. */
  ghost predicate SameOwners(s: State, s': State) {
    && s'.threads == s.threads && s'.words.Keys == s.words.Keys
    && (forall y :: y in s.words ==> Owner(s', y) == Owner(s, y))
    && forall t, y :: t in s.threads && y in PcObjs(s.threads[t].pc) && y in s.words ==> s'.words[y] == s.words[y]
  }

  lemma SameOwnersList(s: State, s': State, o: Tid)
    requires SameOwners(s, s') && o in s.threads && ListOk(s, o)
    ensures ListOk(s', o)
  {
  }

  lemma SameOwnersPoint(s: State, s': State, t: Tid)
    requires SameOwners(s, s') && t in s.threads && PointOk(s, t, s.threads[t].pc)
    ensures PointOk(s', t, s.threads[t].pc)
  {
  }

  lemma RecycleQueued(s: State, x: Obj)
    requires FatPlaced(s) && Queued(s) && CanRecycle(s, x)
    ensures Queued(Recycle(s, x))
  {
    hide FatPlaced, CanRecycle, Owner, ListOk, PointOk;
    var s' := Recycle(s, x);
    RecycledOwners(s, x);
    forall o | o in s'.threads
      ensures ListOk(s', o) && PointOk(s', o, s'.threads[o].pc)
    {
      SameOwnersList(s, s', o);
      SameOwnersPoint(s, s', o);
    }
  }
}
