/** What holds in every reachable state of the locking code, and what does not. */
module MonitorRuns {
  import opened Options
  import opened MonitorModel
  import opened MonitorInvariant
  import opened MonitorQueue
  import opened MonitorSafety

  /** While a thread inflates for a waiter, that waiter is still on its work list. */
  ghost predicate WorkLeft(pc: Pc) {
    (pc.Inflate? || pc.StoreFat?) && pc.k.ToWaking? ==> pc.k.pending != []
  }

  /** A thread that holds the object it unlocks has read the word that is still there. */
  ghost predicate Fresh(s: State) {
    forall t :: t in s.threads && s.threads[t].pc.Unlocking? && s.held[(t, s.threads[t].pc.x)] > 0 ==>
      s.threads[t].pc.x in s.words && s.words[s.threads[t].pc.x] == s.threads[t].pc.seen
  }

  ghost predicate Inv(s: State) {
    Sound(s) && Queued(s) && Fresh(s) && forall t :: t in s.threads ==> WorkLeft(s.threads[t].pc)
  }

  lemma InitInv(s: State)
    requires Init(s)
    ensures Inv(s)
  {
    forall t, x
      ensures s.held[(t, x)] == Depth(s, t, x)
    {
    }
    assert Typed(s) by {
      forall t | t in s.threads
        ensures Local(s, t, s.threads[t].pc)
      {
      }
    }
    assert FatPlaced(s);
    assert MutexOk(s);
    forall o | o in s.threads
      ensures ListOk(s, o) && PointOk(s, o, s.threads[o].pc)
    {
    }
  }

  /** Where a step takes the thread that makes it. */
  ghost function NextPc(s: State, t: Tid, c: Choice): Pc
    requires Enabled(s, t, c)
  {
    match s.threads[t].pc
    case Idle => if c.Lock? then Retry(c.x) else ReadUnlock(c.x)
    case Retry(x) => Cas(x, s.words[x])
    case Cas(x, seen) => if s.words[x] == Unlocked then Pc.Idle else AfterCas(t, x, seen)
    case Inflate(x, k) =>
      if s.free != [] then StoreFat(x, s.free[0], k)
      else if c == NoFatLock || s.nextId >= s.limit then if k == ToRetry then Pc.Idle else AfterInflate(x, k)
      else StoreFat(x, s.nextId, k)
    case StoreFat(x, _, k) => AfterInflate(x, k)
    case Bump(_, _) => Pc.Idle
    case EnterFat(_, _) => Pc.Idle
    case Unlocking(x, seen) => TryUnlock(s, t, x, seen).threads[t].pc
    case Waking(x, pending) =>
      if pending == [] then Pc.Idle
      else if NeedsInflation(s, x, pending[0]) then Pc.Inflate(s.threads[pending[0]].waitObj.value, ToWaking(x, pending))
      else Waking(x, pending[1..])
    case _ => Step(s, t, c).threads[t].pc
  }

  ghost predicate StepsTo(s: State, s': State, t: Tid, pc: Pc) {
    && t in s'.threads && s'.threads[t].pc == pc
    && forall u :: u in s'.threads ==> u in s.threads && (u != t ==> s'.threads[u].pc == s.threads[u].pc)
  }

  lemma QueueStepsTo(s: State, t: Tid, c: Choice)
    requires Enabled(s, t, c) && Queues(s.threads[t].pc)
    ensures StepsTo(s, Step(s, t, c), t, NextPc(s, t, c))
    ensures WorkLeft(NextPc(s, t, c)) && !NextPc(s, t, c).Fault?
  {
  }

  lemma UnlockStepsTo(s: State, t: Tid, x: Obj, seen: LockWord)
    requires t in s.threads && x in s.words
    ensures var s' := TryUnlock(s, t, x, seen);
            t in s'.threads && StepsTo(s, s', t, s'.threads[t].pc) && (s'.threads[t].pc.Idle? || s'.threads[t].pc.Released?)
  {
  }

  lemma UnlockStep(s: State, t: Tid, c: Choice)
    requires Enabled(s, t, c) && s.threads[t].pc.Unlocking?
    ensures var pc := s.threads[t].pc;
            Step(s, t, c) == TryUnlock(s, t, pc.x, pc.seen) && (t in Step(s, t, c).threads ==> NextPc(s, t, c) == Step(s, t, c).threads[t].pc)
  {
  }

  lemma OtherStepsTo(s: State, t: Tid, c: Choice)
    requires Enabled(s, t, c) && WorkLeft(s.threads[t].pc)
    requires !Queues(s.threads[t].pc) && !s.threads[t].pc.Unlocking?
    ensures StepsTo(s, Step(s, t, c), t, NextPc(s, t, c))
    ensures WorkLeft(NextPc(s, t, c)) && (NextPc(s, t, c).Fault? ==> s.threads[t].pc.Cas?)
  {
  }

  lemma StepWork(s: State, t: Tid, c: Choice)
    requires Enabled(s, t, c) && WorkLeft(s.threads[t].pc)
    ensures StepsTo(s, Step(s, t, c), t, NextPc(s, t, c))
    ensures WorkLeft(NextPc(s, t, c)) && (NextPc(s, t, c).Fault? ==> s.threads[t].pc.Cas?)
  {
    hide Step, NextPc, StepsTo;
    var pc := s.threads[t].pc;
    if Queues(pc) {
      QueueStepsTo(s, t, c);
    } else if pc.Unlocking? {
      UnlockStepsTo(s, t, pc.x, pc.seen);
      UnlockStep(s, t, c);
    } else {
      OtherStepsTo(s, t, c);
    }
  }

  /** A step changes no count of another thread, and no word but a free one or its own. */
  ghost predicate Mine(s: State, s': State, t: Tid) {
    && s'.words.Keys == s.words.Keys
    && (forall y :: y in s.words ==> s'.words[y] == s.words[y] || s.words[y] == Unlocked || (s.words[y].Thin? && s.words[y].owner == t))
    && (forall u, y :: u != t ==> s'.held[(u, y)] == s.held[(u, y)])
  }

  lemma QueueMine(s: State, t: Tid, c: Choice)
    requires Enabled(s, t, c) && Queues(s.threads[t].pc)
    ensures Mine(s, Step(s, t, c), t)
  {
  }

  lemma UnlockMine(s: State, t: Tid, x: Obj, seen: LockWord)
    requires t in s.threads && x in s.words && KnownWord(s, t, x, seen)
    ensures Mine(s, TryUnlock(s, t, x, seen), t)
  {
  }

  lemma OtherMine(s: State, t: Tid, c: Choice)
    requires Enabled(s, t, c) && Local(s, t, s.threads[t].pc) && !Queues(s.threads[t].pc) && !s.threads[t].pc.Unlocking?
    ensures Mine(s, Step(s, t, c), t)
  {
  }

  /** A thread begins to unlock with the word that is there. */
  lemma OtherUnlocking(s: State, t: Tid, c: Choice)
    requires Enabled(s, t, c) && !Queues(s.threads[t].pc) && !s.threads[t].pc.Unlocking?
    ensures NextPc(s, t, c).Unlocking? ==> var x := NextPc(s, t, c).x; x in s.words && NextPc(s, t, c) == Unlocking(x, s.words[x]) && Step(s, t, c).words == s.words
  {
    hide Local;
  }

  lemma StepMine(s: State, t: Tid, c: Choice)
    requires Sound(s) && Enabled(s, t, c) && WorkLeft(s.threads[t].pc)
    ensures Mine(s, Step(s, t, c), t)
    ensures NextPc(s, t, c).Unlocking? ==> var x := NextPc(s, t, c).x; x in s.words && NextPc(s, t, c) == Unlocking(x, s.words[x]) && Step(s, t, c).words == s.words
  {
    hide Mine, NextPc, Step, Local, Counted, FatPlaced;
    var pc := s.threads[t].pc;
    TypedLocal(s, t);
    if Queues(pc) {
      QueueMine(s, t, c);
      QueueNext(s, t, c);
    } else if pc.Unlocking? {
      UnlockingKnows(s, t, pc.x, pc.seen);
      UnlockMine(s, t, pc.x, pc.seen);
      UnlockStepsTo(s, t, pc.x, pc.seen);
      UnlockStep(s, t, c);
    } else {
      OtherMine(s, t, c);
      OtherUnlocking(s, t, c);
    }
  }

  lemma QueueNext(s: State, t: Tid, c: Choice)
    requires Enabled(s, t, c) && Queues(s.threads[t].pc)
    ensures !NextPc(s, t, c).Unlocking?
  {
  }

  lemma StepFresh(s: State, t: Tid, c: Choice)
    requires Sound(s) && Fresh(s) && Enabled(s, t, c) && WorkLeft(s.threads[t].pc)
    ensures Fresh(Step(s, t, c))
  {
    hide NextPc, Step, Typed, FatPlaced;
    StepMine(s, t, c);
    StepWork(s, t, c);
    var s' := Step(s, t, c);
    forall u | u in s'.threads && s'.threads[u].pc.Unlocking? && s'.held[(u, s'.threads[u].pc.x)] > 0
      ensures s'.threads[u].pc.x in s'.words && s'.words[s'.threads[u].pc.x] == s'.threads[u].pc.seen
    {
      if u != t {
        assert s.held[(u, s.threads[u].pc.x)] == Depth(s, u, s.threads[u].pc.x);
      }
    }
  }

  lemma RecycleFresh(s: State, x: Obj)
    requires Fresh(s) && CanRecycle(s, x)
    ensures Fresh(Recycle(s, x))
  {
  }

  lemma NextInv(s: State, s': State)
    requires Inv(s) && Next(s, s')
    ensures Inv(s')
  {
    hide Typed, Counted, FatPlaced, Queued, Step, CanRecycle;
    if t, c :| Enabled(s, t, c) && s' == Step(s, t, c) {
      WakingOwns(s, t);
      StepSound(s, t, c);
      StepQueued(s, t, c);
      StepWork(s, t, c);
      StepFresh(s, t, c);
    } else {
      var x :| CanRecycle(s, x) && s' == Recycle(s, x);
      RecycleSound(s, x);
      RecycleQueued(s, x);
      RecycleFresh(s, x);
    }
  }

  lemma {:induction false} RunInv(r: seq<State>, i: nat)
    requires Run(r) && i < |r|
    ensures Inv(r[i])
  {
    hide Inv;
    if i == 0 {
      InitInv(r[0]);
    } else {
      RunInv(r, i - 1);
      assert Next(r[i - 1], r[i - 1 + 1]);
      NextInv(r[i - 1], r[i]);
    }
  }

  // ---------------------------------------------------------------------------
  // Mutual exclusion and counts

  /** Two threads never hold the same object, and the word or its fat lock
      carries exactly the acquisitions less the releases. */
  lemma OneOwner(r: seq<State>, i: nat, x: Obj, t: Tid)
    requires Run(r) && i < |r| && x in r[i].words && r[i].held[(t, x)] > 0
    ensures Owner(r[i], x) == Some(t)
    ensures forall u :: u != t ==> r[i].held[(u, x)] == 0
    ensures match r[i].words[x]
            case Unlocked => false
            case Thin(o, c) => o == t && c + 1 == r[i].held[(t, x)] <= MAX_THIN_RECURSION
            case Fat(id) => id in r[i].fat && r[i].fat[id] == FatLock(Some(t), r[i].held[(t, x)])
  {
    RunInv(r, i);
    assert Counted(r[i]) && r[i].held[(t, x)] == Depth(r[i], t, x);
    forall u | u != t
      ensures r[i].held[(u, x)] == 0
    {
      assert r[i].held[(u, x)] == Depth(r[i], u, x);
    }
    assert WordOk(r[i], r[i].words[x]);
  }

  /** No fat lock serves two objects, and one on the free list serves none and is unowned. */
  lemma FatLocksPlaced(r: seq<State>, i: nat, id: FatId)
    requires Run(r) && i < |r| && id in r[i].fat
    ensures forall x, y :: x in r[i].words && y in r[i].words && r[i].words[x] == Fat(id) && r[i].words[y] == Fat(id) ==> x == y
    ensures id in r[i].free ==> r[i].fat[id] == FatLock(None, 0) && forall x :: x in r[i].words ==> r[i].words[x] != Fat(id)
  {
    RunInv(r, i);
  }

  /** An unlock takes back one acquisition exactly when the thread has one; otherwise
      (the exception) it changes nothing but where the thread is. */
  lemma UnlockExactly(s: State, t: Tid, c: Choice, x: Obj, seen: LockWord)
    requires Inv(s) && Enabled(s, t, c) && s.threads[t].pc == Unlocking(x, seen)
    ensures var s' := Step(s, t, c);
            if s.held[(t, x)] > 0 then
              s'.held == s.held - multiset{(t, x)} && Depth(s', t, x) == s.held[(t, x)] - 1
            else s' == SetPc(s, t, Pc.Idle)
  {
    WakingOwns(s, t);
    StepSound(s, t, c);
    StepIsUnlock(s, t, c, x, seen);
    assert s.held[(t, x)] == Depth(s, t, x);
    assert Step(s, t, c).held[(t, x)] == Depth(Step(s, t, c), t, x);
    hide Inv, Sound, Step;
    UnlockHeld(s, t, x, seen);
  }

  lemma StepIsUnlock(s: State, t: Tid, c: Choice, x: Obj, seen: LockWord)
    requires Inv(s) && Enabled(s, t, c) && s.threads[t].pc == Unlocking(x, seen)
    ensures x in s.words && Step(s, t, c) == TryUnlock(s, t, x, seen) && KnownWord(s, t, x, seen) && FatPlaced(s)
    ensures s.held[(t, x)] > 0 ==> s.words[x] == seen
  {
    hide Queued, TryUnlock;
    UnlockingKnows(s, t, x, seen);
  }

  lemma UnlockHeld(s: State, t: Tid, x: Obj, seen: LockWord)
    requires t in s.threads && x in s.words && KnownWord(s, t, x, seen) && FatPlaced(s)
    requires Depth(s, t, x) > 0 ==> s.words[x] == seen
    ensures var s' := TryUnlock(s, t, x, seen);
            if Depth(s, t, x) > 0 then s'.held == s.held - multiset{(t, x)} else s' == SetPc(s, t, Pc.Idle)
  {
  }

  // ---------------------------------------------------------------------------
  // No lost wakeup

  /** Whoever waits on a thread's list has raised its contention flag, and that thread
      holds the object waited for, is on the way to emptying the list, or was taken for the
      owner of a fat lock with its id in the high bits. Where no such lock has been made, the
      thread holds the object or is on that way. */
  lemma NoLostWakeup(r: seq<State>, i: nat, o: Tid, w: Tid)
    requires Run(r) && i < |r| && o in r[i].threads && w in r[i].threads[o].waiters
    ensures r[i].threads[o].contention && w in r[i].threads && r[i].threads[w].waitObj.Some?
    ensures var x := r[i].threads[w].waitObj.value;
            x in r[i].words && (Owner(r[i], x) == Some(o) || Releasing(r[i].threads[o].pc, x) || Mistakable(r[i].words[x], o))
    ensures r[i].nextId <= FAT_IDS_PER_TID * o ==>
              var x := r[i].threads[w].waitObj.value; Owner(r[i], x) == Some(o) || Releasing(r[i].threads[o].pc, x)
  {
    RunInv(r, i);
    WaiterKnows(r[i], o, w);
  }

  lemma WaiterKnows(s: State, o: Tid, w: Tid)
    requires Typed(s) && Queued(s) && o in s.threads && w in s.threads[o].waiters
    ensures s.threads[o].contention && WaiterOk(s, o, w)
    ensures Mistakable(s.words[s.threads[w].pc.x], o) ==> FAT_IDS_PER_TID * o < s.nextId
  {
    assert ListOk(s, o);
    var k :| 0 <= k < |s.threads[o].waiters| && s.threads[o].waiters[k] == w;
    assert WaiterOk(s, o, s.threads[o].waiters[k]);
    assert WordOk(s, s.words[s.threads[w].pc.x]);
  }

  /** A thread that holds nothing and is outside the locking code has nobody waiting on it,
      as long as no lock with its id in the high bits has been made. */
  lemma NobodyWaitsForIdle(r: seq<State>, i: nat, o: Tid)
    requires Run(r) && i < |r| && o in r[i].threads && r[i].threads[o].pc.Idle? && r[i].nextId <= FAT_IDS_PER_TID * o
    requires forall x :: x in r[i].words ==> r[i].held[(o, x)] == 0
    ensures r[i].threads[o].waiters == []
  {
    hide Run, Inv;
    var s := r[i];
    RunInv(r, i);
    if s.threads[o].waiters != [] {
      var w := s.threads[o].waiters[0];
      NoLostWakeup(r, i, o, w);
      OwnerHolds(s, o, s.threads[w].waitObj.value);
      assert false;
    }
  }

  lemma OwnerHolds(s: State, o: Tid, x: Obj)
    requires Inv(s) && x in s.words && Owner(s, x) == Some(o)
    ensures s.held[(o, x)] > 0
  {
  }

  // ---------------------------------------------------------------------------
  // The release path empties the list

  /** How many of its own steps a releasing thread may still take. */
  ghost function StepsLeft(s: State, o: Tid): nat
    requires o in s.threads
  {
    match s.threads[o].pc
    case Released(_) => 3 * |s.threads[o].waiters| + 3
    case WakeIn(_) => 3 * |s.threads[o].waiters| + 2
    case Waking(_, pending) => 3 * |pending| + 1
    case Inflate(_, ToWaking(_, pending)) => 3 * |pending|
    case StoreFat(_, _, ToWaking(_, pending)) => if pending == [] then 0 else 3 * |pending| - 1
    case _ => 0
  }

  /** The list is empty and unflagged, or there are fewer steps to go. */
  ghost predicate Nearer(s: State, s': State, o: Tid, x: Obj) {
    && o in s.threads && o in s'.threads
    && var n := s'.threads[o];
    || (n.pc.Idle? && n.waiters == [] && !n.contention)
    || (Releasing(n.pc, x) && StepsLeft(s', o) < StepsLeft(s, o))
  }

  lemma InflateNearer(s: State, o: Tid, y: Obj, k: Cont, fail: bool)
    requires o in s.threads && s.threads[o].pc == Pc.Inflate(y, k) && k.ToWaking? && k.pending != []
    ensures Nearer(s, TakeFat(s, o, y, k, fail), o, k.released)
  {
  }

  lemma WakeNearer(s: State, o: Tid, x: Obj, pending: seq<Tid>)
    requires o in s.threads && s.threads[o].pc == Waking(x, pending) && pending != []
    ensures Nearer(s, WakeNext(s, o, x, pending), o, x)
  {
  }

  lemma OtherNearer(s: State, o: Tid, c: Choice, x: Obj)
    requires Enabled(s, o, c) && (Unserved(s.threads[o].pc, x) || s.threads[o].pc == Waking(x, []))
    requires s.threads[o].waiters == [] || s.threads[o].contention
    ensures Nearer(s, Step(s, o, c), o, x)
  {
  }

  lemma FattenNearer(s: State, o: Tid, y: Obj, id: FatId, k: Cont)
    requires o in s.threads && s.threads[o].pc == StoreFat(y, id, k) && k.ToWaking? && k.pending != []
    requires y in s.words && s.words[y].Thin?
    ensures Nearer(s, Fatten(s, o, y, id, k), o, k.released)
  {
  }

  lemma KnowsRelease(s: State, o: Tid)
    requires Inv(s) && o in s.threads
    ensures WorkLeft(s.threads[o].pc) && (s.threads[o].waiters == [] || s.threads[o].contention)
  {
    assert ListOk(s, o);
  }

  /** Each step of a releasing thread brings it closer to having emptied its list. */
  lemma ReleaseProgress(s: State, o: Tid, c: Choice, x: Obj)
    requires Inv(s) && Enabled(s, o, c) && Releasing(s.threads[o].pc, x)
    ensures Nearer(s, Step(s, o, c), o, x)
  {
    hide Inv, Nearer;
    KnowsRelease(s, o);
    match s.threads[o].pc
    case Inflate(y, k) => InflateNearer(s, o, y, k, c == NoFatLock);
    case StoreFat(y, id, k) => FattenNearer(s, o, y, id, k);
    case Waking(_, pending) => if pending == [] { OtherNearer(s, o, c, x); } else { WakeNearer(s, o, x, pending); }
    case _ => OtherNearer(s, o, c, x);
  }

  /** A thread that cannot go on is in a lock another thread holds, asleep on a list it has
      not been taken off, waits for a mutex whose holder can go on, or has hit the fault. */
  lemma BlockedExactly(s: State, t: Tid)
    requires Inv(s) && t in s.threads && !s.threads[t].pc.Idle?
    requires !Enabled(s, t, Go)
    ensures match s.threads[t].pc
            case Fault => true
            case EnterFat(x, id) => x in s.words && Owner(s, x).Some? && Owner(s, x) != Some(t)
            case Waiting(_, o) => o in s.threads && (t in s.threads[o].waiters || (s.threads[o].mutex.Some? && Enabled(s, s.threads[o].mutex.value, Go)))
            case Contend(_, o) => o in s.threads && s.threads[o].mutex.Some? && Enabled(s, s.threads[o].mutex.value, Go)
            case WakeIn(_) => s.threads[t].mutex.Some? && Enabled(s, s.threads[t].mutex.value, Go)
            case _ => false
  {
    hide Queued, FatPlaced, Counted, Local;
    TypedLocal(s, t);
    NotStuck(s, t);
    match s.threads[t].pc
    case Waiting(_, o) => SectionGoesOn(s, o);
    case Contend(_, o) => SectionGoesOn(s, o);
    case WakeIn(_) => SectionGoesOn(s, t);
    case _ =>
  }

  lemma NotStuck(s: State, t: Tid)
    requires t in s.threads && Local(s, t, s.threads[t].pc) && FatPlaced(s)
    requires !s.threads[t].pc.Idle? && !Enabled(s, t, Go)
    requires forall x :: x in s.words ==> WordOk(s, s.words[x])
    ensures var pc := s.threads[t].pc;
            pc.Fault? || pc.EnterFat? || pc.Waiting? || pc.Contend? || pc.WakeIn?
    ensures var pc := s.threads[t].pc; (pc.Waiting? || pc.Contend?) ==> pc.o in s.threads
    ensures s.threads[t].pc.EnterFat? ==>
              var x := s.threads[t].pc.x; x in s.words && Owner(s, x).Some? && Owner(s, x) != Some(t)
  {
  }

  /** Whoever holds the mutex of a waiter list can take its next step. */
  lemma SectionGoesOn(s: State, o: Tid)
    requires Inv(s) && o in s.threads
    ensures s.threads[o].mutex.Some? ==> Enabled(s, s.threads[o].mutex.value, Go)
  {
    hide Queued, Counted, FatPlaced, Fresh, WorkLeft;
    HolderInSection(s, o);
    if s.threads[o].mutex.Some? {
      var u := s.threads[o].mutex.value;
      assert Local(s, u, s.threads[u].pc);
    }
  }

  lemma HolderInSection(s: State, o: Tid)
    requires Queued(s) && o in s.threads
    ensures s.threads[o].mutex.Some? ==> s.threads[o].mutex.value in s.threads && InSection(s, s.threads[o].mutex.value, o)
  {
  }

  // ---------------------------------------------------------------------------
  // What the code does not keep

  /** A lock attempt uses entry 0 of the thread table exactly when the word it read was
      unlocked and its compare-and-swap then failed; that entry is never filled in. */
  lemma FaultExactly(s: State, t: Tid, c: Choice)
    requires Inv(s) && Enabled(s, t, c)
    ensures Step(s, t, c).threads.Keys >= {t}
    ensures Step(s, t, c).threads[t].pc.Fault? <==>
              exists x :: s.threads[t].pc == Cas(x, Unlocked) && s.words[x] != Unlocked
  {
    hide Inv, Step;
    KnowsRelease(s, t);
    StepWork(s, t, c);
    var pc := s.threads[t].pc;
    if pc.Cas? {
      CasTo(s, t, c, pc.x, pc.seen);
      assert pc == Cas(pc.x, pc.seen);
    }
  }

  lemma CasTo(s: State, t: Tid, c: Choice, x: Obj, seen: LockWord)
    requires Enabled(s, t, c) && s.threads[t].pc == Cas(x, seen)
    ensures x in s.words && (NextPc(s, t, c).Fault? <==> seen == Unlocked && s.words[x] != Unlocked)
  {
  }

  ghost function Racing(one: Pc, two: Pc, word: LockWord): State {
    State(map[7 := word], map[1 := Thread(one, false, [], None, None), 2 := Thread(two, false, [], None, None)],
      map[], [], 0, 1, if word == Unlocked then multiset{} else multiset{(2, 7)})
  }

  lemma RacingStep(s: State, t: Tid, c: Choice, s': State)
    requires Enabled(s, t, c) && Step(s, t, c) == s'
    ensures Next(s, s')
  {
  }

  lemma RacingReads(other: Pc)
    ensures Next(Racing(Pc.Idle, other, Unlocked), Racing(Retry(7), other, Unlocked))
    ensures Next(Racing(Retry(7), other, Unlocked), Racing(Cas(7, Unlocked), other, Unlocked))
    ensures Next(Racing(other, Pc.Idle, Unlocked), Racing(other, Retry(7), Unlocked))
    ensures Next(Racing(other, Retry(7), Unlocked), Racing(other, Cas(7, Unlocked), Unlocked))
  {
    hide Next;
    RacingStep(Racing(Pc.Idle, other, Unlocked), 1, Lock(7), Racing(Retry(7), other, Unlocked));
    RacingStep(Racing(Retry(7), other, Unlocked), 1, Go, Racing(Cas(7, Unlocked), other, Unlocked));
    RacingStep(Racing(other, Pc.Idle, Unlocked), 2, Lock(7), Racing(other, Retry(7), Unlocked));
    RacingStep(Racing(other, Retry(7), Unlocked), 2, Go, Racing(other, Cas(7, Unlocked), Unlocked));
  }

  lemma RacingSwaps()
    ensures Next(Racing(Cas(7, Unlocked), Cas(7, Unlocked), Unlocked), Racing(Cas(7, Unlocked), Pc.Idle, Thin(2, 0)))
    ensures Next(Racing(Cas(7, Unlocked), Pc.Idle, Thin(2, 0)), Racing(Fault, Pc.Idle, Thin(2, 0)))
  {
    hide Next;
    RacingStep(Racing(Cas(7, Unlocked), Cas(7, Unlocked), Unlocked), 2, Go, Racing(Cas(7, Unlocked), Pc.Idle, Thin(2, 0)));
    RacingStep(Racing(Cas(7, Unlocked), Pc.Idle, Thin(2, 0)), 1, Go, Racing(Fault, Pc.Idle, Thin(2, 0)));
  }

  lemma RacingBegins()
    ensures Init(Racing(Pc.Idle, Pc.Idle, Unlocked))
  {
  }

  lemma RacingEnds(one: Pc, two: Pc, word: LockWord)
    ensures 1 in Racing(one, two, word).threads && Racing(one, two, word).threads[1].pc == one
  {
  }

  /** Two threads race for one unlocked object and the loser faults. */
  lemma FaultReachable() returns (r: seq<State>)
    ensures Run(r) && 1 in r[|r| - 1].threads && r[|r| - 1].threads[1].pc.Fault?
  {
    hide Next, Racing, Init, Enabled, Step;
    var seen := Cas(7, Unlocked);
    RacingBegins();
    RacingReads(Pc.Idle);
    RacingReads(seen);
    RacingSwaps();
    RacingEnds(Fault, Pc.Idle, Thin(2, 0));
    r := [Racing(Pc.Idle, Pc.Idle, Unlocked), Racing(Retry(7), Pc.Idle, Unlocked), Racing(seen, Pc.Idle, Unlocked),
          Racing(seen, Retry(7), Unlocked), Racing(seen, seen, Unlocked), Racing(seen, Pc.Idle, Thin(2, 0)), Racing(Fault, Pc.Idle, Thin(2, 0))];
  }
}
