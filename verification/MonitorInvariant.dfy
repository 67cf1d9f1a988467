/** What every step of the locking code keeps, part one: words, counts and fat locks. */
module MonitorInvariant {
  import opened Options
  import opened MonitorModel

  ghost predicate WordOk(s: State, w: LockWord) {
    match w
    case Unlocked => true
    case Thin(o, c) => o in s.threads && c < MAX_THIN_RECURSION
    case Fat(id) => id in s.fat
  }

  /** What a thread knows about the lockword it is working on. */
  ghost predicate Local(s: State, t: Tid, pc: Pc) {
    && (forall x :: x in PcObjs(pc) ==> x in s.words)
    && match pc
       case Cas(x, seen) => KnownWord(s, t, x, seen)
       case Unlocking(x, seen) => KnownWord(s, t, x, seen)
       case Bump(x, c) => s.words[x] == Thin(t, c) && c + 1 < MAX_THIN_RECURSION
       case Inflate(x, _) => s.words[x].Thin? && s.words[x].owner == t
       case StoreFat(x, id, _) => s.words[x].Thin? && s.words[x].owner == t && id in s.fat
       case EnterFat(x, id) => s.words[x] == Fat(id)
       case Contend(_, o) => o in s.threads && o != t
       case Recheck(_, o, _) => o in s.threads && o != t
       case Enqueue(_, o) => o in s.threads && o != t
       case Restore(_, o, _) => o in s.threads && o != t
       case QueueOut(_, o, _) => o in s.threads && o != t
       case Waiting(_, o) => o in s.threads && o != t
       case _ => true
  }

  /** A word read earlier is still there if it was this thread's own or a fat one. */
  ghost predicate KnownWord(s: State, t: Tid, x: Obj, seen: LockWord)
    requires x in s.words
  {
    && WordOk(s, seen)
    && (seen.Thin? && seen.owner == t ==> s.words[x] == seen)
    && (seen.Fat? ==> s.words[x] == seen)
  }

  ghost predicate Typed(s: State) {
    && 0 !in s.threads
    && s.nextId <= s.limit
    && (forall id: FatId :: id in s.fat <==> id < s.nextId)
    && (forall x :: x in s.words ==> WordOk(s, s.words[x]))
    && (forall t :: t in s.threads ==> Local(s, t, s.threads[t].pc))
  }

  // ---------------------------------------------------------------------------
  // Ownership and counts

  /** How often, by the lockword and fat lock, `t` has locked `x`. */
  ghost function Depth(s: State, t: Tid, x: Obj): nat {
    if x !in s.words then 0 else
    match s.words[x]
    case Unlocked => 0
    case Thin(o, c) => if o == t then c + 1 else 0
    case Fat(id) => if id in s.fat && s.fat[id].owner == Some(t) then s.fat[id].recursion else 0
  }

  /** The counts kept in words and fat locks are the acquisitions less the releases. */
  ghost predicate Counted(s: State) {
    forall t, x :: s.held[(t, x)] == Depth(s, t, x)
  }

  ghost function Owner(s: State, x: Obj): Option<Tid>
    requires x in s.words
  {
    match s.words[x]
    case Unlocked => None
    case Thin(o, _) => Some(o)
    case Fat(id) => if id in s.fat then s.fat[id].owner else None
  }

  // ---------------------------------------------------------------------------
  // Fat locks

  ghost predicate Idle(f: FatLock) {
    f == FatLock(None, 0)
  }

  /** Each fat lock serves one object, is in the hands of one inflating thread, or is free. */
  ghost predicate FatPlaced(s: State) {
    && (forall x, y :: x in s.words && y in s.words && x != y && s.words[x].Fat? && s.words[y].Fat? ==> s.words[x].id != s.words[y].id)
    && (forall x :: x in s.words && s.words[x].Fat? ==> s.words[x].id !in s.free)
    && (forall i, j :: 0 <= i < j < |s.free| ==> s.free[i] != s.free[j])
    && (forall i :: 0 <= i < |s.free| ==> s.free[i] in s.fat && Idle(s.fat[s.free[i]]))
    && (forall t :: t in s.threads && s.threads[t].pc.StoreFat? ==> InHand(s, s.threads[t].pc.id))
    && (forall t, u :: t in s.threads && u in s.threads && t != u && s.threads[t].pc.StoreFat? && s.threads[u].pc.StoreFat? ==>
          s.threads[t].pc.id != s.threads[u].pc.id)
    && (forall id :: id in s.fat ==> FatOk(s, s.fat[id]))
  }

  ghost predicate InHand(s: State, id: FatId) {
    && id in s.fat && Idle(s.fat[id]) && id !in s.free
    && forall x :: x in s.words && s.words[x].Fat? ==> s.words[x].id != id
  }

  ghost predicate FatOk(s: State, f: FatLock) {
    (f.owner.Some? <==> f.recursion > 0) && f.recursion <= MAX_JINT && (f.owner.Some? ==> f.owner.value in s.threads)
  }

  ghost predicate Sound(s: State) {
    Typed(s) && Counted(s) && FatPlaced(s)
  }

  // ---------------------------------------------------------------------------
  // Every step keeps them

  /** Only threads differ, and of their program points only that of `t`. */
  ghost predicate Quiet(s: State, s': State, t: Tid) {
    && t in s.threads && s'.threads.Keys == s.threads.Keys
    && (forall u :: u in s.threads && u != t ==> s'.threads[u].pc == s.threads[u].pc)
    && s' == s.(threads := s'.threads)
  }

  lemma QuietTyped(s: State, s': State, t: Tid)
    requires Typed(s) && Quiet(s, s', t) && Local(s, t, s'.threads[t].pc)
    ensures Typed(s')
  {
    forall u | u in s'.threads
      ensures Local(s', u, s'.threads[u].pc)
    {
      assert Local(s, u, s'.threads[u].pc);
    }
  }

  /** The word of one object, free or owned by `t`, changes, and fat locks are not lost. */
  ghost predicate OwnWord(s: State, s': State, t: Tid, x: Obj, w: LockWord) {
    && x in s.words && t in s.threads
    && s'.words == s.words[x := w] && s'.threads.Keys == s.threads.Keys
    && (s.words[x].Unlocked? || (s.words[x].Thin? && s.words[x].owner == t))
    && (forall u :: u in s.threads && u != t ==> s'.threads[u].pc == s.threads[u].pc)
    && s'.fat.Keys == s.fat.Keys && s'.nextId == s.nextId && s'.limit == s.limit
  }

  lemma OwnWordLocal(s: State, s': State, t: Tid, x: Obj, w: LockWord, u: Tid, pc: Pc)
    requires OwnWord(s, s', t, x, w) && u != t && Local(s, u, pc)
    ensures Local(s', u, pc)
  {
  }

  lemma OwnWordTyped(s: State, s': State, t: Tid, x: Obj, w: LockWord)
    requires Typed(s) && OwnWord(s, s', t, x, w)
    requires WordOk(s', w) && Local(s', t, s'.threads[t].pc)
    ensures Typed(s')
  {
    hide Local;
    forall u | u in s'.threads && u != t
      ensures Local(s', u, s'.threads[u].pc)
    {
      OwnWordLocal(s, s', t, x, w, u, s.threads[u].pc);
    }
  }

  /** Words stay, and fat locks are added or change their counts. */
  lemma FatTyped(s: State, s': State, t: Tid)
    requires Typed(s) && t in s.threads && s'.threads.Keys == s.threads.Keys
    requires forall u :: u in s.threads && u != t ==> s'.threads[u].pc == s.threads[u].pc
    requires s'.words == s.words && s'.limit == s.limit && s.fat.Keys <= s'.fat.Keys
    requires s'.nextId <= s.limit && forall id: FatId :: id in s'.fat <==> id < s'.nextId
    requires Local(s', t, s'.threads[t].pc)
    ensures Typed(s')
  {
    forall u | u in s'.threads && u != t
      ensures Local(s', u, s'.threads[u].pc)
    {
      assert Local(s, u, s.threads[u].pc);
    }
  }

  // ---------------------------------------------------------------------------
  // Counts and fat locks under the three kinds of step

  lemma QuietSound(s: State, s': State, t: Tid)
    requires Sound(s) && Quiet(s, s', t) && Local(s, t, s'.threads[t].pc)
    requires !s'.threads[t].pc.StoreFat?
    ensures Sound(s')
  {
    hide Local;
    QuietTyped(s, s', t);
    forall u, x
      ensures s'.held[(u, x)] == Depth(s', u, x)
    {
      assert s.held[(u, x)] == Depth(s, u, x);
    }
    forall u | u in s'.threads && s'.threads[u].pc.StoreFat?
      ensures InHand(s', s'.threads[u].pc.id)
    {
      assert InHand(s, s.threads[u].pc.id);
    }
  }

  /** A thin lock is taken, counted up or down, or given up. */
  lemma ThinSound(s: State, s': State, t: Tid, x: Obj, w: LockWord)
    requires Sound(s) && OwnWord(s, s', t, x, w) && !w.Fat? && WordOk(s', w) && Local(s', t, s'.threads[t].pc)
    requires !s'.threads[t].pc.StoreFat? && s'.fat == s.fat && s'.free == s.free
    requires w.Thin? ==> w.owner == t
    requires forall u, y :: (u, y) != (t, x) ==> s'.held[(u, y)] == s.held[(u, y)]
    requires s'.held[(t, x)] == if w.Thin? then w.count + 1 else 0
    ensures Sound(s')
  {
    hide Local;
    OwnWordTyped(s, s', t, x, w);
    forall u, y
      ensures s'.held[(u, y)] == Depth(s', u, y)
    {
      assert s.held[(u, y)] == Depth(s, u, y);
    }
    forall u | u in s'.threads && s'.threads[u].pc.StoreFat?
      ensures InHand(s', s'.threads[u].pc.id)
    {
      assert InHand(s, s.threads[u].pc.id);
    }
  }

  /** The owner and count of the fat lock serving `x` change. */
  lemma FatCountSound(s: State, s': State, t: Tid, x: Obj, id: FatId, f: FatLock)
    requires Sound(s) && t in s.threads && x in s.words && s.words[x] == Fat(id) && id in s.fat
    requires s'.threads.Keys == s.threads.Keys && s'.words == s.words && s'.fat == s.fat[id := f]
    requires forall u :: u in s.threads && u != t ==> s'.threads[u].pc == s.threads[u].pc
    requires s'.free == s.free && s'.nextId == s.nextId && s'.limit == s.limit
    requires Local(s', t, s'.threads[t].pc) && !s'.threads[t].pc.StoreFat?
    requires FatOk(s, f) && (f.owner.Some? ==> f.owner.value == t)
    requires s.fat[id].owner == None || s.fat[id].owner == Some(t)
    requires forall u, y :: (u, y) != (t, x) ==> s'.held[(u, y)] == s.held[(u, y)]
    requires s'.held[(t, x)] == f.recursion
    ensures Sound(s')
  {
    hide Local;
    FatTyped(s, s', t);
    forall u, y
      ensures s'.held[(u, y)] == Depth(s', u, y)
    {
      assert s.held[(u, y)] == Depth(s, u, y);
    }
    forall u | u in s'.threads && s'.threads[u].pc.StoreFat?
      ensures InHand(s', s'.threads[u].pc.id)
    {
      assert InHand(s, s.threads[u].pc.id);
    }
  }

  lemma TakeFreeSound(s: State, t: Tid, x: Obj, k: Cont)
    requires Sound(s) && t in s.threads && s.threads[t].pc == Pc.Inflate(x, k) && s.free != []
    ensures Sound(TakeFat(s, t, x, k, false))
  {
    hide Local;
    var s' := TakeFat(s, t, x, k, false);
    var id := s.free[0];
    assert Local(s', t, s'.threads[t].pc) by {
      InflateKnows(s, t, x, k, id);
      NewFatLocal(s, s', t, x, id, k);
    }
    FatTyped(s, s', t);
    forall u, y
      ensures s'.held[(u, y)] == Depth(s', u, y)
    {
      assert s.held[(u, y)] == Depth(s, u, y);
    }
    assert forall j :: 0 <= j < |s'.free| ==> s'.free[j] == s.free[j + 1];
    assert id !in s'.free;
    assert InHand(s', id);
    forall u | u in s'.threads && s'.threads[u].pc.StoreFat? && u != t
      ensures InHand(s', s'.threads[u].pc.id) && s'.threads[u].pc.id != id
    {
      assert InHand(s, s.threads[u].pc.id);
      assert id in s.free;
    }
  }

  lemma InflateKnows(s: State, t: Tid, x: Obj, k: Cont, id: FatId)
    requires Typed(s) && t in s.threads && s.threads[t].pc == Pc.Inflate(x, k)
    ensures x in s.words && s.words[x].Thin? && s.words[x].owner == t && s.words[x].count < MAX_THIN_RECURSION
    ensures id in s.fat ==> Local(s, t, StoreFat(x, id, k))
    ensures Local(s, t, AfterInflate(x, k))
    ensures forall y :: y in PcObjs(StoreFat(x, id, k)) ==> y in s.words
  {
  }

  lemma TakeNewSound(s: State, t: Tid, x: Obj, k: Cont)
    requires Sound(s) && t in s.threads && s.threads[t].pc == Pc.Inflate(x, k)
    requires s.free == [] && s.nextId < s.limit
    ensures Sound(TakeFat(s, t, x, k, false))
  {
    hide Local;
    var s' := TakeFat(s, t, x, k, false);
    var id := s.nextId;
    assert Local(s', t, s'.threads[t].pc) by {
      InflateKnows(s, t, x, k, id);
      NewFatLocal(s, s', t, x, id, k);
    }
    FatTyped(s, s', t);
    NewFatDepth(s, s', t, x, k);
    NewFatPlaced(s, s', t, x, k);
    hide TakeFat, Typed, FatPlaced;
  }

  lemma NewFatPlaced(s: State, s': State, t: Tid, x: Obj, k: Cont)
    requires Sound(s) && t in s.threads && s.free == [] && s.nextId < s.limit && s' == TakeFat(s, t, x, k, false)
    ensures FatPlaced(s')
  {
    hide Local, Counted;
    NewInHand(s, s', t, x, k);
    forall u | u in s'.threads && s'.threads[u].pc.StoreFat? && u != t
      ensures InHand(s', s'.threads[u].pc.id) && s'.threads[u].pc.id != s.nextId
    {
      assert InHand(s, s.threads[u].pc.id);
    }
  }

  lemma NewFatDepth(s: State, s': State, t: Tid, x: Obj, k: Cont)
    requires Sound(s) && t in s.threads && s.free == [] && s.nextId < s.limit && s' == TakeFat(s, t, x, k, false)
    ensures forall u, y :: s'.held[(u, y)] == Depth(s', u, y)
  {
  }

  lemma NewInHand(s: State, s': State, t: Tid, x: Obj, k: Cont)
    requires Sound(s) && t in s.threads && s.free == [] && s.nextId < s.limit && s' == TakeFat(s, t, x, k, false)
    ensures InHand(s', s.nextId)
  {
  }

  lemma NewFatLocal(s: State, s': State, t: Tid, x: Obj, id: FatId, k: Cont)
    requires x in s.words && s.words[x].Thin? && s.words[x].owner == t && s'.words == s.words && id in s'.fat
    requires forall y :: y in PcObjs(StoreFat(x, id, k)) ==> y in s.words
    ensures Local(s', t, StoreFat(x, id, k))
  {
  }

  lemma FattenSound(s: State, t: Tid, x: Obj, id: FatId, k: Cont)
    requires Sound(s) && t in s.threads && s.threads[t].pc == StoreFat(x, id, k)
    ensures x in s.words && s.words[x].Thin? && s.words[x].owner == t
    ensures Sound(Fatten(s, t, x, id, k))
  {
    hide Local;
    assert x in s.words && s.words[x].Thin? && s.words[x].owner == t && InHand(s, id) by {
      StoreFatKnows(s, t, x, id, k);
    }
    var s' := Fatten(s, t, x, id, k);
    assert Local(s', t, s'.threads[t].pc) by { StoreFatKnows(s, t, x, id, k); }
    OwnWordTyped(s, s', t, x, Fat(id));
    forall u, y
      ensures s'.held[(u, y)] == Depth(s', u, y)
    {
      assert s.held[(u, y)] == Depth(s, u, y);
    }
    forall u | u in s'.threads && s'.threads[u].pc.StoreFat?
      ensures InHand(s', s'.threads[u].pc.id)
    {
      assert u != t && InHand(s, s.threads[u].pc.id);
    }
    FatPlacedFatten(s, s', t, x, id, k);
  }

  lemma StoreFatKnows(s: State, t: Tid, x: Obj, id: FatId, k: Cont)
    requires Typed(s) && FatPlaced(s) && t in s.threads && s.threads[t].pc == StoreFat(x, id, k)
    ensures x in s.words && s.words[x].Thin? && s.words[x].owner == t && s.words[x].count < MAX_THIN_RECURSION
    ensures InHand(s, id)
    ensures Local(Fatten(s, t, x, id, k), t, AfterInflate(x, k))
  {
    assert Local(s, t, s.threads[t].pc);
    assert PcObjs(AfterInflate(x, k)) <= PcObjs(StoreFat(x, id, k));
  }

  lemma FatPlacedFatten(s: State, s': State, t: Tid, x: Obj, id: FatId, k: Cont)
    requires Sound(s) && t in s.threads && s.threads[t].pc == StoreFat(x, id, k)
    requires x in s.words && s.words[x].Thin? && InHand(s, id) && s.words[x].count < MAX_THIN_RECURSION
    requires s' == Fatten(s, t, x, id, k)
    requires forall u :: u in s'.threads && s'.threads[u].pc.StoreFat? ==> InHand(s', s'.threads[u].pc.id)
    ensures FatPlaced(s')
  {
    hide Local;
  }

  // ---------------------------------------------------------------------------
  // Every step

  lemma AfterCasLocal(s: State, t: Tid, x: Obj, seen: LockWord)
    requires Local(s, t, Cas(x, seen))
    ensures x in s.words && Local(s, t, AfterCas(t, x, seen)) && !AfterCas(t, x, seen).StoreFat?
  {
  }

  lemma CasSound(s: State, t: Tid, x: Obj, seen: LockWord)
    requires Sound(s) && t in s.threads && s.threads[t].pc == Cas(x, seen)
    ensures x in s.words && Sound(TryCas(s, t, x, seen))
  {
    hide Local, FatPlaced;
    assert Local(s, t, s.threads[t].pc);
    AfterCasLocal(s, t, x, seen);
    var s' := TryCas(s, t, x, seen);
    if s.words[x] == Unlocked {
      assert s.held[(t, x)] == Depth(s, t, x);
      IdleKnows(s', t);
      ThinSound(s, s', t, x, Thin(t, 0));
    } else {
      QuietSound(s, s', t);
    }
  }

  lemma RelockSound(s: State, t: Tid, x: Obj, c: nat)
    requires Sound(s) && t in s.threads && s.threads[t].pc == Bump(x, c)
    ensures x in s.words && Sound(Relock(s, t, x, c))
  {
    assert Local(s, t, s.threads[t].pc);
    assert s.held[(t, x)] == Depth(s, t, x);
    ThinSound(s, Relock(s, t, x, c), t, x, Thin(t, c + 1));
  }

  lemma LockFatSound(s: State, t: Tid, x: Obj, id: FatId)
    requires Sound(s) && t in s.threads && s.threads[t].pc == EnterFat(x, id)
    requires id in s.fat && (s.fat[id].recursion == 0 || s.fat[id].owner == Some(t))
    ensures Sound(LockFat(s, t, x, id))
  {
    assert Local(s, t, s.threads[t].pc);
    assert FatOk(s, s.fat[id]);
    assert s.held[(t, x)] == Depth(s, t, x);
    var s' := LockFat(s, t, x, id);
    if s.fat[id].recursion == MAX_JINT {
      QuietSound(s, s', t);
    } else {
      FatCountSound(s, s', t, x, id, FatLock(Some(t), s.fat[id].recursion + 1));
    }
  }

  lemma TakeFatSound(s: State, t: Tid, x: Obj, k: Cont, fail: bool)
    requires Sound(s) && t in s.threads && s.threads[t].pc == Pc.Inflate(x, k)
    ensures Sound(TakeFat(s, t, x, k, fail))
  {
    hide Local, Typed, Counted, FatPlaced;
    if s.free != [] {
      TakeFreeSound(s, t, x, k);
    } else if fail || s.nextId >= s.limit {
      InflateKnows(s, t, x, k, 0);
      IdleKnows(s, t);
      QuietSound(s, TakeFat(s, t, x, k, fail), t);
    } else {
      TakeNewSound(s, t, x, k);
    }
  }

  lemma IdleKnows(s: State, t: Tid)
    ensures Local(s, t, Pc.Idle)
  {
  }

  lemma UnlockingKnows(s: State, t: Tid, x: Obj, seen: LockWord)
    requires Typed(s) && t in s.threads && s.threads[t].pc == Unlocking(x, seen)
    ensures x in s.words && KnownWord(s, t, x, seen)
  {
  }

  lemma ReleasedKnows(s: State, t: Tid, x: Obj)
    requires x in s.words
    ensures Local(s, t, Released(x))
  {
  }

  lemma UnlockThinSound(s: State, t: Tid, x: Obj, c: nat)
    requires Sound(s) && t in s.threads && x in s.words && s.words[x] == Thin(t, c) && c < MAX_THIN_RECURSION
    requires s.threads[t].pc == Unlocking(x, Thin(t, c))
    ensures Sound(UnlockThin(s, t, x, c))
  {
    hide Local, FatPlaced;
    assert s.held[(t, x)] == Depth(s, t, x);
    var s' := UnlockThin(s, t, x, c);
    IdleKnows(s', t);
    ReleasedKnows(s', t, x);
    ThinSound(s, s', t, x, if c == 0 then Unlocked else Thin(t, c - 1));
  }

  lemma UnlockFatSound(s: State, t: Tid, x: Obj, id: FatId)
    requires Sound(s) && t in s.threads && x in s.words && s.words[x] == Fat(id) && id in s.fat
    requires s.fat[id].recursion > 0 && s.fat[id].owner == Some(t)
    ensures Sound(UnlockFat(s, t, x, id))
  {
    hide Local;
    assert s.held[(t, x)] == Depth(s, t, x);
    assert FatOk(s, s.fat[id]);
    var s' := UnlockFat(s, t, x, id);
    IdleKnows(s', t);
    ReleasedKnows(s', t, x);
    var n := s.fat[id].recursion - 1;
    FatCountSound(s, s', t, x, id, FatLock(if n == 0 then None else Some(t), n));
  }

  lemma UnlockSound(s: State, t: Tid, x: Obj, seen: LockWord)
    requires Sound(s) && t in s.threads && s.threads[t].pc == Unlocking(x, seen)
    ensures x in s.words && Sound(TryUnlock(s, t, x, seen))
  {
    hide Local, Counted, FatPlaced;
    UnlockingKnows(s, t, x, seen);
    var s' := TryUnlock(s, t, x, seen);
    if seen.Thin? && seen.owner == t {
      UnlockThinSound(s, t, x, seen.count);
    } else if seen.Fat? && s.fat[seen.id].recursion > 0 && s.fat[seen.id].owner == Some(t) {
      UnlockFatSound(s, t, x, seen.id);
    } else {
      IdleKnows(s, t);
      QuietSound(s, s', t);
    }
  }

  lemma TypedLocal(s: State, t: Tid)
    requires Typed(s) && t in s.threads
    ensures Local(s, t, s.threads[t].pc)
    ensures forall x :: x in s.words ==> WordOk(s, s.words[x])
  {
  }

  ghost predicate Reads(pc: Pc) {
    pc.Idle? || pc.Retry? || pc.ReadUnlock? || pc.Released? || pc.WakeIn?
  }

  ghost predicate Queues(pc: Pc) {
    pc.Contend? || pc.Recheck? || pc.Enqueue? || pc.Restore? || pc.QueueOut? || pc.Waiting?
  }

  lemma ReadStepQuiet(s: State, t: Tid, c: Choice)
    requires Enabled(s, t, c) && Reads(s.threads[t].pc)
    requires Local(s, t, s.threads[t].pc)
    ensures Quiet(s, Step(s, t, c), t)
  {
  }

  lemma ReadStepLocal(s: State, t: Tid, c: Choice)
    requires Enabled(s, t, c) && Reads(s.threads[t].pc)
    requires Local(s, t, s.threads[t].pc)
    requires forall x :: x in s.words ==> WordOk(s, s.words[x])
    ensures Quiet(s, Step(s, t, c), t)
    ensures Local(s, t, Step(s, t, c).threads[t].pc) && !Step(s, t, c).threads[t].pc.StoreFat?
  {
    ReadStepQuiet(s, t, c);
    hide Quiet;
  }

  lemma QueueStepQuiet(s: State, t: Tid, c: Choice)
    requires Enabled(s, t, c) && Queues(s.threads[t].pc)
    requires Local(s, t, s.threads[t].pc)
    ensures Quiet(s, Step(s, t, c), t)
  {
  }

  lemma QueueStepLocal(s: State, t: Tid, c: Choice)
    requires Enabled(s, t, c) && Queues(s.threads[t].pc)
    requires Local(s, t, s.threads[t].pc)
    ensures Quiet(s, Step(s, t, c), t)
    ensures Local(s, t, Step(s, t, c).threads[t].pc) && !Step(s, t, c).threads[t].pc.StoreFat?
  {
    QueueStepQuiet(s, t, c);
    hide Quiet;
  }

  /** The waiting object is inflated only if the waking thread owns its thin lock. */
  ghost predicate WakesOwn(s: State, t: Tid) {
    t in s.threads && s.threads[t].pc.Waking? && s.threads[t].pc.pending != [] ==>
      var w := s.threads[t].pc.pending[0];
      NeedsInflation(s, s.threads[t].pc.x, w) ==>
        var y := s.threads[w].waitObj.value;
        s.words[y].Thin? && s.words[y].owner == t
  }

  lemma WakeStepLocal(s: State, t: Tid)
    requires Enabled(s, t, Go) && s.threads[t].pc.Waking? && WakesOwn(s, t)
    requires Local(s, t, s.threads[t].pc)
    ensures Quiet(s, Step(s, t, Go), t)
    ensures Local(s, t, Step(s, t, Go).threads[t].pc) && !Step(s, t, Go).threads[t].pc.StoreFat?
  {
  }

  lemma StepSound(s: State, t: Tid, c: Choice)
    requires Sound(s) && Enabled(s, t, c) && WakesOwn(s, t)
    ensures Sound(Step(s, t, c))
  {
    hide Typed, Counted, FatPlaced, Local, WordOk;
    var pc := s.threads[t].pc;
    TypedLocal(s, t);
    if Reads(pc) {
      ReadStepLocal(s, t, c);
      QuietSound(s, Step(s, t, c), t);
    } else if Queues(pc) {
      QueueStepLocal(s, t, c);
      QuietSound(s, Step(s, t, c), t);
    } else if pc.Waking? {
      WakeStepLocal(s, t);
      QuietSound(s, Step(s, t, c), t);
    } else {
      match pc
      case Cas(x, seen) => CasSound(s, t, x, seen);
      case Bump(x, n) => RelockSound(s, t, x, n);
      case Inflate(x, k) => TakeFatSound(s, t, x, k, c == NoFatLock);
      case StoreFat(x, id, k) => FattenSound(s, t, x, id, k);
      case EnterFat(x, id) => LockFatSound(s, t, x, id);
      case Unlocking(x, seen) => UnlockSound(s, t, x, seen);
    }
  }

  lemma RecycleSound(s: State, x: Obj)
    requires Sound(s) && CanRecycle(s, x)
    ensures Sound(Recycle(s, x))
  {
    var s' := Recycle(s, x);
    forall t | t in s'.threads
      ensures Local(s', t, s'.threads[t].pc)
    {
      assert Local(s, t, s.threads[t].pc);
    }
    forall t, y
      ensures s'.held[(t, y)] == Depth(s', t, y)
    {
      assert s.held[(t, y)] == Depth(s, t, y);
    }
    assert FatOk(s, s.fat[s.words[x].id]);
  }
}
