/**
 Object monitors as a step relation over threads. Every shared access of the
 locking code is a step of its own, so all interleavings are covered: thin locks
 taken by compare-and-swap, contention flags and waiter lists kept by each owner,
 and inflation of a thin lock to a fat one.
 */
module MonitorModel {
  import opened Options

  type Tid = nat      // thread ids start at 1; 0 in a lockword means "not locked"
  type Obj = nat
  type FatId = nat

  const MAX_THIN_RECURSION := 32
  const MAX_JINT := 0x7fff_ffff
  const FAT_IDS_PER_TID := 32

  datatype LockWord = Unlocked | Thin(owner: Tid, count: nat) | Fat(id: FatId)

  /** What an inflating thread does next: retry its lock, or go on waking waiters. */
  datatype Cont = ToRetry | ToWaking(released: Obj, pending: seq<Tid>)

  /** The point a thread has reached in locking or unlocking. */
  datatype Pc =
    | Idle
    | Retry(x: Obj)                                         // about to read the lockword
    | Cas(x: Obj, seen: LockWord)                            // about to compare-and-swap
    | Bump(x: Obj, count: nat)                              // relock of an owned thin lock
    | Inflate(x: Obj, k: Cont)                              // needs a fat lock
    | StoreFat(x: Obj, id: FatId, k: Cont)                  // has one, about to store it
    | Contend(x: Obj, o: Tid)                               // about to take the owner's mutex
    | Recheck(x: Obj, o: Tid, oldFlag: bool)                // flag set, about to reread the lockword
    | Enqueue(x: Obj, o: Tid)                               // owner confirmed
    | Restore(x: Obj, o: Tid, oldFlag: bool)                // owner has changed
    | QueueOut(x: Obj, o: Tid, notified: bool)              // about to give the mutex back
    | Waiting(x: Obj, o: Tid)                               // asleep on the owner's waiter list
    | EnterFat(x: Obj, id: FatId)
    | ReadUnlock(x: Obj)
    | Unlocking(x: Obj, seen: LockWord)
    | Released(x: Obj)                                      // about to read its own contention flag
    | WakeIn(x: Obj)                                        // about to take its own mutex
    | Waking(x: Obj, pending: seq<Tid>)
    | Fault                                                 // used the thread table at index 0

  datatype Thread = Thread(pc: Pc, contention: bool, waiters: seq<Tid>, mutex: Option<Tid>, waitObj: Option<Obj>)

  datatype FatLock = FatLock(owner: Option<Tid>, recursion: nat)

  /** `held` is history: one entry for each acquisition not yet released.
      `limit` is the number of fat lock ids the table can hold. */
  datatype State = State(
    words: map<Obj, LockWord>,
    threads: map<Tid, Thread>,
    fat: map<FatId, FatLock>,
    free: seq<FatId>,
    nextId: nat,
    limit: nat,
    held: multiset<(Tid, Obj)>)

  datatype Choice = Lock(x: Obj) | Unlock(x: Obj) | NoFatLock | Go

  // ---------------------------------------------------------------------------
  // The steps

  function SetPc(s: State, t: Tid, pc: Pc): State
    requires t in s.threads
  {
    s.(threads := s.threads[t := s.threads[t].(pc := pc)])
  }

  /** The lockword comparison made after the contention flag is set. It looks only at
      the bits of the thread id, which in a fat lockword are the high bits of the lock id. */
  predicate RecheckPasses(w: LockWord, o: Tid) {
    match w
    case Unlocked => o == 0
    case Thin(p, _) => p == o
    case Fat(id) => id / FAT_IDS_PER_TID == o
  }

  function AfterInflate(x: Obj, k: Cont): Pc {
    match k
    case ToRetry => Retry(x)
    case ToWaking(r, pending) => Waking(r, if pending == [] then [] else pending[1..])
  }

  /** Whether a thread can take its next step; waiting for a mutex or a signal disables it. */
  predicate Enabled(s: State, t: Tid, c: Choice) {
    t in s.threads &&
    var pc := s.threads[t].pc;
    match pc
    case Idle => (c.Lock? || c.Unlock?) && c.x in s.words
    case Fault => false
    case Inflate(_, _) => c == Go || (c == NoFatLock && s.free == [])
    case Contend(_, o) => c == Go && o in s.threads && s.threads[o].mutex == None
    case Enqueue(_, o) => c == Go && o in s.threads
    case Restore(_, o, _) => c == Go && o in s.threads
    case QueueOut(_, o, _) => c == Go && o in s.threads
    case Waiting(_, o) => c == Go && o in s.threads && s.threads[o].mutex == None && t !in s.threads[o].waiters
    case EnterFat(_, id) => c == Go && id in s.fat && (s.fat[id].recursion == 0 || s.fat[id].owner == Some(t))
    case StoreFat(x, _, _) => c == Go && x in s.words && s.words[x].Thin?
    case WakeIn(_) => c == Go && s.threads[t].mutex == None
    case Waking(_, _) => c == Go
    case _ => c == Go && pc.x in s.words
  }

  // Locking

  function Read(s: State, t: Tid, x: Obj): State
    requires t in s.threads && x in s.words
  {
    SetPc(s, t, Cas(x, s.words[x]))
  }

  /** Where a lock goes when the compare-and-swap fails, by the word read before it. */
  function AfterCas(t: Tid, x: Obj, seen: LockWord): Pc {
    match seen
    case Unlocked => Fault
    case Thin(o, c) => if o != t then Contend(x, o) else if c + 1 < MAX_THIN_RECURSION then Bump(x, c) else Inflate(x, ToRetry)
    case Fat(id) => EnterFat(x, id)
  }

  function TryCas(s: State, t: Tid, x: Obj, seen: LockWord): State
    requires t in s.threads && x in s.words
  {
    if s.words[x] == Unlocked then
      SetPc(s, t, Idle).(words := s.words[x := Thin(t, 0)], held := s.held + multiset{(t, x)})
    else SetPc(s, t, AfterCas(t, x, seen))
  }

  function Relock(s: State, t: Tid, x: Obj, c: nat): State
    requires t in s.threads && x in s.words
  {
    SetPc(s, t, Idle).(words := s.words[x := Thin(t, c + 1)], held := s.held + multiset{(t, x)})
  }

  function LockFat(s: State, t: Tid, x: Obj, id: FatId): State
    requires t in s.threads && id in s.fat
  {
    if s.fat[id].recursion == MAX_JINT then SetPc(s, t, Idle)
    else
      SetPc(s, t, Idle).(fat := s.fat[id := FatLock(Some(t), s.fat[id].recursion + 1)], held := s.held + multiset{(t, x)})
  }

  // Queueing behind the owner of a thin lock

  function QueueIn(s: State, t: Tid, x: Obj, o: Tid): State
    requires t in s.threads && o in s.threads
  {
    var p := SetPc(s, t, Recheck(x, o, s.threads[o].contention));
    p.(threads := p.threads[o := p.threads[o].(mutex := Some(t), contention := true)])
  }

  function CheckOwner(s: State, t: Tid, x: Obj, o: Tid, f: bool): State
    requires t in s.threads && x in s.words
  {
    SetPc(s, t, if RecheckPasses(s.words[x], o) then Enqueue(x, o) else Restore(x, o, f))
  }

  function Insert(s: State, t: Tid, x: Obj, o: Tid): State
    requires t in s.threads && o in s.threads
  {
    var p := s.(threads := s.threads[t := s.threads[t].(pc := QueueOut(x, o, true), waitObj := Some(x))]);
    p.(threads := p.threads[o := p.threads[o].(waiters := [t] + p.threads[o].waiters)])
  }

  function RestoreFlag(s: State, t: Tid, x: Obj, o: Tid, f: bool): State
    requires t in s.threads && o in s.threads
  {
    var p := SetPc(s, t, QueueOut(x, o, false));
    p.(threads := p.threads[o := p.threads[o].(contention := f)])
  }

  function Leave(s: State, t: Tid, x: Obj, o: Tid, notified: bool): State
    requires t in s.threads && o in s.threads
  {
    var p := SetPc(s, t, if notified then Waiting(x, o) else Retry(x));
    p.(threads := p.threads[o := p.threads[o].(mutex := None)])
  }

  function Woken(s: State, t: Tid, x: Obj): State
    requires t in s.threads
  {
    s.(threads := s.threads[t := s.threads[t].(pc := Retry(x), waitObj := None)])
  }

  // Inflating a thin lock the thread owns

  /** Take a free lock or make one with the next id; give up if neither can be had. */
  function TakeFat(s: State, t: Tid, x: Obj, k: Cont, fail: bool): State
    requires t in s.threads
  {
    if s.free != [] then SetPc(s, t, StoreFat(x, s.free[0], k)).(free := s.free[1..])
    else if fail || s.nextId >= s.limit then SetPc(s, t, if k == ToRetry then Idle else AfterInflate(x, k))
    else SetPc(s, t, StoreFat(x, s.nextId, k)).(nextId := s.nextId + 1, fat := s.fat[s.nextId := FatLock(None, 0)])
  }

  /** Store the owner, the count adjusted by one, and the lockword. */
  function Fatten(s: State, t: Tid, x: Obj, id: FatId, k: Cont): State
    requires t in s.threads && x in s.words && s.words[x].Thin?
  {
    SetPc(s, t, AfterInflate(x, k)).(
      words := s.words[x := Fat(id)],
      fat := s.fat[id := FatLock(Some(t), s.words[x].count + 1)])
  }

  // Unlocking

  function ReadOwn(s: State, t: Tid, x: Obj): State
    requires t in s.threads && x in s.words
  {
    SetPc(s, t, Unlocking(x, s.words[x]))
  }

  function UnlockThin(s: State, t: Tid, x: Obj, c: nat): State
    requires t in s.threads && x in s.words
  {
    SetPc(s, t, if c == 0 then Released(x) else Idle).(
      words := s.words[x := if c == 0 then Unlocked else Thin(t, c - 1)],
      held := s.held - multiset{(t, x)})
  }

  function UnlockFat(s: State, t: Tid, x: Obj, id: FatId): State
    requires t in s.threads && id in s.fat && s.fat[id].recursion > 0
  {
    var n := s.fat[id].recursion - 1;
    SetPc(s, t, if n == 0 then Released(x) else Idle).(
      fat := s.fat[id := FatLock(if n == 0 then None else Some(t), n)],
      held := s.held - multiset{(t, x)})
  }

  /** A lock that the thread does not own raises an exception instead. */
  function TryUnlock(s: State, t: Tid, x: Obj, seen: LockWord): State
    requires t in s.threads && x in s.words
  {
    match seen
    case Unlocked => SetPc(s, t, Idle)
    case Thin(o, c) => if o == t then UnlockThin(s, t, x, c) else SetPc(s, t, Idle)
    case Fat(id) =>
      if id in s.fat && s.fat[id].recursion > 0 && s.fat[id].owner == Some(t) then UnlockFat(s, t, x, id)
      else SetPc(s, t, Idle)
  }

  // Waking the waiters after a release

  function ReadFlag(s: State, t: Tid, x: Obj): State
    requires t in s.threads
  {
    SetPc(s, t, if s.threads[t].contention then WakeIn(x) else Idle)
  }

  function BeginWaking(s: State, t: Tid, x: Obj): State
    requires t in s.threads
  {
    s.(threads := s.threads[t := s.threads[t].(pc := Waking(x, s.threads[t].waiters), mutex := Some(t))])
  }

  /** Whether a waiter waits for some other object whose lock is still thin. */
  predicate NeedsInflation(s: State, x: Obj, w: Tid) {
    && w in s.threads && s.threads[w].waitObj.Some? && s.threads[w].waitObj.value != x
    && s.threads[w].waitObj.value in s.words && !s.words[s.threads[w].waitObj.value].Fat?
  }

  function WakeNext(s: State, t: Tid, x: Obj, pending: seq<Tid>): State
    requires t in s.threads && pending != []
  {
    if NeedsInflation(s, x, pending[0]) then SetPc(s, t, Inflate(s.threads[pending[0]].waitObj.value, ToWaking(x, pending)))
    else SetPc(s, t, Waking(x, pending[1..]))
  }

  function EndWaking(s: State, t: Tid): State
    requires t in s.threads
  {
    s.(threads := s.threads[t := s.threads[t].(pc := Idle, waiters := [], contention := false, mutex := None)])
  }

  function Step(s: State, t: Tid, c: Choice): State
    requires Enabled(s, t, c)
  {
    match s.threads[t].pc
    case Idle => if c.Lock? then SetPc(s, t, Retry(c.x)) else SetPc(s, t, ReadUnlock(c.x))
    case Retry(x) => Read(s, t, x)
    case Cas(x, seen) => TryCas(s, t, x, seen)
    case Bump(x, n) => Relock(s, t, x, n)
    case Inflate(x, k) => TakeFat(s, t, x, k, c == NoFatLock)
    case StoreFat(x, id, k) => Fatten(s, t, x, id, k)
    case Contend(x, o) => QueueIn(s, t, x, o)
    case Recheck(x, o, f) => CheckOwner(s, t, x, o, f)
    case Enqueue(x, o) => Insert(s, t, x, o)
    case Restore(x, o, f) => RestoreFlag(s, t, x, o, f)
    case QueueOut(x, o, notified) => Leave(s, t, x, o, notified)
    case Waiting(x, o) => Woken(s, t, x)
    case EnterFat(x, id) => LockFat(s, t, x, id)
    case ReadUnlock(x) => ReadOwn(s, t, x)
    case Unlocking(x, seen) => TryUnlock(s, t, x, seen)
    case Released(x) => ReadFlag(s, t, x)
    case WakeIn(x) => BeginWaking(s, t, x)
    case Waking(x, pending) => if pending == [] then EndWaking(s, t) else WakeNext(s, t, x, pending)
  }

  function PcObjs(pc: Pc): set<Obj> {
    match pc
    case Idle => {}
    case Fault => {}
    case Inflate(x, ToWaking(r, _)) => {x, r}
    case StoreFat(x, _, ToWaking(r, _)) => {x, r}
    case _ => {pc.x}
  }

  /** A collection found the object dead: its fat lock goes back on the free list. */
  ghost predicate CanRecycle(s: State, x: Obj) {
    && x in s.words && s.words[x].Fat? && s.words[x].id in s.fat
    && s.fat[s.words[x].id].recursion == 0
    && forall t :: t in s.threads ==> x !in PcObjs(s.threads[t].pc) && s.threads[t].waitObj != Some(x)
  }

  ghost function Recycle(s: State, x: Obj): State
    requires CanRecycle(s, x)
  {
    s.(words := s.words[x := Unlocked], free := [s.words[x].id] + s.free)
  }

  ghost predicate Next(s: State, s': State) {
    || (exists t, c :: Enabled(s, t, c) && s' == Step(s, t, c))
    || (exists x :: CanRecycle(s, x) && s' == Recycle(s, x))
  }

  /** All objects unlocked and no thread in the monitor code. */
  ghost predicate Init(s: State) {
    && 0 !in s.threads
    && (forall x :: x in s.words ==> s.words[x] == Unlocked)
    && (forall t :: t in s.threads ==> s.threads[t] == Thread(Idle, false, [], None, None))
    && s.fat == map[] && s.free == [] && s.nextId == 0 && s.held == multiset{}
  }

  ghost predicate Run(r: seq<State>) {
    |r| > 0 && Init(r[0]) && forall i :: 0 <= i < |r| - 1 ==> Next(r[i], r[i + 1])
  }
}
