/** What a lock attempt comes to: whoever returns from it has the object, but for the named refusals. */
module MonitorLocking {
  import opened Options
  import opened MonitorModel
  import opened MonitorInvariant
  import opened MonitorQueue
  import opened MonitorSafety
  import opened MonitorRuns

  /** At a point of locking `x`. */
  ghost predicate Locking(pc: Pc, x: Obj) {
    match pc
    case Retry(y) => y == x
    case Cas(y, _) => y == x
    case Bump(y, _) => y == x
    case EnterFat(y, _) => y == x
    case Inflate(y, ToRetry) => y == x
    case StoreFat(y, _, ToRetry) => y == x
    case Contend(y, _) => y == x
    case Recheck(y, _, _) => y == x
    case Enqueue(y, _) => y == x
    case Restore(y, _, _) => y == x
    case QueueOut(y, _, _) => y == x
    case Waiting(y, _) => y == x
    case _ => false
  }

  /** The two ways a lock attempt can be refused: the count is at its largest, or no fat lock can be had. */
  ghost predicate Refused(s: State, t: Tid) {
    t in s.threads &&
    match s.threads[t].pc
    case EnterFat(_, id) => id in s.fat && s.fat[id] == FatLock(Some(t), MAX_JINT)
    case Inflate(_, ToRetry) => s.free == []
    case _ => false
  }

  /** The same, when this step is the one that cannot get a lock. */
  ghost predicate RefusedNow(s: State, t: Tid, c: Choice) {
    Refused(s, t) && (s.threads[t].pc.Inflate? ==> c == NoFatLock || s.nextId >= s.limit)
  }

  ghost predicate Acquired(s: State, s': State, t: Tid, x: Obj) {
    s'.held == s.held + multiset{(t, x)} && x in s'.words && Owner(s', x) == Some(t)
  }

  lemma CasLocks(s: State, t: Tid, x: Obj, seen: LockWord)
    requires t in s.threads && x in s.words && s.threads[t].pc == Cas(x, seen)
    ensures var s' := TryCas(s, t, x, seen);
            && t in s'.threads
            && (s.words[x] == Unlocked ==> s'.threads[t].pc.Idle? && Acquired(s, s', t, x))
            && (s.words[x] != Unlocked ==> s'.threads[t].pc == AfterCas(t, x, seen) && s'.held == s.held)
  {
  }

  lemma AfterCasLocks(t: Tid, x: Obj, seen: LockWord)
    ensures var pc := AfterCas(t, x, seen); !pc.Idle? && (pc.Fault? || Locking(pc, x))
  {
  }

  lemma BumpLocks(s: State, t: Tid, x: Obj, n: nat)
    requires t in s.threads && x in s.words
    ensures var s' := Relock(s, t, x, n); t in s'.threads && s'.threads[t].pc.Idle? && Acquired(s, s', t, x)
  {
  }

  lemma FatLocks(s: State, t: Tid, x: Obj, id: FatId)
    requires t in s.threads && x in s.words && s.words[x] == Fat(id) && id in s.fat && FatOk(s, s.fat[id])
    requires s.fat[id].recursion == 0 || s.fat[id].owner == Some(t)
    ensures var s' := LockFat(s, t, x, id);
            && t in s'.threads && s'.threads[t].pc.Idle?
            && if s.fat[id] == FatLock(Some(t), MAX_JINT) then s'.held == s.held else Acquired(s, s', t, x)
  {
  }

  lemma InflateLocks(s: State, t: Tid, x: Obj, fail: bool)
    requires t in s.threads && s.threads[t].pc == Pc.Inflate(x, ToRetry)
    ensures var s' := TakeFat(s, t, x, ToRetry, fail);
            && t in s'.threads && s'.held == s.held
            && if s.free == [] && (fail || s.nextId >= s.limit) then s'.threads[t].pc.Idle? else Locking(s'.threads[t].pc, x)
  {
  }

  /** Points at which an acquisition is entered or taken back. */
  ghost predicate Counts(pc: Pc) {
    pc.Cas? || pc.Bump? || pc.EnterFat? || pc.Unlocking?
  }

  /** At all other points of locking and unlocking nothing is acquired or released. */
  lemma NothingHeld(s: State, t: Tid, c: Choice)
    requires Enabled(s, t, c) && !Counts(s.threads[t].pc)
    ensures Step(s, t, c).held == s.held
  {
  }

  lemma WaysOn(s: State, t: Tid, c: Choice, x: Obj)
    requires Enabled(s, t, c) && Locking(s.threads[t].pc, x) && !Counts(s.threads[t].pc) && !s.threads[t].pc.Inflate?
    ensures t in Step(s, t, c).threads && Locking(Step(s, t, c).threads[t].pc, x)
  {
  }

  /** What a step of a lock attempt comes to: it goes on without acquiring anything, it returns
      with exactly one more acquisition and the thread as the owner, it is refused, or it hits the fault. */
  ghost predicate Outcome(s: State, s': State, t: Tid, c: Choice, x: Obj) {
    && t in s'.threads
    && (match s'.threads[t].pc
        case Idle => if RefusedNow(s, t, c) then s'.held == s.held else Acquired(s, s', t, x)
        case Fault => s'.held == s.held
        case pc => Locking(pc, x) && s'.held == s.held)
    && (RefusedNow(s, t, c) ==> s'.threads[t].pc.Idle?)
  }

  lemma CasOutcome(s: State, t: Tid, c: Choice, x: Obj, seen: LockWord)
    requires t in s.threads && x in s.words && s.threads[t].pc == Cas(x, seen)
    ensures Outcome(s, TryCas(s, t, x, seen), t, c, x)
  {
    CasLocks(s, t, x, seen);
    AfterCasLocks(t, x, seen);
    hide TryCas, AfterCas, Acquired, Locking;
  }

  lemma BumpOutcome(s: State, t: Tid, c: Choice, x: Obj, n: nat)
    requires t in s.threads && x in s.words && s.threads[t].pc == Bump(x, n)
    ensures Outcome(s, Relock(s, t, x, n), t, c, x)
  {
    BumpLocks(s, t, x, n);
    hide Relock, Acquired, Locking;
  }

  lemma FatOutcome(s: State, t: Tid, c: Choice, x: Obj, id: FatId)
    requires t in s.threads && x in s.words && s.threads[t].pc == EnterFat(x, id)
    requires s.words[x] == Fat(id) && id in s.fat && FatOk(s, s.fat[id]) && (s.fat[id].recursion == 0 || s.fat[id].owner == Some(t))
    ensures Outcome(s, LockFat(s, t, x, id), t, c, x)
  {
    FatLocks(s, t, x, id);
    hide LockFat, Acquired, Locking, FatOk;
  }

  lemma InflateOutcome(s: State, t: Tid, c: Choice, x: Obj)
    requires t in s.threads && s.threads[t].pc == Pc.Inflate(x, ToRetry)
    ensures Outcome(s, TakeFat(s, t, x, ToRetry, c == NoFatLock), t, c, x)
  {
    InflateLocks(s, t, x, c == NoFatLock);
    NotIdle(TakeFat(s, t, x, ToRetry, c == NoFatLock).threads[t].pc, x);
    hide TakeFat, Acquired, Locking;
  }

  lemma NotIdle(pc: Pc, x: Obj)
    ensures Locking(pc, x) ==> !pc.Idle? && !pc.Fault?
  {
  }

  lemma WayOutcome(s: State, t: Tid, c: Choice, x: Obj)
    requires Enabled(s, t, c) && Locking(s.threads[t].pc, x) && !Counts(s.threads[t].pc) && !s.threads[t].pc.Inflate?
    ensures Outcome(s, Step(s, t, c), t, c, x)
  {
    NothingHeld(s, t, c);
    WaysOn(s, t, c, x);
    NotIdle(Step(s, t, c).threads[t].pc, x);
    hide Step, Enabled, Acquired, Locking;
  }

  lemma LockStep(s: State, t: Tid, c: Choice, x: Obj)
    requires Inv(s) && Enabled(s, t, c) && Locking(s.threads[t].pc, x)
    ensures Outcome(s, Step(s, t, c), t, c, x)
  {
    LockKnows(s, t, x);
    StepIs(s, t, c);
    hide Inv, Step, Outcome, FatOk, Enabled;
    match s.threads[t].pc
    case Cas(_, seen) => CasOutcome(s, t, c, x, seen);
    case Bump(_, n) => BumpOutcome(s, t, c, x, n);
    case EnterFat(_, id) => FatOutcome(s, t, c, x, id);
    case Inflate(_, _) => InflateOutcome(s, t, c, x);
    case _ => WayOutcome(s, t, c, x);
  }

  lemma LockKnows(s: State, t: Tid, x: Obj)
    requires Inv(s) && t in s.threads && Locking(s.threads[t].pc, x)
    ensures x in s.words
    ensures s.threads[t].pc.EnterFat? ==>
              var id := s.threads[t].pc.id; s.words[x] == Fat(id) && id in s.fat && FatOk(s, s.fat[id])
  {
    hide Queued, Counted, Fresh, WorkLeft;
    TypedLocal(s, t);
    if s.threads[t].pc.EnterFat? {
      assert WordOk(s, s.words[x]);
      FatKnows(s, s.threads[t].pc.id);
    }
    hide FatPlaced, Typed;
  }

  lemma StepIs(s: State, t: Tid, c: Choice)
    requires Enabled(s, t, c)
    ensures match s.threads[t].pc
            case Cas(x, seen) => Step(s, t, c) == TryCas(s, t, x, seen)
            case Bump(x, n) => Step(s, t, c) == Relock(s, t, x, n)
            case EnterFat(x, id) => Step(s, t, c) == LockFat(s, t, x, id)
            case Inflate(x, k) => Step(s, t, c) == TakeFat(s, t, x, k, c == NoFatLock)
            case _ => true
    ensures s.threads[t].pc.EnterFat? ==> var id := s.threads[t].pc.id; id in s.fat && (s.fat[id].recursion == 0 || s.fat[id].owner == Some(t))
  {
  }

  // ---------------------------------------------------------------------------
  // Whole lock calls

  /** In the middle of locking `x`, with as much held as at the start, or at the fault. */
  ghost predicate Trying(s: State, t: Tid, x: Obj, n: nat) {
    t in s.threads && (s.threads[t].pc.Fault? || (Locking(s.threads[t].pc, x) && s.held[(t, x)] == n))
  }

  ghost predicate Returned(s: State, t: Tid, x: Obj, n: nat) {
    t in s.threads && s.threads[t].pc.Idle? && s.held[(t, x)] == n + 1 && x in s.words && Owner(s, x) == Some(t)
  }

  lemma OthersLeave(s: State, u: Tid, c: Choice, t: Tid, x: Obj)
    requires Inv(s) && Enabled(s, u, c) && u != t && t in s.threads
    ensures var s' := Step(s, u, c);
            t in s'.threads ==> s'.threads[t].pc == s.threads[t].pc && s'.held[(t, x)] == s.held[(t, x)]
  {
    StepMine(s, u, c);
    StepWork(s, u, c);
    hide Step, Inv, NextPc;
  }

  lemma TryNext(s: State, s': State, t: Tid, x: Obj, n: nat)
    requires Inv(s) && Next(s, s') && Trying(s, t, x, n) && t in s'.threads
    ensures Trying(s', t, x, n) || Returned(s', t, x, n) || (Refused(s, t) && s'.threads[t].pc.Idle? && s'.held[(t, x)] == n)
  {
    hide Inv, Step, CanRecycle, Recycle, Acquired, Enabled;
    if u, c :| Enabled(s, u, c) && s' == Step(s, u, c) {
      if u != t {
        OthersLeave(s, u, c, t, x);
      } else {
        NotAtFault(s, t, c);
        LockStep(s, t, c, x);
        AcquiredOnce(s, s', t, x);
      }
    } else {
      var y :| CanRecycle(s, y) && s' == Recycle(s, y);
      RecycleLeaves(s, y);
    }
  }

  lemma AcquiredOnce(s: State, s': State, t: Tid, x: Obj)
    ensures Acquired(s, s', t, x) ==> s'.held[(t, x)] == s.held[(t, x)] + 1 && x in s'.words && Owner(s', x) == Some(t)
  {
  }

  lemma NotAtFault(s: State, t: Tid, c: Choice)
    requires Enabled(s, t, c)
    ensures t in s.threads && !s.threads[t].pc.Fault?
  {
  }

  lemma RecycleLeaves(s: State, y: Obj)
    requires CanRecycle(s, y)
    ensures Recycle(s, y).threads == s.threads && Recycle(s, y).held == s.held
  {
  }

  /** A call to lock `x` that begins after state `i` and returns in state `j`, whatever other
      threads do in between, has added one acquisition and made the thread the owner, unless it
      was refused in its last step and added nothing. */
  lemma LockReturns(r: seq<State>, i: nat, j: nat, t: Tid, x: Obj)
    requires Run(r) && i + 1 < j < |r| && forall k :: i <= k <= j ==> t in r[k].threads
    requires r[i].threads[t].pc.Idle? && r[i + 1].threads[t].pc == Retry(x)
    requires (forall k :: i < k < j ==> !r[k].threads[t].pc.Idle?) && r[j].threads[t].pc.Idle?
    ensures Returned(r[j], t, x, r[i].held[(t, x)]) || (Refused(r[j - 1], t) && r[j].held[(t, x)] == r[i].held[(t, x)])
  {
    hide *;
    var n := r[i].held[(t, x)];
    CallBegins(r, i, t, x);
    StillIn(r, i, j - 1, t, x, n);
    TryEnds(r, j - 1, t, x, n);
  }

  lemma {:induction false} StillIn(r: seq<State>, i: nat, k: nat, t: Tid, x: Obj, n: nat)
    requires Run(r) && i < k < |r| && Trying(r[i + 1], t, x, n)
    requires forall m :: i < m <= k ==> t in r[m].threads && !r[m].threads[t].pc.Idle?
    ensures Trying(r[k], t, x, n)
  {
    hide *;
    if i + 1 < k {
      StillIn(r, i, k - 1, t, x, n);
      TryOn(r, k - 1, t, x, n);
    }
  }

  lemma TryOn(r: seq<State>, k: nat, t: Tid, x: Obj, n: nat)
    requires Run(r) && k + 1 < |r| && Trying(r[k], t, x, n) && t in r[k + 1].threads && !r[k + 1].threads[t].pc.Idle?
    ensures Trying(r[k + 1], t, x, n)
  {
    RunInv(r, k);
    RunNext(r, k);
    TryNext(r[k], r[k + 1], t, x, n);
    NotReturned(r[k + 1], t, x, n);
    hide *;
  }

  lemma TryEnds(r: seq<State>, k: nat, t: Tid, x: Obj, n: nat)
    requires Run(r) && k + 1 < |r| && Trying(r[k], t, x, n) && t in r[k + 1].threads && r[k + 1].threads[t].pc.Idle?
    ensures Returned(r[k + 1], t, x, n) || (Refused(r[k], t) && r[k + 1].held[(t, x)] == n)
  {
    RunInv(r, k);
    RunNext(r, k);
    TryNext(r[k], r[k + 1], t, x, n);
    StillTrying(r[k + 1], t, x, n);
    hide *;
  }

  lemma RunNext(r: seq<State>, k: nat)
    requires Run(r) && k + 1 < |r|
    ensures Next(r[k], r[k + 1])
  {
  }

  lemma StillTrying(s: State, t: Tid, x: Obj, n: nat)
    requires t in s.threads && s.threads[t].pc.Idle?
    ensures !Trying(s, t, x, n)
  {
  }

  lemma NotReturned(s: State, t: Tid, x: Obj, n: nat)
    requires t in s.threads && !s.threads[t].pc.Idle?
    ensures !Returned(s, t, x, n)
  {
  }

  lemma CallBegins(r: seq<State>, i: nat, t: Tid, x: Obj)
    requires Run(r) && i + 1 < |r| && t in r[i].threads && t in r[i + 1].threads
    requires r[i].threads[t].pc.Idle? && r[i + 1].threads[t].pc == Retry(x)
    ensures Trying(r[i + 1], t, x, r[i].held[(t, x)])
  {
    hide Inv, Step, CanRecycle, Recycle, Enabled;
    var s, s' := r[i], r[i + 1];
    RunInv(r, i);
    RunNext(r, i);
    if u, c :| Enabled(s, u, c) && s' == Step(s, u, c) {
      if u != t { OthersLeave(s, u, c, t, x); } else { NothingHeld(s, t, c); }
    } else {
      var y :| CanRecycle(s, y) && s' == Recycle(s, y);
      RecycleLeaves(s, y);
    }
  }

  // ---------------------------------------------------------------------------
  // Whole unlock calls

  /** In the middle of unlocking `x`: before, with as much held as at the start, or after, with one less. */
  ghost predicate Giving(s: State, t: Tid, x: Obj, n: nat) {
    t in s.threads &&
    match s.threads[t].pc
    case ReadUnlock(y) => y == x && s.held[(t, x)] == n
    case Unlocking(y, _) => y == x && s.held[(t, x)] == n
    case pc => Releasing(pc, x) && s.held[(t, x)] + 1 == n
  }

  /** What an unlock call leaves held. */
  ghost predicate Given(s: State, t: Tid, x: Obj, n: nat) {
    t in s.threads && s.threads[t].pc.Idle? && s.held[(t, x)] == if n > 0 then n - 1 else 0
  }

  lemma UnlockSteps(s: State, t: Tid, x: Obj, seen: LockWord)
    requires t in s.threads && x in s.words
    ensures var s' := TryUnlock(s, t, x, seen); t in s'.threads && (s'.threads[t].pc == Pc.Idle || s'.threads[t].pc == Released(x))
  {
  }

  lemma ReadsUnlock(s: State, t: Tid, c: Choice, x: Obj)
    requires Enabled(s, t, c) && s.threads[t].pc == ReadUnlock(x)
    ensures x in s.words && Step(s, t, c) == SetPc(s, t, Unlocking(x, s.words[x]))
  {
  }

  lemma ReleasedReleases(x: Obj)
    ensures Releasing(Released(x), x)
  {
  }

  lemma UnlockGives(s: State, t: Tid, c: Choice, x: Obj, seen: LockWord, n: nat)
    requires Inv(s) && Enabled(s, t, c) && s.threads[t].pc == Unlocking(x, seen) && s.held[(t, x)] == n
    ensures Giving(Step(s, t, c), t, x, n) || Given(Step(s, t, c), t, x, n)
  {
    UnlockExactly(s, t, c, x, seen);
    StepIsUnlock(s, t, c, x, seen);
    UnlockSteps(s, t, x, seen);
    hide Inv, Step, TryUnlock, Enabled, Depth, FatPlaced, KnownWord, Releasing;
    assert Releasing(Released(x), x) by { ReleasedReleases(x); }
  }

  lemma GiveReads(s: State, t: Tid, c: Choice, x: Obj, n: nat)
    requires Enabled(s, t, c) && Giving(s, t, x, n) && s.threads[t].pc.ReadUnlock?
    ensures Giving(Step(s, t, c), t, x, n)
  {
    ReadsUnlock(s, t, c, x);
    hide Step, Enabled;
  }

  lemma GiveReleases(s: State, t: Tid, c: Choice, x: Obj, n: nat)
    requires Inv(s) && Enabled(s, t, c) && Giving(s, t, x, n) && !s.threads[t].pc.ReadUnlock? && !s.threads[t].pc.Unlocking?
    ensures Giving(Step(s, t, c), t, x, n) || Given(Step(s, t, c), t, x, n)
  {
    ReleasingCounts(s.threads[t].pc, x);
    NothingHeld(s, t, c);
    ReleaseProgress(s, t, c, x);
    hide Inv, Step, Enabled;
    NearerGives(s, Step(s, t, c), t, x, n);
  }

  lemma ReleasingCounts(pc: Pc, x: Obj)
    ensures Releasing(pc, x) ==> !Counts(pc)
  {
  }

  lemma NearerGives(s: State, s': State, t: Tid, x: Obj, n: nat)
    requires Nearer(s, s', t, x) && s'.held[(t, x)] + 1 == n
    ensures Giving(s', t, x, n) || Given(s', t, x, n)
  {
    hide StepsLeft;
  }

  lemma GiveStep(s: State, t: Tid, c: Choice, x: Obj, n: nat)
    requires Inv(s) && Enabled(s, t, c) && Giving(s, t, x, n)
    ensures Giving(Step(s, t, c), t, x, n) || Given(Step(s, t, c), t, x, n)
  {
    hide Inv, Step, Enabled, Given;
    match s.threads[t].pc
    case Unlocking(_, seen) => UnlockGives(s, t, c, x, seen, n);
    case ReadUnlock(_) => GiveReads(s, t, c, x, n);
    case _ => GiveReleases(s, t, c, x, n);
  }

  lemma GiveNext(s: State, s': State, t: Tid, x: Obj, n: nat)
    requires Inv(s) && Next(s, s') && Giving(s, t, x, n) && t in s'.threads
    ensures Giving(s', t, x, n) || Given(s', t, x, n)
  {
    hide Inv, Step, CanRecycle, Recycle, Enabled, Given;
    if u, c :| Enabled(s, u, c) && s' == Step(s, u, c) {
      if u != t { OthersLeave(s, u, c, t, x); } else { GiveStep(s, t, c, x, n); }
    } else {
      var y :| CanRecycle(s, y) && s' == Recycle(s, y);
      RecycleLeaves(s, y);
    }
  }

  /** A call to unlock `x`, from the state in which it has begun to the one in which it returns,
      takes back exactly one acquisition if the thread had any, and otherwise none. */
  lemma UnlockReturns(r: seq<State>, i: nat, j: nat, t: Tid, x: Obj)
    requires Run(r) && i < j < |r| && forall k :: i <= k <= j ==> t in r[k].threads
    requires r[i].threads[t].pc == ReadUnlock(x)
    requires (forall k :: i < k < j ==> !r[k].threads[t].pc.Idle?) && r[j].threads[t].pc.Idle?
    ensures Given(r[j], t, x, r[i].held[(t, x)])
  {
    hide *;
    var n := r[i].held[(t, x)];
    GivingBegins(r[i], t, x);
    StillGiving(r, i, j - 1, t, x, n);
    GiveEnds(r, j - 1, t, x, n);
  }

  lemma GivingBegins(s: State, t: Tid, x: Obj)
    requires t in s.threads && s.threads[t].pc == ReadUnlock(x)
    ensures Giving(s, t, x, s.held[(t, x)])
  {
  }

  lemma {:induction false} StillGiving(r: seq<State>, i: nat, k: nat, t: Tid, x: Obj, n: nat)
    requires Run(r) && i <= k < |r| && Giving(r[i], t, x, n)
    requires forall m :: i < m <= k ==> t in r[m].threads && !r[m].threads[t].pc.Idle?
    ensures Giving(r[k], t, x, n)
  {
    hide *;
    if i < k {
      StillGiving(r, i, k - 1, t, x, n);
      GiveOn(r, k - 1, t, x, n);
    }
  }

  lemma GiveOn(r: seq<State>, k: nat, t: Tid, x: Obj, n: nat)
    requires Run(r) && k + 1 < |r| && Giving(r[k], t, x, n) && t in r[k + 1].threads && !r[k + 1].threads[t].pc.Idle?
    ensures Giving(r[k + 1], t, x, n)
  {
    RunInv(r, k);
    RunNext(r, k);
    GiveNext(r[k], r[k + 1], t, x, n);
    NotGiven(r[k + 1], t, x, n);
    hide *;
  }

  lemma GiveEnds(r: seq<State>, k: nat, t: Tid, x: Obj, n: nat)
    requires Run(r) && k + 1 < |r| && Giving(r[k], t, x, n) && t in r[k + 1].threads && r[k + 1].threads[t].pc.Idle?
    ensures Given(r[k + 1], t, x, n)
  {
    RunInv(r, k);
    RunNext(r, k);
    GiveNext(r[k], r[k + 1], t, x, n);
    NotGiving(r[k + 1], t, x, n);
    hide *;
  }

  lemma NotGiven(s: State, t: Tid, x: Obj, n: nat)
    requires t in s.threads && !s.threads[t].pc.Idle?
    ensures !Given(s, t, x, n)
  {
  }

  lemma NotGiving(s: State, t: Tid, x: Obj, n: nat)
    requires t in s.threads && s.threads[t].pc.Idle?
    ensures !Giving(s, t, x, n)
  {
  }
}
