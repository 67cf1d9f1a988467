/** What contention flags mean, and what a releasing thread does for those who wait. */
module MonitorWaking {
  import opened Options
  import opened MonitorModel
  import opened MonitorInvariant
  import opened MonitorQueue
  import opened MonitorSafety
  import opened MonitorRuns

  // ---------------------------------------------------------------------------
  // The flag

  /** The flag says whether anyone waits; inside a section, what it will be put back to does. */
  ghost predicate FlagOk(s: State, o: Tid)
    requires o in s.threads
  {
    var r := s.threads[o];
    match r.mutex
    case None => r.contention <==> r.waiters != []
    case Some(u) =>
      u in s.threads &&
      match s.threads[u].pc
      case Recheck(_, _, f) => f <==> r.waiters != []
      case Restore(_, _, f) => f <==> r.waiters != []
      case QueueOut(_, _, _) => r.contention <==> r.waiters != []
      case _ => true
  }

  lemma UnqueuedFlag(s: State, s': State, t: Tid, o: Tid)
    requires Queued(s) && Unqueued(s, s', t) && o in s.threads && FlagOk(s, o)
    ensures FlagOk(s', o)
  {
    hide ListOk, PointOk;
  }

  /** Records of which `t` does not hold the mutex stay as they are for the flag. */
  lemma RecordFlag(s: State, s': State, t: Tid, o: Tid)
    requires o in s.threads && o in s'.threads && FlagOk(s, o) && s.threads[o].mutex != Some(t) && t in s'.threads
    requires s'.threads[o].mutex == s.threads[o].mutex && s'.threads[o].waiters == s.threads[o].waiters
    requires s'.threads[o].contention == s.threads[o].contention
    requires forall u :: u in s.threads && u != t ==> u in s'.threads && s'.threads[u].pc == s.threads[u].pc
    ensures FlagOk(s', o)
  {
  }

  lemma ElsewhereFlag(s: State, t: Tid, c: Choice, o: Tid)
    requires Enabled(s, t, c) && Queues(s.threads[t].pc) && s.threads[t].pc.o in s.threads && s.threads[t].pc.o != t
    requires OwnMutexes(s, t) && o in s.threads && o != s.threads[t].pc.o && FlagOk(s, o)
    ensures o in Step(s, t, c).threads && FlagOk(Step(s, t, c), o)
  {
    hide FlagOk;
    assert s.threads[o].mutex == Some(t) <==> InSection(s, t, o);
    RecordFlag(s, Step(s, t, c), t, o);
  }

  lemma VisitedFlag(s: State, t: Tid, c: Choice)
    requires Enabled(s, t, c) && Queues(s.threads[t].pc) && s.threads[t].pc.o in s.threads && s.threads[t].pc.o != t
    requires OwnMutexes(s, t) && PointOk(s, t, s.threads[t].pc) && FlagOk(s, s.threads[t].pc.o)
    ensures s.threads[t].pc.o in Step(s, t, c).threads && FlagOk(Step(s, t, c), s.threads[t].pc.o)
  {
    var o := s.threads[t].pc.o;
    assert s.threads[o].mutex == Some(t) <==> InSection(s, t, o);
  }

  lemma OwnFlag(s: State, t: Tid, c: Choice, o: Tid)
    requires Enabled(s, t, c) && o in s.threads && FlagOk(s, o) && OwnMutexes(s, t)
    requires s.threads[t].pc.WakeIn? || (s.threads[t].pc.Waking? && s.threads[t].pc.pending == [])
    ensures o in Step(s, t, c).threads && FlagOk(Step(s, t, c), o)
  {
    assert s.threads[o].mutex == Some(t) <==> InSection(s, t, o);
    if o != t { RecordFlag(s, Step(s, t, c), t, o); }
  }

  lemma StepFlag(s: State, t: Tid, c: Choice, o: Tid)
    requires Inv(s) && Enabled(s, t, c) && o in s.threads && FlagOk(s, o)
    ensures o in Step(s, t, c).threads && FlagOk(Step(s, t, c), o)
  {
    hide Queued, Typed, Local, Counted, FatPlaced, FlagOk, Step, OwnMutexes, PointOk, Fresh;
    TypedLocal(s, t);
    KnowsOwnMutexes(s, t);
    if !Touches(s.threads[t].pc) {
      StepUnqueued(s, t, c);
      UnqueuedFlag(s, Step(s, t, c), t, o);
    } else if Queues(s.threads[t].pc) {
      QueueLocal(s, t, s.threads[t].pc);
      if o == s.threads[t].pc.o { VisitedFlag(s, t, c); } else { ElsewhereFlag(s, t, c, o); }
    } else {
      OwnFlag(s, t, c, o);
    }
  }

  lemma {:induction false} RunFlags(r: seq<State>, i: nat, o: Tid)
    requires Run(r) && i < |r| && o in r[i].threads
    ensures FlagOk(r[i], o)
  {
    hide Inv, Step, FlagOk, CanRecycle, Enabled;
    if i == 0 {
      StartFlag(r[0], o);
    } else {
      RunInv(r, i - 1);
      var s, s' := r[i - 1], r[i - 1 + 1];
      assert Next(s, s');
      if t, c :| Enabled(s, t, c) && s' == Step(s, t, c) {
        StepKeys(s, t, c);
        RunFlags(r, i - 1, o);
        StepFlag(s, t, c, o);
      } else {
        var x :| CanRecycle(s, x) && s' == Recycle(s, x);
        RunFlags(r, i - 1, o);
        RecycledFlag(s, x, o);
      }
    }
  }

  lemma StartFlag(s: State, o: Tid)
    requires Init(s) && o in s.threads
    ensures FlagOk(s, o)
  {
  }

  lemma RecycledFlag(s: State, x: Obj, o: Tid)
    requires CanRecycle(s, x) && o in s.threads && FlagOk(s, o)
    ensures FlagOk(Recycle(s, x), o)
  {
  }

  lemma StepKeys(s: State, t: Tid, c: Choice)
    requires Inv(s) && Enabled(s, t, c)
    ensures Step(s, t, c).threads.Keys == s.threads.Keys
  {
    hide Queued, Typed, Local, Counted, FatPlaced, Step, Fresh;
    if !Touches(s.threads[t].pc) {
      StepUnqueued(s, t, c);
    } else {
      TypedLocal(s, t);
      if Queues(s.threads[t].pc) { QueueLocal(s, t, s.threads[t].pc); }
      TouchKeys(s, t, c);
    }
  }

  lemma TouchKeys(s: State, t: Tid, c: Choice)
    requires Enabled(s, t, c) && Touches(s.threads[t].pc) && (Queues(s.threads[t].pc) ==> s.threads[t].pc.o in s.threads)
    ensures Step(s, t, c).threads.Keys == s.threads.Keys
  {
  }

  /** When nobody is at a thread's waiter list, its flag is set exactly when someone is on the list. */
  lemma FlagExact(r: seq<State>, i: nat, o: Tid)
    requires Run(r) && i < |r| && o in r[i].threads && r[i].threads[o].mutex == None
    ensures r[i].threads[o].contention <==> r[i].threads[o].waiters != []
  {
    RunFlags(r, i, o);
  }

  // ---------------------------------------------------------------------------
  // The lists

  ghost function ReleasedObj(pc: Pc): Obj
    requires Serving(pc)
  {
    if pc.Waking? then pc.x else pc.k.released
  }

  /** `w` waits for the object just released, or for one whose lock is fat. */
  ghost predicate Served(s: State, w: Tid, x: Obj) {
    && w in s.threads && s.threads[w].waitObj.Some?
    && var y := s.threads[w].waitObj.value; y == x || (y in s.words && s.words[y].Fat?)
  }

  /** All waiters of a waking thread are served or still on its work list; it inflates for the first there. */
  ghost predicate Serves(s: State, t: Tid) {
    t in s.threads && Serving(s.threads[t].pc) &&
    var pc := s.threads[t].pc;
    && (forall w :: w in s.threads[t].waiters ==> w in Pending(pc) || Served(s, w, ReleasedObj(pc)))
    && (!pc.Waking? ==> Pending(pc) != [] && Pending(pc)[0] in s.threads && s.threads[Pending(pc)[0]].waitObj == Some(pc.x))
  }

  /** The listed threads still wait for what they waited for, and fat locks stay fat. */
  ghost predicate WaitsStay(s: State, s': State, t: Tid)
    requires t in s.threads
  {
    && t in s'.threads && s'.threads[t].waiters == s.threads[t].waiters
    && (forall w :: w in s.threads[t].waiters ==> w in s'.threads && w in s.threads && s'.threads[w].waitObj == s.threads[w].waitObj)
    && (forall w :: w in s.threads[t].waiters && s.threads[w].waitObj.Some? ==>
          var y := s.threads[w].waitObj.value; y in s.words && s.words[y].Fat? ==> y in s'.words && s'.words[y].Fat?)
  }

  lemma ServesOn(s: State, s': State, t: Tid)
    requires Serves(s, t) && WaitsStay(s, s', t) && s'.threads[t].pc == s.threads[t].pc
    requires !s.threads[t].pc.Waking? ==> Pending(s.threads[t].pc)[0] in s.threads[t].waiters
    ensures Serves(s', t)
  {
  }

  lemma PendingListed(s: State, t: Tid)
    requires Queued(s) && t in s.threads && Serving(s.threads[t].pc)
    ensures forall i :: 0 <= i < |Pending(s.threads[t].pc)| ==> Pending(s.threads[t].pc)[i] in s.threads[t].waiters
    ensures forall w :: w in s.threads[t].waiters ==> w in s.threads && WaiterOk(s, t, w)
    ensures s.threads[t].mutex == Some(t)
  {
    assert PointOk(s, t, s.threads[t].pc) && ListOk(s, t);
    assert s.threads[t].mutex == Some(t) <==> InSection(s, t, t);
    hide MutexOk, WaiterOk;
  }

  /** A step of another thread takes nobody off a list that is being served. */
  lemma OthersWait(s: State, u: Tid, c: Choice, t: Tid)
    requires Inv(s) && Enabled(s, u, c) && u != t && t in s.threads && Serving(s.threads[t].pc)
    ensures WaitsStay(s, Step(s, u, c), t) && Step(s, u, c).threads[t].pc == s.threads[t].pc
  {
    hide Queued, Typed, Local, Counted, FatPlaced, Step, Fresh, WaiterOk, OwnMutexes, PointOk, ListOk;
    PendingListed(s, t);
    if !Touches(s.threads[u].pc) {
      StepUnqueued(s, u, c);
    } else {
      TypedLocal(s, u);
      KnowsOwnMutexes(s, u);
      if Queues(s.threads[u].pc) { QueueLocal(s, u, s.threads[u].pc); }
      TouchWait(s, u, c, t);
    }
  }

  lemma TouchWait(s: State, u: Tid, c: Choice, t: Tid)
    requires Enabled(s, u, c) && Touches(s.threads[u].pc) && u != t && t in s.threads && s.threads[t].mutex == Some(t)
    requires Queues(s.threads[u].pc) ==> s.threads[u].pc.o in s.threads && s.threads[u].pc.o != u
    requires OwnMutexes(s, u) && forall w :: w in s.threads[t].waiters ==> WaiterOk(s, t, w)
    ensures WaitsStay(s, Step(s, u, c), t) && Step(s, u, c).threads[t].pc == s.threads[t].pc
  {
    assert s.threads[t].mutex == Some(u) <==> InSection(s, u, t);
  }

  /** The thread gives up the inflation it was about to make for a waiter. */
  ghost predicate GivesUp(s: State, s': State, t: Tid) {
    t in s.threads && t in s'.threads && s.threads[t].pc.Inflate? && !s'.threads[t].pc.StoreFat? && s'.threads[t].pc != s.threads[t].pc
  }

  lemma WakeServes(s: State, t: Tid, x: Obj, pending: seq<Tid>)
    requires Serves(s, t) && s.threads[t].pc == Waking(x, pending) && pending != []
    requires pending[0] in s.threads[t].waiters && WaiterOk(s, t, pending[0])
    ensures Serves(WakeNext(s, t, x, pending), t)
  {
    var s' := WakeNext(s, t, x, pending);
    var w := pending[0];
    assert pending == [w] + pending[1..];
    assert Served(s, w, x) || NeedsInflation(s, x, w);
  }

  lemma FattenServes(s: State, t: Tid, y: Obj, id: FatId, k: Cont)
    requires Serves(s, t) && s.threads[t].pc == StoreFat(y, id, k) && y in s.words && s.words[y].Thin?
    ensures Serves(Fatten(s, t, y, id, k), t)
  {
    var pending := k.pending;
    assert pending == [pending[0]] + pending[1..];
  }

  lemma TakeServes(s: State, t: Tid, y: Obj, k: Cont, fail: bool)
    requires Serves(s, t) && s.threads[t].pc == Pc.Inflate(y, k)
    ensures var s' := TakeFat(s, t, y, k, fail); GivesUp(s, s', t) || Serves(s', t)
  {
  }

  /** Its own steps serve one waiter after the other. */
  lemma OwnServes(s: State, t: Tid, c: Choice)
    requires Inv(s) && Enabled(s, t, c) && Serves(s, t) && s.threads[t].pc != Waking(ReleasedObj(s.threads[t].pc), [])
    ensures GivesUp(s, Step(s, t, c), t) || Serves(Step(s, t, c), t)
  {
    hide Queued, Typed, Local, Counted, FatPlaced, Fresh, WaiterOk, Serves, GivesUp;
    assert Serving(s.threads[t].pc) by { ServesServing(s, t); }
    PendingListed(s, t);
    StepIsServing(s, t, c);
    hide Step, Enabled;
    match s.threads[t].pc
    case Waking(x, pending) =>
      assert Pending(s.threads[t].pc) == pending && pending != [];
      assert Pending(s.threads[t].pc)[0] in s.threads[t].waiters;
      WakeServes(s, t, x, pending);
    case Inflate(y, k) => TakeServes(s, t, y, k, c == NoFatLock);
    case StoreFat(y, id, k) => FattenServes(s, t, y, id, k);
    case _ =>
  }

  lemma ServesServing(s: State, t: Tid)
    requires Serves(s, t)
    ensures t in s.threads && Serving(s.threads[t].pc)
  {
  }

  lemma StepIsServing(s: State, t: Tid, c: Choice)
    requires Enabled(s, t, c) && Serving(s.threads[t].pc)
    ensures match s.threads[t].pc
            case Waking(x, pending) => Step(s, t, c) == if pending == [] then EndWaking(s, t) else WakeNext(s, t, x, pending)
            case Inflate(y, k) => Step(s, t, c) == TakeFat(s, t, y, k, c == NoFatLock)
            case StoreFat(y, id, k) => y in s.words && s.words[y].Thin? && Step(s, t, c) == Fatten(s, t, y, id, k)
            case _ => true
  {
  }

  lemma RecycleWaits(s: State, x: Obj, t: Tid)
    requires CanRecycle(s, x) && t in s.threads && forall w :: w in s.threads[t].waiters ==> w in s.threads
    ensures WaitsStay(s, Recycle(s, x), t) && Recycle(s, x).threads == s.threads
  {
  }

  /** A waking thread that goes on has served everyone who is no longer on its work list. */
  lemma ServesNext(s: State, s': State, t: Tid)
    requires Inv(s) && Next(s, s') && Serves(s, t) && t in s'.threads && Serving(s'.threads[t].pc) && !GivesUp(s, s', t)
    ensures Serves(s', t)
  {
    hide Typed, Counted, FatPlaced, Fresh, Step, CanRecycle, Enabled, GivesUp, Serves, Queued, WaitsStay;
    ServesServing(s, t);
    PendingListed(s, t);
    FirstListed(s, t);
    if u, c :| Enabled(s, u, c) && s' == Step(s, u, c) {
      if u == t {
        if s.threads[t].pc == Waking(ReleasedObj(s.threads[t].pc), []) { LastWakes(s, t, c); } else { OwnServes(s, t, c); }
      } else {
        OthersWait(s, u, c, t);
        ServesOn(s, s', t);
      }
    } else {
      var x :| CanRecycle(s, x) && s' == Recycle(s, x);
      RecycleWaits(s, x, t);
      ServesOn(s, s', t);
    }
  }

  lemma FirstListed(s: State, t: Tid)
    requires Serves(s, t) && forall i :: 0 <= i < |Pending(s.threads[t].pc)| ==> Pending(s.threads[t].pc)[i] in s.threads[t].waiters
    ensures !s.threads[t].pc.Waking? ==> Pending(s.threads[t].pc) != [] && Pending(s.threads[t].pc)[0] in s.threads[t].waiters
  {
  }

  /** With nothing left on its work list the thread is done. */
  lemma LastWakes(s: State, t: Tid, c: Choice)
    requires Enabled(s, t, c) && Serving(s.threads[t].pc) && s.threads[t].pc == Waking(ReleasedObj(s.threads[t].pc), [])
    ensures t in Step(s, t, c).threads ==> !Serving(Step(s, t, c).threads[t].pc)
  {
  }

  // ---------------------------------------------------------------------------
  // A whole release

  /** From entry `i` on, where `t` is about to lock its list, to entry `j` it is at that list, giving up no inflation. */
  ghost predicate ServingFrom(r: seq<State>, i: nat, j: nat, t: Tid)
    requires i < j < |r|
  {
    && t in r[i].threads && r[i].threads[t].pc.WakeIn?
    && forall k :: i < k <= j ==> t in r[k].threads && Serving(r[k].threads[t].pc) && (k < j ==> !GivesUp(r[k], r[k + 1], t))
  }

  lemma FirstServes(s: State, s': State, t: Tid)
    requires Inv(s) && Next(s, s') && t in s.threads && s.threads[t].pc.WakeIn? && t in s'.threads && Serving(s'.threads[t].pc)
    ensures Serves(s', t) && ReleasedObj(s'.threads[t].pc) == s.threads[t].pc.x
  {
    hide Typed, Counted, FatPlaced, Fresh, Queued, Step, CanRecycle, Enabled, Serves, NextPc;
    if u, c :| Enabled(s, u, c) && s' == Step(s, u, c) {
      EnabledWork(s, u, c);
      StepWork(s, u, c);
      if u == t { BeginStep(s, t, c); } else { NotServing(s.threads[t].pc); }
    } else {
      NotServing(s.threads[t].pc);
      RecycledSame(s, s');
      assert false;
    }
  }

  lemma RecycledSame(s: State, s': State)
    requires exists x :: CanRecycle(s, x) && s' == Recycle(s, x)
    ensures s'.threads == s.threads
  {
  }

  lemma BeginStep(s: State, t: Tid, c: Choice)
    requires Enabled(s, t, c) && s.threads[t].pc.WakeIn?
    ensures Serves(Step(s, t, c), t) && ReleasedObj(Step(s, t, c).threads[t].pc) == s.threads[t].pc.x
  {
  }

  lemma EnabledWork(s: State, u: Tid, c: Choice)
    requires Inv(s) && Enabled(s, u, c)
    ensures u in s.threads && WorkLeft(s.threads[u].pc)
  {
    hide Sound, Queued, Fresh;
  }

  lemma NotServing(pc: Pc)
    ensures pc.WakeIn? ==> !Serving(pc)
  {
  }

  lemma {:induction false} ServingAll(r: seq<State>, i: nat, j: nat, t: Tid)
    requires Run(r) && i < j < |r| && ServingFrom(r, i, j, t)
    ensures Serves(r[j], t) && ReleasedObj(r[j].threads[t].pc) == r[i].threads[t].pc.x
    decreases j
  {
    hide Inv, Next, Serves, GivesUp;
    RunInv(r, j - 1);
    assert Next(r[j - 1], r[j - 1 + 1]);
    if j == i + 1 {
      FirstServes(r[i], r[j], t);
    } else {
      ServingAll(r, i, j - 1, t);
      ServesNext(r[j - 1], r[j], t);
      SameReleased(r[j - 1], r[j], t);
    }
  }

  lemma SameReleased(s: State, s': State, t: Tid)
    requires Inv(s) && Next(s, s') && t in s.threads && Serving(s.threads[t].pc) && t in s'.threads && Serving(s'.threads[t].pc)
    ensures ReleasedObj(s'.threads[t].pc) == ReleasedObj(s.threads[t].pc)
  {
    hide Inv, Step, CanRecycle, Enabled, NextPc;
    if u, c :| Enabled(s, u, c) && s' == Step(s, u, c) {
      EnabledWork(s, u, c);
      StepWork(s, u, c);
      if u == t { OwnReleased(s, t, c); }
    } else {
      var x :| CanRecycle(s, x) && s' == Recycle(s, x);
    }
  }

  lemma OwnReleased(s: State, t: Tid, c: Choice)
    requires Enabled(s, t, c) && Serving(s.threads[t].pc)
    ensures Serving(NextPc(s, t, c)) ==> ReleasedObj(NextPc(s, t, c)) == ReleasedObj(s.threads[t].pc)
  {
  }

  /** When a releasing thread is through with its list, each waiter there waits for the object
      just released, or for one whose lock is fat by now, unless an inflation has failed. */
  lemma EveryoneServed(r: seq<State>, i: nat, j: nat, t: Tid, x: Obj, w: Tid)
    requires Run(r) && i < j < |r| && ServingFrom(r, i, j, t) && r[j].threads[t].pc == Waking(x, [])
    requires w in r[j].threads[t].waiters
    ensures r[i].threads[t].pc == WakeIn(x) && w in r[j].threads && r[j].threads[w].waitObj.Some?
    ensures var y := r[j].threads[w].waitObj.value; y == x || (y in r[j].words && r[j].words[y].Fat?)
  {
    ServingAll(r, i, j, t);
    hide Run, ServingFrom;
    assert Served(r[j], w, x);
  }
}
