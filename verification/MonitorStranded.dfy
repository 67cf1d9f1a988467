/**
 When a waiter can be left on the list of a thread that will not wake it. The recheck of
 the owner compares thread ids without looking whether the lockword is a fat one, and takes
 lock `id` for thread `id / 32`. Which initial states lead there is decided exactly.
 */
module MonitorStranded {
  import opened Options
  import opened MonitorModel
  import opened MonitorInvariant
  import opened MonitorQueue
  import opened MonitorSafety
  import opened MonitorRuns
  import opened MonitorPaths

  /** `w` is on the list of `o`, which neither holds what it waits for nor is releasing it. */
  ghost predicate Misplaced(s: State, o: Tid, w: Tid) {
    && o in s.threads && w in s.threads && w in s.threads[o].waiters && s.threads[w].waitObj.Some?
    && var x := s.threads[w].waitObj.value;
    && x in s.words && Owner(s, x) != Some(o) && !Releasing(s.threads[o].pc, x)
  }

  /** `w` sleeps although nobody holds what it waits for, and the one thread that could wake
      it holds nothing and is outside the locking code. */
  ghost predicate Stranded(s: State, o: Tid, w: Tid) {
    && o in s.threads && w in s.threads && w in s.threads[o].waiters
    && s.threads[w].pc.Waiting? && s.threads[w].waitObj == Some(s.threads[w].pc.x)
    && s.threads[w].pc.x in s.words && Owner(s, s.threads[w].pc.x) == None
    && s.threads[o].pc.Idle? && !s.threads[w].pc.Idle? && forall y :: s.held[(o, y)] == 0
  }

  lemma StrandedMisplaced(s: State, o: Tid, w: Tid)
    requires Stranded(s, o, w)
    ensures Misplaced(s, o, w)
  {
  }

  // ---------------------------------------------------------------------------
  // Fat locks are made only for objects

  /** Each fat lock is free, on an object, or in the hands of an inflating thread. */
  ghost predicate HasPlace(s: State, id: FatId) {
    || id in s.free
    || (exists x :: x in s.words && s.words[x] == Fat(id))
    || (exists t :: t in s.threads && s.threads[t].pc.StoreFat? && s.threads[t].pc.id == id)
  }

  ghost predicate AllPlaced(s: State) {
    (forall id: FatId :: id < s.nextId ==> HasPlace(s, id)) && s.nextId <= |s.words|
  }

  /** The object a fat lock is on or about to be on. */
  ghost function Place(s: State, id: FatId): Obj
    requires HasPlace(s, id) && s.free == []
  {
    if exists x :: x in s.words && s.words[x] == Fat(id) then
      var x :| x in s.words && s.words[x] == Fat(id); x
    else
      var t :| t in s.threads && s.threads[t].pc.StoreFat? && s.threads[t].pc.id == id; s.threads[t].pc.x
  }

  lemma {:induction false} Pigeons(f: seq<Obj>, inside: set<Obj>)
    requires forall i :: 0 <= i < |f| ==> f[i] in inside
    requires forall i, j :: 0 <= i < j < |f| ==> f[i] != f[j]
    ensures |f| <= |inside|
  {
    if f != [] {
      var n := |f| - 1;
      Pigeons(f[..n], inside - {f[n]});
    }
  }

  /** A lock made while none is free leaves room for the object it is made for. */
  lemma RoomLeft(s: State, t: Tid, x: Obj, k: Cont)
    requires Sound(s) && AllPlaced(s) && s.free == [] && t in s.threads && s.threads[t].pc == Pc.Inflate(x, k)
    ensures s.nextId + 1 <= |s.words|
  {
    InflateKnows(s, t, x, k, 0);
    var f := seq(s.nextId, i requires 0 <= i < s.nextId => Place(s, i));
    forall i | 0 <= i < s.nextId
      ensures f[i] in s.words.Keys - {x}
    {
      PlaceInside(s, t, x, i);
    }
    forall i, j | 0 <= i < j < s.nextId
      ensures f[i] != f[j]
    {
      PlacesApart(s, i, j);
    }
    Pigeons(f, s.words.Keys - {x});
  }

  lemma PlaceInside(s: State, t: Tid, x: Obj, id: FatId)
    requires Typed(s) && HasPlace(s, id) && s.free == [] && t in s.threads && !s.threads[t].pc.StoreFat?
    requires x in s.words && s.words[x].Thin? && s.words[x].owner == t
    ensures Place(s, id) in s.words && Place(s, id) != x
  {
    forall u | u in s.threads && s.threads[u].pc.StoreFat?
      ensures var y := s.threads[u].pc.x; y in s.words && s.words[y].Thin? && s.words[y].owner == u
    {
      TypedLocal(s, u);
    }
  }

  lemma PlacesApart(s: State, i: FatId, j: FatId)
    requires Typed(s) && HasPlace(s, i) && HasPlace(s, j) && s.free == [] && i != j
    ensures Place(s, i) != Place(s, j)
  {
    forall u | u in s.threads && s.threads[u].pc.StoreFat?
      ensures var y := s.threads[u].pc.x; y in s.words && s.words[y].Thin? && s.words[y].owner == u
    {
      TypedLocal(s, u);
    }
  }

  // ---------------------------------------------------------------------------
  // Every step keeps that

  lemma OtherCounters(s: State, t: Tid, c: Choice)
    requires Enabled(s, t, c) && !s.threads[t].pc.Inflate?
    ensures var s' := Step(s, t, c); s'.free == s.free && s'.nextId == s.nextId && s'.limit == s.limit
  {
  }

  /** Places are kept by a step that keeps fat words, and that takes `id` out of hand only onto an object. */
  lemma PlacesKept(s: State, s': State, t: Tid)
    requires AllPlaced(s) && t in s.threads && s'.words.Keys == s.words.Keys && s.threads.Keys <= s'.threads.Keys
    requires forall y :: y in s.words && s.words[y].Fat? ==> s'.words[y] == s.words[y]
    requires forall u :: u in s.threads && u != t ==> s'.threads[u].pc == s.threads[u].pc
    requires s.threads[t].pc.StoreFat? ==> HasPlace(s', s.threads[t].pc.id)
    requires s'.nextId <= |s'.words|
    requires forall id :: id in s.free ==> HasPlace(s', id)
    requires forall id: FatId :: s.nextId <= id < s'.nextId ==> HasPlace(s', id)
    ensures AllPlaced(s')
  {
    forall id: FatId | id < s.nextId
      ensures HasPlace(s', id)
    {
      assert HasPlace(s, id);
      if x :| x in s.words && s.words[x] == Fat(id) {
        assert x in s'.words && s'.words[x] == Fat(id);
      } else if id !in s.free {
        var u :| u in s.threads && s.threads[u].pc.StoreFat? && s.threads[u].pc.id == id;
        assert u != t ==> u in s'.threads && s'.threads[u].pc.StoreFat? && s'.threads[u].pc.id == id;
      }
    }
  }

  lemma SameKeys(s: State)
    ensures |s.words.Keys| == |s.words|
  {
  }

  lemma TakePlaced(s: State, t: Tid, x: Obj, k: Cont, fail: bool)
    requires Sound(s) && AllPlaced(s) && t in s.threads && s.threads[t].pc == Pc.Inflate(x, k)
    ensures AllPlaced(TakeFat(s, t, x, k, fail))
  {
    hide Typed, Counted, FatPlaced;
    var s' := TakeFat(s, t, x, k, fail);
    if s.free != [] {
      assert s'.threads[t].pc == StoreFat(x, s.free[0], k);
      forall id | id in s.free
        ensures HasPlace(s', id)
      {
        var i :| 0 <= i < |s.free| && s.free[i] == id;
        assert i > 0 ==> s'.free[i - 1] == id;
      }
    } else if !fail && s.nextId < s.limit {
      RoomLeft(s, t, x, k);
      assert s'.threads[t].pc == StoreFat(x, s.nextId, k);
    }
    hide HasPlace;
    PlacesKept(s, s', t);
  }

  lemma FattenPlaced(s: State, t: Tid, x: Obj, id: FatId, k: Cont)
    requires AllPlaced(s) && t in s.threads && s.threads[t].pc == StoreFat(x, id, k) && x in s.words && s.words[x].Thin?
    ensures AllPlaced(Fatten(s, t, x, id, k))
  {
    var s' := Fatten(s, t, x, id, k);
    assert s'.words[x] == Fat(id);
    assert s'.words.Keys == s.words.Keys;
    SameKeys(s);
    SameKeys(s');
    PlacesKept(s, s', t);
  }

  lemma StepPlaced(s: State, t: Tid, c: Choice)
    requires Inv(s) && AllPlaced(s) && Enabled(s, t, c)
    ensures AllPlaced(Step(s, t, c)) && Step(s, t, c).limit == s.limit && Step(s, t, c).words.Keys == s.words.Keys
    ensures Step(s, t, c).threads.Keys == s.threads.Keys
  {
    StepKeeps(s, t, c);
    InflateSteps(s, t, c);
    InvKnows(s, t);
    hide Inv, AllPlaced, Step, TakeFat, Fatten;
    match s.threads[t].pc
    case Inflate(x, k) => TakePlaced(s, t, x, k, c == NoFatLock);
    case StoreFat(x, id, k) => StoreFatKnows(s, t, x, id, k); FattenPlaced(s, t, x, id, k);
    case _ => OtherPlaced(s, t, c);
  }

  lemma InflateSteps(s: State, t: Tid, c: Choice)
    requires Enabled(s, t, c)
    ensures s.threads[t].pc.Inflate? ==> Step(s, t, c) == TakeFat(s, t, s.threads[t].pc.x, s.threads[t].pc.k, c == NoFatLock)
    ensures s.threads[t].pc.StoreFat? ==> Step(s, t, c) == Fatten(s, t, s.threads[t].pc.x, s.threads[t].pc.id, s.threads[t].pc.k)
  {
  }

  lemma InvKnows(s: State, t: Tid)
    requires Inv(s)
    ensures Sound(s) && Typed(s) && FatPlaced(s) && Counted(s)
  {
  }

  lemma OtherPlaced(s: State, t: Tid, c: Choice)
    requires Inv(s) && AllPlaced(s) && Enabled(s, t, c) && !s.threads[t].pc.Inflate? && !s.threads[t].pc.StoreFat?
    ensures AllPlaced(Step(s, t, c))
  {
    StepKeeps(s, t, c);
    OtherCounters(s, t, c);
    hide Step, Inv, NextPc, HasPlace;
    var s' := Step(s, t, c);
    SameKeys(s);
    SameKeys(s');
    forall id | id in s.free
      ensures HasPlace(s', id)
    {
      FreePlace(s', id);
    }
    PlacesKept(s, s', t);
  }

  lemma FreePlace(s: State, id: FatId)
    requires id in s.free
    ensures HasPlace(s, id)
  {
  }

  /** Fat words, objects, threads and the other threads' points stay. */
  lemma StepKeeps(s: State, t: Tid, c: Choice)
    requires Inv(s) && Enabled(s, t, c)
    ensures var s' := Step(s, t, c);
            && s'.words.Keys == s.words.Keys && s'.threads.Keys == s.threads.Keys && s'.limit == s.limit
            && (forall y :: y in s.words && s.words[y].Fat? ==> s'.words[y] == s.words[y])
            && (forall u :: u in s.threads && u != t ==> s'.threads[u].pc == s.threads[u].pc)
  {
    StepMine(s, t, c);
    StepWork(s, t, c);
    StepThreads(s, t, c);
    hide Step, Inv, NextPc;
  }

  lemma StepThreads(s: State, t: Tid, c: Choice)
    requires Inv(s) && Enabled(s, t, c)
    ensures Step(s, t, c).threads.Keys == s.threads.Keys && Step(s, t, c).limit == s.limit
  {
    hide Typed, Counted, FatPlaced, Queued, Fresh, WordOk, Local;
    var pc := s.threads[t].pc;
    TypedLocal(s, t);
    if pc.Inflate? { TakeLimit(s, t, c); } else { OtherCounters(s, t, c); }
    if Queues(pc) {
      QueueStepLocal(s, t, c);
    } else if Touches(pc) {
      WakeThreads(s, t, c);
    } else {
      StepUnqueued(s, t, c);
    }
    hide Step;
  }

  lemma TakeLimit(s: State, t: Tid, c: Choice)
    requires Enabled(s, t, c) && s.threads[t].pc.Inflate?
    ensures Step(s, t, c).limit == s.limit
  {
  }

  lemma WakeThreads(s: State, t: Tid, c: Choice)
    requires Enabled(s, t, c) && (s.threads[t].pc.WakeIn? || (s.threads[t].pc.Waking? && s.threads[t].pc.pending == []))
    ensures Step(s, t, c).threads.Keys == s.threads.Keys
  {
  }

  lemma RecyclePlaced(s: State, x: Obj)
    requires AllPlaced(s) && CanRecycle(s, x)
    ensures AllPlaced(Recycle(s, x))
  {
    var s' := Recycle(s, x);
    forall id: FatId | id < s'.nextId
      ensures HasPlace(s', id)
    {
      assert HasPlace(s, id);
      if y :| y in s.words && s.words[y] == Fat(id) {
        if y != x { assert y in s'.words && s'.words[y] == Fat(id); } else { assert s'.free[0] == id; }
      } else if id in s.free {
        var i :| 0 <= i < |s.free| && s.free[i] == id;
        assert s'.free[i + 1] == id;
      } else {
        var t :| t in s.threads && s.threads[t].pc.StoreFat? && s.threads[t].pc.id == id;
        assert t in s'.threads && s'.threads[t] == s.threads[t];
      }
    }
    assert s'.words.Keys == s.words.Keys;
    SameKeys(s);
    SameKeys(s');
  }

  lemma {:induction false} RunPlaced(r: seq<State>, i: nat)
    requires Run(r) && i < |r|
    ensures AllPlaced(r[i]) && r[i].limit == r[0].limit && r[i].words.Keys == r[0].words.Keys && r[i].threads.Keys == r[0].threads.Keys
  {
    hide AllPlaced, Inv, CanRecycle, Step, Enabled;
    if i == 0 {
      InitPlaced(r[0]);
    } else {
      RunPlaced(r, i - 1);
      RunInv(r, i - 1);
      assert Next(r[i - 1], r[i]);
      NextPlaced(r[i - 1], r[i]);
    }
  }

  lemma InitPlaced(s: State)
    requires Init(s)
    ensures AllPlaced(s)
  {
  }

  lemma NextPlaced(s: State, s': State)
    requires Inv(s) && AllPlaced(s) && Next(s, s')
    ensures AllPlaced(s') && s'.limit == s.limit && s'.words.Keys == s.words.Keys && s'.threads.Keys == s.threads.Keys
  {
    hide AllPlaced, Inv, CanRecycle, Step;
    if t, c :| Enabled(s, t, c) && s' == Step(s, t, c) {
      StepPlaced(s, t, c);
    } else {
      var x :| CanRecycle(s, x) && s' == Recycle(s, x);
      RecyclePlaced(s, x);
      RecycleKeys(s, x);
    }
  }

  lemma RecycleKeys(s: State, x: Obj)
    requires CanRecycle(s, x)
    ensures Recycle(s, x).words.Keys == s.words.Keys
  {
  }

  /** There is a thread whose id is in the high bits of a lock id that can be made: the table
      and the objects are enough for 32 locks for every smaller id and one more. */
  ghost predicate CanMistake(s: State, o: Tid) {
    o in s.threads && |s.threads| >= 2 && FAT_IDS_PER_TID * o < s.limit && FAT_IDS_PER_TID * o < |s.words|
  }

  lemma MisplacedNeeds(r: seq<State>, i: nat, o: Tid, w: Tid)
    requires Run(r) && i < |r| && Misplaced(r[i], o, w)
    ensures CanMistake(r[0], o)
  {
    hide Run, Inv, AllPlaced, Releasing;
    var s := r[i];
    RunInv(r, i);
    RunPlaced(r, i);
    NoLostWakeup(r, i, o, w);
    MisplacedCounts(s, o, w);
    SameKeys(s);
    SameKeys(r[0]);
    TwoThreads(r[0], o, w);
  }

  lemma TwoThreads(s: State, o: Tid, w: Tid)
    requires o in s.threads && w in s.threads && o != w
    ensures |s.threads| >= 2
  {
    assert {o, w} <= s.threads.Keys;
    assert |s.threads| == |s.threads.Keys| == |s.threads.Keys - {o, w}| + 2;
  }

  lemma MisplacedCounts(s: State, o: Tid, w: Tid)
    requires Inv(s) && AllPlaced(s) && Misplaced(s, o, w)
    ensures FAT_IDS_PER_TID * o < s.limit && FAT_IDS_PER_TID * o < |s.words| && o != w
  {
    hide Counted, FatPlaced, Fresh;
    WaiterKnows(s, o, w);
    TypedLocal(s, w);
    hide Typed, Queued;
  }

  // ---------------------------------------------------------------------------
  // A run that gets there

  /** All threads are outside the locking code and nothing is locked; `n` fat locks have been made. */
  ghost predicate Rested(s0: State, s: State, n: nat) {
    && s.threads == s0.threads && s.words.Keys == s0.words.Keys && s.limit == s0.limit
    && s.free == [] && s.nextId == n
    && (forall id :: id in s.fat ==> s.fat[id] == FatLock(None, 0))
    && (forall y :: y in s.words ==> !s.words[y].Thin?)
  }

  /** One thread inflates the locks of `n` objects and gives them up again. */
  lemma {:induction false} Fill(s0: State, t: Tid, n: nat) returns (s: State, done: set<Obj>)
    requires Init(s0) && t in s0.threads && n <= s0.limit && n <= |s0.words|
    ensures Leads(s0, s) && Rested(s0, s, n)
    ensures done <= s0.words.Keys && |done| == n && forall y :: y in s0.words && y !in done ==> s.words[y].Unlocked?
  {
    hide Leads;
    if n == 0 {
      s, done := s0, {};
      LeadsNowhere(s0);
    } else {
      var s1, done1 := Fill(s0, t, n - 1);
      var x := AnotherObject(s0, done1);
      var s2 := TakeThin(s0, s1, t, x);
      s := Expand(s0, s2, t, x);
      assert s.words == s1.words[x := Fat(s1.nextId)];
      done := done1 + {x};
    }
  }

  lemma AnotherObject(s: State, done: set<Obj>) returns (x: Obj)
    requires done <= s.words.Keys && |done| < |s.words|
    ensures x in s.words && x !in done
  {
    SameKeys(s);
    assert |s.words.Keys - done| == |s.words.Keys| - |done|;
    x :| x in s.words.Keys - done;
  }

  lemma Strand(s0: State, o: Tid, w: Tid) returns (s: State)
    requires Init(s0) && CanMistake(s0, o) && w in s0.threads && w != o
    ensures Leads(s0, s) && Stranded(s, o, w)
  {
    hide Leads, Stranded;
    var s1, done := Fill(s0, o, FAT_IDS_PER_TID * o);
    var x := AnotherObject(s0, done);
    var s2 := TakeThin(s0, s1, o, x);
    var s3 := LockFails(s0, s2, w, x);
    var s4 := Expand(s0, s3, o, x);
    assert s4.words == s1.words[x := Fat(s1.nextId)] && s4.threads[o] == s0.threads[o];
    s := Enlist(s0, s4, o, w, x);
    StrandedThen(s0, s, o, w, x);
  }

  /** With no lock held, the sleeping thread is stranded. */
  lemma StrandedThen(s0: State, s: State, o: Tid, w: Tid, x: Obj)
    requires Init(s0) && Leads(s0, s) && o in s.threads && w in s.threads && o != w
    requires s.threads[o].pc.Idle? && w in s.threads[o].waiters && s.threads[w].pc == Waiting(x, o) && s.threads[w].waitObj == Some(x)
    requires x in s.words && (forall y :: y in s.words ==> !s.words[y].Thin?) && forall id :: id in s.fat ==> s.fat[id] == FatLock(None, 0)
    ensures Stranded(s, o, w)
  {
    hide Inv, Leads, Run, Init;
    var r := LeadsRun(s0, s);
    RunNonempty(r);
    RunInv(r, |r| - 1);
    InvKnows(s, o);
    hide Typed, FatPlaced;
    forall y
      ensures s.held[(o, y)] == 0
    {
      assert s.held[(o, y)] == Depth(s, o, y);
    }
  }

  // ---------------------------------------------------------------------------
  // The exact condition

  ghost predicate EndsStranded(s0: State, r: seq<State>, o: Tid, w: Tid) {
    Run(r) && r[0] == s0 && Stranded(r[|r| - 1], o, w)
  }

  ghost predicate ComesMisplaced(s0: State, r: seq<State>, i: nat, o: Tid, w: Tid) {
    Run(r) && r[0] == s0 && i < |r| && Misplaced(r[i], o, w)
  }

  /** Some run leaves a waiter sleeping on the list of a thread that holds nothing and will not
      wake it, and some run puts a waiter on the wrong list at all, exactly when there are two
      threads and the table and the objects are enough for a lock with the thread's id in its
      high bits. */
  lemma StrandedExactly(s0: State, o: Tid)
    requires Init(s0)
    ensures CanMistake(s0, o) <==> exists r, w :: EndsStranded(s0, r, o, w)
    ensures CanMistake(s0, o) <==> exists r, i, w :: ComesMisplaced(s0, r, i, o, w)
  {
    hide CanMistake, Stranded, Misplaced, Run, Init, Leads;
    if CanMistake(s0, o) {
      var w := AnotherThread(s0, o);
      var s := Strand(s0, o, w);
      var r := LeadsRun(s0, s);
      assert EndsStranded(s0, r, o, w);
      StrandedMisplaced(s, o, w);
      assert |r| > 0 by { RunNonempty(r); }
      assert ComesMisplaced(s0, r, |r| - 1, o, w);
    }
    if r, w :| EndsStranded(s0, r, o, w) {
      RunNonempty(r);
      StrandedMisplaced(r[|r| - 1], o, w);
      MisplacedNeeds(r, |r| - 1, o, w);
    }
    if r, i: nat, w :| ComesMisplaced(s0, r, i, o, w) {
      MisplacedNeeds(r, i, o, w);
    }
  }

  ghost function Objects(n: nat): map<Obj, LockWord> {
    if n == 0 then map[] else Objects(n - 1)[n - 1 := Unlocked]
  }

  lemma {:induction false} ObjectsCount(n: nat)
    ensures |Objects(n)| == n && forall x: Obj :: x in Objects(n) <==> x < n
    ensures forall x :: x in Objects(n) ==> Objects(n)[x] == Unlocked
  {
    if n > 0 {
      ObjectsCount(n - 1);
      assert n - 1 !in Objects(n - 1).Keys && Objects(n).Keys == Objects(n - 1).Keys + {n - 1};
      assert |Objects(n).Keys| == |Objects(n)| && |Objects(n - 1).Keys| == |Objects(n - 1)|;
      assert Objects(n) == Objects(n - 1)[n - 1 := Unlocked];
    }
  }

  /** Two threads, 33 objects and room for 33 fat locks. */
  ghost function Smallest(): State {
    var idle := Thread(Pc.Idle, false, [], None, None);
    State(Objects(33), map[1 := idle, 2 := idle], map[], [], 0, 33, multiset{})
  }

  lemma SmallestCan()
    ensures Init(Smallest()) && CanMistake(Smallest(), 1) && 2 in Smallest().threads
  {
    ObjectsCount(33);
    hide Objects;
    TwoThreads(Smallest(), 1, 2);
  }

  /** In the smallest case thread 2 is left behind on the list of thread 1. */
  lemma StrandedExample() returns (r: seq<State>)
    ensures Run(r) && r[0] == Smallest() && Stranded(r[|r| - 1], 1, 2)
  {
    hide Smallest, Stranded, Leads, CanMistake, Init, Run;
    SmallestCan();
    var s := Strand(Smallest(), 1, 2);
    r := LeadsRun(Smallest(), s);
  }

  lemma RunNonempty(r: seq<State>)
    requires Run(r)
    ensures |r| > 0
  {
  }

  lemma AnotherThread(s: State, o: Tid) returns (w: Tid)
    requires CanMistake(s, o)
    ensures w in s.threads && w != o
  {
    assert |s.threads.Keys - {o}| == |s.threads.Keys| - 1 && |s.threads.Keys| == |s.threads|;
    w :| w in s.threads.Keys - {o};
  }
}
