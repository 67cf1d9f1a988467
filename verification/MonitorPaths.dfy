/** Runs put together from what one thread does while the others stand still. */
module MonitorPaths {
  import opened Options
  import opened MonitorModel
  import opened MonitorInvariant

  ghost predicate Path(r: seq<State>) {
    |r| > 0 && forall i :: 0 <= i < |r| - 1 ==> Next(r[i], r[i + 1])
  }

  ghost predicate Leads(s: State, s': State) {
    exists r :: Path(r) && r[0] == s && r[|r| - 1] == s'
  }

  lemma LeadsNowhere(s: State)
    ensures Leads(s, s)
  {
    assert Path([s]);
  }

  lemma LeadsOn(s: State, s': State, t: Tid, c: Choice)
    requires Leads(s, s') && Enabled(s', t, c)
    ensures Leads(s, Step(s', t, c))
  {
    var r :| Path(r) && r[0] == s && r[|r| - 1] == s';
    hide Step, Enabled;
    var r' := r + [Step(s', t, c)];
    assert Next(s', Step(s', t, c));
    forall i | 0 <= i < |r'| - 1
      ensures Next(r'[i], r'[i + 1])
    {
      if i == |r| - 1 { assert r'[i] == s' && r'[i + 1] == Step(s', t, c); } else { assert r'[i] == r[i] && r'[i + 1] == r[i + 1]; }
    }
    assert Path(r');
  }

  lemma LeadsRun(s: State, s': State) returns (r: seq<State>)
    requires Init(s) && Leads(s, s')
    ensures Run(r) && r[0] == s && r[|r| - 1] == s'
  {
    r :| Path(r) && r[0] == s && r[|r| - 1] == s';
  }

  // ---------------------------------------------------------------------------
  // What one thread can do undisturbed

  /** Locking begins by reading the word. */
  lemma LockReads(s0: State, s: State, t: Tid, x: Obj) returns (s': State)
    requires Leads(s0, s) && t in s.threads && s.threads[t].pc.Idle? && x in s.words
    ensures Leads(s0, s') && s' == SetPc(s, t, Cas(x, s.words[x]))
  {
    LeadsOn(s0, s, t, Lock(x));
    s' := RetryReads(s0, SetPc(s, t, Retry(x)), t, x);
    assert s' == SetPc(s, t, Cas(x, s.words[x]));
  }

  lemma RetryReads(s0: State, s: State, t: Tid, x: Obj) returns (s': State)
    requires Leads(s0, s) && t in s.threads && s.threads[t].pc == Retry(x) && x in s.words
    ensures Leads(s0, s') && s' == SetPc(s, t, Cas(x, s.words[x]))
  {
    hide Leads;
    LeadsOn(s0, s, t, Go);
    s' := Step(s, t, Go);
  }

  lemma TakeThin(s0: State, s: State, t: Tid, x: Obj) returns (s': State)
    requires Leads(s0, s) && t in s.threads && s.threads[t].pc.Idle? && x in s.words && s.words[x].Unlocked?
    ensures Leads(s0, s') && s' == s.(words := s.words[x := Thin(t, 0)], held := s'.held)
  {
    hide Leads;
    var s1 := LockReads(s0, s, t, x);
    LeadsOn(s0, s1, t, Go);
    s' := Step(s1, t, Go);
    assert s'.threads == s.threads;
  }

  /** Locking a thin lock of one's own, or one of another thread, up to what follows the failed compare-and-swap. */
  lemma LockFails(s0: State, s: State, t: Tid, x: Obj) returns (s': State)
    requires Leads(s0, s) && t in s.threads && s.threads[t].pc.Idle? && x in s.words && !s.words[x].Unlocked?
    ensures Leads(s0, s') && s' == SetPc(s, t, AfterCas(t, x, s.words[x]))
  {
    hide Leads;
    var s1 := LockReads(s0, s, t, x);
    s' := SwapFails(s0, s1, t, x);
    assert s' == SetPc(s, t, AfterCas(t, x, s.words[x]));
  }

  lemma SwapFails(s0: State, s: State, t: Tid, x: Obj) returns (s': State)
    requires Leads(s0, s) && t in s.threads && x in s.words && !s.words[x].Unlocked? && s.threads[t].pc == Cas(x, s.words[x])
    ensures Leads(s0, s') && s' == SetPc(s, t, AfterCas(t, x, s.words[x]))
  {
    hide Leads;
    LeadsOn(s0, s, t, Go);
    s' := Step(s, t, Go);
  }

  lemma {:induction false} Deepen(s0: State, s: State, t: Tid, x: Obj, n: nat) returns (s': State)
    requires Leads(s0, s) && t in s.threads && s.threads[t].pc.Idle? && x in s.words && s.words[x] == Thin(t, 0) && n < MAX_THIN_RECURSION
    ensures Leads(s0, s') && s' == s.(words := s.words[x := Thin(t, n)], held := s'.held)
  {
    hide Leads;
    if n == 0 {
      s' := s;
      assert s.words[x := Thin(t, 0)] == s.words;
    } else {
      var s1 := Deepen(s0, s, t, x, n - 1);
      var s2 := LockFails(s0, s1, t, x);
      LeadsOn(s0, s2, t, Go);
      s' := Step(s2, t, Go);
      assert s'.threads == s.threads && s'.words == s.words[x := Thin(t, n)];
    }
  }

  /** One lock more than the thin count can hold inflates the lock with the next id. */
  lemma Overflow(s0: State, s: State, t: Tid, x: Obj) returns (s': State)
    requires Leads(s0, s) && t in s.threads && s.threads[t].pc.Idle? && x in s.words && s.words[x] == Thin(t, MAX_THIN_RECURSION - 1)
    requires s.free == [] && s.nextId < s.limit
    ensures Leads(s0, s')
    ensures s' == s.(words := s.words[x := Fat(s.nextId)], fat := s.fat[s.nextId := FatLock(Some(t), MAX_THIN_RECURSION + 1)],
                     nextId := s.nextId + 1, held := s'.held)
  {
    hide Leads;
    var s1 := LockFails(s0, s, t, x);
    var s2 := Inflated(s0, s1, t, x);
    var s3 := RetryReads(s0, s2, t, x);
    var s4 := SwapFails(s0, s3, t, x);
    s' := EnterOwn(s0, s4, t, x, s.nextId);
    assert s'.threads == s.threads;
    assert s'.fat == s.fat[s.nextId := FatLock(Some(t), MAX_THIN_RECURSION + 1)];
  }

  lemma Inflated(s0: State, s: State, t: Tid, x: Obj) returns (s': State)
    requires Leads(s0, s) && t in s.threads && s.threads[t].pc == Pc.Inflate(x, ToRetry) && x in s.words && s.words[x].Thin?
    requires s.free == [] && s.nextId < s.limit
    ensures Leads(s0, s')
    ensures s' == SetPc(s, t, Retry(x)).(words := s.words[x := Fat(s.nextId)],
                    fat := s.fat[s.nextId := FatLock(Some(t), s.words[x].count + 1)], nextId := s.nextId + 1)
  {
    hide Leads;
    LeadsOn(s0, s, t, Go);
    var s1 := Step(s, t, Go);
    LeadsOn(s0, s1, t, Go);
    s' := Step(s1, t, Go);
    assert s'.threads == SetPc(s, t, Retry(x)).threads;
    assert s'.fat == s.fat[s.nextId := FatLock(Some(t), s.words[x].count + 1)];
  }

  lemma EnterOwn(s0: State, s: State, t: Tid, x: Obj, id: FatId) returns (s': State)
    requires Leads(s0, s) && t in s.threads && s.threads[t].pc == EnterFat(x, id)
    requires id in s.fat && s.fat[id].owner == Some(t) && s.fat[id].recursion < MAX_JINT
    ensures Leads(s0, s') && s' == SetPc(s, t, Pc.Idle).(fat := s.fat[id := FatLock(Some(t), s.fat[id].recursion + 1)], held := s'.held)
  {
    hide Leads;
    LeadsOn(s0, s, t, Go);
    s' := Step(s, t, Go);
  }

  /** Unlocking a fat lock as often as it is held, while nobody has raised the contention flag. */
  lemma {:induction false} UnlockAll(s0: State, s: State, t: Tid, x: Obj, id: FatId) returns (s': State)
    requires Leads(s0, s) && t in s.threads && s.threads[t].pc.Idle? && !s.threads[t].contention
    requires x in s.words && s.words[x] == Fat(id) && id in s.fat && s.fat[id].recursion > 0 && s.fat[id].owner == Some(t)
    ensures Leads(s0, s') && s' == s.(fat := s.fat[id := FatLock(None, 0)], held := s'.held)
    decreases s.fat[id].recursion
  {
    hide Leads;
    var s1 := UnlockOne(s0, s, t, x, id);
    if s.fat[id].recursion > 1 {
      s' := UnlockAll(s0, s1, t, x, id);
      assert s'.fat == s.fat[id := FatLock(None, 0)];
    } else {
      LeadsOn(s0, s1, t, Go);
      s' := Step(s1, t, Go);
      assert s'.threads == s.threads;
    }
  }

  lemma UnlockOne(s0: State, s: State, t: Tid, x: Obj, id: FatId) returns (s': State)
    requires Leads(s0, s) && t in s.threads && s.threads[t].pc.Idle?
    requires x in s.words && s.words[x] == Fat(id) && id in s.fat && s.fat[id].recursion > 0 && s.fat[id].owner == Some(t)
    ensures Leads(s0, s')
    ensures var n := s.fat[id].recursion - 1;
            s' == SetPc(s, t, if n == 0 then Released(x) else Pc.Idle).(
                    fat := s.fat[id := FatLock(if n == 0 then None else Some(t), n)], held := s'.held)
    ensures s.fat[id].recursion > 1 ==> s'.threads == s.threads
  {
    hide Leads;
    LeadsOn(s0, s, t, Unlock(x));
    var s1 := SetPc(s, t, ReadUnlock(x));
    LeadsOn(s0, s1, t, Go);
    var s2 := Step(s1, t, Go);
    assert s2 == SetPc(s, t, Unlocking(x, Fat(id)));
    LeadsOn(s0, s2, t, Go);
    s' := Step(s2, t, Go);
    assert s'.threads == SetPc(s, t, if s.fat[id].recursion == 1 then Released(x) else Pc.Idle).threads;
  }

  /** From the first lock of an object to a fat lock that nobody holds. */
  lemma Expand(s0: State, s: State, t: Tid, x: Obj) returns (s': State)
    requires Leads(s0, s) && t in s.threads && s.threads[t].pc.Idle? && !s.threads[t].contention
    requires x in s.words && s.words[x] == Thin(t, 0) && s.free == [] && s.nextId < s.limit
    ensures Leads(s0, s')
    ensures s' == s.(words := s.words[x := Fat(s.nextId)], fat := s.fat[s.nextId := FatLock(None, 0)], nextId := s.nextId + 1, held := s'.held)
  {
    hide Leads;
    var s1 := Deepen(s0, s, t, x, MAX_THIN_RECURSION - 1);
    var s2 := Overflow(s0, s1, t, x);
    s' := UnlockAll(s0, s2, t, x, s.nextId);
    assert s'.words == s.words[x := Fat(s.nextId)];
    assert s'.fat == s.fat[s.nextId := FatLock(None, 0)];
  }

  /** A thread that has seen `o` as the owner, and then finds a fat word that reads like `o`, goes to sleep on the list of `o`. */
  lemma Enlist(s0: State, s: State, o: Tid, w: Tid, x: Obj) returns (s': State)
    requires Leads(s0, s) && o in s.threads && w in s.threads && o != w && s.threads[w].pc == Contend(x, o)
    requires s.threads[o].mutex == None && x in s.words && RecheckPasses(s.words[x], o)
    ensures Leads(s0, s') && s' == s.(threads := s'.threads)
    ensures s'.threads == s.threads[o := s.threads[o].(contention := true, waiters := [w] + s.threads[o].waiters)]
                                   [w := s.threads[w].(pc := Waiting(x, o), waitObj := Some(x))]
  {
    hide Leads;
    LeadsOn(s0, s, w, Go);
    var s1 := QueueIn(s, w, x, o);
    LeadsOn(s0, s1, w, Go);
    var s2 := SetPc(s1, w, Enqueue(x, o));
    LeadsOn(s0, s2, w, Go);
    var s3 := Insert(s2, w, x, o);
    LeadsOn(s0, s3, w, Go);
    s' := Leave(s3, w, x, o, true);
  }
}
