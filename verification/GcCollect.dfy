/**
 A whole collection: mark what is live, mark what only finalizers can reach,
 then sweep the heap in address order and unload the unmarked class loaders.
 */
module GcCollect {
  import opened Options
  import opened GcShape
  import opened GcGraph
  import opened ScanStack
  import opened GcTrace
  import opened GcMeaning

  /** `order` is what a sweep of the heap returns: every heap object once. */
  ghost predicate SweepOrder(g: Graph, order: seq<Ref>) {
    && (forall i :: 0 <= i < |order| ==> InHeap(g, order[i]))
    && (forall r :: InHeap(g, r) ==> r in order)
    && (forall i, j :: 0 <= i < j < |order| ==> order[i] != order[j])
  }

  /** What reads as live: a Class instance, which no sweep visits, carries both marks from its creation on. */
  predicate ReadsLive(g: Graph, live: set<Ref>, r: Ref) {
    r in live || (r in g.objs && g.objs[r].kind.ClassObject?)
  }

  /** The referent of a kept Reference is cleared when it does not read as live, unless a
      phantom reference's referent is not recyclable yet. */
  predicate Clears(g: Graph, live: set<Ref>, keep: set<Ref>, o: Obj)
    requires ReferenceOk(g, o)
  {
    o.kind.Reference? &&
    var p := o.fields[ReferentIndex(g, o)];
    p.To? && !ReadsLive(g, live, p.ref) &&
    !(o.kind.strength.Phantom? && (p.ref in keep || (p.ref in g.objs && g.objs[p.ref].finalizable)))
  }

  function AfterSweep(g: Graph, live: set<Ref>, keep: set<Ref>, o: Obj): Obj
    requires ReferenceOk(g, o)
  {
    if Clears(g, live, keep, o) then o.(fields := o.fields[ReferentIndex(g, o) := Null]) else o
  }

  ghost predicate Survives(g: Graph, keep: set<Ref>, marks: set<LoaderId>, r: Ref) {
    r in g.objs && if InHeap(g, r) then r in keep else g.objs[r].kind.defines in marks
  }

  /** What a collection that ends with these marks leaves behind. */
  ghost function Collected(g: Graph, live: set<Ref>, keep: set<Ref>, marks: set<LoaderId>): Graph
    requires forall r :: r in g.objs ==> ReferenceOk(g, g.objs[r])
  {
    g.(objs := map r | r in g.objs && Survives(g, keep, marks, r) :: AfterSweep(g, live, keep, g.objs[r]),
       loaders := map l | l in g.loaders && l in marks :: g.loaders[l])
  }

  lemma ReferencesOk(g: Graph)
    requires WellFormed(g)
    ensures forall r :: r in g.objs ==> ReferenceOk(g, g.objs[r])
  {
  }

  /** The referent of a kept Reference is a Class instance whose loader is not marked. */
  ghost predicate LosesClass(g: Graph, keep: set<Ref>, marks: set<LoaderId>, r: Ref) {
    && r in keep && r in g.objs && g.objs[r].kind.Reference? && ReferenceOk(g, g.objs[r])
    && var p := g.objs[r].fields[ReferentIndex(g, g.objs[r])];
    && p.To? && p.ref in g.objs && g.objs[p.ref].kind.ClassObject? && g.objs[p.ref].kind.defines !in marks
  }

  /** A referent still there after the sweep reads as live, or is phantom and kept. */
  lemma ReferentAfterSweep(g: Graph, soft: bool, live: set<Ref>, keep: set<Ref>, marks: set<LoaderId>, r: Ref)
    requires WellFormed(g) && Settled(ShapeOf(g, soft), keep, marks)
    requires Finalizable(g, keep) == {}
    requires r in keep && g.objs[r].kind.Reference?
    ensures ReferenceOk(g, g.objs[r])
    ensures var p := AfterSweep(g, live, keep, g.objs[r]).fields[ReferentIndex(g, g.objs[r])];
            p.To? ==> ReadsLive(g, live, p.ref) || (g.objs[r].kind.strength.Phantom? && p.ref in keep)
  {
    GraphObjOk(g, r);
    var o := g.objs[r];
    var p := o.fields[ReferentIndex(g, o)];
    if p.To? && p.ref !in keep && !g.objs[p.ref].kind.ClassObject? {
      assert InHeap(g, p.ref);
      assert p.ref !in Finalizable(g, keep);
    }
  }

  lemma StrongSurvive(g: Graph, soft: bool, keep: set<Ref>, marks: set<LoaderId>, r: Ref)
    requires WellFormed(g) && Settled(ShapeOf(g, soft), keep, marks) && r in keep
    ensures r in g.objs && ReferenceOk(g, g.objs[r])
    ensures forall s :: s in StrongRefs(g, soft, g.objs[r]) ==> Survives(g, keep, marks, s)
    ensures LoadersOf(g.objs[r]) <= marks
  {
    hide LoaderRefs, LoaderOk, PtrRefs, FieldRefs;
    var sh := ShapeOf(g, soft);
    ShapeClosed(g, soft);
    forall s | s in StrongRefs(g, soft, g.objs[r])
      ensures Survives(g, keep, marks, s)
    {
      assert s in sh.strong[r];
      assert Seen(sh, keep, marks, {}, s);
      SurvivesMarked(g, soft, keep, marks, s);
    }
  }

  lemma SurvivesMarked(g: Graph, soft: bool, keep: set<Ref>, marks: set<LoaderId>, s: Ref)
    requires WellFormed(g) && s in g.objs
    ensures Marked(ShapeOf(g, soft), keep, marks, s) <==> Survives(g, keep, marks, s)
  {
    hide LoaderRefs, LoaderOk, StrongRefs;
    assert InHeap(g, s) || LoadersOf(g.objs[s]) == {g.objs[s].kind.defines};
  }

  lemma LoaderSurvive(g: Graph, soft: bool, keep: set<Ref>, marks: set<LoaderId>, l: LoaderId)
    requires WellFormed(g) && Settled(ShapeOf(g, soft), keep, marks) && l in marks
    ensures l in g.loaders && LoaderOk(g, g.loaders[l])
    ensures forall s :: s in LoaderRefs(g, l) ==> Survives(g, keep, marks, s)
  {
    hide StrongRefs, ObjOk, LoaderOk, LoaderRefs;
    var sh := ShapeOf(g, soft);
    forall s | s in LoaderRefs(g, l)
      ensures Survives(g, keep, marks, s)
    {
      assert s in sh.holds[l];
      assert Seen(sh, keep, marks, {}, s);
      SurvivesMarked(g, soft, keep, marks, s);
    }
  }

  lemma WordIsStrong(g: Graph, soft: bool, o: Obj, i: int)
    requires ReferenceOk(g, o) && !o.kind.ClassObject?
    requires 0 <= i < |o.fields| && o.fields[i].To?
    requires o.kind.Reference? ==> i != ReferentIndex(g, o)
    ensures o.fields[i].ref in StrongRefs(g, soft, o)
  {
  }

  lemma KeptInHeap(g: Graph, soft: bool, keep: set<Ref>, marks: set<LoaderId>)
    requires WellFormed(g) && Settled(ShapeOf(g, soft), keep, marks)
    ensures keep <= HeapRefs(g)
  {
  }

  /** Every word of a survivor is null or points at a survivor, unless the loader of a class it refers to goes. */
  lemma FieldsSurvive(g: Graph, soft: bool, live: set<Ref>, keep: set<Ref>, marks: set<LoaderId>, r: Ref)
    requires WellFormed(g) && Settled(ShapeOf(g, soft), keep, marks)
    requires live <= keep && Finalizable(g, keep) == {}
    requires r in keep && !LosesClass(g, keep, marks, r)
    ensures r in g.objs && ReferenceOk(g, g.objs[r])
    ensures forall s :: s in PtrRefs(AfterSweep(g, live, keep, g.objs[r]).fields) ==> Survives(g, keep, marks, s)
  {
    hide WellFormed, Settled, ShapeOf, Finalizable;
    StrongSurvive(g, soft, keep, marks, r);
    KeptInHeap(g, soft, keep, marks);
    var o := g.objs[r];
    var o' := AfterSweep(g, live, keep, o);
    if o.kind.Reference? {
      ReferentAfterSweep(g, soft, live, keep, marks, r);
    }
    forall s | s in PtrRefs(o'.fields)
      ensures Survives(g, keep, marks, s)
    {
      var i :| 0 <= i < |o'.fields| && o'.fields[i] == To(s);
      if !(o.kind.Reference? && i == ReferentIndex(g, o)) {
        WordIsStrong(g, soft, o, i);
      }
    }
  }

  lemma CollectedMembers(g: Graph, live: set<Ref>, keep: set<Ref>, marks: set<LoaderId>)
    requires forall q :: q in g.objs ==> ReferenceOk(g, g.objs[q])
    ensures var g' := Collected(g, live, keep, marks);
            && (forall s :: s in g'.objs <==> Survives(g, keep, marks, s))
            && (forall s :: s in g'.objs ==> g'.objs[s].kind == g.objs[s].kind)
            && (forall l :: l in g'.loaders <==> l in g.loaders && l in marks)
            && g'.referentSlot == g.referentSlot
  {
  }

  lemma SurvivorOk(g: Graph, soft: bool, live: set<Ref>, keep: set<Ref>, marks: set<LoaderId>, r: Ref)
    requires WellFormed(g) && Settled(ShapeOf(g, soft), keep, marks)
    requires live <= keep && Finalizable(g, keep) == {}
    requires Survives(g, keep, marks, r) && !LosesClass(g, keep, marks, r)
    requires forall q :: q in g.objs ==> ReferenceOk(g, g.objs[q])
    ensures ObjOk(Collected(g, live, keep, marks), AfterSweep(g, live, keep, g.objs[r]))
  {
    hide WellFormed, Settled, ShapeOf, Finalizable, Collected, PtrRefs, StrongRefs;
    GraphObjOk(g, r);
    CollectedMembers(g, live, keep, marks);
    if InHeap(g, r) {
      FieldsSurvive(g, soft, live, keep, marks, r);
      StrongSurvive(g, soft, keep, marks, r);
      if g.objs[r].kind.Throwable? {
        FramesStrong(g, soft, g.objs[r]);
      }
    }
  }

  lemma FramesStrong(g: Graph, soft: bool, o: Obj)
    requires ReferenceOk(g, o) && o.kind.Throwable?
    ensures forall s :: s in o.kind.stack ==> s in StrongRefs(g, soft, o)
  {
  }

  lemma CollectedLoaderRefs(g: Graph, live: set<Ref>, keep: set<Ref>, marks: set<LoaderId>, l: LoaderId)
    requires forall q :: q in g.objs ==> ReferenceOk(g, g.objs[q])
    requires l in g.loaders && l in marks && LoaderOk(g, g.loaders[l])
    ensures var g' := Collected(g, live, keep, marks);
            l in g'.loaders && LoaderOk(g', g'.loaders[l]) && LoaderRefs(g', l) == LoaderRefs(g, l)
  {
    var g' := Collected(g, live, keep, marks);
    var types := g.loaders[l].types;
    forall t | t in types
      ensures TypeOk(g', t) && TypeRefs(g', t) == TypeRefs(g, t)
    {
    }
    assert ExplicitRefs(g', types) == ExplicitRefs(g, types);
  }

  /** A Reference that loses its class keeps the reference to it. */
  lemma LostDangles(g: Graph, live: set<Ref>, keep: set<Ref>, marks: set<LoaderId>, r: Ref)
    requires forall q :: q in g.objs ==> ReferenceOk(g, g.objs[q])
    requires LosesClass(g, keep, marks, r)
    ensures !WellFormed(Collected(g, live, keep, marks))
  {
    var g', o := Collected(g, live, keep, marks), g.objs[r];
    var p := o.fields[ReferentIndex(g, o)];
    assert r in g'.objs && g'.objs[r] == o && p.ref !in g'.objs;
    assert p.ref in PtrRefs(o.fields);
    assert !ObjOk(g', g'.objs[r]);
  }

  /** No dangling pointer: the objects and loaders a collection leaves refer only to one another,
      exactly when no kept Reference loses its class. */
  lemma CollectedWellFormed(g: Graph, soft: bool, live: set<Ref>, keep: set<Ref>, marks: set<LoaderId>)
    requires WellFormed(g) && Settled(ShapeOf(g, soft), keep, marks)
    requires live <= keep && Finalizable(g, keep) == {}
    ensures forall q :: q in g.objs ==> ReferenceOk(g, g.objs[q])
    ensures WellFormed(Collected(g, live, keep, marks)) <==> forall r :: !LosesClass(g, keep, marks, r)
  {
    ReferencesOk(g);
    if r :| LosesClass(g, keep, marks, r) {
      LostDangles(g, live, keep, marks, r);
    } else {
      NothingDangles(g, soft, live, keep, marks);
    }
  }

  lemma NothingDangles(g: Graph, soft: bool, live: set<Ref>, keep: set<Ref>, marks: set<LoaderId>)
    requires WellFormed(g) && Settled(ShapeOf(g, soft), keep, marks)
    requires live <= keep && Finalizable(g, keep) == {}
    requires forall q :: q in g.objs ==> ReferenceOk(g, g.objs[q])
    requires forall r :: !LosesClass(g, keep, marks, r)
    ensures WellFormed(Collected(g, live, keep, marks))
  {
    hide Settled, ShapeOf, ObjOk, LoaderOk, LoaderRefs, AfterSweep, Finalizable, LosesClass;
    var g' := Collected(g, live, keep, marks);
    forall r | r in g'.objs
      ensures ObjOk(g', g'.objs[r])
    {
      SurvivorOk(g, soft, live, keep, marks, r);
    }
    forall l | l in g'.loaders
      ensures LoaderOk(g', g'.loaders[l]) && LoaderRefs(g', l) <= g'.objs.Keys
    {
      LoaderSurvive(g, soft, keep, marks, l);
      CollectedLoaderRefs(g, live, keep, marks, l);
    }
  }

  // A weak reference, in the boot loader's care, to the class of another loader.

  ghost function WeakToClass(): Graph {
    Graph(map[10 := Obj(Reference(Weak), [To(20)], BOOT, false), 20 := Obj(ClassObject(1), [], BOOT, false)],
          map[BOOT := Loader([], []), 1 := Loader([], [])], 1, 0)
  }

  lemma WeakToClassOk()
    ensures WellFormed(WeakToClass())
    ensures StrongRefs(WeakToClass(), true, WeakToClass().objs[10]) == {} && LoadersOf(WeakToClass().objs[10]) == {BOOT}
    ensures LoaderRefs(WeakToClass(), BOOT) == {}
  {
    var g := WeakToClass();
    assert ObjOk(g, g.objs[10]) && ObjOk(g, g.objs[20]);
    assert LoaderRefs(g, BOOT) == {} && LoaderRefs(g, 1) == {};
  }

  lemma ClassUnreached(roots: set<Ref>)
    requires WellFormed(WeakToClass()) && roots <= {10}
    ensures !Reachable(ShapeOf(WeakToClass(), true), roots, LoaderNode(1))
  {
    WeakToClassOk();
    var sh, inside := ShapeOf(WeakToClass(), true), iset{ObjNode(10), LoaderNode(BOOT)};
    assert sh.strong[10] == {} && sh.keeps[10] == {BOOT} && sh.holds[BOOT] == {};
    hide Reachable, ShapeOf, WeakToClass;
    if Reachable(sh, roots, LoaderNode(1)) {
      ClosedSetHoldsReachable(sh, roots, inside, LoaderNode(1));
    }
  }

  /** However a collection marks it correctly, the class goes and the reference to it stays. */
  lemma ClassDangles(live: set<Ref>, keep: set<Ref>, marks: set<LoaderId>)
    requires WellFormed(WeakToClass())
    requires ExactlyKept(WeakToClass(), true, {10}, live, keep, marks)
    ensures LosesClass(WeakToClass(), keep, marks, 10) && !WellFormed(Collected(WeakToClass(), live, keep, marks))
  {
    var g := WeakToClass();
    ReferencesOk(g);
    assert InHeap(g, 10) && 1 in g.loaders && Finalizable(g, live) == {};
    RootReachable(ShapeOf(g, true), {10}, 10);
    ClassUnreached({10});
    ClassUnreached({});
    hide Reachable, ShapeOf, WellFormed;
    assert 10 in keep && 1 !in marks;
    LostDangles(g, live, keep, marks, 10);
  }

  // ---------------------------------------------------------------------------
  // The collection

  ghost function FinalizableIn(g: Graph, rs: seq<Ref>): set<Ref> {
    set r | r in rs && r in g.objs && g.objs[r].finalizable
  }

  /** Clear every object's LIVE and KEEP bits and count the finalizable objects. */
  method ClearMarks(c: Collector, order: seq<Ref>)
    requires c.Valid() && SweepOrder(c.graph, order) && c.live <= c.keep
    modifies c`live, c`keep, c`numFinalizable
    ensures c.live == {} && c.keep == {}
    ensures c.numFinalizable == |Finalizable(c.graph, {})|
  {
    hide WellFormed;
    c.numFinalizable := 0;
    for i := 0 to |order|
      invariant c.live <= c.keep <= HeapRefs(c.graph)
      invariant forall r :: r in order[..i] ==> r !in c.keep
      invariant c.numFinalizable == |FinalizableIn(c.graph, order[..i])|
    {
      var r := order[i];
      assert order[..i + 1] == order[..i] + [r];
      c.live, c.keep := c.live - {r}, c.keep - {r};
      if c.graph.objs[r].finalizable {
        assert FinalizableIn(c.graph, order[..i + 1]) == FinalizableIn(c.graph, order[..i]) + {r};
        c.numFinalizable := c.numFinalizable + 1;
      } else {
        assert FinalizableIn(c.graph, order[..i + 1]) == FinalizableIn(c.graph, order[..i]);
      }
    }
    assert order[..|order|] == order;
    assert forall r :: r in c.keep ==> r in order;
    assert Finalizable(c.graph, {}) == FinalizableIn(c.graph, order);
  }

  /** List the finalizable objects that are not live: `room` of them in the reused
      root list and the remainder, if any, in a second list. */
  method FinalizerRoots(c: Collector, order: seq<Ref>, room: nat) returns (first: seq<Ptr>, second: seq<seq<Ptr>>)
    requires c.Valid() && SweepOrder(c.graph, order)
    ensures |second| <= 1
    ensures PtrRefs(first) + Entries(second) == Finalizable(c.graph, c.live)
    ensures |first| + Pending(second) == |Finalizable(c.graph, c.live)|
    ensures |first| <= room && (|second| == 1 ==> |first| == room)
  {
    hide WellFormed, PtrRefs, Finalizable, Entries;
    var refs := UnmarkedFinalizable(c, order);
    if |refs| <= room {
      first, second := refs, [];
      NoEntries();
    } else {
      first, second := refs[..room], [refs[room..]];
      EntriesPush([], refs[room..]);
      PendingPush([], refs[room..]);
      assert [] + second == second;
      NoEntries();
      assert refs == refs[..room] + refs[room..];
      PtrRefsConcat(refs[..room], refs[room..]);
    }
  }

  lemma NoneFinalizable(g: Graph)
    ensures FinalizableIn(g, []) == {}
  {
  }

  lemma UnmarkedOne(g: Graph, live: set<Ref>, order: seq<Ref>, i: nat)
    requires SweepOrder(g, order) && i < |order|
    ensures order[i] in g.objs
    ensures var r, before := order[i], FinalizableIn(g, order[..i]) - live;
            && FinalizableIn(g, order[..i + 1]) - live == before + (if r !in live && g.objs[r].finalizable then {r} else {})
            && r !in before
  {
    assert order[..i + 1] == order[..i] + [order[i]];
  }

  lemma AllUnmarked(g: Graph, live: set<Ref>, order: seq<Ref>)
    requires SweepOrder(g, order)
    ensures Finalizable(g, live) == FinalizableIn(g, order) - live
  {
  }

  method UnmarkedFinalizable(c: Collector, order: seq<Ref>) returns (refs: seq<Ptr>)
    requires SweepOrder(c.graph, order)
    ensures PtrRefs(refs) == Finalizable(c.graph, c.live)
    ensures |refs| == |Finalizable(c.graph, c.live)|
  {
    hide PtrRefs, FinalizableIn, SweepOrder, Finalizable;
    refs := [];
    assert FinalizableIn(c.graph, order[..0]) == {} by { NoneFinalizable(c.graph); }
    NoPtrRefs();
    for i := 0 to |order|
      invariant PtrRefs(refs) == FinalizableIn(c.graph, order[..i]) - c.live
      invariant |refs| == |FinalizableIn(c.graph, order[..i]) - c.live|
    {
      var r := order[i];
      UnmarkedOne(c.graph, c.live, order, i);
      if r !in c.live && c.graph.objs[r].finalizable {
        PtrRefsOne(r);
        PtrRefsConcat(refs, [To(r)]);
        refs := refs + [To(r)];
      }
    }
    assert order[..|order|] == order;
    AllUnmarked(c.graph, c.live, order);
  }

  /** The objects of `g` once the first part of a sweep order has been swept. */
  ghost predicate SweptUpTo(g: Graph, live: set<Ref>, keep: set<Ref>, swept: seq<Ref>, objs: map<Ref, Obj>)
    requires forall r :: r in g.objs ==> ReferenceOk(g, g.objs[r])
  {
    && (forall r :: r in objs <==> r in g.objs && (r in swept ==> r in keep))
    && (forall r :: r in objs ==> objs[r] == if r in swept then AfterSweep(g, live, keep, g.objs[r]) else g.objs[r])
  }

  /** An object already freed reads as neither live, kept nor finalizable, so the test is the same mid-sweep. */
  lemma ClearsMidSweep(g: Graph, live: set<Ref>, keep: set<Ref>, swept: seq<Ref>, objs: map<Ref, Obj>, r: Ref)
    requires forall q :: q in g.objs ==> ReferenceOk(g, g.objs[q])
    requires SweptUpTo(g, live, keep, swept, objs)
    requires Finalizable(g, keep) == {}
    requires forall q :: q in swept ==> InHeap(g, q)
    requires r in g.objs
    ensures AfterSweep(g.(objs := objs), live, keep, g.objs[r]) == AfterSweep(g, live, keep, g.objs[r])
  {
    var o := g.objs[r];
    if o.kind.Reference? && o.fields[ReferentIndex(g, o)].To? {
      var q := o.fields[ReferentIndex(g, o)].ref;
      if q in g.objs && q !in objs {
        assert q !in Finalizable(g, keep);
      }
    }
  }

  /** Free what is not kept and clear the references that must not be followed any more. */
  method Sweep(c: Collector, order: seq<Ref>)
    requires forall q :: q in c.graph.objs ==> ReferenceOk(c.graph, c.graph.objs[q])
    requires SweepOrder(c.graph, order)
    requires Finalizable(c.graph, c.keep) == {}
    modifies c`graph
    ensures c.graph == old(c.graph).(objs := c.graph.objs)
    ensures SweptUpTo(old(c.graph), c.live, c.keep, order, c.graph.objs)
  {
    hide AfterSweep, Finalizable;
    ghost var g := c.graph;
    for i := 0 to |order|
      invariant c.graph == g.(objs := c.graph.objs)
      invariant SweptUpTo(g, c.live, c.keep, order[..i], c.graph.objs)
    {
      var r := order[i];
      assert order[..i + 1] == order[..i] + [r];
      assert r !in order[..i];
      assert c.graph.objs[r] == g.objs[r];
      if r in c.keep {
        ClearsMidSweep(g, c.live, c.keep, order[..i], c.graph.objs, r);
        var o := AfterSweep(c.graph, c.live, c.keep, c.graph.objs[r]);
        c.graph := c.graph.(objs := c.graph.objs[r := o]);
      } else {
        c.graph := c.graph.(objs := c.graph.objs - {r});
      }
    }
    assert order[..|order|] == order;
  }

  /** A Class instance in the memory of an unmarked loader. */
  predicate Unloaded(g: Graph, marks: set<LoaderId>, r: Ref) {
    r in g.objs && g.objs[r].kind.ClassObject? && g.objs[r].kind.defines in g.loaders && g.objs[r].kind.defines !in marks
  }

  /** Unload every class loader whose mark is clear, with the Class instances in its memory. */
  method UnloadLoaders(c: Collector)
    modifies c`graph
    ensures c.graph.loaders == map l | l in old(c.graph.loaders) && l in c.marks :: old(c.graph.loaders)[l]
    ensures c.graph.objs == map r | r in old(c.graph.objs) && !Unloaded(old(c.graph), c.marks, r) :: old(c.graph.objs)[r]
    ensures c.graph.referentSlot == old(c.graph.referentSlot) && c.graph.vmdataSlot == old(c.graph.vmdataSlot)
  {
    ghost var g := c.graph;
    ghost var gone: set<LoaderId> := {};
    while exists l :: l in c.graph.loaders && l !in c.marks
      invariant c.graph.referentSlot == g.referentSlot && c.graph.vmdataSlot == g.vmdataSlot
      invariant gone !! c.marks && gone <= g.loaders.Keys
      invariant c.graph.loaders == g.loaders - gone
      invariant c.graph.objs == map r | r in g.objs && !(g.objs[r].kind.ClassObject? && g.objs[r].kind.defines in gone) :: g.objs[r]
      decreases c.graph.loaders.Keys
    {
      var l :| l in c.graph.loaders && l !in c.marks;
      var classes := set r | r in c.graph.objs && c.graph.objs[r].kind.ClassObject? && c.graph.objs[r].kind.defines == l;
      c.graph := c.graph.(loaders := c.graph.loaders - {l}, objs := c.graph.objs - classes);
      gone := gone + {l};
    }
    forall l | l in g.loaders && l !in c.marks
      ensures l in gone
    {
      assert l !in c.graph.loaders;
    }
  }

  /** The marks at the end of a collection: live objects are those the roots reach; kept
      objects are the live ones and those that finalizable objects that are not live reach. */
  ghost predicate ExactlyLive(g: Graph, soft: bool, roots: set<Ref>, live: set<Ref>)
    requires WellFormed(g)
  {
    forall r :: r in g.objs && InHeap(g, r) ==>
      (r in live <==> Reachable(ShapeOf(g, soft), roots, ObjNode(r)))
  }

  ghost predicate ExactlyKept(g: Graph, soft: bool, roots: set<Ref>, live: set<Ref>, keep: set<Ref>, marks: set<LoaderId>)
    requires WellFormed(g)
  {
    var sh := ShapeOf(g, soft);
    var finalizers := Finalizable(g, live);
    && (forall r :: r in g.objs && InHeap(g, r) ==>
          (r in keep <==> Reachable(sh, roots, ObjNode(r)) || Reachable(sh, finalizers, ObjNode(r))))
    && (forall l :: l in g.loaders ==>
          (l in marks <==> Reachable(sh, roots, LoaderNode(l)) || Reachable(sh, finalizers, LoaderNode(l))))
  }

  lemma NothingSettled(g: Graph, soft: bool)
    requires WellFormed(g)
    ensures Settled(ShapeOf(g, soft), {}, {})
  {
    ShapeClosed(g, soft);
  }

  lemma LiveExact(g: Graph, soft: bool, roots: set<Ref>, live: set<Ref>, marks: set<LoaderId>)
    requires WellFormed(g) && ExactMarks(ShapeOf(g, soft), roots, {}, {}, live, marks)
    ensures ExactlyLive(g, soft, roots, live)
  {
  }

  lemma FinalizableRefs(g: Graph, live: set<Ref>)
    ensures Finalizable(g, live) <= g.objs.Keys
  {
  }

  lemma FinalizersKept(g: Graph, soft: bool, live: set<Ref>, marks1: set<LoaderId>, keep: set<Ref>, marks: set<LoaderId>)
    requires WellFormed(g) && live <= keep
    requires ExactMarks(ShapeOf(g, soft), Finalizable(g, live), live, marks1, keep, marks)
    ensures Finalizable(g, keep) == {}
  {
    hide Reachable, WellFormed, ShapeOf;
    ShapeClosed(g, soft);
    var sh := ShapeOf(g, soft);
    forall r | r in Finalizable(g, live)
      ensures r in keep
    {
      RootReachable(sh, Finalizable(g, live), r);
    }
  }

  lemma NoFinalizers(g: Graph, soft: bool, live: set<Ref>, marks1: set<LoaderId>)
    requires WellFormed(g) && |Finalizable(g, live)| == 0
    ensures Finalizable(g, live) == {}
    ensures ExactMarks(ShapeOf(g, soft), Finalizable(g, live), live, marks1, live, marks1)
  {
  }

  lemma KeptExact(g: Graph, soft: bool, roots: set<Ref>, live: set<Ref>, marks1: set<LoaderId>, keep: set<Ref>, marks: set<LoaderId>)
    requires WellFormed(g)
    requires ExactMarks(ShapeOf(g, soft), roots, {}, {}, live, marks1)
    requires ExactMarks(ShapeOf(g, soft), Finalizable(g, live), live, marks1, keep, marks)
    ensures ExactlyKept(g, soft, roots, live, keep, marks)
  {
    hide Reachable, StrongRefs, LoaderRefs, LoaderOk, ObjOk;
    ShapeClosed(g, soft);
  }

  /** Trace from the finalizable objects that are not live, if there are any, and repair their count. */
  method MarkFinalizable(c: Collector, order: seq<Ref>, room: nat)
    requires c.Valid() && SweepOrder(c.graph, order) && c.keep == c.live
    requires Settled(ShapeOf(c.graph, c.followSoft), c.keep, c.marks) && c.numFinalizable == |Finalizable(c.graph, c.live)|
    modifies c`live, c`keep, c`marks, c`numFinalizable, c`markLive
    ensures c.Valid() && c.live == old(c.live) <= c.keep && c.numFinalizable == old(c.numFinalizable)
    ensures Settled(ShapeOf(c.graph, c.followSoft), c.keep, c.marks)
    ensures ExactMarks(ShapeOf(c.graph, c.followSoft), Finalizable(c.graph, c.live), c.live, old(c.marks), c.keep, c.marks)
    ensures Finalizable(c.graph, c.keep) == {}
  {
    hide WellFormed, ShapeOf, PtrRefs, Entries, Settled, ExactMarks, SweepOrder, Finalizable;
    ghost var live, marks1 := c.live, c.marks;
    if c.numFinalizable > 0 {
      var numFinalizable := c.numFinalizable;
      c.markLive := false;
      var first, second := FinalizerRoots(c, order, room);
      FinalizableRefs(c.graph, live);
      c.Trace(first, second);
      FinalizersKept(c.graph, c.followSoft, live, marks1, c.keep, c.marks);
      c.numFinalizable := numFinalizable;
    } else {
      NoFinalizers(c.graph, c.followSoft, live, marks1);
    }
  }

  /** Run both traces. */
  method MarkAll(c: Collector, order: seq<Ref>, roots: seq<Ptr>)
    requires c.Valid() && SweepOrder(c.graph, order) && c.live <= c.keep
    requires PtrRefs(roots) <= c.graph.objs.Keys
    modifies c`live, c`keep, c`marks, c`numFinalizable, c`markLive
    ensures c.Valid() && c.live <= c.keep
    ensures Settled(ShapeOf(c.graph, c.followSoft), c.keep, c.marks)
    ensures Finalizable(c.graph, c.keep) == {}
    ensures c.numFinalizable == |Finalizable(c.graph, c.live)|
    ensures ExactlyLive(c.graph, c.followSoft, PtrRefs(roots), c.live)
    ensures ExactlyKept(c.graph, c.followSoft, PtrRefs(roots), c.live, c.keep, c.marks)
  {
    hide WellFormed, ShapeOf, PtrRefs, Entries, Settled, ExactMarks, ExactlyLive, ExactlyKept, SweepOrder, Finalizable;
    c.marks := {};
    ClearMarks(c, order);
    NothingSettled(c.graph, c.followSoft);
    c.markLive := true;
    NoEntries();
    assert PtrRefs(roots) + Entries([]) == PtrRefs(roots);
    c.Trace(roots, []);
    assert c.live == c.keep;
    ghost var live, marks1 := c.live, c.marks;
    LiveExact(c.graph, c.followSoft, PtrRefs(roots), live, marks1);
    MarkFinalizable(c, order, |roots|);
    KeptExact(c.graph, c.followSoft, PtrRefs(roots), live, marks1, c.keep, c.marks);
  }

  lemma SweepUnloadCollected(g: Graph, live: set<Ref>, keep: set<Ref>, marks: set<LoaderId>, order: seq<Ref>, swept: Graph, left: Graph)
    requires WellFormed(g) && SweepOrder(g, order)
    requires swept == g.(objs := swept.objs)
    requires forall q :: q in g.objs ==> ReferenceOk(g, g.objs[q])
    requires SweptUpTo(g, live, keep, order, swept.objs)
    requires left.loaders == map l | l in swept.loaders && l in marks :: swept.loaders[l]
    requires left.objs == map r | r in swept.objs && !Unloaded(swept, marks, r) :: swept.objs[r]
    requires left.referentSlot == g.referentSlot && left.vmdataSlot == g.vmdataSlot
    ensures left == Collected(g, live, keep, marks)
  {
    hide LoaderOk, LoaderRefs, PtrRefs;
    var g' := Collected(g, live, keep, marks);
    forall r | r in g.objs
      ensures r in order <==> InHeap(g, r)
      ensures r in left.objs <==> r in g'.objs
      ensures r in left.objs ==> left.objs[r] == g'.objs[r]
    {
      GraphObjOk(g, r);
    }
    assert left.objs == g'.objs;
    assert left.loaders == g'.loaders;
  }

  /** The marks of the two traces say what is reached over words alone. */
  lemma MarksMean(g: Graph, urgent: bool, roots: set<Ref>, live: set<Ref>, keep: set<Ref>, marks: set<LoaderId>)
    requires WellFormed(g) && ExactlyLive(g, !urgent, roots, live) && ExactlyKept(g, !urgent, roots, live, keep, marks)
    ensures Finalizable(g, live) == Doomed(g, urgent, roots)
    ensures MarkedRight(g, urgent, roots, live, keep, marks)
  {
    hide WellFormed, ShapeOf, Stripped, Reachable, Reaches;
    forall n, from
      ensures Reachable(ShapeOf(g, !urgent), from, n) <==> Reaches(Stripped(g, urgent), from, n)
    {
      ReachableMeans(g, !urgent, from, n);
    }
    assert Finalizable(g, live) == Doomed(g, urgent, roots);
  }

  /** A referent is cleared exactly when it is not to be left. */
  lemma ReferentMeans(g: Graph, urgent: bool, roots: set<Ref>, live: set<Ref>, keep: set<Ref>, marks: set<LoaderId>, r: Ref)
    requires WellFormed(g) && MarkedRight(g, urgent, roots, live, keep, marks) && live <= keep <= HeapRefs(g)
    requires Finalizable(g, keep) == {} && r in g.objs && ReferenceOk(g, g.objs[r]) && g.objs[r].kind.Reference?
    ensures var o := g.objs[r]; var p := o.fields[ReferentIndex(g, o)];
            ReferentLeft(g, urgent, roots, o.kind, p) == if Clears(g, live, keep, o) then Null else p
  {
    var o := g.objs[r];
    var p := o.fields[ReferentIndex(g, o)];
    if p.To? {
      assert ObjOk(g, o);
      assert p.ref in PtrRefs(o.fields);
      hide WellFormed, ObjOk, Reaches, Stripped, Needed, PtrRefs;
      assert p.ref in g.objs;
      if !g.objs[p.ref].kind.ClassObject? {
        assert p.ref !in Finalizable(g, keep);
        assert p.ref in live <==> Reaches(Stripped(g, urgent), roots, ObjNode(p.ref));
        assert p.ref in keep <==> Needed(g, urgent, roots, ObjNode(p.ref));
      }
    }
  }

  lemma ObjectMeans(g: Graph, urgent: bool, roots: set<Ref>, live: set<Ref>, keep: set<Ref>, marks: set<LoaderId>, r: Ref)
    requires WellFormed(g) && MarkedRight(g, urgent, roots, live, keep, marks) && live <= keep <= HeapRefs(g)
    requires Finalizable(g, keep) == {} && r in g.objs && ReferenceOk(g, g.objs[r])
    ensures ObjectLeft(g, urgent, roots, g.objs[r], AfterSweep(g, live, keep, g.objs[r]))
  {
    var o := g.objs[r];
    if o.kind.Reference? {
      ReferentMeans(g, urgent, roots, live, keep, marks, r);
      hide WellFormed, MarkedRight, ReferentLeft, Clears, Finalizable, HeapRefs, ObjectLeft;
      var i := ReferentIndex(g, o);
      assert o.fields[i := o.fields[i]] == o.fields;
      OneWordLeft(g, urgent, roots, o, AfterSweep(g, live, keep, o));
    } else {
      hide WellFormed, MarkedRight, ReferentLeft, Finalizable, HeapRefs;
    }
  }

  lemma OneWordLeft(g: Graph, urgent: bool, roots: set<Ref>, o: Obj, o': Obj)
    requires o.kind.Reference? && ReferenceOk(g, o)
    requires var i := ReferentIndex(g, o); o' == o.(fields := o.fields[i := ReferentLeft(g, urgent, roots, o.kind, o.fields[i])])
    ensures ObjectLeft(g, urgent, roots, o, o')
  {
    hide ReferentLeft;
  }

  lemma SurvivesMeans(g: Graph, urgent: bool, roots: set<Ref>, live: set<Ref>, keep: set<Ref>, marks: set<LoaderId>, r: Ref)
    requires WellFormed(g) && MarkedRight(g, urgent, roots, live, keep, marks)
    ensures Survives(g, keep, marks, r) <==>
              r in g.objs && Needed(g, urgent, roots, if g.objs[r].kind.ClassObject? then LoaderNode(g.objs[r].kind.defines) else ObjNode(r))
  {
    if r in g.objs { assert ObjOk(g, g.objs[r]); }
    hide WellFormed, ObjOk, Needed, Reaches, Stripped;
  }

  lemma CollectedMeans(g: Graph, urgent: bool, roots: set<Ref>, live: set<Ref>, keep: set<Ref>, marks: set<LoaderId>)
    requires WellFormed(g) && MarkedRight(g, urgent, roots, live, keep, marks) && live <= keep <= HeapRefs(g)
    requires Finalizable(g, keep) == {} && forall r :: r in g.objs ==> ReferenceOk(g, g.objs[r])
    ensures LeftRight(g, Collected(g, live, keep, marks), urgent, roots)
  {
    hide WellFormed, Survives, ObjectLeft, AfterSweep, Needed, Reaches, Stripped, HeapRefs, Finalizable;
    var g' := Collected(g, live, keep, marks);
    CollectedMembers(g, live, keep, marks);
    forall r
      ensures Survives(g, keep, marks, r) <==>
                r in g.objs && Needed(g, urgent, roots, if g.objs[r].kind.ClassObject? then LoaderNode(g.objs[r].kind.defines) else ObjNode(r))
    {
      SurvivesMeans(g, urgent, roots, live, keep, marks, r);
    }
    forall r | r in g'.objs
      ensures r in g.objs && ObjectLeft(g, urgent, roots, g.objs[r], g'.objs[r])
    {
      ObjectMeans(g, urgent, roots, live, keep, marks, r);
    }
  }

  /**
   A stop-the-world collection from the given roots. `order` is the heap in sweep
   order, and soft references are followed unless the need is urgent.
   */
  method Collect(c: Collector, order: seq<Ref>, roots: seq<Ptr>, urgent: bool)
    requires c.Valid() && c.live <= c.keep && SweepOrder(c.graph, order)
    requires PtrRefs(roots) <= c.graph.objs.Keys
    modifies c
    ensures c.followSoft == !urgent
    // Marks are exactly reachability in the graph the collection began with.
    ensures ExactlyLive(old(c.graph), !urgent, PtrRefs(roots), c.live)
    ensures ExactlyKept(old(c.graph), !urgent, PtrRefs(roots), c.live, c.keep, c.marks)
    ensures c.live <= c.keep
    ensures c.numFinalizable == |Finalizable(old(c.graph), c.live)|
    // The same over words alone: what is marked, what is left, and in which words it has changed.
    ensures MarkedRight(old(c.graph), urgent, PtrRefs(roots), c.live, c.keep, c.marks)
    ensures LeftRight(old(c.graph), c.graph, urgent, PtrRefs(roots))
    // Exactly what is not marked is gone, and only dead referents are cleared.
    ensures forall q :: q in old(c.graph).objs ==> ReferenceOk(old(c.graph), old(c.graph).objs[q])
    ensures c.graph == Collected(old(c.graph), c.live, c.keep, c.marks)
    // No dangling pointer is left, unless a kept Reference loses its class.
    ensures WellFormed(c.graph) <==> forall r :: !LosesClass(old(c.graph), c.keep, c.marks, r)
    // A kept Reference refers to nothing, to what reads as live or, if phantom, to a kept object.
    ensures forall r :: r in c.keep && r in c.graph.objs && c.graph.objs[r].kind.Reference? && ReferenceOk(c.graph, c.graph.objs[r]) ==>
              var p := c.graph.objs[r].fields[ReferentIndex(c.graph, c.graph.objs[r])];
              p.To? ==> ReadsLive(old(c.graph), c.live, p.ref) || (c.graph.objs[r].kind.strength.Phantom? && p.ref in c.keep)
  {
    hide WellFormed, ShapeOf, PtrRefs, Settled, ExactlyLive, ExactlyKept, SweepOrder, Finalizable;
    hide Collected, SweptUpTo, AfterSweep, ReadsLive, LosesClass;
    ghost var g := c.graph;
    c.followSoft := !urgent;
    ReferencesOk(g);
    MarkAll(c, order, roots);
    Sweep(c, order);
    ghost var swept := c.graph;
    UnloadLoaders(c);
    SweepUnloadCollected(g, c.live, c.keep, c.marks, order, swept, c.graph);
    CollectedWellFormed(g, !urgent, c.live, c.keep, c.marks);
    MarksMean(g, urgent, PtrRefs(roots), c.live, c.keep, c.marks);
    CollectedMeans(g, urgent, PtrRefs(roots), c.live, c.keep, c.marks);
    hide MarkedRight, LeftRight;
    forall r | r in c.keep && r in c.graph.objs && c.graph.objs[r].kind.Reference? && ReferenceOk(c.graph, c.graph.objs[r])
      ensures var p := c.graph.objs[r].fields[ReferentIndex(c.graph, c.graph.objs[r])];
              p.To? ==> ReadsLive(old(c.graph), c.live, p.ref) || (c.graph.objs[r].kind.strength.Phantom? && p.ref in c.keep)
    {
      CollectedReferent(g, c.live, c.keep, c.marks, r);
      ReferentAfterSweep(g, !urgent, c.live, c.keep, c.marks, r);
    }
  }

  lemma CollectedReferent(g: Graph, live: set<Ref>, keep: set<Ref>, marks: set<LoaderId>, r: Ref)
    requires forall q :: q in g.objs ==> ReferenceOk(g, g.objs[q])
    requires r in Collected(g, live, keep, marks).objs
    ensures var g' := Collected(g, live, keep, marks);
            && r in g.objs && g'.objs[r] == AfterSweep(g, live, keep, g.objs[r])
            && g'.objs[r].kind == g.objs[r].kind
            && ReferentIndex(g', g'.objs[r]) == ReferentIndex(g, g.objs[r])
  {
  }
}
