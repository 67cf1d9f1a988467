/**
 Marking: the depth-first trace over the scan stack, used once for live objects
 and once more for objects kept alive only by pending finalization.
 */
module GcTrace {
  import opened Options
  import opened GcShape
  import opened GcGraph
  import opened ScanStack
  import opened GcMeaning

  lemma EntriesPush(lists: seq<seq<Ptr>>, refs: seq<Ptr>)
    ensures Entries(lists + [refs]) == Entries(lists) + PtrRefs(refs)
  {
  }

  lemma PtrRefsConcat(a: seq<Ptr>, b: seq<Ptr>)
    ensures PtrRefs(a + b) == PtrRefs(a) + PtrRefs(b)
  {
  }

  /** Taking the next pointer removes one pending entry and changes no other. */
  lemma EntriesTake(below: seq<seq<Ptr>>, top: seq<Ptr>)
    requires top != []
    ensures Entries(below + [top]) == Entries(below + [top[1..]]) + PtrRefs([top[0]])
    ensures Pending(below + [top]) == Pending(below + [top[1..]]) + 1
  {
    EntriesPush(below, top);
    EntriesPush(below, top[1..]);
    assert top == [top[0]] + top[1..];
    PtrRefsConcat([top[0]], top[1..]);
    assert (below + [top])[..|below|] == below;
    assert (below + [top[1..]])[..|below|] == below;
  }

  /** A saved stack frame is pushed only if its class's loader is unmarked and not the boot loader. */
  predicate FrameNeeded(g: Graph, marks: set<LoaderId>, r: Ref) {
    r in g.objs && g.objs[r].kind.ClassObject? &&
    g.objs[r].kind.defines !in marks && g.objs[r].kind.defines != BOOT
  }

  /** The strong references of an object that scanning it pushes. */
  ghost function News(g: Graph, soft: bool, marks: set<LoaderId>, o: Obj): set<Ref>
    requires ObjOk(g, o)
  {
    if o.kind.Throwable? then FieldRefs(g, soft, o) + (set r | r in o.kind.stack && FrameNeeded(g, marks, r))
    else StrongRefs(g, soft, o)
  }

  lemma NewsLocal(g: Graph, soft: bool, marks: set<LoaderId>, o: Obj)
    requires ObjOk(g, o)
    ensures News(g, soft, marks, o) <= StrongRefs(g, soft, o)
    ensures forall s :: s in StrongRefs(g, soft, o) && s !in News(g, soft, marks, o) ==>
              s in g.objs && g.objs[s].kind.ClassObject? && g.objs[s].kind.defines in marks + LoadersOf(o)
  {
  }

  lemma NewsEnough(g: Graph, soft: bool, marks: set<LoaderId>, r: Ref)
    requires WellFormed(g) && r in g.objs && Closed(ShapeOf(g, soft))
    ensures EnoughNews(ShapeOf(g, soft), marks, r, News(g, soft, marks, g.objs[r]))
  {
    hide StrongRefs, News, LoaderRefs, LoaderOk, PtrRefs;
    var sh := ShapeOf(g, soft);
    var o := g.objs[r];
    NewsLocal(g, soft, marks, o);
    forall s | s in sh.strong[r] && s !in News(g, soft, marks, o)
      ensures s in sh.classes && sh.keeps[s] <= marks + sh.keeps[r]
    {
      assert sh.keeps[s] == LoadersOf(g.objs[s]) == {g.objs[s].kind.defines};
    }
  }

  lemma NoPtrRefs()
    ensures PtrRefs([]) == {}
    ensures PtrRefs([Null]) == {}
  {
  }

  lemma NoEntries()
    ensures Entries([]) == {}
  {
  }

  lemma EntriesFirst(first: seq<Ptr>, second: seq<seq<Ptr>>)
    requires |second| <= 1
    ensures Entries([first] + second) == PtrRefs(first) + Entries(second)
  {
  }

  lemma ShapeKeys(g: Graph, soft: bool)
    requires WellFormed(g)
    ensures ShapeOf(g, soft).strong.Keys == g.objs.Keys
  {
  }

  lemma TracingMarks(g: Graph, soft: bool, roots: set<Ref>, keep0: set<Ref>, marks0: set<LoaderId>,
                     keep: set<Ref>, marks: set<LoaderId>, pend: set<Ref>)
    requires WellFormed(g) && Tracing(ShapeOf(g, soft), roots, keep0, marks0, keep, marks, pend)
    ensures keep <= HeapRefs(g) && marks <= g.loaders.Keys && pend <= g.objs.Keys
  {
  }

  lemma NoLoadersRefs(g: Graph)
    ensures LoadersRefs(g, {}) == {}
  {
  }

  lemma GraphObjOk(g: Graph, r: Ref)
    requires WellFormed(g) && r in g.objs
    ensures ObjOk(g, g.objs[r])
  {
  }

  lemma GraphLoaderOk(g: Graph, l: LoaderId)
    requires WellFormed(g) && l in g.loaders
    ensures LoaderOk(g, g.loaders[l])
  {
  }

  ghost function LoadersRefs(g: Graph, ls: set<LoaderId>): set<Ref> {
    set l, r | l in ls && l in g.loaders && LoaderOk(g, g.loaders[l]) && r in LoaderRefs(g, l) :: r
  }

  /** A null word adds no reference, so it makes no difference whether it is followed. */
  lemma SkippingNull(s: seq<Ptr>, i: int)
    requires 0 <= i < |s|
    ensures s[i] == Null ==> PtrRefs(s) == PtrRefs(s[..i]) + PtrRefs(s[i + 1..])
  {
  }

  /** The heap objects that need finalization and are not yet marked. */
  ghost function Finalizable(g: Graph, keep: set<Ref>): set<Ref> {
    set r | r in g.objs && InHeap(g, r) && g.objs[r].finalizable && r !in keep
  }

  /** The list of all explicit references from the Class instances and static fields of some types. */
  method GetExplicitRefs(g: Graph, types: seq<TypeInfo>) returns (list: seq<Ptr>)
    requires forall t :: t in types ==> TypeOk(g, t)
    ensures PtrRefs(list) == ExplicitRefs(g, types)
    ensures Null !in list
  {
    list := [];
    for i := 0 to |types|
      invariant PtrRefs(list) == ExplicitRefs(g, types[..i])
      invariant Null !in list
    {
      assert types[..i + 1] == types[..i] + [types[i]];
      assert TypeOk(g, types[i]);
      var more := GetTypeRefs(g, types[i]);
      PtrRefsConcat(list, more);
      list := list + more;
    }
    assert types[..|types|] == types;
  }

  method GetTypeRefs(g: Graph, t: TypeInfo) returns (list: seq<Ptr>)
    requires TypeOk(g, t)
    ensures PtrRefs(list) == TypeRefs(g, t)
    ensures Null !in list
  {
    list := [];
    ghost var done: set<Ref> := {};
    for j := 0 to |t.classFields|
      invariant PtrRefs(list) == set i | 0 <= i < j && i != g.vmdataSlot && t.classFields[i].To? :: t.classFields[i].ref
      invariant Null !in list
    {
      if t.classFields[j] != Null && j != g.vmdataSlot {
        PtrRefsConcat(list, [t.classFields[j]]);
        list := list + [t.classFields[j]];
      }
    }
    if t.isArray {
      return;
    }
    ghost var first := PtrRefs(list);
    var j := 0;
    while j < |t.fields| && t.fields[j].isStatic && t.fields[j].isRef
      invariant 0 <= j <= |t.fields|
      invariant forall i :: 0 <= i < j ==> t.fields[i].isStatic && t.fields[i].isRef
      invariant j <= |t.statics|
      invariant PtrRefs(list) == first + set i | 0 <= i < j && t.statics[i].To? :: t.statics[i].ref
      invariant Null !in list
    {
      if t.statics[j] != Null {
        PtrRefsConcat(list, [t.statics[j]]);
        list := list + [t.statics[j]];
      }
      j := j + 1;
    }
  }

  lemma PtrRefsOne(r: Ref)
    ensures PtrRefs([To(r)]) == {r}
  {
  }

  lemma PendingPush(lists: seq<seq<Ptr>>, refs: seq<Ptr>)
    ensures Pending(lists + [refs]) == Pending(lists) + |refs|
  {
  }

  /** One step of a trace, for each thing that can be found at a pointer. */
  lemma TracingScan(g: Graph, soft: bool, roots: set<Ref>, keep0: set<Ref>, marks0: set<LoaderId>,
                    keep: set<Ref>, marks: set<LoaderId>, pend: set<Ref>, r: Ref)
    requires WellFormed(g) && Tracing(ShapeOf(g, soft), roots, keep0, marks0, keep, marks, pend + {r})
    ensures r in g.objs
    ensures r in keep ==> Tracing(ShapeOf(g, soft), roots, keep0, marks0, keep, marks, pend)
    ensures var ls := LoadersOf(g.objs[r]);
            r !in keep && !InHeap(g, r) ==>
              Tracing(ShapeOf(g, soft), roots, keep0, marks0, keep, marks + ls, pend + LoadersRefs(g, ls - marks))
    ensures var ls := LoadersOf(g.objs[r]);
            r !in keep && InHeap(g, r) ==>
              ObjOk(g, g.objs[r]) &&
              Tracing(ShapeOf(g, soft), roots, keep0, marks0, keep + {r}, marks + ls,
                      pend + News(g, soft, marks, g.objs[r]) + LoadersRefs(g, ls - marks))
  {
    hide WellFormed, ObjOk, LoadersOf, LoadersRefs, News, Tracing, EnoughNews, Closed, LoaderNews;
    var sh := ShapeOf(g, soft);
    assert r in g.objs && Closed(sh) by { TracingPending(sh, roots, keep0, marks0, keep, marks, pend, r); }
    GraphObjOk(g, r);
    TracingShape(g, soft, marks, r);
    if r in keep {
      TraceMarked(sh, roots, keep0, marks0, keep, marks, pend, r);
    } else if InHeap(g, r) {
      NewsEnough(g, soft, marks, r);
      TraceObject(sh, roots, keep0, marks0, keep, marks, pend, r, News(g, soft, marks, g.objs[r]));
    } else {
      TraceClass(sh, roots, keep0, marks0, keep, marks, pend, r);
    }
  }

  lemma TracingPending(sh: Shape, roots: set<Ref>, keep0: set<Ref>, marks0: set<LoaderId>,
                       keep: set<Ref>, marks: set<LoaderId>, pend: set<Ref>, r: Ref)
    requires Tracing(sh, roots, keep0, marks0, keep, marks, pend + {r})
    ensures r in sh.strong && Closed(sh)
  {
  }

  lemma TracingShape(g: Graph, soft: bool, marks: set<LoaderId>, r: Ref)
    requires WellFormed(g) && r in g.objs && Closed(ShapeOf(g, soft))
    ensures var sh := ShapeOf(g, soft);
            && sh.keeps[r] == LoadersOf(g.objs[r])
            && (InHeap(g, r) <==> r in Heap(sh))
            && (!InHeap(g, r) <==> r in sh.classes)
            && LoaderNews(sh, marks, sh.keeps[r]) == LoadersRefs(g, LoadersOf(g.objs[r]) - marks)
  {
    hide StrongRefs, LoaderRefs, LoaderOk, PtrRefs;
  }

  /** Marking a finalizable object takes it out of those left over. */
  lemma FinalizableMark(g: Graph, keep: set<Ref>, r: Ref)
    requires r in g.objs
    ensures InHeap(g, r) && r !in keep && g.objs[r].finalizable ==>
              |Finalizable(g, keep + {r})| == |Finalizable(g, keep)| - 1
    ensures !InHeap(g, r) || r in keep || !g.objs[r].finalizable ==>
              Finalizable(g, keep + {r}) == Finalizable(g, keep)
  {
    if InHeap(g, r) && r !in keep && g.objs[r].finalizable {
      assert Finalizable(g, keep) == Finalizable(g, keep + {r}) + {r};
    }
  }

  class Collector {
    var graph: Graph
    var live: set<Ref>             // heap objects with the LIVE bit set
    var keep: set<Ref>             // heap objects with the KEEP bit set
    var marks: set<LoaderId>       // loaders with gc_mark set
    var numFinalizable: int
    var markLive: bool             // whether mark_bits holds the LIVE bit
    var followSoft: bool

    ghost predicate Valid()
      reads this
    {
      WellFormed(graph) && keep <= HeapRefs(graph) && marks <= graph.loaders.Keys
    }

    /** Mark an object in the heap. Returns true if it was marked before. */
    method MarkObject(r: Ref) returns (already: bool)
      requires Valid() && InHeap(graph, r)
      modifies `live, `keep, `numFinalizable
      ensures already <==> r in old(keep)
      ensures keep == old(keep) + {r}
      ensures live == if markLive && !already then old(live) + {r} else old(live)
      ensures numFinalizable == old(numFinalizable) - (if !already && graph.objs[r].finalizable then 1 else 0)
    {
      already := r in keep;
      if already {
        return;
      }
      if graph.objs[r].finalizable {
        numFinalizable := numFinalizable - 1;
      }
      keep := keep + {r};
      if markLive {
        live := live + {r};
      }
    }

    /** Set a loader's mark and push everything its types and implicit references hold. */
    method MarkLoader(stack: Stack, l: LoaderId)
      requires Valid() && stack.Valid() && stack.Loaded()
      requires l in graph.loaders && l !in marks
      modifies `marks, stack
      ensures stack.Valid() && stack.Loaded()
      ensures marks == old(marks) + {l}
      ensures Entries(stack.Contents()) == old(Entries(stack.Contents())) + LoaderRefs(graph, l)
    {
      hide WellFormed, TypeRefs, Flat;
      marks := marks + {l};
      var loader := graph.loaders[l];
      assert LoaderOk(graph, loader) by { GraphLoaderOk(graph, l); }
      var erefs := GetExplicitRefs(graph, loader.types);
      if |erefs| > 0 {
        EntriesPush(stack.Contents(), erefs);
        stack.Push(erefs);
      }
      if |loader.implicitRefs| > 0 {
        EntriesPush(stack.Contents(), loader.implicitRefs);
        stack.Push(loader.implicitRefs);
      }
    }

    /** Mark those of an object's loaders that are not marked yet. */
    method MarkLoaders(stack: Stack, first: LoaderId, second: Option<LoaderId>)
      requires Valid() && stack.Valid() && stack.Loaded()
      requires first in graph.loaders && (second.Some? ==> second.value in graph.loaders && second.value != first)
      modifies `marks, stack
      ensures stack.Valid() && stack.Loaded()
      ensures var ls := {first} + (if second.Some? then {second.value} else {});
              && marks == old(marks) + ls
              && Entries(stack.Contents()) == old(Entries(stack.Contents())) + LoadersRefs(graph, ls - old(marks))
    {
      hide WellFormed, LoaderRefs, Flat, Entries;
      GraphLoaderOk(graph, first);
      if second.Some? {
        GraphLoaderOk(graph, second.value);
      }
      if first !in marks {
        MarkLoader(stack, first);
      }
      if second.Some? && second.value !in marks {
        MarkLoader(stack, second.value);
      }
    }

    /** Push an object's reference words, all but the referent if that is not to be followed. */
    method PushFields(stack: Stack, o: Obj)
      requires stack.Valid() && stack.Loaded() && ReferenceOk(graph, o) && !o.kind.ClassObject?
      modifies stack
      ensures stack.Valid() && stack.Loaded()
      ensures Entries(stack.Contents()) == old(Entries(stack.Contents())) + FieldRefs(graph, followSoft, o)
      ensures forall s :: s in Entries(stack.Contents()) <==> s in old(Entries(stack.Contents())) || To(s) in StrikeOut(graph, !followSoft, o).fields
    {
      hide Flat, Entries, StrikeOut;
      forall s
        ensures s in FieldRefs(graph, followSoft, o) <==> To(s) in StrikeOut(graph, !followSoft, o).fields
      {
        WordsStruck(graph, followSoft, o, s);
      }
      var nrefs := |o.fields|;
      if o.kind.Reference? && o.fields[ReferentIndex(graph, o)] != Null && !(followSoft && o.kind.strength.Soft?) {
        var above := o.fields[ReferentIndex(graph, o) + 1..];
        var below := o.fields[..ReferentIndex(graph, o)];
        if graph.referentSlot > 1 {
          EntriesPush(stack.Contents(), above);
          stack.Push(above);
        }
        if nrefs > graph.referentSlot {
          EntriesPush(stack.Contents(), below);
          stack.Push(below);
        }
      } else {
        if o.kind.Reference? {
          SkippingNull(o.fields, ReferentIndex(graph, o));
        }
        if nrefs != 0 {
          EntriesPush(stack.Contents(), o.fields);
          stack.Push(o.fields);
        }
      }
    }

    /** The Class instances of a stack trace whose loaders still need marking. */
    method FrameList(trace: seq<Ref>) returns (refs: seq<Ptr>)
      ensures PtrRefs(refs) == set r | r in trace && FrameNeeded(graph, marks, r)
    {
      hide FrameNeeded;
      refs := [];
      for i := 0 to |trace|
        invariant PtrRefs(refs) == set r | r in trace[..i] && FrameNeeded(graph, marks, r)
      {
        assert trace[..i + 1] == trace[..i] + [trace[i]];
        if FrameNeeded(graph, marks, trace[i]) {
          PtrRefsConcat(refs, [To(trace[i])]);
          refs := refs + [To(trace[i])];
        }
      }
      assert trace[..|trace|] == trace;
    }

    /** Push all strong references of an object's own. */
    method PushObject(stack: Stack, o: Obj)
      requires stack.Valid() && stack.Loaded() && ObjOk(graph, o) && !o.kind.ClassObject?
      modifies stack
      ensures stack.Valid() && stack.Loaded()
      ensures Entries(stack.Contents()) == old(Entries(stack.Contents())) + News(graph, followSoft, marks, o)
    {
      hide Flat, Entries, FrameNeeded, FieldRefs, PtrRefs;
      PushFields(stack, o);
      if o.kind.Throwable? {
        var refs := FrameList(o.kind.stack);
        if |refs| != 0 {
          EntriesPush(stack.Contents(), refs);
          stack.Push(refs);
        } else {
          assert PtrRefs(refs) == {} by { NoPtrRefs(); }
        }
      }
    }

    /** Deal with one non-null pointer taken from the scan stack. */
    method Scan(stack: Stack, r: Ref)
      requires Valid() && stack.Valid() && stack.Loaded() && r in graph.objs
      modifies `live, `keep, `numFinalizable, `marks, stack
      ensures stack.Valid() && stack.Loaded()
      ensures r in old(keep) ==>
                keep == old(keep) && live == old(live) && marks == old(marks) && numFinalizable == old(numFinalizable) &&
                stack.Contents() == old(stack.Contents())
      ensures r !in old(keep) ==> marks == old(marks) + LoadersOf(graph.objs[r])
      ensures r !in old(keep) && marks == old(marks) && keep == old(keep) ==> stack.Contents() == old(stack.Contents())
      ensures r !in old(keep) && !InHeap(graph, r) ==>
                keep == old(keep) && live == old(live) && numFinalizable == old(numFinalizable) &&
                Entries(stack.Contents()) ==
                old(Entries(stack.Contents())) + LoadersRefs(graph, LoadersOf(graph.objs[r]) - old(marks))
      ensures r !in old(keep) && InHeap(graph, r) ==>
                && keep == old(keep) + {r}
                && live == (if markLive then old(live) + {r} else old(live))
                && numFinalizable == old(numFinalizable) - (if graph.objs[r].finalizable then 1 else 0)
                && ObjOk(graph, graph.objs[r])
                && Entries(stack.Contents()) ==
                   old(Entries(stack.Contents())) + News(graph, followSoft, old(marks), graph.objs[r])
                   + LoadersRefs(graph, LoadersOf(graph.objs[r]) - old(marks))
    {
      hide WellFormed, ReferenceOk, PtrRefs, Flat, Entries, News, LoadersRefs;
      var o := graph.objs[r];
      GraphObjOk(graph, r);
      if o.kind.ClassObject? {
        assert LoadersOf(o) == {o.kind.defines} + {};
        if o.kind.defines !in marks {
          MarkLoaders(stack, o.kind.defines, None);
        } else {
          NoLoadersRefs(graph);
          assert LoadersOf(o) - marks == {};
        }
        return;
      }
      var already := MarkObject(r);
      if already {
        return;
      }
      PushObject(stack, o);
      var second := if o.kind.ClassLoaderObject? then o.kind.vmdata else None;
      assert LoadersOf(o) == {o.loader} + (if second.Some? then {second.value} else {});
      MarkLoaders(stack, o.loader, second);
    }

    /** One turn of the scan loop: drop an exhausted list, or deal with the next pointer. */
    method Turn(stack: Stack, ghost sh: Shape, ghost roots: set<Ref>, ghost keep0: set<Ref>, ghost marks0: set<LoaderId>)
      returns (done: bool)
      requires Valid() && stack.Valid() && stack.Loaded()
      requires sh == ShapeOf(graph, followSoft)
      requires Tracing(sh, roots, keep0, marks0, keep, marks, Entries(stack.Contents()))
      modifies `live, `keep, `numFinalizable, `marks, stack
      ensures stack.Valid() && (done || stack.Loaded())
      ensures Valid() && old(keep) <= keep && old(marks) <= marks
      ensures Tracing(sh, roots, keep0, marks0, keep, marks, Entries(stack.Contents()))
      ensures live == if markLive then old(live) + (keep - old(keep)) else old(live)
      ensures numFinalizable - |Finalizable(graph, keep)| == old(numFinalizable - |Finalizable(graph, keep)|)
      ensures done ==> Entries(stack.Contents()) == {}
      ensures done || keep > old(keep) ||
              (keep == old(keep) &&
               (marks > old(marks) ||
                (marks == old(marks) &&
                 (Pending(stack.Contents()) < old(Pending(stack.Contents())) ||
                  (Pending(stack.Contents()) == old(Pending(stack.Contents())) &&
                   |stack.Contents()| < old(|stack.Contents()|))))))
    {
      hide WellFormed, ShapeOf, Tracing, Entries, Flat, PtrRefs, Finalizable, News, LoadersRefs, LoadersOf, ObjOk;
      hide Stack.Valid, Stack.Loaded, Stack.Contents;
      ghost var lists := stack.Contents();
      ghost var n := |lists| - 1;
      var top := stack.Top();
      assert lists == lists[..n] + [lists[n]];
      if top == [] {
        EntriesPush(lists[..n], []);
        PendingPush(lists[..n], []);
        NoPtrRefs();
        assert Entries(lists[..n]) + {} == Entries(lists[..n]);
        done := stack.Pop();
        NoEntries();
        return;
      }
      done := false;
      EntriesTake(lists[..n], lists[n]);
      var p := stack.Take();
      ghost var pend := Entries(stack.Contents());
      if p == Null {
        NoPtrRefs();
        assert pend + {} == pend;
        return;
      }
      PtrRefsOne(p.ref);
      TracingScan(graph, followSoft, roots, keep0, marks0, keep, marks, pend, p.ref);
      FinalizableMark(graph, keep, p.ref);
      Scan(stack, p.ref);
      TracingMarks(graph, followSoft, roots, keep0, marks0, keep, marks, Entries(stack.Contents()));
    }

    /** Scan everything reachable from the given root lists. */
    method Trace(first: seq<Ptr>, second: seq<seq<Ptr>>)
      requires Valid() && |second| <= 1
      requires PtrRefs(first) + Entries(second) <= graph.objs.Keys
      requires Settled(ShapeOf(graph, followSoft), keep, marks)
      requires numFinalizable == |Finalizable(graph, keep)|
      modifies `live, `keep, `numFinalizable, `marks
      ensures Valid() && old(keep) <= keep && old(marks) <= marks
      ensures Settled(ShapeOf(graph, followSoft), keep, marks)
      ensures ExactMarks(ShapeOf(graph, followSoft), PtrRefs(first) + Entries(second), old(keep), old(marks), keep, marks)
      ensures TracedRight(graph, !followSoft, PtrRefs(first) + Entries(second), old(keep), old(marks), keep, marks)
      ensures live == if markLive then old(live) + (keep - old(keep)) else old(live)
      ensures numFinalizable == |Finalizable(graph, keep)|
    {
      hide WellFormed, ShapeOf, Tracing, Settled, ExactMarks, Entries, Flat, PtrRefs, Finalizable;
      hide Stack.Valid, Stack.Loaded, Stack.Contents;
      var stack := new Stack(first, second);
      ghost var roots := PtrRefs(first) + Entries(second);
      ghost var sh := ShapeOf(graph, followSoft);
      EntriesFirst(first, second);
      ShapeKeys(graph, followSoft);
      StartTracing(sh, keep, marks, roots);
      var done := false;
      while !done
        invariant Valid() && stack.Valid() && (done || stack.Loaded())
        invariant old(keep) <= keep && old(marks) <= marks
        invariant Tracing(sh, roots, old(keep), old(marks), keep, marks, Entries(stack.Contents()))
        invariant done ==> Entries(stack.Contents()) == {}
        invariant live == if markLive then old(live) + (keep - old(keep)) else old(live)
        invariant numFinalizable == |Finalizable(graph, keep)|
        decreases !done, HeapRefs(graph) - keep, graph.loaders.Keys - marks, Pending(stack.Contents()), |stack.Contents()|
      {
        done := Turn(stack, sh, roots, old(keep), old(marks));
      }
      FinishTracing(sh, roots, old(keep), old(marks), keep, marks);
      ExactMeans(graph, followSoft, roots, old(keep), old(marks), keep, marks);
      hide TracedRight;
    }
  }
}
