/**
 What a collection means, said without the collector's own notions: every reference word
 counts alike, and what a Reference does not keep alive is said by striking its referent out
 of the graph first.
 */
module GcMeaning {
  import opened Options
  import opened GcShape
  import opened GcGraph

  /** Every word of an object, every frame of a saved stack trace, every loader of an object,
      and everything a loader's types and its list of implicit references refer to. */
  ghost predicate Points(g: Graph, a: Node, b: Node) {
    match (a, b)
    case (ObjNode(r), ObjNode(s)) =>
      && r in g.objs && !g.objs[r].kind.ClassObject?
      && (To(s) in g.objs[r].fields || (g.objs[r].kind.Throwable? && s in g.objs[r].kind.stack))
    case (ObjNode(r), LoaderNode(l)) =>
      && r in g.objs
      && (match g.objs[r].kind
          case ClassObject(d) => l == d
          case ClassLoaderObject(v) => l == g.objs[r].loader || v == Some(l)
          case _ => l == g.objs[r].loader)
    case (LoaderNode(l), ObjNode(s)) =>
      && l in g.loaders
      && (To(s) in g.loaders[l].implicitRefs || exists t :: t in g.loaders[l].types && TypePoints(g, t, s))
    case (LoaderNode(_), LoaderNode(_)) => false
  }

  /** The words of the Class instance but for the one that holds private data, and for a class
      the words of its static reference fields. */
  ghost predicate TypePoints(g: Graph, t: TypeInfo, s: Ref) {
    || (exists i :: 0 <= i < |t.classFields| && i != g.vmdataSlot && t.classFields[i] == To(s))
    || (!t.isArray && exists j :: 0 <= j < |t.fields| && j < |t.statics| && t.fields[j].isStatic && t.fields[j].isRef && t.statics[j] == To(s))
  }

  /** Weak and phantom referents never count, soft ones not when the need is urgent. */
  ghost predicate Struck(urgent: bool, k: Kind) {
    match k
    case Reference(Weak) => true
    case Reference(Phantom) => true
    case Reference(Soft) => urgent
    case _ => false
  }

  /** The word that holds the referent, `referentSlot` words below the header. */
  ghost function Referent(g: Graph, o: Obj): Ptr {
    if o.kind.Reference? && 1 <= g.referentSlot <= |o.fields| then o.fields[|o.fields| - g.referentSlot] else Null
  }

  ghost function StrikeOut(g: Graph, urgent: bool, o: Obj): Obj {
    if Struck(urgent, o.kind) && 1 <= g.referentSlot <= |o.fields| then o.(fields := o.fields[|o.fields| - g.referentSlot := Null]) else o
  }

  /** The graph with the referents that do not count set to null. */
  ghost function Stripped(g: Graph, urgent: bool): Graph {
    g.(objs := map r | r in g.objs :: StrikeOut(g, urgent, g.objs[r]))
  }

  ghost predicate Path(g: Graph, roots: set<Ref>, n: Node, p: seq<Node>) {
    && |p| > 0 && p[0].ObjNode? && p[0].ref in roots && p[|p| - 1] == n
    && forall i :: 0 <= i < |p| - 1 ==> Points(g, p[i], p[i + 1])
  }

  ghost predicate Reaches(g: Graph, roots: set<Ref>, n: Node) {
    exists p: seq<Node> :: Path(g, roots, n, p)
  }

  // ---------------------------------------------------------------------------
  // The collector's edges are these

  lemma WordsStruck(g: Graph, soft: bool, o: Obj, s: Ref)
    requires ReferenceOk(g, o)
    ensures s in FieldRefs(g, soft, o) <==> To(s) in StrikeOut(g, !soft, o).fields
  {
    if Struck(!soft, o.kind) {
      var i := ReferentIndex(g, o);
      var left, right := o.fields[..i], o.fields[i + 1..];
      assert o.fields[i := Null] == left + [Null] + right;
      assert s in FieldRefs(g, soft, o) <==> To(s) in left || To(s) in right;
    }
  }

  lemma ObjectWords(g: Graph, soft: bool, r: Ref, s: Ref)
    requires r in g.objs && ObjOk(g, g.objs[r])
    ensures s in StrongRefs(g, soft, g.objs[r]) <==> Points(Stripped(g, !soft), ObjNode(r), ObjNode(s))
  {
    var o := g.objs[r];
    assert Stripped(g, !soft).objs[r] == StrikeOut(g, !soft, o);
    StruckKeeps(g, !soft, o);
    if !o.kind.ClassObject? { WordsStruck(g, soft, o, s); }
    hide FieldRefs, StrikeOut;
  }

  lemma ObjectLoaders(g: Graph, urgent: bool, r: Ref, l: LoaderId)
    requires r in g.objs
    ensures l in LoadersOf(g.objs[r]) <==> Points(Stripped(g, urgent), ObjNode(r), LoaderNode(l))
  {
    StruckKeeps(g, urgent, g.objs[r]);
    hide StrikeOut;
  }

  lemma ObjectEdges(g: Graph, soft: bool, r: Ref, b: Node)
    requires WellFormed(g)
    ensures Edge(ShapeOf(g, soft), ObjNode(r), b) <==> Points(Stripped(g, !soft), ObjNode(r), b)
  {
    if r in g.objs {
      assert ObjOk(g, g.objs[r]);
      hide WellFormed, ObjOk, StrongRefs, LoadersOf, Stripped, Points;
      match b
      case ObjNode(s) => ObjectWords(g, soft, r, s);
      case LoaderNode(l) => ObjectLoaders(g, !soft, r, l);
    }
  }

  lemma StruckKeeps(g: Graph, urgent: bool, o: Obj)
    ensures var o' := StrikeOut(g, urgent, o); o'.kind == o.kind && o'.loader == o.loader && o'.finalizable == o.finalizable
  {
  }

  lemma TypeEdges(g: Graph, t: TypeInfo, s: Ref)
    requires TypeOk(g, t)
    ensures s in TypeRefs(g, t) <==> TypePoints(g, t, s)
  {
  }

  lemma LoaderEdges(g: Graph, soft: bool, l: LoaderId, b: Node)
    requires WellFormed(g)
    ensures Edge(ShapeOf(g, soft), LoaderNode(l), b) <==> Points(Stripped(g, !soft), LoaderNode(l), b)
  {
    if l in g.loaders && b.ObjNode? {
      var g' := Stripped(g, !soft);
      var s, types := b.ref, g.loaders[l].types;
      assert LoaderOk(g, g.loaders[l]);
      assert g'.loaders == g.loaders && g'.vmdataSlot == g.vmdataSlot;
      hide WellFormed, TypeRefs, Stripped;
      forall t | t in types
        ensures s in TypeRefs(g, t) <==> TypePoints(g', t, s)
      {
        TypeEdges(g, t, s);
        assert TypePoints(g, t, s) <==> TypePoints(g', t, s);
      }
      hide TypePoints;
      assert s in ExplicitRefs(g, types) <==> exists t :: t in types && s in TypeRefs(g, t);
      assert s in PtrRefs(g.loaders[l].implicitRefs) <==> To(s) in g.loaders[l].implicitRefs;
    }
  }

  lemma SameEdges(g: Graph, soft: bool, a: Node, b: Node)
    requires WellFormed(g)
    ensures Edge(ShapeOf(g, soft), a, b) <==> Points(Stripped(g, !soft), a, b)
  {
    match a
    case ObjNode(r) => ObjectEdges(g, soft, r, b);
    case LoaderNode(l) => LoaderEdges(g, soft, l, b);
  }

  /** What the collector calls reachable is what is reached over words alone. */
  lemma ReachableMeans(g: Graph, soft: bool, roots: set<Ref>, n: Node)
    requires WellFormed(g)
    ensures Reachable(ShapeOf(g, soft), roots, n) <==> Reaches(Stripped(g, !soft), roots, n)
  {
    var sh, g' := ShapeOf(g, soft), Stripped(g, !soft);
    forall a, b
      ensures Edge(sh, a, b) <==> Points(g', a, b)
    {
      SameEdges(g, soft, a, b);
    }
    hide Edge, Points, ShapeOf, Stripped;
    if p :| PathFrom(sh, roots, n, p) { assert Path(g', roots, n, p); }
    if p :| Path(g', roots, n, p) { assert PathFrom(sh, roots, n, p); }
  }

  /** A trace marks what its roots reach, in addition to what was marked before. */
  ghost predicate TracedRight(g: Graph, urgent: bool, roots: set<Ref>, keep0: set<Ref>, marks0: set<LoaderId>, keep: set<Ref>, marks: set<LoaderId>) {
    && (forall r :: r in g.objs && !g.objs[r].kind.ClassObject? ==>
          (r in keep <==> r in keep0 || Reaches(Stripped(g, urgent), roots, ObjNode(r))))
    && (forall l :: l in g.loaders ==> (l in marks <==> l in marks0 || Reaches(Stripped(g, urgent), roots, LoaderNode(l))))
  }

  lemma ExactMeans(g: Graph, soft: bool, roots: set<Ref>, keep0: set<Ref>, marks0: set<LoaderId>, keep: set<Ref>, marks: set<LoaderId>)
    requires WellFormed(g) && ExactMarks(ShapeOf(g, soft), roots, keep0, marks0, keep, marks)
    ensures TracedRight(g, !soft, roots, keep0, marks0, keep, marks)
  {
    ShapeClosed(g, soft);
    assert ShapeOf(g, soft).holds.Keys == g.loaders.Keys;
    forall n
      ensures Reachable(ShapeOf(g, soft), roots, n) <==> Reaches(Stripped(g, !soft), roots, n)
    {
      ReachableMeans(g, soft, roots, n);
    }
    hide WellFormed, ShapeOf, Stripped, Reachable, Reaches;
  }

  lemma Follow(g: Graph, roots: set<Ref>, a: Node, b: Node)
    requires Reaches(g, roots, a) && Points(g, a, b)
    ensures Reaches(g, roots, b)
  {
    var p :| Path(g, roots, a, p);
    assert Path(g, roots, b, p + [b]);
  }

  // ---------------------------------------------------------------------------
  // What a collection is to do

  /** The heap objects to be finalized that the roots do not reach. */
  ghost function Doomed(g: Graph, urgent: bool, roots: set<Ref>): set<Ref> {
    set r | r in g.objs && !g.objs[r].kind.ClassObject? && g.objs[r].finalizable && !Reaches(Stripped(g, urgent), roots, ObjNode(r))
  }

  /** Reached from the roots, or from an object that is to be finalized. */
  ghost predicate Needed(g: Graph, urgent: bool, roots: set<Ref>, n: Node) {
    Reaches(Stripped(g, urgent), roots, n) || Reaches(Stripped(g, urgent), Doomed(g, urgent, roots), n)
  }

  ghost predicate MarkedRight(g: Graph, urgent: bool, roots: set<Ref>, live: set<Ref>, keep: set<Ref>, marks: set<LoaderId>) {
    && (forall r :: r in g.objs && !g.objs[r].kind.ClassObject? ==>
          && (r in live <==> Reaches(Stripped(g, urgent), roots, ObjNode(r)))
          && (r in keep <==> Needed(g, urgent, roots, ObjNode(r))))
    && (forall l :: l in g.loaders ==> (l in marks <==> Needed(g, urgent, roots, LoaderNode(l))))
  }

  /** What becomes of a referent: it stays if the roots reach it, if it is a Class instance, or,
      for a phantom reference, if it is needed. */
  ghost function ReferentLeft(g: Graph, urgent: bool, roots: set<Ref>, k: Kind, p: Ptr): Ptr {
    match p
    case Null => Null
    case To(s) =>
      if Reaches(Stripped(g, urgent), roots, ObjNode(s)) then p
      else if s in g.objs && g.objs[s].kind.ClassObject? then p
      else if k == Reference(Phantom) && Needed(g, urgent, roots, ObjNode(s)) then p
      else Null
  }

  /** An object has changed in nothing but its referent. */
  ghost predicate ObjectLeft(g: Graph, urgent: bool, roots: set<Ref>, o: Obj, o': Obj) {
    && o'.kind == o.kind && o'.loader == o.loader && o'.finalizable == o.finalizable && |o'.fields| == |o.fields|
    && forall i :: 0 <= i < |o.fields| ==>
         o'.fields[i] == if o.kind.Reference? && i == |o.fields| - g.referentSlot then ReferentLeft(g, urgent, roots, o.kind, o.fields[i]) else o.fields[i]
  }

  /** Of objects and loaders exactly the needed ones are left; a Class instance goes with its loader. */
  ghost predicate LeftRight(g: Graph, g': Graph, urgent: bool, roots: set<Ref>) {
    && (forall r :: r in g'.objs <==>
          r in g.objs && Needed(g, urgent, roots, if g.objs[r].kind.ClassObject? then LoaderNode(g.objs[r].kind.defines) else ObjNode(r)))
    && (forall l :: l in g'.loaders <==> l in g.loaders && Needed(g, urgent, roots, LoaderNode(l)))
    && (forall l :: l in g'.loaders ==> l in g.loaders && g'.loaders[l] == g.loaders[l])
    && (forall r :: r in g'.objs ==> r in g.objs && ObjectLeft(g, urgent, roots, g.objs[r], g'.objs[r]))
  }

  /** Unless the need is urgent, what a live soft reference refers to is live too. */
  lemma SoftKept(g: Graph, roots: set<Ref>, r: Ref, s: Ref)
    requires r in g.objs && g.objs[r].kind == Reference(Soft) && Referent(g, g.objs[r]) == To(s)
    requires Reaches(Stripped(g, false), roots, ObjNode(r))
    ensures Reaches(Stripped(g, false), roots, ObjNode(s))
  {
    var g' := Stripped(g, false);
    assert g'.objs[r] == g.objs[r];
    assert Points(g', ObjNode(r), ObjNode(s));
    Follow(g', roots, ObjNode(r), ObjNode(s));
  }

  lemma SoftStays(g: Graph, g': Graph, roots: set<Ref>, live: set<Ref>, keep: set<Ref>, marks: set<LoaderId>, r: Ref, s: Ref)
    requires MarkedRight(g, false, roots, live, keep, marks) && LeftRight(g, g', false, roots)
    requires r in live && r in g.objs && g.objs[r].kind == Reference(Soft) && Referent(g, g.objs[r]) == To(s)
    ensures s in g.objs && !g.objs[s].kind.ClassObject? ==> s in live
    ensures r in g'.objs && g'.objs[r].fields == g.objs[r].fields
  {
    SoftKept(g, roots, r, s);
    hide Reaches, Stripped;
    assert ObjectLeft(g, false, roots, g.objs[r], g'.objs[r]);
  }

  /** A weak or phantom reference keeps nothing alive: without its referent all that was reached still is. */
  lemma WeakIgnored(g: Graph, urgent: bool, r: Ref, s: Ref, roots: set<Ref>, n: Node)
    requires r in g.objs && (g.objs[r].kind == Reference(Weak) || g.objs[r].kind == Reference(Phantom)) && 1 <= g.referentSlot <= |g.objs[r].fields|
    ensures var o := g.objs[r];
            var g1 := g.(objs := g.objs[r := o.(fields := o.fields[|o.fields| - g.referentSlot := To(s)])]);
            Reaches(Stripped(g1, urgent), roots, n) <==> Reaches(Stripped(g, urgent), roots, n)
  {
    var o := g.objs[r];
    var g1 := g.(objs := g.objs[r := o.(fields := o.fields[|o.fields| - g.referentSlot := To(s)])]);
    var i := |o.fields| - g.referentSlot;
    assert o.fields[i := To(s)][i := Null] == o.fields[i := Null];
    assert StrikeOut(g1, urgent, g1.objs[r]) == StrikeOut(g, urgent, o);
    assert forall q :: q in g.objs && q != r ==> StrikeOut(g1, urgent, g1.objs[q]) == StrikeOut(g, urgent, g.objs[q]);
    assert Stripped(g1, urgent).objs == Stripped(g, urgent).objs;
    assert Stripped(g1, urgent) == Stripped(g, urgent);
  }
}
