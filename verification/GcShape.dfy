/**
 Reachability and tri-colour marking over the bare shape of an object graph:
 which references each object follows, which loaders it keeps, and which
 references each loader holds.
 */
module GcShape {
  type Ref = nat
  type LoaderId = nat

  /** Class instances (`classes`) are never marked; the one loader they keep stands for them. */
  datatype Shape = Shape(
    strong: map<Ref, set<Ref>>,
    keeps: map<Ref, set<LoaderId>>,
    classes: set<Ref>,
    holds: map<LoaderId, set<Ref>>)

  ghost predicate Closed(sh: Shape) {
    && sh.keeps.Keys == sh.strong.Keys
    && sh.classes <= sh.strong.Keys
    && (forall r :: r in sh.strong ==> sh.strong[r] <= sh.strong.Keys && sh.keeps[r] <= sh.holds.Keys)
    && (forall c :: c in sh.classes ==> sh.strong[c] == {})
    && (forall l :: l in sh.holds ==> sh.holds[l] <= sh.strong.Keys)
  }

  ghost function Heap(sh: Shape): set<Ref> {
    sh.strong.Keys - sh.classes
  }

  // ---------------------------------------------------------------------------
  // Reachability

  datatype Node = ObjNode(ref: Ref) | LoaderNode(loader: LoaderId)

  ghost predicate Edge(sh: Shape, a: Node, b: Node) {
    match (a, b)
    case (ObjNode(r), ObjNode(s)) => r in sh.strong && s in sh.strong[r]
    case (ObjNode(r), LoaderNode(l)) => r in sh.keeps && l in sh.keeps[r]
    case (LoaderNode(l), ObjNode(s)) => l in sh.holds && s in sh.holds[l]
    case (LoaderNode(_), LoaderNode(_)) => false
  }

  ghost predicate PathFrom(sh: Shape, roots: set<Ref>, n: Node, p: seq<Node>) {
    && |p| > 0
    && p[0].ObjNode? && p[0].ref in roots && p[|p| - 1] == n
    && forall i :: 0 <= i < |p| - 1 ==> Edge(sh, p[i], p[i + 1])
  }

  ghost predicate Reachable(sh: Shape, roots: set<Ref>, n: Node) {
    exists p: seq<Node> :: PathFrom(sh, roots, n, p)
  }

  lemma RootReachable(sh: Shape, roots: set<Ref>, r: Ref)
    requires r in roots
    ensures Reachable(sh, roots, ObjNode(r))
  {
    assert PathFrom(sh, roots, ObjNode(r), [ObjNode(r)]);
  }

  lemma ReachableStep(sh: Shape, roots: set<Ref>, a: Node, b: Node)
    requires Reachable(sh, roots, a) && Edge(sh, a, b)
    ensures Reachable(sh, roots, b)
  {
    var p :| PathFrom(sh, roots, a, p);
    assert PathFrom(sh, roots, b, p + [b]);
  }

  /** A set of nodes that holds the roots and every successor of its members holds all that is reachable. */
  lemma ClosedSetHoldsReachable(sh: Shape, roots: set<Ref>, inside: iset<Node>, n: Node)
    requires forall r :: r in roots ==> ObjNode(r) in inside
    requires forall a, b :: a in inside && Edge(sh, a, b) ==> b in inside
    requires Reachable(sh, roots, n)
    ensures n in inside
  {
    var p :| PathFrom(sh, roots, n, p);
    var i := 0;
    while i < |p| - 1
      invariant 0 <= i < |p| && p[i] in inside
    {
      assert Edge(sh, p[i], p[i + 1]);
      i := i + 1;
    }
  }

  // ---------------------------------------------------------------------------
  // Tri-colour marking

  /** Black, through its loader for a Class instance. */
  ghost predicate Marked(sh: Shape, keep: set<Ref>, marks: set<LoaderId>, r: Ref) {
    if r in sh.classes then r in sh.keeps && sh.keeps[r] <= marks else r in keep
  }

  ghost predicate MarkedNode(sh: Shape, keep: set<Ref>, marks: set<LoaderId>, n: Node) {
    match n
    case ObjNode(r) => Marked(sh, keep, marks, r)
    case LoaderNode(l) => l in marks
  }

  ghost predicate Seen(sh: Shape, keep: set<Ref>, marks: set<LoaderId>, pend: set<Ref>, r: Ref) {
    r in pend || Marked(sh, keep, marks, r)
  }

  ghost predicate Marks(sh: Shape, keep: set<Ref>, marks: set<LoaderId>) {
    keep <= Heap(sh) && marks <= sh.holds.Keys
  }

  /** Nothing black points at anything neither black nor pending. */
  ghost predicate Covered(sh: Shape, keep: set<Ref>, marks: set<LoaderId>, pend: set<Ref>)
    requires Closed(sh) && Marks(sh, keep, marks)
  {
    && (forall o, s :: o in keep && s in sh.strong[o] ==> Seen(sh, keep, marks, pend, s))
    && (forall o :: o in keep ==> sh.keeps[o] <= marks)
    && (forall l, s :: l in marks && s in sh.holds[l] ==> Seen(sh, keep, marks, pend, s))
  }

  ghost predicate Grounded(sh: Shape, roots: set<Ref>, objs: set<Ref>, loaders: set<LoaderId>) {
    && (forall r :: r in objs ==> Reachable(sh, roots, ObjNode(r)))
    && (forall l :: l in loaders ==> Reachable(sh, roots, LoaderNode(l)))
  }

  /** The references that scanning the not yet marked loaders of `ls` makes pending. */
  ghost function LoaderNews(sh: Shape, marks: set<LoaderId>, ls: set<LoaderId>): set<Ref>
    requires ls <= sh.holds.Keys
  {
    set l, r | l in ls && l !in marks && r in sh.holds[l] :: r
  }

  /** `news` is all that need be pushed for `r`: what it leaves out is settled by the loaders `r` keeps. */
  ghost predicate EnoughNews(sh: Shape, marks: set<LoaderId>, r: Ref, news: set<Ref>)
    requires Closed(sh) && r in sh.strong
  {
    && news <= sh.strong[r]
    && forall s :: s in sh.strong[r] && s !in news ==> s in sh.classes && sh.keeps[s] <= marks + sh.keeps[r]
  }

  lemma CoverObject(sh: Shape, keep: set<Ref>, marks: set<LoaderId>, pend: set<Ref>, r: Ref, news: set<Ref>)
    requires Closed(sh) && Marks(sh, keep, marks) && r in Heap(sh)
    requires Covered(sh, keep, marks, pend + {r})
    requires EnoughNews(sh, marks, r, news)
    ensures Covered(sh, keep + {r}, marks + sh.keeps[r], pend + news + LoaderNews(sh, marks, sh.keeps[r]))
  {
    var keep', marks' := keep + {r}, marks + sh.keeps[r];
    var pend' := pend + news + LoaderNews(sh, marks, sh.keeps[r]);
    forall s | Seen(sh, keep, marks, pend + {r}, s)
      ensures Seen(sh, keep', marks', pend', s)
    {
    }
    forall o, s | o in keep' && s in sh.strong[o]
      ensures Seen(sh, keep', marks', pend', s)
    {
      assert o in keep ==> Seen(sh, keep, marks, pend + {r}, s);
    }
    forall l, s | l in marks' && s in sh.holds[l]
      ensures Seen(sh, keep', marks', pend', s)
    {
      assert l in marks ==> Seen(sh, keep, marks, pend + {r}, s);
    }
  }

  lemma CoverClass(sh: Shape, keep: set<Ref>, marks: set<LoaderId>, pend: set<Ref>, r: Ref)
    requires Closed(sh) && Marks(sh, keep, marks) && r in sh.classes
    requires Covered(sh, keep, marks, pend + {r})
    ensures Covered(sh, keep, marks + sh.keeps[r], pend + LoaderNews(sh, marks, sh.keeps[r]))
  {
    var marks' := marks + sh.keeps[r];
    var pend' := pend + LoaderNews(sh, marks, sh.keeps[r]);
    forall s | Seen(sh, keep, marks, pend + {r}, s)
      ensures Seen(sh, keep, marks', pend', s)
    {
    }
    forall l, s | l in marks' && s in sh.holds[l]
      ensures Seen(sh, keep, marks', pend', s)
    {
      assert l in marks ==> Seen(sh, keep, marks, pend + {r}, s);
    }
  }

  /** A pending reference that is already black can be dropped. */
  lemma CoverMarked(sh: Shape, keep: set<Ref>, marks: set<LoaderId>, pend: set<Ref>, r: Ref)
    requires Closed(sh) && Marks(sh, keep, marks) && r in keep
    requires Covered(sh, keep, marks, pend + {r})
    ensures Covered(sh, keep, marks, pend)
  {
    forall s | Seen(sh, keep, marks, pend + {r}, s)
      ensures Seen(sh, keep, marks, pend, s)
    {
    }
  }

  lemma GroundLoader(sh: Shape, roots: set<Ref>, l: LoaderId)
    requires l in sh.holds && Reachable(sh, roots, LoaderNode(l))
    ensures Grounded(sh, roots, sh.holds[l], {l})
  {
    forall s | s in sh.holds[l]
      ensures Reachable(sh, roots, ObjNode(s))
    {
      ReachableStep(sh, roots, LoaderNode(l), ObjNode(s));
    }
  }

  /** What one scan marks and pushes is reachable if the scanned object is. */
  lemma GroundScan(sh: Shape, roots: set<Ref>, marks: set<LoaderId>, r: Ref)
    requires Closed(sh) && r in sh.strong && Reachable(sh, roots, ObjNode(r))
    ensures Grounded(sh, roots, sh.strong[r] + LoaderNews(sh, marks, sh.keeps[r]), sh.keeps[r])
  {
    forall l | l in sh.keeps[r]
      ensures Grounded(sh, roots, sh.holds[l], {l})
    {
      ReachableStep(sh, roots, ObjNode(r), LoaderNode(l));
      GroundLoader(sh, roots, l);
    }
    forall s | s in sh.strong[r]
      ensures Reachable(sh, roots, ObjNode(s))
    {
      ReachableStep(sh, roots, ObjNode(r), ObjNode(s));
    }
  }

  ghost predicate ExactMarks(sh: Shape, roots: set<Ref>, keep0: set<Ref>, marks0: set<LoaderId>, keep: set<Ref>, marks: set<LoaderId>) {
    && (forall r :: r in Heap(sh) ==> (r in keep <==> r in keep0 || Reachable(sh, roots, ObjNode(r))))
    && (forall l :: l in sh.holds ==> (l in marks <==> l in marks0 || Reachable(sh, roots, LoaderNode(l))))
  }

  /** When nothing is pending, the marks added to a closed set of marks are exactly what the roots reach. */
  lemma FinishedMarksExact(sh: Shape, roots: set<Ref>, keep0: set<Ref>, marks0: set<LoaderId>, keep: set<Ref>, marks: set<LoaderId>)
    requires Closed(sh) && Marks(sh, keep, marks)
    requires Covered(sh, keep, marks, {})
    requires keep0 <= keep && marks0 <= marks
    requires forall r :: r in roots ==> Marked(sh, keep, marks, r)
    requires Grounded(sh, roots, keep - keep0, marks - marks0)
    ensures ExactMarks(sh, roots, keep0, marks0, keep, marks)
  {
    var inside := iset n: Node | MarkedNode(sh, keep, marks, n);
    forall a, b | a in inside && Edge(sh, a, b)
      ensures b in inside
    {
      match (a, b)
      case (ObjNode(r), ObjNode(s)) => FinishedEdge(sh, keep, marks, r, s);
      case (ObjNode(r), LoaderNode(l)) =>
      case (LoaderNode(l), ObjNode(s)) => assert Seen(sh, keep, marks, {}, s);
      case (LoaderNode(_), LoaderNode(_)) =>
    }
    forall n | Reachable(sh, roots, n)
      ensures n in inside
    {
      ClosedSetHoldsReachable(sh, roots, inside, n);
    }
  }

  lemma FinishedEdge(sh: Shape, keep: set<Ref>, marks: set<LoaderId>, r: Ref, s: Ref)
    requires Closed(sh) && Marks(sh, keep, marks) && Covered(sh, keep, marks, {})
    requires r in sh.strong && s in sh.strong[r] && Marked(sh, keep, marks, r)
    ensures Marked(sh, keep, marks, s)
  {
    assert r in keep ==> Seen(sh, keep, marks, {}, s);
  }

  // ---------------------------------------------------------------------------
  // One step of a trace

  /** Every strong reference and loader of what is marked is marked too. */
  ghost predicate Settled(sh: Shape, keep: set<Ref>, marks: set<LoaderId>) {
    Closed(sh) && Marks(sh, keep, marks) && Covered(sh, keep, marks, {})
  }

  /** The invariant of a trace that began with `keep0` and `marks0`. */
  ghost predicate Tracing(sh: Shape, roots: set<Ref>, keep0: set<Ref>, marks0: set<LoaderId>,
                          keep: set<Ref>, marks: set<LoaderId>, pend: set<Ref>) {
    && Closed(sh) && Marks(sh, keep, marks)
    && keep0 <= keep && marks0 <= marks && pend <= sh.strong.Keys
    && Covered(sh, keep, marks, pend)
    && (forall r :: r in roots ==> Seen(sh, keep, marks, pend, r))
    && Grounded(sh, roots, (keep - keep0) + pend, marks - marks0)
  }

  lemma StartTracing(sh: Shape, keep: set<Ref>, marks: set<LoaderId>, roots: set<Ref>)
    requires Settled(sh, keep, marks) && roots <= sh.strong.Keys
    ensures Tracing(sh, roots, keep, marks, keep, marks, roots)
  {
    hide Reachable;
    forall r | r in roots
      ensures Reachable(sh, roots, ObjNode(r))
    {
      RootReachable(sh, roots, r);
    }
    forall r | Seen(sh, keep, marks, {}, r)
      ensures Seen(sh, keep, marks, roots, r)
    {
    }
  }

  lemma TraceMarked(sh: Shape, roots: set<Ref>, keep0: set<Ref>, marks0: set<LoaderId>,
                    keep: set<Ref>, marks: set<LoaderId>, pend: set<Ref>, r: Ref)
    requires Tracing(sh, roots, keep0, marks0, keep, marks, pend + {r}) && r in keep
    ensures Tracing(sh, roots, keep0, marks0, keep, marks, pend)
  {
    hide Closed, Reachable;
    CoverMarked(sh, keep, marks, pend, r);
  }

  lemma TraceObject(sh: Shape, roots: set<Ref>, keep0: set<Ref>, marks0: set<LoaderId>,
                    keep: set<Ref>, marks: set<LoaderId>, pend: set<Ref>, r: Ref, news: set<Ref>)
    requires Tracing(sh, roots, keep0, marks0, keep, marks, pend + {r}) && r in Heap(sh)
    requires EnoughNews(sh, marks, r, news)
    ensures Tracing(sh, roots, keep0, marks0, keep + {r}, marks + sh.keeps[r],
                    pend + news + LoaderNews(sh, marks, sh.keeps[r]))
  {
    hide Covered, Reachable;
    CoverObject(sh, keep, marks, pend, r, news);
    GroundScan(sh, roots, marks, r);
  }

  lemma TraceClass(sh: Shape, roots: set<Ref>, keep0: set<Ref>, marks0: set<LoaderId>,
                   keep: set<Ref>, marks: set<LoaderId>, pend: set<Ref>, r: Ref)
    requires Tracing(sh, roots, keep0, marks0, keep, marks, pend + {r}) && r in sh.classes
    ensures Tracing(sh, roots, keep0, marks0, keep, marks + sh.keeps[r], pend + LoaderNews(sh, marks, sh.keeps[r]))
  {
    hide Covered, Reachable;
    CoverClass(sh, keep, marks, pend, r);
    GroundScan(sh, roots, marks, r);
  }

  lemma FinishTracing(sh: Shape, roots: set<Ref>, keep0: set<Ref>, marks0: set<LoaderId>,
                      keep: set<Ref>, marks: set<LoaderId>)
    requires Tracing(sh, roots, keep0, marks0, keep, marks, {})
    ensures Settled(sh, keep, marks)
    ensures ExactMarks(sh, roots, keep0, marks0, keep, marks)
  {
    hide Closed, Reachable, ExactMarks;
    FinishedMarksExact(sh, roots, keep0, marks0, keep, marks);
  }
}
