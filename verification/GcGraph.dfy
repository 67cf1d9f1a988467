/**
 The object graph a garbage collection sees while the world is stopped, and
 its shape: which references count as strong for each object and loader.

 A class loader's memory holds its java.lang.Class instances, so those objects
 are not in the heap and are never marked; their loader is marked instead.
 */
module GcGraph {
  import opened Options
  import opened GcShape

  const BOOT: LoaderId := 0

  datatype Ptr = Null | To(ref: Ref)

  datatype Strength = Soft | Weak | Phantom

  /** What the SPECIAL bit and the object's type tell the collector. */
  datatype Kind =
    | Plain                                        // SPECIAL bit clear
    | ClassObject(defines: LoaderId)               // loader of the class it stands for
    | Reference(strength: Strength)
    | Throwable(stack: seq<Ref>)                   // Class instances of the saved stack frames
    | ClassLoaderObject(vmdata: Option<LoaderId>)

  /** `fields` are the reference words below the header, lowest address first. */
  datatype Obj = Obj(kind: Kind, fields: seq<Ptr>, loader: LoaderId, finalizable: bool)

  datatype FieldInfo = FieldInfo(isStatic: bool, isRef: bool)

  /** A loaded type: the reference words of its Class instance and its static fields. */
  datatype TypeInfo = TypeInfo(classFields: seq<Ptr>, isArray: bool, fields: seq<FieldInfo>, statics: seq<Ptr>)

  datatype Loader = Loader(types: seq<TypeInfo>, implicitRefs: seq<Ptr>)

  /** `referentSlot` counts words down from the header; `vmdataSlot` indexes `classFields`. */
  datatype Graph = Graph(objs: map<Ref, Obj>, loaders: map<LoaderId, Loader>, referentSlot: nat, vmdataSlot: nat)

  ghost predicate InHeap(g: Graph, r: Ref) {
    r in g.objs && !g.objs[r].kind.ClassObject?
  }

  ghost function HeapRefs(g: Graph): set<Ref> {
    set r | r in g.objs && InHeap(g, r)
  }

  ghost function PtrRefs(s: seq<Ptr>): set<Ref> {
    set p | p in s && p.To? :: p.ref
  }

  /** The position of the referent word in a Reference object's `fields`. */
  function ReferentIndex(g: Graph, o: Obj): int {
    |o.fields| - g.referentSlot
  }

  predicate ReferenceOk(g: Graph, o: Obj) {
    o.kind.Reference? ==> 1 <= g.referentSlot <= |o.fields|
  }

  /** A static reference field comes before every other field of its type. */
  ghost predicate StaticRefsFirst(fields: seq<FieldInfo>) {
    forall i, j :: 0 <= i < j < |fields| && fields[j].isStatic && fields[j].isRef ==> fields[i].isStatic && fields[i].isRef
  }

  ghost predicate TypeOk(g: Graph, t: TypeInfo) {
    && g.vmdataSlot < |t.classFields|
    && StaticRefsFirst(t.fields)
    && (forall j :: 0 <= j < |t.fields| && t.fields[j].isStatic && t.fields[j].isRef ==> j < |t.statics|)
  }

  ghost function TypeRefs(g: Graph, t: TypeInfo): set<Ref>
    requires TypeOk(g, t)
  {
    (set i | 0 <= i < |t.classFields| && i != g.vmdataSlot && t.classFields[i].To? :: t.classFields[i].ref) +
    (if t.isArray then {} else
       set j | 0 <= j < |t.fields| && t.fields[j].isStatic && t.fields[j].isRef && t.statics[j].To? :: t.statics[j].ref)
  }

  ghost predicate LoaderOk(g: Graph, l: Loader) {
    forall t :: t in l.types ==> TypeOk(g, t)
  }

  ghost function ExplicitRefs(g: Graph, types: seq<TypeInfo>): set<Ref>
    requires forall t :: t in types ==> TypeOk(g, t)
  {
    set t, r | t in types && r in TypeRefs(g, t) :: r
  }

  ghost function LoaderRefs(g: Graph, l: LoaderId): set<Ref>
    requires l in g.loaders && LoaderOk(g, g.loaders[l])
  {
    ExplicitRefs(g, g.loaders[l].types) + PtrRefs(g.loaders[l].implicitRefs)
  }

  /** A Reference's referent is followed only if it is soft and soft references are followed. */
  predicate SkipsReferent(soft: bool, o: Obj) {
    o.kind.Reference? && !(soft && o.kind.strength.Soft?)
  }

  /** The references in the words of an object that are followed. */
  ghost function FieldRefs(g: Graph, soft: bool, o: Obj): set<Ref>
    requires ReferenceOk(g, o)
  {
    if SkipsReferent(soft, o) then
      PtrRefs(o.fields[..ReferentIndex(g, o)]) + PtrRefs(o.fields[ReferentIndex(g, o) + 1..])
    else PtrRefs(o.fields)
  }

  ghost function StrongRefs(g: Graph, soft: bool, o: Obj): set<Ref>
    requires ReferenceOk(g, o)
  {
    if o.kind.ClassObject? then {}
    else if o.kind.Throwable? then FieldRefs(g, soft, o) + (set r | r in o.kind.stack)
    else FieldRefs(g, soft, o)
  }

  ghost function LoadersOf(o: Obj): set<LoaderId> {
    if o.kind.ClassObject? then {o.kind.defines}
    else if o.kind.ClassLoaderObject? && o.kind.vmdata.Some? then {o.loader, o.kind.vmdata.value}
    else {o.loader}
  }

  /** The reference words of a Class instance are listed with its type, in its loader. */
  ghost predicate ObjOk(g: Graph, o: Obj) {
    if o.kind.ClassObject? then o.kind.defines in g.loaders && !o.finalizable && o.fields == []
    else
      && ReferenceOk(g, o)
      && o.loader in g.loaders
      && PtrRefs(o.fields) <= g.objs.Keys
      && (o.kind.Throwable? ==> o.loader == BOOT && forall r :: r in o.kind.stack ==> r in g.objs && g.objs[r].kind.ClassObject?)
      && (o.kind.ClassLoaderObject? && o.kind.vmdata.Some? ==> o.kind.vmdata.value in g.loaders && o.kind.vmdata.value != o.loader)
  }

  ghost predicate WellFormed(g: Graph) {
    && (forall r :: r in g.objs ==> ObjOk(g, g.objs[r]))
    && (forall l :: l in g.loaders ==> LoaderOk(g, g.loaders[l]) && LoaderRefs(g, l) <= g.objs.Keys)
  }

  /** The shape of the graph, with or without soft referents followed. */
  ghost function ShapeOf(g: Graph, soft: bool): Shape
    requires WellFormed(g)
  {
    Shape(
      map r | r in g.objs :: StrongRefs(g, soft, g.objs[r]),
      map r | r in g.objs :: LoadersOf(g.objs[r]),
      set r | r in g.objs && g.objs[r].kind.ClassObject?,
      map l | l in g.loaders :: LoaderRefs(g, l))
  }

  lemma StrongRefsInside(g: Graph, soft: bool, r: Ref)
    requires r in g.objs && ObjOk(g, g.objs[r])
    ensures StrongRefs(g, soft, g.objs[r]) <= g.objs.Keys
    ensures LoadersOf(g.objs[r]) <= g.loaders.Keys
  {
  }

  lemma ShapeClosed(g: Graph, soft: bool)
    requires WellFormed(g)
    ensures Closed(ShapeOf(g, soft))
    ensures Heap(ShapeOf(g, soft)) == HeapRefs(g)
  {
    forall r | r in g.objs
      ensures StrongRefs(g, soft, g.objs[r]) <= g.objs.Keys && LoadersOf(g.objs[r]) <= g.loaders.Keys
    {
      StrongRefsInside(g, soft, r);
    }
  }
}
