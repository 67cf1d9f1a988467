/** The instanceof tables, and deciding whether one type can be assigned to another. */
module InstanceOf {
  import opened Options
  import opened Classes
  import opened HashBuckets

  // ---------------------------------------------------------------------------
  // Subtyping

  /** `d` is `c`, or above it in the hierarchy of classes and interfaces. */
  ghost predicate Below(w: World, c: ClassId, d: ClassId)
    requires WellFormed(w)
    decreases c
  {
    c in w && assert ClassOk(w, c);
    (c == d || (w[c].super.Some? && Below(w, w[c].super.value, d))
     || exists k :: 0 <= k < |w[c].interfaces| && Below(w, w[c].interfaces[k], d))
  }

  /** The classes an instance of which arrays are. */
  datatype Roots = Roots(objectClass: ClassId, cloneable: ClassId, serializable: ClassId)

  predicate IsRoot(r: Roots, c: ClassId) {
    c == r.objectClass || c == r.cloneable || c == r.serializable
  }

  datatype Type = Prim(kind: nat) | Ref(c: ClassId) | Arr(elem: Type)

  /** Assignment compatibility as the language defines it, array by array. */
  ghost predicate Assignable(w: World, r: Roots, a: Type, b: Type)
    requires WellFormed(w)
  {
    match (a, b)
    case (Prim(k), Prim(l)) => k == l
    case (Ref(c), Ref(d)) => Below(w, c, d)
    case (Arr(x), Arr(y)) => Assignable(w, r, x, y)
    case (Arr(_), Ref(d)) => d == r.objectClass || d == r.cloneable || d == r.serializable
    case _ => false
  }

  // ---------------------------------------------------------------------------
  // The tables

  function Hashes(w: World, items: seq<ClassId>): seq<int>
    requires forall i :: 0 <= i < |items| ==> items[i] in w
  {
    seq(|items|, i requires 0 <= i < |items| => w[items[i]].hash)
  }

  datatype Table = Table(items: seq<ClassId>, start: seq<int>, cells: seq<Option<ClassId>>)

  ghost predicate Known(w: World, items: seq<ClassId>) {
    forall i :: 0 <= i < |items| ==> items[i] in w
  }

  /** The table of `c` holds, as a set, exactly what is above `c`. */
  ghost predicate TableOk(w: World, c: ClassId, t: Table)
    requires WellFormed(w)
  {
    && Known(w, t.items) && Laid(t.items, Hashes(w, t.items), t.start, t.cells)
    && forall d :: d in t.items <==> Below(w, c, d)
  }

  type Tables = map<ClassId, Table>

  ghost predicate TablesOk(w: World, ts: Tables)
    requires WellFormed(w)
  {
    forall c :: c in ts ==> c in w && TableOk(w, c, ts[c])
  }

  /** The entries of a table, bucket by bucket. */
  ghost function Entries(w: World, t: Table, b: nat): seq<ClassId>
    requires Known(w, t.items) && b <= HASHSIZE
  {
    if b == 0 then [] else Entries(w, t, b - 1) + BucketItems(t.items, Members(Hashes(w, t.items), b - 1, |t.items|))
  }

  ghost function BucketItems(items: seq<ClassId>, members: seq<nat>): seq<ClassId>
    requires forall k :: 0 <= k < |members| ==> members[k] < |items|
  {
    seq(|members|, k requires 0 <= k < |members| => items[members[k]])
  }

  lemma BucketExact(w: World, t: Table, b: nat, d: ClassId)
    requires Known(w, t.items) && b < HASHSIZE
    ensures d in BucketItems(t.items, Members(Hashes(w, t.items), b, |t.items|)) <==>
              exists k :: 0 <= k < |t.items| && t.items[k] == d && Bucket(w[d].hash) == b
  {
    var hashes := Hashes(w, t.items);
    var m := Members(hashes, b, |t.items|);
    var s := BucketItems(t.items, m);
    if d in s {
      var k :| 0 <= k < |s| && s[k] == d;
      assert t.items[m[k]] == d && hashes[m[k]] == w[d].hash;
    }
    if k :| 0 <= k < |t.items| && t.items[k] == d && Bucket(w[d].hash) == b {
      assert hashes[k] == w[d].hash;
      MembersAll(hashes, b, |t.items|, k);
      var j :| 0 <= j < |m| && m[j] == k;
      assert s[j] == d;
    }
  }

  lemma {:induction false} EntriesExact(w: World, t: Table, b: nat, d: ClassId)
    requires Known(w, t.items) && b <= HASHSIZE
    ensures d in Entries(w, t, b) <==> exists k :: 0 <= k < |t.items| && t.items[k] == d && Bucket(w[d].hash) < b
    decreases b
  {
    hide Members, BucketItems, Bucket;
    if b > 0 {
      EntriesExact(w, t, b - 1, d);
      BucketExact(w, t, b - 1, d);
    }
  }

  /** Walking all buckets of a table meets exactly its entries. */
  lemma AllEntries(w: World, t: Table, d: ClassId)
    requires Known(w, t.items)
    ensures d in Entries(w, t, HASHSIZE) <==> d in t.items
  {
    EntriesExact(w, t, HASHSIZE, d);
  }

  /** Read one bucket of a table up to the empty cell. */
  method ReadBucket(w: World, t: Table, b: nat) returns (s: seq<ClassId>)
    requires Known(w, t.items) && Laid(t.items, Hashes(w, t.items), t.start, t.cells) && b < HASHSIZE
    ensures s == BucketItems(t.items, Members(Hashes(w, t.items), b, |t.items|))
  {
    ghost var m := Members(Hashes(w, t.items), b, |t.items|);
    assert Run(t.items, t.cells, t.start[b], m);
    s := [];
    if t.start[b] == -1 { return; }
    assert BucketItems(t.items, m)[..0] == [];
    var p: int := t.start[b];
    RunCell(t.items, t.cells, p, m, p);
    while t.cells[p].Some?
      invariant t.start[b] <= p <= t.start[b] + |m| && p < |t.cells| && (t.cells[p].Some? <==> p - t.start[b] < |m|)
      invariant s == BucketItems(t.items, m)[..p - t.start[b]]
      decreases t.start[b] + |m| - p
    {
      RunCell(t.items, t.cells, t.start[b], m, p);
      s := s + [t.cells[p].value];
      p := p + 1;
      RunCell(t.items, t.cells, t.start[b], m, p);
    }
    assert BucketItems(t.items, m)[..p - t.start[b]] == BucketItems(t.items, m);
  }

  /** Copy the table of an interface behind what has been collected. */
  method Inherit(w: World, t: Table, types: seq<ClassId>) returns (r: seq<ClassId>)
    requires Known(w, t.items) && Laid(t.items, Hashes(w, t.items), t.start, t.cells)
    ensures r == types + Entries(w, t, HASHSIZE)
  {
    hide Laid, Members, BucketItems;
    r := types;
    for b := 0 to HASHSIZE
      invariant r == types + Entries(w, t, b)
    {
      var s := ReadBucket(w, t, b);
      assert types + Entries(w, t, b) + s == types + (Entries(w, t, b) + s);
      r := r + s;
    }
  }

  /** Collected so far: `s` and what is above its first `k` interfaces. */
  ghost predicate Collected(w: World, types: seq<ClassId>, c: ClassId, s: Option<ClassId>)
    requires WellFormed(w)
  {
    forall d :: Below(w, c, d) <==> d in types || (s.Some? && Below(w, s.value, d))
  }

  method CollectInterfaces(w: World, ts: Tables, s: ClassId, types: seq<ClassId>) returns (r: seq<ClassId>)
    requires WellFormed(w) && s in w && TablesOk(w, ts)
    requires forall k :: 0 <= k < |w[s].interfaces| ==> w[s].interfaces[k] in ts
    ensures forall d :: d in r <==> d in types || exists k :: 0 <= k < |w[s].interfaces| && Below(w, w[s].interfaces[k], d)
  {
    r := types;
    for k := 0 to |w[s].interfaces|
      invariant forall d :: d in r <==> d in types || exists j :: 0 <= j < k && Below(w, w[s].interfaces[j], d)
    {
      var i := w[s].interfaces[k];
      ghost var r0 := r;
      assert TableOk(w, i, ts[i]);
      r := Inherit(w, ts[i], r);
      forall d
        ensures d in r <==> d in r0 || Below(w, i, d)
      {
        AllEntries(w, ts[i], d);
      }
    }
  }

  /** Collect everything above a class from its superclasses and their interfaces' tables. */
  method Collect(w: World, ts: Tables, c: ClassId) returns (types: seq<ClassId>)
    requires WellFormed(w) && c in w && TablesOk(w, ts)
    requires forall d, k :: d in w && Extends(w, c, d) && 0 <= k < |w[d].interfaces| ==> w[d].interfaces[k] in ts
    ensures Known(w, types) && forall d :: d in types <==> Below(w, c, d)
  {
    types := [];
    var s := Some(c);
    while s.Some?
      invariant s.Some? ==> s.value in w && Extends(w, c, s.value)
      invariant Collected(w, types, c, s)
      decreases if s.Some? then s.value + 1 else 0
    {
      assert ClassOk(w, s.value);
      ghost var before := types;
      types := CollectInterfaces(w, ts, s.value, types);
      types := types + [s.value];
      CollectedMore(w, before, types, c, s.value);
      UpOne(w, c, s.value);
      s := w[s.value].super;
    }
    forall i | 0 <= i < |types|
      ensures types[i] in w
    {
      BelowKnown(w, c, types[i]);
    }
  }

  lemma CollectedMore(w: World, before: seq<ClassId>, types: seq<ClassId>, c: ClassId, s: ClassId)
    requires WellFormed(w) && s in w && ClassOk(w, s) && Collected(w, before, c, Some(s))
    requires forall d :: d in types <==>
               d in before || d == s || exists k :: 0 <= k < |w[s].interfaces| && Below(w, w[s].interfaces[k], d)
    ensures Collected(w, types, c, w[s].super)
  {
  }

  lemma {:induction false} UpOne(w: World, c: ClassId, s: ClassId)
    requires WellFormed(w) && s in w && Extends(w, c, s)
    ensures ClassOk(w, s) && (w[s].super.Some? ==> Extends(w, c, w[s].super.value))
    decreases c
  {
    assert ClassOk(w, c);
    if c != s { UpOne(w, w[c].super.value, s); }
  }

  lemma {:induction false} BelowKnown(w: World, c: ClassId, d: ClassId)
    requires WellFormed(w) && Below(w, c, d)
    ensures d in w
    decreases c
  {
    assert ClassOk(w, c);
    if c != d {
      if w[c].super.Some? && Below(w, w[c].super.value, d) {
        BelowKnown(w, w[c].super.value, d);
      } else {
        var k :| 0 <= k < |w[c].interfaces| && Below(w, w[c].interfaces[k], d);
        BelowKnown(w, w[c].interfaces[k], d);
      }
    }
  }

  lemma SortedSame(qsort: seq<ClassId> -> seq<ClassId>, s: seq<ClassId>, d: ClassId)
    requires multiset(qsort(s)) == multiset(s)
    ensures d in Squeeze(qsort(s)) <==> d in s
  {
    InSqueeze(qsort(s), d);
    assert d in qsort(s) <==> d in multiset(qsort(s));
    assert d in s <==> d in multiset(s);
  }

  method DeriveTable(w: World, ts: Tables, c: ClassId, qsort: seq<ClassId> -> seq<ClassId>) returns (t: Table)
    requires WellFormed(w) && c in w && TablesOk(w, ts) && forall s: seq<ClassId> :: multiset(qsort(s)) == multiset(s)
    requires forall d, k :: d in w && Extends(w, c, d) && 0 <= k < |w[d].interfaces| ==> w[d].interfaces[k] in ts
    ensures TableOk(w, c, t)
  {
    hide TablesOk, Squeeze, Extends, Below, Laid, Linked, Nonempty, Singletons, Members;
    var types := Collect(w, ts, c);
    var sorted := qsort(types);
    var a := new ClassId[|sorted|](i requires 0 <= i < |sorted| => sorted[i]);
    assert a[..|sorted|] == sorted;
    var n := Dedupe(a, |sorted|);
    var items := a[..n];
    forall d
      ensures d in items <==> d in types
    {
      SortedSame(qsort, types, d);
    }
    forall i | 0 <= i < |items|
      ensures items[i] in w
    {
      assert items[i] in types;
    }
    var hashes := Hashes(w, items);
    var heads := new int[HASHSIZE];
    var follows := new int[n];
    var nonempty, singletons := LinkBuckets(hashes, heads, follows);
    var start := new int[HASHSIZE](_ => -1);
    var cells := new Option<ClassId>[n + nonempty](_ => None);
    FillTable(items, hashes, heads[..], follows[..], start, cells);
    t := Table(items, start[..], cells[..]);
  }

  // ---------------------------------------------------------------------------
  // Deciding assignability

  function Dims(t: Type): nat {
    match t case Arr(e) => Dims(e) + 1 case _ => 0
  }

  function Base(t: Type): (b: Type)
    ensures !b.Arr?
  {
    match t case Arr(e) => Base(e) case _ => t
  }

  /** Scan the bucket of the class looked for. */
  method InTable(w: World, t: Table, d: ClassId) returns (found: bool)
    requires Known(w, t.items) && Laid(t.items, Hashes(w, t.items), t.start, t.cells) && d in w
    ensures found == (d in t.items)
  {
    var hashes := Hashes(w, t.items);
    var b := Bucket(w[d].hash);
    ghost var m := Members(hashes, b, |t.items|);
    assert Run(t.items, t.cells, t.start[b], m);
    assert d in t.items ==> exists j :: 0 <= j < |m| && t.items[m[j]] == d by {
      if d in t.items {
        var k :| 0 <= k < |t.items| && t.items[k] == d;
        assert hashes[k] == w[d].hash;
        MembersAll(hashes, b, |t.items|, k);
        var j :| 0 <= j < |m| && m[j] == k;
      }
    }
    if t.start[b] == -1 { return false; }
    var p: int := t.start[b];
    RunCell(t.items, t.cells, p, m, p);
    while t.cells[p].Some?
      invariant t.start[b] <= p <= t.start[b] + |m| && p < |t.cells| && (t.cells[p].Some? <==> p - t.start[b] < |m|)
      invariant forall j :: 0 <= j < p - t.start[b] ==> t.items[m[j]] != d
      decreases t.start[b] + |m| - p
    {
      RunCell(t.items, t.cells, t.start[b], m, p);
      if t.cells[p].value == d { return true; }
      p := p + 1;
      RunCell(t.items, t.cells, t.start[b], m, p);
    }
    found := false;
  }

  /** What the code decides about base types. */
  ghost predicate BaseAssignable(w: World, a: Type, b: Type)
    requires WellFormed(w) && !a.Arr? && !b.Arr?
  {
    match (a, b)
    case (Prim(k), Prim(l)) => k == l
    case (Ref(c), Ref(d)) => Below(w, c, d)
    case _ => false
  }

  /** What the code decides. */
  ghost predicate Decided(w: World, r: Roots, from: Type, to: Type)
    requires WellFormed(w)
  {
    if from == to then true
    else if from.Arr? && to.Arr? && Dims(from) > Dims(to) then Base(to).Ref? && IsRoot(r, Base(to).c)
    else if from.Arr? && !to.Arr? then to.Ref? && IsRoot(r, to.c)
    else if !from.Arr? && to.Arr? then false
    else BaseAssignable(w, Base(from), Base(to))
  }

  method AssignableFrom(w: World, ts: Tables, r: Roots, from: Type, to: Type) returns (ok: bool)
    requires WellFormed(w) && TablesOk(w, ts)
    requires Base(from).Ref? ==> Base(from).c in ts
    requires Base(to).Ref? ==> Base(to).c in w
    ensures ok == Decided(w, r, from, to)
  {
    if from == to { return true; }
    var a, b := from, to;
    if from.Arr? {
      if to.Arr? && Dims(from) > Dims(to) {
        return Base(to).Ref? && IsRoot(r, Base(to).c);
      }
      if !to.Arr? { return to.Ref? && IsRoot(r, to.c); }
      a, b := Base(from), Base(to);
    }
    if b.Arr? { return false; }
    if a.Prim? || b.Prim? { return a == b; }
    assert TableOk(w, a.c, ts[a.c]);
    ok := InTable(w, ts[a.c], b.c);
  }

  lemma BelowSelf(w: World, c: ClassId)
    requires WellFormed(w) && c in w
    ensures Below(w, c, c)
  {
  }

  lemma {:induction false} AssignableSelf(w: World, r: Roots, t: Type)
    requires WellFormed(w) && (Base(t).Ref? ==> Base(t).c in w)
    ensures Assignable(w, r, t, t)
  {
    match t
    case Arr(e) => AssignableSelf(w, r, e);
    case Ref(c) => BelowSelf(w, c);
    case Prim(_) =>
  }

  lemma {:induction false} PeeledArrays(w: World, r: Roots, from: Type, to: Type)
    requires WellFormed(w)
    ensures Dims(from) == Dims(to) ==> (Assignable(w, r, from, to) <==> BaseAssignable(w, Base(from), Base(to)))
    ensures Dims(from) > Dims(to) ==> (Assignable(w, r, from, to) <==> Base(to).Ref? && IsRoot(r, Base(to).c))
    ensures Dims(from) < Dims(to) ==> !Assignable(w, r, from, to)
  {
    if from.Arr? && to.Arr? { PeeledArrays(w, r, from.elem, to.elem); }
  }

  /** The code decides assignment compatibility except between two array types of which
      the first has fewer dimensions, where it looks only at the element types. */
  lemma DecidedExact(w: World, r: Roots, from: Type, to: Type)
    requires WellFormed(w) && (Base(from).Ref? ==> Base(from).c in w)
    ensures (Decided(w, r, from, to) == Assignable(w, r, from, to)) <==>
              !(from.Arr? && to.Arr? && Dims(from) < Dims(to) && BaseAssignable(w, Base(from), Base(to)))
  {
    PeeledArrays(w, r, from, to);
    if from == to { AssignableSelf(w, r, from); }
  }

  /** An int[] passes for an int[][]. */
  lemma FewerDimensions(w: World, r: Roots)
    requires WellFormed(w)
    ensures Decided(w, r, Arr(Prim(1)), Arr(Arr(Prim(1)))) && !Assignable(w, r, Arr(Prim(1)), Arr(Arr(Prim(1))))
  {
  }

  /** Whether an instance of `from` is one of class `to`, going up superclasses only. */
  method SubclassOf(w: World, from: ClassId, to: ClassId) returns (ok: bool)
    requires WellFormed(w) && from in w
    ensures ok == Extends(w, from, to)
  {
    var s := Some(from);
    while s.Some?
      invariant s.Some? ==> s.value in w && (Extends(w, from, to) <==> Extends(w, s.value, to))
      invariant s.None? ==> !Extends(w, from, to)
      decreases if s.Some? then s.value + 1 else 0
    {
      assert ClassOk(w, s.value);
      if s.value == to { return true; }
      s := w[s.value].super;
    }
    ok := false;
  }
}
