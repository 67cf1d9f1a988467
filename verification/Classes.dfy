/** Loaded classes and interfaces, and searches up the superclass chain. */
module Classes {
  import opened Options

  type ClassId = nat

  /** `key` stands for the name and signature together, ordered as they are sorted. */
  datatype Method = Method(owner: ClassId, key: nat, isStatic: bool, isInit: bool, isPublic: bool, hash: int, func: nat)

  datatype Class = Class(super: Option<ClassId>, interfaces: seq<ClassId>, isFinal: bool, methods: seq<Method>, hash: int)

  type World = map<ClassId, Class>

  predicate Virtual(m: Method) {
    !m.isStatic && !m.isInit
  }

  ghost predicate SortedMethods(methods: seq<Method>) {
    forall i, j :: 0 <= i < j < |methods| ==> methods[i].key < methods[j].key
  }

  ghost predicate ClassOk(w: World, c: ClassId)
    requires c in w
  {
    && (w[c].super.Some? ==> w[c].super.value in w && w[c].super.value < c)
    && (forall i :: 0 <= i < |w[c].interfaces| ==> w[c].interfaces[i] in w && w[c].interfaces[i] < c)
    && (forall i :: 0 <= i < |w[c].methods| ==> w[c].methods[i].owner == c)
    && SortedMethods(w[c].methods)
  }

  /** A constructor is told by its name, and the hash is that of name and signature. */
  ghost predicate KeysAgree(w: World) {
    forall c, d, i, j :: c in w && d in w && 0 <= i < |w[c].methods| && 0 <= j < |w[d].methods| ==>
      w[c].methods[i].key == w[d].methods[j].key ==>
        w[c].methods[i].isInit == w[d].methods[j].isInit && w[c].methods[i].hash == w[d].methods[j].hash
  }

  /** Superclasses and interfaces are loaded first, and no class declares a method twice. */
  ghost predicate WellFormed(w: World) {
    KeysAgree(w) && forall c :: c in w ==> ClassOk(w, c)
  }

  /** `d` is `c` or a superclass of it. */
  ghost predicate Extends(w: World, c: ClassId, d: ClassId)
    requires WellFormed(w)
    decreases c
  {
    c in w && (c == d || (w[c].super.Some? && Extends(w, w[c].super.value, d)))
  }

  // ---------------------------------------------------------------------------
  // Looking up a method among those a class declares

  /** The library's binary search over the methods between `lo` and `hi`. */
  function Search(methods: seq<Method>, key: nat, lo: nat, hi: nat): Option<Method>
    requires lo <= hi <= |methods|
    decreases hi - lo
  {
    if lo == hi then None
    else
      var mid := (lo + hi) / 2;
      if methods[mid].key == key then Some(methods[mid])
      else if key < methods[mid].key then Search(methods, key, lo, mid)
      else Search(methods, key, mid + 1, hi)
  }

  lemma {:induction false} SearchExact(methods: seq<Method>, key: nat, lo: nat, hi: nat)
    requires SortedMethods(methods) && lo <= hi <= |methods|
    ensures match Search(methods, key, lo, hi)
            case Some(m) => m.key == key && exists i :: lo <= i < hi && methods[i] == m
            case None => forall i :: lo <= i < hi ==> methods[i].key != key
    decreases hi - lo
  {
    if lo < hi {
      var mid := (lo + hi) / 2;
      if key < methods[mid].key {
        SearchExact(methods, key, lo, mid);
      } else if methods[mid].key < key {
        SearchExact(methods, key, mid + 1, hi);
      }
    }
  }

  /** The instance method of this name and signature that the class declares, if any. */
  function MethodLookup(c: Class, key: nat): Option<Method> {
    match Search(c.methods, key, 0, |c.methods|)
    case None => None
    case Some(m) => if m.isStatic then None else Some(m)
  }

  lemma LookupExact(w: World, c: ClassId, key: nat)
    requires WellFormed(w) && c in w
    ensures match MethodLookup(w[c], key)
            case Some(m) => m in w[c].methods && m.key == key && !m.isStatic && m.owner == c
            case None => forall m :: m in w[c].methods && m.key == key ==> m.isStatic
    ensures forall m :: m in w[c].methods && m.key == key && !m.isStatic ==> MethodLookup(w[c], key) == Some(m)
  {
    assert ClassOk(w, c);
    SearchExact(w[c].methods, key, 0, |w[c].methods|);
    forall m | m in w[c].methods && m.key == key && !m.isStatic
      ensures MethodLookup(w[c], key) == Some(m)
    {
      var i :| 0 <= i < |w[c].methods| && w[c].methods[i] == m;
    }
  }

  /** The declaration of a name and signature nearest to `c` in its superclass chain. */
  ghost function Nearest(w: World, c: ClassId, key: nat): Option<Method>
    requires WellFormed(w)
    decreases c
  {
    if c !in w then None
    else
      assert ClassOk(w, c);
      if MethodLookup(w[c], key).Some? then MethodLookup(w[c], key)
      else if w[c].super.Some? then Nearest(w, w[c].super.value, key)
      else None
  }

  /** The nearest public one: the implementation of an interface method. */
  ghost function NearestPublic(w: World, c: ClassId, key: nat): Option<Method>
    requires WellFormed(w)
    decreases c
  {
    if c !in w then None
    else
      assert ClassOk(w, c);
      if MethodLookup(w[c], key).Some? && MethodLookup(w[c], key).value.isPublic then MethodLookup(w[c], key)
      else if w[c].super.Some? then NearestPublic(w, w[c].super.value, key)
      else None
  }

  // ---------------------------------------------------------------------------
  // What the nearest declaration is

  /** Class `d` declares `m`, an instance method, with this name and signature. */
  ghost predicate Declares(w: World, d: ClassId, key: nat, m: Method) {
    d in w && m in w[d].methods && m.key == key && !m.isStatic
  }

  /** `d` is on the way up from `c`, and declares `m`; nothing in front of it, from `c` on, declares a method as wanted. */
  ghost predicate First(w: World, c: ClassId, d: ClassId, key: nat, m: Method, public: bool)
    requires WellFormed(w)
  {
    && Extends(w, c, d) && Declares(w, d, key, m) && (public ==> m.isPublic)
    && forall e, n :: Extends(w, c, e) && Extends(w, e, d) && e != d && Declares(w, e, key, n) ==> public && !n.isPublic
  }

  ghost predicate Nowhere(w: World, c: ClassId, key: nat, public: bool)
    requires WellFormed(w)
  {
    forall d, n :: Extends(w, c, d) && Declares(w, d, key, n) ==> public && !n.isPublic
  }

  lemma {:induction false} ExtendsDown(w: World, c: ClassId, d: ClassId)
    requires WellFormed(w) && Extends(w, c, d)
    ensures d in w && d <= c
    decreases c
  {
    assert ClassOk(w, c);
    if c != d { ExtendsDown(w, w[c].super.value, d); }
  }

  /** What is first from the superclass on is first, unless the class itself declares one. */
  lemma FirstAbove(w: World, c: ClassId, d: ClassId, key: nat, m: Method, public: bool)
    requires WellFormed(w) && c in w && w[c].super.Some? && First(w, w[c].super.value, d, key, m, public)
    requires forall n :: Declares(w, c, key, n) ==> public && !n.isPublic
    ensures First(w, c, d, key, m, public)
  {
    hide WellFormed, Declares, KeysAgree;
    forall e, n | Extends(w, c, e) && Extends(w, e, d) && e != d && Declares(w, e, key, n)
      ensures public && !n.isPublic
    {
      if e != c { assert Extends(w, w[c].super.value, e); }
    }
  }

  lemma NowhereAbove(w: World, c: ClassId, key: nat, public: bool)
    requires WellFormed(w) && c in w && (w[c].super.Some? ==> Nowhere(w, w[c].super.value, key, public))
    requires forall n :: Declares(w, c, key, n) ==> public && !n.isPublic
    ensures Nowhere(w, c, key, public)
  {
    hide WellFormed, Declares;
    forall d, n | Extends(w, c, d) && Declares(w, d, key, n)
      ensures public && !n.isPublic
    {
      if d != c { assert Extends(w, w[c].super.value, d); }
    }
  }

  lemma FirstHere(w: World, c: ClassId, key: nat, m: Method, public: bool)
    requires WellFormed(w) && Declares(w, c, key, m) && (public ==> m.isPublic)
    ensures First(w, c, c, key, m, public)
  {
    forall e | Extends(w, c, e) && Extends(w, e, c)
      ensures e == c
    {
      ExtendsDown(w, c, e);
      ExtendsDown(w, e, c);
    }
    hide WellFormed, Declares;
  }

  /** A virtual method runs in the first class on the way up that declares it. */
  lemma {:induction false} NearestExact(w: World, c: ClassId, key: nat)
    requires WellFormed(w) && c in w
    ensures match Nearest(w, c, key)
            case Some(m) => First(w, c, m.owner, key, m, false)
            case None => Nowhere(w, c, key, false)
    decreases c
  {
    assert ClassOk(w, c);
    LookupExact(w, c, key);
    hide WellFormed, First, Nowhere, MethodLookup;
    var own := MethodLookup(w[c], key);
    if own.Some? {
      FirstHere(w, c, key, own.value, false);
    } else if w[c].super.Some? {
      var p := w[c].super.value;
      NearestExact(w, p, key);
      match Nearest(w, p, key)
      case Some(m) => FirstAbove(w, c, m.owner, key, m, false);
      case None => NowhereAbove(w, c, key, false);
    } else {
      NowhereAbove(w, c, key, false);
    }
  }

  /** An interface method runs in the first class on the way up that declares it public. */
  lemma {:induction false} NearestPublicExact(w: World, c: ClassId, key: nat)
    requires WellFormed(w) && c in w
    ensures match NearestPublic(w, c, key)
            case Some(m) => First(w, c, m.owner, key, m, true)
            case None => Nowhere(w, c, key, true)
    decreases c
  {
    assert ClassOk(w, c);
    LookupExact(w, c, key);
    hide WellFormed, First, Nowhere, MethodLookup;
    var own := MethodLookup(w[c], key);
    if own.Some? && own.value.isPublic {
      FirstHere(w, c, key, own.value, true);
    } else if w[c].super.Some? {
      var p := w[c].super.value;
      NearestPublicExact(w, p, key);
      match NearestPublic(w, p, key)
      case Some(m) => FirstAbove(w, c, m.owner, key, m, true);
      case None => NowhereAbove(w, c, key, true);
    } else {
      NowhereAbove(w, c, key, true);
    }
  }
}
