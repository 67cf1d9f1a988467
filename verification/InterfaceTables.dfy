/** The hash table through which interface methods are called, and its quick form. */
module InterfaceTables {
  import opened Options
  import opened Classes
  import opened HashBuckets

  // ---------------------------------------------------------------------------
  // The interface methods a class is supposed to implement

  /** `i` is an interface of `c`, declared or inherited. */
  ghost predicate IfaceOf(w: World, c: ClassId, i: ClassId)
    requires WellFormed(w)
    decreases c
  {
    c in w && assert ClassOk(w, c);
    ((exists k :: 0 <= k < |w[c].interfaces| && (w[c].interfaces[k] == i || IfaceOf(w, w[c].interfaces[k], i)))
     || (w[c].super.Some? && IfaceOf(w, w[c].super.value, i)))
  }

  function Instance(methods: seq<Method>): seq<Method> {
    if methods == [] then []
    else if methods[0].isStatic then Instance(methods[1..])
    else [methods[0]] + Instance(methods[1..])
  }

  /** In the order they are collected, repetitions included. */
  function IfaceMethods(w: World, c: ClassId): seq<Method>
    requires WellFormed(w) && c in w
    decreases c, |w[c].interfaces| + 1
  {
    assert ClassOk(w, c);
    FromInterfaces(w, c, 0) + if w[c].super.Some? then IfaceMethods(w, w[c].super.value) else []
  }

  function FromInterfaces(w: World, c: ClassId, k: nat): seq<Method>
    requires WellFormed(w) && c in w && k <= |w[c].interfaces| && ClassOk(w, c)
    decreases c, |w[c].interfaces| - k
  {
    if k == |w[c].interfaces| then []
    else
      var i := w[c].interfaces[k];
      Instance(w[i].methods) + IfaceMethods(w, i) + FromInterfaces(w, c, k + 1)
  }

  lemma {:induction false} InstanceExact(methods: seq<Method>, m: Method)
    ensures m in Instance(methods) <==> m in methods && !m.isStatic
  {
    if methods != [] { InstanceExact(methods[1..], m); }
  }

  /** A method belongs to the interface at `i`, or one above it. */
  ghost predicate Offers(w: World, i: ClassId, m: Method)
    requires WellFormed(w) && i in w
  {
    !m.isStatic && ((m.owner == i && m in w[i].methods) || (IfaceOf(w, i, m.owner) && m.owner in w && m in w[m.owner].methods))
  }

  ghost predicate Required(w: World, c: ClassId, m: Method)
    requires WellFormed(w) && c in w
  {
    !m.isStatic && IfaceOf(w, c, m.owner) && m.owner in w && m in w[m.owner].methods
  }

  lemma {:induction false} FromInterfacesExact(w: World, c: ClassId, k: nat, m: Method)
    requires WellFormed(w) && c in w && k <= |w[c].interfaces| && ClassOk(w, c)
    ensures m in FromInterfaces(w, c, k) <==> exists j :: k <= j < |w[c].interfaces| && Offers(w, w[c].interfaces[j], m)
    decreases c, |w[c].interfaces| - k
  {
    if k < |w[c].interfaces| {
      var i := w[c].interfaces[k];
      assert ClassOk(w, i);
      InstanceExact(w[i].methods, m);
      IfaceMethodsExact(w, i, m);
      FromInterfacesExact(w, c, k + 1, m);
      assert m in Instance(w[i].methods) || m in IfaceMethods(w, i) <==> Offers(w, i, m);
      FromInterfacesParts(w, c, k, m);
      hide FromInterfaces, IfaceMethods, Instance, Offers, Required, ClassOk;
    }
  }

  lemma FromInterfacesParts(w: World, c: ClassId, k: nat, m: Method)
    requires WellFormed(w) && c in w && k < |w[c].interfaces| && ClassOk(w, c)
    ensures var i := w[c].interfaces[k];
            m in FromInterfaces(w, c, k) <==> m in Instance(w[i].methods) || m in IfaceMethods(w, i) || m in FromInterfaces(w, c, k + 1)
  {
  }

  /** What is collected is exactly the instance methods of all interfaces, however inherited. */
  lemma {:induction false} IfaceMethodsExact(w: World, c: ClassId, m: Method)
    requires WellFormed(w) && c in w
    ensures m in IfaceMethods(w, c) <==> Required(w, c, m)
    decreases c, |w[c].interfaces| + 1
  {
    assert ClassOk(w, c);
    FromInterfacesExact(w, c, 0, m);
    if w[c].super.Some? { IfaceMethodsExact(w, w[c].super.value, m); }
    forall j | 0 <= j < |w[c].interfaces|
      ensures Offers(w, w[c].interfaces[j], m) <==>
                !m.isStatic && (w[c].interfaces[j] == m.owner || IfaceOf(w, w[c].interfaces[j], m.owner)) && m.owner in w && m in w[m.owner].methods
    {
      assert ClassOk(w, w[c].interfaces[j]);
    }
  }

  lemma FromInterfacesOnce(w: World, c: ClassId, k: nat, before: seq<Method>)
    requires WellFormed(w) && c in w && ClassOk(w, c) && k < |w[c].interfaces|
    ensures var i := w[c].interfaces[k];
            before + FromInterfaces(w, c, k) == before + Instance(w[i].methods) + IfaceMethods(w, i) + FromInterfaces(w, c, k + 1)
  {
  }

  lemma IfaceMethodsParts(w: World, c: ClassId, before: seq<Method>)
    requires WellFormed(w) && c in w && ClassOk(w, c)
    ensures FromInterfaces(w, c, |w[c].interfaces|) == []
    ensures before + IfaceMethods(w, c) ==
              if w[c].super.Some? then before + FromInterfaces(w, c, 0) + IfaceMethods(w, w[c].super.value)
              else before + FromInterfaces(w, c, 0)
    ensures |FromInterfaces(w, c, 0)| <= |IfaceMethods(w, c)|
  {
  }

  /** Write the methods from position `at` on. */
  method AddIfaceMethods(w: World, c: ClassId, out: array<Method>, at: nat) returns (end: nat)
    requires WellFormed(w) && c in w && at + |IfaceMethods(w, c)| <= out.Length
    modifies out
    ensures end == at + |IfaceMethods(w, c)|
    ensures out[..end] == old(out[..at]) + IfaceMethods(w, c)
    decreases c
  {
    hide IfaceMethods, FromInterfaces, Instance;
    end := at;
    assert ClassOk(w, c);
    ghost var before := out[..at];
    IfaceMethodsParts(w, c, before);
    for k := 0 to |w[c].interfaces|
      invariant at <= end && out.Length >= end + |FromInterfaces(w, c, k)|
      invariant out[..end] + FromInterfaces(w, c, k) == before + FromInterfaces(w, c, 0)
    {
      var i := w[c].interfaces[k];
      FromInterfacesOnce(w, c, k, out[..end]);
      end := CopyInstance(w[i].methods, out, end);
      end := AddIfaceMethods(w, i, out, end);
    }
    assert out[..end] == before + FromInterfaces(w, c, 0);
    if w[c].super.Some? {
      end := AddIfaceMethods(w, w[c].super.value, out, end);
    }
  }

  method CopyInstance(methods: seq<Method>, out: array<Method>, at: nat) returns (end: nat)
    requires at + |Instance(methods)| <= out.Length
    modifies out
    ensures end == at + |Instance(methods)| && out[..end] == old(out[..at]) + Instance(methods)
  {
    end := at;
    ghost var before := out[..at];
    assert methods[0..] == methods;
    for j := 0 to |methods|
      invariant at <= end && end + |Instance(methods[j..])| == at + |Instance(methods)|
      invariant out[..end] + Instance(methods[j..]) == before + Instance(methods)
    {
      assert methods[j..][0] == methods[j] && methods[j..][1..] == methods[j + 1..];
      if !methods[j].isStatic {
        ghost var s0 := out[..end];
        out[end] := methods[j];
        end := end + 1;
        assert out[..end] == s0 + [methods[j]];
        assert s0 + ([methods[j]] + Instance(methods[j + 1..])) == s0 + [methods[j]] + Instance(methods[j + 1..]);
      }
    }
    assert out[..end] + [] == out[..end];
  }

  // ---------------------------------------------------------------------------
  // Their implementations

  method FindPublic(w: World, c: ClassId, key: nat) returns (r: Option<Method>)
    requires WellFormed(w) && c in w
    ensures r == NearestPublic(w, c, key)
  {
    var s := Some(c);
    while s.Some?
      invariant s.Some? ==> s.value in w && NearestPublic(w, c, key) == NearestPublic(w, s.value, key)
      invariant s.None? ==> NearestPublic(w, c, key).None?
      decreases if s.Some? then s.value + 1 else 0
    {
      assert ClassOk(w, s.value);
      var m := MethodLookup(w[s.value], key);
      if m.Some? && m.value.isPublic { return m; }
      s := w[s.value].super;
    }
    r := None;
  }

  lemma {:induction false} PublicSame(w: World, c: ClassId, d: ClassId, m: Method)
    requires WellFormed(w) && c in w && d in w && m in w[d].methods && NearestPublic(w, c, m.key).Some?
    ensures var n := NearestPublic(w, c, m.key).value; n.key == m.key && n.hash == m.hash && n.isPublic && !n.isStatic
    decreases c
  {
    assert ClassOk(w, c);
    LookupExact(w, c, m.key);
    if MethodLookup(w[c], m.key).Some? && MethodLookup(w[c], m.key).value.isPublic {
      var n := MethodLookup(w[c], m.key).value;
      var i :| 0 <= i < |w[c].methods| && w[c].methods[i] == n;
      var j :| 0 <= j < |w[d].methods| && w[d].methods[j] == m;
    } else {
      PublicSame(w, w[c].super.value, d, m);
    }
  }

  /** The methods of a class's table: the implementations of everything its interfaces require. */
  ghost predicate Implementing(w: World, c: ClassId, items: seq<Method>)
    requires WellFormed(w) && c in w
  {
    && (forall m :: Required(w, c, m) ==> NearestPublic(w, c, m.key).Some? && NearestPublic(w, c, m.key).value in items)
    && (forall k :: 0 <= k < |items| ==> exists m :: Required(w, c, m) && NearestPublic(w, c, m.key) == Some(items[k]))
  }

  // ---------------------------------------------------------------------------
  // The tables

  function Hashes(items: seq<Method>): seq<int> {
    seq(|items|, i requires 0 <= i < |items| => items[i].hash)
  }

  /** `quick` holds the function of the only entry of a bucket. */
  datatype Tables = Tables(table: seq<int>, cells: seq<Option<Method>>, quick: seq<Option<nat>>)

  ghost predicate QuickOk(items: seq<Method>, quick: seq<Option<nat>>) {
    |quick| == HASHSIZE && forall b :: 0 <= b < HASHSIZE ==>
      var m := Members(Hashes(items), b, |items|);
      quick[b] == if |m| == 1 then Some(items[m[0]].func) else None
  }

  ghost predicate TablesOk(items: seq<Method>, t: Tables) {
    Laid(items, Hashes(items), t.table, t.cells) && QuickOk(items, t.quick)
  }

  method FillQuick(items: seq<Method>, heads: seq<int>, follows: seq<int>) returns (quick: seq<Option<nat>>)
    requires Linked(Hashes(items), heads, follows, |items|)
    ensures QuickOk(items, quick)
  {
    var q := new Option<nat>[HASHSIZE](_ => None);
    for b := 0 to HASHSIZE
      invariant forall c :: 0 <= c < HASHSIZE ==>
        var m := Members(Hashes(items), c, |items|);
        q[c] == if c < b && |m| == 1 then Some(items[m[0]].func) else None
    {
      ghost var m := Members(Hashes(items), b, |items|);
      assert Walk(follows, heads[b]) == m;
      if heads[b] != -1 {
        assert m == [heads[b]] + Walk(follows, follows[heads[b]]);
        assert |m| == 1 <==> Walk(follows, follows[heads[b]]) == [];
      }
      if heads[b] != -1 && follows[heads[b]] == -1 {
        q[b] := Some(items[heads[b]].func);
      }
    }
    quick := q[..];
  }

  method BuildTables(items: seq<Method>) returns (t: Tables)
    ensures TablesOk(items, t)
  {
    var hashes := Hashes(items);
    var heads := new int[HASHSIZE];
    var follows := new int[|items|];
    var nonempty, singletons := LinkBuckets(hashes, heads, follows);
    var table := new int[HASHSIZE](_ => -1);
    var cells := new Option<Method>[|items| + nonempty](_ => None);
    FillTable(items, hashes, heads[..], follows[..], table, cells);
    var quick := FillQuick(items, heads[..], follows[..]);
    t := Tables(table[..], cells[..], quick);
  }

  // ---------------------------------------------------------------------------
  // Calls

  /** The first entry of the bucket with the hash looked for. */
  method LookupInterface(t: Tables, ghost items: seq<Method>, hash: int) returns (r: Option<Method>)
    requires TablesOk(items, t)
    ensures r == SlowCall(items, hash)
    ensures r.None? <==> forall k :: 0 <= k < |items| ==> items[k].hash != hash
    ensures r.Some? ==> r.value in items && r.value.hash == hash
  {
    SlowCallExact(items, hash);
    ghost var m := Members(Hashes(items), Bucket(hash), |items|);
    assert Run(items, t.cells, t.table[Bucket(hash)], m);
    var start := t.table[Bucket(hash)];
    if start == -1 { return None; }
    var p: int := start;
    RunCell(items, t.cells, start, m, p);
    while t.cells[p].Some?
      invariant start <= p <= start + |m| && p < |t.cells| && (t.cells[p].Some? <==> p - start < |m|)
      invariant FirstWith(items, m, hash) == FirstWith(items, m[p - start..], hash)
      decreases start + |m| - p
    {
      assert m[p - start..][0] == m[p - start] && m[p - start..][1..] == m[p - start + 1..];
      RunCell(items, t.cells, start, m, p);
      if t.cells[p].value.hash == hash { return t.cells[p]; }
      p := p + 1;
      RunCell(items, t.cells, start, m, p);
    }
    r := None;
  }

  ghost function FirstWith(items: seq<Method>, members: seq<nat>, hash: int): Option<Method>
    requires forall k :: 0 <= k < |members| ==> members[k] < |items|
  {
    if members == [] then None
    else if items[members[0]].hash == hash then Some(items[members[0]])
    else FirstWith(items, members[1..], hash)
  }

  /** What a slow call of a method with this hash runs. */
  ghost function SlowCall(items: seq<Method>, hash: int): Option<Method> {
    FirstWith(items, Members(Hashes(items), Bucket(hash), |items|), hash)
  }

  lemma {:induction false} FirstWithExact(items: seq<Method>, members: seq<nat>, hash: int)
    requires forall k :: 0 <= k < |members| ==> members[k] < |items|
    ensures match FirstWith(items, members, hash)
            case Some(m) => m in items && m.hash == hash
            case None => forall k :: 0 <= k < |members| ==> items[members[k]].hash != hash
  {
    if members != [] && items[members[0]].hash != hash {
      FirstWithExact(items, members[1..], hash);
      if FirstWith(items, members, hash).None? {
        forall k | 0 < k < |members|
          ensures items[members[k]].hash != hash
        {
          assert members[k] == members[1..][k - 1];
        }
      }
    }
  }

  /** A slow call finds a method with the hash exactly when there is one. */
  lemma SlowCallExact(items: seq<Method>, hash: int)
    ensures match SlowCall(items, hash)
            case Some(m) => m in items && m.hash == hash
            case None => forall k :: 0 <= k < |items| ==> items[k].hash != hash
  {
    FirstWithExact(items, Members(Hashes(items), Bucket(hash), |items|), hash);
    forall k | 0 <= k < |items| && items[k].hash == hash
      ensures SlowCall(items, hash).Some?
    {
      assert Hashes(items)[k] == hash;
      MembersAll(Hashes(items), Bucket(hash), |items|, k);
    }
  }

  ghost predicate CollisionFree(items: seq<Method>) {
    forall i, j :: 0 <= i < |items| && 0 <= j < |items| && items[i].hash == items[j].hash ==> items[i] == items[j]
  }

  /** Every interface method is called as the nearest public implementation exactly
      when no two of the implementations have the same hash. */
  lemma InterfaceCall(w: World, c: ClassId, items: seq<Method>)
    requires WellFormed(w) && c in w && Implementing(w, c, items)
    ensures CollisionFree(items) <==> forall m :: Required(w, c, m) ==> SlowCall(items, m.hash) == NearestPublic(w, c, m.key)
  {
    if CollisionFree(items) {
      forall m | Required(w, c, m)
        ensures SlowCall(items, m.hash) == NearestPublic(w, c, m.key)
      {
        var n := NearestPublic(w, c, m.key).value;
        PublicSame(w, c, m.owner, m);
        var k :| 0 <= k < |items| && items[k] == n;
        SlowCallExact(items, items[k].hash);
      }
    }
    if forall m :: Required(w, c, m) ==> SlowCall(items, m.hash) == NearestPublic(w, c, m.key) {
      forall i, j | 0 <= i < |items| && 0 <= j < |items| && items[i].hash == items[j].hash
        ensures items[i] == items[j]
      {
        var m :| Required(w, c, m) && NearestPublic(w, c, m.key) == Some(items[i]);
        var n :| Required(w, c, n) && NearestPublic(w, c, n.key) == Some(items[j]);
        PublicSame(w, c, m.owner, m);
        PublicSame(w, c, n.owner, n);
      }
    }
  }

  ghost function CollidingMethods(owner: ClassId): seq<Method> {
    [Method(owner, 1, false, false, true, 7, 2 * owner), Method(owner, 2, false, false, true, 7, 2 * owner + 1)]
  }

  /** An interface of two methods with one hash, and a class that implements it. */
  ghost function Colliding(): World {
    map c: ClassId | c < 2 :: Class(None, if c == 0 then [] else [0], false, CollidingMethods(c), c)
  }

  lemma CollidingOk()
    ensures WellFormed(Colliding())
  {
    var w := Colliding();
    forall c | c in w
      ensures ClassOk(w, c)
    {
      CollidingClass(c);
    }
    hide Colliding, ClassOk;
    forall c, i | c in w && 0 <= i < |w[c].methods|
      ensures w[c].methods[i].key == i + 1 && !w[c].methods[i].isInit && w[c].methods[i].hash == 7
    {
      CollidingClass(c);
    }
    assert KeysAgree(w);
  }

  lemma CollidingClass(c: ClassId)
    requires c in Colliding()
    ensures ClassOk(Colliding(), c)
    ensures var s := Colliding()[c].methods;
            forall i :: 0 <= i < |s| ==> s[i].key == i + 1 && !s[i].isInit && s[i].hash == 7
  {
  }

  lemma CollidingIfaces(i: ClassId)
    requires WellFormed(Colliding())
    ensures IfaceOf(Colliding(), 1, i) <==> i == 0
  {
    var w := Colliding();
    hide CollidingMethods, WellFormed;
    assert w[1].interfaces == [0] && w[1].super == None && w[0].interfaces == [] && w[0].super == None;
    assert !IfaceOf(w, 0, i);
    if i == 0 { assert w[1].interfaces[0] == i; }
  }

  lemma CollidingRequires(m: Method)
    requires WellFormed(Colliding())
    ensures Required(Colliding(), 1, m) <==> m in CollidingMethods(0)
  {
    hide WellFormed, IfaceOf;
    CollidingIfaces(m.owner);
    assert Colliding()[0].methods == CollidingMethods(0);
  }

  lemma CollidingNearest(k: nat) returns (m: Method)
    requires WellFormed(Colliding()) && k < |CollidingMethods(1)|
    ensures |CollidingMethods(0)| == |CollidingMethods(1)| && m == CollidingMethods(0)[k] && m in CollidingMethods(0)
    ensures CollidingMethods(1)[k] in CollidingMethods(1) && NearestPublic(Colliding(), 1, m.key) == Some(CollidingMethods(1)[k])
  {
    m := CollidingMethods(0)[k];
    var w, n := Colliding(), CollidingMethods(1)[k];
    hide WellFormed, MethodLookup;
    assert 1 in w && w[1].methods == CollidingMethods(1);
    LookupExact(w, 1, n.key);
    assert n in w[1].methods && !n.isStatic;
    assert MethodLookup(w[1], n.key) == Some(n);
  }

  lemma CollidingImplemented()
    ensures WellFormed(Colliding()) && 1 in Colliding() && Implementing(Colliding(), 1, CollidingMethods(1))
  {
    CollidingOk();
    CollidingHas();
    hide WellFormed, Required, NearestPublic, Colliding, CollidingMethods;
    var w, items := Colliding(), CollidingMethods(1);
    forall m | Required(w, 1, m)
      ensures NearestPublic(w, 1, m.key).Some? && NearestPublic(w, 1, m.key).value in items
    {
      CollidingRequires(m);
      CollidingSizes();
      var k :| 0 <= k < |CollidingMethods(0)| && CollidingMethods(0)[k] == m;
      var n := CollidingNearest(k);
    }
    forall k | 0 <= k < |items|
      ensures exists m :: Required(w, 1, m) && NearestPublic(w, 1, m.key) == Some(items[k])
    {
      var m := CollidingNearest(k);
      CollidingRequires(m);
      assert Required(w, 1, m) && NearestPublic(w, 1, m.key) == Some(items[k]);
    }
    assert forall m :: Required(w, 1, m) ==> NearestPublic(w, 1, m.key).Some? && NearestPublic(w, 1, m.key).value in items;
  }

  lemma CollidingSizes()
    ensures |CollidingMethods(0)| == |CollidingMethods(1)|
  {
  }

  lemma CollidingHas()
    ensures 1 in Colliding()
  {
  }

  /** With colliding hashes one of the two methods is called in place of the other. */
  lemma CollidingCall() returns (m: Method)
    ensures WellFormed(Colliding()) && 1 in Colliding() && Implementing(Colliding(), 1, CollidingMethods(1))
    ensures Required(Colliding(), 1, m) && SlowCall(CollidingMethods(1), m.hash) != NearestPublic(Colliding(), 1, m.key)
  {
    CollidingHas();
    CollidingImplemented();
    hide WellFormed, Required, NearestPublic, SlowCall, Implementing, Colliding;
    var w, items := Colliding(), CollidingMethods(1);
    InterfaceCall(w, 1, items);
    assert items[0].hash == items[1].hash && items[0] != items[1];
    m :| Required(w, 1, m) && SlowCall(items, m.hash) != NearestPublic(w, 1, m.key);
  }

  /** A quick call, when the table allows it, runs the same function as the slow call. */
  lemma QuickCall(items: seq<Method>, quick: seq<Option<nat>>, k: nat)
    requires QuickOk(items, quick) && k < |items| && quick[Bucket(items[k].hash)].Some?
    ensures SlowCall(items, items[k].hash) == Some(items[k]) && quick[Bucket(items[k].hash)].value == items[k].func
  {
    var b := Bucket(items[k].hash);
    var m := Members(Hashes(items), b, |items|);
    assert Hashes(items)[k] == items[k].hash;
    MembersAll(Hashes(items), b, |items|, k);
    assert |m| == 1 && m[0] == k;
    assert FirstWith(items, m, items[k].hash) == Some(items[k]);
  }

  /** A quick call needs no condition on hashes: it runs the nearest public implementation. */
  lemma QuickCallNearest(w: World, c: ClassId, items: seq<Method>, quick: seq<Option<nat>>, m: Method)
    requires WellFormed(w) && c in w && Implementing(w, c, items) && QuickOk(items, quick)
    requires Required(w, c, m) && quick[Bucket(m.hash)].Some?
    ensures NearestPublic(w, c, m.key).Some? && NearestPublic(w, c, m.key).value.func == quick[Bucket(m.hash)].value
  {
    var n := NearestPublic(w, c, m.key).value;
    PublicSame(w, c, m.owner, m);
    var k :| 0 <= k < |items| && items[k] == n;
    QuickCall(items, quick, k);
  }

  // ---------------------------------------------------------------------------
  // Deriving the tables of a class

  function Gathered(w: World, c: ClassId): seq<Method>
    requires WellFormed(w) && c in w
    decreases c
  {
    assert ClassOk(w, c);
    IfaceMethods(w, c) + if w[c].super.Some? then Gathered(w, w[c].super.value) else []
  }

  lemma {:induction false} GatheredExact(w: World, c: ClassId, m: Method)
    requires WellFormed(w) && c in w
    ensures m in Gathered(w, c) <==> Required(w, c, m)
    decreases c
  {
    assert ClassOk(w, c);
    IfaceMethodsExact(w, c, m);
    if w[c].super.Some? { GatheredExact(w, w[c].super.value, m); }
  }

  /** Collect along the superclass chain. */
  method Gather(w: World, c: ClassId, out: array<Method>)
    requires WellFormed(w) && c in w && out.Length == |Gathered(w, c)|
    modifies out
    ensures out[..] == Gathered(w, c)
  {
    var s, end := Some(c), 0;
    ghost var rest := Gathered(w, c);
    while s.Some?
      invariant s.Some? ==> s.value in w && rest == Gathered(w, s.value)
      invariant s.None? ==> rest == []
      invariant 0 <= end <= out.Length && end + |rest| == out.Length && out[..end] + rest == Gathered(w, c)
      decreases if s.Some? then s.value + 1 else 0
    {
      assert ClassOk(w, s.value);
      ghost var done := out[..end];
      ghost var rest' := if w[s.value].super.Some? then Gathered(w, w[s.value].super.value) else [];
      assert done + (IfaceMethods(w, s.value) + rest') == done + IfaceMethods(w, s.value) + rest';
      end := AddIfaceMethods(w, s.value, out, end);
      rest := rest';
      s := w[s.value].super;
    }
    assert out[..] == out[..end] + rest;
  }

  /** Replace each interface method by its implementation; None is a NoSuchMethodError. */
  method Implement(w: World, c: ClassId, methods: array<Method>) returns (ok: bool)
    requires WellFormed(w) && c in w
    modifies methods
    ensures ok <==> forall i :: 0 <= i < methods.Length ==> NearestPublic(w, c, old(methods[i]).key).Some?
    ensures ok ==> forall i :: 0 <= i < methods.Length ==> NearestPublic(w, c, old(methods[i]).key) == Some(methods[i])
  {
    for i := 0 to methods.Length
      invariant forall j :: 0 <= j < i ==> NearestPublic(w, c, old(methods[j]).key) == Some(methods[j])
      invariant forall j :: i <= j < methods.Length ==> methods[j] == old(methods[j])
    {
      var m := FindPublic(w, c, methods[i].key);
      if m.None? { return false; }
      methods[i] := m.value;
    }
    ok := true;
  }

  lemma ElementsSame(qsort: seq<Method> -> seq<Method>, s: seq<Method>, m: Method)
    requires multiset(qsort(s)) == multiset(s)
    ensures m in Squeeze(qsort(s)) <==> m in s
  {
    InSqueeze(qsort(s), m);
    assert m in qsort(s) <==> m in multiset(qsort(s));
    assert m in s <==> m in multiset(s);
  }

  /** The implementations, sorted and squeezed, are what the class must implement. */
  lemma SqueezedImplements(w: World, c: ClassId, found: seq<Method>, impls: seq<Method>, qsort: seq<Method> -> seq<Method>)
    requires WellFormed(w) && c in w && found == Gathered(w, c) && |impls| == |found|
    requires forall i :: 0 <= i < |found| ==> NearestPublic(w, c, found[i].key) == Some(impls[i])
    requires multiset(qsort(impls)) == multiset(impls)
    ensures Implementing(w, c, Squeeze(qsort(impls)))
  {
    var items := Squeeze(qsort(impls));
    forall m | Required(w, c, m)
      ensures NearestPublic(w, c, m.key).Some? && NearestPublic(w, c, m.key).value in items
    {
      GatheredExact(w, c, m);
      var i :| 0 <= i < |found| && found[i] == m;
      assert impls[i] in impls;
      ElementsSame(qsort, impls, impls[i]);
    }
    forall k | 0 <= k < |items|
      ensures exists m :: Required(w, c, m) && NearestPublic(w, c, m.key) == Some(items[k])
    {
      ElementsSame(qsort, impls, items[k]);
      assert items[k] in items;
      var i :| 0 <= i < |impls| && impls[i] == items[k];
      GatheredExact(w, c, found[i]);
      assert Required(w, c, found[i]) && NearestPublic(w, c, found[i].key) == Some(items[k]);
    }
  }

  method DeriveTables(w: World, c: ClassId, qsort: seq<Method> -> seq<Method>) returns (r: Option<Tables>, ghost items: seq<Method>)
    requires WellFormed(w) && c in w && forall s :: multiset(qsort(s)) == multiset(s)
    ensures r.None? <==> exists m :: Required(w, c, m) && NearestPublic(w, c, m.key).None?
    ensures r.Some? ==> Implementing(w, c, items) && TablesOk(items, r.value)
  {
    hide Gathered, Squeeze, Implementing, TablesOk, Required, NearestPublic;
    var max := |Gathered(w, c)|;
    var methods := new Method[max](_ => Method(0, 0, false, false, false, 0, 0));
    Gather(w, c, methods);
    ghost var found := methods[..];
    var ok := Implement(w, c, methods);
    assert forall i :: 0 <= i < max ==> found[i] in found;
    forall m
      ensures m in found <==> Required(w, c, m)
    {
      GatheredExact(w, c, m);
    }
    if !ok {
      items := [];
      return None, items;
    }
    ghost var impls := methods[..];
    SqueezedImplements(w, c, found, impls, qsort);
    var sorted := qsort(methods[..]);
    assert |sorted| == |multiset(sorted)| == |multiset(impls)| == max;
    var a := new Method[|sorted|](i requires 0 <= i < |sorted| => sorted[i]);
    assert a[..|sorted|] == sorted;
    var n := Dedupe(a, |sorted|);
    var t := BuildTables(a[..n]);
    items := a[..n];
    r := Some(t);
  }
}
