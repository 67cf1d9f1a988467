/** The virtual method tables of classes, and what a virtual call finds in them. */
module MethodTables {
  import opened Options
  import opened Classes

  /** The methods of a class that get a slot of their own, in order. */
  function Virtuals(methods: seq<Method>): seq<Method> {
    if methods == [] then []
    else if Virtual(methods[0]) then [methods[0]] + Virtuals(methods[1..])
    else Virtuals(methods[1..])
  }

  function SuperSlots(w: World, c: ClassId): nat
    requires WellFormed(w) && c in w
    decreases c, 0
  {
    assert ClassOk(w, c);
    if w[c].super.Some? then Slots(w, w[c].super.value) else 0
  }

  /** The number of slots in a class's table: those of its superclass and its own. */
  function Slots(w: World, c: ClassId): nat
    requires WellFormed(w) && c in w
    decreases c, 1
  {
    SuperSlots(w, c) + |Virtuals(w[c].methods)|
  }

  /** Slot `i` of class `c` was made for method `m`, which `c` declares. */
  ghost predicate OwnSlot(w: World, c: ClassId, i: int, m: Method)
    requires WellFormed(w) && c in w
  {
    SuperSlots(w, c) <= i < Slots(w, c) && Virtuals(w[c].methods)[i - SuperSlots(w, c)] == m
  }

  /** Every slot holds the declaration, nearest to the class, of the method it was made for. */
  ghost predicate TableOk(w: World, c: ClassId, table: seq<Method>)
    requires WellFormed(w) && c in w
  {
    |table| == Slots(w, c) &&
    forall d, i, m :: d in w && Extends(w, c, d) && OwnSlot(w, d, i, m) ==> i < |table| && Nearest(w, c, m.key) == Some(table[i])
  }

  lemma {:induction false} VirtualsExact(methods: seq<Method>)
    requires SortedMethods(methods)
    ensures SortedMethods(Virtuals(methods))
    ensures forall m :: m in Virtuals(methods) <==> m in methods && Virtual(m)
  {
    if methods != [] {
      var rest := methods[1..];
      assert methods == [methods[0]] + rest;
      VirtualsExact(rest);
      if Virtual(methods[0]) {
        forall j | 0 <= j < |Virtuals(rest)|
          ensures methods[0].key < Virtuals(rest)[j].key
        {
          assert Virtuals(rest)[j] in rest;
        }
      }
    }
  }

  lemma {:induction false} SlotsGrow(w: World, c: ClassId, d: ClassId)
    requires WellFormed(w) && c in w && d in w && Extends(w, c, d)
    ensures Slots(w, d) <= Slots(w, c) && (c != d ==> Slots(w, d) <= SuperSlots(w, c))
    decreases c
  {
    assert ClassOk(w, c);
    if c != d { SlotsGrow(w, w[c].super.value, d); }
  }

  /** A slot belongs to one class only. */
  lemma {:induction false} OneOwner(w: World, c: ClassId, d: ClassId, e: ClassId, i: int, m: Method, n: Method)
    requires WellFormed(w) && c in w && d in w && e in w && Extends(w, c, d) && Extends(w, c, e)
    requires OwnSlot(w, d, i, m) && OwnSlot(w, e, i, n)
    ensures d == e && m == n
    decreases c
  {
    assert ClassOk(w, c);
    if c == d && c != e { SlotsGrow(w, c, e); }
    else if c == e && c != d { SlotsGrow(w, c, d); }
    else if c != d { OneOwner(w, w[c].super.value, d, e, i, m, n); }
  }

  lemma {:induction false} ExtendsTransitive(w: World, c: ClassId, d: ClassId, e: ClassId)
    requires WellFormed(w) && Extends(w, c, d) && Extends(w, d, e)
    ensures Extends(w, c, e)
    decreases c
  {
    assert ClassOk(w, c);
    if c != d { ExtendsTransitive(w, w[c].super.value, d, e); }
  }

  lemma {:induction false} NearestFound(w: World, c: ClassId, d: ClassId, m: Method)
    requires WellFormed(w) && c in w && d in w && Extends(w, c, d) && m in w[d].methods && !m.isStatic
    ensures Nearest(w, c, m.key).Some? && Nearest(w, c, m.key).value.key == m.key
    decreases c
  {
    assert ClassOk(w, c);
    LookupExact(w, c, m.key);
    if c != d { NearestFound(w, w[c].super.value, d, m); }
  }

  function IndexIn(s: seq<Method>, m: Method): (i: nat)
    requires m in s
    ensures i < |s| && s[i] == m
  {
    if s[0] == m then 0 else 1 + IndexIn(s[1..], m)
  }

  /** The slot of a class's own virtual method. */
  function VtableIndex(w: World, m: Method): (i: int)
    requires WellFormed(w) && m.owner in w && m in w[m.owner].methods && Virtual(m)
    ensures OwnSlot(w, m.owner, i, m)
  {
    assert ClassOk(w, m.owner);
    VirtualsExact(w[m.owner].methods);
    SuperSlots(w, m.owner) + IndexIn(Virtuals(w[m.owner].methods), m)
  }

  // ---------------------------------------------------------------------------
  // Building the table

  /** An inherited entry after the first `k` methods: the one of the same name, if any. */
  ghost function Replaced(methods: seq<Method>, entry: Method, k: nat): Method
    requires k <= |methods|
  {
    if k == 0 then entry
    else if Virtual(methods[k - 1]) && methods[k - 1].key == entry.key then methods[k - 1]
    else Replaced(methods, entry, k - 1)
  }

  lemma {:induction false} ReplacedExact(methods: seq<Method>, entry: Method, k: nat)
    requires k <= |methods| && SortedMethods(methods)
    ensures Replaced(methods, entry, k).key == entry.key
    ensures forall i :: 0 <= i < k && Virtual(methods[i]) && methods[i].key == entry.key ==> Replaced(methods, entry, k) == methods[i]
    ensures (forall i :: 0 <= i < k ==> !Virtual(methods[i]) || methods[i].key != entry.key) ==> Replaced(methods, entry, k) == entry
    decreases k
  {
    if k > 0 { ReplacedExact(methods, entry, k - 1); }
  }

  lemma SameKindLookup(w: World, c: ClassId, d: ClassId, m: Method)
    requires WellFormed(w) && c in w && d in w && m in w[d].methods && Virtual(m)
    ensures MethodLookup(w[c], m.key).Some? ==>
              var n := MethodLookup(w[c], m.key).value; n in w[c].methods && Virtual(n) && n.owner == c && n.key == m.key
  {
    LookupExact(w, c, m.key);
    if MethodLookup(w[c], m.key).Some? {
      var n := MethodLookup(w[c], m.key).value;
      var i :| 0 <= i < |w[c].methods| && w[c].methods[i] == n;
      var j :| 0 <= j < |w[d].methods| && w[d].methods[j] == m;
    }
  }

  /** First the class's own virtual methods are numbered and put in the slots after the inherited ones. */
  method AssignSlots(w: World, c: ClassId, table: array<Method>)
    requires WellFormed(w) && c in w && table.Length == Slots(w, c)
    modifies table
    ensures table[SuperSlots(w, c)..] == Virtuals(w[c].methods)
  {
    var methods, base := w[c].methods, SuperSlots(w, c);
    var next := base;
    assert methods[0..] == methods;
    for i := 0 to |methods|
      invariant base <= next <= table.Length && next - base + |Virtuals(methods[i..])| == |Virtuals(methods)|
      invariant table[base..next] + Virtuals(methods[i..]) == Virtuals(methods)
    {
      assert methods[i..][0] == methods[i] && methods[i..][1..] == methods[i + 1..];
      if Virtual(methods[i]) {
        ghost var before := table[base..next];
        table[next] := methods[i];
        next := next + 1;
        assert table[base..next] == before + [methods[i]];
        assert before + ([methods[i]] + Virtuals(methods[i + 1..])) == before + [methods[i]] + Virtuals(methods[i + 1..]);
      }
    }
  }

  /** Inherited entries of the classes from `s` up are as after `k` methods, those of the
      classes already visited as after `k + 1`. */
  ghost predicate Visited(w: World, c: ClassId, inherited: seq<Method>, table: seq<Method>, k: nat, s: Option<ClassId>)
    requires WellFormed(w) && c in w && k < |w[c].methods| && (s.Some? ==> s.value in w)
  {
    |inherited| <= |table| &&
    var seen := if s.Some? then Slots(w, s.value) else 0;
    forall i :: 0 <= i < |inherited| ==> table[i] == Replaced(w[c].methods, inherited[i], if i < seen then k else k + 1)
  }

  /** A slot made by `s` holds an inherited entry of the name of the method it was made for. */
  lemma SlotKey(w: World, p: ClassId, s: ClassId, inherited: seq<Method>, i: nat)
    requires WellFormed(w) && p in w && s in w && Extends(w, p, s) && TableOk(w, p, inherited)
    requires SuperSlots(w, s) <= i < Slots(w, s)
    ensures i < |inherited|
    ensures var n := Virtuals(w[s].methods)[i - SuperSlots(w, s)];
            n in w[s].methods && Virtual(n) && inherited[i].key == n.key && MethodLookup(w[s], n.key) == Some(n)
            && VtableIndex(w, n) == i
  {
    assert ClassOk(w, s);
    VirtualsExact(w[s].methods);
    var n := Virtuals(w[s].methods)[i - SuperSlots(w, s)];
    assert n in Virtuals(w[s].methods);
    assert OwnSlot(w, s, i, n);
    NearestFound(w, p, s, n);
    LookupExact(w, s, n.key);
    assert OwnSlot(w, s, VtableIndex(w, n), n);
  }

  lemma VisitOne(w: World, c: ClassId, p: ClassId, inherited: seq<Method>, table: seq<Method>, table': seq<Method>, k: nat, s: ClassId)
    requires WellFormed(w) && c in w && p in w && s in w && w[c].super == Some(p) && Extends(w, p, s) && TableOk(w, p, inherited)
    requires k < |w[c].methods| && Virtual(w[c].methods[k]) && Visited(w, c, inherited, table, k, Some(s))
    requires w[s].super.Some? ==> w[s].super.value in w
    requires MethodLookup(w[s], w[c].methods[k].key).Some? ==>
               var n := MethodLookup(w[s], w[c].methods[k].key).value;
               n in w[s].methods && Virtual(n) && n.owner == s && n.key == w[c].methods[k].key
    requires match MethodLookup(w[s], w[c].methods[k].key)
             case None => table' == table
             case Some(n) => 0 <= VtableIndex(w, n) < |table| && table' == table[VtableIndex(w, n) := w[c].methods[k]]
    ensures Visited(w, c, inherited, table', k, w[s].super)
  {
    hide TableOk;
    var m := w[c].methods[k];
    forall i | 0 <= i < |inherited|
      ensures table'[i] == Replaced(w[c].methods, inherited[i], if i < SuperSlots(w, s) then k else k + 1)
    {
      if MethodLookup(w[s], m.key).Some? {
        assert OwnSlot(w, s, VtableIndex(w, MethodLookup(w[s], m.key).value), MethodLookup(w[s], m.key).value);
      }
      if SuperSlots(w, s) <= i < Slots(w, s) {
        SlotKey(w, p, s, inherited, i);
      }
    }
  }

  /** Copy the superclass's table, then put each method over the entries it overrides. */
  method ResolveVtable(w: World, c: ClassId, inherited: seq<Method>, table: array<Method>)
    requires WellFormed(w) && c in w && table.Length == Slots(w, c)
    requires match w[c].super case None => inherited == [] case Some(p) => p in w && TableOk(w, p, inherited)
    requires table[SuperSlots(w, c)..] == Virtuals(w[c].methods)
    modifies table
    ensures TableOk(w, c, table[..])
  {
    hide TableOk, MethodLookup, VtableIndex;
    ghost var own := table[SuperSlots(w, c)..];
    InheritedLength(w, c, inherited);
    for i := 0 to |inherited|
      invariant table[..i] == inherited[..i] && table[SuperSlots(w, c)..] == own
    {
      table[i] := inherited[i];
    }
    assert ClassOk(w, c);
    var methods := w[c].methods;
    for k := 0 to |methods|
      invariant table[SuperSlots(w, c)..] == own
      invariant forall i :: 0 <= i < |inherited| ==> table[i] == Replaced(methods, inherited[i], k)
    {
      if Virtual(methods[k]) {
        OverrideAll(w, c, inherited, table, k);
      }
    }
    TableFinished(w, c, inherited, table[..]);
  }

  lemma InheritedLength(w: World, c: ClassId, inherited: seq<Method>)
    requires WellFormed(w) && c in w
    requires match w[c].super case None => inherited == [] case Some(p) => p in w && TableOk(w, p, inherited)
    ensures |inherited| == SuperSlots(w, c)
  {
  }

  /** Method `k` takes the place of every inherited entry of its name and signature. */
  method OverrideAll(w: World, c: ClassId, inherited: seq<Method>, table: array<Method>, k: nat)
    requires WellFormed(w) && c in w && table.Length == Slots(w, c) && k < |w[c].methods| && Virtual(w[c].methods[k])
    requires match w[c].super case None => inherited == [] case Some(p) => p in w && TableOk(w, p, inherited)
    requires forall i :: 0 <= i < |inherited| ==> table[i] == Replaced(w[c].methods, inherited[i], k)
    modifies table
    ensures table[SuperSlots(w, c)..] == old(table[SuperSlots(w, c)..])
    ensures forall i :: 0 <= i < |inherited| ==> table[i] == Replaced(w[c].methods, inherited[i], k + 1)
  {
    hide TableOk, MethodLookup, VtableIndex, Replaced;
    InheritedLength(w, c, inherited);
    var m := w[c].methods[k];
    var s := w[c].super;
    assert ClassOk(w, c);
    while s.Some?
      invariant s.Some? ==> s.value in w && w[c].super.Some? && Extends(w, w[c].super.value, s.value)
      invariant Visited(w, c, inherited, table[..], k, s)
      invariant table[SuperSlots(w, c)..] == old(table[SuperSlots(w, c)..])
      decreases if s.Some? then s.value + 1 else 0
    {
      ghost var before := table[..];
      SameKindLookup(w, s.value, c, m);
      var overridden := MethodLookup(w[s.value], m.key);
      if overridden.Some? {
        SlotBelow(w, c, w[c].super.value, s.value, overridden.value);
        table[VtableIndex(w, overridden.value)] := m;
        assert table[..] == before[VtableIndex(w, overridden.value) := m];
      }
      VisitOne(w, c, w[c].super.value, inherited, before, table[..], k, s.value);
      ExtendsStep(w, w[c].super.value, s.value);
      s := w[s.value].super;
    }
  }

  lemma SlotBelow(w: World, c: ClassId, p: ClassId, s: ClassId, n: Method)
    requires WellFormed(w) && c in w && w[c].super == Some(p) && p in w && s in w && Extends(w, p, s)
    requires n in w[s].methods && n.owner == s && Virtual(n)
    ensures 0 <= VtableIndex(w, n) < SuperSlots(w, c)
  {
    SlotsGrow(w, p, s);
    assert OwnSlot(w, s, VtableIndex(w, n), n);
  }

  lemma ExtendsStep(w: World, p: ClassId, s: ClassId)
    requires WellFormed(w) && p in w && s in w && Extends(w, p, s)
    ensures w[s].super.Some? ==> w[s].super.value in w && w[s].super.value < s && Extends(w, p, w[s].super.value)
  {
    assert ClassOk(w, s);
    if w[s].super.Some? {
      assert Extends(w, s, w[s].super.value);
      ExtendsTransitive(w, p, s, w[s].super.value);
    }
  }

  lemma TableFinished(w: World, c: ClassId, inherited: seq<Method>, table: seq<Method>)
    requires WellFormed(w) && c in w && |table| == Slots(w, c)
    requires match w[c].super case None => inherited == [] case Some(p) => p in w && TableOk(w, p, inherited)
    requires table[SuperSlots(w, c)..] == Virtuals(w[c].methods)
    requires |inherited| == SuperSlots(w, c)
    requires forall i :: 0 <= i < |inherited| ==> table[i] == Replaced(w[c].methods, inherited[i], |w[c].methods|)
    ensures TableOk(w, c, table)
  {
    hide TableOk, Nearest, MethodLookup, Replaced;
    forall d, i, m | d in w && Extends(w, c, d) && OwnSlot(w, d, i, m)
      ensures i < |table| && Nearest(w, c, m.key) == Some(table[i])
    {
      SlotsGrow(w, c, d);
      SlotMethod(w, d, i, m);
      if d == c {
        assert table[i] == table[SuperSlots(w, c)..][i - SuperSlots(w, c)];
        NearestOwn(w, c, m);
      } else {
        assert ClassOk(w, c);
        InheritedSlot(w, c, w[c].super.value, d, inherited, i, m);
      }
    }
    TableOkFrom(w, c, table);
  }

  lemma TableOkFrom(w: World, c: ClassId, table: seq<Method>)
    requires WellFormed(w) && c in w && |table| == Slots(w, c)
    requires forall d, i, m :: d in w && Extends(w, c, d) && OwnSlot(w, d, i, m) ==> i < |table| && Nearest(w, c, m.key) == Some(table[i])
    ensures TableOk(w, c, table)
  {
  }

  lemma SlotMethod(w: World, d: ClassId, i: int, m: Method)
    requires WellFormed(w) && d in w && OwnSlot(w, d, i, m)
    ensures m in w[d].methods && Virtual(m) && m.owner == d
  {
    assert ClassOk(w, d);
    VirtualsExact(w[d].methods);
    assert m in Virtuals(w[d].methods);
  }

  lemma NearestOwn(w: World, c: ClassId, m: Method)
    requires WellFormed(w) && c in w && m in w[c].methods && !m.isStatic
    ensures Nearest(w, c, m.key) == Some(m)
  {
    LookupExact(w, c, m.key);
  }

  /** An inherited entry after all methods is the nearest declaration. */
  lemma InheritedSlot(w: World, c: ClassId, p: ClassId, d: ClassId, inherited: seq<Method>, i: int, m: Method)
    requires WellFormed(w) && c in w && p in w && d in w && w[c].super == Some(p) && Extends(w, p, d)
    requires TableOk(w, p, inherited) && OwnSlot(w, d, i, m) && m in w[d].methods && Virtual(m)
    ensures i < |inherited| && Nearest(w, c, m.key) == Some(Replaced(w[c].methods, inherited[i], |w[c].methods|))
  {
    assert 0 <= i && ClassOk(w, c);
    hide Slots, SuperSlots, OwnSlot;
    assert Nearest(w, p, m.key) == Some(inherited[i]);
    ReplacedExact(w[c].methods, inherited[i], |w[c].methods|);
    NearestFound(w, p, d, m);
    SameKindLookup(w, c, d, m);
    LookupExact(w, c, m.key);
  }

  // ---------------------------------------------------------------------------
  // Virtual calls

  /** A virtual call on an instance of `c` runs the declaration nearest to `c`. */
  lemma VirtualCall(w: World, c: ClassId, table: seq<Method>, m: Method)
    requires WellFormed(w) && c in w && TableOk(w, c, table)
    requires m.owner in w && m in w[m.owner].methods && !m.isStatic && !m.isInit && Extends(w, c, m.owner)
    ensures 0 <= VtableIndex(w, m) < |table| && Nearest(w, c, m.key) == Some(table[VtableIndex(w, m)])
    ensures First(w, c, table[VtableIndex(w, m)].owner, m.key, table[VtableIndex(w, m)], false)
  {
    NearestExact(w, c, m.key);
    hide WellFormed, First, Nearest;
  }

  ghost predicate FinalClasses(w: World) {
    forall c :: c in w && w[c].super.Some? && w[c].super.value in w ==> !w[w[c].super.value].isFinal
  }

  /** Calling a method of a final class directly runs what the virtual call would. */
  lemma Devirtualized(w: World, c: ClassId, table: seq<Method>, m: Method)
    requires WellFormed(w) && FinalClasses(w) && c in w && TableOk(w, c, table)
    requires m.owner in w && m in w[m.owner].methods && !m.isStatic && !m.isInit && Extends(w, c, m.owner)
    requires w[m.owner].isFinal
    ensures table[VtableIndex(w, m)] == m
  {
    if c != m.owner {
      FinalNotExtended(w, c, m.owner);
    }
    LookupExact(w, c, m.key);
    VirtualCall(w, c, table, m);
  }

  lemma {:induction false} FinalNotExtended(w: World, c: ClassId, d: ClassId)
    requires WellFormed(w) && FinalClasses(w) && c in w && d in w && Extends(w, c, d) && w[d].isFinal
    ensures c == d
    decreases c
  {
    assert ClassOk(w, c);
    if c != d { FinalNotExtended(w, w[c].super.value, d); }
  }
}
