/** Where fields lie in an instance: references below the header, everything else above it. */
module FieldLayout {
  import opened Options
  import opened Products

  const WORD := 4         // bytes of a reference
  const HEADER := 8       // bytes of an object header

  datatype Field = Field(isStatic: bool, isRef: bool, size: nat, align: nat)

  predicate FieldOk(f: Field) {
    f.size > 0 && f.align > 0 && (f.isRef ==> f.size == WORD)
  }

  /** The references so far, the end of the other instance fields, and the end of the static ones. */
  datatype Cursor = Cursor(refs: nat, end: nat, statics: nat)

  /** What a class keeps for its subclasses. */
  datatype Instance = Instance(refs: nat, size: nat)

  function Start(super: Option<Instance>): Cursor
    requires super.Some? ==> super.value.size >= super.value.refs * WORD
  {
    match super
    case None => Cursor(0, HEADER, 0)
    case Some(i) => Cursor(i.refs, i.size - i.refs * WORD, 0)
  }

  /** The next multiple of the alignment. */
  function AlignUp(x: nat, align: nat): nat
    requires align > 0
  {
    if x % align == 0 then x else x + (align - x % align)
  }

  lemma AlignUpExact(x: nat, align: nat)
    requires align > 0
    ensures AlignUp(x, align) >= x && AlignUp(x, align) % align == 0
    ensures forall y :: x <= y < AlignUp(x, align) ==> y % align != 0
  {
    var q := x / align;
    Divide(x, align);
    Sum(q, 1, align);
    MultipleRemainder(q + 1, align);
    forall y | x <= y < AlignUp(x, align)
      ensures y % align != 0
    {
      QuotientIs(y, align, q);
    }
  }

  function Offset(c: Cursor, f: Field): int
    requires FieldOk(f)
  {
    if f.isStatic then AlignUp(c.statics, f.align)
    else if f.isRef then -((c.refs + 1) * WORD)
    else AlignUp(c.end, f.align)
  }

  function Step(c: Cursor, f: Field): Cursor
    requires FieldOk(f)
  {
    if f.isStatic then c.(statics := AlignUp(c.statics, f.align) + f.size)
    else if f.isRef then c.(refs := c.refs + 1)
    else c.(end := AlignUp(c.end, f.align) + f.size)
  }

  function Offsets(c: Cursor, fields: seq<Field>): (r: seq<int>)
    requires forall i :: 0 <= i < |fields| ==> FieldOk(fields[i])
    ensures |r| == |fields|
    decreases |fields|
  {
    if fields == [] then [] else [Offset(c, fields[0])] + Offsets(Step(c, fields[0]), fields[1..])
  }

  function After(c: Cursor, fields: seq<Field>): Cursor
    requires forall i :: 0 <= i < |fields| ==> FieldOk(fields[i])
    decreases |fields|
  {
    if fields == [] then c else After(Step(c, fields[0]), fields[1..])
  }

  // ---------------------------------------------------------------------------
  // The loop

  method AlignTo(x: nat, align: nat) returns (r: nat)
    requires align > 0
    ensures r == AlignUp(x, align)
  {
    AlignUpExact(x, align);
    r := x;
    while r % align != 0
      invariant x <= r <= AlignUp(x, align)
      decreases AlignUp(x, align) - r
    {
      r := r + 1;
    }
  }

  method ComputeOffsets(fields: seq<Field>, super: Option<Instance>, offsets: array<int>) returns (inst: Instance, staticSize: nat)
    requires (forall i :: 0 <= i < |fields| ==> FieldOk(fields[i])) && offsets.Length == |fields|
    requires super.Some? ==> super.value.size >= super.value.refs * WORD
    modifies offsets
    ensures offsets[..] == Offsets(Start(super), fields)
    ensures var c := After(Start(super), fields); inst == Instance(c.refs, c.end + c.refs * WORD) && staticSize == c.statics
  {
    hide AlignUp;
    var c := Start(super);
    assert fields[0..] == fields;
    for i := 0 to |fields|
      invariant offsets[..i] + Offsets(c, fields[i..]) == Offsets(Start(super), fields)
      invariant After(c, fields[i..]) == After(Start(super), fields)
    {
      var f := fields[i];
      assert fields[i..][0] == f && fields[i..][1..] == fields[i + 1..];
      ghost var before, rest := offsets[..i], Offsets(Step(c, f), fields[i + 1..]);
      ghost var c0 := c;
      if f.isStatic {
        var at := AlignTo(c.statics, f.align);
        offsets[i] := at;
        c := c.(statics := at + f.size);
      } else if f.isRef {
        c := c.(refs := c.refs + 1);
        offsets[i] := -(c.refs * WORD);
      } else {
        var at := AlignTo(c.end, f.align);
        offsets[i] := at;
        c := c.(end := at + f.size);
      }
      assert c == Step(c0, f) && offsets[i] == Offset(c0, f);
      assert offsets[..i + 1] == before + [Offset(c0, f)];
      assert before + ([Offset(c0, f)] + rest) == before + [Offset(c0, f)] + rest;
    }
    assert offsets[..] == offsets[..|fields|] + [];
    inst := Instance(c.refs, c.end + c.refs * WORD);
    staticSize := c.statics;
  }

  // ---------------------------------------------------------------------------
  // Whole instances: all fields along a superclass chain

  datatype Placed = Placed(f: Field, offset: int)

  /** The instance fields among some fields, with their offsets. */
  ghost function PlacedFields(fields: seq<Field>, offsets: seq<int>): seq<Placed>
    requires |fields| == |offsets|
    decreases |fields|
  {
    if fields == [] then []
    else (if fields[0].isStatic then [] else [Placed(fields[0], offsets[0])]) + PlacedFields(fields[1..], offsets[1..])
  }

  predicate Disjoint(p: Placed, q: Placed) {
    p.offset + p.f.size <= q.offset || q.offset + q.f.size <= p.offset
  }

  ghost predicate InInstance(p: Placed, refs: nat, end: nat) {
    FieldOk(p.f) &&
    if p.f.isRef then p.offset % WORD == 0 && -(refs * WORD) <= p.offset <= -WORD
    else p.offset % p.f.align == 0 && HEADER <= p.offset && p.offset + p.f.size <= end
  }

  /** All fields are aligned, inside the instance, off the header and off each other, and the
      references are exactly the words of the window below the header. */
  ghost predicate LaidOut(ps: seq<Placed>, refs: nat, end: nat) {
    && HEADER <= end
    && (forall i :: 0 <= i < |ps| ==> InInstance(ps[i], refs, end))
    && (forall i, j :: 0 <= i < j < |ps| ==> Disjoint(ps[i], ps[j]))
    && (forall k :: 1 <= k <= refs ==> RefAt(ps, k))
  }

  /** There is a reference field at the offset. */
  ghost predicate IsRefField(ps: seq<Placed>, offset: int) {
    exists i :: 0 <= i < |ps| && ps[i].f.isRef && ps[i].offset == offset
  }

  /** Word `k` below the header is a reference field. */
  ghost predicate RefAt(ps: seq<Placed>, k: nat) {
    IsRefField(ps, -(k * WORD))
  }

  lemma PrimitiveFits(p: Placed, c: Cursor, f: Field)
    requires InInstance(p, c.refs, c.end) && FieldOk(f) && !f.isStatic && !f.isRef && HEADER <= c.end
    ensures var q := Placed(f, Offset(c, f)); InInstance(p, c.refs, Step(c, f).end) && Disjoint(p, q)
  {
    AlignUpExact(c.end, f.align);
    hide AlignUp;
  }

  lemma PrimitiveInside(c: Cursor, f: Field)
    requires FieldOk(f) && !f.isStatic && !f.isRef && HEADER <= c.end
    ensures InInstance(Placed(f, Offset(c, f)), c.refs, Step(c, f).end) && HEADER <= Step(c, f).end
  {
    AlignUpExact(c.end, f.align);
    hide AlignUp;
  }

  lemma ReferenceFits(p: Placed, c: Cursor, f: Field)
    requires InInstance(p, c.refs, c.end) && FieldOk(f) && !f.isStatic && f.isRef
    ensures var q := Placed(f, Offset(c, f)); InInstance(p, c.refs + 1, c.end) && Disjoint(p, q)
  {
    Sum(c.refs, 1, WORD);
  }

  lemma ReferenceInside(c: Cursor, f: Field)
    requires FieldOk(f) && !f.isStatic && f.isRef
    ensures InInstance(Placed(f, Offset(c, f)), c.refs + 1, c.end)
  {
    Sum(c.refs, 1, WORD);
    MultipleRemainder(-(c.refs + 1), WORD);
    assert -(c.refs + 1) * WORD == -((c.refs + 1) * WORD);
  }

  lemma RefsStay(ps: seq<Placed>, q: Placed, k: nat)
    requires RefAt(ps, k)
    ensures RefAt(ps + [q], k)
  {
    var i :| 0 <= i < |ps| && ps[i].f.isRef && ps[i].offset == -(k * WORD);
    assert (ps + [q])[i] == ps[i];
  }

  lemma NewRef(ps: seq<Placed>, q: Placed, k: nat)
    requires q.f.isRef && q.offset == -(k * WORD)
    ensures RefAt(ps + [q], k)
  {
    assert (ps + [q])[|ps|] == q;
  }

  lemma LaidOutStep(ps: seq<Placed>, c: Cursor, f: Field)
    requires LaidOut(ps, c.refs, c.end) && FieldOk(f)
    ensures var c' := Step(c, f); var ps' := if f.isStatic then ps else ps + [Placed(f, Offset(c, f))];
            LaidOut(ps', c'.refs, c'.end)
  {
    if !f.isStatic {
      var c', q := Step(c, f), Placed(f, Offset(c, f));
      var ps' := ps + [q];
      if f.isRef { ReferenceInside(c, f); } else { PrimitiveInside(c, f); }
      forall i | 0 <= i < |ps|
        ensures InInstance(ps'[i], c'.refs, c'.end) && Disjoint(ps'[i], q)
      {
        assert InInstance(ps[i], c.refs, c.end);
        if f.isRef { ReferenceFits(ps[i], c, f); } else { PrimitiveFits(ps[i], c, f); }
      }
      hide InInstance, Disjoint, AlignUp, RefAt;
      forall k | 1 <= k <= c'.refs
        ensures RefAt(ps', k)
      {
        if k <= c.refs { RefsStay(ps, q, k); } else { NewRef(ps, q, k); }
      }
    }
  }

  lemma {:induction false} ClassLaidOut(ps: seq<Placed>, c: Cursor, fields: seq<Field>)
    requires LaidOut(ps, c.refs, c.end) && forall i :: 0 <= i < |fields| ==> FieldOk(fields[i])
    ensures LaidOut(ps + PlacedFields(fields, Offsets(c, fields)), After(c, fields).refs, After(c, fields).end)
    decreases |fields|
  {
    hide LaidOut, AlignUp, Offset;
    if fields == [] {
      assert ps + [] == ps;
    } else {
      var f := fields[0];
      var offsets := Offsets(Step(c, f), fields[1..]);
      var rest := PlacedFields(fields[1..], offsets);
      assert Offsets(c, fields)[1..] == offsets && Offsets(c, fields)[0] == Offset(c, f);
      LaidOutStep(ps, c, f);
      if f.isStatic {
        assert [] + rest == rest;
        ClassLaidOut(ps, Step(c, f), fields[1..]);
      } else {
        var p := Placed(f, Offset(c, f));
        ClassLaidOut(ps + [p], Step(c, f), fields[1..]);
        assert ps + [p] + rest == ps + ([p] + rest);
      }
    }
  }

  type Chain = seq<seq<Field>>    // the fields of each class, the topmost class first

  ghost predicate ChainOk(chain: Chain) {
    forall i, j :: 0 <= i < |chain| && 0 <= j < |chain[i]| ==> FieldOk(chain[i][j])
  }

  /** The instance of the last class of a chain. */
  ghost function InstanceOf(chain: Chain): Instance
    requires ChainOk(chain)
  {
    var c := Final(chain);
    Instance(c.refs, c.end + c.refs * WORD)
  }

  ghost function Final(chain: Chain): Cursor
    requires ChainOk(chain)
  {
    if chain == [] then Start(None)
    else
      var c := Final(chain[..|chain| - 1]);
      After(c.(statics := 0), chain[|chain| - 1])
  }

  ghost function AllPlaced(chain: Chain): seq<Placed>
    requires ChainOk(chain)
  {
    if chain == [] then []
    else
      var own := chain[|chain| - 1];
      AllPlaced(chain[..|chain| - 1]) + PlacedFields(own, Offsets(Final(chain[..|chain| - 1]).(statics := 0), own))
  }

  /** A class starts where its superclass's instances end. */
  lemma StartsWhereSuperEnds(chain: Chain)
    requires ChainOk(chain)
    ensures Start(Some(InstanceOf(chain))) == Final(chain).(statics := 0)
  {
  }

  /** Along every superclass chain all instance fields, inherited and own, are laid out. */
  lemma {:induction false} ChainLaidOut(chain: Chain)
    requires ChainOk(chain)
    ensures LaidOut(AllPlaced(chain), Final(chain).refs, Final(chain).end)
  {
    if chain != [] {
      var upper := chain[..|chain| - 1];
      ChainLaidOut(upper);
      ClassLaidOut(AllPlaced(upper), Final(upper).(statics := 0), chain[|chain| - 1]);
    }
  }

  // ---------------------------------------------------------------------------
  // Static fields

  ghost predicate StaticsLaidOut(fields: seq<Field>, offsets: seq<int>, from: nat, end: nat) {
    && |offsets| == |fields|
    && (forall i :: 0 <= i < |fields| && fields[i].isStatic ==>
          FieldOk(fields[i]) && from <= offsets[i] && offsets[i] + fields[i].size <= end && offsets[i] % fields[i].align == 0)
    && (forall i, j :: 0 <= i < j < |fields| && fields[i].isStatic && fields[j].isStatic ==> offsets[i] + fields[i].size <= offsets[j])
  }

  lemma {:induction false} StaticFields(c: Cursor, fields: seq<Field>)
    requires forall i :: 0 <= i < |fields| ==> FieldOk(fields[i])
    ensures After(c, fields).statics >= c.statics
    ensures StaticsLaidOut(fields, Offsets(c, fields), c.statics, After(c, fields).statics)
    decreases |fields|
  {
    if fields != [] {
      var f := fields[0];
      AlignUpExact(c.statics, f.align);
      StaticFields(Step(c, f), fields[1..]);
      var rest := Offsets(Step(c, f), fields[1..]);
      assert Offsets(c, fields) == [Offset(c, f)] + rest;
      forall i | 0 < i < |fields|
        ensures fields[i] == fields[1..][i - 1] && Offsets(c, fields)[i] == rest[i - 1]
      {
      }
    }
  }

  // ---------------------------------------------------------------------------
  // No room is wasted

  /** Static fields are laid out among themselves, and so are instance fields that are no references. */
  predicate Among(f: Field, isStatic: bool) {
    f.isStatic == isStatic && (isStatic || !f.isRef)
  }

  /** `y` lies behind the start, and behind the first `i` fields as far as they are laid out together. */
  ghost predicate Behind(fields: seq<Field>, offsets: seq<int>, i: nat, isStatic: bool, from: nat, y: int)
    requires |offsets| == |fields| && i <= |fields|
  {
    from <= y && forall j :: 0 <= j < i && Among(fields[j], isStatic) ==> offsets[j] + fields[j].size <= y
  }

  /** Each field lies at the first aligned offset behind those before it, and the last one ends the room taken. */
  lemma {:induction false} Packed(c: Cursor, fields: seq<Field>, isStatic: bool, i: nat, y: int)
    requires (forall j :: 0 <= j < |fields| ==> FieldOk(fields[j])) && i <= |fields|
    requires Behind(fields, Offsets(c, fields), i, isStatic, if isStatic then c.statics else c.end, y)
    ensures i < |fields| && Among(fields[i], isStatic) && y % fields[i].align == 0 ==> Offsets(c, fields)[i] <= y
    ensures i == |fields| ==> (if isStatic then After(c, fields).statics else After(c, fields).end) <= y
    decreases i
  {
    if fields != [] {
      var f := fields[0];
      AlignUpExact(if isStatic then c.statics else c.end, f.align);
      hide AlignUp;
      var all, rest := Offsets(c, fields), Offsets(Step(c, f), fields[1..]);
      assert all == [Offset(c, f)] + rest;
      if i > 0 {
        forall j | 0 <= j < i - 1 && Among(fields[1..][j], isStatic)
          ensures rest[j] + fields[1..][j].size <= y
        {
          assert fields[1..][j] == fields[j + 1] && rest[j] == all[j + 1];
        }
        Packed(Step(c, f), fields[1..], isStatic, i - 1, y);
      }
    }
  }

  /** The references among the first `i` fields. */
  function RefsBefore(fields: seq<Field>, i: nat): nat
    requires i <= |fields|
    decreases i
  {
    if i == 0 then 0 else (if !fields[0].isStatic && fields[0].isRef then 1 else 0) + RefsBefore(fields[1..], i - 1)
  }

  /** References follow each other downward from where the superclass's end. */
  lemma {:induction false} Downward(c: Cursor, fields: seq<Field>, i: nat)
    requires (forall j :: 0 <= j < |fields| ==> FieldOk(fields[j])) && i < |fields| && !fields[i].isStatic && fields[i].isRef
    ensures Offsets(c, fields)[i] == -((c.refs + RefsBefore(fields, i) + 1) * WORD)
    decreases i
  {
    if i > 0 { Downward(Step(c, fields[0]), fields[1..], i - 1); }
  }

  // ---------------------------------------------------------------------------
  // The reference count kept in the lockword

  const MAX_REF_COUNT := 64

  /** The six bits of the lockword that count references. */
  function RefCountField(refs: nat): (r: nat)
    ensures r < MAX_REF_COUNT && r <= refs && (r < refs ==> r == MAX_REF_COUNT - 1)
  {
    if refs < MAX_REF_COUNT - 1 then refs else MAX_REF_COUNT - 1
  }

  /** The number of references to scan: the field, or, when it is at its largest, what the
      type (or the length of an array of references) says. */
  function NumRefs(field: nat, fromType: nat): nat {
    if field == MAX_REF_COUNT - 1 then fromType else field
  }

  /** The collector scans exactly the reference fields: the words of the window it walks are
      the reference fields of the object, also when the count does not fit in the lockword. */
  lemma ScannedExactly(chain: Chain, offset: int)
    requires ChainOk(chain)
    ensures var n := NumRefs(RefCountField(InstanceOf(chain).refs), InstanceOf(chain).refs);
            offset % WORD == 0 && -(n * WORD) <= offset < 0 <==> IsRefField(AllPlaced(chain), offset)
  {
    ChainLaidOut(chain);
    var ps, refs, end := AllPlaced(chain), Final(chain).refs, Final(chain).end;
    assert NumRefs(RefCountField(refs), refs) == refs;
    if offset % WORD == 0 && -(refs * WORD) <= offset < 0 {
      var k := -offset / WORD;
      assert offset == -(k * WORD) && 1 <= k <= refs;
      assert RefAt(ps, k);
    }
    if IsRefField(ps, offset) {
      var i :| 0 <= i < |ps| && ps[i].f.isRef && ps[i].offset == offset;
      assert InInstance(ps[i], refs, end);
    }
  }
}
