/** Sorted lists of references: inserting one, and merging a list into a loader's list in place. */
module RefLists {
  import opened Options

  type Ref = nat

  ghost predicate Sorted(s: seq<Ref>) {
    forall i, j :: 0 <= i < j < |s| ==> s[i] < s[j]
  }

  function Elements(s: seq<Ref>): set<Ref> {
    set x | x in s
  }

  lemma FirstIn(s: seq<Ref>)
    requires s != []
    ensures s[0] in s
  {
  }

  /** A sorted list is determined by its elements. */
  lemma {:induction false} SortedUnique(s: seq<Ref>, t: seq<Ref>)
    requires Sorted(s) && Sorted(t) && forall x :: x in s <==> x in t
    ensures s == t
    decreases |s|
  {
    if s == [] {
      if t != [] { FirstIn(t); }
    } else {
      assert s[|s| - 1] in t && t != [];
      assert t[|t| - 1] in s;
      var s', t' := s[..|s| - 1], t[..|t| - 1];
      assert s[|s| - 1] == t[|t| - 1];
      forall x
        ensures x in s' <==> x in t'
      {
        assert x in s <==> x in s' || x == s[|s| - 1];
        assert x in t <==> x in t' || x == t[|t| - 1];
      }
      SortedUnique(s', t');
    }
  }

  // ---------------------------------------------------------------------------
  // Inserting

  const REFS_AT_A_TIME := 32

  class RefList {
    var refs: array<Ref>
    var num: nat

    ghost predicate Valid()
      reads this, refs
    {
      num <= refs.Length && Sorted(refs[..num])
    }

    constructor ()
      ensures Valid() && num == 0 && fresh(refs)
    {
      refs := new Ref[0];
      num := 0;
    }

    /** Where to insert a reference, unless it is there. */
    method Find(ref: Ref) returns (found: bool, i: nat)
      requires Valid()
      ensures found <==> ref in refs[..num]
      ensures !found ==> i <= num && (forall j :: 0 <= j < i ==> refs[j] < ref) && (forall j :: i <= j < num ==> ref < refs[j])
    {
      i := 0;
      var lim := num;
      ghost var s := refs[..num];
      while lim != 0
        invariant 0 <= lim && i + lim <= num
        invariant forall j :: 0 <= j < i ==> s[j] < ref
        invariant forall j :: i + lim <= j < num ==> ref < s[j]
        decreases lim
      {
        var j := i + lim / 2;
        assert refs[j] == s[j];
        if ref == refs[j] { return true, j; }
        if ref > refs[j] {
          i := j + 1;
          lim := lim - 1;
        }
        lim := lim / 2;
      }
      found := false;
    }

    method Grow()
      requires Valid()
      modifies this
      ensures Valid() && fresh(refs) && num == old(num) < refs.Length && refs[..num] == old(refs[..num])
    {
      var longer := new Ref[num + REFS_AT_A_TIME];
      for k := 0 to num
        invariant refs == old(refs) && num == old(num)
        invariant longer[..k] == refs[..k]
      {
        longer[k] := refs[k];
      }
      refs := longer;
    }

    /** Add one reference, keeping the list sorted and without repetition. */
    method AddRef(ref: Ref)
      requires Valid()
      modifies this, refs
      ensures Valid() && (refs == old(refs) || fresh(refs))
      ensures forall x :: x in refs[..num] <==> x in old(refs[..num]) || x == ref
      ensures num == old(num) + if ref in old(refs[..num]) then 0 else 1
    {
      var found, i := Find(ref);
      if found { return; }
      ghost var s := refs[..num];
      if num == refs.Length { Grow(); }
      ShiftUp(i);
      refs[i] := ref;
      num := num + 1;
      Inserted(s, refs[..num], i, ref);
    }

    /** Make room at `i`. */
    method ShiftUp(i: nat)
      requires i <= num < refs.Length
      modifies refs
      ensures forall k :: 0 <= k < i ==> refs[k] == old(refs[k])
      ensures forall k :: i < k <= num ==> refs[k] == old(refs[k - 1])
    {
      var k := num;
      while k > i
        invariant i <= k <= num
        invariant forall j :: 0 <= j <= k && j < num ==> refs[j] == old(refs[j])
        invariant forall j :: k < j <= num ==> refs[j] == old(refs[j - 1])
      {
        refs[k] := refs[k - 1];
        k := k - 1;
      }
    }
  }

  lemma Inserted(s: seq<Ref>, t: seq<Ref>, i: nat, ref: Ref)
    requires Sorted(s) && i <= |s| && |t| == |s| + 1 && t[i] == ref
    requires forall k :: 0 <= k < i ==> t[k] == s[k] < ref
    requires forall k :: i < k <= |s| ==> t[k] == s[k - 1] && ref < s[k - 1]
    ensures Sorted(t) && forall x :: x in t <==> x in s || x == ref
  {
    forall x | x in s
      ensures x in t
    {
      var k :| 0 <= k < |s| && s[k] == x;
      assert t[if k < i then k else k + 1] == x;
    }
  }

  // ---------------------------------------------------------------------------
  // Merging in place, from the back

  /** The cells from `pos` on hold the merge of what has been read of both lists; what is
      still unread of the loader's list is in place below. */
  ghost predicate Merged(a: seq<Ref>, b: seq<Ref>, cells: seq<Ref>, i1: nat, i2: nat, pos: nat) {
    && i1 <= |a| && i2 <= |b| && i1 + i2 <= pos <= |cells| == |a| + |b|
    && cells[..i2] == b[..i2] && Sorted(cells[pos..])
    && (forall x :: x in cells[pos..] <==> x in a[i1..] || x in b[i2..])
    && (forall k :: pos <= k < |cells| ==> (i1 > 0 ==> a[i1 - 1] < cells[k]) && (i2 > 0 ==> b[i2 - 1] < cells[k]))
  }

  /** The next larger of the two last unread entries goes in front of what is merged. */
  lemma MergeOne(a: seq<Ref>, b: seq<Ref>, cells: seq<Ref>, i1: nat, i2: nat, pos: nat, j1: nat, j2: nat)
    requires Sorted(a) && Sorted(b) && Merged(a, b, cells, i1, i2, pos) && i1 > 0 && i2 > 0
    requires j1 == (if a[i1 - 1] >= b[i2 - 1] then i1 - 1 else i1)
    requires j2 == (if b[i2 - 1] >= a[i1 - 1] then i2 - 1 else i2)
    ensures var x := if a[i1 - 1] >= b[i2 - 1] then a[i1 - 1] else b[i2 - 1];
            pos > 0 && Merged(a, b, cells[pos - 1 := x], j1, j2, pos - 1)
  {
    var x := if a[i1 - 1] >= b[i2 - 1] then a[i1 - 1] else b[i2 - 1];
    var cells' := cells[pos - 1 := x];
    assert cells'[pos - 1..] == [x] + cells[pos..];
    assert cells'[..j2] == b[..j2];
    TakenOne(a, i1, j1);
    TakenOne(b, i2, j2);
    forall y
      ensures y in cells'[pos - 1..] <==> y in a[j1..] || y in b[j2..]
    {
      assert y in cells'[pos - 1..] <==> y == x || y in cells[pos..];
    }
    assert Sorted(cells'[pos - 1..]);
  }

  /** What taking at most one entry off the unread part adds to the read part. */
  lemma TakenOne(s: seq<Ref>, i: nat, j: nat)
    requires 0 < i <= |s| && i - 1 <= j <= i
    ensures forall y :: y in s[j..] <==> y in s[i..] || (j < i && y == s[i - 1])
  {
  }

  /** Put the larger of the two last unread entries in front of what is merged, equal ones once. */
  method MergeLast(a: seq<Ref>, ghost b: seq<Ref>, cells: array<Ref>, i1: nat, i2: nat, pos: nat) returns (j1: nat, j2: nat, p: nat)
    requires Sorted(a) && Sorted(b) && Merged(a, b, cells[..], i1, i2, pos) && 0 < i1 <= |a| && 0 < i2 <= |b|
    modifies cells
    ensures Merged(a, b, cells[..], j1, j2, p) && j1 <= i1 && j2 <= i2 && j1 + j2 < i1 + i2
  {
    ghost var before := cells[..];
    Unread(a, b, before, i1, i2, pos);
    MergeOne(a, b, before, i1, i2, pos, if a[i1 - 1] >= b[i2 - 1] then i1 - 1 else i1, if b[i2 - 1] >= a[i1 - 1] then i2 - 1 else i2);
    hide Merged, Sorted;
    p, j1, j2 := pos - 1, i1, i2;
    if a[i1 - 1] > cells[i2 - 1] {
      j1 := i1 - 1;
      cells[p] := a[j1];
    } else if a[i1 - 1] < cells[i2 - 1] {
      j2 := i2 - 1;
      cells[p] := cells[j2];
    } else {
      j1, j2 := i1 - 1, i2 - 1;
      cells[p] := a[j1];
    }
    assert cells[..] == before[p := if a[i1 - 1] >= b[i2 - 1] then a[i1 - 1] else b[i2 - 1]];
  }

  /** Merge backwards until one of the lists is used up. */
  method MergeBack(a: seq<Ref>, cells: array<Ref>, n: nat) returns (i1: nat, i2: nat, pos: nat)
    requires Sorted(a) && n <= cells.Length == n + |a| && Sorted(cells[..n])
    modifies cells
    ensures Merged(a, old(cells[..n]), cells[..], i1, i2, pos) && (i1 == 0 || i2 == 0)
  {
    hide Merged, Sorted;
    ghost var b := cells[..n];
    i1, i2, pos := |a|, n, cells.Length;
    MergeBegins(a, b, cells[..]);
    while i1 > 0 && i2 > 0
      invariant 0 <= i1 <= |a| && 0 <= i2 <= n && Merged(a, b, cells[..], i1, i2, pos)
      decreases i1 + i2
    {
      i1, i2, pos := MergeLast(a, b, cells, i1, i2, pos);
    }
  }

  /** Copy what is left of the new list to the front. */
  method CopyFront(a: seq<Ref>, cells: array<Ref>, i1: nat)
    requires i1 <= |a| && i1 <= cells.Length
    modifies cells
    ensures forall k :: 0 <= k < cells.Length ==> cells[k] == if k < i1 then a[k] else old(cells[k])
  {
    for k := 0 to i1
      invariant forall j :: 0 <= j < cells.Length ==> cells[j] == if j < k then a[j] else old(cells[j])
    {
      cells[k] := a[k];
    }
  }

  /** Move everything from `pos` on down to `to`. */
  method MoveDown(cells: array<Ref>, to: nat, pos: nat)
    requires to <= pos <= cells.Length
    modifies cells
    ensures forall k :: 0 <= k < to ==> cells[k] == old(cells[k])
    ensures forall k :: to <= k < to + (cells.Length - pos) ==> cells[k] == old(cells[k + (pos - to)])
  {
    var gap := pos - to;
    for k := to to cells.Length - gap
      invariant forall j :: 0 <= j < to ==> cells[j] == old(cells[j])
      invariant forall j :: to <= j < k ==> cells[j] == old(cells[j + gap])
      invariant forall j :: k <= j < cells.Length ==> cells[j] == old(cells[j])
    {
      cells[k] := cells[k + gap];
    }
  }

  /** Close the gap between what is in front and what was merged at the back. */
  method CloseGap(cells: array<Ref>, to: nat, pos: nat) returns (num: nat)
    requires to <= pos <= cells.Length
    modifies cells
    ensures num <= cells.Length && cells[..num] == old(cells[..to]) + old(cells[pos..])
  {
    num := cells.Length;
    if pos > to {
      MoveDown(cells, to, pos);
      num := num - (pos - to);
    }
    assert |old(cells[..to]) + old(cells[pos..])| == num;
  }

  /** Merge `a` into the first `n` of `cells`, which has room for both. */
  method Merge(a: seq<Ref>, cells: array<Ref>, n: nat) returns (num: nat)
    requires Sorted(a) && n <= cells.Length == n + |a| && Sorted(cells[..n])
    modifies cells
    ensures num <= cells.Length && Sorted(cells[..num])
    ensures forall x :: x in cells[..num] <==> x in a || x in old(cells[..n])
  {
    hide Merged, Sorted;
    ghost var b := cells[..n];
    var i1, i2, pos := MergeBack(a, cells, n);
    ghost var merged := cells[..];
    Unread(a, b, merged, i1, i2, pos);
    ghost var low := if i1 > 0 then a[..i1] else b[..i2];
    MergeEnds(a, b, merged, i1, i2, pos, low + merged[pos..]);
    if i1 > 0 {
      CopyFront(a, cells, i1);
      i2 := i1;
    }
    assert cells[..i2] == low && cells[pos..] == merged[pos..];
    num := CloseGap(cells, i2, pos);
  }

  lemma MergeBegins(a: seq<Ref>, b: seq<Ref>, cells: seq<Ref>)
    requires |cells| == |a| + |b| && cells[..|b|] == b
    ensures Merged(a, b, cells, |a|, |b|, |cells|)
  {
  }

  lemma Unread(a: seq<Ref>, b: seq<Ref>, cells: seq<Ref>, i1: nat, i2: nat, pos: nat)
    requires Merged(a, b, cells, i1, i2, pos)
    ensures i1 <= |a| && i1 + i2 <= pos <= |cells| == |a| + |b|
    ensures i2 <= |cells| && i2 <= |b| && cells[..i2] == b[..i2] && forall k :: 0 <= k < i2 ==> cells[k] == b[k]
  {
  }

  /** What is unread of the one list that is left, followed by what is merged, is the union. */
  lemma MergeEnds(a: seq<Ref>, b: seq<Ref>, cells: seq<Ref>, i1: nat, i2: nat, pos: nat, r: seq<Ref>)
    requires Sorted(a) && Sorted(b) && Merged(a, b, cells, i1, i2, pos) && (i1 == 0 || i2 == 0)
    requires r == (if i1 > 0 then a[..i1] else b[..i2]) + cells[pos..]
    ensures Sorted(r) && forall x :: x in r <==> x in a || x in b
  {
  }
}
