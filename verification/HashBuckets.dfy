/**
 The hash tables of methods and of types: a list is stripped of neighbours that repeat,
 linked into buckets, and laid out bucket by bucket with an empty cell after each.
 */
module HashBuckets {
  import opened Options

  const HASHSIZE := 128

  function Elements<T>(s: seq<T>): set<T> {
    set x | x in s
  }

  // ---------------------------------------------------------------------------
  // Removing neighbours that repeat

  /** Shift what follows `i` down over it. */
  method RemoveAt<T>(a: array<T>, i: nat, n: nat)
    requires i + 1 <= n <= a.Length
    modifies a
    ensures a[..n - 1] == old(a[..i]) + old(a[i + 1..n])
  {
    for k := i to n - 1
      invariant a[..i] == old(a[..i])
      invariant forall j :: i <= j < k ==> a[j] == old(a[j + 1])
      invariant forall j :: k <= j < n ==> a[j] == old(a[j])
    {
      a[k] := a[k + 1];
    }
    ghost var rest := old(a[i + 1..n]);
    assert forall j :: i <= j < n - 1 ==> a[j] == rest[j - i];
    assert a[..n - 1] == a[..i] + a[i..n - 1];
    assert a[i..n - 1] == rest;
  }

  /** What one pass over neighbours keeps: of two equal ones the second, after which
      the pass goes on past it without comparing it again. */
  function Squeeze<T(==)>(s: seq<T>): (r: seq<T>)
    ensures s != [] ==> r != [] && r[0] == s[0]
    ensures |r| <= |s|
  {
    if |s| < 2 then s
    else if s[0] == s[1] then [s[1]] + Squeeze(s[2..])
    else [s[0]] + Squeeze(s[1..])
  }

  /** The first `i` entries are settled, the rest still to be squeezed. */
  ghost function Pending<T>(s: seq<T>, i: nat): seq<T>
    requires i <= |s|
  {
    s[..i] + Squeeze(s[i..])
  }

  lemma PassedOver<T>(s: seq<T>, i: nat)
    requires i + 1 < |s| && s[i] != s[i + 1]
    ensures Pending(s, i + 1) == Pending(s, i)
  {
  }

  lemma DroppedOne<T>(s: seq<T>, t: seq<T>, i: nat)
    requires i + 1 < |s| && s[i] == s[i + 1] && t == s[..i] + s[i + 1..]
    ensures Pending(t, i + 1) == Pending(s, i)
  {
    assert t[i + 1..] == s[i..][2..];
    assert t[..i + 1] == s[..i] + [s[i + 1]];
  }

  lemma PendingEnds<T>(s: seq<T>, i: nat)
    requires i <= |s| <= i + 1
    ensures Pending(s, i) == s
  {
  }

  lemma PendingBegins<T>(s: seq<T>)
    ensures Pending(s, 0) == Squeeze(s)
  {
  }

  method Dedupe<T(==)>(a: array<T>, max: nat) returns (n: nat)
    requires max <= a.Length
    modifies a
    ensures n <= a.Length && a[..n] == Squeeze(old(a[..max]))
  {
    hide Squeeze, Pending;
    n := max;
    var i := 0;
    PendingBegins(a[..max]);
    while i < n - 1
      invariant 0 <= i <= n <= max
      invariant Pending(a[..n], i) == Squeeze(old(a[..max]))
      decreases n - i
    {
      ghost var s := a[..n];
      if a[i] == a[i + 1] {
        assert s[..i] == a[..i] && s[i + 1..] == a[i + 1..n];
        RemoveAt(a, i, n);
        n := n - 1;
        DroppedOne(s, a[..n], i);
      } else {
        PassedOver(s, i);
      }
      i := i + 1;
    }
    PendingEnds(a[..n], i);
  }

  lemma {:induction false} InSqueeze<T>(s: seq<T>, x: T)
    ensures x in Squeeze(s) <==> x in s
  {
    if |s| >= 2 {
      var rest := if s[0] == s[1] then s[2..] else s[1..];
      InSqueeze(rest, x);
      assert s == if s[0] == s[1] then [s[0], s[1]] + rest else [s[0]] + rest;
    }
  }

  /** The set of entries stays. */
  lemma SqueezeElements<T(!new)>(s: seq<T>)
    ensures Elements(Squeeze(s)) == Elements(s)
  {
    forall x: T
      ensures x in Squeeze(s) <==> x in s
    {
      InSqueeze(s, x);
    }
  }

  ghost predicate NoNeighboursEqual<T(!new)>(s: seq<T>) {
    forall i :: 0 < i < |s| ==> s[i - 1] != s[i]
  }

  ghost predicate RunOfThree<T(!new)>(s: seq<T>) {
    exists i :: 0 <= i < |s| - 2 && s[i] == s[i + 1] && s[i + 1] == s[i + 2]
  }

  lemma ConsNeighbours<T(!new)>(x: T, s: seq<T>)
    ensures NoNeighboursEqual([x] + s) <==> (s == [] || x != s[0]) && NoNeighboursEqual(s)
  {
    var r := [x] + s;
    if NoNeighboursEqual(r) {
      assert s != [] ==> r[1 - 1] != r[1];
      forall i | 0 < i < |s|
        ensures s[i - 1] != s[i]
      {
        assert r[i + 1 - 1] != r[i + 1];
      }
    }
  }

  /** The pass removes every repetition exactly when no entry stands three times in a row. */
  lemma {:induction false} SqueezeExact<T(!new)>(s: seq<T>)
    ensures NoNeighboursEqual(Squeeze(s)) <==> !RunOfThree(s)
  {
    if |s| >= 2 {
      var k := if s[0] == s[1] then 2 else 1;
      var rest := s[k..];
      SqueezeExact(rest);
      var r := Squeeze(s);
      assert r == [s[0]] + Squeeze(rest);
      ConsNeighbours(s[0], Squeeze(rest));
      if RunOfThree(s) {
        var i :| 0 <= i < |s| - 2 && s[i] == s[i + 1] && s[i + 1] == s[i + 2];
        if i >= k { assert rest[i - k] == rest[i - k + 1] && rest[i - k + 1] == rest[i - k + 2]; }
      }
      if RunOfThree(rest) {
        var i :| 0 <= i < |rest| - 2 && rest[i] == rest[i + 1] && rest[i + 1] == rest[i + 2];
        assert s[i + k] == s[i + k + 1] && s[i + k + 1] == s[i + k + 2];
      }
      if k == 2 && rest != [] && rest[0] == s[0] {
        assert s[0] == s[0 + 1] && s[0 + 1] == s[0 + 2];
      }
    }
  }

  /** Equal entries stand together, as they do once sorted. */
  ghost predicate Grouped<T(!new)>(s: seq<T>) {
    forall i, j, k :: 0 <= i < j < k < |s| && s[i] == s[k] ==> s[j] == s[i]
  }

  ghost predicate Distinct<T(!new)>(s: seq<T>) {
    forall i, j :: 0 <= i < j < |s| ==> s[i] != s[j]
  }

  lemma {:induction false} SqueezeGrouped<T(!new)>(s: seq<T>)
    requires Grouped(s)
    ensures Grouped(Squeeze(s))
  {
    if |s| >= 2 {
      var rest := if s[0] == s[1] then s[2..] else s[1..];
      SqueezeGrouped(rest);
      InSqueeze(rest, s[0]);
      HeadGrouped(s[0], Squeeze(rest));
    }
  }

  lemma HeadGrouped<T(!new)>(x: T, r: seq<T>)
    requires Grouped(r) && (x in r ==> r[0] == x)
    ensures Grouped([x] + r)
  {
    var s := [x] + r;
    forall i, j, k | 0 <= i < j < k < |s| && s[i] == s[k]
      ensures s[j] == s[i]
    {
      assert s[j] == r[j - 1] && s[k] == r[k - 1];
      if i > 0 { assert s[i] == r[i - 1]; } else { assert x in r; }
    }
  }

  /** Of a sorted list the pass leaves every entry once exactly when none stands three times. */
  lemma DistinctExact<T(!new)>(s: seq<T>)
    requires Grouped(s)
    ensures Distinct(Squeeze(s)) <==> !RunOfThree(s)
  {
    SqueezeExact(s);
    SqueezeGrouped(s);
    var r := Squeeze(s);
    hide Squeeze, RunOfThree;
    if NoNeighboursEqual(r) {
      forall i, j | 0 <= i < j < |r|
        ensures r[i] != r[j]
      {
        assert r[i + 1 - 1] != r[i + 1];
      }
    }
  }

  lemma RepetitionLeft()
    ensures Squeeze([5, 5, 5]) == [5, 5]
  {
  }

  // ---------------------------------------------------------------------------
  // Bucket lists: each entry leads to the one put in the same bucket before it

  function Bucket(hash: int): nat {
    hash % HASHSIZE
  }

  /** The entries among the first `n` in bucket `b`, the latest first. */
  ghost function Members(hashes: seq<int>, b: nat, n: nat): (r: seq<nat>)
    requires n <= |hashes|
    ensures forall i :: 0 <= i < |r| ==> r[i] < n && Bucket(hashes[r[i]]) == b
  {
    if n == 0 then [] else if Bucket(hashes[n - 1]) == b then [n - 1] + Members(hashes, b, n - 1) else Members(hashes, b, n - 1)
  }

  lemma {:induction false} MembersAll(hashes: seq<int>, b: nat, n: nat, k: nat)
    requires k < n <= |hashes| && Bucket(hashes[k]) == b
    ensures k in Members(hashes, b, n)
    decreases n
  {
    if k < n - 1 { MembersAll(hashes, b, n - 1, k); }
  }

  ghost predicate LinksDown(follows: seq<int>) {
    forall i :: 0 <= i < |follows| ==> -1 <= follows[i] < i
  }

  /** The list reached from a head. */
  ghost function Walk(follows: seq<int>, h: int): seq<nat>
    requires LinksDown(follows) && -1 <= h < |follows|
    decreases h + 1
  {
    if h == -1 then [] else [h] + Walk(follows, follows[h])
  }

  lemma {:induction false} WalkMore(follows: seq<int>, link: int, h: int)
    requires LinksDown(follows + [link]) && LinksDown(follows) && -1 <= h < |follows|
    ensures Walk(follows + [link], h) == Walk(follows, h)
    decreases h + 1
  {
    if h != -1 { WalkMore(follows, link, follows[h]); }
  }

  ghost predicate Linked(hashes: seq<int>, heads: seq<int>, follows: seq<int>, n: nat) {
    && n <= |hashes| && |heads| == HASHSIZE && |follows| == n && LinksDown(follows)
    && forall b :: 0 <= b < HASHSIZE ==> -1 <= heads[b] < n && Walk(follows, heads[b]) == Members(hashes, b, n)
  }

  /** How many buckets below `b` hold anything, and how many hold exactly one entry. */
  ghost function Nonempty(hashes: seq<int>, n: nat, b: nat): nat
    requires n <= |hashes|
  {
    if b == 0 then 0 else Nonempty(hashes, n, b - 1) + if Members(hashes, b - 1, n) == [] then 0 else 1
  }

  ghost function Singletons(hashes: seq<int>, n: nat, b: nat): nat
    requires n <= |hashes|
  {
    if b == 0 then 0 else Singletons(hashes, n, b - 1) + if |Members(hashes, b - 1, n)| == 1 then 1 else 0
  }

  lemma MembersMore(hashes: seq<int>, n: nat, b: nat)
    requires n < |hashes|
    ensures Members(hashes, b, n + 1) == if Bucket(hashes[n]) == b then [n] + Members(hashes, b, n) else Members(hashes, b, n)
  {
  }

  lemma {:induction false} NonemptyMore(hashes: seq<int>, n: nat, b: nat)
    requires n < |hashes|
    ensures var hit := Bucket(hashes[n]); var m := Members(hashes, hit, n);
            Nonempty(hashes, n + 1, b) == Nonempty(hashes, n, b) + (if hit < b && m == [] then 1 else 0)
    decreases b
  {
    hide Members, Bucket;
    if b > 0 {
      NonemptyMore(hashes, n, b - 1);
      MembersMore(hashes, n, b - 1);
    }
  }

  lemma {:induction false} SingletonsMore(hashes: seq<int>, n: nat, b: nat)
    requires n < |hashes|
    ensures var hit := Bucket(hashes[n]); var m := Members(hashes, hit, n);
            Singletons(hashes, n + 1, b) ==
              Singletons(hashes, n, b) + (if hit < b && m == [] then 1 else if hit < b && |m| == 1 then -1 else 0)
    decreases b
  {
    hide Members, Bucket;
    if b > 0 {
      SingletonsMore(hashes, n, b - 1);
      MembersMore(hashes, n, b - 1);
    }
  }

  lemma {:induction false} CountsNone(hashes: seq<int>, b: nat)
    ensures Nonempty(hashes, 0, b) == 0 && Singletons(hashes, 0, b) == 0
    decreases b
  {
    if b > 0 { CountsNone(hashes, b - 1); }
  }

  lemma LinkOne(hashes: seq<int>, heads: seq<int>, follows: seq<int>, n: nat)
    requires Linked(hashes, heads, follows, n) && n < |hashes|
    ensures var b := Bucket(hashes[n]);
            b < HASHSIZE && -1 <= heads[b] < n && Linked(hashes, heads[b := n], follows + [heads[b]], n + 1)
    ensures var b := Bucket(hashes[n]);
            (heads[b] == -1 <==> Members(hashes, b, n) == []) &&
            (heads[b] != -1 ==> (follows[heads[b]] == -1 <==> |Members(hashes, b, n)| == 1))
  {
    var b := Bucket(hashes[n]);
    var heads', follows' := heads[b := n], follows + [heads[b]];
    assert LinksDown(follows');
    forall c | 0 <= c < HASHSIZE
      ensures -1 <= heads'[c] < n + 1 && Walk(follows', heads'[c]) == Members(hashes, c, n + 1)
    {
      WalkMore(follows, heads[b], heads[c]);
      if c == b {
        assert follows'[n] == heads[b];
        WalkMore(follows, heads[b], heads[b]);
      }
    }
    if heads[b] != -1 {
      assert Walk(follows, heads[b]) == [heads[b]] + Walk(follows, follows[heads[b]]);
      assert |Walk(follows, heads[b])| == 1 <==> Walk(follows, follows[heads[b]]) == [];
    }
  }

  lemma LinkedNone(hashes: seq<int>, heads: seq<int>)
    requires |heads| == HASHSIZE && forall b :: 0 <= b < HASHSIZE ==> heads[b] == -1
    ensures Linked(hashes, heads, [], 0)
  {
  }

  /** Put entry `i` at the head of its bucket; whether it is the first there, or the second. */
  method LinkEntry(hashes: seq<int>, heads: array<int>, follows: array<int>, i: nat) returns (first: bool, second: bool)
    requires heads != follows && i < |hashes| == follows.Length && Linked(hashes, heads[..], follows[..i], i)
    modifies heads, follows
    ensures Linked(hashes, heads[..], follows[..i + 1], i + 1)
    ensures first <==> Members(hashes, Bucket(hashes[i]), i) == []
    ensures second <==> |Members(hashes, Bucket(hashes[i]), i)| == 1
  {
    ghost var heads0, follows0 := heads[..], follows[..i];
    LinkOne(hashes, heads0, follows0, i);
    hide Linked, Members, Walk, LinksDown, Bucket;
    var b := Bucket(hashes[i]);
    first := heads[b] == -1;
    second := !first && follows[heads[b]] == -1;
    follows[i] := heads[b];
    heads[b] := i;
    assert follows[..i + 1] == follows0 + [heads0[b]];
    assert heads[..] == heads0[b := i];
  }

  /** Link the entries into buckets, counting buckets with any and with exactly one entry. */
  method LinkBuckets(hashes: seq<int>, heads: array<int>, follows: array<int>) returns (nonempty: int, singletons: int)
    requires heads.Length == HASHSIZE && follows.Length == |hashes| && heads != follows
    modifies heads, follows
    ensures Linked(hashes, heads[..], follows[..], |hashes|)
    ensures nonempty == Nonempty(hashes, |hashes|, HASHSIZE) && singletons == Singletons(hashes, |hashes|, HASHSIZE)
  {
    hide Linked, Members, Walk, Nonempty, Singletons, LinksDown, Bucket;
    for b := 0 to HASHSIZE
      invariant forall c :: 0 <= c < b ==> heads[c] == -1
    {
      heads[b] := -1;
    }
    nonempty, singletons := 0, 0;
    CountsNone(hashes, HASHSIZE);
    LinkedNone(hashes, heads[..]);
    assert follows[..0] == [];
    for i := 0 to |hashes|
      invariant Linked(hashes, heads[..], follows[..i], i)
      invariant nonempty == Nonempty(hashes, i, HASHSIZE) && singletons == Singletons(hashes, i, HASHSIZE)
    {
      NonemptyMore(hashes, i, HASHSIZE);
      SingletonsMore(hashes, i, HASHSIZE);
      BucketBound(hashes[i]);
      var first, second := LinkEntry(hashes, heads, follows, i);
      if first {
        singletons := singletons + 1;
        nonempty := nonempty + 1;
      } else if second {
        singletons := singletons - 1;
      }
    }
    assert follows[..] == follows[..|hashes|];
  }

  lemma BucketBound(hash: int)
    ensures Bucket(hash) < HASHSIZE
  {
  }

  // ---------------------------------------------------------------------------
  // Laying the buckets out

  ghost function Total(hashes: seq<int>, n: nat, b: nat): nat
    requires n <= |hashes|
  {
    if b == 0 then 0 else Total(hashes, n, b - 1) + |Members(hashes, b - 1, n)|
  }

  lemma {:induction false} TotalMore(hashes: seq<int>, n: nat, b: nat)
    requires n < |hashes|
    ensures Total(hashes, n + 1, b) == Total(hashes, n, b) + if Bucket(hashes[n]) < b then 1 else 0
    decreases b
  {
    if b > 0 { TotalMore(hashes, n, b - 1); }
  }

  lemma {:induction false} TotalNone(hashes: seq<int>, b: nat)
    ensures Total(hashes, 0, b) == 0
    decreases b
  {
    if b > 0 { TotalNone(hashes, b - 1); }
  }

  /** Every entry is in exactly one bucket. */
  lemma {:induction false} TotalExact(hashes: seq<int>, n: nat)
    requires n <= |hashes|
    ensures Total(hashes, n, HASHSIZE) == n
  {
    if n == 0 {
      TotalNone(hashes, HASHSIZE);
    } else {
      TotalExact(hashes, n - 1);
      TotalMore(hashes, n - 1, HASHSIZE);
    }
  }

  lemma {:induction false} TotalsGrow(hashes: seq<int>, n: nat, b: nat, c: nat)
    requires n <= |hashes| && b <= c
    ensures Total(hashes, n, b) <= Total(hashes, n, c) && Nonempty(hashes, n, b) <= Nonempty(hashes, n, c)
    decreases c
  {
    if b < c { TotalsGrow(hashes, n, b, c - 1); }
  }

  /** From `start` on, the cells hold the bucket's entries and then an empty cell. */
  ghost predicate Run<T>(items: seq<T>, cells: seq<Option<T>>, start: int, members: seq<nat>) {
    if members == [] then start == -1
    else
      && 0 <= start && start + |members| < |cells|
      && (forall k :: 0 <= k < |members| ==> members[k] < |items| && cells[start + k] == Some(items[members[k]]))
      && cells[start + |members|] == None
  }

  lemma RunCell<T>(items: seq<T>, cells: seq<Option<T>>, start: int, members: seq<nat>, p: int)
    requires Run(items, cells, start, members) && members != [] && start <= p <= start + |members|
    ensures p < |cells| && (cells[p].Some? <==> p - start < |members|)
    ensures p - start < |members| ==> members[p - start] < |items| && cells[p] == Some(items[members[p - start]])
  {
    if p - start < |members| { assert cells[start + (p - start)] == Some(items[members[p - start]]); }
  }

  ghost predicate Laid<T>(items: seq<T>, hashes: seq<int>, table: seq<int>, cells: seq<Option<T>>) {
    && |items| == |hashes| && |table| == HASHSIZE
    && forall b :: 0 <= b < HASHSIZE ==> Run(items, cells, table[b], Members(hashes, b, |hashes|))
  }

  method FillBucket<T>(items: seq<T>, ghost members: seq<nat>, head: int, follows: seq<int>, cells: array<Option<T>>, start: nat)
      returns (end: nat)
    requires |follows| == |items| && LinksDown(follows) && -1 <= head < |follows| && Walk(follows, head) == members
    requires start + |members| <= cells.Length
    modifies cells
    ensures end == start + |members|
    ensures cells[..start] == old(cells[..start]) && cells[end..] == old(cells[end..])
    ensures forall k :: 0 <= k < |members| ==> members[k] < |items| && cells[start + k] == Some(items[members[k]])
  {
    end := start;
    var next := head;
    while next != -1
      invariant start <= end <= start + |members| && -1 <= next < |follows|
      invariant Walk(follows, next) == members[end - start..]
      invariant cells[..start] == old(cells[..start])
      invariant forall j :: end <= j < cells.Length ==> cells[j] == old(cells[j])
      invariant forall k :: 0 <= k < end - start ==> members[k] < |items| && cells[start + k] == Some(items[members[k]])
      decreases next
    {
      assert members[end - start..] == [next] + Walk(follows, follows[next]);
      assert members[end - start] == next && members[end - start..][1..] == members[end - start + 1..];
      cells[end] := Some(items[next]);
      end := end + 1;
      next := follows[next];
    }
  }

  /** The buckets below `b` are laid out in the cells below `ptr`, the rest is empty. */
  ghost predicate Filled<T>(items: seq<T>, hashes: seq<int>, table: seq<int>, cells: seq<Option<T>>, b: nat, ptr: int) {
    && |items| == |hashes| && |table| == HASHSIZE && b <= HASHSIZE
    && 0 <= ptr == Total(hashes, |hashes|, b) + Nonempty(hashes, |hashes|, b) <= |cells|
    && (forall j :: ptr <= j < |cells| ==> cells[j] == None)
    && (forall c :: 0 <= c < b ==> Run(items, cells, table[c], Members(hashes, c, |hashes|)))
    && (forall c :: 0 <= c < b && Members(hashes, c, |hashes|) != [] ==> table[c] + |Members(hashes, c, |hashes|)| < ptr)
  }

  lemma RunStays<T>(items: seq<T>, cells: seq<Option<T>>, cells': seq<Option<T>>, start: int, members: seq<nat>, end: nat)
    requires Run(items, cells, start, members) && |cells'| == |cells| && end <= |cells| && cells'[..end] == cells[..end]
    requires members != [] ==> start + |members| < end
    ensures Run(items, cells', start, members)
  {
  }

  lemma FilledEmpty<T>(items: seq<T>, hashes: seq<int>, table: seq<int>, cells: seq<Option<T>>, b: nat, ptr: int)
    requires Filled(items, hashes, table, cells, b, ptr) && b < HASHSIZE && Members(hashes, b, |hashes|) == []
    ensures Filled(items, hashes, table[b := -1], cells, b + 1, ptr)
  {
  }

  lemma NewRun<T>(items: seq<T>, cells: seq<Option<T>>, cells': seq<Option<T>>, start: nat, members: seq<nat>)
    requires members != [] && |cells'| == |cells| && start + |members| < |cells|
    requires forall k :: 0 <= k < |members| ==> members[k] < |items| && cells'[start + k] == Some(items[members[k]])
    requires cells'[start + |members|..] == cells[start + |members|..]
    requires forall j :: start <= j < |cells| ==> cells[j] == None
    ensures Run(items, cells', start, members)
    ensures forall j :: start + |members| <= j < |cells'| ==> cells'[j] == None
  {
  }

  lemma FilledMore<T>(items: seq<T>, hashes: seq<int>, table: seq<int>, cells: seq<Option<T>>, b: nat, ptr: nat,
                      cells': seq<Option<T>>, members: seq<nat>)
    requires Filled(items, hashes, table, cells, b, ptr) && b < HASHSIZE
    requires members == Members(hashes, b, |hashes|) && members != []
    requires |cells'| == |cells| && ptr + |members| < |cells|
    requires cells'[..ptr] == cells[..ptr] && cells'[ptr + |members|..] == cells[ptr + |members|..]
    requires forall k :: 0 <= k < |members| ==> members[k] < |items| && cells'[ptr + k] == Some(items[members[k]])
    ensures Filled(items, hashes, table[b := ptr], cells', b + 1, ptr + |members| + 1)
  {
    hide Members, Run;
    NewRun(items, cells, cells', ptr, members);
    forall c | 0 <= c < b
      ensures Run(items, cells', table[c], Members(hashes, c, |hashes|))
    {
      RunStays(items, cells, cells', table[c], Members(hashes, c, |hashes|), ptr);
    }
  }

  /** Each bucket's run of cells, one after the other; the cells are used up exactly. */
  method FillTable<T>(items: seq<T>, hashes: seq<int>, heads: seq<int>, follows: seq<int>, table: array<int>, cells: array<Option<T>>)
    requires |items| == |hashes| && Linked(hashes, heads, follows, |hashes|)
    requires table.Length == HASHSIZE && cells.Length == |items| + Nonempty(hashes, |hashes|, HASHSIZE)
    requires (forall j :: 0 <= j < cells.Length ==> cells[j] == None) && (cells as object) != table
    modifies table, cells
    ensures Laid(items, hashes, table[..], cells[..])
  {
    hide Members, LinksDown, Walk, Run;
    var n := |hashes|;
    var ptr := 0;
    TotalExact(hashes, n);
    for b := 0 to HASHSIZE
      invariant Filled(items, hashes, table[..], cells[..], b, ptr)
    {
      ghost var before, table0 := cells[..], table[..];
      FitsMore(hashes, b);
      WalkEmpty(follows, heads[b]);
      if heads[b] == -1 {
        table[b] := -1;
        FilledEmpty(items, hashes, table0, before, b, ptr);
      } else {
        table[b] := ptr;
        var end := FillBucket(items, Members(hashes, b, n), heads[b], follows, cells, ptr);
        FilledMore(items, hashes, table0, before, b, ptr, cells[..], Members(hashes, b, n));
        ptr := end + 1;
      }
    }
    assert ptr == cells.Length;
  }

  lemma FitsMore(hashes: seq<int>, b: nat)
    requires b < HASHSIZE
    ensures var n := |hashes|;
            Total(hashes, n, b) + Nonempty(hashes, n, b) + |Members(hashes, b, n)| + (if Members(hashes, b, n) == [] then 0 else 1)
              <= Total(hashes, n, HASHSIZE) + Nonempty(hashes, n, HASHSIZE)
  {
    TotalsGrow(hashes, |hashes|, b + 1, HASHSIZE);
  }

  lemma WalkEmpty(follows: seq<int>, h: int)
    requires LinksDown(follows) && -1 <= h < |follows|
    ensures Walk(follows, h) == [] <==> h == -1
  {
  }
}
