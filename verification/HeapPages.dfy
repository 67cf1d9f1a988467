/** The pages of the heap, and allocation of runs of pages and of small blocks. */
module HeapPages {
  import opened Options
  import opened HeapSizes
  import opened Products

  /** What the first word of a page says. The second and later pages of a large object
      have no such word: their memory belongs to the object. */
  datatype Page = Free | Alloc(n: nat) | Small(bsi: nat, next: Option<nat>) | Large(n: nat) | Data

  datatype Block = FreeBlock | AllocBlock | Object(id: nat)

  function Length(p: Page): nat {
    match p case Alloc(n) => n case Large(n) => n case _ => 1
  }

  /** The pages below `n` are cut into free pages, small pages, and runs; `owner` gives
      the first page of the piece each page lies in. All pages of a run being allocated say so. */
  ghost predicate Cut(pages: seq<Page>, owner: seq<nat>, n: nat) {
    && |owner| == n <= |pages|
    && (forall i :: 0 <= i < n ==> owner[i] <= i && owner[owner[i]] == owner[i] && i < owner[i] + Length(pages[owner[i]]))
    && (forall i :: 0 <= i < n && owner[i] == i ==> !pages[i].Data? && 0 < Length(pages[i]) <= n - i)
    && (forall i, j :: 0 <= i <= j < n && owner[i] == i && j < i + Length(pages[i]) ==> owner[j] == i)
    && (forall i :: 0 <= i < n && pages[owner[i]].Alloc? ==> pages[i].Alloc?)
  }

  /** A piece starts at `i`, or it is the end. */
  ghost predicate Boundary(owner: seq<nat>, i: nat) {
    i == |owner| || (i < |owner| && owner[i] == i)
  }

  ghost predicate IsFree(pages: seq<Page>, owner: seq<nat>, i: nat) {
    i < |owner| && |owner| <= |pages| && owner[i] == i && pages[i].Free?
  }

  lemma PieceOf(pages: seq<Page>, owner: seq<nat>, n: nat, k: nat)
    requires Cut(pages, owner, n) && k < n
    ensures |owner| == n && owner[k] <= k && owner[owner[k]] == owner[k] && k < owner[k] + Length(pages[owner[k]])
  {
  }

  lemma PieceOwns(pages: seq<Page>, owner: seq<nat>, n: nat, i: nat, j: nat)
    requires Cut(pages, owner, n) && i <= j < n && owner[i] == i && j < i + Length(pages[i])
    ensures owner[j] == i
  {
  }

  lemma NextBoundary(pages: seq<Page>, owner: seq<nat>, n: nat, i: nat)
    requires Cut(pages, owner, n) && i < n && owner[i] == i
    ensures i + Length(pages[i]) <= n && Boundary(owner, i + Length(pages[i]))
  {
  }

  /** After the pages of a free run have become one run being allocated. */
  ghost function Claimed(pages: seq<Page>, i: nat, n: nat): seq<Page>
    requires i + n <= |pages|
  {
    seq(|pages|, k requires 0 <= k < |pages| => if i <= k < i + n then Alloc(n - (k - i)) else pages[k])
  }

  ghost function Owned(owner: seq<nat>, i: nat, n: nat): seq<nat>
    requires i + n <= |owner|
  {
    seq(|owner|, k requires 0 <= k < |owner| => if i <= k < i + n then i else owner[k])
  }

  ghost predicate FreeRun(pages: seq<Page>, owner: seq<nat>, i: nat, n: nat) {
    i + n <= |owner| && forall k :: i <= k < i + n ==> IsFree(pages, owner, k)
  }

  lemma ClaimedFacts(pages: seq<Page>, owner: seq<nat>, i: nat, len: nat)
    requires i + len <= |owner| <= |pages|
    ensures var pages', owner' := Claimed(pages, i, len), Owned(owner, i, len);
            && |pages'| == |pages| && |owner'| == |owner|
            && (forall k :: 0 <= k < |pages| ==> pages'[k] == if i <= k < i + len then Alloc(len - (k - i)) else pages[k])
            && (forall k :: 0 <= k < |owner| ==> owner'[k] == if i <= k < i + len then i else owner[k])
  {
  }

  /** A page outside a free run is not in a piece that starts in the run. */
  lemma OutsideRun(pages: seq<Page>, owner: seq<nat>, n: nat, i: nat, len: nat, k: nat)
    requires Cut(pages, owner, n) && FreeRun(pages, owner, i, len) && k < n && !(i <= k < i + len)
    ensures owner[k] <= k && owner[owner[k]] == owner[k] && k < owner[k] + Length(pages[owner[k]]) && !(i <= owner[k] < i + len)
  {
    PieceOf(pages, owner, n, k);
    assert i <= owner[k] < i + len ==> IsFree(pages, owner, owner[k]);
  }

  lemma ClaimedCut(pages: seq<Page>, owner: seq<nat>, n: nat, i: nat, len: nat)
    requires Cut(pages, owner, n) && len > 0 && FreeRun(pages, owner, i, len)
    ensures Cut(Claimed(pages, i, len), Owned(owner, i, len), n)
  {
    var pages', owner' := Claimed(pages, i, len), Owned(owner, i, len);
    ClaimedFacts(pages, owner, i, len);
    hide Claimed, Owned;
    forall k | 0 <= k < n
      ensures owner'[k] <= k && owner'[owner'[k]] == owner'[k] && k < owner'[k] + Length(pages'[owner'[k]])
      ensures pages'[owner'[k]].Alloc? ==> pages'[k].Alloc?
    {
      if !(i <= k < i + len) { OutsideRun(pages, owner, n, i, len, k); }
    }
    forall a, b | 0 <= a <= b < n && owner'[a] == a && b < a + Length(pages'[a])
      ensures owner'[b] == a
    {
      if a != i {
        PieceOwns(pages, owner, n, a, b);
        assert i <= b < i + len ==> IsFree(pages, owner, b);
      }
    }
  }

  /** Some page from `k` on, among `n` and below `limit`, is not free. */
  ghost predicate BlockedFrom(pages: seq<Page>, owner: seq<nat>, k: nat, n: nat, limit: nat) {
    exists q :: k <= q < k + n && q < limit && !IsFree(pages, owner, q)
  }

  lemma PieceStarts(pages: seq<Page>, owner: seq<nat>, n: nat, i: nat)
    requires Cut(pages, owner, n) && i < n && Boundary(owner, i)
    ensures |owner| == n && n <= |pages| && owner[i] == i && !pages[i].Data? && 0 < Length(pages[i]) <= n - i
  {
  }

  /** Growing the heap adds free pages. */
  ghost function Extended(owner: seq<nat>, n: nat): seq<nat> {
    owner + seq(n, k requires 0 <= k < n => |owner| + k)
  }

  lemma ExtendedCut(pages: seq<Page>, pages': seq<Page>, owner: seq<nat>, n: nat, more: nat)
    requires Cut(pages, owner, n) && |pages'| == |pages| && n + more <= |pages|
    requires forall k :: 0 <= k < |pages| ==> pages'[k] == if n <= k < n + more then Free else pages[k]
    ensures Cut(pages', Extended(owner, more), n + more)
  {
  }

  const INIT_BYTES := 2 * 1024 * 1024

  class Heap {
    const sizes: seq<BlockSize>
    const pages: array<Page>
    const blocks: array<seq<Block>>
    const hints: array<Option<(nat, nat)>>
    const lists: array<Option<nat>>
    var numPages: nat
    var nextPage: nat
    ghost var owner: seq<nat>
    ghost var chains: seq<seq<nat>>

    /** The pages are cut, and the search starts at a boundary. */
    ghost predicate PagesOk()
      reads this, pages
    {
      Cut(pages[..], owner, numPages) && Boundary(owner, nextPage) && nextPage <= numPages
    }

    // -------------------------------------------------------------------------
    // Runs of pages

    /** How many pages to put into use next. */
    function Increase(): nat
      reads this
    {
      if numPages == 0 then INIT_BYTES / PAGE_SIZE else pages.Length / 8
    }

    method Grow()
      requires PagesOk() && numPages < pages.Length && (numPages > 0 ==> pages.Length >= 8)
      modifies pages, this`numPages, this`owner
      ensures PagesOk() && old(numPages) < numPages <= pages.Length && (pages.Length >= 8 || numPages == pages.Length)
      ensures owner == Extended(old(owner), numPages - old(numPages))
      ensures forall k :: 0 <= k < pages.Length ==> pages[k] == if old(numPages) <= k < numPages then Free else old(pages[k])
    {
      hide Cut, Extended;
      var increase := Increase();
      if numPages + increase > pages.Length { increase := pages.Length - numPages; }
      for i := 0 to increase
        invariant owner == old(owner) && numPages == old(numPages)
        invariant forall k :: 0 <= k < pages.Length ==> pages[k] == if numPages <= k < numPages + i then Free else old(pages[k])
      {
        pages[numPages + i] := Free;
      }
      ExtendedCut(old(pages[..]), pages[..], owner, numPages, increase);
      StillBoundary(owner, increase, nextPage);
      owner := Extended(owner, increase);
      numPages := numPages + increase;
    }

    /** Try to take `n` pages from `i` on; on meeting a page that is not free, undo and say
        where to look next. The memory of large objects is never taken for a page word. */
    method Claim(i: nat, n: nat) returns (got: bool, next: nat)
      requires Cut(pages[..], owner, numPages) && Boundary(owner, i) && n > 0 && i + n <= numPages
      modifies pages, this`owner
      ensures Cut(pages[..], owner, numPages) && Boundary(owner, next) && i < next <= numPages
      ensures got <==> FreeRun(old(pages[..]), old(owner), i, n)
      ensures got ==> pages[..] == Claimed(old(pages[..]), i, n) && owner == Owned(old(owner), i, n) && next == i + n
      ensures !got ==> pages[..] == old(pages[..]) && owner == old(owner)
      ensures !got ==> forall k :: i <= k < next ==> BlockedFrom(pages[..], owner, k, n, next)
    {
      hide Cut, BlockedFrom;
      ghost var p0 := pages[..];
      OwnerLength(p0, owner, numPages);
      var j := 0;
      while j < n
        invariant j <= n && owner == old(owner) && FreeRun(p0, owner, i, j) && Boundary(owner, i + j)
        invariant forall k :: 0 <= k < pages.Length ==> pages[k] == if i <= k < i + j then Alloc(n - (k - i)) else p0[k]
      {
        PieceStarts(p0, owner, numPages, i + j);
        NextBoundary(p0, owner, numPages, i + j);
        if pages[i + j] != Free {
          next := i + j + match pages[i + j] case Small(_, _) => 1 case Large(k) => k case Alloc(k) => k;
          Blocked(p0, owner, numPages, i, j, n, next);
          Undo(i, j, n, p0);
          assert !IsFree(p0, owner, i + j);
          return false, next;
        }
        pages[i + j] := Alloc(n - j);
        j := j + 1;
      }
      ClaimedCut(p0, owner, numPages, i, n);
      assert pages[..] == Claimed(p0, i, n);
      AfterRun(p0, owner, numPages, i, n);
      owner := Owned(owner, i, n);
      got, next := true, i + n;
    }

    /** Give back the first `j` pages of a run, the last one first. */
    method Undo(i: nat, j: nat, n: nat, ghost p0: seq<Page>)
      requires i + j <= pages.Length == |p0| && FreeRun(p0, owner, i, j) && j <= n
      requires forall k :: 0 <= k < pages.Length ==> pages[k] == if i <= k < i + j then Alloc(n - (k - i)) else p0[k]
      modifies pages
      ensures pages[..] == p0
    {
      var left := j;
      while left > 0
        invariant left <= j
        invariant forall k :: 0 <= k < pages.Length ==> pages[k] == if i <= k < i + left then Alloc(n - (k - i)) else p0[k]
      {
        left := left - 1;
        assert IsFree(p0, owner, i + left);
        pages[i + left] := Free;
      }
    }

    /** Find the first run of `n` free pages at or after the place the last search ended.
        None means that a collection is needed: the heap is fully in use from there on. */
    method AllocPages(n: nat, reserved: nat) returns (r: Option<nat>)
      requires PagesOk() && numPages <= pages.Length && n > 0
      requires numPages > 0 ==> pages.Length >= 8 || numPages == pages.Length
      modifies pages, this`numPages, this`owner, this`nextPage
      ensures PagesOk() && old(numPages) <= numPages <= pages.Length
      ensures numPages > 0 ==> pages.Length >= 8 || numPages == pages.Length
      ensures match r
              case None =>
                && numPages == pages.Length && nextPage == old(nextPage)
                && pages[..] == Grown(old(pages[..]), old(numPages), numPages) && owner == Extended(old(owner), numPages - old(numPages))
                && forall k :: nextPage <= k && k + n <= numPages - reserved ==> !FreeRun(pages[..], owner, k, n)
              case Some(i) =>
                var before, owner0 := Grown(old(pages[..]), old(numPages), numPages), Extended(old(owner), numPages - old(numPages));
                && FreeRun(before, owner0, i, n) && old(nextPage) <= i
                && pages[..] == Claimed(before, i, n) && owner == Owned(owner0, i, n) && nextPage == i + n
                && forall k :: old(nextPage) <= k < i ==> !FreeRun(before, owner0, k, n)
    {
      hide Cut, BlockedFrom, Extended, Owned, Claimed, FreeRun, IsFree, Grown, Boundary;
      var i: nat := nextPage;
      OwnerLength(pages[..], owner, numPages);
      GrownNothing(pages[..], numPages, owner);
      while true
        invariant Cut(pages[..], owner, numPages) && Boundary(owner, nextPage) && Boundary(owner, i) && old(nextPage) == nextPage <= i <= numPages
        invariant old(numPages) <= numPages <= pages.Length
        invariant numPages > 0 ==> pages.Length >= 8 || numPages == pages.Length
        invariant pages[..] == Grown(old(pages[..]), old(numPages), numPages) && owner == Extended(old(owner), numPages - old(numPages))
        invariant forall k :: nextPage <= k < i ==> BlockedFrom(pages[..], owner, k, n, i)
        decreases pages.Length - numPages, numPages - i
      {
        if i + n > numPages - reserved {
          if numPages != pages.Length {
            ghost var p0, o0, n0 := pages[..], owner, numPages;
            OwnerLength(p0, o0, n0);
            Grow();
            OwnerLength(pages[..], owner, numPages);
            ExtendedKeeps(o0, numPages - n0);
            StillBoundary(o0, numPages - n0, i);
            GrownIs(p0, n0, pages[..], numPages);
            GrownMore(old(pages[..]), old(owner), old(numPages), n0, numPages);
            assert pages[..] == Grown(old(pages[..]), old(numPages), numPages);
            BlockedStill(p0, o0, pages[..], owner, nextPage, i, n, n0);
            continue;
          }
          r := None;
          NotFree(pages[..], owner, nextPage, i, n);
          return;
        }
        ghost var p0, o0 := pages[..], owner;
        var got, next := Claim(i, n);
        if got {
          NotFree(p0, o0, nextPage, i, n);
          nextPage := next;
          return Some(i);
        }
        BlockedOn(pages[..], owner, nextPage, i, next, n);
        i := next;
      }
    }

    // -------------------------------------------------------------------------
    // Small blocks

    ghost predicate Valid()
      reads this, pages, blocks, hints, lists
    {
      && PagesOk() && numPages <= pages.Length && (numPages > 0 ==> pages.Length >= 8 || numPages == pages.Length)
      && blocks.Length == pages.Length && hints.Length == lists.Length == |sizes| == |chains|
      && (hints as object) != lists && (hints as object) != pages && (hints as object) != blocks
      && (lists as object) != pages && (lists as object) != blocks && (pages as object) != blocks
      && (forall b :: 0 <= b < |sizes| ==> sizes[b].count >= 2)
      && SmallPages(pages[..], owner, blocks[..], sizes)
      && (forall b :: 0 <= b < |sizes| ==> HintOk(pages[..], owner, sizes, b, hints[b]))
      && (forall b :: 0 <= b < |sizes| ==> ChainOk(pages[..], owner, b, lists[b], chains[b]))
    }

    /** Everything in use is as before. */
    twostate predicate InUseKept()
      reads this, pages, blocks
      requires old(numPages) <= pages.Length && old(|owner|) == old(numPages) && blocks.Length == pages.Length
    {
      && |owner| >= old(numPages) && |owner| <= pages.Length
      && (forall q :: 0 <= q < old(numPages) && !IsFree(old(pages[..]), old(owner), q) ==> pages[q] == old(pages[q]) && owner[q] == old(owner[q]))
      && (forall q :: 0 <= q < old(numPages) && IsSmall(old(pages[..]), old(owner), q) ==>
            |blocks[q]| == |old(blocks[q])| &&
            forall j :: 0 <= j < |blocks[q]| && old(blocks[q])[j] != FreeBlock ==> blocks[q][j] == old(blocks[q])[j])
    }

    /** A page of one taken and otherwise free blocks. */
    ghost function NewBlocks(bsi: nat): seq<Block>
      requires bsi < |sizes| && sizes[bsi].count > 0
    {
      [AllocBlock] + seq(sizes[bsi].count - 1, _ => FreeBlock)
    }

    /** The heap is fully in use from where the last search ended. */
    ghost predicate NoneFree(reserved: nat)
      reads this, pages
    {
      numPages == pages.Length && forall k :: nextPage <= k && k + 1 <= numPages - reserved ==> !FreeRun(pages[..], owner, k, 1)
    }

    /** What belongs to other sizes is as before. */
    twostate predicate OthersKept(bsi: nat)
      reads this, hints, lists
      requires hints.Length == lists.Length == |sizes| == |chains| == old(|chains|)
    {
      forall b :: 0 <= b < |sizes| && b != bsi ==> hints[b] == old(hints[b]) && lists[b] == old(lists[b]) && chains[b] == old(chains[b])
    }

    /** Take the block the hint points at, if it is free, and move the hint on. */
    method TryHint(bsi: nat, p: nat, k: nat) returns (gotit: bool)
      requires Valid() && bsi < |sizes| && hints[bsi] == Some((p, k))
      modifies blocks, hints
      ensures Valid() && hints[bsi] == (if k + 1 < sizes[bsi].count then Some((p, k + 1)) else None) && OthersKept(bsi)
      ensures p < numPages && IsSmall(pages[..], owner, p) && pages[p].bsi == bsi && k < |old(blocks[p])| == sizes[bsi].count
      ensures gotit <==> old(blocks[p])[k] == FreeBlock
      ensures blocks[..] == if gotit then old(blocks[..])[p := old(blocks[p])[k := AllocBlock]] else old(blocks[..])
    {
      hide SmallPages, ChainOk, Cut;
      ghost var b0 := blocks[..];
      assert HintOk(pages[..], owner, sizes, bsi, hints[bsi]);
      SmallLength(pages[..], owner, blocks[..], sizes, p);
      OwnerLength(pages[..], owner, numPages);
      gotit := blocks[p][k] == FreeBlock;
      if gotit {
        blocks[p] := blocks[p][k := AllocBlock];
        SameLengths(pages[..], owner, b0, blocks[..], sizes);
      }
      hints[bsi] := if k + 1 < sizes[bsi].count then Some((p, k + 1)) else None;
      assert blocks[..] == if gotit then b0[p := b0[p][k := AllocBlock]] else b0;
    }

    /** Take the first page off the list of pages to use first. */
    method PopPage(bsi: nat)
      requires Valid() && bsi < |sizes| && lists[bsi].Some?
      modifies lists, hints, this`chains
      ensures Valid() && old(lists[bsi].value) < pages.Length && hints[bsi] == Some((old(lists[bsi].value), 0))
      ensures old(chains[bsi]) != [] && chains[bsi] == old(chains[bsi])[1..] && OthersKept(bsi)
    {
      hide SmallPages, Cut;
      ghost var chain := chains[bsi];
      assert ChainOk(pages[..], owner, bsi, lists[bsi], chain);
      var p := lists[bsi].value;
      lists[bsi] := pages[p].next;
      ChainTail(pages[..], owner, bsi, Some(p), chain);
      chains := chains[bsi := chain[1..]];
      hints[bsi] := Some((p, 0));
    }

    /** Take a free block of a size: the hinted one, or one of a page to be used first, or the
        first of a new page. None means that a collection is needed. */
    method AllocSmall(bsi: nat, reserved: nat) returns (r: Option<(nat, nat)>)
      requires Valid() && bsi < |sizes|
      modifies this, pages, blocks, hints, lists
      ensures Valid() && old(|owner|) == old(numPages) && InUseKept()
      ensures OthersKept(bsi)
      ensures r.None? ==> blocks[..] == old(blocks[..]) && hints[bsi] == None && lists[bsi] == None && NoneFree(reserved)
      ensures r.Some? ==>
                var (p, k) := r.value;
                && p < numPages && IsSmall(pages[..], owner, p) && pages[p].bsi == bsi
                && if p < old(numPages) && IsSmall(old(pages[..]), old(owner), p) then
                     && pages[..] == old(pages[..]) && numPages == old(numPages)
                     && k < |old(blocks[p])| && old(blocks[p])[k] == FreeBlock && blocks[..] == old(blocks[..])[p := old(blocks[p])[k := AllocBlock]]
                   else
                     && (p < old(numPages) ==> IsFree(old(pages[..]), old(owner), p)) && k == 0
                     && PageTaken(old(pages[..]), old(owner), old(numPages), old(nextPage), pages[..], owner, numPages, p, Page.Small(bsi, None))
                     && blocks[..] == old(blocks[..])[p := NewBlocks(bsi)]
    {
      hide SmallPages, Cut, ChainOk, HintOk, IsFree, PageTaken, NoneFree;
      OwnerLength(pages[..], owner, numPages);
      while true
        invariant Valid() && old(|owner|) == old(numPages) && OthersKept(bsi) && nextPage == old(nextPage)
        invariant pages[..] == old(pages[..]) && blocks[..] == old(blocks[..]) && owner == old(owner) && numPages == old(numPages)
        decreases |chains[bsi]|,
                  if hints[bsi].Some? && hints[bsi].value.1 < sizes[bsi].count then sizes[bsi].count - hints[bsi].value.1 else 0
      {
        if hints[bsi].Some? {
          var (p, k) := hints[bsi].value;
          var gotit := TryHint(bsi, p, k);
          if gotit { return Some((p, k)); }
        } else if lists[bsi].Some? {
          PopPage(bsi);
        } else {
          var page := NewPage(bsi, reserved);
          if page.None? { return None; }
          assert page.value < old(numPages) ==> !IsSmall(old(pages[..]), old(owner), page.value) by {
            FreeNotSmall(old(pages[..]), old(owner), page.value);
          }
          return Some((page.value, 0));
        }
      }
    }

    /** Make a new page of small blocks of which the first is taken. */
    method NewPage(bsi: nat, reserved: nat) returns (r: Option<nat>)
      requires Valid() && bsi < |sizes|
      modifies this`numPages, this`owner, this`nextPage, pages, blocks, hints
      ensures Valid() && old(|owner|) == old(numPages) && InUseKept()
      ensures OthersKept(bsi) && lists[bsi] == old(lists[bsi])
      ensures match r
              case None => blocks[..] == old(blocks[..]) && hints[bsi] == old(hints[bsi]) && NoneFree(reserved)
              case Some(p) =>
                && p < numPages && IsSmall(pages[..], owner, p) && pages[p].bsi == bsi
                && (p < old(numPages) ==> IsFree(old(pages[..]), old(owner), p))
                && PageTaken(old(pages[..]), old(owner), old(numPages), old(nextPage), pages[..], owner, numPages, p, Page.Small(bsi, None))
                && blocks[..] == old(blocks[..])[p := NewBlocks(bsi)]
    {
      hide SmallPages, ChainOk, Cut, HintOk, IsFree, SmallsSame, PageTaken;
      ghost var p0, o0, n0, start := pages[..], owner, numPages, nextPage;
      OwnerLength(pages[..], owner, numPages);
      r := TakePage(reserved);
      OwnerLength(pages[..], owner, numPages);
      if r.Some? {
        TakenAs(p0, o0, n0, start, pages[..], owner, numPages, r.value, Alloc(1), Page.Small(bsi, None));
        InitSmall(r.value, bsi);
      }
    }

    /** One page, with the small pages as they are. */
    method TakePage(reserved: nat) returns (r: Option<nat>)
      requires Valid()
      modifies this`numPages, this`owner, this`nextPage, pages
      ensures Valid() && old(numPages) <= numPages
      ensures SmallsStay(old(pages[..]), old(owner), pages[..], owner)
      ensures old(|owner|) == old(numPages) && forall q :: 0 <= q < old(numPages) && !IsFree(old(pages[..]), old(owner), q) ==>
                pages[q] == old(pages[q]) && owner[q] == old(owner[q])
      ensures r.Some? ==> r.value < numPages && owner[r.value] == r.value && pages[r.value] == Alloc(1)
      ensures r.Some? && r.value < old(numPages) ==> IsFree(old(pages[..]), old(owner), r.value)
      ensures r.Some? ==> PageTaken(old(pages[..]), old(owner), old(numPages), old(nextPage), pages[..], owner, numPages, r.value, Alloc(1))
      ensures r.None? ==> NoneFree(reserved)
    {
      hide SmallPages, ChainOk, Cut, HintOk, IsFree, SmallsSame, SmallsStay, FreeRun, Claimed, Grown, Owned, Extended, PageTaken;
      ghost var p0, o0, n0, start := pages[..], owner, numPages, nextPage;
      OwnerLength(p0, o0, n0);
      r := AllocPages(1, reserved);
      OwnerLength(pages[..], owner, numPages);
      AllocKept(p0, o0, n0, pages[..], owner, numPages, 1, r);
      Carried(p0, o0, pages[..], owner, blocks[..], sizes);
      HintsCarried(p0, o0, pages[..], owner, sizes, hints[..]);
      ChainsCarried(p0, o0, pages[..], owner, lists[..], chains);
      if r.Some? { TakenOne(p0, o0, n0, start, pages[..], owner, numPages, r.value); }
    }

    /** Mark the first block taken and the others free, then the page as small, and point the hint at the second. */
    method InitSmall(p: nat, bsi: nat)
      requires Valid() && bsi < |sizes| && p < numPages && owner[p] == p && pages[p] == Alloc(1)
      modifies pages, blocks, hints
      ensures Valid()
      ensures pages[..] == old(pages[..])[p := Page.Small(bsi, None)]
      ensures blocks[..] == old(blocks[..])[p := NewBlocks(bsi)]
      ensures hints[bsi] == Some((p, 1)) && OthersKept(bsi)
    {
      hide SmallPages, ChainOk, Cut, HintOk, SmallsStay;
      ghost var p1, b1 := pages[..], blocks[..];
      OwnerLength(p1, owner, numPages);
      blocks[p] := [AllocBlock] + seq(sizes[bsi].count - 1, _ => FreeBlock);
      pages[p] := Page.Small(bsi, None);
      SmallCut(p1, owner, numPages, p, pages[p]);
      NewSmall(p1, owner, b1, sizes, p, bsi, blocks[..]);
      assert pages[..] == p1[p := Page.Small(bsi, None)];
      HintsCarried(p1, owner, pages[..], owner, sizes, hints[..]);
      ChainsCarried(p1, owner, pages[..], owner, lists[..], chains);
      hints[bsi] := Some((p, 1));
      NewHint(pages[..], owner, sizes, bsi, p);
    }

    // -------------------------------------------------------------------------
    // Large objects

    /** Once a large object is in place its first page says how long the run is, and
        the other pages are its memory. */
    method FinishLarge(i: nat, n: nat)
      requires PagesOk() && n > 0 && i + n <= numPages && owner[i] == i && forall k :: i <= k < i + n ==> pages[k] == Alloc(n - (k - i))
      modifies pages
      ensures PagesOk() && pages[i] == Large(n)
      ensures forall k :: 0 <= k < pages.Length && !(i <= k < i + n) ==> pages[k] == old(pages[k])
      ensures forall k :: i < k < i + n ==> pages[k] == Data
    {
      hide Cut;
      ghost var p0 := pages[..];
      OwnerLength(p0, owner, numPages);
      for k := i + 1 to i + n
        invariant forall q :: 0 <= q < pages.Length ==> pages[q] == if i < q < k then Data else p0[q]
      {
        pages[k] := Data;
      }
      pages[i] := Large(n);
      LargeCut(p0, owner, numPages, i, n, pages[..]);
    }

    /** Take a run of free pages for a large object and put the object in place. */
    method AllocLarge(n: nat, reserved: nat) returns (r: Option<nat>)
      requires Valid() && n > 0
      modifies this`numPages, this`owner, this`nextPage, pages
      ensures Valid() && old(|owner|) == old(numPages) && InUseKept()
      ensures match r
              case None =>
                numPages == pages.Length && forall k :: nextPage <= k && k + n <= numPages - reserved ==> !FreeRun(pages[..], owner, k, n)
              case Some(i) =>
                && i + n <= numPages && pages[i] == Large(n) && (forall k :: i <= k < i + n ==> owner[k] == i)
                && forall k :: i <= k < i + n && k < old(numPages) ==> IsFree(old(pages[..]), old(owner), k)
    {
      hide SmallPages, ChainOk, Cut, HintOk, IsFree, SmallsSame, SmallsStay, FreeRun, Claimed, Grown, Owned, Extended, Boundary;
      ghost var p0, o0, n0 := pages[..], owner, numPages;
      OwnerLength(p0, o0, n0);
      r := AllocPages(n, reserved);
      OwnerLength(pages[..], owner, numPages);
      AllocKept(p0, o0, n0, pages[..], owner, numPages, n, r);
      Carried(p0, o0, pages[..], owner, blocks[..], sizes);
      HintsCarried(p0, o0, pages[..], owner, sizes, hints[..]);
      ChainsCarried(p0, o0, pages[..], owner, lists[..], chains);
      if r.Some? {
        ghost var p1 := pages[..];
        FinishLarge(r.value, n);
        LargeSmalls(p1, owner, r.value, n, pages[..]);
        Carried(p1, owner, pages[..], owner, blocks[..], sizes);
        HintsCarried(p1, owner, pages[..], owner, sizes, hints[..]);
        ChainsCarried(p1, owner, pages[..], owner, lists[..], chains);
      }
    }
  }

  lemma LargeCut(pages: seq<Page>, owner: seq<nat>, num: nat, i: nat, n: nat, pages': seq<Page>)
    requires Cut(pages, owner, num) && n > 0 && i + n <= num && owner[i] == i && pages[i] == Alloc(n)
    requires |pages'| == |pages| && pages'[i] == Large(n)
    requires forall k :: 0 <= k < |pages| && !(i <= k < i + n) ==> pages'[k] == pages[k]
    ensures Cut(pages', owner, num)
  {
  }

  /** The pages after putting those from `from` up to `to` into use. */
  ghost function Grown(pages: seq<Page>, from: nat, to: nat): seq<Page> {
    seq(|pages|, k requires 0 <= k < |pages| => if from <= k < to then Free else pages[k])
  }

  /** Page `i`, the first free one from `start` on once new pages are in use, now reads `w`, and no other changed. */
  ghost predicate PageTaken(p0: seq<Page>, o0: seq<nat>, n0: nat, start: nat, p1: seq<Page>, o1: seq<nat>, n1: nat, i: nat, w: Page) {
    n0 <= n1 &&
    var before, owner0 := Grown(p0, n0, n1), Extended(o0, n1 - n0);
    && FreeRun(before, owner0, i, 1) && i < |p0|
    && p1 == before[i := w] && o1 == Owned(owner0, i, 1)
    && start <= i && forall k :: start <= k < i ==> !FreeRun(before, owner0, k, 1)
  }

  lemma TakenOne(p0: seq<Page>, o0: seq<nat>, n0: nat, start: nat, p1: seq<Page>, o1: seq<nat>, n1: nat, i: nat)
    requires n0 <= n1 <= |p0| && |o0| == n0 && start <= i
    requires var before, owner0 := Grown(p0, n0, n1), Extended(o0, n1 - n0);
             FreeRun(before, owner0, i, 1) && p1 == Claimed(before, i, 1) && o1 == Owned(owner0, i, 1)
             && forall k :: start <= k < i ==> !FreeRun(before, owner0, k, 1)
    ensures PageTaken(p0, o0, n0, start, p1, o1, n1, i, Alloc(1))
  {
  }

  lemma TakenAs(p0: seq<Page>, o0: seq<nat>, n0: nat, start: nat, p1: seq<Page>, o1: seq<nat>, n1: nat, i: nat, w: Page, w': Page)
    requires PageTaken(p0, o0, n0, start, p1, o1, n1, i, w)
    ensures i < |p1| && PageTaken(p0, o0, n0, start, p1[i := w'], o1, n1, i, w')
  {
  }

  lemma GrownIs(p0: seq<Page>, n0: nat, p1: seq<Page>, n1: nat)
    requires |p1| == |p0| && forall k :: 0 <= k < |p0| ==> p1[k] == if n0 <= k < n1 then Free else p0[k]
    ensures p1 == Grown(p0, n0, n1)
  {
  }

  lemma GrownNothing(pages: seq<Page>, n: nat, owner: seq<nat>)
    ensures Grown(pages, n, n) == pages && Extended(owner, 0) == owner
  {
  }

  lemma GrownMore(pages: seq<Page>, owner: seq<nat>, a: nat, b: nat, c: nat)
    requires a <= b <= c && |owner| == a
    ensures Grown(Grown(pages, a, b), b, c) == Grown(pages, a, c)
    ensures Extended(Extended(owner, b - a), c - b) == Extended(owner, c - a)
  {
  }

  lemma OwnerLength(pages: seq<Page>, owner: seq<nat>, n: nat)
    requires Cut(pages, owner, n)
    ensures |owner| == n <= |pages|
  {
  }

  lemma ExtendedKeeps(owner: seq<nat>, more: nat)
    ensures |Extended(owner, more)| == |owner| + more
    ensures forall k :: 0 <= k < |owner| ==> Extended(owner, more)[k] == owner[k]
  {
  }

  lemma StillBoundary(owner: seq<nat>, more: nat, i: nat)
    requires Boundary(owner, i)
    ensures Boundary(Extended(owner, more), i)
  {
  }

  lemma BlockedStill(pages: seq<Page>, owner: seq<nat>, pages': seq<Page>, owner': seq<nat>, from: nat, i: nat, n: nat, num: nat)
    requires Cut(pages, owner, num) && i <= num && |owner'| >= num && |pages'| == |pages| && |owner'| <= |pages'|
    requires forall k :: 0 <= k < num ==> pages'[k] == pages[k] && owner'[k] == owner[k]
    requires forall k :: from <= k < i ==> BlockedFrom(pages, owner, k, n, i)
    ensures forall k :: from <= k < i ==> BlockedFrom(pages', owner', k, n, i)
  {
    forall k | from <= k < i
      ensures BlockedFrom(pages', owner', k, n, i)
    {
      assert BlockedFrom(pages, owner, k, n, i);
      var q :| k <= q < k + n && q < i && !IsFree(pages, owner, q);
      assert !IsFree(pages', owner', q);
    }
  }

  lemma BlockedOn(pages: seq<Page>, owner: seq<nat>, from: nat, i: nat, next: nat, n: nat)
    requires i <= next && (forall k :: from <= k < i ==> BlockedFrom(pages, owner, k, n, i))
    requires forall k :: i <= k < next ==> BlockedFrom(pages, owner, k, n, next)
    ensures forall k :: from <= k < next ==> BlockedFrom(pages, owner, k, n, next)
  {
    forall k | from <= k < i
      ensures BlockedFrom(pages, owner, k, n, next)
    {
      assert BlockedFrom(pages, owner, k, n, i);
    }
  }

  lemma NotFree(pages: seq<Page>, owner: seq<nat>, from: nat, i: nat, n: nat)
    requires forall k :: from <= k < i ==> BlockedFrom(pages, owner, k, n, i)
    ensures forall k :: from <= k < i ==> !FreeRun(pages, owner, k, n)
  {
    forall k | from <= k < i
      ensures !FreeRun(pages, owner, k, n)
    {
      assert BlockedFrom(pages, owner, k, n, i);
    }
  }

  /** A run that is blocked at offset `j` is blocked from every start up to the end of the blocking piece. */
  lemma Blocked(pages: seq<Page>, owner: seq<nat>, num: nat, i: nat, j: nat, n: nat, next: nat)
    requires Cut(pages, owner, num) && j < n && i + n <= num && owner[i + j] == i + j && pages[i + j] != Free
    requires next == i + j + Length(pages[i + j])
    ensures forall k :: i <= k < next ==> BlockedFrom(pages, owner, k, n, next)
  {
    forall k | i <= k < next
      ensures BlockedFrom(pages, owner, k, n, next)
    {
      if k <= i + j {
        assert !IsFree(pages, owner, i + j);
      } else {
        assert owner[k] == i + j;
        assert !IsFree(pages, owner, k);
      }
    }
  }

  lemma AfterRun(pages: seq<Page>, owner: seq<nat>, num: nat, i: nat, n: nat)
    requires Cut(pages, owner, num) && n > 0 && FreeRun(pages, owner, i, n)
    ensures Boundary(owner, i + n) && Boundary(Owned(owner, i, n), i + n)
  {
    assert IsFree(pages, owner, i + n - 1);
    NextBoundary(pages, owner, num, i + n - 1);
  }

  // ---------------------------------------------------------------------------
  // Pages of small blocks

  ghost predicate IsSmall(pages: seq<Page>, owner: seq<nat>, i: nat) {
    i < |owner| && |owner| <= |pages| && owner[i] == i && pages[i].Small?
  }

  ghost predicate SmallPages(pages: seq<Page>, owner: seq<nat>, blocks: seq<seq<Block>>, sizes: seq<BlockSize>) {
    |blocks| == |pages| && forall p :: 0 <= p < |owner| && IsSmall(pages, owner, p) ==>
      pages[p].bsi < |sizes| && |blocks[p]| == sizes[pages[p].bsi].count
  }

  /** The hint is empty or points at a block of a page of that size. */
  ghost predicate HintOk(pages: seq<Page>, owner: seq<nat>, sizes: seq<BlockSize>, b: nat, h: Option<(nat, nat)>) {
    h.Some? ==> b < |sizes| && IsSmall(pages, owner, h.value.0) && pages[h.value.0].bsi == b && h.value.1 < sizes[b].count
  }

  ghost function After(chain: seq<nat>, k: nat): Option<nat> {
    if k + 1 < |chain| then Some(chain[k + 1]) else None
  }

  /** The list of pages to use first runs through `chain` and ends. */
  ghost predicate ChainOk(pages: seq<Page>, owner: seq<nat>, b: nat, head: Option<nat>, chain: seq<nat>) {
    && head == (if chain == [] then None else Some(chain[0]))
    && (forall k :: 0 <= k < |chain| ==>
          IsSmall(pages, owner, chain[k]) && pages[chain[k]] == Page.Small(b, After(chain, k)))
    && (forall j, k :: 0 <= j < k < |chain| ==> chain[j] != chain[k])
  }

  lemma FreeNotSmall(pages: seq<Page>, owner: seq<nat>, i: nat)
    ensures IsFree(pages, owner, i) ==> !IsSmall(pages, owner, i)
  {
  }

  lemma SmallLength(pages: seq<Page>, owner: seq<nat>, blocks: seq<seq<Block>>, sizes: seq<BlockSize>, p: nat)
    requires SmallPages(pages, owner, blocks, sizes) && IsSmall(pages, owner, p)
    ensures |blocks| == |pages| && pages[p].bsi < |sizes| && |blocks[p]| == sizes[pages[p].bsi].count
  {
  }

  lemma SameLengths(pages: seq<Page>, owner: seq<nat>, blocks: seq<seq<Block>>, blocks': seq<seq<Block>>, sizes: seq<BlockSize>)
    requires SmallPages(pages, owner, blocks, sizes) && |blocks'| == |blocks|
    requires forall p :: 0 <= p < |blocks| ==> |blocks'[p]| == |blocks[p]|
    ensures SmallPages(pages, owner, blocks', sizes)
  {
  }

  lemma ChainTail(pages: seq<Page>, owner: seq<nat>, b: nat, head: Option<nat>, chain: seq<nat>)
    requires ChainOk(pages, owner, b, head, chain) && chain != []
    ensures IsSmall(pages, owner, chain[0]) && ChainOk(pages, owner, b, pages[chain[0]].next, chain[1..])
  {
  }

  /** Small pages stay small pages, and no others become small. */
  ghost predicate SmallsSame(pages: seq<Page>, owner: seq<nat>, pages': seq<Page>, owner': seq<nat>) {
    && |owner| <= |owner'| && |pages'| == |pages|
    && (forall q :: 0 <= q < |owner| && IsSmall(pages, owner, q) ==> IsSmall(pages', owner', q) && pages'[q] == pages[q])
    && (forall q :: 0 <= q < |owner'| && IsSmall(pages', owner', q) ==> IsSmall(pages, owner, q))
  }

  ghost predicate SmallsStay(pages: seq<Page>, owner: seq<nat>, pages': seq<Page>, owner': seq<nat>) {
    forall q :: 0 <= q < |owner| && IsSmall(pages, owner, q) ==> IsSmall(pages', owner', q) && pages'[q] == pages[q]
  }

  lemma AllocKept(p0: seq<Page>, o0: seq<nat>, n0: nat, p1: seq<Page>, o1: seq<nat>, n1: nat, n: nat, r: Option<nat>)
    requires |o0| == n0 <= n1 <= |p0| && n > 0
    requires match r
             case None => p1 == Grown(p0, n0, n1) && o1 == Extended(o0, n1 - n0)
             case Some(i) =>
               var before, owner0 := Grown(p0, n0, n1), Extended(o0, n1 - n0);
               FreeRun(before, owner0, i, n) && p1 == Claimed(before, i, n) && o1 == Owned(owner0, i, n)
    ensures SmallsSame(p0, o0, p1, o1) && SmallsStay(p0, o0, p1, o1)
    ensures forall q :: 0 <= q < n0 && !IsFree(p0, o0, q) ==> p1[q] == p0[q] && o1[q] == o0[q]
    ensures r.Some? ==>
              var i := r.value;
              && i + n <= n1 && |o1| == n1 && (forall k :: i <= k < i + n ==> o1[k] == i && p1[k] == Alloc(n - (k - i)))
              && forall k :: i <= k < i + n && k < n0 ==> IsFree(p0, o0, k)
  {
    if r.Some? {
      forall k | r.value <= k < r.value + n
        ensures k < n0 ==> IsFree(p0, o0, k)
      {
        assert IsFree(Grown(p0, n0, n1), Extended(o0, n1 - n0), k);
      }
      forall q | 0 <= q < n0 && !IsFree(p0, o0, q)
        ensures p1[q] == p0[q] && o1[q] == o0[q]
      {
        assert !(r.value <= q < r.value + n);
      }
    }
  }

  /** Turning a claimed run into a large object makes no page of small blocks. */
  lemma LargeSmalls(p1: seq<Page>, owner: seq<nat>, i: nat, n: nat, p2: seq<Page>)
    requires |p1| == |p2| && n > 0 && i + n <= |owner| <= |p1| && p1[i] == Alloc(n) && p2[i] == Large(n)
    requires forall k :: i <= k < i + n ==> owner[k] == i
    requires forall k :: 0 <= k < |p1| && !(i <= k < i + n) ==> p2[k] == p1[k]
    ensures SmallsSame(p1, owner, p2, owner) && SmallsStay(p1, owner, p2, owner)
  {
  }

  lemma Carried(p0: seq<Page>, o0: seq<nat>, p1: seq<Page>, o1: seq<nat>, blocks: seq<seq<Block>>, sizes: seq<BlockSize>)
    requires SmallPages(p0, o0, blocks, sizes) && SmallsSame(p0, o0, p1, o1)
    ensures SmallPages(p1, o1, blocks, sizes)
  {
  }

  lemma HintsCarried(p0: seq<Page>, o0: seq<nat>, p1: seq<Page>, o1: seq<nat>, sizes: seq<BlockSize>, hints: seq<Option<(nat, nat)>>)
    requires SmallsStay(p0, o0, p1, o1)
    requires forall b :: 0 <= b < |hints| ==> HintOk(p0, o0, sizes, b, hints[b])
    ensures forall b :: 0 <= b < |hints| ==> HintOk(p1, o1, sizes, b, hints[b])
  {
  }

  lemma ChainsCarried(p0: seq<Page>, o0: seq<nat>, p1: seq<Page>, o1: seq<nat>, lists: seq<Option<nat>>, chains: seq<seq<nat>>)
    requires SmallsStay(p0, o0, p1, o1) && |lists| == |chains|
    requires forall b :: 0 <= b < |lists| ==> ChainOk(p0, o0, b, lists[b], chains[b])
    ensures forall b :: 0 <= b < |lists| ==> ChainOk(p1, o1, b, lists[b], chains[b])
  {
  }

  // ---------------------------------------------------------------------------
  // Addresses

  function BlockStart(l: Layout, b: BlockSize, page: nat, k: nat): nat
    requires LayoutOk(l)
  {
    page * PAGE_SIZE + BlockOffset(l) + k * Bytes(l, b)
  }

  predicate SamePage(a: nat, b: nat) {
    a / PAGE_SIZE == b / PAGE_SIZE
  }

  lemma InPage(l: Layout, b: BlockSize, k: nat)
    requires LayoutOk(l) && SizeOk(l, b)
    ensures k < b.count ==> BlockOffset(l) + k * Bytes(l, b) + Bytes(l, b) <= PAGE_SIZE
    ensures k == b.count ==> BlockOffset(l) + k * Bytes(l, b) + Bytes(l, b) > PAGE_SIZE
  {
    PageIsUnits(l);
    RowFits(HeaderUnits(l), b.units, b.count, PageUnits(l), k, l.align);
    hide HeaderUnits, PageUnits;
  }

  lemma PageIsUnits(l: Layout)
    requires LayoutOk(l)
    ensures PageUnits(l) * l.align == PAGE_SIZE
  {
    var q := PAGE_SIZE / l.align;
    Divide(PAGE_SIZE, l.align);
    QuotientIs(PAGE_SIZE + (l.align - 1), l.align, q);
  }

  /** The next block lies in the same page exactly when it is one of the page's blocks. */
  lemma HintExact(l: Layout, b: BlockSize, page: nat, k: nat)
    requires LayoutOk(l) && SizeOk(l, b) && k < b.count && Bytes(l, b) > 0
    ensures SamePage(BlockStart(l, b, page, k), BlockStart(l, b, page, k + 1) + Bytes(l, b) - 1) <==> k + 1 < b.count
  {
    InPage(l, b, k);
    InPage(l, b, k + 1);
    hide SizeOk, BlockOffset, Bytes, LayoutOk;
    NextInPage(page, PAGE_SIZE, BlockOffset(l), Bytes(l, b), k, b.count);
  }

  lemma InOwnPage(l: Layout, b: BlockSize, p: nat, i: nat)
    requires LayoutOk(l) && SizeOk(l, b) && i < b.count
    ensures p * PAGE_SIZE + l.word <= BlockStart(l, b, p, i) && BlockStart(l, b, p, i) + Bytes(l, b) <= (p + 1) * PAGE_SIZE
  {
    InPage(l, b, i);
    OffsetBehindWord(l);
    hide SizeOk, BlockOffset, Bytes, LayoutOk;
    Sum(p, 1, PAGE_SIZE);
    assert i * Bytes(l, b) >= 0 by { Monotone(0, i, Bytes(l, b)); }
  }

  lemma OffsetBehindWord(l: Layout)
    requires LayoutOk(l)
    ensures l.word <= BlockOffset(l)
  {
    HowManyExact(l.word, l.align);
  }

  /** Different blocks do not overlap, and each lies in its page behind the page word. */
  lemma BlocksApart(l: Layout, b: BlockSize, c: BlockSize, p: nat, i: nat, q: nat, j: nat)
    requires LayoutOk(l) && SizeOk(l, b) && SizeOk(l, c) && i < b.count && j < c.count && (p, i) != (q, j)
    requires p == q ==> b == c
    ensures p * PAGE_SIZE + l.word <= BlockStart(l, b, p, i) && BlockStart(l, b, p, i) + Bytes(l, b) <= (p + 1) * PAGE_SIZE
    ensures BlockStart(l, b, p, i) + Bytes(l, b) <= BlockStart(l, c, q, j) || BlockStart(l, c, q, j) + Bytes(l, c) <= BlockStart(l, b, p, i)
  {
    InOwnPage(l, b, p, i);
    InOwnPage(l, c, q, j);
    if p == q {
      BlocksInRow(l, b, p, i, j);
    } else {
      hide BlockStart, Bytes, SizeOk;
      Monotone(if p < q then p + 1 else q + 1, if p < q then q else p, PAGE_SIZE);
    }
  }

  lemma BlocksInRow(l: Layout, b: BlockSize, p: nat, i: nat, j: nat)
    requires LayoutOk(l) && i != j
    ensures BlockStart(l, b, p, i) + Bytes(l, b) <= BlockStart(l, b, p, j) || BlockStart(l, b, p, j) + Bytes(l, b) <= BlockStart(l, b, p, i)
  {
    var s := Bytes(l, b);
    hide Bytes, BlockOffset, LayoutOk;
    if i < j { Monotone(i + 1, j, s); } else { Monotone(j + 1, i, s); }
    Sum(i, 1, s);
    Sum(j, 1, s);
  }

  lemma SmallCut(pages: seq<Page>, owner: seq<nat>, n: nat, i: nat, w: Page)
    requires Cut(pages, owner, n) && i < n && owner[i] == i && Length(pages[i]) == 1 && (w.Small? || w.Free?)
    ensures Cut(pages[i := w], owner, n)
  {
  }

  lemma NewSmall(p1: seq<Page>, owner: seq<nat>, b0: seq<seq<Block>>, sizes: seq<BlockSize>, p: nat, bsi: nat, blocks: seq<seq<Block>>)
    requires SmallPages(p1, owner, b0, sizes) && p < |owner| <= |p1| && owner[p] == p && p1[p] == Alloc(1) && bsi < |sizes|
    requires |blocks| == |b0| && |blocks[p]| == sizes[bsi].count && forall q :: 0 <= q < |b0| && q != p ==> blocks[q] == b0[q]
    ensures SmallPages(p1[p := Page.Small(bsi, None)], owner, blocks, sizes)
    ensures SmallsStay(p1, owner, p1[p := Page.Small(bsi, None)], owner)
  {
  }

  lemma NewHint(pages: seq<Page>, owner: seq<nat>, sizes: seq<BlockSize>, bsi: nat, p: nat)
    requires bsi < |sizes| && sizes[bsi].count >= 2 && IsSmall(pages, owner, p) && pages[p].bsi == bsi
    ensures HintOk(pages, owner, sizes, bsi, Some((p, 1)))
  {
  }
}
