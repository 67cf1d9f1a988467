/** Sweeping the heap: every occupied block in address order, and recycling what is not kept. */
module HeapSweep {
  import opened Options
  import opened HeapSizes
  import opened HeapPages

  datatype Item = SmallItem(page: nat, k: nat) | LargeItem(page: nat, n: nat)

  predicate Occupied(b: Block) {
    b.Object?
  }

  // ---------------------------------------------------------------------------
  // What a sweep is to return

  /** The occupied blocks of a page from number `k` on. */
  ghost function BlocksFrom(s: seq<Block>, p: nat, k: nat): seq<Item>
    requires k <= |s|
    decreases |s| - k
  {
    if k == |s| then [] else (if Occupied(s[k]) then [SmallItem(p, k)] else []) + BlocksFrom(s, p, k + 1)
  }

  /** The occupied blocks of the pages from `p` up to `n`. */
  ghost function ItemsFrom(pages: seq<Page>, blocks: seq<seq<Block>>, n: nat, p: nat): seq<Item>
    requires n <= |pages| == |blocks|
    decreases n - p
  {
    if p >= n then []
    else match pages[p]
      case Small(_, _) => BlocksFrom(blocks[p], p, 0) + ItemsFrom(pages, blocks, n, p + 1)
      case Large(k) => [LargeItem(p, k)] + ItemsFrom(pages, blocks, n, p + if k > 0 then k else 1)
      case _ => ItemsFrom(pages, blocks, n, p + 1)
  }

  lemma ItemsHere(pages: seq<Page>, blocks: seq<seq<Block>>, n: nat, p: nat)
    requires p < n <= |pages| == |blocks|
    ensures ItemsFrom(pages, blocks, n, p) ==
            match pages[p]
            case Small(_, _) => BlocksFrom(blocks[p], p, 0) + ItemsFrom(pages, blocks, n, p + 1)
            case Large(k) => [LargeItem(p, k)] + ItemsFrom(pages, blocks, n, p + if k > 0 then k else 1)
            case _ => ItemsFrom(pages, blocks, n, p + 1)
  {
  }

  lemma ItemsEnd(pages: seq<Page>, blocks: seq<seq<Block>>, n: nat)
    requires n <= |pages| == |blocks|
    ensures ItemsFrom(pages, blocks, n, n) == []
  {
  }

  /** An item is an occupied block, or a large object. */
  ghost predicate IsItem(pages: seq<Page>, owner: seq<nat>, blocks: seq<seq<Block>>, x: Item)
    requires |owner| <= |pages| == |blocks|
  {
    match x
    case SmallItem(p, k) => IsSmall(pages, owner, p) && k < |blocks[p]| && Occupied(blocks[p][k])
    case LargeItem(p, n) => p < |owner| && owner[p] == p && pages[p] == Large(n)
  }

  function Position(x: Item): (nat, nat) {
    match x case SmallItem(p, k) => (p, k) case LargeItem(p, _) => (p, 0)
  }

  ghost predicate Before(x: Item, y: Item) {
    Position(x).0 < Position(y).0 || (Position(x).0 == Position(y).0 && Position(x).1 < Position(y).1)
  }

  lemma {:induction false} BlocksFromExact(s: seq<Block>, p: nat, k: nat)
    requires k <= |s|
    ensures forall x :: x in BlocksFrom(s, p, k) <==> x.SmallItem? && x.page == p && k <= x.k < |s| && Occupied(s[x.k])
    ensures forall i, j :: 0 <= i < j < |BlocksFrom(s, p, k)| ==> Before(BlocksFrom(s, p, k)[i], BlocksFrom(s, p, k)[j])
    decreases |s| - k
  {
    if k < |s| { BlocksFromExact(s, p, k + 1); }
  }

  /** A sweep that goes page by page over a run being allocated stands in it, and otherwise at the start of a piece. */
  ghost predicate Stop(pages: seq<Page>, owner: seq<nat>, p: nat)
    requires |owner| <= |pages|
  {
    Boundary(owner, p) || (p < |owner| && owner[p] <= p && pages[owner[p]].Alloc? && pages[p].Alloc?)
  }

  lemma NextStop(pages: seq<Page>, owner: seq<nat>, n: nat, p: nat)
    requires Cut(pages, owner, n) && p < n && Stop(pages, owner, p) && pages[p].Alloc?
    ensures Stop(pages, owner, p + 1)
  {
    PieceOf(pages, owner, n, p);
    if p + 1 < n {
      PieceOf(pages, owner, n, p + 1);
      if owner[p + 1] != p + 1 { PieceOwns(pages, owner, n, owner[p + 1], p); }
    }
  }

  /** A sweep returns exactly the occupied blocks and large objects, each once, in address order. */
  lemma {:induction false} ItemsExact(pages: seq<Page>, owner: seq<nat>, blocks: seq<seq<Block>>, n: nat, p: nat)
    requires Cut(pages, owner, n) && |pages| == |blocks| && p <= n && Stop(pages, owner, p)
    ensures var items := ItemsFrom(pages, blocks, n, p);
            && (forall x :: x in items <==> Position(x).0 >= p && IsItem(pages, owner, blocks, x))
            && (forall i, j :: 0 <= i < j < |items| ==> Before(items[i], items[j]))
    decreases n - p
  {
    hide Cut;
    OwnerLength(pages, owner, n);
    if p < n && pages[p].Alloc? {
      NextStop(pages, owner, n, p);
      ItemsExact(pages, owner, blocks, n, p + 1);
      ItemsHere(pages, blocks, n, p);
    } else if p < n {
      PieceStarts(pages, owner, n, p);
      NextBoundary(pages, owner, n, p);
      var next := p + Length(pages[p]);
      ItemsExact(pages, owner, blocks, n, next);
      var items, rest := ItemsFrom(pages, blocks, n, p), ItemsFrom(pages, blocks, n, next);
      NothingBetween(pages, owner, blocks, n, p);
      match pages[p]
      case Small(_, _) =>
        BlocksFromExact(blocks[p], p, 0);
        var first := BlocksFrom(blocks[p], p, 0);
        assert items == first + rest;
        forall x
          ensures x in items <==> Position(x).0 >= p && IsItem(pages, owner, blocks, x)
        {
          assert x in items <==> x in first || x in rest;
        }
      case Large(k) => assert items == [LargeItem(p, k)] + rest;
      case Free => assert items == rest;
    }
  }

  /** No item starts inside a piece. */
  lemma NothingBetween(pages: seq<Page>, owner: seq<nat>, blocks: seq<seq<Block>>, n: nat, p: nat)
    requires Cut(pages, owner, n) && |pages| == |blocks| && p < n && owner[p] == p
    ensures forall x :: p < Position(x).0 < p + Length(pages[p]) ==> !IsItem(pages, owner, blocks, x)
  {
  }

  // ---------------------------------------------------------------------------
  // What recycling does

  datatype View = View(pages: seq<Page>, owner: seq<nat>, blocks: seq<seq<Block>>, lists: seq<Option<nat>>, chains: seq<seq<nat>>)

  /** A page's blocks after those below `k` that are not kept have been freed. */
  ghost function KeptBlocks(s: seq<Block>, p: nat, keep: set<Item>, k: nat): seq<Block> {
    seq(|s|, j requires 0 <= j < |s| => if j < k && Occupied(s[j]) && SmallItem(p, j) !in keep then FreeBlock else s[j])
  }

  ghost predicate AnyKept(s: seq<Block>, p: nat, keep: set<Item>, k: nat) {
    exists j :: 0 <= j < k && j < |s| && Occupied(s[j]) && SmallItem(p, j) in keep
  }

  lemma KeptNone(s: seq<Block>, p: nat, keep: set<Item>)
    ensures KeptBlocks(s, p, keep, 0) == s && !AnyKept(s, p, keep, 0)
  {
  }

  lemma KeptSkip(s: seq<Block>, p: nat, keep: set<Item>, k: nat)
    requires k < |s| && !Occupied(s[k])
    ensures KeptBlocks(s, p, keep, k + 1) == KeptBlocks(s, p, keep, k)
    ensures AnyKept(s, p, keep, k + 1) <==> AnyKept(s, p, keep, k)
  {
  }

  lemma KeptOne(s: seq<Block>, p: nat, keep: set<Item>, k: nat)
    requires k < |s| && Occupied(s[k])
    ensures SmallItem(p, k) in keep ==> KeptBlocks(s, p, keep, k + 1) == KeptBlocks(s, p, keep, k) && AnyKept(s, p, keep, k + 1)
    ensures SmallItem(p, k) !in keep ==>
              KeptBlocks(s, p, keep, k + 1) == KeptBlocks(s, p, keep, k)[k := FreeBlock]
              && (AnyKept(s, p, keep, k + 1) <==> AnyKept(s, p, keep, k))
  {
  }

  ghost predicate Shaped(v0: View, v: View, n: nat) {
    && |v0.pages| == |v.pages| == |v0.blocks| == |v.blocks| && |v0.owner| == |v.owner| == n <= |v.pages|
    && |v.lists| == |v.chains|
  }

  /** What has become of the piece starting at `p`. */
  ghost predicate PageSwept(v0: View, v: View, keep: set<Item>, p: nat)
    requires |v0.pages| == |v.pages| == |v0.blocks| == |v.blocks| && |v.owner| <= |v.pages| && p < |v.owner|
  {
    match v0.pages[p]
    case Small(b, _) =>
      && v.blocks[p] == KeptBlocks(v0.blocks[p], p, keep, |v0.blocks[p]|)
      && (if AnyKept(v0.blocks[p], p, keep, |v0.blocks[p]|) then
            IsSmall(v.pages, v.owner, p) && v.pages[p].bsi == b && b < |v.chains| && p in v.chains[b]
          else IsFree(v.pages, v.owner, p))
    case Large(n) =>
      p + n <= |v.owner| &&
      (if LargeItem(p, n) in keep then
         v.pages[p] == Large(n) && v.owner[p] == p && forall q :: p < q < p + n ==> v.pages[q] == v0.pages[q] && v.owner[q] == p
       else forall q :: p <= q < p + n ==> IsFree(v.pages, v.owner, q))
    case Alloc(n) =>
      p + n <= |v.owner| && |v0.owner| == |v.owner| && forall q :: p <= q < p + n ==> v.pages[q] == v0.pages[q] && v.owner[q] == v0.owner[q]
    case _ => IsFree(v.pages, v.owner, p)
  }

  /** The pieces below `pos` are swept, and of the page at `pos` the first `k` blocks. */
  ghost predicate Progress(v0: View, v: View, n: nat, sizes: seq<BlockSize>, keep: set<Item>, pos: nat, k: nat) {
    && Shaped(v0, v, n) && pos <= n && Cut(v.pages, v.owner, n) && SmallPages(v.pages, v.owner, v.blocks, sizes)
    && (forall p :: 0 <= p < pos && v0.owner[p] == p ==> PageSwept(v0, v, keep, p))
    && (forall q :: pos <= q < |v.pages| ==> v.pages[q] == v0.pages[q] && (q < n ==> v.owner[q] == v0.owner[q]))
    && (forall q :: pos < q < |v.pages| ==> v.blocks[q] == v0.blocks[q])
    && (pos < n ==> v.blocks[pos] == KeptBlocks(v0.blocks[pos], pos, keep, k))
    && (forall b :: 0 <= b < |v.chains| ==> ChainOk(v.pages, v.owner, b, v.lists[b], v.chains[b]))
    && (forall b, i :: 0 <= b < |v.chains| && 0 <= i < |v.chains[b]| ==> v.chains[b][i] < pos)
  }

  /** A page stays swept when nothing of it changes and its list only grows. */
  lemma PageStays(v0: View, v: View, v': View, keep: set<Item>, p: nat, n: nat)
    requires Shaped(v0, v, n) && Shaped(v0, v', n) && p < n && PageSwept(v0, v, keep, p) && 0 < Length(v0.pages[p]) <= n - p
    requires forall q :: p <= q < p + Length(v0.pages[p]) ==> v'.pages[q] == v.pages[q] && v'.owner[q] == v.owner[q] && v'.blocks[q] == v.blocks[q]
    requires |v'.chains| == |v.chains| && forall b, q :: 0 <= b < |v.chains| && q in v.chains[b] ==> q in v'.chains[b]
    ensures PageSwept(v0, v', keep, p)
  {
    hide KeptBlocks, AnyKept;
    assert v'.pages[p] == v.pages[p] && v'.owner[p] == v.owner[p] && v'.blocks[p] == v.blocks[p];
    if v0.pages[p].Large? && LargeItem(p, v0.pages[p].n) !in keep {
      forall q | p <= q < p + v0.pages[p].n
        ensures IsFree(v'.pages, v'.owner, q)
      {
        assert IsFree(v.pages, v.owner, q);
        assert v'.pages[q] == v.pages[q];
      }
    }
  }

  /** The sweep stands at the start of a piece, or in a run being allocated. */
  ghost predicate Standing(v0: View, n: nat, pos: nat) {
    && |v0.pages| == |v0.blocks| && Cut(v0.pages, v0.owner, n) && pos <= n && Stop(v0.pages, v0.owner, pos)
  }

  /** What is left of earlier pieces when the piece at `pos` changes into `v'`. */
  lemma SweptStays(v0: View, v: View, v': View, n: nat, sizes: seq<BlockSize>, keep: set<Item>, pos: nat, k: nat)
    requires Standing(v0, n, pos) && Progress(v0, v, n, sizes, keep, pos, k) && Shaped(v0, v', n) && Boundary(v0.owner, pos)
    requires forall q :: 0 <= q < pos ==> v'.pages[q] == v.pages[q] && v'.owner[q] == v.owner[q] && v'.blocks[q] == v.blocks[q]
    requires |v'.chains| == |v.chains| && forall b, q :: 0 <= b < |v.chains| && q in v.chains[b] ==> q in v'.chains[b]
    ensures forall p :: 0 <= p < pos && v0.owner[p] == p ==> PageSwept(v0, v', keep, p)
  {
    hide PageSwept, SmallPages, ChainOk;
    forall p | 0 <= p < pos && v0.owner[p] == p
      ensures PageSwept(v0, v', keep, p)
    {
      PieceStarts(v0.pages, v0.owner, n, p);
      PieceBefore(v0, n, p, pos);
      PageStays(v0, v, v', keep, p, n);
    }
  }

  lemma PieceBefore(v0: View, n: nat, p: nat, pos: nat)
    requires Cut(v0.pages, v0.owner, n) && p < pos <= n && v0.owner[p] == p && Boundary(v0.owner, pos)
    ensures p + Length(v0.pages[p]) <= pos
  {
  }

  // ---------------------------------------------------------------------------
  // The steps of a recycling sweep

  lemma SweepFree(v0: View, v: View, n: nat, sizes: seq<BlockSize>, keep: set<Item>, pos: nat)
    requires Standing(v0, n, pos) && Progress(v0, v, n, sizes, keep, pos, 0) && pos < n && v0.pages[pos].Free?
    ensures Progress(v0, v, n, sizes, keep, pos + 1, 0) && Standing(v0, n, pos + 1)
  {
    hide SmallPages, ChainOk;
  }

  /** A page being allocated is passed over. */
  lemma SweepAlloc(v0: View, v: View, n: nat, sizes: seq<BlockSize>, keep: set<Item>, pos: nat)
    requires Standing(v0, n, pos) && Progress(v0, v, n, sizes, keep, pos, 0) && pos < n && v0.pages[pos].Alloc?
    ensures Progress(v0, v, n, sizes, keep, pos + 1, 0) && Standing(v0, n, pos + 1)
  {
    hide SmallPages, ChainOk, KeptBlocks, AnyKept;
    NextStop(v0.pages, v0.owner, n, pos);
    if v0.owner[pos] == pos { AllocSwept(v0, v, n, keep, pos); }
    hide Cut, PageSwept;
    if pos + 1 < n { KeptNone(v0.blocks[pos + 1], pos + 1, keep); }
  }

  lemma AllocSwept(v0: View, v: View, n: nat, keep: set<Item>, pos: nat)
    requires Shaped(v0, v, n) && Cut(v0.pages, v0.owner, n) && pos < n && v0.owner[pos] == pos && v0.pages[pos].Alloc?
    requires forall q :: pos <= q < n ==> v.pages[q] == v0.pages[q] && v.owner[q] == v0.owner[q]
    ensures PageSwept(v0, v, keep, pos)
  {
    NextBoundary(v0.pages, v0.owner, n, pos);
  }

  lemma SweepEmpty(v0: View, v: View, v': View, n: nat, sizes: seq<BlockSize>, keep: set<Item>, pos: nat)
    requires Standing(v0, n, pos) && pos < n && v0.pages[pos].Small?
    requires Progress(v0, v, n, sizes, keep, pos, |v0.blocks[pos]|) && !AnyKept(v0.blocks[pos], pos, keep, |v0.blocks[pos]|)
    requires v' == v.(pages := v.pages[pos := Free])
    ensures Progress(v0, v', n, sizes, keep, pos + 1, 0) && Standing(v0, n, pos + 1)
  {
    hide SmallPages, ChainOk, PageSwept, KeptBlocks, AnyKept, Cut;
    PieceStarts(v0.pages, v0.owner, n, pos);
    NextBoundary(v0.pages, v0.owner, n, pos);
    SmallCut(v.pages, v.owner, n, pos, Free);
    SweptStays(v0, v, v', n, sizes, keep, pos, |v0.blocks[pos]|);
    EmptySwept(v0, v, v', keep, pos, n);
    FewerSmall(v.pages, v.owner, pos, v.blocks, sizes);
    forall b | 0 <= b < |v.chains|
      ensures ChainOk(v'.pages, v'.owner, b, v'.lists[b], v'.chains[b])
    {
      ChainApart(v.pages, v'.pages, v.owner, v'.owner, b, v.lists[b], v.chains[b], pos);
    }
    if pos + 1 < n { KeptNone(v0.blocks[pos + 1], pos + 1, keep); }
  }

  lemma EmptySwept(v0: View, v: View, v': View, keep: set<Item>, pos: nat, n: nat)
    requires Shaped(v0, v, n) && pos < n && v0.pages[pos].Small? && v.owner[pos] == pos
    requires v.blocks[pos] == KeptBlocks(v0.blocks[pos], pos, keep, |v0.blocks[pos]|) && !AnyKept(v0.blocks[pos], pos, keep, |v0.blocks[pos]|)
    requires v' == v.(pages := v.pages[pos := Free])
    ensures PageSwept(v0, v', keep, pos)
  {
  }

  lemma FewerSmall(pages: seq<Page>, owner: seq<nat>, pos: nat, blocks: seq<seq<Block>>, sizes: seq<BlockSize>)
    requires SmallPages(pages, owner, blocks, sizes) && pos < |pages|
    ensures SmallPages(pages[pos := Free], owner, blocks, sizes)
  {
  }

  /** A list all of whose pages lie below `pos` does not notice changes from `pos` on. */
  lemma ChainApart(pages: seq<Page>, pages': seq<Page>, owner: seq<nat>, owner': seq<nat>, b: nat, head: Option<nat>, chain: seq<nat>, pos: nat)
    requires ChainOk(pages, owner, b, head, chain) && |pages'| == |pages| && |owner'| == |owner|
    requires forall i :: 0 <= i < |chain| ==> chain[i] < pos
    requires forall q :: 0 <= q < pos && q < |pages| ==> pages'[q] == pages[q] && (q < |owner| ==> owner'[q] == owner[q])
    ensures ChainOk(pages', owner', b, head, chain)
  {
  }

  lemma SweepKept(v0: View, v: View, v': View, n: nat, sizes: seq<BlockSize>, keep: set<Item>, pos: nat, b: nat)
    requires Standing(v0, n, pos) && pos < n && v0.pages[pos].Small? && v0.pages[pos].bsi == b < |v.chains|
    requires Progress(v0, v, n, sizes, keep, pos, |v0.blocks[pos]|) && AnyKept(v0.blocks[pos], pos, keep, |v0.blocks[pos]|)
    requires v' == v.(pages := v.pages[pos := Page.Small(b, v.lists[b])], lists := v.lists[b := Some(pos)], chains := v.chains[b := [pos] + v.chains[b]])
    ensures Progress(v0, v', n, sizes, keep, pos + 1, 0) && Standing(v0, n, pos + 1)
  {
    hide SmallPages, ChainOk, PageSwept, KeptBlocks, AnyKept, Cut;
    PieceStarts(v0.pages, v0.owner, n, pos);
    NextBoundary(v0.pages, v0.owner, n, pos);
    SmallCut(v.pages, v.owner, n, pos, Page.Small(b, v.lists[b]));
    SweptStays(v0, v, v', n, sizes, keep, pos, |v0.blocks[pos]|);
    KeptSwept(v0, v, v', keep, pos, n, b);
    RelinkedSmall(v.pages, v.owner, pos, v.lists[b], v.blocks, sizes);
    forall c | 0 <= c < |v'.chains|
      ensures ChainOk(v'.pages, v'.owner, c, v'.lists[c], v'.chains[c])
    {
      ChainApart(v.pages, v'.pages, v.owner, v'.owner, c, v.lists[c], v.chains[c], pos);
      if c == b { ChainGrows(v'.pages, v'.owner, b, v.lists[b], v.chains[b], pos); }
    }
    if pos + 1 < n { KeptNone(v0.blocks[pos + 1], pos + 1, keep); }
  }

  lemma KeptSwept(v0: View, v: View, v': View, keep: set<Item>, pos: nat, n: nat, b: nat)
    requires Shaped(v0, v, n) && pos < n && v0.pages[pos].Small? && v0.pages[pos].bsi == b < |v.chains| && v.owner[pos] == pos
    requires v.blocks[pos] == KeptBlocks(v0.blocks[pos], pos, keep, |v0.blocks[pos]|) && AnyKept(v0.blocks[pos], pos, keep, |v0.blocks[pos]|)
    requires v' == v.(pages := v.pages[pos := Page.Small(b, v.lists[b])], lists := v.lists[b := Some(pos)], chains := v.chains[b := [pos] + v.chains[b]])
    ensures PageSwept(v0, v', keep, pos)
  {
  }

  lemma RelinkedSmall(pages: seq<Page>, owner: seq<nat>, pos: nat, next: Option<nat>, blocks: seq<seq<Block>>, sizes: seq<BlockSize>)
    requires SmallPages(pages, owner, blocks, sizes) && pos < |owner| <= |pages| && owner[pos] == pos && pages[pos].Small?
    ensures SmallPages(pages[pos := Page.Small(pages[pos].bsi, next)], owner, blocks, sizes)
  {
  }

  lemma ChainGrows(pages: seq<Page>, owner: seq<nat>, b: nat, head: Option<nat>, chain: seq<nat>, pos: nat)
    requires ChainOk(pages, owner, b, head, chain) && forall i :: 0 <= i < |chain| ==> chain[i] < pos
    requires IsSmall(pages, owner, pos) && pages[pos] == Page.Small(b, head)
    ensures ChainOk(pages, owner, b, Some(pos), [pos] + chain)
  {
  }

  lemma SweepLargeKept(v0: View, v: View, n: nat, sizes: seq<BlockSize>, keep: set<Item>, pos: nat, len: nat)
    requires Standing(v0, n, pos) && Progress(v0, v, n, sizes, keep, pos, 0) && pos < n
    requires v0.pages[pos] == Large(len) && LargeItem(pos, len) in keep
    ensures pos + len <= n && Progress(v0, v, n, sizes, keep, pos + len, 0) && Standing(v0, n, pos + len)
  {
    hide SmallPages, ChainOk, KeptBlocks, PageSwept, Cut;
    PieceStarts(v0.pages, v0.owner, n, pos);
    NextBoundary(v0.pages, v0.owner, n, pos);
    forall q | pos <= q < pos + len
      ensures v0.owner[q] == pos
    {
      PieceOwns(v0.pages, v0.owner, n, pos, q);
    }
    LargeKeptSwept(v0, v, n, keep, pos, len);
    if pos + len < n { KeptNone(v0.blocks[pos + len], pos + len, keep); }
  }

  lemma LargeKeptSwept(v0: View, v: View, n: nat, keep: set<Item>, pos: nat, len: nat)
    requires Shaped(v0, v, n) && pos + len <= n && len > 0 && v0.pages[pos] == Large(len) && LargeItem(pos, len) in keep
    requires forall q :: pos <= q < pos + len ==> v.pages[q] == v0.pages[q] && v.owner[q] == v0.owner[q] == pos
    ensures PageSwept(v0, v, keep, pos)
  {
  }

  /** A run of pages becomes single free pages. */
  ghost function Freed(v: View, pos: nat, len: nat): View
    requires pos + len <= |v.owner| <= |v.pages|
  {
    v.(pages := seq(|v.pages|, q requires 0 <= q < |v.pages| => if pos <= q < pos + len then Free else v.pages[q]),
       owner := seq(|v.owner|, q requires 0 <= q < |v.owner| => if pos <= q < pos + len then q else v.owner[q]))
  }

  lemma FreedFacts(v: View, pos: nat, len: nat)
    requires pos + len <= |v.owner| <= |v.pages|
    ensures var v' := Freed(v, pos, len);
            && |v'.pages| == |v.pages| && |v'.owner| == |v.owner| && v'.blocks == v.blocks && v'.lists == v.lists && v'.chains == v.chains
            && (forall q :: 0 <= q < |v.pages| && !(pos <= q < pos + len) ==> v'.pages[q] == v.pages[q])
            && (forall q :: 0 <= q < |v.owner| && !(pos <= q < pos + len) ==> v'.owner[q] == v.owner[q])
  {
  }

  lemma FreedCut(v: View, n: nat, pos: nat, len: nat)
    requires Cut(v.pages, v.owner, n) && pos + len <= n && len > 0 && v.owner[pos] == pos && Length(v.pages[pos]) == len
    ensures Cut(Freed(v, pos, len).pages, Freed(v, pos, len).owner, n)
  {
    var v' := Freed(v, pos, len);
    FreedFacts(v, pos, len);
    forall k | 0 <= k < n
      ensures v'.owner[k] <= k && v'.owner[v'.owner[k]] == v'.owner[k] && k < v'.owner[k] + Length(v'.pages[v'.owner[k]])
      ensures v'.pages[v'.owner[k]].Alloc? ==> v'.pages[k].Alloc?
      ensures v'.owner[k] == (if pos <= k < pos + len then k else v.owner[k]) && (pos <= k < pos + len <==> v.owner[k] == pos)
    {
      PieceOf(v.pages, v.owner, n, k);
      if pos <= k < pos + len { PieceOwns(v.pages, v.owner, n, pos, k); }
      if pos <= v.owner[k] < pos + len { PieceOwns(v.pages, v.owner, n, pos, v.owner[k]); }
    }
    hide Freed;
  }

  lemma FreedSmall(v: View, pos: nat, len: nat, sizes: seq<BlockSize>)
    requires SmallPages(v.pages, v.owner, v.blocks, sizes) && pos + len <= |v.owner| <= |v.pages|
    ensures SmallPages(Freed(v, pos, len).pages, Freed(v, pos, len).owner, v.blocks, sizes)
  {
  }

  lemma SweepLargeFreed(v0: View, v: View, n: nat, sizes: seq<BlockSize>, keep: set<Item>, pos: nat, len: nat)
    requires Standing(v0, n, pos) && Progress(v0, v, n, sizes, keep, pos, 0) && pos < n
    requires v0.pages[pos] == Large(len) && LargeItem(pos, len) !in keep
    ensures pos + len <= n && Progress(v0, Freed(v, pos, len), n, sizes, keep, pos + len, 0) && Standing(v0, n, pos + len)
  {
    hide SmallPages, ChainOk, KeptBlocks, PageSwept, Cut, Freed, AnyKept;
    PieceStarts(v0.pages, v0.owner, n, pos);
    NextBoundary(v0.pages, v0.owner, n, pos);
    var v' := Freed(v, pos, len);
    FreedFacts(v, pos, len);
    FreedCut(v, n, pos, len);
    FreedSmall(v, pos, len, sizes);
    SweptStays(v0, v, v', n, sizes, keep, pos, 0);
    FreedSwept(v0, v, keep, pos, len, n);
    forall b | 0 <= b < |v.chains|
      ensures ChainOk(v'.pages, v'.owner, b, v'.lists[b], v'.chains[b])
    {
      ChainApart(v.pages, v'.pages, v.owner, v'.owner, b, v.lists[b], v.chains[b], pos);
    }
    forall q | pos < q < pos + len
      ensures v0.owner[q] == pos
    {
      PieceOwns(v0.pages, v0.owner, n, pos, q);
    }
    if pos + len < n { KeptNone(v0.blocks[pos + len], pos + len, keep); }
  }

  lemma FreedSwept(v0: View, v: View, keep: set<Item>, pos: nat, len: nat, n: nat)
    requires Shaped(v0, v, n) && pos + len <= n && len > 0 && v0.pages[pos] == Large(len) && LargeItem(pos, len) !in keep
    ensures PageSwept(v0, Freed(v, pos, len), keep, pos)
  {
  }

  /** The driver's part for one small block: leave it, or free it. */
  lemma SweepBlock(v0: View, v: View, v': View, n: nat, sizes: seq<BlockSize>, keep: set<Item>, pos: nat, k: nat)
    requires Standing(v0, n, pos) && Progress(v0, v, n, sizes, keep, pos, k) && pos < n && k < |v0.blocks[pos]| && IsSmall(v0.pages, v0.owner, pos)
    requires v' == if Occupied(v0.blocks[pos][k]) && SmallItem(pos, k) !in keep then v.(blocks := v.blocks[pos := v.blocks[pos][k := FreeBlock]]) else v
    ensures Progress(v0, v', n, sizes, keep, pos, k + 1)
  {
    hide PageSwept, Cut, ChainOk, SmallPages;
    if Occupied(v0.blocks[pos][k]) { KeptOne(v0.blocks[pos], pos, keep, k); } else { KeptSkip(v0.blocks[pos], pos, keep, k); }
    SameLengths(v.pages, v.owner, v.blocks, v'.blocks, sizes);
    SweptStays(v0, v, v', n, sizes, keep, pos, k);
  }

  // ---------------------------------------------------------------------------
  // The iterator

  class Sweep {
    const heap: Heap
    var page: nat
    var small: bool         // whether the page is one of small blocks
    var k: nat              // the block of a small page last returned
    var blocksLeft: nat
    var blocksLive: bool
    var npages: nat
    ghost const v0: View
    ghost const keep: set<Item>

    /** The heap as it is now. */
    ghost function Now(): View
      reads this, heap, heap.pages, heap.blocks, heap.lists
    {
      View(heap.pages[..], heap.owner, heap.blocks[..], heap.lists[..], heap.chains)
    }

    ghost predicate Arrays()
      reads this, heap, heap.pages, heap.blocks, heap.lists
    {
      && (heap.lists as object) != heap.pages && (heap.lists as object) != heap.blocks && (heap.pages as object) != heap.blocks
      && heap.numPages <= heap.pages.Length == heap.blocks.Length && heap.lists.Length == |heap.sizes| == |heap.chains|
      && |v0.pages| == |v0.blocks| && heap.numPages <= |v0.pages|
      && Shaped(v0, Now(), heap.numPages) && Standing(v0, heap.numPages, 0) && SmallPages(v0.pages, v0.owner, v0.blocks, heap.sizes)
      && forall b :: 0 <= b < |heap.sizes| ==> heap.sizes[b].count > 0
    }

    /** What lies before the cursor is swept; without recycling nothing has changed. */
    ghost predicate Sofar(recycle: bool, pos: nat, j: nat)
      reads this, heap, heap.pages, heap.blocks, heap.lists
    {
      Arrays() && pos <= heap.numPages && Standing(v0, heap.numPages, pos) &&
      if recycle then Progress(v0, Now(), heap.numPages, heap.sizes, keep, pos, j) else Now() == v0
    }

    ghost predicate AtBlock(recycle: bool, j: nat)
      reads this, heap, heap.pages, heap.blocks, heap.lists
    {
      && Sofar(recycle, page, j)
      && page < heap.numPages && page < |v0.blocks| && IsSmall(v0.pages, v0.owner, page) && k < |v0.blocks[page]| && blocksLeft == |v0.blocks[page]| - k
      && k <= j <= k + 1 && (recycle ==> (blocksLive <==> AnyKept(v0.blocks[page], page, keep, j)))
    }

    /** Ready to move on: the item last returned has been dealt with. */
    ghost predicate Ready(recycle: bool)
      reads this, heap, heap.pages, heap.blocks, heap.lists
    {
      if small then AtBlock(recycle, k + 1) else Sofar(recycle, page + npages, 0)
    }

    /** What is still to be returned. */
    ghost function Rest(): seq<Item>
      requires |v0.pages| == |v0.blocks| && heap.numPages <= |v0.pages|
      requires small ==> page < |v0.blocks| && k < |v0.blocks[page]|
      reads this, heap
    {
      if small then BlocksFrom(v0.blocks[page], page, k + 1) + ItemsFrom(v0.pages, v0.blocks, heap.numPages, page + 1)
      else ItemsFrom(v0.pages, v0.blocks, heap.numPages, page + npages)
    }

    constructor (h: Heap, ghost kept: set<Item>)
      requires h.Valid() && forall b :: 0 <= b < |h.sizes| ==> h.lists[b] == None && h.chains[b] == []
      ensures heap == h && keep == kept && v0 == View(h.pages[..], h.owner, h.blocks[..], h.lists[..], h.chains)
      ensures Ready(true) && Ready(false) && !small && page == npages == 0
    {
      heap, keep := h, kept;
      page, npages, small, k, blocksLeft, blocksLive := 0, 0, false, 0, 0, false;
      v0 := View(h.pages[..], h.owner, h.blocks[..], h.lists[..], h.chains);
      new;
      hide *;
      Started();
    }

    lemma Started()
      requires heap.Valid() && forall b :: 0 <= b < |heap.sizes| ==> heap.lists[b] == None && heap.chains[b] == []
      requires v0 == View(heap.pages[..], heap.owner, heap.blocks[..], heap.lists[..], heap.chains)
      requires page == npages == 0 && !small
      ensures Ready(true) && Ready(false)
    {
      hide Cut, SmallPages, Progress, Standing, ChainOk, HintOk;
      OwnerLength(heap.pages[..], heap.owner, heap.numPages);
      Begin(v0, heap.numPages, heap.sizes, keep);
      assert Now() == v0;
    }

    /** All blocks of a small page have been visited: free the page, or put it on its list. */
    method FinishPage()
      requires AtBlock(true, k + 1) && k + 1 == |v0.blocks[page]|
      modifies heap.pages, heap.lists, heap`chains
      ensures Sofar(true, page + 1, 0)
    {
      hide Progress, Standing, Shaped, SmallPages, AnyKept;
      ghost var v := Now();
      ghost var b := v0.pages[page].bsi;
      SmallHere();
      if !blocksLive {
        heap.pages[page] := Free;
        assert Now() == v.(pages := v.pages[page := Free]);
        SweepEmpty(v0, v, Now(), heap.numPages, heap.sizes, keep, page);
      } else {
        var bsi := heap.pages[page].bsi;
        heap.pages[page] := Page.Small(bsi, heap.lists[bsi]);
        heap.lists[bsi] := Some(page);
        heap.chains := heap.chains[bsi := [page] + heap.chains[bsi]];
        assert Now() == v.(pages := v.pages[page := Page.Small(b, v.lists[b])], lists := v.lists[b := Some(page)], chains := v.chains[b := [page] + v.chains[b]]);
        SweepKept(v0, v, Now(), heap.numPages, heap.sizes, keep, page, b);
      }
      StillShaped(v0, v, Now(), heap.numPages);
    }

    /** Move on from the current block to the next occupied one of the page, or past the page. */
    method Advance(recycle: bool) returns (found: bool)
      requires AtBlock(recycle, k + 1)
      modifies this`page, this`k, this`blocksLeft, this`npages, heap.pages, heap.lists, heap`chains
      ensures recycle || (heap.pages[..] == old(heap.pages[..]) && heap.lists[..] == old(heap.lists[..]) && heap.chains == old(heap.chains))
      ensures if found then
                && AtBlock(recycle, k) && page == old(page) && k > old(k) && Occupied(v0.blocks[page][k])
                && BlocksFrom(v0.blocks[page], page, old(k) + 1) == [SmallItem(page, k)] + BlocksFrom(v0.blocks[page], page, k + 1)
              else
                && Sofar(recycle, page, 0) && page == old(page) + 1 && npages == 0
                && BlocksFrom(v0.blocks[page - 1], page - 1, old(k) + 1) == []
    {
      hide Progress, Standing, Shaped, SmallPages, AnyKept, KeptBlocks;
      while true
        invariant AtBlock(recycle, k + 1) && page == old(page) && k >= old(k)
        invariant BlocksFrom(v0.blocks[page], page, old(k) + 1) == BlocksFrom(v0.blocks[page], page, k + 1)
        invariant recycle || (heap.pages[..] == old(heap.pages[..]) && heap.lists[..] == old(heap.lists[..]) && heap.chains == old(heap.chains))
        decreases blocksLeft
      {
        if blocksLeft == 1 {
          if recycle { FinishPage(); } else { PastSmall(v0, heap.numPages, page); }
          page, npages := page + 1, 0;
          return false;
        }
        blocksLeft := blocksLeft - 1;
        k := k + 1;
        BlockHere(recycle);
        if Occupied(heap.blocks[page][k]) { return true; }
        if recycle {
          SweepBlock(v0, Now(), Now(), heap.numPages, heap.sizes, keep, page, k);
          KeptSkip(v0.blocks[page], page, keep, k);
        }
      }
    }

    /** The page at the cursor, and what starts there. */
    lemma PageHere(recycle: bool)
      requires Sofar(recycle, page, 0) && page < heap.numPages
      ensures page < heap.pages.Length == |v0.pages| == |v0.blocks| && heap.pages[page] == v0.pages[page]
      ensures !v0.pages[page].Data? && (v0.pages[page].Large? ==> v0.pages[page].n > 0)
      ensures v0.pages[page].Small? ==>
                && IsSmall(v0.pages, v0.owner, page) && v0.pages[page].bsi < |heap.sizes|
                && |v0.blocks[page]| == heap.sizes[v0.pages[page].bsi].count > 0
      ensures v0.pages[page].Free? || v0.pages[page].Alloc? ==> Standing(v0, heap.numPages, page + 1)
      ensures v0.pages[page].Large? ==> page + v0.pages[page].n <= heap.numPages && Standing(v0, heap.numPages, page + v0.pages[page].n)
    {
      hide PageSwept, ChainOk, KeptBlocks;
      if v0.pages[page].Alloc? { NextStop(v0.pages, v0.owner, heap.numPages, page); }
    }

    /** Go to the first occupied block of a page of small blocks, or past the page. */
    method EnterPage(recycle: bool, bsi: nat) returns (found: bool)
      requires Sofar(recycle, page, 0) && page < heap.numPages && bsi < |heap.sizes|
      requires page < |v0.blocks| && IsSmall(v0.pages, v0.owner, page) && v0.pages[page].bsi == bsi && |v0.blocks[page]| == heap.sizes[bsi].count > 0
      modifies this, heap.pages, heap.lists, heap`chains
      ensures recycle || (heap.pages[..] == old(heap.pages[..]) && heap.lists[..] == old(heap.lists[..]) && heap.chains == old(heap.chains))
      ensures found ==> small && AtBlock(recycle, k) && page == old(page) && Occupied(v0.blocks[page][k])
      ensures found ==> BlocksFrom(v0.blocks[page], page, 0) == [SmallItem(page, k)] + BlocksFrom(v0.blocks[page], page, k + 1)
      ensures !found ==> !small && npages == 0 && Sofar(recycle, page, 0) && page == old(page) + 1 && BlocksFrom(v0.blocks[page - 1], page - 1, 0) == []
    {
      hide Progress, Standing, SmallPages, AnyKept, KeptBlocks, Cut, Shaped;
      small, k, blocksLeft, blocksLive := true, 0, heap.sizes[bsi].count, false;
      KeptNone(v0.blocks[page], page, keep);
      BlockHere(recycle);
      if Occupied(heap.blocks[page][0]) { return true; }
      if recycle {
        SweepBlock(v0, Now(), Now(), heap.numPages, heap.sizes, keep, page, 0);
        KeptSkip(v0.blocks[page], page, keep, 0);
      }
      found := Advance(recycle);
      small := found;
    }

    /** `r` is the first of the items there were, and those left are the others. */
    ghost predicate Returned(recycle: bool, r: Option<Item>, items: seq<Item>)
      reads this, heap, heap.pages, heap.blocks, heap.lists
    {
      match r
      case None => items == [] && Sofar(recycle, heap.numPages, 0)
      case Some(SmallItem(p, j)) =>
        small && p == page && j == k && AtBlock(recycle, k) && Occupied(v0.blocks[page][k]) && items == [r.value] + Rest()
      case Some(LargeItem(p, n)) =>
        && !small && p == page && n == npages > 0 && Sofar(recycle, page, 0) && page < heap.numPages && v0.pages[page] == Large(npages)
        && items == [r.value] + Rest()
    }

    method NextPage(recycle: bool) returns (r: Option<Item>)
      requires Sofar(recycle, page, 0) && !small && npages == 0
      modifies this, heap.pages, heap.lists, heap`chains
      ensures recycle || (heap.pages[..] == old(heap.pages[..]) && heap.lists[..] == old(heap.lists[..]) && heap.chains == old(heap.chains))
      ensures Returned(recycle, r, old(ItemsFrom(v0.pages, v0.blocks, heap.numPages, page)))
    {
      hide Progress, Standing, SmallPages, AnyKept, KeptBlocks, Cut, Shaped, BlocksFrom, AtBlock, ItemsFrom;
      ghost var rest := ItemsFrom(v0.pages, v0.blocks, heap.numPages, page);
      while page != heap.numPages
        invariant Sofar(recycle, page, 0) && !small && npages == 0
        invariant ItemsFrom(v0.pages, v0.blocks, heap.numPages, page) == rest
        invariant recycle || (heap.pages[..] == old(heap.pages[..]) && heap.lists[..] == old(heap.lists[..]) && heap.chains == old(heap.chains))
        decreases heap.numPages - page
      {
        PageHere(recycle);
        ItemsHere(v0.pages, v0.blocks, heap.numPages, page);
        match heap.pages[page]
        case Free =>
          if recycle { SweepFree(v0, Now(), heap.numPages, heap.sizes, keep, page); }
          page := page + 1;
        case Alloc(_) =>
          if recycle { SweepAlloc(v0, Now(), heap.numPages, heap.sizes, keep, page); }
          page := page + 1;
        case Small(bsi, _) =>
          ghost var later := ItemsFrom(v0.pages, v0.blocks, heap.numPages, page + 1);
          var found := EnterPage(recycle, bsi);
          if found {
            FirstOfPage(recycle, later, rest);
            return Some(SmallItem(page, k));
          }
          assert rest == [] + later;
        case Large(n) =>
          npages := n;
          return Some(LargeItem(page, n));
      }
      ItemsEnd(v0.pages, v0.blocks, heap.numPages);
      r := None;
    }

    lemma FirstOfPage(recycle: bool, later: seq<Item>, rest: seq<Item>)
      requires small && AtBlock(recycle, k) && later == ItemsFrom(v0.pages, v0.blocks, heap.numPages, page + 1)
      requires rest == [SmallItem(page, k)] + BlocksFrom(v0.blocks[page], page, k + 1) + later
      ensures rest == [SmallItem(page, k)] + Rest()
    {
      hide Progress, Standing, Shaped, SmallPages, AnyKept, BlocksFrom, ItemsFrom;
    }

    /** The next occupied block or large object, or None at the end of the heap. */
    method Next(recycle: bool) returns (r: Option<Item>)
      requires Ready(recycle)
      modifies this, heap.pages, heap.lists, heap`chains
      ensures recycle || (heap.pages[..] == old(heap.pages[..]) && heap.lists[..] == old(heap.lists[..]) && heap.chains == old(heap.chains))
      ensures Returned(recycle, r, old(Rest()))
    {
      hide Progress, Standing, SmallPages, AnyKept, KeptBlocks, Cut, Shaped, BlocksFrom, ItemsFrom;
      if small {
        ghost var rest, later := Rest(), ItemsFrom(v0.pages, v0.blocks, heap.numPages, page + 1);
        var found := Advance(recycle);
        if found {
          FirstOfPage(recycle, later, rest);
          return Some(SmallItem(page, k));
        }
        assert rest == [] + later;
      } else {
        page, npages := page + npages, 0;
      }
      small := false;
      r := NextPage(recycle);
    }

    /** Without recycling there is nothing more to do with an item. */
    lemma Visited()
      requires Now() == v0
      requires small ==> AtBlock(false, k)
      requires !small ==> Sofar(false, page, 0) && page < heap.numPages && v0.pages[page] == Large(npages)
      ensures Ready(false)
    {
    }

    /** What is still to be returned by a sweep that recycles nothing. */
    ghost function Left(): seq<Item>
      reads this, heap, heap.pages, heap.blocks, heap.lists
    {
      if Ready(false) then Rest() else []
    }

    /** The next item of a sweep that recycles nothing. */
    method NextItem() returns (r: Option<Item>)
      requires Ready(false)
      modifies this, heap.pages, heap.lists, heap`chains
      ensures Now() == v0 && (r.Some? ==> Ready(false))
      ensures old(Left()) == match r case None => [] case Some(x) => [x] + Left()
    {
      hide Progress, Standing, Cut, SmallPages, BlocksFrom, ItemsFrom, Shaped, AnyKept;
      r := Next(false);
      if r.Some? { Visited(); }
    }

    lemma LeftAtStart()
      requires Ready(false) && !small && page == npages == 0
      ensures Now() == v0 && |v0.pages| == |v0.blocks| && heap.numPages <= |v0.pages|
      ensures Left() == ItemsFrom(v0.pages, v0.blocks, heap.numPages, 0)
    {
    }

    /** Keep the item just returned, or free it. */
    method Dispose(x: Item, kept: set<Item>, ghost items: seq<Item>)
      requires kept == keep && Returned(true, Some(x), items)
      modifies this`blocksLive, heap`owner, heap.pages, heap.blocks
      ensures Ready(true) && |Rest()| < |items|
    {
      hide Progress, Standing, SmallPages, AnyKept, KeptBlocks, Cut, Shaped, BlocksFrom, ItemsFrom, AtBlock, Sofar;
      if x in kept {
        KeepIt();
      } else if small {
        FreeBlockHere();
      } else {
        FreePagesHere();
      }
    }

    /** After the last item the heap is swept, and fit for allocation. */
    lemma Finished()
      requires Sofar(true, heap.numPages, 0)
      ensures Cut(heap.pages[..], heap.owner, heap.numPages) && SmallPages(heap.pages[..], heap.owner, heap.blocks[..], heap.sizes)
      ensures forall b :: 0 <= b < |heap.sizes| ==> ChainOk(heap.pages[..], heap.owner, b, heap.lists[b], heap.chains[b])
      ensures forall p :: 0 <= p < heap.numPages && v0.owner[p] == p ==> PageSwept(v0, Now(), keep, p)
      ensures Boundary(heap.owner, 0) && Shaped(v0, Now(), heap.numPages) && heap.pages.Length == heap.blocks.Length
    {
    }

    /** A block or large object that is kept stays where it is. */
    method KeepIt()
      requires small ==> AtBlock(true, k) && Occupied(v0.blocks[page][k]) && SmallItem(page, k) in keep
      requires !small ==> Sofar(true, page, 0) && page < heap.numPages && v0.pages[page] == Large(npages) && LargeItem(page, npages) in keep
      modifies this`blocksLive
      ensures Ready(true) && (small ==> blocksLive)
    {
      hide Progress, Standing, SmallPages, AnyKept, KeptBlocks, Cut, Shaped;
      if small {
        SweepBlock(v0, Now(), Now(), heap.numPages, heap.sizes, keep, page, k);
        KeptOne(v0.blocks[page], page, keep, k);
        blocksLive := true;
      } else {
        SweepLargeKept(v0, Now(), heap.numPages, heap.sizes, keep, page, npages);
      }
    }

    /** A block that is not kept becomes a free block. */
    method FreeBlockHere()
      requires small && AtBlock(true, k) && Occupied(v0.blocks[page][k]) && SmallItem(page, k) !in keep
      modifies heap.blocks
      ensures Ready(true)
    {
      hide Progress, Standing, SmallPages, AnyKept, KeptBlocks, Cut;
      ghost var v := Now();
      BlockHere(true);
      heap.blocks[page] := heap.blocks[page][k := FreeBlock];
      assert Now() == v.(blocks := v.blocks[page := v.blocks[page][k := FreeBlock]]);
      SweepBlock(v0, v, Now(), heap.numPages, heap.sizes, keep, page, k);
      KeptOne(v0.blocks[page], page, keep, k);
    }

    /** The pages of a large object that is not kept become free pages. */
    method FreePagesHere()
      requires !small && Sofar(true, page, 0) && page < heap.numPages && v0.pages[page] == Large(npages) && LargeItem(page, npages) !in keep
      modifies heap.pages, heap`owner
      ensures Ready(true)
    {
      hide Progress, Standing, SmallPages, AnyKept, KeptBlocks, Cut;
      ghost var v := Now();
      SweepLargeFreed(v0, v, heap.numPages, heap.sizes, keep, page, npages);
      for i := 0 to npages
        invariant heap.owner == v.owner
        invariant forall q :: 0 <= q < heap.pages.Length ==> heap.pages[q] == if page <= q < page + i then Free else v.pages[q]
      {
        heap.pages[page + i] := Free;
      }
      heap.owner := Freed(v, page, npages).owner;
      assert Now() == Freed(v, page, npages);
    }

    lemma BlockHere(recycle: bool)
      requires AtBlock(recycle, k)
      ensures page < heap.blocks.Length && k < |heap.blocks[page]| && heap.blocks[page][k] == v0.blocks[page][k]
    {
    }

    lemma SmallHere()
      requires AtBlock(true, k + 1)
      ensures heap.pages[page] == v0.pages[page] && v0.pages[page].Small? && v0.pages[page].bsi < |heap.sizes|
      ensures heap.blocks[page] == KeptBlocks(v0.blocks[page], page, keep, k + 1)
    {
    }
  }

  lemma Begin(v0: View, n: nat, sizes: seq<BlockSize>, keep: set<Item>)
    requires |v0.pages| == |v0.blocks| && Cut(v0.pages, v0.owner, n) && SmallPages(v0.pages, v0.owner, v0.blocks, sizes)
    requires |v0.lists| == |v0.chains| && forall b :: 0 <= b < |v0.chains| ==> v0.lists[b] == None && v0.chains[b] == []
    ensures Standing(v0, n, 0) && Shaped(v0, v0, n) && Progress(v0, v0, n, sizes, keep, 0, 0)
  {
  }

  lemma FirstBoundary(pages: seq<Page>, owner: seq<nat>, n: nat)
    requires Cut(pages, owner, n)
    ensures Boundary(owner, 0)
  {
  }

  lemma PastSmall(v0: View, n: nat, p: nat)
    requires Standing(v0, n, p) && p < n && IsSmall(v0.pages, v0.owner, p)
    ensures Standing(v0, n, p + 1)
  {
  }

  lemma StillShaped(v0: View, v: View, v': View, n: nat)
    requires Shaped(v0, v, n)
    requires |v'.pages| == |v.pages| && v'.owner == v.owner && v'.blocks == v.blocks && |v'.lists| == |v.lists| && |v'.chains| == |v.chains|
    ensures Shaped(v0, v', n)
  {
  }

  // ---------------------------------------------------------------------------
  // Recycling after a collection

  ghost function ViewOf(h: Heap): View
    reads h, h.pages, h.blocks, h.lists
  {
    View(h.pages[..], h.owner, h.blocks[..], h.lists[..], h.chains)
  }

  /** Free every block and large object not in `keep`, with the world stopped and all hints
      and lists reset. Pages without a kept block become free, the others form the lists of
      pages to use first. */
  method Recycle(h: Heap, keep: set<Item>)
    requires h.Valid() && forall b :: 0 <= b < |h.sizes| ==> h.lists[b] == None && h.chains[b] == [] && h.hints[b] == None
    modifies h`owner, h`chains, h`nextPage, h.pages, h.blocks, h.lists
    ensures h.Valid() && h.nextPage == 0
    ensures forall p :: 0 <= p < h.numPages && old(h.owner[p]) == p ==> PageSwept(old(ViewOf(h)), ViewOf(h), keep, p)
  {
    hide PageSwept, AnyKept, KeptBlocks, Cut, SmallPages, ChainOk, Progress, Standing, Sweep.Rest, Sweep.AtBlock, Sweep.Sofar, Sweep.Arrays;
    ghost var v0 := ViewOf(h);
    var s := new Sweep(h, keep);
    RecycleLoop(s, keep);
    s.Finished();
    assert s.Now() == ViewOf(h);
    h.nextPage := 0;
  }

  method RecycleLoop(s: Sweep, keep: set<Item>)
    requires s.Ready(true) && s.keep == keep
    modifies s, s.heap`owner, s.heap`chains, s.heap.pages, s.heap.blocks, s.heap.lists
    ensures s.Sofar(true, s.heap.numPages, 0)
  {
    hide PageSwept, AnyKept, KeptBlocks, Progress, Standing, Cut, SmallPages, Shaped, BlocksFrom, ItemsFrom;
    while true
      invariant s.Ready(true)
      decreases |s.Rest()|
    {
      ghost var items := s.Rest();
      var r := s.Next(true);
      if r.None? { return; }
      s.Dispose(r.value, keep, items);
    }
  }

  /** The pages of small blocks left, hence the pages on the lists, are those with a kept block. */
  lemma ListsExact(v0: View, v: View, n: nat, keep: set<Item>, p: nat)
    requires Shaped(v0, v, n) && Cut(v0.pages, v0.owner, n) && p < n
    requires forall q :: 0 <= q < n && v0.owner[q] == q ==> PageSwept(v0, v, keep, q)
    ensures IsSmall(v.pages, v.owner, p) <==>
              IsSmall(v0.pages, v0.owner, p) && AnyKept(v0.blocks[p], p, keep, |v0.blocks[p]|)
  {
    hide KeptBlocks, AnyKept;
    PieceOf(v0.pages, v0.owner, n, p);
    var a := v0.owner[p];
    PieceStarts(v0.pages, v0.owner, n, a);
    hide Cut;
    assert PageSwept(v0, v, keep, a);
    if v0.pages[a].Large? && LargeItem(a, v0.pages[a].n) !in keep { assert IsFree(v.pages, v.owner, p); }
  }

  /** A sweep without recycling changes nothing and visits every item in turn. */
  method Visit(h: Heap) returns (items: seq<Item>)
    requires h.Valid() && forall b :: 0 <= b < |h.sizes| ==> h.lists[b] == None && h.chains[b] == []
    modifies h.pages, h.lists, h`chains
    ensures ViewOf(h) == old(ViewOf(h)) && h.numPages <= h.pages.Length == h.blocks.Length
    ensures items == ItemsFrom(h.pages[..], h.blocks[..], h.numPages, 0)
  {
    hide Cut, SmallPages, ChainOk, HintOk, Progress, Standing, Sweep.AtBlock, Sweep.Sofar, ItemsFrom;
    var s := new Sweep(h, {});
    s.LeftAtStart();
    items := VisitLoop(s);
  }

  /** The items are exactly the occupied blocks and large objects, each once, in address order. */
  lemma VisitItems(v0: View, owner: seq<nat>, n: nat)
    requires v0.owner == owner && Cut(v0.pages, owner, n) && |v0.pages| == |v0.blocks|
    ensures var items := ItemsFrom(v0.pages, v0.blocks, n, 0);
            && (forall x :: x in items <==> IsItem(v0.pages, owner, v0.blocks, x))
            && (forall i, j :: 0 <= i < j < |items| ==> Before(items[i], items[j]))
  {
    FirstBoundary(v0.pages, owner, n);
    ItemsExact(v0.pages, owner, v0.blocks, n, 0);
  }

  method VisitLoop(s: Sweep) returns (items: seq<Item>)
    requires s.Ready(false)
    modifies s, s.heap.pages, s.heap.lists, s.heap`chains
    ensures s.Now() == s.v0 && items == old(s.Left())
  {
    hide Sweep.Ready, Sweep.Left;
    items := [];
    ghost var all := s.Left();
    while true
      invariant s.Ready(false) && all == items + s.Left()
      decreases |s.Left()|
    {
      ghost var before := items;
      var r := s.NextItem();
      if r.None? { return; }
      items := items + [r.value];
      assert before + ([r.value] + s.Left()) == items + s.Left();
    }
  }
}
