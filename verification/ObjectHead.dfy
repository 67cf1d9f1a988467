/** Finding the header of an object from its block, and its block from any address inside. */
module ObjectHead {
  import opened Options
  import opened HeapSizes
  import opened Products
  import opened HeapPages

  type Word = x: int | 0 <= x < 0x1_0000_0000

  // ---------------------------------------------------------------------------
  // The words a block can begin with

  const BLOCK_FREE: Word := 1
  const BLOCK_ALLOC: Word := 3
  const BTYPE_SKIP := 31
  const MAX_SKIP := 0x800_0000
  const TYPE_REFERENCE := 10

  predicate Odd(w: Word) {
    w % 2 == 1
  }

  function BType(w: Word): nat {
    w % 32
  }

  function Skip(w: Word): nat {
    w / 32
  }

  function SkipWord(n: nat): Word
    requires n < MAX_SKIP
  {
    n * 32 + BTYPE_SKIP
  }

  /** A lockword: the odd bit, the type of the object or of the elements of the array,
      the array bit, and above them anything: mark bits, reference count, thread or lock id. */
  predicate IsLockword(w: Word) {
    var t, isArray := w / 2 % 16, w / 32 % 2 == 1;
    Odd(w) && 1 <= t <= TYPE_REFERENCE && (!isArray ==> t == TYPE_REFERENCE)
  }

  predicate IsReference(w: Word) {
    !Odd(w)
  }

  /** No free, allocating, skip or lock word is taken for another, nor for a reference. */
  lemma NotConfused(w: Word, n: nat)
    requires n < MAX_SKIP
    ensures IsLockword(w) ==> w != BLOCK_FREE && w != BLOCK_ALLOC && BType(w) != BTYPE_SKIP && !IsReference(w)
    ensures BType(SkipWord(n)) == BTYPE_SKIP && Skip(SkipWord(n)) == n && Odd(SkipWord(n))
    ensures SkipWord(n) != BLOCK_FREE && SkipWord(n) != BLOCK_ALLOC && !IsLockword(SkipWord(n))
    ensures IsReference(w) ==> w != BLOCK_FREE && w != BLOCK_ALLOC
  {
  }

  // ---------------------------------------------------------------------------
  // An object in its block

  /** Where the header is, counted from the start of the block. */
  function HeadAt(nrefs: nat, skip: bool): nat {
    if skip then nrefs + 1 else nrefs
  }

  /** A block holding an object: perhaps a skip word, then the references, then the header. */
  ghost predicate Holds(mem: seq<Word>, block: nat, nrefs: nat, skip: bool) {
    var head := block + HeadAt(nrefs, skip);
    && head < |mem| && IsLockword(mem[head])
    && (skip ==> nrefs + 1 < MAX_SKIP && mem[block] == SkipWord(nrefs + 1))
    && (forall i :: head - nrefs <= i < head ==> IsReference(mem[i]))
  }

  method FindObjectHead(mem: array<Word>, block: nat, ghost nrefs: nat, ghost skip: bool) returns (head: nat)
    requires Holds(mem[..], block, nrefs, skip)
    ensures head == block + HeadAt(nrefs, skip)
  {
    var word := mem[block];
    NotConfused(mem[block + HeadAt(nrefs, skip)], if skip then nrefs + 1 else 0);
    if Odd(word) {
      if BType(word) == BTYPE_SKIP { return block + Skip(word); }
      return block;
    }
    head := block + 1;
    while !Odd(mem[head])
      invariant !skip && block < head <= block + nrefs
      decreases block + nrefs - head
    {
      head := head + 1;
    }
  }

  /** Zero the references and the other fields, write the header, and the first word last. */
  method InitializeObject(mem: array<Word>, block: nat, typeWord: Word, lockword: Word, nrefs: nat, prims: nat, skip: bool) returns (head: nat)
    requires IsLockword(lockword) && block + HeadAt(nrefs, skip) + 2 + prims <= mem.Length && (skip ==> nrefs + 1 < MAX_SKIP)
    modifies mem
    ensures head == block + HeadAt(nrefs, skip) && Holds(mem[..], block, nrefs, skip)
    ensures mem[head] == lockword && mem[head + 1] == typeWord
    ensures forall i :: head - nrefs <= i < head ==> mem[i] == 0
    ensures forall i :: head + 2 <= i < head + 2 + prims ==> mem[i] == 0
    ensures forall i :: 0 <= i < mem.Length && !(block <= i < head + 2 + prims) ==> mem[i] == old(mem[i])
  {
    var start := if skip then block + 1 else block;
    head := start + nrefs;
    Clear(mem, if skip then start else start + 1, head);
    mem[head + 1] := typeWord;
    mem[head] := lockword;
    Clear(mem, head + 2, head + 2 + prims);
    if skip {
      mem[block] := SkipWord(nrefs + 1);
    } else if nrefs > 0 {
      mem[start] := 0;
    }
    forall i | head - nrefs <= i < head
      ensures mem[i] == 0
    {
    }
  }

  const SKIP_MIN_REFS := 3

  /** The bytes an object may fill in the block or the pages chosen for it. */
  ghost function Room(l: Layout, sizes: seq<BlockSize>, c: Choice): int
    requires LayoutOk(l) && (c.Small? ==> c.bsi < |sizes|)
  {
    match c
    case Small(i) => Bytes(l, sizes[i])
    case Pages(n) => n * PAGE_SIZE - BlockOffset(l)
  }

  /** The smallest block for the instances of a class, with a skip word if it is worth having
      and there is room: whatever is chosen, the object and its skip word fit. */
  method InitializeBsi(l: Layout, sizes: seq<BlockSize>, size: nat, nrefs: nat) returns (c: Choice, skip: bool)
    requires LayoutOk(l) && Generated(l, sizes) && sizes != [] && size > 0
    ensures Best(l, sizes, size, c)
    ensures skip <==> nrefs >= SKIP_MIN_REFS && size + l.word <= Room(l, sizes, c)
    ensures size + (if skip then l.word else 0) <= Room(l, sizes, c)
  {
    c := HeapBlockSize(l, sizes, size);
    var blockSize := match c case Small(i) => Bytes(l, sizes[i]) case Pages(n) => n * PAGE_SIZE - BlockOffset(l);
    skip := blockSize - l.word >= size && nrefs >= SKIP_MIN_REFS;
  }

  method Clear(mem: array<Word>, from: nat, to: nat)
    requires to <= mem.Length
    modifies mem
    ensures forall i :: 0 <= i < mem.Length ==> mem[i] == if from <= i < to then 0 else old(mem[i])
  {
    var i := from;
    while i < to
      invariant forall j :: 0 <= j < mem.Length ==> mem[j] == if from <= j < i && j < to then 0 else old(mem[j])
    {
      mem[i] := 0;
      i := i + 1;
    }
  }

  /** Storing references and changing the lockword's other bits keeps the header findable. */
  lemma StoresKeepHead(mem: seq<Word>, mem': seq<Word>, block: nat, nrefs: nat, skip: bool)
    requires Holds(mem, block, nrefs, skip) && |mem'| == |mem|
    requires skip ==> mem'[block] == mem[block]
    requires IsLockword(mem'[block + HeadAt(nrefs, skip)])
    requires forall i :: block + HeadAt(nrefs, skip) - nrefs <= i < block + HeadAt(nrefs, skip) ==> IsReference(mem'[i])
    ensures Holds(mem', block, nrefs, skip)
  {
  }

  // ---------------------------------------------------------------------------
  // From an address to its block

  /** Mark the pages that lie inside a large object. */
  method MarkInterior(pages: seq<Page>, ghost owner: seq<nat>, num: nat) returns (info: array<bool>)
    requires Cut(pages, owner, num) && forall q :: 0 <= q < num && owner[q] == q ==> !pages[q].Alloc?
    ensures fresh(info) && info.Length == num == |owner| && forall q :: 0 <= q < num ==> (info[q] <==> owner[q] != q)
  {
    hide Cut;
    OwnerLength(pages, owner, num);
    info := new bool[num](_ => false);
    var p: nat := 0;
    FirstPage(pages, owner, num);
    while p < num
      invariant p <= num && Boundary(owner, p)
      invariant forall q :: 0 <= q < p ==> (info[q] <==> owner[q] != q)
      invariant forall q :: p <= q < num ==> !info[q]
    {
      PieceStarts(pages, owner, num, p);
      NextBoundary(pages, owner, num, p);
      forall q | p <= q < p + Length(pages[p])
        ensures owner[q] == p
      {
        PieceOwns(pages, owner, num, p, q);
      }
      match pages[p]
      case Large(n) =>
        for i := p + 1 to p + n
          invariant forall q :: 0 <= q < p ==> (info[q] <==> owner[q] != q)
          invariant forall q :: p <= q < num ==> (info[q] <==> p < q < i)
        {
          info[i] := true;
        }
        p := p + n;
      case Free => p := p + 1;
      case Small(_, _) => p := p + 1;
    }
  }

  lemma FirstPage(pages: seq<Page>, owner: seq<nat>, num: nat)
    requires Cut(pages, owner, num)
    ensures Boundary(owner, 0)
  {
  }

  datatype Place = Nowhere | SmallPlace(page: nat, k: nat) | LargePlace(page: nat)

  /** Division as the language of the original has it, rounding toward zero. */
  function Truncated(a: int, b: nat): int
    requires b > 0
  {
    if a >= 0 then a / b else -((-a) / b)
  }

  /** The block an address lies in. Addresses count from the start of the heap. */
  method LocateBlock(l: Layout, sizes: seq<BlockSize>, pages: seq<Page>, ghost owner: seq<nat>, blocks: seq<seq<Block>>, info: array<bool>, num: nat, a: nat)
      returns (r: Place)
    requires LayoutOk(l) && Cut(pages, owner, num) && SmallPages(pages, owner, blocks, sizes) && a < num * PAGE_SIZE
    requires forall q :: 0 <= q < num && owner[q] == q ==> !pages[q].Alloc?
    requires forall i :: 0 <= i < |sizes| ==> sizes[i].units > 0
    requires info.Length == num == |owner| && forall q :: 0 <= q < num ==> (info[q] <==> owner[q] != q)
    ensures r == Located(l, sizes, pages, owner, blocks, a)
  {
    hide Cut, SmallPages;
    var p := a / PAGE_SIZE;
    OwnerLength(pages, owner, num);
    PieceOf(pages, owner, num, p);
    ghost var first := owner[p];
    while info[p]
      invariant first <= p < num && owner[p] == first
      decreases p
    {
      if p - 1 >= first { Inside(pages, owner, num, first, p); }
      p := p - 1;
    }
    PieceStarts(pages, owner, num, p);
    match pages[p]
    case Free => r := Nowhere;
    case Large(_) => r := LargePlace(p);
    case Small(bsi, _) =>
      SmallLength(pages, owner, blocks, sizes, p);
      BytesPositive(l, sizes[bsi]);
      var k := Truncated(a - p * PAGE_SIZE - BlockOffset(l), Bytes(l, sizes[bsi]));
      if k < 0 || k >= sizes[bsi].count { return Nowhere; }
      r := if blocks[p][k] == FreeBlock then Nowhere else SmallPlace(p, k);
  }

  lemma Inside(pages: seq<Page>, owner: seq<nat>, num: nat, first: nat, p: nat)
    requires Cut(pages, owner, num) && first < p < num && owner[p] == first
    ensures owner[p - 1] == first
  {
  }

  lemma BytesPositive(l: Layout, b: BlockSize)
    requires LayoutOk(l) && b.units > 0
    ensures Bytes(l, b) > 0
  {
  }

  ghost function Located(l: Layout, sizes: seq<BlockSize>, pages: seq<Page>, owner: seq<nat>, blocks: seq<seq<Block>>, a: nat): Place
    requires LayoutOk(l) && a / PAGE_SIZE < |owner| <= |pages| && |blocks| == |pages|
  {
    var p := owner[a / PAGE_SIZE];
    if p >= |pages| then Nowhere
    else match pages[p]
      case Large(_) => LargePlace(p)
      case Small(bsi, _) =>
        if bsi >= |sizes| || Bytes(l, sizes[bsi]) == 0 then Nowhere
        else
          var k := Truncated(a - p * PAGE_SIZE - BlockOffset(l), Bytes(l, sizes[bsi]));
          if k < 0 || k >= sizes[bsi].count || k >= |blocks[p]| || blocks[p][k] == FreeBlock then Nowhere else SmallPlace(p, k)
      case _ => Nowhere
  }

  /** Every address inside an occupied block leads to that block. */
  lemma SmallLocated(l: Layout, sizes: seq<BlockSize>, pages: seq<Page>, owner: seq<nat>, blocks: seq<seq<Block>>, num: nat, p: nat, k: nat, a: nat)
    requires LayoutOk(l) && Cut(pages, owner, num) && SmallPages(pages, owner, blocks, sizes)
    requires IsSmall(pages, owner, p) && k < |blocks[p]| && blocks[p][k] != FreeBlock && SizeOk(l, sizes[pages[p].bsi])
    requires BlockStart(l, sizes[pages[p].bsi], p, k) <= a < BlockStart(l, sizes[pages[p].bsi], p, k) + Bytes(l, sizes[pages[p].bsi])
    ensures a / PAGE_SIZE < |owner| && Located(l, sizes, pages, owner, blocks, a) == SmallPlace(p, k)
  {
    var b := sizes[pages[p].bsi];
    SmallLength(pages, owner, blocks, sizes, p);
    BlockNumber(l, b, p, k, a);
    hide Cut, SmallPages, SizeOk, Bytes, BlockOffset, Truncated;
  }

  lemma BlockNumber(l: Layout, b: BlockSize, p: nat, k: nat, a: nat)
    requires LayoutOk(l) && SizeOk(l, b) && k < b.count && BlockStart(l, b, p, k) <= a < BlockStart(l, b, p, k) + Bytes(l, b)
    ensures a / PAGE_SIZE == p && Bytes(l, b) > 0 && Truncated(a - p * PAGE_SIZE - BlockOffset(l), Bytes(l, b)) == k
  {
    InOwnPage(l, b, p, k);
    BytesPositive(l, b);
    hide SizeOk, Bytes, BlockOffset, LayoutOk;
    Sum(p, 1, PAGE_SIZE);
    QuotientIs(a, PAGE_SIZE, p);
    QuotientIs(a - p * PAGE_SIZE - BlockOffset(l), Bytes(l, b), k);
  }

  /** Every address inside a large object, on any of its pages, leads to the object. */
  lemma LargeLocated(l: Layout, sizes: seq<BlockSize>, pages: seq<Page>, owner: seq<nat>, blocks: seq<seq<Block>>, num: nat, p: nat, n: nat, a: nat)
    requires LayoutOk(l) && Cut(pages, owner, num) && |blocks| == |pages| && p < num && owner[p] == p && pages[p] == Large(n)
    requires p * PAGE_SIZE <= a < (p + n) * PAGE_SIZE
    ensures a / PAGE_SIZE < |owner| && Located(l, sizes, pages, owner, blocks, a) == LargePlace(p)
  {
  }

  /** Nothing but the page word and its padding lies outside the blocks it is taken to be in:
      an address in front of the first block counts as in it. */
  lemma LocatedInside(l: Layout, sizes: seq<BlockSize>, pages: seq<Page>, owner: seq<nat>, blocks: seq<seq<Block>>, num: nat, a: nat)
    requires LayoutOk(l) && Cut(pages, owner, num) && SmallPages(pages, owner, blocks, sizes) && a / PAGE_SIZE < num
    requires forall i :: 0 <= i < |sizes| ==> sizes[i].units > 0
    requires Located(l, sizes, pages, owner, blocks, a).SmallPlace?
    ensures var SmallPlace(p, k) := Located(l, sizes, pages, owner, blocks, a);
            && IsSmall(pages, owner, p) && a / PAGE_SIZE == p && k < |blocks[p]| && blocks[p][k] != FreeBlock
            && var b := sizes[pages[p].bsi];
            && a < BlockStart(l, b, p, k) + Bytes(l, b) && (BlockStart(l, b, p, k) <= a || (k == 0 && a % PAGE_SIZE < BlockOffset(l)))
  {
  }
}
