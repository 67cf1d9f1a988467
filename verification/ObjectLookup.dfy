/** From any address inside an allocated object to the object's header. */
module ObjectLookup {
  import opened Options
  import opened HeapSizes
  import opened HeapPages
  import opened ObjectHead

  /** How an object is laid out: its references, and whether a skip word comes first. */
  datatype Form = Form(nrefs: nat, skip: bool)

  /** Where the block of a place begins, in bytes from the start of the heap. */
  function BlockAddress(l: Layout, sizes: seq<BlockSize>, pages: seq<Page>, pl: Place): nat
    requires LayoutOk(l)
  {
    match pl
    case SmallPlace(p, k) =>
      if p < |pages| && pages[p].Small? && pages[p].bsi < |sizes| then BlockStart(l, sizes[pages[p].bsi], p, k) else 0
    case LargePlace(p) => p * PAGE_SIZE + BlockOffset(l)
    case Nowhere => 0
  }

  /** The same in words. */
  function BlockWord(l: Layout, sizes: seq<BlockSize>, pages: seq<Page>, pl: Place): nat
    requires LayoutOk(l)
  {
    BlockAddress(l, sizes, pages, pl) / l.word
  }

  /** There is an object. */
  ghost predicate Used(pages: seq<Page>, owner: seq<nat>, blocks: seq<seq<Block>>, pl: Place) {
    match pl
    case SmallPlace(p, k) => |blocks| == |pages| && IsSmall(pages, owner, p) && k < |blocks[p]| && blocks[p][k].Object?
    case LargePlace(p) => p < |owner| <= |pages| && owner[p] == p && pages[p].Large?
    case Nowhere => false
  }

  /** The address lies in the block, or on the pages, of an object. */
  ghost predicate Within(l: Layout, sizes: seq<BlockSize>, pages: seq<Page>, owner: seq<nat>, blocks: seq<seq<Block>>, pl: Place, a: nat)
    requires LayoutOk(l)
  {
    && Used(pages, owner, blocks, pl)
    && match pl
       case SmallPlace(p, k) =>
         pages[p].bsi < |sizes| && var b := sizes[pages[p].bsi]; BlockStart(l, b, p, k) <= a < BlockStart(l, b, p, k) + Bytes(l, b)
       case LargePlace(p) => p * PAGE_SIZE <= a < (p + pages[p].n) * PAGE_SIZE
       case Nowhere => false
  }

  ghost predicate AllHold(l: Layout, sizes: seq<BlockSize>, pages: seq<Page>, owner: seq<nat>, blocks: seq<seq<Block>>, mem: seq<Word>, forms: map<Place, Form>)
    requires LayoutOk(l)
  {
    forall pl :: Used(pages, owner, blocks, pl) ==>
      pl in forms && Holds(mem, BlockWord(l, sizes, pages, pl), forms[pl].nrefs, forms[pl].skip)
  }

  ghost predicate NoneAllocating(pages: seq<Page>, owner: seq<nat>, blocks: seq<seq<Block>>) {
    forall p, k :: 0 <= p < |blocks| && IsSmall(pages, owner, p) && 0 <= k < |blocks[p]| ==> blocks[p][k] != AllocBlock
  }

  /** An address is within one object at most, the one its block is located for. */
  lemma WithinLocated(l: Layout, sizes: seq<BlockSize>, pages: seq<Page>, owner: seq<nat>, blocks: seq<seq<Block>>, num: nat, pl: Place, a: nat)
    requires LayoutOk(l) && Cut(pages, owner, num) && SmallPages(pages, owner, blocks, sizes)
    requires forall i :: 0 <= i < |sizes| ==> SizeOk(l, sizes[i])
    requires Within(l, sizes, pages, owner, blocks, pl, a)
    ensures a / PAGE_SIZE < |owner| && Located(l, sizes, pages, owner, blocks, a) == pl
  {
    assert |blocks| == |pages|;
    hide Cut, SmallPages, SizeOk, Located, BlockStart, Bytes, LayoutOk;
    OwnerLength(pages, owner, num);
    match pl
    case SmallPlace(p, k) =>
      SmallLength(pages, owner, blocks, sizes, p);
      SmallLocated(l, sizes, pages, owner, blocks, num, p, k, a);
    case LargePlace(p) => LargeLocated(l, sizes, pages, owner, blocks, num, p, pages[p].n, a);
  }

  lemma LocatedUsed(l: Layout, sizes: seq<BlockSize>, pages: seq<Page>, owner: seq<nat>, blocks: seq<seq<Block>>, num: nat, a: nat)
    requires LayoutOk(l) && Cut(pages, owner, num) && SmallPages(pages, owner, blocks, sizes) && a / PAGE_SIZE < num
    requires NoneAllocating(pages, owner, blocks)
    ensures Located(l, sizes, pages, owner, blocks, a).Nowhere? || Used(pages, owner, blocks, Located(l, sizes, pages, owner, blocks, a))
  {
    PieceOf(pages, owner, num, a / PAGE_SIZE);
    hide Cut, Truncated, Bytes, BlockOffset;
  }

  /** The header of the object an address lies in, whichever object and wherever in it. */
  method LocateObject(l: Layout, sizes: seq<BlockSize>, pages: seq<Page>, ghost owner: seq<nat>, blocks: seq<seq<Block>>, info: array<bool>, num: nat,
                      mem: array<Word>, ghost forms: map<Place, Form>, a: nat)
      returns (head: Option<nat>)
    requires LayoutOk(l) && Cut(pages, owner, num) && SmallPages(pages, owner, blocks, sizes) && a < num * PAGE_SIZE
    requires forall q :: 0 <= q < num && owner[q] == q ==> !pages[q].Alloc?
    requires forall i :: 0 <= i < |sizes| ==> SizeOk(l, sizes[i])
    requires info.Length == num == |owner| && forall q :: 0 <= q < num ==> (info[q] <==> owner[q] != q)
    requires NoneAllocating(pages, owner, blocks) && AllHold(l, sizes, pages, owner, blocks, mem[..], forms)
    ensures forall pl :: Within(l, sizes, pages, owner, blocks, pl, a) && pl in forms ==>
              head == Some(BlockWord(l, sizes, pages, pl) + HeadAt(forms[pl].nrefs, forms[pl].skip))
    ensures head.Some? ==>
              exists pl :: (Used(pages, owner, blocks, pl) && pl in forms
                            && head.value == BlockWord(l, sizes, pages, pl) + HeadAt(forms[pl].nrefs, forms[pl].skip))
  {
    hide Cut, SmallPages, Located, Holds, Within, Used;
    var place := LocateBlock(l, sizes, pages, owner, blocks, info, num, a);
    LocatedUsed(l, sizes, pages, owner, blocks, num, a);
    forall pl | Within(l, sizes, pages, owner, blocks, pl, a)
      ensures pl == place
    {
      WithinLocated(l, sizes, pages, owner, blocks, num, pl, a);
    }
    if place.Nowhere? {
      NoObject(pages, owner, blocks);
      NothingWithin(l, sizes, pages, owner, blocks, a);
      return None;
    }
    var h := FindObjectHead(mem, BlockWord(l, sizes, pages, place), forms[place].nrefs, forms[place].skip);
    head := Some(h);
  }

  lemma NoObject(pages: seq<Page>, owner: seq<nat>, blocks: seq<seq<Block>>)
    ensures !Used(pages, owner, blocks, Nowhere)
  {
  }

  lemma NothingWithin(l: Layout, sizes: seq<BlockSize>, pages: seq<Page>, owner: seq<nat>, blocks: seq<seq<Block>>, a: nat)
    requires LayoutOk(l)
    ensures !Within(l, sizes, pages, owner, blocks, Nowhere, a)
  {
  }
}
