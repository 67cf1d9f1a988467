/** The allocator of class loader memory: chunks of pages used as a stack, from a shared page budget. */
module LoaderMemory {
  import opened Options

  const PAGE_SIZE := 4096

  /** The size of a chunk's header, and the alignment of everything. */
  const HDR := 16
  const ALIGN := 8

  datatype Chunk = Chunk(base: nat, pages: nat, offset: nat)

  function End(c: Chunk): nat {
    c.base + c.pages * PAGE_SIZE
  }

  ghost predicate ChunkOk(c: Chunk) {
    c.base % ALIGN == 0 && HDR <= c.offset <= c.pages * PAGE_SIZE && c.offset % ALIGN == 0
  }

  predicate Apart(c: Chunk, d: Chunk) {
    End(c) <= d.base || End(d) <= c.base
  }

  ghost predicate ChunksOk(s: seq<Chunk>) {
    && (forall i :: 0 <= i < |s| ==> ChunkOk(s[i]))
    && (forall i, j :: 0 <= i < j < |s| ==> Apart(s[i], s[j]))
  }

  function Last(s: seq<Chunk>): Chunk
    requires s != []
  {
    s[|s| - 1]
  }

  function HowMany(x: nat, y: nat): nat
    requires y > 0
  {
    (x + (y - 1)) / y
  }

  function Round(size: nat): nat {
    HowMany(size, ALIGN) * ALIGN
  }

  lemma RoundExact(size: nat)
    ensures Round(size) >= size && Round(size) % ALIGN == 0 && (size > 0 ==> Round(size) > 0) && Round(size) < size + ALIGN
  {
  }

  /** Whether the current chunk has room; it is never filled to the last byte. */
  predicate HasRoom(s: seq<Chunk>, size: nat) {
    s != [] && size < Last(s).pages * PAGE_SIZE - Last(s).offset
  }

  function NewPages(minPages: nat, size: nat): (n: nat)
    ensures HDR + size <= n * PAGE_SIZE && n > 0
    ensures n >= minPages && (n > minPages ==> (n - 1) * PAGE_SIZE < HDR + size)
  {
    var n := HowMany(HDR + size, PAGE_SIZE);
    if n < minPages then minPages else n
  }

  /** The chunks after allocating `size` bytes, with memory at `base` for a new chunk if one is needed. */
  function Allocated(s: seq<Chunk>, minPages: nat, size: nat, base: nat): seq<Chunk> {
    if HasRoom(s, size) then s[|s| - 1 := Last(s).(offset := Last(s).offset + size)]
    else s + [Chunk(base, NewPages(minPages, size), HDR + size)]
  }

  function Address(s: seq<Chunk>, size: nat, base: nat): nat {
    if HasRoom(s, size) then Last(s).base + Last(s).offset else base + HDR
  }

  /** Memory handed out: between a chunk's header and its offset. */
  ghost predicate InUse(s: seq<Chunk>, a: nat) {
    exists i :: 0 <= i < |s| && s[i].base + HDR <= a < s[i].base + s[i].offset
  }

  /** Memory for a new chunk overlaps no chunk there is. */
  ghost predicate Fresh(s: seq<Chunk>, minPages: nat, size: nat, base: nat) {
    base % ALIGN == 0 && forall i :: 0 <= i < |s| ==> Apart(s[i], Chunk(base, NewPages(minPages, size), HDR))
  }

  lemma AllocatedOk(s: seq<Chunk>, minPages: nat, size: nat, base: nat)
    requires ChunksOk(s) && size % ALIGN == 0 && (HasRoom(s, size) || Fresh(s, minPages, size, base))
    ensures ChunksOk(Allocated(s, minPages, size, base)) && Address(s, size, base) % ALIGN == 0
  {
    if HasRoom(s, size) {
      assert ChunkOk(Last(s).(offset := Last(s).offset + size));
    } else {
      NewChunkOk(minPages, size, base);
      hide ChunkOk, NewPages;
    }
  }

  /** A chunk is added exactly when the current one would be left without a byte to spare,
      and no larger than the block or the least size demands. */
  lemma NewChunkWhen(s: seq<Chunk>, minPages: nat, size: nat, base: nat)
    ensures var t := Allocated(s, minPages, size, base);
            if s != [] && Last(s).offset + size < Last(s).pages * PAGE_SIZE then
              |t| == |s| && t[..|s| - 1] == s[..|s| - 1] && Last(t) == Chunk(Last(s).base, Last(s).pages, Last(s).offset + size)
            else
              && |t| == |s| + 1 && t[..|s|] == s && Last(t).base == base && Last(t).offset == HDR + size
              && Last(t).pages >= minPages && HDR + size <= Last(t).pages * PAGE_SIZE
              && (Last(t).pages > minPages ==> (Last(t).pages - 1) * PAGE_SIZE < HDR + size)
  {
  }

  lemma NewChunkOk(minPages: nat, size: nat, base: nat)
    requires size % ALIGN == 0 && base % ALIGN == 0
    ensures ChunkOk(Chunk(base, NewPages(minPages, size), HDR + size)) && (base + HDR) % ALIGN == 0
  {
  }

  lemma StillNoneEmpty(s: seq<Chunk>, minPages: nat, size: nat, base: nat)
    requires NoneEmpty(s) && size > 0
    ensures NoneEmpty(Allocated(s, minPages, size, base))
  {
  }

  lemma AllocatedOkIf(s: seq<Chunk>, minPages: nat, size: nat, mem: Option<nat>)
    requires ChunksOk(s) && size % ALIGN == 0 && (mem.Some? ==> Fresh(s, minPages, size, mem.value))
    ensures HasRoom(s, size) ==> ChunksOk(Allocated(s, minPages, size, if mem.Some? then mem.value else 0))
    ensures mem.Some? ==> ChunksOk(Allocated(s, minPages, size, mem.value))
  {
    if HasRoom(s, size) { AllocatedOk(s, minPages, size, 0); }
    if mem.Some? { AllocatedOk(s, minPages, size, mem.value); }
  }

  /** The block is new memory, and it and what was in use before is what is in use now. */
  lemma AllocatedApart(s: seq<Chunk>, minPages: nat, size: nat, base: nat, a: nat)
    requires ChunksOk(s) && (HasRoom(s, size) || Fresh(s, minPages, size, base))
    ensures var p := Address(s, size, base);
            && (InUse(Allocated(s, minPages, size, base), a) <==> InUse(s, a) || p <= a < p + size)
            && (p <= a < p + size ==> !InUse(s, a))
  {
    var s', p := Allocated(s, minPages, size, base), Address(s, size, base);
    if InUse(s, a) {
      var i :| 0 <= i < |s| && s[i].base + HDR <= a < s[i].base + s[i].offset;
      assert s'[i].base + HDR <= a < s'[i].base + s'[i].offset;
      if i < |s| - 1 { assert Apart(s[i], Last(s)); }
    }
    if p <= a < p + size {
      var k := if HasRoom(s, size) then |s| - 1 else |s|;
      assert s'[k].base + HDR <= a < s'[k].base + s'[k].offset;
    }
  }

  // ---------------------------------------------------------------------------
  // Undoing

  /** The chunks after taking back a block, if it is the last one of the current chunk. */
  function Unallocated(s: seq<Chunk>, p: nat, size: nat): seq<Chunk> {
    if s == [] || p + size != Last(s).base + Last(s).offset || Last(s).offset < size then s
    else if Last(s).offset - size == HDR then s[..|s| - 1]
    else s[|s| - 1 := Last(s).(offset := Last(s).offset - size)]
  }

  /** No chunk is empty: a chunk is made for a block, and dropped with its last block. */
  ghost predicate NoneEmpty(s: seq<Chunk>) {
    forall i :: 0 <= i < |s| ==> s[i].offset > HDR
  }

  /** Taking back the block just allocated restores the chunks exactly. */
  lemma UndoAlloc(s: seq<Chunk>, minPages: nat, size: nat, base: nat)
    requires NoneEmpty(s)
    ensures Unallocated(Allocated(s, minPages, size, base), Address(s, size, base), size) == s
  {
  }

  datatype Request = Request(size: nat, base: nat)

  function AllocatedAll(s: seq<Chunk>, minPages: nat, rs: seq<Request>): seq<Chunk>
    decreases |rs|
  {
    if rs == [] then s else AllocatedAll(Allocated(s, minPages, rs[0].size, rs[0].base), minPages, rs[1..])
  }

  /** Take back the blocks of the requests, the last one first. */
  function UnallocatedAll(s: seq<Chunk>, minPages: nat, rs: seq<Request>, final: seq<Chunk>): seq<Chunk>
    decreases |rs|
  {
    if rs == [] then final
    else
      var r := rs[0];
      var later := UnallocatedAll(Allocated(s, minPages, r.size, r.base), minPages, rs[1..], final);
      Unallocated(later, Address(s, r.size, r.base), r.size)
  }

  /** Any number of allocations undone in reverse order restores the chunks exactly. */
  lemma {:induction false} UndoAll(s: seq<Chunk>, minPages: nat, rs: seq<Request>)
    requires NoneEmpty(s) && forall i :: 0 <= i < |rs| ==> rs[i].size > 0
    ensures UnallocatedAll(s, minPages, rs, AllocatedAll(s, minPages, rs)) == s
    decreases |rs|
  {
    if rs != [] {
      var r := rs[0];
      var s' := Allocated(s, minPages, r.size, r.base);
      UndoAll(s', minPages, rs[1..]);
      UndoAlloc(s, minPages, r.size, r.base);
    }
  }

  // ---------------------------------------------------------------------------
  // Marks

  function Mark(s: seq<Chunk>): Option<nat> {
    if s == [] then None else Some(Last(s).base + Last(s).offset)
  }

  predicate Contains(c: Chunk, a: nat) {
    c.base + HDR <= a < End(c)
  }

  /** The chunks after going back to a mark; None is running out of chunks, which the code asserts not to happen. */
  function Reset(s: seq<Chunk>, mark: Option<nat>): Option<seq<Chunk>> {
    match mark
    case None => Some([])
    case Some(m) =>
      if s == [] then None
      else if Contains(Last(s), m) then Some(s[|s| - 1 := Last(s).(offset := m - Last(s).base)])
      else Reset(s[..|s| - 1], mark)
  }

  /** `t` has come from `s` by allocations: the current chunk is fuller, and there may be more chunks. */
  ghost predicate Grows(s: seq<Chunk>, t: seq<Chunk>) {
    s == [] || (
      && |t| >= |s| && t[..|s| - 1] == s[..|s| - 1]
      && t[|s| - 1].base == Last(s).base && t[|s| - 1].pages == Last(s).pages && t[|s| - 1].offset >= Last(s).offset)
  }

  lemma AllocatedGrows(s: seq<Chunk>, t: seq<Chunk>, minPages: nat, size: nat, base: nat)
    requires Grows(s, t)
    ensures Grows(s, Allocated(t, minPages, size, base))
  {
  }

  /** Going back to a mark restores the chunks exactly when the chunk marked was not full;
      a full one is dropped, and all others with it. */
  lemma {:induction false} ResetExact(s: seq<Chunk>, t: seq<Chunk>)
    requires ChunksOk(s) && ChunksOk(t) && Grows(s, t)
    ensures Reset(t, Mark(s)) == (if s == [] || Last(s).offset < Last(s).pages * PAGE_SIZE then Some(s) else None)
    decreases |t|
  {
    if s != [] {
      var m := Mark(s).value;
      var k := |s| - 1;
      if Last(s).offset == Last(s).pages * PAGE_SIZE {
        NeverFound(t, k, m);
      } else if |t| > |s| {
        assert Apart(t[k], Last(t));
        assert !Contains(Last(t), m);
        ResetExact(s, t[..|t| - 1]);
      } else {
        assert t[|t| - 1 := Last(s)] == s;
      }
    }
  }

  /** Each request is of an aligned size and finds room, or new memory. */
  ghost predicate RequestsOk(s: seq<Chunk>, minPages: nat, rs: seq<Request>)
    decreases |rs|
  {
    rs == [] || (
      var r := rs[0];
      && r.size % ALIGN == 0 && (HasRoom(s, r.size) || Fresh(s, minPages, r.size, r.base))
      && RequestsOk(Allocated(s, minPages, r.size, r.base), minPages, rs[1..]))
  }

  lemma {:induction false} AllocatedAllGrows(s: seq<Chunk>, t: seq<Chunk>, minPages: nat, rs: seq<Request>)
    requires Grows(s, t) && ChunksOk(t) && RequestsOk(t, minPages, rs)
    ensures ChunksOk(AllocatedAll(t, minPages, rs)) && Grows(s, AllocatedAll(t, minPages, rs))
    decreases |rs|
  {
    if rs != [] {
      var r := rs[0];
      AllocatedOk(t, minPages, r.size, r.base);
      AllocatedGrows(s, t, minPages, r.size, r.base);
      AllocatedAllGrows(s, Allocated(t, minPages, r.size, r.base), minPages, rs[1..]);
    }
  }

  /** After any number of allocations, going back to the mark restores the chunks exactly
      when the chunk marked was not full. */
  lemma ResetAll(s: seq<Chunk>, minPages: nat, rs: seq<Request>)
    requires ChunksOk(s) && RequestsOk(s, minPages, rs)
    ensures Reset(AllocatedAll(s, minPages, rs), Mark(s)) == Some(s) <==> s == [] || Last(s).offset < Last(s).pages * PAGE_SIZE
  {
    AllocatedAllGrows(s, s, minPages, rs);
    ResetExact(s, AllocatedAll(s, minPages, rs));
  }

  /** The end of a chunk is the inside of no chunk. */
  lemma {:induction false} NeverFound(t: seq<Chunk>, k: nat, m: nat)
    requires ChunksOk(t) && k < |t| && m == End(t[k])
    ensures Reset(t, Some(m)) == None
    decreases |t|
  {
    NotInside(t, k, m, |t|);
    NoneFound(t, m);
  }

  lemma NotInside(t: seq<Chunk>, k: nat, m: nat, n: nat)
    requires ChunksOk(t) && k < |t| && m == End(t[k]) && n <= |t|
    ensures forall i :: 0 <= i < n ==> !Contains(t[i], m)
  {
  }

  lemma {:induction false} NoneFound(t: seq<Chunk>, m: nat)
    requires forall i :: 0 <= i < |t| ==> !Contains(t[i], m)
    ensures Reset(t, Some(m)) == None
    decreases |t|
  {
    if t != [] { NoneFound(t[..|t| - 1], m); }
  }

  /** A block that takes exactly the room of a new chunk fills it, so a mark set after it is lost. */
  lemma FullChunk(base: nat)
    requires base % ALIGN == 0
    ensures var s := Allocated([], 1, PAGE_SIZE - HDR, base); ChunksOk(s) && Reset(s, Mark(s)) == None
  {
  }

  // ---------------------------------------------------------------------------
  // The page budget

  ghost function Held(s: seq<Chunk>): nat {
    if s == [] then 0 else Held(s[..|s| - 1]) + Last(s).pages
  }

  lemma HeldMore(s: seq<Chunk>, c: Chunk)
    ensures Held(s + [c]) == Held(s) + c.pages
  {
  }

  lemma HeldSame(s: seq<Chunk>, c: Chunk)
    requires s != [] && c.pages == Last(s).pages
    ensures Held(s[|s| - 1 := c]) == Held(s)
  {
  }

  ghost function HeldByAll(all: seq<seq<Chunk>>): nat {
    if all == [] then 0 else Held(all[0]) + HeldByAll(all[1..])
  }

  /** When one of several allocators trades pages with the shared budget, the pages available
      and those held by all of them together stay the same. */
  lemma {:induction false} SharedBudget(all: seq<seq<Chunk>>, k: nat, s: seq<Chunk>, avail: nat, avail': nat)
    requires k < |all| && Held(all[k]) + avail == Held(s) + avail'
    ensures HeldByAll(all) + avail == HeldByAll(all[k := s]) + avail'
    decreases k
  {
    if k > 0 {
      SharedBudget(all[1..], k - 1, s, avail, avail');
      assert all[k := s][1..] == all[1..][k - 1 := s];
    } else {
      assert all[0 := s][1..] == all[1..];
    }
  }

  /** Pages still available to all allocators sharing it. */
  class Budget {
    var avail: nat
    constructor (n: nat)
      ensures avail == n
    {
      avail := n;
    }
  }

  class Uni {
    const minPages: nat
    const budget: Budget?
    var chunks: seq<Chunk>

    ghost predicate Valid()
      reads this
    {
      ChunksOk(chunks) && NoneEmpty(chunks)
    }

    /** Pages available and pages held together. */
    ghost function Pages(): nat
      reads this, budget
    {
      Held(chunks) + if budget == null then 0 else budget.avail
    }

    constructor (min: nat, b: Budget?)
      ensures Valid() && chunks == [] && budget == b && minPages == min
    {
      minPages, budget, chunks := min, b, [];
    }

    /** Take pages from the budget, but never below zero. */
    method Reserve(n: nat) returns (ok: bool)
      modifies budget
      ensures ok <==> budget == null || n <= old(budget.avail)
      ensures budget != null ==> budget.avail == if ok then old(budget.avail) - n else old(budget.avail)
    {
      if budget == null { return true; }
      if n > budget.avail { return false; }
      budget.avail := budget.avail - n;
      ok := true;
    }

    method Release(n: nat)
      modifies budget
      ensures budget != null ==> budget.avail == old(budget.avail) + n
    {
      if budget != null { budget.avail := budget.avail + n; }
    }

    /** Make sure the current chunk has room, with a new chunk if need be. `mem` is the memory
        the system gives for one, if it gives any. */
    method Ensure(size: nat, mem: Option<nat>) returns (ok: bool)
      requires ChunksOk(chunks) && (mem.Some? ==> Fresh(chunks, minPages, size, mem.value))
      modifies this, budget
      ensures ok <==> HasRoom(old(chunks), size) || (mem.Some? && (budget == null || NewPages(minPages, size) <= old(budget.avail)))
      ensures chunks == if !ok || HasRoom(old(chunks), size) then old(chunks) else old(chunks) + [Chunk(mem.value, NewPages(minPages, size), HDR)]
      ensures budget != null ==> Pages() == old(Pages())
    {
      if HasRoom(chunks, size) { return true; }
      var n := NewPages(minPages, size);
      ok := Reserve(n);
      if ok && mem.None? {
        Release(n);
        ok := false;
      }
      if ok {
        HeldMore(chunks, Chunk(mem.value, n, HDR));
        chunks := chunks + [Chunk(mem.value, n, HDR)];
      }
    }

    method Alloc(size: nat, mem: Option<nat>) returns (p: Option<nat>)
      requires Valid() && size > 0
      requires mem.Some? ==> Fresh(chunks, minPages, Round(size), mem.value)
      modifies this, budget
      ensures Valid() && (budget != null ==> Pages() == old(Pages()))
      ensures p.Some? <==>
                HasRoom(old(chunks), Round(size)) || (mem.Some? && (budget == null || NewPages(minPages, Round(size)) <= old(budget.avail)))
      ensures p.None? ==> chunks == old(chunks)
      ensures p.Some? ==>
                var base := if mem.Some? then mem.value else 0;
                chunks == Allocated(old(chunks), minPages, Round(size), base) && p.value == Address(old(chunks), Round(size), base)
    {
      hide Round, NewPages, Fresh, ChunksOk, NoneEmpty, Held;
      RoundExact(size);
      var rounded := Round(size);
      AllocatedOkIf(chunks, minPages, rounded, mem);
      StillNoneEmpty(chunks, minPages, rounded, if mem.Some? then mem.value else 0);
      ghost var s := chunks;
      var ok := Ensure(rounded, mem);
      if !ok { return None; }
      var c := Last(chunks);
      p := Some(c.base + c.offset);
      HeldSame(chunks, c.(offset := c.offset + rounded));
      chunks := chunks[|chunks| - 1 := c.(offset := c.offset + rounded)];
      assert chunks == Allocated(s, minPages, rounded, if mem.Some? then mem.value else 0);
    }

    /** Take back a block if it was the last one; otherwise leave it. */
    method Unalloc(ptr: Option<nat>, size: nat)
      requires Valid() && size > 0
      requires ptr.Some? && chunks != [] && ptr.value + Round(size) == Last(chunks).base + Last(chunks).offset ==> ptr.value >= Last(chunks).base + HDR
      modifies this, budget
      ensures Valid() && (budget != null ==> Pages() == old(Pages()))
      ensures chunks == if ptr.None? then old(chunks) else Unallocated(old(chunks), ptr.value, Round(size))
    {
      RoundExact(size);
      if ptr.None? || chunks == [] { return; }
      var c := Last(chunks);
      var rounded := Round(size);
      if ptr.value + rounded != c.base + c.offset { return; }
      HeldSame(chunks, c.(offset := c.offset - rounded));
      if c.offset - rounded == HDR {
        Release(c.pages);
        chunks := chunks[..|chunks| - 1];
      } else {
        chunks := chunks[|chunks| - 1 := c.(offset := c.offset - rounded)];
      }
    }

    /** Give everything back. */
    method Free()
      modifies this, budget
      ensures chunks == [] && (budget != null ==> Pages() == old(Pages()))
    {
      var n := 0;
      while chunks != []
        invariant n + Held(chunks) == old(Held(chunks)) && (budget != null ==> budget.avail == old(budget.avail))
        decreases |chunks|
      {
        n := n + Last(chunks).pages;
        chunks := chunks[..|chunks| - 1];
      }
      Release(n);
    }

    /** Go back to a mark that has not been lost. */
    method ResetTo(mark: Option<nat>)
      requires Reset(chunks, mark).Some?
      modifies this, budget
      ensures chunks == Reset(old(chunks), mark).value && (budget != null ==> Pages() == old(Pages()))
    {
      if mark.None? {
        Free();
        return;
      }
      while true
        invariant Reset(chunks, mark) == Reset(old(chunks), mark) && Reset(chunks, mark).Some?
        invariant budget != null ==> Pages() == old(Pages())
        decreases |chunks|
      {
        var c := Last(chunks);
        if Contains(c, mark.value) {
          HeldSame(chunks, c.(offset := mark.value - c.base));
          chunks := chunks[|chunks| - 1 := c.(offset := mark.value - c.base)];
          break;
        }
        chunks := chunks[..|chunks| - 1];
        Release(c.pages);
      }
    }

    /** Whether an address lies in one of the chunks, behind its header. */
    method Covers(a: nat) returns (found: bool)
      ensures found <==> exists i :: 0 <= i < |chunks| && Contains(chunks[i], a)
    {
      for i := 0 to |chunks|
        invariant forall j :: 0 <= j < i ==> !Contains(chunks[j], a)
      {
        if Contains(chunks[i], a) { return true; }
      }
      found := false;
    }
  }
}
