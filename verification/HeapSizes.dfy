/** The block sizes of the heap: how they are generated, and how one is chosen. */
module HeapSizes {
  import opened Options
  import opened Products

  const PAGE_SIZE := 4096

  /** The machine: alignment, word size, and size of an object header, in bytes. */
  datatype Layout = Layout(align: nat, word: nat, header: nat)

  predicate LayoutOk(l: Layout) {
    l.align > 0 && PAGE_SIZE % l.align == 0 && l.word > 0 && l.header > 0
  }

  function HowMany(x: nat, y: nat): (r: nat)
    requires y > 0
  {
    (x + (y - 1)) / y
  }

  /** Page size and page header in units of the alignment. */
  function PageUnits(l: Layout): nat
    requires LayoutOk(l)
  {
    HowMany(PAGE_SIZE, l.align)
  }

  function HeaderUnits(l: Layout): nat
    requires LayoutOk(l)
  {
    HowMany(l.word, l.align)
  }

  /** Where the first block of a page starts, in bytes. */
  function BlockOffset(l: Layout): nat
    requires LayoutOk(l)
  {
    HeaderUnits(l) * l.align
  }

  datatype BlockSize = BlockSize(units: nat, count: nat)

  function Bytes(l: Layout, b: BlockSize): nat {
    b.units * l.align
  }

  predicate Fit(l: Layout, units: nat, count: nat)
    requires LayoutOk(l)
  {
    HeaderUnits(l) + count * units <= PageUnits(l)
  }

  /** At least two blocks fit in a page, one more does not, and no larger blocks fit as often. */
  ghost predicate SizeOk(l: Layout, b: BlockSize)
    requires LayoutOk(l)
  {
    b.units > 0 && b.count >= 2 && Fit(l, b.units, b.count) && !Fit(l, b.units, b.count + 1) && !Fit(l, b.units + 1, b.count)
  }

  lemma HowManyExact(x: nat, y: nat)
    requires y > 0
    ensures y * HowMany(x, y) >= x && (x > 0 ==> HowMany(x, y) > 0 && y * (HowMany(x, y) - 1) < x)
  {
  }

  /** No larger block fits as often, so a larger block fits less often. */
  lemma FewerBlocks(l: Layout, b: BlockSize, c: BlockSize)
    requires LayoutOk(l) && SizeOk(l, b) && SizeOk(l, c) && b.units < c.units
    ensures c.count < b.count
  {
    if c.count >= b.count {
      Monotone(b.count, c.count, c.units);
      Monotone(b.units + 1, c.units, b.count);
    }
  }

  /** The largest size that gives as many blocks as the size asked for; None if that is fewer than two. */
  method RoundupBlockSize(l: Layout, size: nat) returns (r: Option<BlockSize>)
    requires LayoutOk(l) && size > 0
    ensures r.None? <==> !Fit(l, HowMany(size, l.align), 2)
    ensures r.Some? ==> SizeOk(l, r.value) && size <= Bytes(l, r.value) && Fit(l, HowMany(size, l.align), r.value.count)
  {
    HowManyExact(size, l.align);
    var units := HowMany(size, l.align);
    ghost var u0 := units;
    var room: int := PageUnits(l) - HeaderUnits(l);
    if room < 0 {
      return None;
    }
    var count := room / units;
    assert room == count * units + room % units;
    assert (count + 1) * units == count * units + units;
    if count <= 1 {
      assert 2 * units == units + units;
      if count == 1 { assert count * units == units; }
      return None;
    }
    Monotone(2, count, units);
    while HeaderUnits(l) + count * (units + 1) <= PageUnits(l)
      invariant units >= u0 && Fit(l, units, count)
      decreases PageUnits(l) - units
    {
      Monotone(2, count, units + 1);
      units := units + 1;
    }
    Monotone(u0, units, count + 1);
    Monotone(u0, units, l.align);
    r := Some(BlockSize(units, count));
  }

  ghost predicate Generated(l: Layout, sizes: seq<BlockSize>)
    requires LayoutOk(l)
  {
    && (forall i :: 0 <= i < |sizes| ==> SizeOk(l, sizes[i]))
    && (forall i, j :: 0 <= i < j < |sizes| ==> sizes[i].units < sizes[j].units && sizes[i].count > sizes[j].count)
  }

  /** How much larger than `size` the next size asked for is. */
  function NextSize(l: Layout, granularity: nat, size: nat): nat
    requires granularity <= 99
  {
    var next := size * (200 - granularity) / 100;
    if next < size + l.align then size + l.align else next
  }

  /** Sizes strictly increase, the numbers of blocks strictly decrease, and all are as large as they can be. */
  method GenBlockSizes(l: Layout, granularity: nat) returns (sizes: seq<BlockSize>)
    requires LayoutOk(l) && granularity <= 99
    ensures Generated(l, sizes)
    ensures sizes != [] ==> l.header <= Bytes(l, sizes[0])
    ensures sizes == [] <==> !Fit(l, HowMany(l.header, l.align), 2)
  {
    hide SizeOk, Fit, Generated, NextSize, Bytes, HowMany, PageUnits;
    sizes := [];
    var size := l.header;
    NoSizes(l);
    while true
      invariant Generated(l, sizes) && size > 0
      invariant sizes == [] ==> size == l.header
      invariant sizes != [] ==> Bytes(l, sizes[|sizes| - 1]) + l.align <= size
      invariant sizes != [] ==> l.header <= Bytes(l, sizes[0]) && Fit(l, HowMany(l.header, l.align), 2)
      decreases if sizes == [] then PageUnits(l) + 1 else sizes[|sizes| - 1].count
    {
      var b := RoundupBlockSize(l, size);
      if b.None? { break; }
      if sizes != [] {
        LastOk(l, sizes);
        LargerUnits(l, sizes[|sizes| - 1], b.value, size);
        FewerBlocks(l, sizes[|sizes| - 1], b.value);
      } else {
        CountBound(l, b.value);
      }
      OneMoreSize(l, sizes, b.value);
      sizes := sizes + [b.value];
      size := NextSize(l, granularity, Bytes(l, b.value));
      NextLarger(l, granularity, Bytes(l, b.value));
    }
  }

  lemma NoSizes(l: Layout)
    requires LayoutOk(l)
    ensures Generated(l, [])
  {
  }

  lemma LastOk(l: Layout, sizes: seq<BlockSize>)
    requires LayoutOk(l) && Generated(l, sizes) && sizes != []
    ensures SizeOk(l, sizes[|sizes| - 1])
  {
  }

  lemma NextLarger(l: Layout, granularity: nat, size: nat)
    requires granularity <= 99
    ensures NextSize(l, granularity, size) >= size + l.align
  {
  }

  lemma LargerUnits(l: Layout, b: BlockSize, c: BlockSize, size: nat)
    requires LayoutOk(l) && Bytes(l, b) + l.align <= size <= Bytes(l, c)
    ensures b.units < c.units
  {
  }

  lemma OneMoreSize(l: Layout, sizes: seq<BlockSize>, b: BlockSize)
    requires LayoutOk(l) && Generated(l, sizes) && SizeOk(l, b)
    requires sizes != [] ==> sizes[|sizes| - 1].units < b.units && sizes[|sizes| - 1].count > b.count
    ensures Generated(l, sizes + [b])
  {
  }

  lemma CountBound(l: Layout, b: BlockSize)
    requires LayoutOk(l) && SizeOk(l, b)
    ensures b.count <= PageUnits(l)
  {
  }

  // ---------------------------------------------------------------------------
  // Choosing a block size

  datatype Choice = Small(bsi: nat) | Pages(n: nat)

  /** The smallest size class that is large enough, or the number of pages if none is. */
  ghost predicate Best(l: Layout, sizes: seq<BlockSize>, size: nat, c: Choice)
    requires LayoutOk(l)
  {
    match c
    case Small(i) =>
      i < |sizes| && size <= Bytes(l, sizes[i]) && forall j :: 0 <= j < i ==> Bytes(l, sizes[j]) < size
    case Pages(n) =>
      (forall j :: 0 <= j < |sizes| ==> Bytes(l, sizes[j]) < size)
      && (n - 1) * PAGE_SIZE < size + BlockOffset(l) <= n * PAGE_SIZE
  }

  lemma BytesIncrease(l: Layout, sizes: seq<BlockSize>, i: nat, j: nat)
    requires LayoutOk(l) && Generated(l, sizes) && i <= j < |sizes|
    ensures Bytes(l, sizes[i]) <= Bytes(l, sizes[j])
  {
    if i < j { Monotone(sizes[i].units, sizes[j].units, l.align); }
  }

  method HeapBlockSize(l: Layout, sizes: seq<BlockSize>, size: nat) returns (c: Choice)
    requires LayoutOk(l) && Generated(l, sizes) && sizes != [] && size > 0
    ensures Best(l, sizes, size, c)
  {
    var n := |sizes|;
    if size > Bytes(l, sizes[n - 1]) {
      forall j | 0 <= j < n
        ensures Bytes(l, sizes[j]) < size
      {
        BytesIncrease(l, sizes, j, n - 1);
      }
      HowManyExact(size + BlockOffset(l), PAGE_SIZE);
      return Pages(HowMany(size + BlockOffset(l), PAGE_SIZE));
    }
    var bsi, lim := 0, n;
    while lim != 0
      invariant 0 <= bsi && 0 <= lim && bsi + lim <= n
      invariant forall j :: 0 <= j < bsi ==> Bytes(l, sizes[j]) < size
      invariant bsi + lim < n ==> size <= Bytes(l, sizes[bsi + lim])
      invariant lim == 0 ==> bsi < n
      decreases lim
    {
      var j := bsi + lim / 2;
      if size > Bytes(l, sizes[j]) {
        forall k | 0 <= k <= j
          ensures Bytes(l, sizes[k]) < size
        {
          BytesIncrease(l, sizes, k, j);
        }
        bsi := j + 1;
        lim := (lim - 1) / 2;
      } else if j == 0 || size > Bytes(l, sizes[j - 1]) {
        forall k | 0 <= k < j
          ensures Bytes(l, sizes[k]) < size
        {
          BytesIncrease(l, sizes, k, j - 1);
        }
        bsi := j;
        break;
      } else {
        lim := lim / 2;
      }
    }
    c := Small(bsi);
  }
}
