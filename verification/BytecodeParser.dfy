/** The parser as it works: a read position, an offset map and an instruction array, in two passes. */
module BytecodeParser {
  import opened Options
  import opened JavaFrame
  import opened Bytecode
  import opened BytecodeRun

  class ParseState {
    const source: Source
    var pos: nat

    ghost predicate Valid()
      reads this
    {
      pos <= |source.code|
    }

    constructor (s: Source)
      ensures source == s && pos == 0 && Valid()
    {
      source := s;
      pos := 0;
    }

    method ParseUint8() returns (r: Option<Byte>)
      requires Valid()
      modifies this
      ensures Valid() && (r.Some? <==> old(pos) + 1 <= |source.code|)
      ensures r.Some? ==> pos == old(pos) + 1 && r.value == U1(source.code, old(pos))
    {
      if pos >= |source.code| { return None; }
      r := Some(source.code[pos]);
      pos := pos + 1;
    }

    method ParseUint16() returns (r: Option<nat>)
      requires Valid()
      modifies this
      ensures Valid() && (r.Some? <==> old(pos) + 2 <= |source.code|)
      ensures r.Some? ==> pos == old(pos) + 2 && r.value == U2(source.code, old(pos))
    {
      var hi := ParseUint8();
      if hi.None? { return None; }
      var lo := ParseUint8();
      if lo.None? { return None; }
      var value: int := hi.value as int * 0x100 + lo.value as int;
      r := Some(value);
    }

    method ParseInteger() returns (r: Option<Word>)
      requires Valid()
      modifies this
      ensures Valid() && (r.Some? <==> old(pos) + 4 <= |source.code|)
      ensures r.Some? ==> pos == old(pos) + 4 && r.value == S4(source.code, old(pos))
    {
      var hi := ParseUint16();
      if hi.None? { return None; }
      var lo := ParseUint16();
      if lo.None? { return None; }
      r := Some(Wrap(hi.value * 0x1_0000 + lo.value));
    }

    method ParseLocal8() returns (r: Option<nat>)
      requires Valid()
      modifies this
      ensures Valid() && (r.Some? <==> old(pos) + 1 <= |source.code| && U1(source.code, old(pos)) < source.maxLocals)
      ensures r.Some? ==> pos == old(pos) + 1 && r.value == U1(source.code, old(pos))
    {
      var i := ParseUint8();
      if i.None? || i.value >= source.maxLocals { return None; }
      r := Some(i.value);
    }

    method ParseLocal16() returns (r: Option<nat>)
      requires Valid()
      modifies this
      ensures Valid() && (r.Some? <==> old(pos) + 2 <= |source.code| && U2(source.code, old(pos)) < source.maxLocals)
      ensures r.Some? ==> pos == old(pos) + 2 && r.value == U2(source.code, old(pos))
    {
      var i := ParseUint16();
      if i.None? || i.value >= source.maxLocals { return None; }
      r := Some(i.value);
    }

    method ParsePool16(op: Byte) returns (r: Option<nat>)
      requires Valid()
      modifies this
      ensures Valid() && (r.Some? <==> old(pos) + 2 <= |source.code| && PoolOk(source, op, U2(source.code, old(pos))))
      ensures r.Some? ==> pos == old(pos) + 2 && r.value == U2(source.code, old(pos))
    {
      var i := ParseUint16();
      if i.None? || !PoolOk(source, op, i.value) { return None; }
      r := Some(i.value);
    }

    /** The result and the new position are the instruction decoded at `pc`. */
    ghost predicate Decoded(d: Option<Item>, pc: nat, r: Option<Insn>)
      reads this
    {
      Valid() && match r case None => d.None? case Some(insn) => d == Some(Item(pc, insn, pos))
    }

    method ParsePool(op: Byte) returns (r: Option<Insn>)
      requires Valid() && pos > 0 && source.code[pos - 1] == op && UsesPool(op)
      modifies this
      ensures Decoded(PoolAt(source, old(pos) - 1), old(pos) - 1, r)
    {
      if op == LDC {
        var i := ParseUint8();
        if i.None? || !PoolOk(source, op, i.value) { return None; }
        return Some(Constant(op, i.value));
      }
      var cp := ParsePool16(op);
      if cp.None? { return None; }
      if op == LDC_W || op == LDC2_W {
        return Some(Constant(if op == LDC_W then LDC else op, cp.value));
      } else if op == INVOKEINTERFACE {
        var count := ParseUint8();
        if count.None? { return None; }
        var zero := ParseUint8();
        if zero.None? { return None; }
        return Some(Member(op, cp.value));
      } else if op == MULTIANEWARRAY {
        var dims := ParseUint8();
        if dims.None? { return None; }
        return Some(MultiArray(cp.value, dims.value));
      }
      return Some(Member(op, cp.value));
    }

    method ParseWide() returns (r: Option<Insn>)
      requires Valid() && pos > 0
      modifies this
      ensures Decoded(WideAt(source, old(pos) - 1), old(pos) - 1, r)
    {
      var op := ParseUint8();
      if op.None? { return None; }
      if UsesLocal(op.value) {
        var i := ParseLocal16();
        if i.None? { return None; }
        return Some(Local(op.value, i.value));
      } else if op.value == IINC {
        var i := ParseLocal16();
        if i.None? { return None; }
        var v := ParseUint16();
        if v.None? { return None; }
        return Some(Increment(i.value, Sign16(v.value)));
      }
      return None;
    }

    /** Skip to a multiple of four; every byte skipped must be zero. */
    method ParsePadding() returns (ok: bool)
      requires Valid() && pos > 0
      modifies this
      ensures Valid()
      ensures ok ==> pos == Aligned(old(pos) - 1) && ZeroPad(source.code, old(pos) - 1)
      ensures !ok ==> Aligned(old(pos) - 1) > |source.code| || !ZeroPad(source.code, old(pos) - 1)
    {
      var pad := 3 - (pos + 3) % 4;
      var i := 0;
      assert old(pos) + pad == Aligned(old(pos) - 1);
      while i < pad
        invariant Valid() && 0 <= i <= pad && pos == old(pos) + i
        invariant forall p :: old(pos) <= p < pos ==> U1(source.code, p) == 0
      {
        var b := ParseUint8();
        if b.None? || b.value != 0 { return false; }
        i := i + 1;
      }
      ok := true;
    }

    method ParsePairs(off: nat, n: nat) returns (r: Option<seq<Pair>>)
      requires Valid() && pos == Aligned(off) + 8
      modifies this
      ensures Valid()
      ensures r.Some? <==> old(pos) + 8 * n <= |source.code| && Ascending(PairsAt(source.code, off, n))
      ensures r.Some? ==> r.value == PairsAt(source.code, off, n) && pos == old(pos) + 8 * n
    {
      var pairs: seq<Pair> := [];
      var i := 0;
      ghost var all := PairsAt(source.code, off, n);
      while i < n
        invariant Valid() && 0 <= i <= n && |pairs| == i && pos == old(pos) + 8 * i
        invariant forall j :: 0 <= j < i ==> pairs[j] == all[j]
        invariant forall j :: 0 < j < i ==> pairs[j - 1].key < pairs[j].key
      {
        var key := ParseInteger();
        if key.None? { return None; }
        if i > 0 && pairs[i - 1].key >= key.value {
          assert all[i - 1].key >= all[i].key;
          return None;
        }
        var target := ParseInteger();
        if target.None? { return None; }
        pairs := pairs + [Pair(key.value, target.value + off)];
        i := i + 1;
      }
      assert pairs == all;
      r := Some(pairs);
    }

    method ParseTargets(off: nat, n: nat) returns (r: Option<seq<int>>)
      requires Valid() && pos == Aligned(off) + 12
      modifies this
      ensures Valid()
      ensures r.Some? <==> old(pos) + 4 * n <= |source.code|
      ensures r.Some? ==> r.value == TargetsAt(source.code, off, n) && pos == old(pos) + 4 * n
    {
      var targets: seq<int> := [];
      var i := 0;
      while i < n
        invariant Valid() && 0 <= i <= n && |targets| == i && pos == old(pos) + 4 * i
        invariant forall j :: 0 <= j < i ==> targets[j] == TargetsAt(source.code, off, n)[j]
      {
        var target := ParseInteger();
        if target.None? { return None; }
        targets := targets + [target.value + off];
        i := i + 1;
      }
      assert targets == TargetsAt(source.code, off, n);
      r := Some(targets);
    }

    method ParseLookup() returns (r: Option<Insn>)
      requires Valid() && pos > 0
      modifies this
      ensures Decoded(LookupAt(source.code, old(pos) - 1), old(pos) - 1, r)
    {
      var off := pos - 1;
      var padded := ParsePadding();
      if !padded { return None; }
      var d := ParseInteger();
      if d.None? { return None; }
      var n := ParseInteger();
      if n.None? || n.value < 0 { return None; }
      var pairs := ParsePairs(off, n.value);
      if pairs.None? { return None; }
      r := Some(Lookup(d.value + off, pairs.value));
    }

    method ParseTable() returns (r: Option<Insn>)
      requires Valid() && pos > 0
      modifies this
      ensures Decoded(TableAt(source.code, old(pos) - 1), old(pos) - 1, r)
    {
      hide S4, ZeroPad;
      var off := pos - 1;
      var padded := ParsePadding();
      if !padded { return None; }
      var d := ParseInteger();
      if d.None? { return None; }
      var low := ParseInteger();
      if low.None? { return None; }
      var high := ParseInteger();
      if high.None? || high.value < low.value { return None; }
      var n: int := high.value as int - low.value as int + 1;
      var targets := ParseTargets(off, n);
      if targets.None? { return None; }
      r := Some(Table(low.value, high.value, d.value + off, targets.value));
    }

    method ParseImmediate(op: Byte) returns (r: Option<Insn>)
      requires Valid() && pos > 0 && source.code[pos - 1] == op
      requires op == 0x10 || op == 0x11 || op == NEWARRAY || op == IINC || UsesLocal(op)
      modifies this
      ensures Decoded(DecodeAt(source, old(pos) - 1), old(pos) - 1, r)
    {
      if op == 0x11 {
        var v := ParseUint16();
        if v.None? { return None; }
        return Some(Immediate(op, Sign16(v.value)));
      } else if op == IINC || UsesLocal(op) {
        var i := ParseLocal8();
        if i.None? { return None; }
        if op != IINC { return Some(Local(op, i.value)); }
        var v := ParseUint8();
        if v.None? { return None; }
        return Some(Increment(i.value, Sign8(v.value)));
      }
      var b := ParseUint8();
      if b.None? { return None; }
      if op == 0x10 { return Some(Immediate(op, Sign8(b.value))); }
      if !(4 <= b.value <= 11) { return None; }
      r := Some(NewArray(b.value));
    }

    method ParseBranch(op: Byte) returns (r: Option<Insn>)
      requires Valid() && pos > 0 && source.code[pos - 1] == op
      requires Jumps(op) || op == 0xc8 || op == 0xc9
      modifies this
      ensures Decoded(DecodeAt(source, old(pos) - 1), old(pos) - 1, r)
    {
      var off := pos - 1;
      if Jumps(op) {
        var v := ParseUint16();
        if v.None? { return None; }
        return Some(Branch(op, off + Sign16(v.value)));
      }
      var v := ParseInteger();
      if v.None? { return None; }
      r := Some(Branch(op - 0x21, v.value + off));
    }

    /** One pass of the decoding loop. */
    method ParseInsn() returns (r: Option<Insn>)
      requires Valid() && pos < |source.code|
      modifies this
      ensures Decoded(DecodeAt(source, old(pos)), old(pos), r)
    {
      var op := source.code[pos];
      pos := pos + 1;
      if !Known(op) { return None; }
      if ShortLocal(op) { return Some(ShortInsn(op)); }
      if op == 0x10 || op == 0x11 || op == NEWARRAY || op == IINC || UsesLocal(op) { r := ParseImmediate(op); }
      else if Jumps(op) || op == 0xc8 || op == 0xc9 { r := ParseBranch(op); }
      else if UsesPool(op) { r := ParsePool(op); }
      else if op == LOOKUPSWITCH { r := ParseLookup(); }
      else if op == TABLESWITCH { r := ParseTable(); }
      else if op == WIDE { r := ParseWide(); }
      else { r := Some(Plain(op)); }
    }
  }

  // ---------------------------------------------------------------------------
  // The two passes over a method

  /** The items found so far, and what follows them. */
  ghost function Prepend<T>(done: seq<T>, rest: Option<seq<T>>): Option<seq<T>> {
    match rest case None => None case Some(r) => Some(done + r)
  }

  lemma PrependNothing<T>(rest: Option<seq<T>>)
    ensures Prepend([], rest) == rest
  {
    if rest.Some? { assert [] + rest.value == rest.value; }
  }

  /** The entry for an offset is the index of the instruction starting there, or 0. */
  ghost predicate Maps(offsetMap: seq<nat>, items: seq<Item>) {
    forall p :: 0 <= p < |offsetMap| ==>
      offsetMap[p] == match IndexOf(items, p) case None => 0 case Some(i) => i
  }

  lemma {:induction false} IndexOfMore(items: seq<Item>, it: Item, off: int)
    requires forall i :: 0 <= i < |items| ==> items[i].off != it.off
    ensures IndexOf(items + [it], off) == if off == it.off then Some(|items|) else IndexOf(items, off)
  {
    if items != [] {
      assert (items + [it])[1..] == items[1..] + [it];
      IndexOfMore(items[1..], it, off);
    }
  }

  /** Instructions found in the order of their offsets. */
  ghost predicate InOrder(items: seq<Item>, pos: nat) {
    && (forall i :: 0 <= i < |items| ==> items[i].off < pos && i <= items[i].off)
    && (items != [] ==> items[0].off == 0) && (items == [] ==> pos == 0) && |items| <= pos
  }

  /** First pass: fill the instruction array and the offset map. */
  method Decode(s: Source, insns: array<Insn>, offsetMap: array<nat>) returns (num: Option<nat>, ghost items: seq<Item>)
    requires insns.Length == offsetMap.Length == |s.code|
    modifies insns, offsetMap
    ensures num.None? <==> Sweep(s, 0).None?
    ensures num.Some? ==> Sweep(s, 0) == Some(items) && num.value == |items| <= |s.code| && Maps(offsetMap[..], items)
    ensures num.Some? ==> InOrder(items, |s.code|)
    ensures num.Some? ==> forall i :: 0 <= i < num.value ==> insns[i] == items[i].insn
  {
    hide DecodeAt;
    for p := 0 to offsetMap.Length
      invariant forall q :: 0 <= q < p ==> offsetMap[q] == 0
    {
      offsetMap[p] := 0;
    }
    var state := new ParseState(s);
    items := [];
    var n := 0;
    PrependNothing(Sweep(s, 0));
    while state.pos != |s.code|
      invariant fresh(state) && state.Valid() && state.source == s && n == |items| <= |s.code|
      invariant Sweep(s, 0) == Prepend(items, Sweep(s, state.pos))
      invariant InOrder(items, state.pos) && Maps(offsetMap[..], items)
      invariant forall i :: 0 <= i < n ==> insns[i] == items[i].insn
      decreases |s.code| - state.pos
    {
      var off := state.pos;
      offsetMap[off] := n;
      var insn := state.ParseInsn();
      if insn.None? { return None, items; }
      insns[n] := insn.value;
      ghost var it := Item(off, insn.value, state.pos);
      assert DecodeAt(s, off) == Some(it);
      forall p | 0 <= p < |s.code|
        ensures offsetMap[p] == match IndexOf(items + [it], p) case None => 0 case Some(i) => i
      {
        IndexOfMore(items, it, p);
      }
      SweepOnce(s, items, off, it);
      items := items + [it];
      n := n + 1;
    }
    assert Sweep(s, |s.code|) == Some([]);
    assert items + [] == items;
    num := Some(n);
  }

  lemma SweepOnce(s: Source, items: seq<Item>, off: nat, it: Item)
    requires off < |s.code| && DecodeAt(s, off) == Some(it)
    ensures Prepend(items, Sweep(s, off)) == Prepend(items + [it], Sweep(s, it.next))
  {
    hide DecodeAt;
    var rest := Sweep(s, it.next);
    if rest.Some? {
      assert items + ([it] + rest.value) == items + [it] + rest.value;
    }
  }

  method MapOffset(offsetMap: array<nat>, ghost items: seq<Item>, target: int) returns (r: Option<int>)
    requires Maps(offsetMap[..], items) && InOrder(items, offsetMap.Length)
    ensures r == MapTarget(items, target)
  {
    IndexOfAt(items, target);
    if target == 0 { return Some(0); }
    if target < 0 || target >= offsetMap.Length { return None; }
    assert offsetMap[target] == offsetMap[..][target];
    if offsetMap[target] == 0 { return None; }
    r := Some(offsetMap[target]);
  }

  lemma {:induction false} MapTargetsMore(items: seq<Item>, ts: seq<int>, k: nat, us: seq<int>)
    requires k < |ts| && MapTargets(items, ts[..k]) == Some(us)
    ensures MapTarget(items, ts[k]).None? ==> MapTargets(items, ts).None?
    ensures MapTarget(items, ts[k]).Some? ==> MapTargets(items, ts[..k + 1]) == Some(us + [MapTarget(items, ts[k]).value])
    decreases k
  {
    hide MapTarget;
    if k > 0 {
      assert ts[..k][0] == ts[0] && ts[..k][1..] == ts[1..][..k - 1];
      assert ts[..k + 1][0] == ts[0] && ts[..k + 1][1..] == ts[1..][..k];
      MapTargetsMore(items, ts[1..], k - 1, us[1..]);
      if MapTarget(items, ts[k]).Some? {
        var u := MapTarget(items, ts[k]).value;
        assert [us[0]] + (us[1..] + [u]) == us + [u];
      }
    } else {
      assert ts[..1] == [ts[0]] && ts[..1][1..] == [];
      if MapTarget(items, ts[0]).Some? {
        var u := MapTarget(items, ts[0]).value;
        assert us == [] && us + [u] == [u] + [];
      }
    }
  }

  method MapOffsets(offsetMap: array<nat>, ghost items: seq<Item>, ts: seq<int>) returns (r: Option<seq<int>>)
    requires Maps(offsetMap[..], items) && InOrder(items, offsetMap.Length)
    ensures r == MapTargets(items, ts)
  {
    var us: seq<int> := [];
    var k := 0;
    assert ts[..0] == [];
    while k < |ts|
      invariant k <= |ts| && MapTargets(items, ts[..k]) == Some(us)
    {
      MapTargetsMore(items, ts, k, us);
      var u := MapOffset(offsetMap, items, ts[k]);
      if u.None? { return None; }
      us := us + [u.value];
      k := k + 1;
    }
    assert ts[..k] == ts;
    r := Some(us);
  }

  lemma {:induction false} MapTargetsLength(items: seq<Item>, ts: seq<int>)
    ensures MapTargets(items, ts).Some? ==> |MapTargets(items, ts).value| == |ts|
  {
    if ts != [] { MapTargetsLength(items, ts[1..]); }
  }

  method MapTargetsOf(offsetMap: array<nat>, ghost items: seq<Item>, insn: Insn) returns (r: Option<Insn>)
    requires Maps(offsetMap[..], items) && InOrder(items, offsetMap.Length)
    ensures r == MapInsn(items, insn)
  {
    hide MapTarget, MapTargets, Maps, InOrder;
    match insn
    case Branch(op, t) =>
      var u := MapOffset(offsetMap, items, t);
      if u.None? { return None; }
      r := Some(Branch(op, u.value));
    case Lookup(d, pairs) =>
      var u := MapOffset(offsetMap, items, d);
      if u.None? { return None; }
      MapTargetsLength(items, PairTargets(pairs));
      var us := MapOffsets(offsetMap, items, PairTargets(pairs));
      if us.None? { return None; }
      r := Some(Lookup(u.value, Retarget(pairs, us.value)));
    case Table(lo, hi, d, ts) =>
      var u := MapOffset(offsetMap, items, d);
      if u.None? { return None; }
      var us := MapOffsets(offsetMap, items, ts);
      if us.None? { return None; }
      r := Some(Table(lo, hi, u.value, us.value));
    case _ => r := Some(insn);
  }

  lemma MapFromOnce(items: seq<Item>, i: nat, before: seq<Insn>, insn: Insn)
    requires i < |items| && MapInsn(items, items[i].insn) == Some(insn)
    ensures Prepend(before, MapFrom(items, i)) == Prepend(before + [insn], MapFrom(items, i + 1))
  {
    hide MapInsn;
    var rest := MapFrom(items, i + 1);
    if rest.Some? {
      assert before + ([insn] + rest.value) == before + [insn] + rest.value;
    }
  }

  /** Second pass, in place: byte offsets of targets become instruction indices. */
  method Link(insns: array<Insn>, num: nat, offsetMap: array<nat>, ghost items: seq<Item>) returns (ok: bool)
    requires Maps(offsetMap[..], items) && InOrder(items, offsetMap.Length)
    requires num == |items| <= insns.Length && forall i :: 0 <= i < num ==> insns[i] == items[i].insn
    requires (insns as object) != offsetMap
    modifies insns
    ensures ok == MapFrom(items, 0).Some?
    ensures ok ==> insns[..num] == MapFrom(items, 0).value
  {
    hide MapInsn, InOrder, IndexOf;
    ghost var old0 := offsetMap[..];
    var i := 0;
    assert insns[..0] == [];
    PrependNothing(MapFrom(items, 0));
    while i < num
      invariant i <= num && offsetMap[..] == old0
      invariant forall j :: i <= j < num ==> insns[j] == items[j].insn
      invariant MapFrom(items, 0) == Prepend(insns[..i], MapFrom(items, i))
    {
      var mapped := MapTargetsOf(offsetMap, items, insns[i]);
      if mapped.None? {
        return false;
      }
      ghost var before := insns[..i];
      insns[i] := mapped.value;
      assert insns[..i + 1] == before + [mapped.value];
      MapFromOnce(items, i, before, mapped.value);
      i := i + 1;
    }
    assert insns[..num] + [] == insns[..num];
    ok := true;
  }

  lemma {:induction false} MapTrapsMore(items: seq<Item>, len: nat, ts: seq<Trap>, k: nat, us: seq<Trap>)
    requires k < |ts| && MapTraps(items, len, ts[..k]) == Some(us)
    ensures MapTrap(items, len, ts[k]).None? ==> MapTraps(items, len, ts).None?
    ensures MapTrap(items, len, ts[k]).Some? ==> MapTraps(items, len, ts[..k + 1]) == Some(us + [MapTrap(items, len, ts[k]).value])
    decreases k
  {
    hide MapTrap;
    if k > 0 {
      assert ts[..k][0] == ts[0] && ts[..k][1..] == ts[1..][..k - 1];
      assert ts[..k + 1][0] == ts[0] && ts[..k + 1][1..] == ts[1..][..k];
      MapTrapsMore(items, len, ts[1..], k - 1, us[1..]);
      if MapTrap(items, len, ts[k]).Some? {
        var u := MapTrap(items, len, ts[k]).value;
        assert [us[0]] + (us[1..] + [u]) == us + [u];
      }
    } else {
      assert ts[..1] == [ts[0]] && ts[..1][1..] == [];
      if MapTrap(items, len, ts[0]).Some? {
        var u := MapTrap(items, len, ts[0]).value;
        assert us == [] && us + [u] == [u] + [];
      }
    }
  }

  method ParseTraps(offsetMap: array<nat>, num: nat, ghost items: seq<Item>, traps: seq<Trap>) returns (r: Option<seq<Trap>>)
    requires Maps(offsetMap[..], items) && InOrder(items, offsetMap.Length) && num == |items|
    ensures r == MapTraps(items, offsetMap.Length, traps)
  {
    hide MapTarget, Maps, InOrder;
    var us: seq<Trap> := [];
    var k := 0;
    assert traps[..0] == [];
    while k < |traps|
      invariant k <= |traps| && MapTraps(items, offsetMap.Length, traps[..k]) == Some(us)
    {
      MapTrapsMore(items, offsetMap.Length, traps, k, us);
      var start := MapOffset(offsetMap, items, traps[k].start);
      if start.None? { return None; }
      var end := Some(num as int);
      if traps[k].end != offsetMap.Length {
        end := MapOffset(offsetMap, items, traps[k].end);
        if end.None? { return None; }
      }
      var target := MapOffset(offsetMap, items, traps[k].target);
      if target.None? || end.value <= start.value { return None; }
      us := us + [Trap(start.value, end.value, target.value, traps[k].kind)];
      k := k + 1;
    }
    assert traps[..k] == traps;
    r := Some(us);
  }

  method ParseMethod(s: Source, traps: seq<Trap>) returns (r: Option<Parsed>)
    ensures r == ParseCode(s, traps)
  {
    hide Sweep, MapFrom, MapTraps, Maps, InOrder;
    var offsetMap := new nat[|s.code|];
    var insns := new Insn[|s.code|](_ => Plain(0));
    var num, items := Decode(s, insns, offsetMap);
    if num.None? { return None; }
    var linked := Link(insns, num.value, offsetMap, items);
    if !linked { return None; }
    var ts := ParseTraps(offsetMap, num.value, items, traps);
    if ts.None? { return None; }
    r := Some(Parsed(insns[..num.value], ts.value));
  }
}
