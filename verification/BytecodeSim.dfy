/** Decoding and resolving keeps the meaning of every instruction. */
module BytecodeSim {
  import opened Options
  import opened JavaFrame
  import opened Bytecode
  import opened ByteMachine
  import opened InsnMachine

  /** Running the bytes at `pc` is executing the decoded, resolved instruction. */
  ghost predicate Same<W(!new)>(m: World<W>, s: Source, it: Item) {
    forall f, w :: ByteFlow(m, s.pool, s.code, it.off, f, w) == Exec(m, Resolve(m.mirror, s.pool, it.insn), it.next, f, w)
  }

  lemma LocalSame<W(!new)>(m: World<W>, s: Source, pc: nat, it: Item)
    requires pc < |s.code| && DecodeAt(s, pc) == Some(it)
    requires UsesLocal(s.code[pc])
    ensures Same(m, s, it)
  {
    hide Load, Store, Bump, Basic, Push, Test, PoolAt, WideAt, LookupAt, TableAt;
  }

  lemma ShortFlow<W>(m: World<W>, pool: seq<Const>, c: Code, pc: nat, f: Frame, w: W)
    requires pc < |c| && ShortLocal(c[pc])
    ensures ByteFlow(m, pool, c, pc, f, w) ==
            Then(if c[pc] <= 0x2d then Load((c[pc] - 0x1a) / 4, (c[pc] - 0x1a) % 4, f, w)
                 else Store((c[pc] - 0x3b) / 4, (c[pc] - 0x3b) % 4, f, w), pc + 1)
  {
    hide Load, Store;
  }

  lemma ShortExec<W>(m: World<W>, pool: seq<Const>, op: Byte, next: int, f: Frame, w: W)
    requires ShortLocal(op)
    ensures Exec(m, Resolve(m.mirror, pool, ShortInsn(op)), next, f, w) ==
            Then(if op <= 0x2d then Load((op - 0x1a) / 4, (op - 0x1a) % 4, f, w)
                 else Store((op - 0x3b) / 4, (op - 0x3b) % 4, f, w), next)
  {
  }

  lemma ShortItem(s: Source, pc: nat)
    requires pc < |s.code| && ShortLocal(s.code[pc])
    ensures DecodeAt(s, pc) == Some(Item(pc, ShortInsn(s.code[pc]), pc + 1))
  {
  }

  lemma ShortSame<W(!new)>(m: World<W>, s: Source, pc: nat, it: Item)
    requires pc < |s.code| && DecodeAt(s, pc) == Some(it)
    requires ShortLocal(s.code[pc])
    ensures Same(m, s, it)
  {
    hide DecodeAt, Load, Store, ByteFlow, Exec, ShortInsn, Resolve;
    ShortItem(s, pc);
    forall f, w
      ensures ByteFlow(m, s.pool, s.code, it.off, f, w) == Exec(m, Resolve(m.mirror, s.pool, it.insn), it.next, f, w)
    {
      ShortFlow(m, s.pool, s.code, pc, f, w);
      ShortExec(m, s.pool, s.code[pc], pc + 1, f, w);
    }
  }

  lemma IncrementSame<W(!new)>(m: World<W>, s: Source, pc: nat, it: Item)
    requires pc < |s.code| && DecodeAt(s, pc) == Some(it)
    requires s.code[pc] == IINC
    ensures Same(m, s, it)
  {
    hide Load, Store, Bump, Basic, Push, Test, PoolAt, WideAt, LookupAt, TableAt;
  }

  lemma ImmediateSame<W(!new)>(m: World<W>, s: Source, pc: nat, it: Item)
    requires pc < |s.code| && DecodeAt(s, pc) == Some(it)
    requires s.code[pc] == 0x10 || s.code[pc] == 0x11 || s.code[pc] == NEWARRAY
    ensures Same(m, s, it)
  {
    hide Load, Store, Bump, Basic, Push, Test, PoolAt, WideAt, LookupAt, TableAt;
  }

  lemma BranchSame<W(!new)>(m: World<W>, s: Source, pc: nat, it: Item)
    requires pc < |s.code| && DecodeAt(s, pc) == Some(it)
    requires Jumps(s.code[pc]) || s.code[pc] == 0xc8 || s.code[pc] == 0xc9
    ensures Same(m, s, it)
  {
    hide Load, Store, Bump, Basic, Push, Test, PoolAt, WideAt, LookupAt, TableAt;
  }

  lemma ConstantExec<W>(m: World<W>, s: Source, op: Byte, cp: nat, next: int, f: Frame, w: W)
    requires LDC <= op <= LDC2_W && PoolOk(s, op, cp)
    ensures Exec(m, Resolve(m.mirror, s.pool, Constant(op, cp)), next, f, w) == Then(PushConst(m, s.pool, cp, f, w), next)
    ensures Exec(m, Resolve(m.mirror, s.pool, Constant(LDC, cp)), next, f, w) == Then(PushConst(m, s.pool, cp, f, w), next)
  {
    hide Push;
  }

  lemma ConstantSame<W(!new)>(m: World<W>, s: Source, pc: nat, it: Item)
    requires pc < |s.code| && DecodeAt(s, pc) == Some(it)
    requires LDC <= s.code[pc] <= LDC2_W
    ensures Same(m, s, it)
  {
    assert PoolAt(s, pc) == Some(it);
    hide DecodeAt, PushConst, Exec, Resolve;
    forall f, w
      ensures ByteFlow(m, s.pool, s.code, it.off, f, w) == Exec(m, Resolve(m.mirror, s.pool, it.insn), it.next, f, w)
    {
      ConstantExec(m, s, s.code[pc], it.insn.cp, it.next, f, w);
    }
  }

  lemma MemberSame<W(!new)>(m: World<W>, s: Source, pc: nat, it: Item)
    requires pc < |s.code| && DecodeAt(s, pc) == Some(it)
    requires UsesMember(s.code[pc]) || s.code[pc] == MULTIANEWARRAY
    ensures Same(m, s, it)
  {
    assert PoolAt(s, pc) == Some(it);
    hide DecodeAt, Load, Store, Bump, Basic, Push, Test;
  }

  lemma WideSame<W(!new)>(m: World<W>, s: Source, pc: nat, it: Item)
    requires pc < |s.code| && DecodeAt(s, pc) == Some(it)
    requires s.code[pc] == WIDE
    ensures Same(m, s, it)
  {
    assert WideAt(s, pc) == Some(it);
    hide DecodeAt, Load, Store, Bump, Basic, Push, Test, Aligned;
  }

  lemma ConstSame<W(!new)>(m: World<W>, s: Source, pc: nat, it: Item)
    requires pc < |s.code| && DecodeAt(s, pc) == Some(it)
    requires 0x01 <= s.code[pc] <= 0x0f
    ensures Same(m, s, it)
  {
    hide Load, Store, Bump, Basic, Push, Test, PoolAt, WideAt, LookupAt, TableAt;
  }

  predicate Simple(op: Byte) {
    && !UsesLocal(op) && !ShortLocal(op) && op != IINC && op != 0x10 && op != 0x11 && op != NEWARRAY && !Jumps(op)
    && op != 0xc8 && op != 0xc9 && !UsesPool(op) && op != WIDE && !(0x01 <= op <= 0x0f)
    && op != LOOKUPSWITCH && op != TABLESWITCH
  }

  lemma SimpleSame<W(!new)>(m: World<W>, s: Source, pc: nat, it: Item)
    requires pc < |s.code| && DecodeAt(s, pc) == Some(it)
    requires Simple(s.code[pc])
    ensures Same(m, s, it)
  {
    hide Load, Store, Bump, Basic, Push, Test, PoolAt, WideAt, LookupAt, TableAt;
  }

  // ---------------------------------------------------------------------------
  // Switches

  lemma AscendingPairs(pairs: seq<Pair>, i: nat, j: nat)
    requires Ascending(pairs) && i < j < |pairs|
    ensures pairs[i].key < pairs[j].key
    decreases j - i
  {
    assert pairs[j - 1].key < pairs[j].key;
    if i < j - 1 { AscendingPairs(pairs, i, j - 1); }
  }

  /** The binary search finds the target of a key that is there, and nothing else. */
  lemma {:induction false} BSearchExact(pairs: seq<Pair>, key: int, lo: nat, hi: nat)
    requires Ascending(pairs) && lo <= hi <= |pairs|
    ensures BSearch(pairs, key, lo, hi).None? ==> forall i :: lo <= i < hi ==> pairs[i].key != key
    ensures forall i :: lo <= i < hi && pairs[i].key == key ==> BSearch(pairs, key, lo, hi) == Some(pairs[i].target)
    decreases hi - lo
  {
    if lo < hi {
      var mid := (lo + hi) / 2;
      forall i | lo <= i < hi && i != mid
        ensures i < mid ==> pairs[i].key < pairs[mid].key
        ensures i > mid ==> pairs[i].key > pairs[mid].key
      {
        if i < mid { AscendingPairs(pairs, i, mid); } else { AscendingPairs(pairs, mid, i); }
      }
      if key < pairs[mid].key {
        BSearchExact(pairs, key, lo, mid);
      } else if pairs[mid].key < key {
        BSearchExact(pairs, key, mid + 1, hi);
      }
    }
  }

  lemma {:induction false} FindPairExact(c: Code, p: nat, key: int, i: nat, n: nat)
    requires i <= n
    ensures match FindPair(c, p, key, i, n)
            case None => forall j :: i <= j < n ==> S4(c, p + 8 * j) != key
            case Some(d) => exists j :: i <= j < n && S4(c, p + 8 * j) == key && d == S4(c, p + 8 * j + 4)
    decreases n - i
  {
    if i < n {
      assert S4(c, p + 8 * i) == key ==> FindPair(c, p, key, i, n) == Some(S4(c, p + 8 * i + 4));
      if S4(c, p + 8 * i) != key { FindPairExact(c, p, key, i + 1, n); }
    }
  }

  lemma LookupTarget(c: Code, pc: nat, key: int, it: Item)
    requires pc < |c| && c[pc] == LOOKUPSWITCH && LookupAt(c, pc) == Some(it)
    ensures it.insn.Lookup? && SwitchTarget(c, pc, key) == Chosen(it.insn, key)
  {
    hide S4, ZeroPad, Ascending;
    var a := Aligned(pc);
    var n := S4(c, a + 4);
    var pairs := it.insn.pairs;
    assert |pairs| == n && forall j :: 0 <= j < n ==> pairs[j] == Pair(S4(c, a + 8 + 8 * j), pc + S4(c, a + 12 + 8 * j));
    FindPairExact(c, a + 8, key, 0, n);
    BSearchExact(pairs, key, 0, n);
    match FindPair(c, a + 8, key, 0, n)
    case None =>
      forall j | 0 <= j < n
        ensures pairs[j].key != key
      {
        assert S4(c, a + 8 + 8 * j) != key;
      }
      if BSearch(pairs, key, 0, n).Some? { BSearchFound(pairs, key, 0, n); }
    case Some(d) =>
      var j :| 0 <= j < n && S4(c, a + 8 + 8 * j) == key && d == S4(c, a + 8 + 8 * j + 4);
      assert pairs[j] == Pair(key, pc + d);
  }

  lemma {:induction false} BSearchFound(pairs: seq<Pair>, key: int, lo: nat, hi: nat)
    requires lo <= hi <= |pairs| && BSearch(pairs, key, lo, hi).Some?
    ensures exists i :: lo <= i < hi && pairs[i].key == key
    decreases hi - lo
  {
    if lo < hi {
      var mid := (lo + hi) / 2;
      if pairs[mid].key == key {
      } else if key < pairs[mid].key {
        BSearchFound(pairs, key, lo, mid);
      } else {
        BSearchFound(pairs, key, mid + 1, hi);
      }
    }
  }

  lemma LookupSize(s: Source, pc: nat, it: Item)
    requires pc < |s.code| && s.code[pc] == LOOKUPSWITCH && LookupAt(s.code, pc) == Some(it)
    ensures it.off == pc && it.insn.Lookup? && 1 <= Size(s.code, pc) == it.next - pc && it.next <= |s.code|
  {
  }

  lemma TableSize(s: Source, pc: nat, it: Item)
    requires pc < |s.code| && s.code[pc] == TABLESWITCH && TableAt(s.code, pc) == Some(it)
    ensures it.off == pc && it.insn.Table? && 1 <= Size(s.code, pc) == it.next - pc && it.next <= |s.code|
  {
  }

  lemma LookupSame<W(!new)>(m: World<W>, s: Source, pc: nat, it: Item)
    requires pc < |s.code| && DecodeAt(s, pc) == Some(it)
    requires s.code[pc] == LOOKUPSWITCH
    ensures Same(m, s, it)
  {
    assert LookupAt(s.code, pc) == Some(it);
    hide DecodeAt, LookupAt, SwitchTarget, Chosen, Size;
    LookupSize(s, pc, it);
    forall f, w
      ensures ByteFlow(m, s.pool, s.code, it.off, f, w) == Exec(m, Resolve(m.mirror, s.pool, it.insn), it.next, f, w)
    {
      if |f.stack| > 0 {
        LookupTarget(s.code, pc, f.stack[|f.stack| - 1], it);
      }
    }
  }

  lemma TableTarget(c: Code, pc: nat, key: int, it: Item)
    requires pc < |c| && c[pc] == TABLESWITCH && TableAt(c, pc) == Some(it)
    ensures it.insn.Table? && SwitchTarget(c, pc, key) == Chosen(it.insn, key)
  {
  }

  lemma TableSame<W(!new)>(m: World<W>, s: Source, pc: nat, it: Item)
    requires pc < |s.code| && DecodeAt(s, pc) == Some(it)
    requires s.code[pc] == TABLESWITCH
    ensures Same(m, s, it)
  {
    assert TableAt(s.code, pc) == Some(it);
    hide DecodeAt, TableAt, SwitchTarget, Chosen, Size;
    TableSize(s, pc, it);
    forall f, w
      ensures ByteFlow(m, s.pool, s.code, it.off, f, w) == Exec(m, Resolve(m.mirror, s.pool, it.insn), it.next, f, w)
    {
      if |f.stack| > 0 {
        TableTarget(s.code, pc, f.stack[|f.stack| - 1], it);
      }
    }
  }

  /** Every accepted instruction means the same decoded and resolved. */
  lemma DecodeSame<W(!new)>(m: World<W>, s: Source, pc: nat, it: Item)
    requires pc < |s.code| && DecodeAt(s, pc) == Some(it)
    ensures Same(m, s, it)
  {
    hide DecodeAt, Same;
    var op := s.code[pc];
    if UsesLocal(op) { LocalSame(m, s, pc, it); }
    else if ShortLocal(op) { ShortSame(m, s, pc, it); }
    else if op == IINC { IncrementSame(m, s, pc, it); }
    else if op == 0x10 || op == 0x11 || op == NEWARRAY { ImmediateSame(m, s, pc, it); }
    else if Jumps(op) || op == 0xc8 || op == 0xc9 { BranchSame(m, s, pc, it); }
    else if LDC <= op <= LDC2_W { ConstantSame(m, s, pc, it); }
    else if UsesMember(op) || op == MULTIANEWARRAY { MemberSame(m, s, pc, it); }
    else if op == WIDE { WideSame(m, s, pc, it); }
    else if 0x01 <= op <= 0x0f { ConstSame(m, s, pc, it); }
    else if op == LOOKUPSWITCH { LookupSame(m, s, pc, it); }
    else if op == TABLESWITCH { TableSame(m, s, pc, it); }
    else { SimpleSame(m, s, pc, it); }
  }
}
