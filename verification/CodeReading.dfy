/** The parser reads back exactly the instructions that were laid out, one at a time. */
module CodeReading {
  import opened Options
  import opened JavaFrame
  import opened Bytecode
  import opened CodeLayout

  // ---------------------------------------------------------------------------
  // Operands

  /** Bytes `b` stand at `p`. */
  predicate Has(c: Code, p: nat, b: seq<Byte>) {
    p + |b| <= |c| && c[p..p + |b|] == b
  }

  lemma HasByte(c: Code, p: nat, b: seq<Byte>, i: nat)
    requires Has(c, p, b) && i < |b|
    ensures U1(c, p + i) == b[i]
  {
    assert c[p..p + |b|][i] == c[p + i];
  }

  lemma HasParts(c: Code, p: nat, a: seq<Byte>, b: seq<Byte>)
    ensures Has(c, p, a + b) <==> Has(c, p, a) && Has(c, p + |a|, b)
  {
    if p + |a| + |b| <= |c| {
      assert c[p..p + |a + b|] == c[p..p + |a|] + c[p + |a|..p + |a| + |b|];
      if Has(c, p, a + b) {
        assert c[p..p + |a|] == (a + b)[..|a|];
        assert c[p + |a|..p + |a| + |b|] == (a + b)[|a|..];
      }
    }
  }

  /** Two bytes read as one number, and that number with a sign. */
  lemma TwoRead(c: Code, p: nat, x: int)
    requires Has(c, p, Two(x))
    ensures 0 <= x < 0x1_0000 ==> U2(c, p) == x
    ensures Short(x) ==> S2(c, p) == x
  {
    HasByte(c, p, Two(x), 0);
    HasByte(c, p, Two(x), 1);
  }

  lemma TwoBack(c: Code, p: nat)
    requires p + 2 <= |c|
    ensures Has(c, p, Two(U2(c, p))) && Has(c, p, Two(S2(c, p)))
  {
    assert c[p..p + 2] == [c[p], c[p + 1]];
  }

  lemma FourRead(c: Code, p: nat, x: Word)
    requires Has(c, p, Four(x))
    ensures S4(c, p) == x
  {
    HasByte(c, p, Four(x), 0);
    HasByte(c, p, Four(x), 1);
    HasByte(c, p, Four(x), 2);
    HasByte(c, p, Four(x), 3);
    FourParts(x);
  }

  lemma TwoParts(y: int)
    ensures y / 0x100 % 0x100 * 0x100 + y % 0x100 == y % 0x1_0000
  {
  }

  lemma FourParts(x: Word)
    ensures Wrap((x / 0x100_0000 % 0x100 * 0x100 + x / 0x1_0000 % 0x100) * 0x1_0000 + (x / 0x100 % 0x100 * 0x100 + x % 0x100)) == x
  {
    var high := x / 0x1_0000;
    TwoParts(high);
    TwoParts(x);
    assert high / 0x100 == x / 0x100_0000;
  }

  lemma FourBack(c: Code, p: nat)
    requires p + 4 <= |c|
    ensures Has(c, p, Four(S4(c, p)))
  {
    assert c[p..p + 4] == [c[p], c[p + 1], c[p + 2], c[p + 3]];
    PartsFour(c[p], c[p + 1], c[p + 2], c[p + 3]);
  }

  lemma PartsFour(a: Byte, b: Byte, c: Byte, d: Byte)
    ensures Four(Wrap((a * 0x100 + b) * 0x1_0000 + (c * 0x100 + d))) == [a, b, c, d]
  {
    var a' := if a < 0x80 then a else a - 0x100;
    var x := Wrap((a * 0x100 + b) * 0x1_0000 + (c * 0x100 + d));
    assert x == ((a' * 0x100 + b) * 0x100 + c) * 0x100 + d;
    hide Wrap;
    LastByte((a' * 0x100 + b) * 0x100 + c, d);
    LastByte(a' * 0x100 + b, c);
    LastByte(a', b);
    Upper(x);
  }

  lemma LastByte(x: int, b: Byte)
    ensures (x * 0x100 + b) / 0x100 == x && (x * 0x100 + b) % 0x100 == b
  {
  }

  lemma Upper(x: int)
    ensures x / 0x1_0000 == x / 0x100 / 0x100 && x / 0x100_0000 == x / 0x100 / 0x100 / 0x100
  {
  }

  lemma {:induction false} FoursRead(c: Code, p: nat, xs: seq<Word>, i: nat)
    requires Has(c, p, Fours(xs)) && i < |xs|
    ensures S4(c, p + 4 * i) == xs[i]
    decreases i
  {
    HasParts(c, p, Four(xs[0]), Fours(xs[1..]));
    if i == 0 { FourRead(c, p, xs[0]); } else { FoursRead(c, p + 4, xs[1..], i - 1); }
  }

  lemma {:induction false} FoursBack(c: Code, p: nat, xs: seq<Word>)
    requires p + 4 * |xs| <= |c| && forall i :: 0 <= i < |xs| ==> xs[i] == S4(c, p + 4 * i)
    ensures Has(c, p, Fours(xs))
    decreases |xs|
  {
    hide S4, Four;
    if xs != [] {
      assert xs[0] == S4(c, p + 4 * 0);
      FourBack(c, p);
      forall i | 0 <= i < |xs[1..]|
        ensures xs[1..][i] == S4(c, p + 4 + 4 * i)
      {
        assert xs[1..][i] == xs[i + 1] == S4(c, p + 4 * (i + 1));
      }
      FoursBack(c, p + 4, xs[1..]);
      HasParts(c, p, Four(xs[0]), Fours(xs[1..]));
    }
  }

  lemma {:induction false} PairsRead(c: Code, p: nat, ps: seq<Pair>, i: nat)
    requires Displacements(ps) && Has(c, p, PairBytes(ps)) && i < |ps|
    ensures S4(c, p + 8 * i) == ps[i].key && S4(c, p + 8 * i + 4) == ps[i].target
    decreases i
  {
    hide S4, Four;
    var k, t := Four(ps[0].key), Four(ps[0].target);
    HasParts(c, p, k + t, PairBytes(ps[1..]));
    HasParts(c, p, k, t);
    if i == 0 {
      FourRead(c, p, ps[0].key);
      FourRead(c, p + 4, ps[0].target);
    } else {
      PairsRead(c, p + 8, ps[1..], i - 1);
    }
  }

  lemma {:induction false} PairsBack(c: Code, p: nat, ps: seq<Pair>)
    requires p + 8 * |ps| <= |c| && Displacements(ps)
    requires forall i :: 0 <= i < |ps| ==> ps[i] == Pair(S4(c, p + 8 * i), S4(c, p + 8 * i + 4))
    ensures Has(c, p, PairBytes(ps))
    decreases |ps|
  {
    hide S4, Four;
    if ps != [] {
      assert ps[0] == Pair(S4(c, p + 8 * 0), S4(c, p + 8 * 0 + 4));
      FourBack(c, p);
      FourBack(c, p + 4);
      forall i | 0 <= i < |ps[1..]|
        ensures ps[1..][i] == Pair(S4(c, p + 8 + 8 * i), S4(c, p + 8 + 8 * i + 4))
      {
        assert ps[1..][i] == ps[i + 1] == Pair(S4(c, p + 8 * (i + 1)), S4(c, p + 8 * (i + 1) + 4));
      }
      PairsBack(c, p + 8, ps[1..]);
      var k, t := Four(ps[0].key), Four(ps[0].target);
      HasParts(c, p, k, t);
      HasParts(c, p, k + t, PairBytes(ps[1..]));
    }
  }

  lemma PaddingRead(c: Code, pc: nat)
    requires Has(c, pc + 1, Padding(pc))
    ensures ZeroPad(c, pc) && Aligned(pc) == pc + 1 + |Padding(pc)|
  {
    forall p | pc < p < Aligned(pc)
      ensures U1(c, p) == 0
    {
      HasByte(c, pc + 1, Padding(pc), p - pc - 1);
    }
  }

  lemma PaddingBack(c: Code, pc: nat)
    requires ZeroPad(c, pc) && Aligned(pc) <= |c|
    ensures Has(c, pc + 1, Padding(pc)) && Aligned(pc) == pc + 1 + |Padding(pc)|
  {
    forall p | pc < p < Aligned(pc)
      ensures c[p] == 0
    {
      assert U1(c, p) == 0;
    }
    assert c[pc + 1..Aligned(pc)] == Padding(pc);
  }

  // ---------------------------------------------------------------------------
  // From an instruction to its bytes and back

  /** The parser reads instruction `r` at `pc`. */
  predicate Reads(s: Source, pc: nat, r: Raw)
    requires pc < |s.code| && WellFormed(r)
  {
    DecodeAt(s, pc) == Some(Item(pc, Means(r, pc), pc + |Encode(r, pc)|))
  }

  /** Which format the parser reads at `pc`. */
  lemma Decodes(s: Source, pc: nat)
    requires pc < |s.code|
    ensures var c, op, r := s.code, s.code[pc], DecodeAt(s, pc);
            && (op == 0x11 ==> r == When(pc + 3 <= |c|, pc, Immediate(op, S2(c, pc + 1)), pc + 3))
            && (Jumps(op) ==> r == When(pc + 3 <= |c|, pc, Branch(op, pc + S2(c, pc + 1)), pc + 3))
            && (op == 0xc8 || op == 0xc9 ==> r == When(pc + 5 <= |c|, pc, Branch(op - 0x21, pc + S4(c, pc + 1)), pc + 5))
            && (UsesPool(op) ==> r == PoolAt(s, pc))
            && (op == LOOKUPSWITCH ==> r == LookupAt(c, pc))
            && (op == TABLESWITCH ==> r == TableAt(c, pc))
            && (op == WIDE ==> r == WideAt(s, pc))
  {
    hide S1, S2, S4, U1, U2, When, PoolAt, LookupAt, TableAt, WideAt, ShortInsn;
  }

  /** The pool entry named by two bytes. */
  lemma DecodesPool(s: Source, pc: nat)
    requires pc < |s.code| && UsesPool(s.code[pc]) && s.code[pc] != LDC
    ensures var c, op, u := s.code, s.code[pc], U2(s.code, pc + 1);
            PoolAt(s, pc) ==
            if op == LDC_W || op == LDC2_W then When(pc + 3 <= |c| && PoolOk(s, op, u), pc, Constant(if op == LDC_W then LDC else op, u), pc + 3)
            else if op == INVOKEINTERFACE then When(pc + 5 <= |c| && PoolOk(s, op, u), pc, Member(op, u), pc + 5)
            else if op == MULTIANEWARRAY then When(pc + 4 <= |c| && PoolOk(s, op, u), pc, MultiArray(u, U1(c, pc + 3)), pc + 4)
            else When(pc + 3 <= |c| && PoolOk(s, op, u), pc, Member(op, u), pc + 3)
  {
    hide U1, U2, When, PoolOk;
  }

  lemma ReadsByte(s: Source, pc: nat, r: Raw)
    requires Legal(r, s.maxLocals, s.pool) && Has(s.code, pc, Encode(r, pc)) && pc < |s.code|
    requires r.Bare? || r.Fixed?
    ensures Reads(s, pc, r)
  {
    HasByte(s.code, pc, Encode(r, pc), 0);
  }

  lemma ReadsBytes(s: Source, pc: nat, r: Raw)
    requires Legal(r, s.maxLocals, s.pool) && Has(s.code, pc, Encode(r, pc)) && pc < |s.code|
    requires r.LocalByte? || r.PushByte? || r.LoadConst? || r.NewPlain? || r.Inc?
    ensures Reads(s, pc, r)
  {
    hide ShortInsn, LookupAt, TableAt, WideAt, Has;
    var b := Encode(r, pc);
    HasByte(s.code, pc, b, 0);
    HasByte(s.code, pc, b, 1);
    if r.Inc? { HasByte(s.code, pc, b, 2); }
    HasEnd(s.code, pc, b);
  }

  lemma TwoOperand(c: Code, pc: nat, op: Byte, x: int)
    requires Has(c, pc, [op] + Two(x)) && Short(x)
    ensures pc + 3 <= |c| && c[pc] == op && S2(c, pc + 1) == x
  {
    hide Two, S2;
    HasByte(c, pc, [op] + Two(x), 0);
    HasParts(c, pc, [op], Two(x));
    TwoRead(c, pc + 1, x);
  }

  lemma ReadsTwo(s: Source, pc: nat, r: Raw)
    requires Legal(r, s.maxLocals, s.pool) && Has(s.code, pc, Encode(r, pc)) && pc < |s.code|
    requires r.PushShort? || r.Jump?
    ensures Reads(s, pc, r)
  {
    hide Two, S2, DecodeAt, Has;
    if r.Jump? { TwoOperand(s.code, pc, r.op, r.disp); } else { TwoOperand(s.code, pc, 0x11, r.value); }
    Decodes(s, pc);
  }

  /** The bytes of a pool index behind the opcode. */
  function IndexBytes(r: Raw): (b: seq<Byte>)
    requires WellFormed(r) && (r.LoadConstWide? || r.LoadConst2? || r.OnEntry? || r.CallInterface? || r.NewMulti?)
    ensures |b| == 3
  {
    [if r.LoadConstWide? then 0x13 else if r.LoadConst2? then 0x14 else if r.OnEntry? then r.op
     else if r.CallInterface? then 0xb9 else 0xc5] + Two(r.cp)
  }

  function TailBytes(r: Raw): seq<Byte> {
    if r.CallInterface? then [r.count, r.last] else if r.NewMulti? then [r.dims] else []
  }

  lemma PoolBytes(r: Raw, pc: nat)
    requires WellFormed(r) && (r.LoadConstWide? || r.LoadConst2? || r.OnEntry? || r.CallInterface? || r.NewMulti?)
    ensures Encode(r, pc) == IndexBytes(r) + TailBytes(r) && r.cp < 0x1_0000
    ensures IndexBytes(r) == [IndexBytes(r)[0]] + Two(r.cp)
  {
    hide Two;
  }

  lemma PoolOperands(c: Code, pc: nat, r: Raw)
    requires WellFormed(r) && (r.LoadConstWide? || r.LoadConst2? || r.OnEntry? || r.CallInterface? || r.NewMulti?)
    requires Has(c, pc, Encode(r, pc))
    ensures c[pc] == IndexBytes(r)[0] && U2(c, pc + 1) == r.cp && (r.NewMulti? ==> U1(c, pc + 3) == r.dims)
    ensures |Encode(r, pc)| == 3 + |TailBytes(r)|
  {
    PoolBytes(r, pc);
    var b := IndexBytes(r);
    hide Two, U2, WellFormed, Encode, IndexBytes;
    HasParts(c, pc, b, TailBytes(r));
    HasParts(c, pc, [b[0]], Two(r.cp));
    HasByte(c, pc, b, 0);
    TwoRead(c, pc + 1, r.cp);
    if r.NewMulti? { HasByte(c, pc + 3, TailBytes(r), 0); }
    hide Has;
  }

  lemma PoolLegal(s: Source, r: Raw)
    requires Legal(r, s.maxLocals, s.pool) && (r.LoadConstWide? || r.LoadConst2? || r.OnEntry? || r.CallInterface? || r.NewMulti?)
    ensures var op := IndexBytes(r)[0]; UsesPool(op) && op != LDC && PoolOk(s, op, r.cp)
  {
    hide Two;
  }

  lemma PoolMeans(r: Raw, pc: nat)
    requires WellFormed(r) && (r.LoadConstWide? || r.LoadConst2? || r.OnEntry? || r.CallInterface? || r.NewMulti?)
    ensures var op := IndexBytes(r)[0];
            Means(r, pc) ==
            if op == LDC_W then Constant(LDC, r.cp)
            else if op == LDC2_W then Constant(op, r.cp)
            else if op == MULTIANEWARRAY then MultiArray(r.cp, r.dims)
            else Member(op, r.cp)
    ensures var op := IndexBytes(r)[0];
            |TailBytes(r)| == if op == INVOKEINTERFACE then 2 else if op == MULTIANEWARRAY then 1 else 0
    ensures IndexBytes(r)[0] == MULTIANEWARRAY ==> r.NewMulti?
  {
    hide Two;
  }

  lemma ReadsPool(s: Source, pc: nat, r: Raw)
    requires Legal(r, s.maxLocals, s.pool) && Has(s.code, pc, Encode(r, pc)) && pc < |s.code|
    requires r.LoadConstWide? || r.LoadConst2? || r.OnEntry? || r.CallInterface? || r.NewMulti?
    ensures Reads(s, pc, r)
  {
    PoolLegal(s, r);
    PoolMeans(r, pc);
    PoolOperands(s.code, pc, r);
    HasEnd(s.code, pc, Encode(r, pc));
    hide U2, DecodeAt, PoolAt, PoolOk, IndexBytes, TailBytes, Means, Legal, WellFormed, Encode, Has, UsesPool;
    Decodes(s, pc);
    DecodesPool(s, pc);
  }

  lemma ReadsFar(s: Source, pc: nat, r: Raw)
    requires Legal(r, s.maxLocals, s.pool) && Has(s.code, pc, Encode(r, pc)) && pc < |s.code|
    requires r.JumpFar?
    ensures Reads(s, pc, r)
  {
    hide Four, S4, DecodeAt;
    HasByte(s.code, pc, Encode(r, pc), 0);
    HasParts(s.code, pc, [r.op], Four(r.disp));
    FourRead(s.code, pc + 1, r.disp);
    Decodes(s, pc);
  }

  lemma WideOperands(c: Code, pc: nat, r: Raw)
    requires WellFormed(r) && (r.LocalWide? || r.IncWide?) && Has(c, pc, Encode(r, pc))
    ensures c[pc] == WIDE && U1(c, pc + 1) == (if r.IncWide? then IINC else r.op) && U2(c, pc + 2) == r.index
    ensures |Encode(r, pc)| == if r.IncWide? then 6 else 4
    ensures r.IncWide? ==> S2(c, pc + 4) == r.delta
  {
    hide Two, U2, S2;
    var b := Encode(r, pc);
    HasByte(c, pc, b, 0);
    HasByte(c, pc, b, 1);
    if r.IncWide? {
      HasParts(c, pc, [0xc4, 0x84] + Two(r.index), Two(r.delta));
      TwoRead(c, pc + 4, r.delta);
    }
    HasParts(c, pc, [b[0], b[1]], Two(r.index));
    TwoRead(c, pc + 2, r.index);
  }

  lemma ReadsWide(s: Source, pc: nat, r: Raw)
    requires Legal(r, s.maxLocals, s.pool) && Has(s.code, pc, Encode(r, pc)) && pc < |s.code|
    requires r.LocalWide? || r.IncWide?
    ensures Reads(s, pc, r)
  {
    hide U2, S2, DecodeAt;
    WideOperands(s.code, pc, r);
    Decodes(s, pc);
    assert pc + |Encode(r, pc)| <= |s.code|;
    hide Encode, Has;
  }

  lemma OpcodeParts(c: Code, pc: nat, op: Byte, b: seq<Byte>)
    requires pc < |c|
    ensures Has(c, pc, [op] + b) <==> c[pc] == op && Has(c, pc + 1, b)
  {
    OneByte(c, pc);
    if Has(c, pc, [op]) { HasByte(c, pc, [op], 0); }
    hide Has;
    HasParts(c, pc, [op], b);
  }

  /** The parts of a switch up to its second operand. */
  lemma SwitchParts(c: Code, pc: nat, op: Byte, d: Word, x: Word, rest: seq<Byte>)
    requires pc < |c|
    ensures Has(c, pc, [op] + Padding(pc) + Four(d) + Four(x) + rest) <==>
            c[pc] == op && Has(c, pc + 1, Padding(pc)) && Has(c, Aligned(pc), Four(d)) && Has(c, Aligned(pc) + 4, Four(x))
            && Has(c, Aligned(pc) + 8, rest)
  {
    assert Aligned(pc) == pc + 1 + |Padding(pc)|;
    hide Four, Padding, Aligned, Has;
    var front := [op] + Padding(pc);
    HasParts(c, pc, front + Four(d) + Four(x), rest);
    HasParts(c, pc, front + Four(d), Four(x));
    HasParts(c, pc, front, Four(d));
    OpcodeParts(c, pc, op, Padding(pc));
  }

  /** What a switch starts with, read. */
  lemma SwitchOperands(c: Code, pc: nat, op: Byte, d: Word, x: Word, rest: seq<Byte>)
    requires pc < |c| && Has(c, pc, [op] + Padding(pc) + Four(d) + Four(x) + rest)
    ensures c[pc] == op && ZeroPad(c, pc) && S4(c, Aligned(pc)) == d && S4(c, Aligned(pc) + 4) == x
    ensures Has(c, Aligned(pc) + 8, rest) && pc + |[op] + Padding(pc) + Four(d) + Four(x) + rest| == Aligned(pc) + 8 + |rest| <= |c|
  {
    hide *;
    SwitchParts(c, pc, op, d, x, rest);
    PaddingRead(c, pc);
    FourRead(c, Aligned(pc), d);
    FourRead(c, Aligned(pc) + 4, x);
    HasEnd(c, Aligned(pc) + 8, rest);
  }

  lemma TableBytes(r: Raw, pc: nat)
    requires WellFormed(r) && r.SwitchTable?
    ensures Encode(r, pc) == [0xaa] + Padding(pc) + Four(r.default_) + Four(r.low) + (Four(r.high) + Fours(r.disps))
  {
    hide Four, Padding, Fours;
  }

  lemma TableOperands(c: Code, pc: nat, r: Raw)
    requires WellFormed(r) && r.SwitchTable? && Has(c, pc, Encode(r, pc)) && pc < |c|
    ensures var a := Aligned(pc);
            && c[pc] == 0xaa && ZeroPad(c, pc) && S4(c, a) == r.default_ && S4(c, a + 4) == r.low && S4(c, a + 8) == r.high
            && Has(c, a + 12, Fours(r.disps)) && pc + |Encode(r, pc)| == a + 12 + 4 * |r.disps| <= |c|
  {
    var a := Aligned(pc);
    TableBytes(r, pc);
    hide *;
    SwitchOperands(c, pc, 0xaa, r.default_, r.low, Four(r.high) + Fours(r.disps));
    HasParts(c, a + 8, Four(r.high), Fours(r.disps));
    FourRead(c, a + 8, r.high);
  }

  lemma TargetsMean(c: Code, pc: nat, ds: seq<Word>)
    requires Has(c, Aligned(pc) + 12, Fours(ds))
    ensures forall i :: 0 <= i < |ds| ==> TargetsAt(c, pc, |ds|)[i] == pc + ds[i]
  {
    hide S4, Fours, Has, Aligned;
    forall i | 0 <= i < |ds|
      ensures TargetsAt(c, pc, |ds|)[i] == pc + ds[i]
    {
      FoursRead(c, Aligned(pc) + 12, ds, i);
    }
  }

  lemma ReadsTable(s: Source, pc: nat, r: Raw)
    requires Legal(r, s.maxLocals, s.pool) && Has(s.code, pc, Encode(r, pc)) && pc < |s.code|
    requires r.SwitchTable?
    ensures Reads(s, pc, r)
  {
    hide S4, Fours, DecodeAt, Encode, Has, ZeroPad;
    Decodes(s, pc);
    TableOperands(s.code, pc, r);
    TargetsMean(s.code, pc, r.disps);
    assert TargetsAt(s.code, pc, |r.disps|) == Means(r, pc).targets;
  }

  /** The pairs of a switch, and that they are in order. */
  lemma PairsMean(c: Code, pc: nat, d: Word, ps: seq<Pair>)
    requires Displacements(ps) && Increasing(ps) && |ps| < 0x8000_0000 && Has(c, Aligned(pc) + 8, PairBytes(ps))
    ensures Ascending(PairsAt(c, pc, |ps|)) && PairsAt(c, pc, |ps|) == Means(SwitchLookup(d, ps), pc).pairs
  {
    var a := Aligned(pc);
    hide S4, PairBytes, Has;
    forall i | 0 <= i < |ps|
      ensures PairsAt(c, pc, |ps|)[i] == Pair(ps[i].key, pc + ps[i].target)
    {
      PairsRead(c, a + 8, ps, i);
    }
  }

  lemma LookupBytes(r: Raw, pc: nat)
    requires WellFormed(r) && r.SwitchLookup?
    ensures |r.pairs| < 0x8000_0000 && Displacements(r.pairs)
    ensures Encode(r, pc) == [0xab] + Padding(pc) + Four(r.default_) + Four(|r.pairs|) + PairBytes(r.pairs)
  {
    hide Four, Padding, PairBytes, Increasing;
  }

  lemma LookupOperands(c: Code, pc: nat, r: Raw)
    requires WellFormed(r) && r.SwitchLookup? && Has(c, pc, Encode(r, pc)) && pc < |c|
    ensures var a := Aligned(pc);
            && c[pc] == 0xab && ZeroPad(c, pc) && S4(c, a) == r.default_ && S4(c, a + 4) == |r.pairs|
            && Has(c, a + 8, PairBytes(r.pairs)) && pc + |Encode(r, pc)| == a + 8 + 8 * |r.pairs| <= |c|
  {
    var a := Aligned(pc);
    LookupBytes(r, pc);
    hide *;
    SwitchOperands(c, pc, 0xab, r.default_, |r.pairs|, PairBytes(r.pairs));
  }

  lemma ReadsLookup(s: Source, pc: nat, r: Raw)
    requires Legal(r, s.maxLocals, s.pool) && Has(s.code, pc, Encode(r, pc)) && pc < |s.code|
    requires r.SwitchLookup?
    ensures Reads(s, pc, r)
  {
    hide S4, PairBytes, DecodeAt, Encode, PairsAt, Has, ZeroPad, Ascending, Increasing;
    Decodes(s, pc);
    LookupOperands(s.code, pc, r);
    PairsMean(s.code, pc, r.default_, r.pairs);
  }

  /** Where the bytes of a legal instruction stand, the parser reads that instruction. */
  lemma DecodeEncoded(s: Source, pc: nat, r: Raw)
    requires Legal(r, s.maxLocals, s.pool) && Has(s.code, pc, Encode(r, pc)) && pc < |s.code|
    ensures Reads(s, pc, r)
  {
    hide *;
    match r
    case LocalWide(_, _) => ReadsWide(s, pc, r);
    case IncWide(_, _) => ReadsWide(s, pc, r);
    case SwitchTable(_, _, _, _) => ReadsTable(s, pc, r);
    case SwitchLookup(_, _) => ReadsLookup(s, pc, r);
    case JumpFar(_, _) => ReadsFar(s, pc, r);
    case CallInterface(_, _, _) => ReadsPool(s, pc, r);
    case NewMulti(_, _) => ReadsPool(s, pc, r);
    case PushShort(_) => ReadsTwo(s, pc, r);
    case Jump(_, _) => ReadsTwo(s, pc, r);
    case LoadConstWide(_) => ReadsPool(s, pc, r);
    case LoadConst2(_) => ReadsPool(s, pc, r);
    case OnEntry(_, _) => ReadsPool(s, pc, r);
    case Bare(_) => ReadsByte(s, pc, r);
    case Fixed(_, _, _) => ReadsByte(s, pc, r);
    case _ => ReadsBytes(s, pc, r);
  }

  lemma BackByte(s: Source, pc: nat) returns (r: Raw)
    requires pc < |s.code| && DecodeAt(s, pc).Some? && (ShortLocal(s.code[pc]) || NoOperands(s.code[pc]))
    ensures Legal(r, s.maxLocals, s.pool) && Has(s.code, pc, Encode(r, pc))
  {
    hide DecodeAt;
    var op := s.code[pc];
    r := if op <= 0x2d && ShortLocal(op) then Fixed(false, (op - 0x1a) / 4, (op - 0x1a) % 4)
         else if ShortLocal(op) then Fixed(true, (op - 0x3b) / 4, (op - 0x3b) % 4)
         else Bare(op);
    assert s.code[pc..pc + 1] == [op];
  }

  predicate Bytes(op: Byte) {
    UsesLocal(op) || op == 0x10 || op == IINC || op == LDC || op == NEWARRAY
  }

  lemma BackBytes(s: Source, pc: nat) returns (r: Raw)
    requires pc < |s.code| && DecodeAt(s, pc).Some? && Bytes(s.code[pc])
    ensures Legal(r, s.maxLocals, s.pool) && Has(s.code, pc, Encode(r, pc))
  {
    hide ShortInsn, LookupAt, TableAt, WideAt, Has;
    var c, op := s.code, s.code[pc];
    OneByte(c, pc);
    OneByte(c, pc + 1);
    HasParts(c, pc, [op], [c[pc + 1]]);
    assert [op] + [c[pc + 1]] == [op, c[pc + 1]];
    if op == IINC {
      r := BackInc(s, pc);
      return;
    }
    r := if UsesLocal(op) then LocalByte(op, c[pc + 1])
         else if op == 0x10 then PushByte(S1(c, pc + 1))
         else if op == LDC then LoadConst(c[pc + 1])
         else NewPlain(c[pc + 1]);
  }

  lemma BackInc(s: Source, pc: nat) returns (r: Raw)
    requires pc < |s.code| && DecodeAt(s, pc).Some? && s.code[pc] == IINC
    ensures Legal(r, s.maxLocals, s.pool) && Has(s.code, pc, Encode(r, pc))
  {
    hide ShortInsn, LookupAt, TableAt, WideAt, PoolAt;
    r := Inc(s.code[pc + 1], S1(s.code, pc + 2));
    assert s.code[pc..pc + 3] == [IINC, s.code[pc + 1], s.code[pc + 2]];
  }

  lemma BackTwo(s: Source, pc: nat) returns (r: Raw)
    requires pc < |s.code| && DecodeAt(s, pc).Some? && (s.code[pc] == 0x11 || Jumps(s.code[pc]))
    ensures Legal(r, s.maxLocals, s.pool) && Has(s.code, pc, Encode(r, pc))
  {
    hide Two, S2, DecodeAt;
    var c, op := s.code, s.code[pc];
    var x := S2(c, pc + 1);
    Decodes(s, pc);
    TwoBack(c, pc + 1);
    assert c[pc..pc + 1] == [op];
    HasParts(c, pc, [op], Two(x));
    SignedTwo(c, pc + 1);
    r := if op == 0x11 then PushShort(x) else Jump(op, x);
  }

  lemma SignedTwo(c: Code, p: nat)
    ensures Short(S2(c, p))
  {
  }

  lemma BackFar(s: Source, pc: nat) returns (r: Raw)
    requires pc < |s.code| && DecodeAt(s, pc).Some? && s.code[pc] in {0xc8, 0xc9}
    ensures Legal(r, s.maxLocals, s.pool) && Has(s.code, pc, Encode(r, pc))
  {
    hide DecodeAt, Four, S4;
    var c, op := s.code, s.code[pc];
    Decodes(s, pc);
    assert c[pc..pc + 1] == [op];
    FourBack(c, pc + 1);
    HasParts(c, pc, [op], Four(S4(c, pc + 1)));
    r := JumpFar(op, S4(c, pc + 1));
  }

  /** The instruction with pool index `u` behind opcode `op`. */
  function OfPool(op: Byte, u: nat, b: Byte, e: Byte): (r: Raw) {
    if op == LDC_W then LoadConstWide(u)
    else if op == LDC2_W then LoadConst2(u)
    else if op == INVOKEINTERFACE then CallInterface(u, b, e)
    else if op == MULTIANEWARRAY then NewMulti(u, b)
    else OnEntry(op, u)
  }

  lemma OfPoolLegal(s: Source, op: Byte, u: nat, b: Byte, e: Byte)
    requires UsesPool(op) && op != LDC && u < 0x1_0000 && PoolOk(s, op, u)
    ensures Legal(OfPool(op, u, b, e), s.maxLocals, s.pool) && IndexBytes(OfPool(op, u, b, e)) == [op] + Two(u)
    ensures TailBytes(OfPool(op, u, b, e)) == PoolTail(op, b, e)
  {
  }

  function PoolTail(op: Byte, b: Byte, e: Byte): seq<Byte> {
    if op == INVOKEINTERFACE then [b, e] else if op == MULTIANEWARRAY then [b] else []
  }

  lemma PoolAccepted(s: Source, pc: nat)
    requires pc < |s.code| && DecodeAt(s, pc).Some? && UsesPool(s.code[pc]) && s.code[pc] != LDC
    ensures var c, op := s.code, s.code[pc];
            PoolOk(s, op, U2(c, pc + 1)) && pc + 3 <= |c| && Has(c, pc + 3, PoolTail(op, U1(c, pc + 3), U1(c, pc + 4)))
  {
    Decodes(s, pc);
    DecodesPool(s, pc);
    hide DecodeAt, PoolAt, PoolOk, U2, UsesPool;
    FewBytes(s.code, pc + 3, PoolTail(s.code[pc], U1(s.code, pc + 3), U1(s.code, pc + 4)));
  }

  lemma FewBytes(c: Code, p: nat, b: seq<Byte>)
    requires p + |b| <= |c| && |b| <= 2 && forall i :: 0 <= i < |b| ==> b[i] == c[p + i]
    ensures Has(c, p, b)
  {
    assert c[p..p + |b|] == b;
  }

  lemma BackPool(s: Source, pc: nat) returns (r: Raw)
    requires pc < |s.code| && DecodeAt(s, pc).Some? && UsesPool(s.code[pc]) && s.code[pc] != LDC
    ensures Legal(r, s.maxLocals, s.pool) && Has(s.code, pc, Encode(r, pc))
  {
    hide DecodeAt, PoolAt, PoolOk, U1, U2, UsesPool, Legal, Encode, Has, IndexBytes, Two;
    var c, op, u := s.code, s.code[pc], U2(s.code, pc + 1);
    PoolAccepted(s, pc);
    r := OfPool(op, u, U1(c, pc + 3), U1(c, pc + 4));
    OfPoolLegal(s, op, u, U1(c, pc + 3), U1(c, pc + 4));
    PoolBytes(r, pc);
    TwoBack(c, pc + 1);
    OneByte(c, pc);
    HasParts(c, pc, [op], Two(u));
    HasParts(c, pc, IndexBytes(r), TailBytes(r));
  }

  lemma OneByte(c: Code, p: nat)
    requires p < |c|
    ensures Has(c, p, [c[p]])
  {
    assert c[p..p + 1] == [c[p]];
  }

  lemma HasEnd(c: Code, p: nat, b: seq<Byte>)
    requires Has(c, p, b)
    ensures p + |b| <= |c|
  {
  }

  lemma BackWide(s: Source, pc: nat) returns (r: Raw)
    requires pc < |s.code| && DecodeAt(s, pc).Some? && s.code[pc] == WIDE
    ensures Legal(r, s.maxLocals, s.pool) && Has(s.code, pc, Encode(r, pc))
  {
    hide DecodeAt, Two;
    Decodes(s, pc);
    var c, op := s.code, U1(s.code, pc + 1);
    var u := U2(c, pc + 2);
    assert c[pc..pc + 2] == [0xc4, op];
    TwoBack(c, pc + 2);
    HasParts(c, pc, [0xc4, op], Two(u));
    if op == IINC {
      TwoBack(c, pc + 4);
      HasParts(c, pc, [0xc4, op] + Two(u), Two(S2(c, pc + 4)));
      return IncWide(u, S2(c, pc + 4));
    }
    return LocalWide(op, u);
  }

  lemma TableLegal(s: Source, lo: Word, hi: Word, d: Word, ds: seq<Word>)
    requires lo <= hi && |ds| == hi - lo + 1
    ensures Legal(SwitchTable(lo, hi, d, ds), s.maxLocals, s.pool)
  {
  }

  lemma BackTable(s: Source, pc: nat) returns (r: Raw)
    requires pc < |s.code| && DecodeAt(s, pc).Some? && s.code[pc] == TABLESWITCH
    ensures Legal(r, s.maxLocals, s.pool) && Has(s.code, pc, Encode(r, pc))
  {
    hide S4, Four, Fours, DecodeAt, ZeroPad, Aligned, Padding, Has, Encode, Legal;
    Decodes(s, pc);
    var c, a := s.code, Aligned(pc);
    var d, lo, hi := S4(c, a), S4(c, a + 4), S4(c, a + 8);
    var ds := seq(hi - lo + 1, i requires 0 <= i < hi - lo + 1 => S4(c, a + 12 + 4 * i));
    r := SwitchTable(lo, hi, d, ds);
    TableLegal(s, lo, hi, d, ds);
    TableBytes(r, pc);
    PaddingBack(c, pc);
    FourBack(c, a);
    FourBack(c, a + 4);
    FourBack(c, a + 8);
    FoursBack(c, a + 12, ds);
    HasParts(c, a + 8, Four(hi), Fours(ds));
    SwitchParts(c, pc, 0xaa, d, lo, Four(hi) + Fours(ds));
  }

  lemma {:induction false} AscendingAll(ps: seq<Pair>, i: nat, j: nat)
    requires Ascending(ps) && i < j < |ps|
    ensures ps[i].key < ps[j].key
    decreases j
  {
    if i < j - 1 { AscendingAll(ps, i, j - 1); }
  }

  lemma PairsIncrease(c: Code, pc: nat, ps: seq<Pair>)
    requires Ascending(PairsAt(c, pc, |ps|))
    requires forall i :: 0 <= i < |ps| ==> ps[i].key == S4(c, Aligned(pc) + 8 + 8 * i)
    ensures Increasing(ps)
  {
    hide S4, Ascending;
    forall i, j | 0 <= i < j < |ps|
      ensures ps[i].key < ps[j].key
    {
      AscendingAll(PairsAt(c, pc, |ps|), i, j);
    }
  }

  lemma BackLookup(s: Source, pc: nat) returns (r: Raw)
    requires pc < |s.code| && DecodeAt(s, pc).Some? && s.code[pc] == LOOKUPSWITCH
    ensures Legal(r, s.maxLocals, s.pool) && Has(s.code, pc, Encode(r, pc))
  {
    hide S4, Four, PairBytes, DecodeAt, Ascending, Increasing;
    Decodes(s, pc);
    var c, a := s.code, Aligned(pc);
    var d, n := S4(c, a), S4(c, a + 4);
    var ps := seq(n, i requires 0 <= i < n => Pair(S4(c, a + 8 + 8 * i), S4(c, a + 8 + 8 * i + 4)));
    r := SwitchLookup(d, ps);
    PairsIncrease(c, pc, ps);
    PaddingBack(c, pc);
    FourBack(c, a);
    FourBack(c, a + 4);
    PairsBack(c, a + 8, ps);
    SwitchParts(c, pc, 0xab, d, n, PairBytes(ps));
  }

  /** What the parser reads is the bytes of a legal instruction. */
  lemma EncodeDecoded(s: Source, pc: nat) returns (r: Raw)
    requires pc < |s.code| && DecodeAt(s, pc).Some?
    ensures Legal(r, s.maxLocals, s.pool) && Has(s.code, pc, Encode(r, pc)) && Reads(s, pc, r)
  {
    var op := s.code[pc];
    assert Known(op);
    hide DecodeAt, Legal, Has, Encode, Reads;
    if op == TABLESWITCH { r := BackTable(s, pc); }
    else if op == LOOKUPSWITCH { r := BackLookup(s, pc); }
    else if op == WIDE { r := BackWide(s, pc); }
    else if op in {0xc8, 0xc9} { r := BackFar(s, pc); }
    else if op == 0x11 || Jumps(op) { r := BackTwo(s, pc); }
    else if UsesPool(op) && op != LDC { r := BackPool(s, pc); }
    else if Bytes(op) { r := BackBytes(s, pc); }
    else { r := BackByte(s, pc); }
    DecodeEncoded(s, pc, r);
  }
}
