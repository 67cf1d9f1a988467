/**
 The parser accepts exactly the code that lays out legal instructions whose targets
 and exception ranges start on instructions, and gives those instructions back.
 */
module CodeParsing {
  import opened Options
  import opened JavaFrame
  import opened Bytecode
  import opened BytecodeRun
  import opened CodeLayout
  import opened CodeReading

  // ---------------------------------------------------------------------------
  // What is to be parsed, and into what

  ghost predicate IsStart(raws: seq<Raw>, off: int)
    requires AllWellFormed(raws)
  {
    exists k: nat :: k < |raws| && Start(raws, 0, k) == off
  }

  /** The targets of an instruction. */
  function TargetsOf(insn: Insn): seq<int> {
    match insn
    case Branch(_, t) => [t]
    case Table(_, _, d, ts) => [d] + ts
    case Lookup(d, pairs) => [d] + PairTargets(pairs)
    case _ => []
  }

  ghost predicate AllStarts(raws: seq<Raw>, ts: seq<int>)
    requires AllWellFormed(raws)
  {
    forall i :: 0 <= i < |ts| ==> IsStart(raws, ts[i])
  }

  /** Legal instructions, all of whose targets are instructions. */
  ghost predicate Sound(raws: seq<Raw>, maxLocals: nat, pool: seq<Const>) {
    && AllLegal(raws, maxLocals, pool)
    && forall k :: 0 <= k < |raws| ==> AllStarts(raws, TargetsOf(Means(raws[k], Start(raws, 0, k))))
  }

  /** A range of instructions that is not empty, and a handler. */
  ghost predicate TrapSound(raws: seq<Raw>, t: Trap)
    requires AllWellFormed(raws)
  {
    && IsStart(raws, t.start) && IsStart(raws, t.target) && t.start < t.end
    && (IsStart(raws, t.end) || t.end == Start(raws, 0, |raws|))
  }

  /** Instruction `j` is the one at `off`, or `j` is one past the last and `off` the end. */
  predicate LeadsTo(raws: seq<Raw>, off: int, j: int)
    requires AllWellFormed(raws)
  {
    0 <= j <= |raws| && Start(raws, 0, j) == off
  }

  predicate AllLead(raws: seq<Raw>, ts: seq<int>, js: seq<int>)
    requires AllWellFormed(raws)
  {
    |js| == |ts| && forall i :: 0 <= i < |ts| ==> LeadsTo(raws, ts[i], js[i])
  }

  /** The instruction with targets that are indices. */
  predicate Indexed(raws: seq<Raw>, a: Insn, b: Insn)
    requires AllWellFormed(raws)
  {
    AllLead(raws, TargetsOf(a), TargetsOf(b)) &&
    match a
    case Branch(op, _) => b.Branch? && b.op == op
    case Table(lo, hi, _, _) => b.Table? && b.low == lo && b.high == hi
    case Lookup(_, ps) => b.Lookup? && |b.pairs| == |ps| && forall i :: 0 <= i < |ps| ==> b.pairs[i].key == ps[i].key
    case _ => b == a
  }

  predicate TrapIndexed(raws: seq<Raw>, t: Trap, u: Trap)
    requires AllWellFormed(raws)
  {
    LeadsTo(raws, t.start, u.start) && LeadsTo(raws, t.end, u.end) && LeadsTo(raws, t.target, u.target) && u.kind == t.kind
  }

  ghost predicate ParsedFrom(raws: seq<Raw>, traps: seq<Trap>, p: Parsed)
    requires AllWellFormed(raws)
  {
    && |p.insns| == |raws| && |p.traps| == |traps|
    && (forall k :: 0 <= k < |raws| ==> Indexed(raws, Means(raws[k], Start(raws, 0, k)), p.insns[k]))
    && forall k :: 0 <= k < |traps| ==> TrapIndexed(raws, traps[k], p.traps[k])
  }

  // ---------------------------------------------------------------------------
  // The first pass

  /** The items that laid-out instructions decode to. */
  function ItemsOf(raws: seq<Raw>, pos: nat): (items: seq<Item>)
    requires AllWellFormed(raws)
    ensures |items| == |raws|
  {
    if raws == [] then []
    else
      var next := pos + |Encode(raws[0], pos)|;
      [Item(pos, Means(raws[0], pos), next)] + ItemsOf(raws[1..], next)
  }

  lemma {:induction false} ItemsAt(raws: seq<Raw>, pos: nat, k: nat)
    requires AllWellFormed(raws) && k < |raws|
    ensures var at := Start(raws, pos, k);
            ItemsOf(raws, pos)[k] == Item(at, Means(raws[k], at), Start(raws, pos, k + 1))
    decreases k
  {
    hide Encode, Means, WellFormed;
    var next := pos + |Encode(raws[0], pos)|;
    if k > 0 {
      ItemsAt(raws[1..], next, k - 1);
      assert raws[k] == raws[1..][k - 1];
    } else {
      assert Start(raws[1..], next, 0) == next;
    }
  }

  lemma {:induction false} AssembledLength(raws: seq<Raw>, pos: nat)
    requires AllWellFormed(raws)
    ensures Start(raws, pos, |raws|) == pos + |Assemble(raws, pos)|
    decreases |raws|
  {
    hide Encode, WellFormed;
    if raws != [] { AssembledLength(raws[1..], pos + |Encode(raws[0], pos)|); }
  }

  lemma {:induction false} SweepAssembled(s: Source, raws: seq<Raw>, pos: nat)
    requires AllLegal(raws, s.maxLocals, s.pool) && pos <= |s.code| && s.code[pos..] == Assemble(raws, pos)
    ensures Sweep(s, pos) == Some(ItemsOf(raws, pos))
    decreases |raws|
  {
    hide DecodeAt, Encode, Means, WellFormed;
    if raws != [] {
      var b := Encode(raws[0], pos);
      var rest := Assemble(raws[1..], pos + |b|);
      assert s.code[pos..pos + |b|] == (b + rest)[..|b|] == b;
      assert s.code[pos + |b|..] == s.code[pos..][|b|..] == rest;
      DecodeEncoded(s, pos, raws[0]);
      SweepAssembled(s, raws[1..], pos + |b|);
    }
  }

  lemma {:induction false} Disassembled(s: Source, pos: nat) returns (raws: seq<Raw>)
    requires pos <= |s.code| && Sweep(s, pos).Some?
    ensures AllLegal(raws, s.maxLocals, s.pool) && Assemble(raws, pos) == s.code[pos..]
    decreases |s.code| - pos
  {
    hide DecodeAt, Encode, Means, WellFormed;
    raws := [];
    if pos < |s.code| {
      var r := EncodeDecoded(s, pos);
      var next := pos + |Encode(r, pos)|;
      var rest := Disassembled(s, next);
      raws := [r] + rest;
      assert raws[1..] == rest;
      assert s.code[pos..] == s.code[pos..next] + s.code[next..];
    }
  }

  /** The items in the code of laid-out instructions. */
  ghost predicate Laid(s: Source, raws: seq<Raw>, items: seq<Item>) {
    && AllWellFormed(raws) && s.code == Assemble(raws, 0) && items == ItemsOf(raws, 0)
    && Chained(s, 0, items) && |s.code| == Start(raws, 0, |raws|)
  }

  lemma LaidOut(s: Source, raws: seq<Raw>)
    requires AllLegal(raws, s.maxLocals, s.pool) && s.code == Assemble(raws, 0)
    ensures Sweep(s, 0) == Some(ItemsOf(raws, 0)) && Laid(s, raws, ItemsOf(raws, 0))
  {
    hide DecodeAt, Encode, Means, WellFormed;
    assert s.code[0..] == s.code;
    SweepAssembled(s, raws, 0);
    SweepChained(s, 0, ItemsOf(raws, 0));
    AssembledLength(raws, 0);
  }

  // ---------------------------------------------------------------------------
  // The second pass

  /** `r` is an index exactly if an instruction starts at `off`, and then its index. */
  ghost predicate Found(raws: seq<Raw>, off: int, r: Option<int>)
    requires AllWellFormed(raws)
  {
    match r
    case None => !IsStart(raws, off)
    case Some(j) => IsStart(raws, off) && LeadsTo(raws, off, j)
  }

  lemma TargetFound(s: Source, raws: seq<Raw>, items: seq<Item>, off: int)
    requires Laid(s, raws, items) && items != []
    ensures Found(raws, off, MapTarget(items, off))
  {
    hide DecodeAt, Chained;
    TargetExact(s, items, off);
    if i: nat :| i < |items| && items[i].off == off {
      ItemsAt(raws, 0, i);
    }
    if k: nat :| k < |raws| && Start(raws, 0, k) == off {
      ItemsAt(raws, 0, k);
      assert items[k].off == off;
    }
    if MapTarget(items, off).Some? { ItemsAt(raws, 0, MapTarget(items, off).value); }
  }

  lemma {:induction false} TargetsFound(s: Source, raws: seq<Raw>, items: seq<Item>, ts: seq<int>)
    requires AllWellFormed(raws) && Laid(s, raws, items) && items != []
    ensures match MapTargets(items, ts)
            case None => !AllStarts(raws, ts)
            case Some(js) => AllStarts(raws, ts) && AllLead(raws, ts, js)
  {
    hide Laid, AllWellFormed, IsStart, LeadsTo, MapTarget;
    if ts != [] {
      var rest := ts[1..];
      TargetFound(s, raws, items, ts[0]);
      TargetsFound(s, raws, items, rest);
      assert forall i :: 0 <= i < |rest| ==> rest[i] == ts[i + 1];
      assert forall i :: 0 < i < |ts| ==> ts[i] == rest[i - 1];
    }
  }

  ghost predicate Mapped(raws: seq<Raw>, a: Insn, r: Option<Insn>)
    requires AllWellFormed(raws)
  {
    match r
    case None => !AllStarts(raws, TargetsOf(a))
    case Some(b) => AllStarts(raws, TargetsOf(a)) && Indexed(raws, a, b)
  }

  lemma {:induction false} OneMore(raws: seq<Raw>, d: int, ts: seq<int>, j: int, js: seq<int>)
    requires AllWellFormed(raws)
    ensures AllStarts(raws, [d] + ts) <==> IsStart(raws, d) && AllStarts(raws, ts)
    ensures AllLead(raws, [d] + ts, [j] + js) <==> LeadsTo(raws, d, j) && AllLead(raws, ts, js)
  {
    hide AllWellFormed, IsStart, LeadsTo;
    var all, alls := [d] + ts, [j] + js;
    assert all[0] == d && alls[0] == j;
    assert forall i :: 0 <= i < |ts| ==> ts[i] == all[i + 1];
    assert forall i :: 0 <= i < |js| ==> js[i] == alls[i + 1];
    assert forall i :: 0 < i < |all| ==> all[i] == ts[i - 1];
    assert forall i :: 0 < i < |alls| ==> alls[i] == js[i - 1];
  }

  lemma InsnMapped(s: Source, raws: seq<Raw>, items: seq<Item>, a: Insn)
    requires AllWellFormed(raws) && Laid(s, raws, items) && items != []
    ensures Mapped(raws, a, MapInsn(items, a))
  {
    hide Laid, AllWellFormed, IsStart, LeadsTo, MapTarget, MapTargets, AllStarts, AllLead;
    match a
    case Branch(_, t) =>
      TargetFound(s, raws, items, t);
      OneMore(raws, t, [], if MapTarget(items, t).Some? then MapTarget(items, t).value else 0, []);
      NoTargets(raws);
      assert [t] + [] == [t];
      if MapTarget(items, t).Some? { assert [MapTarget(items, t).value] + [] == [MapTarget(items, t).value]; }
    case Table(_, _, d, ts) => SwitchMapped(s, raws, items, d, ts);
    case Lookup(d, ps) =>
      SwitchMapped(s, raws, items, d, PairTargets(ps));
      if MapInsn(items, a).Some? {
        var js := MapTargets(items, PairTargets(ps)).value;
        assert PairTargets(Retarget(ps, js)) == js;
      }
    case _ => NoTargets(raws);
  }

  lemma NoTargets(raws: seq<Raw>)
    requires AllWellFormed(raws)
    ensures AllStarts(raws, []) && AllLead(raws, [], [])
  {
  }

  lemma SwitchMapped(s: Source, raws: seq<Raw>, items: seq<Item>, d: int, ts: seq<int>)
    requires AllWellFormed(raws) && Laid(s, raws, items) && items != []
    ensures match (MapTarget(items, d), MapTargets(items, ts))
            case (Some(j), Some(js)) => AllStarts(raws, [d] + ts) && AllLead(raws, [d] + ts, [j] + js) && |js| == |ts|
            case _ => !AllStarts(raws, [d] + ts)
  {
    hide Laid, AllWellFormed, IsStart, LeadsTo, MapTarget, MapTargets;
    TargetFound(s, raws, items, d);
    TargetsFound(s, raws, items, ts);
    var j := if MapTarget(items, d).Some? then MapTarget(items, d).value else 0;
    var js := if MapTargets(items, ts).Some? then MapTargets(items, ts).value else [];
    OneMore(raws, d, ts, j, js);
  }

  /** The instructions from number `k` on. */
  lemma {:induction false} InsnsMapped(s: Source, raws: seq<Raw>, items: seq<Item>, k: nat)
    requires AllWellFormed(raws) && Laid(s, raws, items) && k <= |items|
    ensures match MapFrom(items, k)
            case None => exists i :: k <= i < |items| && !AllStarts(raws, TargetsOf(items[i].insn))
            case Some(bs) =>
              && |bs| == |items| - k
              && forall i :: k <= i < |items| ==>
                   AllStarts(raws, TargetsOf(items[i].insn)) && Indexed(raws, items[i].insn, bs[i - k])
    decreases |items| - k
  {
    hide Laid, AllWellFormed, AllStarts, Indexed, MapInsn, TargetsOf;
    if k < |items| {
      InsnMapped(s, raws, items, items[k].insn);
      InsnsMapped(s, raws, items, k + 1);
    }
  }

  lemma TrapFound(s: Source, raws: seq<Raw>, items: seq<Item>, t: Trap)
    requires AllWellFormed(raws) && Laid(s, raws, items) && items != []
    ensures match MapTrap(items, |s.code|, t)
            case None => !TrapSound(raws, t)
            case Some(u) => TrapSound(raws, t) && TrapIndexed(raws, t, u)
  {
    TargetFound(s, raws, items, t.start);
    TargetFound(s, raws, items, t.end);
    TargetFound(s, raws, items, t.target);
    TargetExact(s, items, t.start);
    TargetExact(s, items, t.end);
    var a := MapTarget(items, t.start);
    var b := if t.end == |s.code| then Some(|items|) else MapTarget(items, t.end);
    if a.Some? && b.Some? { OrderAgrees(s, items, t.start, a.value, t.end, b.value); }
    if t.end == |s.code| { EndNoStart(s, raws, items); }
    hide MapTarget, Chained, IsStart, AllWellFormed, Start;
  }

  /** No instruction starts where the code ends. */
  lemma EndNoStart(s: Source, raws: seq<Raw>, items: seq<Item>)
    requires AllWellFormed(raws) && Laid(s, raws, items)
    ensures !IsStart(raws, |s.code|)
  {
    hide DecodeAt;
    forall k: nat | k < |raws|
      ensures Start(raws, 0, k) < |s.code|
    {
      ItemsAt(raws, 0, k);
      assert items[k].off < |s.code|;
    }
  }

  lemma {:induction false} TrapsFound(s: Source, raws: seq<Raw>, items: seq<Item>, traps: seq<Trap>)
    requires AllWellFormed(raws) && Laid(s, raws, items) && items != []
    ensures match MapTraps(items, |s.code|, traps)
            case None => exists i :: 0 <= i < |traps| && !TrapSound(raws, traps[i])
            case Some(us) =>
              && |us| == |traps|
              && forall i :: 0 <= i < |traps| ==> TrapSound(raws, traps[i]) && TrapIndexed(raws, traps[i], us[i])
  {
    hide Laid, AllWellFormed, TrapSound, TrapIndexed, MapTrap;
    if traps != [] {
      var rest := traps[1..];
      TrapFound(s, raws, items, traps[0]);
      TrapsFound(s, raws, items, rest);
      assert forall i :: 0 <= i < |rest| ==> rest[i] == traps[i + 1];
      assert forall i :: 0 < i < |traps| ==> traps[i] == rest[i - 1];
    }
  }

  // ---------------------------------------------------------------------------
  // The parser

  /** What is laid out soundly is accepted, and nothing else of what is laid out. */
  lemma ParseAssembled(s: Source, raws: seq<Raw>, traps: seq<Trap>)
    requires AllLegal(raws, s.maxLocals, s.pool) && s.code == Assemble(raws, 0)
    ensures match ParseCode(s, traps)
            case None => !(Sound(raws, s.maxLocals, s.pool) && forall t <- traps :: TrapSound(raws, t))
            case Some(p) =>
              && Sound(raws, s.maxLocals, s.pool) && (forall t <- traps :: TrapSound(raws, t))
              && ParsedFrom(raws, traps, p)
  {
    hide AllStarts, Indexed, TrapSound, TrapIndexed, TargetsOf, Means, Encode, WellFormed, MapTraps, MapFrom, Sweep, Start;
    var items := ItemsOf(raws, 0);
    LaidOut(s, raws);
    forall k | 0 <= k < |raws|
      ensures items[k].insn == Means(raws[k], Start(raws, 0, k))
    {
      ItemsAt(raws, 0, k);
    }
    InsnsMapped(s, raws, items, 0);
    if items == [] { NothingFound(s, raws, traps); } else { TrapsFound(s, raws, items, traps); }
    hide Laid;
  }

  /** No exception range fits code without instructions. */
  lemma {:induction false} NothingFound(s: Source, raws: seq<Raw>, traps: seq<Trap>)
    requires AllWellFormed(raws) && raws == [] && s.code == []
    ensures match MapTraps([], |s.code|, traps)
            case None => exists i :: 0 <= i < |traps| && !TrapSound(raws, traps[i])
            case Some(us) => us == [] && traps == []
  {
    if traps != [] {
      assert !TrapSound(raws, traps[0]);
      assert MapTrap([], |s.code|, traps[0]).None?;
    }
  }

  /** The parser accepts code exactly when it lays out legal instructions soundly. */
  lemma ParseExact(s: Source, traps: seq<Trap>)
    ensures ParseCode(s, traps).Some? <==>
            exists raws :: Sound(raws, s.maxLocals, s.pool) && Assemble(raws, 0) == s.code && forall t <- traps :: TrapSound(raws, t)
  {
    hide AllStarts, TrapSound, WellFormed, Sweep, Assemble;
    if ParseCode(s, traps).Some? {
      var raws := Disassembled(s, 0);
      assert s.code[0..] == s.code;
      ParseAssembled(s, raws, traps);
    }
    forall raws | Sound(raws, s.maxLocals, s.pool) && Assemble(raws, 0) == s.code && forall t <- traps :: TrapSound(raws, t)
      ensures ParseCode(s, traps).Some?
    {
      ParseAssembled(s, raws, traps);
    }
  }
}
