/** Mapping byte offsets to instruction indices, and whole runs. */
module BytecodeRun {
  import opened Options
  import opened JavaFrame
  import opened Bytecode
  import opened ByteMachine
  import opened InsnMachine
  import opened BytecodeSim

  // ---------------------------------------------------------------------------
  // The instruction starts

  /** Items follow each other from `pc` to the end of the code. */
  ghost predicate Chained(s: Source, pc: nat, items: seq<Item>) {
    && (items == [] ==> pc == |s.code|)
    && (items != [] ==> items[0].off == pc && items[|items| - 1].next == |s.code|)
    && (forall i :: 0 <= i < |items| ==> items[i].off < |s.code| && DecodeAt(s, items[i].off) == Some(items[i]))
    && (forall i :: 0 < i < |items| ==> items[i - 1].next == items[i].off)
  }

  lemma {:induction false} SweepChained(s: Source, pc: nat, items: seq<Item>)
    requires pc <= |s.code| && Sweep(s, pc) == Some(items)
    ensures Chained(s, pc, items)
    decreases |s.code| - pc
  {
    hide DecodeAt;
    if pc < |s.code| {
      var it := DecodeAt(s, pc).value;
      SweepChained(s, it.next, items[1..]);
      assert items == [it] + items[1..];
      forall i | 0 < i < |items|
        ensures items[i - 1].next == items[i].off
      {
        assert items[i] == items[1..][i - 1];
        if i > 1 { assert items[i - 1] == items[1..][i - 2]; }
      }
    }
  }

  /** Offsets of instruction starts grow strictly with their indices. */
  lemma {:induction false} StartsIncrease(s: Source, pc: nat, items: seq<Item>, i: nat, j: nat)
    requires Chained(s, pc, items) && i < j < |items|
    ensures items[i].off < items[j].off
    decreases j - i
  {
    hide DecodeAt;
    assert items[j - 1].next == items[j].off;
    if i < j - 1 { StartsIncrease(s, pc, items, i, j - 1); }
  }

  /** `j` is the index of the instruction at `off`, or one past the last at the end. */
  ghost predicate At(items: seq<Item>, len: nat, off: int, j: int) {
    (0 <= j < |items| && items[j].off == off) || (j == |items| && off == len)
  }

  lemma NextAt(s: Source, items: seq<Item>, i: nat)
    requires Chained(s, 0, items) && i < |items|
    ensures At(items, |s.code|, items[i].next, i + 1)
  {
  }

  lemma {:induction false} IndexOfAt(items: seq<Item>, off: int)
    ensures match IndexOf(items, off)
            case None => forall i :: 0 <= i < |items| ==> items[i].off != off
            case Some(i) => i < |items| && items[i].off == off
  {
    if items != [] && items[0].off != off {
      IndexOfAt(items[1..], off);
      forall i | 0 < i < |items|
        ensures items[i] == items[1..][i - 1]
      {
      }
    }
  }

  /** A target is accepted exactly when it is an instruction start (or 0), and becomes its index. */
  lemma TargetExact(s: Source, items: seq<Item>, off: int)
    requires Chained(s, 0, items) && items != []
    ensures MapTarget(items, off).Some? <==> exists i :: 0 <= i < |items| && items[i].off == off
    ensures MapTarget(items, off).Some? ==>
              var i := MapTarget(items, off).value; 0 <= i < |items| && items[i].off == off && At(items, |s.code|, off, i)
  {
    hide DecodeAt;
    IndexOfAt(items, off);
    assert items[0].off == 0;
  }

  /** Along the starts, order of offsets and order of indices agree. */
  lemma OrderAgrees(s: Source, items: seq<Item>, a: int, i: int, b: int, j: int)
    requires Chained(s, 0, items) && At(items, |s.code|, a, i) && At(items, |s.code|, b, j)
    ensures a < b <==> i < j
    ensures a == b <==> i == j
  {
    hide DecodeAt;
    if 0 <= i < j < |items| { StartsIncrease(s, 0, items, i, j); }
    if 0 <= j < i < |items| { StartsIncrease(s, 0, items, j, i); }
  }

  // ---------------------------------------------------------------------------
  // One instruction after mapping its targets

  ghost predicate FlowsTo<W>(items: seq<Item>, len: nat, x: Flow<W>, y: Flow<W>) {
    match x
    case To(a, f, w) => y.To? && y.f == f && y.w == w && At(items, len, a, y.pc)
    case Ends(o) => y == x
  }

  lemma {:induction false} MapTargetsAt(s: Source, items: seq<Item>, ts: seq<int>)
    requires Chained(s, 0, items) && items != [] && MapTargets(items, ts).Some?
    ensures var us := MapTargets(items, ts).value;
            |us| == |ts| && forall i :: 0 <= i < |ts| ==> At(items, |s.code|, ts[i], us[i])
  {
    hide Chained;
    if ts != [] {
      TargetExact(s, items, ts[0]);
      MapTargetsAt(s, items, ts[1..]);
      var us := MapTargets(items, ts).value;
      forall i | 0 < i < |ts|
        ensures At(items, |s.code|, ts[i], us[i])
      {
        assert ts[i] == ts[1..][i - 1];
      }
    }
  }

  lemma {:induction false} BSearchMapped(items: seq<Item>, len: nat, p: seq<Pair>, q: seq<Pair>, key: int, lo: nat, hi: nat)
    requires |p| == |q| && lo <= hi <= |p|
    requires forall i :: 0 <= i < |p| ==> p[i].key == q[i].key && At(items, len, p[i].target, q[i].target)
    ensures match BSearch(p, key, lo, hi)
            case None => BSearch(q, key, lo, hi).None?
            case Some(t) => BSearch(q, key, lo, hi).Some? && At(items, len, t, BSearch(q, key, lo, hi).value)
    decreases hi - lo
  {
    hide At;
    if lo < hi {
      var mid := (lo + hi) / 2;
      assert p[mid].key == q[mid].key;
      if p[mid].key == key {
      } else if key < p[mid].key {
        BSearchMapped(items, len, p, q, key, lo, mid);
      } else {
        BSearchMapped(items, len, p, q, key, mid + 1, hi);
      }
    }
  }

  lemma LookupMapped(s: Source, items: seq<Item>, insn: Insn, key: int)
    requires Chained(s, 0, items) && items != [] && insn.Lookup? && MapInsn(items, insn).Some?
    ensures MapInsn(items, insn).value.Lookup? && At(items, |s.code|, Chosen(insn, key), Chosen(MapInsn(items, insn).value, key))
  {
    hide Chained, At;
    var p := insn.pairs;
    var ts := MapTargets(items, PairTargets(p)).value;
    MapTargetsAt(s, items, PairTargets(p));
    TargetExact(s, items, insn.default_);
    BSearchMapped(items, |s.code|, p, Retarget(p, ts), key, 0, |p|);
  }

  lemma TableMapped(s: Source, items: seq<Item>, insn: Insn, key: int)
    requires Chained(s, 0, items) && items != [] && insn.Table? && MapInsn(items, insn).Some?
    ensures MapInsn(items, insn).value.Table? && At(items, |s.code|, Chosen(insn, key), Chosen(MapInsn(items, insn).value, key))
  {
    hide Chained;
    MapTargetsAt(s, items, insn.targets);
    TargetExact(s, items, insn.default_);
  }

  lemma BranchMapped<W>(m: World<W>, s: Source, items: seq<Item>, insn: Insn, i: nat, next: int, f: Frame, w: W)
    requires Chained(s, 0, items) && i < |items| && insn.Branch? && MapInsn(items, insn).Some?
    requires At(items, |s.code|, next, i + 1)
    ensures FlowsTo(items, |s.code|, Exec(m, insn, next, f, w), Exec(m, MapInsn(items, insn).value, i + 1, f, w))
  {
    hide Chained, Test;
    TargetExact(s, items, insn.target);
  }

  lemma ExecMapped<W>(m: World<W>, s: Source, items: seq<Item>, insn: Insn, i: nat, next: int, f: Frame, w: W)
    requires Chained(s, 0, items) && i < |items| && MapInsn(items, insn).Some?
    requires At(items, |s.code|, next, i + 1)
    ensures FlowsTo(items, |s.code|, Exec(m, Resolve(m.mirror, s.pool, insn), next, f, w),
                    Exec(m, Resolve(m.mirror, s.pool, MapInsn(items, insn).value), i + 1, f, w))
  {
    hide Chained, At;
    match insn
    case Branch(_, _) => BranchMapped(m, s, items, insn, i, next, f, w);
    case Lookup(_, _) => if |f.stack| > 0 { LookupMapped(s, items, insn, f.stack[|f.stack| - 1]); }
    case Table(_, _, _, _) => if |f.stack| > 0 { TableMapped(s, items, insn, f.stack[|f.stack| - 1]); }
    case _ => FallsThrough(m, items, |s.code|, Resolve(m.mirror, s.pool, insn), i, next, f, w);
  }

  lemma FallsThrough<W>(m: World<W>, items: seq<Item>, len: nat, insn: Insn, i: nat, next: int, f: Frame, w: W)
    requires At(items, len, next, i + 1) && !insn.Branch? && !insn.Lookup? && !insn.Table?
    ensures FlowsTo(items, len, Exec(m, insn, next, f, w), Exec(m, insn, i + 1, f, w))
  {
  }

  // ---------------------------------------------------------------------------
  // Exception handlers

  /** An entry covers an index exactly when it covers the offset. */
  lemma TrapMapped<W>(m: World<W>, s: Source, items: seq<Item>, t: Trap, i: nat, e: Word)
    requires Chained(s, 0, items) && i < |items| && MapTrap(items, |s.code|, t).Some?
    ensures var u := MapTrap(items, |s.code|, t).value;
            Covers(m, t, items[i].off, e) == Covers(m, u, i, e) && At(items, |s.code|, t.target, u.target)
  {
    hide Chained;
    var u := MapTrap(items, |s.code|, t).value;
    TargetExact(s, items, t.start);
    TargetExact(s, items, t.end);
    TargetExact(s, items, t.target);
    assert At(items, |s.code|, t.end, u.end);
    assert At(items, |s.code|, items[i].off, i);
    OrderAgrees(s, items, t.start, u.start, items[i].off, i);
    OrderAgrees(s, items, items[i].off, i, t.end, u.end);
  }

  lemma {:induction false} HandlerMapped<W>(m: World<W>, s: Source, items: seq<Item>, traps: seq<Trap>, i: nat, e: Word)
    requires Chained(s, 0, items) && i < |items| && MapTraps(items, |s.code|, traps).Some?
    ensures var us := MapTraps(items, |s.code|, traps).value;
            match Handler(m, traps, items[i].off, e)
            case None => Handler(m, us, i, e).None?
            case Some(h) => Handler(m, us, i, e).Some? && At(items, |s.code|, h, Handler(m, us, i, e).value)
  {
    hide Chained, At, Covers, MapTrap;
    if traps != [] {
      TrapMapped(m, s, items, traps[0], i, e);
      HandlerMapped(m, s, items, traps[1..], i, e);
      var us := MapTraps(items, |s.code|, traps).value;
      assert us[1..] == MapTraps(items, |s.code|, traps[1..]).value;
    }
  }

  // ---------------------------------------------------------------------------
  // Steps and runs

  ghost predicate Related<W>(items: seq<Item>, len: nat, b: State<W>, d: State<W>) {
    if b.Running? then d.Running? && d.f == b.f && d.w == b.w && At(items, len, b.pc, d.pc) else d == b
  }

  lemma SettleMapped<W>(m: World<W>, s: Source, items: seq<Item>, traps: seq<Trap>, i: nat, f: Frame, x: Flow<W>, y: Flow<W>)
    requires Chained(s, 0, items) && i < |items| && MapTraps(items, |s.code|, traps).Some?
    requires FlowsTo(items, |s.code|, x, y)
    ensures Related(items, |s.code|, Settle(m, traps, items[i].off, f, x),
                    Settle(m, MapTraps(items, |s.code|, traps).value, i, f, y))
  {
    hide Chained, At, Handler;
    match x
    case Ends(Throw(e, _)) => HandlerMapped(m, s, items, traps, i, e);
    case _ =>
  }

  /** The running code is the resolved code, with some string constants already interned. */
  ghost predicate Quickened<W>(m: World<W>, resolved: seq<Insn>, code: seq<Insn>) {
    |code| == |resolved| && forall i :: 0 <= i < |code| ==>
      code[i] == resolved[i] || (resolved[i].PushText? && code[i] == PushWord(m.intern(resolved[i].s)))
  }

  ghost predicate Parses(s: Source, traps: seq<Trap>, items: seq<Item>, parsed: Parsed) {
    && Chained(s, 0, items) && |parsed.insns| == |items|
    && (forall i :: 0 <= i < |items| ==> MapInsn(items, items[i].insn) == Some(parsed.insns[i]))
    && MapTraps(items, |s.code|, traps) == Some(parsed.traps)
  }

  lemma {:induction false} MapFromAll(items: seq<Item>, k: nat)
    requires k <= |items| && MapFrom(items, k).Some?
    ensures var insns := MapFrom(items, k).value;
            |insns| == |items| - k && forall i :: k <= i < |items| ==> MapInsn(items, items[i].insn) == Some(insns[i - k])
    decreases |items| - k
  {
    hide MapInsn;
    if k < |items| { MapFromAll(items, k + 1); }
  }

  lemma ParseKnows(s: Source, traps: seq<Trap>, parsed: Parsed) returns (items: seq<Item>)
    requires ParseCode(s, traps) == Some(parsed)
    ensures Sweep(s, 0) == Some(items) && Parses(s, traps, items, parsed)
  {
    hide MapInsn, Chained;
    items := Sweep(s, 0).value;
    SweepChained(s, 0, items);
    MapFromAll(items, 0);
  }

  lemma FlowMapped<W(!new)>(m: World<W>, s: Source, traps: seq<Trap>, items: seq<Item>, parsed: Parsed, i: nat, f: Frame, w: W)
    requires Parses(s, traps, items, parsed) && i < |items|
    ensures FlowsTo(items, |s.code|, ByteFlow(m, s.pool, s.code, items[i].off, f, w),
                    Exec(m, Resolve(m.mirror, s.pool, parsed.insns[i]), i + 1, f, w))
  {
    hide ByteFlow, Exec, DecodeAt;
    var it := items[i];
    assert DecodeAt(s, it.off) == Some(it);
    DecodeSame(m, s, it.off, it);
    NextAt(s, items, i);
    ExecMapped(m, s, items, it.insn, i, it.next, f, w);
  }

  lemma StepMapped<W(!new)>(m: World<W>, s: Source, traps: seq<Trap>, items: seq<Item>, parsed: Parsed, code: seq<Insn>, b: State<W>, d: State<W>)
    requires Parses(s, traps, items, parsed) && Related(items, |s.code|, b, d)
    requires |code| == |items| && (d.Running? && 0 <= d.pc < |code| ==> !code[d.pc].PushText?)
    requires d.Running? && 0 <= d.pc < |items| ==>
               Exec(m, code[d.pc], d.pc + 1, d.f, d.w) == Exec(m, Resolve(m.mirror, s.pool, parsed.insns[d.pc]), d.pc + 1, d.f, d.w)
    ensures InsnStep(m, code, parsed.traps, d).0 == code
    ensures Related(items, |s.code|, ByteStep(m, s.pool, s.code, traps, b), InsnStep(m, code, parsed.traps, d).1)
  {
    hide ByteFlow, Exec, Settle, FlowsTo, Chained, MapInsn;
    if b.Running? {
      if 0 <= d.pc < |items| {
        FlowMapped(m, s, traps, items, parsed, d.pc, d.f, d.w);
        SettleMapped(m, s, items, traps, d.pc, d.f, ByteFlow(m, s.pool, s.code, b.pc, b.f, b.w), Exec(m, code[d.pc], d.pc + 1, d.f, d.w));
      } else {
        OffTheEnd(m, s.pool, s.code, traps, b);
      }
    }
  }

  lemma OffTheEnd<W>(m: World<W>, pool: seq<Const>, c: Code, traps: seq<Trap>, b: State<W>)
    requires b.Running? && b.pc == |c|
    ensures ByteStep(m, pool, c, traps, b) == Stuck
  {
  }

  /** One step over the bytes is one or two steps of the interpreter: two when a string
      constant is executed for the first time. */
  lemma StepSimulates<W(!new)>(m: World<W>, s: Source, traps: seq<Trap>, items: seq<Item>, parsed: Parsed, code: seq<Insn>, b: State<W>, d: State<W>)
      returns (k: nat)
    requires Parses(s, traps, items, parsed) && Related(items, |s.code|, b, d)
    requires Quickened(m, ResolveAll(m.mirror, s.pool, parsed.insns), code)
    ensures 1 <= k <= 2
    ensures Quickened(m, ResolveAll(m.mirror, s.pool, parsed.insns), InsnRun(m, code, parsed.traps, d, k).0)
    ensures Related(items, |s.code|, ByteStep(m, s.pool, s.code, traps, b), InsnRun(m, code, parsed.traps, d, k).1)
  {
    hide ByteStep, Settle, MapInsn, Chained;
    if d.Running? && 0 <= d.pc < |code| && code[d.pc].PushText? {
      var text := code[d.pc].s;
      var (code', d') := InsnStep(m, code, parsed.traps, d);
      assert code' == code[d.pc := PushWord(m.intern(text))] && d' == d;
      StepMapped(m, s, traps, items, parsed, code', b, d');
      k := 2;
      assert InsnRun(m, code, parsed.traps, d, 2) == InsnRun(m, code', parsed.traps, d', 1);
      assert InsnRun(m, code', parsed.traps, d', 1) == InsnStep(m, code', parsed.traps, d');
    } else {
      StepMapped(m, s, traps, items, parsed, code, b, d);
      k := 1;
      assert InsnRun(m, code, parsed.traps, d, 1) == InsnStep(m, code, parsed.traps, d);
    }
  }

  lemma {:induction false} RunsCompose<W>(m: World<W>, code: seq<Insn>, traps: seq<Trap>, d: State<W>, j: nat, k: nat)
    ensures var (code', d') := InsnRun(m, code, traps, d, j);
            InsnRun(m, code, traps, d, j + k) == InsnRun(m, code', traps, d', k)
    decreases j
  {
    hide InsnStep;
    if j > 0 {
      var (code', d') := InsnStep(m, code, traps, d);
      RunsCompose(m, code', traps, d', j - 1, k);
    }
  }

  lemma {:induction false} RunFrom<W(!new)>(m: World<W>, s: Source, traps: seq<Trap>, items: seq<Item>, parsed: Parsed, code: seq<Insn>, b: State<W>, d: State<W>, n: nat)
      returns (k: nat)
    requires Parses(s, traps, items, parsed) && Related(items, |s.code|, b, d)
    requires Quickened(m, ResolveAll(m.mirror, s.pool, parsed.insns), code)
    ensures n <= k <= 2 * n
    ensures Related(items, |s.code|, ByteRun(m, s.pool, s.code, traps, b, n), InsnRun(m, code, parsed.traps, d, k).1)
    decreases n
  {
    hide Parses, Related, Quickened, ByteStep, InsnStep;
    k := 0;
    if n > 0 {
      var j := StepSimulates(m, s, traps, items, parsed, code, b, d);
      var (code', d') := InsnRun(m, code, parsed.traps, d, j);
      var l := RunFrom(m, s, traps, items, parsed, code', ByteStep(m, s.pool, s.code, traps, b), d', n - 1);
      RunsCompose(m, code, parsed.traps, d, j, l);
      k := j + l;
    }
  }

  /** For every accepted method, every run over the bytes is matched by a run of the
      decoded, resolved and self-rewriting form: same frame and outcome at the same instruction. */
  lemma RunSimulates<W(!new)>(m: World<W>, s: Source, traps: seq<Trap>, parsed: Parsed, f: Frame, w: W, n: nat)
      returns (items: seq<Item>, k: nat)
    requires ParseCode(s, traps) == Some(parsed)
    ensures Sweep(s, 0) == Some(items) && n <= k <= 2 * n
    ensures Related(items, |s.code|, ByteRun(m, s.pool, s.code, traps, Running(0, f, w), n),
                    InsnRun(m, ResolveAll(m.mirror, s.pool, parsed.insns), parsed.traps, Running(0, f, w), k).1)
  {
    hide ByteRun, InsnRun, ParseCode;
    items := ParseKnows(s, traps, parsed);
    k := RunFrom(m, s, traps, items, parsed, ResolveAll(m.mirror, s.pool, parsed.insns), Running(0, f, w), Running(0, f, w), n);
  }

  /** The method ends, and how, exactly as its bytes do. */
  lemma ResultExact<W(!new)>(m: World<W>, s: Source, traps: seq<Trap>, parsed: Parsed, f: Frame, w: W, r: State<W>)
    requires ParseCode(s, traps) == Some(parsed) && !r.Running?
    ensures (exists n: nat :: ByteRun(m, s.pool, s.code, traps, Running(0, f, w), n) == r) <==>
            (exists k: nat :: InsnRun(m, ResolveAll(m.mirror, s.pool, parsed.insns), parsed.traps, Running(0, f, w), k).1 == r)
  {
    hide ByteRun, InsnRun, ParseCode, ResolveAll;
    var code := ResolveAll(m.mirror, s.pool, parsed.insns);
    var start := Running(0, f, w);
    if n: nat :| ByteRun(m, s.pool, s.code, traps, start, n) == r {
      var _, k := RunSimulates(m, s, traps, parsed, f, w, n);
      assert InsnRun(m, code, parsed.traps, start, k).1 == r;
    }
    if k: nat :| InsnRun(m, code, parsed.traps, start, k).1 == r {
      var _, k' := RunSimulates(m, s, traps, parsed, f, w, k);
      RunsCompose(m, code, parsed.traps, start, k, k' - k);
      EndedRun(m, InsnRun(m, code, parsed.traps, start, k).0, parsed.traps, r, k' - k);
      assert ByteRun(m, s.pool, s.code, traps, start, k) == r;
    }
  }
}
