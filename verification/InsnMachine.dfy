/**
 The interpreter's own form: resolved instructions in an array, a program counter
 that is an index, and string constants that are interned when first executed.
 */
module InsnMachine {
  import opened Options
  import opened JavaFrame
  import opened Bytecode
  import opened ByteMachine

  /** A binary search of the sorted pairs between `lo` and `hi`. */
  function BSearch(pairs: seq<Pair>, key: int, lo: nat, hi: nat): Option<int>
    requires lo <= hi <= |pairs|
    decreases hi - lo
  {
    if lo == hi then None
    else
      var mid := (lo + hi) / 2;
      if pairs[mid].key == key then Some(pairs[mid].target)
      else if key < pairs[mid].key then BSearch(pairs, key, lo, mid)
      else BSearch(pairs, key, mid + 1, hi)
  }

  function Chosen(insn: Insn, key: int): int
    requires insn.Lookup? || insn.Table?
  {
    match insn
    case Table(lo, hi, d, ts) => if lo <= key <= hi && key - lo < |ts| then ts[key - lo] else d
    case Lookup(d, pairs) => match BSearch(pairs, key, 0, |pairs|) case None => d case Some(t) => t
  }

  function ExecPlain<W>(m: World<W>, insn: Insn, f: Frame, w: W): Outcome<W> {
    match insn
    case Plain(op) => if op > 0xc9 then Wrong else Basic(m, op, f, w)
    case Local(op, i) =>
      if 0x15 <= op <= 0x19 then Load(op - 0x15, i, f, w)
      else if 0x36 <= op <= 0x3a then Store(op - 0x36, i, f, w)
      else Wrong
    case Increment(i, v) => Bump(i, v, f, w)
    case Member(op, cp) => m.ext(op, cp, f, w)
    case MultiArray(cp, dims) => m.ext(MULTIANEWARRAY, cp * 0x100 + dims, f, w)
    case NewArray(kind) => m.ext(NEWARRAY, kind, f, w)
    case PushWord(v) => Push(f, [v], w)
    case PushWords(a, b) => Push(f, [a, b], w)
    case PushText(s) => Push(f, [m.intern(s)], w)
    case _ => Wrong
  }

  function Switched<W>(insn: Insn, f: Frame, w: W): Flow<W>
    requires insn.Lookup? || insn.Table?
  {
    var n := |f.stack|;
    if n < 1 then Ends(Wrong) else To(Chosen(insn, f.stack[n - 1]), f.(stack := f.stack[..n - 1]), w)
  }

  function Exec<W>(m: World<W>, insn: Insn, next: int, f: Frame, w: W): Flow<W> {
    match insn
    case Branch(op, t) => if Branches(op) then Branching(op, t, next, f, w) else Ends(Wrong)
    case Lookup(_, _) => Switched(insn, f, w)
    case Table(_, _, _, _) => Switched(insn, f, w)
    case _ => Then(ExecPlain(m, insn, f, w), next)
  }

  /** A text constant first rewrites itself into the push of its interned string. */
  function InsnStep<W>(m: World<W>, code: seq<Insn>, traps: seq<Trap>, s: State<W>): (seq<Insn>, State<W>) {
    if !s.Running? then (code, s)
    else if !(0 <= s.pc < |code|) then (code, Stuck)
    else if code[s.pc].PushText? then (code[s.pc := PushWord(m.intern(code[s.pc].s))], s)
    else (code, Settle(m, traps, s.pc, s.f, Exec(m, code[s.pc], s.pc + 1, s.f, s.w)))
  }

  function InsnRun<W>(m: World<W>, code: seq<Insn>, traps: seq<Trap>, s: State<W>, n: nat): (seq<Insn>, State<W>)
    decreases n
  {
    if n == 0 then (code, s)
    else
      var (code', s') := InsnStep(m, code, traps, s);
      InsnRun(m, code', traps, s', n - 1)
  }

  /** A run that has ended stays as it is. */
  lemma {:induction false} EndedRun<W>(m: World<W>, code: seq<Insn>, traps: seq<Trap>, d: State<W>, k: nat)
    requires !d.Running?
    ensures InsnRun(m, code, traps, d, k) == (code, d)
    decreases k
  {
    if k > 0 { EndedRun(m, code, traps, d, k - 1); }
  }
}
