/** Class-file bytecode, and what parsing and resolving it produces. */
module Bytecode {
  import opened Options
  import opened JavaFrame

  type Code = seq<Byte>

  /** Constant pool entries, as far as bytecode uses them. Long and double constants
      are the two stack words they occupy. */
  datatype Const =
    | Int(value: Word) | Float(bits: Word) | Text(s: string) | Class(id: nat)
    | Long(first: Word, second: Word) | Double(first: Word, second: Word)
    | Field | Method | InterfaceMethod | OtherConst

  datatype Pair = Pair(key: Word, target: int)

  /** A parsed instruction; targets are byte offsets until mapped to indices.
      The last three forms appear only after resolution. */
  datatype Insn =
    | Plain(op: Byte)
    | Local(op: Byte, index: nat)
    | Immediate(op: Byte, value: Word)
    | Increment(index: nat, delta: Word)
    | Branch(op: Byte, target: int)
    | Lookup(default_: int, pairs: seq<Pair>)
    | Table(low: Word, high: Word, default_: int, targets: seq<int>)
    | Constant(op: Byte, cp: nat)
    | Member(op: Byte, cp: nat)
    | MultiArray(cp: nat, dims: Byte)
    | NewArray(kind: Byte)
    | PushWord(value: Word)
    | PushWords(first: Word, second: Word)
    | PushText(s: string)

  /** What the parser looks at: the code, the number of locals, and the constant pool. */
  datatype Source = Source(code: Code, maxLocals: nat, pool: seq<Const>)

  datatype Item = Item(off: nat, insn: Insn, next: nat)

  // ---------------------------------------------------------------------------
  // Big-endian operands

  function U1(c: Code, p: int): Byte {
    if 0 <= p < |c| then c[p] else 0
  }

  function U2(c: Code, p: int): (r: nat)
    ensures r < 0x1_0000
  {
    U1(c, p) * 0x100 + U1(c, p + 1)
  }

  function Sign8(b: int): Word
    requires 0 <= b < 0x100
  {
    if b < 0x80 then b else b - 0x100
  }

  function Sign16(h: int): Word
    requires 0 <= h < 0x1_0000
  {
    if h < 0x8000 then h else h - 0x1_0000
  }

  function S1(c: Code, p: int): Word {
    Sign8(U1(c, p))
  }

  function S2(c: Code, p: int): Word {
    Sign16(U2(c, p))
  }

  function S4(c: Code, p: int): Word {
    Wrap(U2(c, p) * 0x1_0000 + U2(c, p + 2))
  }

  function Aligned(pc: nat): nat {
    pc + 4 - pc % 4
  }

  // ---------------------------------------------------------------------------
  // Parsing one instruction; None is a ClassFormatError

  const JSR := 0xa8
  const RET := 0xa9
  const IINC := 0x84
  const WIDE := 0xc4
  const TABLESWITCH := 0xaa
  const LOOKUPSWITCH := 0xab
  const LDC := 0x12
  const LDC_W := 0x13
  const LDC2_W := 0x14
  const INVOKEINTERFACE := 0xb9
  const NEWARRAY := 0xbc
  const MULTIANEWARRAY := 0xc5
  const LDC_STRING := 0xe0

  predicate Known(op: Byte) {
    (op <= 0xc9 && op != 0xba) || op == LDC_STRING
  }

  predicate UsesLocal(op: Byte) {
    0x15 <= op <= 0x19 || 0x36 <= op <= 0x3a || op == RET
  }

  predicate ShortLocal(op: Byte) {
    0x1a <= op <= 0x2d || 0x3b <= op <= 0x4e
  }

  predicate Jumps(op: Byte) {
    0x99 <= op <= 0xa8 || op == 0xc6 || op == 0xc7
  }

  predicate UsesClass(op: Byte) {
    op == 0xbb || op == 0xbd || op == 0xc0 || op == 0xc1
  }

  predicate UsesMember(op: Byte) {
    0xb2 <= op <= 0xb9 || UsesClass(op)
  }

  /** The pool entry an instruction must name. */
  predicate Fits(op: Byte, c: Const) {
    if op == LDC || op == LDC_W then c.Int? || c.Float? || c.Text? || c.Class?
    else if op == LDC2_W then c.Long? || c.Double?
    else if 0xb2 <= op <= 0xb5 then c.Field?
    else if 0xb6 <= op <= 0xb8 then c.Method?
    else if op == INVOKEINTERFACE then c.InterfaceMethod?
    else c.Class?
  }

  predicate PoolOk(s: Source, op: Byte, cp: nat) {
    1 <= cp <= |s.pool| && Fits(op, s.pool[cp - 1])
  }

  function ShortInsn(op: Byte): Insn
    requires ShortLocal(op)
  {
    if op <= 0x2d then Local(0x15 + (op - 0x1a) / 4, (op - 0x1a) % 4)
    else Local(0x36 + (op - 0x3b) / 4, (op - 0x3b) % 4)
  }

  function When(b: bool, pc: nat, insn: Insn, next: nat): Option<Item> {
    if b then Some(Item(pc, insn, next)) else None
  }

  predicate ZeroPad(c: Code, pc: nat) {
    forall p :: pc < p < Aligned(pc) ==> U1(c, p) == 0
  }

  function PairsAt(c: Code, pc: nat, n: nat): seq<Pair> {
    var a := Aligned(pc);
    seq(n, i requires 0 <= i < n => Pair(S4(c, a + 8 + 8 * i), pc + S4(c, a + 12 + 8 * i)))
  }

  function TargetsAt(c: Code, pc: nat, n: nat): seq<int> {
    var a := Aligned(pc);
    seq(n, i requires 0 <= i < n => pc + S4(c, a + 12 + 4 * i))
  }

  predicate Ascending(pairs: seq<Pair>) {
    forall i :: 0 < i < |pairs| ==> pairs[i - 1].key < pairs[i].key
  }

  function LookupAt(c: Code, pc: nat): Option<Item> {
    var a := Aligned(pc);
    if a + 8 > |c| || !ZeroPad(c, pc) || S4(c, a + 4) < 0 || a + 8 + 8 * S4(c, a + 4) > |c| then None
    else
      var pairs := PairsAt(c, pc, S4(c, a + 4));
      When(Ascending(pairs), pc, Lookup(pc + S4(c, a), pairs), a + 8 + 8 * S4(c, a + 4))
  }

  function TableAt(c: Code, pc: nat): Option<Item> {
    var a := Aligned(pc);
    if a + 12 > |c| || !ZeroPad(c, pc) || S4(c, a + 8) < S4(c, a + 4) then None
    else
      var n := S4(c, a + 8) - S4(c, a + 4) + 1;
      When(a + 12 + 4 * n <= |c|, pc, Table(S4(c, a + 4), S4(c, a + 8), pc + S4(c, a), TargetsAt(c, pc, n)), a + 12 + 4 * n)
  }

  function WideAt(s: Source, pc: nat): Option<Item> {
    var c, op := s.code, U1(s.code, pc + 1);
    if UsesLocal(op) then When(pc + 4 <= |c| && U2(c, pc + 2) < s.maxLocals, pc, Local(op, U2(c, pc + 2)), pc + 4)
    else if op == IINC then
      When(pc + 6 <= |c| && U2(c, pc + 2) < s.maxLocals, pc, Increment(U2(c, pc + 2), S2(c, pc + 4)), pc + 6)
    else None
  }

  function PoolAt(s: Source, pc: nat): Option<Item>
    requires pc < |s.code|
  {
    var c, op := s.code, s.code[pc];
    if op == LDC then When(pc + 2 <= |c| && PoolOk(s, op, U1(c, pc + 1)), pc, Constant(op, U1(c, pc + 1)), pc + 2)
    else if op == LDC_W || op == LDC2_W then
      When(pc + 3 <= |c| && PoolOk(s, op, U2(c, pc + 1)), pc, Constant(if op == LDC_W then LDC else op, U2(c, pc + 1)), pc + 3)
    else if op == INVOKEINTERFACE then When(pc + 5 <= |c| && PoolOk(s, op, U2(c, pc + 1)), pc, Member(op, U2(c, pc + 1)), pc + 5)
    else if op == MULTIANEWARRAY then
      When(pc + 4 <= |c| && PoolOk(s, op, U2(c, pc + 1)), pc, MultiArray(U2(c, pc + 1), U1(c, pc + 3)), pc + 4)
    else When(pc + 3 <= |c| && PoolOk(s, op, U2(c, pc + 1)), pc, Member(op, U2(c, pc + 1)), pc + 3)
  }

  predicate UsesPool(op: Byte) {
    LDC <= op <= LDC2_W || UsesMember(op) || op == MULTIANEWARRAY
  }

  function DecodeAt(s: Source, pc: nat): (r: Option<Item>)
    requires pc < |s.code|
    ensures r.Some? ==> r.value.off == pc < r.value.next <= |s.code|
  {
    var c, op := s.code, s.code[pc];
    if !Known(op) then None
    else if UsesLocal(op) then When(pc + 2 <= |c| && U1(c, pc + 1) < s.maxLocals, pc, Local(op, U1(c, pc + 1)), pc + 2)
    else if ShortLocal(op) then Some(Item(pc, ShortInsn(op), pc + 1))
    else if op == 0x10 then When(pc + 2 <= |c|, pc, Immediate(op, S1(c, pc + 1)), pc + 2)
    else if op == 0x11 then When(pc + 3 <= |c|, pc, Immediate(op, S2(c, pc + 1)), pc + 3)
    else if Jumps(op) then When(pc + 3 <= |c|, pc, Branch(op, pc + S2(c, pc + 1)), pc + 3)
    else if op == 0xc8 || op == 0xc9 then When(pc + 5 <= |c|, pc, Branch(op - 0x21, pc + S4(c, pc + 1)), pc + 5)
    else if op == IINC then
      When(pc + 3 <= |c| && U1(c, pc + 1) < s.maxLocals, pc, Increment(U1(c, pc + 1), S1(c, pc + 2)), pc + 3)
    else if UsesPool(op) then PoolAt(s, pc)
    else if op == NEWARRAY then When(pc + 2 <= |c| && 4 <= U1(c, pc + 1) <= 11, pc, NewArray(U1(c, pc + 1)), pc + 2)
    else if op == LOOKUPSWITCH then LookupAt(c, pc)
    else if op == TABLESWITCH then TableAt(c, pc)
    else if op == WIDE then WideAt(s, pc)
    else Some(Item(pc, Plain(op), pc + 1))
  }

  // ---------------------------------------------------------------------------
  // Parsing a method

  /** All instructions from `pc` on. */
  function Sweep(s: Source, pc: nat): Option<seq<Item>>
    requires pc <= |s.code|
    decreases |s.code| - pc
  {
    if pc == |s.code| then Some([])
    else match DecodeAt(s, pc)
      case None => None
      case Some(it) =>
        match Sweep(s, it.next)
        case None => None
        case Some(rest) => Some([it] + rest)
  }

  function IndexOf(items: seq<Item>, off: int): Option<nat> {
    if items == [] then None
    else if items[0].off == off then Some(0)
    else match IndexOf(items[1..], off) case None => None case Some(i) => Some(i + 1)
  }

  /** A branch target as an instruction index. */
  function MapTarget(items: seq<Item>, off: int): Option<int> {
    if off == 0 then Some(0)
    else match IndexOf(items, off) case None => None case Some(i) => Some(i)
  }

  function MapTargets(items: seq<Item>, ts: seq<int>): Option<seq<int>> {
    if ts == [] then Some([])
    else match (MapTarget(items, ts[0]), MapTargets(items, ts[1..]))
      case (Some(t), Some(rest)) => Some([t] + rest)
      case _ => None
  }

  function PairTargets(pairs: seq<Pair>): seq<int> {
    seq(|pairs|, i requires 0 <= i < |pairs| => pairs[i].target)
  }

  function Retarget(pairs: seq<Pair>, ts: seq<int>): seq<Pair>
    requires |ts| == |pairs|
  {
    seq(|pairs|, i requires 0 <= i < |pairs| => pairs[i].(target := ts[i]))
  }

  function MapInsn(items: seq<Item>, insn: Insn): Option<Insn> {
    match insn
    case Branch(op, t) => (match MapTarget(items, t) case None => None case Some(i) => Some(Branch(op, i)))
    case Lookup(d, pairs) =>
      (match (MapTarget(items, d), MapTargets(items, PairTargets(pairs)))
       case (Some(i), Some(ts)) => if |ts| == |pairs| then Some(Lookup(i, Retarget(pairs, ts))) else None
       case _ => None)
    case Table(lo, hi, d, ts) =>
      (match (MapTarget(items, d), MapTargets(items, ts))
       case (Some(i), Some(us)) => Some(Table(lo, hi, i, us))
       case _ => None)
    case _ => Some(insn)
  }

  function MapFrom(items: seq<Item>, k: nat): Option<seq<Insn>>
    requires k <= |items|
    decreases |items| - k
  {
    if k == |items| then Some([])
    else match (MapInsn(items, items[k].insn), MapFrom(items, k + 1))
      case (Some(insn), Some(rest)) => Some([insn] + rest)
      case _ => None
  }

  function MapTrap(items: seq<Item>, len: nat, t: Trap): Option<Trap> {
    match (MapTarget(items, t.start), if t.end == len then Some(|items|) else MapTarget(items, t.end), MapTarget(items, t.target))
    case (Some(a), Some(b), Some(h)) => if b <= a then None else Some(Trap(a, b, h, t.kind))
    case _ => None
  }

  function MapTraps(items: seq<Item>, len: nat, traps: seq<Trap>): Option<seq<Trap>> {
    if traps == [] then Some([])
    else match (MapTrap(items, len, traps[0]), MapTraps(items, len, traps[1..]))
      case (Some(t), Some(rest)) => Some([t] + rest)
      case _ => None
  }

  datatype Parsed = Parsed(insns: seq<Insn>, traps: seq<Trap>)

  function ParseCode(s: Source, traps: seq<Trap>): Option<Parsed> {
    match Sweep(s, 0)
    case None => None
    case Some(items) =>
      match (MapFrom(items, 0), MapTraps(items, |s.code|, traps))
      case (Some(insns), Some(ts)) => Some(Parsed(insns, ts))
      case _ => None
  }

  // ---------------------------------------------------------------------------
  // Resolution turns every constant into a push

  function ConstWord(op: Byte): Option<Word> {
    if op == 0x01 || op == 0x0b then Some(0)
    else if 0x02 <= op <= 0x08 then Some(op - 3)
    else if op == 0x0c then Some(0x3f80_0000)
    else if op == 0x0d then Some(0x4000_0000)
    else None
  }

  function ResolveConst(m: nat -> Word, c: Const, insn: Insn): Insn {
    match c
    case Int(v) => PushWord(v)
    case Float(v) => PushWord(v)
    case Text(s) => PushText(s)
    case Class(id) => PushWord(m(id))
    case Long(a, b) => PushWords(a, b)
    case Double(a, b) => PushWords(a, b)
    case _ => insn
  }

  function Resolve(mirror: nat -> Word, pool: seq<Const>, insn: Insn): Insn {
    match insn
    case Plain(op) =>
      if ConstWord(op).Some? then PushWord(ConstWord(op).value)
      else if op == 0x09 || op == 0x0e then PushWords(0, 0)
      else if op == 0x0a then PushWords(1, 0)
      else if op == 0x0f then PushWords(0, 0x3ff0_0000)
      else insn
    case Immediate(_, v) => PushWord(v)
    case Constant(_, cp) => if 1 <= cp <= |pool| then ResolveConst(mirror, pool[cp - 1], insn) else insn
    case _ => insn
  }

  function ResolveAll(mirror: nat -> Word, pool: seq<Const>, insns: seq<Insn>): seq<Insn> {
    seq(|insns|, i requires 0 <= i < |insns| => Resolve(mirror, pool, insns[i]))
  }
}
