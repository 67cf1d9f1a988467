/**
 The instruction formats of chapter 6 of the Java Virtual Machine Specification,
 2nd edition, written from the instructions to their bytes: what a class file
 contains, independently of how the parser reads it.
 */
module CodeLayout {
  import opened JavaFrame
  import opened Bytecode

  /** One instruction in a class file; displacements are relative to its offset. */
  datatype Raw =
    | Bare(op: Byte)                                  // no operands
    | Fixed(store: bool, kind: nat, index: nat)       // iload_0 to astore_3
    | LocalByte(op: Byte, index: nat)
    | LocalWide(op: Byte, index: nat)
    | PushByte(value: int)
    | PushShort(value: int)
    | Inc(index: nat, delta: int)
    | IncWide(index: nat, delta: int)
    | Jump(op: Byte, disp: int)
    | JumpFar(op: Byte, disp: int)
    | LoadConst(cp: nat)
    | LoadConstWide(cp: nat)
    | LoadConst2(cp: nat)
    | OnEntry(op: Byte, cp: nat)                      // fields, methods and classes
    | CallInterface(cp: nat, count: Byte, last: Byte)
    | NewMulti(cp: nat, dims: Byte)
    | NewPlain(kind: nat)
    | SwitchTable(low: Word, high: Word, default_: Word, disps: seq<Word>)
    | SwitchLookup(default_: Word, pairs: seq<Pair>)  // the targets are displacements

  // ---------------------------------------------------------------------------
  // Bytes

  /** Two and four bytes of a number in two's complement, the most significant first. */
  function Two(x: int): (b: seq<Byte>)
    ensures |b| == 2
  {
    [x / 0x100 % 0x100, x % 0x100]
  }

  function Four(x: int): (b: seq<Byte>)
    ensures |b| == 4
  {
    [x / 0x100_0000 % 0x100, x / 0x1_0000 % 0x100, x / 0x100 % 0x100, x % 0x100]
  }

  function Fours(xs: seq<Word>): (b: seq<Byte>)
    ensures |b| == 4 * |xs|
  {
    if xs == [] then [] else Four(xs[0]) + Fours(xs[1..])
  }

  function PairBytes(ps: seq<Pair>): (b: seq<Byte>)
    requires Displacements(ps)
    ensures |b| == 8 * |ps|
  {
    if ps == [] then [] else Four(ps[0].key) + Four(ps[0].target) + PairBytes(ps[1..])
  }

  predicate Displacements(ps: seq<Pair>) {
    forall i :: 0 <= i < |ps| ==> -0x8000_0000 <= ps[i].target < 0x8000_0000
  }

  /** Zero bytes up to the next multiple of four behind the opcode at `pos`. */
  function Padding(pos: nat): (b: seq<Byte>)
    ensures |b| <= 3 && (pos + 1 + |b|) % 4 == 0 && forall i :: 0 <= i < |b| ==> b[i] == 0
  {
    var n := pos % 4;
    if n == 0 then [0, 0, 0] else if n == 1 then [0, 0] else if n == 2 then [0] else []
  }

  function Encode(r: Raw, pos: nat): (b: seq<Byte>)
    requires WellFormed(r)
    ensures |b| > 0
  {
    match r
    case Bare(op) => [op]
    case Fixed(store, kind, i) => [(if store then 0x3b else 0x1a) + 4 * kind + i]
    case LocalByte(op, i) => [op, i]
    case LocalWide(op, i) => [0xc4, op] + Two(i)
    case PushByte(v) => [0x10, v % 0x100]
    case PushShort(v) => [0x11] + Two(v)
    case Inc(i, d) => [0x84, i, d % 0x100]
    case IncWide(i, d) => [0xc4, 0x84] + Two(i) + Two(d)
    case Jump(op, d) => [op] + Two(d)
    case JumpFar(op, d) => [op] + Four(d)
    case LoadConst(cp) => [0x12, cp]
    case LoadConstWide(cp) => [0x13] + Two(cp)
    case LoadConst2(cp) => [0x14] + Two(cp)
    case OnEntry(op, cp) => [op] + Two(cp)
    case CallInterface(cp, count, last) => [0xb9] + Two(cp) + [count, last]
    case NewMulti(cp, dims) => [0xc5] + Two(cp) + [dims]
    case NewPlain(kind) => [0xbc, kind]
    case SwitchTable(lo, hi, d, ds) => [0xaa] + Padding(pos) + Four(d) + Four(lo) + (Four(hi) + Fours(ds))
    case SwitchLookup(d, ps) => [0xab] + Padding(pos) + Four(d) + Four(|ps|) + PairBytes(ps)
  }

  // ---------------------------------------------------------------------------
  // Which instructions there are

  predicate NoOperands(op: Byte) {
    || op <= 0x0f                                     // nop and constants
    || 0x2e <= op <= 0x35 || 0x4f <= op <= 0x56       // array elements
    || 0x57 <= op <= 0x83 || 0x85 <= op <= 0x98       // the stack and arithmetic
    || 0xac <= op <= 0xb1                             // returns
    || op in {0xbe, 0xbf, 0xc2, 0xc3}
    || op == 0xe0                                     // the interpreter's own ldc_string
  }

  predicate OnLocal(op: Byte) {
    op in {0x15, 0x16, 0x17, 0x18, 0x19, 0x36, 0x37, 0x38, 0x39, 0x3a, 0xa9}
  }

  predicate Short(x: int) {
    -0x8000 <= x < 0x8000
  }

  /** Operands fit in their bytes and the opcode has the form. */
  predicate WellFormed(r: Raw) {
    match r
    case Bare(op) => NoOperands(op)
    case Fixed(_, kind, i) => kind <= 4 && i <= 3
    case LocalByte(op, i) => OnLocal(op) && i < 0x100
    case LocalWide(op, i) => OnLocal(op) && i < 0x1_0000
    case PushByte(v) => -0x80 <= v < 0x80
    case PushShort(v) => Short(v)
    case Inc(i, d) => i < 0x100 && -0x80 <= d < 0x80
    case IncWide(i, d) => i < 0x1_0000 && Short(d)
    case Jump(op, d) => (0x99 <= op <= 0xa8 || op == 0xc6 || op == 0xc7) && Short(d)
    case JumpFar(op, d) => (op == 0xc8 || op == 0xc9) && -0x8000_0000 <= d < 0x8000_0000
    case LoadConst(cp) => cp < 0x100
    case LoadConstWide(cp) => cp < 0x1_0000
    case LoadConst2(cp) => cp < 0x1_0000
    case OnEntry(op, cp) => (0xb2 <= op <= 0xb8 || op in {0xbb, 0xbd, 0xc0, 0xc1}) && cp < 0x1_0000
    case CallInterface(cp, _, _) => cp < 0x1_0000
    case NewMulti(cp, _) => cp < 0x1_0000
    case NewPlain(kind) => 4 <= kind <= 11
    case SwitchTable(lo, hi, _, ds) => lo <= hi && |ds| == hi - lo + 1
    case SwitchLookup(_, ps) => |ps| < 0x8000_0000 && Displacements(ps) && Increasing(ps)
  }

  predicate Increasing(ps: seq<Pair>) {
    forall i, j :: 0 <= i < j < |ps| ==> ps[i].key < ps[j].key
  }

  predicate Entry(pool: seq<Const>, cp: nat) {
    1 <= cp <= |pool|
  }

  /** A constant one word wide. */
  predicate Loadable(pool: seq<Const>, cp: nat) {
    Entry(pool, cp) && var c := pool[cp - 1]; c.Int? || c.Float? || c.Text? || c.Class?
  }

  /** Well-formed, of a local that exists, and with a constant of the kind the opcode needs. */
  predicate Legal(r: Raw, maxLocals: nat, pool: seq<Const>) {
    WellFormed(r) &&
    match r
    case LocalByte(_, i) => i < maxLocals
    case LocalWide(_, i) => i < maxLocals
    case Inc(i, _) => i < maxLocals
    case IncWide(i, _) => i < maxLocals
    case LoadConst(cp) => Loadable(pool, cp)
    case LoadConstWide(cp) => Loadable(pool, cp)
    case LoadConst2(cp) => Entry(pool, cp) && (pool[cp - 1].Long? || pool[cp - 1].Double?)
    case OnEntry(op, cp) =>
      Entry(pool, cp) &&
      if 0xb2 <= op <= 0xb5 then pool[cp - 1].Field?
      else if 0xb6 <= op <= 0xb8 then pool[cp - 1].Method?
      else pool[cp - 1].Class?
    case CallInterface(cp, _, _) => Entry(pool, cp) && pool[cp - 1].InterfaceMethod?
    case NewMulti(cp, _) => Entry(pool, cp) && pool[cp - 1].Class?
    case _ => true
  }

  /** What the instruction at `pos` becomes, its targets still offsets. */
  function Means(r: Raw, pos: nat): Insn
    requires WellFormed(r)
  {
    match r
    case Bare(op) => Plain(op)
    case Fixed(store, kind, i) => Local((if store then 0x36 else 0x15) + kind, i)
    case LocalByte(op, i) => Local(op, i)
    case LocalWide(op, i) => Local(op, i)
    case PushByte(v) => Immediate(0x10, v)
    case PushShort(v) => Immediate(0x11, v)
    case Inc(i, d) => Increment(i, d)
    case IncWide(i, d) => Increment(i, d)
    case Jump(op, d) => Branch(op, pos + d)
    case JumpFar(op, d) => Branch(if op == 0xc8 then 0xa7 else 0xa8, pos + d)
    case LoadConst(cp) => Constant(0x12, cp)
    case LoadConstWide(cp) => Constant(0x12, cp)
    case LoadConst2(cp) => Constant(0x14, cp)
    case OnEntry(op, cp) => Member(op, cp)
    case CallInterface(cp, _, _) => Member(0xb9, cp)
    case NewMulti(cp, dims) => MultiArray(cp, dims)
    case NewPlain(kind) => NewArray(kind)
    case SwitchTable(lo, hi, d, ds) => Table(lo, hi, pos + d, seq(|ds|, i requires 0 <= i < |ds| => pos + ds[i]))
    case SwitchLookup(d, ps) =>
      Lookup(pos + d, seq(|ps|, i requires 0 <= i < |ps| => Pair(ps[i].key, pos + ps[i].target)))
  }

  // ---------------------------------------------------------------------------
  // Whole methods

  predicate AllWellFormed(raws: seq<Raw>) {
    forall i :: 0 <= i < |raws| ==> WellFormed(raws[i])
  }

  predicate AllLegal(raws: seq<Raw>, maxLocals: nat, pool: seq<Const>) {
    forall i :: 0 <= i < |raws| ==> Legal(raws[i], maxLocals, pool)
  }

  /** The bytes of `raws` from offset `pos` on. */
  function Assemble(raws: seq<Raw>, pos: nat): seq<Byte>
    requires AllWellFormed(raws)
  {
    if raws == [] then []
    else
      var b := Encode(raws[0], pos);
      b + Assemble(raws[1..], pos + |b|)
  }

  /** Where instruction `k` starts. */
  function Start(raws: seq<Raw>, pos: nat, k: nat): nat
    requires AllWellFormed(raws) && k <= |raws|
    decreases k
  {
    if k == 0 then pos else Start(raws[1..], pos + |Encode(raws[0], pos)|, k - 1)
  }
}
