/** What Java instructions do to a frame of 32-bit words, apart from how they are encoded. */
module JavaFrame {
  import opened Options

  type Byte = x: int | 0 <= x < 0x100
  type Word = x: int | -0x8000_0000 <= x < 0x8000_0000

  /** The top of the operand stack is its last element. */
  datatype Frame = Frame(locals: seq<Word>, stack: seq<Word>, limit: nat)

  datatype Failure = NullPointer | Arithmetic

  /** What the rest of the virtual machine (of state `W`) does for the interpreter:
      `ext` runs instructions on objects, arrays, methods, and longer or floating-point words. */
  datatype World<!W> = World(
    ext: (Byte, nat, Frame, W) -> Outcome<W>,
    raise: (Failure, W) -> (Word, W),
    intern: string -> Word,
    mirror: nat -> Word,
    catches: (nat, Word) -> bool)

  datatype Outcome<W> = Normal(f: Frame, w: W) | Throw(e: Word, w: W) | Return(value: seq<Word>, w: W) | Wrong

  function Wrap(x: int): Word {
    (x + 0x8000_0000) % 0x1_0000_0000 - 0x8000_0000
  }

  function Unsigned(x: Word): int {
    if x < 0 then x + 0x1_0000_0000 else x
  }

  /** Division rounds toward zero. */
  function Quotient(a: int, b: int): int
    requires b != 0
  {
    if a >= 0 then a / b else -((-a) / b)
  }

  function Power2(n: nat): (r: nat)
    ensures r > 0
  {
    if n == 0 then 1 else 2 * Power2(n - 1)
  }

  function BitOf(op: Byte, x: int, y: int): nat {
    if op == 0x7e then if x == 1 && y == 1 then 1 else 0
    else if op == 0x80 then if x == 0 && y == 0 then 0 else 1
    else if x == y then 0 else 1
  }

  /** The lowest `n` bits, each combined with its counterpart. */
  function LowBits(op: Byte, a: int, b: int, n: nat): nat
    decreases n
  {
    if n == 0 then 0 else 2 * LowBits(op, a / 2, b / 2, n - 1) + BitOf(op, a % 2, b % 2)
  }

  function Bits(op: Byte, a: Word, b: Word): Word {
    Wrap(LowBits(op, a, b, 32))
  }

  function Arithmetic2(op: Byte, a: Word, b: Word): Word
    requires op == 0x6c || op == 0x70 ==> b != 0
  {
    if op == 0x60 then Wrap(a + b)
    else if op == 0x64 then Wrap(a - b)
    else if op == 0x68 then Wrap(a * b)
    else if op == 0x6c then Wrap(Quotient(a, b))
    else if op == 0x70 then Wrap(a - b * Quotient(a, b))
    else if op == 0x78 then Wrap(a * Power2(b % 32))
    else if op == 0x7a then Wrap(a / Power2(b % 32))
    else if op == 0x7c then Wrap(Unsigned(a) / Power2(b % 32))
    else Bits(op, a, b)
  }

  function Convert(op: Byte, a: Word): Word {
    if op == 0x74 then Wrap(0 - a)
    else if op == 0x91 then (a + 0x80) % 0x100 - 0x80
    else if op == 0x92 then a % 0x1_0000
    else (a + 0x8000) % 0x1_0000 - 0x8000
  }

  predicate Binary(op: Byte) {
    op in {0x60, 0x64, 0x68, 0x6c, 0x70, 0x78, 0x7a, 0x7c, 0x7e, 0x80, 0x82}
  }

  predicate Unary(op: Byte) {
    op in {0x74, 0x91, 0x92, 0x93}
  }

  predicate Shuffle(op: Byte) {
    0x57 <= op <= 0x5f
  }

  function Needs(op: Byte): nat
    requires Shuffle(op)
  {
    match op
    case 0x57 => 1 case 0x58 => 2 case 0x59 => 1 case 0x5a => 2 case 0x5b => 3
    case 0x5c => 2 case 0x5d => 3 case 0x5e => 4 case _ => 2
  }

  /** pop, pop2, the dup family and swap. */
  function Shuffled(op: Byte, s: seq<Word>): seq<Word>
    requires Shuffle(op) && |s| >= Needs(op)
  {
    var n := |s|;
    match op
    case 0x57 => s[..n - 1]
    case 0x58 => s[..n - 2]
    case 0x59 => s + [s[n - 1]]
    case 0x5a => s[..n - 2] + [s[n - 1], s[n - 2], s[n - 1]]
    case 0x5b => s[..n - 3] + [s[n - 1], s[n - 3], s[n - 2], s[n - 1]]
    case 0x5c => s + [s[n - 2], s[n - 1]]
    case 0x5d => s[..n - 3] + [s[n - 2], s[n - 1], s[n - 3], s[n - 2], s[n - 1]]
    case 0x5e => s[..n - 4] + [s[n - 2], s[n - 1], s[n - 4], s[n - 3], s[n - 2], s[n - 1]]
    case _ => s[..n - 2] + [s[n - 1], s[n - 2]]
  }

  function WithStack<W>(f: Frame, s: seq<Word>, w: W): Outcome<W> {
    if |s| <= f.limit then Normal(f.(stack := s), w) else Wrong
  }

  function Push<W>(f: Frame, v: seq<Word>, w: W): Outcome<W> {
    WithStack(f, f.stack + v, w)
  }

  function Fail<W>(m: World<W>, k: Failure, w: W): Outcome<W> {
    var (e, w') := m.raise(k, w);
    Throw(e, w')
  }

  /** How many words the return instructions return. */
  function Returns(op: Byte): nat {
    if op == 0xb1 then 0 else if op == 0xad || op == 0xaf then 2 else 1
  }

  /** Instructions without operands. */
  function Basic<W>(m: World<W>, op: Byte, f: Frame, w: W): Outcome<W> {
    var s, n := f.stack, |f.stack|;
    if op == 0x00 then Normal(f, w)
    else if Shuffle(op) then if n < Needs(op) then Wrong else WithStack(f, Shuffled(op, s), w)
    else if Binary(op) then
      if n < 2 then Wrong
      else if (op == 0x6c || op == 0x70) && s[n - 1] == 0 then Fail(m, Arithmetic, w)
      else WithStack(f, s[..n - 2] + [Arithmetic2(op, s[n - 2], s[n - 1])], w)
    else if Unary(op) then if n < 1 then Wrong else WithStack(f, s[..n - 1] + [Convert(op, s[n - 1])], w)
    else if 0xac <= op <= 0xb1 then if n < Returns(op) then Wrong else Return(s[n - Returns(op)..], w)
    else if op == 0xbf then
      if n < 1 then Wrong else if s[n - 1] == 0 then Fail(m, NullPointer, w) else Throw(s[n - 1], w)
    else m.ext(op, 0, f, w)
  }

  // ---------------------------------------------------------------------------
  // Local variables: kinds 0 to 4 are int, long, float, double and reference

  function Width(kind: nat): nat {
    if kind == 1 || kind == 3 then 2 else 1
  }

  function Load<W>(kind: nat, i: nat, f: Frame, w: W): Outcome<W> {
    if i + Width(kind) > |f.locals| then Wrong else Push(f, f.locals[i..i + Width(kind)], w)
  }

  function Store<W>(kind: nat, i: nat, f: Frame, w: W): Outcome<W> {
    var k, n := Width(kind), |f.stack|;
    if i + k > |f.locals| || n < k then Wrong
    else Normal(f.(locals := f.locals[..i] + f.stack[n - k..] + f.locals[i + k..], stack := f.stack[..n - k]), w)
  }

  function Bump<W>(i: nat, v: int, f: Frame, w: W): Outcome<W> {
    if i >= |f.locals| then Wrong else Normal(f.(locals := f.locals[i := Wrap(f.locals[i] + v)]), w)
  }

  // ---------------------------------------------------------------------------
  // Branch conditions

  predicate Compare(k: nat, a: int, b: int) {
    match k
    case 0 => a == b case 1 => a != b case 2 => a < b
    case 3 => a >= b case 4 => a > b case _ => a <= b
  }

  predicate Branches(op: Byte) {
    0x99 <= op <= 0xa7 || op == 0xc6 || op == 0xc7
  }

  /** Whether the branch is taken, and the stack left; None if the stack is too short. */
  function Test(op: Byte, s: seq<Word>): Option<(bool, seq<Word>)>
    requires Branches(op)
  {
    var n := |s|;
    if op == 0xa7 then Some((true, s))
    else if op <= 0x9e || op >= 0xc6 then
      if n < 1 then None
      else Some((Compare(if op >= 0xc6 then op - 0xc6 else op - 0x99, s[n - 1], 0), s[..n - 1]))
    else if n < 2 then None
    else Some((Compare(if op >= 0xa5 then op - 0xa5 else op - 0x9f, s[n - 2], s[n - 1]), s[..n - 2]))
  }

  // ---------------------------------------------------------------------------
  // Runs of a machine whose program counter is an offset or an index

  datatype Trap = Trap(start: int, end: int, target: int, kind: nat)

  datatype State<W> = Running(pc: int, f: Frame, w: W) | Finished(value: seq<Word>, w: W) | Uncaught(e: Word, w: W) | Stuck

  predicate Covers<W>(m: World<W>, t: Trap, pc: int, e: Word) {
    t.start <= pc < t.end && (t.kind == 0 || m.catches(t.kind, e))
  }

  /** The first trap entry covering the throwing instruction that catches the exception. */
  function Handler<W>(m: World<W>, traps: seq<Trap>, pc: int, e: Word): Option<int> {
    if traps == [] then None
    else if Covers(m, traps[0], pc, e) then Some(traps[0].target)
    else Handler(m, traps[1..], pc, e)
  }

  datatype Flow<W> = To(pc: int, f: Frame, w: W) | Ends(o: Outcome<W>)

  /** Carry on at `pc` after a normal outcome. */
  function Then<W>(o: Outcome<W>, pc: int): Flow<W> {
    if o.Normal? then To(pc, o.f, o.w) else Ends(o)
  }

  function Settle<W>(m: World<W>, traps: seq<Trap>, pc: int, f: Frame, x: Flow<W>): State<W> {
    match x
    case To(to, g, w) => Running(to, g, w)
    case Ends(Throw(e, w)) =>
      (match Handler(m, traps, pc, e)
       case None => Uncaught(e, w)
       case Some(h) => if f.limit == 0 then Stuck else Running(h, f.(stack := [e]), w))
    case Ends(Return(v, w)) => Finished(v, w)
    case Ends(_) => Stuck
  }
}
