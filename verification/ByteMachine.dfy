/**
 Java bytecode executed straight from its bytes, following the instruction
 descriptions in chapter 6 of the Java Virtual Machine Specification, 2nd edition.
 The program counter is a byte offset.
 */
module ByteMachine {
  import opened Options
  import opened JavaFrame
  import opened Bytecode

  /** The length in bytes of the instruction at `pc`. */
  function Size(c: Code, pc: nat): int {
    var op, a := U1(c, pc), Aligned(pc);
    if op in {0x10, 0x12, 0xa9, 0xbc} || 0x15 <= op <= 0x19 || 0x36 <= op <= 0x3a then 2
    else if op in {0x11, 0x13, 0x14, 0x84, 0xbb, 0xbd, 0xc0, 0xc1, 0xc6, 0xc7} then 3
    else if 0x99 <= op <= 0xa8 || 0xb2 <= op <= 0xb8 then 3
    else if op == 0xc5 then 4
    else if op in {0xb9, 0xc8, 0xc9} then 5
    else if op == 0xaa then a + 12 + 4 * (S4(c, a + 8) - S4(c, a + 4) + 1) - pc
    else if op == 0xab then a + 8 + 8 * S4(c, a + 4) - pc
    else if op == 0xc4 then if U1(c, pc + 1) == 0x84 then 6 else 4
    else 1
  }

  function PushConst<W>(m: World<W>, pool: seq<Const>, cp: nat, f: Frame, w: W): Outcome<W> {
    if !(1 <= cp <= |pool|) then Wrong
    else match pool[cp - 1]
      case Int(v) => Push(f, [v], w)
      case Float(v) => Push(f, [v], w)
      case Text(s) => Push(f, [m.intern(s)], w)
      case Class(id) => Push(f, [m.mirror(id)], w)
      case Long(a, b) => Push(f, [a, b], w)
      case Double(a, b) => Push(f, [a, b], w)
      case _ => Wrong
  }

  /** The instructions that push a constant of their own. */
  function OwnConst(op: Byte): seq<Word>
    requires 0x01 <= op <= 0x0f
  {
    match op
    case 0x01 => [0]                  // aconst_null
    case 0x02 => [-1]                 // iconst_m1
    case 0x03 => [0]
    case 0x04 => [1]
    case 0x05 => [2]
    case 0x06 => [3]
    case 0x07 => [4]
    case 0x08 => [5]
    case 0x09 => [0, 0]               // lconst_0
    case 0x0a => [1, 0]
    case 0x0b => [0]                  // fconst_0
    case 0x0c => [0x3f80_0000]
    case 0x0d => [0x4000_0000]
    case 0x0e => [0, 0]               // dconst_0
    case _ => [0, 0x3ff0_0000]
  }

  function Branching<W>(op: Byte, to: int, next: int, f: Frame, w: W): Flow<W>
    requires Branches(op)
  {
    match Test(op, f.stack)
    case None => Ends(Wrong)
    case Some((taken, s)) => To(if taken then to else next, f.(stack := s), w)
  }

  /** The offset paired with `key` among the pairs from number `i` of `n`. */
  function FindPair(c: Code, pairs: nat, key: int, i: nat, n: nat): Option<int>
    requires i <= n
    decreases n - i
  {
    if i == n then None
    else if S4(c, pairs + 8 * i) == key then Some(S4(c, pairs + 8 * i + 4))
    else FindPair(c, pairs, key, i + 1, n)
  }

  function SwitchTarget(c: Code, pc: nat, key: int): int {
    var a := Aligned(pc);
    if U1(c, pc) == 0xaa then
      if S4(c, a + 4) <= key <= S4(c, a + 8) then pc + S4(c, a + 12 + 4 * (key - S4(c, a + 4))) else pc + S4(c, a)
    else
      var n := S4(c, a + 4);
      match FindPair(c, a + 8, key, 0, if n < 0 then 0 else n)
      case None => pc + S4(c, a)
      case Some(d) => pc + d
  }

  function Switching<W>(c: Code, pc: nat, f: Frame, w: W): Flow<W> {
    var n := |f.stack|;
    if n < 1 then Ends(Wrong) else To(SwitchTarget(c, pc, f.stack[n - 1]), f.(stack := f.stack[..n - 1]), w)
  }

  function Widened<W>(c: Code, pc: nat, f: Frame, w: W): Outcome<W> {
    var op, i := U1(c, pc + 1), U2(c, pc + 2);
    if 0x15 <= op <= 0x19 then Load(op - 0x15, i, f, w)
    else if 0x36 <= op <= 0x3a then Store(op - 0x36, i, f, w)
    else if op == 0x84 then Bump(i, S2(c, pc + 4), f, w)
    else Wrong
  }

  /** Instructions that fall through to the next one unless they fail. */
  function Plainly<W>(m: World<W>, pool: seq<Const>, c: Code, pc: nat, f: Frame, w: W): Outcome<W> {
    var op := U1(c, pc);
    if 0x01 <= op <= 0x0f then Push(f, OwnConst(op), w)
    else if op == 0x10 then Push(f, [S1(c, pc + 1)], w)
    else if op == 0x11 then Push(f, [S2(c, pc + 1)], w)
    else if op == 0x12 then PushConst(m, pool, U1(c, pc + 1), f, w)
    else if op == 0x13 || op == 0x14 then PushConst(m, pool, U2(c, pc + 1), f, w)
    else if 0x15 <= op <= 0x19 then Load(op - 0x15, U1(c, pc + 1), f, w)
    else if 0x1a <= op <= 0x2d then Load((op - 0x1a) / 4, (op - 0x1a) % 4, f, w)
    else if 0x36 <= op <= 0x3a then Store(op - 0x36, U1(c, pc + 1), f, w)
    else if 0x3b <= op <= 0x4e then Store((op - 0x3b) / 4, (op - 0x3b) % 4, f, w)
    else if op == 0x84 then Bump(U1(c, pc + 1), S1(c, pc + 2), f, w)
    else if op == 0xc4 then Widened(c, pc, f, w)
    else if 0xb2 <= op <= 0xb9 || op in {0xbb, 0xbd, 0xc0, 0xc1} then m.ext(op, U2(c, pc + 1), f, w)
    else if op == 0xbc then m.ext(op, U1(c, pc + 1), f, w)
    else if op == 0xc5 then m.ext(op, U2(c, pc + 1) * 0x100 + U1(c, pc + 3), f, w)
    else Basic(m, op, f, w)
  }

  /** One instruction; jsr and ret, and bytes that are no instruction, are not run. */
  function ByteFlow<W>(m: World<W>, pool: seq<Const>, c: Code, pc: nat, f: Frame, w: W): Flow<W> {
    var op := U1(c, pc);
    if pc >= |c| || Size(c, pc) < 1 || pc + Size(c, pc) > |c| then Ends(Wrong)
    else if op == 0xba || op > 0xc9 || op == 0xa8 || op == 0xa9 || op == 0xc9 then Ends(Wrong)
    else if op == 0xaa || op == 0xab then Switching(c, pc, f, w)
    else if op == 0xc8 then Branching(0xa7, pc + S4(c, pc + 1), pc + 5, f, w)
    else if Branches(op) then Branching(op, pc + S2(c, pc + 1), pc + 3, f, w)
    else Then(Plainly(m, pool, c, pc, f, w), pc + Size(c, pc))
  }

  function ByteStep<W>(m: World<W>, pool: seq<Const>, c: Code, traps: seq<Trap>, s: State<W>): State<W> {
    if s.Running? && s.pc >= 0 then Settle(m, traps, s.pc, s.f, ByteFlow(m, pool, c, s.pc, s.f, s.w)) else s
  }

  function ByteRun<W>(m: World<W>, pool: seq<Const>, c: Code, traps: seq<Trap>, s: State<W>, n: nat): State<W>
    decreases n
  {
    if n == 0 then s else ByteRun(m, pool, c, traps, ByteStep(m, pool, c, traps, s), n - 1)
  }
}
