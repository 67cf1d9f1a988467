/** Resolving a parsed method: every instruction that pushes a constant becomes the push itself. */
module BytecodeResolve {
  import opened Options
  import opened JavaFrame
  import opened Bytecode
  import opened ByteMachine
  import opened BytecodeSim
  import opened BytecodeRun

  /** What an instruction that does nothing else pushes. */
  datatype Pushed = Words(ws: seq<Word>) | Interned(s: string)

  /** Still to be rewritten. */
  predicate Unresolved(insn: Insn) {
    insn.Immediate? || insn.Constant? || (insn.Plain? && 0x01 <= insn.op <= 0x0f)
  }

  predicate Loadable(c: Const) {
    c.Int? || c.Float? || c.Text? || c.Class? || c.Long? || c.Double?
  }

  /** A constant is in the pool and can be pushed. */
  predicate InPool(pool: seq<Const>, insn: Insn) {
    insn.Constant? ==> 1 <= insn.cp <= |pool| && Loadable(pool[insn.cp - 1])
  }

  ghost function Loads(mirror: nat -> Word, c: Const): Option<Pushed> {
    match c
    case Int(v) => Some(Words([v]))
    case Float(v) => Some(Words([v]))
    case Text(s) => Some(Interned(s))
    case Class(id) => Some(Words([mirror(id)]))
    case Long(a, b) => Some(Words([a, b]))
    case Double(a, b) => Some(Words([a, b]))
    case _ => None
  }

  /** What the instruction pushes, before or after resolution; None if it does anything else. */
  ghost function Pushes(mirror: nat -> Word, pool: seq<Const>, insn: Insn): Option<Pushed> {
    match insn
    case Plain(op) => if 0x01 <= op <= 0x0f then Some(Words(OwnConst(op))) else None
    case Immediate(_, v) => Some(Words([v]))
    case Constant(_, cp) => if 1 <= cp <= |pool| then Loads(mirror, pool[cp - 1]) else None
    case PushWord(v) => Some(Words([v]))
    case PushWords(a, b) => Some(Words([a, b]))
    case PushText(s) => Some(Interned(s))
    case _ => None
  }

  /** One instruction, by its opcode. */
  method ResolveInsn(mirror: nat -> Word, pool: seq<Const>, insn: Insn) returns (r: Insn)
    ensures !Unresolved(insn) ==> r == insn
    ensures InPool(pool, insn) ==> !Unresolved(r)
    ensures Pushes(mirror, pool, r) == Pushes(mirror, pool, insn)
    ensures r == Resolve(mirror, pool, insn)
  {
    match insn
    case Plain(op) =>
      match op {
        case 0x01 => r := PushWord(0);
        case 0x02 => r := PushWord(-1);
        case 0x03 => r := PushWord(0);
        case 0x04 => r := PushWord(1);
        case 0x05 => r := PushWord(2);
        case 0x06 => r := PushWord(3);
        case 0x07 => r := PushWord(4);
        case 0x08 => r := PushWord(5);
        case 0x09 => r := PushWords(0, 0);
        case 0x0a => r := PushWords(1, 0);
        case 0x0b => r := PushWord(0);
        case 0x0c => r := PushWord(0x3f80_0000);
        case 0x0d => r := PushWord(0x4000_0000);
        case 0x0e => r := PushWords(0, 0);
        case 0x0f => r := PushWords(0, 0x3ff0_0000);
        case _ => r := insn;
      }
    case Immediate(_, v) => r := PushWord(v);
    case Constant(_, cp) =>
      if !(1 <= cp <= |pool|) { return insn; }
      match pool[cp - 1] {
        case Int(v) => r := PushWord(v);
        case Float(v) => r := PushWord(v);
        case Text(s) => r := PushText(s);
        case Class(id) => r := PushWord(mirror(id));
        case Long(a, b) => r := PushWords(a, b);
        case Double(a, b) => r := PushWords(a, b);
        case _ => r := insn;
      }
    case _ => r := insn;
  }

  /** In place: nothing is left to rewrite, what was pushed still is, and all other
      instructions, with their targets, stay. */
  method ResolveInsns(mirror: nat -> Word, pool: seq<Const>, insns: array<Insn>)
    modifies insns
    ensures forall i :: 0 <= i < insns.Length && !Unresolved(old(insns[i])) ==> insns[i] == old(insns[i])
    ensures forall i :: 0 <= i < insns.Length && InPool(pool, old(insns[i])) ==> !Unresolved(insns[i])
    ensures forall i :: 0 <= i < insns.Length ==> Pushes(mirror, pool, insns[i]) == Pushes(mirror, pool, old(insns[i]))
    ensures insns[..] == ResolveAll(mirror, pool, old(insns[..]))
  {
    hide Resolve, Unresolved, InPool, Pushes;
    for i := 0 to insns.Length
      invariant forall j :: 0 <= j < i && !Unresolved(old(insns[j])) ==> insns[j] == old(insns[j])
      invariant forall j :: 0 <= j < i && InPool(pool, old(insns[j])) ==> !Unresolved(insns[j])
      invariant forall j :: 0 <= j < i ==> Pushes(mirror, pool, insns[j]) == Pushes(mirror, pool, old(insns[j]))
      invariant forall j :: 0 <= j < i ==> insns[j] == Resolve(mirror, pool, old(insns[j]))
      invariant forall j :: i <= j < insns.Length ==> insns[j] == old(insns[j])
    {
      insns[i] := ResolveInsn(mirror, pool, insns[i]);
    }
  }

  lemma ResolvedInsn(mirror: nat -> Word, pool: seq<Const>, insn: Insn)
    ensures var r := Resolve(mirror, pool, insn);
            && (!Unresolved(insn) ==> r == insn)
            && (InPool(pool, insn) ==> !Unresolved(r))
            && Pushes(mirror, pool, r) == Pushes(mirror, pool, insn)
  {
  }

  lemma DecodedInPool(s: Source, pc: nat, it: Item)
    requires pc < |s.code| && DecodeAt(s, pc) == Some(it)
    ensures InPool(s.pool, it.insn)
  {
    hide LookupAt, TableAt, ZeroPad;
    if s.code[pc] == LOOKUPSWITCH {
      LookupSize(s, pc, it);
    } else if s.code[pc] == TABLESWITCH {
      TableSize(s, pc, it);
    }
  }

  /** In a method the parser has accepted, resolution leaves no constant to be looked up,
      changes nothing that is pushed, and touches no other instruction. */
  lemma ResolvedMethod(mirror: nat -> Word, s: Source, traps: seq<Trap>, parsed: Parsed, i: nat)
    requires ParseCode(s, traps) == Some(parsed) && i < |parsed.insns|
    ensures |ResolveAll(mirror, s.pool, parsed.insns)| == |parsed.insns|
    ensures var insn, r := parsed.insns[i], ResolveAll(mirror, s.pool, parsed.insns)[i];
            && !Unresolved(r) && Pushes(mirror, s.pool, r) == Pushes(mirror, s.pool, insn)
            && (Unresolved(insn) ==> Pushes(mirror, s.pool, insn).Some?) && (!Unresolved(insn) ==> r == insn)
  {
    hide Resolve, DecodeAt, ParseCode, MapInsn, Unresolved, Pushes, InPool;
    var items := ParseKnows(s, traps, parsed);
    var it := items[i];
    assert DecodeAt(s, it.off) == Some(it) && MapInsn(items, it.insn) == Some(parsed.insns[i]);
    DecodedInPool(s, it.off, it);
    MappedInPool(s, items, it.insn, parsed.insns[i]);
    ResolvedInsn(mirror, s.pool, parsed.insns[i]);
    PushesSomething(mirror, s.pool, parsed.insns[i]);
  }

  lemma MappedInPool(s: Source, items: seq<Item>, insn: Insn, mapped: Insn)
    requires InPool(s.pool, insn) && MapInsn(items, insn) == Some(mapped)
    ensures InPool(s.pool, mapped)
  {
  }

  lemma PushesSomething(mirror: nat -> Word, pool: seq<Const>, insn: Insn)
    requires InPool(pool, insn)
    ensures Unresolved(insn) ==> Pushes(mirror, pool, insn).Some?
  {
  }
}
