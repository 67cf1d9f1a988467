/** The interpreter loop as it works: locals and operand stack share one array of words. */
module Interp {
  import opened Options
  import opened JavaFrame
  import opened Bytecode
  import opened ByteMachine
  import opened InsnMachine

  /** What an instruction asks of the loop. */
  datatype Signal<W> = Jump(pc: int, w: W) | Raised(e: Word, w: W) | Returned(value: seq<Word>, w: W) | Broken

  // The words of a frame after rearranging the top of its operand stack

  lemma DupX2Words(a: seq<Word>, b: seq<Word>, m: nat, p: nat)
    requires |a| == |b| && m + 3 <= p && p + 1 <= |b|
    requires forall i :: 0 <= i < p - 3 ==> b[i] == a[i]
    requires b[p - 3] == a[p - 1] && b[p - 2] == a[p - 3] && b[p - 1] == a[p - 2] && b[p] == a[p - 1]
    ensures b[m..p + 1] == Shuffled(0x5b, a[m..p]) && b[..m] == a[..m]
  {
  }

  lemma Dup2X1Words(a: seq<Word>, b: seq<Word>, m: nat, p: nat)
    requires |a| == |b| && m + 3 <= p && p + 2 <= |b|
    requires forall i :: 0 <= i < p - 3 ==> b[i] == a[i]
    requires b[p - 3] == a[p - 2] && b[p - 2] == a[p - 1] && b[p - 1] == a[p - 3] && b[p] == a[p - 2] && b[p + 1] == a[p - 1]
    ensures b[m..p + 2] == Shuffled(0x5d, a[m..p]) && b[..m] == a[..m]
  {
  }

  lemma Dup2X2Words(a: seq<Word>, b: seq<Word>, m: nat, p: nat)
    requires |a| == |b| && m + 4 <= p && p + 2 <= |b|
    requires forall i :: 0 <= i < p - 4 ==> b[i] == a[i]
    requires b[p - 4] == a[p - 2] && b[p - 3] == a[p - 1] && b[p - 2] == a[p - 4] && b[p - 1] == a[p - 3] && b[p] == a[p - 2] && b[p + 1] == a[p - 1]
    ensures b[m..p + 2] == Shuffled(0x5e, a[m..p]) && b[..m] == a[..m]
  {
  }

  lemma BasicUnary<W>(m: World<W>, op: Byte, f: Frame, w: W)
    requires Unary(op)
    ensures var s, n := f.stack, |f.stack|;
            Basic(m, op, f, w) == if n < 1 then Wrong else WithStack(f, s[..n - 1] + [Convert(op, s[n - 1])], w)
  {
  }

  lemma BasicBinary<W>(m: World<W>, op: Byte, f: Frame, w: W)
    requires Binary(op)
    ensures var s, n := f.stack, |f.stack|;
            Basic(m, op, f, w) ==
              if n < 2 then Wrong
              else if (op == 0x6c || op == 0x70) && s[n - 1] == 0 then JavaFrame.Fail(m, Failure.Arithmetic, w)
              else WithStack(f, s[..n - 2] + [Arithmetic2(op, s[n - 2], s[n - 1])], w)
  {
  }

  lemma StoredWords(a: seq<Word>, b: seq<Word>, m: nat, p: nat, i: nat, k: nat)
    requires |a| == |b| && 1 <= k <= 2 && i + k <= m && m + k <= p <= |a|
    requires b[i] == a[p - k] && (k == 2 ==> b[i + 1] == a[p - 1])
    requires forall j :: 0 <= j < p && !(i <= j < i + k) ==> b[j] == a[j]
    ensures b[..m] == a[..m][..i] + a[m..p][p - m - k..] + a[..m][i + k..]
    ensures b[m..p - k] == a[m..p][..p - m - k]
  {
  }

  lemma Below(a: seq<Word>, b: seq<Word>, m: nat, p: nat, k: nat)
    requires |a| == |b| && m + k <= p <= |a|
    requires forall i :: 0 <= i < p - k ==> b[i] == a[i]
    ensures b[..m] == a[..m] && b[m..p - k] == a[m..p][..p - m - k]
  {
  }

  class Activation {
    const maxLocals: nat
    const words: array<Word>
    var sp: nat

    ghost predicate Valid()
      reads this
    {
      maxLocals <= sp <= words.Length
    }

    function View(): (f: Frame)
      requires Valid()
      reads this, words
    {
      Frame(words[..maxLocals], words[maxLocals..sp], words.Length - maxLocals)
    }

    constructor (locals: seq<Word>, maxStack: nat)
      ensures Valid() && fresh(words) && View() == Frame(locals, [], maxStack)
    {
      maxLocals := |locals|;
      words := new Word[|locals| + maxStack](i => if 0 <= i < |locals| then locals[i] else 0);
      sp := |locals|;
      new;
      assert words[..maxLocals] == locals;
    }

    // STACKI(i) is words[sp + i]

    method Pop(n: nat)
      requires Valid() && maxLocals + n <= sp
      modifies this`sp
      ensures Valid() && sp == old(sp) - n && View() == old(View()).(stack := old(View()).stack[..|old(View()).stack| - n])
    {
      sp := sp - n;
      assert words[maxLocals..sp] == old(words[maxLocals..sp])[..old(sp) - maxLocals - n];
    }

    method PushWord(v: Word)
      requires Valid() && sp < words.Length
      modifies this`sp, words
      ensures Valid() && sp == old(sp) + 1 && View() == old(View()).(stack := old(View()).stack + [v])
    {
      words[sp] := v;
      sp := sp + 1;
    }

    method Dup()
      requires Valid() && maxLocals + 1 <= sp < words.Length
      modifies this`sp, words
      ensures Valid() && View() == old(View()).(stack := Shuffled(0x59, old(View()).stack))
    {
      words[sp] := words[sp - 1];
      sp := sp + 1;
    }

    method DupX1()
      requires Valid() && maxLocals + 2 <= sp < words.Length
      modifies this`sp, words
      ensures Valid() && View() == old(View()).(stack := Shuffled(0x5a, old(View()).stack))
    {
      words[sp] := words[sp - 1];
      words[sp - 1] := words[sp - 2];
      words[sp - 2] := words[sp];
      sp := sp + 1;
      assert View().stack == Shuffled(0x5a, old(View()).stack);
    }

    method DupX2()
      requires Valid() && maxLocals + 3 <= sp < words.Length
      modifies this`sp, words
      ensures Valid() && View() == old(View()).(stack := Shuffled(0x5b, old(View()).stack))
    {
      words[sp] := words[sp - 1];
      words[sp - 1] := words[sp - 2];
      words[sp - 2] := words[sp - 3];
      words[sp - 3] := words[sp];
      sp := sp + 1;
      DupX2Words(old(words[..]), words[..], maxLocals, old(sp));
    }

    method Dup2()
      requires Valid() && maxLocals + 2 <= sp < words.Length - 1
      modifies this`sp, words
      ensures Valid() && View() == old(View()).(stack := Shuffled(0x5c, old(View()).stack))
    {
      words[sp + 1] := words[sp - 1];
      words[sp] := words[sp - 2];
      sp := sp + 2;
      assert View().stack == Shuffled(0x5c, old(View()).stack);
    }

    method Dup2X1()
      requires Valid() && maxLocals + 3 <= sp < words.Length - 1
      modifies this`sp, words
      ensures Valid() && View() == old(View()).(stack := Shuffled(0x5d, old(View()).stack))
    {
      words[sp + 1] := words[sp - 1];
      words[sp] := words[sp - 2];
      words[sp - 1] := words[sp - 3];
      words[sp - 2] := words[sp + 1];
      words[sp - 3] := words[sp];
      sp := sp + 2;
      Dup2X1Words(old(words[..]), words[..], maxLocals, old(sp));
    }

    method Dup2X2()
      requires Valid() && maxLocals + 4 <= sp < words.Length - 1
      modifies this`sp, words
      ensures Valid() && View() == old(View()).(stack := Shuffled(0x5e, old(View()).stack))
    {
      words[sp + 1] := words[sp - 1];
      words[sp] := words[sp - 2];
      words[sp - 1] := words[sp - 3];
      words[sp - 2] := words[sp - 4];
      words[sp - 3] := words[sp + 1];
      words[sp - 4] := words[sp];
      sp := sp + 2;
      Dup2X2Words(old(words[..]), words[..], maxLocals, old(sp));
    }

    method Swap()
      requires Valid() && maxLocals + 2 <= sp
      modifies words
      ensures View() == old(View()).(stack := Shuffled(0x5f, old(View()).stack))
    {
      var temp := words[sp - 2];
      words[sp - 2] := words[sp - 1];
      words[sp - 1] := temp;
      assert View().stack == Shuffled(0x5f, old(View()).stack);
    }

    method Shuffling(op: Byte) returns (ok: bool)
      requires Valid() && Shuffle(op)
      modifies this`sp, words
      ensures Valid()
      ensures ok <==> |old(View()).stack| >= Needs(op) && |Shuffled(op, old(View()).stack)| <= old(View()).limit
      ensures ok ==> View() == old(View()).(stack := Shuffled(op, old(View()).stack))
    {
      var n, room := sp - maxLocals, words.Length - sp;
      var grows := if op in {0x57, 0x58, 0x5f} then 0 else if op >= 0x5c then 2 else 1;
      if n < Needs(op) || room < grows { return false; }
      ok := true;
      match op
      case 0x57 => Pop(1);
      case 0x58 => Pop(2);
      case 0x59 => Dup();
      case 0x5a => DupX1();
      case 0x5b => DupX2();
      case 0x5c => Dup2();
      case 0x5d => Dup2X1();
      case 0x5e => Dup2X2();
      case _ => Swap();
    }

    /** The signal and the words left are what `x` says, from frame `f`. */
    ghost predicate Did<W>(x: Flow<W>, sig: Signal<W>, f: Frame)
      reads this, words
    {
      && Valid()
      && match x
         case To(pc, g, w) => sig == Jump(pc, w) && View() == g
         case Ends(Throw(e, w)) => sig == Raised(e, w) && View().locals == f.locals
         case Ends(Return(v, w)) => sig == Returned(v, w)
         case Ends(_) => sig.Broken?
    }

    method Fail<W(!new)>(m: World<W>, k: Failure, w: W) returns (sig: Signal<W>)
      requires Valid()
      ensures Did(Ends(JavaFrame.Fail(m, k, w)), sig, View())
    {
      var (e, w') := m.raise(k, w);
      sig := Raised(e, w');
    }

    method ComputeUnary<W(!new)>(m: World<W>, op: Byte, next: int, w: W) returns (sig: Signal<W>)
      requires Valid() && Unary(op)
      modifies this`sp, words
      ensures Did(Then(Basic(m, op, old(View()), w), next), sig, old(View()))
    {
      BasicUnary(m, op, View(), w);
      hide Convert, Basic;
      if sp < maxLocals + 1 { return Broken; }
      var a := words[sp - 1];
      Pop(1);
      PushWord(Convert(op, a));
      sig := Jump(next, w);
    }

    method ComputeBinary<W(!new)>(m: World<W>, op: Byte, next: int, w: W) returns (sig: Signal<W>)
      requires Valid() && Binary(op)
      modifies this`sp, words
      ensures Did(Then(Basic(m, op, old(View()), w), next), sig, old(View()))
    {
      ghost var f := View();
      BasicBinary(m, op, f, w);
      hide Arithmetic2, Basic, Binary;
      if sp < maxLocals + 2 { return Broken; }
      var a, b := words[sp - 2], words[sp - 1];
      assert a == f.stack[|f.stack| - 2] && b == f.stack[|f.stack| - 1];
      Pop(2);
      if (op == 0x6c || op == 0x70) && b == 0 {
        sig := Fail(m, Failure.Arithmetic, w);
        return;
      }
      PushWord(Arithmetic2(op, a, b));
      assert View() == f.(stack := f.stack[..|f.stack| - 2] + [Arithmetic2(op, a, b)]);
      assert Basic(m, op, f, w) == Normal(View(), w);
      sig := Jump(next, w);
    }

    method LeaveMethod<W(!new)>(m: World<W>, op: Byte, w: W) returns (sig: Signal<W>)
      requires Valid() && 0xac <= op <= 0xb1
      ensures Did(Then(Basic(m, op, View(), w), 0), sig, View())
    {
      hide Bits, Arithmetic2, Convert, Shuffled, Needs;
      var k := Returns(op);
      if sp < maxLocals + k { return Broken; }
      assert View().stack[|View().stack| - k..] == words[sp - k..sp];
      sig := Returned(words[sp - k..sp], w);
    }

    method ThrowTop<W(!new)>(m: World<W>, w: W) returns (sig: Signal<W>)
      requires Valid()
      ensures Did(Then(Basic(m, 0xbf, View(), w), 0), sig, View())
    {
      hide Bits, Arithmetic2, Convert, Shuffled, Needs;
      if sp < maxLocals + 1 { return Broken; }
      assert View().stack[|View().stack| - 1] == words[sp - 1];
      if words[sp - 1] == 0 {
        sig := Fail(m, NullPointer, w);
      } else {
        sig := Raised(words[sp - 1], w);
      }
    }

    /** Put a frame handed back by the rest of the virtual machine into the words. */
    method Install(f: Frame)
      requires Valid() && |f.locals| == maxLocals && |f.stack| <= words.Length - maxLocals == f.limit
      modifies this`sp, words
      ensures Valid() && View() == f
    {
      var all := f.locals + f.stack;
      sp := |all|;
      for i := 0 to |all|
        invariant sp == |all| && words[..i] == all[..i]
      {
        words[i] := all[i];
      }
      assert words[..sp] == all;
      assert words[..maxLocals] == all[..maxLocals] == f.locals;
      assert words[maxLocals..sp] == all[maxLocals..] == f.stack;
    }

    method External<W(!new)>(m: World<W>, op: Byte, arg: nat, next: int, w: W) returns (sig: Signal<W>)
      requires Valid() && Keeps(m)
      modifies this`sp, words
      ensures Did(Then(m.ext(op, arg, old(View()), w), next), sig, old(View()))
    {
      match m.ext(op, arg, View(), w)
      case Normal(f, w') =>
        Install(f);
        sig := Jump(next, w');
      case Throw(e, w') => sig := Raised(e, w');
      case Return(v, w') => sig := Returned(v, w');
      case Wrong => sig := Broken;
    }

    method ExecBasic<W(!new)>(m: World<W>, op: Byte, next: int, w: W) returns (sig: Signal<W>)
      requires Valid() && Keeps(m)
      modifies this`sp, words
      ensures Did(Then(Basic(m, op, old(View()), w), next), sig, old(View()))
    {
      hide Keeps, Shuffled, Arithmetic2, Convert;
      if op == 0x00 { return Jump(next, w); }
      if Shuffle(op) {
        var ok := Shuffling(op);
        return if ok then Jump(next, w) else Broken;
      }
      if Binary(op) { sig := ComputeBinary(m, op, next, w); }
      else if Unary(op) { sig := ComputeUnary(m, op, next, w); }
      else if 0xac <= op <= 0xb1 { sig := LeaveMethod(m, op, w); }
      else if op == 0xbf { sig := ThrowTop(m, w); }
      else { sig := External(m, op, 0, next, w); }
    }

    method PushSome<W>(v: seq<Word>, next: int, w: W) returns (sig: Signal<W>)
      requires Valid() && |v| <= 2
      modifies this`sp, words
      ensures Did(Then(Push(old(View()), v, w), next), sig, old(View()))
    {
      if words.Length - sp < |v| { return Broken; }
      if |v| > 0 { PushWord(v[0]); }
      if |v| > 1 { PushWord(v[1]); }
      assert View().stack == old(View()).stack + v;
      sig := Jump(next, w);
    }

    method LoadLocal<W>(kind: nat, i: nat, next: int, w: W) returns (sig: Signal<W>)
      requires Valid()
      modifies this`sp, words
      ensures Did(Then(Load(kind, i, old(View()), w), next), sig, old(View()))
    {
      if i + Width(kind) > maxLocals { return Broken; }
      assert words[..maxLocals][i..i + Width(kind)] == words[i..i + Width(kind)];
      sig := PushSome(words[i..i + Width(kind)], next, w);
    }

    method StoreLocal<W>(kind: nat, i: nat, next: int, w: W) returns (sig: Signal<W>)
      requires Valid()
      modifies this`sp, words
      ensures Did(Then(Store(kind, i, old(View()), w), next), sig, old(View()))
    {
      var k := Width(kind);
      if i + k > maxLocals || sp < maxLocals + k { return Broken; }
      Pop(k);
      words[i] := words[sp];
      if k == 2 { words[i + 1] := words[sp + 1]; }
      StoredWords(old(words[..]), words[..], maxLocals, old(sp), i, k);
      sig := Jump(next, w);
    }

    method BumpLocal<W>(i: nat, v: Word, next: int, w: W) returns (sig: Signal<W>)
      requires Valid()
      modifies words
      ensures Did(Then(Bump(i, v, old(View()), w), next), sig, old(View()))
    {
      if i >= maxLocals { return Broken; }
      words[i] := Wrap(words[i] + v);
      sig := Jump(next, w);
    }

    method Branch<W>(op: Byte, target: int, next: int, w: W) returns (sig: Signal<W>)
      requires Valid() && Branches(op)
      modifies this`sp
      ensures Did(Branching(op, target, next, old(View()), w), sig, old(View()))
    {
      hide Compare;
      if op == 0xa7 { return Jump(target, w); }
      if op <= 0x9e || op >= 0xc6 {
        if sp < maxLocals + 1 { return Broken; }
        Pop(1);
        var k := if op >= 0xc6 then op - 0xc6 else op - 0x99;
        return Jump(if Compare(k, words[sp], 0) then target else next, w);
      }
      if sp < maxLocals + 2 { return Broken; }
      Pop(2);
      var k := if op >= 0xa5 then op - 0xa5 else op - 0x9f;
      sig := Jump(if Compare(k, words[sp], words[sp + 1]) then target else next, w);
    }

    method Switch<W>(insn: Insn, w: W) returns (sig: Signal<W>)
      requires Valid() && (insn.Lookup? || insn.Table?)
      modifies this`sp
      ensures Did(Switched(insn, old(View()), w), sig, old(View()))
    {
      hide Chosen;
      if sp < maxLocals + 1 { return Broken; }
      Pop(1);
      sig := Jump(Chosen(insn, words[sp]), w);
    }

    method ExecPlainly<W(!new)>(m: World<W>, insn: Insn, next: int, w: W) returns (sig: Signal<W>)
      requires Valid() && Keeps(m) && !insn.Branch? && !insn.Lookup? && !insn.Table?
      modifies this`sp, words
      ensures Did(Then(ExecPlain(m, insn, old(View()), w), next), sig, old(View()))
    {
      hide Keeps, Load, Store, JavaFrame.Bump, Push, Basic;
      match insn
      case Plain(op) => if op > 0xc9 { sig := Broken; } else { sig := ExecBasic(m, op, next, w); }
      case Local(op, i) =>
        if 0x15 <= op <= 0x19 { sig := LoadLocal(op - 0x15, i, next, w); }
        else if 0x36 <= op <= 0x3a { sig := StoreLocal(op - 0x36, i, next, w); }
        else { sig := Broken; }
      case Increment(i, v) => sig := BumpLocal(i, v, next, w);
      case Member(op, cp) => sig := External(m, op, cp, next, w);
      case MultiArray(cp, dims) => sig := External(m, MULTIANEWARRAY, cp * 0x100 + dims, next, w);
      case NewArray(kind) => sig := External(m, NEWARRAY, kind, next, w);
      case PushWord(v) => sig := PushSome([v], next, w);
      case PushWords(a, b) => sig := PushSome([a, b], next, w);
      case PushText(s) => sig := PushSome([m.intern(s)], next, w);
      case _ => sig := Broken;
    }

    method ExecInsn<W(!new)>(m: World<W>, insn: Insn, next: int, w: W) returns (sig: Signal<W>)
      requires Valid() && Keeps(m)
      modifies this`sp, words
      ensures Did(Exec(m, insn, next, old(View()), w), sig, old(View()))
    {
      hide Keeps, ExecPlain, Branching, Switched;
      if insn.Branch? {
        if Branches(insn.op) { sig := Branch(insn.op, insn.target, next, w); } else { sig := Broken; }
      } else if insn.Lookup? || insn.Table? {
        sig := Switch(insn, w);
      } else {
        sig := ExecPlainly(m, insn, next, w);
      }
    }
  }

  /** The rest of the virtual machine leaves the size of a frame alone. */
  ghost predicate Keeps<W(!new)>(m: World<W>) {
    forall op, arg, f, w :: m.ext(op, arg, f, w).Normal? ==>
      var g := m.ext(op, arg, f, w).f; |g.locals| == |f.locals| && g.limit == f.limit && |g.stack| <= g.limit
  }

  // ---------------------------------------------------------------------------
  // The dispatch loop

  /** The first covering trap entry that catches the exception. */
  method FindHandler<W>(m: World<W>, traps: seq<Trap>, pc: int, e: Word) returns (h: Option<int>)
    ensures h == Handler(m, traps, pc, e)
  {
    var i := 0;
    while i < |traps|
      invariant i <= |traps| && Handler(m, traps, pc, e) == Handler(m, traps[i..], pc, e)
    {
      assert traps[i..][0] == traps[i] && traps[i..][1..] == traps[i + 1..];
      if Covers(m, traps[i], pc, e) { return Some(traps[i].target); }
      i := i + 1;
    }
    h := None;
  }

  /** One dispatch: run the instruction at `pc`, or find the handler of what it throws. */
  method Dispatch<W(!new)>(m: World<W>, a: Activation, insn: Insn, traps: seq<Trap>, pc: int, w: W)
      returns (r: State<W>)
    requires a.Valid() && Keeps(m)
    modifies a`sp, a.words
    ensures a.Valid() && r == Settle(m, traps, pc, old(a.View()), Exec(m, insn, pc + 1, old(a.View()), w))
    ensures r.Running? ==> r.f == a.View()
  {
    hide Exec, Keeps, Handler;
    ghost var f := a.View();
    var sig := a.ExecInsn(m, insn, pc + 1, w);
    match sig
    case Jump(to, w') => r := Running(to, a.View(), w');
    case Returned(v, w') => r := Finished(v, w');
    case Broken => r := Stuck;
    case Raised(e, w') =>
      var h := FindHandler(m, traps, pc, e);
      if h.None? { return Uncaught(e, w'); }
      if a.words.Length == a.maxLocals { return Stuck; }
      a.sp := a.maxLocals;
      assert a.View() == f.(stack := []);
      a.PushWord(e);
      assert a.View() == f.(stack := [e]);
      r := Running(h.value, a.View(), w');
  }

  /** Run the method for `n` dispatches, rewriting string constants on the way. */
  method Interpret<W(!new)>(m: World<W>, code: array<Insn>, traps: seq<Trap>, locals: seq<Word>, maxStack: nat, w: W, n: nat)
      returns (r: State<W>)
    requires Keeps(m)
    modifies code
    ensures (code[..], r) == InsnRun(m, old(code[..]), traps, Running(0, Frame(locals, [], maxStack), w), n)
  {
    hide Keeps, Exec, Settle;
    var a := new Activation(locals, maxStack);
    r := Running(0, a.View(), w);
    var i := 0;
    ghost var start, code0 := r, code[..];
    while i < n && r.Running?
      invariant 0 <= i <= n && fresh(a) && fresh(a.words) && a.Valid()
      invariant r.Running? ==> r.f == a.View()
      invariant InsnRun(m, code0, traps, start, n) == InsnRun(m, code[..], traps, r, n - i)
    {
      var pc := r.pc;
      ghost var before := code[..];
      if !(0 <= pc < code.Length) {
        r := Stuck;
      } else if code[pc].PushText? {
        code[pc] := PushWord(m.intern(code[pc].s));
        assert code[..] == before[pc := code[pc]];
      } else {
        r := Dispatch(m, a, code[pc], traps, pc, r.w);
      }
      i := i + 1;
    }
    if !r.Running? { EndedRun(m, code[..], traps, r, n - i); }
  }
}
