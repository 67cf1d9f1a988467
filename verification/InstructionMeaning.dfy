/**
 What each instruction does to the interpreter's frame, opcode by opcode, in the terms of
 chapter 6 of the Java Virtual Machine Specification, 2nd edition.
 */
module InstructionMeaning {
  import opened Options
  import opened JavaFrame
  import opened Bytecode
  import opened ByteMachine
  import opened InsnMachine
  import opened WordArithmetic
  import opened Products

  /** The frame with another operand stack. */
  function On(f: Frame, s: seq<Word>): Frame {
    f.(stack := s)
  }

  function Jumped<W>(taken: bool, t: int, next: int, f: Frame, w: W): Flow<W> {
    To(if taken then t else next, f, w)
  }

  // ---------------------------------------------------------------------------
  // Branches

  /** One word decides, compared with zero or with null. */
  lemma OneWordBranches<W>(m: World<W>, t: int, next: int, f: Frame, w: W)
    requires f.stack != []
    ensures var n := |f.stack|;
            var a, g := f.stack[n - 1], On(f, f.stack[..n - 1]);
            && Exec(m, Branch(0x99, t), next, f, w) == Jumped(a == 0, t, next, g, w)    // ifeq
            && Exec(m, Branch(0x9a, t), next, f, w) == Jumped(a != 0, t, next, g, w)    // ifne
            && Exec(m, Branch(0x9b, t), next, f, w) == Jumped(a < 0, t, next, g, w)     // iflt
            && Exec(m, Branch(0x9c, t), next, f, w) == Jumped(a >= 0, t, next, g, w)    // ifge
            && Exec(m, Branch(0x9d, t), next, f, w) == Jumped(a > 0, t, next, g, w)     // ifgt
            && Exec(m, Branch(0x9e, t), next, f, w) == Jumped(a <= 0, t, next, g, w)    // ifle
            && Exec(m, Branch(0xc6, t), next, f, w) == Jumped(a == 0, t, next, g, w)    // ifnull
            && Exec(m, Branch(0xc7, t), next, f, w) == Jumped(a != 0, t, next, g, w)    // ifnonnull
  {
  }

  /** Two words are compared, the lower one in the stack on the left. */
  lemma TwoWordBranches<W>(m: World<W>, t: int, next: int, f: Frame, w: W)
    requires |f.stack| >= 2
    ensures var n := |f.stack|;
            var a, b, g := f.stack[n - 2], f.stack[n - 1], On(f, f.stack[..n - 2]);
            && Exec(m, Branch(0x9f, t), next, f, w) == Jumped(a == b, t, next, g, w)    // if_icmpeq
            && Exec(m, Branch(0xa0, t), next, f, w) == Jumped(a != b, t, next, g, w)    // if_icmpne
            && Exec(m, Branch(0xa1, t), next, f, w) == Jumped(a < b, t, next, g, w)     // if_icmplt
            && Exec(m, Branch(0xa2, t), next, f, w) == Jumped(a >= b, t, next, g, w)    // if_icmpge
            && Exec(m, Branch(0xa3, t), next, f, w) == Jumped(a > b, t, next, g, w)     // if_icmpgt
            && Exec(m, Branch(0xa4, t), next, f, w) == Jumped(a <= b, t, next, g, w)    // if_icmple
            && Exec(m, Branch(0xa5, t), next, f, w) == Jumped(a == b, t, next, g, w)    // if_acmpeq
            && Exec(m, Branch(0xa6, t), next, f, w) == Jumped(a != b, t, next, g, w)    // if_acmpne
  {
  }

  /** goto always jumps; a branch without its words on the stack is stuck. */
  lemma OtherBranches<W>(m: World<W>, op: Byte, t: int, next: int, f: Frame, w: W)
    ensures Exec(m, Branch(0xa7, t), next, f, w) == To(t, f, w)
    ensures f.stack == [] && (0x99 <= op <= 0xa6 || op == 0xc6 || op == 0xc7) ==>
              Exec(m, Branch(op, t), next, f, w) == Ends(Wrong)
    ensures |f.stack| == 1 && 0x9f <= op <= 0xa6 ==> Exec(m, Branch(op, t), next, f, w) == Ends(Wrong)
  {
  }

  /** The key of a switch is popped and decides where to go. */
  lemma TableMeans<W>(m: World<W>, lo: Word, hi: Word, d: int, ts: seq<int>, next: int, f: Frame, w: W)
    requires f.stack != [] && |ts| == hi - lo + 1
    ensures var n := |f.stack|;
            var key := f.stack[n - 1];
            Exec(m, Table(lo, hi, d, ts), next, f, w) ==
              To(if lo <= key && key <= hi then ts[key - lo] else d, On(f, f.stack[..n - 1]), w)
  {
  }

  lemma {:induction false} BSearchFinds(ps: seq<Pair>, key: int, lo: nat, hi: nat)
    requires lo <= hi <= |ps| && forall i, j :: 0 <= i < j < |ps| ==> ps[i].key < ps[j].key
    ensures match BSearch(ps, key, lo, hi)
            case None => forall i :: lo <= i < hi ==> ps[i].key != key
            case Some(t) => exists i :: lo <= i < hi && ps[i].key == key && ps[i].target == t
    decreases hi - lo
  {
    if lo < hi {
      var mid := (lo + hi) / 2;
      if key < ps[mid].key {
        BSearchFinds(ps, key, lo, mid);
      } else if key > ps[mid].key {
        BSearchFinds(ps, key, mid + 1, hi);
      }
    }
  }

  lemma LookupMeans<W>(m: World<W>, d: int, ps: seq<Pair>, next: int, f: Frame, w: W)
    requires f.stack != [] && forall i, j :: 0 <= i < j < |ps| ==> ps[i].key < ps[j].key
    ensures var n := |f.stack|;
            var key, x := f.stack[n - 1], Exec(m, Lookup(d, ps), next, f, w);
            && x.To? && x.f == On(f, f.stack[..n - 1]) && x.w == w
            && (forall i :: 0 <= i < |ps| && ps[i].key == key ==> x.pc == ps[i].target)
            && ((forall i :: 0 <= i < |ps| ==> ps[i].key != key) ==> x.pc == d)
  {
    BSearchFinds(ps, f.stack[|f.stack| - 1], 0, |ps|);
  }

  // ---------------------------------------------------------------------------
  // Arithmetic

  predicate Congruent(x: int, y: int) {
    (x - y) % MODULUS == 0
  }

  /** `r` is what a binary instruction makes of `a` below `b`. */
  ghost predicate Binary2(op: Byte, a: Word, b: Word, r: Word) {
    && (op == 0x60 ==> Congruent(r, a + b))                                   // iadd
    && (op == 0x64 ==> Congruent(r, a - b))                                   // isub
    && (op == 0x68 ==> Congruent(r, a * b))                                   // imul
    && (op == 0x6c && !(a == MIN_WORD && b == -1) ==> IsRemainder(a - b * r, a, b))  // idiv
    && (op == 0x6c && a == MIN_WORD && b == -1 ==> r == MIN_WORD)
    && (op == 0x70 ==> IsRemainder(r, a, b) && exists q :: a == b * q + r)    // irem
    && (op == 0x78 ==> Congruent(r, a * Power2(b % 32)))                      // ishl
    && (op == 0x7a ==> r * Power2(b % 32) <= a < (r + 1) * Power2(b % 32))    // ishr
    && (op == 0x7c ==> r == LogicalShift(a, b % 32))                          // iushr
    && (op == 0x7e ==> forall k: nat :: k < 32 ==> (Bit(r, k) == 1 <==> Bit(a, k) == 1 && Bit(b, k) == 1))  // iand
    && (op == 0x80 ==> forall k: nat :: k < 32 ==> (Bit(r, k) == 1 <==> Bit(a, k) == 1 || Bit(b, k) == 1))  // ior
    && (op == 0x82 ==> forall k: nat :: k < 32 ==> (Bit(r, k) == 1 <==> Bit(a, k) != Bit(b, k)))            // ixor
  }

  /** Shifting a negative word adds the high bits it loses. */
  function LogicalShift(a: Word, n: nat): int
    requires n < 32
  {
    a / Power2(n) + if a < 0 && n > 0 then Power2(32 - n) else 0
  }

  predicate BinaryOp(op: Byte) {
    op in {0x60, 0x64, 0x68, 0x6c, 0x70, 0x78, 0x7a, 0x7c, 0x7e, 0x80, 0x82}
  }

  lemma SumsExact(a: Word, b: Word)
    ensures Binary2(0x60, a, b, Arithmetic2(0x60, a, b)) && Binary2(0x64, a, b, Arithmetic2(0x64, a, b))
    ensures Binary2(0x68, a, b, Arithmetic2(0x68, a, b))
  {
    WrappedCongruent(a + b);
    WrappedCongruent(a - b);
    WrappedCongruent(a * b);
    hide Wrap, Congruent;
  }

  lemma WrappedCongruent(x: int)
    ensures Congruent(Wrap(x), x)
  {
  }

  lemma QuotientsExact(a: Word, b: Word)
    requires b != 0
    ensures Binary2(0x6c, a, b, Arithmetic2(0x6c, a, b)) && Binary2(0x70, a, b, Arithmetic2(0x70, a, b))
  {
    DivisionExact(a, b);
    hide Arithmetic2;
    if a == MIN_WORD && b == -1 {
      assert a == b * 0x8000_0000 + 0;
    }
  }

  lemma LeftShift(a: Word, b: Word)
    ensures Binary2(0x78, a, b, Arithmetic2(0x78, a, b))
  {
    ShiftsExact(a, b);
    hide Arithmetic2, Power2;
  }

  lemma RightShift(a: Word, b: Word)
    ensures Binary2(0x7a, a, b, Arithmetic2(0x7a, a, b))
  {
    ShiftsExact(a, b);
    hide Arithmetic2, Power2;
    Sum(Arithmetic2(0x7a, a, b), 1, Power2(b % 32));
  }

  lemma UnsignedShift(a: Word, b: Word)
    ensures Binary2(0x7c, a, b, Arithmetic2(0x7c, a, b))
  {
    ShiftUnsigned(a, b);
    hide Arithmetic2, Power2;
  }

  lemma BitwiseExact(a: Word, b: Word)
    ensures Binary2(0x7e, a, b, Arithmetic2(0x7e, a, b)) && Binary2(0x80, a, b, Arithmetic2(0x80, a, b))
    ensures Binary2(0x82, a, b, Arithmetic2(0x82, a, b))
  {
    hide Bit, Bits;
    forall k: nat | k < 32
      ensures Bit(Bits(0x7e, a, b), k) == 1 <==> Bit(a, k) == 1 && Bit(b, k) == 1
      ensures Bit(Bits(0x80, a, b), k) == 1 <==> Bit(a, k) == 1 || Bit(b, k) == 1
      ensures Bit(Bits(0x82, a, b), k) == 1 <==> Bit(a, k) != Bit(b, k)
    {
      BitsExact(a, b, k);
    }
  }

  lemma BinaryExact(op: Byte, a: Word, b: Word)
    requires BinaryOp(op) && (op == 0x6c || op == 0x70 ==> b != 0)
    ensures Binary2(op, a, b, Arithmetic2(op, a, b))
  {
    hide Binary2, Arithmetic2;
    if op == 0x60 || op == 0x64 || op == 0x68 { SumsExact(a, b); }
    else if op == 0x6c || op == 0x70 { QuotientsExact(a, b); }
    else if op == 0x78 { LeftShift(a, b); }
    else if op == 0x7a { RightShift(a, b); }
    else if op == 0x7c { UnsignedShift(a, b); }
    else { BitwiseExact(a, b); }
  }

  /** Two words give way to one; dividing by zero throws. */
  lemma BinaryMeans<W>(m: World<W>, op: Byte, next: int, f: Frame, w: W)
    requires BinaryOp(op) && 2 <= |f.stack| <= f.limit
    ensures var n, x := |f.stack|, Exec(m, Plain(op), next, f, w);
            var a, b := f.stack[n - 2], f.stack[n - 1];
            if (op == 0x6c || op == 0x70) && b == 0 then
              var (e, w') := m.raise(Failure.Arithmetic, w); x == Ends(Throw(e, w'))
            else
              && x.To? && x.pc == next && x.w == w && |x.f.stack| == n - 1
              && x.f == On(f, f.stack[..n - 2] + [x.f.stack[n - 2]]) && Binary2(op, a, b, x.f.stack[n - 2])
  {
    var n := |f.stack|;
    var a, b := f.stack[n - 2], f.stack[n - 1];
    hide Binary2, Arithmetic2;
    if (op == 0x6c || op == 0x70) && b == 0 {
    } else {
      BinaryExact(op, a, b);
      assert Exec(m, Plain(op), next, f, w) == To(next, On(f, f.stack[..n - 2] + [Arithmetic2(op, a, b)]), w);
    }
  }

  /** `r` is what a unary instruction makes of `a`. */
  predicate Unary1(op: Byte, a: Word, r: Word) {
    && (op == 0x74 ==> Congruent(r, 0 - a))                                        // ineg
    && (op == 0x91 ==> -0x80 <= r < 0x80 && (a - r) % 0x100 == 0)                  // i2b
    && (op == 0x92 ==> 0 <= r < 0x1_0000 && (a - r) % 0x1_0000 == 0)               // i2c
    && (op == 0x93 ==> -0x8000 <= r < 0x8000 && (a - r) % 0x1_0000 == 0)           // i2s
  }

  lemma UnaryMeans<W>(m: World<W>, op: Byte, next: int, f: Frame, w: W)
    requires op in {0x74, 0x91, 0x92, 0x93} && 1 <= |f.stack| <= f.limit
    ensures var n, x := |f.stack|, Exec(m, Plain(op), next, f, w);
            && x.To? && x.pc == next && x.w == w && |x.f.stack| == n
            && x.f == On(f, f.stack[..n - 1] + [x.f.stack[n - 1]]) && Unary1(op, f.stack[n - 1], x.f.stack[n - 1])
  {
    var n := |f.stack|;
    var a := f.stack[n - 1];
    ConvertCongruent(op, a);
    hide Convert, Unary1;
    assert Exec(m, Plain(op), next, f, w) == To(next, On(f, f.stack[..n - 1] + [Convert(op, a)]), w);
  }

  lemma ConvertCongruent(op: Byte, a: Word)
    requires op in {0x74, 0x91, 0x92, 0x93}
    ensures Unary1(op, a, Convert(op, a))
  {
    WrappedCongruent(0 - a);
    ConvertExact(a, Convert(op, a));
    ConvertRange(op, a);
    hide Wrap, Congruent;
  }

  lemma ConvertRange(op: Byte, a: Word)
    ensures op == 0x91 ==> -0x80 <= Convert(op, a) < 0x80
    ensures op == 0x92 ==> 0 <= Convert(op, a) < 0x1_0000
    ensures op == 0x93 ==> -0x8000 <= Convert(op, a) < 0x8000
  {
  }

  // ---------------------------------------------------------------------------
  // Locals

  /** Loads push one word, or two for a long or double; stores pop as many. */
  lemma LoadsMean<W>(m: World<W>, op: Byte, i: nat, next: int, f: Frame, w: W)
    requires i < |f.locals| && |f.stack| < f.limit
    ensures op in {0x15, 0x17, 0x19} ==>                                    // iload, fload, aload
              Exec(m, Local(op, i), next, f, w) == To(next, On(f, f.stack + [f.locals[i]]), w)
    ensures op in {0x16, 0x18} && i + 1 < |f.locals| && |f.stack| + 1 < f.limit ==>  // lload, dload
              Exec(m, Local(op, i), next, f, w) == To(next, On(f, f.stack + [f.locals[i], f.locals[i + 1]]), w)
  {
    assert f.locals[i..i + 1] == [f.locals[i]];
    if i + 1 < |f.locals| { assert f.locals[i..i + 2] == [f.locals[i], f.locals[i + 1]]; }
  }

  lemma StoresMean<W>(m: World<W>, op: Byte, i: nat, next: int, f: Frame, w: W)
    requires i < |f.locals| && f.stack != [] && op in {0x36, 0x38, 0x3a}    // istore, fstore, astore
    ensures var n := |f.stack|;
            Exec(m, Local(op, i), next, f, w) ==
              To(next, f.(locals := f.locals[i := f.stack[n - 1]], stack := f.stack[..n - 1]), w)
  {
    var a := f.stack[|f.stack| - 1];
    assert f.stack[|f.stack| - 1..] == [a];
    assert f.locals[..i] + [a] + f.locals[i + 1..] == f.locals[i := a];
  }

  lemma LongStoresMean<W>(m: World<W>, op: Byte, i: nat, next: int, f: Frame, w: W)
    requires i + 1 < |f.locals| && |f.stack| >= 2 && op in {0x37, 0x39}     // lstore, dstore
    ensures var n := |f.stack|;
            Exec(m, Local(op, i), next, f, w) ==
              To(next, f.(locals := f.locals[i := f.stack[n - 2]][i + 1 := f.stack[n - 1]], stack := f.stack[..n - 2]), w)
  {
    var n := |f.stack|;
    var a, b := f.stack[n - 2], f.stack[n - 1];
    assert f.stack[n - 2..] == [a, b];
    TwoStored(f.locals, i, a, b);
  }

  lemma TwoStored(s: seq<Word>, i: nat, a: Word, b: Word)
    requires i + 1 < |s|
    ensures s[..i] + [a, b] + s[i + 2..] == s[i := a][i + 1 := b]
  {
  }

  lemma IncrementMeans<W>(m: World<W>, i: nat, v: Word, next: int, f: Frame, w: W)
    requires i < |f.locals|
    ensures var x := Exec(m, Increment(i, v), next, f, w);
            && x.To? && x.pc == next && x.w == w && |x.f.locals| == |f.locals|
            && x.f == f.(locals := f.locals[i := x.f.locals[i]]) && Congruent(x.f.locals[i], f.locals[i] + v)
  {
    WrappedCongruent(f.locals[i] + v);
    hide Wrap;
  }

  // ---------------------------------------------------------------------------
  // The operand stack

  /** pop, pop2, the dup family and swap, on the words at the top. */
  lemma ShufflesMean<W>(m: World<W>, s: seq<Word>, a: Word, b: Word, c: Word, d: Word, next: int, f: Frame, w: W)
    requires |s| + 6 <= f.limit
    ensures Exec(m, Plain(0x57), next, On(f, s + [a]), w) == To(next, On(f, s), w)                              // pop
    ensures Exec(m, Plain(0x58), next, On(f, s + [a, b]), w) == To(next, On(f, s), w)                           // pop2
    ensures Exec(m, Plain(0x59), next, On(f, s + [a]), w) == To(next, On(f, s + [a, a]), w)                     // dup
    ensures Exec(m, Plain(0x5a), next, On(f, s + [a, b]), w) == To(next, On(f, s + [b, a, b]), w)               // dup_x1
    ensures Exec(m, Plain(0x5b), next, On(f, s + [a, b, c]), w) == To(next, On(f, s + [c, a, b, c]), w)         // dup_x2
    ensures Exec(m, Plain(0x5c), next, On(f, s + [a, b]), w) == To(next, On(f, s + [a, b, a, b]), w)            // dup2
    ensures Exec(m, Plain(0x5d), next, On(f, s + [a, b, c]), w) == To(next, On(f, s + [b, c, a, b, c]), w)      // dup2_x1
    ensures Exec(m, Plain(0x5e), next, On(f, s + [a, b, c, d]), w) == To(next, On(f, s + [c, d, a, b, c, d]), w)  // dup2_x2
    ensures Exec(m, Plain(0x5f), next, On(f, s + [a, b]), w) == To(next, On(f, s + [b, a]), w)                  // swap
  {
    ShuffledWords(s, a, b, c, d);
    hide Shuffled;
  }

  lemma ShuffledWords(s: seq<Word>, a: Word, b: Word, c: Word, d: Word)
    ensures Shuffled(0x57, s + [a]) == s && Shuffled(0x58, s + [a, b]) == s && Shuffled(0x59, s + [a]) == s + [a, a]
    ensures Shuffled(0x5a, s + [a, b]) == s + [b, a, b] && Shuffled(0x5b, s + [a, b, c]) == s + [c, a, b, c]
    ensures Shuffled(0x5c, s + [a, b]) == s + [a, b, a, b] && Shuffled(0x5d, s + [a, b, c]) == s + [b, c, a, b, c]
    ensures Shuffled(0x5e, s + [a, b, c, d]) == s + [c, d, a, b, c, d] && Shuffled(0x5f, s + [a, b]) == s + [b, a]
  {
  }

  /** The constants, once resolved. */
  lemma ConstantsMean<W>(m: World<W>, pool: seq<Const>, op: Byte, v: Word, next: int, f: Frame, w: W)
    requires |f.stack| + 2 <= f.limit
    ensures var x := Exec(m, Resolve(m.mirror, pool, Plain(op)), next, f, w);
            && (op == 0x00 ==> x == To(next, f, w))                                                 // nop
            && (op == 0x01 ==> x == To(next, On(f, f.stack + [0]), w))                              // aconst_null
            && (0x02 <= op <= 0x08 ==> x == To(next, On(f, f.stack + [op - 3]), w))                 // iconst_m1 to iconst_5
            && (op == 0x09 || op == 0x0e ==> x == To(next, On(f, f.stack + [0, 0]), w))             // lconst_0, dconst_0
            && (op == 0x0a ==> x == To(next, On(f, f.stack + [1, 0]), w))                           // lconst_1
            && (op == 0x0b ==> x == To(next, On(f, f.stack + [0]), w))                              // fconst_0
            && (op == 0x0c ==> x == To(next, On(f, f.stack + [0x3f80_0000]), w))                    // fconst_1
            && (op == 0x0d ==> x == To(next, On(f, f.stack + [0x4000_0000]), w))                    // fconst_2
            && (op == 0x0f ==> x == To(next, On(f, f.stack + [0, 0x3ff0_0000]), w))                 // dconst_1
    ensures forall op | op == 0x10 || op == 0x11 ::                                                 // bipush, sipush
              Exec(m, Resolve(m.mirror, pool, Immediate(op, v)), next, f, w) == To(next, On(f, f.stack + [v]), w)
  {
  }

  /** ldc, ldc_w and ldc2_w push what the pool entry stands for. */
  lemma PoolMeans<W>(m: World<W>, pool: seq<Const>, op: Byte, cp: nat, next: int, f: Frame, w: W)
    requires 1 <= cp <= |pool| && |f.stack| + 2 <= f.limit
    ensures var x := Exec(m, Resolve(m.mirror, pool, Constant(op, cp)), next, f, w);
            match pool[cp - 1]
            case Int(v) => x == To(next, On(f, f.stack + [v]), w)
            case Float(v) => x == To(next, On(f, f.stack + [v]), w)
            case Text(s) => x == To(next, On(f, f.stack + [m.intern(s)]), w)
            case Class(id) => x == To(next, On(f, f.stack + [m.mirror(id)]), w)
            case Long(a, b) => x == To(next, On(f, f.stack + [a, b]), w)
            case Double(a, b) => x == To(next, On(f, f.stack + [a, b]), w)
            case _ => true
  {
  }

  // ---------------------------------------------------------------------------
  // Leaving a method

  /** The return instructions hand back one word, two words or none. */
  lemma ReturnMeans<W>(m: World<W>, op: Byte, next: int, f: Frame, w: W)
    requires f.stack != [] && (op == 0xac || op == 0xae || op == 0xb0)      // ireturn, freturn, areturn
    ensures Exec(m, Plain(op), next, f, w) == Ends(Return([f.stack[|f.stack| - 1]], w))
  {
    hide Shuffled, Arithmetic2, Convert;
    assert f.stack[|f.stack| - 1..] == [f.stack[|f.stack| - 1]];
  }

  lemma LongReturnMeans<W>(m: World<W>, op: Byte, next: int, f: Frame, w: W)
    requires |f.stack| >= 2 && (op == 0xad || op == 0xaf)                   // lreturn, dreturn
    ensures var n := |f.stack|;
            Exec(m, Plain(op), next, f, w) == Ends(Return([f.stack[n - 2], f.stack[n - 1]], w))
  {
    hide Shuffled, Arithmetic2, Convert;
    assert f.stack[|f.stack| - 2..] == [f.stack[|f.stack| - 2], f.stack[|f.stack| - 1]];
  }

  lemma VoidReturnMeans<W>(m: World<W>, next: int, f: Frame, w: W)
    ensures Exec(m, Plain(0xb1), next, f, w) == Ends(Return([], w))
  {
    hide Shuffled, Arithmetic2, Convert;
    assert f.stack[|f.stack|..] == [];
  }

  lemma ThrowMeans<W>(m: World<W>, next: int, f: Frame, w: W)
    requires f.stack != []
    ensures var e, x := f.stack[|f.stack| - 1], Exec(m, Plain(0xbf), next, f, w);
            if e != 0 then x == Ends(Throw(e, w))
            else var (e', w') := m.raise(NullPointer, w); x == Ends(Throw(e', w'))
  {
  }

  predicate Handles<W>(m: World<W>, t: Trap, pc: int, e: Word) {
    t.start <= pc && pc < t.end && (t.kind == 0 || m.catches(t.kind, e))
  }

  lemma {:induction false} HandlerFirst<W>(m: World<W>, traps: seq<Trap>, pc: int, e: Word)
    ensures match Handler(m, traps, pc, e)
            case None => forall i :: 0 <= i < |traps| ==> !Handles(m, traps[i], pc, e)
            case Some(h) =>
              exists i :: 0 <= i < |traps| && Handles(m, traps[i], pc, e) && h == traps[i].target
                          && forall j :: 0 <= j < i ==> !Handles(m, traps[j], pc, e)
  {
    if traps != [] && !Covers(m, traps[0], pc, e) {
      var rest := traps[1..];
      HandlerFirst(m, rest, pc, e);
      assert forall i :: 0 < i < |traps| ==> traps[i] == rest[i - 1];
      if Handler(m, rest, pc, e).Some? {
        var i :| 0 <= i < |rest| && Handles(m, rest[i], pc, e) && Handler(m, rest, pc, e).value == rest[i].target
                 && forall j :: 0 <= j < i ==> !Handles(m, rest[j], pc, e);
        assert traps[i + 1] == rest[i];
      }
    }
  }

  /** An exception goes to the first entry that handles it, alone on the stack, or leaves the method. */
  lemma ThrowSettles<W>(m: World<W>, traps: seq<Trap>, pc: int, f: Frame, e: Word, w: W, i: nat)
    requires f.limit > 0
    ensures (forall j :: 0 <= j < |traps| ==> !Handles(m, traps[j], pc, e)) ==>
              Settle(m, traps, pc, f, Ends(Throw(e, w))) == Uncaught(e, w)
    ensures i < |traps| && Handles(m, traps[i], pc, e) && (forall j :: 0 <= j < i ==> !Handles(m, traps[j], pc, e)) ==>
              Settle(m, traps, pc, f, Ends(Throw(e, w))) == Running(traps[i].target, On(f, [e]), w)
  {
    HandlerFirst(m, traps, pc, e);
  }

  /** Any other end of an instruction. */
  lemma OthersSettle<W>(m: World<W>, traps: seq<Trap>, pc: int, to: int, f: Frame, g: Frame, v: seq<Word>, w: W)
    ensures Settle(m, traps, pc, f, To(to, g, w)) == Running(to, g, w)
    ensures Settle(m, traps, pc, f, Ends(Return(v, w))) == Finished(v, w)
    ensures Settle<W>(m, traps, pc, f, Ends(Wrong)) == Stuck
  {
  }

  // ---------------------------------------------------------------------------
  // Instructions on objects, arrays, methods, and longer or floating-point words

  predicate External(op: Byte) {
    || 0x2e <= op <= 0x35 || 0x4f <= op <= 0x56                             // array elements
    || op in {0x61, 0x62, 0x63, 0x65, 0x66, 0x67, 0x69, 0x6a, 0x6b, 0x6d, 0x6e, 0x6f, 0x71, 0x72, 0x73}
    || op in {0x75, 0x76, 0x77, 0x79, 0x7b, 0x7d, 0x7f, 0x81, 0x83}         // long, float and double
    || 0x85 <= op <= 0x90 || 0x94 <= op <= 0x98                             // conversions, comparisons
    || op in {0xbe, 0xc2, 0xc3}                                             // arraylength, monitors
  }

  /** They are run by the rest of the virtual machine, with their operands. */
  lemma ExternalMeans<W>(m: World<W>, op: Byte, cp: nat, b: Byte, next: int, f: Frame, w: W)
    ensures External(op) ==> Exec(m, Plain(op), next, f, w) == Then(m.ext(op, 0, f, w), next)
    ensures Exec(m, Member(op, cp), next, f, w) == Then(m.ext(op, cp, f, w), next)
    ensures Exec(m, NewArray(b), next, f, w) == Then(m.ext(0xbc, b, f, w), next)
    ensures Exec(m, MultiArray(cp, b), next, f, w) == Then(m.ext(0xc5, cp * 0x100 + b, f, w), next)
  {
    assert External(op) ==> !Shuffle(op) && !Binary(op) && !Unary(op) && !(0xac <= op <= 0xb1) && op <= 0xc9 && op != 0xbf && op != 0;
    hide External, Shuffle, Binary, Unary, Shuffled, Arithmetic2, Convert;
  }
}
