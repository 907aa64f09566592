/** What reads and writes of memory are byte by byte, in numbers
    (src/memory.hpp:128-154, 706-843). */
module MemoryLaws {
  import opened Memory
  import Bits
  import Mext

  /** The byte at an address, as a number; never written means zero. */
  ghost function ByteAt(m: Mem, x: int): (n: nat)
    ensures n < 256
  {
    if x in m.bytes then m.bytes[x] as int else 0
  }

  /** `size` bytes from `a`, lowest first; addresses wrap. */
  ghost function LittleEndian(m: Mem, a: int, size: nat): (n: nat)
    decreases size
  {
    if size == 0 then 0 else ByteAt(m, a % 0x1_0000_0000) + 256 * LittleEndian(m, a + 1, size - 1)
  }

  function Power(k: nat): (n: nat)
    ensures n > 0
  {
    if k == 0 then 1 else 256 * Power(k - 1)
  }

  lemma Powers()
    ensures Power(0) == 1 && Power(1) == 0x100 && Power(2) == 0x1_0000 && Power(3) == 0x100_0000 && Power(4) == 0x1_0000_0000
  {
    assert Power(2) == 256 * Power(1);
    assert Power(3) == 256 * Power(2);
    assert Power(4) == 256 * Power(3);
  }

  lemma ByteIs(m: Mem, a: Addr)
    ensures ByteAt(m, a) == Bits.Value(Byte(m, a))
  {
  }

  lemma PushIs(acc: bv32, b: bv8)
    ensures Bits.Num(Push(acc, b)) == (Bits.Num(acc) * 256 + Bits.Value(b)) % Bits.B
  {
    hide Bits.Num, Bits.Value;
    Bits.PushNum(acc, b);
  }

  lemma {:induction false} ReadFromNum(m: Mem, a: Addr, i: nat, size: nat)
    requires i <= size <= i + 4
    ensures Bits.Num(ReadFrom(m, a, i, size)) == LittleEndian(m, a + i, size - i) < Power(size - i)
    decreases size - i
  {
    hide Bits.Num, Bits.Value, Push, ByteAt, Byte, Power;
    Powers();
    if i == size {
      Bits.ZeroNum();
    } else {
      ReadFromNum(m, a, i + 1, size);
      ByteIs(m, At(a, i));
      PushIs(ReadFrom(m, a, i + 1, size), Byte(m, At(a, i)));
      Room(LittleEndian(m, a + i + 1, size - i - 1), Bits.Value(Byte(m, At(a, i))), size - i);
    }
  }

  lemma Room(n: nat, b: nat, k: nat)
    requires 1 <= k <= 4 && n < Power(k - 1) && b < 256
    ensures n * 256 + b < Power(k) && (n * 256 + b) % Bits.B == b + 256 * n
  {
    Powers();
  }

  /** A read is the little-endian number of its bytes. */
  lemma ReadNum(m: Mem, a: Addr, size: nat)
    requires size <= 4
    ensures Bits.Num(Read(m, a, size)) == LittleEndian(m, a, size) < Power(size)
  {
    hide Bits.Num;
    ReadFromNum(m, a, 0, size);
  }

  // -------------------------------------------------------------------- writing

  lemma DropNum(w: bv32)
    ensures Bits.Num(DropByte(w)) == Bits.Num(w) / 256
  {
    DropIsRight(w);
    hide DropByte, Bits.Num, Bits.Right;
    Bits.EightNum();
    Bits.RightNum(w, 8);
  }

  lemma DropIsRight(w: bv32)
    ensures DropByte(w) == Bits.Right(w, 8)
  {
  }

  lemma DividePower(n: nat, k: nat)
    requires k < 4
    ensures n / 256 / Power(k) == n / Power(k + 1)
  {
    Powers();
  }

  lemma {:induction false} WrittenFrom(m: Mem, a: Addr, i: nat, size: nat, w: bv32, k: nat)
    requires i <= k < size <= 4
    ensures Bits.Value(Byte(WriteFrom(m, a, i, size, w), At(a, k))) == Bits.Num(w) / Power(k - i) % 256
    ensures At(a, k) !in WriteFrom(m, a, i, size, w).resv
    decreases size - i
  {
    hide Bits.LowByte, DropByte, At, Bits.Num, Bits.Value, Byte;
    Powers();
    var n := PutByte(m, At(a, i), Bits.LowByte(w));
    WriteHere(m, a, i, size, w, k);
    if k == i {
      Bits.LowByteNum(w);
    } else {
      WrittenFrom(n, a, i + 1, size, DropByte(w), k);
      DropNum(w);
      DividePower(Bits.Num(w), k - i - 1);
    }
  }

  /** A write puts the bytes of its data, lowest first, and touches nothing else;
      the bytes written lose their reservation. */
  lemma WriteNum(m: Mem, a: Addr, size: nat, w: bv32, x: Addr)
    requires size <= 4
    ensures var n, d := Write(m, a, size, w), (x - a) % 0x1_0000_0000;
            && ByteAt(n, x) == (if d < size then Bits.Num(w) / Power(d) % 256 else ByteAt(m, x))
            && (x in n.resv <==> d >= size && x in m.resv)
  {
    hide Bits.Num, Bits.Value, Byte, ByteAt, WriteFrom, At;
    var d := (x - a) % 0x1_0000_0000;
    ByteIs(m, x);
    ByteIs(Write(m, a, size, w), x);
    if d < size {
      Offset(a, x, d);
      WrittenFrom(m, a, 0, size, w, d);
    } else {
      forall k | 0 <= k < size ensures At(a, k) != x {
        if At(a, k) == x { Back(a, x, k); }
      }
      WriteElsewhere(m, a, 0, size, w, x);
    }
  }

  lemma Offset(a: Addr, x: Addr, d: nat)
    requires d == (x - a) % 0x1_0000_0000
    ensures At(a, d) == x
  {
  }

  lemma Back(a: Addr, x: Addr, k: nat)
    requires At(a, k) == x && k < 4
    ensures (x - a) % 0x1_0000_0000 == k
  {
  }

  lemma ByteOfWrite(m: Mem, a: Addr, size: nat, w: bv32, k: nat)
    requires k < size <= 4
    ensures ByteAt(Write(m, a, size, w), (a + k) % 0x1_0000_0000) == Bits.Num(w) / Power(k) % 256
  {
    hide Bits.Num, ByteAt, Write, Power;
    Back(a, At(a, k), k);
    WriteNum(m, a, size, w, At(a, k));
  }

  lemma {:induction false} WriteThenBytes(m: Mem, a: Addr, k: nat, size: nat, w: bv32)
    requires k <= size <= 4
    ensures LittleEndian(Write(m, a, size, w), a + k, size - k) == Bits.Num(w) / Power(k) % Power(size - k)
    decreases size - k
  {
    hide Bits.Num, ByteAt, Write;
    Powers();
    if k < size {
      ByteOfWrite(m, a, size, w, k);
      WriteThenBytes(m, a, k + 1, size, w);
      Digits256(Bits.Num(w), k, size - k);
    }
  }

  lemma Digits256(n: nat, k: nat, c: nat)
    requires 1 <= c && k + c <= 4
    ensures n / Power(k) % Power(c) == n / Power(k) % 256 + 256 * (n / Power(k + 1) % Power(c - 1))
  {
    DivideBy256(n, k);
    SplitMod(n / Power(k), Power(c - 1));
  }

  lemma DivideBy256(n: nat, k: nat)
    requires k < 4
    ensures n / Power(k + 1) == n / Power(k) / 256
  {
    Powers();
  }

  lemma SplitMod(q: nat, b: nat)
    requires b > 0
    ensures q % (256 * b) == q % 256 + 256 * (q / 256 % b)
  {
    var u, v := q / 256 / b, q / 256 % b;
    assert q / 256 == b * u + v;
    assert 256 * b * u == 256 * (b * u);
    Bits.Quotient(q, 256 * b, u, 256 * v + q % 256);
  }

  /** A byte, halfword or word read back after a store of that size is the low part
      of the data. */
  lemma StoreThenLoadNum(m: Mem, a: Addr, size: nat, w: bv32)
    requires size <= 4
    ensures Bits.Num(Read(Write(m, a, size, w), a, size)) == Bits.Num(w) % Power(size)
  {
    hide Bits.Num, Write, Read, Power, LittleEndian;
    ReadNum(Write(m, a, size, w), a, size);
    WriteThenBytes(m, a, 0, size, w);
    Undivided(Bits.Num(w));
  }

  lemma Undivided(n: nat)
    ensures n / Power(0) == n
  {
  }

  // -------------------------------------------------------------------- atomics

  predicate Bitwise(r: nat, a: nat, b: nat, op: bv8) {
    forall k: nat :: k < 32 ==>
      (Bits.Digit(r, k) <==> if op == 4 then Bits.Digit(a, k) != Bits.Digit(b, k)
                             else if op == 5 then Bits.Digit(a, k) && Bits.Digit(b, k)
                             else Bits.Digit(a, k) || Bits.Digit(b, k))
  }

  /** What the operation `op` leaves in memory: `a` is the register, `b` the old word. */
  predicate AmoLaw(op: bv8, a: Mext.Word, b: Mext.Word, r: Mext.Word) {
    match op
    case 2 => r == a
    case 3 => r == (a + b) % 0x1_0000_0000
    case 4 | 5 | 6 => Bitwise(r, a, b, op)
    case 7 => (r == a || r == b) && Mext.Signed(r) <= Mext.Signed(a) && Mext.Signed(r) <= Mext.Signed(b)
    case 8 => (r == a || r == b) && Mext.Signed(r) >= Mext.Signed(a) && Mext.Signed(r) >= Mext.Signed(b)
    case 9 => (r == a || r == b) && r <= a && r <= b
    case 10 => (r == a || r == b) && r >= a && r >= b
    case _ => true
  }

  lemma AmoSwap(a: bv32, b: bv32)
    ensures AmoResult(2, a, b) == a
  {
  }

  lemma AmoAdd(a: bv32, b: bv32)
    ensures AmoResult(3, a, b) == Bits.Plus(a, b)
  {
  }

  lemma AmoXor(a: bv32, b: bv32)
    ensures AmoResult(4, a, b) == Bits.Differ(a, b)
  {
  }

  lemma AmoAnd(a: bv32, b: bv32)
    ensures AmoResult(5, a, b) == Bits.Both(a, b)
  {
  }

  lemma AmoOr(a: bv32, b: bv32)
    ensures AmoResult(6, a, b) == Bits.Either(a, b)
  {
  }

  lemma AmoMin(a: bv32, b: bv32)
    ensures AmoResult(7, a, b) == (if Bits.Less(Bits.Flip(b), Bits.Flip(a)) then b else a)
  {
    hide Bits.Less, Bits.Flip, SignedLess;
    SignedLessIs(b, a);
  }

  lemma AmoMax(a: bv32, b: bv32)
    ensures AmoResult(8, a, b) == (if Bits.Less(Bits.Flip(a), Bits.Flip(b)) then b else a)
  {
    hide Bits.Less, Bits.Flip, SignedLess;
    SignedLessIs(a, b);
  }

  lemma AmoMinu(a: bv32, b: bv32)
    ensures AmoResult(9, a, b) == (if Bits.Less(b, a) then b else a)
  {
  }

  lemma AmoMaxu(a: bv32, b: bv32)
    ensures AmoResult(10, a, b) == (if Bits.Less(a, b) then b else a)
  {
  }

  lemma SignedLessIs(a: bv32, b: bv32)
    ensures SignedLess(a, b) == Bits.Less(Bits.Flip(a), Bits.Flip(b))
  {
    hide SignedLess, Bits.Less, Bits.Flip;
    SignedLessRaw(a, b);
    Bits.FlipRaw(a);
    Bits.FlipRaw(b);
  }

  lemma SignedLessRaw(a: bv32, b: bv32)
    ensures SignedLess(a, b) == Bits.Less(a ^ 0x8000_0000, b ^ 0x8000_0000)
  {
  }

  lemma LogicLaw(a: bv32, b: bv32)
    ensures Bitwise(Bits.W(Bits.Differ(a, b)), Bits.W(a), Bits.W(b), 4)
    ensures Bitwise(Bits.W(Bits.Both(a, b)), Bits.W(a), Bits.W(b), 5)
    ensures Bitwise(Bits.W(Bits.Either(a, b)), Bits.W(a), Bits.W(b), 6)
  {
    hide Bits.Num, Bits.Digit, Bits.Differ, Bits.Both, Bits.Either;
    forall k: nat | k < 32
      ensures Bits.Digit(Bits.W(Bits.Differ(a, b)), k) == (Bits.Digit(Bits.W(a), k) != Bits.Digit(Bits.W(b), k))
      ensures Bits.Digit(Bits.W(Bits.Both(a, b)), k) == (Bits.Digit(Bits.W(a), k) && Bits.Digit(Bits.W(b), k))
      ensures Bits.Digit(Bits.W(Bits.Either(a, b)), k) == (Bits.Digit(Bits.W(a), k) || Bits.Digit(Bits.W(b), k))
    {
      Bits.LogicDigits(a, b, k);
    }
  }

  lemma ExtremaLaw(op: bv8, a: bv32, b: bv32)
    requires op == 7 || op == 8 || op == 9 || op == 10
    ensures AmoLaw(op, Bits.W(a), Bits.W(b), Bits.W(AmoResult(op, a, b)))
  {
    hide Bits.Num, AmoResult, Bits.Less, Bits.Flip, Bits.Int, Mext.Signed;
    AmoMin(a, b);
    AmoMax(a, b);
    AmoMinu(a, b);
    AmoMaxu(a, b);
    Bits.IntIsSigned(a);
    Bits.IntIsSigned(b);
    Bits.SignedOrder(a, b);
    Bits.SignedOrder(b, a);
    Bits.LessNum(a, b);
    Bits.LessNum(b, a);
  }

  /** Each atomic operation computes what its name says. */
  lemma AmoResultLaw(op: bv8, a: bv32, b: bv32)
    ensures AmoLaw(op, Bits.W(a), Bits.W(b), Bits.W(AmoResult(op, a, b)))
  {
    hide Bits.Num, AmoResult, Bitwise, Bits.Plus, Bits.Differ, Bits.Both, Bits.Either;
    AmoSwap(a, b);
    AmoAdd(a, b);
    AmoXor(a, b);
    AmoAnd(a, b);
    AmoOr(a, b);
    if op == 3 {
      Bits.PlusNum(a, b);
    } else if op == 4 || op == 5 || op == 6 {
      LogicLaw(a, b);
    } else if op == 7 || op == 8 || op == 9 || op == 10 {
      ExtremaLaw(op, a, b);
    }
  }
}
