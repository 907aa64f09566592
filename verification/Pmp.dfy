/** Physical memory protection (src/pmp.hpp): 64 entries, a sparse index of the
    configured ones, the range check, and the two register write ports.

    Addresses are naturals; the 64-bit operations of the NAPOT test are written
    out on naturals below 2^64. */
module Pmp {
  import Bits

  const COUNT := 64
  const M_MODE: bv32 := 3
  const U32 := 0x1_0000_0000
  const U34 := 0x4_0000_0000

  predicate IsLocked(c: bv8) { c & 128 != 0 }

  predicate IsTor(c: bv8) { c & 24 == 8 }

  predicate IsNa4(c: bv8) { c & 24 == 16 }

  predicate IsNapot(c: bv8) { c & 24 == 24 }

  /** Locked and TOR, tested with one mask. */
  predicate LockedTor(c: bv8) { c & (128 | 0x18) == 128 | 0x8 }

  datatype State = State(cfg: seq<bv8>, addr: seq<nat>, ids: set<int>)
  {
    ghost predicate Shape() {
      && |cfg| == COUNT && |addr| == COUNT
      && (forall i :: 0 <= i < COUNT ==> addr[i] < U32)
    }

    /** The sparse index names exactly the entries with a nonzero configuration. */
    ghost predicate Indexed()
      requires Shape()
    {
      forall i :: i in ids <==> 0 <= i < COUNT && cfg[i] != 0
    }

    ghost predicate Valid() { Shape() && Indexed() }
  }

  /** The registers after reset. */
  const INIT := State(seq(COUNT, _ => 0), seq(COUNT, _ => 0), {})

  type Regs = s: State | s.Valid() ghost witness INIT

  // ------------------------------------------- 64-bit operations on naturals

  /** Bitwise conjunction. */
  function And(x: nat, y: nat): (r: nat)
    decreases x
  {
    if x == 0 then 0 else 2 * And(x / 2, y / 2) + (if x % 2 == 1 && y % 2 == 1 then 1 else 0)
  }

  /** Two's complement negation and left shift, modulo 2^64. */
  function Neg(x: nat): (r: nat) { (Bits.Pow2(64) - x % Bits.Pow2(64)) % Bits.Pow2(64) }

  function Shl(x: nat, k: nat): (r: nat) { x * Bits.Pow2(k) % Bits.Pow2(64) }

  function LowBit(x: nat): (r: nat) { And(x, Neg(x)) }

  function NapotMask(p: nat): (r: nat) { Shl(Neg(Shl(LowBit(p + 1), 1)), 2) }

  predicate NapotMatch(p: nat, a: nat) { And(a, NapotMask(p)) == And(4 * p, NapotMask(p)) }

  // ---------------------------------------------------------------- matching

  /** One byte address against one entry; `prev` is the preceding pmpaddr (0 for entry 0). */
  predicate InRange(cfg: bv8, prev: nat, cur: nat, a: nat) {
    if IsTor(cfg) then 4 * prev <= a < 4 * cur
    else if IsNa4(cfg) then 4 * cur <= a <= 4 * cur + 3
    else IsNapot(cfg) && NapotMatch(cur, a)
  }

  predicate Matches(s: State, i: int, a: nat)
    requires 0 <= i < |s.cfg| == |s.addr|
  {
    InRange(s.cfg[i], if i == 0 then 0 else s.addr[i - 1], s.addr[i], a)
  }

  /** Permission test; write permission is taken to include read permission. */
  predicate Permits(cfg: bv8, op: bv8) {
    op & (cfg | (if cfg & 2 != 0 then 1 else 0)) == op
  }

  // ------------------------------------------------- reference: byte by byte

  /** Bit 7 of a configuration byte. */
  predicate Locked(c: bv8) { (c as int) / 128 == 1 }

  /** Bits 4..3: off, TOR, NA4 or NAPOT. */
  function Mode(c: bv8): (m: nat) { (c as int) / 8 % 4 }

  /** Section 3.7.1: which bytes an entry is for. */
  ghost predicate Region(c: bv8, prev: nat, cur: nat, a: nat) {
    || (Mode(c) == 1 && 4 * prev <= a < 4 * cur)
    || (Mode(c) == 2 && a / 4 == cur)
    || (Mode(c) == 3 && NapotBase(cur) <= a < NapotBase(cur) + NapotSize(cur))
  }

  /** What an entry lets an access do: bit 0 of the request is granted by bit 0 or
      bit 1 of the configuration, every other bit by its own. */
  ghost predicate Grants(c: bv8, op: bv8) { Allows(c as int, op as int) }

  ghost predicate Allows(c: nat, op: nat) {
    && (op % 2 == 1 ==> c % 4 != 0)
    && forall k: nat :: 1 <= k < 8 && Bits.Digit(op, k) ==> Bits.Digit(c, k)
  }

  ghost predicate Inside(s: State, i: int, a: nat)
    requires 0 <= i < |s.cfg| == |s.addr|
  {
    Region(s.cfg[i], if i == 0 then 0 else s.addr[i - 1], s.addr[i], a)
  }

  ghost predicate SomeByte(s: State, i: int, a: nat, size: nat)
    requires 0 <= i < |s.cfg| == |s.addr|
  {
    exists b :: a <= b < a + size && Inside(s, i, b)
  }

  ghost predicate EveryByte(s: State, i: int, a: nat, size: nat)
    requires 0 <= i < |s.cfg| == |s.addr|
  {
    forall b :: a <= b < a + size ==> Inside(s, i, b)
  }

  /** Entry `i` decides the access: some byte is inside, and the entry binds the
      accessing mode. */
  ghost predicate Decides(s: State, i: int, a: nat, size: nat, priv: bv32)
    requires 0 <= i < |s.cfg| == |s.addr|
  {
    SomeByte(s, i, a, size) && (priv != M_MODE || Locked(s.cfg[i]))
  }

  /** The lowest-numbered deciding entry at or above `i` gives the verdict. */
  ghost function Verdict(s: State, i: int, a: nat, op: bv8, size: nat, priv: bv32): (r: bool)
    requires s.Shape() && 0 <= i <= COUNT
    decreases COUNT - i
  {
    if i == COUNT then priv == M_MODE
    else if Decides(s, i, a, size, priv) then Grants(s.cfg[i], op) && EveryByte(s, i, a, size)
    else Verdict(s, i + 1, a, op, size, priv)
  }

  lemma ConfigBits(c: bv8)
    ensures IsLocked(c) == Locked(c)
    ensures IsTor(c) == (Mode(c) == 1) && IsNa4(c) == (Mode(c) == 2) && IsNapot(c) == (Mode(c) == 3)
  {
    LockBit(c);
    ModeBits(c);
  }

  lemma LockBit(c: bv8)
    ensures IsLocked(c) == Locked(c)
  {
  }

  lemma ModeBits(c: bv8)
    ensures IsTor(c) == (Mode(c) == 1) && IsNa4(c) == (Mode(c) == 2) && IsNapot(c) == (Mode(c) == 3)
  {
    ModeShift(c);
    ModeValue(c);
  }

  lemma ModeShift(c: bv8)
    ensures IsTor(c) == ((c >> 3) & 3 == 1) && IsNa4(c) == ((c >> 3) & 3 == 2) && IsNapot(c) == ((c >> 3) & 3 == 3)
  {
  }

  lemma ModeValue(c: bv8)
    ensures ((c >> 3) & 3) as int == Mode(c)
  {
    DropThree(c);
    LowTwo(c >> 3);
  }

  lemma DropThree(c: bv8)
    ensures (c >> 3) as int == c as int / 8
  {
  }

  lemma LowTwo(c: bv8)
    ensures (c & 3) as int == c as int % 4
  {
  }

  /** Bit `k` of a byte. */
  predicate BitOf(c: bv8, k: nat) {
    match k
    case 0 => c & 1 != 0
    case 1 => c & 2 != 0
    case 2 => c & 4 != 0
    case 3 => c & 8 != 0
    case 4 => c & 16 != 0
    case 5 => c & 32 != 0
    case 6 => c & 64 != 0
    case 7 => c & 128 != 0
    case _ => false
  }

  lemma DownByte(c: bv8)
    ensures (c >> 1) as int == c as int / 2 && (c & 1 != 0) == (c as int % 2 == 1)
  {
  }

  lemma BitDown(c: bv8, k: nat)
    requires 0 < k < 8
    ensures BitOf(c, k) == BitOf(c >> 1, k - 1)
  {
  }

  lemma {:induction false} ByteDigit(c: bv8, k: nat)
    requires k < 8
    ensures BitOf(c, k) == Bits.Digit(c as int, k)
    decreases k
  {
    DownByte(c);
    if k > 0 {
      BitDown(c, k);
      ByteDigit(c >> 1, k - 1);
    }
  }

  predicate Subset(op: bv8, c: bv8) { op & c == op }

  lemma SubsetBits(op: bv8, c: bv8)
    ensures Subset(op, c) <==>
            && (BitOf(op, 0) ==> BitOf(c, 0)) && (BitOf(op, 1) ==> BitOf(c, 1)) && (BitOf(op, 2) ==> BitOf(c, 2))
            && (BitOf(op, 3) ==> BitOf(c, 3)) && (BitOf(op, 4) ==> BitOf(c, 4)) && (BitOf(op, 5) ==> BitOf(c, 5))
            && (BitOf(op, 6) ==> BitOf(c, 6)) && (BitOf(op, 7) ==> BitOf(c, 7))
  {
  }

  lemma WriteImpliesRead(c: bv8)
    ensures var d := if c & 2 != 0 then c | 1 else c;
            && (BitOf(d, 0) <==> c as int % 4 != 0) && BitOf(d, 1) == BitOf(c, 1) && BitOf(d, 2) == BitOf(c, 2)
            && BitOf(d, 3) == BitOf(c, 3) && BitOf(d, 4) == BitOf(c, 4) && BitOf(d, 5) == BitOf(c, 5)
            && BitOf(d, 6) == BitOf(c, 6) && BitOf(d, 7) == BitOf(c, 7)
  {
    ReadBits(c);
  }

  lemma ReadBits(c: bv8)
    ensures (c & 1 != 0 || c & 2 != 0) <==> c as int % 4 != 0
  {
  }

  lemma PermitsSubset(c: bv8, op: bv8)
    ensures Permits(c, op) == Subset(op, if c & 2 != 0 then c | 1 else c)
  {
  }

  lemma AllowsBits(c: nat, op: nat)
    ensures Allows(c, op) <==>
            && (Bits.Digit(op, 0) ==> c % 4 != 0) && (Bits.Digit(op, 1) ==> Bits.Digit(c, 1))
            && (Bits.Digit(op, 2) ==> Bits.Digit(c, 2)) && (Bits.Digit(op, 3) ==> Bits.Digit(c, 3))
            && (Bits.Digit(op, 4) ==> Bits.Digit(c, 4)) && (Bits.Digit(op, 5) ==> Bits.Digit(c, 5))
            && (Bits.Digit(op, 6) ==> Bits.Digit(c, 6)) && (Bits.Digit(op, 7) ==> Bits.Digit(c, 7))
  {
    hide Bits.Digit;
    DigitZero(op);
  }

  /** The permission test in the digits of the configuration byte. */
  lemma PermitsIsGrants(c: bv8, op: bv8)
    ensures Permits(c, op) == Grants(c, op)
  {
    hide Permits, Subset, BitOf, Allows, Bits.Digit;
    PermitsSubset(c, op);
    SubsetBits(op, if c & 2 != 0 then c | 1 else c);
    WriteImpliesRead(c);
    EightDigits(c);
    EightDigits(op);
    AllowsBits(c as int, op as int);
  }

  lemma EightDigits(c: bv8)
    ensures BitOf(c, 0) == Bits.Digit(c as int, 0) && BitOf(c, 1) == Bits.Digit(c as int, 1)
    ensures BitOf(c, 2) == Bits.Digit(c as int, 2) && BitOf(c, 3) == Bits.Digit(c as int, 3)
    ensures BitOf(c, 4) == Bits.Digit(c as int, 4) && BitOf(c, 5) == Bits.Digit(c as int, 5)
    ensures BitOf(c, 6) == Bits.Digit(c as int, 6) && BitOf(c, 7) == Bits.Digit(c as int, 7)
  {
    hide BitOf, Bits.Digit;
    ByteDigit(c, 0);
    ByteDigit(c, 1);
    ByteDigit(c, 2);
    ByteDigit(c, 3);
    ByteDigit(c, 4);
    ByteDigit(c, 5);
    ByteDigit(c, 6);
    ByteDigit(c, 7);
  }

  lemma DigitZero(n: nat)
    ensures Bits.Digit(n, 0) <==> n % 2 == 1
  {
  }

  /** The requests the core makes: 1 to read, 2 to write, 4 to execute. */
  lemma PermissionBits(c: bv8)
    ensures Permits(c, 1) <==> c as int % 4 != 0
    ensures Permits(c, 2) <==> c as int / 2 % 2 == 1
    ensures Permits(c, 4) <==> c as int / 4 % 2 == 1
  {
    ReadLaw(c);
    WriteLaw(c);
    ExecuteLaw(c);
  }

  lemma ReadLaw(c: bv8)
    ensures Permits(c, 1) <==> c as int % 4 != 0
  {
  }

  lemma WriteLaw(c: bv8)
    ensures Permits(c, 2) <==> c as int / 2 % 2 == 1
  {
    WriteBit(c);
    ByteDigit(c, 1);
  }

  lemma WriteBit(c: bv8)
    ensures Permits(c, 2) <==> BitOf(c, 1)
  {
  }

  lemma ExecuteLaw(c: bv8)
    ensures Permits(c, 4) <==> c as int / 4 % 2 == 1
  {
    hide Permits;
    ExecuteBit(c);
    ByteDigit(c, 2);
    Bits.DigitIs(c as int, 2);
  }

  lemma ExecuteBit(c: bv8)
    ensures Permits(c, 4) <==> BitOf(c, 2)
  {
  }

  // ------------------------------------------------------- NAPOT arithmetic

  ghost function TrailingOnes(p: nat): (r: nat)
  {
    if p % 2 == 0 then 0 else 1 + TrailingOnes(p / 2)
  }

  /** Drop the k low bits. */
  ghost function Drop(x: nat, k: nat): (r: nat)
    decreases k
  {
    if k == 0 then x else Drop(x / 2, k - 1)
  }

  lemma {:induction false} Pow2Add(j: nat, k: nat)
    ensures Bits.Pow2(j + k) == Bits.Pow2(j) * Bits.Pow2(k)
  {
    if j > 0 {
      Pow2Add(j - 1, k);
      assert Bits.Pow2(j) * Bits.Pow2(k) == 2 * (Bits.Pow2(j - 1) * Bits.Pow2(k));
    }
  }

  lemma {:induction false} Pow2Monotone(j: nat, k: nat)
    requires j <= k
    ensures Bits.Pow2(j) <= Bits.Pow2(k)
    decreases k
  {
    if j < k { Pow2Monotone(j, k - 1); }
  }

  lemma HalfInterval(x: nat, a: nat, m: nat)
    ensures a <= x / 2 < a + m <==> 2 * a <= x < 2 * a + 2 * m
  {
  }

  lemma {:induction false} DropInterval(x: nat, k: nat, q: nat)
    ensures Drop(x, k) == q <==> q * Bits.Pow2(k) <= x < q * Bits.Pow2(k) + Bits.Pow2(k)
    decreases k
  {
    if k == 0 {
      assert q * Bits.Pow2(0) == q;
    } else {
      var m := Bits.Pow2(k - 1);
      DropInterval(x / 2, k - 1, q);
      TimesTwice(q, m);
      HalfInterval(x, q * m, m);
    }
  }

  lemma {:induction false} AndComplement(w: nat, x: nat)
    requires x < Bits.Pow2(w)
    ensures And(x, Bits.Pow2(w) - 1 - x) == 0
    decreases w
  {
    if w > 0 && x > 0 {
      AndComplement(w - 1, x / 2);
      assert (Bits.Pow2(w) - 1 - x) / 2 == Bits.Pow2(w - 1) - 1 - x / 2;
    }
  }

  /** The lowest clear bit of p is the lowest set bit of p + 1. */
  lemma {:induction false} LowBitOfSuccessor(w: nat, p: nat)
    requires p + 1 < Bits.Pow2(w)
    ensures And(p + 1, Bits.Pow2(w) - (p + 1)) == Bits.Pow2(TrailingOnes(p))
    decreases w
  {
    var n, x := Bits.Pow2(w - 1), p / 2;
    assert Bits.Pow2(w) == 2 * n;
    hide And, Bits.Pow2;
    if p % 2 == 0 {
      AndComplement(w - 1, x);
      AndOdd(x, n - 1 - x);
      SplitOdd(p, x, n);
    } else {
      LowBitOfSuccessor(w - 1, x);
      AndEven(p + 1, n - (x + 1));
      SplitEven(p, x, n);
    }
  }

  lemma SplitOdd(p: nat, x: nat, n: nat)
    requires p == 2 * x
    ensures p + 1 == 2 * x + 1 && 2 * n - (p + 1) == 2 * (n - 1 - x) + 1
  {
  }

  lemma SplitEven(p: nat, x: nat, n: nat)
    requires p == 2 * x + 1
    ensures (p + 1) / 2 == x + 1 && 2 * n - (p + 1) == 2 * (n - (x + 1))
  {
  }

  lemma {:induction false} AndOdd(x: nat, y: nat)
    ensures And(2 * x + 1, 2 * y + 1) == 2 * And(x, y) + 1
  {
    assert (2 * x + 1) / 2 == x && (2 * y + 1) / 2 == y;
  }

  lemma HalfOdd(y: nat)
    ensures (2 * y + 1) / 2 == y && (2 * y + 1) % 2 == 1
  {
  }

  lemma {:induction false} AndOddMask(a: nat, y: nat)
    ensures And(a, 2 * y + 1) == 2 * And(a / 2, y) + a % 2
  {
    HalfOdd(y);
  }

  lemma {:induction false} AndAllOnes(w: nat, a: nat)
    requires a < Bits.Pow2(w)
    ensures And(a, Bits.Pow2(w) - 1) == a
    decreases w
  {
    hide And;
    if w == 0 {
      AndZero();
    } else {
      AndAllOnes(w - 1, a / 2);
      AndOddMask(a, Bits.Pow2(w - 1) - 1);
    }
  }

  lemma AndZero()
    ensures And(0, 0) == 0
  {
  }

  lemma TimesTwice(x: nat, n: nat)
    ensures x * (2 * n) == 2 * (x * n)
  {
  }

  /** Masking with -2^n clears the n low bits. */
  lemma {:induction false} AndHighMask(w: nat, n: nat, a: nat)
    requires a < Bits.Pow2(w) && n <= w && Bits.Pow2(n) <= Bits.Pow2(w)
    ensures And(a, Bits.Pow2(w) - Bits.Pow2(n)) == Drop(a, n) * Bits.Pow2(n)
    decreases n
  {
    if n == 0 {
      AndAllOnes(w, a);
    } else {
      var m, v := Bits.Pow2(n - 1), Bits.Pow2(w - 1);
      assert Bits.Pow2(n) == 2 * m && Bits.Pow2(w) == 2 * v;
      hide Bits.Pow2;
      Pow2Monotone(n - 1, w - 1);
      AndHighMask(w - 1, n - 1, a / 2);
      AndEven(a, v - m);
      TimesTwice(Drop(a / 2, n - 1), m);
    }
  }

  lemma {:induction false} AndEven(a: nat, y: nat)
    ensures And(a, 2 * y) == 2 * And(a / 2, y)
  {
    assert (2 * y) / 2 == y && (2 * y) % 2 == 0;
  }

  lemma {:induction false} TrailingOnesBound(p: nat, w: nat)
    requires p < Bits.Pow2(w)
    ensures TrailingOnes(p) <= w
    decreases w
  {
    if p % 2 == 1 { TrailingOnesBound(p / 2, w - 1); }
  }

  lemma Widths()
    ensures Bits.Pow2(1) == 2 && Bits.Pow2(2) == 4 && Bits.Pow2(3) == 8
    ensures Bits.Pow2(32) == U32 && Bits.Pow2(34) == U34 && Bits.Pow2(64) == U32 * U32
  {
    Pow2Small();
    hide Bits.Pow2;
    Pow2Add(2, 2);
    Pow2Add(4, 4);
    Pow2Add(8, 8);
    Pow2Add(16, 16);
    Pow2Add(32, 2);
    Pow2Add(32, 32);
  }

  lemma Pow2Small()
    ensures Bits.Pow2(1) == 2 && Bits.Pow2(2) == 4 && Bits.Pow2(3) == 8
  {
    assert Bits.Pow2(0) == 1;
  }

  lemma SmallMod(x: nat, n: nat)
    requires x < n
    ensures x % n == x
  {
  }

  /** In the code's 64-bit arithmetic the mask comes out as -2^(k+3). */
  lemma MaskValue(p: nat)
    requires p < U32
    ensures TrailingOnes(p) <= 32
    ensures NapotMask(p) == Bits.Pow2(64) - Bits.Pow2(TrailingOnes(p) + 3)
  {
    hide Bits.Pow2, And, TrailingOnes;
    Widths();
    TrailingOnesBound(p, 32);
    var k := TrailingOnes(p);
    var n := Bits.Pow2(k);
    Pow2Monotone(k, 32);
    SmallMod(p + 1, Bits.Pow2(64));
    SmallMod(Bits.Pow2(64) - (p + 1), Bits.Pow2(64));
    LowBitOfSuccessor(64, p);
    assert LowBit(p + 1) == n;
    SmallMod(2 * n, Bits.Pow2(64));
    assert Shl(LowBit(p + 1), 1) == 2 * n;
    SmallMod(Bits.Pow2(64) - 2 * n, Bits.Pow2(64));
    assert Neg(2 * n) == Bits.Pow2(64) - 2 * n;
    WrapFour(Bits.Pow2(64), 2 * n);
    Pow2Add(k, 3);
  }

  lemma WrapFour(w: nat, m: nat)
    requires 0 < 4 * m <= w
    ensures (w - m) * 4 % w == w - 4 * m
  {
    assert (w - m) * 4 == 3 * w + (w - 4 * m);
  }

  lemma {:induction false} DropFour(p: nat, k: nat)
    ensures Drop(4 * p, k + 2) == Drop(p, k)
  {
    assert Drop(4 * p, k + 2) == Drop(2 * p, k + 1);
  }

  lemma MulCancel(x: nat, y: nat, n: nat)
    requires n > 0 && x * n == y * n
    ensures x == y
  {
  }

  /** The mask test compares the address bits above the region size. */
  lemma NapotQuotient(p: nat, a: nat)
    requires p < U32 && a < U34
    ensures NapotMatch(p, a) <==> Drop(a, TrailingOnes(p) + 3) == Drop(p, TrailingOnes(p) + 1)
  {
    hide Bits.Pow2, And, TrailingOnes, NapotMask, Drop;
    Widths();
    MaskValue(p);
    var n := TrailingOnes(p) + 3;
    Pow2Monotone(n, 64);
    AndHighMask(64, n, a);
    AndHighMask(64, n, 4 * p);
    DropFour(p, TrailingOnes(p) + 1);
    if Drop(a, n) * Bits.Pow2(n) == Drop(4 * p, n) * Bits.Pow2(n) {
      MulCancel(Drop(a, n), Drop(4 * p, n), Bits.Pow2(n));
    }
  }

  /** First byte of the region: the register's bits above the trailing ones and
      the zero that ends them, scaled to bytes. */
  ghost function NapotBase(p: nat): (r: nat) {
    Drop(p, TrailingOnes(p) + 1) * NapotSize(p)
  }

  ghost function NapotSize(p: nat): (r: nat) { Bits.Pow2(TrailingOnes(p) + 3) }

  /** Section 3.7.1: k trailing ones select the 2^(k+3)-byte region whose base
      is a multiple of its size. */
  lemma NapotInterval(p: nat, a: nat)
    requires p < U32 && a < U34
    ensures NapotMatch(p, a) <==> NapotBase(p) <= a < NapotBase(p) + NapotSize(p)
  {
    hide NapotMatch, TrailingOnes, Drop, Bits.Pow2;
    NapotQuotient(p, a);
    DropInterval(a, TrailingOnes(p) + 3, Drop(p, TrailingOnes(p) + 1));
  }

  // --------------------------------------------------- two endpoints suffice

  lemma QuarterIsHalfTwice(a: nat)
    ensures a / 4 == a / 2 / 2
  {
  }

  lemma {:induction false} DropTwice(x: nat, k: nat)
    ensures Drop(x, k + 2) == Drop(x / 4, k)
  {
    QuarterIsHalfTwice(x);
    assert Drop(x, k + 2) == Drop(x / 2, k + 1);
  }

  lemma NapotGranular(p: nat, a: nat, b: nat)
    requires a / 4 == b / 4 && a < U34 && b < U34 && p < U32
    ensures NapotMatch(p, a) == NapotMatch(p, b)
  {
    hide NapotMatch, TrailingOnes, Drop;
    NapotQuotient(p, a);
    NapotQuotient(p, b);
    DropTwice(a, TrailingOnes(p) + 1);
    DropTwice(b, TrailingOnes(p) + 1);
  }

  /** Every region is a union of aligned words. */
  lemma WordGranular(cfg: bv8, prev: nat, cur: nat, a: nat, b: nat)
    requires a / 4 == b / 4 && a < U34 && b < U34 && cur < U32
    ensures InRange(cfg, prev, cur, a) == InRange(cfg, prev, cur, b)
  {
    hide NapotMatch, IsTor, IsNa4, IsNapot;
    NapotGranular(cur, a, b);
  }

  lemma NapotInside(p: nat, a: nat)
    requires p < U32 && a < U34
    ensures NapotMatch(p, a) <==> NapotBase(p) <= a < NapotBase(p) + NapotSize(p)
  {
    hide NapotMatch, NapotBase, NapotSize;
    NapotInterval(p, a);
  }

  /** The range test is the region. */
  lemma MatchesIsInside(s: State, i: int, a: nat)
    requires s.Shape() && 0 <= i < COUNT && a < U34
    ensures Matches(s, i, a) == Inside(s, i, a)
  {
    hide NapotMatch, NapotBase, NapotSize, IsTor, IsNa4, IsNapot, Mode, IsLocked, Locked;
    ConfigBits(s.cfg[i]);
    NapotInside(s.addr[i], a);
  }

  lemma TwoEndpoints(s: State, i: int, a: nat, size: nat)
    requires s.Shape() && 0 <= i < COUNT && a < U32 && 1 <= size <= 4
    ensures SomeByte(s, i, a, size) <==> Matches(s, i, a) || Matches(s, i, a + size - 1)
    ensures EveryByte(s, i, a, size) <==> Matches(s, i, a) && Matches(s, i, a + size - 1)
  {
    hide Matches, Inside;
    forall b | a <= b < a + size
      ensures Inside(s, i, b) == Matches(s, i, b)
      ensures Matches(s, i, b) == Matches(s, i, a) || Matches(s, i, b) == Matches(s, i, a + size - 1)
    {
      MatchesIsInside(s, i, b);
      SameWord(s, i, b, if b / 4 == a / 4 then a else a + size - 1);
    }
    assert a <= a + size - 1 < a + size;
  }

  lemma SameWord(s: State, i: int, a: nat, b: nat)
    requires s.Shape() && 0 <= i < COUNT && a / 4 == b / 4 && a < U34 && b < U34
    ensures Matches(s, i, a) == Matches(s, i, b)
  {
    hide InRange;
    WordGranular(s.cfg[i], if i == 0 then 0 else s.addr[i - 1], s.addr[i], a, b);
  }

  /** The range check as a function: two end bytes against each entry in turn. */
  function CheckFrom(s: State, i: int, a: nat, op: bv8, size: nat, priv: bv32): (r: bool)
    requires |s.cfg| == COUNT && |s.addr| == COUNT && 0 <= i <= COUNT && size > 0
    decreases COUNT - i
  {
    if i == COUNT then priv == M_MODE
    else
      var baseIn, topIn := Matches(s, i, a), Matches(s, i, a + size - 1);
      if (baseIn || topIn) && (priv != M_MODE || IsLocked(s.cfg[i])) then Permits(s.cfg[i], op) && baseIn && topIn
      else CheckFrom(s, i + 1, a, op, size, priv)
  }

  function Allowed(s: Regs, a: nat, op: bv8, size: nat, priv: bv32): (r: bool)
    requires size > 0
  {
    CheckFrom(s, 0, a, op, size, priv)
  }

  /** The two-endpoint scan agrees with the byte-by-byte reference. */
  lemma {:induction false} CheckIsVerdict(s: State, i: int, a: nat, op: bv8, size: nat, priv: bv32)
    requires s.Shape() && 0 <= i <= COUNT && a < U32 && 1 <= size <= 4
    ensures CheckFrom(s, i, a, op, size, priv) == Verdict(s, i, a, op, size, priv)
    decreases COUNT - i
  {
    hide Matches, IsLocked, Locked, Permits, Grants, SomeByte, EveryByte, Mode;
    if i < COUNT {
      ConfigBits(s.cfg[i]);
      PermitsIsGrants(s.cfg[i], op);
      TwoEndpoints(s, i, a, size);
      CheckIsVerdict(s, i + 1, a, op, size, priv);
    }
  }

  /** The lowest entry that decides an access grants it by its permission bits and
      by holding every byte; if none does, only M mode passes. */
  lemma {:induction false} DecidedBy(s: State, i: int, k: int, a: nat, op: bv8, size: nat, priv: bv32)
    requires s.Shape() && 0 <= i <= k <= COUNT
    requires forall j :: i <= j < k ==> !Decides(s, j, a, size, priv)
    requires k < COUNT ==> Decides(s, k, a, size, priv)
    ensures Verdict(s, i, a, op, size, priv)
            == if k < COUNT then Grants(s.cfg[k], op) && EveryByte(s, k, a, size) else priv == M_MODE
    decreases k - i
  {
    hide Decides, Grants, EveryByte;
    if i < k { DecidedBy(s, i + 1, k, a, op, size, priv); }
  }

  /** The permission bit of each request. */
  predicate PermissionBit(c: bv8, op: bv8) {
    if op == 1 then c as int % 4 != 0 else if op == 2 then c as int / 2 % 2 == 1 else c as int / 4 % 2 == 1
  }

  /** An access that passes below M mode has the bit it needs in the lowest entry
      that holds some byte of it, and that entry holds all of it; and conversely. */
  lemma AllowedIff(s: Regs, k: int, a: nat, op: bv8, size: nat, priv: bv32)
    requires a < U32 && 1 <= size <= 4 && priv != M_MODE && (op == 1 || op == 2 || op == 4)
    requires 0 <= k <= COUNT && forall j :: 0 <= j < k ==> !SomeByte(s, j, a, size)
    requires k < COUNT ==> SomeByte(s, k, a, size)
    ensures Allowed(s, a, op, size, priv) <==> k < COUNT && PermissionBit(s.cfg[k], op) && EveryByte(s, k, a, size)
  {
    hide Verdict, CheckFrom, Permits, Grants, SomeByte, EveryByte, Locked;
    CheckIsVerdict(s, 0, a, op, size, priv);
    DecidedBy(s, 0, k, a, op, size, priv);
    if k < COUNT {
      PermitsIsGrants(s.cfg[k], op);
      PermissionBits(s.cfg[k]);
    }
  }

  // --------------------------------------------------- loads checked as a word

  /** The lowest entry that decides the four bytes from `a` on lets out some of them. */
  ghost predicate Straddles(s: State, i: int, a: nat, priv: bv32)
    requires s.Shape() && 0 <= i <= COUNT
    decreases COUNT - i
  {
    i < COUNT && if Decides(s, i, a, 4, priv) then !EveryByte(s, i, a, 4) else Straddles(s, i + 1, a, priv)
  }

  /** Checking four bytes for a shorter access refuses exactly the straddling ones
      besides those its own bytes refuse. */
  lemma {:induction false} WideVerdict(s: State, i: int, a: nat, op: bv8, size: nat, priv: bv32)
    requires s.Shape() && 0 <= i <= COUNT && 1 <= size <= 4
    ensures Verdict(s, i, a, op, 4, priv) <==> Verdict(s, i, a, op, size, priv) && !Straddles(s, i, a, priv)
    decreases COUNT - i
  {
    hide Inside, Locked, Grants;
    if i < COUNT {
      WideVerdict(s, i + 1, a, op, size, priv);
      if EveryByte(s, i, a, 4) { assert Inside(s, i, a); }
    }
  }

  /** Within an aligned word nothing straddles. */
  lemma {:induction false} AlignedNeverStraddles(s: State, i: int, a: nat, priv: bv32)
    requires s.Shape() && 0 <= i <= COUNT && a % 4 == 0 && a < U32
    ensures !Straddles(s, i, a, priv)
    decreases COUNT - i
  {
    hide Matches, Locked, Inside;
    if i < COUNT {
      AlignedNeverStraddles(s, i + 1, a, priv);
      TwoEndpoints(s, i, a, 4);
      SameWord(s, i, a, a + 3);
    }
  }

  /** The check of four bytes against the check of the access's own. */
  lemma WideCheckIff(s: Regs, a: nat, op: bv8, size: nat, priv: bv32)
    requires a < U32 && 1 <= size <= 4
    ensures Allowed(s, a, op, 4, priv) <==> Allowed(s, a, op, size, priv) && !Straddles(s, 0, a, priv)
  {
    hide Verdict, Straddles, CheckFrom;
    CheckIsVerdict(s, 0, a, op, 4, priv);
    CheckIsVerdict(s, 0, a, op, size, priv);
    WideVerdict(s, 0, a, op, size, priv);
  }

  /** The last byte of a readable word with nothing readable behind it. */
  lemma LastByteRefused(s: Regs, priv: bv32)
    requires s.cfg[0] == 0x11 && s.addr[0] == 0x2000_0000 && priv != M_MODE
    ensures Allowed(s, 0x8000_0003, 1, 1, priv) && !Allowed(s, 0x8000_0003, 1, 4, priv)
  {
    assert Matches(s, 0, 0x8000_0003) && !Matches(s, 0, 0x8000_0006);
  }

  // ------------------------------------------------------------ write ports

  /** A locked TOR entry also protects the entry below it. */
  predicate Writable(s: State, i: int)
    requires 0 <= i < COUNT && |s.cfg| == COUNT
  {
    !IsLocked(s.cfg[i]) && (i == COUNT - 1 || !LockedTor(s.cfg[i + 1]))
  }

  function NextByte(v: bv32): (r: bv32) { v >> 8 }

  /** A configuration word after `k` byte shifts. */
  function Shifted(val: bv32, k: nat): (r: bv32)
  {
    if k == 0 then val else NextByte(Shifted(val, k - 1))
  }

  /** Byte k of a configuration word. */
  function CfgByte(val: bv32, k: nat): (r: bv8) { Bits.LowByte(Shifted(val, k)) }

  function UpdateAddr(s: State, n: int, val: nat): (r: State)
    requires s.Shape() && 0 <= n < COUNT && val < U32
    ensures r.Shape()
  {
    if Writable(s, n) then s.(addr := s.addr[n := val]) else s
  }

  /** Configuration after a write to group `g`: all guards read the old values. */
  function NewCfg(s: State, g: int, val: bv32, i: int): (r: bv8)
    requires |s.cfg| == COUNT && 0 <= i < COUNT
  {
    if i / 4 == g && Writable(s, i) then CfgByte(val, i % 4) else s.cfg[i]
  }

  function UpdateConfig(s: State, g: int, val: bv32): (r: State)
    requires s.Shape() && 0 <= g < COUNT / 4
    ensures r.Valid()
  {
    State(seq(COUNT, i requires 0 <= i < COUNT => NewCfg(s, g, val, i)), s.addr,
          set i | 0 <= i < COUNT && NewCfg(s, g, val, i) != 0)
  }

  /** Neither it nor, as a TOR region, the entry above it is locked. */
  predicate Open(s: State, i: int)
    requires 0 <= i < COUNT && |s.cfg| == COUNT
  {
    !Locked(s.cfg[i]) && !(i < COUNT - 1 && Locked(s.cfg[i + 1]) && Mode(s.cfg[i + 1]) == 1)
  }

  lemma LockedTorBits(c: bv8)
    ensures LockedTor(c) == (IsLocked(c) && IsTor(c))
  {
  }

  lemma WritableIsOpen(s: State, i: int)
    requires 0 <= i < COUNT && |s.cfg| == COUNT
    ensures Writable(s, i) == Open(s, i)
  {
    hide IsLocked, IsTor, IsNa4, IsNapot, LockedTor, Locked, Mode;
    ConfigBits(s.cfg[i]);
    if i < COUNT - 1 {
      ConfigBits(s.cfg[i + 1]);
      LockedTorBits(s.cfg[i + 1]);
    }
  }

  function Weight(k: nat): (n: nat)
    requires k < 4
    ensures n > 0
  {
    if k == 0 then 1 else if k == 1 then 0x100 else if k == 2 then 0x1_0000 else 0x100_0000
  }

  lemma NextByteNum(v: bv32)
    ensures Bits.Num(NextByte(v)) == Bits.Num(v) / 256
  {
    NextIsRight(v);
    hide NextByte, Bits.Num, Bits.Right;
    Bits.EightNum();
    Bits.RightNum(v, 8);
  }

  lemma NextIsRight(v: bv32)
    ensures NextByte(v) == Bits.Right(v, 8)
  {
  }

  lemma DivideBytes(n: nat)
    ensures n / 256 / 256 == n / 0x1_0000 && n / 0x1_0000 / 256 == n / 0x100_0000
  {
  }

  lemma ShiftedNum(val: bv32, k: nat)
    requires k < 4
    ensures Bits.Num(Shifted(val, k)) == Bits.Num(val) / Weight(k)
  {
    hide NextByte, Bits.Num;
    DivideBytes(Bits.Num(val));
    if k > 0 {
      ShiftedNum(val, k - 1);
      NextByteNum(Shifted(val, k - 1));
    }
  }

  lemma CfgByteNum(val: bv32, k: nat)
    requires k < 4
    ensures CfgByte(val, k) as int == Bits.Num(val) / Weight(k) % 256
  {
    hide NextByte, Bits.LowByte, Bits.Num, Shifted;
    Bits.LowByteNum(Shifted(val, k));
    ShiftedNum(val, k);
  }

  /** What a configuration write does to every entry. */
  lemma ConfigWriteLaw(s: State, g: int, val: bv32, i: int)
    requires s.Shape() && 0 <= g < COUNT / 4 && 0 <= i < COUNT
    ensures UpdateConfig(s, g, val).cfg[i] as int
            == if i / 4 == g && Open(s, i) then Bits.Num(val) / Weight(i % 4) % 256 else s.cfg[i] as int
    ensures UpdateConfig(s, g, val).addr == s.addr
  {
    hide Writable, Open, CfgByte, Weight, Bits.Num;
    WritableIsOpen(s, i);
    CfgByteNum(val, i % 4);
  }

  /** What an address write does. */
  lemma AddrWriteLaw(s: State, n: int, val: nat)
    requires s.Shape() && 0 <= n < COUNT && val < U32
    ensures UpdateAddr(s, n, val).addr == (if Open(s, n) then s.addr[n := val] else s.addr)
    ensures UpdateAddr(s, n, val).cfg == s.cfg && UpdateAddr(s, n, val).ids == s.ids
  {
    hide Writable, Open;
    WritableIsOpen(s, n);
  }

  datatype Write = AddrWrite(n: int, val: nat) | ConfigWrite(g: int, word: bv32)

  predicate WellFormed(w: Write) {
    match w
    case AddrWrite(n, val) => 0 <= n < COUNT && val < U32
    case ConfigWrite(g, _) => 0 <= g < COUNT / 4
  }

  function Apply(s: State, w: Write): (r: State)
    requires s.Valid() && WellFormed(w)
    ensures r.Valid()
  {
    match w
    case AddrWrite(n, val) => UpdateAddr(s, n, val)
    case ConfigWrite(g, word) => UpdateConfig(s, g, word)
  }

  /** Any sequence of register writes keeps the index exact. */
  function Run(s: State, ws: seq<Write>): (r: State)
    requires s.Valid() && forall w :: w in ws ==> WellFormed(w)
    ensures r.Valid()
    decreases ws
  {
    if ws == [] then s
    else assert ws[0] in ws; Run(Apply(s, ws[0]), ws[1..])
  }

  // -------------------------------------------------------- lock permanence

  /** Everything that fixes entry `i`'s effect is the same in both states. */
  ghost predicate SameEntry(s: State, t: State, i: int)
    requires s.Shape() && t.Shape() && 0 <= i < COUNT
  {
    && t.cfg[i] == s.cfg[i]
    && t.addr[i] == s.addr[i]
    && (forall a :: Inside(t, i, a) == Inside(s, i, a))
  }

  lemma LockKeptByStep(s: State, w: Write, i: int)
    requires s.Valid() && WellFormed(w) && 0 <= i < COUNT && Locked(s.cfg[i])
    ensures SameEntry(s, Apply(s, w), i)
  {
    hide IsLocked, IsTor, IsNa4, IsNapot, LockedTor, CfgByte, Mode, Locked, NapotBase, NapotSize;
    ConfigBits(s.cfg[i]);
    if IsTor(s.cfg[i]) {
      LockedTorBits(s.cfg[i]);
      assert i > 0 ==> !Writable(s, i - 1);
      assert i > 0 ==> Apply(s, w).addr[i - 1] == s.addr[i - 1];
    }
  }

  /** Once locked, an entry keeps its permissions and its matched range under
      every later sequence of register writes. */
  lemma {:induction false} LockPermanence(s: State, ws: seq<Write>, i: int)
    requires s.Valid() && (forall w :: w in ws ==> WellFormed(w)) && 0 <= i < COUNT && Locked(s.cfg[i])
    ensures SameEntry(s, Run(s, ws), i)
    decreases ws
  {
    hide Locked, Region, Apply, WellFormed;
    if ws != [] {
      assert ws[0] in ws;
      LockKeptByStep(s, ws[0], i);
      LockPermanence(Apply(s, ws[0]), ws[1..], i);
    }
  }

  lemma {:induction false} SameVerdict(s: State, t: State, i: int, k: int, a: nat, op: bv8, size: nat, priv: bv32)
    requires s.Shape() && t.Shape() && 0 <= i <= k < COUNT
    requires forall j :: i <= j <= k ==> SameEntry(s, t, j)
    requires Decides(s, k, a, size, priv)
    ensures Verdict(s, i, a, op, size, priv) == Verdict(t, i, a, op, size, priv)
    decreases k - i
  {
    hide Inside, Locked, Grants;
    assert SameEntry(s, t, i);
    assert Decides(s, i, a, size, priv) == Decides(t, i, a, size, priv);
    if i < k {
      SameVerdict(s, t, i + 1, k, a, op, size, priv);
    }
  }

  /** If entries 0..k are locked and one of them decides an access, no later
      write can change the verdict. */
  lemma VerdictFrozen(s: State, ws: seq<Write>, k: int, a: nat, op: bv8, size: nat, priv: bv32)
    requires s.Valid() && (forall w :: w in ws ==> WellFormed(w)) && 0 <= k < COUNT
    requires forall j :: 0 <= j <= k ==> Locked(s.cfg[j])
    requires Decides(s, k, a, size, priv)
    ensures Verdict(Run(s, ws), 0, a, op, size, priv) == Verdict(s, 0, a, op, size, priv)
  {
    hide Inside, Locked, Grants, WellFormed, Run, Verdict;
    forall j | 0 <= j <= k ensures SameEntry(s, Run(s, ws), j) {
      LockPermanence(s, ws, j);
    }
    SameVerdict(s, Run(s, ws), 0, k, a, op, size, priv);
  }

  /** Supervisor and user accesses are judged alike; only M mode is special. */
  lemma {:induction false} CheckBelowM(s: State, i: int, a: nat, op: bv8, size: nat, p: bv32, q: bv32)
    requires s.Shape() && 0 <= i <= COUNT && size > 0 && p != M_MODE && q != M_MODE
    ensures CheckFrom(s, i, a, op, size, p) == CheckFrom(s, i, a, op, size, q)
    decreases COUNT - i
  {
    hide Matches, IsLocked, Permits;
    if i < COUNT {
      CheckBelowM(s, i + 1, a, op, size, p, q);
    }
  }

  // ------------------------------------------------------------ the hardware

  lemma ZeroIsOff()
    ensures Mode(0) == 0
  {
  }

  /** Entries with a zero configuration never decide. */
  lemma NeverDecides(s: State, i: int, a: nat, size: nat, priv: bv32)
    requires s.Shape() && 0 <= i < COUNT && s.cfg[i] == 0
    ensures !Decides(s, i, a, size, priv)
  {
    hide Mode, NapotBase, NapotSize;
    ZeroIsOff();
  }

  class Unit {
    const pmpaddr: array<nat>
    const pmpconfig: array<bv8>
    var entryId: set<int>

    ghost predicate Valid()
      reads this, pmpaddr, pmpconfig
    {
      pmpaddr.Length == COUNT && pmpconfig.Length == COUNT && pmpaddr as object != pmpconfig && Value().Valid()
    }

    ghost function Value(): (s: State)
      reads this, pmpaddr, pmpconfig
    {
      State(pmpconfig[..], pmpaddr[..], entryId)
    }

    constructor ()
      ensures Valid() && fresh(pmpaddr) && fresh(pmpconfig)
      ensures entryId == {} && forall i :: 0 <= i < COUNT ==> pmpconfig[i] == 0 && pmpaddr[i] == 0
    {
      pmpaddr := new nat[COUNT](_ => 0);
      pmpconfig := new bv8[COUNT](_ => 0);
      entryId := {};
    }

    /** `dcheck` and `icheck`: walk the sparse index in increasing order, test
        the two end bytes, stop at the first entry that binds. */
    method Check(addr: nat, op: bv8, size: nat, priv: bv32) returns (ok: bool)
      requires Valid() && addr < U32 && 1 <= size <= 4
      ensures ok == Verdict(Value(), 0, addr, op, size, priv)
    {
      hide InRange, Inside, Permits, Grants, IsLocked, Locked, Mode;
      ghost var s := Value();
      for i := 0 to COUNT
        invariant Verdict(s, 0, addr, op, size, priv) == Verdict(s, i, addr, op, size, priv)
      {
        if i in entryId {
          var cfg := pmpconfig[i];
          var prev := if i == 0 then 0 else pmpaddr[i - 1];
          var baseIn := InRange(cfg, prev, pmpaddr[i], addr);
          var topIn := InRange(cfg, prev, pmpaddr[i], addr + size - 1);
          TwoEndpoints(s, i, addr, size);
          ConfigBits(cfg);
          PermitsIsGrants(cfg, op);
          if (baseIn || topIn) && (priv != M_MODE || IsLocked(cfg)) {
            return Permits(cfg, op) && baseIn && topIn;
          }
        } else {
          NeverDecides(s, i, addr, size, priv);
        }
      }
      return priv == M_MODE;
    }

    method WriteAddr(n: int, val: nat)
      requires Valid() && 0 <= n < COUNT && val < U32
      modifies pmpaddr
      ensures Valid() && Value() == UpdateAddr(old(Value()), n, val)
    {
      hide IsLocked, LockedTor;
      if !IsLocked(pmpconfig[n]) {
        if n == COUNT - 1 || !LockedTor(pmpconfig[n + 1]) {
          pmpaddr[n] := val;
        }
      }
    }

    /** One byte of a configuration write.  Signal writes take effect after
        the step, so every guard reads the snapshot `cur`. */
    method WriteByte(ghost s: State, cur: seq<bv8>, a: int, b: bv8)
      requires pmpaddr as object != pmpconfig && pmpconfig.Length == COUNT && 0 <= a < COUNT
      requires s.cfg == cur && |cur| == COUNT && pmpconfig[a] == cur[a]
      requires forall j :: j in entryId <==> 0 <= j < COUNT && pmpconfig[j] != 0
      modifies this, pmpconfig
      ensures forall j :: 0 <= j < COUNT && j != a ==> pmpconfig[j] == old(pmpconfig[j])
      ensures pmpconfig[a] == if Writable(s, a) then b else cur[a]
      ensures forall j :: j in entryId <==> 0 <= j < COUNT && pmpconfig[j] != 0
    {
      hide IsLocked, LockedTor;
      if !IsLocked(cur[a]) {
        if a == COUNT - 1 || !LockedTor(cur[a + 1]) {
          pmpconfig[a] := b;
          if cur[a] == 0 && b != 0 { entryId := entryId + {a}; }
          if cur[a] != 0 && b == 0 { entryId := entryId - {a}; }
        }
      }
    }

    method WriteConfig(g: int, val: bv32)
      requires Valid() && 0 <= g < COUNT / 4
      modifies this, pmpconfig
      ensures Valid() && Value() == UpdateConfig(old(Value()), g, val)
    {
      hide IsLocked, LockedTor, Bits.LowByte, NextByte, Writable;
      ghost var s := Value();
      var cur := pmpconfig[..];
      var v := val;
      for i := 0 to 4
        invariant v == Shifted(val, i)
        invariant forall j :: 0 <= j < COUNT ==>
                                pmpconfig[j] == if j < 4 * g + i then NewCfg(s, g, val, j) else s.cfg[j]
        invariant forall j :: j in entryId <==> 0 <= j < COUNT && pmpconfig[j] != 0
        invariant pmpaddr[..] == s.addr
      {
        var a := 4 * g + i;
        assert a / 4 == g && a % 4 == i;
        WriteByte(s, cur, a, Bits.LowByte(v));
        v := NextByte(v);
      }
      assert pmpconfig[..] == UpdateConfig(s, g, val).cfg;
    }
  }
}
