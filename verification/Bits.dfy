/** Words as numbers: what the operations on machine words are in arithmetic. */
module Bits {
  import Mext
  const B := 0x1_0000_0000

  function Low(w: bv32): (b: nat)
    ensures b < 2
  {
    if w & 1 != 0 then 1 else 0
  }

  function Down(w: bv32): (h: bv32) { w >> 1 }

  /** The number a word is in binary. */
  function Num(w: bv32): (n: nat)
    decreases w
  {
    if w == 0 then 0
    else
      Halved(w);
      2 * Num(Down(w)) + Low(w)
  }

  /** Binary digit `k` of a number. */
  predicate Digit(n: nat, k: nat) { if k == 0 then n % 2 == 1 else Digit(n / 2, k - 1) }

  function Pow2(k: nat): (r: nat)
    ensures r > 0
  {
    if k == 0 then 1 else 2 * Pow2(k - 1)
  }

  lemma Halved(w: bv32)
    ensures w != 0 ==> Down(w) < w
  {
  }

  lemma Half(w: bv32)
    ensures Num(w) == 2 * Num(Down(w)) + Low(w)
    ensures Num(Down(w)) == Num(w) / 2 && Low(w) == Num(w) % 2
  {
    Halved(w);
    if w == 0 { assert Down(w) == 0; }
  }

  // ----------------------------------------------------- the built-in conversion

  function Cast(w: bv32): (n: nat) { w as int }

  lemma CastJoin(x: bv32, y: bv32)
    ensures Cast((x & 0xFFFF_FFFE) | (y & 1)) == Cast(x & 0xFFFF_FFFE) + Cast(y & 1)
  {
  }

  lemma CastTwice(w: bv32)
    ensures Cast(w & 0xFFFF_FFFE) == 2 * Cast((w & 0xFFFF_FFFE) >> 1)
  {
  }

  lemma CastOne(w: bv32)
    ensures Cast(w & 1) == Low(w) && Cast(0) == 0
  {
  }

  lemma Parts(w: bv32)
    ensures w == (w & 0xFFFF_FFFE) | (w & 1) && (w & 0xFFFF_FFFE) >> 1 == Down(w)
  {
  }

  lemma {:induction false} NumIsCast(w: bv32)
    ensures Num(w) == Cast(w)
    decreases w
  {
    hide Cast, Low, Down;
    CastOne(w);
    if w != 0 {
      Halved(w);
      NumIsCast(Down(w));
      CastJoin(w, w);
      CastTwice(w);
      Parts(w);
    }
  }

  /** The number of a word is what `as int` gives. */
  lemma NumIsInt(w: bv32)
    ensures Num(w) == w as int && Num(w) < B
  {
    NumIsCast(w);
    hide Num;
  }

  lemma NumBound(w: bv32)
    ensures Num(w) < B
  {
    NumIsInt(w);
  }

  lemma {:induction false} NumZero(w: bv32)
    requires Num(w) == 0
    ensures w == 0
    decreases w
  {
    hide Down, Low;
    if w != 0 {
      Halved(w);
      NumZero(Down(w));
      SmallWord(w);
    }
  }

  lemma SmallWord(w: bv32)
    requires Down(w) == 0 && Low(w) == 0
    ensures w == 0
  {
  }

  /** Equal numbers, equal words. */
  lemma {:induction false} NumInjective(a: bv32, b: bv32)
    requires Num(a) == Num(b)
    ensures a == b
    decreases a
  {
    hide Num, Down, Low;
    if a == 0 {
      ZeroNum();
      NumZero(b);
    } else {
      Half(a);
      Half(b);
      Halved(a);
      NumInjective(Down(a), Down(b));
      SameHalves(a, b);
    }
  }

  lemma ZeroNum()
    ensures Num(0) == 0
  {
  }

  lemma SameHalves(a: bv32, b: bv32)
    requires Down(a) == Down(b) && Low(a) == Low(b)
    ensures a == b
  {
  }

  // ------------------------------------------------------------ sum and difference

  function Plus(a: bv32, b: bv32): (r: bv32) { a + b }

  function Minus(a: bv32, b: bv32): (r: bv32) { a - b }

  function Complement(a: bv32): (r: bv32) { !a }

  /** Twice a word, with a low bit. */
  function Twice(t: bv32, c: bool): (r: bv32) { if c then t + t + 1 else t + t }

  function PlusCarry(a: bv32, b: bv32, c: bool): (r: bv32) { if c then a + b + 1 else a + b }

  function Rest(t: bv32): (r: bv32) { t & 0x7FFF_FFFF }

  predicate Top(t: bv32) { t & 0x8000_0000 != 0 }

  predicate Odd(w: bv32) { w & 1 != 0 }

  function Bit(b: bool): (n: nat) { if b then 1 else 0 }

  lemma LowIsOdd(w: bv32)
    ensures Low(w) == Bit(Odd(w))
  {
  }

  lemma CastTop(x: bv32, y: bv32)
    ensures Cast((x & 0x8000_0000) | (y & 0x7FFF_FFFF)) == Cast(x & 0x8000_0000) + Cast(y & 0x7FFF_FFFF)
    ensures Cast(x & 0x8000_0000) == if Top(x) then 0x8000_0000 else 0
    ensures Cast(y & 0x7FFF_FFFF) < 0x8000_0000
  {
  }

  lemma TopParts(t: bv32)
    ensures t == (t & 0x8000_0000) | (t & 0x7FFF_FFFF) && Rest(t) == t & 0x7FFF_FFFF
  {
  }

  /** The top bit weighs half of the range. */
  lemma TopBit(t: bv32)
    ensures Num(t) == Num(Rest(t)) + (if Top(t) then 0x8000_0000 else 0)
    ensures Num(Rest(t)) < 0x8000_0000
  {
    hide Cast, Num, Rest, Top;
    CastTop(t, t);
    TopParts(t);
    NumIsCast(t);
    NumIsCast(Rest(t));
  }

  lemma DoubleBits(t: bv32, c: bool)
    ensures Down(Twice(t, c)) == Rest(t) && Odd(Twice(t, c)) == c
  {
  }

  lemma Double(t: bv32, c: bool)
    ensures Num(Twice(t, c)) == (2 * Num(t) + Bit(c)) % B
  {
    hide Num, Low, Down, Rest, Top, Twice, Odd;
    DoubleBits(t, c);
    Half(Twice(t, c));
    LowIsOdd(Twice(t, c));
    TopBit(t);
  }

  predicate Carry(a: bool, b: bool, c: bool) { (a && b) || (c && (a || b)) }

  lemma TwiceHalf(w: bv32)
    ensures w == Twice(Down(w), Odd(w))
  {
  }

  lemma Sum000(x: bv32, y: bv32)
    ensures PlusCarry(x + x, y + y, false) == Twice(x + y, false)
  {
  }

  lemma Sum001(x: bv32, y: bv32)
    ensures PlusCarry(x + x, y + y, true) == Twice(x + y, true)
  {
  }

  lemma Sum010(x: bv32, y: bv32)
    ensures PlusCarry(x + x, y + y + 1, false) == Twice(x + y, true)
  {
  }

  lemma Sum011(x: bv32, y: bv32)
    ensures PlusCarry(x + x, y + y + 1, true) == Twice(x + y + 1, false)
  {
  }

  lemma Sum100(x: bv32, y: bv32)
    ensures PlusCarry(x + x + 1, y + y, false) == Twice(x + y, true)
  {
  }

  lemma Sum101(x: bv32, y: bv32)
    ensures PlusCarry(x + x + 1, y + y, true) == Twice(x + y + 1, false)
  {
  }

  lemma Sum110(x: bv32, y: bv32)
    ensures PlusCarry(x + x + 1, y + y + 1, false) == Twice(x + y + 1, false)
  {
  }

  lemma Sum111(x: bv32, y: bv32)
    ensures PlusCarry(x + x + 1, y + y + 1, true) == Twice(x + y + 1, true)
  {
  }

  lemma TwiceOne(x: bv32)
    ensures Twice(x, true) == x + x + 1
  {
  }

  lemma TwiceZero(x: bv32)
    ensures Twice(x, false) == x + x
  {
  }

  lemma PlusOne(x: bv32, y: bv32)
    ensures PlusCarry(x, y, true) == x + y + 1
  {
  }

  lemma PlusZero(x: bv32, y: bv32)
    ensures PlusCarry(x, y, false) == x + y
  {
  }

  lemma NoCarryIn(x: bv32, y: bv32)
    ensures PlusCarry(x + x, y + y, false) == Twice(x + y, false)
    ensures PlusCarry(x + x, y + y + 1, false) == Twice(x + y, true)
    ensures PlusCarry(x + x + 1, y + y, false) == Twice(x + y, true)
    ensures PlusCarry(x + x + 1, y + y + 1, false) == Twice(x + y + 1, false)
  {
    hide PlusCarry, Twice;
    Sum000(x, y);
    Sum010(x, y);
    Sum100(x, y);
    Sum110(x, y);
  }

  lemma CarryIn(x: bv32, y: bv32)
    ensures PlusCarry(x + x, y + y, true) == Twice(x + y, true)
    ensures PlusCarry(x + x, y + y + 1, true) == Twice(x + y + 1, false)
    ensures PlusCarry(x + x + 1, y + y, true) == Twice(x + y + 1, false)
    ensures PlusCarry(x + x + 1, y + y + 1, true) == Twice(x + y + 1, true)
  {
    hide PlusCarry, Twice;
    Sum001(x, y);
    Sum011(x, y);
    Sum101(x, y);
    Sum111(x, y);
  }

  lemma BitSum(a: bool, b: bool, c: bool)
    ensures Bit(a) + Bit(b) + Bit(c) == 2 * Bit(Carry(a, b, c)) + Bit((a != b) != c)
  {
  }

  lemma ZeroSum(c: bool)
    ensures Num(PlusCarry(0, 0, c)) == Bit(c)
  {
    assert PlusCarry(0, 0, c) == 0 || PlusCarry(0, 0, c) == 1;
    assert Down(1) == 0;
  }

  lemma {:induction false} SumCarry(a: bv32, b: bv32, c: bool)
    ensures Num(PlusCarry(a, b, c)) == (Num(a) + Num(b) + Bit(c)) % B
    decreases Num(a) + Num(b)
  {
    hide Num, Low, Down, Bit, Carry, Twice, PlusCarry, Odd;
    if a == 0 && b == 0 {
      ZeroNum();
      ZeroSum(c);
      BitSmall(c);
    } else {
      Smaller(a, b);
      SumCarry(Down(a), Down(b), Carry(Odd(a), Odd(b), c));
      SumStep(a, b, c);
    }
  }

  /** One column of the addition. */
  lemma SumStep(a: bv32, b: bv32, c: bool)
    requires var k := Carry(Odd(a), Odd(b), c);
             Num(PlusCarry(Down(a), Down(b), k)) == (Num(Down(a)) + Num(Down(b)) + Bit(k)) % B
    ensures Num(PlusCarry(a, b, c)) == (Num(a) + Num(b) + Bit(c)) % B
  {
    hide Num, Low, Down, Bit, Carry, Twice, PlusCarry, Odd;
    var k, s := Carry(Odd(a), Odd(b), c), (Odd(a) != Odd(b)) != c;
    HalvesSum(a, b, c);
    Double(PlusCarry(Down(a), Down(b), k), s);
    Columns(a, b, c);
    DoubleMod(Num(Down(a)) + Num(Down(b)) + Bit(k), Bit(s));
  }

  lemma HalvesSum(a: bv32, b: bv32, c: bool)
    ensures PlusCarry(a, b, c)
            == Twice(PlusCarry(Down(a), Down(b), Carry(Odd(a), Odd(b), c)), (Odd(a) != Odd(b)) != c)
  {
    hide Down, Twice, PlusCarry, Odd;
    var x, y := Down(a), Down(b);
    TwiceHalf(a);
    TwiceHalf(b);
    TwiceOne(x);
    TwiceZero(x);
    TwiceOne(y);
    TwiceZero(y);
    PlusOne(x, y);
    PlusZero(x, y);
    if c { CarryIn(x, y); } else { NoCarryIn(x, y); }
  }

  lemma Columns(a: bv32, b: bv32, c: bool)
    ensures Num(a) + Num(b) + Bit(c)
            == 2 * (Num(Down(a)) + Num(Down(b)) + Bit(Carry(Odd(a), Odd(b), c))) + Bit((Odd(a) != Odd(b)) != c)
  {
    hide Num, Low, Down, Bit, Carry, Odd;
    BitSum(Odd(a), Odd(b), c);
    Half(a);
    Half(b);
    LowIsOdd(a);
    LowIsOdd(b);
  }

  lemma DoubleMod(m: nat, s: nat)
    ensures (2 * (m % B) + s) % B == (2 * m + s) % B
  {
  }

  lemma BitSmall(c: bool)
    ensures Bit(c) < 2
  {
  }

  lemma Smaller(a: bv32, b: bv32)
    requires a != 0 || b != 0
    ensures Num(Down(a)) + Num(Down(b)) < Num(a) + Num(b)
  {
    hide Num, Low, Down;
    Half(a);
    Half(b);
    if Num(a) == 0 { NumZero(a); }
    if Num(b) == 0 { NumZero(b); }
  }

  lemma NoCarry(a: bv32, b: bv32)
    ensures PlusCarry(a, b, false) == Plus(a, b) && Bit(false) == 0
  {
  }

  /** Addition is modulo 2^32. */
  lemma PlusNum(a: bv32, b: bv32)
    ensures Num(Plus(a, b)) == (Num(a) + Num(b)) % B
  {
    hide Num, Plus, PlusCarry, Bit;
    NoCarry(a, b);
    SumCarry(a, b, false);
  }

  lemma MinusBack(a: bv32, b: bv32)
    ensures Plus(Minus(a, b), b) == a
  {
    hide Plus, Minus;
    RawBack(a, b);
    MinusRaw(a, b);
  }

  lemma RawBack(a: bv32, b: bv32)
    ensures Plus(a - b, b) == a
  {
  }

  lemma MinusRaw(a: bv32, b: bv32)
    ensures Minus(a, b) == a - b
  {
  }

  /** Subtraction is modulo 2^32. */
  lemma MinusNum(a: bv32, b: bv32)
    ensures Num(Minus(a, b)) == (Num(a) - Num(b)) % B
  {
    hide Num, Plus, Minus;
    MinusBack(a, b);
    PlusNum(Minus(a, b), b);
    NumBound(a);
    NumBound(b);
    NumBound(Minus(a, b));
  }

  lemma ComplementSum(a: bv32)
    ensures Plus(a, Complement(a)) == 0xFFFF_FFFF
  {
  }

  lemma AllOnes()
    ensures Num(0xFFFF_FFFF) == 0xFFFF_FFFF
  {
    hide Num;
    NumIsInt(0xFFFF_FFFF);
  }

  lemma ComplementNum(a: bv32)
    ensures Num(Complement(a)) == B - 1 - Num(a)
  {
    hide Num, Plus, Complement;
    ComplementSum(a);
    PlusNum(a, Complement(a));
    AllOnes();
    NumBound(a);
    NumBound(Complement(a));
  }

  // ------------------------------------------------------------------ order

  predicate Less(a: bv32, b: bv32) { a < b }

  lemma LessHigh(a: bv32, b: bv32)
    requires Less(Down(a), Down(b))
    ensures Less(a, b)
  {
  }

  lemma LessLow(a: bv32, b: bv32)
    requires Down(a) == Down(b) && !Odd(a) && Odd(b)
    ensures Less(a, b)
  {
  }

  lemma LessOne(a: bv32, b: bv32)
    ensures !(Less(a, b) && Less(b, a))
  {
  }

  lemma {:induction false} SmallerIsLess(a: bv32, b: bv32)
    requires Num(a) < Num(b)
    ensures Less(a, b)
    decreases Num(b)
  {
    hide Num, Low, Down, Odd, Bit, Less;
    Half(a);
    Half(b);
    LowIsOdd(a);
    LowIsOdd(b);
    BitOrder(Odd(a), Odd(b));
    if Num(Down(a)) == Num(Down(b)) {
      NumInjective(Down(a), Down(b));
      LessLow(a, b);
    } else {
      SmallerIsLess(Down(a), Down(b));
      LessHigh(a, b);
    }
  }

  /** Words are ordered as their numbers are. */
  lemma LessNum(a: bv32, b: bv32)
    ensures Less(a, b) <==> Num(a) < Num(b)
  {
    hide Num, Less;
    LessOne(a, b);
    if Num(a) < Num(b) {
      SmallerIsLess(a, b);
    } else if Num(b) < Num(a) {
      SmallerIsLess(b, a);
    } else {
      NumInjective(a, b);
    }
  }

  lemma BitOrder(p: bool, q: bool)
    ensures Bit(p) < Bit(q) <==> !p && q
    ensures Bit(p) < 2 && Bit(q) < 2
  {
  }

  /** The two's complement reading. */
  function Int(w: bv32): (r: int) { if Num(w) < 0x8000_0000 then Num(w) else Num(w) - B }

  function Flip(a: bv32): (r: bv32) { a ^ 0x8000_0000 }

  /** The number of a word, as the M unit takes it. */
  function W(w: bv32): (n: Mext.Word) {
    NumBound(w);
    Num(w)
  }

  lemma IntIsSigned(w: bv32)
    ensures Int(w) == Mext.Signed(W(w))
  {
    hide Num;
    NumBound(w);
  }

  lemma FlipRaw(a: bv32)
    ensures Flip(a) == a ^ 0x8000_0000
  {
  }

  lemma FlipTop(a: bv32)
    ensures Flip(a) == Plus(a, 0x8000_0000)
  {
  }

  lemma TopNum()
    ensures Num(0x8000_0000) == 0x8000_0000
  {
    hide Num;
    NumIsInt(0x8000_0000);
  }

  lemma FlipNum(a: bv32)
    ensures Num(Flip(a)) == Int(a) + 0x8000_0000
  {
    hide Num, Flip, Plus;
    FlipTop(a);
    PlusNum(a, 0x8000_0000);
    TopNum();
    NumBound(a);
  }

  /** Comparison with the top bits flipped is the order of the signed readings. */
  lemma SignedOrder(a: bv32, b: bv32)
    ensures Less(Flip(a), Flip(b)) <==> Int(a) < Int(b)
  {
    hide Num, Flip, Less, Int;
    LessNum(Flip(a), Flip(b));
    FlipNum(a);
    FlipNum(b);
  }

  // ---------------------------------------------------------- digits of a word

  lemma TestHere(w: bv32)
    ensures (w & (1 << 0) != 0) == Odd(w)
  {
  }

  lemma TestNext(w: bv32, k: bv32)
    requires 0 < k < 32
    ensures (w & (1 << k) != 0) == (Down(w) & (1 << (k - 1)) != 0)
  {
  }

  predicate Test(w: bv32, k: bv32)
    requires k < 32
  {
    w & (1 << k) != 0
  }

  /** The usual test of bit `k` tells the binary digit. */
  lemma {:induction false} TestDigit(w: bv32, k: bv32)
    requires k < 32
    ensures Test(w, k) <==> Digit(Num(w), Num(k))
    decreases k
  {
    Half(w);
    LowIsOdd(w);
    hide Num, Odd, Down, Low;
    if k == 0 {
      ZeroNum();
      TestHere(w);
    } else {
      TestNext(w, k);
      StepDown(k);
      TestDigit(Down(w), Minus(k, 1));
    }
  }

  lemma StepDown(k: bv32)
    requires 0 < k < 32
    ensures Minus(k, 1) < k && Minus(k, 1) < 32 && Num(k) == Num(Minus(k, 1)) + 1 && Minus(k, 1) == k - 1
  {
    MinusSmaller(k);
    hide Num, Minus;
    MinusNum(k, 1);
    OneNum();
    NumBound(k);
    if Num(k) == 0 { NumZero(k); }
  }

  lemma MinusSmaller(k: bv32)
    requires 0 < k < 32
    ensures Minus(k, 1) < k && Minus(k, 1) < 32 && Minus(k, 1) == k - 1
  {
  }

  lemma OneNum()
    ensures Num(1) == 1
  {
    hide Num;
    NumIsInt(1);
  }

  function Both(a: bv32, b: bv32): (r: bv32) { a & b }

  function Either(a: bv32, b: bv32): (r: bv32) { a | b }

  function Differ(a: bv32, b: bv32): (r: bv32) { a ^ b }

  lemma BothHalf(a: bv32, b: bv32)
    ensures Down(Both(a, b)) == Both(Down(a), Down(b)) && (Odd(Both(a, b)) == (Odd(a) && Odd(b)))
  {
  }

  lemma EitherHalf(a: bv32, b: bv32)
    ensures Down(Either(a, b)) == Either(Down(a), Down(b)) && (Odd(Either(a, b)) == (Odd(a) || Odd(b)))
  {
  }

  lemma DifferHalf(a: bv32, b: bv32)
    ensures Down(Differ(a, b)) == Differ(Down(a), Down(b)) && (Odd(Differ(a, b)) == (Odd(a) != Odd(b)))
  {
  }

  lemma OddDigit(w: bv32)
    ensures Odd(w) <==> Num(w) % 2 == 1
    ensures Num(Down(w)) == Num(w) / 2
  {
    hide Num, Odd, Down, Low;
    Half(w);
    LowIsOdd(w);
  }

  /** And, or and exclusive or go digit by digit. */
  lemma {:induction false} LogicDigits(a: bv32, b: bv32, k: nat)
    ensures Digit(Num(Both(a, b)), k) <==> Digit(Num(a), k) && Digit(Num(b), k)
    ensures Digit(Num(Either(a, b)), k) <==> Digit(Num(a), k) || Digit(Num(b), k)
    ensures Digit(Num(Differ(a, b)), k) <==> Digit(Num(a), k) != Digit(Num(b), k)
    decreases k
  {
    hide Num, Odd, Down, Both, Either, Differ;
    BothHalf(a, b);
    EitherHalf(a, b);
    DifferHalf(a, b);
    OddDigit(a);
    OddDigit(b);
    OddDigit(Both(a, b));
    OddDigit(Either(a, b));
    OddDigit(Differ(a, b));
    if k > 0 { LogicDigits(Down(a), Down(b), k - 1); }
  }

  lemma {:induction false} FlippedDigit(n: nat, w: nat, k: nat)
    requires k < w && n < Pow2(w)
    ensures Digit(Pow2(w) - 1 - n, k) == !Digit(n, k)
    decreases k
  {
    var p := Pow2(w - 1);
    assert Pow2(w) == 2 * p;
    if k > 0 {
      assert (2 * p - 1 - n) / 2 == p - 1 - n / 2;
      FlippedDigit(n / 2, w - 1, k - 1);
    }
  }

  lemma WordPower()
    ensures Pow2(32) == B
  {
    assert Pow2(8) == 256;
    assert Pow2(16) == 0x1_0000;
    assert Pow2(24) == 0x100_0000;
  }

  lemma BothRaw(a: bv32, b: bv32)
    ensures Both(a, b) == a & b
  {
  }

  lemma EitherRaw(a: bv32, b: bv32)
    ensures Either(a, b) == a | b
  {
  }

  lemma ComplementRaw(a: bv32)
    ensures Complement(a) == !a
  {
  }

  /** Multiplying by a power of two moves the digits up. */
  lemma {:induction false} MovedDigit(n: nat, j: nat, k: nat)
    ensures Digit(n * Pow2(j), k) <==> k >= j && Digit(n, k - j)
    decreases j
  {
    if j > 0 {
      var p := Pow2(j - 1);
      assert n * Pow2(j) == 2 * (n * p);
      if k > 0 { MovedDigit(n, j - 1, k - 1); }
    }
  }

  /** Numbers below 2^32 with the same 32 digits are the same. */
  lemma {:induction false} DigitsDecide(m: nat, n: nat, w: nat)
    requires m < Pow2(w) && n < Pow2(w) && forall k :: 0 <= k < w ==> Digit(m, k) == Digit(n, k)
    ensures m == n
    decreases w
  {
    if w > 0 {
      forall k | 0 <= k < w - 1 ensures Digit(m / 2, k) == Digit(n / 2, k) {
        assert Digit(m, k + 1) == Digit(n, k + 1);
      }
      DigitsDecide(m / 2, n / 2, w - 1);
      assert Digit(m, 0) == Digit(n, 0);
    }
  }

  /** Digit `k` is the number divided by 2^k, modulo 2. */
  lemma {:induction false} DigitIs(n: nat, k: nat)
    ensures Digit(n, k) <==> n / Pow2(k) % 2 == 1
    decreases k
  {
    if k > 0 {
      DigitIs(n / 2, k - 1);
      DivideTwice(n, Pow2(k - 1));
    }
  }

  // --------------------------------------------------------------------- division

  lemma Multiple(m: nat, d: int)
    requires d >= 1
    ensures m * d >= m
  {
    assert m * (d - 1) >= 0;
  }

  /** Quotient and remainder are determined by their equation. */
  lemma Quotient(x: nat, m: nat, q: nat, r: nat)
    requires m > 0 && x == m * q + r && r < m
    ensures x / m == q && x % m == r
  {
    var d := x / m - q;
    assert x == m * (x / m) + x % m;
    assert m * d == r - x % m;
    if d >= 1 { Multiple(m, d); }
    if d <= -1 { Multiple(m, -d); }
  }

  lemma DivideTwice(n: nat, p: nat)
    requires p > 0
    ensures n / 2 / p == n / (2 * p)
  {
    var q, r := n / 2 / p, n / 2 % p;
    assert n / 2 == p * q + r;
    assert 2 * p * q == 2 * (p * q);
    Quotient(n, 2 * p, q, 2 * r + n % 2);
  }

  // ---------------------------------------------------------------------- shifts

  function Left(v: bv32, m: bv32): (r: bv32)
    requires m < 32
  {
    v << m
  }

  function Right(v: bv32, m: bv32): (r: bv32)
    requires m < 32
  {
    v >> m
  }

  lemma ShiftSteps(v: bv32, m: bv32)
    requires 0 < m < 32
    ensures Left(v, m) == Left(Plus(v, v), m - 1) && Right(v, m) == Right(Down(v), m - 1)
  {
    hide Left, Right, Plus, Down;
    LeftStep(v, m);
    RightStep(v, m);
    DoubleIs(v);
    DownIs(v);
  }

  lemma LeftStep(v: bv32, m: bv32)
    requires 0 < m < 32
    ensures Left(v, m) == Left(v + v, m - 1)
  {
  }

  lemma RightStep(v: bv32, m: bv32)
    requires 0 < m < 32
    ensures Right(v, m) == Right(v >> 1, m - 1)
  {
  }

  lemma DoubleIs(v: bv32)
    ensures Plus(v, v) == v + v
  {
  }

  lemma DownIs(v: bv32)
    ensures Down(v) == v >> 1
  {
  }

  lemma NoShift(v: bv32)
    ensures Left(v, 0) == v && Right(v, 0) == v
  {
  }

  lemma ModTwice(x: nat, p: nat)
    ensures x * 2 % B * p % B == x * (2 * p) % B
  {
    var q := x * 2 / B;
    assert x * 2 == B * q + x * 2 % B;
    assert x * (2 * p) == x * 2 * p;
    assert x * 2 * p == B * (q * p) + x * 2 % B * p;
    AddMultiple(x * 2 % B * p, q * p);
  }

  lemma AddMultiple(x: nat, q: nat)
    ensures (B * q + x) % B == x % B
  {
  }

  /** A left shift multiplies modulo 2^32. */
  lemma {:induction false} LeftNum(v: bv32, m: bv32)
    requires m < 32
    ensures Num(Left(v, m)) == Num(v) * Pow2(Num(m)) % B
    decreases m
  {
    hide Num, Left, Right, Plus, Minus, Down;
    NumBound(v);
    if m == 0 {
      ZeroNum();
      NoShift(v);
    } else {
      StepDown(m);
      ShiftSteps(v, m);
      LeftNum(Plus(v, v), Minus(m, 1));
      PlusNum(v, v);
      ModTwice(Num(v), Pow2(Num(m) - 1));
    }
  }

  /** A right shift divides. */
  lemma {:induction false} RightNum(v: bv32, m: bv32)
    requires m < 32
    ensures Num(Right(v, m)) == Num(v) / Pow2(Num(m))
    decreases m
  {
    hide Num, Left, Right, Plus, Minus, Down;
    if m == 0 {
      ZeroNum();
      NoShift(v);
    } else {
      StepDown(m);
      ShiftSteps(v, m);
      RightNum(Down(v), Minus(m, 1));
      OddDigit(v);
      DivideTwice(Num(v), Pow2(Num(m) - 1));
    }
  }

  // ------------------------------------------------------------ low bits and bytes

  /** The lowest `k` bits. */
  function Keep(w: bv32, k: bv32): (r: bv32)
    requires k < 32
  {
    w & ((1 << k) - 1)
  }

  lemma KeepNone(w: bv32)
    ensures Keep(w, 0) == 0
  {
  }

  lemma KeepHalf(w: bv32, k: bv32)
    requires 0 < k < 32
    ensures Down(Keep(w, k)) == Keep(Down(w), k - 1) && Odd(Keep(w, k)) == Odd(w)
  {
  }

  lemma ModHalf(n: nat, p: nat)
    requires p > 0
    ensures n % (2 * p) == 2 * (n / 2 % p) + n % 2
  {
    var q, r := n / 2 / p, n / 2 % p;
    assert n / 2 == p * q + r;
    assert 2 * p * q == 2 * (p * q);
    Quotient(n, 2 * p, q, 2 * r + n % 2);
  }

  /** Masking takes the remainder. */
  lemma {:induction false} KeepNum(w: bv32, k: bv32)
    requires k < 32
    ensures Num(Keep(w, k)) == Num(w) % Pow2(Num(k))
    decreases k
  {
    hide Num, Keep, Minus, Down, Odd;
    if k == 0 {
      ZeroNum();
      KeepNone(w);
    } else {
      StepDown(k);
      KeepHalf(w, k);
      KeepNum(Down(w), Minus(k, 1));
      OddDigit(w);
      OddDigit(Keep(w, k));
      ModHalf(Num(w), Pow2(Num(k) - 1));
    }
  }

  function OfNat(n: nat): (w: bv32)
    requires n < B
  {
    n as bv32
  }

  function Build(n: nat): (w: bv32) { if n == 0 then 0 else Twice(Build(n / 2), n % 2 == 1) }

  lemma {:induction false} BuildNum(n: nat)
    requires n < B
    ensures Num(Build(n)) == n
    decreases n
  {
    hide Num, Twice;
    if n == 0 {
      ZeroNum();
    } else {
      BuildNum(n / 2);
      Double(Build(n / 2), n % 2 == 1);
    }
  }

  lemma CastBack(w: bv32)
    ensures OfNat(Cast(w)) == w
  {
  }

  /** The word of a number is that number. */
  lemma OfNatNum(n: nat)
    requires n < B
    ensures Num(OfNat(n)) == n
  {
    hide Num, OfNat, Build, Cast;
    BuildNum(n);
    NumIsCast(Build(n));
    CastBack(Build(n));
  }

  function Wide(b: bv8): (w: bv32) { b as bv32 }

  function Value(b: bv8): (n: nat)
    ensures n < 256
  {
    b as int
  }

  lemma WideCast(b: bv8)
    ensures Cast(Wide(b)) == Value(b)
  {
  }

  lemma WideNum(b: bv8)
    ensures Num(Wide(b)) == Value(b)
  {
    hide Num, Wide, Value, Cast;
    WideCast(b);
    NumIsCast(Wide(b));
  }

  function LowByte(w: bv32): (b: bv8) { (w & 0xFF) as bv8 }

  lemma LowByteWide(w: bv32)
    ensures Wide(LowByte(w)) == Keep(w, 8)
  {
  }

  lemma EightNum()
    ensures Num(8) == 8 && Pow2(8) == 256
  {
    hide Num;
    NumIsInt(8);
  }

  lemma LowByteNum(w: bv32)
    ensures Value(LowByte(w)) == Num(w) % 256
  {
    hide Num, Wide, Value, Keep, LowByte;
    LowByteWide(w);
    WideNum(LowByte(w));
    EightNum();
    KeepNum(w, 8);
  }

  lemma PushParts(a: bv32, b: bv8)
    ensures (a << 8) | (b as bv32) == Plus(Left(a, 8), Wide(b))
  {
  }

  lemma ModPlus(x: nat, y: nat)
    ensures (x % B + y) % B == (x + y) % B
  {
  }

  lemma LeftByte(a: bv32)
    ensures Num(Left(a, 8)) == Num(a) * 256 % B
  {
    hide Num, Left;
    EightNum();
    LeftNum(a, 8);
  }

  /** A byte pushed in from below. */
  lemma PushNum(a: bv32, b: bv8)
    ensures Num((a << 8) | (b as bv32)) == (Num(a) * 256 + Value(b)) % B
  {
    hide Num, Wide, Value, Left, Plus;
    PushParts(a, b);
    PlusNum(Left(a, 8), Wide(b));
    LeftByte(a);
    WideNum(b);
    ModPlus(Num(a) * 256, Value(b));
  }

  // ----------------------------------------------------------- masks of one bit

  /** The word with bit `k` alone. */
  function Mask(k: nat): (m: bv32)
    requires k < 32
  {
    SmallShift(k);
    1 << OfNat(k)
  }

  lemma SmallShift(k: nat)
    requires k < 32
    ensures OfNat(k) < 32
  {
  }

  predicate Meets(w: bv32, mask: bv32) { w & mask != 0 }

  lemma MeetsTest(w: bv32, k: nat)
    requires k < 32
    ensures OfNat(k) < 32 && Meets(w, Mask(k)) == Test(w, OfNat(k))
  {
    SmallShift(k);
  }

  /** Testing a word with a one-bit mask tells the binary digit. */
  lemma MaskDigit(w: bv32, k: nat)
    requires k < 32
    ensures Meets(w, Mask(k)) <==> Digit(Num(w), k)
  {
    hide Meets, Mask, Test, OfNat, Num;
    MeetsTest(w, k);
    TestDigit(w, OfNat(k));
    OfNatNum(k);
  }

  lemma {:induction false} PowerDigit(j: nat, k: nat)
    ensures Digit(Pow2(j), k) <==> k == j
    decreases j
  {
    if j > 0 && k > 0 {
      assert Pow2(j) / 2 == Pow2(j - 1);
      PowerDigit(j - 1, k - 1);
    } else if j == 0 && k > 0 {
      ZeroDigit(k - 1);
    }
  }

  lemma {:induction false} ZeroDigit(k: nat)
    ensures !Digit(0, k)
    decreases k
  {
    if k > 0 { ZeroDigit(k - 1); }
  }

  lemma MaskIsLeft(k: nat)
    requires k < 32
    ensures OfNat(k) < 32 && Mask(k) == Left(1, OfNat(k))
  {
    SmallShift(k);
  }

  /** A one-bit mask has that digit alone. */
  lemma MaskDigits(j: nat, k: nat)
    requires j < 32
    ensures Digit(Num(Mask(j)), k) <==> k == j
  {
    hide Num, Mask, OfNat, Left, Digit, Pow2;
    MaskIsLeft(j);
    LeftNum(1, OfNat(j));
    OfNatNum(j);
    OneNum();
    WordPower();
    PowerBelow(j, 32);
    PowerDigit(j, k);
  }

  lemma {:induction false} PowerBelow(j: nat, w: nat)
    requires j < w
    ensures Pow2(j) < Pow2(w)
    decreases w
  {
    if j < w - 1 { PowerBelow(j, w - 1); }
  }

  /** Complement turns every digit. */
  lemma ComplementDigit(w: bv32, k: nat)
    requires k < 32
    ensures Digit(Num(Complement(w)), k) == !Digit(Num(w), k)
  {
    hide Num, Complement, Digit, Pow2;
    NumBound(w);
    ComplementNum(w);
    WordPower();
    FlippedDigit(Num(w), 32, k);
  }

  lemma Masks()
    ensures Mask(0) == 0x1 && Mask(1) == 0x2 && Mask(2) == 0x4 && Mask(3) == 0x8
    ensures Mask(4) == 0x10 && Mask(5) == 0x20 && Mask(6) == 0x40 && Mask(7) == 0x80
  {
  }

  lemma HighMasks()
    ensures Mask(8) == 0x100 && Mask(17) == 0x2_0000 && Mask(18) == 0x4_0000 && Mask(19) == 0x8_0000
    ensures Mask(20) == 0x10_0000 && Mask(21) == 0x20_0000 && Mask(22) == 0x40_0000 && Mask(31) == 0x8000_0000
  {
  }

  /** The low byte of a word, digit by digit. */
  lemma LowDigits(w: bv32)
    ensures (w & 0x1 != 0) == Digit(Num(w), 0) && (w & 0x2 != 0) == Digit(Num(w), 1)
    ensures (w & 0x4 != 0) == Digit(Num(w), 2) && (w & 0x8 != 0) == Digit(Num(w), 3)
    ensures (w & 0x10 != 0) == Digit(Num(w), 4) && (w & 0x20 != 0) == Digit(Num(w), 5)
    ensures (w & 0x40 != 0) == Digit(Num(w), 6) && (w & 0x80 != 0) == Digit(Num(w), 7)
  {
    hide Mask, Num, Digit;
    Masks();
    MaskDigit(w, 0);
    MaskDigit(w, 1);
    MaskDigit(w, 2);
    MaskDigit(w, 3);
    MaskDigit(w, 4);
    MaskDigit(w, 5);
    MaskDigit(w, 6);
    MaskDigit(w, 7);
  }

  lemma HighDigits(w: bv32)
    ensures (w & 0x100 != 0) == Digit(Num(w), 8) && (w & 0x2_0000 != 0) == Digit(Num(w), 17)
    ensures (w & 0x4_0000 != 0) == Digit(Num(w), 18) && (w & 0x8_0000 != 0) == Digit(Num(w), 19)
    ensures (w & 0x10_0000 != 0) == Digit(Num(w), 20) && (w & 0x20_0000 != 0) == Digit(Num(w), 21)
    ensures (w & 0x40_0000 != 0) == Digit(Num(w), 22) && (w & 0x8000_0000 != 0) == Digit(Num(w), 31)
  {
    hide Mask, Num, Digit;
    HighMasks();
    MaskDigit(w, 8);
    MaskDigit(w, 17);
    MaskDigit(w, 18);
    MaskDigit(w, 19);
    MaskDigit(w, 20);
    MaskDigit(w, 21);
    MaskDigit(w, 22);
    MaskDigit(w, 31);
  }
}
