/** The M unit (src/mext.hpp): multiplication and division of 32-bit words. */
module Mext {

  const B := 0x1_0000_0000

  type Word = x: nat | x < B

  /** Two's complement reading of a word, and the word of any integer. */
  function Signed(x: Word): (r: int) { if x < 0x8000_0000 then x else x - B }

  function Trunc(v: int): (r: Word) { v % B }

  /** A 64-bit register holding any integer. */
  function Wrap64(v: int): (r: nat) { v % (B * B) }

  /** Bits 63..32 of a 64-bit value. */
  function High(v: int): (r: Word) { Wrap64(v) / B }

  /** C division and remainder: the quotient is rounded toward zero. */
  function Quot(a: int, b: int): (r: int)
    requires b != 0
  {
    if a >= 0 then a / b else -((-a) / b)
  }

  function Rest(a: int, b: int): (r: int)
    requires b != 0
  {
    a - Quot(a, b) * b
  }

  function Mul(a: Word, b: Word): (r: Word) { Trunc(Signed(a) * Signed(b)) }

  function Mulh(a: Word, b: Word): (r: Word) { High(Signed(a) * Signed(b)) }

  /** The signed operand is converted to unsigned 64 bits before multiplying. */
  function Mulhsu(a: Word, b: Word): (r: Word) { High(Wrap64(Signed(a)) * b) }

  function Mulhu(a: Word, b: Word): (r: Word) { High(a * b) }

  predicate Overflows(a: Word, b: Word) { a == 0x8000_0000 && b == 0xFFFF_FFFF }

  function Div(a: Word, b: Word): (r: Word) {
    if b == 0 then Trunc(-1)
    else if Overflows(a, b) then Trunc(-0x8000_0000)
    else Trunc(Quot(Signed(a), Signed(b)))
  }

  function Divu(a: Word, b: Word): (r: Word) { if b == 0 then 0xFFFF_FFFF else Trunc(a / b) }

  function Rem(a: Word, b: Word): (r: Word) {
    if b == 0 then a
    else if Overflows(a, b) then 0
    else Trunc(Rest(Signed(a), Signed(b)))
  }

  function Remu(a: Word, b: Word): (r: Word) { if b == 0 then a else a % b }

  // Products.

  lemma SameResidue(v: int, w: int, k: int, m: int)
    requires m > 0 && v == w + k * m
    ensures v % m == w % m
  {
    var d := v / m - w / m - k;
    assert v % m - w % m == -(d * m) by {
      assert v == m * (v / m) + v % m && w == m * (w / m) + w % m;
      Distribute(v / m, w / m, k, m);
    }
    if d >= 1 { Grows(d, m); }
    if d <= -1 { Grows(-d, m); }
  }

  lemma Distribute(x: int, y: int, k: int, m: int)
    ensures (x - y - k) * m == m * x - m * y - k * m
  {
  }

  lemma Grows(d: int, m: int)
    requires d >= 1 && m > 0
    ensures d * m >= m
  {
    assert (d - 1) * m >= 0;
  }

  /** The two halves of a wrapped 64-bit value put it back together. */
  lemma Halves(v: int)
    ensures High(v) * B + Trunc(v) == Wrap64(v)
  {
    SameResidue(v, Wrap64(v), v / (B * B) * B, B);
  }

  /** MUL's low half does not depend on which operands are read as signed. */
  lemma LowHalf(a: Word, b: Word)
    ensures Mul(a, b) == Trunc(a * b) == Trunc(Signed(a) * b)
  {
    SameResidue(a * b, Signed(a) * b, if a < 0x8000_0000 then 0 else b, B);
    SameResidue(Signed(a) * b, Signed(a) * Signed(b), if b < 0x8000_0000 then 0 else Signed(a), B);
  }

  lemma Bounded(x: int, y: int, m: nat, n: nat)
    requires 0 - m <= x <= m && 0 - n <= y <= n
    ensures -(m * n) <= x * y <= m * n
  {
    var p, q := if x >= 0 then x else -x, if y >= 0 then y else -y;
    assert p * q <= m * q <= m * n;
    assert x * y == p * q || x * y == -(p * q);
  }

  lemma UnsignedHalves(v: int)
    requires 0 <= v < B * B
    ensures High(v) * B + Trunc(v) == v
  {
    Halves(v);
  }

  /** MULHU and MUL hold the exact unsigned product. */
  lemma UnsignedProduct(a: Word, b: Word)
    ensures Mulhu(a, b) * B + Mul(a, b) == a * b
  {
    hide High, Trunc, Signed, Mul;
    Bounded(a, b, B - 1, B - 1);
    UnsignedHalves(a * b);
    LowHalf(a, b);
  }

  /** A value that fits in 64 signed bits is its signed high half and its low half. */
  lemma SignedHalves(v: int)
    requires -0x8000_0000 * B <= v < 0x8000_0000 * B
    ensures Signed(High(v)) * B + Trunc(v) == v
  {
    Halves(v);
    if v < 0 { SameResidue(v, v + B * B, -1, B * B); }
  }

  /** MULH and MUL hold the exact signed product. */
  lemma SignedProduct(a: Word, b: Word)
    ensures Signed(Mulh(a, b)) * B + Mul(a, b) == Signed(a) * Signed(b)
  {
    Bounded(Signed(a), Signed(b), 0x8000_0000, 0x8000_0000);
    SignedHalves(Signed(a) * Signed(b));
  }

  /** MULHSU and MUL hold the exact product of a signed and an unsigned operand. */
  lemma MixedProduct(a: Word, b: Word)
    ensures Signed(Mulhsu(a, b)) * B + Mul(a, b) == Signed(a) * b
  {
    hide High, Trunc, Mul;
    Bounded(Signed(a), b, 0x8000_0000, B - 1);
    SignedHalves(Signed(a) * b);
    LowHalf(a, b);
    MixedHigh(Signed(a), b);
  }

  /** Converting the signed operand to 64 bits loses nothing of the product's. */
  lemma MixedHigh(x: int, b: nat)
    requires -B * B < x < B * B
    ensures High(Wrap64(x) * b) == High(x * b)
  {
    if x < 0 {
      SameResidue(x, x + B * B, -1, B * B);
      Expand(x, B * B, b);
      SameResidue((x + B * B) * b, x * b, b, B * B);
    }
  }

  lemma Expand(x: int, m: int, b: int)
    ensures (x + m) * b == x * b + b * m
  {
  }

  // Quotients.

  function Abs(x: int): (r: nat) { if x >= 0 then x else -x }

  /** Division rounded toward zero, as a relation. */
  ghost predicate Divides(a: int, b: int, q: int, r: int) {
    a == q * b + r && Abs(r) < Abs(b) && (r == 0 || (r > 0 <==> a > 0))
  }

  lemma QuotDivides(a: int, b: int)
    requires b != 0
    ensures Divides(a, b, Quot(a, b), Rest(a, b))
    ensures Abs(Quot(a, b)) <= Abs(a)
  {
    var n := Abs(a);
    assert n == n / b * b + n % b;
    if a < 0 { assert -(n / b) * b == -(n / b * b); }
    QuotSmall(n, b);
  }

  lemma QuotSmall(n: nat, b: int)
    requires b != 0
    ensures 0 - n <= n / b <= n
  {
    var q := n / b;
    assert n == q * b + n % b;
    if q > n { if b >= 1 { Grows(b, q); } else { Grows(-b, q); } }
    if q < 0 - n { if b >= 1 { Grows(b, -q); } else { Grows(-b, -q); } }
  }

  lemma NoSmallMultiple(d: int, b: int)
    requires d != 0
    ensures Abs(d * b) >= Abs(b)
  {
    if d > 0 && b > 0 { Grows(d, b); }
    if d > 0 && b < 0 { Grows(d, -b); }
    if d < 0 && b > 0 { Grows(-d, b); }
    if d < 0 && b < 0 { Grows(-d, -b); }
  }

  /** No other pair is a quotient and remainder. */
  lemma DividesUnique(a: int, b: int, q: int, r: int, q': int, r': int)
    requires Divides(a, b, q, r) && Divides(a, b, q', r')
    ensures q == q' && r == r'
  {
    if q != q' {
      assert (q - q') * b == q * b - q' * b;
      NoSmallMultiple(q - q', b);
    }
  }

  lemma SignedTrunc(v: int)
    requires -0x8000_0000 <= v < 0x8000_0000
    ensures Signed(Trunc(v)) == v
  {
  }

  /** Only the most negative word over -1 leaves the signed range. */
  lemma QuotFits(a: Word, b: Word)
    requires b != 0 && !Overflows(a, b)
    ensures -0x8000_0000 <= Quot(Signed(a), Signed(b)) < 0x8000_0000
  {
    QuotDivides(Signed(a), Signed(b));
  }

  /** DIV and REM of ordinary operands: the quotient rounded toward zero and
      the remainder with the dividend's sign, and nothing else. */
  lemma DivRem(a: Word, b: Word, q: int, r: int)
    requires b != 0 && !Overflows(a, b)
    ensures Divides(Signed(a), Signed(b), q, r) <==> q == Signed(Div(a, b)) && r == Signed(Rem(a, b))
  {
    var x, y := Signed(a), Signed(b);
    QuotDivides(x, y);
    QuotFits(a, b);
    SignedTrunc(Quot(x, y));
    SignedTrunc(Rest(x, y));
    if Divides(x, y, q, r) { DividesUnique(x, y, q, r, Quot(x, y), Rest(x, y)); }
  }

  /** DIVU and REMU of ordinary operands. */
  lemma DivuRemu(a: Word, b: Word, q: int, r: int)
    requires b != 0
    ensures Divides(a, b, q, r) <==> q == Divu(a, b) && r == Remu(a, b)
  {
    hide Divides;
    QuotDivides(a, b);
    RestIsMod(a, b);
    if Divides(a, b, q, r) { DividesUnique(a, b, q, r, Quot(a, b), Rest(a, b)); }
  }

  lemma SmallTrunc(x: int)
    requires 0 <= x < B
    ensures Trunc(x) == x
  {
  }

  lemma RestIsMod(a: Word, b: Word)
    requires b != 0
    ensures Quot(a, b) == a / b == Divu(a, b) && Rest(a, b) == a % b
  {
    hide Trunc;
    QuotSmall(a, b);
    SmallTrunc(a / b);
    Recomposed(a, b);
  }

  lemma Recomposed(a: int, b: int)
    requires b != 0
    ensures a - a / b * b == a % b
  {
  }

  lemma Restored(a: int, b: int, q: int, r: int)
    requires Divides(a, b, q, r)
    ensures q * b + r == a
  {
  }

  lemma TruncSigned(a: Word)
    ensures Trunc(Signed(a)) == a == Trunc(a)
  {
  }

  /** Whatever the operands, zero divisors and overflow included, the dividend is
      the quotient times the divisor plus the remainder, modulo 2^32. */
  lemma SignedRestored(a: Word, b: Word)
    ensures Trunc(Signed(Div(a, b)) * Signed(b) + Signed(Rem(a, b))) == a
    ensures b == 0 ==> Signed(Div(a, b)) == -1
    ensures Overflows(a, b) ==> Div(a, b) == a && Rem(a, b) == 0
  {
    TruncSigned(a);
    if b != 0 && !Overflows(a, b) {
      hide Div, Rem, Overflows, Divides, Trunc, Signed;
      DivRem(a, b, Signed(Div(a, b)), Signed(Rem(a, b)));
      Restored(Signed(a), Signed(b), Signed(Div(a, b)), Signed(Rem(a, b)));
    }
  }

  /** The same for DIVU and REMU. */
  lemma UnsignedRestored(a: Word, b: Word)
    ensures Trunc(Divu(a, b) * b + Remu(a, b)) == a
    ensures b == 0 ==> Divu(a, b) == B - 1
  {
    TruncSigned(a);
    if b != 0 {
      hide Divu, Remu, Divides, Trunc;
      DivuRemu(a, b, Divu(a, b), Remu(a, b));
      Restored(a, b, Divu(a, b), Remu(a, b));
    }
  }
}
