/** What instructions compute, in numbers: results, branches, jumps, loads and
    stores as the programmer's machine carries them out (src/exec.hpp:465-708). */
module AluLaws {
  import opened Isa
  import opened Sequential
  import opened Exec
  import Mext
  import Bits
  import H = Hart

  // ---------------------------------------------------------- integer arithmetic

  predicate IsAlu(ty: InstrType) {
    || ty.LUI? || ty.AUIPC? || ty.ADDI? || ty.SLTI? || ty.SLTIU? || ty.XORI? || ty.ORI? || ty.ANDI?
    || ty.SLLI? || ty.SRLI? || ty.SRAI? || ty.ADD? || ty.SUB? || ty.SLL? || ty.SLT? || ty.SLTU?
    || ty.XOR? || ty.SRL? || ty.SRA? || ty.OR? || ty.AND?
  }

  function Bool(b: bool): (n: nat) { if b then 1 else 0 }

  /** The result `r` for PC `pc`, register operands `x` and `y`, and immediate `m`. */
  predicate AluLaw(ty: InstrType, pc: Mext.Word, x: Mext.Word, y: Mext.Word, m: Mext.Word, r: Mext.Word) {
    match ty
    case LUI => r == m
    case AUIPC => r == (pc + m) % 0x1_0000_0000
    case ADDI => r == (x + m) % 0x1_0000_0000
    case ADD => r == (x + y) % 0x1_0000_0000
    case SUB => r == (x - y) % 0x1_0000_0000
    case SLTI => r == Bool(Mext.Signed(x) < Mext.Signed(m))
    case SLT => r == Bool(Mext.Signed(x) < Mext.Signed(y))
    case SLTIU => r == Bool(x < m)
    case SLTU => r == Bool(x < y)
    case XORI => forall k: nat :: k < 32 ==> (Bits.Digit(r, k) <==> Bits.Digit(x, k) != Bits.Digit(m, k))
    case XOR => forall k: nat :: k < 32 ==> (Bits.Digit(r, k) <==> Bits.Digit(x, k) != Bits.Digit(y, k))
    case ORI => forall k: nat :: k < 32 ==> (Bits.Digit(r, k) <==> Bits.Digit(x, k) || Bits.Digit(m, k))
    case OR => forall k: nat :: k < 32 ==> (Bits.Digit(r, k) <==> Bits.Digit(x, k) || Bits.Digit(y, k))
    case ANDI => forall k: nat :: k < 32 ==> (Bits.Digit(r, k) <==> Bits.Digit(x, k) && Bits.Digit(m, k))
    case AND => forall k: nat :: k < 32 ==> (Bits.Digit(r, k) <==> Bits.Digit(x, k) && Bits.Digit(y, k))
    case SLLI => r == x * Bits.Pow2(m % 32) % 0x1_0000_0000
    case SLL => r == x * Bits.Pow2(y % 32) % 0x1_0000_0000
    case SRLI => r == x / Bits.Pow2(m % 32)
    case SRL => r == x / Bits.Pow2(y % 32)
    case SRAI => Mext.Signed(r) == Mext.Signed(x) / Bits.Pow2(m % 32)
    case SRA => Mext.Signed(r) == Mext.Signed(x) / Bits.Pow2(y % 32)
    case _ => false
  }

  // Each operation, in the terms of its lemma.

  lemma SignedLessIs(a: bv32, b: bv32)
    ensures SignedLess(a, b) == Bits.Less(Bits.Flip(a), Bits.Flip(b))
  {
    hide SignedLess, Bits.Less, Bits.Flip;
    SignedLessRaw(a, b);
    Bits.FlipRaw(a);
    Bits.FlipRaw(b);
  }

  lemma SignedLessRaw(a: bv32, b: bv32)
    ensures SignedLess(a, b) == Bits.Less(a ^ 0x8000_0000, b ^ 0x8000_0000)
  {
  }

  lemma FiveBits(n: bv32)
    ensures Bits.Keep(n, 5) == n & 0x1F
  {
  }

  lemma FiveSmall(n: bv32)
    ensures n & 0x1F < 32
  {
  }

  lemma ShiftRaw(a: bv32, n: bv32)
    requires n & 0x1F < 32
    ensures Shift(false, a, n) == Bits.Left(a, n & 0x1F) && Shift(true, a, n) == Bits.Right(a, n & 0x1F)
  {
  }

  lemma FiveNum(n: bv32)
    ensures Bits.Keep(n, 5) < 32 && Bits.Num(Bits.Keep(n, 5)) == Bits.Num(n) % 32
  {
    FiveBits(n);
    FiveSmall(n);
    hide Bits.Num, Bits.Keep;
    Bits.NumIsInt(5);
    Bits.KeepNum(n, 5);
    assert Bits.Pow2(5) == 32;
  }

  lemma FlagNum(b: bool)
    ensures Bits.Num(Flag(b)) == Bool(b)
  {
    hide Bits.Num;
    Bits.ZeroNum();
    Bits.OneNum();
  }

  lemma DigitsOf(r: bv32, a: bv32, b: bv32)
    ensures r == Bits.Differ(a, b) ==>
              forall k: nat :: k < 32 ==> (Bits.Digit(Bits.W(r), k) <==> Bits.Digit(Bits.W(a), k) != Bits.Digit(Bits.W(b), k))
    ensures r == Bits.Either(a, b) ==>
              forall k: nat :: k < 32 ==> (Bits.Digit(Bits.W(r), k) <==> Bits.Digit(Bits.W(a), k) || Bits.Digit(Bits.W(b), k))
    ensures r == Bits.Both(a, b) ==>
              forall k: nat :: k < 32 ==> (Bits.Digit(Bits.W(r), k) <==> Bits.Digit(Bits.W(a), k) && Bits.Digit(Bits.W(b), k))
  {
    hide Bits.Num, Bits.Digit, Bits.Differ, Bits.Either, Bits.Both;
    forall k: nat | k < 32
      ensures Bits.Digit(Bits.Num(Bits.Differ(a, b)), k) == (Bits.Digit(Bits.Num(a), k) != Bits.Digit(Bits.Num(b), k))
      ensures Bits.Digit(Bits.Num(Bits.Either(a, b)), k) == (Bits.Digit(Bits.Num(a), k) || Bits.Digit(Bits.Num(b), k))
      ensures Bits.Digit(Bits.Num(Bits.Both(a, b)), k) == (Bits.Digit(Bits.Num(a), k) && Bits.Digit(Bits.Num(b), k))
    {
      Bits.LogicDigits(a, b, k);
    }
  }

  lemma OrderNum(a: bv32, b: bv32)
    ensures Bits.Num(Flag(SignedLess(a, b))) == Bool(Mext.Signed(Bits.W(a)) < Mext.Signed(Bits.W(b)))
    ensures Bits.Num(Flag(Bits.Less(a, b))) == Bool(Bits.W(a) < Bits.W(b))
  {
    hide Bits.Num, SignedLess, Bits.Less, Flag, Bits.Flip, Mext.Signed, Bits.Int;
    SignedLessIs(a, b);
    Bits.SignedOrder(a, b);
    Bits.IntIsSigned(a);
    Bits.IntIsSigned(b);
    Bits.LessNum(a, b);
    FlagNum(SignedLess(a, b));
    FlagNum(Bits.Less(a, b));
  }

  lemma ShiftNum(a: bv32, n: bv32)
    ensures Bits.Num(Shift(false, a, n)) == Bits.Num(a) * Bits.Pow2(Bits.Num(n) % 32) % 0x1_0000_0000
    ensures Bits.Num(Shift(true, a, n)) == Bits.Num(a) / Bits.Pow2(Bits.Num(n) % 32)
  {
    hide Bits.Num, Shift, Bits.Left, Bits.Right, Bits.Keep, Bits.Pow2;
    FiveNum(n);
    assert Shift(false, a, n) == Bits.Left(a, Bits.Keep(n, 5)) && Shift(true, a, n) == Bits.Right(a, Bits.Keep(n, 5)) by {
      FiveBits(n);
      FiveSmall(n);
      ShiftRaw(a, n);
    }
    Bits.LeftNum(a, Bits.Keep(n, 5));
    Bits.RightNum(a, Bits.Keep(n, 5));
  }

  // --------------------------------------------------------- arithmetic shifts

  lemma TopIs(a: bv32)
    ensures (a & 0x8000_0000 != 0) <==> Bits.Num(a) >= 0x8000_0000
  {
    TopRaw(a);
    hide Bits.Num, Bits.Top, Bits.Rest;
    Bits.TopBit(a);
  }

  lemma TopRaw(a: bv32)
    ensures Bits.Top(a) == (a & 0x8000_0000 != 0)
  {
  }

  lemma SarClear(a: bv32, m: bv32)
    requires m <= 31 && a & 0x8000_0000 == 0
    ensures ArithShift(a, m) == Bits.Right(a, m)
  {
  }

  function NotShifted(a: bv32, m: bv32): (r: bv32)
    requires m <= 31
  {
    (!a) >> m
  }

  lemma SarSetRaw(a: bv32, m: bv32)
    requires m <= 31 && a & 0x8000_0000 != 0
    ensures ArithShift(a, m) == Bits.Complement((!a) >> m)
  {
  }

  lemma NotShiftedIs(a: bv32, m: bv32)
    requires m <= 31
    ensures NotShifted(a, m) == (!a) >> m
  {
  }

  lemma NotShiftedRight(a: bv32, m: bv32)
    requires m <= 31
    ensures NotShifted(a, m) == Bits.Right(!a, m)
  {
  }

  lemma FloorBelow(x: nat, p: nat)
    requires p > 0
    ensures (-(x as int) - 1) / p == -1 - x / p
  {
    var q, r := x / p, x % p;
    assert x == p * q + r;
    assert p * (-1 - q) == -1 * p - p * q;
    FloorUnique(-1 * x - 1, p, -1 - q, p - 1 - r);
  }

  lemma FloorUnique(v: int, p: nat, q: int, r: nat)
    requires p > 0 && v == p * q + r && r < p
    ensures v / p == q
  {
    var d := v / p - q;
    assert v == p * (v / p) + v % p;
    assert p * d == r - v % p;
    if d >= 1 { Bits.Multiple(p, d); }
    if d <= -1 { Bits.Multiple(p, -d); }
  }

  lemma SmallQuotient(x: nat, p: nat)
    requires p > 0
    ensures x / p <= x
  {
    assert x == p * (x / p) + x % p;
    if x / p > x { Bits.Multiple(x / p, p); }
  }

  /** An arithmetic shift divides the signed reading, rounding down. */
  lemma SarNum(a: bv32, m: bv32)
    requires m <= 31
    ensures Mext.Signed(Bits.W(ArithShift(a, m))) == Mext.Signed(Bits.W(a)) / Bits.Pow2(Bits.Num(m))
  {
    hide Bits.Num, ArithShift, Bits.Right, Bits.Complement, Bits.Pow2, NotShifted;
    var p := Bits.Pow2(Bits.Num(m));
    TopIs(a);
    Bits.NumBound(a);
    if a & 0x8000_0000 == 0 {
      SarClear(a, m);
      Bits.RightNum(a, m);
      SmallQuotient(Bits.Num(a), p);
    } else {
      assert ArithShift(a, m) == Bits.Complement(Bits.Right(!a, m)) by {
        SarSetRaw(a, m);
        NotShiftedIs(a, m);
        NotShiftedRight(a, m);
      }
      Bits.ComplementRaw(a);
      Bits.ComplementNum(a);
      Bits.RightNum(!a, m);
      Bits.ComplementNum(Bits.Right(!a, m));
      SmallQuotient(Bits.Num(!a), p);
      FloorBelow(Bits.Num(!a), p);
    }
  }

  lemma Low5Num(n: bv32)
    ensures Low5(n) < 32 && Bits.Num(Low5(n)) == Bits.Num(n) % 32 && Low5(n) == n & 0x1F
  {
    hide Bits.Num, Bits.Keep;
    FiveBits(n);
    FiveSmall(n);
    FiveNum(n);
  }

  // ------------------------------------------------------------------- results

  lemma PlusZero(a: bv32)
    ensures Bits.Plus(0, a) == a
  {
  }

  lemma OperateArith(ty: InstrType, a: bv32, b: bv32)
    ensures ty.ADD? || ty.ADDI? || ty.AUIPC? || ty.LUI? ==> Bits.Num(Operate(ty, a, b)) == (Bits.Num(a) + Bits.Num(b)) % 0x1_0000_0000
    ensures ty.SUB? ==> Bits.Num(Operate(ty, a, b)) == (Bits.Num(a) - Bits.Num(b)) % 0x1_0000_0000
  {
    hide Bits.Num, Bits.Plus, Bits.Minus, Bits.Differ, Bits.Either, Bits.Both, Bits.Less, Flag, SignedLess, Shift, ArithShift, Low5;
    Bits.PlusNum(a, b);
    Bits.MinusNum(a, b);
  }

  lemma OperateOrder(ty: InstrType, a: bv32, b: bv32)
    ensures ty.SLT? || ty.SLTI? ==> Bits.Num(Operate(ty, a, b)) == Bool(Mext.Signed(Bits.W(a)) < Mext.Signed(Bits.W(b)))
    ensures ty.SLTU? || ty.SLTIU? ==> Bits.Num(Operate(ty, a, b)) == Bool(Bits.W(a) < Bits.W(b))
  {
    hide Bits.Num, Bits.Plus, Bits.Minus, Bits.Differ, Bits.Either, Bits.Both, Bits.Less, Flag, SignedLess, Shift, ArithShift, Low5,
      Mext.Signed, Bool, Bits.W;
    OrderNum(a, b);
  }

  lemma OperateShift(ty: InstrType, a: bv32, b: bv32)
    ensures ty.SLL? || ty.SLLI? ==> Bits.Num(Operate(ty, a, b)) == Bits.Num(a) * Bits.Pow2(Bits.Num(b) % 32) % 0x1_0000_0000
    ensures ty.SRL? || ty.SRLI? ==> Bits.Num(Operate(ty, a, b)) == Bits.Num(a) / Bits.Pow2(Bits.Num(b) % 32)
    ensures ty.SRA? || ty.SRAI? ==>
              Mext.Signed(Bits.W(Operate(ty, a, b))) == Mext.Signed(Bits.W(a)) / Bits.Pow2(Bits.Num(b) % 32)
  {
    hide Bits.Num, Bits.Plus, Bits.Minus, Bits.Differ, Bits.Either, Bits.Both, Bits.Less, Flag, SignedLess, Shift, ArithShift, Low5,
      Bits.Pow2, Mext.Signed, Bits.W;
    ShiftNum(a, b);
    Low5Num(b);
    SarNum(a, Low5(b));
  }

  lemma OperateDigits(ty: InstrType, a: bv32, b: bv32)
    requires ty.XOR? || ty.XORI? || ty.OR? || ty.ORI? || ty.AND? || ty.ANDI?
    ensures var r, x, y := Bits.W(Operate(ty, a, b)), Bits.W(a), Bits.W(b);
            forall k: nat :: k < 32 ==>
              (Bits.Digit(r, k) <==> if ty.XOR? || ty.XORI? then Bits.Digit(x, k) != Bits.Digit(y, k)
                                     else if ty.OR? || ty.ORI? then Bits.Digit(x, k) || Bits.Digit(y, k)
                                     else Bits.Digit(x, k) && Bits.Digit(y, k))
  {
    hide Bits.Num, Bits.Digit, Bits.Differ, Bits.Either, Bits.Both, Bits.Plus, Bits.Minus, Bits.Less, Flag, SignedLess, Shift, ArithShift, Low5;
    DigitsOf(Operate(ty, a, b), a, b);
  }

  lemma ModTwice(n: nat)
    ensures n % 32 % 32 == n % 32
  {
  }

  lemma UpperResult(ty: InstrType, pc: bv32, rs1: bv32, rs2: bv32, imm: bv32)
    requires ty.LUI? || ty.AUIPC?
    ensures AluLaw(ty, Bits.W(pc), Bits.W(rs1), Bits.W(rs2), Bits.W(imm), Bits.W(AluResult(ty, pc, rs1, rs2, imm)))
  {
    hide Bits.Num, Operate, Mext.Signed, Bool, Bits.Pow2, Bits.Digit, Low5;
    var a, b := FirstOperand(ty, pc, rs1), SecondOperand(ty, rs2, imm);
    OperateArith(ty, a, b);
    Bits.ZeroNum();
    Bits.NumBound(imm);
  }

  lemma SumResult(ty: InstrType, pc: bv32, rs1: bv32, rs2: bv32, imm: bv32)
    requires ty.ADDI? || ty.ADD?
    ensures AluLaw(ty, Bits.W(pc), Bits.W(rs1), Bits.W(rs2), Bits.W(imm), Bits.W(AluResult(ty, pc, rs1, rs2, imm)))
  {
    hide Bits.Num, Operate, Mext.Signed, Bool, Bits.Pow2, Bits.Digit, Low5;
    var a, b := FirstOperand(ty, pc, rs1), SecondOperand(ty, rs2, imm);
    OperateArith(ty, a, b);
  }

  lemma DifferenceResult(ty: InstrType, pc: bv32, rs1: bv32, rs2: bv32, imm: bv32)
    requires ty.SUB?
    ensures AluLaw(ty, Bits.W(pc), Bits.W(rs1), Bits.W(rs2), Bits.W(imm), Bits.W(AluResult(ty, pc, rs1, rs2, imm)))
  {
    hide Bits.Num, Operate, Mext.Signed, Bool, Bits.Pow2, Bits.Digit, Low5;
    var a, b := FirstOperand(ty, pc, rs1), SecondOperand(ty, rs2, imm);
    OperateArith(ty, a, b);
  }

  lemma OrderResult(ty: InstrType, pc: bv32, rs1: bv32, rs2: bv32, imm: bv32)
    requires ty.SLTI? || ty.SLT? || ty.SLTIU? || ty.SLTU?
    ensures AluLaw(ty, Bits.W(pc), Bits.W(rs1), Bits.W(rs2), Bits.W(imm), Bits.W(AluResult(ty, pc, rs1, rs2, imm)))
  {
    hide Bits.Num, Operate, Mext.Signed, Bool, Bits.Pow2, Bits.Digit, Low5;
    var a, b := FirstOperand(ty, pc, rs1), SecondOperand(ty, rs2, imm);
    OperateOrder(ty, a, b);
  }

  lemma LogicResult(ty: InstrType, pc: bv32, rs1: bv32, rs2: bv32, imm: bv32)
    requires ty.XOR? || ty.XORI? || ty.OR? || ty.ORI? || ty.AND? || ty.ANDI?
    ensures AluLaw(ty, Bits.W(pc), Bits.W(rs1), Bits.W(rs2), Bits.W(imm), Bits.W(AluResult(ty, pc, rs1, rs2, imm)))
  {
    hide Bits.Num, Operate, Mext.Signed, Bool, Bits.Pow2, Bits.Digit, Low5;
    var a, b := FirstOperand(ty, pc, rs1), SecondOperand(ty, rs2, imm);
    OperateDigits(ty, a, b);
  }

  lemma ShiftResult(ty: InstrType, pc: bv32, rs1: bv32, rs2: bv32, imm: bv32)
    requires ty.SLL? || ty.SLLI? || ty.SRL? || ty.SRLI? || ty.SRA? || ty.SRAI?
    ensures AluLaw(ty, Bits.W(pc), Bits.W(rs1), Bits.W(rs2), Bits.W(imm), Bits.W(AluResult(ty, pc, rs1, rs2, imm)))
  {
    hide Bits.Num, Operate, Mext.Signed, Bool, Bits.Pow2, Bits.Digit, Low5;
    var a, b := FirstOperand(ty, pc, rs1), SecondOperand(ty, rs2, imm);
    OperateShift(ty, a, b);
    Low5Num(imm);
    ModTwice(Bits.Num(imm));
  }

  /** What the value part of the execute stage computes. */
  lemma AluResultLaw(ty: InstrType, pc: bv32, rs1: bv32, rs2: bv32, imm: bv32)
    requires IsAlu(ty)
    ensures AluLaw(ty, Bits.W(pc), Bits.W(rs1), Bits.W(rs2), Bits.W(imm), Bits.W(AluResult(ty, pc, rs1, rs2, imm)))
  {
    hide Bits.Num, AluLaw, AluResult, Bits.W;
    if ty.LUI? || ty.AUIPC? { UpperResult(ty, pc, rs1, rs2, imm); }
    else if ty.ADDI? || ty.ADD? { SumResult(ty, pc, rs1, rs2, imm); }
    else if ty.SUB? { DifferenceResult(ty, pc, rs1, rs2, imm); }
    else if ty.SLTI? || ty.SLT? || ty.SLTIU? || ty.SLTU? { OrderResult(ty, pc, rs1, rs2, imm); }
    else if ty.XOR? || ty.XORI? || ty.OR? || ty.ORI? || ty.AND? || ty.ANDI? { LogicResult(ty, pc, rs1, rs2, imm); }
    else { ShiftResult(ty, pc, rs1, rs2, imm); }
  }

  /** The address of the next instruction. */
  lemma NextNum(pc: bv32, compressed: bool)
    ensures Bits.Num(NextPc(pc, compressed)) == (Bits.Num(pc) + (if compressed then 2 else 4)) % 0x1_0000_0000
  {
    hide Bits.Num, Bits.Plus, NextPc;
    if compressed {
      NextShort(pc);
      Bits.PlusNum(pc, 2);
      Bits.NumIsInt(2);
    } else {
      NextLong(pc);
      Bits.PlusNum(pc, 4);
      Bits.NumIsInt(4);
    }
  }

  lemma NextShort(pc: bv32)
    ensures NextPc(pc, true) == Bits.Plus(pc, 2)
  {
  }

  lemma NextLong(pc: bv32)
    ensures NextPc(pc, false) == Bits.Plus(pc, 4)
  {
  }

  // ------------------------------------------------- on the programmer's machine

  lemma AluKind(ty: InstrType)
    ensures IsAlu(ty) ==> KindOf(ty) == Alu
  {
  }

  lemma MulDivKind(ty: InstrType)
    ensures IsMulDiv(ty) ==> KindOf(ty) == MulDiv
  {
  }

  lemma BranchKind(ty: InstrType)
    ensures IsBranch(ty) ==> KindOf(ty) == Branch
  {
  }

  lemma JumpKind(ty: InstrType)
    ensures ty.JAL? || ty.JALR? ==> KindOf(ty) == Jump
  {
  }

  lemma IdleKind(ty: InstrType)
    ensures ty.FENCE? || ty.NOP? ==> KindOf(ty) == Nop
    ensures ty.FENCE_I? ==> KindOf(ty) == FenceI
  {
  }

  // The machine's step for each of those kinds.

  lemma StepAlu(a: Arch, i: Instr, e: Env)
    requires !i.onTrap && KindOf(i.ty) == Alu
    ensures Sem(a, i, e) == Retire(a, i, NextPc(a.pc, i.compressed), AluResult(i.ty, a.pc, a.regs[i.rs1], a.regs[i.rs2], i.imm))
  {
    hide KindOf, Retire, Transfer, NextPc, AluResult, MulDivResult, JumpTarget, BranchTaken, BranchTarget, Load, CsrStep, Trapped, CsrVal,
      DataReq, EcallCause, SfenceIllegal, WfiIllegal, SretIllegal, H.Return, H.ReturnPc;
  }

  lemma StepMulDiv(a: Arch, i: Instr, e: Env)
    requires !i.onTrap && KindOf(i.ty) == MulDiv
    ensures Sem(a, i, e) == Retire(a, i, NextPc(a.pc, i.compressed), MulDivResult(i.ty, a.regs[i.rs1], a.regs[i.rs2]))
  {
    hide KindOf, Retire, Transfer, NextPc, AluResult, MulDivResult, JumpTarget, BranchTaken, BranchTarget, Load, CsrStep, Trapped, CsrVal,
      DataReq, EcallCause, SfenceIllegal, WfiIllegal, SretIllegal, H.Return, H.ReturnPc;
  }

  lemma StepIdle(a: Arch, i: Instr, e: Env)
    requires !i.onTrap && (KindOf(i.ty) == Nop || KindOf(i.ty) == FenceI)
    ensures Sem(a, i, e) == Retire(a, i, NextPc(a.pc, i.compressed), 0)
  {
    hide KindOf, Retire, Transfer, NextPc, AluResult, MulDivResult, JumpTarget, BranchTaken, BranchTarget, Load, CsrStep, Trapped, CsrVal,
      DataReq, EcallCause, SfenceIllegal, WfiIllegal, SretIllegal, H.Return, H.ReturnPc;
  }

  lemma StepJump(a: Arch, i: Instr, e: Env)
    requires !i.onTrap && KindOf(i.ty) == Jump
    ensures Sem(a, i, e) == Transfer(a, i, JumpTarget(i.ty, a.pc, a.regs[i.rs1], i.imm), NextPc(a.pc, i.compressed))
  {
    hide KindOf, Retire, Transfer, NextPc, AluResult, MulDivResult, JumpTarget, BranchTaken, BranchTarget, Load, CsrStep, Trapped, CsrVal,
      DataReq, EcallCause, SfenceIllegal, WfiIllegal, SretIllegal, H.Return, H.ReturnPc;
  }

  lemma StepBranch(a: Arch, i: Instr, e: Env)
    requires !i.onTrap && KindOf(i.ty) == Branch
    ensures Sem(a, i, e) == if BranchTaken(i.ty, a.regs[i.rs1], a.regs[i.rs2])
                              then Transfer(a, i, BranchTarget(a.pc, i.imm), BranchTarget(a.pc, i.imm))
                              else Retire(a, i, NextPc(a.pc, i.compressed), 0)
  {
    hide KindOf, Retire, Transfer, NextPc, AluResult, MulDivResult, JumpTarget, BranchTaken, BranchTarget, Load, CsrStep, Trapped, CsrVal,
      DataReq, EcallCause, SfenceIllegal, WfiIllegal, SretIllegal, H.Return, H.ReturnPc;
  }

  /** Only the PC moves, past the instruction, and only `rd` may change. */
  ghost predicate MovesOn(a: Arch, i: Instr, b: Arch) {
    && Bits.Num(b.pc) == (Bits.Num(a.pc) + (if i.compressed then 2 else 4)) % 0x1_0000_0000
    && SameBut(a, i, b)
  }

  ghost predicate SameBut(a: Arch, i: Instr, b: Arch) {
    && b.hart == a.hart && b.mem == a.mem
    && forall r: Reg :: r != i.rd || !i.writesRd || r == 0 ==> b.regs[r] == a.regs[r]
  }

  /** Whether the instruction writes a register at all. */
  predicate WritesRd(i: Instr) { i.writesRd && i.rd != 0 }

  lemma RetireMoves(a: Arch, i: Instr, v: bv32)
    ensures var b := Retire(a, i, NextPc(a.pc, i.compressed), v); MovesOn(a, i, b) && (WritesRd(i) ==> b.regs[i.rd] == v)
  {
    hide Bits.Num, NextPc;
    NextNum(a.pc, i.compressed);
  }

  /** Integer instructions. */
  lemma AluSem(a: Arch, i: Instr, e: Env)
    requires !i.onTrap && IsAlu(i.ty)
    ensures var b := Sem(a, i, e);
            && MovesOn(a, i, b)
            && (WritesRd(i) ==>
                  AluLaw(i.ty, Bits.W(a.pc), Bits.W(a.regs[i.rs1]), Bits.W(a.regs[i.rs2]), Bits.W(i.imm), Bits.W(b.regs[i.rd])))
  {
    hide AluLaw, AluResult, Bits.W, Retire, NextPc, MovesOn, Sem, KindOf;
    AluKind(i.ty);
    StepAlu(a, i, e);
    AluResultLaw(i.ty, a.pc, a.regs[i.rs1], a.regs[i.rs2], i.imm);
    RetireMoves(a, i, AluResult(i.ty, a.pc, a.regs[i.rs1], a.regs[i.rs2], i.imm));
  }

  predicate IsMulDiv(ty: InstrType) {
    ty.MUL? || ty.MULH? || ty.MULHSU? || ty.MULHU? || ty.DIV? || ty.DIVU? || ty.REM? || ty.REMU?
  }

  /** Which result of the M unit each instruction takes. */
  predicate MulDivLaw(ty: InstrType, x: Mext.Word, y: Mext.Word, r: Mext.Word) {
    match ty
    case MUL => r == Mext.Signed(x) * Mext.Signed(y) % 0x1_0000_0000
    case MULH => r == Mext.Mulh(x, y)
    case MULHSU => r == Mext.Mulhsu(x, y)
    case MULHU => r == Mext.Mulhu(x, y)
    case DIV => r == Mext.Div(x, y)
    case DIVU => r == Mext.Divu(x, y)
    case REM => r == Mext.Rem(x, y)
    case REMU => r == Mext.Remu(x, y)
    case _ => false
  }

  lemma WordsThrough(a: bv32, n: Mext.Word)
    ensures ToWord(a) == Bits.W(a) && Bits.W(FromWord(n)) == n
  {
    ThroughRaw(a, n);
    hide Bits.Num, ToWord, FromWord, Bits.OfNat;
    Bits.NumIsInt(a);
    Bits.OfNatNum(n);
  }

  lemma ThroughRaw(a: bv32, n: Mext.Word)
    ensures ToWord(a) == a as int && FromWord(n) == Bits.OfNat(n)
  {
  }

  /** Multiplication and division instructions. */
  lemma MulDivSem(a: Arch, i: Instr, e: Env)
    requires !i.onTrap && IsMulDiv(i.ty)
    ensures var b := Sem(a, i, e);
            && MovesOn(a, i, b)
            && (WritesRd(i) ==> MulDivLaw(i.ty, Bits.W(a.regs[i.rs1]), Bits.W(a.regs[i.rs2]), Bits.W(b.regs[i.rd])))
  {
    hide Bits.W, Retire, NextPc, MovesOn, ToWord, FromWord, Mext.Mulh, Mext.Mulhsu, Mext.Mulhu, Mext.Div, Mext.Divu, Mext.Rem, Mext.Remu,
      Mext.Signed, Sem, KindOf;
    MulDivKind(i.ty);
    StepMulDiv(a, i, e);
    var x, y := a.regs[i.rs1], a.regs[i.rs2];
    RetireMoves(a, i, MulDivResult(i.ty, x, y));
    WordsThrough(x, MulDivWord(i.ty, ToWord(x), ToWord(y)));
    WordsThrough(y, 0);
  }

  predicate IsBranch(ty: InstrType) { ty.BEQ? || ty.BNE? || ty.BLT? || ty.BGE? || ty.BLTU? || ty.BGEU? }

  /** When a branch is taken. */
  predicate TakenLaw(ty: InstrType, x: Mext.Word, y: Mext.Word) {
    match ty
    case BEQ => x == y
    case BNE => x != y
    case BLT => Mext.Signed(x) < Mext.Signed(y)
    case BGE => Mext.Signed(x) >= Mext.Signed(y)
    case BLTU => x < y
    case BGEU => x >= y
    case _ => false
  }

  lemma TakenIs(ty: InstrType, a: bv32, b: bv32)
    ensures ty.BEQ? || ty.BNE? ==> BranchTaken(ty, a, b) == ((a == b) == ty.BEQ?)
    ensures ty.BLT? || ty.BGE? ==> BranchTaken(ty, a, b) == (SignedLess(a, b) == ty.BLT?)
    ensures ty.BLTU? || ty.BGEU? ==> BranchTaken(ty, a, b) == (Bits.Less(a, b) == ty.BLTU?)
  {
    hide SignedLess;
    NotBelow(a, b);
  }

  lemma NotBelow(a: bv32, b: bv32)
    ensures (a >= b) == !Bits.Less(a, b)
  {
  }

  lemma TakenNum(ty: InstrType, a: bv32, b: bv32)
    requires IsBranch(ty)
    ensures BranchTaken(ty, a, b) == TakenLaw(ty, Bits.W(a), Bits.W(b))
  {
    hide Bits.Num, BranchTaken, SignedLess, Bits.Less, Bits.Flip, Bits.Int, Mext.Signed;
    TakenIs(ty, a, b);
    if Bits.Num(a) == Bits.Num(b) { Bits.NumInjective(a, b); }
    SignedLessIs(a, b);
    Bits.SignedOrder(a, b);
    Bits.IntIsSigned(a);
    Bits.IntIsSigned(b);
    Bits.LessNum(a, b);
  }

  /** Control goes to `t` with `v` in `rd`; an odd target traps as misaligned. */
  ghost predicate GoesTo(a: Arch, i: Instr, b: Arch, t: nat, v: nat) {
    if t % 2 == 0 then Bits.Num(b.pc) == t && SameBut(a, i, b) && (WritesRd(i) ==> Bits.Num(b.regs[i.rd]) == v)
    else exists w :: Bits.Num(w) == t && b == Trapped(a, 0, w)
  }

  lemma OddNum(w: bv32)
    ensures OddPc(w) <==> Bits.Num(w) % 2 == 1
  {
    OddRaw(w);
    hide OddPc, Bits.Num, Bits.Odd;
    Bits.OddDigit(w);
  }

  lemma OddRaw(w: bv32)
    ensures OddPc(w) == Bits.Odd(w)
  {
  }

  lemma TransferGoes(a: Arch, i: Instr, target: bv32, link: bv32)
    ensures GoesTo(a, i, Transfer(a, i, target, link), Bits.Num(target), Bits.Num(link))
  {
    hide Bits.Num, OddPc, Trapped;
    OddNum(target);
  }

  lemma TargetNum(pc: bv32, imm: bv32)
    ensures Bits.Num(BranchTarget(pc, imm)) == (Bits.Num(pc) + Bits.Num(imm)) % 0x1_0000_0000
  {
    TargetRaw(pc, imm);
    hide BranchTarget, Bits.Num, Bits.Plus;
    Bits.PlusNum(pc, imm);
  }

  lemma TargetRaw(pc: bv32, imm: bv32)
    ensures BranchTarget(pc, imm) == Bits.Plus(pc, imm)
  {
  }

  /** Branches. */
  lemma BranchSem(a: Arch, i: Instr, e: Env)
    requires !i.onTrap && IsBranch(i.ty)
    ensures var b, t := Sem(a, i, e), (Bits.Num(a.pc) + Bits.Num(i.imm)) % 0x1_0000_0000;
            if TakenLaw(i.ty, Bits.W(a.regs[i.rs1]), Bits.W(a.regs[i.rs2])) then GoesTo(a, i, b, t, t) else MovesOn(a, i, b)
  {
    hide Bits.Num, Retire, NextPc, MovesOn, GoesTo, BranchTaken, TakenLaw, Transfer, BranchTarget, Sem, KindOf;
    BranchKind(i.ty);
    StepBranch(a, i, e);
    TakenNum(i.ty, a.regs[i.rs1], a.regs[i.rs2]);
    TargetNum(a.pc, i.imm);
    TransferGoes(a, i, BranchTarget(a.pc, i.imm), BranchTarget(a.pc, i.imm));
    RetireMoves(a, i, 0);
  }

  lemma EvenRaw(w: bv32)
    ensures Bits.Down(w & 0xFFFF_FFFE) == Bits.Down(w) && !Bits.Odd(w & 0xFFFF_FFFE)
  {
  }

  lemma EvenNum(w: bv32)
    ensures Bits.Num(w & 0xFFFF_FFFE) == Bits.Num(w) - Bits.Num(w) % 2
  {
    EvenRaw(w);
    hide Bits.Num, Bits.Down, Bits.Odd;
    Bits.OddDigit(w);
    Bits.OddDigit(w & 0xFFFF_FFFE);
  }

  lemma JalRaw(pc: bv32, rs1: bv32, imm: bv32)
    ensures JumpTarget(JAL, pc, rs1, imm) == Bits.Plus(pc, imm)
  {
  }

  lemma JalrRaw(pc: bv32, rs1: bv32, imm: bv32)
    ensures JumpTarget(JALR, pc, rs1, imm) == WithoutOdd(rs1 + imm)
  {
  }

  lemma PlusRaw(a: bv32, b: bv32)
    ensures Bits.Plus(a, b) == a + b
  {
  }

  lemma JalNum(pc: bv32, rs1: bv32, imm: bv32)
    ensures Bits.Num(JumpTarget(JAL, pc, rs1, imm)) == (Bits.Num(pc) + Bits.Num(imm)) % 0x1_0000_0000
  {
    hide Bits.Num, Bits.Plus, JumpTarget;
    JalRaw(pc, rs1, imm);
    Bits.PlusNum(pc, imm);
  }

  function WithoutOdd(w: bv32): (r: bv32) { w & 0xFFFF_FFFE }

  lemma WithoutIs(w: bv32)
    ensures WithoutOdd(w) == w & 0xFFFF_FFFE
  {
  }

  lemma WithoutNum(w: bv32)
    ensures Bits.Num(WithoutOdd(w)) == Bits.Num(w) - Bits.Num(w) % 2
  {
    WithoutIs(w);
    hide Bits.Num, WithoutOdd;
    EvenNum(w);
  }

  lemma JalrNum(pc: bv32, rs1: bv32, imm: bv32)
    ensures var t := (Bits.Num(rs1) + Bits.Num(imm)) % 0x1_0000_0000; Bits.Num(JumpTarget(JALR, pc, rs1, imm)) == t - t % 2
  {
    hide Bits.Num, Bits.Plus, JumpTarget, WithoutOdd;
    JalrRaw(pc, rs1, imm);
    PlusRaw(rs1, imm);
    Bits.PlusNum(rs1, imm);
    WithoutNum(Bits.Plus(rs1, imm));
  }

  lemma JumpNum(ty: InstrType, pc: bv32, rs1: bv32, imm: bv32)
    requires ty.JAL? || ty.JALR?
    ensures var base := if ty.JAL? then Bits.Num(pc) else Bits.Num(rs1);
            var t := (base + Bits.Num(imm)) % 0x1_0000_0000;
            Bits.Num(JumpTarget(ty, pc, rs1, imm)) == if ty.JAL? then t else t - t % 2
  {
    hide Bits.Num, JumpTarget;
    if ty.JAL? { JalNum(pc, rs1, imm); } else { JalrNum(pc, rs1, imm); }
  }

  /** Jumps: JAL goes by the PC, JALR by the register with the lowest bit dropped;
      `rd` gets the address of the next instruction. */
  lemma JumpSem(a: Arch, i: Instr, e: Env)
    requires !i.onTrap && (i.ty.JAL? || i.ty.JALR?)
    ensures var base := if i.ty.JAL? then Bits.Num(a.pc) else Bits.Num(a.regs[i.rs1]);
            var t := (base + Bits.Num(i.imm)) % 0x1_0000_0000;
            GoesTo(a, i, Sem(a, i, e), if i.ty.JAL? then t else t - t % 2,
                   (Bits.Num(a.pc) + (if i.compressed then 2 else 4)) % 0x1_0000_0000)
  {
    hide Bits.Num, NextPc, GoesTo, Transfer, JumpTarget, Sem, KindOf;
    JumpKind(i.ty);
    StepJump(a, i, e);
    JumpNum(i.ty, a.pc, a.regs[i.rs1], i.imm);
    NextNum(a.pc, i.compressed);
    TransferGoes(a, i, JumpTarget(i.ty, a.pc, a.regs[i.rs1], i.imm), NextPc(a.pc, i.compressed));
  }

  /** Instructions that only go on. */
  lemma IdleSem(a: Arch, i: Instr, e: Env)
    requires !i.onTrap && !i.writesRd && (i.ty.FENCE? || i.ty.FENCE_I? || i.ty.NOP?)
    ensures MovesOn(a, i, Sem(a, i, e))
  {
    hide Bits.Num, Retire, NextPc, MovesOn, Sem, KindOf;
    IdleKind(i.ty);
    StepIdle(a, i, e);
    RetireMoves(a, i, 0);
  }
}
