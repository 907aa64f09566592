/** Which 32-bit words decode refuses (src/decode.hpp:366-381, 392-818). */
module Refusal {
  import opened Isa
  import opened Decode
  import opened Encode

  /** The fields of `t` that decode tests stand in `w`. */
  predicate Coded(t: InstrType, w: bv32) {
    var c := CodesOf(t);
    match FormatOf(t)
    case R | Shift | Fence => Opcode(w) == c.op && Funct3(w) == c.f3 && Funct7(w) == c.top
    case I | S | B | Csr => Opcode(w) == c.op && Funct3(w) == c.f3
    case U | J => Opcode(w) == c.op
    case Amo => Opcode(w) == c.op && Funct3(w) == c.f3 && Funct5(w) == c.top
    case Bare => Opcode(w) == c.op && Funct3(w) == c.f3 && (c.op == 0x73 ==> Funct12(w) == c.top)
    case None => false
  }

  /** The fields that are zero in every encoding of `t`. (Those of FENCE and FENCE.I
      are reserved and to be ignored: chapters 2.7 and 3 of the unprivileged manual.) */
  predicate Zeroed(t: InstrType, w: bv32) {
    match t
    case LR_W => Rs2(w) == 0
    case ECALL | EBREAK | WFI | SRET | MRET => Rd(w) == 0 && Rs1(w) == 0
    case SFENCE_VMA => Rd(w) == 0
    case _ => true
  }

  /** The fixed fields of `t` stand in `w`. */
  predicate Names(t: InstrType, w: bv32) { Coded(t, w) && Zeroed(t, w) }

  /** Words of no instruction that are executed all the same: the funct3 gaps of
      loads, stores and branches and the gaps of the register group, which run as
      NOP; JALR with any funct3; right shifts with any nonzero funct7, which run
      as SRAI; and words whose zero fields are not. */
  predicate Lax32(w: bv32) {
    var op, f3, f7 := Opcode(w), Funct3(w), Funct7(w);
    || (op == 0x03 && f3 in {3, 6, 7})
    || (op == 0x23 && f3 > 2)
    || (op == 0x63 && f3 in {2, 3})
    || (op == 0x33 && f7 != 0 && f7 != 1 && !(f7 == 0x20 && f3 in {0, 5}))
    || (op == 0x67 && f3 != 0)
    || (op == 0x13 && f3 == 5 && f7 != 0 && f7 != 0x20)
    || Unzeroed(w)
  }

  /** LR.W with an rs2, SFENCE.VMA with an rd, and ECALL, EBREAK, WFI, SRET or MRET
      with an rd or rs1. */
  predicate Unzeroed(w: bv32) { UnzeroedLr(w) || UnzeroedFence(w) || UnzeroedBare(w) }

  predicate UnzeroedLr(w: bv32) { Opcode(w) == 0x2F && Funct3(w) == 2 && Funct5(w) == 2 && Rs2(w) != 0 }

  predicate UnzeroedFence(w: bv32) { Opcode(w) == 0x73 && Funct3(w) == 0 && Funct7(w) == 9 && Rd(w) != 0 }

  predicate UnzeroedBare(w: bv32) {
    && Opcode(w) == 0x73 && Funct3(w) == 0 && Funct12(w) in {0, 1, 0x102, 0x105, 0x302}
    && (Rd(w) != 0 || Rs1(w) != 0)
  }

  // --------------------------------------------------------------- numbers and bits

  lemma SmallNumber(v: bv32)
    requires v < 8
    ensures 0 <= Number(v) < 8
  {
  }

  lemma Funct3Range(w: bv32)
    ensures 0 <= Funct3(w) < 8
  {
    hide Number;
    Funct3Small(w);
    SmallNumber(Funct3Bits(w));
  }

  lemma Funct3Small(w: bv32)
    ensures Funct3Bits(w) < 8
  {
  }

  lemma NumberZero(v: bv32)
    ensures Number(v) == 0 <==> v == 0
  {
  }

  lemma ZeroTop(w: bv32)
    ensures Funct7Bits(w) == 0 ==> In5(ImmI(w))
    ensures In5(ImmI(w)) ==> Funct7Bits(w) == 0
  {
  }

  lemma NumberNine(v: bv32)
    ensures Number(v) == 9 ==> v == 9
  {
  }

  lemma BareNumber(v: bv32)
    ensures Number(v) == 0 ==> v == 0
    ensures Number(v) == 1 ==> v == 1
    ensures Number(v) == 0x102 ==> v == 0x102
    ensures Number(v) == 0x105 ==> v == 0x105
    ensures Number(v) == 0x302 ==> v == 0x302
  {
  }

  lemma BareNotNine(b: bv32, w: bv32)
    requires b == 0 || b == 1 || b == 0x102 || b == 0x105 || b == 0x302
    ensures Funct12Bits(w) == b ==> Funct7Bits(w) != 9
  {
  }

  lemma BareTop(w: bv32, n: int)
    requires Funct12(w) == n && (n == 0 || n == 1 || n == 0x102 || n == 0x105 || n == 0x302)
    ensures Funct7(w) != 9
  {
    hide Number, Funct12Bits, Funct7Bits;
    BareNumber(Funct12Bits(w));
    NumberNine(Funct7Bits(w));
    BareNotNine(Funct12Bits(w), w);
  }

  // ------------------------------------------- a named word decodes to its name

  lemma NamedR(w: bv32, t: InstrType)
    requires FormatOf(t) == R && Coded(t, w)
    ensures Decode32(w).ty == t
  {
    hide Decode32, Opcode, Funct3, Funct7, Funct12, Funct5, Rd, Rs1, Rs2, ImmI, ImmS, ImmB, ImmU, ImmJ, RegOf,
      CodesOf, FormatOf, KindOf, Writes, IsR, CodesR, AluType;
    TableR(t);
    RegRecord(w);
    AluTypeIs(w, t);
  }

  lemma TopZero(w: bv32)
    ensures Funct7(w) == 0 <==> In5(ImmI(w))
  {
    hide Number, Funct7Bits, ImmI, In5;
    NumberZero(Funct7Bits(w));
    ZeroTop(w);
  }

  lemma NamedShift(w: bv32, t: InstrType)
    requires FormatOf(t) == Shift && Coded(t, w)
    ensures Decode32(w).ty == t
  {
    hide Decode32, Opcode, Funct3, Funct7, Funct12, Funct5, Rd, Rs1, Rs2, ImmI, ImmS, ImmB, ImmU, ImmJ, RegOf,
      CodesOf, FormatOf, KindOf, Writes, IsShift, CodesShift, AluImmType, In5, Number, Funct7Bits;
    TableShift(t);
    ImmRecord(w);
    TopZero(w);
    ShiftTypeIs(w, t);
  }

  lemma NamedI(w: bv32, t: InstrType)
    requires FormatOf(t) == I && Coded(t, w)
    ensures Decode32(w).ty == t
  {
    hide Decode32, Opcode, Funct3, Funct7, Funct12, Funct5, Rd, Rs1, Rs2, ImmI, ImmS, ImmB, ImmU, ImmJ, RegOf,
      CodesOf, FormatOf, KindOf, Writes, IsI, CodesI, AluImmType, LoadType, SizeOfType, UseOf;
    TableI(t);
    RecordI(w, t);
  }

  lemma NamedS(w: bv32, t: InstrType)
    requires FormatOf(t) == S && Coded(t, w)
    ensures Decode32(w).ty == t
  {
    hide Decode32, Opcode, Funct3, Funct7, Funct12, Funct5, Rd, Rs1, Rs2, ImmI, ImmS, ImmB, ImmU, ImmJ, RegOf,
      CodesOf, FormatOf, KindOf, Writes, IsS, CodesS, StoreType, SizeOfType, UseOf;
    TableS(t);
    StoreRecord(w);
    StoreTypeIs(t);
  }

  lemma NamedB(w: bv32, t: InstrType)
    requires FormatOf(t) == B && Coded(t, w)
    ensures Decode32(w).ty == t
  {
    hide Decode32, Opcode, Funct3, Funct7, Funct12, Funct5, Rd, Rs1, Rs2, ImmI, ImmS, ImmB, ImmU, ImmJ, RegOf,
      CodesOf, FormatOf, KindOf, Writes, IsB, CodesB, BranchType, UseOf;
    TableB(t);
    BranchRecord(w);
    BranchTypeIs(t);
  }

  lemma NamedU(w: bv32, t: InstrType)
    requires FormatOf(t) == U && Coded(t, w)
    ensures Decode32(w).ty == t
  {
    hide Decode32, Opcode, Funct3, Funct7, Funct12, Funct5, Rd, Rs1, Rs2, ImmI, ImmS, ImmB, ImmU, ImmJ, RegOf,
      CodesOf, FormatOf, KindOf, Writes, IsU, CodesU, UseOf;
    TableU(t);
    UpperRecord(w);
    UpperTypeIs(t);
  }

  lemma NamedJ(w: bv32, t: InstrType)
    requires FormatOf(t) == J && Coded(t, w)
    ensures Decode32(w).ty == t
  {
    hide Decode32, Opcode, Funct3, Funct7, Funct12, Funct5, Rd, Rs1, Rs2, ImmI, ImmS, ImmB, ImmU, ImmJ, RegOf,
      CodesOf, FormatOf, KindOf, Writes, IsJ, CodesJ, UseOf;
    TableJ(t);
    JumpRecord(w);
    UseJ(t);
  }

  lemma NamedCsr(w: bv32, t: InstrType)
    requires FormatOf(t) == Csr && Coded(t, w)
    ensures Decode32(w).ty == t
  {
    hide Decode32, Opcode, Funct3, Funct7, Funct12, Funct5, Rd, Rs1, Rs2, ImmI, ImmS, ImmB, ImmU, ImmJ, RegOf,
      CodesOf, FormatOf, KindOf, Writes, IsCsr, CodesCsr, SystemType, UseOf;
    TableCsr(t);
    SystemRecord(w);
    CsrTypeIs(w, t);
  }

  lemma NamedFence(w: bv32, t: InstrType)
    requires FormatOf(t) == Fence && Coded(t, w)
    ensures Decode32(w).ty == t
  {
    hide Decode32, Opcode, Funct3, Funct7, Funct12, Funct5, Rd, Rs1, Rs2, ImmI, ImmS, ImmB, ImmU, ImmJ, RegOf,
      CodesOf, FormatOf, KindOf, Writes, IsFence, CodesFence, SystemType, UseOf;
    TableFence(t);
    SystemRecord(w);
    SfenceTypeIs(w, t);
  }

  lemma NamedAmo(w: bv32, t: InstrType)
    requires FormatOf(t) == Amo && Coded(t, w)
    ensures Decode32(w).ty == t
  {
    hide Decode32, Opcode, Funct3, Funct7, Funct12, Funct5, Rd, Rs1, Rs2, ImmI, ImmS, ImmB, ImmU, ImmJ, RegOf,
      CodesOf, FormatOf, KindOf, Writes, IsAmo, CodesAmo, AtomicName, AtomicNumber;
    TableAmo(t);
    AmoRecord(w);
    AtomicTypeIs(t);
  }

  lemma NamedBare(w: bv32, t: InstrType)
    requires FormatOf(t) == Bare && Coded(t, w)
    ensures Decode32(w).ty == t
  {
    hide Decode32, Opcode, Funct3, Funct7, Funct12, Funct5, Rd, Rs1, Rs2, ImmI, ImmS, ImmB, ImmU, ImmJ, RegOf,
      CodesOf, FormatOf, KindOf, Writes, IsBare, CodesBare, SystemType, FenceType, UseOf;
    TableBare(t);
    if CodesBare(t).op == 0x73 {
      BareTop(w, CodesBare(t).top);
      SystemRecord(w);
      BareTypeIs(w, t);
    } else {
      FenceRecord(w);
      FenceTypeIs(t);
    }
  }

  /** A word with the tested fields of `t` decodes to `t`. */
  lemma NamedDecodes(w: bv32, t: InstrType)
    requires Coded(t, w)
    ensures Decode32(w).ty == t
  {
    hide Decode32, FormatOf, CodesOf, Opcode, Funct3, Funct7, Funct12, Funct5;
    match FormatOf(t)
    case U => NamedU(w, t);
    case I => NamedI(w, t);
    case Shift => NamedShift(w, t);
    case R => NamedR(w, t);
    case S => NamedS(w, t);
    case J => NamedJ(w, t);
    case B => NamedB(w, t);
    case Bare => NamedBare(w, t);
    case Fence => NamedFence(w, t);
    case Csr => NamedCsr(w, t);
    case Amo => NamedAmo(w, t);
  }

  // ------------------------------------------- a decoded word has its name's fields

  lemma AluInverse(w: bv32)
    requires 0 <= Funct3(w) < 8
    requires Funct7(w) == 0 || Funct7(w) == 1 || (Funct7(w) == 0x20 && (Funct3(w) == 0 || Funct3(w) == 5))
    ensures IsR(AluType(w)) && CodesR(AluType(w)) == Codes(0x33, Funct3(w), Funct7(w))
  {
    hide Funct3, Funct7;
  }

  lemma ShiftInverse(w: bv32)
    requires (Funct3(w) == 1 && In5(ImmI(w)) && Funct7(w) == 0) || (Funct3(w) == 5 && (Funct7(w) == 0 || Funct7(w) == 0x20))
    ensures IsShift(AluImmType(w)) && CodesShift(AluImmType(w)) == Codes(0x13, Funct3(w), Funct7(w))
  {
    hide Funct3, Funct7, ImmI;
  }

  lemma ImmInverse(w: bv32)
    requires 0 <= Funct3(w) < 8 && Funct3(w) != 1 && Funct3(w) != 5
    ensures IsI(AluImmType(w)) && CodesI(AluImmType(w)) == Codes(0x13, Funct3(w), 0)
  {
    hide Funct3, Funct7, ImmI;
  }

  lemma LoadInverse(f3: int)
    requires f3 == 0 || f3 == 1 || f3 == 2 || f3 == 4 || f3 == 5
    ensures IsI(LoadType(f3)) && CodesI(LoadType(f3)) == Codes(0x03, f3, 0)
  {
  }

  lemma StoreInverse(f3: int)
    requires f3 == 0 || f3 == 1 || f3 == 2
    ensures IsS(StoreType(f3)) && CodesS(StoreType(f3)) == Codes(0x23, f3, 0)
  {
  }

  lemma BranchInverse(f3: int)
    requires 0 <= f3 < 8 && f3 != 2 && f3 != 3
    ensures IsB(BranchType(f3)) && CodesB(BranchType(f3)) == Codes(0x63, f3, 0)
  {
  }

  lemma CsrInverse(w: bv32)
    requires Funct3(w) != 0 && SystemType(w) != INVALID
    ensures IsCsr(SystemType(w)) && CodesCsr(SystemType(w)) == Codes(0x73, Funct3(w), 0)
  {
    hide Funct3, Funct7, Funct12;
  }

  lemma BareInverse(w: bv32)
    requires Funct3(w) == 0 && Funct7(w) != 9 && SystemType(w) != INVALID
    ensures IsBare(SystemType(w)) && CodesBare(SystemType(w)) == Codes(0x73, 0, Funct12(w))
  {
    hide Funct3, Funct7, Funct12;
  }

  lemma FenceInverse(f3: int)
    requires FenceType(f3) != INVALID
    ensures IsBare(FenceType(f3)) && CodesBare(FenceType(f3)).op == 0x0F && CodesBare(FenceType(f3)).f3 == f3
  {
  }

  lemma AmoIsAmo(f5: int)
    requires AtomicName(f5) != INVALID
    ensures IsAmo(AtomicName(f5)) && KnownFunct5(f5)
  {
  }

  lemma AmoCodes(f5: int)
    requires KnownFunct5(f5)
    ensures CodesAmo(AtomicName(f5)) == Codes(0x2F, 2, f5)
  {
  }

  lemma AmoInverse(f5: int)
    requires AtomicName(f5) != INVALID
    ensures IsAmo(AtomicName(f5)) && CodesAmo(AtomicName(f5)) == Codes(0x2F, 2, f5)
  {
    hide AtomicName, IsAmo, CodesAmo, KnownFunct5;
    AmoIsAmo(f5);
    AmoCodes(f5);
  }

  lemma FormatFence(t: InstrType)
    ensures IsFence(t) ==> FormatOf(t) == Fence
  {
  }

  lemma FormatCsr(t: InstrType)
    ensures IsCsr(t) ==> FormatOf(t) == Csr
  {
  }

  lemma RegNamed(w: bv32)
    requires Opcode(w) == 0x33 && !Lax32(w) && Decode32(w).ty != INVALID
    ensures Coded(Decode32(w).ty, w)
  {
    hide Decode32, Opcode, Funct3, Funct7, Funct12, Funct5, Rd, Rs1, Rs2, ImmI, ImmS, ImmB, ImmU, ImmJ, RegOf,
      CodesOf, FormatOf, KindOf, Writes, IsR, CodesR, AluType;
    Funct3Range(w);
    RegRecord(w);
    AluInverse(w);
    FormatR(AluType(w));
    TableR(AluType(w));
  }

  lemma ImmNamed(w: bv32)
    requires Opcode(w) == 0x13 && !Lax32(w) && Decode32(w).ty != INVALID
    ensures Coded(Decode32(w).ty, w)
  {
    hide Decode32, Opcode, Funct3, Funct7, Funct12, Funct5, Rd, Rs1, Rs2, ImmI, ImmS, ImmB, ImmU, ImmJ, RegOf,
      CodesOf, FormatOf, KindOf, Writes, IsI, CodesI, IsShift, CodesShift, AluImmType, In5;
    Funct3Range(w);
    ImmRecord(w);
    TopZero(w);
    var t := AluImmType(w);
    if Funct3(w) == 1 || Funct3(w) == 5 {
      FirstShift(w);
      ShiftInverse(w);
      FormatShift(t);
      TableShift(t);
    } else {
      ImmInverse(w);
      FormatI(t);
      TableI(t);
    }
  }

  lemma FirstShift(w: bv32)
    ensures Funct3(w) == 1 && AluImmType(w) != INVALID ==> In5(ImmI(w))
  {
    hide Funct3, Funct7, ImmI;
  }

  lemma LoadNamed(w: bv32)
    requires Opcode(w) == 0x03 && !Lax32(w) && Decode32(w).ty != INVALID
    ensures Coded(Decode32(w).ty, w)
  {
    hide Decode32, Opcode, Funct3, Funct7, Funct12, Funct5, Rd, Rs1, Rs2, ImmI, ImmS, ImmB, ImmU, ImmJ, RegOf,
      CodesOf, FormatOf, KindOf, Writes, IsI, CodesI, LoadType, SizeOfType;
    Funct3Range(w);
    LoadRecord(w);
    LoadInverse(Funct3(w));
    FormatI(LoadType(Funct3(w)));
    TableI(LoadType(Funct3(w)));
  }

  lemma StoreNamed(w: bv32)
    requires Opcode(w) == 0x23 && !Lax32(w) && Decode32(w).ty != INVALID
    ensures Coded(Decode32(w).ty, w)
  {
    hide Decode32, Opcode, Funct3, Funct7, Funct12, Funct5, Rd, Rs1, Rs2, ImmI, ImmS, ImmB, ImmU, ImmJ, RegOf,
      CodesOf, FormatOf, KindOf, Writes, IsS, CodesS, StoreType, SizeOfType;
    Funct3Range(w);
    StoreRecord(w);
    StoreInverse(Funct3(w));
    FormatS(StoreType(Funct3(w)));
    TableS(StoreType(Funct3(w)));
  }

  lemma BranchNamed(w: bv32)
    requires Opcode(w) == 0x63 && !Lax32(w) && Decode32(w).ty != INVALID
    ensures Coded(Decode32(w).ty, w)
  {
    hide Decode32, Opcode, Funct3, Funct7, Funct12, Funct5, Rd, Rs1, Rs2, ImmI, ImmS, ImmB, ImmU, ImmJ, RegOf,
      CodesOf, FormatOf, KindOf, Writes, IsB, CodesB, BranchType;
    Funct3Range(w);
    BranchRecord(w);
    BranchInverse(Funct3(w));
    FormatB(BranchType(Funct3(w)));
    TableB(BranchType(Funct3(w)));
  }

  lemma SystemNamed(w: bv32)
    requires Opcode(w) == 0x73 && !Lax32(w) && Decode32(w).ty != INVALID
    ensures Coded(Decode32(w).ty, w)
  {
    hide Decode32, Opcode, Funct3, Funct7, Funct12, Funct5, Rd, Rs1, Rs2, ImmI, ImmS, ImmB, ImmU, ImmJ, RegOf,
      CodesOf, FormatOf, KindOf, Writes, IsCsr, CodesCsr, IsBare, CodesBare, IsFence, CodesFence, SystemType;
    SystemRecord(w);
    var t := SystemType(w);
    if Funct3(w) != 0 {
      CsrInverse(w);
      FormatCsr(t);
      TableCsr(t);
    } else if Funct7(w) == 9 {
      FenceIs(w);
      FormatFence(SFENCE_VMA);
      TableFence(SFENCE_VMA);
    } else {
      BareInverse(w);
      FormatBare(t);
      TableBare(t);
    }
  }

  lemma FenceIs(w: bv32)
    ensures Funct3(w) == 0 && Funct7(w) == 9 ==> SystemType(w) == SFENCE_VMA
    ensures IsFence(SFENCE_VMA) && CodesFence(SFENCE_VMA) == Codes(0x73, 0, 9)
  {
    hide Funct3, Funct7, Funct12;
  }

  lemma FenceNamed(w: bv32)
    requires Opcode(w) == 0x0F && !Lax32(w) && Decode32(w).ty != INVALID
    ensures Coded(Decode32(w).ty, w)
  {
    hide Decode32, Opcode, Funct3, Funct7, Funct12, Funct5, Rd, Rs1, Rs2, ImmI, ImmS, ImmB, ImmU, ImmJ, RegOf,
      CodesOf, FormatOf, KindOf, Writes, IsBare, CodesBare, FenceType;
    FenceRecord(w);
    FenceInverse(Funct3(w));
    FormatBare(FenceType(Funct3(w)));
    TableBare(FenceType(Funct3(w)));
  }

  lemma AmoNamed(w: bv32)
    requires Opcode(w) == 0x2F && !Lax32(w) && Decode32(w).ty != INVALID
    ensures Coded(Decode32(w).ty, w)
  {
    hide Decode32, Opcode, Funct3, Funct7, Funct12, Funct5, Rd, Rs1, Rs2, ImmI, ImmS, ImmB, ImmU, ImmJ, RegOf,
      CodesOf, FormatOf, KindOf, Writes, IsAmo, CodesAmo, AtomicName, AtomicNumber;
    AmoRecord(w);
    var f := if Funct3(w) != 2 then 32 else Funct5(w);
    WidthGap();
    AmoInverse(f);
    FormatAmo(AtomicName(f));
    TableAmo(AtomicName(f));
  }

  lemma WidthGap()
    ensures AtomicName(32) == INVALID
  {
  }

  lemma UpperNamed(w: bv32)
    requires Opcode(w) == 0x37 || Opcode(w) == 0x17 || Opcode(w) == 0x6F || Opcode(w) == 0x67
    requires !Lax32(w)
    ensures Coded(Decode32(w).ty, w)
  {
    hide Decode32, Funct3, Funct7, Opcode, ImmU, ImmJ, ImmI, Rd, Rs1, Rs2, RegOf, FormatOf, CodesOf, Writes;
    UpperRecord(w);
    JumpRecord(w);
    JalrRecord(w);
    UpperCodes();
  }

  lemma UpperCodes()
    ensures FormatOf(LUI) == U && FormatOf(AUIPC) == U && FormatOf(JAL) == J && FormatOf(JALR) == I
    ensures CodesOf(LUI).op == 0x37 && CodesOf(AUIPC).op == 0x17 && CodesOf(JAL).op == 0x6F
    ensures CodesOf(JALR).op == 0x67 && CodesOf(JALR).f3 == 0
  {
  }

  lemma OtherInvalid(w: bv32)
    ensures Opcode(w) !in {0x33, 0x13, 0x03, 0x23, 0x63, 0x73, 0x0F, 0x2F, 0x37, 0x17, 0x6F, 0x67} ==> Decode32(w).ty == INVALID
  {
    hide Opcode, Funct3, Funct7, Funct12, Funct5, Rd, Rs1, Rs2, ImmI, ImmS, ImmB, ImmU, ImmJ, RegOf, Writes;
  }

  lemma DecodedNamed(w: bv32)
    requires !Lax32(w) && Decode32(w).ty != INVALID
    ensures Coded(Decode32(w).ty, w)
  {
    hide Decode32, Opcode, Lax32, Coded;
    var op := Opcode(w);
    OtherInvalid(w);
    if op == 0x33 { RegNamed(w); }
    else if op == 0x13 { ImmNamed(w); }
    else if op == 0x03 { LoadNamed(w); }
    else if op == 0x23 { StoreNamed(w); }
    else if op == 0x63 { BranchNamed(w); }
    else if op == 0x73 { SystemNamed(w); }
    else if op == 0x0F { FenceNamed(w); }
    else if op == 0x2F { AmoNamed(w); }
    else { UpperNamed(w); }
  }

  /** A gap of the tables, not an unzeroed field. */
  predicate Gap(w: bv32) { Lax32(w) && !Unzeroed(w) }

  lemma GapDecodes(w: bv32)
    requires Gap(w)
    ensures Decode32(w).ty == if Opcode(w) == 0x67 then JALR else if Opcode(w) == 0x13 then SRAI else NOP
  {
    hide Decode32, Opcode, Funct3, Funct7, Rd, Rs1, Rs2, ImmI, ImmS, ImmB, RegOf, Writes, SizeOfType, Unzeroed;
    Funct3Range(w);
    RegRecord(w);
    ImmRecord(w);
    LoadRecord(w);
    StoreRecord(w);
    BranchRecord(w);
    JalrRecord(w);
  }

  lemma LrDecodes(w: bv32)
    requires UnzeroedLr(w)
    ensures Decode32(w).ty == LR_W
  {
    hide Decode32, Opcode, Funct3, Funct5, Rd, Rs1, Rs2, RegOf, Writes, AtomicName, AtomicNumber;
    AmoRecord(w);
    LrName();
  }

  lemma LrName()
    ensures AtomicName(2) == LR_W
  {
  }

  lemma FenceDecodes(w: bv32)
    requires UnzeroedFence(w)
    ensures Decode32(w).ty == SFENCE_VMA
  {
    hide Decode32, Opcode, Funct3, Funct7, Rd, Rs1, Rs2, RegOf, Writes, SystemType, KindOf;
    SystemRecord(w);
    FenceIs(w);
  }

  lemma BareTypes(w: bv32)
    requires Funct3(w) == 0 && Funct12(w) in {0, 1, 0x102, 0x105, 0x302} && Funct7(w) != 9
    ensures SystemType(w) in {ECALL, EBREAK, WFI, SRET, MRET}
  {
    hide Funct3, Funct7, Funct12;
  }

  lemma BareDecodes(w: bv32)
    requires UnzeroedBare(w)
    ensures Decode32(w).ty in {ECALL, EBREAK, WFI, SRET, MRET}
  {
    hide Decode32, Opcode, Funct3, Funct7, Funct12, Rd, Rs1, Rs2, RegOf, Writes, SystemType, KindOf;
    SystemRecord(w);
    BareTop(w, Funct12(w));
    BareTypes(w);
  }

  /** An unzeroed word runs as an instruction whose fixed fields it does not have. */
  lemma UnzeroedDecodes(w: bv32)
    requires Unzeroed(w)
    ensures Decode32(w).ty != INVALID && !Zeroed(Decode32(w).ty, w)
  {
    hide Decode32, Opcode, Funct3, Funct7, Funct12, Funct5;
    if UnzeroedLr(w) { LrDecodes(w); } else if UnzeroedFence(w) { FenceDecodes(w); } else { BareDecodes(w); }
  }

  lemma GapCodes(t: InstrType, w: bv32)
    requires Coded(t, w)
    ensures t != NOP && t != INVALID && (t == JALR ==> Funct3(w) == 0) && (t == SRAI ==> Funct7(w) == 0x20)
  {
    hide Opcode, Funct3, Funct7, Funct12, Funct5;
  }

  /** The lax words are executed, and are no instruction. */
  lemma LaxUnnamed(w: bv32)
    requires Lax32(w)
    ensures Decode32(w).ty != INVALID && forall t :: !Names(t, w)
  {
    hide Decode32, Opcode, Funct3, Funct7, Unzeroed, Coded, Zeroed;
    if Unzeroed(w) { UnzeroedDecodes(w); } else { GapDecodes(w); }
    forall t ensures !Names(t, w) {
      if Coded(t, w) {
        GapCodes(t, w);
        NamedDecodes(w, t);
      }
    }
  }

  /** A decoded word whose zero fields are zero has its instruction's fixed fields. */
  lemma CodedZeroed(t: InstrType, w: bv32)
    requires Coded(t, w) && !Unzeroed(w)
    ensures Zeroed(t, w)
  {
    hide Opcode, Funct3, Funct7, Funct12, Funct5, Rd, Rs1, Rs2, FormatOf, CodesOf;
    match t
    case LR_W =>
      FormatAmo(t);
      TableAmo(t);
    case ECALL | EBREAK | WFI | SRET | MRET =>
      FormatBare(t);
      TableBare(t);
    case SFENCE_VMA =>
      FormatFence(t);
      TableFence(t);
    case _ =>
  }

  lemma LaxUnzeroed(w: bv32)
    ensures Unzeroed(w) ==> Lax32(w)
  {
    hide Unzeroed, Opcode, Funct3, Funct7;
  }

  lemma LongIssue(w: bv32)
    requires IsLong(w)
    ensures Issue(w, 0, 0) == if Decode32(w).ty == INVALID then WithTrap(Decode32(w), 2, 0) else Decode32(w)
  {
    hide Decode32, Decompress, IsLong, LowHalf, WithTrap;
  }

  lemma TrapIsTrap(i: Instr, cause: bv32, tval: bv32)
    ensures WithTrap(i, cause, tval).onTrap
  {
  }

  /** A 32-bit word raises the illegal-instruction trap if and only if it has the
      fixed fields of no instruction and is in none of the lax families, which hold
      no instruction. */
  lemma RefusalIff32(w: bv32)
    requires IsLong(w)
    ensures Issue(w, 0, 0).onTrap <==> !Lax32(w) && forall t :: !Names(t, w)
    ensures Lax32(w) ==> forall t :: !Names(t, w)
    ensures Issue(w, 0, 0).onTrap ==> Issue(w, 0, 0).cause == 2
  {
    hide Decode32, Issue, IsLong, Lax32, Coded, Zeroed, WithTrap, Unzeroed;
    LongIssue(w);
    TrapIsTrap(Decode32(w), 2, 0);
    IssueTraps(w, 0, 0);
    LaxUnzeroed(w);
    if Lax32(w) {
      LaxUnnamed(w);
    } else if Decode32(w).ty == INVALID {
      forall t ensures !Names(t, w) {
        if Names(t, w) {
          GapCodes(t, w);
          NamedDecodes(w, t);
        }
      }
    } else {
      DecodedNamed(w);
      CodedZeroed(Decode32(w).ty, w);
      assert Names(Decode32(w).ty, w);
    }
  }
}
