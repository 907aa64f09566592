/** The compressed instruction set: every defined 16-bit encoding means what its
    32-bit expansion means (chapter 16 of the RISC-V Unprivileged Architecture
    v20191213; src/decode.hpp:819-1305). */
module Rvc {
  import opened Options
  import opened Isa
  import opened Decode
  import opened Encode

  // ------------------------------------------- the reference: immediate scattering

  function SignBits(c: bv32, high: bv32): (r: bv32) { if c & 0x1000 != 0 then high else 0 }

  function OffAddi4spn(c: bv32): (r: bv32) { ((c >> 7) & 0x30) | ((c >> 1) & 0x3C0) | ((c >> 4) & 4) | ((c >> 2) & 8) }

  function OffWord(c: bv32): (r: bv32) { ((c << 1) & 0x40) | ((c >> 7) & 0x38) | ((c >> 4) & 4) }

  function Small6(c: bv32): (r: bv32) { SignBits(c, 0xFFFF_FFE0) | ((c >> 2) & 0x1F) }

  function OffJump(c: bv32): (r: bv32) {
    SignBits(c, 0xFFFF_F800) | ((c >> 7) & 0x10) | ((c >> 1) & 0x300) | ((c << 2) & 0x400) | ((c >> 1) & 0x40)
    | ((c << 1) & 0x80) | ((c >> 2) & 0xE) | ((c << 3) & 0x20)
  }

  function OffAddi16sp(c: bv32): (r: bv32) {
    SignBits(c, 0xFFFF_FE00) | ((c >> 2) & 0x10) | ((c << 1) & 0x40) | ((c << 4) & 0x180) | ((c << 3) & 0x20)
  }

  function Upper(c: bv32): (r: bv32) { SignBits(c, 0xFFFE_0000) | ((c << 10) & 0x1_F000) }

  function OffBranch(c: bv32): (r: bv32) {
    SignBits(c, 0xFFFF_FF00) | ((c >> 7) & 0x18) | ((c << 1) & 0xC0) | ((c >> 2) & 6) | ((c << 3) & 0x20)
  }

  function OffLoadSp(c: bv32): (r: bv32) { ((c >> 7) & 0x20) | ((c >> 2) & 0x1C) | ((c << 4) & 0xC0) }

  function OffStoreSp(c: bv32): (r: bv32) { ((c >> 7) & 0x3C) | ((c >> 1) & 0xC0) }

  // ------------------------------------------------------ the reference: expansion

  /** The instruction a 16-bit encoding stands for in RV32C without floating
      point; `None` for reserved and custom encodings. */
  function AsmOf(c: bv32): (r: Option<Asm>) {
    var q, f := Quadrant(c), CFunct3(c);
    if q == 0 then Asm0(c, f) else if q == 1 then Asm1(c, f) else if q == 2 then Asm2(c, f) else Option.None
  }

  function Asm0(c: bv32, f: bv32): (r: Option<Asm>) {
    if f == 0 then (if OffAddi4spn(c) == 0 then Option.None else Some(Asm(ADDI, Narrow2(c), 2, 0, OffAddi4spn(c))))
    else if f == 2 then Some(Asm(LW, Narrow2(c), Narrow1(c), 0, OffWord(c)))
    else if f == 6 then Some(Asm(SW, 0, Narrow1(c), Narrow2(c), OffWord(c)))
    else Option.None
  }

  function Asm1(c: bv32, f: bv32): (r: Option<Asm>) {
    var rd := Full(c);
    if f == 0 then Some(Asm(ADDI, rd, rd, 0, Small6(c)))
    else if f == 1 then Some(Asm(JAL, 1, 0, 0, OffJump(c)))
    else if f == 2 then Some(Asm(ADDI, rd, 0, 0, Small6(c)))
    else if f == 3 then AsmUpper(c, rd)
    else if f == 4 then AsmArith(c, Narrow1(c))
    else if f == 5 then Some(Asm(JAL, 0, 0, 0, OffJump(c)))
    else if f == 6 then Some(Asm(BEQ, 0, Narrow1(c), 0, OffBranch(c)))
    else Some(Asm(BNE, 0, Narrow1(c), 0, OffBranch(c)))
  }

  function AsmUpper(c: bv32, rd: bv32): (r: Option<Asm>) {
    if rd == 2 then (if OffAddi16sp(c) == 0 then Option.None else Some(Asm(ADDI, 2, 2, 0, OffAddi16sp(c))))
    else if Upper(c) == 0 then Option.None
    else Some(Asm(LUI, rd, 0, 0, Upper(c)))
  }

  function AsmArith(c: bv32, rd: bv32): (r: Option<Asm>) {
    var g := Bits11To10(c);
    if g == 2 then Some(Asm(ANDI, rd, rd, 0, Small6(c)))
    else if Bit12(c) != 0 then Option.None
    else if g == 0 then Some(Asm(SRLI, rd, rd, 0, Second(c)))
    else if g == 1 then Some(Asm(SRAI, rd, rd, 0, Second(c)))
    else
      var t := if Bits6To5(c) == 0 then SUB else if Bits6To5(c) == 1 then XOR else if Bits6To5(c) == 2 then OR else AND;
      Some(Asm(t, rd, rd, Narrow2(c), 0))
  }

  function Asm2(c: bv32, f: bv32): (r: Option<Asm>) {
    var rd, rs2 := Full(c), Second(c);
    if f == 0 then (if Bit12(c) != 0 then Option.None else Some(Asm(SLLI, rd, rd, 0, rs2)))
    else if f == 2 then (if rd == 0 then Option.None else Some(Asm(LW, rd, 2, 0, OffLoadSp(c))))
    else if f == 4 then
      (if rs2 == 0 then
         (if Bit12(c) == 0 then (if rd == 0 then Option.None else Some(Asm(JALR, 0, rd, 0, 0)))
          else if rd == 0 then Some(Asm(EBREAK, 0, 0, 0, 0)) else Some(Asm(JALR, 1, rd, 0, 0)))
       else Some(Asm(ADD, rd, if Bit12(c) == 0 then 0 else rd, rs2, 0)))
    else if f == 6 then Some(Asm(SW, 0, 2, rs2, OffStoreSp(c)))
    else Option.None
  }

  // ------------------------------------------------------------- immediates agree

  lemma Addi4spnImm(c: bv32)
    ensures CAddi4spn(c) == OffAddi4spn(c) && Extend(Low12(OffAddi4spn(c)), 0x800) == OffAddi4spn(c)
  {
  }

  lemma WordImm(c: bv32)
    ensures CWordOffset(c) == OffWord(c) && Extend(Low12(OffWord(c)), 0x800) == OffWord(c)
  {
  }

  lemma SmallImm(c: bv32)
    ensures CImm(c) == Small6(c) && Extend(Low12(Small6(c)), 0x800) == Small6(c)
  {
  }

  lemma JumpImmC(c: bv32)
    ensures CJump(c) == OffJump(c)
  {
  }

  lemma JumpFits(c: bv32)
    ensures Extend(Low21(OffJump(c)), 0x10_0000) == OffJump(c) && Even(OffJump(c))
  {
  }

  lemma Addi16spImm(c: bv32)
    ensures CAddi16sp(c) == OffAddi16sp(c) && Extend(Low12(OffAddi16sp(c)), 0x800) == OffAddi16sp(c)
  {
  }

  lemma UpperImm(c: bv32)
    ensures CLui(c) == Upper(c) && Up12(High20(Upper(c))) == Upper(c)
  {
  }

  lemma BranchImmC(c: bv32)
    ensures CBranch(c) == OffBranch(c)
  {
  }

  lemma BranchFits(c: bv32)
    ensures Extend(Low13(OffBranch(c)), 0x1000) == OffBranch(c) && Even(OffBranch(c))
  {
  }

  lemma LoadSpImm(c: bv32)
    ensures CLoadSp(c) == OffLoadSp(c) && Extend(Low12(OffLoadSp(c)), 0x800) == OffLoadSp(c)
  {
  }

  lemma StoreSpImm(c: bv32)
    ensures CStoreSp(c) == OffStoreSp(c) && Extend(Low12(OffStoreSp(c)), 0x800) == OffStoreSp(c)
  {
  }

  lemma RegistersFit(c: bv32)
    ensures In5(Full(c)) && In5(Second(c)) && In5(Narrow1(c)) && In5(Narrow2(c)) && In5(0) && In5(1) && In5(2)
  {
  }

  lemma FixedRegisters()
    ensures RegOf(0) == 0 && RegOf(1) == 1 && RegOf(2) == 2
  {
  }

  // ----------------------------------------------- one lemma per instruction shape

  /** The decoded record is that of a well-formed instruction. */
  predicate Stands(i: Instr, m: Asm) { Fits(m) && Means(i, m) }

  lemma ImmUses(t: InstrType)
    requires t.ADDI? || t.LW? || t.ANDI? || t.JALR?
    ensures UseOf(t) == if t.LW? then Use(true, false, false, 0, 4) else NO_USE
  {
    hide AmoNumberOf, Atomic;
  }

  lemma ImmShape(c: bv32, t: InstrType, rd: bv32, rs1: bv32, imm: bv32)
    requires t.ADDI? || t.LW? || t.ANDI?
    requires In5(rd) && In5(rs1) && Extend(Low12(imm), 0x800) == imm
    ensures Stands(Compressed(c, t, true, RegOf(rd), RegOf(rs1), 0, imm, false), Asm(t, rd, rs1, 0, imm))
  {
    hide RegOf, Extend, Low5, Low12, Low13, Low21, High20, Up12, Even, In5, CsrNumber;
    hide FormatOf, UseOf, CodesOf, KindOf, IsU, IsShift, IsR, IsS, IsJ, IsB, IsBare, IsFence, IsCsr, IsAmo;
    RegistersFit(c);
    FormatI(t);
    ImmUses(t);
  }

  lemma StoreShape(c: bv32, rs1: bv32, rs2: bv32, imm: bv32)
    requires In5(rs1) && In5(rs2) && Extend(Low12(imm), 0x800) == imm
    ensures Stands(Compressed(c, SW, false, 0, RegOf(rs1), RegOf(rs2), imm, false), Asm(SW, 0, rs1, rs2, imm))
  {
    hide RegOf, Extend, Low5, Low12, Low13, Low21, High20, Up12, Even, In5, CsrNumber;
    hide FormatOf, UseOf, CodesOf, KindOf, IsU, IsI, IsShift, IsR, IsJ, IsB, IsBare, IsFence, IsCsr, IsAmo;
    RegistersFit(c);
    FormatS(SW);
    StoreTypeIs(SW);
    FixedRegisters();
  }

  lemma JumpShape(c: bv32, link: bool, imm: bv32)
    requires Even(imm) && Extend(Low21(imm), 0x10_0000) == imm
    ensures Stands(Compressed(c, JAL, link, if link then 1 else 0, 0, 0, imm, false), Asm(JAL, if link then 1 else 0, 0, 0, imm))
  {
    hide RegOf, Extend, Low5, Low12, Low13, Low21, High20, Up12, Even, In5, CsrNumber;
    hide FormatOf, UseOf, CodesOf, KindOf, IsU, IsI, IsShift, IsR, IsS, IsB, IsBare, IsFence, IsCsr, IsAmo;
    RegistersFit(c);
    FormatJ(JAL);
    UseJ(JAL);
    FixedRegisters();
  }

  lemma JalrShape(c: bv32, link: bool, rs1: bv32)
    requires In5(rs1)
    ensures Stands(Compressed(c, JALR, link, if link then 1 else 0, RegOf(rs1), 0, 0, false), Asm(JALR, if link then 1 else 0, rs1, 0, 0))
  {
    hide RegOf, Extend, Low5, Low12, Low13, Low21, High20, Up12, Even, In5, CsrNumber;
    hide FormatOf, UseOf, CodesOf, KindOf, IsU, IsShift, IsR, IsS, IsJ, IsB, IsBare, IsFence, IsCsr, IsAmo;
    RegistersFit(c);
    FormatI(JALR);
    ImmUses(JALR);
    FixedRegisters();
    ZeroFits();
  }

  lemma UpperShape(c: bv32, rd: bv32, imm: bv32)
    requires In5(rd) && Up12(High20(imm)) == imm
    ensures Stands(Compressed(c, LUI, true, RegOf(rd), 0, 0, imm, false), Asm(LUI, rd, 0, 0, imm))
  {
    hide RegOf, Extend, Low5, Low12, Low13, Low21, High20, Up12, Even, In5, CsrNumber;
    hide FormatOf, UseOf, CodesOf, KindOf, IsI, IsShift, IsR, IsS, IsJ, IsB, IsBare, IsFence, IsCsr, IsAmo;
    RegistersFit(c);
    FormatU(LUI);
    UpperTypeIs(LUI);
  }

  lemma BranchShape(c: bv32, t: InstrType, rs1: bv32, imm: bv32)
    requires t.BEQ? || t.BNE?
    requires In5(rs1) && Even(imm) && Extend(Low13(imm), 0x1000) == imm
    ensures Stands(Compressed(c, t, false, 0, RegOf(rs1), 0, imm, false), Asm(t, 0, rs1, 0, imm))
  {
    hide RegOf, Extend, Low5, Low12, Low13, Low21, High20, Up12, Even, In5, CsrNumber;
    hide FormatOf, UseOf, CodesOf, KindOf, IsU, IsI, IsShift, IsR, IsS, IsJ, IsBare, IsFence, IsCsr, IsAmo;
    RegistersFit(c);
    FormatB(t);
    BranchTypeIs(t);
    FixedRegisters();
  }

  lemma ShiftShape(c: bv32, t: InstrType, rd: bv32, n: bv32)
    requires t.SLLI? || t.SRLI? || t.SRAI?
    requires In5(rd) && In5(n)
    ensures Stands(Compressed(c, t, true, RegOf(rd), RegOf(rd), 0, n, false), Asm(t, rd, rd, 0, n))
  {
    hide RegOf, Extend, Low5, Low12, Low13, Low21, High20, Up12, Even, In5, CsrNumber;
    hide FormatOf, UseOf, CodesOf, KindOf, IsU, IsI, IsR, IsS, IsJ, IsB, IsBare, IsFence, IsCsr, IsAmo;
    RegistersFit(c);
    FormatShift(t);
    UseShift(t);
  }

  lemma RegShape(c: bv32, t: InstrType, rd: bv32, rs1: bv32, rs2: bv32)
    requires t.SUB? || t.XOR? || t.OR? || t.AND? || t.ADD?
    requires In5(rd) && In5(rs1) && In5(rs2)
    ensures Stands(Compressed(c, t, true, RegOf(rd), RegOf(rs1), RegOf(rs2), 0, false), Asm(t, rd, rs1, rs2, 0))
  {
    hide RegOf, Extend, Low5, Low12, Low13, Low21, High20, Up12, Even, In5, CsrNumber;
    hide FormatOf, UseOf, CodesOf, KindOf, IsU, IsI, IsShift, IsS, IsJ, IsB, IsBare, IsFence, IsCsr, IsAmo;
    RegistersFit(c);
    FormatR(t);
    UseR(t);
  }

  lemma EbreakShape(c: bv32)
    ensures Stands(Compressed(c, EBREAK, false, 0, 0, 0, 0, false), Asm(EBREAK, 0, 0, 0, 0))
  {
    hide RegOf, Extend, Low5, Low12, Low13, Low21, High20, Up12, Even, In5, CsrNumber;
    hide FormatOf, UseOf, CodesOf, KindOf, IsU, IsI, IsShift, IsR, IsS, IsJ, IsB, IsFence, IsCsr, IsAmo;
    RegistersFit(c);
    FormatBare(EBREAK);
    UseBare(EBREAK);
    FixedRegisters();
  }

  lemma ZeroFits()
    ensures Extend(Low12(0), 0x800) == 0
  {
  }

  // ------------------------------------------------------------------ the decoder

  lemma Stands0(c: bv32)
    requires Asm0(c, CFunct3(c)).Some?
    ensures Stands(Quadrant0(c), Asm0(c, CFunct3(c)).value)
  {
    hide Stands, Compressed, RegOf, Quadrant, CFunct3, Bit12, Bits11To10, Bits6To5, Full, Second, Narrow1, Narrow2,
      Extend, Low12, Low13, Low21, High20, Up12, Even, In5, CAddi4spn, CWordOffset, CImm, CJump, CAddi16sp, CLui,
      CBranch, CLoadSp, CStoreSp, OffAddi4spn, OffWord, Small6, OffJump, OffAddi16sp, Upper, OffBranch, OffLoadSp,
      OffStoreSp;
    RegistersFit(c);
    FixedRegisters();
    Addi4spnImm(c);
    WordImm(c);
    if CFunct3(c) == 0 {
      ImmShape(c, ADDI, Narrow2(c), 2, CAddi4spn(c));
    } else if CFunct3(c) == 2 {
      ImmShape(c, LW, Narrow2(c), Narrow1(c), CWordOffset(c));
    } else {
      StoreShape(c, Narrow1(c), Narrow2(c), CWordOffset(c));
    }
  }

  lemma StandsArith(c: bv32)
    requires AsmArith(c, Narrow1(c)).Some?
    ensures Stands(Arith(c), AsmArith(c, Narrow1(c)).value)
  {
    hide Stands, Compressed, RegOf, Quadrant, CFunct3, Bit12, Bits11To10, Bits6To5, Full, Second, Narrow1, Narrow2,
      Extend, Low12, Low13, Low21, High20, Up12, Even, In5, CAddi4spn, CWordOffset, CImm, CJump, CAddi16sp, CLui,
      CBranch, CLoadSp, CStoreSp, OffAddi4spn, OffWord, Small6, OffJump, OffAddi16sp, Upper, OffBranch, OffLoadSp,
      OffStoreSp;
    RegistersFit(c);
    FixedRegisters();
    SmallImm(c);
    if Bits11To10(c) == 2 {
      ImmShape(c, ANDI, Narrow1(c), Narrow1(c), CImm(c));
    } else if Bits11To10(c) == 0 || Bits11To10(c) == 1 {
      ShiftShape(c, if Bits11To10(c) == 0 then SRLI else SRAI, Narrow1(c), Second(c));
    } else {
      ElevenToTen(c);
      RegShape(c, ArithType(Bits6To5(c)), Narrow1(c), Narrow1(c), Narrow2(c));
    }
  }

  lemma ElevenToTen(c: bv32)
    ensures Bits11To10(c) == 0 || Bits11To10(c) == 1 || Bits11To10(c) == 2 || Bits11To10(c) == 3
  {
  }

  lemma StandsUpper(c: bv32)
    requires AsmUpper(c, Full(c)).Some?
    ensures Stands(StackOrUpper(c), AsmUpper(c, Full(c)).value)
  {
    hide Stands, Compressed, RegOf, Quadrant, CFunct3, Bit12, Bits11To10, Bits6To5, Full, Second, Narrow1, Narrow2,
      Extend, Low12, Low13, Low21, High20, Up12, Even, In5, CAddi4spn, CWordOffset, CImm, CJump, CAddi16sp, CLui,
      CBranch, CLoadSp, CStoreSp, OffAddi4spn, OffWord, Small6, OffJump, OffAddi16sp, Upper, OffBranch, OffLoadSp,
      OffStoreSp;
    RegistersFit(c);
    FixedRegisters();
    if Full(c) == 2 {
      Addi16spImm(c);
      ImmShape(c, ADDI, 2, 2, CAddi16sp(c));
    } else {
      UpperImm(c);
      UpperShape(c, Full(c), CLui(c));
    }
  }

  lemma Stands1(c: bv32)
    requires c != 1 && Asm1(c, CFunct3(c)).Some?
    ensures Stands(Quadrant1(c), Asm1(c, CFunct3(c)).value)
  {
    hide Stands, Compressed, RegOf, Quadrant, CFunct3, Bit12, Bits11To10, Bits6To5, Full, Second, Narrow1, Narrow2,
      Extend, Low12, Low13, Low21, High20, Up12, Even, In5, CAddi4spn, CWordOffset, CImm, CJump, CAddi16sp, CLui,
      CBranch, CLoadSp, CStoreSp, OffAddi4spn, OffWord, Small6, OffJump, OffAddi16sp, Upper, OffBranch, OffLoadSp,
      OffStoreSp;
    RegistersFit(c);
    FixedRegisters();
    hide Arith, AsmArith, StackOrUpper, AsmUpper;
    var f := CFunct3(c);
    if f == 0 {
      SmallImm(c);
      ImmShape(c, ADDI, Full(c), Full(c), CImm(c));
    } else if f == 1 || f == 5 {
      JumpImmC(c);
      JumpFits(c);
      JumpShape(c, f == 1, CJump(c));
    } else if f == 2 {
      SmallImm(c);
      ImmShape(c, ADDI, Full(c), 0, CImm(c));
    } else if f == 3 {
      StandsUpper(c);
    } else if f == 4 {
      StandsArith(c);
    } else {
      BranchImmC(c);
      BranchFits(c);
      BranchShape(c, if f == 6 then BEQ else BNE, Narrow1(c), CBranch(c));
    }
  }

  lemma Stands2(c: bv32)
    requires Asm2(c, CFunct3(c)).Some?
    ensures Stands(Quadrant2(c), Asm2(c, CFunct3(c)).value)
  {
    hide Stands, Compressed, RegOf, Quadrant, CFunct3, Bit12, Bits11To10, Bits6To5, Full, Second, Narrow1, Narrow2,
      Extend, Low12, Low13, Low21, High20, Up12, Even, In5, CAddi4spn, CWordOffset, CImm, CJump, CAddi16sp, CLui,
      CBranch, CLoadSp, CStoreSp, OffAddi4spn, OffWord, Small6, OffJump, OffAddi16sp, Upper, OffBranch, OffLoadSp,
      OffStoreSp;
    RegistersFit(c);
    FixedRegisters();
    var f := CFunct3(c);
    if f == 0 {
      ShiftShape(c, SLLI, Full(c), Second(c));
    } else if f == 2 {
      LoadSpImm(c);
      ImmShape(c, LW, Full(c), 2, CLoadSp(c));
    } else if f == 6 {
      StoreSpImm(c);
      StoreShape(c, 2, Second(c), CStoreSp(c));
    } else if Second(c) != 0 {
      RegShape(c, ADD, Full(c), if Bit12(c) == 0 then 0 else Full(c), Second(c));
    } else if Full(c) != 0 {
      JalrShape(c, Bit12(c) != 0, Full(c));
    } else {
      EbreakShape(c);
    }
  }

  lemma DecompressStandsBut(c: bv32)
    requires c != 1 && AsmOf(c).Some?
    ensures Stands(Decompress(c), AsmOf(c).value)
  {
    hide Stands, Asm0, Asm1, Asm2, Quadrant0, Quadrant1, Quadrant2, CFunct3, Quadrant;
    if Quadrant(c) == 0 { Stands0(c); } else if Quadrant(c) == 1 { Stands1(c); } else { Stands2(c); }
  }

  lemma NopAsm()
    ensures AsmOf(1) == Some(Asm(ADDI, 0, 0, 0, 0)) && Decompress(1) == Compressed(1, NOP, false, 0, 0, 0, 0, false)
  {
  }

  lemma NopFits()
    ensures Fits(Asm(ADDI, 0, 0, 0, 0))
  {
    hide CodesOf;
    Zero();
    ZeroFits();
    FormatI(ADDI);
  }

  /** For every defined encoding the compressed decoder produces the record of the
      well-formed instruction it stands for; C.NOP alone, which stands for
      ADDI x0, x0, 0, gets a type of its own. */
  lemma DecompressStands(c: bv32)
    requires AsmOf(c).Some?
    ensures Fits(AsmOf(c).value)
    ensures if c == 1 then AsmOf(c).value == Asm(ADDI, 0, 0, 0, 0) && Decompress(c) == Compressed(1, NOP, false, 0, 0, 0, 0, false)
            else Means(Decompress(c), AsmOf(c).value)
  {
    hide Fits, Means, AsmOf, Decompress, Compressed;
    if c == 1 {
      NopAsm();
      NopFits();
    } else {
      DecompressStandsBut(c);
    }
  }

  /** The instructions with a compressed form. */
  predicate Short(t: InstrType) {
    t.ADDI? || t.ANDI? || t.LUI? || t.LW? || t.SW? || t.JAL? || t.JALR? || t.BEQ? || t.BNE? || t.SLLI? || t.SRLI? || t.SRAI?
    || t.ADD? || t.SUB? || t.XOR? || t.OR? || t.AND? || t.EBREAK?
  }

  lemma ShortAsm(c: bv32)
    requires AsmOf(c).Some?
    ensures Short(AsmOf(c).value.ty)
  {
    hide Asm0, Asm1, Asm2, Short, Quadrant, CFunct3;
    ShortAsm0(c, CFunct3(c));
    ShortAsm1(c, CFunct3(c));
    ShortAsm2(c, CFunct3(c));
  }

  lemma ShortAsm0(c: bv32, f: bv32)
    ensures Asm0(c, f).Some? ==> Short(Asm0(c, f).value.ty)
  {
    hide Quadrant, CFunct3, Bit12, Bits11To10, Bits6To5, Full, Second, Narrow1, Narrow2, OffAddi4spn, OffWord, Small6,
      OffJump, OffAddi16sp, Upper, OffBranch, OffLoadSp, OffStoreSp;
  }

  lemma ShortArith(c: bv32, rd: bv32)
    ensures AsmArith(c, rd).Some? ==> Short(AsmArith(c, rd).value.ty)
  {
    hide Quadrant, CFunct3, Bit12, Bits11To10, Bits6To5, Full, Second, Narrow1, Narrow2, OffAddi4spn, OffWord, Small6,
      OffJump, OffAddi16sp, Upper, OffBranch, OffLoadSp, OffStoreSp;
  }

  lemma ShortAsm1(c: bv32, f: bv32)
    ensures Asm1(c, f).Some? ==> Short(Asm1(c, f).value.ty)
  {
    hide Quadrant, CFunct3, Bit12, Bits11To10, Bits6To5, Full, Second, Narrow1, Narrow2, OffAddi4spn, OffWord, Small6,
      OffJump, OffAddi16sp, Upper, OffBranch, OffLoadSp, OffStoreSp;
    hide AsmArith;
    ShortArith(c, Narrow1(c));
  }

  lemma ShortAsm2(c: bv32, f: bv32)
    ensures Asm2(c, f).Some? ==> Short(Asm2(c, f).value.ty)
  {
    hide Quadrant, CFunct3, Bit12, Bits11To10, Bits6To5, Full, Second, Narrow1, Narrow2, OffAddi4spn, OffWord, Small6,
      OffJump, OffAddi16sp, Upper, OffBranch, OffLoadSp, OffStoreSp;
  }

  // ------------------------------------------------------------ undefined encodings

  /** Reserved encodings the decoder executes all the same: C.LUI with a zero
      immediate, and C.SLLI with bit 12 set. */
  predicate Lax(c: bv32) {
    || (Quadrant(c) == 1 && CFunct3(c) == 3 && Full(c) != 2 && Upper(c) == 0)
    || (Quadrant(c) == 2 && CFunct3(c) == 0 && Bit12(c) != 0 && Full(c) != 0)
  }

  /** The record is an illegal instruction. */
  predicate Bad(i: Instr) { i.onTrap || i.ty == INVALID }

  lemma Refusal0(c: bv32)
    ensures Bad(Quadrant0(c)) <==> Asm0(c, CFunct3(c)).None?
  {
    hide Compressed, Quadrant, CFunct3, Bit12, Bits11To10, Bits6To5, Full, Second, Narrow1, Narrow2, CAddi4spn,
      CWordOffset, CImm, CJump, CAddi16sp, CLui, CBranch, CLoadSp, CStoreSp, OffAddi4spn, OffWord, Small6, OffJump,
      OffAddi16sp, Upper, OffBranch, OffLoadSp, OffStoreSp, RegOf, SizeOfType;
    Addi4spnImm(c);
  }

  lemma Selectors(c: bv32)
    ensures CFunct3(c) in {0, 1, 2, 3, 4, 5, 6, 7} && Quadrant(c) in {0, 1, 2, 3} && Bits11To10(c) in {0, 1, 2, 3}
  {
  }

  lemma RefusalArith(c: bv32)
    ensures Bad(Arith(c)) <==> AsmArith(c, Narrow1(c)).None?
  {
    hide Compressed, Quadrant, CFunct3, Bit12, Bits11To10, Bits6To5, Full, Second, Narrow1, Narrow2, CAddi4spn,
      CWordOffset, CImm, CJump, CAddi16sp, CLui, CBranch, CLoadSp, CStoreSp, OffAddi4spn, OffWord, Small6, OffJump,
      OffAddi16sp, Upper, OffBranch, OffLoadSp, OffStoreSp, RegOf, SizeOfType;
    hide ArithType;
    Selectors(c);
    ArithNames(Bits6To5(c));
    if Bits11To10(c) == 2 {
      assert !Bad(Arith(c)) && AsmArith(c, Narrow1(c)).Some?;
    } else if Bit12(c) != 0 {
      assert Bad(Arith(c)) && AsmArith(c, Narrow1(c)).None?;
    } else {
      assert !Bad(Arith(c)) && AsmArith(c, Narrow1(c)).Some?;
    }
  }

  lemma ArithNames(g: bv32)
    ensures ArithType(g) != INVALID
  {
  }

  lemma RefusalUpper(c: bv32)
    ensures Bad(StackOrUpper(c)) <==> AsmUpper(c, Full(c)).None? && !(Full(c) != 2 && Upper(c) == 0)
  {
    hide Compressed, Quadrant, CFunct3, Bit12, Bits11To10, Bits6To5, Full, Second, Narrow1, Narrow2, CAddi4spn,
      CWordOffset, CImm, CJump, CAddi16sp, CLui, CBranch, CLoadSp, CStoreSp, OffAddi4spn, OffWord, Small6, OffJump,
      OffAddi16sp, Upper, OffBranch, OffLoadSp, OffStoreSp, RegOf, SizeOfType;
    Addi16spImm(c);
  }

  lemma Ordinary1(c: bv32)
    requires CFunct3(c) != 3 && CFunct3(c) != 4
    ensures !Bad(Quadrant1(c)) && Asm1(c, CFunct3(c)).Some?
  {
    hide Quadrant1, Asm1, CFunct3;
    OrdinaryRecord(c);
    OrdinaryAsm(c, CFunct3(c));
  }

  lemma OrdinaryRecord(c: bv32)
    requires CFunct3(c) != 3 && CFunct3(c) != 4
    ensures !Bad(Quadrant1(c))
  {
    hide Compressed, Quadrant, CFunct3, Bit12, Bits11To10, Bits6To5, Full, Second, Narrow1, Narrow2, CAddi4spn,
      CWordOffset, CImm, CJump, CAddi16sp, CLui, CBranch, CLoadSp, CStoreSp, OffAddi4spn, OffWord, Small6, OffJump,
      OffAddi16sp, Upper, OffBranch, OffLoadSp, OffStoreSp, RegOf, SizeOfType;
    hide Arith, AsmArith, StackOrUpper, AsmUpper;
  }

  lemma OrdinaryAsm(c: bv32, f: bv32)
    requires f != 3 && f != 4
    ensures Asm1(c, f).Some?
  {
    hide Full, Narrow1, Small6, OffJump, OffBranch, AsmArith, AsmUpper;
  }

  lemma Refusal1(c: bv32)
    ensures Bad(Quadrant1(c)) <==> Asm1(c, CFunct3(c)).None? && !(CFunct3(c) == 3 && Full(c) != 2 && Upper(c) == 0)
  {
    hide Compressed, Quadrant, CFunct3, Bit12, Bits11To10, Bits6To5, Full, Second, Narrow1, Narrow2, CAddi4spn,
      CWordOffset, CImm, CJump, CAddi16sp, CLui, CBranch, CLoadSp, CStoreSp, OffAddi4spn, OffWord, Small6, OffJump,
      OffAddi16sp, Upper, OffBranch, OffLoadSp, OffStoreSp, RegOf, SizeOfType;
    hide Arith, AsmArith, StackOrUpper, AsmUpper;
    RefusalArith(c);
    RefusalUpper(c);
    var f := CFunct3(c);
    if f == 3 {
      assert Quadrant1(c) == StackOrUpper(c);
    } else if f == 4 {
      assert Quadrant1(c) == Arith(c);
    } else {
      Ordinary1(c);
    }
  }

  lemma Refusal2(c: bv32)
    ensures Bad(Quadrant2(c)) <==> Asm2(c, CFunct3(c)).None? && !(CFunct3(c) == 0 && Bit12(c) != 0 && Full(c) != 0)
  {
    hide Compressed, Quadrant, CFunct3, Bit12, Bits11To10, Bits6To5, Full, Second, Narrow1, Narrow2, CAddi4spn,
      CWordOffset, CImm, CJump, CAddi16sp, CLui, CBranch, CLoadSp, CStoreSp, OffAddi4spn, OffWord, Small6, OffJump,
      OffAddi16sp, Upper, OffBranch, OffLoadSp, OffStoreSp, RegOf, SizeOfType;
    Selectors(c);
  }

  /** An undefined 16-bit encoding raises the illegal-instruction trap unless it is
      one of the two lax families, and a defined one never does. */
  lemma RefusalIff(w: bv32)
    requires !IsLong(w)
    ensures var c, i := LowHalf(w), Issue(w, 0, 0);
            && (i.onTrap <==> AsmOf(c).None? && !Lax(c))
            && (i.onTrap ==> i.cause == 2)
  {
    hide Quadrant0, Quadrant1, Quadrant2, Asm0, Asm1, Asm2, CFunct3, Quadrant, IsLong, LowHalf, Bit12, Full, Upper, Decode32;
    var c := LowHalf(w);
    HalfQuadrant(w);
    Selectors(c);
    Refusal0(c);
    Refusal1(c);
    Refusal2(c);
  }

  lemma HalfQuadrant(w: bv32)
    ensures Quadrant(LowHalf(w)) == 3 <==> IsLong(w)
  {
  }
}
