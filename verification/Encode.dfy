/** The 32-bit decoder undoes the instruction formats (src/decode.hpp:392-818;
    chapters 2, 7, 8, 9 and 24 of the RISC-V Unprivileged Architecture v20191213). */
module Encode {
  import opened Isa
  import opened Decode

  // ---------------------------------------------------- 32-bit instruction formats

  // Field widths, and parts of the top field.

  predicate In2(v: bv32) { v < 4 }
  predicate In3(v: bv32) { v < 8 }
  predicate In5(v: bv32) { v < 32 }
  predicate In7(v: bv32) { v < 128 }
  predicate In12(v: bv32) { v < 0x1000 }
  predicate In13(v: bv32) { v < 0x2000 }
  predicate In20(v: bv32) { v < 0x10_0000 }
  predicate In21(v: bv32) { v < 0x20_0000 }
  predicate Even(v: bv32) { v & 1 == 0 }

  function High7(v: bv32): (r: bv32) { v >> 5 }
  function With(f7: bv32, low: bv32): (r: bv32) { (f7 << 5) | low }
  function Low12(v: bv32): (r: bv32) { v & 0xFFF }
  function Low13(v: bv32): (r: bv32) { v & 0x1FFF }
  function Low21(v: bv32): (r: bv32) { v & 0x1F_FFFF }
  function High20(v: bv32): (r: bv32) { v >> 12 }
  function Up12(v: bv32): (r: bv32) { v << 12 }
  function Drop2(v: bv32): (r: bv32) { v >> 2 }
  function AmoTop(f5: bv32, aqrl: bv32): (r: bv32) { (f5 << 2) | aqrl }

  /** The common layout: bits 31..20, 19..15, 14..12, 11..7 and the opcode. */
  function Word(top: bv32, rs1: bv32, f3: bv32, rd: bv32, op: bv32): (w: bv32) {
    (top << 20) | (rs1 << 15) | (f3 << 12) | (rd << 7) | op
  }

  function UWord(imm20: bv32, rd: bv32, op: bv32): (w: bv32) { (imm20 << 12) | (rd << 7) | op }

  /** Store and branch split their immediate over the two ends. */
  function StoreWord(imm: bv32, rs2: bv32, rs1: bv32, f3: bv32): (w: bv32) {
    Word(StoreTop(imm, rs2), rs1, f3, Low5(imm), 0x23)
  }

  function StoreTop(imm: bv32, rs2: bv32): (r: bv32) { ((imm >> 5) << 5) | rs2 }

  function BranchWord(imm: bv32, rs2: bv32, rs1: bv32, f3: bv32): (w: bv32) {
    Word(BranchTop(imm, rs2), rs1, f3, BranchLow(imm), 0x63)
  }

  function BranchTop(imm: bv32, rs2: bv32): (r: bv32) { ((imm >> 1) & 0x800) | (imm & 0x7E0) | rs2 }
  function BranchLow(imm: bv32): (r: bv32) { (imm & 0x1E) | ((imm >> 11) & 1) }

  function JumpWord(imm: bv32, rd: bv32): (w: bv32) {
    UWord(JumpBits(imm), rd, 0x6F)
  }

  function JumpBits(imm: bv32): (r: bv32) {
    ((imm >> 1) & 0x8_0000) | ((imm << 8) & 0x7_FE00) | ((imm >> 3) & 0x100) | ((imm >> 12) & 0xFF)
  }


  lemma RawOpcode(top: bv32, rs1: bv32, f3: bv32, rd: bv32, op: bv32)
    requires top < 0x1000 && rs1 < 32 && f3 < 8 && rd < 32 && op < 128
    ensures ((top << 20) | (rs1 << 15) | (f3 << 12) | (rd << 7) | op) & 0x7F == op
  {
  }

  lemma RawRd(top: bv32, rs1: bv32, f3: bv32, rd: bv32, op: bv32)
    requires top < 0x1000 && rs1 < 32 && f3 < 8 && rd < 32 && op < 128
    ensures (((top << 20) | (rs1 << 15) | (f3 << 12) | (rd << 7) | op) >> 7) & 0x1F == rd
  {
  }

  lemma RawFunct3(top: bv32, rs1: bv32, f3: bv32, rd: bv32, op: bv32)
    requires top < 0x1000 && rs1 < 32 && f3 < 8 && rd < 32 && op < 128
    ensures (((top << 20) | (rs1 << 15) | (f3 << 12) | (rd << 7) | op) >> 12) & 7 == f3
  {
  }

  lemma RawRs1(top: bv32, rs1: bv32, f3: bv32, rd: bv32, op: bv32)
    requires top < 0x1000 && rs1 < 32 && f3 < 8 && rd < 32 && op < 128
    ensures (((top << 20) | (rs1 << 15) | (f3 << 12) | (rd << 7) | op) >> 15) & 0x1F == rs1
  {
  }

  lemma RawRs2(top: bv32, rs1: bv32, f3: bv32, rd: bv32, op: bv32)
    requires top < 0x1000 && rs1 < 32 && f3 < 8 && rd < 32 && op < 128
    ensures (((top << 20) | (rs1 << 15) | (f3 << 12) | (rd << 7) | op) >> 20) & 0x1F == top & 0x1F
  {
  }

  lemma RawFunct7(top: bv32, rs1: bv32, f3: bv32, rd: bv32, op: bv32)
    requires top < 0x1000 && rs1 < 32 && f3 < 8 && rd < 32 && op < 128
    ensures (((top << 20) | (rs1 << 15) | (f3 << 12) | (rd << 7) | op) >> 25) & 0x7F == top >> 5
  {
  }

  lemma RawTop(top: bv32, rs1: bv32, f3: bv32, rd: bv32, op: bv32)
    requires top < 0x1000 && rs1 < 32 && f3 < 8 && rd < 32 && op < 128
    ensures (((top << 20) | (rs1 << 15) | (f3 << 12) | (rd << 7) | op) >> 20) & 0xFFF == top
  {
  }

  /** Layout and field selection are inverse. */
  lemma WordFields(top: bv32, rs1: bv32, f3: bv32, rd: bv32, op: bv32)
    requires In12(top) && In5(rs1) && In3(f3) && In5(rd) && In7(op)
    ensures var w := Word(top, rs1, f3, rd, op);
            && OpcodeBits(w) == op && Rd(w) == rd && Funct3Bits(w) == f3 && Rs1(w) == rs1
            && Rs2(w) == Low5(top) && Funct7Bits(w) == High7(top) && Funct12Bits(w) == top && ImmI(w) == Extend(top, 0x800)
  {
    hide Extend;
    RawOpcode(top, rs1, f3, rd, op);
    RawRd(top, rs1, f3, rd, op);
    RawFunct3(top, rs1, f3, rd, op);
    RawRs1(top, rs1, f3, rd, op);
    RawRs2(top, rs1, f3, rd, op);
    RawFunct7(top, rs1, f3, rd, op);
    RawTop(top, rs1, f3, rd, op);
  }

  lemma OpcodesFit()
    ensures In7(0x23) && In7(0x63) && In7(0x6F) && In5(0)
  {
  }

  lemma StoreEnds(imm: bv32, rs2: bv32)
    requires In12(imm) && In5(rs2)
    ensures In12(StoreTop(imm, rs2)) && In5(Low5(imm)) && Low5(StoreTop(imm, rs2)) == rs2
    ensures With(High7(StoreTop(imm, rs2)), Low5(imm)) == imm
  {
  }

  lemma StoreImm(w: bv32)
    ensures ImmS(w) == Extend(With(Funct7Bits(w), Rd(w)), 0x800)
  {
    hide Extend;
  }

  lemma StoreFields(imm: bv32, rs2: bv32, rs1: bv32, f3: bv32)
    requires In12(imm) && In5(rs2) && In5(rs1) && In3(f3)
    ensures var w := StoreWord(imm, rs2, rs1, f3);
            OpcodeBits(w) == 0x23 && Funct3Bits(w) == f3 && Rs1(w) == rs1 && Rs2(w) == rs2 && ImmS(w) == Extend(imm, 0x800)
  {
    hide In3, In5, In7, In12, Low5, High7, With, Extend, Word, OpcodeBits, Rd, Funct3Bits, Rs1, Rs2, Funct7Bits,
      Funct12Bits, ImmI, ImmS, StoreTop;
    OpcodesFit();
    StoreEnds(imm, rs2);
    WordFields(StoreTop(imm, rs2), rs1, f3, Low5(imm), 0x23);
    StoreImm(StoreWord(imm, rs2, rs1, f3));
  }

  /** The branch immediate from the two ends of the word. */
  function Join(top: bv32, rd: bv32): (r: bv32) {
    ((top & 0x800) << 1) | ((rd & 1) << 11) | (top & 0x7E0) | (rd & 0x1E)
  }

  lemma BranchImm(w: bv32)
    ensures ImmB(w) == Extend(Join(Funct12Bits(w), Rd(w)), 0x1000)
  {
    hide Extend;
    RawBranchImm(w);
  }

  lemma RawBranchImm(w: bv32)
    ensures (((w >> 31) & 1) << 12) | (((w >> 7) & 1) << 11) | (((w >> 25) & 0x3F) << 5) | (((w >> 8) & 0xF) << 1)
         == ((((w >> 20) & 0xFFF) & 0x800) << 1) | ((((w >> 7) & 0x1F) & 1) << 11) | (((w >> 20) & 0xFFF) & 0x7E0) | (((w >> 7) & 0x1F) & 0x1E)
  {
  }

  lemma BranchEnds(imm: bv32, rs2: bv32)
    requires In13(imm) && Even(imm) && In5(rs2)
    ensures In12(BranchTop(imm, rs2)) && In5(BranchLow(imm)) && Low5(BranchTop(imm, rs2)) == rs2
  {
  }

  lemma JoinEnds(imm: bv32, rs2: bv32)
    requires In13(imm) && Even(imm) && In5(rs2)
    ensures Join(BranchTop(imm, rs2), BranchLow(imm)) == imm
  {
  }

  lemma BranchFields(imm: bv32, rs2: bv32, rs1: bv32, f3: bv32)
    requires In13(imm) && Even(imm) && In5(rs2) && In5(rs1) && In3(f3)
    ensures var w := BranchWord(imm, rs2, rs1, f3);
            OpcodeBits(w) == 0x63 && Funct3Bits(w) == f3 && Rs1(w) == rs1 && Rs2(w) == rs2 && ImmB(w) == Extend(imm, 0x1000)
  {
    hide In3, In5, In7, In12, In13, Low5, High7, Extend, Word, OpcodeBits, Funct3Bits, Rs1, Rs2, Funct12Bits, ImmI,
      ImmB, Funct7Bits, Rd, Even, Join, BranchTop, BranchLow;
    OpcodesFit();
    BranchEnds(imm, rs2);
    JoinEnds(imm, rs2);
    WordFields(BranchTop(imm, rs2), rs1, f3, BranchLow(imm), 0x63);
    BranchImm(BranchWord(imm, rs2, rs1, f3));
  }

  lemma UpperFields(imm20: bv32, rd: bv32, op: bv32)
    requires In20(imm20) && In5(rd) && In7(op)
    ensures var w := UWord(imm20, rd, op);
            OpcodeBits(w) == op && Rd(w) == rd && ImmU(w) == Up12(imm20)
  {
  }

  lemma JumpBound(imm: bv32)
    requires In21(imm)
    ensures In20(JumpBits(imm))
  {
  }

  /** The jump immediate from bits 31..12. */
  function JoinJump(u: bv32): (r: bv32) {
    (((u >> 31) & 1) << 20) | (((u >> 12) & 0xFF) << 12) | (((u >> 20) & 1) << 11) | (((u >> 21) & 0x3FF) << 1)
  }

  lemma JumpImm(w: bv32)
    ensures ImmJ(w) == Extend(JoinJump(ImmU(w)), 0x10_0000)
  {
    hide Extend;
    RawJumpImm(w);
  }

  lemma RawJumpImm(w: bv32)
    ensures (((w >> 31) & 1) << 20) | (((w >> 12) & 0xFF) << 12) | (((w >> 20) & 1) << 11) | (((w >> 21) & 0x3FF) << 1)
         == ((((w & 0xFFFF_F000) >> 31) & 1) << 20) | ((((w & 0xFFFF_F000) >> 12) & 0xFF) << 12)
          | ((((w & 0xFFFF_F000) >> 20) & 1) << 11) | ((((w & 0xFFFF_F000) >> 21) & 0x3FF) << 1)
  {
  }

  lemma JoinJumpBits(imm: bv32)
    requires In21(imm) && Even(imm)
    ensures JoinJump(Up12(JumpBits(imm))) == imm
  {
  }

  lemma JumpFields(imm: bv32, rd: bv32)
    requires In21(imm) && Even(imm) && In5(rd)
    ensures var w := JumpWord(imm, rd);
            OpcodeBits(w) == 0x6F && Rd(w) == rd && ImmJ(w) == Extend(imm, 0x10_0000)
  {
    hide In5, In7, In20, In21, Up12, Extend, UWord, OpcodeBits, Rd, Even, JumpBits, ImmU, ImmJ, JoinJump;
    OpcodesFit();
    JoinJumpBits(imm);
    JumpBound(imm);
    UpperFields(JumpBits(imm), rd, 0x6F);
    JumpImm(JumpWord(imm, rd));
  }

  // ------------------------------------------------------------ assembly language

  /** One instruction as an assembler sees it: `imm` is the 32-bit immediate, the
      CSR number, or the aq and rl bits. */
  datatype Asm = Asm(ty: InstrType, rd: bv32, rs1: bv32, rs2: bv32, imm: bv32)

  datatype Format = R | I | Shift | S | B | U | J | Csr | Amo | Fence | Bare | None

  // Which instructions have which format.

  predicate IsU(t: InstrType) { t.LUI? || t.AUIPC? }

  predicate IsI(t: InstrType) {
    t.ADDI? || t.SLTI? || t.SLTIU? || t.XORI? || t.ORI? || t.ANDI? || t.LB? || t.LH? || t.LW? || t.LBU? || t.LHU?
    || t.JALR?
  }

  predicate IsShift(t: InstrType) { t.SLLI? || t.SRLI? || t.SRAI? }

  predicate IsBase(t: InstrType) {
    t.ADD? || t.SUB? || t.SLL? || t.SLT? || t.SLTU? || t.XOR? || t.SRL? || t.SRA? || t.OR? || t.AND?
  }

  predicate IsM(t: InstrType) {
    t.MUL? || t.MULH? || t.MULHSU? || t.MULHU? || t.DIV? || t.DIVU? || t.REM? || t.REMU?
  }

  predicate IsR(t: InstrType) { IsBase(t) || IsM(t) }

  predicate IsS(t: InstrType) { t.SB? || t.SH? || t.SW? }

  predicate IsJ(t: InstrType) { t.JAL? }

  predicate IsB(t: InstrType) { t.BEQ? || t.BNE? || t.BLT? || t.BGE? || t.BLTU? || t.BGEU? }

  predicate IsBare(t: InstrType) { t.ECALL? || t.EBREAK? || t.SRET? || t.MRET? || t.WFI? || t.FENCE? || t.FENCE_I? }

  predicate IsFence(t: InstrType) { t.SFENCE_VMA? }

  predicate IsCsr(t: InstrType) { t.CSRRW? || t.CSRRS? || t.CSRRC? || t.CSRRWI? || t.CSRRSI? || t.CSRRCI? }

  predicate IsAmo(t: InstrType) {
    t.LR_W? || t.SC_W? || t.AMOSWAP_W? || t.AMOADD_W? || t.AMOXOR_W? || t.AMOAND_W? || t.AMOOR_W? || t.AMOMIN_W?
    || t.AMOMAX_W? || t.AMOMINU_W? || t.AMOMAXU_W?
  }

  function FormatOf(t: InstrType): (f: Format) {
    if IsU(t) then U
    else if IsI(t) then I
    else if IsShift(t) then Shift
    else if IsR(t) then R
    else if IsS(t) then S
    else if IsJ(t) then J
    else if IsB(t) then B
    else if IsBare(t) then Bare
    else if IsFence(t) then Fence
    else if IsCsr(t) then Csr
    else if IsAmo(t) then Amo
    else None
  }

  /** An instruction's fixed fields; `top` is funct7, funct5 for atomics, or all of
      bits 31..20 where no operand shares them. */
  datatype Codes = Codes(op: int, f3: int, top: int)

  function CodesU(t: InstrType): (c: Codes) {
    match t
    case LUI => Codes(0x37, 0, 0)
    case _ => Codes(0x17, 0, 0)
  }

  function CodesI(t: InstrType): (c: Codes) {
    match t
    case ADDI => Codes(0x13, 0, 0)
    case SLTI => Codes(0x13, 2, 0)
    case SLTIU => Codes(0x13, 3, 0)
    case XORI => Codes(0x13, 4, 0)
    case ORI => Codes(0x13, 6, 0)
    case ANDI => Codes(0x13, 7, 0)
    case LB => Codes(3, 0, 0)
    case LH => Codes(3, 1, 0)
    case LW => Codes(3, 2, 0)
    case LBU => Codes(3, 4, 0)
    case LHU => Codes(3, 5, 0)
    case _ => Codes(0x67, 0, 0)
  }

  function CodesShift(t: InstrType): (c: Codes) {
    match t
    case SLLI => Codes(0x13, 1, 0)
    case SRLI => Codes(0x13, 5, 0)
    case _ => Codes(0x13, 5, 0x20)
  }

  function CodesBase(t: InstrType): (c: Codes) {
    match t
    case ADD => Codes(0x33, 0, 0)
    case SUB => Codes(0x33, 0, 0x20)
    case SLL => Codes(0x33, 1, 0)
    case SLT => Codes(0x33, 2, 0)
    case SLTU => Codes(0x33, 3, 0)
    case XOR => Codes(0x33, 4, 0)
    case SRL => Codes(0x33, 5, 0)
    case SRA => Codes(0x33, 5, 0x20)
    case OR => Codes(0x33, 6, 0)
    case _ => Codes(0x33, 7, 0)
  }

  function CodesM(t: InstrType): (c: Codes) {
    match t
    case MUL => Codes(0x33, 0, 1)
    case MULH => Codes(0x33, 1, 1)
    case MULHSU => Codes(0x33, 2, 1)
    case MULHU => Codes(0x33, 3, 1)
    case DIV => Codes(0x33, 4, 1)
    case DIVU => Codes(0x33, 5, 1)
    case REM => Codes(0x33, 6, 1)
    case _ => Codes(0x33, 7, 1)
  }

  function CodesR(t: InstrType): (c: Codes) { if IsM(t) then CodesM(t) else CodesBase(t) }

  function CodesS(t: InstrType): (c: Codes) {
    match t
    case SB => Codes(0x23, 0, 0)
    case SH => Codes(0x23, 1, 0)
    case _ => Codes(0x23, 2, 0)
  }

  function CodesJ(t: InstrType): (c: Codes) {
    Codes(0x6F, 0, 0)
  }

  function CodesB(t: InstrType): (c: Codes) {
    match t
    case BEQ => Codes(0x63, 0, 0)
    case BNE => Codes(0x63, 1, 0)
    case BLT => Codes(0x63, 4, 0)
    case BGE => Codes(0x63, 5, 0)
    case BLTU => Codes(0x63, 6, 0)
    case _ => Codes(0x63, 7, 0)
  }

  function CodesBare(t: InstrType): (c: Codes) {
    match t
    case ECALL => Codes(0x73, 0, 0)
    case EBREAK => Codes(0x73, 0, 1)
    case SRET => Codes(0x73, 0, 0x102)
    case MRET => Codes(0x73, 0, 0x302)
    case WFI => Codes(0x73, 0, 0x105)
    case FENCE => Codes(0xF, 0, 0)
    case _ => Codes(0xF, 1, 0)
  }

  function CodesFence(t: InstrType): (c: Codes) {
    Codes(0x73, 0, 9)
  }

  function CodesCsr(t: InstrType): (c: Codes) {
    match t
    case CSRRW => Codes(0x73, 1, 0)
    case CSRRS => Codes(0x73, 2, 0)
    case CSRRC => Codes(0x73, 3, 0)
    case CSRRWI => Codes(0x73, 5, 0)
    case CSRRSI => Codes(0x73, 6, 0)
    case _ => Codes(0x73, 7, 0)
  }

  function CodesAmo(t: InstrType): (c: Codes) {
    match t
    case LR_W => Codes(0x2F, 2, 2)
    case SC_W => Codes(0x2F, 2, 3)
    case AMOSWAP_W => Codes(0x2F, 2, 1)
    case AMOADD_W => Codes(0x2F, 2, 0)
    case AMOXOR_W => Codes(0x2F, 2, 4)
    case AMOAND_W => Codes(0x2F, 2, 0xC)
    case AMOOR_W => Codes(0x2F, 2, 8)
    case AMOMIN_W => Codes(0x2F, 2, 0x10)
    case AMOMAX_W => Codes(0x2F, 2, 0x14)
    case AMOMINU_W => Codes(0x2F, 2, 0x18)
    case _ => Codes(0x2F, 2, 0x1C)
  }

  function CodesOf(t: InstrType): (c: Codes) {
    match FormatOf(t)
    case U => CodesU(t)
    case I => CodesI(t)
    case Shift => CodesShift(t)
    case R => CodesR(t)
    case S => CodesS(t)
    case J => CodesJ(t)
    case B => CodesB(t)
    case Bare => CodesBare(t)
    case Fence => CodesFence(t)
    case Csr => CodesCsr(t)
    case Amo => CodesAmo(t)
    case None => Codes(0, 0, 0)
  }

  /** How an instruction uses memory. */
  datatype Use = Use(load: bool, store: bool, atomic: bool, amo: bv8, size: bv8)

  const NO_USE := Use(false, false, false, 0, 0)

  function Atomic(n: int): (u: Use) { Use(false, false, true, AmoCode(n), 4) }

  function AmoNumberOf(t: InstrType): (n: int) {
    match t
    case LR_W => 0
    case SC_W => 1
    case AMOSWAP_W => 2
    case AMOADD_W => 3
    case AMOXOR_W => 4
    case AMOAND_W => 5
    case AMOOR_W => 6
    case AMOMIN_W => 7
    case AMOMAX_W => 8
    case AMOMINU_W => 9
    case _ => 10
  }

  predicate IsLoad(t: InstrType) { t.LB? || t.LH? || t.LW? || t.LBU? || t.LHU? }

  function LoadUse(t: InstrType): (u: Use) {
    Use(true, false, false, 0, if t.LB? || t.LBU? then 1 else if t.LH? || t.LHU? then 2 else 4)
  }

  function StoreUse(t: InstrType): (u: Use) {
    Use(false, true, false, 0, if t.SB? then 1 else if t.SH? then 2 else 4)
  }

  function UseOf(t: InstrType): (u: Use) {
    if IsAmo(t) then Atomic(AmoNumberOf(t))
    else if IsLoad(t) then LoadUse(t)
    else if IsS(t) then StoreUse(t)
    else NO_USE
  }

  /** Operands that fit their format. */
  predicate Fits(m: Asm) {
    && In5(m.rd) && In5(m.rs1) && In5(m.rs2)
    && match FormatOf(m.ty) {
      case R => true
      case I => Extend(Low12(m.imm), 0x800) == m.imm
      case Shift => In5(m.imm)
      case S => m.rd == 0 && Extend(Low12(m.imm), 0x800) == m.imm
      case B => m.rd == 0 && Even(m.imm) && Extend(Low13(m.imm), 0x1000) == m.imm
      case U => Up12(High20(m.imm)) == m.imm
      case J => Even(m.imm) && Extend(Low21(m.imm), 0x10_0000) == m.imm
      case Csr => In12(m.imm)
      case Amo => In2(m.imm)
      case Fence | Bare => m.rd == 0
      case None => false
    }
  }

  /** The numbers that occur as fixed fields, as bits. */
  function Bits(n: int): (v: bv32) { if 0 <= n < 0x1000 then n as bv32 else 0 }

  function WordOf(m: Asm): (w: bv32) {
    var c := CodesOf(m.ty);
    var f3, op, top := Bits(c.f3), Bits(c.op), Bits(c.top);
    match FormatOf(m.ty)
    case R | Fence => Word(With(top, m.rs2), m.rs1, f3, m.rd, op)
    case I => Word(Low12(m.imm), m.rs1, f3, m.rd, op)
    case Shift => Word(With(top, m.imm), m.rs1, f3, m.rd, op)
    case S => StoreWord(Low12(m.imm), m.rs2, m.rs1, f3)
    case B => BranchWord(Low13(m.imm), m.rs2, m.rs1, f3)
    case U => UWord(High20(m.imm), m.rd, op)
    case J => JumpWord(Low21(m.imm), m.rd)
    case Csr => Word(m.imm, m.rs1, f3, m.rd, op)
    case Amo => Word(With(AmoTop(top, m.imm), m.rs2), m.rs1, f3, m.rd, op)
    case Bare => Word(top, 0, f3, 0, op)
    case None => 0
  }

  // ---------------------------------------------- a record means an instruction

  predicate UsesRs1(t: InstrType) { !FormatOf(t).U? && !FormatOf(t).J? && !FormatOf(t).Bare? }
  predicate UsesRs2(t: InstrType) { FormatOf(t).R? || FormatOf(t).Fence? || FormatOf(t).S? || FormatOf(t).B? || FormatOf(t).Amo? }

  function Target(i: Instr): (r: Reg) { if i.writesRd then i.rd else 0 }

  predicate SameImm(t: InstrType, got: bv32, imm: bv32) {
    match FormatOf(t)
    case I | S | B | U | J => got == imm
    case Shift => Low5(got) == Low5(imm)
    case _ => true
  }

  /** The record carries everything the execute stage needs of the instruction. */
  predicate Means(i: Instr, m: Asm) {
    && i.ty == m.ty && !i.onTrap
    && Target(i) == RegOf(m.rd)
    && (UsesRs1(m.ty) ==> i.rs1 == RegOf(m.rs1))
    && (UsesRs2(m.ty) ==> i.rs2 == RegOf(m.rs2))
    && SameImm(m.ty, i.imm, m.imm)
    && (FormatOf(m.ty).Csr? ==> i.csrAddr == CsrNumber(m.imm))
    && UseIn(i) == UseOf(m.ty)
  }

  function UseIn(i: Instr): (u: Use) { Use(i.isLoad, i.isStore, i.isAtomic, i.amoOp, i.memSize) }

  // ------------------------------------------------------------- the round trip

  lemma WithParts(f7: bv32, low: bv32)
    requires In7(f7) && In5(low)
    ensures In12(With(f7, low)) && Low5(With(f7, low)) == low && High7(With(f7, low)) == f7
  {
  }

  lemma Widths(v: bv32)
    ensures In12(Low12(v)) && In13(Low13(v)) && In21(Low21(v)) && In20(High20(v))
  {
  }

  lemma EvenLow(v: bv32)
    requires Even(v)
    ensures Even(Low13(v)) && Even(Low21(v))
  {
  }

  lemma Zero()
    ensures RegOf(0) == 0 && In5(0)
  {
  }

  // Fixed fields as numbers and as bits.

  predicate KnownOpcode(n: int) {
    n == 3 || n == 0xF || n == 0x13 || n == 0x17 || n == 0x23 || n == 0x2F || n == 0x33 || n == 0x37
    || n == 0x63 || n == 0x67 || n == 0x6F || n == 0x73
  }

  predicate KnownFunct5(n: int) {
    n == 0 || n == 1 || n == 2 || n == 3 || n == 4 || n == 8 || n == 0xC || n == 0x10 || n == 0x14 || n == 0x18 || n == 0x1C
  }

  lemma FixedLiterals()
    ensures Number(0) == 0 && Number(1) == 1 && Number(2) == 2 && Number(3) == 3
    ensures Number(4) == 4 && Number(5) == 5 && Number(6) == 6 && Number(7) == 7
    ensures Number(8) == 8 && Number(9) == 9 && Number(0xC) == 0xC && Number(0xF) == 0xF
    ensures Number(0x10) == 0x10 && Number(0x13) == 0x13 && Number(0x14) == 0x14 && Number(0x17) == 0x17
    ensures Number(0x18) == 0x18 && Number(0x1C) == 0x1C && Number(0x20) == 0x20 && Number(0x23) == 0x23
    ensures Number(0x2F) == 0x2F && Number(0x33) == 0x33 && Number(0x37) == 0x37 && Number(0x63) == 0x63
    ensures Number(0x67) == 0x67 && Number(0x6F) == 0x6F && Number(0x73) == 0x73 && Number(0x102) == 0x102
    ensures Number(0x105) == 0x105 && Number(0x302) == 0x302
  {
  }

  lemma FixedWords()
    ensures Bits(0) == 0 && Bits(1) == 1 && Bits(2) == 2 && Bits(3) == 3
    ensures Bits(4) == 4 && Bits(5) == 5 && Bits(6) == 6 && Bits(7) == 7
    ensures Bits(8) == 8 && Bits(9) == 9 && Bits(0xC) == 0xC && Bits(0xF) == 0xF
    ensures Bits(0x10) == 0x10 && Bits(0x13) == 0x13 && Bits(0x14) == 0x14 && Bits(0x17) == 0x17
    ensures Bits(0x18) == 0x18 && Bits(0x1C) == 0x1C && Bits(0x20) == 0x20 && Bits(0x23) == 0x23
    ensures Bits(0x2F) == 0x2F && Bits(0x33) == 0x33 && Bits(0x37) == 0x37 && Bits(0x63) == 0x63
    ensures Bits(0x67) == 0x67 && Bits(0x6F) == 0x6F && Bits(0x73) == 0x73 && Bits(0x102) == 0x102
    ensures Bits(0x105) == 0x105 && Bits(0x302) == 0x302
  {
  }

  lemma FixedNumbers()
    ensures Number(Bits(0)) == 0 && Number(Bits(1)) == 1 && Number(Bits(2)) == 2 && Number(Bits(3)) == 3
    ensures Number(Bits(4)) == 4 && Number(Bits(5)) == 5 && Number(Bits(6)) == 6 && Number(Bits(7)) == 7
    ensures Number(Bits(8)) == 8 && Number(Bits(9)) == 9 && Number(Bits(0xC)) == 0xC && Number(Bits(0xF)) == 0xF
    ensures Number(Bits(0x10)) == 0x10 && Number(Bits(0x13)) == 0x13 && Number(Bits(0x14)) == 0x14 && Number(Bits(0x17)) == 0x17
    ensures Number(Bits(0x18)) == 0x18 && Number(Bits(0x1C)) == 0x1C && Number(Bits(0x20)) == 0x20 && Number(Bits(0x23)) == 0x23
    ensures Number(Bits(0x2F)) == 0x2F && Number(Bits(0x33)) == 0x33 && Number(Bits(0x37)) == 0x37 && Number(Bits(0x63)) == 0x63
    ensures Number(Bits(0x67)) == 0x67 && Number(Bits(0x6F)) == 0x6F && Number(Bits(0x73)) == 0x73 && Number(Bits(0x102)) == 0x102
    ensures Number(Bits(0x105)) == 0x105 && Number(Bits(0x302)) == 0x302
  {
    hide Bits, Number;
    FixedLiterals();
    FixedWords();
  }

  lemma Funct3Widths()
    ensures In3(Bits(0)) && In3(Bits(1)) && In3(Bits(2)) && In3(Bits(3))
    ensures In3(Bits(4)) && In3(Bits(5)) && In3(Bits(6)) && In3(Bits(7))
  {
  }

  lemma Funct3Numbers()
    ensures Number(Bits(0)) == 0 && Number(Bits(1)) == 1 && Number(Bits(2)) == 2 && Number(Bits(3)) == 3
    ensures Number(Bits(4)) == 4 && Number(Bits(5)) == 5 && Number(Bits(6)) == 6 && Number(Bits(7)) == 7
  {
    hide Bits, Number;
    FixedNumbers();
  }

  lemma Funct3Back(n: int)
    requires n == 0 || n == 1 || n == 2 || n == 3 || n == 4 || n == 5 || n == 6 || n == 7
    ensures Number(Bits(n)) == n && In3(Bits(n))
  {
    hide Number, Bits, In3;
    Funct3Numbers();
    Funct3Widths();
  }

  lemma Funct7Widths()
    ensures In7(Bits(0)) && In7(Bits(1)) && In7(Bits(9)) && In7(Bits(0x20))
  {
  }

  lemma Funct7Numbers()
    ensures Number(Bits(0)) == 0 && Number(Bits(1)) == 1 && Number(Bits(9)) == 9 && Number(Bits(0x20)) == 0x20
  {
    hide Bits, Number;
    FixedNumbers();
  }

  lemma Funct7Back(n: int)
    requires n == 0 || n == 1 || n == 9 || n == 0x20
    ensures Number(Bits(n)) == n && In7(Bits(n))
  {
    hide Number, Bits, In7;
    Funct7Numbers();
    Funct7Widths();
  }

  lemma Funct5Widths()
    ensures In5(Bits(0)) && In5(Bits(1)) && In5(Bits(2)) && In5(Bits(3))
    ensures In5(Bits(4)) && In5(Bits(8)) && In5(Bits(0xC)) && In5(Bits(0x10))
    ensures In5(Bits(0x14)) && In5(Bits(0x18)) && In5(Bits(0x1C))
  {
  }

  lemma Funct5Numbers()
    ensures Number(Bits(0)) == 0 && Number(Bits(1)) == 1 && Number(Bits(2)) == 2 && Number(Bits(3)) == 3
    ensures Number(Bits(4)) == 4 && Number(Bits(8)) == 8 && Number(Bits(0xC)) == 0xC && Number(Bits(0x10)) == 0x10
    ensures Number(Bits(0x14)) == 0x14 && Number(Bits(0x18)) == 0x18 && Number(Bits(0x1C)) == 0x1C
  {
    hide Bits, Number;
    FixedNumbers();
  }

  lemma Funct5Back(n: int)
    requires KnownFunct5(n)
    ensures Number(Bits(n)) == n && In5(Bits(n))
  {
    hide Number, Bits, In5;
    Funct5Numbers();
    Funct5Widths();
  }

  lemma OpcodeWidths()
    ensures In7(Bits(3)) && In7(Bits(0xF)) && In7(Bits(0x13)) && In7(Bits(0x17))
    ensures In7(Bits(0x23)) && In7(Bits(0x2F)) && In7(Bits(0x33)) && In7(Bits(0x37))
    ensures In7(Bits(0x63)) && In7(Bits(0x67)) && In7(Bits(0x6F)) && In7(Bits(0x73))
  {
  }

  lemma OpcodeNumbers()
    ensures Number(Bits(3)) == 3 && Number(Bits(0xF)) == 0xF && Number(Bits(0x13)) == 0x13 && Number(Bits(0x17)) == 0x17
    ensures Number(Bits(0x23)) == 0x23 && Number(Bits(0x2F)) == 0x2F && Number(Bits(0x33)) == 0x33 && Number(Bits(0x37)) == 0x37
    ensures Number(Bits(0x63)) == 0x63 && Number(Bits(0x67)) == 0x67 && Number(Bits(0x6F)) == 0x6F && Number(Bits(0x73)) == 0x73
  {
    hide Bits, Number;
    FixedNumbers();
  }

  lemma OpcodeBack(n: int)
    requires KnownOpcode(n)
    ensures Number(Bits(n)) == n && In7(Bits(n))
  {
    hide Number, Bits, In7;
    OpcodeNumbers();
    OpcodeWidths();
  }

  lemma Funct12Widths()
    ensures In12(Bits(0)) && In12(Bits(1)) && In12(Bits(0x102)) && In12(Bits(0x105))
    ensures In12(Bits(0x302))
  {
  }

  lemma Funct12Numbers()
    ensures Number(Bits(0)) == 0 && Number(Bits(1)) == 1 && Number(Bits(0x102)) == 0x102 && Number(Bits(0x105)) == 0x105
    ensures Number(Bits(0x302)) == 0x302
  {
    hide Bits, Number;
    FixedNumbers();
  }

  lemma Funct12Back(n: int)
    requires n == 0 || n == 1 || n == 0x102 || n == 0x105 || n == 0x302
    ensures Number(Bits(n)) == n && In12(Bits(n))
  {
    hide Number, Bits, In12;
    Funct12Numbers();
    Funct12Widths();
  }

  // The table, format by format.

  lemma TableU(t: InstrType)
    requires FormatOf(t) == U
    ensures IsU(t) && CodesOf(t) == CodesU(t)
    ensures var c := CodesOf(t);
            (c.op == 0x37 || c.op == 0x17) && 0 <= c.f3 < 8
  {
    hide IsU, IsI, IsShift, IsR, IsS, IsJ, IsB, IsBare, IsFence, IsCsr, IsAmo, CodesI, CodesShift, CodesR, CodesS, CodesJ,
      CodesB, CodesBare, CodesFence, CodesCsr, CodesAmo;
  }

  lemma TableI(t: InstrType)
    requires FormatOf(t) == I
    ensures IsI(t) && CodesOf(t) == CodesI(t)
    ensures var c := CodesOf(t);
            (c.op == 0x13 || c.op == 0x03 || c.op == 0x67) && 0 <= c.f3 < 8
  {
    hide IsU, IsI, IsShift, IsR, IsS, IsJ, IsB, IsBare, IsFence, IsCsr, IsAmo, CodesU, CodesShift, CodesR, CodesS, CodesJ,
      CodesB, CodesBare, CodesFence, CodesCsr, CodesAmo;
  }

  lemma TableShift(t: InstrType)
    requires FormatOf(t) == Shift
    ensures IsShift(t) && CodesOf(t) == CodesShift(t)
    ensures var c := CodesOf(t);
            c.op == 0x13 && 0 <= c.f3 < 8 && (c.top == 0 || c.top == 0x20)
  {
    hide IsU, IsI, IsShift, IsR, IsS, IsJ, IsB, IsBare, IsFence, IsCsr, IsAmo, CodesU, CodesI, CodesR, CodesS, CodesJ,
      CodesB, CodesBare, CodesFence, CodesCsr, CodesAmo;
  }

  lemma TableBase(t: InstrType)
    ensures var c := CodesBase(t); c.op == 0x33 && 0 <= c.f3 < 8 && (c.top == 0 || c.top == 0x20)
  {
  }

  lemma TableM(t: InstrType)
    ensures var c := CodesM(t); c.op == 0x33 && 0 <= c.f3 < 8 && c.top == 1
  {
  }

  lemma TableR(t: InstrType)
    requires FormatOf(t) == R
    ensures IsR(t) && CodesOf(t) == CodesR(t)
    ensures var c := CodesOf(t);
            c.op == 0x33 && 0 <= c.f3 < 8 && (c.top == 0 || c.top == 1 || c.top == 0x20)
  {
    hide IsU, IsI, IsShift, IsR, IsS, IsJ, IsB, IsBare, IsFence, IsCsr, IsAmo, CodesU, CodesI, CodesShift, CodesS, CodesJ,
      CodesB, CodesBare, CodesFence, CodesCsr, CodesAmo, IsBase, IsM, CodesBase, CodesM;
    TableBase(t);
    TableM(t);
  }

  lemma TableS(t: InstrType)
    requires FormatOf(t) == S
    ensures IsS(t) && CodesOf(t) == CodesS(t)
    ensures var c := CodesOf(t);
            c.op == 0x23 && 0 <= c.f3 < 8
  {
    hide IsU, IsI, IsShift, IsR, IsS, IsJ, IsB, IsBare, IsFence, IsCsr, IsAmo, CodesU, CodesI, CodesShift, CodesR, CodesJ,
      CodesB, CodesBare, CodesFence, CodesCsr, CodesAmo;
  }

  lemma TableJ(t: InstrType)
    requires FormatOf(t) == J
    ensures IsJ(t) && CodesOf(t) == CodesJ(t)
    ensures var c := CodesOf(t);
            c.op == 0x6F && 0 <= c.f3 < 8
  {
    hide IsU, IsI, IsShift, IsR, IsS, IsJ, IsB, IsBare, IsFence, IsCsr, IsAmo, CodesU, CodesI, CodesShift, CodesR, CodesS,
      CodesB, CodesBare, CodesFence, CodesCsr, CodesAmo;
  }

  lemma TableB(t: InstrType)
    requires FormatOf(t) == B
    ensures IsB(t) && CodesOf(t) == CodesB(t)
    ensures var c := CodesOf(t);
            c.op == 0x63 && 0 <= c.f3 < 8
  {
    hide IsU, IsI, IsShift, IsR, IsS, IsJ, IsB, IsBare, IsFence, IsCsr, IsAmo, CodesU, CodesI, CodesShift, CodesR, CodesS,
      CodesJ, CodesBare, CodesFence, CodesCsr, CodesAmo;
  }

  lemma TableBare(t: InstrType)
    requires FormatOf(t) == Bare
    ensures IsBare(t) && CodesOf(t) == CodesBare(t)
    ensures var c := CodesOf(t);
            (c.op == 0x73 || c.op == 0x0F) && 0 <= c.f3 < 8
            && (c.top == 0 || c.top == 1 || c.top == 0x102 || c.top == 0x105 || c.top == 0x302)
  {
    hide IsU, IsI, IsShift, IsR, IsS, IsJ, IsB, IsBare, IsFence, IsCsr, IsAmo, CodesU, CodesI, CodesShift, CodesR, CodesS,
      CodesJ, CodesB, CodesFence, CodesCsr, CodesAmo;
  }

  lemma TableFence(t: InstrType)
    requires FormatOf(t) == Fence
    ensures IsFence(t) && CodesOf(t) == CodesFence(t)
    ensures var c := CodesOf(t);
            c.op == 0x73 && 0 <= c.f3 < 8 && (c.top == 9)
  {
    hide IsU, IsI, IsShift, IsR, IsS, IsJ, IsB, IsBare, IsFence, IsCsr, IsAmo, CodesU, CodesI, CodesShift, CodesR, CodesS,
      CodesJ, CodesB, CodesBare, CodesCsr, CodesAmo;
  }

  lemma TableCsr(t: InstrType)
    requires FormatOf(t) == Csr
    ensures IsCsr(t) && CodesOf(t) == CodesCsr(t)
    ensures var c := CodesOf(t);
            c.op == 0x73 && 0 <= c.f3 < 8
  {
    hide IsU, IsI, IsShift, IsR, IsS, IsJ, IsB, IsBare, IsFence, IsCsr, IsAmo, CodesU, CodesI, CodesShift, CodesR, CodesS,
      CodesJ, CodesB, CodesBare, CodesFence, CodesAmo;
  }

  lemma TableAmo(t: InstrType)
    requires FormatOf(t) == Amo
    ensures IsAmo(t) && CodesOf(t) == CodesAmo(t)
    ensures var c := CodesOf(t);
            c.op == 0x2F && 0 <= c.f3 < 8
            && KnownFunct5(c.top)
  {
    hide IsU, IsI, IsShift, IsR, IsS, IsJ, IsB, IsBare, IsFence, IsCsr, IsAmo, CodesU, CodesI, CodesShift, CodesR, CodesS,
      CodesJ, CodesB, CodesBare, CodesFence, CodesCsr;
  }

  // Where each opcode leads.

  lemma RegRecord(w: bv32)
    ensures Opcode(w) == 0x33 ==> Decode32(w) == Simple(w, AluType(w), Writes(w), 0)
  {
    hide Opcode, Simple, Writes, DecodeLoad, DecodeStore, DecodeSystem, DecodeAtomic, AluType, AluImmType, LoadType,
      StoreType, BranchType, SystemType, FenceType, AtomicName, Funct3, ImmI, ImmB, ImmU, ImmJ;
  }

  lemma ImmRecord(w: bv32)
    ensures Opcode(w) == 0x13 ==> Decode32(w) == Simple(w, AluImmType(w), Writes(w), ImmI(w))
  {
    hide Opcode, Simple, Writes, DecodeLoad, DecodeStore, DecodeSystem, DecodeAtomic, AluType, AluImmType, LoadType,
      StoreType, BranchType, SystemType, FenceType, AtomicName, Funct3, ImmI, ImmB, ImmU, ImmJ;
  }

  lemma LoadRecord(w: bv32)
    ensures Opcode(w) == 0x03 ==> Decode32(w) == DecodeLoad(w, LoadType(Funct3(w)))
  {
    hide Opcode, Simple, Writes, DecodeLoad, DecodeStore, DecodeSystem, DecodeAtomic, AluType, AluImmType, LoadType,
      StoreType, BranchType, SystemType, FenceType, AtomicName, Funct3, ImmI, ImmB, ImmU, ImmJ;
  }

  lemma JalrRecord(w: bv32)
    ensures Opcode(w) == 0x67 ==> Decode32(w) == Simple(w, JALR, Writes(w), ImmI(w))
  {
    hide Opcode, Simple, Writes, DecodeLoad, DecodeStore, DecodeSystem, DecodeAtomic, AluType, AluImmType, LoadType,
      StoreType, BranchType, SystemType, FenceType, AtomicName, Funct3, ImmI, ImmB, ImmU, ImmJ;
  }

  lemma StoreRecord(w: bv32)
    ensures Opcode(w) == 0x23 ==> Decode32(w) == DecodeStore(w, StoreType(Funct3(w)))
  {
    hide Opcode, Simple, Writes, DecodeLoad, DecodeStore, DecodeSystem, DecodeAtomic, AluType, AluImmType, LoadType,
      StoreType, BranchType, SystemType, FenceType, AtomicName, Funct3, ImmI, ImmB, ImmU, ImmJ;
  }

  lemma BranchRecord(w: bv32)
    ensures Opcode(w) == 0x63 ==> Decode32(w) == Simple(w, BranchType(Funct3(w)), false, ImmB(w))
  {
    hide Opcode, Simple, Writes, DecodeLoad, DecodeStore, DecodeSystem, DecodeAtomic, AluType, AluImmType, LoadType,
      StoreType, BranchType, SystemType, FenceType, AtomicName, Funct3, ImmI, ImmB, ImmU, ImmJ;
  }

  lemma UpperRecord(w: bv32)
    ensures Opcode(w) == 0x37 ==> Decode32(w) == Simple(w, LUI, Writes(w), ImmU(w))
    ensures Opcode(w) == 0x17 ==> Decode32(w) == Simple(w, AUIPC, Writes(w), ImmU(w))
  {
    hide Opcode, Simple, Writes, DecodeLoad, DecodeStore, DecodeSystem, DecodeAtomic, AluType, AluImmType, LoadType,
      StoreType, BranchType, SystemType, FenceType, AtomicName, Funct3, ImmI, ImmB, ImmU, ImmJ;
  }

  lemma JumpRecord(w: bv32)
    ensures Opcode(w) == 0x6F ==> Decode32(w) == Simple(w, JAL, Writes(w), ImmJ(w))
  {
    hide Opcode, Simple, Writes, DecodeLoad, DecodeStore, DecodeSystem, DecodeAtomic, AluType, AluImmType, LoadType,
      StoreType, BranchType, SystemType, FenceType, AtomicName, Funct3, ImmI, ImmB, ImmU, ImmJ;
  }

  lemma SystemRecord(w: bv32)
    ensures Opcode(w) == 0x73 ==> Decode32(w) == DecodeSystem(w, SystemType(w))
  {
    hide Opcode, Simple, Writes, DecodeLoad, DecodeStore, DecodeSystem, DecodeAtomic, AluType, AluImmType, LoadType,
      StoreType, BranchType, SystemType, FenceType, AtomicName, Funct3, ImmI, ImmB, ImmU, ImmJ;
  }

  lemma FenceRecord(w: bv32)
    ensures Opcode(w) == 0x0F ==> Decode32(w) == Simple(w, FenceType(Funct3(w)), false, 0)
  {
    hide Opcode, Simple, Writes, DecodeLoad, DecodeStore, DecodeSystem, DecodeAtomic, AluType, AluImmType, LoadType,
      StoreType, BranchType, SystemType, FenceType, AtomicName, Funct3, ImmI, ImmB, ImmU, ImmJ;
  }

  lemma AmoRecord(w: bv32)
    ensures Opcode(w) == 0x2F ==> Decode32(w) == DecodeAtomic(w, if Funct3(w) != 2 then 32 else Funct5(w))
  {
    hide Opcode, Simple, Writes, DecodeLoad, DecodeStore, DecodeSystem, DecodeAtomic, AluType, AluImmType, LoadType,
      StoreType, BranchType, SystemType, FenceType, AtomicName, Funct3, ImmI, ImmB, ImmU, ImmJ;
  }

  /** A word that writes no register names x0. */
  lemma WritesTarget(w: bv32)
    ensures !Writes(w) ==> RegOf(Rd(w)) == 0
  {
    hide Rd;
    Zero();
  }

  /** The parts of `Means`. */
  lemma Assemble(i: Instr, m: Asm)
    requires i.ty == m.ty && !i.onTrap && Target(i) == RegOf(m.rd)
    requires UsesRs1(m.ty) ==> i.rs1 == RegOf(m.rs1)
    requires UsesRs2(m.ty) ==> i.rs2 == RegOf(m.rs2)
    requires SameImm(m.ty, i.imm, m.imm) && (FormatOf(m.ty).Csr? ==> i.csrAddr == CsrNumber(m.imm))
    requires UseIn(i) == UseOf(m.ty)
    ensures Means(i, m)
  {
  }

  // Each format: the fields of the encoding, then the record.

  lemma FieldsR(m: Asm)
    requires Fits(m) && FormatOf(m.ty) == R
    ensures var w, c := WordOf(m), CodesOf(m.ty);
            Opcode(w) == c.op && Funct3(w) == c.f3 && Funct7(w) == c.top && Rd(w) == m.rd && Rs1(w) == m.rs1 && Rs2(w) == m.rs2
  {
    hide In2, In3, In5, In7, In12, In13, In20, In21, Even, Low5, High7, With, Low12, Low13, Low21, High20, Up12,
      Drop2, AmoTop, Word, UWord, StoreWord, BranchWord, JumpWord, OpcodeBits, Rd, Funct3Bits, Rs1, Rs2, Funct7Bits,
      Funct12Bits, ImmI, ImmS, ImmB, ImmU, ImmJ, Extend, CodesOf, FormatOf, Bits, Number;
    var c := CodesOf(m.ty);
    TableR(m.ty);
    OpcodeBack(c.op);
    Funct3Back(c.f3);
    Funct7Back(c.top);
    WithParts(Bits(c.top), m.rs2);
    WordFields(With(Bits(c.top), m.rs2), m.rs1, Bits(c.f3), m.rd, Bits(c.op));
  }

  lemma MulTypeIs(w: bv32, t: InstrType)
    requires IsM(t) && Funct3(w) == CodesM(t).f3 && Funct7(w) == CodesM(t).top
    ensures AluType(w) == t
  {
    hide Funct3, Funct7;
  }

  lemma BaseTypeIs(w: bv32, t: InstrType)
    requires IsBase(t) && Funct3(w) == CodesBase(t).f3 && Funct7(w) == CodesBase(t).top
    ensures AluType(w) == t
  {
    hide Funct3, Funct7;
  }

  lemma AluTypeIs(w: bv32, t: InstrType)
    requires IsR(t) && Funct3(w) == CodesR(t).f3 && Funct7(w) == CodesR(t).top
    ensures AluType(w) == t
  {
    hide Funct3, Funct7, IsM, IsBase, AluType, CodesM, CodesBase;
    if IsM(t) { MulTypeIs(w, t); } else { BaseTypeIs(w, t); }
  }

  lemma UseBase(t: InstrType)
    requires IsBase(t)
    ensures UseOf(t) == NO_USE
  {
    hide Atomic, AmoNumberOf, LoadUse, StoreUse;
  }

  lemma UseM(t: InstrType)
    requires IsM(t)
    ensures UseOf(t) == NO_USE
  {
    hide Atomic, AmoNumberOf, LoadUse, StoreUse;
  }

  lemma UseR(t: InstrType)
    requires IsR(t)
    ensures UseOf(t) == NO_USE
  {
    hide UseOf, IsBase, IsM;
    if IsM(t) { UseM(t); } else { UseBase(t); }
  }

  lemma RoundTripR(m: Asm)
    requires Fits(m) && FormatOf(m.ty) == R
    ensures Means(Decode32(WordOf(m)), m)
  {
    hide Means, Fits, WordOf, Decode32, FormatOf, Opcode, Rd, Funct3, Rs1, Rs2, Funct7, Funct12Bits, RegOf, CsrNumber,
      CodesOf, UseOf, Low5, KindOf, Writes, CodesR, IsR, IsBase, IsM, AluType;
    FieldsR(m);
    TableR(m.ty);
    WritesTarget(WordOf(m));
    RegRecord(WordOf(m));
    AluTypeIs(WordOf(m), m.ty);
    UseR(m.ty);
    var w, i := WordOf(m), Decode32(WordOf(m));
    assert i == Simple(w, m.ty, Writes(w), 0);
    assert Target(i) == RegOf(m.rd);
    assert UseIn(i) == UseOf(m.ty);
    assert SameImm(m.ty, i.imm, m.imm);
    Assemble(i, m);
  }

  lemma ShiftImm(f7: bv32, n: bv32)
    requires In7(f7) && In5(n)
    ensures Low5(Extend(With(f7, n), 0x800)) == Low5(n) && In5(Extend(With(0, n), 0x800))
  {
  }

  lemma ZeroBits()
    ensures Bits(0) == 0
  {
  }

  lemma FieldsShift(m: Asm)
    requires Fits(m) && FormatOf(m.ty) == Shift
    ensures var w, c := WordOf(m), CodesOf(m.ty);
            && Opcode(w) == c.op && Funct3(w) == c.f3 && Funct7(w) == c.top && Rd(w) == m.rd && Rs1(w) == m.rs1
            && Low5(ImmI(w)) == Low5(m.imm) && (c.top == 0 ==> In5(ImmI(w)))
  {
    hide In2, In3, In5, In7, In12, In13, In20, In21, Even, Low5, High7, With, Low12, Low13, Low21, High20, Up12,
      Drop2, AmoTop, Word, UWord, StoreWord, BranchWord, JumpWord, OpcodeBits, Rd, Funct3Bits, Rs1, Rs2, Funct7Bits,
      Funct12Bits, ImmI, ImmS, ImmB, ImmU, ImmJ, Extend, CodesOf, FormatOf, Bits, Number;
    var c := CodesOf(m.ty);
    TableShift(m.ty);
    OpcodeBack(c.op);
    Funct3Back(c.f3);
    Funct7Back(c.top);
    ZeroBits();
    WithParts(Bits(c.top), m.imm);
    ShiftImm(Bits(c.top), m.imm);
    WordFields(With(Bits(c.top), m.imm), m.rs1, Bits(c.f3), m.rd, Bits(c.op));
  }

  lemma ShiftTypeIs(w: bv32, t: InstrType)
    requires IsShift(t) && Funct3(w) == CodesShift(t).f3 && Funct7(w) == CodesShift(t).top
    requires CodesShift(t).top == 0 ==> In5(ImmI(w))
    ensures AluImmType(w) == t
  {
    hide Funct3, Funct7, ImmI;
  }

  lemma UseShift(t: InstrType)
    requires IsShift(t)
    ensures UseOf(t) == NO_USE
  {
    hide Atomic, AmoNumberOf, LoadUse, StoreUse;
  }

  lemma RecordShift(w: bv32, t: InstrType)
    requires IsShift(t) && Opcode(w) == 0x13 && Funct3(w) == CodesShift(t).f3 && Funct7(w) == CodesShift(t).top
    requires CodesShift(t).top == 0 ==> In5(ImmI(w))
    ensures Decode32(w) == Simple(w, t, Writes(w), ImmI(w)) && UseOf(t) == UseIn(Decode32(w))
  {
    hide Decode32, Opcode, Funct3, Funct7, IsShift, CodesShift, AluImmType, UseOf, Writes, ImmI, In5;
    ShiftTypeIs(w, t);
    UseShift(t);
    ImmRecord(w);
  }

  lemma RoundTripShift(m: Asm)
    requires Fits(m) && FormatOf(m.ty) == Shift
    ensures Means(Decode32(WordOf(m)), m)
  {
    hide Means, Fits, WordOf, Decode32, FormatOf, Opcode, Rd, Funct3, Rs1, Rs2, Funct7, Funct12Bits, RegOf, CsrNumber,
      CodesOf, UseOf, Low5, KindOf, Writes, CodesShift, IsShift, ImmI, In5, AluImmType;
    FieldsShift(m);
    TableShift(m.ty);
    WritesTarget(WordOf(m));
    RecordShift(WordOf(m), m.ty);
    var w, i := WordOf(m), Decode32(WordOf(m));
    assert i == Simple(w, m.ty, Writes(w), ImmI(w));
    assert Target(i) == RegOf(m.rd);
    assert SameImm(m.ty, i.imm, m.imm);
    Assemble(i, m);
  }

  lemma FieldsI(m: Asm)
    requires Fits(m) && FormatOf(m.ty) == I
    ensures var w, c := WordOf(m), CodesOf(m.ty);
            Opcode(w) == c.op && Funct3(w) == c.f3 && Rd(w) == m.rd && Rs1(w) == m.rs1 && ImmI(w) == m.imm
  {
    hide In2, In3, In5, In7, In12, In13, In20, In21, Even, Low5, High7, With, Low12, Low13, Low21, High20, Up12,
      Drop2, AmoTop, Word, UWord, StoreWord, BranchWord, JumpWord, OpcodeBits, Rd, Funct3Bits, Rs1, Rs2, Funct7Bits,
      Funct12Bits, ImmI, ImmS, ImmB, ImmU, ImmJ, Extend, CodesOf, FormatOf, Bits, Number;
    var c := CodesOf(m.ty);
    TableI(m.ty);
    OpcodeBack(c.op);
    Funct3Back(c.f3);
    Widths(m.imm);
    WordFields(Low12(m.imm), m.rs1, Bits(c.f3), m.rd, Bits(c.op));
  }

  lemma LoadTypeIs(t: InstrType)
    requires IsI(t) && CodesI(t).op == 0x03
    ensures LoadType(CodesI(t).f3) == t && UseOf(t) == Use(true, false, false, 0, SizeOfType(t))
  {
  }

  lemma AluImmTypeIs(w: bv32, t: InstrType)
    requires IsI(t) && CodesI(t).op == 0x13 && Funct3(w) == CodesI(t).f3
    ensures AluImmType(w) == t && UseOf(t) == NO_USE
  {
    hide Funct3, Funct7, ImmI;
  }

  lemma JalrTypeIs(t: InstrType)
    requires IsI(t) && CodesI(t).op == 0x67
    ensures t == JALR && UseOf(t) == NO_USE
  {
  }

  lemma RecordI(w: bv32, t: InstrType)
    requires IsI(t) && Opcode(w) == CodesI(t).op && Funct3(w) == CodesI(t).f3
    ensures Decode32(w) == if Opcode(w) == 0x03 then DecodeLoad(w, t) else Simple(w, t, Writes(w), ImmI(w))
    ensures UseOf(t) == UseIn(Decode32(w))
  {
    hide Decode32, Opcode, Funct3, IsI, CodesI, ImmI, AluImmType, LoadType, SizeOfType, UseOf, Writes;
    OpcodesI(t);
    if Opcode(w) == 0x03 {
      LoadRecord(w);
      LoadTypeIs(t);
    } else if Opcode(w) == 0x13 {
      ImmRecord(w);
      AluImmTypeIs(w, t);
    } else {
      JalrRecord(w);
      JalrTypeIs(t);
    }
  }

  lemma OpcodesI(t: InstrType)
    ensures CodesI(t).op == 0x03 || CodesI(t).op == 0x13 || CodesI(t).op == 0x67
  {
  }

  lemma RoundTripI(m: Asm)
    requires Fits(m) && FormatOf(m.ty) == I
    ensures Means(Decode32(WordOf(m)), m)
  {
    hide Means, Fits, WordOf, Decode32, FormatOf, Opcode, Rd, Funct3, Rs1, Rs2, Funct7, Funct12Bits, RegOf, CsrNumber,
      CodesOf, UseOf, Low5, KindOf, Writes, CodesI, IsI, ImmI, AluImmType, LoadType, SizeOfType;
    FieldsI(m);
    TableI(m.ty);
    WritesTarget(WordOf(m));
    RecordI(WordOf(m), m.ty);
    var w, i := WordOf(m), Decode32(WordOf(m));
    assert i == if CodesI(m.ty).op == 0x03 then DecodeLoad(w, m.ty) else Simple(w, m.ty, Writes(w), ImmI(w));
    assert Target(i) == RegOf(m.rd);
    assert SameImm(m.ty, i.imm, m.imm);
    Assemble(i, m);
  }

  lemma OpcodeNumber(w: bv32, op: bv32)
    requires OpcodeBits(w) == op
    ensures op == 0x23 ==> Opcode(w) == 0x23
    ensures op == 0x63 ==> Opcode(w) == 0x63
    ensures op == 0x6F ==> Opcode(w) == 0x6F
  {
    hide OpcodeBits;
  }

  lemma FieldsS(m: Asm)
    requires Fits(m) && FormatOf(m.ty) == S
    ensures var w, c := WordOf(m), CodesOf(m.ty);
            m.rd == 0 && Opcode(w) == 0x23 && Funct3(w) == c.f3 && Rs1(w) == m.rs1 && Rs2(w) == m.rs2 && ImmS(w) == m.imm
  {
    hide In2, In3, In5, In7, In12, In13, In20, In21, Even, Low5, High7, With, Low12, Low13, Low21, High20, Up12,
      Drop2, AmoTop, Word, UWord, StoreWord, BranchWord, JumpWord, OpcodeBits, Rd, Funct3Bits, Rs1, Rs2, Funct7Bits,
      Funct12Bits, ImmI, ImmS, ImmB, ImmU, ImmJ, Extend, CodesOf, FormatOf, Bits, Number;
    var c := CodesOf(m.ty);
    TableS(m.ty);
    OpcodeBack(c.op);
    Funct3Back(c.f3);
    FixedNumbers();
    OpcodeWidths();
    Widths(m.imm);
    StoreFields(Low12(m.imm), m.rs2, m.rs1, Bits(c.f3));
    OpcodeNumber(WordOf(m), 0x23);
  }

  lemma StoreTypeIs(t: InstrType)
    requires IsS(t)
    ensures StoreType(CodesS(t).f3) == t && UseOf(t) == Use(false, true, false, 0, SizeOfType(t))
  {
  }

  lemma RoundTripS(m: Asm)
    requires Fits(m) && FormatOf(m.ty) == S
    ensures Means(Decode32(WordOf(m)), m)
  {
    hide Means, Fits, WordOf, Decode32, FormatOf, Opcode, Rd, Funct3, Rs1, Rs2, Funct7, Funct12Bits, RegOf, CsrNumber,
      CodesOf, UseOf, Low5, KindOf, Writes, CodesS, IsS, ImmS, StoreType, SizeOfType;
    FieldsS(m);
    TableS(m.ty);
    Zero();
    StoreRecord(WordOf(m));
    StoreTypeIs(m.ty);
    var w, i := WordOf(m), Decode32(WordOf(m));
    assert i == DecodeStore(w, m.ty);
    assert Target(i) == RegOf(m.rd);
    assert UseIn(i) == UseOf(m.ty);
    assert SameImm(m.ty, i.imm, m.imm);
    Assemble(i, m);
  }

  lemma FieldsB(m: Asm)
    requires Fits(m) && FormatOf(m.ty) == B
    ensures var w, c := WordOf(m), CodesOf(m.ty);
            m.rd == 0 && Opcode(w) == 0x63 && Funct3(w) == c.f3 && Rs1(w) == m.rs1 && Rs2(w) == m.rs2 && ImmB(w) == m.imm
  {
    hide In2, In3, In5, In7, In12, In13, In20, In21, Even, Low5, High7, With, Low12, Low13, Low21, High20, Up12,
      Drop2, AmoTop, Word, UWord, StoreWord, BranchWord, JumpWord, OpcodeBits, Rd, Funct3Bits, Rs1, Rs2, Funct7Bits,
      Funct12Bits, ImmI, ImmS, ImmB, ImmU, ImmJ, Extend, CodesOf, FormatOf, Bits, Number;
    var c := CodesOf(m.ty);
    TableB(m.ty);
    OpcodeBack(c.op);
    Funct3Back(c.f3);
    Widths(m.imm);
    EvenLow(m.imm);
    BranchFields(Low13(m.imm), m.rs2, m.rs1, Bits(c.f3));
    OpcodeNumber(WordOf(m), 0x63);
  }

  lemma BranchTypeIs(t: InstrType)
    requires IsB(t)
    ensures BranchType(CodesB(t).f3) == t && UseOf(t) == NO_USE
  {
  }

  lemma RoundTripB(m: Asm)
    requires Fits(m) && FormatOf(m.ty) == B
    ensures Means(Decode32(WordOf(m)), m)
  {
    hide Means, Fits, WordOf, Decode32, FormatOf, Opcode, Rd, Funct3, Rs1, Rs2, Funct7, Funct12Bits, RegOf, CsrNumber,
      CodesOf, UseOf, Low5, KindOf, Writes, CodesB, IsB, ImmB, BranchType;
    FieldsB(m);
    TableB(m.ty);
    Zero();
    BranchRecord(WordOf(m));
    BranchTypeIs(m.ty);
    var w, i := WordOf(m), Decode32(WordOf(m));
    assert i == Simple(w, m.ty, false, ImmB(w));
    assert Target(i) == RegOf(m.rd);
    assert UseIn(i) == UseOf(m.ty);
    assert SameImm(m.ty, i.imm, m.imm);
    Assemble(i, m);
  }

  lemma FieldsU(m: Asm)
    requires Fits(m) && FormatOf(m.ty) == U
    ensures var w, c := WordOf(m), CodesOf(m.ty);
            Opcode(w) == c.op && Rd(w) == m.rd && ImmU(w) == m.imm
  {
    hide In2, In3, In5, In7, In12, In13, In20, In21, Even, Low5, High7, With, Low12, Low13, Low21, High20, Up12,
      Drop2, AmoTop, Word, UWord, StoreWord, BranchWord, JumpWord, OpcodeBits, Rd, Funct3Bits, Rs1, Rs2, Funct7Bits,
      Funct12Bits, ImmI, ImmS, ImmB, ImmU, ImmJ, Extend, CodesOf, FormatOf, Bits, Number;
    var c := CodesOf(m.ty);
    TableU(m.ty);
    OpcodeBack(c.op);
    Funct3Back(c.f3);
    Widths(m.imm);
    UpperFields(High20(m.imm), m.rd, Bits(c.op));
  }

  lemma FieldsJ(m: Asm)
    requires Fits(m) && FormatOf(m.ty) == J
    ensures var w, c := WordOf(m), CodesOf(m.ty);
            Opcode(w) == 0x6F && Rd(w) == m.rd && ImmJ(w) == m.imm
  {
    hide In2, In3, In5, In7, In12, In13, In20, In21, Even, Low5, High7, With, Low12, Low13, Low21, High20, Up12,
      Drop2, AmoTop, Word, UWord, StoreWord, BranchWord, JumpWord, OpcodeBits, Rd, Funct3Bits, Rs1, Rs2, Funct7Bits,
      Funct12Bits, ImmI, ImmS, ImmB, ImmU, ImmJ, Extend, CodesOf, FormatOf, Bits, Number;
    var c := CodesOf(m.ty);
    TableJ(m.ty);
    OpcodeBack(c.op);
    Funct3Back(c.f3);
    Widths(m.imm);
    EvenLow(m.imm);
    JumpFields(Low21(m.imm), m.rd);
    OpcodeNumber(WordOf(m), 0x6F);
  }

  lemma UpperTypeIs(t: InstrType)
    requires IsU(t)
    ensures (t == LUI && CodesU(t).op == 0x37) || (t == AUIPC && CodesU(t).op == 0x17)
    ensures UseOf(t) == NO_USE
  {
  }

  lemma UseJ(t: InstrType)
    requires IsJ(t)
    ensures UseOf(t) == NO_USE && t == JAL
  {
    hide Atomic, AmoNumberOf, LoadUse, StoreUse;
  }

  lemma RoundTripU(m: Asm)
    requires Fits(m) && FormatOf(m.ty) == U
    ensures Means(Decode32(WordOf(m)), m)
  {
    hide Means, Fits, WordOf, Decode32, FormatOf, Opcode, Rd, Funct3, Rs1, Rs2, Funct7, Funct12Bits, RegOf, CsrNumber,
      CodesOf, UseOf, Low5, KindOf, Writes, CodesU, IsU, ImmU;
    FieldsU(m);
    TableU(m.ty);
    WritesTarget(WordOf(m));
    UpperRecord(WordOf(m));
    UpperTypeIs(m.ty);
    var w, i := WordOf(m), Decode32(WordOf(m));
    assert i == Simple(w, m.ty, Writes(w), ImmU(w));
    assert Target(i) == RegOf(m.rd);
    assert UseIn(i) == UseOf(m.ty);
    assert SameImm(m.ty, i.imm, m.imm);
    Assemble(i, m);
  }

  lemma RoundTripJ(m: Asm)
    requires Fits(m) && FormatOf(m.ty) == J
    ensures Means(Decode32(WordOf(m)), m)
  {
    hide Means, Fits, WordOf, Decode32, FormatOf, Opcode, Rd, Funct3, Rs1, Rs2, Funct7, Funct12Bits, RegOf, CsrNumber,
      CodesOf, UseOf, Low5, KindOf, Writes, CodesJ, IsJ, ImmJ;
    FieldsJ(m);
    TableJ(m.ty);
    WritesTarget(WordOf(m));
    JumpRecord(WordOf(m));
    UseJ(m.ty);
    var w, i := WordOf(m), Decode32(WordOf(m));
    assert i == Simple(w, m.ty, Writes(w), ImmJ(w));
    assert Target(i) == RegOf(m.rd);
    assert UseIn(i) == UseOf(m.ty);
    assert SameImm(m.ty, i.imm, m.imm);
    Assemble(i, m);
  }

  lemma FieldsCsr(m: Asm)
    requires Fits(m) && FormatOf(m.ty) == Csr
    ensures var w, c := WordOf(m), CodesOf(m.ty);
            Opcode(w) == c.op && Funct3(w) == c.f3 && Rd(w) == m.rd && Rs1(w) == m.rs1 && Funct12Bits(w) == m.imm
  {
    hide In2, In3, In5, In7, In12, In13, In20, In21, Even, Low5, High7, With, Low12, Low13, Low21, High20, Up12,
      Drop2, AmoTop, Word, UWord, StoreWord, BranchWord, JumpWord, OpcodeBits, Rd, Funct3Bits, Rs1, Rs2, Funct7Bits,
      Funct12Bits, ImmI, ImmS, ImmB, ImmU, ImmJ, Extend, CodesOf, FormatOf, Bits, Number;
    var c := CodesOf(m.ty);
    TableCsr(m.ty);
    OpcodeBack(c.op);
    Funct3Back(c.f3);
    WordFields(m.imm, m.rs1, Bits(c.f3), m.rd, Bits(c.op));
  }

  lemma CsrTypeIs(w: bv32, t: InstrType)
    requires IsCsr(t) && Funct3(w) == CodesCsr(t).f3
    ensures SystemType(w) == t
  {
    hide Funct3, Funct7, Funct12;
  }

  lemma UseCsr(t: InstrType)
    requires IsCsr(t)
    ensures UseOf(t) == NO_USE && KindOf(t) == CsrOp
  {
    hide Atomic, AmoNumberOf, LoadUse, StoreUse;
  }

  lemma RoundTripCsr(m: Asm)
    requires Fits(m) && FormatOf(m.ty) == Csr
    ensures Means(Decode32(WordOf(m)), m)
  {
    hide Means, Fits, WordOf, Decode32, FormatOf, Opcode, Rd, Funct3, Rs1, Rs2, Funct7, Funct12Bits, RegOf, CsrNumber,
      CodesOf, UseOf, Low5, KindOf, Writes, CodesCsr, IsCsr, SystemType;
    FieldsCsr(m);
    TableCsr(m.ty);
    WritesTarget(WordOf(m));
    SystemRecord(WordOf(m));
    CsrTypeIs(WordOf(m), m.ty);
    UseCsr(m.ty);
    var w, i := WordOf(m), Decode32(WordOf(m));
    assert i == DecodeSystem(w, m.ty);
    assert Target(i) == RegOf(m.rd);
    assert UseIn(i) == UseOf(m.ty);
    assert SameImm(m.ty, i.imm, m.imm);
    Assemble(i, m);
  }

  lemma FieldsFence(m: Asm)
    requires Fits(m) && FormatOf(m.ty) == Fence
    ensures var w, c := WordOf(m), CodesOf(m.ty);
            m.rd == 0 && Opcode(w) == c.op && Funct3(w) == c.f3 && Funct7(w) == c.top && Rs1(w) == m.rs1 && Rs2(w) == m.rs2
  {
    hide In2, In3, In5, In7, In12, In13, In20, In21, Even, Low5, High7, With, Low12, Low13, Low21, High20, Up12,
      Drop2, AmoTop, Word, UWord, StoreWord, BranchWord, JumpWord, OpcodeBits, Rd, Funct3Bits, Rs1, Rs2, Funct7Bits,
      Funct12Bits, ImmI, ImmS, ImmB, ImmU, ImmJ, Extend, CodesOf, FormatOf, Bits, Number;
    var c := CodesOf(m.ty);
    TableFence(m.ty);
    OpcodeBack(c.op);
    Funct3Back(c.f3);
    Funct7Back(c.top);
    WithParts(Bits(c.top), m.rs2);
    WordFields(With(Bits(c.top), m.rs2), m.rs1, Bits(c.f3), m.rd, Bits(c.op));
  }

  lemma SfenceTypeIs(w: bv32, t: InstrType)
    requires IsFence(t) && Funct3(w) == CodesFence(t).f3 && Funct7(w) == CodesFence(t).top
    ensures SystemType(w) == t
  {
    hide Funct3, Funct7, Funct12;
  }

  lemma UseFence(t: InstrType)
    requires IsFence(t)
    ensures UseOf(t) == NO_USE && KindOf(t) != CsrOp
  {
    hide Atomic, AmoNumberOf, LoadUse, StoreUse;
  }

  lemma RoundTripFence(m: Asm)
    requires Fits(m) && FormatOf(m.ty) == Fence
    ensures Means(Decode32(WordOf(m)), m)
  {
    hide Means, Fits, WordOf, Decode32, FormatOf, Opcode, Rd, Funct3, Rs1, Rs2, Funct7, Funct12Bits, RegOf, CsrNumber,
      CodesOf, UseOf, Low5, KindOf, Writes, CodesFence, IsFence, SystemType;
    FieldsFence(m);
    TableFence(m.ty);
    Zero();
    SystemRecord(WordOf(m));
    SfenceTypeIs(WordOf(m), m.ty);
    UseFence(m.ty);
    var w, i := WordOf(m), Decode32(WordOf(m));
    assert i == DecodeSystem(w, m.ty);
    assert Target(i) == RegOf(m.rd);
    assert UseIn(i) == UseOf(m.ty);
    assert SameImm(m.ty, i.imm, m.imm);
    Assemble(i, m);
  }

  lemma BareTops()
    ensures Number(High7(Bits(0))) != 9 && Number(High7(Bits(1))) != 9
    ensures Number(High7(Bits(0x102))) != 9 && Number(High7(Bits(0x105))) != 9 && Number(High7(Bits(0x302))) != 9
  {
  }

  lemma FieldsBare(m: Asm)
    requires Fits(m) && FormatOf(m.ty) == Bare
    ensures var w, c := WordOf(m), CodesOf(m.ty);
            m.rd == 0 && Opcode(w) == c.op && Funct3(w) == c.f3 && Funct12(w) == c.top && Funct7(w) != 9
  {
    hide In2, In3, In5, In7, In12, In13, In20, In21, Even, Low5, High7, With, Low12, Low13, Low21, High20, Up12,
      Drop2, AmoTop, Word, UWord, StoreWord, BranchWord, JumpWord, OpcodeBits, Rd, Funct3Bits, Rs1, Rs2, Funct7Bits,
      Funct12Bits, ImmI, ImmS, ImmB, ImmU, ImmJ, Extend, CodesOf, FormatOf, Bits, Number;
    var c := CodesOf(m.ty);
    TableBare(m.ty);
    OpcodeBack(c.op);
    Funct3Back(c.f3);
    Zero();
    Funct12Back(c.top);
    BareTops();
    WordFields(Bits(c.top), 0, Bits(c.f3), 0, Bits(c.op));
  }

  lemma BareTypeIs(w: bv32, t: InstrType)
    requires IsBare(t) && Funct3(w) == CodesBare(t).f3 && Funct12(w) == CodesBare(t).top && Funct7(w) != 9
    ensures CodesBare(t).op == 0x73 ==> SystemType(w) == t
  {
    hide Funct3, Funct7, Funct12;
  }

  lemma FenceTypeIs(t: InstrType)
    requires IsBare(t) && CodesBare(t).op == 0x0F
    ensures FenceType(CodesBare(t).f3) == t
  {
  }

  lemma UseBare(t: InstrType)
    requires IsBare(t)
    ensures UseOf(t) == NO_USE && KindOf(t) != CsrOp
  {
    hide Atomic, AmoNumberOf, LoadUse, StoreUse;
  }

  lemma RecordBare(w: bv32, t: InstrType)
    requires IsBare(t) && Opcode(w) == CodesBare(t).op && Funct3(w) == CodesBare(t).f3
    requires Funct12(w) == CodesBare(t).top && Funct7(w) != 9
    ensures Decode32(w) == if Opcode(w) == 0x73 then DecodeSystem(w, t) else Simple(w, t, false, 0)
    ensures UseOf(t) == UseIn(Decode32(w)) && !Decode32(w).writesRd
  {
    hide Decode32, Opcode, Funct3, Funct7, Funct12, IsBare, CodesBare, SystemType, FenceType, UseOf, Writes, KindOf;
    OpcodesBare(t);
    BareTypeIs(w, t);
    UseBare(t);
    if Opcode(w) == 0x73 {
      SystemRecord(w);
    } else {
      FenceTypeIs(t);
      FenceRecord(w);
    }
  }

  lemma OpcodesBare(t: InstrType)
    ensures CodesBare(t).op == 0x73 || CodesBare(t).op == 0x0F
  {
  }

  lemma RoundTripBare(m: Asm)
    requires Fits(m) && FormatOf(m.ty) == Bare
    ensures Means(Decode32(WordOf(m)), m)
  {
    hide Means, Fits, WordOf, Decode32, FormatOf, Opcode, Rd, Funct3, Rs1, Rs2, Funct7, Funct12Bits, RegOf, CsrNumber,
      CodesOf, UseOf, Low5, KindOf, Writes, CodesBare, IsBare, SystemType, FenceType;
    FieldsBare(m);
    TableBare(m.ty);
    Zero();
    RecordBare(WordOf(m), m.ty);
    var w, i := WordOf(m), Decode32(WordOf(m));
    assert i == if CodesBare(m.ty).op == 0x73 then DecodeSystem(w, m.ty) else Simple(w, m.ty, false, 0);
    assert Target(i) == RegOf(m.rd);
    assert SameImm(m.ty, i.imm, m.imm);
    Assemble(i, m);
  }

  lemma AqRl(f5: bv32, imm: bv32)
    requires In5(f5) && In2(imm)
    ensures In7(AmoTop(f5, imm)) && Drop2(AmoTop(f5, imm)) == f5
  {
  }

  lemma Funct5Is(w: bv32)
    ensures Funct5Bits(w) == Drop2(Funct7Bits(w))
  {
  }

  lemma FieldsAmo(m: Asm)
    requires Fits(m) && FormatOf(m.ty) == Amo
    ensures var w, c := WordOf(m), CodesOf(m.ty);
            Opcode(w) == c.op && Funct3(w) == c.f3 && Funct5(w) == c.top && Rd(w) == m.rd && Rs1(w) == m.rs1 && Rs2(w) == m.rs2
  {
    hide In2, In3, In5, In7, In12, In13, In20, In21, Even, Low5, High7, With, Low12, Low13, Low21, High20, Up12,
      Drop2, AmoTop, Word, UWord, StoreWord, BranchWord, JumpWord, OpcodeBits, Rd, Funct3Bits, Rs1, Rs2, Funct7Bits,
      Funct12Bits, ImmI, ImmS, ImmB, ImmU, ImmJ, Extend, CodesOf, FormatOf, Bits, Number;
    var c := CodesOf(m.ty);
    TableAmo(m.ty);
    OpcodeBack(c.op);
    Funct3Back(c.f3);
    hide Funct5Bits;
    Funct5Back(c.top);
    AqRl(Bits(c.top), m.imm);
    WithParts(AmoTop(Bits(c.top), m.imm), m.rs2);
    WordFields(With(AmoTop(Bits(c.top), m.imm), m.rs2), m.rs1, Bits(c.f3), m.rd, Bits(c.op));
    Funct5Is(WordOf(m));
  }

  lemma AtomicTypeIs(t: InstrType)
    requires IsAmo(t)
    ensures AtomicName(CodesAmo(t).top) == t && CodesAmo(t).f3 == 2
  {
  }

  lemma AtomicNumbers(t: InstrType)
    requires IsAmo(t)
    ensures AtomicNumber(CodesAmo(t).top) == AmoNumberOf(t)
  {
  }

  lemma AtomicUse(t: InstrType)
    requires IsAmo(t)
    ensures UseOf(t) == Atomic(AtomicNumber(CodesAmo(t).top))
  {
    hide AmoNumberOf, AtomicNumber, CodesAmo, AmoCode;
    AtomicNumbers(t);
  }

  lemma RoundTripAmo(m: Asm)
    requires Fits(m) && FormatOf(m.ty) == Amo
    ensures Means(Decode32(WordOf(m)), m)
  {
    hide Means, Fits, WordOf, Decode32, FormatOf, Opcode, Rd, Funct3, Rs1, Rs2, Funct7, Funct12Bits, RegOf, CsrNumber,
      CodesOf, UseOf, Low5, KindOf, Writes, CodesAmo, IsAmo, AtomicName, AtomicNumber, Funct5, AmoCode;
    FieldsAmo(m);
    TableAmo(m.ty);
    WritesTarget(WordOf(m));
    AmoRecord(WordOf(m));
    AtomicTypeIs(m.ty);
    AtomicUse(m.ty);
    var w, i := WordOf(m), Decode32(WordOf(m));
    assert i == DecodeAtomic(w, Funct5(w));
    assert Target(i) == RegOf(m.rd);
    assert UseIn(i) == UseOf(m.ty);
    assert SameImm(m.ty, i.imm, m.imm);
    Assemble(i, m);
  }

  /** The decoder recovers every instruction of RV32IMA, Zicsr and the privileged
      set from its encoding. */
  lemma DecodeEncode(m: Asm)
    requires Fits(m)
    ensures Means(Decode32(WordOf(m)), m)
  {
    hide Means, Decode32, WordOf, FormatOf;
    match FormatOf(m.ty)
    case R => RoundTripR(m);
    case I => RoundTripI(m);
    case Shift => RoundTripShift(m);
    case S => RoundTripS(m);
    case B => RoundTripB(m);
    case U => RoundTripU(m);
    case J => RoundTripJ(m);
    case Csr => RoundTripCsr(m);
    case Fence => RoundTripFence(m);
    case Bare => RoundTripBare(m);
    case Amo => RoundTripAmo(m);
  }

  // The formats are disjoint, and with them the uses of memory.

  lemma FormatBase(t: InstrType)
    ensures IsBase(t) ==> FormatOf(t) == R
  {
    hide IsM, IsS, IsJ, IsB, IsBare, IsFence, IsCsr, IsAmo;
  }

  lemma FormatM(t: InstrType)
    ensures IsM(t) ==> FormatOf(t) == R
  {
    hide IsBase, IsS, IsJ, IsB, IsBare, IsFence, IsCsr, IsAmo;
  }

  lemma FormatR(t: InstrType)
    ensures IsR(t) ==> FormatOf(t) == R
  {
    hide IsBase, IsM, FormatOf;
    FormatBase(t);
    FormatM(t);
  }

  lemma FormatShift(t: InstrType)
    ensures IsShift(t) ==> FormatOf(t) == Shift
  {
    hide IsR, IsS, IsJ, IsB, IsBare, IsFence, IsCsr, IsAmo;
  }

  lemma FormatI(t: InstrType)
    ensures IsI(t) ==> FormatOf(t) == I
  {
    hide IsShift, IsR, IsS, IsJ, IsB, IsBare, IsFence, IsCsr, IsAmo;
  }

  lemma FormatU(t: InstrType)
    ensures IsU(t) ==> FormatOf(t) == U
  {
    hide IsI, IsShift, IsR, IsS, IsJ, IsB, IsBare, IsFence, IsCsr, IsAmo;
  }

  lemma FormatS(t: InstrType)
    ensures IsS(t) ==> FormatOf(t) == S
  {
    hide IsJ, IsB, IsBare, IsFence, IsCsr, IsAmo;
  }

  lemma AmoApart1(t: InstrType)
    ensures IsAmo(t) ==> !IsU(t) && !IsI(t) && !IsShift(t)
  {
  }

  lemma AmoApart2(t: InstrType)
    ensures IsAmo(t) ==> !IsR(t)
  {
  }

  lemma AmoApart3(t: InstrType)
    ensures IsAmo(t) ==> !IsS(t) && !IsJ(t) && !IsB(t)
  {
  }

  lemma AmoApart4(t: InstrType)
    ensures IsAmo(t) ==> !IsBare(t) && !IsFence(t) && !IsCsr(t)
  {
  }

  lemma FormatAmo(t: InstrType)
    ensures IsAmo(t) ==> FormatOf(t) == Amo
  {
    hide IsU, IsI, IsShift, IsR, IsS, IsJ, IsB, IsBare, IsFence, IsCsr, IsAmo;
    AmoApart1(t);
    AmoApart2(t);
    AmoApart3(t);
    AmoApart4(t);
  }

  lemma FormatJ(t: InstrType)
    ensures IsJ(t) ==> FormatOf(t) == J
  {
    hide IsB, IsBare, IsFence, IsCsr, IsAmo;
  }

  lemma FormatB(t: InstrType)
    ensures IsB(t) ==> FormatOf(t) == B
  {
    hide IsBare, IsFence, IsCsr, IsAmo;
  }

  lemma FormatBare(t: InstrType)
    ensures IsBare(t) ==> FormatOf(t) == Bare
  {
    hide IsFence, IsCsr, IsAmo;
  }

  lemma UseAmo(t: InstrType)
    ensures IsAmo(t) ==> UseOf(t).atomic
  {
    hide IsAmo, IsLoad, IsS, LoadUse, StoreUse, AmoNumberOf, AmoCode;
  }

  lemma UseS(t: InstrType)
    ensures IsS(t) ==> !UseOf(t).atomic
  {
    hide LoadUse, AmoNumberOf, AmoCode;
  }

  lemma UseLoad(t: InstrType)
    ensures IsLoad(t) ==> UseOf(t).load && !UseOf(t).store && !UseOf(t).atomic
  {
    hide AmoNumberOf, AmoCode;
  }

  // Every encoding has the two low bits set.

  lemma RawTag(top: bv32, rs1: bv32, f3: bv32, rd: bv32, op: bv32)
    ensures ((top << 20) | (rs1 << 15) | (f3 << 12) | (rd << 7) | op) & 3 == op & 3
    ensures ((top << 12) | (rd << 7) | op) & 3 == op & 3
  {
  }

  lemma WordTag(top: bv32, rs1: bv32, f3: bv32, rd: bv32, op: bv32)
    ensures IsLong(Word(top, rs1, f3, rd, op)) == IsLong(op) && IsLong(UWord(top, rd, op)) == IsLong(op)
  {
    RawTag(top, rs1, f3, rd, op);
  }

  lemma OpcodesTagged()
    ensures IsLong(3) && IsLong(0xF) && IsLong(0x13) && IsLong(0x17) && IsLong(0x23) && IsLong(0x2F)
    ensures IsLong(0x33) && IsLong(0x37) && IsLong(0x63) && IsLong(0x67) && IsLong(0x6F) && IsLong(0x73)
  {
  }

  lemma OpcodeTag(n: int)
    requires KnownOpcode(n)
    ensures IsLong(Bits(n)) && IsLong(0x23) && IsLong(0x63) && IsLong(0x6F)
  {
    hide IsLong, Bits;
    FixedWords();
    OpcodesTagged();
  }

  lemma CodesKnown(t: InstrType)
    requires FormatOf(t) != None
    ensures CodesOf(t).op in {3, 0xF, 0x13, 0x17, 0x23, 0x2F, 0x33, 0x37, 0x63, 0x67, 0x6F, 0x73}
  {
    hide FormatOf, CodesOf;
    match FormatOf(t)
    case U => TableU(t);
    case I => TableI(t);
    case Shift => TableShift(t);
    case R => TableR(t);
    case S => TableS(t);
    case J => TableJ(t);
    case B => TableB(t);
    case Bare => TableBare(t);
    case Fence => TableFence(t);
    case Csr => TableCsr(t);
    case Amo => TableAmo(t);
  }

  lemma WordOfLong(m: Asm)
    requires Fits(m)
    ensures IsLong(WordOf(m))
  {
    hide IsLong, CodesOf, FormatOf, Word, UWord, Bits, With, AmoTop, Low12, Low13, Low21, High20, StoreTop, Low5,
      BranchTop, BranchLow, JumpBits, Extend, Even, In5, Up12, In2, In12;
    var c := CodesOf(m.ty);
    CodesKnown(m.ty);
    OpcodeTag(c.op);
    var f3, op, top := Bits(c.f3), Bits(c.op), Bits(c.top);
    match FormatOf(m.ty)
    case R | Fence => WordTag(With(top, m.rs2), m.rs1, f3, m.rd, op);
    case I => WordTag(Low12(m.imm), m.rs1, f3, m.rd, op);
    case Shift => WordTag(With(top, m.imm), m.rs1, f3, m.rd, op);
    case S => WordTag(StoreTop(Low12(m.imm), m.rs2), m.rs1, f3, Low5(Low12(m.imm)), 0x23);
    case B => WordTag(BranchTop(Low13(m.imm), m.rs2), m.rs1, f3, BranchLow(Low13(m.imm)), 0x63);
    case U => WordTag(High20(m.imm), 0, 0, m.rd, op);
    case J => WordTag(JumpBits(Low21(m.imm)), 0, 0, m.rd, 0x6F);
    case Csr => WordTag(m.imm, m.rs1, f3, m.rd, op);
    case Amo => WordTag(With(AmoTop(top, m.imm), m.rs2), m.rs1, f3, m.rd, op);
    case Bare => WordTag(top, 0, f3, 0, op);
  }
}
