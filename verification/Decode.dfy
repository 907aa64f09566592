/** Instruction decode (src/decode.hpp:343-1305): the 32-bit decoder, the
    compressed decoder, and the choice between them.  Register operands are read
    where the instruction enters EX, so a decoded record depends on the word alone. */
module Decode {
  import opened Isa

  // --------------------------------------------------------------------- fields

  function OpcodeBits(w: bv32): (r: bv32) { w & 0x7F }
  function Rd(w: bv32): (r: bv32) { (w >> 7) & 0x1F }
  function Funct3Bits(w: bv32): (r: bv32) { (w >> 12) & 7 }
  function Rs1(w: bv32): (r: bv32) { (w >> 15) & 0x1F }
  function Rs2(w: bv32): (r: bv32) { (w >> 20) & 0x1F }
  function Funct7Bits(w: bv32): (r: bv32) { (w >> 25) & 0x7F }
  function Funct5Bits(w: bv32): (r: bv32) { Funct7Bits(w) >> 2 }
  function Funct12Bits(w: bv32): (r: bv32) { (w >> 20) & 0xFFF }

  /** Fields that select a case, as numbers. */
  function Number(v: bv32): (n: int) { v as int }
  function Opcode(w: bv32): (n: int) { Number(OpcodeBits(w)) }
  function Funct3(w: bv32): (n: int) { Number(Funct3Bits(w)) }
  function Funct5(w: bv32): (n: int) { Number(Funct5Bits(w)) }
  function Funct7(w: bv32): (n: int) { Number(Funct7Bits(w)) }
  function Funct12(w: bv32): (n: int) { Number(Funct12Bits(w)) }

  /** `sign_extend`, given the sign bit's weight. */
  function Extend(v: bv32, sign: bv32): (r: bv32) { (v ^ sign) - sign }

  function ImmI(w: bv32): (r: bv32) { Extend((w >> 20) & 0xFFF, 0x800) }
  function ImmS(w: bv32): (r: bv32) { Extend((((w >> 25) & 0x7F) << 5) | ((w >> 7) & 0x1F), 0x800) }
  function ImmU(w: bv32): (r: bv32) { w & 0xFFFF_F000 }

  function ImmB(w: bv32): (r: bv32) {
    Extend((((w >> 31) & 1) << 12) | (((w >> 7) & 1) << 11) | (((w >> 25) & 0x3F) << 5) | (((w >> 8) & 0xF) << 1), 0x1000)
  }

  function ImmJ(w: bv32): (r: bv32) {
    Extend((((w >> 31) & 1) << 20) | (((w >> 12) & 0xFF) << 12) | (((w >> 20) & 1) << 11) | (((w >> 21) & 0x3FF) << 1), 0x10_0000)
  }

  function RegOf(n: bv32): (r: Reg) { (n & 0x1F) as int }

  function CsrNumber(n: bv32): (r: int)
    ensures 0 <= r < 4096
  {
    (n & 0xFFF) as int
  }

  // ------------------------------------------------------------- 32-bit decoder

  function AluImmType(w: bv32): (t: InstrType) {
    var f := Funct3(w);
    if f == 0 then ADDI
    else if f == 1 then (if ImmI(w) > 31 then INVALID else SLLI)
    else if f == 2 then SLTI
    else if f == 3 then SLTIU
    else if f == 4 then XORI
    else if f == 5 then (if Funct7(w) == 0 then SRLI else SRAI)
    else if f == 6 then ORI
    else ANDI
  }

  /** Unlisted combinations keep the default type. */
  function AluType(w: bv32): (t: InstrType) {
    var f, g := Funct3(w), Funct7(w);
    if g == 0 then
      (if f == 0 then ADD else if f == 1 then SLL else if f == 2 then SLT else if f == 3 then SLTU
       else if f == 4 then XOR else if f == 5 then SRL else if f == 6 then OR else AND)
    else if g == 0x20 then (if f == 0 then SUB else if f == 5 then SRA else NOP)
    else if g == 1 then
      (if f == 0 then MUL else if f == 1 then MULH else if f == 2 then MULHSU else if f == 3 then MULHU
       else if f == 4 then DIV else if f == 5 then DIVU else if f == 6 then REM else REMU)
    else NOP
  }

  function LoadType(f: int): (t: InstrType) {
    if f == 0 then LB else if f == 1 then LH else if f == 2 then LW else if f == 4 then LBU else if f == 5 then LHU else NOP
  }

  function StoreType(f: int): (t: InstrType) {
    if f == 0 then SB else if f == 1 then SH else if f == 2 then SW else NOP
  }

  function SizeOfType(t: InstrType): (n: bv8)
    ensures n <= 4
  {
    match t
    case LB | LBU | SB => 1
    case LH | LHU | SH => 2
    case LW | SW => 4
    case _ => 0
  }

  function BranchType(f: int): (t: InstrType) {
    if f == 0 then BEQ else if f == 1 then BNE else if f == 4 then BLT else if f == 5 then BGE
    else if f == 6 then BLTU else if f == 7 then BGEU else NOP
  }

  function SystemType(w: bv32): (t: InstrType) {
    var f, g := Funct3(w), Funct12(w);
    if f == 0 then
      (if Funct7(w) == 9 then SFENCE_VMA
       else if g == 0 then ECALL else if g == 1 then EBREAK else if g == 0x105 then WFI
       else if g == 0x102 then SRET else if g == 0x302 then MRET else INVALID)
    else if f == 1 then CSRRW else if f == 2 then CSRRS else if f == 3 then CSRRC
    else if f == 5 then CSRRWI else if f == 6 then CSRRSI else if f == 7 then CSRRCI
    else INVALID
  }

  function FenceType(f: int): (t: InstrType) { if f == 0 then FENCE else if f == 1 then FENCE_I else INVALID }

  function AmoCode(n: int): (r: bv8) { if 0 <= n <= 10 then n as bv8 else 0 }

  /** An atomic instruction from funct5, and the operation code it hands the memory. */
  function AtomicName(f: int): (t: InstrType) {
    if f == 2 then LR_W else if f == 3 then SC_W else if f == 1 then AMOSWAP_W else if f == 0 then AMOADD_W
    else if f == 4 then AMOXOR_W else if f == 0xC then AMOAND_W else if f == 8 then AMOOR_W else if f == 0x10 then AMOMIN_W
    else if f == 0x14 then AMOMAX_W else if f == 0x18 then AMOMINU_W else if f == 0x1C then AMOMAXU_W
    else INVALID
  }

  function AtomicNumber(f: int): (n: int) {
    if f == 2 then 0 else if f == 3 then 1 else if f == 1 then 2 else if f == 0 then 3 else if f == 4 then 4
    else if f == 0xC then 5 else if f == 8 then 6 else if f == 0x10 then 7 else if f == 0x14 then 8
    else if f == 0x18 then 9 else if f == 0x1C then 10
    else 0
  }

  /** A decoded word that is not a memory access. */
  function Simple(w: bv32, t: InstrType, writes: bool, imm: bv32): (i: Instr)
    ensures !i.onTrap && i.cause == 0 && i.memSize <= 4
  {
    Instr(t, w, RegOf(Rd(w)), writes, RegOf(Rs1(w)), RegOf(Rs2(w)), imm, 0, false, false, false, false, 0, 0, false, 0, 0)
  }

  function Writes(w: bv32): (b: bool) { Rd(w) != 0 }

  /** `decode`. */
  function Decode32(w: bv32): (i: Instr)
    ensures !i.onTrap && i.cause == 0 && i.memSize <= 4
  {
    var op := Opcode(w);
    if op == 0x37 then Simple(w, LUI, Writes(w), ImmU(w))
    else if op == 0x17 then Simple(w, AUIPC, Writes(w), ImmU(w))
    else if op == 0x13 then Simple(w, AluImmType(w), Writes(w), ImmI(w))
    else if op == 0x33 then Simple(w, AluType(w), Writes(w), 0)
    else if op == 0x03 then DecodeLoad(w, LoadType(Funct3(w)))
    else if op == 0x23 then DecodeStore(w, StoreType(Funct3(w)))
    else if op == 0x6F then Simple(w, JAL, Writes(w), ImmJ(w))
    else if op == 0x67 then Simple(w, JALR, Writes(w), ImmI(w))
    else if op == 0x63 then Simple(w, BranchType(Funct3(w)), false, ImmB(w))
    else if op == 0x73 then DecodeSystem(w, SystemType(w))
    else if op == 0x0F then Simple(w, FenceType(Funct3(w)), false, 0)
    else if op == 0x2F then DecodeAtomic(w, if Funct3(w) != 2 then 32 else Funct5(w))
    else Simple(w, INVALID, false, 0)
  }

  function DecodeLoad(w: bv32, t: InstrType): (i: Instr)
    ensures !i.onTrap && i.cause == 0 && i.memSize <= 4
  {
    Instr(t, w, RegOf(Rd(w)), Writes(w), RegOf(Rs1(w)), RegOf(Rs2(w)), ImmI(w), 0, false,
          true, false, false, 0, SizeOfType(t), false, 0, 0)
  }

  function DecodeStore(w: bv32, t: InstrType): (i: Instr)
    ensures !i.onTrap && i.cause == 0 && i.memSize <= 4
  {
    Instr(t, w, RegOf(Rd(w)), false, RegOf(Rs1(w)), RegOf(Rs2(w)), ImmS(w), 0, false,
          false, true, false, 0, SizeOfType(t), false, 0, 0)
  }

  function DecodeSystem(w: bv32, t: InstrType): (i: Instr)
    ensures !i.onTrap && i.cause == 0 && i.memSize <= 4
  {
    Instr(t, w, RegOf(Rd(w)), KindOf(t) == CsrOp && Writes(w), RegOf(Rs1(w)), RegOf(Rs2(w)), 0, CsrNumber(Funct12Bits(w)), false,
          false, false, false, 0, 0, false, 0, 0)
  }

  /** A wrong width is passed on as an undefined funct5. */
  function DecodeAtomic(w: bv32, f: int): (i: Instr)
    ensures !i.onTrap && i.cause == 0 && i.memSize <= 4
  {
    Instr(AtomicName(f), w, RegOf(Rd(w)), Writes(w), RegOf(Rs1(w)), RegOf(Rs2(w)), 0, 0, false,
          false, false, true, AmoCode(AtomicNumber(f)), 4, false, 0, 0)
  }

  // --------------------------------------------------------- compressed decoder

  function Quadrant(c: bv32): (r: bv32) { c & 3 }
  function CFunct3(c: bv32): (r: bv32) { (c >> 13) & 7 }
  function Bit12(c: bv32): (r: bv32) { (c >> 12) & 1 }
  function Bits11To10(c: bv32): (r: bv32) { (c >> 10) & 3 }
  function Bits6To5(c: bv32): (r: bv32) { (c >> 5) & 3 }
  function Full(c: bv32): (r: bv32) { (c >> 7) & 0x1F }
  function Second(c: bv32): (r: bv32) { (c >> 2) & 0x1F }
  function Narrow1(c: bv32): (r: bv32) { ((c >> 7) & 7) + 8 }
  function Narrow2(c: bv32): (r: bv32) { ((c >> 2) & 7) + 8 }

  function CAddi4spn(c: bv32): (r: bv32) {
    (((c >> 11) & 3) << 4) | (((c >> 7) & 0xF) << 6) | (((c >> 6) & 1) << 2) | (((c >> 5) & 1) << 3)
  }

  function CWordOffset(c: bv32): (r: bv32) { (((c >> 5) & 1) << 6) | (((c >> 10) & 7) << 3) | (((c >> 6) & 1) << 2) }

  function CImm(c: bv32): (r: bv32) { Extend((((c >> 12) & 1) << 5) | ((c >> 2) & 0x1F), 0x20) }

  function CJump(c: bv32): (r: bv32) {
    Extend((((c >> 12) & 1) << 11) | (((c >> 11) & 1) << 4) | (((c >> 9) & 3) << 8) | (((c >> 8) & 1) << 10)
           | (((c >> 7) & 1) << 6) | (((c >> 6) & 1) << 7) | (((c >> 3) & 7) << 1) | (((c >> 2) & 1) << 5), 0x800)
  }

  function CAddi16sp(c: bv32): (r: bv32) {
    Extend((((c >> 12) & 1) << 9) | (((c >> 6) & 1) << 4) | (((c >> 5) & 1) << 6) | (((c >> 3) & 3) << 7)
           | (((c >> 2) & 1) << 5), 0x200)
  }

  function CLui(c: bv32): (r: bv32) { Extend((((c >> 12) & 1) << 17) | (((c >> 2) & 0x1F) << 12), 0x2_0000) }

  function CBranch(c: bv32): (r: bv32) {
    Extend((((c >> 12) & 1) << 8) | (((c >> 10) & 3) << 3) | (((c >> 5) & 3) << 6) | (((c >> 3) & 3) << 1)
           | (((c >> 2) & 1) << 5), 0x100)
  }

  function CLoadSp(c: bv32): (r: bv32) { (((c >> 12) & 1) << 5) | (((c >> 4) & 7) << 2) | (((c >> 2) & 3) << 6) }

  function CStoreSp(c: bv32): (r: bv32) { (((c >> 9) & 0xF) << 2) | (((c >> 7) & 3) << 6) }

  /** A compressed instruction; `bad` raises the illegal-instruction trap. */
  function Compressed(c: bv32, t: InstrType, writes: bool, rd: Reg, rs1: Reg, rs2: Reg, imm: bv32, bad: bool): (i: Instr)
    ensures i.compressed && i.memSize <= 4 && i.ty == t && i.onTrap == bad && i.cause == if bad then 2 else 0
  {
    Instr(t, c, rd, writes, rs1, rs2, imm, 0, true, t == LW, t == SW, false, 0, SizeOfType(t),
          bad, if bad then 2 else 0, if bad then c else 0)
  }

  function Refused(c: bv32): (i: Instr)
    ensures i.compressed && i.memSize <= 4 && i.cause == if i.onTrap then 2 else 0
  {
    Compressed(c, INVALID, false, 0, 0, 0, 0, true)
  }

  function Unknown(c: bv32): (i: Instr)
    ensures i.compressed && i.memSize <= 4 && i.cause == if i.onTrap then 2 else 0
  {
    Compressed(c, INVALID, false, 0, 0, 0, 0, false)
  }

  function Quadrant0(c: bv32): (i: Instr)
    ensures i.compressed && i.memSize <= 4 && i.cause == if i.onTrap then 2 else 0
  {
    var f := CFunct3(c);
    if f == 0 then Compressed(c, ADDI, true, RegOf(Narrow2(c)), 2, 0, CAddi4spn(c), CAddi4spn(c) == 0)
    else if f == 2 then Compressed(c, LW, true, RegOf(Narrow2(c)), RegOf(Narrow1(c)), 0, CWordOffset(c), false)
    else if f == 6 then Compressed(c, SW, false, 0, RegOf(Narrow1(c)), RegOf(Narrow2(c)), CWordOffset(c), false)
    else Refused(c)
  }

  function Arith(c: bv32): (i: Instr)
    ensures i.compressed && i.memSize <= 4 && i.cause == if i.onTrap then 2 else 0
  {
    var r, g := RegOf(Narrow1(c)), Bits11To10(c);
    if g == 0 then Compressed(c, SRLI, true, r, r, 0, Second(c), Bit12(c) != 0)
    else if g == 1 then Compressed(c, SRAI, true, r, r, 0, Second(c), Bit12(c) != 0)
    else if g == 2 then Compressed(c, ANDI, true, r, r, 0, CImm(c), false)
    else if Bit12(c) == 0 then
      Compressed(c, ArithType(Bits6To5(c)), true, r, r, RegOf(Narrow2(c)), 0, false)
    else Refused(c)
  }

  function ArithType(g: bv32): (t: InstrType) { if g == 0 then SUB else if g == 1 then XOR else if g == 2 then OR else AND }

  /** C.ADDI16SP shares its code with C.LUI. */
  function StackOrUpper(c: bv32): (i: Instr)
    ensures i.compressed && i.memSize <= 4 && i.cause == if i.onTrap then 2 else 0
  {
    if Full(c) == 2 then Compressed(c, ADDI, true, 2, 2, 0, CAddi16sp(c), CAddi16sp(c) == 0)
    else Compressed(c, LUI, true, RegOf(Full(c)), 0, 0, CLui(c), false)
  }

  function Quadrant1(c: bv32): (i: Instr)
    ensures i.compressed && i.memSize <= 4 && i.cause == if i.onTrap then 2 else 0
  {
    var f, r := CFunct3(c), RegOf(Full(c));
    if f == 0 then (if c == 1 then Compressed(c, NOP, false, 0, 0, 0, 0, false) else Compressed(c, ADDI, true, r, r, 0, CImm(c), false))
    else if f == 1 then Compressed(c, JAL, true, 1, 0, 0, CJump(c), false)
    else if f == 2 then Compressed(c, ADDI, true, r, 0, 0, CImm(c), false)
    else if f == 3 then StackOrUpper(c)
    else if f == 4 then Arith(c)
    else if f == 5 then Compressed(c, JAL, false, 0, 0, 0, CJump(c), false)
    else if f == 6 then Compressed(c, BEQ, false, 0, RegOf(Narrow1(c)), 0, CBranch(c), false)
    else Compressed(c, BNE, false, 0, RegOf(Narrow1(c)), 0, CBranch(c), false)
  }

  function Jumps(c: bv32): (i: Instr)
    ensures i.compressed && i.memSize <= 4 && i.cause == if i.onTrap then 2 else 0
  {
    var r := RegOf(Full(c));
    if Bit12(c) == 0 then
      (if Second(c) == 0 then Compressed(c, JALR, false, 0, r, 0, 0, Full(c) == 0)
       else Compressed(c, ADD, true, r, 0, RegOf(Second(c)), 0, false))
    else if Second(c) == 0 then
      (if Full(c) == 0 then Compressed(c, EBREAK, false, 0, 0, 0, 0, false)
       else Compressed(c, JALR, true, 1, r, 0, 0, false))
    else Compressed(c, ADD, true, r, r, RegOf(Second(c)), 0, false)
  }

  function Quadrant2(c: bv32): (i: Instr)
    ensures i.compressed && i.memSize <= 4 && i.cause == if i.onTrap then 2 else 0
  {
    var f, r := CFunct3(c), RegOf(Full(c));
    if f == 0 then Compressed(c, SLLI, true, r, r, 0, Second(c), Bit12(c) != 0 && Full(c) == 0)
    else if f == 2 then Compressed(c, LW, true, r, 2, 0, CLoadSp(c), Full(c) == 0)
    else if f == 4 then Jumps(c)
    else if f == 6 then Compressed(c, SW, false, 0, 2, RegOf(Second(c)), CStoreSp(c), false)
    else if f == 1 || f == 3 then Refused(c)
    else Unknown(c)
  }

  /** `decompress`. */
  function Decompress(c: bv32): (i: Instr)
    ensures i.compressed && i.memSize <= 4 && i.cause == if i.onTrap then 2 else 0
  {
    var q := Quadrant(c);
    if q == 0 then Quadrant0(c) else if q == 1 then Quadrant1(c) else if q == 2 then Quadrant2(c) else Unknown(c)
  }

  // ---------------------------------------------------------- the decode stage

  predicate IsLong(w: bv32) { w & 3 == 3 }

  function LowHalf(w: bv32): (c: bv32) { w & 0xFFFF }

  function WithTrap(i: Instr, cause: bv32, tval: bv32): (r: Instr)
    ensures r.onTrap && r.cause == cause && r.tval == tval && r.ty == i.ty && r.memSize == i.memSize
  {
    i.(onTrap := true, cause := cause, tval := tval)
  }

  /** What decode passes on for a fetched word and its fetch fault, 0 for none
      (`inst_decode_seq`). */
  function Issue(w: bv32, fault: bv32, tval: bv32): (i: Instr) {
    Settle(if IsLong(w) then Decode32(w) else Decompress(LowHalf(w)), fault, tval)
  }

  function Settle(d: Instr, fault: bv32, tval: bv32): (i: Instr) {
    if fault == 1 || fault == 12 then WithTrap(d, fault, tval)
    else if d.ty == INVALID then WithTrap(d, 2, 0)
    else d
  }

  lemma SettleTraps(d: Instr, fault: bv32, tval: bv32)
    requires d.memSize <= 4 && d.cause == if d.onTrap then 2 else 0
    ensures var i := Settle(d, fault, tval);
            && (i.ty == INVALID ==> i.onTrap)
            && (fault == 1 || fault == 12 ==> i.onTrap && i.cause == fault && i.tval == tval)
            && (fault != 1 && fault != 12 ==> i.cause == if i.onTrap then 2 else 0)
            && i.memSize <= 4
  {
    hide WithTrap;
  }

  /** A fetch fault wins whatever the word; an undecodable word always traps; any
      other trap is an illegal instruction; no access is wider than a word. */
  lemma IssueTraps(w: bv32, fault: bv32, tval: bv32)
    ensures var i := Issue(w, fault, tval);
            && (i.ty == INVALID ==> i.onTrap)
            && (fault == 1 || fault == 12 ==> i.onTrap && i.cause == fault && i.tval == tval)
            && (fault != 1 && fault != 12 ==> i.cause == if i.onTrap then 2 else 0)
            && i.memSize <= 4
  {
    hide Decode32, Decompress, IsLong, LowHalf, Settle;
    SettleTraps(if IsLong(w) then Decode32(w) else Decompress(LowHalf(w)), fault, tval);
  }
}
