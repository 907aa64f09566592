/** Decoded instructions (src/instr_cfg.hpp, the record of src/decode.hpp:10-49)
    and the value part of the execute stage (src/exec.hpp:465-708). */
module Isa {
  import opened Hart
  import Mext
  import Bits

  type Reg = r: int | 0 <= r < 32

  datatype InstrType =
    | LUI | AUIPC
    | ADDI | SLTI | SLTIU | XORI | ORI | ANDI | SLLI | SRLI | SRAI
    | ADD | SUB | SLL | SLT | SLTU | XOR | SRL | SRA | OR | AND
    | LB | LH | LW | LBU | LHU | SB | SH | SW
    | JAL | JALR
    | BEQ | BNE | BLT | BGE | BLTU | BGEU
    | ECALL | EBREAK | SRET | MRET | WFI
    | CSRRW | CSRRS | CSRRC | CSRRWI | CSRRSI | CSRRCI
    | FENCE | FENCE_I | SFENCE_VMA
    | MUL | MULH | MULHSU | MULHU | DIV | DIVU | REM | REMU
    | LR_W | SC_W | AMOSWAP_W | AMOADD_W | AMOXOR_W | AMOAND_W | AMOOR_W
    | AMOMIN_W | AMOMAX_W | AMOMINU_W | AMOMAXU_W
    | NOP | INVALID

  /** What decode knows about an instruction before it reads registers. */
  datatype Instr = Instr(
    ty: InstrType, inst: bv32, rd: Reg, writesRd: bool, rs1: Reg, rs2: Reg, imm: bv32,
    csrAddr: CsrAddr, compressed: bool,
    isLoad: bool, isStore: bool, isAtomic: bool, amoOp: bv8, memSize: bv8,
    onTrap: bool, cause: bv32, tval: bv32)

  /** The default record: every field zero, type NOP. */
  const BLANK := Instr(NOP, 0, 0, false, 0, 0, 0, 0, false, false, false, false, 0, 0, false, 0, 0)

  datatype Kind =
    | Alu | MulDiv | LoadStore | Jump | Branch | FenceI | Sfence | Ecall | Ebreak | Wfi | Sret | Mret
    | CsrOp | Invalid | Nop

  function KindOf(ty: InstrType): (k: Kind) {
    match ty
    case LUI | AUIPC | ADDI | SLTI | SLTIU | XORI | ORI | ANDI | SLLI | SRLI | SRAI
       | ADD | SUB | SLL | SLT | SLTU | XOR | SRL | SRA | OR | AND => Alu
    case LB | LH | LW | LBU | LHU | SB | SH | SW
       | LR_W | SC_W | AMOSWAP_W | AMOADD_W | AMOXOR_W | AMOAND_W | AMOOR_W
       | AMOMIN_W | AMOMAX_W | AMOMINU_W | AMOMAXU_W => LoadStore
    case JAL | JALR => Jump
    case BEQ | BNE | BLT | BGE | BLTU | BGEU => Branch
    case ECALL => Ecall
    case EBREAK => Ebreak
    case SRET => Sret
    case MRET => Mret
    case WFI => Wfi
    case CSRRW | CSRRS | CSRRC | CSRRWI | CSRRSI | CSRRCI => CsrOp
    case FENCE_I => FenceI
    case SFENCE_VMA => Sfence
    case MUL | MULH | MULHSU | MULHU | DIV | DIVU | REM | REMU => MulDiv
    case FENCE | NOP => Nop
    case INVALID => Invalid
  }

  /** Signed comparison of two's complement words. */
  predicate SignedLess(a: bv32, b: bv32) { a ^ 0x8000_0000 < b ^ 0x8000_0000 }

  function ArithShift(a: bv32, n: bv32): (r: bv32)
    requires n <= 31
  {
    if a & 0x8000_0000 == 0 then a >> n else !((!a) >> n)
  }

  function Flag(b: bool): (r: bv32) { if b then 1 else 0 }

  function Low5(v: bv32): (r: bv32) { v & 0x1F }

  /** Shift by an amount taken modulo 32. */
  function Shift(right: bool, v: bv32, n: bv32): (r: bv32) {
    var m := n & 0x1F;
    if right then v >> m else v << m
  }

  predicate RegisterOperand(ty: InstrType) {
    ty.ADD? || ty.SUB? || ty.SLL? || ty.SLT? || ty.SLTU? || ty.XOR? || ty.SRL? || ty.SRA? || ty.OR? || ty.AND?
  }

  predicate ImmediateShift(ty: InstrType) { ty.SLLI? || ty.SRLI? || ty.SRAI? }

  function FirstOperand(ty: InstrType, pc: bv32, rs1: bv32): (r: bv32) {
    if ty.LUI? then 0 else if ty.AUIPC? then pc else rs1
  }

  function SecondOperand(ty: InstrType, rs2: bv32, imm: bv32): (r: bv32) {
    if RegisterOperand(ty) then rs2 else if ImmediateShift(ty) then Low5(imm) else imm
  }

  function Operate(ty: InstrType, a: bv32, b: bv32): (r: bv32) {
    match ty
    case LUI | AUIPC | ADDI | ADD => Bits.Plus(a, b)
    case SUB => Bits.Minus(a, b)
    case SLTI | SLT => Flag(SignedLess(a, b))
    case SLTIU | SLTU => Flag(Bits.Less(a, b))
    case XORI | XOR => Bits.Differ(a, b)
    case ORI | OR => Bits.Either(a, b)
    case ANDI | AND => Bits.Both(a, b)
    case SLLI | SLL => Shift(false, a, b)
    case SRLI | SRL => Shift(true, a, b)
    case SRAI | SRA => ArithShift(a, Low5(b))
    case _ => 0
  }

  function AluResult(ty: InstrType, pc: bv32, rs1: bv32, rs2: bv32, imm: bv32): (r: bv32) {
    Operate(ty, FirstOperand(ty, pc, rs1), SecondOperand(ty, rs2, imm))
  }

  predicate BranchTaken(ty: InstrType, rs1: bv32, rs2: bv32) {
    match ty
    case BEQ => rs1 == rs2
    case BNE => rs1 != rs2
    case BLT => SignedLess(rs1, rs2)
    case BGE => !SignedLess(rs1, rs2)
    case BLTU => rs1 < rs2
    case BGEU => rs1 >= rs2
    case _ => false
  }

  function JumpTarget(ty: InstrType, pc: bv32, rs1: bv32, imm: bv32): (r: bv32) {
    if ty == JAL then pc + imm else (rs1 + imm) & 0xFFFF_FFFE
  }

  function BranchTarget(pc: bv32, imm: bv32): (r: bv32) { pc + imm }

  /** Address of the following instruction. */
  function NextPc(pc: bv32, compressed: bool): (r: bv32) { if compressed then pc + 2 else pc + 4 }

  predicate OddPc(pc: bv32) { pc & 1 != 0 }

  function RegWord(r: Reg): (w: bv32) { r as bv32 }

  /** Operand of a CSR instruction: a register, or the register number itself. */
  function CsrVal(i: Instr, rs1Val: bv32): (r: bv32) {
    if i.ty.CSRRWI? || i.ty.CSRRSI? || i.ty.CSRRCI? then RegWord(i.rs1) else rs1Val
  }

  function MulDivWord(ty: InstrType, x: Mext.Word, y: Mext.Word): (r: Mext.Word) {
    match ty
    case MUL => Mext.Mul(x, y)
    case MULH => Mext.Mulh(x, y)
    case MULHSU => Mext.Mulhsu(x, y)
    case MULHU => Mext.Mulhu(x, y)
    case DIV => Mext.Div(x, y)
    case DIVU => Mext.Divu(x, y)
    case REM => Mext.Rem(x, y)
    case _ => Mext.Remu(x, y)
  }

  function ToWord(a: bv32): (r: Mext.Word) { a as int }

  function FromWord(x: Mext.Word): (r: bv32) { x as bv32 }

  function MulDivResult(ty: InstrType, a: bv32, b: bv32): (r: bv32) {
    FromWord(MulDivWord(ty, ToWord(a), ToWord(b)))
  }

  function SignExtend8(v: bv32): (r: bv32) { (v ^ 0x80) - 0x80 }

  function SignExtend16(v: bv32): (r: bv32) { (v ^ 0x8000) - 0x8000 }

  /** Load data as it reaches the register file. */
  function LoadValue(ty: InstrType, rdata: bv32): (r: bv32) {
    if ty.LB? then SignExtend8(rdata) else if ty.LH? then SignExtend16(rdata) else rdata
  }
}
