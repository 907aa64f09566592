/** The machine a programmer sees: one instruction at a time, memory and
    multiplier instantaneous.  The reference for the pipeline. */
module Sequential {
  import opened Isa
  import opened Memory
  import opened Exec
  import Mmu
  import H = Hart

  type RegFile = s: seq<bv32> | |s| == 32 witness seq(32, _ => 0)

  datatype Arch = Arch(pc: bv32, regs: RegFile, hart: H.Hart, mem: Mem)

  /** x0 is not written. */
  function WriteReg(regs: RegFile, rd: Reg, v: bv32): (r: RegFile) { if rd == 0 then regs else regs[rd := v] }

  /** Trap taken at the current instruction. */
  function Trapped(a: Arch, cause: bv32, tval: bv32): (r: Arch) {
    a.(pc := H.TrapPc(a.hart, cause), hart := H.Trap(a.hart, cause, a.pc, tval))
  }

  /** Complete with result `v` and go on at `pc`. */
  function Retire(a: Arch, i: Instr, pc: bv32, v: bv32): (r: Arch) {
    a.(pc := pc, regs := if i.writesRd then WriteReg(a.regs, i.rd, v) else a.regs)
  }

  function Transfer(a: Arch, i: Instr, target: bv32, link: bv32): (r: Arch) {
    if OddPc(target) then Trapped(a, 0, target) else Retire(a, i, target, link)
  }

  function Load(a: Arch, i: Instr, q: Req): (r: Arch) {
    match Mmu.Access(a.hart, a.mem, q)
    case Fault(cause) => Trapped(a, cause, H.WordOf(q.addr))
    case Done(v, m) => Retire(a.(mem := m), i, NextPc(a.pc, i.compressed), LoadValue(i.ty, v))
  }

  function CsrStep(a: Arch, i: Instr, e: Env, val: bv32): (r: Arch) {
    if !CsrLegal(a.hart, i, val) then Trapped(a, ILLEGAL, i.inst)
    else
      var was := H.CsrRead(a.hart, e.wires, e.counters, i.csrAddr);
      Retire(a.(hart := H.CsrUpdate(a.hart, i.csrAddr, OpKind(i.ty), was, val)), i, NextPc(a.pc, i.compressed), was)
  }

  /** One instruction. */
  function Sem(a: Arch, i: Instr, e: Env): (r: Arch) {
    if i.onTrap then Trapped(a, i.cause, i.tval) else SemKind(a, i, e, KindOf(i.ty))
  }

  function SemKind(a: Arch, i: Instr, e: Env, k: Kind): (r: Arch) {
    var rs1, rs2 := a.regs[i.rs1], a.regs[i.rs2];
    var next := NextPc(a.pc, i.compressed);
    match k
    case Alu => Retire(a, i, next, AluResult(i.ty, a.pc, rs1, rs2, i.imm))
    case MulDiv => Retire(a, i, next, MulDivResult(i.ty, rs1, rs2))
    case LoadStore => Load(a, i, DataReq(i, rs1, rs2))
    case Jump => Transfer(a, i, JumpTarget(i.ty, a.pc, rs1, i.imm), next)
    case Branch =>
      if BranchTaken(i.ty, rs1, rs2) then Transfer(a, i, BranchTarget(a.pc, i.imm), BranchTarget(a.pc, i.imm))
      else Retire(a, i, next, 0)
    case FenceI => Retire(a, i, next, 0)
    case Sfence => if SfenceIllegal(a.hart) then Trapped(a, ILLEGAL, 0) else Retire(a, i, next, 0)
    case Ecall => Trapped(a, EcallCause(a.hart.priv), 0)
    case Ebreak => Trapped(a, 3, a.pc)
    case Wfi => if WfiIllegal(a.hart) then Trapped(a, ILLEGAL, 0) else Retire(a, i, next, 0)
    case Sret =>
      if SretIllegal(a.hart) then Trapped(a, ILLEGAL, 0)
      else a.(pc := H.ReturnPc(a.hart, false), hart := H.Return(a.hart, false))
    case Mret => a.(pc := H.ReturnPc(a.hart, true), hart := H.Return(a.hart, true))
    case CsrOp => CsrStep(a, i, e, CsrVal(i, rs1))
    case Invalid => Trapped(a, ILLEGAL, i.inst)
    case Nop => Retire(a, i, next, 0)
  }
}
