/** The execute stage between two clock edges (src/exec.hpp:410-975). */
module Exec {
  import opened Options
  import opened Isa
  import opened Memory
  import opened Mmu
  import H = Hart

  /** The ID/EX register: an instruction with its operands, or a bubble. */
  datatype IdEx = IdEx(flush: bool, pc: bv32, instr: Instr, rs1Val: bv32, rs2Val: bv32)

  const BUBBLE := IdEx(true, 0, BLANK, 0, 0)

  /** Wires from outside the core: interrupt lines and the counter registers. */
  datatype Env = Env(wires: bv32, counters: map<H.CsrAddr, bv32>)

  datatype In = In(
    x: IdEx, exPc: bv32, wbStall: bool, rsp: MmuRsp, mulAck: bool, mulResult: bv32, hart: H.Hart, env: Env)

  /** The step variables the stage assigns. */
  datatype Ctl = Ctl(
    onTrap: bool, cause: bv32, tval: bv32, stall: bool, flush: bool, taken: bool,
    ret: Option<bool>, csr: bool, rdVal: bv32, npc: bv32, memReq: bool, mulReq: Option<bool>)

  /** Carry on at `npc` with result `rdVal`. */
  function Plain(npc: bv32, rdVal: bv32): (c: Ctl)
    ensures !c.stall && !c.memReq && c.mulReq == None
  {
    Ctl(false, 0, 0, false, false, false, None, false, rdVal, npc, false, None)
  }

  function Raise(npc: bv32, cause: bv32, tval: bv32): (c: Ctl)
    ensures !c.stall && !c.memReq && c.mulReq == None
  {
    Ctl(true, cause, tval, false, false, false, None, false, 0, npc, false, None)
  }

  /** A taken jump; an odd target traps instead. */
  function Goto(target: bv32, rdVal: bv32): (c: Ctl)
    ensures !c.stall && !c.memReq && c.mulReq == None
  {
    var odd := OddPc(target);
    Ctl(odd, 0, if odd then target else 0, false, false, true, None, false, rdVal, target, false, None)
  }

  function Flushing(npc: bv32, ret: Option<bool>): (c: Ctl)
    ensures !c.stall && !c.memReq && c.mulReq == None
  {
    Ctl(false, 0, 0, false, true, false, ret, false, 0, npc, false, None)
  }

  function Waiting(npc: bv32, rdVal: bv32, stall: bool, mulReq: Option<bool>): (c: Ctl)
    ensures !c.onTrap && !c.flush && c.ret == None && !c.csr && !c.memReq && c.mulReq == mulReq
  {
    Ctl(false, 0, 0, stall, false, false, None, false, rdVal, npc, false, mulReq)
  }

  const ILLEGAL: bv32 := 2

  function EcallCause(priv: bv32): (r: bv32) { if priv == H.M then 11 else if priv == H.S then 9 else 8 }

  predicate SfenceIllegal(h: H.Hart) { h.priv == H.U || (h.priv == H.S && H.TvmBit(h.Status())) }

  predicate WfiIllegal(h: H.Hart) { h.priv < H.S || (h.priv == H.S && H.TwBit(h.Status())) }

  predicate SretIllegal(h: H.Hart) { h.priv == H.S && H.TsrBit(h.Status()) }

  /** WFI sleeps until some enabled interrupt is pending, taken or not. */
  predicate Asleep(h: H.Hart, wires: bv32) { h.Get(H.MIE) & H.GetMip(h, wires) == 0 }

  function OpKind(ty: InstrType): (r: H.Op) {
    match ty
    case CSRRW | CSRRWI => H.Write
    case CSRRS | CSRRSI => H.SetBits
    case _ => H.ClearBits
  }

  /** Privilege, read-only registers, and TVM for satp. */
  predicate CsrLegal(h: H.Hart, i: Instr, val: bv32) {
    && H.Reaches(h.priv, i.csrAddr)
    && (!H.IsReadOnly(i.csrAddr) || (OpKind(i.ty) != H.Write && val == 0))
    && (i.csrAddr == H.SATP ==> h.priv > H.S || (h.priv == H.S && !H.TvmBit(h.Status())))
  }

  /** Writes that change translation or protection empty the pipeline. */
  predicate CsrFlushes(h: H.Hart, a: H.CsrAddr) {
    a == H.SATP || (h.priv == H.M && (H.IsPmpConfig(a) || H.IsPmpAddr(a)))
  }

  /** The instruction in EX (lines 453-924). */
  function Execute(n: In): (c: Ctl) {
    var i := n.x.instr;
    if i.onTrap then Raise(NextPc(n.exPc, i.compressed), i.cause, i.tval) else ExecuteKind(n, KindOf(i.ty))
  }

  function ExecuteKind(n: In, k: Kind): (c: Ctl) {
    var x, h := n.x, n.hart;
    var i := x.instr;
    var next := NextPc(n.exPc, i.compressed);
    match k
    case Alu => Plain(next, AluResult(i.ty, x.pc, x.rs1Val, x.rs2Val, i.imm))
    case MulDiv => Waiting(next, n.mulResult, !n.mulAck, Some(!n.wbStall))
    case LoadStore =>
      Ctl(n.rsp.fault != 0, n.rsp.fault, n.rsp.tval, !n.rsp.ack, false, false, None, false, 0, next, !n.wbStall, None)
    case Jump => Goto(JumpTarget(i.ty, x.pc, x.rs1Val, i.imm), NextPc(x.pc, i.compressed))
    case Branch =>
      var target := BranchTarget(x.pc, i.imm);
      if BranchTaken(i.ty, x.rs1Val, x.rs2Val) then Goto(target, target) else Plain(next, 0)
    case FenceI => Flushing(next, None)
    case Sfence => if SfenceIllegal(h) then Raise(next, ILLEGAL, 0) else Flushing(next, None)
    case Ecall => Raise(next, EcallCause(h.priv), 0)
    case Ebreak => Raise(next, 3, x.pc)
    case Wfi => if WfiIllegal(h) then Raise(next, ILLEGAL, 0) else Waiting(next, 0, Asleep(h, n.env.wires), None)
    case Sret => if SretIllegal(h) then Raise(next, ILLEGAL, 0) else Flushing(next, Some(false))
    case Mret => Flushing(next, Some(true))
    case CsrOp =>
      if !CsrLegal(h, i, CsrVal(i, x.rs1Val)) then Raise(next, ILLEGAL, i.inst)
      else Ctl(false, 0, 0, false, CsrFlushes(h, i.csrAddr), false, None, true,
               H.CsrRead(h, n.env.wires, n.env.counters, i.csrAddr), next, false, None)
    case Invalid => Raise(next, ILLEGAL, i.inst)
    case Nop => Plain(next, 0)
  }

  /** Interrupts wait for a multi-cycle instruction, except WFI. */
  function Interrupted(n: In): (r: Option<bv32>) {
    if !n.wbStall || n.x.instr.ty == WFI then H.CheckInterrupt(n.hart, n.env.wires) else None
  }

  function Control(n: In): (c: Ctl) {
    match Interrupted(n)
    case Some(cause) => Raise(n.exPc, cause, 0)
    case None => if n.x.flush then Plain(n.exPc, 0) else Execute(n)
  }

  datatype Out = Out(
    npc: bv32, stall: bool, flush: bool, taken: bool, write: bool, val: bv32, rd: Reg, req: Req, mulReq: Option<bool>,
    eff: H.Effect)

  /** Address and data of the memory request, whatever the instruction. */
  function DataReq(i: Instr, rs1Val: bv32, rs2Val: bv32): (q: Req) {
    Req(false, H.NatOf(AccessAddress(i.isAtomic, rs1Val, i.imm)), rs2Val, SizeOf(i.memSize),
        i.isLoad, i.isStore, i.isAtomic, i.amoOp)
  }

  /** Atomics have no offset. */
  function AccessAddress(atomic: bool, base: bv32, offset: bv32): (a: bv32) { if atomic then base else base + offset }

  function SizeOf(b: bv8): (n: nat) { b as int }

  function NpcOf(n: In, c: Ctl): (r: bv32) {
    if c.onTrap then H.TrapPc(n.hart, c.cause)
    else if c.ret.Some? then H.ReturnPc(n.hart, c.ret.value)
    else if c.stall then n.exPc
    else c.npc
  }

  /** Whether a result leaves the stage at all. */
  predicate Produces(c: Ctl) { !c.onTrap && !c.ret.Some? && !c.stall }

  /** Any answer on the memory wires takes precedence over the computed result. */
  function ValOf(n: In, c: Ctl): (r: bv32) {
    if !Produces(c) then 0 else if n.rsp.ack then LoadValue(n.x.instr.ty, n.rsp.rdata) else c.rdVal
  }

  /** The PC a trap saves: ECALL takes its own record's. */
  function EpcOf(n: In): (r: bv32) {
    if Interrupted(n) == None && !n.x.flush && !n.x.instr.onTrap && n.x.instr.ty == ECALL then n.x.pc else n.exPc
  }

  /** What `exec_seq` will do at the edge. */
  function EffectOf(n: In, c: Ctl): (r: H.Effect) {
    if c.onTrap then H.TakeTrap(c.cause, EpcOf(n), c.tval)
    else if c.ret.Some? then H.TakeReturn(c.ret.value)
    else if c.csr then H.UpdateCsr(n.x.instr.csrAddr, OpKind(n.x.instr.ty), c.rdVal, CsrVal(n.x.instr, n.x.rs1Val))
    else H.NoEffect
  }

  /** The final multiplexers (lines 927-974). */
  function Comb(n: In): (o: Out) {
    var c, i := Control(n), n.x.instr;
    Out(NpcOf(n, c), c.stall, c.onTrap || c.flush, c.taken, Produces(c) && i.writesRd, ValOf(n, c), i.rd,
        DataReq(i, n.x.rs1Val, n.x.rs2Val).(ack := c.memReq), c.mulReq, EffectOf(n, c))
  }

  /** Causes that are not interrupts. */
  predicate SmallCauses(n: In) { !H.IsInterrupt(n.x.instr.cause) && !H.IsInterrupt(n.rsp.fault) }

  lemma SmallConstants()
    ensures !H.IsInterrupt(0) && !H.IsInterrupt(2) && !H.IsInterrupt(3)
    ensures forall p :: !H.IsInterrupt(EcallCause(p))
  {
  }

  /** What an instruction of each kind can ask of the privilege machine. */
  lemma KindPossible(n: In, k: Kind)
    requires SmallCauses(n)
    ensures var c := ExecuteKind(n, k);
            && (c.onTrap ==> !H.IsInterrupt(c.cause))
            && (c.ret == Some(false) ==> !SretIllegal(n.hart))
            && (c.csr ==> !c.onTrap && CsrLegal(n.hart, n.x.instr, CsrVal(n.x.instr, n.x.rs1Val))
                          && c.rdVal == H.CsrRead(n.hart, n.env.wires, n.env.counters, n.x.instr.csrAddr))
  {
    hide H.IsInterrupt, H.CsrRead, CsrLegal, AluResult, JumpTarget, BranchTarget, BranchTaken, OddPc, NextPc,
      EcallCause, CsrFlushes, Asleep, WfiIllegal, SfenceIllegal, SretIllegal, CsrVal;
    SmallConstants();
    match k
    case Alu =>
    case MulDiv =>
    case LoadStore =>
    case Jump =>
    case Branch =>
    case FenceI =>
    case Sfence =>
    case Ecall =>
    case Ebreak =>
    case Wfi =>
    case Sret =>
    case Mret =>
    case CsrOp =>
    case Invalid =>
    case Nop =>
  }

  predicate CtlPossible(n: In, c: Ctl) {
    && (c.onTrap && H.IsInterrupt(c.cause) ==> H.CheckInterrupt(n.hart, n.env.wires) == Some(c.cause))
    && (c.ret == Some(false) ==> !SretIllegal(n.hart))
    && (c.csr ==> !c.onTrap && CsrLegal(n.hart, n.x.instr, CsrVal(n.x.instr, n.x.rs1Val))
                  && c.rdVal == H.CsrRead(n.hart, n.env.wires, n.env.counters, n.x.instr.csrAddr))
  }

  lemma ControlPossible(n: In)
    requires SmallCauses(n)
    ensures CtlPossible(n, Control(n))
  {
    hide H.IsInterrupt, H.CheckInterrupt, H.CsrRead, ExecuteKind, NextPc, CsrVal, KindOf, SretIllegal, CsrLegal;
    KindPossible(n, KindOf(n.x.instr.ty));
  }

  lemma CtlEffect(n: In, c: Ctl)
    requires CtlPossible(n, c)
    ensures H.Possible(n.hart, n.env.wires, n.env.counters, EffectOf(n, c))
  {
    hide H.IsInterrupt, H.CheckInterrupt, H.CsrRead, CsrVal, OpKind, H.TsrBit, H.Reaches, H.IsReadOnly, H.TvmBit;
  }

  /** The effect on the privilege machine is always one it allows there. */
  lemma EffectPossible(n: In)
    requires SmallCauses(n)
    ensures H.Possible(n.hart, n.env.wires, n.env.counters, Comb(n).eff)
  {
    hide Control, CtlPossible, H.Possible, EffectOf, NpcOf, ValOf, DataReq;
    ControlPossible(n);
    CtlEffect(n, Control(n));
  }

  /** Section 3.3.2 of the Privileged Architecture: MRET in M mode only, SRET in M
      mode, and in S mode unless TSR is set. */
  predicate ReturnLegal(h: H.Hart, mret: bool) {
    if mret then h.priv == H.M else h.priv == H.M || (h.priv == H.S && !H.TsrBit(h.Status()))
  }

  /** The stage accepts the return an instruction asks for. */
  predicate ReturnAccepted(n: In, mret: bool) { !ExecuteKind(n, if mret then Mret else Sret).onTrap }

  /** The stage agrees with the architecture except that it takes MRET below M mode
      and SRET in U mode. */
  lemma ReturnAcceptedIff(n: In, mret: bool)
    requires n.hart.priv == H.U || n.hart.priv == H.S || n.hart.priv == H.M
    ensures ReturnAccepted(n, mret) == ReturnLegal(n.hart, mret)
            <==> if mret then n.hart.priv == H.M else n.hart.priv != H.U
    ensures ReturnLegal(n.hart, mret) ==> ReturnAccepted(n, mret)
  {
    hide H.TsrBit, NextPc;
  }

  /** A stalled step asks for nothing else. */
  predicate StallsClean(c: Ctl) { c.stall ==> !c.onTrap && !c.flush && c.ret == None && !c.csr }

  lemma KindStall(n: In, k: Kind)
    requires n.rsp.fault != 0 ==> n.rsp.ack
    ensures StallsClean(ExecuteKind(n, k))
  {
    hide Plain, Raise, Goto, Flushing, Waiting, H.CsrRead, CsrLegal, AluResult, JumpTarget, BranchTarget, BranchTaken,
      OddPc, NextPc, EcallCause, CsrFlushes, Asleep, WfiIllegal, SfenceIllegal, SretIllegal, CsrVal;
    match k
    case Alu =>
    case MulDiv =>
    case LoadStore =>
    case Jump =>
    case Branch =>
    case FenceI =>
    case Sfence =>
    case Ecall =>
    case Ebreak =>
    case Wfi =>
    case Sret =>
    case Mret =>
    case CsrOp =>
    case Invalid =>
    case Nop =>
  }

  /** A stalled stage never flushes, provided a faulting answer is an answer. */
  lemma StallOrFlush(n: In)
    requires n.rsp.fault != 0 ==> n.rsp.ack
    ensures Comb(n).stall ==> !Comb(n).flush && Comb(n).eff == H.NoEffect
  {
    hide H.CheckInterrupt, NpcOf, ValOf, ExecuteKind, NextPc, DataReq, CsrVal, KindOf, OpKind;
    KindStall(n, KindOf(n.x.instr.ty));
  }
}
