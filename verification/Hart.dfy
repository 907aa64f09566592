/** Privilege, control registers, traps, returns and interrupts
    (src/exec.hpp:97-109, 359-408, 977-1113, 1157-1305; src/csr_cfg.hpp). */
module Hart {
  import opened Options
  import Pmp

  const U: bv32 := 0
  const S: bv32 := 1
  const M: bv32 := 3

  // ------------------------------------------------------- register addresses

  type CsrAddr = a: int | 0 <= a < 4096

  const MSTATUS: CsrAddr := 0x300
  const MISA: CsrAddr := 0x301
  const MEDELEG: CsrAddr := 0x302
  const MIDELEG: CsrAddr := 0x303
  const MIE: CsrAddr := 0x304
  const MTVEC: CsrAddr := 0x305
  const MEPC: CsrAddr := 0x341
  const MCAUSE: CsrAddr := 0x342
  const MTVAL: CsrAddr := 0x343
  const MIP: CsrAddr := 0x344
  const SSTATUS: CsrAddr := 0x100
  const SIE: CsrAddr := 0x104
  const STVEC: CsrAddr := 0x105
  const SEPC: CsrAddr := 0x141
  const SCAUSE: CsrAddr := 0x142
  const STVAL: CsrAddr := 0x143
  const SIP: CsrAddr := 0x144
  const SATP: CsrAddr := 0x180

  // ------------------------------------------------------------- mstatus bits

  predicate SieBit(m: bv32) { m & 0x2 != 0 }
  predicate MieBit(m: bv32) { m & 0x8 != 0 }
  predicate SpieBit(m: bv32) { m & 0x20 != 0 }
  predicate MpieBit(m: bv32) { m & 0x80 != 0 }
  predicate SppBit(m: bv32) { m & 0x100 != 0 }
  function Mpp(m: bv32): (r: bv32) { (m & 0x1800) >> 11 }
  predicate MprvBit(m: bv32) { m & 0x2_0000 != 0 }
  predicate SumBit(m: bv32) { m & 0x4_0000 != 0 }
  predicate MxrBit(m: bv32) { m & 0x8_0000 != 0 }
  predicate TvmBit(m: bv32) { m & 0x10_0000 != 0 }
  predicate TwBit(m: bv32) { m & 0x20_0000 != 0 }
  predicate TsrBit(m: bv32) { m & 0x40_0000 != 0 }

  // -------------------------------------------------------------------- state

  /** Registers never written hold zero. */
  datatype Hart = Hart(priv: bv32, csr: map<CsrAddr, bv32>, pmp: Pmp.Regs)
  {
    function Get(a: CsrAddr): (r: bv32) { if a in csr then csr[a] else 0 }
    function Set(a: CsrAddr, v: bv32): (r: Hart) { this.(csr := csr[a := v]) }
    function Status(): (r: bv32) { Get(MSTATUS) }
  }

  /** Reset state (lines 65, 74-96): M mode, MPP = M; all else zero but misa. */
  ghost const RESET := Hart(M, map[MSTATUS := 0x1800, MISA := 0x4014_1105], Pmp.INIT)

  // -------------------------------------------------------- traps and returns

  predicate IsInterrupt(cause: bv32) { cause & 0x8000_0000 != 0 }

  function CauseId(cause: bv32): (r: bv32) { cause & 0x3ff }

  /** Bit `id` of a delegation register; the shift is defined only below 32,
      and every cause in use is. */
  predicate Delegated(deleg: bv32, id: bv32) { id < 32 && (deleg >> id) & 1 != 0 }

  /** Whether a trap is handled in S mode; interrupts need SIE as well. */
  predicate TrapToS(h: Hart, cause: bv32) {
    && h.priv < M
    && (if IsInterrupt(cause)
        then SieBit(h.Status()) && Delegated(h.Get(MIDELEG), CauseId(cause))
        else Delegated(h.Get(MEDELEG), CauseId(cause)))
  }

  function Even(x: bv32): (r: bv32) { x & 0xFFFF_FFFE }

  function Vector(tvec: bv32, cause: bv32): (r: bv32) {
    if tvec & 1 != 0 then (tvec & 0xFFFF_FFFC) + 4 * CauseId(cause) else Even(tvec)
  }

  function TrapPc(h: Hart, cause: bv32): (r: bv32) {
    if TrapToS(h, cause) then Vector(h.Get(STVEC), cause) else Vector(h.Get(MTVEC), cause)
  }

  function STrapStatus(m: bv32, priv: bv32): (r: bv32) {
    var a := (m & 0xFFFF_FFDF) | (((m & 0x2) >> 1) << 5);
    var b := a & 0xFFFF_FFFD;
    (b & 0xFFFF_FEFF) | SppField(priv)
  }

  function SppField(priv: bv32): (r: bv32) { if priv == 1 then 0x100 else 0 }

  /** MPP is ORed in, not replaced. */
  function MTrapStatus(m: bv32, priv: bv32): (r: bv32) {
    var a := (m & 0xFFFF_FF7F) | (((m & 0x8) >> 3) << 7);
    var b := a & 0xFFFF_FFF7;
    b | (priv << 11)
  }

  function Trap(h: Hart, cause: bv32, epc: bv32, tval: bv32): (r: Hart) {
    if TrapToS(h, cause) then
      h.Set(SCAUSE, cause).Set(SEPC, Even(epc)).Set(STVAL, tval)
       .Set(MSTATUS, STrapStatus(h.Status(), h.priv)).(priv := S)
    else
      h.Set(MCAUSE, cause).Set(MEPC, Even(epc)).Set(MTVAL, tval)
       .Set(MSTATUS, MTrapStatus(h.Status(), h.priv)).(priv := M)
  }

  /** Returning below M mode clears MPRV. */
  function WithoutMprv(m: bv32): (r: bv32) { if Mpp(m) != 3 then m & 0xFFFD_FFFF else m }

  function MretStatus(m: bv32): (r: bv32) {
    var b := WithoutMprv(m) & 0xFFFF_E7FF;
    b | (((b & 0x80) >> 7) << 3) | 0x80
  }

  function SretStatus(m: bv32): (r: bv32) {
    var a := m & 0xFFFD_FFFF;
    var b := a & 0xFFFF_FEFF;
    b | (((b & 0x20) >> 5) << 1) | 0x20
  }

  function Return(h: Hart, mret: bool): (r: Hart) {
    if mret then h.Set(MSTATUS, MretStatus(h.Status())).(priv := Mpp(h.Status()))
    else h.Set(MSTATUS, SretStatus(h.Status())).(priv := if SppBit(h.Status()) then 1 else 0)
  }

  function ReturnPc(h: Hart, mret: bool): (r: bv32) {
    Even(h.Get(if mret then MEPC else SEPC))
  }

  // --------------------------------------------------------------- interrupts

  /** Stored pending bits joined with the wires for STIP, MTIP, SEIP and MEIP. */
  function GetMip(h: Hart, wires: bv32): (r: bv32) { h.Get(MIP) | (wires & 0xAA0) }

  /** Index of the lowest set bit. */
  function Ctz(x: bv32): (r: bv32) {
    if x & 0x1 != 0 then 0 else if x & 0x2 != 0 then 1 else if x & 0x4 != 0 then 2 else if x & 0x8 != 0 then 3
    else if x & 0x10 != 0 then 4 else if x & 0x20 != 0 then 5 else if x & 0x40 != 0 then 6 else if x & 0x80 != 0 then 7
    else if x & 0x100 != 0 then 8 else if x & 0x200 != 0 then 9 else if x & 0x400 != 0 then 10 else if x & 0x800 != 0 then 11
    else if x & 0x1000 != 0 then 12 else if x & 0x2000 != 0 then 13 else if x & 0x4000 != 0 then 14 else if x & 0x8000 != 0 then 15
    else if x & 0x1_0000 != 0 then 16 else if x & 0x2_0000 != 0 then 17 else if x & 0x4_0000 != 0 then 18
    else if x & 0x8_0000 != 0 then 19 else if x & 0x10_0000 != 0 then 20 else if x & 0x20_0000 != 0 then 21
    else if x & 0x40_0000 != 0 then 22 else if x & 0x80_0000 != 0 then 23 else if x & 0x100_0000 != 0 then 24
    else if x & 0x200_0000 != 0 then 25 else if x & 0x400_0000 != 0 then 26 else if x & 0x800_0000 != 0 then 27
    else if x & 0x1000_0000 != 0 then 28 else if x & 0x2000_0000 != 0 then 29 else if x & 0x4000_0000 != 0 then 30
    else 31
  }

  /** Fixed priority: MEI, MSI, MTI, SEI, SSI, STI; any other bit as it is. */
  function Prioritise(f: bv32): (r: bv32) {
    if f & 0x800 != 0 then 0x800
    else if f & 0x8 != 0 then 0x8
    else if f & 0x80 != 0 then 0x80
    else if f & 0x200 != 0 then 0x200
    else if f & 0x2 != 0 then 0x2
    else if f & 0x20 != 0 then 0x20
    else f
  }

  predicate SEnabled(h: Hart) { (h.priv == S && SieBit(h.Status())) || h.priv < S }

  predicate MEnabled(h: Hart) { (h.priv == M && MieBit(h.Status())) || h.priv < M }

  function Pending(mip: bv32, wires: bv32, mie: bv32): (r: bv32) { (mip | (wires & 0xAA0)) & mie }

  /** Split by delegation: machine-level bits when `m`, supervisor-level bits when `s`. */
  function ByLevel(p: bv32, d: bv32, m: bool, s: bool): (r: bv32) {
    (if m then p & !d else 0) | (if s then p & d else 0)
  }

  function InterruptCause(id: bv32): (r: bv32) { 0x8000_0000 | id }

  /** Interrupts that may be taken now: enabled, pending, and their level open. */
  function Takeable(h: Hart, wires: bv32): (r: bv32) {
    ByLevel(Pending(h.Get(MIP), wires, h.Get(MIE)), h.Get(MIDELEG), MEnabled(h), SEnabled(h))
  }

  function CheckInterrupt(h: Hart, wires: bv32): (r: Option<bv32>) {
    var f := Takeable(h, wires);
    if f == 0 then None else Some(InterruptCause(Ctz(Prioritise(f))))
  }

  // ------------------------------------------------------------ CSR registers

  datatype Op = Write | SetBits | ClearBits

  /** Cycle, retired-instruction and time registers are not part of this state. */
  predicate IsCounter(a: CsrAddr) {
    a == 0xB00 || a == 0xB80 || a == 0xB02 || a == 0xB82 || a == 0xC00 || a == 0xC80 || a == 0xC01 || a == 0xC81
  }

  predicate IsFixed(a: CsrAddr) {
    a == 0x301 || a == 0x7A0 || a == 0x7A1 || a == 0x7A2 || a == 0x7A3 || a == 0x7A8 || a == 0xF14
  }

  predicate IsPmpConfig(a: CsrAddr) { 0x3A0 <= a && a < 0x3B0 }

  predicate IsPmpAddr(a: CsrAddr) { 0x3B0 <= a && a < 0x3F0 }

  predicate IsHardwiredZero(a: CsrAddr) { (0xB02 < a && a < 0xB20) || (0xB82 < a && a < 0xBA0) }

  function PrivLevel(p: bv32): (r: int) { if p == U then 0 else if p == S then 1 else if p == M then 3 else 2 }

  /** Address bits 9..8 give the lowest privilege that may name the register. */
  predicate Reaches(priv: bv32, a: CsrAddr) { a / 256 % 4 <= PrivLevel(priv) }

  predicate IsReadOnly(a: CsrAddr) { a / 1024 == 3 }

  function CsrMask(h: Hart, a: CsrAddr): (r: bv32) {
    if a == MSTATUS then 0x7FFE_19FF
    else if a == MIP then 0x202
    else if a == SSTATUS then 0xC_0122
    else if a == SIP then 0x2
    else if a == SIE then h.Get(MIDELEG)
    else if IsFixed(a) then 0
    else 0xFFFF_FFFF
  }

  function Replaced(mask: bv32, cur: bv32, val: bv32): (r: bv32) { (cur & !mask) | (val & mask) }

  function WithSet(mask: bv32, cur: bv32, val: bv32): (r: bv32) { cur | (val & mask) }

  function WithClear(mask: bv32, cur: bv32, val: bv32): (r: bv32) { cur & !(val & mask) }

  function Merge(op: Op, mask: bv32, cur: bv32, val: bv32): (r: bv32) {
    match op
    case Write => Replaced(mask, cur, val)
    case SetBits => WithSet(mask, cur, val)
    case ClearBits => WithClear(mask, cur, val)
  }

  function ConfigGroup(a: CsrAddr): (r: int)
    requires IsPmpConfig(a)
    ensures 0 <= r < 16
  {
    a - 0x3A0
  }

  function AddrIndex(a: CsrAddr): (r: int)
    requires IsPmpAddr(a)
    ensures 0 <= r < 64
  {
    a - 0x3B0
  }

  function WordOf(n: nat): (r: bv32)
    requires n < 0x1_0000_0000
  {
    n as bv32
  }

  function NatOf(w: bv32): (r: nat)
    ensures r < 0x1_0000_0000
  {
    w as int
  }

  function ConfigWord(p: Pmp.Regs, g: int): (r: bv32)
    requires 0 <= g < 16
  {
    ((p.cfg[4 * g + 3] as bv32) << 24) | ((p.cfg[4 * g + 2] as bv32) << 16)
    | ((p.cfg[4 * g + 1] as bv32) << 8) | (p.cfg[4 * g] as bv32)
  }

  /** Value a CSR instruction reads (lines 800-907); `counters` supplies the
      registers outside this state. */
  function CsrRead(h: Hart, wires: bv32, counters: map<CsrAddr, bv32>, a: CsrAddr): (r: bv32) {
    if a == MSTATUS then h.Status() & 0x7FFE_19FF
    else if a == MIP then GetMip(h, wires) & 0xAAA
    else if a == SSTATUS then h.Status() & 0xC_0122
    else if a == SIE then h.Get(MIE) & h.Get(MIDELEG)
    else if a == SIP then (h.Get(MIP) | (wires & 0x220)) & h.Get(MIDELEG)
    else if IsCounter(a) then (if a in counters then counters[a] else 0)
    else if IsPmpConfig(a) then ConfigWord(h.pmp, ConfigGroup(a))
    else if IsPmpAddr(a) then WordOf(h.pmp.addr[AddrIndex(a)])
    else h.Get(a)
  }

  /** Register update of a CSR instruction (lines 1053-1113); `cur` is the value read. */
  function CsrUpdate(h: Hart, a: CsrAddr, op: Op, cur: bv32, val: bv32): (r: Hart) {
    var mask := CsrMask(h, a);
    if a == SSTATUS then h.Set(MSTATUS, Merge(op, mask, h.Status(), val))
    else if a == SIE then h.Set(MIE, Merge(op, mask, h.Get(MIE), val))
    else if a == SIP || a == MIP then h.Set(MIP, Merge(op, mask, h.Get(MIP), val))
    else if IsCounter(a) || IsFixed(a) then h
    else if IsPmpConfig(a) && h.priv == M then
      h.(pmp := Pmp.UpdateConfig(h.pmp, ConfigGroup(a), Merge(op, mask, cur, val)))
    else if IsPmpAddr(a) && h.priv == M then
      h.(pmp := Pmp.UpdateAddr(h.pmp, AddrIndex(a), NatOf(Merge(op, mask, cur, val))))
    else if IsHardwiredZero(a) then h
    else h.Set(a, Merge(op, mask, cur, val))
  }

  // ------------------------------------------------- what one edge does to it

  datatype Effect =
    | NoEffect
    | TakeTrap(cause: bv32, epc: bv32, tval: bv32)
    | TakeReturn(mret: bool)
    | UpdateCsr(addr: CsrAddr, op: Op, cur: bv32, val: bv32)

  /** The rising-edge process `exec_seq` on this state. */
  function Step(h: Hart, e: Effect): (r: Hart) {
    match e
    case NoEffect => h
    case TakeTrap(cause, epc, tval) => Trap(h, cause, epc, tval)
    case TakeReturn(mret) => Return(h, mret)
    case UpdateCsr(a, op, cur, val) => CsrUpdate(h, a, op, cur, val)
  }

  /** The effects the execute stage can ask for in state `h`: an interrupt cause
      only when `check_interrupt` chose it, a register only within its privilege
      and with the value just read, SRET in S mode only when TSR is clear. */
  predicate Possible(h: Hart, wires: bv32, counters: map<CsrAddr, bv32>, e: Effect) {
    match e
    case NoEffect => true
    case TakeTrap(cause, _, _) => IsInterrupt(cause) ==> CheckInterrupt(h, wires) == Some(cause)
    case TakeReturn(mret) => mret || !(h.priv == S && TsrBit(h.Status()))
    case UpdateCsr(a, _, cur, _) => Reaches(h.priv, a) && cur == CsrRead(h, wires, counters, a)
  }
}
