/** The pipelined core, one clock cycle at a time: the falling edge evaluates the
    execute stage, the rising edge moves every register at once (src/decode.hpp:
    343-412, src/exec.hpp:1318-1341, src/regfile.hpp:27-39, src/mext.hpp:23-83,
    src/mmu.hpp:134-436, src/memory.hpp:706-843). */
module Core {
  import opened Options
  import opened Isa
  import opened Memory
  import opened Mmu
  import opened Exec
  import opened Sequential
  import Sv32
  import H = Hart

  /** The write-back register. */
  datatype Wb = Wb(write: bool, val: bv32, rd: Reg, stall: bool)

  datatype Core = Core(
    x: IdEx, exPc: bv32, wb: Wb, regs: RegFile, hart: H.Hart,
    mulReq: bool, mulAck: bool, mulResult: bv32,
    mmu: Dmmu, exReq: Req, din: Req, dout: Rsp, mem: Mem)

  /** What fetch offers decode: nothing, or an instruction and its address. */
  datatype Slot = Slot(flush: bool, pc: bv32, instr: Instr)

  /** Everything that reaches the core from outside in one cycle. */
  datatype Input = Input(env: Env, slot: Slot, tlb: Option<Sv32.Leaf>)

  // ----------------------------------------------------------------- one cycle

  function Answered(s: Core): (r: MmuRsp) { Respond(s.mmu, s.dout, s.exReq) }

  function Stage(s: Core, e: Env): (n: In) {
    In(s.x, s.exPc, s.wb.stall, Answered(s), s.mulAck, s.mulResult, s.hart, e)
  }

  /** Register file write (`write_seq`). */
  function WriteBack(regs: RegFile, wb: Wb): (r: RegFile) {
    if wb.write && wb.rd != 0 then regs[wb.rd := wb.val] else regs
  }

  /** Operand selection: EX result, then write-back value, then the file. */
  function Forward(o: Out, wb: Wb, regs: RegFile, rs: Reg): (v: bv32) {
    if o.write && rs != 0 && rs == o.rd then o.val
    else if wb.write && rs != 0 && rs == wb.rd then wb.val
    else regs[rs]
  }

  /** Decode takes the slot only if it is the instruction EX wants next. */
  predicate Accepts(o: Out, slot: Slot) { !o.stall && !o.flush && o.npc == slot.pc && !slot.flush }

  function Decoded(s: Core, o: Out, slot: Slot): (x: IdEx) {
    if o.stall then s.x
    else if Accepts(o, slot) then
      IdEx(false, slot.pc, slot.instr, Forward(o, s.wb, s.regs, slot.instr.rs1), Forward(o, s.wb, s.regs, slot.instr.rs2))
    else BUBBLE
  }

  /** The request wire keeps its value unless an M instruction drives it. */
  function MulReq(s: Core, o: Out): (b: bool) { if o.mulReq.Some? then o.mulReq.value else s.mulReq }

  predicate MulStarts(s: Core, o: Out) { MulReq(s, o) && KindOf(s.x.instr.ty) == MulDiv }

  function Next(s: Core, i: Input): (t: Core) {
    var o := Comb(Stage(s, i.env));
    var mem := Commit(s.mem, s.din, s.dout);
    var mmu := Step(s.mmu, o.req, s.dout, o.flush, s.hart, i.tlb);
    var din := Presented(mmu);
    Core(
      Decoded(s, o, i.slot), o.npc, Wb(o.write, o.val, o.rd, o.stall), WriteBack(s.regs, s.wb), H.Step(s.hart, o.eff),
      MulReq(s, o), MulStarts(s, o), if MulStarts(s, o) then MulDivResult(s.x.instr.ty, s.x.rs1Val, s.x.rs2Val) else 0,
      mmu, o.req, din, if din == s.din then s.dout else MemAccess(mem, din), mem)
  }

  /** After reset: a bubble in EX, nothing in flight. */
  predicate Initial(s: Core) {
    && s.x == BUBBLE && !s.wb.write && !s.wb.stall && !s.mulReq && !s.mulAck
    && s.mmu == IDLE && s.din == NO_REQ && s.dout == NO_RSP
  }

  // ------------------------------------------------------ the architectural view

  /** Younger instructions see the register file with write-back already applied. */
  function Abs(s: Core): (a: Arch) { Arch(s.exPc, WriteBack(s.regs, s.wb), s.hart, s.mem) }

  /** What each program state fetches; arbitrary. */
  type Code = Arch -> Instr

  /** The request of the instruction in EX. */
  function ReqOf(x: IdEx): (q: Req) { DataReq(x.instr, x.rs1Val, x.rs2Val) }

  predicate IsKind(x: IdEx, k: Kind) { !x.flush && !x.instr.onTrap && KindOf(x.instr.ty) == k }

  /** The fetch side is truthful when its instruction enters EX, and a TLB hit is
      the leaf of the page tables. */
  ghost predicate Truthful(code: Code, s: Core, i: Input) {
    var o := Comb(Stage(s, i.env));
    && (Accepts(o, i.slot) ==> i.slot.instr == code(Abs(Next(s, i))))
    && TlbTrue(s.hart, s.mem, o.req, i.tlb)
  }

  /** The instruction in EX is the one at the architectural PC, with the
      architectural operands. */
  ghost predicate InStep(code: Code, s: Core) { Holds(code, s.x, Abs(s)) }

  ghost predicate Holds(code: Code, x: IdEx, a: Arch) {
    if x.flush then x == BUBBLE
    else x.pc == a.pc && x.instr == code(a) && x.rs1Val == a.regs[x.instr.rs1] && x.rs2Val == a.regs[x.instr.rs2]
  }

  /** Multi-cycle units work only for the instruction in EX, from its second
      cycle on. */
  predicate UnitsInStep(s: Core) {
    && s.din == Presented(s.mmu) && s.dout == MemAccess(s.mem, s.din)
    && (s.wb.stall ==> IsKind(s.x, LoadStore) || IsKind(s.x, MulDiv) || IsKind(s.x, Wfi))
    && (if s.wb.stall && IsKind(s.x, LoadStore)
        then Flight(s.mmu, s.hart, s.mem, ReqOf(s.x)) && s.exReq.addr == ReqOf(s.x).addr
        else Idle(s.mmu))
    && (if s.wb.stall && IsKind(s.x, MulDiv)
        then s.mulAck && s.mulResult == MulDivResult(s.x.instr.ty, s.x.rs1Val, s.x.rs2Val)
        else !s.mulReq && !s.mulAck)
  }

  ghost predicate Inv(code: Code, s: Core) { InStep(code, s) && UnitsInStep(s) }

  /** What one cycle means architecturally. */
  datatype Fate = Stutter | Interrupt(cause: bv32) | Executes

  function FateOf(s: Core, e: Env): (f: Fate) {
    var n := Stage(s, e);
    match Interrupted(n)
    case Some(c) => Interrupt(c)
    case None => if s.x.flush || Comb(n).stall then Stutter else Executes
  }

  function Meaning(a: Arch, f: Fate, code: Code, e: Env): (r: Arch) {
    match f
    case Stutter => a
    case Interrupt(c) => Trapped(a, c, 0)
    case Executes => Sem(a, code(a), e)
  }

  // ---------------------------------------------------------------- forwarding

  lemma ForwardCorrect(o: Out, wb: Wb, regs: RegFile, rs: Reg)
    ensures Forward(o, wb, regs, rs) == WriteBack(WriteBack(regs, wb), Wb(o.write, o.val, o.rd, o.stall))[rs]
  {
  }

  /** Register view after the edge. */
  lemma RegsAfter(s: Core, i: Input)
    ensures var o := Comb(Stage(s, i.env));
            Abs(Next(s, i)).regs == if o.write then WriteReg(Abs(s).regs, o.rd, o.val) else Abs(s).regs
  {
    hide Comb, Step, Commit, MemAccess, H.Step, MulDivResult, Decoded;
  }

  // -------------------------------------------- a completing instruction = Sem

  /** The stage holds instruction `i` of state `a` and every unit it needs has answered. */
  predicate Ready(n: In, a: Arch, i: Instr) {
    && n.x.instr == i && !n.x.flush && n.x.pc == a.pc && n.exPc == a.pc && n.hart == a.hart
    && n.x.rs1Val == a.regs[i.rs1] && n.x.rs2Val == a.regs[i.rs2]
    && (if IsKind(n.x, LoadStore) then Answers(n.rsp, ReqOf(n.x), Access(a.hart, a.mem, ReqOf(n.x))) else !n.rsp.ack)
    && (IsKind(n.x, MulDiv) ==> n.mulAck && n.mulResult == MulDivResult(i.ty, n.x.rs1Val, n.x.rs2Val))
  }

  /** Architectural effect of control outputs `c`. */
  function Effected(a: Arch, n: In, c: Ctl, mem: Mem): (r: Arch) {
    Arch(NpcOf(n, c),
         if Produces(c) && n.x.instr.writesRd then WriteReg(a.regs, n.x.instr.rd, ValOf(n, c)) else a.regs,
         H.Step(a.hart, EffectOf(n, c)), mem)
  }

  function MemOf(a: Arch, n: In): (m: Mem) {
    if IsKind(n.x, LoadStore) then MemAfter(a.mem, Access(a.hart, a.mem, ReqOf(n.x))) else a.mem
  }

  lemma RaiseIsTrapped(a: Arch, n: In, npc: bv32, cause: bv32, tval: bv32)
    requires n.exPc == a.pc && EpcOf(n) == a.pc && n.hart == a.hart
    ensures Effected(a, n, Raise(npc, cause, tval), a.mem) == Trapped(a, cause, tval)
  {
    hide H.TrapPc, H.Trap, CsrVal, EpcOf;
  }

  lemma PlainIsRetire(a: Arch, n: In, npc: bv32, v: bv32)
    requires n.hart == a.hart && !n.rsp.ack
    ensures Effected(a, n, Plain(npc, v), a.mem) == Retire(a, n.x.instr, npc, v)
    ensures forall r: Option<bool> :: Effected(a, n, Waiting(npc, v, false, r), a.mem) == Retire(a, n.x.instr, npc, v)
  {
    hide CsrVal;
  }

  lemma FlushIsRetire(a: Arch, n: In, npc: bv32)
    requires n.hart == a.hart && !n.rsp.ack
    ensures Effected(a, n, Flushing(npc, None), a.mem) == Retire(a, n.x.instr, npc, 0)
  {
    hide CsrVal;
  }

  lemma ReturnIsReturn(a: Arch, n: In, npc: bv32, mret: bool)
    requires n.hart == a.hart
    ensures Effected(a, n, Flushing(npc, Some(mret)), a.mem)
            == a.(pc := H.ReturnPc(a.hart, mret), hart := H.Return(a.hart, mret))
  {
    hide H.ReturnPc, H.Return, CsrVal;
  }

  lemma GotoIsTransfer(a: Arch, n: In, target: bv32, link: bv32)
    requires n.exPc == a.pc && EpcOf(n) == a.pc && n.hart == a.hart && !n.rsp.ack
    ensures Effected(a, n, Goto(target, link), a.mem) == Transfer(a, n.x.instr, target, link)
  {
    hide H.TrapPc, H.Trap, CsrVal, OddPc, EpcOf;
  }

  lemma CsrIsCsrStep(a: Arch, n: In, i: Instr)
    requires Ready(n, a, i) && !i.onTrap && KindOf(i.ty) == CsrOp
    ensures Effected(a, n, ExecuteKind(n, CsrOp), a.mem) == CsrStep(a, i, n.env, CsrVal(i, n.x.rs1Val))
  {
    hide KindOf, OpKind, CsrVal, CsrLegal, CsrFlushes, NextPc, H.CsrRead, H.CsrUpdate, H.TrapPc, H.Trap;
    if !CsrLegal(a.hart, i, CsrVal(i, n.x.rs1Val)) {
      RaiseIsTrapped(a, n, NextPc(n.exPc, i.compressed), ILLEGAL, i.inst);
    }
  }

  lemma AccessIsLoad(a: Arch, n: In, i: Instr)
    requires Ready(n, a, i) && IsKind(n.x, LoadStore)
    ensures Effected(a, n, ExecuteKind(n, LoadStore), MemOf(a, n)) == Load(a, i, ReqOf(n.x))
  {
    hide KindOf, CsrVal, NextPc, LoadValue, H.TrapPc, H.Trap, Access, H.WordOf;
    var q := ReqOf(n.x);
    match Access(a.hart, a.mem, q)
    case Fault(c) =>
    case Done(v, m) =>
  }

  /** A stage that has all it needs and does not stall does what the program
      asks, kind by kind. */
  lemma CompletesKind(a: Arch, n: In, i: Instr, k: Kind)
    requires Ready(n, a, i) && !i.onTrap && KindOf(i.ty) == k && !ExecuteKind(n, k).stall
    ensures Effected(a, n, ExecuteKind(n, k), MemOf(a, n)) == SemKind(a, i, n.env, k)
  {
    hide KindOf, Effected, Trapped, Retire, Transfer, CsrStep, Load, Raise, Plain, Goto, Flushing, NextPc, AluResult,
      MulDivResult, JumpTarget, BranchTarget, BranchTaken, EcallCause, SfenceIllegal, WfiIllegal, SretIllegal,
      CsrLegal, CsrVal, CsrFlushes, Asleep, H.CsrRead, DataReq, Answers, Access;
    var next := NextPc(a.pc, i.compressed);
    match k
    case Alu => PlainIsRetire(a, n, next, AluResult(i.ty, a.pc, n.x.rs1Val, n.x.rs2Val, i.imm));
    case MulDiv => PlainIsRetire(a, n, next, n.mulResult);
    case LoadStore => AccessIsLoad(a, n, i);
    case Jump => GotoIsTransfer(a, n, JumpTarget(i.ty, a.pc, n.x.rs1Val, i.imm), next);
    case Branch =>
      GotoIsTransfer(a, n, BranchTarget(a.pc, i.imm), BranchTarget(a.pc, i.imm));
      PlainIsRetire(a, n, next, 0);
    case FenceI => FlushIsRetire(a, n, next);
    case Sfence =>
      RaiseIsTrapped(a, n, next, ILLEGAL, 0);
      FlushIsRetire(a, n, next);
    case Ecall => RaiseIsTrapped(a, n, next, EcallCause(a.hart.priv), 0);
    case Ebreak => RaiseIsTrapped(a, n, next, 3, a.pc);
    case Wfi =>
      RaiseIsTrapped(a, n, next, ILLEGAL, 0);
      PlainIsRetire(a, n, next, 0);
    case Sret =>
      RaiseIsTrapped(a, n, next, ILLEGAL, 0);
      ReturnIsReturn(a, n, next, false);
    case Mret => ReturnIsReturn(a, n, next, true);
    case CsrOp => CsrIsCsrStep(a, n, i);
    case Invalid => RaiseIsTrapped(a, n, next, ILLEGAL, i.inst);
    case Nop => PlainIsRetire(a, n, next, 0);
  }

  lemma Completes(a: Arch, n: In, i: Instr)
    requires Ready(n, a, i) && Interrupted(n) == None && !Control(n).stall
    ensures Effected(a, n, Control(n), MemOf(a, n)) == Sem(a, i, n.env)
  {
    hide KindOf, Effected, Trapped, SemKind, Raise, NextPc, ExecuteKind, Interrupted, Answers, Access;
    if i.onTrap {
      RaiseIsTrapped(a, n, NextPc(a.pc, i.compressed), i.cause, i.tval);
    } else {
      CompletesKind(a, n, i, KindOf(i.ty));
    }
  }

  // ------------------------------------------------------------ all of the edge

  lemma AbsNext(s: Core, i: Input)
    ensures var n := Stage(s, i.env);
            Abs(Next(s, i)) == Effected(Abs(s), n, Control(n), Commit(s.mem, s.din, s.dout))
  {
    hide Control, NpcOf, ValOf, EffectOf, Produces, Step, Commit, MemAccess, H.Step, MulDivResult, DataReq, Decoded,
      WriteBack;
    RegsAfter(s, i);
  }

  /** Whatever the edge does, the instruction it puts into EX fits the new state. */
  lemma NewInstrHolds(code: Code, s: Core, i: Input)
    requires Inv(code, s) && Truthful(code, s, i)
    requires Comb(Stage(s, i.env)).stall ==> Abs(Next(s, i)) == Abs(s)
    ensures InStep(code, Next(s, i))
  {
    hide Comb, Step, Commit, MemAccess, H.Step, MulDivResult, UnitsInStep, TlbTrue, WriteBack, Forward, Stage;
    var o := Comb(Stage(s, i.env));
    if !o.stall && Accepts(o, i.slot) {
      ForwardCorrect(o, s.wb, s.regs, i.slot.instr.rs1);
      ForwardCorrect(o, s.wb, s.regs, i.slot.instr.rs2);
    }
  }

  /** An idle unit says nothing and changes nothing. */
  lemma IdleIsSilent(s: Core)
    requires UnitsInStep(s) && Idle(s.mmu)
    ensures !Answered(s).ack && Answered(s).fault == 0 && Commit(s.mem, s.din, s.dout) == s.mem && !s.dout.ack
  {
    hide Flight, MulDivResult, IsKind, Read, DeviceAddress, ScResult, Write, AmoResult, Reserve;
  }

  /** The wires to memory stay consistent over an edge that changes nothing or
      withdraws the request. */
  lemma WiresConsistent(s: Core, i: Input)
    requires s.dout == MemAccess(s.mem, s.din)
    requires Next(s, i).mem == s.mem || !Next(s, i).din.ack
    ensures var t := Next(s, i); t.din == Presented(t.mmu) && t.dout == MemAccess(t.mem, t.din)
  {
    hide Comb, Step, Commit, H.Step, MulDivResult, Decoded, Presented, Read, DeviceAddress, ScResult;
  }

  lemma IdlePresentsNothing(d: Dmmu)
    requires Idle(d)
    ensures !Presented(d).ack
  {
  }

  lemma FaultIsAnswer(s: Core)
    ensures Answered(s).fault != 0 ==> Answered(s).ack
  {
    hide MisalignedCause, PageCause, AccessCause, H.WordOf;
  }

  // -------------------------------------------------------- case: not executing

  /** An edge that neither stalls nor starts a unit leaves the units idle. */
  lemma UnitsRest(s: Core, i: Input)
    requires UnitsInStep(s)
    requires var c := Control(Stage(s, i.env));
             && !c.stall && !MulReq(s, Comb(Stage(s, i.env)))
             && Idle(Next(s, i).mmu)
    ensures UnitsInStep(Next(s, i))
  {
    hide Control, NpcOf, ValOf, EffectOf, Produces, Step, Commit, MemAccess, H.Step, MulDivResult, DataReq, Decoded,
      WriteBack, Flight, Idle, Presented;
    IdlePresentsNothing(Next(s, i).mmu);
    WiresConsistent(s, i);
  }

  lemma MmuRests(s: Core, i: Input)
    requires Idle(s.mmu) || Comb(Stage(s, i.env)).flush
    requires !Comb(Stage(s, i.env)).flush ==> !Comb(Stage(s, i.env)).req.ack
    ensures Idle(Next(s, i).mmu)
  {
    hide Comb, Step, Commit, MemAccess, H.Step, MulDivResult, Decoded, WriteBack, Idle, Presented;
    var o := Comb(Stage(s, i.env));
    StaysIdle(s.mmu, o.req, s.dout, o.flush, s.hart, i.tlb);
  }

  lemma InterruptCycle(code: Code, s: Core, i: Input, cause: bv32)
    requires Inv(code, s) && Truthful(code, s, i) && Interrupted(Stage(s, i.env)) == Some(cause)
    ensures Abs(Next(s, i)) == Trapped(Abs(s), cause, 0) && Inv(code, Next(s, i))
  {
    hide H.CheckInterrupt, Effected, Trapped, Step, Commit, MemAccess, H.Step, MulDivResult, DataReq, Decoded, WriteBack,
      Flight, Idle, Presented, NpcOf, ValOf, EffectOf, KindOf, Execute, Answered, TlbTrue, Holds;
    WfiIsWfi(s);
    IdleIsSilent(s);
    AbsNext(s, i);
    RaiseIsTrapped(Abs(s), Stage(s, i.env), s.exPc, cause, 0);
    MmuRests(s, i);
    UnitsRest(s, i);
    NewInstrHolds(code, s, i);
  }

  lemma WfiIsWfi(s: Core)
    ensures s.x.instr.ty == WFI ==> KindOf(s.x.instr.ty) == Wfi
  {
  }

  lemma BubbleCycle(code: Code, s: Core, i: Input)
    requires Inv(code, s) && Truthful(code, s, i) && Interrupted(Stage(s, i.env)) == None && s.x.flush
    ensures Abs(Next(s, i)) == Abs(s) && Inv(code, Next(s, i))
  {
    hide Interrupted, Step, Commit, MemAccess, H.Step, MulDivResult, DataReq, Decoded, WriteBack,
      Flight, Idle, Presented, KindOf, Execute, TlbTrue;
    IdleIsSilent(s);
    AbsNext(s, i);
    BubbleKeeps(Abs(s), Stage(s, i.env));
    MmuRests(s, i);
    UnitsRest(s, i);
    NewInstrHolds(code, s, i);
  }

  lemma BubbleKeeps(a: Arch, n: In)
    requires n.x == BUBBLE && n.exPc == a.pc && n.hart == a.hart
    ensures Effected(a, n, Plain(n.exPc, 0), a.mem) == a
  {
    hide CsrVal;
  }

  // ------------------------------------------------------------- case: stalling

  lemma StallKeeps(a: Arch, n: In, c: Ctl, m: Mem)
    requires n.exPc == a.pc && n.hart == a.hart && c.stall && StallsClean(c)
    ensures Effected(a, n, c, m) == a.(mem := m)
  {
    hide CsrVal;
  }

  /** Only three kinds stall. */
  lemma StallKinds(n: In, k: Kind)
    requires ExecuteKind(n, k).stall
    ensures k == MulDiv || k == LoadStore || k == Wfi
    ensures k == MulDiv ==> !n.mulAck
    ensures k == LoadStore ==> !n.rsp.ack
  {
    hide H.CsrRead, CsrLegal, AluResult, JumpTarget, BranchTarget, BranchTaken, OddPc, NextPc, EcallCause, CsrFlushes,
      Asleep, WfiIllegal, SfenceIllegal, SretIllegal, CsrVal;
    match k
    case Alu =>
    case MulDiv =>
    case LoadStore =>
    case Jump =>
    case Branch =>
    case FenceI =>
    case Sfence =>
    case Ecall =>
    case Ebreak =>
    case Wfi =>
    case Sret =>
    case Mret =>
    case CsrOp =>
    case Invalid =>
    case Nop =>
  }

  /** Which units an executing instruction drives. */
  lemma Requests(n: In, k: Kind)
    ensures ExecuteKind(n, k).memReq == (k == LoadStore && !n.wbStall)
    ensures ExecuteKind(n, k).mulReq == if k == MulDiv then Some(!n.wbStall) else None
  {
    hide Plain, Raise, Goto, Flushing, Waiting, H.CsrRead, CsrLegal, AluResult, JumpTarget, BranchTarget, BranchTaken,
      OddPc, NextPc, EcallCause, CsrFlushes, Asleep, WfiIllegal, SfenceIllegal, SretIllegal, CsrVal;
    match k
    case Alu =>
    case MulDiv =>
    case LoadStore =>
    case Jump =>
    case Branch =>
    case FenceI =>
    case Sfence =>
    case Ecall =>
    case Ebreak =>
    case Wfi =>
    case Sret =>
    case Mret =>
    case CsrOp =>
    case Invalid =>
    case Nop =>
  }

  /** In the cycle considered, an instruction of kind `k` is in EX and nothing interrupts it. */
  predicate Runs(s: Core, i: Input, k: Kind) {
    Interrupted(Stage(s, i.env)) == None && IsKind(s.x, k)
  }

  lemma RunsControl(s: Core, i: Input, k: Kind)
    requires Runs(s, i, k)
    ensures Control(Stage(s, i.env)) == ExecuteKind(Stage(s, i.env), k)
  {
    hide Interrupted, ExecuteKind, Answered;
  }

  /** What the edge does to the units while the stage stalls. */
  lemma StallShape(s: Core, i: Input, k: Kind)
    requires Runs(s, i, k) && ExecuteKind(Stage(s, i.env), k).stall
    ensures var o, t := Comb(Stage(s, i.env)), Next(s, i);
            && o.stall && !o.flush && o.req == ReqOf(s.x).(ack := k == LoadStore && !s.wb.stall)
            && t.x == s.x && t.wb.stall && t.hart == s.hart && t.exReq == o.req
            && t.mmu == Step(s.mmu, o.req, s.dout, false, s.hart, i.tlb)
            && t.mulReq == (if k == MulDiv then !s.wb.stall else s.mulReq)
            && t.mulAck == (t.mulReq && k == MulDiv)
            && (t.mulAck ==> t.mulResult == MulDivResult(s.x.instr.ty, s.x.rs1Val, s.x.rs2Val))
  {
    hide Interrupted, ExecuteKind, Answered, Step, Commit, MemAccess, MulDivResult, DataReq, WriteBack, Presented,
      NpcOf, ValOf, EffectOf, Control, KindOf;
    RunsControl(s, i, k);
    FaultIsAnswer(s);
    KindStall(Stage(s, i.env), k);
    Requests(Stage(s, i.env), k);
    StallOrFlush(Stage(s, i.env));
  }

  lemma StallAbs(s: Core, i: Input, k: Kind)
    requires Runs(s, i, k) && ExecuteKind(Stage(s, i.env), k).stall && Commit(s.mem, s.din, s.dout) == s.mem
    ensures Abs(Next(s, i)) == Abs(s)
  {
    hide Interrupted, ExecuteKind, Answered, Commit, WriteBack, Effected, Next, KindOf, Control, StallsClean;
    RunsControl(s, i, k);
    FaultIsAnswer(s);
    KindStall(Stage(s, i.env), k);
    AbsNext(s, i);
    StallKeeps(Abs(s), Stage(s, i.env), Control(Stage(s, i.env)), s.mem);
  }

  lemma MulStall(code: Code, s: Core, i: Input)
    requires Inv(code, s) && Truthful(code, s, i) && Runs(s, i, MulDiv) && ExecuteKind(Stage(s, i.env), MulDiv).stall
    ensures Abs(Next(s, i)) == Abs(s) && Inv(code, Next(s, i))
  {
    hide Interrupted, ExecuteKind, Answered, Commit, MemAccess, WriteBack, Next, KindOf, Comb, TlbTrue, MulDivResult,
      DataReq, Flight, Idle, Presented, Step, Holds;
    StallKinds(Stage(s, i.env), MulDiv);
    StallShape(s, i, MulDiv);
    IdleIsSilent(s);
    StallAbs(s, i, MulDiv);
    StaysIdle(s.mmu, Comb(Stage(s, i.env)).req, s.dout, false, s.hart, i.tlb);
    MemKept(s, i);
    WiresConsistent(s, i);
    NewInstrHolds(code, s, i);
  }

  lemma MemKept(s: Core, i: Input)
    requires Commit(s.mem, s.din, s.dout) == s.mem
    ensures Next(s, i).mem == s.mem
  {
    hide Commit, Comb, Step, MemAccess, H.Step, MulDivResult, Decoded, WriteBack, Presented;
  }

  lemma WfiStall(code: Code, s: Core, i: Input)
    requires Inv(code, s) && Truthful(code, s, i) && Runs(s, i, Wfi) && ExecuteKind(Stage(s, i.env), Wfi).stall
    ensures Abs(Next(s, i)) == Abs(s) && Inv(code, Next(s, i))
  {
    hide Interrupted, ExecuteKind, Answered, Commit, MemAccess, WriteBack, Next, KindOf, Comb, TlbTrue, MulDivResult,
      DataReq, Flight, Idle, Presented, Step, Holds;
    StallShape(s, i, Wfi);
    IdleIsSilent(s);
    StallAbs(s, i, Wfi);
    StaysIdle(s.mmu, Comb(Stage(s, i.env)).req, s.dout, false, s.hart, i.tlb);
    MemKept(s, i);
    WiresConsistent(s, i);
    NewInstrHolds(code, s, i);
  }

  /** First cycle of a memory instruction: the unit is idle and takes the request. */
  lemma LoadStart(code: Code, s: Core, i: Input)
    requires Inv(code, s) && Truthful(code, s, i) && Runs(s, i, LoadStore) && !s.wb.stall
    ensures ExecuteKind(Stage(s, i.env), LoadStore).stall
    ensures Abs(Next(s, i)) == Abs(s) && Inv(code, Next(s, i))
  {
    hide Interrupted, Answered, Commit, MemAccess, WriteBack, Next, KindOf, Comb, TlbTrue, MulDivResult, DataReq,
      Flight, Idle, Presented, Step, Holds;
    IdleIsSilent(s);
    StallShape(s, i, LoadStore);
    StallAbs(s, i, LoadStore);
    var q := ReqOf(s.x);
    Launch(s.mmu, q.(ack := true), s.dout, s.hart, s.mem, i.tlb);
    FlightAck(Next(s, i).mmu, s.hart, s.mem, q, true);
    MemKept(s, i);
    WiresConsistent(s, i);
    NewInstrHolds(code, s, i);
  }

  /** Later cycles before the answer: the walk moves on, memory is untouched. */
  lemma LoadWaits(code: Code, s: Core, i: Input)
    requires Inv(code, s) && Truthful(code, s, i) && Runs(s, i, LoadStore) && s.wb.stall && !Answered(s).ack
    ensures ExecuteKind(Stage(s, i.env), LoadStore).stall
    ensures Abs(Next(s, i)) == Abs(s) && Inv(code, Next(s, i))
    ensures Rank(Next(s, i).mmu) < Rank(s.mmu)
  {
    hide Interrupted, Commit, MemAccess, WriteBack, Next, KindOf, Comb, TlbTrue, MulDivResult, DataReq,
      Flight, Idle, Presented, Step, Holds, Respond;
    var q := ReqOf(s.x);
    RespondAddr(s.mmu, s.dout, s.exReq, q);
    StallShape(s, i, LoadStore);
    Advance(s.mmu, q, s.hart, s.mem, i.tlb);
    NoCommitYet(s.mmu, s.hart, s.mem, q);
    StallAbs(s, i, LoadStore);
    StepAck(s.mmu, q, s.dout, false, s.hart, i.tlb, false);
    MemKept(s, i);
    WiresConsistent(s, i);
    NewInstrHolds(code, s, i);
  }

  // ----------------------------------------------------------- case: completing

  /** Nothing interrupts, EX holds an instruction, and it does not stall. */
  predicate Finishes(s: Core, i: Input) {
    Interrupted(Stage(s, i.env)) == None && !s.x.flush && !Control(Stage(s, i.env)).stall
  }

  lemma TrapControl(s: Core, i: Input)
    requires Interrupted(Stage(s, i.env)) == None && !s.x.flush && s.x.instr.onTrap
    ensures var c := Control(Stage(s, i.env)); !c.stall && !c.memReq && c.mulReq == None && c.onTrap
  {
    hide Interrupted, ExecuteKind, Answered, NextPc;
  }

  /** A memory instruction can only finish once the MMU has answered it. */
  lemma LoadFinishes(code: Code, s: Core, i: Input)
    requires Inv(code, s) && Truthful(code, s, i) && Finishes(s, i) && IsKind(s.x, LoadStore)
    ensures s.wb.stall && Answered(s).ack
    ensures Answers(Answered(s), ReqOf(s.x), Access(s.hart, s.mem, ReqOf(s.x)))
    ensures Commit(s.mem, s.din, s.dout) == MemAfter(s.mem, Access(s.hart, s.mem, ReqOf(s.x)))
  {
    hide Interrupted, Commit, MemAccess, WriteBack, Next, KindOf, Comb, TlbTrue, MulDivResult, DataReq,
      Flight, Idle, Presented, Step, Respond, Answers, Access, Holds, NextPc;
    RunsControl(s, i, LoadStore);
    if !s.wb.stall { IdleIsSilent(s); }
    RespondAddr(s.mmu, s.dout, s.exReq, ReqOf(s.x));
    Answer(s.mmu, s.hart, s.mem, ReqOf(s.x));
  }

  lemma MulFinishes(s: Core, i: Input)
    requires UnitsInStep(s) && Finishes(s, i) && IsKind(s.x, MulDiv)
    ensures s.wb.stall && s.mulAck && s.mulResult == MulDivResult(s.x.instr.ty, s.x.rs1Val, s.x.rs2Val)
  {
    hide Interrupted, MemAccess, KindOf, MulDivResult, DataReq, Flight, Idle, Presented, Answered, NextPc;
    RunsControl(s, i, MulDiv);
  }

  lemma FinishIsReady(code: Code, s: Core, i: Input)
    requires Inv(code, s) && Truthful(code, s, i) && Finishes(s, i)
    ensures Ready(Stage(s, i.env), Abs(s), code(Abs(s)))
    ensures Commit(s.mem, s.din, s.dout) == MemOf(Abs(s), Stage(s, i.env))
  {
    hide Interrupted, Commit, MemAccess, WriteBack, KindOf, Control, TlbTrue, MulDivResult, DataReq,
      Flight, Idle, Presented, Answered, Answers, Access, Truthful;
    if IsKind(s.x, LoadStore) {
      LoadFinishes(code, s, i);
    } else {
      IdleIsSilent(s);
    }
    if IsKind(s.x, MulDiv) { MulFinishes(s, i); }
  }

  /** A finished access leaves the MMU idle: flushed after a fault, else by itself. */
  lemma MmuFinishes(code: Code, s: Core, i: Input)
    requires Inv(code, s) && Truthful(code, s, i) && Finishes(s, i)
    ensures Idle(Next(s, i).mmu)
  {
    hide Interrupted, Commit, MemAccess, WriteBack, KindOf, TlbTrue, MulDivResult, Decoded,
      Flight, Idle, Presented, Step, H.Step, Answered, Answers, Access, Truthful, Execute, NpcOf, ValOf, EffectOf, DataReq;
    var o := Comb(Stage(s, i.env));
    if s.x.instr.onTrap {
      TrapControl(s, i);
      MmuRests(s, i);
    } else {
      var k := KindOf(s.x.instr.ty);
      RunsControl(s, i, k);
      Requests(Stage(s, i.env), k);
      if k != LoadStore {
        MmuRests(s, i);
      } else {
        LoadFinishes(code, s, i);
        LoadOutcome(s, i);
        if o.flush {
          MmuRests(s, i);
        } else {
          DoneLeavesIdle(s, i);
        }
      }
    }
  }

  /** A fault flushes; without one the MMU stood at its last state. */
  lemma LoadOutcome(s: Core, i: Input)
    requires UnitsInStep(s) && Finishes(s, i) && IsKind(s.x, LoadStore) && s.wb.stall && Answered(s).ack
    ensures Comb(Stage(s, i.env)).flush || (s.mmu.state == 3 && s.dout.ack)
  {
    hide Interrupted, MemAccess, KindOf, MulDivResult, DataReq, Idle, Presented, NpcOf, ValOf, EffectOf, NextPc, H.WordOf,
      MisalignedCause, PageCause, AccessCause, Translate, TranslationOn, OpOf, EffPriv, Sv32.Vpn0, Checked, AwaitsLeaf;
    RunsControl(s, i, LoadStore);
    CausesNonzero(s.mmu.op);
  }

  lemma DoneLeavesIdle(s: Core, i: Input)
    requires UnitsInStep(s) && IsKind(s.x, LoadStore) && s.wb.stall && s.mmu.state == 3 && s.dout.ack
    requires var o := Comb(Stage(s, i.env)); !o.flush && o.req == ReqOf(s.x).(ack := false)
    ensures Idle(Next(s, i).mmu)
  {
    hide Comb, MemAccess, KindOf, MulDivResult, Idle, Presented, Flight, Step, Commit, H.Step, Decoded, WriteBack;
    IdleAfterDone(s.mmu, s.hart, s.mem, ReqOf(s.x), i.tlb);
  }

  /** An M instruction drops its request as it finishes; nothing else raises one. */
  lemma MulRests(s: Core, i: Input)
    requires UnitsInStep(s) && Finishes(s, i)
    ensures !MulReq(s, Comb(Stage(s, i.env)))
  {
    hide Interrupted, MemAccess, KindOf, MulDivResult, DataReq, Flight, Idle, Presented, Answered, ExecuteKind, NpcOf, ValOf,
      EffectOf, Execute;
    if s.x.instr.onTrap {
      TrapControl(s, i);
    } else {
      RunsControl(s, i, KindOf(s.x.instr.ty));
      Requests(Stage(s, i.env), KindOf(s.x.instr.ty));
      if IsKind(s.x, MulDiv) { MulFinishes(s, i); }
    }
  }

  lemma FinishCycle(code: Code, s: Core, i: Input)
    requires Inv(code, s) && Truthful(code, s, i) && Finishes(s, i)
    ensures Abs(Next(s, i)) == Sem(Abs(s), code(Abs(s)), i.env) && Inv(code, Next(s, i))
  {
    hide Interrupted, Commit, MemAccess, WriteBack, KindOf, Control, TlbTrue, MulDivResult, DataReq, Effected, Sem, Next,
      Flight, Idle, Presented, Answered, Ready, Truthful, MemOf, Holds, NpcOf, ValOf, EffectOf;
    FinishIsReady(code, s, i);
    Completes(Abs(s), Stage(s, i.env), code(Abs(s)));
    AbsNext(s, i);
    MmuFinishes(code, s, i);
    MulRests(s, i);
    UnitsRest(s, i);
    NewInstrHolds(code, s, i);
  }

  // -------------------------------------------------------------- the refinement

  lemma FatesCover(s: Core, i: Input)
    ensures var n := Stage(s, i.env);
            && Comb(n).stall == Control(n).stall
            && (FateOf(s, i.env) == Executes <==> Finishes(s, i))
  {
    hide Interrupted, Control, Answered, NpcOf, ValOf, EffectOf, DataReq;
  }

  lemma StallCycle(code: Code, s: Core, i: Input)
    requires Inv(code, s) && Truthful(code, s, i)
    requires Interrupted(Stage(s, i.env)) == None && !s.x.flush && Control(Stage(s, i.env)).stall
    ensures Abs(Next(s, i)) == Abs(s) && Inv(code, Next(s, i))
  {
    hide Inv, Truthful, Interrupted, Next, Control, ExecuteKind, KindOf, Abs;
    if s.x.instr.onTrap {
      TrapControl(s, i);
    } else {
      var k := KindOf(s.x.instr.ty);
      RunsControl(s, i, k);
      StallKinds(Stage(s, i.env), k);
      if k == MulDiv {
        MulStall(code, s, i);
      } else if k == Wfi {
        WfiStall(code, s, i);
      } else if s.wb.stall {
        LoadWaits(code, s, i);
      } else {
        LoadStart(code, s, i);
      }
    }
  }

  /** One clock cycle of the pipeline is nothing, one interrupt, or exactly one
      instruction of the sequential machine, and the invariant carries over. */
  lemma CycleRefines(code: Code, s: Core, i: Input)
    requires Inv(code, s) && Truthful(code, s, i)
    ensures Inv(code, Next(s, i))
    ensures Abs(Next(s, i)) == Meaning(Abs(s), FateOf(s, i.env), code, i.env)
  {
    hide Inv, Truthful, Interrupted, Next, Control, Comb, Sem, Trapped, Abs;
    FatesCover(s, i);
    var n := Stage(s, i.env);
    match Interrupted(n)
    case Some(c) => InterruptCycle(code, s, i, c);
    case None =>
      if s.x.flush {
        BubbleCycle(code, s, i);
      } else if Control(n).stall {
        StallCycle(code, s, i);
      } else {
        FinishCycle(code, s, i);
      }
  }

  /** Runs of the pipeline and of the sequential machine. */
  function Run(s: Core, ins: seq<Input>): (t: Core)
    decreases ins
  {
    if ins == [] then s else Run(Next(s, ins[0]), ins[1..])
  }

  ghost predicate AllTruthful(code: Code, s: Core, ins: seq<Input>)
    decreases ins
  {
    ins == [] || (Truthful(code, s, ins[0]) && AllTruthful(code, Next(s, ins[0]), ins[1..]))
  }

  /** The interrupts and instructions a run completes, in order. */
  function History(s: Core, ins: seq<Input>): (r: seq<(Fate, Env)>)
    decreases ins
  {
    if ins == [] then []
    else
      var f := FateOf(s, ins[0].env);
      (if f == Stutter then [] else [(f, ins[0].env)]) + History(Next(s, ins[0]), ins[1..])
  }

  function SeqRun(a: Arch, code: Code, h: seq<(Fate, Env)>): (r: Arch)
    decreases h
  {
    if h == [] then a else SeqRun(Meaning(a, h[0].0, code, h[0].1), code, h[1..])
  }

  lemma {:induction false} RunRefines(code: Code, s: Core, ins: seq<Input>)
    requires Inv(code, s) && AllTruthful(code, s, ins)
    ensures Inv(code, Run(s, ins))
    ensures Abs(Run(s, ins)) == SeqRun(Abs(s), code, History(s, ins))
    decreases ins
  {
    hide Inv, Truthful, Next, FateOf, Meaning, Abs;
    if ins != [] {
      CycleRefines(code, s, ins[0]);
      var t, f := Next(s, ins[0]), FateOf(s, ins[0].env);
      RunRefines(code, t, ins[1..]);
      var rest := History(t, ins[1..]);
      if f == Stutter {
        assert History(s, ins) == rest;
        StutterMeans(Abs(s), code, ins[0].env);
      } else {
        assert History(s, ins) == [(f, ins[0].env)] + rest;
        assert History(s, ins)[1..] == rest;
      }
    }
  }

  lemma StutterMeans(a: Arch, code: Code, e: Env)
    ensures Meaning(a, Stutter, code, e) == a
  {
  }

  lemma InitialInv(code: Code, s: Core)
    requires Initial(s)
    ensures Inv(code, s)
  {
    NothingCommitted(s.mem);
  }

  /** From reset, for any truthful fetch side, any program and any interrupts:
      the architectural state of the pipeline is at all times what the
      sequential machine reaches on the instructions completed so far. */
  lemma PipelineRefinesSequential(code: Code, s: Core, ins: seq<Input>)
    requires Initial(s) && AllTruthful(code, s, ins)
    ensures Abs(Run(s, ins)) == SeqRun(Abs(s), code, History(s, ins))
    ensures Inv(code, Run(s, ins))
  {
    InitialInv(code, s);
    RunRefines(code, s, ins);
  }

  /** The slot of a fetch side that always has the wanted instruction ready. */
  function PerfectSlot(code: Code, s: Core, e: Env): (r: Slot) {
    Slot(false, Comb(Stage(s, e)).npc, code(Abs(Next(s, Input(e, Slot(true, 0, BLANK), None)))))
  }

  /** What fetch offers does not reach the architectural state in the same cycle. */
  lemma SlotLeavesAbs(s: Core, e: Env, slot: Slot, other: Slot)
    ensures Abs(Next(s, Input(e, slot, None))) == Abs(Next(s, Input(e, other, None)))
  {
    hide Comb, Step, Commit, MemAccess, H.Step, MulDivResult, Decoded, WriteBack;
  }

  /** In every state, for every program, a truthful fetch side exists that never
      keeps the pipeline waiting: the hypothesis of the refinement can be met. */
  lemma FetchExists(code: Code, s: Core, e: Env)
    ensures var i := Input(e, PerfectSlot(code, s, e), None);
            Truthful(code, s, i) && (!Comb(Stage(s, e)).stall && !Comb(Stage(s, e)).flush ==> Accepts(Comb(Stage(s, e)), i.slot))
  {
    hide Comb, Next, Abs;
    SlotLeavesAbs(s, e, PerfectSlot(code, s, e), Slot(true, 0, BLANK));
  }

  // ---------------------------------------------------- the data-access protocol

  /** A memory instruction in EX asks once, in its first cycle, when the MMU is idle. */
  lemma RequestOnce(code: Code, s: Core, i: Input)
    requires Inv(code, s) && Comb(Stage(s, i.env)).req.ack
    ensures IsKind(s.x, LoadStore) && !s.wb.stall && Idle(s.mmu) && Next(s, i).wb.stall
  {
    hide Interrupted, Answered, ExecuteKind, KindOf, MemAccess, Flight, Idle, Presented, MulDivResult, NpcOf, ValOf,
      EffectOf, Holds, Step, Commit, H.Step, Decoded, WriteBack, NextPc;
    var n := Stage(s, i.env);
    RequestControl(s, i);
    Requests(n, KindOf(s.x.instr.ty));
    IdleIsSilent(s);
    FirstCycleStalls(s, i);
  }

  lemma RequestControl(s: Core, i: Input)
    requires Comb(Stage(s, i.env)).req.ack
    ensures Interrupted(Stage(s, i.env)) == None && !s.x.flush && !s.x.instr.onTrap
    ensures Control(Stage(s, i.env)) == ExecuteKind(Stage(s, i.env), KindOf(s.x.instr.ty))
    ensures ExecuteKind(Stage(s, i.env), KindOf(s.x.instr.ty)).memReq
  {
    hide Interrupted, Answered, ExecuteKind, KindOf, NpcOf, ValOf, EffectOf, NextPc;
  }

  lemma FirstCycleStalls(s: Core, i: Input)
    requires Runs(s, i, LoadStore) && !Answered(s).ack
    ensures Next(s, i).wb.stall
  {
    hide Interrupted, Answered, KindOf, MemAccess, MulDivResult, NpcOf, ValOf, EffectOf, Step, Commit, H.Step,
      Decoded, WriteBack, NextPc, DataReq, Presented;
    RunsControl(s, i, LoadStore);
  }

  /** In its later cycles a memory instruction cannot be interrupted. */
  lemma NotInterrupted(s: Core, i: Input)
    requires s.wb.stall && IsKind(s.x, LoadStore)
    ensures Runs(s, i, LoadStore)
  {
    hide Answered, H.CheckInterrupt;
  }

  lemma FlightRank(s: Core)
    requires UnitsInStep(s) && s.wb.stall && IsKind(s.x, LoadStore)
    ensures 0 <= s.mmu.state <= 3 && Rank(s.mmu) >= 0
  {
    hide Flight, MemAccess, MulDivResult, Presented, KindOf, DataReq;
    FlightStates(s.mmu, s.hart, s.mem, ReqOf(s.x));
  }

  lemma InvRank(code: Code, s: Core)
    requires Inv(code, s) && s.wb.stall && IsKind(s.x, LoadStore)
    ensures Rank(s.mmu) >= 0
  {
    hide InStep, Flight, MemAccess, MulDivResult, Presented, KindOf, DataReq;
    FlightRank(s);
  }

  /** The instruction stays, memory stays, and the cycle means nothing. */
  predicate Waits(s: Core, i: Input) {
    var t := Next(s, i);
    FateOf(s, i.env) == Stutter && t.x == s.x && t.mem == s.mem && t.wb.stall
  }

  lemma LoadWaitStep(code: Code, s: Core, i: Input)
    requires Inv(code, s) && Truthful(code, s, i) && s.wb.stall && IsKind(s.x, LoadStore) && !Answered(s).ack
    ensures Waits(s, i) && Inv(code, Next(s, i)) && Rank(Next(s, i).mmu) < Rank(s.mmu)
  {
    hide Inv, Truthful, Interrupted, Answered, Next, KindOf, Comb, NextPc;
    NotInterrupted(s, i);
    LoadWaits(code, s, i);
    StallShape(s, i, LoadStore);
    RunsControl(s, i, LoadStore);
    FatesCover(s, i);
    AbsMem(s, i);
  }

  lemma AbsMem(s: Core, i: Input)
    ensures Abs(Next(s, i)).mem == Next(s, i).mem && Abs(s).mem == s.mem
  {
    hide Next, WriteBack;
  }

  /** The first `k` cycles all wait. */
  predicate StillWaiting(s: Core, ins: seq<Input>, k: nat)
    requires k <= |ins|
    decreases k
  {
    k == 0 || (Waits(s, ins[0]) && StillWaiting(Next(s, ins[0]), ins[1..], k - 1))
  }

  /** From its second cycle a memory instruction is neither interrupted nor
      flushed, and memory does not change, until it is answered: after as many
      further edges as its rank. */
  lemma {:induction false} AnsweredInRank(code: Code, s: Core, ins: seq<Input>) returns (k: nat)
    requires Inv(code, s) && AllTruthful(code, s, ins) && s.wb.stall && IsKind(s.x, LoadStore)
    requires |ins| >= Rank(s.mmu)
    ensures k <= Rank(s.mmu) && k <= |ins| && StillWaiting(s, ins, k) && Answered(Run(s, ins[..k])).ack
    decreases Rank(s.mmu)
  {
    hide Inv, Truthful, Answered, Next, Waits, IsKind, Rank;
    InvRank(code, s);
    if Answered(s).ack {
      k := 0;
      assert ins[..0] == [];
    } else {
      RankPositive(code, s);
      LoadWaitStep(code, s, ins[0]);
      WaitsMeans(s, ins[0]);
      var t := Next(s, ins[0]);
      var j := AnsweredInRank(code, t, ins[1..]);
      k := j + 1;
      assert ins[..k][1..] == ins[1..][..j] && ins[..k][0] == ins[0];
    }
  }

  lemma WaitsMeans(s: Core, i: Input)
    requires Waits(s, i)
    ensures Next(s, i).x == s.x && Next(s, i).wb.stall
  {
    hide Next, FateOf;
  }

  lemma RankPositive(code: Code, s: Core)
    requires Inv(code, s) && s.wb.stall && IsKind(s.x, LoadStore) && !Answered(s).ack
    ensures Rank(s.mmu) > 0
  {
    hide Flight, MemAccess, MulDivResult, Presented, KindOf, DataReq, Holds, Respond;
    RespondAddr(s.mmu, s.dout, s.exReq, ReqOf(s.x));
    Advance(s.mmu, ReqOf(s.x), s.hart, s.mem, None);
    FlightStates(s.mmu, s.hart, s.mem, ReqOf(s.x));
  }

  /** Counting from the request: answered within three edges, whatever the
      translation, with nothing written before. */
  lemma AnsweredWithinThree(code: Code, s: Core, ins: seq<Input>) returns (k: nat)
    requires Inv(code, s) && AllTruthful(code, s, ins) && |ins| == 3
    requires Comb(Stage(s, ins[0].env)).req.ack
    ensures 1 <= k <= 3 && StillWaiting(s, ins, k) && Answered(Run(s, ins[..k])).ack
  {
    hide Inv, Truthful, Answered, Next, IsKind, Comb, Waits, Interrupted, ExecuteKind, Runs, Rank;
    RequestOnce(code, s, ins[0]);
    RequestRuns(s, ins[0]);
    LoadStart(code, s, ins[0]);
    StartWaits(s, ins[0]);
    WaitsMeans(s, ins[0]);
    var t := Next(s, ins[0]);
    StartRank(code, s, ins[0]);
    var j := AnsweredInRank(code, t, ins[1..]);
    k := j + 1;
    assert ins[..k][1..] == ins[1..][..j] && ins[..k][0] == ins[0];
  }

  lemma RequestRuns(s: Core, i: Input)
    requires Comb(Stage(s, i.env)).req.ack && IsKind(s.x, LoadStore)
    ensures Runs(s, i, LoadStore)
  {
    hide Interrupted, Comb, KindOf, Answered, ExecuteKind;
    RequestControl(s, i);
  }

  lemma StartWaits(s: Core, i: Input)
    requires Runs(s, i, LoadStore) && ExecuteKind(Stage(s, i.env), LoadStore).stall && Abs(Next(s, i)) == Abs(s)
    ensures Waits(s, i)
  {
    hide Interrupted, Answered, Next, KindOf, Comb, NextPc, ExecuteKind;
    StallShape(s, i, LoadStore);
    RunsControl(s, i, LoadStore);
    FatesCover(s, i);
    AbsMem(s, i);
  }

  lemma StartRank(code: Code, s: Core, i: Input)
    requires Inv(code, Next(s, i)) && Next(s, i).wb.stall && Next(s, i).x == s.x && IsKind(s.x, LoadStore)
    ensures Rank(Next(s, i).mmu) <= 2
  {
    hide InStep, Next, KindOf;
    FlightRank(Next(s, i));
  }
}
