/** A decoded record decides what execution does, so a compressed instruction has
    the effect of its 32-bit expansion (chapter 16 of the RISC-V Unprivileged
    Architecture v20191213). */
module RvcMeaning {
  import opened Isa
  import opened Decode
  import opened Encode
  import opened Rvc
  import opened Exec
  import opened Sequential
  import Mmu
  import Memory
  import Sv32
  import Pmp
  import H = Hart

  // -------------------------------------- the record decides what execution does

  lemma SameRetire(a: Arch, i: Instr, j: Instr, pc: bv32, v: bv32)
    requires Target(i) == Target(j)
    ensures Retire(a, i, pc, v) == Retire(a, j, pc, v)
  {
  }

  lemma OperandsR(t: InstrType)
    requires IsR(t) && KindOf(t) == Alu
    ensures RegisterOperand(t) && !t.LUI? && !t.AUIPC?
  {
  }

  lemma OperandsI(t: InstrType)
    requires IsI(t) || IsU(t)
    ensures !RegisterOperand(t) && !ImmediateShift(t) && (IsI(t) ==> !t.LUI? && !t.AUIPC?)
  {
  }

  lemma OperandsShift(t: InstrType)
    requires IsShift(t)
    ensures !RegisterOperand(t) && ImmediateShift(t) && !t.LUI? && !t.AUIPC?
  {
  }

  /** ALU results depend on the operands the format has. */
  lemma AluOperands(t: InstrType, pc: bv32, x: bv32, y: bv32, imm: bv32, x': bv32, y': bv32, imm': bv32)
    requires IsR(t) || IsShift(t) || IsI(t) || IsU(t)
    requires IsU(t) || x == x'
    requires IsR(t) ==> y == y'
    requires IsR(t) || (if IsShift(t) then Low5(imm) == Low5(imm') else imm == imm')
    requires KindOf(t) == Alu
    ensures AluResult(t, pc, x, y, imm) == AluResult(t, pc, x', y', imm')
  {
    hide Operate, Low5, IsR, IsI, IsShift, RegisterOperand, ImmediateShift, KindOf;
    if IsR(t) { OperandsR(t); } else if IsShift(t) { OperandsShift(t); } else { OperandsI(t); }
  }

  /** A load ignores the store data. */
  lemma LoadData(h: H.Hart, m: Memory.Mem, q: Memory.Req, d: bv32)
    requires q.isLoad && !q.isStore && !q.isAmo
    ensures Mmu.Access(h, m, q.(wdata := d)) == Mmu.Access(h, m, q)
  {
    hide Sv32.Walk, Pmp.Allowed, Memory.Read, Sv32.PmaValid, Mmu.TranslationOn, Mmu.EffPriv;
  }

  /** Both records have the same type, operands, destination and memory use. */
  predicate Twins(i: Instr, j: Instr, a: Arch) {
    && i.ty == j.ty && !i.onTrap && !j.onTrap && i.compressed == j.compressed && Target(i) == Target(j)
    && (UsesRs1(i.ty) ==> a.regs[i.rs1] == a.regs[j.rs1]) && (UsesRs2(i.ty) ==> a.regs[i.rs2] == a.regs[j.rs2])
    && SameImm(i.ty, i.imm, j.imm) && UseIn(i) == UseIn(j) && UseIn(i) == UseOf(i.ty)
    && (KindOf(i.ty) == CsrOp ==> i.csrAddr == j.csrAddr && i.rs1 == j.rs1)
    && (KindOf(i.ty) == CsrOp || KindOf(i.ty) == Invalid ==> i.inst == j.inst)
  }

  lemma AluFormats(t: InstrType)
    requires KindOf(t) == Alu
    ensures IsR(t) || IsShift(t) || IsI(t) || IsU(t)
  {
  }

  lemma SemAlu(a: Arch, i: Instr, e: Env)
    ensures SemKind(a, i, e, Alu)
         == Retire(a, i, NextPc(a.pc, i.compressed), AluResult(i.ty, a.pc, a.regs[i.rs1], a.regs[i.rs2], i.imm))
  {
  }

  lemma TwinAlu(a: Arch, i: Instr, j: Instr, e: Env)
    requires Twins(i, j, a) && KindOf(i.ty) == Alu
    ensures SemKind(a, i, e, Alu) == SemKind(a, j, e, Alu)
  {
    hide SemKind, FormatOf, AluResult, NextPc, Low5, IsU, IsI, IsShift, IsR, UseOf, Retire, Target, KindOf;
    AluFormats(i.ty);
    FormatR(i.ty);
    FormatShift(i.ty);
    FormatI(i.ty);
    FormatU(i.ty);
    SemAlu(a, i, e);
    SemAlu(a, j, e);
    AluOperands(i.ty, a.pc, a.regs[i.rs1], a.regs[i.rs2], i.imm, a.regs[j.rs1], a.regs[j.rs2], j.imm);
    SameRetire(a, i, j, NextPc(a.pc, i.compressed), AluResult(i.ty, a.pc, a.regs[i.rs1], a.regs[i.rs2], i.imm));
  }

  lemma AccessFormats(t: InstrType)
    requires KindOf(t) == LoadStore
    ensures IsAmo(t) || IsS(t) || (IsI(t) && IsLoad(t))
  {
  }

  lemma SemAccess(a: Arch, i: Instr, e: Env)
    ensures SemKind(a, i, e, LoadStore) == Load(a, i, DataReq(i, a.regs[i.rs1], a.regs[i.rs2]))
  {
    hide Load, DataReq;
  }

  lemma SameLoad(a: Arch, i: Instr, j: Instr, q: Memory.Req)
    requires Target(i) == Target(j) && i.ty == j.ty && i.compressed == j.compressed
    ensures Load(a, i, q) == Load(a, j, q)
  {
    hide Mmu.Access, LoadValue, NextPc, H.TrapPc, H.Trap;
  }

  lemma LoadIgnores(a: Arch, i: Instr, q: Memory.Req, d: bv32)
    requires q.isLoad && !q.isStore && !q.isAmo
    ensures Load(a, i, q.(wdata := d)) == Load(a, i, q)
  {
    hide Mmu.Access, LoadValue, NextPc, H.TrapPc, H.Trap, Retire;
    LoadData(a.hart, a.mem, q, d);
  }

  lemma Offsets(atomic: bool, x: bv32, imm: bv32, imm': bv32)
    requires atomic || imm == imm'
    ensures AccessAddress(atomic, x, imm) == AccessAddress(atomic, x, imm')
  {
  }

  /** The same request, but for a load's unused store data. */
  lemma SameRequest(i: Instr, j: Instr, x: bv32, y: bv32, x': bv32, y': bv32)
    requires UseIn(i) == UseIn(j) && x == x' && (i.isAtomic || i.imm == j.imm)
    ensures DataReq(i, x, y).(wdata := y') == DataReq(j, x', y')
  {
    hide H.NatOf, SizeOf, AccessAddress;
    Offsets(i.isAtomic, x, i.imm, j.imm);
  }

  lemma TwinAccess(a: Arch, i: Instr, j: Instr, e: Env)
    requires Twins(i, j, a) && KindOf(i.ty) == LoadStore
    ensures SemKind(a, i, e, LoadStore) == SemKind(a, j, e, LoadStore)
  {
    hide SemKind, FormatOf, Low5, UseOf, Target, KindOf, Load, DataReq, IsI, IsS, IsAmo, IsLoad, H.NatOf, SizeOf;
    AccessFormats(i.ty);
    FormatI(i.ty);
    FormatS(i.ty);
    FormatAmo(i.ty);
    UseAmo(i.ty);
    UseS(i.ty);
    UseLoad(i.ty);
    SemAccess(a, i, e);
    SemAccess(a, j, e);
    var (x, y, x', y') := (a.regs[i.rs1], a.regs[i.rs2], a.regs[j.rs1], a.regs[j.rs2]);
    SameRequest(i, j, x, y, x', y');
    LoadOnly(i, x, y);
    if FormatOf(i.ty) == I {
      LoadIgnores(a, i, DataReq(i, x, y), y');
    } else {
      assert DataReq(i, x, y).(wdata := y') == DataReq(i, x, y);
    }
    SameLoad(a, i, j, DataReq(j, x', y'));
  }

  lemma LoadOnly(i: Instr, x: bv32, y: bv32)
    ensures var q := DataReq(i, x, y); q.isLoad == i.isLoad && q.isStore == i.isStore && q.isAmo == i.isAtomic && q.wdata == y
  {
    hide H.NatOf, SizeOf;
  }

  lemma SemOther(a: Arch, i: Instr, e: Env, k: Kind)
    requires k in {MulDiv, Jump, Branch, Ebreak}
    ensures SemKind(a, i, e, MulDiv) == Retire(a, i, NextPc(a.pc, i.compressed), MulDivResult(i.ty, a.regs[i.rs1], a.regs[i.rs2]))
    ensures SemKind(a, i, e, Jump)
         == Transfer(a, i, JumpTarget(i.ty, a.pc, a.regs[i.rs1], i.imm), NextPc(a.pc, i.compressed))
    ensures SemKind(a, i, e, Branch)
         == if BranchTaken(i.ty, a.regs[i.rs1], a.regs[i.rs2])
            then Transfer(a, i, BranchTarget(a.pc, i.imm), BranchTarget(a.pc, i.imm))
            else Retire(a, i, NextPc(a.pc, i.compressed), 0)
    ensures SemKind(a, i, e, Ebreak) == Trapped(a, 3, a.pc)
  {
    hide MulDivResult, JumpTarget, BranchTarget, BranchTaken, NextPc, Retire, Transfer, Trapped;
  }

  lemma SameTransfer(a: Arch, i: Instr, j: Instr, target: bv32, link: bv32)
    requires Target(i) == Target(j)
    ensures Transfer(a, i, target, link) == Transfer(a, j, target, link)
  {
    hide OddPc, Retire, Trapped;
    SameRetire(a, i, j, target, link);
  }

  lemma JumpTargets(t: InstrType, pc: bv32, x: bv32, x': bv32, imm: bv32)
    requires t == JAL || x == x'
    ensures JumpTarget(t, pc, x, imm) == JumpTarget(t, pc, x', imm)
  {
  }

  lemma JumpFormats(t: InstrType)
    requires KindOf(t) == Jump
    ensures t == JAL || (t == JALR && UsesRs1(t))
    ensures FormatOf(t) == J || FormatOf(t) == I
  {
  }

  lemma BranchFormats(t: InstrType)
    requires KindOf(t) == Branch
    ensures IsB(t)
  {
  }

  lemma TwinJump(a: Arch, i: Instr, j: Instr, e: Env)
    requires Twins(i, j, a) && KindOf(i.ty) == Jump
    ensures SemKind(a, i, e, Jump) == SemKind(a, j, e, Jump)
  {
    hide SemKind, FormatOf, JumpTarget, NextPc, UseOf, Transfer, Target, KindOf, MulDivResult, BranchTaken,
      BranchTarget, Retire, Trapped, Low5;
    hide UsesRs1, UsesRs2, UseIn;
    JumpFormats(i.ty);
    assert i.imm == j.imm;
    SemOther(a, i, e, Jump);
    SemOther(a, j, e, Jump);
    JumpTargets(i.ty, a.pc, a.regs[i.rs1], a.regs[j.rs1], i.imm);
    SameTransfer(a, i, j, JumpTarget(i.ty, a.pc, a.regs[i.rs1], i.imm), NextPc(a.pc, i.compressed));
  }

  lemma TwinBranch(a: Arch, i: Instr, j: Instr, e: Env)
    requires Twins(i, j, a) && KindOf(i.ty) == Branch
    ensures SemKind(a, i, e, Branch) == SemKind(a, j, e, Branch)
  {
    hide SemKind, FormatOf, JumpTarget, NextPc, UseOf, Transfer, Target, KindOf, MulDivResult, BranchTaken,
      BranchTarget, Retire, Trapped, Low5, IsB;
    BranchFormats(i.ty);
    FormatB(i.ty);
    SemOther(a, i, e, Branch);
    SemOther(a, j, e, Branch);
    SameTransfer(a, i, j, BranchTarget(a.pc, i.imm), BranchTarget(a.pc, i.imm));
    SameRetire(a, i, j, NextPc(a.pc, i.compressed), 0);
  }

  lemma MulFormats(t: InstrType)
    requires KindOf(t) == MulDiv
    ensures IsM(t)
  {
  }

  lemma TwinMul(a: Arch, i: Instr, j: Instr, e: Env)
    requires Twins(i, j, a) && KindOf(i.ty) == MulDiv
    ensures SemKind(a, i, e, MulDiv) == SemKind(a, j, e, MulDiv)
  {
    hide SemKind, FormatOf, NextPc, UseOf, Retire, Target, KindOf, MulDivResult, Low5, IsM, BranchTaken, BranchTarget, JumpTarget,
      Transfer, Trapped;
    MulFormats(i.ty);
    FormatM(i.ty);
    SemOther(a, i, e, MulDiv);
    SemOther(a, j, e, MulDiv);
    SameRetire(a, i, j, NextPc(a.pc, i.compressed), MulDivResult(i.ty, a.regs[i.rs1], a.regs[i.rs2]));
  }

  lemma SemCsr(a: Arch, i: Instr, e: Env)
    ensures SemKind(a, i, e, CsrOp) == CsrStep(a, i, e, CsrVal(i, a.regs[i.rs1]))
  {
    hide CsrStep, CsrVal;
  }

  lemma SameCsrStep(a: Arch, i: Instr, j: Instr, e: Env, val: bv32)
    requires i.ty == j.ty && i.csrAddr == j.csrAddr && i.inst == j.inst && Target(i) == Target(j) && i.compressed == j.compressed
    ensures CsrStep(a, i, e, val) == CsrStep(a, j, e, val)
  {
    hide Retire, Trapped, H.CsrRead, H.CsrUpdate, Target, NextPc, OpKind;
    var was := H.CsrRead(a.hart, e.wires, e.counters, i.csrAddr);
    SameRetire(a.(hart := H.CsrUpdate(a.hart, i.csrAddr, OpKind(i.ty), was, val)), i, j, NextPc(a.pc, i.compressed), was);
  }

  lemma TwinCsr(a: Arch, i: Instr, j: Instr, e: Env)
    requires Twins(i, j, a) && KindOf(i.ty) == CsrOp
    ensures SemKind(a, i, e, CsrOp) == SemKind(a, j, e, CsrOp)
  {
    hide SemKind, FormatOf, UseOf, Target, KindOf, Low5, CsrStep, RegWord;
    SemCsr(a, i, e);
    SemCsr(a, j, e);
    SameCsrStep(a, i, j, e, CsrVal(i, a.regs[i.rs1]));
  }

  /** Kinds whose meaning needs no operand. */
  predicate Plainly(k: Kind) { k in {FenceI, Sfence, Ecall, Wfi, Sret, Mret, Nop} }

  lemma SemPlainly(a: Arch, i: Instr, j: Instr, e: Env, k: Kind)
    requires Plainly(k) && Target(i) == Target(j) && i.compressed == j.compressed
    ensures SemKind(a, i, e, k) == SemKind(a, j, e, k)
  {
    hide Retire, Trapped, NextPc, SfenceIllegal, WfiIllegal, SretIllegal, EcallCause, Target, H.ReturnPc, H.Return;
    SameRetire(a, i, j, NextPc(a.pc, i.compressed), 0);
  }

  lemma SemInvalid(a: Arch, i: Instr, e: Env)
    ensures SemKind(a, i, e, Invalid) == Trapped(a, ILLEGAL, i.inst)
  {
    hide Trapped;
  }

  lemma KindsCover(k: Kind)
    ensures k in {Alu, LoadStore, Jump, Branch, Ebreak, MulDiv, CsrOp, Invalid} || Plainly(k)
  {
  }

  /** Twins do the same to the machine, whatever the instruction. */
  lemma TwinsAgree(a: Arch, i: Instr, j: Instr, e: Env)
    requires Twins(i, j, a)
    ensures Sem(a, i, e) == Sem(a, j, e)
  {
    hide SemKind, FormatOf, UseOf, Target, KindOf, JumpTarget, NextPc, Transfer, MulDivResult, BranchTaken, BranchTarget, Retire,
      Trapped, Low5, Plainly;
    var k := KindOf(i.ty);
    KindsCover(k);
    if Plainly(k) {
      SemPlainly(a, i, j, e, k);
    } else {
      match k
      case Alu => TwinAlu(a, i, j, e);
      case LoadStore => TwinAccess(a, i, j, e);
      case Jump => TwinJump(a, i, j, e);
      case Branch => TwinBranch(a, i, j, e);
      case MulDiv => TwinMul(a, i, j, e);
      case CsrOp => TwinCsr(a, i, j, e);
      case Invalid =>
        SemInvalid(a, i, e);
        SemInvalid(a, j, e);
      case _ =>
        SemOther(a, i, e, Ebreak);
        SemOther(a, j, e, Ebreak);
    }
  }

  /** Kinds of instruction that have a compressed form. */
  predicate Compressible(t: InstrType) { KindOf(t) in {Alu, LoadStore, Jump, Branch, Ebreak} }

  lemma StandsTwins(a: Arch, i: Instr, j: Instr, m: Asm)
    requires Stands(i, m) && Stands(j, m) && i.compressed == j.compressed && Compressible(m.ty)
    ensures Twins(i, j, a)
  {
    hide Fits, FormatOf, UseOf, RegOf, Low5, CsrNumber, KindOf;
  }

  lemma ShortCompressible(t: InstrType)
    ensures Short(t) ==> Compressible(t) && t != INVALID && t != NOP
  {
  }

  // ------------------------------------------------------------------- the theorem

  lemma NopShort()
    ensures !IsLong(1) && LowHalf(1) == 1
  {
  }

  function AsCompressed(i: Instr): (r: Instr) { i.(compressed := true) }

  lemma IssueShort(w: bv32)
    requires !IsLong(w) && Decompress(LowHalf(w)).ty != INVALID
    ensures Issue(w, 0, 0) == Decompress(LowHalf(w))
  {
    hide Decompress, IsLong, LowHalf, Decode32;
  }

  lemma IssueLong(w: bv32)
    requires IsLong(w) && Decode32(w).ty != INVALID
    ensures Issue(w, 0, 0) == Decode32(w)
  {
    hide Decompress, IsLong, LowHalf, Decode32;
  }

  lemma CompressedStands(i: Instr, m: Asm)
    requires Stands(i, m)
    ensures Stands(AsCompressed(i), m)
  {
    hide Fits, FormatOf, UseOf, RegOf, Low5, CsrNumber;
  }

  lemma RetireNone(a: Arch, i: Instr, pc: bv32, v: bv32)
    requires Target(i) == 0
    ensures Retire(a, i, pc, v) == a.(pc := pc)
  {
  }

  lemma NopFacts(i: Instr)
    requires Means(i, Asm(ADDI, 0, 0, 0, 0))
    ensures i.ty == ADDI && !i.onTrap && Target(i) == 0 && KindOf(i.ty) == Alu
  {
    hide FormatOf, UseOf, CsrNumber, Low5;
    Zero();
  }

  lemma SemNop(a: Arch, i: Instr, e: Env)
    ensures SemKind(a, i, e, Nop) == Retire(a, i, NextPc(a.pc, i.compressed), 0)
  {
    hide Retire, NextPc;
  }

  /** C.NOP does what ADDI x0, x0, 0 does. */
  lemma NopIsAddi(a: Arch, i: Instr, e: Env)
    requires Means(i, Asm(ADDI, 0, 0, 0, 0)) && i.compressed
    ensures Sem(a, Compressed(1, NOP, false, 0, 0, 0, 0, false), e) == Sem(a, i, e)
  {
    hide AluResult, NextPc, UseOf, SizeOfType, Means, SemKind, Retire, KindOf;
    var n := Compressed(1, NOP, false, 0, 0, 0, 0, false);
    NopFacts(i);
    SemAlu(a, i, e);
    SemNop(a, n, e);
    NopKind();
    RetireNone(a, i, NextPc(a.pc, true), AluResult(i.ty, a.pc, a.regs[i.rs1], a.regs[i.rs2], i.imm));
    RetireNone(a, n, NextPc(a.pc, true), 0);
  }

  lemma NopKind()
    ensures KindOf(NOP) == Nop
  {
  }

  /** Executing a compressed instruction has exactly the effect of executing its
      32-bit expansion, but for the length that fall-through and link addresses use. */
  lemma RvcPreservesMeaning(w: bv32, a: Arch, e: Env)
    requires !IsLong(w) && AsmOf(LowHalf(w)).Some?
    ensures var long := WordOf(AsmOf(LowHalf(w)).value);
            IsLong(long) && Sem(a, Issue(w, 0, 0), e) == Sem(a, AsCompressed(Issue(long, 0, 0)), e)
  {
    hide Sem, AsmOf, WordOf, Decompress, Decode32, IsLong, LowHalf, Fits, Means, Issue, Compressible, Short;
    var c, m := LowHalf(w), AsmOf(LowHalf(w)).value;
    var long := WordOf(m);
    ShortAsm(c);
    ShortCompressible(m.ty);
    DecompressStands(c);
    if c == 1 { NopShort(); }
    WordOfLong(m);
    DecodeEncode(m);
    DecodedType(Decode32(long), m);
    IssueLong(long);
    CompressedStands(Decode32(long), m);
    if c == 1 {
      IssueShort(w);
      NopIsAddi(a, AsCompressed(Decode32(long)), e);
    } else {
      DecodedType(Decompress(c), m);
      IssueShort(w);
      StandsTwins(a, Decompress(c), AsCompressed(Decode32(long)), m);
      TwinsAgree(a, Decompress(c), AsCompressed(Decode32(long)), e);
    }
  }

  lemma DecodedType(i: Instr, m: Asm)
    requires Means(i, m)
    ensures i.ty == m.ty && !i.onTrap
  {
    hide FormatOf, UseOf, RegOf, Low5, CsrNumber;
  }
}
