/** Loads, stores and atomics on the programmer's machine: addresses, faults,
    protection and results, in numbers (src/exec.hpp:600-716, src/mmu.hpp:134-436,
    src/memory.hpp:128-154, 706-843). */
module AccessLaws {
  import opened Options
  import opened Isa
  import opened Memory
  import opened MemoryLaws
  import opened Exec
  import opened Sequential
  import opened AluLaws
  import Mmu
  import Im = Immu
  import Sv32
  import Pmp
  import Mext
  import Encode
  import Decode
  import Bits
  import H = Hart

  // ------------------------------------------------------------------ the request

  lemma SizeNum(b: bv8)
    ensures SizeOf(b) == b as int
  {
  }

  lemma NatRaw(w: bv32)
    ensures H.NatOf(w) == w as int
  {
  }

  lemma WordIsNum(n: nat)
    requires n < 0x1_0000_0000
    ensures Bits.Num(H.WordOf(n)) == n
  {
    WordRaw(n);
    hide Bits.Num, H.WordOf, Bits.OfNat;
    Bits.OfNatNum(n);
  }

  lemma WordRaw(n: nat)
    requires n < 0x1_0000_0000
    ensures H.WordOf(n) == Bits.OfNat(n)
  {
  }

  lemma AddressRaw(atomic: bool, x: bv32, imm: bv32)
    ensures AccessAddress(atomic, x, imm) == if atomic then x else Bits.Plus(x, imm)
  {
  }

  /** Where an access goes and what it carries: atomics take the base register as it
      is, everything else adds the offset modulo 2^32. */
  lemma RequestLaw(i: Instr, x: bv32, y: bv32)
    ensures var q := DataReq(i, x, y);
            && q.addr == (if i.isAtomic then Bits.Num(x) else (Bits.Num(x) + Bits.Num(i.imm)) % 0x1_0000_0000)
            && q.wdata == y && q.size == i.memSize as int
            && q.isLoad == i.isLoad && q.isStore == i.isStore && q.isAmo == i.isAtomic && q.amoOp == i.amoOp
  {
    hide Bits.Num, Bits.Plus, H.NatOf, AccessAddress, SizeOf;
    AddressRaw(i.isAtomic, x, i.imm);
    NatRaw(AccessAddress(i.isAtomic, x, i.imm));
    Bits.NumIsInt(AccessAddress(i.isAtomic, x, i.imm));
    Bits.PlusNum(x, i.imm);
    SizeNum(i.memSize);
  }

  // ------------------------------------------------------------------------ faults

  /** Loads and LR count as reads. */
  predicate Reads(q: Req) { q.isLoad || (q.isAmo && q.amoOp == 0) }

  /** The cause of a refused access: page faults 13 and 15, access faults 5 and 7,
      misaligned addresses 4 and 6, for reads and for the rest. */
  lemma FaultLaw(h: H.Hart, m: Mem, q: Req)
    requires q.size > 0
    ensures var r, x := Mmu.Access(h, m, q), Mmu.Translate(h, m, q);
            match x
            case PageFault => r == Mmu.Fault(if Reads(q) then 13 else 15)
            case AccessFault => r == Mmu.Fault(if Reads(q) then 5 else 7)
            case Pa(pa) =>
              && (pa % q.size != 0 ==> r == Mmu.Fault(if Reads(q) then 4 else 6))
              && (pa % q.size == 0 && !Mmu.Reachable(h, q.(ack := true, addr := pa)) ==> r == Mmu.Fault(if Reads(q) then 5 else 7))
              && (r.Done? ==> pa % q.size == 0 && Mmu.Reachable(h, q.(ack := true, addr := pa)))
  {
    hide Mmu.Translate, Mmu.Reachable, MemAccess, Commit;
  }

  // -------------------------------------------------- privilege and translation

  lemma MppRaw(m: bv32)
    ensures H.Mpp(m) == Bits.Keep(Bits.Right(m, 11), 2)
  {
  }

  lemma MppConstants()
    ensures Bits.Num(11) == 11 && Bits.Num(2) == 2 && Bits.Pow2(11) == 0x800 && Bits.Pow2(2) == 4
  {
    hide Bits.Num;
    Bits.NumIsInt(11);
    Bits.NumIsInt(2);
    assert Bits.Pow2(4) == 16;
    assert Bits.Pow2(8) == 256;
  }

  lemma MppNum(m: bv32)
    ensures Bits.Num(H.Mpp(m)) == Bits.Num(m) / 0x800 % 4
  {
    MppRaw(m);
    hide Bits.Num, H.Mpp, Bits.Keep, Bits.Right;
    MppConstants();
    Bits.RightNum(m, 11);
    Bits.KeepNum(Bits.Right(m, 11), 2);
  }

  /** The fields of mstatus, digit by digit. */
  lemma StatusFields(m: bv32)
    ensures H.SieBit(m) == Bits.Digit(Bits.Num(m), 1) && H.MieBit(m) == Bits.Digit(Bits.Num(m), 3)
    ensures H.SpieBit(m) == Bits.Digit(Bits.Num(m), 5) && H.MpieBit(m) == Bits.Digit(Bits.Num(m), 7)
    ensures H.SppBit(m) == Bits.Digit(Bits.Num(m), 8) && Bits.Num(H.Mpp(m)) == Bits.Num(m) / 0x800 % 4
    ensures H.MprvBit(m) == Bits.Digit(Bits.Num(m), 17) && H.SumBit(m) == Bits.Digit(Bits.Num(m), 18)
    ensures H.MxrBit(m) == Bits.Digit(Bits.Num(m), 19) && H.TvmBit(m) == Bits.Digit(Bits.Num(m), 20)
    ensures H.TwBit(m) == Bits.Digit(Bits.Num(m), 21) && H.TsrBit(m) == Bits.Digit(Bits.Num(m), 22)
  {
    MppNum(m);
    hide Bits.Num, Bits.Digit, H.Mpp;
    Bits.LowDigits(m);
    Bits.HighDigits(m);
  }

  /** Data accesses are made under MPP if MPRV is set, else under the privilege. */
  lemma PrivilegeLaw(h: H.Hart)
    ensures Bits.Num(Mmu.EffPriv(h))
            == if Bits.Digit(Bits.Num(h.Status()), 17) then Bits.Num(h.Status()) / 0x800 % 4 else Bits.Num(h.priv)
  {
    hide Bits.Num, Bits.Digit, H.Mpp, H.MprvBit;
    StatusFields(h.Status());
  }

  lemma PrivNumbers()
    ensures Bits.Num(0) == 0 && Bits.Num(1) == 1 && Bits.Num(3) == 3
  {
    hide Bits.Num;
    Bits.NumIsInt(0);
    Bits.NumIsInt(1);
    Bits.NumIsInt(3);
  }

  lemma PrivIs(p: bv32, n: bv32)
    ensures p == n <==> Bits.Num(p) == Bits.Num(n)
  {
    if Bits.Num(p) == Bits.Num(n) { Bits.NumInjective(p, n); }
  }

  lemma SatpMode(satp: bv32)
    ensures Sv32.SatpOn(satp) == Bits.Digit(Bits.Num(satp), 31)
  {
    hide Bits.Num, Bits.Digit;
    Bits.HighDigits(satp);
  }

  /** Sv32 applies to data accesses when bit 31 of satp is set and the access is made
      below M mode, and to fetches when it is set and the machine is below M mode. */
  lemma TranslationLaw(h: H.Hart)
    ensures Mmu.TranslationOn(h)
            <==> && Bits.Digit(Bits.Num(h.Get(H.SATP)), 31)
                 && (Bits.Num(h.priv) == 0 || Bits.Num(h.priv) == 1 || Bits.Num(Mmu.EffPriv(h)) != 3)
    ensures Im.TranslationOn(h)
            <==> Bits.Digit(Bits.Num(h.Get(H.SATP)), 31) && (Bits.Num(h.priv) == 0 || Bits.Num(h.priv) == 1)
  {
    hide Bits.Num, Bits.Digit, Mmu.EffPriv, Sv32.SatpOn;
    SatpMode(h.Get(H.SATP));
    PrivNumbers();
    PrivIs(h.priv, 0);
    PrivIs(h.priv, 1);
    PrivIs(Mmu.EffPriv(h), 3);
  }

  /** The walk is told the request's kind, the privilege, and SUM and MXR. */
  lemma AskerLaw(h: H.Hart, q: Req, priv: bv32)
    ensures Mmu.WhoOf(h, q, priv)
            == Sv32.Data(q.isLoad, q.isStore, q.isAmo, q.amoOp, priv,
                         Bits.Digit(Bits.Num(h.Status()), 18), Bits.Digit(Bits.Num(h.Status()), 19))
  {
    hide Bits.Num, Bits.Digit, H.SumBit, H.MxrBit;
    StatusFields(h.Status());
  }

  // ------------------------------------------------------------------- protection

  /** Entry `k` is the lowest that holds some byte of the access; COUNT if none does. */
  ghost predicate Lowest(p: Pmp.Regs, k: int, a: nat, size: nat) {
    && 0 <= k <= Pmp.COUNT
    && (forall j :: 0 <= j < k ==> !Pmp.SomeByte(p, j, a, size))
    && (k < Pmp.COUNT ==> Pmp.SomeByte(p, k, a, size))
  }

  /** A store or atomic that goes through below M mode has the write bit of the lowest
      entry that holds some byte of it, and that entry holds all of it. */
  lemma StoreNeedsWrite(h: H.Hart, m: Mem, q: Req, k: int)
    requires (q.isStore || q.isAmo) && 1 <= q.size <= 4 && Mmu.EffPriv(h) != 3
    requires Mmu.Access(h, m, q).Done? && Lowest(h.pmp, k, Mmu.Translate(h, m, q).addr, q.size)
    ensures k < Pmp.COUNT && h.pmp.cfg[k] as int / 2 % 2 == 1
    ensures Pmp.EveryByte(h.pmp, k, Mmu.Translate(h, m, q).addr, q.size)
  {
    hide Mmu.Translate, MemAccess, Commit, Mmu.EffPriv, Pmp.CheckFrom, Pmp.SomeByte, Pmp.EveryByte, Pmp.Allowed;
    FaultLaw(h, m, q);
    Pmp.AllowedIff(h.pmp, k, Mmu.Translate(h, m, q).addr, 2, q.size, Mmu.EffPriv(h));
  }

  /** A load that goes through has a read or write bit there, for the four bytes from
      its address. */
  lemma LoadNeedsRead(h: H.Hart, m: Mem, q: Req, k: int)
    requires !q.isStore && !q.isAmo && 1 <= q.size <= 4 && Mmu.EffPriv(h) != 3
    requires Mmu.Access(h, m, q).Done? && Lowest(h.pmp, k, Mmu.Translate(h, m, q).addr, 4)
    ensures k < Pmp.COUNT && h.pmp.cfg[k] as int % 4 != 0
    ensures Pmp.EveryByte(h.pmp, k, Mmu.Translate(h, m, q).addr, 4)
  {
    hide Mmu.Translate, MemAccess, Commit, Mmu.EffPriv, Pmp.CheckFrom, Pmp.SomeByte, Pmp.EveryByte, Pmp.Allowed;
    FaultLaw(h, m, q);
    Pmp.AllowedIff(h.pmp, k, Mmu.Translate(h, m, q).addr, 1, 4, Mmu.EffPriv(h));
  }

  /** A fetch that goes through has the execute bit there, for the whole word. */
  lemma FetchNeedsExecute(h: H.Hart, m: Mem, pc: Addr, k: int)
    requires h.priv != 3 && Im.FetchAccess(h, m, pc).Instruction? && Lowest(h.pmp, k, Im.Translate(h, m, pc).addr, 4)
    ensures k < Pmp.COUNT && h.pmp.cfg[k] as int / 4 % 2 == 1
    ensures Pmp.EveryByte(h.pmp, k, Im.Translate(h, m, pc).addr, 4)
    ensures Bits.Num(Im.FetchAccess(h, m, pc).word) == LittleEndian(m, Im.Translate(h, m, pc).addr, 4)
  {
    hide Im.Translate, Pmp.CheckFrom, Pmp.SomeByte, Pmp.EveryByte, Pmp.Allowed, Read, Bits.Num;
    Pmp.AllowedIff(h.pmp, k, Im.Translate(h, m, pc).addr, 4, 4, h.priv);
    ReadNum(m, Im.Translate(h, m, pc).addr, 4);
  }

  /** Protection of a data access in every mode: the verdict of the byte-by-byte scan,
      for writing the bytes of a store or atomic and for reading four bytes otherwise,
      and an address in memory. */
  lemma ReachableLaw(h: H.Hart, q: Req)
    requires 1 <= q.size <= 4
    ensures Mmu.Reachable(h, q)
            <==> && Sv32.PmaValid(q.addr)
                 && (if q.isStore || q.isAmo then Pmp.Verdict(h.pmp, 0, q.addr, 2, q.size, Mmu.EffPriv(h))
                     else Pmp.Verdict(h.pmp, 0, q.addr, 1, 4, Mmu.EffPriv(h)))
  {
    hide Pmp.Verdict, Pmp.CheckFrom, Sv32.PmaValid, Mmu.EffPriv;
    if q.isStore || q.isAmo {
      Pmp.CheckIsVerdict(h.pmp, 0, q.addr, 2, q.size, Mmu.EffPriv(h));
    } else {
      Pmp.CheckIsVerdict(h.pmp, 0, q.addr, 1, 4, Mmu.EffPriv(h));
    }
  }

  /** And of a fetch: executing the four bytes of the word. */
  lemma ExecutableLaw(h: H.Hart, a: Addr)
    ensures Im.Executable(h, a) <==> Sv32.PmaValid(a) && Pmp.Verdict(h.pmp, 0, a, 4, 4, h.priv)
  {
    hide Pmp.Verdict, Pmp.CheckFrom, Sv32.PmaValid;
    Pmp.CheckIsVerdict(h.pmp, 0, a, 4, 4, h.priv);
  }

  // --------------------------------------------------------------- what is done

  /** The memory fields of a record as its type has them. */
  predicate Shaped(i: Instr) {
    && !i.onTrap
    && (match i.ty
        case LB | LBU => i.isLoad && !i.isStore && !i.isAtomic && i.memSize == 1
        case LH | LHU => i.isLoad && !i.isStore && !i.isAtomic && i.memSize == 2
        case LW => i.isLoad && !i.isStore && !i.isAtomic && i.memSize == 4
        case SB => !i.isLoad && i.isStore && !i.isAtomic && i.memSize == 1
        case SH => !i.isLoad && i.isStore && !i.isAtomic && i.memSize == 2
        case SW => !i.isLoad && i.isStore && !i.isAtomic && i.memSize == 4
        case LR_W => Atomic(i, 0)
        case SC_W => Atomic(i, 1)
        case AMOSWAP_W => Atomic(i, 2)
        case AMOADD_W => Atomic(i, 3)
        case AMOXOR_W => Atomic(i, 4)
        case AMOAND_W => Atomic(i, 5)
        case AMOOR_W => Atomic(i, 6)
        case AMOMIN_W => Atomic(i, 7)
        case AMOMAX_W => Atomic(i, 8)
        case AMOMINU_W => Atomic(i, 9)
        case AMOMAXU_W => Atomic(i, 10)
        case _ => false)
  }

  predicate Atomic(i: Instr, op: bv8) { !i.isLoad && !i.isStore && i.isAtomic && i.amoOp == op && i.memSize == 4 }

  lemma LoadUses(ty: InstrType)
    requires Encode.IsLoad(ty)
    ensures Encode.UseOf(ty) == Encode.LoadUse(ty)
  {
  }

  lemma StoreUses(ty: InstrType)
    requires Encode.IsS(ty)
    ensures Encode.UseOf(ty) == Encode.StoreUse(ty)
  {
  }

  lemma AtomicUses(ty: InstrType)
    requires Encode.IsAmo(ty)
    ensures Encode.UseOf(ty) == Encode.Atomic(Encode.AmoNumberOf(ty))
  {
  }

  lemma AtomicCodes()
    ensures Decode.AmoCode(0) == 0 && Decode.AmoCode(1) == 1 && Decode.AmoCode(2) == 2 && Decode.AmoCode(3) == 3
    ensures Decode.AmoCode(4) == 4 && Decode.AmoCode(5) == 5 && Decode.AmoCode(6) == 6 && Decode.AmoCode(7) == 7
    ensures Decode.AmoCode(8) == 8 && Decode.AmoCode(9) == 9 && Decode.AmoCode(10) == 10
  {
  }

  lemma DecodedLoad(i: Instr)
    requires !i.onTrap && Encode.IsLoad(i.ty) && Encode.UseIn(i) == Encode.LoadUse(i.ty)
    ensures Shaped(i)
  {
  }

  lemma DecodedStore(i: Instr)
    requires !i.onTrap && Encode.IsS(i.ty) && Encode.UseIn(i) == Encode.StoreUse(i.ty)
    ensures Shaped(i)
  {
  }

  lemma DecodedAtomic(i: Instr)
    requires !i.onTrap && Encode.IsAmo(i.ty) && Encode.UseIn(i) == Encode.Atomic(Encode.AmoNumberOf(i.ty))
    ensures Shaped(i)
  {
    hide Decode.AmoCode;
    AtomicCodes();
  }

  /** What decode gives a memory instruction has that shape. */
  lemma DecodedShaped(i: Instr)
    requires !i.onTrap && Encode.UseIn(i) == Encode.UseOf(i.ty) && (Encode.IsAmo(i.ty) || Encode.IsLoad(i.ty) || Encode.IsS(i.ty))
    ensures Shaped(i)
  {
    hide Shaped, Encode.UseOf, Encode.UseIn, Encode.IsAmo, Encode.IsLoad, Encode.IsS;
    if Encode.IsAmo(i.ty) {
      AtomicUses(i.ty);
      DecodedAtomic(i);
    } else if Encode.IsLoad(i.ty) {
      LoadUses(i.ty);
      DecodedLoad(i);
    } else {
      StoreUses(i.ty);
      DecodedStore(i);
    }
  }

  lemma ShapedKind(i: Instr)
    requires Shaped(i)
    ensures !i.onTrap && KindOf(i.ty) == LoadStore && (i.memSize == 1 || i.memSize == 2 || i.memSize == 4)
  {
  }

  lemma LoadStoreStep(a: Arch, i: Instr, e: Env)
    requires !i.onTrap && KindOf(i.ty) == LoadStore
    ensures Sem(a, i, e) == Load(a, i, DataReq(i, a.regs[i.rs1], a.regs[i.rs2]))
  {
    hide KindOf, Retire, Transfer, NextPc, AluResult, MulDivResult, JumpTarget, BranchTaken, BranchTarget, Load, CsrStep, Trapped, CsrVal,
      DataReq, EcallCause, SfenceIllegal, WfiIllegal, SretIllegal, H.Return, H.ReturnPc;
  }

  function RequestOf(a: Arch, i: Instr): (q: Req) { DataReq(i, a.regs[i.rs1], a.regs[i.rs2]) }

  /** A refused access traps with its cause and the virtual address. */
  lemma RefusedSem(a: Arch, i: Instr, e: Env)
    requires Shaped(i) && Mmu.Access(a.hart, a.mem, RequestOf(a, i)).Fault?
    ensures exists w :: && Bits.Num(w) == RequestOf(a, i).addr
                        && Sem(a, i, e) == Trapped(a, Mmu.Access(a.hart, a.mem, RequestOf(a, i)).cause, w)
  {
    hide Shaped, Bits.Num, KindOf, Mmu.Access, DataReq, Trapped, Sem, H.WordOf;
    ShapedKind(i);
    LoadStoreStep(a, i, e);
    WordIsNum(RequestOf(a, i).addr);
  }

  /** The machine after a completed access: data `v`, memory `m`. */
  lemma DoneSem(a: Arch, i: Instr, e: Env)
    requires Shaped(i) && Mmu.Access(a.hart, a.mem, RequestOf(a, i)).Done?
    ensures var b, r := Sem(a, i, e), Mmu.Access(a.hart, a.mem, RequestOf(a, i));
            && b.mem == r.mem && MovesOn(a.(mem := r.mem), i, b)
            && (WritesRd(i) ==> b.regs[i.rd] == LoadValue(i.ty, r.rdata))
  {
    hide Shaped, Bits.Num, KindOf, Mmu.Access, DataReq, Trapped, Sem, Retire, MovesOn, LoadValue, NextPc;
    ShapedKind(i);
    LoadStoreStep(a, i, e);
    var r := Mmu.Access(a.hart, a.mem, RequestOf(a, i));
    RetireMoves(a.(mem := r.mem), i, LoadValue(i.ty, r.rdata));
    RetireMem(a.(mem := r.mem), i, LoadValue(i.ty, r.rdata));
  }

  lemma RetireMem(a: Arch, i: Instr, v: bv32)
    ensures Retire(a, i, NextPc(a.pc, i.compressed), v).mem == a.mem
  {
  }

  /** What a load leaves in `rd` from the little-endian number it reads. */
  predicate LoadLaw(ty: InstrType, n: nat, r: Mext.Word) {
    match ty
    case LB => Mext.Signed(r) == if n < 0x80 then n else n - 0x100
    case LH => Mext.Signed(r) == if n < 0x8000 then n else n - 0x1_0000
    case LW | LBU | LHU => r == n
    case _ => false
  }

  lemma Keep8(v: bv32)
    requires v < 0x80
    ensures SignExtend8(v) == v
  {
  }

  lemma Extend8(v: bv32)
    requires 0x80 <= v < 0x100
    ensures SignExtend8(v) == Bits.Minus(v, 0x100)
  {
  }

  lemma Keep16(v: bv32)
    requires v < 0x8000
    ensures SignExtend16(v) == v
  {
  }

  lemma Extend16(v: bv32)
    requires 0x8000 <= v < 0x1_0000
    ensures SignExtend16(v) == Bits.Minus(v, 0x1_0000)
  {
  }

  lemma Below(v: bv32, n: bv32)
    ensures v < n <==> Bits.Num(v) < Bits.Num(n)
  {
    hide Bits.Num;
    Bits.LessNum(v, n);
  }

  lemma ExtendNumbers()
    ensures Bits.Num(0x80) == 0x80 && Bits.Num(0x100) == 0x100 && Bits.Num(0x8000) == 0x8000 && Bits.Num(0x1_0000) == 0x1_0000
  {
    hide Bits.Num;
    Bits.NumIsInt(0x80);
    Bits.NumIsInt(0x100);
    Bits.NumIsInt(0x8000);
    Bits.NumIsInt(0x1_0000);
  }

  lemma Extend8Num(v: bv32)
    requires Bits.Num(v) < 0x100
    ensures Mext.Signed(Bits.W(SignExtend8(v))) == if Bits.Num(v) < 0x80 then Bits.Num(v) else Bits.Num(v) - 0x100
  {
    hide Bits.Num, Bits.Minus, SignExtend8;
    ExtendNumbers();
    Below(v, 0x80);
    Below(v, 0x100);
    if v < 0x80 { Keep8(v); } else { Extend8(v); }
    Bits.MinusNum(v, 0x100);
  }

  lemma Extend16Num(v: bv32)
    requires Bits.Num(v) < 0x1_0000
    ensures Mext.Signed(Bits.W(SignExtend16(v))) == if Bits.Num(v) < 0x8000 then Bits.Num(v) else Bits.Num(v) - 0x1_0000
  {
    hide Bits.Num, Bits.Minus, SignExtend16;
    ExtendNumbers();
    Below(v, 0x8000);
    Below(v, 0x1_0000);
    if v < 0x8000 { Keep16(v); } else { Extend16(v); }
    Bits.MinusNum(v, 0x1_0000);
  }

  lemma LoadValueLaw(ty: InstrType, v: bv32)
    requires ty.LW? || ((ty.LB? || ty.LBU?) && Bits.Num(v) < 0x100) || ((ty.LH? || ty.LHU?) && Bits.Num(v) < 0x1_0000)
    ensures LoadLaw(ty, Bits.Num(v), Bits.W(LoadValue(ty, v)))
  {
    hide Bits.Num, SignExtend8, SignExtend16, Mext.Signed;
    if ty.LB? { Extend8Num(v); }
    if ty.LH? { Extend16Num(v); }
  }

  /** An access as one operation on memory, once translation and protection let it
      through to `pa`. */
  lemma ThroughMemory(h: H.Hart, m: Mem, q: Req)
    requires Mmu.Access(h, m, q).Done?
    ensures var p := q.(ack := true, addr := Mmu.Translate(h, m, q).addr);
            && Mmu.Translate(h, m, q).Pa?
            && !MemAccess(m, p).fault
            && Mmu.Access(h, m, q) == Mmu.Done(MemAccess(m, p).rdata, Commit(m, p, MemAccess(m, p)))
  {
    hide Mmu.Translate, Mmu.Reachable, MemAccess, Commit, Mmu.Misaligned;
  }

  lemma ReadThrough(m: Mem, p: Req)
    requires p.ack && p.isLoad && !p.isStore && !p.isAmo
    ensures MemAccess(m, p).rdata == Read(m, p.addr, p.size) && Commit(m, p, MemAccess(m, p)) == m
  {
    hide Read;
  }

  /** A completed load leaves memory alone and puts the bytes at its physical address
      into `rd`, sign-extended for LB and LH. */
  lemma LoadSem(a: Arch, i: Instr, e: Env)
    requires Shaped(i) && i.isLoad && Mmu.Access(a.hart, a.mem, RequestOf(a, i)).Done?
    ensures var b, pa := Sem(a, i, e), Mmu.Translate(a.hart, a.mem, RequestOf(a, i)).addr;
            && MovesOn(a, i, b)
            && (WritesRd(i) ==> LoadLaw(i.ty, LittleEndian(a.mem, pa, i.memSize as int), Bits.W(b.regs[i.rd])))
  {
    hide Bits.Num, Mmu.Access, DataReq, Sem, MovesOn, LoadValue, LoadLaw, Mmu.Translate, MemAccess, Commit, Read, Bits.W, KindOf;
    var q := RequestOf(a, i);
    ThroughMemory(a.hart, a.mem, q);
    var pa := Mmu.Translate(a.hart, a.mem, q).addr;
    RequestLaw(i, a.regs[i.rs1], a.regs[i.rs2]);
    ReadThrough(a.mem, q.(ack := true, addr := pa));
    DoneSem(a, i, e);
    assert a.(mem := a.mem) == a;
    ReadNum(a.mem, pa, q.size);
    Powers();
    ShapedLoad(i);
    LoadValueLaw(i.ty, Read(a.mem, pa, q.size));
  }

  lemma ShapedLoad(i: Instr)
    requires Shaped(i) && i.isLoad
    ensures !i.isStore && !i.isAtomic
    ensures (i.ty.LW? && i.memSize as int == 4) || ((i.ty.LB? || i.ty.LBU?) && i.memSize as int == 1)
            || ((i.ty.LH? || i.ty.LHU?) && i.memSize as int == 2)
  {
  }

  lemma WriteThrough(m: Mem, p: Req)
    requires p.ack && !p.isLoad && p.isStore && !p.isAmo
    ensures !MemAccess(m, p).fault && Commit(m, p, MemAccess(m, p)) == Write(m, p.addr, p.size, p.wdata)
  {
    hide Write;
  }

  /** Every byte of memory after a store of `w` at `pa`. */
  ghost predicate Stored(m: Mem, n: Mem, pa: Addr, size: nat, w: nat) {
    forall x: Addr ::
      var d := (x - pa) % 0x1_0000_0000;
      && ByteAt(n, x) == (if d < size then w / Power(d) % 256 else ByteAt(m, x))
      && (x in n.resv <==> d >= size && x in m.resv)
  }

  lemma WriteStores(m: Mem, pa: Addr, size: nat, w: bv32)
    requires size <= 4
    ensures Stored(m, Write(m, pa, size, w), pa, size, Bits.Num(w))
  {
    hide Bits.Num, ByteAt, Write, Power;
    forall x: Addr
      ensures var n, d := Write(m, pa, size, w), (x - pa) % 0x1_0000_0000;
              && ByteAt(n, x) == (if d < size then Bits.Num(w) / Power(d) % 256 else ByteAt(m, x))
              && (x in n.resv <==> d >= size && x in m.resv)
    {
      WriteNum(m, pa, size, w, x);
    }
  }

  lemma ShapedStore(i: Instr)
    requires Shaped(i) && i.isStore
    ensures !i.isLoad && !i.isAtomic && (i.memSize as int == 1 || i.memSize as int == 2 || i.memSize as int == 4)
  {
  }

  /** A completed store puts the low bytes of rs2 at its physical address and touches
      no other byte and no register. */
  lemma StoreSem(a: Arch, i: Instr, e: Env)
    requires Shaped(i) && i.isStore && Mmu.Access(a.hart, a.mem, RequestOf(a, i)).Done?
    ensures var b, pa := Sem(a, i, e), Mmu.Translate(a.hart, a.mem, RequestOf(a, i)).addr;
            && MovesOn(a.(mem := b.mem), i, b)
            && Stored(a.mem, b.mem, pa, i.memSize as int, Bits.Num(a.regs[i.rs2]))
  {
    hide Bits.Num, Mmu.Access, DataReq, Sem, MovesOn, Mmu.Translate, MemAccess, Commit, Write, Stored, LoadValue, KindOf;
    var q := RequestOf(a, i);
    ThroughMemory(a.hart, a.mem, q);
    var pa := Mmu.Translate(a.hart, a.mem, q).addr;
    RequestLaw(i, a.regs[i.rs1], a.regs[i.rs2]);
    ShapedStore(i);
    WriteThrough(a.mem, q.(ack := true, addr := pa));
    DoneSem(a, i, e);
    WriteStores(a.mem, pa, q.size, q.wdata);
  }

  predicate IsAmoType(ty: InstrType) {
    || ty.AMOSWAP_W? || ty.AMOADD_W? || ty.AMOXOR_W? || ty.AMOAND_W? || ty.AMOOR_W?
    || ty.AMOMIN_W? || ty.AMOMAX_W? || ty.AMOMINU_W? || ty.AMOMAXU_W?
  }

  /** What an atomic leaves in memory, by its name: `x` is rs2, `y` the old word. */
  predicate NamedLaw(ty: InstrType, x: Mext.Word, y: Mext.Word, r: Mext.Word) {
    match ty
    case AMOSWAP_W => r == x
    case AMOADD_W => r == (x + y) % 0x1_0000_0000
    case AMOXOR_W => forall k: nat :: k < 32 ==> (Bits.Digit(r, k) <==> Bits.Digit(x, k) != Bits.Digit(y, k))
    case AMOAND_W => forall k: nat :: k < 32 ==> (Bits.Digit(r, k) <==> Bits.Digit(x, k) && Bits.Digit(y, k))
    case AMOOR_W => forall k: nat :: k < 32 ==> (Bits.Digit(r, k) <==> Bits.Digit(x, k) || Bits.Digit(y, k))
    case AMOMIN_W => (r == x || r == y) && Mext.Signed(r) <= Mext.Signed(x) && Mext.Signed(r) <= Mext.Signed(y)
    case AMOMAX_W => (r == x || r == y) && Mext.Signed(r) >= Mext.Signed(x) && Mext.Signed(r) >= Mext.Signed(y)
    case AMOMINU_W => (r == x || r == y) && r <= x && r <= y
    case AMOMAXU_W => (r == x || r == y) && r >= x && r >= y
    case _ => false
  }

  lemma NamedIs(i: Instr, x: Mext.Word, y: Mext.Word, r: Mext.Word)
    requires Shaped(i) && IsAmoType(i.ty) && AmoLaw(i.amoOp, x, y, r)
    ensures NamedLaw(i.ty, x, y, r)
  {
    hide Mext.Signed, Bits.Digit;
  }

  lemma ShapedAmo(i: Instr)
    requires Shaped(i) && (IsAmoType(i.ty) || i.ty.LR_W? || i.ty.SC_W?)
    ensures !i.isLoad && !i.isStore && i.isAtomic && i.memSize as int == 4
    ensures IsAmoType(i.ty) ==> i.amoOp != 0 && i.amoOp != 1
    ensures (i.ty.LR_W? ==> i.amoOp == 0) && (i.ty.SC_W? ==> i.amoOp == 1)
  {
  }

  lemma AmoThrough(m: Mem, p: Req)
    requires p.ack && !p.isLoad && !p.isStore && p.isAmo && p.size == 4 && p.amoOp != 0 && p.amoOp != 1 && !MemAccess(m, p).fault
    ensures p.addr % 4 == 0 && MemAccess(m, p).rdata == Read(m, p.addr, 4)
    ensures Commit(m, p, MemAccess(m, p)) == Write(m, p.addr, 4, AmoResult(p.amoOp, p.wdata, Read(m, p.addr, 4)))
  {
    hide Write, Read, AmoResult, DeviceAddress;
  }

  lemma PlainValue(ty: InstrType, v: bv32)
    ensures !ty.LB? && !ty.LH? ==> LoadValue(ty, v) == v
  {
  }

  /** A completed read-modify-write: `rd` gets the old word at the physical address,
      memory gets the operation's result there, and no other byte changes. */
  lemma AmoSem(a: Arch, i: Instr, e: Env)
    requires Shaped(i) && IsAmoType(i.ty) && Mmu.Access(a.hart, a.mem, RequestOf(a, i)).Done?
    ensures var b, pa := Sem(a, i, e), Mmu.Translate(a.hart, a.mem, RequestOf(a, i)).addr;
            && pa % 4 == 0 && MovesOn(a.(mem := b.mem), i, b)
            && (WritesRd(i) ==> Bits.Num(b.regs[i.rd]) == LittleEndian(a.mem, pa, 4))
            && NamedLaw(i.ty, Bits.W(a.regs[i.rs2]), Bits.W(Read(a.mem, pa, 4)), Bits.W(Read(b.mem, pa, 4)))
            && Bits.Num(Read(b.mem, pa, 4)) == LittleEndian(b.mem, pa, 4) && Bits.Num(Read(a.mem, pa, 4)) == LittleEndian(a.mem, pa, 4)
            && Stored(a.mem, b.mem, pa, 4, Bits.Num(Read(b.mem, pa, 4)))
  {
    hide Bits.Num, Mmu.Access, DataReq, Sem, MovesOn, Mmu.Translate, MemAccess, Commit, Write, Read, Stored, LoadValue, AmoResult, AmoLaw,
      NamedLaw, Bits.W, KindOf;
    var q := RequestOf(a, i);
    ThroughMemory(a.hart, a.mem, q);
    var pa := Mmu.Translate(a.hart, a.mem, q).addr;
    RequestLaw(i, a.regs[i.rs1], a.regs[i.rs2]);
    ShapedAmo(i);
    AmoThrough(a.mem, q.(ack := true, addr := pa));
    DoneSem(a, i, e);
    var was := Read(a.mem, pa, 4);
    var r := AmoResult(i.amoOp, q.wdata, was);
    AmoResultLaw(i.amoOp, q.wdata, was);
    NamedIs(i, Bits.W(q.wdata), Bits.W(was), Bits.W(r));
    StoreThenLoad(a.mem, pa, r);
    ReadNum(a.mem, pa, 4);
    ReadNum(Write(a.mem, pa, 4, r), pa, 4);
    WriteStores(a.mem, pa, 4, r);
    PlainValue(i.ty, was);
  }

  lemma LrThrough(m: Mem, p: Req)
    requires p.ack && !p.isLoad && !p.isStore && p.isAmo && p.size == 4 && p.amoOp == 0 && !MemAccess(m, p).fault
    ensures MemAccess(m, p).rdata == Read(m, p.addr, 4) && Commit(m, p, MemAccess(m, p)) == Reserve(m, p.addr, 4)
  {
    hide Write, Read, AmoResult, DeviceAddress, Reserve;
  }

  lemma ScThrough(m: Mem, p: Req)
    requires p.ack && !p.isLoad && !p.isStore && p.isAmo && p.size == 4 && p.amoOp == 1 && !MemAccess(m, p).fault
    ensures MemAccess(m, p).rdata == (if p.addr in m.resv then 0 else 1)
    ensures Commit(m, p, MemAccess(m, p)) == if p.addr in m.resv then Write(m, p.addr, 4, p.wdata) else m
  {
    hide Write, Read, AmoResult, DeviceAddress, Reserve;
  }

  lemma ReserveLaw(m: Mem, a: Addr, x: Addr)
    ensures Reserve(m, a, 4).bytes == m.bytes
    ensures x in Reserve(m, a, 4).resv <==> x in m.resv || (x - a) % 0x1_0000_0000 < 4
  {
    if (x - a) % 0x1_0000_0000 < 4 { Offset(a, x, (x - a) % 0x1_0000_0000); }
    if x in Reserve(m, a, 4).resv && x !in m.resv {
      var k: nat :| k < 4 && At(a, k) == x;
      Back(a, x, k);
    }
  }

  /** LR reads the word and reserves its four bytes. */
  lemma LrSem(a: Arch, i: Instr, e: Env)
    requires Shaped(i) && i.ty.LR_W? && Mmu.Access(a.hart, a.mem, RequestOf(a, i)).Done?
    ensures var b, pa := Sem(a, i, e), Mmu.Translate(a.hart, a.mem, RequestOf(a, i)).addr;
            && MovesOn(a.(mem := b.mem), i, b) && b.mem.bytes == a.mem.bytes
            && (WritesRd(i) ==> Bits.Num(b.regs[i.rd]) == LittleEndian(a.mem, pa, 4))
            && forall x: Addr :: x in b.mem.resv <==> x in a.mem.resv || (x - pa) % 0x1_0000_0000 < 4
  {
    hide Bits.Num, Mmu.Access, DataReq, Sem, MovesOn, Mmu.Translate, MemAccess, Commit, Read, LoadValue, Reserve, KindOf;
    var q := RequestOf(a, i);
    ThroughMemory(a.hart, a.mem, q);
    var pa := Mmu.Translate(a.hart, a.mem, q).addr;
    RequestLaw(i, a.regs[i.rs1], a.regs[i.rs2]);
    ShapedAmo(i);
    LrThrough(a.mem, q.(ack := true, addr := pa));
    DoneSem(a, i, e);
    ReadNum(a.mem, pa, 4);
    PlainValue(i.ty, Read(a.mem, pa, 4));
    forall x: Addr ensures x in Reserve(a.mem, pa, 4).resv <==> x in a.mem.resv || (x - pa) % 0x1_0000_0000 < 4 {
      ReserveLaw(a.mem, pa, x);
    }
    ReserveLaw(a.mem, pa, pa);
  }

  /** SC stores rs2 and answers 0 if its first byte is reserved, else answers 1 and
      changes nothing. */
  lemma ScSem(a: Arch, i: Instr, e: Env)
    requires Shaped(i) && i.ty.SC_W? && Mmu.Access(a.hart, a.mem, RequestOf(a, i)).Done?
    ensures var b, pa := Sem(a, i, e), Mmu.Translate(a.hart, a.mem, RequestOf(a, i)).addr;
            && MovesOn(a.(mem := b.mem), i, b)
            && (WritesRd(i) ==> Bits.Num(b.regs[i.rd]) == if pa in a.mem.resv then 0 else 1)
            && (if pa in a.mem.resv then Stored(a.mem, b.mem, pa, 4, Bits.Num(a.regs[i.rs2])) else b.mem == a.mem)
  {
    hide Bits.Num, Mmu.Access, DataReq, Sem, MovesOn, Mmu.Translate, MemAccess, Commit, Write, Stored, LoadValue, KindOf;
    var q := RequestOf(a, i);
    ThroughMemory(a.hart, a.mem, q);
    var pa := Mmu.Translate(a.hart, a.mem, q).addr;
    RequestLaw(i, a.regs[i.rs1], a.regs[i.rs2]);
    ShapedAmo(i);
    ScThrough(a.mem, q.(ack := true, addr := pa));
    DoneSem(a, i, e);
    WriteStores(a.mem, pa, 4, q.wdata);
    PlainValue(i.ty, if pa in a.mem.resv then 0 else 1);
    Bits.ZeroNum();
    Bits.OneNum();
  }
}
