/** Memory over whole runs: what a run leaves there is its committed requests in
    order, so SC.W of a running program stores exactly when the history says so
    (src/memory.hpp:706-843). */
module Atomics {
  import opened Isa
  import opened Memory
  import opened Mmu
  import opened Exec
  import opened Sequential
  import opened Core
  import Decode
  import Sv32
  import H = Hart

  // ----------------------------------------------------------- acts of an access

  /** The request as memory sees it. */
  function Physical(q: Req, pa: Addr): (p: Req) { q.(ack := true, addr := pa) }

  function AccessActs(h: H.Hart, m: Mem, q: Req): (xs: seq<Act>) {
    match Translate(h, m, q)
    case Pa(pa) =>
      var p := Physical(q, pa);
      if Misaligned(p) || !Reachable(h, p) then [] else ActsOf(p, MemAccess(m, p))
    case _ => []
  }

  lemma AccessIsActs(h: H.Hart, m: Mem, q: Req)
    ensures MemAfter(m, Access(h, m, q)) == DoAll(m, AccessActs(h, m, q))
  {
    hide Translate, Misaligned, Reachable, MemAccess, ActsOf, Commit, Do;
    if Translate(h, m, q).Pa? {
      var p := Physical(q, Translate(h, m, q).addr);
      CommitIsActs(m, p, MemAccess(m, p));
      FaultCommitsNothing(m, p, MemAccess(m, p));
    }
  }

  lemma FaultCommitsNothing(m: Mem, q: Req, r: Rsp)
    ensures r.fault ==> Commit(m, q, r) == m && ActsOf(q, r) == []
  {
  }

  // --------------------------------------------------------------- acts of a run

  predicate IsAccess(i: Instr) { !i.onTrap && KindOf(i.ty) == LoadStore }

  function InstrActs(a: Arch, i: Instr): (xs: seq<Act>) {
    if IsAccess(i) then AccessActs(a.hart, a.mem, DataReq(i, a.regs[i.rs1], a.regs[i.rs2])) else []
  }

  function StepActs(a: Arch, f: Fate, code: Code): (xs: seq<Act>) {
    if f == Executes then InstrActs(a, code(a)) else []
  }

  /** What a run of the sequential machine asks of memory, in order. */
  function RunActs(a: Arch, code: Code, h: seq<(Fate, Env)>): (xs: seq<Act>)
    decreases h
  {
    if h == [] then [] else StepActs(a, h[0].0, code) + RunActs(Meaning(a, h[0].0, code, h[0].1), code, h[1..])
  }

  lemma RetireMem(a: Arch, i: Instr, pc: bv32, v: bv32)
    ensures Retire(a, i, pc, v).mem == a.mem
  {
  }

  lemma TransferMem(a: Arch, i: Instr, target: bv32, link: bv32)
    ensures Transfer(a, i, target, link).mem == a.mem
  {
    hide OddPc, H.Trap, H.TrapPc, WriteReg;
  }

  lemma CsrStepMem(a: Arch, i: Instr, e: Env, val: bv32)
    ensures CsrStep(a, i, e, val).mem == a.mem
  {
    hide CsrLegal, H.Trap, H.TrapPc, H.CsrRead, H.CsrUpdate, OpKind, NextPc, WriteReg;
  }

  lemma LoadMem(a: Arch, i: Instr, q: Req)
    ensures Load(a, i, q).mem == MemAfter(a.mem, Access(a.hart, a.mem, q))
  {
    hide Access, H.Trap, H.TrapPc, LoadValue, NextPc, WriteReg;
  }

  lemma TrappedMem(a: Arch, cause: bv32, tval: bv32)
    ensures Trapped(a, cause, tval).mem == a.mem
  {
  }

  /** Only memory instructions touch memory. */
  lemma KindMem(a: Arch, i: Instr, e: Env, k: Kind)
    requires k != LoadStore
    ensures SemKind(a, i, e, k).mem == a.mem
  {
    hide Retire, Transfer, CsrStep, Trapped, Load, AluResult, MulDivResult, JumpTarget, BranchTarget, BranchTaken, NextPc, CsrVal,
      SfenceIllegal, WfiIllegal, SretIllegal, EcallCause, H.ReturnPc, H.Return, DataReq;
    var rs1, rs2 := a.regs[i.rs1], a.regs[i.rs2];
    var next := NextPc(a.pc, i.compressed);
    match k
    case Alu => RetireMem(a, i, next, AluResult(i.ty, a.pc, rs1, rs2, i.imm));
    case MulDiv => RetireMem(a, i, next, MulDivResult(i.ty, rs1, rs2));
    case Jump => TransferMem(a, i, JumpTarget(i.ty, a.pc, rs1, i.imm), next);
    case Branch =>
      TransferMem(a, i, BranchTarget(a.pc, i.imm), BranchTarget(a.pc, i.imm));
      RetireMem(a, i, next, 0);
    case CsrOp => CsrStepMem(a, i, e, CsrVal(i, rs1));
    case Ecall => TrappedMem(a, EcallCause(a.hart.priv), 0);
    case Ebreak => TrappedMem(a, 3, a.pc);
    case Invalid => TrappedMem(a, ILLEGAL, i.inst);
    case _ =>
      TrappedMem(a, ILLEGAL, 0);
      RetireMem(a, i, next, 0);
  }

  lemma SemLoadStore(a: Arch, i: Instr, e: Env)
    ensures SemKind(a, i, e, LoadStore) == Load(a, i, DataReq(i, a.regs[i.rs1], a.regs[i.rs2]))
  {
    hide Load, DataReq;
  }

  lemma SemActs(a: Arch, i: Instr, e: Env)
    ensures Sem(a, i, e).mem == DoAll(a.mem, InstrActs(a, i))
  {
    hide SemKind, KindOf, Trapped, AccessActs, Access, DataReq, Load;
    var q := DataReq(i, a.regs[i.rs1], a.regs[i.rs2]);
    if i.onTrap {
      TrappedMem(a, i.cause, i.tval);
    } else if KindOf(i.ty) == LoadStore {
      SemLoadStore(a, i, e);
      LoadMem(a, i, q);
      AccessIsActs(a.hart, a.mem, q);
    } else {
      KindMem(a, i, e, KindOf(i.ty));
    }
  }

  lemma StepMem(a: Arch, f: Fate, code: Code, e: Env)
    ensures Meaning(a, f, code, e).mem == DoAll(a.mem, StepActs(a, f, code))
  {
    hide Sem, InstrActs, Trapped;
    match f
    case Stutter =>
    case Interrupt(c) => TrappedMem(a, c, 0);
    case Executes => SemActs(a, code(a), e);
  }

  lemma {:induction false} DoBoth(m: Mem, xs: seq<Act>, ys: seq<Act>)
    ensures DoAll(m, xs + ys) == DoAll(DoAll(m, xs), ys)
    decreases |ys|
  {
    hide Do;
    if ys == [] {
      assert xs + ys == xs;
    } else {
      var n := |ys| - 1;
      DoBoth(m, xs, ys[..n]);
      assert (xs + ys)[..|xs + ys| - 1] == xs + ys[..n];
    }
  }

  /** The memory a run leaves is its requests, carried out in order. */
  lemma {:induction false} RunMem(a: Arch, code: Code, h: seq<(Fate, Env)>)
    ensures SeqRun(a, code, h).mem == DoAll(a.mem, RunActs(a, code, h))
    decreases h
  {
    hide Meaning, StepActs, DoAll;
    if h == [] {
      DoNothing(a.mem);
    } else {
      var n := Meaning(a, h[0].0, code, h[0].1);
      StepMem(a, h[0].0, code, h[0].1);
      RunMem(n, code, h[1..]);
      DoBoth(a.mem, StepActs(a, h[0].0, code), RunActs(n, code, h[1..]));
    }
  }

  lemma DoNothing(m: Mem)
    ensures DoAll(m, []) == m
  {
  }

  // ------------------------------------------------------------- SC in a program

  /** No access is wider than a word. */
  ghost predicate Narrow(code: Code) { forall a: Arch :: SizeOf(code(a).memSize) <= 4 }

  /** True of whatever decode issues. */
  lemma DecodedNarrow(w: bv32, fault: bv32, tval: bv32)
    ensures SizeOf(Decode.Issue(w, fault, tval).memSize) <= 4
  {
    hide Decode.Issue;
    Decode.IssueTraps(w, fault, tval);
    SmallSize(Decode.Issue(w, fault, tval).memSize);
  }

  lemma SmallSize(b: bv8)
    requires b <= 4
    ensures SizeOf(b) <= 4
  {
  }

  lemma ActsNarrow(q: Req, r: Rsp, x: Act)
    requires q.size <= 4 && x in ActsOf(q, r)
    ensures x.size <= 4
  {
    hide AmoResult;
  }

  lemma AccessNarrow(h: H.Hart, m: Mem, q: Req, x: Act)
    requires q.size <= 4 && x in AccessActs(h, m, q)
    ensures x.size <= 4
  {
    hide Translate, Misaligned, Reachable, MemAccess, ActsOf;
    var p := Physical(q, Translate(h, m, q).addr);
    ActsNarrow(p, MemAccess(m, p), x);
  }

  lemma StepNarrow(a: Arch, f: Fate, code: Code, x: Act)
    requires Narrow(code) && x in StepActs(a, f, code)
    ensures x.size <= 4
  {
    hide AccessActs, KindOf, H.NatOf, AccessAddress, SizeOf;
    var i := code(a);
    AccessNarrow(a.hart, a.mem, DataReq(i, a.regs[i.rs1], a.regs[i.rs2]), x);
  }

  lemma {:induction false} RunNarrow(a: Arch, code: Code, h: seq<(Fate, Env)>)
    requires Narrow(code)
    ensures forall x :: x in RunActs(a, code, h) ==> x.size <= 4
    decreases h
  {
    hide Narrow, StepActs, Meaning;
    if h != [] {
      forall x | x in StepActs(a, h[0].0, code) ensures x.size <= 4 { StepNarrow(a, h[0].0, code, x); }
      RunNarrow(Meaning(a, h[0].0, code, h[0].1), code, h[1..]);
    }
  }

  /** In every run of the pipeline from reset, a byte is reserved exactly when some
      LR of the run covered it with no write to it since. */
  lemma CoreReservations(code: Code, s: Core, ins: seq<Input>, b: Addr)
    requires Initial(s) && AllTruthful(code, s, ins) && Narrow(code) && s.mem.resv == {}
    ensures b in Run(s, ins).mem.resv <==> HeldByLr(RunActs(Abs(s), code, History(s, ins)), b)
  {
    hide Initial, AllTruthful, Narrow, Run, History, RunActs, SeqRun, HeldByLr, DoAll, Abs;
    PipelineRefinesSequential(code, s, ins);
    var h := History(s, ins);
    RunMem(Abs(s), code, h);
    RunNarrow(Abs(s), code, h);
    AbsMem2(s);
    AbsMem2(Run(s, ins));
    ReservationHistory(s.mem, RunActs(Abs(s), code, h), b);
  }

  lemma AbsMem2(s: Core)
    ensures Abs(s).mem == s.mem
  {
    hide WriteBack;
  }

  predicate IsSc(q: Req) { q.isAmo && q.amoOp == 1 && q.size == 4 }

  /** The effect of a store-conditional that translation and PMP let through. */
  lemma ScEffect(h: H.Hart, m: Mem, q: Req, pa: Addr)
    requires IsSc(q) && Translate(h, m, q) == Sv32.Pa(pa) && pa % 4 == 0 && Reachable(h, Physical(q, pa)) && !DeviceAddress(pa, 4)
    ensures Access(h, m, q) == if pa in m.resv then Done(0, Write(m, pa, 4, q.wdata)) else Done(1, m)
  {
    hide Translate, Reachable, DeviceAddress, Write;
  }

  /** SC.W in a running program stores, and returns 0, if and only if an LR of the
      run reserved its first byte and nothing has written that byte since. */
  lemma ScStoresIff(code: Code, s: Core, ins: seq<Input>, q: Req, pa: Addr)
    requires Initial(s) && AllTruthful(code, s, ins) && Narrow(code) && s.mem.resv == {}
    requires var t := Run(s, ins);
             && IsSc(q) && Translate(t.hart, t.mem, q) == Sv32.Pa(pa) && pa % 4 == 0
             && Reachable(t.hart, Physical(q, pa)) && !DeviceAddress(pa, 4)
    ensures var t := Run(s, ins);
            Access(t.hart, t.mem, q) == if HeldByLr(RunActs(Abs(s), code, History(s, ins)), pa)
                                        then Done(0, Write(t.mem, pa, 4, q.wdata)) else Done(1, t.mem)
  {
    hide Initial, AllTruthful, Narrow, Run, History, RunActs, HeldByLr, Access, Translate, Reachable, DeviceAddress, Write, Abs;
    CoreReservations(code, s, ins, pa);
    ScEffect(Run(s, ins).hart, Run(s, ins).mem, q, pa);
  }
}
