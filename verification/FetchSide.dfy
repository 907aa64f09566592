/** The fetch side and the core together: prefetch register, instruction MMU, fetch
    buffer and decode supply the pipeline with the instructions memory holds
    (src/prefetch.hpp:23-40, src/mmu.hpp:438-657, src/fetch.hpp:39-223,
    src/decode.hpp:343-391). */
module FetchSide {
  import opened Options
  import opened Isa
  import opened Memory
  import opened Exec
  import opened Sequential
  import opened Core
  import C = Core
  import Mmu
  import Im = Immu
  import F = Fetch
  import P = Prefetch
  import D = Decode
  import Sv32
  import H = Hart

  // ------------------------------------------------------ instructions in memory

  /** The address a word names. */
  function AddrOf(w: bv32): (a: Addr) { 2 * (((w >> 1) as bv31) as int) + (if w & 1 != 0 then 1 else 0) }

  predicate EvenWord(w: bv32) { w & 1 == 0 }

  lemma EvenAddr(w: bv32)
    requires EvenWord(w)
    ensures AddrOf(w) % 2 == 0
  {
  }

  function Widen(w: bv32): (b: bv64) { w as bv64 }

  function Shrink(b: bv64): (w: bv32) { (b & 0xFFFF_FFFF) as bv32 }

  /** What the instruction MMU hands the buffer; a fault carries no data. */
  function WordFrom(f: Im.Fetched): (w: F.Word) {
    match f
    case PageFaulted => F.Word(0, F.PAGE_FAULT)
    case AccessFaulted => F.Word(0, F.ACCESS_FAULT)
    case Instruction(w) => F.Word(Widen(w), 0)
  }

  /** Memory as a fetch in state (`h`, `m`) sees it. */
  function MemoryOf(h: H.Hart, m: Mem): (im: F.IMem) { (a: Addr) => WordFrom(Im.FetchAccess(h, m, a)) }

  /** The instruction at the front of a queue, as decode receives it. */
  function InstrOf(q: F.Queue): (i: Instr)
    requires !F.Incomplete(q)
  {
    var r := F.Faulting(q, 0);
    D.Issue(Shrink(FrontWord(q)), FaultCode(r.fault), H.WordOf(r.tval))
  }

  function FaultCode(n: int): (c: bv32) { if n == F.PAGE_FAULT then 12 else if n == F.ACCESS_FAULT then 1 else 0 }

  function FrontWord(q: F.Queue): (w: bv64)
    requires !F.Incomplete(q)
  {
    if F.LongFirst(q) then F.Pair(q.items[0].data, q.items[1].data) else q.items[0].data
  }

  /** The instruction memory has at an address: one halfword or two. */
  function FrontAt(im: F.IMem, pc: Addr): (q: F.Queue)
    ensures !F.Incomplete(q)
  {
    var first := F.HalfAt(im, pc);
    F.Queue(if F.Long(first.data) then [first, F.HalfAt(im, At(pc, 2))] else [first], pc)
  }

  function InstrAt(im: F.IMem, pc: Addr): (i: Instr) { InstrOf(FrontAt(im, pc)) }

  /** The program in memory. */
  function CodeOf(a: Arch): (i: Instr) { InstrAt(MemoryOf(a.hart, a.mem), AddrOf(a.pc)) }

  // ------------------------------------------------- the buffer's outputs say so

  lemma ShortIssue(w: bv32, v: bv32, fault: bv32, tval: bv32)
    requires D.LowHalf(w) == D.LowHalf(v) && !D.IsLong(v)
    ensures D.Issue(w, fault, tval) == D.Issue(v, fault, tval)
  {
    hide D.Decode32, D.Decompress, D.WithTrap;
    SameLength(w, v);
  }

  lemma SameLength(w: bv32, v: bv32)
    requires D.LowHalf(w) == D.LowHalf(v)
    ensures D.IsLong(w) == D.IsLong(v)
  {
    assert w & 3 == (w & 0xFFFF) & 3;
    assert v & 3 == (v & 0xFFFF) & 3;
  }

  lemma ShrinkLow(b: bv64)
    ensures D.LowHalf(Shrink(b)) == D.LowHalf(Shrink(F.Low(b)))
    ensures D.IsLong(Shrink(F.Low(b))) == F.Long(F.Low(b))
  {
  }

  /** Whatever the unused upper half of a short word, decode issues the front. */
  lemma OfferedInstr(q: F.Queue, w: bv64, pc: Addr)
    requires !F.Incomplete(q) && F.Offers(q, w, pc)
    ensures D.Issue(Shrink(w), FaultCode(F.Faulting(q, 0).fault), H.WordOf(F.Faulting(q, 0).tval)) == InstrOf(q)
  {
    hide F.Faulting, F.Long, F.Low, F.Pair, Shrink, D.Issue, H.WordOf;
    if !F.LongFirst(q) {
      ShrinkLow(w);
      ShrinkAgain(w, q.items[0].data);
      ShortIssue(Shrink(w), Shrink(q.items[0].data), FaultCode(F.Faulting(q, 0).fault), H.WordOf(F.Faulting(q, 0).tval));
    }
  }

  lemma ShrinkAgain(w: bv64, d: bv64)
    requires F.Low(w) == d
    ensures D.LowHalf(Shrink(w)) == D.LowHalf(Shrink(d)) && (F.Long(d) == D.IsLong(Shrink(d)))
  {
  }

  // -------------------------------------------------------- front and memory

  lemma {:induction false} FaultingFront(q: F.Queue, p: F.Queue, j: nat)
    requires !F.Incomplete(q) && !F.Incomplete(p) && q.addr == p.addr && F.Need(q) == F.Need(p) && j <= F.Need(q)
    requires forall k :: 0 <= k < F.Need(q) ==> q.items[k] == p.items[k]
    ensures F.Faulting(q, j) == F.Faulting(p, j)
    decreases F.Need(q) - j
  {
    hide F.Tagged, F.Long, At;
    if j < F.Need(q) { FaultingFront(q, p, j + 1); }
  }

  /** The presented instruction is the one memory holds. */
  lemma FrontIsCode(q: F.Queue, im: F.IMem)
    requires !F.Incomplete(q) && F.FrontIsMemory(q, im)
    ensures InstrOf(q) == InstrAt(im, q.addr)
  {
    hide F.Faulting, F.Long, F.HalfAt, F.Pair, Shrink, D.Issue, H.WordOf, At, FaultCode;
    FaultingFront(q, FrontAt(im, q.addr), 0);
  }

  // ---------------------------------------------------------------- one cycle

  /** The core, the buffer with its flush output, the instruction MMU, the prefetch
      register, and immu_flush. */
  datatype Whole = Whole(core: C.Core, f: F.Front, d: Im.Immu, fetchPc: Addr, flushing: bool)

  /** What comes from outside: interrupt lines and counters, and the cache's answers
      to the two sides. */
  datatype Beat = Beat(env: Env, dataHit: Option<Sv32.Leaf>, instrHit: Option<Sv32.Leaf>)

  predicate Shaped(y: Whole) { !y.f.ifFlush ==> !F.Incomplete(y.f.q) }

  function OutOf(y: Whole, e: Env): (o: Out) { Comb(Stage(y.core, e)) }

  /** What decode is offered; it takes the instruction only if its address is npc's. */
  function Offered(y: Whole, npc: bv32): (s: Slot)
    requires Shaped(y)
  {
    Slot(y.f.ifFlush, if AddrOf(npc) == y.f.q.addr then npc else !npc, if y.f.ifFlush then BLANK else InstrOf(y.f.q))
  }

  function Response(y: Whole): (r: Rsp) { Im.Data(y.core.mem, Im.Presented(y.d)) }

  predicate Acks(y: Whole) { Im.Answers(y.d, Response(y)) || (y.flushing && Response(y).ack) }

  predicate Taken(y: Whole, o: Out) { P.Accept(y.f, Acks(y), y.d.pc, o.stall) }

  function CycleOf(y: Whole, o: Out): (c: F.Cycle) {
    F.Cycle(o.flush, Acks(y), y.flushing, o.stall, y.d.pc, WordFrom(Im.Answer(y.d, Response(y))))
  }

  /** The instruction MMU after a flush: idle, its address register as it was. */
  function Cleared(d: Im.Immu): (n: Im.Immu) {
    d.(state := 0, pageFault := false, pmpFault := false, vpn0 := 0, offset := 0, last := d.last.(ack := false))
  }

  function InputOf(y: Whole, b: Beat): (i: Input)
    requires Shaped(y)
  {
    Input(b.env, Offered(y, OutOf(y, b.env).npc), b.dataHit)
  }

  /** Where the instruction MMU starts if it is ready. */
  function StartPc(y: Whole, o: Out): (a: Addr) { if Taken(y, o) then y.fetchPc else y.d.pc }

  function NextFetch(y: Whole, b: Beat, o: Out): (d: Im.Immu) {
    if o.flush then Cleared(y.d)
    else Im.Step(y.d, Response(y), StartPc(y, o), y.core.hart, b.instrHit)
  }

  function NextPrefetch(y: Whole, o: Out): (a: Addr) {
    if o.taken || o.flush then AddrOf(o.npc) else if Taken(y, o) then P.Succ(y.fetchPc) else y.fetchPc
  }

  /** All registers of both sides, from their old values. */
  function NextWhole(y: Whole, b: Beat): (z: Whole)
    requires Shaped(y)
    ensures Shaped(z)
  {
    var o := OutOf(y, b.env);
    Whole(Next(y.core, InputOf(y, b)), F.FrontStep(y.f, CycleOf(y, o)), NextFetch(y, b, o), NextPrefetch(y, o),
          if Acks(y) || y.d.state == 0 then false else o.flush || y.flushing)
  }

  // -------------------------------------------------------------- the invariant

  predicate Resting(d: Im.Immu) { d.state == 0 && !d.pageFault && !d.pmpFault && !d.last.ack }

  /** The buffer holds memory, the MMU rests or is on its way to the right word, and
      the core is in step with the program in memory. */
  ghost predicate Good(y: Whole) {
    && Shaped(y) && Inv(CodeOf, y.core)
    && F.Holds(y.f.q, MemoryOf(y.core.hart, y.core.mem))
    && (Resting(y.d) || Im.Flight(y.d, y.core.hart, y.core.mem)) && (y.flushing ==> Resting(y.d))
    && y.d.pc % 2 == 0 && y.fetchPc % 2 == 0 && EvenWord(y.core.exPc)
  }

  // -------------------------------------- what may change without a flush

  /** The parts of the state a fetch looks at. */
  predicate SameView(h: H.Hart, k: H.Hart) { h.priv == k.priv && h.pmp == k.pmp && h.Get(H.SATP) == k.Get(H.SATP) }

  lemma SameViewFetch(h: H.Hart, k: H.Hart, m: Mem, pc: Addr)
    requires SameView(h, k)
    ensures Im.FetchAccess(h, m, pc) == Im.FetchAccess(k, m, pc) && Im.Translate(h, m, pc) == Im.Translate(k, m, pc)
  {
    hide Sv32.Walk, Sv32.Root, Sv32.SatpOn, Read, Sv32.PmaValid;
  }

  lemma SameViewFlight(d: Im.Immu, h: H.Hart, k: H.Hart, m: Mem)
    requires SameView(h, k) && Im.Flight(d, h, m)
    ensures Im.Flight(d, k, m)
  {
    hide Sv32.Walk, Sv32.Root, Sv32.SatpOn, Read, Sv32.PmaValid, Sv32.Level1Fault, Sv32.IsLeaf, Sv32.Pte0Addr, Sv32.Pte1Addr;
    SameViewFetch(h, k, m, d.pc);
  }

  lemma CsrKeepsView(h: H.Hart, a: H.CsrAddr, op: H.Op, cur: bv32, val: bv32)
    requires !CsrFlushes(h, a)
    ensures SameView(h, H.CsrUpdate(h, a, op, cur, val))
  {
    hide H.Merge, H.CsrMask, H.IsCounter, H.IsFixed, H.IsHardwiredZero, H.IsPmpConfig, H.IsPmpAddr;
  }

  lemma KindFlushes(n: In, k: Kind)
    ensures var c := ExecuteKind(n, k);
            && (c.ret.Some? ==> c.flush)
            && (c.csr && !c.flush ==> !CsrFlushes(n.hart, n.x.instr.csrAddr))
  {
    hide Raise, Goto, H.CsrRead, CsrLegal, AluResult, JumpTarget, BranchTarget, BranchTaken, OddPc, NextPc, EcallCause, CsrFlushes,
      Asleep, WfiIllegal, SfenceIllegal, SretIllegal, CsrVal;
    RaiseAsksNothing();
    match k
    case Alu =>
    case MulDiv =>
    case LoadStore =>
    case Jump =>
    case Branch =>
    case FenceI =>
    case Sfence =>
    case Ecall =>
    case Ebreak =>
    case Wfi =>
    case Sret =>
    case Mret =>
    case CsrOp =>
    case Invalid =>
    case Nop =>
  }

  lemma RaiseAsksNothing()
    ensures forall npc, cause, tval :: Raise(npc, cause, tval).ret == None && !Raise(npc, cause, tval).csr
    ensures forall target, v :: Goto(target, v).ret == None && !Goto(target, v).csr
  {
    hide OddPc;
  }

  lemma ControlFlushes(n: In)
    ensures var c := Control(n);
            && (c.ret.Some? ==> c.onTrap || c.flush)
            && (c.csr && !c.flush ==> !CsrFlushes(n.hart, n.x.instr.csrAddr))
  {
    hide ExecuteKind, Raise, CsrFlushes, H.CheckInterrupt, KindOf, NextPc;
    KindFlushes(n, KindOf(n.x.instr.ty));
    RaiseAsksNothing();
  }

  lemma CombParts(n: In)
    ensures Comb(n).flush == (Control(n).onTrap || Control(n).flush) && Comb(n).eff == EffectOf(n, Control(n))
  {
    hide Control, NpcOf, ValOf, EffectOf, DataReq;
  }

  /** Without a flush the state keeps everything a fetch looks at. */
  lemma NoFlushKeepsView(n: In)
    requires !Comb(n).flush
    ensures SameView(n.hart, H.Step(n.hart, Comb(n).eff))
  {
    hide Control, Comb, H.CsrUpdate, CsrVal, CsrFlushes, OpKind, SameView;
    var c := Control(n);
    CombParts(n);
    ControlFlushes(n);
    ViewItself(n.hart);
    if c.csr { CsrKeepsView(n.hart, n.x.instr.csrAddr, OpKind(n.x.instr.ty), c.rdVal, CsrVal(n.x.instr, n.x.rs1Val)); }
  }

  lemma ViewItself(h: H.Hart)
    ensures SameView(h, h)
  {
  }

  // ------------------------------------------------------------------ even addresses

  lemma VectorEven(tvec: bv32, cause: bv32)
    ensures EvenWord(H.Vector(tvec, cause))
  {
  }

  lemma TrapPcEven(h: H.Hart, cause: bv32)
    ensures EvenWord(H.TrapPc(h, cause))
  {
    hide H.TrapToS, H.Vector;
    VectorEven(h.Get(H.STVEC), cause);
    VectorEven(h.Get(H.MTVEC), cause);
  }

  lemma ReturnPcEven(h: H.Hart, mret: bool)
    ensures EvenWord(H.ReturnPc(h, mret))
  {
    ClearedEven(h.Get(if mret then H.MEPC else H.SEPC));
  }

  lemma ClearedEven(x: bv32)
    ensures EvenWord(H.Even(x))
  {
  }

  lemma NextEven(pc: bv32, compressed: bool)
    requires EvenWord(pc)
    ensures EvenWord(NextPc(pc, compressed))
  {
  }

  lemma OddOrEven(pc: bv32)
    ensures OddPc(pc) <==> !EvenWord(pc)
  {
  }

  lemma GotoEven(target: bv32, v: bv32)
    ensures !Goto(target, v).onTrap ==> EvenWord(Goto(target, v).npc)
  {
    hide OddPc, EvenWord;
    OddOrEven(target);
  }

  lemma KindEven(n: In, k: Kind)
    requires EvenWord(n.exPc)
    ensures !ExecuteKind(n, k).onTrap ==> EvenWord(ExecuteKind(n, k).npc)
  {
    hide EvenWord, Goto, H.CsrRead, CsrLegal, AluResult, JumpTarget, BranchTarget, BranchTaken, OddPc, NextPc, EcallCause, CsrFlushes,
      Asleep, WfiIllegal, SfenceIllegal, SretIllegal, CsrVal;
    var x := n.x;
    NextEven(n.exPc, x.instr.compressed);
    GotoEven(JumpTarget(x.instr.ty, x.pc, x.rs1Val, x.instr.imm), NextPc(x.pc, x.instr.compressed));
    GotoEven(BranchTarget(x.pc, x.instr.imm), BranchTarget(x.pc, x.instr.imm));
    match k
    case Alu =>
    case MulDiv =>
    case LoadStore =>
    case Jump =>
    case Branch =>
    case FenceI =>
    case Sfence =>
    case Ecall =>
    case Ebreak =>
    case Wfi =>
    case Sret =>
    case Mret =>
    case CsrOp =>
    case Invalid =>
    case Nop =>
  }

  /** Whatever the stage does next, it does it at an even address. */
  lemma NpcEven(n: In)
    requires EvenWord(n.exPc)
    ensures EvenWord(Comb(n).npc)
  {
    hide EvenWord, ExecuteKind, H.TrapPc, H.ReturnPc, ValOf, EffectOf, DataReq, KindOf, H.CheckInterrupt, NextPc;
    KindEven(n, KindOf(n.x.instr.ty));
    var c := Control(n);
    TrapPcEven(n.hart, c.cause);
    if c.ret.Some? { ReturnPcEven(n.hart, c.ret.value); }
  }

  // ------------------------------------------------------------- what is assumed

  /** A change of memory leaves the halfwords a queue holds as they were. */
  ghost predicate SparesHalves(q: F.Queue, h: H.Hart, m: Mem, n: Mem) {
    forall j :: 0 <= j < |q.items| ==>
      F.HalfAt(MemoryOf(h, m), At(q.addr, 2 * j)) == F.HalfAt(MemoryOf(h, n), At(q.addr, 2 * j))
  }

  /** And the fetch under way: its page-table words and the word it delivers. */
  predicate SparesFetch(pc: Addr, h: H.Hart, m: Mem, n: Mem) {
    && Im.Translate(h, m, pc) == Im.Translate(h, n, pc)
    && Im.FetchAccess(h, m, pc) == Im.FetchAccess(h, n, pc)
    && (Im.TranslationOn(h) ==>
          Sv32.PteAt(Im.WorldOf(h, m), Sv32.Pte1Addr(Im.RootOf(h), pc)) == Sv32.PteAt(Im.WorldOf(h, n), Sv32.Pte1Addr(Im.RootOf(h), pc)))
  }

  /** A cycle without a flush does not write what the fetch side holds or is fetching;
      code is changed with a FENCE.I before it is held again. */
  ghost predicate Undisturbed(y: Whole, b: Beat)
    requires Shaped(y)
  {
    var z := NextWhole(y, b);
    !OutOf(y, b.env).flush ==>
      && SparesHalves(y.f.q, y.core.hart, y.core.mem, z.core.mem)
      && SparesHalves(z.f.q, y.core.hart, y.core.mem, z.core.mem)
      && SparesFetch(z.d.pc, y.core.hart, y.core.mem, z.core.mem)
  }

  /** The cache's answers are leaves of the page tables, and the cycle is undisturbed. */
  ghost predicate Trusted(y: Whole, b: Beat)
    requires Shaped(y)
  {
    var o := OutOf(y, b.env);
    && Mmu.TlbTrue(y.core.hart, y.core.mem, o.req, b.dataHit)
    && Im.TlbTrue(y.core.hart, y.core.mem, StartPc(y, o), b.instrHit)
    && Undisturbed(y, b)
  }

  // --------------------------------------------------------------------- the step

  lemma ViewHalf(h: H.Hart, k: H.Hart, m: Mem, a: Addr)
    requires SameView(h, k)
    ensures F.HalfAt(MemoryOf(h, m), a) == F.HalfAt(MemoryOf(k, m), a)
  {
    hide SameView, F.LowHalf, F.HighHalf;
    SameViewFetch(h, k, m, a);
    SameViewFetch(h, k, m, F.WordBase(a));
  }

  lemma InstrAtSame(im: F.IMem, jm: F.IMem, pc: Addr)
    requires F.HalfAt(im, pc) == F.HalfAt(jm, pc)
    requires F.Long(F.HalfAt(im, pc).data) ==> F.HalfAt(im, At(pc, 2)) == F.HalfAt(jm, At(pc, 2))
    ensures InstrAt(im, pc) == InstrAt(jm, pc)
  {
    hide F.HalfAt, F.Long, At, InstrOf;
  }

  /** The front of the buffer, seen from a later state that spares it. */
  lemma FrontLater(q: F.Queue, h: H.Hart, m: Mem, k: H.Hart, n: Mem)
    requires F.Holds(q, MemoryOf(h, m)) && !F.Incomplete(q) && SparesHalves(q, h, m, n) && SameView(h, k)
    ensures InstrOf(q) == InstrAt(MemoryOf(k, n), q.addr)
  {
    hide F.Holds, F.HalfAt, F.Long, SameView, InstrOf, InstrAt, MemoryOf, At;
    F.HoldsFront(q, MemoryOf(h, m));
    FrontIsCode(q, MemoryOf(h, m));
    F.AtZero(q.addr);
    assert F.HalfAt(MemoryOf(h, m), At(q.addr, 2 * 0)) == F.HalfAt(MemoryOf(h, n), At(q.addr, 2 * 0));
    ViewHalf(h, k, n, q.addr);
    ViewHalf(h, k, n, At(q.addr, 2));
    if F.LongFirst(q) {
      assert F.HalfAt(MemoryOf(h, m), At(q.addr, 2 * 1)) == F.HalfAt(MemoryOf(h, n), At(q.addr, 2 * 1));
    }
    InstrAtSame(MemoryOf(h, m), MemoryOf(k, n), q.addr);
  }

  lemma HoldsLater(q: F.Queue, h: H.Hart, m: Mem, k: H.Hart, n: Mem)
    requires F.Holds(q, MemoryOf(h, m)) && SparesHalves(q, h, m, n) && SameView(h, k)
    ensures F.Holds(q, MemoryOf(k, n))
  {
    hide F.HalfAt, SameView, MemoryOf, At;
    forall j | 0 <= j < |q.items| ensures q.items[j] == F.HalfAt(MemoryOf(k, n), At(q.addr, 2 * j)) {
      ViewHalf(h, k, n, At(q.addr, 2 * j));
    }
  }

  lemma FlightLater(d: Im.Immu, h: H.Hart, m: Mem, k: H.Hart, n: Mem)
    requires Im.Flight(d, h, m) && SparesFetch(d.pc, h, m, n) && SameView(h, k)
    ensures Im.Flight(d, k, n)
  {
    FlightMem(d, h, m, n);
    hide SameView, Im.Flight;
    SameViewFlight(d, h, k, n);
  }

  lemma FlightMem(d: Im.Immu, h: H.Hart, m: Mem, n: Mem)
    requires Im.Flight(d, h, m) && SparesFetch(d.pc, h, m, n)
    ensures Im.Flight(d, h, n)
  {
    hide Im.Translate, Sv32.PteAt, Sv32.Pte1Addr, Sv32.Pte0Addr, Sv32.Level1Fault, Sv32.IsLeaf, Im.Checked, Im.TranslationOn, Sv32.Vpn0;
  }

  lemma SameAnswer(d: Im.Immu, h: H.Hart, m: Mem, n: Mem)
    requires Im.Flight(d, h, m) && SparesFetch(d.pc, h, m, n)
    requires d.state == 2 && Im.Presented(d).ack ==> d.last.addr == Sv32.Pte1Addr(Im.RootOf(h), d.pc)
    ensures Im.Data(n, Im.Presented(d)) == Im.Data(m, Im.Presented(d))
  {
    hide Sv32.Pte1Addr, Sv32.Pte0Addr, Sv32.Level1Fault, Sv32.IsLeaf, Im.TranslationOn, Sv32.Vpn0, Read, Im.Translate, Im.Executable,
      Im.WorldOf, Im.RootOf, Sv32.PteAt;
    if d.state != 3 && Im.Presented(d).ack {
      Im.PteReadChecks(h, m, d);
      Im.PteReadChecks(h, n, d);
    }
  }

  lemma NotNot(w: bv32)
    ensures !w != w
  {
  }

  /** The offered instruction, if taken, is the program's at the new state. */
  lemma SlotTrue(y: Whole, b: Beat)
    requires Good(y) && Undisturbed(y, b) && Accepts(OutOf(y, b.env), InputOf(y, b).slot)
    ensures InputOf(y, b).slot.instr == CodeOf(Abs(Next(y.core, InputOf(y, b))))
  {
    hide Inv, Comb, Next, F.Holds, InstrOf, InstrAt, MemoryOf, AddrOf, Im.Flight, Resting, SameView, SparesHalves, SparesFetch, Stage, Abs,
      F.FrontStep, NextFetch, NextPrefetch, H.Step, Acks;
    var o, i := OutOf(y, b.env), InputOf(y, b);
    NotNot(o.npc);
    NoFlushKeepsView(Stage(y.core, b.env));
    NextParts(y.core, i);
    FrontLater(y.f.q, y.core.hart, y.core.mem, Next(y.core, i).hart, Next(y.core, i).mem);
  }

  lemma NextParts(s: C.Core, i: Input)
    ensures var t := Next(s, i);
            && t.exPc == Comb(Stage(s, i.env)).npc && t.hart == H.Step(s.hart, Comb(Stage(s, i.env)).eff)
            && Abs(t).pc == t.exPc && Abs(t).hart == t.hart && Abs(t).mem == t.mem && Stage(s, i.env).hart == s.hart
  {
    hide Comb, Mmu.Step, Commit, MemAccess, H.Step, MulDivResult, Decoded, WriteBack, Answered;
  }

  lemma RestingSilent(y: Whole)
    requires Resting(y.d)
    ensures !Response(y).ack && !Response(y).fault && !Acks(y) && !Im.Answers(y.d, Response(y))
  {
    hide Read;
  }

  lemma WordBaseFetch(h: H.Hart, m: Mem, pc: Addr)
    ensures Im.FetchAccess(h, m, F.WordBase(pc)) == Im.FetchAccess(h, m, pc)
  {
    hide Sv32.Walk, Read, Im.Executable, Im.TranslationOn;
    BaseOfBase(pc);
  }

  lemma BaseOfBase(pc: Addr)
    ensures Im.WordOf(F.WordBase(pc)) == Im.WordOf(pc)
  {
  }

  /** The word the MMU delivers is the one memory has. */
  lemma DeliveredTrue(y: Whole, o: Out)
    requires Good(y)
    ensures F.TrueWord(MemoryOf(y.core.hart, y.core.mem), CycleOf(y, o))
  {
    hide Inv, F.Holds, Im.Flight, Im.Answers, Im.Answer, Im.FetchAccess, Response, WordFrom, Resting, F.WordBase;
    if Resting(y.d) {
      RestingSilent(y);
    } else if Acks(y) {
      AnswerIs(y);
      WordBaseFetch(y.core.hart, y.core.mem, y.d.pc);
    }
  }

  lemma AnswerIs(y: Whole)
    requires Im.Flight(y.d, y.core.hart, y.core.mem) && Im.Answers(y.d, Response(y))
    ensures Im.Answer(y.d, Response(y)) == Im.FetchAccess(y.core.hart, y.core.mem, y.d.pc)
  {
    hide Im.Flight, Im.Answers, Im.Answer, Im.FetchAccess;
    Im.AnswerCorrect(y.d, y.core.hart, y.core.mem);
  }

  /** The buffer after the edge, on the memory before it. */
  lemma BufferHolds(y: Whole, o: Out)
    requires Good(y)
    ensures F.Holds(F.FrontStep(y.f, CycleOf(y, o)).q, MemoryOf(y.core.hart, y.core.mem))
    ensures o.flush ==> F.FrontStep(y.f, CycleOf(y, o)).q == F.EMPTY
  {
    hide Inv, F.Holds, Im.Flight, MemoryOf, Acks, Resting, F.TrueWord;
    DeliveredTrue(y, o);
    F.AdvanceHolds(y.f.q, y.f.ifFlush, CycleOf(y, o), MemoryOf(y.core.hart, y.core.mem));
  }

  lemma ClearedRests(d: Im.Immu)
    ensures Resting(Cleared(d)) && Cleared(d).pc == d.pc
  {
  }

  /** The fetch after the edge, on the state before it. */
  lemma FetchMoves(y: Whole, b: Beat)
    requires Good(y) && !OutOf(y, b.env).flush
    requires Im.TlbTrue(y.core.hart, y.core.mem, StartPc(y, OutOf(y, b.env)), b.instrHit)
    ensures var o := OutOf(y, b.env);
            var n := NextFetch(y, b, o);
            && Im.Flight(n, y.core.hart, y.core.mem)
            && n.pc == if Im.Ready(y.d, Response(y)) then StartPc(y, o) else y.d.pc
  {
    hide Inv, F.Holds, Im.Flight, Im.Answers, Im.TlbTrue, Im.Step, Comb, Resting, StartPc, Acks;
    var o := OutOf(y, b.env);
    RestingReady(y);
    if Im.Ready(y.d, Response(y)) {
      Im.Launch(y.d, Response(y), StartPc(y, o), y.core.hart, y.core.mem, b.instrHit);
    } else {
      Im.Advance(y.d, StartPc(y, o), y.core.hart, y.core.mem, b.instrHit);
    }
  }

  lemma RestingReady(y: Whole)
    ensures Resting(y.d) ==> Im.Ready(y.d, Response(y))
    ensures !Im.Ready(y.d, Response(y)) ==> !Im.Answers(y.d, Im.Data(y.core.mem, Im.Presented(y.d)))
  {
    hide Im.Answers, Read;
  }

  /** A second-level entry is asked for only by the answer to the first. */
  lemma SecondFromFirst(d: Im.Immu, r: Rsp, next: Addr, h: H.Hart, m: Mem, tlb: Option<Sv32.Leaf>)
    requires Im.Flight(d, h, m) || Resting(d)
    requires var n := Im.Step(d, r, next, h, tlb); n.state == 2 && Im.Presented(n).ack && Im.Presented(n) == Im.Presented(d)
    ensures var n := Im.Step(d, r, next, h, tlb); n.pc == d.pc && n.last.addr == Sv32.Pte1Addr(Im.RootOf(h), d.pc)
  {
    hide Sv32.Level1Fault, Sv32.Level0Fault, Sv32.IsLeaf, Sv32.LeafFault, Sv32.LeafAddr, Sv32.Pte1Addr, Sv32.PteSlot, Sv32.Vpn0, Sv32.Ppn,
      Im.TranslationOn, Im.Reachable, Im.WordOf, Im.Translate, Im.AwaitsLeaf, Im.RootOf;
  }

  /** The word on offer may be read anew in every cycle: as long as the request stays,
      so does the answer, as if it were held from the cycle of the request. */
  lemma ResponseHeld(y: Whole, b: Beat)
    requires Good(y) && Trusted(y, b) && Im.Presented(NextWhole(y, b).d) == Im.Presented(y.d)
    ensures Response(NextWhole(y, b)) == Response(y)
  {
    hide Inv, Comb, Next, F.Holds, Im.Flight, Resting, SparesHalves, SparesFetch, Stage, Abs, Mmu.TlbTrue, Im.TlbTrue, F.FrontStep, MemoryOf,
      Im.Step, CycleOf, Cleared, InputOf, Read, Im.Answers, StartPc, Im.Presented;
    var o, z := OutOf(y, b.env), NextWhole(y, b);
    if o.flush {
      FlushClears(y, b, o);
      RestingSilent(z);
      RestAsksNothing(z.d);
    } else {
      FetchMoves(y, b);
      if z.d.state == 2 && Im.Presented(z.d).ack {
        SecondFromFirst(y.d, Response(y), StartPc(y, o), y.core.hart, y.core.mem, b.instrHit);
      }
      SameAnswer(z.d, y.core.hart, y.core.mem, z.core.mem);
    }
  }

  lemma RestAsksNothing(d: Im.Immu)
    ensures Resting(d) ==> !Im.Presented(d).ack
  {
  }

  lemma PrefetchEven(y: Whole, o: Out)
    requires y.fetchPc % 2 == 0 && y.d.pc % 2 == 0 && EvenWord(o.npc)
    ensures NextPrefetch(y, o) % 2 == 0 && StartPc(y, o) % 2 == 0
  {
    hide Taken, P.Succ, AddrOf;
    EvenAddr(o.npc);
    P.SuccAligned(y.fetchPc);
  }

  /** The core's part of the step. */
  lemma CoreMoves(y: Whole, b: Beat)
    requires Good(y) && Trusted(y, b)
    ensures Truthful(CodeOf, y.core, InputOf(y, b)) && Inv(CodeOf, Next(y.core, InputOf(y, b)))
  {
    hide Inv, Comb, Next, F.Holds, Im.Flight, Resting, SparesHalves, SparesFetch, Stage, Abs, NextWhole, Mmu.TlbTrue, Im.TlbTrue, Accepts,
      Meaning, FateOf, CodeOf, Offered;
    var i := InputOf(y, b);
    if Accepts(OutOf(y, b.env), i.slot) { SlotTrue(y, b); }
    CycleRefines(CodeOf, y.core, i);
  }

  /** The fetch side's part. */
  lemma SideMoves(y: Whole, b: Beat)
    requires Good(y) && Trusted(y, b)
    ensures var z := NextWhole(y, b);
            && F.Holds(z.f.q, MemoryOf(z.core.hart, z.core.mem))
            && (Resting(z.d) || Im.Flight(z.d, z.core.hart, z.core.mem))
  {
    hide Inv, Comb, Next, F.Holds, Im.Flight, Resting, SparesHalves, SparesFetch, Stage, Abs, Mmu.TlbTrue, Im.TlbTrue, F.FrontStep, MemoryOf,
      NextFetch, SameView, CycleOf, Cleared, InputOf;
    var o := OutOf(y, b.env);
    var z := NextWhole(y, b);
    BufferHolds(y, o);
    NextParts(y.core, InputOf(y, b));
    if o.flush {
      F.EmptyHolds(MemoryOf(z.core.hart, z.core.mem));
      FlushClears(y, b, o);
    } else {
      NoFlushKeepsView(Stage(y.core, b.env));
      InputEnv(y, b);
      HoldsLater(z.f.q, y.core.hart, y.core.mem, z.core.hart, z.core.mem);
      FetchMoves(y, b);
      FlightLater(z.d, y.core.hart, y.core.mem, z.core.hart, z.core.mem);
    }
  }

  lemma InputEnv(y: Whole, b: Beat)
    requires Shaped(y)
    ensures InputOf(y, b).env == b.env
  {
    hide Offered;
  }

  lemma FlushClears(y: Whole, b: Beat, o: Out)
    requires o.flush
    ensures Resting(NextFetch(y, b, o)) && NextFetch(y, b, o).pc == y.d.pc
  {
    hide Resting, Cleared;
    ClearedRests(y.d);
  }

  lemma FlushingRests(y: Whole, b: Beat)
    requires Good(y)
    ensures NextWhole(y, b).flushing ==> Resting(NextWhole(y, b).d)
  {
    hide Inv, Comb, Next, F.Holds, Im.Flight, Resting, Stage, F.FrontStep, MemoryOf, NextFetch, CycleOf, InputOf, Acks;
    var o := OutOf(y, b.env);
    RestingState(y.d);
    if o.flush { FlushClears(y, b, o); }
  }

  lemma RestingState(d: Im.Immu)
    ensures Resting(d) ==> d.state == 0
  {
  }

  lemma AddressesEven(y: Whole, b: Beat)
    requires Good(y) && Trusted(y, b)
    ensures var z := NextWhole(y, b); z.d.pc % 2 == 0 && z.fetchPc % 2 == 0 && EvenWord(z.core.exPc)
  {
    hide Inv, Comb, Next, F.Holds, Im.Flight, Resting, Abs, F.FrontStep, MemoryOf, NextFetch, NextPrefetch, StartPc, CycleOf, InputOf, EvenWord,
      Mmu.TlbTrue, Im.TlbTrue, SparesHalves, SparesFetch, Answered;
    var o := OutOf(y, b.env);
    NpcEven(Stage(y.core, b.env));
    PrefetchEven(y, o);
    NextParts(y.core, InputOf(y, b));
    InputEnv(y, b);
    if o.flush { FlushClears(y, b, o); } else { FetchMoves(y, b); }
  }

  /** One cycle of the whole keeps fetch truthful and the core in step. */
  lemma StepGood(y: Whole, b: Beat)
    requires Good(y) && Trusted(y, b)
    ensures Truthful(CodeOf, y.core, InputOf(y, b)) && Good(NextWhole(y, b))
  {
    hide Inv, Comb, Next, F.Holds, Im.Flight, Resting, MemoryOf, NextFetch, NextPrefetch, CycleOf, Trusted, EvenWord, Truthful, InputOf,
      F.FrontStep, Acks, CodeOf;
    CoreMoves(y, b);
    SideMoves(y, b);
    FlushingRests(y, b);
    AddressesEven(y, b);
    NextCore(y, b);
  }

  lemma NextCore(y: Whole, b: Beat)
    requires Shaped(y)
    ensures NextWhole(y, b).core == Next(y.core, InputOf(y, b))
  {
    hide Comb, Next, F.FrontStep, NextFetch, NextPrefetch, CycleOf, Acks, InputOf;
  }

  // ------------------------------------------------------------------- whole runs

  function RunWhole(y: Whole, bs: seq<Beat>): (z: Whole)
    requires Shaped(y)
    ensures Shaped(z)
    decreases bs
  {
    if bs == [] then y else RunWhole(NextWhole(y, bs[0]), bs[1..])
  }

  function Inputs(y: Whole, bs: seq<Beat>): (r: seq<Input>)
    requires Shaped(y)
    decreases bs
  {
    if bs == [] then [] else [InputOf(y, bs[0])] + Inputs(NextWhole(y, bs[0]), bs[1..])
  }

  ghost predicate AllTrusted(y: Whole, bs: seq<Beat>)
    requires Shaped(y)
    decreases bs
  {
    bs == [] || (Trusted(y, bs[0]) && AllTrusted(NextWhole(y, bs[0]), bs[1..]))
  }

  /** The state after reset, about to fetch at an even address. */
  ghost predicate Reset(y: Whole) {
    && Initial(y.core) && EvenWord(y.core.exPc) && y.f == F.Front(F.EMPTY, true)
    && Resting(y.d) && y.d.pc % 2 == 0 && y.fetchPc % 2 == 0 && !y.flushing
  }

  lemma ResetGood(y: Whole)
    requires Reset(y)
    ensures Good(y)
  {
    hide Initial, Inv, MemoryOf, F.Holds, CodeOf, Resting, EvenWord;
    InitialInv(CodeOf, y.core);
    F.EmptyHolds(MemoryOf(y.core.hart, y.core.mem));
  }

  /** The fetch side supplies every cycle of the run truthfully. */
  lemma {:induction false} RunGood(y: Whole, bs: seq<Beat>)
    requires Good(y) && AllTrusted(y, bs)
    ensures Good(RunWhole(y, bs)) && AllTruthful(CodeOf, y.core, Inputs(y, bs))
    ensures RunWhole(y, bs).core == Run(y.core, Inputs(y, bs))
    decreases bs
  {
    if bs != [] {
      hide Good, Trusted, Truthful, NextWhole, Next, InputOf, CodeOf;
      StepGood(y, bs[0]);
      NextCore(y, bs[0]);
      var z := NextWhole(y, bs[0]);
      RunGood(z, bs[1..]);
      assert Inputs(y, bs)[1..] == Inputs(z, bs[1..]);
    }
  }

  /** From reset, fetch side and core together run the program in memory: the
      architectural state is at all times what the sequential machine reaches when
      it decodes, at every step, the halfwords memory holds at its PC. */
  lemma WholeRunsMemory(y: Whole, bs: seq<Beat>)
    requires Reset(y) && AllTrusted(y, bs)
    ensures Abs(RunWhole(y, bs).core) == SeqRun(Abs(y.core), CodeOf, History(y.core, Inputs(y, bs)))
  {
    hide Reset, Good, AllTrusted, RunWhole, Inputs, History, Run, SeqRun, CodeOf, AllTruthful, Inv, Abs;
    ResetGood(y);
    RunGood(y, bs);
    GoodInv(y);
    RunRefines(CodeOf, y.core, Inputs(y, bs));
  }

  lemma GoodInv(y: Whole)
    requires Good(y)
    ensures Shaped(y) && Inv(CodeOf, y.core)
  {
    hide Inv, F.Holds, MemoryOf, Resting, Im.Flight, EvenWord, CodeOf;
  }
}
