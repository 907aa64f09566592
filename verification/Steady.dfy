/** Runs that write memory meet the hypothesis of `Transparency.CacheIsInvisible`:
    a write that touches no page-table word leaves every leaf as it was. */
module Steady {
  import opened Options
  import opened Isa
  import opened Memory
  import opened Mmu
  import opened Exec
  import opened Sequential
  import opened Core
  import T = Transparency
  import Sv32
  import Bits
  import Tlb
  import Pmp
  import H = Hart

  // ------------------------------------------------------ writes beside the tables

  /** Byte `b` belongs to a word that walks from `root` read. */
  ghost predicate TableByte(w: Sv32.World, root: Addr, b: Addr)
    requires root % 0x1000 == 0
  {
    exists va: Addr :: FirstByte(root, va, b) || SecondByte(w, root, va, b)
  }

  ghost predicate FirstByte(root: Addr, va: Addr, b: Addr)
    requires root % 0x1000 == 0
  {
    Covers(Sv32.Pte1Addr(root, va), 4, b)
  }

  ghost predicate SecondByte(w: Sv32.World, root: Addr, va: Addr, b: Addr)
    requires root % 0x1000 == 0
  {
    var p := Sv32.PteAt(w, Sv32.Pte1Addr(root, va));
    p.Some? && Sv32.CleanPointer(p.value) && Covers(Sv32.Pte0Addr(p.value, va), 4, b)
  }

  /** None of the written bytes does. */
  ghost predicate Beside(w: Sv32.World, root: nat -> Addr, a: Addr, size: nat)
    requires forall k :: root(k) % 0x1000 == 0
  {
    forall key: nat, b: Addr :: Covers(a, size, b) ==> !TableByte(w, root(key), b)
  }

  lemma {:induction false} SameRead(m: Mem, n: Mem, a: Addr, i: nat, size: nat)
    requires i <= size && forall b: Addr :: Covers(a, size, b) ==> Byte(m, b) == Byte(n, b)
    ensures ReadFrom(m, a, i, size) == ReadFrom(n, a, i, size)
    decreases size - i
  {
    hide Byte, At, Push;
    if i < size {
      assert Covers(a, size, At(a, i));
      SameRead(m, n, a, i + 1, size);
    }
  }

  lemma WriteMisses(m: Mem, a: Addr, size: nat, v: bv32, b: Addr)
    requires !Covers(a, size, b)
    ensures Byte(Write(m, a, size, v), b) == Byte(m, b)
  {
    hide Byte, At;
    WriteElsewhere(m, a, 0, size, v, b);
  }

  /** The world after a write. */
  function Written(w: Sv32.World, a: Addr, size: nat, v: bv32): (r: Sv32.World) {
    w.(mem := Write(w.mem, a, size, v))
  }

  lemma SamePte(w: Sv32.World, a: Addr, size: nat, v: bv32, pte: Addr)
    requires forall b: Addr :: Covers(a, size, b) ==> !Covers(pte, 4, b)
    ensures Sv32.PteAt(Written(w, a, size, v), pte) == Sv32.PteAt(w, pte)
  {
    hide Covers, Byte, Write, Pmp.Allowed, Sv32.PmaValid;
    forall b: Addr | Covers(pte, 4, b) ensures Byte(Write(w.mem, a, size, v), b) == Byte(w.mem, b) {
      WriteMisses(w.mem, a, size, v, b);
    }
    SameRead(Write(w.mem, a, size, v), w.mem, pte, 0, 4);
  }

  lemma WriteKeepsLeaf(w: Sv32.World, root: Addr, a: Addr, size: nat, v: bv32, va: Addr)
    requires root % 0x1000 == 0 && forall b: Addr :: Covers(a, size, b) ==> !TableByte(w, root, b)
    ensures Sv32.LeafOf(Written(w, a, size, v), root, va) == Sv32.LeafOf(w, root, va)
  {
    hide Covers, Written, Sv32.PteAt, Sv32.Pte1Addr, Sv32.Pte0Addr, Sv32.V, Sv32.IsLeaf, Sv32.CleanPointer, Sv32.Ppn;
    var pte1 := Sv32.Pte1Addr(root, va);
    forall b: Addr | Covers(a, size, b) ensures !Covers(pte1, 4, b) {
      assert !FirstByte(root, va, b);
    }
    SamePte(w, a, size, v, pte1);
    var p := Sv32.PteAt(w, pte1);
    if p.Some? && Sv32.CleanPointer(p.value) {
      var pte0 := Sv32.Pte0Addr(p.value, va);
      forall b: Addr | Covers(a, size, b) ensures !Covers(pte0, 4, b) {
        assert !SecondByte(w, root, va, b);
      }
      SamePte(w, a, size, v, pte0);
    }
  }

  /** A write beside the tables keeps every leaf. */
  lemma WriteKeepsLeaves(w: Sv32.World, root: nat -> Addr, a: Addr, size: nat, v: bv32)
    requires (forall k :: root(k) % 0x1000 == 0) && Beside(w, root, a, size)
    ensures T.SameLeaves(Tlb.LeavesOf(Written(w, a, size, v), root), Tlb.LeavesOf(w, root))
  {
    hide Covers, Written, Sv32.LeafOf, TableByte, Tlb.PageAddr;
    forall key: nat, vpn: nat
      ensures Tlb.LeavesOf(Written(w, a, size, v), root)(key, vpn) == Tlb.LeavesOf(w, root)(key, vpn)
    {
      WriteKeepsLeaf(w, root(key), a, size, v, Tlb.PageAddr(vpn));
    }
  }

  // --------------------------------------------------------- the run of a store

  /** A fetch side with the wanted instruction ready, and quiet about the cache. */
  function PerfectBeat(code: Code, y: T.Sys, e: Env): (b: T.Beat) { T.Beat(e, PerfectSlot(code, y.core, e), [], []) }

  lemma SlotAndHitLeaveAbs(s: Core, e: Env, slot: Slot, other: Slot, hit: Option<Sv32.Leaf>)
    ensures Abs(Next(s, Input(e, slot, hit))) == Abs(Next(s, Input(e, other, None)))
  {
    hide Comb, Step, Commit, MemAccess, H.Step, MulDivResult, Decoded, WriteBack;
  }

  lemma PerfectIsTrue(code: Code, l: Tlb.Leaves, y: T.Sys, e: Env)
    requires |y.t| > 0
    ensures T.FetchTrue(code, y, PerfectBeat(code, y, e)) && T.Polite(l, PerfectBeat(code, y, e))
  {
    hide Comb, Next, Abs, T.Next, T.InputOf;
    var b := PerfectBeat(code, y, e);
    T.NextCore(y, b);
    InputParts(y, b);
    SlotAndHitLeaveAbs(y.core, e, b.slot, Slot(true, 0, BLANK), T.InputOf(y, b).tlb);
  }

  lemma InputParts(y: T.Sys, b: T.Beat)
    requires |y.t| > 0
    ensures T.InputOf(y, b) == Input(b.env, b.slot, T.InputOf(y, b).tlb)
  {
  }

  /** The store of state `a` goes through and touches no page table. */
  ghost predicate Spares(l: Tlb.Leaves, root: nat -> Addr, s: Core) {
    var r := Access(s.hart, s.mem, ReqOf(s.x));
    && (forall k :: root(k) % 0x1000 == 0)
    && r.Done? && T.SameLeaves(l, Tlb.LeavesOf(Sv32.World(r.mem, s.hart.pmp, 1), root))
  }

  lemma SemLoad(a: Arch, i: Instr, e: Env)
    requires !i.onTrap && KindOf(i.ty) == LoadStore
    requires Access(a.hart, a.mem, DataReq(i, a.regs[i.rs1], a.regs[i.rs2])).Done?
    ensures Sem(a, i, e).hart == a.hart
    ensures Sem(a, i, e).mem == Access(a.hart, a.mem, DataReq(i, a.regs[i.rs1], a.regs[i.rs2])).mem
  {
    hide Access, DataReq, KindOf, LoadValue, NextPc, Retire;
    RetireKeeps(a.(mem := Access(a.hart, a.mem, DataReq(i, a.regs[i.rs1], a.regs[i.rs2])).mem), i);
  }

  lemma RetireKeeps(a: Arch, i: Instr)
    ensures forall pc, v :: Retire(a, i, pc, v).hart == a.hart && Retire(a, i, pc, v).mem == a.mem
  {
  }

  lemma AbsParts(s: Core)
    ensures Abs(s).hart == s.hart && Abs(s).mem == s.mem
  {
    hide WriteBack;
  }

  /** What the invariant says about a memory instruction in EX. */
  lemma InEx(code: Code, s: Core)
    requires Inv(code, s) && IsKind(s.x, LoadStore)
    ensures var a, i := Abs(s), code(Abs(s));
            && s.x.instr == i && !i.onTrap && KindOf(i.ty) == LoadStore
            && DataReq(i, a.regs[i.rs1], a.regs[i.rs2]) == ReqOf(s.x)
  {
    hide KindOf, DataReq, UnitsInStep, WriteBack;
  }

  lemma FixedAfter(l: Tlb.Leaves, root: nat -> Addr, s: Core, t: Core)
    requires Spares(l, root, s) && T.Fixed(l, root, s)
    requires t.hart == s.hart && t.mem == Access(s.hart, s.mem, ReqOf(s.x)).mem
    ensures T.Fixed(l, root, t)
  {
    hide Access, ReqOf, T.SameLeaves, Mmu.TranslationOn, Mmu.RootOf, Mmu.EffPriv, Tlb.LeavesOf;
  }

  /** The store's last cycle on the core. */
  lemma StoreExecutes(code: Code, s: Core, i: Input)
    requires Inv(code, s) && Truthful(code, s, i) && s.wb.stall && IsKind(s.x, LoadStore) && Answered(s).ack
    requires Access(s.hart, s.mem, ReqOf(s.x)).Done?
    ensures Next(s, i).hart == s.hart && Next(s, i).mem == Access(s.hart, s.mem, ReqOf(s.x)).mem
  {
    hide Inv, Access, Next, Abs, IsKind, Interrupted, Answered, Sem, Truthful, ReqOf, FateOf, Runs;
    CycleRefines(code, s, i);
    NotInterrupted(s, i);
    AnsweredExecutes(s, i);
    InEx(code, s);
    AbsParts(s);
    AbsParts(Next(s, i));
    SemLoad(Abs(s), code(Abs(s)), i.env);
    ExecutesMeans(Abs(s), code, i.env);
  }

  /** One cycle of the whole with a perfect beat. */
  lemma BeatSound(code: Code, l: Tlb.Leaves, root: nat -> Addr, y: T.Sys, e: Env)
    requires |y.t| > 0 && Inv(code, y.core) && T.Sound(l, y) && T.Fixed(l, root, y.core) && Tlb.GlobalShared(l)
    ensures var b := PerfectBeat(code, y, e);
            var i := T.InputOf(y, b);
            && i.env == e && Truthful(code, y.core, i) && T.FetchTrue(code, y, b) && T.Polite(l, b)
            && T.Next(y, b).core == Next(y.core, i)
            && |T.Next(y, b).t| > 0 && Inv(code, T.Next(y, b).core) && T.Sound(l, T.Next(y, b))
  {
    hide Inv, T.Sound, Tlb.GlobalShared, T.Fixed, Next, T.Next, T.InputOf, Truthful, T.FetchTrue, T.Polite;
    var b := PerfectBeat(code, y, e);
    PerfectIsTrue(code, l, y, e);
    InputParts(y, b);
    T.NextCore(y, b);
    T.StepSound(code, l, root, y, b);
    T.KeepsSize(y, b);
  }

  lemma ExecutesMeans(a: Arch, code: Code, e: Env)
    ensures Meaning(a, Executes, code, e) == Sem(a, code(a), e)
  {
  }

  lemma AnsweredExecutes(s: Core, i: Input)
    requires Runs(s, i, LoadStore) && Answered(s).ack
    ensures FateOf(s, i.env) == Executes
  {
    hide Interrupted, Answered, KindOf, NextPc, Comb, Control;
    RunsControl(s, i, LoadStore);
    FatesCover(s, i);
  }

  /** A waiting cycle: nothing changes but the walk. */
  lemma WaitCycle(code: Code, s: Core, i: Input)
    requires Inv(code, s) && Truthful(code, s, i) && s.wb.stall && IsKind(s.x, LoadStore) && !Answered(s).ack
    ensures var t := Next(s, i);
            && t.x == s.x && t.wb.stall && t.mem == s.mem && t.hart == s.hart && Rank(t.mmu) < Rank(s.mmu) && Rank(t.mmu) >= 0
  {
    hide Inv, Next, Abs, IsKind, Answered, Truthful, FateOf, Rank, Meaning;
    LoadWaitStep(code, s, i);
    WaitParts(s, i);
    CycleRefines(code, s, i);
    StutterMeans(Abs(s), code, i.env);
    AbsParts(s);
    AbsParts(Next(s, i));
    InvRank(code, Next(s, i));
  }

  lemma WaitParts(s: Core, i: Input)
    requires Waits(s, i)
    ensures FateOf(s, i.env) == Stutter && Next(s, i).x == s.x && Next(s, i).mem == s.mem && Next(s, i).wb.stall
  {
    hide Next, FateOf;
  }

  /** From any point of a store that spares the tables, there is a steady run to its
      end, after which memory holds its effect and the mapping is still the same. */
  lemma {:induction false} StoreRun(code: Code, l: Tlb.Leaves, root: nat -> Addr, y: T.Sys, e: Env) returns (bs: seq<T.Beat>)
    requires |y.t| > 0 && Inv(code, y.core) && T.Sound(l, y) && T.Fixed(l, root, y.core) && Tlb.GlobalShared(l)
    requires y.core.wb.stall && IsKind(y.core.x, LoadStore) && Spares(l, root, y.core) && Rank(y.core.mmu) >= 0
    ensures bs != [] && T.Steady(code, l, root, y, bs)
    ensures T.Fixed(l, root, T.Run(y, bs).core)
    ensures T.Run(y, bs).core.mem == Access(y.core.hart, y.core.mem, ReqOf(y.core.x)).mem
    decreases Rank(y.core.mmu)
  {
    hide Inv, T.Sound, Tlb.GlobalShared, T.Fixed, Next, T.Next, T.InputOf, Truthful, T.FetchTrue, T.Polite, Access, IsKind, Answered,
      ReqOf, Rank;
    var b := PerfectBeat(code, y, e);
    BeatSound(code, l, root, y, e);
    var z := T.Next(y, b);
    if Answered(y.core).ack {
      StoreExecutes(code, y.core, T.InputOf(y, b));
      FixedAfter(l, root, y.core, z.core);
      bs := [b];
      OneBeat(code, l, root, y, b, []);
    } else {
      WaitCycle(code, y.core, T.InputOf(y, b));
      FixedSame(l, root, y.core, z.core);
      SparesSame(l, root, y.core, z.core);
      var rest := StoreRun(code, l, root, z, e);
      bs := [b] + rest;
      OneBeat(code, l, root, y, b, rest);
    }
  }

  lemma OneBeat(code: Code, l: Tlb.Leaves, root: nat -> Addr, y: T.Sys, b: T.Beat, rest: seq<T.Beat>)
    requires |y.t| > 0 && |T.Next(y, b).t| > 0 && T.Fixed(l, root, y.core) && T.FetchTrue(code, y, b) && T.Polite(l, b)
    requires T.Steady(code, l, root, T.Next(y, b), rest)
    ensures T.Steady(code, l, root, y, [b] + rest) && T.Run(y, [b] + rest) == T.Run(T.Next(y, b), rest)
  {
    hide T.Fixed, T.Next, T.FetchTrue, T.Polite;
    assert ([b] + rest)[1..] == rest;
    T.KeepsSize(y, b);
  }

  lemma FixedSame(l: Tlb.Leaves, root: nat -> Addr, s: Core, t: Core)
    requires T.Fixed(l, root, s) && t.hart == s.hart && t.mem == s.mem
    ensures T.Fixed(l, root, t)
  {
    hide T.SameLeaves, Mmu.TranslationOn, Mmu.RootOf, Mmu.EffPriv, Tlb.LeavesOf;
  }

  lemma SparesSame(l: Tlb.Leaves, root: nat -> Addr, s: Core, t: Core)
    requires Spares(l, root, s) && t.hart == s.hart && t.mem == s.mem && t.x == s.x
    ensures Spares(l, root, t) && ReqOf(t.x) == ReqOf(s.x)
  {
    hide T.SameLeaves, Tlb.LeavesOf, Access, ReqOf;
  }

  /** A plain store beside the tables, wherever translation puts it, spares them. */
  lemma StoreSpares(l: Tlb.Leaves, root: nat -> Addr, s: Core)
    requires T.Fixed(l, root, s)
    requires var q := ReqOf(s.x);
             && q.isStore && !q.isLoad && !q.isAmo && Access(s.hart, s.mem, q).Done? && Translate(s.hart, s.mem, q).Pa?
             && Beside(Sv32.World(s.mem, s.hart.pmp, 1), root, Translate(s.hart, s.mem, q).addr, q.size)
    ensures Spares(l, root, s)
    ensures var q := ReqOf(s.x);
            Access(s.hart, s.mem, q).mem == Write(s.mem, Translate(s.hart, s.mem, q).addr, q.size, q.wdata)
  {
    hide Translate, Misaligned, Reachable, Beside, Write, ReqOf, T.SameLeaves, Mmu.TranslationOn, Mmu.RootOf, Mmu.EffPriv, Tlb.LeavesOf;
    var q := ReqOf(s.x);
    var w, a := Sv32.World(s.mem, s.hart.pmp, 1), Translate(s.hart, s.mem, q).addr;
    WriteKeepsLeaves(w, root, a, q.size, q.wdata);
    SameThrough(l, Tlb.LeavesOf(w, root), Tlb.LeavesOf(Written(w, a, q.size, q.wdata), root));
  }

  lemma SameThrough(l: Tlb.Leaves, k: Tlb.Leaves, n: Tlb.Leaves)
    requires T.SameLeaves(l, k) && T.SameLeaves(n, k)
    ensures T.SameLeaves(l, n)
  {
  }

  /** The same from the store's first cycle, if no interrupt comes first. */
  lemma StoreFromStart(code: Code, l: Tlb.Leaves, root: nat -> Addr, y: T.Sys, e: Env) returns (bs: seq<T.Beat>)
    requires |y.t| > 0 && Inv(code, y.core) && T.Sound(l, y) && T.Fixed(l, root, y.core) && Tlb.GlobalShared(l)
    requires !y.core.wb.stall && IsKind(y.core.x, LoadStore) && Spares(l, root, y.core)
    requires Interrupted(Stage(y.core, e)) == None
    ensures bs != [] && T.Steady(code, l, root, y, bs)
    ensures T.Fixed(l, root, T.Run(y, bs).core)
    ensures T.Run(y, bs).core.mem == Access(y.core.hart, y.core.mem, ReqOf(y.core.x)).mem
  {
    hide Inv, T.Sound, Tlb.GlobalShared, T.Fixed, Next, T.Next, T.InputOf, Truthful, T.FetchTrue, T.Polite, Access, IsKind, Answered,
      ReqOf, Rank, Interrupted, ExecuteKind, Waits;
    var b := PerfectBeat(code, y, e);
    BeatSound(code, l, root, y, e);
    var z, i := T.Next(y, b), T.InputOf(y, b);
    LoadStart(code, y.core, i);
    StartWaits(y.core, i);
    WaitParts(y.core, i);
    AbsParts(y.core);
    AbsParts(Next(y.core, i));
    FixedSame(l, root, y.core, z.core);
    SparesSame(l, root, y.core, z.core);
    InvRank(code, z.core);
    var rest := StoreRun(code, l, root, z, e);
    bs := [b] + rest;
    OneBeat(code, l, root, y, b, rest);
  }

  // -------------------------------------------------------- a run from reset with one

  /** SW x11, 0(x11). */
  const STORE := BLANK.(ty := SW, rs1 := 11, rs2 := 11, isStore := true, memSize := 4)

  const A: Addr := 0x8010_0000

  function StoreReq(): (q: Req) { Req(false, A, 0x8010_0000, 4, false, true, false, 0) }

  /** After reset: register 11 as the register file starts, memory empty. */
  ghost predicate FromReset(y: T.Sys) {
    && |y.t| > 0 && (forall k :: 0 <= k < |y.t| ==> !y.t[k].valid)
    && Initial(y.core) && y.core.regs[11] == 0x8010_0000 && y.core.mem == Mem(map[], {})
  }

  function Zero(k: nat): (a: Addr) { 0 }

  ghost function NoLeaves(): (l: Tlb.Leaves) { (key: nat, vpn: nat) => None }

  function Always(a: Arch): (i: Instr) { STORE }

  lemma {:induction false} EmptyAllows(i: int, a: nat, op: bv8, size: nat)
    requires 0 <= i <= Pmp.COUNT && size > 0
    ensures Pmp.CheckFrom(Pmp.INIT, i, a, op, size, 3)
    decreases Pmp.COUNT - i
  {
    hide Pmp.NapotMatch;
    if i < Pmp.COUNT { EmptyAllows(i + 1, a, op, size); }
  }

  lemma ResetBits()
    ensures H.RESET.Get(H.SATP) == 0 && H.RESET.Status() == 0x1800 && !Sv32.SatpOn(0) && !H.MprvBit(0x1800)
  {
  }

  lemma ResetEff()
    ensures EffPriv(H.RESET) == 3 && !Mmu.TranslationOn(H.RESET)
  {
    hide H.MprvBit, Sv32.SatpOn;
    ResetBits();
  }

  lemma ResetQuiet(e: Env)
    requires e.wires == 0
    ensures H.CheckInterrupt(H.RESET, e.wires) == None
  {
    assert H.RESET.Get(H.MIP) == 0 && H.RESET.Get(H.MIE) == 0;
    assert H.Pending(0, 0, 0) == 0;
    assert forall d, m, s :: H.ByLevel(0, d, m, s) == 0;
  }

  lemma StoreAccess(m: Mem)
    ensures Access(H.RESET, m, StoreReq()) == Done(0, Write(m, A, 4, 0x8010_0000))
    ensures Translate(H.RESET, m, StoreReq()) == Sv32.Pa(A)
  {
    hide Write, Pmp.CheckFrom, EffPriv, Mmu.TranslationOn;
    ResetEff();
    EmptyAllows(0, A, 2, 4);
  }

  lemma NothingMapped(m: Mem, key: nat, vpn: nat)
    ensures Tlb.LeavesOf(Sv32.World(m, Pmp.INIT, 1), Zero)(key, vpn) == None
  {
    hide Read, Pmp.Allowed;
    var w, a := Sv32.World(m, Pmp.INIT, 1), Tlb.PageAddr(vpn);
    LowSlot(a);
    assert Sv32.PteAt(w, Sv32.Pte1Addr(0, a)) == None;
    assert Tlb.LeavesOf(w, Zero)(key, vpn) == Sv32.LeafOf(w, Zero(key), a);
  }

  lemma LowSlot(va: Addr)
    ensures Sv32.Pte1Addr(0, va) < 0x1000
  {
  }

  lemma NothingFixed(c: Core)
    requires c.hart == H.RESET
    ensures T.Fixed(NoLeaves(), Zero, c)
  {
    hide Tlb.LeavesOf, EffPriv, Mmu.TranslationOn;
    ResetEff();
    forall key: nat, vpn: nat ensures NoLeaves()(key, vpn) == Tlb.LeavesOf(Sv32.World(c.mem, c.hart.pmp, 1), Zero)(key, vpn) {
      NothingMapped(c.mem, key, vpn);
    }
  }

  /** The store in EX, before its first cycle. */
  lemma FirstBeat(y: T.Sys, e: Env)
    requires FromReset(y) && y.core.hart == H.RESET && e.wires == 0
    ensures var z := T.Next(y, PerfectBeat(Always, y, e));
            && z.core.hart == H.RESET && z.core.mem == Mem(map[], {}) && !z.core.wb.stall
            && z.core.x == IdEx(false, y.core.exPc, STORE, 0x8010_0000, 0x8010_0000)
  {
    hide Pmp.CheckFrom, H.CheckInterrupt, T.InputOf, H.Step, MulDivResult, Step;
    var b := PerfectBeat(Always, y, e);
    T.NextCore(y, b);
    InputParts(y, b);
    ResetQuiet(e);
    BubbleOut(y.core, e);
    NothingCommitted(y.core.mem);
    StepNothing(y.core.hart);
  }

  lemma StepNothing(h: H.Hart)
    ensures H.Step(h, H.NoEffect) == h
  {
  }

  /** A bubble asks for nothing. */
  lemma BubbleOut(s: Core, e: Env)
    requires Initial(s) && H.CheckInterrupt(s.hart, e.wires) == None
    ensures var o := Comb(Stage(s, e));
            o.npc == s.exPc && !o.stall && !o.flush && !o.write && o.eff == H.NoEffect && !o.req.ack
  {
    hide H.CheckInterrupt, H.TrapPc, H.ReturnPc;
  }

  lemma StoreRequest(z: Core)
    requires z.x.instr == STORE && z.x.rs1Val == 0x8010_0000 && z.x.rs2Val == 0x8010_0000
    ensures ReqOf(z.x) == StoreReq()
  {
  }

  /** From reset, the program that only stores has a steady run that changes memory. */
  lemma ResetStore(y: T.Sys, e: Env) returns (bs: seq<T.Beat>)
    requires FromReset(y) && y.core.hart == H.RESET && e.wires == 0
    ensures Tlb.GlobalShared(NoLeaves()) && T.Steady(Always, NoLeaves(), Zero, y, bs)
    ensures T.Run(y, bs).core.mem == Write(Mem(map[], {}), A, 4, 0x8010_0000) != y.core.mem
  {
    hide T.Fixed, Next, T.Next, T.InputOf, Truthful, T.FetchTrue, T.Polite, Access, ReqOf, Inv, T.Sound, Tlb.LeavesOf, Spares, Write,
      H.CheckInterrupt, IsKind;
    var b := PerfectBeat(Always, y, e);
    InitialInv(Always, y.core);
    EmptySound(y);
    NothingFixed(y.core);
    BeatSound(Always, NoLeaves(), Zero, y, e);
    FirstBeat(y, e);
    var z := T.Next(y, b);
    NothingFixed(z.core);
    StoreRequest(z.core);
    StoreAccess(z.core.mem);
    SparesNothing(z.core);
    StoreKind(z.core.x);
    ResetQuiet(e);
    var rest := StoreFromStart(Always, NoLeaves(), Zero, z, e);
    bs := [b] + rest;
    OneBeat(Always, NoLeaves(), Zero, y, b, rest);
    WriteChanges();
  }

  lemma StoreKind(x: IdEx)
    requires !x.flush && x.instr == STORE
    ensures IsKind(x, LoadStore)
  {
  }

  lemma EmptySound(y: T.Sys)
    requires FromReset(y)
    ensures T.Sound(NoLeaves(), y)
  {
  }

  lemma SparesNothing(s: Core)
    requires s.hart == H.RESET && Access(s.hart, s.mem, ReqOf(s.x)).Done?
    ensures Spares(NoLeaves(), Zero, s)
  {
    hide Access, ReqOf, Tlb.LeavesOf;
    var m := Access(s.hart, s.mem, ReqOf(s.x)).mem;
    forall key: nat, vpn: nat ensures NoLeaves()(key, vpn) == Tlb.LeavesOf(Sv32.World(m, s.hart.pmp, 1), Zero)(key, vpn) {
      NothingMapped(m, key, vpn);
    }
  }

  lemma WriteChanges()
    ensures Write(Mem(map[], {}), A, 4, 0x8010_0000) != Mem(map[], {})
  {
    hide Bits.LowByte, DropByte;
    StoreThenLoad(Mem(map[], {}), A, 0x8010_0000);
    EmptyRead();
  }

  lemma EmptyRead()
    ensures Read(Mem(map[], {}), A, 4) == 0
  {
  }
}
