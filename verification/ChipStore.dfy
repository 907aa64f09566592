/** Runs of the chip that write memory meet the hypothesis of
    `Chip.ChipRunsMemory`, with one from reset. */
module ChipStore {
  import opened Options
  import opened Isa
  import opened Memory
  import opened Exec
  import opened Core
  import opened Chip
  import Ch = Chip
  import C = Core
  import S = Steady
  import T = Transparency
  import F = FetchSide
  import Fetch
  import P = Prefetch
  import D = Decode
  import Mmu
  import Im = Immu
  import Sv32
  import Pmp
  import Tlb
  import H = Hart

  // ------------------------------------------- writes beside what a fetch reads

  /** Byte `b` is read by the fetch at `pc`: in a page-table word or in its word. */
  ghost predicate FetchByte(h: H.Hart, m: Mem, pc: Addr, b: Addr) {
    || (Im.TranslationOn(h) && WalkByte(Im.WorldOf(h, m), Im.RootOf(h), Im.WordOf(pc), b))
    || (Im.Translate(h, m, pc).Pa? && Covers(Im.Translate(h, m, pc).addr, 4, b))
  }

  ghost predicate WalkByte(w: Sv32.World, root: Addr, va: Addr, b: Addr)
    requires root % 0x1000 == 0
  {
    S.FirstByte(root, va, b) || S.SecondByte(w, root, va, b)
  }

  /** None of the written bytes is. */
  ghost predicate Apart(h: H.Hart, m: Mem, pc: Addr, a: Addr, size: nat) {
    forall b: Addr :: Covers(a, size, b) ==> !FetchByte(h, m, pc, b)
  }

  lemma SameWalk(w: Sv32.World, root: Addr, va: Addr, who: Sv32.Who, a: Addr, size: nat, v: bv32)
    requires root % 0x1000 == 0
    requires forall b: Addr :: Covers(a, size, b) ==> !WalkByte(w, root, va, b)
    ensures Sv32.PteAt(S.Written(w, a, size, v), Sv32.Pte1Addr(root, va)) == Sv32.PteAt(w, Sv32.Pte1Addr(root, va))
    ensures Sv32.Walk(S.Written(w, a, size, v), root, va, who) == Sv32.Walk(w, root, va, who)
  {
    hide Covers, S.Written, Sv32.PteAt, Sv32.Pte1Addr, Sv32.Pte0Addr, Sv32.V, Sv32.CleanPointer, Sv32.IsLeaf, Sv32.LeafFault, Sv32.LeafAddr, Sv32.Ppn;
    S.SamePte(w, a, size, v, Sv32.Pte1Addr(root, va));
    var p := Sv32.PteAt(w, Sv32.Pte1Addr(root, va));
    if p.Some? && Sv32.CleanPointer(p.value) {
      S.SamePte(w, a, size, v, Sv32.Pte0Addr(p.value, va));
    }
    if p.Some? { Sv32.NoPermissionIfLeaf(who, p.value); }
  }

  /** A write apart from what a fetch reads leaves the fetch as it was. */
  lemma WriteSparesFetch(h: H.Hart, m: Mem, pc: Addr, a: Addr, size: nat, v: bv32)
    requires Apart(h, m, pc, a, size)
    ensures F.SparesFetch(pc, h, m, Write(m, a, size, v))
  {
    hide Covers, Write, WalkByte, Sv32.Walk, Sv32.PteAt, Sv32.Pte1Addr, Im.Executable, Im.TranslationOn, Im.WordOf, Im.RootOf, Read;
    assert forall b: Addr :: Covers(a, size, b) ==> !FetchByte(h, m, pc, b);
    if Im.TranslationOn(h) {
      SameWalk(Im.WorldOf(h, m), Im.RootOf(h), Im.WordOf(pc), Sv32.Fetch(h.priv), a, size, v);
      Im.WordPteAddrs(Im.RootOf(h), 0, pc);
      WrittenWorld(h, m, a, size, v);
    }
    if Im.Translate(h, m, pc).Pa? { SameWord(m, a, size, v, Im.Translate(h, m, pc).addr); }
  }

  lemma WrittenWorld(h: H.Hart, m: Mem, a: Addr, size: nat, v: bv32)
    ensures S.Written(Im.WorldOf(h, m), a, size, v) == Im.WorldOf(h, Write(m, a, size, v))
  {
    hide Write;
  }

  lemma SameWord(m: Mem, a: Addr, size: nat, v: bv32, x: Addr)
    requires forall b: Addr :: Covers(a, size, b) ==> !Covers(x, 4, b)
    ensures Read(Write(m, a, size, v), x, 4) == Read(m, x, 4)
  {
    hide Covers, Byte, Write;
    forall b: Addr | Covers(x, 4, b) ensures Byte(Write(m, a, size, v), b) == Byte(m, b) {
      S.WriteMisses(m, a, size, v, b);
    }
    S.SameRead(Write(m, a, size, v), m, x, 0, 4);
  }

  /** What the two sides hold and fetch across an edge. */
  ghost predicate HeldApart(y: F.Whole, z: F.Whole, a: Addr, size: nat) {
    var h, m := y.core.hart, y.core.mem;
    && QueueApart(y.f.q, h, m, a, size) && QueueApart(z.f.q, h, m, a, size) && Apart(h, m, z.d.pc, a, size)
  }

  ghost predicate QueueApart(q: Fetch.Queue, h: H.Hart, m: Mem, a: Addr, size: nat) {
    forall j :: 0 <= j < |q.items| ==>
      Apart(h, m, At(q.addr, 2 * j), a, size) && Apart(h, m, Fetch.WordBase(At(q.addr, 2 * j)), a, size)
  }

  lemma WriteSparesHalves(q: Fetch.Queue, h: H.Hart, m: Mem, a: Addr, size: nat, v: bv32)
    requires QueueApart(q, h, m, a, size)
    ensures F.SparesHalves(q, h, m, Write(m, a, size, v))
  {
    hide Write, Apart, Im.FetchAccess, Im.Translate, Sv32.PteAt, Fetch.LowHalf, Fetch.HighHalf, At, Fetch.WordBase;
    forall j | 0 <= j < |q.items|
      ensures Fetch.HalfAt(F.MemoryOf(h, m), At(q.addr, 2 * j)) == Fetch.HalfAt(F.MemoryOf(h, Write(m, a, size, v)), At(q.addr, 2 * j))
    {
      WriteSparesFetch(h, m, At(q.addr, 2 * j), a, size, v);
      WriteSparesFetch(h, m, Fetch.WordBase(At(q.addr, 2 * j)), a, size, v);
    }
  }

  /** A cycle whose only write is apart from all of it is undisturbed. */
  lemma WriteUndisturbed(y: F.Whole, b: F.Beat, a: Addr, size: nat, v: bv32)
    requires F.Shaped(y) && HeldApart(y, F.NextWhole(y, b), a, size)
    requires F.NextWhole(y, b).core.mem == Write(y.core.mem, a, size, v)
    ensures F.Undisturbed(y, b)
  {
    hide Write, Apart, F.NextWhole, F.SparesFetch, F.SparesHalves, QueueApart, F.OutOf;
    var h, m, z := y.core.hart, y.core.mem, F.NextWhole(y, b);
    WriteSparesHalves(y.f.q, h, m, a, size, v);
    WriteSparesHalves(z.f.q, h, m, a, size, v);
    WriteSparesFetch(h, m, z.d.pc, a, size, v);
  }

  lemma QuietUndisturbed(y: F.Whole, b: F.Beat)
    requires F.Shaped(y) && F.NextWhole(y, b).core.mem == y.core.mem
    ensures F.Undisturbed(y, b)
  {
    hide F.NextWhole, F.OutOf, Im.Translate, Im.FetchAccess, Fetch.HalfAt, Sv32.PteAt;
  }

  // ------------------------------------------ the store's addresses, after reset

  lemma CoversRange(base: Addr, b: Addr)
    requires base + 4 <= SPACE && Covers(base, 4, b)
    ensures base <= b < base + 4
  {
  }

  lemma ResetFetch()
    ensures !Im.TranslationOn(H.RESET) && H.RESET.priv == 3 && H.RESET.pmp == Pmp.INIT && Im.RootOf(H.RESET) == 0
  {
    hide Sv32.SatpOn;
    S.ResetBits();
    NoRoot();
  }

  lemma NoRoot()
    ensures Sv32.Root(0) == 0
  {
  }

  /** Without translation nothing that is fetched below the stored word touches it. */
  lemma LowApart(h: H.Hart, m: Mem, pc: Addr)
    requires !Im.TranslationOn(h) && pc < S.A - 4
    ensures Apart(h, m, pc, S.A, 4)
  {
    hide Covers, Im.TranslationOn, WalkByte;
    forall b: Addr | Covers(S.A, 4, b) ensures !FetchByte(h, m, pc, b) {
      CoversRange(S.A, b);
      if Covers(Im.WordOf(pc), 4, b) { CoversRange(Im.WordOf(pc), b); }
    }
  }

  predicate QueueBelow(q: Fetch.Queue, n: nat) { q.addr + 2 * |q.items| <= n }

  lemma LowQueueApart(q: Fetch.Queue, h: H.Hart, m: Mem)
    requires !Im.TranslationOn(h) && QueueBelow(q, S.A - 4)
    ensures QueueApart(q, h, m, S.A, 4)
  {
    hide Apart, Im.TranslationOn;
    forall j | 0 <= j < |q.items|
      ensures Apart(h, m, At(q.addr, 2 * j), S.A, 4) && Apart(h, m, Fetch.WordBase(At(q.addr, 2 * j)), S.A, 4)
    {
      assert At(q.addr, 2 * j) == q.addr + 2 * j;
      LowApart(h, m, At(q.addr, 2 * j));
      LowApart(h, m, Fetch.WordBase(At(q.addr, 2 * j)));
    }
  }

  /** The fetch side works below `n`. */
  predicate Below(y: F.Whole, n: nat) { y.d.pc < n && y.fetchPc < n && QueueBelow(y.f.q, n) }

  lemma QueueMoves(q: Fetch.Queue, ifFlush: bool, c: Fetch.Cycle, n: nat)
    requires (!ifFlush ==> |q.items| >= Fetch.Need(q)) && !c.reset
    requires QueueBelow(q, n) && c.pc < n && n + 8 <= S.A
    ensures QueueBelow(Fetch.Advance(q, ifFlush, c), n + 8)
  {
    hide Fetch.Long, Fetch.LowHalf, Fetch.HighHalf, Fetch.Queue.End;
  }

  /** In one edge it moves up by less than eight bytes. */
  lemma BelowMoves(y: F.Whole, b: F.Beat, n: nat)
    requires F.Shaped(y) && !F.OutOf(y, b.env).flush && Below(y, n) && n + 8 <= S.A
    ensures var z := F.NextWhole(y, b); z.d.pc < n + 8 && QueueBelow(z.f.q, n + 8)
    ensures !F.OutOf(y, b.env).taken ==> Below(F.NextWhole(y, b), n + 8)
  {
    hide F.OutOf, C.Next, F.Acks, F.Response, Fetch.Advance, F.InputOf, Im.Checked, Im.GotPte1, Im.GotPte0, Im.Ready, Im.TranslationOn,
      Fetch.Need, F.Taken, Sv32.LeafFault, Sv32.LeafAddr, Sv32.Vpn0, Im.WordOf, Im.Answer, F.WordFrom, QueueBelow;
    var o := F.OutOf(y, b.env);
    QueueMoves(y.f.q, y.f.ifFlush, F.CycleOf(y, o), n);
    StepPc(y.d, F.Response(y), F.StartPc(y, o), y.core.hart, b.instrHit);
    SuccAbove(y.fetchPc);
  }

  lemma StepPc(d: Im.Immu, r: Rsp, next: Addr, h: H.Hart, tlb: Option<Sv32.Leaf>)
    ensures Im.Step(d, r, next, h, tlb).pc == if Im.Ready(d, r) then next else d.pc
  {
    hide Im.Ready, Im.TranslationOn, Sv32.LeafFault, Sv32.LeafAddr, Sv32.Vpn0, Im.WordOf, Sv32.Level1Fault, Sv32.Level0Fault, Sv32.IsLeaf,
      Sv32.PteSlot, Sv32.Pte1Addr, Im.RootOf, Sv32.Ppn, Im.Reachable;
  }

  lemma SuccAbove(a: Addr)
    ensures P.Succ(a) <= a + 4
  {
  }

  // ------------------------------------------------------------ the store's cycles

  /** An input that says nothing: memory moves the same under any other. */
  function Silent(e: Env): (i: Input) { Input(e, Slot(true, 0, BLANK), None) }

  lemma SilentTruthful(code: Code, s: C.Core, e: Env)
    ensures Truthful(code, s, Silent(e))
  {
    hide Comb, C.Next, Abs;
  }

  lemma SameMem(c: Chip, e: Edge)
    requires Whole(c)
    ensures Ch.Next(c, e).y.core.mem == C.Next(c.y.core, Silent(e.env)).mem
    ensures Ch.Next(c, e).y.core == C.Next(c.y.core, F.InputOf(c.y, BeatOf(c, e))) && F.InputOf(c.y, BeatOf(c, e)).env == e.env
  {
    hide Ch.Next, C.Next, BeatOf, F.NextWhole, F.InputOf, Abs;
    var i := F.InputOf(c.y, BeatOf(c, e));
    NextWholeOf(c, e);
    F.NextCore(c.y, BeatOf(c, e));
    SameEnv(c, e);
    F.InputEnv(c.y, BeatOf(c, e));
    S.SlotAndHitLeaveAbs(c.y.core, e.env, i.slot, Slot(true, 0, BLANK), i.tlb);
    S.AbsParts(C.Next(c.y.core, i));
    S.AbsParts(C.Next(c.y.core, Silent(e.env)));
  }

  lemma ResetMapped(c: Chip)
    requires c.y.core.hart == H.RESET
    ensures Mapped(S.NoLeaves(), S.Zero, c) && Tlb.GlobalShared(S.NoLeaves())
  {
    hide T.Fixed, Im.TranslationOn, Im.RootOf, Tlb.Key;
    ResetFetch();
    S.NothingFixed(c.y.core);
  }

  /** A cycle of the reset machine that writes nothing, or the word at `A`. */
  lemma LowEdge(c: Chip, e: Edge, n: nat)
    requires Whole(c) && Good(S.NoLeaves(), c) && c.y.core.hart == H.RESET && Below(c.y, n) && n + 16 <= S.A && !OutOf(c, e).flush
    requires var m := C.Next(c.y.core, Silent(e.env)).mem; m == c.y.core.mem || exists v :: m == Write(c.y.core.mem, S.A, 4, v)
    ensures Mapped(S.NoLeaves(), S.Zero, c) && F.Undisturbed(c.y, BeatOf(c, e))
    ensures Whole(Ch.Next(c, e)) && Good(S.NoLeaves(), Ch.Next(c, e))
    ensures Truthful(F.CodeOf, c.y.core, F.InputOf(c.y, BeatOf(c, e)))
    ensures !OutOf(c, e).taken ==> Below(Ch.Next(c, e).y, n + 8)
  {
    hide Ch.Next, C.Next, BeatOf, F.NextWhole, F.InputOf, Good, Mapped, F.Undisturbed, F.OutOf, Truthful, QueueBelow, QueueApart, Apart, Write, F.CodeOf,
      F.Trusted, F.Good, Tlb.GlobalShared, Im.TranslationOn;
    var y, b := c.y, BeatOf(c, e);
    SameMem(c, e);
    SameEnv(c, e);
    NextWholeOf(c, e);
    BelowMoves(y, b, n);
    var m := C.Next(c.y.core, Silent(e.env)).mem;
    if m == y.core.mem {
      QuietUndisturbed(y, b);
    } else {
      var v :| m == Write(y.core.mem, S.A, 4, v);
      ResetFetch();
      LowHeld(y, F.NextWhole(y, b), n);
      WriteUndisturbed(y, b, S.A, 4, v);
    }
    ResetMapped(c);
    EdgeGood(S.NoLeaves(), S.Zero, c, e);
    GoodParts(c);
    F.CoreMoves(y, b);
  }

  lemma LowHeld(y: F.Whole, z: F.Whole, n: nat)
    requires !Im.TranslationOn(y.core.hart) && Below(y, n) && z.d.pc < n + 8 && QueueBelow(z.f.q, n + 8) && n + 16 <= S.A
    ensures HeldApart(y, z, S.A, 4)
  {
    hide QueueApart, Apart, Im.TranslationOn;
    LowQueueApart(y.f.q, y.core.hart, y.core.mem);
    LowQueueApart(z.f.q, y.core.hart, y.core.mem);
    LowApart(y.core.hart, y.core.mem, z.d.pc);
  }

  lemma GoodParts(c: Chip)
    requires Good(S.NoLeaves(), c)
    ensures F.Good(c.y) && F.Shaped(c.y) && Inv(F.CodeOf, c.y.core)
  {
    hide F.Good, Inv, T.Sound, Latched;
    F.GoodInv(c.y);
  }

  /** The store is in EX and the fetch side far below its address. */
  ghost predicate Storing(c: Chip, n: nat) {
    && Whole(c) && Good(S.NoLeaves(), c) && Below(c.y, n)
    && IsKind(c.y.core.x, LoadStore) && ReqOf(c.y.core.x) == S.StoreReq()
  }

  lemma StoreShape(c: Chip, e: Edge)
    requires Whole(c) && Runs(c.y.core, Silent(e.env), LoadStore)
    ensures !OutOf(c, e).taken && (ExecuteKind(Stage(c.y.core, e.env), LoadStore).stall ==> !OutOf(c, e).flush)
    ensures ExecuteKind(Stage(c.y.core, e.env), LoadStore).stall <==> !Answered(c.y.core).ack
    ensures Answered(c.y.core).fault == 0 ==> !OutOf(c, e).flush
  {
    hide Interrupted, Answered, NpcOf, ValOf, EffectOf, DataReq, KindOf, NextPc;
    RunsControl(c.y.core, Silent(e.env), LoadStore);
    FaultIsAnswer(c.y.core);
  }

  lemma OneEdge(l: Tlb.Leaves, root: nat -> Addr, c: Chip, e: Edge, rest: seq<Edge>)
    requires Whole(c) && Whole(Ch.Next(c, e)) && Mapped(l, root, c) && F.Undisturbed(c.y, BeatOf(c, e))
    requires Calm(l, root, Ch.Next(c, e), rest)
    ensures Calm(l, root, c, [e] + rest) && Ch.Run(c, [e] + rest) == Ch.Run(Ch.Next(c, e), rest)
  {
    hide Mapped, F.Undisturbed, Ch.Next, BeatOf;
    assert ([e] + rest)[1..] == rest;
    OneCore(c, e);
  }

  lemma StoringParts(c: Chip, n: nat)
    requires Storing(c, n)
    ensures Whole(c) && Good(S.NoLeaves(), c) && Inv(F.CodeOf, c.y.core) && IsKind(c.y.core.x, LoadStore) && Below(c.y, n)
  {
    hide Good, Inv, IsKind, Below;
    GoodParts(c);
  }

  /** A waiting cycle, the first included, only waits. */
  lemma StoreWaits(c: Chip, e: Edge, n: nat)
    requires Storing(c, n) && c.y.core.hart == H.RESET && n + 16 <= S.A && e.env.wires == 0
    requires !Answered(c.y.core).ack
    ensures Mapped(S.NoLeaves(), S.Zero, c) && F.Undisturbed(c.y, BeatOf(c, e))
    ensures var d := Ch.Next(c, e);
            && Storing(d, n + 8) && d.y.core.hart == H.RESET && d.y.core.wb.stall && d.y.core.mem == c.y.core.mem
            && Mmu.Rank(d.y.core.mmu) >= 0 && (c.y.core.wb.stall ==> Mmu.Rank(d.y.core.mmu) < Mmu.Rank(c.y.core.mmu))
  {
    hide Good, Mapped, F.Undisturbed, Ch.Next, C.Next, BeatOf, F.InputOf, Truthful, Inv, IsKind, Below, F.OutOf, Answered, Mmu.Rank, F.CodeOf, ReqOf, Runs,
      ExecuteKind;
    StoringParts(c, n);
    var s := c.y.core;
    SilentTruthful(F.CodeOf, s, e.env);
    CoreWaits(c, e, Silent(e.env));
    LowEdge(c, e, n);
    SameMem(c, e);
    CoreWaits(c, e, F.InputOf(c.y, BeatOf(c, e)));
    GoodParts(Ch.Next(c, e));
    InvRank(F.CodeOf, Ch.Next(c, e).y.core);
    SameReq(s, Ch.Next(c, e).y.core);
  }

  lemma SameReq(s: C.Core, t: C.Core)
    requires t.x == s.x
    ensures ReqOf(t.x) == ReqOf(s.x) && (IsKind(s.x, LoadStore) ==> IsKind(t.x, LoadStore))
  {
  }

  /** The same on the core, for any true input of the cycle. */
  lemma CoreWaits(c: Chip, e: Edge, i: Input)
    requires Whole(c) && Inv(F.CodeOf, c.y.core) && IsKind(c.y.core.x, LoadStore) && !Answered(c.y.core).ack
    requires c.y.core.hart == H.RESET && e.env.wires == 0 && i.env == e.env && Truthful(F.CodeOf, c.y.core, i)
    ensures var t := C.Next(c.y.core, i);
            && t.x == c.y.core.x && t.wb.stall && t.mem == c.y.core.mem && t.hart == c.y.core.hart
            && (c.y.core.wb.stall ==> Mmu.Rank(t.mmu) < Mmu.Rank(c.y.core.mmu))
    ensures !OutOf(c, e).taken && !OutOf(c, e).flush
  {
    hide Inv, IsKind, Answered, C.Next, Truthful, F.CodeOf, F.OutOf, Mmu.Rank, Interrupted, ExecuteKind, Waits;
    var s := c.y.core;
    if s.wb.stall {
      NotInterrupted(s, i);
      S.WaitCycle(F.CodeOf, s, i);
    } else {
      Uninterrupted(s, i.env);
      LoadStart(F.CodeOf, s, i);
      StartWaits(s, i);
      S.WaitParts(s, i);
      S.AbsParts(s);
      S.AbsParts(C.Next(s, i));
    }
    SameRuns(s, i, Silent(e.env));
    StoreShape(c, e);
  }

  lemma SameRuns(s: C.Core, i: Input, j: Input)
    requires i.env == j.env && Runs(s, i, LoadStore)
    ensures Runs(s, j, LoadStore)
  {
    hide Interrupted, Answered;
  }

  lemma Uninterrupted(s: C.Core, e: Env)
    requires s.hart == H.RESET && e.wires == 0
    ensures Interrupted(Stage(s, e)) == None
  {
    hide Answered, H.CheckInterrupt;
    S.ResetQuiet(e);
  }

  /** Its last cycle writes. */
  lemma StoreEnds(c: Chip, e: Edge, n: nat)
    requires Storing(c, n) && c.y.core.hart == H.RESET && n + 16 <= S.A && c.y.core.wb.stall && Answered(c.y.core).ack
    ensures Mapped(S.NoLeaves(), S.Zero, c) && F.Undisturbed(c.y, BeatOf(c, e)) && Whole(Ch.Next(c, e))
    ensures Ch.Next(c, e).y.core.mem == Write(c.y.core.mem, S.A, 4, 0x8010_0000)
  {
    hide Good, Mapped, F.Undisturbed, Ch.Next, C.Next, BeatOf, F.InputOf, Truthful, Inv, IsKind, Below, F.OutOf, Answered, F.CodeOf, ReqOf,
      ExecuteKind, Write, Mmu.Access, Interrupted;
    StoringParts(c, n);
    var s, i := c.y.core, Silent(e.env);
    SilentTruthful(F.CodeOf, s, e.env);
    S.StoreAccess(s.mem);
    S.StoreExecutes(F.CodeOf, s, i);
    NotInterrupted(s, i);
    StoreShape(c, e);
    NoFault(s, i);
    LowEdge(c, e, n);
    SameMem(c, e);
  }

  lemma NoFault(s: C.Core, i: Input)
    requires Inv(F.CodeOf, s) && Truthful(F.CodeOf, s, i) && s.wb.stall && IsKind(s.x, LoadStore) && Answered(s).ack
    requires Mmu.Access(s.hart, s.mem, ReqOf(s.x)).Done?
    ensures Answered(s).fault == 0
  {
    hide Inv, Truthful, IsKind, Answered, Mmu.Access, ReqOf, C.Next, F.CodeOf, Control, Interrupted, FateOf;
    NotInterrupted(s, i);
    S.AnsweredExecutes(s, i);
    FatesCover(s, i);
    LoadFinishes(F.CodeOf, s, i);
  }

  /** From any point of the store there is a calm run to its end. */
  lemma {:induction false} StoreRun(c: Chip, e: Edge, n: nat) returns (es: seq<Edge>)
    requires Storing(c, n) && c.y.core.hart == H.RESET && e.env.wires == 0 && c.y.core.wb.stall && Mmu.Rank(c.y.core.mmu) >= 0
    requires n + 16 + 8 * Mmu.Rank(c.y.core.mmu) <= S.A
    ensures Whole(c) && es != [] && Calm(S.NoLeaves(), S.Zero, c, es)
    ensures Ch.Run(c, es).y.core.mem == Write(c.y.core.mem, S.A, 4, 0x8010_0000)
    decreases Mmu.Rank(c.y.core.mmu)
  {
    hide Storing, Mapped, F.Undisturbed, Ch.Next, BeatOf, Write, Mmu.Rank, Answered;
    StoringWhole(c, n);
    if Answered(c.y.core).ack {
      StoreEnds(c, e, n);
      es := [e];
      OneEdge(S.NoLeaves(), S.Zero, c, e, []);
    } else {
      StoreWaits(c, e, n);
      var d := Ch.Next(c, e);
      var rest := StoreRun(d, e, n + 8);
      es := [e] + rest;
      OneEdge(S.NoLeaves(), S.Zero, c, e, rest);
    }
  }

  lemma StoringWhole(c: Chip, n: nat)
    requires Storing(c, n)
    ensures Whole(c)
  {
    hide Good, IsKind, Below;
  }

  // --------------------------------------------------- from reset to the store

  const PC: Addr := 0x8000_0000

  /** SW x11, 0(x11). */
  const CODE: bv32 := 0x00B5_A023

  function Image(): (m: Mem) { Write(Mem(map[], {}), PC, 4, CODE) }

  /** The core before its first instruction. */
  predicate Blank(s: C.Core) { Initial(s) && s.exPc == 0x8000_0000 && s.regs[11] == 0x8010_0000 && s.mem == Image() }

  /** Reset with the program in memory. */
  ghost predicate FromReset(c: Chip) {
    && F.Reset(c.y) && Cold(c) && Whole(c) && Blank(c.y.core) && c.y.d.pc == PC && c.y.fetchPc == PC
  }

  lemma IdleStays(q: Req, h: H.Hart, tlb: Option<Sv32.Leaf>)
    requires !q.ack
    ensures Mmu.Step(Mmu.IDLE, q, NO_RSP, false, h, tlb) == Mmu.IDLE && Mmu.Presented(Mmu.IDLE) == NO_REQ
  {
  }

  lemma BubbleTakesNothing(s: C.Core, e: Env)
    requires s.x == BUBBLE && H.CheckInterrupt(s.hart, e.wires) == None
    ensures !Comb(Stage(s, e)).taken && Comb(Stage(s, e)).mulReq == None
  {
    hide H.CheckInterrupt, Answered, NpcOf, ValOf, EffectOf, DataReq;
  }

  lemma BlankOut(s: C.Core, e: Env)
    requires Blank(s) && s.hart == H.RESET && e.wires == 0
    ensures var o := Comb(Stage(s, e));
            && o.npc == 0x8000_0000 && !o.stall && !o.flush && !o.taken && !o.write && o.eff == H.NoEffect && !o.req.ack
            && o.mulReq == None
  {
    hide Comb, H.CheckInterrupt, Image, Stage;
    S.ResetQuiet(e);
    S.BubbleOut(s, e);
    BubbleTakesNothing(s, e);
  }

  /** Units and registers stay as they are. */
  lemma BlankRests(s: C.Core, i: Input)
    requires Blank(s) && s.hart == H.RESET && i.env.wires == 0
    ensures var t := C.Next(s, i);
            && t.exPc == s.exPc && t.hart == H.RESET && t.mem == s.mem && t.regs == s.regs && !t.wb.stall && !t.wb.write
            && !t.mulReq && !t.mulAck && t.mmu == Mmu.IDLE && t.din == NO_REQ && t.dout == NO_RSP
            && t.x == Decoded(s, Comb(Stage(s, i.env)), i.slot)
  {
    hide Comb, H.Step, MulDivResult, Mmu.Step, Image, Mmu.Presented, Stage, Decoded, Commit, MemAccess;
    BlankOut(s, i.env);
    Mmu.NothingCommitted(s.mem);
    S.StepNothing(s.hart);
    IdleStays(Comb(Stage(s, i.env)).req, s.hart, i.tlb);
  }

  /** A cycle with nothing in EX: the core waits, or takes the instruction offered. */
  lemma BlankEdge(s: C.Core, i: Input)
    requires Blank(s) && s.hart == H.RESET && i.env.wires == 0
    ensures var o, t := Comb(Stage(s, i.env)), C.Next(s, i);
            && o.npc == 0x8000_0000 && !o.stall && !o.flush && !o.taken && t.hart == H.RESET && t.mem == s.mem && !t.wb.stall
            && (!Accepts(o, i.slot) ==> Blank(t))
            && (Accepts(o, i.slot) && i.slot.instr.rs1 == 11 && i.slot.instr.rs2 == 11
                ==> t.x == IdEx(false, 0x8000_0000, i.slot.instr, 0x8010_0000, 0x8010_0000))
  {
    hide Comb, C.Next, Image, Stage;
    BlankOut(s, i.env);
    BlankRests(s, i);
  }

  lemma ImageWord()
    ensures Read(Image(), PC, 4) == CODE
  {
    hide Read, Write;
    StoreThenLoad(Mem(map[], {}), PC, CODE);
  }

  lemma PcExecutable()
    ensures Im.Executable(H.RESET, PC)
  {
    hide Pmp.CheckFrom;
    ResetFetch();
    S.EmptyAllows(0, PC, 4, 4);
  }

  /** The fetch of the first word has been asked for. */
  predicate Asked(y: F.Whole) {
    && y.f == Fetch.Front(Fetch.EMPTY, true) && !y.flushing && y.d.pc == PC && y.fetchPc == PC
    && y.d.state == 3 && !y.d.pageFault && !y.d.pmpFault && y.d.last == Im.IReq(true, PC)
  }

  predicate Asleep(y: F.Whole) {
    && y.f == Fetch.Front(Fetch.EMPTY, true) && !y.flushing && y.d.pc == PC && y.fetchPc == PC && F.Resting(y.d)
  }

  lemma AskFirst(d: Im.Immu, r: Rsp, tlb: Option<Sv32.Leaf>)
    requires d.state == 0
    ensures var n := Im.Step(d, r, PC, H.RESET, tlb);
            n.pc == PC && n.state == 3 && !n.pageFault && !n.pmpFault && n.last == Im.IReq(true, PC)
  {
    hide Im.TranslationOn, Im.Executable;
    ResetFetch();
    PcExecutable();
  }

  lemma FirstEdge(y: F.Whole, b: F.Beat)
    requires F.Shaped(y) && Asleep(y) && Blank(y.core) && y.core.hart == H.RESET && b.env.wires == 0
    ensures var z := F.NextWhole(y, b); Asked(z) && Blank(z.core) && z.core.hart == H.RESET
    ensures !F.OutOf(y, b.env).flush && !F.OutOf(y, b.env).taken
  {
    hide Comb, C.Next, Im.Step, F.Response, Im.Answers, Blank, F.InstrOf, P.Succ;
    F.RestingSilent(y);
    F.RestingState(y.d);
    F.InputEnv(y, b);
    BlankEdge(y.core, F.InputOf(y, b));
    AskFirst(y.d, F.Response(y), b.instrHit);
    BlankParts(y.core);
  }

  lemma BlankParts(s: C.Core)
    ensures Blank(s) ==> s.x == BUBBLE && s.exPc == 0x8000_0000
  {
    hide Image;
  }

  /** The first word arrives. */
  predicate Loaded(y: F.Whole) { !y.f.ifFlush && y.f.q.addr == PC }

  lemma SecondEdge(y: F.Whole, b: F.Beat)
    requires F.Shaped(y) && Asked(y) && Blank(y.core) && y.core.hart == H.RESET && b.env.wires == 0
    ensures var z := F.NextWhole(y, b); Loaded(z) && Blank(z.core) && z.core.hart == H.RESET
    ensures !F.OutOf(y, b.env).flush && !F.OutOf(y, b.env).taken
  {
    hide Comb, C.Next, Im.Step, Blank, F.InstrOf, P.Succ, Read, Im.Answer, F.WordFrom, Fetch.LowHalf, Fetch.HighHalf, F.NextFetch, F.NextPrefetch,
      Fetch.Long;
    F.InputEnv(y, b);
    BlankEdge(y.core, F.InputOf(y, b));
  }

  lemma FetchedWord()
    ensures F.MemoryOf(H.RESET, Image())(PC) == Fetch.Word(0x00B5_A023, 0)
  {
    hide Im.TranslationOn, Im.Executable, Image, Read;
    ResetFetch();
    PcExecutable();
    ImageWord();
  }

  lemma Halves(w: Fetch.Word)
    requires w == Fetch.Word(0x00B5_A023, 0)
    ensures Fetch.LowHalf(w) == Fetch.Half(0xA023, 0, 0) && Fetch.HighHalf(w) == Fetch.Half(0x00B5, 0, 0)
  {
  }

  lemma FrontOfImage(im: Fetch.IMem)
    requires im(PC) == Fetch.Word(0x00B5_A023, 0)
    ensures F.FrontAt(im, PC) == Fetch.Queue([Fetch.Half(0xA023, 0, 0), Fetch.Half(0x00B5, 0, 0)], PC)
  {
    hide Fetch.LowHalf, Fetch.HighHalf;
    Halves(im(PC));
    assert Fetch.HalfAt(im, PC) == Fetch.LowHalf(im(PC));
    assert At(PC, 2) == PC + 2 && Fetch.WordBase(PC + 2) == PC;
    assert Fetch.HalfAt(im, At(PC, 2)) == Fetch.HighHalf(im(PC));
  }

  lemma FrontParts(q: Fetch.Queue)
    requires q == Fetch.Queue([Fetch.Half(0xA023, 0, 0), Fetch.Half(0x00B5, 0, 0)], PC)
    ensures !Fetch.Incomplete(q) && Fetch.Faulting(q, 0) == Fetch.Report(0, 0) && F.Shrink(F.FrontWord(q)) == CODE
  {
    assert Fetch.Faulting(q, 2) == Fetch.Report(0, 0);
    assert Fetch.Faulting(q, 1) == Fetch.Report(0, 0);
  }

  lemma CodeFields()
    ensures D.Opcode(CODE) == 0x23 && D.Funct3(CODE) == 2 && D.Rs1(CODE) == 11 && D.Rs2(CODE) == 11 && D.ImmS(CODE) == 0
    ensures D.IsLong(CODE) && D.RegOf(11) == 11
  {
  }

  /** The word in memory is the store. */
  lemma ImageCode(i: Instr)
    requires i == D.Issue(CODE, 0, 0)
    ensures i.rs1 == 11 && i.rs2 == 11 && !i.onTrap && KindOf(i.ty) == LoadStore
    ensures DataReq(i, 0x8010_0000, 0x8010_0000) == S.StoreReq()
  {
    hide D.Opcode, D.Funct3, D.Rs1, D.Rs2, D.ImmS, D.IsLong, D.RegOf, D.Writes, D.Rd;
    CodeFields();
  }

  lemma FirstAddress()
    ensures F.AddrOf(0x8000_0000) == PC
  {
  }

  lemma LoadedFront(q: Fetch.Queue, im: Fetch.IMem)
    requires Fetch.Holds(q, im) && !Fetch.Incomplete(q) && q.addr == PC && im(PC) == Fetch.Word(0x00B5_A023, 0)
    ensures F.InstrOf(q) == D.Issue(CODE, 0, 0)
  {
    hide Fetch.Holds, Fetch.Faulting, F.FrontAt, D.Issue, F.FrontWord, F.Shrink;
    Fetch.HoldsFront(q, im);
    F.FrontIsCode(q, im);
    FrontOfImage(im);
    FrontParts(F.FrontAt(im, PC));
    NoTval();
  }

  lemma GoodFront(y: F.Whole)
    requires F.Good(y) && !y.f.ifFlush
    ensures Fetch.Holds(y.f.q, F.MemoryOf(y.core.hart, y.core.mem)) && !Fetch.Incomplete(y.f.q)
  {
    hide Inv, Fetch.Holds, Im.Flight, F.MemoryOf, F.Resting, F.EvenWord;
  }

  lemma NoTval()
    ensures H.WordOf(0) == 0
  {
  }

  lemma ThirdEdge(y: F.Whole, b: F.Beat)
    requires F.Good(y) && Loaded(y) && Blank(y.core) && y.core.hart == H.RESET && b.env.wires == 0
    ensures var t := F.NextWhole(y, b).core;
            t.hart == H.RESET && !t.wb.stall && IsKind(t.x, LoadStore) && ReqOf(t.x) == S.StoreReq()
    ensures !F.OutOf(y, b.env).flush && !F.OutOf(y, b.env).taken
  {
    hide F.Good, Comb, C.Next, Blank, F.InstrOf, F.NextWhole, D.Issue, Image, F.AddrOf, Fetch.Incomplete, KindOf, DataReq, Stage, Fetch.Holds,
      F.MemoryOf;
    F.GoodInv(y);
    BlankMem(y.core);
    GoodFront(y);
    FetchedWord();
    LoadedFront(y.f.q, F.MemoryOf(y.core.hart, y.core.mem));
    ImageCode(D.Issue(CODE, 0, 0));
    FirstAddress();
    BlankEdge(y.core, F.InputOf(y, b));
    F.NextCore(y, b);
  }

  lemma BlankMem(s: C.Core)
    ensures Blank(s) ==> s.mem == Image()
  {
    hide Image;
  }

  lemma SilentMem(s: C.Core, e: Env)
    requires Blank(s) && s.hart == H.RESET && e.wires == 0
    ensures C.Next(s, Silent(e)).mem == s.mem
  {
    hide Comb, C.Next, Blank;
    BlankEdge(s, Silent(e));
  }

  /** Three edges after reset the store is in EX. */
  lemma ThreeEdges(c: Chip, e: Edge) returns (d: Chip)
    requires FromReset(c) && c.y.core.hart == H.RESET && e.env.wires == 0
    ensures Storing(d, PC + 28) && d.y.core.hart == H.RESET && !d.y.core.wb.stall && d.y.core.mem == Image()
    ensures forall rest :: Calm(S.NoLeaves(), S.Zero, d, rest)
                           ==> Calm(S.NoLeaves(), S.Zero, c, [e] + ([e] + ([e] + rest))) && Ch.Run(c, [e] + ([e] + ([e] + rest))) == Ch.Run(d, rest)
  {
    hide Mapped, F.Undisturbed, Ch.Next, C.Next, BeatOf, Blank, Good, F.Good, Image, F.NextWhole, F.OutOf, Calm, Ch.Run, IsKind, ReqOf, Truthful,
      F.InputOf;
    ResetStarts(c);
    ColdGood(S.NoLeaves(), c);
    AtReset(c);
    var c1 := FirstStep(c, e);
    var c2 := SecondStep(c1, e);
    d := ThirdStep(c2, e);
    forall rest | Calm(S.NoLeaves(), S.Zero, d, rest)
      ensures Calm(S.NoLeaves(), S.Zero, c, [e] + ([e] + ([e] + rest))) && Ch.Run(c, [e] + ([e] + ([e] + rest))) == Ch.Run(d, rest)
    {
      OneEdge(S.NoLeaves(), S.Zero, c2, e, rest);
      OneEdge(S.NoLeaves(), S.Zero, c1, e, [e] + rest);
      OneEdge(S.NoLeaves(), S.Zero, c, e, [e] + ([e] + rest));
    }
  }

  lemma AtReset(c: Chip)
    requires FromReset(c)
    ensures Asleep(c.y) && Blank(c.y.core) && Below(c.y, PC + 4) && c.y.core.mem == Image()
  {
    hide Image, F.EvenWord;
  }

  lemma FirstStep(c: Chip, e: Edge) returns (d: Chip)
    requires Whole(c) && Good(S.NoLeaves(), c) && Asleep(c.y) && Blank(c.y.core) && c.y.core.hart == H.RESET && e.env.wires == 0
    requires Below(c.y, PC + 4)
    ensures d == Ch.Next(c, e) && Whole(d) && Mapped(S.NoLeaves(), S.Zero, c) && F.Undisturbed(c.y, BeatOf(c, e))
    ensures Good(S.NoLeaves(), d) && Asked(d.y) && Blank(d.y.core) && d.y.core.hart == H.RESET && Below(d.y, PC + 12)
  {
    hide Mapped, F.Undisturbed, Ch.Next, C.Next, BeatOf, Blank, Good, F.NextWhole, F.OutOf, Truthful, F.InputOf, Asleep, Asked, Below;
    d := Ch.Next(c, e);
    SameEnv(c, e);
    FirstEdge(c.y, BeatOf(c, e));
    NextWholeOf(c, e);
    SilentMem(c.y.core, e.env);
    LowEdge(c, e, PC + 4);
  }

  lemma SecondStep(c: Chip, e: Edge) returns (d: Chip)
    requires Whole(c) && Good(S.NoLeaves(), c) && Asked(c.y) && Blank(c.y.core) && c.y.core.hart == H.RESET && e.env.wires == 0
    requires Below(c.y, PC + 12)
    ensures d == Ch.Next(c, e) && Whole(d) && Mapped(S.NoLeaves(), S.Zero, c) && F.Undisturbed(c.y, BeatOf(c, e))
    ensures Good(S.NoLeaves(), d) && Loaded(d.y) && Blank(d.y.core) && d.y.core.hart == H.RESET && Below(d.y, PC + 20)
  {
    hide Mapped, F.Undisturbed, Ch.Next, C.Next, BeatOf, Blank, Good, F.NextWhole, F.OutOf, Truthful, F.InputOf, Loaded, Asked, Below;
    d := Ch.Next(c, e);
    SameEnv(c, e);
    SecondEdge(c.y, BeatOf(c, e));
    NextWholeOf(c, e);
    SilentMem(c.y.core, e.env);
    LowEdge(c, e, PC + 12);
  }

  lemma ThirdStep(c: Chip, e: Edge) returns (d: Chip)
    requires Whole(c) && Good(S.NoLeaves(), c) && Loaded(c.y) && Blank(c.y.core) && c.y.core.hart == H.RESET && e.env.wires == 0
    requires Below(c.y, PC + 20)
    ensures d == Ch.Next(c, e) && Mapped(S.NoLeaves(), S.Zero, c) && F.Undisturbed(c.y, BeatOf(c, e))
    ensures Storing(d, PC + 28) && d.y.core.hart == H.RESET && !d.y.core.wb.stall && d.y.core.mem == Image()
  {
    hide Mapped, F.Undisturbed, Ch.Next, C.Next, BeatOf, Blank, Good, F.NextWhole, F.OutOf, Truthful, F.InputOf, Loaded, Below, F.Good, Inv, IsKind,
      ReqOf, Image;
    d := Ch.Next(c, e);
    GoodParts(c);
    SameEnv(c, e);
    ThirdEdge(c.y, BeatOf(c, e));
    NextWholeOf(c, e);
    SilentMem(c.y.core, e.env);
    BlankMem(c.y.core);
    SameMem(c, e);
    LowEdge(c, e, PC + 20);
  }

  /** From reset there is a run of the chip that meets the hypotheses of
      `ChipRunsMemory` and changes memory. */
  lemma ResetStore(c: Chip, e: Edge) returns (es: seq<Edge>)
    requires FromReset(c) && c.y.core.hart == H.RESET && e.env.wires == 0
    ensures F.Good(c.y) && Cold(c) && Whole(c) && Tlb.GlobalShared(S.NoLeaves()) && Calm(S.NoLeaves(), S.Zero, c, es)
    ensures Ch.Run(c, es).y.core.mem == Write(c.y.core.mem, S.A, 4, 0x8010_0000) != c.y.core.mem
  {
    hide Storing, Calm, Ch.Run, Image, Write, F.Good, Mapped, F.Undisturbed, Ch.Next, BeatOf, Mmu.Rank, Answered, Blank, Good, F.Reset;
    ResetStarts(c);
    var d := ThreeEdges(c, e);
    NotAnswered(d, PC + 28);
    StoreWaits(d, e, PC + 28);
    var d1 := Ch.Next(d, e);
    RankSmall(d1, PC + 36);
    var rest := StoreRun(d1, e, PC + 36);
    OneEdge(S.NoLeaves(), S.Zero, d, e, rest);
    es := [e] + ([e] + ([e] + ([e] + rest)));
    BlankMem(c.y.core);
    ImageChanges();
  }

  lemma NotAnswered(c: Chip, n: nat)
    requires Storing(c, n) && !c.y.core.wb.stall
    ensures Whole(c) && !Answered(c.y.core).ack
  {
    hide Good, Inv, IsKind, Below, Answered, ReqOf;
    StoringParts(c, n);
    InvUnits(F.CodeOf, c.y.core);
    IdleIsSilent(c.y.core);
  }

  lemma InvUnits(code: Code, s: C.Core)
    requires Inv(code, s)
    ensures UnitsInStep(s)
  {
    hide InStep, UnitsInStep;
  }

  lemma RankSmall(c: Chip, n: nat)
    requires Storing(c, n) && c.y.core.wb.stall
    ensures 0 <= Mmu.Rank(c.y.core.mmu) <= 3
  {
    hide Good, Inv, IsKind, Below, ReqOf, UnitsInStep;
    StoringParts(c, n);
    InvUnits(F.CodeOf, c.y.core);
    FlightRank(c.y.core);
  }

  lemma ImageChanges()
    ensures Write(Image(), S.A, 4, 0x8010_0000) != Image()
  {
    hide Read, Write;
    StoreThenLoad(Image(), S.A, 0x8010_0000);
    ImageEmpty();
  }

  lemma ImageEmpty()
    ensures Read(Image(), S.A, 4) == 0
  {
    hide Write, Covers;
    forall b: Addr | Covers(PC, 4, b) ensures !Covers(S.A, 4, b) {
      CoversRange(PC, b);
      if Covers(S.A, 4, b) { CoversRange(S.A, b); }
    }
    SameWord(Mem(map[], {}), PC, 4, CODE, S.A);
    S.EmptyRead();
  }
}
