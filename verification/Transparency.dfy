/** The core with its translation cache: while page tables, PMP and satp stay as
    they are, the cache never changes what an access does (src/tlb.hpp:21-82,
    src/mmu.hpp:174-436). */
module Transparency {
  import opened Options
  import opened Isa
  import opened Memory
  import opened Mmu
  import opened Exec
  import opened Core
  import C = Core
  import opened DataUnit
  import opened Machine
  import Sv32
  import Tlb
  import H = Hart

  /** The core, the cache, and the satp its data side latched. */
  datatype Sys = Sys(core: C.Core, t: seq<Tlb.Entry>, satp: bv32)

  /** What the environment supplies in one cycle.  The cache now answers itself; what
      the fetch side does to it, before or after the data side's turn, is any
      sequence of its operations. */
  datatype Beat = Beat(env: Env, slot: Slot, before: seq<Tlb.Op>, after: seq<Tlb.Op>)

  function StageOf(y: Sys, b: Beat): (n: In) { Stage(y.core, b.env) }

  function OutOf(y: Sys, b: Beat): (o: Out) { Comb(StageOf(y, b)) }

  /** The cache the data side finds. */
  function Kept(y: Sys, b: Beat): (t: seq<Tlb.Entry>)
    requires |y.t| > 0
    ensures |t| == |y.t|
  {
    Tlb.Run(Purged(StageOf(y, b), y.t), b.before)
  }

  function InputOf(y: Sys, b: Beat): (i: Input)
    requires |y.t| > 0
  {
    Input(b.env, b.slot, Offered(Kept(y, b), y.core.hart.Get(H.SATP), OutOf(y, b).req.addr))
  }

  /** The cache after the data side's turn. */
  function DataSide(y: Sys, b: Beat): (t: seq<Tlb.Entry>)
    requires |y.t| > 0
    ensures |t| == |y.t|
  {
    Cached(Kept(y, b), y.core.mmu, y.satp, OutOf(y, b).req, y.core.dout, OutOf(y, b).flush, y.core.hart)
  }

  function Next(y: Sys, b: Beat): (r: Sys)
    requires |y.t| > 0
  {
    var o := OutOf(y, b);
    Sys(C.Next(y.core, InputOf(y, b)),
        Tlb.Run(DataSide(y, b), b.after),
        NextSatp(y.core.mmu, y.satp, o.req, o.flush, y.core.hart))
  }

  /** Each page's leaf under the roots in use is `l`, and while translation is on
      satp's key names its root. */
  ghost predicate Fixed(l: Tlb.Leaves, root: nat -> Addr, c: C.Core) {
    && (forall k :: root(k) % 0x1000 == 0)
    && SameLeaves(l, Tlb.LeavesOf(Sv32.World(c.mem, c.hart.pmp, 1), root))
    && (TranslationOn(c.hart) ==> root(Tlb.Key(c.hart.Get(H.SATP))) == RootOf(c.hart) && EffPriv(c.hart) != 3)
  }

  /** Equal page by page. */
  ghost predicate SameLeaves(l: Tlb.Leaves, k: Tlb.Leaves) {
    forall key: nat, vpn: nat :: l(key, vpn) == k(key, vpn)
  }

  lemma SameShared(l: Tlb.Leaves, k: Tlb.Leaves)
    requires SameLeaves(l, k) && Tlb.MegaShared(k)
    ensures Tlb.MegaShared(l)
  {
  }

  lemma SameHonest(l: Tlb.Leaves, k: Tlb.Leaves, op: Tlb.Op)
    requires SameLeaves(l, k) && Tlb.Honest(k, op)
    ensures Tlb.Honest(l, op)
  {
  }

  lemma FixedShared(l: Tlb.Leaves, root: nat -> Addr, c: C.Core)
    requires Fixed(l, root, c)
    ensures Tlb.MegaShared(l)
  {
    hide Tlb.MegaShared, SameLeaves, TranslationOn, Tlb.LeavesOf;
    Tlb.WorldShared(Sv32.World(c.mem, c.hart.pmp, 1), root);
    SameShared(l, Tlb.LeavesOf(Sv32.World(c.mem, c.hart.pmp, 1), root));
  }

  /** Only true leaves are cached, and a walk under way uses the current satp. */
  ghost predicate Sound(l: Tlb.Leaves, y: Sys) {
    && |y.t| > 0 && Tlb.AllTruthful(l, y.t)
    && (y.core.mmu.state == 1 || y.core.mmu.state == 2 ==> y.satp == y.core.hart.Get(H.SATP))
  }

  /** The fetch side stores only leaves its walks found. */
  ghost predicate Polite(l: Tlb.Leaves, b: Beat) {
    (forall op :: op in b.before ==> Tlb.Honest(l, op)) && (forall op :: op in b.after ==> Tlb.Honest(l, op))
  }

  lemma KeptTrue(l: Tlb.Leaves, y: Sys, b: Beat)
    requires |y.t| > 0 && Tlb.MegaShared(l) && Tlb.AllTruthful(l, y.t) && Polite(l, b)
    ensures Tlb.AllTruthful(l, Kept(y, b))
  {
    hide Tlb.MegaShared, Tlb.AllTruthful, Tlb.Honest, Purged, Tlb.Run;
    PurgedTrue(l, StageOf(y, b), y.t);
    Tlb.RunTruth(l, Purged(StageOf(y, b), y.t), b.before);
  }

  lemma OfferedIsLeaf(l: Tlb.Leaves, t: seq<Tlb.Entry>, satp: bv32, addr: Addr)
    requires Tlb.MegaShared(l) && Tlb.GlobalShared(l) && Tlb.AllTruthful(l, t)
    ensures Offered(t, satp, addr).Some? ==> l(Tlb.Key(satp), addr / 0x1000) == Offered(t, satp, addr)
  {
    hide Tlb.MegaShared, Tlb.GlobalShared, Tlb.Hits, Tlb.Key, Sv32.V;
    var k := Tlb.HitIndex(t, Tlb.Key(satp), addr / 0x1000, 0);
    if k < |t| { Tlb.HitTruth(l, t[k], Tlb.Key(satp), addr / 0x1000); }
  }

  /** Whatever the cache offers is the leaf of the page tables. */
  lemma OfferIsTrue(l: Tlb.Leaves, root: nat -> Addr, c: C.Core, t: seq<Tlb.Entry>, q: Req)
    requires Fixed(l, root, c) && Tlb.GlobalShared(l) && Tlb.AllTruthful(l, t)
    ensures TlbTrue(c.hart, c.mem, q, Offered(t, c.hart.Get(H.SATP), q.addr))
  {
    hide Tlb.GlobalShared, Tlb.MegaShared, Tlb.AllTruthful, Offered, Tlb.Key, Sv32.LeafOf, Tlb.PageAddr,
      TranslationOn, EffPriv, RootOf;
    var w := Sv32.World(c.mem, c.hart.pmp, 1);
    FixedShared(l, root, c);
    OfferedIsLeaf(l, t, c.hart.Get(H.SATP), q.addr);
    Tlb.LeafOfPage(w, RootOf(c.hart), q.addr);
    if TranslationOn(c.hart) { Sv32.SameLeaf(w, EffPriv(c.hart), RootOf(c.hart), q.addr); }
  }

  lemma PurgedTrue(l: Tlb.Leaves, n: In, t: seq<Tlb.Entry>)
    requires Tlb.AllTruthful(l, t)
    ensures Tlb.AllTruthful(l, Purged(n, t))
  {
    hide Purges, Tlb.Flushes;
  }

  /** A PTE arriving for the walk of the instruction in EX. */
  lemma WalkUnderWay(code: Code, s: C.Core, e: Env)
    requires Inv(code, s) && (s.mmu.state == 1 || s.mmu.state == 2)
    ensures s.wb.stall && IsKind(s.x, LoadStore) && Flight(s.mmu, s.hart, s.mem, ReqOf(s.x))
    ensures Comb(Stage(s, e)).req == ReqOf(s.x)
    ensures s.dout.ack ==> s.dout == MemAccess(s.mem, s.mmu.last) && !s.mmu.pmpFault && !s.mmu.misaligned
  {
    hide InStep, Flight, KindOf, Interrupted, MulDivResult, Answered, ExecuteKind, NpcOf, ValOf, EffectOf, Read,
      DeviceAddress, ScResult, DataReq, Control, NextPc, Comb;
    OutRequest(s, e);
    if Comb(Stage(s, e)).req.ack { RequestOnce(code, s, Input(e, Slot(true, 0, BLANK), None)); }
  }

  lemma OutRequest(s: C.Core, e: Env)
    ensures var q := Comb(Stage(s, e)).req; q == ReqOf(s.x).(ack := q.ack) && !ReqOf(s.x).ack
  {
    hide Control, NpcOf, ValOf, EffectOf, Answered, H.NatOf, SizeOf, AccessAddress;
  }

  /** The cache stays true over a cycle. */
  lemma CacheStaysTrue(code: Code, l: Tlb.Leaves, root: nat -> Addr, y: Sys, b: Beat)
    requires Inv(code, y.core) && Fixed(l, root, y.core) && Tlb.MegaShared(l) && Sound(l, y) && Polite(l, b)
    ensures Tlb.AllTruthful(l, Next(y, b).t)
  {
    hide Tlb.MegaShared, Tlb.AllTruthful, Tlb.Honest, Tlb.Run, Kept, Cached;
    DataTurn(code, l, root, y, b);
    Tlb.RunTruth(l, DataSide(y, b), b.after);
  }

  lemma DataTurn(code: Code, l: Tlb.Leaves, root: nat -> Addr, y: Sys, b: Beat)
    requires Inv(code, y.core) && Fixed(l, root, y.core) && Tlb.MegaShared(l) && Sound(l, y) && Polite(l, b)
    ensures Tlb.AllTruthful(l, DataSide(y, b))
  {
    hide Kept, Polite, Tlb.MegaShared, Purged, Inv, C.Next, Comb, NextSatp, TranslationOn, EffPriv, RootOf, Tlb.Key,
      Tlb.LeavesOf, Tlb.Honest, Learned, Consults, Flight, MemAccess, Sv32.LeafOf, Tlb.Touched, Tlb.Stored,
      Tlb.NewEntry;
    var s, t := y.core, Kept(y, b);
    var o := OutOf(y, b);
    KeptTrue(l, y, b);
    if Consults(s.mmu, o.req, o.flush, s.hart) {
      TouchedTrue(l, t, Tlb.Key(s.hart.Get(H.SATP)), o.req.addr / 0x1000);
    } else if Learned(s.mmu, o.req, s.dout, o.flush, s.hart).Some? {
      LearnedWhen(s.mmu, o.req, s.dout, o.flush, s.hart);
      WalkUnderWay(code, s, b.env);
      LearnedIsLeaf(s.mmu, s.hart, s.mem, ReqOf(s.x));
      LearnedHonestly(s.mmu, s.hart, s.mem, ReqOf(s.x), root, 1);
      var leaf := Learned(s.mmu, o.req, s.dout, o.flush, s.hart).value;
      SameHonest(l, Tlb.LeavesOf(Sv32.World(s.mem, s.hart.pmp, 1), root),
                 Tlb.Insert(Tlb.Key(s.hart.Get(H.SATP)), o.req.addr / 0x1000, leaf));
      Tlb.StepTruth(l, t, Tlb.Insert(Tlb.Key(s.hart.Get(H.SATP)), o.req.addr / 0x1000, leaf));
    }
  }

  lemma TouchedTrue(l: Tlb.Leaves, t: seq<Tlb.Entry>, key: nat, vpn: nat)
    requires Tlb.MegaShared(l) && Tlb.AllTruthful(l, t) && |t| > 0
    ensures Tlb.AllTruthful(l, Tlb.Touched(t, key, vpn))
  {
    hide Tlb.MegaShared, Tlb.AllTruthful, Tlb.Touched;
    Tlb.StepTruth(l, t, Tlb.Search(key, vpn));
  }

  lemma LearnedWhen(d: Dmmu, q: Req, rsp: Rsp, flush: bool, h: H.Hart)
    requires Learned(d, q, rsp, flush, h).Some?
    ensures (d.state == 1 || d.state == 2) && rsp.ack && !flush
  {
    hide Sv32.Level1Fault, Sv32.Level0Fault, Sv32.IsLeaf;
  }

  /** A cycle that leaves a walk under way was a stall, so status registers kept. */
  lemma WalkStalls(code: Code, s: C.Core, i: Input)
    requires Inv(code, C.Next(s, i)) && (C.Next(s, i).mmu.state == 1 || C.Next(s, i).mmu.state == 2)
    ensures Comb(Stage(s, i.env)).stall && !Comb(Stage(s, i.env)).flush && C.Next(s, i).hart == s.hart
  {
    hide InStep, Flight, KindOf, MulDivResult, Answered, Comb, Step, Commit, Decoded, WriteBack, MemAccess, DataReq;
    FaultIsAnswer(s);
    StallOrFlush(Stage(s, i.env));
  }

  /** The states the walk passes through. */
  lemma WalkMoves(d: Dmmu, q: Req, rsp: Rsp, h: H.Hart, tlb: Option<Sv32.Leaf>)
    ensures var n := Step(d, q, rsp, false, h, tlb).state;
            n == 1 || n == 2 ==> if d.state == 0 then q.ack else d.state == 1 || d.state == 2
  {
    hide Misaligned, Reachable, Sv32.Level1Fault, Sv32.Level0Fault, Sv32.LeafFault, Sv32.IsLeaf, Sv32.LeafAddr,
      Sv32.PteSlot, Sv32.Pte1Addr, WhoOf, TranslationOn, EffPriv, OpOf, RootOf, Sv32.Vpn0, Sv32.Ppn;
  }

  lemma LatchKept(code: Code, l: Tlb.Leaves, y: Sys, b: Beat)
    requires Sound(l, y) && Inv(code, Next(y, b).core)
    ensures var z := Next(y, b); z.core.mmu.state == 1 || z.core.mmu.state == 2 ==> z.satp == z.core.hart.Get(H.SATP)
  {
    hide Tlb.AllTruthful, Tlb.Run, Inv, Comb, Cached, Purged, Offered, Step, Commit, MemAccess, H.Step, MulDivResult,
      Decoded, WriteBack, Stage, KindOf;
    var s, i := y.core, InputOf(y, b);
    var z := Next(y, b);
    if z.core.mmu.state == 1 || z.core.mmu.state == 2 {
      WalkStalls(code, s, i);
      WalkMoves(s.mmu, OutOf(y, b).req, s.dout, s.hart, i.tlb);
    }
  }

  // ------------------------------------------------------------------- whole runs

  ghost predicate FetchTrue(code: Code, y: Sys, b: Beat)
    requires |y.t| > 0
  {
    Accepts(OutOf(y, b), b.slot) ==> b.slot.instr == code(Abs(Next(y, b).core))
  }

  function Run(y: Sys, bs: seq<Beat>): (r: Sys)
    requires |y.t| > 0
    decreases bs
  {
    if bs == [] then y
    else
      KeepsSize(y, bs[0]);
      Run(Next(y, bs[0]), bs[1..])
  }

  lemma KeepsSize(y: Sys, b: Beat)
    requires |y.t| > 0
    ensures |Next(y, b).t| == |y.t|
  {
    hide C.Next, Cached, Purged, NextSatp, Comb, Offered, Tlb.Run;
  }

  /** The inputs the core sees, cache answers included. */
  function Inputs(y: Sys, bs: seq<Beat>): (r: seq<Input>)
    requires |y.t| > 0
    decreases bs
  {
    if bs == [] then []
    else
      KeepsSize(y, bs[0]);
      [InputOf(y, bs[0])] + Inputs(Next(y, bs[0]), bs[1..])
  }

  /** Throughout the run the mapping is `l` and fetch tells the truth. */
  ghost predicate Steady(code: Code, l: Tlb.Leaves, root: nat -> Addr, y: Sys, bs: seq<Beat>)
    requires |y.t| > 0
    decreases bs
  {
    bs == []
    || (&& Fixed(l, root, y.core) && FetchTrue(code, y, bs[0]) && Polite(l, bs[0])
        && (KeepsSize(y, bs[0]); Steady(code, l, root, Next(y, bs[0]), bs[1..])))
  }

  lemma StepTruthful(code: Code, l: Tlb.Leaves, root: nat -> Addr, y: Sys, b: Beat)
    requires Fixed(l, root, y.core) && Tlb.MegaShared(l) && Tlb.GlobalShared(l) && Sound(l, y)
    requires FetchTrue(code, y, b) && Polite(l, b)
    ensures Truthful(code, y.core, InputOf(y, b))
  {
    hide Tlb.MegaShared, Tlb.GlobalShared, Tlb.AllTruthful, Tlb.Run, Fixed, C.Next, Cached, NextSatp, Kept, Comb,
      Offered, TlbTrue, Abs, Accepts, Polite;
    KeptTrue(l, y, b);
    OfferIsTrue(l, root, y.core, Kept(y, b), OutOf(y, b).req);
  }

  lemma StepSound(code: Code, l: Tlb.Leaves, root: nat -> Addr, y: Sys, b: Beat)
    requires Inv(code, y.core) && Fixed(l, root, y.core) && Tlb.GlobalShared(l) && Sound(l, y)
    requires FetchTrue(code, y, b) && Polite(l, b)
    ensures Truthful(code, y.core, InputOf(y, b)) && Inv(code, Next(y, b).core) && Sound(l, Next(y, b))
  {
    hide Tlb.GlobalShared, Tlb.MegaShared, Tlb.AllTruthful, Tlb.Run, Polite, Kept, C.Next, Cached, NextSatp, Purged,
      Comb, Offered, Inv, Truthful, FetchTrue, InputOf, RootOf, TranslationOn, EffPriv, Meaning, FateOf, Abs;
    FixedShared(l, root, y.core);
    StepTruthful(code, l, root, y, b);
    CycleRefines(code, y.core, InputOf(y, b));
    CacheStaysTrue(code, l, root, y, b);
    LatchKept(code, l, y, b);
    KeepsSize(y, b);
  }

  /** A run with the cache is a run of the core in which every hit was the leaf of
      the page tables. */
  lemma {:induction false} RunTruthful(code: Code, l: Tlb.Leaves, root: nat -> Addr, y: Sys, bs: seq<Beat>)
    requires |y.t| > 0 && Inv(code, y.core) && Tlb.GlobalShared(l) && Sound(l, y) && Steady(code, l, root, y, bs)
    ensures AllTruthful(code, y.core, Inputs(y, bs)) && C.Run(y.core, Inputs(y, bs)) == Run(y, bs).core
    decreases bs
  {
    hide Inv, Tlb.GlobalShared, Sound, FetchTrue, Fixed, Polite, Truthful, Next, InputOf;
    if bs != [] {
      StepSound(code, l, root, y, bs[0]);
      KeepsSize(y, bs[0]);
      NextCore(y, bs[0]);
      var z := Next(y, bs[0]);
      RunTruthful(code, l, root, z, bs[1..]);
      assert Inputs(y, bs)[1..] == Inputs(z, bs[1..]);
    }
  }

  lemma NextCore(y: Sys, b: Beat)
    requires |y.t| > 0
    ensures Next(y, b).core == C.Next(y.core, InputOf(y, b))
  {
    hide C.Next, InputOf, Cached, NextSatp, Tlb.Run;
  }

  /** From reset or a full flush on, while page tables and PMP stay fixed, each key
      names one root and global leaves are shared: the pipeline, cache and all,
      computes what the sequential machine does, whose every access walks the
      page tables. */
  lemma CacheIsInvisible(code: Code, l: Tlb.Leaves, root: nat -> Addr, y: Sys, bs: seq<Beat>)
    requires Inv(code, y.core) && y.core.mmu.state != 1 && y.core.mmu.state != 2
    requires |y.t| > 0 && (forall k :: 0 <= k < |y.t| ==> !y.t[k].valid)
    requires Tlb.GlobalShared(l) && Steady(code, l, root, y, bs)
    ensures Abs(Run(y, bs).core) == SeqRun(Abs(y.core), code, History(y.core, Inputs(y, bs)))
  {
    hide Tlb.GlobalShared, Steady, Run, Inputs, History, C.Run, Inv;
    RunTruthful(code, l, root, y, bs);
    RunRefines(code, y.core, Inputs(y, bs));
  }

  /** A legal SFENCE.VMA with both operands zero leaves such a state behind; it
      flushes the fetch side too, so nothing else touches the cache in its cycle. */
  lemma FenceEmpties(y: Sys, b: Beat)
    requires |y.t| > 0 && Purges(StageOf(y, b)) && y.core.x.rs1Val == 0 && y.core.x.rs2Val == 0
    requires b.before == [] && b.after == []
    ensures var z := Next(y, b);
            z.core.mmu.state == 0 && (forall k :: 0 <= k < |z.t| ==> !z.t[k].valid)
  {
    hide C.Next, Step, NextSatp, Interrupted, Offered;
    FenceFlushes(y.core, b.env);
    ZeroOperands();
    MmuAfterFlush(y.core, InputOf(y, b));
  }

  lemma ZeroOperands()
    ensures H.NatOf(0) == 0
  {
  }

  lemma FenceFlushes(s: C.Core, e: Env)
    requires Purges(Stage(s, e))
    ensures Comb(Stage(s, e)).flush && !Comb(Stage(s, e)).stall
  {
    hide Interrupted, Answered, NpcOf, ValOf, EffectOf, DataReq, NextPc, SfenceIllegal;
  }

  lemma MmuAfterFlush(s: C.Core, i: Input)
    requires Comb(Stage(s, i.env)).flush
    ensures C.Next(s, i).mmu.state == 0
  {
    hide Comb, Commit, Decoded, WriteBack, MemAccess, H.Step, MulDivResult, Misaligned, Reachable;
  }
}
