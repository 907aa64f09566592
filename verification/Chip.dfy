/** Fetch side, core and the one translation cache they share, on one clock
    (src/cpu.hpp:69-190, src/mmu.hpp:174-657, src/tlb.hpp:21-82): the whole of it
    runs the program in memory. */
module Chip {
  import opened Options
  import opened Memory
  import opened Exec
  import opened Sequential
  import opened Core
  import C = Core
  import T = Transparency
  import F = FetchSide
  import Fetch
  import Machine
  import Atomics
  import Decode
  import DataUnit
  import InstrUnit
  import Mmu
  import Im = Immu
  import Sv32
  import Tlb
  import H = Hart

  /** All registers of both sides, the cache, and the satp each side has latched. */
  datatype Chip = Chip(y: F.Whole, t: seq<Tlb.Entry>, dataSatp: bv32, fetchSatp: bv32)

  /** One edge: the wires, and which side of the MMU reaches the cache first. */
  datatype Edge = Edge(env: Env, fetchFirst: bool)

  predicate Whole(c: Chip) { F.Shaped(c.y) && |c.t| > 0 }

  function OutOf(c: Chip, e: Edge): (o: Out) { F.OutOf(c.y, e.env) }

  /** What the fetch side does to the cache at an edge. */
  function FetchOps(c: Chip, e: Edge): (ops: seq<Tlb.Op>) {
    var o, h, r := OutOf(c, e), c.y.core.hart, F.Response(c.y);
    if o.flush then []
    else if Im.Ready(c.y.d, r) then
      if Im.TranslationOn(h) then [Tlb.Search(Tlb.Key(h.Get(H.SATP)), F.StartPc(c.y, o) / 0x1000)] else []
    else
      match InstrUnit.Learned(c.y.d, r, h)
      case Some(l) => [Tlb.Insert(Tlb.Key(c.fetchSatp), c.y.d.pc / 0x1000, l)]
      case None => []
  }

  /** Those are the operations of the instruction side's own edge. */
  lemma FetchOpsAreCached(c: Chip, e: Edge)
    requires |c.t| > 0 && !OutOf(c, e).flush
    ensures Tlb.Run(c.t, FetchOps(c, e))
            == InstrUnit.Cached(c.t, c.y.d, c.fetchSatp, F.StartPc(c.y, OutOf(c, e)), F.Response(c.y), c.y.core.hart)
  {
    hide Im.Ready, InstrUnit.Learned, F.OutOf, F.Response, F.StartPc, Im.TranslationOn, Tlb.Key, Tlb.Touched, Tlb.Stored;
    var ops := FetchOps(c, e);
    if ops != [] {
      assert Tlb.Run(c.t, ops) == Tlb.Run(Tlb.Apply(c.t, ops[0]), ops[1..]);
    }
  }

  /** The data side's view of the same edge. */
  function DataView(c: Chip): (s: T.Sys) { T.Sys(c.y.core, c.t, c.dataSatp) }

  function DataBeat(c: Chip, e: Edge): (b: T.Beat)
    requires Whole(c)
  {
    var ops := FetchOps(c, e);
    T.Beat(e.env, F.Offered(c.y, OutOf(c, e).npc), if e.fetchFirst then ops else [], if e.fetchFirst then [] else ops)
  }

  /** The cache as the fetch side finds it. */
  function Found(c: Chip, e: Edge): (t: seq<Tlb.Entry>)
    requires Whole(c)
  {
    if e.fetchFirst then Machine.Purged(Stage(c.y.core, e.env), c.t) else T.DataSide(DataView(c), DataBeat(c, e))
  }

  /** What the cache answers the two sides. */
  function BeatOf(c: Chip, e: Edge): (b: F.Beat)
    requires Whole(c)
  {
    F.Beat(e.env, T.InputOf(DataView(c), DataBeat(c, e)).tlb,
           DataUnit.Offered(Found(c, e), c.y.core.hart.Get(H.SATP), F.StartPc(c.y, OutOf(c, e))))
  }

  function NextFetchSatp(c: Chip, o: Out): (satp: bv32) {
    if o.flush then 0 else if Im.Ready(c.y.d, F.Response(c.y)) then c.y.core.hart.Get(H.SATP) else c.fetchSatp
  }

  function Next(c: Chip, e: Edge): (n: Chip)
    requires Whole(c)
    ensures F.Shaped(n.y)
  {
    var s := T.Next(DataView(c), DataBeat(c, e));
    Chip(F.NextWhole(c.y, BeatOf(c, e)), s.t, s.satp, NextFetchSatp(c, OutOf(c, e)))
  }

  /** Both views are of one machine. */
  lemma OneCore(c: Chip, e: Edge)
    requires Whole(c)
    ensures T.InputOf(DataView(c), DataBeat(c, e)) == F.InputOf(c.y, BeatOf(c, e))
    ensures DataView(Next(c, e)) == T.Next(DataView(c), DataBeat(c, e)) && Whole(Next(c, e))
  {
    hide Comb, C.Next, FetchOps, Found, T.Kept, T.DataSide, DataUnit.Offered, F.Offered, F.NextWhole, T.Next, T.InputOf;
    SameInput(c, e);
    F.NextCore(c.y, BeatOf(c, e));
    T.NextCore(DataView(c), DataBeat(c, e));
    T.KeepsSize(DataView(c), DataBeat(c, e));
  }

  lemma SameInput(c: Chip, e: Edge)
    requires Whole(c)
    ensures T.InputOf(DataView(c), DataBeat(c, e)) == F.InputOf(c.y, BeatOf(c, e))
  {
    hide Comb, FetchOps, Found, T.Kept, DataUnit.Offered, F.Offered;
  }

  // ---------------------------------------------------------------- hypotheses

  /** The mapping is `l`, and while a side translates, satp's key names its root. */
  ghost predicate Mapped(l: Tlb.Leaves, root: nat -> Addr, c: Chip) {
    && T.Fixed(l, root, c.y.core)
    && (Im.TranslationOn(c.y.core.hart) ==> root(Tlb.Key(c.y.core.hart.Get(H.SATP))) == Im.RootOf(c.y.core.hart))
  }

  /** Throughout the run the mapping is `l`, and no cycle writes what the fetch side
      holds or is fetching.  Of what the cache answers nothing is assumed. */
  ghost predicate Calm(l: Tlb.Leaves, root: nat -> Addr, c: Chip, es: seq<Edge>)
    requires Whole(c)
    decreases es
  {
    es == []
    || (&& Mapped(l, root, c) && F.Undisturbed(c.y, BeatOf(c, es[0]))
        && (OneCore(c, es[0]); Calm(l, root, Next(c, es[0]), es[1..])))
  }

  // ----------------------------------------------------------------- invariant

  predicate Latched(c: Chip) { c.y.d.state == 1 || c.y.d.state == 2 ==> c.fetchSatp == c.y.core.hart.Get(H.SATP) }

  /** Both sides are right and only true leaves are cached. */
  ghost predicate Good(l: Tlb.Leaves, c: Chip) { F.Good(c.y) && T.Sound(l, DataView(c)) && Latched(c) }

  /** The fetch side stores only leaves of the page tables. */
  lemma FetchHonest(l: Tlb.Leaves, root: nat -> Addr, c: Chip, e: Edge)
    requires Good(l, c) && Mapped(l, root, c)
    ensures Tlb.AllHonest(l, FetchOps(c, e))
  {
    hide Inv, Fetch.Holds, Im.Flight, Im.Answers, InstrUnit.Learned, F.OutOf, Read, Im.TranslationOn, Im.RootOf, Tlb.Key, Tlb.AllTruthful,
      F.StartPc, T.SameLeaves, Tlb.LeavesOf, F.MemoryOf, F.EvenWord, Mmu.TranslationOn, Mmu.RootOf, Mmu.EffPriv, Tlb.Honest;
    var d, h, m := c.y.d, c.y.core.hart, c.y.core.mem;
    SearchHonest(l);
    if !Im.Ready(d, F.Response(c.y)) && InstrUnit.Learned(d, F.Response(c.y), h).Some? {
      Unfaulted(c.y);
      LearnedWalking(d, F.Response(c.y), h);
      InstrUnit.LearnedIsLeaf(d, h, m);
      InstrUnit.LearnedHonestly(d, h, m, root, 1);
      T.SameHonest(l, Tlb.LeavesOf(Sv32.World(m, h.pmp, 1), root),
                   Tlb.Insert(Tlb.Key(h.Get(H.SATP)), d.pc / 0x1000, InstrUnit.Learned(d, F.Response(c.y), h).value));
    }
  }

  lemma SearchHonest(l: Tlb.Leaves)
    ensures forall key, vpn :: Tlb.Honest(l, Tlb.Search(key, vpn))
  {
  }

  lemma Unfaulted(y: F.Whole)
    requires !Im.Ready(y.d, F.Response(y))
    ensures F.Response(y) == Im.Data(y.core.mem, y.d.last)
  {
    hide Read;
  }

  lemma LearnedWalking(d: Im.Immu, r: Rsp, h: H.Hart)
    requires InstrUnit.Learned(d, r, h).Some?
    ensures d.state == 1 || d.state == 2
  {
    hide Sv32.Level1Fault, Sv32.Level0Fault, Sv32.IsLeaf, Im.Ready;
  }

  lemma OpsPolite(l: Tlb.Leaves, root: nat -> Addr, c: Chip, e: Edge)
    requires Good(l, c) && Mapped(l, root, c)
    ensures Whole(c) && T.Polite(l, DataBeat(c, e))
  {
    hide F.Good, T.Fixed, FetchOps, F.OutOf, F.Offered, Tlb.Honest, Tlb.AllTruthful, Im.TranslationOn, Im.RootOf;
    F.GoodInv(c.y);
    FetchHonest(l, root, c, e);
  }

  /** What the cache offers the fetch side is the leaf of the page tables. */
  lemma FetchOfferTrue(l: Tlb.Leaves, root: nat -> Addr, c: Chip, t: seq<Tlb.Entry>, pc: Addr)
    requires Mapped(l, root, c) && Tlb.GlobalShared(l) && Tlb.AllTruthful(l, t)
    ensures Im.TlbTrue(c.y.core.hart, c.y.core.mem, pc, DataUnit.Offered(t, c.y.core.hart.Get(H.SATP), pc))
  {
    hide Tlb.GlobalShared, Tlb.MegaShared, Tlb.AllTruthful, DataUnit.Offered, Tlb.Key, Sv32.LeafOf, Tlb.PageAddr, Im.RootOf, Im.WordOf,
      Mmu.TranslationOn, Mmu.RootOf, Mmu.EffPriv;
    var h, w := c.y.core.hart, Sv32.World(c.y.core.mem, c.y.core.hart.pmp, 1);
    T.FixedShared(l, root, c.y.core);
    T.OfferedIsLeaf(l, t, h.Get(H.SATP), pc);
    if Im.TranslationOn(h) {
      BelowM(h);
      WordPage(pc);
      Tlb.LeafOfPage(w, Im.RootOf(h), Im.WordOf(pc));
      Sv32.SameLeaf(w, h.priv, Im.RootOf(h), Im.WordOf(pc));
    }
  }

  lemma WordPage(pc: Addr)
    ensures Im.WordOf(pc) / 0x1000 == pc / 0x1000
  {
    Im.PageSplit(pc);
  }

  lemma BelowM(h: H.Hart)
    requires Im.TranslationOn(h)
    ensures h.priv != 3
  {
    hide Sv32.SatpOn;
  }

  lemma FoundTrue(l: Tlb.Leaves, root: nat -> Addr, c: Chip, e: Edge)
    requires Good(l, c) && Mapped(l, root, c) && Whole(c)
    ensures Tlb.AllTruthful(l, Found(c, e))
  {
    hide Inv, Fetch.Holds, Im.Flight, Tlb.AllTruthful, T.Fixed, T.DataSide, Machine.Purged, F.Resting, F.MemoryOf, F.EvenWord, FetchOps,
      F.Offered, T.Polite, F.OutOf, Im.TranslationOn, Im.RootOf, Tlb.MegaShared;
    OpsPolite(l, root, c, e);
    T.FixedShared(l, root, c.y.core);
    if e.fetchFirst {
      T.PurgedTrue(l, Stage(c.y.core, e.env), c.t);
    } else {
      T.DataTurn(F.CodeOf, l, root, DataView(c), DataBeat(c, e));
    }
  }

  /** So the two sides may trust the cache. */
  lemma EdgeTrusted(l: Tlb.Leaves, root: nat -> Addr, c: Chip, e: Edge)
    requires Good(l, c) && Mapped(l, root, c) && Tlb.GlobalShared(l) && Whole(c) && F.Undisturbed(c.y, BeatOf(c, e))
    ensures F.Trusted(c.y, BeatOf(c, e))
  {
    hide F.Good, F.Undisturbed, Tlb.AllTruthful, Tlb.GlobalShared, T.Fixed, Found, T.Kept, DataUnit.Offered, DataBeat, Mmu.TlbTrue, Im.TlbTrue,
      F.StartPc, Comb, Im.TranslationOn, Im.RootOf, T.Polite, Tlb.MegaShared;
    OpsPolite(l, root, c, e);
    FoundTrue(l, root, c, e);
    T.FixedShared(l, root, c.y.core);
    SameWires(c, e);
    T.KeptTrue(l, DataView(c), DataBeat(c, e));
    T.OfferIsTrue(l, root, c.y.core, T.Kept(DataView(c), DataBeat(c, e)), OutOf(c, e).req);
    FetchOfferTrue(l, root, c, Found(c, e), F.StartPc(c.y, OutOf(c, e)));
  }

  lemma SameWires(c: Chip, e: Edge)
    requires Whole(c)
    ensures T.OutOf(DataView(c), DataBeat(c, e)) == OutOf(c, e)
  {
    hide Comb, FetchOps, F.Offered;
  }

  lemma LatchStays(c: Chip, e: Edge)
    requires Whole(c) && F.Good(c.y) && Latched(c) && F.Trusted(c.y, BeatOf(c, e))
    ensures Latched(Next(c, e))
  {
    hide Inv, Comb, C.Next, Fetch.Holds, Im.Flight, F.Resting, F.MemoryOf, F.CycleOf, F.EvenWord, BeatOf, DataBeat, T.Next,
      F.StartPc, Stage, F.InputOf, Im.Step, Im.Ready, Fetch.FrontStep, Mmu.TlbTrue, Im.TlbTrue, F.Undisturbed, F.SameView, F.Cleared;
    var y, b, o := c.y, BeatOf(c, e), OutOf(c, e);
    F.NextParts(y.core, F.InputOf(y, b));
    SameEnv(c, e);
    F.InputEnv(y, b);
    if o.flush {
      F.FlushClears(y, b, o);
      F.RestingState(F.NextFetch(y, b, o));
    } else {
      F.NoFlushKeepsView(Stage(y.core, e.env));
      ViewSatp(y.core.hart, H.Step(y.core.hart, o.eff));
      if !Im.Ready(y.d, F.Response(y)) { WalkGoesOn(y, F.StartPc(y, o), b.instrHit); }
    }
  }

  lemma SameEnv(c: Chip, e: Edge)
    requires Whole(c)
    ensures BeatOf(c, e).env == e.env
  {
  }

  lemma ViewSatp(h: H.Hart, k: H.Hart)
    requires F.SameView(h, k)
    ensures h.Get(H.SATP) == k.Get(H.SATP)
  {
  }

  /** A fetch that is walking after an edge was started at it or was walking before. */
  lemma WalkGoesOn(y: F.Whole, next: Addr, tlb: Option<Sv32.Leaf>)
    requires !Im.Ready(y.d, F.Response(y)) && (F.Resting(y.d) || Im.Flight(y.d, y.core.hart, y.core.mem))
    ensures var n := Im.Step(y.d, F.Response(y), next, y.core.hart, tlb);
            n.state == 1 || n.state == 2 ==> y.d.state == 1 || y.d.state == 2
  {
    hide Sv32.Level1Fault, Sv32.Level0Fault, Sv32.IsLeaf, Sv32.LeafAddr, Sv32.PteSlot, Sv32.Vpn0, Sv32.Ppn, Im.TranslationOn, Im.Reachable,
      Im.WordOf, Im.Translate, Im.AwaitsLeaf, Im.RootOf, Read;
  }

  /** One edge of the chip. */
  lemma EdgeGood(l: Tlb.Leaves, root: nat -> Addr, c: Chip, e: Edge)
    requires Good(l, c) && Mapped(l, root, c) && Tlb.GlobalShared(l) && Whole(c) && F.Undisturbed(c.y, BeatOf(c, e))
    ensures F.Trusted(c.y, BeatOf(c, e)) && Whole(Next(c, e)) && Good(l, Next(c, e))
  {
    hide F.Good, F.Undisturbed, F.Trusted, T.Sound, Tlb.GlobalShared, T.Fixed, BeatOf, DataBeat, Next, Truthful, Latched, F.NextWhole, T.Next,
      Im.TranslationOn, Im.RootOf, T.Polite, T.FetchTrue, Inv;
    EdgeTrusted(l, root, c, e);
    F.StepGood(c.y, BeatOf(c, e));
    F.GoodInv(c.y);
    LatchStays(c, e);
    OneCore(c, e);
    OpsPolite(l, root, c, e);
    FetchIsTrue(c, e);
    T.StepSound(F.CodeOf, l, root, DataView(c), DataBeat(c, e));
    NextWholeOf(c, e);
  }

  lemma NextWholeOf(c: Chip, e: Edge)
    requires Whole(c)
    ensures Next(c, e).y == F.NextWhole(c.y, BeatOf(c, e))
  {
    hide F.NextWhole, T.Next, BeatOf, DataBeat, NextFetchSatp;
  }

  lemma FetchIsTrue(c: Chip, e: Edge)
    requires Whole(c) && F.Good(c.y) && F.Trusted(c.y, BeatOf(c, e))
    ensures T.FetchTrue(F.CodeOf, DataView(c), DataBeat(c, e))
  {
    hide F.Good, F.Trusted, Comb, C.Next, Abs, T.InputOf, F.InputOf, DataBeat, BeatOf, F.CodeOf, Accepts, Truthful, T.Next, Stage;
    OneCore(c, e);
    T.NextCore(DataView(c), DataBeat(c, e));
    F.CoreMoves(c.y, BeatOf(c, e));
    InputParts(DataView(c), DataBeat(c, e));
    TruthfulFetch(F.CodeOf, c.y.core, F.InputOf(c.y, BeatOf(c, e)));
  }

  lemma InputParts(y: T.Sys, b: T.Beat)
    requires |y.t| > 0
    ensures T.InputOf(y, b).env == b.env && T.InputOf(y, b).slot == b.slot
  {
    hide T.Kept, DataUnit.Offered, Comb;
  }

  lemma TruthfulFetch(code: Code, s: C.Core, i: Input)
    requires Truthful(code, s, i)
    ensures Accepts(Comb(Stage(s, i.env)), i.slot) ==> i.slot.instr == code(Abs(C.Next(s, i)))
  {
    hide Comb, C.Next, Abs, Stage, Accepts, Mmu.TlbTrue;
  }

  // ----------------------------------------------------------------------- runs

  function Run(c: Chip, es: seq<Edge>): (r: Chip)
    requires Whole(c)
    decreases es
  {
    if es == [] then c
    else
      OneCore(c, es[0]);
      Run(Next(c, es[0]), es[1..])
  }

  /** The beats of the fetch side and core, with what the cache answered. */
  function Beats(c: Chip, es: seq<Edge>): (bs: seq<F.Beat>)
    requires Whole(c)
    decreases es
  {
    if es == [] then []
    else
      OneCore(c, es[0]);
      [BeatOf(c, es[0])] + Beats(Next(c, es[0]), es[1..])
  }

  /** What the core sees of the run. */
  function Inputs(c: Chip, es: seq<Edge>): (ins: seq<Input>)
    requires Whole(c)
  {
    F.Inputs(c.y, Beats(c, es))
  }

  /** A run of the chip is a run in which both sides could trust the cache. */
  lemma {:induction false} RunTrusted(l: Tlb.Leaves, root: nat -> Addr, c: Chip, es: seq<Edge>)
    requires Whole(c) && Good(l, c) && Tlb.GlobalShared(l) && Calm(l, root, c, es)
    ensures F.AllTrusted(c.y, Beats(c, es)) && F.RunWhole(c.y, Beats(c, es)) == Run(c, es).y && Good(l, Run(c, es))
    decreases es
  {
    hide Good, Mapped, F.Undisturbed, F.Trusted, F.NextWhole, Next, BeatOf, Tlb.GlobalShared;
    if es != [] {
      EdgeGood(l, root, c, es[0]);
      OneCore(c, es[0]);
      NextWholeOf(c, es[0]);
      var n := Next(c, es[0]);
      RunTrusted(l, root, n, es[1..]);
      assert Beats(c, es)[1..] == Beats(n, es[1..]);
    }
  }

  /** Nothing cached and no walk under way, as after reset or a full fence. */
  predicate Cold(c: Chip) {
    && |c.t| > 0 && (forall k :: 0 <= k < |c.t| ==> !c.t[k].valid)
    && c.y.core.mmu.state != 1 && c.y.core.mmu.state != 2 && c.y.d.state != 1 && c.y.d.state != 2
  }

  lemma ColdGood(l: Tlb.Leaves, c: Chip)
    requires F.Good(c.y) && Cold(c)
    ensures Good(l, c)
  {
    hide F.Good;
  }

  /** From a cold start on, while the mapping stays and nobody writes what is being
      fetched: fetch side, core and the cache they share compute what the sequential
      machine does, which decodes the halfwords memory holds at its PC and walks the
      page tables at every access, whatever was cached and whoever cached it. */
  lemma ChipRunsMemory(l: Tlb.Leaves, root: nat -> Addr, c: Chip, es: seq<Edge>)
    requires F.Good(c.y) && Cold(c) && Whole(c) && Tlb.GlobalShared(l) && Calm(l, root, c, es)
    ensures Abs(Run(c, es).y.core) == SeqRun(Abs(c.y.core), F.CodeOf, History(c.y.core, Inputs(c, es)))
  {
    hide Good, F.Good, F.AllTrusted, F.RunWhole, F.Inputs, Calm, Cold, Run, Beats, Tlb.GlobalShared, History, SeqRun, AllTruthful, Inv, Abs,
      F.CodeOf, C.Run;
    ColdGood(l, c);
    RunTrusted(l, root, c, es);
    F.RunGood(c.y, Beats(c, es));
    F.GoodInv(c.y);
    RunRefines(F.CodeOf, c.y.core, Inputs(c, es));
  }

  /** Reset is such a start. */
  lemma ResetStarts(c: Chip)
    requires F.Reset(c.y) && |c.t| > 0 && forall k :: 0 <= k < |c.t| ==> !c.t[k].valid
    ensures F.Good(c.y) && Cold(c) && Whole(c)
  {
    hide F.Good, Inv, F.EvenWord;
    F.ResetGood(c.y);
    F.GoodInv(c.y);
  }

  /** And so is what a legal SFENCE.VMA with both operands zero leaves behind. */
  lemma FenceStarts(c: Chip, e: Edge)
    requires Whole(c) && F.Good(c.y) && F.Trusted(c.y, BeatOf(c, e))
    requires Machine.Purges(Stage(c.y.core, e.env)) && c.y.core.x.rs1Val == 0 && c.y.core.x.rs2Val == 0
    ensures var n := Next(c, e); F.Good(n.y) && Cold(n) && Whole(n)
  {
    hide F.Good, F.Trusted, Machine.Purges, Comb, T.Next, F.NextWhole, Stage, F.Offered, Truthful, BeatOf, F.Cleared, F.NextFetch;
    T.FenceFlushes(c.y.core, e.env);
    SameEnv(c, e);
    QuietFetch(c, e);
    T.FenceEmpties(DataView(c), DataBeat(c, e));
    OneCore(c, e);
    F.StepGood(c.y, BeatOf(c, e));
    NextWholeOf(c, e);
    FlushedFetch(c.y, BeatOf(c, e));
  }

  lemma QuietFetch(c: Chip, e: Edge)
    requires Whole(c) && OutOf(c, e).flush
    ensures DataBeat(c, e).before == [] && DataBeat(c, e).after == [] && T.StageOf(DataView(c), DataBeat(c, e)) == Stage(c.y.core, e.env)
  {
    hide Comb, F.Offered, Stage;
  }

  lemma FlushedFetch(y: F.Whole, b: F.Beat)
    requires F.Shaped(y) && F.OutOf(y, b.env).flush
    ensures F.NextWhole(y, b).d.state == 0
  {
    hide F.OutOf, C.Next, Fetch.FrontStep, F.CycleOf, F.NextPrefetch, F.InputOf, F.Acks;
    F.FlushClears(y, b, F.OutOf(y, b.env));
  }

  // ----------------------------------------------------------- atomics of a run

  lemma CodeNarrow()
    ensures Atomics.Narrow(F.CodeOf)
  {
    hide F.CodeOf, F.FrontAt, F.MemoryOf, F.AddrOf, Decode.Issue, SizeOf;
    forall a: Arch ensures SizeOf(F.CodeOf(a).memSize) <= 4 {
      CodeIsIssued(F.FrontAt(F.MemoryOf(a.hart, a.mem), F.AddrOf(a.pc)), a);
    }
  }

  lemma CodeIsIssued(q: Fetch.Queue, a: Arch)
    requires q == F.FrontAt(F.MemoryOf(a.hart, a.mem), F.AddrOf(a.pc))
    ensures SizeOf(F.CodeOf(a).memSize) <= 4
  {
    hide F.MemoryOf, F.AddrOf, Decode.Issue, SizeOf, F.FrontWord, Fetch.Faulting, F.FaultCode, H.WordOf, F.Shrink, F.FrontAt;
    var r := Fetch.Faulting(q, 0);
    Atomics.DecodedNarrow(F.Shrink(F.FrontWord(q)), F.FaultCode(r.fault), H.WordOf(r.tval));
  }

  /** SC.W in the program the chip runs stores, and returns 0, if and only if an LR of
      the run reserved its first byte and nothing has written that byte since. */
  lemma ChipScStoresIff(l: Tlb.Leaves, root: nat -> Addr, c: Chip, es: seq<Edge>, q: Req, pa: Addr)
    requires F.Reset(c.y) && Cold(c) && Whole(c) && Tlb.GlobalShared(l) && Calm(l, root, c, es) && c.y.core.mem.resv == {}
    requires var t := Run(c, es).y.core;
             && Atomics.IsSc(q) && Mmu.Translate(t.hart, t.mem, q) == Sv32.Pa(pa) && pa % 4 == 0
             && Mmu.Reachable(t.hart, Atomics.Physical(q, pa)) && !DeviceAddress(pa, 4)
    ensures var t := Run(c, es).y.core;
            var acts := Atomics.RunActs(Abs(c.y.core), F.CodeOf, History(c.y.core, Inputs(c, es)));
            Mmu.Access(t.hart, t.mem, q) == if HeldByLr(acts, pa) then Mmu.Done(0, Write(t.mem, pa, 4, q.wdata)) else Mmu.Done(1, t.mem)
  {
    hide Good, F.Good, F.AllTrusted, F.RunWhole, F.Inputs, Calm, Cold, Run, Beats, Tlb.GlobalShared, History, SeqRun, AllTruthful, Inv, Abs,
      F.CodeOf, C.Run, Initial, HeldByLr, Mmu.Access, Mmu.Translate, Mmu.Reachable, DeviceAddress, Write, Atomics.Narrow, Atomics.RunActs,
      F.Resting, F.EvenWord;
    F.ResetGood(c.y);
    ColdGood(l, c);
    RunTrusted(l, root, c, es);
    F.RunGood(c.y, Beats(c, es));
    CodeNarrow();
    Atomics.ScStoresIff(F.CodeOf, c.y.core, Inputs(c, es), q, pa);
  }
}
