/** The instruction side of the MMU (src/mmu.hpp:438-664), between flushes. */
module Immu {
  import opened Options
  import opened Memory
  import opened Sv32
  import H = Hart
  import Pmp
  import Bits

  // ---------------------------------------------------- a fetch as one operation

  predicate TranslationOn(h: H.Hart) { SatpOn(h.Get(H.SATP)) && (h.priv == H.S || h.priv == H.U) }

  function WorldOf(h: H.Hart, m: Mem): (r: World) { World(m, h.pmp, h.priv) }

  function RootOf(h: H.Hart): (r: Addr)
    ensures r % 0x1000 == 0
  {
    Root(h.Get(H.SATP))
  }

  /** The word that contains the address. */
  function WordOf(pc: Addr): (r: Addr) { pc - pc % 4 }

  function Translate(h: H.Hart, m: Mem, pc: Addr): (r: Xlate) {
    if TranslationOn(h) then Walk(WorldOf(h, m), RootOf(h), WordOf(pc), Fetch(h.priv)) else Pa(WordOf(pc))
  }

  predicate Executable(h: H.Hart, a: Addr) { Pmp.Allowed(h.pmp, a, 4, 4, h.priv) && PmaValid(a) }

  datatype Fetched = PageFaulted | AccessFaulted | Instruction(word: bv32)

  function FetchAccess(h: H.Hart, m: Mem, pc: Addr): (r: Fetched) {
    match Translate(h, m, pc)
    case PageFault => PageFaulted
    case AccessFault => AccessFaulted
    case Pa(a) => if Executable(h, a) then Instruction(Read(m, a, 4)) else AccessFaulted
  }

  /** Translation of a fetch is the architecture's, unless it departs. */
  lemma TranslateIsReference(h: H.Hart, m: Mem, pc: Addr)
    requires TranslationOn(h) && SatpPpn(h.Get(H.SATP)) < 0x10_0000
    requires Narrow(WorldOf(h, m), SatpPpn(h.Get(H.SATP)), WordOf(pc))
    ensures var w, ppn := WorldOf(h, m), SatpPpn(h.Get(H.SATP));
            Translate(h, m, pc) == Reference(w, ppn, WordOf(pc), Fetch(h.priv)) <==> !Departs(w, ppn, WordOf(pc), Fetch(h.priv))
  {
    hide Walk, Reference, Departs, Narrow, SatpPpn, RootOf, Sv32.RootOf, Root, WordOf, SatpOn;
    WholeRoot(h.Get(H.SATP));
    RootIsRoot(h);
    WalkIsReference(WorldOf(h, m), SatpPpn(h.Get(H.SATP)), WordOf(pc), Fetch(h.priv));
  }

  lemma RootIsRoot(h: H.Hart)
    ensures RootOf(h) == Root(h.Get(H.SATP))
  {
  }

  // ------------------------------------------------------------ the clocked unit

  type Index = i: int | 0 <= i < 1024

  datatype IReq = IReq(ack: bool, addr: Addr)

  /** `pc` is immu_pc; states as on the data side, except that a page fault
      leaves the state as it was. */
  datatype Immu = Immu(state: int, pageFault: bool, pmpFault: bool, pc: Addr, vpn0: Index, offset: nat, last: IReq)

  function Refuse(d: Immu): (r: Immu) { d.(pageFault := true, last := d.last.(ack := false)) }

  function Ask(d: Immu, st: int, a: Addr): (r: Immu) { d.(state := st, pageFault := false, last := IReq(true, a)) }

  function Start(d: Immu, pc: Addr, h: H.Hart, tlb: Option<Leaf>): (r: Immu) {
    var d' := d.(pc := pc, vpn0 := Vpn0(pc), offset := pc % 0x1000);
    if !TranslationOn(h) then Ask(d', 3, WordOf(pc))
    else
      match tlb
      case Some(l) => if LeafFault(Fetch(h.priv), l.pte) then Refuse(d') else Ask(d', 3, LeafAddr(l.pte, l.mega, WordOf(pc)))
      case None => Ask(d', 1, Pte1Addr(RootOf(h), pc))
  }

  function GotPte1(d: Immu, h: H.Hart, p: bv32): (r: Immu) {
    if Level1Fault(Fetch(h.priv), p) then Refuse(d)
    else if IsLeaf(p) then Ask(d, 3, LeafAddr(p, true, WordOf(d.pc)))
    else Ask(d, 2, PteSlot(p, d.vpn0))
  }

  function GotPte0(d: Immu, h: H.Hart, p: bv32): (r: Immu) {
    if Level0Fault(Fetch(h.priv), p) then Refuse(d)
    else Ask(d, 3, (Ppn(p) * 0x1000 + (d.offset - d.offset % 4)) % SPACE)
  }

  /** Execute permission for the fetch itself, read permission for a PTE. */
  predicate Reachable(h: H.Hart, d: Immu) {
    if d.state == 3 then Executable(h, d.last.addr)
    else Pmp.Allowed(h.pmp, d.last.addr, 1, 4, h.priv) && PmaValid(d.last.addr)
  }

  function Checked(d: Immu, h: H.Hart): (r: Immu) { d.(pmpFault := d.last.ack && !Reachable(h, d)) }

  function Presented(d: Immu): (r: IReq) { if d.pmpFault || d.pageFault then IReq(false, 0) else d.last }

  /** Memory's answer to the presented request; addresses are even. */
  function Data(m: Mem, q: IReq): (r: Rsp) { if q.ack then Rsp(true, Read(m, q.addr, 4), false) else NO_RSP }

  predicate Answers(d: Immu, r: Rsp) { (d.state == 3 && r.ack) || d.pageFault || d.pmpFault || r.fault }

  function Answer(d: Immu, r: Rsp): (f: Fetched) {
    if d.pageFault then PageFaulted else if r.fault || d.pmpFault then AccessFaulted else Instruction(r.rdata)
  }

  /** Ready for an address: answering, or never started. */
  predicate Ready(d: Immu, r: Rsp) { Answers(d, r) || d.state == 0 }

  /** Rising edge (`imem_req_seq`), no flush: `next` is the address to start on. */
  function Step(d: Immu, r: Rsp, next: Addr, h: H.Hart, tlb: Option<Leaf>): (n: Immu) {
    Checked(
      if Ready(d, r) then Start(d, next, h, tlb)
      else if r.ack then
        if d.state == 1 then GotPte1(d, h, r.rdata)
        else if d.state == 2 then GotPte0(d, h, r.rdata)
        else d.(state := 0, last := d.last.(ack := false))
      else d.(pageFault := false, last := d.last.(ack := false)),
      h)
  }

  // -------------------------------------------------------- where a fetch stands

  predicate AwaitsLeaf(d: Immu, h: H.Hart, m: Mem) {
    match PteAt(WorldOf(h, m), Pte1Addr(RootOf(h), d.pc))
    case None => false
    case Some(p) => !Level1Fault(Fetch(h.priv), p) && !IsLeaf(p) && d.last == IReq(true, Pte0Addr(p, d.pc))
  }

  /** Progress of the fetch at `d.pc`, in state (`h`, `m`) fixed while it is under way. */
  predicate Flight(d: Immu, h: H.Hart, m: Mem) {
    && d.vpn0 == Vpn0(d.pc) && d.offset == d.pc % 0x1000
    && d == Checked(d, h)
    && (if d.pageFault then !d.last.ack && Translate(h, m, d.pc) == PageFault
        else if d.state == 1 then TranslationOn(h) && d.last == IReq(true, Pte1Addr(RootOf(h), d.pc))
        else if d.state == 2 then TranslationOn(h) && AwaitsLeaf(d, h, m)
        else d.state == 3 && Translate(h, m, d.pc).Pa? && d.last == IReq(true, Translate(h, m, d.pc).addr))
  }

  function Rank(d: Immu): (r: int) { if d.pageFault then 0 else 3 - d.state }

  predicate TlbTrue(h: H.Hart, m: Mem, pc: Addr, tlb: Option<Leaf>) {
    TranslationOn(h) && tlb.Some? ==> LeafOf(WorldOf(h, m), RootOf(h), WordOf(pc)) == tlb
  }

  lemma PageSplit(pc: nat)
    ensures (pc - pc % 4) / 0x1000 == pc / 0x1000
    ensures (pc - pc % 4) % 0x1000 == pc % 0x1000 - pc % 0x1000 % 4
  {
    var q, r := pc / 0x1000, pc % 0x1000;
    SameLow(pc, q, r);
    Bits.Quotient(pc - pc % 4, 0x1000, q, r - r % 4);
  }

  lemma SameLow(pc: nat, q: nat, r: nat)
    requires pc == 0x1000 * q + r
    ensures pc % 4 == r % 4
  {
    Bits.Quotient(pc, 4, 0x400 * q + r / 4, r % 4);
  }

  lemma TopSplit(pc: nat)
    ensures (pc - pc % 4) / 0x40_0000 == pc / 0x40_0000
  {
    PageSplit(pc);
    Coarser(pc);
    Coarser(pc - pc % 4);
  }

  lemma Coarser(x: nat)
    ensures x / 0x40_0000 == x / 0x1000 / 1024
  {
    var q := x / 0x1000;
    Bits.Quotient(x, 0x40_0000, q / 1024, q % 1024 * 0x1000 + x % 0x1000);
  }

  lemma WordVpns(pc: Addr)
    ensures Vpn1(WordOf(pc)) == Vpn1(pc) && Vpn0(WordOf(pc)) == Vpn0(pc)
    ensures WordOf(pc) % 0x1000 == pc % 0x1000 - pc % 0x1000 % 4
  {
    PageSplit(pc);
    TopSplit(pc);
  }

  lemma WordPteAddrs(root: Addr, p: bv32, pc: Addr)
    requires root % 0x1000 == 0
    ensures Pte1Addr(root, WordOf(pc)) == Pte1Addr(root, pc) && Pte0Addr(p, WordOf(pc)) == Pte0Addr(p, pc)
  {
    hide Vpn0, Vpn1, PteSlot, WordOf;
    WordVpns(pc);
  }

  lemma CheckedTwice(d: Immu, h: H.Hart)
    ensures Checked(Checked(d, h), h) == Checked(d, h)
  {
    hide Executable, Pmp.Allowed, PmaValid;
  }

  lemma TranslateHit(h: H.Hart, m: Mem, pc: Addr, l: Leaf)
    requires TranslationOn(h) && LeafOf(WorldOf(h, m), RootOf(h), WordOf(pc)) == Some(l)
    ensures Translate(h, m, pc)
            == if LeafFault(Fetch(h.priv), l.pte) then PageFault else Pa(LeafAddr(l.pte, l.mega, WordOf(pc)))
  {
    hide TranslationOn, Walk, LeafOf, LeafFault, LeafAddr, RootOf, WordOf;
    HitIsWalk(WorldOf(h, m), RootOf(h), WordOf(pc), Fetch(h.priv));
  }

  lemma TranslateOff(h: H.Hart, m: Mem, pc: Addr)
    requires !TranslationOn(h)
    ensures Translate(h, m, pc) == Pa(WordOf(pc))
  {
    hide TranslationOn, WordOf;
  }

  /** A ready unit takes the next address at once. */
  lemma Launch(d: Immu, r: Rsp, next: Addr, h: H.Hart, m: Mem, tlb: Option<Leaf>)
    requires Ready(d, r) && TlbTrue(h, m, next, tlb)
    ensures var n := Step(d, r, next, h, tlb); Flight(n, h, m) && n.pc == next && Rank(n) <= 2
  {
    hide TranslationOn, Translate, LeafOf, LeafFault, LeafAddr, Reachable, WorldOf, RootOf, Pte1Addr, Vpn0, WordOf, Ready;
    CheckedTwice(Start(d, next, h, tlb), h);
    if !TranslationOn(h) {
      TranslateOff(h, m, next);
    } else if tlb.Some? {
      TranslateHit(h, m, next, tlb.value);
    }
  }

  lemma PteReadChecks(h: H.Hart, m: Mem, d: Immu)
    requires d.state != 3
    ensures Reachable(h, d) == PteReadable(WorldOf(h, m), d.last.addr)
    ensures PteAt(WorldOf(h, m), d.last.addr) == if Reachable(h, d) then Some(Read(m, d.last.addr, 4)) else None
  {
    hide Pmp.Allowed, PmaValid, Read;
  }

  lemma TranslateAt1(h: H.Hart, m: Mem, pc: Addr, p: bv32)
    requires TranslationOn(h) && PteAt(WorldOf(h, m), Pte1Addr(RootOf(h), pc)) == Some(p)
    ensures Level1Fault(Fetch(h.priv), p) ==> Translate(h, m, pc) == PageFault
    ensures !Level1Fault(Fetch(h.priv), p) && IsLeaf(p) ==> Translate(h, m, pc) == Pa(LeafAddr(p, true, WordOf(pc)))
  {
    hide TranslationOn, Level1Fault, Level0Fault, LeafAddr, WorldOf, RootOf, Pte1Addr, Pte0Addr, PteAt, IsLeaf, WordOf;
    WordPteAddrs(RootOf(h), p, pc);
  }

  lemma TranslateAt2(h: H.Hart, m: Mem, pc: Addr, p: bv32, q: bv32)
    requires TranslationOn(h) && PteAt(WorldOf(h, m), Pte1Addr(RootOf(h), pc)) == Some(p)
    requires !Level1Fault(Fetch(h.priv), p) && !IsLeaf(p) && PteAt(WorldOf(h, m), Pte0Addr(p, pc)) == Some(q)
    ensures Translate(h, m, pc)
            == if Level0Fault(Fetch(h.priv), q) then PageFault
               else Pa((Ppn(q) * 0x1000 + (pc % 0x1000 - pc % 0x1000 % 4)) % SPACE)
  {
    hide TranslationOn, Level1Fault, Level0Fault, WorldOf, RootOf, Pte1Addr, Pte0Addr, PteAt, IsLeaf, WordOf, Ppn;
    WordPteAddrs(RootOf(h), p, pc);
    WordVpns(pc);
  }

  lemma TranslateRefused(h: H.Hart, m: Mem, d: Immu)
    requires Flight(d, h, m) && !d.pageFault && d.state != 3 && d.pmpFault
    ensures Translate(h, m, d.pc) == AccessFault
  {
    hide TranslationOn, Level1Fault, Level0Fault, LeafAddr, WorldOf, RootOf, Pte1Addr, Pte0Addr, PteAt, IsLeaf,
      WordOf, Reachable, Vpn0, Read, PteReadable;
    PteReadChecks(h, m, d);
    WordPteAddrs(RootOf(h), 0, d.pc);
    if d.state == 2 {
      WordPteAddrs(RootOf(h), PteAt(WorldOf(h, m), Pte1Addr(RootOf(h), d.pc)).value, d.pc);
    }
  }

  /** Until it answers, each edge brings the fetch closer. */
  lemma Advance(d: Immu, next: Addr, h: H.Hart, m: Mem, tlb: Option<Leaf>)
    requires Flight(d, h, m) && !Answers(d, Data(m, Presented(d)))
    ensures var n := Step(d, Data(m, Presented(d)), next, h, tlb);
            Flight(n, h, m) && n.pc == d.pc && Rank(n) < Rank(d)
  {
    hide TranslationOn, Translate, Level1Fault, Level0Fault, LeafAddr, WorldOf, RootOf, Pte1Addr, PteSlot, PteAt,
      IsLeaf, WordOf, Reachable, Vpn0, Read, PteReadable, Ppn;
    PteReadChecks(h, m, d);
    var v := Read(m, d.last.addr, 4);
    if d.state == 1 {
      TranslateAt1(h, m, d.pc, v);
      CheckedTwice(GotPte1(d, h, v), h);
    } else {
      var p := PteAt(WorldOf(h, m), Pte1Addr(RootOf(h), d.pc)).value;
      TranslateAt2(h, m, d.pc, p, v);
      CheckedTwice(GotPte0(d, h, v), h);
    }
  }

  /** When it answers, it answers what the fetch as one operation gives. */
  lemma AnswerCorrect(d: Immu, h: H.Hart, m: Mem)
    requires Flight(d, h, m) && Answers(d, Data(m, Presented(d)))
    ensures Answer(d, Data(m, Presented(d))) == FetchAccess(h, m, d.pc)
  {
    hide TranslationOn, Translate, WorldOf, RootOf, Pte1Addr, AwaitsLeaf, Executable, Vpn0, Read, Pmp.Allowed, PmaValid;
    if !d.pageFault && d.state != 3 {
      TranslateRefused(h, m, d);
    }
  }

  // ------------------------------------------------------------------ whole runs

  /** Edges of one fetch with the machine state fixed. */
  function Run(d: Immu, m: Mem, next: Addr, h: H.Hart, n: nat): (r: Immu)
    decreases n
  {
    if n == 0 then d else Run(Step(d, Data(m, Presented(d)), next, h, None), m, next, h, n - 1)
  }

  /** From any point of a fetch, the unit answers within as many edges as its rank,
      and the answer is the fetch of the word at `pc`. */
  lemma {:induction false} FetchCompletes(d: Immu, h: H.Hart, m: Mem, next: Addr) returns (n: nat)
    requires Flight(d, h, m) && Rank(d) >= 0
    ensures n <= Rank(d)
    ensures var e := Run(d, m, next, h, n);
            e.pc == d.pc && Answers(e, Data(m, Presented(e))) && Answer(e, Data(m, Presented(e))) == FetchAccess(h, m, d.pc)
    decreases Rank(d)
  {
    hide Flight, Answers, Answer, Step, FetchAccess, Data, Presented, Rank;
    if Answers(d, Data(m, Presented(d))) {
      n := 0;
      AnswerCorrect(d, h, m);
    } else {
      Advance(d, next, h, m, None);
      var e := Step(d, Data(m, Presented(d)), next, h, None);
      RankBounded(e, h, m);
      var k := FetchCompletes(e, h, m, next);
      n := k + 1;
    }
  }

  lemma RankBounded(d: Immu, h: H.Hart, m: Mem)
    requires Flight(d, h, m)
    ensures Rank(d) >= 0
  {
    hide TranslationOn, Translate, WorldOf, RootOf, Pte1Addr, AwaitsLeaf, Checked, Vpn0;
  }

  /** Started on `next` by a ready unit, a fetch is answered within three edges, the
      starting one included; the answer is the fetch of the word at `next`: with
      `TranslateIsReference`, the architecture's. */
  lemma FetchFromStart(d: Immu, r: Rsp, next: Addr, later: Addr, h: H.Hart, m: Mem, tlb: Option<Leaf>) returns (n: nat)
    requires Ready(d, r) && TlbTrue(h, m, next, tlb)
    ensures 1 <= n <= 3
    ensures var e := Run(Step(d, r, next, h, tlb), m, later, h, n - 1);
            && e.pc == next && Answers(e, Data(m, Presented(e)))
            && Answer(e, Data(m, Presented(e))) == FetchAccess(h, m, next)
  {
    hide Flight, Answers, Answer, Step, FetchAccess, Data, Presented, Rank, Run, Ready, TlbTrue;
    Launch(d, r, next, h, m, tlb);
    var e := Step(d, r, next, h, tlb);
    RankBounded(e, h, m);
    var k := FetchCompletes(e, h, m, later);
    n := k + 1;
  }
}
