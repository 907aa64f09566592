/** The data side of the MMU (src/mmu.hpp:134-436) and the atomic access it must
    amount to. */
module Mmu {
  import opened Options
  import opened Memory
  import opened Sv32
  import H = Hart
  import Pmp

  // ------------------------------------------------ the access as one operation

  /** Privilege of data accesses: MPP under MPRV. */
  function EffPriv(h: H.Hart): (r: bv32) { if H.MprvBit(h.Status()) then H.Mpp(h.Status()) else h.priv }

  predicate TranslationOn(h: H.Hart) {
    SatpOn(h.Get(H.SATP)) && (h.priv == H.S || h.priv == H.U || EffPriv(h) != H.M)
  }

  function WhoOf(h: H.Hart, q: Req, priv: bv32): (r: Who) {
    Data(q.isLoad, q.isStore, q.isAmo, q.amoOp, priv, H.SumBit(h.Status()), H.MxrBit(h.Status()))
  }

  function WorldOf(h: H.Hart, m: Mem): (r: World) { World(m, h.pmp, EffPriv(h)) }

  function RootOf(h: H.Hart): (r: Addr)
    ensures r % 0x1000 == 0
  {
    Root(h.Get(H.SATP))
  }

  function Translate(h: H.Hart, m: Mem, q: Req): (r: Xlate) {
    if TranslationOn(h) then Walk(WorldOf(h, m), RootOf(h), q.addr, WhoOf(h, q, EffPriv(h))) else Pa(q.addr)
  }

  /** 1 for loads and LR, 2 for the rest. */
  function OpOf(q: Req): (r: int) { if q.isLoad || (q.isAmo && q.amoOp == 0) then 1 else 2 }

  /** Sizes are 1, 2 or 4, for which the mask test is divisibility. */
  predicate Misaligned(q: Req) { if q.size == 0 then q.addr != 0 else q.addr % q.size != 0 }

  /** PMP and PMA; loads are checked as four bytes. */
  predicate Reachable(h: H.Hart, q: Req) {
    && (if q.isStore || q.isAmo then q.size > 0 && Pmp.Allowed(h.pmp, q.addr, 2, q.size, EffPriv(h))
        else Pmp.Allowed(h.pmp, q.addr, 1, 4, EffPriv(h)))
    && PmaValid(q.addr)
  }

  /** So a load is refused, beyond what its own bytes call for, exactly when the word
      that starts at its address straddles a PMP region. */
  lemma LoadReachableIff(h: H.Hart, q: Req)
    requires !q.isStore && !q.isAmo && 1 <= q.size <= 4
    ensures Reachable(h, q) <==> && Pmp.Allowed(h.pmp, q.addr, 1, q.size, EffPriv(h)) && PmaValid(q.addr)
                                 && !Pmp.Straddles(h.pmp, 0, q.addr, EffPriv(h))
  {
    hide Pmp.Allowed, Pmp.Straddles, PmaValid, EffPriv;
    Pmp.WideCheckIff(h.pmp, q.addr, 1, q.size, EffPriv(h));
  }

  datatype Result = Fault(cause: bv32) | Done(rdata: bv32, mem: Mem)

  function MisalignedCause(op: int): (r: bv32) { if op == 1 then 4 else 6 }
  function AccessCause(op: int): (r: bv32) { if op == 1 then 5 else 7 }
  function PageCause(op: int): (r: bv32) { if op == 1 then 13 else 15 }

  /** Translate, check, and perform, all at once. */
  function Access(h: H.Hart, m: Mem, q: Req): (r: Result) {
    match Translate(h, m, q)
    case PageFault => Fault(PageCause(OpOf(q)))
    case AccessFault => Fault(AccessCause(OpOf(q)))
    case Pa(pa) =>
      var p := q.(ack := true, addr := pa);
      if Misaligned(p) then Fault(MisalignedCause(OpOf(q)))
      else if !Reachable(h, p) then Fault(AccessCause(OpOf(q)))
      else
        var r := MemAccess(m, p);
        if r.fault then Fault(AccessCause(OpOf(q))) else Done(r.rdata, Commit(m, p, r))
  }

  /** Translation of a data access is the architecture's, unless it departs. */
  lemma TranslateIsReference(h: H.Hart, m: Mem, q: Req)
    requires TranslationOn(h) && Proper(WhoOf(h, q, EffPriv(h)))
    requires SatpPpn(h.Get(H.SATP)) < 0x10_0000 && Narrow(WorldOf(h, m), SatpPpn(h.Get(H.SATP)), q.addr)
    ensures var w, ppn, who := WorldOf(h, m), SatpPpn(h.Get(H.SATP)), WhoOf(h, q, EffPriv(h));
            Translate(h, m, q) == Reference(w, ppn, q.addr, who) <==> !Departs(w, ppn, q.addr, who)
  {
    hide TranslationOn, Walk, Reference, Departs, Narrow, Proper, WhoOf, EffPriv, SatpPpn, RootOf, Sv32.RootOf, Root;
    WholeRoot(h.Get(H.SATP));
    RootIsRoot(h);
    WalkIsReference(WorldOf(h, m), SatpPpn(h.Get(H.SATP)), q.addr, WhoOf(h, q, EffPriv(h)));
  }

  lemma RootIsRoot(h: H.Hart)
    ensures RootOf(h) == Root(h.Get(H.SATP))
  {
  }

  // ------------------------------------------------------------ the clocked unit

  type Index = i: int | 0 <= i < 1024

  /** Registers: the walk state (0 idle, 1 and 2 awaiting a PTE, 3 awaiting data),
      the three fault flags, the latched request parts and the last request. */
  datatype Dmmu = Dmmu(
    state: int, pageFault: bool, pmpFault: bool, misaligned: bool,
    op: int, priv: bv32, vpn0: Index, offset: nat, last: Req)

  const IDLE := Dmmu(0, false, false, false, 0, 3, 0, 0, NO_REQ)

  function PteReq(a: Addr): (r: Req) { Req(true, a, 0, 4, true, false, false, 0) }

  function Quiet(d: Dmmu): (r: Dmmu) { d.(state := 0, pageFault := false, op := 0, vpn0 := 0, offset := 0, last := d.last.(ack := false)) }

  function Refuse(d: Dmmu): (r: Dmmu) { d.(state := 0, pageFault := true, last := d.last.(ack := false)) }

  function Dispatch(d: Dmmu, q: Req, pa: Addr): (r: Dmmu) {
    d.(state := 3, pageFault := false, last := q.(ack := true, addr := pa))
  }

  function Fetch(d: Dmmu, st: int, a: Addr): (r: Dmmu) { d.(state := st, pageFault := false, last := PteReq(a)) }

  /** Idle and requested: TLB hit, walk, or no translation. */
  function Start(d: Dmmu, q: Req, h: H.Hart, tlb: Option<Leaf>): (r: Dmmu) {
    var d' := d.(op := OpOf(q), priv := EffPriv(h), vpn0 := Vpn0(q.addr), offset := q.addr % 0x1000);
    if !TranslationOn(h) then Dispatch(d', q, q.addr)
    else
      match tlb
      case Some(l) =>
        if LeafFault(WhoOf(h, q, EffPriv(h)), l.pte) then Refuse(d') else Dispatch(d', q, LeafAddr(l.pte, l.mega, q.addr))
      case None => Fetch(d', 1, Pte1Addr(RootOf(h), q.addr))
  }

  function GotPte1(d: Dmmu, q: Req, h: H.Hart, p: bv32): (r: Dmmu)
  {
    if Level1Fault(WhoOf(h, q, d.priv), p) then Refuse(d)
    else if IsLeaf(p) then Dispatch(d, q, LeafAddr(p, true, q.addr))
    else Fetch(d, 2, PteSlot(p, d.vpn0))
  }

  function GotPte0(d: Dmmu, q: Req, h: H.Hart, p: bv32): (r: Dmmu) {
    if Level0Fault(WhoOf(h, q, d.priv), p) then Refuse(d)
    else Dispatch(d, q, (Ppn(p) * 0x1000 + d.offset) % SPACE)
  }

  /** Checks on whatever request is about to go out. */
  function Checked(d: Dmmu, h: H.Hart): (r: Dmmu) {
    d.(misaligned := d.last.ack && Misaligned(d.last), pmpFault := d.last.ack && !Reachable(h, d.last))
  }

  /** Rising edge (`dmem_req_seq`). */
  function Step(d: Dmmu, q: Req, rsp: Rsp, flush: bool, h: H.Hart, tlb: Option<Leaf>): (r: Dmmu)
  {
    Checked(
      if flush then Quiet(d).(priv := 3)
      else if d.state == 0 then (if q.ack then Start(d, q, h, tlb) else Quiet(d))
      else if rsp.ack then
        if d.state == 1 then GotPte1(d, q, h, rsp.rdata)
        else if d.state == 2 then GotPte0(d, q, h, rsp.rdata)
        else d.(state := 0, pageFault := false, last := d.last.(ack := false))
      else d.(pageFault := false, last := d.last.(ack := false)),
      h)
  }

  /** What memory is shown after the edge. */
  function Presented(d: Dmmu): (r: Req) {
    if d.pmpFault || d.pageFault || d.misaligned then NO_REQ else d.last
  }

  datatype MmuRsp = MmuRsp(ack: bool, rdata: bv32, tval: bv32, fault: bv32)

  /** The answer to the execute stage (`dmem_rsp_comb`). */
  function Respond(d: Dmmu, r: Rsp, q: Req): (s: MmuRsp) {
    var ack := (d.state == 3 && r.ack) || d.pageFault || d.pmpFault || d.misaligned || r.fault;
    var fault := if d.misaligned then MisalignedCause(d.op)
                 else if d.pageFault then PageCause(d.op)
                 else if r.fault || d.pmpFault then AccessCause(d.op)
                 else 0;
    MmuRsp(ack, if d.misaligned || d.pageFault then 0 else r.rdata, if fault != 0 then H.WordOf(q.addr) else 0, fault)
  }

  // ------------------------------------------------------ where a request stands

  predicate Idle(d: Dmmu) { d.state == 0 && !d.pageFault && !d.pmpFault && !d.misaligned && !d.last.ack }

  /** Progress of request `q` in state (`h`, `m`), which stay fixed while it is under way. */
  predicate Flight(d: Dmmu, h: H.Hart, m: Mem, q: Req) {
    && Latched(d, h, q)
    && d == Checked(d, h)
    && (if d.state == 0 then d.pageFault && !d.last.ack && Translate(h, m, q) == PageFault
        else if d.state == 1 then !d.pageFault && TranslationOn(h) && d.last == PteReq(Pte1Addr(RootOf(h), q.addr))
        else if d.state == 2 then !d.pageFault && TranslationOn(h) && AwaitsLeaf(d, h, m, q)
        else d.state == 3 && !d.pageFault && Translate(h, m, q).Pa?
             && d.last == q.(ack := true, addr := Translate(h, m, q).addr))
  }

  predicate AwaitsLeaf(d: Dmmu, h: H.Hart, m: Mem, q: Req) {
    match PteAt(WorldOf(h, m), Pte1Addr(RootOf(h), q.addr))
    case None => false
    case Some(p) =>
      !Level1Fault(WhoOf(h, q, EffPriv(h)), p) && !IsLeaf(p) && d.last == PteReq(Pte0Addr(p, q.addr))
  }

  /** Edges still needed at most; state 0 in flight is a fault already reported. */
  function Rank(d: Dmmu): (r: int) { if d.state == 0 then 0 else 3 - d.state }

  /** A TLB hit is trusted to be the leaf of the tables. */
  predicate TlbTrue(h: H.Hart, m: Mem, q: Req, tlb: Option<Leaf>) {
    q.ack && TranslationOn(h) && tlb.Some? ==> LeafOf(WorldOf(h, m), RootOf(h), q.addr) == tlb
  }

  lemma PteReadChecks(h: H.Hart, m: Mem, a: Addr)
    ensures Reachable(h, PteReq(a)) == PteReadable(WorldOf(h, m), a)
    ensures a % 4 == 0 ==> !Misaligned(PteReq(a))
    ensures MemAccess(m, PteReq(a)) == Rsp(true, Read(m, a, 4), false)
    ensures PteReadable(WorldOf(h, m), a) ==> PteAt(WorldOf(h, m), a) == Some(Read(m, a, 4))
    ensures !PteReadable(WorldOf(h, m), a) ==> PteAt(WorldOf(h, m), a) == None
  {
    hide Pmp.Allowed, PmaValid, Read, EffPriv;
  }

  lemma WordAligned(page: nat, i: nat)
    ensures (page * 0x1000 + i * 4) % 4 == 0
  {
    assert page * 0x1000 + i * 4 == 4 * (page * 0x400 + i);
  }

  lemma PteAddrsAligned(root: Addr, p: bv32, va: Addr)
    requires root % 0x1000 == 0
    ensures Pte1Addr(root, va) % 4 == 0 && Pte0Addr(p, va) % 4 == 0
  {
    hide Ppn, Vpn0, Vpn1;
    WordAligned(root / 0x1000, Vpn1(va));
    WordAligned(Ppn(p), Vpn0(va));
  }

  lemma QuietIsIdle(d: Dmmu, h: H.Hart)
    ensures Idle(Checked(Quiet(d), h)) && Idle(Checked(Quiet(d).(priv := 3), h))
  {
    hide Misaligned, Reachable;
  }

  /** With no request, or flushed, the unit stays idle. */
  lemma StaysIdle(d: Dmmu, q: Req, rsp: Rsp, flush: bool, h: H.Hart, tlb: Option<Leaf>)
    requires (flush || (Idle(d) && !q.ack))
    ensures Idle(Step(d, q, rsp, flush, h, tlb))
  {
    hide Idle, Checked, Quiet;
    QuietIsIdle(d, h);
    IdleState(d);
  }

  lemma IdleState(d: Dmmu)
    ensures Idle(d) ==> d.state == 0
  {
  }

  lemma TranslateHit(h: H.Hart, m: Mem, q: Req, l: Leaf)
    requires TranslationOn(h) && LeafOf(WorldOf(h, m), RootOf(h), q.addr) == Some(l)
    ensures Translate(h, m, q)
            == if LeafFault(WhoOf(h, q, EffPriv(h)), l.pte) then PageFault else Pa(LeafAddr(l.pte, l.mega, q.addr))
  {
    hide TranslationOn, Walk, LeafOf, LeafFault, LeafAddr, EffPriv, WhoOf, WorldOf, RootOf;
    HitIsWalk(WorldOf(h, m), RootOf(h), q.addr, WhoOf(h, q, EffPriv(h)));
  }

  lemma TranslateOff(h: H.Hart, m: Mem, q: Req)
    requires !TranslationOn(h)
    ensures Translate(h, m, q) == Pa(q.addr)
  {
    hide TranslationOn;
  }

  /** An idle unit takes a request up at once. */
  lemma Launch(d: Dmmu, q: Req, rsp: Rsp, h: H.Hart, m: Mem, tlb: Option<Leaf>)
    requires Idle(d) && q.ack && TlbTrue(h, m, q, tlb)
    ensures Flight(Step(d, q, rsp, false, h, tlb), h, m, q)
  {
    hide TranslationOn, Translate, LeafOf, LeafFault, LeafAddr, Misaligned, Reachable, EffPriv, WhoOf, WorldOf, RootOf,
      Pte1Addr, OpOf, Vpn0;
    CheckedTwice(Start(d, q, h, tlb), h);
    if !TranslationOn(h) {
      TranslateOff(h, m, q);
    } else if tlb.Some? {
      TranslateHit(h, m, q, tlb.value);
    }
  }

  lemma TranslateAt1(h: H.Hart, m: Mem, q: Req, p: bv32)
    requires TranslationOn(h) && PteAt(WorldOf(h, m), Pte1Addr(RootOf(h), q.addr)) == Some(p)
    ensures Level1Fault(WhoOf(h, q, EffPriv(h)), p) ==> Translate(h, m, q) == PageFault
    ensures !Level1Fault(WhoOf(h, q, EffPriv(h)), p) && IsLeaf(p) ==> Translate(h, m, q) == Pa(LeafAddr(p, true, q.addr))
  {
    hide TranslationOn, Level1Fault, Level0Fault, LeafAddr, EffPriv, WhoOf, WorldOf, RootOf, Pte1Addr, Pte0Addr,
      PteAt, IsLeaf;
  }

  lemma CheckedTwice(d: Dmmu, h: H.Hart)
    ensures Checked(Checked(d, h), h) == Checked(d, h)
  {
    hide Misaligned, Reachable;
  }

  predicate Latched(d: Dmmu, h: H.Hart, q: Req) {
    d.op == OpOf(q) && d.priv == EffPriv(h) && d.vpn0 == Vpn0(q.addr) && d.offset == q.addr % 0x1000
  }

  lemma AfterPte1(d: Dmmu, q: Req, h: H.Hart, m: Mem, p: bv32)
    requires Latched(d, h, q)
    requires TranslationOn(h) && PteAt(WorldOf(h, m), Pte1Addr(RootOf(h), q.addr)) == Some(p)
    ensures var n := Checked(GotPte1(d, q, h, p), h);
            Flight(n, h, m, q) && (n.state == 0 || n.state > 1)
  {
    hide TranslationOn, Level1Fault, LeafAddr, Misaligned, EffPriv, WhoOf, WorldOf, RootOf, Pte1Addr, OpOf, Vpn0,
      PteAt, PteSlot, IsLeaf, Reachable, Translate;
    TranslateAt1(h, m, q, p);
    CheckedTwice(GotPte1(d, q, h, p), h);
  }

  lemma PteArrives(d: Dmmu, q: Req, h: H.Hart, m: Mem, a: Addr)
    requires d == Checked(d, h) && d.last == PteReq(a) && !d.pmpFault
    ensures MemAccess(m, d.last).ack && PteAt(WorldOf(h, m), a) == Some(MemAccess(m, d.last).rdata)
  {
    hide Misaligned, WorldOf, PteAt, PteReadable, MemAccess, Read, Reachable;
    PteReadChecks(h, m, a);
  }

  /** While the first-level PTE is awaited: the read arrives and the walk moves on. */
  lemma AdvanceFrom1(d: Dmmu, q: Req, h: H.Hart, m: Mem, tlb: Option<Leaf>)
    requires Flight(d, h, m, q) && d.state == 1 && !d.pmpFault && !d.misaligned
    ensures var n := Step(d, q, MemAccess(m, d.last), false, h, tlb);
            Flight(n, h, m, q) && (n.state == 0 || n.state > 1)
  {
    hide TranslationOn, EffPriv, WhoOf, WorldOf, RootOf, Pte1Addr, OpOf, Vpn0, PteAt, MemAccess, Checked, GotPte1, PteReq,
      Translate;
    PteArrives(d, q, h, m, Pte1Addr(RootOf(h), q.addr));
    AfterPte1(d, q, h, m, MemAccess(m, d.last).rdata);
  }

  lemma AdvanceFrom2(d: Dmmu, q: Req, h: H.Hart, m: Mem, tlb: Option<Leaf>)
    requires Flight(d, h, m, q) && d.state == 2 && !d.pmpFault && !d.misaligned
    ensures var n := Step(d, q, MemAccess(m, d.last), false, h, tlb);
            Flight(n, h, m, q) && (n.state == 0 || n.state > 2)
  {
    hide TranslationOn, LeafFault, Misaligned, EffPriv, WhoOf, WorldOf, RootOf, Pte1Addr, OpOf, Vpn0, PteAt, Ppn, V,
      IsLeaf, CleanPointer, PteReadable, MemAccess, Read, Reachable, Pte0Addr;
    var p := PteAt(WorldOf(h, m), Pte1Addr(RootOf(h), q.addr)).value;
    PteReadChecks(h, m, Pte0Addr(p, q.addr));
  }

  /** A PTE read is never misaligned; refused, it means an access fault. */
  lemma PteRefused(d: Dmmu, h: H.Hart, m: Mem, q: Req)
    requires Flight(d, h, m, q) && (d.state == 1 || d.state == 2)
    ensures !d.misaligned && (d.pmpFault ==> Translate(h, m, q) == AccessFault)
  {
    hide TranslationOn, LeafFault, LeafAddr, Misaligned, EffPriv, WhoOf, WorldOf, RootOf, Pte1Addr, Pte0Addr, OpOf, Vpn0,
      PteAt, Ppn, V, IsLeaf, CleanPointer, PteReadable, MemAccess, Read, Reachable;
    var a := Pte1Addr(RootOf(h), q.addr);
    PteReadChecks(h, m, a);
    PteAddrsAligned(RootOf(h), 0, q.addr);
    if d.state == 2 {
      var p := PteAt(WorldOf(h, m), a).value;
      PteReadChecks(h, m, Pte0Addr(p, q.addr));
      PteAddrsAligned(RootOf(h), p, q.addr);
    }
  }

  /** Until it answers, each edge brings the request closer. */
  lemma Advance(d: Dmmu, q: Req, h: H.Hart, m: Mem, tlb: Option<Leaf>)
    requires Flight(d, h, m, q) && !Respond(d, MemAccess(m, Presented(d)), q).ack
    ensures var n := Step(d, q, MemAccess(m, Presented(d)), false, h, tlb);
            Flight(n, h, m, q) && Rank(n) < Rank(d)
    ensures Presented(d) == d.last && (d.state == 1 || d.state == 2)
  {
    hide Translate, TranslationOn, AwaitsLeaf, OpOf, EffPriv, Vpn0, Checked, Step;
    AckAtThree(m, d.last);
    FlightStates(d, h, m, q);
    if d.state == 1 {
      AdvanceFrom1(d, q, h, m, tlb);
    } else if d.state == 2 {
      AdvanceFrom2(d, q, h, m, tlb);
    }
  }

  lemma AckAtThree(m: Mem, q: Req)
    ensures q.ack ==> MemAccess(m, q).ack
  {
    hide Read, DeviceAddress, ScResult;
  }

  lemma FlightStates(d: Dmmu, h: H.Hart, m: Mem, q: Req)
    requires Flight(d, h, m, q)
    ensures 0 <= d.state <= 3 && (d.state == 0 ==> d.pageFault) && (d.state == 3 ==> d.last.ack)
  {
    hide Translate, TranslationOn, AwaitsLeaf, OpOf, EffPriv, Vpn0, Checked;
  }

  /** A request that was not an access fault by translation, at state 3. */
  lemma AccessAt3(d: Dmmu, h: H.Hart, m: Mem, q: Req)
    requires Flight(d, h, m, q) && d.state == 3
    ensures d.misaligned ==> Access(h, m, q) == Fault(MisalignedCause(d.op))
    ensures !d.misaligned && d.pmpFault ==> Access(h, m, q) == Fault(AccessCause(d.op))
    ensures !d.misaligned && !d.pmpFault ==>
              var r := MemAccess(m, d.last);
              r.ack && Access(h, m, q) == if r.fault then Fault(AccessCause(d.op)) else Done(r.rdata, Commit(m, d.last, r))
  {
    hide Translate, TranslationOn, AwaitsLeaf, OpOf, EffPriv, Vpn0, MemAccess, Commit, Misaligned, Reachable,
      MisalignedCause, AccessCause;
    AckAtThree(m, d.last);
  }

  lemma CausesNonzero(op: int)
    ensures MisalignedCause(op) != 0 && AccessCause(op) != 0 && PageCause(op) != 0
  {
  }

  lemma NothingCommitted(m: Mem)
    ensures MemAccess(m, NO_REQ) == NO_RSP && Commit(m, NO_REQ, NO_RSP) == m
  {
  }

  predicate Answers(s: MmuRsp, q: Req, r: Result) {
    match r
    case Fault(c) => s.ack && s.fault == c && c != 0 && s.tval == H.WordOf(q.addr)
    case Done(v, _) => s.ack && s.fault == 0 && s.rdata == v
  }

  lemma AnswerEarly(d: Dmmu, h: H.Hart, m: Mem, q: Req)
    requires Flight(d, h, m, q)
    ensures d.state != 3 && (d.pageFault || d.pmpFault) ==>
              && Answers(Respond(d, NO_RSP, q), q, Access(h, m, q)) && Access(h, m, q).Fault?
              && Presented(d) == NO_REQ
  {
    hide Translate, TranslationOn, AwaitsLeaf, OpOf, EffPriv, Vpn0, MemAccess, Commit, Misaligned, Reachable,
      MisalignedCause, AccessCause, PageCause, H.WordOf;
    CausesNonzero(d.op);
    if d.state == 1 || d.state == 2 { PteRefused(d, h, m, q); }
  }

  lemma AnswerLate(d: Dmmu, h: H.Hart, m: Mem, q: Req)
    requires Flight(d, h, m, q) && d.state == 3
    ensures Answers(Respond(d, MemAccess(m, Presented(d)), q), q, Access(h, m, q))
  {
    hide Access, Translate, TranslationOn, AwaitsLeaf, OpOf, EffPriv, Vpn0, MemAccess, Commit, Misaligned, Reachable,
      MisalignedCause, AccessCause, PageCause, H.WordOf;
    CausesNonzero(d.op);
    NothingCommitted(m);
    AccessAt3(d, h, m, q);
  }

  /** The memory the answering edge leaves behind: changed exactly as the access says. */
  function MemAfter(m: Mem, r: Result): (n: Mem) { if r.Done? then r.mem else m }

  /** When the unit answers, it answers what the access as one operation would,
      and the edge that retires the instruction commits exactly its effect. */
  lemma Answer(d: Dmmu, h: H.Hart, m: Mem, q: Req)
    requires Flight(d, h, m, q) && Respond(d, MemAccess(m, Presented(d)), q).ack
    ensures Answers(Respond(d, MemAccess(m, Presented(d)), q), q, Access(h, m, q))
    ensures Commit(m, Presented(d), MemAccess(m, Presented(d))) == MemAfter(m, Access(h, m, q))
  {
    hide Access, Flight, MemAccess, Commit, Answers, MisalignedCause, AccessCause, PageCause, H.WordOf;
    NothingCommitted(m);
    FlightStates(d, h, m, q);
    if d.state == 3 {
      AnswerLate(d, h, m, q);
      CommitAt3(d, h, m, q);
    } else {
      if d.state != 0 {
        PteRefused(d, h, m, q);
        WalkReads(d, h, m, q);
      }
      NoFaultYet(d, m, q);
      AnswerEarly(d, h, m, q);
    }
  }

  lemma WalkReads(d: Dmmu, h: H.Hart, m: Mem, q: Req)
    requires Flight(d, h, m, q) && (d.state == 1 || d.state == 2)
    ensures d.last.isLoad && !d.last.isAmo
  {
    hide Translate, TranslationOn, OpOf, EffPriv, Vpn0, Level1Fault, IsLeaf, Pte0Addr, Pte1Addr, RootOf, PteAt, Checked;
  }

  /** Before state 3 only a fault answers. */
  lemma NoFaultYet(d: Dmmu, m: Mem, q: Req)
    requires d.state != 3 && Respond(d, MemAccess(m, Presented(d)), q).ack
    requires if d.state == 0 then d.pageFault else d.last.isLoad && !d.last.isAmo && !d.misaligned
    ensures d.pageFault || d.pmpFault
  {
    hide Read, MisalignedCause, AccessCause, PageCause, H.WordOf;
  }

  lemma CommitFault(m: Mem, q: Req, r: Rsp)
    requires r.fault
    ensures Commit(m, q, r) == m
  {
  }

  lemma CommitAt3(d: Dmmu, h: H.Hart, m: Mem, q: Req)
    requires Flight(d, h, m, q) && d.state == 3
    ensures Commit(m, Presented(d), MemAccess(m, Presented(d))) == MemAfter(m, Access(h, m, q))
  {
    hide Access, Flight, MemAccess, Commit, MisalignedCause, AccessCause, PageCause;
    NothingCommitted(m);
    AccessAt3(d, h, m, q);
    FlightFlags(d, h, m, q);
    if !d.misaligned && !d.pmpFault && MemAccess(m, d.last).fault {
      CommitFault(m, d.last, MemAccess(m, d.last));
    }
  }

  lemma FlightFlags(d: Dmmu, h: H.Hart, m: Mem, q: Req)
    requires Flight(d, h, m, q)
    ensures d.pageFault == (d.state == 0)
  {
    hide Translate, TranslationOn, AwaitsLeaf, OpOf, EffPriv, Vpn0, Checked;
  }

  /** Until it answers, memory is not touched. */
  lemma NoCommitYet(d: Dmmu, h: H.Hart, m: Mem, q: Req)
    requires Flight(d, h, m, q) && (d.state == 1 || d.state == 2)
    ensures Commit(m, d.last, MemAccess(m, d.last)) == m
  {
    hide MemAccess, Commit, Translate, TranslationOn, OpOf, EffPriv, Vpn0, Checked, Level1Fault, IsLeaf, Pte0Addr, Pte1Addr;
    LoadCommitsNothing(m, d.last, MemAccess(m, d.last));
  }

  /** After a successful answer the unit is idle again. */
  lemma IdleAfterDone(d: Dmmu, h: H.Hart, m: Mem, q: Req, tlb: Option<Leaf>)
    requires Flight(d, h, m, q) && d.state == 3 && MemAccess(m, Presented(d)).ack
    ensures Idle(Step(d, q, MemAccess(m, Presented(d)), false, h, tlb))
  {
    hide MemAccess, Translate, TranslationOn, OpOf, EffPriv, Vpn0, Misaligned, Reachable;
  }

  /** The request bit itself plays no part in how a request is served. */
  lemma TranslateAck(h: H.Hart, m: Mem, q: Req, b: bool)
    ensures Translate(h, m, q.(ack := b)) == Translate(h, m, q) && WhoOf(h, q.(ack := b), EffPriv(h)) == WhoOf(h, q, EffPriv(h))
  {
    hide TranslationOn, Walk, EffPriv, WorldOf, RootOf;
  }

  lemma FlightAck(d: Dmmu, h: H.Hart, m: Mem, q: Req, b: bool)
    ensures Flight(d, h, m, q) == Flight(d, h, m, q.(ack := b))
    ensures Access(h, m, q) == Access(h, m, q.(ack := b))
  {
    hide Translate, WhoOf, TranslationOn, Walk, EffPriv, WorldOf, RootOf, Pte1Addr, Pte0Addr, Vpn0, PteAt, IsLeaf, Level1Fault,
      Misaligned, Reachable, MemAccess, Commit;
    TranslateAck(h, m, q, b);
  }

  lemma StepAck(d: Dmmu, q: Req, rsp: Rsp, flush: bool, h: H.Hart, tlb: Option<Leaf>, b: bool)
    requires d.state != 0
    ensures Step(d, q, rsp, flush, h, tlb) == Step(d, q.(ack := b), rsp, flush, h, tlb)
  {
    hide TranslationOn, EffPriv, RootOf, LeafAddr, PteSlot, Ppn, IsLeaf, Level1Fault, Level0Fault, Misaligned, Reachable;
  }

  lemma RespondAddr(d: Dmmu, r: Rsp, q: Req, p: Req)
    requires q.addr == p.addr
    ensures Respond(d, r, q) == Respond(d, r, p)
  {
    hide MisalignedCause, PageCause, AccessCause, H.WordOf;
  }
}
