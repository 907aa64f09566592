/** The data side of the MMU as an object (src/mmu.hpp:174-436), with the
    translation cache it shares, and what it puts there. */
module DataUnit {
  import opened Options
  import opened Memory
  import opened Mmu
  import Sv32
  import Tlb
  import H = Hart

  /** Cached leaf for an address; an entry whose pte is not valid counts as a miss. */
  function Offered(t: seq<Tlb.Entry>, satp: bv32, addr: Addr): (l: Option<Sv32.Leaf>) {
    match Tlb.Lookup(t, Tlb.Key(satp), addr / 0x1000)
    case Some(e) => if Sv32.V(e.pte) then Some(Sv32.Leaf(e.pte, e.mega)) else None
    case None => None
  }

  /** The leaf an edge adds to the cache: the one that ends the walk well. */
  function Learned(d: Dmmu, q: Req, rsp: Rsp, flush: bool, h: H.Hart): (l: Option<Sv32.Leaf>) {
    if flush || !rsp.ack then None
    else if d.state == 1 && !Sv32.Level1Fault(WhoOf(h, q, d.priv), rsp.rdata) && Sv32.IsLeaf(rsp.rdata) then
      Some(Sv32.Leaf(rsp.rdata, true))
    else if d.state == 2 && !Sv32.Level0Fault(WhoOf(h, q, d.priv), rsp.rdata) then Some(Sv32.Leaf(rsp.rdata, false))
    else None
  }

  predicate Consults(d: Dmmu, q: Req, flush: bool, h: H.Hart) { !flush && d.state == 0 && q.ack && TranslationOn(h) }

  /** The cache after an edge; `satp` is the value latched when the request came. */
  function Cached(t: seq<Tlb.Entry>, d: Dmmu, satp: bv32, q: Req, rsp: Rsp, flush: bool, h: H.Hart): (r: seq<Tlb.Entry>)
    requires |t| > 0
    ensures |r| == |t|
  {
    if Consults(d, q, flush, h) then Tlb.Touched(t, Tlb.Key(h.Get(H.SATP)), q.addr / 0x1000)
    else
      match Learned(d, q, rsp, flush, h)
      case Some(l) => Tlb.Stored(t, Tlb.NewEntry(Tlb.Key(satp), q.addr / 0x1000, l.pte, l.mega))
      case None => t
  }

  /** The latched satp after an edge. */
  function NextSatp(d: Dmmu, satp: bv32, q: Req, flush: bool, h: H.Hart): (r: bv32) {
    if flush then 0 else if d.state != 0 then satp else if q.ack then h.Get(H.SATP) else 0
  }

  class Unit {
    var state: int
    var pageFault: bool
    var pmpFault: bool
    var misaligned: bool
    var op: int
    var priv: bv32
    var vpn0: Index
    var offset: nat
    var last: Req
    var satp: bv32

    function View(): (d: Dmmu)
      reads this
    {
      Dmmu(state, pageFault, pmpFault, misaligned, op, priv, vpn0, offset, last)
    }

    constructor ()
      ensures View() == IDLE
    {
      state, pageFault, pmpFault, misaligned := 0, false, false, false;
      op, priv, vpn0, offset, last, satp := 0, 3, 0, 0, NO_REQ, 0;
    }

    /** Pass the request itself on to memory, at its translated address. */
    method Forward(q: Req, pa: Addr)
      modifies this
      ensures View() == Dispatch(old(View()), q, pa) && satp == old(satp)
    {
      pageFault := false;
      last := q.(ack := true, addr := pa);
      state := 3;
    }

    method Fault()
      modifies this
      ensures View() == Refuse(old(View())) && satp == old(satp)
    {
      pageFault := true;
      state := 0;
      last := last.(ack := false);
    }

    method ReadPte(level: int, a: Addr)
      modifies this
      ensures View() == Fetch(old(View()), level, a) && satp == old(satp)
    {
      pageFault := false;
      last := PteReq(a);
      state := level;
    }

    method Probe(tlb: Tlb.Unit, addr: Addr) returns (l: Option<Sv32.Leaf>)
      requires tlb.Valid()
      modifies tlb.table
      ensures l == Offered(old(tlb.table[..]), satp, addr)
      ensures tlb.table[..] == Tlb.Touched(old(tlb.table[..]), Tlb.Key(satp), addr / 0x1000)
    {
      hide Tlb.Lookup, Tlb.Touched, Tlb.Key, Sv32.V;
      var e := tlb.Find(Tlb.Key(satp), addr / 0x1000);
      l := if e.Some? && Sv32.V(e.value.pte) then Some(Sv32.Leaf(e.value.pte, e.value.mega)) else None;
    }

    /** A request arrives at the idle unit. */
    method Begin(q: Req, h: H.Hart, tlb: Tlb.Unit)
      requires tlb.Valid()
      modifies this, tlb.table
      ensures View() == Start(old(View()), q, h, Offered(old(tlb.table[..]), h.Get(H.SATP), q.addr))
      ensures satp == h.Get(H.SATP)
      ensures tlb.table[..] == if TranslationOn(h) then Tlb.Touched(old(tlb.table[..]), Tlb.Key(h.Get(H.SATP)), q.addr / 0x1000)
                               else old(tlb.table[..])
    {
      hide TranslationOn, EffPriv, OpOf, Sv32.Vpn0, Sv32.LeafFault, Sv32.LeafAddr, WhoOf, RootOf, Sv32.Pte1Addr,
        Tlb.Touched, Tlb.Key, Offered, Dispatch, Refuse, Fetch;
      satp := h.Get(H.SATP);
      vpn0 := Sv32.Vpn0(q.addr);
      offset := q.addr % 0x1000;
      priv := EffPriv(h);
      op := OpOf(q);
      if TranslationOn(h) {
        var hit := Probe(tlb, q.addr);
        if hit.Some? {
          if Sv32.LeafFault(WhoOf(h, q, priv), hit.value.pte) {
            Fault();
          } else {
            Forward(q, Sv32.LeafAddr(hit.value.pte, hit.value.mega, q.addr));
          }
        } else {
          ReadPte(1, Sv32.Pte1Addr(RootOf(h), q.addr));
        }
      } else {
        Forward(q, q.addr);
      }
    }

    /** A PTE read for the running walk comes back. */
    method TakePte1(q: Req, h: H.Hart, tlb: Tlb.Unit, pte: bv32)
      requires tlb.Valid()
      modifies this, tlb.table
      ensures View() == GotPte1(old(View()), q, h, pte) && satp == old(satp)
      ensures tlb.table[..] == if !Sv32.Level1Fault(WhoOf(h, q, old(priv)), pte) && Sv32.IsLeaf(pte)
                               then Tlb.Stored(old(tlb.table[..]), Tlb.NewEntry(Tlb.Key(satp), q.addr / 0x1000, pte, true))
                               else old(tlb.table[..])
    {
      hide Sv32.Level1Fault, Sv32.IsLeaf, Sv32.LeafAddr, Sv32.PteSlot, WhoOf, Tlb.Key, Tlb.Stored, Tlb.NewEntry,
        Dispatch, Refuse, Fetch;
      if Sv32.Level1Fault(WhoOf(h, q, priv), pte) {
        Fault();
      } else if Sv32.IsLeaf(pte) {
        Forward(q, Sv32.LeafAddr(pte, true, q.addr));
        tlb.Store(Tlb.Key(satp), q.addr / 0x1000, pte, true);
      } else {
        ReadPte(2, Sv32.PteSlot(pte, vpn0));
      }
    }

    method TakePte0(q: Req, h: H.Hart, tlb: Tlb.Unit, pte: bv32)
      requires tlb.Valid()
      modifies this, tlb.table
      ensures View() == GotPte0(old(View()), q, h, pte) && satp == old(satp)
      ensures tlb.table[..] == if !Sv32.Level0Fault(WhoOf(h, q, old(priv)), pte)
                               then Tlb.Stored(old(tlb.table[..]), Tlb.NewEntry(Tlb.Key(satp), q.addr / 0x1000, pte, false))
                               else old(tlb.table[..])
    {
      hide Sv32.Level0Fault, Sv32.Ppn, WhoOf, Tlb.Key, Tlb.Stored, Tlb.NewEntry, Dispatch, Refuse;
      if Sv32.Level0Fault(WhoOf(h, q, priv), pte) {
        Fault();
      } else {
        Forward(q, (Sv32.Ppn(pte) * 0x1000 + offset) % SPACE);
        tlb.Store(Tlb.Key(satp), q.addr / 0x1000, pte, false);
      }
    }

    method Settle()
      modifies this
      ensures View() == old(View()).(state := 0, pageFault := false, last := old(last).(ack := false)) && satp == old(satp)
    {
      pageFault := false;
      state := 0;
      last := last.(ack := false);
    }

    method Clear()
      modifies this
      ensures View() == Quiet(old(View())) && satp == 0
    {
      Settle();
      op, vpn0, offset, satp := 0, 0, 0, 0;
    }

    /** Alignment, PMP and PMA of whatever is about to go out. */
    method Check(h: H.Hart)
      modifies this
      ensures View() == Checked(old(View()), h) && satp == old(satp)
    {
      hide Misaligned, Reachable;
      misaligned := false;
      pmpFault := false;
      if last.ack {
        misaligned := Misaligned(last);
        pmpFault := !Reachable(h, last);
      }
    }

    /** One clock edge. */
    method Edge(q: Req, rsp: Rsp, flush: bool, h: H.Hart, tlb: Tlb.Unit)
      requires tlb.Valid()
      modifies this, tlb.table
      ensures View() == Step(old(View()), q, rsp, flush, h, Offered(old(tlb.table[..]), h.Get(H.SATP), q.addr))
      ensures tlb.table[..] == Cached(old(tlb.table[..]), old(View()), old(satp), q, rsp, flush, h)
      ensures satp == NextSatp(old(View()), old(satp), q, flush, h)
    {
      hide TranslationOn, EffPriv, OpOf, WhoOf, RootOf, Sv32.Level1Fault, Sv32.Level0Fault, Sv32.IsLeaf, Offered,
        Checked, Start, GotPte1, GotPte0, Quiet, Tlb.Lookup, Tlb.Touched, Tlb.Stored, Tlb.NewEntry, Tlb.Key;
      if flush {
        Clear();
        priv := 3;
      } else if state == 0 {
        if q.ack {
          Begin(q, h, tlb);
        } else {
          Clear();
        }
      } else if rsp.ack {
        if state == 1 {
          TakePte1(q, h, tlb, rsp.rdata);
        } else if state == 2 {
          TakePte0(q, h, tlb, rsp.rdata);
        } else {
          Settle();
        }
      } else {
        pageFault := false;
        last := last.(ack := false);
      }
      Check(h);
    }
  }

  // ---------------------------------------------------------- what is cached is true

  lemma LeafAt1(w: Sv32.World, root: Addr, va: Addr, who: Sv32.Who, p: bv32)
    requires root % 0x1000 == 0
    requires Sv32.PteAt(w, Sv32.Pte1Addr(root, va)) == Some(p) && !Sv32.Level1Fault(who, p) && Sv32.IsLeaf(p)
    ensures Sv32.LeafOf(w, root, va) == Some(Sv32.Leaf(p, true))
  {
    hide Sv32.PteAt, Sv32.Pte1Addr, Sv32.Pte0Addr, Sv32.LeafFault, Sv32.Ppn, Sv32.V, Sv32.IsLeaf;
    LeafNotClean(p);
  }

  lemma LeafNotClean(p: bv32)
    ensures Sv32.IsLeaf(p) ==> !Sv32.CleanPointer(p)
  {
  }

  lemma LeafAt0(w: Sv32.World, root: Addr, va: Addr, who: Sv32.Who, p: bv32, leaf: bv32)
    requires root % 0x1000 == 0
    requires Sv32.PteAt(w, Sv32.Pte1Addr(root, va)) == Some(p) && !Sv32.Level1Fault(who, p) && !Sv32.IsLeaf(p)
    requires Sv32.PteAt(w, Sv32.Pte0Addr(p, va)) == Some(leaf) && !Sv32.Level0Fault(who, leaf)
    ensures Sv32.LeafOf(w, root, va) == Some(Sv32.Leaf(leaf, false))
  {
    hide Sv32.PteAt, Sv32.Pte1Addr, Sv32.Pte0Addr, Sv32.Ppn;
  }

  /** While a request is under way, the leaf put into the cache is the one the page
      tables hold for its address. */
  lemma LearnedIsLeaf(d: Dmmu, h: H.Hart, m: Mem, q: Req)
    requires Flight(d, h, m, q) && !d.pmpFault && !d.misaligned
    requires Learned(d, q, MemAccess(m, d.last), false, h).Some?
    ensures TranslationOn(h)
    ensures Sv32.LeafOf(WorldOf(h, m), RootOf(h), q.addr) == Learned(d, q, MemAccess(m, d.last), false, h)
  {
    hide Sv32.PteAt, Sv32.Pte1Addr, Sv32.Pte0Addr, Sv32.LeafFault, Sv32.Level1Fault, Sv32.Level0Fault, Sv32.IsLeaf,
      Sv32.LeafOf, MemAccess, TranslationOn, Translate, Checked, WhoOf, WorldOf, RootOf, EffPriv, PteReq;
    var a, pte := Sv32.Pte1Addr(RootOf(h), q.addr), MemAccess(m, d.last).rdata;
    if d.state == 1 {
      PteArrives(d, q, h, m, a);
      LeafAt1(WorldOf(h, m), RootOf(h), q.addr, WhoOf(h, q, d.priv), pte);
    } else {
      var p := Sv32.PteAt(WorldOf(h, m), a).value;
      PteArrives(d, q, h, m, Sv32.Pte0Addr(p, q.addr));
      LeafAt0(WorldOf(h, m), RootOf(h), q.addr, WhoOf(h, q, d.priv), p, pte);
    }
  }

  /** So every store the data side makes is an honest one. */
  lemma LearnedHonestly(d: Dmmu, h: H.Hart, m: Mem, q: Req, root: nat -> Addr, priv: bv32)
    requires Flight(d, h, m, q) && !d.pmpFault && !d.misaligned
    requires Learned(d, q, MemAccess(m, d.last), false, h).Some?
    requires (forall k :: root(k) % 0x1000 == 0) && root(Tlb.Key(h.Get(H.SATP))) == RootOf(h)
    requires priv != 3 && EffPriv(h) != 3
    ensures Tlb.Honest(Tlb.LeavesOf(Sv32.World(m, h.pmp, priv), root),
                       Tlb.Insert(Tlb.Key(h.Get(H.SATP)), q.addr / 0x1000, Learned(d, q, MemAccess(m, d.last), false, h).value))
  {
    hide Sv32.LeafOf, MemAccess, TranslationOn, RootOf, EffPriv, Flight, Learned, Tlb.Key, Tlb.PageAddr;
    LearnedIsLeaf(d, h, m, q);
    Sv32.SameLeaf(WorldOf(h, m), priv, RootOf(h), q.addr);
    Tlb.LeafOfPage(Sv32.World(m, h.pmp, priv), RootOf(h), q.addr);
  }
}
