/** The instruction side of the MMU as an object (src/mmu.hpp:498-657), between
    flushes, with the translation cache it shares, and what it puts there. */
module InstrUnit {
  import opened Options
  import opened Memory
  import opened Immu
  import Sv32
  import Tlb
  import DataUnit
  import Pmp
  import H = Hart

  /** The leaf an edge adds to the cache. */
  function Learned(d: Immu, rsp: Rsp, h: H.Hart): (l: Option<Sv32.Leaf>) {
    if Ready(d, rsp) || !rsp.ack then None
    else if d.state == 1 && !Sv32.Level1Fault(Sv32.Fetch(h.priv), rsp.rdata) && Sv32.IsLeaf(rsp.rdata) then
      Some(Sv32.Leaf(rsp.rdata, true))
    else if d.state == 2 && !Sv32.Level0Fault(Sv32.Fetch(h.priv), rsp.rdata) then Some(Sv32.Leaf(rsp.rdata, false))
    else None
  }

  function Cached(t: seq<Tlb.Entry>, d: Immu, satp: bv32, next: Addr, rsp: Rsp, h: H.Hart): (r: seq<Tlb.Entry>)
    requires |t| > 0
  {
    if Ready(d, rsp) then
      if TranslationOn(h) then Tlb.Touched(t, Tlb.Key(h.Get(H.SATP)), next / 0x1000) else t
    else
      match Learned(d, rsp, h)
      case Some(l) => Tlb.Stored(t, Tlb.NewEntry(Tlb.Key(satp), d.pc / 0x1000, l.pte, l.mega))
      case None => t
  }

  class Unit {
    var state: int
    var pageFault: bool
    var pmpFault: bool
    var pc: Addr
    var vpn0: Index
    var offset: nat
    var last: IReq
    var satp: bv32

    function View(): (d: Immu)
      reads this
    {
      Immu(state, pageFault, pmpFault, pc, vpn0, offset, last)
    }

    constructor (entry: Addr)
      ensures View() == Immu(0, false, false, entry, 0, 0, IReq(false, 0))
    {
      state, pageFault, pmpFault, pc := 0, false, false, entry;
      vpn0, offset, last, satp := 0, 0, IReq(false, 0), 0;
    }

    method Fault()
      modifies this
      ensures View() == Refuse(old(View())) && satp == old(satp)
    {
      pageFault := true;
      last := last.(ack := false);
    }

    method Request(st: int, a: Addr)
      modifies this
      ensures View() == Ask(old(View()), st, a) && satp == old(satp)
    {
      pageFault := false;
      last := IReq(true, a);
      state := st;
    }

    method Probe(tlb: Tlb.Unit, addr: Addr) returns (l: Option<Sv32.Leaf>)
      requires tlb.Valid()
      modifies tlb.table
      ensures l == DataUnit.Offered(old(tlb.table[..]), satp, addr)
      ensures tlb.table[..] == Tlb.Touched(old(tlb.table[..]), Tlb.Key(satp), addr / 0x1000)
    {
      hide Tlb.Lookup, Tlb.Touched, Tlb.Key, Sv32.V;
      var e := tlb.Find(Tlb.Key(satp), addr / 0x1000);
      l := if e.Some? && Sv32.V(e.value.pte) then Some(Sv32.Leaf(e.value.pte, e.value.mega)) else None;
    }

    /** The next address starts: cache hit, walk, or no translation. */
    method Begin(next: Addr, h: H.Hart, tlb: Tlb.Unit)
      requires tlb.Valid()
      modifies this, tlb.table
      ensures View() == Start(old(View()), next, h, DataUnit.Offered(old(tlb.table[..]), h.Get(H.SATP), next))
      ensures satp == h.Get(H.SATP)
      ensures tlb.table[..] == if TranslationOn(h) then Tlb.Touched(old(tlb.table[..]), Tlb.Key(h.Get(H.SATP)), next / 0x1000)
                               else old(tlb.table[..])
    {
      hide TranslationOn, Sv32.Vpn0, Sv32.LeafFault, Sv32.LeafAddr, RootOf, Sv32.Pte1Addr, Tlb.Touched, Tlb.Key,
        DataUnit.Offered, Ask, Refuse, WordOf;
      pc := next;
      satp := h.Get(H.SATP);
      vpn0 := Sv32.Vpn0(pc);
      offset := pc % 0x1000;
      if TranslationOn(h) {
        var hit := Probe(tlb, pc);
        if hit.Some? {
          if Sv32.LeafFault(Sv32.Fetch(h.priv), hit.value.pte) {
            Fault();
          } else {
            Request(3, Sv32.LeafAddr(hit.value.pte, hit.value.mega, WordOf(pc)));
          }
        } else {
          Request(1, Sv32.Pte1Addr(RootOf(h), pc));
        }
      } else {
        Request(3, WordOf(pc));
      }
    }

    method TakePte1(h: H.Hart, tlb: Tlb.Unit, pte: bv32)
      requires tlb.Valid()
      modifies this, tlb.table
      ensures View() == GotPte1(old(View()), h, pte) && satp == old(satp) && pc == old(pc)
      ensures tlb.table[..] == if !Sv32.Level1Fault(Sv32.Fetch(h.priv), pte) && Sv32.IsLeaf(pte)
                               then Tlb.Stored(old(tlb.table[..]), Tlb.NewEntry(Tlb.Key(satp), pc / 0x1000, pte, true))
                               else old(tlb.table[..])
    {
      hide Sv32.Level1Fault, Sv32.IsLeaf, Sv32.LeafAddr, Sv32.PteSlot, Tlb.Key, Tlb.Stored, Tlb.NewEntry, WordOf;
      if Sv32.Level1Fault(Sv32.Fetch(h.priv), pte) {
        Fault();
      } else if Sv32.IsLeaf(pte) {
        Request(3, Sv32.LeafAddr(pte, true, WordOf(pc)));
        tlb.Store(Tlb.Key(satp), pc / 0x1000, pte, true);
      } else {
        Request(2, Sv32.PteSlot(pte, vpn0));
      }
    }

    method TakePte0(h: H.Hart, tlb: Tlb.Unit, pte: bv32)
      requires tlb.Valid()
      modifies this, tlb.table
      ensures View() == GotPte0(old(View()), h, pte) && satp == old(satp) && pc == old(pc)
      ensures tlb.table[..] == if !Sv32.Level0Fault(Sv32.Fetch(h.priv), pte)
                               then Tlb.Stored(old(tlb.table[..]), Tlb.NewEntry(Tlb.Key(satp), pc / 0x1000, pte, false))
                               else old(tlb.table[..])
    {
      hide Sv32.Level0Fault, Sv32.Ppn, Tlb.Key, Tlb.Stored, Tlb.NewEntry;
      if Sv32.Level0Fault(Sv32.Fetch(h.priv), pte) {
        Fault();
      } else {
        Request(3, (Sv32.Ppn(pte) * 0x1000 + (offset - offset % 4)) % SPACE);
        tlb.Store(Tlb.Key(satp), pc / 0x1000, pte, false);
      }
    }

    method Check(h: H.Hart)
      modifies this
      ensures View() == Checked(old(View()), h) && satp == old(satp)
    {
      hide Executable, Pmp.Allowed, Sv32.PmaValid;
      pmpFault := false;
      if last.ack { pmpFault := !Reachable(h, View()); }
    }

    /** One clock edge without a flush; `next` is the address to start on when ready. */
    method Edge(rsp: Rsp, next: Addr, h: H.Hart, tlb: Tlb.Unit)
      requires tlb.Valid()
      modifies this, tlb.table
      ensures View() == Step(old(View()), rsp, next, h, DataUnit.Offered(old(tlb.table[..]), h.Get(H.SATP), next))
      ensures tlb.table[..] == Cached(old(tlb.table[..]), old(View()), old(satp), next, rsp, h)
      ensures satp == if Ready(old(View()), rsp) then h.Get(H.SATP) else old(satp)
    {
      hide TranslationOn, RootOf, Sv32.Level1Fault, Sv32.Level0Fault, Sv32.IsLeaf, DataUnit.Offered, Checked, Start,
        GotPte1, GotPte0, Tlb.Touched, Tlb.Stored, Tlb.NewEntry, Tlb.Key, Ready;
      if Ready(View(), rsp) {
        Begin(next, h, tlb);
      } else if rsp.ack {
        if state == 1 {
          TakePte1(h, tlb, rsp.rdata);
        } else if state == 2 {
          TakePte0(h, tlb, rsp.rdata);
        } else {
          state := 0;
          last := last.(ack := false);
        }
      } else {
        pageFault := false;
        last := last.(ack := false);
      }
      Check(h);
    }
  }

  // ---------------------------------------------------------- what is cached is true

  lemma PteArrives(d: Immu, h: H.Hart, m: Mem, a: Addr)
    requires d == Checked(d, h) && d.last == IReq(true, a) && !d.pmpFault && d.state != 3
    ensures Data(m, d.last).ack && Sv32.PteAt(WorldOf(h, m), a) == Some(Data(m, d.last).rdata)
  {
    hide Pmp.Allowed, Sv32.PmaValid, Read;
  }

  /** While a fetch is under way, the leaf put into the cache is the one the page
      tables hold for its address. */
  lemma LearnedIsLeaf(d: Immu, h: H.Hart, m: Mem)
    requires Flight(d, h, m)
    requires Learned(d, Data(m, d.last), h).Some?
    ensures TranslationOn(h)
    ensures Sv32.LeafOf(WorldOf(h, m), RootOf(h), d.pc) == Learned(d, Data(m, d.last), h)
  {
    hide Sv32.PteAt, Sv32.Pte1Addr, Sv32.Pte0Addr, Sv32.LeafFault, Sv32.Level1Fault, Sv32.Level0Fault, Sv32.IsLeaf,
      Sv32.LeafOf, Data, TranslationOn, Translate, Checked, WorldOf, RootOf;
    var a, pte := Sv32.Pte1Addr(RootOf(h), d.pc), Data(m, d.last).rdata;
    if d.state == 1 {
      PteArrives(d, h, m, a);
      DataUnit.LeafAt1(WorldOf(h, m), RootOf(h), d.pc, Sv32.Fetch(h.priv), pte);
    } else {
      var p := Sv32.PteAt(WorldOf(h, m), a).value;
      PteArrives(d, h, m, Sv32.Pte0Addr(p, d.pc));
      DataUnit.LeafAt0(WorldOf(h, m), RootOf(h), d.pc, Sv32.Fetch(h.priv), p, pte);
    }
  }

  /** So every store the instruction side makes is an honest one. */
  lemma LearnedHonestly(d: Immu, h: H.Hart, m: Mem, root: nat -> Addr, priv: bv32)
    requires Flight(d, h, m)
    requires Learned(d, Data(m, d.last), h).Some?
    requires (forall k :: root(k) % 0x1000 == 0) && root(Tlb.Key(h.Get(H.SATP))) == RootOf(h)
    requires priv != 3
    ensures Tlb.Honest(Tlb.LeavesOf(Sv32.World(m, h.pmp, priv), root),
                       Tlb.Insert(Tlb.Key(h.Get(H.SATP)), d.pc / 0x1000, Learned(d, Data(m, d.last), h).value))
  {
    hide Sv32.LeafOf, Data, RootOf, Flight, Learned, Tlb.Key, Tlb.PageAddr;
    LearnedIsLeaf(d, h, m);
    Sv32.SameLeaf(WorldOf(h, m), priv, RootOf(h), d.pc);
    Tlb.LeafOfPage(Sv32.World(m, h.pmp, priv), RootOf(h), d.pc);
  }
}
