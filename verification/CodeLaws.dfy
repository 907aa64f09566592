/** The program in memory, in numbers: which word the machine decodes at an address
    (src/fetch.hpp:39-223, src/decode.hpp:343-381, src/mmu.hpp:438-657). */
module CodeLaws {
  import opened Memory
  import opened Isa
  import opened Sequential
  import F = FetchSide
  import Fetch
  import Im = Immu
  import D = Decode
  import Bits
  import H = Hart

  lemma Halved(w: bv32)
    ensures ((w >> 1) as bv31) as int == Bits.Cast(Bits.Down(w))
  {
  }

  /** The address a word names is its number. */
  lemma AddressLaw(w: bv32)
    ensures F.AddrOf(w) == Bits.Num(w)
  {
    AddressRaw(w);
    hide Bits.Num, Bits.Cast, F.AddrOf, Bits.Low, Bits.Down;
    Halved(w);
    Bits.NumIsCast(Bits.Down(w));
    Bits.Half(w);
  }

  lemma AddressRaw(w: bv32)
    ensures F.AddrOf(w) == 2 * (((w >> 1) as bv31) as int) + Bits.Low(w)
  {
  }

  // ------------------------------------------------------------------- halfwords

  /** The halfword of a fetched word that an address selects. */
  function HalfWord(w: bv32, a: int): (h: bv32) { if a % 4 == 0 then w & 0xFFFF else w >> 16 }

  lemma LowWide(w: bv32)
    ensures Fetch.Low(F.Widen(w)) == F.Widen(w & 0xFFFF)
  {
  }

  lemma HighWide(w: bv32)
    ensures Fetch.High(F.Widen(w)) == F.Widen(w >> 16)
  {
  }

  lemma NoTags()
    ensures Fetch.Low(Fetch.Spread(false)) == 0 && Fetch.High(Fetch.Spread(false)) == 0
    ensures Fetch.Low(Fetch.Spread(true)) == 0xFFFF && Fetch.High(Fetch.Spread(true)) == 0xFFFF
    ensures Fetch.Low(0) == 0 && Fetch.High(0) == 0
  {
  }

  lemma MemoryWord(h: H.Hart, m: Mem, a: Addr)
    ensures F.MemoryOf(h, m)(a) == F.WordFrom(Im.FetchAccess(h, m, a))
    ensures F.MemoryOf(h, m)(Fetch.WordBase(a)) == F.WordFrom(Im.FetchAccess(h, m, a))
  {
    hide Im.FetchAccess, F.WordFrom, Fetch.WordBase;
    F.WordBaseFetch(h, m, a);
  }

  /** A fetched word gives its halfword without tags, a faulting one no data and its
      tag. */
  lemma HalfOf(h: H.Hart, m: Mem, a: Addr)
    ensures var f, d := Im.FetchAccess(h, m, a), Fetch.HalfAt(F.MemoryOf(h, m), a);
            match f
            case Instruction(w) => d == Fetch.Half(F.Widen(HalfWord(w, a)), 0, 0)
            case PageFaulted => d == Fetch.Half(0, 0xFFFF, 0)
            case AccessFaulted => d == Fetch.Half(0, 0, 0xFFFF)
  {
    hide Im.FetchAccess, F.MemoryOf, Fetch.WordBase, Fetch.Low, Fetch.High, Fetch.Spread, F.Widen;
    MemoryWord(h, m, a);
    NoTags();
    match Im.FetchAccess(h, m, a)
    case Instruction(w) =>
      LowWide(w);
      HighWide(w);
    case PageFaulted =>
    case AccessFaulted =>
  }

  lemma LongWide(h: bv32)
    ensures Fetch.Long(F.Widen(h)) == (Bits.Keep(h, 2) == 3)
  {
  }

  lemma LongNum(h: bv32)
    ensures Fetch.Long(F.Widen(h)) <==> Bits.Num(h) % 4 == 3
  {
    hide Bits.Num, Bits.Keep, Fetch.Long, F.Widen;
    LongWide(h);
    Bits.NumIsInt(2);
    Bits.NumIsInt(3);
    Bits.KeepNum(h, 2);
    assert Bits.Pow2(2) == 4;
    if Bits.Num(h) % 4 == 3 { Bits.NumInjective(Bits.Keep(h, 2), 3); }
  }

  lemma SixteenPower()
    ensures Bits.Pow2(16) == 0x1_0000 && Bits.Num(16) == 16
  {
    hide Bits.Num;
    Bits.NumIsInt(16);
    assert Bits.Pow2(8) == 256;
  }

  lemma HalfForms(w: bv32)
    ensures w & 0xFFFF == Bits.Keep(w, 16) && w >> 16 == Bits.Right(w, 16)
  {
  }

  lemma HalfNum(w: bv32, a: int)
    ensures Bits.Num(HalfWord(w, a)) == if a % 4 == 0 then Bits.Num(w) % 0x1_0000 else Bits.Num(w) / 0x1_0000
    ensures Bits.Num(HalfWord(w, a)) < 0x1_0000
  {
    HalfForms(w);
    hide Bits.Num, Bits.Keep, Bits.Right;
    SixteenPower();
    Bits.KeepNum(w, 16);
    Bits.RightNum(w, 16);
    Bits.NumBound(w);
  }

  function Joined(x: bv32, y: bv32): (w: bv32) { x | (y << 16) }

  lemma ShrinkOne(x: bv32)
    ensures F.Shrink(F.Widen(x)) == x
  {
  }

  lemma ShrinkPair(x: bv32, y: bv32)
    ensures F.Shrink(Fetch.Pair(F.Widen(x), F.Widen(y))) == Joined(x, y)
  {
  }

  lemma JoinedForm(x: bv32, y: bv32)
    requires x < 0x1_0000
    ensures Joined(x, y) == Bits.Plus(Bits.Left(y, 16), x)
  {
  }

  lemma SmallHalf(x: bv32)
    requires Bits.Num(x) < 0x1_0000
    ensures x < 0x1_0000
  {
    hide Bits.Num;
    Bits.NumIsInt(0x1_0000);
    Bits.LessNum(x, 0x1_0000);
  }

  lemma LeftHalf(y: bv32)
    requires Bits.Num(y) < 0x1_0000
    ensures Bits.Num(Bits.Left(y, 16)) == 0x1_0000 * Bits.Num(y)
  {
    hide Bits.Num, Bits.Left;
    SixteenPower();
    Bits.LeftNum(y, 16);
  }

  lemma JoinedNum(x: bv32, y: bv32)
    requires Bits.Num(x) < 0x1_0000 && Bits.Num(y) < 0x1_0000
    ensures Bits.Num(Joined(x, y)) == Bits.Num(x) + 0x1_0000 * Bits.Num(y)
  {
    hide Bits.Num, Joined, Bits.Plus, Bits.Left;
    SmallHalf(x);
    JoinedForm(x, y);
    LeftHalf(y);
    Bits.PlusNum(Bits.Left(y, 16), x);
  }

  // ------------------------------------------------------------------- the program

  /** The halfword that a fetch at `a` delivers, if it delivers one. */
  function Delivered(h: H.Hart, m: Mem, a: Addr): (r: bv32) {
    var f := Im.FetchAccess(h, m, a);
    if f.Instruction? then HalfWord(f.word, a) else 0
  }

  lemma NoReport()
    ensures F.FaultCode(0) == 0 && H.WordOf(0) == 0 && F.FaultCode(Fetch.PAGE_FAULT) == 12 && F.FaultCode(Fetch.ACCESS_FAULT) == 1
    ensures !Fetch.Tagged(0) && Fetch.Tagged(0xFFFF)
  {
  }

  lemma ShortFront(q: Fetch.Queue, x: bv32)
    requires q.items == [Fetch.Half(F.Widen(x), 0, 0)] && !Fetch.Long(F.Widen(x))
    ensures F.InstrOf(q) == D.Issue(x, 0, 0)
  {
    hide F.Widen, Fetch.Long, F.Shrink, D.Issue, Fetch.Tagged, F.FaultCode, H.WordOf;
    NoReport();
    ShrinkOne(x);
    assert Fetch.Faulting(q, 1) == Fetch.Report(0, 0);
  }

  lemma LongFront(q: Fetch.Queue, x: bv32, y: bv32)
    requires q.items == [Fetch.Half(F.Widen(x), 0, 0), Fetch.Half(F.Widen(y), 0, 0)] && Fetch.Long(F.Widen(x))
    ensures F.InstrOf(q) == D.Issue(Joined(x, y), 0, 0)
  {
    hide F.Widen, Fetch.Long, F.Shrink, D.Issue, Fetch.Tagged, F.FaultCode, H.WordOf, Fetch.Pair, Joined;
    NoReport();
    ShrinkPair(x, y);
    assert Fetch.Faulting(q, 2) == Fetch.Report(0, 0);
    assert Fetch.Faulting(q, 1) == Fetch.Report(0, 0);
  }

  /** Where no fetch faults, the instruction at a PC is decoded from the halfword there
      if its low two bits are not both set, else from it and the next one, low half
      first. */
  lemma CodeLaw(a: Arch)
    ensures var pc, h, m := Bits.W(a.pc), a.hart, a.mem;
            var x, y := Delivered(h, m, pc), Delivered(h, m, (pc + 2) % 0x1_0000_0000);
            Im.FetchAccess(h, m, pc).Instruction? ==>
              if Bits.Num(x) % 4 != 3 then F.CodeOf(a) == D.Issue(x, 0, 0)
              else Im.FetchAccess(h, m, (pc + 2) % 0x1_0000_0000).Instruction? ==>
                     exists w :: Bits.Num(w) == Bits.Num(x) + 0x1_0000 * Bits.Num(y) && F.CodeOf(a) == D.Issue(w, 0, 0)
  {
    hide Bits.Num, F.AddrOf, Im.FetchAccess, F.MemoryOf, F.Widen, Fetch.Long, D.Issue, HalfWord, F.InstrOf, Fetch.HalfAt, Joined;
    var pc: Addr := Bits.W(a.pc);
    var h, m := a.hart, a.mem;
    AddressLaw(a.pc);
    var next := (pc + 2) % 0x1_0000_0000;
    HalfOf(h, m, pc);
    HalfOf(h, m, next);
    if Im.FetchAccess(h, m, pc).Instruction? {
      var x, y := Delivered(h, m, pc), Delivered(h, m, next);
      LongNum(x);
      if Bits.Num(x) % 4 != 3 {
        ShortFront(F.FrontAt(F.MemoryOf(h, m), pc), x);
      } else if Im.FetchAccess(h, m, next).Instruction? {
        HalfNum(Im.FetchAccess(h, m, pc).word, pc);
        HalfNum(Im.FetchAccess(h, m, next).word, next);
        LongFront(F.FrontAt(F.MemoryOf(h, m), pc), x, y);
        JoinedNum(x, y);
      }
    }
  }

  lemma FirstFault(q: Fetch.Queue, page: bool)
    requires q.items == [if page then Fetch.Half(0, 0xFFFF, 0) else Fetch.Half(0, 0, 0xFFFF)]
    ensures F.InstrOf(q).onTrap && F.InstrOf(q).cause == (if page then 12 else 1) && F.InstrOf(q).tval == H.WordOf(q.addr)
  {
    hide F.Shrink, D.Issue, Fetch.Tagged, F.FaultCode, H.WordOf;
    NoReport();
    Fetch.AtZero(q.addr);
    assert !Fetch.Long(0);
    D.IssueTraps(F.Shrink(F.FrontWord(q)), if page then 12 else 1, H.WordOf(q.addr));
  }

  lemma SecondFault(q: Fetch.Queue, x: bv32, page: bool)
    requires q.items == [Fetch.Half(F.Widen(x), 0, 0), if page then Fetch.Half(0, 0xFFFF, 0) else Fetch.Half(0, 0, 0xFFFF)]
    requires Fetch.Long(F.Widen(x))
    ensures F.InstrOf(q).onTrap && F.InstrOf(q).cause == (if page then 12 else 1) && F.InstrOf(q).tval == H.WordOf(At(q.addr, 2))
  {
    hide F.Shrink, D.Issue, Fetch.Tagged, F.FaultCode, H.WordOf, F.Widen, Fetch.Long, Fetch.Pair, At;
    NoReport();
    assert Fetch.Faulting(q, 1) == Fetch.Report(if page then Fetch.PAGE_FAULT else Fetch.ACCESS_FAULT, At(q.addr, 2));
    D.IssueTraps(F.Shrink(F.FrontWord(q)), if page then 12 else 1, H.WordOf(At(q.addr, 2)));
  }

  /** A fault on the first halfword, or on the second of a long instruction, is the
      instruction's trap: page fault 12 or access fault 1, at the halfword's address. */
  lemma FetchFaultLaw(a: Arch)
    ensures var pc, h, m := Bits.W(a.pc), a.hart, a.mem;
            var next := (pc + 2) % 0x1_0000_0000;
            var f, g, i := Im.FetchAccess(h, m, pc), Im.FetchAccess(h, m, next), F.CodeOf(a);
            && (!f.Instruction? ==> i.onTrap && i.cause == (if f.PageFaulted? then 12 else 1) && i.tval == H.WordOf(pc))
            && (f.Instruction? && Bits.Num(Delivered(h, m, pc)) % 4 == 3 && !g.Instruction? ==>
                  i.onTrap && i.cause == (if g.PageFaulted? then 12 else 1) && i.tval == H.WordOf(next))
  {
    hide Bits.Num, F.AddrOf, Im.FetchAccess, F.MemoryOf, F.Widen, Fetch.Long, D.Issue, HalfWord, F.InstrOf, Fetch.HalfAt, H.WordOf;
    var pc: Addr := Bits.W(a.pc);
    var h, m := a.hart, a.mem;
    AddressLaw(a.pc);
    var next := (pc + 2) % 0x1_0000_0000;
    HalfOf(h, m, pc);
    HalfOf(h, m, next);
    var f, g := Im.FetchAccess(h, m, pc), Im.FetchAccess(h, m, next);
    ShortZero();
    if !f.Instruction? {
      FirstFault(F.FrontAt(F.MemoryOf(h, m), pc), f.PageFaulted?);
    } else {
      LongNum(Delivered(h, m, pc));
      if Bits.Num(Delivered(h, m, pc)) % 4 == 3 && !g.Instruction? {
        SecondFault(F.FrontAt(F.MemoryOf(h, m), pc), Delivered(h, m, pc), g.PageFaulted?);
      }
    }
  }

  lemma ShortZero()
    ensures !Fetch.Long(0)
  {
  }
}
