/** Sv32 address translation (src/mmu.hpp:200-396, 498-627): the walk the two
    MMU processes perform, and the algorithm of section 4.3.2 of the RISC-V
    Privileged Architecture v20211203 it is measured against. */
module Sv32 {
  import opened Options
  import opened Memory
  import Pmp
  import Bits

  // ----------------------------------------------------------------- PTE bits

  predicate V(p: bv32) { p & 0x1 != 0 }
  predicate R(p: bv32) { p & 0x2 != 0 }
  predicate W(p: bv32) { p & 0x4 != 0 }
  predicate X(p: bv32) { p & 0x8 != 0 }
  predicate U(p: bv32) { p & 0x10 != 0 }
  predicate G(p: bv32) { p & 0x20 != 0 }
  predicate A(p: bv32) { p & 0x40 != 0 }
  predicate D(p: bv32) { p & 0x80 != 0 }

  /** Page number, bits 29..10: 20 bits are kept. */
  function Ppn(p: bv32): (r: nat)
    ensures r < 0x10_0000
  {
    (p as int) / 1024 % 0x10_0000
  }

  /** The low byte is exactly the V bit. */
  predicate CleanPointer(p: bv32) { p & 0xFF == 1 }

  /** Some of R, W, X is set. */
  predicate IsLeaf(p: bv32) { p & 0xE != 0 }

  // ------------------------------------------------------------- who accesses

  /** A data access (`amoOp` 0 is LR) or an instruction fetch, with the
      privilege it is made under. */
  datatype Who =
    | Data(isLoad: bool, isStore: bool, isAmo: bool, amoOp: bv8, priv: bv32, sum: bool, mxr: bool)
    | Fetch(priv: bv32)

  /** d_op = 1: loads and LR. */
  predicate ReadLike(w: Who) { w.Data? && (w.isLoad || (w.isAmo && w.amoOp == 0)) }

  /** Permission part of the page-fault test, as the code writes it. */
  predicate LeafFault(w: Who, p: bv32) {
    match w
    case Data(isLoad, isStore, isAmo, _, priv, sum, mxr) =>
      || (if ReadLike(w) then !R(p) && (!mxr || !W(p)) else !W(p))
      || ((isStore || isAmo) && (!D(p) || !A(p)))
      || (isLoad && !A(p))
      || (priv == 1 && U(p) && !sum)
      || (priv == 0 && !U(p))
      || (!R(p) && W(p))
    case Fetch(priv) =>
      !X(p) || !A(p) || (priv == 1 && U(p)) || (priv == 0 && !U(p)) || (!R(p) && W(p))
  }

  /** First-level test: any V-only byte is a pointer, all else must be an
      aligned, permitted megapage. */
  predicate Level1Fault(w: Who, p: bv32) {
    !V(p) || (!CleanPointer(p) && (Ppn(p) % 1024 != 0 || LeafFault(w, p)))
  }

  predicate Level0Fault(w: Who, p: bv32) { !V(p) || LeafFault(w, p) }

  // ------------------------------------------------------------ physical side

  /** What a walk reads: memory, the PMP that guards it, and the privilege the
      reads are checked under. */
  datatype World = World(mem: Mem, pmp: Pmp.Regs, priv: bv32)

  predicate PmaValid(a: int) {
    || 0x8000_0000 <= a
    || (0x2000_0000 <= a < 0x2001_0000)
    || (0x1000_0000 <= a < 0x1000_0100)
    || (0x3000_0000 <= a < 0x3400_0000)
  }

  predicate PteReadable(w: World, a: Addr) { Pmp.Allowed(w.pmp, a, 1, 4, w.priv) && PmaValid(a) }

  function PteAt(w: World, a: Addr): (r: Option<bv32>) {
    if PteReadable(w, a) then Some(Read(w.mem, a, 4)) else None
  }

  /** Below M mode the page tables look the same to every access. */
  lemma SamePtes(w: World, p: bv32, a: Addr)
    requires w.priv != 3 && p != 3
    ensures PteAt(w.(priv := p), a) == PteAt(w, a)
  {
    hide Pmp.CheckFrom, PmaValid;
    Pmp.CheckBelowM(w.pmp, 0, a, 1, 4, w.priv, p);
  }

  datatype Xlate = PageFault | AccessFault | Pa(addr: Addr)

  function Vpn1(va: Addr): (r: nat) ensures r < 1024 { va / 0x40_0000 % 1024 }
  function Vpn0(va: Addr): (r: nat) ensures r < 1024 { va / 0x1000 % 1024 }

  function Pte1Addr(root: Addr, va: Addr): (r: Addr)
    requires root % 0x1000 == 0
  {
    root + Vpn1(va) * 4
  }

  function PteSlot(p: bv32, i: nat): (r: Addr)
    requires i < 1024
  {
    Ppn(p) * 0x1000 + i * 4
  }

  function Pte0Addr(p: bv32, va: Addr): (r: Addr) { PteSlot(p, Vpn0(va)) }

  /** Physical address of a leaf; the 32-bit sum wraps. */
  function LeafAddr(p: bv32, mega: bool, va: Addr): (r: Addr) {
    (Ppn(p) * 0x1000 + (if mega then va % 0x40_0000 else va % 0x1000)) % SPACE
  }

  /** The root page table: 32 bits of satp.PPN * 4096. */
  function Root(satp: bv32): (r: Addr)
    ensures r % 0x1000 == 0
  {
    SatpPpn(satp) % 0x10_0000 * 0x1000
  }

  function SatpPpn(satp: bv32): (r: nat)
    ensures r < 0x40_0000
  {
    (satp as int) % 0x40_0000
  }

  predicate SatpOn(satp: bv32) { satp & 0x8000_0000 != 0 }

  /** The walk as the state machines carry it out. */
  function Walk(w: World, root: Addr, va: Addr, who: Who): (r: Xlate)
    requires root % 0x1000 == 0
  {
    match PteAt(w, Pte1Addr(root, va))
    case None => AccessFault
    case Some(p) =>
      if Level1Fault(who, p) then PageFault
      else if IsLeaf(p) then Pa(LeafAddr(p, true, va))
      else
        match PteAt(w, Pte0Addr(p, va))
        case None => AccessFault
        case Some(q) => if Level0Fault(who, q) then PageFault else Pa(LeafAddr(q, false, va))
  }

  // ---------------------------------------- leaves, independent of permission

  datatype Leaf = Leaf(pte: bv32, mega: bool)

  /** The leaf a walk ends on, whoever asks. */
  function LeafOf(w: World, root: Addr, va: Addr): (r: Option<Leaf>)
    requires root % 0x1000 == 0
  {
    match PteAt(w, Pte1Addr(root, va))
    case None => None
    case Some(p) =>
      if !V(p) then None
      else if !CleanPointer(p) then (if IsLeaf(p) && Ppn(p) % 1024 == 0 then Some(Leaf(p, true)) else None)
      else
        match PteAt(w, Pte0Addr(p, va))
        case None => None
        case Some(q) => if V(q) then Some(Leaf(q, false)) else None
  }

  /** What a TLB hit on this leaf answers. */
  function HitResult(l: Leaf, va: Addr, who: Who): (r: Xlate) {
    if LeafFault(who, l.pte) then PageFault else Pa(LeafAddr(l.pte, l.mega, va))
  }

  lemma LeafBits(p: bv32)
    ensures CleanPointer(p) ==> !IsLeaf(p) && V(p)
    ensures !R(p) && !W(p) && !X(p) <==> !IsLeaf(p)
  {
  }

  /** Every access type needs one of R, W, X. */
  lemma NoPermissionFaults(w: Who, p: bv32)
    requires !IsLeaf(p)
    ensures LeafFault(w, p)
  {
    hide IsLeaf, R, W, X, U, A, D;
    LeafBits(p);
  }

  /** A hit on a truthful leaf is the full walk. */
  lemma HitIsWalk(w: World, root: Addr, va: Addr, who: Who)
    requires root % 0x1000 == 0 && LeafOf(w, root, va).Some?
    ensures Walk(w, root, va, who) == HitResult(LeafOf(w, root, va).value, va, who)
  {
    hide V, IsLeaf, CleanPointer, Ppn, LeafFault, LeafAddr, PteAt;
    var o := PteAt(w, Pte1Addr(root, va));
    LeafBits(o.value);
    NoPermissionIfLeaf(who, o.value);
  }

  lemma NoPermissionIfLeaf(w: Who, p: bv32)
    ensures !IsLeaf(p) ==> LeafFault(w, p)
  {
    hide IsLeaf, LeafFault;
    if !IsLeaf(p) { NoPermissionFaults(w, p); }
  }

  /** A walk that succeeds ends on the leaf, so what either side stores in the
      TLB is truthful. */
  lemma WalkFindsLeaf(w: World, root: Addr, va: Addr, who: Who)
    requires root % 0x1000 == 0 && Walk(w, root, va, who).Pa?
    ensures LeafOf(w, root, va).Some?
    ensures Walk(w, root, va, who) == HitResult(LeafOf(w, root, va).value, va, who)
  {
    hide V, IsLeaf, CleanPointer, Ppn, LeafFault, LeafAddr, PteAt;
    var o := PteAt(w, Pte1Addr(root, va));
    LeafBits(o.value);
    NoPermissionIfLeaf(who, o.value);
  }

  lemma SameLeaf(w: World, p: bv32, root: Addr, va: Addr)
    requires root % 0x1000 == 0 && w.priv != 3 && p != 3
    ensures LeafOf(w.(priv := p), root, va) == LeafOf(w, root, va)
  {
    hide V, IsLeaf, CleanPointer, Ppn, PteAt;
    SamePtes(w, p, Pte1Addr(root, va));
    var o := PteAt(w, Pte1Addr(root, va));
    if o.Some? { SamePtes(w, p, Pte0Addr(o.value, va)); }
  }

  lemma MegaLeafShared(w: World, root: Addr, va: Addr, vb: Addr)
    requires root % 0x1000 == 0 && Vpn1(va) == Vpn1(vb)
    requires LeafOf(w, root, va).Some? && LeafOf(w, root, va).value.mega
    ensures LeafOf(w, root, vb) == LeafOf(w, root, va)
  {
    hide V, IsLeaf, CleanPointer, Ppn, PteAt;
  }

  // ------------------------------------ the architecture's algorithm, step by step

  // An entry is read here by the digits of its number, and memory is read at
  // addresses computed from the numbers alone.

  /** Digit `k` of an entry: 0 valid, 1 read, 2 write, 3 execute, 4 user, 5 global,
      6 accessed, 7 dirty. */
  predicate Bit(p: bv32, k: nat) { Bits.Digit(Bits.Num(p), k) }

  /** The full 22-bit page number. */
  function FullPpn(p: bv32): (r: nat) { Bits.Num(p) / 1024 }

  predicate IsStore(w: Who) { w.Data? && (w.isStore || (w.isAmo && w.amoOp != 0)) }

  /** Step 3: invalid, W without R, or reserved bits of a pointer set. */
  predicate BadPte(p: bv32) {
    !Bit(p, 0) || (!Bit(p, 1) && Bit(p, 2)) || (!Bit(p, 1) && !Bit(p, 3) && (Bit(p, 7) || Bit(p, 6) || Bit(p, 4)))
  }

  /** Step 4: some of the read and execute bits is set. */
  predicate EndsWalk(p: bv32) { Bit(p, 1) || Bit(p, 3) }

  /** Steps 5 and 7: permission, user page rules, and the A and D bits. */
  predicate Forbidden(w: Who, p: bv32) {
    || (match w
        case Data(_, _, _, _, priv, sum, mxr) =>
          (if IsStore(w) then !Bit(p, 2) else !(Bit(p, 1) || (mxr && Bit(p, 3)))) || (priv == 1 && Bit(p, 4) && !sum)
        case Fetch(priv) => !Bit(p, 3) || (priv == 1 && Bit(p, 4)))
    || (w.priv == 0 && !Bit(p, 4))
    || !Bit(p, 6)
    || (IsStore(w) && !Bit(p, 7))
  }

  lemma LowByteNum(p: bv32)
    ensures p & 0xFF == Bits.Keep(p, 8)
  {
  }

  lemma LowByteIs(p: bv32, n: bv32)
    ensures (p & 0xFF == n) <==> Bits.Num(p) % 256 == Bits.Num(n)
  {
    hide Bits.Num, Bits.Keep;
    LowByteNum(p);
    Bits.EightNum();
    Bits.KeepNum(p, 8);
    if Bits.Num(p) % 256 == Bits.Num(n) { Bits.NumInjective(Bits.Keep(p, 8), n); }
  }

  lemma ByteNumbers()
    ensures Bits.Num(0x1) == 0x1 && Bits.Num(0x21) == 0x21
  {
    hide Bits.Num;
    Bits.NumIsInt(0x1);
    Bits.NumIsInt(0x21);
  }

  /** The bit tests of the code are those digits. */
  lemma Layout(p: bv32)
    ensures V(p) == Bit(p, 0) && R(p) == Bit(p, 1) && W(p) == Bit(p, 2) && X(p) == Bit(p, 3)
    ensures U(p) == Bit(p, 4) && G(p) == Bit(p, 5) && A(p) == Bit(p, 6) && D(p) == Bit(p, 7)
    ensures IsLeaf(p) == (Bit(p, 1) || Bit(p, 2) || Bit(p, 3))
    ensures CleanPointer(p) == (Bits.Num(p) % 256 == 0x1) && GlobalPointer(p) == (Bits.Num(p) % 256 == 0x21)
  {
    hide Bits.Num, Bits.Digit;
    Bits.LowDigits(p);
    LeafMask(p);
    LowByteIs(p, 0x1);
    LowByteIs(p, 0x21);
    ByteNumbers();
  }

  lemma LeafMask(p: bv32)
    ensures IsLeaf(p) <==> p & 0x2 != 0 || p & 0x4 != 0 || p & 0x8 != 0
  {
  }

  /** Page ppn as a byte address. */
  function RootOf(ppn: nat): (r: Addr)
    requires ppn < 0x10_0000
    ensures r % 0x1000 == 0
  {
    ppn * 0x1000
  }

  /** Step 2: the word at `a`, if it lies in memory and may be read by the lowest
      PMP entry that has a say. */
  ghost function Entry(w: World, a: Addr): (r: Option<bv32>) {
    if Pmp.Verdict(w.pmp, 0, a, 1, 4, w.priv) && PmaValid(a) then Some(Read(w.mem, a, 4)) else None
  }

  lemma EntryIsPte(w: World, a: Addr)
    ensures Entry(w, a) == PteAt(w, a)
  {
    hide Pmp.Verdict, Pmp.CheckFrom, PmaValid, Read;
    Pmp.CheckIsVerdict(w.pmp, 0, a, 1, 4, w.priv);
  }

  /** The entry at the root for `va`. */
  ghost function FirstPte(w: World, ppn: nat, va: Addr): (r: Option<bv32>)
    requires ppn < 0x10_0000
  {
    Entry(w, ppn * 0x1000 + va / 0x40_0000 * 4)
  }

  /** The entry behind the pointer `p`. */
  ghost function SecondPte(w: World, p: bv32, va: Addr): (r: Option<bv32>) {
    Entry(w, (FullPpn(p) * 0x1000 + va / 0x1000 % 1024 * 4) % SPACE)
  }

  /** Section 4.3.2 for LEVELS = 2, PTESIZE = 4. */
  ghost function Reference(w: World, ppn: nat, va: Addr, who: Who): (r: Xlate)
    requires ppn < 0x10_0000
  {
    match FirstPte(w, ppn, va)
    case None => AccessFault
    case Some(p) =>
      if BadPte(p) then PageFault
      else if EndsWalk(p) then
        if Forbidden(who, p) || FullPpn(p) % 1024 != 0 then PageFault
        else Pa((FullPpn(p) / 1024 * 0x40_0000 + va % 0x40_0000) % SPACE)
      else
        match SecondPte(w, p, va)
        case None => AccessFault
        case Some(q) =>
          if BadPte(q) || !EndsWalk(q) then PageFault
          else if Forbidden(who, q) then PageFault
          else Pa((FullPpn(q) * 0x1000 + va % 0x1000) % SPACE)
  }

  /** The page numbers of the valid entries this walk reads fit the 32-bit
      physical space; the word behind a leaf is not an entry. */
  ghost predicate Narrow(w: World, ppn: nat, va: Addr)
    requires ppn < 0x10_0000
  {
    match FirstPte(w, ppn, va)
    case None => true
    case Some(p) =>
      Bit(p, 0) ==>
        && FullPpn(p) < 0x10_0000
        && (Bits.Num(p) % 256 == 0x1 || Bits.Num(p) % 256 == 0x21 ==>
              match SecondPte(w, p, va)
              case None => true
              case Some(q) => Bit(q, 0) ==> FullPpn(q) < 0x10_0000)
  }

  /** An access made the way the execute stage makes them: one flag, and a
      privilege below M. */
  predicate Proper(w: Who) {
    && (w.priv == 0 || w.priv == 1)
    && (w.Data? ==> (w.isLoad && !w.isStore && !w.isAmo) || (!w.isLoad && w.isStore && !w.isAmo)
                    || (!w.isLoad && !w.isStore && w.isAmo))
  }

  /** Where the code is stricter at a leaf: LR wants the D bit, and MXR does not
      open execute-only pages to loads. */
  predicate Stricter(w: Who, p: bv32) {
    w.Data? && ((w.isAmo && w.amoOp == 0 && !Bit(p, 7)) || ((w.isLoad || (w.isAmo && w.amoOp == 0)) && !Bit(p, 1)))
  }

  /** The leaf tests agree except where the code is stricter. */
  lemma LeafExact(w: Who, p: bv32)
    requires Proper(w)
    ensures !Forbidden(w, p) && !(!Bit(p, 1) && Bit(p, 2)) && !Stricter(w, p) ==> !LeafFault(w, p)
    ensures Forbidden(w, p) || (!Bit(p, 1) && Bit(p, 2)) || Stricter(w, p) ==> LeafFault(w, p)
  {
    hide V, R, W, X, U, A, D, G, Bit, IsLeaf, CleanPointer, GlobalPointer;
    Layout(p);
  }

  /** The permitted pages: the code never grants what the architecture refuses. */
  lemma LeafFaultIff(w: Who, p: bv32)
    requires Proper(w)
    ensures LeafFault(w, p) <==> Forbidden(w, p) || (!Bit(p, 1) && Bit(p, 2)) || Stricter(w, p)
  {
    hide LeafFault, Forbidden, Stricter, Bit;
    LeafExact(w, p);
  }

  /** A pointer marked global: legal, but the code refuses it. */
  predicate GlobalPointer(p: bv32) { p & 0xFF == 0x21 }

  ghost predicate GlobalAtRoot(w: World, ppn: nat, va: Addr)
    requires ppn < 0x10_0000
  {
    match FirstPte(w, ppn, va)
    case None => false
    case Some(p) => Bits.Num(p) % 256 == 0x21
  }

  lemma PointerBits(p: bv32)
    ensures V(p) && !IsLeaf(p) && !D(p) && !A(p) && !U(p) ==> CleanPointer(p) || GlobalPointer(p)
    ensures CleanPointer(p) ==> V(p) && !IsLeaf(p) && !D(p) && !A(p) && !U(p)
    ensures GlobalPointer(p) ==> V(p) && !IsLeaf(p) && !D(p) && !A(p) && !U(p) && !CleanPointer(p)
  {
  }

  /** The architecture grants the access on this leaf, and the code is stricter. */
  predicate Withheld(w: Who, p: bv32) { EndsWalk(p) && Stricter(w, p) && !BadPte(p) && !Forbidden(w, p) }

  /** The second-level read fails, or yields a leaf that is granted. */
  predicate GoesOn(w: Who, q: Option<bv32>) {
    match q
    case None => true
    case Some(q) => !BadPte(q) && EndsWalk(q) && !Forbidden(w, q)
  }

  /** Where the walk departs from the architecture, read off the two entries: a
      global pointer whose walk would go on, or a leaf that is withheld. */
  ghost predicate Departs(w: World, ppn: nat, va: Addr, who: Who)
    requires ppn < 0x10_0000
  {
    match FirstPte(w, ppn, va)
    case None => false
    case Some(p) =>
      var next := SecondPte(w, p, va);
      || (Bits.Num(p) % 256 == 0x21 && GoesOn(who, next))
      || (FullPpn(p) % 1024 == 0 && Withheld(who, p))
      || (Bits.Num(p) % 256 == 0x1 && next.Some? && Withheld(who, next.value))
  }

  lemma MegaAddress(p: bv32, va: Addr)
    requires FullPpn(p) < 0x10_0000 && FullPpn(p) % 1024 == 0
    ensures LeafAddr(p, true, va) == (FullPpn(p) / 1024 * 0x40_0000 + va % 0x40_0000) % SPACE
  {
    hide FullPpn, Ppn;
    SmallPpn(p);
    assert FullPpn(p) * 0x1000 == FullPpn(p) / 1024 * 0x40_0000;
  }

  lemma SmallPpn(p: bv32)
    requires FullPpn(p) < 0x10_0000
    ensures Ppn(p) == FullPpn(p)
  {
    hide Bits.Num;
    Bits.NumIsInt(p);
  }

  /** The two verdicts on a leaf found at level 1. */
  lemma MegaAgrees(p: bv32, va: Addr, who: Who)
    requires Proper(who) && FullPpn(p) < 0x10_0000 && V(p) && IsLeaf(p)
    ensures var mine := if Level1Fault(who, p) then PageFault else Pa(LeafAddr(p, true, va));
            var ref := if BadPte(p) || !EndsWalk(p) || Forbidden(who, p) || FullPpn(p) % 1024 != 0 then PageFault
                       else Pa((FullPpn(p) / 1024 * 0x40_0000 + va % 0x40_0000) % SPACE);
            mine == ref <==> !(Stricter(who, p) && ref != PageFault)
  {
    hide V, R, W, X, U, A, D, G, IsLeaf, CleanPointer, GlobalPointer, FullPpn, LeafAddr, LeafFault, Forbidden, Stricter, Bit;
    Layout(p);
    SmallPpn(p);
    if FullPpn(p) % 1024 == 0 { MegaAddress(p, va); }
    LeafFaultIff(who, p);
    LeafBits(p);
    PointerBits(p);
  }

  lemma PageAgrees(q: bv32, va: Addr, who: Who)
    requires Proper(who) && FullPpn(q) < 0x10_0000
    ensures var mine := if Level0Fault(who, q) then PageFault else Pa(LeafAddr(q, false, va));
            var ref := if BadPte(q) || !EndsWalk(q) || Forbidden(who, q) then PageFault
                       else Pa((FullPpn(q) * 0x1000 + va % 0x1000) % SPACE);
            mine == ref <==> !(Stricter(who, q) && ref != PageFault)
  {
    hide V, R, W, X, U, A, D, G, IsLeaf, CleanPointer, GlobalPointer, FullPpn, LeafFault, Forbidden, Stricter, Bit;
    Layout(q);
    SmallPpn(q);
    LeafFaultIff(who, q);
    LeafBits(q);
    NoPermissionIfLeaf(who, q);
  }

  lemma PteZeroAddress(p: bv32, va: Addr)
    requires FullPpn(p) < 0x10_0000
    ensures Pte0Addr(p, va) == (FullPpn(p) * 0x1000 + va / 0x1000 % 1024 * 4) % SPACE
  {
    hide FullPpn, Ppn;
    SmallPpn(p);
  }

  /** The walk reads its entries where the architecture does. */
  lemma FirstIs(w: World, ppn: nat, va: Addr)
    requires ppn < 0x10_0000
    ensures FirstPte(w, ppn, va) == PteAt(w, Pte1Addr(RootOf(ppn), va))
  {
    hide PteAt, Entry;
    EntryIsPte(w, ppn * 0x1000 + va / 0x40_0000 * 4);
  }

  lemma SecondIs(w: World, p: bv32, va: Addr)
    requires FullPpn(p) < 0x10_0000
    ensures SecondPte(w, p, va) == PteAt(w, Pte0Addr(p, va))
  {
    hide PteAt, Entry, FullPpn, Pte0Addr;
    PteZeroAddress(p, va);
    EntryIsPte(w, Pte0Addr(p, va));
  }

  /** For every page-table memory whose page numbers fit 20 bits, every address
      and every access: the walk gives the architecture's verdict and address if
      and only if it does not depart. */
  lemma WalkIsReference(w: World, ppn: nat, va: Addr, who: Who)
    requires ppn < 0x10_0000 && Proper(who) && Narrow(w, ppn, va)
    ensures Walk(w, RootOf(ppn), va, who) == Reference(w, ppn, va, who) <==> !Departs(w, ppn, va, who)
  {
    hide V, R, W, X, U, A, D, G, IsLeaf, CleanPointer, GlobalPointer, FullPpn, Ppn, LeafAddr, LeafFault, Forbidden, Stricter,
      PteAt, Vpn0, Vpn1, Pte0Addr, Pte1Addr, RootOf, Proper, Bit, FirstPte, SecondPte, Bits.Num;
    FirstIs(w, ppn, va);
    match FirstPte(w, ppn, va)
    case None =>
    case Some(p) =>
      Layout(p);
      LeafBits(p);
      PointerBits(p);
      if V(p) { SecondIs(w, p, va); }
      NoPermissionIfLeaf(who, p);
      if V(p) && IsLeaf(p) {
        MegaAgrees(p, va, who);
      } else if CleanPointer(p) {
        match PteAt(w, Pte0Addr(p, va))
        case None =>
        case Some(q) =>
          Layout(q);
          LeafBits(q);
          if V(q) { PageAgrees(q, va, who); }
      }
  }

  /** The code never reaches memory where the architecture would not, nor at
      another address. */
  lemma WalkIsSafe(w: World, ppn: nat, va: Addr, who: Who)
    requires ppn < 0x10_0000 && Proper(who) && Narrow(w, ppn, va) && Walk(w, RootOf(ppn), va, who).Pa?
    ensures Reference(w, ppn, va, who) == Walk(w, RootOf(ppn), va, who)
  {
    hide V, R, W, X, U, A, D, G, IsLeaf, CleanPointer, GlobalPointer, FullPpn, Ppn, LeafAddr, LeafFault, Forbidden, Stricter,
      PteAt, Vpn0, Vpn1, Pte0Addr, Pte1Addr, RootOf, Proper, Bit, FirstPte, SecondPte, Bits.Num;
    WalkIsReference(w, ppn, va, who);
    FirstIs(w, ppn, va);
    var p := FirstPte(w, ppn, va).value;
    Layout(p);
    LeafBits(p);
    PointerBits(p);
    LeafFaultIff(who, p);
    NoPermissionIfLeaf(who, p);
    SecondIs(w, p, va);
    if CleanPointer(p) {
      LeafFaultIff(who, PteAt(w, Pte0Addr(p, va)).value);
    }
  }

  /** With MXR clear, LR aside, and no pointer marked global, it never departs. */
  lemma PlainWalkIsReference(w: World, ppn: nat, va: Addr, who: Who)
    requires ppn < 0x10_0000 && Proper(who) && Narrow(w, ppn, va)
    requires who.Data? ==> !who.mxr && !(who.isAmo && who.amoOp == 0)
    requires !GlobalAtRoot(w, ppn, va)
    ensures Walk(w, RootOf(ppn), va, who) == Reference(w, ppn, va, who)
  {
    hide Walk, Reference, FirstPte, SecondPte, Bit, FullPpn, Bits.Num, RootOf;
    WalkIsReference(w, ppn, va, who);
  }

  /** Whether the user bit lets this privilege in; `sum` opens user pages to S mode. */
  predicate UserRule(p: bv32, priv: bv32, sum: bool) { if priv == 0 then Bit(p, 4) else !Bit(p, 4) || sum }

  /** What the last entry of a walk grants, digit by digit, below M mode. */
  lemma GrantLaw(p: bv32, priv: bv32, sum: bool, mxr: bool)
    requires priv == 0 || priv == 1
    ensures var load := Data(true, false, false, 0, priv, sum, mxr);
            !Level0Fault(load, p) <==> Bit(p, 0) && Bit(p, 1) && Bit(p, 6) && UserRule(p, priv, sum)
    ensures var store := Data(false, true, false, 0, priv, sum, mxr);
            !Level0Fault(store, p) <==> Bit(p, 0) && Bit(p, 1) && Bit(p, 2) && Bit(p, 6) && Bit(p, 7) && UserRule(p, priv, sum)
    ensures var fetch := Fetch(priv);
            !Level0Fault(fetch, p) <==> Bit(p, 0) && Bit(p, 3) && Bit(p, 6) && (Bit(p, 1) || !Bit(p, 2)) && UserRule(p, priv, false)
  {
    hide V, R, W, X, U, A, D, G, Bit, IsLeaf, CleanPointer, GlobalPointer;
    Layout(p);
  }

  /** Each departure happens: LR on a clean page, a load of an execute-only page
      under MXR, and a global pointer. */
  lemma Departures()
    ensures var lr := Data(false, false, true, 0, 1, false, false);
            LeafFault(lr, 0x47) && !Forbidden(lr, 0x47) && !BadPte(0x47)
    ensures var ld := Data(true, false, false, 0, 1, false, true);
            LeafFault(ld, 0x49) && !Forbidden(ld, 0x49) && !BadPte(0x49)
    ensures forall who :: Level1Fault(who, 0x21)
    ensures !BadPte(0x21) && !EndsWalk(0x21)
  {
    hide Bit, V, R, W, X, U, A, D, G, IsLeaf;
    DepartureBits();
    Layout(0x47);
    Layout(0x49);
    Layout(0x21);
    forall who ensures Level1Fault(who, 0x21) { NoPermissionFaults(who, 0x21); }
  }

  lemma DepartureBits()
    ensures V(0x47) && R(0x47) && W(0x47) && !X(0x47) && !U(0x47) && A(0x47) && !D(0x47)
    ensures V(0x49) && !R(0x49) && !W(0x49) && X(0x49) && !U(0x49) && A(0x49) && !D(0x49)
    ensures V(0x21) && !R(0x21) && !W(0x21) && !X(0x21) && !U(0x21) && !A(0x21) && !D(0x21) && !IsLeaf(0x21)
  {
  }

  // ------------------------------------------------------- a departure at work

  /** A page table of one word: a supervisor megapage, readable, writable, accessed
      and clean. */
  function CleanMegapage(pmp: Pmp.Regs): (w: World) {
    World(Write(Mem(map[], {}), 0x8000_0000, 4, 0x2000_0047), pmp, 1)
  }

  lemma CleanFirst(pmp: Pmp.Regs)
    requires Pmp.Allowed(pmp, 0x8000_0000, 1, 4, 1)
    ensures PteAt(CleanMegapage(pmp), 0x8000_0000) == Some(0x2000_0047)
  {
    hide Read, Write, Pmp.Allowed;
    StoreThenLoad(Mem(map[], {}), 0x8000_0000, 0x2000_0047);
  }

  lemma CleanBits()
    ensures V(0x2000_0047) && R(0x2000_0047) && W(0x2000_0047) && !X(0x2000_0047) && !U(0x2000_0047)
    ensures A(0x2000_0047) && !D(0x2000_0047) && IsLeaf(0x2000_0047) && !CleanPointer(0x2000_0047)
  {
  }

  lemma CleanPage()
    ensures FullPpn(0x2000_0047) == 0x8_0000
  {
    hide Bits.Num;
    Bits.NumIsInt(0x2000_0047);
  }

  lemma CleanRoot()
    ensures Pte1Addr(RootOf(0x8_0000), 0) == 0x8000_0000
  {
  }

  /** Wherever PMP lets the table be read, LR.W through it faults although the
      architecture grants the access. */
  lemma LrDeparts(pmp: Pmp.Regs)
    requires Pmp.Allowed(pmp, 0x8000_0000, 1, 4, 1)
    ensures var w, lr := CleanMegapage(pmp), Data(false, false, true, 0, 1, false, false);
            Walk(w, RootOf(0x8_0000), 0, lr) == PageFault && Reference(w, 0x8_0000, 0, lr) == Pa(0x8000_0000)
  {
    hide V, R, W, X, U, A, D, IsLeaf, CleanPointer, FullPpn, Ppn, PteAt, LeafAddr, Pte0Addr, Pte1Addr, CleanMegapage, RootOf,
      Pmp.Allowed, Bit, FirstPte, GlobalPointer, Bits.Num;
    CleanRoot();
    CleanFirst(pmp);
    FirstIs(CleanMegapage(pmp), 0x8_0000, 0);
    CleanBits();
    Layout(0x2000_0047);
    CleanPage();
  }

  /** One entry that opens everything is such a setting. */
  lemma OpenAllows(pmp: Pmp.Regs)
    requires pmp.cfg[0] == 0xF && pmp.addr[0] == 0xFFFF_FFFF
    ensures Pmp.Allowed(pmp, 0x8000_0000, 1, 4, 1)
  {
  }

  /** A root below 4 GiB is used whole. */
  lemma WholeRoot(satp: bv32)
    requires SatpPpn(satp) < 0x10_0000
    ensures Root(satp) == RootOf(SatpPpn(satp))
  {
    hide SatpPpn;
  }
}
