/** The translation cache shared by the instruction and data sides (src/tlb.hpp). */
module Tlb {
  import opened Options
  import opened Memory
  import Sv32

  const SIZE := 32

  /** `key` is the field the code calls asid. */
  datatype Entry = Entry(vpn: nat, key: nat, pte: bv32, valid: bool, mega: bool)

  const EMPTY := Entry(0, 0, 0, false, false)

  /** Valid, same key or global, same first-level index, and same page unless a megapage. */
  predicate Hits(e: Entry, key: nat, vpn: nat) {
    && e.valid
    && (Sv32.G(e.pte) || key == e.key)
    && e.vpn / 1024 == vpn / 1024
    && (e.mega || e.vpn % 1024 == vpn % 1024)
  }

  function NewEntry(key: nat, vpn: nat, pte: bv32, mega: bool): (r: Entry) {
    Entry(if mega then vpn - vpn % 1024 else vpn, key, pte, true, mega)
  }

  /** The slot a store may take over: same key, or same page, or free. */
  predicate Replaceable(e: Entry, n: Entry) { e.key == n.key || e.vpn == n.vpn || !e.valid }

  function HitIndex(t: seq<Entry>, key: nat, vpn: nat, i: nat): (r: nat)
    requires i <= |t|
    ensures i <= r <= |t|
    ensures r < |t| ==> Hits(t[r], key, vpn)
    ensures forall j :: i <= j < r ==> !Hits(t[j], key, vpn)
    decreases |t| - i
  {
    if i == |t| || Hits(t[i], key, vpn) then i else HitIndex(t, key, vpn, i + 1)
  }

  function FreeIndex(t: seq<Entry>, n: Entry, i: nat): (r: nat)
    requires i <= |t|
    ensures i <= r <= |t|
    ensures r < |t| ==> Replaceable(t[r], n)
    ensures forall j :: i <= j < r ==> !Replaceable(t[j], n)
    decreases |t| - i
  {
    if i == |t| || Replaceable(t[i], n) then i else FreeIndex(t, n, i + 1)
  }

  /** First match, if any. */
  function Lookup(t: seq<Entry>, key: nat, vpn: nat): (r: Option<Entry>) {
    var k := HitIndex(t, key, vpn, 0);
    if k < |t| then Some(t[k]) else None
  }

  /** A hit moves to the front by a swap. */
  function Touched(t: seq<Entry>, key: nat, vpn: nat): (r: seq<Entry>) {
    var k := HitIndex(t, key, vpn, 0);
    if 0 < k < |t| then t[0 := t[k]][k := t[0]] else t
  }

  /** A new entry goes to the front; those before the slot it frees shift down by one. */
  function Stored(t: seq<Entry>, n: Entry): (r: seq<Entry>)
    requires |t| > 0
  {
    var k := FreeIndex(t, n, 0);
    if k < |t| then [n] + t[..k] + t[k + 1..] else [n] + t[..|t| - 1]
  }

  /** The new entry in front, the rest shifted up to the freed slot. */
  lemma ShiftedIsStored(t: seq<Entry>, n: Entry, s: seq<Entry>, k: nat)
    requires |s| == |t| > 0 && s[0] == n && k == FreeIndex(t, n, 0)
    requires forall j :: 0 < j < |s| && j <= k ==> s[j] == t[j - 1]
    requires forall j :: k < j < |s| ==> s[j] == t[j]
    ensures s == Stored(t, n)
  {
    hide Replaceable;
  }

  predicate Flushes(e: Entry, key: nat, vpn: nat) { (e.key == key || key == 0) && (vpn == e.vpn || vpn == 0) }

  function Flushed(t: seq<Entry>, key: nat, vpn: nat): (r: seq<Entry>) {
    seq(|t|, i requires 0 <= i < |t| => if Flushes(t[i], key, vpn) then t[i].(valid := false) else t[i])
  }

  class Unit {
    const table: array<Entry>

    ghost predicate Valid() reads this { table.Length == SIZE }

    constructor ()
      ensures Valid() && fresh(table)
      ensures forall i :: 0 <= i < SIZE ==> !table[i].valid
    {
      table := new Entry[SIZE](_ => EMPTY);
    }

    /** A miss returns no entry: its `pte` has the V bit clear. */
    method Find(key: nat, vpn: nat) returns (r: Option<Entry>)
      requires Valid()
      modifies table
      ensures r == Lookup(old(table[..]), key, vpn)
      ensures table[..] == Touched(old(table[..]), key, vpn)
    {
      hide Hits;
      r := None;
      for i := 0 to SIZE
        invariant table[..] == old(table[..])
        invariant forall j :: 0 <= j < i ==> !Hits(table[j], key, vpn)
        invariant HitIndex(table[..], key, vpn, 0) == HitIndex(table[..], key, vpn, i)
      {
        if Hits(table[i], key, vpn) {
          r := Some(table[i]);
          if i != 0 {
            table[i], table[0] := table[0], table[i];
          }
          return;
        }
      }
    }

    method Store(key: nat, vpn: nat, pte: bv32, mega: bool)
      requires Valid()
      modifies table
      ensures table[..] == Stored(old(table[..]), NewEntry(key, vpn, pte, mega))
    {
      hide Replaceable;
      ghost var t := table[..];
      var n := NewEntry(key, vpn, pte, mega);
      var tmp := n;
      for i := 0 to SIZE
        invariant FreeIndex(t, n, 0) == FreeIndex(t, n, i)
        invariant tmp == if i == 0 then n else t[i - 1]
        invariant i > 0 ==> table[0] == n
        invariant forall j :: 0 < j < i ==> table[j] == t[j - 1]
        invariant forall j :: i <= j < SIZE ==> table[j] == t[j]
      {
        if Replaceable(table[i], n) {
          table[i] := tmp;
          ShiftedIsStored(t, n, table[..], FreeIndex(t, n, 0));
          return;
        } else {
          var swap := table[i];
          table[i] := tmp;
          tmp := swap;
        }
      }
      ShiftedIsStored(t, n, table[..], FreeIndex(t, n, 0));
    }

    method Flush(key: nat, vpn: nat)
      requires Valid()
      modifies table
      ensures table[..] == Flushed(old(table[..]), key, vpn)
    {
      ghost var t := table[..];
      var i := SIZE;
      while i > 0
        invariant 0 <= i <= SIZE
        invariant forall j :: 0 <= j < i ==> table[j] == t[j]
        invariant forall j :: i <= j < SIZE ==> table[j] == Flushed(t, key, vpn)[j]
      {
        i := i - 1;
        if Flushes(table[i], key, vpn) {
          table[i] := table[i].(valid := false);
        }
      }
    }
  }

  // ------------------------------------------------------------- transparency

  /** The leaf each (key, page) maps to; fixed while page tables and PMP are. */
  type Leaves = (nat, nat) -> Option<Sv32.Leaf>

  /** A megapage leaf serves its whole 4 MiB. */
  ghost predicate MegaShared(l: Leaves) {
    forall key, v, u :: l(key, v).Some? && l(key, v).value.mega && v / 1024 == u / 1024 ==> l(key, u) == l(key, v)
  }

  /** A leaf marked global is the same under every key. */
  ghost predicate GlobalShared(l: Leaves) {
    forall key, other, v :: l(key, v).Some? && Sv32.G(l(key, v).value.pte) ==> l(other, v) == l(key, v)
  }

  ghost predicate Truthful(l: Leaves, e: Entry) {
    e.valid ==> l(e.key, e.vpn) == Some(Sv32.Leaf(e.pte, e.mega))
  }

  ghost predicate AllTruthful(l: Leaves, t: seq<Entry>) { forall i :: 0 <= i < |t| ==> Truthful(l, t[i]) }

  datatype Op = Search(key: nat, vpn: nat) | Insert(key: nat, vpn: nat, leaf: Sv32.Leaf) | Drop(key: nat, vpn: nat)

  function Apply(t: seq<Entry>, op: Op): (r: seq<Entry>)
    requires |t| > 0
    ensures |r| == |t|
  {
    match op
    case Search(key, vpn) => Touched(t, key, vpn)
    case Insert(key, vpn, leaf) => Stored(t, NewEntry(key, vpn, leaf.pte, leaf.mega))
    case Drop(key, vpn) => Flushed(t, key, vpn)
  }

  /** A store is made only with the leaf a walk found. */
  ghost predicate Honest(l: Leaves, op: Op) { op.Insert? ==> l(op.key, op.vpn) == Some(op.leaf) }

  function Run(t: seq<Entry>, ops: seq<Op>): (r: seq<Entry>)
    requires |t| > 0
    ensures |r| == |t|
    decreases ops
  {
    if ops == [] then t else Run(Apply(t, ops[0]), ops[1..])
  }

  lemma SamePage(v: nat, u: nat)
    requires v / 1024 == u / 1024 && v % 1024 == u % 1024
    ensures v == u
  {
  }

  /** A truthful entry that hits is the leaf of the page asked for. */
  lemma HitTruth(l: Leaves, e: Entry, key: nat, vpn: nat)
    requires MegaShared(l) && GlobalShared(l) && Truthful(l, e) && Hits(e, key, vpn)
    ensures l(key, vpn) == Some(Sv32.Leaf(e.pte, e.mega))
  {
    hide Sv32.G;
    if !e.mega { SamePage(e.vpn, vpn); }
    assert l(e.key, vpn) == l(e.key, e.vpn);
  }

  lemma RoundedPage(v: nat)
    ensures (v - v % 1024) / 1024 == v / 1024
  {
  }

  lemma NewEntryTruth(l: Leaves, op: Op)
    requires MegaShared(l) && op.Insert? && Honest(l, op)
    ensures Truthful(l, NewEntry(op.key, op.vpn, op.leaf.pte, op.leaf.mega))
  {
    RoundedPage(op.vpn);
  }

  ghost predicate AllHonest(l: Leaves, ops: seq<Op>) { forall op :: op in ops ==> Honest(l, op) }

  /** Whatever an operation does to the order, it adds nothing untruthful. */
  lemma StepTruth(l: Leaves, t: seq<Entry>, op: Op)
    requires MegaShared(l) && |t| > 0 && AllTruthful(l, t) && Honest(l, op)
    ensures AllTruthful(l, Apply(t, op))
  {
    hide Hits, Replaceable, HitIndex, FreeIndex, MegaShared, NewEntry;
    if op.Insert? { NewEntryTruth(l, op); }
  }

  lemma {:induction false} RunTruth(l: Leaves, t: seq<Entry>, ops: seq<Op>)
    requires MegaShared(l) && |t| > 0 && AllTruthful(l, t) && AllHonest(l, ops)
    ensures AllTruthful(l, Run(t, ops))
    decreases ops
  {
    hide MegaShared, AllTruthful, Apply, Honest;
    if ops != [] {
      assert ops[0] in ops;
      StepTruth(l, t, ops[0]);
      RunTruth(l, Apply(t, ops[0]), ops[1..]);
    }
  }

  /** From an empty table, after any mix of searches, honest stores and flushes
      from either side, every hit is the leaf the page tables hold. */
  lemma Transparent(l: Leaves, t: seq<Entry>, ops: seq<Op>, key: nat, vpn: nat)
    requires MegaShared(l) && GlobalShared(l) && |t| > 0 && forall i :: 0 <= i < |t| ==> !t[i].valid
    requires AllHonest(l, ops)
    ensures var hit := Lookup(Run(t, ops), key, vpn);
            hit.Some? ==> l(key, vpn) == Some(Sv32.Leaf(hit.value.pte, hit.value.mega))
  {
    hide MegaShared, GlobalShared, AllHonest, Hits;
    RunTruth(l, t, ops);
    var now := Run(t, ops);
    var k := HitIndex(now, key, vpn, 0);
    if k < |now| {
      HitTruth(l, now[k], key, vpn);
    }
  }

  /** A full flush leaves nothing to hit. */
  lemma FullFlush(t: seq<Entry>, key: nat, vpn: nat)
    ensures Lookup(Flushed(t, 0, 0), key, vpn) == None
  {
  }

  /** Megapage entries hold the first page of their 4 MiB, as stores make them. */
  predicate Rounded(e: Entry) { e.valid && e.mega ==> e.vpn % 1024 == 0 }

  ghost predicate AllRounded(t: seq<Entry>) { forall i :: 0 <= i < |t| ==> Rounded(t[i]) }

  lemma NewIsRounded(key: nat, vpn: nat, pte: bv32, mega: bool)
    ensures Rounded(NewEntry(key, vpn, pte, mega))
  {
    FirstOf(vpn);
  }

  lemma FirstOf(v: nat)
    ensures (v - v % 1024) % 1024 == 0
  {
    assert v - v % 1024 == 1024 * (v / 1024);
  }

  lemma StepRounded(t: seq<Entry>, op: Op)
    requires |t| > 0 && AllRounded(t)
    ensures AllRounded(Apply(t, op))
  {
    hide Hits, Replaceable, HitIndex, FreeIndex, NewEntry, Flushes;
    if op.Insert? { NewIsRounded(op.key, op.vpn, op.leaf.pte, op.leaf.mega); }
  }

  lemma {:induction false} RunRounded(t: seq<Entry>, ops: seq<Op>)
    requires |t| > 0 && AllRounded(t)
    ensures AllRounded(Run(t, ops))
    decreases ops
  {
    hide AllRounded, Apply;
    if ops != [] {
      StepRounded(t, ops[0]);
      RunRounded(Apply(t, ops[0]), ops[1..]);
    }
  }

  /** SFENCE.VMA hands over the address itself where entries hold page numbers:
      after any operations on an empty table, the entry that translates `va` is
      removed exactly when `va` is 0, which is the flush of all addresses. */
  lemma SelectiveFlushIff(t: seq<Entry>, ops: seq<Op>, e: Entry, key: nat, asid: nat, va: nat)
    requires |t| > 0 && forall i :: 0 <= i < |t| ==> !t[i].valid
    requires Lookup(Run(t, ops), key, va / 0x1000) == Some(e)
    ensures Flushes(e, asid, va) <==> (asid == 0 || asid == e.key) && va == 0
  {
    hide Hits, Run, Flushes;
    RunRounded(t, ops);
    EntryFlushIff(e, key, asid, va);
  }

  lemma EntryFlushIff(e: Entry, key: nat, asid: nat, va: nat)
    requires Hits(e, key, va / 0x1000) && Rounded(e)
    ensures Flushes(e, asid, va) <==> (asid == 0 || asid == e.key) && va == 0
  {
    hide Sv32.G;
    if va == e.vpn {
      if e.mega { SmallTop(va); } else { SamePage(e.vpn, va / 0x1000); }
    }
  }

  /** A page number that is its own address shares no first-level index with it. */
  lemma SmallTop(va: nat)
    requires va % 1024 == 0 && va / 1024 == va / 0x1000 / 1024
    ensures va == 0
  {
    assert va == 1024 * (va / 1024);
    assert va / 0x1000 / 1024 <= va / 4096;
    assert va / 4096 <= va / 1024;
  }

  /** A fence for one address leaves its translation cached. */
  lemma SelectiveFlushMisses(pte: bv32, asid: nat)
    ensures var t := [NewEntry(0, 0x8_0000, pte, false)];
            Lookup(Flushed(t, asid, 0x8000_0000), 0, 0x8000_0000 / 0x1000) == Some(t[0])
  {
    hide Sv32.G;
    var t := [NewEntry(0, 0x8_0000, pte, false)];
    assert Flushed(t, asid, 0x8000_0000) == t;
  }

  // --------------------------------------------------- on real page tables

  /** Bits 28..20 of satp. */
  function Key(satp: bv32): (r: nat) { (satp as int) / 0x10_0000 % 512 }

  /** Bits 30..22 of satp: the address-space identifier. */
  function Asid(satp: bv32): (r: nat) { (satp as int) / 0x40_0000 % 512 }

  /** The bits of the root's page number that take part in the key. */
  function RootTop(satp: bv32): (r: nat) { Sv32.SatpPpn(satp) / 0x10_0000 }

  lemma TopBits(s: nat)
    ensures s / 0x10_0000 == s / 0x40_0000 * 4 + s % 0x40_0000 / 0x10_0000
    ensures s % 0x40_0000 / 0x10_0000 < 4
  {
  }

  lemma KeyBits(q: nat, h: nat)
    requires h < 4
    ensures (q * 4 + h) % 512 == q % 512 % 128 * 4 + h
  {
    assert q % 512 % 128 == q % 128;
    assert q == 128 * (q / 128) + q % 128;
  }

  /** Seven bits of the ASID and two of the root's page number make the key. */
  lemma KeyOf(satp: bv32)
    ensures Key(satp) == Asid(satp) % 128 * 4 + RootTop(satp) && RootTop(satp) < 4
  {
    TopBits(satp as int);
    KeyBits((satp as int) / 0x40_0000, RootTop(satp));
  }

  /** Address spaces share a key, and so each other's entries, exactly when they agree
      in the low seven bits of the ASID and the top two of the root. */
  lemma SharedKeyIff(s: bv32, t: bv32)
    ensures Key(s) == Key(t) <==> Asid(s) % 128 == Asid(t) % 128 && RootTop(s) == RootTop(t)
  {
    hide Key, Asid, RootTop;
    KeyOf(s);
    KeyOf(t);
  }

  /** A flush by the ASID of `satp` removes the entries filled under it exactly when
      the ASID is 0, which flushes every address space, or is one of three that equal
      their key; with the root below 4 GiB, only when it is 0. */
  lemma AsidFlushIff(satp: bv32, vpn: nat, pte: bv32, mega: bool)
    ensures Flushes(NewEntry(Key(satp), vpn, pte, mega), Asid(satp), 0)
            <==> Asid(satp) == 0 || (Asid(satp), RootTop(satp)) in {(170, 2), (341, 1), (511, 3)}
  {
    hide Key, Asid, RootTop;
    KeyOf(satp);
    AsidSmall(satp);
    OwnKey(Asid(satp), RootTop(satp));
  }

  lemma AsidSmall(satp: bv32)
    ensures Asid(satp) < 512
  {
  }

  lemma OwnKey(a: nat, h: nat)
    requires a < 512 && h < 4
    ensures a == a % 128 * 4 + h <==> (a == 0 && h == 0) || (a, h) in {(170, 2), (341, 1), (511, 3)}
  {
    var k := a / 128;
    assert a == 128 * k + a % 128 && k < 4;
  }

  function PageAddr(vpn: nat): (r: Addr) { vpn % 0x10_0000 * 0x1000 }

  /** Page tables seen through a choice of root per key. */
  ghost function LeavesOf(w: Sv32.World, root: nat -> Addr): (l: Leaves)
    requires forall k :: root(k) % 0x1000 == 0
  {
    (key: nat, vpn: nat) => Sv32.LeafOf(w, root(key), PageAddr(vpn))
  }

  lemma SameFirstIndex(v: nat, u: nat)
    requires v / 1024 == u / 1024
    ensures Sv32.Vpn1(PageAddr(v)) == Sv32.Vpn1(PageAddr(u))
  {
    PageIndex(v);
    PageIndex(u);
  }

  lemma PageIndex(v: nat)
    ensures Sv32.Vpn1(PageAddr(v)) == v / 1024 % 1024
  {
    var q := v % 0x10_0000;
    assert q * 0x1000 / 0x40_0000 == q / 1024;
    assert q / 1024 < 1024;
    assert v == v / 0x10_0000 * 0x10_0000 + q;
    assert v / 1024 == v / 0x10_0000 * 1024 + q / 1024;
  }

  lemma WorldShared(w: Sv32.World, root: nat -> Addr)
    requires forall k :: root(k) % 0x1000 == 0
    ensures MegaShared(LeavesOf(w, root))
  {
    hide Sv32.LeafOf, PageAddr;
    var l := LeavesOf(w, root);
    forall key, v, u | l(key, v).Some? && l(key, v).value.mega && v / 1024 == u / 1024
      ensures l(key, u) == l(key, v)
    {
      SameFirstIndex(v, u);
      Sv32.MegaLeafShared(w, root(key), PageAddr(v), PageAddr(u));
    }
  }

  lemma ShiftTwice(x: nat)
    ensures x / 0x40_0000 == x / 0x1000 / 1024
  {
  }

  lemma SameIndices(va: Addr)
    ensures Sv32.Vpn1(PageAddr(va / 0x1000)) == Sv32.Vpn1(va)
    ensures Sv32.Vpn0(PageAddr(va / 0x1000)) == Sv32.Vpn0(va)
  {
    var page := PageAddr(va / 0x1000);
    assert page == va / 0x1000 * 0x1000;
    assert page / 0x1000 == va / 0x1000;
    ShiftTwice(page);
    ShiftTwice(va);
  }

  /** Only the page number of an address matters to the leaf. */
  lemma LeafOfPage(w: Sv32.World, root: Addr, va: Addr)
    requires root % 0x1000 == 0
    ensures Sv32.LeafOf(w, root, va) == Sv32.LeafOf(w, root, PageAddr(va / 0x1000))
  {
    hide Sv32.PteAt, Sv32.Vpn0, Sv32.Vpn1, Sv32.V, Sv32.IsLeaf, Sv32.CleanPointer, Sv32.Ppn, PageAddr;
    SameIndices(va);
  }

  /** While page tables and PMP stay fixed since the last full flush, every satp
      in use is the only one with its key, and global leaves agree, a table holds
      only true leaves (`RunTruth`).  Then each hit gives the verdict and the
      address of the full walk in the asker's world `w`, in U or S mode, whichever
      side and privilege filled the entry.  `key` and `root(key)` are those of the
      satp in use. */
  lemma HitsMatchWalks(w: Sv32.World, root: nat -> Addr, t: seq<Entry>, key: nat, va: Addr, who: Sv32.Who, hit: Entry)
    requires (forall k :: root(k) % 0x1000 == 0) && GlobalShared(LeavesOf(w, root))
    requires w.priv != 3
    requires AllTruthful(LeavesOf(w, root), t) && Lookup(t, key, va / 0x1000) == Some(hit)
    ensures Sv32.HitResult(Sv32.Leaf(hit.pte, hit.mega), va, who) == Sv32.Walk(w, root(key), va, who)
  {
    hide GlobalShared, MegaShared, Hits, Sv32.HitResult, Sv32.Walk, Sv32.LeafOf, PageAddr;
    WorldShared(w, root);
    HitTruth(LeavesOf(w, root), hit, key, va / 0x1000);
    LeafOfPage(w, root(key), va);
    Sv32.HitIsWalk(w, root(key), va, who);
  }

  /** The stores the walks make are honest, whichever privilege walked. */
  lemma WalkStoresHonestly(w: Sv32.World, root: nat -> Addr, priv: bv32, key: nat, va: Addr, who: Sv32.Who)
    requires forall k :: root(k) % 0x1000 == 0
    requires w.priv != 3 && priv != 3
    requires Sv32.Walk(w.(priv := priv), root(key), va, who).Pa?
    ensures Sv32.LeafOf(w.(priv := priv), root(key), va).Some?
    ensures Honest(LeavesOf(w, root), Insert(key, va / 0x1000, Sv32.LeafOf(w.(priv := priv), root(key), va).value))
  {
    hide Sv32.Walk, Sv32.LeafOf, PageAddr;
    Sv32.WalkFindsLeaf(w.(priv := priv), root(key), va, who);
    Sv32.SameLeaf(w, priv, root(key), va);
    LeafOfPage(w, root(key), va);
  }
}
