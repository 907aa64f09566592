/** Segmented RAM (src/memory.hpp:508-607): 4 MiB segments made on first use, and
    cached pointers to the last data and instruction segments.  It behaves as
    one flat byte array with a reservation bit per byte. */
module Ram {
  import opened Memory

  /** Segment size of both test benches (src/tb.hpp:122, 208); a power of two, so
      masking the low bits off is this subtraction. */
  const SEG := 0x40_0000

  function FindSeg(a: Addr): (r: Addr)
    ensures r <= a < r + SEG
  {
    a - a % SEG
  }

  lemma SameSeg(a: Addr, i: int)
    requires a % 4 == 0 && 0 <= i < 4
    ensures a + i < SPACE && FindSeg(a + i) == FindSeg(a) && a + i == At(a, i)
  {
    assert a % SEG % 4 == 0;
    assert a % SEG + i < SEG;
  }

  type Segs = map<int, seq<bv8>>
  type Bits = map<int, seq<bool>>

  const ZEROS: seq<bv8> := seq(SEG, _ => 0)
  const CLEAR: seq<bool> := seq(SEG, _ => false)

  /** Both tables hold the same, full-sized segments. */
  ghost predicate Sized(segs: Segs, bits: Bits) {
    segs.Keys == bits.Keys && forall k :: k in segs ==> |segs[k]| == SEG && |bits[k]| == SEG
  }

  /** A byte agrees with the flat memory; unbuilt segments are zero and unreserved. */
  ghost predicate Agrees(segs: Segs, bits: Bits, flat: Mem, a: Addr)
    requires Sized(segs, bits)
  {
    var s := FindSeg(a);
    if s in segs then segs[s][a - s] == Byte(flat, a) && bits[s][a - s] == (a in flat.resv)
    else Byte(flat, a) == 0 && a !in flat.resv
  }

  ghost predicate AllAgree(segs: Segs, bits: Bits, flat: Mem) {
    Sized(segs, bits) && forall a: Addr :: Agrees(segs, bits, flat, a)
  }

  lemma NewSegAgrees(segs: Segs, bits: Bits, flat: Mem, base: Addr)
    requires AllAgree(segs, bits, flat) && base !in segs
    ensures AllAgree(segs[base := ZEROS], bits[base := CLEAR], flat)
  {
    hide FindSeg, Byte;
    var segs', bits' := segs[base := ZEROS], bits[base := CLEAR];
    forall a: Addr ensures Agrees(segs', bits', flat, a) {
      assert Agrees(segs, bits, flat, a);
    }
  }

  lemma PutAgrees(segs: Segs, bits: Bits, flat: Mem, addr: Addr, v: bv8)
    requires AllAgree(segs, bits, flat) && FindSeg(addr) in segs
    ensures var s := FindSeg(addr);
            AllAgree(segs[s := segs[s][addr - s := v]], bits[s := bits[s][addr - s := false]], PutByte(flat, addr, v))
  {
    hide FindSeg;
    var s := FindSeg(addr);
    var segs', bits' := segs[s := segs[s][addr - s := v]], bits[s := bits[s][addr - s := false]];
    forall a: Addr ensures Agrees(segs', bits', PutByte(flat, addr, v), a) {
      assert Agrees(segs, bits, flat, a);
    }
  }

  lemma ReserveAgrees(segs: Segs, bits: Bits, flat: Mem, addr: Addr)
    requires AllAgree(segs, bits, flat) && FindSeg(addr) in segs
    ensures var s := FindSeg(addr);
            AllAgree(segs, bits[s := bits[s][addr - s := true]], flat.(resv := flat.resv + {addr}))
  {
    hide FindSeg;
    var s := FindSeg(addr);
    var bits' := bits[s := bits[s][addr - s := true]];
    forall a: Addr ensures Agrees(segs, bits', flat.(resv := flat.resv + {addr}), a) {
      assert Agrees(segs, bits, flat, a);
    }
  }

  lemma EmptyAgrees(base: Addr)
    ensures AllAgree(map[base := ZEROS], map[base := CLEAR], Mem(map[], {}))
  {
    hide FindSeg;
  }

  /** Pointers are named by the key of the segment they point to. */
  class Ram {
    var segTable: Segs
    var reservation: Bits
    var dsegBase: Addr
    var isegBase: Addr
    var dmem: Addr
    var imem: Addr
    var dreserve: Addr
    /** The flat memory this stands for. */
    ghost var flat: Mem

    /** The cached pointers point where the cached bases say, at built segments. */
    ghost predicate Valid()
      reads this
    {
      && AllAgree(segTable, reservation, flat)
      && dmem == dreserve == dsegBase && imem == isegBase && dmem in segTable && imem in segTable
    }

    /** One segment at 0x80000000 to begin with, everything zero. */
    constructor ()
      ensures Valid() && flat == Mem(map[], {})
    {
      segTable := map[0x8000_0000 := ZEROS];
      reservation := map[0x8000_0000 := CLEAR];
      dsegBase, isegBase := 0x8000_0000, 0x8000_0000;
      dmem, imem, dreserve := 0x8000_0000, 0x8000_0000, 0x8000_0000;
      flat := Mem(map[], {});
      EmptyAgrees(0x8000_0000);
    }

    method BuildSeg(base: Addr)
      requires Valid()
      modifies `segTable, `reservation
      ensures Valid() && base in segTable
    {
      hide AllAgree;
      if base !in segTable {
        NewSegAgrees(segTable, reservation, flat, base);
        segTable := segTable[base := ZEROS];
        reservation := reservation[base := CLEAR];
      }
    }

    /** Point the data cache at the segment of `addr`. */
    method SelectData(addr: Addr)
      requires Valid()
      modifies `segTable, `reservation, `dsegBase, `dmem, `dreserve
      ensures Valid() && dsegBase == FindSeg(addr)
    {
      hide AllAgree, FindSeg;
      var base := FindSeg(addr);
      if dsegBase != base {
        BuildSeg(base);
        dsegBase := base;
        dmem := dsegBase;
        dreserve := dsegBase;
      }
    }

    method Read(addr: Addr) returns (b: bv8)
      requires Valid()
      modifies `segTable, `reservation, `dsegBase, `dmem, `dreserve
      ensures Valid() && b == Byte(flat, addr)
    {
      hide FindSeg, Byte;
      SelectData(addr);
      assert Agrees(segTable, reservation, flat, addr);
      b := segTable[dmem][addr - dsegBase];
    }

    method Write(addr: Addr, val: bv8)
      requires Valid()
      modifies this
      ensures Valid() && flat == PutByte(old(flat), addr, val) && isegBase == old(isegBase)
    {
      hide FindSeg, Agrees;
      SelectData(addr);
      PutAgrees(segTable, reservation, flat, addr, val);
      segTable := segTable[dmem := segTable[dmem][addr - dsegBase := val]];
      reservation := reservation[dreserve := reservation[dreserve][addr - dsegBase := false]];
      flat := PutByte(flat, addr, val);
    }

    /** Four bytes from one segment, most significant first. */
    method FetchWord(addr: Addr) returns (w: bv32)
      requires Valid() && addr % 4 == 0
      modifies `segTable, `reservation, `isegBase, `imem
      ensures Valid() && w == Memory.Read(flat, addr, 4)
    {
      hide FindSeg, Byte, Push, At;
      var base := FindSeg(addr);
      if isegBase != base {
        BuildSeg(base);
        isegBase := base;
        imem := isegBase;
      }
      w := 0;
      var i := 4;
      while i > 0
        invariant 0 <= i <= 4 && w == ReadFrom(flat, addr, i, 4)
        invariant Valid() && isegBase == base
      {
        i := i - 1;
        SameSeg(addr, i);
        assert Agrees(segTable, reservation, flat, addr + i);
        w := Push(w, segTable[imem][addr + i - isegBase]);
      }
    }

    /** True when SC must fail: the byte is not reserved. */
    method AmoSc(addr: Addr) returns (fails: bool)
      requires Valid()
      modifies `segTable, `reservation, `dsegBase, `dmem, `dreserve
      ensures Valid() && fails == (addr !in flat.resv)
    {
      hide FindSeg, Byte;
      SelectData(addr);
      assert Agrees(segTable, reservation, flat, addr);
      fails := !reservation[dreserve][addr - dsegBase];
    }

    method AmoLr(addr: Addr)
      requires Valid()
      modifies this
      ensures Valid() && flat == old(flat).(resv := old(flat).resv + {addr}) && isegBase == old(isegBase)
    {
      hide FindSeg, Agrees;
      SelectData(addr);
      ReserveAgrees(segTable, reservation, flat, addr);
      reservation := reservation[dreserve := reservation[dreserve][addr - dsegBase := true]];
      flat := flat.(resv := flat.resv + {addr});
    }
  }
}
