/** The data port of main memory (src/memory.hpp:128-154, 706-843), with RAM as
    one flat byte array. */
module Memory {
  import Bits

  const SPACE := 0x1_0000_0000

  type Addr = a: int | 0 <= a < SPACE

  /** Bytes never written are zero; `resv` holds the reserved byte addresses. */
  datatype Mem = Mem(bytes: map<int, bv8>, resv: set<int>)

  datatype Req = Req(
    ack: bool, addr: Addr, wdata: bv32, size: nat, isLoad: bool, isStore: bool, isAmo: bool, amoOp: bv8)

  const NO_REQ := Req(false, 0, 0, 4, false, false, false, 0)

  datatype Rsp = Rsp(ack: bool, rdata: bv32, fault: bool)

  const NO_RSP := Rsp(false, 0, false)

  /** Address of byte `i` of an access, modulo 2^32. */
  function At(a: Addr, i: nat): (r: Addr) { (a + i) % SPACE }

  function Byte(m: Mem, a: Addr): (r: bv8) { if a in m.bytes then m.bytes[a] else 0 }

  function Push(acc: bv32, b: bv8): (r: bv32) { (acc << 8) | (b as bv32) }

  function DropByte(w: bv32): (r: bv32) { w >> 8 }

  /** Bytes i.., i+1.., up to `size`, most significant last. */
  function ReadFrom(m: Mem, a: Addr, i: nat, size: nat): (r: bv32)
    requires i <= size
    decreases size - i
  {
    if i == size then 0 else Push(ReadFrom(m, a, i + 1, size), Byte(m, At(a, i)))
  }

  function Read(m: Mem, a: Addr, size: nat): (r: bv32) { ReadFrom(m, a, 0, size) }

  /** Writing a byte also drops its reservation. */
  function PutByte(m: Mem, a: Addr, v: bv8): (r: Mem) { Mem(m.bytes[a := v], m.resv - {a}) }

  function WriteFrom(m: Mem, a: Addr, i: nat, size: nat, w: bv32): (r: Mem)
    requires i <= size
    decreases size - i
  {
    if i == size then m else WriteFrom(PutByte(m, At(a, i), Bits.LowByte(w)), a, i + 1, size, DropByte(w))
  }

  function Write(m: Mem, a: Addr, size: nat, w: bv32): (r: Mem) { WriteFrom(m, a, 0, size, w) }

  function Reserve(m: Mem, a: Addr, size: nat): (r: Mem) {
    m.(resv := m.resv + set i | 0 <= i < size :: At(a, i))
  }

  function Min(a: bv32, b: bv32): (r: bv32) { if b < a then b else a }

  function Max(a: bv32, b: bv32): (r: bv32) { if a < b then b else a }

  predicate SignedLess(a: bv32, b: bv32) { a ^ 0x8000_0000 < b ^ 0x8000_0000 }

  function AmoResult(op: bv8, a: bv32, b: bv32): (r: bv32) {
    if op == 2 then a
    else if op == 3 then a + b
    else if op == 4 then a ^ b
    else if op == 5 then a & b
    else if op == 6 then a | b
    else if op == 7 then (if SignedLess(b, a) then b else a)
    else if op == 8 then (if SignedLess(a, b) then b else a)
    else if op == 9 then Min(a, b)
    else if op == 10 then Max(a, b)
    else 0
  }

  predicate Within(a: int, lo: int, hi: int) { lo <= a < hi }

  /** UART and CLINT windows refuse atomics. */
  predicate DeviceAddress(a: Addr, size: nat) {
    || Within(a, 0x1000_0000, 0x1000_0100) || Within(At(a, size), 0x1000_0000, 0x1000_0100)
    || Within(a, 0x2000_0000, 0x2001_0000) || Within(At(a, size), 0x2000_0000, 0x2001_0000)
  }

  /** SC succeeds (0) when the first byte is reserved, else fails (1). */
  function ScResult(m: Mem, a: Addr): (r: bv32) { if a in m.resv then 0 else 1 }

  /** The answer that follows a request (`mem_access`). */
  function MemAccess(m: Mem, q: Req): (r: Rsp) {
    if !q.ack then NO_RSP
    else if q.isAmo && q.addr % 4 == 0 then
      if DeviceAddress(q.addr, q.size) then Rsp(true, 0, true)
      else Rsp(true, if q.amoOp == 1 then ScResult(m, q.addr) else Read(m, q.addr, q.size), false)
    else if q.isLoad then Rsp(true, Read(m, q.addr, q.size), false)
    else if q.isStore then Rsp(true, 0, false)
    else Rsp(true, 0, true)
  }

  /** The change made at the next clock edge (`update_memory`). */
  function Commit(m: Mem, q: Req, r: Rsp): (n: Mem) {
    if !r.ack || r.fault then m
    else if q.isAmo then
      if q.amoOp == 0 then Reserve(m, q.addr, q.size)
      else if q.amoOp == 1 then (if r.rdata == 0 then Write(m, q.addr, q.size, q.wdata) else m)
      else Write(m, q.addr, q.size, AmoResult(q.amoOp, q.wdata, r.rdata))
    else if q.isStore then Write(m, q.addr, q.size, q.wdata)
    else m
  }

  /** A load changes nothing. */
  lemma LoadCommitsNothing(m: Mem, q: Req, r: Rsp)
    requires !q.isAmo && !q.isStore
    ensures Commit(m, q, r) == m
  {
  }

  // ------------------------------------------------------------ stores and loads

  /** Byte `a` is one of the `size` bytes from `base`. */
  ghost predicate Covers(base: Addr, size: nat, a: Addr) { exists i :: 0 <= i < size && At(base, i) == a }

  lemma {:induction false} WriteElsewhere(m: Mem, a: Addr, i: nat, size: nat, w: bv32, b: Addr)
    requires i <= size && forall k :: i <= k < size ==> At(a, k) != b
    ensures Byte(WriteFrom(m, a, i, size, w), b) == Byte(m, b)
    ensures b in WriteFrom(m, a, i, size, w).resv <==> b in m.resv
    decreases size - i
  {
    hide Bits.LowByte, DropByte, At;
    if i < size {
      WriteElsewhere(PutByte(m, At(a, i), Bits.LowByte(w)), a, i + 1, size, DropByte(w), b);
    }
  }

  lemma {:induction false} WriteHere(m: Mem, a: Addr, i: nat, size: nat, w: bv32, k: nat)
    requires i <= k < size <= 4
    ensures At(a, k) !in WriteFrom(m, a, i, size, w).resv
    ensures k == i ==> Byte(WriteFrom(m, a, i, size, w), At(a, k)) == Bits.LowByte(w)
    decreases size - i
  {
    hide Bits.LowByte, DropByte, At;
    var n := PutByte(m, At(a, i), Bits.LowByte(w));
    if k == i {
      forall j | i + 1 <= j < size ensures At(a, j) != At(a, i) { DistinctBytes(a, i, j); }
      WriteElsewhere(n, a, i + 1, size, DropByte(w), At(a, i));
    } else {
      WriteHere(n, a, i + 1, size, DropByte(w), k);
    }
  }

  lemma DistinctBytes(a: Addr, i: nat, j: nat)
    requires i < j < i + 4 && j < 4
    ensures At(a, i) != At(a, j)
  {
  }

  lemma Reassemble(w: bv32)
    ensures Push(DropByte(w), Bits.LowByte(w)) == w
  {
  }

  lemma DropAll(w: bv32)
    ensures DropByte(DropByte(DropByte(DropByte(w)))) == 0
  {
  }

  /** A word read back after a word store is the word stored. */
  lemma {:induction false} StoreThenLoad(m: Mem, a: Addr, w: bv32)
    ensures Read(Write(m, a, 4, w), a, 4) == w
  {
    hide Bits.LowByte, DropByte, At, Push;
    var w1, n1 := DropByte(w), PutByte(m, At(a, 0), Bits.LowByte(w));
    var w2, n2 := DropByte(w1), PutByte(n1, At(a, 1), Bits.LowByte(w1));
    var w3, n3 := DropByte(w2), PutByte(n2, At(a, 2), Bits.LowByte(w2));
    var w4, n4 := DropByte(w3), PutByte(n3, At(a, 3), Bits.LowByte(w3));
    assert WriteFrom(n3, a, 3, 4, w3) == WriteFrom(n4, a, 4, 4, w4) == n4;
    assert WriteFrom(n2, a, 2, 4, w2) == n4;
    assert WriteFrom(n1, a, 1, 4, w1) == n4;
    assert Write(m, a, 4, w) == n4;
    DistinctBytes(a, 0, 1);
    DistinctBytes(a, 0, 2);
    DistinctBytes(a, 0, 3);
    DistinctBytes(a, 1, 2);
    DistinctBytes(a, 1, 3);
    DistinctBytes(a, 2, 3);
    Reassemble(w);
    Reassemble(w1);
    Reassemble(w2);
    Reassemble(w3);
    DropAll(w);
    assert ReadFrom(n4, a, 4, 4) == 0;
    assert ReadFrom(n4, a, 3, 4) == w3;
    assert ReadFrom(n4, a, 2, 4) == w2;
    assert ReadFrom(n4, a, 1, 4) == w1;
  }

  // -------------------------------------------------------------- LR/SC history

  /** What an edge can do to memory. */
  datatype Act = Reserves(base: Addr, size: nat) | Writes(base: Addr, size: nat, w: bv32)

  function Do(m: Mem, x: Act): (n: Mem) {
    match x
    case Reserves(a, size) => Reserve(m, a, size)
    case Writes(a, size, w) => Write(m, a, size, w)
  }

  function DoAll(m: Mem, xs: seq<Act>): (n: Mem)
    decreases |xs|
  {
    if xs == [] then m else Do(DoAll(m, xs[..|xs| - 1]), xs[|xs| - 1])
  }

  /** The acts of one committed request: at most one. */
  function ActsOf(q: Req, r: Rsp): (xs: seq<Act>) {
    if !r.ack || r.fault then []
    else if q.isAmo then
      if q.amoOp == 0 then [Reserves(q.addr, q.size)]
      else if q.amoOp == 1 then (if r.rdata == 0 then [Writes(q.addr, q.size, q.wdata)] else [])
      else [Writes(q.addr, q.size, AmoResult(q.amoOp, q.wdata, r.rdata))]
    else if q.isStore then [Writes(q.addr, q.size, q.wdata)]
    else []
  }

  lemma CommitIsActs(m: Mem, q: Req, r: Rsp)
    ensures Commit(m, q, r) == DoAll(m, ActsOf(q, r))
  {
    hide AmoResult, Reserve, Write;
    var xs := ActsOf(q, r);
    if xs != [] {
      assert xs[..0] == [];
    }
  }

  /** Some LR covered the byte, and no write to it came later. */
  ghost predicate HeldByLr(xs: seq<Act>, a: Addr) {
    exists k :: 0 <= k < |xs| && LrAt(xs, k, a) && forall j :: k < j < |xs| ==> !WriteAt(xs, j, a)
  }

  ghost predicate LrAt(xs: seq<Act>, k: int, a: Addr)
    requires 0 <= k < |xs|
  {
    xs[k].Reserves? && Covers(xs[k].base, xs[k].size, a)
  }

  ghost predicate WriteAt(xs: seq<Act>, k: int, a: Addr)
    requires 0 <= k < |xs|
  {
    xs[k].Writes? && Covers(xs[k].base, xs[k].size, a)
  }

  lemma DoReservation(m: Mem, x: Act, a: Addr)
    requires x.size <= 4
    ensures x.Reserves? ==> (a in Do(m, x).resv <==> a in m.resv || Covers(x.base, x.size, a))
    ensures x.Writes? ==> (a in Do(m, x).resv <==> a in m.resv && !Covers(x.base, x.size, a))
  {
    hide Bits.LowByte, DropByte, At;
    if x.Writes? {
      if Covers(x.base, x.size, a) {
        var i :| 0 <= i < x.size && At(x.base, i) == a;
        WriteHere(m, x.base, 0, x.size, x.w, i);
      } else {
        WriteElsewhere(m, x.base, 0, x.size, x.w, a);
      }
    }
  }

  /** A reservation the last act did not make was there before it. */
  lemma HeldBefore(xs: seq<Act>, a: Addr)
    requires xs != []
    ensures HeldByLr(xs, a) && !LrAt(xs, |xs| - 1, a) ==> HeldByLr(xs[..|xs| - 1], a)
  {
    hide Covers;
    var ys := xs[..|xs| - 1];
    if HeldByLr(xs, a) && !LrAt(xs, |xs| - 1, a) {
      var k :| 0 <= k < |xs| && LrAt(xs, k, a) && forall j :: k < j < |xs| ==> !WriteAt(xs, j, a);
      assert LrAt(ys, k, a);
      forall j | k < j < |ys| ensures !WriteAt(ys, j, a) {
        assert !WriteAt(xs, j, a);
      }
    }
  }

  /** In every history from memory without reservations: SC finds the byte
      reserved exactly when an LR covered it with no write to it since. */
  lemma {:induction false} ReservationHistory(m: Mem, xs: seq<Act>, a: Addr)
    requires m.resv == {} && forall x :: x in xs ==> x.size <= 4
    ensures a in DoAll(m, xs).resv <==> HeldByLr(xs, a)
    ensures ScResult(DoAll(m, xs), a) == 0 <==> HeldByLr(xs, a)
    decreases |xs|
  {
    hide Covers, Do;
    if xs != [] {
      var n := |xs| - 1;
      var ys := xs[..n];
      assert xs[n] in xs;
      ReservationHistory(m, ys, a);
      DoReservation(DoAll(m, ys), xs[n], a);
      HeldBefore(xs, a);
      assert forall k :: 0 <= k < n ==> LrAt(ys, k, a) == LrAt(xs, k, a) && WriteAt(ys, k, a) == WriteAt(xs, k, a);
      if LrAt(xs, n, a) {
        assert HeldByLr(xs, a);
      } else if WriteAt(xs, n, a) {
        assert !HeldByLr(xs, a);
      } else if HeldByLr(ys, a) {
        var k :| 0 <= k < n && LrAt(ys, k, a) && forall j :: k < j < n ==> !WriteAt(ys, j, a);
        assert LrAt(xs, k, a) && forall j :: k < j < |xs| ==> !WriteAt(xs, j, a);
      }
    }
  }
}
