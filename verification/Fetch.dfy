/** The fetch buffer (src/fetch.hpp:39-223): three 64-bit shift registers that
    act as one queue of up to four halfwords with fault tags. */
module Fetch {
  import opened Memory

  // --------------------------------------------------------- lanes of a register

  function L0(b: bv64): (r: bv64) { b & 0xFFFF }
  function L1(b: bv64): (r: bv64) { (b >> 16) & 0xFFFF }
  function L2(b: bv64): (r: bv64) { (b >> 32) & 0xFFFF }
  function L3(b: bv64): (r: bv64) { (b >> 48) & 0xFFFF }

  /** Nothing at or above lane 1, 2, 3. */
  predicate A1(b: bv64) { b & 0xFFFF_FFFF_FFFF_0000 == 0 }
  predicate A2(b: bv64) { b & 0xFFFF_FFFF_0000_0000 == 0 }
  predicate A3(b: bv64) { b & 0xFFFF_0000_0000_0000 == 0 }

  predicate Above(b: bv64, n: int) {
    if n == 0 then b == 0 else if n == 1 then A1(b) else if n == 2 then A2(b) else if n == 3 then A3(b) else n == 4
  }

  function Pop1(b: bv64): (r: bv64) { b >> 16 }
  function Pop2(b: bv64): (r: bv64) { b >> 32 }

  function P0(b: bv64, w: bv64): (r: bv64) { b | w }
  function P1(b: bv64, w: bv64): (r: bv64) { b | (w << 16) }
  function P2(b: bv64, w: bv64): (r: bv64) { b | (w << 32) }

  /** OR a word in at bit position idx = 16 n. */
  function Put(b: bv64, w: bv64, n: int): (r: bv64)
    requires 0 <= n <= 2
  {
    if n == 0 then P0(b, w) else if n == 1 then P1(b, w) else P2(b, w)
  }

  predicate IsWord(w: bv64) { w & 0xFFFF_FFFF_0000_0000 == 0 }
  function Low(w: bv64): (r: bv64) { w & 0xFFFF }
  function High(w: bv64): (r: bv64) { w >> 16 }

  lemma Pop1Lanes(b: bv64)
    ensures L0(Pop1(b)) == L1(b)
    ensures L1(Pop1(b)) == L2(b)
    ensures L2(Pop1(b)) == L3(b)
  {
  }

  lemma Pop1Empties(b: bv64)
    requires A1(b)
    ensures Pop1(b) == 0
  {
  }

  lemma Pop1Leaves1(b: bv64)
    requires A2(b)
    ensures A1(Pop1(b))
  {
  }

  lemma Pop1Leaves2(b: bv64)
    requires A3(b)
    ensures A2(Pop1(b))
  {
  }

  lemma Pop1Leaves3(b: bv64)
    ensures A3(Pop1(b))
  {
  }

  lemma Pop1Above(b: bv64)
    ensures A1(b) ==> Pop1(b) == 0
    ensures A2(b) ==> A1(Pop1(b))
    ensures A3(b) ==> A2(Pop1(b))
    ensures A3(Pop1(b))
  {
    hide A1, A2, A3, Pop1;
    if A1(b) { Pop1Empties(b); }
    if A2(b) { Pop1Leaves1(b); }
    if A3(b) { Pop1Leaves2(b); }
    Pop1Leaves3(b);
  }

  lemma Pop2Lanes(b: bv64)
    ensures L0(Pop2(b)) == L2(b)
    ensures L1(Pop2(b)) == L3(b)
  {
  }

  lemma Pop2Empties(b: bv64)
    requires A2(b)
    ensures Pop2(b) == 0
  {
  }

  lemma Pop2Leaves1(b: bv64)
    requires A3(b)
    ensures A1(Pop2(b))
  {
  }

  lemma Pop2Leaves2(b: bv64)
    ensures A2(Pop2(b))
  {
  }

  lemma Pop2Above(b: bv64)
    ensures A2(b) ==> Pop2(b) == 0
    ensures A3(b) ==> A1(Pop2(b))
    ensures A2(Pop2(b))
  {
    hide A1, A2, A3, Pop2;
    if A2(b) { Pop2Empties(b); }
    if A3(b) { Pop2Leaves1(b); }
    Pop2Leaves2(b);
  }

  lemma LoadWord(w: bv64)
    requires IsWord(w)
    ensures A2(w)
    ensures L0(w) == Low(w)
    ensures L1(w) == High(w)
  {
  }

  lemma LoadHalf(w: bv64)
    requires IsWord(w)
    ensures A1(High(w))
    ensures L0(High(w)) == High(w)
  {
  }

  lemma PutAt0(w: bv64)
    ensures P0(0, w) == w
  {
  }

  lemma PutAt1(b: bv64, w: bv64)
    requires A1(b) && IsWord(w)
    ensures L0(P1(b, w)) == L0(b)
    ensures L1(P1(b, w)) == Low(w)
    ensures L2(P1(b, w)) == High(w)
    ensures A3(P1(b, w))
  {
  }

  lemma PutAt2(b: bv64, w: bv64)
    requires A2(b) && IsWord(w)
    ensures L0(P2(b, w)) == L0(b)
    ensures L1(P2(b, w)) == L1(b)
    ensures L2(P2(b, w)) == Low(w)
    ensures L3(P2(b, w)) == High(w)
  {
  }

  // ------------------------------------------------------------ lanes as a queue

  function Lanes(b: bv64, n: int): (r: seq<bv64>)
    requires 0 <= n <= 4
    ensures |r| == n
  {
    [L0(b), L1(b), L2(b), L3(b)][..n]
  }

  lemma Pop1Queue(b: bv64, n: int)
    requires Above(b, n) && 1 <= n <= 4
    ensures Above(Pop1(b), n - 1) && Lanes(Pop1(b), n - 1) == Lanes(b, n)[1..]
  {
    hide L0, L1, L2, L3, A1, A2, A3, Pop1;
    Pop1Above(b);
    Pop1Lanes(b);
  }

  lemma Pop2Queue(b: bv64, n: int)
    requires Above(b, n) && 2 <= n <= 4
    ensures Above(Pop2(b), n - 2) && Lanes(Pop2(b), n - 2) == Lanes(b, n)[2..]
  {
    hide L0, L1, L2, L3, A1, A2, A3, Pop2;
    Pop2Above(b);
    Pop2Lanes(b);
  }

  lemma LoadQueue(w: bv64)
    requires IsWord(w)
    ensures Above(w, 2) && Lanes(w, 2) == [Low(w), High(w)]
    ensures Above(High(w), 1) && Lanes(High(w), 1) == [High(w)]
  {
    hide L0, L1, L2, L3, A1, A2, A3, IsWord, Low, High;
    LoadWord(w);
    LoadHalf(w);
  }

  lemma PutQueue1(b: bv64, w: bv64)
    requires Above(b, 1) && IsWord(w)
    ensures Above(Put(b, w, 1), 3) && Lanes(Put(b, w, 1), 3) == Lanes(b, 1) + [Low(w), High(w)]
  {
    hide L0, L1, L2, L3, A1, A2, A3, P0, P1, P2, IsWord, Low, High;
    PutAt1(b, w);
  }

  lemma PutQueue2(b: bv64, w: bv64)
    requires Above(b, 2) && IsWord(w)
    ensures Above(Put(b, w, 2), 4) && Lanes(Put(b, w, 2), 4) == Lanes(b, 2) + [Low(w), High(w)]
  {
    hide L0, L1, L2, L3, A1, A2, A3, P0, P1, P2, IsWord, Low, High;
    PutAt2(b, w);
  }

  lemma PutQueue0(b: bv64, w: bv64)
    requires Above(b, 0) && IsWord(w)
    ensures Above(Put(b, w, 0), 2) && Lanes(Put(b, w, 0), 2) == Lanes(b, 0) + [Low(w), High(w)]
  {
    hide L0, L1, L2, L3, A1, A2, A3, P0, P1, P2, IsWord, Low, High;
    PutAt0(w);
    LoadQueue(w);
  }

  lemma PutQueue(b: bv64, w: bv64, n: int)
    requires Above(b, n) && IsWord(w) && 0 <= n <= 2
    ensures Above(Put(b, w, n), n + 2) && Lanes(Put(b, w, n), n + 2) == Lanes(b, n) + [Low(w), High(w)]
  {
    hide Above, Put, Lanes, IsWord, Low, High;
    if n == 0 { PutQueue0(b, w); } else if n == 1 { PutQueue1(b, w); } else { PutQueue2(b, w); }
  }

  // ------------------------------------------------------------- the queue itself

  /** A halfword of instruction memory and its two fault tags. */
  datatype Half = Half(data: bv64, page: bv64, access: bv64)

  datatype Queue = Queue(items: seq<Half>, addr: Addr)
  {
    /** Address just past the last held halfword. */
    function End(): (r: Addr) { At(addr, 2 * |items|) }
  }

  const EMPTY := Queue([], 0)

  /** Two low bits set: a 32-bit instruction. */
  predicate Long(d: bv64) { d & 3 == 3 }

  predicate Tagged(t: bv64) { t & 1 != 0 }

  predicate LongFirst(q: Queue) { |q.items| > 0 && Long(q.items[0].data) }

  function Need(q: Queue): (r: nat) { if LongFirst(q) then 2 else 1 }

  /** What the instruction MMU delivers: a word, its address, a fault code. */
  datatype Word = Word(data: bv64, fault: int)

  const PAGE_FAULT := 12
  const ACCESS_FAULT := 1

  function Spread(on: bool): (r: bv64) { if on then 0xFFFF_FFFF else 0 }

  function LowHalf(w: Word): (r: Half) {
    Half(Low(w.data), Low(Spread(w.fault == PAGE_FAULT)), Low(Spread(w.fault == ACCESS_FAULT)))
  }

  function HighHalf(w: Word): (r: Half) {
    Half(High(w.data), High(Spread(w.fault == PAGE_FAULT)), High(Spread(w.fault == ACCESS_FAULT)))
  }

  /** Signals of one cycle; `ifFlush` is the buffer's own output of the edge before. */
  datatype Cycle = Cycle(reset: bool, ack: bool, drop: bool, stall: bool, pc: Addr, word: Word)

  predicate Pops(c: Cycle, ifFlush: bool) { !c.stall && !ifFlush }

  function Popped(q: Queue): (r: Queue)
    requires |q.items| >= Need(q)
  {
    Queue(q.items[Need(q)..], At(q.addr, 2 * Need(q)))
  }

  function Pushed(q: Queue, w: Word): (r: Queue) { q.(items := q.items + [LowHalf(w), HighHalf(w)]) }

  function Reloaded(pc: Addr, w: Word): (r: Queue) {
    Queue(if pc % 4 != 0 then [HighHalf(w)] else [LowHalf(w), HighHalf(w)], pc)
  }

  /** One rising edge on the queue: restart, restart elsewhere, take from the
      front, add at the back while there is room. */
  function Advance(q: Queue, ifFlush: bool, c: Cycle): (r: Queue)
    requires !ifFlush ==> |q.items| >= Need(q)
  {
    if c.reset then EMPTY
    else if c.ack && !c.drop then
      if c.pc != q.End() then Reloaded(c.pc, c.word)
      else
        var p := if Pops(c, ifFlush) then Popped(q) else q;
        if |p.items| <= 2 then Pushed(p, c.word) else p
    else if Pops(c, ifFlush) then Popped(q)
    else q
  }

  /** Whether the front does not yet hold a whole instruction. */
  predicate Incomplete(q: Queue) { |q.items| < Need(q) }

  datatype Report = Report(fault: int, tval: Addr)

  /** The first faulting halfword of the instruction at the front. */
  function Faulting(q: Queue, j: nat): (r: Report)
    requires j <= Need(q) <= |q.items|
    decreases Need(q) - j
  {
    if j == Need(q) then Report(0, 0)
    else if Tagged(q.items[j].access) then Report(ACCESS_FAULT, At(q.addr, 2 * j))
    else if Tagged(q.items[j].page) then Report(PAGE_FAULT, At(q.addr, 2 * j))
    else Faulting(q, j + 1)
  }

  // ---------------------------------------------------------------- truthfulness

  /** Instruction memory as fetched: aligned words with their fault codes. */
  type IMem = Addr -> Word

  function WordBase(a: Addr): (r: Addr) { a - a % 4 }

  function HalfAt(im: IMem, a: Addr): (r: Half) {
    if a % 4 == 0 then LowHalf(im(a)) else HighHalf(im(WordBase(a)))
  }

  /** The queue holds exactly memory from its address on, ending at a word boundary. */
  ghost predicate Holds(q: Queue, im: IMem) {
    && q.addr % 2 == 0 && q.End() % 4 == 0 && |q.items| <= 4
    && ItemsTrue(q.items, q.addr, im)
  }

  predicate TrueWord(im: IMem, c: Cycle) { c.pc % 2 == 0 && (c.ack && !c.drop ==> c.word == im(WordBase(c.pc))) }

  lemma AtAt(a: Addr, i: nat, j: nat)
    ensures At(At(a, i), j) == At(a, i + j)
  {
  }

  ghost predicate ItemsTrue(items: seq<Half>, a: Addr, im: IMem) {
    forall j :: 0 <= j < |items| ==> items[j] == HalfAt(im, At(a, 2 * j))
  }

  lemma DropItems(items: seq<Half>, a: Addr, im: IMem, k: nat)
    requires ItemsTrue(items, a, im) && k <= |items|
    ensures ItemsTrue(items[k..], At(a, 2 * k), im)
  {
    hide HalfAt, At;
    forall j | 0 <= j < |items[k..]| ensures items[k..][j] == HalfAt(im, At(At(a, 2 * k), 2 * j)) {
      AtAt(a, 2 * k, 2 * j);
      assert items[k..][j] == items[k + j];
    }
  }

  lemma PopHolds(q: Queue, im: IMem)
    requires Holds(q, im) && |q.items| >= Need(q)
    ensures Holds(Popped(q), im) && Popped(q).End() == q.End()
  {
    var k := Need(q);
    hide HalfAt, Long, At, Need, LongFirst, ItemsTrue;
    DropItems(q.items, q.addr, im, k);
    AtAt(q.addr, 2 * k, 2 * (|q.items| - k));
    AtEven(q.addr, 2 * k);
  }

  lemma AtEven(a: Addr, k: nat)
    requires a % 2 == 0 && k % 2 == 0
    ensures At(a, k) % 2 == 0
  {
  }

  lemma AtNext(a: Addr)
    requires a % 4 == 0
    ensures At(a, 2) % 4 == 2 && WordBase(At(a, 2)) == a && At(a, 4) % 4 == 0
  {
  }

  lemma AtZero(a: Addr)
    ensures At(a, 0) == a
  {
  }

  lemma NextFour(a: nat)
    requires a % 4 == 2
    ensures (a + 2) % 4 == 0
  {
    assert a == 4 * (a / 4) + 2;
  }

  lemma AtHalf(a: Addr)
    requires a % 4 == 2
    ensures At(a, 2) % 4 == 0
  {
    assert At(a, 2) == if a + 2 == SPACE then 0 else a + 2;
    NextFour(a);
  }

  lemma PushHolds(q: Queue, im: IMem)
    requires Holds(q, im) && |q.items| <= 2
    ensures Holds(Pushed(q, im(q.End())), im)
  {
    hide Long, At, LowHalf, HighHalf;
    var n := |q.items|;
    var e := q.End();
    AtNext(e);
    AtAt(q.addr, 2 * n, 2);
    AtAt(q.addr, 2 * n, 4);
    var p := Pushed(q, im(e));
    assert p.End() == At(e, 4);
    forall j | 0 <= j < |p.items| ensures p.items[j] == HalfAt(im, At(p.addr, 2 * j)) {
      if j < n {
      } else if j == n {
      } else {
        assert At(p.addr, 2 * j) == At(e, 2);
      }
    }
  }

  lemma ReloadHolds(pc: Addr, im: IMem)
    requires pc % 2 == 0
    ensures Holds(Reloaded(pc, im(WordBase(pc))), im)
  {
    hide LowHalf, HighHalf, At;
    AtZero(pc);
    if pc % 4 == 0 {
      AtNext(pc);
    } else {
      AtHalf(pc);
    }
  }

  /** In every cycle with even, truthful words the held halfwords stay true. */
  lemma AdvanceHolds(q: Queue, ifFlush: bool, c: Cycle, im: IMem)
    requires Holds(q, im) && TrueWord(im, c) && (!ifFlush ==> |q.items| >= Need(q))
    ensures Holds(Advance(q, ifFlush, c), im)
  {
    hide HalfAt, Long, At, LowHalf, HighHalf, Need;
    if c.reset {
      EmptyHolds(im);
    } else if c.ack && !c.drop {
      if c.pc != q.End() {
        ReloadHolds(c.pc, im);
      } else {
        if Pops(c, ifFlush) { PopHolds(q, im); }
        var p := if Pops(c, ifFlush) then Popped(q) else q;
        if |p.items| <= 2 { PushHolds(p, im); }
      }
    } else if Pops(c, ifFlush) {
      PopHolds(q, im);
    }
  }

  lemma EmptyHolds(im: IMem)
    ensures Holds(EMPTY, im)
  {
  }

  /** Run of the queue; the fetched memory may change whenever it is reset. */
  datatype Front = Front(q: Queue, ifFlush: bool)

  function FrontStep(f: Front, c: Cycle): (r: Front)
    requires !f.ifFlush ==> |f.q.items| >= Need(f.q)
    ensures !r.ifFlush ==> |r.q.items| >= Need(r.q)
  {
    var q := Advance(f.q, f.ifFlush, c);
    Front(q, c.reset || Incomplete(q))
  }

  function FrontRun(f: Front, cs: seq<Cycle>): (r: Front)
    requires !f.ifFlush ==> |f.q.items| >= Need(f.q)
    ensures !r.ifFlush ==> |r.q.items| >= Need(r.q)
    decreases cs
  {
    if cs == [] then f else FrontRun(FrontStep(f, cs[0]), cs[1..])
  }

  /** The front is the instruction that memory has at the queue's address. */
  ghost predicate FrontIsMemory(q: Queue, im: IMem)
    requires !Incomplete(q)
  {
    && q.items[0] == HalfAt(im, q.addr)
    && (LongFirst(q) ==> q.items[1] == HalfAt(im, At(q.addr, 2)))
  }

  lemma HoldsFront(q: Queue, im: IMem)
    requires Holds(q, im) && !Incomplete(q)
    ensures FrontIsMemory(q, im)
  {
    hide HalfAt, Long, At;
    AtZero(q.addr);
    assert q.items[0] == HalfAt(im, At(q.addr, 0));
    if LongFirst(q) { assert q.items[1] == HalfAt(im, At(q.addr, 2)); }
  }

  /** In every run between resets the buffer holds exactly memory from its
      address, and what it then presents is the instruction there. */
  lemma {:induction false} RunHolds(f: Front, cs: seq<Cycle>, im: IMem)
    requires (!f.ifFlush ==> |f.q.items| >= Need(f.q)) && Holds(f.q, im)
    requires forall c :: c in cs ==> TrueWord(im, c)
    ensures Holds(FrontRun(f, cs).q, im)
    ensures !FrontRun(f, cs).ifFlush ==> FrontIsMemory(FrontRun(f, cs).q, im)
    decreases cs
  {
    if cs != [] {
      hide Holds, TrueWord, Advance, Need, Incomplete;
      assert cs[0] in cs;
      AdvanceHolds(f.q, f.ifFlush, cs[0], im);
      RunHolds(FrontStep(f, cs[0]), cs[1..], im);
    } else if !f.ifFlush {
      HoldsFront(f.q, im);
    }
  }

  /** A report names the first halfword of the presented instruction that memory
      tags, and reports nothing when there is none. */
  lemma {:induction false} FaultIsFirst(q: Queue, im: IMem, j: nat)
    requires Holds(q, im) && !Incomplete(q) && j <= Need(q)
    ensures var r := Faulting(q, j);
            if r.fault == 0
            then forall k :: j <= k < Need(q) ==> !Tagged(HalfAt(im, At(q.addr, 2 * k)).access) && !Tagged(HalfAt(im, At(q.addr, 2 * k)).page)
            else exists k :: && j <= k < Need(q) && r.tval == At(q.addr, 2 * k)
                             && (r.fault == ACCESS_FAULT <==> Tagged(HalfAt(im, r.tval).access))
                             && (r.fault == PAGE_FAULT <==> !Tagged(HalfAt(im, r.tval).access) && Tagged(HalfAt(im, r.tval).page))
                             && forall l :: j <= l < k ==> !Tagged(q.items[l].access) && !Tagged(q.items[l].page)
    decreases Need(q) - j
  {
    hide HalfAt, Long, At, Tagged;
    if j < Need(q) {
      assert q.items[j] == HalfAt(im, At(q.addr, 2 * j));
      if !Tagged(q.items[j].access) && !Tagged(q.items[j].page) {
        FaultIsFirst(q, im, j + 1);
      }
    }
  }

  // --------------------------------------------------------- the shift registers

  function Zip(d: seq<bv64>, p: seq<bv64>, a: seq<bv64>): (r: seq<Half>)
    requires |d| == |p| == |a|
    ensures |r| == |d|
  {
    seq(|d|, j requires 0 <= j < |d| => Half(d[j], p[j], a[j]))
  }

  lemma ZipDrop(d: seq<bv64>, p: seq<bv64>, a: seq<bv64>, k: nat)
    requires |d| == |p| == |a| && k <= |d|
    ensures Zip(d[k..], p[k..], a[k..]) == Zip(d, p, a)[k..]
  {
  }

  lemma ZipAdd(d: seq<bv64>, p: seq<bv64>, a: seq<bv64>, e: seq<bv64>, q: seq<bv64>, b: seq<bv64>)
    requires |d| == |p| == |a| && |e| == |q| == |b|
    ensures Zip(d + e, p + q, a + b) == Zip(d, p, a) + Zip(e, q, b)
  {
  }

  lemma ZipWord(w: Word)
    ensures var p, a := Spread(w.fault == PAGE_FAULT), Spread(w.fault == ACCESS_FAULT);
            && Zip([Low(w.data), High(w.data)], [Low(p), High(p)], [Low(a), High(a)]) == [LowHalf(w), HighHalf(w)]
            && Zip([High(w.data)], [High(p)], [High(a)]) == [HighHalf(w)]
  {
    hide Low, High, Spread;
  }

  lemma {:induction false} FaultingUnfolds(q: Queue)
    requires !Incomplete(q)
    ensures Faulting(q, 0)
            == if Tagged(q.items[0].access) then Report(ACCESS_FAULT, q.addr)
               else if Tagged(q.items[0].page) then Report(PAGE_FAULT, q.addr)
               else if !LongFirst(q) then Report(0, 0)
               else if Tagged(q.items[1].access) then Report(ACCESS_FAULT, At(q.addr, 2))
               else if Tagged(q.items[1].page) then Report(PAGE_FAULT, At(q.addr, 2))
               else Report(0, 0)
  {
    hide Tagged, Long;
    assert At(q.addr, 0) == q.addr;
    assert Need(q) == 2 ==> Faulting(q, 2) == Report(0, 0);
    assert Need(q) == 1 ==> Faulting(q, 1) == Report(0, 0);
  }

  predicate Tag0(b: bv64) { b & 1 != 0 }
  predicate Tag1(b: bv64) { b & 0x1_0000 != 0 }

  lemma LaneTags(b: bv64)
    ensures Long(b) <==> Long(L0(b))
    ensures Tag0(b) <==> Tagged(L0(b))
    ensures Tag1(b) <==> Tagged(L1(b))
  {
    assert L0(b) & 3 == b & 3;
    assert L0(b) & 1 == b & 1;
    assert L1(b) & 1 == (b >> 16) & 1;
    if Tag1(b) { Tag1Shift(b); } else { Tag1None(b); }
  }

  lemma Tag1Shift(b: bv64)
    requires b & 0x1_0000 != 0
    ensures (b >> 16) & 1 != 0
  {
  }

  lemma Tag1None(b: bv64)
    requires b & 0x1_0000 == 0
    ensures (b >> 16) & 1 == 0
  {
  }

  /** The instruction register takes the low 32 bits of the buffer. */
  function Low32(b: bv64): (r: bv64) { b & 0xFFFF_FFFF }

  function Pair(lo: bv64, hi: bv64): (r: bv64) { lo | (hi << 16) }

  lemma Low32IsPair(b: bv64)
    ensures Low32(b) == Pair(L0(b), L1(b))
  {
  }

  lemma Low32Low(b: bv64)
    ensures Low(Low32(b)) == L0(b)
  {
  }

  /** The word and address presented for the front of the queue; the upper half is
      looked at only if the instruction is long. */
  predicate Offers(q: Queue, w: bv64, pc: Addr)
    requires !Incomplete(q)
  {
    pc == q.addr && Low(w) == q.items[0].data && (LongFirst(q) ==> w == Pair(q.items[0].data, q.items[1].data))
  }

  lemma SpreadIsWord(on: bool)
    ensures IsWord(Spread(on))
  {
  }

  class Buffer {
    var data: bv64
    var page: bv64
    var access: bv64
    var idx: int
    var addr: Addr
    var ifFlush: bool
    var ifFault: int
    var ifTval: Addr
    var ifInst: bv64
    var ifPc: Addr

    ghost predicate Shape() reads this {
      && (idx == 0 || idx == 16 || idx == 32 || idx == 48 || idx == 64)
      && Above(data, idx / 16) && Above(page, idx / 16) && Above(access, idx / 16)
    }

    ghost function Value(): (q: Queue)
      requires Shape()
      reads this
    {
      Queue(Zip(Lanes(data, idx / 16), Lanes(page, idx / 16), Lanes(access, idx / 16)), addr)
    }

    /** The bits above idx are zero in all three registers, and an instruction is
        offered only when it is complete. */
    ghost predicate Valid() reads this { Shape() && (!ifFlush ==> !Incomplete(Value())) }

    constructor ()
      ensures Valid() && Value() == EMPTY && ifFlush
    {
      data, page, access, idx, addr := 0, 0, 0, 0, 0;
      ifFlush, ifFault, ifTval, ifInst, ifPc := true, 0, 0, 0, 0;
    }

    /** The length test reads the raw register. */
    lemma LongIsLong()
      requires Shape()
      ensures idx > 0 ==> LongFirst(Value()) == Long(data)
      ensures idx == 0 ==> !Long(data)
    {
      hide L0, L1, L2, L3, A1, A2, A3, Long;
      LaneTags(data);
      ZeroShort();
    }

    method Clear()
      modifies this
      ensures Shape() && Value() == EMPTY && ifFlush == old(ifFlush)
    {
      idx, addr, data, page, access := 0, 0, 0, 0, 0;
    }

    method TakeOne()
      requires Shape() && idx >= 16
      modifies this
      ensures Shape() && idx == old(idx) - 16 && ifFlush == old(ifFlush)
      ensures Value() == Queue(old(Value()).items[1..], At(old(addr), 2))
    {
      hide L0, L1, L2, L3, A1, A2, A3, Pop1, Above, Lanes;
      ghost var n := idx / 16;
      Pop1Queue(data, n);
      Pop1Queue(page, n);
      Pop1Queue(access, n);
      ZipDrop(Lanes(data, n), Lanes(page, n), Lanes(access, n), 1);
      addr := At(addr, 2);
      data, page, access := Pop1(data), Pop1(page), Pop1(access);
      idx := idx - 16;
      assert idx / 16 == n - 1;
    }

    method TakeTwo()
      requires Shape() && idx >= 32
      modifies this
      ensures Shape() && idx == old(idx) - 32 && ifFlush == old(ifFlush)
      ensures Value() == Queue(old(Value()).items[2..], At(old(addr), 4))
    {
      hide L0, L1, L2, L3, A1, A2, A3, Pop2, Above, Lanes;
      ghost var n := idx / 16;
      Pop2Queue(data, n);
      Pop2Queue(page, n);
      Pop2Queue(access, n);
      ZipDrop(Lanes(data, n), Lanes(page, n), Lanes(access, n), 2);
      addr := At(addr, 4);
      data, page, access := Pop2(data), Pop2(page), Pop2(access);
      idx := idx - 32;
      assert idx / 16 == n - 2;
    }

    method Append(w: Word)
      requires Shape() && idx <= 32 && IsWord(w.data)
      modifies this
      ensures Shape() && idx == old(idx) + 32 && ifFlush == old(ifFlush)
      ensures Value() == Pushed(old(Value()), w)
    {
      hide L0, L1, L2, L3, A1, A2, A3, P0, P1, P2, Above, Lanes, IsWord, Low, High, Spread, Put, Zip, LowHalf, HighHalf;
      var p, a := Spread(w.fault == PAGE_FAULT), Spread(w.fault == ACCESS_FAULT);
      var n := idx / 16;
      SpreadIsWord(w.fault == PAGE_FAULT);
      SpreadIsWord(w.fault == ACCESS_FAULT);
      PutQueue(data, w.data, n);
      PutQueue(page, p, n);
      PutQueue(access, a, n);
      ZipAdd(Lanes(data, n), Lanes(page, n), Lanes(access, n), [Low(w.data), High(w.data)], [Low(p), High(p)], [Low(a), High(a)]);
      data, page, access := Put(data, w.data, n), Put(page, p, n), Put(access, a, n);
      idx := idx + 32;
      assert idx / 16 == n + 2;
      ZipWord(w);
    }

    method Restart(pc: Addr, w: Word)
      requires IsWord(w.data)
      modifies this
      ensures Shape() && Value() == Reloaded(pc, w) && ifFlush == old(ifFlush)
    {
      hide L0, L1, L2, L3, A1, A2, A3, Above, Lanes, IsWord, Low, High, Spread, Zip, LowHalf, HighHalf;
      ZipWord(w);
      var p, a := Spread(w.fault == PAGE_FAULT), Spread(w.fault == ACCESS_FAULT);
      SpreadIsWord(w.fault == PAGE_FAULT);
      SpreadIsWord(w.fault == ACCESS_FAULT);
      LoadQueue(w.data);
      LoadQueue(p);
      LoadQueue(a);
      addr := pc;
      if pc % 4 != 0 {
        idx, data, page, access := 16, High(w.data), High(p), High(a);
      } else {
        idx, data, page, access := 32, w.data, p, a;
      }
    }

    /** Remove the presented instruction. */
    method TakeInstr()
      requires Shape() && !Incomplete(Value())
      modifies this
      ensures Shape() && Value() == Popped(old(Value())) && ifFlush == old(ifFlush)
      ensures idx == old(idx) - 16 * Need(old(Value()))
    {
      hide L0, L1, L2, L3, A1, A2, A3, Above, Lanes, Long;
      LongIsLong();
      if Long(data) {
        TakeTwo();
      } else {
        TakeOne();
      }
    }

    lemma EndIsEnd()
      requires Shape()
      ensures At(addr, idx / 8) == Value().End() && |Value().items| == idx / 16
    {
      hide L0, L1, L2, L3, A1, A2, A3, Above, Lanes, At;
      assert idx / 8 == 2 * (idx / 16);
    }

    method TakeWord(c: Cycle)
      requires Valid() && IsWord(c.word.data) && !c.reset && c.ack && !c.drop
      modifies this
      ensures Shape() && Value() == Advance(old(Value()), old(ifFlush), c)
    {
      hide L0, L1, L2, L3, A1, A2, A3, Above, Lanes, Long, IsWord, LowHalf, HighHalf, At, Zip, Need;
      EndIsEnd();
      if c.pc != At(addr, idx / 8) {
        Restart(c.pc, c.word);
      } else {
        if !c.stall && !ifFlush {
          TakeInstr();
        }
        EndIsEnd();
        if idx <= 32 {
          Append(c.word);
        }
      }
    }

    /** The rising-edge process `get_inst_seq`. */
    method Edge(c: Cycle)
      requires Valid() && IsWord(c.word.data)
      modifies this
      ensures Valid()
      ensures Value() == Advance(old(Value()), old(ifFlush), c)
      ensures ifFlush == (c.reset || Incomplete(Value()))
      ensures !ifFlush ==> Report(ifFault, ifTval) == Faulting(Value(), 0) && Offers(Value(), ifInst, ifPc)
    {
      hide Offers, L0, L1, L2, L3, A1, A2, A3, Above, Lanes, IsWord, Zip, Faulting, Need, Pushed, Reloaded, Queue.End;
      if c.reset {
        Clear();
      } else if c.ack && !c.drop {
        TakeWord(c);
      } else if !c.stall && !ifFlush {
        TakeInstr();
      }
      Present(c.reset);
    }

    lemma FrontLanes()
      requires Shape()
      ensures idx >= 16 ==> Value().items[0] == Half(L0(data), L0(page), L0(access))
      ensures idx >= 32 ==> Value().items[1] == Half(L1(data), L1(page), L1(access))
    {
      hide L0, L1, L2, L3, A1, A2, A3, Above;
    }

    method PresentLong()
      requires Shape() && Long(data)
      modifies `ifFlush, `ifFault, `ifTval
      ensures ifFlush == Incomplete(Value())
      ensures !ifFlush ==> Report(ifFault, ifTval) == Faulting(Value(), 0)
    {
      hide L0, L1, L2, L3, A1, A2, A3, Above, Long, Tag0, Tag1, Tagged, Lanes, Zip, At, Faulting;
      LongIsLong();
      LaneTags(access);
      LaneTags(page);
      FrontLanes();
      ghost var q := Value();
      if !Incomplete(q) { FaultingUnfolds(q); }
      ifFlush := idx < 32;
      if Tag0(access) {
        ifFault, ifTval := ACCESS_FAULT, addr;
      } else if Tag0(page) {
        ifFault, ifTval := PAGE_FAULT, addr;
      } else if Tag1(access) {
        ifFault, ifTval := ACCESS_FAULT, At(addr, 2);
      } else if Tag1(page) {
        ifFault, ifTval := PAGE_FAULT, At(addr, 2);
      } else {
        ifFault, ifTval := 0, 0;
      }
      assert Value() == q;
    }

    method PresentShort()
      requires Shape() && !Long(data)
      modifies `ifFlush, `ifFault, `ifTval
      ensures ifFlush == Incomplete(Value())
      ensures !ifFlush ==> Report(ifFault, ifTval) == Faulting(Value(), 0)
    {
      hide L0, L1, L2, L3, A1, A2, A3, Above, Long, Tag0, Tag1, Tagged, Lanes, Zip, At, Faulting;
      LongIsLong();
      LaneTags(access);
      LaneTags(page);
      FrontLanes();
      ghost var q := Value();
      if !Incomplete(q) { FaultingUnfolds(q); }
      ifFlush := idx < 16;
      if Tag0(access) {
        ifFault, ifTval := ACCESS_FAULT, addr;
      } else if Tag0(page) {
        ifFault, ifTval := PAGE_FAULT, addr;
      } else {
        ifFault, ifTval := 0, 0;
      }
      assert Value() == q;
    }

    method PresentWord()
      requires Shape()
      modifies `ifInst, `ifPc
      ensures !Incomplete(Value()) ==> Offers(Value(), ifInst, ifPc)
    {
      hide L0, L1, L2, L3, A1, A2, A3, Above, Long, Lanes, Zip, Low32, Low, Pair;
      LongIsLong();
      FrontLanes();
      Low32IsPair(data);
      Low32Low(data);
      ifInst := Low32(data);
      ifPc := addr;
    }

    /** Output part of the edge. */
    method Present(reset: bool)
      requires Shape()
      modifies `ifFlush, `ifFault, `ifTval, `ifInst, `ifPc
      ensures ifFlush == (reset || Incomplete(Value()))
      ensures !ifFlush ==> Report(ifFault, ifTval) == Faulting(Value(), 0) && Offers(Value(), ifInst, ifPc)
    {
      hide L0, L1, L2, L3, A1, A2, A3, Above, Long, Lanes, Zip, Faulting, Incomplete, Offers, Low32;
      PresentWord();
      if reset {
        ifFlush := true;
      } else if Long(data) {
        PresentLong();
      } else {
        PresentShort();
      }
    }
  }

  lemma ZeroShort()
    ensures !Long(0)
  {
  }
}
