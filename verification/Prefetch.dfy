/** The address side of fetch: the accept signal (src/fetch.hpp:39-73), the
    prefetch register (src/prefetch.hpp:23-40) and the address register of the
    instruction MMU (src/mmu.hpp:498-504). */
module Prefetch {
  import opened Memory
  import opened Fetch

  /** Next word address. */
  function Succ(pc: Addr): (r: Addr) { At(WordBase(pc), 4) }

  /** Whether the buffer will take the word on offer (`fifo_state_comb`). */
  predicate Accept(f: Front, ack: bool, pc: Addr, stall: bool) {
    && ack
    && (if pc != f.q.End() then true
        else if !stall && !f.ifFlush then LongFirst(f.q) || |f.q.items| <= 3
        else |f.q.items| <= 2)
  }

  ghost predicate Good(f: Front) {
    && (!f.ifFlush ==> |f.q.items| >= Need(f.q))
    && |f.q.items| <= 4 && f.q.addr % 2 == 0 && f.q.End() % 4 == 0
  }

  lemma SuccOfAligned(a: Addr)
    requires a % 4 == 0
    ensures Succ(a) == At(a, 4) && Succ(a) != a && Succ(a) % 4 == 0
  {
  }

  lemma SuccOfHalf(a: Addr)
    requires a % 4 == 2
    ensures Succ(a) == At(a, 2) && Succ(a) % 4 == 0
  {
  }

  lemma EvenCases(a: int)
    requires a % 2 == 0
    ensures a % 4 == 0 || a % 4 == 2
  {
  }

  lemma EmptyEnd()
    ensures EMPTY.End() == 0
  {
  }

  lemma PopEnd(q: Queue)
    requires |q.items| >= Need(q)
    ensures Popped(q).End() == q.End()
  {
    hide At, Long;
    AtAt(q.addr, 2 * Need(q), 2 * (|q.items| - Need(q)));
  }

  lemma PushEnd(q: Queue, w: Word)
    ensures Pushed(q, w).End() == At(q.End(), 4)
  {
    hide At, LowHalf, HighHalf;
    AtAt(q.addr, 2 * |q.items|, 4);
  }

  lemma ReloadEnd(pc: Addr, w: Word)
    requires pc % 2 == 0
    ensures Reloaded(pc, w).End() == Succ(pc)
  {
    hide At, LowHalf, HighHalf, Succ;
    EvenCases(pc);
    if pc % 4 == 0 { SuccOfAligned(pc); } else { SuccOfHalf(pc); }
  }

  /** With reset and immu_flush low, the accept signal is exactly consumption:
      the buffer's end moves past the offered word if accepted, and otherwise
      does not move. */
  lemma AcceptIsConsumption(f: Front, c: Cycle)
    requires Good(f) && !c.reset && !c.drop && c.pc % 2 == 0
    ensures Accept(f, c.ack, c.pc, c.stall) ==> Advance(f.q, f.ifFlush, c).End() == Succ(c.pc)
    ensures !Accept(f, c.ack, c.pc, c.stall) ==> Advance(f.q, f.ifFlush, c).End() == f.q.End()
    ensures c.ack ==> (Accept(f, c.ack, c.pc, c.stall) <==> Advance(f.q, f.ifFlush, c).End() == Succ(c.pc))
  {
    hide At, Long, LowHalf, HighHalf, Succ, Queue.End, Reloaded;
    var q := f.q;
    if c.ack {
      if c.pc != q.End() {
        ReloadEnd(c.pc, c.word);
      } else {
        SuccOfAligned(c.pc);
        if Pops(c, f.ifFlush) {
          PopEnd(q);
          PushEnd(Popped(q), c.word);
        } else {
          PushEnd(q, c.word);
        }
      }
    } else if Pops(c, f.ifFlush) {
      PopEnd(q);
    }
  }

  // ------------------------------------------------------------- the three together

  datatype Side = Side(f: Front, fetchPc: Addr, immuPc: Addr)

  /** One cycle: redirection (`branch` or `flush` to `npc`), and what the
      instruction MMU says; it is ready whenever it answers. */
  datatype Beat = Beat(
    branch: bool, flush: bool, npc: Addr, ready: bool, ack: bool, drop: bool, stall: bool, word: Word)

  function CycleOf(s: Side, b: Beat): (c: Cycle) { Cycle(b.flush, b.ack, b.drop, b.stall, s.immuPc, b.word) }

  predicate Takes(s: Side, b: Beat) { Accept(s.f, b.ack, s.immuPc, b.stall) }

  function Step(s: Side, b: Beat): (r: Side)
    requires !s.f.ifFlush ==> |s.f.q.items| >= Need(s.f.q)
    ensures !r.f.ifFlush ==> |r.f.q.items| >= Need(r.f.q)
  {
    Side(FrontStep(s.f, CycleOf(s, b)),
         if b.branch || b.flush then b.npc else if Takes(s, b) then Succ(s.fetchPc) else s.fetchPc,
         if b.ready && !b.flush && Takes(s, b) then s.fetchPc else s.immuPc)
  }

  /** No redirection and nothing discarded. */
  predicate Straight(b: Beat) { !b.branch && !b.flush && !b.drop && (b.ack ==> b.ready) }

  ghost predicate Even(s: Side) { Good(s.f) && s.fetchPc % 2 == 0 && s.immuPc % 2 == 0 }

  /** The prefetch address follows the one being fetched. */
  predicate Synced(s: Side) { s.fetchPc == Succ(s.immuPc) }

  /** The word being fetched is the one the buffer needs next. */
  predicate Contiguous(s: Side) { s.immuPc == s.f.q.End() }

  lemma SuccAligned(a: Addr)
    requires a % 2 == 0
    ensures Succ(a) % 4 == 0 && Succ(a) % 2 == 0
  {
    hide Succ;
    EvenCases(a);
    if a % 4 == 0 { SuccOfAligned(a); } else { SuccOfHalf(a); }
    FourIsEven(Succ(a));
  }

  lemma FourIsEven(x: int)
    requires x % 4 == 0
    ensures x % 2 == 0
  {
    assert x == 2 * (2 * (x / 4));
  }

  lemma StepGood(f: Front, c: Cycle)
    requires Good(f) && c.pc % 2 == 0
    ensures Good(FrontStep(f, c))
  {
    hide Advance, Long;
    GoodStep(f, c);
  }

  lemma GoodStep(f: Front, c: Cycle)
    requires Good(f) && c.pc % 2 == 0
    ensures var q := Advance(f.q, f.ifFlush, c); |q.items| <= 4 && q.addr % 2 == 0 && q.End() % 4 == 0
  {
    hide At, Long, LowHalf, HighHalf, Succ, Queue.End;
    var q := f.q;
    AtEven(q.addr, 2 * Need(q));
    SuccAligned(c.pc);
    if c.reset {
      EmptyEnd();
    } else if c.ack && !c.drop {
      if c.pc != q.End() {
        ReloadEnd(c.pc, c.word);
      } else {
        SuccOfAligned(c.pc);
        if Pops(c, f.ifFlush) {
          PopEnd(q);
          PushEnd(Popped(q), c.word);
        } else {
          PushEnd(q, c.word);
        }
      }
    } else if Pops(c, f.ifFlush) {
      PopEnd(q);
    }
  }

  lemma StepEven(s: Side, b: Beat)
    requires Even(s) && b.npc % 2 == 0
    ensures Even(Step(s, b))
  {
    hide FrontStep, Good, Accept, Succ;
    SuccAligned(s.fetchPc);
    StepGood(s.f, CycleOf(s, b));
  }

  /** On a straight beat the two addresses stay in step, and once the buffer is
      contiguous it stays so. */
  lemma StepSynced(s: Side, b: Beat)
    requires Even(s) && Straight(b) && Synced(s)
    ensures Synced(Step(s, b))
    ensures Takes(s, b) ==> Step(s, b).immuPc == Succ(s.immuPc)
    ensures !Takes(s, b) ==> Step(s, b).immuPc == s.immuPc
    ensures Takes(s, b) || Contiguous(s) ==> Contiguous(Step(s, b))
  {
    hide Good, Accept, Succ, Advance, Incomplete, Need, Queue.End;
    AcceptIsConsumption(s.f, CycleOf(s, b));
    if Takes(s, b) { AckIfTaken(s, b); }
  }

  function Run(s: Side, bs: seq<Beat>): (r: Side)
    requires !s.f.ifFlush ==> |s.f.q.items| >= Need(s.f.q)
    decreases bs
  {
    if bs == [] then s else Run(Step(s, bs[0]), bs[1..])
  }

  /** Addresses of the words the buffer consumes, in order. */
  function Consumed(s: Side, bs: seq<Beat>): (r: seq<Addr>)
    requires !s.f.ifFlush ==> |s.f.q.items| >= Need(s.f.q)
    decreases bs
  {
    if bs == [] then [] else (if Takes(s, bs[0]) then [s.immuPc] else []) + Consumed(Step(s, bs[0]), bs[1..])
  }

  predicate Consecutive(ws: seq<Addr>, first: Addr) {
    && (|ws| > 0 ==> ws[0] == first)
    && (forall k :: 0 <= k < |ws| - 1 ==> ws[k + 1] == Succ(ws[k]))
  }

  lemma ConsecutiveCons(w: Addr, ws: seq<Addr>)
    requires Consecutive(ws, Succ(w))
    ensures Consecutive([w] + ws, w)
  {
    hide Succ;
  }

  /** In a run without redirection no word is skipped or fetched into the buffer
      twice, whatever stalls and page walks come between. */
  lemma {:induction false} NoWordSkipped(s: Side, bs: seq<Beat>)
    requires Even(s) && Synced(s) && (forall b :: b in bs ==> Straight(b) && b.npc % 2 == 0)
    ensures Consecutive(Consumed(s, bs), s.immuPc)
    ensures Synced(Run(s, bs)) && (Contiguous(s) ==> Contiguous(Run(s, bs)))
    decreases bs
  {
    hide Even, Synced, Contiguous, Straight, Takes, Step, Succ;
    EvenGood(s);
    if bs != [] {
      assert bs[0] in bs;
      StepEven(s, bs[0]);
      StepSynced(s, bs[0]);
      var t := Step(s, bs[0]);
      NoWordSkipped(t, bs[1..]);
      if Takes(s, bs[0]) {
        ConsecutiveCons(s.immuPc, Consumed(t, bs[1..]));
      } else {
        assert Consumed(s, bs) == Consumed(t, bs[1..]);
      }
    }
  }

  lemma EvenGood(s: Side)
    requires Even(s)
    ensures !s.f.ifFlush ==> |s.f.q.items| >= Need(s.f.q)
  {
  }

  /** After a redirection the first word accepted puts the addresses back in
      step and makes the target the next word fetched. */
  lemma Resynced(s: Side, b: Beat)
    requires Even(s) && Straight(b) && Takes(s, b)
    ensures Synced(Step(s, b)) && Step(s, b).immuPc == s.fetchPc
  {
    hide Accept, Succ, FrontStep, Good;
    AckIfTaken(s, b);
  }

  lemma AckIfTaken(s: Side, b: Beat)
    requires Takes(s, b)
    ensures b.ack
  {
  }

  /** The prefetch register. */
  class Register {
    var fetchPc: Addr

    method Edge(s: Side, b: Beat)
      requires s.fetchPc == fetchPc && (!s.f.ifFlush ==> |s.f.q.items| >= Need(s.f.q))
      modifies this
      ensures fetchPc == Step(s, b).fetchPc
    {
      hide Accept, FrontStep;
      if b.branch || b.flush {
        fetchPc := b.npc;
      } else if Takes(s, b) {
        fetchPc := At(fetchPc - fetchPc % 4, 4);
      }
    }
  }
}
