/** The core as objects that each clock edge updates in place: register file
    (src/regfile.hpp:11-39), multiplier (src/mext.hpp:23-83), ID/EX register
    (src/decode.hpp:343-391), write-back registers (src/exec.hpp:1318-1341),
    status registers, data-side MMU and translation cache. */
module Machine {
  import opened Options
  import opened Isa
  import opened Memory
  import opened Mmu
  import opened Exec
  import opened Sequential
  import opened Core
  import H = Hart
  import ExecSeq
  import DataUnit
  import Tlb

  class RegisterFile {
    const regs: array<bv32>

    ghost predicate Valid() reads this { regs.Length == 32 }

    constructor ()
      ensures Valid() && fresh(regs)
      ensures forall r :: 0 <= r < 32 ==> regs[r] == if r == 11 then 0x8010_0000 else 0
    {
      regs := new bv32[32](r => if r == 11 then 0x8010_0000 else 0);
    }

    method Edge(wb: Wb)
      requires Valid()
      modifies regs
      ensures regs[..] == WriteBack(old(regs[..]), wb)
    {
      if wb.write && wb.rd != 0 { regs[wb.rd] := wb.val; }
    }
  }

  class Multiplier {
    var ack: bool
    var result: bv32

    constructor ()
      ensures !ack && result == 0
    {
      ack, result := false, 0;
    }

    /** A request is answered at the next edge; the answer lasts one cycle. */
    method Edge(req: bool, ty: InstrType, a: bv32, b: bv32)
      modifies this
      ensures ack == (req && KindOf(ty) == MulDiv)
      ensures result == if ack then MulDivResult(ty, a, b) else 0
    {
      if req && KindOf(ty) == MulDiv {
        result := MulDivResult(ty, a, b);
        ack := true;
      } else {
        result := 0;
        ack := false;
      }
    }
  }

  /** A legal SFENCE.VMA in EX flushes the cache in the same cycle, by the raw
      register values. */
  predicate Purges(n: In) {
    Interrupted(n) == None && IsKind(n.x, Sfence) && !SfenceIllegal(n.hart)
  }

  function Purged(n: In, t: seq<Tlb.Entry>): (r: seq<Tlb.Entry>)
    ensures |r| == |t|
  {
    if Purges(n) then Tlb.Flushed(t, H.NatOf(n.x.rs2Val), H.NatOf(n.x.rs1Val)) else t
  }

  class Machine {
    const file: RegisterFile
    const mul: Multiplier
    const exec: ExecSeq.Unit
    const data: DataUnit.Unit
    const tlb: Tlb.Unit
    var x: IdEx
    var exPc: bv32
    var wb: Wb
    var mulReq: bool
    var exReq: Req
    var din: Req
    var dout: Rsp
    var mem: Mem

    ghost predicate Valid()
      reads this, file, tlb
    {
      file.Valid() && tlb.Valid() && file.regs as object != tlb.table as object
    }

    ghost function View(): (s: Core)
      requires Valid()
      reads this, file, file.regs, mul, exec, data, tlb
    {
      Core(x, exPc, wb, file.regs[..], exec.View(), mulReq, mul.ack, mul.result, data.View(), exReq, din, dout, mem)
    }

    constructor (entry: bv32, image: Mem)
      ensures Valid() && Initial(View()) && View().exPc == entry && View().mem == image
      ensures View().hart == H.RESET
      ensures forall i :: 0 <= i < Tlb.SIZE ==> !tlb.table[i].valid
    {
      file := new RegisterFile();
      mul := new Multiplier();
      exec := new ExecSeq.Unit();
      data := new DataUnit.Unit();
      tlb := new Tlb.Unit();
      x, exPc, wb := BUBBLE, entry, Wb(false, 0, 0, false);
      mulReq, exReq, din, dout, mem := false, NO_REQ, NO_REQ, NO_RSP, image;
    }

    /** The ID/EX register: hold, take the offered instruction, or take a bubble. */
    method Decode(o: Out, slot: Slot, regs: RegFile, was: Wb)
      modifies this`x
      ensures x == if o.stall then old(x)
                   else if Accepts(o, slot) then
                     IdEx(false, slot.pc, slot.instr, Forward(o, was, regs, slot.instr.rs1), Forward(o, was, regs, slot.instr.rs2))
                   else BUBBLE
    {
      if o.flush || (o.npc != slot.pc && !o.stall) {
        if !o.stall { x := BUBBLE; }
      } else if !o.stall {
        if slot.flush {
          x := BUBBLE;
        } else {
          x := IdEx(false, slot.pc, slot.instr, Forward(o, was, regs, slot.instr.rs1), Forward(o, was, regs, slot.instr.rs2));
        }
      }
    }

    method Purge(n: In)
      requires Valid()
      modifies tlb.table
      ensures tlb.table[..] == Purged(n, old(tlb.table[..]))
    {
      hide Purges, Tlb.Flushed;
      if Purges(n) { tlb.Flush(H.NatOf(n.x.rs2Val), H.NatOf(n.x.rs1Val)); }
    }

    /** Multiplier request wire and multiplier. */
    method MultiplierEdge(o: Out)
      requires Valid()
      modifies this`mulReq, mul
      ensures mulReq == MulReq(old(View()), o)
      ensures mul.ack == MulStarts(old(View()), o)
      ensures mul.result == if mul.ack then MulDivResult(x.instr.ty, x.rs1Val, x.rs2Val) else 0
    {
      hide KindOf, MulDivResult;
      if o.mulReq.Some? { mulReq := o.mulReq.value; }
      mul.Edge(mulReq, x.instr.ty, x.rs1Val, x.rs2Val);
    }

    /** Commit what memory was shown, and show it the new request. */
    method MemoryEdge(shown: Req)
      modifies this`mem, this`din, this`dout
      ensures mem == Commit(old(mem), old(din), old(dout)) && din == shown
      ensures dout == if shown == old(din) then old(dout) else MemAccess(mem, shown)
    {
      hide Commit, MemAccess;
      mem := Commit(mem, din, dout);
      if shown != din {
        din := shown;
        dout := MemAccess(mem, din);
      }
    }

    /** The registers between the stages. */
    method Latch(o: Out, slot: Slot, regs: RegFile, was: Wb)
      modifies this`x, this`exPc, this`wb, this`exReq
      ensures x == if o.stall then old(x)
                   else if Accepts(o, slot) then
                     IdEx(false, slot.pc, slot.instr, Forward(o, was, regs, slot.instr.rs1), Forward(o, was, regs, slot.instr.rs2))
                   else BUBBLE
      ensures exPc == o.npc && exReq == o.req && wb == Wb(o.write, o.val, o.rd, o.stall)
    {
      hide Accepts, Forward;
      Decode(o, slot, regs, was);
      exReq := o.req;
      wb := Wb(o.write, o.val, o.rd, o.stall);
      exPc := o.npc;
    }

    /** Every register moves at once, from its old value and the stage's outputs. */
    method RisingEdge(e: Env, o: Out, slot: Slot)
      requires Valid() && o == Comb(Stage(View(), e))
      modifies this, file.regs, mul, exec, data, tlb.table
      ensures Valid()
      ensures var s, t := old(View()), old(tlb.table[..]);
              && View() == Next(s, Input(e, slot, DataUnit.Offered(t, s.hart.Get(H.SATP), o.req.addr)))
              && tlb.table[..] == DataUnit.Cached(t, s.mmu, old(data.satp), o.req, s.dout, o.flush, s.hart)
              && data.satp == DataUnit.NextSatp(s.mmu, old(data.satp), o.req, o.flush, s.hart)
    {
      hide Comb, Step, Commit, MemAccess, H.Step, MulDivResult, WriteBack, DataUnit.Offered, DataUnit.Cached, Purged,
        KindOf, Presented, Accepts, Forward, Respond, MulReq, MulStarts, DataUnit.NextSatp;
      var regs, was := file.regs[..], wb;
      MultiplierEdge(o);
      data.Edge(o.req, dout, o.flush, exec.View(), tlb);
      exec.Edge(o.eff);
      file.Edge(was);
      MemoryEdge(Presented(data.View()));
      Latch(o, slot, regs, was);
    }

    /** One cycle: the execute stage settles on the old values, then every register moves. */
    method Cycle(e: Env, slot: Slot)
      requires Valid()
      modifies this, file.regs, mul, exec, data, tlb.table
      ensures Valid()
      ensures var s := old(View());
              var o, t := Comb(Stage(s, e)), Purged(Stage(s, e), old(tlb.table[..]));
              && View() == Next(s, Input(e, slot, DataUnit.Offered(t, s.hart.Get(H.SATP), o.req.addr)))
              && tlb.table[..] == DataUnit.Cached(t, s.mmu, old(data.satp), o.req, s.dout, o.flush, s.hart)
              && data.satp == DataUnit.NextSatp(s.mmu, old(data.satp), o.req, o.flush, s.hart)
    {
      hide Comb, Step, Commit, MemAccess, H.Step, MulDivResult, WriteBack, DataUnit.Offered, DataUnit.Cached, Purged,
        KindOf, Presented, Accepts, Forward, Respond, MulReq, MulStarts, DataUnit.NextSatp;
      hide Next;
      var n := In(x, exPc, wb.stall, Respond(data.View(), dout, exReq), mul.ack, mul.result, exec.View(), e);
      var o := Comb(n);
      Purge(n);
      RisingEdge(e, o, slot);
    }
  }
}
