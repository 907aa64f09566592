/** The privilege machine inside the running core: every clock cycle is one of
    its events, so its run-level properties hold of the core. */
module CoreTraps {
  import opened Core
  import opened Exec
  import Mmu
  import M = Memory
  import I = Isa
  import Traps
  import D = Decode
  import H = Hart

  /** Exception codes from fetch are not interrupt codes. */
  predicate SmallSlot(i: Input) { !H.IsInterrupt(i.slot.instr.cause) }

  function EventOf(s: Core, i: Input): (e: Traps.Event) {
    Traps.Event(i.env.wires, i.env.counters, Comb(Stage(s, i.env)).eff)
  }

  function Events(s: Core, ins: seq<Input>): (es: seq<Traps.Event>)
    decreases ins
  {
    if ins == [] then [] else [EventOf(s, ins[0])] + Events(Next(s, ins[0]), ins[1..])
  }

  /** Whatever decode issues is acceptable. */
  lemma IssuedIsSmall(i: Input, w: bv32, fault: bv32, tval: bv32)
    requires i.slot.instr == D.Issue(w, fault, tval)
    ensures SmallSlot(i)
  {
    hide D.Issue;
    D.IssueTraps(w, fault, tval);
  }

  lemma SmallFaults(op: int)
    ensures !H.IsInterrupt(Mmu.MisalignedCause(op)) && !H.IsInterrupt(Mmu.PageCause(op)) && !H.IsInterrupt(Mmu.AccessCause(op))
    ensures !H.IsInterrupt(0)
  {
  }

  lemma AnswerSmall(s: Core)
    ensures !H.IsInterrupt(Answered(s).fault)
  {
    hide H.IsInterrupt, Mmu.MisalignedCause, Mmu.PageCause, Mmu.AccessCause, H.WordOf;
    SmallFaults(s.mmu.op);
  }

  lemma StepIsEvent(s: Core, i: Input)
    requires !H.IsInterrupt(s.x.instr.cause) && SmallSlot(i)
    ensures Traps.Able(s.hart, EventOf(s, i)) && Next(s, i).hart == H.Step(s.hart, EventOf(s, i).eff)
    ensures !H.IsInterrupt(Next(s, i).x.instr.cause)
  {
    hide H.IsInterrupt, H.Possible, H.Step, Comb, Mmu.Step, M.Commit, M.MemAccess, I.MulDivResult, Answered,
      Forward, WriteBack, Mmu.Presented;
    AnswerSmall(s);
    EffectPossible(Stage(s, i.env));
    SmallFaults(0);
  }

  /** A run of the core is a run of the privilege machine. */
  lemma {:induction false} RunIsTrapRun(s: Core, ins: seq<Input>)
    requires !H.IsInterrupt(s.x.instr.cause) && forall i :: i in ins ==> SmallSlot(i)
    ensures Traps.Run(s.hart, Events(s, ins)) && Traps.After(s.hart, Events(s, ins)) == Run(s, ins).hart
    decreases ins
  {
    hide H.IsInterrupt, Traps.Able, H.Step, EventOf, SmallSlot, Next;
    if ins != [] {
      assert ins[0] in ins;
      StepIsEvent(s, ins[0]);
      RunIsTrapRun(Next(s, ins[0]), ins[1..]);
      assert Events(s, ins)[1..] == Events(Next(s, ins[0]), ins[1..]);
    }
  }

  /** From reset, as long as software is disciplined, the core below M mode has
      MPP = 0 and MPRV = 0, and its stored pending bits are writable ones. */
  lemma CoreStack(s: Core, ins: seq<Input>)
    requires Initial(s) && s.hart == H.RESET && forall i :: i in ins ==> SmallSlot(i)
    requires Traps.AllDisciplined(H.RESET, Events(s, ins))
    ensures Traps.StackOk(Run(s, ins).hart) && Traps.MipOk(Run(s, ins).hart)
  {
    hide Traps.StackOk, Traps.MipOk, H.IsInterrupt, Events, SmallSlot, Run, Traps.Run, Traps.AlwaysOk, Traps.AllDisciplined;
    SmallFaults(0);
    RunIsTrapRun(s, ins);
    Traps.StackInvariant(Events(s, ins));
    LastOk(H.RESET, Events(s, ins));
    Traps.ResetMip();
    Traps.MipInvariant(H.RESET, Events(s, ins));
  }

  lemma {:induction false} LastOk(h: H.Hart, es: seq<Traps.Event>)
    requires Traps.AlwaysOk(h, es)
    ensures Traps.StackOk(Traps.After(h, es))
    decreases es
  {
    hide Traps.StackOk, H.Step;
    if es != [] { LastOk(H.Step(h, es[0].eff), es[1..]); }
  }
}
