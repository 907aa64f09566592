/** Run-level properties of the privilege and trap machine: what every sequence
    of traps, returns and CSR instructions keeps. */
module Traps {
  import opened Options
  import opened Hart
  import Pmp

  datatype Event = Event(wires: bv32, counters: map<CsrAddr, bv32>, eff: Effect)

  predicate Able(h: Hart, e: Event) { Possible(h, e.wires, e.counters, e.eff) }

  /** Every event is one the execute stage can produce where it occurs. */
  predicate Run(h: Hart, es: seq<Event>)
    decreases es
  {
    es == [] || (Able(h, es[0]) && Run(Step(h, es[0].eff), es[1..]))
  }

  function After(h: Hart, es: seq<Event>): (r: Hart)
    decreases es
  {
    if es == [] then h else After(Step(h, es[0].eff), es[1..])
  }

  // --------------------------------------------------- fields of new statuses

  lemma MTrapFields(m: bv32, p: bv32)
    requires p <= 3
    ensures var n := MTrapStatus(m, p);
            && Mpp(n) == Mpp(m) | p && MprvBit(n) == MprvBit(m)
            && MpieBit(n) == MieBit(m) && !MieBit(n)
            && SieBit(n) == SieBit(m) && SpieBit(n) == SpieBit(m) && SppBit(n) == SppBit(m)
            && TsrBit(n) == TsrBit(m)
  {
  }

  lemma STrapFields(m: bv32, p: bv32)
    ensures var n := STrapStatus(m, p);
            && Mpp(n) == Mpp(m) && MprvBit(n) == MprvBit(m)
            && MpieBit(n) == MpieBit(m) && MieBit(n) == MieBit(m)
            && !SieBit(n) && SpieBit(n) == SieBit(m) && SppBit(n) == (p == S)
            && TsrBit(n) == TsrBit(m)
  {
  }

  lemma MretFields(m: bv32)
    ensures var n := MretStatus(m);
            && Mpp(n) == 0 && MprvBit(n) == (MprvBit(m) && Mpp(m) == 3)
            && MpieBit(n) && MieBit(n) == (MieBit(m) || MpieBit(m))
            && SieBit(n) == SieBit(m) && SpieBit(n) == SpieBit(m) && SppBit(n) == SppBit(m)
            && TsrBit(n) == TsrBit(m)
  {
  }

  lemma SretFields(m: bv32)
    ensures var n := SretStatus(m);
            && Mpp(n) == Mpp(m) && !MprvBit(n)
            && MpieBit(n) == MpieBit(m) && MieBit(n) == MieBit(m)
            && !SppBit(n) && SpieBit(n) && SieBit(n) == (SieBit(m) || SpieBit(m))
            && TsrBit(n) == TsrBit(m)
  {
  }

  /** Two statuses agree outside the supervisor-writable bits. */
  predicate Agree(m: bv32, n: bv32) { m & 0xFFF3_FEDD == n & 0xFFF3_FEDD }

  lemma AgreeMpp(m: bv32, n: bv32)
    requires Agree(m, n)
    ensures Mpp(n) == Mpp(m)
  {
    assert n & 0x1800 == m & 0x1800;
  }

  lemma AgreeMprv(m: bv32, n: bv32)
    requires Agree(m, n)
    ensures MprvBit(n) == MprvBit(m)
  {
    assert n & 0x2_0000 == m & 0x2_0000;
  }

  lemma AgreeMie(m: bv32, n: bv32)
    requires Agree(m, n)
    ensures MieBit(n) == MieBit(m)
  {
    assert n & 0x8 == m & 0x8;
  }

  lemma WriteAgree(m: bv32, val: bv32)
    ensures Agree(m, Replaced(0xC_0122, m, val))
  {
  }

  lemma SetAgree(m: bv32, val: bv32)
    ensures Agree(m, WithSet(0xC_0122, m, val))
  {
  }

  lemma ClearAgree(m: bv32, val: bv32)
    ensures Agree(m, WithClear(0xC_0122, m, val))
  {
  }

  lemma MergeAgree(op: Op, m: bv32, val: bv32)
    ensures Agree(m, Merge(op, 0xC_0122, m, val))
  {
    hide Agree, Replaced, WithSet, WithClear;
    WriteAgree(m, val);
    SetAgree(m, val);
    ClearAgree(m, val);
  }

  /** A supervisor status write leaves the machine-level fields alone. */
  lemma SstatusFields(op: Op, m: bv32, val: bv32)
    ensures var n := Merge(op, 0xC_0122, m, val);
            Mpp(n) == Mpp(m) && MprvBit(n) == MprvBit(m) && MieBit(n) == MieBit(m)
  {
    hide Mpp, MprvBit, MieBit, Agree, Merge;
    var n := Merge(op, 0xC_0122, m, val);
    MergeAgree(op, m, val);
    AgreeMpp(m, n);
    AgreeMprv(m, n);
    AgreeMie(m, n);
  }

  // ------------------------------------------------- the privilege stack holds

  predicate ValidPriv(p: bv32) { p == 0 || p == 1 || p == 3 }

  /** Below M mode the machine-level stack is empty: MPP = 0 and MPRV = 0. */
  predicate StackOk(h: Hart) {
    && ValidPriv(h.priv) && ValidPriv(Mpp(h.Status()))
    && (h.priv != M ==> Mpp(h.Status()) == 0 && !MprvBit(h.Status()))
  }

  /** What software must respect: no reserved MPP encoding is written, and SRET
      is not used to leave M mode while MPP is still set. */
  predicate Disciplined(h: Hart, e: Effect) {
    match e
    case UpdateCsr(a, op, cur, val) => a == MSTATUS ==> Mpp(Merge(op, 0x7FFE_19FF, cur, val)) != 2
    case TakeReturn(mret) => !mret && h.priv == M ==> Mpp(h.Status()) == 0
    case _ => true
  }

  lemma MppRange(m: bv32)
    ensures ValidPriv(Mpp(m)) <==> Mpp(m) != 2
  {
  }

  lemma OrPriv(a: bv32, p: bv32)
    requires ValidPriv(p) && ValidPriv(a) && (p != M ==> a == 0)
    ensures a | p == p && p <= 3
  {
  }

  lemma MStatusNeedsM(p: bv32)
    requires ValidPriv(p) && Reaches(p, 0x300)
    ensures p == 3
  {
  }

  lemma StackTrap(h: Hart, cause: bv32, epc: bv32, tval: bv32)
    requires StackOk(h)
    ensures var t := Trap(h, cause, epc, tval);
            StackOk(t) && (t.priv == M ==> Mpp(t.Status()) == h.priv)
  {
    hide STrapStatus, MTrapStatus, TrapToS, ValidPriv, Mpp, MprvBit, Even;
    var m := h.Status();
    ValidPrivs();
    OrPriv(Mpp(m), h.priv);
    MTrapFields(m, h.priv);
    STrapFields(m, h.priv);
    SOnlyBelowM(h, cause);
  }

  lemma ValidPrivs()
    ensures ValidPriv(0) && ValidPriv(1) && ValidPriv(3)
  {
  }

  lemma SOnlyBelowM(h: Hart, cause: bv32)
    ensures TrapToS(h, cause) ==> h.priv != M
  {
  }

  lemma StackReturn(h: Hart, mret: bool)
    requires StackOk(h)
    ensures StackOk(Return(h, mret)) <==> Disciplined(h, TakeReturn(mret))
  {
    hide MretStatus, SretStatus, ValidPriv, Mpp, MprvBit, SppBit;
    var m := h.Status();
    ValidPrivs();
    MretFields(m);
    SretFields(m);
  }

  /** The register a CSR instruction on `a` really changes. */
  function Target(a: CsrAddr): (r: CsrAddr) {
    if a == SSTATUS then MSTATUS else if a == SIE then MIE else if a == SIP then MIP else a
  }

  /** Every other register, and the privilege, is left alone. */
  lemma CsrTouchesOnly(h: Hart, a: CsrAddr, op: Op, cur: bv32, val: bv32, b: CsrAddr)
    ensures CsrUpdate(h, a, op, cur, val).priv == h.priv
    ensures b != Target(a) ==> CsrUpdate(h, a, op, cur, val).Get(b) == h.Get(b)
    ensures h.priv != M ==> CsrUpdate(h, a, op, cur, val).pmp == h.pmp
  {
    hide Merge, IsCounter, IsFixed, IsPmpConfig, IsPmpAddr, IsHardwiredZero, CsrMask, Pmp.UpdateConfig, Pmp.UpdateAddr;
  }

  lemma CsrNewStatus(h: Hart, a: CsrAddr, op: Op, cur: bv32, val: bv32)
    ensures a == SSTATUS ==> CsrUpdate(h, a, op, cur, val).Status() == Merge(op, 0xC_0122, h.Status(), val)
    ensures a == MSTATUS ==> CsrUpdate(h, a, op, cur, val).Status() == Merge(op, 0x7FFE_19FF, cur, val)
  {
    hide Merge;
    if a == MSTATUS { MStatusPlain(); }
  }

  lemma StackCsr(h: Hart, e: Event)
    requires StackOk(h) && Able(h, e) && e.eff.UpdateCsr?
    ensures StackOk(Step(h, e.eff)) <==> Disciplined(h, e.eff)
  {
    hide ValidPriv, Mpp, MprvBit, Merge, Reaches, CsrRead, CsrUpdate;
    var UpdateCsr(a, op, cur, val) := e.eff;
    SstatusFields(op, h.Status(), val);
    CsrTouchesOnly(h, a, op, cur, val, MSTATUS);
    CsrNewStatus(h, a, op, cur, val);
    if a == MSTATUS {
      MStatusNeedsM(h.priv);
      MppRange(Merge(op, 0x7FFE_19FF, cur, val));
    }
  }

  lemma MStatusPlain()
    ensures !IsCounter(MSTATUS) && !IsFixed(MSTATUS) && !IsPmpConfig(MSTATUS) && !IsPmpAddr(MSTATUS) && !IsHardwiredZero(MSTATUS)
  {
  }

  /** One step keeps the stack exactly when software is disciplined. */
  lemma StackStep(h: Hart, e: Event)
    requires StackOk(h) && Able(h, e)
    ensures StackOk(Step(h, e.eff)) <==> Disciplined(h, e.eff)
  {
    hide StackOk, Possible, Trap, Return, CsrUpdate;
    match e.eff
    case NoEffect =>
    case TakeTrap(cause, epc, tval) => StackTrap(h, cause, epc, tval);
    case TakeReturn(mret) => StackReturn(h, mret);
    case UpdateCsr(_, _, _, _) => StackCsr(h, e);
  }

  predicate AllDisciplined(h: Hart, es: seq<Event>)
    decreases es
  {
    es == [] || (Disciplined(h, es[0].eff) && AllDisciplined(Step(h, es[0].eff), es[1..]))
  }

  predicate AlwaysOk(h: Hart, es: seq<Event>)
    decreases es
  {
    StackOk(h) && (es == [] || AlwaysOk(Step(h, es[0].eff), es[1..]))
  }

  lemma {:induction false} StackRun(h: Hart, es: seq<Event>)
    requires StackOk(h) && Run(h, es)
    ensures AlwaysOk(h, es) <==> AllDisciplined(h, es)
    decreases es
  {
    hide StackOk, Able, Disciplined, Step;
    if es != [] {
      StackStep(h, es[0]);
      if Disciplined(h, es[0].eff) {
        StackRun(Step(h, es[0].eff), es[1..]);
      } else {
        NotOkAtHead(Step(h, es[0].eff), es[1..]);
      }
    }
  }

  lemma NotOkAtHead(h: Hart, es: seq<Event>)
    requires !StackOk(h)
    ensures !AlwaysOk(h, es)
  {
    hide StackOk, Step;
  }

  lemma ResetOk()
    ensures StackOk(RESET)
  {
  }

  /** From reset, the stack invariant holds throughout a run if and only if the
      run is disciplined. */
  lemma StackInvariant(es: seq<Event>)
    requires Run(RESET, es)
    ensures AlwaysOk(RESET, es) <==> AllDisciplined(RESET, es)
  {
    ResetOk();
    StackRun(RESET, es);
  }

  /** Although MPP is only ORed in, a trap into M records the interrupted
      privilege exactly when no stale bit lies outside it. */
  lemma TrapRecordsIff(h: Hart, cause: bv32, epc: bv32, tval: bv32)
    requires h.priv <= 3 && !TrapToS(h, cause)
    ensures Mpp(Trap(h, cause, epc, tval).Status()) == h.priv <==> Within(Mpp(h.Status()), h.priv)
  {
    hide MTrapStatus, TrapToS, Mpp, Even, Within;
    MTrapFields(h.Status(), h.priv);
    MppSmall(h.Status());
    OrSubset(Mpp(h.Status()), h.priv);
  }

  lemma OrSubset(a: bv32, p: bv32)
    requires a <= 3 && p <= 3
    ensures a | p == p <==> Within(a, p)
  {
  }

  /** No bit of `a` lies outside `p`. */
  predicate Within(a: bv32, p: bv32) { a & !p == 0 }

  /** Returns are not confined to the mode that owns them: with the stack sound, a
      return raises the privilege exactly when it is SRET in U mode with SPP set. */
  lemma ReturnRaisesIff(h: Hart, mret: bool)
    requires StackOk(h)
    ensures Return(h, mret).priv > h.priv <==> !mret && h.priv == U && SppBit(h.Status())
  {
    hide MretStatus, SretStatus, SppBit, Mpp, MprvBit;
    MppRange(h.Status());
    MppSmall(h.Status());
  }

  lemma MppSmall(m: bv32)
    ensures Mpp(m) <= 3
  {
  }

  /** A disciplined run from reset that does it. */
  lemma SretRaisesExample()
    ensures var es := [Write1(MSTATUS, 0x1800, 0x100), Event(0, map[], TakeReturn(true)), Event(0, map[], TakeReturn(false))];
            && Run(RESET, es) && AllDisciplined(RESET, es)
            && After(RESET, es[..2]).priv == U && After(RESET, es).priv == S
  {
    hide Able, Step, Disciplined;
    var es := [Write1(MSTATUS, 0x1800, 0x100), Event(0, map[], TakeReturn(true)), Event(0, map[], TakeReturn(false))];
    var h1 := RESET.Set(MSTATUS, 0x100);
    var h2 := h1.Set(MSTATUS, 0x180).(priv := U);
    var h3 := Step(h2, TakeReturn(false));
    SppWritten(RESET);
    SppReturns(h1, h2);
    Unfold(RESET, es, h1);
    Unfold(h1, es[1..], h2);
    Unfold(h2, es[2..], h3);
    assert es[..2] == [es[0], es[1]];
    Unfold(RESET, es[..2], h1);
    Unfold(h1, es[..2][1..], h2);
  }

  lemma SppWritten(h: Hart)
    requires h.priv == M && h.Status() == 0x1800
    ensures var e := Write1(MSTATUS, 0x1800, 0x100);
            Able(h, e) && Disciplined(h, e.eff) && Step(h, e.eff) == h.Set(MSTATUS, 0x100)
  {
    hide Replaced;
    SppMask();
    assert h.Status() & 0x7FFE_19FF == 0x1800;
  }

  lemma SppMask()
    ensures Replaced(0x7FFE_19FF, 0x1800, 0x100) == 0x100 && Mpp(0x100) == 0
  {
  }

  lemma SppReturns(h1: Hart, h2: Hart)
    requires h1.priv == M && h1.Status() == 0x100 && h2 == h1.Set(MSTATUS, 0x180).(priv := U)
    ensures var e := Event(0, map[], TakeReturn(true));
            Able(h1, e) && Disciplined(h1, e.eff) && Step(h1, e.eff) == h2
    ensures var e := Event(0, map[], TakeReturn(false));
            Able(h2, e) && Disciplined(h2, e.eff) && Step(h2, e.eff).priv == S
  {
    hide MretStatus, SretStatus, Mpp, SppBit;
    SppBits();
  }

  lemma SppBits()
    ensures MretStatus(0x100) == 0x180 && Mpp(0x100) == 0 && SppBit(0x180)
  {
  }

  /** A stale MPP is not hypothetical: SRET from M with MPP = 3, then a trap
      from U, records M. */
  lemma StaleMppExample()
    ensures var h := Trap(Return(RESET, false), 8, 0, 0);
            Return(RESET, false).priv == U && h.priv == M && Mpp(h.Status()) == M
  {
    assert RESET.Status() == 0x1800;
    var m: bv32 := 0x1800;
    assert SretStatus(m) == 0x1820 && !SppBit(m);
    var h := Return(RESET, false);
    assert h.Status() == 0x1820 && h.Get(MEDELEG) == 0;
    assert !Delegated(0, 8);
    assert MTrapStatus(0x1820, 0) == 0x1820 && Mpp(0x1820) == 3;
  }

  // ------------------------------------------- nested traps unwind completely

  /** Handler code that leaves the status bits and saved PCs alone. */
  predicate Quiet(e: Effect) {
    e.NoEffect? || (e.UpdateCsr? && Target(e.addr) != MSTATUS && e.addr != SEPC && e.addr != MEPC)
  }

  predicate AllQuiet(es: seq<Event>) { forall e :: e in es ==> Quiet(e.eff) }

  /** The part of the state a handler must not disturb. */
  predicate SameStack(g: Hart, h: Hart) {
    g.priv == h.priv && g.Status() == h.Status() && g.Get(SEPC) == h.Get(SEPC) && g.Get(MEPC) == h.Get(MEPC)
  }

  lemma {:induction false} QuietKeeps(h: Hart, es: seq<Event>)
    requires AllQuiet(es)
    ensures SameStack(h, After(h, es))
    decreases es
  {
    hide CsrUpdate;
    if es != [] {
      assert es[0] in es;
      var e := es[0].eff;
      if e.UpdateCsr? {
        CsrTouchesOnly(h, e.addr, e.op, e.cur, e.val, MSTATUS);
        CsrTouchesOnly(h, e.addr, e.op, e.cur, e.val, SEPC);
        CsrTouchesOnly(h, e.addr, e.op, e.cur, e.val, MEPC);
      }
      assert AllQuiet(es[1..]);
      QuietKeeps(Step(h, e), es[1..]);
    }
  }

  /** Quiet supervisor code, a trap into M at `pc`, quiet machine code; MRET follows. */
  datatype Visit = Visit(before: seq<Event>, cause: bv32, pc: bv32, tval: bv32, handler: seq<Event>)

  function AtTrap(h: Hart, v: Visit): (r: Hart) { After(h, v.before) }

  function AtMret(h: Hart, v: Visit): (r: Hart) {
    After(Trap(AtTrap(h, v), v.cause, v.pc, v.tval), v.handler)
  }

  function AfterVisit(h: Hart, v: Visit): (r: Hart) { Return(AtMret(h, v), true) }

  predicate VisitOk(h: Hart, v: Visit) {
    AllQuiet(v.before) && AllQuiet(v.handler) && !TrapToS(AtTrap(h, v), v.cause)
  }

  function AfterVisits(h: Hart, vs: seq<Visit>): (r: Hart)
    decreases vs
  {
    if vs == [] then h else AfterVisits(AfterVisit(h, vs[0]), vs[1..])
  }

  predicate VisitsOk(h: Hart, vs: seq<Visit>)
    decreases vs
  {
    vs == [] || (VisitOk(h, vs[0]) && VisitsOk(AfterVisit(h, vs[0]), vs[1..]))
  }

  /** Where a supervisor handler stands with respect to the interrupted state `o`. */
  predicate InHandler(h: Hart, o: Hart, pc: bv32) {
    && h.priv == S && StackOk(h) && h.Get(SEPC) == Even(pc)
    && !SieBit(h.Status()) && SpieBit(h.Status()) == SieBit(o.Status())
    && SppBit(h.Status()) == (o.priv == S) && MieBit(h.Status()) == MieBit(o.Status())
    && TsrBit(h.Status()) == TsrBit(o.Status())
  }

  /** A machine-mode excursion returns to the very instruction it left, in S
      mode, with the supervisor stack intact. */
  lemma VisitReturns(h: Hart, o: Hart, pc: bv32, v: Visit)
    requires InHandler(h, o, pc) && VisitOk(h, v)
    ensures InHandler(AfterVisit(h, v), o, pc)
    ensures ReturnPc(AtMret(h, v), true) == Even(v.pc)
  {
    hide SieBit, MieBit, SpieBit, MpieBit, SppBit, Mpp, MprvBit, TsrBit, MTrapStatus, MretStatus, Even, TrapToS, AllQuiet,
      ValidPriv, After;
    EvenTwice(v.pc);
    var a := AtTrap(h, v);
    QuietKeeps(h, v.before);
    var b := Trap(a, v.cause, v.pc, v.tval);
    ValidPrivs();
    MTrapFields(a.Status(), a.priv);
    OrZero(a.priv);
    QuietKeeps(b, v.handler);
    MretFields(b.Status());
  }

  lemma OrZero(p: bv32)
    ensures (0 as bv32) | p == p
  {
  }

  lemma {:induction false} VisitsReturn(h: Hart, o: Hart, pc: bv32, vs: seq<Visit>)
    requires InHandler(h, o, pc) && VisitsOk(h, vs)
    ensures InHandler(AfterVisits(h, vs), o, pc)
    decreases vs
  {
    hide InHandler, VisitOk, AfterVisit;
    if vs != [] {
      VisitReturns(h, o, pc, vs[0]);
      VisitsReturn(AfterVisit(h, vs[0]), o, pc, vs[1..]);
    }
  }

  lemma STrapEnters(o: Hart, cause: bv32, pc: bv32, tval: bv32)
    requires StackOk(o) && TrapToS(o, cause)
    ensures InHandler(Trap(o, cause, pc, tval), o, pc)
  {
    hide SieBit, MieBit, SpieBit, MpieBit, SppBit, Mpp, MprvBit, TsrBit, STrapStatus, Even, TrapToS, ValidPriv;
    ValidPrivs();
    SOnlyBelowM(o, cause);
    STrapFields(o.Status(), o.priv);
  }

  lemma EvenTwice(x: bv32)
    ensures Even(Even(x)) == Even(x)
  {
  }

  /** A supervisor trap at `pc`, any number of machine-mode excursions, and SRET
      with TSR clear restore privilege, SIE, MIE and the PC. */
  lemma NestedRoundTrip(o: Hart, cause: bv32, pc: bv32, tval: bv32, vs: seq<Visit>, tail: seq<Event>)
    requires StackOk(o) && TrapToS(o, cause) && !TsrBit(o.Status())
    requires VisitsOk(Trap(o, cause, pc, tval), vs) && AllQuiet(tail)
    ensures var last := After(AfterVisits(Trap(o, cause, pc, tval), vs), tail);
            && Possible(last, 0, map[], TakeReturn(false))
            && Return(last, false).priv == o.priv
            && SieBit(Return(last, false).Status()) == SieBit(o.Status())
            && MieBit(Return(last, false).Status()) == MieBit(o.Status())
            && ReturnPc(last, false) == Even(pc)
  {
    hide SieBit, MieBit, SpieBit, MpieBit, SppBit, Mpp, MprvBit, TsrBit, SretStatus, Even, TrapToS, AllQuiet,
      VisitsOk, AfterVisits, After, Trap, ValidPriv;
    var h := Trap(o, cause, pc, tval);
    STrapEnters(o, cause, pc, tval);
    VisitsReturn(h, o, pc, vs);
    var g := AfterVisits(h, vs);
    QuietKeeps(g, tail);
    SretFields(g.Status());
    EvenTwice(pc);
    SOnlyBelowM(o, cause);
    PrivIsSOrU(o);
  }

  lemma PrivIsSOrU(o: Hart)
    requires StackOk(o) && o.priv != M
    ensures o.priv == if o.priv == S then 1 else 0
  {
  }

  // -------------------------------------------------------- interrupts in runs

  /** Stored pending bits stay within the writable ones, SSIP and SEIP. */
  predicate MipOk(h: Hart) { WritableMip(h.Get(MIP)) }

  predicate WritableMip(v: bv32) { v & 0xFFFF_FDFD == 0 }

  lemma MergeWithin(op: Op, wide: bool, cur: bv32, val: bv32)
    requires WritableMip(cur)
    ensures WritableMip(Merge(op, if wide then 0x202 else 0x2, cur, val))
  {
    match op
    case Write =>
      assert ((cur & !0x202) | (val & 0x202)) & 0xFFFF_FDFD == 0;
      assert ((cur & !0x2) | (val & 0x2)) & 0xFFFF_FDFD == 0;
    case SetBits =>
      assert (cur | (val & 0x202)) & 0xFFFF_FDFD == 0;
      assert (cur | (val & 0x2)) & 0xFFFF_FDFD == 0;
    case ClearBits =>
      assert (cur & !(val & 0x202)) & 0xFFFF_FDFD == 0;
      assert (cur & !(val & 0x2)) & 0xFFFF_FDFD == 0;
  }

  lemma MipStep(h: Hart, e: Effect)
    requires MipOk(h)
    ensures MipOk(Step(h, e))
  {
    hide WritableMip, Merge, TrapToS, STrapStatus, MTrapStatus, MretStatus, SretStatus, Even, Mpp, SppBit, CsrUpdate;
    if e.UpdateCsr? {
      CsrTouchesOnly(h, e.addr, e.op, e.cur, e.val, MIP);
      if Target(e.addr) == MIP {
        CsrNewMip(h, e.addr, e.op, e.cur, e.val);
        MergeWithin(e.op, e.addr == MIP, h.Get(MIP), e.val);
      }
    }
  }

  lemma CsrNewMip(h: Hart, a: CsrAddr, op: Op, cur: bv32, val: bv32)
    requires a == MIP || a == SIP
    ensures CsrUpdate(h, a, op, cur, val).Get(MIP) == Merge(op, if a == MIP then 0x202 else 0x2, h.Get(MIP), val)
  {
    hide Merge;
  }

  /** From reset on, the stored pending bits never leave the write mask. */
  lemma {:induction false} MipInvariant(h: Hart, es: seq<Event>)
    requires MipOk(h)
    ensures MipOk(After(h, es))
    decreases es
  {
    hide MipOk, Step;
    if es != [] {
      MipStep(h, es[0].eff);
      MipInvariant(Step(h, es[0].eff), es[1..]);
    }
  }

  lemma ResetMip()
    ensures MipOk(RESET)
  {
  }

  /** Bits above `id` in the order MEI, MSI, MTI, SEI, SSI, STI. */
  function Higher(id: bv32): (r: bv32) {
    if id == 11 then 0 else if id == 3 then 0x800 else if id == 7 then 0x808
    else if id == 9 then 0x888 else if id == 1 then 0xA88 else 0xA8A
  }

  predicate Standard(id: bv32) { id == 11 || id == 3 || id == 7 || id == 9 || id == 1 || id == 5 }

  /** `id` is the highest-priority member of `f`. */
  predicate Chosen(f: bv32, id: bv32) { Standard(id) && Delegated(f, id) && f & Higher(id) == 0 }

  predicate OnlyStandard(f: bv32) { f & 0xFFFF_F555 == 0 }

  lemma PriorityIsChosen(f: bv32)
    requires f != 0 && OnlyStandard(f)
    ensures Chosen(f, Ctz(Prioritise(f)))
  {
    if f & 0x800 != 0 {
      assert Prioritise(f) == 0x800 && Ctz(0x800) == 11;
    } else if f & 0x8 != 0 {
      assert Prioritise(f) == 0x8 && Ctz(0x8) == 3;
    } else if f & 0x80 != 0 {
      assert Prioritise(f) == 0x80 && Ctz(0x80) == 7;
    } else if f & 0x200 != 0 {
      assert Prioritise(f) == 0x200 && Ctz(0x200) == 9;
    } else if f & 0x2 != 0 {
      assert Prioritise(f) == 0x2 && Ctz(0x2) == 1;
    } else {
      assert f & 0x20 != 0;
      assert Prioritise(f) == 0x20 && Ctz(0x20) == 5;
    }
  }

  lemma TakeableMask(mip: bv32, wires: bv32, mie: bv32, d: bv32, m: bool, s: bool)
    requires WritableMip(mip)
    ensures OnlyStandard(ByLevel(Pending(mip, wires, mie), d, m, s))
  {
    var p := (mip | (wires & 0xAA0)) & mie;
    assert p & 0xFFFF_F555 == 0;
    assert (p & !d) & 0xFFFF_F555 == 0 && (p & d) & 0xFFFF_F555 == 0;
  }

  lemma TakeableStandard(h: Hart, wires: bv32)
    requires MipOk(h)
    ensures OnlyStandard(Takeable(h, wires))
  {
    hide OnlyStandard, WritableMip, MEnabled, SEnabled, ByLevel, Pending;
    TakeableMask(h.Get(MIP), wires, h.Get(MIE), h.Get(MIDELEG), MEnabled(h), SEnabled(h));
  }

  function InterruptId(c: bv32): (r: bv32) { c & 0x1F }

  lemma CauseParts(id: bv32)
    requires Standard(id)
    ensures InterruptId(InterruptCause(id)) == id && CauseId(InterruptCause(id)) == id && IsInterrupt(InterruptCause(id))
  {
  }

  /** The cause taken is the highest-priority enabled pending interrupt, and one
      is taken whenever there is any. */
  lemma InterruptChoice(h: Hart, wires: bv32)
    requires MipOk(h)
    ensures CheckInterrupt(h, wires) == None <==> Takeable(h, wires) == 0
    ensures CheckInterrupt(h, wires).Some? ==>
              var c := CheckInterrupt(h, wires).value;
              IsInterrupt(c) && CauseId(c) == InterruptId(c) && Chosen(Takeable(h, wires), InterruptId(c))
  {
    hide Takeable, Chosen, MipOk, Ctz, Prioritise, OnlyStandard, IsInterrupt, CauseId, InterruptId, InterruptCause, Standard;
    var f := Takeable(h, wires);
    TakeableStandard(h, wires);
    if f != 0 {
      PriorityIsChosen(f);
      ChosenIsStandard(f, Ctz(Prioritise(f)));
      CauseParts(Ctz(Prioritise(f)));
    }
  }

  lemma ChosenIsStandard(f: bv32, id: bv32)
    requires Chosen(f, id)
    ensures Standard(id)
  {
  }

  lemma MachineOnly(p: bv32, d: bv32, id: bv32)
    requires Delegated(ByLevel(p, d, true, false), id)
    ensures !Delegated(d, id)
  {
    assert (p & !d) | 0 == p & !d;
  }

  lemma SupervisorOnly(p: bv32, d: bv32, id: bv32)
    requires Delegated(ByLevel(p, d, false, true), id)
    ensures Delegated(d, id)
  {
    assert (0 as bv32) | (p & d) == p & d;
  }

  lemma Neither(p: bv32, d: bv32, id: bv32)
    ensures !Delegated(ByLevel(p, d, false, false), id)
  {
    assert (0 as bv32) | 0 == 0;
  }

  lemma ChosenIsMember(f: bv32, id: bv32)
    requires Chosen(f, id)
    ensures Delegated(f, id)
  {
  }

  lemma MemberLevel(p: bv32, d: bv32, m: bool, s: bool, id: bv32)
    requires Chosen(ByLevel(p, d, m, s), id)
    ensures if Delegated(d, id) then s else m
  {
    hide Chosen, Delegated, ByLevel;
    ChosenIsMember(ByLevel(p, d, m, s), id);
    if m && !s {
      MachineOnly(p, d, id);
    } else if s && !m {
      SupervisorOnly(p, d, id);
    } else if !m && !s {
      Neither(p, d, id);
    }
  }

  /** A delegated interrupt is never taken in M, nor in S with SIE clear; one
      that is not delegated is never taken in M with MIE clear. */
  lemma InterruptLevel(h: Hart, wires: bv32)
    requires MipOk(h) && CheckInterrupt(h, wires).Some?
    ensures var c := CheckInterrupt(h, wires).value;
            if Delegated(h.Get(MIDELEG), CauseId(c)) then SEnabled(h) else MEnabled(h)
  {
    hide MipOk, CheckInterrupt, Chosen, MEnabled, SEnabled, Delegated, CauseId, InterruptId, ByLevel, Pending;
    InterruptChoice(h, wires);
    var p := Pending(h.Get(MIP), wires, h.Get(MIE));
    MemberLevel(p, h.Get(MIDELEG), MEnabled(h), SEnabled(h), InterruptId(CheckInterrupt(h, wires).value));
  }

  /** The mode a delegated interrupt enters: S exactly when SIE is set.  From U
      mode it is taken with SIE clear too, and then lands in M. */
  lemma DelegatedEntersSIff(h: Hart, wires: bv32, epc: bv32)
    requires MipOk(h) && CheckInterrupt(h, wires).Some? && ValidPriv(h.priv)
    requires Delegated(h.Get(MIDELEG), CauseId(CheckInterrupt(h, wires).value))
    ensures Trap(h, CheckInterrupt(h, wires).value, epc, 0).priv == S <==> SieBit(h.Status())
  {
    hide MipOk, CheckInterrupt, Delegated, CauseId, InterruptId, Chosen, IsInterrupt, SieBit, STrapStatus, MTrapStatus, Even;
    InterruptChoice(h, wires);
    InterruptLevel(h, wires);
  }

  function Write1(a: CsrAddr, cur: bv32, val: bv32): (e: Event) { Event(0, map[], UpdateCsr(a, Write, cur, val)) }

  /** Delegate SSIP, enable it, raise it, clear MPP, and return. */
  function DelegationRun(): (es: seq<Event>) {
    [Write1(MIDELEG, 0, 2), Write1(MIE, 0, 2), Write1(MIP, 0, 2), Write1(MSTATUS, 0x1800, 0), Event(0, map[], TakeReturn(true))]
  }

  lemma WholeWrite(h: Hart, a: CsrAddr, val: bv32)
    requires h.priv == M && (a == MIDELEG || a == MIE)
    ensures Able(h, Write1(a, h.Get(a), val)) && Step(h, Write1(a, h.Get(a), val).eff) == h.Set(a, val)
  {
    hide Replaced;
    WholeMask(h.Get(a), val);
  }

  lemma WholeMask(cur: bv32, val: bv32)
    ensures Replaced(0xFFFF_FFFF, cur, val) == val
  {
  }

  lemma MipWrite(h: Hart)
    requires h.priv == M && h.Get(MIP) == 0
    ensures Able(h, Write1(MIP, 0, 2)) && Step(h, Write1(MIP, 0, 2).eff) == h.Set(MIP, 2)
  {
    hide Replaced;
    assert GetMip(h, 0) & 0xAAA == 0;
    MipMask();
  }

  lemma MipMask()
    ensures Replaced(0x202, 0, 2) == 2
  {
  }

  lemma StatusClear(h: Hart)
    requires h.priv == M && h.Status() == 0x1800
    ensures Able(h, Write1(MSTATUS, 0x1800, 0)) && Step(h, Write1(MSTATUS, 0x1800, 0).eff) == h.Set(MSTATUS, 0)
  {
    hide Replaced;
    StatusMask();
    assert h.Status() & 0x7FFE_19FF == 0x1800;
  }

  lemma StatusMask()
    ensures Replaced(0x7FFE_19FF, 0x1800, 0) == 0
  {
  }

  lemma MretToU(h: Hart)
    requires h.priv == M && h.Status() == 0
    ensures Step(h, TakeReturn(true)) == h.Set(MSTATUS, 0x80).(priv := U)
  {
    hide MretStatus, Mpp;
    MretZero();
  }

  lemma MretZero()
    ensures MretStatus(0) == 0x80 && Mpp(0) == 0
  {
  }

  /** The exceptional case is reached from reset by a disciplined run: U mode, SIE
      clear, SSIP pending, enabled and delegated. */
  lemma DelegatedToMExample()
    ensures Run(RESET, DelegationRun()) && AllDisciplined(RESET, DelegationRun())
    ensures var h := After(RESET, DelegationRun());
            && h.priv == U && MipOk(h) && CheckInterrupt(h, 0) == Some(0x8000_0001)
            && Delegated(h.Get(MIDELEG), 1) && Trap(h, 0x8000_0001, 0, 0).priv == M
  {
    hide Able, Step, Disciplined, CheckInterrupt, Delegated, Trap;
    var es := DelegationRun();
    var h1 := RESET.Set(MIDELEG, 2);
    var h2 := h1.Set(MIE, 2);
    var h3 := h2.Set(MIP, 2);
    var h4 := h3.Set(MSTATUS, 0);
    var h5 := h4.Set(MSTATUS, 0x80).(priv := U);
    WholeWrite(RESET, MIDELEG, 2);
    WholeWrite(h1, MIE, 2);
    MipWrite(h2);
    StatusClear(h3);
    MretToU(h4);
    RouteDisciplined(RESET, MIDELEG);
    RouteDisciplined(h1, MIE);
    RouteDisciplined(h2, MIP);
    StatusDisciplined(h3);
    ReturnDisciplined(h4);
    Unfold(RESET, es, h1);
    Unfold(h1, es[1..], h2);
    Unfold(h2, es[2..], h3);
    Unfold(h3, es[3..], h4);
    Unfold(h4, es[4..], h5);
    TakesSsip(h5);
  }

  /** One event at the head of a run. */
  lemma Unfold(h: Hart, es: seq<Event>, n: Hart)
    requires es != [] && Able(h, es[0]) && Disciplined(h, es[0].eff) && n == Step(h, es[0].eff)
    ensures Run(h, es) == Run(n, es[1..]) && After(h, es) == After(n, es[1..])
    ensures AllDisciplined(h, es) == AllDisciplined(n, es[1..])
  {
    hide Able, Step, Disciplined;
  }

  lemma RouteDisciplined(h: Hart, a: CsrAddr)
    requires a == MIDELEG || a == MIE || a == MIP
    ensures Disciplined(h, Write1(a, 0, 2).eff)
  {
  }

  lemma StatusDisciplined(h: Hart)
    requires h.priv == M
    ensures Disciplined(h, Write1(MSTATUS, 0x1800, 0).eff)
  {
    hide Replaced;
    StatusMask();
  }

  lemma ReturnDisciplined(h: Hart)
    requires h.priv == M && h.Status() == 0
    ensures Disciplined(h, TakeReturn(true)) && Able(h, Event(0, map[], TakeReturn(true)))
  {
  }

  lemma TakesSsip(h: Hart)
    requires h.priv == U && h.Status() == 0x80 && h.Get(MIP) == 2 && h.Get(MIE) == 2 && h.Get(MIDELEG) == 2
    ensures MipOk(h) && CheckInterrupt(h, 0) == Some(0x8000_0001)
    ensures Delegated(h.Get(MIDELEG), 1) && Trap(h, 0x8000_0001, 0, 0).priv == M
  {
    assert Pending(2, 0, 2) == 2 && ByLevel(2, 2, true, true) == 2;
    assert Prioritise(2) == 2 && Ctz(2) == 1 && InterruptCause(1) == 0x8000_0001;
    assert IsInterrupt(0x8000_0001) && !SieBit(0x80);
  }

  /** The fetched handler address and the entered mode always agree. */
  lemma HandlerMatchesMode(h: Hart, cause: bv32, epc: bv32, tval: bv32)
    requires h.priv <= 3
    ensures var t := Trap(h, cause, epc, tval);
            && (t.priv == S ==> TrapPc(h, cause) == Vector(t.Get(STVEC), cause) && t.Get(SCAUSE) == cause)
            && (t.priv != S ==> t.priv == M && TrapPc(h, cause) == Vector(t.Get(MTVEC), cause) && t.Get(MCAUSE) == cause)
  {
    hide TrapToS, Vector, Even, STrapStatus, MTrapStatus;
  }

  /** Calm events: anything but a return or a status write. */
  predicate Calm(e: Effect) {
    e.NoEffect? || e.TakeTrap? || (e.UpdateCsr? && Target(e.addr) != MSTATUS)
  }

  /** Interrupts of the current level are off. */
  predicate Masked(h: Hart) {
    (h.priv == S && !SieBit(h.Status())) || (h.priv == M && !MieBit(h.Status()))
  }

  lemma TrapMasks(h: Hart, cause: bv32, epc: bv32, tval: bv32)
    requires h.priv <= 3
    ensures Masked(Trap(h, cause, epc, tval))
  {
    hide TrapToS, Even, STrapStatus, MTrapStatus, SieBit, MieBit;
    STrapFields(h.Status(), h.priv);
    MTrapFields(h.Status(), h.priv);
  }

  lemma {:induction false} CalmStaysMasked(h: Hart, es: seq<Event>)
    requires Masked(h) && forall e :: e in es ==> Calm(e.eff)
    ensures Masked(After(h, es)) && (h.priv == M ==> After(h, es).priv == M)
    decreases es
  {
    hide SieBit, MieBit, Trap, CsrUpdate;
    if es != [] {
      assert es[0] in es;
      var e := es[0].eff;
      match e {
        case NoEffect =>
        case TakeTrap(cause, epc, tval) =>
          TrapMasks(h, cause, epc, tval);
          StaysInM(h, cause, epc, tval);
        case UpdateCsr(a, op, cur, val) => CsrTouchesOnly(h, a, op, cur, val, MSTATUS);
      }
      CalmStaysMasked(Step(h, e), es[1..]);
    }
  }

  lemma StaysInM(h: Hart, cause: bv32, epc: bv32, tval: bv32)
    ensures h.priv == M ==> Trap(h, cause, epc, tval).priv == M
  {
    hide Even, STrapStatus, MTrapStatus;
  }

  /** After a trap, until a return or a status write: no interrupt at all is
      taken in M mode, and none that is delegated is taken in S mode. */
  lemma NoNestedInterrupt(h: Hart, cause: bv32, epc: bv32, tval: bv32, es: seq<Event>, wires: bv32)
    requires h.priv <= 3 && MipOk(h) && (forall e :: e in es ==> Calm(e.eff))
    ensures var g := After(Trap(h, cause, epc, tval), es);
            && (g.priv == M ==> CheckInterrupt(g, wires) == None)
            && (CheckInterrupt(g, wires).Some? ==>
                  g.priv == S && !Delegated(g.Get(MIDELEG), CauseId(CheckInterrupt(g, wires).value)))
  {
    hide MipOk, Delegated, CauseId, SieBit, MieBit, Trap, After, CheckInterrupt;
    var t := Trap(h, cause, epc, tval);
    TrapMasks(h, cause, epc, tval);
    MipStep(h, TakeTrap(cause, epc, tval));
    CalmStaysMasked(t, es);
    MipInvariant(t, es);
    var g := After(t, es);
    if CheckInterrupt(g, wires).Some? {
      InterruptLevel(g, wires);
    }
  }

  // ------------------------------------------------- what lower modes cannot touch

  /** Machine registers that lower modes can neither write nor cause to change. */
  predicate MachineOwned(a: CsrAddr) {
    a / 256 % 4 > 1 && a != MSTATUS && a != MIE && a != MIP && a != MEPC && a != MCAUSE && a != MTVAL
  }

  function OutsideMask(v: bv32, mask: bv32): (r: bv32) { v & !mask }

  ghost predicate Framed(g: Hart, h: Hart) {
    && g.pmp == h.pmp
    && (forall a: CsrAddr :: MachineOwned(a) ==> g.Get(a) == h.Get(a))
    && OutsideMask(g.Get(MIE), g.Get(MIDELEG)) == OutsideMask(h.Get(MIE), g.Get(MIDELEG))
  }

  lemma MergeOutsideMask(op: Op, mask: bv32, cur: bv32, val: bv32)
    ensures OutsideMask(Merge(op, mask, cur, val), mask) == OutsideMask(cur, mask)
  {
    hide Replaced, WithSet, WithClear, OutsideMask;
    ReplacedOutside(mask, cur, val);
    SetOutside(mask, cur, val);
    ClearOutside(mask, cur, val);
  }

  lemma ReplacedOutside(mask: bv32, cur: bv32, val: bv32)
    ensures OutsideMask(Replaced(mask, cur, val), mask) == OutsideMask(cur, mask)
  {
  }

  lemma SetOutside(mask: bv32, cur: bv32, val: bv32)
    ensures OutsideMask(WithSet(mask, cur, val), mask) == OutsideMask(cur, mask)
  {
  }

  lemma ClearOutside(mask: bv32, cur: bv32, val: bv32)
    ensures OutsideMask(WithClear(mask, cur, val), mask) == OutsideMask(cur, mask)
  {
  }

  lemma CsrNewMie(h: Hart, op: Op, cur: bv32, val: bv32)
    ensures CsrUpdate(h, SIE, op, cur, val).Get(MIE) == Merge(op, h.Get(MIDELEG), h.Get(MIE), val)
  {
    hide Merge;
  }

  /** Four writes and a change of mode. */
  function Four(h: Hart, a: CsrAddr, u: bv32, b: CsrAddr, v: bv32, c: CsrAddr, w: bv32, m: bv32, priv: bv32): (r: Hart) {
    h.Set(a, u).Set(b, v).Set(c, w).Set(MSTATUS, m).(priv := priv)
  }

  lemma FourElsewhere(h: Hart, a: CsrAddr, u: bv32, b: CsrAddr, v: bv32, c: CsrAddr, w: bv32, m: bv32, priv: bv32, d: CsrAddr)
    requires d != a && d != b && d != c && d != MSTATUS
    ensures Four(h, a, u, b, v, c, w, m, priv).Get(d) == h.Get(d)
  {
  }

  lemma TrapIsFour(h: Hart, cause: bv32, epc: bv32, tval: bv32)
    ensures Trap(h, cause, epc, tval)
         == if TrapToS(h, cause)
            then Four(h, SCAUSE, cause, SEPC, Even(epc), STVAL, tval, STrapStatus(h.Status(), h.priv), S)
            else Four(h, MCAUSE, cause, MEPC, Even(epc), MTVAL, tval, MTrapStatus(h.Status(), h.priv), M)
  {
    hide TrapToS, STrapStatus, MTrapStatus, Even;
  }

  lemma TrapTouchesOnly(h: Hart, cause: bv32, epc: bv32, tval: bv32, b: CsrAddr)
    requires b != MSTATUS && b != MCAUSE && b != MEPC && b != MTVAL && b != SCAUSE && b != SEPC && b != STVAL
    ensures Trap(h, cause, epc, tval).Get(b) == h.Get(b)
  {
    hide Trap, TrapToS, STrapStatus, MTrapStatus, Even, Four;
    TrapIsFour(h, cause, epc, tval);
    FourElsewhere(h, SCAUSE, cause, SEPC, Even(epc), STVAL, tval, STrapStatus(h.Status(), h.priv), S, b);
    FourElsewhere(h, MCAUSE, cause, MEPC, Even(epc), MTVAL, tval, MTrapStatus(h.Status(), h.priv), M, b);
  }

  lemma TrapKeepsPmp(h: Hart, cause: bv32, epc: bv32, tval: bv32)
    ensures Trap(h, cause, epc, tval).pmp == h.pmp
  {
    hide TrapToS, STrapStatus, MTrapStatus, Even;
  }

  lemma FrameTrap(h: Hart, cause: bv32, epc: bv32, tval: bv32)
    ensures Framed(h, Trap(h, cause, epc, tval))
  {
    hide OutsideMask, Trap;
    TrapKeepsPmp(h, cause, epc, tval);
    forall b: CsrAddr | MachineOwned(b) ensures h.Get(b) == Trap(h, cause, epc, tval).Get(b) {
      TrapTouchesOnly(h, cause, epc, tval, b);
    }
    TrapTouchesOnly(h, cause, epc, tval, MIE);
  }

  lemma FrameReturn(h: Hart, mret: bool)
    ensures Framed(h, Return(h, mret))
  {
    hide OutsideMask, MretStatus, SretStatus, Mpp, SppBit;
  }

  lemma FrameCsr(h: Hart, a: CsrAddr, op: Op, cur: bv32, val: bv32)
    requires (h.priv == U || h.priv == S) && Reaches(h.priv, a)
    ensures Framed(h, CsrUpdate(h, a, op, cur, val))
  {
    hide OutsideMask, Merge, CsrUpdate;
    var g := CsrUpdate(h, a, op, cur, val);
    forall b: CsrAddr | MachineOwned(b) ensures h.Get(b) == g.Get(b) {
      CsrTouchesOnly(h, a, op, cur, val, b);
    }
    CsrTouchesOnly(h, a, op, cur, val, MIE);
    if a == SIE {
      CsrNewMie(h, op, cur, val);
      MergeOutsideMask(op, h.Get(MIDELEG), h.Get(MIE), val);
    }
  }

  lemma FrameStep(h: Hart, e: Event)
    requires (h.priv == U || h.priv == S) && Able(h, e)
    ensures Framed(h, Step(h, e.eff))
  {
    hide OutsideMask, Trap, Return, CsrUpdate, CsrRead, CheckInterrupt, TsrBit, IsInterrupt, Reaches;
    match e.eff
    case NoEffect =>
    case TakeTrap(cause, epc, tval) => FrameTrap(h, cause, epc, tval);
    case TakeReturn(mret) => FrameReturn(h, mret);
    case UpdateCsr(a, op, cur, val) => FrameCsr(h, a, op, cur, val);
  }

  predicate BelowM(h: Hart, es: seq<Event>)
    decreases es
  {
    es == [] || ((h.priv == U || h.priv == S) && BelowM(Step(h, es[0].eff), es[1..]))
  }

  /** Over any stretch of U and S mode, up to and including the trap that ends
      it, the machine-owned registers, every PMP register and each mie bit
      outside mideleg stay as they were. */
  lemma {:induction false} MachineFrame(h: Hart, es: seq<Event>)
    requires Run(h, es) && BelowM(h, es)
    ensures Framed(h, After(h, es))
    decreases es
  {
    hide OutsideMask, Able, Step;
    if es != [] {
      FrameStep(h, es[0]);
      MachineFrame(Step(h, es[0].eff), es[1..]);
      assert MachineOwned(MIDELEG);
    }
  }
}
