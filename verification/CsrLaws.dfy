/** CSR instructions bit by bit: what they read, what they write, and when they are
    legal (src/exec.hpp:786-915, 977-1113, src/csr_cfg.hpp). */
module CsrLaws {
  import opened Isa
  import opened Exec
  import opened Sequential
  import opened AluLaws
  import AccessLaws
  import Bits
  import Pmp
  import H = Hart

  // -------------------------------------------------------------------- one word

  lemma ReplacedForm(mask: bv32, cur: bv32, val: bv32)
    ensures H.Replaced(mask, cur, val) == Bits.Either(Bits.Both(cur, Bits.Complement(mask)), Bits.Both(val, mask))
  {
  }

  lemma SetRaw(mask: bv32, cur: bv32, val: bv32)
    ensures H.WithSet(mask, cur, val) == Bits.Either(cur, val & mask)
  {
  }

  lemma ClearRaw(mask: bv32, cur: bv32, val: bv32)
    ensures H.WithClear(mask, cur, val) == Bits.Both(cur, !(val & mask))
  {
  }

  /** Digit `k` of the new value of a register whose bit is writable or not. */
  predicate NewDigit(op: H.Op, writable: bool, was: bool, val: bool) {
    if !writable then was
    else
      match op
      case Write => val
      case SetBits => was || val
      case ClearBits => was && !val
  }

  lemma ReplacedDigit(mask: bv32, cur: bv32, val: bv32, k: nat)
    requires k < 32
    ensures Bits.Digit(Bits.Num(H.Replaced(mask, cur, val)), k)
            == if Bits.Digit(Bits.Num(mask), k) then Bits.Digit(Bits.Num(val), k) else Bits.Digit(Bits.Num(cur), k)
  {
    hide Bits.Num, Bits.Digit, Bits.Both, Bits.Either, Bits.Complement, H.Replaced, Bits.Differ;
    ReplacedForm(mask, cur, val);
    Bits.ComplementDigit(mask, k);
    Bits.LogicDigits(val, mask, k);
    Bits.LogicDigits(cur, Bits.Complement(mask), k);
    Bits.LogicDigits(Bits.Both(cur, Bits.Complement(mask)), Bits.Both(val, mask), k);
  }

  lemma SetDigit(mask: bv32, cur: bv32, val: bv32, k: nat)
    ensures Bits.Digit(Bits.Num(H.WithSet(mask, cur, val)), k)
            == (Bits.Digit(Bits.Num(cur), k) || (Bits.Digit(Bits.Num(val), k) && Bits.Digit(Bits.Num(mask), k)))
  {
    hide Bits.Num, Bits.Digit, Bits.Both, Bits.Either, H.WithSet, Bits.Differ;
    assert H.WithSet(mask, cur, val) == Bits.Either(cur, Bits.Both(val, mask)) by {
      SetRaw(mask, cur, val);
      Bits.BothRaw(val, mask);
    }
    Bits.LogicDigits(val, mask, k);
    Bits.LogicDigits(cur, Bits.Both(val, mask), k);
  }

  lemma ClearDigit(mask: bv32, cur: bv32, val: bv32, k: nat)
    requires k < 32
    ensures Bits.Digit(Bits.Num(H.WithClear(mask, cur, val)), k)
            == (Bits.Digit(Bits.Num(cur), k) && !(Bits.Digit(Bits.Num(val), k) && Bits.Digit(Bits.Num(mask), k)))
  {
    hide Bits.Num, Bits.Digit, Bits.Both, Bits.Complement, H.WithClear, Bits.Either, Bits.Differ;
    assert H.WithClear(mask, cur, val) == Bits.Both(cur, Bits.Complement(Bits.Both(val, mask))) by {
      ClearRaw(mask, cur, val);
      Bits.BothRaw(val, mask);
      Bits.ComplementRaw(val & mask);
    }
    Bits.LogicDigits(val, mask, k);
    Bits.ComplementDigit(Bits.Both(val, mask), k);
    Bits.LogicDigits(cur, Bits.Complement(Bits.Both(val, mask)), k);
  }

  lemma MergeDigit(op: H.Op, mask: bv32, cur: bv32, val: bv32, k: nat)
    requires k < 32
    ensures Bits.Digit(Bits.Num(H.Merge(op, mask, cur, val)), k)
            == NewDigit(op, Bits.Digit(Bits.Num(mask), k), Bits.Digit(Bits.Num(cur), k), Bits.Digit(Bits.Num(val), k))
  {
    hide Bits.Num, Bits.Digit, H.Replaced, H.WithSet, H.WithClear;
    match op
    case Write => ReplacedDigit(mask, cur, val, k);
    case SetBits => SetDigit(mask, cur, val, k);
    case ClearBits => ClearDigit(mask, cur, val, k);
  }

  /** Every digit of a word made from `cur` and `val` under the mask number `mask`. */
  ghost predicate Merged(op: H.Op, mask: nat, cur: bv32, val: bv32, r: bv32) {
    forall k: nat :: k < 32 ==>
      Bits.Digit(Bits.Num(r), k)
      == NewDigit(op, Bits.Digit(mask, k), Bits.Digit(Bits.Num(cur), k), Bits.Digit(Bits.Num(val), k))
  }

  lemma MergeIs(op: H.Op, mask: bv32, cur: bv32, val: bv32)
    ensures Merged(op, Bits.Num(mask), cur, val, H.Merge(op, mask, cur, val))
  {
    hide Bits.Num, Bits.Digit, H.Merge, NewDigit;
    forall k: nat | k < 32
      ensures Bits.Digit(Bits.Num(H.Merge(op, mask, cur, val)), k)
              == NewDigit(op, Bits.Digit(Bits.Num(mask), k), Bits.Digit(Bits.Num(cur), k), Bits.Digit(Bits.Num(val), k))
    {
      MergeDigit(op, mask, cur, val, k);
    }
  }

  // ---------------------------------------------------------------- the registers

  /** Which bits of the register named by `a` an instruction can change. */
  function WriteMask(h: H.Hart, a: H.CsrAddr): (m: nat) {
    if a == H.MSTATUS then 0x7FFE_19FF
    else if a == H.SSTATUS then 0xC_0122
    else if a == H.MIP then 0x202
    else if a == H.SIP then 0x2
    else if a == H.SIE then Bits.Num(h.Get(H.MIDELEG))
    else 0xFFFF_FFFF
  }

  /** sstatus, sie and sip show other registers. */
  function Behind(a: H.CsrAddr): (b: H.CsrAddr) {
    if a == H.SSTATUS then H.MSTATUS else if a == H.SIE then H.MIE else if a == H.SIP then H.MIP else a
  }

  /** Registers that are views or pending bits change what is stored; the others
      change the value just read. */
  function Base(h: H.Hart, a: H.CsrAddr, cur: bv32): (w: bv32) {
    if a == H.SSTATUS || a == H.SIE || a == H.SIP || a == H.MIP then h.Get(Behind(a)) else cur
  }

  /** Registers kept in the register file and writable. */
  predicate Plain(a: H.CsrAddr) {
    !H.IsCounter(a) && !H.IsFixed(a) && !H.IsPmpConfig(a) && !H.IsPmpAddr(a) && !H.IsHardwiredZero(a)
  }

  lemma MaskNum(h: H.Hart, a: H.CsrAddr)
    requires !H.IsFixed(a)
    ensures Bits.Num(H.CsrMask(h, a)) == WriteMask(h, a)
  {
    hide Bits.Num, H.IsFixed;
    Bits.NumIsInt(0x7FFE_19FF);
    Bits.NumIsInt(0xC_0122);
    Bits.NumIsInt(0x202);
    Bits.NumIsInt(0x2);
    Bits.NumIsInt(0xFFFF_FFFF);
  }

  /** The update of a register, digit by digit, and that nothing else changes. */
  lemma UpdateLaw(h: H.Hart, a: H.CsrAddr, op: H.Op, cur: bv32, val: bv32)
    requires Plain(a)
    ensures var r := H.CsrUpdate(h, a, op, cur, val);
            && Merged(op, WriteMask(h, a), Base(h, a, cur), val, r.Get(Behind(a)))
            && (forall b: H.CsrAddr :: b != Behind(a) ==> r.Get(b) == h.Get(b)) && r.priv == h.priv && r.pmp == h.pmp
  {
    hide Bits.Num, H.Merge, H.CsrMask, Merged, WriteMask, H.IsCounter, H.IsFixed, H.IsPmpConfig, H.IsPmpAddr, H.IsHardwiredZero;
    MaskNum(h, a);
    MergeIs(op, H.CsrMask(h, a), Base(h, a, cur), val);
  }

  /** Fixed registers, counters and hardwired zeros keep the state as it is. */
  lemma FixedLaw(h: H.Hart, a: H.CsrAddr, op: H.Op, cur: bv32, val: bv32)
    requires H.IsCounter(a) || H.IsFixed(a) || H.IsHardwiredZero(a)
    ensures H.CsrUpdate(h, a, op, cur, val) == h
  {
    hide H.Merge, H.CsrMask;
  }

  /** In M mode a PMP register takes such a word too, through its guards. */
  lemma PmpUpdateLaw(h: H.Hart, a: H.CsrAddr, op: H.Op, cur: bv32, val: bv32) returns (w: bv32)
    requires h.priv == 3 && (H.IsPmpConfig(a) || H.IsPmpAddr(a))
    ensures Merged(op, 0xFFFF_FFFF, cur, val, w)
    ensures H.CsrUpdate(h, a, op, cur, val)
            == h.(pmp := if H.IsPmpConfig(a) then Pmp.UpdateConfig(h.pmp, a - 0x3A0, w)
                         else Pmp.UpdateAddr(h.pmp, a - 0x3B0, Bits.W(w)))
  {
    hide Bits.Num, H.Merge, Merged, H.NatOf, Pmp.UpdateConfig, Pmp.UpdateAddr;
    MaskNum(h, a);
    w := H.Merge(op, H.CsrMask(h, a), cur, val);
    MergeIs(op, H.CsrMask(h, a), cur, val);
    AccessLaws.NatRaw(w);
    Bits.NumIsInt(w);
  }

  // ---------------------------------------------------------------------- reading

  /** Digit `k` of what an instruction reads from the registers that are views. */
  ghost predicate ReadDigit(h: H.Hart, wires: bv32, a: H.CsrAddr, k: nat) {
    var status, mip, mie, deleg := Bits.Num(h.Get(H.MSTATUS)), Bits.Num(h.Get(H.MIP)), Bits.Num(h.Get(H.MIE)), Bits.Num(h.Get(H.MIDELEG));
    if a == H.MSTATUS then Bits.Digit(status, k) && Bits.Digit(0x7FFE_19FF, k)
    else if a == H.SSTATUS then Bits.Digit(status, k) && Bits.Digit(0xC_0122, k)
    else if a == H.MIP then
      (Bits.Digit(mip, k) || (Bits.Digit(Bits.Num(wires), k) && Bits.Digit(0xAA0, k))) && Bits.Digit(0xAAA, k)
    else if a == H.SIP then
      (Bits.Digit(mip, k) || (Bits.Digit(Bits.Num(wires), k) && Bits.Digit(0x220, k))) && Bits.Digit(deleg, k)
    else Bits.Digit(mie, k) && Bits.Digit(deleg, k)
  }

  predicate IsView(a: H.CsrAddr) { a == H.MSTATUS || a == H.SSTATUS || a == H.MIP || a == H.SIP || a == H.SIE }

  lemma MaskNumbers()
    ensures Bits.Num(0x7FFE_19FF) == 0x7FFE_19FF && Bits.Num(0xC_0122) == 0xC_0122
    ensures Bits.Num(0xAA0) == 0xAA0 && Bits.Num(0xAAA) == 0xAAA && Bits.Num(0x220) == 0x220
  {
    hide Bits.Num;
    Bits.NumIsInt(0x7FFE_19FF);
    Bits.NumIsInt(0xC_0122);
    Bits.NumIsInt(0xAA0);
    Bits.NumIsInt(0xAAA);
    Bits.NumIsInt(0x220);
  }

  function Pend(mip: bv32, wires: bv32, mask: bv32): (w: bv32) { Bits.Either(mip, Bits.Both(wires, mask)) }

  function MaskedBy(mip: bv32, wires: bv32, mask: bv32, v: bv32): (r: bv32) { (mip | (wires & mask)) & v }

  lemma MipRaw(h: H.Hart, wires: bv32, counters: map<H.CsrAddr, bv32>)
    ensures H.CsrRead(h, wires, counters, H.MIP) == MaskedBy(h.Get(H.MIP), wires, 0xAA0, 0xAAA)
  {
  }

  lemma SipRaw(h: H.Hart, wires: bv32, counters: map<H.CsrAddr, bv32>)
    ensures H.CsrRead(h, wires, counters, H.SIP) == MaskedBy(h.Get(H.MIP), wires, 0x220, h.Get(H.MIDELEG))
  {
  }

  lemma ReadMstatus(h: H.Hart, wires: bv32, counters: map<H.CsrAddr, bv32>)
    ensures H.CsrRead(h, wires, counters, H.MSTATUS) == Bits.Both(h.Status(), 0x7FFE_19FF)
  {
    hide Bits.Both, Pend;
    Bits.BothRaw(h.Status(), 0x7FFE_19FF);
  }

  lemma ReadSstatus(h: H.Hart, wires: bv32, counters: map<H.CsrAddr, bv32>)
    ensures H.CsrRead(h, wires, counters, H.SSTATUS) == Bits.Both(h.Status(), 0xC_0122)
  {
    hide Bits.Both, Pend;
    Bits.BothRaw(h.Status(), 0xC_0122);
  }

  lemma ReadMip(h: H.Hart, wires: bv32, counters: map<H.CsrAddr, bv32>)
    ensures H.CsrRead(h, wires, counters, H.MIP) == Bits.Both(Pend(h.Get(H.MIP), wires, 0xAA0), 0xAAA)
  {
    hide Bits.Both, Bits.Either, H.CsrRead;
    MipRaw(h, wires, counters);
    Bits.BothRaw(wires, 0xAA0);
    Bits.EitherRaw(h.Get(H.MIP), wires & 0xAA0);
    Bits.BothRaw(h.Get(H.MIP) | (wires & 0xAA0), 0xAAA);
  }

  lemma ReadSip(h: H.Hart, wires: bv32, counters: map<H.CsrAddr, bv32>)
    ensures H.CsrRead(h, wires, counters, H.SIP) == Bits.Both(Pend(h.Get(H.MIP), wires, 0x220), h.Get(H.MIDELEG))
  {
    hide Bits.Both, Bits.Either, H.CsrRead;
    SipRaw(h, wires, counters);
    Bits.BothRaw(wires, 0x220);
    Bits.EitherRaw(h.Get(H.MIP), wires & 0x220);
    Bits.BothRaw(h.Get(H.MIP) | (wires & 0x220), h.Get(H.MIDELEG));
  }

  lemma ReadSie(h: H.Hart, wires: bv32, counters: map<H.CsrAddr, bv32>)
    ensures H.CsrRead(h, wires, counters, H.SIE) == Bits.Both(h.Get(H.MIE), h.Get(H.MIDELEG))
  {
    hide Bits.Both, Pend;
    Bits.BothRaw(h.Get(H.MIE), h.Get(H.MIDELEG));
  }

  lemma PendDigit(mip: bv32, wires: bv32, mask: bv32, k: nat)
    ensures Bits.Digit(Bits.Num(Pend(mip, wires, mask)), k)
            == (Bits.Digit(Bits.Num(mip), k) || (Bits.Digit(Bits.Num(wires), k) && Bits.Digit(Bits.Num(mask), k)))
  {
    hide Bits.Num, Bits.Digit, Bits.Both, Bits.Either, Bits.Differ;
    Bits.LogicDigits(wires, mask, k);
    Bits.LogicDigits(mip, Bits.Both(wires, mask), k);
  }

  /** What is read from mstatus, sstatus, mip, sip and sie. */
  lemma ViewLaw(h: H.Hart, wires: bv32, counters: map<H.CsrAddr, bv32>, a: H.CsrAddr, k: nat)
    requires IsView(a)
    ensures Bits.Digit(Bits.Num(H.CsrRead(h, wires, counters, a)), k) == ReadDigit(h, wires, a, k)
  {
    hide Bits.Num, Bits.Digit, Bits.Both, Bits.Either, Pend, H.CsrRead, Bits.Differ;
    MaskNumbers();
    var mip, mie, deleg := h.Get(H.MIP), h.Get(H.MIE), h.Get(H.MIDELEG);
    if a == H.MSTATUS {
      ReadMstatus(h, wires, counters);
      Bits.LogicDigits(h.Status(), 0x7FFE_19FF, k);
    } else if a == H.SSTATUS {
      ReadSstatus(h, wires, counters);
      Bits.LogicDigits(h.Status(), 0xC_0122, k);
    } else if a == H.MIP {
      ReadMip(h, wires, counters);
      PendDigit(mip, wires, 0xAA0, k);
      Bits.LogicDigits(Pend(mip, wires, 0xAA0), 0xAAA, k);
    } else if a == H.SIP {
      ReadSip(h, wires, counters);
      PendDigit(mip, wires, 0x220, k);
      Bits.LogicDigits(Pend(mip, wires, 0x220), deleg, k);
    } else {
      ReadSie(h, wires, counters);
      Bits.LogicDigits(mie, deleg, k);
    }
  }

  lemma ConfigForm(p: Pmp.Regs, g: int)
    requires 0 <= g < 16
    ensures H.ConfigWord(p, g) == PushByte(PushByte(PushByte(Bits.Wide(p.cfg[4 * g + 3]), p.cfg[4 * g + 2]), p.cfg[4 * g + 1]), p.cfg[4 * g])
  {
    FourBytes(p.cfg[4 * g + 3], p.cfg[4 * g + 2], p.cfg[4 * g + 1], p.cfg[4 * g]);
  }

  function PushByte(a: bv32, b: bv8): (r: bv32) { (a << 8) | (b as bv32) }

  lemma FourBytes(a: bv8, b: bv8, c: bv8, d: bv8)
    ensures ((a as bv32) << 24) | ((b as bv32) << 16) | ((c as bv32) << 8) | (d as bv32)
            == PushByte(PushByte(PushByte(Bits.Wide(a), b), c), d)
  {
  }

  lemma PushByteNum(a: bv32, b: bv8)
    ensures Bits.Num(PushByte(a, b)) == (Bits.Num(a) * 256 + Bits.Value(b)) % Bits.B
  {
    hide Bits.Num, Bits.Value;
    Bits.PushNum(a, b);
  }

  lemma BytesFit(a: nat, b: nat, c: nat, d: nat)
    requires a < 256 && b < 256 && c < 256 && d < 256
    ensures ((((a * 256 + b) % Bits.B * 256 + c) % Bits.B) * 256 + d) % Bits.B == d + 0x100 * c + 0x1_0000 * b + 0x100_0000 * a
  {
  }

  function Four(p: Pmp.Regs, g: int): (n: nat)
    requires 0 <= g < 16
  {
    Bits.Value(p.cfg[4 * g]) + 0x100 * Bits.Value(p.cfg[4 * g + 1]) + 0x1_0000 * Bits.Value(p.cfg[4 * g + 2])
    + 0x100_0000 * Bits.Value(p.cfg[4 * g + 3])
  }

  lemma ConfigWordNum(r: Pmp.Regs, g: int)
    requires 0 <= g < 16
    ensures Bits.Num(H.ConfigWord(r, g)) == Four(r, g)
  {
    hide Bits.Num, Bits.Value, H.ConfigWord, PushByte, Bits.Wide;
    var p, q, u, v := r.cfg[4 * g + 3], r.cfg[4 * g + 2], r.cfg[4 * g + 1], r.cfg[4 * g];
    ConfigForm(r, g);
    Bits.WideNum(p);
    PushByteNum(Bits.Wide(p), q);
    PushByteNum(PushByte(Bits.Wide(p), q), u);
    PushByteNum(PushByte(PushByte(Bits.Wide(p), q), u), v);
    BytesFit(Bits.Value(p), Bits.Value(q), Bits.Value(u), Bits.Value(v));
  }

  /** A PMP configuration register reads as four bytes, lowest entry lowest; an address
      register as it stands; every other register as stored. */
  lemma PlainReadLaw(h: H.Hart, wires: bv32, counters: map<H.CsrAddr, bv32>, a: H.CsrAddr)
    ensures var r := H.CsrRead(h, wires, counters, a);
            && (H.IsPmpConfig(a) ==> Bits.Num(r) == Four(h.pmp, a - 0x3A0))
            && (H.IsPmpAddr(a) ==> Bits.Num(r) == h.pmp.addr[a - 0x3B0])
            && (H.IsCounter(a) ==> r == if a in counters then counters[a] else 0)
            && (!IsView(a) && !H.IsPmpConfig(a) && !H.IsPmpAddr(a) && !H.IsCounter(a) ==> r == h.Get(a))
  {
    hide Bits.Num, H.ConfigWord, H.WordOf, H.GetMip, Four;
    if H.IsPmpConfig(a) { ConfigWordNum(h.pmp, a - 0x3A0); }
    if H.IsPmpAddr(a) { AccessLaws.WordIsNum(h.pmp.addr[a - 0x3B0]); }
  }

  // ------------------------------------------------------------------ instructions

  predicate IsCsrType(ty: InstrType) { ty.CSRRW? || ty.CSRRS? || ty.CSRRC? || ty.CSRRWI? || ty.CSRRSI? || ty.CSRRCI? }

  predicate Writing(ty: InstrType) { ty.CSRRW? || ty.CSRRWI? }

  predicate Immediate(ty: InstrType) { ty.CSRRWI? || ty.CSRRSI? || ty.CSRRCI? }

  /** What the instruction does with the register. */
  function OpOf(ty: InstrType): (op: H.Op) { if Writing(ty) then H.Write else if ty.CSRRS? || ty.CSRRSI? then H.SetBits else H.ClearBits }

  lemma CsrKind(ty: InstrType)
    requires IsCsrType(ty)
    ensures KindOf(ty) == CsrOp && OpKind(ty) == OpOf(ty)
  {
  }

  lemma OperandRaw(i: Instr, x: bv32)
    requires IsCsrType(i.ty)
    ensures CsrVal(i, x) == if Immediate(i.ty) then Bits.OfNat(i.rs1) else x
  {
  }

  /** The operand: a register, or the number in the register field. */
  lemma OperandNum(i: Instr, x: bv32)
    requires IsCsrType(i.ty)
    ensures Bits.Num(CsrVal(i, x)) == if Immediate(i.ty) then i.rs1 else Bits.Num(x)
  {
    OperandRaw(i, x);
    hide Bits.Num, Bits.OfNat, CsrVal;
    Bits.OfNatNum(i.rs1);
  }

  /** Mode numbers: user 0, supervisor 1, machine 3. */
  function Level(n: nat): (l: nat) { if n == 0 then 0 else if n == 1 then 1 else if n == 3 then 3 else 2 }

  /** Who may do what: address bits 9..8 name the lowest mode, bits 11..10 set make the
      register read-only, and satp is closed to S mode under TVM. */
  predicate LegalLaw(h: H.Hart, ty: InstrType, a: H.CsrAddr, x: nat) {
    && a / 0x100 % 4 <= Level(Bits.Num(h.priv))
    && (a / 0x400 == 3 ==> !Writing(ty) && x == 0)
    && (a == 0x180 ==> Bits.Num(h.priv) > 1 || (Bits.Num(h.priv) == 1 && !Bits.Digit(Bits.Num(h.Get(0x300)), 20)))
  }

  lemma LevelIs(p: bv32)
    ensures H.PrivLevel(p) == Level(Bits.Num(p))
  {
    hide Bits.Num;
    AccessLaws.PrivNumbers();
    AccessLaws.PrivIs(p, 0);
    AccessLaws.PrivIs(p, 1);
    AccessLaws.PrivIs(p, 3);
  }

  lemma AboveOne(p: bv32)
    ensures p > 1 <==> Bits.Num(p) > 1
  {
    AboveRaw(p);
    hide Bits.Num, Bits.Less;
    Bits.OneNum();
    Bits.LessNum(1, p);
  }

  lemma AboveRaw(p: bv32)
    ensures (p > 1) == Bits.Less(1, p)
  {
  }

  lemma ZeroWord(v: bv32)
    ensures v == 0 <==> Bits.Num(v) == 0
  {
    Bits.ZeroNum();
    if Bits.Num(v) == 0 { Bits.NumZero(v); }
  }

  lemma LegalIs(h: H.Hart, i: Instr, v: bv32)
    requires IsCsrType(i.ty)
    ensures CsrLegal(h, i, v) <==> LegalLaw(h, i.ty, i.csrAddr, Bits.Num(v))
  {
    hide Bits.Num, Bits.Digit, H.TvmBit, KindOf, OpKind, H.PrivLevel, Level, OpOf;
    CsrKind(i.ty);
    WritingOp(i.ty);
    LevelIs(h.priv);
    AboveOne(h.priv);
    ZeroWord(v);
    AccessLaws.PrivNumbers();
    AccessLaws.PrivIs(h.priv, 1);
    AccessLaws.StatusFields(h.Status());
  }

  lemma WritingOp(ty: InstrType)
    ensures OpOf(ty) == H.Write <==> Writing(ty)
  {
  }

  lemma CsrSemStep(a: Arch, i: Instr, e: Env)
    requires !i.onTrap && KindOf(i.ty) == CsrOp
    ensures Sem(a, i, e) == CsrStep(a, i, e, CsrVal(i, a.regs[i.rs1]))
  {
    hide KindOf, Retire, Transfer, NextPc, AluResult, MulDivResult, JumpTarget, BranchTaken, BranchTarget, Load, CsrStep, Trapped, CsrVal,
      DataReq, EcallCause, SfenceIllegal, WfiIllegal, SretIllegal, H.Return, H.ReturnPc;
  }

  /** A CSR instruction: illegal ones trap with cause 2 and the instruction word; legal
      ones put the value read into `rd` and update the register with their operand. */
  lemma CsrSem(a: Arch, i: Instr, e: Env)
    requires !i.onTrap && IsCsrType(i.ty)
    ensures var b, x := Sem(a, i, e), if Immediate(i.ty) then i.rs1 else Bits.Num(a.regs[i.rs1]);
            if !LegalLaw(a.hart, i.ty, i.csrAddr, x) then b == Trapped(a, 2, i.inst)
            else
              var was := H.CsrRead(a.hart, e.wires, e.counters, i.csrAddr);
              && MovesOn(a.(hart := b.hart), i, b) && (WritesRd(i) ==> b.regs[i.rd] == was)
              && exists v :: && Bits.Num(v) == x && b.hart == H.CsrUpdate(a.hart, i.csrAddr, OpOf(i.ty), was, v)
                             && (Plain(i.csrAddr) ==>
                                   Merged(OpOf(i.ty), WriteMask(a.hart, i.csrAddr), Base(a.hart, i.csrAddr, was), v,
                                          b.hart.Get(Behind(i.csrAddr))))
  {
    hide Bits.Num, KindOf, OpKind, OpOf, CsrVal, CsrLegal, LegalLaw, H.CsrRead, H.CsrUpdate, Trapped, Sem, Retire, NextPc, MovesOn, Merged, Plain,
      WriteMask, Base, Behind;
    CsrKind(i.ty);
    CsrSemStep(a, i, e);
    var v := CsrVal(i, a.regs[i.rs1]);
    OperandNum(i, a.regs[i.rs1]);
    LegalIs(a.hart, i, v);
    if CsrLegal(a.hart, i, v) {
      var was := H.CsrRead(a.hart, e.wires, e.counters, i.csrAddr);
      var h := H.CsrUpdate(a.hart, i.csrAddr, OpOf(i.ty), was, v);
      RetireMoves(a.(hart := h), i, was);
      RetireHart(a.(hart := h), i, was);
      if Plain(i.csrAddr) { UpdateLaw(a.hart, i.csrAddr, OpOf(i.ty), was, v); }
    }
  }

  lemma RetireHart(a: Arch, i: Instr, v: bv32)
    ensures Retire(a, i, NextPc(a.pc, i.compressed), v).hart == a.hart
  {
  }
}
