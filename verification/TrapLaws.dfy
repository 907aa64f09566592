/** Traps, returns and the privileged instructions bit by bit (src/exec.hpp:97-109,
    359-408, 715-782, 1157-1264). */
module TrapLaws {
  import opened Isa
  import opened Exec
  import opened Sequential
  import opened AluLaws
  import AccessLaws
  import Bits
  import H = Hart

  // ------------------------------------------------------------------- the cause

  lemma CauseRaw(cause: bv32)
    ensures H.CauseId(cause) == Bits.Keep(cause, 10)
  {
  }

  /** The number of a cause is its low ten bits; bit 31 marks interrupts. */
  lemma CauseLaw(cause: bv32)
    ensures Bits.Num(H.CauseId(cause)) == Bits.Num(cause) % 0x400
    ensures H.IsInterrupt(cause) == Bits.Digit(Bits.Num(cause), 31)
  {
    CauseRaw(cause);
    hide Bits.Num, Bits.Keep, Bits.Digit, H.CauseId;
    Bits.NumIsInt(10);
    Bits.KeepNum(cause, 10);
    TenPower();
    Bits.HighDigits(cause);
  }

  lemma TenPower()
    ensures Bits.Pow2(10) == 0x400
  {
    assert Bits.Pow2(4) == 16;
    assert Bits.Pow2(7) == 128;
  }

  lemma DelegatedRaw(deleg: bv32, id: bv32)
    requires id < 32
    ensures H.Delegated(deleg, id) == Bits.Odd(Bits.Right(deleg, id))
  {
  }

  lemma IdBelow(id: bv32)
    ensures id < 32 <==> Bits.Num(id) < 32
  {
    BelowRaw(id);
    hide Bits.Num, Bits.Less;
    Bits.NumIsInt(32);
    Bits.LessNum(id, 32);
  }

  lemma BelowRaw(id: bv32)
    ensures (id < 32) == Bits.Less(id, 32)
  {
  }

  /** Whether a delegation register hands cause `id` on. */
  lemma DelegatedLaw(deleg: bv32, id: bv32)
    ensures H.Delegated(deleg, id) <==> Bits.Num(id) < 32 && Bits.Digit(Bits.Num(deleg), Bits.Num(id))
  {
    hide Bits.Num, Bits.Odd, Bits.Right, Bits.Digit, H.Delegated;
    IdBelow(id);
    if id < 32 {
      DelegatedRaw(deleg, id);
      Bits.OddDigit(Bits.Right(deleg, id));
      Bits.RightNum(deleg, id);
      Bits.DigitIs(Bits.Num(deleg), Bits.Num(id));
    } else {
      NotDelegated(deleg, id);
    }
  }

  lemma NotDelegated(deleg: bv32, id: bv32)
    ensures id >= 32 ==> !H.Delegated(deleg, id)
  {
  }

  /** A trap goes to S mode if it comes from below M mode and its cause is delegated;
      an interrupt needs SIE besides. */
  lemma ModeLaw(h: H.Hart, cause: bv32)
    ensures H.TrapToS(h, cause)
            <==> && Bits.Num(h.priv) < 3 && Bits.Num(cause) % 0x400 < 32
                 && (if Bits.Digit(Bits.Num(cause), 31)
                     then Bits.Digit(Bits.Num(h.Get(0x300)), 1) && Bits.Digit(Bits.Num(h.Get(0x303)), Bits.Num(cause) % 0x400)
                     else Bits.Digit(Bits.Num(h.Get(0x302)), Bits.Num(cause) % 0x400))
  {
    hide Bits.Num, Bits.Digit, H.Delegated, H.CauseId, H.IsInterrupt, H.SieBit;
    CauseLaw(cause);
    DelegatedLaw(h.Get(H.MIDELEG), H.CauseId(cause));
    DelegatedLaw(h.Get(H.MEDELEG), H.CauseId(cause));
    AccessLaws.StatusFields(h.Status());
    BelowM(h.priv);
  }

  lemma BelowM(p: bv32)
    ensures p < 3 <==> Bits.Num(p) < 3
  {
    BelowThree(p);
    hide Bits.Num, Bits.Less;
    Bits.NumIsInt(3);
    Bits.LessNum(p, 3);
  }

  lemma BelowThree(p: bv32)
    ensures (p < 3) == Bits.Less(p, 3)
  {
  }

  // ------------------------------------------------------------------ the handler

  function Base(tvec: bv32): (r: bv32) { tvec & 0xFFFF_FFFC }

  lemma BaseRaw(w: bv32)
    ensures Bits.Down(w & 0xFFFF_FFFC) == Bits.Down(w) & 0xFFFF_FFFE && !Bits.Odd(w & 0xFFFF_FFFC)
  {
  }

  lemma BaseNum(w: bv32)
    ensures Bits.Num(Base(w)) == Bits.Num(w) - Bits.Num(w) % 4
  {
    BaseRaw(w);
    hide Bits.Num, Bits.Down, Bits.Odd;
    Bits.OddDigit(w);
    Bits.OddDigit(Base(w));
    EvenNum(Bits.Down(w));
  }

  lemma VectoredRaw(base: bv32, c: bv32)
    ensures base + 4 * c == Bits.Plus(base, 4 * c)
  {
  }

  lemma FourIsLeft(c: bv32)
    ensures 4 * c == Bits.Left(c, 2)
  {
  }

  lemma FourTimes(c: bv32)
    requires Bits.Num(c) < 0x400
    ensures Bits.Num(Bits.Left(c, 2)) == 4 * Bits.Num(c)
  {
    hide Bits.Num, Bits.Left;
    Bits.NumIsInt(2);
    Bits.LeftNum(c, 2);
    assert Bits.Pow2(2) == 4;
  }

  lemma VectoredForm(tvec: bv32, cause: bv32)
    requires Bits.Odd(tvec)
    ensures H.Vector(tvec, cause) == Bits.Plus(Base(tvec), Bits.Left(H.CauseId(cause), 2))
  {
    hide H.CauseId, Bits.Plus, Bits.Left;
    VectoredRaw(tvec & 0xFFFF_FFFC, H.CauseId(cause));
    FourIsLeft(H.CauseId(cause));
  }

  lemma VectoredNum(tvec: bv32, cause: bv32)
    requires Bits.Odd(tvec)
    ensures var n := Bits.Num(tvec);
            Bits.Num(H.Vector(tvec, cause)) == (n - n % 4 + 4 * (Bits.Num(cause) % 0x400)) % 0x1_0000_0000
  {
    hide Bits.Num, Bits.Odd, H.Vector, H.CauseId, Bits.Plus, Bits.Left, Base;
    VectoredForm(tvec, cause);
    BaseNum(tvec);
    CauseLaw(cause);
    FourTimes(H.CauseId(cause));
    Bits.PlusNum(Base(tvec), Bits.Left(H.CauseId(cause), 2));
  }

  lemma DirectForm(tvec: bv32, cause: bv32)
    requires !Bits.Odd(tvec)
    ensures H.Vector(tvec, cause) == tvec
  {
    hide H.CauseId;
  }

  /** The handler: the base itself, or with the lowest bit of the vector set, four
      bytes per cause above the base with its two low bits dropped. */
  lemma VectorLaw(tvec: bv32, cause: bv32)
    ensures var n := Bits.Num(tvec);
            Bits.Num(H.Vector(tvec, cause))
            == if n % 2 == 1 then (n - n % 4 + 4 * (Bits.Num(cause) % 0x400)) % 0x1_0000_0000 else n
  {
    hide Bits.Num, Bits.Odd, H.Vector;
    Bits.OddDigit(tvec);
    if Bits.Odd(tvec) {
      VectoredNum(tvec, cause);
    } else {
      DirectForm(tvec, cause);
    }
  }

  // ------------------------------------------------------------------- status words

  function Kept(m: bv32, cleared: bv32): (r: bv32) { m & !cleared }

  lemma KeptRaw(m: bv32, cleared: bv32)
    ensures Kept(m, cleared) == Bits.Both(m, !cleared)
  {
  }

  lemma KeptDigit(m: bv32, cleared: bv32, k: nat)
    requires k < 32
    ensures Bits.Digit(Bits.Num(Kept(m, cleared)), k) == (Bits.Digit(Bits.Num(m), k) && !Bits.Digit(Bits.Num(cleared), k))
  {
    hide Bits.Num, Bits.Digit, Bits.Both, Bits.Complement, Bits.Either, Bits.Differ, Kept;
    KeptRaw(m, cleared);
    Bits.ComplementRaw(cleared);
    Bits.ComplementDigit(cleared, k);
    Bits.LogicDigits(m, Bits.Complement(cleared), k);
  }

  lemma JoinedDigit(a: bv32, b: bv32, k: nat)
    ensures Bits.Digit(Bits.Num(Bits.Either(a, b)), k) == (Bits.Digit(Bits.Num(a), k) || Bits.Digit(Bits.Num(b), k))
  {
    hide Bits.Num, Bits.Digit, Bits.Both, Bits.Either, Bits.Differ;
    Bits.LogicDigits(a, b, k);
  }

  /** Some bits cleared, others set. */
  function Changed(m: bv32, cleared: bv32, added: bv32): (r: bv32) { (m & !cleared) | added }

  lemma ChangedRaw(m: bv32, cleared: bv32, added: bv32)
    ensures Changed(m, cleared, added) == Bits.Either(m & !cleared, added)
  {
  }

  lemma KeptIs(m: bv32, cleared: bv32)
    ensures Kept(m, cleared) == m & !cleared
  {
  }

  lemma ChangedDigit(m: bv32, cleared: bv32, added: bv32, k: nat)
    requires k < 32
    ensures Bits.Digit(Bits.Num(Changed(m, cleared, added)), k)
            == ((Bits.Digit(Bits.Num(m), k) && !Bits.Digit(Bits.Num(cleared), k)) || Bits.Digit(Bits.Num(added), k))
  {
    hide Bits.Num, Bits.Digit, Bits.Either, Kept, Changed;
    assert Changed(m, cleared, added) == Bits.Either(Kept(m, cleared), added) by {
      ChangedRaw(m, cleared, added);
      KeptIs(m, cleared);
    }
    KeptDigit(m, cleared, k);
    JoinedDigit(Kept(m, cleared), added, k);
  }

  function Three(i: nat, j: nat, l: nat): (r: bv32)
    requires i < 32 && j < 32 && l < 32
  {
    Bits.Either(Bits.Either(Bits.Mask(i), Bits.Mask(j)), Bits.Mask(l))
  }

  lemma ThreeDigit(i: nat, j: nat, l: nat, k: nat)
    requires i < 32 && j < 32 && l < 32
    ensures Bits.Digit(Bits.Num(Three(i, j, l)), k) == (k == i || k == j || k == l)
  {
    hide Bits.Num, Bits.Digit, Bits.Mask, Bits.Either, Bits.Both, Bits.Differ;
    Bits.LogicDigits(Bits.Mask(i), Bits.Mask(j), k);
    Bits.LogicDigits(Bits.Either(Bits.Mask(i), Bits.Mask(j)), Bits.Mask(l), k);
    Bits.MaskDigits(i, k);
    Bits.MaskDigits(j, k);
    Bits.MaskDigits(l, k);
  }

  lemma Threes()
    ensures Three(1, 5, 8) == 0x122 && Three(3, 3, 7) == 0x88 && Three(11, 11, 12) == 0x1800 && Three(8, 8, 17) == 0x2_0100
    ensures Three(17, 17, 17) == 0x2_0000 && Three(1, 1, 1) == 0x2 && Three(3, 3, 3) == 0x8
    ensures Three(1, 5, 5) == 0x22 && Three(5, 5, 5) == 0x20 && Three(7, 7, 7) == 0x80 && Three(8, 8, 8) == 0x100
  {
  }

  /** The digits of the fields the status words move. */
  lemma FieldDigits(k: nat)
    ensures Bits.Digit(Bits.Num(0x122), k) == (k == 1 || k == 5 || k == 8) && Bits.Digit(Bits.Num(0x88), k) == (k == 3 || k == 7)
    ensures Bits.Digit(Bits.Num(0x1800), k) == (k == 11 || k == 12) && Bits.Digit(Bits.Num(0x2_0100), k) == (k == 8 || k == 17)
    ensures Bits.Digit(Bits.Num(0x2_0000), k) == (k == 17) && Bits.Digit(Bits.Num(0x2), k) == (k == 1)
    ensures Bits.Digit(Bits.Num(0x8), k) == (k == 3) && Bits.Digit(Bits.Num(0x20), k) == (k == 5)
    ensures Bits.Digit(Bits.Num(0x22), k) == (k == 1 || k == 5)
    ensures Bits.Digit(Bits.Num(0x80), k) == (k == 7) && Bits.Digit(Bits.Num(0x100), k) == (k == 8)
  {
    hide Bits.Num, Bits.Digit, Three;
    Threes();
    ThreeDigit(1, 5, 8, k);
    ThreeDigit(3, 3, 7, k);
    ThreeDigit(11, 11, 12, k);
    ThreeDigit(8, 8, 17, k);
    ThreeDigit(17, 17, 17, k);
    ThreeDigit(1, 5, 5, k);
    ThreeDigit(1, 1, 1, k);
    ThreeDigit(3, 3, 3, k);
    ThreeDigit(5, 5, 5, k);
    ThreeDigit(7, 7, 7, k);
    ThreeDigit(8, 8, 8, k);
  }

  // Traps into S mode.

  /** SPIE takes SIE, SIE and SPP are cleared. */
  function SieStacked(m: bv32): (r: bv32) { (((m & 0xFFFF_FFDF) | (((m & 0x2) >> 1) << 5)) & 0xFFFF_FFFD) & 0xFFFF_FEFF }

  lemma STrapRaw(m: bv32, priv: bv32)
    ensures H.STrapStatus(m, priv) == SieStacked(m) | H.SppField(priv)
  {
    hide H.SppField;
  }

  lemma SieClear(m: bv32)
    requires !H.SieBit(m)
    ensures SieStacked(m) == Kept(m, 0x122)
  {
  }

  lemma SieSet(m: bv32)
    requires H.SieBit(m)
    ensures SieStacked(m) == Changed(m, 0x122, 0x20)
  {
  }

  lemma SppIs(priv: bv32)
    ensures H.SppField(priv) == if priv == 1 then 0x100 else 0
  {
  }

  /** mstatus after a trap into S mode: SPIE takes SIE, SIE is cleared, SPP says whether
      the trap came from S mode, and every other bit stays. */
  lemma STrapLaw(m: bv32, priv: bv32, k: nat)
    requires k < 32
    ensures Bits.Digit(Bits.Num(H.STrapStatus(m, priv)), k)
            == if k == 5 then Bits.Digit(Bits.Num(m), 1) else if k == 1 then false
               else if k == 8 then Bits.Num(priv) == 1 else Bits.Digit(Bits.Num(m), k)
  {
    hide Bits.Num, Bits.Digit, Bits.Either, Kept, Changed, SieStacked, H.STrapStatus, H.SieBit, H.SppField;
    FieldDigits(k);
    AccessLaws.StatusFields(m);
    assert H.STrapStatus(m, priv) == Bits.Either(SieStacked(m), H.SppField(priv)) by {
      STrapRaw(m, priv);
      Bits.EitherRaw(SieStacked(m), H.SppField(priv));
    }
    JoinedDigit(SieStacked(m), H.SppField(priv), k);
    SppIs(priv);
    AccessLaws.PrivNumbers();
    AccessLaws.PrivIs(priv, 1);
    Bits.ZeroDigit(k);
    if H.SieBit(m) {
      SieSet(m);
      ChangedDigit(m, 0x122, 0x20, k);
    } else {
      SieClear(m);
      KeptDigit(m, 0x122, k);
    }
  }

  // Traps into M mode.

  /** MPIE takes MIE, MIE is cleared. */
  function MieStacked(m: bv32): (r: bv32) { ((m & 0xFFFF_FF7F) | (((m & 0x8) >> 3) << 7)) & 0xFFFF_FFF7 }

  function MppField(priv: bv32): (r: bv32) { priv << 11 }

  lemma MTrapRaw(m: bv32, priv: bv32)
    ensures H.MTrapStatus(m, priv) == MieStacked(m) | MppField(priv)
  {
  }

  lemma FieldLeft(priv: bv32)
    ensures MppField(priv) == Bits.Left(priv, 11)
  {
  }

  lemma MieClear(m: bv32)
    requires !H.MieBit(m)
    ensures MieStacked(m) == Kept(m, 0x88)
  {
  }

  lemma MieSet(m: bv32)
    requires H.MieBit(m)
    ensures MieStacked(m) == Changed(m, 0x88, 0x80)
  {
  }

  lemma PrivDigit(priv: bv32, k: nat)
    requires Bits.Num(priv) < 4
    ensures Bits.Digit(Bits.Num(MppField(priv)), k) == (k >= 11 && Bits.Digit(Bits.Num(priv), k - 11))
  {
    FieldLeft(priv);
    hide Bits.Num, Bits.Digit, Bits.Left, Bits.Pow2, MppField;
    AccessLaws.MppConstants();
    Bits.LeftNum(priv, 11);
    Bits.MovedDigit(Bits.Num(priv), 11, k);
  }

  /** mstatus after a trap into M mode: MPIE takes MIE, MIE is cleared, the privilege is
      ORed into MPP (bits 12..11), and every other bit stays. */
  lemma MTrapLaw(m: bv32, priv: bv32, k: nat)
    requires k < 32 && Bits.Num(priv) < 4
    ensures Bits.Digit(Bits.Num(H.MTrapStatus(m, priv)), k)
            == if k == 7 then Bits.Digit(Bits.Num(m), 3) else if k == 3 then false
               else Bits.Digit(Bits.Num(m), k) || (k >= 11 && Bits.Digit(Bits.Num(priv), k - 11))
  {
    hide Bits.Num, Bits.Digit, Bits.Either, Kept, Changed, MieStacked, MppField, H.MTrapStatus, H.MieBit;
    FieldDigits(k);
    AccessLaws.StatusFields(m);
    assert H.MTrapStatus(m, priv) == Bits.Either(MieStacked(m), MppField(priv)) by {
      MTrapRaw(m, priv);
      Bits.EitherRaw(MieStacked(m), MppField(priv));
    }
    JoinedDigit(MieStacked(m), MppField(priv), k);
    PrivDigit(priv, k);
    if H.MieBit(m) {
      MieSet(m);
      ChangedDigit(m, 0x88, 0x80, k);
    } else {
      MieClear(m);
      KeptDigit(m, 0x88, k);
    }
  }

  // Returns.

  lemma WithoutRaw(m: bv32)
    ensures H.WithoutMprv(m) == if H.Mpp(m) != 3 then Kept(m, 0x2_0000) else m
  {
    hide H.Mpp;
  }

  lemma WithoutDigit(m: bv32, k: nat)
    requires k < 32
    ensures Bits.Digit(Bits.Num(H.WithoutMprv(m)), k)
            == (Bits.Digit(Bits.Num(m), k) && !(k == 17 && Bits.Num(m) / 0x800 % 4 != 3))
  {
    hide Bits.Num, Bits.Digit, Kept, H.WithoutMprv, H.Mpp;
    WithoutRaw(m);
    FieldDigits(k);
    KeptDigit(m, 0x2_0000, k);
    AccessLaws.MppNum(m);
    AccessLaws.PrivNumbers();
    AccessLaws.PrivIs(H.Mpp(m), 3);
  }

  lemma MretClear(m: bv32)
    requires !H.MpieBit(H.WithoutMprv(m))
    ensures H.MretStatus(m) == Changed(H.WithoutMprv(m), 0x1800, 0x80)
  {
    hide H.WithoutMprv;
  }

  lemma MretSet(m: bv32)
    requires H.MpieBit(H.WithoutMprv(m))
    ensures H.MretStatus(m) == Changed(H.WithoutMprv(m), 0x1800, 0x88)
  {
    hide H.WithoutMprv;
  }

  /** mstatus after MRET: MIE is joined by MPIE, MPIE is set, MPP is cleared, MPRV stays
      only if the return is to M mode, and every other bit stays. */
  lemma MretLaw(m: bv32, k: nat)
    requires k < 32
    ensures Bits.Digit(Bits.Num(H.MretStatus(m)), k)
            == if k == 3 then Bits.Digit(Bits.Num(m), 3) || Bits.Digit(Bits.Num(m), 7) else if k == 7 then true
               else if k == 11 || k == 12 then false
               else Bits.Digit(Bits.Num(m), k) && !(k == 17 && Bits.Num(m) / 0x800 % 4 != 3)
  {
    hide Bits.Num, Bits.Digit, Changed, H.MretStatus, H.WithoutMprv, H.MpieBit;
    var w := H.WithoutMprv(m);
    FieldDigits(k);
    WithoutDigit(m, k);
    WithoutDigit(m, 7);
    AccessLaws.StatusFields(w);
    if H.MpieBit(w) {
      MretSet(m);
      ChangedDigit(w, 0x1800, 0x88, k);
    } else {
      MretClear(m);
      ChangedDigit(w, 0x1800, 0x80, k);
    }
  }

  lemma SretClear(m: bv32)
    requires !H.SpieBit(m)
    ensures H.SretStatus(m) == Changed(m, 0x2_0100, 0x20)
  {
  }

  lemma SretSet(m: bv32)
    requires H.SpieBit(m)
    ensures H.SretStatus(m) == Changed(m, 0x2_0100, 0x22)
  {
  }

  /** mstatus after SRET: SIE is joined by SPIE, SPIE is set, SPP and MPRV are cleared,
      and every other bit stays. */
  lemma SretLaw(m: bv32, k: nat)
    requires k < 32
    ensures Bits.Digit(Bits.Num(H.SretStatus(m)), k)
            == if k == 1 then Bits.Digit(Bits.Num(m), 1) || Bits.Digit(Bits.Num(m), 5) else if k == 5 then true
               else if k == 8 || k == 17 then false else Bits.Digit(Bits.Num(m), k)
  {
    hide Bits.Num, Bits.Digit, Changed, H.SretStatus, H.SpieBit;
    FieldDigits(k);
    AccessLaws.StatusFields(m);
    if H.SpieBit(m) {
      SretSet(m);
      ChangedDigit(m, 0x2_0100, 0x22, k);
    } else {
      SretClear(m);
      ChangedDigit(m, 0x2_0100, 0x20, k);
    }
  }

  // ------------------------------------------------------------- the whole transition

  lemma EvenIs(w: bv32)
    ensures Bits.Num(H.Even(w)) == Bits.Num(w) - Bits.Num(w) % 2
  {
    EvenRaw(w);
    hide Bits.Num, H.Even;
    EvenNum(w);
  }

  lemma EvenRaw(w: bv32)
    ensures H.Even(w) == w & 0xFFFF_FFFE
  {
  }

  /** A trap writes cause, saved PC, value and status of the mode it goes to, enters
      that mode, and touches nothing else. */
  lemma TrapLaw(h: H.Hart, cause: bv32, epc: bv32, tval: bv32)
    ensures var r, s := H.Trap(h, cause, epc, tval), H.TrapToS(h, cause);
            && r.Get(if s then 0x142 else 0x342) == cause && r.Get(if s then 0x143 else 0x343) == tval
            && Bits.Num(r.Get(if s then 0x141 else 0x341)) == Bits.Num(epc) - Bits.Num(epc) % 2
            && r.Get(0x300) == (if s then H.STrapStatus(h.Get(0x300), h.priv) else H.MTrapStatus(h.Get(0x300), h.priv))
            && Bits.Num(r.priv) == (if s then 1 else 3) && r.pmp == h.pmp
            && forall b: H.CsrAddr ::
                 b != 0x300 && b !in (if s then {0x141, 0x142, 0x143} else {0x341, 0x342, 0x343}) ==> r.Get(b) == h.Get(b)
  {
    hide Bits.Num, H.STrapStatus, H.MTrapStatus, H.TrapToS, H.Even;
    EvenIs(epc);
    AccessLaws.PrivNumbers();
  }

  /** A return goes to the saved PC and to the saved privilege, and changes nothing but
      status and privilege. */
  lemma ReturnLaw(h: H.Hart, mret: bool)
    ensures var r, m := H.Return(h, mret), Bits.Num(h.Get(0x300));
            && Bits.Num(r.priv) == (if mret then m / 0x800 % 4 else if Bits.Digit(m, 8) then 1 else 0)
            && r.Get(0x300) == (if mret then H.MretStatus(h.Get(0x300)) else H.SretStatus(h.Get(0x300))) && r.pmp == h.pmp
            && (forall b: H.CsrAddr :: b != 0x300 ==> r.Get(b) == h.Get(b))
    ensures var e := Bits.Num(h.Get(if mret then 0x341 else 0x141)); Bits.Num(H.ReturnPc(h, mret)) == e - e % 2
  {
    hide Bits.Num, Bits.Digit, H.MretStatus, H.SretStatus, H.Even, H.Mpp, H.SppBit;
    AccessLaws.StatusFields(h.Status());
    AccessLaws.PrivNumbers();
    EvenIs(h.Get(if mret then H.MEPC else H.SEPC));
  }

  /** The handler of a trap is that of the mode it goes to. */
  lemma HandlerLaw(h: H.Hart, cause: bv32)
    ensures var n := Bits.Num(h.Get(if H.TrapToS(h, cause) then 0x105 else 0x305));
            Bits.Num(H.TrapPc(h, cause))
            == if n % 2 == 1 then (n - n % 4 + 4 * (Bits.Num(cause) % 0x400)) % 0x1_0000_0000 else n
  {
    hide Bits.Num, H.TrapToS, H.Vector;
    VectorLaw(h.Get(H.STVEC), cause);
    VectorLaw(h.Get(H.MTVEC), cause);
  }

  // ------------------------------------------------------------------- instructions

  // The machine's step for the privileged kinds.

  lemma StepEcall(a: Arch, i: Instr, e: Env)
    requires !i.onTrap && KindOf(i.ty) == Ecall
    ensures Sem(a, i, e) == Trapped(a, EcallCause(a.hart.priv), 0)
  {
    hide KindOf, Retire, Transfer, NextPc, AluResult, MulDivResult, JumpTarget, BranchTaken, BranchTarget, Load, CsrStep, Trapped, CsrVal,
      DataReq, EcallCause, SfenceIllegal, WfiIllegal, SretIllegal, H.Return, H.ReturnPc;
  }

  lemma StepEbreak(a: Arch, i: Instr, e: Env)
    requires !i.onTrap && KindOf(i.ty) == Ebreak
    ensures Sem(a, i, e) == Trapped(a, 3, a.pc)
  {
    hide KindOf, Retire, Transfer, NextPc, AluResult, MulDivResult, JumpTarget, BranchTaken, BranchTarget, Load, CsrStep, Trapped, CsrVal,
      DataReq, EcallCause, SfenceIllegal, WfiIllegal, SretIllegal, H.Return, H.ReturnPc;
  }

  lemma StepInvalid(a: Arch, i: Instr, e: Env)
    requires !i.onTrap && KindOf(i.ty) == Invalid
    ensures Sem(a, i, e) == Trapped(a, 2, i.inst)
  {
    hide KindOf, Retire, Transfer, NextPc, AluResult, MulDivResult, JumpTarget, BranchTaken, BranchTarget, Load, CsrStep, Trapped, CsrVal,
      DataReq, EcallCause, SfenceIllegal, WfiIllegal, SretIllegal, H.Return, H.ReturnPc;
  }

  lemma StepSfence(a: Arch, i: Instr, e: Env)
    requires !i.onTrap && KindOf(i.ty) == Sfence
    ensures Sem(a, i, e) == if SfenceIllegal(a.hart) then Trapped(a, 2, 0) else Retire(a, i, NextPc(a.pc, i.compressed), 0)
  {
    hide KindOf, Retire, Transfer, NextPc, AluResult, MulDivResult, JumpTarget, BranchTaken, BranchTarget, Load, CsrStep, Trapped, CsrVal,
      DataReq, EcallCause, SfenceIllegal, WfiIllegal, SretIllegal, H.Return, H.ReturnPc;
  }

  lemma StepWfi(a: Arch, i: Instr, e: Env)
    requires !i.onTrap && KindOf(i.ty) == Wfi
    ensures Sem(a, i, e) == if WfiIllegal(a.hart) then Trapped(a, 2, 0) else Retire(a, i, NextPc(a.pc, i.compressed), 0)
  {
    hide KindOf, Retire, Transfer, NextPc, AluResult, MulDivResult, JumpTarget, BranchTaken, BranchTarget, Load, CsrStep, Trapped, CsrVal,
      DataReq, EcallCause, SfenceIllegal, WfiIllegal, SretIllegal, H.Return, H.ReturnPc;
  }

  lemma StepSret(a: Arch, i: Instr, e: Env)
    requires !i.onTrap && KindOf(i.ty) == Sret
    ensures Sem(a, i, e) == if SretIllegal(a.hart) then Trapped(a, 2, 0)
                              else a.(pc := H.ReturnPc(a.hart, false), hart := H.Return(a.hart, false))
  {
    hide KindOf, Retire, Transfer, NextPc, AluResult, MulDivResult, JumpTarget, BranchTaken, BranchTarget, Load, CsrStep, Trapped, CsrVal,
      DataReq, EcallCause, SfenceIllegal, WfiIllegal, SretIllegal, H.Return, H.ReturnPc;
  }

  lemma StepMret(a: Arch, i: Instr, e: Env)
    requires !i.onTrap && KindOf(i.ty) == Mret
    ensures Sem(a, i, e) == a.(pc := H.ReturnPc(a.hart, true), hart := H.Return(a.hart, true))
  {
    hide KindOf, Retire, Transfer, NextPc, AluResult, MulDivResult, JumpTarget, BranchTaken, BranchTarget, Load, CsrStep, Trapped, CsrVal,
      DataReq, EcallCause, SfenceIllegal, WfiIllegal, SretIllegal, H.Return, H.ReturnPc;
  }

  lemma SystemKinds(ty: InstrType)
    ensures (ty.ECALL? ==> KindOf(ty) == Ecall) && (ty.EBREAK? ==> KindOf(ty) == Ebreak) && (ty.INVALID? ==> KindOf(ty) == Invalid)
    ensures (ty.SFENCE_VMA? ==> KindOf(ty) == Sfence) && (ty.WFI? ==> KindOf(ty) == Wfi)
    ensures (ty.SRET? ==> KindOf(ty) == Sret) && (ty.MRET? ==> KindOf(ty) == Mret)
  {
  }

  lemma EcallNum(p: bv32)
    ensures Bits.Num(EcallCause(p)) == if Bits.Num(p) == 3 then 11 else if Bits.Num(p) == 1 then 9 else 8
  {
    hide Bits.Num;
    AccessLaws.PrivNumbers();
    AccessLaws.PrivIs(p, 3);
    AccessLaws.PrivIs(p, 1);
    Bits.NumIsInt(11);
    Bits.NumIsInt(9);
    Bits.NumIsInt(8);
  }

  /** ECALL, EBREAK and undefined instructions trap with the architecture's causes. */
  lemma TrappingSem(a: Arch, i: Instr, e: Env)
    requires !i.onTrap
    ensures i.ty.ECALL? ==>
              exists c :: && Sem(a, i, e) == Trapped(a, c, 0)
                          && Bits.Num(c) == (if Bits.Num(a.hart.priv) == 3 then 11 else if Bits.Num(a.hart.priv) == 1 then 9 else 8)
    ensures i.ty.EBREAK? ==> Sem(a, i, e) == Trapped(a, 3, a.pc)
    ensures i.ty.INVALID? ==> Sem(a, i, e) == Trapped(a, 2, i.inst)
  {
    hide Bits.Num, KindOf, Sem, Trapped, EcallCause;
    SystemKinds(i.ty);
    if i.ty.ECALL? { StepEcall(a, i, e); }
    if i.ty.EBREAK? { StepEbreak(a, i, e); }
    if i.ty.INVALID? { StepInvalid(a, i, e); }
    EcallNum(a.hart.priv);
  }

  lemma BelowOne(p: bv32)
    ensures p < 1 <==> Bits.Num(p) == 0
  {
    BelowOneRaw(p);
    hide Bits.Num, Bits.Less;
    Bits.OneNum();
    Bits.LessNum(p, 1);
  }

  lemma BelowOneRaw(p: bv32)
    ensures (p < 1) == Bits.Less(p, 1)
  {
  }

  lemma IllegalLaw(h: H.Hart)
    ensures SfenceIllegal(h)
            <==> Bits.Num(h.priv) == 0 || (Bits.Num(h.priv) == 1 && Bits.Digit(Bits.Num(h.Get(0x300)), 20))
    ensures WfiIllegal(h)
            <==> Bits.Num(h.priv) == 0 || (Bits.Num(h.priv) == 1 && Bits.Digit(Bits.Num(h.Get(0x300)), 21))
    ensures SretIllegal(h) <==> Bits.Num(h.priv) == 1 && Bits.Digit(Bits.Num(h.Get(0x300)), 22)
  {
    hide Bits.Num, Bits.Digit, H.TvmBit, H.TwBit, H.TsrBit;
    AccessLaws.StatusFields(h.Status());
    AccessLaws.PrivNumbers();
    AccessLaws.PrivIs(h.priv, 0);
    AccessLaws.PrivIs(h.priv, 1);
    BelowOne(h.priv);
  }

  /** SFENCE.VMA and WFI go on unless TVM or TW forbids them below M mode. */
  lemma FenceSem(a: Arch, i: Instr, e: Env)
    requires !i.onTrap && !i.writesRd && (i.ty.SFENCE_VMA? || i.ty.WFI?)
    ensures var p, forbidden := Bits.Num(a.hart.priv), Bits.Digit(Bits.Num(a.hart.Get(0x300)), if i.ty.WFI? then 21 else 20);
            if p == 0 || (p == 1 && forbidden) then Sem(a, i, e) == Trapped(a, 2, 0) else MovesOn(a, i, Sem(a, i, e))
  {
    hide Bits.Num, Bits.Digit, KindOf, Sem, Trapped, Retire, NextPc, MovesOn, SfenceIllegal, WfiIllegal;
    SystemKinds(i.ty);
    if i.ty.WFI? { StepWfi(a, i, e); } else { StepSfence(a, i, e); }
    IllegalLaw(a.hart);
    RetireMoves(a, i, 0);
  }

  /** SRET is refused in S mode under TSR only, MRET nowhere; both return. */
  lemma ReturnSem(a: Arch, i: Instr, e: Env)
    requires !i.onTrap && (i.ty.SRET? || i.ty.MRET?)
    ensures if i.ty.SRET? && Bits.Num(a.hart.priv) == 1 && Bits.Digit(Bits.Num(a.hart.Get(0x300)), 22)
            then Sem(a, i, e) == Trapped(a, 2, 0)
            else Sem(a, i, e) == a.(pc := H.ReturnPc(a.hart, i.ty.MRET?), hart := H.Return(a.hart, i.ty.MRET?))
  {
    hide Bits.Num, Bits.Digit, KindOf, Sem, Trapped, H.Return, H.ReturnPc, SretIllegal;
    SystemKinds(i.ty);
    if i.ty.SRET? { StepSret(a, i, e); } else { StepMret(a, i, e); }
    IllegalLaw(a.hart);
  }

  // -------------------------------------------------------------------- interrupts

  /** An interrupt may be taken if it is pending, by the stored bits or the wires of
      STIP, MTIP, SEIP and MEIP, is enabled in mie, and its level is open: a delegated
      one in U mode or in S mode with SIE, another below M mode or in M mode with MIE. */
  lemma TakeableLaw(h: H.Hart, wires: bv32, k: nat)
    requires k < 32
    ensures var mip, mie, deleg, status := Bits.Num(h.Get(0x344)), Bits.Num(h.Get(0x304)), Bits.Num(h.Get(0x303)), Bits.Num(h.Get(0x300));
            Bits.Digit(Bits.Num(H.Takeable(h, wires)), k)
            <==> && (Bits.Digit(mip, k) || (Bits.Digit(Bits.Num(wires), k) && Bits.Digit(0xAA0, k))) && Bits.Digit(mie, k)
                 && (if Bits.Digit(deleg, k) then Bits.Num(h.priv) == 0 || (Bits.Num(h.priv) == 1 && Bits.Digit(status, 1))
                     else Bits.Num(h.priv) < 3 || (Bits.Num(h.priv) == 3 && Bits.Digit(status, 3)))
  {
    hide Bits.Num, Bits.Digit, H.Pending, H.ByLevel, H.MEnabled, H.SEnabled;
    var p := H.Pending(h.Get(H.MIP), wires, h.Get(H.MIE));
    PendingLaw(h.Get(H.MIP), wires, h.Get(H.MIE), k);
    LevelLaw(p, h.Get(H.MIDELEG), H.MEnabled(h), H.SEnabled(h), k);
    EnabledLaw(h);
  }

  lemma PendingRaw(mip: bv32, wires: bv32, mie: bv32)
    ensures H.Pending(mip, wires, mie) == Bits.Both(mip | (wires & 0xAA0), mie)
  {
  }

  lemma PendingForm(mip: bv32, wires: bv32, mie: bv32)
    ensures H.Pending(mip, wires, mie) == Bits.Both(Bits.Either(mip, Bits.Both(wires, 0xAA0)), mie)
  {
    hide Bits.Both, Bits.Either, H.Pending;
    PendingRaw(mip, wires, mie);
    Bits.EitherRaw(mip, wires & 0xAA0);
    Bits.BothRaw(wires, 0xAA0);
  }

  lemma PendingLaw(mip: bv32, wires: bv32, mie: bv32, k: nat)
    ensures Bits.Digit(Bits.Num(H.Pending(mip, wires, mie)), k)
            == ((Bits.Digit(Bits.Num(mip), k) || (Bits.Digit(Bits.Num(wires), k) && Bits.Digit(0xAA0, k))) && Bits.Digit(Bits.Num(mie), k))
  {
    hide Bits.Num, Bits.Digit, Bits.Both, Bits.Either, Bits.Differ, H.Pending;
    PendingForm(mip, wires, mie);
    Bits.NumIsInt(0xAA0);
    Bits.LogicDigits(wires, 0xAA0, k);
    Bits.LogicDigits(mip, Bits.Both(wires, 0xAA0), k);
    Bits.LogicDigits(Bits.Either(mip, Bits.Both(wires, 0xAA0)), mie, k);
  }

  lemma LevelCases(p: bv32, d: bv32)
    ensures H.ByLevel(p, d, true, true) == p && H.ByLevel(p, d, false, false) == 0
  {
  }

  lemma LevelM(p: bv32, d: bv32)
    ensures H.ByLevel(p, d, true, false) == Bits.Both(p, !d)
  {
  }

  lemma LevelS(p: bv32, d: bv32)
    ensures H.ByLevel(p, d, false, true) == Bits.Both(p, d)
  {
  }

  lemma LevelLaw(p: bv32, d: bv32, m: bool, s: bool, k: nat)
    requires k < 32
    ensures Bits.Digit(Bits.Num(H.ByLevel(p, d, m, s)), k)
            == (Bits.Digit(Bits.Num(p), k) && if Bits.Digit(Bits.Num(d), k) then s else m)
  {
    hide Bits.Num, Bits.Digit, Bits.Both, Bits.Either, Bits.Complement, Bits.Differ, H.ByLevel;
    LevelCases(p, d);
    LevelM(p, d);
    LevelS(p, d);
    Bits.ComplementRaw(d);
    Bits.ZeroNum();
    Bits.ZeroDigit(k);
    Bits.ComplementDigit(d, k);
    Bits.LogicDigits(p, d, k);
    Bits.LogicDigits(p, Bits.Complement(d), k);
  }

  lemma EnabledLaw(h: H.Hart)
    ensures var p, status := Bits.Num(h.priv), Bits.Num(h.Get(0x300));
            && H.SEnabled(h) == (p == 0 || (p == 1 && Bits.Digit(status, 1)))
            && H.MEnabled(h) == (p < 3 || (p == 3 && Bits.Digit(status, 3)))
  {
    hide Bits.Num, Bits.Digit, H.SieBit, H.MieBit;
    AccessLaws.StatusFields(h.Status());
    AccessLaws.PrivNumbers();
    AccessLaws.PrivIs(h.priv, 1);
    AccessLaws.PrivIs(h.priv, 3);
    BelowOne(h.priv);
    BelowM(h.priv);
  }
}
