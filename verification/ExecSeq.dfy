/** The rising-edge process of the execute stage, updating its registers in place
    (src/exec.hpp:1018-1113, 1157-1264, 1318-1341). */
module ExecSeq {
  import opened Hart
  import H = Hart
  import Pmp

  // The status word of each transition, one bit field at a time.

  method StackSie(m: bv32, priv: bv32) returns (r: bv32)
    ensures r == STrapStatus(m, priv)
  {
    hide SppField;
    var sie := (m & 0x2) >> 1;
    r := m & 0xFFFF_FFDF;
    r := r | (sie << 5);
    r := r & 0xFFFF_FFFD;
    r := r & 0xFFFF_FEFF;
    r := r | SppField(priv);
  }

  method StackMie(m: bv32, priv: bv32) returns (r: bv32)
    ensures r == MTrapStatus(m, priv)
  {
    var mie := (m & 0x8) >> 3;
    r := m & 0xFFFF_FF7F;
    r := r | (mie << 7);
    r := r & 0xFFFF_FFF7;
    r := r | (priv << 11);
  }

  method UnstackMie(m: bv32) returns (r: bv32)
    ensures r == MretStatus(m)
  {
    hide WithoutMprv;
    r := WithoutMprv(m);
    r := r & 0xFFFF_E7FF;
    var mpie := (r & 0x80) >> 7;
    r := r | (mpie << 3);
    r := r | 0x80;
  }

  method UnstackSie(m: bv32) returns (r: bv32)
    ensures r == SretStatus(m)
  {
    r := m & 0xFFFD_FFFF;
    r := r & 0xFFFF_FEFF;
    var spie := (r & 0x20) >> 5;
    r := r | (spie << 1);
    r := r | 0x20;
  }

  class Unit {
    var priv: bv32
    var csr: map<CsrAddr, bv32>
    var pmp: Pmp.Regs

    function View(): (h: Hart)
      reads this
    {
      Hart(priv, csr, pmp)
    }

    constructor ()
      ensures View() == RESET
    {
      priv := M;
      csr := map[MSTATUS := 0x1800, MISA := 0x4014_1105];
      pmp := Pmp.INIT;
    }

    function Get(a: CsrAddr): (r: bv32)
      reads this
    {
      if a in csr then csr[a] else 0
    }

    method Write(a: CsrAddr, v: bv32)
      modifies this`csr
      ensures csr == old(csr)[a := v]
    {
      csr := csr[a := v];
    }

    /** Whether S mode handles the trap. */
    method Delegates(cause: bv32) returns (delegated: bool)
      ensures delegated == TrapToS(View(), cause)
    {
      hide Delegated, CauseId, IsInterrupt, SieBit;
      delegated := false;
      if IsInterrupt(cause) {
        if priv < M && SieBit(Get(MSTATUS)) { delegated := Delegated(Get(MIDELEG), CauseId(cause)); }
      } else {
        if priv < M { delegated := Delegated(Get(MEDELEG), CauseId(cause)); }
      }
    }

    /** Save the cause, PC and value, stack the enable bit and the privilege, and
        enter the handler's mode. */
    method Trap(cause: bv32, epc: bv32, tval: bv32)
      modifies this
      ensures View() == H.Trap(old(View()), cause, epc, tval)
    {
      hide TrapToS, Even, STrapStatus, MTrapStatus;
      var delegated := Delegates(cause);
      if delegated {
        Write(SCAUSE, cause);
        Write(SEPC, Even(epc));
        Write(STVAL, tval);
        var mstatus := StackSie(Get(MSTATUS), priv);
        Write(MSTATUS, mstatus);
        priv := S;
      } else {
        Write(MCAUSE, cause);
        Write(MEPC, Even(epc));
        Write(MTVAL, tval);
        var mstatus := StackMie(Get(MSTATUS), priv);
        Write(MSTATUS, mstatus);
        priv := M;
      }
    }

    /** MRET or SRET: restore the privilege and the enable bit. */
    method ReturnFromTrap(mret: bool)
      modifies this
      ensures View() == H.Return(old(View()), mret)
    {
      hide MretStatus, SretStatus, Mpp, SppBit;
      var mstatus := Get(MSTATUS);
      if mret {
        priv := Mpp(mstatus);
        mstatus := UnstackMie(mstatus);
      } else {
        priv := if SppBit(mstatus) then S else U;
        mstatus := UnstackSie(mstatus);
      }
      Write(MSTATUS, mstatus);
    }

    method UpdatePmp(a: CsrAddr, v: bv32)
      requires IsPmpConfig(a) || IsPmpAddr(a)
      modifies this`pmp
      ensures pmp == if IsPmpConfig(a) then Pmp.UpdateConfig(old(pmp), ConfigGroup(a), v)
                     else Pmp.UpdateAddr(old(pmp), AddrIndex(a), NatOf(v))
    {
      if IsPmpConfig(a) {
        pmp := Pmp.UpdateConfig(pmp, ConfigGroup(a), v);
      } else {
        pmp := Pmp.UpdateAddr(pmp, AddrIndex(a), NatOf(v));
      }
    }

    /** Registers that show or guard parts of another. */
    method UpdateView(a: CsrAddr, op: Op, val: bv32)
      requires a == SSTATUS || a == SIE || a == SIP || a == MIP
      modifies this`csr
      ensures forall cur :: View() == H.CsrUpdate(old(View()), a, op, cur, val)
    {
      hide Merge, CsrMask, IsCounter, IsFixed, IsHardwiredZero, IsPmpConfig, IsPmpAddr;
      var mask := CsrMask(View(), a);
      var target := if a == SSTATUS then MSTATUS else if a == SIE then MIE else MIP;
      Write(target, Merge(op, mask, Get(target), val));
    }

    /** A CSR instruction: `cur` is the value read in the execute stage, which the
        registers that are views of others do not use. */
    method UpdateCsr(a: CsrAddr, op: Op, cur: bv32, val: bv32)
      modifies this
      ensures View() == H.CsrUpdate(old(View()), a, op, cur, val)
    {
      hide Merge, CsrMask, IsCounter, IsFixed, IsHardwiredZero, Pmp.UpdateConfig, Pmp.UpdateAddr, ConfigGroup,
        AddrIndex, NatOf;
      if a == SSTATUS || a == SIE || a == SIP || a == MIP {
        UpdateView(a, op, val);
        return;
      }
      var v := Merge(op, CsrMask(View(), a), cur, val);
      if IsCounter(a) || IsFixed(a) {
      } else if (IsPmpConfig(a) || IsPmpAddr(a)) && priv == M {
        UpdatePmp(a, v);
      } else if IsHardwiredZero(a) {
      } else {
        Write(a, v);
      }
    }

    /** One edge: at most one of the three, in this order of precedence. */
    method Edge(e: Effect)
      modifies this
      ensures View() == H.Step(old(View()), e)
    {
      hide H.Trap, H.Return, H.CsrUpdate;
      match e
      case NoEffect =>
      case TakeTrap(cause, epc, tval) => Trap(cause, epc, tval);
      case TakeReturn(mret) => ReturnFromTrap(mret);
      case UpdateCsr(a, op, cur, val) => UpdateCsr(a, op, cur, val);
    }
  }
}
