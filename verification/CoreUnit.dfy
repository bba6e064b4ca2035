/** The done flags of fence.i and sfence.vma as the registers they are. */
module CoreUnit {
  import opened Core
  import L = LoadStore
  import IF = IFetch

  class Handshake {
    var icInvalid: bool
    var icTlb: bool
    var lsuCache: bool
    var lsuTlb: bool

    ghost function State(): Flags
      reads this
    {
      Flags(icInvalid, icTlb, lsuCache, lsuTlb)
    }

    constructor ()
      ensures State() == CLEAR
    {
      icInvalid, icTlb, lsuCache, lsuTlb := false, false, false, false;
    }

    /** The flags, and whether the fence retires in this clock. */
    method Clock(op: Op, data: L.Out, fetch: IF.IOut) returns (ready: bool)
      modifies this
      ensures State() == FlagsAfter(old(State()), op, data, fetch) && ready == Retires(old(State()), op)
    {
      ready := false;
      match op {
        case FenceI =>
          ready := icInvalid && lsuCache;
        case SfenceVma =>
          ready := icInvalid && icTlb && lsuTlb;
        case DataOp(_) =>
      }
      if ready {
        icInvalid := false;
        if op.FenceI? { lsuCache := false; } else { icTlb, lsuTlb := false, false; }
      } else {
        icInvalid, icTlb := icInvalid || fetch.invalidateDone, icTlb || fetch.tlbFlushDone;
        lsuCache, lsuTlb := lsuCache || data.cacheFlushDone, lsuTlb || data.tlbFlushDone;
      }
    }
  }
}
