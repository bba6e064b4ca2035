/** The page-table walker: one `Next` per clock. */
module Ptw {
  import opened Words
  import opened Memory
  import opened Paging
  import opened Translation

  datatype WalkerProc = WIdle | WWalk | WCheck

  /** `addr` is the part of pa_pte_addr the bus takes. */
  datatype Walker = Walker(proc: WalkerProc, level: nat, addr: Addr, vpn0: nat, pte: Lanes)

  function WalkClock(w: Walker, walk: bool, root: PpnValue, vpn: Vpn, ready: bool, rdata: Lanes): Walker {
    match w.proc
    case WIdle => if walk then Walker(WWalk, 1, PteAddr(root, Vpn1(vpn)), Vpn0(vpn), w.pte) else w
    case WWalk => if ready then w.(proc := WCheck, pte := rdata) else w
    case WCheck =>
      if !IsLeaf(w.pte, w.level) && IsPointer(w.pte, w.level)
      then Walker(WWalk, 0, PteAddr(Ppn(w.pte), w.vpn0 % 0x400), 0, w.pte)
      else w.(proc := WIdle)
  }

  class Unit {
    var proc: WalkerProc
    var level: nat
    var addr: Addr
    var vpn0: nat
    var pte: Lanes

    ghost function State(): Walker
      reads this
    {
      Walker(proc, level, addr, vpn0, pte)
    }

    constructor ()
      ensures proc == WIdle
    {
      proc, level, addr, vpn0, pte := WIdle, 0, Addr(BlockId(0, 0), 0, 0), 0, ZERO_LANES;
    }

    method Clock(walk: bool, root: PpnValue, vpn: Vpn, ready: bool, rdata: Lanes)
      modifies this
      ensures State() == WalkClock(old(State()), walk, root, vpn, ready, rdata)
    {
      match proc
      case WIdle =>
        if walk { proc, level, addr, vpn0 := WWalk, 1, PteAddr(root, Vpn1(vpn)), Vpn0(vpn); }
      case WWalk =>
        if ready { proc, pte := WCheck, rdata; }
      case WCheck =>
        if IsLeaf(pte, level) {
          proc := WIdle;
        } else if IsPointer(pte, level) {
          proc, level, addr, vpn0 := WWalk, 0, PteAddr(Ppn(pte), vpn0 % 0x400), 0;
        } else {
          proc := WIdle;
        }
    }
  }
}
