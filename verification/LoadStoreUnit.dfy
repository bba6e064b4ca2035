/** The TLB and the load/store unit as the clocked objects they are. */
module TlbUnit {
  import opened Words
  import opened Memory
  import opened Paging

  class Unit {
    const entries: array<TlbEntry>
    var pos: nat

    ghost predicate Valid()
      reads this
    {
      pos < entries.Length
    }

    ghost function State(): Tlb
      requires Valid()
      reads this, entries
    {
      TlbMemory(entries[..], pos)
    }

    constructor (size: nat)
      requires size > 0
      ensures Valid() && fresh(entries) && entries.Length == size
      ensures forall k :: 0 <= k < size ==> !entries[k].valid
    {
      entries := new TlbEntry[size](_ => TlbEntry(false, 0, ZERO_LANES, 0));
      pos := 0;
    }

    method ClockRefill(tag: Vpn, pte: Lanes, level: nat)
      requires Valid()
      modifies entries
      ensures Valid() && State() == Refill(old(State()), tag, pte, level)
    {
      entries[pos] := TlbEntry(true, tag, pte, level);
    }

    method ClockFlush()
      requires Valid()
      modifies entries
      ensures Valid() && State() == Flush(old(State()))
    {
      forall i | 0 <= i < entries.Length {
        entries[i] := entries[i].(valid := false);
      }
    }

    method ClockPointer()
      requires Valid()
      modifies this
      ensures Valid() && State() == Tick(old(State()))
    {
      pos := if pos + 1 < entries.Length then pos + 1 else 0;
    }
  }
}

module LoadStoreUnit {
  import opened Words
  import opened Memory
  import opened Paging
  import opened Translation
  import opened Ptw
  import opened LoadStore
  import TlbUnit
  import Amo

  class Unit {
    const walker: Ptw.Unit
    const dtlb: TlbUnit.Unit
    var proc: Proc
    var addr: Addr
    var size: Size
    var data: Lanes
    var sc: bool
    var ptwFor: WalkFor
    var ptwVpn: Vpn
    var amoSrc: Lanes
    var amoAddr: Addr
    var amoFn: Amo.Funct5
    var amoPhase: AmoPhase
    var rs1: Lanes
    var amoResult: Lanes
    var reservation: Reservation

    ghost predicate Valid()
      reads dtlb
    {
      dtlb.Valid()
    }

    ghost function State(): Lsu
      requires Valid()
      reads this, walker, dtlb, dtlb.entries
    {
      Lsu(proc, addr, size, data, sc, ptwFor, ptwVpn, amoSrc, amoAddr, amoFn, amoPhase, rs1, amoResult,
              walker.State(), dtlb.State(), reservation)
    }

    constructor ()
      ensures Valid() && fresh(walker) && fresh(dtlb) && fresh(dtlb.entries)
      ensures proc == Idle && amoPhase == AmoRead && walker.proc == WIdle && !reservation.valid
      ensures dtlb.entries.Length == 32 && forall k :: 0 <= k < 32 ==> !dtlb.entries[k].valid
    {
      var a := Addr(BlockId(0, 0), 0, 0);
      proc, addr, size, data, sc, ptwFor, ptwVpn := Idle, a, ByteSize, ZERO_LANES, false, ForLoad, 0;
      amoSrc, amoAddr, amoFn, amoPhase, rs1, amoResult := ZERO_LANES, a, 0, AmoRead, ZERO_LANES, ZERO_LANES;
      reservation := Reservation(false, a);
      walker := new Ptw.Unit();
      dtlb := new TlbUnit.Unit(32);
    }

    method Clock(in_: In, port: Port) returns (out: Out)
      requires Valid()
      modifies this, walker, dtlb, dtlb.entries
      ensures Valid() && (State(), out) == Next(old(State()), in_, port)
    {
      var walking := proc.PageTableWalk?;
      var vpn := ptwVpn;
      out := QUIET;
      match proc {
        case Idle =>
          out := ClockIdle(in_);
          if port.Fault? { out := out.(fault := LoadAccessFault); }
        case FlushCache =>
          if port.Flushed? { proc, out := Idle, out.(cacheFlushDone := true); }
        case FlushTlb =>
          dtlb.ClockFlush();
          proc, out := Idle, out.(tlbFlushDone := true);
        case CacheableRead =>
          match port {
            case Done(rdata) => proc, out := Idle, out.(ready := true, loadData := rdata);
            case Fault => proc, out := Idle, out.(fault := LoadAccessFault);
            case _ =>
          }
        case CacheableWrite =>
          match port {
            case Done(_) => proc, out := Idle, out.(ready := true, loadData := if sc then ZERO_LANES else ONE);
            case Fault => proc, out := Idle, out.(fault := StoreAccessFault, loadData := ONE);
            case _ =>
          }
        case PageTableWalk => out := ClockWalk(port);
        case AmoExe => out := ClockAmo(port);
      }
      walker.Clock(walking, in_.csr.root, vpn, port.Done?, if port.Done? then port.rdata else ZERO_LANES);
      dtlb.ClockPointer();
    }

    method BeginWalk(why: WalkFor, vpn: Vpn)
      requires Valid()
      modifies this`proc, this`ptwFor, this`ptwVpn
      ensures Valid() && State() == StartWalk(old(State()), why, vpn)
    {
      proc, ptwFor, ptwVpn := PageTableWalk, why, vpn;
    }

    method ClockIdle(in_: In) returns (out: Out)
      requires Valid()
      modifies this
      ensures Valid() && (State(), out) == StepIdle(old(State()), in_)
    {
      out := QUIET;
      if in_.cacheFlush {
        proc := FlushCache;
      } else if in_.tlbFlush {
        proc := FlushTlb;
      } else if in_.cmd.DoLoad? {
        out := ClockLoad(in_.csr, in_.cmd.va, in_.cmd.size, in_.cmd.lr);
      } else if in_.cmd.DoStore? {
        out := ClockStore(in_.csr, in_.cmd.va, in_.cmd.size, in_.cmd.data, in_.cmd.sc);
      } else if in_.cmd.DoAmo? {
        out := ClockStartAmo(in_.csr, in_.cmd.va, in_.cmd.src, in_.cmd.fn);
      } else if in_.tlbRead.ReadTlb? {
        var t := TlbMemory(dtlb.entries[..], dtlb.pos);
        if TlbHit(t, in_.tlbRead.vpn) {
          var e := Access(t, in_.tlbRead.vpn);
          out := out.(pte := Leaf(e.pte, e.level));
        } else {
          BeginWalk(ForFetch, in_.tlbRead.vpn);
        }
      }
    }

    method ClockLoad(csr: Csr, va: Addr, width: Size, lr: bool) returns (out: Out)
      requires Valid()
      modifies this
      ensures Valid() && (State(), out) == StartLoad(old(State()), csr, va, width, lr)
    {
      out := QUIET;
      match TranslateVa(TlbMemory(dtlb.entries[..], dtlb.pos), csr, va, LoadAccess)
      case Physical(pa) =>
        proc, addr, size := CacheableRead, pa, width;
        if lr { reservation := Reservation(true, pa); }
      case Refused =>
        out := out.(fault := LoadPageFault);
        BeginWalk(ForLoad, va.block.tag);
      case Miss =>
        BeginWalk(ForLoad, va.block.tag);
    }

    method ClockStore(csr: Csr, va: Addr, width: Size, d: Lanes, conditional: bool) returns (out: Out)
      requires Valid()
      modifies this
      ensures Valid() && (State(), out) == StartStore(old(State()), csr, va, width, d, conditional)
    {
      out := QUIET;
      match TranslateVa(TlbMemory(dtlb.entries[..], dtlb.pos), csr, va, StoreAccess)
      case Physical(pa) =>
        if conditional && !(reservation.valid && reservation.addr == pa) {
          out := out.(ready := true, loadData := ONE);
        } else {
          proc, addr, size, data, sc := CacheableWrite, pa, width, d, conditional;
        }
        if conditional { reservation := reservation.(valid := false); }
      case Refused =>
        out := out.(fault := StorePageFault);
        BeginWalk(ForStore, va.block.tag);
      case Miss =>
        BeginWalk(ForStore, va.block.tag);
    }

    method ClockStartAmo(csr: Csr, va: Addr, src: Lanes, fn: Amo.Funct5) returns (out: Out)
      requires Valid()
      modifies this
      ensures Valid() && (State(), out) == StartAmo(old(State()), csr, va, src, fn)
    {
      out := QUIET;
      match TranslateVa(TlbMemory(dtlb.entries[..], dtlb.pos), csr, va, StoreAccess)
      case Physical(pa) =>
        proc, amoSrc, amoAddr, amoFn := AmoExe, src, pa, fn;
      case Refused =>
        out := out.(fault := StorePageFault);
        BeginWalk(ForStore, va.block.tag);
      case Miss =>
        BeginWalk(ForStore, va.block.tag);
    }

    method ClockWalk(port: Port) returns (out: Out)
      requires Valid()
      modifies this`proc, dtlb.entries
      ensures Valid() && (State(), out) == StepWalk(old(State()), port)
    {
      out := QUIET;
      if walker.proc.WCheck? {
        if IsLeaf(walker.pte, walker.level) {
          dtlb.ClockRefill(ptwVpn, walker.pte, walker.level);
          proc := Idle;
        } else if !IsPointer(walker.pte, walker.level) {
          proc, out := Idle, out.(fault := WalkFault(ptwFor));
        }
      } else if walker.proc.WWalk? && port.Fault? {
        proc, out := Idle, out.(fault := if ptwFor.ForFetch? then TlbAccessFault else LoadAccessFault);
      }
    }

    method ClockAmo(port: Port) returns (out: Out)
      requires Valid()
      modifies this
      ensures Valid() && (State(), out) == StepAmo(old(State()), port)
    {
      out := QUIET;
      match amoPhase
      case AmoRead =>
        if port.Done? { rs1, amoPhase := port.rdata, AmoAlu; }
        else if port.Fault? { proc, out := Idle, out.(fault := StoreAccessFault); }
      case AmoAlu =>
        amoResult := ToLanes(Amo.Exe(Value(rs1), Value(amoSrc), amoFn));
        amoPhase := AmoWriteBack;
      case AmoWriteBack =>
        if port.Done? { proc, amoPhase, out := Idle, AmoRead, out.(ready := true, loadData := rs1); }
        else if port.Fault? { proc, amoPhase, out := Idle, AmoRead, out.(fault := StoreAccessFault); }
    }
  }
}
