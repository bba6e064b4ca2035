/** The fetch unit as the clocked object it is; `Clock` does what IFetch.Next says. */
module IFetchUnit {
  import opened Words
  import opened Memory
  import opened Paging
  import opened Translation
  import opened IFetch

  class Unit {
    const lines: array<ILine>
    var proc: IProc
    var entry: ILine
    var tagAccessing: Tag
    var indexAccessing: Index
    var allocAddr: Addr
    var walkVpn: Vpn
    var tlb: Tlb
    var invalidateCnt: nat

    ghost predicate Valid() { lines.Length == 256 }

    ghost function State(): IFetch
      requires Valid()
      reads this, lines
    {
      IFetch(lines[..], proc, entry, tagAccessing, indexAccessing, allocAddr, walkVpn, tlb, invalidateCnt)
    }

    constructor (tlb: Tlb)
      requires forall k :: 0 <= k < |tlb.entries| ==> !tlb.entries[k].valid
      ensures Valid() && fresh(lines) && proc == Idle && this.tlb == tlb
      ensures forall i: Index :: !lines[i].valid
    {
      var z := ILine(ZERO_LINE, 0, false);
      lines := new ILine[256](_ => z);
      proc, entry, tagAccessing, indexAccessing := Idle, z, 0, 0;
      allocAddr, walkVpn, this.tlb, invalidateCnt := Addr(BlockId(0, 0), 0, 0), 0, tlb, 0;
    }

    method Clock(in_: IIn, block: Line) returns (out: IOut)
      requires Valid()
      modifies this, lines
      ensures Valid() && (State(), out) == Next(old(State()), in_, block)
    {
      out := QUIET;
      match proc {
        case Idle => out := ClockIdle(in_);
        case CompareTag => out := ClockCompare(in_);
        case Allocate =>
          if in_.memReady {
            var b := allocAddr.block;
            lines[b.index], proc := ILine(block, b.tag, true), Idle;
          }
        case PageTableWalk =>
          match in_.walk {
            case NoAnswer =>
            case PteReady(pte, level) => tlb, proc := Refill(tlb, walkVpn, pte, level), Idle;
            case WalkPageFault => out, proc := out.(pageFault := true), Idle;
            case WalkAccessFault => out := out.(accessFault := true);
          }
        case FlushTlb =>
          tlb, proc, out := Flush(tlb), Idle, out.(tlbFlushDone := true);
        case Invalidate =>
          if invalidateCnt < 256 {
            lines[invalidateCnt] := lines[invalidateCnt].(valid := false);
            invalidateCnt := invalidateCnt + 1;
          } else {
            proc, out := Idle, out.(invalidateDone := true);
          }
      }
      tlb := Tick(tlb);
    }

    method ClockIdle(in_: IIn) returns (out: IOut)
      requires Valid()
      modifies this
      ensures Valid() && (State(), out) == StepIdle(old(State()), in_)
    {
      out := QUIET;
      var vpn, i := in_.addr.block.tag, in_.addr.block.index;
      if in_.invalidate {
        proc, invalidateCnt := Invalidate, 0;
      } else if in_.tlbFlush {
        proc := FlushTlb;
      } else if in_.read && !in_.sv32 {
        proc, entry, tagAccessing, indexAccessing := CompareTag, lines[i], vpn, i;
      } else if in_.read {
        if TlbHit(tlb, vpn) {
          var e := Access(tlb, vpn);
          if FetchAllowed(e.pte, in_.priv) {
            proc, entry, tagAccessing, indexAccessing := CompareTag, lines[i], PhysTag(e, vpn), i;
          } else {
            out := out.(pageFault := true);
          }
        } else {
          proc, walkVpn := PageTableWalk, vpn;
        }
      }
    }

    method ClockCompare(in_: IIn) returns (out: IOut)
      requires Valid()
      modifies this
      ensures Valid() && (State(), out) == StepCompare(old(State()), in_)
    {
      out := QUIET;
      if entry.valid && entry.tag == tagAccessing && indexAccessing == in_.addr.block.index {
        proc := Idle;
        if in_.read { out := out.(ready := true, inst := entry.data[in_.addr.word]); }
      } else if indexAccessing != in_.addr.block.index {
        proc := Idle;
      } else {
        proc := Allocate;
        allocAddr := in_.addr.(block := BlockId(tagAccessing, in_.addr.block.index));
      }
    }
  }
}
