/** How a page-table walk ends: always, and with the walker idle unless a table is not in memory. */
module WalkProgress {
  import opened Words
  import opened Memory
  import opened Paging
  import opened Translation
  import opened Ptw
  import opened LoadStore
  import opened LoadStoreProof
  import DC = DataCache
  import DP = DataCacheProof
  import DR = DataCacheResults
  import LR = LoadStoreResults

  // ---- every walk ends ----

  function CacheWork(c: DC.Cache): nat { if c.proc.Idle? then 5 else DR.Work(c) }

  /** Clocks a walk still needs, not counting those spent waiting for memory. */
  function WalkWork(l: Lsu, c: DC.Cache): nat {
    match l.walker.proc
    case WIdle => 15
    case WWalk => (if l.walker.level == 1 then 8 else 1) + CacheWork(c)
    case WCheck => if l.walker.level == 1 then 7 else 1
  }

  /** A walk starts with the walker idle. */
  lemma WorkBounds(l: Lsu, c: DC.Cache)
    ensures WalkWork(l, c) > 0 && (l.walker.proc.WIdle? ==> WalkWork(l, c) == 15)
  {
  }

  predicate TwoLevels(w: Walker) { w.proc.WIdle? || w.level <= 1 }

  predicate Waiting(s: Sys, in_: SysIn) { DR.WaitsForMemory(s.d.c, DataIn(s, in_)) }

  /** A clock of the unit in a walk, given the cache's part of it. */
  lemma WalkClockWork(l: Lsu, in_: In, port: Port, c: DC.Cache, c': DC.Cache)
    requires l.proc.PageTableWalk? && TwoLevels(l.walker) && !port.Fault? && (port.Done? ==> l.walker.proc.WWalk?)
    requires CacheWork(c') <= 5 && (port.Done? || CacheWork(c') < CacheWork(c) || !l.walker.proc.WWalk?)
    ensures var (l', out) := Next(l, in_, port);
            && TwoLevels(l'.walker) && l'.ptwVpn == l.ptwVpn && l'.ptwFor == l.ptwFor
            && (l'.proc.PageTableWalk? ==> WalkWork(l', c') < WalkWork(l, c))
            && (!l'.proc.PageTableWalk? ==> l'.proc.Idle? && (out.fault == WalkFault(l.ptwFor) || WalkLeaf(l)))
  {
  }

  lemma WalkWaits(l: Lsu, in_: In, port: Port)
    requires l.proc.PageTableWalk? && l.walker.proc.WWalk? && port.Wait?
    ensures var l' := Next(l, in_, port).0;
            l'.proc.PageTableWalk? && l'.walker == l.walker && l'.ptwVpn == l.ptwVpn && l'.ptwFor == l.ptwFor
  {
  }

  predicate WalkLeaf(l: Lsu) { l.walker.proc.WCheck? && IsLeaf(l.walker.pte, l.walker.level) }

  lemma RefillHits(t: Tlb, tag: Vpn, pte: Lanes, level: nat)
    ensures TlbHit(Tick(Refill(t, tag, pte, level)), tag)
  {
    assert Matches(Refill(t, tag, pte, level).entries[t.pos], tag);
  }

  /** The cache's part. */
  lemma CacheClockWork(s: Sys, logical: Blocks, pma: DC.Pmas, in_: SysIn)
    requires Inv(s, logical, pma) && Legal(s, pma, in_) && s.l.proc.PageTableWalk?
    ensures var (d', out) := DP.Step(s.d, pma, DataIn(s, in_));
            var port := PortOf(out);
            && !port.Fault? && !port.Flushed? && (port.Done? ==> s.l.walker.proc.WWalk?) && CacheWork(d'.c) <= 5
            && (if Waiting(s, in_) then s.l.walker.proc.WWalk? && port.Wait? && CacheWork(d'.c) == CacheWork(s.d.c)
                else port.Done? || CacheWork(d'.c) < CacheWork(s.d.c) || !s.l.walker.proc.WWalk?)
  {
    LegalData(s, logical, pma, in_);
    CacheClockHolds(s.d, logical, pma, DataIn(s, in_));
    CacheFaultIsEmpty(s.d, pma, DataIn(s, in_));
    if !s.d.c.proc.Idle? { DR.WorkDecreases(s.d, pma, DataIn(s, in_)); }
  }

  ghost function Waits(s: Sys, pma: DC.Pmas, ins: seq<SysIn>): nat
    decreases |ins|
  {
    if ins == [] then 0 else (if Waiting(s, ins[0]) then 1 else 0) + Waits(Step(s, pma, ins[0]).0, pma, ins[1..])
  }

  /** The state in which a walk has just ended: the page hits, or the walk's page fault is raised. */
  ghost predicate Ends(s: Sys, pma: DC.Pmas, in_: SysIn, vpn: Vpn, why: WalkFor) {
    var (s', out) := Step(s, pma, in_);
    s.l.proc.PageTableWalk? && s'.l.proc.Idle? && (TlbHit(s'.l.tlb, vpn) || out.fault == WalkFault(why))
  }

  lemma WalkStep(s: Sys, logical: Blocks, pma: DC.Pmas, in_: SysIn)
    requires Inv(s, logical, pma) && Legal(s, pma, in_) && s.l.proc.PageTableWalk? && TwoLevels(s.l.walker)
    ensures var s' := Step(s, pma, in_).0;
            if s'.l.proc.PageTableWalk? then
              && TwoLevels(s'.l.walker) && s'.l.ptwVpn == s.l.ptwVpn && s'.l.ptwFor == s.l.ptwFor
              && WalkWork(s'.l, s'.d.c) + (if Waiting(s, in_) then 0 else 1) <= WalkWork(s.l, s.d.c)
            else Ends(s, pma, in_, s.l.ptwVpn, s.l.ptwFor)
  {
    var port := PortAt(s, pma, in_);
    CacheClockWork(s, logical, pma, in_);
    var (d', _) := DP.Step(s.d, pma, DataIn(s, in_));
    if Waiting(s, in_) {
      WalkWaits(s.l, in_.core, port);
    } else {
      WalkClockWork(s.l, in_.core, port, s.d.c, d'.c);
      TlbAfterWalk(s.l, in_.core, port);
    }
  }

  lemma TlbAfterWalk(l: Lsu, in_: In, port: Port)
    requires l.proc.PageTableWalk?
    ensures WalkLeaf(l) ==> TlbHit(Next(l, in_, port).0.tlb, l.ptwVpn)
  {
    if WalkLeaf(l) { RefillHits(l.tlb, l.ptwVpn, l.walker.pte, l.walker.level); }
  }

  /** In a walk, with enough clocks left to end it. */
  ghost predicate Walking(s: Sys, logical: Blocks, pma: DC.Pmas, ins: seq<SysIn>) {
    && Inv(s, logical, pma) && s.l.proc.PageTableWalk? && TwoLevels(s.l.walker)
    && LR.LegalRun(s, pma, ins) && Waits(s, pma, ins) + WalkWork(s.l, s.d.c) <= |ins|
  }

  lemma WalkNext(s: Sys, logical: Blocks, pma: DC.Pmas, ins: seq<SysIn>)
    requires Walking(s, logical, pma, ins)
    ensures ins != []
    ensures var s' := Step(s, pma, ins[0]).0;
            if s'.l.proc.PageTableWalk? then
              && Walking(s', After(s, logical, pma, ins[0]), pma, ins[1..])
              && s'.l.ptwVpn == s.l.ptwVpn && s'.l.ptwFor == s.l.ptwFor
            else Ends(s, pma, ins[0], s.l.ptwVpn, s.l.ptwFor)
  {
    WorkBounds(s.l, s.d.c);
    WalkStep(s, logical, pma, ins[0]);
    InvStep(s, logical, pma, ins[0]);
  }

  /** Clock k of a run ends the walk for a page. */
  ghost predicate EndsAt(s: Sys, pma: DC.Pmas, ins: seq<SysIn>, k: nat, vpn: Vpn, why: WalkFor) {
    k < |ins| && Ends(LR.RunTo(s, pma, ins[..k]), pma, ins[k], vpn, why)
  }

  lemma EndsLater(s: Sys, pma: DC.Pmas, ins: seq<SysIn>, k: nat, vpn: Vpn, why: WalkFor)
    requires ins != [] && EndsAt(Step(s, pma, ins[0]).0, pma, ins[1..], k, vpn, why)
    ensures EndsAt(s, pma, ins, k + 1, vpn, why)
  {
    assert ins[..k + 1][1..] == ins[1..][..k];
  }

  lemma EndsNow(s: Sys, pma: DC.Pmas, ins: seq<SysIn>, vpn: Vpn, why: WalkFor)
    requires ins != [] && Ends(s, pma, ins[0], vpn, why)
    ensures EndsAt(s, pma, ins, 0, vpn, why)
  {
    assert ins[..0] == [] && LR.RunTo(s, pma, []) == s;
  }

  /** Every walk, that is every lookup that misses, ends: then the page hits, or a page fault is
      raised. WorkBounds: at most 15 clocks not spent waiting for memory. */
  lemma {:induction false} WalkEnds(s: Sys, logical: Blocks, pma: DC.Pmas, ins: seq<SysIn>, vpn: Vpn, why: WalkFor)
    returns (k: nat)
    requires Walking(s, logical, pma, ins) && s.l.ptwVpn == vpn && s.l.ptwFor == why
    ensures EndsAt(s, pma, ins, k, vpn, why)
    decreases |ins|
  {
    WalkNext(s, logical, pma, ins);
    var s', after := Step(s, pma, ins[0]).0, After(s, logical, pma, ins[0]);
    if s'.l.proc.PageTableWalk? {
      k := WalkEnds(s', after, pma, ins[1..], vpn, why);
      EndsLater(s, pma, ins, k, vpn, why);
      k := k + 1;
    } else {
      k := 0;
      EndsNow(s, pma, ins, vpn, why);
    }
  }

  // ---- a page table outside existing memory ----

  predicate ReadsNowhere(l: Lsu, pma: DC.Pmas) { l.walker.proc.WWalk? && pma(l.walker.addr.block).Empty? }

  /** Nothing is asked of the unit. */
  predicate Quiet(in_: In) { !in_.cacheFlush && !in_.tlbFlush && in_.cmd.NoCmd? && in_.tlbRead.NoRead? }

  /** The unit and the cache are idle, but the walker still asks for a table that is not there. */
  ghost predicate Stranded(s: Sys, pma: DC.Pmas) {
    s.l.proc.Idle? && ReadsNowhere(s.l, pma) && s.d.c.proc.Idle? && s.d.pend.NoRequest?
  }

  lemma StrandedStep(s: Sys, pma: DC.Pmas, in_: SysIn)
    requires Stranded(s, pma) && Quiet(in_.core)
    ensures var (s', out) := Step(s, pma, in_); out.fault.LoadAccessFault? && Stranded(s', pma)
  {
  }

  lemma ReadNowhereFaults(s: Sys, logical: Blocks, pma: DC.Pmas, in_: SysIn)
    requires Inv(s, logical, pma) && s.l.proc.PageTableWalk? && ReadsNowhere(s.l, pma)
    ensures var (s', out) := Step(s, pma, in_);
            Stranded(s', pma) && out.fault == (if s.l.ptwFor.ForFetch? then TlbAccessFault else LoadAccessFault)
  {
  }

  /** A walk that reads a table outside memory faults and leaves the walker reading: from then on
      every clock in which nothing is asked faults again, whatever memory does. */
  lemma {:induction false} WalkAccessFaultRepeats(s: Sys, pma: DC.Pmas, ins: seq<SysIn>, last: SysIn)
    requires Stranded(s, pma) && Quiet(last.core) && forall k | 0 <= k < |ins| :: Quiet(ins[k].core)
    ensures var e := LR.RunTo(s, pma, ins); Stranded(e, pma) && Step(e, pma, last).1.fault.LoadAccessFault?
    decreases |ins|
  {
    if ins == [] {
      StrandedStep(s, pma, last);
    } else {
      StrandedStep(s, pma, ins[0]);
      WalkAccessFaultRepeats(Step(s, pma, ins[0]).0, pma, ins[1..], last);
    }
  }

  /** A whole walk: the unit is in it in every clock and leaves it in the last. */
  ghost predicate WalkRun(s: Sys, pma: DC.Pmas, ins: seq<SysIn>)
    decreases |ins|
  {
    && ins != [] && s.l.proc.PageTableWalk? && AlignedCmd(ins[0].core.cmd)
    && if |ins| == 1 then Step(s, pma, ins[0]).0.l.proc.Idle? else WalkRun(Step(s, pma, ins[0]).0, pma, ins[1..])
  }

  ghost predicate EverReadsNowhere(s: Sys, pma: DC.Pmas, ins: seq<SysIn>)
    decreases |ins|
  {
    ins != [] && (ReadsNowhere(s.l, pma) || EverReadsNowhere(Step(s, pma, ins[0]).0, pma, ins[1..]))
  }

  /** A walk leaves the walker idle exactly when no table it read was outside memory. */
  lemma {:induction false} WalkerIdleExactly(s: Sys, logical: Blocks, pma: DC.Pmas, ins: seq<SysIn>)
    requires Inv(s, logical, pma) && WalkRun(s, pma, ins)
    ensures LR.RunTo(s, pma, ins).l.walker.proc.WIdle? <==> !EverReadsNowhere(s, pma, ins)
    decreases |ins|
  {
    var s' := Step(s, pma, ins[0]).0;
    if ReadsNowhere(s.l, pma) {
      ReadNowhereFaults(s, logical, pma, ins[0]);
      assert |ins| == 1 && ins[1..] == [];
    } else {
      assert Legal(s, pma, ins[0]);
      InvStep(s, logical, pma, ins[0]);
      if |ins| == 1 {
        assert ins[1..] == [];
        LegalData(s, logical, pma, ins[0]);
        CacheFaultIsEmpty(s.d, pma, DataIn(s, ins[0]));
      } else {
        WalkerIdleExactly(s', After(s, logical, pma, ins[0]), pma, ins[1..]);
      }
    }
  }
}
