/** fence.i and sfence.vma retire: from any reachable state, after a bounded number of clocks in which
    neither port waits for memory. */
module FenceProgress {
  import opened Words
  import opened Memory
  import opened Paging
  import opened Translation
  import opened Core
  import opened Fences
  import L = LoadStore
  import LP = LoadStoreProof
  import LT = LoadStoreTranslation
  import WP = WalkProgress
  import DC = DataCache
  import DP = DataCacheProof
  import DR = DataCacheResults
  import IF = IFetch

  // ---- what is left to do ----

  /** Clocks until the load/store unit is idle. Finishing a walk of its own, or a TLB flush, may take
      from the TLB the entry the fetch unit waits for, which is paid for here. */
  function LsuLeft(l: L.Lsu, c: DC.Cache): nat {
    match l.proc
    case Idle => 0
    case FlushTlb => 45
    case FlushCache => 1 + DR.Work(c)
    case CacheableRead => WP.CacheWork(c)
    case CacheableWrite => WP.CacheWork(c)
    case AmoExe =>
      (match l.amoPhase
       case AmoRead => 7 + WP.CacheWork(c)
       case AmoAlu => 6
       case AmoWriteBack => WP.CacheWork(c))
    case PageTableWalk => WP.WalkWork(l, c) + if l.ptwFor.ForFetch? then 0 else 45
  }

  /** A flush that has not begun. */
  function Pending(l: L.Lsu, done: Flags, op: Op): nat {
    match op
    case FenceI => if done.lsuCache || l.proc.FlushCache? then 0 else 1200
    case SfenceVma => if done.lsuTlb || l.proc.FlushTlb? then 0 else 50
    case DataOp(_) => 0
  }

  /** What the fetch unit's walk still waits for: an answer, a walk under way, or a walk. */
  function WalkLeft(l: L.Lsu, vpn: Vpn): nat {
    if TlbHit(l.tlb, vpn) then 1 else if WalksForFetch(l) then 2 else 40
  }

  function FetchLeft(ic: IF.IFetch, done: Flags, op: Op): nat {
    if done.icInvalid then if op.FenceI? || done.icTlb then 0 else if ic.proc.FlushTlb? then 1 else 2
    else
      match ic.proc
      case PageTableWalk => 270
      case CompareTag => 269
      case Allocate => 268
      case FlushTlb => 267
      case Idle => 266
      case Invalidate => if ic.invalidateCnt < 256 then 263 - ic.invalidateCnt else 6
  }

  function Left(c: Core, op: Op): nat {
    LsuLeft(c.s.l, c.s.d.c) + Pending(c.s.l, c.done, op) + FetchLeft(c.ic, c.done, op)
    + if c.ic.proc.PageTableWalk? then WalkLeft(c.s.l, c.ic.walkVpn) else 0
  }

  predicate DataWaits(s: LP.Sys, in_: LP.SysIn) { WP.Waiting(s, in_) }
  predicate FillWaits(ic: IF.IFetch, in_: CoreIn) { ic.proc.Allocate? && !in_.fillReady }

  predicate Waits(c: Core, in_: CoreIn) { DataWaits(c.s, DataIn(c.ic, c.done, in_)) || FillWaits(c.ic, in_) }

  // ---- the load/store unit ----

  /** A command's request, in any state that has one. */
  lemma RequestWork(s: LP.Sys, logical: Blocks, pma: DC.Pmas, in_: LP.SysIn)
    requires LP.Inv(s, logical, pma) && LP.Legal(s, pma, in_) && !L.RequestOf(s.l).NoRequest? && !s.l.proc.FlushCache?
    requires !s.l.proc.Idle?
    ensures var (d', out) := DP.Step(s.d, pma, LP.DataIn(s, in_)); var port := LP.PortOf(out);
            && !port.Flushed? && WP.CacheWork(d'.c) <= 5
            && (if DataWaits(s, in_) then port.Wait? && WP.CacheWork(d'.c) == WP.CacheWork(s.d.c)
                else port.Done? || port.Fault? || WP.CacheWork(d'.c) < WP.CacheWork(s.d.c))
  {
    LP.LegalData(s, logical, pma, in_);
    LP.CacheClockHolds(s.d, logical, pma, LP.DataIn(s, in_));
    if !s.d.c.proc.Idle? { DR.WorkDecreases(s.d, pma, LP.DataIn(s, in_)); }
  }

  lemma FlushWork(s: LP.Sys, logical: Blocks, pma: DC.Pmas, in_: LP.SysIn)
    requires LP.Inv(s, logical, pma) && LP.Legal(s, pma, in_) && s.l.proc.FlushCache?
    ensures var (d', out) := DP.Step(s.d, pma, LP.DataIn(s, in_)); var port := LP.PortOf(out);
            && !port.Done? && !port.Fault?
            && (if DataWaits(s, in_) then port.Wait? && DR.Work(d'.c) == DR.Work(s.d.c)
                else port.Flushed? || DR.Work(d'.c) < DR.Work(s.d.c))
  {
    LP.LegalData(s, logical, pma, in_);
    LP.CacheClockHolds(s.d, logical, pma, LP.DataIn(s, in_));
    DR.WorkDecreases(s.d, pma, LP.DataIn(s, in_));
  }

  /** A clock of a command in progress, given the cache's part of it. */
  lemma JobClock(l: L.Lsu, in_: L.In, port: L.Port, c: DC.Cache, c': DC.Cache, waits: bool)
    requires (l.proc.CacheableRead? || l.proc.CacheableWrite? || l.proc.AmoExe?) && WP.CacheWork(c') <= 5 && !port.Flushed?
    requires L.RequestOf(l).NoRequest? ==> l.proc.AmoExe? && l.amoPhase.AmoAlu? && port.Wait?
    requires l.walker.proc.WIdle?
    requires !L.RequestOf(l).NoRequest? ==>
               if waits then port.Wait? && WP.CacheWork(c') == WP.CacheWork(c)
               else port.Done? || port.Fault? || WP.CacheWork(c') < WP.CacheWork(c)
    ensures var l' := L.Next(l, in_, port).0;
            LsuLeft(l', c') + (if waits then 0 else 1) <= LsuLeft(l, c) && !l'.proc.FlushCache? && !l'.proc.FlushTlb?
  {
  }

  /** What a clock does to the entry the fetch unit waits for. */
  lemma WaitKept(l: L.Lsu, in_: L.In, port: L.Port, vpn: Vpn)
    requires !l.proc.Idle? && !l.proc.FlushTlb? && !l.proc.PageTableWalk?
    ensures WalkLeft(L.Next(l, in_, port).0, vpn) == WalkLeft(l, vpn)
  {
    LT.TlbNext(l, in_, port);
    TickHits(l.tlb, vpn);
  }

  lemma {:induction false} SameFirst(a: seq<TlbEntry>, b: seq<TlbEntry>, vpn: Vpn)
    requires a == b
    ensures FirstMatch(a, vpn) == FirstMatch(b, vpn)
  {
  }

  lemma TickHits(t: Tlb, vpn: Vpn)
    ensures TlbHit(Tick(t), vpn) <==> TlbHit(t, vpn)
  {
    assert Tick(t).entries == t.entries;
  }

  /** How far a clock of a busy unit takes it; `h` and `h'` are what the fetch unit waits for. */
  ghost predicate Advances(l: L.Lsu, c: DC.Cache, l': L.Lsu, c': DC.Cache, vpn: Vpn, waits: bool, fault: bool) {
    var less := if waits then 0 else 1;
    && LsuLeft(l', c') + less <= LsuLeft(l, c)
    && (!fault ==> LsuLeft(l', c') + WalkLeft(l', vpn) + less <= LsuLeft(l, c) + WalkLeft(l, vpn))
  }

  lemma WalkAdvances(s: LP.Sys, logical: Blocks, pma: DC.Pmas, in_: LP.SysIn, vpn: Vpn)
    requires LP.Inv(s, logical, pma) && LP.Legal(s, pma, in_) && s.l.proc.PageTableWalk?
    requires WalksForFetch(s.l) ==> s.l.ptwVpn == vpn
    ensures var (s', out) := LP.Step(s, pma, in_);
            Advances(s.l, s.d.c, s'.l, s'.d.c, vpn, DataWaits(s, in_), out.fault.TlbPageFault?)
  {
    WP.WalkStep(s, logical, pma, in_);
    WP.WorkBounds(s.l, s.d.c);
    var (s', out) := LP.Step(s, pma, in_);
    LT.TlbNext(s.l, in_.core, LP.PortAt(s, pma, in_));
    if s'.l.proc.PageTableWalk? {
      assert !LT.WalkFinds(s.l);
      TickHits(s.l.tlb, vpn);
    }
  }

  lemma JobAdvances(s: LP.Sys, logical: Blocks, pma: DC.Pmas, in_: LP.SysIn, vpn: Vpn)
    requires LP.Inv(s, logical, pma) && LP.Legal(s, pma, in_)
    requires s.l.proc.CacheableRead? || s.l.proc.CacheableWrite? || s.l.proc.AmoExe?
    ensures var (s', out) := LP.Step(s, pma, in_);
            && Advances(s.l, s.d.c, s'.l, s'.d.c, vpn, DataWaits(s, in_), out.fault.TlbPageFault?)
            && !s'.l.proc.FlushCache? && !s'.l.proc.FlushTlb?
  {
    var (d', out) := DP.Step(s.d, pma, LP.DataIn(s, in_));
    if L.RequestOf(s.l).NoRequest? { QuietCache(s, logical, pma, in_); } else { RequestWork(s, logical, pma, in_); }
    JobClock(s.l, in_.core, LP.PortOf(out), s.d.c, d'.c, DataWaits(s, in_));
    WaitKept(s.l, in_.core, LP.PortOf(out), vpn);
  }

  lemma QuietCache(s: LP.Sys, logical: Blocks, pma: DC.Pmas, in_: LP.SysIn)
    requires LP.Inv(s, logical, pma) && LP.Legal(s, pma, in_) && L.RequestOf(s.l).NoRequest?
    requires !s.l.proc.FlushCache? && !s.l.proc.Idle?
    ensures var (d', out) := DP.Step(s.d, pma, LP.DataIn(s, in_));
            LP.PortOf(out).Wait? && d'.c.proc.Idle? && !DataWaits(s, in_)
  {
  }

  lemma FlushAdvances(s: LP.Sys, logical: Blocks, pma: DC.Pmas, in_: LP.SysIn, vpn: Vpn)
    requires LP.Inv(s, logical, pma) && LP.Legal(s, pma, in_) && s.l.proc.FlushCache?
    ensures var (s', out) := LP.Step(s, pma, in_);
            && Advances(s.l, s.d.c, s'.l, s'.d.c, vpn, DataWaits(s, in_), out.fault.TlbPageFault?)
            && !s'.l.proc.FlushTlb? && (s'.l.proc.FlushCache? || out.cacheFlushDone)
  {
    FlushWork(s, logical, pma, in_);
    WaitKept(s.l, in_.core, LP.PortAt(s, pma, in_), vpn);
  }

  lemma TlbFlushAdvances(s: LP.Sys, logical: Blocks, pma: DC.Pmas, in_: LP.SysIn, vpn: Vpn)
    requires LP.Inv(s, logical, pma) && LP.Legal(s, pma, in_) && s.l.proc.FlushTlb?
    ensures var (s', out) := LP.Step(s, pma, in_);
            && Advances(s.l, s.d.c, s'.l, s'.d.c, vpn, DataWaits(s, in_), out.fault.TlbPageFault?)
            && s'.l.proc.Idle? && out.tlbFlushDone
  {
  }

  /** A busy unit: its work falls unless it waits, and no flush it has not been asked for begins. */
  lemma BusyAdvances(s: LP.Sys, logical: Blocks, pma: DC.Pmas, in_: LP.SysIn, vpn: Vpn)
    requires LP.Inv(s, logical, pma) && LP.Legal(s, pma, in_) && !s.l.proc.Idle?
    requires WalksForFetch(s.l) ==> s.l.ptwVpn == vpn
    ensures var (s', out) := LP.Step(s, pma, in_);
            && Advances(s.l, s.d.c, s'.l, s'.d.c, vpn, DataWaits(s, in_), out.fault.TlbPageFault?)
            && (s.l.proc.FlushCache? ==> s'.l.proc.FlushCache? || out.cacheFlushDone)
            && (s.l.proc.FlushTlb? ==> out.tlbFlushDone)
  {
    if s.l.proc.PageTableWalk? { WalkAdvances(s, logical, pma, in_, vpn); }
    else if s.l.proc.FlushCache? { FlushAdvances(s, logical, pma, in_, vpn); }
    else if s.l.proc.FlushTlb? { TlbFlushAdvances(s, logical, pma, in_, vpn); }
    else { JobAdvances(s, logical, pma, in_, vpn); }
  }

  // ---- the unit idle ----

  /** An idle unit asked for a flush begins it and answers nothing else. */
  lemma FlushBegins(l: L.Lsu, in_: L.In, port: L.Port)
    requires l.proc.Idle? && (in_.cacheFlush || in_.tlbFlush) && !port.Fault?
    ensures var (l', out) := L.Next(l, in_, port);
            && l'.tlb == Tick(l.tlb) && out.pte.NoLeaf? && !out.fault.TlbPageFault?
            && (if in_.cacheFlush then l'.proc.FlushCache? else l'.proc.FlushTlb?)
  {
  }

  lemma CacheFlushBegins(s: LP.Sys, logical: Blocks, pma: DC.Pmas, in_: LP.SysIn)
    requires LP.Inv(s, logical, pma) && s.l.proc.Idle? && s.d.c.proc.Idle? && in_.core.cacheFlush
    ensures DR.Work(DP.Step(s.d, pma, LP.DataIn(s, in_)).0.c) <= 1025
  {
  }

  lemma IdleFlushes(s: LP.Sys, logical: Blocks, pma: DC.Pmas, in_: LP.SysIn)
    requires LP.Inv(s, logical, pma) && s.l.proc.Idle? && s.d.c.proc.Idle? && !LP.PortAt(s, pma, in_).Fault?
    requires in_.core.cacheFlush || in_.core.tlbFlush
    ensures var (s', out) := LP.Step(s, pma, in_);
            && s'.l.tlb == Tick(s.l.tlb) && !WalksForFetch(s'.l) && out.pte.NoLeaf? && !out.fault.TlbPageFault?
            && (in_.core.cacheFlush ==> s'.l.proc.FlushCache? && LsuLeft(s'.l, s'.d.c) <= 1026)
            && (!in_.core.cacheFlush ==> s'.l.proc.FlushTlb?)
  {
    FlushBegins(s.l, in_.core, LP.PortAt(s, pma, in_));
    if in_.core.cacheFlush { CacheFlushBegins(s, logical, pma, in_); }
  }

  lemma IdleServesFetch(l: L.Lsu, in_: L.In, port: L.Port, c': DC.Cache, vpn: Vpn)
    requires l.proc.Idle? && l.walker.proc.WIdle? && !in_.cacheFlush && !in_.tlbFlush && in_.cmd.NoCmd? && !port.Fault?
    ensures var (l', out) := L.Next(l, in_, port);
            && (in_.tlbRead.NoRead? ==> l'.proc.Idle?)
            && (in_.tlbRead == L.ReadTlb(vpn) ==>
                 if TlbHit(l.tlb, vpn) then l'.proc.Idle? && out.pte.Leaf?
                 else WalksForFetch(l') && LsuLeft(l', c') == 15 && WalkLeft(l', vpn) == 2 && WalkLeft(l, vpn) == 40)
  {
    TickHits(l.tlb, vpn);
  }

  // ---- the fetch unit ----

  /** A clock of the fetch unit with a fence in the memory stage. */
  lemma FetchAdvances(ic: IF.IFetch, done: Flags, op: Op, in_: IF.IIn, block: Line)
    requires !op.DataOp? && in_.invalidate == !done.icInvalid && in_.tlbFlush == (op.SfenceVma? && !done.icTlb)
    requires done.icInvalid ==> !in_.read && (ic.proc.Idle? || (op.SfenceVma? && ic.proc.FlushTlb? && !done.icTlb))
    requires ic.proc.PageTableWalk? ==> !in_.walk.WalkAccessFault?
    ensures var (ic', out) := IF.Next(ic, in_, block);
            var done' := done.(icInvalid := done.icInvalid || out.invalidateDone, icTlb := done.icTlb || out.tlbFlushDone);
            && FetchLeft(ic', done', op) <= FetchLeft(ic, done, op)
            && (ic'.proc.PageTableWalk? ==> ic.proc.PageTableWalk? && ic'.walkVpn == ic.walkVpn && in_.walk.NoAnswer?)
            && (FetchLeft(ic', done', op) < FetchLeft(ic, done, op)
                || (ic.proc.PageTableWalk? && in_.walk.NoAnswer?) || (ic.proc.Allocate? && !in_.memReady)
                || (done.icInvalid && (op.SfenceVma? ==> done.icTlb)))
            && (ic.proc.PageTableWalk? && !in_.walk.NoAnswer?
                ==> ic'.proc.Idle? && FetchLeft(ic', done', op) + 4 <= FetchLeft(ic, done, op))
  {
  }

  // ---- the core ----

  /** What the flags stand for, as far as progress needs it. */
  predicate FlagsOk(ic: IF.IFetch, done: Flags, op: Op) {
    done.icInvalid ==> ic.proc.Idle? || (op.SfenceVma? && ic.proc.FlushTlb? && !done.icTlb)
  }

  /** An idle unit's cache is idle and silent. */
  lemma IdleCache(s: LP.Sys, logical: Blocks, pma: DC.Pmas, in_: LP.SysIn)
    requires LP.Inv(s, logical, pma) && s.l.proc.Idle?
    ensures s.d.c.proc.Idle? && !LP.PortAt(s, pma, in_).Fault?
  {
    LP.CacheFaultIsEmpty(s.d, pma, LP.DataIn(s, in_));
  }

  lemma AccessFaults(l: L.Lsu, in_: L.In, port: L.Port)
    ensures L.Next(l, in_, port).1.fault.TlbAccessFault? ==> l.walker.proc.WWalk? && port.Fault?
  {
  }

  /** Page tables are in existing memory. */
  lemma NoAccessFault(s: LP.Sys, logical: Blocks, pma: DC.Pmas, in_: LP.SysIn)
    requires LP.Inv(s, logical, pma) && LP.Legal(s, pma, in_)
    ensures !LP.Step(s, pma, in_).1.fault.TlbAccessFault?
  {
    AccessFaults(s.l, in_.core, LP.PortAt(s, pma, in_));
    LP.CacheFaultIsEmpty(s.d, pma, LP.DataIn(s, in_));
  }

  /** The load/store unit's and the waiting walk's share of a clock, when the fetch unit goes on waiting. */
  ghost function DataShare(s: LP.Sys, done: Flags, op: Op): nat { LsuLeft(s.l, s.d.c) + Pending(s.l, done, op) }

  ghost function DataFlags(done: Flags, data: L.Out): Flags {
    done.(lsuCache := done.lsuCache || data.cacheFlushDone, lsuTlb := done.lsuTlb || data.tlbFlushDone)
  }

  lemma BusyShare(s: LP.Sys, logical: Blocks, pma: DC.Pmas, ic: IF.IFetch, done: Flags, in_: CoreIn)
    requires LP.Inv(s, logical, pma) && LP.Legal(s, pma, DataIn(ic, done, in_)) && Waiting(s.l, ic) && !s.l.proc.Idle?
    requires !in_.op.DataOp?
    ensures var din := DataIn(ic, done, in_); var (s', data) := LP.Step(s, pma, din);
            var less := if DataWaits(s, din) then 0 else 1;
            && DataShare(s', DataFlags(done, data), in_.op) + less <= DataShare(s, done, in_.op)
            && (!data.fault.TlbPageFault? ==>
                 DataShare(s', DataFlags(done, data), in_.op) + WalkLeft(s'.l, ic.walkVpn) + less
                 <= DataShare(s, done, in_.op) + WalkLeft(s.l, ic.walkVpn))
  {
    var din := DataIn(ic, done, in_);
    BusyAdvances(s, logical, pma, din, ic.walkVpn);
    var (s', data) := LP.Step(s, pma, din);
    assert Pending(s'.l, DataFlags(done, data), in_.op) <= Pending(s.l, done, in_.op);
  }

  lemma IdleFlushShare(s: LP.Sys, logical: Blocks, pma: DC.Pmas, ic: IF.IFetch, done: Flags, in_: CoreIn)
    requires LP.Inv(s, logical, pma) && LP.Legal(s, pma, DataIn(ic, done, in_)) && s.l.proc.Idle?
    requires (in_.op.FenceI? && !done.lsuCache) || (in_.op.SfenceVma? && !done.lsuTlb)
    ensures var (s', data) := LP.Step(s, pma, DataIn(ic, done, in_));
            && DataShare(s', DataFlags(done, data), in_.op) + 1 <= DataShare(s, done, in_.op)
            && WalkLeft(s'.l, ic.walkVpn) == WalkLeft(s.l, ic.walkVpn) && AnswerOf(data).NoAnswer?
  {
    IdleCache(s, logical, pma, DataIn(ic, done, in_));
    IdleFlushes(s, logical, pma, DataIn(ic, done, in_));
    TickHits(s.l.tlb, ic.walkVpn);
  }

  lemma IdleServeShare(s: LP.Sys, logical: Blocks, pma: DC.Pmas, ic: IF.IFetch, done: Flags, in_: CoreIn)
    requires LP.Inv(s, logical, pma) && LP.Legal(s, pma, DataIn(ic, done, in_)) && s.l.proc.Idle?
    requires (in_.op.FenceI? && done.lsuCache) || (in_.op.SfenceVma? && done.lsuTlb)
    ensures var (s', data) := LP.Step(s, pma, DataIn(ic, done, in_));
            if !ic.proc.PageTableWalk? then DataShare(s', DataFlags(done, data), in_.op) == 0
            else if AnswerOf(data).NoAnswer? then
              DataShare(s', DataFlags(done, data), in_.op) + WalkLeft(s'.l, ic.walkVpn) + 1
              <= DataShare(s, done, in_.op) + WalkLeft(s.l, ic.walkVpn)
            else DataShare(s', DataFlags(done, data), in_.op) == 0
  {
    var din := DataIn(ic, done, in_);
    IdleCache(s, logical, pma, din);
    IdleServesFetch(s.l, din.core, LP.PortAt(s, pma, din), LP.Step(s, pma, din).0.d.c, ic.walkVpn);
  }

  /** The fetch unit's share of a clock: `f` is what is left to it. */
  predicate FetchShare(ic: IF.IFetch, ic': IF.IFetch, f: nat, f': nat, answered: bool, blocked: bool) {
    && f' <= f
    && (ic'.proc.PageTableWalk? ==> ic.proc.PageTableWalk? && ic'.walkVpn == ic.walkVpn && !answered)
    && (f' < f || blocked || (ic.proc.PageTableWalk? && !answered))
    && (ic.proc.PageTableWalk? && answered ==> ic'.proc.Idle? && f' + 4 <= f)
  }

  /** Nothing for the fetch unit to do but wait for memory, or nothing at all. */
  predicate Blocked(ic: IF.IFetch, done: Flags, in_: CoreIn) {
    FillWaits(ic, in_) || (done.icInvalid && (in_.op.SfenceVma? ==> done.icTlb))
  }

  /** The fetch unit's inputs while a fence is in the memory stage. */
  lemma FetchInput(c: Core, pma: DC.Pmas, in_: CoreIn, data: L.Out)
    requires Legal(c, pma, in_) && !in_.op.DataOp? && FlagsOk(c.ic, c.done, in_.op) && !data.fault.TlbAccessFault?
    ensures var fetchIn := FetchIn(c.done, in_, data);
            && fetchIn.invalidate == !c.done.icInvalid && fetchIn.tlbFlush == (in_.op.SfenceVma? && !c.done.icTlb)
            && (c.done.icInvalid ==> !fetchIn.read) && !fetchIn.walk.WalkAccessFault?
            && fetchIn.memReady == in_.fillReady && fetchIn.walk == AnswerOf(data)
  {
  }

  lemma FetchUnitClock(ic: IF.IFetch, done: Flags, in_: CoreIn, data: L.Out, fetchIn: IF.IIn)
    requires !in_.op.DataOp? && FlagsOk(ic, done, in_.op)
    requires fetchIn.invalidate == !done.icInvalid && fetchIn.tlbFlush == (in_.op.SfenceVma? && !done.icTlb)
    requires (done.icInvalid ==> !fetchIn.read) && !fetchIn.walk.WalkAccessFault?
    requires fetchIn.memReady == in_.fillReady && fetchIn.walk == AnswerOf(data)
    ensures var (ic', out) := IF.Next(ic, fetchIn, in_.block);
            var done' := done.(icInvalid := done.icInvalid || out.invalidateDone, icTlb := done.icTlb || out.tlbFlushDone);
            FetchShare(ic, ic', FetchLeft(ic, done, in_.op), FetchLeft(ic', done', in_.op), !AnswerOf(data).NoAnswer?,
                       Blocked(ic, done, in_))
  {
    FetchAdvances(ic, done, in_.op, fetchIn, in_.block);
  }

  lemma FetchClock(m: Moment, pma: DC.Pmas, in_: CoreIn)
    requires Inv(m, pma) && Legal(m.c, pma, in_) && !in_.op.DataOp? && !Retires(m.c.done, in_.op)
    requires FlagsOk(m.c.ic, m.c.done, in_.op)
    ensures var n := Next(m, pma, in_).c; var data := LP.Step(m.c.s, pma, DataIn(m.c.ic, m.c.done, in_)).1;
            FetchShare(m.c.ic, n.ic, FetchLeft(m.c.ic, m.c.done, in_.op), FetchLeft(n.ic, n.done, in_.op),
                       !AnswerOf(data).NoAnswer?, Blocked(m.c.ic, m.c.done, in_))
  {
    var ic, done, op := m.c.ic, m.c.done, in_.op;
    var (s', data) := LP.Step(m.c.s, pma, DataIn(ic, done, in_));
    var fetchIn := FetchIn(done, in_, data);
    NoAccessFault(m.c.s, m.logical, pma, DataIn(ic, done, in_));
    FetchInput(m.c, pma, in_, data);
    FetchUnitClock(ic, done, in_, data, fetchIn);
    var (ic', out) := IF.Next(ic, fetchIn, in_.block);
    DoneMatters(s'.l, done, data, out, op);
    FetchFlags(ic', FlagsAfter(done, op, data, out),
               done.(icInvalid := done.icInvalid || out.invalidateDone, icTlb := done.icTlb || out.tlbFlushDone), op);
  }

  lemma FetchFlags(ic: IF.IFetch, d: Flags, e: Flags, op: Op)
    requires d.icInvalid == e.icInvalid && d.icTlb == e.icTlb
    ensures FetchLeft(ic, d, op) == FetchLeft(ic, e, op)
  {
  }

  lemma DataFlagsMatter(c: Core, pma: DC.Pmas, in_: CoreIn)
    requires !Retires(c.done, in_.op)
    ensures var n := Step(c, pma, in_).0; var data := LP.Step(c.s, pma, DataIn(c.ic, c.done, in_)).1;
            DataShare(n.s, n.done, in_.op) == DataShare(n.s, DataFlags(c.done, data), in_.op)
  {
    var (s', data) := LP.Step(c.s, pma, DataIn(c.ic, c.done, in_));
    DoneMatters(s'.l, c.done, data, IF.Next(c.ic, FetchIn(c.done, in_, data), in_.block).1, in_.op);
  }

  function Sum(q: nat, f: nat, w: nat, walks: bool): nat { q + f + if walks then w else 0 }

  lemma LeftIs(c: Core, op: Op)
    ensures Left(c, op) == Sum(DataShare(c.s, c.done, op), FetchLeft(c.ic, c.done, op), WalkLeft(c.s.l, c.ic.walkVpn),
                               c.ic.proc.PageTableWalk?)
  {
  }

  /** The two shares of a clock together. */
  lemma SharesAdd(ic: IF.IFetch, ic': IF.IFetch, q: nat, q': nat, f: nat, f': nat, w: nat, w': nat, answered: bool,
                  blocked: bool, less: nat)
    requires FetchShare(ic, ic', f, f', answered, blocked) && less <= 1 && w > 0
    requires if ic.proc.PageTableWalk? && !answered then q' + w' + less <= q + w else q' + less <= q || (q' <= q && f' < f)
    ensures Sum(q', f', w', ic'.proc.PageTableWalk?) + less <= Sum(q, f, w, ic.proc.PageTableWalk?)
  {
  }

  /** Every clock not spent waiting at either port brings the fence nearer to its end, and a waiting one
      takes it no further from it. */
  lemma LeftFalls(m: Moment, pma: DC.Pmas, in_: CoreIn)
    requires Inv(m, pma) && Legal(m.c, pma, in_) && !in_.op.DataOp? && !Retires(m.c.done, in_.op)
    requires FlagsOk(m.c.ic, m.c.done, in_.op)
    ensures Left(Next(m, pma, in_).c, in_.op) + (if Waits(m.c, in_) then 0 else 1) <= Left(m.c, in_.op)
  {
    var c, n, op := m.c, Next(m, pma, in_).c, in_.op;
    var data := LP.Step(c.s, pma, DataIn(c.ic, c.done, in_)).1;
    var less := if Waits(c, in_) then 0 else 1;
    FetchClock(m, pma, in_);
    DataClock(m, pma, in_);
    LeftIs(c, op);
    LeftIs(n, op);
    if n.ic.proc.PageTableWalk? { assert n.ic.walkVpn == c.ic.walkVpn; }
    SharesAdd(c.ic, n.ic, DataShare(c.s, c.done, op), DataShare(n.s, n.done, op), FetchLeft(c.ic, c.done, op),
              FetchLeft(n.ic, n.done, op), WalkLeft(c.s.l, c.ic.walkVpn), WalkLeft(n.s.l, c.ic.walkVpn),
              !AnswerOf(data).NoAnswer?, Blocked(c.ic, c.done, in_), less);
  }

  /** The load/store unit's share, against the fetch unit's. */
  lemma DataClock(m: Moment, pma: DC.Pmas, in_: CoreIn)
    requires Inv(m, pma) && Legal(m.c, pma, in_) && !in_.op.DataOp? && !Retires(m.c.done, in_.op)
    requires FlagsOk(m.c.ic, m.c.done, in_.op)
    ensures var c, n, op := m.c, Next(m, pma, in_).c, in_.op;
            var data := LP.Step(c.s, pma, DataIn(c.ic, c.done, in_)).1;
            var less := if Waits(c, in_) then 0 else 1;
            var q, q' := DataShare(c.s, c.done, op), DataShare(n.s, n.done, op);
            if c.ic.proc.PageTableWalk? && AnswerOf(data).NoAnswer? then
              q' + WalkLeft(n.s.l, c.ic.walkVpn) + less <= q + WalkLeft(c.s.l, c.ic.walkVpn)
            else q' + less <= q || (q' <= q && FetchLeft(n.ic, n.done, op) < FetchLeft(c.ic, c.done, op))
  {
    var c, op := m.c, in_.op;
    FetchClock(m, pma, in_);
    DataFlagsMatter(c, pma, in_);
    if !c.s.l.proc.Idle? {
      BusyShare(c.s, m.logical, pma, c.ic, c.done, in_);
    } else if (op.FenceI? && !c.done.lsuCache) || (op.SfenceVma? && !c.done.lsuTlb) {
      IdleFlushShare(c.s, m.logical, pma, c.ic, c.done, in_);
    } else {
      IdleServeShare(c.s, m.logical, pma, c.ic, c.done, in_);
    }
  }

  /** The two units look at their own flags only. */
  lemma DoneMatters(l: L.Lsu, done: Flags, data: L.Out, fetch: IF.IOut, op: Op)
    requires !Retires(done, op)
    ensures var d := FlagsAfter(done, op, data, fetch);
            && Pending(l, d, op) == Pending(l, DataFlags(done, data), op)
            && d.icInvalid == (done.icInvalid || fetch.invalidateDone) && d.icTlb == (done.icTlb || fetch.tlbFlushDone)
  {
  }

  // ---- runs ----

  ghost function Waited(m: Moment, pma: DC.Pmas, ins: seq<CoreIn>): nat
    decreases |ins|
  {
    if ins == [] then 0 else (if Waits(m.c, ins[0]) then 1 else 0) + Waited(Next(m, pma, ins[0]), pma, ins[1..])
  }

  /** Clock k of a run finds the fence able to retire. */
  ghost predicate RetiresAt(m: Moment, pma: DC.Pmas, op: Op, ins: seq<CoreIn>, k: nat) {
    k <= |ins| && Retires(Run(m, pma, ins[..k]).c.done, op)
  }

  lemma RetiresLater(m: Moment, pma: DC.Pmas, op: Op, ins: seq<CoreIn>, k: nat)
    requires ins != [] && RetiresAt(Next(m, pma, ins[0]), pma, op, ins[1..], k)
    ensures RetiresAt(m, pma, op, ins, k + 1)
  {
    assert ins[..k + 1][1..] == ins[1..][..k];
  }

  ghost predicate Asserts(ins: seq<CoreIn>, op: Op) { forall k | 0 <= k < |ins| :: ins[k].op == op }

  /** What fence.i and sfence.vma keep while they are asserted, whichever it is. */
  ghost predicate Kept(m: Moment, op: Op) {
    if op.FenceI? then FenceIInv(m) else Emptied(m.c.ic, m.c.done)
  }

  lemma KeptStep(m: Moment, pma: DC.Pmas, in_: CoreIn)
    requires Inv(m, pma) && Legal(m.c, pma, in_) && !in_.op.DataOp? && Kept(m, in_.op) && !Retires(m.c.done, in_.op)
    ensures Kept(Next(m, pma, in_), in_.op)
  {
    if in_.op.FenceI? { FenceIStep(m, pma, in_); } else { EmptiedClock(m, pma, in_); }
  }

  lemma EmptiedClock(m: Moment, pma: DC.Pmas, in_: CoreIn)
    requires Inv(m, pma) && Legal(m.c, pma, in_) && in_.op.SfenceVma? && !Retires(m.c.done, SfenceVma)
    requires Emptied(m.c.ic, m.c.done)
    ensures var n := Next(m, pma, in_); Emptied(n.c.ic, n.c.done)
  {
    var data := LP.Step(m.c.s, pma, DataIn(m.c.ic, m.c.done, in_)).1;
    EmptiedStep(m.c.ic, m.c.done, FetchIn(m.c.done, in_, data), in_.block);
  }

  lemma KeptFlags(m: Moment, op: Op)
    requires Kept(m, op) && !op.DataOp?
    ensures FlagsOk(m.c.ic, m.c.done, op)
  {
  }

  /** A fence with enough clocks left to retire. */
  ghost predicate Ending(m: Moment, pma: DC.Pmas, op: Op, ins: seq<CoreIn>) {
    && Inv(m, pma) && Kept(m, op) && !op.DataOp? && Asserts(ins, op) && LegalRun(m.c, pma, ins)
    && Waited(m, pma, ins) + Left(m.c, op) <= |ins|
  }

  lemma EndingStep(m: Moment, pma: DC.Pmas, op: Op, ins: seq<CoreIn>)
    requires Ending(m, pma, op, ins) && !Retires(m.c.done, op)
    ensures ins != [] && Ending(Next(m, pma, ins[0]), pma, op, ins[1..])
  {
    KeptFlags(m, op);
    NotDoneYet(m.c, op);
    LeftFalls(m, pma, ins[0]);
    InvStep(m, pma, ins[0]);
    KeptStep(m, pma, ins[0]);
  }

  lemma RetiresNow(m: Moment, pma: DC.Pmas, op: Op, ins: seq<CoreIn>)
    requires Retires(m.c.done, op)
    ensures RetiresAt(m, pma, op, ins, 0)
  {
    assert ins[..0] == [] && Run(m, pma, []) == m;
  }

  lemma {:induction false} Ends(m: Moment, pma: DC.Pmas, op: Op, ins: seq<CoreIn>) returns (k: nat)
    requires Ending(m, pma, op, ins)
    ensures RetiresAt(m, pma, op, ins, k)
    decreases |ins|
  {
    if Retires(m.c.done, op) {
      k := 0;
      RetiresNow(m, pma, op, ins);
    } else {
      EndingStep(m, pma, op, ins);
      k := Ends(Next(m, pma, ins[0]), pma, op, ins[1..]);
      RetiresLater(m, pma, op, ins, k);
      k := k + 1;
    }
  }

  /** A fence that has not retired has work left. */
  lemma NotDoneYet(c: Core, op: Op)
    requires !op.DataOp? && !Retires(c.done, op) && FlagsOk(c.ic, c.done, op)
    ensures Left(c, op) > 0
  {
    WP.WorkBounds(c.s.l, c.s.d.c);
    DR.WorkBound(c.s.d.c);
  }

  lemma LsuLeftBound(l: L.Lsu, c: DC.Cache)
    requires (l.walker.proc.WWalk? || l.walker.proc.WCheck? ==> l.walker.level <= 1)
    ensures LsuLeft(l, c) <= 1100
  {
    DR.WorkBound(c);
  }

  /** The work is bounded, whatever the state. */
  lemma LeftBound(m: Moment, pma: DC.Pmas, op: Op)
    requires Inv(m, pma)
    ensures Left(m.c, op) <= 2700
  {
    LsuLeftBound(m.c.s.l, m.c.s.d.c);
  }

  /** fence.i and sfence.vma retire from any reachable state with clear flags, if asserted for long enough:
      once 2700 clocks have passed in which neither port waits for memory. */
  lemma FencesRetire(m: Moment, pma: DC.Pmas, op: Op, ins: seq<CoreIn>) returns (k: nat)
    requires Inv(m, pma) && m.c.done == CLEAR && !op.DataOp? && Asserts(ins, op) && LegalRun(m.c, pma, ins)
    requires Waited(m, pma, ins) + 2700 <= |ins|
    ensures RetiresAt(m, pma, op, ins, k)
  {
    LeftBound(m, pma, op);
    k := Ends(m, pma, op, ins);
  }
}
