/** A command that is held ends: it is answered, or faults. */
module CommandProgress {
  import opened Words
  import opened Memory
  import opened Paging
  import opened Translation
  import opened LoadStore
  import opened LoadStoreProof
  import LT = LoadStoreTranslation
  import LR = LoadStoreResults
  import WP = WalkProgress
  import FP = FenceProgress
  import DC = DataCache
  import DP = DataCacheProof

  predicate Served(out: Out) { out.ready || (!out.fault.NoFault? && !out.fault.TlbPageFault? && !out.fault.TlbAccessFault?) }

  /** The same command in the same mode, and no fence. */
  predicate Holds(i: In, in_: In) {
    in_.cmd == i.cmd && in_.csr == i.csr && !in_.cacheFlush && !in_.tlbFlush
  }

  predicate Translated(i: In) { i.csr.paging && !i.csr.mode.priv.Machine? }

  /** The command can be looked up at once. */
  ghost predicate Known(l: Lsu, i: In)
    requires !i.cmd.NoCmd?
  {
    Translated(i) ==> LT.Cached(l.tlb, LT.VaOf(i.cmd).block.tag)
  }

  predicate OwnWalk(l: Lsu, i: In)
    requires !i.cmd.NoCmd?
  {
    l.proc.PageTableWalk? && !l.ptwFor.ForFetch? && l.ptwVpn == LT.VaOf(i.cmd).block.tag
  }

  /** Clocks a held command still needs, not counting those spent waiting for memory: its own work, its
      walk, or whatever the unit is busy with first. */
  ghost function Need(s: Sys, i: In): nat
    requires !i.cmd.NoCmd?
  {
    if s.job.Doing? then FP.LsuLeft(s.l, s.d.c)
    else if s.l.proc.Idle? then if Known(s.l, i) then 20 else 100
    else if OwnWalk(s.l, i) then WP.WalkWork(s.l, s.d.c) + 25
    else FP.LsuLeft(s.l, s.d.c) + 110
  }

  lemma JobWork(l: Lsu, job: Job, c: DC.Cache)
    requires JobOk(l, job) && job.Doing?
    ensures FP.LsuLeft(l, c) <= 7 + WP.CacheWork(c) && (l.proc.CacheableRead? || l.proc.CacheableWrite? || l.proc.AmoExe?)
    ensures l.proc.AmoExe? && !l.amoPhase.AmoRead? ==> FP.LsuLeft(l, c) <= 6 + WP.CacheWork(c)
  {
  }

  /** A command in progress. */
  lemma JobFalls(s: Sys, logical: Blocks, pma: DC.Pmas, in_: SysIn, i: In)
    requires Inv(s, logical, pma) && Legal(s, pma, in_) && Holds(i, in_.core) && !i.cmd.NoCmd? && s.job.Doing?
    ensures var (s', out) := Step(s, pma, in_);
            !Served(out) ==> Need(s', i) + (if FP.DataWaits(s, in_) then 0 else 1) <= Need(s, i)
  {
    JobWork(s.l, s.job, s.d.c);
    FP.JobAdvances(s, logical, pma, in_, s.l.ptwVpn);
    LR.AccessFaultsExactly(s, logical, pma, in_);
  }

  lemma IdleTakes(s: Sys, logical: Blocks, pma: DC.Pmas, in_: SysIn, i: In)
    requires Inv(s, logical, pma) && Legal(s, pma, in_) && Holds(i, in_.core) && !i.cmd.NoCmd? && s.l.proc.Idle?
    ensures var (s', out) := Step(s, pma, in_);
            !Served(out) ==>
              if Known(s.l, i) then s'.job.Doing? && FP.LsuLeft(s'.l, s'.d.c) <= 12
              else OwnWalk(s'.l, i) && s'.job.NoJob? && WP.WalkWork(s'.l, s'.d.c) == 15
  {
    FP.IdleCache(s, logical, pma, in_);
    IdleLookup(s.l, in_.core, PortAt(s, pma, in_));
    LT.CachedHits(s.l.tlb, LT.VaOf(i.cmd).block.tag);
    var (s', out) := Step(s, pma, in_);
    if s'.job.Doing? {
      InvStep(s, logical, pma, in_);
      JobWork(s'.l, s'.job, s'.d.c);
      assert s'.d.c.proc.Idle?;
    }
  }

  /** What an idle unit does with a command. */
  lemma IdleLookup(l: Lsu, in_: In, port: Port)
    requires l.proc.Idle? && l.walker.proc.WIdle? && l.amoPhase.AmoRead? && !in_.cmd.NoCmd? && !in_.cacheFlush && !in_.tlbFlush
    requires !port.Fault?
    ensures var (l', out) := Next(l, in_, port); var va := LT.VaOf(in_.cmd);
            var on := in_.csr.paging && !in_.csr.mode.priv.Machine?;
            var job := JobAfter(Accepted(l, in_), out);
            && (!on || TlbHit(l.tlb, va.block.tag) ==> Served(out) || job.Doing?)
            && (on && !TlbHit(l.tlb, va.block.tag) ==>
                 l'.proc.PageTableWalk? && !l'.ptwFor.ForFetch? && l'.ptwVpn == va.block.tag && l'.walker.proc.WIdle? && job.NoJob?)
  {
    match TranslateVa(l.tlb, in_.csr, LT.VaOf(in_.cmd), LT.KindOfCmd(in_.cmd))
    case Physical(pa) => LT.TakesThus(l, in_, port, pa);
    case _ => LT.WalksThus(l, in_, port);
  }

  lemma IdleFalls(s: Sys, logical: Blocks, pma: DC.Pmas, in_: SysIn, i: In)
    requires Inv(s, logical, pma) && Legal(s, pma, in_) && Holds(i, in_.core) && !i.cmd.NoCmd? && s.l.proc.Idle?
    ensures var (s', out) := Step(s, pma, in_); !Served(out) ==> Need(s', i) + 1 <= Need(s, i)
  {
    IdleTakes(s, logical, pma, in_, i);
  }

  lemma WalkFalls(s: Sys, logical: Blocks, pma: DC.Pmas, in_: SysIn, i: In)
    requires Inv(s, logical, pma) && Legal(s, pma, in_) && Holds(i, in_.core) && !i.cmd.NoCmd? && OwnWalk(s.l, i)
    ensures var (s', out) := Step(s, pma, in_);
            !Served(out) ==> Need(s', i) + (if FP.DataWaits(s, in_) then 0 else 1) <= Need(s, i)
  {
    WP.WalkStep(s, logical, pma, in_);
    WP.WorkBounds(s.l, s.d.c);
    InvStep(s, logical, pma, in_);
    var s' := Step(s, pma, in_).0;
    LT.CachedHits(s'.l.tlb, s.l.ptwVpn);
    WalkKeepsFor(s.l, in_.core, PortAt(s, pma, in_));
  }

  lemma WalkKeepsFor(l: Lsu, in_: In, port: Port)
    requires l.proc.PageTableWalk?
    ensures var l' := Next(l, in_, port).0;
            l'.proc.PageTableWalk? || l'.proc.Idle?
  {
  }

  lemma OtherFalls(s: Sys, logical: Blocks, pma: DC.Pmas, in_: SysIn, i: In)
    requires Inv(s, logical, pma) && Legal(s, pma, in_) && Holds(i, in_.core) && !i.cmd.NoCmd?
    requires s.job.NoJob? && !s.l.proc.Idle? && !OwnWalk(s.l, i)
    ensures var (s', out) := Step(s, pma, in_);
            !Served(out) ==> Need(s', i) + (if FP.DataWaits(s, in_) then 0 else 1) <= Need(s, i)
  {
    FP.BusyAdvances(s, logical, pma, in_, s.l.ptwVpn);
    OtherStays(s.l, in_.core, PortAt(s, pma, in_), s.job);
    BusyWork(s.l, s.d.c);
  }

  lemma BusyWork(l: Lsu, c: DC.Cache)
    requires !l.proc.Idle? && (l.walker.proc.WIdle? || l.walker.level <= 1)
    requires !l.proc.CacheableRead? && !l.proc.CacheableWrite? && !l.proc.AmoExe?
    ensures FP.LsuLeft(l, c) > 0
  {
    WP.WorkBounds(l, c);
  }

  /** A unit busy with something else takes no command. */
  lemma OtherStays(l: Lsu, in_: In, port: Port, job: Job)
    requires JobOk(l, job) && job.NoJob? && !l.proc.Idle?
    ensures var (l', out) := Next(l, in_, port);
            && JobAfter(Current(l, job, in_), out).NoJob?
            && (l'.proc == l.proc || l'.proc.Idle?) && l'.ptwVpn == l.ptwVpn && l'.ptwFor == l.ptwFor
  {
  }

  /** Every clock not spent waiting for memory brings a held command nearer to its end. */
  lemma NeedFalls(s: Sys, logical: Blocks, pma: DC.Pmas, in_: SysIn, i: In)
    requires Inv(s, logical, pma) && Legal(s, pma, in_) && Holds(i, in_.core) && !i.cmd.NoCmd?
    ensures var (s', out) := Step(s, pma, in_);
            !Served(out) ==> Need(s', i) + (if FP.DataWaits(s, in_) then 0 else 1) <= Need(s, i)
  {
    if s.job.Doing? { JobFalls(s, logical, pma, in_, i); }
    else if s.l.proc.Idle? { IdleFalls(s, logical, pma, in_, i); }
    else if OwnWalk(s.l, i) { WalkFalls(s, logical, pma, in_, i); }
    else { OtherFalls(s, logical, pma, in_, i); }
  }

  // ---- runs ----

  ghost function Waited(s: Sys, pma: DC.Pmas, ins: seq<SysIn>): nat
    decreases |ins|
  {
    if ins == [] then 0 else (if FP.DataWaits(s, ins[0]) then 1 else 0) + Waited(Step(s, pma, ins[0]).0, pma, ins[1..])
  }

  ghost predicate ServedAt(s: Sys, pma: DC.Pmas, ins: seq<SysIn>, k: nat) {
    k < |ins| && Served(Step(LR.RunTo(s, pma, ins[..k]), pma, ins[k]).1)
  }

  lemma ServedLater(s: Sys, pma: DC.Pmas, ins: seq<SysIn>, k: nat)
    requires ins != [] && ServedAt(Step(s, pma, ins[0]).0, pma, ins[1..], k)
    ensures ServedAt(s, pma, ins, k + 1)
  {
    assert ins[..k + 1][1..] == ins[1..][..k];
  }

  lemma ServedNow(s: Sys, pma: DC.Pmas, ins: seq<SysIn>)
    requires ins != [] && Served(Step(s, pma, ins[0]).1)
    ensures ServedAt(s, pma, ins, 0)
  {
    assert ins[..0] == [] && LR.RunTo(s, pma, []) == s;
  }

  lemma NeedBound(s: Sys, logical: Blocks, pma: DC.Pmas, i: In)
    requires Inv(s, logical, pma) && !i.cmd.NoCmd?
    ensures Need(s, i) <= 1210
  {
    FP.LsuLeftBound(s.l, s.d.c);
  }

  lemma NeedIsPositive(s: Sys, logical: Blocks, pma: DC.Pmas, i: In)
    requires Inv(s, logical, pma) && !i.cmd.NoCmd?
    ensures Need(s, i) > 0
  {
    if s.job.Doing? { JobIsWork(s, logical, pma); }
  }

  lemma JobIsWork(s: Sys, logical: Blocks, pma: DC.Pmas)
    requires Inv(s, logical, pma) && s.job.Doing?
    ensures FP.LsuLeft(s.l, s.d.c) > 0
  {
  }

  /** From any reachable state, a command held without a fence is answered, or faults, once 1210 clocks have
      passed in which the cache does not wait for memory. */
  lemma {:induction false} CommandEnds(s: Sys, logical: Blocks, pma: DC.Pmas, i: In, ins: seq<SysIn>) returns (k: nat)
    requires Inv(s, logical, pma) && LR.LegalRun(s, pma, ins) && !i.cmd.NoCmd?
    requires forall j | 0 <= j < |ins| :: Holds(i, ins[j].core)
    requires Waited(s, pma, ins) + Need(s, i) <= |ins|
    ensures ServedAt(s, pma, ins, k)
    decreases |ins|
  {
    NeedIsPositive(s, logical, pma, i);
    NeedFalls(s, logical, pma, ins[0], i);
    var (s', out) := Step(s, pma, ins[0]);
    if Served(out) {
      k := 0;
      ServedNow(s, pma, ins);
    } else {
      InvStep(s, logical, pma, ins[0]);
      k := CommandEnds(s', After(s, logical, pma, ins[0]), pma, i, ins[1..]);
      ServedLater(s, pma, ins, k);
      k := k + 1;
    }
  }
}
