/** What the data cache promises from power-on: flat memory, complete flushes, progress. */
module DataCacheResults {
  import opened Words
  import opened Memory
  import opened DataCache
  import opened DataCacheProof

  /** After configuration: valid and dirty bits clear, no state active, nothing asked. */
  ghost predicate PowerOn(s: Sys) {
    && s.c.proc.Idle? && s.c.flushCnt == 0 && s.pend.NoRequest?
    && forall i: Index :: var w := s.c.sets[i]; !w.e0.valid && !w.e0.dirty && !w.e1.valid && !w.e1.dirty
  }

  lemma PowerOnInv(s: Sys, pma: Pmas)
    requires PowerOn(s)
    ensures Inv(s, s.mem, pma)
  {
  }

  /** In every run, with any memory delays, any attributes and any outcome of the double write
      outside flushes, every load returns what flat byte memory holds. */
  lemma CacheIsFlatMemory(s: Sys, pma: Pmas, ins: seq<In>)
    requires PowerOn(s) && LegalRun(s, pma, ins)
    ensures WellFormed(Trace(s, pma, ins)) && FlatAnswers(FlatOf(s.mem), Trace(s, pma, ins))
  {
    PowerOnInv(s, pma);
    var final := RunRefines(s, s.mem, pma, ins);
  }

  /** Whenever a flush reports done, however many came before, the memory behind the cache is
      the flat memory the answered stores have made. */
  lemma FlushEndsSynced(s: Sys, pma: Pmas, ins: seq<In>, last: In)
    requires PowerOn(s) && LegalRun(s, pma, ins)
    requires Legal(RunTo(s, pma, ins), last) && Step(RunTo(s, pma, ins), pma, last).1.flushDone
    ensures WellFormed(Trace(s, pma, ins))
    ensures FlatOf(Step(RunTo(s, pma, ins), pma, last).0.mem) == FlatAfter(FlatOf(s.mem), Trace(s, pma, ins))
  {
    PowerOnInv(s, pma);
    var final := RunRefines(s, s.mem, pma, ins);
    StepRefines(RunTo(s, pma, ins), final, pma, last);
  }

  /** An access fault is raised exactly when an idle cache is asked for a block that is not there, and
      changes nothing. */
  lemma FaultsExactly(s: Sys, pma: Pmas, in_: In)
    ensures var (s', out) := Step(s, pma, in_);
            && (out.fault <==> s.c.proc.Idle? && !in_.flush && !in_.req.NoRequest? && pma(in_.req.addr.block).Empty?)
            && (out.fault ==> s'.c == s.c && s'.mem == s.mem && !out.ready)
  {
  }

  /** A block that may be cached is never moved word by word, and one that may not be is never kept. */
  lemma AttributesRespected(s: Sys, logical: Blocks, pma: Pmas, i: Index)
    requires Inv(s, logical, pma)
    ensures match MemRequestOf(s.c)
            case ReadBlock(b) => pma(b).Cacheable?
            case WriteBlock(b, _) => pma(b).Cacheable?
            case Direct(req) => req == s.pend && !req.NoRequest? && pma(req.addr.block).Uncacheable?
            case NoMem => true
    ensures var w := s.c.sets[i];
            && (w.e0.valid ==> pma(BlockId(w.e0.tag, i)).Cacheable?) && (w.e1.valid ==> pma(BlockId(w.e1.tag, i)).Cacheable?)
  {
    assert WaysOk(s.c.sets[i], i, logical, pma);
  }

  /** A hit leaves the other way to be replaced next. */
  lemma HitMakesOtherLru(s: Sys, pma: Pmas, in_: In)
    requires s.c.proc.CompareTag? && (Hits(s.c.e0, s.c.addr.block) || Hits(s.c.e1, s.c.addr.block))
    ensures Step(s, pma, in_).0.c.sets[s.c.addr.block.index].lru <==> Hits(s.c.e0, s.c.addr.block)
  {
  }

  // ---- progress ----

  predicate WaitsForMemory(c: Cache, in_: In) {
    (c.proc.WriteBack? || c.proc.Allocate? || c.proc.NonCacheable?) && !in_.memReady
  }

  /** Clocks the cache still needs, not counting those spent waiting for memory. */
  function Work(c: Cache): nat {
    match c.proc
    case Idle => 0
    case NonCacheable => 1
    case CompareTag => if Hits(c.e0, c.addr.block) || Hits(c.e1, c.addr.block) then 1 else 4
    case Allocate => 2
    case WriteBack => if c.flushing then 2 * (512 - c.flushCnt) + 2 else 3
    case FlushCache => 2 * (512 - c.flushCnt) + 1
  }

  lemma WorkDecreases(s: Sys, pma: Pmas, in_: In)
    requires !s.c.proc.Idle?
    ensures var c' := Step(s, pma, in_).0.c;
            if WaitsForMemory(s.c, in_) then c'.proc == s.c.proc && Work(c') == Work(s.c) else Work(c') < Work(s.c)
  {
  }

  ghost function Waits(s: Sys, pma: Pmas, ins: seq<In>): nat
    decreases |ins|
  {
    if ins == [] then 0
    else (if WaitsForMemory(s.c, ins[0]) then 1 else 0) + Waits(Step(s, pma, ins[0]).0, pma, ins[1..])
  }

  /** Some state of a run is idle. */
  ghost predicate IdleAt(s: Sys, pma: Pmas, ins: seq<In>, k: nat) {
    k <= |ins| && RunTo(s, pma, ins[..k]).c.proc.Idle?
  }

  lemma IdleLater(s: Sys, pma: Pmas, ins: seq<In>, k: nat)
    requires ins != [] && IdleAt(Step(s, pma, ins[0]).0, pma, ins[1..], k)
    ensures IdleAt(s, pma, ins, k + 1)
  {
    assert ins[..k + 1][1..] == ins[1..][..k];
  }

  lemma WorkBound(c: Cache)
    ensures Work(c) <= 1026 && (!c.proc.Idle? ==> Work(c) > 0)
  {
  }

  lemma Onward(s: Sys, logical: Blocks, pma: Pmas, ins: seq<In>)
    requires Inv(s, logical, pma) && LegalRun(s, pma, ins) && !s.c.proc.Idle?
    requires Waits(s, pma, ins) + Work(s.c) <= |ins|
    ensures ins != []
    ensures var (s', out) := Step(s, pma, ins[0]);
            && Inv(s', After(logical, s.pend, out), pma) && LegalRun(s', pma, ins[1..])
            && Waits(s', pma, ins[1..]) + Work(s'.c) <= |ins| - 1
  {
    WorkBound(s.c);
    WorkDecreases(s, pma, ins[0]);
    StepRefines(s, logical, pma, ins[0]);
  }

  /** From any reachable state, once the clocks not spent waiting for memory reach Work (WorkBound: at
      most 1026, for a whole flush), the cache has been idle again. */
  lemma {:induction false} ReturnsToIdle(s: Sys, logical: Blocks, pma: Pmas, ins: seq<In>) returns (k: nat)
    requires Inv(s, logical, pma) && LegalRun(s, pma, ins)
    requires Waits(s, pma, ins) + Work(s.c) <= |ins|
    ensures IdleAt(s, pma, ins, k)
    decreases |ins|
  {
    if s.c.proc.Idle? {
      k := 0;
      assert ins[..0] == [];
    } else {
      Onward(s, logical, pma, ins);
      var (s', out) := Step(s, pma, ins[0]);
      k := ReturnsToIdle(s', After(logical, s.pend, out), pma, ins[1..]);
      IdleLater(s, pma, ins, k);
      k := k + 1;
    }
  }
}
