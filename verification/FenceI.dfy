/** The whole core on its memory ports: load/store unit, data cache, fetch unit, done flags, and
    both five-beat buses; and what fetches see after fence.i. */
module FenceI {
  import opened Words
  import opened Memory
  import opened Paging
  import opened Translation
  import opened Core
  import C = Core
  import opened Fences
  import L = LoadStore
  import LP = LoadStoreProof
  import LR = LoadStoreResults
  import DC = DataCache
  import DP = DataCacheProof
  import BP = BurstProof
  import TP = TwoPorts
  import FT = FetchTranslation
  import IF = IFetch
  import IP = IFetchProof

  datatype Whole = Whole(l: L.Lsu, last: LP.LrSc, job: LP.Job, p: TP.Ports, done: Flags, look: Look)

  /** The core's clock as in Core.Step, but its ready inputs are memory's answers to beats, and what
      memory drives to the fetch unit is what it holds. */
  function PortIn(x: Whole, in_: CoreIn): DC.In {
    DC.In(L.RequestOf(x.l), L.FlushesCache(x.l, LsuIn(x.p.ic, x.done, in_)), in_.memReady, in_.dw)
  }

  ghost function LsuNext(x: Whole, pma: DC.Pmas, in_: CoreIn): (L.Lsu, L.Out) {
    L.Next(x.l, LsuIn(x.p.ic, x.done, in_), LP.PortOf(BP.WiredStep(x.p.w, pma, PortIn(x, in_)).1))
  }

  ghost function PortsIn(x: Whole, pma: DC.Pmas, in_: CoreIn): TP.PortsIn {
    TP.PortsIn(PortIn(x, in_), FetchIn(x.done, in_, LsuNext(x, pma, in_).1))
  }

  ghost function Step(x: Whole, pma: DC.Pmas, in_: CoreIn): (Whole, CoreOut) {
    var (l', data) := LsuNext(x, pma, in_);
    var ports := PortsIn(x, pma, in_);
    var (p', fetch) := TP.Step(x.p, pma, ports);
    var lsuIn := LsuIn(x.p.ic, x.done, in_);
    (Whole(l', LP.LastOf(x.l, x.last, lsuIn), LP.JobAfter(LP.Current(x.l, x.job, lsuIn), data), p',
           FlagsAfter(x.done, in_.op, data, fetch), LookAfter(x.look, x.p.ic, ports.fetch, p'.ic)), CoreOut(data, fetch))
  }

  // ---- the same clock over whole-block memory ----

  ghost function Abstract(x: Whole, mem: Blocks): Core {
    Core(LP.Sys(x.l, BP.Abstract(x.p.w, mem), x.last, x.job), x.p.ic, x.done, x.look)
  }

  ghost function Seen(x: Whole, in_: CoreIn): CoreIn {
    var reply := TP.FillReply(x.p, in_.fillReady).1;
    in_.(memReady := BP.BusReply(x.p.w, in_.memReady).1.done, fillReady := reply.done, block := reply.block)
  }

  /** Only a refill counts beats. */
  predicate FillCounts(p: TP.Ports) { if p.ic.proc.Allocate? then p.fill.rcnt <= 4 else p.fill.rcnt == 0 }

  /** The core and what it is over whole-block memory, with the logical memory. */
  datatype Both = Both(x: Whole, m: Moment)

  ghost predicate Is(b: Both) {
    && b.m.c == Abstract(b.x, b.m.c.s.d.mem) && BP.Coupled(b.x.p.w, b.m.c.s.d.mem) && FillCounts(b.x.p)
    && TP.FirstOk(b.x.p.w, b.x.p.first, b.m.c.s.d.mem)
  }

  lemma FillCountsStep(p: TP.Ports, pma: DC.Pmas, in_: TP.PortsIn)
    requires FillCounts(p)
    ensures FillCounts(TP.Step(p, pma, in_).0)
  {
  }

  ghost function Next(b: Both, pma: DC.Pmas, in_: CoreIn): Both {
    Both(Step(b.x, pma, in_).0, C.Next(b.m, pma, Seen(b.x, in_)))
  }

  /** The data side of a clock. */
  lemma DataIs(b: Both, pma: DC.Pmas, in_: CoreIn)
    requires Is(b)
    ensures var (s', data) := LP.Step(b.m.c.s, pma, DataIn(b.x.p.ic, b.x.done, Seen(b.x, in_)));
            var (x', out) := Step(b.x, pma, in_);
            && s' == LP.Sys(x'.l, BP.Abstract(x'.p.w, s'.d.mem), x'.last, x'.job) && data == out.data
            && BP.Coupled(x'.p.w, s'.d.mem)
  {
    BP.WiredStepRefines(b.x.p.w, b.m.c.s.d.mem, pma, PortIn(b.x, in_));
    assert LP.DataIn(b.m.c.s, DataIn(b.x.p.ic, b.x.done, Seen(b.x, in_))) == BP.Seen(b.x.p.w, PortIn(b.x, in_));
  }

  /** The fetch side, given the load/store unit's answer. */
  lemma FetchIs(x: Whole, pma: DC.Pmas, in_: CoreIn)
    ensures var (x', out) := Step(x, pma, in_);
            var fetchIn := FetchIn(x.done, Seen(x, in_), out.data);
            && IF.Next(x.p.ic, fetchIn, Seen(x, in_).block) == (x'.p.ic, out.fetch)
            && x'.look == LookAfter(x.look, x.p.ic, fetchIn, x'.p.ic)
  {
    assert TP.FetchSees(x.p, PortsIn(x, pma, in_)) == FetchIn(x.done, Seen(x, in_), Step(x, pma, in_).1.data);
  }

  lemma FirstIs(b: Both, pma: DC.Pmas, in_: CoreIn)
    requires Is(b)
    ensures var n := Next(b, pma, in_); TP.FirstOk(n.x.p.w, n.x.p.first, n.m.c.s.d.mem)
  {
    TP.FirstStep(b.x.p.w, b.x.p.first, b.m.c.s.d.mem, pma, PortIn(b.x, in_));
    assert LP.DataIn(b.m.c.s, DataIn(b.x.p.ic, b.x.done, Seen(b.x, in_))) == BP.Seen(b.x.p.w, PortIn(b.x, in_));
  }

  lemma StepIs(b: Both, pma: DC.Pmas, in_: CoreIn)
    requires Is(b)
    ensures Is(Next(b, pma, in_)) && Step(b.x, pma, in_).1 == C.Step(b.m.c, pma, Seen(b.x, in_)).1
  {
    DataIs(b, pma, in_);
    FetchIs(b.x, pma, in_);
    FillCountsStep(b.x.p, pma, PortsIn(b.x, pma, in_));
    FirstIs(b, pma, in_);
  }

  // ---- runs ----

  /** The core's promises, and whether memory keeps clashing beats apart. */
  ghost predicate Legal(x: Whole, pma: DC.Pmas, order: TP.Order, in_: CoreIn) {
    C.Legal(Abstract(x, x.p.w.now), pma, in_) && (order.Ordered? ==> !TP.Clash(x.p, PortsIn(x, pma, in_)))
  }

  ghost predicate LegalRun(x: Whole, pma: DC.Pmas, order: TP.Order, ins: seq<CoreIn>)
    decreases |ins|
  {
    ins == [] || (Legal(x, pma, order, ins[0]) && LegalRun(Step(x, pma, ins[0]).0, pma, order, ins[1..]))
  }

  ghost function Run(b: Both, pma: DC.Pmas, ins: seq<CoreIn>): Both
    decreases |ins|
  {
    if ins == [] then b else Run(Next(b, pma, ins[0]), pma, ins[1..])
  }

  /** The inputs of the run over whole-block memory. */
  ghost function SeenIn(x: Whole, pma: DC.Pmas, ins: seq<CoreIn>): seq<CoreIn>
    decreases |ins|
  {
    if ins == [] then [] else [Seen(x, ins[0])] + SeenIn(Step(x, pma, ins[0]).0, pma, ins[1..])
  }

  /** Every run over beats is a run over whole-block memory, answer for answer. */
  lemma {:induction false} RunIs(b: Both, pma: DC.Pmas, order: TP.Order, ins: seq<CoreIn>)
    requires Is(b) && LegalRun(b.x, pma, order, ins)
    ensures var e := Run(b, pma, ins);
            Is(e) && e.m == C.Run(b.m, pma, SeenIn(b.x, pma, ins)) && C.LegalRun(b.m.c, pma, SeenIn(b.x, pma, ins))
    decreases |ins|
  {
    if ins != [] {
      var n := Next(b, pma, ins[0]);
      StepIs(b, pma, ins[0]);
      RunIs(n, pma, order, ins[1..]);
      var seen := SeenIn(b.x, pma, ins);
      assert seen[0] == Seen(b.x, ins[0]) && seen[1..] == SeenIn(n.x, pma, ins[1..]);
      assert C.Legal(b.m.c, pma, seen[0]);
    }
  }

  // ---- after a fence ----

  ghost function PortsIns(x: Whole, pma: DC.Pmas, ins: seq<CoreIn>): seq<TP.PortsIn>
    decreases |ins|
  {
    if ins == [] then [] else [PortsIn(x, pma, ins[0])] + PortsIns(Step(x, pma, ins[0]).0, pma, ins[1..])
  }

  lemma PortsLegal(b: Both, pma: DC.Pmas, order: TP.Order, in_: CoreIn)
    requires Is(b) && Inv(b.m, pma) && Legal(b.x, pma, order, in_)
    ensures TP.Legal(b.x.p, order, PortsIn(b.x, pma, in_)) && C.Legal(b.m.c, pma, Seen(b.x, in_))
  {
    LP.LegalData(b.m.c.s, b.m.logical, pma, DataIn(b.x.p.ic, b.x.done, Seen(b.x, in_)));
  }

  lemma {:induction false} PortsRun(b: Both, touched: IP.Touched, pma: DC.Pmas, order: TP.Order, ins: seq<CoreIn>)
    requires Is(b) && Inv(b.m, pma) && LegalRun(b.x, pma, order, ins)
    ensures TP.LegalRun(b.x.p, pma, order, PortsIns(b.x, pma, ins))
    ensures Run(b, pma, ins).x.p == TP.Run(TP.End(b.x.p, touched), pma, PortsIns(b.x, pma, ins)).p
    decreases |ins|
  {
    if ins != [] {
      var n := Next(b, pma, ins[0]);
      PortsLegal(b, pma, order, ins[0]);
      StepIs(b, pma, ins[0]);
      InvStep(b.m, pma, Seen(b.x, ins[0]));
      var ports := PortsIns(b.x, pma, ins);
      assert ports[0] == PortsIn(b.x, pma, ins[0]) && ports[1..] == PortsIns(n.x, pma, ins[1..]);
      PortsRun(n, TP.Touch(b.x.p.w, pma, ports[0].data, touched), pma, order, ins[1..]);
    }
  }

  /** The clashes of a run, if any, do no harm to what memory held at its start. */
  ghost predicate HarmlessRun(b: Both, pma: DC.Pmas, ins: seq<CoreIn>) {
    TP.HarmlessRun(TP.End(b.x.p, iset{}), pma, b.m.logical, PortsIns(b.x, pma, ins))
  }

  /** In particular if memory keeps clashing beats apart. */
  lemma OrderedIsHarmless(b: Both, pma: DC.Pmas, ins: seq<CoreIn>)
    requires Is(b) && Inv(b.m, pma) && LegalRun(b.x, pma, TP.Ordered, ins)
    ensures HarmlessRun(b, pma, ins) && LegalRun(b.x, pma, TP.Free, ins)
  {
    PortsRun(b, iset{}, pma, TP.Ordered, ins);
    TP.OrderedIsHarmless(TP.End(b.x.p, iset{}), pma, b.m.logical, PortsIns(b.x, pma, ins));
    OrderedIsFree(b.x, pma, ins);
  }

  lemma {:induction false} OrderedIsFree(x: Whole, pma: DC.Pmas, ins: seq<CoreIn>)
    requires LegalRun(x, pma, TP.Ordered, ins)
    ensures LegalRun(x, pma, TP.Free, ins)
    decreases |ins|
  {
    if ins != [] { OrderedIsFree(Step(x, pma, ins[0]).0, pma, ins[1..]); }
  }

  /** The words stored to in a run. */
  ghost function Touched(x: Whole, pma: DC.Pmas, ins: seq<CoreIn>): IP.Touched {
    TP.Run(TP.End(x.p, iset{}), pma, PortsIns(x, pma, ins)).touched
  }

  lemma SyncedPorts(b: Both, pma: DC.Pmas)
    requires Is(b) && Inv(b.m, pma) && Synced(b.m)
    ensures TP.Inv(b.x.p, b.m.c.s.d.mem, b.m.logical, pma, b.m.logical, iset{})
  {
  }

  /** A word delivered in this clock that no store has touched is the one flat memory held. */
  ghost predicate DeliversFlat(x: Whole, pma: DC.Pmas, in_: CoreIn, touched: IP.Touched, flat: Flat) {
    var out := Step(x, pma, in_).1.fetch;
    var a := Addr(BlockId(x.p.ic.tagAccessing, in_.addr.block.index), in_.addr.word, 0);
    out.ready && (a.block, a.word) !in touched ==> out.inst == DP.FlatAnswer(flat, Load(a, WordSize))
  }

  lemma FlatDelivery(x: Whole, pma: DC.Pmas, in_: CoreIn, touched: IP.Touched, logical: Blocks)
    requires TP.DeliversRight(TP.End(x.p, touched), pma, PortsIn(x, pma, in_), logical)
    ensures DeliversFlat(x, pma, in_, touched, FlatOf(logical))
  {
    LoadIsFlat(logical, Addr(BlockId(x.p.ic.tagAccessing, in_.addr.block.index), in_.addr.word, 0), WordSize);
  }

  /** Once fence.i can retire: in any run whose clashes do no harm. */
  lemma AfterFenceI(b: Both, pma: DC.Pmas, after: seq<CoreIn>, in_: CoreIn)
    requires Is(b) && Inv(b.m, pma) && Synced(b.m) && LegalRun(b.x, pma, TP.Free, after) && HarmlessRun(b, pma, after)
    ensures DeliversFlat(Run(b, pma, after).x, pma, in_, Touched(b.x, pma, after), FlatOf(b.m.logical))
  {
    var x, touched, start := Run(b, pma, after).x, Touched(b.x, pma, after), TP.End(b.x.p, iset{});
    SyncedPorts(b, pma);
    PortsRun(b, iset{}, pma, TP.Free, after);
    TP.InvMeansRight(start, b.m.c.s.d.mem, b.m.logical, pma, b.m.logical);
    assert TP.DeliversRight(TP.Run(start, pma, PortsIns(b.x, pma, after)), pma, PortsIn(x, pma, in_), b.m.logical);
    FlatDelivery(x, pma, in_, touched, b.m.logical);
  }

  // ---- from power-on ----

  ghost predicate PowerOn(x: Whole) {
    C.PowerOn(Abstract(x, x.p.w.now)) && x.p.w.bus.rcnt == 0 && x.p.w.bus.wcnt == 0 && x.p.fill.rcnt == 0
  }

  ghost function Start(x: Whole): Both { Both(x, C.Start(Abstract(x, x.p.w.now))) }

  lemma StartIs(x: Whole, pma: DC.Pmas)
    requires PowerOn(x)
    ensures Is(Start(x)) && Inv(Start(x).m, pma)
  {
    PowerOnInv(Abstract(x, x.p.w.now), pma);
  }

  /** Any run, then fence.i in the memory stage until it can retire. */
  ghost predicate Fenced(x: Whole, pma: DC.Pmas, before: seq<CoreIn>, fence: seq<CoreIn>) {
    var b := Run(Start(x), pma, before);
    && PowerOn(x) && LegalRun(x, pma, TP.Free, before)
    && LegalRun(b.x, pma, TP.Free, fence) && b.x.done == CLEAR
    && FenceIRun(b.m, pma, SeenIn(b.x, pma, fence)) && Retires(Run(b, pma, fence).x.done, FenceI)
  }

  /** The commands answered in a run. */
  ghost function Answers(b: Both, pma: DC.Pmas, ins: seq<CoreIn>): seq<LP.Event> {
    C.Trace(b.m.c, pma, SeenIn(b.x, pma, ins))
  }

  lemma FencedIsSynced(x: Whole, pma: DC.Pmas, before: seq<CoreIn>, fence: seq<CoreIn>)
    requires Fenced(x, pma, before, fence)
    ensures var b := Run(Start(x), pma, before); var f := Run(b, pma, fence);
            && Is(f) && Inv(f.m, pma) && Synced(f.m)
            && LR.FlatRun(FlatOf(x.p.w.now), Answers(Start(x), pma, before))
            && var flat := LR.FlatTo(FlatOf(x.p.w.now), Answers(Start(x), pma, before));
               LR.FlatRun(flat, Answers(b, pma, fence)) && FlatOf(f.m.logical) == LR.FlatTo(flat, Answers(b, pma, fence))
  {
    StartIs(x, pma);
    RunIs(Start(x), pma, TP.Free, before);
    RunInv(Start(x).m, pma, SeenIn(x, pma, before));
    RunIsFlat(Start(x).m, pma, SeenIn(x, pma, before));
    var b := Run(Start(x), pma, before);
    RunIs(b, pma, TP.Free, fence);
    RunIsFlat(b.m, pma, SeenIn(b.x, pma, fence));
    RetiresOnlyWhenSynced(b.m, pma, SeenIn(b.x, pma, fence));
  }

  /** From power-on: any run, in any state of which fence.i arrives; fence.i with any delays; then any
      run of commands, fences and fetches whose clashes of beats, if any, do no harm. Every word
      fetched that no later store touched is what flat memory held when fence.i retired: the newest
      value stored by the commands answered before. */
  lemma FenceMakesStoresVisible(x: Whole, pma: DC.Pmas, before: seq<CoreIn>, fence: seq<CoreIn>, after: seq<CoreIn>,
                                in_: CoreIn)
    requires Fenced(x, pma, before, fence)
    requires var f := Run(Run(Start(x), pma, before), pma, fence);
             LegalRun(f.x, pma, TP.Free, after) && HarmlessRun(f, pma, after)
    ensures LR.FlatRun(FlatOf(x.p.w.now), Answers(Start(x), pma, before))
    ensures var b := Run(Start(x), pma, before); var f := Run(b, pma, fence);
            var flat := LR.FlatTo(FlatOf(x.p.w.now), Answers(Start(x), pma, before));
            && LR.FlatRun(flat, Answers(b, pma, fence))
            && DeliversFlat(Run(f, pma, after).x, pma, in_, Touched(f.x, pma, after), LR.FlatTo(flat, Answers(b, pma, fence)))
  {
    FencedIsSynced(x, pma, before, fence);
    AfterFenceI(Run(Run(Start(x), pma, before), pma, fence), pma, after, in_);
  }

  // ---- fetched instructions, end to end ----

  /** The run over whole-block memory keeps root and tables. */
  ghost predicate Kept(b: Both, pma: DC.Pmas, root: PpnValue, ins: seq<CoreIn>) {
    FT.KeptRun(b.m, pma, root, SeenIn(b.x, pma, ins))
  }

  lemma KeptTranslates(b: Both, pma: DC.Pmas, order: TP.Order, root: PpnValue, ins: seq<CoreIn>)
    requires Is(b) && Inv(b.m, pma) && FT.Translates(b.m, root) && LegalRun(b.x, pma, order, ins) && Kept(b, pma, root, ins)
    ensures var e := Run(b, pma, ins); Is(e) && Inv(e.m, pma) && FT.Translates(e.m, root)
  {
    RunIs(b, pma, order, ins);
    FT.RunTranslates(b.m, pma, root, SeenIn(b.x, pma, ins));
  }

  /** From a state both TLBs of which agree with the page tables (as after sfence.vma), fence.i and
      then any run that keeps the tables and whose clashes do no harm: an instruction delivered, and
      not stored to since, is the word flat memory held at the page offset in the physical page that
      section 4.3.2 grants the page looked up, exactly when that page's leaf is well formed. */
  lemma FetchedInstructionIsRight(b: Both, pma: DC.Pmas, root: PpnValue, fence: seq<CoreIn>, after: seq<CoreIn>, in_: CoreIn)
    requires Is(b) && Inv(b.m, pma) && FT.Translates(b.m, root) && b.x.done == CLEAR
    requires LegalRun(b.x, pma, TP.Free, fence) && Kept(b, pma, root, fence)
    requires FenceIRun(b.m, pma, SeenIn(b.x, pma, fence)) && Retires(Run(b, pma, fence).x.done, FenceI)
    requires var f := Run(b, pma, fence);
             LegalRun(f.x, pma, TP.Free, after) && HarmlessRun(f, pma, after) && Kept(f, pma, root, after)
    ensures var f := Run(b, pma, fence); var e := Run(f, pma, after);
            && DeliversFlat(e.x, pma, in_, Touched(f.x, pma, after), FlatOf(f.m.logical))
            && (Step(e.x, pma, in_).1.fetch.ready ==> FT.RightTag(e.m.logical, root, e.x.look, e.x.p.ic.tagAccessing))
  {
    KeptTranslates(b, pma, TP.Free, root, fence);
    RetiresOnlyWhenSynced(b.m, pma, SeenIn(b.x, pma, fence));
    RunIs(b, pma, TP.Free, fence);
    var f := Run(b, pma, fence);
    KeptTranslates(f, pma, TP.Free, root, after);
    AfterFenceI(f, pma, after, in_);
    var e := Run(f, pma, after);
    IP.ReadyInCompare(e.x.p.ic, TP.FetchSees(e.x.p, PortsIn(e.x, pma, in_)), TP.FillReply(e.x.p, in_.fillReady).1.block);
  }

  /** Such a state: from power-on, any run, an sfence.vma that retires, and a run that keeps root and
      tables. */
  lemma SinceSfence(x: Whole, pma: DC.Pmas, before: seq<CoreIn>, sfence: seq<CoreIn>, since: seq<CoreIn>, root: PpnValue)
    requires PowerOn(x) && LegalRun(x, pma, TP.Free, before)
    requires var b := Run(Start(x), pma, before); LegalRun(b.x, pma, TP.Free, sfence) && b.x.done == CLEAR
    requires var b := Run(Start(x), pma, before); SfenceRun(b.m, pma, root, SeenIn(b.x, pma, sfence))
    requires var f := Run(Run(Start(x), pma, before), pma, sfence);
             Retires(f.x.done, SfenceVma) && LegalRun(f.x, pma, TP.Free, since) && Kept(f, pma, root, since)
    ensures var e := Run(Run(Run(Start(x), pma, before), pma, sfence), pma, since);
            Is(e) && Inv(e.m, pma) && FT.Translates(e.m, root)
  {
    StartIs(x, pma);
    RunIs(Start(x), pma, TP.Free, before);
    RunInv(Start(x).m, pma, SeenIn(x, pma, before));
    var b := Run(Start(x), pma, before);
    RunIs(b, pma, TP.Free, sfence);
    RetiresOnlyWhenFlushed(b.m, pma, root, SeenIn(b.x, pma, sfence));
    var f := Run(b, pma, sfence);
    FT.FlushedTranslates(f.m, root);
    KeptTranslates(f, pma, TP.Free, root, since);
  }
}
