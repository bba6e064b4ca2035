/** Exactly when fetches are right: if memory lets the fetch unit take word 0 of a block between the
    first and the last beat of a write to that block, a word no store touched is fetched wrong. */
module TwoPortsClash {
  import opened Words
  import opened Memory
  import opened TwoPorts
  import opened DataCache
  import B = Burst
  import BP = BurstProof
  import DP = DataCacheProof
  import DR = DataCacheResults
  import IF = IFetch
  import IP = IFetchProof
  import Paging

  function AllCacheable(): Pmas { _ => Cacheable }

  // ---- runs of the data port ----

  ghost predicate Reaches(w: BP.Wired, ins: seq<In>, t: seq<DP.Event>, e: BP.Wired) {
    && BP.WiredRun(w, AllCacheable(), ins)
    && BP.WiredTo(w, AllCacheable(), ins) == e && BP.WiredTrace(w, AllCacheable(), ins) == t
  }

  ghost function Answered(w: BP.Wired, in_: In): seq<DP.Event> {
    var out := BP.WiredStep(w, AllCacheable(), in_).1;
    if out.ready then [DP.Event(w.pend, out.rdata)] else []
  }

  lemma {:induction false} More(w: BP.Wired, a: seq<In>, t: seq<DP.Event>, m: BP.Wired, in_: In)
    requires Reaches(w, a, t, m) && BP.WiredLegal(m, in_)
    ensures Reaches(w, a + [in_], t + Answered(m, in_), BP.WiredStep(m, AllCacheable(), in_).0)
    decreases |a|
  {
    var last := BP.WiredStep(m, AllCacheable(), in_).0;
    if a == [] {
      assert a + [in_] == [in_] && [in_][1..] == [];
      assert BP.WiredTrace(last, AllCacheable(), []) == [] && BP.WiredTo(last, AllCacheable(), []) == last;
    } else {
      var w' := BP.WiredStep(w, AllCacheable(), a[0]).0;
      assert (a + [in_])[0] == a[0] && (a + [in_])[1..] == a[1..] + [in_];
      More(w', a[1..], BP.WiredTrace(w', AllCacheable(), a[1..]), m, in_);
    }
  }

  function Hold(r: Request, ready: bool): In { In(r, false, ready, StaysValid) }

  /** Nothing in progress, and these two ways in set 0. */
  ghost predicate At(w: BP.Wired, ways: Ways, mem: Blocks) {
    && w.c.proc.Idle? && w.pend.NoRequest? && w.bus.rcnt == 0 && w.bus.wcnt == 0
    && w.c.sets[0] == ways && w.now == mem
  }

  /** A word access to set 0. */
  predicate Wanted(r: Request) {
    !r.NoRequest? && AlignedRequest(r) && r.size.WordSize? && r.addr.block.index == 0
  }

  ghost function Filled(line: Line, r: Request): Entry
    requires !r.NoRequest?
  {
    if r.Store? then Entry(Merge(line, r.addr, r.size, r.data), r.addr.block.tag, true, true)
    else Entry(line, r.addr.block.tag, true, false)
  }

  /** Reading the block of a miss, after n beats. */
  ghost predicate Filling(w: BP.Wired, ways: Ways, mem: Blocks, r: Request, n: nat) {
    && Wanted(r) && w.pend == r && w.now == mem && w.c.proc.Allocate? && w.c.sets[0] == ways
    && w.c.addr == r.addr && w.c.size == r.size && w.c.write == r.Store? && (r.Store? ==> w.c.wdata == r.data)
    && w.c.e0 == ways.e0 && w.c.e1 == ways.e1 && w.c.victim == ways.lru
    && n <= 4 && w.bus.rcnt == n && w.bus.wcnt == 0 && w.bus.rdata[..n] == mem[r.addr.block][..n]
  }

  lemma MissStarts(w: BP.Wired, ways: Ways, mem: Blocks, r: Request) returns (ins: seq<In>, e: BP.Wired)
    requires At(w, ways, mem) && Wanted(r) && DP.Absent(ways, r.addr.block) && !WayOf(ways, ways.lru).dirty
    ensures Reaches(w, ins, [], e) && Filling(e, ways, mem, r, 0) && e.bus.wdata == w.bus.wdata
  {
    var a := Hold(r, true);
    var w1 := BP.WiredStep(w, AllCacheable(), a).0;
    More(w, [], [], w, a);
    assert w1.c.proc.CompareTag? && w1.pend == r && w1.now == mem && w1.bus == w.bus;
    e := BP.WiredStep(w1, AllCacheable(), a).0;
    More(w, [] + [a], [], w1, a);
    ins := [] + [a] + [a];
    assert e.c == w1.c.(proc := Allocate) && e.bus == w.bus && e.now == mem;
  }

  lemma Beat(w: BP.Wired, ways: Ways, mem: Blocks, r: Request, n: nat)
    requires Filling(w, ways, mem, r, n) && n < 4
    ensures var e := BP.WiredStep(w, AllCacheable(), Hold(r, true)).0;
            Filling(e, ways, mem, r, n + 1) && e.bus.wdata == w.bus.wdata && Answered(w, Hold(r, true)) == []
  {
    var e := BP.WiredStep(w, AllCacheable(), Hold(r, true)).0;
    BP.RequestHeld(w.c, AllCacheable(), Hold(r, true).(memReady := false), ZERO_LINE, ZERO_LANES);
    assert e.bus.rdata == w.bus.rdata[n := mem[r.addr.block][n]];
    assert e.bus.rdata[..n] == w.bus.rdata[..n];
  }

  /** The last beat refills the way; then the access hits. */
  lemma MissEnds(w: BP.Wired, ways: Ways, mem: Blocks, r: Request) returns (ins: seq<In>, e: BP.Wired, rdata: Lanes)
    requires Filling(w, ways, mem, r, 4) && DP.Absent(ways, r.addr.block)
    ensures Reaches(w, ins, [DP.Event(r, rdata)], e) && e.bus.wdata == w.bus.wdata
    ensures At(e, WithWay(ways, ways.lru, Filled(mem[r.addr.block], r)).(lru := !ways.lru), mem)
  {
    var a := Hold(r, true);
    var w1 := BP.WiredStep(w, AllCacheable(), a).0;
    More(w, [], [], w, a);
    assert w.bus.rdata == w.bus.rdata[..4] && mem[r.addr.block] == mem[r.addr.block][..4];
    var f := Entry(mem[r.addr.block], r.addr.block.tag, true, false);
    assert w1.c.proc.CompareTag? && w1.c.sets[0] == WithWay(ways, ways.lru, f) && w1.pend == r && w1.now == mem;
    var (e', out) := BP.WiredStep(w1, AllCacheable(), a);
    More(w, [] + [a], [], w1, a);
    ins, e, rdata := [] + [a] + [a], e', out.rdata;
    assert [] + [DP.Event(r, rdata)] == [DP.Event(r, rdata)];
  }

  lemma {:induction false} ThenRuns(w: BP.Wired, a: seq<In>, m: BP.Wired, b: seq<In>)
    requires BP.WiredRun(w, AllCacheable(), a) && BP.WiredTo(w, AllCacheable(), a) == m && BP.WiredRun(m, AllCacheable(), b)
    ensures BP.WiredRun(w, AllCacheable(), a + b) && BP.WiredTo(w, AllCacheable(), a + b) == BP.WiredTo(m, AllCacheable(), b)
    decreases |a|
  {
    if a == [] {
      assert a + b == b;
    } else {
      assert (a + b)[0] == a[0] && (a + b)[1..] == a[1..] + b;
      ThenRuns(BP.WiredStep(w, AllCacheable(), a[0]).0, a[1..], m, b);
    }
  }

  lemma Associative<X>(a: seq<X>, b: seq<X>, c: seq<X>)
    ensures (a + b) + c == a + (b + c)
  {
  }

  lemma {:induction false} ThenAnswers(w: BP.Wired, pma: Pmas, a: seq<In>, b: seq<In>)
    ensures BP.WiredTrace(w, pma, a + b) == BP.WiredTrace(w, pma, a) + BP.WiredTrace(BP.WiredTo(w, pma, a), pma, b)
    decreases |a|
  {
    if a == [] {
      assert a + b == b;
      assert BP.WiredTrace(w, pma, a) == [] && BP.WiredTo(w, pma, a) == w;
    } else {
      var w', rest := BP.WiredStep(w, pma, a[0]).0, a[1..];
      var ta, tb := BP.WiredTrace(w', pma, rest), BP.WiredTrace(BP.WiredTo(w', pma, rest), pma, b);
      ThenAnswers(w', pma, rest, b);
      assert BP.WiredTo(w, pma, a) == BP.WiredTo(w', pma, rest);
      FirstAnswer(w, pma, a);
      FirstOfTwo(w, pma, a, b);
      Associative(FirstEvents(w, pma, a[0]), ta, tb);
    }
  }

  ghost function FirstEvents(w: BP.Wired, pma: Pmas, in_: In): seq<DP.Event> {
    var out := BP.WiredStep(w, pma, in_).1;
    if out.ready then [DP.Event(w.pend, out.rdata)] else []
  }

  lemma FirstAnswer(w: BP.Wired, pma: Pmas, a: seq<In>)
    requires a != []
    ensures BP.WiredTrace(w, pma, a) == FirstEvents(w, pma, a[0]) + BP.WiredTrace(BP.WiredStep(w, pma, a[0]).0, pma, a[1..])
  {
  }

  lemma FirstOfTwo(w: BP.Wired, pma: Pmas, a: seq<In>, b: seq<In>)
    requires a != []
    ensures BP.WiredTrace(w, pma, a + b)
            == FirstEvents(w, pma, a[0]) + BP.WiredTrace(BP.WiredStep(w, pma, a[0]).0, pma, a[1..] + b)
  {
    assert (a + b)[0] == a[0] && (a + b)[1..] == a[1..] + b;
    FirstAnswer(w, pma, a + b);
  }

  lemma Then(w: BP.Wired, a: seq<In>, ta: seq<DP.Event>, m: BP.Wired, b: seq<In>, tb: seq<DP.Event>, e: BP.Wired)
    requires Reaches(w, a, ta, m) && Reaches(m, b, tb, e)
    ensures Reaches(w, a + b, ta + tb, e)
  {
    ThenRuns(w, a, m, b);
    ThenAnswers(w, AllCacheable(), a, b);
  }

  lemma {:induction false} Beats(w: BP.Wired, ways: Ways, mem: Blocks, r: Request, n: nat) returns (ins: seq<In>, e: BP.Wired)
    requires Filling(w, ways, mem, r, n)
    ensures Reaches(w, ins, [], e) && Filling(e, ways, mem, r, 4) && e.bus.wdata == w.bus.wdata
    decreases 4 - n
  {
    if n == 4 { return [], w; }
    var a := Hold(r, true);
    var w1 := BP.WiredStep(w, AllCacheable(), a).0;
    Beat(w, ways, mem, r, n);
    More(w, [], [], w, a);
    var rest;
    rest, e := Beats(w1, ways, mem, r, n + 1);
    Then(w, [] + [a], [], w1, rest, [], e);
    ins := [] + [a] + rest;
  }

  /** A miss on a clean victim. */
  lemma CleanMiss(w: BP.Wired, ways: Ways, mem: Blocks, r: Request) returns (ins: seq<In>, e: BP.Wired, rdata: Lanes)
    requires At(w, ways, mem) && Wanted(r) && DP.Absent(ways, r.addr.block) && !WayOf(ways, ways.lru).dirty
    ensures Reaches(w, ins, [DP.Event(r, rdata)], e) && e.bus.wdata == w.bus.wdata
    ensures At(e, WithWay(ways, ways.lru, Filled(mem[r.addr.block], r)).(lru := !ways.lru), mem)
  {
    var i1, w1 := MissStarts(w, ways, mem, r);
    var i2, w2 := Beats(w1, ways, mem, r, 0);
    var i3;
    i3, e, rdata := MissEnds(w2, ways, mem, r);
    Then(w, i1, [], w1, i2, [], w2);
    Then(w, i1 + i2, [], w2, i3, [DP.Event(r, rdata)], e);
    ins := i1 + i2 + i3;
    assert [] + [] + [DP.Event(r, rdata)] == [DP.Event(r, rdata)];
  }

  /** The first beat of a write of block b is out, and its data held wdata0 before. */
  ghost predicate Writing(w: BP.Wired, b: BlockId, word: Lanes, r: Request) {
    && w.c.proc.WriteBack? && !w.c.flushing && w.c.addr.block == b && w.bus.wcnt == 1 && w.bus.rcnt == 0
    && w.now[b][0] == word && w.pend == r && AlignedRequest(r) && !r.NoRequest?
  }

  /** A miss on a dirty victim, up to the first beat of its writeback. */
  lemma DirtyMiss(w: BP.Wired, ways: Ways, mem: Blocks, r: Request) returns (ins: seq<In>, e: BP.Wired)
    requires At(w, ways, mem) && Wanted(r) && DP.Absent(ways, r.addr.block) && WayOf(ways, ways.lru).dirty
    ensures Reaches(w, ins, [], e)
    ensures Writing(e, BlockId(WayOf(ways, ways.lru).tag, 0), w.bus.wdata[0], r)
  {
    var a := Hold(r, true);
    var w1 := BP.WiredStep(w, AllCacheable(), a).0;
    More(w, [], [], w, a);
    assert w1.c.proc.CompareTag? && w1.pend == r && w1.bus == w.bus;
    var w2 := BP.WiredStep(w1, AllCacheable(), a).0;
    More(w, [] + [a], [], w1, a);
    assert w2.c.proc.WriteBack? && w2.pend == r && w2.bus == w.bus && !w2.c.flushing;
    e := BP.WiredStep(w2, AllCacheable(), a).0;
    More(w, [] + [a] + [a], [], w2, a);
    ins := [] + [a] + [a] + [a];
    FirstBeatIsStale(w2, AllCacheable(), a);
  }

  const T := Addr(BlockId(0, 0), 0, 0)
  const STORE_T1 := Store(Addr(BlockId(0, 0), 1, 0), WordSize, ZERO_LANES)
  const LOAD_U := Load(Addr(BlockId(1, 0), 0, 0), WordSize)
  const LOAD_V := Load(Addr(BlockId(2, 0), 0, 0), WordSize)

  predicate Cold(ways: Ways) {
    !ways.e0.valid && !ways.e1.valid && !ways.e0.dirty && !ways.e1.dirty && !ways.lru
  }

  /** Store to word 1 of T, load U, and miss again: T is being written back. */
  lemma EvictT(w: BP.Wired, ways: Ways, mem: Blocks) returns (ins: seq<In>, t: seq<DP.Event>, e: BP.Wired)
    requires At(w, ways, mem) && Cold(ways)
    ensures Reaches(w, ins, t, e) && Writing(e, T.block, w.bus.wdata[0], LOAD_V)
    ensures |t| == 2 && t[0].req == STORE_T1 && t[1].req == LOAD_U
  {
    var i1, w1, r1 := CleanMiss(w, ways, mem, STORE_T1);
    var ways1 := WithWay(ways, ways.lru, Filled(mem[T.block], STORE_T1)).(lru := !ways.lru);
    var i2, w2, r2 := CleanMiss(w1, ways1, mem, LOAD_U);
    var ways2 := WithWay(ways1, ways1.lru, Filled(mem[LOAD_U.addr.block], LOAD_U)).(lru := !ways1.lru);
    assert ways2.e0 == Filled(mem[T.block], STORE_T1) && ways2.e1.tag == 1 && !ways2.lru;
    var i3;
    i3, e := DirtyMiss(w2, ways2, mem, LOAD_V);
    var t1, t2 := [DP.Event(STORE_T1, r1)], [DP.Event(LOAD_U, r2)];
    Then(w, i1, t1, w1, i2, t2, w2);
    Then(w, i1 + i2, t1 + t2, w2, i3, [], e);
    ins, t := i1 + i2 + i3, t1 + t2 + [];
  }

  // ---- the fetch port beside it ----

  const NO_FETCH := IF.IIn(false, T, false, Paging.Machine, false, false, IF.NoAnswer, false)
  function FetchOf(b: BlockId): IF.IIn { IF.IIn(true, Addr(b, 0, 0), false, Paging.Machine, false, false, IF.NoAnswer, true) }

  /** The fetch unit idle and empty. */
  ghost predicate Empty(p: Ports) {
    p.ic.proc.Idle? && p.fill.rcnt == 0 && forall i: Index :: !p.ic.lines[i].valid
  }

  function Quietly(ins: seq<In>): seq<PortsIn> {
    if ins == [] then [] else [PortsIn(ins[0], NO_FETCH)] + Quietly(ins[1..])
  }

  ghost function StoredTo(t: seq<DP.Event>): IP.Touched {
    if t == [] then iset{}
    else (if t[0].req.Store? then iset{(t[0].req.addr.block, t[0].req.addr.word)} else iset{}) + StoredTo(t[1..])
  }

  lemma StoredOnce(t: seq<DP.Event>)
    requires |t| == 2 && t[0].req == STORE_T1 && t[1].req == LOAD_U
    ensures StoredTo(t) == iset{(T.block, 1)}
  {
    assert t[1..][1..] == [] && StoredTo([]) == iset{};
    assert StoredTo(t[1..]) == iset{};
  }

  lemma QuietClock(e: End, in_: In)
    requires Empty(e.p)
    ensures var p' := Step(e.p, AllCacheable(), PortsIn(in_, NO_FETCH)).0;
            p'.w == BP.WiredStep(e.p.w, AllCacheable(), in_).0 && Empty(p')
  {
  }

  lemma AnswersTouch(w: BP.Wired, in_: In, touched: IP.Touched, rest: seq<DP.Event>)
    ensures Touch(w, AllCacheable(), in_, touched) + StoredTo(rest) == touched + StoredTo(Answered(w, in_) + rest)
  {
    var a := Answered(w, in_);
    if a != [] { assert (a + rest)[1..] == rest; } else { assert a + rest == rest; }
  }

  /** A run of the data port while nothing is fetched. */
  lemma {:induction false} Beside(e: End, ins: seq<In>, t: seq<DP.Event>, w: BP.Wired)
    requires Reaches(e.p.w, ins, t, w) && Empty(e.p)
    ensures LegalRun(e.p, AllCacheable(), Free, Quietly(ins))
    ensures var f := Run(e, AllCacheable(), Quietly(ins));
            f.p.w == w && Empty(f.p) && f.touched == e.touched + StoredTo(t)
    decreases |ins|
  {
    if ins != [] {
      var in_ := PortsIn(ins[0], NO_FETCH);
      assert Quietly(ins)[0] == in_ && Quietly(ins)[1..] == Quietly(ins[1..]);
      QuietClock(e, ins[0]);
      var e' := End(Step(e.p, AllCacheable(), in_).0, Touch(e.p.w, AllCacheable(), ins[0], e.touched));
      var rest := BP.WiredTrace(e'.p.w, AllCacheable(), ins[1..]);
      Beside(e', ins[1..], rest, w);
      AnswersTouch(e.p.w, ins[0], e.touched, rest);
    }
  }

  lemma {:induction false} RunParts(e: End, order: Order, a: seq<PortsIn>, b: seq<PortsIn>)
    requires LegalRun(e.p, AllCacheable(), order, a) && LegalRun(Run(e, AllCacheable(), a).p, AllCacheable(), order, b)
    ensures LegalRun(e.p, AllCacheable(), order, a + b)
    ensures Run(e, AllCacheable(), a + b) == Run(Run(e, AllCacheable(), a), AllCacheable(), b)
    decreases |a|
  {
    if a == [] {
      assert a + b == b;
    } else {
      assert (a + b)[0] == a[0] && (a + b)[1..] == a[1..] + b;
      RunParts(End(Step(e.p, AllCacheable(), a[0]).0, Touch(e.p.w, AllCacheable(), a[0].data, e.touched)), order, a[1..], b);
    }
  }

  /** The data port holds its request and memory does not answer it, while block b is fetched. */
  function WaitFor(r: Request, b: BlockId): PortsIn { PortsIn(Hold(r, false), FetchOf(b)) }

  /** A data port that, unanswered, changes no memory and answers nothing. */
  predicate Parked(w: BP.Wired, r: Request) {
    && w.pend == r && AlignedRequest(r)
    && (w.c.proc.WriteBack? || w.c.proc.Allocate? || (r.NoRequest? && (w.c.proc.FlushCache? || w.c.proc.Idle?)))
  }

  lemma StaysParked(w: BP.Wired, r: Request, pma: Pmas, touched: IP.Touched)
    requires Parked(w, r)
    ensures var d := Hold(r, false);
            var w' := BP.WiredStep(w, pma, d).0;
            Parked(w', r) && w'.now == w.now && Touch(w, pma, d, touched) == touched
  {
  }

  /** The stages of the fetch of block b beside the waiting data port; from stage 3 word 0 is taken. */
  ghost predicate Stage(p: Ports, r: Request, b: BlockId, word: Lanes, k: nat) {
    && Parked(p.w, r) && (k <= 2 ==> p.w.now[b][0] == word)
    && match k
       case 0 => p.ic.proc.Idle? && p.fill.rcnt == 0 && !p.ic.lines[b.index].valid
       case 1 => p.ic.proc.CompareTag? && p.fill.rcnt == 0 && !p.ic.entry.valid && p.ic.tagAccessing == b.tag
                 && p.ic.indexAccessing == b.index
       case 8 => p.ic.proc.CompareTag? && p.ic.entry.valid && p.ic.entry.tag == b.tag && p.ic.tagAccessing == b.tag
                 && p.ic.indexAccessing == b.index && p.ic.entry.data[0] == word
       case 7 => p.ic.proc.Idle? && p.ic.lines[b.index].valid && p.ic.lines[b.index].tag == b.tag
                 && p.ic.lines[b.index].data[0] == word
       case _ => 2 <= k < 7 && p.ic.proc.Allocate? && p.ic.allocAddr.block == b && p.fill.rcnt == k - 2
                 && (k > 2 ==> p.fill.rdata[0] == word)
  }

  lemma StageStep(p: Ports, r: Request, b: BlockId, word: Lanes, k: nat, pma: Pmas)
    requires Stage(p, r, b, word, k) && k < 8
    ensures Stage(Step(p, pma, WaitFor(r, b)).0, r, b, word, k + 1) && Legal(p, Free, WaitFor(r, b))
    ensures k > 2 ==> !Clash(p, WaitFor(r, b))
  {
    StaysParked(p.w, r, pma, iset{});
  }

  lemma RepeatFirst(i: PortsIn, n: nat)
    requires n > 0
    ensures Repeat(i, n) != [] && Repeat(i, n)[0] == i && Repeat(i, n)[1..] == Repeat(i, n - 1)
  {
  }

  function Repeat(i: PortsIn, n: nat): seq<PortsIn> { if n == 0 then [] else [i] + Repeat(i, n - 1) }

  lemma {:induction false} FetchBeside(e: End, r: Request, b: BlockId, word: Lanes, k: nat, n: nat, pma: Pmas, base: Blocks)
    requires Stage(e.p, r, b, word, k) && k + n == 8
    ensures LegalRun(e.p, pma, Free, Repeat(WaitFor(r, b), n))
    ensures k > 2 ==> HarmlessRun(e, pma, base, Repeat(WaitFor(r, b), n))
    ensures var f := Run(e, pma, Repeat(WaitFor(r, b), n)); Stage(f.p, r, b, word, k + n) && f.touched == e.touched
    decreases n
  {
    if n > 0 {
      StageStep(e.p, r, b, word, k, pma);
      StaysParked(e.p.w, r, pma, e.touched);
      RepeatFirst(WaitFor(r, b), n);
      FetchBeside(EndNext(e, pma, WaitFor(r, b)), r, b, word, k + 1, n - 1, pma, base);
    }
  }

  lemma StageEnds(p: Ports, r: Request, b: BlockId, word: Lanes, k: nat, pma: Pmas)
    requires Stage(p, r, b, word, k) && k == 8
    ensures var out := Step(p, pma, WaitFor(r, b)).1; out.ready && out.inst == word && p.ic.tagAccessing == b.tag
  {
  }

  // ---- the exact condition, clock by clock ----

  /** A clash does nothing to the data port but let it go on with its writeback. */
  lemma ParkedAfterClash(e: End, mem: Blocks, logical: Blocks, pma: Pmas, base: Blocks, in_: PortsIn)
    requires Inv(e.p, mem, logical, pma, base, e.touched) && Legal(e.p, Free, in_) && Clash(e.p, in_)
    ensures var n := EndNext(e, pma, in_); Parked(n.p.w, e.p.w.pend) && n.touched == e.touched
  {
  }

  lemma TakenAfterClash(e: End, pma: Pmas, in_: PortsIn)
    requires Clash(e.p, in_)
    ensures var n := EndNext(e, pma, in_); var b := e.p.ic.allocAddr.block;
            && n.p.ic.proc.Allocate? && n.p.ic.allocAddr.block == b && n.p.fill.rcnt == 1
            && n.p.fill.rdata[0] == e.p.w.now[b][0]
  {
  }

  /** In any reachable state: the fetch unit taking a word in a clock leaves every later delivery right
      exactly when it does not take a stale word, or that word has been stored to, or the stale word
      happens to be the right one. */
  lemma ClashIsExact(e: End, mem: Blocks, logical: Blocks, pma: Pmas, base: Blocks, in_: PortsIn)
    requires Inv(e.p, mem, logical, pma, base, e.touched) && Legal(e.p, Free, in_)
    ensures AllRight(EndNext(e, pma, in_), pma, base) <==> Harmless(e.p, in_, base, e.touched)
  {
    var n, b := EndNext(e, pma, in_), e.p.ic.allocAddr.block;
    if Harmless(e.p, in_, base, e.touched) {
      var mem', logical' := InvStep(e.p, mem, logical, pma, base, e.touched, in_);
      InvMeansRight(n, mem', logical', pma, base);
    } else {
      var r, word, clocks := e.p.w.pend, e.p.first.word, 5;
      WordRight(e.p, mem, logical, pma, b, 0);
      ParkedAfterClash(e, mem, logical, pma, base, in_);
      TakenAfterClash(e, pma, in_);
      FetchBeside(n, r, b, word, 3, clocks, pma, base);
      var wait := WaitFor(r, b);
      StageEnds(Run(n, pma, Repeat(wait, clocks)).p, r, b, word, 8, pma);
      assert !DeliversRight(Run(n, pma, Repeat(wait, clocks)), pma, wait, base);
    }
  }

  // ---- the failing run, and when there is none ----

  /** A state in which fence.i can retire, with both caches empty, and stale data in the write
      buffer that is not what memory holds. Power-on is one. */
  ghost predicate Start(p: Ports) {
    && BP.WiredPowerOn(p.w) && Cold(p.w.c.sets[0]) && Empty(p) && p.w.bus.wdata[0] != p.w.now[T.block][0]
  }

  /** Word 1 of T is stored to, and a fetch of word 0 returns what the write buffer held before. */
  lemma StaleWordFetched(p: Ports) returns (ins: seq<PortsIn>)
    requires Start(p)
    ensures LegalRun(p, AllCacheable(), Free, ins)
    ensures var e := Run(End(p, iset{}), AllCacheable(), ins);
            var out := Step(e.p, AllCacheable(), WaitFor(LOAD_V, T.block)).1;
            && e.touched == iset{(T.block, 1)} && e.p.ic.tagAccessing == 0
            && out.ready && out.inst == p.w.bus.wdata[0]
  {
    var e0, word := End(p, iset{}), p.w.bus.wdata[0];
    var i1, t, w := EvictT(p.w, p.w.c.sets[0], p.w.now);
    Beside(e0, i1, t, w);
    var e1 := Run(e0, AllCacheable(), Quietly(i1));
    StoredOnce(t);
    var n, wait := 8, WaitFor(LOAD_V, T.block);
    FetchBeside(e1, LOAD_V, T.block, word, 0, n, AllCacheable(), p.w.now);
    RunParts(e0, Free, Quietly(i1), Repeat(wait, n));
    ins := Quietly(i1) + Repeat(wait, n);
    StageEnds(Run(e1, AllCacheable(), Repeat(wait, n)).p, LOAD_V, T.block, word, n, AllCacheable());
  }

  ghost predicate RightInEveryRun(p: Ports, order: Order) {
    forall ins: seq<PortsIn>, in_: PortsIn :: LegalRun(p, AllCacheable(), order, ins)
      ==> DeliversRight(Run(End(p, iset{}), AllCacheable(), ins), AllCacheable(), in_, p.w.now)
  }

  lemma StartInv(p: Ports)
    requires Start(p)
    ensures Inv(p, p.w.now, p.w.now, AllCacheable(), p.w.now, iset{})
  {
    DR.PowerOnInv(BP.Abstract(p.w, p.w.now), AllCacheable());
  }

  /** From power-on: if memory may let the fetch unit take stale words some run goes wrong, and if it never
      does none does. ClashIsExact says of a single clash whether it does harm. */
  lemma RightExactlyWithoutClash(p: Ports, order: Order)
    requires Start(p)
    ensures RightInEveryRun(p, order) <==> order.Ordered?
  {
    if order.Ordered? {
      StartInv(p);
      forall ins: seq<PortsIn>, in_: PortsIn | LegalRun(p, AllCacheable(), order, ins)
        ensures DeliversRight(Run(End(p, iset{}), AllCacheable(), ins), AllCacheable(), in_, p.w.now)
      {
        EveryDeliveryRight(End(p, iset{}), p.w.now, p.w.now, AllCacheable(), p.w.now, ins, in_);
      }
    } else {
      var ins := StaleWordFetched(p);
      assert !DeliversRight(Run(End(p, iset{}), AllCacheable(), ins), AllCacheable(), WaitFor(LOAD_V, T.block), p.w.now);
    }
  }
}
