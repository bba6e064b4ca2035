/** Exactly which outcomes of `writeback`'s double write of the valid bit are safe. If INVALID
    survives, a flushed line stays dirty, and its stale data can be written back later. */
module DataCacheDoubleWrite {
  import opened Words
  import opened Memory
  import opened DataCache
  import opened DataCacheProof
  import opened DataCacheResults

  ghost predicate HeldRun(s: Sys, pma: Pmas, ins: seq<In>)
    decreases |ins|
  {
    ins == [] || (Held(s, ins[0]) && HeldRun(Step(s, pma, ins[0]).0, pma, ins[1..]))
  }

  predicate Always(ins: seq<In>, dw: DoubleWrite) {
    forall k :: 0 <= k < |ins| ==> ins[k].dw == dw
  }

  // ---- composing runs ----

  ghost predicate Reaches(s: Sys, ins: seq<In>, t: seq<Event>, s': Sys) {
    HeldRun(s, AllCacheable(), ins) && Always(ins, TurnsInvalid)
    && Trace(s, AllCacheable(), ins) == t && RunTo(s, AllCacheable(), ins) == s'
  }

  function AllCacheable(): Pmas { _ => Cacheable }

  lemma {:induction false} RunParts(s: Sys, pma: Pmas, a: seq<In>, b: seq<In>)
    ensures RunTo(s, pma, a + b) == RunTo(RunTo(s, pma, a), pma, b)
    decreases |a|
  {
    if a == [] {
      assert a + b == b;
    } else {
      assert (a + b)[0] == a[0] && (a + b)[1..] == a[1..] + b;
      var next := Step(s, pma, a[0]).0;
      RunParts(next, pma, a[1..], b);
    }
  }

  lemma {:induction false} HeldParts(s: Sys, pma: Pmas, a: seq<In>, b: seq<In>)
    requires HeldRun(s, pma, a) && HeldRun(RunTo(s, pma, a), pma, b)
    ensures HeldRun(s, pma, a + b)
    decreases |a|
  {
    if a == [] {
      assert a + b == b;
    } else {
      assert (a + b)[0] == a[0] && (a + b)[1..] == a[1..] + b;
      var next := Step(s, pma, a[0]).0;
      HeldParts(next, pma, a[1..], b);
    }
  }

  ghost function Answered(s: Sys, pma: Pmas, in_: In): seq<Event> {
    var out := Step(s, pma, in_).1;
    if out.ready then [Event(s.pend, out.rdata)] else []
  }

  lemma TraceFirst(s: Sys, pma: Pmas, ins: seq<In>)
    requires ins != []
    ensures Trace(s, pma, ins) == Answered(s, pma, ins[0]) + Trace(Step(s, pma, ins[0]).0, pma, ins[1..])
  {
  }

  lemma Associative<X>(a: seq<X>, b: seq<X>, c: seq<X>)
    ensures (a + b) + c == a + (b + c)
  {
  }

  lemma {:induction false} TraceParts(s: Sys, pma: Pmas, a: seq<In>, b: seq<In>)
    ensures Trace(s, pma, a + b) == Trace(s, pma, a) + Trace(RunTo(s, pma, a), pma, b)
    decreases |a|
  {
    if a == [] {
      assert a + b == b;
      assert Trace(s, pma, a) == [];
    } else {
      var s' := Step(s, pma, a[0]).0;
      assert (a + b)[0] == a[0] && (a + b)[1..] == a[1..] + b;
      TraceFirst(s, pma, a);
      TraceFirst(s, pma, a + b);
      TraceParts(s', pma, a[1..], b);
      Associative(Answered(s, pma, a[0]), Trace(s', pma, a[1..]), Trace(RunTo(s', pma, a[1..]), pma, b));
    }
  }

  lemma Then(s: Sys, a: seq<In>, ta: seq<Event>, m: Sys, b: seq<In>, tb: seq<Event>, e: Sys)
    requires Reaches(s, a, ta, m) && Reaches(m, b, tb, e)
    ensures Reaches(s, a + b, ta + tb, e)
  {
    RunParts(s, AllCacheable(), a, b);
    HeldParts(s, AllCacheable(), a, b);
    TraceParts(s, AllCacheable(), a, b);
  }

  lemma Once(s: Sys, in_: In)
    requires Held(s, in_) && in_.dw.TurnsInvalid?
    ensures var (s', out) := Step(s, AllCacheable(), in_);
            Reaches(s, [in_], if out.ready then [Event(s.pend, out.rdata)] else [], s')
  {
  }

  lemma More(s: Sys, a: seq<In>, t: seq<Event>, m: Sys, in_: In)
    requires Reaches(s, a, t, m) && Held(m, in_) && in_.dw.TurnsInvalid?
    ensures var (e, out) := Step(m, AllCacheable(), in_);
            Reaches(s, a + [in_], t + if out.ready then [Event(m.pend, out.rdata)] else [], e)
  {
    var (e, out) := Step(m, AllCacheable(), in_);
    Once(m, in_);
    Then(s, a, t, m, [in_], if out.ready then [Event(m.pend, out.rdata)] else [], e);
  }

  // ---- the run ----

  /** Idle with these two ways in set 0 and nothing dirty elsewhere. */
  ghost predicate At(s: Sys, w: Ways, mem: Blocks) {
    && s.c.proc.Idle? && s.pend.NoRequest? && s.c.flushCnt == 0 && s.mem == mem && s.c.sets[0] == w
    && CleanElsewhere(s.c.sets)
  }

  ghost predicate CleanElsewhere(sets: Sets) {
    forall i: Index :: i > 0 ==> !sets[i].e0.dirty && !sets[i].e1.dirty
  }

  function Access(r: Request): In { In(r, false, true, TurnsInvalid) }
  const FLUSH := In(NoRequest, true, true, TurnsInvalid)

  ghost function Filled(line: Line, r: Request): Entry
    requires !r.NoRequest?
  {
    if r.Store? then Entry(Merge(line, r.addr, r.size, r.data), r.addr.block.tag, true, true)
    else Entry(line, r.addr.block.tag, true, false)
  }

  ghost function Answer(line: Line, r: Request): Event
    requires !r.NoRequest?
  {
    Event(r, if r.Load? then Pick(line, r.addr, r.size) else ZERO_LANES)
  }

  /** A miss that replaces a clean way takes four clocks. */
  lemma CleanMiss(s: Sys, w: Ways, mem: Blocks, r: Request) returns (ins: seq<In>, e: Sys)
    requires At(s, w, mem) && !r.NoRequest? && AlignedRequest(r) && r.addr.block.index == 0
    requires Absent(w, r.addr.block) && !WayOf(w, w.lru).dirty
    ensures Reaches(s, ins, [Answer(mem[r.addr.block], r)], e)
    ensures At(e, WithWay(w, w.lru, Filled(mem[r.addr.block], r)).(lru := !w.lru), mem)
  {
    var a := Access(r);
    var s1 := Step(s, AllCacheable(), a).0;
    Once(s, a);
    var s2 := Step(s1, AllCacheable(), a).0;
    assert s2.c == s1.c.(proc := Allocate) && s2.mem == mem;
    More(s, [a], [], s1, a);
    var s3 := Step(s2, AllCacheable(), a).0;
    var i3 := [a] + [a];
    More(s, i3, [], s2, a);
    var (s4, out) := Step(s3, AllCacheable(), a);
    More(s, i3 + [a], [], s3, a);
    ins, e := i3 + [a] + [a], s4;
    assert [] + [Event(r, out.rdata)] == [Answer(mem[r.addr.block], r)];
  }

  /** Flushing past n clean positions takes n clocks. */
  lemma {:induction false} SkipClean(s: Sys, n: nat) returns (ins: seq<In>, e: Sys)
    requires s.c.proc.FlushCache? && s.pend.NoRequest? && s.c.flushCnt + n <= 512
    requires forall k :: s.c.flushCnt <= k < s.c.flushCnt + n ==> !FlushEntry(s.c.sets, k).dirty
    ensures Reaches(s, ins, [], e) && e == s.(c := s.c.(flushCnt := s.c.flushCnt + n))
    decreases n
  {
    if n == 0 { return [], s; }
    assert !FlushEntry(s.c.sets, s.c.flushCnt).dirty;
    var s1 := Step(s, AllCacheable(), FLUSH).0;
    Once(s, FLUSH);
    var rest;
    rest, e := SkipClean(s1, n - 1);
    Then(s, [FLUSH], [], s1, rest, [], e);
    ins := [FLUSH] + rest;
  }

  /** The first position of a way: its dirty entry of set 0 is written out and left invalid. */
  lemma FlushFirst(s: Sys, way: bool) returns (ins: seq<In>, e: Sys)
    requires s.c.proc.FlushCache? && s.pend.NoRequest? && s.c.flushCnt == (if way then 256 else 0)
    requires CleanElsewhere(s.c.sets)
    ensures Reaches(s, ins, [], e)
    ensures e.c.proc.FlushCache? && e.pend.NoRequest? && e.c.flushCnt == s.c.flushCnt + 1
    ensures CleanElsewhere(e.c.sets)
    ensures var w := s.c.sets[0]; var v := WayOf(w, way);
            && e.c.sets[0] == (if v.dirty then WithWay(w, way, v.(valid := false)) else w)
            && e.mem == (if v.dirty then s.mem[BlockId(v.tag, 0) := v.data] else s.mem)
  {
    var v := WayOf(s.c.sets[0], way);
    var s1 := Step(s, AllCacheable(), FLUSH).0;
    Once(s, FLUSH);
    ins, e := [FLUSH], s1;
    if v.dirty {
      assert s1.c.proc.WriteBack? && s1.c.addr.block == BlockId(v.tag, 0);
      e := Step(s1, AllCacheable(), FLUSH).0;
      More(s, ins, [], s1, FLUSH);
      ins := ins + [FLUSH];
    }
  }

  /** Writing back the entry at set 0 of one way, and turning it invalid but not clean. */
  lemma FlushSlot(s: Sys, way: bool) returns (ins: seq<In>, e: Sys)
    requires s.c.proc.FlushCache? && s.pend.NoRequest? && s.c.flushCnt == (if way then 256 else 0)
    requires CleanElsewhere(s.c.sets)
    ensures Reaches(s, ins, [], e)
    ensures e.c.proc.FlushCache? && e.pend.NoRequest? && e.c.flushCnt == s.c.flushCnt + 256
    ensures CleanElsewhere(e.c.sets)
    ensures var w := s.c.sets[0]; var v := WayOf(w, way);
            && e.c.sets[0] == (if v.dirty then WithWay(w, way, v.(valid := false)) else w)
            && e.mem == (if v.dirty then s.mem[BlockId(v.tag, 0) := v.data] else s.mem)
  {
    var first, s1 := FlushFirst(s, way);
    var n := 255;
    var rest;
    rest, e := SkipClean(s1, n);
    Then(s, first, [], s1, rest, [], e);
    ins := first + rest;
  }

  ghost function Flushed(m: Blocks, e: Entry): Blocks {
    if e.dirty then m[BlockId(e.tag, 0) := e.data] else m
  }

  function Left(e: Entry): Entry { if e.dirty then e.(valid := false) else e }

  /** A whole flush: both dirty entries of set 0 reach memory, way 0 first, and both are left
      invalid but still marked dirty. */
  lemma WholeFlush(s: Sys, w: Ways, mem: Blocks) returns (ins: seq<In>, e: Sys)
    requires At(s, w, mem)
    ensures Reaches(s, ins, [], e)
    ensures At(e, Ways(Left(w.e0), Left(w.e1), w.lru), Flushed(Flushed(mem, w.e0), w.e1))
  {
    var s1 := Step(s, AllCacheable(), FLUSH).0;
    Once(s, FLUSH);
    var i2, s2 := FlushSlot(s1, false);
    Then(s, [FLUSH], [], s1, i2, [], s2);
    var i3, s3 := FlushSlot(s2, true);
    Then(s, [FLUSH] + i2, [], s2, i3, [], s3);
    More(s, [FLUSH] + i2 + i3, [], s3, FLUSH);
    ins, e := [FLUSH] + i2 + i3 + [FLUSH], Step(s3, AllCacheable(), FLUSH).0;
  }

  /** A miss that replaces a dirty way writes it back first, valid or not. */
  lemma DirtyMiss(s: Sys, w: Ways, mem: Blocks, r: Request) returns (ins: seq<In>, e: Sys)
    requires At(s, w, mem) && r.Load? && AlignedRequest(r) && r.addr.block.index == 0
    requires Absent(w, r.addr.block) && WayOf(w, w.lru).dirty
    ensures Reaches(s, ins, [Answer(Flushed(mem, WayOf(w, w.lru))[r.addr.block], r)], e)
  {
    var a := Access(r);
    var v := WayOf(w, w.lru);
    var s1 := Step(s, AllCacheable(), a).0;
    Once(s, a);
    var s2 := Step(s1, AllCacheable(), a).0;
    assert s2.c.proc.WriteBack? && s2.c.addr.block == BlockId(v.tag, 0) && s2.c.wbData == v.data;
    More(s, [a], [], s1, a);
    var s3 := Step(s2, AllCacheable(), a).0;
    assert s3.c.proc.Allocate? && s3.mem == Flushed(mem, v);
    More(s, [a] + [a], [], s2, a);
    var s4 := Step(s3, AllCacheable(), a).0;
    More(s, [a] + [a] + [a], [], s3, a);
    var (s5, out) := Step(s4, AllCacheable(), a);
    More(s, [a] + [a] + [a] + [a], [], s4, a);
    ins, e := [a] + [a] + [a] + [a] + [a], s5;
    assert [] + [Event(r, out.rdata)] == [Answer(Flushed(mem, v)[r.addr.block], r)];
  }

  const U := Addr(BlockId(1, 0), 0, 0)
  const T := Addr(BlockId(0, 0), 0, 0)
  const OLDER := Lanes(0, 0, 0, 1)
  const NEWER := Lanes(0, 0, 0, 2)

  const LOAD_U := Load(U, WordSize)
  const LOAD_T := Load(T, WordSize)
  const STORE_OLDER := Store(T, WordSize, OLDER)
  const STORE_NEWER := Store(T, WordSize, NEWER)

  /** Load U, store to T, flush: T is in way 1, invalid and marked dirty. */
  lemma FirstHalf(s: Sys, w0: Ways, mem: Blocks) returns (ins: seq<In>, e: Sys)
    requires At(s, w0, mem) && !w0.e0.valid && !w0.e1.valid && !w0.e0.dirty && !w0.e1.dirty && !w0.lru
    ensures Reaches(s, ins, [Answer(mem[U.block], LOAD_U), Event(STORE_OLDER, ZERO_LANES)], e)
    ensures var v := Filled(mem[T.block], STORE_OLDER);
            At(e, Ways(Filled(mem[U.block], LOAD_U), Left(v), false), mem[T.block := v.data])
  {
    var i1, s1 := CleanMiss(s, w0, mem, LOAD_U);
    var w1 := Ways(Filled(mem[U.block], LOAD_U), w0.e1, true);
    var i2, s2 := CleanMiss(s1, w1, mem, STORE_OLDER);
    var i3;
    i3, e := WholeFlush(s2, Ways(w1.e0, Filled(mem[T.block], STORE_OLDER), false), mem);
    var t1, t2 := [Answer(mem[U.block], LOAD_U)], [Event(STORE_OLDER, ZERO_LANES)];
    Then(s, i1, t1, s1, i2, t2, s2);
    Then(s, i1 + i2, t1 + t2, s2, i3, [], e);
    ins := i1 + i2 + i3;
    assert t1 + t2 + [] == t1 + t2;
  }

  /** Then store to T again, flush, load T: the stale way 1 overwrites the newer value. */
  lemma SecondHalf(s: Sys, u: Entry, v: Entry, mem: Blocks) returns (ins: seq<In>, e: Sys)
    requires At(s, Ways(u, Left(v), false), mem) && !u.dirty && u.tag == U.block.tag
    requires v.dirty && v.tag == T.block.tag && v.data[0] == OLDER
    ensures Reaches(s, ins, [Event(STORE_NEWER, ZERO_LANES), Event(LOAD_T, OLDER)], e)
  {
    var i4, s4 := CleanMiss(s, Ways(u, Left(v), false), mem, STORE_NEWER);
    var n := Filled(mem[T.block], STORE_NEWER);
    var i5, s5 := WholeFlush(s4, Ways(n, Left(v), true), mem);
    var i6;
    i6, e := DirtyMiss(s5, Ways(Left(n), Left(v), true), mem[T.block := n.data][T.block := v.data], LOAD_T);
    var t4, t6 := [Event(STORE_NEWER, ZERO_LANES)], [Event(LOAD_T, OLDER)];
    Then(s, i4, t4, s4, i5, [], s5);
    Then(s, i4 + i5, t4 + [], s5, i6, t6, e);
    ins := i4 + i5 + i6;
    assert t4 + [] + t6 == [t4[0], t6[0]];
  }

  lemma FlushRevivesOldStore(s: Sys) returns (ins: seq<In>, t: seq<Event>)
    requires PowerOn(s) && !s.c.sets[0].lru
    ensures HeldRun(s, AllCacheable(), ins) && Always(ins, TurnsInvalid) && Trace(s, AllCacheable(), ins) == t
    ensures t == [Answer(s.mem[U.block], LOAD_U), Event(STORE_OLDER, ZERO_LANES),
                  Event(STORE_NEWER, ZERO_LANES), Event(LOAD_T, OLDER)]
  {
    var a, m := FirstHalf(s, s.c.sets[0], s.mem);
    var v := Filled(s.mem[T.block], STORE_OLDER);
    var b, e := SecondHalf(m, Filled(s.mem[U.block], LOAD_U), v, s.mem[T.block := v.data]);
    var ta := [Answer(s.mem[U.block], LOAD_U), Event(STORE_OLDER, ZERO_LANES)];
    var tb := [Event(STORE_NEWER, ZERO_LANES), Event(LOAD_T, OLDER)];
    Then(s, a, ta, m, b, tb, e);
    ins, t := a + b, ta + tb;
  }

  lemma NewestIsRead(f: Flat, a: Addr, d: Lanes)
    requires a.byte == 0
    ensures FlatAnswer(FlatStep(f, Store(a, WordSize, d)), Load(a, WordSize)) == d
  {
  }

  lemma AnswersFirst(f: Flat, e: Event, rest: seq<Event>)
    requires WellFormed(rest) && !e.req.NoRequest? && AlignedRequest(e.req)
    ensures WellFormed([e] + rest)
    ensures FlatAnswers(f, [e] + rest)
            <==> (e.req.Load? ==> e.rdata == FlatAnswer(f, e.req)) && FlatAnswers(FlatStep(f, e.req), rest)
  {
    assert ([e] + rest)[1..] == rest;
  }

  /** Flat memory never returns an older store's word once a newer one has overwritten it. */
  lemma OldStoreIsWrong(f: Flat, first: Event, a: Addr, older: Lanes, newer: Lanes)
    requires first.req.Load? && AlignedRequest(first.req) && a.byte == 0 && older != newer
    ensures var t := [first, Event(Store(a, WordSize, older), ZERO_LANES), Event(Store(a, WordSize, newer), ZERO_LANES),
                      Event(Load(a, WordSize), older)];
            WellFormed(t) && !FlatAnswers(f, t)
  {
    var t3 := [Event(Load(a, WordSize), older)];
    var e1, e2 := Event(Store(a, WordSize, older), ZERO_LANES), Event(Store(a, WordSize, newer), ZERO_LANES);
    var f2 := FlatStep(f, e1.req);
    NewestIsRead(f2, a, newer);
    AnswersFirst(FlatStep(f2, e2.req), t3[0], []);
    assert t3 == [t3[0]] + [];
    AnswersFirst(f2, e2, t3);
    AnswersFirst(f, e1, [e2] + t3);
    AnswersFirst(f, first, [e1] + ([e2] + t3));
    assert [first, e1, e2, t3[0]] == [first] + ([e1] + ([e2] + t3));
  }

  /** A power-on state of the cache whose set 0 replaces way 0 first. */
  ghost predicate Configured(s: Sys) {
    PowerOn(s) && !s.c.sets[0].lru
  }

  lemma SafeRun(s: Sys, pma: Pmas, ins: seq<In>, dw: DoubleWrite)
    requires HeldRun(s, pma, ins) && Always(ins, dw) && !dw.TurnsInvalid?
    ensures LegalRun(s, pma, ins)
    decreases |ins|
  {
    if ins != [] {
      assert ins[0].dw == dw;
      SafeRun(Step(s, pma, ins[0]).0, pma, ins[1..], dw);
    }
  }

  ghost predicate RightInEveryRun(s: Sys, dw: DoubleWrite) {
    forall ins: seq<In> :: HeldRun(s, AllCacheable(), ins) && Always(ins, dw)
      ==> WellFormed(Trace(s, AllCacheable(), ins)) && FlatAnswers(FlatOf(s.mem), Trace(s, AllCacheable(), ins))
  }

  /** The cache is right in every run, flushes included, exactly when the double write does
      not leave INVALID behind. */
  lemma DoubleWriteMustNotInvalidate(s: Sys, dw: DoubleWrite)
    requires Configured(s)
    ensures RightInEveryRun(s, dw) <==> !dw.TurnsInvalid?
  {
    if dw.TurnsInvalid? {
      var ins, t := FlushRevivesOldStore(s);
      OldStoreIsWrong(FlatOf(s.mem), t[0], T, OLDER, NEWER);
    } else {
      forall ins: seq<In> | HeldRun(s, AllCacheable(), ins) && Always(ins, dw)
        ensures WellFormed(Trace(s, AllCacheable(), ins)) && FlatAnswers(FlatOf(s.mem), Trace(s, AllCacheable(), ins))
      {
        SafeRun(s, AllCacheable(), ins, dw);
        CacheIsFlatMemory(s, AllCacheable(), ins);
      }
    }
  }
}
