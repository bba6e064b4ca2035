/** Sender wired to receiver: every byte taken from the queue is delivered, in order, for runs
    of any length, although the two ends count different bit times. */
module UartLink {
  import opened Uart

  /** Both ends and the bytes still queued at the sender. */
  datatype Link = Link(tx: Sender, rx: Receiver, queue: seq<Bits>)

  /** A clock: whether the sender is enabled, and a byte software adds to the queue. */
  datatype In = In(txEn: bool, put: Head)

  function HeadOf(q: seq<Bits>): Head {
    if q == [] then NothingQueued else Byte(q[0])
  }

  function Step(k: Link, in_: In): (Link, Delivery) {
    var head := HeadOf(k.queue);
    var q := if Takes(k.tx, in_.txEn, head) then k.queue[1..] else k.queue;
    var (rx', d) := ReceiverNext(k.rx, k.tx.txd, true);
    (Link(SenderNext(k.tx, in_.txEn, head).0, rx', if in_.put.Byte? then q + [in_.put.bits] else q), d)
  }

  // ---- time within a frame ----

  /** The level the sender drives u clocks after a frame begins. */
  function Level(b: Bits, u: int): bool {
    if u < 0 then true
    else if u < 1303 then false
    else if u < 2 * 1303 then b[0]
    else if u < 3 * 1303 then b[1]
    else if u < 4 * 1303 then b[2]
    else if u < 5 * 1303 then b[3]
    else if u < 6 * 1303 then b[4]
    else if u < 7 * 1303 then b[5]
    else if u < 8 * 1303 then b[6]
    else if u < 9 * 1303 then b[7]
    else true
  }

  /** Clocks since the frame began, 13046 when there is none. */
  function SendTime(s: Sender): int {
    match s.proc
    case SIdle => 13046
    case SendStart => s.cnt
    case SendData => 1303 * (s.idx + 1) + s.cnt
    case SendStop => 1303 * 9 + s.cnt
    case WaitSome => 13030 + s.cnt
  }

  predicate SenderOk(s: Sender) {
    match s.proc
    case SIdle => s.cnt == 0 && s.idx == 0 && !s.busy
    case SendData => s.cnt <= 1302 && s.busy
    case WaitSome => s.cnt <= 15 && s.idx == 0 && s.busy
    case _ => s.cnt <= 1302 && s.idx == 0 && s.busy
  }

  /** Clocks since the receiver left idle. */
  function ReceiveTime(r: Receiver): int {
    var k := 163 * r.clkCnt + r.cnt;
    match r.proc
    case RIdle => -1
    case ReceiveStart => k
    case ReceiveData => 1304 * (r.idx + 1) + k
    case ReceiveStop => 1304 * 9 + k
  }

  predicate ReceiverOk(r: Receiver) {
    match r.proc
    case RIdle => r.cnt == 0 && r.clkCnt == 0 && r.idx == 0 && !r.busy
    case ReceiveData => r.cnt <= 162 && r.busy
    case _ => r.cnt <= 162 && r.idx == 0 && r.busy
  }

  /** Bits sampled so far. */
  function Sampled(r: Receiver): (n: nat)
    ensures n <= 8
  {
    match r.proc
    case ReceiveData => if r.clkCnt > 3 then r.idx + 1 else r.idx
    case ReceiveStop => 8
    case _ => 0
  }

  predicate Holds(r: Receiver, b: Bits) {
    r.buffer[8 - Sampled(r)..] == b[..Sampled(r)]
  }

  predicate LineOk(tx: Sender, rx: Receiver, b: Bits, t: int) {
    tx.txd == Level(b, t - 1) && rx.x0 == Level(b, t - 2) && rx.x1 == Level(b, t - 3) && rx.rxd == Level(b, t - 4)
  }

  /** Where the receiver is, t clocks into a frame. */
  predicate InStep(r: Receiver, b: Bits, t: int) {
    ReceiverOk(r) && if 5 <= t < 13045 then Following(r, b, t) else r.proc.RIdle?
  }

  /** The line registers hold the last four levels driven, and the receiver follows the frame
      five clocks behind, and is idle for the last two clocks of it. */
  predicate Coupled(k: Link) { CoupledAt(k.tx, k.rx, k.tx.buffer, SendTime(k.tx)) }

  predicate CoupledAt(tx: Sender, rx: Receiver, b: Bits, t: int) {
    SenderOk(tx) && LineOk(tx, rx, b, t) && InStep(rx, b, t)
  }

  lemma LevelInBit(b: Bits, j: nat, u: int)
    requires 1 <= j <= 8 && 1303 * j <= u < 1303 * (j + 1)
    ensures Level(b, u) == b[j - 1]
  {
  }

  /** Every data sample falls inside the bit it is meant for: the drift of one clock a bit moves
      the sampling point by at most eight of 1303. */
  lemma SampleInsideBit(k: Link)
    requires Coupled(k) && k.rx.proc.ReceiveData? && k.rx.clkCnt == 3 && k.rx.cnt == 162
    ensures k.rx.rxd == k.tx.buffer[k.rx.idx]
  {
    var j := k.rx.idx + 1;
    LevelInBit(k.tx.buffer, j, SendTime(k.tx) - 4);
  }

  lemma IdleStep(k: Link, in_: In)
    requires Coupled(k) && k.tx.proc.SIdle?
    ensures Coupled(Step(k, in_).0) && Step(k, in_).1 == NoByte
  {
  }

  lemma SenderStep(s: Sender, en: bool, head: Head)
    requires SenderOk(s) && !s.proc.SIdle? && s.txd == Level(s.buffer, SendTime(s) - 1)
    ensures var s' := SenderNext(s, en, head).0;
            && SenderOk(s') && s'.buffer == s.buffer && SendTime(s') == SendTime(s) + 1
            && s'.txd == Level(s.buffer, SendTime(s))
  {
    if s.proc.SendData? { LevelInBit(s.buffer, s.idx + 1, SendTime(s)); }
  }

  /** The receiver, five clocks into a frame and until its end. */
  predicate Following(r: Receiver, b: Bits, t: int) {
    ReceiverOk(r) && !r.proc.RIdle? && 5 <= t < 13045 && ReceiveTime(r) == t - 5 && Holds(r, b)
  }

  lemma ShiftHolds(r: Receiver, b: Bits, n: nat)
    requires n < 8 && r.buffer[8 - n..] == b[..n]
    ensures Shift(r.buffer, b[n])[8 - (n + 1)..] == b[..n + 1]
  {
    var after := Shift(r.buffer, b[n]);
    forall i | 0 <= i <= n
      ensures after[7 - n + i] == b[i]
    {
      if i < n { assert after[7 - n + i] == r.buffer[8 - n..][i]; }
    }
  }

  lemma StartStep(r: Receiver, b: Bits, t: int)
    requires Following(r, b, t) && r.proc.ReceiveStart? && r.rxd == Level(b, t - 4)
    ensures Following(SampleStart(r), b, t + 1)
  {
  }

  lemma DataTime(r: Receiver)
    requires ReceiverOk(r) && r.proc.ReceiveData?
    ensures ReceiverOk(SampleData(r)) && ReceiveTime(SampleData(r)) == ReceiveTime(r) + 1
    ensures Sampled(SampleData(r)) == Sampled(r) + (if r.clkCnt == 3 && r.cnt == 162 then 1 else 0)
    ensures !(r.clkCnt == 3 && r.cnt == 162) ==> SampleData(r).buffer == r.buffer
    ensures !SampleData(r).proc.RIdle?
  {
    if r.cnt == 162 && r.clkCnt == 7 && r.idx < 7 {
      assert ReceiveTime(SampleData(r)) == 1304 * (r.idx + 2);
    }
  }

  /** The data sample: the bit meant by idx goes into the buffer. */
  lemma SampleStep(r: Receiver, b: Bits, t: int)
    requires Following(r, b, t) && r.proc.ReceiveData? && r.rxd == Level(b, t - 4)
    requires r.clkCnt == 3 && r.cnt == 162
    ensures Holds(SampleData(r), b)
  {
    LevelInBit(b, r.idx + 1, t - 4);
    ShiftHolds(r, b, r.idx);
  }

  lemma DataStep(r: Receiver, b: Bits, t: int)
    requires Following(r, b, t) && r.proc.ReceiveData? && r.rxd == Level(b, t - 4)
    ensures Following(SampleData(r), b, t + 1)
  {
    DataTime(r);
    if r.clkCnt == 3 && r.cnt == 162 { SampleStep(r, b, t); }
  }

  lemma StopStep(r: Receiver, b: Bits, t: int)
    requires Following(r, b, t) && r.proc.ReceiveStop?
    ensures var (r', d) := SampleStop(r);
            if t == 13044 then d == Got(b) && ReceiverOk(r') && r'.proc.RIdle? else d == NoByte && Following(r', b, t + 1)
  {
  }

  lemma MachineStep(r: Receiver, b: Bits, t: int)
    requires Following(r, b, t) && r.rxd == Level(b, t - 4)
    ensures var (r', d) := Sample(r, true);
            if t == 13044 then d == Got(b) && ReceiverOk(r') && r'.proc.RIdle? else d == NoByte && Following(r', b, t + 1)
  {
    if r.proc.ReceiveStart? { StartStep(r, b, t); }
    else if r.proc.ReceiveStop? { StopStep(r, b, t); }
    else { DataStep(r, b, t); }
  }

  /** Following does not look at the line registers. */
  lemma LineRegisters(r: Receiver, x0: bool, x1: bool, rxd: bool, b: Bits, t: int)
    ensures var r' := r.(x0 := x0, x1 := x1, rxd := rxd);
            (Following(r', b, t) <==> Following(r, b, t)) && (ReceiverOk(r') <==> ReceiverOk(r))
  {
  }

  lemma ReceiverStep(r: Receiver, line: bool, b: Bits, t: int)
    requires Following(r, b, t) && r.rxd == Level(b, t - 4)
    ensures var (r', d) := ReceiverNext(r, line, true);
            if t == 13044 then d == Got(b) && ReceiverOk(r') && r'.proc.RIdle? else d == NoByte && Following(r', b, t + 1)
  {
    MachineStep(r, b, t);
    LineRegisters(Sample(r, true).0, line, r.x0, r.x1, b, t + 1);
  }

  /** Between frames the receiver waits for the start bit to come through its registers. */
  lemma WaitStep(r: Receiver, line: bool, b: Bits, t: int)
    requires ReceiverOk(r) && r.proc.RIdle? && r.rxd == Level(b, t - 4) && (0 <= t < 5 || 13045 <= t <= 13046)
    ensures var (r', d) := ReceiverNext(r, line, true);
            && d == NoByte
            && (if t == 4 then Following(r', b, 5) else ReceiverOk(r') && r'.proc.RIdle?)
  {
  }

  lemma ReceiverHalf(r: Receiver, line: bool, b: Bits, t: int)
    requires InStep(r, b, t) && 0 <= t <= 13045 && r.rxd == Level(b, t - 4)
    ensures var (r', d) := ReceiverNext(r, line, true);
            && InStep(r', b, t + 1) && d == (if t == 13044 then Got(b) else NoByte)
            && r'.x0 == line && r'.x1 == r.x0 && r'.rxd == r.x1
  {
    if 5 <= t < 13045 { ReceiverStep(r, line, b, t); } else { WaitStep(r, line, b, t); }
  }

  lemma LineMoves(tx: Sender, rx: Receiver, tx': Sender, rx': Receiver, b: Bits, t: int)
    requires LineOk(tx, rx, b, t) && tx'.txd == Level(b, t)
    requires rx'.x0 == tx.txd && rx'.x1 == rx.x0 && rx'.rxd == rx.x1
    ensures LineOk(tx', rx', b, t + 1)
  {
  }

  /** A clock inside a frame, on both sides. */
  lemma FrameClock(tx: Sender, rx: Receiver, en: bool, head: Head, b: Bits, t: int)
    requires CoupledAt(tx, rx, b, t) && !tx.proc.SIdle? && b == tx.buffer && t == SendTime(tx)
    ensures var tx' := SenderNext(tx, en, head).0; var (rx', d) := ReceiverNext(rx, tx.txd, true);
            && CoupledAt(tx', rx', b, t + 1) && tx'.buffer == b && SendTime(tx') == t + 1
            && d == (if t == 13044 then Got(b) else NoByte)
  {
    var tx', rx' := SenderNext(tx, en, head).0, ReceiverNext(rx, tx.txd, true).0;
    SenderStep(tx, en, head);
    ReceiverHalf(rx, tx.txd, b, t);
    LineMoves(tx, rx, tx', rx', b, t);
  }

  lemma BusyStep(k: Link, in_: In)
    requires Coupled(k) && !k.tx.proc.SIdle?
    ensures Coupled(Step(k, in_).0)
    ensures Step(k, in_).1 == if SendTime(k.tx) == 13044 then Got(k.tx.buffer) else NoByte
    ensures var tx' := Step(k, in_).0.tx; SendTime(tx') == SendTime(k.tx) + 1 && tx'.buffer == k.tx.buffer
  {
    FrameClock(k.tx, k.rx, in_.txEn, HeadOf(k.queue), k.tx.buffer, SendTime(k.tx));
  }

  // ---- runs ----

  /** The byte taken from the queue and not yet delivered. */
  function OnTheLine(k: Link): seq<Bits> {
    if SendTime(k.tx) <= 13044 then [k.tx.buffer] else []
  }

  function DeliveredIn(d: Delivery): seq<Bits> { match d case NoByte => [] case Got(b) => [b] }
  function PutIn(h: Head): seq<Bits> { match h case NothingQueued => [] case Byte(b) => [b] }

  lemma TakeConserves(k: Link, in_: In)
    requires Coupled(k) && k.tx.proc.SIdle?
    ensures var k' := Step(k, in_).0; OnTheLine(k') + k'.queue == k.queue + PutIn(in_.put)
  {
    if Takes(k.tx, in_.txEn, HeadOf(k.queue)) {
      assert k.queue == [k.queue[0]] + k.queue[1..];
    }
  }

  lemma SendConserves(k: Link, in_: In)
    requires Coupled(k) && !k.tx.proc.SIdle?
    ensures var (k', d) := Step(k, in_);
            k'.queue == k.queue + PutIn(in_.put) && DeliveredIn(d) + OnTheLine(k') == OnTheLine(k)
  {
    BusyStep(k, in_);
    var (k', d) := Step(k, in_);
    if SendTime(k.tx) == 13044 { assert OnTheLine(k') == []; } else { assert OnTheLine(k') == OnTheLine(k); }
  }

  lemma Associative<X>(a: seq<X>, b: seq<X>, c: seq<X>)
    ensures (a + b) + c == a + (b + c)
  {
  }

  /** Nothing is lost, duplicated or reordered in a clock. */
  lemma StepConserves(k: Link, in_: In)
    requires Coupled(k)
    ensures var (k', d) := Step(k, in_);
            && Coupled(k')
            && DeliveredIn(d) + (OnTheLine(k') + k'.queue) == (OnTheLine(k) + k.queue) + PutIn(in_.put)
  {
    var (k', d) := Step(k, in_);
    if k.tx.proc.SIdle? {
      IdleStep(k, in_);
      TakeConserves(k, in_);
      assert OnTheLine(k) == [] && DeliveredIn(d) == [];
    } else {
      BusyStep(k, in_);
      SendConserves(k, in_);
      Associative(DeliveredIn(d), OnTheLine(k'), k'.queue);
      Associative(OnTheLine(k), k.queue, PutIn(in_.put));
    }
  }

  /** A byte is taken exactly when the sender is idle, enabled and has one; until then the line stays high
      and the sender as it is. */
  lemma TakesExactly(k: Link, in_: In)
    requires Coupled(k) && k.tx.proc.SIdle?
    ensures var k' := Step(k, in_).0;
            if in_.txEn && k.queue != [] then !k'.tx.proc.SIdle? && k'.tx.buffer == k.queue[0] && OnTheLine(k') == [k.queue[0]]
            else k'.tx == k.tx && k'.tx.txd && OnTheLine(k') == [] && k'.queue == k.queue + PutIn(in_.put)
  {
  }

  /** The sender reports a frame sent exactly in the clock that ends it. */
  lemma ReportsFrameEnd(s: Sender, en: bool, head: Head)
    requires SenderOk(s)
    ensures var (s', sent) := SenderNext(s, en, head); sent <==> !s.proc.SIdle? && s'.proc.SIdle?
  {
  }

  /** A receiver that is not enabled starts no frame. */
  lemma DisabledReceivesNothing(r: Receiver, line: bool)
    requires r.proc.RIdle?
    ensures var (r', d) := ReceiverNext(r, line, false); r'.proc.RIdle? && r'.busy == r.busy && d == NoByte
  {
  }

  // ---- a receiver on any line ----

  datatype Wire = Wire(line: bool, en: bool)

  function Listen(r: Receiver, ws: seq<Wire>): Receiver
    decreases |ws|
  {
    if ws == [] then r else Listen(ReceiverNext(r, ws[0].line, ws[0].en).0, ws[1..])
  }

  function Heard(r: Receiver, ws: seq<Wire>): seq<Bits>
    decreases |ws|
  {
    if ws == [] then []
    else
      var (r', d) := ReceiverNext(r, ws[0].line, ws[0].en);
      (if d.Got? then [d.bits] else []) + Heard(r', ws[1..])
  }

  /** The receiver sees the line three clocks late. */
  lemma {:induction false} SeesLate(r: Receiver, ws: seq<Wire>)
    ensures |ws| >= 1 ==> Listen(r, ws).x0 == ws[|ws| - 1].line
    ensures |ws| >= 2 ==> Listen(r, ws).x1 == ws[|ws| - 2].line
    ensures |ws| >= 3 ==> Listen(r, ws).rxd == ws[|ws| - 3].line
    decreases |ws|
  {
    if ws != [] {
      var r' := ReceiverNext(r, ws[0].line, ws[0].en).0;
      SeesLate(r', ws[1..]);
      if |ws| == 1 { assert Listen(r', ws[1..]) == r'; }
      if |ws| == 2 { LastHeard(r', ws[1..]); }
      if |ws| == 3 { SeesSecond(r', ws[1..]); }
    }
  }

  lemma LastHeard(r: Receiver, ws: seq<Wire>)
    requires |ws| == 1
    ensures Listen(r, ws) == ReceiverNext(r, ws[0].line, ws[0].en).0
  {
    assert ws[1..] == [];
  }

  lemma SeesSecond(r: Receiver, ws: seq<Wire>)
    requires |ws| == 2
    ensures Listen(r, ws).rxd == r.x0
  {
    LastHeard(ReceiverNext(r, ws[0].line, ws[0].en).0, ws[1..]);
  }

  /** Clocks spent in the start bit. */
  function StartTime(r: Receiver): nat { r.clkCnt * (RX_BAUD_RATE_CNT + 1) + r.cnt }

  lemma {:induction false} StartWaits(r: Receiver, ws: seq<Wire>)
    requires r.proc.ReceiveStart? && r.cnt <= RX_BAUD_RATE_CNT && StartTime(r) + |ws| <= 651
    ensures var e := Listen(r, ws);
            && e.proc.ReceiveStart? && e.cnt <= RX_BAUD_RATE_CNT && e.busy == r.busy
            && StartTime(e) == StartTime(r) + |ws| && Heard(r, ws) == []
    decreases |ws|
  {
    if ws != [] { StartWaits(ReceiverNext(r, ws[0].line, ws[0].en).0, ws[1..]); }
  }

  /** The middle of the start bit decides, on any line: 653 clocks after an idle receiver sees the line low it
      is idle again if the line is high there, and otherwise still in the frame; either way nothing is
      delivered yet. */
  lemma FalseStart(r: Receiver, first: Wire, ws: seq<Wire>, last: Wire)
    requires r.proc.RIdle? && !r.busy && r.cnt == 0 && r.clkCnt == 0 && !r.rxd && first.en && |ws| == 651
    ensures var s := Listen(ReceiverNext(r, first.line, first.en).0, ws);
            var (e, d) := ReceiverNext(s, last.line, last.en);
            && Heard(ReceiverNext(r, first.line, first.en).0, ws) == [] && d == NoByte
            && (if ws[648].line then e.proc.RIdle? && !e.busy && e.cnt == 0 && e.clkCnt == 0
                else e.proc.ReceiveStart? && e.busy && StartTime(e) == 652)
  {
    var r' := ReceiverNext(r, first.line, first.en).0;
    StartWaits(r', ws);
    SeesLate(r', ws);
  }

  function Run(k: Link, ins: seq<In>): Link
    decreases |ins|
  {
    if ins == [] then k else Run(Step(k, ins[0]).0, ins[1..])
  }

  function Delivered(k: Link, ins: seq<In>): seq<Bits>
    decreases |ins|
  {
    if ins == [] then [] else DeliveredIn(Step(k, ins[0]).1) + Delivered(Step(k, ins[0]).0, ins[1..])
  }

  function Puts(ins: seq<In>): seq<Bits>
    decreases |ins|
  {
    if ins == [] then [] else PutIn(ins[0].put) + Puts(ins[1..])
  }

  /** In every run: the bytes delivered, the one on the line and those still queued are the
      bytes there at first and those put in, in order. */
  lemma {:induction false} EveryByteDelivered(k: Link, ins: seq<In>)
    requires Coupled(k)
    ensures var e := Run(k, ins);
            && Coupled(e)
            && Delivered(k, ins) + (OnTheLine(e) + e.queue) == OnTheLine(k) + k.queue + Puts(ins)
    decreases |ins|
  {
    if ins != [] {
      var (k', d) := Step(k, ins[0]);
      StepConserves(k, ins[0]);
      EveryByteDelivered(k', ins[1..]);
      var e := Run(k', ins[1..]);
      var rest, now := Delivered(k', ins[1..]), OnTheLine(k) + k.queue;
      Associative(DeliveredIn(d), rest, OnTheLine(e) + e.queue);
      Associative(DeliveredIn(d), OnTheLine(k') + k'.queue, Puts(ins[1..]));
      Associative(now, PutIn(ins[0].put), Puts(ins[1..]));
    }
  }

  /** Both ends as configured, the line idle. */
  predicate PowerOn(k: Link) {
    && k.tx.proc.SIdle? && k.tx.cnt == 0 && k.tx.txd && k.tx.idx == 0 && !k.tx.busy
    && k.rx.proc.RIdle? && k.rx.x0 && k.rx.x1 && k.rx.rxd && k.rx.cnt == 0 && k.rx.clkCnt == 0
    && k.rx.idx == 0 && !k.rx.busy
    && k.queue == []
  }

  /** From power-on, what is delivered is a prefix of what was put in, and once the queue and
      the line are empty it is all of it. */
  lemma DeliveredIsWhatWasSent(k: Link, ins: seq<In>)
    requires PowerOn(k)
    ensures Delivered(k, ins) <= Puts(ins)
    ensures var e := Run(k, ins); e.queue == [] && OnTheLine(e) == [] ==> Delivered(k, ins) == Puts(ins)
  {
    EveryByteDelivered(k, ins);
    var e := Run(k, ins);
    assert OnTheLine(k) + k.queue == [] && [] + Puts(ins) == Puts(ins);
    assert Delivered(k, ins) == (Delivered(k, ins) + (OnTheLine(e) + e.queue))[..|Delivered(k, ins)|];
  }

  lemma {:induction false} FrameEnds(k: Link, ins: seq<In>)
    requires Coupled(k) && SendTime(k.tx) + |ins| == 13046
    ensures var e := Run(k, ins);
            && Coupled(e) && e.tx.proc.SIdle? && Delivered(k, ins) == OnTheLine(k) && e.queue == k.queue + Puts(ins)
    decreases |ins|
  {
    if ins != [] {
      var (k', d) := Step(k, ins[0]);
      BusyStep(k, ins[0]);
      SendConserves(k, ins[0]);
      FrameEnds(k', ins[1..]);
      Associative(k.queue, PutIn(ins[0].put), Puts(ins[1..]));
    }
  }

  lemma FrameStarts(k: Link, in_: In)
    requires Coupled(k) && k.tx.proc.SIdle? && k.queue != [] && in_.txEn
    ensures var (k', d) := Step(k, in_);
            && Coupled(k') && d == NoByte && SendTime(k'.tx) == 0
            && OnTheLine(k') == [k.queue[0]] && k'.queue == k.queue[1..] + PutIn(in_.put)
  {
    IdleStep(k, in_);
  }

  /** An enabled sender with something queued delivers it, and is ready for the next byte, 13047
      clocks later. */
  lemma ByteTakes13047Clocks(k: Link, first: In, rest: seq<In>)
    requires Coupled(k) && k.tx.proc.SIdle? && k.queue != [] && first.txEn && |rest| == 13046
    ensures var e := Run(k, [first] + rest);
            && Coupled(e) && e.tx.proc.SIdle? && Delivered(k, [first] + rest) == [k.queue[0]]
            && e.queue == k.queue[1..] + Puts([first] + rest)
  {
    var ins := [first] + rest;
    assert ins[0] == first && ins[1..] == rest;
    var (k', d) := Step(k, first);
    FrameStarts(k, first);
    FrameEnds(k', rest);
    Associative(k.queue[1..], PutIn(first.put), Puts(rest));
  }
}
