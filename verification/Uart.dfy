/** The serial sender and receiver, clock by clock. A bit lasts 1303 clocks when it is sent and
    8 * 163 = 1304 when it is received. */
module Uart {

  const TX_BAUD_RATE_CNT := 1302
  const RX_BAUD_RATE_CNT := 162      // 1302 / 8

  /** Eight bits, least significant first. */
  type Bits = b: seq<bool> | |b| == 8 witness seq<bool>(8, _ => false)
  type BitIndex = i: int | 0 <= i < 8

  // ---- the sender ----

  datatype SProc = SIdle | SendStart | SendData | SendStop | WaitSome

  datatype Sender = Sender(proc: SProc, buffer: Bits, cnt: nat, txd: bool, idx: BitIndex, busy: bool)

  /** `head` is the byte at the front of the FIFO, if there is one. */
  datatype Head = NothingQueued | Byte(bits: Bits)

  predicate Takes(s: Sender, en: bool, head: Head) {
    s.proc.SIdle? && en && !s.busy && head.Byte?
  }

  /** One clock; the second result says whether a whole frame has been sent. */
  function SenderNext(s: Sender, en: bool, head: Head): (Sender, bool) {
    match s.proc
    case SIdle =>
      (if Takes(s, en, head) then s.(proc := SendStart, buffer := head.bits, busy := true) else s, false)
    case SendStart =>
      (if s.cnt == TX_BAUD_RATE_CNT then s.(proc := SendData, cnt := 0, txd := false)
       else s.(cnt := s.cnt + 1, txd := false), false)
    case SendData =>
      var s' := s.(txd := s.buffer[s.idx]);
      (if s.cnt != TX_BAUD_RATE_CNT then s'.(cnt := s.cnt + 1)
       else if s.idx == 7 then s'.(proc := SendStop, idx := 0, cnt := 0)
       else s'.(idx := s.idx + 1, cnt := 0), false)
    case SendStop =>
      (if s.cnt == TX_BAUD_RATE_CNT then s.(proc := WaitSome, cnt := 0, txd := true)
       else s.(cnt := s.cnt + 1, txd := true), false)
    case WaitSome =>
      if s.cnt == 0xf then (s.(proc := SIdle, cnt := 0, busy := false), true) else (s.(cnt := s.cnt + 1), false)
  }

  // ---- the receiver ----

  datatype RProc = RIdle | ReceiveStart | ReceiveData | ReceiveStop

  datatype Receiver = Receiver(proc: RProc, x0: bool, x1: bool, rxd: bool, cnt: nat, clkCnt: BitIndex,
                               buffer: Bits, idx: BitIndex, busy: bool)

  datatype Delivery = NoByte | Got(bits: Bits)

  /** {rxd, buffer[7:1]}. */
  function Shift(b: Bits, bit: bool): Bits { b[1..] + [bit] }

  function SampleStart(r: Receiver): Receiver {
    if r.cnt != RX_BAUD_RATE_CNT then r.(cnt := r.cnt + 1)
    else if r.clkCnt == 3 && r.rxd then r.(cnt := 0, clkCnt := 0, busy := false, proc := RIdle)
    else if r.clkCnt == 7 then r.(cnt := 0, clkCnt := 0, proc := ReceiveData)
    else r.(cnt := 0, clkCnt := r.clkCnt + 1)
  }

  function SampleData(r: Receiver): Receiver {
    if r.cnt != RX_BAUD_RATE_CNT then r.(cnt := r.cnt + 1)
    else if r.clkCnt == 3 then r.(cnt := 0, buffer := Shift(r.buffer, r.rxd), clkCnt := 4)
    else if r.clkCnt != 7 then r.(cnt := 0, clkCnt := r.clkCnt + 1)
    else if r.idx == 7 then r.(cnt := 0, clkCnt := 0, idx := 0, proc := ReceiveStop)
    else r.(cnt := 0, clkCnt := 0, idx := r.idx + 1)
  }

  function SampleStop(r: Receiver): (Receiver, Delivery) {
    if r.cnt != RX_BAUD_RATE_CNT then (r.(cnt := r.cnt + 1), NoByte)
    else if r.clkCnt != 7 then (r.(cnt := 0, clkCnt := r.clkCnt + 1), NoByte)
    else (r.(cnt := 0, clkCnt := 0, busy := false, proc := RIdle), Got(r.buffer))
  }

  /** The state machine's part of a clock, without the synchroniser. */
  function Sample(r: Receiver, en: bool): (Receiver, Delivery) {
    match r.proc
    case RIdle => (if !r.busy && en && !r.rxd then r.(proc := ReceiveStart, busy := true) else r, NoByte)
    case ReceiveStart => (SampleStart(r), NoByte)
    case ReceiveData => (SampleData(r), NoByte)
    case ReceiveStop => SampleStop(r)
  }

  /** One clock: the line goes through three registers before the state machine sees it. */
  function ReceiverNext(r: Receiver, line: bool, en: bool): (Receiver, Delivery) {
    var (r', d) := Sample(r, en);
    (r'.(x0 := line, x1 := r.x0, rxd := r.x1), d)
  }

  // ---- the two as clocked objects ----

  class SenderUnit {
    var proc: SProc
    var buffer: Bits
    var cnt: nat
    var txd: bool
    var idx: BitIndex
    var busy: bool

    ghost function State(): Sender
      reads this
    {
      Sender(proc, buffer, cnt, txd, idx, busy)
    }

    constructor ()
      ensures proc == SIdle && cnt == 0 && txd && idx == 0 && !busy
    {
      proc, cnt, txd, idx, busy := SIdle, 0, true, 0, false;
      buffer := seq(8, _ => false);
    }

    method Clock(en: bool, head: Head) returns (done: bool)
      modifies this
      ensures (State(), done) == SenderNext(old(State()), en, head)
    {
      done := false;
      match proc
      case SIdle =>
        if en && !busy && head.Byte? { busy, proc, buffer := true, SendStart, head.bits; }
      case SendStart =>
        if cnt == TX_BAUD_RATE_CNT { cnt, proc := 0, SendData; } else { cnt := cnt + 1; }
        txd := false;
      case SendData =>
        txd := buffer[idx];
        if cnt == TX_BAUD_RATE_CNT {
          cnt := 0;
          if idx == 7 { proc, idx := SendStop, 0; } else { idx := idx + 1; }
        } else {
          cnt := cnt + 1;
        }
      case SendStop =>
        if cnt == TX_BAUD_RATE_CNT { cnt, proc := 0, WaitSome; } else { cnt := cnt + 1; }
        txd := true;
      case WaitSome =>
        if cnt == 0xf { cnt, proc, busy, done := 0, SIdle, false, true; } else { cnt := cnt + 1; }
    }
  }

  class ReceiverUnit {
    var proc: RProc
    var x0: bool
    var x1: bool
    var rxd: bool
    var cnt: nat
    var clkCnt: BitIndex
    var buffer: Bits
    var idx: BitIndex
    var busy: bool

    ghost function State(): Receiver
      reads this
    {
      Receiver(proc, x0, x1, rxd, cnt, clkCnt, buffer, idx, busy)
    }

    constructor ()
      ensures proc == RIdle && x0 && x1 && rxd && cnt == 0 && clkCnt == 0 && idx == 0 && !busy
    {
      proc, x0, x1, rxd, cnt, clkCnt, idx, busy := RIdle, true, true, true, 0, 0, 0, false;
      buffer := seq(8, _ => false);
    }

    method Clock(line: bool, en: bool) returns (d: Delivery)
      modifies this
      ensures (State(), d) == ReceiverNext(old(State()), line, en)
    {
      d := ClockSample(en);
      x0, x1, rxd := line, x0, x1;
    }

    method ClockSample(en: bool) returns (d: Delivery)
      modifies this
      ensures (State(), d) == Sample(old(State()), en)
    {
      d := NoByte;
      match proc {
        case RIdle => if !busy && en && !rxd { busy, proc := true, ReceiveStart; }
        case ReceiveStart => ClockStart();
        case ReceiveData => ClockData();
        case ReceiveStop => d := ClockStop();
      }
    }

    method ClockStart()
      modifies this
      ensures State() == SampleStart(old(State()))
    {
      if cnt == RX_BAUD_RATE_CNT {
        cnt := 0;
        if clkCnt == 3 {
          if rxd { clkCnt, busy, proc := 0, false, RIdle; } else { clkCnt := clkCnt + 1; }
        } else if clkCnt == 7 {
          clkCnt, proc := 0, ReceiveData;
        } else {
          clkCnt := clkCnt + 1;
        }
      } else {
        cnt := cnt + 1;
      }
    }

    method ClockData()
      modifies this
      ensures State() == SampleData(old(State()))
    {
      if cnt == RX_BAUD_RATE_CNT {
        cnt := 0;
        if clkCnt == 3 {
          buffer, clkCnt := Shift(buffer, rxd), clkCnt + 1;
        } else if clkCnt == 7 {
          clkCnt := 0;
          if idx == 7 { idx, proc := 0, ReceiveStop; } else { idx := idx + 1; }
        } else {
          clkCnt := clkCnt + 1;
        }
      } else {
        cnt := cnt + 1;
      }
    }

    method ClockStop() returns (d: Delivery)
      modifies this
      ensures (State(), d) == SampleStop(old(State()))
    {
      d := NoByte;
      if cnt == RX_BAUD_RATE_CNT {
        cnt := 0;
        if clkCnt == 7 {
          clkCnt, busy, proc := 0, false, RIdle;
          d := Got(buffer);
        } else {
          clkCnt := clkCnt + 1;
        }
      } else {
        cnt := cnt + 1;
      }
    }
  }
}
