/** The sender reading the ring buffer it has in the source: what software writes and the ring
    accepts is what the receiver delivers. */
module UartFifo {
  import opened Words
  import opened Uart
  import F = Fifo
  import K = UartLink
  import A = Arith

  /** Both ends, and the ring software writes into. */
  datatype Serial = Serial(tx: Sender, rx: Receiver, ring: F.Ring)

  datatype In = In(txEn: bool, write: F.Write)

  /** The low n bits of a number, least significant first. */
  function LowBits(x: nat, n: nat): (b: seq<bool>)
    ensures |b| == n
  {
    if n == 0 then [] else [x % 2 == 1] + LowBits(x / 2, n - 1)
  }

  /** Bit i of a byte goes out as the i-th. */
  function BitsOf(x: Byte): Bits { LowBits(x, 8) }

  function HeadOf(f: F.Ring): Head { if F.Empty(f) then NothingQueued else Byte(BitsOf(F.Head(f))) }

  /** The ring's inputs: software's write, and a read in the clock the sender takes a byte. */
  function RingIn(k: Serial, in_: In): F.In { F.In(in_.write, Takes(k.tx, in_.txEn, HeadOf(k.ring))) }

  function Step(k: Serial, in_: In): (Serial, Delivery) {
    var (rx', d) := ReceiverNext(k.rx, k.tx.txd, true);
    (Serial(SenderNext(k.tx, in_.txEn, HeadOf(k.ring)).0, rx', F.Next(k.ring, RingIn(k, in_))), d)
  }

  // ---- the same clock over a queue ----

  function AllBits(q: seq<Byte>): seq<Bits> {
    seq(|q|, i requires 0 <= i < |q| => BitsOf(q[i]))
  }

  function Link(k: Serial): K.Link { K.Link(k.tx, k.rx, AllBits(F.Queue(k.ring))) }

  /** What software puts into the queue: its write, unless the ring is full. */
  function LinkIn(k: Serial, in_: In): K.In {
    K.In(in_.txEn, if in_.write.Put? && !F.Full(k.ring) then Byte(BitsOf(in_.write.data)) else NothingQueued)
  }

  lemma HeadIsFirst(f: F.Ring)
    ensures HeadOf(f) == K.HeadOf(AllBits(F.Queue(f)))
  {
    F.FlagsExact(f);
    if !F.Empty(f) { F.TakeRemoves(f); }
  }

  lemma RingIsQueue(k: Serial, in_: In)
    ensures Link(Step(k, in_).0).queue == K.Step(Link(k), LinkIn(k, in_)).0.queue
  {
    var q, r := F.Queue(k.ring), RingIn(k, in_);
    var q' := F.Queue(F.Next(k.ring, r));
    var put := F.Accepted(k.ring, r);
    HeadIsFirst(k.ring);
    F.FlagsExact(k.ring);
    F.StepIsQueue(k.ring, r);
    if r.read { ReadBits(q, q', put); } else { PutBits(q, q', put); }
  }

  lemma ReadBits(q: seq<Byte>, q': seq<Byte>, put: seq<Byte>)
    requires q != [] && [q[0]] + q' == q + put
    ensures AllBits(q') == AllBits(q)[1..] + AllBits(put)
  {
    assert q' == ([q[0]] + q')[1..] && (q + put)[1..] == q[1..] + put;
    assert AllBits(q[1..]) == AllBits(q)[1..];
    PutBits(q[1..], q', put);
  }

  lemma PutBits(q: seq<Byte>, q': seq<Byte>, put: seq<Byte>)
    requires q' == q + put
    ensures AllBits(q') == AllBits(q) + AllBits(put)
  {
  }

  lemma StepIsLink(k: Serial, in_: In)
    ensures var (k', d) := Step(k, in_); K.Step(Link(k), LinkIn(k, in_)) == (Link(k'), d)
  {
    HeadIsFirst(k.ring);
    RingIsQueue(k, in_);
  }

  // ---- runs ----

  function Run(k: Serial, ins: seq<In>): Serial
    decreases |ins|
  {
    if ins == [] then k else Run(Step(k, ins[0]).0, ins[1..])
  }

  function Delivered(k: Serial, ins: seq<In>): seq<Bits>
    decreases |ins|
  {
    if ins == [] then [] else K.DeliveredIn(Step(k, ins[0]).1) + Delivered(Step(k, ins[0]).0, ins[1..])
  }

  /** The writes the ring accepts. */
  function Accepted(k: Serial, ins: seq<In>): seq<Bits>
    decreases |ins|
  {
    if ins == [] then [] else K.PutIn(LinkIn(k, ins[0]).put) + Accepted(Step(k, ins[0]).0, ins[1..])
  }

  function LinkIns(k: Serial, ins: seq<In>): seq<K.In>
    decreases |ins|
  {
    if ins == [] then [] else [LinkIn(k, ins[0])] + LinkIns(Step(k, ins[0]).0, ins[1..])
  }

  lemma {:induction false} RunIsLink(k: Serial, ins: seq<In>)
    ensures K.Run(Link(k), LinkIns(k, ins)) == Link(Run(k, ins))
    ensures K.Delivered(Link(k), LinkIns(k, ins)) == Delivered(k, ins)
    ensures K.Puts(LinkIns(k, ins)) == Accepted(k, ins)
    decreases |ins|
  {
    if ins != [] {
      var k' := Step(k, ins[0]).0;
      StepIsLink(k, ins[0]);
      RunIsLink(k', ins[1..]);
      var all := LinkIns(k, ins);
      assert all[0] == LinkIn(k, ins[0]) && all[1..] == LinkIns(k', ins[1..]);
    }
  }

  predicate PowerOn(k: Serial) { F.Empty(k.ring) && K.PowerOn(Link(k)) }

  /** From power-on: what the receiver delivers is a prefix of the writes the ring accepted, and all of
      them once the ring and the line are empty, across any number of wraps of the ring. */
  lemma DeliveredIsWhatWasAccepted(k: Serial, ins: seq<In>)
    requires PowerOn(k)
    ensures Delivered(k, ins) <= Accepted(k, ins)
    ensures var e := Run(k, ins);
            F.Empty(e.ring) && K.OnTheLine(Link(e)) == [] ==> Delivered(k, ins) == Accepted(k, ins)
  {
    RunIsLink(k, ins);
    K.DeliveredIsWhatWasSent(Link(k), LinkIns(k, ins));
    F.FlagsExact(Run(k, ins).ring);
  }

  lemma {:induction false} LowBitsDistinguish(x: nat, y: nat, n: nat)
    requires x < A.PowerOfTwo(n) && y < A.PowerOfTwo(n) && LowBits(x, n) == LowBits(y, n)
    ensures x == y
  {
    if n > 0 {
      var a, b := LowBits(x, n), LowBits(y, n);
      assert a[0] == (x % 2 == 1) && b[0] == (y % 2 == 1);
      assert a[1..] == LowBits(x / 2, n - 1) && b[1..] == LowBits(y / 2, n - 1);
      LowBitsDistinguish(x / 2, y / 2, n - 1);
    }
  }

  /** Different bytes are sent as different bits. */
  lemma BitsDistinguish(x: Byte, y: Byte)
    requires BitsOf(x) == BitsOf(y)
    ensures x == y
  {
    assert A.PowerOfTwo(8) == 256;
    LowBitsDistinguish(x, y, 8);
  }

  lemma {:induction false} LowBitsAt(x: nat, n: nat, i: nat)
    requires i < n
    ensures LowBits(x, n)[i] == A.BitAt(x, i)
  {
    if i > 0 { LowBitsAt(x / 2, n - 1, i - 1); }
  }

  /** The least significant bit goes first. */
  lemma LeastSignificantFirst(x: Byte, i: nat)
    requires i < 8
    ensures BitsOf(x)[i] == A.BitAt(x, i)
  {
    LowBitsAt(x, 8, i);
  }

  // ---- bytes ----

  /** The bytes the ring accepts. */
  function AcceptedBytes(k: Serial, ins: seq<In>): seq<Byte>
    decreases |ins|
  {
    if ins == [] then []
    else (if ins[0].write.Put? && !F.Full(k.ring) then [ins[0].write.data] else []) + AcceptedBytes(Step(k, ins[0]).0, ins[1..])
  }

  lemma {:induction false} AcceptedAreBits(k: Serial, ins: seq<In>)
    ensures Accepted(k, ins) == AllBits(AcceptedBytes(k, ins))
    decreases |ins|
  {
    if ins != [] {
      var first := if ins[0].write.Put? && !F.Full(k.ring) then [ins[0].write.data] else [];
      var rest := AcceptedBytes(Step(k, ins[0]).0, ins[1..]);
      AcceptedAreBits(Step(k, ins[0]).0, ins[1..]);
      PutBits(first, first + rest, rest);
    }
  }

  lemma PrefixOfBytes(got: seq<Byte>, put: seq<Byte>)
    requires AllBits(got) <= AllBits(put)
    ensures got <= put
  {
    forall i | 0 <= i < |got|
      ensures got[i] == put[i]
    {
      assert AllBits(got)[i] == AllBits(put)[i];
      BitsDistinguish(got[i], put[i]);
    }
  }

  /** Read back as bytes, what the receiver delivers is a prefix of the bytes the ring accepted. */
  lemma DeliveredBytes(k: Serial, ins: seq<In>, got: seq<Byte>)
    requires PowerOn(k) && AllBits(got) == Delivered(k, ins)
    ensures got <= AcceptedBytes(k, ins)
  {
    DeliveredIsWhatWasAccepted(k, ins);
    AcceptedAreBits(k, ins);
    PrefixOfBytes(got, AcceptedBytes(k, ins));
  }
}
