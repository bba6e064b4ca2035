/** The 256-entry ring buffer between software and the serial line, and the queue it is. */
module Fifo {
  import opened Words

  type Ptr = p: int | 0 <= p < 256

  type Ram = s: seq<Byte> | |s| == 256 witness seq<Byte>(256, _ => 0)

  datatype Ring = Ring(ram: Ram, wptr: Ptr, rptr: Ptr)

  function Inc(p: Ptr): Ptr { (p + 1) % 256 }
  predicate Full(f: Ring) { Inc(f.wptr) == f.rptr }
  predicate Empty(f: Ring) { f.wptr == f.rptr }

  datatype Write = NoWrite | Put(data: Byte)
  datatype In = In(write: Write, read: bool)

  /** One clock: a write unless full, a read unless empty, or both. */
  function Next(f: Ring, in_: In): Ring {
    var f1 := if in_.write.Put? && !Full(f) then f.(ram := f.ram[f.wptr := in_.write.data], wptr := Inc(f.wptr)) else f;
    if in_.read && !Empty(f) then f1.(rptr := Inc(f.rptr)) else f1
  }

  /** The value driven by a read. */
  function Head(f: Ring): Byte { f.ram[f.rptr] }

  // ---- the queue ----

  function Count(f: Ring): (n: nat)
    ensures n < 256
  {
    (f.wptr - f.rptr) % 256
  }

  function Queue(f: Ring): (q: seq<Byte>)
    ensures |q| == Count(f)
  {
    seq(Count(f), i requires 0 <= i < Count(f) => f.ram[(f.rptr + i) % 256])
  }

  /** Full and empty are exact: 255 values fit. */
  lemma FlagsExact(f: Ring)
    ensures Empty(f) <==> Queue(f) == []
    ensures Full(f) <==> |Queue(f)| == 255
  {
  }

  lemma SlotsDiffer(f: Ring, i: nat)
    requires i < Count(f) && !Full(f)
    ensures (f.rptr + i) % 256 != f.wptr
  {
  }

  lemma PutAppends(f: Ring, d: Byte)
    requires !Full(f)
    ensures Queue(f.(ram := f.ram[f.wptr := d], wptr := Inc(f.wptr))) == Queue(f) + [d]
  {
    var f' := f.(ram := f.ram[f.wptr := d], wptr := Inc(f.wptr));
    assert Count(f') == Count(f) + 1;
    forall i | 0 <= i < Count(f')
      ensures Queue(f')[i] == (Queue(f) + [d])[i]
    {
      if i < Count(f) { SlotsDiffer(f, i); }
    }
  }

  lemma NextSlot(p: int, i: nat)
    requires 0 <= p < 256
    ensures (Inc(p) + i) % 256 == (p + (i + 1)) % 256
  {
  }

  lemma CountDown(w: Ptr, r: Ptr)
    requires w != r
    ensures (w - Inc(r)) % 256 == (w - r) % 256 - 1
  {
  }

  lemma TakeRemoves(f: Ring)
    requires !Empty(f)
    ensures Queue(f.(rptr := Inc(f.rptr))) == Queue(f)[1..] && Head(f) == Queue(f)[0]
  {
    var f' := f.(rptr := Inc(f.rptr));
    CountDown(f.wptr, f.rptr);
    forall i | 0 <= i < Count(f')
      ensures Queue(f')[i] == Queue(f)[1..][i]
    {
      NextSlot(f.rptr, i);
    }
    assert Queue(f)[0] == f.ram[(f.rptr + 0) % 256];
  }

  function Accepted(f: Ring, in_: In): seq<Byte> {
    if in_.write.Put? && !Full(f) then [in_.write.data] else []
  }

  function Taken(f: Ring, in_: In): seq<Byte> {
    if in_.read && !Empty(f) then [Head(f)] else []
  }

  /** What is taken out and what stays is what was there and what was put in. */
  lemma StepIsQueue(f: Ring, in_: In)
    ensures Taken(f, in_) + Queue(Next(f, in_)) == Queue(f) + Accepted(f, in_)
    ensures Taken(f, in_) == [] || (Queue(f) != [] && Taken(f, in_) == [Queue(f)[0]])
  {
    FlagsExact(f);
    var f1 := if in_.write.Put? && !Full(f) then f.(ram := f.ram[f.wptr := in_.write.data], wptr := Inc(f.wptr)) else f;
    if in_.write.Put? && !Full(f) { PutAppends(f, in_.write.data); }
    if in_.read && !Empty(f) { TakeRemoves(f1); TakeRemoves(f); }
  }

  // ---- runs ----

  function Run(f: Ring, ins: seq<In>): Ring
    decreases |ins|
  {
    if ins == [] then f else Run(Next(f, ins[0]), ins[1..])
  }

  function Puts(f: Ring, ins: seq<In>): seq<Byte>
    decreases |ins|
  {
    if ins == [] then [] else Accepted(f, ins[0]) + Puts(Next(f, ins[0]), ins[1..])
  }

  function Takes(f: Ring, ins: seq<In>): seq<Byte>
    decreases |ins|
  {
    if ins == [] then [] else Taken(f, ins[0]) + Takes(Next(f, ins[0]), ins[1..])
  }

  /** For every run: the values read, then the values still held, are the values held at first,
      then the accepted writes, in order. */
  lemma {:induction false} RunIsQueue(f: Ring, ins: seq<In>)
    ensures Takes(f, ins) + Queue(Run(f, ins)) == Queue(f) + Puts(f, ins)
    decreases |ins|
  {
    if ins != [] {
      var f' := Next(f, ins[0]);
      StepIsQueue(f, ins[0]);
      RunIsQueue(f', ins[1..]);
      calc {
        Takes(f, ins) + Queue(Run(f, ins));
      ==
        Taken(f, ins[0]) + (Takes(f', ins[1..]) + Queue(Run(f', ins[1..])));
      ==
        Taken(f, ins[0]) + (Queue(f') + Puts(f', ins[1..]));
      ==
        (Taken(f, ins[0]) + Queue(f')) + Puts(f', ins[1..]);
      ==
        Queue(f) + Puts(f, ins);
      }
    }
  }

  class Unit {
    const ram: array<Byte>
    var wptr: Ptr
    var rptr: Ptr

    ghost predicate Valid() { ram.Length == 256 }

    ghost function State(): Ring
      requires Valid()
      reads this, ram
    {
      Ring(ram[..], wptr, rptr)
    }

    constructor ()
      ensures Valid() && fresh(ram) && Queue(State()) == []
    {
      ram := new Byte[256](_ => 0);
      wptr, rptr := 0, 0;
    }

    method Clock(in_: In) returns (rdata: Byte)
      requires Valid()
      modifies this, ram
      ensures Valid() && State() == Next(old(State()), in_)
      ensures Taken(old(State()), in_) != [] ==> rdata == old(Queue(State()))[0]
      ensures Taken(old(State()), in_) + Queue(State()) == old(Queue(State())) + Accepted(old(State()), in_)
    {
      StepIsQueue(State(), in_);
      rdata := ram[rptr];
      var full, empty := Inc(wptr) == rptr, wptr == rptr;
      if in_.write.Put? && !full {
        ram[wptr] := in_.write.data;
        wptr := Inc(wptr);
      }
      if in_.read && !empty {
        rptr := Inc(rptr);
      }
    }
  }
}
