/** The branch target buffer: 32 entries selected by the low five bits of the PC, each with a
    full branch address, a target and a two-bit state. */
module Btb {
  import opened Words

  type Counter = s: int | 0 <= s < 4

  datatype Entry = Entry(address: Word, target: Word, state: Counter)

  const EMPTY := Entry(0, 0, 0)

  type Table = t: seq<Entry> | |t| == 32 witness seq(32, _ => EMPTY)

  function Index(pc: Word): int { pc % 32 }

  predicate Hit(t: Table, pc: Word) { t[Index(pc)].address == pc }

  /** Whether the branch is predicted taken, and the PC the buffer then offers. */
  datatype Prediction = Prediction(taken: bool, newPc: Word)

  function Predict(t: Table, pc: Word): Prediction {
    var e := t[Index(pc)];
    if e.address == pc && (e.state == 2 || e.state == 3) then Prediction(true, e.target) else Prediction(false, pc)
  }

  /** update_prediction_state. */
  function Moved(s: Counter, taken: bool): Counter {
    match s
    case 0 => if taken then 1 else 0
    case 1 => if taken then 2 else 0
    case 2 => if taken then 3 else 1
    case _ => if taken then 3 else 2
  }

  /** It counts up to 3 and down to 0. */
  lemma CounterSaturates(s: Counter, taken: bool)
    ensures Moved(s, taken) == if taken then (if s + 1 < 3 then s + 1 else 3) else (if s > 1 then s - 1 else 0)
  {
  }

  function Update(t: Table, pc: Word, target: Word, taken: bool): Table {
    t[Index(pc) := Entry(pc, target, if Hit(t, pc) then Moved(t[Index(pc)].state, taken) else 0)]
  }

  function Flushed(): Table { seq(32, _ => EMPTY) }

  /** The three memories of the buffer. */
  class Unit {
    const address: array<Word>
    const target: array<Word>
    const state: array<Counter>

    ghost predicate Valid()
      reads this
    {
      && address.Length == 32 && target.Length == 32 && state.Length == 32
      && address != target
    }

    ghost function Contents(): (t: Table)
      reads this, address, target, state
      requires Valid()
    {
      seq(32, k requires 0 <= k < 32 reads this, address, target, state requires Valid() =>
        Entry(address[k], target[k], state[k]))
    }

    constructor ()
      ensures Valid() && fresh(address) && fresh(target) && fresh(state) && Contents() == Flushed()
    {
      address := new Word[32](_ => 0);
      target := new Word[32](_ => 0);
      state := new Counter[32](_ => 0);
    }

    method ClockPredict(pc: Word) returns (p: Prediction)
      requires Valid()
      ensures p == Predict(Contents(), pc)
    {
      var k := Index(pc);
      if address[k] == pc && (state[k] == 2 || state[k] == 3) {
        p := Prediction(true, target[k]);
      } else {
        p := Prediction(false, pc);
      }
    }

    /** A flush in the same clock wins. */
    method ClockUpdate(pc: Word, to: Word, taken: bool, flush: bool)
      requires Valid()
      modifies address, target, state
      ensures Contents() == if flush then Flushed() else old(Update(Contents(), pc, to, taken))
    {
      if flush {
        ClockFlush();
      } else {
        var k := Index(pc);
        if address[k] == pc {
          state[k] := Moved(state[k], taken);
        } else {
          state[k] := 0;
        }
        address[k] := pc;
        target[k] := to;
      }
    }

    method ClockFlush()
      requires Valid()
      modifies address, target, state
      ensures Contents() == Flushed()
    {
      for i := 0 to 32
        invariant forall k :: 0 <= k < i ==> address[k] == 0 && target[k] == 0 && state[k] == 0
      {
        state[i], address[i], target[i] := 0, 0, 0;
      }
    }
  }
}
