/** Fetch and execute as the clocked object they are: the buffer, the instructions fetched and
    not yet executed, and the PC register change in place. */
module FrontEndUnit {
  import opened Words
  import Btb
  import opened FrontEnd

  class Unit {
    const buffer: Btb.Unit
    var pending: seq<Fetched>
    var pc: Word

    ghost predicate Valid()
      reads buffer
    {
      buffer.Valid()
    }

    ghost function State(): Front
      requires Valid()
      reads this, buffer, buffer.address, buffer.target, buffer.state
    {
      Front(buffer.Contents(), pending, pc)
    }

    constructor (reset: Word)
      ensures Valid() && State() == Restart(Btb.Flushed(), reset)
      ensures fresh(buffer) && fresh(buffer.address) && fresh(buffer.target) && fresh(buffer.state)
    {
      buffer := new Btb.Unit();
      pending, pc := [], reset;
    }

    method ClockFetch()
      requires Valid()
      modifies this
      ensures State() == Fetch(old(State()))
    {
      var p := buffer.ClockPredict(pc);
      var next := if p.taken then p.newPc else Plus(pc, 4);
      pending, pc := pending + [Fetched(pc, Btb.Prediction(p.taken, next))], next;
    }

    /** The oldest fetched instruction is executed. */
    method ClockExecute(i: Inst, a: Word, b: Word, vector: Word)
      requires Valid() && pending != []
      modifies this, buffer.address, buffer.target, buffer.state
      ensures State() == Execute(i, old(State()), a, b, vector)
    {
      var h := pending[0];
      match i
      case Branch(cc, imm) =>
        var target, taken := Plus(h.pc, imm), Taken(cc, a, b);
        if taken != h.guess.taken {
          buffer.ClockUpdate(h.pc, target, taken, false);
        }
        if taken && !Aligned(target) {
          pending, pc := [], vector;
        } else if taken != h.guess.taken {
          pending, pc := [], if taken then target else Plus(h.pc, 4);
        } else {
          pending := pending[1..];
        }
      case Jal(imm) =>
        pending, pc := [], if Aligned(Plus(h.pc, imm)) then Plus(h.pc, imm) else vector;
      case Jalr(imm) =>
        pending, pc := [], if Aligned(Plus(a, JumpImm(imm))) then Plus(a, JumpImm(imm)) else vector;
      case Sync =>
        buffer.ClockFlush();
        pending, pc := [], Plus(h.pc, 4);
      case Plain =>
        pending := pending[1..];
    }

    /** A trap or a return overrides the flow of execution. */
    method ClockTrap(vector: Word)
      requires Valid()
      modifies this
      ensures State() == Restart(old(State()).table, vector)
    {
      pending, pc := [], vector;
    }
  }
}
