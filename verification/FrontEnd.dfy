/** Branch resolution: instructions are fetched along the predicted path, executed in order, and
    a wrong path is dropped. Fetches run any distance ahead of execution. */
module FrontEnd {
  import opened Words
  import opened Arith
  import opened Btb

  type Funct3 = f: int | 0 <= f < 8

  const BEQ: Funct3 := 0
  const BNE: Funct3 := 1
  const BLT: Funct3 := 4
  const BGE: Funct3 := 5
  const BLTU: Funct3 := 6
  const BGEU: Funct3 := 7

  /** An instruction with its sign-extended immediate. Sync is fence.i or sfence.vma. */
  datatype Inst = Branch(cc: Funct3, imm: Word) | Jal(imm: Word) | Jalr(imm: Word) | Sync | Plain

  type Code = Word -> Inst

  function Plus(a: Word, b: Word): Word { (a + b) % TWO32 }

  /** What the decoder hands on for a register jump: bit 0 of the immediate is cleared there, before
      the addition, and not in the sum. */
  function JumpImm(imm: Word): Word { imm - imm % 2 }

  // ---- comparison ----

  /** The ALU's SLT and SLTU: the zero flag and bit 0 of the result. */
  function Compare(unsigned: bool, a: Word, b: Word): (bool, bool) {
    var x, y := if unsigned then ZeroExtend(a) else SignExtend(a), if unsigned then ZeroExtend(b) else SignExtend(b);
    (Difference(x, y) == 0, Borrow(x, y))
  }

  /** The decoder's choice of function, then condcheck. */
  predicate Taken(cc: Funct3, a: Word, b: Word) {
    var (eq, lt) := Compare(cc == BLTU || cc == BGEU, a, b);
    || (cc == BEQ && eq) || (cc == BNE && !eq) || (cc == BLT && lt) || (cc == BLTU && lt)
    || (cc == BGE && !lt) || (cc == BGEU && !lt)
  }

  // ---- fetch and execute ----

  datatype Fetched = Fetched(pc: Word, guess: Prediction)

  datatype Front = Front(table: Table, pending: seq<Fetched>, pc: Word)

  /** The fetch stage takes the next sequential PC itself when the buffer does not predict taken. */
  function Fetch(f: Front): Front {
    var p := Predict(f.table, f.pc);
    var next := if p.taken then p.newPc else Plus(f.pc, 4);
    f.(pending := f.pending + [Fetched(f.pc, Prediction(p.taken, next))], pc := next)
  }

  predicate Aligned(pc: Word) { pc % 4 == 0 }

  /** Drop what was fetched and go to `pc`. */
  function Restart(t: Table, pc: Word): Front { Front(t, [], pc) }

  /** The oldest fetched instruction, with operands a and b; `vector` is where a misaligned
      target traps to. */
  function Execute(i: Inst, f: Front, a: Word, b: Word, vector: Word): Front
    requires f.pending != []
  {
    var h := f.pending[0];
    match i
    case Branch(cc, imm) =>
      var target, taken := Plus(h.pc, imm), Taken(cc, a, b);
      var t := if taken != h.guess.taken then Update(f.table, h.pc, target, taken) else f.table;
      if taken && !Aligned(target) then Restart(t, vector)
      else if !taken && h.guess.taken then Restart(t, Plus(h.pc, 4))
      else if taken && !h.guess.taken then Restart(t, target)
      else Front(t, f.pending[1..], f.pc)
    case Jal(imm) => Restart(f.table, if Aligned(Plus(h.pc, imm)) then Plus(h.pc, imm) else vector)
    case Jalr(imm) => Restart(f.table, if Aligned(Plus(a, JumpImm(imm))) then Plus(a, JumpImm(imm)) else vector)
    case Sync => Restart(Flushed(), Plus(h.pc, 4))
    case Plain => f.(pending := f.pending[1..])
  }

  /** `next` is the code seen after a fence.i or sfence.vma. A trap or return goes to `to` and, because
      it may change the privilege level and with it the meaning of a PC, to the code `next`. */
  datatype Event = DoFetch | DoExecute(a: Word, b: Word, vector: Word, next: Code) | Redirect(to: Word, next: Code)

  predicate Possible(f: Front, e: Event) { e.DoExecute? ==> f.pending != [] }

  function Step(code: Code, f: Front, e: Event): Front
    requires Possible(f, e)
  {
    match e
    case DoFetch => Fetch(f)
    case DoExecute(a, b, vector, _) => Execute(code(f.pending[0].pc), f, a, b, vector)
    case Redirect(to, _) => Restart(f.table, to)
  }

  /** Code changes where a fence, a trap or a return lets it; the buffer is told of fences only. */
  function CodeAfter(code: Code, pc: Word, e: Event): Code {
    match e
    case DoFetch => code
    case DoExecute(_, _, _, next) => if code(pc).Sync? then next else code
    case Redirect(_, next) => next
  }
}

module FrontEndProof {
  import opened Words
  import opened Arith
  import opened Btb
  import opened FrontEnd

  // ---- what RV32I says ----

  /** Section 2.5 of the RISC-V Unprivileged ISA 20191213. */
  predicate IsaTakes(cc: Funct3, a: Word, b: Word) {
    match cc
    case 0 => a == b
    case 1 => a != b
    case 4 => Signed(a) < Signed(b)
    case 5 => Signed(a) >= Signed(b)
    case 6 => a < b
    case 7 => a >= b
    case _ => false
  }

  function OrTrap(target: Word, vector: Word): Word { if target % 4 == 0 then target else vector }

  /** The PC after the instruction at `pc`. */
  function IsaNext(i: Inst, pc: Word, a: Word, b: Word, vector: Word): Word {
    match i
    case Branch(cc, imm) => if IsaTakes(cc, a, b) then OrTrap((pc + imm) % TWO32, vector) else (pc + 4) % TWO32
    case Jal(imm) => OrTrap((pc + imm) % TWO32, vector)
    case Jalr(imm) => var sum := (a + imm) % TWO32; OrTrap(sum - sum % 2, vector)
    case _ => (pc + 4) % TWO32
  }

  /** All six comparisons are decided correctly by the 33-bit subtraction. */
  lemma ComparisonsAreRight(cc: Funct3, a: Word, b: Word)
    ensures Taken(cc, a, b) <==> IsaTakes(cc, a, b)
  {
    UnsignedLess(a, b);
    SignedLess(a, b);
    EqualIffZero(a, b);
  }

  // ---- what the buffer and the fetched instructions keep ----

  /** The two reserved conditions are never taken. */
  predicate CanTake(cc: Funct3) { cc != 2 && cc != 3 }

  /** A prediction of taken to this target can be trusted: the instruction is a branch to it, or one
      that is repaired whatever was predicted, or goes there anyway. */
  predicate SafeTarget(i: Inst, pc: Word, target: Word) {
    match i
    case Branch(cc, imm) => target == Plus(pc, imm) || !Aligned(Plus(pc, imm)) || !CanTake(cc)
    case Plain => target == Plus(pc, 4)
    case _ => true
  }

  /** Entries in states 2 and 3 predict; the others say nothing. */
  predicate EntrySafe(code: Code, e: Entry) { e.state >= 2 ==> SafeTarget(code(e.address), e.address, e.target) }

  predicate TableSafe(code: Code, t: Table) { forall k | 0 <= k < 32 :: EntrySafe(code, t[k]) }

  /** A predicting entry stands where its address is looked up. */
  predicate Placed(t: Table) { forall k | 0 <= k < 32 :: t[k].state >= 2 ==> Index(t[k].address) == k }

  predicate GuessSafe(code: Code, g: Fetched) {
    if g.guess.taken then SafeTarget(code(g.pc), g.pc, g.guess.newPc) else g.guess.newPc == Plus(g.pc, 4)
  }

  /** The fetched instructions form one predicted path that starts at `pc` and ends at the fetch PC. */
  predicate Chained(q: seq<Fetched>, pc: Word, fetch: Word) {
    if q == [] then pc == fetch else q[0].pc == pc && Chained(q[1..], q[0].guess.newPc, fetch)
  }

  ghost predicate Inv(code: Code, f: Front, pc: Word) {
    && TableSafe(code, f.table) && Placed(f.table)
    && (forall k | 0 <= k < |f.pending| :: GuessSafe(code, f.pending[k]))
    && Chained(f.pending, pc, f.pc)
  }

  lemma {:induction false} ChainedGrows(q: seq<Fetched>, pc: Word, g: Fetched)
    requires Chained(q, pc, g.pc)
    ensures Chained(q + [g], pc, g.guess.newPc)
  {
    if q == [] {
      assert (q + [g])[1..] == [];
    } else {
      assert (q + [g])[1..] == q[1..] + [g];
      ChainedGrows(q[1..], q[0].guess.newPc, g);
    }
  }

  lemma FetchKeeps(code: Code, f: Front, pc: Word)
    requires Inv(code, f, pc)
    ensures Inv(code, Fetch(f), pc)
  {
    var p := Predict(f.table, f.pc);
    var next := if p.taken then p.newPc else Plus(f.pc, 4);
    assert EntrySafe(code, f.table[Index(f.pc)]);
    ChainedGrows(f.pending, pc, Fetched(f.pc, Prediction(p.taken, next)));
  }

  lemma UpdateKeeps(code: Code, t: Table, pc: Word, target: Word, taken: bool)
    requires TableSafe(code, t) && Placed(t) && SafeTarget(code(pc), pc, target)
    ensures TableSafe(code, Update(t, pc, target, taken)) && Placed(Update(t, pc, target, taken))
  {
  }

  /** Where RV32I goes on a register jump, before alignment. */
  function JumpTarget(a: Word, imm: Word): Word { var sum := Plus(a, imm); sum - sum % 2 }

  /** A register jump from an odd base to an aligned target: the core, which has cleared the
      immediate's last bit and not the sum's, traps. */
  predicate RefusedJump(i: Inst, a: Word) { i.Jalr? && a % 2 == 1 && JumpTarget(a, i.imm) % 4 == 0 }

  lemma Wraps(a: Word, imm: Word)
    ensures Plus(a, imm) == if a + imm < TWO32 then a + imm else a + imm - TWO32
  {
  }

  lemma ParityOfSum(a: Word, imm: Word)
    ensures Plus(a, imm) % 2 == (a + imm) % 2
  {
    Wraps(a, imm);
  }

  lemma OneLess(a: Word, imm: Word)
    requires imm > 0 && Plus(a, imm) > 0
    ensures Plus(a, imm - 1) == Plus(a, imm) - 1
  {
    Wraps(a, imm);
    Wraps(a, imm - 1);
  }

  /** From an even base the core goes where RV32I goes; from an odd one to an odd address. */
  lemma CoreTarget(a: Word, imm: Word)
    ensures a % 2 == 0 ==> Plus(a, JumpImm(imm)) == JumpTarget(a, imm)
    ensures a % 2 == 1 ==> Plus(a, JumpImm(imm)) % 2 == 1
  {
    ParityOfSum(a, imm);
    ParityOfSum(a, JumpImm(imm));
    if a % 2 == 0 && imm % 2 == 1 { OneLess(a, imm); }
  }

  /** Where the core goes, against where RV32I goes. */
  lemma RegisterJumpTarget(a: Word, imm: Word, vector: Word)
    ensures var core := Plus(a, JumpImm(imm));
            (if Aligned(core) then core else vector) == OrTrap(JumpTarget(a, imm), vector)
            <==> !(a % 2 == 1 && JumpTarget(a, imm) % 4 == 0) || vector == JumpTarget(a, imm)
  {
    CoreTarget(a, imm);
    var core, isa := Plus(a, JumpImm(imm)), JumpTarget(a, imm);
    if a % 2 == 1 { assert core % 4 != 0; }
  }

  /** With base 1 and immediate 4, RV32I goes to 4 and the core to its trap vector; with base 0 and
      immediate 5 both go to 4. */
  lemma OddBaseTraps(f: Front, b: Word, vector: Word)
    requires f.pending != [] && vector != 4
    ensures IsaNext(Jalr(4), f.pending[0].pc, 1, b, vector) == 4 && Execute(Jalr(4), f, 1, b, vector).pc == vector
    ensures IsaNext(Jalr(5), f.pending[0].pc, 0, b, vector) == 4 && Execute(Jalr(5), f, 0, b, vector).pc == 4
  {
  }

  /** Whatever was predicted and whatever the outcome, the front end goes on along the path that
      starts at RV32I's next PC; exactly when the instruction is not a jump the core refuses. */
  lemma ResolutionIsRight(code: Code, f: Front, pc: Word, a: Word, b: Word, vector: Word)
    requires Inv(code, f, pc) && f.pending != []
    ensures f.pending[0].pc == pc
    ensures var i := code(pc); var f' := Execute(i, f, a, b, vector);
            Chained(f'.pending, IsaNext(i, pc, a, b, vector), f'.pc)
            <==> !RefusedJump(i, a) || vector == JumpTarget(a, i.imm)
  {
    var h := f.pending[0];
    assert GuessSafe(code, h);
    match code(pc)
    case Branch(cc, imm) =>
      var taken := Taken(cc, a, b);
      ComparisonsAreRight(cc, a, b);
      assert IsaNext(code(pc), pc, a, b, vector) == if taken then OrTrap(Plus(pc, imm), vector) else Plus(pc, 4);
    case Jalr(imm) =>
      RegisterJumpTarget(a, imm, vector);
      assert IsaNext(code(pc), pc, a, b, vector) == OrTrap(JumpTarget(a, imm), vector);
    case _ =>
  }

  lemma ExecuteKeeps(code: Code, f: Front, pc: Word, e: Event)
    requires Inv(code, f, pc) && e.DoExecute? && Possible(f, e) && !RefusedJump(code(pc), e.a)
    ensures Inv(CodeAfter(code, pc, e), Step(code, f, e), IsaNext(code(pc), pc, e.a, e.b, e.vector))
  {
    ResolutionIsRight(code, f, pc, e.a, e.b, e.vector);
    assert GuessSafe(code, f.pending[0]);
    if code(pc).Branch? { UpdateKeeps(code, f.table, pc, Plus(pc, code(pc).imm), Taken(code(pc).cc, e.a, e.b)); }
  }

  // ---- runs ----

  /** One instruction, trap or return of the sequential machine; fetches are not its steps. */
  function IsaStep(code: Code, pc: Word, e: Event): Word {
    match e
    case DoFetch => pc
    case DoExecute(a, b, vector, _) => IsaNext(code(pc), pc, a, b, vector)
    case Redirect(to, _) => to
  }

  /** The PCs the sequential machine executes. */
  function IsaPath(code: Code, pc: Word, es: seq<Event>): seq<Word>
    decreases |es|
  {
    if es == [] then []
    else (if es[0].DoExecute? then [pc] else []) + IsaPath(CodeAfter(code, pc, es[0]), IsaStep(code, pc, es[0]), es[1..])
  }

  /** The PC that code changes are judged at: the instruction executed. */
  function At(f: Front, e: Event): Word
    requires Possible(f, e)
  {
    if e.DoExecute? then f.pending[0].pc else f.pc
  }

  function NextCode(code: Code, f: Front, e: Event): Code
    requires Possible(f, e)
  {
    CodeAfter(code, At(f, e), e)
  }

  /** The events can happen to the front end. */
  predicate PossibleRun(code: Code, f: Front, es: seq<Event>)
    decreases |es|
  {
    es == [] || (Possible(f, es[0]) && PossibleRun(NextCode(code, f, es[0]), Step(code, f, es[0]), es[1..]))
  }

  /** What the program must not do: a register jump the core refuses, and a trap or return to code
      that contradicts a prediction still in the buffer. */
  predicate Allowed(code: Code, f: Front, e: Event)
    requires Possible(f, e)
  {
    && (e.DoExecute? ==> !RefusedJump(code(f.pending[0].pc), e.a))
    && (e.Redirect? ==> TableSafe(e.next, f.table))
  }

  predicate AllowedRun(code: Code, f: Front, es: seq<Event>)
    requires PossibleRun(code, f, es)
    decreases |es|
  {
    es == [] || (Allowed(code, f, es[0]) && AllowedRun(NextCode(code, f, es[0]), Step(code, f, es[0]), es[1..]))
  }

  /** The PCs the core executes. */
  function Executed(code: Code, f: Front, es: seq<Event>): seq<Word>
    requires PossibleRun(code, f, es)
    decreases |es|
  {
    if es == [] then []
    else (if es[0].DoExecute? then [f.pending[0].pc] else []) + Executed(NextCode(code, f, es[0]), Step(code, f, es[0]), es[1..])
  }

  lemma StepKeeps(code: Code, f: Front, pc: Word, e: Event)
    requires Inv(code, f, pc) && Possible(f, e) && Allowed(code, f, e)
    ensures NextCode(code, f, e) == CodeAfter(code, pc, e)
    ensures e.DoExecute? ==> f.pending[0].pc == pc
    ensures Inv(NextCode(code, f, e), Step(code, f, e), IsaStep(code, pc, e))
  {
    match e
    case DoFetch => FetchKeeps(code, f, pc);
    case DoExecute(_, _, _, _) => ExecuteKeeps(code, f, pc, e);
    case Redirect(_, _) =>
  }

  lemma {:induction false} RunIsPath(code: Code, f: Front, pc: Word, es: seq<Event>)
    requires Inv(code, f, pc) && PossibleRun(code, f, es) && AllowedRun(code, f, es)
    ensures Executed(code, f, es) == IsaPath(code, pc, es)
    decreases |es|
  {
    if es != [] {
      StepKeeps(code, f, pc, es[0]);
      RunIsPath(NextCode(code, f, es[0]), Step(code, f, es[0]), IsaStep(code, pc, es[0]), es[1..]);
    }
  }

  function Reset(pc: Word): Front { Front(Flushed(), [], pc) }

  /** From a flushed buffer, for every program, every way fetches run ahead, all operands, fences, and
      traps and returns to code that no prediction in the buffer contradicts, the core executes RV32I's
      sequence of PCs. */
  lemma ExecutesTheIsaPath(code: Code, pc: Word, es: seq<Event>)
    requires PossibleRun(code, Reset(pc), es) && AllowedRun(code, Reset(pc), es)
    ensures Executed(code, Reset(pc), es) == IsaPath(code, pc, es)
  {
    RunIsPath(code, Reset(pc), pc, es);
  }

  // ---- traps and returns to other code ----

  /** Whatever is executed after a trap or return, and wherever it goes, is RV32I's path, as long as
      the new code does neither of the two things. */
  ghost predicate RightAfterRedirect(code: Code, t: Table) {
    forall to: Word, es: seq<Event> :: PossibleRun(code, Restart(t, to), es) && AllowedRun(code, Restart(t, to), es)
      ==> Executed(code, Restart(t, to), es) == IsaPath(code, to, es)
  }

  /** Operands with which a branch that can be taken is taken. */
  function TakenWith(cc: Funct3): (Word, Word) {
    if cc == BNE || cc == BLTU then (0, 1) else if cc == BLT then (TWO32 - 1, 0) else (0, 0)
  }

  lemma TakenWithIsTaken(cc: Funct3)
    requires CanTake(cc)
    ensures var (a, b) := TakenWith(cc); IsaTakes(cc, a, b) && Taken(cc, a, b)
  {
    var (a, b) := TakenWith(cc);
    ComparisonsAreRight(cc, a, b);
  }

  function Go(code: Code, a: Word, b: Word): Event { DoExecute(a, b, 0, code) }

  /** Four events: the instruction a bad entry predicts, and the one after it. */
  function TwoInstructions(code: Code, a: Word, b: Word): seq<Event> {
    [DoFetch, Go(code, a, b), DoFetch, Go(code, 0, 0)]
  }

  /** One instruction fetched and executed from a fresh start. */
  lemma OneInstruction(code: Code, t: Table, pc: Word)
    requires !RefusedJump(code(pc), 0)
    ensures var es := [DoFetch, Go(code, 0, 0)]; var f := Restart(t, pc);
            PossibleRun(code, f, es) && AllowedRun(code, f, es) && Executed(code, f, es) == [pc]
  {
    var es, go := [DoFetch, Go(code, 0, 0)], Go(code, 0, 0);
    var f := Fetch(Restart(t, pc));
    assert f.pending[0].pc == pc && es[1..] == [go] && [go][1..] == [];
    var c', f' := NextCode(code, f, go), Step(code, f, go);
    assert PossibleRun(c', f', []) && AllowedRun(c', f', []) && Executed(c', f', []) == [];
    assert PossibleRun(code, f, [go]) && AllowedRun(code, f, [go]) && Executed(code, f, [go]) == [pc];
  }

  /** A front end that fetches one instruction, goes on as predicted, and executes the next. */
  lemma GoesAsPredicted(code: Code, t: Table, pc: Word, a: Word, b: Word)
    requires Predict(t, pc).taken && !RefusedJump(code(pc), a)
    requires var f := Fetch(Restart(t, pc)); Execute(code(pc), f, a, b, 0) == Restart(t, f.pc)
    requires !code(pc).Sync?
    ensures var es := TwoInstructions(code, a, b); var f := Restart(t, pc);
            && PossibleRun(code, f, es) && AllowedRun(code, f, es)
            && Executed(code, f, es) == [pc, Predict(t, pc).newPc]
  {
    var es, go, rest := TwoInstructions(code, a, b), Go(code, a, b), [DoFetch, Go(code, 0, 0)];
    var f := Fetch(Restart(t, pc));
    var target := Predict(t, pc).newPc;
    assert f.pending == [Fetched(pc, Predict(t, pc))] && f.pc == target;
    assert !RefusedJump(code(target), 0);
    OneInstruction(code, t, target);
    assert es[1..] == [go] + rest && ([go] + rest)[1..] == rest;
    assert PossibleRun(code, f, [go] + rest) && AllowedRun(code, f, [go] + rest);
    assert Executed(code, f, [go] + rest) == [pc] + [target];
  }

  lemma TwoOfPath(code: Code, pc: Word, a: Word, b: Word)
    requires !code(pc).Sync?
    ensures IsaPath(code, pc, TwoInstructions(code, a, b)) == [pc, IsaNext(code(pc), pc, a, b, 0)]
  {
    var es := TwoInstructions(code, a, b);
    var next := IsaNext(code(pc), pc, a, b, 0);
    assert es[1..] == [Go(code, a, b), DoFetch, Go(code, 0, 0)];
    assert es[1..][1..] == [DoFetch, Go(code, 0, 0)];
    assert es[1..][1..][1..] == [Go(code, 0, 0)];
    assert es[1..][1..][1..][1..] == [];
    assert IsaPath(code, next, [Go(code, 0, 0)]) == [next];
    assert IsaPath(code, next, es[1..][1..]) == [next];
    assert IsaPath(code, pc, es[1..]) == [pc] + [next];
  }

  /** An entry that predicts, for the code now seen at its address, somewhere that code does not go. */
  lemma UnsafeEntryMisleads(code: Code, t: Table, k: nat)
    requires k < 32 && Placed(t) && !EntrySafe(code, t[k])
    ensures !RightAfterRedirect(code, t)
  {
    var pc, target, i := t[k].address, t[k].target, code(t[k].address);
    assert Predict(t, pc) == Prediction(true, target);
    var (a, b) := if i.Branch? then TakenWith(i.cc) else (0, 0);
    if i.Branch? { TakenWithIsTaken(i.cc); }
    var f := Fetch(Restart(t, pc));
    assert f.pending[1..] == [];
    assert Execute(i, f, a, b, 0) == Restart(t, f.pc);
    GoesAsPredicted(code, t, pc, a, b);
    TwoOfPath(code, pc, a, b);
    assert Executed(code, Restart(t, pc), TwoInstructions(code, a, b))[1] == target;
    assert IsaPath(code, pc, TwoInstructions(code, a, b))[1] != target;
  }

  /** A trap or return to other code, with the buffer as it is, is right wherever it goes and whatever
      follows, exactly when no prediction in the buffer contradicts that code. */
  lemma RedirectRightExactly(code: Code, t: Table)
    requires Placed(t)
    ensures RightAfterRedirect(code, t) <==> TableSafe(code, t)
  {
    if TableSafe(code, t) {
      forall to: Word, es: seq<Event> | PossibleRun(code, Restart(t, to), es) && AllowedRun(code, Restart(t, to), es)
        ensures Executed(code, Restart(t, to), es) == IsaPath(code, to, es)
      {
        RunIsPath(code, Restart(t, to), to, es);
      }
    } else {
      var k :| 0 <= k < 32 && !EntrySafe(code, t[k]);
      UnsafeEntryMisleads(code, t, k);
    }
  }

  /** A program that branches to itself at 4, and one with nothing but plain instructions. */
  function Looping(): Code { _ => Branch(BEQ, 0) }
  function Straight(): Code { _ => Plain }

  /** One turn of the loop: the branch at 4 is not predicted and taken. */
  lemma Turn(t: Table, rest: seq<Event>)
    requires !Predict(t, 4).taken && PossibleRun(Looping(), Restart(Update(t, 4, 4, true), 4), rest)
    ensures var es := [DoFetch, Go(Looping(), 0, 0)] + rest;
            && PossibleRun(Looping(), Restart(t, 4), es)
            && Executed(Looping(), Restart(t, 4), es) == [4] + Executed(Looping(), Restart(Update(t, 4, 4, true), 4), rest)
            && IsaPath(Looping(), 4, es) == [4] + IsaPath(Looping(), 4, rest)
  {
    var es, go := [DoFetch, Go(Looping(), 0, 0)] + rest, Go(Looping(), 0, 0);
    ComparisonsAreRight(BEQ, 0, 0);
    var f := Fetch(Restart(t, 4));
    assert Execute(Branch(BEQ, 0), f, 0, 0, 0) == Restart(Update(t, 4, 4, true), 4);
    assert es[1..] == [go] + rest && es[1..][1..] == rest;
    assert PossibleRun(Looping(), f, [go] + rest);
  }

  /** A trap goes to 4 in straight code, with a prediction for 4 in the buffer. */
  lemma TrapToStraight(t: Table)
    requires t[Index(4)] == Entry(4, 4, 2)
    ensures var es := [Redirect(4, Straight())] + TwoInstructions(Straight(), 0, 0);
            && PossibleRun(Looping(), Restart(t, 4), es)
            && Executed(Looping(), Restart(t, 4), es) == [4, 4] && IsaPath(Looping(), 4, es) == [4, 8]
  {
    var two := TwoInstructions(Straight(), 0, 0);
    var f := Fetch(Restart(t, 4));
    assert f.pending[1..] == [];
    GoesAsPredicted(Straight(), t, 4, 0, 0);
    TwoOfPath(Straight(), 4, 0, 0);
    assert ([Redirect(4, Straight())] + two)[1..] == two;
  }

  /** From reset, three turns of the loop leave a prediction in the buffer. After a trap to 4 in straight
      code the core executes 4 again where RV32I goes to 8. */
  lemma StalePredictionAfterTrap() returns (es: seq<Event>)
    ensures PossibleRun(Looping(), Reset(4), es)
    ensures Executed(Looping(), Reset(4), es) == [4, 4, 4, 4, 4] && IsaPath(Looping(), 4, es) == [4, 4, 4, 4, 8]
  {
    var t1 := Update(Flushed(), 4, 4, true);
    var t2 := Update(t1, 4, 4, true);
    var t3 := Update(t2, 4, 4, true);
    assert t3[Index(4)] == Entry(4, 4, 2);
    var turn := [DoFetch, Go(Looping(), 0, 0)];
    var last := [Redirect(4, Straight())] + TwoInstructions(Straight(), 0, 0);
    TrapToStraight(t3);
    Turn(t2, last);
    Turn(t1, turn + last);
    Turn(Flushed(), turn + (turn + last));
    es := turn + (turn + (turn + last));
  }

  // ---- while the code at each PC is the same between fences ----

  predicate BranchTo(i: Inst, pc: Word, target: Word) { i.Branch? && target == Plus(pc, i.imm) }

  /** An entry that has counted a taken branch belongs to a branch and holds its real target. */
  predicate TableReal(code: Code, t: Table) {
    forall k | 0 <= k < 32 :: t[k].state >= 1 ==> BranchTo(code(t[k].address), t[k].address, t[k].target)
  }

  /** Every prediction of taken in flight is for a branch, with its real target. */
  predicate GuessesReal(code: Code, f: Front) {
    forall k | 0 <= k < |f.pending| ::
      f.pending[k].guess.taken ==> BranchTo(code(f.pending[k].pc), f.pending[k].pc, f.pending[k].guess.newPc)
  }

  predicate Real(code: Code, f: Front) { TableReal(code, f.table) && GuessesReal(code, f) }

  lemma RealFetch(code: Code, f: Front)
    requires Real(code, f)
    ensures Real(code, Fetch(f))
  {
    assert f.table[Index(f.pc)].state >= 1 && f.table[Index(f.pc)].address == f.pc
           ==> BranchTo(code(f.pc), f.pc, f.table[Index(f.pc)].target);
  }

  lemma RealExecute(code: Code, f: Front, e: Event)
    requires Real(code, f) && e.DoExecute? && Possible(f, e)
    ensures Real(NextCode(code, f, e), Step(code, f, e))
  {
  }

  /** Traps and returns go to the same code. */
  ghost predicate SameCode(code: Code, f: Front, es: seq<Event>)
    requires PossibleRun(code, f, es)
    decreases |es|
  {
    es == [] || ((es[0].Redirect? ==> es[0].next == code)
                 && SameCode(NextCode(code, f, es[0]), Step(code, f, es[0]), es[1..]))
  }

  lemma {:induction false} RunReal(code: Code, f: Front, es: seq<Event>) returns (now: Code)
    requires Real(code, f) && PossibleRun(code, f, es) && SameCode(code, f, es)
    ensures now == CodeTo(code, f, es) && Real(now, After(code, f, es))
    decreases |es|
  {
    if es == [] { return code; }
    match es[0] {
      case DoFetch => RealFetch(code, f);
      case DoExecute(_, _, _, _) => RealExecute(code, f, es[0]);
      case Redirect(_, _) =>
    }
    now := RunReal(NextCode(code, f, es[0]), Step(code, f, es[0]), es[1..]);
  }

  /** The code seen at the end of a run. */
  function CodeTo(code: Code, f: Front, es: seq<Event>): Code
    requires PossibleRun(code, f, es)
    decreases |es|
  {
    if es == [] then code else CodeTo(NextCode(code, f, es[0]), Step(code, f, es[0]), es[1..])
  }

  /** In every run from a flushed buffer in which code changes at fences only: every PC the buffer predicts
      taken, and every one in flight, is a branch, and the predicted PC is its real target. */
  lemma PredictedTakenIsABranch(code: Code, pc: Word, es: seq<Event>, at: Word)
    requires PossibleRun(code, Reset(pc), es) && SameCode(code, Reset(pc), es)
    ensures var f, now := After(code, Reset(pc), es), CodeTo(code, Reset(pc), es);
            && GuessesReal(now, f)
            && (Predict(f.table, at).taken ==> BranchTo(now(at), at, Predict(f.table, at).newPc))
  {
    var now := RunReal(code, Reset(pc), es);
    var f := After(code, Reset(pc), es);
    assert f.table[Index(at)].state >= 1
           ==> BranchTo(now(f.table[Index(at)].address), f.table[Index(at)].address, f.table[Index(at)].target);
  }

  // ---- how the two-bit state moves ----

  /** The buffer is updated on mispredictions only, so its state never counts to 3, and a
      prediction of taken is withdrawn by one misprediction, not two. */
  ghost predicate NeverStrong(t: Table) { forall k | 0 <= k < 32 :: t[k].state <= 2 }

  lemma MispredictionMoves(t: Table, pc: Word, target: Word)
    requires NeverStrong(t)
    ensures var taken := !Predict(t, pc).taken;
            var t' := Update(t, pc, target, taken);
            && NeverStrong(t')
            && (Predict(t', pc).taken <==> Hit(t, pc) && t[Index(pc)].state == 1)
  {
  }

  /** Every misprediction drops what was fetched after it, so the guesses still pending are the
      buffer's present ones. */
  ghost predicate Weak(f: Front) {
    && NeverStrong(f.table)
    && forall k | 0 <= k < |f.pending| :: f.pending[k].guess.taken == Predict(f.table, f.pending[k].pc).taken
  }

  lemma StepStaysWeak(code: Code, f: Front, e: Event)
    requires Weak(f) && Possible(f, e)
    ensures Weak(Step(code, f, e))
  {
    if e.DoExecute? {
      var h := f.pending[0];
      if code(h.pc).Branch? { MispredictionMoves(f.table, h.pc, Plus(h.pc, code(h.pc).imm)); }
    }
  }

  /** The front end after a run. */
  function After(code: Code, f: Front, es: seq<Event>): Front
    requires PossibleRun(code, f, es)
    decreases |es|
  {
    if es == [] then f else After(NextCode(code, f, es[0]), Step(code, f, es[0]), es[1..])
  }

  lemma {:induction false} RunStaysWeak(code: Code, f: Front, es: seq<Event>)
    requires Weak(f) && PossibleRun(code, f, es)
    ensures Weak(After(code, f, es))
    decreases |es|
  {
    if es != [] {
      StepStaysWeak(code, f, es[0]);
      RunStaysWeak(NextCode(code, f, es[0]), Step(code, f, es[0]), es[1..]);
    }
  }

  /** The comment that a prediction moves after two mispredictions holds one way only: in every
      run, a branch wrongly predicted taken is predicted not taken the next time it is fetched,
      while one wrongly predicted not taken needs to have been mispredicted just before. */
  lemma OneMispredictionWithdraws(code: Code, pc: Word, es: seq<Event>, target: Word)
    requires PossibleRun(code, Reset(pc), es)
    requires After(code, Reset(pc), es).pending != []
    ensures var f := After(code, Reset(pc), es);
            var h := f.pending[0];
            var t' := Update(f.table, h.pc, target, !h.guess.taken);
            && (h.guess.taken ==> !Predict(t', h.pc).taken)
            && (!h.guess.taken ==> (Predict(t', h.pc).taken <==> Hit(f.table, h.pc) && f.table[Index(h.pc)].state == 1))
  {
    RunStaysWeak(code, Reset(pc), es);
    var f := After(code, Reset(pc), es);
    MispredictionMoves(f.table, f.pending[0].pc, target);
  }
}
