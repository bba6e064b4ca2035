/** The multiplier, and the unit that shares it with the divider; sections 7.1 and 7.2 of the
    RISC-V Unprivileged ISA 20191213. */
module MulDiv {
  import opened Words
  import D = Divide

  // ---- the multiplier ----

  datatype MulProc = MulIdle | Product | Result

  /** x, y, o are 64-bit registers; z is x * y modulo 2^64. */
  datatype Mul = Mul(proc: MulProc, x: D.Word64, y: D.Word64, o: D.Word64)

  datatype MulIn = NoMul | Multiply(a: D.Word64, b: D.Word64)
  datatype MulOut = MulBusy | MulDone(q: D.Word64)

  function Product64(x: D.Word64, y: D.Word64): D.Word64 { x * y % D.TWO64 }

  function MulNext(m: Mul, in_: MulIn): (Mul, MulOut) {
    match m.proc
    case MulIdle => (if in_.Multiply? then m.(proc := Product, x := in_.a, y := in_.b) else m, MulBusy)
    case Product => (m.(proc := Result, o := Product64(m.x, m.y)), MulBusy)
    case Result => (m.(proc := MulIdle), MulDone(m.o))
  }

  class MulUnit {
    var proc: MulProc
    var x: D.Word64
    var y: D.Word64
    var o: D.Word64

    ghost function State(): Mul
      reads this
    {
      Mul(proc, x, y, o)
    }

    constructor ()
      ensures proc == MulIdle
    {
      proc, x, y, o := MulIdle, 0, 0, 0;
    }

    method Clock(in_: MulIn) returns (out: MulOut)
      modifies this
      ensures (State(), out) == MulNext(old(State()), in_)
    {
      out := MulBusy;
      match proc
      case MulIdle =>
        if in_.Multiply? { proc, x, y := Product, in_.a, in_.b; }
      case Product =>
        o, proc := Product64(x, y), Result;
      case Result =>
        out, proc := MulDone(o), MulIdle;
    }
  }

  // ---- the unit ----

  datatype Fn = MUL | MULH | MULHSU | MULHU | DIV | DIVU | REM | REMU

  datatype Unit = Unit(op: bool, div: D.Div, mul: Mul)

  datatype In = Hold | Exe(fn: Fn, a: Word, b: Word)
  datatype Out = Busy | Done(q: Word)

  /** 64'(x) and 64#(x). */
  function Zero64(x: Word): D.Word64 { x }
  function Sign64(x: Word): D.Word64 { if x < TWO31 then x else x + (D.TWO64 - TWO32) }

  predicate Multiplies(fn: Fn) { fn.MUL? || fn.MULH? || fn.MULHSU? || fn.MULHU? }

  /** The op register after a clock: low half, or quotient. */
  function OpOf(fn: Fn): bool { fn.MUL? || fn.DIV? || fn.DIVU? }

  function ToMul(in_: In): MulIn {
    match in_
    case Hold => NoMul
    case Exe(fn, a, b) =>
      match fn
      case MUL => Multiply(Sign64(a), Sign64(b))
      case MULH => Multiply(Sign64(a), Sign64(b))
      case MULHSU => Multiply(Sign64(a), Zero64(b))
      case MULHU => Multiply(Zero64(a), Zero64(b))
      case _ => NoMul
  }

  function ToDiv(in_: In): D.In {
    if in_.Exe? && !Multiplies(in_.fn) then D.In(true, in_.fn.DIV? || in_.fn.REM?, in_.a, in_.b)
    else D.In(false, false, 0, 0)
  }

  function Next(u: Unit, in_: In): (Unit, Out) {
    var (mul', mo) := MulNext(u.mul, ToMul(in_));
    var (div', do_) := D.Next(u.div, ToDiv(in_));
    (Unit(if in_.Exe? then OpOf(in_.fn) else u.op, div', mul'),
     if do_.Done? then Done(if u.op then do_.q else do_.r)
     else if mo.MulDone? then Done(if u.op then mo.q % TWO32 else mo.q / TWO32)
     else Busy)
  }

  function Run(u: Unit, ins: seq<In>): Unit
    decreases |ins|
  {
    if ins == [] then u else Run(Next(u, ins[0]).0, ins[1..])
  }

  predicate Idle(u: Unit) { u.mul.proc.MulIdle? && u.div.proc.Idle? }

  // ---- multiplication ----

  /** Section 7.1, from the exact product. */
  function MulSpec(fn: Fn, a: Word, b: Word): Word {
    match fn
    case MUL => Signed(a) * Signed(b) % TWO32
    case MULH => Signed(a) * Signed(b) / TWO32 % TWO32
    case MULHSU => Signed(a) * b / TWO32 % TWO32
    case _ => a * b / TWO32 % TWO32
  }

  /** Adding a multiple of 2^64 to a factor does not change the product modulo 2^64. */
  lemma WrappedFactor(x: int, y: int, k: int)
    ensures (x + D.TWO64 * k) * y % D.TWO64 == x * y % D.TWO64
  {
    assert (x + D.TWO64 * k) * y == x * y + D.TWO64 * (k * y);
    Multiple(x * y, k * y);
  }

  lemma Multiple(p: int, n: int)
    ensures (p + D.TWO64 * n) % D.TWO64 == p % D.TWO64
  {
  }

  lemma Commute(x: int, y: int)
    ensures x * y == y * x
  {
  }

  lemma Sign64IsSigned(x: Word)
    ensures Sign64(x) == Signed(x) + D.TWO64 * (if x < TWO31 then 0 else 1)
  {
  }

  /** The wrapped product of the extended operands is the exact product modulo 2^64. */
  lemma ExtendedProduct(a: Word, b: Word)
    ensures Product64(Sign64(a), Sign64(b)) == Signed(a) * Signed(b) % D.TWO64
    ensures Product64(Sign64(a), Zero64(b)) == Signed(a) * b % D.TWO64
    ensures Product64(Zero64(a), Zero64(b)) == a * b % D.TWO64
  {
    var i, j := if a < TWO31 then 0 else 1, if b < TWO31 then 0 else 1;
    Sign64IsSigned(a);
    Sign64IsSigned(b);
    WrappedFactor(Signed(a), Sign64(b), i);
    WrappedFactor(Signed(a), b, i);
    WrappedFactor(Signed(b), Signed(a), j);
    Commute(Signed(a), Sign64(b));
    Commute(Signed(a), Signed(b));
  }

  /** Halves of the 64-bit product are halves of the exact one. */
  lemma HalvesOfProduct(p: int)
    ensures p % D.TWO64 % TWO32 == p % TWO32
    ensures p % D.TWO64 / TWO32 == p / TWO32 % TWO32
  {
  }

  /** From an idle unit, a multiplication held for three clocks ends in the third with the
      result of section 7.1, selected by the register its own first clock set. */
  lemma MultiplicationIsRight(u: Unit, fn: Fn, a: Word, b: Word)
    requires Idle(u) && (fn.MUL? || fn.MULH? || fn.MULHSU? || fn.MULHU?)
    ensures var in_ := Exe(fn, a, b);
            var u1 := Next(u, in_).0; var u2 := Next(u1, in_).0;
            && Next(u, in_).1.Busy? && Next(u1, in_).1.Busy?
            && Next(u2, in_).1 == Done(MulSpec(fn, a, b)) && Idle(Next(u2, in_).0)
  {
    ExtendedProduct(a, b);
    HalvesOfProduct(Signed(a) * Signed(b));
    HalvesOfProduct(Signed(a) * b);
    HalvesOfProduct(a * b);
  }

  /** An idle unit that is not asked says nothing and stays idle. */
  lemma SilentUnlessAsked(u: Unit)
    requires Idle(u)
    ensures Next(u, Hold) == (u, Busy)
  {
  }

  // ---- division ----

  /** What section 7.2 calls each division: signed or not, and which of its two results. */
  predicate Divides(fn: Fn) { fn.DIV? || fn.DIVU? || fn.REM? || fn.REMU? }
  predicate SignedFn(fn: Fn) { fn.DIV? || fn.REM? }
  predicate WantsQuotient(fn: Fn) { fn.DIV? || fn.DIVU? }

  predicate Holding(ins: seq<In>, in_: In) { forall k :: 0 <= k < |ins| ==> ins[k] == in_ }

  function DivIns(ins: seq<In>): (r: seq<D.In>)
    ensures |r| == |ins|
  {
    seq(|ins|, k requires 0 <= k < |ins| => ToDiv(ins[k]))
  }

  lemma {:induction false} HeldDivision(u: Unit, ins: seq<In>, in_: In)
    requires u.mul.proc.MulIdle? && in_.Exe? && !Multiplies(in_.fn) && u.op == OpOf(in_.fn) && Holding(ins, in_)
    ensures Run(u, ins) == Unit(OpOf(in_.fn), D.Run(u.div, DivIns(ins)), u.mul)
    decreases |ins|
  {
    if ins != [] {
      assert ins[0] == in_;
      var u' := Next(u, in_).0;
      assert DivIns(ins)[1..] == DivIns(ins[1..]);
      HeldDivision(u', ins[1..], in_);
    }
  }

  /** What the shared unit says in a clock of a held division, from what the divider says. */
  lemma HeldAnswer(u: Unit, ins: seq<In>, in_: In)
    requires u.mul.proc.MulIdle? && in_.Exe? && !Multiplies(in_.fn) && u.op == OpOf(in_.fn) && Holding(ins, in_)
    ensures var out := D.Next(D.Run(u.div, DivIns(ins)), ToDiv(in_)).1;
            Next(Run(u, ins), in_).1 == if out.Busy? then Busy else Done(if OpOf(in_.fn) then out.q else out.r)
  {
    HeldDivision(u, ins, in_);
  }

  /** From an idle unit, a division by a nonzero divisor held for 34 clocks says nothing in the first 33,
      ends in the last with the quotient, or the remainder, of section 7.2, and leaves the unit idle. */
  lemma DivisionIsRight(u: Unit, in_: In, waiting: seq<In>) returns (q: Word, r: Word)
    requires Idle(u) && in_.Exe? && Divides(in_.fn) && in_.b != 0
    requires |waiting| == 32 && Holding(waiting, in_)
    ensures D.Means(SignedFn(in_.fn), in_.a, in_.b, q, r)
    ensures Next(u, in_).1.Busy?
    ensures forall k | 0 <= k < 32 :: Next(Run(Next(u, in_).0, waiting[..k]), waiting[k]).1.Busy?
    ensures var (u', out) := Next(Run(Next(u, in_).0, waiting), in_);
            out == Done(if WantsQuotient(in_.fn) then q else r) && Idle(u')
  {
    var u1 := Next(u, in_).0;
    HeldDivision(u1, waiting, in_);
    D.DivisionIsRight(u.div, ToDiv(in_), DivIns(waiting), ToDiv(in_));
    forall k | 0 <= k < 32
      ensures Next(Run(u1, waiting[..k]), waiting[k]).1.Busy?
    {
      HeldAnswer(u1, waiting[..k], in_);
      assert DivIns(waiting[..k]) == DivIns(waiting)[..k] && DivIns(waiting)[k] == ToDiv(in_);
    }
    HeldAnswer(u1, waiting, in_);
    var out := D.Next(Run(u1, waiting).div, ToDiv(in_)).1;
    q, r := out.q, out.r;
  }

  /** A zero divisor is answered in the first clock, by the register the previous operation left:
      the answer is section 7.2's exactly when that register selects what is asked for, or when
      the two results are the same. */
  lemma ZeroDivisorUsesOldSelector(u: Unit, in_: In)
    requires Idle(u) && in_.Exe? && Divides(in_.fn) && in_.b == 0
    ensures var out := Next(u, in_).1;
            var wanted := if WantsQuotient(in_.fn) then TWO32 - 1 else in_.a;
            out.Done? && (out.q == wanted <==> u.op == WantsQuotient(in_.fn) || in_.a == TWO32 - 1)
  {
  }

  class MUnit {
    var op: bool
    const div: D.Unit
    const mul: MulUnit

    ghost function State(): Unit
      reads this, div, mul
    {
      Unit(op, div.State(), mul.State())
    }

    constructor ()
      ensures fresh(div) && fresh(mul) && Idle(State())
    {
      op := false;
      div := new D.Unit();
      mul := new MulUnit();
    }

    method Clock(in_: In) returns (out: Out)
      modifies this, div, mul
      ensures (State(), out) == Next(old(State()), in_)
    {
      out := Busy;
      var divOut := div.Clock(ToDiv(in_));
      var mulOut := mul.Clock(ToMul(in_));
      if divOut.Done? {
        out := Done(if op then divOut.q else divOut.r);
      } else if mulOut.MulDone? {
        out := Done(if op then mulOut.q % TWO32 else mulOut.q / TWO32);
      }
      if in_.Exe? { op := OpOf(in_.fn); }
    }
  }
}
