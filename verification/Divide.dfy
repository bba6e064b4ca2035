/** The 32-step restoring divider, and what section 7.2 of the RISC-V Unprivileged ISA 20191213
    asks of it. */
module Divide {
  import opened Words
  import opened Arith

  const TWO64 := 0x1_0000_0000_0000_0000

  type Word64 = x: int | 0 <= x < 0x1_0000_0000_0000_0000

  datatype Proc = Idle | ExeDiv

  datatype Div = Div(proc: Proc, remainder: Word64, divisor: Word, cnt: nat, aNeg: bool, bNeg: bool)

  datatype In = In(exe: bool, sign: bool, a: Word, b: Word)

  datatype Out = Busy | Done(q: Word, r: Word)

  function Negate(x: Word): Word { if x == 0 then 0 else TWO32 - x }

  predicate Negative(x: Word) { x >= TWO31 }

  function Magnitude(sign: bool, x: Word): Word { if sign && Negative(x) then Negate(x) else x }

  function High(x: Word64): Word { x / TWO32 }
  function Low(x: Word64): Word { x % TWO32 }

  /** One trial subtraction: `sub` is 33'(remainder[63:31]) - {1'b0, divisor}, modulo 2^33. */
  function Shift(rem: Word64, d: Word): Word64 {
    var top := rem / TWO31;
    var sub := (top - d) % (2 * TWO32);
    if sub < TWO32 then sub * TWO32 + rem % TWO31 * 2 + 1 else rem * 2 % TWO64
  }

  function Next(s: Div, in_: In): (Div, Out) {
    match s.proc
    case Idle =>
      if !in_.exe then (s, Busy)
      else
        var s' := s.(cnt := 0, aNeg := in_.sign && Negative(in_.a), bNeg := in_.sign && Negative(in_.b));
        if in_.b == 0 then (s', Done(TWO32 - 1, in_.a))
        else (s'.(proc := ExeDiv, remainder := Magnitude(in_.sign, in_.a), divisor := Magnitude(in_.sign, in_.b)), Busy)
    case ExeDiv =>
      var s' := s.(remainder := Shift(s.remainder, s.divisor));
      if s.cnt == 32 then
        (s'.(proc := Idle),
         Done(if s.aNeg != s.bNeg then Negate(Low(s.remainder)) else Low(s.remainder),
              if s.aNeg then Negate(High(s.remainder)) else High(s.remainder)))
      else (s'.(cnt := s.cnt + 1), Busy)
  }

  // ---- the loop ----

  /** After k steps the high half is a partial remainder below the divisor, the low half holds
      the dividend bits still to come above the k quotient bits, and together they rebuild the
      dividend. */
  ghost predicate Partial(rem: Word64, d: Word, dividend: Word, k: nat, q: nat, rest: nat) {
    && k <= 32 && High(rem) < d && rest < PowerOfTwo(32 - k) && q < PowerOfTwo(k)
    && Low(rem) == rest * PowerOfTwo(k) + q
    && dividend == (q * d + High(rem)) * PowerOfTwo(32 - k) + rest
  }

  lemma {:induction false} PowSplit(k: nat)
    requires k <= 32
    ensures PowerOfTwo(32 - k) * PowerOfTwo(k) == TWO32
  {
    if k == 0 {
      PowerOf32();
    } else {
      PowSplit(k - 1);
      assert PowerOfTwo(32 - (k - 1)) == 2 * PowerOfTwo(32 - k) && PowerOfTwo(k) == 2 * PowerOfTwo(k - 1);
    }
  }

  lemma Distribute(a: nat, b: nat, c: nat)
    ensures (a + b) * c == a * c + b * c
  {
  }

  lemma HalfSplit(k: nat)
    requires k < 32
    ensures PowerOfTwo(31 - k) * PowerOfTwo(k) == TWO31
  {
    var p, e := PowerOfTwo(31 - k), PowerOfTwo(k);
    PowSplit(k);
    assert PowerOfTwo(32 - k) == p + p;
    Distribute(p, p, e);
  }

  /** Splitting the top bit off the dividend bits still to come, in place. */
  lemma ScaleBit(rest: nat, bit: nat, rest': nat, p: nat, e: nat)
    requires p * e == TWO31 && rest' < p && bit <= 1 && rest == (if bit == 1 then p + rest' else rest')
    ensures rest * e == bit * TWO31 + rest' * e
    ensures rest' * e + e <= TWO31
  {
    if bit == 1 { Distribute(p, rest', e); }
    Distribute(rest', 1, e);
    Distribute(rest' + 1, p - (rest' + 1), e);
  }

  /** The same, on the remainder register: `scaled` is what stays of the bits to come. */
  lemma TopBits(rem: Word64, all: nat, bit: nat, scaled: nat, q: nat, e: nat)
    requires Low(rem) == all + q && all == bit * TWO31 + scaled && scaled + e <= TWO31 && q < e && bit <= 1
    ensures rem / TWO31 == 2 * High(rem) + bit && rem % TWO31 == scaled + q
  {
    assert rem == TWO31 * (2 * High(rem) + bit) + (scaled + q);
  }

  /** Bringing down the next dividend bit. */
  lemma NextBit(rem: Word64, rest: nat, k: nat, q: nat) returns (bit: nat, rest': nat)
    requires k < 32 && rest < PowerOfTwo(32 - k) && q < PowerOfTwo(k) && Low(rem) == rest * PowerOfTwo(k) + q
    ensures bit <= 1 && rest' < PowerOfTwo(31 - k) && rest == (if bit == 1 then PowerOfTwo(31 - k) + rest' else rest')
    ensures rem / TWO31 == 2 * High(rem) + bit && rem % TWO31 == rest' * PowerOfTwo(k) + q
  {
    var p, e := PowerOfTwo(31 - k), PowerOfTwo(k);
    assert PowerOfTwo(32 - k) == p + p;
    bit := if rest >= p then 1 else 0;
    rest' := if rest >= p then rest - p else rest;
    HalfSplit(k);
    ScaleBit(rest, bit, rest', p, e);
    TopBits(rem, rest * e, bit, rest' * e, q, e);
  }

  /** The trial subtraction on the partial remainder x and the low bits. */
  lemma ShiftFits(rem: Word64, d: Word, x: nat, low: nat)
    requires rem / TWO31 == x && rem % TWO31 == low && x < 2 * d
    ensures var fits := if x >= d then 1 else 0;
            && High(Shift(rem, d)) == (if x >= d then x - d else x)
            && Low(Shift(rem, d)) == 2 * low + fits
  {
    if x >= d {
      assert (x - d) % (2 * TWO32) == x - d;
      assert Shift(rem, d) == (x - d) * TWO32 + (2 * low + 1);
    } else {
      assert (x - d) % (2 * TWO32) == x - d + 2 * TWO32;
      assert rem * 2 == x * TWO32 + 2 * low;
      assert Shift(rem, d) == x * TWO32 + 2 * low;
    }
  }

  lemma QuotientBit(q: nat, q': nat, d: nat, hi: nat, hi': nat, bit: nat)
    requires 2 * hi + bit >= d ==> q' == 2 * q + 1 && hi' == 2 * hi + bit - d
    requires 2 * hi + bit < d ==> q' == 2 * q && hi' == 2 * hi + bit
    ensures q' * d + hi' == 2 * (q * d + hi) + bit
  {
    Distribute(q, q, d);
    if 2 * hi + bit >= d { Distribute(q + q, 1, d); }
  }

  lemma DividendBit(m: nat, m': nat, bit: nat, p: nat, p2: nat, rest: nat, rest': nat)
    requires bit <= 1 && rest == if bit == 1 then p + rest' else rest'
    requires m' == 2 * m + bit && p2 == 2 * p
    ensures m' * p + rest' == m * p2 + rest
  {
    Distribute(m, m, p);
    Distribute(m + m, bit, p);
    assert m * p2 == m * p + m * p;
  }

  lemma Doubled(rest': nat, e: nat, e2: nat, q: nat, q': nat, fits: nat)
    requires e2 == 2 * e && q' == 2 * q + fits
    ensures 2 * (rest' * e + q) + fits == rest' * e2 + q'
  {
    assert rest' * e2 == rest' * e + rest' * e;
  }

  /** The low half after a step: one more quotient bit, one dividend bit fewer. */
  lemma LowStep(rem: Word64, d: Word, k: nat, q: nat, rest': nat, x: nat) returns (q': nat)
    requires rem / TWO31 == x && rem % TWO31 == rest' * PowerOfTwo(k) + q && x < 2 * d && q < PowerOfTwo(k)
    ensures q' == 2 * q + (if x >= d then 1 else 0) && q' < PowerOfTwo(k + 1)
    ensures Low(Shift(rem, d)) == rest' * PowerOfTwo(k + 1) + q'
    ensures High(Shift(rem, d)) == (if x >= d then x - d else x)
  {
    var e := PowerOfTwo(k);
    ShiftFits(rem, d, x, rest' * e + q);
    var fits := if x >= d then 1 else 0;
    q' := 2 * q + fits;
    Doubled(rest', e, PowerOfTwo(k + 1), q, q', fits);
  }

  lemma DividendStep(d: Word, dividend: Word, k: nat, q: nat, q': nat, hi: nat, hi': nat, bit: nat, rest: nat, rest': nat)
    requires k < 32 && dividend == (q * d + hi) * PowerOfTwo(32 - k) + rest && bit <= 1
    requires rest == if bit == 1 then PowerOfTwo(31 - k) + rest' else rest'
    requires 2 * hi + bit >= d ==> q' == 2 * q + 1 && hi' == 2 * hi + bit - d
    requires 2 * hi + bit < d ==> q' == 2 * q && hi' == 2 * hi + bit
    ensures dividend == (q' * d + hi') * PowerOfTwo(31 - k) + rest'
  {
    QuotientBit(q, q', d, hi, hi', bit);
    DividendBit(q * d + hi, q' * d + hi', bit, PowerOfTwo(31 - k), PowerOfTwo(32 - k), rest, rest');
  }

  lemma PartialStep(rem: Word64, d: Word, dividend: Word, k: nat, q: nat, rest: nat) returns (q': nat, rest': nat)
    requires Partial(rem, d, dividend, k, q, rest) && k < 32
    ensures Partial(Shift(rem, d), d, dividend, k + 1, q', rest')
  {
    var bit;
    bit, rest' := NextBit(rem, rest, k, q);
    q' := LowStep(rem, d, k, q, rest', 2 * High(rem) + bit);
    DividendStep(d, dividend, k, q, q', High(rem), High(Shift(rem, d)), bit, rest, rest');
  }

  function Iterate(rem: Word64, d: Word, n: nat): Word64
    decreases n
  {
    if n == 0 then rem else Iterate(Shift(rem, d), d, n - 1)
  }

  lemma {:induction false} IterateKeeps(rem: Word64, d: Word, dividend: Word, k: nat, q: nat, rest: nat, n: nat)
    returns (q': nat, rest': nat)
    requires Partial(rem, d, dividend, k, q, rest) && k + n <= 32
    ensures Partial(Iterate(rem, d, n), d, dividend, k + n, q', rest')
    decreases n
  {
    if n == 0 { return q, rest; }
    q', rest' := PartialStep(rem, d, dividend, k, q, rest);
    q', rest' := IterateKeeps(Shift(rem, d), d, dividend, k + 1, q', rest', n - 1);
  }

  lemma PartialEnds(rem: Word64, d: Word, dividend: Word, k: nat, q: nat, rest: nat)
    requires Partial(rem, d, dividend, k, q, rest) && k == 32
    ensures dividend == Low(rem) * d + High(rem) && High(rem) < d
  {
    assert PowerOfTwo(32 - k) == 1;
    PowerOf32();
  }

  lemma PartialStarts(d: Word, dividend: Word)
    requires d > 0
    ensures Partial(dividend, d, dividend, 0, 0, dividend)
  {
    PowerOf32();
    assert High(dividend) == 0 && Low(dividend) == dividend;
    assert dividend * PowerOfTwo(0) == dividend;
    assert 0 * d == 0;
  }

  /** Thirty-two steps divide. */
  lemma LoopDivides(dividend: Word, d: Word, n: nat)
    requires d > 0 && n == 32
    ensures var e := Iterate(dividend, d, n); dividend == Low(e) * d + High(e) && High(e) < d
  {
    PartialStarts(d, dividend);
    var q, rest := IterateKeeps(dividend, d, dividend, 0, 0, dividend, n);
    PartialEnds(Iterate(dividend, d, n), d, dividend, n, q, rest);
  }

  // ---- the whole operation ----

  /** Section 7.2: rounding toward zero, the remainder with the dividend's sign, and the two
      special cases. */
  ghost predicate Means(sign: bool, a: Word, b: Word, q: Word, r: Word) {
    if b == 0 then q == TWO32 - 1 && r == a
    else if !sign then a == q * b + r && r < b
    else if a == TWO31 && b == TWO32 - 1 then q == TWO31 && r == 0
    else
      && Signed(a) == Signed(q) * Signed(b) + Signed(r)
      && Abs(Signed(r)) < Abs(Signed(b)) && Signed(a) * Signed(r) >= 0
  }

  function Abs(x: int): nat { if x < 0 then -x else x }

  lemma MagnitudeIsAbs(x: Word)
    ensures Magnitude(true, x) == Abs(Signed(x))
  {
  }

  lemma SignedNegate(x: int)
    requires 0 <= x <= TWO31
    ensures Signed(Negate(x)) == -x
  {
  }

  lemma NegatedProduct(q: int, m: int)
    ensures (-q) * m == -(q * m) && q * (-m) == -(q * m) && (-q) * (-m) == q * m
  {
  }

  /** The last clause of Means, from the signed values of the four words. */
  lemma SignedIdentity(sa: int, sb: int, sq: int, sr: int, q: int, m: int, r: int)
    requires q >= 0 && m > 0 && r >= 0
    requires sa == (if sa < 0 then -(q * m + r) else q * m + r) && (sb == m || sb == -m) && r < m
    requires sr == (if sa < 0 then -r else r) && sq == (if (sa < 0) != (sb < 0) then -q else q)
    ensures sa == sq * sb + sr && Abs(sr) < Abs(sb) && sa * sr >= 0
  {
    NegatedProduct(q, m);
    if sa < 0 { NegatedProduct(-sa, -sr); }
  }

  lemma QuotientBound(q: nat, m: nat, r: nat, n: nat)
    requires n == q * m + r && m > 0
    ensures q <= n && r <= n && (q == n ==> r == 0) && (q == n && n > 0 ==> m == 1)
  {
    if m >= 2 { Distribute(2, m - 2, q); }
  }

  /** Putting the signs back. */
  lemma SignsMean(a: Word, b: Word, q: Word, r: Word)
    requires b != 0 && Magnitude(true, a) == q * Magnitude(true, b) + r && r < Magnitude(true, b)
    ensures Means(true, a, b, if Negative(a) != Negative(b) then Negate(q) else q, if Negative(a) then Negate(r) else r)
  {
    var n, m := Magnitude(true, a), Magnitude(true, b);
    MagnitudeIsAbs(a);
    MagnitudeIsAbs(b);
    QuotientBound(q, m, r, n);
    var q', r' := if Negative(a) != Negative(b) then Negate(q) else q, if Negative(a) then Negate(r) else r;
    if !(a == TWO31 && b == TWO32 - 1) {
      SignedNegate(q);
      SignedNegate(r);
      SignedIdentity(Signed(a), Signed(b), Signed(q'), Signed(r'), q, m, r);
    }
  }

  // ---- clocks ----

  /** The unit after k clocks of the loop. */
  lemma {:induction false} LoopState(s: Div, ins: seq<In>)
    requires s.proc.ExeDiv? && s.cnt + |ins| <= 32
    ensures Run(s, ins) == s.(cnt := s.cnt + |ins|, remainder := Iterate(s.remainder, s.divisor, |ins|))
    decreases |ins|
  {
    if ins != [] { LoopState(Next(s, ins[0]).0, ins[1..]); }
  }

  function Run(s: Div, ins: seq<In>): Div
    decreases |ins|
  {
    if ins == [] then s else Run(Next(s, ins[0]).0, ins[1..])
  }

  lemma LoopIsBusy(s: Div, ins: seq<In>, in_: In)
    requires s.proc.ExeDiv? && s.cnt + |ins| < 32
    ensures Next(Run(s, ins), in_).1.Busy?
  {
    LoopState(s, ins);
  }

  /** From idle, a division answers in the same clock when the divisor is zero. Otherwise it says nothing in
      that clock and the 32 after it, whatever is asserted meanwhile, and answers in the next. The first
      answer is what section 7.2 says, and leaves the unit idle. */
  lemma DivisionIsRight(s: Div, in_: In, waiting: seq<In>, last: In)
    requires s.proc.Idle? && in_.exe && |waiting| == 32
    ensures in_.b == 0 ==> var (s', out) := Next(s, in_);
                           out.Done? && Means(in_.sign, in_.a, in_.b, out.q, out.r) && s'.proc.Idle?
    ensures in_.b != 0 ==> Next(s, in_).1.Busy?
                           && forall k | 0 <= k < 32 :: Next(Run(Next(s, in_).0, waiting[..k]), waiting[k]).1.Busy?
    ensures in_.b != 0 ==> var (s', out) := Next(Run(Next(s, in_).0, waiting), last);
                           out.Done? && Means(in_.sign, in_.a, in_.b, out.q, out.r) && s'.proc.Idle?
  {
    if in_.b != 0 {
      var s1 := Next(s, in_).0;
      forall k | 0 <= k < 32
        ensures Next(Run(s1, waiting[..k]), waiting[k]).1.Busy?
      {
        LoopIsBusy(s1, waiting[..k], waiting[k]);
      }
      LoopState(s1, waiting);
      LoopDivides(s1.remainder, s1.divisor, |waiting|);
      var e := Iterate(s1.remainder, s1.divisor, |waiting|);
      if in_.sign { SignsMean(in_.a, in_.b, Low(e), High(e)); }
    }
  }

  class Unit {
    var proc: Proc
    var remainder: Word64
    var divisor: Word
    var cnt: nat
    var aNeg: bool
    var bNeg: bool

    ghost function State(): Div
      reads this
    {
      Div(proc, remainder, divisor, cnt, aNeg, bNeg)
    }

    constructor ()
      ensures proc == Idle
    {
      proc, remainder, divisor, cnt, aNeg, bNeg := Idle, 0, 0, 0, false, false;
    }

    method Clock(in_: In) returns (out: Out)
      modifies this
      ensures (State(), out) == Next(old(State()), in_)
    {
      out := Busy;
      match proc
      case Idle =>
        if in_.exe {
          cnt := 0;
          if in_.b == 0 {
            out := Done(TWO32 - 1, in_.a);
          } else {
            proc, remainder, divisor := ExeDiv, Magnitude(in_.sign, in_.a), Magnitude(in_.sign, in_.b);
          }
          aNeg, bNeg := in_.sign && Negative(in_.a), in_.sign && Negative(in_.b);
        }
      case ExeDiv =>
        if cnt == 32 {
          var q, r := remainder % TWO32, remainder / TWO32;
          out := Done(if aNeg != bNeg then Negate(q) else q, if aNeg then Negate(r) else r);
          proc := Idle;
        } else {
          cnt := cnt + 1;
        }
        remainder := Shift(remainder, divisor);
    }
  }
}
