/** 32-bit words. An address or an arithmetic operand is the integer its bits denote, with
    every wrap-around written out; a word in memory is its four byte lanes, because the
    memory units only ever cut it at byte boundaries. */
module Words {
  const TWO31 := 0x8000_0000
  const TWO32 := 0x1_0000_0000

  type Word = x: int | 0 <= x < 0x1_0000_0000
  type Byte = x: int | 0 <= x < 0x100

  /** {b3, b2, b1, b0}: b3 is bits 31:24, b0 is bits 7:0. */
  datatype Lanes = Lanes(b3: Byte, b2: Byte, b1: Byte, b0: Byte)

  function LaneOf(w: Lanes, k: nat): Byte
    requires k < 4
  {
    match k
    case 0 => w.b0
    case 1 => w.b1
    case 2 => w.b2
    case _ => w.b3
  }

  /** The number a memory word denotes. */
  function Value(w: Lanes): Word {
    (w.b3 * 0x100 + w.b2) * 0x1_0000 + (w.b1 * 0x100 + w.b0)
  }

  /** The memory word that denotes a number. */
  function ToLanes(x: Word): Lanes {
    var hi, lo := x / 0x1_0000, x % 0x1_0000;
    Lanes(hi / 0x100, hi % 0x100, lo / 0x100, lo % 0x100)
  }

  lemma ValueOfLanes(x: Word)
    ensures Value(ToLanes(x)) == x
  {
  }

  /** The value of the word as a signed number. */
  function Signed(w: Word): int {
    if w < TWO31 then w else w - TWO32
  }
}
