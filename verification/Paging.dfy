/** Sv32 page-table entries and the fully associative TLB both caches use. */
module Paging {
  import opened Words
  import opened Memory

  type Vpn = t: int | 0 <= t < 0x10_0000

  datatype Priv = User | Supervisor | Machine

  // ---- page-table entry fields (a raw memory word) ----

  predicate Bit(b: Byte, k: nat)
    requires k < 8
  {
    var p := match k case 0 => b case 1 => b / 2 case 2 => b / 4 case 3 => b / 8
             case 4 => b / 16 case 5 => b / 32 case 6 => b / 64 case _ => b / 128;
    p % 2 == 1
  }

  predicate V(p: Lanes) { Bit(p.b0, 0) }
  predicate R(p: Lanes) { Bit(p.b0, 1) }
  predicate W(p: Lanes) { Bit(p.b0, 2) }
  predicate X(p: Lanes) { Bit(p.b0, 3) }
  predicate U(p: Lanes) { Bit(p.b0, 4) }
  predicate A(p: Lanes) { Bit(p.b0, 6) }
  predicate D(p: Lanes) { Bit(p.b0, 7) }

  /** Bits 31:10, the 22-bit physical page number. */
  function Ppn(p: Lanes): (n: nat)
    ensures n < 0x40_0000
  {
    p.b3 * 0x4000 + p.b2 * 0x40 + p.b1 / 4
  }

  function Ppn0(p: Lanes): (n: nat)
    ensures n < 0x400
  {
    Ppn(p) % 0x400
  }

  function Ppn1(p: Lanes): (n: nat)
    ensures n < 0x1000
  {
    Ppn(p) / 0x400
  }

  // ---- the TLB ----

  datatype TlbEntry = TlbEntry(valid: bool, tag: Vpn, pte: Lanes, level: nat)

  /** `pos` is the free-running replacement pointer. */
  datatype TlbMemory = TlbMemory(entries: seq<TlbEntry>, pos: nat)

  type Tlb = t: TlbMemory | t.pos < |t.entries| witness TlbMemory([TlbEntry(false, 0, Lanes(0, 0, 0, 0), 0)], 0)

  predicate Matches(e: TlbEntry, tag: Vpn) { e.valid && e.tag == tag }

  /** The position driven on a lookup, or the number of entries when none matches. When several
      match the hardware drives all of them; the proofs show that they are then equal. */
  function FirstMatch(es: seq<TlbEntry>, tag: Vpn): (k: nat)
    ensures k <= |es| && (k < |es| ==> Matches(es[k], tag))
    ensures forall j | 0 <= j < k :: !Matches(es[j], tag)
  {
    if es == [] || Matches(es[0], tag) then 0 else 1 + FirstMatch(es[1..], tag)
  }

  predicate TlbHit(t: Tlb, tag: Vpn) { FirstMatch(t.entries, tag) < |t.entries| }

  function Access(t: Tlb, tag: Vpn): (e: TlbEntry)
    requires TlbHit(t, tag)
    ensures e in t.entries && Matches(e, tag)
  {
    t.entries[FirstMatch(t.entries, tag)]
  }

  /** The 20-bit physical tag of a translated address, 32 bits of the 34: {ppn1, ppn0} for a
      page, {ppn1, va[21:12]} for a superpage. */
  function PhysTag(e: TlbEntry, vpn: Vpn): Tag {
    if e.level == 0 then Ppn(e.pte) % 0x10_0000 else (Ppn1(e.pte) * 0x400 + vpn % 0x400) % 0x10_0000
  }

  /** The pointer moves on every clock. */
  function Tick(t: Tlb): Tlb {
    t.(pos := if t.pos + 1 < |t.entries| then t.pos + 1 else 0)
  }

  function Refill(t: Tlb, tag: Vpn, pte: Lanes, level: nat): Tlb {
    t.(entries := t.entries[t.pos := TlbEntry(true, tag, pte, level)])
  }

  function Flush(t: Tlb): Tlb {
    t.(entries := seq(|t.entries|, i requires 0 <= i < |t.entries| => t.entries[i].(valid := false)))
  }

  ghost predicate NoDuplicates(t: Tlb) {
    forall i, j | 0 <= i < j < |t.entries| ::
      !(t.entries[i].valid && t.entries[j].valid && t.entries[i].tag == t.entries[j].tag)
  }
}
