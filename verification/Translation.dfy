/** Sv32 translation: what the walker, the TLB entry format and the permission checks compute,
    and the algorithm of section 4.3.2 of the RISC-V Privileged ISA 1.12. */
module Translation {
  import opened Words
  import opened Memory
  import opened Paging

  type PpnValue = n: int | 0 <= n < 0x40_0000

  datatype AccessKind = FetchAccess | LoadAccess | StoreAccess

  /** The effective privilege and the two status bits that matter. */
  datatype Mode = Mode(priv: Priv, sum: bool, mxr: bool)

  datatype Walked = Leaf(pte: Lanes, level: nat) | NoLeaf

  datatype Result = Grant(tag: Tag) | PageFault

  /** {ppn, part, 2'b00}, of which the bus takes 32 bits. */
  function PteAddr(ppn: PpnValue, part: nat): Addr
    requires part < 0x400
  {
    Addr(BlockId(ppn % 0x10_0000, part / 4), part % 4, 0)
  }

  ghost function PteAt(m: Blocks, ppn: PpnValue, part: nat): Lanes
    requires part < 0x400
  {
    BlockLoad(m, PteAddr(ppn, part), WordSize)
  }

  function Vpn1(vpn: Vpn): (n: nat)
    ensures n < 0x400
  {
    vpn / 0x400
  }

  function Vpn0(vpn: Vpn): (n: nat)
    ensures n < 0x400
  {
    vpn % 0x400
  }

  // ---- as the hardware does it ----

  /** The two arms of pte_check that do not fault. */
  predicate IsLeaf(p: Lanes, level: nat) {
    V(p) && (level == 0 || ((X(p) || W(p) || R(p)) && !(W(p) && !R(p))))
  }

  predicate IsPointer(p: Lanes, level: nat) {
    V(p) && level != 0 && !X(p) && !W(p) && !R(p)
  }

  ghost function Walk(m: Blocks, root: PpnValue, vpn: Vpn): Walked {
    var p1 := PteAt(m, root, Vpn1(vpn));
    if IsLeaf(p1, 1) then Leaf(p1, 1)
    else if !IsPointer(p1, 1) then NoLeaf
    else
      var p0 := PteAt(m, Ppn(p1), Vpn0(vpn));
      if IsLeaf(p0, 0) then Leaf(p0, 0) else NoLeaf
  }

  predicate UserBitOk(p: Lanes, mode: Mode) {
    (U(p) && (mode.priv.User? || (mode.priv.Supervisor? && mode.sum))) || (!U(p) && !mode.priv.User?)
  }

  predicate LoadAllowed(p: Lanes, mode: Mode) {
    V(p) && (R(p) || (mode.mxr && X(p))) && A(p) && UserBitOk(p, mode)
  }

  predicate StoreAllowed(p: Lanes, mode: Mode) {
    V(p) && R(p) && W(p) && A(p) && D(p) && UserBitOk(p, mode)
  }

  predicate FetchAllowed(p: Lanes, priv: Priv) {
    V(p) && X(p) && A(p) && ((U(p) && priv.User?) || (!U(p) && priv.Supervisor?))
  }

  predicate Allowed(kind: AccessKind, p: Lanes, mode: Mode) {
    match kind
    case FetchAccess => FetchAllowed(p, mode.priv)
    case LoadAccess => LoadAllowed(p, mode)
    case StoreAccess => StoreAllowed(p, mode)
  }

  function Granted(w: Walked, vpn: Vpn, kind: AccessKind, mode: Mode): Result {
    match w
    case NoLeaf => PageFault
    case Leaf(p, level) =>
      if Allowed(kind, p, mode) then Grant(PhysTag(TlbEntry(true, vpn, p, level), vpn)) else PageFault
  }

  ghost function Translate(m: Blocks, root: PpnValue, vpn: Vpn, kind: AccessKind, mode: Mode): Result {
    Granted(Walk(m, root, vpn), vpn, kind, mode)
  }

  // ---- as section 4.3.2 says ----

  /** Steps 2 to 4, from level i with page table `a`. */
  ghost function SpecWalk(m: Blocks, a: PpnValue, vpn: Vpn, i: nat): Walked
    requires i < 2
    decreases i
  {
    var pte := PteAt(m, a, if i == 1 then Vpn1(vpn) else Vpn0(vpn));
    if !V(pte) || (!R(pte) && W(pte)) then NoLeaf
    else if R(pte) || X(pte) then Leaf(pte, i)
    else if i == 0 then NoLeaf
    else SpecWalk(m, Ppn(pte), vpn, i - 1)
  }

  /** Step 5: the access is allowed by the r, w, x and u bits, the privilege, SUM and MXR. */
  predicate SpecPermits(kind: AccessKind, p: Lanes, mode: Mode) {
    && (match kind
        case FetchAccess => X(p)
        case LoadAccess => R(p) || (mode.mxr && X(p))
        case StoreAccess => W(p))
    && (match mode.priv
        case User => U(p)
        case Supervisor => U(p) ==> mode.sum && !kind.FetchAccess?
        case Machine => true)
  }

  /** Steps 6 and 7: no misaligned superpage; the accessed and dirty bits are set. */
  predicate SpecUsable(kind: AccessKind, p: Lanes, level: nat) {
    && (level > 0 ==> Ppn0(p) == 0)
    && A(p) && (kind.StoreAccess? ==> D(p))
  }

  /** Step 8, modulo 2^32: the page number, with the low part from the address in a superpage. */
  function SpecTag(p: Lanes, level: nat, vpn: Vpn): Tag {
    var ppn := if level == 0 then Ppn(p) else Ppn1(p) * 0x400 + Vpn0(vpn);
    ppn % 0x10_0000
  }

  function SpecGranted(w: Walked, vpn: Vpn, kind: AccessKind, mode: Mode): Result {
    match w
    case NoLeaf => PageFault
    case Leaf(p, level) =>
      if SpecPermits(kind, p, mode) && SpecUsable(kind, p, level) then Grant(SpecTag(p, level, vpn)) else PageFault
  }

  ghost function SpecTranslate(m: Blocks, root: PpnValue, vpn: Vpn, kind: AccessKind, mode: Mode): Result {
    SpecGranted(SpecWalk(m, root, vpn, 1), vpn, kind, mode)
  }

  // ---- where they agree ----

  predicate WriteOnly(p: Lanes) { W(p) && !R(p) }

  /** Not a reserved write-only encoding, and aligned if it is a superpage. */
  predicate WellFormedLeaf(w: Walked) {
    w.Leaf? ==> !WriteOnly(w.pte) && (w.level > 0 ==> Ppn0(w.pte) == 0)
  }

  /** The walker stops where the specification's walk does; it only also accepts entries with
      neither R nor X, or write-only ones, in a last-level table. */
  lemma WalksAgree(m: Blocks, root: PpnValue, vpn: Vpn)
    ensures var w, s := Walk(m, root, vpn), SpecWalk(m, root, vpn, 1);
            && (w.NoLeaf? ==> s.NoLeaf?)
            && (w.Leaf? ==> V(w.pte) && s == if WriteOnly(w.pte) || !(R(w.pte) || X(w.pte)) then NoLeaf else w)
  {
    var p1 := PteAt(m, root, Vpn1(vpn));
    if IsPointer(p1, 1) {
      assert SpecWalk(m, root, vpn, 1) == SpecWalk(m, Ppn(p1), vpn, 0);
    }
  }

  lemma PermissionsAgree(kind: AccessKind, p: Lanes, mode: Mode)
    requires V(p) && !mode.priv.Machine?
    ensures !R(p) && !X(p) ==> !Allowed(kind, p, mode)
    ensures !WriteOnly(p) && (R(p) || X(p))
            ==> (Allowed(kind, p, mode) <==> SpecPermits(kind, p, mode) && A(p) && (kind.StoreAccess? ==> D(p)))
  {
  }

  lemma TagsAgree(p: Lanes, level: nat, vpn: Vpn)
    ensures PhysTag(TlbEntry(true, vpn, p, level), vpn) == SpecTag(p, level, vpn)
  {
  }

  /** A leaf both walks find is granted alike, unless it is a misaligned superpage. */
  lemma LeafGranted(p: Lanes, level: nat, vpn: Vpn, kind: AccessKind, mode: Mode)
    requires V(p) && !mode.priv.Machine? && !WriteOnly(p) && (R(p) || X(p))
    ensures SpecGranted(Leaf(p, level), vpn, kind, mode)
            == if level > 0 && Ppn0(p) != 0 then PageFault else Granted(Leaf(p, level), vpn, kind, mode)
  {
    TagsAgree(p, level, vpn);
    PermissionsAgree(kind, p, mode);
  }

  /** The unit agrees with the specification exactly when the leaf is not malformed (a reserved
      write-only encoding in a last-level table, or a misaligned superpage) or its permission bits
      refuse the access. */
  lemma TranslatesAsSpecified(m: Blocks, root: PpnValue, vpn: Vpn, kind: AccessKind, mode: Mode)
    requires !mode.priv.Machine?
    ensures Translate(m, root, vpn, kind, mode) == SpecTranslate(m, root, vpn, kind, mode)
            <==> var w := Walk(m, root, vpn); WellFormedLeaf(w) || !Allowed(kind, w.pte, mode)
  {
    WalksAgree(m, root, vpn);
    var w, s := Walk(m, root, vpn), SpecWalk(m, root, vpn, 1);
    if w.Leaf? {
      if WriteOnly(w.pte) {
      } else if R(w.pte) || X(w.pte) {
        LeafGranted(w.pte, w.level, vpn, kind, mode);
      } else {
        PermissionsAgree(kind, w.pte, mode);
      }
    }
  }

  /** Both exceptions occur: each malformed leaf is granted by the unit and refused by the
      specification. */
  lemma MisalignedSuperpageGranted(m: Blocks, root: PpnValue, vpn: Vpn)
    requires var p := PteAt(m, root, Vpn1(vpn));
             V(p) && R(p) && A(p) && !U(p) && Ppn0(p) != 0
    ensures Translate(m, root, vpn, LoadAccess, Mode(Supervisor, false, false)).Grant?
    ensures SpecTranslate(m, root, vpn, LoadAccess, Mode(Supervisor, false, false)).PageFault?
  {
  }

  lemma WriteOnlyPageExecutable(m: Blocks, root: PpnValue, vpn: Vpn)
    requires var p := PteAt(m, root, Vpn1(vpn));
             V(p) && !R(p) && !W(p) && !X(p)
             && var q := PteAt(m, Ppn(p), Vpn0(vpn)); V(q) && !R(q) && W(q) && X(q) && A(q) && U(q)
    ensures Translate(m, root, vpn, FetchAccess, Mode(User, false, false)).Grant?
    ensures SpecTranslate(m, root, vpn, FetchAccess, Mode(User, false, false)).PageFault?
  {
    var p := PteAt(m, root, Vpn1(vpn));
    assert SpecWalk(m, root, vpn, 1) == SpecWalk(m, Ppn(p), vpn, 0);
  }
}
