/** Memory seen twice: as 2^32 bytes (what software sees) and as 2^28 blocks of four
    words (what the caches and the bus move). */
module Memory {
  import opened Words

  type Tag = t: int | 0 <= t < 0x10_0000
  type Index = i: int | 0 <= i < 256
  type Offset = k: int | 0 <= k < 4

  datatype BlockId = BlockId(tag: Tag, index: Index)

  /** An address as the units cut it: {tag, index, blockoffset, byteoffset}. */
  datatype Addr = Addr(block: BlockId, word: Offset, byte: Offset)

  function Num(a: Addr): Word {
    a.block.tag * 0x1000 + a.block.index * 16 + a.word * 4 + a.byte
  }

  function ToAddr(n: Word): Addr {
    Addr(BlockId(n / 0x1000, n / 16 % 256), n / 4 % 4, n % 4)
  }

  lemma Quarter(q: nat, r: Offset)
    ensures (4 * q + r) / 4 == q && (4 * q + r) % 4 == r
  {
  }

  lemma Halves(n: nat)
    ensures n / 16 == n / 4 / 4 && n / 0x1000 == n / 16 / 256
  {
  }

  lemma AddrOfNum(a: Addr)
    ensures ToAddr(Num(a)) == a
  {
    var block := a.block.tag * 256 + a.block.index;
    Quarter(4 * block + a.word, a.byte);
    Quarter(block, a.word);
    Halves(Num(a));
    assert block / 256 == a.block.tag && block % 256 == a.block.index;
  }

  lemma NumOfAddr(n: Word)
    ensures Num(ToAddr(n)) == n
  {
    Halves(n);
  }

  type Line = s: seq<Lanes> | |s| == 4 witness seq<Lanes>(4, _ => Lanes(0, 0, 0, 0))
  const ZERO_LANES := Lanes(0, 0, 0, 0)
  const ZERO_LINE: Line := [ZERO_LANES, ZERO_LANES, ZERO_LANES, ZERO_LANES]

  type Blocks = m: imap<BlockId, Line> | forall b: BlockId :: b in m
    ghost witness imap b: BlockId :: seq<Lanes>(4, _ => Lanes(0, 0, 0, 0))
  type Flat = f: seq<Byte> | |f| == 0x1_0000_0000 ghost witness seq<Byte>(0x1_0000_0000, _ => 0)

  /** byteen: MEM_BYTE, MEM_HALFWORD, MEM_WORD. */
  datatype Size = ByteSize | HalfSize | WordSize

  function Bytes(size: Size): nat {
    match size case ByteSize => 1 case HalfSize => 2 case WordSize => 4
  }

  predicate Aligned(a: Addr, size: Size) {
    a.byte % Bytes(size) == 0
  }

  datatype Request =
    | NoRequest
    | Load(addr: Addr, size: Size)
    | Store(addr: Addr, size: Size, data: Lanes)

  predicate AlignedRequest(r: Request) {
    !r.NoRequest? ==> Aligned(r.addr, r.size)
  }

  // ---- flat byte memory ----

  function FlatLoad(f: Flat, n: Word, size: Size): Lanes
    requires n % Bytes(size) == 0
  {
    match size
    case ByteSize => Lanes(0, 0, 0, f[n])
    case HalfSize => Lanes(0, 0, f[n + 1], f[n])
    case WordSize => Lanes(f[n + 3], f[n + 2], f[n + 1], f[n])
  }

  function FlatStore(f: Flat, n: Word, size: Size, d: Lanes): Flat
    requires n % Bytes(size) == 0
  {
    match size
    case ByteSize => f[n := d.b0]
    case HalfSize => f[n := d.b0][n + 1 := d.b1]
    case WordSize => f[n := d.b0][n + 1 := d.b1][n + 2 := d.b2][n + 3 := d.b3]
  }

  // ---- block memory ----

  /** The word, half or byte of a line that an address selects, zero-extended. */
  function Pick(line: Line, a: Addr, size: Size): Lanes {
    var w := line[a.word];
    match size
    case WordSize => w
    case HalfSize => if a.byte == 0 then Lanes(0, 0, w.b1, w.b0) else Lanes(0, 0, w.b3, w.b2)
    case ByteSize => Lanes(0, 0, 0, LaneOf(w, a.byte))
  }

  /** The word of a line after a store of `d` into the bytes an address selects. */
  function MergeWord(w: Lanes, a: Addr, size: Size, d: Lanes): Lanes {
    match size
    case WordSize => d
    case HalfSize => if a.byte == 0 then Lanes(w.b3, w.b2, d.b1, d.b0) else Lanes(d.b1, d.b0, w.b1, w.b0)
    case ByteSize =>
      match a.byte
      case 0 => Lanes(w.b3, w.b2, w.b1, d.b0)
      case 1 => Lanes(w.b3, w.b2, d.b0, w.b0)
      case 2 => Lanes(w.b3, d.b0, w.b1, w.b0)
      case _ => Lanes(d.b0, w.b2, w.b1, w.b0)
  }

  function Merge(line: Line, a: Addr, size: Size, d: Lanes): Line {
    line[a.word := MergeWord(line[a.word], a, size, d)]
  }

  ghost function BlockLoad(m: Blocks, a: Addr, size: Size): Lanes {
    Pick(m[a.block], a, size)
  }

  ghost function BlockStore(m: Blocks, a: Addr, size: Size, d: Lanes): Blocks {
    m[a.block := Merge(m[a.block], a, size, d)]
  }

  // ---- the two views agree ----

  ghost function ByteAt(m: Blocks, a: Addr): Byte {
    LaneOf(m[a.block][a.word], a.byte)
  }

  ghost function FlatOf(m: Blocks): Flat {
    seq(0x1_0000_0000, n requires 0 <= n < 0x1_0000_0000 => ByteAt(m, ToAddr(n)))
  }

  lemma ByteOfAccess(m: Blocks, a: Addr, k: Offset)
    requires a.byte + k < 4
    ensures Num(a) + k < TWO32 && FlatOf(m)[Num(a) + k] == ByteAt(m, a.(byte := a.byte + k))
  {
    AddrOfNum(a.(byte := a.byte + k));
  }

  lemma AlignedNum(a: Addr, size: Size)
    requires Aligned(a, size)
    ensures Num(a) % Bytes(size) == 0
  {
    var q := a.block.tag * 0x400 + a.block.index * 4 + a.word;
    assert Num(a) == 4 * q + a.byte;
    match size
    case ByteSize =>
    case HalfSize => assert Num(a) == 2 * (2 * q) + a.byte;
    case WordSize =>
  }

  lemma ByteIsFlat(m: Blocks, a: Addr)
    ensures BlockLoad(m, a, ByteSize) == FlatLoad(FlatOf(m), Num(a), ByteSize)
  {
    ByteOfAccess(m, a, 0);
  }

  lemma HalfIsFlat(m: Blocks, a: Addr)
    requires Aligned(a, HalfSize) && Num(a) % 2 == 0
    ensures BlockLoad(m, a, HalfSize) == FlatLoad(FlatOf(m), Num(a), HalfSize)
  {
    ByteOfAccess(m, a, 0);
    ByteOfAccess(m, a, 1);
  }

  lemma WordIsFlat(m: Blocks, a: Addr)
    requires Aligned(a, WordSize) && Num(a) % 4 == 0
    ensures BlockLoad(m, a, WordSize) == FlatLoad(FlatOf(m), Num(a), WordSize)
  {
    ByteOfAccess(m, a, 0);
    ByteOfAccess(m, a, 1);
    ByteOfAccess(m, a, 2);
    ByteOfAccess(m, a, 3);
  }

  lemma LoadIsFlat(m: Blocks, a: Addr, size: Size)
    requires Aligned(a, size)
    ensures Num(a) % Bytes(size) == 0
    ensures BlockLoad(m, a, size) == FlatLoad(FlatOf(m), Num(a), size)
  {
    AlignedNum(a, size);
    match size
    case ByteSize => ByteIsFlat(m, a);
    case HalfSize => HalfIsFlat(m, a);
    case WordSize => WordIsFlat(m, a);
  }

  lemma MergeLanes(w: Lanes, a: Addr, size: Size, d: Lanes, k: Offset)
    requires Aligned(a, size)
    ensures LaneOf(MergeWord(w, a, size, d), k)
            == if a.byte <= k < a.byte + Bytes(size) then LaneOf(d, k - a.byte) else LaneOf(w, k)
  {
  }

  lemma FlatStoreAt(f: Flat, n: Word, size: Size, d: Lanes, x: Word)
    requires n % Bytes(size) == 0
    ensures FlatStore(f, n, size, d)[x] == if n <= x < n + Bytes(size) then LaneOf(d, x - n) else f[x]
  {
  }

  function WordNum(a: Addr): nat { a.block.tag * 0x400 + a.block.index * 4 + a.word }

  lemma SameWordNum(a: Addr, c: Addr)
    ensures WordNum(a) == WordNum(c) <==> c.block == a.block && c.word == a.word
  {
  }

  lemma Inside(a: Addr, size: Size, c: Addr)
    requires Aligned(a, size)
    ensures Num(a) <= Num(c) < Num(a) + Bytes(size)
            <==> c.block == a.block && c.word == a.word && a.byte <= c.byte < a.byte + Bytes(size)
  {
    SameWordNum(a, c);
    assert Num(a) == 4 * WordNum(a) + a.byte && Num(c) == 4 * WordNum(c) + c.byte;
  }

  /** The block-level store is the byte-level store. */
  lemma StoreIsFlat(m: Blocks, a: Addr, size: Size, d: Lanes)
    requires Aligned(a, size)
    ensures Num(a) % Bytes(size) == 0
    ensures FlatOf(BlockStore(m, a, size, d)) == FlatStore(FlatOf(m), Num(a), size, d)
  {
    AlignedNum(a, size);
    forall x: Word
      ensures FlatOf(BlockStore(m, a, size, d))[x] == FlatStore(FlatOf(m), Num(a), size, d)[x]
    {
      var c := ToAddr(x);
      NumOfAddr(x);
      FlatStoreAt(FlatOf(m), Num(a), size, d, x);
      Inside(a, size, c);
      MergeLanes(m[a.block][a.word], a, size, d, c.byte);
    }
  }
}
