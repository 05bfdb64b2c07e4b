/** What the test finds: for memories whose words may share cells, whose bits may be stuck and whose write masks may be
    broken, it passes exactly when no two words of the region share a cell, no bit of its cells is stuck and every mask
    does what it is asked. */
module MemoryFaults {
  import opened Bits
  import opened Assembler
  import opened Machine
  import opened SpramPattern
  import opened SpramTest

  datatype Stuck = Free | StuckAt(bit: bool)

  /** A memory by its faults: the cell an address reaches, each cell's stuck bits, the chip a cell is in, which bits
      of a word that chip writes when asked for some lanes, and what cells held at first. */
  datatype Cells = Cells(cellOf: Word -> nat, stuck: (nat, nat) -> Stuck, chip: nat -> nat,
                         mask: (nat, Lanes, nat) -> bool, initial: nat -> Word)

  /** Whether a write to some lanes of a cell reaches its bit k. */
  predicate Reached(m: Cells, c: nat, lanes: Lanes, k: nat) { m.mask(m.chip(c), lanes, k) }

  function ReachedBy(m: Cells, c: nat, lanes: Lanes): nat -> bool { (k: nat) => Reached(m, c, lanes, k) }

  /** A cell all of whose bits a whole-word write reaches. */
  predicate WritesWhole(m: Cells, c: nat) { forall k | 0 <= k < 32 :: Reached(m, c, ALL_LANES, k) }

  /** The lanes a write selects, replaced. */
  function Merge(old_: Word, data: Word, lanes: Lanes): Word {
    var b0 := ByteOf(if lanes.b0 then data else old_, 0);
    var b1 := ByteOf(if lanes.b1 then data else old_, 1);
    var b2 := ByteOf(if lanes.b2 then data else old_, 2);
    var b3 := ByteOf(if lanes.b3 then data else old_, 3);
    LittleEndian([b0, b1, b2, b3])
  }

  /** The bits from k up that a mask selects, replaced. */
  function MergeFrom(old_: nat, data: nat, mask: nat -> bool, k: nat): (w: nat)
    requires k <= 32
    ensures w < Pow2(32 - k)
    decreases 32 - k
  {
    if k == 32 then 0 else (if mask(k) then data % 2 else old_ % 2) + 2 * MergeFrom(old_ / 2, data / 2, mask, k + 1)
  }

  function MergeBits(old_: Word, data: Word, mask: nat -> bool): Word {
    Pow2Values();
    MergeFrom(old_, data, mask, 0)
  }

  /** What a cell holds after these accesses. */
  function Held(m: Cells, bus: seq<Access>, c: nat): Word {
    if bus == [] then m.initial(c)
    else
      var before := Held(m, bus[..|bus| - 1], c);
      match bus[|bus| - 1]
      case Read(_) => before
      case Write(addr, data, lanes) =>
        if m.cellOf(addr) == c then MergeBits(before, data, ReachedBy(m, c, lanes)) else before
  }

  /** Bit k of a cell as it reads. */
  function SeenBit(m: Cells, c: nat, k: nat, v: nat): (b: nat)
    ensures b < 2
  {
    match m.stuck(c, k) case Free => v % 2 case StuckAt(b) => if b then 1 else 0
  }

  /** The bits from k up of a cell's value as they read: stuck ones as they are stuck. */
  function SeenFrom(m: Cells, c: nat, k: nat, v: nat): (w: nat)
    requires k <= 32
    ensures w < Pow2(32 - k)
    decreases 32 - k
  {
    if k == 32 then 0 else SeenBit(m, c, k, v) + 2 * SeenFrom(m, c, k + 1, v / 2)
  }

  function ReadCell(m: Cells, bus: seq<Access>, c: nat): Word {
    Pow2Values();
    SeenFrom(m, c, 0, Held(m, bus, c))
  }

  /** What answers reads is this memory. */
  ghost predicate Behaves(memory: Memory, m: Cells) {
    forall bus, addr :: memory(bus, addr) == ReadCell(m, bus, m.cellOf(addr))
  }

  // ---- bytes ----

  lemma HalfBytes(lo: nat, hi: nat)
    requires lo < 0x1_0000 && hi < 0x1_0000
    ensures var w := lo + 0x1_0000 * hi;
            && w < WORD_LIMIT && w % 0x1_0000 == lo && w / 0x1_0000 == hi
            && ByteOf(w, 0) == lo % 0x100 && ByteOf(w, 1) == lo / 0x100
            && ByteOf(w, 2) == hi % 0x100 && ByteOf(w, 3) == hi / 0x100
  {
    hide Shr, Pow2;
    var w := lo + 0x1_0000 * hi;
    Pow2Values();
    ShrZero(w); ShrValue(w, 8); ShrShr(w, 8, 8); ShrShr(w, 16, 8);
    ShrValue(Shr(w, 8), 8); ShrValue(Shr(w, 16), 8);
    Peel(lo / 0x100 + 0x100 * hi, lo % 0x100, 0x100);
    Peel(hi, lo / 0x100, 0x100);
    Peel(0, hi / 0x100, 0x100);
    Peel(hi, lo, 0x1_0000);
  }

  lemma MergedBytes(w: Word, data: Word, sel: Lanes)
    ensures var m := Merge(w, data, sel);
            && ByteOf(m, 0) == ByteOf(if sel.b0 then data else w, 0)
            && ByteOf(m, 1) == ByteOf(if sel.b1 then data else w, 1)
            && ByteOf(m, 2) == ByteOf(if sel.b2 then data else w, 2)
            && ByteOf(m, 3) == ByteOf(if sel.b3 then data else w, 3)
  {
    hide ByteOf, Merge;
    MergedBytesOf(ByteOf(if sel.b0 then data else w, 0), ByteOf(if sel.b1 then data else w, 1),
                  ByteOf(if sel.b2 then data else w, 2), ByteOf(if sel.b3 then data else w, 3));
    assert Merge(w, data, sel) == LittleEndian([ByteOf(if sel.b0 then data else w, 0),
      ByteOf(if sel.b1 then data else w, 1), ByteOf(if sel.b2 then data else w, 2),
      ByteOf(if sel.b3 then data else w, 3)]) by { MergeIs(w, data, sel); }
  }

  lemma MergeIs(w: Word, data: Word, sel: Lanes)
    ensures Merge(w, data, sel) == LittleEndian([ByteOf(if sel.b0 then data else w, 0),
      ByteOf(if sel.b1 then data else w, 1), ByteOf(if sel.b2 then data else w, 2),
      ByteOf(if sel.b3 then data else w, 3)])
  {
    hide ByteOf;
  }

  lemma MergedBytesOf(b0: nat, b1: nat, b2: nat, b3: nat)
    requires b0 < 0x100 && b1 < 0x100 && b2 < 0x100 && b3 < 0x100
    ensures var w := LittleEndian([b0, b1, b2, b3]);
            ByteOf(w, 0) == b0 && ByteOf(w, 1) == b1 && ByteOf(w, 2) == b2 && ByteOf(w, 3) == b3
  {
    hide ByteOf;
    HalfBytes(b0 + 0x100 * b1, b2 + 0x100 * b3);
    Peel(b1, b0, 0x100); Peel(b3, b2, 0x100);
    assert LittleEndian([b0, b1, b2, b3]) == b0 + 0x100 * b1 + 0x1_0000 * (b2 + 0x100 * b3);
  }

  predicate LaneIn(lanes: Lanes, lane: nat) {
    if lane == 0 then lanes.b0 else if lane == 1 then lanes.b1 else if lane == 2 then lanes.b2 else lanes.b3
  }

  // ---- bits ----

  lemma {:induction false} SameBits(v: nat, w: nat, n: nat)
    requires v < Pow2(n) && w < Pow2(n) && forall k | 0 <= k < n :: Bit(v, k) == Bit(w, k)
    ensures v == w
    decreases n
  {
    if n > 0 {
      assert Bit(v, 0) == Bit(w, 0);
      forall k | 0 <= k < n - 1 ensures Bit(v / 2, k) == Bit(w / 2, k) {
        assert Bit(v, k + 1) == Bit(w, k + 1);
      }
      SameBits(v / 2, w / 2, n - 1);
    }
  }

  lemma MergedHalf(old_: nat, data: nat, mask: nat -> bool, k: nat)
    requires k < 32
    ensures MergeFrom(old_, data, mask, k) / 2 == MergeFrom(old_ / 2, data / 2, mask, k + 1)
    ensures MergeFrom(old_, data, mask, k) % 2 == if mask(k) then data % 2 else old_ % 2
  {
    hide Pow2;
  }

  lemma BitHalf(x: nat, k: nat)
    ensures Bit(x, 0) == x % 2 && (k > 0 ==> Bit(x, k) == Bit(x / 2, k - 1))
  {}

  lemma {:induction false} MergedFrom(old_: nat, data: nat, mask: nat -> bool, k: nat, j: nat)
    requires k <= j < 32
    ensures Bit(MergeFrom(old_, data, mask, k), j - k) == if mask(j) then Bit(data, j - k) else Bit(old_, j - k)
    decreases j - k
  {
    hide MergeFrom, Pow2, Bit;
    MergedHalf(old_, data, mask, k);
    BitHalf(MergeFrom(old_, data, mask, k), j - k);
    BitHalf(old_, j - k);
    BitHalf(data, j - k);
    if k < j {
      MergedFrom(old_ / 2, data / 2, mask, k + 1, j);
    }
  }

  lemma MergedBit(old_: Word, data: Word, mask: nat -> bool, j: nat)
    requires j < 32
    ensures Bit(MergeBits(old_, data, mask), j) == if mask(j) then Bit(data, j) else Bit(old_, j)
  {
    hide MergeFrom, Bit, Pow2;
    MergedFrom(old_, data, mask, 0, j);
  }

  /** A full write leaves its data. */
  lemma MergeAll(old_: Word, data: Word, mask: nat -> bool)
    requires forall k | 0 <= k < 32 :: mask(k)
    ensures MergeBits(old_, data, mask) == data
  {
    hide Bit, MergeBits;
    Pow2Values();
    forall k | 0 <= k < 32 ensures Bit(MergeBits(old_, data, mask), k) == Bit(data, k) {
      MergedBit(old_, data, mask, k);
    }
    SameBits(MergeBits(old_, data, mask), data, 32);
  }

  /** A byte's bits are the word's. */
  lemma {:induction false} LowBits(x: nat, j: nat, n: nat)
    requires j < n
    ensures Pow2(n) > 0 && Bit(x % Pow2(n), j) == Bit(x, j)
    decreases j
  {
    var p := Pow2(n - 1);
    Pow2Positive(n - 1);
    Halves(x, p);
    assert Pow2(n) == 2 * p;
    if j > 0 {
      LowBits(x / 2, j - 1, n - 1);
    }
  }

  lemma BitOfByte(w: nat, k: nat)
    ensures Bit(w, k) == Bit(ByteOf(w, k / 8), k % 8)
  {
    hide Shr, Pow2;
    Pow2Values();
    ShrShr(w, 8 * (k / 8), k % 8);
    LowBits(Shr(w, 8 * (k / 8)), k % 8, 8);
  }

  function LaneBits(lanes: Lanes): nat -> bool { (k: nat) => LaneIn(lanes, k / 8) }

  /** Whole lanes are whole bytes. */
  lemma MergeLanes(old_: Word, data: Word, lanes: Lanes, mask: nat -> bool)
    requires forall k | 0 <= k < 32 :: mask(k) <==> LaneIn(lanes, k / 8)
    ensures MergeBits(old_, data, mask) == Merge(old_, data, lanes)
  {
    hide Bit, MergeBits, Merge, ByteOf;
    Pow2Values();
    var m, n := MergeBits(old_, data, mask), Merge(old_, data, lanes);
    forall k | 0 <= k < 32 ensures Bit(m, k) == Bit(n, k) {
      MergedBit(old_, data, mask, k);
      MergedBytes(old_, data, lanes);
      BitOfByte(n, k);
      BitOfByte(data, k);
      BitOfByte(old_, k);
    }
    SameBits(m, n, 32);
  }

  lemma {:induction false} ComplementBits(w: nat, n: nat, k: nat)
    requires w < Pow2(n) && k < n
    ensures Bit(Pow2(n) - 1 - w, k) == 1 - Bit(w, k)
    decreases n
  {
    if k > 0 {
      ComplementBits(w / 2, n - 1, k - 1);
      Complements(Pow2(n - 1), w);
    }
  }

  lemma ComplementBit(w: Word, k: nat)
    requires k < 32
    ensures Bit(ONES - w, k) == 1 - Bit(w, k)
  {
    hide Bit, Pow2;
    Pow2Values();
    ComplementBits(w, 32, k);
  }

  // ---- stuck bits ----

  lemma {:induction false} NoneStuckReadsTrue(m: Cells, c: nat, k: nat, v: nat)
    requires k <= 32 && v < Pow2(32 - k) && forall j | k <= j < 32 :: m.stuck(c, j).Free?
    ensures SeenFrom(m, c, k, v) == v
    decreases 32 - k
  {
    if k < 32 {
      NoneStuckReadsTrue(m, c, k + 1, v / 2);
    }
  }

  lemma SeenSplits(m: Cells, c: nat, k: nat, v: nat)
    requires k < 32
    ensures SeenFrom(m, c, k, v) == SeenBit(m, c, k, v) + 2 * SeenFrom(m, c, k + 1, v / 2)
    ensures Pow2(32 - k) == 2 * Pow2(32 - (k + 1))
  {}

  /** A cell that reads a value and its complement both right has no stuck bit. */
  lemma {:induction false} BothReadTrue(m: Cells, c: nat, k: nat, v: nat)
    requires k <= 32 && v < Pow2(32 - k)
    requires SeenFrom(m, c, k, v) == v && SeenFrom(m, c, k, Pow2(32 - k) - 1 - v) == Pow2(32 - k) - 1 - v
    ensures forall j | k <= j < 32 :: m.stuck(c, j).Free?
    decreases 32 - k
  {
    hide SeenFrom, Pow2;
    if k < 32 {
      var p := Pow2(32 - (k + 1));
      var other := Pow2(32 - k) - 1 - v;
      SeenSplits(m, c, k, v);
      SeenSplits(m, c, k, other);
      Complements(p, v);
      assert other / 2 == p - 1 - v / 2;
      BothReadTrue(m, c, k + 1, v / 2);
    }
  }

  /** Each bit as it reads is the bit as it is held, or as it is stuck. */
  lemma {:induction false} SeenAt(m: Cells, c: nat, k: nat, j: nat, v: nat)
    requires k <= j < 32
    ensures Bit(SeenFrom(m, c, k, v), j - k) == SeenBit(m, c, j, Shr(v, j - k))
    decreases j - k
  {
    hide SeenBit;
    if k < j {
      SeenAt(m, c, k + 1, j, v / 2);
      var b, rest := SeenBit(m, c, k, v), SeenFrom(m, c, k + 1, v / 2);
      assert (b + 2 * rest) / 2 == rest;
    }
  }

  /** So a bit reads the same wherever it is the same. */
  lemma SeenAlike(m: Cells, c: nat, k: nat, v: nat, w: nat)
    requires k < 32 && Bit(v, k) == Bit(w, k)
    ensures Bit(SeenFrom(m, c, 0, v), k) == Bit(SeenFrom(m, c, 0, w), k)
  {
    hide SeenFrom, Shr;
    SeenAt(m, c, 0, k, v);
    SeenAt(m, c, 0, k, w);
  }

  lemma Complements(p: nat, v: nat)
    requires v < 2 * p
    ensures v / 2 < p && (2 * p - 1 - v) / 2 == p - 1 - v / 2 && (2 * p - 1 - v) % 2 == 1 - v % 2
  {}

  // ---- the write loop ----

  /** The cell of word i of the region. */
  function CellOfWord(m: Cells, base: nat, i: nat): nat
    requires base + 4 * i < WORD_LIMIT
  {
    m.cellOf(base + 4 * i)
  }

  function WriteOf(base: nat, i: nat, inverted: bool): Access
    requires base + 4 * i < WORD_LIMIT
  {
    InvertedIsComplement(4 * i); PatternPieces(4 * i);
    Write(base + 4 * i, Pattern(4 * i, inverted), ALL_LANES)
  }

  lemma HeldAfterWrite(m: Cells, bus: seq<Access>, base: nat, i: nat, inverted: bool, c: nat)
    requires base + 4 * i < WORD_LIMIT && WritesWhole(m, c)
    ensures Held(m, bus + [WriteOf(base, i, inverted)], c)
         == if CellOfWord(m, base, i) == c then Pattern(4 * i, inverted) else Held(m, bus, c)
  {
    hide Pattern, MergeBits;
    var w := WriteOf(base, i, inverted);
    assert (bus + [w])[..|bus|] == bus;
    MergeAll(Held(m, bus, c), w.data, ReachedBy(m, c, ALL_LANES));
  }

  lemma {:induction false} Untouched(m: Cells, bus: seq<Access>, base: nat, i: nat, n: nat, inverted: bool, c: nat)
    requires i <= n && base + 4 * n <= WORD_LIMIT
    requires WritesWhole(m, c) && forall j | i <= j < n :: CellOfWord(m, base, j) != c
    ensures Held(m, Written(bus, base, i, n, inverted), c) == Held(m, bus, c)
    decreases n - i
  {
    hide Held, Pattern;
    if i < n {
      HeldAfterWrite(m, bus, base, i, inverted, c);
      Untouched(m, bus + [WriteOf(base, i, inverted)], base, i + 1, n, inverted, c);
    }
  }

  /** After the loop a cell holds the pattern of the last word that reaches it. */
  lemma {:induction false} LastWriteHeld(m: Cells, bus: seq<Access>, base: nat, i: nat, n: nat, inverted: bool,
                                         last: nat)
    requires i <= last < n && base + 4 * n <= WORD_LIMIT
    requires forall j | last < j < n :: CellOfWord(m, base, j) != CellOfWord(m, base, last)
    requires WritesWhole(m, CellOfWord(m, base, last))
    ensures Held(m, Written(bus, base, i, n, inverted), CellOfWord(m, base, last)) == Pattern(4 * last, inverted)
    decreases n - i
  {
    hide Held, Pattern;
    var next := bus + [WriteOf(base, i, inverted)];
    if i < last {
      LastWriteHeld(m, next, base, i + 1, n, inverted, last);
    } else {
      HeldAfterWrite(m, bus, base, i, inverted, CellOfWord(m, base, last));
      Untouched(m, next, base, i + 1, n, inverted, CellOfWord(m, base, last));
    }
  }

  lemma {:induction false} LastSharer(m: Cells, base: nat, i: nat, n: nat) returns (last: nat)
    requires i < n && base + 4 * n <= WORD_LIMIT
    ensures i <= last < n && CellOfWord(m, base, last) == CellOfWord(m, base, i)
    ensures forall j | last < j < n :: CellOfWord(m, base, j) != CellOfWord(m, base, last)
    decreases n
  {
    if n - 1 == i || CellOfWord(m, base, n - 1) == CellOfWord(m, base, i) {
      last := n - 1;
    } else {
      last := LastSharer(m, base, i, n - 1);
    }
  }

  // ---- the read loop ----

  lemma HeldAfterRead(m: Cells, bus: seq<Access>, addr: Word, c: nat)
    ensures Held(m, bus + [Read(addr)], c) == Held(m, bus, c)
  {
    assert (bus + [Read(addr)])[..|bus|] == bus;
  }

  /** Word j reads back right. */
  predicate ReadsRight(m: Cells, bus: seq<Access>, base: nat, j: nat, inverted: bool)
    requires base + 4 * j < WORD_LIMIT
  {
    ReadCell(m, bus, CellOfWord(m, base, j)) == Pattern(4 * j, inverted)
  }

  /** Reading changes nothing, and passes exactly when every word reads back right. */
  lemma {:induction false} ReadBackIff(memory: Memory, m: Cells, bus: seq<Access>, base: nat, i: nat, n: nat,
                                       inverted: bool)
    requires Behaves(memory, m) && i <= n && base + 4 * n <= WORD_LIMIT
    ensures var o := ReadBack(memory, bus, base, i, n, inverted);
            && (o.Passed? <==> forall j | i <= j < n :: ReadsRight(m, bus, base, j, inverted))
            && forall c :: Held(m, o.bus, c) == Held(m, bus, c)
    decreases n - i
  {
    hide Held, Pattern, SeenFrom;
    if i < n {
      var next := bus + [Read(base + 4 * i)];
      forall c ensures Held(m, next, c) == Held(m, bus, c) {
        HeldAfterRead(m, bus, base + 4 * i, c);
      }
      ReadBackIff(memory, m, next, base, i + 1, n, inverted);
      assert forall j | i + 1 <= j < n ::
               ReadsRight(m, next, base, j, inverted) == ReadsRight(m, bus, base, j, inverted);
      assert ReadsRight(m, bus, base, i, inverted) <==> memory(bus, base + 4 * i) == Pattern(4 * i, inverted);
    }
  }

  // ---- the two passes ----

  /** No two words of the region share a cell, none of its cells has a stuck bit, and whole words are written whole. */
  ghost predicate Faultless(m: Cells, base: nat, n: nat)
    requires base + 4 * n <= WORD_LIMIT
  {
    && NoSharers(m, base, n)
    && (forall i | 0 <= i < n :: NoStuckBit(m, CellOfWord(m, base, i)) && WritesWhole(m, CellOfWord(m, base, i)))
  }

  predicate NoStuckBit(m: Cells, c: nat) {
    forall k | 0 <= k < 32 :: m.stuck(c, k).Free?
  }

  predicate PassAccepts(memory: Memory, bus: seq<Access>, base: nat, n: nat, inverted: bool)
    requires base + 4 * n <= WORD_LIMIT
  {
    PatternPass(memory, bus, base, n, inverted).Passed?
  }

  lemma FaultlessPasses(memory: Memory, m: Cells, bus: seq<Access>, base: nat, n: nat, inverted: bool)
    requires Behaves(memory, m)
    requires base + 4 * n <= WORD_LIMIT && Faultless(m, base, n)
    ensures PassAccepts(memory, bus, base, n, inverted)
  {
    hide Held, Pattern, SeenFrom;
    var written := Written(bus, base, 0, n, inverted);
    ReadBackIff(memory, m, written, base, 0, n, inverted);
    forall j | 0 <= j < n ensures ReadsRight(m, written, base, j, inverted) {
      LastWriteHeld(m, bus, base, 0, n, inverted, j);
      assert NoStuckBit(m, CellOfWord(m, base, j));
      InvertedIsComplement(4 * j); PatternPieces(4 * j);
      Pow2Values();
      NoneStuckReadsTrue(m, CellOfWord(m, base, j), 0, Pattern(4 * j, inverted));
    }
  }

  /** A passing pass read every word right, so words that share a cell have one pattern. */
  lemma SharersFound(memory: Memory, m: Cells, bus: seq<Access>, base: nat, n: nat, i: nat, j: nat)
    requires Behaves(memory, m)
    requires base + 4 * n <= WORD_LIMIT && n <= 0x8000 && i < j < n
    requires CellOfWord(m, base, i) == CellOfWord(m, base, j)
    ensures !PassAccepts(memory, bus, base, n, false)
  {
    hide Held, Pattern, SeenFrom;
    var written := Written(bus, base, 0, n, false);
    ReadBackIff(memory, m, written, base, 0, n, false);
    if ReadsRight(m, written, base, i, false) && ReadsRight(m, written, base, j, false) {
      PatternInjective(i, j, false);
    }
  }

  ghost predicate NoSharers(m: Cells, base: nat, n: nat)
    requires base + 4 * n <= WORD_LIMIT
  {
    forall j, k | 0 <= j < n && 0 <= k < n && CellOfWord(m, base, j) == CellOfWord(m, base, k) :: j == k
  }

  /** With a cell of its own, a word that passes reads its pattern from the cell that holds it. */
  lemma PatternSeen(memory: Memory, m: Cells, bus: seq<Access>, base: nat, n: nat, inverted: bool, i: nat)
    requires Behaves(memory, m)
    requires base + 4 * n <= WORD_LIMIT && i < n && NoSharers(m, base, n) && PassAccepts(memory, bus, base, n, inverted)
    requires WritesWhole(m, CellOfWord(m, base, i))
    ensures Pattern(4 * i, inverted) >= 0
    ensures SeenFrom(m, CellOfWord(m, base, i), 0, Pattern(4 * i, inverted)) == Pattern(4 * i, inverted)
  {
    hide Held, Pattern, SeenFrom, CellOfWord;
    var written := Written(bus, base, 0, n, inverted);
    ReadBackIff(memory, m, written, base, 0, n, inverted);
    LastWriteHeld(m, bus, base, 0, n, inverted, i);
    assert ReadsRight(m, written, base, i, inverted);
  }

  lemma StuckBitsFound(memory: Memory, m: Cells, bus: seq<Access>, bus': seq<Access>, base: nat, n: nat, i: nat)
    requires Behaves(memory, m)
    requires base + 4 * n <= WORD_LIMIT && i < n && NoSharers(m, base, n) && WritesWhole(m, CellOfWord(m, base, i))
    requires PassAccepts(memory, bus, base, n, false) && PassAccepts(memory, bus', base, n, true)
    ensures NoStuckBit(m, CellOfWord(m, base, i))
  {
    hide Held, Pattern, SeenFrom, CellOfWord, PassAccepts, NoSharers, Behaves;
    PatternSeen(memory, m, bus, base, n, false, i);
    PatternSeen(memory, m, bus', base, n, true, i);
    InvertedIsComplement(4 * i); PatternPieces(4 * i);
    Pow2Values();
    BothReadTrue(m, CellOfWord(m, base, i), 0, Pattern(4 * i, false));
  }

  /** A bit no whole-word write reaches is kept through the write loop. */
  lemma {:induction false} BitKept(m: Cells, bus: seq<Access>, base: nat, i: nat, n: nat, inverted: bool, c: nat,
                                   k: nat)
    requires i <= n && base + 4 * n <= WORD_LIMIT && k < 32 && !Reached(m, c, ALL_LANES, k)
    ensures Bit(Held(m, Written(bus, base, i, n, inverted), c), k) == Bit(Held(m, bus, c), k)
    decreases n - i
  {
    hide Bit, MergeBits, Pattern;
    if i < n {
      var w := WriteOf(base, i, inverted);
      assert (bus + [w])[..|bus|] == bus;
      MergedBit(Held(m, bus, c), w.data, ReachedBy(m, c, ALL_LANES), k);
      BitKept(m, bus + [w], base, i + 1, n, inverted, c, k);
    }
  }

  /** Passes that accept read every word's pattern and its complement: so whole words are written whole. */
  lemma WholeWritesFound(memory: Memory, m: Cells, bus: seq<Access>, base: nat, n: nat, i: nat)
    requires Behaves(memory, m)
    requires base + 4 * n <= WORD_LIMIT && i < n && PassAccepts(memory, bus, base, n, false)
    requires PassAccepts(memory, PatternPass(memory, bus, base, n, false).bus, base, n, true)
    ensures WritesWhole(m, CellOfWord(m, base, i))
  {
    hide Held, Pattern, SeenFrom, CellOfWord, Behaves, Bit, Written, Reached;
    var c := CellOfWord(m, base, i);
    var one := Written(bus, base, 0, n, false);
    var between := PatternPass(memory, bus, base, n, false).bus;
    var two := Written(between, base, 0, n, true);
    ReadBackIff(memory, m, one, base, 0, n, false);
    ReadBackIff(memory, m, two, base, 0, n, true);
    assert ReadsRight(m, one, base, i, false) && ReadsRight(m, two, base, i, true);
    forall k | 0 <= k < 32 ensures Reached(m, c, ALL_LANES, k) {
      if !Reached(m, c, ALL_LANES, k) {
        BitKept(m, between, base, 0, n, true, c, k);
        NotBothPatterns(m, c, i, k, Held(m, one, c), Held(m, two, c));
      }
    }
  }

  /** A bit that is held at one level does not read as the pattern's and as its complement's. */
  lemma NotBothPatterns(m: Cells, c: nat, i: nat, k: nat, v: Word, w: Word)
    requires k < 32 && Bit(v, k) == Bit(w, k)
    ensures !(SeenFrom(m, c, 0, v) == Pattern(4 * i, false) && SeenFrom(m, c, 0, w) == Pattern(4 * i, true))
  {
    hide SeenFrom, Pattern, Bit;
    SeenAlike(m, c, k, v, w);
    InvertedIsComplement(4 * i); PatternPieces(4 * i);
    ComplementBit(Pattern(4 * i, false), k);
  }

  /** The two passes, the second after the first, accept a memory of at most 128 KB if and only if it is faultless. */
  lemma PassesFindEveryFault(memory: Memory, m: Cells, bus: seq<Access>, base: nat, n: nat)
    requires Behaves(memory, m)
    requires base + 4 * n <= WORD_LIMIT && n <= 0x8000
    ensures var plain := PatternPass(memory, bus, base, n, false);
            (plain.Passed? && PassAccepts(memory, plain.bus, base, n, true)) <==> Faultless(m, base, n)
  {
    hide PassAccepts, Pattern, CellOfWord, NoStuckBit;
    var plain := PatternPass(memory, bus, base, n, false);
    assert PassAccepts(memory, bus, base, n, false) <==> plain.Passed? by { AcceptsIs(memory, bus, base, n); }
    if Faultless(m, base, n) {
      FaultlessPasses(memory, m, bus, base, n, false);
      FaultlessPasses(memory, m, plain.bus, base, n, true);
    }
    if plain.Passed? && PassAccepts(memory, plain.bus, base, n, true) {
      forall i, j | 0 <= i < n && 0 <= j < n && CellOfWord(m, base, i) == CellOfWord(m, base, j) ensures i == j {
        if i < j {
          SharersFound(memory, m, bus, base, n, i, j);
        } else if j < i {
          SharersFound(memory, m, bus, base, n, j, i);
        }
      }
      forall i | 0 <= i < n ensures NoStuckBit(m, CellOfWord(m, base, i)) && WritesWhole(m, CellOfWord(m, base, i)) {
        WholeWritesFound(memory, m, bus, base, n, i);
        StuckBitsFound(memory, m, bus, plain.bus, base, n, i);
      }
    }
  }

  lemma AcceptsIs(memory: Memory, bus: seq<Access>, base: nat, n: nat)
    requires base + 4 * n <= WORD_LIMIT
    ensures PassAccepts(memory, bus, base, n, false) <==> PatternPass(memory, bus, base, n, false).Passed?
  {}

  // ---- the byte lanes, and the whole test ----

  /** A byte written alone reaches its own lane and no other. */
  predicate LanesWork(m: Cells, c: nat) { forall lane | 0 <= lane < 4 :: LaneWorks(m, c, lane) }

  predicate LaneWorks(m: Cells, c: nat, lane: nat) {
    forall k | 0 <= k < 32 :: Reached(m, c, OneLane(lane), k) <==> k / 8 == lane
  }

  lemma LaneHeld(m: Cells, bus: seq<Access>, addr: Word, lane: nat)
    requires lane < 4 && WritesWhole(m, m.cellOf(addr))
    ensures LaneExpected(lane) < WORD_LIMIT
    ensures Held(m, bus + [Write(addr, ONES, ALL_LANES), Write(addr, 0, OneLane(lane))], m.cellOf(addr))
         == LaneExpected(lane)
       <==> LaneWorks(m, m.cellOf(addr), lane)
  {
    hide MergeBits;
    var c := m.cellOf(addr);
    var w, z := Write(addr, ONES, ALL_LANES), Write(addr, 0, OneLane(lane));
    assert (bus + [w, z])[..|bus| + 1] == bus + [w] && (bus + [w])[..|bus|] == bus;
    MergeAll(Held(m, bus, c), ONES, ReachedBy(m, c, ALL_LANES));
    LaneMergedIff(ReachedBy(m, c, OneLane(lane)), lane);
    assert Held(m, bus + [w, z], c) == MergeBits(ONES, 0, ReachedBy(m, c, OneLane(lane)));
    forall k: nat ensures ReachedBy(m, c, OneLane(lane))(k) == Reached(m, c, OneLane(lane), k) {}
    if LaneWorks(m, c, lane) {
      assert forall k | 0 <= k < 32 :: Reached(m, c, OneLane(lane), k) <==> k / 8 == lane;
    }
  }

  /** Zero over all ones: the bits written are those that read 0. */
  lemma LaneMergedIff(mask: nat -> bool, lane: nat)
    requires lane < 4
    ensures LaneExpected(lane) < WORD_LIMIT
    ensures MergeBits(ONES, 0, mask) == LaneExpected(lane) <==> forall k | 0 <= k < 32 :: mask(k) <==> k / 8 == lane
  {
    hide Bit, MergeBits;
    Pow2Values();
    LaneMerged(lane);
    var m, n := MergeBits(ONES, 0, mask), LaneExpected(lane);
    forall k | 0 <= k < 32 ensures Bit(m, k) == Bit(n, k) <==> (mask(k) <==> k / 8 == lane) {
      MergedBit(ONES, 0, mask, k);
      MergeLanes(ONES, 0, OneLane(lane), LaneBits(OneLane(lane)));
      MergedBit(ONES, 0, LaneBits(OneLane(lane)), k);
      ComplementBit(0, k);
      NoBit(k);
    }
    if forall k | 0 <= k < 32 :: mask(k) <==> k / 8 == lane {
      SameBits(m, n, 32);
    }
  }

  lemma {:induction false} NoBit(k: nat)
    ensures Bit(0, k) == 0
  {
    if k > 0 {
      NoBit(k - 1);
    }
  }

  lemma LaneMerged(lane: nat)
    requires lane < 4
    ensures Merge(ONES, 0, OneLane(lane)) == LaneExpected(lane) < WORD_LIMIT
  {
    hide ByteOf;
    ByteSplit(ONES);
    ByteSplit(0);
  }

  lemma {:induction false} BankPassesIff(memory: Memory, m: Cells, bus: seq<Access>, addr: Word, lane: nat)
    requires Behaves(memory, m) && lane <= 4 && NoStuckBit(m, m.cellOf(addr)) && WritesWhole(m, m.cellOf(addr))
    ensures BankTest(memory, bus, addr, lane).Passed? <==> forall l | lane <= l < 4 :: LaneWorks(m, m.cellOf(addr), l)
    decreases 4 - lane
  {
    hide Held, SeenFrom, LaneExpected, LaneWorks, WritesWhole;
    if lane < 4 {
      var written := bus + [Write(addr, ONES, ALL_LANES), Write(addr, 0, OneLane(lane))];
      LaneHeld(m, bus, addr, lane);
      Pow2Values();
      NoneStuckReadsTrue(m, m.cellOf(addr), 0, Held(m, written, m.cellOf(addr)));
      assert memory(written, addr) == LaneExpected(lane) <==> LaneWorks(m, m.cellOf(addr), lane);
      BankPassesIff(memory, m, written + [Read(addr)], addr, lane + 1);
    }
  }

  /** The first word of each bank is sound but for its byte lanes. */
  predicate FirstWordsHold(m: Cells, base: nat, banks: nat)
    requires base + BANK_SIZE * banks <= WORD_LIMIT
  {
    forall b | 0 <= b < banks :: FirstWordHolds(m, base + BANK_SIZE * b)
  }

  predicate FirstWordHolds(m: Cells, addr: Word) { NoStuckBit(m, m.cellOf(addr)) && WritesWhole(m, m.cellOf(addr)) }

  predicate BankLanesWork(m: Cells, base: nat, b: nat)
    requires base + BANK_SIZE * b < WORD_LIMIT
  {
    LanesWork(m, m.cellOf(base + BANK_SIZE * b))
  }

  lemma {:induction false} LanesPassIff(memory: Memory, m: Cells, bus: seq<Access>, base: nat, b: nat, banks: nat)
    requires Behaves(memory, m) && b <= banks && base + BANK_SIZE * banks <= WORD_LIMIT
    requires FirstWordsHold(m, base, banks)
    ensures LanePass(memory, bus, base, b, banks).Passed? <==> forall k | b <= k < banks :: BankLanesWork(m, base, k)
    decreases banks - b
  {
    hide BankTest, LaneWorks;
    if b < banks {
      var first := BankTest(memory, bus, base + BANK_SIZE * b, 0);
      assert FirstWordHolds(m, base + BANK_SIZE * b);
      BankPassesIff(memory, m, bus, base + BANK_SIZE * b, 0);
      LanesPassIff(memory, m, first.bus, base, b + 1, banks);
      assert first.Passed? <==> BankLanesWork(m, base, b);
    }
  }

  /** The first word of bank b is word 0x4000 b of the region. */
  lemma FirstWord(m: Cells, base: nat, b: nat, banks: nat)
    requires base + BANK_SIZE * banks <= WORD_LIMIT && b < banks
    ensures BANK_SIZE / 4 * b < BANK_SIZE / 4 * banks && base + BANK_SIZE * b < WORD_LIMIT
    ensures CellOfWord(m, base, BANK_SIZE / 4 * b) == m.cellOf(base + BANK_SIZE * b)
  {
    BankWords(b, banks);
  }

  lemma BankWords(b: nat, banks: nat)
    requires b < banks
    ensures 4 * (BANK_SIZE / 4 * b) == BANK_SIZE * b && BANK_SIZE / 4 * b < BANK_SIZE / 4 * banks
    ensures BANK_SIZE * b < BANK_SIZE * banks
  {}

  lemma FirstWordsOf(m: Cells, base: nat, banks: nat)
    requires base + BANK_SIZE * banks <= WORD_LIMIT && Faultless(m, base, BANK_SIZE / 4 * banks)
    ensures FirstWordsHold(m, base, banks)
  {
    hide NoStuckBit, WritesWhole, NoSharers, CellOfWord;
    forall b | 0 <= b < banks ensures FirstWordHolds(m, base + BANK_SIZE * b) {
      FirstWord(m, base, b, banks);
      assert NoStuckBit(m, CellOfWord(m, base, BANK_SIZE / 4 * b));
    }
  }

  /** The whole test passes exactly when the region is faultless and at the start of each bank every byte lane works. */
  lemma TestPassesIff(memory: Memory, m: Cells, bus: seq<Access>, base: nat, banks: nat)
    requires Behaves(memory, m) && banks <= 2 && base + BANK_SIZE * banks <= WORD_LIMIT
    ensures TestMemory(memory, bus, base, banks).Passed?
       <==> Faultless(m, base, BANK_SIZE / 4 * banks) && forall b | 0 <= b < banks :: BankLanesWork(m, base, b)
  {
    hide PatternPass, LanePass, Faultless, Behaves, BankLanesWork, FirstWordsHold;
    var n := BANK_SIZE / 4 * banks;
    var plain := PatternPass(memory, bus, base, n, false);
    PassesFindEveryFault(memory, m, bus, base, n);
    if plain.Passed? {
      var inverse := PatternPass(memory, plain.bus, base, n, true);
      if inverse.Passed? {
        FirstWordsOf(m, base, banks);
        LanesPassIff(memory, m, inverse.bus, base, 0, banks);
      }
    }
  }

  /** A cell every one of whose masks does what it is asked. */
  predicate MasksWork(m: Cells, c: nat) { WritesWhole(m, c) && LanesWork(m, c) }

  /** Word i's masks are those of the first word of its bank. */
  predicate ChipOfBank(m: Cells, base: nat, i: nat)
    requires base + 4 * i < WORD_LIMIT
  {
    m.chip(CellOfWord(m, base, i)) == m.chip(m.cellOf(base + BANK_SIZE * (i / (BANK_SIZE / 4))))
  }

  predicate SoundCell(m: Cells, c: nat) { NoStuckBit(m, c) && MasksWork(m, c) }

  /** No two words of a region share a cell, and no cell has a stuck bit or a broken mask. */
  ghost predicate AllSound(m: Cells, base: nat, n: nat)
    requires base + 4 * n <= WORD_LIMIT
  {
    NoSharers(m, base, n) && forall i | 0 <= i < n :: SoundCell(m, CellOfWord(m, base, i))
  }

  /** The masks being the chips', one word of each bank reaches them all: the test passes exactly when all is sound. */
  lemma TestFindsEveryFault(memory: Memory, m: Cells, bus: seq<Access>, base: nat, banks: nat)
    requires Behaves(memory, m) && banks <= 2 && base + BANK_SIZE * banks <= WORD_LIMIT
    requires forall i | 0 <= i < BANK_SIZE / 4 * banks :: ChipOfBank(m, base, i)
    ensures TestMemory(memory, bus, base, banks).Passed? <==> AllSound(m, base, BANK_SIZE / 4 * banks)
  {
    hide TestMemory, Behaves, NoSharers, NoStuckBit, LaneWorks, BankLanesWork, ChipOfBank;
    var n := BANK_SIZE / 4 * banks;
    TestPassesIff(memory, m, bus, base, banks);
    if AllSound(m, base, n) {
      forall b | 0 <= b < banks ensures BankLanesWork(m, base, b) {
        FirstLanesSound(m, base, banks, b);
      }
      SoundFaultless(m, base, n);
    }
    if Faultless(m, base, n) && forall b | 0 <= b < banks :: BankLanesWork(m, base, b) {
      forall i | 0 <= i < n ensures SoundCell(m, CellOfWord(m, base, i)) {
        BankSound(m, base, banks, i);
      }
    }
  }

  lemma SoundFaultless(m: Cells, base: nat, n: nat)
    requires base + 4 * n <= WORD_LIMIT && AllSound(m, base, n)
    ensures Faultless(m, base, n)
  {
    hide NoSharers, NoStuckBit, LanesWork, CellOfWord, WritesWhole;
    forall i | 0 <= i < n ensures NoStuckBit(m, CellOfWord(m, base, i)) && WritesWhole(m, CellOfWord(m, base, i)) {
      assert SoundCell(m, CellOfWord(m, base, i));
    }
  }

  lemma FirstLanesSound(m: Cells, base: nat, banks: nat, b: nat)
    requires base + BANK_SIZE * banks <= WORD_LIMIT && AllSound(m, base, BANK_SIZE / 4 * banks) && b < banks
    ensures BankLanesWork(m, base, b)
  {
    hide NoSharers, NoStuckBit, LanesWork, WritesWhole, CellOfWord;
    FirstWord(m, base, b, banks);
    assert SoundCell(m, CellOfWord(m, base, BANK_SIZE / 4 * b));
  }

  lemma BankSound(m: Cells, base: nat, banks: nat, i: nat)
    requires base + BANK_SIZE * banks <= WORD_LIMIT && i < BANK_SIZE / 4 * banks
    requires Faultless(m, base, BANK_SIZE / 4 * banks) && ChipOfBank(m, base, i)
    requires forall b | 0 <= b < banks :: BankLanesWork(m, base, b)
    ensures SoundCell(m, CellOfWord(m, base, i))
  {
    hide NoSharers, NoStuckBit, LanesWork, WritesWhole;
    var b := i / (BANK_SIZE / 4);
    assert BankLanesWork(m, base, b);
    SameMasks(m, CellOfWord(m, base, i), m.cellOf(base + BANK_SIZE * b));
  }

  lemma SameMasks(m: Cells, c: nat, d: nat)
    requires m.chip(c) == m.chip(d) && LanesWork(m, d)
    ensures LanesWork(m, c)
  {
    forall lane | 0 <= lane < 4 ensures LaneWorks(m, c, lane) {
      assert LaneWorks(m, d, lane);
      assert forall k :: Reached(m, c, OneLane(lane), k) == Reached(m, d, OneLane(lane), k);
    }
  }

  // ---- above 128 KB ----

  /** A memory whose one fault is that words 1 and 0x8001 of a region share a cell. */
  function Sharing(base: nat): Cells {
    Cells((addr: Word) => if addr == base + 4 then base + 4 * 0x8001 else addr, (c, k) => Free, c => 0,
          (chip, lanes: Lanes, k: nat) => LaneIn(lanes, k / 8), c => 0)
  }

  /** The last word that reaches word j's cell, which has its pattern too. */
  function LastOf(j: nat): nat { if j == 1 then 0x8001 else j }

  lemma SamePattern(j: nat, inverted: bool)
    ensures Pattern(4 * LastOf(j), inverted) == Pattern(4 * j, inverted)
  {
    hide Pattern;
    PatternRepeatsAbove128K();
    InvertedIsComplement(0x4);
    InvertedIsComplement(0x2_0004);
  }

  lemma SharingAccepted(memory: Memory, bus: seq<Access>, base: nat, n: nat, inverted: bool)
    requires Behaves(memory, Sharing(base)) && base + 4 * n <= WORD_LIMIT && n > 0x8001
    ensures PassAccepts(memory, bus, base, n, inverted)
  {
    hide Held, Pattern, SeenFrom, Behaves;
    var m := Sharing(base);
    var written := Written(bus, base, 0, n, inverted);
    ReadBackIff(memory, m, written, base, 0, n, inverted);
    forall j | 0 <= j < n ensures ReadsRight(m, written, base, j, inverted) {
      LastWriteHeld(m, bus, base, 0, n, inverted, LastOf(j));
      SamePattern(j, inverted);
      InvertedIsComplement(4 * j); PatternPieces(4 * j);
      Pow2Values();
      NoneStuckReadsTrue(m, CellOfWord(m, base, j), 0, Pattern(4 * j, inverted));
    }
  }

  /** What a memory with these faults answers. */
  function MemoryOf(m: Cells): Memory { (bus: seq<Access>, addr: Word) => ReadCell(m, bus, m.cellOf(addr)) }

  predicate BothAccept(memory: Memory, bus: seq<Access>, base: nat, n: nat)
    requires base + 4 * n <= WORD_LIMIT
  {
    var plain := PatternPass(memory, bus, base, n, false);
    plain.Passed? && PassAccepts(memory, plain.bus, base, n, true)
  }

  /** A region of whole banks above 128 KB: the passes, and the whole test, accept a memory in which two words share a
      cell. */
  lemma SharingMissed(base: nat, banks: nat, bus: seq<Access>)
    requires banks > 2 && base + BANK_SIZE * banks <= WORD_LIMIT
    ensures var m, n := Sharing(base), BANK_SIZE / 4 * banks;
            && Behaves(MemoryOf(m), m) && !NoSharers(m, base, n) && BothAccept(MemoryOf(m), bus, base, n)
            && TestMemory(MemoryOf(m), bus, base, banks).Passed?
  {
    hide Held, Pattern, SeenFrom, PatternPass, LanePass;
    var m, n := Sharing(base), BANK_SIZE / 4 * banks;
    var memory := MemoryOf(m);
    assert CellOfWord(m, base, 1) == CellOfWord(m, base, 0x8001);
    SharingAccepted(memory, bus, base, n, false);
    var plain := PatternPass(memory, bus, base, n, false);
    SharingAccepted(memory, plain.bus, base, n, true);
    var inverse := PatternPass(memory, plain.bus, base, n, true);
    LanesPassIff(memory, m, inverse.bus, base, 0, banks);
  }

  /** The passes tell this memory right. */
  ghost predicate Tells(memory: Memory, m: Cells, bus: seq<Access>, base: nat, n: nat)
    requires base + 4 * n <= WORD_LIMIT
  {
    BothAccept(memory, bus, base, n) <==> Faultless(m, base, n)
  }

  lemma TellsSmall(memory: Memory, m: Cells, bus: seq<Access>, base: nat, n: nat)
    requires Behaves(memory, m) && base + 4 * n <= WORD_LIMIT && n <= 0x8000
    ensures Tells(memory, m, bus, base, n)
  {
    hide Behaves, Faultless, PatternPass, PassAccepts;
    PassesFindEveryFault(memory, m, bus, base, n);
  }

  lemma MissesLarge(base: nat, banks: nat)
    requires banks > 2 && base + BANK_SIZE * banks <= WORD_LIMIT
    ensures Behaves(MemoryOf(Sharing(base)), Sharing(base))
    ensures !Tells(MemoryOf(Sharing(base)), Sharing(base), [], base, BANK_SIZE / 4 * banks)
  {
    hide Behaves, BothAccept, Faultless, NoSharers, Sharing, TestMemory;
    SharingMissed(base, banks, []);
    SharersAreFaults(Sharing(base), base, BANK_SIZE / 4 * banks);
  }

  lemma SharersAreFaults(m: Cells, base: nat, n: nat)
    requires base + 4 * n <= WORD_LIMIT && !NoSharers(m, base, n)
    ensures !Faultless(m, base, n)
  {}

  /** The passes accept exactly the faultless memories, whatever the memory, if and only if the region is at most 128
      KB. */
  lemma PassesFindEveryFaultIff(base: nat, banks: nat)
    requires base + BANK_SIZE * banks <= WORD_LIMIT
    ensures (forall memory: Memory, m: Cells, bus: seq<Access> | Behaves(memory, m) ::
               Tells(memory, m, bus, base, BANK_SIZE / 4 * banks))
       <==> banks <= 2
  {
    hide Behaves, Tells, Sharing;
    if banks <= 2 {
      forall memory: Memory, m: Cells, bus: seq<Access> | Behaves(memory, m)
        ensures Tells(memory, m, bus, base, BANK_SIZE / 4 * banks)
      {
        TellsSmall(memory, m, bus, base, BANK_SIZE / 4 * banks);
      }
    } else {
      MissesLarge(base, banks);
    }
  }
}
