/** The UP5K's SPRAM as a Wishbone slave: each bank two SB_SPRAM256KA primitives side by side, clocked, with a write
    mask for each nibble. It refines a flat RAM of 32-bit words with byte enables. */
module Up5kSpram {
  import opened Bits
  import opened Machine
  import opened MemoryFaults

  const WORDS: nat := 0x4000        // of one SB_SPRAM256KA
  const BANK_BYTES: nat := 0x1_0000 // two of them side by side

  datatype Error = BadSize | NotAligned

  /** bank_bits: how many word-address bits above a primitive's 14 choose the bank; other sizes are refused. */
  function BankBits(size: int): (r: int)
    ensures r == -1 <==> size != BANK_BYTES && size != 2 * BANK_BYTES
  {
    if size == BANK_BYTES then 0 else if size == 2 * BANK_BYTES then 1 else -1
  }

  predicate Aligned(origin: nat, size: nat) { size > 0 && origin % size == 0 }

  /** check_aligned */
  method CheckAligned(origin: nat, size: nat) returns (ok: bool)
    requires size > 0
    ensures ok <==> Aligned(origin, size)
  {
    ok := origin % size == 0;
  }

  // ---- one SB_SPRAM256KA ----

  datatype Mask = Mask(n0: bool, n1: bool, n2: bool, n3: bool)

  /** 16K halfwords and the registered output. */
  datatype Half = Half(mem: seq<nat>, dataout: nat)

  function Nibble(v: nat, i: nat): nat {
    if i == 0 then v % 0x10 else if i == 1 then v / 0x10 % 0x10 else if i == 2 then v / 0x100 % 0x10
    else v / 0x1000 % 0x10
  }

  /** The nibbles the mask selects, replaced. */
  function MaskedWrite(old_: nat, new_: nat, mask: Mask): nat {
    Nibble(if mask.n0 then new_ else old_, 0) + 0x10 * Nibble(if mask.n1 then new_ else old_, 1)
    + 0x100 * Nibble(if mask.n2 then new_ else old_, 2) + 0x1000 * Nibble(if mask.n3 then new_ else old_, 3)
  }

  predicate HalfOk(h: Half) {
    |h.mem| == WORDS && h.dataout < 0x1_0000 && forall i | 0 <= i < WORDS :: h.mem[i] < 0x1_0000
  }

  /** A clock edge: a masked write, or a read into the output register. What the output is after a write is not said. */
  function HalfEdge(h: Half, address: nat, datain: nat, mask: Mask, wren: bool, junk: nat): Half
    requires |h.mem| == WORDS && address < WORDS
  {
    if wren then Half(h.mem[address := MaskedWrite(h.mem[address], datain, mask)], junk % 0x1_0000)
    else h.(dataout := h.mem[address])
  }

  // ---- the slave ----

  /** What the master drives. Addresses are word addresses. */
  datatype Bus = Bus(adr: nat, dat_w: Word, sel: Lanes, we: bool, stb: bool, cyc: bool)

  /** The primitives, two for each bank, and the acknowledge register. */
  datatype Slave = Slave(bits: nat, halves: seq<Half>, ack: bool)

  predicate SlaveOk(s: Slave) {
    && s.bits <= 1 && |s.halves| == 2 * Pow2(s.bits)
    && forall i | 0 <= i < |s.halves| :: HalfOk(s.halves[i])
  }

  /** The bank the address bits just above a primitive's words choose, and nothing above them. */
  function BankOf(bits: nat, adr: nat): (b: nat)
    ensures b < Pow2(bits)
  {
    adr / WORDS % Pow2(bits)
  }

  predicate Active(bus: Bus) { bus.stb && bus.cyc }

  predicate Selected(bits: nat, bus: Bus, i: nat) { BankOf(bits, bus.adr) == i / 2 }

  function DataIn(bus: Bus, half: nat): nat { if half == 0 then bus.dat_w % 0x1_0000 else bus.dat_w / 0x1_0000 }

  /** Two nibbles for each byte select. */
  function MaskOf(bus: Bus, half: nat): Mask {
    if half == 0 then Mask(bus.sel.b0, bus.sel.b0, bus.sel.b1, bus.sel.b1)
    else Mask(bus.sel.b2, bus.sel.b2, bus.sel.b3, bus.sel.b3)
  }

  function NextHalf(s: Slave, bus: Bus, i: nat, junk: nat): Half
    requires SlaveOk(s) && i < |s.halves|
  {
    HalfEdge(s.halves[i], bus.adr % WORDS, DataIn(bus, i % 2), MaskOf(bus, i % 2),
             Selected(s.bits, bus, i) && bus.we && Active(bus), junk)
  }

  function Edge(s: Slave, bus: Bus, junk: nat -> nat): Slave
    requires SlaveOk(s)
  {
    Slave(s.bits, seq(|s.halves|, i requires 0 <= i < |s.halves| => NextHalf(s, bus, i, junk(i))),
          Active(bus) && !s.ack)
  }

  /** The read data: the selected bank's two outputs. */
  function DatR(s: Slave, adr: nat): nat
    requires SlaveOk(s)
  {
    var b := BankOf(s.bits, adr);
    s.halves[2 * b].dataout + 0x1_0000 * s.halves[2 * b + 1].dataout
  }

  // ---- the same, clocked in place ----

  class Up5kSpramCore {
    const bits: nat
    var halves: seq<Half>
    var ack: bool

    function State(): Slave
      reads this
    {
      Slave(bits, halves, ack)
    }

    constructor (size: int)
      requires BankBits(size) >= 0
      ensures SlaveOk(State()) && bits == BankBits(size) && !ack
    {
      bits := BankBits(size);
      var empty := seq(WORDS, i => 0);
      halves := seq(2 * Pow2(BankBits(size)), i => Half(empty, 0));
      ack := false;
    }

    /** One edge of the clock: every primitive sees the bus as it was before the edge. */
    method Clock(bus: Bus, junk: nat -> nat)
      requires SlaveOk(State())
      modifies this
      ensures State() == Edge(old(State()), bus, junk)
    {
      hide HalfEdge;
      var next: seq<Half> := [];
      for i := 0 to |halves|
        invariant |next| == i && State() == old(State())
        invariant forall k | 0 <= k < i :: next[k] == NextHalf(State(), bus, k, junk(k))
      {
        next := next + [NextHalf(State(), bus, i, junk(i))];
      }
      halves, ack := next, Active(bus) && !ack;
    }
  }

  // ---- the words it holds ----

  /** The cell of a word address. */
  function CellAt(bits: nat, adr: nat): nat { BankOf(bits, adr) * WORDS + adr % WORDS }

  function WordAt(s: Slave, adr: nat): nat
    requires SlaveOk(s)
  {
    var b := BankOf(s.bits, adr);
    s.halves[2 * b].mem[adr % WORDS] + 0x1_0000 * s.halves[2 * b + 1].mem[adr % WORDS]
  }

  lemma WordAtIsWord(s: Slave, adr: nat)
    requires SlaveOk(s)
    ensures WordAt(s, adr) < WORD_LIMIT
  {
    hide BankOf;
    var b := BankOf(s.bits, adr);
    assert HalfOk(s.halves[2 * b]) && HalfOk(s.halves[2 * b + 1]);
  }

  /** A masked half keeps or takes whole bytes. */
  lemma MaskedBytes(old_: nat, new_: nat, low: bool, high: bool)
    requires old_ < 0x1_0000 && new_ < 0x1_0000
    ensures MaskedWrite(old_, new_, Mask(low, low, high, high))
         == (if low then new_ else old_) % 0x100 + 0x100 * ((if high then new_ else old_) / 0x100)
  {
    Nibbles(old_);
    Nibbles(new_);
  }

  lemma Nibbles(v: nat)
    requires v < 0x1_0000
    ensures Nibble(v, 0) + 0x10 * Nibble(v, 1) == v % 0x100 && Nibble(v, 2) + 0x10 * Nibble(v, 3) == v / 0x100
  {
    Pow2Values();
    DivDiv(v, 4, 4, 0x10, 0x10, 0x100); DivDiv(v, 8, 4, 0x100, 0x10, 0x1000);
    var a := v / 0x10;
    var b := a / 0x10;
    assert v == a * 0x10 + v % 0x10 && a == b * 0x10 + a % 0x10 && b == b / 0x10 * 0x10 + b % 0x10;
  }

  /** Two masked halves are a word written under its byte enables. */
  lemma HalvesMerge(lo: nat, hi: nat, data: Word, sel: Lanes)
    requires lo < 0x1_0000 && hi < 0x1_0000
    ensures lo + 0x1_0000 * hi < WORD_LIMIT
    ensures MaskedWrite(lo, data % 0x1_0000, Mask(sel.b0, sel.b0, sel.b1, sel.b1))
          + 0x1_0000 * MaskedWrite(hi, data / 0x1_0000, Mask(sel.b2, sel.b2, sel.b3, sel.b3))
         == Merge(lo + 0x1_0000 * hi, data, sel)
  {
    hide ByteOf, MaskedWrite;
    var dlo, dhi := data % 0x1_0000, data / 0x1_0000;
    HalfBytes(lo, hi);
    HalfBytes(dlo, dhi);
    MaskedBytes(lo, dlo, sel.b0, sel.b1);
    MaskedBytes(hi, dhi, sel.b2, sel.b3);
  }

  lemma MaskedOk(old_: nat, new_: nat, mask: Mask)
    ensures MaskedWrite(old_, new_, mask) < 0x1_0000
  {}

  lemma HalfEdgeOk(h: Half, address: nat, datain: nat, mask: Mask, wren: bool, junk: nat)
    requires HalfOk(h) && address < WORDS
    ensures HalfOk(HalfEdge(h, address, datain, mask, wren, junk))
  {
    hide MaskedWrite;
    MaskedOk(h.mem[address], datain, mask);
  }

  lemma EdgeOk(s: Slave, bus: Bus, junk: nat -> nat)
    requires SlaveOk(s)
    ensures SlaveOk(Edge(s, bus, junk))
  {
    hide HalfEdge, DataIn, MaskOf, Selected, HalfOk, Pow2;
    var t := Edge(s, bus, junk);
    forall i | 0 <= i < |t.halves| ensures HalfOk(t.halves[i]) {
      assert HalfOk(s.halves[i]);
      HalfEdgeOk(s.halves[i], bus.adr % WORDS, DataIn(bus, i % 2), MaskOf(bus, i % 2),
                 Selected(s.bits, bus, i) && bus.we && Active(bus), junk(i));
    }
  }

  lemma Pair(b: nat)
    ensures 2 * b / 2 == b && (2 * b + 1) / 2 == b && 2 * b % 2 == 0 && (2 * b + 1) % 2 == 1
  {}

  /** One halfword across an edge. */
  lemma HalfwordEdge(s: Slave, bus: Bus, junk: nat -> nat, k: nat, i: nat)
    requires SlaveOk(s) && k < |s.halves| && i < WORDS
    ensures HalfOk(s.halves[k]) && SlaveOk(Edge(s, bus, junk)) && HalfOk(Edge(s, bus, junk).halves[k])
    ensures Edge(s, bus, junk).halves[k].mem[i]
         == if Active(bus) && bus.we && BankOf(s.bits, bus.adr) == k / 2 && bus.adr % WORDS == i
            then MaskedWrite(s.halves[k].mem[i], DataIn(bus, k % 2), MaskOf(bus, k % 2)) else s.halves[k].mem[i]
  {
    hide MaskedWrite, DataIn, MaskOf, BankOf, HalfEdge, HalfOk, Pow2;
    EdgeOk(s, bus, junk);
    assert HalfOk(s.halves[k]) && HalfOk(Edge(s, bus, junk).halves[k]);
    HalfEdgeAt(s.halves[k], bus.adr % WORDS, DataIn(bus, k % 2), MaskOf(bus, k % 2),
               Selected(s.bits, bus, k) && bus.we && Active(bus), junk(k), i);
  }

  lemma HalfEdgeAt(h: Half, address: nat, datain: nat, mask: Mask, wren: bool, junk: nat, i: nat)
    requires HalfOk(h) && address < WORDS && i < WORDS
    ensures var t := HalfEdge(h, address, datain, mask, wren, junk);
            && |t.mem| == WORDS
            && t.mem[i] == (if wren && address == i then MaskedWrite(h.mem[i], datain, mask) else h.mem[i])
            && (!wren ==> t.dataout == h.mem[address])
  {
    hide MaskedWrite;
  }

  /** An edge changes a word exactly when it is a write to its cell: to the word merged under the byte enables. */
  lemma EdgeWord(s: Slave, bus: Bus, junk: nat -> nat, adr: nat)
    requires SlaveOk(s)
    ensures SlaveOk(Edge(s, bus, junk)) && WordAt(s, adr) < WORD_LIMIT
    ensures WordAt(Edge(s, bus, junk), adr)
         == if Active(bus) && bus.we && CellAt(s.bits, bus.adr) == CellAt(s.bits, adr)
            then Merge(WordAt(s, adr), bus.dat_w, bus.sel) else WordAt(s, adr)
  {
    hide MaskedWrite, Merge, Edge, BankOf, HalfOk, Pow2, SlaveOk;
    EdgeOk(s, bus, junk);
    WordAtIsWord(s, adr);
    SlaveShape(s, adr);
    var b, i := BankOf(s.bits, adr), adr % WORDS;
    SameCell(BankOf(s.bits, bus.adr), bus.adr % WORDS, b, i);
    Pair(b);
    HalfwordEdge(s, bus, junk, 2 * b, i);
    HalfwordEdge(s, bus, junk, 2 * b + 1, i);
    EdgeKeepsBits(s, bus, junk);
    HalvesMerge(s.halves[2 * b].mem[i], s.halves[2 * b + 1].mem[i], bus.dat_w, bus.sel);
  }

  lemma EdgeKeepsBits(s: Slave, bus: Bus, junk: nat -> nat)
    requires SlaveOk(s)
    ensures Edge(s, bus, junk).bits == s.bits
  {}

  lemma SlaveShape(s: Slave, adr: nat)
    requires SlaveOk(s)
    ensures var b := BankOf(s.bits, adr);
            && 2 * b + 1 < |s.halves| && |s.halves[2 * b].mem| == WORDS && |s.halves[2 * b + 1].mem| == WORDS
            && s.halves[2 * b].mem[adr % WORDS] < 0x1_0000 && s.halves[2 * b + 1].mem[adr % WORDS] < 0x1_0000
  {
    hide BankOf;
    var b := BankOf(s.bits, adr);
    assert HalfOk(s.halves[2 * b]) && HalfOk(s.halves[2 * b + 1]);
  }

  lemma SameCell(b: nat, i: nat, b': nat, i': nat)
    requires i < WORDS && i' < WORDS
    ensures b * WORDS + i == b' * WORDS + i' <==> b == b' && i == i'
  {}

  /** When no write goes to the selected bank, the outputs become the addressed word. */
  lemma EdgeRead(s: Slave, bus: Bus, junk: nat -> nat)
    requires SlaveOk(s) && !(Active(bus) && bus.we)
    ensures SlaveOk(Edge(s, bus, junk)) && DatR(Edge(s, bus, junk), bus.adr) == WordAt(s, bus.adr)
  {
    hide BankOf, Pow2, HalfOk, SlaveOk, Edge;
    EdgeOk(s, bus, junk);
    EdgeKeepsBits(s, bus, junk);
    SlaveShape(s, bus.adr);
    SlaveShape(Edge(s, bus, junk), bus.adr);
    var b := BankOf(s.bits, bus.adr);
    OutputAfterEdge(s, bus, junk, 2 * b);
    OutputAfterEdge(s, bus, junk, 2 * b + 1);
  }

  lemma OutputAfterEdge(s: Slave, bus: Bus, junk: nat -> nat, k: nat)
    requires SlaveOk(s) && !(Active(bus) && bus.we) && k < |s.halves|
    ensures HalfOk(s.halves[k]) && Edge(s, bus, junk).halves[k].dataout == s.halves[k].mem[bus.adr % WORDS]
  {
    hide BankOf, Pow2, HalfEdge, HalfOk, DataIn, MaskOf;
    assert HalfOk(s.halves[k]);
    HalfEdgeAt(s.halves[k], bus.adr % WORDS, DataIn(bus, k % 2), MaskOf(bus, k % 2),
               Selected(s.bits, bus, k) && bus.we && Active(bus), junk(k), 0);
  }

  // ---- Wishbone classic cycles (section 3.2 of Wishbone B4) ----

  /** A cycle: the master holds the bus until the acknowledge, which comes after one edge, and samples the read data
      then; at the edge that ends the cycle the slave sees the same request again. */
  function Cycle(s: Slave, bus: Bus, junk: nat -> nat, junk': nat -> nat): (Slave, nat)
    requires SlaveOk(s)
  {
    EdgeOk(s, bus, junk);
    var acked := Edge(s, bus, junk);
    (Edge(acked, bus, junk'), DatR(acked, bus.adr))
  }

  lemma MergeTwice(w: Word, data: Word, sel: Lanes)
    ensures Merge(Merge(w, data, sel), data, sel) == Merge(w, data, sel)
  {
    hide Shr;
    MergedBytes(w, data, sel);
  }

  /** A read cycle is acknowledged, returns the word last written, and changes nothing. */
  lemma ReadCycle(s: Slave, bus: Bus, junk: nat -> nat, junk': nat -> nat)
    requires SlaveOk(s) && !s.ack && Active(bus) && !bus.we
    ensures var (t, data) := Cycle(s, bus, junk, junk');
            && SlaveOk(t) && !t.ack && t.bits == s.bits && Edge(s, bus, junk).ack
            && data == WordAt(s, bus.adr) && forall adr :: WordAt(t, adr) == WordAt(s, adr)
  {
    hide WordAt, DatR;
    EdgeRead(s, bus, junk);
    var acked := Edge(s, bus, junk);
    EdgeOk(acked, bus, junk');
    forall adr ensures WordAt(Edge(acked, bus, junk'), adr) == WordAt(s, adr) {
      EdgeWord(s, bus, junk, adr);
      EdgeWord(acked, bus, junk', adr);
    }
  }

  /** A write cycle is acknowledged and writes its bytes once: the repeat during the acknowledge does no harm. */
  lemma WriteCycle(s: Slave, bus: Bus, junk: nat -> nat, junk': nat -> nat)
    requires SlaveOk(s) && !s.ack && Active(bus) && bus.we
    ensures var (t, _) := Cycle(s, bus, junk, junk');
            && SlaveOk(t) && !t.ack && t.bits == s.bits && Edge(s, bus, junk).ack
            && forall adr :: WordAt(s, adr) < WORD_LIMIT && WordAt(t, adr)
                 == if CellAt(s.bits, bus.adr) == CellAt(s.bits, adr) then Merge(WordAt(s, adr), bus.dat_w, bus.sel)
                    else WordAt(s, adr)
  {
    hide WordAt, DatR, Merge, CellAt;
    var acked := Edge(s, bus, junk);
    EdgeOk(s, bus, junk);
    EdgeOk(acked, bus, junk');
    forall adr
      ensures WordAt(s, adr) < WORD_LIMIT && WordAt(Edge(acked, bus, junk'), adr)
           == if CellAt(s.bits, bus.adr) == CellAt(s.bits, adr) then Merge(WordAt(s, adr), bus.dat_w, bus.sel)
              else WordAt(s, adr)
    {
      EdgeWord(s, bus, junk, adr);
      EdgeWord(acked, bus, junk', adr);
      MergeTwice(WordAt(s, adr), bus.dat_w, bus.sel);
    }
  }

  /** One edge's inputs. */
  datatype Input = Input(bus: Bus, junk: nat -> nat)

  /** The edges between cycles. */
  function Idled(s: Slave, gap: seq<Input>): Slave
    requires SlaveOk(s)
    decreases |gap|
  {
    if gap == [] then s
    else EdgeOk(s, gap[0].bus, gap[0].junk); Idled(Edge(s, gap[0].bus, gap[0].junk), gap[1..])
  }

  ghost predicate IdleGap(gap: seq<Input>) { forall i | 0 <= i < |gap| :: !Active(gap[i].bus) }

  /** Between cycles the slave changes no word and does not acknowledge, whatever is on the other wires. */
  lemma {:induction false} IdleChangesNothing(s: Slave, gap: seq<Input>)
    requires SlaveOk(s) && !s.ack && IdleGap(gap)
    ensures var t := Idled(s, gap);
            SlaveOk(t) && !t.ack && t.bits == s.bits && forall adr :: WordAt(t, adr) == WordAt(s, adr)
    decreases |gap|
  {
    hide WordAt;
    if gap != [] {
      var next := Edge(s, gap[0].bus, gap[0].junk);
      EdgeOk(s, gap[0].bus, gap[0].junk);
      forall adr ensures WordAt(next, adr) == WordAt(s, adr) {
        EdgeWord(s, gap[0].bus, gap[0].junk, adr);
      }
      IdleChangesNothing(next, gap[1..]);
    }
  }

  // ---- the region ----

  /** The cell is the word address modulo the words there are. */
  lemma CellIsModulo(bits: nat, adr: nat)
    requires bits <= 1
    ensures CellAt(bits, adr) == adr % (WORDS * Pow2(bits))
  {
    var q := adr / WORDS;
    assert adr == q * WORDS + adr % WORDS;
    if bits == 0 {
      assert Pow2(0) == 1;
    } else {
      assert Pow2(1) == 2;
      Peel(q / 2, q % 2 * WORDS + adr % WORDS, 2 * WORDS);
    }
  }

  /** No two addresses of a region of the SPRAM's size share a cell, wherever it starts. */
  lemma RegionCellsDistinct(bits: nat, start: nat, i: nat, j: nat)
    requires bits <= 1 && i < WORDS * Pow2(bits) && j < WORDS * Pow2(bits)
    requires CellAt(bits, start + i) == CellAt(bits, start + j)
    ensures i == j
  {
    hide CellAt;
    hide Pow2;
    CellIsModulo(bits, start + i);
    CellIsModulo(bits, start + j);
    SameRemainder(start + i, start + j, WORDS * Pow2(bits));
  }

  /** Two numbers with one remainder, closer than the divisor, are one. */
  lemma SameRemainder(a: nat, b: nat, n: nat)
    requires n > 0 && a % n == b % n && -1 * n < a - b < n
    ensures a == b
  {
    var x := a / n - b / n;
    assert x * n == a - b by {
      assert a == a / n * n + a % n && b == b / n * n + b % n;
    }
    NoMultiple(x, n);
  }

  /** A multiple of n closer to 0 than n is 0. */
  lemma NoMultiple(x: int, n: nat)
    requires -1 * n < x * n < n
    ensures x == 0
  {
    if x != 0 {
      WholeMultiple(x, n);
    }
  }

  /** The cell of word k of a region. */
  function RegionCell(bits: nat, start: nat, k: nat): nat { CellAt(bits, start + k) }

  /** The offset's own bank and word are the ones chosen exactly when the region is aligned as check_aligned asks. */
  lemma BanksInOrderIff(bits: nat, start: nat)
    requires bits <= 1
    ensures (forall k: nat | k < WORDS * Pow2(bits) :: RegionCell(bits, start, k) == k)
       <==> Aligned(4 * start, BANK_BYTES * Pow2(bits))
  {
    hide CellAt;
    var n := WORDS * Pow2(bits);
    Quarters(start, n);
    if start % n == 0 {
      forall k: nat | k < n ensures RegionCell(bits, start, k) == k {
        CellIsModulo(bits, start + k);
        Peel(start / n, k, n);
      }
    } else {
      CellIsModulo(bits, start + 0);
      assert RegionCell(bits, start, 0) != 0;
    }
  }

  lemma Quarters(start: nat, n: nat)
    requires n > 0
    ensures 4 * start % (4 * n) == 0 <==> start % n == 0
  {
    Halves(4 * start, 2 * n);
    Halves(2 * start, n);
  }
}
