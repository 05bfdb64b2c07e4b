/** The SPRAM slave behind the firmware's device region: it refines a flat RAM, is a faultless memory, and so the
    firmware says PASS on it. */
module SpramSystem {
  import opened Bits
  import opened Machine
  import opened Console
  import opened Print
  import opened SpramProgram
  import opened SpramTest
  import opened SpramRun
  import opened MemoryFaults
  import opened Up5kSpram

  /** A slave as it was at first, and what each access of a run finds on its wires: the edges since the access before,
      and the primitives' outputs after writes. */
  datatype System = System(start: Slave, gaps: nat -> seq<Input>, junk: nat -> nat, junk': nat -> nat)

  ghost predicate SystemOk(y: System) {
    SlaveOk(y.start) && !y.start.ack && forall i :: IdleGap(y.gaps(i))
  }

  /** The Wishbone request of an access: byte addresses become word addresses. */
  function Request(access: Access): Bus {
    match access
    case Read(addr) => Bus(addr / 4, 0, ALL_LANES, false, true, true)
    case Write(addr, data, lanes) => Bus(addr / 4, data, lanes, true, true, true)
  }

  /** An access after its gap. */
  ghost function Served(y: System, s: Slave, i: nat, access: Access): (Slave, nat)
    requires SystemOk(y) && SlaveOk(s) && !s.ack
  {
    assert IdleGap(y.gaps(i));
    IdleChangesNothing(s, y.gaps(i));
    Cycle(Idled(s, y.gaps(i)), Request(access), y.junk, y.junk')
  }

  /** The slave after a run of accesses. */
  ghost function After(y: System, bus: seq<Access>): (s: Slave)
    requires SystemOk(y)
    ensures SlaveOk(s) && !s.ack && s.bits == y.start.bits
  {
    if bus == [] then y.start
    else
      var i := |bus| - 1;
      var before := After(y, bus[..i]);
      ServedOk(y, before, i, bus[i]);
      Served(y, before, i, bus[i]).0
  }

  lemma ServedOk(y: System, s: Slave, i: nat, access: Access)
    requires SystemOk(y) && SlaveOk(s) && !s.ack
    ensures var t := Served(y, s, i, access).0; SlaveOk(t) && !t.ack && t.bits == s.bits
  {
    hide WordAt, Cycle, Edge, Idled;
    assert IdleGap(y.gaps(i));
    IdleChangesNothing(s, y.gaps(i));
    var idled := Idled(s, y.gaps(i));
    match access
    case Read(_) => ReadCycle(idled, Request(access), y.junk, y.junk');
    case Write(_, _, _) => WriteCycle(idled, Request(access), y.junk, y.junk');
  }

  /** The slave as a memory of cells: the address modulo the SPRAM's size, no bit stuck and no mask broken. */
  ghost function AsCells(y: System): MemoryFaults.Cells
    requires SystemOk(y)
  {
    MemoryFaults.Cells(addr => CellAt(y.start.bits, addr / 4), (c, k) => Free, c => c / WORDS,
                       (chip, lanes: Lanes, k: nat) => LaneIn(lanes, k / 8), c => CellWord(y.start, c))
  }

  ghost function CellWord(s: Slave, c: nat): Word
    requires SlaveOk(s)
  {
    WordAtIsWord(s, c);
    WordAt(s, c)
  }

  lemma CellIdempotent(bits: nat, adr: nat)
    requires bits <= 1
    ensures var c := CellAt(bits, adr);
            BankOf(bits, c) == BankOf(bits, adr) && c % WORDS == adr % WORDS && CellAt(bits, c) == c
  {
    hide Pow2;
    var b := BankOf(bits, adr);
    Peel(b, adr % WORDS, WORDS);
    Peel(0, b, Pow2(bits));
  }

  lemma CellHoldsWord(s: Slave, adr: nat)
    requires SlaveOk(s)
    ensures WordAt(s, CellAt(s.bits, adr)) == WordAt(s, adr)
  {
    hide BankOf, CellAt, SlaveOk;
    SlaveShape(s, adr);
    assert s.bits <= 1 by { BitsOk(s); }
    CellIdempotent(s.bits, adr);
  }

  lemma BitsOk(s: Slave)
    requires SlaveOk(s)
    ensures s.bits <= 1
  {}

  /** Refinement: after any run each word of the slave is what a flat RAM with byte enables would hold. */
  lemma {:induction false} HoldsWhatWasWritten(y: System, bus: seq<Access>, adr: nat)
    requires SystemOk(y)
    ensures WordAt(After(y, bus), adr) == Held(AsCells(y), bus, CellAt(y.start.bits, adr))
    decreases |bus|
  {
    hide WordAt, Cycle, Edge, Idled, CellAt, Merge, MergeBits;
    if bus == [] {
      CellHoldsWord(y.start, adr);
    } else {
      var i := |bus| - 1;
      var before := After(y, bus[..i]);
      HoldsWhatWasWritten(y, bus[..i], adr);
      assert IdleGap(y.gaps(i));
      IdleChangesNothing(before, y.gaps(i));
      var idled := Idled(before, y.gaps(i));
      match bus[i]
      case Read(_) => ReadCycle(idled, Request(bus[i]), y.junk, y.junk');
      case Write(_, data, lanes) =>
        WriteCycle(idled, Request(bus[i]), y.junk, y.junk');
        WritesLanes(y, CellAt(y.start.bits, adr), WordAt(before, adr), data, lanes);
    }
  }

  lemma WritesLanes(y: System, c: nat, was: Word, data: Word, lanes: Lanes)
    requires SystemOk(y)
    ensures MergeBits(was, data, ReachedBy(AsCells(y), c, lanes)) == Merge(was, data, lanes)
  {
    hide MergeBits, Merge, SystemOk, CellWord;
    MergeLanes(was, data, lanes, ReachedBy(AsCells(y), c, lanes));
  }

  /** What a read returns after a run. */
  ghost function ReadData(y: System, bus: seq<Access>, addr: Word): nat
    requires SystemOk(y)
  {
    Served(y, After(y, bus), |bus|, Read(addr)).1
  }

  /** Each read returns the bytes last written to its word. */
  lemma ReadsLastWritten(y: System, bus: seq<Access>, addr: Word)
    requires SystemOk(y)
    ensures ReadData(y, bus, addr) == Held(AsCells(y), bus, CellAt(y.start.bits, addr / 4))
  {
    hide WordAt, Cycle, Edge, Idled, CellAt, Held, After;
    var s := After(y, bus);
    assert IdleGap(y.gaps(|bus|));
    IdleChangesNothing(s, y.gaps(|bus|));
    ReadCycle(Idled(s, y.gaps(|bus|)), Request(Read(addr)), y.junk, y.junk');
    HoldsWhatWasWritten(y, bus, addr / 4);
  }

  /** The slave is what answers the firmware's reads. */
  ghost predicate Wired(memory: Memory, y: System) {
    SystemOk(y) && forall bus, addr :: memory(bus, addr) == ReadData(y, bus, addr)
  }

  lemma SlaveBehaves(memory: Memory, y: System)
    requires Wired(memory, y)
    ensures Behaves(memory, AsCells(y))
  {
    hide Held, CellAt, SeenFrom, ReadData, SystemOk;
    var m := AsCells(y);
    forall bus, addr ensures memory(bus, addr) == ReadCell(m, bus, m.cellOf(addr)) {
      ReadsLastWritten(y, bus, addr);
      Pow2Values();
      NoneStuckReadsTrue(m, m.cellOf(addr), 0, Held(m, bus, m.cellOf(addr)));
    }
  }

  /** No two words of the region share a cell: the slave is faultless at any word-aligned origin. */
  lemma SlaveFaultless(y: System, base: nat)
    requires SystemOk(y) && base % 4 == 0 && base + BANK_SIZE * Pow2(y.start.bits) <= WORD_LIMIT
    ensures Faultless(AsCells(y), base, BANK_SIZE / 4 * Pow2(y.start.bits))
  {
    hide CellAt, Pow2, SystemOk;
    var m, bits, n := AsCells(y), y.start.bits, BANK_SIZE / 4 * Pow2(y.start.bits);
    assert bits <= 1 by { StartBits(y); }
    forall i, j | 0 <= i < n && 0 <= j < n && CellOfWord(m, base, i) == CellOfWord(m, base, j) ensures i == j {
      Peel(base / 4 + i, 0, 4); Peel(base / 4 + j, 0, 4);
      assert (base + 4 * i) / 4 == base / 4 + i && (base + 4 * j) / 4 == base / 4 + j;
      RegionCellsDistinct(bits, base / 4, i, j);
    }
  }

  lemma StartBits(y: System)
    requires SystemOk(y)
    ensures y.start.bits <= 1
  {}

  /** On the SPRAM slave the test passes, whatever it held, whatever accesses came before and whatever the wires did
      between them. */
  lemma TestPassesOnSlave(memory: Memory, y: System, bus: seq<Access>, base: nat)
    requires Wired(memory, y) && base % 4 == 0 && base + BANK_SIZE * Pow2(y.start.bits) <= WORD_LIMIT
    ensures TestMemory(memory, bus, base, Pow2(y.start.bits)).Passed?
  {
    hide Faultless, Behaves, TestMemory, ReadData;
    SlaveBehaves(memory, y);
    SlaveFaultless(y, base);
    StartBits(y);
    assert Pow2(y.start.bits) <= 2;
    TestPassesIff(memory, AsCells(y), bus, base, Pow2(y.start.bits));
    forall b | 0 <= b < Pow2(y.start.bits) ensures BankLanesWork(AsCells(y), base, b) {}
  }

  function Repeated(line: seq<nat>, k: nat): seq<nat> {
    if k == 0 then [] else Repeated(line, k - 1) + line
  }

  lemma {:induction false} TestsAllPass(memory: Memory, y: System, base: nat, k: nat)
    requires Wired(memory, y) && base % 4 == 0 && base + BANK_SIZE * Pow2(y.start.bits) <= WORD_LIMIT
    ensures Tests(memory, base, Pow2(y.start.bits), k).1 == Repeated(Printed("SPRAM_TEST: PASS\r\n"), k)
    decreases k
  {
    hide Wired, TestMemory, Printed, Pow2;
    if k > 0 {
      TestsAllPass(memory, y, base, k - 1);
      TestPassesOnSlave(memory, y, Tests(memory, base, Pow2(y.start.bits), k - 1).0, base);
    }
  }

  /** The firmware on the SPRAM slave says PASS for every byte it receives. */
  lemma FirmwareSaysPass(f: Firmware, a: Params, y: System, s: State, k: nat, u: nat) returns (t: State)
    requires Setup(f, a) && Fair(f.env) && AtReset(f, s) && f.env.arrived(u) >= k
    requires Wired(f.env.reply, y) && BankBits(a.size) == y.start.bits
    ensures |f.p| == SECTIONS && Reaches(f.env, s, t) && t.pc == At(f, WAIT, 0) && t.popped == k
    ensures t.sent == Greeting(a.ident) + Repeated(Printed("SPRAM_TEST: PASS\r\n"), k)
  {
    hide Wired, Loaded, Source, Printed, Greeting, Tests, Repeated;
    RegionFits(f, a);
    LoadedIsSound(f);
    assert Pow2(y.start.bits) == BanksOf(a) by { BanksArePowers(a, y.start.bits); }
    t := FirmwareAnswersEveryByte(f, a, s, k, u);
    TestsAllPass(f.env.reply, y, f.env.device, k);
  }

  lemma BanksArePowers(a: Params, bits: nat)
    requires SizeOk(a.size) && BankBits(a.size) == bits
    ensures Pow2(bits) == BanksOf(a)
  {
    assert Pow2(0) == 1 && Pow2(1) == 2;
  }
}
