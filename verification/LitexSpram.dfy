/** LiteX's own Up5kSPRAM, whose bank select compares one address bit too many, behind the firmware's device region:
    where the next bit up is 0 it is the same memory; where it is 1 nothing is written, every read is 0, and the test
    says so. */
module LitexSpram {
  import opened Bits
  import opened Machine
  import opened Console
  import opened Print
  import opened SpramProgram
  import opened SpramPattern
  import opened SpramTest
  import opened SpramScript
  import opened SpramRun
  import opened MemoryFaults
  import opened Up5kSpram
  import opened SpramSystem

  // ---- LiteX's own bank select ----

  /** LiteX's Up5kSPRAM compares one address bit too many. */
  predicate LitexSelected(bits: nat, adr: nat, bank: nat) { adr / WORDS % Pow2(bits + 1) == bank }

  ghost predicate LitexAnswers(bits: nat, adr: nat) {
    exists bank: nat :: bank < Pow2(bits) && LitexSelected(bits, adr, bank)
  }

  /** Some bank answers word k of a region. */
  ghost predicate LitexServes(bits: nat, start: nat, k: nat) { LitexAnswers(bits, start + k) }

  /** In an aligned region some bank answers every word exactly when the next address bit up is 0; when it is 1, none
      answers any. */
  lemma LitexSelectsIff(bits: nat, start: nat)
    requires bits <= 1 && start % (WORDS * Pow2(bits)) == 0
    ensures (forall k: nat | k < WORDS * Pow2(bits) :: LitexServes(bits, start, k))
       <==> start / (WORDS * Pow2(bits)) % 2 == 0
    ensures start / (WORDS * Pow2(bits)) % 2 == 1 ==>
              forall k: nat | k < WORDS * Pow2(bits) :: !LitexServes(bits, start, k)
  {
    hide LitexServes, LitexSelected, Pow2;
    var n := WORDS * Pow2(bits);
    forall k: nat | k < n ensures LitexServes(bits, start, k) <==> start / n % 2 == 0 {
      LitexWord(bits, start, k);
    }
    assert LitexServes(bits, start, 0) <==> start / n % 2 == 0;
  }

  lemma LitexWord(bits: nat, start: nat, k: nat)
    requires bits <= 1 && start % (WORDS * Pow2(bits)) == 0 && k < WORDS * Pow2(bits)
    ensures LitexServes(bits, start, k) <==> start / (WORDS * Pow2(bits)) % 2 == 0
  {
    hide LitexSelected;
    var p := Pow2(bits);
    assert p == 1 || p == 2;
    var r, q := start / (WORDS * p), k / WORDS;
    BankDigits(bits, start, k);
    var chosen := r % 2 * p + q;
    var adr := start + k;
    OnlyChosen(bits, adr, chosen);
    assert LitexSelected(bits, adr, chosen);
    assert r % 2 == 0 ==> chosen == q < p;
    assert r % 2 == 1 ==> chosen >= p;
  }

  lemma OnlyChosen(bits: nat, adr: nat, chosen: nat)
    requires adr / WORDS % Pow2(bits + 1) == chosen
    ensures forall bank: nat :: LitexSelected(bits, adr, bank) <==> bank == chosen
  {}

  /** The digits of a word address above the primitive's 14 bits. */
  lemma BankDigits(bits: nat, start: nat, k: nat)
    requires bits <= 1 && start % (WORDS * Pow2(bits)) == 0 && k < WORDS * Pow2(bits)
    ensures k / WORDS < Pow2(bits)
    ensures (start + k) / WORDS % Pow2(bits + 1) == start / (WORDS * Pow2(bits)) % 2 * Pow2(bits) + k / WORDS
  {
    var p := Pow2(bits);
    assert Pow2(bits + 1) == 2 * p;
    if bits == 0 {
      assert p == 1;
      BankDigitsOf(start, k, 1);
    } else {
      assert p == 2;
      BankDigitsOf(start, k, 2);
    }
  }

  lemma BankDigitsOf(start: nat, k: nat, p: nat)
    requires (p == 1 || p == 2) && start % (WORDS * p) == 0 && k < WORDS * p
    ensures k / WORDS < p && (start + k) / WORDS % (2 * p) == start / (WORDS * p) % 2 * p + k / WORDS
  {
    var r, q := start / (WORDS * p), k / WORDS;
    Peel(r * p + q, k % WORDS, WORDS);
    Peel(r / 2, r % 2 * p + q, 2 * p);
  }

  /** Where nothing answers every read is 0, and the test stops at the second word. */
  lemma ZeroMemoryFails(memory: Memory, bus: seq<Access>, base: nat, banks: nat)
    requires banks > 0 && base + BANK_SIZE * banks <= WORD_LIMIT
    requires forall h, addr | base <= addr < base + BANK_SIZE * banks :: memory(h, addr) == 0
    ensures var o := TestMemory(memory, bus, base, banks);
            o.Failed? && o.at == base + 4 && o.read == 0 && o.expected == 0x4000_8001
  {
    hide Written, Pattern;
    var n := BANK_SIZE / 4 * banks;
    PatternDigits(0);
    PatternDigits(1);
    var written := Written(bus, base, 0, n, false);
    assert Compare(memory, written, base, Pattern(4 * 0, false)).Passed?;
    var next := written + [Read(base)];
    assert Compare(memory, next, base + 4, Pattern(4 * 1, false)).Failed?;
    assert ReadBack(memory, written, base, 0, n, false) == ReadBack(memory, next, base, 1, n, false);
  }

  predicate NoNul(x: string) { forall i | 0 <= i < |x| :: x[i] as int != 0 }

  lemma {:induction false} PrintedJoins(x: string, y: string)
    requires NoNul(x)
    ensures Printed(x + y) == Printed(x) + Printed(y) && (NoNul(y) ==> NoNul(x + y))
  {
    if x == [] {
      assert x + y == y;
    } else {
      assert (x + y)[1..] == x[1..] + y;
      PrintedJoins(x[1..], y);
    }
  }

  lemma QuotedTexts()
    ensures NoNul("SPRAM_TEST: FAIL at 0x") && NoNul("00020004") && NoNul(" read 0x") && NoNul("00000000")
    ensures NoNul(" expected 0x") && NoNul("40008001")
  {}

  lemma QuotedAddress()
    ensures Hex(0x2_0004, 8) == Printed("00020004")
  {
    assert Hex(0x2_0004, 8) == [0x30, 0x30, 0x30, 0x32, 0x30, 0x30, 0x30, 0x34];
    PrintedWhole("00020004");
  }

  lemma QuotedRead()
    ensures Hex(0, 8) == Printed("00000000")
  {
    assert Hex(0, 8) == [0x30, 0x30, 0x30, 0x30, 0x30, 0x30, 0x30, 0x30];
    PrintedWhole("00000000");
  }

  lemma QuotedExpected()
    ensures Hex(0x4000_8001, 8) == Printed("40008001")
  {
    assert Hex(0x4000, 4) == [0x34, 0x30, 0x30, 0x30];
    assert Hex(0x4000_8001, 8) == [0x34, 0x30, 0x30, 0x30, 0x38, 0x30, 0x30, 0x31];
    PrintedWhole("40008001");
  }

  lemma PrintedParts(a: string, b: string, c: string, d: string, e: string, g: string, h: string)
    requires NoNul(a) && NoNul(b) && NoNul(c) && NoNul(d) && NoNul(e) && NoNul(g)
    ensures Printed(a + b + c + d + e + g + h)
         == Printed(a) + Printed(b) + Printed(c) + Printed(d) + Printed(e) + Printed(g) + Printed(h)
  {
    hide Printed, NoNul;
    PrintedJoins(a, b); PrintedJoins(a + b, c); PrintedJoins(a + b + c, d); PrintedJoins(a + b + c + d, e);
    PrintedJoins(a + b + c + d + e, g); PrintedJoins(a + b + c + d + e + g, h);
  }

  // ---- the slave with that select ----

  function LitexHalf(s: Slave, bus: Bus, i: nat, junk: nat): Half
    requires SlaveOk(s) && i < |s.halves|
  {
    HalfEdge(s.halves[i], bus.adr % WORDS, DataIn(bus, i % 2), MaskOf(bus, i % 2),
             LitexSelected(s.bits, bus.adr, i / 2) && bus.we && Active(bus), junk)
  }

  function LitexEdge(s: Slave, bus: Bus, junk: nat -> nat): Slave
    requires SlaveOk(s)
  {
    Slave(s.bits, seq(|s.halves|, i requires 0 <= i < |s.halves| => LitexHalf(s, bus, i, junk(i))),
          Active(bus) && !s.ack)
  }

  /** The selected bank's two outputs, or 0. */
  function LitexDatR(s: Slave, adr: nat): nat
    requires SlaveOk(s)
  {
    var b := adr / WORDS % Pow2(s.bits + 1);
    if b < Pow2(s.bits) then s.halves[2 * b].dataout + 0x1_0000 * s.halves[2 * b + 1].dataout else 0
  }

  lemma AnswersIff(bits: nat, adr: nat)
    ensures LitexAnswers(bits, adr) <==> adr / WORDS % Pow2(bits + 1) < Pow2(bits)
  {
    var chosen := adr / WORDS % Pow2(bits + 1);
    OnlyChosen(bits, adr, chosen);
    assert LitexSelected(bits, adr, chosen);
  }

  /** A bank it selects is the one chosen by the bits below. */
  lemma SelectsRight(bits: nat, adr: nat)
    requires bits <= 1 && LitexAnswers(bits, adr)
    ensures adr / WORDS % Pow2(bits + 1) == BankOf(bits, adr)
  {
    AnswersIff(bits, adr);
    var a := adr / WORDS;
    assert Pow2(0) == 1 && Pow2(1) == 2 && Pow2(2) == 4;
  }

  /** What an edge sees: the request as it is if a bank answers, one that writes nothing if none does. */
  ghost function Seen(bits: nat, bus: Bus): Bus { if LitexAnswers(bits, bus.adr) then bus else bus.(we := false) }

  lemma EdgeSeen(s: Slave, bus: Bus, junk: nat -> nat)
    requires SlaveOk(s)
    ensures LitexEdge(s, bus, junk) == Edge(s, Seen(s.bits, bus), junk)
  {
    hide HalfEdge, DataIn, MaskOf, Pow2, LitexAnswers;
    BitsOk(s);
    var seen := Seen(s.bits, bus);
    forall i | 0 <= i < |s.halves| ensures LitexHalf(s, bus, i, junk(i)) == NextHalf(s, seen, i, junk(i)) {
      AnswersIff(s.bits, bus.adr);
      HalvesOfBanks(s);
      if LitexAnswers(s.bits, bus.adr) {
        SelectsRight(s.bits, bus.adr);
      } else {
        SameDataIn(bus, i % 2);
      }
    }
  }

  lemma HalvesOfBanks(s: Slave)
    requires SlaveOk(s)
    ensures forall i: nat | i < |s.halves| :: i / 2 < Pow2(s.bits)
  {}

  lemma SameDataIn(bus: Bus, half: nat)
    ensures DataIn(bus.(we := false), half) == DataIn(bus, half) && MaskOf(bus.(we := false), half) == MaskOf(bus, half)
  {}

  function LitexIdled(s: Slave, gap: seq<Input>): Slave
    requires SlaveOk(s)
    decreases |gap|
  {
    if gap == [] then s
    else
      EdgeSeen(s, gap[0].bus, gap[0].junk);
      EdgeOk(s, Seen(s.bits, gap[0].bus), gap[0].junk);
      LitexIdled(LitexEdge(s, gap[0].bus, gap[0].junk), gap[1..])
  }

  function LitexCycle(s: Slave, bus: Bus, junk: nat -> nat, junk': nat -> nat): (Slave, nat)
    requires SlaveOk(s)
  {
    EdgeSeen(s, bus, junk);
    EdgeOk(s, Seen(s.bits, bus), junk);
    var acked := LitexEdge(s, bus, junk);
    (LitexEdge(acked, bus, junk'), LitexDatR(acked, bus.adr))
  }

  /** Between cycles nothing is written anyway. */
  lemma {:induction false} IdledSame(s: Slave, gap: seq<Input>)
    requires SlaveOk(s) && IdleGap(gap)
    ensures LitexIdled(s, gap) == Idled(s, gap)
    decreases |gap|
  {
    hide Edge, LitexEdge;
    if gap != [] {
      var i := gap[0];
      assert !Active(i.bus);
      EdgeSeen(s, i.bus, i.junk);
      IdleEdge(s, i.bus, i.junk);
      EdgeOk(s, i.bus, i.junk);
      assert forall k | 0 <= k < |gap[1..]| :: gap[1..][k] == gap[k + 1];
      IdledSame(Edge(s, i.bus, i.junk), gap[1..]);
    }
  }

  lemma IdleEdge(s: Slave, bus: Bus, junk: nat -> nat)
    requires SlaveOk(s) && !Active(bus)
    ensures Edge(s, bus.(we := false), junk) == Edge(s, bus, junk)
  {
    forall i | 0 <= i < |s.halves| ensures NextHalf(s, bus.(we := false), i, junk(i)) == NextHalf(s, bus, i, junk(i)) {}
  }

  /** A cycle some bank answers is a cycle of the other slave; one none answers writes nothing and reads 0. */
  lemma CycleSeen(s: Slave, bus: Bus, junk: nat -> nat, junk': nat -> nat)
    requires SlaveOk(s)
    ensures LitexAnswers(s.bits, bus.adr) ==> LitexCycle(s, bus, junk, junk') == Cycle(s, bus, junk, junk')
    ensures !LitexAnswers(s.bits, bus.adr) ==>
              && LitexCycle(s, bus, junk, junk').0 == Cycle(s, bus.(we := false), junk, junk').0
              && LitexCycle(s, bus, junk, junk').1 == 0
  {
    hide Edge, LitexEdge, LitexAnswers, Pow2;
    EdgeSeen(s, bus, junk);
    EdgeOk(s, Seen(s.bits, bus), junk);
    EdgeBits(s, Seen(s.bits, bus), junk);
    EdgeSeen(LitexEdge(s, bus, junk), bus, junk');
    AnswersIff(s.bits, bus.adr);
    if LitexAnswers(s.bits, bus.adr) {
      BitsOk(s);
      SelectsRight(s.bits, bus.adr);
    }
  }

  lemma EdgeBits(s: Slave, bus: Bus, junk: nat -> nat)
    requires SlaveOk(s)
    ensures Edge(s, bus, junk).bits == s.bits
  {}

  // ---- on the wires ----

  /** A slave with that select, after a run of accesses with gaps between. */
  ghost function LitexAfter(y: System, bus: seq<Access>): (s: Slave)
    requires SystemOk(y)
    ensures SlaveOk(s) && !s.ack && s.bits == y.start.bits
  {
    if bus == [] then y.start
    else
      var before := LitexAfter(y, bus[..|bus| - 1]);
      LitexServedOk(y, before, |bus| - 1, bus[|bus| - 1]);
      LitexServed(y, before, |bus| - 1, bus[|bus| - 1]).0
  }

  ghost function LitexServed(y: System, s: Slave, i: nat, access: Access): (Slave, nat)
    requires SystemOk(y) && SlaveOk(s) && !s.ack
  {
    assert IdleGap(y.gaps(i));
    IdledSame(s, y.gaps(i));
    IdleChangesNothing(s, y.gaps(i));
    LitexCycle(LitexIdled(s, y.gaps(i)), Request(access), y.junk, y.junk')
  }

  lemma LitexServedOk(y: System, s: Slave, i: nat, access: Access)
    requires SystemOk(y) && SlaveOk(s) && !s.ack
    ensures var (t, data) := LitexServed(y, s, i, access);
            && SlaveOk(t) && !t.ack && t.bits == s.bits
            && (LitexAnswers(s.bits, access.addr / 4) ==> LitexServed(y, s, i, access) == Served(y, s, i, access))
            && (!LitexAnswers(s.bits, access.addr / 4) ==> data == 0 && forall adr :: WordAt(t, adr) == WordAt(s, adr))
  {
    hide WordAt, Cycle, LitexCycle, Edge, Idled, LitexIdled, LitexAnswers;
    assert IdleGap(y.gaps(i));
    IdledSame(s, y.gaps(i));
    IdleChangesNothing(s, y.gaps(i));
    var idled := Idled(s, y.gaps(i));
    var request := Request(access);
    assert request.adr == access.addr / 4 && Active(request);
    CycleSeen(idled, request, y.junk, y.junk');
    if LitexAnswers(s.bits, access.addr / 4) {
      ServedOk(y, s, i, access);
    } else {
      ReadCycle(idled, request.(we := false), y.junk, y.junk');
    }
  }

  ghost function LitexReadData(y: System, bus: seq<Access>, addr: Word): nat
    requires SystemOk(y)
  {
    LitexServed(y, LitexAfter(y, bus), |bus|, Read(addr)).1
  }

  /** That slave is what answers the firmware's reads. */
  ghost predicate LitexWired(memory: Memory, y: System) {
    SystemOk(y) && forall bus, addr :: memory(bus, addr) == LitexReadData(y, bus, addr)
  }

  predicate InRegion(bus: seq<Access>, base: nat, size: nat) {
    forall i | 0 <= i < |bus| :: base <= bus[i].addr < base + size
  }

  /** Whether the address bit just above a region is set. */
  predicate NextBitSet(base: nat, size: nat)
    requires size > 0
  {
    base / size % 2 == 1
  }

  /** The number of bytes of a slave. */
  function SizeOf(bits: nat): (n: nat)
    ensures n > 0
  {
    Pow2Positive(bits);
    BANK_SIZE * Pow2(bits)
  }

  /** In an aligned region the next bit decides every word. */
  lemma RegionAnswers(bits: nat, base: nat, addr: nat)
    requires bits <= 1 && base % SizeOf(bits) == 0 && base <= addr < base + SizeOf(bits)
    ensures LitexAnswers(bits, addr / 4) <==> !NextBitSet(base, SizeOf(bits))
  {
    hide LitexAnswers, LitexSelected, Pow2;
    assert Pow2(bits) == 1 || Pow2(bits) == 2 by { SmallPowers(bits); }
    var start, k := base / 4, addr / 4 - base / 4;
    assert base % 4 == 0 && start % (WORDS * Pow2(bits)) == 0 && k < WORDS * Pow2(bits);
    assert start / (WORDS * Pow2(bits)) == base / SizeOf(bits);
    LitexWord(bits, start, k);
    assert addr / 4 == start + k;
  }

  lemma SmallPowers(bits: nat)
    requires bits <= 1
    ensures Pow2(bits) == 1 || Pow2(bits) == 2
  {}

  /** Where the next bit is 0 the two slaves are one. */
  lemma {:induction false} SameAfter(y: System, bus: seq<Access>, base: nat)
    requires SystemOk(y) && base % SizeOf(y.start.bits) == 0 && InRegion(bus, base, SizeOf(y.start.bits))
    requires !NextBitSet(base, SizeOf(y.start.bits))
    ensures LitexAfter(y, bus) == After(y, bus)
    decreases |bus|
  {
    hide Served, LitexServed, LitexAnswers, SizeOf;
    if bus != [] {
      var i := |bus| - 1;
      SameAfter(y, bus[..i], base);
      StartBits(y);
      RegionAnswers(y.start.bits, base, bus[i].addr);
      LitexServedOk(y, After(y, bus[..i]), i, bus[i]);
    }
  }

  /** What a read of the region returns. */
  lemma RegionReads(memory: Memory, y: System, bus: seq<Access>, addr: Word, base: nat)
    requires LitexWired(memory, y) && base % SizeOf(y.start.bits) == 0 && base <= addr < base + SizeOf(y.start.bits)
    ensures NextBitSet(base, SizeOf(y.start.bits)) ==> memory(bus, addr) == 0
    ensures !NextBitSet(base, SizeOf(y.start.bits)) && InRegion(bus, base, SizeOf(y.start.bits)) ==>
              memory(bus, addr) == ReadData(y, bus, addr)
  {
    hide Served, LitexServed, LitexAnswers, SizeOf, LitexAfter, After;
    StartBits(y);
    RegionAnswers(y.start.bits, base, addr);
    LitexServedOk(y, LitexAfter(y, bus), |bus|, Read(addr));
    if !NextBitSet(base, SizeOf(y.start.bits)) && InRegion(bus, base, SizeOf(y.start.bits)) {
      SameAfter(y, bus, base);
    }
  }

  // ---- the test, and the firmware ----

  predicate ItemsIn(items: seq<Item>, base: nat, size: nat) {
    forall k | 0 <= k < |items| :: base <= AccessOf(items[k]).addr < base + size
  }

  lemma ItemsJoin(a: seq<Item>, b: seq<Item>, base: nat, size: nat)
    requires ItemsIn(a, base, size) && ItemsIn(b, base, size)
    ensures ItemsIn(a + b, base, size)
  {
    hide AccessOf;
  }

  lemma PassIn(base: nat, banks: nat, inverted: bool)
    requires base + BANK_SIZE * banks <= WORD_LIMIT
    ensures ItemsIn(Writes(base, BANK_SIZE / 4 * banks, inverted), base, BANK_SIZE * banks)
    ensures ItemsIn(Checks(base, BANK_SIZE / 4 * banks, inverted), base, BANK_SIZE * banks)
  {
    hide PatternWord;
  }

  lemma LanesIn(addr: Word, lane: nat, base: nat, size: nat)
    requires lane < 4 && base <= addr < base + size
    ensures ItemsIn(LaneItems(addr, lane), base, size)
  {
    hide LaneExpected;
  }

  lemma BankIn(addr: Word, base: nat, size: nat)
    requires base <= addr < base + size
    ensures ItemsIn(BankItems(addr), base, size)
  {
    hide LaneItems, ItemsIn;
    LanesIn(addr, 0, base, size); LanesIn(addr, 1, base, size);
    LanesIn(addr, 2, base, size); LanesIn(addr, 3, base, size);
    ItemsJoin(LaneItems(addr, 0), LaneItems(addr, 1), base, size);
    ItemsJoin(LaneItems(addr, 0) + LaneItems(addr, 1), LaneItems(addr, 2), base, size);
    ItemsJoin(LaneItems(addr, 0) + LaneItems(addr, 1) + LaneItems(addr, 2), LaneItems(addr, 3), base, size);
  }

  lemma {:induction false} BanksIn(base: nat, b: nat, banks: nat)
    requires b <= banks && base + BANK_SIZE * banks <= WORD_LIMIT
    ensures ItemsIn(BanksItems(base, b, banks), base, BANK_SIZE * banks)
    decreases banks - b
  {
    hide BankItems;
    if b < banks {
      BankIn(base + BANK_SIZE * b, base, BANK_SIZE * banks);
      BanksIn(base, b + 1, banks);
      ItemsJoin(BankItems(base + BANK_SIZE * b), BanksItems(base, b + 1, banks), base, BANK_SIZE * banks);
    }
  }

  /** The test keeps to its region. */
  lemma ScriptIn(base: nat, banks: nat)
    requires base + BANK_SIZE * banks <= WORD_LIMIT
    ensures ItemsIn(Script(base, banks), base, BANK_SIZE * banks)
  {
    hide Writes, Checks, BanksItems, ItemsIn;
    var n, size := BANK_SIZE / 4 * banks, BANK_SIZE * banks;
    PassIn(base, banks, false);
    PassIn(base, banks, true);
    BanksIn(base, 0, banks);
    ItemsJoin(Writes(base, n, false), Checks(base, n, false), base, size);
    ItemsJoin(Writes(base, n, false) + Checks(base, n, false), Writes(base, n, true), base, size);
    ItemsJoin(Writes(base, n, false) + Checks(base, n, false) + Writes(base, n, true), Checks(base, n, true), base,
              size);
    ItemsJoin(Writes(base, n, false) + Checks(base, n, false) + Writes(base, n, true) + Checks(base, n, true),
              BanksItems(base, 0, banks), base, size);
  }

  lemma PrefixIn(bus: seq<Access>, items: seq<Item>, k: nat, base: nat, size: nat)
    requires InRegion(bus, base, size) && ItemsIn(items, base, size) && k <= |items|
    ensures InRegion(bus + Accesses(items[..k]), base, size)
  {
    hide AccessOf;
  }

  ghost function SlaveMemory(y: System): Memory
    requires SystemOk(y)
  {
    (bus: seq<Access>, addr: Word) => ReadData(y, bus, addr) % WORD_LIMIT
  }

  lemma SlaveAnswers(y: System)
    requires SystemOk(y)
    ensures Wired(SlaveMemory(y), y)
  {
    hide ReadData, SystemOk, Held, CellAt;
    forall bus, addr: Word ensures SlaveMemory(y)(bus, addr) == ReadData(y, bus, addr) {
      ReadsLastWritten(y, bus, addr);
      assert Held(AsCells(y), bus, CellAt(y.start.bits, addr / 4)) < WORD_LIMIT;
    }
  }

  /** Memories that answer alike in the region differ from what is expected alike. */
  lemma DifferAlike(memory: Memory, y: System, bus: seq<Access>, items: seq<Item>, k: nat, base: nat)
    requires LitexWired(memory, y) && base % SizeOf(y.start.bits) == 0 && !NextBitSet(base, SizeOf(y.start.bits))
    requires InRegion(bus, base, SizeOf(y.start.bits)) && ItemsIn(items, base, SizeOf(y.start.bits)) && k < |items|
    ensures Differs(memory, bus, items, k) <==> Differs(SlaveMemory(y), bus, items, k)
  {
    hide SizeOf, NextBitSet, ReadData, LitexReadData, InRegion, SystemOk, Accesses;
    SlaveAnswers(y);
    if items[k].Check? {
      var before, addr := bus + Accesses(items[..k]), items[k].addr;
      PrefixIn(bus, items, k, base, SizeOf(y.start.bits));
      assert AccessOf(items[k]).addr == addr;
      RegionReads(memory, y, before, addr, base);
      assert SlaveMemory(y)(before, addr) == ReadData(y, before, addr);
    }
  }

  lemma StopDiffers(memory: Memory, bus: seq<Access>, items: seq<Item>, k: nat, o: Outcome)
    requires k < |items| && StopsAt(memory, bus, items, k, o)
    ensures Differs(memory, bus, items, k) && o.bus == bus + Accesses(items[..k + 1])
  {}

  lemma StopIn(memory: Memory, bus: seq<Access>, items: seq<Item>, o: Outcome, base: nat, size: nat)
    requires FirstDifference(memory, bus, items, o) && InRegion(bus, base, size) && ItemsIn(items, base, size)
    ensures InRegion(o.bus, base, size)
  {
    hide StopsAt, Differs, Accesses, ItemsIn, InRegion;
    if o.Failed? {
      var k :| 0 <= k < |items| && StopsAt(memory, bus, items, k, o);
      StopDiffers(memory, bus, items, k, o);
      PrefixIn(bus, items, k + 1, base, size);
    } else {
      assert items[..|items|] == items;
      PrefixIn(bus, items, |items|, base, size);
    }
  }

  /** The other slave passes, so nothing of the script differs on it. */
  lemma SlavePasses(y: System, bus: seq<Access>, base: nat)
    requires SystemOk(y) && base % 4 == 0 && base + BANK_SIZE * Pow2(y.start.bits) <= WORD_LIMIT
    ensures var items := Script(base, Pow2(y.start.bits));
            forall k | 0 <= k < |items| :: !Differs(SlaveMemory(y), bus, items, k)
  {
    hide TestMemory, Pow2, Script, ReadData, SystemOk, Differs;
    SlaveAnswers(y);
    TestPassesOnSlave(SlaveMemory(y), y, bus, base);
    TestStopsAtFirstDifference(SlaveMemory(y), bus, base, Pow2(y.start.bits));
  }

  lemma SameBitPasses(memory: Memory, y: System, bus: seq<Access>, base: nat)
    requires LitexWired(memory, y) && base % SizeOf(y.start.bits) == 0 && base + SizeOf(y.start.bits) <= WORD_LIMIT
    requires InRegion(bus, base, SizeOf(y.start.bits)) && !NextBitSet(base, SizeOf(y.start.bits))
    ensures TestMemory(memory, bus, base, Pow2(y.start.bits)).Passed?
  {
    hide LitexReadData, TestMemory, Pow2, Script, SystemOk, StopsAt, Differs, ItemsIn, NextBitSet, InRegion;
    var banks := Pow2(y.start.bits);
    var items, o := Script(base, banks), TestMemory(memory, bus, base, banks);
    ScriptIn(base, banks);
    TestStopsAtFirstDifference(memory, bus, base, banks);
    assert base % 4 == 0 by { WholeWords(y.start.bits, base); }
    SlavePasses(y, bus, base);
    if o.Failed? {
      var k :| 0 <= k < |items| && StopsAt(memory, bus, items, k, o);
      StopDiffers(memory, bus, items, k, o);
      DifferAlike(memory, y, bus, items, k, base);
      assert false;
    }
  }

  lemma WholeWords(bits: nat, base: nat)
    requires base % SizeOf(bits) == 0
    ensures base % 4 == 0
  {
    hide Pow2;
    var k := base / SizeOf(bits);
    assert base == k * (BANK_SIZE * Pow2(bits)) == 4 * (k * (BANK_SIZE / 4 * Pow2(bits)));
  }

  lemma OtherBitFails(memory: Memory, y: System, bus: seq<Access>, base: nat)
    requires LitexWired(memory, y) && base % SizeOf(y.start.bits) == 0 && base + SizeOf(y.start.bits) <= WORD_LIMIT
    requires NextBitSet(base, SizeOf(y.start.bits))
    ensures var o := TestMemory(memory, bus, base, Pow2(y.start.bits));
            o.Failed? && o.at == base + 4 && o.read == 0 && o.expected == 0x4000_8001
  {
    hide LitexWired, TestMemory, Pow2, NextBitSet;
    var banks := Pow2(y.start.bits);
    Pow2Positive(y.start.bits);
    forall h, addr | base <= addr < base + BANK_SIZE * banks ensures memory(h, addr) == 0 {
      RegionReads(memory, y, h, addr, base);
    }
    ZeroMemoryFails(memory, bus, base, banks);
  }

  /** On a slave with LiteX's select, at an aligned region, the test passes exactly when the address bit just above the
      region is 0; when it is 1 it stops at the second word, which reads 0. */
  lemma LitexTest(memory: Memory, y: System, bus: seq<Access>, base: nat)
    requires LitexWired(memory, y) && base % SizeOf(y.start.bits) == 0 && base + SizeOf(y.start.bits) <= WORD_LIMIT
    requires InRegion(bus, base, SizeOf(y.start.bits))
    ensures var o := TestMemory(memory, bus, base, Pow2(y.start.bits));
            && InRegion(o.bus, base, SizeOf(y.start.bits)) && (o.Passed? <==> !NextBitSet(base, SizeOf(y.start.bits)))
            && (o.Failed? ==> o.at == base + 4 && o.read == 0 && o.expected == 0x4000_8001)
  {
    hide LitexWired, TestMemory, Pow2, Script, NextBitSet, FirstDifference, InRegion, ItemsIn;
    var banks := Pow2(y.start.bits);
    ScriptIn(base, banks);
    TestStopsAtFirstDifference(memory, bus, base, banks);
    StopIn(memory, bus, Script(base, banks), TestMemory(memory, bus, base, banks), base, SizeOf(y.start.bits));
    if NextBitSet(base, SizeOf(y.start.bits)) {
      OtherBitFails(memory, y, bus, base);
    } else {
      SameBitPasses(memory, y, bus, base);
    }
  }

  /** What the firmware says of a region with that select. */
  function LitexLine(base: nat, nextBit: bool): seq<nat>
    requires base + 4 < WORD_LIMIT
  {
    if nextBit then Report(Failed([], base + 4, 0, 0x4000_8001)) else Report(Passed([]))
  }

  lemma {:induction false} LitexTests(memory: Memory, y: System, base: nat, k: nat)
    requires LitexWired(memory, y) && base % SizeOf(y.start.bits) == 0 && base + SizeOf(y.start.bits) <= WORD_LIMIT
    ensures base + 4 < WORD_LIMIT
    ensures var (bus, text) := Tests(memory, base, Pow2(y.start.bits), k);
            && InRegion(bus, base, SizeOf(y.start.bits))
            && text == Repeated(LitexLine(base, NextBitSet(base, SizeOf(y.start.bits))), k)
    decreases k
  {
    hide LitexWired, TestMemory, Printed, Hex, Pow2, NextBitSet;
    Pow2Positive(y.start.bits);
    if k > 0 {
      LitexTests(memory, y, base, k - 1);
      LitexTest(memory, y, Tests(memory, base, Pow2(y.start.bits), k - 1).0, base);
    }
  }

  /** The generated firmware on a slave with LiteX's select, at an aligned region: for every byte it receives it says
      PASS if the address bit just above the region is 0; if it is 1, that the second word failed. */
  lemma LitexFirmwareSays(f: Firmware, a: Params, y: System, s: State, k: nat, u: nat) returns (t: State)
    requires Setup(f, a) && Fair(f.env) && AtReset(f, s) && f.env.arrived(u) >= k
    requires LitexWired(f.env.reply, y) && BankBits(a.size) == y.start.bits && a.base % a.size == 0
    ensures |f.p| == SECTIONS && Reaches(f.env, s, t) && t.pc == At(f, WAIT, 0) && t.popped == k
    ensures a.base + 4 < WORD_LIMIT
    ensures t.sent == Greeting(a.ident) + Repeated(LitexLine(a.base, NextBitSet(a.base, a.size)), k)
  {
    hide LitexWired, Loaded, Source, Printed, Greeting, Tests, Repeated, LitexLine;
    RegionFits(f, a);
    LoadedIsSound(f);
    assert Pow2(y.start.bits) == BanksOf(a) by { BanksArePowers(a, y.start.bits); }
    t := FirmwareAnswersEveryByte(f, a, s, k, u);
    LitexTests(f.env.reply, y, f.env.device, k);
  }

  /** At 0x00020000 with 128 KB: the line the TT FPGA's test printed. */
  lemma QuotedFailure()
    ensures LitexLine(0x2_0000, NextBitSet(0x2_0000, 0x2_0000))
         == Printed("SPRAM_TEST: FAIL at 0x" + "00020004" + " read 0x" + "00000000" + " expected 0x" + "40008001"
                    + "\r\n")
  {
    hide Printed, Hex, NoNul;
    QuotedAddress();
    QuotedRead();
    QuotedExpected();
    QuotedTexts();
    PrintedParts("SPRAM_TEST: FAIL at 0x", "00020004", " read 0x", "00000000", " expected 0x", "40008001", "\r\n");
  }

  /** There is such a memory behind every such slave. */
  ghost function LitexMemory(y: System): Memory
    requires SystemOk(y)
  {
    (bus: seq<Access>, addr: Word) => LitexReadData(y, bus, addr) % WORD_LIMIT
  }

  lemma LitexAnswersReads(y: System)
    requires SystemOk(y)
    ensures LitexWired(LitexMemory(y), y)
  {
    hide SystemOk, LitexServed, LitexAfter, LitexAnswers, Served;
    forall bus, addr: Word ensures LitexMemory(y)(bus, addr) == LitexReadData(y, bus, addr) {
      LitexServedOk(y, LitexAfter(y, bus), |bus|, Read(addr));
      ReadServedIsWord(y, LitexAfter(y, bus), |bus|, addr);
    }
  }

  lemma ReadServedIsWord(y: System, s: Slave, i: nat, addr: Word)
    requires SystemOk(y) && SlaveOk(s) && !s.ack
    ensures Served(y, s, i, Read(addr)).1 < WORD_LIMIT
  {
    hide WordAt, Cycle, Edge, Idled;
    assert IdleGap(y.gaps(i));
    IdleChangesNothing(s, y.gaps(i));
    ReadCycle(Idled(s, y.gaps(i)), Request(Read(addr)), y.junk, y.junk');
    WordAtIsWord(Idled(s, y.gaps(i)), addr / 4);
  }
}
