/** The SPRAM test as its documentation gives it: what it writes and reads, what it takes for a pass, and the line it
    prints. What answers the reads is any function of the accesses before them. */
module SpramTest {
  import opened Bits
  import opened Assembler
  import opened Machine
  import opened Print
  import opened SpramPattern

  type Memory = (seq<Access>, Word) -> Word

  const BANK_SIZE: nat := 0x1_0000

  /** How a part of the test ends: with the accesses made, or at the first word that differs. */
  datatype Outcome = Passed(bus: seq<Access>) | Failed(bus: seq<Access>, at: Word, read: Word, expected: Word)

  /** Words i to n of a region, written in order. */
  function Written(bus: seq<Access>, base: nat, i: nat, n: nat, inverted: bool): seq<Access>
    requires i <= n && base + 4 * n <= WORD_LIMIT
    decreases n - i
  {
    if i == n then bus
    else
      InvertedIsComplement(4 * i); PatternPieces(4 * i);
      Written(bus + [Write(base + 4 * i, Pattern(4 * i, inverted), ALL_LANES)], base, i + 1, n, inverted)
  }

  /** One word read and compared. */
  function Compare(memory: Memory, bus: seq<Access>, addr: Word, expected: Word): Outcome {
    var read := memory(bus, addr);
    if read == expected then Passed(bus + [Read(addr)]) else Failed(bus + [Read(addr)], addr, read, expected)
  }

  function ReadBack(memory: Memory, bus: seq<Access>, base: nat, i: nat, n: nat, inverted: bool): Outcome
    requires i <= n && base + 4 * n <= WORD_LIMIT
    decreases n - i
  {
    if i == n then Passed(bus)
    else
      InvertedIsComplement(4 * i); PatternPieces(4 * i);
      var first := Compare(memory, bus, base + 4 * i, Pattern(4 * i, inverted));
      if first.Failed? then first else ReadBack(memory, first.bus, base, i + 1, n, inverted)
  }

  function PatternPass(memory: Memory, bus: seq<Access>, base: nat, n: nat, inverted: bool): Outcome
    requires base + 4 * n <= WORD_LIMIT
  {
    ReadBack(memory, Written(bus, base, 0, n, inverted), base, 0, n, inverted)
  }

  /** 0xFF in every lane but one. */
  function LaneExpected(lane: nat): nat {
    LittleEndian([if lane == 0 then 0 else 0xFF, if lane == 1 then 0 else 0xFF,
                  if lane == 2 then 0 else 0xFF, if lane == 3 then 0 else 0xFF])
  }

  /** All ones, then a zero byte in one lane: only that lane may change. */
  function LaneTest(memory: Memory, bus: seq<Access>, addr: Word, lane: nat): Outcome {
    Compare(memory, bus + [Write(addr, ONES, ALL_LANES), Write(addr, 0, OneLane(lane))], addr, LaneExpected(lane))
  }

  function BankTest(memory: Memory, bus: seq<Access>, addr: Word, lane: nat): Outcome
    requires lane <= 4
    decreases 4 - lane
  {
    if lane == 4 then Passed(bus)
    else
      var first := LaneTest(memory, bus, addr, lane);
      if first.Failed? then first else BankTest(memory, first.bus, addr, lane + 1)
  }

  /** The byte lanes at the start of each bank, from bank b on. */
  function LanePass(memory: Memory, bus: seq<Access>, base: nat, b: nat, banks: nat): Outcome
    requires b <= banks && base + BANK_SIZE * banks <= WORD_LIMIT
    decreases banks - b
  {
    if b == banks then Passed(bus)
    else
      var first := BankTest(memory, bus, base + BANK_SIZE * b, 0);
      if first.Failed? then first else LanePass(memory, first.bus, base, b + 1, banks)
  }

  /** The whole test. */
  function TestMemory(memory: Memory, bus: seq<Access>, base: nat, banks: nat): Outcome
    requires base + BANK_SIZE * banks <= WORD_LIMIT
  {
    var n := BANK_SIZE / 4 * banks;
    var plain := PatternPass(memory, bus, base, n, false);
    if plain.Failed? then plain
    else
      var inverse := PatternPass(memory, plain.bus, base, n, true);
      if inverse.Failed? then inverse else LanePass(memory, inverse.bus, base, 0, banks)
  }

  /** The line printed. */
  function Report(o: Outcome): seq<nat> {
    match o
    case Passed(_) => Printed("SPRAM_TEST: PASS\r\n")
    case Failed(_, at, read, expected) =>
      Printed("SPRAM_TEST: FAIL at 0x") + Hex(at, 8) + Printed(" read 0x") + Hex(read, 8)
      + Printed(" expected 0x") + Hex(expected, 8) + Printed("\r\n")
  }
}
