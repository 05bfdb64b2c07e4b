/** That there are harts for all this: each of the three firmwares, loaded at 0 of a sound address map, with whatever
    device behind it. */
module Harts {
  import opened Bits
  import opened Encoding
  import opened Assembler
  import opened Layout
  import opened Machine
  import opened Console
  import opened SpiSlave
  import UartProgram
  import UartEcho
  import SpiProgram
  import SpiRun
  import SpiReport
  import SpramProgram
  import SpramRun

  /** Every word of an image fits a word. */
  lemma ImageWords(p: Program)
    requires WellFormed(p) && AllEncodable(p)
    ensures AllResolvable(Cells(p, |p|), Labels(p, |p|)) && |Image(p)| == Start(p, |p|)
    ensures forall i | 0 <= i < |Image(p)| :: Image(p)[i] < WORD_LIMIT
  {
    hide WellFormed, AllEncodable, Image, Start, Cells, Labels, CellWord;
    Assembles(p);
    assert |Image(p)| == Start(p, |p|) by { ImageSize(p); }
    forall i | 0 <= i < |Image(p)| ensures Image(p)[i] < WORD_LIMIT {
      WordFits(p, i);
    }
  }

  lemma ImageSize(p: Program)
    requires AllResolvable(Cells(p, |p|), Labels(p, |p|))
    ensures |Image(p)| == Start(p, |p|)
  {
    hide CellWord;
  }

  lemma WordFits(p: Program, i: nat)
    requires WellFormed(p) && AllEncodable(p) && i < Start(p, |p|)
    ensures AllResolvable(Cells(p, |p|), Labels(p, |p|)) && i < |Image(p)| && Image(p)[i] < WORD_LIMIT
  {
    hide WellFormed, Image, Start, Cells, Labels, CellWord, Encodable, InstrAt, SectionCells;
    var k, j := SectionOfCell(p, |p|, i);
    if p[k].Code? {
      CodeCells(p[k]);
      assert OpOk(p[k].ops[j], |p|) && Encodable(InstrAt(p, k, j));
      DecodedAt(p, k, j);
    } else {
      TextCells(p[k]);
      FirstOfWord(j);
      TextByteAt(p, k, 4 * j);
    }
  }

  lemma CodeCells(s: Section)
    requires s.Code?
    ensures |SectionCells(s)| == |s.ops|
  {
    hide OpCell;
  }

  lemma TextCells(s: Section)
    requires s.Data?
    ensures |SectionCells(s)| == |s.text| / 4 + 1
  {
    hide TextWords;
  }

  lemma FirstOfWord(j: nat)
    ensures 4 * j / 4 == j && forall n: nat :: j <= n / 4 ==> 4 * j <= n
  {}

  /** A hart with its ROM at 0, a transmit FIFO that drains at every instruction, and a byte arriving at each. */
  function Hart(rom: seq<nat>, uart: nat, device: nat, size: nat, reply: (seq<Access>, Word) -> Word): Env {
    Env(rom, 0, uart, device, size, reply, 1, (t: nat) => true, (t: nat) => t, (n: nat) => 0, (t: nat) => 0)
  }

  /** Room for any of the three firmwares below the UART and the device. */
  const ROM_BYTES: nat := 0x1000

  lemma HartSound(rom: seq<nat>, uart: nat, device: nat, size: nat, reply: (seq<Access>, Word) -> Word)
    requires 4 * |rom| <= ROM_BYTES && forall i | 0 <= i < |rom| :: rom[i] < WORD_LIMIT
    requires ROM_BYTES <= uart && uart % 4 == 0 && uart + UART_SIZE <= WORD_LIMIT
    requires ROM_BYTES <= device && device % 4 == 0 && size % 4 == 0 && device + size <= WORD_LIMIT
    requires Apart(uart, UART_SIZE, device, size)
    ensures var env := Hart(rom, uart, device, size, reply);
            && Sound(env) && Fair(env) && env.rom == rom && env.uart == uart && env.device == device
            && env.deviceSize == size && env.reply == reply
  {
    var env := Hart(rom, uart, device, size, reply);
    forall t: nat ensures DrainsAfter(env, t) {
      assert DrainsBy(env, t, t);
    }
  }

  /** An image that fits below ROM_BYTES. */
  ghost predicate Fits(p: Program) {
    && WellFormed(p) && AllEncodable(p) && AllResolvable(Cells(p, |p|), Labels(p, |p|))
    && 4 * |Image(p)| <= ROM_BYTES && forall i | 0 <= i < |Image(p)| :: Image(p)[i] < WORD_LIMIT
  }

  lemma ImageFits(p: Program)
    requires WellFormed(p) && AllEncodable(p) && 4 * Start(p, |p|) <= ROM_BYTES
    ensures Fits(p)
  {
    hide WellFormed, AllEncodable, Image, Start, Cells, Labels, AllResolvable;
    ImageWords(p);
  }

  lemma UartFits(a: UartProgram.Params)
    requires Ascii(a.ident) && UartProgram.IdentFits(a.ident)
    ensures Fits(UartProgram.Source(a))
  {
    hide Fits, WellFormed, UartProgram.Source, Start, Encodable, InstrAt, UartProgram.Size;
    UartProgram.EveryReferenceFits(a);
    UartProgram.Starts(a);
    UartProgram.SourceIs(a, 0);
    UartProgram.StartNext(a, 8);
    UartLast(a);
    ImageFits(UartProgram.Source(a));
  }

  lemma UartLast(a: UartProgram.Params)
    ensures UartProgram.Size(a, 8) == 2
  {}

  lemma SpiFits(a: SpiProgram.Params)
    requires Ascii(a.ident) && SpiProgram.IdentFits(a.ident)
    ensures Fits(SpiProgram.Source(a))
  {
    hide Fits, WellFormed, SpiProgram.Source, Start, Encodable, InstrAt, SpiProgram.Size;
    SpiProgram.EveryReferenceFits(a);
    SpiProgram.TextStarts(a);
    SpiProgram.SourceIs(a, 0);
    SpiProgram.StartNext(a, 28);
    SpiLast(a);
    ImageFits(SpiProgram.Source(a));
  }

  lemma SpiLast(a: SpiProgram.Params)
    ensures SpiProgram.Size(a, 28) == 5
  {}

  lemma SpramFits(a: SpramProgram.Params)
    requires Ascii(a.ident) && SpramProgram.IdentFits(a.ident)
    ensures Fits(SpramProgram.Source(a))
  {
    hide Fits, WellFormed, SpramProgram.Source, Start, Encodable, InstrAt;
    SpramProgram.EveryReferenceFits(a);
    SpramProgram.TextStarts(a);
    SpramProgram.SourceIs(a, 0);
    ImageFits(SpramProgram.Source(a));
  }

  /** The UART echo firmware. */
  lemma UartHart(a: UartProgram.Params) returns (f: Firmware)
    requires Ascii(a.ident) && UartProgram.IdentFits(a.ident)
    requires ROM_BYTES <= a.uart && a.uart % 4 == 0 && a.uart + UART_SIZE + 8 <= WORD_LIMIT
    ensures UartEcho.Setup(f, a) && Fair(f.env)
  {
    hide Image, WellFormed, UartProgram.Source, Cells, Labels, Sound, Fair, AllResolvable, UartEcho.Setup, Hart,
         AllEncodable;
    var p := UartProgram.Source(a);
    UartFits(a);
    var reply: (seq<Access>, Word) -> Word := (bus, addr) => 0;
    HartSound(Image(p), a.uart, a.uart + UART_SIZE, 8, reply);
    var env := Hart(Image(p), a.uart, a.uart + UART_SIZE, 8, reply);
    UartEcho.GeneratedIsSetUp(env, a);
    f := Firmware(env, p);
  }

  /** The SPI flash firmware, with any flash. */
  lemma SpiHart(a: SpiProgram.Params, answer: Answering) returns (f: Firmware)
    requires Ascii(a.ident) && SpiProgram.IdentFits(a.ident)
    requires ROM_BYTES <= a.uart && a.uart % 4 == 0 && a.uart + UART_SIZE <= WORD_LIMIT
    requires ROM_BYTES <= a.flash && a.flash % 4 == 0 && a.flash + 8 <= WORD_LIMIT
    requires Apart(a.uart, UART_SIZE, a.flash, 8)
    ensures SpiRun.Setup(f, a, answer) && Fair(f.env)
  {
    hide Image, WellFormed, SpiProgram.Source, Cells, Labels, Sound, Fair, AllResolvable, SpiRun.Setup,
         SpiRun.FlashAfter, Hart,
         AllEncodable;
    var p := SpiProgram.Source(a);
    SpiFits(a);
    var base: nat := a.flash;
    var reply := (bus: seq<Access>, addr: Word) => SpiRun.FlashAfter(bus, base, answer).shown as Word;
    HartSound(Image(p), a.uart, base, 8, reply);
    var env := Hart(Image(p), a.uart, base, 8, reply);
    SpiReport.GeneratedIsSetUp(env, a, answer);
    f := Firmware(env, p);
  }

  /** The SPRAM firmware, with any memory. */
  lemma SpramHart(a: SpramProgram.Params, memory: (seq<Access>, Word) -> Word) returns (f: Firmware)
    requires SpramProgram.SizeOk(a.size) && Ascii(a.ident) && SpramProgram.IdentFits(a.ident)
    requires ROM_BYTES <= a.uart && a.uart % 4 == 0 && a.uart + UART_SIZE <= WORD_LIMIT
    requires ROM_BYTES <= a.base && a.base % 4 == 0 && a.base + a.size <= WORD_LIMIT
    requires Apart(a.uart, UART_SIZE, a.base, a.size)
    ensures SpramRun.Setup(f, a) && Fair(f.env) && f.env.reply == memory
  {
    hide Image, WellFormed, SpramProgram.Source, Cells, Labels, Sound, Fair, AllResolvable, SpramRun.Setup, Hart,
         AllEncodable;
    var p := SpramProgram.Source(a);
    SpramFits(a);
    WholeWords(a.size);
    HartSound(Image(p), a.uart, a.base, a.size, memory);
    var env := Hart(Image(p), a.uart, a.base, a.size, memory);
    SpramRun.GeneratedIsSetUp(env, a);
    f := Firmware(env, p);
  }

  lemma WholeWords(size: int)
    requires SpramProgram.SizeOk(size)
    ensures size % 4 == 0
  {}
}
