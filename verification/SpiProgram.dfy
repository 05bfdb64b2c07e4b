/** The SPI flash firmware: generate_spiflash_firmware as the sequence of words, labels and references it appends. */
module SpiProgram {
  import opened Encoding
  import opened Assembler
  import opened Layout
  import opened Listing
  import opened Machine

  /** The generator's arguments. */
  datatype Params = Params(uart: int, flash: int, ident: string)

  // The labels, in program order. Up to JUDGE nothing has a label in the generator: nothing there is referred to, but
  // for the two loops' own branches, written as offsets.
  const ENTRY: Label := 0
  const DELAY: Label := 1
  const HELLO: Label := 2
  const IDLE_CLOCKS: Label := 3
  const ASK: Label := 4
  const SHOW: Label := 5
  const JUDGE: Label := 6
  const FAIL: Label := 7
  const PASS: Label := 8
  const DONE: Label := 9
  const HALT: Label := 10
  const PUTSTR: Label := 11
  const PUTSTR_TX: Label := 12
  const PUTSTR_RET: Label := 13
  const PUTHEX: Label := 14
  const PUTHEX_TX1: Label := 15
  const PUTHEX_TX2: Label := 16
  const XFER: Label := 17
  const XFER_BIT: Label := 18
  const BANNER: Label := 19
  const IDENT: Label := 20
  const JEDEC: Label := 21
  const SEPARATOR: Label := 22
  const CRLF: Label := 23
  const PREFIX: Label := 24
  const PASS_TEXT: Label := 25
  const FAIL_TEXT: Label := 26
  const DONE_TEXT: Label := 27
  const HEX: Label := 28
  const SECTIONS: nat := 29

  /** From reset to the JEDEC ID in s2, s3 and s4. */
  function ReadCode(a: Params, k: Label): seq<Op> {
    if k == ENTRY then
      [LoadHigh(S0, a.uart), LoadLow(S0, a.uart), LoadHigh(S1, a.flash), LoadLow(S1, a.flash), Do(Lui(T0, 0x40))]
    else if k == DELAY then
      [Addi(T0, T0, -1), Bne(T0, ZERO, DELAY)]
    else if k == HELLO then
      [AuipcOf(A0, BANNER), AddiOf(A0, BANNER), Call(PUTSTR), AuipcOf(A0, IDENT), AddiOf(A0, IDENT), Call(PUTSTR),
       Addi(T2, ZERO, 8)]
    else if k == IDLE_CLOCKS then
      [Addi(T0, ZERO, 6), Sw(T0, S1, 0), Addi(T0, ZERO, 4), Sw(T0, S1, 0), Addi(T2, T2, -1), Bne(T2, ZERO, IDLE_CLOCKS)]
    else
      [Sw(ZERO, S1, 0), Addi(A0, ZERO, 0x9F), Call(XFER),
       Addi(A0, ZERO, 0), Call(XFER), Addi(S2, A0, 0),
       Addi(A0, ZERO, 0), Call(XFER), Addi(S3, A0, 0),
       Addi(A0, ZERO, 0), Call(XFER), Addi(S4, A0, 0),
       Addi(T0, ZERO, 4), Sw(T0, S1, 0)]
  }

  /** The report and the verdict. */
  function ReportCode(k: Label): seq<Op> {
    if k == SHOW then
      [AuipcOf(A0, JEDEC), AddiOf(A0, JEDEC), Call(PUTSTR), Addi(A0, S2, 0), Call(PUTHEX),
       AuipcOf(A0, SEPARATOR), AddiOf(A0, SEPARATOR), Call(PUTSTR), Addi(A0, S3, 0), Call(PUTHEX),
       AuipcOf(A0, SEPARATOR), AddiOf(A0, SEPARATOR), Call(PUTSTR), Addi(A0, S4, 0), Call(PUTHEX),
       AuipcOf(A0, CRLF), AddiOf(A0, CRLF), Call(PUTSTR), AuipcOf(A0, PREFIX), AddiOf(A0, PREFIX), Call(PUTSTR)]
    else if k == JUDGE then
      [Do(Alu(OR, T0, S2, S3)), Do(Alu(OR, T0, T0, S4)), Beq(T0, ZERO, FAIL), Addi(T1, ZERO, 0xFF),
       Bne(S2, T1, PASS), Bne(S3, T1, PASS), Bne(S4, T1, PASS)]
    else if k == FAIL then
      [AuipcOf(A0, FAIL_TEXT), AddiOf(A0, FAIL_TEXT), Call(PUTSTR), Jump(DONE)]
    else if k == PASS then
      [AuipcOf(A0, PASS_TEXT), AddiOf(A0, PASS_TEXT), Call(PUTSTR)]
    else if k == DONE then
      [AuipcOf(A0, DONE_TEXT), AddiOf(A0, DONE_TEXT), Call(PUTSTR)]
    else
      [Jump(HALT)]
  }

  /** The subroutines, none of which calls another. */
  function RoutineCode(k: Label): seq<Op> {
    if k == PUTSTR then
      [Do(Load(Byte, T0, A0, 0)), Beq(T0, ZERO, PUTSTR_RET)]
    else if k == PUTSTR_TX then
      [Lw(T1, S0, 4), Bne(T1, ZERO, PUTSTR_TX), Sw(T0, S0, 0), Addi(A0, A0, 1), Jump(PUTSTR)]
    else if k == PUTSTR_RET then
      [Do(Jalr(ZERO, RA, 0))]
    else if k == PUTHEX then
      [Addi(S5, RA, 0), Addi(T2, A0, 0), AuipcOf(T3, HEX), AddiOf(T3, HEX),
       Do(AluImm(SRL, A0, T2, 4)), Do(AluImm(AND, A0, A0, 0xF)), Do(Alu(ADD, A0, T3, A0)), Do(Load(Byte, A0, A0, 0))]
    else if k == PUTHEX_TX1 then
      [Lw(T1, S0, 4), Bne(T1, ZERO, PUTHEX_TX1), Sw(A0, S0, 0),
       Do(AluImm(AND, A0, T2, 0xF)), Do(Alu(ADD, A0, T3, A0)), Do(Load(Byte, A0, A0, 0))]
    else if k == PUTHEX_TX2 then
      [Lw(T1, S0, 4), Bne(T1, ZERO, PUTHEX_TX2), Sw(A0, S0, 0), Addi(RA, S5, 0), Do(Jalr(ZERO, RA, 0))]
    else if k == XFER then
      [Addi(A1, ZERO, 0), Addi(T2, ZERO, 8)]
    else
      [Do(AluImm(SLL, A1, A1, 1)), Do(AluImm(SRL, T0, A0, 7)), Do(AluImm(AND, T0, T0, 1)), Sw(T0, S1, 0),
       Do(AluImm(OR, T0, T0, 2)), Sw(T0, S1, 0), Lw(T1, S1, 4), Do(AluImm(AND, T1, T1, 1)), Do(Alu(OR, A1, A1, T1)),
       Do(AluImm(AND, T0, T0, 1)), Sw(T0, S1, 0), Do(AluImm(SLL, A0, A0, 1)), Addi(T2, T2, -1), Bne(T2, ZERO, XFER_BIT),
       Addi(A0, A1, 0), Do(Jalr(ZERO, RA, 0))]
  }

  function CodeOf(a: Params, k: Label): seq<Op> {
    if k < SHOW then ReadCode(a, k) else if k < PUTSTR then ReportCode(k) else RoutineCode(k)
  }

  function TextOf(a: Params, k: Label): string {
    if k == BANNER then "\r\nLiteX custom firmware\r\n"
    else if k == IDENT then a.ident + "\r\n"
    else if k == JEDEC then "JEDEC_ID: 0x"
    else if k == SEPARATOR then " 0x"
    else if k == CRLF then "\r\n"
    else if k == PREFIX then "SPI_FLASH_TEST: "
    else if k == PASS_TEXT then "PASS\r\n"
    else if k == FAIL_TEXT then "FAIL\r\n"
    else if k == DONE_TEXT then "Test Complete\r\n"
    else "0123456789ABCDEF"
  }

  function SectionOf(a: Params, k: Label): Section {
    if k < BANNER then Code(k, CodeOf(a, k)) else Data(k, TextOf(a, k))
  }

  function Source(a: Params): Program {
    seq(SECTIONS, k requires 0 <= k < SECTIONS => SectionOf(a, k))
  }

  lemma SourceIs(a: Params, k: Label)
    requires k < SECTIONS
    ensures |Source(a)| == SECTIONS && Source(a)[k] == SectionOf(a, k)
  {
    hide SectionOf;
  }

  lemma OperandsRead(a: Params, k: Label)
    requires k < SHOW
    ensures AllOperandsOk(ReadCode(a, k), BANNER, SECTIONS)
  {
    hide SplitImm32;
    SplitImm32Reconstructs(a.uart, S0);
    SplitImm32Reconstructs(a.flash, S1);
  }

  lemma OperandsReport(k: Label)
    requires SHOW <= k < PUTSTR
    ensures AllOperandsOk(ReportCode(k), BANNER, SECTIONS)
  {}

  lemma OperandsPrint(k: Label)
    requires PUTSTR <= k < XFER
    ensures AllOperandsOk(RoutineCode(k), BANNER, SECTIONS)
  {}

  lemma OperandsXfer(k: Label)
    requires XFER <= k < BANNER
    ensures AllOperandsOk(RoutineCode(k), BANNER, SECTIONS)
  {}

  lemma OperandsAt(a: Params, k: Label)
    requires k < BANNER
    ensures AllOperandsOk(CodeOf(a, k), BANNER, SECTIONS)
  {
    hide AllOperandsOk, ReadCode, ReportCode, RoutineCode;
    if k < SHOW {
      OperandsRead(a, k);
    } else if k < PUTSTR {
      OperandsReport(k);
    } else if k < XFER {
      OperandsPrint(k);
    } else {
      OperandsXfer(k);
    }
  }

  // ---- where the sections are ----

  /** The words of section k. */
  function Size(a: Params, k: Label): nat {
    if k < BANNER then |CodeOf(a, k)| else |TextOf(a, k)| / 4 + 1
  }

  lemma StartNext(a: Params, k: Label)
    requires k < SECTIONS
    ensures Start(Source(a), k + 1) == Start(Source(a), k) + Size(a, k)
  {
    hide CodeOf, TextOf, TextWords, OpCell, Source, Cells;
    SourceIs(a, k);
  }

  lemma StartZero(a: Params)
    ensures Start(Source(a), 0) == 0
  {}

  lemma SizesRead(a: Params)
    ensures Size(a, 0) == 5 && Size(a, 1) == 2 && Size(a, 2) == 7 && Size(a, 3) == 6 && Size(a, 4) == 14
  {}

  lemma SizesReport(a: Params)
    ensures Size(a, 5) == 21 && Size(a, 6) == 7 && Size(a, 7) == 4 && Size(a, 8) == 3 && Size(a, 9) == 3
    ensures Size(a, 10) == 1
  {}

  lemma SizesRoutine(a: Params)
    ensures Size(a, 11) == 2 && Size(a, 12) == 5 && Size(a, 13) == 1 && Size(a, 14) == 8 && Size(a, 15) == 6
    ensures Size(a, 16) == 5 && Size(a, 17) == 2 && Size(a, 18) == 16
  {}

  lemma SizesText(a: Params)
    ensures Size(a, 19) == 7 && Size(a, 20) == (|a.ident| + 2) / 4 + 1 && Size(a, 21) == 4 && Size(a, 22) == 1
    ensures Size(a, 23) == 1 && Size(a, 24) == 5 && Size(a, 25) == 2 && Size(a, 26) == 2 && Size(a, 27) == 4
  {}

  /** The code's places: fixed, whatever the arguments. */
  lemma CodeStarts(a: Params)
    ensures var p := Source(a);
            && Start(p, HELLO) == 7 && Start(p, SHOW) == 34 && Start(p, FAIL) == 62 && Start(p, PASS) == 66
            && Start(p, DONE) == 69 && Start(p, PUTHEX) == 81 && Start(p, BANNER) == 118
  {
    hide CodeOf, TextOf, Source, Start, Size, Cells;
    StartZero(a);
    SizesRead(a);
    SizesReport(a);
    SizesRoutine(a);
    StartNext(a, 0); StartNext(a, 1); StartNext(a, 2); StartNext(a, 3); StartNext(a, 4); StartNext(a, 5);
    StartNext(a, 6); StartNext(a, 7); StartNext(a, 8); StartNext(a, 9); StartNext(a, 10); StartNext(a, 11);
    StartNext(a, 12); StartNext(a, 13); StartNext(a, 14); StartNext(a, 15); StartNext(a, 16); StartNext(a, 17);
    StartNext(a, 18);
  }

  /** The strings' places: those after the ident move with its length. */
  lemma TextStarts(a: Params)
    ensures var p := Source(a); var n := (|a.ident| + 2) / 4 + 1;
            && Start(p, BANNER) == 118 && Start(p, IDENT) == 125 && Start(p, JEDEC) == 125 + n
            && Start(p, SEPARATOR) == 129 + n && Start(p, CRLF) == 130 + n && Start(p, PREFIX) == 131 + n
            && Start(p, PASS_TEXT) == 136 + n && Start(p, FAIL_TEXT) == 138 + n && Start(p, DONE_TEXT) == 140 + n
            && Start(p, HEX) == 144 + n
  {
    hide CodeOf, TextOf, Source, Start, Size, Cells;
    CodeStarts(a);
    SizesText(a);
    StartNext(a, 19); StartNext(a, 20); StartNext(a, 21); StartNext(a, 22); StartNext(a, 23); StartNext(a, 24);
    StartNext(a, 25); StartNext(a, 26); StartNext(a, 27);
  }

  // ---- every reference fits, exactly when the ident is short enough ----

  /** The longest ident after which every string is still within its ADDI's reach. */
  const IDENT_MAX: nat := 1677

  predicate IdentFits(ident: string) { |ident| <= IDENT_MAX }

  lemma ReferencesEarly(a: Params, k: Label, j: nat)
    requires k < FAIL && j < |CodeOf(a, k)| && CodeOf(a, k)[j].AddiOf?
    ensures (k, j, CodeOf(a, k)[j].target) in
              {(HELLO, 1, BANNER), (HELLO, 4, IDENT), (SHOW, 1, JEDEC), (SHOW, 6, SEPARATOR), (SHOW, 11, SEPARATOR),
               (SHOW, 16, CRLF), (SHOW, 19, PREFIX)}
  {}

  lemma ReferencesLate(a: Params, k: Label, j: nat)
    requires FAIL <= k < BANNER && j < |CodeOf(a, k)| && CodeOf(a, k)[j].AddiOf?
    ensures (k, j, CodeOf(a, k)[j].target) in
              {(FAIL, 1, FAIL_TEXT), (PASS, 1, PASS_TEXT), (DONE, 1, DONE_TEXT), (PUTHEX, 3, HEX)}
  {}

  lemma AddiFits(a: Params, k: Label, j: nat)
    requires k < BANNER && j < |CodeOf(a, k)| && CodeOf(a, k)[j].AddiOf? && IdentFits(a.ident)
    requires CodeOf(a, k)[j].target < SECTIONS
    ensures |Source(a)| == SECTIONS && SignedFits(Distance(Source(a), k, j, CodeOf(a, k)[j].target) + 4, 0x800)
  {
    hide CodeOf, TextOf, Source, Start, Cells;
    SourceIs(a, k);
    CodeStarts(a);
    TextStarts(a);
    if k < FAIL {
      ReferencesEarly(a, k, j);
    } else {
      ReferencesLate(a, k, j);
    }
  }

  lemma InstrFits(a: Params, k: Label, j: nat)
    requires k < BANNER && j < |CodeOf(a, k)| && IdentFits(a.ident)
    ensures var p := Source(a); |p| == SECTIONS && p[k] == Code(k, CodeOf(a, k))
    ensures var p := Source(a); OpOk(p[k].ops[j], |p|) && Encodable(InstrAt(p, k, j))
  {
    hide CodeOf, TextOf, Source, Start, Cells, InstrAt, Encodable;
    SourceIs(a, k);
    SourceIs(a, BANNER);
    OperandsAt(a, k);
    assert OperandsOk(CodeOf(a, k)[j], BANNER, SECTIONS);
    CodeStarts(a);
    if CodeOf(a, k)[j].AddiOf? {
      AddiFits(a, k, j);
    }
    Fits(Source(a), BANNER, k, j);
  }

  // ---- the generator ----

  lemma LongTextsAscii()
    ensures Ascii("\r\nLiteX custom firmware\r\n") && Ascii("JEDEC_ID: 0x") && Ascii("SPI_FLASH_TEST: ")
  {}

  lemma ShortTextsAscii()
    ensures Ascii(" 0x") && Ascii("\r\n") && Ascii("PASS\r\n") && Ascii("FAIL\r\n") && Ascii("Test Complete\r\n")
    ensures Ascii("0123456789ABCDEF")
  {}

  lemma TextOfAscii(a: Params, k: Label)
    requires BANNER <= k < SECTIONS
    ensures Ascii(TextOf(a, k)) <==> k != IDENT || Ascii(a.ident)
  {
    hide Ascii;
    LongTextsAscii();
    ShortTextsAscii();
    LineAscii(a.ident);
  }

  lemma TextsOfSource(a: Params)
    ensures TextsAscii(Source(a), |Source(a)|) <==> Ascii(a.ident)
  {
    hide CodeOf, TextOf, Ascii;
    assert Source(a)[IDENT] == Data(IDENT, TextOf(a, IDENT));
    forall k | BANNER <= k < SECTIONS ensures Ascii(TextOf(a, k)) <==> k != IDENT || Ascii(a.ident) {
      TextOfAscii(a, k);
    }
  }

  lemma SourceWellFormed(a: Params)
    requires Ascii(a.ident)
    ensures WellFormed(Source(a))
  {
    hide CodeOf, TextOf, TextsAscii;
    TextsOfSource(a);
    forall k, j | 0 <= k < SECTIONS && Source(a)[k].Code? && 0 <= j < |Source(a)[k].ops|
      ensures OpOk(Source(a)[k].ops[j], SECTIONS)
    {
      OperandsAt(a, k);
      assert OperandsOk(CodeOf(a, k)[j], BANNER, SECTIONS);
    }
  }

  /** generate_spiflash_firmware: the image, or the error an ident that is not ASCII raises. */
  method GenerateSpiflashFirmware(uart: int, flash: int, ident: string) returns (r: Result)
    ensures r == Err(NotAscii) <==> !Ascii(ident)
    ensures Ascii(ident) ==>
              var p := Source(Params(uart, flash, ident));
              AllResolvable(Cells(p, |p|), Labels(p, |p|)) && r == Ok(Image(p))
  {
    hide Source, Image, TextsAscii;
    var a := Params(uart, flash, ident);
    TextsOfSource(a);
    if Ascii(ident) {
      SourceWellFormed(a);
      Assembles(Source(a));
    }
    r := Assemble(Source(a));
    match r
    case Ok(words) =>
    case Err(error) => assert error != BadSize;
  }

  /** With an ident that fits, every word of code decodes to the instruction its source line asks for. */
  lemma EveryReferenceFits(a: Params)
    requires Ascii(a.ident) && IdentFits(a.ident)
    ensures var p := Source(a);
            && WellFormed(p)
            && forall k, j | 0 <= k < |p| && p[k].Code? && 0 <= j < |p[k].ops| ::
                 OpOk(p[k].ops[j], |p|) && Encodable(InstrAt(p, k, j))
  {
    hide CodeOf, TextOf, InstrAt, Encodable, WellFormed;
    SourceWellFormed(a);
    var p := Source(a);
    forall k, j | 0 <= k < |p| && p[k].Code? && 0 <= j < |p[k].ops|
      ensures OpOk(p[k].ops[j], |p|) && Encodable(InstrAt(p, k, j))
    {
      InstrFits(a, k, j);
    }
  }

  lemma JedecReference(a: Params)
    ensures |CodeOf(a, SHOW)| == 21 && CodeOf(a, SHOW)[1] == AddiOf(A0, JEDEC)
  {}

  /** The bound is exact: the address of "JEDEC_ID: 0x" is right if and only if the ident has at most 1677
      characters. */
  lemma IdentBoundIsExact(a: Params, origin: nat)
    requires Ascii(a.ident)
    ensures var p := Source(a); var at := Start(p, SHOW) + 1;
            && WellFormed(p) && AllResolvable(Cells(p, |p|), Labels(p, |p|)) && at < |Image(p)|
            && Decode(Image(p)[at]).AluImm?
            && (Address(p, origin, SHOW, 0) + Decode(Image(p)[at]).imm == Address(p, origin, JEDEC, 0)
                <==> IdentFits(a.ident))
  {
    hide Source, Start, Image, Decode, Cells, Labels, WellFormed, CodeOf, TextOf;
    var p := Source(a);
    SourceWellFormed(a);
    JedecReference(a);
    SourceIs(a, SHOW);
    SourceIs(a, JEDEC);
    Assembles(p);
    WordAt(p, SHOW, 1);
    CodeStarts(a);
    TextStarts(a);
    var off := Distance(p, SHOW, 1, JEDEC) + 4;
    assert InstrAt(p, SHOW, 1) == AluImm(ADD, A0, A0, off);
    AddiImmediate(A0, A0, off);
  }
}
