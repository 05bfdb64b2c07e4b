/** The SPRAM test firmware: generate_spram_firmware as the sequence of words, labels and references it appends. */
module SpramProgram {
  import opened Encoding
  import opened Assembler
  import opened Layout
  import opened Listing
  import opened Machine

  const SPRAM_BANK: int := 0x1_0000

  /** The generator's arguments. */
  datatype Params = Params(uart: int, base: int, size: int, ident: string)

  // The labels, in program order. ENTRY, DELAY, HELLO, NEXT_BANK, PASSED and the FAIL parts after the first have no
  // label in the generator: nothing there refers to them, but for the delay loop's own branch, written as an offset.
  const ENTRY: Label := 0
  const DELAY: Label := 1
  const HELLO: Label := 2
  const WAIT: Label := 3
  const PASS: Label := 4
  const WRITE: Label := 5
  const READ: Label := 6
  const LANES: Label := 7
  const BANK: Label := 8
  const LANE: Label := 9
  const NEXT_BANK: Label := 10
  const PASSED: Label := 11
  const FAIL: Label := 12
  const FAIL_READ: Label := 13
  const FAIL_EXPECTED: Label := 14
  const FAIL_END: Label := 15
  const PATTERN: Label := 16
  const PUTSTR: Label := 17
  const PUTSTR_TX: Label := 18
  const PUTSTR_RET: Label := 19
  const PUTHEX32: Label := 20
  const PUTHEX32_DIGIT: Label := 21
  const PUTHEX32_TX: Label := 22
  const BANNER: Label := 23
  const IDENT: Label := 24
  const READY: Label := 25
  const PASS_TEXT: Label := 26
  const FAIL_TEXT: Label := 27
  const READ_TEXT: Label := 28
  const EXPECTED_TEXT: Label := 29
  const CRLF: Label := 30
  const HEX: Label := 31
  const SECTIONS: nat := 32

  /** From reset to the byte that asks for a test. */
  function StartCode(a: Params, k: Label): seq<Op> {
    if k == ENTRY then
      [LoadHigh(S0, a.uart), LoadLow(S0, a.uart), LoadHigh(S1, a.base), LoadLow(S1, a.base),
       LoadHigh(S2, a.base + a.size), LoadLow(S2, a.base + a.size), Do(Lui(T0, 0x40))]
    else if k == DELAY then
      [Addi(T0, T0, -1), Bne(T0, ZERO, DELAY)]
    else if k == HELLO then
      [AuipcOf(A0, BANNER), AddiOf(A0, BANNER), Call(PUTSTR),
       AuipcOf(A0, IDENT), AddiOf(A0, IDENT), Call(PUTSTR),
       AuipcOf(A0, READY), AddiOf(A0, READY), Call(PUTSTR)]
    else
      [Lw(T0, S0, 8), Bne(T0, ZERO, WAIT), Lw(T0, S0, 0), Addi(T0, ZERO, 2), Sw(T0, S0, 16), Addi(A2, ZERO, 0)]
  }

  /** The two pattern passes and the byte lanes. */
  function TestCode(k: Label): seq<Op> {
    if k == PASS then
      [Addi(S3, S1, 0)]
    else if k == WRITE then
      [Call(PATTERN), Sw(T0, S3, 0), Addi(S3, S3, 4), Bne(S3, S2, WRITE), Addi(S3, S1, 0)]
    else if k == READ then
      [Call(PATTERN), Addi(S4, T0, 0), Lw(S6, S3, 0), Bne(S6, S4, FAIL), Addi(S3, S3, 4), Bne(S3, S2, READ),
       Bne(A2, ZERO, LANES), Addi(A2, ZERO, -1), Jump(PASS)]
    else if k == LANES then
      [Addi(S8, S1, 0)]
    else if k == BANK then
      [Addi(S3, S8, 0), Addi(S7, ZERO, 0)]
    else if k == LANE then
      [Addi(T0, ZERO, -1), Sw(T0, S3, 0), Do(Alu(ADD, T1, S3, S7)), Do(Store(Byte, ZERO, T1, 0)),
       Do(AluImm(SLL, T1, S7, 3)), Addi(T2, ZERO, 0xFF), Do(Alu(SLL, T2, T2, T1)), Do(AluImm(XOR, S4, T2, -1)),
       Lw(S6, S3, 0), Bne(S6, S4, FAIL), Addi(S7, S7, 1), Addi(T0, ZERO, 4), Bne(S7, T0, LANE)]
    else
      [LoadHigh(T0, SPRAM_BANK), LoadLow(T0, SPRAM_BANK), Do(Alu(ADD, S8, S8, T0)), Bne(S8, S2, BANK)]
  }

  /** The two verdicts. */
  function ReportCode(k: Label): seq<Op> {
    if k == PASSED then
      [AuipcOf(A0, PASS_TEXT), AddiOf(A0, PASS_TEXT), Call(PUTSTR), Jump(WAIT)]
    else if k == FAIL then
      [AuipcOf(A0, FAIL_TEXT), AddiOf(A0, FAIL_TEXT), Call(PUTSTR), Addi(A0, S3, 0), Call(PUTHEX32)]
    else if k == FAIL_READ then
      [AuipcOf(A0, READ_TEXT), AddiOf(A0, READ_TEXT), Call(PUTSTR), Addi(A0, S6, 0), Call(PUTHEX32)]
    else if k == FAIL_EXPECTED then
      [AuipcOf(A0, EXPECTED_TEXT), AddiOf(A0, EXPECTED_TEXT), Call(PUTSTR), Addi(A0, S4, 0), Call(PUTHEX32)]
    else
      [AuipcOf(A0, CRLF), AddiOf(A0, CRLF), Call(PUTSTR), Jump(WAIT)]
  }

  /** The subroutines, none of which calls another. */
  function RoutineCode(k: Label): seq<Op> {
    if k == PATTERN then
      [Do(Alu(SUB, T0, S3, S1)), Do(AluImm(SLL, T1, T0, 28)), Do(AluImm(SRL, T0, T0, 2)), Do(AluImm(SLL, T2, T0, 15)),
       Do(Alu(OR, T0, T0, T2)), Do(Alu(OR, T0, T0, T1)), Do(Alu(XOR, T0, T0, A2)), Do(Jalr(ZERO, RA, 0))]
    else if k == PUTSTR then
      [Do(Load(Byte, T0, A0, 0)), Beq(T0, ZERO, PUTSTR_RET)]
    else if k == PUTSTR_TX then
      [Lw(T1, S0, 4), Bne(T1, ZERO, PUTSTR_TX), Sw(T0, S0, 0), Addi(A0, A0, 1), Jump(PUTSTR)]
    else if k == PUTSTR_RET then
      [Do(Jalr(ZERO, RA, 0))]
    else if k == PUTHEX32 then
      [AuipcOf(T3, HEX), AddiOf(T3, HEX), Addi(T2, ZERO, 8)]
    else if k == PUTHEX32_DIGIT then
      [Do(AluImm(SRL, T0, A0, 28)), Do(Alu(ADD, T0, T3, T0)), Do(Load(Byte, T0, T0, 0))]
    else
      [Lw(T1, S0, 4), Bne(T1, ZERO, PUTHEX32_TX), Sw(T0, S0, 0), Do(AluImm(SLL, A0, A0, 4)), Addi(T2, T2, -1),
       Bne(T2, ZERO, PUTHEX32_DIGIT), Do(Jalr(ZERO, RA, 0))]
  }

  /** The code section at a label. */
  function CodeOf(a: Params, k: Label): seq<Op> {
    if k < PASS then StartCode(a, k) else if k < PASSED then TestCode(k)
    else if k < PATTERN then ReportCode(k) else RoutineCode(k)
  }

  function TextOf(a: Params, k: Label): string {
    if k == BANNER then "\r\nLiteX custom firmware\r\n"
    else if k == IDENT then a.ident + "\r\n"
    else if k == READY then "SPRAM_READY\r\n"
    else if k == PASS_TEXT then "SPRAM_TEST: PASS\r\n"
    else if k == FAIL_TEXT then "SPRAM_TEST: FAIL at 0x"
    else if k == READ_TEXT then " read 0x"
    else if k == EXPECTED_TEXT then " expected 0x"
    else if k == CRLF then "\r\n"
    else "0123456789ABCDEF"
  }

  function SectionOf(a: Params, k: Label): Section {
    if k < BANNER then Code(k, CodeOf(a, k)) else Data(k, TextOf(a, k))
  }

  function Source(a: Params): Program {
    seq(SECTIONS, k requires 0 <= k < SECTIONS => SectionOf(a, k))
  }

  predicate SizeOk(size: int) { size > 0 && size % SPRAM_BANK == 0 }

  // ---- the program is one the assembler takes ----

  lemma OperandsStart(a: Params, k: Label)
    requires k < PASS
    ensures AllOperandsOk(StartCode(a, k), BANNER, SECTIONS)
  {
    hide SplitImm32;
    SplitImm32Reconstructs(a.uart, S0);
    SplitImm32Reconstructs(a.base, S1);
    SplitImm32Reconstructs(a.base + a.size, S2);
  }

  lemma OperandsTest(k: Label)
    requires PASS <= k < PASSED
    ensures AllOperandsOk(TestCode(k), BANNER, SECTIONS)
  {
    hide SplitImm32;
    SplitImm32Reconstructs(SPRAM_BANK, T0);
  }

  lemma OperandsReport(k: Label)
    requires PASSED <= k < PATTERN
    ensures AllOperandsOk(ReportCode(k), BANNER, SECTIONS)
  {}

  lemma OperandsRoutine(k: Label)
    requires PATTERN <= k < BANNER
    ensures AllOperandsOk(RoutineCode(k), BANNER, SECTIONS)
  {}

  lemma OperandsAt(a: Params, k: Label)
    requires k < BANNER
    ensures AllOperandsOk(CodeOf(a, k), BANNER, SECTIONS)
  {
    hide AllOperandsOk, StartCode, TestCode, ReportCode, RoutineCode;
    if k < PASS {
      OperandsStart(a, k);
    } else if k < PASSED {
      OperandsTest(k);
    } else if k < PATTERN {
      OperandsReport(k);
    } else {
      OperandsRoutine(k);
    }
  }

  // ---- where the sections are ----

  lemma SourceIs(a: Params, k: Label)
    requires k < SECTIONS
    ensures |Source(a)| == SECTIONS && Source(a)[k] == SectionOf(a, k)
  {
    hide SectionOf;
  }

  /** The words of section k. */
  function Size(a: Params, k: Label): nat {
    if k < BANNER then |CodeOf(a, k)| else |TextOf(a, k)| / 4 + 1
  }

  lemma SizeIs(a: Params, k: Label)
    requires k < SECTIONS
    ensures |SectionCells(Source(a)[k])| == Size(a, k)
  {
    hide CodeOf, TextOf, TextWords, OpCell;
    SourceIs(a, k);
  }

  lemma StartNext(a: Params, k: Label)
    requires k < SECTIONS
    ensures Start(Source(a), k + 1) == Start(Source(a), k) + Size(a, k)
  {
    hide CodeOf, TextOf, Cells, SectionCells, Source;
    SourceIs(a, k);
    SizeIs(a, k);
  }

  lemma FirstStarts(a: Params)
    ensures var p := Source(a); Start(p, HELLO) == 9 && Start(p, WAIT) == 18 && Start(p, PASSED) == 59
  {
    hide CodeOf, TextOf, Source, Start, Size, Cells;
    SizesTest(a);
    StartZero(a);
    StartNext(a, 0); StartNext(a, 1); StartNext(a, 2); StartNext(a, 3); StartNext(a, 4); StartNext(a, 5);
    StartNext(a, 6); StartNext(a, 7); StartNext(a, 8); StartNext(a, 9); StartNext(a, 10);
  }

  /** The code's start addresses, in words: fixed, whatever the arguments. */
  lemma CodeStarts(a: Params)
    ensures var p := Source(a);
            && Start(p, HELLO) == 9 && Start(p, WAIT) == 18 && Start(p, PASSED) == 59 && Start(p, BANNER) == 111
  {
    hide CodeOf, TextOf, Source, Start, Size, Cells;
    FirstStarts(a);
    SizesReport(a);
    SizesRoutine(a);
    StartNext(a, 11); StartNext(a, 12); StartNext(a, 13); StartNext(a, 14); StartNext(a, 15); StartNext(a, 16);
    StartNext(a, 17); StartNext(a, 18); StartNext(a, 19); StartNext(a, 20); StartNext(a, 21); StartNext(a, 22);
  }

  lemma StartZero(a: Params)
    ensures Start(Source(a), 0) == 0
  {}

  lemma SizesTest(a: Params)
    ensures Size(a, 0) == 7 && Size(a, 1) == 2 && Size(a, 2) == 9 && Size(a, 3) == 6 && Size(a, 4) == 1
    ensures Size(a, 5) == 5 && Size(a, 6) == 9 && Size(a, 7) == 1 && Size(a, 8) == 2 && Size(a, 9) == 13
    ensures Size(a, 10) == 4
  {}

  lemma SizesReport(a: Params)
    ensures Size(a, 11) == 4 && Size(a, 12) == 5 && Size(a, 13) == 5 && Size(a, 14) == 5 && Size(a, 15) == 4
  {}

  lemma SizesRoutine(a: Params)
    ensures Size(a, 16) == 8 && Size(a, 17) == 2 && Size(a, 18) == 5 && Size(a, 19) == 1 && Size(a, 20) == 3
    ensures Size(a, 21) == 3 && Size(a, 22) == 7
  {}

  /** The strings' start addresses, in words: those after the ident move with its length. */
  lemma TextStarts(a: Params)
    ensures var p := Source(a); var n := (|a.ident| + 2) / 4 + 1;
            && Start(p, IDENT) == 118 && Start(p, READY) == 118 + n && Start(p, PASS_TEXT) == 122 + n
            && Start(p, HEX) == 141 + n && Start(p, SECTIONS) == 146 + n
  {
    hide CodeOf, TextOf, Source, Start, Size;
    CodeStarts(a);
    SizesText(a);
    StartNext(a, 23); StartNext(a, 24); StartNext(a, 25); StartNext(a, 26); StartNext(a, 27); StartNext(a, 28);
    StartNext(a, 29); StartNext(a, 30); StartNext(a, 31);
  }

  lemma SizesText(a: Params)
    ensures Size(a, 23) == 7 && Size(a, 24) == (|a.ident| + 2) / 4 + 1 && Size(a, 25) == 4 && Size(a, 26) == 5
    ensures Size(a, 27) == 6 && Size(a, 28) == 3 && Size(a, 29) == 4 && Size(a, 30) == 1 && Size(a, 31) == 5
  {}

  // ---- every reference fits, exactly when the ident is short enough ----

  /** The longest ident whose strings every AUIPC and ADDI pair still reaches. */
  const IDENT_MAX: nat := 1629

  predicate IdentFits(ident: string) { |ident| <= IDENT_MAX }

  /** A code word's place: within the first 111. */
  lemma CodePlace(a: Params, k: Label, j: nat)
    requires k < BANNER && j < |CodeOf(a, k)|
    ensures Start(Source(a), k) + j < 111
    ensures k >= PASSED ==> Start(Source(a), k) >= 59
  {
    hide CodeOf, TextOf, Source, Start, Cells;
    CodeStarts(a);
    StartNext(a, k);
    SourceIs(a, k);
    StartsClimb(Source(a), k + 1, BANNER);
    if k >= PASSED {
      StartsClimb(Source(a), PASSED, k);
    }
  }

  /** Strings come after the code, the last of them 141 words and the ident in. */
  lemma TextPlace(a: Params, d: Label)
    requires BANNER <= d < SECTIONS
    ensures 111 <= Start(Source(a), d) <= 141 + (|a.ident| + 2) / 4 + 1
  {
    hide CodeOf, TextOf, Source, Start, Cells;
    CodeStarts(a);
    TextStarts(a);
    SourceIs(a, d);
    StartsClimb(Source(a), BANNER, d);
    StartsClimb(Source(a), d, HEX);
  }

  /** Only the greeting's and the reports' words hold string references; the greeting's are three. */
  lemma StringReferences(a: Params, k: Label, j: nat)
    requires k < BANNER && j < |CodeOf(a, k)| && CodeOf(a, k)[j].AddiOf?
    ensures k >= PASSED || (k == HELLO && (j, CodeOf(a, k)[j].target) in {(1, BANNER), (4, IDENT), (7, READY)})
  {}

  lemma AddiFits(a: Params, k: Label, j: nat)
    requires k < BANNER && j < |CodeOf(a, k)| && CodeOf(a, k)[j].AddiOf? && IdentFits(a.ident)
    requires BANNER <= CodeOf(a, k)[j].target < SECTIONS
    ensures |Source(a)| == SECTIONS && SignedFits(Distance(Source(a), k, j, CodeOf(a, k)[j].target) + 4, 0x800)
  {
    hide CodeOf, TextOf, Source, Start, Cells;
    SourceIs(a, k);
    StringReferences(a, k, j);
    CodePlace(a, k, j);
    TextPlace(a, CodeOf(a, k)[j].target);
    CodeStarts(a);
    TextStarts(a);
  }

  lemma InstrFits(a: Params, k: Label, j: nat)
    requires k < BANNER && j < |CodeOf(a, k)| && IdentFits(a.ident)
    ensures var p := Source(a); |p| == SECTIONS && p[k] == Code(k, CodeOf(a, k))
    ensures var p := Source(a); OpOk(p[k].ops[j], |p|) && Encodable(InstrAt(p, k, j))
  {
    hide CodeOf, TextOf, Source, Start, Cells;
    SourceIs(a, k);
    OperandsAt(a, k);
    assert OperandsOk(CodeOf(a, k)[j], BANNER, SECTIONS);
    SourceIs(a, BANNER);
    CodeStarts(a);
    if CodeOf(a, k)[j].AddiOf? {
      AddiFits(a, k, j);
    }
    Fits(Source(a), BANNER, k, j);
  }

  // ---- the generator ----

  /** generate_spram_firmware: the image, or the error it raises. */
  method GenerateSpramFirmware(uart: int, base: int, size: int, ident: string) returns (r: Result)
    ensures r == Err(BadSize) <==> !SizeOk(size)
    ensures r == Err(NotAscii) <==> SizeOk(size) && !Ascii(ident)
    ensures SizeOk(size) && Ascii(ident) ==>
              var p := Source(Params(uart, base, size, ident));
              AllResolvable(Cells(p, |p|), Labels(p, |p|)) && r == Ok(Image(p))
  {
    hide Source, Image, TextsAscii;
    if !SizeOk(size) {
      return Err(BadSize);
    }
    var a := Params(uart, base, size, ident);
    TextsOfSource(a);
    if Ascii(ident) {
      SourceWellFormed(a);
      Assembles(Source(a));
    }
    r := Assemble(Source(a));
    match r
    case Ok(words) =>
    case Err(error) => assert error != BadSize;
  }

  lemma LongTextsAscii()
    ensures Ascii("\r\nLiteX custom firmware\r\n") && Ascii("SPRAM_READY\r\n") && Ascii("SPRAM_TEST: PASS\r\n")
  {}

  lemma ReportTextsAscii()
    ensures Ascii("SPRAM_TEST: FAIL at 0x") && Ascii(" read 0x") && Ascii(" expected 0x") && Ascii("\r\n")
    ensures Ascii("0123456789ABCDEF")
  {}

  lemma TextOfAscii(a: Params, k: Label)
    requires BANNER <= k < SECTIONS
    ensures Ascii(TextOf(a, k)) <==> k != IDENT || Ascii(a.ident)
  {
    hide Ascii;
    LongTextsAscii();
    ReportTextsAscii();
    LineAscii(a.ident);
  }

  lemma TextsOfSource(a: Params)
    ensures TextsAscii(Source(a), |Source(a)|) <==> Ascii(a.ident)
  {
    hide CodeOf, TextOf, Ascii;
    assert Source(a)[IDENT] == Data(IDENT, TextOf(a, IDENT));
    forall k | BANNER <= k < SECTIONS ensures Ascii(TextOf(a, k)) <==> k != IDENT || Ascii(a.ident) {
      TextOfAscii(a, k);
    }
  }

  lemma SourceWellFormed(a: Params)
    requires Ascii(a.ident)
    ensures WellFormed(Source(a))
  {
    hide CodeOf, TextOf, TextsAscii;
    TextsOfSource(a);
    forall k, j | 0 <= k < SECTIONS && Source(a)[k].Code? && 0 <= j < |Source(a)[k].ops|
      ensures OpOk(Source(a)[k].ops[j], SECTIONS)
    {
      OperandsAt(a, k);
      assert OperandsOk(CodeOf(a, k)[j], BANNER, SECTIONS);
    }
  }

  /** With an ident that fits, every word of code decodes to the instruction its source line asks for. */
  lemma EveryReferenceFits(a: Params)
    requires Ascii(a.ident) && IdentFits(a.ident)
    ensures var p := Source(a);
            && WellFormed(p)
            && forall k, j | 0 <= k < |p| && p[k].Code? && 0 <= j < |p[k].ops| ::
                 OpOk(p[k].ops[j], |p|) && Encodable(InstrAt(p, k, j))
  {
    hide CodeOf, TextOf, InstrAt, Encodable, WellFormed;
    SourceWellFormed(a);
    var p := Source(a);
    forall k, j | 0 <= k < |p| && p[k].Code? && 0 <= j < |p[k].ops|
      ensures OpOk(p[k].ops[j], |p|) && Encodable(InstrAt(p, k, j))
    {
      InstrFits(a, k, j);
    }
  }

  /** The bound is exact: the address of "SPRAM_READY" is right if and only if the ident has at most 1629 characters. A
      longer one makes the ADDI's immediate wrap, and the firmware prints from another address. */
  lemma IdentBoundIsExact(a: Params, origin: nat)
    requires Ascii(a.ident)
    ensures var p := Source(a); var at := Start(p, HELLO) + 7;
            && WellFormed(p) && AllResolvable(Cells(p, |p|), Labels(p, |p|)) && at < |Image(p)|
            && Decode(Image(p)[at]).AluImm?
            && (Address(p, origin, HELLO, 6) + Decode(Image(p)[at]).imm == Address(p, origin, READY, 0)
                <==> IdentFits(a.ident))
  {
    hide Source, Start, Image, Decode, Cells, Labels, WellFormed;
    var p := Source(a);
    SourceWellFormed(a);
    SourceIs(a, HELLO);
    SourceIs(a, READY);
    Assembles(p);
    WordAt(p, HELLO, 7);
    CodeStarts(a);
    TextStarts(a);
    var off := Distance(p, HELLO, 7, READY) + 4;
    assert InstrAt(p, HELLO, 7) == AluImm(ADD, A0, A0, off);
    AddiImmediate(A0, A0, off);
  }
}
