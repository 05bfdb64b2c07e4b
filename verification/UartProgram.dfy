/** The UART echo firmware: generate_uart_firmware as the sequence of words, labels and references it appends. */
module UartProgram {
  import opened Encoding
  import opened Assembler
  import opened Layout
  import opened Listing
  import opened Machine

  /** The generator's arguments. */
  datatype Params = Params(uart: int, ident: string)

  // The labels, in program order.
  const ENTRY: Label := 0
  const ECHO: Label := 1
  const TX_WAIT: Label := 2
  const PUTSTR: Label := 3
  const PUTSTR_TX: Label := 4
  const PUTSTR_RET: Label := 5
  const BANNER: Label := 6
  const IDENT: Label := 7
  const PROMPT: Label := 8
  const SECTIONS: nat := 9

  function CodeOf(a: Params, k: Label): seq<Op> {
    if k == ENTRY then
      [LoadHigh(S0, a.uart), LoadLow(S0, a.uart),
       AuipcOf(A0, BANNER), AddiOf(A0, BANNER), Call(PUTSTR),
       AuipcOf(A0, IDENT), AddiOf(A0, IDENT), Call(PUTSTR),
       AuipcOf(A0, PROMPT), AddiOf(A0, PROMPT), Call(PUTSTR)]
    else if k == ECHO then
      [Lw(T0, S0, 8), Bne(T0, ZERO, ECHO), Lw(A0, S0, 0), Addi(T0, ZERO, 2), Sw(T0, S0, 16)]
    else if k == TX_WAIT then
      [Lw(T0, S0, 4), Bne(T0, ZERO, TX_WAIT), Sw(A0, S0, 0), Jump(ECHO)]
    else if k == PUTSTR then
      [Do(Load(Byte, T0, A0, 0)), Beq(T0, ZERO, PUTSTR_RET)]
    else if k == PUTSTR_TX then
      [Lw(T1, S0, 4), Bne(T1, ZERO, PUTSTR_TX), Sw(T0, S0, 0), Addi(A0, A0, 1), Jump(PUTSTR)]
    else
      [Do(Jalr(ZERO, RA, 0))]
  }

  function TextOf(a: Params, k: Label): string {
    if k == BANNER then "\r\nLiteX custom firmware\r\n"
    else if k == IDENT then a.ident + "\r\n"
    else "litex> "
  }

  function SectionOf(a: Params, k: Label): Section {
    if k < BANNER then Code(k, CodeOf(a, k)) else Data(k, TextOf(a, k))
  }

  function Source(a: Params): Program {
    seq(SECTIONS, k requires 0 <= k < SECTIONS => SectionOf(a, k))
  }

  lemma SourceIs(a: Params, k: Label)
    requires k < SECTIONS
    ensures |Source(a)| == SECTIONS && Source(a)[k] == SectionOf(a, k)
  {
    hide SectionOf;
  }

  lemma OperandsAt(a: Params, k: Label)
    requires k < BANNER
    ensures AllOperandsOk(CodeOf(a, k), BANNER, SECTIONS)
  {
    hide SplitImm32;
    SplitImm32Reconstructs(a.uart, S0);
  }

  // ---- where the sections are ----

  /** The words of section k. */
  function Size(a: Params, k: Label): nat {
    if k < BANNER then |CodeOf(a, k)| else |TextOf(a, k)| / 4 + 1
  }

  lemma StartNext(a: Params, k: Label)
    requires k < SECTIONS
    ensures Start(Source(a), k + 1) == Start(Source(a), k) + Size(a, k)
  {
    hide CodeOf, TextOf, TextWords, OpCell, Source, Cells;
    SourceIs(a, k);
  }

  /** The code's places are fixed; the prompt moves with the ident's length. */
  lemma Starts(a: Params)
    ensures var p := Source(a);
            && Start(p, 0) == 0 && Start(p, BANNER) == 28 && Start(p, IDENT) == 35
            && Start(p, PROMPT) == 35 + (|a.ident| + 2) / 4 + 1
  {
    hide TextOf, Source, Start, Cells;
    assert Start(Source(a), 0) == 0 by { StartZero(a); }
    Sizes(a);
    StartNext(a, 0); StartNext(a, 1); StartNext(a, 2); StartNext(a, 3); StartNext(a, 4); StartNext(a, 5);
    StartNext(a, 6); StartNext(a, 7);
  }

  lemma StartZero(a: Params)
    ensures Start(Source(a), 0) == 0
  {}

  lemma Sizes(a: Params)
    ensures Size(a, 0) == 11 && Size(a, 1) == 5 && Size(a, 2) == 4 && Size(a, 3) == 2 && Size(a, 4) == 5
    ensures Size(a, 5) == 1 && Size(a, 6) == 7 && Size(a, 7) == (|a.ident| + 2) / 4 + 1
  {}

  // ---- every reference fits, exactly when the ident is short enough ----

  /** The longest ident after which the prompt is still within an ADDI's reach. */
  const IDENT_MAX: nat := 1933

  predicate IdentFits(ident: string) { |ident| <= IDENT_MAX }

  lemma StringReferences(a: Params, k: Label, j: nat)
    requires k < BANNER && j < |CodeOf(a, k)| && CodeOf(a, k)[j].AddiOf?
    ensures k == ENTRY && (j, CodeOf(a, k)[j].target) in {(3, BANNER), (6, IDENT), (9, PROMPT)}
  {}

  lemma InstrFits(a: Params, k: Label, j: nat)
    requires k < BANNER && j < |CodeOf(a, k)| && IdentFits(a.ident)
    ensures var p := Source(a); |p| == SECTIONS && p[k] == Code(k, CodeOf(a, k))
    ensures var p := Source(a); OpOk(p[k].ops[j], |p|) && Encodable(InstrAt(p, k, j))
  {
    hide CodeOf, TextOf, Source, Start, Cells, InstrAt, Encodable;
    SourceIs(a, k);
    SourceIs(a, BANNER);
    OperandsAt(a, k);
    assert OperandsOk(CodeOf(a, k)[j], BANNER, SECTIONS);
    Starts(a);
    if CodeOf(a, k)[j].AddiOf? {
      StringReferences(a, k, j);
    }
    Fits(Source(a), BANNER, k, j);
  }

  // ---- the generator ----

  lemma TextOfAscii(a: Params, k: Label)
    requires BANNER <= k < SECTIONS
    ensures Ascii(TextOf(a, k)) <==> k != IDENT || Ascii(a.ident)
  {
    LineAscii(a.ident);
  }

  lemma TextsOfSource(a: Params)
    ensures TextsAscii(Source(a), |Source(a)|) <==> Ascii(a.ident)
  {
    hide CodeOf, TextOf, Ascii;
    assert Source(a)[IDENT] == Data(IDENT, TextOf(a, IDENT));
    forall k | BANNER <= k < SECTIONS ensures Ascii(TextOf(a, k)) <==> k != IDENT || Ascii(a.ident) {
      TextOfAscii(a, k);
    }
  }

  lemma SourceWellFormed(a: Params)
    requires Ascii(a.ident)
    ensures WellFormed(Source(a))
  {
    hide CodeOf, TextOf, TextsAscii;
    TextsOfSource(a);
    forall k, j | 0 <= k < SECTIONS && Source(a)[k].Code? && 0 <= j < |Source(a)[k].ops|
      ensures OpOk(Source(a)[k].ops[j], SECTIONS)
    {
      OperandsAt(a, k);
      assert OperandsOk(CodeOf(a, k)[j], BANNER, SECTIONS);
    }
  }

  /** generate_uart_firmware: the image, or the error an ident that is not ASCII raises. */
  method GenerateUartFirmware(uart: int, ident: string) returns (r: Result)
    ensures r == Err(NotAscii) <==> !Ascii(ident)
    ensures Ascii(ident) ==>
              var p := Source(Params(uart, ident));
              AllResolvable(Cells(p, |p|), Labels(p, |p|)) && r == Ok(Image(p))
  {
    hide Source, Image, TextsAscii;
    var a := Params(uart, ident);
    TextsOfSource(a);
    if Ascii(ident) {
      SourceWellFormed(a);
      Assembles(Source(a));
    }
    r := Assemble(Source(a));
    match r
    case Ok(words) =>
    case Err(error) => assert error != BadSize;
  }

  /** With an ident that fits, every word of code decodes to the instruction its source line asks for. */
  lemma EveryReferenceFits(a: Params)
    requires Ascii(a.ident) && IdentFits(a.ident)
    ensures var p := Source(a);
            && WellFormed(p)
            && forall k, j | 0 <= k < |p| && p[k].Code? && 0 <= j < |p[k].ops| ::
                 OpOk(p[k].ops[j], |p|) && Encodable(InstrAt(p, k, j))
  {
    hide CodeOf, TextOf, InstrAt, Encodable, WellFormed;
    SourceWellFormed(a);
    var p := Source(a);
    forall k, j | 0 <= k < |p| && p[k].Code? && 0 <= j < |p[k].ops|
      ensures OpOk(p[k].ops[j], |p|) && Encodable(InstrAt(p, k, j))
    {
      InstrFits(a, k, j);
    }
  }

  /** The bound is exact: the prompt's address is right if and only if the ident has at most 1933 characters. */
  lemma IdentBoundIsExact(a: Params, origin: nat)
    requires Ascii(a.ident)
    ensures var p := Source(a); var at := Start(p, ENTRY) + 9;
            && WellFormed(p) && AllResolvable(Cells(p, |p|), Labels(p, |p|)) && at < |Image(p)|
            && Decode(Image(p)[at]).AluImm?
            && (Address(p, origin, ENTRY, 8) + Decode(Image(p)[at]).imm == Address(p, origin, PROMPT, 0)
                <==> IdentFits(a.ident))
  {
    hide Source, Start, Image, Decode, Cells, Labels, WellFormed;
    var p := Source(a);
    SourceWellFormed(a);
    SourceIs(a, ENTRY);
    SourceIs(a, PROMPT);
    Assembles(p);
    WordAt(p, ENTRY, 9);
    Starts(a);
    var off := Distance(p, ENTRY, 9, PROMPT) + 4;
    assert InstrAt(p, ENTRY, 9) == AluImm(ADD, A0, A0, off);
    AddiImmediate(A0, A0, off);
  }
}
