/** The generated SPI flash firmware from reset to its end: what it asks the flash, and what it says. */
module SpiReport {
  import opened Bits
  import opened Encoding
  import opened Assembler
  import opened Layout
  import opened Listing
  import opened Machine
  import opened Console
  import opened Print
  import opened SpiSlave
  import opened SpiProgram
  import opened SpiRun

  // ---- printing ----

  lemma PutstrCode(f: Firmware, a: Params)
    requires Loaded(f) && f.p == Source(a)
    ensures PutstrAt(f, PUTSTR)
  {
    hide Loaded, OpAt, Source;
    CodeAt(f, a, PUTSTR, 0); CodeAt(f, a, PUTSTR, 1); CodeAt(f, a, PUTSTR_TX, 0); CodeAt(f, a, PUTSTR_TX, 1);
    CodeAt(f, a, PUTSTR_TX, 2); CodeAt(f, a, PUTSTR_TX, 3); CodeAt(f, a, PUTSTR_TX, 4); CodeAt(f, a, PUTSTR_RET, 0);
  }

  lemma RunPuts(f: Firmware, a: Params, answer: Answering, s0: State, s: State, k: Label, j: nat, d: Label)
    returns (t: State)
    requires Setup(f, a, answer) && Fair(f.env) && Reaches(f.env, s0, s) && BaseSet(f, s) && |f.p| == SECTIONS
    requires k < BANNER <= d < SECTIONS && j + 2 < |CodeOf(a, k)| && s.pc == At(f, k, j)
    requires CodeOf(a, k)[j] == AuipcOf(A0, d) && CodeOf(a, k)[j + 1] == AddiOf(A0, d)
    requires CodeOf(a, k)[j + 2] == Call(PUTSTR)
    ensures Reaches(f.env, s0, t) && BaseSet(f, t) && t.pc == At(f, k, j + 3)
    ensures Kept(s, t, {RA, T0, T1, A0}) && t.bus == s.bus && t.popped == s.popped
    ensures t.sent == s.sent + Printed(TextOf(a, d))
  {
    hide Loaded, Reaches, At, Get, OpAt, Source, CodeOf, PutstrAt, TextOf, Printed, IsFlash;
    CodeAt(f, a, k, j); CodeAt(f, a, k, j + 1); CodeAt(f, a, k, j + 2);
    TextAt(f, a, d);
    PutstrCode(f, a);
    t := Puts(f, s0, s, k, j, d, PUTSTR);
  }

  lemma PuthexCode(f: Firmware, a: Params)
    requires Loaded(f) && f.p == Source(a)
    ensures |f.p| == SECTIONS && f.p[PUTHEX].Code? && |f.p[PUTHEX].ops| == 8
    ensures f.p[PUTHEX_TX1].Code? && |f.p[PUTHEX_TX1].ops| == 6
    ensures f.p[HEX] == Data(HEX, "0123456789ABCDEF")
    ensures OpAt(f, PUTHEX, 0, Addi(S5, RA, 0)) && OpAt(f, PUTHEX, 1, Addi(T2, A0, 0))
    ensures OpAt(f, PUTHEX, 2, AuipcOf(T3, HEX))
    ensures OpAt(f, PUTHEX, 3, AddiOf(T3, HEX)) && OpAt(f, PUTHEX, 4, Do(AluImm(SRL, A0, T2, 4)))
    ensures OpAt(f, PUTHEX, 5, Do(AluImm(AND, A0, A0, 0xF))) && OpAt(f, PUTHEX, 6, Do(Alu(ADD, A0, T3, A0)))
    ensures OpAt(f, PUTHEX, 7, Do(Load(Byte, A0, A0, 0)))
    ensures OpAt(f, PUTHEX_TX1, 0, Lw(T1, S0, 4)) && OpAt(f, PUTHEX_TX1, 1, Bne(T1, ZERO, PUTHEX_TX1))
    ensures OpAt(f, PUTHEX_TX1, 2, Sw(A0, S0, 0)) && OpAt(f, PUTHEX_TX1, 3, Do(AluImm(AND, A0, T2, 0xF)))
    ensures OpAt(f, PUTHEX_TX1, 4, Do(Alu(ADD, A0, T3, A0))) && OpAt(f, PUTHEX_TX1, 5, Do(Load(Byte, A0, A0, 0)))
    ensures OpAt(f, PUTHEX_TX2, 0, Lw(T1, S0, 4)) && OpAt(f, PUTHEX_TX2, 1, Bne(T1, ZERO, PUTHEX_TX2))
    ensures OpAt(f, PUTHEX_TX2, 2, Sw(A0, S0, 0)) && OpAt(f, PUTHEX_TX2, 3, Addi(RA, S5, 0))
    ensures OpAt(f, PUTHEX_TX2, 4, Do(Jalr(ZERO, RA, 0)))
  {
    hide Loaded, OpAt, Source;
    TextAt(f, a, HEX);
    CodeAt(f, a, PUTHEX, 0); CodeAt(f, a, PUTHEX, 1); CodeAt(f, a, PUTHEX, 2); CodeAt(f, a, PUTHEX, 3);
    CodeAt(f, a, PUTHEX, 4); CodeAt(f, a, PUTHEX, 5); CodeAt(f, a, PUTHEX, 6); CodeAt(f, a, PUTHEX, 7);
    CodeAt(f, a, PUTHEX_TX1, 0); CodeAt(f, a, PUTHEX_TX1, 1); CodeAt(f, a, PUTHEX_TX1, 2); CodeAt(f, a, PUTHEX_TX1, 3);
    CodeAt(f, a, PUTHEX_TX1, 4); CodeAt(f, a, PUTHEX_TX1, 5); CodeAt(f, a, PUTHEX_TX2, 0); CodeAt(f, a, PUTHEX_TX2, 1);
    CodeAt(f, a, PUTHEX_TX2, 2); CodeAt(f, a, PUTHEX_TX2, 3); CodeAt(f, a, PUTHEX_TX2, 4);
  }

  lemma Nibbles(v: nat)
    requires v < 0x100
    ensures AluValue(AND, AluValue(SRL, v, Wrap(4)), Wrap(0xF)) == v / 0x10 < 0x10
    ensures AluValue(AND, v, Wrap(0xF)) == v % 0x10
  {
    hide And, Shr;
    assert Pow2(4) == 0x10;
    ShrValue(v, 4);
    AndMask(v / 0x10, 4);
    AndMask(v, 4);
  }

  lemma HexTwo(v: nat)
    requires v < 0x100
    ensures Hex(v, 2) == [HexDigit(v / 0x10), HexDigit(v % 0x10)]
  {
    hide HexDigit;
    assert Hex(v / 0x10, 1) == Hex(v / 0x10 / 0x10, 0) + [HexDigit(v / 0x10)];
  }

  /** A digit's address in T3's table, and the digit loaded. */
  lemma LoadDigit(f: Firmware, a: Params, s0: State, s: State, k: Label, j: nat, d: nat) returns (t: State)
    requires Loaded(f) && f.p == Source(a) && Reaches(f.env, s0, s) && Ready(f, s) && |f.p| == SECTIONS
    requires (k == PUTHEX && j == 6) || (k == PUTHEX_TX1 && j == 4)
    requires s.pc == At(f, k, j) && Get(s, T3) == At(f, HEX, 0) && Get(s, A0) == d < 0x10
    ensures Reaches(f.env, s0, t) && Ready(f, t) && t.pc == At(f, k, j + 2) && Get(t, A0) == HexDigit(d)
    ensures Kept(s, t, {A0}) && Silent(s, t)
  {
    hide Loaded, Reaches, At, Get, OpAt, Source, AluValue, RomByte, HexDigit;
    PuthexCode(f, a);
    DigitByte(f, HEX, d);
    AddIs(At(f, HEX, 0), d);
    var s1 := GoAlu(f, s0, s, k, j, ADD, A0, T3, A0);
    t := GoLoadRomByte(f, s0, s1, k, j + 1, A0, A0);
  }

  /** puthex up to its first digit sent. */
  lemma PuthexHigh(f: Firmware, a: Params, s0: State, s: State, v: nat) returns (t: State)
    requires Loaded(f) && Fair(f.env) && f.p == Source(a) && Reaches(f.env, s0, s) && Ready(f, s) && |f.p| == SECTIONS
    requires s.pc == At(f, PUTHEX, 0) && Get(s, A0) == v < 0x100
    ensures Reaches(f.env, s0, t) && Ready(f, t) && t.pc == At(f, PUTHEX_TX1, 3)
    ensures Get(t, S5) == Get(s, RA) && Get(t, T2) == v && Get(t, T3) == At(f, HEX, 0)
    ensures Kept(s, t, {A0, T1, T2, T3, S5}) && t.bus == s.bus && t.popped == s.popped
    ensures t.sent == s.sent + [HexDigit(v / 0x10)]
  {
    hide Loaded, Reaches, At, Get, OpAt, Source, AluValue, Wrap;
    PuthexCode(f, a);
    Nibbles(v);
    MoveAddZero(Get(s, RA));
    var s1 := GoAddImm(f, s0, s, PUTHEX, 0, S5, RA, 0);
    MoveAddZero(v);
    var s2 := GoAddImm(f, s0, s1, PUTHEX, 1, T2, A0, 0);
    var s3 := GoAddress(f, s0, s2, PUTHEX, 2, T3, HEX);
    var s4 := GoAluImm(f, s0, s3, PUTHEX, 4, SRL, A0, T2, 4);
    var s5 := GoAluImm(f, s0, s4, PUTHEX, 5, AND, A0, A0, 0xF);
    var s6 := LoadDigit(f, a, s0, s5, PUTHEX, 6, v / 0x10);
    FallsThrough(f, PUTHEX);
    var s7 := WaitForRoomHere(f, s0, s6, PUTHEX_TX1, T1);
    t := GoSend(f, s0, s7, PUTHEX_TX1, 2, A0);
  }

  /** puthex sends a byte as two hex digits, and returns. */
  lemma RunPuthex(f: Firmware, a: Params, s0: State, s: State, v: nat) returns (t: State)
    requires Loaded(f) && Fair(f.env) && f.p == Source(a) && Reaches(f.env, s0, s) && Ready(f, s) && |f.p| == SECTIONS
    requires s.pc == At(f, PUTHEX, 0) && Get(s, A0) == v < 0x100 && Get(s, RA) % 4 == 0
    ensures Reaches(f.env, s0, t) && Ready(f, t) && t.pc == Get(s, RA)
    ensures Kept(s, t, {RA, A0, T1, T2, T3, S5}) && t.bus == s.bus && t.popped == s.popped
    ensures t.sent == s.sent + Hex(v, 2)
  {
    hide Loaded, Reaches, At, Get, OpAt, Source, AluValue, Wrap, HexDigit, Hex;
    PuthexCode(f, a);
    Nibbles(v);
    HexTwo(v);
    var s1 := PuthexHigh(f, a, s0, s, v);
    var s2 := GoAluImm(f, s0, s1, PUTHEX_TX1, 3, AND, A0, T2, 0xF);
    var s3 := LoadDigit(f, a, s0, s2, PUTHEX_TX1, 4, v % 0x10);
    FallsThrough(f, PUTHEX_TX1);
    var s4 := WaitForRoomHere(f, s0, s3, PUTHEX_TX2, T1);
    DigitIsByte(v % 0x10);
    var s5 := GoSend(f, s0, s4, PUTHEX_TX2, 2, A0);
    MoveAddZero(Get(s5, S5));
    var s6 := GoAddImm(f, s0, s5, PUTHEX_TX2, 3, RA, S5, 0);
    t := GoReturn(f, s0, s6, PUTHEX_TX2, 4);
    assert t.sent == s.sent + [HexDigit(v / 0x10), HexDigit(v % 0x10)];
  }

  lemma DigitIsByte(d: nat)
    requires d < 0x10
    ensures HexDigit(d) % 0x100 == HexDigit(d)
  {}

  // ---- from reset to the flash ----

  lemma EntryCode(f: Firmware, a: Params)
    requires Loaded(f) && f.p == Source(a)
    ensures |f.p| == SECTIONS && f.p[ENTRY].Code? && |f.p[ENTRY].ops| == 5 && f.p[DELAY].Code? && |f.p[DELAY].ops| == 2
    ensures OpAt(f, ENTRY, 0, LoadHigh(S0, a.uart)) && OpAt(f, ENTRY, 1, LoadLow(S0, a.uart))
    ensures OpAt(f, ENTRY, 2, LoadHigh(S1, a.flash)) && OpAt(f, ENTRY, 3, LoadLow(S1, a.flash))
    ensures OpAt(f, ENTRY, 4, Do(Lui(T0, 0x40)))
    ensures OpAt(f, DELAY, 0, Addi(T0, T0, -1)) && OpAt(f, DELAY, 1, Bne(T0, ZERO, DELAY))
  {
    hide Loaded, OpAt, Source, SplitImm32;
    CodeAt(f, a, ENTRY, 0); CodeAt(f, a, ENTRY, 1); CodeAt(f, a, ENTRY, 2); CodeAt(f, a, ENTRY, 3);
    CodeAt(f, a, ENTRY, 4); CodeAt(f, a, DELAY, 0); CodeAt(f, a, DELAY, 1);
  }

  lemma RunEntry(f: Firmware, a: Params, answer: Answering, s: State) returns (t: State)
    requires Setup(f, a, answer) && AtReset(f, s)
    ensures |f.p| == SECTIONS && Reaches(f.env, s, t) && BaseSet(f, t) && t.pc == At(f, DELAY, 0)
    ensures Get(t, T0) == 0x4_0000 && Silent(s, t)
  {
    hide Loaded, Reaches, Get, Source, SplitImm32, Cells, OpAt, IsFlash;
    EntryCode(f, a);
    LoadedIsSound(f);
    BasesAreWords(f, answer);
    ReachesItself(f.env, s);
    assert s.pc == At(f, ENTRY, 0);
    WrapSmall(a.uart);
    WrapSmall(a.flash);
    var s1 := RunLoad(f, s, s, ENTRY, 0, S0, a.uart);
    var s2 := RunLoad(f, s, s1, ENTRY, 2, S1, a.flash);
    WrapSmall(0x40 * 0x1000);
    t := GoLui(f, s, s2, ENTRY, 4, T0, 0x40);
    FallsThrough(f, ENTRY);
  }

  lemma BasesAreWords(f: Firmware, answer: Answering)
    requires Sound(f.env) && IsFlash(f.env, answer)
    ensures f.env.uart < WORD_LIMIT && f.env.device < WORD_LIMIT
  {}

  /** The transmit line idles until the count is down. */
  lemma RunDelay(f: Firmware, a: Params, answer: Answering, s0: State, s: State, n: nat) returns (t: State)
    requires Setup(f, a, answer) && Reaches(f.env, s0, s) && BaseSet(f, s) && |f.p| == SECTIONS
    requires s.pc == At(f, DELAY, 0)
    requires Get(s, T0) == n + 1
    ensures Reaches(f.env, s0, t) && BaseSet(f, t) && t.pc == At(f, HELLO, 0) && Silent(s, t)
    decreases n
  {
    hide Loaded, Reaches, At, Get, OpAt, Source, IsFlash;
    EntryCode(f, a);
    CountDown(n);
    var s1 := GoAddImm(f, s0, s, DELAY, 0, T0, T0, -1);
    ZeroIsZero(s1);
    var s2 := GoBranch(f, s0, s1, DELAY, 1, false, T0, ZERO, DELAY);
    if n > 0 {
      t := RunDelay(f, a, answer, s0, s2, n - 1);
    } else {
      t := s2;
      FallsThrough(f, DELAY);
    }
  }

  function Greeting(ident: string): seq<nat> { Printed("\r\nLiteX custom firmware\r\n") + Printed(ident + "\r\n") }

  lemma HelloCode(a: Params)
    ensures |CodeOf(a, HELLO)| == 7 && CodeOf(a, HELLO)[0] == AuipcOf(A0, BANNER)
    ensures CodeOf(a, HELLO)[1] == AddiOf(A0, BANNER)
    ensures CodeOf(a, HELLO)[2] == Call(PUTSTR) && CodeOf(a, HELLO)[3] == AuipcOf(A0, IDENT)
    ensures CodeOf(a, HELLO)[4] == AddiOf(A0, IDENT) && CodeOf(a, HELLO)[5] == Call(PUTSTR)
    ensures CodeOf(a, HELLO)[6] == Addi(T2, ZERO, 8)
    ensures TextOf(a, BANNER) == "\r\nLiteX custom firmware\r\n" && TextOf(a, IDENT) == a.ident + "\r\n"
  {}

  lemma RunHello(f: Firmware, a: Params, answer: Answering, s0: State, s: State) returns (t: State)
    requires Setup(f, a, answer) && Fair(f.env) && Reaches(f.env, s0, s) && BaseSet(f, s) && |f.p| == SECTIONS
    requires s.pc == At(f, HELLO, 0)
    ensures Reaches(f.env, s0, t) && BaseSet(f, t) && t.pc == At(f, IDLE_CLOCKS, 0) && Get(t, T2) == 8
    ensures t.bus == s.bus && t.sent == s.sent + Greeting(a.ident)
  {
    hide Loaded, Reaches, At, Get, OpAt, Source, Printed, CodeOf, TextOf, IsFlash;
    HelloCode(a);
    var s1 := RunPuts(f, a, answer, s0, s, HELLO, 0, BANNER);
    var s2 := RunPuts(f, a, answer, s0, s1, HELLO, 3, IDENT);
    CodeAt(f, a, HELLO, 6);
    ZeroIsZero(s2);
    t := GoAddImm(f, s0, s2, HELLO, 6, T2, ZERO, 8);
    FallsThrough(f, HELLO);
    assert t.sent == s.sent + Greeting(a.ident);
  }

  lemma IdleCode(f: Firmware, a: Params)
    requires Loaded(f) && f.p == Source(a)
    ensures |f.p| == SECTIONS && f.p[IDLE_CLOCKS].Code? && |f.p[IDLE_CLOCKS].ops| == 6
    ensures OpAt(f, IDLE_CLOCKS, 0, Addi(T0, ZERO, 6)) && OpAt(f, IDLE_CLOCKS, 1, Sw(T0, S1, 0))
    ensures OpAt(f, IDLE_CLOCKS, 2, Addi(T0, ZERO, 4)) && OpAt(f, IDLE_CLOCKS, 3, Sw(T0, S1, 0))
    ensures OpAt(f, IDLE_CLOCKS, 4, Addi(T2, T2, -1)) && OpAt(f, IDLE_CLOCKS, 5, Bne(T2, ZERO, IDLE_CLOCKS))
  {
    hide Loaded, OpAt, Source;
    CodeAt(f, a, IDLE_CLOCKS, 0); CodeAt(f, a, IDLE_CLOCKS, 1); CodeAt(f, a, IDLE_CLOCKS, 2);
    CodeAt(f, a, IDLE_CLOCKS, 3); CodeAt(f, a, IDLE_CLOCKS, 4); CodeAt(f, a, IDLE_CLOCKS, 5);
  }

  /** Not selected, and never was. */
  predicate Untouched(s: Slave) { s.wires.cs == 1 && s.finished == [] }

  lemma StaysUntouched(s: Slave, data: Word, answer: Answering)
    requires Untouched(s) && (data == 6 || data == 4)
    ensures Untouched(Next(s, WiresFrom(data), answer))
  {}

  /** The eight clocks with CS_N high: the flash takes none of them. */
  lemma RunIdle(f: Firmware, a: Params, answer: Answering, s0: State, s: State, n: nat) returns (t: State)
    requires Setup(f, a, answer) && Reaches(f.env, s0, s) && BaseSet(f, s) && |f.p| == SECTIONS
    requires s.pc == At(f, IDLE_CLOCKS, 0)
    requires Get(s, T2) == n + 1 && Untouched(FlashAfter(s.bus, f.env.device, answer))
    ensures Reaches(f.env, s0, t) && BaseSet(f, t) && t.pc == At(f, ASK, 0) && t.sent == s.sent
    ensures Untouched(FlashAfter(t.bus, f.env.device, answer))
    decreases n
  {
    hide Loaded, Reaches, At, Get, OpAt, Source, IsFlash, FlashAfter, Next, WiresFrom, Untouched;
    IdleCode(f, a);
    LoadedIsSound(f);
    FirstCsr(f, answer);
    CountDown(n);
    ZeroIsZero(s);
    var s1 := GoAddImm(f, s0, s, IDLE_CLOCKS, 0, T0, ZERO, 6);
    var s2 := GoStoreDevice(f, s0, s1, IDLE_CLOCKS, 1, T0, S1, 0);
    ZeroIsZero(s2);
    var s3 := GoAddImm(f, s0, s2, IDLE_CLOCKS, 2, T0, ZERO, 4);
    var s4 := GoStoreDevice(f, s0, s3, IDLE_CLOCKS, 3, T0, S1, 0);
    AfterWriteTo(s.bus, f.env.device, 6, answer);
    AfterWriteTo(s2.bus, f.env.device, 4, answer);
    StaysUntouched(FlashAfter(s.bus, f.env.device, answer), 6, answer);
    StaysUntouched(FlashAfter(s2.bus, f.env.device, answer), 4, answer);
    var s5 := GoAddImm(f, s0, s4, IDLE_CLOCKS, 4, T2, T2, -1);
    ZeroIsZero(s5);
    var s6 := GoBranch(f, s0, s5, IDLE_CLOCKS, 5, false, T2, ZERO, IDLE_CLOCKS);
    if n > 0 {
      t := RunIdle(f, a, answer, s0, s6, n - 1);
    } else {
      t := s6;
      FallsThrough(f, IDLE_CLOCKS);
    }
  }

  // ---- the question ----

  lemma AskCode(f: Firmware, a: Params)
    requires Loaded(f) && f.p == Source(a)
    ensures |f.p| == SECTIONS && f.p[ASK].Code? && |f.p[ASK].ops| == 14
    ensures OpAt(f, ASK, 0, Sw(ZERO, S1, 0)) && OpAt(f, ASK, 1, Addi(A0, ZERO, 0x9F)) && OpAt(f, ASK, 2, Call(XFER))
    ensures OpAt(f, ASK, 3, Addi(A0, ZERO, 0)) && OpAt(f, ASK, 4, Call(XFER)) && OpAt(f, ASK, 5, Addi(S2, A0, 0))
    ensures OpAt(f, ASK, 6, Addi(A0, ZERO, 0)) && OpAt(f, ASK, 7, Call(XFER)) && OpAt(f, ASK, 8, Addi(S3, A0, 0))
    ensures OpAt(f, ASK, 9, Addi(A0, ZERO, 0)) && OpAt(f, ASK, 10, Call(XFER)) && OpAt(f, ASK, 11, Addi(S4, A0, 0))
    ensures OpAt(f, ASK, 12, Addi(T0, ZERO, 4)) && OpAt(f, ASK, 13, Sw(T0, S1, 0))
  {
    hide Loaded, OpAt, Source;
    CodeAt(f, a, ASK, 0); CodeAt(f, a, ASK, 1); CodeAt(f, a, ASK, 2); CodeAt(f, a, ASK, 3); CodeAt(f, a, ASK, 4);
    CodeAt(f, a, ASK, 5); CodeAt(f, a, ASK, 6); CodeAt(f, a, ASK, 7); CodeAt(f, a, ASK, 8); CodeAt(f, a, ASK, 9);
    CodeAt(f, a, ASK, 10); CodeAt(f, a, ASK, 11); CodeAt(f, a, ASK, 12); CodeAt(f, a, ASK, 13);
  }

  /** The first transaction, its first n bits taken. */
  predicate Asked(s: Slave, n: nat, answer: Answering) {
    Waiting(s, answer) && s.finished == [] && s.bits == Intended(0x9F, n)
  }

  lemma AskStarts(s: Slave, answer: Answering)
    requires Untouched(s)
    ensures Asked(Next(s, WiresFrom(0), answer), 0, answer)
  {}

  lemma AskedOpcode(was: Slave, now: Slave, answer: Answering)
    requires Asked(was, 0, answer) && Waiting(now, answer) && now.finished == was.finished
    requires now.bits == was.bits + ToBits(0x9F)
    ensures Asked(now, 8, answer)
  {
    hide Bit;
    IntendedOpcode(0x9F);
  }

  lemma AskedMore(was: Slave, now: Slave, j: nat, answer: Answering)
    requires j >= 1 && Asked(was, 8 * j, answer) && Waiting(now, answer)
    requires now.finished == was.finished && now.bits == was.bits + ToBits(0)
    ensures Asked(now, 8 * (j + 1), answer) && Given(answer, was, 0) == AnswerByte(answer, 0, 0x9F, j)
  {
    hide Bit, FromBits, Intended;
    IntendedZeros(0x9F, 8 * j, 8);
    assert ToBits(0)[..8] == ToBits(0);
    forall m | 0 <= m < 8 ensures was.bits + ToBits(0)[..m] == Intended(0x9F, 8 * j + m) {
      IntendedZeros(0x9F, 8 * j, m);
    }
    assert seq<Level>(8, m requires 0 <= m < 8 => answer(|was.finished|, was.bits + ToBits(0)[..m]))
        == seq<Level>(8, m requires 0 <= m < 8 => answer(0, Intended(0x9F, 8 * j + m)));
  }

  /** CS low, and the opcode. */
  lemma RunOpcode(f: Firmware, a: Params, answer: Answering, s0: State, s: State) returns (t: State)
    requires Setup(f, a, answer) && Reaches(f.env, s0, s) && BaseSet(f, s) && |f.p| == SECTIONS && s.pc == At(f, ASK, 0)
    requires Untouched(FlashAfter(s.bus, f.env.device, answer))
    ensures Reaches(f.env, s0, t) && BaseSet(f, t) && t.pc == At(f, ASK, 3) && t.sent == s.sent
    ensures Asked(FlashAfter(t.bus, f.env.device, answer), 8, answer)
  {
    hide Loaded, Reaches, At, Get, OpAt, Source, IsFlash, FlashAfter, Next, WiresFrom, Untouched, Given, Intended, Bit;
    AskCode(f, a);
    LoadedIsSound(f);
    FirstCsr(f, answer);
    ZeroIsZero(s);
    var s1 := GoStoreDevice(f, s0, s, ASK, 0, ZERO, S1, 0);
    AfterWriteTo(s.bus, f.env.device, 0, answer);
    AskStarts(FlashAfter(s.bus, f.env.device, answer), answer);
    ZeroIsZero(s1);
    var s2 := GoAddImm(f, s0, s1, ASK, 1, A0, ZERO, 0x9F);
    var s3 := GoCall(f, s0, s2, ASK, 2, XFER);
    t := Xfer(f, a, answer, s0, s3, 0x9F);
    AskedOpcode(FlashAfter(s3.bus, f.env.device, answer), FlashAfter(t.bus, f.env.device, answer), answer);
  }

  /** One byte of the answer, into its register. */
  lemma RunAnswer(f: Firmware, a: Params, answer: Answering, s0: State, s: State, j: nat, r: nat) returns (t: State)
    requires Setup(f, a, answer) && Reaches(f.env, s0, s) && BaseSet(f, s) && |f.p| == SECTIONS
    requires (j, r) in {(1, S2), (2, S3), (3, S4)} && s.pc == At(f, ASK, 3 * j)
    requires Asked(FlashAfter(s.bus, f.env.device, answer), 8 * j, answer)
    ensures Reaches(f.env, s0, t) && BaseSet(f, t) && t.pc == At(f, ASK, 3 * j + 3) && t.sent == s.sent
    ensures Asked(FlashAfter(t.bus, f.env.device, answer), 8 * (j + 1), answer)
    ensures Kept(s, t, {RA, A0, A1, T0, T1, T2, r}) && Get(t, r) == AnswerByte(answer, 0, 0x9F, j) < 0x100
  {
    hide Loaded, Reaches, At, Get, OpAt, Source, IsFlash, FlashAfter, Given, Intended, Bit, AnswerByte, Wrap;
    AskCode(f, a);
    ZeroIsZero(s);
    MoveAddZero(0);
    var s1 := GoAddImm(f, s0, s, ASK, 3 * j, A0, ZERO, 0);
    var s2 := GoCall(f, s0, s1, ASK, 3 * j + 1, XFER);
    var s3 := Xfer(f, a, answer, s0, s2, 0);
    AskedMore(FlashAfter(s2.bus, f.env.device, answer), FlashAfter(s3.bus, f.env.device, answer), j, answer);
    MoveAddZero(Get(s3, A0));
    t := GoAddImm(f, s0, s3, ASK, 3 * j + 2, r, A0, 0);
  }

  /** The three bytes the flash answers. */
  function Id(answer: Answering): (r: seq<nat>)
    ensures |r| == 3
  {
    Answers(answer, 0, 0x9F, 0, 3)
  }

  predicate IdIn(s: State, answer: Answering) {
    && Get(s, S2) == Id(answer)[0] < 0x100 && Get(s, S3) == Id(answer)[1] < 0x100 && Get(s, S4) == Id(answer)[2] < 0x100
  }

  lemma RunAsk(f: Firmware, a: Params, answer: Answering, s0: State, s: State) returns (t: State)
    requires Setup(f, a, answer) && Reaches(f.env, s0, s) && BaseSet(f, s) && |f.p| == SECTIONS && s.pc == At(f, ASK, 0)
    requires Untouched(FlashAfter(s.bus, f.env.device, answer))
    ensures Reaches(f.env, s0, t) && BaseSet(f, t) && t.pc == At(f, SHOW, 0) && t.sent == s.sent && IdIn(t, answer)
    ensures FlashAfter(t.bus, f.env.device, answer).finished == [Intended(0x9F, 32)]
    ensures FlashAfter(t.bus, f.env.device, answer).wires.cs == 1
  {
    hide Loaded, Reaches, At, Get, OpAt, Source, IsFlash, FlashAfter, Intended, AnswerByte, Untouched, Waiting, Next,
         WiresFrom;
    AskCode(f, a);
    LoadedIsSound(f);
    FirstCsr(f, answer);
    var s1 := RunOpcode(f, a, answer, s0, s);
    var s2 := RunAnswer(f, a, answer, s0, s1, 1, S2);
    var s3 := RunAnswer(f, a, answer, s0, s2, 2, S3);
    var s4 := RunAnswer(f, a, answer, s0, s3, 3, S4);
    ZeroIsZero(s4);
    var s5 := GoAddImm(f, s0, s4, ASK, 12, T0, ZERO, 4);
    t := GoStoreDevice(f, s0, s5, ASK, 13, T0, S1, 0);
    FallsThrough(f, ASK);
    AfterWriteTo(s5.bus, f.env.device, 4, answer);
    AskEnds(FlashAfter(s5.bus, f.env.device, answer), answer);
  }

  lemma AskEnds(s: Slave, answer: Answering)
    requires Asked(s, 32, answer)
    ensures Next(s, WiresFrom(4), answer).finished == [Intended(0x9F, 32)]
    ensures Next(s, WiresFrom(4), answer).wires.cs == 1
  {
    hide Intended;
  }

  // ---- the report ----

  lemma ShowIds(a: Params)
    ensures |CodeOf(a, SHOW)| == 21
    ensures CodeOf(a, SHOW)[0..5]
         == [AuipcOf(A0, JEDEC), AddiOf(A0, JEDEC), Call(PUTSTR), Addi(A0, S2, 0), Call(PUTHEX)]
    ensures CodeOf(a, SHOW)[5..10]
         == [AuipcOf(A0, SEPARATOR), AddiOf(A0, SEPARATOR), Call(PUTSTR), Addi(A0, S3, 0), Call(PUTHEX)]
    ensures CodeOf(a, SHOW)[10..15]
         == [AuipcOf(A0, SEPARATOR), AddiOf(A0, SEPARATOR), Call(PUTSTR), Addi(A0, S4, 0), Call(PUTHEX)]
  {}

  lemma ShowEnd(a: Params)
    ensures |CodeOf(a, SHOW)| == 21
    ensures CodeOf(a, SHOW)[15..18] == [AuipcOf(A0, CRLF), AddiOf(A0, CRLF), Call(PUTSTR)]
    ensures CodeOf(a, SHOW)[18..21] == [AuipcOf(A0, PREFIX), AddiOf(A0, PREFIX), Call(PUTSTR)]
  {}

  /** puts() of a string and puthex() of a byte. */
  lemma RunPutsHex(f: Firmware, a: Params, answer: Answering, s0: State, s: State, j: nat, d: Label, r: nat)
    returns (t: State)
    requires Setup(f, a, answer) && Fair(f.env) && Reaches(f.env, s0, s) && BaseSet(f, s) && |f.p| == SECTIONS
    requires s.pc == At(f, SHOW, j)
    requires j + 5 <= |CodeOf(a, SHOW)| && BANNER <= d < SECTIONS && r in {S2, S3, S4} && Get(s, r) < 0x100
    requires CodeOf(a, SHOW)[j..j + 5] == [AuipcOf(A0, d), AddiOf(A0, d), Call(PUTSTR), Addi(A0, r, 0), Call(PUTHEX)]
    ensures Reaches(f.env, s0, t) && BaseSet(f, t) && t.pc == At(f, SHOW, j + 5)
    ensures Kept(s, t, {RA, T0, T1, T2, T3, S5, A0}) && t.bus == s.bus
    ensures t.sent == s.sent + (Printed(TextOf(a, d)) + Hex(Get(s, r), 2))
  {
    hide Loaded, Reaches, At, Get, OpAt, Source, CodeOf, TextOf, Printed, Hex, Wrap, IsFlash;
    FiveWords(CodeOf(a, SHOW), j, AuipcOf(A0, d), AddiOf(A0, d), Call(PUTSTR), Addi(A0, r, 0), Call(PUTHEX));
    var s1 := RunPuts(f, a, answer, s0, s, SHOW, j, d);
    CodeAt(f, a, SHOW, j + 3); CodeAt(f, a, SHOW, j + 4);
    MoveAddZero(Get(s1, r));
    var s2 := GoAddImm(f, s0, s1, SHOW, j + 3, A0, r, 0);
    var s3 := GoCall(f, s0, s2, SHOW, j + 4, PUTHEX);
    t := RunPuthex(f, a, s0, s3, Get(s, r));
    assert s.sent + Printed(TextOf(a, d)) + Hex(Get(s, r), 2) == s.sent + (Printed(TextOf(a, d)) + Hex(Get(s, r), 2));
  }

  lemma FiveWords(ops: seq<Op>, j: nat, o0: Op, o1: Op, o2: Op, o3: Op, o4: Op)
    requires j + 5 <= |ops| && ops[j..j + 5] == [o0, o1, o2, o3, o4]
    ensures ops[j] == o0 && ops[j + 1] == o1 && ops[j + 2] == o2 && ops[j + 3] == o3 && ops[j + 4] == o4
  {
    var w := ops[j..j + 5];
    assert w[0] == o0 && w[1] == o1 && w[2] == o2 && w[3] == o3 && w[4] == o4;
  }

  lemma ThreeWords(ops: seq<Op>, j: nat, o0: Op, o1: Op, o2: Op)
    requires j + 3 <= |ops| && ops[j..j + 3] == [o0, o1, o2]
    ensures ops[j] == o0 && ops[j + 1] == o1 && ops[j + 2] == o2
  {
    var w := ops[j..j + 3];
    assert w[0] == o0 && w[1] == o1 && w[2] == o2;
  }

  lemma TextsAre(a: Params)
    ensures TextOf(a, JEDEC) == "JEDEC_ID: 0x" && TextOf(a, SEPARATOR) == " 0x" && TextOf(a, CRLF) == "\r\n"
    ensures TextOf(a, PREFIX) == "SPI_FLASH_TEST: " && TextOf(a, PASS_TEXT) == "PASS\r\n"
    ensures TextOf(a, FAIL_TEXT) == "FAIL\r\n" && TextOf(a, DONE_TEXT) == "Test Complete\r\n"
  {}

  /** The line with the ID, and what comes before the verdict. */
  function IdLine(id: seq<nat>): seq<nat>
    requires |id| == 3
  {
    (Printed("JEDEC_ID: 0x") + Hex(id[0], 2)) + (Printed(" 0x") + Hex(id[1], 2)) + (Printed(" 0x") + Hex(id[2], 2))
    + Printed("\r\n") + Printed("SPI_FLASH_TEST: ")
  }

  lemma RunIds(f: Firmware, a: Params, answer: Answering, s0: State, s: State) returns (t: State)
    requires Setup(f, a, answer) && Fair(f.env) && Reaches(f.env, s0, s) && BaseSet(f, s) && |f.p| == SECTIONS
    requires s.pc == At(f, SHOW, 0)
    requires IdIn(s, answer)
    ensures Reaches(f.env, s0, t) && BaseSet(f, t) && t.pc == At(f, SHOW, 15) && IdIn(t, answer) && t.bus == s.bus
    ensures var id := Id(answer);
            t.sent == s.sent + (Printed("JEDEC_ID: 0x") + Hex(id[0], 2)) + (Printed(" 0x") + Hex(id[1], 2))
                      + (Printed(" 0x") + Hex(id[2], 2))
  {
    hide Loaded, Reaches, At, Get, OpAt, Source, CodeOf, TextOf, Printed, Hex, IsFlash, Id;
    ShowIds(a);
    TextsAre(a);
    var s1 := RunPutsHex(f, a, answer, s0, s, 0, JEDEC, S2);
    var s2 := RunPutsHex(f, a, answer, s0, s1, 5, SEPARATOR, S3);
    t := RunPutsHex(f, a, answer, s0, s2, 10, SEPARATOR, S4);
  }

  lemma RunShow(f: Firmware, a: Params, answer: Answering, s0: State, s: State) returns (t: State)
    requires Setup(f, a, answer) && Fair(f.env) && Reaches(f.env, s0, s) && BaseSet(f, s) && |f.p| == SECTIONS
    requires s.pc == At(f, SHOW, 0)
    requires IdIn(s, answer)
    ensures Reaches(f.env, s0, t) && BaseSet(f, t) && t.pc == At(f, JUDGE, 0) && IdIn(t, answer) && t.bus == s.bus
    ensures t.sent == s.sent + IdLine(Id(answer))
  {
    hide Loaded, Reaches, At, Get, OpAt, Source, CodeOf, TextOf, Printed, Hex, IsFlash, Id;
    ShowEnd(a);
    TextsAre(a);
    var s3 := RunIds(f, a, answer, s0, s);
    ThreeWords(CodeOf(a, SHOW), 15, AuipcOf(A0, CRLF), AddiOf(A0, CRLF), Call(PUTSTR));
    var s4 := RunPuts(f, a, answer, s0, s3, SHOW, 15, CRLF);
    ThreeWords(CodeOf(a, SHOW), 18, AuipcOf(A0, PREFIX), AddiOf(A0, PREFIX), Call(PUTSTR));
    t := RunPuts(f, a, answer, s0, s4, SHOW, 18, PREFIX);
    CodeAt(f, a, SHOW, 0);
    FallsThrough(f, SHOW);
    assert t.sent == s.sent + IdLine(Id(answer));
  }

  // ---- the verdict ----

  predicate Plausible(id: seq<nat>) { id != [0, 0, 0] && id != [0xFF, 0xFF, 0xFF] }

  lemma JudgeCode(f: Firmware, a: Params)
    requires Loaded(f) && f.p == Source(a)
    ensures |f.p| == SECTIONS && f.p[JUDGE].Code? && |f.p[JUDGE].ops| == 7
    ensures OpAt(f, JUDGE, 0, Do(Alu(OR, T0, S2, S3))) && OpAt(f, JUDGE, 1, Do(Alu(OR, T0, T0, S4)))
    ensures OpAt(f, JUDGE, 2, Beq(T0, ZERO, FAIL)) && OpAt(f, JUDGE, 3, Addi(T1, ZERO, 0xFF))
    ensures OpAt(f, JUDGE, 4, Bne(S2, T1, PASS)) && OpAt(f, JUDGE, 5, Bne(S3, T1, PASS))
    ensures OpAt(f, JUDGE, 6, Bne(S4, T1, PASS))
  {
    hide Loaded, OpAt, Source;
    CodeAt(f, a, JUDGE, 0); CodeAt(f, a, JUDGE, 1); CodeAt(f, a, JUDGE, 2); CodeAt(f, a, JUDGE, 3);
    CodeAt(f, a, JUDGE, 4); CodeAt(f, a, JUDGE, 5); CodeAt(f, a, JUDGE, 6);
  }

  lemma {:induction false} OrIsZero(x: nat, y: nat)
    ensures Or(x, y) == 0 <==> x == 0 && y == 0
    decreases x + y
  {
    if x != 0 || y != 0 {
      OrIsZero(x / 2, y / 2);
    }
  }

  lemma OrOfBytes(x: nat, y: nat)
    requires x < 0x100 && y < 0x100
    ensures AluValue(OR, x, y) == Or(x, y) < 0x100
  {
    hide Or;
    assert Pow2(8) == 0x100;
    Bounded(x, y, 8);
  }

  lemma AllZero(m: nat, t: nat, c: nat)
    requires m < 0x100 && t < 0x100 && c < 0x100
    ensures AluValue(OR, AluValue(OR, m, t), c) == 0 <==> m == 0 && t == 0 && c == 0
  {
    hide AluValue, Or;
    OrOfBytes(m, t);
    OrOfBytes(Or(m, t), c);
    OrIsZero(m, t);
    OrIsZero(Or(m, t), c);
  }

  lemma RunJudge(f: Firmware, a: Params, answer: Answering, s0: State, s: State) returns (t: State)
    requires Setup(f, a, answer) && Reaches(f.env, s0, s) && BaseSet(f, s) && |f.p| == SECTIONS
    requires s.pc == At(f, JUDGE, 0)
    requires IdIn(s, answer)
    ensures Reaches(f.env, s0, t) && BaseSet(f, t) && t.bus == s.bus && t.sent == s.sent
    ensures t.pc == if Plausible(Id(answer)) then At(f, PASS, 0) else At(f, FAIL, 0)
  {
    hide Loaded, Reaches, At, Get, OpAt, Source, IsFlash, Id, AluValue;
    JudgeCode(f, a);
    var id := Id(answer);
    assert id == [id[0], id[1], id[2]];
    AllZero(id[0], id[1], id[2]);
    var s1 := GoAlu(f, s0, s, JUDGE, 0, OR, T0, S2, S3);
    var s2 := GoAlu(f, s0, s1, JUDGE, 1, OR, T0, T0, S4);
    ZeroIsZero(s2);
    t := GoBranch(f, s0, s2, JUDGE, 2, true, T0, ZERO, FAIL);
    if id != [0, 0, 0] {
      ZeroIsZero(t);
      var s4 := GoAddImm(f, s0, t, JUDGE, 3, T1, ZERO, 0xFF);
      t := GoBranch(f, s0, s4, JUDGE, 4, false, S2, T1, PASS);
      if id[0] == 0xFF {
        t := GoBranch(f, s0, t, JUDGE, 5, false, S3, T1, PASS);
        if id[1] == 0xFF {
          t := GoBranch(f, s0, t, JUDGE, 6, false, S4, T1, PASS);
          FallsThrough(f, JUDGE);
        }
      }
    }
  }

  lemma VerdictCode(a: Params)
    ensures CodeOf(a, FAIL) == [AuipcOf(A0, FAIL_TEXT), AddiOf(A0, FAIL_TEXT), Call(PUTSTR), Jump(DONE)]
    ensures CodeOf(a, PASS) == [AuipcOf(A0, PASS_TEXT), AddiOf(A0, PASS_TEXT), Call(PUTSTR)]
    ensures CodeOf(a, DONE) == [AuipcOf(A0, DONE_TEXT), AddiOf(A0, DONE_TEXT), Call(PUTSTR)]
    ensures CodeOf(a, HALT) == [Jump(HALT)]
  {}

  function Verdict(id: seq<nat>): seq<nat> {
    Printed(if Plausible(id) then "PASS\r\n" else "FAIL\r\n") + Printed("Test Complete\r\n")
  }

  lemma RunVerdict(f: Firmware, a: Params, answer: Answering, s0: State, s: State) returns (t: State)
    requires Setup(f, a, answer) && Fair(f.env) && Reaches(f.env, s0, s) && BaseSet(f, s) && |f.p| == SECTIONS
    requires s.pc == At(f, JUDGE, 0)
    requires IdIn(s, answer)
    ensures Reaches(f.env, s0, t) && BaseSet(f, t) && t.pc == At(f, HALT, 0) && t.bus == s.bus
    ensures t.sent == s.sent + Verdict(Id(answer))
  {
    hide Loaded, Reaches, At, Get, OpAt, Source, CodeOf, TextOf, Printed, IsFlash, Id, Plausible, IdIn;
    VerdictCode(a);
    TextsAre(a);
    var s1 := RunJudge(f, a, answer, s0, s);
    var s2;
    if Plausible(Id(answer)) {
      s2 := RunPuts(f, a, answer, s0, s1, PASS, 0, PASS_TEXT);
      CodeAt(f, a, PASS, 0);
      FallsThrough(f, PASS);
    } else {
      var s3 := RunPuts(f, a, answer, s0, s1, FAIL, 0, FAIL_TEXT);
      CodeAt(f, a, FAIL, 3);
      s2 := GoJump(f, s0, s3, FAIL, 3, DONE);
    }
    t := RunPuts(f, a, answer, s0, s2, DONE, 0, DONE_TEXT);
    CodeAt(f, a, DONE, 0);
    FallsThrough(f, DONE);
    assert t.sent == s.sent + Verdict(Id(answer));
  }

  // ---- the results ----

  /** All it ever says. */
  function Said(ident: string, id: seq<nat>): seq<nat>
    requires |id| == 3
  {
    Greeting(ident) + IdLine(id) + Verdict(id)
  }

  /** From reset, against any mode 0 slave: the slave takes exactly one transaction, 9F 00 00 00, and the firmware
      says the three bytes it answered, PASS unless they are all 00 or all FF, and comes to its halt. */
  lemma FirmwareReportsId(f: Firmware, a: Params, answer: Answering, s: State) returns (t: State)
    requires Setup(f, a, answer) && Fair(f.env) && AtReset(f, s)
    ensures |f.p| == SECTIONS && Reaches(f.env, s, t) && t.pc == At(f, HALT, 0) && t.sent == Said(a.ident, Id(answer))
    ensures FlashAfter(t.bus, f.env.device, answer).finished == [Intended(0x9F, 32)]
    ensures FlashAfter(t.bus, f.env.device, answer).wires.cs == 1
  {
    hide Loaded, Reaches, Get, Source, Greeting, IdLine, Verdict, FlashAfter, IsFlash, Intended, Id, BaseSet, At, IdIn;
    var s1 := RunEntry(f, a, answer, s);
    var s2 := RunDelay(f, a, answer, s, s1, 0x3_FFFF);
    var s3 := RunHello(f, a, answer, s, s2);
    NothingYet(f.env.device, answer);
    var s4 := RunIdle(f, a, answer, s, s3, 7);
    var s5 := RunAsk(f, a, answer, s, s4);
    var s6 := RunShow(f, a, answer, s, s5);
    t := RunVerdict(f, a, answer, s, s6);
    assert t.sent == Said(a.ident, Id(answer));
  }

  lemma NothingYet(base: nat, answer: Answering)
    ensures Untouched(FlashAfter([], base, answer))
  {}

  /** The halt is for good. */
  lemma {:induction false} Halted(f: Firmware, a: Params, s: State, n: nat)
    requires Loaded(f) && f.p == Source(a) && |f.p| == SECTIONS && s.pc == At(f, HALT, 0)
    ensures Run(f.env, s, n).pc == At(f, HALT, 0) && Run(f.env, s, n).sent == s.sent && Run(f.env, s, n).bus == s.bus
    decreases n
  {
    hide Loaded, Source, At, Step, OpAt, CodeOf, Exec;
    if n > 0 {
      Halted(f, a, s, n - 1);
      var u := Run(f.env, s, n - 1);
      VerdictCode(a);
      CodeAt(f, a, HALT, 0);
      ReachesItself(f.env, u);
      StepIs(f, u, HALT, 0, Jump(HALT));
    }
  }

  /** What the flash has taken grows with the accesses. */
  lemma {:induction false} FlashGrows(bus: seq<Access>, later: seq<Access>, base: nat, answer: Answering)
    requires bus <= later
    ensures Sane(FlashAfter(later, base, answer))
    ensures Before(FlashAfter(bus, base, answer), FlashAfter(later, base, answer))
    decreases |later|
  {
    hide Next, WiresFrom;
    if later == [] {
      assert bus == [];
    } else if |bus| == |later| {
      assert bus == later;
      var before := later[..|later| - 1];
      FlashGrows(before, before, base, answer);
      LastTakesMore(later, base, answer);
    } else {
      FlashGrows(bus, later[..|later| - 1], base, answer);
      LastTakesMore(later, base, answer);
    }
  }

  lemma LastTakesMore(bus: seq<Access>, base: nat, answer: Answering)
    requires bus != [] && Sane(FlashAfter(bus[..|bus| - 1], base, answer))
    ensures Sane(FlashAfter(bus, base, answer))
    ensures Before(FlashAfter(bus[..|bus| - 1], base, answer), FlashAfter(bus, base, answer))
  {
    hide Next, WiresFrom;
    var last := bus[|bus| - 1];
    if last.Write? {
      NextTakesMore(FlashAfter(bus[..|bus| - 1], base, answer), WiresFrom(last.data), answer);
    }
  }

  /** The flash has taken the beginning of one transaction, 9F 00 00 00, or that whole and nothing more. */
  predicate TookTheQuestion(s: Slave) {
    if s.finished == [] then s.bits <= Intended(0x9F, 32) else s.finished == [Intended(0x9F, 32)] && s.bits == []
  }

  lemma BeforeTheEnd(s: Slave, t: Slave)
    requires Before(s, t) && t.finished == [Intended(0x9F, 32)] && t.bits == []
    ensures TookTheQuestion(s)
  {
    hide Intended;
  }

  /** From the m-th instruction on, exactly that has been said, and the flash has taken exactly that transaction. */
  lemma EndsThere(f: Firmware, a: Params, answer: Answering, s: State) returns (m: nat)
    requires Setup(f, a, answer) && Fair(f.env) && AtReset(f, s)
    ensures forall k: nat :: m <= k ==>
              && Run(f.env, s, k).sent == Said(a.ident, Id(answer))
              && FlashAfter(Run(f.env, s, k).bus, f.env.device, answer).finished == [Intended(0x9F, 32)]
              && FlashAfter(Run(f.env, s, k).bus, f.env.device, answer).bits == []
  {
    hide Loaded, Source, Run, Said, Id, IsFlash, At, FlashAfter, Intended;
    var t := FirmwareReportsId(f, a, answer, s);
    m :| Run(f.env, s, m) == t;
    FlashGrows(t.bus, t.bus, f.env.device, answer);
    forall k: nat | m <= k ensures Run(f.env, s, k).sent == t.sent && Run(f.env, s, k).bus == t.bus {
      Halted(f, a, t, k - m);
      RunRun(f.env, s, m, k - m);
    }
  }

  /** After any number of instructions, even if the transmit FIFO stays full for ever, what was said is the beginning of
      that, and what the flash has taken of that. */
  lemma SaysThatAlone(f: Firmware, a: Params, answer: Answering, s: State, n: nat)
    requires Setup(f, a, answer) && AtReset(f, s)
    ensures Run(f.env, s, n).sent <= Said(a.ident, Id(answer))
    ensures TookTheQuestion(FlashAfter(Run(f.env, s, n).bus, f.env.device, answer))
  {
    hide Loaded, Source, FlashAfter, Run, Said, Id, Intended, TookTheQuestion, Before;
    var g := Drained(f, s.time + n);
    LoadedDrained(f, s.time + n);
    assert IsFlash(g.env, answer) by {
      assert forall bus :: MisoShows(f.env, answer, bus) ==> MisoShows(g.env, answer, bus);
    }
    var m := EndsThere(g, a, answer, s);
    RunExtends(g.env, s, n, m + n);
    RunWhileSame(f.env, s.time + n, s, n);
    FlashGrows(Run(g.env, s, n).bus, Run(g.env, s, m + n).bus, f.env.device, answer);
    BeforeTheEnd(FlashAfter(Run(g.env, s, n).bus, f.env.device, answer),
                 FlashAfter(Run(g.env, s, m + n).bus, f.env.device, answer));
  }

  /** What the generator returns, loaded at any origin of a sound address map that agrees with its arguments, is set up
      for all of this. */
  lemma GeneratedIsSetUp(env: Env, a: Params, answer: Answering)
    requires Sound(env) && Ascii(a.ident) && IdentFits(a.ident)
    requires env.uart == a.uart && env.device == a.flash && IsFlash(env, answer)
    requires AllResolvable(Cells(Source(a), |Source(a)|), Labels(Source(a), |Source(a)|)) && env.rom == Image(Source(a))
    ensures Setup(Firmware(env, Source(a)), a, answer)
  {
    hide Sound, AllResolvable, Image, InstrAt, WellFormed, Encodable, OpOk, IsFlash;
    EveryReferenceFits(a);
    SourceIs(a, HEX);
  }
}
