/** The generated SPI flash firmware, run against any mode 0 slave: the slave takes exactly 9F 00 00 00 in one
    transaction, and the firmware prints the three bytes it answered, and PASS unless they are all 00 or all FF. */
module SpiRun {
  import opened Bits
  import opened Encoding
  import opened Assembler
  import opened Layout
  import opened Listing
  import opened Machine
  import opened Console
  import opened Print
  import opened SpiSlave
  import opened SpiProgram

  // ---- the bit-bang CSRs, and the flash behind them ----

  /** The wires a write to the bitbang CSR gives: MOSI, CLK and CS_N in bits 0 to 2. */
  function WiresFrom(data: Word): Wires { Wires(data / 4 % 2, data / 2 % 2, data % 2) }

  /** The flash after the accesses so far. CS_N is high at reset. */
  function FlashAfter(bus: seq<Access>, base: nat, answer: Answering): Slave {
    if bus == [] then IDLE
    else
      var s := FlashAfter(bus[..|bus| - 1], base, answer);
      match bus[|bus| - 1]
      case Read(_) => s
      case Write(addr, data, lanes) => if addr == base && lanes.b0 then Next(s, WiresFrom(data), answer) else s
  }

  /** The device region is the two CSRs, with this flash behind them: bit 0 of the second is MISO. */
  ghost predicate IsFlash(env: Env, answer: Answering) {
    && env.deviceSize == 8 && env.device + 8 <= WORD_LIMIT
    && forall bus :: MisoShows(env, answer, bus)
  }

  predicate MisoShows(env: Env, answer: Answering, bus: seq<Access>)
    requires env.device + 8 <= WORD_LIMIT
  {
    env.reply(bus, env.device + 4) % 2 == FlashAfter(bus, env.device, answer).shown
  }

  lemma AfterWriteTo(bus: seq<Access>, base: Word, data: Word, answer: Answering)
    ensures FlashAfter(bus + [Write(base, data, ALL_LANES)], base, answer)
         == Next(FlashAfter(bus, base, answer), WiresFrom(data), answer)
  {
    assert (bus + [Write(base, data, ALL_LANES)])[..|bus|] == bus;
  }

  lemma AfterReadOf(bus: seq<Access>, base: Word, addr: Word, answer: Answering)
    ensures FlashAfter(bus + [Read(addr)], base, answer) == FlashAfter(bus, base, answer)
  {
    assert (bus + [Read(addr)])[..|bus|] == bus;
  }

  // ---- the program's words ----

  /** The firmware for these arguments, on a hart whose UART and flash CSRs are where they say. */
  ghost predicate Setup(f: Firmware, a: Params, answer: Answering) {
    && Loaded(f) && f.p == Source(a)
    && f.env.uart == a.uart && f.env.device == a.flash && IsFlash(f.env, answer)
  }

  lemma CodeAt(f: Firmware, a: Params, k: Label, j: nat)
    requires Loaded(f) && f.p == Source(a) && k < BANNER && j < |CodeOf(a, k)|
    ensures |f.p| == SECTIONS && f.p[k] == Code(k, CodeOf(a, k)) && OpAt(f, k, j, CodeOf(a, k)[j])
  {
    hide Source, CodeOf, AllResolvable, Image, WellFormed, Sound;
    SourceIs(a, k);
    assert OpOk(f.p[k].ops[j], |f.p|);
  }

  lemma TextAt(f: Firmware, a: Params, d: Label)
    requires Loaded(f) && f.p == Source(a) && BANNER <= d < SECTIONS
    ensures |f.p| == SECTIONS && f.p[d] == Data(d, TextOf(a, d))
  {
    hide Source, TextOf, Loaded;
    SourceIs(a, d);
  }

  // ---- spi_xfer_byte ----

  lemma XferCode(f: Firmware, a: Params)
    requires Loaded(f) && f.p == Source(a)
    ensures |f.p| == SECTIONS && f.p[XFER].Code? && |f.p[XFER].ops| == 2
    ensures OpAt(f, XFER, 0, Addi(A1, ZERO, 0)) && OpAt(f, XFER, 1, Addi(T2, ZERO, 8))
    ensures OpAt(f, XFER_BIT, 0, Do(AluImm(SLL, A1, A1, 1))) && OpAt(f, XFER_BIT, 1, Do(AluImm(SRL, T0, A0, 7)))
    ensures OpAt(f, XFER_BIT, 2, Do(AluImm(AND, T0, T0, 1))) && OpAt(f, XFER_BIT, 3, Sw(T0, S1, 0))
    ensures OpAt(f, XFER_BIT, 4, Do(AluImm(OR, T0, T0, 2))) && OpAt(f, XFER_BIT, 5, Sw(T0, S1, 0))
    ensures OpAt(f, XFER_BIT, 6, Lw(T1, S1, 4)) && OpAt(f, XFER_BIT, 7, Do(AluImm(AND, T1, T1, 1)))
    ensures OpAt(f, XFER_BIT, 8, Do(Alu(OR, A1, A1, T1))) && OpAt(f, XFER_BIT, 9, Do(AluImm(AND, T0, T0, 1)))
    ensures OpAt(f, XFER_BIT, 10, Sw(T0, S1, 0)) && OpAt(f, XFER_BIT, 11, Do(AluImm(SLL, A0, A0, 1)))
    ensures OpAt(f, XFER_BIT, 12, Addi(T2, T2, -1)) && OpAt(f, XFER_BIT, 13, Bne(T2, ZERO, XFER_BIT))
    ensures OpAt(f, XFER_BIT, 14, Addi(A0, A1, 0)) && OpAt(f, XFER_BIT, 15, Do(Jalr(ZERO, RA, 0)))
  {
    hide Loaded, OpAt, Source;
    CodeAt(f, a, XFER, 0); CodeAt(f, a, XFER, 1); CodeAt(f, a, XFER_BIT, 0); CodeAt(f, a, XFER_BIT, 1);
    CodeAt(f, a, XFER_BIT, 2); CodeAt(f, a, XFER_BIT, 3); CodeAt(f, a, XFER_BIT, 4); CodeAt(f, a, XFER_BIT, 5);
    CodeAt(f, a, XFER_BIT, 6); CodeAt(f, a, XFER_BIT, 7); CodeAt(f, a, XFER_BIT, 8); CodeAt(f, a, XFER_BIT, 9);
    CodeAt(f, a, XFER_BIT, 10); CodeAt(f, a, XFER_BIT, 11); CodeAt(f, a, XFER_BIT, 12); CodeAt(f, a, XFER_BIT, 13);
    CodeAt(f, a, XFER_BIT, 14); CodeAt(f, a, XFER_BIT, 15);
  }

  /** What the routine's shifts and masks compute. */
  lemma {:induction false} ShrShl(a: nat, i: nat, k: nat)
    requires i <= k
    ensures Shr(Shl(a, i), k) == Shr(a, k - i)
    decreases i
  {
    if i > 0 {
      ShrShl(a, i - 1, k - 1);
    }
  }

  lemma LowBit(x: nat)
    ensures And(x, 1) == x % 2
  {
    AndMask(x, 1);
  }

  lemma SmallPow(i: nat)
    requires i < 8
    ensures Pow2(i) <= 0x80
  {
    assert Pow2(0) == 1 && Pow2(1) == 2 && Pow2(2) == 4 && Pow2(3) == 8 && Pow2(4) == 0x10 && Pow2(5) == 0x20;
    assert Pow2(6) == 0x40 && Pow2(7) == 0x80;
  }

  lemma SmallShl(byte: nat, i: nat)
    requires byte < 0x100 && i < 8
    ensures Shl(byte, i) < 0x8000
  {
    hide Shl, Pow2;
    ShlValue(byte, i);
    SmallPow(i);
    SmallProduct(byte, Pow2(i));
  }

  lemma SmallProduct(x: nat, p: nat)
    requires x < 0x100 && p <= 0x80
    ensures x * p < 0x8000
  {
    assert x * p <= 0xFF * p;
  }

  lemma ShiftWord(x: nat)
    requires x < 0x8000
    ensures AluValue(AND, AluValue(SRL, x, Wrap(7)), Wrap(1)) == Shr(x, 7) % 2
    ensures AluValue(SLL, x, Wrap(1)) == 2 * x
  {
    hide And, Shr;
    ShrValue(x, 7);
    assert Pow2(7) == 0x80;
    LowBit(Shr(x, 7));
    assert Shl(x, 1) == 2 * x;
  }

  /** The bit to send: bit 7 of the byte moved up i places. */
  lemma TopBit(byte: nat, i: nat)
    requires byte < 0x100 && i < 8
    ensures Shl(byte, i) < 0x8000 && Shl(byte, i + 1) == 2 * Shl(byte, i)
    ensures AluValue(AND, AluValue(SRL, Shl(byte, i), Wrap(7)), Wrap(1)) == Bit(byte, 7 - i)
    ensures AluValue(SLL, Shl(byte, i), Wrap(1)) == Shl(byte, i + 1)
  {
    hide And, AluValue, Wrap, Shr;
    SmallShl(byte, i);
    ShiftWord(Shl(byte, i));
    ShrShl(byte, i, 7);
  }

  /** The bit received put under those before it. */
  lemma AddBit(got: nat, m: Level)
    requires got < 0x80
    ensures AluValue(SLL, got, Wrap(1)) == 2 * got && AluValue(OR, 2 * got, m) == 2 * got + m
  {
    assert Pow2(1) == 2;
    Under(got, m, 2, 1);
    assert Shl(got, 1) == 2 * got;
  }

  /** The clock bit set and cleared again. */
  lemma ClockBit(m: Level)
    ensures AluValue(OR, m, Wrap(2)) == m + 2 && AluValue(AND, m + 2, Wrap(1)) == m
    ensures WiresFrom(m) == Wires(0, 0, m) && WiresFrom(m + 2) == Wires(0, 1, m)
  {
    assert Or(0, 2) == 2 && Or(1, 2) == 3;
    LowBit(m + 2);
  }

  lemma MaskBit(x: Word)
    ensures AluValue(AND, x, Wrap(1)) == x % 2
  {
    LowBit(x);
  }

  predicate BaseSet(f: Firmware, s: State) { Ready(f, s) && Get(s, S1) == f.env.device }

  /** The first part of a bit: MOSI set, and the clock up. */
  lemma BitUp(f: Firmware, a: Params, answer: Answering, s0: State, s: State, byte: nat, i: nat, got: nat)
    returns (t: State)
    requires Setup(f, a, answer) && Reaches(f.env, s0, s) && BaseSet(f, s) && |f.p| == SECTIONS
    requires s.pc == At(f, XFER_BIT, 0)
    requires byte < 0x100 && i < 8 && got < 0x80 && Get(s, A1) == got && Get(s, A0) == Shl(byte, i)
    requires Waiting(FlashAfter(s.bus, f.env.device, answer), answer)
    ensures Reaches(f.env, s0, t) && BaseSet(f, t) && t.pc == At(f, XFER_BIT, 6)
    ensures Get(t, A1) == 2 * got && Get(t, T0) == Bit(byte, 7 - i) + 2 && Kept(s, t, {T0, A1})
    ensures t.popped == s.popped && t.sent == s.sent
    ensures var m := Bit(byte, 7 - i);
            var was := FlashAfter(s.bus, f.env.device, answer);
            FlashAfter(t.bus, f.env.device, answer) == Next(Next(was, Wires(0, 0, m), answer), Wires(0, 1, m), answer)
  {
    hide Loaded, Reaches, At, Get, OpAt, Source, Wrap, AluValue, Bit, Shl, WiresFrom, FlashAfter, Next, MisoShows;
    XferCode(f, a);
    LoadedIsSound(f);
    TopBit(byte, i);
    AddBit(got, 0);
    ClockBit(Bit(byte, 7 - i));
    var s1 := GoAluImm(f, s0, s, XFER_BIT, 0, SLL, A1, A1, 1);
    var s2 := GoAluImm(f, s0, s1, XFER_BIT, 1, SRL, T0, A0, 7);
    var s3 := GoAluImm(f, s0, s2, XFER_BIT, 2, AND, T0, T0, 1);
    FirstCsr(f, answer);
    var s4 := GoStoreDevice(f, s0, s3, XFER_BIT, 3, T0, S1, 0);
    var s5 := GoAluImm(f, s0, s4, XFER_BIT, 4, OR, T0, T0, 2);
    t := GoStoreDevice(f, s0, s5, XFER_BIT, 5, T0, S1, 0);
    AfterWriteTo(s.bus, f.env.device, Bit(byte, 7 - i), answer);
    AfterWriteTo(s4.bus, f.env.device, Bit(byte, 7 - i) + 2, answer);
  }

  lemma FirstCsr(f: Firmware, answer: Answering)
    requires Sound(f.env) && IsFlash(f.env, answer)
    ensures InDevice(f, f.env.device + 0) && InDevice(f, f.env.device + 4)
  {}

  /** The second part: MISO read, and the clock down. */
  lemma BitDown(f: Firmware, a: Params, answer: Answering, s0: State, s: State, m: Level, got: nat) returns (t: State)
    requires Setup(f, a, answer) && Reaches(f.env, s0, s) && BaseSet(f, s) && |f.p| == SECTIONS
    requires s.pc == At(f, XFER_BIT, 6)
    requires got < 0x80 && Get(s, A1) == 2 * got && Get(s, T0) == m + 2
    ensures Reaches(f.env, s0, t) && BaseSet(f, t) && t.pc == At(f, XFER_BIT, 11)
    ensures Get(t, A1) == 2 * got + FlashAfter(s.bus, f.env.device, answer).shown && Kept(s, t, {T0, T1, A1})
    ensures t.popped == s.popped && t.sent == s.sent
    ensures FlashAfter(t.bus, f.env.device, answer)
         == Next(FlashAfter(s.bus, f.env.device, answer), Wires(0, 0, m), answer)
  {
    hide Loaded, Reaches, At, Get, OpAt, Source, Wrap, AluValue, WiresFrom, FlashAfter, Next;
    XferCode(f, a);
    LoadedIsSound(f);
    FirstCsr(f, answer);
    assert MisoShows(f.env, answer, s.bus);
    var shown := FlashAfter(s.bus, f.env.device, answer).shown;
    AddBit(got, shown);
    ClockBit(m);
    var s1 := GoLoadDevice(f, s0, s, XFER_BIT, 6, T1, S1, 4);
    MaskBit(Get(s1, T1));
    var s2 := GoAluImm(f, s0, s1, XFER_BIT, 7, AND, T1, T1, 1);
    var s3 := GoAlu(f, s0, s2, XFER_BIT, 8, OR, A1, A1, T1);
    var s4 := GoAluImm(f, s0, s3, XFER_BIT, 9, AND, T0, T0, 1);
    t := GoStoreDevice(f, s0, s4, XFER_BIT, 10, T0, S1, 0);
    AfterReadOf(s.bus, f.env.device, f.env.device + 4, answer);
    AfterWriteTo(s1.bus, f.env.device, m, answer);
  }

  /** A byte being exchanged: i bits done. */
  predicate Exchanging(f: Firmware, s: State, answer: Answering, byte: nat, i: nat, got: seq<Level>, was: Slave)
    requires byte < 0x100 && i <= 8 && |got| == i
  {
    var now := FlashAfter(s.bus, f.env.device, answer);
    && Get(s, A1) == FromBits(got) && Get(s, A0) == Shl(byte, i) && FromBits(got) < Pow2(i)
    && Waiting(now, answer) && now.finished == was.finished && now.bits == was.bits + ToBits(byte)[..i]
    && forall m | 0 <= m < i :: got[m] == answer(|was.finished|, was.bits + ToBits(byte)[..m])
  }

  lemma ExchangedOne(f: Firmware, s: State, t: State, answer: Answering, byte: nat, i: nat, got: seq<Level>, was: Slave)
    requires byte < 0x100 && i < 8 && |got| == i && Exchanging(f, s, answer, byte, i, got, was)
    requires var m := Bit(byte, 7 - i); var now := FlashAfter(s.bus, f.env.device, answer);
             var up := Next(Next(now, Wires(0, 0, m), answer), Wires(0, 1, m), answer);
             && FlashAfter(t.bus, f.env.device, answer) == Next(up, Wires(0, 0, m), answer)
             && Get(t, A1) == 2 * FromBits(got) + up.shown && Get(t, A0) == Shl(byte, i + 1)
    ensures var now := FlashAfter(s.bus, f.env.device, answer);
            Exchanging(f, t, answer, byte, i + 1, got + [answer(|now.finished|, now.bits)], was)
  {
    hide FlashAfter, Next, Shl, Bit, Get;
    var now := FlashAfter(s.bus, f.env.device, answer);
    OneBit(now, Bit(byte, 7 - i), answer);
    MoreBits(got, answer(|now.finished|, now.bits));
    assert ToBits(byte)[..i + 1] == ToBits(byte)[..i] + [Bit(byte, 7 - i)];
    assert was.bits + ToBits(byte)[..i] + [Bit(byte, 7 - i)] == was.bits + ToBits(byte)[..i + 1];
  }

  lemma GotSmall(got: seq<Level>, i: nat)
    requires |got| == i <= 8 && FromBits(got) < Pow2(i)
    ensures i < 8 ==> FromBits(got) < 0x80
    ensures FromBits(got) < 0x100
  {
    if i < 8 {
      SmallPow(i);
    } else {
      assert Pow2(8) == 0x100;
    }
  }

  /** The rest of a byte. */
  lemma XferBits(f: Firmware, a: Params, answer: Answering, s0: State, s: State, byte: nat, i: nat, got: seq<Level>,
                 was: Slave)
    returns (t: State)
    requires Setup(f, a, answer) && Reaches(f.env, s0, s) && BaseSet(f, s) && |f.p| == SECTIONS
    requires s.pc == At(f, XFER_BIT, 0)
    requires byte < 0x100 && i < 8 && |got| == i && Exchanging(f, s, answer, byte, i, got, was) && Get(s, T2) == 8 - i
    ensures Reaches(f.env, s0, t) && BaseSet(f, t) && t.pc == At(f, XFER_BIT, 14)
    ensures Kept(s, t, {A0, A1, T0, T1, T2}) && t.popped == s.popped && t.sent == s.sent
    ensures Exchanged(f, t, answer, byte, was)
    decreases 8 - i
  {
    hide Loaded, Reaches, At, Get, OpAt, Source, Wrap, AluValue, FlashAfter, Next, Exchanging, Exchanged, IsFlash,
         Waiting, Shl, Bit;
    var now := FlashAfter(s.bus, f.env.device, answer);
    assert Waiting(now, answer) && Get(s, A1) == FromBits(got) && Get(s, A0) == Shl(byte, i)
           && FromBits(got) < Pow2(i) by {
      ExchangingIs(f, s, answer, byte, i, got, was);
    }
    GotSmall(got, i);
    XferCode(f, a);
    TopBit(byte, i);
    var s1 := BitUp(f, a, answer, s0, s, byte, i, FromBits(got));
    var s2 := BitDown(f, a, answer, s0, s1, Bit(byte, 7 - i), FromBits(got));
    var s3 := GoAluImm(f, s0, s2, XFER_BIT, 11, SLL, A0, A0, 1);
    var s4 := GoAddImm(f, s0, s3, XFER_BIT, 12, T2, T2, -1);
    CountDown(7 - i);
    ZeroIsZero(s4);
    var s5 := GoBranch(f, s0, s4, XFER_BIT, 13, false, T2, ZERO, XFER_BIT);
    ExchangedOne(f, s, s5, answer, byte, i, got, was);
    if i < 7 {
      t := XferBits(f, a, answer, s0, s5, byte, i + 1, got + [answer(|now.finished|, now.bits)], was);
    } else {
      t := s5;
      AllExchanged(f, t, answer, byte, got + [answer(|now.finished|, now.bits)], was);
    }
  }

  lemma ExchangingIs(f: Firmware, s: State, answer: Answering, byte: nat, i: nat, got: seq<Level>, was: Slave)
    requires byte < 0x100 && i <= 8 && |got| == i && Exchanging(f, s, answer, byte, i, got, was)
    ensures Waiting(FlashAfter(s.bus, f.env.device, answer), answer)
    ensures Get(s, A1) == FromBits(got) && Get(s, A0) == Shl(byte, i) && FromBits(got) < Pow2(i)
  {}

  /** The byte a slave gives for one it is sent. */
  function Given(answer: Answering, was: Slave, byte: nat): nat {
    FromBits(seq<Level>(8, m requires 0 <= m < 8 => answer(|was.finished|, was.bits + ToBits(byte)[..m])))
  }

  /** The flash took exactly the byte's bits, and A1 has what it gave. */
  predicate Exchanged(f: Firmware, t: State, answer: Answering, byte: nat, was: Slave) {
    var now := FlashAfter(t.bus, f.env.device, answer);
    && Waiting(now, answer) && now.finished == was.finished && now.bits == was.bits + ToBits(byte)
    && Get(t, A1) == Given(answer, was, byte) < 0x100
  }

  lemma AllExchanged(f: Firmware, t: State, answer: Answering, byte: nat, got: seq<Level>, was: Slave)
    requires byte < 0x100 && |got| == 8 && Exchanging(f, t, answer, byte, 8, got, was)
    ensures Exchanged(f, t, answer, byte, was)
  {
    hide FlashAfter, Shl, Get, Bit, FromBits;
    GotSmall(got, 8);
    assert ToBits(byte)[..8] == ToBits(byte);
    assert got == seq<Level>(8, m requires 0 <= m < 8 => answer(|was.finished|, was.bits + ToBits(byte)[..m]));
  }

  /** spi_xfer_byte: the flash takes the byte, most significant bit first, and the one it gives is returned. */
  lemma Xfer(f: Firmware, a: Params, answer: Answering, s0: State, s: State, byte: nat) returns (t: State)
    requires Setup(f, a, answer) && Reaches(f.env, s0, s) && BaseSet(f, s) && |f.p| == SECTIONS
    requires s.pc == At(f, XFER, 0)
    requires byte < 0x100 && Get(s, A0) == byte && Get(s, RA) % 4 == 0
    requires Waiting(FlashAfter(s.bus, f.env.device, answer), answer)
    ensures Reaches(f.env, s0, t) && BaseSet(f, t) && t.pc == Get(s, RA)
    ensures Kept(s, t, {A0, A1, T0, T1, T2}) && t.popped == s.popped && t.sent == s.sent
    ensures var was := FlashAfter(s.bus, f.env.device, answer);
            var now := FlashAfter(t.bus, f.env.device, answer);
            && Waiting(now, answer) && now.finished == was.finished && now.bits == was.bits + ToBits(byte)
            && Get(t, A0) == Given(answer, was, byte) < 0x100
  {
    hide Loaded, Reaches, At, Get, OpAt, Source, FlashAfter, Next, Exchanging, IsFlash, Waiting, Given;
    var was := FlashAfter(s.bus, f.env.device, answer);
    XferCode(f, a);
    ZeroIsZero(s);
    var s1 := GoAddImm(f, s0, s, XFER, 0, A1, ZERO, 0);
    ZeroIsZero(s1);
    var s2 := GoAddImm(f, s0, s1, XFER, 1, T2, ZERO, 8);
    FallsThrough(f, XFER);
    StartsExchange(f, s2, answer, byte, was);
    var s3 := XferBits(f, a, answer, s0, s2, byte, 0, [], was);
    MoveAddZero(Get(s3, A1));
    var s4 := GoAddImm(f, s0, s3, XFER_BIT, 14, A0, A1, 0);
    t := GoReturn(f, s0, s4, XFER_BIT, 15);
  }

  lemma StartsExchange(f: Firmware, s: State, answer: Answering, byte: nat, was: Slave)
    requires byte < 0x100 && was == FlashAfter(s.bus, f.env.device, answer) && Waiting(was, answer)
    requires Get(s, A0) == byte && Get(s, A1) == 0
    ensures Exchanging(f, s, answer, byte, 0, [], was)
  {
    hide FlashAfter, Get, Bit;
    assert was.bits + ToBits(byte)[..0] == was.bits;
  }
}
