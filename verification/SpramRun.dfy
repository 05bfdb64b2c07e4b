/** The generated SPRAM firmware, run: for any memory behind the device region, any ident that fits and any address map,
    each byte received leads to exactly the test's report, and back to the wait for the next. */
module SpramRun {
  import opened Bits
  import opened Encoding
  import opened Assembler
  import opened Layout
  import opened Listing
  import opened Machine
  import opened Console
  import opened Print
  import opened SpramProgram
  import opened SpramPattern
  import opened SpramTest

  /** The firmware for these arguments, on a hart whose UART and SPRAM are where they say. */
  ghost predicate Setup(f: Firmware, a: Params) {
    && Loaded(f) && f.p == Source(a) && SizeOk(a.size)
    && f.env.uart == a.uart && f.env.device == a.base && f.env.deviceSize == a.size
  }

  /** What the test keeps in registers throughout. */
  predicate Bases(f: Firmware, s: State) {
    Ready(f, s) && Get(s, S1) == f.env.device && Get(s, S2) == Wrap(f.env.device + f.env.deviceSize)
  }

  /** The program's words, by label. */
  lemma CodeAt(f: Firmware, a: Params, k: Label, j: nat)
    requires Setup(f, a) && k < BANNER && j < |CodeOf(a, k)|
    ensures |f.p| == SECTIONS && f.p[k] == Code(k, CodeOf(a, k)) && OpAt(f, k, j, CodeOf(a, k)[j])
  {
    hide Source, CodeOf, AllResolvable, Image, WellFormed, Sound;
    SourceIs(a, k);
    assert OpOk(f.p[k].ops[j], |f.p|);
  }

  lemma TextAt(f: Firmware, a: Params, d: Label)
    requires Setup(f, a) && BANNER <= d < SECTIONS
    ensures |f.p| == SECTIONS && f.p[d] == Data(d, TextOf(a, d))
  {
    hide Source, TextOf, Loaded;
    SourceIs(a, d);
  }

  // ---- pattern(s3, a2) -> t0 ----

  lemma PatternCode(f: Firmware, a: Params)
    requires Setup(f, a)
    ensures OpAt(f, PATTERN, 0, Do(Alu(SUB, T0, S3, S1))) && OpAt(f, PATTERN, 1, Do(AluImm(SLL, T1, T0, 28)))
    ensures OpAt(f, PATTERN, 2, Do(AluImm(SRL, T0, T0, 2))) && OpAt(f, PATTERN, 3, Do(AluImm(SLL, T2, T0, 15)))
    ensures OpAt(f, PATTERN, 4, Do(Alu(OR, T0, T0, T2))) && OpAt(f, PATTERN, 5, Do(Alu(OR, T0, T0, T1)))
    ensures OpAt(f, PATTERN, 6, Do(Alu(XOR, T0, T0, A2))) && OpAt(f, PATTERN, 7, Do(Jalr(ZERO, RA, 0)))
  {
    hide Setup, OpAt;
    CodeAt(f, a, PATTERN, 0); CodeAt(f, a, PATTERN, 1); CodeAt(f, a, PATTERN, 2); CodeAt(f, a, PATTERN, 3);
    CodeAt(f, a, PATTERN, 4); CodeAt(f, a, PATTERN, 5); CodeAt(f, a, PATTERN, 6); CodeAt(f, a, PATTERN, 7);
  }

  function InversionMask(inverted: bool): Word { if inverted then ONES else 0 }

  /** What the seven instructions compute is spram_pattern. */
  lemma PatternValue(offset: Word, inverted: bool)
    ensures var index := AluValue(SRL, offset, Wrap(2));
            var low := AluValue(OR, index, AluValue(SLL, index, Wrap(15)));
            var word := AluValue(OR, low, AluValue(SLL, offset, Wrap(28)));
            AluValue(XOR, word, InversionMask(inverted)) == Pattern(offset, inverted)
  {
    hide Pattern, Or, Xor, Shl, Shr, Pow2;
    PatternPieces(offset);
    InvertedIsComplement(offset);
    var i := Shr(offset, 2);
    assert i < WORD_LIMIT by { ShrValue(offset, 2); }
    Peel(0, i, WORD_LIMIT);
    var low := Or(i, Wrap(Shl(i, 15)));
    Pow2Values();
    Bounded(i, Wrap(Shl(i, 15)), 32);
    Peel(0, low, WORD_LIMIT);
    Bounded(low, Wrap(Shl(offset, 28)), 32);
    Peel(0, Pattern(offset, false), WORD_LIMIT);
    Peel(0, Pattern(offset, true), WORD_LIMIT);
    XorOnes(Pattern(offset, false), 32);
  }

  lemma OffsetValue(base: Word, offset: nat)
    requires base + offset < WORD_LIMIT
    ensures AluValue(SUB, base + offset, base) == offset
  {}

  lemma RunPattern(f: Firmware, a: Params, s0: State, s: State, offset: nat, inverted: bool) returns (t: State)
    requires Setup(f, a) && Reaches(f.env, s0, s) && Bases(f, s) && s.pc == At(f, PATTERN, 0)
    requires Get(s, S3) == f.env.device + offset && Get(s, A2) == InversionMask(inverted) && Get(s, RA) % 4 == 0
    ensures Reaches(f.env, s0, t) && Bases(f, t) && t.pc == Get(s, RA) && Get(t, T0) == Pattern(offset, inverted)
    ensures Kept(s, t, {T0, T1, T2}) && Silent(s, t)
  {
    hide Loaded, Reaches, At, Get, OpAt, AluValue, Pattern, Source, Wrap, InversionMask;
    PatternCode(f, a);
    OffsetValue(f.env.device, offset);
    PatternValue(offset, inverted);
    var s1 := GoAlu(f, s0, s, PATTERN, 0, SUB, T0, S3, S1);
    var s2 := GoAluImm(f, s0, s1, PATTERN, 1, SLL, T1, T0, 28);
    var s3 := GoAluImm(f, s0, s2, PATTERN, 2, SRL, T0, T0, 2);
    var s4 := GoAluImm(f, s0, s3, PATTERN, 3, SLL, T2, T0, 15);
    var s5 := GoAlu(f, s0, s4, PATTERN, 4, OR, T0, T0, T2);
    var s6 := GoAlu(f, s0, s5, PATTERN, 5, OR, T0, T0, T1);
    var s7 := GoAlu(f, s0, s6, PATTERN, 6, XOR, T0, T0, A2);
    t := GoReturn(f, s0, s7, PATTERN, 7);
  }

  // ---- passes 1 and 2 ----

  lemma EndReached(base: nat, size: nat, x: nat)
    requires base + size <= WORD_LIMIT && 0 < x <= size
    ensures Wrap(base + x) == Wrap(base + size) <==> x == size
    ensures x < size ==> Wrap(base + x) == base + x
  {
    if base + x < WORD_LIMIT {
      WrapSmall(base + x);
    }
    if base + size < WORD_LIMIT {
      WrapSmall(base + size);
    }
  }

  lemma NextAddress(base: nat, size: nat, x: nat)
    requires base + size <= WORD_LIMIT && x + 4 <= size
    ensures base + x < WORD_LIMIT && Wrap((base + x) + 4) == Wrap(base + (x + 4))
  {}

  /** Word i of n is inside the region. */
  lemma WordInRegion(f: Firmware, i: nat, n: nat)
    requires Sound(f.env) && f.env.deviceSize == 4 * n && i < n
    ensures InDevice(f, f.env.device + 4 * i)
  {}

  lemma WriteCode(f: Firmware, a: Params)
    requires Setup(f, a)
    ensures |f.p| == SECTIONS && f.p[WRITE].Code? && |f.p[WRITE].ops| == 5
    ensures OpAt(f, WRITE, 0, Call(PATTERN)) && OpAt(f, WRITE, 1, Sw(T0, S3, 0)) && OpAt(f, WRITE, 2, Addi(S3, S3, 4))
    ensures OpAt(f, WRITE, 3, Bne(S3, S2, WRITE)) && OpAt(f, WRITE, 4, Addi(S3, S1, 0))
  {
    hide Setup, OpAt;
    CodeAt(f, a, WRITE, 0); CodeAt(f, a, WRITE, 1); CodeAt(f, a, WRITE, 2); CodeAt(f, a, WRITE, 3);
    CodeAt(f, a, WRITE, 4);
  }

  /** The write loop from word i: it ends at the read loop, with the address at the start again. */
  lemma RunWrites(f: Firmware, a: Params, s0: State, s: State, i: nat, n: nat, inverted: bool) returns (t: State)
    requires Setup(f, a) && Reaches(f.env, s0, s) && Bases(f, s) && s.pc == At(f, WRITE, 0)
    requires i < n && f.env.deviceSize == 4 * n && f.env.device + 4 * n <= WORD_LIMIT
    requires Get(s, S3) == f.env.device + 4 * i && Get(s, A2) == InversionMask(inverted)
    ensures |f.p| == SECTIONS && Reaches(f.env, s0, t) && Bases(f, t) && t.pc == At(f, READ, 0)
    ensures Get(t, S3) == f.env.device && Kept(s, t, {RA, T0, T1, T2, S3})
    ensures t.bus == Written(s.bus, f.env.device, i, n, inverted) && t.popped == s.popped && t.sent == s.sent
    decreases n - i
  {
    hide Loaded, Reaches, At, Get, OpAt, Pattern, Source, Wrap, InversionMask, Sound;
    WriteCode(f, a);
    var base := f.env.device;
    var s1 := GoCall(f, s0, s, WRITE, 0, PATTERN);
    var s2 := RunPattern(f, a, s0, s1, 4 * i, inverted);
    LoadedIsSound(f);
    WordInRegion(f, i, n);
    var s3 := GoStoreDevice(f, s0, s2, WRITE, 1, T0, S3, 0);
    var s4 := GoAddImm(f, s0, s3, WRITE, 2, S3, S3, 4);
    NextAddress(base, 4 * n, 4 * i);
    EndReached(base, 4 * n, 4 * i + 4);
    var s5 := GoBranch(f, s0, s4, WRITE, 3, false, S3, S2, WRITE);
    if i + 1 < n {
      t := RunWrites(f, a, s0, s5, i + 1, n, inverted);
    } else {
      MoveAddZero(Get(s5, S1));
      t := GoAddImm(f, s0, s5, WRITE, 4, S3, S1, 0);
      FallsThrough(f, WRITE);
    }
  }

  lemma ReadCode(f: Firmware, a: Params)
    requires Setup(f, a)
    ensures |f.p| == SECTIONS && f.p[READ].Code? && |f.p[READ].ops| == 9
    ensures OpAt(f, READ, 0, Call(PATTERN)) && OpAt(f, READ, 1, Addi(S4, T0, 0)) && OpAt(f, READ, 2, Lw(S6, S3, 0))
    ensures OpAt(f, READ, 3, Bne(S6, S4, FAIL)) && OpAt(f, READ, 4, Addi(S3, S3, 4))
    ensures OpAt(f, READ, 5, Bne(S3, S2, READ)) && OpAt(f, READ, 6, Bne(A2, ZERO, LANES))
    ensures OpAt(f, READ, 7, Addi(A2, ZERO, -1)) && OpAt(f, READ, 8, Jump(PASS))
  {
    hide Setup, OpAt;
    CodeAt(f, a, READ, 0); CodeAt(f, a, READ, 1); CodeAt(f, a, READ, 2); CodeAt(f, a, READ, 3); CodeAt(f, a, READ, 4);
    CodeAt(f, a, READ, 5); CodeAt(f, a, READ, 6); CodeAt(f, a, READ, 7); CodeAt(f, a, READ, 8);
  }

  /** The registers the report needs, at the label that prints it. */
  predicate Failing(f: Firmware, t: State, o: Outcome)
    requires |f.p| == SECTIONS
  {
    o.Failed? && t.pc == At(f, FAIL, 0) && Get(t, S3) == o.at && Get(t, S6) == o.read && Get(t, S4) == o.expected
  }

  /** One word read: on to the next, or to the report. */
  lemma RunRead(f: Firmware, a: Params, s0: State, s: State, i: nat, n: nat, inverted: bool) returns (t: State)
    requires Setup(f, a) && Reaches(f.env, s0, s) && Bases(f, s) && s.pc == At(f, READ, 0)
    requires i < n && f.env.deviceSize == 4 * n && f.env.device + 4 * n <= WORD_LIMIT
    requires Get(s, S3) == f.env.device + 4 * i && Get(s, A2) == InversionMask(inverted)
    requires 0 <= Pattern(4 * i, inverted) < WORD_LIMIT
    ensures |f.p| == SECTIONS && Reaches(f.env, s0, t) && Bases(f, t)
    ensures var o := Compare(f.env.reply, s.bus, f.env.device + 4 * i, Pattern(4 * i, inverted));
            t.bus == o.bus && if o.Failed? then Failing(f, t, o) else t.pc == At(f, READ, 4)
    ensures Get(t, S3) == Get(s, S3) && Kept(s, t, {RA, T0, T1, T2, S4, S6}) && t.popped == s.popped && t.sent == s.sent
  {
    hide Loaded, Reaches, At, Get, OpAt, Pattern, Source, Wrap, InversionMask, Sound;
    ReadCode(f, a);
    var s1 := GoCall(f, s0, s, READ, 0, PATTERN);
    var s2 := RunPattern(f, a, s0, s1, 4 * i, inverted);
    MoveAddZero(Get(s2, T0));
    var s3 := GoAddImm(f, s0, s2, READ, 1, S4, T0, 0);
    LoadedIsSound(f);
    WordInRegion(f, i, n);
    var s4 := GoLoadDevice(f, s0, s3, READ, 2, S6, S3, 0);
    t := GoBranch(f, s0, s4, READ, 3, false, S6, S4, FAIL);
  }

  lemma PatternIsWord(offset: nat, inverted: bool)
    ensures 0 <= Pattern(offset, inverted) < WORD_LIMIT
  {
    hide Pattern;
    PatternPieces(offset);
    InvertedIsComplement(offset);
  }

  lemma RunReads(f: Firmware, a: Params, s0: State, s: State, i: nat, n: nat, inverted: bool) returns (t: State)
    requires Setup(f, a) && Reaches(f.env, s0, s) && Bases(f, s) && s.pc == At(f, READ, 0)
    requires i < n && f.env.deviceSize == 4 * n && f.env.device + 4 * n <= WORD_LIMIT
    requires Get(s, S3) == f.env.device + 4 * i && Get(s, A2) == InversionMask(inverted)
    ensures |f.p| == SECTIONS && Reaches(f.env, s0, t) && Bases(f, t)
    ensures var o := ReadBack(f.env.reply, s.bus, f.env.device, i, n, inverted);
            t.bus == o.bus && if o.Failed? then Failing(f, t, o) else t.pc == At(f, READ, 6)
    ensures Kept(s, t, {RA, T0, T1, T2, S3, S4, S6}) && t.popped == s.popped && t.sent == s.sent
    decreases n - i
  {
    hide Loaded, Reaches, At, Get, OpAt, Pattern, Source, Wrap, InversionMask, Sound, Compare;
    PatternIsWord(4 * i, inverted);
    var base := f.env.device;
    var o := Compare(f.env.reply, s.bus, base + 4 * i, Pattern(4 * i, inverted));
    var s1 := RunRead(f, a, s0, s, i, n, inverted);
    if o.Failed? {
      t := s1;
    } else {
      ReadCode(f, a);
      var s2 := GoAddImm(f, s0, s1, READ, 4, S3, S3, 4);
      NextAddress(base, 4 * n, 4 * i);
      EndReached(base, 4 * n, 4 * i + 4);
      var s3 := GoBranch(f, s0, s2, READ, 5, false, S3, S2, READ);
      if i + 1 < n {
        t := RunReads(f, a, s0, s3, i + 1, n, inverted);
      } else {
        t := s3;
        assert ReadBack(f.env.reply, o.bus, base, n, n, inverted) == SpramTest.Passed(o.bus);
      }
    }
  }

  lemma PassCode(f: Firmware, a: Params)
    requires Setup(f, a)
    ensures |f.p| == SECTIONS && f.p[PASS].Code? && |f.p[PASS].ops| == 1 && OpAt(f, PASS, 0, Addi(S3, S1, 0))
  {
    hide Setup, OpAt;
    CodeAt(f, a, PASS, 0);
  }

  /** One pattern pass. */
  lemma RunPass(f: Firmware, a: Params, s0: State, s: State, n: nat, inverted: bool) returns (t: State)
    requires Setup(f, a) && Reaches(f.env, s0, s) && Bases(f, s) && |f.p| == SECTIONS && s.pc == At(f, PASS, 0)
    requires 0 < n && f.env.deviceSize == 4 * n && f.env.device + 4 * n <= WORD_LIMIT
    requires Get(s, A2) == InversionMask(inverted)
    ensures Reaches(f.env, s0, t) && Bases(f, t)
    ensures var o := PatternPass(f.env.reply, s.bus, f.env.device, n, inverted);
            t.bus == o.bus && if o.Failed? then Failing(f, t, o) else t.pc == At(f, READ, 6)
    ensures Get(t, A2) == InversionMask(inverted) && t.popped == s.popped && t.sent == s.sent
  {
    hide Loaded, Reaches, At, Get, OpAt, Source, Wrap, InversionMask, ReadBack, Written;
    PassCode(f, a);
    MoveAddZero(Get(s, S1));
    var s1 := GoAddImm(f, s0, s, PASS, 0, S3, S1, 0);
    FallsThrough(f, PASS);
    var s2 := RunWrites(f, a, s0, s1, 0, n, inverted);
    t := RunReads(f, a, s0, s2, 0, n, inverted);
  }

  // ---- the byte lanes ----

  lemma LaneCode(f: Firmware, a: Params)
    requires Setup(f, a)
    ensures |f.p| == SECTIONS && f.p[LANE].Code? && |f.p[LANE].ops| == 13
    ensures OpAt(f, LANE, 0, Addi(T0, ZERO, -1)) && OpAt(f, LANE, 1, Sw(T0, S3, 0))
    ensures OpAt(f, LANE, 2, Do(Alu(ADD, T1, S3, S7))) && OpAt(f, LANE, 3, Do(Store(Byte, ZERO, T1, 0)))
    ensures OpAt(f, LANE, 4, Do(AluImm(SLL, T1, S7, 3))) && OpAt(f, LANE, 5, Addi(T2, ZERO, 0xFF))
    ensures OpAt(f, LANE, 6, Do(Alu(SLL, T2, T2, T1))) && OpAt(f, LANE, 7, Do(AluImm(XOR, S4, T2, -1)))
    ensures OpAt(f, LANE, 8, Lw(S6, S3, 0)) && OpAt(f, LANE, 9, Bne(S6, S4, FAIL))
    ensures OpAt(f, LANE, 10, Addi(S7, S7, 1)) && OpAt(f, LANE, 11, Addi(T0, ZERO, 4))
    ensures OpAt(f, LANE, 12, Bne(S7, T0, LANE))
  {
    hide Setup, OpAt;
    CodeAt(f, a, LANE, 0); CodeAt(f, a, LANE, 1); CodeAt(f, a, LANE, 2); CodeAt(f, a, LANE, 3); CodeAt(f, a, LANE, 4);
    CodeAt(f, a, LANE, 5); CodeAt(f, a, LANE, 6); CodeAt(f, a, LANE, 7); CodeAt(f, a, LANE, 8); CodeAt(f, a, LANE, 9);
    CodeAt(f, a, LANE, 10); CodeAt(f, a, LANE, 11); CodeAt(f, a, LANE, 12);
  }

  function LaneShift(lane: Word): Word { AluValue(SLL, 0xFF, AluValue(SLL, lane, Wrap(3))) }

  /** The word computed for a lane is 0xFF in every other. */
  lemma LaneValue(lane: nat)
    requires lane < 4
    ensures AluValue(XOR, LaneShift(lane), Wrap(-1)) == LaneExpected(lane) < WORD_LIMIT
  {
    hide Xor, Shl, Pow2;
    assert AluValue(SLL, lane, Wrap(3)) == 8 * lane by { Scale8(lane); }
    var scale := if lane == 0 then 1 else if lane == 1 then 0x100 else if lane == 2 then 0x1_0000 else 0x100_0000;
    assert LaneShift(lane) == 0xFF * scale by {
      LaneShifts();
    }
    Pow2Values();
    XorOnes(LaneShift(lane), 32);
  }

  lemma Scale8(lane: nat)
    requires lane < 4
    ensures Shl(lane, 3) == 8 * lane
  {
    ShlValue(lane, 3);
  }

  lemma LaneShifts()
    ensures Shl(0xFF, 0) == 0xFF && Shl(0xFF, 8) == 0xFF00 && Shl(0xFF, 16) == 0xFF_0000 && Shl(0xFF, 24) == 0xFF00_0000
  {
    ShlValue(0xFF, 8); ShlValue(0xFF, 16); ShlValue(0xFF, 24);
    assert Pow2(8) == 0x100 && Pow2(16) == 0x1_0000 && Pow2(24) == 0x100_0000;
  }

  /** The words written and expected for a lane, and where. */
  lemma LaneAddress(base: Word, lane: nat)
    requires base % 4 == 0 && lane < 4 && base < WORD_LIMIT
    ensures AluValue(ADD, base, lane) == base + lane && (base + lane) % 4 == lane && OnAllLanes(0) == 0
    ensures Wrap(0 - 1) == ONES && Wrap(0 + 0xFF) == 0xFF
  {
    WrapSmall(base + lane);
  }

  /** The first half of a lane's check: all ones, then a zero byte. */
  lemma RunLaneWrites(f: Firmware, a: Params, s0: State, s: State, addr: Word, lane: nat) returns (t: State)
    requires Setup(f, a) && Reaches(f.env, s0, s) && Bases(f, s) && |f.p| == SECTIONS && s.pc == At(f, LANE, 0)
    requires InDevice(f, addr) && lane < 4 && Get(s, S3) == addr && Get(s, S7) == lane
    ensures Reaches(f.env, s0, t) && Bases(f, t) && t.pc == At(f, LANE, 4)
    ensures t.bus == s.bus + [Write(addr, ONES, ALL_LANES), Write(addr, 0, OneLane(lane))]
    ensures Kept(s, t, {T0, T1}) && t.popped == s.popped && t.sent == s.sent
  {
    hide Loaded, Reaches, At, Get, OpAt, Source, Wrap, AluValue, OnAllLanes;
    LaneCode(f, a);
    LaneAddress(addr, lane);
    ZeroIsZero(s);
    var s1 := GoAddImm(f, s0, s, LANE, 0, T0, ZERO, -1);
    var s2 := GoStoreDevice(f, s0, s1, LANE, 1, T0, S3, 0);
    var s3 := GoAlu(f, s0, s2, LANE, 2, ADD, T1, S3, S7);
    ZeroIsZero(s3);
    t := GoStoreDeviceByte(f, s0, s3, LANE, 3, ZERO, T1);
    assert t.bus == s.bus + [Write(addr, ONES, ALL_LANES), Write(addr, 0, OneLane(lane))];
  }

  /** A lane's check: on to the next, or to the report. */
  lemma RunLane(f: Firmware, a: Params, s0: State, s: State, addr: Word, lane: nat) returns (t: State)
    requires Setup(f, a) && Reaches(f.env, s0, s) && Bases(f, s) && |f.p| == SECTIONS && s.pc == At(f, LANE, 0)
    requires InDevice(f, addr) && lane < 4 && Get(s, S3) == addr && Get(s, S7) == lane
    ensures Reaches(f.env, s0, t) && Bases(f, t)
    ensures LaneExpected(lane) < WORD_LIMIT
    ensures var o := LaneTest(f.env.reply, s.bus, addr, lane);
            t.bus == o.bus && if o.Failed? then Failing(f, t, o) else t.pc == At(f, LANE, 10)
    ensures Kept(s, t, {T0, T1, T2, S4, S6}) && t.popped == s.popped && t.sent == s.sent
  {
    hide Loaded, Reaches, At, Get, OpAt, Source, Wrap, AluValue, LaneExpected;
    LaneCode(f, a);
    LaneValue(lane);
    LaneAddress(addr, lane);
    var s1 := RunLaneWrites(f, a, s0, s, addr, lane);
    var s2 := GoAluImm(f, s0, s1, LANE, 4, SLL, T1, S7, 3);
    ZeroIsZero(s2);
    var s3 := GoAddImm(f, s0, s2, LANE, 5, T2, ZERO, 0xFF);
    var s4 := GoAlu(f, s0, s3, LANE, 6, SLL, T2, T2, T1);
    var s5 := GoAluImm(f, s0, s4, LANE, 7, XOR, S4, T2, -1);
    var s6 := GoLoadDevice(f, s0, s5, LANE, 8, S6, S3, 0);
    t := GoBranch(f, s0, s6, LANE, 9, false, S6, S4, FAIL);
  }

  lemma RunLanes(f: Firmware, a: Params, s0: State, s: State, addr: Word, lane: nat) returns (t: State)
    requires Setup(f, a) && Reaches(f.env, s0, s) && Bases(f, s) && |f.p| == SECTIONS && s.pc == At(f, LANE, 0)
    requires InDevice(f, addr) && lane < 4 && Get(s, S3) == addr && Get(s, S7) == lane
    ensures Reaches(f.env, s0, t) && Bases(f, t)
    ensures var o := BankTest(f.env.reply, s.bus, addr, lane);
            t.bus == o.bus && if o.Failed? then Failing(f, t, o) else t.pc == At(f, NEXT_BANK, 0)
    ensures Kept(s, t, {T0, T1, T2, S4, S6, S7}) && t.popped == s.popped && t.sent == s.sent
    decreases 4 - lane
  {
    hide Loaded, Reaches, At, Get, OpAt, Source, LaneTest;
    LaneCode(f, a);
    var o := LaneTest(f.env.reply, s.bus, addr, lane);
    var s1 := RunLane(f, a, s0, s, addr, lane);
    if o.Failed? {
      t := s1;
    } else {
      var s2 := GoAddImm(f, s0, s1, LANE, 10, S7, S7, 1);
      ZeroIsZero(s2);
      var s3 := GoAddImm(f, s0, s2, LANE, 11, T0, ZERO, 4);
      var s4 := GoBranch(f, s0, s3, LANE, 12, false, S7, T0, LANE);
      if lane < 3 {
        t := RunLanes(f, a, s0, s4, addr, lane + 1);
      } else {
        t := s4;
        FallsThrough(f, LANE);
        assert BankTest(f.env.reply, o.bus, addr, 4) == SpramTest.Passed(o.bus);
      }
    }
  }

  lemma BankCode(f: Firmware, a: Params)
    requires Setup(f, a)
    ensures |f.p| == SECTIONS && f.p[BANK].Code? && |f.p[BANK].ops| == 2 && f.p[NEXT_BANK].Code?
    ensures |f.p[NEXT_BANK].ops| == 4 && f.p[LANES].Code? && |f.p[LANES].ops| == 1
    ensures OpAt(f, LANES, 0, Addi(S8, S1, 0)) && OpAt(f, BANK, 0, Addi(S3, S8, 0))
    ensures OpAt(f, BANK, 1, Addi(S7, ZERO, 0))
    ensures OpAt(f, NEXT_BANK, 0, Do(Lui(T0, 0x10))) && OpAt(f, NEXT_BANK, 1, Addi(T0, T0, 0))
    ensures OpAt(f, NEXT_BANK, 2, Do(Alu(ADD, S8, S8, T0))) && OpAt(f, NEXT_BANK, 3, Bne(S8, S2, BANK))
  {
    hide Setup, OpAt;
    CodeAt(f, a, LANES, 0); CodeAt(f, a, BANK, 0); CodeAt(f, a, BANK, 1); CodeAt(f, a, NEXT_BANK, 0);
    CodeAt(f, a, NEXT_BANK, 1); CodeAt(f, a, NEXT_BANK, 2); CodeAt(f, a, NEXT_BANK, 3);
  }

  lemma BankInRegion(f: Firmware, b: nat, banks: nat)
    requires Sound(f.env) && f.env.deviceSize == BANK_SIZE * banks && b < banks
    ensures InDevice(f, f.env.device + BANK_SIZE * b)
    ensures AluValue(ADD, f.env.device + BANK_SIZE * b, BANK_SIZE) == Wrap(f.env.device + BANK_SIZE * (b + 1))
  {}

  /** One bank, and the address moved to the next. */
  lemma RunBank(f: Firmware, a: Params, s0: State, s: State, b: nat, banks: nat) returns (t: State)
    requires Setup(f, a) && Reaches(f.env, s0, s) && Bases(f, s) && |f.p| == SECTIONS && s.pc == At(f, BANK, 0)
    requires b < banks && f.env.deviceSize == BANK_SIZE * banks && f.env.device + BANK_SIZE * banks <= WORD_LIMIT
    requires Get(s, S8) == f.env.device + BANK_SIZE * b
    ensures Reaches(f.env, s0, t) && Bases(f, t)
    ensures var o := BankTest(f.env.reply, s.bus, f.env.device + BANK_SIZE * b, 0);
            && t.bus == o.bus
            && if o.Failed? then Failing(f, t, o)
               else t.pc == At(f, NEXT_BANK, 3) && Get(t, S8) == Wrap(f.env.device + BANK_SIZE * (b + 1))
    ensures t.popped == s.popped && t.sent == s.sent
  {
    hide Loaded, Reaches, At, Get, OpAt, Source, BankTest, Sound, AluValue, Wrap;
    BankCode(f, a);
    LoadedIsSound(f);
    BankInRegion(f, b, banks);
    var addr := f.env.device + BANK_SIZE * b;
    MoveAddZero(addr);
    var s1 := GoAddImm(f, s0, s, BANK, 0, S3, S8, 0);
    ZeroIsZero(s1);
    MoveAddZero(0);
    var s2 := GoAddImm(f, s0, s1, BANK, 1, S7, ZERO, 0);
    FallsThrough(f, BANK);
    var s3 := RunLanes(f, a, s0, s2, addr, 0);
    if BankTest(f.env.reply, s.bus, addr, 0).Failed? {
      t := s3;
    } else {
      var s4 := GoLui(f, s0, s3, NEXT_BANK, 0, T0, 0x10);
      assert Wrap(0x10 * 0x1000) == BANK_SIZE by { WrapSmall(BANK_SIZE); }
      MoveAddZero(BANK_SIZE);
      var s5 := GoAddImm(f, s0, s4, NEXT_BANK, 1, T0, T0, 0);
      t := GoAlu(f, s0, s5, NEXT_BANK, 2, ADD, S8, S8, T0);
    }
  }

  lemma RunBanks(f: Firmware, a: Params, s0: State, s: State, b: nat, banks: nat) returns (t: State)
    requires Setup(f, a) && Reaches(f.env, s0, s) && Bases(f, s) && |f.p| == SECTIONS && s.pc == At(f, BANK, 0)
    requires b < banks && f.env.deviceSize == BANK_SIZE * banks && f.env.device + BANK_SIZE * banks <= WORD_LIMIT
    requires Get(s, S8) == f.env.device + BANK_SIZE * b
    ensures Reaches(f.env, s0, t) && Bases(f, t)
    ensures var o := LanePass(f.env.reply, s.bus, f.env.device, b, banks);
            t.bus == o.bus && if o.Failed? then Failing(f, t, o) else t.pc == At(f, SpramProgram.PASSED, 0)
    ensures t.popped == s.popped && t.sent == s.sent
    decreases banks - b
  {
    hide Loaded, Reaches, At, Get, OpAt, Source, BankTest, Wrap;
    var o := BankTest(f.env.reply, s.bus, f.env.device + BANK_SIZE * b, 0);
    var s1 := RunBank(f, a, s0, s, b, banks);
    if o.Failed? {
      t := s1;
    } else {
      BankCode(f, a);
      EndReached(f.env.device, BANK_SIZE * banks, BANK_SIZE * (b + 1));
      var s2 := GoBranch(f, s0, s1, NEXT_BANK, 3, false, S8, S2, BANK);
      if b + 1 < banks {
        t := RunBanks(f, a, s0, s2, b + 1, banks);
      } else {
        t := s2;
        FallsThrough(f, NEXT_BANK);
        assert LanePass(f.env.reply, o.bus, f.env.device, banks, banks) == SpramTest.Passed(o.bus);
      }
    }
  }

  // ---- the whole test ----

  /** From the first pass to a verdict. */
  lemma RunTest(f: Firmware, a: Params, s0: State, s: State, banks: nat) returns (t: State)
    requires Setup(f, a) && Reaches(f.env, s0, s) && Bases(f, s) && |f.p| == SECTIONS && s.pc == At(f, PASS, 0)
    requires 0 < banks && f.env.deviceSize == BANK_SIZE * banks && f.env.device + BANK_SIZE * banks <= WORD_LIMIT
    requires Get(s, A2) == 0
    ensures Reaches(f.env, s0, t) && Bases(f, t)
    ensures var o := TestMemory(f.env.reply, s.bus, f.env.device, banks);
            t.bus == o.bus && if o.Failed? then Failing(f, t, o) else t.pc == At(f, SpramProgram.PASSED, 0)
    ensures t.popped == s.popped && t.sent == s.sent
  {
    hide Loaded, Reaches, At, Get, OpAt, Source, PatternPass, LanePass;
    var n := BANK_SIZE / 4 * banks;
    var base := f.env.device;
    var plain := PatternPass(f.env.reply, s.bus, base, n, false);
    var s1 := RunPass(f, a, s0, s, n, false);
    if plain.Failed? {
      t := s1;
    } else {
      var s2 := RunSecondPass(f, a, s0, s1);
      var inverse := PatternPass(f.env.reply, plain.bus, base, n, true);
      var s3 := RunPass(f, a, s0, s2, n, true);
      if inverse.Failed? {
        t := s3;
      } else {
        var s4 := RunToLanes(f, a, s0, s3);
        t := RunBanks(f, a, s0, s4, 0, banks);
      }
    }
  }

  lemma RunSecondPass(f: Firmware, a: Params, s0: State, s: State) returns (t: State)
    requires Setup(f, a) && Reaches(f.env, s0, s) && Bases(f, s) && |f.p| == SECTIONS && s.pc == At(f, READ, 6)
    requires Get(s, A2) == 0
    ensures Reaches(f.env, s0, t) && Bases(f, t) && t.pc == At(f, PASS, 0) && Get(t, A2) == ONES && Silent(s, t)
  {
    hide Loaded, Reaches, At, Get, OpAt, Source;
    ReadCode(f, a);
    ZeroIsZero(s);
    var s1 := GoBranch(f, s0, s, READ, 6, false, A2, ZERO, LANES);
    ZeroIsZero(s1);
    var s2 := GoAddImm(f, s0, s1, READ, 7, A2, ZERO, -1);
    t := GoJump(f, s0, s2, READ, 8, PASS);
  }

  lemma RunToLanes(f: Firmware, a: Params, s0: State, s: State) returns (t: State)
    requires Setup(f, a) && Reaches(f.env, s0, s) && Bases(f, s) && |f.p| == SECTIONS && s.pc == At(f, READ, 6)
    requires Get(s, A2) == ONES
    ensures Reaches(f.env, s0, t) && Bases(f, t) && t.pc == At(f, BANK, 0) && Get(t, S8) == f.env.device && Silent(s, t)
  {
    hide Loaded, Reaches, At, Get, OpAt, Source, Wrap;
    ReadCode(f, a);
    BankCode(f, a);
    ZeroIsZero(s);
    var s1 := GoBranch(f, s0, s, READ, 6, false, A2, ZERO, LANES);
    MoveAddZero(Get(s1, S1));
    t := GoAddImm(f, s0, s1, LANES, 0, S8, S1, 0);
    FallsThrough(f, LANES);
  }

  // ---- the report ----

  lemma RoutineCodeAt(f: Firmware, a: Params)
    requires Setup(f, a)
    ensures PutstrAt(f, PUTSTR)
  {
    hide Setup, OpAt;
    CodeAt(f, a, PUTSTR, 0); CodeAt(f, a, PUTSTR, 1); CodeAt(f, a, PUTSTR_TX, 0); CodeAt(f, a, PUTSTR_TX, 1);
    CodeAt(f, a, PUTSTR_TX, 2); CodeAt(f, a, PUTSTR_TX, 3); CodeAt(f, a, PUTSTR_TX, 4); CodeAt(f, a, PUTSTR_RET, 0);
  }

  lemma HexCodeAt(f: Firmware, a: Params)
    requires Setup(f, a)
    ensures PuthexAt(f, PUTHEX32, HEX)
  {
    hide Setup, OpAt;
    CodeAt(f, a, PUTHEX32, 0); CodeAt(f, a, PUTHEX32, 1); CodeAt(f, a, PUTHEX32, 2);
    CodeAt(f, a, PUTHEX32_DIGIT, 0); CodeAt(f, a, PUTHEX32_DIGIT, 1); CodeAt(f, a, PUTHEX32_DIGIT, 2);
    CodeAt(f, a, PUTHEX32_TX, 0); CodeAt(f, a, PUTHEX32_TX, 1); CodeAt(f, a, PUTHEX32_TX, 2);
    CodeAt(f, a, PUTHEX32_TX, 3); CodeAt(f, a, PUTHEX32_TX, 4); CodeAt(f, a, PUTHEX32_TX, 5);
    CodeAt(f, a, PUTHEX32_TX, 6);
    TextAt(f, a, HEX);
  }

  /** puts() of a string of this program. */
  lemma RunPuts(f: Firmware, a: Params, s0: State, s: State, k: Label, j: nat, d: Label) returns (t: State)
    requires Setup(f, a) && Fair(f.env) && Reaches(f.env, s0, s) && Bases(f, s) && |f.p| == SECTIONS
    requires k < BANNER <= d < SECTIONS && j + 2 < |CodeOf(a, k)| && s.pc == At(f, k, j)
    requires CodeOf(a, k)[j] == AuipcOf(A0, d) && CodeOf(a, k)[j + 1] == AddiOf(A0, d)
    requires CodeOf(a, k)[j + 2] == Call(PUTSTR)
    ensures Reaches(f.env, s0, t) && Bases(f, t) && t.pc == At(f, k, j + 3)
    ensures Kept(s, t, {RA, T0, T1, A0}) && t.bus == s.bus && t.popped == s.popped
    ensures t.sent == s.sent + Printed(TextOf(a, d))
  {
    hide Loaded, Reaches, At, Get, OpAt, Source, CodeOf, PutstrAt, TextOf, Printed;
    CodeAt(f, a, k, j); CodeAt(f, a, k, j + 1); CodeAt(f, a, k, j + 2);
    TextAt(f, a, d);
    RoutineCodeAt(f, a);
    t := Puts(f, s0, s, k, j, d, PUTSTR);
  }

  /** puts() of a string and puthex32() of a register, as each part of the FAIL line is. */
  lemma RunPutsHex(f: Firmware, a: Params, s0: State, s: State, k: Label, d: Label, r: nat) returns (t: State)
    requires Setup(f, a) && Fair(f.env) && Reaches(f.env, s0, s) && Bases(f, s) && |f.p| == SECTIONS
    requires k < PATTERN && BANNER <= d < SECTIONS && |CodeOf(a, k)| == 5 && s.pc == At(f, k, 0)
    requires r !in {ZERO, RA, T0, T1, A0}
    requires CodeOf(a, k) == [AuipcOf(A0, d), AddiOf(A0, d), Call(PUTSTR), Addi(A0, r, 0), Call(PUTHEX32)]
    ensures Reaches(f.env, s0, t) && Bases(f, t) && t.pc == At(f, k + 1, 0)
    ensures Kept(s, t, {RA, T0, T1, T2, T3, A0}) && t.bus == s.bus && t.popped == s.popped
    ensures t.sent == s.sent + (Printed(TextOf(a, d)) + Hex(Get(s, r), 8))
  {
    hide Loaded, Reaches, At, Get, OpAt, Source, CodeOf, PuthexAt, TextOf, Printed, Hex, Wrap;
    var s1 := RunPuts(f, a, s0, s, k, 0, d);
    CodeAt(f, a, k, 3); CodeAt(f, a, k, 4);
    MoveAddZero(Get(s1, r));
    var s2 := GoAddImm(f, s0, s1, k, 3, A0, r, 0);
    var s3 := GoCall(f, s0, s2, k, 4, PUTHEX32);
    HexCodeAt(f, a);
    t := Puthex(f, s0, s3, PUTHEX32, HEX);
    FallsThrough(f, k);
    assert s.sent + Printed(TextOf(a, d)) + Hex(Get(s, r), 8)
        == s.sent + (Printed(TextOf(a, d)) + Hex(Get(s, r), 8));
  }

  /** puts() of a string and a jump to the wait, as both reports end. */
  lemma RunPutsWait(f: Firmware, a: Params, s0: State, s: State, k: Label, d: Label) returns (t: State)
    requires Setup(f, a) && Fair(f.env) && Reaches(f.env, s0, s) && Bases(f, s) && |f.p| == SECTIONS
    requires k < PATTERN && BANNER <= d < SECTIONS && |CodeOf(a, k)| == 4 && s.pc == At(f, k, 0)
    requires CodeOf(a, k) == [AuipcOf(A0, d), AddiOf(A0, d), Call(PUTSTR), Jump(WAIT)]
    ensures Reaches(f.env, s0, t) && Bases(f, t) && t.pc == At(f, WAIT, 0)
    ensures t.bus == s.bus && t.popped == s.popped && t.sent == s.sent + Printed(TextOf(a, d))
  {
    hide Loaded, Reaches, At, Get, OpAt, Source, CodeOf, TextOf, Printed;
    var s1 := RunPuts(f, a, s0, s, k, 0, d);
    CodeAt(f, a, k, 3);
    t := GoJump(f, s0, s1, k, 3, WAIT);
  }

  lemma RunFailReport(f: Firmware, a: Params, s0: State, s: State, o: Outcome) returns (t: State)
    requires Setup(f, a) && Fair(f.env) && Reaches(f.env, s0, s) && Bases(f, s) && |f.p| == SECTIONS && Failing(f, s, o)
    ensures Reaches(f.env, s0, t) && Bases(f, t) && t.pc == At(f, WAIT, 0)
    ensures t.bus == s.bus && t.popped == s.popped && t.sent == s.sent + Report(o)
  {
    hide Loaded, Reaches, At, Get, OpAt, Source, Printed, Hex;
    var s1 := RunPutsHex(f, a, s0, s, FAIL, FAIL_TEXT, S3);
    var s2 := RunPutsHex(f, a, s0, s1, FAIL_READ, READ_TEXT, S6);
    var s3 := RunPutsHex(f, a, s0, s2, FAIL_EXPECTED, EXPECTED_TEXT, S4);
    t := RunPutsWait(f, a, s0, s3, FAIL_END, CRLF);
    Joined(s.sent, Printed(TextOf(a, FAIL_TEXT)), Hex(o.at, 8), Printed(TextOf(a, READ_TEXT)), Hex(o.read, 8),
           Printed(TextOf(a, EXPECTED_TEXT)), Hex(o.expected, 8), Printed(TextOf(a, CRLF)));
  }

  lemma Joined(x: seq<nat>, a: seq<nat>, b: seq<nat>, c: seq<nat>, d: seq<nat>, e: seq<nat>, g: seq<nat>, h: seq<nat>)
    ensures x + (a + b) + (c + d) + (e + g) + h == x + (a + b + c + d + e + g + h)
  {}

  lemma RunReport(f: Firmware, a: Params, s0: State, s: State, o: Outcome) returns (t: State)
    requires Setup(f, a) && Fair(f.env) && Reaches(f.env, s0, s) && Bases(f, s) && |f.p| == SECTIONS
    requires if o.Failed? then Failing(f, s, o) else s.pc == At(f, SpramProgram.PASSED, 0)
    ensures Reaches(f.env, s0, t) && Bases(f, t) && t.pc == At(f, WAIT, 0)
    ensures t.bus == s.bus && t.popped == s.popped && t.sent == s.sent + Report(o)
  {
    hide Loaded, Reaches, At, Get, OpAt, Source, Printed, Hex;
    if o.Failed? {
      t := RunFailReport(f, a, s0, s, o);
    } else {
      t := RunPutsWait(f, a, s0, s, SpramProgram.PASSED, PASS_TEXT);
    }
  }

  // ---- waiting for a byte ----

  lemma WaitCode(f: Firmware, a: Params)
    requires Setup(f, a)
    ensures |f.p| == SECTIONS && f.p[WAIT].Code? && |f.p[WAIT].ops| == 6
    ensures OpAt(f, WAIT, 0, Lw(T0, S0, 8)) && OpAt(f, WAIT, 1, Bne(T0, ZERO, WAIT)) && OpAt(f, WAIT, 2, Lw(T0, S0, 0))
    ensures OpAt(f, WAIT, 3, Addi(T0, ZERO, 2)) && OpAt(f, WAIT, 4, Sw(T0, S0, 16))
    ensures OpAt(f, WAIT, 5, Addi(A2, ZERO, 0))
  {
    hide Setup, OpAt;
    CodeAt(f, a, WAIT, 0); CodeAt(f, a, WAIT, 1); CodeAt(f, a, WAIT, 2); CodeAt(f, a, WAIT, 3);
    CodeAt(f, a, WAIT, 4); CodeAt(f, a, WAIT, 5);
  }

  /** While nothing has arrived the loop only takes time. */
  lemma RunIdle(f: Firmware, a: Params, s0: State, s: State) returns (t: State)
    requires Setup(f, a) && Reaches(f.env, s0, s) && Bases(f, s) && |f.p| == SECTIONS && s.pc == At(f, WAIT, 0)
    requires RxEmpty(f.env, s)
    ensures Reaches(f.env, s0, t) && Bases(f, t) && t.pc == At(f, WAIT, 0) && Silent(s, t) && t.time == s.time + 2
  {
    hide Loaded, Reaches, At, Get, OpAt, Source;
    WaitCode(f, a);
    var s1 := GoLoadRxEmpty(f, s0, s, WAIT, 0, T0);
    ZeroIsZero(s1);
    t := GoBranch(f, s0, s1, WAIT, 1, false, T0, ZERO, WAIT);
  }

  /** A byte is there: it is taken out, and the test starts. */
  lemma RunTake(f: Firmware, a: Params, s0: State, s: State) returns (t: State)
    requires Setup(f, a) && Reaches(f.env, s0, s) && Bases(f, s) && |f.p| == SECTIONS && s.pc == At(f, WAIT, 0)
    requires !RxEmpty(f.env, s)
    ensures Reaches(f.env, s0, t) && Bases(f, t) && t.pc == At(f, PASS, 0) && Get(t, A2) == 0
    ensures t.bus == s.bus && t.sent == s.sent && t.popped == s.popped + 1
  {
    hide Loaded, Reaches, At, Get, OpAt, Source;
    WaitCode(f, a);
    LoadedIsSound(f);
    var s1 := GoLoadRxEmpty(f, s0, s, WAIT, 0, T0);
    ZeroIsZero(s1);
    var s2 := GoBranch(f, s0, s1, WAIT, 1, false, T0, ZERO, WAIT);
    ArrivedGrows(f.env, s.time, s2.time);
    var s3 := GoLoadRx(f, s0, s2, WAIT, 2, T0);
    ZeroIsZero(s3);
    var s4 := GoAddImm(f, s0, s3, WAIT, 3, T0, ZERO, 2);
    ArrivedGrows(f.env, s.time, s4.time);
    var s5 := GoPop(f, s0, s4, WAIT, 4, T0);
    ZeroIsZero(s5);
    t := GoAddImm(f, s0, s5, WAIT, 5, A2, ZERO, 0);
    FallsThrough(f, WAIT);
  }

  lemma RunWait(f: Firmware, a: Params, s0: State, s: State, u: nat) returns (t: State)
    requires Setup(f, a) && Reaches(f.env, s0, s) && Bases(f, s) && |f.p| == SECTIONS && s.pc == At(f, WAIT, 0)
    requires f.env.arrived(u) > s.popped
    ensures Reaches(f.env, s0, t) && Bases(f, t) && t.pc == At(f, PASS, 0) && Get(t, A2) == 0
    ensures t.bus == s.bus && t.sent == s.sent && t.popped == s.popped + 1
    decreases if s.time <= u then u - s.time + 1 else 0
  {
    hide Loaded, Reaches, At, Get, OpAt, Source;
    if RxEmpty(f.env, s) {
      LoadedIsSound(f);
      if u <= s.time {
        ArrivedGrows(f.env, u, s.time);
      }
      var s1 := RunIdle(f, a, s0, s);
      t := RunWait(f, a, s0, s1, u);
    } else {
      t := RunTake(f, a, s0, s);
    }
  }

  // ---- from reset ----

  lemma EntryCode(f: Firmware, a: Params)
    requires Setup(f, a)
    ensures |f.p| == SECTIONS && f.p[ENTRY].Code? && |f.p[ENTRY].ops| == 7
    ensures OpAt(f, ENTRY, 0, LoadHigh(S0, a.uart)) && OpAt(f, ENTRY, 1, LoadLow(S0, a.uart))
    ensures OpAt(f, ENTRY, 2, LoadHigh(S1, a.base)) && OpAt(f, ENTRY, 3, LoadLow(S1, a.base))
    ensures OpAt(f, ENTRY, 4, LoadHigh(S2, a.base + a.size)) && OpAt(f, ENTRY, 5, LoadLow(S2, a.base + a.size))
    ensures OpAt(f, ENTRY, 6, Do(Lui(T0, 0x40)))
  {
    hide Setup, OpAt, SplitImm32;
    CodeAt(f, a, ENTRY, 0); CodeAt(f, a, ENTRY, 1); CodeAt(f, a, ENTRY, 2); CodeAt(f, a, ENTRY, 3);
    CodeAt(f, a, ENTRY, 4); CodeAt(f, a, ENTRY, 5); CodeAt(f, a, ENTRY, 6);
  }

  lemma RunEntry(f: Firmware, a: Params, s0: State, s: State) returns (t: State)
    requires Setup(f, a) && Reaches(f.env, s0, s) && |f.p| == SECTIONS && s.pc == At(f, ENTRY, 0)
    requires s.level <= f.env.depth
    ensures Reaches(f.env, s0, t) && Bases(f, t) && t.pc == At(f, DELAY, 0) && Get(t, T0) == 0x4_0000 && Silent(s, t)
  {
    hide Loaded, Reaches, At, Get, OpAt, Source, SplitImm32;
    EntryCode(f, a);
    LoadedIsSound(f);
    var s1 := RunLoad(f, s0, s, ENTRY, 0, S0, a.uart);
    var s2 := RunLoad(f, s0, s1, ENTRY, 2, S1, a.base);
    var s3 := RunLoad(f, s0, s2, ENTRY, 4, S2, a.base + a.size);
    assert Wrap(a.uart) == a.uart && (a.base < WORD_LIMIT ==> Wrap(a.base) == a.base);
    t := GoLui(f, s0, s3, ENTRY, 6, T0, 0x40);
    assert Wrap(0x40 * 0x1000) == 0x4_0000;
    FallsThrough(f, ENTRY);
  }

  lemma DelayCode(f: Firmware, a: Params)
    requires Setup(f, a)
    ensures |f.p| == SECTIONS && f.p[DELAY].Code? && |f.p[DELAY].ops| == 2
    ensures OpAt(f, DELAY, 0, Addi(T0, T0, -1)) && OpAt(f, DELAY, 1, Bne(T0, ZERO, DELAY))
  {
    hide Setup, OpAt;
    CodeAt(f, a, DELAY, 0); CodeAt(f, a, DELAY, 1);
  }

  /** The transmit line idles until the count is down. */
  lemma RunDelay(f: Firmware, a: Params, s0: State, s: State, n: nat) returns (t: State)
    requires Setup(f, a) && Reaches(f.env, s0, s) && Bases(f, s) && |f.p| == SECTIONS && s.pc == At(f, DELAY, 0)
    requires Get(s, T0) == n + 1
    ensures Reaches(f.env, s0, t) && Bases(f, t) && t.pc == At(f, HELLO, 0) && Silent(s, t)
    decreases n
  {
    hide Loaded, Reaches, At, Get, OpAt, Source;
    DelayCode(f, a);
    CountDown(n);
    var s1 := GoAddImm(f, s0, s, DELAY, 0, T0, T0, -1);
    ZeroIsZero(s1);
    var s2 := GoBranch(f, s0, s1, DELAY, 1, false, T0, ZERO, DELAY);
    if n > 0 {
      t := RunDelay(f, a, s0, s2, n - 1);
    } else {
      t := s2;
      FallsThrough(f, DELAY);
    }
  }

  /** What it says once, before the first wait. */
  function Greeting(ident: string): seq<nat> {
    Printed("\r\nLiteX custom firmware\r\n") + Printed(ident + "\r\n") + Printed("SPRAM_READY\r\n")
  }

  lemma RunHello(f: Firmware, a: Params, s0: State, s: State) returns (t: State)
    requires Setup(f, a) && Fair(f.env) && Reaches(f.env, s0, s) && Bases(f, s) && |f.p| == SECTIONS
    requires s.pc == At(f, HELLO, 0)
    ensures Reaches(f.env, s0, t) && Bases(f, t) && t.pc == At(f, WAIT, 0)
    ensures t.bus == s.bus && t.popped == s.popped && t.sent == s.sent + Greeting(a.ident)
  {
    hide Loaded, Reaches, At, Get, OpAt, Source, Printed;
    var s1 := RunPuts(f, a, s0, s, HELLO, 0, BANNER);
    var s2 := RunPuts(f, a, s0, s1, HELLO, 3, IDENT);
    t := RunPuts(f, a, s0, s2, HELLO, 6, READY);
    CodeAt(f, a, HELLO, 0);
    FallsThrough(f, HELLO);
    assert t.sent == s.sent + (Printed(TextOf(a, BANNER)) + Printed(TextOf(a, IDENT)) + Printed(TextOf(a, READY)));
  }

  /** From reset, whatever the registers hold: the greeting, and then the wait. */
  lemma Boots(f: Firmware, a: Params, s: State) returns (t: State)
    requires Setup(f, a) && Fair(f.env) && AtReset(f, s)
    ensures |f.p| == SECTIONS && Reaches(f.env, s, t) && Bases(f, t) && t.pc == At(f, WAIT, 0)
    ensures t.bus == [] && t.popped == 0 && t.sent == Greeting(a.ident)
  {
    hide Loaded, Reaches, Get, Source, Greeting, Cells;
    ReachesItself(f.env, s);
    CodeAt(f, a, ENTRY, 0);
    assert s.pc == At(f, ENTRY, 0);
    var s1 := RunEntry(f, a, s, s);
    var s2 := RunDelay(f, a, s, s1, 0x3_FFFF);
    t := RunHello(f, a, s, s2);
    assert [] + Greeting(a.ident) == Greeting(a.ident);
  }

  // ---- the results ----

  /** What the generator returns, loaded at any origin of a sound address map that agrees with its arguments, is set up
      for all that follows. */
  lemma GeneratedIsSetUp(env: Env, a: Params)
    requires Sound(env) && SizeOk(a.size) && Ascii(a.ident) && IdentFits(a.ident)
    requires env.uart == a.uart && env.device == a.base && env.deviceSize == a.size
    requires AllResolvable(Cells(Source(a), |Source(a)|), Labels(Source(a), |Source(a)|)) && env.rom == Image(Source(a))
    ensures Setup(Firmware(env, Source(a)), a)
  {
    hide Sound, AllResolvable, Image, InstrAt, WellFormed, Encodable, OpOk;
    EveryReferenceFits(a);
    SourceIs(a, HEX);
  }

  /** A byte that arrives leads to the test's report, and back to the wait. */
  lemma AnswersByte(f: Firmware, a: Params, s0: State, s: State, banks: nat, u: nat) returns (t: State)
    requires Setup(f, a) && Fair(f.env) && Reaches(f.env, s0, s) && Bases(f, s) && |f.p| == SECTIONS
    requires s.pc == At(f, WAIT, 0)
    requires a.size == BANK_SIZE * banks && f.env.device + BANK_SIZE * banks <= WORD_LIMIT
    requires f.env.arrived(u) > s.popped
    ensures Reaches(f.env, s0, t) && Bases(f, t) && t.pc == At(f, WAIT, 0) && t.popped == s.popped + 1
    ensures var o := TestMemory(f.env.reply, s.bus, f.env.device, banks);
            t.bus == o.bus && t.sent == s.sent + Report(o)
  {
    hide Loaded, Reaches, At, Get, Source, TestMemory, Report;
    var s1 := RunWait(f, a, s0, s, u);
    var s2 := RunTest(f, a, s0, s1, banks);
    t := RunReport(f, a, s0, s2, TestMemory(f.env.reply, s.bus, f.env.device, banks));
  }

  /** The accesses and the text of k tests, one after the other, on one memory. */
  function Tests(memory: Memory, base: nat, banks: nat, k: nat): (seq<Access>, seq<nat>)
    requires base + BANK_SIZE * banks <= WORD_LIMIT
    decreases k
  {
    if k == 0 then ([], [])
    else
      var (bus, text) := Tests(memory, base, banks, k - 1);
      var o := TestMemory(memory, bus, base, banks);
      (o.bus, text + Report(o))
  }

  /** The number of banks of a region the firmware was generated for. */
  function BanksOf(a: Params): nat
    requires SizeOk(a.size)
  {
    a.size / BANK_SIZE
  }

  lemma RegionFits(f: Firmware, a: Params)
    requires Setup(f, a)
    ensures a.size == BANK_SIZE * BanksOf(a) && f.env.device + BANK_SIZE * BanksOf(a) <= WORD_LIMIT
  {
    hide Loaded, Source;
    LoadedIsSound(f);
  }

  /** For any memory, any address map, any ident that fits and any k: once k bytes have arrived, the firmware has said
      the greeting and the k reports of k whole tests, and nothing else, and waits. */
  lemma {:induction false} FirmwareAnswersEveryByte(f: Firmware, a: Params, s: State, k: nat, u: nat) returns (t: State)
    requires Setup(f, a) && Fair(f.env) && AtReset(f, s) && f.env.arrived(u) >= k
    ensures f.env.device + BANK_SIZE * BanksOf(a) <= WORD_LIMIT
    ensures |f.p| == SECTIONS && Reaches(f.env, s, t) && Bases(f, t) && t.pc == At(f, WAIT, 0) && t.popped == k
    ensures var (bus, text) := Tests(f.env.reply, f.env.device, BanksOf(a), k);
            t.bus == bus && t.sent == Greeting(a.ident) + text
    decreases k
  {
    hide Loaded, Reaches, At, Get, Source, Greeting, TestMemory, Report;
    RegionFits(f, a);
    if k == 0 {
      t := Boots(f, a, s);
    } else {
      var s1 := FirmwareAnswersEveryByte(f, a, s, k - 1, u);
      t := AnswersByte(f, a, s, s1, BanksOf(a), u);
    }
  }

  /** Waiting, with every byte that arrives in the next n instructions already answered: nothing is said or done. */
  lemma StaysQuiet(f: Firmware, a: Params, s: State, n: nat)
    requires Setup(f, a) && Bases(f, s) && |f.p| == SECTIONS && s.pc == At(f, WAIT, 0)
    requires f.env.arrived(s.time + n) <= s.popped
    ensures Run(f.env, s, n).sent == s.sent && Run(f.env, s, n).bus == s.bus
    decreases n
  {
    hide Loaded, At, Source, Run, Get;
    LoadedIsSound(f);
    RunZero(f.env, s);
    if n > 0 {
      ArrivedGrows(f.env, s.time, s.time + n);
      ReachesItself(f.env, s);
      var t := RunIdle(f, a, s, s);
      var m: nat :| Run(f.env, s, m) == t;
      RunExtends(f.env, s, 0, m);
      RunRun(f.env, s, 1, 1);
      if n == 1 {
        RunExtends(f.env, s, 0, 1);
        RunExtends(f.env, s, 1, m);
      } else {
        StaysQuiet(f, a, t, n - 2);
        RunRun(f.env, s, 2, n - 2);
      }
    }
  }

  lemma SaidWhileDraining(f: Firmware, a: Params, s: State, n: nat)
    requires Setup(f, a) && Fair(f.env) && AtReset(f, s)
    ensures f.env.device + BANK_SIZE * BanksOf(a) <= WORD_LIMIT
    ensures var (bus, text) := Tests(f.env.reply, f.env.device, BanksOf(a), f.env.arrived(s.time + n));
            var t := Run(f.env, s, n);
            t.sent <= Greeting(a.ident) + text && t.bus <= bus
  {
    hide Loaded, Source, Greeting, Tests, Run, At;
    var t := FirmwareAnswersEveryByte(f, a, s, f.env.arrived(s.time + n), s.time + n);
    var m: nat :| Run(f.env, s, m) == t;
    RunZero(f.env, s);
    RunExtends(f.env, s, 0, m);
    if n <= m {
      RunExtends(f.env, s, n, m);
    } else {
      StaysQuiet(f, a, t, n - m);
      RunRun(f.env, s, m, n - m);
    }
  }

  /** Nothing else is ever said or done: after any number of instructions, whatever arrives and even if the transmit
      FIFO stays full for ever, what has been sent is the beginning of the greeting and of the reports of as many
      tests as bytes have arrived, and what was done to the memory the beginning of those tests. */
  lemma NothingElseIsSaid(f: Firmware, a: Params, s: State, n: nat)
    requires Setup(f, a) && AtReset(f, s)
    ensures f.env.device + BANK_SIZE * BanksOf(a) <= WORD_LIMIT
    ensures var (bus, text) := Tests(f.env.reply, f.env.device, BanksOf(a), f.env.arrived(s.time + n));
            var t := Run(f.env, s, n);
            t.sent <= Greeting(a.ident) + text && t.bus <= bus
  {
    hide Loaded, Source, Greeting, Tests, Run;
    LoadedDrained(f, s.time + n);
    SaidWhileDraining(Drained(f, s.time + n), a, s, n);
    RunWhileSame(f.env, s.time + n, s, n);
  }

  /** And then it is quiet: if no more than k bytes ever arrive, then from some instruction on exactly the greeting
      and the k reports have been said. */
  lemma ThenQuiet(f: Firmware, a: Params, s: State, k: nat, u: nat) returns (m: nat)
    requires Setup(f, a) && Fair(f.env) && AtReset(f, s)
    requires f.env.arrived(u) == k && forall t: nat :: f.env.arrived(t) <= k
    ensures f.env.device + BANK_SIZE * BanksOf(a) <= WORD_LIMIT
    ensures forall n: nat :: m <= n ==>
              Run(f.env, s, n).sent == Greeting(a.ident) + Tests(f.env.reply, f.env.device, BanksOf(a), k).1
  {
    hide Loaded, Source, Greeting, Tests, Run, At;
    var t := FirmwareAnswersEveryByte(f, a, s, k, u);
    m :| Run(f.env, s, m) == t;
    forall n: nat | m <= n ensures Run(f.env, s, n).sent == t.sent {
      StaysQuiet(f, a, t, n - m);
      RunRun(f.env, s, m, n - m);
    }
  }
}
