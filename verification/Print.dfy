/** Printing: a string of the image through putstr, and a word through puthex32. */
module Print {
  import opened Bits
  import opened Encoding
  import opened Assembler
  import opened Layout
  import opened Machine
  import opened Console

  // ---- strings ----

  /** What putstr sends of a string: its bytes up to the first NUL. */
  function Printed(text: string): (b: seq<nat>)
    ensures |b| <= |text|
  {
    if text == [] || text[0] as int == 0 then [] else [text[0] as int] + Printed(text[1..])
  }

  lemma {:induction false} PrintedBytes(text: string)
    ensures forall i | 0 <= i < |Printed(text)| :: Printed(text)[i] == text[i] as int != 0
    ensures |Printed(text)| < |text| ==> text[|Printed(text)|] as int == 0
  {
    if text != [] && text[0] as int != 0 {
      PrintedBytes(text[1..]);
    }
  }

  /** All of a string without NULs is printed. */
  lemma {:induction false} PrintedWhole(text: string)
    requires forall i | 0 <= i < |text| :: text[i] as int != 0
    ensures |Printed(text)| == |text|
    ensures forall i | 0 <= i < |text| :: Printed(text)[i] == text[i] as int
  {
    PrintedBytes(text);
  }

  lemma StringSection(f: Firmware, d: nat)
    requires Loaded(f) && d < |f.p| && f.p[d].Data?
    ensures StringAt(f, At(f, d, 0), Printed(f.p[d].text)) && At(f, d, 0) < WORD_LIMIT
  {
    hide Loaded, RomByte, At, InRom, Printed, Start, StringAt;
    var text := f.p[d].text;
    var a := At(f, d, 0);
    PrintedBytes(text);
    CodeInRom(f, d);
    AtOrAbove(f, d);
    forall i: nat | i <= |text| ensures ByteIs(f, a, text, i) {
      ByteAt(f, d, i);
    }
    BytesMakeString(f, a, text, Printed(text));
  }

  /** Byte i of a string at an address: a character, or the NUL after the last. */
  predicate ByteIs(f: Firmware, a: nat, text: string, i: nat) {
    InRom(f, a + i) && RomByte(f, a + i) == if i < |text| then text[i] as int else 0
  }

  lemma BytesMakeString(f: Firmware, a: nat, text: string, bytes: seq<nat>)
    requires f.env.origin <= a && |bytes| <= |text|
    requires forall i: nat | i <= |text| :: ByteIs(f, a, text, i)
    requires forall i | 0 <= i < |bytes| :: bytes[i] == text[i] as int != 0
    requires |bytes| < |text| ==> text[|bytes|] as int == 0
    ensures StringAt(f, a, bytes)
  {
    hide RomByte;
    assert ByteIs(f, a, text, |bytes|);
    forall i | 0 <= i < |bytes| ensures InRom(f, a + i) && RomByte(f, a + i) == bytes[i] != 0 {
      assert ByteIs(f, a, text, i);
    }
  }

  lemma AtOrAbove(f: Firmware, d: nat)
    requires d < |f.p|
    ensures f.env.origin <= At(f, d, 0)
  {}

  lemma ByteAt(f: Firmware, d: nat, i: nat)
    requires Loaded(f) && d < |f.p| && f.p[d].Data? && i <= |f.p[d].text|
    ensures InRom(f, At(f, d, 0) + i)
    ensures RomByte(f, At(f, d, 0) + i) == if i < |f.p[d].text| then f.p[d].text[i] as int else 0
  {
    hide *;
    LoadedImage(f);
    TextByteAt(f.p, d, i);
    RomByteAt(f, Start(f.p, d), i);
    AtStart(f, d);
  }

  lemma AtStart(f: Firmware, d: nat)
    requires d < |f.p|
    ensures At(f, d, 0) == f.env.origin + 4 * Start(f.p, d)
  {
    hide Start;
  }

  lemma LoadedImage(f: Firmware)
    requires Loaded(f)
    ensures WellFormed(f.p) && AllResolvable(Cells(f.p, |f.p|), Labels(f.p, |f.p|)) && f.env.rom == Image(f.p)
  {}

  /** Byte i from word `at` of the ROM. */
  lemma RomByteAt(f: Firmware, at: nat, i: nat)
    requires at + i / 4 < |f.env.rom|
    ensures var a := f.env.origin + 4 * at + i; InRom(f, a) && RomByte(f, a) == ByteOf(f.env.rom[at + i / 4], i % 4)
  {
    hide ByteOf;
    var o := f.env.origin + 4 * at + i - f.env.origin;
    assert o == 4 * at + i;
    Quarters(at, i);
  }

  lemma Quarters(at: nat, i: nat)
    ensures (4 * at + i) / 4 == at + i / 4 && (4 * at + i) % 4 == i % 4
  {}

  /** The three words of a puts() at word j of section k. */
  predicate PutsAt(f: Firmware, k: nat, j: nat, d: nat, putstr: nat) {
    && OpAt(f, k, j, AuipcOf(A0, d)) && OpAt(f, k, j + 1, AddiOf(A0, d)) && OpAt(f, k, j + 2, Call(putstr))
    && k + 1 < |f.p| && d < |f.p| && f.p[d].Data?
  }

  /** AUIPC and ADDI leave a label's address, wherever the ROM is. */
  lemma GoAddress(f: Firmware, s0: State, s: State, k: nat, j: nat, reg: nat, d: nat) returns (t: State)
    requires Loaded(f) && OpAt(f, k, j, AuipcOf(reg, d)) && OpAt(f, k, j + 1, AddiOf(reg, d)) && d < |f.p|
    requires k + 1 < |f.p|
    requires s.pc == At(f, k, j) && Reaches(f.env, s0, s) && reg != ZERO && reg != S0 && Ready(f, s)
    ensures Reaches(f.env, s0, t) && t.pc == At(f, k, j + 2) && Get(t, reg) == At(f, d, 0) && Ready(f, t)
    ensures Kept(s, t, {reg}) && Silent(s, t)
  {
    hide Loaded, Reaches, At, ExecOp, Wrap;
    NextWord(f, k, j);
    NextWord(f, k, j + 1);
    AuipcSets(f, s, k, j, reg, d);
    var s1 := Go(f, s0, s, k, j, AuipcOf(reg, d));
    AddiSets(f, s1, s.pc, reg, d);
    t := Go(f, s0, s1, k, j + 1, AddiOf(reg, d));
  }

  lemma AuipcSets(f: Firmware, s: State, k: nat, j: nat, reg: nat, d: nat)
    requires Loaded(f) && OpAt(f, k, j, AuipcOf(reg, d)) && s.pc == At(f, k, j) && k + 1 < |f.p|
    ensures ExecOp(f, s, AuipcOf(reg, d)) == Set(s.(pc := s.pc + 4), reg, Wrap(s.pc)) && Wrap(s.pc) == s.pc
  {
    hide Loaded, At, Wrap;
    ReturnAddress(f, k, j);
    WrapSmall(s.pc);
  }

  lemma AddiSets(f: Firmware, s: State, pc: int, reg: nat, d: nat)
    requires Loaded(f) && d < |f.p| && Get(s, reg) == pc && s.pc == pc + 4
    ensures ExecOp(f, s, AddiOf(reg, d)) == Set(s.(pc := s.pc + 4), reg, Wrap(At(f, d, 0)))
    ensures Wrap(At(f, d, 0)) == At(f, d, 0)
  {
    hide Loaded, At, Wrap, Get;
    CodeInRom(f, d);
    WrapSmall(At(f, d, 0));
  }

  lemma Puts(f: Firmware, s0: State, s: State, k: nat, j: nat, d: nat, putstr: nat) returns (t: State)
    requires Loaded(f) && Fair(f.env) && PutsAt(f, k, j, d, putstr) && PutstrAt(f, putstr)
    requires Reaches(f.env, s0, s) && Ready(f, s) && s.pc == At(f, k, j)
    ensures Reaches(f.env, s0, t) && Ready(f, t) && t.pc == At(f, k, j + 3)
    ensures Kept(s, t, {RA, T0, T1, A0}) && t.bus == s.bus && t.popped == s.popped
    ensures t.sent == s.sent + Printed(f.p[d].text)
  {
    hide Loaded, Reaches, At, Get, Printed, PutstrAt, StringAt;
    var s1 := GoAddress(f, s0, s, k, j, A0, d);
    var s2 := GoCall(f, s0, s1, k, j + 2, putstr);
    StringSection(f, d);
    t := Putstr(f, s0, s2, putstr, Printed(f.p[d].text));
  }

  // ---- hex ----

  function HexDigit(d: nat): nat { if d < 10 then 0x30 + d else 0x37 + d }

  /** The n low hex digits of v, the most significant first, as printed. */
  function Hex(v: nat, n: nat): (b: seq<nat>)
    ensures |b| == n
  {
    if n == 0 then [] else Hex(v / 0x10, n - 1) + [HexDigit(v % 0x10)]
  }

  function Pow16(n: nat): (p: nat)
    ensures p > 0
  {
    if n == 0 then 1 else 0x10 * Pow16(n - 1)
  }

  /** The digits from the top: the first, and then those of the rest. */
  lemma {:induction false} HexFromTop(v: nat, n: nat)
    requires v < Pow16(n + 1)
    ensures var p := Pow16(n); v / p < 0x10 && Hex(v, n + 1) == [HexDigit(v / p)] + Hex(v % p, n)
    decreases n
  {
    if n == 0 {
      assert Hex(v, 1) == Hex(v / 0x10, 0) + [HexDigit(v % 0x10)];
    } else {
      var q := Pow16(n - 1);
      HexFromTop(v / 0x10, n - 1);
      Sixteenths(v, q);
      assert Hex(v, n + 1) == Hex(v / 0x10, n) + [HexDigit(v % 0x10)];
      assert Hex(v % (0x10 * q), n) == Hex(v / 0x10 % q, n - 1) + [HexDigit(v % 0x10)];
    }
  }

  lemma Sixteenths(v: nat, q: nat)
    requires q > 0
    ensures v / (0x10 * q) == v / 0x10 / q
    ensures v % (0x10 * q) / 0x10 == v / 0x10 % q && v % (0x10 * q) % 0x10 == v % 0x10
  {
    var h := v / 0x10;
    var low := h % q * 0x10 + v % 0x10;
    assert h == h / q * q + h % q;
    assert v == (h / q) * (0x10 * q) + low by {
      assert 0x10 * ((h / q) * q) == (h / q) * (0x10 * q);
    }
    Peel(h / q, low, 0x10 * q);
    Peel(h % q, v % 0x10, 0x10);
  }

  /** puthex32 at section k, its digits in the string section h. */
  predicate PuthexAt(f: Firmware, k: nat, h: nat) {
    && OpAt(f, k, 0, AuipcOf(T3, h)) && OpAt(f, k, 1, AddiOf(T3, h)) && OpAt(f, k, 2, Do(AluImm(ADD, T2, ZERO, 8)))
    && |f.p[k].ops| == 3 && k + 1 < |f.p|
    && OpAt(f, k + 1, 0, Do(AluImm(SRL, T0, A0, 28))) && OpAt(f, k + 1, 1, Do(Alu(ADD, T0, T3, T0)))
    && OpAt(f, k + 1, 2, Do(Load(Byte, T0, T0, 0))) && |f.p[k + 1].ops| == 3
    && OpAt(f, k + 2, 0, Do(Load(Wide, T1, S0, 4))) && OpAt(f, k + 2, 1, BranchTo(false, T1, ZERO, k + 2))
    && OpAt(f, k + 2, 2, Do(Store(Wide, T0, S0, 0))) && OpAt(f, k + 2, 3, Do(AluImm(SLL, A0, A0, 4)))
    && OpAt(f, k + 2, 4, Do(AluImm(ADD, T2, T2, -1))) && OpAt(f, k + 2, 5, BranchTo(false, T2, ZERO, k + 1))
    && OpAt(f, k + 2, 6, Do(Jalr(ZERO, RA, 0)))
    && h < |f.p| && f.p[h].Data? && f.p[h].text == "0123456789ABCDEF"
  }

  lemma HexTable(d: nat)
    requires d < 0x10
    ensures "0123456789ABCDEF"[d] as int == HexDigit(d)
  {}

  lemma DigitByte(f: Firmware, h: nat, d: nat)
    requires Loaded(f) && h < |f.p| && f.p[h].Data? && f.p[h].text == "0123456789ABCDEF" && d < 0x10
    ensures InRom(f, At(f, h, 0) + d) && RomByte(f, At(f, h, 0) + d) == HexDigit(d)
    ensures Wrap(At(f, h, 0) + d) == At(f, h, 0) + d
  {
    hide Loaded, RomByte, At, HexDigit;
    LoadedIsSound(f);
    ByteAt(f, h, d);
    HexTable(d);
    AtOrAbove(f, h);
  }

  /** The top digit of a word, and the rest moved up. */
  lemma TopDigit(a: Word, v: nat, n: nat)
    requires n < 8 && v < Pow16(n + 1) && a == v * Pow16(7 - n)
    ensures AluValue(SRL, a, Wrap(28)) == v / Pow16(n) < 0x10
    ensures AluValue(SLL, a, Wrap(4)) == v % Pow16(n) * Pow16(8 - n)
  {
    hide AluValue;
    var p, q := Pow16(n), Pow16(7 - n);
    HexFromTop(v, n);
    Pow16Add(n, 7 - n);
    assert Pow16(8 - n) == 0x10 * q;
    TopDigitProduct(a, v, p, q);
  }

  lemma TopDigitProduct(a: Word, v: nat, p: nat, q: nat)
    requires p > 0 && q > 0 && p * q == 0x1000_0000 && v / p < 0x10 && a == v * q
    ensures AluValue(SRL, a, Wrap(28)) == v / p && AluValue(SLL, a, Wrap(4)) == v % p * (0x10 * q)
  {
    hide AluValue;
    var hi, low := v / p, v % p;
    SplitProduct(v, hi, low, p, q);
    Regroup(low, q);
    ShiftedWord(a, hi, low * q);
  }

  lemma Regroup(a: nat, b: nat)
    ensures a * (0x10 * b) == a * b * 0x10
  {}

  lemma ShiftedWord(a: Word, hi: nat, rest: nat)
    requires a == hi * 0x1000_0000 + rest && rest < 0x1000_0000 && hi < 0x10
    ensures AluValue(SRL, a, Wrap(28)) == hi && AluValue(SLL, a, Wrap(4)) == rest * 0x10
  {
    Pow2Values();
    ShrValue(a, 28);
    ShlValue(a, 4);
    Peel(hi, rest, 0x1000_0000);
    Peel(hi, rest * 0x10, WORD_LIMIT);
  }

  lemma {:induction false} Pow16Add(m: nat, n: nat)
    ensures Pow16(m) * Pow16(n) == Pow16(m + n)
    ensures Pow16(7) == 0x1000_0000
  {
    if m != 0 {
      Pow16Add(m - 1, n);
      assert 0x10 * (Pow16(m - 1) * Pow16(n)) == (0x10 * Pow16(m - 1)) * Pow16(n);
    }
  }

  lemma SplitProduct(v: nat, hi: nat, low: nat, p: nat, q: nat)
    requires low < p && q > 0 && v == hi * p + low
    ensures v * q == hi * (p * q) + low * q && low * q < p * q
  {}

  /** One digit: looked up, sent, and the word moved up. */
  lemma PuthexDigit(f: Firmware, s0: State, s: State, k: nat, h: nat, d: nat, rest: Word) returns (t: State)
    requires Loaded(f) && Fair(f.env) && PuthexAt(f, k, h)
    requires Reaches(f.env, s0, s) && Ready(f, s) && s.pc == At(f, k + 1, 0) && Get(s, T3) == At(f, h, 0)
    requires AluValue(SRL, Get(s, A0), Wrap(28)) == d < 0x10 && AluValue(SLL, Get(s, A0), Wrap(4)) == rest
    ensures Reaches(f.env, s0, t) && Ready(f, t) && t.pc == At(f, k + 2, 4) && Get(t, A0) == rest
    ensures Kept(s, t, {T0, T1, A0}) && t.bus == s.bus && t.popped == s.popped && t.sent == s.sent + [HexDigit(d)]
  {
    hide Loaded, Reaches, At, Get, RomByte, AluValue, Wrap;
    var s1 := GoAluImm(f, s0, s, k + 1, 0, SRL, T0, A0, 28);
    DigitByte(f, h, d);
    AddIs(At(f, h, 0), d);
    var s2 := GoAlu(f, s0, s1, k + 1, 1, ADD, T0, T3, T0);
    var s3 := GoLoadRomByte(f, s0, s2, k + 1, 2, T0, T0);
    FallsThrough(f, k + 1);
    var s4 := WaitForRoomHere(f, s0, s3, k + 2, T1);
    var s5 := GoSend(f, s0, s4, k + 2, 2, T0);
    t := GoAluImm(f, s0, s5, k + 2, 3, SLL, A0, A0, 4);
  }

  lemma AddIs(a: Word, b: Word)
    ensures AluValue(ADD, a, b) == Wrap(a + b)
  {}

  lemma PuthexLoop(f: Firmware, s0: State, s: State, k: nat, h: nat, v: nat, n: nat) returns (t: State)
    requires Loaded(f) && Fair(f.env) && PuthexAt(f, k, h)
    requires Reaches(f.env, s0, s) && Ready(f, s) && s.pc == At(f, k + 1, 0) && Get(s, T3) == At(f, h, 0)
    requires n < 8 && v < Pow16(n + 1) && Get(s, A0) == v * Pow16(7 - n) && Get(s, T2) == n + 1
    requires Get(s, RA) % 4 == 0
    ensures Reaches(f.env, s0, t) && Ready(f, t) && t.pc == Get(s, RA)
    ensures Kept(s, t, {T0, T1, T2, A0}) && t.bus == s.bus && t.popped == s.popped
    ensures t.sent == s.sent + Hex(v, n + 1)
    decreases n
  {
    hide Loaded, Reaches, At, Get, Pow16, Hex, HexDigit, AluValue;
    HexFromTop(v, n);
    TopDigit(Get(s, A0), v, n);
    var s1 := PuthexDigit(f, s0, s, k, h, v / Pow16(n), v % Pow16(n) * Pow16(8 - n));
    var s2 := GoAddImm(f, s0, s1, k + 2, 4, T2, T2, -1);
    CountDown(n);
    ZeroIsZero(s2);
    var s3 := GoBranch(f, s0, s2, k + 2, 5, false, T2, ZERO, k + 1);
    if n == 0 {
      assert Hex(v % Pow16(0), 0) == [];
      t := GoReturn(f, s0, s3, k + 2, 6);
    } else {
      t := PuthexLoop(f, s0, s3, k, h, v % Pow16(n), n - 1);
      assert s.sent + [HexDigit(v / Pow16(n))] + Hex(v % Pow16(n), n)
          == s.sent + ([HexDigit(v / Pow16(n))] + Hex(v % Pow16(n), n));
    }
  }

  lemma CountDown(n: nat)
    requires n < WORD_LIMIT
    ensures Wrap(n + 1 - 1) == n
  {}

  /** puthex32 sends A0 as eight hex digits, and returns. */
  lemma Puthex(f: Firmware, s0: State, s: State, k: nat, h: nat) returns (t: State)
    requires Loaded(f) && Fair(f.env) && PuthexAt(f, k, h)
    requires Reaches(f.env, s0, s) && Ready(f, s) && s.pc == At(f, k, 0) && Get(s, RA) % 4 == 0
    ensures Reaches(f.env, s0, t) && Ready(f, t) && t.pc == Get(s, RA)
    ensures Kept(s, t, {T0, T1, T2, T3, A0}) && t.bus == s.bus && t.popped == s.popped
    ensures t.sent == s.sent + Hex(Get(s, A0), 8)
  {
    hide Loaded, Reaches, At, Get, Hex, Pow16;
    var s1 := GoAddress(f, s0, s, k, 0, T3, h);
    ZeroIsZero(s1);
    var s2 := GoAddImm(f, s0, s1, k, 2, T2, ZERO, 8);
    FallsThrough(f, k);
    assert Pow16(8) == WORD_LIMIT && Pow16(0) == 1 by { Pow16Ends(); }
    t := PuthexLoop(f, s0, s2, k, h, Get(s, A0), 7);
  }

  lemma Pow16Ends()
    ensures Pow16(8) == WORD_LIMIT && Pow16(0) == 1
  {}
}
