/** Where an assembled program's sections are, and what its words decode to: for programs whose labels are numbered in
    order, every reference reaches its label and every string is in memory byte for byte. */
module Layout {
  import opened Bits
  import opened Encoding
  import opened Assembler

  predicate Numbered(p: Program) {
    forall k | 0 <= k < |p| :: p[k].name == k
  }

  predicate OpsOk(p: Program) {
    forall k, j | 0 <= k < |p| && p[k].Code? && 0 <= j < |p[k].ops| :: OpOk(p[k].ops[j], |p|)
  }

  predicate OpOk(op: Op, sections: nat) {
    if op.Do? then !op.i.Illegal? else op.target < sections
  }

  /** A program the assembler accepts: its labels in order, every reference to one of them, its strings ASCII. */
  ghost predicate WellFormed(p: Program) {
    Numbered(p) && OpsOk(p) && TextsAscii(p, |p|)
  }

  /** The byte address of word j of section k, in a ROM at `origin`. */
  function Address(p: Program, origin: nat, k: nat, j: nat): nat
    requires k <= |p|
  {
    origin + 4 * (Start(p, k) + j)
  }

  /** How far word j of section k is from the start of its target, in bytes. */
  function Distance(p: Program, k: nat, j: nat, target: Label): int
    requires k <= |p| && target <= |p|
  {
    4 * Start(p, target) - 4 * (Start(p, k) + j)
  }

  /** What the code at word j of section k is once assembled. */
  function InstrAt(p: Program, k: nat, j: nat): Instr
    requires k < |p| && p[k].Code? && j < |p[k].ops| && OpOk(p[k].ops[j], |p|)
  {
    match p[k].ops[j]
    case Do(i) => i
    case Call(t) => Jal(RA, Distance(p, k, j, t))
    case Jump(t) => Jal(ZERO, Distance(p, k, j, t))
    case AuipcOf(reg, _) => Auipc(reg, 0)
    case AddiOf(reg, t) => AluImm(ADD, reg, reg, Distance(p, k, j, t) + 4)
    case BranchTo(equal, rs1, rs2, t) => Branch(equal, rs1, rs2, Distance(p, k, j, t))
  }

  // ---- positions ----

  lemma {:induction false} StartsInOrder(p: Program, j: nat, k: nat)
    requires j < k <= |p|
    ensures Start(p, j) + |SectionCells(p[j])| <= Start(p, k)
    decreases k
  {
    hide SectionCells, Cells;
    if j < k - 1 {
      StartsInOrder(p, j, k - 1);
    }
  }

  lemma {:induction false} CellAt(p: Program, n: nat, k: nat, j: nat)
    requires k < n <= |p| && j < |SectionCells(p[k])|
    ensures Start(p, k) + j < Start(p, n) && Cells(p, n)[Start(p, k) + j] == SectionCells(p[k])[j]
    decreases n
  {
    hide SectionCells;
    if k < n - 1 {
      CellAt(p, n - 1, k, j);
    }
  }

  lemma {:induction false} LabelsAreStarts(p: Program, n: nat)
    requires n <= |p| && Numbered(p)
    ensures forall l: Label :: (l in Labels(p, n) <==> l < n) && (l < n ==> Labels(p, n)[l] == Start(p, l))
  {
    hide Start, SectionCells, Cells;
    if n > 0 {
      LabelsAreStarts(p, n - 1);
    }
  }

  /** Every cell belongs to a section. */
  lemma {:induction false} SectionOfCell(p: Program, n: nat, i: nat) returns (k: nat, j: nat)
    requires n <= |p| && i < Start(p, n)
    ensures k < n && j < |SectionCells(p[k])| && i == Start(p, k) + j
  {
    hide SectionCells, Cells;
    if i < Start(p, n - 1) {
      k, j := SectionOfCell(p, n - 1, i);
    } else {
      k, j := n - 1, i - Start(p, n - 1);
    }
  }

  /** The assembler takes every well-formed program. */
  lemma Assembles(p: Program)
    requires WellFormed(p)
    ensures AllResolvable(Cells(p, |p|), Labels(p, |p|))
  {
    hide Encode, TextWords, Start, Cells, Labels;
    LabelsAreStarts(p, |p|);
    forall i | 0 <= i < |Cells(p, |p|)|
      ensures Resolvable(Cells(p, |p|)[i], Labels(p, |p|))
    {
      var k, j := SectionOfCell(p, |p|, i);
      CellAt(p, |p|, k, j);
      CellResolvable(p, k, j);
    }
  }

  lemma CellResolvable(p: Program, k: nat, j: nat)
    requires OpsOk(p) && k < |p| && j < |SectionCells(p[k])|
    ensures var c := SectionCells(p[k])[j]; c.Pending? ==> c.op.Later() && c.op.target < |p|
  {
    hide Encode, TextWords;
    if p[k].Code? {
      assert OpOk(p[k].ops[j], |p|);
    }
  }

  // ---- what the words mean ----

  /** A word of code is its instruction encoded: no placeholder is left. */
  lemma WordAt(p: Program, k: nat, j: nat)
    requires WellFormed(p) && k < |p| && p[k].Code? && j < |p[k].ops|
    ensures AllResolvable(Cells(p, |p|), Labels(p, |p|)) && OpOk(p[k].ops[j], |p|)
    ensures var at := Start(p, k) + j;
            at < |Image(p)| && Image(p)[at] == Encode(InstrAt(p, k, j))
  {
    hide Encode, TextWords, Cells, Labels, Start;
    Assembles(p);
    assert OpOk(p[k].ops[j], |p|);
    var op := p[k].ops[j];
    assert SectionCells(p[k])[j] == OpCell(op);
    CellAt(p, |p|, k, j);
    LabelsAreStarts(p, |p|);
  }

  lemma DecodedAt(p: Program, k: nat, j: nat)
    requires WellFormed(p) && k < |p| && p[k].Code? && j < |p[k].ops|
    requires OpOk(p[k].ops[j], |p|) && Encodable(InstrAt(p, k, j))
    ensures AllResolvable(Cells(p, |p|), Labels(p, |p|))
    ensures var at := Start(p, k) + j;
            at < |Image(p)| && Decode(Image(p)[at]) == InstrAt(p, k, j) && 0 < Image(p)[at] < WORD_LIMIT
  {
    hide Encode, TextWords, InstrAt, Decode, Cells, Labels, Start, Image;
    WordAt(p, k, j);
    RoundTrip(InstrAt(p, k, j));
    ZeroIsNoInstruction();
    assert Encodable(InstrAt(p, k, j)) ==> !InstrAt(p, k, j).Illegal?;
  }

  lemma ZeroIsNoInstruction()
    ensures Decode(0) == Illegal
  {}

  /** Every patched reference reaches its label, wherever the ROM is: a jump, call or taken branch by its offset, an
      AUIPC and ADDI pair by the address it leaves in its register. */
  lemma ReferencesReach(p: Program, origin: nat, k: nat, j: nat)
    requires WellFormed(p) && k < |p| && p[k].Code? && j < |p[k].ops| && p[k].ops[j].Later()
    requires OpOk(p[k].ops[j], |p|) && Encodable(InstrAt(p, k, j))
    ensures AllResolvable(Cells(p, |p|), Labels(p, |p|)) && Start(p, k) + j < |Image(p)|
    ensures var i := Decode(Image(p)[Start(p, k) + j]);
            var pc := Address(p, origin, k, j);
            var there := Address(p, origin, p[k].ops[j].target, 0);
            match p[k].ops[j]
            case Call(_) => i.Jal? && i.rd == RA && pc + i.off == there
            case Jump(_) => i.Jal? && i.rd == ZERO && pc + i.off == there
            case BranchTo(_, _, _, _) => i.Branch? && pc + i.off == there
            case AuipcOf(reg, _) => i == Auipc(reg, 0)
            case AddiOf(reg, _) => i.AluImm? && i.op.ADD? && i.rd == i.rs1 == reg && pc - 4 + i.imm == there
  {
    hide Encode, Decode, TextWords, Cells, Labels, Start, Image;
    DecodedAt(p, k, j);
  }

  lemma BytesOfWord(b: seq<nat>, i: nat)
    requires |b| == 4 && i < 4 && forall m | 0 <= m < 4 :: b[m] < 0x100
    ensures ByteOf(LittleEndian(b), i) == b[i] && LittleEndian(b) < WORD_LIMIT
  {
    var w := LittleEndian(b);
    var w1 := b[1] + 0x100 * b[2] + 0x1_0000 * b[3];
    var w2 := b[2] + 0x100 * b[3];
    Peel(w1, b[0], 0x100); Peel(w2, b[1], 0x100); Peel(b[3], b[2], 0x100); Peel(0, b[3], 0x100);
    ShrValue(w, 8); ShrValue(w1, 8); ShrValue(w2, 8);
    ShrShr(w, 8, 8); ShrShr(w, 16, 8);
  }

  /** A string section holds its text, NUL-terminated, byte by byte. */
  lemma TextByteAt(p: Program, k: nat, i: nat)
    requires WellFormed(p) && k < |p| && p[k].Data? && i <= |p[k].text|
    ensures AllResolvable(Cells(p, |p|), Labels(p, |p|))
    ensures var at := Start(p, k) + i / 4;
            && at < |Image(p)| && Image(p)[at] < WORD_LIMIT
            && ByteOf(Image(p)[at], i % 4) == if i < |p[k].text| then p[k].text[i] as int else 0
  {
    hide Encode, ByteOf, LittleEndian, Cells, Labels, Start;
    var text := p[k].text;
    var j := i / 4;
    Assembles(p);
    TextByte(text, i);
    assert SectionCells(p[k])[j] == Known(TextWords(text)[j]);
    CellAt(p, |p|, k, j);
  }

  lemma TextByte(text: string, i: nat)
    requires Ascii(text) && i <= |text|
    ensures var w := TextWords(text)[i / 4];
            w < WORD_LIMIT && ByteOf(w, i % 4) == if i < |text| then text[i] as int else 0
  {
    hide ByteOf, LittleEndian;
    var b := TextBytes(text);
    var j := i / 4;
    var word := b[4 * j..4 * j + 4];
    assert forall m | 0 <= m < 4 :: word[m] == b[4 * j + m] < 0x100;
    BytesOfWord(word, i % 4);
  }
}
