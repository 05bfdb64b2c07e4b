/** How the three generators write their programs: the words they append, and when every word of such a program fits. */
module Listing {
  import opened Encoding
  import opened Assembler
  import opened Layout

  function Addi(rd: nat, rs: nat, imm: int): Op { Do(AluImm(ADD, rd, rs, imm)) }

  function LoadHigh(reg: nat, value: int): Op { Do(Lui(reg, SplitImm32(value).0)) }

  function LoadLow(reg: nat, value: int): Op { Addi(reg, reg, SplitImm32(value).1) }

  function Bne(rs1: nat, rs2: nat, target: Label): Op { BranchTo(false, rs1, rs2, target) }

  function Beq(rs1: nat, rs2: nat, target: Label): Op { BranchTo(true, rs1, rs2, target) }

  function Lw(rd: nat, rs: nat, off: int): Op { Do(Load(Wide, rd, rs, off)) }

  function Sw(rv: nat, rs: nat, off: int): Op { Do(Store(Wide, rv, rs, off)) }

  // ---- fitting ----

  /** An operand check that needs no positions: references go to code, or from AUIPC and ADDI to strings, which start at
      the label `texts`. */
  predicate OperandsOk(op: Op, texts: Label, sections: nat) {
    match op
    case Do(i) => Encodable(i)
    case Call(t) => t < texts
    case Jump(t) => t < texts
    case BranchTo(_, rs1, rs2, t) => rs1 < 0x20 && rs2 < 0x20 && t < texts
    case AuipcOf(reg, t) => reg < 0x20 && texts <= t < sections
    case AddiOf(reg, t) => reg < 0x20 && texts <= t < sections
  }

  predicate AllOperandsOk(ops: seq<Op>, texts: Label, sections: nat) {
    forall j | 0 <= j < |ops| :: OperandsOk(ops[j], texts, sections)
  }

  lemma {:induction false} StartsClimb(p: Program, j: nat, k: nat)
    requires j <= k <= |p|
    ensures Start(p, j) <= Start(p, k)
    decreases k
  {
    hide Cells, SectionCells;
    if j < k {
      StartsClimb(p, j, k - 1);
    }
  }

  /** A code word's place: before the strings. */
  lemma CodePlace(p: Program, texts: Label, k: nat, j: nat)
    requires k < texts < |p| && p[k].Code? && j < |p[k].ops|
    ensures Start(p, k) + j < Start(p, texts)
  {
    hide Cells, Start, OpCell;
    StartsInOrder(p, k, texts);
  }

  /** The code is at most 512 words, so jumps and branches fit; a string's address fits if its ADDI's immediate does. */
  lemma Fits(p: Program, texts: Label, k: nat, j: nat)
    requires texts < |p| && Start(p, texts) <= 0x200 && k < texts && p[k].Code? && j < |p[k].ops|
    requires OperandsOk(p[k].ops[j], texts, |p|)
    requires p[k].ops[j].AddiOf? ==> SignedFits(Distance(p, k, j, p[k].ops[j].target) + 4, 0x800)
    ensures OpOk(p[k].ops[j], |p|) && Encodable(InstrAt(p, k, j))
  {
    hide Start, Cells, SectionCells, Distance, SignedFits;
    CodePlace(p, texts, k, j);
    var op := p[k].ops[j];
    if op.Call? || op.Jump? || op.BranchTo? {
      StartsClimb(p, op.target, texts);
      ShortJump(p, k, j, op.target);
    }
    ZeroFits();
  }

  lemma ZeroFits()
    ensures SignedFits(0, 0x800)
  {}

  lemma ShortJump(p: Program, k: nat, j: nat, t: nat)
    requires k <= |p| && t <= |p| && Start(p, k) + j < 0x200 && Start(p, t) <= 0x200
    ensures var d := Distance(p, k, j, t); SignedFits(d, 0x1000) && SignedFits(d, 0x10_0000) && d % 2 == 0
  {
    hide Start;
    assert Distance(p, k, j, t) == 4 * (Start(p, t) - Start(p, k) - j);
    FourIsEven(Start(p, t) - Start(p, k) - j);
  }

  lemma FourIsEven(x: int)
    ensures 4 * x % 2 == 0
  {}

  // ---- text ----

  /** A line is ASCII if its text is. */
  lemma LineAscii(ident: string)
    ensures Ascii(ident + "\r\n") <==> Ascii(ident)
  {
    var text := ident + "\r\n";
    assert forall i | 0 <= i < |ident| :: text[i] == ident[i];
  }
}
