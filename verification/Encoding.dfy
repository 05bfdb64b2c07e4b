/** The six RV32I encoders of the firmware generator, its instruction wrappers and _split_imm32, against a decoder
    written from The RISC-V Instruction Set Manual, Volume I, sections 2.2 to 2.6. */
module Encoding {
  import opened Bits

  const OP_LUI: nat := 0x37
  const OP_AUIPC: nat := 0x17
  const OP_JAL: nat := 0x6F
  const OP_JALR: nat := 0x67
  const OP_BRANCH: nat := 0x63
  const OP_LOAD: nat := 0x03
  const OP_STORE: nat := 0x23
  const OP_IMM: nat := 0x13
  const OP_ALU: nat := 0x33

  // ---- the encoders, as the generator writes them ----

  function UType(opcode: int, rd: int, imm20: int): nat {
    Or(Or(Shl(And(imm20, 0xFFFFF), 12), Shl(And(rd, 0x1F), 7)), And(opcode, 0x7F))
  }

  function IType(opcode: int, rd: int, funct3: int, rs1: int, imm12: int): nat {
    Or(Or(Or(Or(Shl(And(imm12, 0xFFF), 20), Shl(And(rs1, 0x1F), 15)),
             Shl(And(funct3, 0x7), 12)), Shl(And(rd, 0x1F), 7)), And(opcode, 0x7F))
  }

  function SType(opcode: int, funct3: int, rs1: int, rs2: int, imm12: int): nat {
    var imm := And(imm12, 0xFFF);
    Or(Or(Or(Or(Or(Shl(And(Shr(imm, 5), 0x7F), 25), Shl(And(rs2, 0x1F), 20)), Shl(And(rs1, 0x1F), 15)),
             Shl(And(funct3, 0x7), 12)), Shl(And(imm, 0x1F), 7)), And(opcode, 0x7F))
  }

  function BType(opcode: int, funct3: int, rs1: int, rs2: int, imm13: int): nat {
    var imm := And(imm13, 0x1FFF);
    Or(Or(Or(Or(Or(Or(Or(Shl(And(Shr(imm, 12), 0x1), 31), Shl(And(Shr(imm, 5), 0x3F), 25)),
                      Shl(And(rs2, 0x1F), 20)), Shl(And(rs1, 0x1F), 15)), Shl(And(funct3, 0x7), 12)),
             Shl(And(Shr(imm, 1), 0xF), 8)), Shl(And(Shr(imm, 11), 0x1), 7)), And(opcode, 0x7F))
  }

  function JType(opcode: int, rd: int, imm21: int): nat {
    var imm := And(imm21, 0x1FFFFF);
    Or(Or(Or(Or(Or(Shl(And(Shr(imm, 20), 0x1), 31), Shl(And(Shr(imm, 1), 0x3FF), 21)),
                Shl(And(Shr(imm, 11), 0x1), 20)), Shl(And(Shr(imm, 12), 0xFF), 12)),
          Shl(And(rd, 0x1F), 7)), And(opcode, 0x7F))
  }

  function RType(opcode: int, rd: int, funct3: int, rs1: int, rs2: int, funct7: int): nat {
    Or(Or(Or(Or(Or(Shl(And(funct7, 0x7F), 25), Shl(And(rs2, 0x1F), 20)), Shl(And(rs1, 0x1F), 15)),
             Shl(And(funct3, 0x7), 12)), Shl(And(rd, 0x1F), 7)), And(opcode, 0x7F))
  }

  // ---- the fields of an instruction word (section 2.2) ----

  /** The R-type fields, which every other format regroups. */
  datatype Fields = Fields(op: nat, rd: nat, funct3: nat, rs1: nat, rs2: nat, funct7: nat) {
    predicate Valid() {
      op < 0x80 && rd < 0x20 && funct3 < 8 && rs1 < 0x20 && rs2 < 0x20 && funct7 < 0x80
    }

    function Word(): nat {
      ((((funct7 * 0x20 + rs2) * 0x20 + rs1) * 8 + funct3) * 0x20 + rd) * 0x80 + op
    }
  }

  function Split(w: nat): (f: Fields) {
    var a := w / 0x80;
    var b := a / 0x20;
    var c := b / 8;
    var d := c / 0x20;
    Fields(w % 0x80, a % 0x20, b % 8, c % 0x20, d % 0x20, d / 0x20)
  }

  lemma SplitWord(f: Fields)
    requires f.Valid()
    ensures Split(f.Word()) == f && f.Word() < WORD_LIMIT
  {
    var d := f.funct7 * 0x20 + f.rs2;
    var c := d * 0x20 + f.rs1;
    var b := c * 8 + f.funct3;
    var a := b * 0x20 + f.rd;
    Peel(a, f.op, 0x80); Peel(b, f.rd, 0x20); Peel(c, f.funct3, 8); Peel(d, f.rs1, 0x20); Peel(f.funct7, f.rs2, 0x20);
  }

  // masks and shifts of the widths in use

  lemma Keep1(x: nat) requires x < 2 ensures And(x, 0x1) == x { Keep(x, 2, 1); }
  lemma Keep3(x: nat) requires x < 8 ensures And(x, 0x7) == x { Keep(x, 8, 3); }
  lemma Keep5(x: nat) requires x < 0x20 ensures And(x, 0x1F) == x { Keep(x, 0x20, 5); }
  lemma Keep7(x: nat) requires x < 0x80 ensures And(x, 0x7F) == x { Keep(x, 0x80, 7); }
  lemma Mask12(x: int) ensures And(x, 0xFFF) == x % 0x1000 { Mask(x, 0x1000, 12); }
  lemma Mask13(x: int) ensures And(x, 0x1FFF) == x % 0x2000 { Mask(x, 0x2000, 13); }
  lemma Mask20(x: int) ensures And(x, 0xFFFFF) == x % 0x10_0000 { Pow2Values(); Mask(x, 0x10_0000, 20); }
  lemma Mask21(x: int) ensures And(x, 0x1FFFFF) == x % 0x20_0000 { Pow2Values(); Mask(x, 0x20_0000, 21); }

  lemma Or7(hi: nat, low: nat) requires low < 0x80 ensures Or(hi * 0x80, low) == hi * 0x80 + low
  { Under(hi, low, 0x80, 7); }
  lemma Or12(hi: nat, v: nat) requires v < 0x20 ensures Or(hi * 0x1000, Shl(v, 7)) == (hi * 0x20 + v) * 0x80
  { Scale(v, 0x80, 7); Under(hi, v * 0x80, 0x1000, 12); }
  lemma Or15(hi: nat, v: nat) requires v < 8 ensures Or(hi * 0x8000, Shl(v, 12)) == (hi * 8 + v) * 0x1000
  { Scale(v, 0x1000, 12); Under(hi, v * 0x1000, 0x8000, 15); }
  lemma Or20(hi: nat, v: nat) requires v < 0x20 ensures Or(hi * 0x10_0000, Shl(v, 15)) == (hi * 0x20 + v) * 0x8000
  { Pow2Values(); Scale(v, 0x8000, 15); Under(hi, v * 0x8000, 0x10_0000, 20); }
  lemma Or25(hi: nat, v: nat) requires v < 0x20 ensures Or(hi * 0x200_0000, Shl(v, 20)) == (hi * 0x20 + v) * 0x10_0000
  { Pow2Values(); Scale(v, 0x10_0000, 20); Under(hi, v * 0x10_0000, 0x200_0000, 25); }
  lemma Shl12(v: nat) ensures Shl(v, 12) == v * 0x1000 { Scale(v, 0x1000, 12); }
  lemma Shl20(v: nat) ensures Shl(v, 20) == v * 0x10_0000 { Pow2Values(); Scale(v, 0x10_0000, 20); }
  lemma Shl25(v: nat) ensures Shl(v, 25) == v * 0x200_0000 { Pow2Values(); Scale(v, 0x200_0000, 25); }

  /** The fields from funct3 up, joined by ors, are their digits. */
  lemma OrUpper(f7: nat, rs2: nat, rs1: nat, f3: nat)
    requires rs2 < 0x20 && rs1 < 0x20 && f3 < 8
    ensures Or(Or(Or(Shl(f7, 25), Shl(rs2, 20)), Shl(rs1, 15)), Shl(f3, 12))
         == (((f7 * 0x20 + rs2) * 0x20 + rs1) * 8 + f3) * 0x1000
  {
    var d := f7 * 0x20 + rs2;
    Shl25(f7);
    Or25(f7, rs2);
    Or20(d, rs1);
    Or15(d * 0x20 + rs1, f3);
  }

  lemma OrFields(f: Fields)
    requires f.Valid()
    ensures Or(Or(Or(Or(Or(Shl(f.funct7, 25), Shl(f.rs2, 20)), Shl(f.rs1, 15)), Shl(f.funct3, 12)), Shl(f.rd, 7)),
               f.op) == f.Word()
  {
    var b := ((f.funct7 * 0x20 + f.rs2) * 0x20 + f.rs1) * 8 + f.funct3;
    OrUpper(f.funct7, f.rs2, f.rs1, f.funct3);
    Or12(b, f.rd);
    Or7(b * 0x20 + f.rd, f.op);
  }

  lemma RTypeWord(op: nat, rd: nat, f3: nat, rs1: nat, rs2: nat, f7: nat)
    requires Fields(op, rd, f3, rs1, rs2, f7).Valid()
    ensures RType(op, rd, f3, rs1, rs2, f7) == Fields(op, rd, f3, rs1, rs2, f7).Word()
  {
    Keep7(f7); Keep5(rs2); Keep5(rs1); Keep3(f3); Keep5(rd); Keep7(op);
    OrFields(Fields(op, rd, f3, rs1, rs2, f7));
  }

  lemma UTypeWord(op: nat, rd: nat, imm: int)
    requires op < 0x80 && rd < 0x20
    ensures UType(op, rd, imm) == ((imm % 0x10_0000) * 0x20 + rd) * 0x80 + op
  {
    var hi := imm % 0x10_0000;
    Mask20(imm); Keep5(rd); Keep7(op);
    Shl12(hi);
    Or12(hi, rd);
    Or7(hi * 0x20 + rd, op);
  }

  lemma ITypeWord(op: nat, rd: nat, f3: nat, rs1: nat, imm: int)
    requires op < 0x80 && rd < 0x20 && f3 < 8 && rs1 < 0x20
    ensures IType(op, rd, f3, rs1, imm) == Fields(op, rd, f3, rs1, imm % 0x1000 % 0x20, imm % 0x1000 / 0x20).Word()
  {
    var hi := imm % 0x1000;
    Mask12(imm); Keep5(rs1); Keep3(f3); Keep5(rd); Keep7(op);
    ITypeJoin(op, rd, f3, rs1, hi);
    assert hi == hi / 0x20 * 0x20 + hi % 0x20;
  }

  lemma ITypeJoin(op: nat, rd: nat, f3: nat, rs1: nat, hi: nat)
    requires op < 0x80 && rd < 0x20 && f3 < 8 && rs1 < 0x20
    ensures Or(Or(Or(Or(Shl(hi, 20), Shl(rs1, 15)), Shl(f3, 12)), Shl(rd, 7)), op)
         == (((hi * 0x20 + rs1) * 8 + f3) * 0x20 + rd) * 0x80 + op
  {
    hide Or, Shl;
    var c := hi * 0x20 + rs1;
    var b := c * 8 + f3;
    Shl20(hi);
    Or20(hi, rs1);
    Or15(c, f3);
    Or12(b, rd);
    Or7(b * 0x20 + rd, op);
  }

  lemma STypeWord(op: nat, f3: nat, rs1: nat, rs2: nat, imm: int)
    requires op < 0x80 && f3 < 8 && rs1 < 0x20 && rs2 < 0x20
    ensures SType(op, f3, rs1, rs2, imm) == Fields(op, imm % 0x1000 % 0x20, f3, rs1, rs2, imm % 0x1000 / 0x20).Word()
  {
    var low := imm % 0x1000;
    Mask12(imm);
    assert Shr(low, 5) == low / 0x20 by { ShrValue(low, 5); }
    assert And(low, 0x1F) == low % 0x20 by { Mask(low, 0x20, 5); }
    Keep7(low / 0x20); Keep5(rs2); Keep5(rs1); Keep3(f3); Keep7(op);
    OrFields(Fields(op, low % 0x20, f3, rs1, rs2, low / 0x20));
  }

  lemma Or31(hi: nat, v: nat) requires v < 0x40 ensures Or(Shl(hi, 31), Shl(v, 25)) == Shl(hi * 0x40 + v, 25)
  {
    Pow2Values(); Scale(hi, 0x8000_0000, 31); Scale(v, 0x200_0000, 25); Scale(hi * 0x40 + v, 0x200_0000, 25);
    Under(hi, v * 0x200_0000, 0x8000_0000, 31);
  }
  lemma Or12B(hi: nat, v: nat) requires v < 0x10 ensures Or(hi * 0x1000, Shl(v, 8)) == (hi * 0x10 + v) * 0x100
  { Scale(v, 0x100, 8); Under(hi, v * 0x100, 0x1000, 12); }
  lemma Or8(hi: nat, v: nat) requires v < 2 ensures Or(hi * 0x100, Shl(v, 7)) == (hi * 2 + v) * 0x80
  { Scale(v, 0x80, 7); Under(hi, v * 0x80, 0x100, 8); }

  /** The scattered pieces of a branch offset: bits 12, 11, 10 to 5 and 4 to 1. */
  function B12(imm: int): nat { imm % 0x2000 / 0x1000 }
  function B11(imm: int): nat { imm % 0x2000 / 0x800 % 2 }
  function B10(imm: int): nat { imm % 0x2000 / 0x20 % 0x40 }
  function B4(imm: int): nat { imm % 0x2000 / 2 % 0x10 }

  lemma BPieces(imm: int)
    ensures var low := And(imm, 0x1FFF);
            && And(Shr(low, 12), 0x1) == B12(imm) < 2 && And(Shr(low, 11), 0x1) == B11(imm)
            && And(Shr(low, 5), 0x3F) == B10(imm) && And(Shr(low, 1), 0xF) == B4(imm)
  {
    Mask13(imm);
    var low := imm % 0x2000;
    assert Shr(low, 12) == low / 0x1000 by { ShrValue(low, 12); }
    assert Shr(low, 11) == low / 0x800 by { ShrValue(low, 11); }
    assert Shr(low, 5) == low / 0x20 by { ShrValue(low, 5); }
    assert Shr(low, 1) == low / 2 by { ShrValue(low, 1); }
    Keep1(low / 0x1000); Mask(low / 0x800, 2, 1); Mask(low / 0x20, 0x40, 6); Mask(low / 2, 0x10, 4);
  }

  lemma BTypeWord(op: nat, f3: nat, rs1: nat, rs2: nat, imm: int)
    requires op < 0x80 && f3 < 8 && rs1 < 0x20 && rs2 < 0x20
    ensures BType(op, f3, rs1, rs2, imm)
         == Fields(op, B4(imm) * 2 + B11(imm), f3, rs1, rs2, B12(imm) * 0x40 + B10(imm)).Word()
  {
    BPieces(imm);
    Keep5(rs2); Keep5(rs1); Keep3(f3); Keep7(op);
    BTypeJoin(op, f3, rs1, rs2, B12(imm), B10(imm), B4(imm), B11(imm));
  }

  lemma BTypeJoin(op: nat, f3: nat, rs1: nat, rs2: nat, b12: nat, b10: nat, b4: nat, b11: nat)
    requires op < 0x80 && f3 < 8 && rs1 < 0x20 && rs2 < 0x20 && b12 < 2 && b10 < 0x40 && b4 < 0x10 && b11 < 2
    ensures Or(Or(Or(Or(Or(Or(Or(Shl(b12, 31), Shl(b10, 25)), Shl(rs2, 20)), Shl(rs1, 15)), Shl(f3, 12)),
                     Shl(b4, 8)), Shl(b11, 7)), op)
         == Fields(op, b4 * 2 + b11, f3, rs1, rs2, b12 * 0x40 + b10).Word()
  {
    hide Or, Shl;
    var f7 := b12 * 0x40 + b10;
    Or31(b12, b10);
    OrUpper(f7, rs2, rs1, f3);
    BTypeLow(((f7 * 0x20 + rs2) * 0x20 + rs1) * 8 + f3, b4, b11, op);
  }

  lemma BTypeLow(b: nat, b4: nat, b11: nat, op: nat)
    requires b4 < 0x10 && b11 < 2 && op < 0x80
    ensures Or(Or(Or(b * 0x1000, Shl(b4, 8)), Shl(b11, 7)), op) == (b * 0x20 + (b4 * 2 + b11)) * 0x80 + op
  {
    Or12B(b, b4);
    Or8(b * 0x10 + b4, b11);
    assert (b * 0x10 + b4) * 2 + b11 == b * 0x20 + (b4 * 2 + b11);
    Or7(b * 0x20 + (b4 * 2 + b11), op);
  }

  /** The pieces of a jump offset: bits 20, 19 to 12, 11 and 10 to 1. */
  function J20(imm: int): nat { imm % 0x20_0000 / 0x10_0000 }
  function J19(imm: int): nat { imm % 0x20_0000 / 0x1000 % 0x100 }
  function J11(imm: int): nat { imm % 0x20_0000 / 0x800 % 2 }
  function J10(imm: int): nat { imm % 0x20_0000 / 2 % 0x400 }

  lemma JPieces(imm: int)
    ensures var low := And(imm, 0x1FFFFF);
            && And(Shr(low, 20), 0x1) == J20(imm) < 2 && And(Shr(low, 12), 0xFF) == J19(imm)
            && And(Shr(low, 11), 0x1) == J11(imm) && And(Shr(low, 1), 0x3FF) == J10(imm)
  {
    Mask21(imm);
    var low := imm % 0x20_0000;
    assert Shr(low, 20) == low / 0x10_0000 by { Pow2Values(); ShrValue(low, 20); }
    assert Shr(low, 12) == low / 0x1000 by { ShrValue(low, 12); }
    assert Shr(low, 11) == low / 0x800 by { ShrValue(low, 11); }
    assert Shr(low, 1) == low / 2 by { ShrValue(low, 1); }
    Keep1(low / 0x10_0000); Mask(low / 0x1000, 0x100, 8); Mask(low / 0x800, 2, 1); Mask(low / 2, 0x400, 10);
  }

  lemma JTypeWord(op: nat, rd: nat, imm: int)
    requires op < 0x80 && rd < 0x20
    ensures JType(op, rd, imm)
         == ((((J20(imm) * 0x400 + J10(imm)) * 2 + J11(imm)) * 0x100 + J19(imm)) * 0x20 + rd) * 0x80 + op
  {
    JPieces(imm);
    Keep5(rd); Keep7(op);
    JTypeJoin(op, rd, J20(imm), J10(imm), J11(imm), J19(imm));
  }

  lemma JTypeJoin(op: nat, rd: nat, b20: nat, b10: nat, b11: nat, b19: nat)
    requires op < 0x80 && rd < 0x20 && b20 < 2 && b10 < 0x400 && b11 < 2 && b19 < 0x100
    ensures Or(Or(Or(Or(Or(Shl(b20, 31), Shl(b10, 21)), Shl(b11, 20)), Shl(b19, 12)), Shl(rd, 7)), op)
         == ((((b20 * 0x400 + b10) * 2 + b11) * 0x100 + b19) * 0x20 + rd) * 0x80 + op
  {
    hide Or, Shl;
    Or31J(b20, b10);
    var x := b20 * 0x400 + b10;
    Or21(x, b11);
    Or20J(x * 2 + b11, b19);
    var hi := (x * 2 + b11) * 0x100 + b19;
    Or12(hi, rd);
    Or7(hi * 0x20 + rd, op);
  }

  lemma Or31J(hi: nat, v: nat) requires v < 0x400 ensures Or(Shl(hi, 31), Shl(v, 21)) == (hi * 0x400 + v) * 0x20_0000
  {
    Pow2Values(); Scale(hi, 0x8000_0000, 31); Scale(v, 0x20_0000, 21);
    Under(hi, v * 0x20_0000, 0x8000_0000, 31);
  }
  lemma Or21(hi: nat, v: nat) requires v < 2 ensures Or(hi * 0x20_0000, Shl(v, 20)) == (hi * 2 + v) * 0x10_0000
  { Pow2Values(); Scale(v, 0x10_0000, 20); Under(hi, v * 0x10_0000, 0x20_0000, 21); }
  lemma Or20J(hi: nat, v: nat) requires v < 0x100 ensures Or(hi * 0x10_0000, Shl(v, 12)) == (hi * 0x100 + v) * 0x1000
  { Pow2Values(); Scale(v, 0x1000, 12); Under(hi, v * 0x1000, 0x10_0000, 20); }

  // ---- instructions ----

  datatype AluOp = ADD | SUB | SLL | SRL | XOR | OR | AND

  datatype Width = Wide | Byte  // the 32-bit accesses, and the 8-bit ones (unsigned when loaded)

  datatype Instr =
    | Lui(rd: nat, imm20: int)
    | Auipc(rd: nat, imm20: int)
    | Jal(rd: nat, off: int)
    | Jalr(rd: nat, rs1: nat, off: int)
    | Branch(equal: bool, rs1: nat, rs2: nat, off: int)  // beq, bne
    | Load(width: Width, rd: nat, rs1: nat, off: int)
    | Store(width: Width, rs2: nat, rs1: nat, off: int)
    | AluImm(op: AluOp, rd: nat, rs1: nat, imm: int)
    | Alu(op: AluOp, rd: nat, rs1: nat, rs2: nat)
    | Illegal

  predicate SignedFits(x: int, half: nat) { -1 * half <= x < half }

  /** The operands an instruction word can hold. */
  predicate Encodable(i: Instr) {
    match i
    case Lui(rd, imm20) => rd < 0x20 && 0 <= imm20 < 0x10_0000
    case Auipc(rd, imm20) => rd < 0x20 && 0 <= imm20 < 0x10_0000
    case Jal(rd, off) => rd < 0x20 && SignedFits(off, 0x10_0000) && off % 2 == 0
    case Jalr(rd, rs1, off) => rd < 0x20 && rs1 < 0x20 && SignedFits(off, 0x800)
    case Branch(_, rs1, rs2, off) => rs1 < 0x20 && rs2 < 0x20 && SignedFits(off, 0x1000) && off % 2 == 0
    case Load(_, rd, rs1, off) => rd < 0x20 && rs1 < 0x20 && SignedFits(off, 0x800)
    case Store(_, rs2, rs1, off) => rs2 < 0x20 && rs1 < 0x20 && SignedFits(off, 0x800)
    case AluImm(SUB, _, _, _) => false
    case AluImm(op, rd, rs1, imm) =>
      rd < 0x20 && rs1 < 0x20 && if op.SLL? || op.SRL? then 0 <= imm < 0x20 else SignedFits(imm, 0x800)
    case Alu(_, rd, rs1, rs2) => rd < 0x20 && rs1 < 0x20 && rs2 < 0x20
    case Illegal => false
  }

  function Funct3(op: AluOp): nat {
    match op
    case ADD => 0
    case SUB => 0
    case SLL => 1
    case XOR => 4
    case SRL => 5
    case OR => 6
    case AND => 7
  }

  /** The generator's instruction wrappers: _lui, _auipc, _jal and so on. */
  function Encode(i: Instr): nat
    requires !i.Illegal?
  {
    match i
    case Lui(rd, imm20) => UType(OP_LUI, rd, imm20)
    case Auipc(rd, imm20) => UType(OP_AUIPC, rd, imm20)
    case Jal(rd, off) => JType(OP_JAL, rd, off)
    case Jalr(rd, rs1, off) => IType(OP_JALR, rd, 0, rs1, off)
    case Branch(equal, rs1, rs2, off) => BType(OP_BRANCH, if equal then 0 else 1, rs1, rs2, off)
    case Load(width, rd, rs1, off) => IType(OP_LOAD, rd, if width.Wide? then 2 else 4, rs1, off)
    case Store(width, rs2, rs1, off) => SType(OP_STORE, if width.Wide? then 2 else 0, rs1, rs2, off)
    case AluImm(op, rd, rs1, imm) => IType(OP_IMM, rd, Funct3(op), rs1, imm)
    case Alu(op, rd, rs1, rs2) => RType(OP_ALU, rd, Funct3(op), rs1, rs2, if op.SUB? then 0x20 else 0)
  }

  // ---- the decoder (sections 2.3 to 2.6) ----

  function SignExtend(x: int, half: nat): int { if x >= half then x - 2 * half else x }

  function ImmI(f: Fields): int { SignExtend(f.funct7 * 0x20 + f.rs2, 0x800) }

  function ImmS(f: Fields): int { SignExtend(f.funct7 * 0x20 + f.rd, 0x800) }

  function ImmB(f: Fields): int {
    SignExtend(f.funct7 / 0x40 * 0x1000 + f.rd % 2 * 0x800 + f.funct7 % 0x40 * 0x20 + f.rd / 2 * 2, 0x1000)
  }

  function ImmU(w: nat): int { w / 0x1000 }

  function ImmJ(w: nat): int {
    var x := w / 0x1000;
    SignExtend(x / 0x8_0000 * 0x10_0000 + x % 0x100 * 0x1000 + x / 0x100 % 2 * 0x800 + x / 0x200 % 0x400 * 2, 0x10_0000)
  }

  function AluOf(funct3: nat): AluOp
    requires funct3 < 8 && funct3 != 2 && funct3 != 3
  {
    if funct3 == 0 then ADD else if funct3 == 1 then SLL else if funct3 == 4 then XOR
    else if funct3 == 5 then SRL else if funct3 == 6 then OR else AND
  }

  function Decode(w: nat): Instr {
    DecodeFields(Split(w), ImmU(w), ImmJ(w))
  }

  /** The base opcode map: bits 6 and 5 are its row, bits 4 to 2 its column, and the two lowest bits 1. */
  function MapOpcode(row: nat, column: nat): nat { row * 0x20 + column * 4 + 3 }

  function DecodeFields(f: Fields, immU: int, immJ: int): Instr {
    if f.op == MapOpcode(1, 5) then Lui(f.rd, immU)
    else if f.op == MapOpcode(0, 5) then Auipc(f.rd, immU)
    else if f.op == MapOpcode(3, 3) then Jal(f.rd, immJ)
    else if f.op == MapOpcode(3, 1) && f.funct3 == 0 then Jalr(f.rd, f.rs1, ImmI(f))
    else if f.op == MapOpcode(3, 0) then DecodeBranch(f)
    else if f.op == MapOpcode(0, 0) then DecodeLoad(f)
    else if f.op == MapOpcode(1, 0) then DecodeStore(f)
    else if f.op == MapOpcode(0, 4) then DecodeImm(f)
    else if f.op == MapOpcode(1, 4) then DecodeAlu(f)
    else Illegal
  }

  function DecodeBranch(f: Fields): Instr {
    if f.funct3 == 0 then Branch(true, f.rs1, f.rs2, ImmB(f))
    else if f.funct3 == 1 then Branch(false, f.rs1, f.rs2, ImmB(f))
    else Illegal
  }

  function DecodeLoad(f: Fields): Instr {
    if f.funct3 == 2 then Load(Wide, f.rd, f.rs1, ImmI(f))
    else if f.funct3 == 4 then Load(Byte, f.rd, f.rs1, ImmI(f))
    else Illegal
  }

  function DecodeStore(f: Fields): Instr {
    if f.funct3 == 2 then Store(Wide, f.rs2, f.rs1, ImmS(f))
    else if f.funct3 == 0 then Store(Byte, f.rs2, f.rs1, ImmS(f))
    else Illegal
  }

  function DecodeImm(f: Fields): Instr {
    if f.funct3 == 1 || f.funct3 == 5 then
      if f.funct7 == 0 then AluImm(if f.funct3 == 1 then SLL else SRL, f.rd, f.rs1, f.rs2) else Illegal
    else if f.funct3 < 8 && f.funct3 != 2 && f.funct3 != 3 then AluImm(AluOf(f.funct3), f.rd, f.rs1, ImmI(f))
    else Illegal
  }

  function DecodeAlu(f: Fields): Instr {
    if f.funct7 == 0 && f.funct3 < 8 && f.funct3 != 2 && f.funct3 != 3 then Alu(AluOf(f.funct3), f.rd, f.rs1, f.rs2)
    else if f.funct7 == 0x20 && f.funct3 == 0 then Alu(SUB, f.rd, f.rs1, f.rs2)
    else Illegal
  }

  // ---- the round trip ----

  /** The fields an instruction's word holds: its immediate cut and scattered as section 2.3 shows. */
  function FieldsOf(i: Instr): Fields
    requires !i.Illegal? && !i.Lui? && !i.Auipc? && !i.Jal?
  {
    match i
    case Jalr(rd, rs1, off) => FieldsI(OP_JALR, rd, 0, rs1, off)
    case Branch(equal, rs1, rs2, off) =>
      Fields(OP_BRANCH, B4(off) * 2 + B11(off), if equal then 0 else 1, rs1, rs2, B12(off) * 0x40 + B10(off))
    case Load(width, rd, rs1, off) => FieldsI(OP_LOAD, rd, if width.Wide? then 2 else 4, rs1, off)
    case Store(width, rs2, rs1, off) =>
      Fields(OP_STORE, off % 0x1000 % 0x20, if width.Wide? then 2 else 0, rs1, rs2, off % 0x1000 / 0x20)
    case AluImm(op, rd, rs1, imm) => FieldsI(OP_IMM, rd, Funct3(op), rs1, imm)
    case Alu(op, rd, rs1, rs2) => Fields(OP_ALU, rd, Funct3(op), rs1, rs2, if op.SUB? then 0x20 else 0)
  }

  function FieldsI(op: nat, rd: nat, f3: nat, rs1: nat, imm: int): Fields {
    Fields(op, rd, f3, rs1, imm % 0x1000 % 0x20, imm % 0x1000 / 0x20)
  }

  function JumpDigits(off: int): nat {
    ((J20(off) * 0x400 + J10(off)) * 2 + J11(off)) * 0x100 + J19(off)
  }

  function UpperOf(i: Instr): (int, nat, nat)
    requires i.Lui? || i.Auipc? || i.Jal?
  {
    match i
    case Lui(rd, imm20) => (imm20, rd, OP_LUI)
    case Auipc(rd, imm20) => (imm20, rd, OP_AUIPC)
    case Jal(rd, off) => (JumpDigits(off), rd, OP_JAL)
  }

  /** A word by its fields, or by its upper 20 bits, rd and opcode. */
  function WordOf(i: Instr): int
    requires !i.Illegal?
  {
    if i.Lui? || i.Auipc? || i.Jal? then var (hi, rd, op) := UpperOf(i); (hi * 0x20 + rd) * 0x80 + op
    else FieldsOf(i).Word()
  }

  lemma EncodeIsWordOf(i: Instr)
    requires Encodable(i)
    ensures Encode(i) == WordOf(i)
  {
    match i
    case Lui(rd, imm20) => UTypeWord(OP_LUI, rd, imm20); Peel(0, imm20, 0x10_0000);
    case Auipc(rd, imm20) => UTypeWord(OP_AUIPC, rd, imm20); Peel(0, imm20, 0x10_0000);
    case Jal(rd, off) => JTypeWord(OP_JAL, rd, off);
    case Jalr(rd, rs1, off) => ITypeWord(OP_JALR, rd, 0, rs1, off);
    case Branch(equal, rs1, rs2, off) => BTypeWord(OP_BRANCH, if equal then 0 else 1, rs1, rs2, off);
    case Load(width, rd, rs1, off) => ITypeWord(OP_LOAD, rd, if width.Wide? then 2 else 4, rs1, off);
    case Store(width, rs2, rs1, off) => STypeWord(OP_STORE, if width.Wide? then 2 else 0, rs1, rs2, off);
    case AluImm(op, rd, rs1, imm) => ITypeWord(OP_IMM, rd, Funct3(op), rs1, imm);
    case Alu(op, rd, rs1, rs2) => RTypeWord(OP_ALU, rd, Funct3(op), rs1, rs2, if op.SUB? then 0x20 else 0);
  }

  lemma SignedBack(x: int, half: nat)
    requires SignedFits(x, half)
    ensures SignExtend(x % (2 * half), half) == x
  {
    if x >= 0 {
      Peel(0, x, 2 * half);
    } else {
      Peel(-1, x + 2 * half, 2 * half);
    }
  }

  lemma ImmBack(imm: int)
    requires SignedFits(imm, 0x800)
    ensures var v := imm % 0x1000; SignExtend(v / 0x20 * 0x20 + v % 0x20, 0x800) == imm
    ensures imm % 0x1000 / 0x20 < 0x80
  {
    var v := imm % 0x1000;
    assert v / 0x20 * 0x20 + v % 0x20 == v;
    SignedBack(imm, 0x800);
  }

  lemma ShamtBack(imm: nat)
    requires imm < 0x20
    ensures imm % 0x1000 / 0x20 == 0 && imm % 0x1000 % 0x20 == imm
  {
    Peel(0, imm, 0x1000); Peel(0, imm, 0x20);
  }

  lemma BDigits(imm: int)
    requires SignedFits(imm, 0x1000) && imm % 2 == 0
    ensures SignExtend(B12(imm) * 0x1000 + B11(imm) * 0x800 + B10(imm) * 0x20 + B4(imm) * 2, 0x1000) == imm
  {
    var v := imm % 0x2000;
    Pow2Values();
    DivDiv(v, 1, 4, 2, 0x10, 0x20); DivDiv(v, 5, 6, 0x20, 0x40, 0x800); DivDiv(v, 11, 1, 0x800, 2, 0x1000);
    Digits(v, v / 2, v / 0x20, v / 0x800, 0x10, 0x40, 2);
    SignedBack(imm, 0x1000);
  }

  lemma JDigits(imm: int)
    requires SignedFits(imm, 0x10_0000) && imm % 2 == 0
    ensures SignExtend(J20(imm) * 0x10_0000 + J19(imm) * 0x1000 + J11(imm) * 0x800 + J10(imm) * 2, 0x10_0000) == imm
  {
    hide SignExtend, SignedFits, J20, J19, J11, J10;
    JSum(imm);
    SignedBack(imm, 0x10_0000);
  }

  lemma JSum(imm: int)
    requires imm % 2 == 0
    ensures J20(imm) * 0x10_0000 + J19(imm) * 0x1000 + J11(imm) * 0x800 + J10(imm) * 2 == imm % (2 * 0x10_0000)
  {
    var v := imm % 0x20_0000;
    Pow2Values();
    DivDiv(v, 1, 10, 2, 0x400, 0x800); DivDiv(v, 11, 1, 0x800, 2, 0x1000);
    DivDiv(v, 12, 8, 0x1000, 0x100, 0x10_0000);
    Digits(v, v / 2, v / 0x800, v / 0x1000, 0x400, 2, 0x100);
  }

  /** Four digits of an even number, the lowest its bits above bit 0. */
  lemma Digits(v: nat, a: nat, b: nat, c: nat, p: nat, q: nat, r: nat)
    requires v % 2 == 0 && a == v / 2 && p > 0 && q > 0 && r > 0 && b == a / p && c == b / q
    ensures v == (((c / r * r + c % r) * q + b % q) * p + a % p) * 2
  {}

  lemma BFields(f: Fields, b12: nat, b10: nat, b4: nat, b11: nat)
    requires b12 < 2 && b10 < 0x40 && b4 < 0x10 && b11 < 2
    requires f.rd == b4 * 2 + b11 && f.funct7 == b12 * 0x40 + b10
    ensures ImmB(f) == SignExtend(b12 * 0x1000 + b11 * 0x800 + b10 * 0x20 + b4 * 2, 0x1000)
  {
    Peel(b4, b11, 2);
    Peel(b12, b10, 0x40);
  }

  lemma FieldsBack(i: Instr)
    requires Encodable(i) && !i.Lui? && !i.Auipc? && !i.Jal?
    ensures var f := FieldsOf(i); f.Valid() && forall u, j :: DecodeFields(f, u, j) == i
  {
    var f := FieldsOf(i);
    match i
    case Jalr(_, _, off) => ImmBack(off);
    case Branch(_, _, _, off) =>
      assert B12(off) < 2;
      BFields(f, B12(off), B10(off), B4(off), B11(off));
      BDigits(off);
    case Load(_, _, _, off) => ImmBack(off);
    case Store(_, _, _, off) => ImmBack(off);
    case AluImm(_, _, _, imm) => ImmBack(imm); if 0 <= imm < 0x20 { ShamtBack(imm); }
    case Alu(_, _, _, _) =>
  }

  lemma SplitUpper(hi: nat, rd: nat, op: nat)
    requires op < 0x80 && rd < 0x20
    ensures var w := (hi * 0x20 + rd) * 0x80 + op;
            Split(w).op == op && Split(w).rd == rd && w / 0x1000 == hi
  {
    Peel(hi * 0x20 + rd, op, 0x80); Peel(hi, rd, 0x20);
    Peel(hi, rd * 0x80 + op, 0x1000);
  }

  lemma JUngroup(b20: nat, b10: nat, b11: nat, b19: nat)
    requires b20 < 2 && b10 < 0x400 && b11 < 2 && b19 < 0x100
    ensures var x := ((b20 * 0x400 + b10) * 2 + b11) * 0x100 + b19;
            x / 0x8_0000 == b20 && x % 0x100 == b19 && x / 0x100 % 2 == b11 && x / 0x200 % 0x400 == b10
  {
    var q := b20 * 0x400 + b10;
    Peel(q * 2 + b11, b19, 0x100); Peel(q, b11, 2); Peel(b20, b10, 0x400);
    Peel(q, b11 * 0x100 + b19, 0x200);
    Peel(b20, b10 * 0x200 + b11 * 0x100 + b19, 0x8_0000);
  }

  lemma JumpBack(w: nat, off: int)
    requires w / 0x1000 == JumpDigits(off) && SignedFits(off, 0x10_0000) && off % 2 == 0
    ensures ImmJ(w) == off
  {
    assert J20(off) < 2;
    JUngroup(J20(off), J10(off), J11(off), J19(off));
    JDigits(off);
  }

  lemma UpperBack(i: Instr)
    requires Encodable(i) && (i.Lui? || i.Auipc?)
    ensures 0 <= WordOf(i) < WORD_LIMIT && Decode(WordOf(i)) == i
  {
    var (hi, rd, op) := UpperOf(i);
    SplitUpper(hi, rd, op);
  }

  lemma JalBack(i: Instr)
    requires Encodable(i) && i.Jal?
    ensures 0 <= WordOf(i) < WORD_LIMIT && Decode(WordOf(i)) == i
  {
    hide ImmJ;
    var (hi, rd, op) := UpperOf(i);
    assert 0 <= hi < 0x10_0000;
    SplitUpper(hi, rd, op);
    JumpBack(WordOf(i), i.off);
  }

  /** Decoding what the generator encodes gives the instruction back: registers, and immediates with their sign. */
  lemma RoundTrip(i: Instr)
    requires Encodable(i)
    ensures Decode(Encode(i)) == i && Encode(i) < WORD_LIMIT
  {
    EncodeIsWordOf(i);
    if i.Jal? {
      JalBack(i);
    } else if i.Lui? || i.Auipc? {
      UpperBack(i);
    } else {
      FieldsBack(i);
      SplitWord(FieldsOf(i));
    }
  }

  /** Where an instruction's opcode is in the base opcode map. */
  function MapPlace(i: Instr): (nat, nat)
    requires !i.Illegal?
  {
    match i
    case Load(_, _, _, _) => (0, 0)
    case AluImm(_, _, _, _) => (0, 4)
    case Auipc(_, _) => (0, 5)
    case Store(_, _, _, _) => (1, 0)
    case Alu(_, _, _, _) => (1, 4)
    case Lui(_, _) => (1, 5)
    case Branch(_, _, _, _) => (3, 0)
    case Jalr(_, _, _) => (3, 1)
    case Jal(_, _) => (3, 3)
  }

  lemma DecodedOpcode(w: nat)
    requires !Decode(w).Illegal?
    ensures w % 0x80 == MapOpcode(MapPlace(Decode(w)).0, MapPlace(Decode(w)).1)
  {
    hide ImmI, ImmS, ImmB, ImmU, ImmJ;
  }

  /** Every word the generator encodes has its instruction's opcode of the manual's map. */
  lemma EncodedOpcode(i: Instr)
    requires Encodable(i)
    ensures Encode(i) % 0x80 == MapOpcode(MapPlace(i).0, MapPlace(i).1)
  {
    hide Decode, Encode;
    RoundTrip(i);
    DecodedOpcode(Encode(i));
  }

  /** An ADDI immediate that does not fit comes back as its 12-bit remainder, so it is right exactly when it fits. */
  lemma AddiImmediate(rd: nat, rs1: nat, imm: int)
    requires rd < 0x20 && rs1 < 0x20
    ensures var i := AluImm(ADD, rd, rs1, imm);
            && Decode(Encode(i)) == i.(imm := SignExtend(imm % 0x1000, 0x800)) && Encode(i) < WORD_LIMIT
            && (Decode(Encode(i)) == i <==> SignedFits(imm, 0x800))
  {
    var low := SignExtend(imm % 0x1000, 0x800);
    var i := AluImm(ADD, rd, rs1, low);
    ITypeWord(OP_IMM, rd, 0, rs1, imm);
    ITypeWord(OP_IMM, rd, 0, rs1, low);
    if imm % 0x1000 >= 0x800 {
      Peel(-1, imm % 0x1000, 0x1000);
    } else {
      Peel(0, imm % 0x1000, 0x1000);
    }
    RoundTrip(i);
    if SignedFits(imm, 0x800) {
      SignedBack(imm, 0x800);
    }
  }

  // ---- 32-bit constants ----

  /** _split_imm32: the operands of a LUI and ADDI pair. */
  function SplitImm32(value: int): (int, int) {
    var v := value % WORD_LIMIT;
    var lower := v % 0x1000;
    var upper := v / 0x1000;
    if lower >= 0x800 then ((upper + 1) % 0x10_0000, lower - 0x1000) else (upper, lower)
  }

  /** The pair puts the value back together modulo 2^32, and both operands fit their instructions. */
  lemma SplitImm32Reconstructs(value: int, rd: nat)
    requires rd < 0x20
    ensures var (upper, lower) := SplitImm32(value);
            && (upper * 0x1000 + lower) % WORD_LIMIT == value % WORD_LIMIT
            && Encodable(Lui(rd, upper)) && Encodable(AluImm(ADD, rd, rd, lower))
  {
    var v := value % WORD_LIMIT;
    assert v == v / 0x1000 * 0x1000 + v % 0x1000;
  }
}
