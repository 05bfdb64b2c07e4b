/** The generator's two-pass assembler: words are appended with placeholders for references to labels not yet
    placed, and the placeholders are filled in once every label is known. */
module Assembler {
  import opened Encoding

  const ZERO: nat := 0
  const RA: nat := 1

  /** A label: the firmware modules number theirs in program order. */
  type Label = nat

  /** One word of code: an instruction encoded on the spot, or a reference left for later. */
  datatype Op =
    | Do(i: Instr)
    | Call(target: Label)
    | Jump(target: Label)
    | AuipcOf(reg: nat, target: Label)
    | AddiOf(reg: nat, target: Label)
    | BranchTo(equal: bool, rs1: nat, rs2: nat, target: Label)
  {
    predicate Later() { !Do? }
  }

  /** What follows a label up to the next one. */
  datatype Section = Code(name: Label, ops: seq<Op>) | Data(name: Label, text: string)

  type Program = seq<Section>

  datatype Patch = Patch(index: nat, op: Op)

  datatype Error = NotAscii | UnknownLabel | BadSize

  datatype Result = Ok(words: seq<nat>) | Err(error: Error)

  // ---- strings ----

  predicate Ascii(s: string) { forall i | 0 <= i < |s| :: s[i] as int < 0x80 }

  /** The string's bytes, a NUL, and NULs up to a whole number of words. */
  function TextBytes(s: string): (b: seq<nat>)
    ensures |b| == 4 * (|s| / 4 + 1)
    ensures forall i | 0 <= i < |b| :: b[i] == if i < |s| then s[i] as int else 0
  {
    seq(4 * (|s| / 4 + 1), i requires 0 <= i < 4 * (|s| / 4 + 1) => if i < |s| then s[i] as int else 0)
  }

  /** Four bytes as a little-endian word. */
  function LittleEndian(b: seq<nat>): nat
    requires |b| == 4
  {
    b[0] + 0x100 * b[1] + 0x1_0000 * b[2] + 0x100_0000 * b[3]
  }

  function TextWords(s: string): (w: seq<nat>)
    ensures |w| == |s| / 4 + 1
  {
    var b := TextBytes(s);
    seq(|s| / 4 + 1, i requires 0 <= i < |s| / 4 + 1 => LittleEndian(b[4 * i..4 * i + 4]))
  }

  // ---- what assembling means ----

  /** A word of the image: known at once, or a reference. */
  datatype Cell = Known(word: nat) | Pending(op: Op)

  function OpCell(op: Op): Cell {
    if op.Do? && !op.i.Illegal? then Known(Encode(op.i)) else if op.Do? then Known(0) else Pending(op)
  }

  function SectionCells(s: Section): (c: seq<Cell>) {
    match s
    case Code(_, ops) => seq(|ops|, j requires 0 <= j < |ops| => OpCell(ops[j]))
    case Data(_, text) =>
      var w := TextWords(text);
      seq(|w|, j requires 0 <= j < |w| => Known(w[j]))
  }

  /** The first k sections' cells, one after the other. */
  function Cells(p: Program, k: nat): seq<Cell>
    requires k <= |p|
  {
    if k == 0 then [] else Cells(p, k - 1) + SectionCells(p[k - 1])
  }

  /** The word index at which section k starts. */
  function Start(p: Program, k: nat): (n: nat)
    requires k <= |p|
    ensures n == |Cells(p, k)|
  {
    if k == 0 then 0 else Start(p, k - 1) + |SectionCells(p[k - 1])|
  }

  function Labels(p: Program, k: nat): map<Label, nat>
    requires k <= |p|
  {
    if k == 0 then map[] else Labels(p, k - 1)[p[k - 1].name := Start(p, k - 1)]
  }

  /** The instruction a reference at word `at` becomes. */
  function Resolve(op: Op, at: nat, labels: map<Label, nat>): Instr
    requires op.Later() && op.target in labels
  {
    var off := 4 * labels[op.target] - 4 * at;
    match op
    case Call(_) => Jal(RA, off)
    case Jump(_) => Jal(ZERO, off)
    case AuipcOf(reg, _) => Auipc(reg, 0)
    case AddiOf(reg, _) => AluImm(ADD, reg, reg, off + 4)
    case BranchTo(equal, rs1, rs2, _) => Branch(equal, rs1, rs2, off)
  }

  predicate Resolvable(c: Cell, labels: map<Label, nat>) {
    c.Pending? ==> c.op.Later() && c.op.target in labels
  }

  function CellWord(c: Cell, at: nat, labels: map<Label, nat>): nat
    requires Resolvable(c, labels)
  {
    match c
    case Known(w) => w
    case Pending(op) => Encode(Resolve(op, at, labels))
  }

  predicate TextsAscii(p: Program, k: nat)
    requires k <= |p|
  {
    forall i | 0 <= i < k :: p[i].Data? ==> Ascii(p[i].text)
  }

  ghost predicate AllResolvable(cells: seq<Cell>, labels: map<Label, nat>) {
    forall i | 0 <= i < |cells| :: Resolvable(cells[i], labels)
  }

  ghost function Image(p: Program): seq<nat>
    requires AllResolvable(Cells(p, |p|), Labels(p, |p|))
  {
    var cells := Cells(p, |p|);
    seq(|cells|, i requires 0 <= i < |cells| => CellWord(cells[i], i, Labels(p, |p|)))
  }

  // ---- the assembler ----

  class Assembler {
    var words: seq<nat>
    var labels: map<Label, nat>
    var patches: seq<Patch>

    /** The words so far are `cells`, with 0 for each reference, and each reference is on the list. */
    ghost predicate Holds(cells: seq<Cell>)
      reads this
    {
      && |words| == |cells|
      && (forall i | 0 <= i < |cells| :: words[i] == if cells[i].Known? then cells[i].word else 0)
      && (forall m | 0 <= m < |patches| ::
            patches[m].index < |cells| && cells[patches[m].index] == Pending(patches[m].op))
      && (forall i | 0 <= i < |cells| :: cells[i].Pending? ==> cells[i].op.Later())
      && (forall i | 0 <= i < |cells| :: cells[i].Pending? ==> exists m :: 0 <= m < |patches| && patches[m].index == i)
    }

    constructor ()
      ensures Holds([]) && labels == map[]
    {
      words, labels, patches := [], map[], [];
    }

    method SetLabel(name: Label, ghost cells: seq<Cell>)
      requires Holds(cells)
      modifies this`labels
      ensures Holds(cells) && labels == old(labels)[name := |cells|]
    {
      labels := labels[name := |words|];
    }

    method Emit(op: Op, ghost cells: seq<Cell>)
      requires Holds(cells)
      modifies this`words, this`patches
      ensures Holds(cells + [OpCell(op)])
    {
      hide Encode;
      if op.Do? {
        words := words + [if op.i.Illegal? then 0 else Encode(op.i)];
      } else {
        patches := patches + [Patch(|words|, op)];
        words := words + [0];
        assert patches[|patches| - 1].index == |cells|;
      }
      ghost var after := cells + [OpCell(op)];
      forall i | 0 <= i < |after| && after[i].Pending?
        ensures exists m :: 0 <= m < |patches| && patches[m].index == i
      {
        if i < |cells| {
          var m :| 0 <= m < |old(patches)| && old(patches)[m].index == i;
          assert patches[m].index == i;
        }
      }
    }

    method EmitText(text: string, ghost cells: seq<Cell>, ghost name: Label) returns (ok: bool)
      requires Holds(cells)
      modifies this`words
      ensures ok == Ascii(text)
      ensures ok ==> Holds(cells + SectionCells(Data(name, text)))
    {
      ok := Ascii(text);
      if ok {
        words := words + TextWords(text);
      }
    }

    method EmitOps(ops: seq<Op>, ghost cells: seq<Cell>, ghost name: Label)
      requires Holds(cells)
      modifies this`words, this`patches
      ensures Holds(cells + SectionCells(Code(name, ops)))
    {
      hide Encode, Holds, OpCell;
      ghost var all := SectionCells(Code(name, ops));
      assert cells + all[..0] == cells;
      for j := 0 to |ops|
        invariant Holds(cells + all[..j])
      {
        Emit(ops[j], cells + all[..j]);
        assert cells + all[..j + 1] == cells + all[..j] + [OpCell(ops[j])];
      }
      assert all[..|ops|] == all;
    }

    /** The second pass: each placeholder becomes its reference's instruction. */
    method FillIn(ghost cells: seq<Cell>) returns (ok: bool)
      requires Holds(cells)
      modifies this`words
      ensures ok == AllResolvable(cells, labels)
      ensures ok ==> |words| == |cells| && forall i | 0 <= i < |cells| :: words[i] == CellWord(cells[i], i, labels)
    {
      hide Encode;
      ok := true;
      for n := 0 to |patches|
        invariant |words| == |cells|
        invariant forall m | 0 <= m < n :: patches[m].op.target in labels
        invariant forall i | 0 <= i < |cells| && cells[i].Known? :: words[i] == cells[i].word
        invariant forall m | 0 <= m < n ::
                    words[patches[m].index] == Encode(Resolve(patches[m].op, patches[m].index, labels))
      {
        var patch := patches[n];
        if patch.op.target !in labels {
          assert !Resolvable(cells[patch.index], labels);
          return false;
        }
        words := words[patch.index := Encode(Resolve(patch.op, patch.index, labels))];
      }
      forall i | 0 <= i < |cells|
        ensures Resolvable(cells[i], labels) && words[i] == CellWord(cells[i], i, labels)
      {
        if cells[i].Pending? {
          var m :| 0 <= m < |patches| && patches[m].index == i;
          assert cells[patches[m].index] == Pending(patches[m].op);
        }
      }
    }
  }

  /** Both passes over a program: its image, or why there is none. */
  method Assemble(p: Program) returns (r: Result)
    ensures r != Err(BadSize)
    ensures r == Err(NotAscii) <==> !TextsAscii(p, |p|)
    ensures r == Err(UnknownLabel) <==> TextsAscii(p, |p|) && !AllResolvable(Cells(p, |p|), Labels(p, |p|))
    ensures r.Ok? ==> r.words == Image(p)
  {
    hide Encode, TextWords, CellWord, SectionCells, Assembler.Holds;
    var a := new Assembler();
    for k := 0 to |p|
      invariant fresh(a) && a.Holds(Cells(p, k)) && a.labels == Labels(p, k) && TextsAscii(p, k)
    {
      a.SetLabel(p[k].name, Cells(p, k));
      match p[k] {
        case Code(name, ops) => a.EmitOps(ops, Cells(p, k), name);
        case Data(name, text) =>
          var ok := a.EmitText(text, Cells(p, k), name);
          if !ok {
            return Err(NotAscii);
          }
      }
    }
    var ok := a.FillIn(Cells(p, |p|));
    if !ok {
      return Err(UnknownLabel);
    }
    assert a.words == Image(p);
    r := Ok(a.words);
  }
}
