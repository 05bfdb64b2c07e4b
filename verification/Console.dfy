/** Running an assembled firmware word by word, and the routines its programs share: waiting for the transmit FIFO,
    printing a string, printing a word in hex. */
module Console {
  import opened Bits
  import opened Encoding
  import opened Assembler
  import opened Layout
  import opened Listing
  import opened Machine

  /** A program and the hart it is loaded on. */
  datatype Firmware = Firmware(env: Env, p: Program)

  ghost predicate AllEncodable(p: Program) {
    forall k, j | 0 <= k < |p| && p[k].Code? && 0 <= j < |p[k].ops| ::
      OpOk(p[k].ops[j], |p|) && Encodable(InstrAt(p, k, j))
  }

  /** The ROM holds the program's image, every reference in it fits its instruction, and a string ends it. */
  ghost predicate Loaded(f: Firmware) {
    && WellFormed(f.p) && Sound(f.env)
    && AllResolvable(Cells(f.p, |f.p|), Labels(f.p, |f.p|)) && f.env.rom == Image(f.p)
    && AllEncodable(f.p)
    && f.p != [] && f.p[|f.p| - 1].Data?
  }

  lemma LoadedIsSound(f: Firmware)
    requires Loaded(f)
    ensures Sound(f.env)
  {}

  /** The same firmware on a hart whose transmit FIFO drains all the time from t on. */
  function Drained(f: Firmware, t: nat): Firmware { Firmware(Draining(f.env, t), f.p) }

  lemma LoadedDrained(f: Firmware, t: nat)
    requires Loaded(f)
    ensures Loaded(Drained(f, t)) && Fair(Drained(f, t).env)
  {
    hide Sound, Fair, AllResolvable, Image, WellFormed, AllEncodable;
    DrainingIsFair(f.env, t);
  }

  function At(f: Firmware, k: nat, j: nat): int
    requires k <= |f.p|
  {
    Address(f.p, f.env.origin, k, j)
  }

  predicate OpAt(f: Firmware, k: nat, j: nat, op: Op) {
    k < |f.p| && f.p[k].Code? && j < |f.p[k].ops| && f.p[k].ops[j] == op && OpOk(op, |f.p|)
  }

  /** What a word of code does, its references by their labels. */
  function ExecOp(f: Firmware, s: State, op: Op): State
    requires OpOk(op, |f.p|)
  {
    var next := s.(pc := s.pc + 4);
    match op
    case Do(i) => Exec(f.env, s, i)
    case Call(t) => Set(s.(pc := At(f, t, 0)), RA, Wrap(s.pc + 4))
    case Jump(t) => Set(s.(pc := At(f, t, 0)), ZERO, Wrap(s.pc + 4))
    case AuipcOf(reg, _) => Set(next, reg, Wrap(s.pc))
    case AddiOf(reg, t) => Set(next, reg, Wrap(Get(s, reg) + At(f, t, 0) - (s.pc - 4)))
    case BranchTo(equal, rs1, rs2, t) =>
      if (Get(s, rs1) == Get(s, rs2)) == equal then s.(pc := At(f, t, 0)) else next
  }

  lemma WrapWrap(a: int, b: int)
    ensures Wrap(a + Wrap(b)) == Wrap(a + b)
  {}

  lemma WrapSmall(a: int)
    requires 0 <= a < WORD_LIMIT
    ensures Wrap(a) == a
  {}

  /** The hart at reset: at the ROM's start, nothing sent, taken or accessed yet. Registers hold anything. */
  predicate AtReset(f: Firmware, s: State) {
    s.pc == f.env.origin && s.bus == [] && s.sent == [] && s.popped == 0 && s.level <= f.env.depth
  }

  lemma RunZero(env: Env, s: State)
    ensures Run(env, s, 0) == s
  {}

  lemma CodeInRom(f: Firmware, k: nat)
    requires Loaded(f) && k < |f.p|
    ensures 0 <= At(f, k, 0) < WORD_LIMIT && At(f, k, 0) % 4 == 0
    ensures Start(f.p, k) < |f.env.rom|
  {
    hide Cells, Labels, SectionCells, Encode, WellFormed, AllEncodable, CellWord;
    var last := |f.p| - 1;
    if k < last {
      StartsInOrder(f.p, k, last);
    }
    assert Start(f.p, last) < Start(f.p, |f.p|) by { LastSectionHasWords(f.p[last]); }
  }

  lemma LastSectionHasWords(s: Section)
    requires s.Data?
    ensures |SectionCells(s)| > 0
  {}

  lemma FetchAt(f: Firmware, pc: int, k: nat, j: nat)
    requires Loaded(f) && k < |f.p| && f.p[k].Code? && j < |f.p[k].ops| && pc == At(f, k, j)
    ensures OpOk(f.p[k].ops[j], |f.p|) && Fetch(f.env, pc) == InstrAt(f.p, k, j)
  {
    hide Cells, Labels, SectionCells, Encode, Encodable, WellFormed, CellWord, Decode, InstrAt, Image, Start;
    assert OpOk(f.p[k].ops[j], |f.p|) && Encodable(InstrAt(f.p, k, j));
    DecodedAt(f.p, k, j);
    var at := Start(f.p, k) + j;
    assert (pc - f.env.origin) / 4 == at;
  }

  /** One step at word j of section k. */
  lemma StepIs(f: Firmware, s: State, k: nat, j: nat, op: Op)
    requires Loaded(f) && OpAt(f, k, j, op) && s.pc == At(f, k, j)
    ensures Step(f.env, s) == Tick(f.env, ExecOp(f, s, op))
  {
    hide Loaded, Exec, ExecOp, Tick, InstrAt, At, Fetch;
    FetchAt(f, s.pc, k, j);
    match op
    case Do(i) => ExecDo(f, s, k, j, i);
    case Call(t) => ExecCall(f, s, k, j, t);
    case Jump(t) => ExecJump(f, s, k, j, t);
    case AuipcOf(reg, t) => ExecAuipc(f, s, k, j, reg, t);
    case AddiOf(reg, t) => ExecAddi(f, s, k, j, reg, t);
    case BranchTo(equal, rs1, rs2, t) => ExecBranch(f, s, k, j, equal, rs1, rs2, t);
  }

  lemma ExecDo(f: Firmware, s: State, k: nat, j: nat, i: Instr)
    requires Loaded(f) && OpAt(f, k, j, Op.Do(i)) && s.pc == At(f, k, j)
    ensures Exec(f.env, s, InstrAt(f.p, k, j)) == ExecOp(f, s, Op.Do(i))
  {
    hide Loaded, Exec, At;
  }

  lemma ExecCall(f: Firmware, s: State, k: nat, j: nat, t: Label)
    requires Loaded(f) && OpAt(f, k, j, Call(t)) && s.pc == At(f, k, j)
    ensures Exec(f.env, s, InstrAt(f.p, k, j)) == ExecOp(f, s, Call(t))
  {
    hide Loaded, At, Distance, Wrap;
    TargetIs(f, s.pc, k, j, t);
  }

  lemma ExecJump(f: Firmware, s: State, k: nat, j: nat, t: Label)
    requires Loaded(f) && OpAt(f, k, j, Jump(t)) && s.pc == At(f, k, j)
    ensures Exec(f.env, s, InstrAt(f.p, k, j)) == ExecOp(f, s, Jump(t))
  {
    hide Loaded, At, Distance, Wrap;
    TargetIs(f, s.pc, k, j, t);
  }

  lemma ExecBranch(f: Firmware, s: State, k: nat, j: nat, equal: bool, rs1: nat, rs2: nat, t: Label)
    requires Loaded(f) && OpAt(f, k, j, BranchTo(equal, rs1, rs2, t)) && s.pc == At(f, k, j)
    ensures Exec(f.env, s, InstrAt(f.p, k, j)) == ExecOp(f, s, BranchTo(equal, rs1, rs2, t))
  {
    hide Loaded, At, Distance, Wrap, Get;
    TargetIs(f, s.pc, k, j, t);
  }

  lemma ExecAuipc(f: Firmware, s: State, k: nat, j: nat, reg: nat, t: Label)
    requires Loaded(f) && OpAt(f, k, j, AuipcOf(reg, t)) && s.pc == At(f, k, j)
    ensures Exec(f.env, s, InstrAt(f.p, k, j)) == ExecOp(f, s, AuipcOf(reg, t))
  {
    hide Loaded, At, Distance, Wrap;
  }

  lemma ExecAddi(f: Firmware, s: State, k: nat, j: nat, reg: nat, t: Label)
    requires Loaded(f) && OpAt(f, k, j, AddiOf(reg, t)) && s.pc == At(f, k, j)
    ensures Exec(f.env, s, InstrAt(f.p, k, j)) == ExecOp(f, s, AddiOf(reg, t))
  {
    hide Loaded, Wrap, Get, Address, Distance;
    var d := Distance(f.p, k, j, t);
    assert At(f, t, 0) - (s.pc - 4) == d + 4 by { DistanceIs(f, k, j, t); }
    AddWrapped(Get(s, reg), d + 4);
  }

  lemma AddWrapped(a: Word, b: int)
    ensures AluValue(ADD, a, Wrap(b)) == Wrap(a + b)
  {
    WrapWrap(a, b);
  }

  lemma DistanceIs(f: Firmware, k: nat, j: nat, t: Label)
    requires k <= |f.p| && t <= |f.p|
    ensures At(f, k, j) + Distance(f.p, k, j, t) == At(f, t, 0)
  {
    hide Start;
  }

  lemma TargetIs(f: Firmware, pc: int, k: nat, j: nat, t: Label)
    requires Loaded(f) && k < |f.p| && pc == At(f, k, j) && t < |f.p|
    ensures Wrap(pc + Distance(f.p, k, j, t)) == At(f, t, 0)
  {
    hide Loaded, At, Distance, Wrap, Start;
    DistanceIs(f, k, j, t);
    CodeInRom(f, t);
    WrapSmall(At(f, t, 0));
  }

  /** From s, which s0 reaches, one more step. */
  lemma Go(f: Firmware, s0: State, s: State, k: nat, j: nat, op: Op) returns (t: State)
    requires Loaded(f) && OpAt(f, k, j, op) && s.pc == At(f, k, j) && Reaches(f.env, s0, s)
    ensures t == Tick(f.env, ExecOp(f, s, op)) && Reaches(f.env, s0, t)
  {
    hide Loaded, ExecOp, Step, Tick, Reaches, At;
    StepIs(f, s, k, j, op);
    ReachesNext(f.env, s0, s);
    t := Step(f.env, s);
  }

  /** A section falls through to the next. */
  lemma FallsThrough(f: Firmware, k: nat)
    requires k < |f.p| && f.p[k].Code?
    ensures At(f, k, |f.p[k].ops|) == At(f, k + 1, 0)
  {
    hide Cells;
  }

  // ---- what a step leaves ----

  /** The UART's base is in S0, and the transmit FIFO holds no more than it can. */
  predicate Ready(f: Firmware, s: State) {
    Get(s, S0) == f.env.uart && s.level <= f.env.depth
  }

  /** Registers outside `touched` are as they were. */
  ghost predicate Kept(s: State, t: State, touched: set<nat>) {
    forall r: nat | r !in touched :: Get(t, r) == Get(s, r)
  }

  /** Nothing was sent, taken from the receive FIFO or said to the device. */
  predicate Silent(s: State, t: State) {
    t.bus == s.bus && t.popped == s.popped && t.sent == s.sent
  }

  /** One instruction's worth of time, in which the transmit FIFO gained `put` bytes at most. */
  predicate Ticked(f: Firmware, s: State, t: State, put: nat) {
    && t.time == s.time + 1
    && t.level == if f.env.drains(s.time) && s.level + put > 0 then s.level + put - 1 else s.level + put
  }

  /** A step that only sets rd, and goes on. */
  ghost predicate Sets(f: Firmware, s: State, t: State, rd: nat, v: Word) {
    t.pc == s.pc + 4 && (rd != ZERO ==> Get(t, rd) == v) && Kept(s, t, {rd}) && Silent(s, t) && Ticked(f, s, t, 0)
  }

  lemma ZeroIsZero(s: State)
    ensures Get(s, ZERO) == 0
  {}

  lemma GoSets(f: Firmware, s0: State, s: State, k: nat, j: nat, i: Instr, rd: nat, v: Word) returns (t: State)
    requires Loaded(f) && OpAt(f, k, j, Do(i)) && s.pc == At(f, k, j) && Reaches(f.env, s0, s)
    requires Exec(f.env, s, i) == Set(s.(pc := s.pc + 4), rd, v)
    ensures Reaches(f.env, s0, t) && Sets(f, s, t, rd, v) && t.pc == At(f, k, j + 1)
  {
    hide Loaded, Exec, Reaches, Start;
    t := Go(f, s0, s, k, j, Do(i));
  }

  lemma GoAddImm(f: Firmware, s0: State, s: State, k: nat, j: nat, rd: nat, rs: nat, imm: int) returns (t: State)
    requires Loaded(f) && OpAt(f, k, j, Do(AluImm(ADD, rd, rs, imm))) && s.pc == At(f, k, j) && Reaches(f.env, s0, s)
    ensures Reaches(f.env, s0, t) && Sets(f, s, t, rd, Wrap(Get(s, rs) + imm)) && t.pc == At(f, k, j + 1)
  {
    hide Loaded, Reaches, Start, Get, Wrap;
    AddWrapped(Get(s, rs), imm);
    t := GoSets(f, s0, s, k, j, AluImm(ADD, rd, rs, imm), rd, Wrap(Get(s, rs) + imm));
  }

  lemma GoAluImm(f: Firmware, s0: State, s: State, k: nat, j: nat, op: AluOp, rd: nat, rs: nat, imm: int)
    returns (t: State)
    requires Loaded(f) && OpAt(f, k, j, Do(AluImm(op, rd, rs, imm))) && s.pc == At(f, k, j) && Reaches(f.env, s0, s)
    ensures Reaches(f.env, s0, t) && Sets(f, s, t, rd, AluValue(op, Get(s, rs), Wrap(imm))) && t.pc == At(f, k, j + 1)
  {
    hide Loaded, Reaches, Start, Get, Wrap, AluValue;
    t := GoSets(f, s0, s, k, j, AluImm(op, rd, rs, imm), rd, AluValue(op, Get(s, rs), Wrap(imm)));
  }

  lemma GoAlu(f: Firmware, s0: State, s: State, k: nat, j: nat, op: AluOp, rd: nat, rs1: nat, rs2: nat)
    returns (t: State)
    requires Loaded(f) && OpAt(f, k, j, Do(Alu(op, rd, rs1, rs2))) && s.pc == At(f, k, j) && Reaches(f.env, s0, s)
    ensures Reaches(f.env, s0, t) && Sets(f, s, t, rd, AluValue(op, Get(s, rs1), Get(s, rs2)))
    ensures t.pc == At(f, k, j + 1)
  {
    hide Loaded, Reaches, Start, Get, AluValue;
    t := GoSets(f, s0, s, k, j, Alu(op, rd, rs1, rs2), rd, AluValue(op, Get(s, rs1), Get(s, rs2)));
  }

  lemma GoLui(f: Firmware, s0: State, s: State, k: nat, j: nat, rd: nat, imm20: int) returns (t: State)
    requires Loaded(f) && OpAt(f, k, j, Do(Lui(rd, imm20))) && s.pc == At(f, k, j) && Reaches(f.env, s0, s)
    ensures Reaches(f.env, s0, t) && Sets(f, s, t, rd, Wrap(imm20 * 0x1000)) && t.pc == At(f, k, j + 1)
  {
    hide Loaded, Reaches, Start, Get, Wrap;
    t := GoSets(f, s0, s, k, j, Lui(rd, imm20), rd, Wrap(imm20 * 0x1000));
  }

  /** A step that goes elsewhere, setting RA at most. */
  ghost predicate Goes(f: Firmware, s: State, t: State, there: int) {
    t.pc == there && Kept(s, t, {}) && Silent(s, t) && Ticked(f, s, t, 0)
  }

  lemma GoJump(f: Firmware, s0: State, s: State, k: nat, j: nat, target: Label) returns (t: State)
    requires Loaded(f) && OpAt(f, k, j, Jump(target)) && s.pc == At(f, k, j) && Reaches(f.env, s0, s)
    ensures Reaches(f.env, s0, t) && Goes(f, s, t, At(f, target, 0))
  {
    hide Loaded, Reaches, At, Wrap;
    t := Go(f, s0, s, k, j, Jump(target));
  }

  lemma GoBranch(f: Firmware, s0: State, s: State, k: nat, j: nat, equal: bool, rs1: nat, rs2: nat, target: Label)
    returns (t: State)
    requires Loaded(f) && OpAt(f, k, j, BranchTo(equal, rs1, rs2, target))
    requires s.pc == At(f, k, j) && Reaches(f.env, s0, s)
    ensures Reaches(f.env, s0, t)
    ensures Goes(f, s, t, if (Get(s, rs1) == Get(s, rs2)) == equal then At(f, target, 0) else At(f, k, j + 1))
  {
    hide Loaded, Reaches, Start;
    t := Go(f, s0, s, k, j, BranchTo(equal, rs1, rs2, target));
  }

  lemma NextWord(f: Firmware, k: nat, j: nat)
    requires k <= |f.p|
    ensures At(f, k, j) + 4 == At(f, k, j + 1)
  {
    hide Start;
  }

  lemma GoCall(f: Firmware, s0: State, s: State, k: nat, j: nat, target: Label) returns (t: State)
    requires Loaded(f) && OpAt(f, k, j, Call(target)) && s.pc == At(f, k, j) && Reaches(f.env, s0, s)
    requires k + 1 < |f.p|
    ensures Reaches(f.env, s0, t) && t.pc == At(f, target, 0) && Get(t, RA) == At(f, k, j + 1)
    ensures Get(t, RA) % 4 == 0 && Kept(s, t, {RA}) && Silent(s, t) && Ticked(f, s, t, 0)
  {
    hide Loaded, Reaches, At, Wrap;
    ReturnAddress(f, k, j + 1);
    NextWord(f, k, j);
    WrapSmall(At(f, k, j + 1));
    t := Go(f, s0, s, k, j, Call(target));
  }

  lemma ReturnAddress(f: Firmware, k: nat, j: nat)
    requires Loaded(f) && k + 1 < |f.p| && f.p[k].Code? && j <= |f.p[k].ops|
    ensures 0 <= At(f, k, j) < WORD_LIMIT && At(f, k, j) % 4 == 0
  {
    hide Loaded, Start, At;
    if j < |f.p[k].ops| {
      LoadedIsSound(f);
      InImage(f, k, j);
      AddressOk(f, k, j);
    } else {
      FallsThrough(f, k);
      CodeInRom(f, k + 1);
    }
  }

  lemma AddressOk(f: Firmware, k: nat, j: nat)
    requires Sound(f.env) && k <= |f.p| && Start(f.p, k) + j < |f.env.rom|
    ensures 0 <= At(f, k, j) < WORD_LIMIT && At(f, k, j) % 4 == 0
  {
    hide Start;
    WordAligned(f.env.origin, Start(f.p, k) + j);
  }

  lemma WordAligned(origin: nat, n: nat)
    requires origin % 4 == 0
    ensures (origin + 4 * n) % 4 == 0
  {}

  lemma InImage(f: Firmware, k: nat, j: nat)
    requires Loaded(f) && k < |f.p| && f.p[k].Code? && j < |f.p[k].ops|
    ensures Start(f.p, k) + j < |f.env.rom|
  {
    hide AllEncodable, Start, Image;
    WordAt(f.p, k, j);
  }

  lemma ExecReturn(f: Firmware, s: State)
    requires Get(s, RA) % 4 == 0
    ensures Exec(f.env, s, Jalr(ZERO, RA, 0)) == Set(s.(pc := Get(s, RA)), ZERO, Wrap(s.pc + 4))
  {
    hide Get, Wrap;
    EvenAddress(Get(s, RA));
  }

  lemma EvenAddress(a: Word)
    requires a % 4 == 0
    ensures Wrap(a + 0) == a && a - a % 2 == a
  {
    hide Wrap;
    WrapSmall(a + 0);
    assert a == 4 * (a / 4);
    FourIsEven(a / 4);
  }

  /** A leaf routine's return. */
  lemma GoReturn(f: Firmware, s0: State, s: State, k: nat, j: nat) returns (t: State)
    requires Loaded(f) && OpAt(f, k, j, Do(Jalr(ZERO, RA, 0))) && s.pc == At(f, k, j) && Reaches(f.env, s0, s)
    requires Get(s, RA) % 4 == 0
    ensures Reaches(f.env, s0, t) && Goes(f, s, t, Get(s, RA))
  {
    hide Loaded, Reaches, Start, Exec;
    ExecReturn(f, s);
    t := Go(f, s0, s, k, j, Do(Jalr(ZERO, RA, 0)));
  }

  // ---- constants ----

  lemma MoveAddZero(v: Word)
    ensures Wrap(v + 0) == v
  {}

  lemma WrapLeft(x: int, y: int)
    ensures Wrap(Wrap(x) + y) == Wrap(x + y)
  {}

  /** LUI and ADDI put a constant in a register. */
  lemma RunLoad(f: Firmware, s0: State, s: State, k: nat, j: nat, reg: nat, value: int) returns (t: State)
    requires Loaded(f) && Reaches(f.env, s0, s) && 0 < reg < 0x20
    requires OpAt(f, k, j, LoadHigh(reg, value)) && OpAt(f, k, j + 1, LoadLow(reg, value)) && s.pc == At(f, k, j)
    ensures Reaches(f.env, s0, t) && t.pc == At(f, k, j + 2) && Get(t, reg) == Wrap(value)
    ensures Kept(s, t, {reg}) && Silent(s, t) && t.level <= s.level
  {
    hide Loaded, Reaches, At, Get, OpAt, SplitImm32;
    SplitImm32Reconstructs(value, reg);
    var (upper, lower) := SplitImm32(value);
    var s1 := GoLui(f, s0, s, k, j, reg, upper);
    t := GoAddImm(f, s0, s1, k, j + 1, reg, reg, lower);
    WrapLeft(upper * 0x1000, lower);
  }

  // ---- the UART ----

  lemma LoadUart(f: Firmware, s: State, rd: nat, off: nat)
    requires Sound(f.env) && Get(s, S0) == f.env.uart && off < UART_SIZE && off % 4 == 0
    ensures Exec(f.env, s, Load(Wide, rd, S0, off))
         == Set(s.(pc := s.pc + 4), rd, ReadWord(f.env, s, f.env.uart + off))
  {
    hide Get, ReadWord;
    assert Wrap(f.env.uart + off) == f.env.uart + off;
  }

  lemma StoreUart(f: Firmware, s: State, rs: nat, off: nat)
    requires Sound(f.env) && Get(s, S0) == f.env.uart && off < UART_SIZE && off % 4 == 0
    ensures Exec(f.env, s, Store(Wide, rs, S0, off))
         == AfterWrite(f.env, s.(pc := s.pc + 4), f.env.uart + off, Get(s, rs), ALL_LANES)
  {
    hide Get, AfterWrite;
    assert Wrap(f.env.uart + off) == f.env.uart + off;
  }

  lemma GoLoadTxFull(f: Firmware, s0: State, s: State, k: nat, j: nat, rd: nat) returns (t: State)
    requires Loaded(f) && OpAt(f, k, j, Do(Load(Wide, rd, S0, 4))) && s.pc == At(f, k, j) && Reaches(f.env, s0, s)
    requires Ready(f, s)
    ensures Reaches(f.env, s0, t) && Sets(f, s, t, rd, if TxFull(f.env, s) then 1 else 0) && t.pc == At(f, k, j + 1)
  {
    hide Loaded, Reaches, Start, Get, Exec;
    LoadedIsSound(f);
    LoadUart(f, s, rd, 4);
    t := GoSets(f, s0, s, k, j, Load(Wide, rd, S0, 4), rd, if TxFull(f.env, s) then 1 else 0);
  }

  lemma GoLoadRxEmpty(f: Firmware, s0: State, s: State, k: nat, j: nat, rd: nat) returns (t: State)
    requires Loaded(f) && OpAt(f, k, j, Do(Load(Wide, rd, S0, 8))) && s.pc == At(f, k, j) && Reaches(f.env, s0, s)
    requires Ready(f, s)
    ensures Reaches(f.env, s0, t) && Sets(f, s, t, rd, if RxEmpty(f.env, s) then 1 else 0) && t.pc == At(f, k, j + 1)
  {
    hide Loaded, Reaches, Start, Get, Exec;
    LoadedIsSound(f);
    LoadUart(f, s, rd, 8);
    t := GoSets(f, s0, s, k, j, Load(Wide, rd, S0, 8), rd, if RxEmpty(f.env, s) then 1 else 0);
  }

  lemma GoLoadRx(f: Firmware, s0: State, s: State, k: nat, j: nat, rd: nat) returns (t: State)
    requires Loaded(f) && OpAt(f, k, j, Do(Load(Wide, rd, S0, 0))) && s.pc == At(f, k, j) && Reaches(f.env, s0, s)
    requires Ready(f, s) && !RxEmpty(f.env, s)
    ensures Reaches(f.env, s0, t) && Sets(f, s, t, rd, Wrap(f.env.received(s.popped))) && t.pc == At(f, k, j + 1)
  {
    hide Loaded, Reaches, Start, Get, Exec;
    LoadedIsSound(f);
    LoadUart(f, s, rd, 0);
    t := GoSets(f, s0, s, k, j, Load(Wide, rd, S0, 0), rd, Wrap(f.env.received(s.popped)));
  }

  /** A byte written while there is room is sent. */
  lemma GoSend(f: Firmware, s0: State, s: State, k: nat, j: nat, rs: nat) returns (t: State)
    requires Loaded(f) && OpAt(f, k, j, Do(Store(Wide, rs, S0, 0))) && s.pc == At(f, k, j) && Reaches(f.env, s0, s)
    requires Ready(f, s) && !TxFull(f.env, s)
    ensures Reaches(f.env, s0, t) && t.pc == At(f, k, j + 1) && Kept(s, t, {}) && Ticked(f, s, t, 1)
    ensures t.bus == s.bus && t.popped == s.popped && t.sent == s.sent + [Get(s, rs) % 0x100]
  {
    hide Loaded, Reaches, Start, Exec;
    LoadedIsSound(f);
    StoreUart(f, s, rs, 0);
    t := Go(f, s0, s, k, j, Do(Store(Wide, rs, S0, 0)));
  }

  /** Writing EV_RX to EV_PENDING takes the next byte out of the receive FIFO. */
  lemma GoPop(f: Firmware, s0: State, s: State, k: nat, j: nat, rs: nat) returns (t: State)
    requires Loaded(f) && OpAt(f, k, j, Do(Store(Wide, rs, S0, 16))) && s.pc == At(f, k, j) && Reaches(f.env, s0, s)
    requires Ready(f, s) && Get(s, rs) == EV_RX && !RxEmpty(f.env, s)
    ensures Reaches(f.env, s0, t) && t.pc == At(f, k, j + 1) && Kept(s, t, {}) && Ticked(f, s, t, 0)
    ensures t.bus == s.bus && t.popped == s.popped + 1 && t.sent == s.sent
  {
    hide Loaded, Reaches, Start, Exec;
    LoadedIsSound(f);
    StoreUart(f, s, rs, 16);
    t := Go(f, s0, s, k, j, Do(Store(Wide, rs, S0, 16)));
  }

  // ---- the ROM's bytes and the device ----

  predicate InRom(f: Firmware, a: int) { Within(a, f.env.origin, 4 * |f.env.rom|) }

  /** The byte at an address of the ROM. */
  function RomByte(f: Firmware, a: int): (b: nat)
    requires InRom(f, a)
    ensures b < 0x100
  {
    ByteOf(f.env.rom[(a - f.env.origin) / 4], (a - f.env.origin) % 4)
  }

  lemma LoadRomByte(f: Firmware, s: State, rd: nat, rs: nat)
    requires Sound(f.env) && InRom(f, Get(s, rs))
    ensures Exec(f.env, s, Load(Byte, rd, rs, 0)) == Set(s.(pc := s.pc + 4), rd, RomByte(f, Get(s, rs)))
  {
    hide Get, ByteOf;
    var a := Get(s, rs);
    RomOffset(a, f.env.origin);
    WrapSmall(a);
  }

  lemma RomOffset(a: nat, o: nat)
    requires o % 4 == 0 && o <= a
    ensures (a - a % 4 - o) / 4 == (a - o) / 4 && a % 4 == (a - o) % 4 && o <= a - a % 4
  {}

  lemma GoLoadRomByte(f: Firmware, s0: State, s: State, k: nat, j: nat, rd: nat, rs: nat) returns (t: State)
    requires Loaded(f) && OpAt(f, k, j, Do(Load(Byte, rd, rs, 0))) && s.pc == At(f, k, j) && Reaches(f.env, s0, s)
    requires InRom(f, Get(s, rs))
    ensures Reaches(f.env, s0, t) && Sets(f, s, t, rd, RomByte(f, Get(s, rs))) && t.pc == At(f, k, j + 1)
  {
    hide Loaded, Reaches, Start, Get, RomByte, Exec;
    LoadedIsSound(f);
    LoadRomByte(f, s, rd, rs);
    t := GoSets(f, s0, s, k, j, Load(Byte, rd, rs, 0), rd, RomByte(f, Get(s, rs)));
  }

  predicate InDevice(f: Firmware, a: int) {
    Within(a, f.env.device, f.env.deviceSize) && a % 4 == 0 && 0 <= a < WORD_LIMIT
  }

  lemma LoadDevice(f: Firmware, s: State, rd: nat, rs: nat, off: int)
    requires Sound(f.env) && InDevice(f, Get(s, rs) + off)
    ensures Exec(f.env, s, Load(Wide, rd, rs, off))
         == Set(s.(pc := s.pc + 4, bus := s.bus + [Read(Get(s, rs) + off)]), rd, f.env.reply(s.bus, Get(s, rs) + off))
  {
    hide Get;
  }

  lemma StoreDevice(f: Firmware, s: State, rv: nat, rs: nat, off: int)
    requires Sound(f.env) && InDevice(f, Get(s, rs) + off)
    ensures Exec(f.env, s, Store(Wide, rv, rs, off))
         == s.(pc := s.pc + 4, bus := s.bus + [Write(Get(s, rs) + off, Get(s, rv), ALL_LANES)])
  {
    hide Get;
  }

  lemma StoreDeviceByte(f: Firmware, s: State, rv: nat, rs: nat)
    requires Sound(f.env) && InDevice(f, Get(s, rs) - Get(s, rs) % 4)
    ensures Exec(f.env, s, Store(Byte, rv, rs, 0))
         == s.(pc := s.pc + 4, bus := s.bus + [Write(Get(s, rs) - Get(s, rs) % 4, OnAllLanes(Get(s, rv)),
                                                     OneLane(Get(s, rs) % 4))])
  {
    hide Get, OnAllLanes;
    assert Wrap(Get(s, rs)) == Get(s, rs);
  }

  lemma GoLoadDevice(f: Firmware, s0: State, s: State, k: nat, j: nat, rd: nat, rs: nat, off: int) returns (t: State)
    requires Loaded(f) && OpAt(f, k, j, Do(Load(Wide, rd, rs, off))) && s.pc == At(f, k, j) && Reaches(f.env, s0, s)
    requires InDevice(f, Get(s, rs) + off)
    ensures Reaches(f.env, s0, t) && t.pc == At(f, k, j + 1) && Kept(s, t, {rd}) && Ticked(f, s, t, 0)
    ensures rd != ZERO ==> Get(t, rd) == f.env.reply(s.bus, Get(s, rs) + off)
    ensures t.bus == s.bus + [Read(Get(s, rs) + off)] && t.popped == s.popped && t.sent == s.sent
  {
    hide Loaded, Reaches, Start, Exec;
    LoadedIsSound(f);
    LoadDevice(f, s, rd, rs, off);
    t := Go(f, s0, s, k, j, Do(Load(Wide, rd, rs, off)));
  }

  lemma GoStoreDevice(f: Firmware, s0: State, s: State, k: nat, j: nat, rv: nat, rs: nat, off: int) returns (t: State)
    requires Loaded(f) && OpAt(f, k, j, Do(Store(Wide, rv, rs, off))) && s.pc == At(f, k, j) && Reaches(f.env, s0, s)
    requires InDevice(f, Get(s, rs) + off)
    ensures Reaches(f.env, s0, t) && t.pc == At(f, k, j + 1) && Kept(s, t, {}) && Ticked(f, s, t, 0)
    ensures t.bus == s.bus + [Write(Get(s, rs) + off, Get(s, rv), ALL_LANES)]
    ensures t.popped == s.popped && t.sent == s.sent
  {
    hide Loaded, Reaches, Start, Exec;
    LoadedIsSound(f);
    StoreDevice(f, s, rv, rs, off);
    t := Go(f, s0, s, k, j, Do(Store(Wide, rv, rs, off)));
  }

  lemma GoStoreDeviceByte(f: Firmware, s0: State, s: State, k: nat, j: nat, rv: nat, rs: nat) returns (t: State)
    requires Loaded(f) && OpAt(f, k, j, Do(Store(Byte, rv, rs, 0))) && s.pc == At(f, k, j) && Reaches(f.env, s0, s)
    requires InDevice(f, Get(s, rs) - Get(s, rs) % 4)
    ensures Reaches(f.env, s0, t) && t.pc == At(f, k, j + 1) && Kept(s, t, {}) && Ticked(f, s, t, 0)
    ensures t.bus == s.bus + [Write(Get(s, rs) - Get(s, rs) % 4, OnAllLanes(Get(s, rv)), OneLane(Get(s, rs) % 4))]
    ensures t.popped == s.popped && t.sent == s.sent
  {
    hide Loaded, Reaches, Start, Exec, OnAllLanes;
    LoadedIsSound(f);
    StoreDeviceByte(f, s, rv, rs);
    t := Go(f, s0, s, k, j, Do(Store(Byte, rv, rs, 0)));
  }

  // ---- waiting for the transmit FIFO ----

  /** The polling loop at section k: it leaves with room in the transmit FIFO. */
  lemma WaitForRoom(f: Firmware, s0: State, s: State, k: nat, r: nat, u: nat) returns (t: State)
    requires Loaded(f) && Fair(f.env) && Reaches(f.env, s0, s) && Ready(f, s) && r != S0 && r != ZERO
    requires OpAt(f, k, 0, Do(Load(Wide, r, S0, 4))) && OpAt(f, k, 1, BranchTo(false, r, ZERO, k))
    requires s.pc == At(f, k, 0)
    requires TxFull(f.env, s) ==> DrainsBy(f.env, s.time, u)
    ensures Reaches(f.env, s0, t) && Ready(f, t) && !TxFull(f.env, t) && t.pc == At(f, k, 2)
    ensures Kept(s, t, {r}) && Silent(s, t)
    decreases if TxFull(f.env, s) then 1 + u - s.time else 0
  {
    hide Loaded, Reaches, At, Fair, Get;
    LoadedIsSound(f);
    var s1 := GoLoadTxFull(f, s0, s, k, 0, r);
    var s2 := GoBranch(f, s0, s1, k, 1, false, r, ZERO, k);
    ZeroIsZero(s1);
    if TxFull(f.env, s) {
      t := WaitForRoom(f, s0, s2, k, r, u);
    } else {
      t := s2;
    }
  }

  lemma WaitForRoomHere(f: Firmware, s0: State, s: State, k: nat, r: nat) returns (t: State)
    requires Loaded(f) && Fair(f.env) && Reaches(f.env, s0, s) && Ready(f, s) && r != S0 && r != ZERO
    requires OpAt(f, k, 0, Do(Load(Wide, r, S0, 4))) && OpAt(f, k, 1, BranchTo(false, r, ZERO, k))
    requires s.pc == At(f, k, 0)
    ensures Reaches(f.env, s0, t) && Ready(f, t) && !TxFull(f.env, t) && t.pc == At(f, k, 2)
    ensures Kept(s, t, {r}) && Silent(s, t)
  {
    hide Loaded, Reaches, Start;
    assert DrainsAfter(f.env, s.time);
    var u: nat :| DrainsBy(f.env, s.time, u);
    t := WaitForRoom(f, s0, s, k, r, u);
  }

  // ---- putstr ----

  /** The putstr routine, in the three sections from k on: the same words in every firmware. */
  predicate PutstrAt(f: Firmware, k: nat) {
    && OpAt(f, k, 0, Do(Load(Byte, T0, A0, 0))) && OpAt(f, k, 1, BranchTo(true, T0, ZERO, k + 2))
    && |f.p[k].ops| == 2
    && OpAt(f, k + 1, 0, Do(Load(Wide, T1, S0, 4))) && OpAt(f, k + 1, 1, BranchTo(false, T1, ZERO, k + 1))
    && OpAt(f, k + 1, 2, Do(Store(Wide, T0, S0, 0))) && OpAt(f, k + 1, 3, Do(AluImm(ADD, A0, A0, 1)))
    && OpAt(f, k + 1, 4, Jump(k))
    && OpAt(f, k + 2, 0, Do(Jalr(ZERO, RA, 0)))
  }

  /** The ROM has these bytes at an address, none of them NUL, and a NUL after them. */
  ghost predicate StringAt(f: Firmware, a: nat, bytes: seq<nat>) {
    && InRom(f, a + |bytes|) && f.env.origin <= a
    && (forall i | 0 <= i < |bytes| :: RomByte(f, a + i) == bytes[i] != 0)
    && RomByte(f, a + |bytes|) == 0
  }

  lemma StringTail(f: Firmware, a: nat, bytes: seq<nat>)
    requires Sound(f.env) && StringAt(f, a, bytes) && bytes != []
    ensures StringAt(f, a + 1, bytes[1..]) && Wrap(a + 1) == a + 1 && RomByte(f, a) == bytes[0] < 0x100
  {
    hide ByteOf;
    assert RomByte(f, a + 0) == bytes[0];
    assert forall i | 0 <= i < |bytes| - 1 :: a + 1 + i == a + (i + 1) && bytes[1..][i] == bytes[i + 1];
  }

  lemma PutstrByte(f: Firmware, s0: State, s: State, k: nat) returns (t: State)
    requires Loaded(f) && Fair(f.env) && PutstrAt(f, k)
    requires Reaches(f.env, s0, s) && Ready(f, s) && s.pc == At(f, k + 1, 0)
    ensures Reaches(f.env, s0, t) && Ready(f, t) && t.pc == At(f, k, 0)
    ensures Get(t, A0) == Wrap(Get(s, A0) + 1)
    ensures Kept(s, t, {T1, A0}) && t.bus == s.bus && t.popped == s.popped && t.sent == s.sent + [Get(s, T0) % 0x100]
  {
    hide Loaded, Reaches, At, Get, OpAt;
    var s1 := WaitForRoomHere(f, s0, s, k + 1, T1);
    var s2 := GoSend(f, s0, s1, k + 1, 2, T0);
    var s3 := GoAddImm(f, s0, s2, k + 1, 3, A0, A0, 1);
    t := GoJump(f, s0, s3, k + 1, 4, k);
  }

  /** putstr sends the string A0 points to, and returns. */
  lemma Putstr(f: Firmware, s0: State, s: State, k: nat, bytes: seq<nat>) returns (t: State)
    requires Loaded(f) && Fair(f.env) && PutstrAt(f, k)
    requires Reaches(f.env, s0, s) && Ready(f, s) && s.pc == At(f, k, 0)
    requires StringAt(f, Get(s, A0), bytes) && Get(s, RA) % 4 == 0
    ensures Reaches(f.env, s0, t) && Ready(f, t) && t.pc == Get(s, RA)
    ensures Kept(s, t, {T0, T1, A0}) && t.bus == s.bus && t.popped == s.popped && t.sent == s.sent + bytes
    decreases |bytes|
  {
    hide Loaded, Reaches, At, Get, RomByte;
    LoadedIsSound(f);
    var s1 := GoLoadRomByte(f, s0, s, k, 0, T0, A0);
    ZeroIsZero(s1);
    var s2 := GoBranch(f, s0, s1, k, 1, true, T0, ZERO, k + 2);
    if bytes == [] {
      t := GoReturn(f, s0, s2, k + 2, 0);
    } else {
      StringTail(f, Get(s, A0), bytes);
      FallsThrough(f, k);
      var s3 := PutstrByte(f, s0, s2, k);
      t := Putstr(f, s0, s3, k, bytes[1..]);
      assert s.sent + [bytes[0]] + bytes[1..] == s.sent + bytes;
    }
  }
}
