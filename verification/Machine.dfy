/** The RV32I hart the firmware runs on, with its bus: the firmware in ROM, LiteX's UART CSRs and one device region (the
    SPRAM, or the SPI flash's bit-bang CSRs). Everything outside the hart is arbitrary: what the device answers, when
    the UART's transmit FIFO drains, and when bytes arrive. */
module Machine {
  import opened Bits
  import opened Encoding
  import opened Assembler

  // the generator's register aliases
  const T0: nat := 5
  const T1: nat := 6
  const T2: nat := 7
  const S0: nat := 8
  const S1: nat := 9
  const A0: nat := 10
  const A1: nat := 11
  const A2: nat := 12
  const S2: nat := 18
  const S3: nat := 19
  const S4: nat := 20
  const S5: nat := 21
  const S6: nat := 22
  const S7: nat := 23
  const S8: nat := 24
  const T3: nat := 28

  // the UART's CSRs (csr.csv)
  const RXTX: nat := 0x00
  const TXFULL: nat := 0x04
  const RXEMPTY: nat := 0x08
  const EV_PENDING: nat := 0x10
  const UART_SIZE: nat := 0x20
  const EV_RX: nat := 2

  /** Which bytes of a word a write changes. */
  datatype Lanes = Lanes(b0: bool, b1: bool, b2: bool, b3: bool)

  const ALL_LANES: Lanes := Lanes(true, true, true, true)

  function OneLane(i: nat): Lanes { Lanes(i == 0, i == 1, i == 2, i == 3) }

  /** An access to the device region, at a word address. */
  datatype Access = Read(addr: Word) | Write(addr: Word, data: Word, lanes: Lanes)

  /** Where things are, and everything the hart does not decide. */
  datatype Env = Env(
    rom: seq<nat>, origin: nat,
    uart: nat,
    device: nat, deviceSize: nat,
    reply: (seq<Access>, Word) -> Word,  // what the device answers a read, after all accesses before it
    depth: nat,                          // of the transmit FIFO
    drains: nat -> bool,                 // whether a byte leaves the transmit FIFO at a time
    arrived: nat -> nat,                 // how many bytes have entered the receive FIFO by a time
    received: nat -> nat,                // the bytes, in order
    other: nat -> Word                   // what any other read returns, by time
  )

  predicate Within(addr: int, base: nat, size: nat) { base <= addr < base + size }

  predicate Apart(a: nat, m: nat, b: nat, n: nat) { a + m <= b || b + n <= a }

  /** The address map: word-aligned regions that do not meet; and the bytes are bytes. */
  ghost predicate Sound(env: Env) {
    && env.origin % 4 == 0 && env.origin + 4 * |env.rom| <= WORD_LIMIT
    && (forall i | 0 <= i < |env.rom| :: env.rom[i] < WORD_LIMIT)
    && env.uart % 4 == 0 && env.uart + UART_SIZE <= WORD_LIMIT
    && env.device % 4 == 0 && env.deviceSize % 4 == 0 && env.device + env.deviceSize <= WORD_LIMIT
    && Apart(env.origin, 4 * |env.rom|, env.uart, UART_SIZE)
    && Apart(env.origin, 4 * |env.rom|, env.device, env.deviceSize)
    && Apart(env.uart, UART_SIZE, env.device, env.deviceSize)
    && env.depth > 0
    && (forall t: nat :: env.arrived(t) <= env.arrived(t + 1))
    && (forall n: nat :: env.received(n) < 0x100)
  }

  predicate DrainsBy(env: Env, t: nat, u: nat) { t <= u && env.drains(u) }

  ghost predicate DrainsAfter(env: Env, t: nat) { exists u: nat :: DrainsBy(env, t, u) }

  /** The transmit FIFO never stays full for ever. */
  ghost predicate Fair(env: Env) { forall t: nat :: DrainsAfter(env, t) }

  datatype State = State(
    pc: int,
    regs: map<nat, Word>,
    bus: seq<Access>,   // the accesses to the device so far
    sent: seq<nat>,     // the bytes the transmit FIFO has taken
    level: nat,         // how many of them are still in it
    popped: nat,        // how many bytes were taken out of the receive FIFO
    time: nat           // instructions executed
  )

  // ---- registers and arithmetic ----

  function Wrap(x: int): Word { x % WORD_LIMIT }

  function Get(s: State, r: nat): Word {
    if r == ZERO || r !in s.regs then 0 else s.regs[r]
  }

  function Set(s: State, r: nat, v: Word): State {
    s.(regs := s.regs[r := v])
  }

  function AluValue(op: AluOp, a: Word, b: Word): Word {
    match op
    case ADD => Wrap(a + b)
    case SUB => Wrap(a - b)
    case SLL => Wrap(Shl(a, b % 0x20))
    case SRL => Wrap(Shr(a, b % 0x20))
    case XOR => Wrap(Xor(a, b))
    case OR => Wrap(Or(a, b))
    case AND => Wrap(And(a, b))
  }

  // ---- the bus ----

  predicate RxEmpty(env: Env, s: State) { s.popped >= env.arrived(s.time) }

  predicate TxFull(env: Env, s: State) { s.level >= env.depth }

  /** The word a read returns. */
  function ReadWord(env: Env, s: State, addr: int): Word {
    if Within(addr, env.uart, UART_SIZE) then
      var offset := addr - env.uart;
      if offset == RXTX && !RxEmpty(env, s) then Wrap(env.received(s.popped))
      else if offset == TXFULL then (if TxFull(env, s) then 1 else 0)
      else if offset == RXEMPTY then (if RxEmpty(env, s) then 1 else 0)
      else env.other(s.time)
    else if Within(addr, env.device, env.deviceSize) && 0 <= addr < WORD_LIMIT then env.reply(s.bus, addr)
    else if Within(addr, env.origin, 4 * |env.rom|) then Wrap(env.rom[(addr - env.origin) / 4])
    else env.other(s.time)
  }

  function AfterRead(env: Env, s: State, addr: int): State {
    if Within(addr, env.device, env.deviceSize) && !Within(addr, env.uart, UART_SIZE) && 0 <= addr < WORD_LIMIT then
      s.(bus := s.bus + [Read(addr)])
    else s
  }

  /** A write to RXTX enters the transmit FIFO, or is lost when it is full. Writing EV_PENDING's RX bit is the only
      thing that takes a byte out of the receive FIFO. */
  function AfterWrite(env: Env, s: State, addr: int, data: Word, lanes: Lanes): State {
    if Within(addr, env.uart, UART_SIZE) then
      var offset := addr - env.uart;
      if offset == RXTX && !TxFull(env, s) then s.(sent := s.sent + [data % 0x100], level := s.level + 1)
      else if offset == EV_PENDING && data / EV_RX % 2 == 1 && !RxEmpty(env, s) then s.(popped := s.popped + 1)
      else s
    else if Within(addr, env.device, env.deviceSize) && 0 <= addr < WORD_LIMIT then
      s.(bus := s.bus + [Write(addr, data, lanes)])
    else s
  }

  /** A stored byte is put on all four lanes of the bus. */
  function OnAllLanes(v: Word): Word { v % 0x100 * 0x101_0101 }

  // ---- instructions (sections 2.4 to 2.6 of The RISC-V Instruction Set Manual, Volume I) ----

  function Exec(env: Env, s: State, i: Instr): State {
    var next := s.(pc := s.pc + 4);
    match i
    case Lui(rd, imm20) => Set(next, rd, Wrap(imm20 * 0x1000))
    case Auipc(rd, imm20) => Set(next, rd, Wrap(s.pc + imm20 * 0x1000))
    case Jal(rd, off) => Set(s.(pc := Wrap(s.pc + off)), rd, Wrap(s.pc + 4))
    case Jalr(rd, rs1, off) =>
      var there := Wrap(Get(s, rs1) + off);
      Set(s.(pc := there - there % 2), rd, Wrap(s.pc + 4))
    case Branch(equal, rs1, rs2, off) =>
      if (Get(s, rs1) == Get(s, rs2)) == equal then s.(pc := Wrap(s.pc + off)) else next
    case Load(width, rd, rs1, off) =>
      var addr := Wrap(Get(s, rs1) + off);
      var aligned := addr - addr % 4;
      var w := ReadWord(env, s, aligned);
      Set(AfterRead(env, next, aligned), rd, if width.Wide? then w else ByteOf(w, addr % 4))
    case Store(width, rs2, rs1, off) =>
      var addr := Wrap(Get(s, rs1) + off);
      var v := Get(s, rs2);
      if width.Wide? then AfterWrite(env, next, addr - addr % 4, v, ALL_LANES)
      else AfterWrite(env, next, addr - addr % 4, OnAllLanes(v), OneLane(addr % 4))
    case AluImm(op, rd, rs1, imm) => Set(next, rd, AluValue(op, Get(s, rs1), Wrap(imm)))
    case Alu(op, rd, rs1, rs2) => Set(next, rd, AluValue(op, Get(s, rs1), Get(s, rs2)))
    case Illegal => s
  }

  function Fetch(env: Env, pc: int): Instr {
    if Within(pc, env.origin, 4 * |env.rom|) && (pc - env.origin) % 4 == 0 then
      Decode(env.rom[(pc - env.origin) / 4])
    else Illegal
  }

  /** Time passes, and a byte may leave the transmit FIFO. */
  function Tick(env: Env, s: State): State {
    s.(time := s.time + 1, level := if env.drains(s.time) && s.level > 0 then s.level - 1 else s.level)
  }

  function Step(env: Env, s: State): State {
    Tick(env, Exec(env, s, Fetch(env, s.pc)))
  }

  function Run(env: Env, s: State, n: nat): State
    decreases n
  {
    if n == 0 then s else Step(env, Run(env, s, n - 1))
  }

  /** The hart gets from s to t. */
  ghost predicate Reaches(env: Env, s: State, t: State) {
    exists n: nat :: Run(env, s, n) == t
  }

  lemma ReachesItself(env: Env, s: State)
    ensures Reaches(env, s, s)
  {
    assert Run(env, s, 0) == s;
  }

  lemma ReachesNext(env: Env, s: State, t: State)
    requires Reaches(env, s, t)
    ensures Reaches(env, s, Step(env, t))
  {
    hide Step;
    var n: nat :| Run(env, s, n) == t;
    assert Run(env, s, n + 1) == Step(env, t);
  }

  lemma {:induction false} RunRun(env: Env, s: State, m: nat, n: nat)
    ensures Run(env, Run(env, s, m), n) == Run(env, s, m + n)
    decreases n
  {
    hide Step;
    if n != 0 {
      RunRun(env, s, m, n - 1);
    }
  }

  lemma ReachesOnward(env: Env, s: State, t: State, u: State)
    requires Reaches(env, s, t) && Reaches(env, t, u)
    ensures Reaches(env, s, u)
  {
    hide Run;
    var m: nat :| Run(env, s, m) == t;
    var n: nat :| Run(env, t, n) == u;
    RunRun(env, s, m, n);
  }

  // ---- what no step undoes ----

  lemma ArrivedGrows(env: Env, t: nat, u: nat)
    requires Sound(env) && t <= u
    ensures env.arrived(t) <= env.arrived(u)
    decreases u - t
  {
    if t < u {
      ArrivedGrows(env, t + 1, u);
      assert env.arrived(t) <= env.arrived(t + 1);
    }
  }

  predicate Extends(s: State, t: State) {
    s.sent <= t.sent && s.bus <= t.bus && s.popped <= t.popped && s.time <= t.time
  }

  /** A step takes one instruction's time, sends or takes a byte at most, and undoes nothing. */
  lemma StepExtends(env: Env, s: State)
    ensures Extends(s, Step(env, s)) && Step(env, s).popped <= s.popped + 1 && Step(env, s).time == s.time + 1
  {
    hide Fetch, ReadWord, AluValue, Get;
  }

  lemma {:induction false} RunExtends(env: Env, s: State, m: nat, n: nat)
    requires m <= n
    ensures Extends(Run(env, s, m), Run(env, s, n)) && Run(env, s, n).popped <= Run(env, s, m).popped + (n - m)
    ensures Run(env, s, n).time == s.time + n
    decreases n
  {
    hide Step;
    if m < n {
      RunExtends(env, s, m, n - 1);
      StepExtends(env, Run(env, s, n - 1));
    } else if n > 0 {
      RunExtends(env, s, m - 1, n - 1);
      StepExtends(env, Run(env, s, n - 1));
    }
  }

  // ---- harts whose transmit FIFO stays full ----

  /** The same hart, but the transmit FIFO drains all the time from t on. */
  function Draining(env: Env, t: nat): Env { env.(drains := (u: nat) => u >= t || env.drains(u)) }

  lemma DrainingIsFair(env: Env, t: nat)
    ensures Fair(Draining(env, t)) && (Sound(env) ==> Sound(Draining(env, t)))
  {
    var env' := Draining(env, t);
    forall u: nat ensures DrainsAfter(env', u) {
      assert DrainsBy(env', u, t + u);
    }
  }

  lemma ReadSame(env: Env, t: nat, s: State, addr: int)
    ensures ReadWord(Draining(env, t), s, addr) == ReadWord(env, s, addr)
    ensures AfterRead(Draining(env, t), s, addr) == AfterRead(env, s, addr)
  {}

  lemma WriteSame(env: Env, t: nat, s: State, addr: int, data: Word, lanes: Lanes)
    ensures AfterWrite(Draining(env, t), s, addr, data, lanes) == AfterWrite(env, s, addr, data, lanes)
  {}

  lemma ExecSame(env: Env, t: nat, s: State, i: Instr)
    ensures Exec(Draining(env, t), s, i) == Exec(env, s, i)
  {
    hide Draining, ReadWord, AfterRead, AfterWrite, AluValue, Get, Set, Wrap, OnAllLanes, ByteOf, OneLane;
    var next := s.(pc := s.pc + 4);
    match i
    case Load(_, _, rs1, off) =>
      var addr := Wrap(Get(s, rs1) + off);
      ReadSame(env, t, s, addr - addr % 4);
      ReadSame(env, t, next, addr - addr % 4);
    case Store(width, rs2, rs1, off) =>
      var addr := Wrap(Get(s, rs1) + off);
      WriteSame(env, t, next, addr - addr % 4, Get(s, rs2), ALL_LANES);
      WriteSame(env, t, next, addr - addr % 4, OnAllLanes(Get(s, rs2)), OneLane(addr % 4));
    case _ =>
  }

  lemma StepWhileSame(env: Env, t: nat, s: State)
    requires s.time < t
    ensures Step(Draining(env, t), s) == Step(env, s)
  {
    hide Decode, Exec;
    assert Fetch(Draining(env, t), s.pc) == Fetch(env, s.pc);
    ExecSame(env, t, s, Fetch(env, s.pc));
    ExecTakesNoTime(env, s, Fetch(env, s.pc));
  }

  lemma ExecTakesNoTime(env: Env, s: State, i: Instr)
    ensures Exec(env, s, i).time == s.time
  {
    hide ReadWord, AluValue, Get, Wrap, OnAllLanes;
  }

  /** Until then nothing tells the two apart. */
  lemma {:induction false} RunWhileSame(env: Env, t: nat, s: State, n: nat)
    requires s.time + n <= t
    ensures Run(Draining(env, t), s, n) == Run(env, s, n)
    decreases n
  {
    hide Step, Draining;
    if n > 0 {
      RunWhileSame(env, t, s, n - 1);
      RunExtends(env, s, 0, n - 1);
      StepWhileSame(env, t, Run(env, s, n - 1));
    }
  }
}
