/** The header a Fomu EVT sits on: the lines the Pi drives, how far the reset protocol has got, and the flash as an SPI
    slave; what happens on it, and what may. */
module FomuBoard {
  import opened Bits
  import opened SpiSlave

  type Gpio = nat

  const CRESET: Gpio := 27
  const CDONE: Gpio := 17
  const CS: Gpio := 8
  const MOSI: Gpio := 10
  const MISO: Gpio := 9
  const CLK: Gpio := 11
  const WP: Gpio := 24
  const HOLD: Gpio := 25

  const LINES: seq<Gpio> := [CDONE, CS, MOSI, MISO, CLK, WP, HOLD, CRESET]
  const SPI_OUTPUTS: seq<Gpio> := [CS, MOSI, CLK, WP, HOLD]

  predicate OnBus(g: Gpio) { g == CS || g == MOSI || g == CLK || g == WP || g == HOLD }

  const RELEASE_POWER_DOWN: nat := 0xAB
  const READ_STATUS_1: nat := 0x05
  const READ_STATUS_2: nat := 0x35
  const READ_STATUS_3: nat := 0x15
  const READ_JEDEC_ID: nat := 0x9F
  const READ_UNIQUE_ID: nat := 0x4B

  predicate ReadOnly(opcode: nat) {
    opcode in {RELEASE_POWER_DOWN, READ_STATUS_1, READ_STATUS_2, READ_STATUS_3, READ_JEDEC_ID, READ_UNIQUE_ID}
  }

  /** What happens to a line: driven, let go, read. GivenBack: every line let go at once. */
  datatype Event = Drive(gpio: Gpio, level: Level) | LetGo(gpio: Gpio) | Seen(gpio: Gpio, level: Level) | GivenBack

  /** How far the reset has got: CDONE read high, then CRESET driven low, then CDONE read low. */
  datatype Stage = Unknown | Running | Resetting | Held

  datatype Board = Board(driven: map<Gpio, Level>, stage: Stage, flash: Slave)

  const UNTOUCHED: Board := Board(map[], Unknown, IDLE)

  /** The flash's wires. Its /CS has a pull-up. */
  function WiresOf(driven: map<Gpio, Level>): Wires {
    Wires(if CS in driven then driven[CS] else 1, if CLK in driven then driven[CLK] else 0,
          if MOSI in driven then driven[MOSI] else 0)
  }

  function StageAfter(stage: Stage, e: Event): Stage {
    match e
    case Seen(g, l) =>
      if g == CDONE && l == 1 && stage.Unknown? then Running
      else if g == CDONE && l == 0 && stage.Resetting? then Held
      else stage
    case Drive(g, l) =>
      if g != CRESET then stage
      else if l == 1 then Unknown
      else if stage.Running? then Resetting
      else stage
    case LetGo(g) => if g == CRESET then Unknown else stage
    case GivenBack => Unknown
  }

  function DrivenAfter(driven: map<Gpio, Level>, e: Event): map<Gpio, Level> {
    match e
    case Seen(_, _) => driven
    case Drive(g, l) => driven[g := l]
    case LetGo(g) => driven - {g}
    case GivenBack => map[]
  }

  function After(b: Board, e: Event, answer: Answering): Board {
    var driven := DrivenAfter(b.driven, e);
    Board(driven, StageAfter(b.stage, e),
          if driven == b.driven then b.flash else Next(b.flash, WiresOf(driven), answer))
  }

  function Now(log: seq<Event>, answer: Answering): Board {
    if log == [] then UNTOUCHED else After(Now(log[..|log| - 1], answer), log[|log| - 1], answer)
  }

  predicate BusFree(b: Board) {
    CS !in b.driven && MOSI !in b.driven && CLK !in b.driven && WP !in b.driven && HOLD !in b.driven
  }

  // ---- what a command puts on the wire ----

  /** The beginning of a command that is a read. */
  ghost predicate Reading(bits: seq<Level>) {
    exists opcode: nat :: ReadOnly(opcode) && bits == Intended(opcode, |bits|)
  }

  // ---- what may happen ----

  /** An SPI line is driven only while the iCE40 is known to be held in reset, /WP low and /HOLD high; CRESET is only
      ever driven low, after CDONE read high, and let go only once no SPI line is driven; and the flash is clocked
      only through reads. */
  ghost predicate Allowed(b: Board, e: Event) {
    match e
    case Seen(_, _) => true
    case Drive(g, l) =>
      if g == CRESET then l == 0 && !b.stage.Unknown?
      else
        && OnBus(g) && b.stage.Held? && (g == WP ==> l == 0) && (g == HOLD ==> l == 1)
        && (g == CLK && l == 1 && b.flash.wires.cs == 0 ==> Reading(b.flash.bits + [b.flash.wires.mosi]))
    case LetGo(g) => g == CRESET ==> BusFree(b)
    case GivenBack => true
  }

  ghost predicate Safe(log: seq<Event>, answer: Answering) {
    log == [] ||
    (Safe(log[..|log| - 1], answer) && Allowed(Now(log[..|log| - 1], answer), log[|log| - 1]))
  }

  lemma AtEnd(log: seq<Event>, e: Event, answer: Answering)
    ensures Now(log + [e], answer) == After(Now(log, answer), e, answer)
    ensures Safe(log + [e], answer) <==> Safe(log, answer) && Allowed(Now(log, answer), e)
  {
    hide After, Allowed;
    assert (log + [e])[..|log|] == log;
  }

  /** The transactions of the flash are only added to. */
  lemma {:induction false} FinishedGrows(log: seq<Event>, later: seq<Event>, answer: Answering)
    requires log <= later
    ensures Now(log, answer).flash.finished <= Now(later, answer).flash.finished
    decreases |later|
  {
    hide StageAfter, WiresOf;
    if |log| == |later| {
      assert log == later;
    } else {
      FinishedGrows(log, later[..|later| - 1], answer);
    }
  }

  // ---- what a safe log means ----

  lemma {:induction false} SafePrefix(log: seq<Event>, n: nat, answer: Answering)
    requires Safe(log, answer) && n <= |log|
    ensures Safe(log[..n], answer) && (n < |log| ==> Allowed(Now(log[..n], answer), log[n]))
    decreases |log|
  {
    hide Allowed, Now;
    if n < |log| {
      var was := log[..|log| - 1];
      SafePrefix(was, n, answer);
      assert was[..n] == log[..n];
    } else {
      assert log[..n] == log;
    }
  }

  predicate Frees(e: Event) {
    e.GivenBack? || (e.LetGo? && e.gpio == CRESET) || (e.Drive? && e.gpio == CRESET && e.level == 1)
  }

  predicate Kept(log: seq<Event>, j: nat) { forall m | j <= m < |log| :: !Frees(log[m]) }

  lemma KeptOn(log: seq<Event>, j: nat, n: nat)
    requires n <= |log| && Kept(log[..n], j) && forall m | n <= m < |log| :: !Frees(log[m])
    ensures Kept(log, j)
  {
    forall m | j <= m < |log| ensures !Frees(log[m]) {
      if m < n {
        assert log[..n][m] == log[m];
      }
    }
  }

  predicate ResetProven(log: seq<Event>, i: nat, j: nat, k: nat) {
    && i < j < k < |log| && log[i] == Seen(CDONE, 1) && log[j] == Drive(CRESET, 0) && log[k] == Seen(CDONE, 0)
    && Kept(log, j)
  }

  predicate ResetBegun(log: seq<Event>, i: nat, j: nat) {
    i < j < |log| && log[i] == Seen(CDONE, 1) && log[j] == Drive(CRESET, 0) && Kept(log, j)
  }

  lemma {:induction false} RunningMeans(log: seq<Event>, answer: Answering) returns (i: nat)
    requires Now(log, answer).stage.Running?
    ensures i < |log| && log[i] == Seen(CDONE, 1)
    decreases |log|
  {
    hide Next, WiresOf;
    var was := log[..|log| - 1];
    if Now(was, answer).stage.Running? {
      i := RunningMeans(was, answer);
    } else {
      i := |log| - 1;
    }
  }

  lemma {:induction false} ResettingMeans(log: seq<Event>, answer: Answering) returns (i: nat, j: nat)
    requires Now(log, answer).stage.Resetting?
    ensures ResetBegun(log, i, j)
    decreases |log|
  {
    hide Next, WiresOf;
    var was := log[..|log| - 1];
    if Now(was, answer).stage.Resetting? {
      i, j := ResettingMeans(was, answer);
      KeptOn(log, j, |log| - 1);
    } else {
      i := RunningMeans(was, answer);
      j := |log| - 1;
    }
  }

  /** Held means what it says: CDONE was read high, CRESET was then driven low and has been since, and CDONE then read
      low. */
  lemma {:induction false} HeldMeans(log: seq<Event>, answer: Answering) returns (i: nat, j: nat, k: nat)
    requires Now(log, answer).stage.Held?
    ensures ResetProven(log, i, j, k)
    decreases |log|
  {
    hide Next, WiresOf;
    var was := log[..|log| - 1];
    if Now(was, answer).stage.Held? {
      i, j, k := HeldMeans(was, answer);
      KeptOn(log, j, |log| - 1);
    } else {
      i, j := ResettingMeans(was, answer);
      k := |log| - 1;
      KeptOn(log, j, |log| - 1);
    }
  }

  /** In a safe log, an SPI line is driven only after CDONE read high, CRESET was driven low for good, and CDONE read
      low. */
  lemma DrivenOnlyWhenHeld(log: seq<Event>, n: nat, answer: Answering) returns (i: nat, j: nat, k: nat)
    requires Safe(log, answer) && n < |log| && log[n].Drive? && log[n].gpio != CRESET
    ensures OnBus(log[n].gpio) && ResetProven(log[..n], i, j, k)
  {
    hide Now, After;
    SafePrefix(log, n, answer);
    i, j, k := HeldMeans(log[..n], answer);
  }

  /** Once CDONE has read high, it has. */
  lemma KnownMeans(log: seq<Event>, answer: Answering) returns (i: nat)
    requires !Now(log, answer).stage.Unknown?
    ensures i < |log| && log[i] == Seen(CDONE, 1)
  {
    hide Now;
    match Now(log, answer).stage
    case Running => i := RunningMeans(log, answer);
    case Resetting => var j; i, j := ResettingMeans(log, answer);
    case Held => var j, k; i, j, k := HeldMeans(log, answer);
  }

  /** In a safe log, nothing at all is driven before CDONE read high. */
  lemma DrivenOnlyWhenConfigured(log: seq<Event>, n: nat, answer: Answering) returns (i: nat)
    requires Safe(log, answer) && n < |log| && log[n].Drive?
    ensures i < n && log[i] == Seen(CDONE, 1)
  {
    hide Now, After;
    SafePrefix(log, n, answer);
    i := KnownMeans(log[..n], answer);
  }

  /** In a safe log, whenever CRESET is let go no SPI line is driven. */
  lemma LetGoOnlyWhenFree(log: seq<Event>, n: nat, answer: Answering)
    requires Safe(log, answer) && n < |log| && log[n] == LetGo(CRESET)
    ensures BusFree(Now(log[..n], answer))
  {
    hide Now, After;
    SafePrefix(log, n, answer);
  }

  lemma {:induction false} WiresTrack(log: seq<Event>, answer: Answering)
    ensures var b := Now(log, answer); b.flash.wires == WiresOf(b.driven)
    decreases |log|
  {
    if log != [] {
      WiresTrack(log[..|log| - 1], answer);
    }
  }

  lemma EmptyReads(bits: seq<Level>)
    requires bits == []
    ensures Reading(bits)
  {
    assert ReadOnly(READ_JEDEC_ID) && bits == Intended(READ_JEDEC_ID, 0);
  }

  /** In a safe log, everything the flash ever took, in every transaction, is the beginning of a read: a whole opcode it
      took is a read's. */
  lemma {:induction false} OnlyReads(log: seq<Event>, answer: Answering)
    requires Safe(log, answer)
    ensures var f := Now(log, answer).flash; Reading(f.bits) && forall t | t in f.finished :: Reading(t)
    decreases |log|
  {
    hide Reading;
    EmptyReads([]);
    if log != [] {
      var was := log[..|log| - 1];
      OnlyReads(was, answer);
      WiresTrack(was, answer);
      OnlyReadsNext(Now(was, answer), log[|log| - 1], answer);
    }
  }

  lemma OnlyReadsNext(b: Board, e: Event, answer: Answering)
    requires Allowed(b, e) && Reading(b.flash.bits) && (forall t | t in b.flash.finished :: Reading(t))
    requires b.flash.wires == WiresOf(b.driven) && Reading([])
    ensures var f := After(b, e, answer).flash; Reading(f.bits) && forall t | t in f.finished :: Reading(t)
  {
    hide Reading;
  }

  /** A whole opcode in what a read sends is one of the reads, or the wake-up, of the W25Q128JV's data sheet: not a
      write, an erase or a status write. */
  lemma OpcodeIsRead(bits: seq<Level>)
    requires Reading(bits) && |bits| >= 8
    ensures ReadOnly(FromBits(bits[..8])) && FromBits(bits[..8]) in {0x05, 0x15, 0x35, 0x4B, 0x9F, 0xAB}
  {
    var opcode: nat :| ReadOnly(opcode) && bits == Intended(opcode, |bits|);
    assert bits[..8] == ToBits(opcode);
    BitsOfByte(opcode);
  }
}
