/** Reading a Fomu EVT's flash through the header: take the bus only with the iCE40 held in reset, give it back before
    letting CRESET go, whatever fails on the way. */
module FomuHeader {
  import opened Bits
  import opened SpiSlave
  import opened FomuBoard
  import opened FomuLines

  // ---- what holds between the script's operations ----

  /** Whatever is driven counts as driven, and an SPI line counts only with the iCE40 held in reset. */
  ghost predicate Covered(outputs: map<Gpio, Level>, log: seq<Event>, answer: Answering) {
    && Safe(log, answer) && Proper(outputs)
    && (forall g | g in Now(log, answer).driven :: g in outputs)
    && (HasBus(outputs) ==> Now(log, answer).stage.Held?)
  }

  /** Nothing failed yet: what counts as driven is. */
  predicate Mirrors(outputs: map<Gpio, Level>, log: seq<Event>, answer: Answering) {
    Now(log, answer).driven == outputs
  }

  lemma SetKeeps(log: seq<Event>, g: Gpio, level: Level, outputs: map<Gpio, Level>, n: nat, answer: Answering)
    requires Covered(outputs, log, answer) && g in outputs && (g == CS || g == CLK || g == MOSI) && n <= 1
    requires g == CLK && level == 1 ==>
               Reading(Now(log, answer).flash.bits + [Now(log, answer).flash.wires.mosi])
    ensures var to := outputs[g := level];
            var then_ := Bring(log, [g], n, to, answer);
            && Covered(to, then_, answer)
            && (n == 1 && Mirrors(outputs, log, answer) ==>
                  && Mirrors(to, then_, answer)
                  && Now(then_, answer).flash ==
                       if to == outputs then Now(log, answer).flash
                       else Next(Now(log, answer).flash, WiresOf(to), answer))
  {
    hide Now, Safe, Reading, Next, WiresOf;
    var to := outputs[g := level];
    var more := Needed(Now(log, answer).driven, g, to);
    assert HasBus(outputs) && OnBus(g);
    if n == 1 {
      assert Bring(log, [g], 0, to, answer) == log;
      if more == [] {
        assert log + more == log;
        assert Mirrors(outputs, log, answer) ==> to == outputs;
      } else {
        AtEnd(log, Drive(g, level), answer);
      }
    }
  }

  lemma ProperLines(outputs: map<Gpio, Level>, g: Gpio)
    requires Proper(outputs) && g in outputs
    ensures g in LINES
  {}

  /** Bringing lines towards `config`, from a state where nothing but `outputs` is driven. */
  lemma BringKeeps(log: seq<Event>, ls: seq<Gpio>, n: nat, outputs: map<Gpio, Level>, config: map<Gpio, Level>,
                   answer: Answering)
    requires Covered(outputs, log, answer) && n <= |ls| && Careful(Now(log, answer), ls, config)
    ensures var then_ := Bring(log, ls, n, config, answer);
            && Safe(then_, answer)
            && (forall g | g in Now(then_, answer).driven :: g in outputs || g in config)
            && (CRESET in config && Now(log, answer).stage.Held? ==> Now(then_, answer).stage.Held?)
            && (CRESET in config && !Now(log, answer).stage.Unknown? ==> !Now(then_, answer).stage.Unknown?)
  {
    hide Now, Careful, Safe, Proper, HasBus;
    BringSafe(log, ls, n, config, answer);
    Brought(log, ls, n, config, answer);
    var then_ := Bring(log, ls, n, config, answer);
    forall g | g in Now(then_, answer).driven ensures g in outputs || g in config {
      assert Same(Now(then_, answer).driven, if g in ls[..n] then config else Now(log, answer).driven, g);
    }
  }

  predicate ScopeOf(ls: seq<Gpio>, g: Gpio) { ls == LINES || ls == [g] }

  lemma OutputKeeps(log: seq<Event>, ls: seq<Gpio>, n: nat, g: Gpio, level: Level, outputs: map<Gpio, Level>,
                    answer: Answering)
    requires Covered(outputs, log, answer) && ScopeOf(ls, g) && n <= |ls|
    requires var to := outputs[g := level];
             Proper(to) && (HasBus(to) ==> Now(log, answer).stage.Held?) && !Clocks(to) && CRESET in to
    requires !Now(log, answer).stage.Unknown?
    ensures var to := outputs[g := level];
            var then_ := Bring(log, ls, n, to, answer);
            && Covered(to, then_, answer) && !Now(then_, answer).stage.Unknown?
            && (n == |ls| && Mirrors(outputs, log, answer) ==> Mirrors(to, then_, answer))
  {
    hide Now, Safe, HasBus, Bring;
    var to := outputs[g := level];
    BringKeeps(log, ls, n, outputs, to, answer);
    Brought(log, ls, n, to, answer);
    if n == |ls| && Mirrors(outputs, log, answer) {
      assert ls[..n] == ls;
      var driven := Now(Bring(log, ls, n, to, answer), answer).driven;
      forall h ensures Same(driven, to, h) {
        if h in ls {
        } else {
          assert Same(driven, outputs, h);
          assert h in to ==> h in LINES by {
            if h in to { ProperLines(to, h); }
          }
        }
      }
      AllSame(driven, to);
    }
  }

  lemma AllSame(a: map<Gpio, Level>, b: map<Gpio, Level>)
    requires forall h :: Same(a, b, h)
    ensures a == b
  {
    forall h ensures (h in a <==> h in b) && (h in a && h in b ==> a[h] == b[h]) {
      assert Same(a, b, h);
    }
  }

  lemma InputKeeps(log: seq<Event>, ls: seq<Gpio>, n: nat, g: Gpio, outputs: map<Gpio, Level>, answer: Answering)
    requires Covered(outputs, log, answer) && ScopeOf(ls, g) && n <= |ls| && !Selects(outputs)
    requires g == CRESET ==> !HasBus(outputs)
    requires g == CRESET || (OnBus(g) && CRESET in outputs && !Now(log, answer).stage.Unknown?)
    ensures var then_ := Bring(log, ls, n, outputs - {g}, answer);
            && Covered(outputs, then_, answer) && (g != CRESET ==> !Now(then_, answer).stage.Unknown?)
            && (n == |ls| ==> Covered(outputs - {g}, then_, answer)) && log <= then_
  {
    hide Now, Safe, Bring;
    var to := outputs - {g};
    BringExtends(log, ls, n, to, answer);
    assert forall h | h in to && OnBus(h) :: h in outputs && OnBus(h);
    assert HasBus(to) ==> HasBus(outputs);
    if CRESET !in to {
      assert !HasBus(outputs);
      NoBusFree(outputs, Now(log, answer));
    }
    BringKeeps(log, ls, n, outputs, to, answer);
    Brought(log, ls, n, to, answer);
    var driven := Now(Bring(log, ls, n, to, answer), answer).driven;
    if HasBus(outputs) {
      var h :| h in outputs && OnBus(h);
      assert CRESET in to;
    }
    if n == |ls| {
      assert ls[..n] == ls && g in ls;
      assert Same(driven, to, g);
    }
  }

  lemma NoBusFree(outputs: map<Gpio, Level>, b: Board)
    requires !HasBus(outputs) && forall g | g in b.driven :: g in outputs
    ensures BusFree(b)
  {
    if CS in b.driven { assert OnBus(CS) && CS in outputs; }
    if MOSI in b.driven { assert OnBus(MOSI) && MOSI in outputs; }
    if CLK in b.driven { assert OnBus(CLK) && CLK in outputs; }
    if WP in b.driven { assert OnBus(WP) && WP in outputs; }
    if HOLD in b.driven { assert OnBus(HOLD) && HOLD in outputs; }
  }

  // ---- a command ----

  /** The bus is the script's, the flash not selected. */
  predicate Ready(outputs: map<Gpio, Level>) {
    && outputs.Keys == {CRESET, CS, WP, HOLD, CLK, MOSI}
    && outputs[CS] == 1 && outputs[CLK] == 0
  }

  /** A command's first k bits are sent, nothing has failed, and the flash waits for the next. */
  ghost predicate Sent(pins: Lines, opcode: nat, k: nat, before: seq<seq<Level>>)
    reads pins`log, pins`outputs
  {
    && Covered(pins.outputs, pins.log, pins.answer) && Mirrors(pins.outputs, pins.log, pins.answer)
    && pins.outputs.Keys == {CRESET, CS, WP, HOLD, CLK, MOSI} && pins.outputs[CS] == 0 && pins.outputs[CLK] == 0
    && var f := Now(pins.log, pins.answer).flash;
       && f.finished == before && f.bits == Intended(opcode, k) && Waiting(f, pins.answer)
       && f.wires == WiresOf(pins.outputs)
  }

  /** Whatever happened, the lines that may be driven are known. */
  ghost predicate Known(pins: Lines)
    reads pins`log, pins`outputs
  {
    Covered(pins.outputs, pins.log, pins.answer) && pins.outputs.Keys == {CRESET, CS, WP, HOLD, CLK, MOSI}
  }

  method SetLine(pins: Lines, g: Gpio, level: Level) returns (o: Outcome)
    requires Known(pins) && (g == CS || g == CLK || g == MOSI)
    requires g == CLK && level == 1 ==>
               Reading(Now(pins.log, pins.answer).flash.bits + [Now(pins.log, pins.answer).flash.wires.mosi])
    modifies pins
    ensures pins.troubles >= old(pins.troubles) && old(pins.log) <= pins.log
    ensures pins.troubles == old(pins.troubles) ==> o.Done?
    ensures Known(pins) && pins.outputs == old(pins.outputs)[g := level] && !o.NotSent?
    ensures o.Done? && old(Mirrors(pins.outputs, pins.log, pins.answer)) ==>
              && Mirrors(pins.outputs, pins.log, pins.answer)
              && Now(pins.log, pins.answer).flash
              == if pins.outputs == old(pins.outputs) then old(Now(pins.log, pins.answer).flash)
                 else Next(old(Now(pins.log, pins.answer).flash), WiresOf(pins.outputs), pins.answer)
  {
    hide Covered, Now, Reading, Next, Mirrors, WiresOf, Bring;
    ghost var log, outputs := pins.log, pins.outputs;
    ghost var n;
    o, n := pins.Set(g, level);
    SetKeeps(log, g, level, outputs, n, pins.answer);
  }

  lemma IntendedNext(opcode: nat, k: nat, m: Level)
    requires m == if k < 8 then Bit(opcode, 7 - k) else 0
    ensures Intended(opcode, k) + [m] == Intended(opcode, k + 1)
  {}

  lemma IntendedReads(opcode: nat, k: nat)
    requires ReadOnly(opcode)
    ensures Reading(Intended(opcode, k))
  {}

  /** MOSI, CLK up, CLK down: one more bit sent. */
  method SendBit(pins: Lines, opcode: nat, k: nat, m: Level, ghost before: seq<seq<Level>>) returns (o: Outcome)
    requires ReadOnly(opcode) && Sent(pins, opcode, k, before) && m == if k < 8 then Bit(opcode, 7 - k) else 0
    modifies pins
    ensures pins.troubles >= old(pins.troubles) && old(pins.log) <= pins.log
    ensures pins.troubles == old(pins.troubles) ==> o.Done?
    ensures Known(pins) && !o.NotSent? && (o.Done? ==> Sent(pins, opcode, k + 1, before))
  {
    hide Covered, Now, Reading, Intended, Mirrors, ReadOnly;
    o := SetLine(pins, MOSI, m);
    if !o.Done? { return; }
    IntendedNext(opcode, k, m);
    IntendedReads(opcode, k + 1);
    o := SetLine(pins, CLK, 1);
    if !o.Done? { return; }
    o := SetLine(pins, CLK, 0);
  }

  /** CLK up, MISO read, CLK down: one more bit of the answer. */
  method ReadBit(pins: Lines, opcode: nat, k: nat, ghost before: seq<seq<Level>>) returns (o: Outcome, level: Level)
    requires ReadOnly(opcode) && Sent(pins, opcode, k, before) && k >= 8 && pins.outputs[MOSI] == 0
    modifies pins
    ensures pins.troubles >= old(pins.troubles) && old(pins.log) <= pins.log
    ensures pins.troubles == old(pins.troubles) ==> o.Done?
    ensures Known(pins) && !o.NotSent?
    ensures o.Done? ==> Sent(pins, opcode, k + 1, before) && pins.outputs[MOSI] == 0
    ensures o.Done? ==> level == pins.answer(|before|, Intended(opcode, k))
  {
    hide Covered, Reading, Intended, Mirrors, ReadOnly, Now;
    level := 0;
    IntendedNext(opcode, k, 0);
    IntendedReads(opcode, k + 1);
    o := SetLine(pins, CLK, 1);
    if !o.Done? { return; }
    ghost var log := pins.log;
    o, level := pins.Get(MISO);
    if !o.Done? { return; }
    SeenKeeps(log, MISO, level, pins.outputs, pins.answer);
    o := SetLine(pins, CLK, 0);
  }

  lemma SeenKeeps(log: seq<Event>, g: Gpio, level: Level, outputs: map<Gpio, Level>, answer: Answering)
    ensures var b, t := Now(log, answer), Now(log + [Seen(g, level)], answer);
            t.driven == b.driven && t.flash == b.flash && t.stage == StageAfter(b.stage, Seen(g, level))
    ensures Covered(outputs, log, answer) ==> Covered(outputs, log + [Seen(g, level)], answer)
    ensures Mirrors(outputs, log, answer) ==> Mirrors(outputs, log + [Seen(g, level)], answer)
  {
    hide Now, Safe, Proper, HasBus, Next;
    AtEnd(log, Seen(g, level), answer);
  }

  /** The opcode and the dummies, most significant bit first. */
  method SendBytes(pins: Lines, opcode: nat, dummies: nat, ghost before: seq<seq<Level>>) returns (o: Outcome)
    requires ReadOnly(opcode) && Sent(pins, opcode, 0, before)
    modifies pins
    ensures pins.troubles >= old(pins.troubles) && old(pins.log) <= pins.log
    ensures pins.troubles == old(pins.troubles) ==> o.Done?
    ensures Known(pins) && !o.NotSent? && (o.Done? ==> Sent(pins, opcode, 8 * (1 + dummies), before))
  {
    hide Covered, Now, Reading, Intended, Mirrors, ReadOnly, Bit, Sent;
    o := Done;
    KnownSent(pins, opcode, 0, before);
    for i := 0 to 1 + dummies
      invariant o.Done? && Known(pins) && Sent(pins, opcode, 8 * i, before)
      invariant pins.troubles >= old(pins.troubles) && old(pins.log) <= pins.log
    {
      var byte := if i == 0 then opcode else 0;
      for bit := 8 downto 0
        invariant o.Done? && Known(pins) && Sent(pins, opcode, 8 * i + (8 - bit), before)
        invariant pins.troubles >= old(pins.troubles) && old(pins.log) <= pins.log
      {
        ZeroBits(bit);
        o := SendBit(pins, opcode, 8 * i + (7 - bit), Bit(byte, bit), before);
        if !o.Done? { return; }
      }
    }
  }

  lemma KnownSent(pins: Lines, opcode: nat, k: nat, before: seq<seq<Level>>)
    requires Sent(pins, opcode, k, before)
    ensures Known(pins)
  {}

  method ReadBytes(pins: Lines, opcode: nat, dummies: nat, read: nat, ghost before: seq<seq<Level>>)
    returns (o: Outcome, out: seq<nat>)
    requires ReadOnly(opcode) && Sent(pins, opcode, 8 * (1 + dummies), before) && pins.outputs[MOSI] == 0
    modifies pins
    ensures pins.troubles >= old(pins.troubles) && old(pins.log) <= pins.log
    ensures pins.troubles == old(pins.troubles) ==> o.Done?
    ensures Known(pins) && !o.NotSent?
    ensures o.Done? ==> Sent(pins, opcode, 8 * (1 + dummies + read), before)
    ensures o.Done? ==> out == Answers(pins.answer, |before|, opcode, dummies, read)
  {
    hide Covered, Now, Reading, Intended, Mirrors, ReadOnly, FromBits, Sent, AnswerByte;
    o, out := Done, [];
    KnownSent(pins, opcode, 8 * (1 + dummies), before);
    for j := 0 to read
      invariant o.Done? && Known(pins) && Sent(pins, opcode, 8 * (1 + dummies + j), before) && pins.outputs[MOSI] == 0
      invariant out == Answers(pins.answer, |before|, opcode, dummies, j)
      invariant pins.troubles >= old(pins.troubles) && old(pins.log) <= pins.log
    {
      var byte: nat := 0;
      ghost var bits: seq<Level> := [];
      NoBits();
      for i := 0 to 8
        invariant o.Done? && Known(pins) && Sent(pins, opcode, 8 * (1 + dummies + j) + i, before)
        invariant pins.outputs[MOSI] == 0
        invariant |bits| == i && byte == FromBits(bits)
        invariant pins.troubles >= old(pins.troubles) && old(pins.log) <= pins.log
        invariant forall m | 0 <= m < i :: bits[m] == pins.answer(|before|, Intended(opcode, 8 * (1 + dummies + j) + m))
      {
        var level;
        o, level := ReadBit(pins, opcode, 8 * (1 + dummies + j) + i, before);
        if !o.Done? { return; }
        MoreBits(bits, level);
        byte := 2 * byte + level;
        bits := bits + [level];
      }
      IsAnswerByte(bits, pins.answer, |before|, opcode, 1 + dummies + j);
      out := out + [byte];
    }
  }

  lemma IsAnswerByte(bits: seq<Level>, answer: Answering, nth: nat, opcode: nat, j: nat)
    requires |bits| == 8 && forall m | 0 <= m < 8 :: bits[m] == answer(nth, Intended(opcode, 8 * j + m))
    ensures FromBits(bits) == AnswerByte(answer, nth, opcode, j)
  {
    hide FromBits, Intended;
    assert bits == seq<Level>(8, i requires 0 <= i < 8 => answer(nth, Intended(opcode, 8 * j + i)));
  }

  /** Everything is as before a command, and the flash has taken n of them. */
  ghost predicate Idle(pins: Lines)
    reads pins`log, pins`outputs
  {
    Known(pins) && Ready(pins.outputs) && Mirrors(pins.outputs, pins.log, pins.answer)
  }

  /** The flash is not selected, or would not be if the last operation had worked. */
  ghost predicate Parked(pins: Lines)
    reads pins`log, pins`outputs
  {
    Known(pins) && pins.outputs[CS] == 1
  }

  function Finished(pins: Lines): seq<seq<Level>>
    reads pins`log, pins`outputs
  {
    Now(pins.log, pins.answer).flash.finished
  }

  lemma Selected(pins: Lines, was: Slave, opcode: nat)
    requires Known(pins) && Mirrors(pins.outputs, pins.log, pins.answer) && Ready(pins.outputs[CS := 1])
    requires pins.outputs[CS] == 0
    requires was.wires.cs == 1 && Now(pins.log, pins.answer).flash == Next(was, WiresOf(pins.outputs), pins.answer)
    ensures Sent(pins, opcode, 0, was.finished)
  {
    hide Covered, Now;
  }

  lemma IdleWires(pins: Lines)
    requires Idle(pins)
    ensures Now(pins.log, pins.answer).flash.wires.cs == 1
  {
    hide Now, Covered;
    WiresTrack(pins.log, pins.answer);
  }

  lemma Deselected(pins: Lines, opcode: nat, k: nat, before: seq<seq<Level>>)
    requires Sent(pins, opcode, k, before)
    ensures Next(Now(pins.log, pins.answer).flash, WiresOf(pins.outputs[CS := 1]), pins.answer).finished
         == before + [Intended(opcode, k)]
  {
    hide Now, Covered;
  }

  /** The flash selected, the opcode and the dummies sent, the answer read. */
  method Exchange(pins: Lines, opcode: nat, dummies: nat, read: nat) returns (o: Outcome, out: seq<nat>)
    requires Idle(pins) && ReadOnly(opcode)
    modifies pins
    ensures pins.troubles >= old(pins.troubles) && old(pins.log) <= pins.log
    ensures pins.troubles == old(pins.troubles) ==> o.Done?
    ensures Known(pins) && !o.NotSent?
    ensures o.Done? ==> Sent(pins, opcode, 8 * (1 + dummies + read), old(Finished(pins)))
    ensures o.Done? ==> out == Answers(pins.answer, |old(Finished(pins))|, opcode, dummies, read)
  {
    hide Covered, Now, Next, Reading, Intended, Mirrors, ReadOnly, Sent, Answers, WiresOf;
    out := [];
    ghost var before := Finished(pins);
    ghost var was := Now(pins.log, pins.answer).flash;
    IdleWires(pins);
    o := SetLine(pins, CS, 0);
    if !o.Done? { return; }
    Selected(pins, was, opcode);
    o := SendBytes(pins, opcode, dummies, before);
    if !o.Done? { return; }
    ghost var flash := Now(pins.log, pins.answer).flash;
    ghost var outputs := pins.outputs;
    SentIs(pins, opcode, 8 * (1 + dummies), before);
    o := SetLine(pins, MOSI, 0);
    if !o.Done? { return; }
    StillSent(pins, outputs, flash, opcode, 8 * (1 + dummies), before);
    o, out := ReadBytes(pins, opcode, dummies, read, before);
  }

  /** One command. If it is a read and nothing fails, the flash took exactly its opcode, the dummies' zeros and a zero
      for every bit of the answer, and the answer is what the flash gave; if not, nothing was sent. */
  method Command(pins: Lines, opcode: nat, dummies: nat, read: nat) returns (o: Outcome, out: seq<nat>)
    requires Idle(pins)
    modifies pins
    ensures pins.troubles >= old(pins.troubles) && old(pins.log) <= pins.log
    ensures pins.troubles == old(pins.troubles) ==> o.Done? || o.NotSent?
    ensures o.NotSent? <==> !ReadOnly(opcode)
    ensures o.NotSent? ==> pins.log == old(pins.log) && pins.outputs == old(pins.outputs)
    ensures Parked(pins)
    ensures o.Done? ==>
              Idle(pins) && Finished(pins) == old(Finished(pins)) + [Intended(opcode, 8 * (1 + dummies + read))]
    ensures o.Done? ==> out == Answers(pins.answer, |old(Finished(pins))|, opcode, dummies, read)
  {
    hide Covered, Now, Next, Reading, Intended, Mirrors, ReadOnly, Sent, Answers, WiresOf;
    out := [];
    if !ReadOnly(opcode) { return NotSent, out; }
    ghost var before := Finished(pins);
    o, out := Exchange(pins, opcode, dummies, read);
    if o.Done? {
      SentIs(pins, opcode, 8 * (1 + dummies + read), before);
      Deselected(pins, opcode, 8 * (1 + dummies + read), before);
    }
    var end := SetLine(pins, CS, 1);
    o := if end.Done? then o else end;
  }

  lemma SentIs(pins: Lines, opcode: nat, k: nat, before: seq<seq<Level>>)
    requires Sent(pins, opcode, k, before)
    ensures Known(pins) && Mirrors(pins.outputs, pins.log, pins.answer) && pins.outputs[CS] == 0
    ensures pins.outputs[CLK] == 0
    ensures var f := Now(pins.log, pins.answer).flash;
            && f.finished == before && f.bits == Intended(opcode, k) && Waiting(f, pins.answer)
            && f.wires == WiresOf(pins.outputs)
  {}

  lemma StillSent(pins: Lines, outputs: map<Gpio, Level>, was: Slave, opcode: nat, k: nat, before: seq<seq<Level>>)
    requires Known(pins) && Mirrors(pins.outputs, pins.log, pins.answer) && MOSI in outputs
    requires pins.outputs == outputs[MOSI := 0]
    requires CS in outputs && CLK in outputs && outputs[CS] == 0 && outputs[CLK] == 0
    requires was.finished == before && was.bits == Intended(opcode, k) && Waiting(was, pins.answer)
    requires was.wires == WiresOf(outputs)
    requires var f := Now(pins.log, pins.answer).flash;
             f == if pins.outputs == outputs then was else Next(was, WiresOf(pins.outputs), pins.answer)
    ensures Sent(pins, opcode, k, before)
  {
    hide Now, Covered, Intended;
  }

  // ---- giving the lines back ----

  /** CRESET counts as driven, and CDONE has read high. */
  predicate InReset(pins: Lines)
    reads pins`log, pins`outputs
  {
    CRESET in pins.outputs && !Now(pins.log, pins.answer).stage.Unknown?
  }

  /** Each of these lines an input again, every one tried whatever the others do: those that failed. */
  method Release(pins: Lines, gpios: seq<Gpio>) returns (o: Outcome, stuck: seq<Gpio>)
    requires Covered(pins.outputs, pins.log, pins.answer) && !Selects(pins.outputs)
    requires forall g | g in gpios :: OnBus(g)
    requires gpios != [] ==> InReset(pins)
    modifies pins
    ensures pins.troubles >= old(pins.troubles) && old(pins.log) <= pins.log
    ensures pins.troubles == old(pins.troubles) ==> o.Done? && stuck == []
    ensures o.Done? ==> pins.troubles == old(pins.troubles) + |stuck| && forall g | g in stuck :: g in gpios
    ensures o.Done? && gpios != [] ==> InReset(pins)
    ensures Safe(pins.log, pins.answer) && (o.Done? || o.Interrupted?)
    ensures o.Done? ==> Covered(pins.outputs, pins.log, pins.answer) && !Selects(pins.outputs)
    ensures o.Done? ==>
              forall g | g in pins.outputs :: g in old(pins.outputs) && pins.outputs[g] == old(pins.outputs)[g]
    ensures o.Done? ==> forall g | g in old(pins.outputs) && g !in gpios :: g in pins.outputs
    ensures o.Done? ==> forall g | g in gpios && g in pins.outputs :: g in stuck
    ensures gpios == [] ==> o.Done? && stuck == [] && pins.log == old(pins.log) && pins.outputs == old(pins.outputs)
  {
    hide Now, Safe, Proper, Bring, HasBus, Covered;
    o, stuck := Done, [];
    CoveredSafe(pins.outputs, pins.log, pins.answer);
    for k := 0 to |gpios|
      invariant o.Done? && Covered(pins.outputs, pins.log, pins.answer) && !Selects(pins.outputs)
      invariant old(pins.log) <= pins.log && (gpios != [] ==> InReset(pins))
      invariant pins.troubles == old(pins.troubles) + |stuck| && forall g | g in stuck :: g in gpios
      invariant pins.troubles >= old(pins.troubles) && old(pins.log) <= pins.log
      invariant forall g | g in pins.outputs :: g in old(pins.outputs) && pins.outputs[g] == old(pins.outputs)[g]
      invariant forall g | g in old(pins.outputs) && g !in gpios[..k] :: g in pins.outputs
      invariant forall g | g in gpios[..k] && g in pins.outputs :: g in stuck
      invariant k == 0 ==> stuck == [] && pins.log == old(pins.log) && pins.outputs == old(pins.outputs)
    {
      ghost var log, outputs, n := pins.log, pins.outputs, 0;
      var g := gpios[k];
      assert g in gpios && gpios[..k + 1] == gpios[..k] + [g];
      o, n := pins.Input(g);
      InputKeeps(log, pins.Scope(g), n, g, outputs, pins.answer);
      CoveredSafe(outputs, pins.log, pins.answer);
      if o.OsError? {
        stuck, o := stuck + [g], Done;
      } else if o.Interrupted? {
        return;
      }
    }
    CoveredSafe(pins.outputs, pins.log, pins.answer);
  }

  lemma CoveredSafe(outputs: map<Gpio, Level>, log: seq<Event>, answer: Answering)
    requires Covered(outputs, log, answer)
    ensures Safe(log, answer)
  {}

  /** `outputs`, but for CRESET. */
  method DrivenButReset(outputs: map<Gpio, Level>) returns (gpios: seq<Gpio>)
    ensures forall g :: g in gpios <==> g in outputs && g != CRESET
  {
    gpios := [];
    var left := outputs.Keys - {CRESET};
    while left != {}
      invariant forall g :: g in gpios || g in left <==> g in outputs && g != CRESET
      decreases left
    {
      var g :| g in left;
      gpios, left := gpios + [g], left - {g};
    }
  }

  lemma LetsGo(log: seq<Event>, k: nat, answer: Answering)
    requires k < |LINES| && Safe(log, answer) && forall g | g in Now(log, answer).driven :: g in LINES[k..]
    ensures var then_ := log + [LetGo(LINES[k])];
            Safe(then_, answer) && forall g | g in Now(then_, answer).driven :: g in LINES[k + 1..]
  {
    hide Now, Safe, Next;
    AtEnd(log, LetGo(LINES[k]), answer);
    assert LINES[k..] == [LINES[k]] + LINES[k + 1..];
    if k == 7 {
      assert LINES[k..] == [CRESET];
    }
  }

  /** Since then no line was driven. */
  predicate NoneDriven(log: seq<Event>, from: nat) { forall k | from <= k < |log| :: !log[k].Drive? }

  /** What giving the lines back is: all at once on libgpiod v2, one by one on v1. */
  function AllGivenBack(v2: bool): seq<Event> {
    if v2 then [GivenBack] else seq(|LINES|, k requires 0 <= k < |LINES| => LetGo(LINES[k]))
  }

  /** The kernel gives the lines back, and it may fail. */
  method GiveBack(pins: Lines) returns (o: Outcome)
    requires Safe(pins.log, pins.answer) && forall g | g in Now(pins.log, pins.answer).driven :: g in LINES
    modifies pins`log, pins`troubles
    ensures pins.troubles >= old(pins.troubles) && old(pins.log) <= pins.log
    ensures pins.troubles == old(pins.troubles) ==> o.Done?
    ensures Safe(pins.log, pins.answer) && !o.NotSent?
    ensures NoneDriven(pins.log, |old(pins.log)|)
    ensures o.Done? ==> pins.log == old(pins.log) + AllGivenBack(pins.v2)
    ensures o.Done? ==> Now(pins.log, pins.answer).driven == map[]
  {
    hide Now, Safe, Next;
    if pins.v2 {
      if * {
        o := pins.Trouble();
        return;
      }
      AtEnd(pins.log, GivenBack, pins.answer);
      pins.log := pins.log + [GivenBack];
      return Done;
    }
    for k := 0 to |LINES|
      invariant Safe(pins.log, pins.answer) && old(pins.log) <= pins.log && pins.troubles == old(pins.troubles)
      invariant NoneDriven(pins.log, |old(pins.log)|) && pins.log == old(pins.log) + AllGivenBack(false)[..k]
      invariant forall g | g in Now(pins.log, pins.answer).driven :: g in LINES[k..]
    {
      if * {
        o := pins.Trouble();
        return;
      }
      LetsGo(pins.log, k, pins.answer);
      pins.log := pins.log + [LetGo(LINES[k])];
    }
    return Done;
  }

  lemma BusMeansReset(pins: Lines, gpios: seq<Gpio>)
    requires Covered(pins.outputs, pins.log, pins.answer) && forall g | g in gpios :: g in pins.outputs && g != CRESET
    ensures forall g | g in gpios :: OnBus(g)
    ensures gpios != [] ==> InReset(pins)
  {
    hide Now;
    if gpios != [] {
      assert gpios[0] in pins.outputs && OnBus(gpios[0]);
    }
  }

  /** Lines.close: every other line an input, then CRESET if none of them is stuck; then all are given back, whatever is
      stuck, and `inputs` is what had happened by then. */
  method Close(pins: Lines) returns (o: Outcome, stuck: seq<Gpio>, ghost inputs: seq<Event>)
    requires Covered(pins.outputs, pins.log, pins.answer) && !Selects(pins.outputs)
    modifies pins
    ensures pins.troubles >= old(pins.troubles) && old(pins.log) <= pins.log
    ensures pins.troubles == old(pins.troubles) ==> o.Done?
    ensures Safe(pins.log, pins.answer) && !o.NotSent?
    ensures old(pins.outputs) == map[] ==> NoneDriven(pins.log, |old(pins.log)|)
    ensures o.Done? ==> stuck == [] && pins.outputs == map[] && Now(inputs, pins.answer).driven == map[]
    ensures o.Done? ==> Now(pins.log, pins.answer).driven == map[]
    ensures !o.Interrupted? && pins.troubles == old(pins.troubles) + |stuck| ==>
              pins.log == inputs + AllGivenBack(pins.v2)
    ensures !o.Interrupted? && stuck != [] ==> o.OsError? && (CRESET in old(pins.outputs) ==> CRESET in pins.outputs)
    ensures !o.Interrupted? ==> forall g | g in pins.outputs && g != CRESET :: g in stuck
  {
    hide Now, Safe, Bring, Next;
    var gpios := DrivenButReset(pins.outputs);
    BusMeansReset(pins, gpios);
    o, stuck := Release(pins, gpios);
    inputs := pins.log;
    if o.Interrupted? { return; }
    if CRESET in pins.outputs && stuck == [] {
      assert !HasBus(pins.outputs);
      ghost var log, outputs, n := pins.log, pins.outputs, 0;
      o, n := pins.Input(CRESET);
      InputKeeps(log, pins.Scope(CRESET), n, CRESET, outputs, pins.answer);
      if !o.Done? { return; }
    }
    inputs := pins.log;
    assert stuck == [] ==> pins.outputs == map[];
    NothingLeft(pins);
    forall g | g in Now(pins.log, pins.answer).driven ensures g in LINES {
      ProperLines(pins.outputs, g);
    }
    o := GiveBack(pins);
    if o.Done? && stuck != [] {
      o := OsError;
    }
  }

  // ---- the reading ----

  datatype FlashReading = FlashReading(jedec: seq<nat>, uid: seq<nat>, status: seq<nat>, busyAtReset: bool,
                                       busyAfterWait: bool)

  /** What CRESET read at first; what the flash said; whether CDONE rose in time; and what it read in the end. */
  datatype Report = NoDesign(creset: Level) | NotInReset(creset: Level)
                  | Read(creset: Level, flash: FlashReading, booted: bool, after: Level)

  /** Whether the n-th transaction, a status read, said busy. */
  predicate Busy(answer: Answering, n: nat) { Answers(answer, n, READ_STATUS_1, 0, 1)[0] % 2 == 1 }

  /** What the flash said in transactions n to n + 4. */
  ghost predicate FlashSays(r: FlashReading, n: nat, answer: Answering) {
    && r.jedec == Answers(answer, n + 1, READ_JEDEC_ID, 0, 3)
    && r.uid == Answers(answer, n + 2, READ_UNIQUE_ID, 4, 8)
    && r.status == Answers(answer, n, READ_STATUS_1, 0, 1) + Answers(answer, n + 3, READ_STATUS_2, 0, 1)
                   + Answers(answer, n + 4, READ_STATUS_3, 0, 1)
    && r.busyAfterWait == Busy(answer, n)
  }

  /** The reads that follow the status, by the opcodes the W25Q128JV's data sheet gives: JEDEC ID, unique ID, status
      registers 2 and 3. */
  function FourReads(): seq<seq<Level>> {
    [Intended(0x9F, 32), Intended(0x4B, 104), Intended(0x35, 16), Intended(0x15, 16)]
  }

  /** Release from power-down, and status register 1 read m times, by their opcodes in that data sheet. */
  function Polled(m: nat): seq<seq<Level>> {
    [Intended(0xAB, 8)] + seq(m, _ => Intended(0x05, 16))
  }

  /** Of the m status reads after transaction n, all but the last said busy, and the first is what was reported. */
  ghost predicate PolledBusy(r: FlashReading, n: nat, m: nat, answer: Answering) {
    r.busyAtReset == Busy(answer, n + 1) && forall i | n < i < n + m :: Busy(answer, i)
  }

  /** The flash said it: the log has the wake-up, the status asked for until it was not busy, and the other reads, one
      after another from transaction n on. */
  ghost predicate SaidAt(r: FlashReading, took: seq<seq<Level>>, n: nat, m: nat, answer: Answering) {
    && m > 0 && n + m + 5 <= |took| && took[n..n + m + 5] == Polled(m) + FourReads()
    && FlashSays(r, n + m, answer) && PolledBusy(r, n, m, answer)
  }

  ghost predicate Said(r: FlashReading, log: seq<Event>, answer: Answering) {
    exists n: nat, m: nat :: SaidAt(r, Now(log, answer).flash.finished, n, m, answer)
  }

  lemma JustSaid(pins: Lines, r: FlashReading, before: seq<seq<Level>>, m: nat)
    requires m > 0 && Finished(pins) == before + Polled(m) + FourReads()
    requires FlashSays(r, |before| + m, pins.answer) && PolledBusy(r, |before|, m, pins.answer)
    ensures Said(r, pins.log, pins.answer)
  {
    hide Now, FlashSays, Intended, PolledBusy;
    var n := |before|;
    assert Finished(pins)[n..n + m + 5] == Polled(m) + FourReads();
    assert SaidAt(r, Finished(pins), n, m, pins.answer);
  }

  lemma SaidBefore(r: FlashReading, log: seq<Event>, later: seq<Event>, answer: Answering)
    requires Said(r, log, answer) && log <= later
    ensures Said(r, later, answer)
  {
    hide Now, FlashSays, PolledBusy, Polled, FourReads;
    FinishedGrows(log, later, answer);
    var took, more := Now(log, answer).flash.finished, Now(later, answer).flash.finished;
    var n: nat, m: nat :| SaidAt(r, took, n, m, answer);
    assert more[n..n + m + 5] == took[n..n + m + 5];
    assert SaidAt(r, more, n, m, answer);
  }

  /** time.sleep: a Ctrl-C may end it. */
  method Pause(pins: Lines) returns (o: Outcome)
    modifies pins`troubles
    ensures o.Done? || o.Interrupted?
    ensures pins.troubles >= old(pins.troubles)
    ensures o.Done? <==> pins.troubles == old(pins.troubles)
  {
    o := Done;
    if * {
      o, pins.troubles := Interrupted, pins.troubles + 1;
    }
  }

  method ReadStatus(pins: Lines, opcode: nat) returns (o: Outcome, status: nat)
    requires Idle(pins) && ReadOnly(opcode)
    modifies pins
    ensures pins.troubles >= old(pins.troubles) && old(pins.log) <= pins.log
    ensures pins.troubles == old(pins.troubles) ==> o.Done?
    ensures Parked(pins) && !o.NotSent?
    ensures o.Done? ==> Idle(pins) && Finished(pins) == old(Finished(pins)) + [Intended(opcode, 16)]
    ensures o.Done? ==> [status] == Answers(pins.answer, |old(Finished(pins))|, opcode, 0, 1)
  {
    hide Idle, Parked, Now, Answers, ReadOnly, Intended;
    status := 0;
    var out;
    o, out := Command(pins, opcode, 0, 1);
    if o.Done? {
      status := out[0];
    }
  }

  /** read_flash's first part, until the flash says it is not busy or the deadline has passed; `polls` is how often the
      clock is found before it. */
  method WaitUntilIdle(pins: Lines, polls: nat) returns (o: Outcome, status1: nat, busySeen: bool)
    requires Idle(pins)
    modifies pins
    ensures pins.troubles >= old(pins.troubles) && old(pins.log) <= pins.log
    ensures pins.troubles == old(pins.troubles) ==> o.Done?
    ensures Parked(pins) && !o.NotSent?
    ensures o.Done? ==> Idle(pins) && |old(Finished(pins))| + 2 <= |Finished(pins)| <= |old(Finished(pins))| + 2 + polls
    ensures o.Done? ==> Finished(pins) == old(Finished(pins)) + Polled(|Finished(pins)| - |old(Finished(pins))| - 1)
    ensures o.Done? ==> [status1] == Answers(pins.answer, |Finished(pins)| - 1, READ_STATUS_1, 0, 1)
    ensures o.Done? ==> busySeen == Busy(pins.answer, |old(Finished(pins))| + 1)
    ensures o.Done? ==> forall i | |old(Finished(pins))| < i < |Finished(pins)| - 1 :: Busy(pins.answer, i)
    ensures o.Done? && status1 % 2 == 1 ==> |Finished(pins)| == |old(Finished(pins))| + 2 + polls
  {
    hide Idle, Parked, Now, Answers, Finished, Polled, Intended;
    ghost var before := Finished(pins);
    status1, busySeen := 0, false;
    IdleParked(pins);
    var wake;
    o, wake := Command(pins, RELEASE_POWER_DOWN, 0, 0);
    if !o.Done? { return; }
    o := Pause(pins);
    if !o.Done? { return; }
    o, status1 := ReadStatus(pins, READ_STATUS_1);
    if !o.Done? { return; }
    busySeen := status1 % 2 == 1;
    PolledMore(before, 0);
    var left := polls;
    while status1 % 2 == 1 && left > 0
      invariant o.Done? && Idle(pins) && Parked(pins) && 0 <= left <= polls
      invariant |Finished(pins)| == |old(Finished(pins))| + 2 + polls - left
      invariant pins.troubles >= old(pins.troubles) && old(pins.log) <= pins.log
      invariant Finished(pins) == before + Polled(|Finished(pins)| - |before| - 1)
      invariant [status1] == Answers(pins.answer, |Finished(pins)| - 1, READ_STATUS_1, 0, 1)
      invariant forall i | |before| < i < |Finished(pins)| - 1 :: Busy(pins.answer, i)
    {
      left := left - 1;
      PolledMore(before, |Finished(pins)| - |before| - 1);
      o := Pause(pins);
      if !o.Done? { return; }
      o, status1 := ReadStatus(pins, READ_STATUS_1);
      if !o.Done? { return; }
    }
  }

  lemma PolledMore(before: seq<seq<Level>>, m: nat)
    ensures before + [Intended(RELEASE_POWER_DOWN, 8)] == before + Polled(0)
    ensures before + Polled(m) + [Intended(READ_STATUS_1, 16)] == before + Polled(m + 1) && |Polled(m + 1)| == m + 2
  {
    hide Intended;
  }

  /** read_flash. */
  method ReadFlash(pins: Lines, polls: nat) returns (o: Outcome, r: FlashReading)
    requires Idle(pins)
    modifies pins
    ensures pins.troubles >= old(pins.troubles) && old(pins.log) <= pins.log
    ensures pins.troubles == old(pins.troubles) ==> o.Done?
    ensures Parked(pins) && !o.NotSent?
    ensures o.Done? ==> Idle(pins) && |old(Finished(pins))| + 6 <= |Finished(pins)| <= |old(Finished(pins))| + 6 + polls
    ensures o.Done? ==>
              Finished(pins) == old(Finished(pins)) + Polled(|Finished(pins)| - |old(Finished(pins))| - 5) + FourReads()
    ensures o.Done? ==> FlashSays(r, |Finished(pins)| - 5, pins.answer) && Said(r, pins.log, pins.answer)
    ensures o.Done? ==>
              PolledBusy(r, |old(Finished(pins))|, |Finished(pins)| - |old(Finished(pins))| - 5, pins.answer)
    ensures o.Done? && r.busyAfterWait ==> |Finished(pins)| == |old(Finished(pins))| + 6 + polls
  {
    hide Idle, Parked, Now, Answers, Finished, Polled, Intended, Said;
    ghost var before := Finished(pins);
    r := FlashReading([], [], [], false, false);
    var status1, busySeen, jedec, uid, status2, status3;
    o, status1, busySeen := WaitUntilIdle(pins, polls);
    if !o.Done? { return; }
    o, jedec := Command(pins, READ_JEDEC_ID, 0, 3);
    if !o.Done? { return; }
    o, uid := Command(pins, READ_UNIQUE_ID, 4, 8);
    if !o.Done? { return; }
    o, status2 := ReadStatus(pins, READ_STATUS_2);
    if !o.Done? { return; }
    o, status3 := ReadStatus(pins, READ_STATUS_3);
    r := FlashReading(jedec, uid, [status1, status2, status3], busySeen, status1 % 2 == 1);
    assert [status1] + [status2] + [status3] == [status1, status2, status3];
    if o.Done? {
      assert Finished(pins) == before + Polled(|Finished(pins)| - |before| - 5) + FourReads();
      JustSaid(pins, r, before, |Finished(pins)| - |before| - 5);
    }
  }

  lemma IdleParked(pins: Lines)
    requires Idle(pins)
    ensures Parked(pins)
  {
    hide Covered, Mirrors;
  }

  /** What waiting for a level saw: the line, at the other level every time but the last, and then at it unless it never
      was. */
  predicate Watched(log: seq<Event>, from: nat, g: Gpio, level: Level, polls: nat, rose: bool) {
    && from <= |log| <= from + polls + 1 && (if rose then from < |log| else |log| == from + polls + 1)
    && forall k | from <= k < |log| ::
         log[k].Seen? && log[k].gpio == g && (log[k].level == level <==> rose && k == |log| - 1)
  }

  /** wait_for: whether a line read a level within `polls` more reads than the first. */
  method WaitFor(pins: Lines, g: Gpio, level: Level, polls: nat) returns (o: Outcome, rose: bool)
    modifies pins`log, pins`troubles
    ensures pins.troubles >= old(pins.troubles) && old(pins.log) <= pins.log
    ensures pins.troubles == old(pins.troubles) ==> o.Done?
    ensures !o.NotSent?
    ensures Covered(pins.outputs, old(pins.log), pins.answer) ==> Covered(pins.outputs, pins.log, pins.answer)
    ensures o.Done? ==> old(pins.log) <= pins.log && Watched(pins.log, |old(pins.log)|, g, level, polls, rose)
  {
    hide Covered, Now;
    rose := false;
    for k := 0 to polls + 1
      invariant Covered(pins.outputs, old(pins.log), pins.answer) ==> Covered(pins.outputs, pins.log, pins.answer)
      invariant pins.troubles >= old(pins.troubles) && old(pins.log) <= pins.log && |pins.log| == |old(pins.log)| + k
      invariant forall m | |old(pins.log)| <= m < |pins.log| ::
                  pins.log[m].Seen? && pins.log[m].gpio == g && pins.log[m].level != level
    {
      var l;
      ghost var log := pins.log;
      o, l := pins.Get(g);
      if !o.Done? { return; }
      SeenKeeps(log, g, l, pins.outputs, pins.answer);
      if l == level { return o, true; }
      if k == polls { break; }
      o := Pause(pins);
      if !o.Done? { return; }
    }
    o := Done;
  }

  method OutputLine(pins: Lines, g: Gpio, level: Level) returns (o: Outcome)
    requires Covered(pins.outputs, pins.log, pins.answer) && !Now(pins.log, pins.answer).stage.Unknown?
    requires var to := pins.outputs[g := level];
             Proper(to) && (HasBus(to) ==> Now(pins.log, pins.answer).stage.Held?) && !Clocks(to) && CRESET in to
    modifies pins
    ensures pins.troubles >= old(pins.troubles) && old(pins.log) <= pins.log
    ensures pins.troubles == old(pins.troubles) ==> o.Done?
    ensures pins.outputs == old(pins.outputs)[g := level] && !o.NotSent?
    ensures Covered(pins.outputs, pins.log, pins.answer) && !Now(pins.log, pins.answer).stage.Unknown?
    ensures o.Done? && old(Mirrors(pins.outputs, pins.log, pins.answer)) ==>
              Mirrors(pins.outputs, pins.log, pins.answer)
  {
    hide Covered, Now, Bring, Mirrors;
    ghost var log, outputs, n := pins.log, pins.outputs, 0;
    o, n := pins.Output(g, level);
    OutputKeeps(log, pins.Scope(g), n, g, level, outputs, pins.answer);
  }

  /** The script is taking the bus: the iCE40 is held in reset, and only its lines are driven, as they are meant to
      be. */
  ghost predicate Taking(pins: Lines)
    reads pins`log, pins`outputs
  {
    && Covered(pins.outputs, pins.log, pins.answer) && Now(pins.log, pins.answer).stage.Held? && CRESET in pins.outputs
    && !Clocks(pins.outputs) && !Selects(pins.outputs)
  }

  /** One more line of the bus taken. */
  method BusLine(pins: Lines, g: Gpio, level: Level) returns (o: Outcome)
    requires Taking(pins) && OnBus(g)
    requires (g == CS || g == HOLD ==> level == 1) && (g == WP || g == CLK ==> level == 0)
    modifies pins
    ensures pins.troubles >= old(pins.troubles) && old(pins.log) <= pins.log
    ensures pins.troubles == old(pins.troubles) ==> o.Done?
    ensures Taking(pins) && pins.outputs == old(pins.outputs)[g := level] && !o.NotSent?
    ensures o.Done? && old(Mirrors(pins.outputs, pins.log, pins.answer)) ==>
              Mirrors(pins.outputs, pins.log, pins.answer)
  {
    hide Now, Safe, Mirrors;
    o := OutputLine(pins, g, level);
    StillHeld(pins, g);
  }

  /** Only CRESET is driven, and the iCE40 is in reset. */
  ghost predicate ResetHeld(pins: Lines)
    reads pins`log, pins`outputs
  {
    && Covered(pins.outputs, pins.log, pins.answer) && Mirrors(pins.outputs, pins.log, pins.answer)
    && pins.outputs == map[CRESET := 0] && Now(pins.log, pins.answer).stage.Held?
  }

  /** The flash deselected, protected and not held, the clock and data low. */
  method TakeBus(pins: Lines) returns (o: Outcome)
    requires ResetHeld(pins)
    modifies pins
    ensures pins.troubles >= old(pins.troubles) && old(pins.log) <= pins.log
    ensures pins.troubles == old(pins.troubles) ==> o.Done?
    ensures Taking(pins) && !o.NotSent? && (o.Done? ==> Idle(pins))
  {
    hide Now, Covered, Mirrors;
    o := BusLine(pins, CS, 1);
    if !o.Done? { return; }
    o := BusLine(pins, WP, 0);
    if !o.Done? { return; }
    o := BusLine(pins, HOLD, 1);
    if !o.Done? { return; }
    o := BusLine(pins, CLK, 0);
    if !o.Done? { return; }
    o := BusLine(pins, MOSI, 0);
  }

  /** The bus taken; then the reading. */
  method UseBus(pins: Lines, polls: nat) returns (o: Outcome, r: FlashReading)
    requires ResetHeld(pins)
    modifies pins
    ensures pins.troubles >= old(pins.troubles) && old(pins.log) <= pins.log
    ensures pins.troubles == old(pins.troubles) ==> o.Done?
    ensures Covered(pins.outputs, pins.log, pins.answer) && !Selects(pins.outputs) && InReset(pins) && !o.NotSent?
    ensures o.Done? ==> Said(r, pins.log, pins.answer)
  {
    hide Now, Covered, Said, FlashSays, Mirrors, Polled;
    r := FlashReading([], [], [], false, false);
    o := TakeBus(pins);
    if !o.Done? { return; }
    o, r := ReadFlash(pins, polls);
    StillHeld(pins, CS);
  }

  lemma StillHeld(pins: Lines, g: Gpio)
    requires Covered(pins.outputs, pins.log, pins.answer) && g in pins.outputs && OnBus(g)
    ensures Now(pins.log, pins.answer).stage.Held? && CRESET in pins.outputs
  {
    hide Now, Safe;
  }

  // ---- the run ----

  /** Every line an input, CRESET not driven since it was last let go. */
  ghost predicate Fresh(pins: Lines)
    reads pins`log, pins`outputs
  {
    && Safe(pins.log, pins.answer) && pins.outputs == map[] && Now(pins.log, pins.answer).driven == map[]
    && (Now(pins.log, pins.answer).stage.Unknown? || Now(pins.log, pins.answer).stage.Running?)
  }

  lemma {:induction false} NothingNeeded(log: seq<Event>, ls: seq<Gpio>, n: nat, config: map<Gpio, Level>,
                                         answer: Answering)
    requires n <= |ls| && forall g | g in ls[..n] :: g !in config && g !in Now(log, answer).driven
    ensures Bring(log, ls, n, config, answer) == log
  {
    hide Now;
    if n > 0 {
      assert ls[..n] == ls[..n - 1] + [ls[n - 1]];
      NothingNeeded(log, ls, n - 1, config, answer);
    }
  }

  /** CRESET, alone, brought to where it is to be: one event. */
  lemma ResetAlone(log: seq<Event>, ls: seq<Gpio>, config: map<Gpio, Level>, e: Event, answer: Answering)
    requires ScopeOf(ls, CRESET) && Needed(Now(log, answer).driven, CRESET, config) == [e]
    requires Now(log, answer).driven.Keys <= {CRESET} && config.Keys <= {CRESET}
    ensures Bring(log, ls, |ls|, config, answer) == log + [e]
  {
    hide Now, Bring, Needed;
    var n := |ls| - 1;
    assert ls[n] == CRESET && forall g | g in ls[..n] :: g != CRESET;
    NothingNeeded(log, ls, n, config, answer);
    BringNext(log, ls, n, config, answer);
  }

  /** Reset asked for, and CDONE read back. */
  method HoldInReset(pins: Lines) returns (o: Outcome, cdone: Level)
    requires Fresh(pins) && Now(pins.log, pins.answer).stage.Running?
    modifies pins
    ensures pins.troubles >= old(pins.troubles) && old(pins.log) <= pins.log
    ensures pins.troubles == old(pins.troubles) ==> o.Done?
    ensures Covered(pins.outputs, pins.log, pins.answer) && pins.outputs == map[CRESET := 0] && !o.NotSent?
    ensures o.Done? ==> Mirrors(pins.outputs, pins.log, pins.answer)
    ensures o.Done? && cdone == 0 ==> Now(pins.log, pins.answer).stage.Held?
    ensures o.Done? ==> pins.log == old(pins.log) + [Drive(CRESET, 0), Seen(CDONE, cdone)]
    ensures o.Done? ==> cdone == pins.board(old(pins.log) + [Drive(CRESET, 0)], CDONE)
  {
    hide Now, Safe, Bring;
    cdone := 0;
    ghost var log, outputs, n := pins.log, pins.outputs, 0;
    o, n := pins.Output(CRESET, 0);
    OutputKeeps(log, pins.Scope(CRESET), n, CRESET, 0, outputs, pins.answer);
    if !o.Done? { return; }
    ResetAlone(log, pins.Scope(CRESET), pins.outputs, Drive(CRESET, 0), pins.answer);
    AtEnd(log, Drive(CRESET, 0), pins.answer);
    o := Pause(pins);
    if !o.Done? { return; }
    log := pins.log;
    o, cdone := pins.Get(CDONE);
    if !o.Done? { return; }
    SeenKeeps(log, CDONE, cdone, pins.outputs, pins.answer);
  }

  /** CRESET an input again. */
  method LetResetGo(pins: Lines) returns (o: Outcome)
    requires Covered(pins.outputs, pins.log, pins.answer) && !HasBus(pins.outputs)
    modifies pins
    ensures pins.troubles >= old(pins.troubles) && old(pins.log) <= pins.log
    ensures pins.troubles == old(pins.troubles) ==> o.Done?
    ensures Safe(pins.log, pins.answer) && !o.NotSent?
    ensures !o.Interrupted? ==> Covered(pins.outputs, pins.log, pins.answer) && !HasBus(pins.outputs)
    ensures o.Done? ==> pins.outputs == map[] && Now(pins.log, pins.answer).driven == map[]
    ensures o.Done? && old(Now(pins.log, pins.answer).driven) == map[CRESET := 0] ==>
              pins.log == old(pins.log) + [LetGo(CRESET)]
  {
    hide Now, Safe, Bring;
    ghost var log, outputs, n := pins.log, pins.outputs, 0;
    o, n := pins.Input(CRESET);
    InputKeeps(log, pins.Scope(CRESET), n, CRESET, outputs, pins.answer);
    assert forall g | g in outputs - {CRESET} :: g in outputs && OnBus(g);
    assert outputs - {CRESET} == map[];
    if o.Done? && Now(log, pins.answer).driven == map[CRESET := 0] {
      ResetAlone(log, pins.Scope(CRESET), map[], LetGo(CRESET), pins.answer);
    }
    NothingLeft(pins);
  }

  /** With the iCE40 held in reset: the reading, and the bus given back before CRESET is let go, whatever came of it. */
  method ReadHeld(pins: Lines, polls: nat) returns (o: Outcome, r: FlashReading)
    requires ResetHeld(pins)
    modifies pins
    ensures pins.troubles >= old(pins.troubles) && old(pins.log) <= pins.log
    ensures pins.troubles == old(pins.troubles) ==> o.Done?
    ensures Safe(pins.log, pins.answer) && !o.NotSent?
    ensures !o.Interrupted? ==> Covered(pins.outputs, pins.log, pins.answer) && !Selects(pins.outputs)
    ensures o.Done? ==> pins.outputs == map[] && Now(pins.log, pins.answer).driven == map[]
    ensures o.Done? ==> Said(r, pins.log, pins.answer)
  {
    hide Now, Safe, Next, Said, Mirrors, Covered;
    var stuck, end;
    o, r := UseBus(pins, polls);
    ghost var log := pins.log;
    end, stuck := Release(pins, SPI_OUTPUTS);
    if end.Interrupted? { return end, r; }
    if stuck == [] {
      assert !HasBus(pins.outputs) by { AllReleased(pins.outputs); }
      end := LetResetGo(pins);
      if !end.Done? { return end, r; }
    }
    if o.Done? {
      SaidBefore(r, log, pins.log, pins.answer);
      if stuck != [] {
        o := OsError;
      }
    }
  }

  /** The reading was made, and no line was driven any more when CDONE was waited for, from the k-th event on, and then
      read once more. */
  ghost predicate LetGoThenRead(report: Report, waits: nat, log: seq<Event>, k: nat, answer: Answering)
    requires report.Read?
  {
    && k < |log| && Said(report.flash, log[..k], answer) && Now(log[..k], answer).driven == map[]
    && Watched(log[..|log| - 1], k, CDONE, 1, waits, report.booted) && log[|log| - 1] == Seen(CDONE, report.after)
  }

  /** CDONE read high, CRESET driven low, CDONE read again. */
  function ResetTried(creset: Level, cdone: Level): seq<Event> {
    [Seen(CDONE, 1), Seen(CRESET, creset), Drive(CRESET, 0), Seen(CDONE, cdone)]
  }

  /** What happened since `was` is what the report says: no design, and nothing driven; not held in reset, and nothing
      but CRESET driven; or held, read, let go, and waited for. */
  ghost predicate Tells(report: Report, waits: nat, was: seq<Event>, log: seq<Event>, answer: Answering) {
    match report
    case NoDesign(creset) => log == was + [Seen(CDONE, 0), Seen(CRESET, creset)]
    case NotInReset(creset) => log == was + ResetTried(creset, 1) + [LetGo(CRESET)]
    case Read(creset, _, _, _) =>
      was + ResetTried(creset, 0) <= log && exists k: nat :: LetGoThenRead(report, waits, log, k, answer)
  }

  /** The report is what the board showed: CDONE high or not, CRESET, and CDONE high or not with CRESET driven low. */
  predicate AsShown(report: Report, was: seq<Event>, board: Showing) {
    var design := board(was, CDONE);
    && (report.NoDesign? <==> design == 0)
    && report.creset == board(was + [Seen(CDONE, design)], CRESET)
    && (report.NotInReset? <==>
          design == 1 && board(was + [Seen(CDONE, 1), Seen(CRESET, report.creset), Drive(CRESET, 0)], CDONE) == 1)
  }

  /** With every line let go: whether CDONE rose, and what it read in the end. */
  method WatchBoot(pins: Lines, waits: nat) returns (o: Outcome, rose: bool, after: Level)
    requires Covered(pins.outputs, pins.log, pins.answer)
    modifies pins`log, pins`troubles
    ensures pins.troubles >= old(pins.troubles) && old(pins.log) <= pins.log
    ensures pins.troubles == old(pins.troubles) ==> o.Done?
    ensures Covered(pins.outputs, pins.log, pins.answer) && !o.NotSent?
    ensures o.Done? ==>
              |old(pins.log)| < |pins.log| && pins.log[|pins.log| - 1] == Seen(CDONE, after)
              && Watched(pins.log[..|pins.log| - 1], |old(pins.log)|, CDONE, 1, waits, rose)
  {
    hide Covered, Now;
    after := 0;
    o, rose := WaitFor(pins, CDONE, 1, waits);
    if !o.Done? { return; }
    ghost var log := pins.log;
    o, after := pins.Get(CDONE);
    if !o.Done? { return; }
    SeenKeeps(log, CDONE, after, pins.outputs, pins.answer);
    assert pins.log[..|pins.log| - 1] == log;
  }

  /** identify, once CDONE has read high. */
  method ResetAndRead(pins: Lines, creset: Level, polls: nat, waits: nat, ghost was: seq<Event>)
    returns (o: Outcome, report: Report)
    requires Fresh(pins) && Now(pins.log, pins.answer).stage.Running?
    requires pins.log == was + [Seen(CDONE, 1), Seen(CRESET, creset)] && pins.board(was, CDONE) == 1
    requires pins.board(was + [Seen(CDONE, 1)], CRESET) == creset
    modifies pins
    ensures pins.troubles >= old(pins.troubles) && old(pins.log) <= pins.log
    ensures pins.troubles == old(pins.troubles) ==> o.Done?
    ensures Safe(pins.log, pins.answer) && !o.NotSent?
    ensures !o.Interrupted? ==> Covered(pins.outputs, pins.log, pins.answer) && !Selects(pins.outputs)
    ensures o.Done? ==> pins.outputs == map[] && Now(pins.log, pins.answer).driven == map[]
    ensures o.Done? ==> Tells(report, waits, was, pins.log, pins.answer) && AsShown(report, was, pins.board)
  {
    hide Now, Safe, Next, Said, Covered, Watched;
    report := NotInReset(creset);
    var reset;
    o, reset := HoldInReset(pins);
    CoveredSafe(pins.outputs, pins.log, pins.answer);
    if !o.Done? { return; }
    assert pins.log == was + ResetTried(creset, reset);
    assert old(pins.log) + [Drive(CRESET, 0)] == was + [Seen(CDONE, 1), Seen(CRESET, creset), Drive(CRESET, 0)];
    if reset != 0 {
      o := LetResetGo(pins);
      return;
    }
    var r, rose, after;
    o, r := ReadHeld(pins, polls);
    if !o.Done? { return; }
    ghost var log := pins.log;
    o, rose, after := WatchBoot(pins, waits);
    CoveredSafe(pins.outputs, pins.log, pins.answer);
    if !o.Done? { return; }
    report := Read(creset, r, rose, after);
    NothingLeft(pins);
    assert pins.log[..|log|] == log;
    assert LetGoThenRead(report, waits, pins.log, |log|, pins.answer);
  }

  /** identify: the reading. Whatever fails, the log stays safe; and unless a Ctrl-C ended it, what may still be
      driven is known, so that Lines.close can deal with it. When nothing fails, what happened is what the report says,
      and nothing is driven any more. */
  method Identify(pins: Lines, polls: nat, waits: nat) returns (o: Outcome, report: Report)
    requires Fresh(pins)
    modifies pins
    ensures pins.troubles >= old(pins.troubles) && old(pins.log) <= pins.log
    ensures pins.troubles == old(pins.troubles) ==> o.Done?
    ensures Safe(pins.log, pins.answer) && !o.NotSent?
    ensures !o.Interrupted? ==> Covered(pins.outputs, pins.log, pins.answer) && !Selects(pins.outputs)
    ensures o.Done? ==> pins.outputs == map[] && Now(pins.log, pins.answer).driven == map[]
    ensures o.Done? ==> Tells(report, waits, old(pins.log), pins.log, pins.answer)
    ensures o.Done? ==> AsShown(report, old(pins.log), pins.board)
  {
    hide Now, Safe, Next, Mirrors, Covered, LetGoThenRead;
    report := NoDesign(0);
    var before, creset;
    FreshCovered(pins);
    ghost var log := pins.log;
    o, before := pins.Get(CDONE);
    if !o.Done? { return; }
    SeenKeeps(log, CDONE, before, pins.outputs, pins.answer);
    CoveredSafe(pins.outputs, pins.log, pins.answer);
    log := pins.log;
    o, creset := pins.Get(CRESET);
    if !o.Done? { return; }
    SeenKeeps(log, CRESET, creset, pins.outputs, pins.answer);
    CoveredSafe(pins.outputs, pins.log, pins.answer);
    if before != 1 {
      report := NoDesign(creset);
      return;
    }
    assert pins.log == old(pins.log) + [Seen(CDONE, 1), Seen(CRESET, creset)];
    o, report := ResetAndRead(pins, creset, polls, waits, old(pins.log));
  }

  lemma FreshCovered(pins: Lines)
    requires Fresh(pins)
    ensures Covered(pins.outputs, pins.log, pins.answer)
  {
    hide Safe, Now;
  }

  lemma AllReleased(outputs: map<Gpio, Level>)
    requires forall g | g in SPI_OUTPUTS :: g !in outputs
    ensures !HasBus(outputs)
  {
    forall g | OnBus(g) ensures g !in outputs {
      assert g in SPI_OUTPUTS;
    }
  }

  lemma NothingLeft(pins: Lines)
    ensures Covered(pins.outputs, pins.log, pins.answer) && pins.outputs == map[] ==>
              Now(pins.log, pins.answer).driven == map[]
  {
    hide Safe, Now;
  }

  /** Which report it is can be told from the log, whatever came after. */
  lemma KindTold(report: Report, waits: nat, said: seq<Event>, log: seq<Event>, answer: Answering)
    requires Tells(report, waits, [], said, answer) && said <= log
    ensures |log| >= 2 && (!report.NoDesign? ==> |log| >= 4)
    ensures report.NoDesign? <==> log[0] == Seen(CDONE, 0)
    ensures report.NotInReset? <==> log[0] == Seen(CDONE, 1) && log[3] == Seen(CDONE, 1)
    ensures report.Read? <==> log[0] == Seen(CDONE, 1) && log[3] == Seen(CDONE, 0)
    ensures !report.NoDesign? ==> log[2] == Drive(CRESET, 0)
  {
    hide LetGoThenRead;
  }

  /** The whole script, either libgpiod: take the lines, identify, and give them back unless a Ctrl-C ended it. Whatever
      failed, wherever, everything that happened on the header was allowed; if nothing did, nothing is driven. If the
      identification was made, `said` is what had happened by then, and the report says that. */
  method Session(v2: bool, answer: Answering, board: Showing, polls: nat, waits: nat)
    returns (pins: Lines, identified: Outcome, closed: Outcome, report: Report, ghost said: seq<Event>)
    ensures pins.answer == answer && pins.board == board && Safe(pins.log, answer)
    ensures !identified.Interrupted? && closed.Done? ==> Now(pins.log, answer).driven == map[]
    ensures pins.troubles == 0 ==> identified.Done? && closed.Done?
    ensures identified.Done? ==> said <= pins.log && Tells(report, waits, [], said, answer)
    ensures identified.Done? ==> AsShown(report, [], board)
    ensures identified.Done? ==> NoneDriven(pins.log, |said|)
  {
    hide Tells, LetGoThenRead, AsShown;
    pins := new Lines(v2, answer, board);
    identified, report := Identify(pins, polls, waits);
    closed, said := OsError, pins.log;
    if !identified.Interrupted? {
      var stuck;
      ghost var inputs;
      closed, stuck, inputs := Close(pins);
    }
  }
}
