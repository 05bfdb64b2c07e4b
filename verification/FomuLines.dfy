/** The script's lines through libgpiod, either version: what each operation asks the kernel for, and what is so when it
    fails, which any of them may. */
module FomuLines {
  import opened Bits
  import opened SpiSlave
  import opened FomuBoard

  /** How an operation ends: done; failed (OSError); stopped by a Ctrl-C; or refused as not a read (NotSent). */
  datatype Outcome = Done | OsError | Interrupted | NotSent

  // ---- bringing lines to a configuration ----

  function Needed(driven: map<Gpio, Level>, g: Gpio, config: map<Gpio, Level>): seq<Event> {
    if g in config then
      if g in driven && driven[g] == config[g] then [] else [Drive(g, config[g])]
    else
      if g in driven then [LetGo(g)] else []
  }

  /** The log once the first n of these lines are as configured: driven if they are in `config`, inputs if not. */
  function Bring(log: seq<Event>, ls: seq<Gpio>, n: nat, config: map<Gpio, Level>, answer: Answering): seq<Event>
    requires n <= |ls|
  {
    if n == 0 then log
    else
      var was := Bring(log, ls, n - 1, config, answer);
      was + Needed(Now(was, answer).driven, ls[n - 1], config)
  }

  lemma {:induction false} BringExtends(log: seq<Event>, ls: seq<Gpio>, n: nat, config: map<Gpio, Level>,
                                        answer: Answering)
    requires n <= |ls|
    ensures log <= Bring(log, ls, n, config, answer)
  {
    hide Now, Needed;
    if n > 0 {
      BringExtends(log, ls, n - 1, config, answer);
    }
  }

  predicate Same(a: map<Gpio, Level>, b: map<Gpio, Level>, g: Gpio) {
    (g in a <==> g in b) && (g in a && g in b ==> a[g] == b[g])
  }

  lemma NeededDoes(log: seq<Event>, g: Gpio, config: map<Gpio, Level>, answer: Answering)
    ensures var driven := Now(log, answer).driven;
            var then_ := Now(log + Needed(driven, g, config), answer).driven;
            Same(then_, config, g) && forall h | h != g :: Same(then_, driven, h)
  {
    hide Next, WiresOf, StageAfter;
    var more := Needed(Now(log, answer).driven, g, config);
    if more == [] {
      assert log + more == log;
    } else {
      AtEnd(log, more[0], answer);
    }
  }

  /** The lines reached are as configured, the others as they were. */
  lemma {:induction false} Brought(log: seq<Event>, ls: seq<Gpio>, n: nat, config: map<Gpio, Level>, answer: Answering)
    requires n <= |ls|
    ensures var driven := Now(log, answer).driven;
            var then_ := Now(Bring(log, ls, n, config, answer), answer).driven;
            && (forall g | g in ls[..n] :: Same(then_, config, g))
            && (forall g | g !in ls[..n] :: Same(then_, driven, g))
  {
    hide Needed, Now;
    if n > 0 {
      Brought(log, ls, n - 1, config, answer);
      NeededDoes(Bring(log, ls, n - 1, config, answer), ls[n - 1], config, answer);
      var was := Now(Bring(log, ls, n - 1, config, answer), answer).driven;
      var then_ := Now(Bring(log, ls, n, config, answer), answer).driven;
      forall g | g in ls[..n] ensures Same(then_, config, g) {
        if g != ls[n - 1] {
          assert g in ls[..n - 1] && Same(then_, was, g);
        }
      }
      forall g | g !in ls[..n] ensures Same(then_, Now(log, answer).driven, g) {
        assert ls[n - 1] in ls[..n];
        assert g !in ls[..n - 1] && Same(then_, was, g);
      }
    }
  }

  // ---- when that is safe ----

  /** The levels the script ever gives: CRESET low, /WP low, /HOLD high; an SPI line only with CRESET. */
  predicate Proper(config: map<Gpio, Level>) {
    && (forall g | g in config :: g == CRESET || (OnBus(g) && CRESET in config))
    && (CRESET in config ==> config[CRESET] == 0)
    && (WP in config ==> config[WP] == 0)
    && (HOLD in config ==> config[HOLD] == 1)
  }

  predicate Clocks(config: map<Gpio, Level>) { CLK in config && config[CLK] == 1 }

  predicate Selects(config: map<Gpio, Level>) { CS in config && config[CS] == 0 }

  predicate HasBus(config: map<Gpio, Level>) { exists g :: g in config && OnBus(g) }

  /** A configuration that may be asked for in a state, on all lines or on one. */
  ghost predicate Careful(b: Board, ls: seq<Gpio>, config: map<Gpio, Level>) {
    && Proper(config)
    && (HasBus(config) ==> b.stage.Held?)
    && (CRESET in config && CRESET in ls ==> !b.stage.Unknown?)
    && (CRESET !in config && CRESET in ls ==> BusFree(b))
    && (ls == LINES || |ls| == 1)
    && (Clocks(config) && CLK in ls ==> ls == LINES && !Selects(config))
  }

  /** What every step of Bring keeps. */
  ghost predicate OnTheWay(log: seq<Event>, b: Board, ls: seq<Gpio>, n: nat, config: map<Gpio, Level>,
                           answer: Answering)
  {
    && Safe(log, answer)
    && (CRESET in config && b.stage.Held? ==> Now(log, answer).stage.Held?)
    && (CRESET in config && !b.stage.Unknown? ==> !Now(log, answer).stage.Unknown?)
    && (BusFree(b) && !HasBus(config) ==> BusFree(Now(log, answer)))
    && (ls == LINES && n >= 2 && !Selects(config) ==> Now(log, answer).flash.wires.cs == 1)
  }

  lemma {:induction false} BringSafe(log: seq<Event>, ls: seq<Gpio>, n: nat, config: map<Gpio, Level>,
                                     answer: Answering)
    requires n <= |ls| && Safe(log, answer) && Careful(Now(log, answer), ls, config)
    ensures OnTheWay(Bring(log, ls, n, config, answer), Now(log, answer), ls, n, config, answer)
  {
    hide Careful, Now, Needed, Safe, Proper, HasBus, BusFree, Selects, WiresOf, OnTheWay;
    if n == 0 {
      StartsOnTheWay(log, Now(log, answer), ls, config, answer);
    } else {
      BringSafe(log, ls, n - 1, config, answer);
      var was := Bring(log, ls, n - 1, config, answer);
      StaysOnTheWay(was, Now(log, answer), ls, n, config, answer);
    }
  }

  lemma StartsOnTheWay(log: seq<Event>, b: Board, ls: seq<Gpio>, config: map<Gpio, Level>, answer: Answering)
    requires Safe(log, answer) && b == Now(log, answer)
    ensures OnTheWay(log, b, ls, 0, config, answer)
  {
    hide Safe, Now;
  }

  lemma NoSelect(was: seq<Event>, n: nat, config: map<Gpio, Level>, answer: Answering)
    requires 2 <= n <= |LINES| && !Selects(config)
    requires n > 2 ==> Now(was, answer).flash.wires.cs == 1
    ensures Now(was + Needed(Now(was, answer).driven, LINES[n - 1], config), answer).flash.wires.cs == 1
  {
    hide Now, Next;
    var more := Needed(Now(was, answer).driven, LINES[n - 1], config);
    WiresTrack(was, answer);
    WiresTrack(was + more, answer);
    NeededDoes(was, LINES[n - 1], config, answer);
    assert Same(Now(was + more, answer).driven, if n == 2 then config else Now(was, answer).driven, CS);
  }

  /** The next line brought is allowed, and keeps the stage. */
  lemma NextAllowed(was: seq<Event>, b: Board, ls: seq<Gpio>, n: nat, config: map<Gpio, Level>, e: Event,
                    answer: Answering)
    requires 0 < n <= |ls| && Careful(b, ls, config) && OnTheWay(was, b, ls, n - 1, config, answer)
    requires Needed(Now(was, answer).driven, ls[n - 1], config) == [e]
    ensures Allowed(Now(was, answer), e)
    ensures CRESET in config && b.stage.Held? ==> StageAfter(Now(was, answer).stage, e).Held?
    ensures CRESET in config && !b.stage.Unknown? ==> !StageAfter(Now(was, answer).stage, e).Unknown?
    ensures BusFree(b) && !HasBus(config) ==> !(e.Drive? && OnBus(e.gpio))
  {
    hide Now, Safe, Next, Reading, BusFree;
    var g := ls[n - 1];
    if g in config && g != CRESET {
      assert OnBus(g) && HasBus(config);
    }
  }

  lemma StaysOnTheWay(was: seq<Event>, b: Board, ls: seq<Gpio>, n: nat, config: map<Gpio, Level>, answer: Answering)
    requires 0 < n <= |ls| && Careful(b, ls, config) && OnTheWay(was, b, ls, n - 1, config, answer)
    ensures OnTheWay(was + Needed(Now(was, answer).driven, ls[n - 1], config), b, ls, n, config, answer)
  {
    hide Now, Safe, Next, Reading, Proper, HasBus, WiresOf, Selects, Careful, Needed, StageAfter, Allowed;
    var more := Needed(Now(was, answer).driven, ls[n - 1], config);
    if ls == LINES && n >= 2 && !Selects(config) {
      NoSelect(was, n, config, answer);
    }
    assert |more| <= 1 by { OneNeeded(Now(was, answer).driven, ls[n - 1], config); }
    if more == [] {
      assert was + more == was;
    } else {
      assert more == [more[0]];
      NextAllowed(was, b, ls, n, config, more[0], answer);
      AtEnd(was, more[0], answer);
    }
  }

  lemma OneNeeded(driven: map<Gpio, Level>, g: Gpio, config: map<Gpio, Level>)
    ensures |Needed(driven, g, config)| <= 1
  {}

  lemma NoneBrought(log: seq<Event>, ls: seq<Gpio>, config: map<Gpio, Level>, answer: Answering)
    ensures Bring(log, ls, 0, config, answer) == log
  {}

  lemma BringNext(log: seq<Event>, ls: seq<Gpio>, n: nat, config: map<Gpio, Level>, answer: Answering)
    requires n < |ls|
    ensures var was := Bring(log, ls, n, config, answer);
            Bring(log, ls, n + 1, config, answer) == was + Needed(Now(was, answer).driven, ls[n], config)
  {}

  // ---- the lines ----

  /** What a line reads that is not the flash's MISO, after anything that may have happened. */
  type Showing = (seq<Event>, Gpio) -> Level

  class Lines {
    const v2: bool
    const answer: Answering
    const board: Showing
    var outputs: map<Gpio, Level>
    var log: seq<Event>
    var troubles: nat  // how many operations failed or were interrupted

    /** All requested as inputs. */
    constructor (v2: bool, answer: Answering, board: Showing)
      ensures this.v2 == v2 && this.answer == answer && this.board == board
      ensures outputs == map[] && log == [] && troubles == 0
    {
      this.v2, this.answer, this.board, outputs, log, troubles := v2, answer, board, map[], [], 0;
    }

    /** The lines one request is about: all of them with libgpiod v2's reconfigure_lines, one with v1. */
    function Scope(g: Gpio): seq<Gpio> { if v2 then LINES else [g] }

    /** An operation that failed, or a Ctrl-C in it. */
    method Trouble() returns (o: Outcome)
      modifies `troubles
      ensures troubles == old(troubles) + 1 && (o.OsError? || o.Interrupted?)
    {
      troubles := troubles + 1;
      o :| o.OsError? || o.Interrupted?;
    }

    /** The kernel sets lines in order, and may stop at any of them; the last one it reached may have failed after it
        was set. */
    method Kernel(ls: seq<Gpio>, config: map<Gpio, Level>) returns (o: Outcome, ghost n: nat)
      modifies `log, `troubles
      ensures troubles == (if o.Done? then old(troubles) else old(troubles) + 1) && old(log) <= log
      ensures n <= |ls| && log == Bring(old(log), ls, n, config, answer) && (o.Done? ==> n == |ls|) && !o.NotSent?
    {
      hide Now, Needed, Bring;
      n := 0;
      assert log == Bring(log, ls, 0, config, answer) by { NoneBrought(log, ls, config, answer); }
      for k := 0 to |ls|
        invariant n == k && log == Bring(old(log), ls, n, config, answer) && troubles == old(troubles)
        invariant old(log) <= log
      {
        if * {
          o := Trouble();
          return;
        }
        BringNext(old(log), ls, n, config, answer);
        log := log + Needed(Now(log, answer).driven, ls[k], config);
        n := n + 1;
        if * {
          o := Trouble();
          return;
        }
      }
      return Done, n;
    }

    /** The line driven; it counts as driven whatever comes of it. */
    method Output(g: Gpio, level: Level) returns (o: Outcome, ghost n: nat)
      modifies `log, `outputs, `troubles
      ensures troubles == (if o.Done? then old(troubles) else old(troubles) + 1) && old(log) <= log
      ensures outputs == old(outputs)[g := level] && !o.NotSent?
      ensures n <= |Scope(g)| && log == Bring(old(log), Scope(g), n, outputs, answer) && (o.Done? ==> n == |Scope(g)|)
    {
      outputs := outputs[g := level];
      o, n := Kernel(Scope(g), outputs);
    }

    /** The line an input; it stays in `outputs`, as driven, unless that worked, or a Ctrl-C came on libgpiod v2. */
    method Input(g: Gpio) returns (o: Outcome, ghost n: nat)
      modifies `log, `outputs, `troubles
      ensures troubles == (if o.Done? then old(troubles) else old(troubles) + 1) && old(log) <= log
      ensures outputs == if o.Done? || (v2 && o.Interrupted?) then old(outputs) - {g} else old(outputs)
      ensures n <= |Scope(g)| && log == Bring(old(log), Scope(g), n, old(outputs) - {g}, answer)
      ensures (o.Done? ==> n == |Scope(g)|) && !o.NotSent?
    {
      if v2 {
        var was := outputs;
        outputs := outputs - {g};
        o, n := Kernel(LINES, outputs);
        if o.OsError? && g in was {
          outputs := outputs[g := was[g]];
          assert outputs == was;
        }
      } else {
        o, n := Kernel([g], outputs - {g});
        if o.Done? {
          outputs := outputs - {g};
        }
      }
    }

    /** A driven line's level. */
    method Set(g: Gpio, level: Level) returns (o: Outcome, ghost n: nat)
      modifies `log, `outputs, `troubles
      ensures troubles == (if o.Done? then old(troubles) else old(troubles) + 1) && old(log) <= log
      ensures outputs == old(outputs)[g := level] && !o.NotSent?
      ensures n <= 1 && log == Bring(old(log), [g], n, outputs, answer) && (o.Done? ==> n == 1)
    {
      outputs := outputs[g := level];
      o, n := Kernel([g], outputs);
    }

    /** A line's level: MISO is what the flash shows; the others what the board does. */
    method Get(g: Gpio) returns (o: Outcome, level: Level)
      modifies `log, `troubles
      ensures troubles == (if o.Done? then old(troubles) else old(troubles) + 1) && old(log) <= log
      ensures !o.NotSent? && log == if o.Done? then old(log) + [Seen(g, level)] else old(log)
      ensures level == if g == MISO then Now(old(log), answer).flash.shown else board(old(log), g)
    {
      if g == MISO {
        level := Now(log, answer).flash.shown;
      } else {
        level := board(log, g);
      }
      if * {
        o := Trouble();
        return;
      }
      o, log := Done, log + [Seen(g, level)];
    }
  }
}
