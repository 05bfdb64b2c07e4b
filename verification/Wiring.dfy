/** The PMOD ribbon probe: walking a 1 across a group of Tiny Tapeout signals from the demo board's RP2. */
module Wiring {

  import opened Bits

  datatype Group = UiIn | Uio | UoOut

  datatype Signal = Signal(group: Group, bit: nat)

  type Gpio = nat

  /** The one input held low through the walks: the factory test drives uio whenever it is high. */
  const KEPT_LOW: Signal := Signal(UiIn, 0)

  // ---- what the RP2's pins do ----

  /** A pin made an output at a level, or an input; the Pi's lines read; the RP2's pins read. */
  datatype Event = Out(s: Signal, level: Level) | In(s: Signal) | Look | Ask

  function DrivenAfter(was: map<Signal, Level>, e: Event): map<Signal, Level> {
    match e
    case Out(s, level) => was[s := level]
    case In(s) => was - {s}
    case Look => was
    case Ask => was
  }

  /** The signals the RP2 drives, after some events. */
  function Driven(log: seq<Event>): map<Signal, Level> {
    if log == [] then map[] else DrivenAfter(Driven(log[..|log| - 1]), log[|log| - 1])
  }

  lemma DrivenNext(log: seq<Event>, e: Event)
    ensures Driven(log + [e]) == DrivenAfter(Driven(log), e)
  {
    assert (log + [e])[..|log|] == log;
  }

  /** Everything the probe does not decide: what the Pi's lines, the driven pin and the RP2's pins read, after
      everything that happened before. */
  datatype World = World(hat: seq<Event> -> Gpio -> Level, back: seq<Event> -> Level,
                         pins: seq<Event> -> Signal -> Level)

  // ---- what a walk may do ----

  /** Only one party drives a net: apart from KEPT_LOW held low, a chosen signal is driven only when no other one is,
      and never while a signal that shares its line is. */
  predicate Alone(driven: map<Signal, Level>, s: Signal, chosen: seq<Signal>, partners: map<Signal, set<Signal>>) {
    && (forall t | t in driven && t in chosen && t != s :: t == KEPT_LOW && driven[t] == 0)
    && (s in partners ==> forall p | p in partners[s] && p != s :: p !in driven)
  }

  predicate Allowed(log: seq<Event>, e: Event, chosen: seq<Signal>, partners: map<Signal, set<Signal>>) {
    e.Out? ==> e == Out(KEPT_LOW, 0) || (e.s in chosen && Alone(Driven(log), e.s, chosen, partners))
  }

  predicate WalkSafe(log: seq<Event>, from: nat, chosen: seq<Signal>, partners: map<Signal, set<Signal>>) {
    forall k | from <= k < |log| :: Allowed(log[..k], log[k], chosen, partners)
  }

  lemma SafeNext(log: seq<Event>, from: nat, e: Event, chosen: seq<Signal>, partners: map<Signal, set<Signal>>)
    requires WalkSafe(log, from, chosen, partners) && Allowed(log, e, chosen, partners)
    ensures WalkSafe(log + [e], from, chosen, partners)
  {
    hide Allowed;
    var more := log + [e];
    forall k | from <= k < |more| ensures Allowed(more[..k], more[k], chosen, partners) {
      if k < |log| {
        assert more[..k] == log[..k] && more[k] == log[k];
      } else {
        assert more[..k] == log;
      }
    }
  }

  /** The chosen signals are inputs, but for KEPT_LOW, which is low if driven. */
  predicate Rested(driven: map<Signal, Level>, chosen: seq<Signal>) {
    forall t | t in driven && t in chosen :: t == KEPT_LOW && driven[t] == 0
  }

  // ---- what a step measures ----

  function Looks(n: nat): seq<Event> { seq(n, _ => Look) }

  /** The events of a step, up to the reading with the signal high, and up to the one with it low. */
  function ToHigh(h: seq<Event>, s: Signal): seq<Event> { h + [Out(s, 1)] + [Look] }

  function AfterHigh(h: seq<Event>, s: Signal, samples: nat): seq<Event> { h + [Out(s, 1)] + Looks(samples) + [Ask] }

  function ToLow(h: seq<Event>, s: Signal, samples: nat): seq<Event> { AfterHigh(h, s, samples) + [Out(s, 0)] + [Look] }

  function AfterLow(h: seq<Event>, s: Signal, samples: nat): seq<Event> {
    AfterHigh(h, s, samples) + [Out(s, 0)] + Looks(samples) + [Ask]
  }

  /** All the events of a signal's pulse. */
  function AfterPulse(w: World, h: seq<Event>, s: Signal, samples: nat): seq<Event> {
    if w.back(h + [Out(s, 1)]) == 1 then AfterLow(h, s, samples) else h + [Out(s, 1)] + [Out(s, 0)]
  }

  /** The lines that read 1 in the high step and 0 in the low one; none if the RP2 did not read its own 1 back. */
  function Observed(w: World, h: seq<Event>, s: Signal, samples: nat, lines: set<Gpio>): set<Gpio> {
    if w.back(h + [Out(s, 1)]) != 1 then {}
    else set g | g in lines && w.hat(ToHigh(h, s))(g) == 1 && w.hat(ToLow(h, s, samples))(g) == 0
  }

  /** The RP2's inputs that followed. */
  function Followers(w: World, h: seq<Event>, s: Signal, samples: nat, all: set<Signal>): set<Signal> {
    if w.back(h + [Out(s, 1)]) != 1 then {}
    else
      set o | o in all && o != s && w.pins(AfterHigh(h, s, samples))(o) == 1
              && w.pins(AfterLow(h, s, samples))(o) == 0
  }

  /** A walk: the events before it, the outputs then, the events after it, when each signal was pulsed, and the
      results. */
  datatype Pass = Pass(before: seq<Event>, outputs: set<Signal>, after: seq<Event>, at: map<Signal, seq<Event>>,
                       observed: map<Signal, set<Gpio>>, follows: map<Signal, set<Signal>>)

  /** What is driven when the i-th signal is pulsed. */
  function DrivenAt(p: Pass, chosen: seq<Signal>, partners: map<Signal, set<Signal>>, i: nat): map<Signal, Level>
    requires i < |chosen|
  {
    Left(Driven(p.before), p.outputs, chosen, partners, i) - PartnersOf(chosen[i], partners)
  }

  /** A line does not read the same at each of n looks. */
  predicate Flickers(w: World, h: seq<Event>, n: nat, g: Gpio) {
    exists k | 0 < k <= n :: w.hat(h + Looks(k))(g) != w.hat(h + [Look])(g)
  }

  /** The lines that did not read the same at the last n looks. */
  ghost predicate Flickered(w: World, log: seq<Event>, n: nat, lines: set<Gpio>) {
    exists h :: log == h + Looks(n) && forall g | g in lines :: Flickers(w, h, n, g)
  }

  /** Done; a broken command; lines that did not hold still; or two walks that disagree, on the results of some
      signals. */
  datatype Outcome = Done | ProtocolError | Unstable(lines: set<Gpio>) | Disagree(signals: set<Signal>)

  // ---- what is driven during a walk ----

  function PartnersOf(s: Signal, partners: map<Signal, set<Signal>>): set<Signal> {
    if s in partners then partners[s] else {}
  }

  /** All partners of the first k. */
  function Released(chosen: seq<Signal>, partners: map<Signal, set<Signal>>, k: nat): set<Signal>
    requires k <= |chosen|
  {
    set i, t | 0 <= i < k && t in PartnersOf(chosen[i], partners) :: t
  }

  /** What is driven between the steps of a walk, k of them done, that began with `driven` and `outputs`: what was and
      is neither chosen nor a partner of a signal already walked; and KEPT_LOW, low if it is chosen or had to be
      released. */
  function Left(driven: map<Signal, Level>, outputs: set<Signal>, chosen: seq<Signal>,
                partners: map<Signal, set<Signal>>,
                k: nat): map<Signal, Level>
    requires k <= |chosen|
  {
    var gone := Released(chosen, partners, k);
    var others := map t | t in driven && t != KEPT_LOW && t !in chosen && t !in gone :: driven[t];
    if KEPT_LOW in chosen || (KEPT_LOW in gone && KEPT_LOW in outputs) then others[KEPT_LOW := 0]
    else if KEPT_LOW in driven then others[KEPT_LOW := driven[KEPT_LOW]]
    else others
  }

  /** What one step leaves driven. */
  function StepLeaves(driven: map<Signal, Level>, outputs: set<Signal>, s: Signal, partners: map<Signal, set<Signal>>)
    : map<Signal, Level>
  {
    var others := driven - PartnersOf(s, partners) - {s};
    if s == KEPT_LOW || (KEPT_LOW in PartnersOf(s, partners) && KEPT_LOW in outputs) then others[KEPT_LOW := 0]
    else others
  }

  lemma LeftNext(driven: map<Signal, Level>, outputs: set<Signal>, now: set<Signal>, chosen: seq<Signal>,
                 partners: map<Signal, set<Signal>>, k: nat)
    requires k < |chosen| && driven.Keys <= outputs && (KEPT_LOW in now <==> KEPT_LOW in outputs || KEPT_LOW in chosen)
    ensures Left(driven, outputs, chosen, partners, k + 1)
         == StepLeaves(Left(driven, outputs, chosen, partners, k), now, chosen[k], partners)
  {
    hide Released, PartnersOf;
    ReleasedNext(chosen, partners, k);
    var a := Left(driven, outputs, chosen, partners, k + 1);
    var b := StepLeaves(Left(driven, outputs, chosen, partners, k), now, chosen[k], partners);
    assert forall t | t != KEPT_LOW :: t in a <==> t in b;
    assert a.Keys == b.Keys;
  }

  /** Resting the signals of `chosen` one after the other. */
  lemma LeftAtRest(driven: map<Signal, Level>, outputs: set<Signal>, chosen: seq<Signal>, s: Signal)
    ensures Left(driven, outputs, [], map[], 0) == driven
    ensures var before := Left(driven, outputs, chosen, map[], 0);
            Left(driven, outputs, chosen + [s], map[], 0) == if s == KEPT_LOW then before[s := 0] else before - {s}
    ensures Rested(Left(driven, outputs, chosen, map[], 0), chosen)
  {
    hide Released;
    NoneYet([], map[]); NoneYet(chosen, map[]); NoneYet(chosen + [s], map[]);
    var before, after := Left(driven, outputs, chosen, map[], 0), Left(driven, outputs, chosen + [s], map[], 0);
    assert s != KEPT_LOW ==> after.Keys == before.Keys - {s};
    assert s == KEPT_LOW ==> after.Keys == before.Keys + {s};
  }

  lemma NoneYet(chosen: seq<Signal>, partners: map<Signal, set<Signal>>)
    ensures Released(chosen, partners, 0) == {}
  {}

  lemma NoneReleased(driven: map<Signal, Level>, outputs: set<Signal>, chosen: seq<Signal>,
                     partners: map<Signal, set<Signal>>)
    ensures Left(driven, outputs, chosen, partners, 0) == Left(driven, outputs, chosen, map[], 0)
    ensures KEPT_LOW in chosen ==> KEPT_LOW in Left(driven, outputs, chosen, partners, 0)
  {
    NoneYet(chosen, partners);
    NoneYet(chosen, map[]);
  }

  lemma ReleasedNext(chosen: seq<Signal>, partners: map<Signal, set<Signal>>, k: nat)
    requires k < |chosen|
    ensures Released(chosen, partners, k + 1) == Released(chosen, partners, k) + PartnersOf(chosen[k], partners)
  {
    hide PartnersOf;
  }

  class Probe {
    const world: World
    const lines: set<Gpio>     // behind the HAT
    const all: set<Signal>     // on the RP2
    const samples: nat
    var outputs: set<Signal>
    var failures: map<Signal, Level>
    var log: seq<Event>
    var broken: nat  // how many commands brought no proper reply

    constructor (world: World, lines: set<Gpio>, all: set<Signal>, samples: nat)
      requires samples > 0
      ensures this.world == world && this.lines == lines && this.all == all && this.samples == samples
      ensures outputs == {} && failures == map[] && log == [] && broken == 0
    {
      this.world, this.lines, this.all, this.samples := world, lines, all, samples;
      outputs, failures, log, broken := {}, map[], [], 0;
    }

    /** A signal's results are what a pulse showed that is among the events of the walk: with no other chosen signal
        driven but KEPT_LOW, low; and, as one of the k first steps, with exactly those signals driven which were before
        the walk and are neither chosen nor a partner of a signal up to this one, but for KEPT_LOW. */
    ghost predicate PulsedBy(p: Pass, s: Signal, chosen: seq<Signal>, partners: map<Signal, set<Signal>>, k: nat)
      requires k <= |chosen| && s in p.at && s in p.observed && s in p.follows
    {
      var h := p.at[s];
      && p.before <= h && AfterPulse(world, h, s, samples) <= p.after && Alone(Driven(h), s, chosen, partners)
      && p.observed[s] == Observed(world, h, s, samples, lines) && p.follows[s] == Followers(world, h, s, samples, all)
      && exists i | 0 <= i < k :: chosen[i] == s && Driven(h) == DrivenAt(p, chosen, partners, i)
    }

    /** What the results of a walk's first k steps are, and what it leaves driven. */
    ghost predicate Made(p: Pass, chosen: seq<Signal>, partners: map<Signal, set<Signal>>, k: nat)
      requires k <= |chosen|
    {
      && p.observed.Keys == p.follows.Keys == p.at.Keys == (set s | s in chosen[..k])
      && Driven(p.after) == Left(Driven(p.before), p.outputs, chosen, partners, k)
      && forall s | s in p.at :: PulsedBy(p, s, chosen, partners, k)
    }

    /** A walk with one step more than another. */
    ghost predicate Longer(p: Pass, q: Pass, s: Signal, h: seq<Event>) {
      && q.before == p.before && q.outputs == p.outputs && p.after <= q.after && q.at == p.at[s := h]
      && q.observed == p.observed[s := Observed(world, h, s, samples, lines)]
      && q.follows == p.follows[s := Followers(world, h, s, samples, all)]
      && p.before <= h && AfterPulse(world, h, s, samples) <= q.after
    }

    lemma StillPulsed(p: Pass, q: Pass, s: Signal, h: seq<Event>, t: Signal, chosen: seq<Signal>,
                      partners: map<Signal, set<Signal>>, k: nat)
      requires k < |chosen| && Longer(p, q, s, h) && t != s && t in p.at && t in p.observed && t in p.follows
      requires PulsedBy(p, t, chosen, partners, k)
      ensures PulsedBy(q, t, chosen, partners, k + 1)
    {
      hide Driven, Left, AfterPulse, Observed, Followers, Alone, PartnersOf;
      var i :| 0 <= i < k && chosen[i] == t && Driven(p.at[t]) == DrivenAt(p, chosen, partners, i);
      assert DrivenAt(q, chosen, partners, i) == DrivenAt(p, chosen, partners, i);
    }

    lemma MadeNext(p: Pass, q: Pass, h: seq<Event>, chosen: seq<Signal>, partners: map<Signal, set<Signal>>, k: nat)
      requires k < |chosen| && Made(p, chosen, partners, k) && Longer(p, q, chosen[k], h)
      requires Alone(Driven(h), chosen[k], chosen, partners) && Driven(h) == DrivenAt(p, chosen, partners, k)
      requires Driven(q.after) == Left(Driven(q.before), q.outputs, chosen, partners, k + 1)
      ensures Made(q, chosen, partners, k + 1)
    {
      hide Driven, Left, Alone, DrivenAt, PulsedBy;
      var s := chosen[k];
      assert chosen[..k + 1] == chosen[..k] + [s];
      assert PulsedBy(q, s, chosen, partners, k + 1) by { NowPulsed(p, q, h, chosen, partners, k); }
      forall t | t in q.at && t != s ensures PulsedBy(q, t, chosen, partners, k + 1) {
        StillPulsed(p, q, s, h, t, chosen, partners, k);
      }
    }

    lemma NowPulsed(p: Pass, q: Pass, h: seq<Event>, chosen: seq<Signal>, partners: map<Signal, set<Signal>>, k: nat)
      requires k < |chosen| && Longer(p, q, chosen[k], h)
      requires Alone(Driven(h), chosen[k], chosen, partners) && Driven(h) == DrivenAt(p, chosen, partners, k)
      ensures PulsedBy(q, chosen[k], chosen, partners, k + 1)
    {
      hide Driven, Left, Alone, AfterPulse, Observed, Followers, PartnersOf;
      assert DrivenAt(q, chosen, partners, k) == DrivenAt(p, chosen, partners, k);
    }

    /** Whatever the RP2 drives is in `outputs`. */
    predicate Covered()
      reads `log, `outputs
    {
      forall s | s in Driven(log) :: s in outputs
    }

    /** A command to the RP2: it may fail before or after it took. */
    method Command(e: Event) returns (o: Outcome)
      modifies `log, `broken
      ensures o == if broken == old(broken) then Done else ProtocolError
      ensures old(broken) <= broken && (log == old(log) + [e] || (log == old(log) && !o.Done?))
    {
      if * {
        broken := broken + 1;
        return ProtocolError;
      }
      log := log + [e];
      if * {
        broken := broken + 1;
        return ProtocolError;
      }
      return Done;
    }

    /** What every outcome means: no error without a broken command, none unstable but on a line that was. */
    twostate predicate Explained(o: Outcome)
      reads this
    {
      && old(log) <= log && old(broken) <= broken && !o.Disagree? && (o.ProtocolError? ==> old(broken) < broken)
      && (o.Unstable? ==> Flickered(world, log, samples, o.lines) && o.lines <= lines && o.lines != {})
    }

    /** A command that makes a pin an input. */
    method MakeInput(s: Signal) returns (o: Outcome)
      modifies `log, `outputs, `broken
      ensures !o.Unstable? && Explained(o) && (log == old(log) || log == old(log) + [In(s)])
      ensures o.Done? ==> log == old(log) + [In(s)] && outputs == old(outputs) - {s}
      ensures !o.Done? ==> outputs == old(outputs)
    {
      o := Command(In(s));
      if !o.Done? { return; }
      outputs := outputs - {s};
      return Done;
    }

    /** drive: the pin an output, and whether the RP2 reads back what it drove. */
    method Drive(s: Signal, level: Level) returns (o: Outcome, took: bool)
      modifies `log, `outputs, `failures, `broken
      ensures !o.Unstable? && Explained(o) && (log == old(log) || log == old(log) + [Out(s, level)])
      ensures o.Done? ==> log == old(log) + [Out(s, level)] && outputs == old(outputs) + {s}
      ensures o.Done? ==> (took <==> world.back(log) == level)
      ensures !o.Done? ==> outputs == old(outputs)
      ensures failures == if o.Done? && !took then old(failures)[s := world.back(log)] else old(failures)
    {
      took := false;
      o := Command(Out(s, level));
      if !o.Done? { return; }
      outputs := outputs + {s};
      var got := world.back(log);
      took := got == level;
      if !took {
        failures := failures[s := got];
      }
      return Done, took;
    }

    /** The lines read `samples` times, which must agree. */
    method Sample() returns (o: Outcome, reading: Gpio -> Level)
      requires samples > 0
      modifies `log
      ensures o.Done? ==> log == old(log) + Looks(samples) && reading == world.hat(old(log) + [Look])
      ensures log == old(log) + Looks(samples) && Explained(o)
      ensures var unsteady := set g | g in lines && Flickers(world, old(log), samples, g);
              o == if unsteady == {} then Done else Unstable(unsteady)
    {
      var first := world.hat(log + [Look]);
      reading := first;
      var changing: set<Gpio> := {};
      assert log == old(log) + Looks(0);
      for k := 0 to samples
        invariant log == old(log) + Looks(k)
        invariant changing == set g | g in lines && Flickers(world, old(log), k, g)
      {
        assert Looks(k + 1) == Looks(k) + [Look];
        log := log + [Look];
        var now := world.hat(log);
        changing := changing + set g | g in lines && now(g) != first(g);
      }
      if changing != {} {
        var g :| g in changing;
        assert Flickers(world, old(log), samples, g);
        return Unstable(changing), reading;
      }
      o := Done;
    }

    /** readall: the RP2's pins. */
    method ReadPins() returns (o: Outcome, reading: Signal -> Level)
      modifies `log, `broken
      ensures !o.Unstable? && Explained(o) && (log == old(log) || log == old(log) + [Ask])
      ensures o.Done? ==> log == old(log) + [Ask] && reading == world.pins(log)
    {
      reading := world.pins(log);
      o := Command(Ask);
      if !o.Done? { return; }
      reading := world.pins(log);
      return Done, reading;
    }

    /** What holds between the steps of a walk that began after `from` events. */
    predicate Walking(from: nat, chosen: seq<Signal>, partners: map<Signal, set<Signal>>)
      reads `log, `outputs
    {
      && samples > 0 && from <= |log| && Covered() && WalkSafe(log, from, chosen, partners)
      && Rested(Driven(log), chosen)
      && (KEPT_LOW in chosen ==> KEPT_LOW in Driven(log))
    }

    /** Before the steps: every chosen signal an input, KEPT_LOW low. */
    method Rest(ghost from: nat, chosen: seq<Signal>, partners: map<Signal, set<Signal>>) returns (o: Outcome)
      requires samples > 0 && Covered() && from == |log|
      modifies `log, `outputs, `failures, `broken
      ensures from <= |log| && WalkSafe(log, from, chosen, partners) && Explained(o)
      ensures o.Done? ==> Walking(from, chosen, partners)
      ensures o.Done? ==> Driven(log) == Left(old(Driven(log)), old(outputs), chosen, partners, 0)
      ensures o.Done? ==> (KEPT_LOW in outputs <==> KEPT_LOW in old(outputs) || KEPT_LOW in chosen)
    {
      hide Driven, Flickered, Left;
      o := Done;
      ghost var driven, outs := Driven(log), outputs;
      LeftAtRest(driven, outs, [], KEPT_LOW);
      for k := 0 to |chosen|
        invariant from <= |log| && WalkSafe(log, from, chosen, partners) && o.Done? && Covered()
        invariant old(broken) <= broken
        invariant old(log) <= log && Driven(log) == Left(driven, outs, chosen[..k], map[], 0)
        invariant KEPT_LOW in outputs <==> KEPT_LOW in old(outputs) || KEPT_LOW in chosen[..k]
      {
        var s := chosen[k];
        ghost var was := log;
        assert chosen[..k + 1] == chosen[..k] + [s];
        LeftAtRest(driven, outs, chosen[..k], s);
        if s == KEPT_LOW {
          var took;
          o, took := Drive(s, 0);
          OneStep(was, log, from, Out(s, 0), chosen, partners);
          if !o.Done? { return; }
        } else if s in outputs {
          o := MakeInput(s);
          OneStep(was, log, from, In(s), chosen, partners);
          if !o.Done? { return; }
        }
      }
      assert chosen[..|chosen|] == chosen;
      LeftAtRest(driven, outs, chosen, KEPT_LOW);
      NoneReleased(driven, outs, chosen, partners);
    }

    /** The signals sharing s's line, as inputs. */
    method ReleasePartners(s: Signal, ghost from: nat, chosen: seq<Signal>, partners: map<Signal, set<Signal>>)
      returns (o: Outcome, released: set<Signal>)
      requires Walking(from, chosen, partners)
      modifies `log, `outputs, `broken
      ensures from <= |log| && WalkSafe(log, from, chosen, partners) && Explained(o)
      ensures o.Done? ==> Covered() && Rested(Driven(log), chosen)
      ensures o.Done? ==> released == PartnersOf(s, partners) * old(outputs) && outputs == old(outputs) - released
      ensures o.Done? ==> Driven(log) == old(Driven(log)) - PartnersOf(s, partners)
    {
      hide Driven, Flickered;
      o, released := Done, {};
      var left := PartnersOf(s, partners) * outputs;
      ghost var whole, driven := left, Driven(log);
      while left != {}
        invariant o.Done? && from <= |log| && WalkSafe(log, from, chosen, partners) && Covered()
        invariant old(broken) <= broken
        invariant released + left == whole && outputs == old(outputs) - released && old(log) <= log
        invariant Driven(log) == driven - released
        decreases left
      {
        var p :| p in left;
        ghost var was := log;
        o := MakeInput(p);
        OneStep(was, log, from, In(p), chosen, partners);
        if !o.Done? { return; }
        left, released := left - {p}, released + {p};
      }
      assert driven - released == driven - PartnersOf(s, partners);
    }

    /** Both sides read: the Pi's lines, then the RP2's pins. */
    method ReadBoth(ghost from: nat, chosen: seq<Signal>, partners: map<Signal, set<Signal>>)
      returns (o: Outcome, hat: Gpio -> Level, pins: Signal -> Level)
      requires samples > 0 && from <= |log| && WalkSafe(log, from, chosen, partners) && Covered()
      modifies `log, `broken
      ensures from <= |log| && WalkSafe(log, from, chosen, partners) && Explained(o) && Covered()
      ensures o.Done? ==> log == old(log) + Looks(samples) + [Ask] && Driven(log) == Driven(old(log))
      ensures o.Done? ==> hat == world.hat(old(log) + [Look]) && pins == world.pins(log)
    {
      hide Driven, Flickered, WalkSafe, Looks;
      ghost var was := log;
      pins := world.pins(log);
      o, hat := Sample();
      LooksSafe(was, log, samples, from, chosen, partners);
      if !o.Done? { return; }
      was := log;
      o, pins := ReadPins();
      OneStep(was, log, from, Ask, chosen, partners);
    }

    /** The two readings of a step in which the RP2 reads its own 1 back. */
    method Measure(s: Signal, ghost from: nat, chosen: seq<Signal>, partners: map<Signal, set<Signal>>,
                   ghost h: seq<Event>)
      returns (o: Outcome, seen: set<Gpio>, followers: set<Signal>)
      requires samples > 0 && from <= |h| && log == h + [Out(s, 1)] && s in outputs && Covered() && s in chosen
      requires WalkSafe(log, from, chosen, partners) && Alone(Driven(h), s, chosen, partners) && world.back(log) == 1
      modifies `log, `outputs, `failures, `broken
      ensures from <= |log| && WalkSafe(log, from, chosen, partners) && Explained(o)
      ensures o.Done? ==> Covered() && Driven(log) == Driven(h)[s := 0]
      ensures o.Done? ==> log == AfterLow(h, s, samples) && outputs == old(outputs)
      ensures o.Done? ==>
                seen == Observed(world, h, s, samples, lines) && followers == Followers(world, h, s, samples, all)
    {
      hide Driven, Flickered, WalkSafe, Looks, Alone;
      seen, followers := {}, {};
      DrivenNext(h, Out(s, 1));
      var high, pinsHigh, low, pinsLow, took;
      o, high, pinsHigh := ReadBoth(from, chosen, partners);
      if !o.Done? { return; }
      assert log == AfterHigh(h, s, samples);
      ghost var was := log;
      AloneLow(h, was, s, chosen, partners);
      o, took := Drive(s, 0);
      OneStep(was, log, from, Out(s, 0), chosen, partners);
      if !o.Done? { return; }
      o, low, pinsLow := ReadBoth(from, chosen, partners);
      if !o.Done? { return; }
      assert log == AfterLow(h, s, samples);
      seen := set g | g in lines && high(g) == 1 && low(g) == 0;
      followers := set t | t in all && t != s && pinsHigh(t) == 1 && pinsLow(t) == 0;
    }

    /** s driven high, then low, and what followed. */
    method Pulse(s: Signal, ghost from: nat, chosen: seq<Signal>, partners: map<Signal, set<Signal>>)
      returns (o: Outcome, seen: set<Gpio>, followers: set<Signal>)
      requires samples > 0 && from <= |log| && Covered() && WalkSafe(log, from, chosen, partners) && s in chosen
      requires Alone(Driven(log), s, chosen, partners)
      modifies `log, `outputs, `failures, `broken
      ensures from <= |log| && WalkSafe(log, from, chosen, partners) && Explained(o)
      ensures o.Done? ==> Covered() && Driven(log) == old(Driven(log))[s := 0]
      ensures o.Done? ==> log == AfterPulse(world, old(log), s, samples) && outputs == old(outputs) + {s}
      ensures o.Done? ==> seen == Observed(world, old(log), s, samples, lines)
      ensures o.Done? ==> followers == Followers(world, old(log), s, samples, all)
    {
      hide Driven, Flickered, WalkSafe, Alone, Looks;
      seen, followers := {}, {};
      ghost var h := log;
      var took;
      o, took := Drive(s, 1);
      OneStep(h, log, from, Out(s, 1), chosen, partners);
      if !o.Done? { return; }
      if took {
        o, seen, followers := Measure(s, from, chosen, partners, h);
      } else {
        ghost var was := log;
        AloneLow(h, was, s, chosen, partners);
        o, took := Drive(s, 0);
        OneStep(was, log, from, Out(s, 0), chosen, partners);
      }
    }

    /** After a pulse: s an input unless it is KEPT_LOW, and KEPT_LOW low again if it had been released. */
    method Leave(s: Signal, again: bool, ghost from: nat, chosen: seq<Signal>, partners: map<Signal, set<Signal>>)
      returns (o: Outcome)
      requires samples > 0 && from <= |log| && Covered() && WalkSafe(log, from, chosen, partners)
      requires s in Driven(log) && Driven(log)[s] == 0 && Rested(Driven(log) - {s}, chosen)
      requires KEPT_LOW in chosen ==> again || KEPT_LOW in Driven(log)
      modifies `log, `outputs, `failures, `broken
      ensures from <= |log| && WalkSafe(log, from, chosen, partners) && Explained(o)
      ensures o.Done? ==> Walking(from, chosen, partners)
      ensures o.Done? ==> var rest := if s == KEPT_LOW then old(Driven(log)) else old(Driven(log)) - {s};
                          Driven(log) == if again then rest[KEPT_LOW := 0] else rest
      ensures o.Done? ==> (KEPT_LOW in outputs <==> KEPT_LOW in old(outputs) || again)
    {
      hide Driven, Flickered, WalkSafe;
      o := Done;
      ghost var was := log;
      if s != KEPT_LOW {
        o := MakeInput(s);
        OneStep(was, log, from, In(s), chosen, partners);
        if !o.Done? { return; }
      }
      if again {
        was := log;
        var took;
        o, took := Drive(KEPT_LOW, 0);
        OneStep(was, log, from, Out(KEPT_LOW, 0), chosen, partners);
      }
    }

    /** One step of the walk. */
    method StepOne(s: Signal, ghost from: nat, chosen: seq<Signal>, partners: map<Signal, set<Signal>>)
      returns (o: Outcome, seen: set<Gpio>, followers: set<Signal>, ghost h: seq<Event>)
      requires Walking(from, chosen, partners) && s in chosen
      modifies `log, `outputs, `failures, `broken
      ensures from <= |log| && WalkSafe(log, from, chosen, partners) && Explained(o)
      ensures o.Done? ==> Walking(from, chosen, partners) && Alone(Driven(h), s, chosen, partners)
      ensures o.Done? ==> old(log) <= h && AfterPulse(world, h, s, samples) <= log
      ensures o.Done? ==> Driven(h) == old(Driven(log)) - PartnersOf(s, partners)
      ensures o.Done? ==> Driven(log) == StepLeaves(old(Driven(log)), old(outputs), s, partners)
      ensures o.Done? ==> (KEPT_LOW in outputs <==> KEPT_LOW in old(outputs) || s == KEPT_LOW)
      ensures o.Done? ==>
                seen == Observed(world, h, s, samples, lines) && followers == Followers(world, h, s, samples, all)
    {
      hide Driven, Flickered, WalkSafe, Observed, Followers, AfterPulse;
      seen, followers := {}, {};
      h := log;
      var released;
      o, released := ReleasePartners(s, from, chosen, partners);
      if !o.Done? { return; }
      h := log;
      o, seen, followers := Pulse(s, from, chosen, partners);
      if !o.Done? { return; }
      o := Leave(s, KEPT_LOW in released, from, chosen, partners);
    }

    /** walk. Whatever replies come, and wherever it fails, every event was allowed; it fails only for a broken
        command or a line that changed between two looks. When it does not fail, the chosen signals are left as
        inputs, KEPT_LOW low, and the results are what the signals' own pulses showed. */
    method Walk(chosen: seq<Signal>, partners: map<Signal, set<Signal>>)
      returns (o: Outcome, observed: map<Signal, set<Gpio>>, follows: map<Signal, set<Signal>>, ghost pass: Pass)
      requires samples > 0 && Covered()
      modifies `log, `outputs, `failures, `broken
      ensures WalkSafe(log, |old(log)|, chosen, partners) && Explained(o)
      ensures o.Done? ==> Walking(|old(log)|, chosen, partners)
      ensures o.Done? ==> pass.before == old(log) && pass.outputs == old(outputs) && pass.after == log
      ensures o.Done? ==> pass.observed == observed && pass.follows == follows
      ensures o.Done? ==> Made(pass, chosen, partners, |chosen|)
    {
      hide Driven, Flickered, WalkSafe, Alone, Rested, Left, AfterPulse, Observed, Followers, PulsedBy, PartnersOf;
      observed, follows, pass := map[], map[], Pass(log, outputs, log, map[], map[], map[]);
      ghost var from := |log|;
      o := Rest(from, chosen, partners);
      if !o.Done? { return; }
      ghost var was := log;
      var baseline;
      o, baseline := Sample();
      LooksSafe(was, log, samples, from, chosen, partners);
      if !o.Done? { return; }
      pass := pass.(after := log);
      for k := 0 to |chosen|
        invariant o.Done? && Walking(from, chosen, partners) && old(broken) <= broken
        invariant KEPT_LOW in outputs <==> KEPT_LOW in pass.outputs || KEPT_LOW in chosen
        invariant pass.before == old(log) <= log && pass.outputs == old(outputs) && pass.after == log
        invariant pass.observed == observed && pass.follows == follows && Made(pass, chosen, partners, k)
      {
        var s := chosen[k];
        LeftNext(Driven(pass.before), pass.outputs, outputs, chosen, partners, k);
        var seen, followers;
        ghost var h;
        o, seen, followers, h := StepOne(s, from, chosen, partners);
        if !o.Done? { return; }
        observed, follows := observed[s := seen], follows[s := followers];
        ghost var next := Pass(pass.before, pass.outputs, log, pass.at[s := h], observed, follows);
        MadeNext(pass, next, h, chosen, partners, k);
        pass := next;
      }
      assert chosen[..|chosen|] == chosen;
    }

    /** walk_twice: both walks must find the same. It disagrees on exactly the signals they do. */
    method WalkTwice(chosen: seq<Signal>, partners: map<Signal, set<Signal>>)
      returns (o: Outcome, observed: map<Signal, set<Gpio>>, follows: map<Signal, set<Signal>>, ghost one: Pass,
               ghost two: Pass)
      requires samples > 0 && Covered()
      modifies `log, `outputs, `failures, `broken
      ensures WalkSafe(log, |old(log)|, chosen, partners) && (o.Disagree? || Explained(o))
      ensures o.Done? ==> Walking(|old(log)|, chosen, partners) && observed == one.observed && follows == one.follows
      ensures o.Done? || o.Disagree? ==>
                && one.before == old(log) <= one.after == two.before <= two.after == log && one.outputs == old(outputs)
                && Made(one, chosen, partners, |chosen|) && Made(two, chosen, partners, |chosen|)
                && var differ :=
                     set s | s in chosen && (one.observed[s] != two.observed[s] || one.follows[s] != two.follows[s]);
                   o == if differ == {} then Done else Disagree(differ)
    {
      hide Driven, Flickered, WalkSafe, Rested, Left, PulsedBy;
      assert chosen[..|chosen|] == chosen;
      two := Pass(log, outputs, log, map[], map[], map[]);
      o, observed, follows, one := Walk(chosen, partners);
      if !o.Done? { return; }
      ghost var was := log;
      var observed2, follows2;
      o, observed2, follows2, two := Walk(chosen, partners);
      StillSafe(was, log, |old(log)|, chosen, partners);
      if !o.Done? { return; }
      var differ := set s | s in chosen && (observed[s] != observed2[s] || follows[s] != follows2[s]);
      if differ != {} {
        o := Disagree(differ);
      }
    }
  }

  /** Safe up to a point, and from there on. */
  lemma StillSafe(was: seq<Event>, log: seq<Event>, from: nat, chosen: seq<Signal>, partners: map<Signal, set<Signal>>)
    requires from <= |was| && was <= log && WalkSafe(was, from, chosen, partners)
    requires WalkSafe(log, |was|, chosen, partners)
    ensures WalkSafe(log, from, chosen, partners)
  {
    hide Allowed;
    forall k | from <= k < |log| ensures Allowed(log[..k], log[k], chosen, partners) {
      if k < |was| {
        assert log[..k] == was[..k] && log[k] == was[k];
      }
    }
  }

  lemma {:induction false} LooksChangeNothing(log: seq<Event>, n: nat, from: nat, chosen: seq<Signal>,
                                              partners: map<Signal, set<Signal>>)
    requires from <= |log|
    ensures Driven(log + Looks(n)) == Driven(log)
    ensures WalkSafe(log, from, chosen, partners) ==> WalkSafe(log + Looks(n), from, chosen, partners)
  {
    hide Driven, WalkSafe;
    if n == 0 {
      assert log + Looks(0) == log;
    } else {
      LooksChangeNothing(log, n - 1, from, chosen, partners);
      assert log + Looks(n) == log + Looks(n - 1) + [Look];
      DrivenNext(log + Looks(n - 1), Look);
      if WalkSafe(log, from, chosen, partners) {
        SafeNext(log + Looks(n - 1), from, Look, chosen, partners);
      }
    }
  }

  /** One more event, or none: still safe. */
  lemma OneStep(was: seq<Event>, now: seq<Event>, from: nat, e: Event, chosen: seq<Signal>,
                partners: map<Signal, set<Signal>>)
    requires WalkSafe(was, from, chosen, partners) && Allowed(was, e, chosen, partners)
    requires (now == was || now == was + [e])
    ensures WalkSafe(now, from, chosen, partners)
    ensures now == was + [e] ==> Driven(now) == DrivenAfter(Driven(was), e)
  {
    hide Driven, WalkSafe, Allowed;
    SafeNext(was, from, e, chosen, partners);
    DrivenNext(was, e);
  }

  lemma LooksSafe(was: seq<Event>, now: seq<Event>, samples: nat, from: nat, chosen: seq<Signal>,
                  partners: map<Signal, set<Signal>>)
    requires from <= |was| && WalkSafe(was, from, chosen, partners)
    requires exists n | 0 <= n <= samples :: now == was + Looks(n)
    ensures WalkSafe(now, from, chosen, partners) && Driven(now) == Driven(was)
  {
    hide Driven, WalkSafe;
    var n :| 0 <= n <= samples && now == was + Looks(n);
    LooksChangeNothing(was, n, from, chosen, partners);
  }

  /** Driving it low after driving it high is allowed for the same reasons. */
  lemma AloneLow(h: seq<Event>, was: seq<Event>, s: Signal, chosen: seq<Signal>, partners: map<Signal, set<Signal>>)
    requires Alone(Driven(h), s, chosen, partners) && Driven(was) == Driven(h)[s := 1] && s in chosen
    ensures Allowed(was, Out(s, 0), chosen, partners)
  {}
}
