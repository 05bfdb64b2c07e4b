/** The 7-series DNA reader: its registers clock by clock, against the DNA_PORT primitive with any routing delay shorter
    than half a port clock. */
module DnaReader {
  import opened Bits

  const NBITS: nat := 57

  /** The registers. */
  datatype Regs = Regs(tick: nat, clk: bool, bits: nat, value: nat, loaded: bool, finished: bool)

  const RESET: Regs := Regs(0, false, 0, 0, false, false)

  /** The port's inputs: from the reader, or from the host in manual mode. */
  datatype Pins = Pins(clk: bool, read: bool, shift: bool)

  datatype Manual = Manual(enable: bool, pins: Pins)

  function PinsOf(r: Regs, manual: Manual): Pins {
    if manual.enable then manual.pins else Pins(r.clk, !r.loaded, r.loaded)
  }

  function Step(half: nat, r: Regs, dout: Level): Regs {
    if r.finished then r.(tick := 0)
    else if r.tick != half - 1 then r.(tick := r.tick + 1)
    else if !r.clk then r.(tick := 0, clk := true)
    else Regs(0, false, r.bits + 1, (2 * r.value + dout) % Pow2(NBITS), true, r.bits == NBITS - 1)
  }

  class Reader {
    const half: nat
    var tick: nat
    var clk: bool
    var bits: nat
    var value: nat
    var loaded: bool
    var finished: bool

    function Now(): Regs
      reads this
    {
      Regs(tick, clk, bits, value, loaded, finished)
    }

    /** half: cycles of the system clock in half a port clock, at least 2. */
    constructor (half: nat)
      ensures this.half == (if half < 2 then 2 else half) && Now() == RESET
    {
      this.half := if half < 2 then 2 else half;
      tick, clk, bits, value, loaded, finished := 0, false, 0, 0, false, false;
    }

    method Clock(dout: Level)
      modifies this
      ensures Now() == Step(half, old(Now()), dout)
    {
      if finished {
        tick := 0;
        return;
      }
      var last := tick == half - 1;
      var was := clk;
      tick := if last then 0 else tick + 1;
      if last {
        clk := !clk;
        if was {
          loaded := true;
          value := (2 * value + dout) % Pow2(NBITS);
          if bits == NBITS - 1 {
            finished := true;
          }
          bits := bits + 1;
        }
      }
    }
  }

  // ---- the primitive ----

  /** DNA_PORT: READ loads its register on a rising clock, SHIFT moves the next bit to DOUT, zeros after the last.
      clocks: the rising edges so far. age: cycles since the last. */
  datatype Port = Port(dna: seq<Level>, at: nat, clocks: nat, age: nat)

  function PortStep(p: Port, was: Pins, now: Pins): Port {
    if !was.clk && now.clk then
      p.(at := if was.read then 0 else if was.shift then p.at + 1 else p.at, clocks := p.clocks + 1, age := 0)
    else p.(age := p.age + 1)
  }

  function PortBit(p: Port): Level { if p.at < |p.dna| then p.dna[p.at] else 0 }

  /** What reaches the reader: anything until `delay` cycles after an edge, and before the first. */
  function Dout(p: Port, delay: nat, noise: Level): Level {
    if p.clocks == 0 || p.age < delay then noise else PortBit(p)
  }

  datatype World = World(regs: Regs, port: Port)

  datatype Setting = Setting(half: nat, delay: nat, dna: seq<Level>, noise: nat -> Level, manual: nat -> Manual)

  predicate Sensible(x: Setting) { x.half >= 2 && x.delay < x.half && |x.dna| == NBITS }

  /** The host leaves the port to the reader for the first t cycles. */
  predicate LeftToReader(x: Setting, t: nat) { forall u: nat | u <= t :: !x.manual(u).enable }

  function WorldStep(x: Setting, w: World, t: nat): World {
    var regs := Step(x.half, w.regs, Dout(w.port, x.delay, x.noise(t)));
    World(regs, PortStep(w.port, PinsOf(w.regs, x.manual(t)), PinsOf(regs, x.manual(t + 1))))
  }

  /** The reader and the port after t cycles. */
  function After(x: Setting, t: nat): World {
    if t == 0 then World(RESET, Port(x.dna, 0, 0, 0)) else WorldStep(x, After(x, t - 1), t - 1)
  }

  // ---- the theorem ----

  /** After q whole half periods and r cycles of the next. */
  predicate Reading(x: Setting, w: World, q: nat, r: nat)
    requires Sensible(x)
  {
    && w.regs == Regs(r, q % 2 == 1, q / 2, FromBits(x.dna[..if q / 2 <= NBITS then q / 2 else 0]), q >= 2,
                      q == 2 * NBITS)
    && w.port.dna == x.dna && w.port.clocks == (q + 1) / 2
    && (q > 0 ==> w.port.at == (q + 1) / 2 - 1) && (q % 2 == 1 ==> w.port.age == r)
  }

  lemma TakesBit(x: Setting, k: nat)
    requires Sensible(x) && k < NBITS
    ensures (2 * FromBits(x.dna[..k]) + x.dna[k]) % Pow2(NBITS) == FromBits(x.dna[..k + 1])
  {
    hide FromBits, Pow2;
    assert x.dna[..k + 1] == x.dna[..k] + [x.dna[k]];
    MoreBits(x.dna[..k], x.dna[k]);
    FromBitsBound(x.dna[..k + 1]);
    PowGrows(k + 1, NBITS);
    Peel(0, FromBits(x.dna[..k + 1]), Pow2(NBITS));
  }

  lemma {:induction false} PowGrows(j: nat, k: nat)
    requires j <= k
    ensures Pow2(j) <= Pow2(k)
    decreases k
  {
    if j < k {
      PowGrows(j, k - 1);
    }
  }

  lemma ReadingStep(x: Setting, w: World, q: nat, r: nat, t: nat)
    requires Sensible(x) && q < 2 * NBITS && r < x.half && Reading(x, w, q, r)
    requires !x.manual(t).enable && !x.manual(t + 1).enable
    ensures if r < x.half - 1 then Reading(x, WorldStep(x, w, t), q, r + 1)
            else Reading(x, WorldStep(x, w, t), q + 1, 0)
  {
    hide FromBits, Pow2;
    if r == x.half - 1 && q % 2 == 1 {
      TakesBit(x, q / 2);
    }
  }

  lemma {:induction false} ReadingAt(x: Setting, q: nat, r: nat)
    requires Sensible(x) && r < x.half && (q < 2 * NBITS || (q == 2 * NBITS && r == 0))
    requires LeftToReader(x, q * x.half + r)
    ensures Reading(x, After(x, q * x.half + r), q, r)
    decreases q, r
  {
    hide Reading, WorldStep, After, Sensible;
    if r > 0 {
      var t := q * x.half + (r - 1);
      ReadingAt(x, q, r - 1);
      ReadingStep(x, After(x, t), q, r - 1, t);
      AfterNext(x, t);
    } else if q > 0 {
      var t := (q - 1) * x.half + (x.half - 1);
      assert q * x.half == t + 1;
      ReadingAt(x, q - 1, x.half - 1);
      ReadingStep(x, After(x, t), q - 1, x.half - 1, t);
      AfterNext(x, t);
    } else {
      FirstReading(x);
    }
  }

  lemma FirstReading(x: Setting)
    requires Sensible(x)
    ensures Reading(x, After(x, 0), 0, 0)
  {
    assert x.dna[..0] == [];
  }

  /** How long it takes: 57 port clocks. */
  function Duration(x: Setting): nat { 2 * NBITS * x.half }

  lemma {:induction false} Stays(x: Setting, t: nat)
    requires Sensible(x) && t >= Duration(x) && LeftToReader(x, t)
    ensures After(x, t).regs == Regs(0, false, NBITS, FromBits(x.dna), true, true)
    ensures After(x, t).port.clocks == NBITS
    decreases t
  {
    hide FromBits;
    if t == Duration(x) {
      ReadingAt(x, 2 * NBITS, 0);
      assert x.dna[..NBITS] == x.dna;
    } else {
      Stays(x, t - 1);
    }
  }

  lemma NotYet(x: Setting, t: nat)
    requires Sensible(x) && t < Duration(x) && LeftToReader(x, t)
    ensures !After(x, t).regs.finished
  {
    hide FromBits, WorldStep;
    var q, r := t / x.half, t % x.half;
    assert q * x.half + r == t;
    QuotientBelow(t, x.half, 2 * NBITS);
    ReadingAt(x, q, r);
  }

  lemma QuotientBelow(t: nat, h: nat, n: nat)
    requires h > 0 && t < n * h
    ensures t / h < n
  {}

  /** For every half period, every DNA, every delay shorter than half a port clock and whatever DOUT does meanwhile:
      the reader is done after exactly 57 port clocks and no sooner; its value is then the DNA, first bit in the MSB,
      and that, its clock and its count never change again. */
  lemma ReadsDna(x: Setting, t: nat)
    requires Sensible(x) && LeftToReader(x, t)
    ensures After(x, t).regs.finished <==> t >= 57 * (2 * x.half)
    ensures t >= 57 * (2 * x.half) ==> After(x, t).regs.value == FromBits(x.dna) && !After(x, t).regs.clk
    ensures t >= 57 * (2 * x.half) ==> After(x, t).port.clocks == 57 == |x.dna|
  {
    hide FromBits, After;
    if t < Duration(x) {
      NotYet(x, t);
    } else {
      Stays(x, t);
    }
  }

  /** Two DNAs never read alike. */
  lemma {:induction false} DnaIsValue(a: seq<Level>, b: seq<Level>)
    requires |a| == |b| && FromBits(a) == FromBits(b)
    ensures a == b
    decreases |a|
  {
    if a != [] {
      var n := |a| - 1;
      DnaIsValue(a[..n], b[..n]);
      assert a == a[..n] + [a[n]] && b == b[..n] + [b[n]];
    }
  }

  /** The exact limit: with DOUT unsettled for a whole half period, some DNA can be read wrong. */
  lemma DelayBoundIsSharp(x: Setting)
    requires x.half >= 2 && x.delay == x.half && |x.dna| == NBITS && x.dna[0] == 1
    requires LeftToReader(x, 2 * x.half) && forall t: nat :: x.noise(t) == 0
    ensures After(x, 2 * x.half).regs.value == 0 && After(x, 2 * x.half).regs.bits == 1
  {
    hide After, Pow2, FromBits;
    var t := 2 * x.half - 1;
    Unread(x, t);
    AfterNext(x, t);
    assert 0 % Pow2(NBITS) == 0;
  }

  lemma AfterNext(x: Setting, t: nat)
    ensures After(x, t + 1) == WorldStep(x, After(x, t), t)
  {}

  lemma {:induction false} Unread(x: Setting, t: nat)
    requires x.half >= 2 && x.delay == x.half && |x.dna| == NBITS && t < 2 * x.half && LeftToReader(x, t)
    ensures var w := After(x, t);
            && w.regs == Regs(if t < x.half then t else t - x.half, t >= x.half, 0, 0, false, false)
            && (t >= x.half ==> w.port.age == t - x.half && w.port.clocks == 1)
            && (t < x.half ==> w.port.clocks == 0)
    decreases t
  {
    if t > 0 {
      Unread(x, t - 1);
    }
  }

  // ---- manual mode ----

  /** How often the host raises the clock in the cycles after s, up to t. */
  function Rises(x: Setting, s: nat, t: nat): nat
    requires s <= t
  {
    if t == s then 0
    else Rises(x, s, t - 1) + if !x.manual(t - 1).pins.clk && x.manual(t).pins.clk then 1 else 0
  }

  /** The host has the port from cycle s to t, and reads: READ with its first clock, SHIFT with every other. */
  predicate HostReads(x: Setting, s: nat, t: nat)
    requires s <= t
  {
    && (forall u: nat | s <= u <= t :: x.manual(u).enable)
    && forall u: nat | s <= u < t && !x.manual(u).pins.clk && x.manual(u + 1).pins.clk ::
         if Rises(x, s, u) == 0 then x.manual(u).pins.read
         else !x.manual(u).pins.read && x.manual(u).pins.shift
  }

  /** In manual mode the host reads the same bits in the same order, whatever the reader has done or does. */
  lemma {:induction false} HostSees(x: Setting, s: nat, t: nat)
    requires s <= t && HostReads(x, s, t) && Rises(x, s, t) > 0
    ensures After(x, t).port.at == Rises(x, s, t) - 1
    ensures PortBit(After(x, t).port) == if Rises(x, s, t) <= |x.dna| then x.dna[Rises(x, s, t) - 1] else 0
    decreases t
  {
    hide Step;
    SameDna(x, t);
    if Rises(x, s, t - 1) > 0 {
      HostSees(x, s, t - 1);
    }
  }

  lemma {:induction false} SameDna(x: Setting, t: nat)
    ensures After(x, t).port.dna == x.dna
    decreases t
  {
    hide Step;
    if t > 0 {
      SameDna(x, t - 1);
    }
  }
}
