/** The UART break detector: over every stream on RX, one pulse for each break. */
module UartBreak {

  /** The two synchroniser flops, and the registers. */
  datatype Regs = Regs(first: bool, rx: bool, count: nat, fired: bool, detected: bool)

  const RESET: Regs := Regs(true, true, 0, false, false)

  function Step(cycles: nat, r: Regs, pin: bool): Regs {
    var s := r.(first := pin, rx := r.first);
    if r.rx then s.(count := 0, fired := false, detected := false)
    else if r.count == cycles then s.(fired := true, detected := !r.fired)
    else s.(count := r.count + 1, detected := false)
  }

  class Detector {
    const cycles: nat
    var first: bool
    var rx: bool
    var count: nat
    var fired: bool
    var detected: bool

    function Now(): Regs
      reads this
    {
      Regs(first, rx, count, fired, detected)
    }

    constructor (cycles: nat)
      ensures this.cycles == cycles && Now() == RESET
    {
      this.cycles := cycles;
      first, rx, count, fired, detected := true, true, 0, false, false;
    }

    method Clock(pin: bool)
      modifies this
      ensures Now() == Step(cycles, old(Now()), pin)
    {
      detected := false;
      if rx {
        count := 0;
        fired := false;
      } else if count == cycles {
        if !fired {
          detected := true;
        }
        fired := true;
      } else {
        count := count + 1;
      }
      first, rx := pin, first;
    }
  }

  type Stream = nat -> bool

  function After(cycles: nat, pins: Stream, t: nat): Regs {
    if t == 0 then RESET else Step(cycles, After(cycles, pins, t - 1), pins(t - 1))
  }

  /** The synchronised sample at cycle t: RX two cycles before, high at reset. */
  function Sample(pins: Stream, t: nat): bool { if t < 2 then true else pins(t - 2) }

  /** How long the samples up to cycle t have been low without a break. */
  function LowFor(pins: Stream, t: nat): nat {
    if Sample(pins, t) then 0 else LowFor(pins, t - 1) + 1
  }

  /** The registers, in terms of the samples alone. */
  lemma {:induction false} AfterIs(cycles: nat, pins: Stream, t: nat)
    ensures var r := After(cycles, pins, t);
            && r.rx == Sample(pins, t) && r.first == Sample(pins, t + 1)
            && (t == 0 ==> r == RESET)
            && (t > 0 ==>
                  var low := LowFor(pins, t - 1);
                  && r.count == (if low <= cycles then low else cycles) && r.fired == (low > cycles)
                  && r.detected == (low == cycles + 1))
    decreases t
  {
    if t > 0 {
      AfterIs(cycles, pins, t - 1);
    }
  }

  // ---- one pulse a break ----

  /** A whole low run of samples: cycles b to e - 1 are low, and the samples either side are high. */
  predicate LowRun(pins: Stream, b: nat, e: nat) {
    && b < e && (b > 0 ==> Sample(pins, b - 1)) && Sample(pins, e)
    && forall t | b <= t < e :: !Sample(pins, t)
  }

  lemma {:induction false} LowForInRun(pins: Stream, b: nat, t: nat)
    requires (b > 0 ==> Sample(pins, b - 1)) && b <= t && forall u | b <= u <= t :: !Sample(pins, u)
    ensures LowFor(pins, t) == t - b + 1
    decreases t
  {
    if b < t {
      LowForInRun(pins, b, t - 1);
    }
  }

  predicate Pulses(cycles: nat, pins: Stream, t: nat) { After(cycles, pins, t).detected }

  /** In a whole low run the detector pulses once, when the run is cycles + 1 long, if it gets that long; and not if it
      does not. */
  lemma OnePulse(cycles: nat, pins: Stream, b: nat, e: nat, t: nat)
    requires LowRun(pins, b, e) && b < t <= e
    ensures Pulses(cycles, pins, t) <==> t == b + cycles + 1
  {
    hide After;
    AfterIs(cycles, pins, t);
    LowForInRun(pins, b, t - 1);
  }

  /** A pulse is only ever the cycle after a low sample, so in a run's window. */
  lemma NoPulseHigh(cycles: nat, pins: Stream, t: nat)
    requires Pulses(cycles, pins, t)
    ensures t > 0 && !Sample(pins, t - 1)
  {
    hide After;
    AfterIs(cycles, pins, t);
  }

  /** How many pulses there are in cycles b + 1 to t. */
  function CountPulses(cycles: nat, pins: Stream, b: nat, t: nat): nat
    decreases t
  {
    if t <= b then 0 else CountPulses(cycles, pins, b, t - 1) + (if Pulses(cycles, pins, t) then 1 else 0)
  }

  lemma {:induction false} PulsesSoFar(cycles: nat, pins: Stream, b: nat, e: nat, t: nat)
    requires LowRun(pins, b, e) && b <= t <= e
    ensures CountPulses(cycles, pins, b, t) == if t >= b + cycles + 1 then 1 else 0
    decreases t
  {
    hide Pulses, LowRun;
    if t > b {
      PulsesSoFar(cycles, pins, b, e, t - 1);
      OnePulse(cycles, pins, b, e, t);
    }
  }

  /** A break, a maximal low run of more than `cycles` samples, gives exactly one pulse; a shorter run gives none. */
  lemma OncePerBreak(cycles: nat, pins: Stream, b: nat, e: nat)
    requires LowRun(pins, b, e)
    ensures CountPulses(cycles, pins, b, e) == if e - b > cycles then 1 else 0
  {
    PulsesSoFar(cycles, pins, b, e, e);
  }

  /** A line stuck low gives one pulse and then nothing. */
  lemma StuckLow(cycles: nat, pins: Stream, b: nat, t: nat)
    requires (b > 0 ==> Sample(pins, b - 1)) && b < t && forall u | b <= u < t :: !Sample(pins, u)
    ensures Pulses(cycles, pins, t) <==> t == b + cycles + 1
  {
    hide After;
    AfterIs(cycles, pins, t);
    LowForInRun(pins, b, t - 1);
  }

  /** `count` fits its register, which is sized for `cycles`. */
  lemma CountFits(cycles: nat, pins: Stream, t: nat)
    ensures After(cycles, pins, t).count <= cycles
  {
    hide After;
    AfterIs(cycles, pins, t);
  }
}
