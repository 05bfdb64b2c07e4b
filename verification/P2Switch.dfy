/** The switch that makes the two P2 balls a serial link or GPIOs: its registers clock by clock, and how long it stays
    in GPIO mode. Its CSRs follow LiteX's CSRStorage: a bus write shows in the storage, and raises `re`, the cycle
    after. */
module P2Switch {

  /** The mode CSR's storage and `re`, the timeout CSR's storage, and the two counters. */
  datatype Regs = Regs(gpio: bool, re: bool, timeout: nat, prescaler: nat, remaining: nat)

  /** What the bus writes in a cycle. */
  datatype Bus = Bus(mode: Option<bool>, timeout: Option<nat>)

  datatype Option<T> = None | Some(value: T)

  /** The switch takes itself back to serial. */
  predicate Returns(r: Regs) { r.gpio && r.timeout != 0 && r.remaining == 0 && !r.re }

  function Step(tick: nat, r: Regs, bus: Bus): Regs
    requires tick > 0
  {
    Regs(if bus.mode.Some? then bus.mode.value else r.gpio && !Returns(r),
         bus.mode.Some?,
         if bus.timeout.Some? then bus.timeout.value else r.timeout,
         if r.re || r.prescaler == 0 then tick - 1 else r.prescaler - 1,
         if r.re then r.timeout else if r.prescaler == 0 && r.remaining != 0 then r.remaining - 1 else r.remaining)
  }

  class Switch {
    const tick: nat
    var gpio: bool
    var re: bool
    var timeout: nat
    var prescaler: nat
    var remaining: nat

    function Now(): Regs
      reads this
    {
      Regs(gpio, re, timeout, prescaler, remaining)
    }

    predicate Valid()
      reads this
    {
      tick > 0 && prescaler < tick
    }

    /** tick: cycles of the system clock in a millisecond. */
    constructor (tick: nat, timeout: nat)
      requires tick > 0
      ensures Valid() && this.tick == tick && Now() == Regs(false, false, timeout, 0, 0)
    {
      this.tick, this.timeout := tick, timeout;
      gpio, re, prescaler, remaining := false, false, 0, 0;
    }

    method Clock(bus: Bus)
      requires Valid()
      modifies this
      ensures Valid() && Now() == Step(tick, old(Now()), bus)
    {
      var back := gpio && timeout != 0 && remaining == 0 && !re;
      if re {
        remaining := timeout;
        prescaler := tick - 1;
      } else if prescaler == 0 {
        prescaler := tick - 1;
        if remaining != 0 {
          remaining := remaining - 1;
        }
      } else {
        prescaler := prescaler - 1;
      }
      if back {
        gpio := false;
      }
      re := bus.mode.Some?;
      if bus.mode.Some? {
        gpio := bus.mode.value;
      }
      if bus.timeout.Some? {
        timeout := bus.timeout.value;
      }
    }
  }

  // ---- the pins ----

  /** What the switch drives, and gives the UART. */
  datatype Pins = Pins(rxO: bool, rxOe: bool, uartRx: bool, txO: bool, txOe: bool, linkReset: bool)

  /** rx: J2 as the FPGA sees it. uartTx: what the UART sends. oe, out: the GPIO CSRs. */
  function PinsOf(gpio: bool, oe: (bool, bool), out: (bool, bool), rx: bool, uartTx: bool): (p: Pins)
    ensures p.linkReset == gpio
    ensures !gpio ==> !p.rxOe && p.uartRx == rx && p.txOe && p.txO == uartTx
    ensures gpio ==> (p.rxOe <==> oe.0) && (p.txOe <==> oe.1) && p.rxO == out.0 && p.txO == out.1 && p.uartRx
  {
    Pins(out.0, gpio && oe.0, gpio || rx, if gpio then out.1 else uartTx, !gpio || oe.1, gpio)
  }

  // ---- how long ----

  type Writes = nat -> Bus

  function After(tick: nat, r: Regs, bus: Writes, t: nat): Regs
    requires tick > 0
  {
    if t == 0 then r else Step(tick, After(tick, r, bus, t - 1), bus(t - 1))
  }

  /** The cycle after a write of GPIO to `mode`, whatever the counters held. */
  predicate JustSwitched(tick: nat, r: Regs) { tick > 0 && r.prescaler < tick && r.gpio && r.re }

  /** No write to `mode` in the first t cycles, and no timeout of 0 written in them. */
  predicate Undisturbed(bus: Writes, t: nat) {
    forall u: nat | u < t :: bus(u).mode.None? && (bus(u).timeout.Some? ==> bus(u).timeout.value != 0)
  }

  /** The countdown, n whole ticks and j cycles in. */
  predicate Counting(tick: nat, r: Regs, n: nat, j: nat, captured: nat) {
    && r.gpio && !r.re && r.timeout != 0 && j < tick && n <= captured
    && r.prescaler == tick - 1 - j && r.remaining == captured - n
  }

  lemma {:induction false} CountingAt(tick: nat, r: Regs, bus: Writes, n: nat, j: nat)
    requires JustSwitched(tick, r) && r.timeout != 0 && j < tick && (n < r.timeout || (n == r.timeout && j == 0))
    requires Undisturbed(bus, n * tick + j + 1)
    ensures Counting(tick, After(tick, r, bus, n * tick + j + 1), n, j, r.timeout)
    decreases n, j
  {
    var t := n * tick + j;
    assert bus(t).mode.None?;
    if j > 0 {
      CountingAt(tick, r, bus, n, j - 1);
      assert n * tick + (j - 1) + 1 == t;
    } else if n > 0 {
      assert (n - 1) * tick + (tick - 1) + 1 == t;
      CountingAt(tick, r, bus, n - 1, tick - 1);
    } else {
      assert After(tick, r, bus, 0) == r;
    }
  }

  /** How long the mode stays GPIO after the cycle in which the write shows: the timeout, and one cycle to load it and
      one to act on it. */
  function Stay(tick: nat, timeout: nat): nat { timeout * tick + 2 }

  lemma {:induction false} SerialStays(tick: nat, r: Regs, bus: Writes, t: nat, u: nat)
    requires tick > 0 && t <= u && !After(tick, r, bus, t).gpio && forall v: nat | t <= v < u :: bus(v).mode.None?
    ensures !After(tick, r, bus, u).gpio
    decreases u
  {
    if t < u {
      SerialStays(tick, r, bus, t, u - 1);
      assert bus(u - 1).mode.None?;
    }
  }

  lemma StaysFromSwitch(tick: nat, r: Regs, bus: Writes, t: nat)
    requires JustSwitched(tick, r) && r.timeout != 0 && Undisturbed(bus, t)
    ensures After(tick, r, bus, t).gpio <==> t < Stay(tick, r.timeout)
  {
    hide After;
    var end := r.timeout * tick + 1;
    if t > end {
      CountingAt(tick, r, bus, r.timeout, 0);
      assert bus(end).mode.None?;
      AfterNext(tick, r, bus, end);
      SerialStays(tick, r, bus, end + 1, t);
    } else if t == 0 {
      AfterNone(tick, r, bus);
    } else {
      var n, j := (t - 1) / tick, (t - 1) % tick;
      assert n * tick + j == t - 1;
      Within(t - 1, tick, r.timeout);
      CountingAt(tick, r, bus, n, j);
    }
  }

  lemma Within(t: nat, tick: nat, n: nat)
    requires tick > 0 && t <= n * tick
    ensures t / tick < n || (t / tick == n && t % tick == 0)
  {}

  lemma AfterNext(tick: nat, r: Regs, bus: Writes, t: nat)
    requires tick > 0
    ensures After(tick, r, bus, t + 1) == Step(tick, After(tick, r, bus, t), bus(t))
  {}

  lemma AfterNone(tick: nat, r: Regs, bus: Writes)
    requires tick > 0
    ensures After(tick, r, bus, 0) == r
  {}

  lemma {:induction false} NeverFromSwitch(tick: nat, r: Regs, bus: Writes, t: nat)
    requires JustSwitched(tick, r) && r.timeout == 0
    requires forall u: nat | u < t :: bus(u).mode.None? && (bus(u).timeout.Some? ==> bus(u).timeout.value == 0)
    ensures After(tick, r, bus, t).gpio && After(tick, r, bus, t).timeout == 0
    decreases t
  {
    if t > 0 {
      NeverFromSwitch(tick, r, bus, t - 1);
      assert bus(t - 1).mode.None?;
    }
  }

  // ---- from the write ----

  /** The timeout last written before cycle t; `reset` if none was. */
  function LastTimeout(reset: nat, bus: Writes, t: nat): nat {
    if t == 0 then reset
    else if bus(t - 1).timeout.Some? then bus(t - 1).timeout.value
    else LastTimeout(reset, bus, t - 1)
  }

  /** The timeout is what was last written to it, and the prescaler stays below a tick. */
  lemma {:induction false} TimeoutHeld(tick: nat, r: Regs, bus: Writes, t: nat)
    requires tick > 0 && r.prescaler < tick
    ensures var s := After(tick, r, bus, t); s.timeout == LastTimeout(r.timeout, bus, t) && s.prescaler < tick
    decreases t
  {
    if t > 0 {
      TimeoutHeld(tick, r, bus, t - 1);
    }
  }

  /** The cycle after a write to `mode`, GPIO or serial as written, whatever the counters held. */
  lemma WriteTakes(tick: nat, r: Regs, bus: Writes, t: nat)
    requires tick > 0 && r.prescaler < tick
    ensures bus(t).mode == Some(true) ==> JustSwitched(tick, After(tick, r, bus, t + 1))
    ensures bus(t).mode == Some(false) ==> !After(tick, r, bus, t + 1).gpio
    ensures After(tick, r, bus, t + 1).timeout == LastTimeout(r.timeout, bus, t + 1)
  {
    TimeoutHeld(tick, r, bus, t);
  }

  /** The writes from cycle n on. */
  function From(bus: Writes, n: nat): Writes { (t: nat) => bus(n + t) }

  lemma {:induction false} AfterFrom(tick: nat, r: Regs, bus: Writes, n: nat, t: nat)
    requires tick > 0
    ensures After(tick, r, bus, n + t) == After(tick, After(tick, r, bus, n), From(bus, n), t)
    decreases t
  {
    if t > 0 {
      AfterFrom(tick, r, bus, n, t - 1);
    }
  }

  /** No write to `mode` for t cycles from cycle n on, and the timeouts written in them all 0, or none of them. */
  predicate LeftAlone(bus: Writes, n: nat, t: nat, zero: bool) {
    forall u: nat | n <= u < n + t ::
      bus(u).mode.None? && (bus(u).timeout.Some? ==> (bus(u).timeout.value == 0 <==> zero))
  }

  /** GPIO written in cycle n, any time, with a timeout that is not 0 and stays so: GPIO for exactly timeout * tick + 2
      cycles, and serial from then on. */
  lemma StaysExactly(tick: nat, r: Regs, bus: Writes, n: nat, t: nat)
    requires tick > 0 && r.prescaler < tick && bus(n).mode == Some(true)
    requires LastTimeout(r.timeout, bus, n + 1) != 0 && LeftAlone(bus, n + 1, t, false)
    ensures After(tick, r, bus, n + 1 + t).gpio <==> t < Stay(tick, LastTimeout(r.timeout, bus, n + 1))
  {
    hide After, LastTimeout;
    WriteTakes(tick, r, bus, n);
    AfterFrom(tick, r, bus, n + 1, t);
    StaysFromSwitch(tick, After(tick, r, bus, n + 1), From(bus, n + 1), t);
  }

  /** GPIO written in cycle n with a timeout of 0, held: it never returns by itself. */
  lemma ZeroIsNever(tick: nat, r: Regs, bus: Writes, n: nat, t: nat)
    requires tick > 0 && r.prescaler < tick && bus(n).mode == Some(true)
    requires LastTimeout(r.timeout, bus, n + 1) == 0 && LeftAlone(bus, n + 1, t, true)
    ensures After(tick, r, bus, n + 1 + t).gpio
  {
    hide After, LastTimeout;
    WriteTakes(tick, r, bus, n);
    AfterFrom(tick, r, bus, n + 1, t);
    NeverFromSwitch(tick, After(tick, r, bus, n + 1), From(bus, n + 1), t);
  }

  /** Serial written in cycle n: serial until `mode` is written again. */
  lemma SerialWritten(tick: nat, r: Regs, bus: Writes, n: nat, t: nat)
    requires tick > 0 && r.prescaler < tick && bus(n).mode == Some(false)
    requires forall u: nat | n < u <= n + t :: bus(u).mode.None?
    ensures !After(tick, r, bus, n + 1 + t).gpio
  {
    hide After, LastTimeout;
    WriteTakes(tick, r, bus, n);
    SerialStays(tick, r, bus, n + 1, n + 1 + t);
  }
}
