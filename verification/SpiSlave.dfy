/** An SPI mode 0 slave: it takes MOSI on a rising clock, and puts its next bit on MISO on a falling one. What it
    answers is an arbitrary function of the transactions before and the bits it has taken in this one. */
module SpiSlave {
  import opened Bits

  datatype Wires = Wires(cs: Level, clk: Level, mosi: Level)

  /** finished: the bits taken in each transaction so far. shown: the level on MISO. */
  datatype Slave = Slave(wires: Wires, finished: seq<seq<Level>>, bits: seq<Level>, shown: Level)

  type Answering = (nat, seq<Level>) -> Level

  const IDLE: Slave := Slave(Wires(1, 0, 0), [], [], 1)

  function Next(s: Slave, w: Wires, answer: Answering): Slave {
    if w.cs == 1 then
      Slave(w, if s.wires.cs == 0 then s.finished + [s.bits] else s.finished, [], 1)
    else if s.wires.cs == 1 then
      Slave(w, s.finished, [], answer(|s.finished|, []))
    else if s.wires.clk < w.clk then
      s.(wires := w, bits := s.bits + [w.mosi])
    else if w.clk < s.wires.clk then
      s.(wires := w, shown := answer(|s.finished|, s.bits))
    else
      s.(wires := w)
  }

  /** While it is not selected it has taken nothing of a next transaction. */
  predicate Sane(s: Slave) { s.wires.cs == 1 ==> s.bits == [] }

  /** What one has taken is the beginning of what the other has. */
  predicate Before(s: Slave, t: Slave) {
    && s.finished <= t.finished
    && if |t.finished| == |s.finished| then s.bits <= t.bits else s.bits <= t.finished[|s.finished|]
  }

  lemma NextTakesMore(s: Slave, w: Wires, answer: Answering)
    requires Sane(s)
    ensures Sane(Next(s, w, answer)) && Before(s, Next(s, w, answer))
  {}

  /** Selected, between two clocks, with the bit after those taken on MISO. */
  predicate Waiting(s: Slave, answer: Answering) {
    s.wires.cs == 0 && s.wires.clk == 0 && s.shown == answer(|s.finished|, s.bits)
  }

  /** A bit's worth of wires: MOSI set, the clock up, the clock down. The slave takes that bit and moves on, and while
      the clock is up MISO still has the bit that goes with it. */
  lemma OneBit(s: Slave, m: Level, answer: Answering)
    requires Waiting(s, answer)
    ensures var up := Next(Next(s, Wires(0, 0, m), answer), Wires(0, 1, m), answer);
            var down := Next(up, Wires(0, 0, m), answer);
            && up.shown == answer(|s.finished|, s.bits)
            && Waiting(down, answer) && down.finished == s.finished && down.bits == s.bits + [m]
  {}

  // ---- bytes, most significant bit first ----

  /** A byte's bits as they go on the wire. */
  function ToBits(byte: nat): (r: seq<Level>)
    ensures |r| == 8
  {
    seq(8, k requires 0 <= k < 8 => Bit(byte, 7 - k))
  }

  /** Sending a byte and putting the bits taken together again gives the byte. */
  lemma BitsOfByte(byte: nat)
    requires byte < 0x100
    ensures FromBits(ToBits(byte)) == byte
  {
    PrefixOfByte(byte, 8);
    assert ToBits(byte)[..8] == ToBits(byte);
  }

  lemma {:induction false} PrefixOfByte(byte: nat, k: nat)
    requires byte < 0x100 && k <= 8
    ensures FromBits(ToBits(byte)[..k]) == Shr(byte, 8 - k)
  {
    if k == 0 {
      ShrValue(byte, 8);
      assert Pow2(8) == 0x100;
    } else {
      PrefixOfByte(byte, k - 1);
      assert ToBits(byte)[..k][..k - 1] == ToBits(byte)[..k - 1];
      ShrShr(byte, 8 - k, 1);
    }
  }

  // ---- a command: its opcode, then zeros while the slave answers ----

  /** The first n bits a master puts on the wire. */
  function Intended(opcode: nat, n: nat): (r: seq<Level>)
    ensures |r| == n
  {
    seq(n, k requires 0 <= k < n => if k < 8 then Bit(opcode, 7 - k) else 0)
  }

  lemma ZeroBits(k: nat)
    ensures Bit(0, k) == 0
  {
    ShrValue(0, k);
  }

  /** A command's first byte is its opcode. */
  lemma IntendedOpcode(opcode: nat)
    ensures Intended(opcode, 8) == ToBits(opcode)
  {}

  /** After it come zeros. */
  lemma IntendedZeros(opcode: nat, n: nat, m: nat)
    requires n >= 8 && m <= 8
    ensures Intended(opcode, n) + ToBits(0)[..m] == Intended(opcode, n + m)
  {
    hide Bit;
    forall k: nat ensures Bit(0, k) == 0 {
      ZeroBits(k);
    }
  }

  /** The byte the slave answers while byte j of its answer is clocked out. */
  function AnswerByte(answer: Answering, nth: nat, opcode: nat, j: nat): nat {
    FromBits(seq<Level>(8, i requires 0 <= i < 8 => answer(nth, Intended(opcode, 8 * j + i))))
  }

  /** The bytes after the opcode and the dummies. */
  function Answers(answer: Answering, nth: nat, opcode: nat, dummies: nat, read: nat): (r: seq<nat>)
    ensures |r| == read
  {
    seq<nat>(read, j requires 0 <= j < read => AnswerByte(answer, nth, opcode, 1 + dummies + j))
  }
}
