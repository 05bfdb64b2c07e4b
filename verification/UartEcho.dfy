/** The generated UART echo firmware, run: on every schedule of arriving bytes, what it has sent after the prompt is
    what it has received, in order, but for the one byte it may hold; and every byte that arrives is echoed. */
module UartEcho {
  import opened Encoding
  import opened Assembler
  import opened Layout
  import opened Listing
  import opened Machine
  import opened Console
  import opened Print
  import opened UartProgram

  /** The firmware for these arguments, on a hart whose UART is where they say. */
  ghost predicate Setup(f: Firmware, a: Params) {
    Loaded(f) && f.p == Source(a) && f.env.uart == a.uart
  }

  lemma CodeAt(f: Firmware, a: Params, k: Label, j: nat)
    requires Setup(f, a) && k < BANNER && j < |CodeOf(a, k)|
    ensures |f.p| == SECTIONS && f.p[k] == Code(k, CodeOf(a, k)) && OpAt(f, k, j, CodeOf(a, k)[j])
  {
    hide Source, CodeOf, AllResolvable, Image, WellFormed, Sound;
    SourceIs(a, k);
    assert OpOk(f.p[k].ops[j], |f.p|);
  }

  lemma TextAt(f: Firmware, a: Params, d: Label)
    requires Setup(f, a) && BANNER <= d < SECTIONS
    ensures |f.p| == SECTIONS && f.p[d] == Data(d, TextOf(a, d))
  {
    hide Source, TextOf, Loaded;
    SourceIs(a, d);
  }

  lemma PutstrCode(f: Firmware, a: Params)
    requires Setup(f, a)
    ensures PutstrAt(f, PUTSTR)
  {
    hide Setup, OpAt;
    CodeAt(f, a, PUTSTR, 0); CodeAt(f, a, PUTSTR, 1); CodeAt(f, a, PUTSTR_TX, 0); CodeAt(f, a, PUTSTR_TX, 1);
    CodeAt(f, a, PUTSTR_TX, 2); CodeAt(f, a, PUTSTR_TX, 3); CodeAt(f, a, PUTSTR_TX, 4); CodeAt(f, a, PUTSTR_RET, 0);
  }

  // ---- from reset to the loop ----

  /** What it says before it echoes. */
  function Greeting(ident: string): seq<nat> {
    Printed("\r\nLiteX custom firmware\r\n") + Printed(ident + "\r\n") + Printed("litex> ")
  }

  lemma RunPuts(f: Firmware, a: Params, s0: State, s: State, j: nat, d: Label) returns (t: State)
    requires Setup(f, a) && Fair(f.env) && Reaches(f.env, s0, s) && Ready(f, s) && |f.p| == SECTIONS
    requires j in {2, 5, 8} && d == BANNER + (j - 2) / 3 && s.pc == At(f, ENTRY, j)
    ensures Reaches(f.env, s0, t) && Ready(f, t) && t.pc == At(f, ENTRY, j + 3)
    ensures t.popped == s.popped && t.sent == s.sent + Printed(TextOf(a, d))
  {
    hide Loaded, Reaches, At, Get, OpAt, Source, PutstrAt, TextOf, Printed, SplitImm32;
    CodeAt(f, a, ENTRY, j); CodeAt(f, a, ENTRY, j + 1); CodeAt(f, a, ENTRY, j + 2);
    TextAt(f, a, d);
    PutstrCode(f, a);
    t := Puts(f, s0, s, ENTRY, j, d, PUTSTR);
  }

  /** From reset, whatever the registers hold: the greeting, and then the echo loop. */
  lemma Boots(f: Firmware, a: Params, s: State) returns (t: State)
    requires Setup(f, a) && Fair(f.env) && AtReset(f, s)
    ensures |f.p| == SECTIONS && Reaches(f.env, s, t) && Ready(f, t) && t.pc == At(f, ECHO, 0)
    ensures t.popped == 0 && t.sent == Greeting(a.ident)
  {
    hide Loaded, Reaches, Get, Source, Printed, Cells, OpAt, SplitImm32, TextOf;
    ReachesItself(f.env, s);
    LoadedIsSound(f);
    CodeAt(f, a, ENTRY, 0); CodeAt(f, a, ENTRY, 1);
    assert s.pc == At(f, ENTRY, 0);
    WrapSmall(a.uart);
    var s1 := RunLoad(f, s, s, ENTRY, 0, S0, a.uart);
    var s2 := RunPuts(f, a, s, s1, 2, BANNER);
    var s3 := RunPuts(f, a, s, s2, 5, IDENT);
    t := RunPuts(f, a, s, s3, 8, PROMPT);
    FallsThrough(f, ENTRY);
    assert TextOf(a, BANNER) == "\r\nLiteX custom firmware\r\n" && TextOf(a, IDENT) == a.ident + "\r\n"
           && TextOf(a, PROMPT) == "litex> " by { TextsAre(a); }
    assert t.sent == Greeting(a.ident);
  }

  lemma TextsAre(a: Params)
    ensures TextOf(a, BANNER) == "\r\nLiteX custom firmware\r\n" && TextOf(a, IDENT) == a.ident + "\r\n"
    ensures TextOf(a, PROMPT) == "litex> "
  {}

  // ---- the loop, step by step ----

  /** The first n bytes that arrived. */
  function Received(env: Env, n: nat): (r: seq<nat>)
    ensures |r| == n
  {
    seq<nat>(n, i requires 0 <= i < n => env.received(i))
  }

  /** What holds at each word of the loop, k bytes echoed: before the write to EV_PENDING the byte is still in the FIFO;
      after it, it is in A0 alone, until it is sent. */
  ghost predicate AtWord(f: Firmware, s: State, k: nat, section: Label, j: nat)
    requires |f.p| == SECTIONS && section < SECTIONS
  {
    && s.pc == At(f, section, j)
    && if section == ECHO then
         && s.popped == k
         && (j == 1 && Get(s, T0) == 0 ==> !RxEmpty(f.env, s)) && (2 <= j <= 4 ==> !RxEmpty(f.env, s))
         && (3 <= j <= 4 ==> Get(s, A0) == f.env.received(k)) && (j == 4 ==> Get(s, T0) == EV_RX)
       else
         && (j <= 2 ==> s.popped == k + 1 && Get(s, A0) == f.env.received(k))
         && (j == 1 && Get(s, T0) == 0 ==> !TxFull(f.env, s)) && (j == 2 ==> !TxFull(f.env, s))
         && (j == 3 ==> s.popped == k)
  }

  predicate LoopWord(section: Label, j: nat) { (section == ECHO && j < 5) || (section == TX_WAIT && j < 4) }

  ghost predicate Echoing(f: Firmware, said: seq<nat>, s: State, k: nat, section: Label, j: nat) {
    && |f.p| == SECTIONS && Ready(f, s) && LoopWord(section, j)
    && s.sent == said + Received(f.env, k) && s.popped <= f.env.arrived(s.time)
    && AtWord(f, s, k, section, j)
  }

  /** A state one instruction's time on is the next. */
  lemma OneStep(env: Env, s: State, t: State)
    requires Reaches(env, s, t) && t.time == s.time + 1
    ensures t == Step(env, s)
  {
    hide Step;
    var n: nat :| Run(env, s, n) == t;
    RunZero(env, s);
    RunExtends(env, s, 0, n);
    assert Run(env, s, 1) == Step(env, Run(env, s, 0));
  }

  lemma LoopCode(f: Firmware, a: Params)
    requires Setup(f, a)
    ensures |f.p| == SECTIONS && f.p[ECHO].Code? && |f.p[ECHO].ops| == 5
    ensures OpAt(f, ECHO, 0, Lw(T0, S0, 8)) && OpAt(f, ECHO, 1, Bne(T0, ZERO, ECHO)) && OpAt(f, ECHO, 2, Lw(A0, S0, 0))
    ensures OpAt(f, ECHO, 3, Addi(T0, ZERO, 2)) && OpAt(f, ECHO, 4, Sw(T0, S0, 16))
    ensures OpAt(f, TX_WAIT, 0, Lw(T0, S0, 4)) && OpAt(f, TX_WAIT, 1, Bne(T0, ZERO, TX_WAIT))
    ensures OpAt(f, TX_WAIT, 2, Sw(A0, S0, 0)) && OpAt(f, TX_WAIT, 3, Jump(ECHO))
  {
    hide Setup, OpAt;
    CodeAt(f, a, ECHO, 0); CodeAt(f, a, ECHO, 1); CodeAt(f, a, ECHO, 2); CodeAt(f, a, ECHO, 3); CodeAt(f, a, ECHO, 4);
    CodeAt(f, a, TX_WAIT, 0); CodeAt(f, a, TX_WAIT, 1); CodeAt(f, a, TX_WAIT, 2); CodeAt(f, a, TX_WAIT, 3);
  }

  /** Waiting for a byte, and reading it: on to the next word, or round again. */
  lemma StepTake(f: Firmware, a: Params, said: seq<nat>, s: State, k: nat, j: nat) returns (t: State, next: nat)
    requires Setup(f, a) && Echoing(f, said, s, k, ECHO, j) && j < 4
    ensures Reaches(f.env, s, t) && t.time == s.time + 1 && Echoing(f, said, t, k, ECHO, next)
    ensures next == j + 1 || (next == 0 && j == 1 && Get(s, T0) != 0)
    ensures j == 0 ==> (Get(t, T0) == 0 <==> !RxEmpty(f.env, s))
  {
    hide Loaded, Reaches, At, Get, OpAt, Source, Received;
    LoopCode(f, a);
    LoadedIsSound(f);
    ReachesItself(f.env, s);
    ArrivedGrows(f.env, s.time, s.time + 1);
    next := j + 1;
    if j == 0 {
      t := GoLoadRxEmpty(f, s, s, ECHO, 0, T0);
    } else if j == 1 {
      ZeroIsZero(s);
      t := GoBranch(f, s, s, ECHO, 1, false, T0, ZERO, ECHO);
      next := if Get(s, T0) == 0 then 2 else 0;
    } else if j == 2 {
      t := GoLoadRx(f, s, s, ECHO, 2, A0);
    } else {
      ZeroIsZero(s);
      t := GoAddImm(f, s, s, ECHO, 3, T0, ZERO, 2);
    }
  }

  /** The write that takes the byte out of the FIFO. */
  lemma StepPop(f: Firmware, a: Params, said: seq<nat>, s: State, k: nat) returns (t: State)
    requires Setup(f, a) && Echoing(f, said, s, k, ECHO, 4)
    ensures Reaches(f.env, s, t) && t.time == s.time + 1 && Echoing(f, said, t, k, TX_WAIT, 0)
  {
    hide Loaded, Reaches, At, Get, OpAt, Source, Received;
    LoopCode(f, a);
    LoadedIsSound(f);
    ReachesItself(f.env, s);
    ArrivedGrows(f.env, s.time, s.time + 1);
    t := GoPop(f, s, s, ECHO, 4, T0);
    FallsThrough(f, ECHO);
  }

  /** Waiting for room: on to the next word, or round again. */
  lemma StepWait(f: Firmware, a: Params, said: seq<nat>, s: State, k: nat, j: nat) returns (t: State, next: nat)
    requires Setup(f, a) && Echoing(f, said, s, k, TX_WAIT, j) && j < 2
    ensures Reaches(f.env, s, t) && t.time == s.time + 1 && Echoing(f, said, t, k, TX_WAIT, next)
  {
    hide Loaded, Reaches, At, Get, OpAt, Source, Received;
    LoopCode(f, a);
    LoadedIsSound(f);
    ReachesItself(f.env, s);
    ArrivedGrows(f.env, s.time, s.time + 1);
    next := j + 1;
    if j == 0 {
      t := GoLoadTxFull(f, s, s, TX_WAIT, 0, T0);
    } else {
      ZeroIsZero(s);
      t := GoBranch(f, s, s, TX_WAIT, 1, false, T0, ZERO, TX_WAIT);
      next := if Get(s, T0) == 0 then 2 else 0;
    }
  }

  lemma OneMore(env: Env, said: seq<nat>, k: nat)
    requires Sound(env)
    ensures said + Received(env, k) + [env.received(k) % 0x100] == said + Received(env, k + 1)
  {}

  /** The byte sent, and back to the start. */
  lemma StepSend(f: Firmware, a: Params, said: seq<nat>, s: State, k: nat, j: nat) returns (t: State)
    requires Setup(f, a) && Echoing(f, said, s, k, TX_WAIT, j) && j >= 2
    ensures Reaches(f.env, s, t) && t.time == s.time + 1
    ensures if j == 2 then Echoing(f, said, t, k + 1, TX_WAIT, 3) else Echoing(f, said, t, k, ECHO, 0)
  {
    hide Loaded, Reaches, At, Get, OpAt, Source, Received;
    LoopCode(f, a);
    LoadedIsSound(f);
    ReachesItself(f.env, s);
    ArrivedGrows(f.env, s.time, s.time + 1);
    if j == 2 {
      OneMore(f.env, said, k);
      t := GoSend(f, s, s, TX_WAIT, 2, A0);
    } else {
      t := GoJump(f, s, s, TX_WAIT, 3, ECHO);
    }
  }

  /** Every step keeps to the loop. */
  lemma EchoStep(f: Firmware, a: Params, said: seq<nat>, s: State, k: nat, section: Label, j: nat)
    returns (k': nat, section': Label, j': nat)
    requires Setup(f, a) && Echoing(f, said, s, k, section, j)
    ensures Echoing(f, said, Step(f.env, s), k', section', j')
  {
    hide Setup, Reaches, Step, AtWord, Ready, Received;
    k', section', j' := k, section, j;
    var t;
    if section == ECHO {
      if j < 4 {
        t, j' := StepTake(f, a, said, s, k, j);
      } else {
        t := StepPop(f, a, said, s, k);
        section', j' := TX_WAIT, 0;
      }
    } else if j < 2 {
      t, j' := StepWait(f, a, said, s, k, j);
    } else {
      t := StepSend(f, a, said, s, k, j);
      if j == 2 {
        k', j' := k + 1, 3;
      } else {
        section', j' := ECHO, 0;
      }
    }
    OneStep(f.env, s, t);
  }

  lemma {:induction false} KeepsEchoing(f: Firmware, a: Params, said: seq<nat>, s: State, k: nat, n: nat)
    returns (k': nat, section: Label, j: nat)
    requires Setup(f, a) && Echoing(f, said, s, k, ECHO, 0)
    ensures Echoing(f, said, Run(f.env, s, n), k', section, j)
    decreases n
  {
    hide Setup, Echoing, Step;
    if n == 0 {
      k', section, j := k, ECHO, 0;
    } else {
      k', section, j := KeepsEchoing(f, a, said, s, k, n - 1);
      k', section, j := EchoStep(f, a, said, Run(f.env, s, n - 1), k', section, j);
    }
  }

  // ---- the results ----

  /** k bytes echoed, in order, and at most one more taken. */
  predicate Echoed(f: Firmware, said: seq<nat>, s: State, k: nat) {
    s.sent == said + Received(f.env, k) && k <= s.popped <= k + 1 && s.popped <= f.env.arrived(s.time)
  }

  lemma EchoingEchoed(f: Firmware, said: seq<nat>, s: State, k: nat, section: Label, j: nat)
    requires Echoing(f, said, s, k, section, j)
    ensures Echoed(f, said, s, k)
  {
    hide Received, At, Ready, RxEmpty, TxFull;
  }

  lemma EchoesWhileDraining(f: Firmware, a: Params, s: State, n: nat) returns (k: nat)
    requires Setup(f, a) && Fair(f.env) && AtReset(f, s)
    ensures var t := Run(f.env, s, n);
            (t.sent <= Greeting(a.ident) && t.popped == 0) || Echoed(f, Greeting(a.ident), t, k)
  {
    hide Loaded, Source, Greeting, Run, Received;
    var b := Boots(f, a, s);
    var m: nat :| Run(f.env, s, m) == b;
    k := 0;
    if n <= m {
      RunExtends(f.env, s, n, m);
    } else {
      AtLoop(f, a, s, b);
      var section, j;
      k, section, j := KeepsEchoing(f, a, Greeting(a.ident), b, 0, n - m);
      RunRun(f.env, s, m, n - m);
      EchoingEchoed(f, Greeting(a.ident), Run(f.env, s, n), k, section, j);
    }
  }

  /** After any number of instructions from reset, on any schedule, even if the transmit FIFO stays full for ever:
      what was sent is the beginning of the greeting and nothing was taken yet; or it is the greeting and the first k
      bytes that arrived, where all the bytes taken out of the FIFO but at most the last are among the k. Nothing is
      lost, repeated or made up. */
  lemma EchoesInOrder(f: Firmware, a: Params, s: State, n: nat) returns (k: nat)
    requires Setup(f, a) && AtReset(f, s)
    ensures var t := Run(f.env, s, n);
            (t.sent <= Greeting(a.ident) && t.popped == 0) || Echoed(f, Greeting(a.ident), t, k)
  {
    hide Loaded, Source, Greeting, Run;
    var g := Drained(f, s.time + n);
    LoadedDrained(f, s.time + n);
    k := EchoesWhileDraining(g, a, s, n);
    RunWhileSame(f.env, s.time + n, s, n);
    assert Received(g.env, k) == Received(f.env, k);
  }

  lemma AtLoop(f: Firmware, a: Params, s: State, b: State)
    requires Setup(f, a) && Ready(f, b) && |f.p| == SECTIONS && b.pc == At(f, ECHO, 0) && b.popped == 0
    requires b.sent == Greeting(a.ident)
    ensures Echoing(f, Greeting(a.ident), b, 0, ECHO, 0)
  {
    hide Setup, Greeting;
  }

  /** Round the polling loop until a byte is there. */
  lemma WaitForByte(f: Firmware, a: Params, said: seq<nat>, s0: State, s: State, k: nat, u: nat) returns (t: State)
    requires Setup(f, a) && Reaches(f.env, s0, s) && Echoing(f, said, s, k, ECHO, 0) && f.env.arrived(u) > k
    ensures Reaches(f.env, s0, t) && Echoing(f, said, t, k, ECHO, 2)
    decreases if s.time <= u then u - s.time + 1 else 0
  {
    hide Loaded, Reaches, At, Source, Received, Get, OpAt;
    LoadedIsSound(f);
    var empty := RxEmpty(f.env, s);
    if empty && u <= s.time {
      ArrivedGrows(f.env, u, s.time);
    }
    var s1, j1 := StepTake(f, a, said, s, k, 0);
    var s2, j2 := StepTake(f, a, said, s1, k, 1);
    ReachesOnward(f.env, s0, s, s1);
    ReachesOnward(f.env, s0, s1, s2);
    if j2 == 2 {
      t := s2;
    } else {
      t := WaitForByte(f, a, said, s0, s2, k, u);
    }
  }

  /** One byte echoed. */
  lemma EchoByte(f: Firmware, a: Params, said: seq<nat>, s0: State, s: State, k: nat, u: nat) returns (t: State)
    requires Setup(f, a) && Fair(f.env) && Reaches(f.env, s0, s) && Echoing(f, said, s, k, ECHO, 0)
    requires f.env.arrived(u) > k
    ensures Reaches(f.env, s0, t) && Echoing(f, said, t, k + 1, ECHO, 0)
  {
    hide Loaded, Reaches, At, Source, Received, Get, OpAt;
    LoopCode(f, a);
    LoadedIsSound(f);
    var s1 := WaitForByte(f, a, said, s0, s, k, u);
    var s2, j2 := StepTake(f, a, said, s1, k, 2);
    var s3, j3 := StepTake(f, a, said, s2, k, 3);
    var s4 := StepPop(f, a, said, s3, k);
    ReachesOnward(f.env, s0, s1, s2);
    ReachesOnward(f.env, s0, s2, s3);
    ReachesOnward(f.env, s0, s3, s4);
    ReachesItself(f.env, s4);
    var s5 := WaitForRoomHere(f, s4, s4, TX_WAIT, T0);
    var s6 := GoSend(f, s4, s5, TX_WAIT, 2, A0);
    t := GoJump(f, s4, s6, TX_WAIT, 3, ECHO);
    OneMore(f.env, said, k);
    ReachesOnward(f.env, s0, s4, t);
    ReachedLater(f.env, s4, t);
  }

  lemma ReachedLater(env: Env, s: State, t: State)
    requires Sound(env) && Reaches(env, s, t) && t.popped == s.popped <= env.arrived(s.time)
    ensures t.popped <= env.arrived(t.time)
  {
    hide Run;
    var n: nat :| Run(env, s, n) == t;
    RunZero(env, s);
    RunExtends(env, s, 0, n);
    ArrivedGrows(env, s.time, t.time);
  }

  /** Every byte that arrives is echoed: once k have arrived, the hart gets to where exactly those are, and waits. */
  lemma {:induction false} EveryByteEchoed(f: Firmware, a: Params, s: State, k: nat, u: nat) returns (t: State)
    requires Setup(f, a) && Fair(f.env) && AtReset(f, s) && f.env.arrived(u) >= k
    ensures Reaches(f.env, s, t) && t.sent == Greeting(a.ident) + Received(f.env, k) && t.popped == k
    ensures Echoing(f, Greeting(a.ident), t, k, ECHO, 0)
    decreases k
  {
    hide Loaded, Source, Greeting, Run, Received, Reaches;
    if k == 0 {
      t := Boots(f, a, s);
      AtLoop(f, a, s, t);
    } else {
      var s1 := EveryByteEchoed(f, a, s, k - 1, u);
      t := EchoByte(f, a, Greeting(a.ident), s, s1, k - 1, u);
    }
  }

  /** What the generator returns, loaded at any origin of a sound address map that agrees with its arguments, is set up
      for all of this. */
  lemma GeneratedIsSetUp(env: Env, a: Params)
    requires Sound(env) && Ascii(a.ident) && IdentFits(a.ident) && env.uart == a.uart
    requires AllResolvable(Cells(Source(a), |Source(a)|), Labels(Source(a), |Source(a)|)) && env.rom == Image(Source(a))
    ensures Setup(Firmware(env, Source(a)), a)
  {
    hide Sound, AllResolvable, Image, InstrAt, WellFormed, Encodable, OpOk, Source, CodeOf, TextOf, Cells, Labels;
    EveryReferenceFits(a);
    SourceIs(a, PROMPT);
  }
}
