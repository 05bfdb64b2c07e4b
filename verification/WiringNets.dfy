/** What a walk shows on a board: for any wiring between the demo board, the chip's factory test and the Pi, exactly the
    Pi lines each signal reaches. */
module WiringNets {
  import opened Bits
  import opened Wiring

  /** Which net each signal and each Pi line is on; the nets something else holds, and the level of any other net while
      nothing drives it. */
  datatype Netlist = Netlist(net: Signal -> nat, pi: Gpio -> nat, held: map<nat, Level>, rest: nat -> Level)

  /** No two of the chip's outputs meet, where they might fight. */
  predicate OneOutputEach(n: Netlist) {
    forall j, k | 0 <= j < k < 8 :: n.net(Signal(UoOut, j)) != n.net(Signal(UoOut, k))
  }

  /** Which of the chip's outputs drives a net, if one does. */
  datatype Driver = Nothing | Chip(k: nat)

  /** The chip's output on a net, among the k first. */
  function OutputOn(n: Netlist, x: nat, k: nat): (r: Driver)
    ensures r.Chip? ==> r.k < k && n.net(Signal(UoOut, r.k)) == x
    ensures r.Nothing? ==> forall j | 0 <= j < k :: n.net(Signal(UoOut, j)) != x
  {
    if k == 0 then Nothing else if n.net(Signal(UoOut, k - 1)) == x then Chip(k - 1) else OutputOn(n, x, k - 1)
  }

  predicate OnUio(n: Netlist, x: nat) { exists j :: 0 <= j < 8 && n.net(Signal(Uio, j)) == x }

  /** Neither held nor driven by the RP2. */
  predicate Free(n: Netlist, driven: set<Signal>, x: nat) { x !in n.held && forall s | s in driven :: n.net(s) != x }

  type Levels = nat -> Level

  /** A free net's level: the chip's, in the factory test after a reset, or the pull's. With ui_in[0] low uo_out is uio;
      with it high uo_out and uio are the counter, 0. */
  function FreeLevel(n: Netlist, l: Levels, x: nat): Level {
    var high := l(n.net(KEPT_LOW)) == 1;
    var o := OutputOn(n, x, 8);
    if o.Chip? then (if high then 0 else l(n.net(Signal(Uio, o.k))))
    else if high && OnUio(n, x) then 0
    else n.rest(x)
  }

  ghost predicate Settled(n: Netlist, driven: map<Signal, Level>, l: Levels) {
    && (forall x | x in n.held :: l(x) == n.held[x])
    && (forall s | s in driven && n.net(s) !in n.held :: l(n.net(s)) == driven[s])
    && (forall x: nat | Free(n, driven.Keys, x) :: l(x) == FreeLevel(n, l, x))
  }

  /** The factory test, on nets nothing else drives: with ui_in[0] low each of the chip's outputs is its uio; with it
      high uio and outputs are all 0. */
  lemma ChipDoes(n: Netlist, driven: map<Signal, Level>, l: Levels, k: nat)
    requires Settled(n, driven, l) && OneOutputEach(n) && k < 8
    ensures var high, o, u := l(n.net(KEPT_LOW)) == 1, n.net(Signal(UoOut, k)), n.net(Signal(Uio, k));
            && (Free(n, driven.Keys, o) ==> l(o) == if high then 0 else l(u))
            && (Free(n, driven.Keys, u) && high ==> l(u) == 0)
  {
    OneOutput(n, k);
  }

  lemma OneOutput(n: Netlist, k: nat)
    requires OneOutputEach(n) && k < 8
    ensures OutputOn(n, n.net(Signal(UoOut, k)), 8) == Chip(k)
  {}

  // ---- where a level comes from ----

  datatype Origin = At(x: nat) | Loop

  /** Back through the chip from a free output's net to its input's: to a held, driven or chip-free net, or round a
      loop. */
  function Back(n: Netlist, driven: set<Signal>, x: nat, fuel: nat): Origin
    decreases fuel
  {
    if !Free(n, driven, x) || OutputOn(n, x, 8).Nothing? then At(x)
    else if fuel == 0 then Loop
    else Back(n, driven, n.net(Signal(Uio, OutputOn(n, x, 8).k)), fuel - 1)
  }

  lemma {:induction false} SameAsOrigin(n: Netlist, driven: map<Signal, Level>, l: Levels, x: nat, fuel: nat)
    requires Settled(n, driven, l) && l(n.net(KEPT_LOW)) == 0
    ensures var o := Back(n, driven.Keys, x, fuel);
            o.At? ==> l(x) == l(o.x) && (!Free(n, driven.Keys, o.x) || OutputOn(n, o.x, 8).Nothing?)
    decreases fuel
  {
    hide OutputOn;
    if Free(n, driven.Keys, x) && OutputOn(n, x, 8).Chip? && fuel > 0 {
      SameAsOrigin(n, driven, l, n.net(Signal(Uio, OutputOn(n, x, 8).k)), fuel - 1);
    }
  }

  /** What a signal's level reaches: its own net, and on through the chip. */
  predicate Reached(n: Netlist, driven: set<Signal>, s: Signal, x: nat) {
    n.net(s) !in n.held && if s == KEPT_LOW then x == n.net(s) else Back(n, driven, x, 8) == At(n.net(s))
  }

  /** A way from a signal's net: each next net is a free one with the chip's output for a uio on the net before. */
  predicate Way(n: Netlist, driven: set<Signal>, s: Signal, way: seq<nat>) {
    && way != [] && way[0] == n.net(s)
    && forall i | 0 < i < |way| ::
         && Free(n, driven, way[i]) && OutputOn(n, way[i], 8).Chip?
         && n.net(Signal(Uio, OutputOn(n, way[i], 8).k)) == way[i - 1]
  }

  lemma {:induction false} BackAlong(n: Netlist, driven: set<Signal>, s: Signal, way: seq<nat>, fuel: nat)
    requires s in driven && Way(n, driven, s, way) && |way| <= fuel + 1
    ensures Back(n, driven, way[|way| - 1], fuel) == At(n.net(s))
    decreases |way|
  {
    hide OutputOn;
    if |way| > 1 {
      var m := |way| - 1;
      assert way[..m][m - 1] == way[m - 1];
      BackAlong(n, driven, s, way[..m], fuel - 1);
    }
  }

  lemma {:induction false} AlongBack(n: Netlist, driven: set<Signal>, s: Signal, x: nat, fuel: nat)
    returns (way: seq<nat>)
    requires s in driven && Back(n, driven, x, fuel) == At(n.net(s))
    ensures Way(n, driven, s, way) && way[|way| - 1] == x && |way| <= fuel + 1
    decreases fuel
  {
    hide OutputOn;
    if x == n.net(s) {
      way := [x];
    } else {
      var before := AlongBack(n, driven, s, n.net(Signal(Uio, OutputOn(n, x, 8).k)), fuel - 1);
      way := before + [x];
    }
  }

  /** A way to x, through the chip at most eight times: once for each of its outputs. */
  predicate Leads(n: Netlist, driven: set<Signal>, s: Signal, way: seq<nat>, x: nat) {
    Way(n, driven, s, way) && way[|way| - 1] == x && |way| <= 9
  }

  /** Reached, by ways. */
  lemma ReachedByWays(n: Netlist, driven: set<Signal>, s: Signal, x: nat)
    requires s in driven && s != KEPT_LOW && n.net(s) !in n.held
    ensures Reached(n, driven, s, x) <==> exists way :: Leads(n, driven, s, way, x)
  {
    hide Back;
    if Back(n, driven, x, 8) == At(n.net(s)) {
      var way := AlongBack(n, driven, s, x, 8);
      assert Leads(n, driven, s, way, x);
    }
    if exists way :: Leads(n, driven, s, way, x) {
      var way :| Leads(n, driven, s, way, x);
      BackAlong(n, driven, s, way, 8);
    }
  }

  // ---- what a pulse shows ----

  /** What is so when a signal is pulsed: nothing else drives its net, and KEPT_LOW is low if it is not the signal. */
  predicate Clear(n: Netlist, driven: map<Signal, Level>, s: Signal) {
    && (forall t | t in driven && t != s :: n.net(t) != n.net(s))
    && (s != KEPT_LOW ==> KEPT_LOW in driven && driven[KEPT_LOW] == 0)
    && n.net(KEPT_LOW) !in n.held
  }

  /** A net in a loop of the chip's outputs and inputs keeps its level while nothing reaches it. */
  ghost predicate LoopsHold(n: Netlist, driven: set<Signal>, l1: Levels, l0: Levels) {
    forall x: nat | Back(n, driven, x, 8).Loop? && l1(x) == 1 :: l0(x) == 1
  }

  lemma OnlyReachedFollow(n: Netlist, driven: map<Signal, Level>, s: Signal, l1: Levels, l0: Levels, x: nat)
    requires Clear(n, driven, s) && s != KEPT_LOW && Settled(n, driven[s := 1], l1) && Settled(n, driven[s := 0], l0)
    requires Back(n, driven.Keys + {s}, x, 8).Loop? && l1(x) == 1 ==> l0(x) == 1
    ensures l1(x) == 1 && l0(x) == 0 <==> Reached(n, driven.Keys + {s}, s, x)
  {
    hide OutputOn, Back;
    var keys := driven.Keys + {s};
    assert driven[s := 1].Keys == keys && driven[s := 0].Keys == keys;
    assert n.net(KEPT_LOW) !in n.held && KEPT_LOW in driven[s := 1] && KEPT_LOW in driven[s := 0];
    SameAsOrigin(n, driven[s := 1], l1, x, 8);
    SameAsOrigin(n, driven[s := 0], l0, x, 8);
    var o := Back(n, keys, x, 8);
    if o.At? && o.x != n.net(s) && !Free(n, keys, o.x) && o.x !in n.held {
      var t :| t in keys && n.net(t) == o.x;
      assert driven[s := 1][t] == driven[s := 0][t];
    }
  }

  lemma OnlyKeptLowFollows(n: Netlist, driven: map<Signal, Level>, l1: Levels, l0: Levels, x: nat)
    requires Clear(n, driven, KEPT_LOW) && Settled(n, driven[KEPT_LOW := 1], l1)
    requires Settled(n, driven[KEPT_LOW := 0], l0)
    ensures l1(x) == 1 && l0(x) == 0 <==> Reached(n, driven.Keys + {KEPT_LOW}, KEPT_LOW, x)
  {
    hide OutputOn, Back;
    var s := KEPT_LOW;
    var keys := driven.Keys + {s};
    assert driven[s := 1].Keys == keys && driven[s := 0].Keys == keys;
    assert s in driven[s := 1] && s in driven[s := 0];
    if x != n.net(s) && !Free(n, keys, x) && x !in n.held {
      var t :| t in keys && n.net(t) == x;
      assert driven[s := 1][t] == driven[s := 0][t] && t in driven[s := 1] && t in driven[s := 0];
    }
  }

  ghost predicate CanSettle(n: Netlist, driven: map<Signal, Level>) { exists l :: Settled(n, driven, l) }

  /** The world is this board: after any events the nets have settled if they can, and everything read is a net's
      level. */
  ghost predicate Board(n: Netlist, w: World, levels: seq<Event> -> Levels) {
    && (forall h :: CanSettle(n, Driven(h)) ==> Settled(n, Driven(h), levels(h)))
    && (forall h, g: Gpio :: w.hat(h)(g) == levels(h)(n.pi(g)))
    && (forall h, s :: w.pins(h)(s) == levels(h)(n.net(s)))
    && (forall h, s, v: Level :: w.back(h + [Out(s, v)]) == levels(h + [Out(s, v)])(n.net(s)))
  }

  lemma {:induction false} DrivenLooks(h: seq<Event>, k: nat)
    ensures Driven(h + Looks(k)) == Driven(h)
    decreases k
  {
    LooksChangeNothing(h, k, |h|, [], map[]);
  }

  lemma DrivenInStep(h: seq<Event>, s: Signal, samples: nat)
    ensures Driven(ToHigh(h, s)) == Driven(h)[s := 1] == Driven(AfterHigh(h, s, samples))
    ensures Driven(ToLow(h, s, samples)) == Driven(h)[s := 0] == Driven(AfterLow(h, s, samples))
    ensures Driven(h + [Out(s, 1)]) == Driven(h)[s := 1]
  {
    hide Driven, Looks;
    DrivenNext(h, Out(s, 1));
    DrivenNext(h + [Out(s, 1)], Look);
    DrivenLooks(h + [Out(s, 1)], samples);
    DrivenNext(h + [Out(s, 1)] + Looks(samples), Ask);
    var high := AfterHigh(h, s, samples);
    DrivenNext(high, Out(s, 0));
    DrivenNext(high + [Out(s, 0)], Look);
    DrivenLooks(high + [Out(s, 0)], samples);
    DrivenNext(high + [Out(s, 0)] + Looks(samples), Ask);
    assert Driven(h)[s := 1][s := 0] == Driven(h)[s := 0];
  }

  /** Which nets follow a signal that is driven high, then low. */
  lemma ReachedFollow(n: Netlist, driven: map<Signal, Level>, s: Signal, l1: Levels, l0: Levels, x: nat)
    requires Clear(n, driven, s) && Settled(n, driven[s := 1], l1) && Settled(n, driven[s := 0], l0)
    requires LoopsHold(n, driven.Keys + {s}, l1, l0)
    ensures l1(x) == 1 && l0(x) == 0 <==> Reached(n, driven.Keys + {s}, s, x)
  {
    hide OutputOn, Back, Settled, Reached;
    if s == KEPT_LOW {
      OnlyKeptLowFollows(n, driven, l1, l0, x);
    } else {
      OnlyReachedFollow(n, driven, s, l1, l0, x);
    }
  }

  /** On any board whose nets settle, where no two of the chip's outputs meet, a step shows exactly the Pi lines and the
      RP2's inputs its signal reaches. */
  lemma StepIsExact(n: Netlist, w: World, levels: seq<Event> -> Levels, h: seq<Event>, s: Signal, samples: nat,
                    lines: set<Gpio>,
                    all: set<Signal>)
    requires Board(n, w, levels) && OneOutputEach(n) && Clear(n, Driven(h), s)
    requires CanSettle(n, Driven(h)[s := 1]) && CanSettle(n, Driven(h)[s := 0])
    requires LoopsHold(n, Driven(h).Keys + {s}, levels(ToHigh(h, s)), levels(ToLow(h, s, samples)))
    requires LoopsHold(n, Driven(h).Keys + {s}, levels(AfterHigh(h, s, samples)), levels(AfterLow(h, s, samples)))
    ensures Observed(w, h, s, samples, lines) == set g | g in lines && Reached(n, Driven(h).Keys + {s}, s, n.pi(g))
    ensures Followers(w, h, s, samples, all)
         == set o | o in all && o != s && Reached(n, Driven(h).Keys + {s}, s, n.net(o))
  {
    hide Back, Driven, OutputOn, ToHigh, ToLow, AfterHigh, AfterLow, FreeLevel, CanSettle, LoopsHold, Settled;
    DrivenInStep(h, s, samples);
    var keys := Driven(h).Keys + {s};
    var l1, l0 := levels(ToHigh(h, s)), levels(ToLow(h, s, samples));
    forall g | g in lines ensures l1(n.pi(g)) == 1 && l0(n.pi(g)) == 0 <==> Reached(n, keys, s, n.pi(g)) {
      ReachedFollow(n, Driven(h), s, l1, l0, n.pi(g));
    }
    var m1, m0 := levels(AfterHigh(h, s, samples)), levels(AfterLow(h, s, samples));
    forall o | o in all ensures m1(n.net(o)) == 1 && m0(n.net(o)) == 0 <==> Reached(n, keys, s, n.net(o)) {
      ReachedFollow(n, Driven(h), s, m1, m0, n.net(o));
    }
    ReadBack(n, w, levels, h, s);
  }

  /** The RP2 fails to read its 1 back only where something holds the net. */
  lemma ReadBack(n: Netlist, w: World, levels: seq<Event> -> Levels, h: seq<Event>, s: Signal)
    requires Board(n, w, levels) && CanSettle(n, Driven(h)[s := 1])
    ensures w.back(h + [Out(s, 1)]) != 1 ==> n.net(s) in n.held
  {
    hide Driven, FreeLevel, CanSettle;
    DrivenNext(h, Out(s, 1));
    assert Settled(n, Driven(h + [Out(s, 1)]), levels(h + [Out(s, 1)]));
    assert s in Driven(h + [Out(s, 1)]);
    assert w.back(h + [Out(s, 1)]) == levels(h + [Out(s, 1)])(n.net(s));
  }

  /** A step can be told exactly: the signal is clear, the nets settle with it high and low, and none is in a loop of
      the chip's outputs and inputs. */
  ghost predicate Exact(n: Netlist, driven: map<Signal, Level>, s: Signal) {
    && Clear(n, driven, s) && CanSettle(n, driven[s := 1]) && CanSettle(n, driven[s := 0])
    && forall x: nat :: Back(n, driven.Keys + {s}, x, 8).At?
  }

  /** The results are what a signal reaches. */
  ghost predicate IsReached(n: Netlist, driven: set<Signal>, s: Signal, lines: set<Gpio>, all: set<Signal>,
                            seen: set<Gpio>, followers: set<Signal>)
  {
    && seen == (set g | g in lines && Reached(n, driven, s, n.pi(g)))
    && followers == (set o | o in all && o != s && Reached(n, driven, s, n.net(o)))
  }

  /** In its i-th step a walk told what s reaches, with what it had left driven by then. */
  ghost predicate ReachedInStep(p: Probe, n: Netlist, pass: Pass, chosen: seq<Signal>,
                                partners: map<Signal, set<Signal>>, s: Signal, i: nat)
    requires i < |chosen| && s in pass.observed && s in pass.follows
  {
    chosen[i] == s && IsReached(n, DrivenAt(pass, chosen, partners, i).Keys + {s}, s, p.lines, p.all,
                                pass.observed[s], pass.follows[s])
  }

  /** On any board where no two of the chip's outputs meet, if every step of a walk can be told exactly, so is the walk:
      each signal's results are exactly what it reaches, with what the walk has left driven by then. */
  lemma WalkIsExact(p: Probe, n: Netlist, levels: seq<Event> -> Levels, pass: Pass, chosen: seq<Signal>,
                    partners: map<Signal, set<Signal>>)
    requires Board(n, p.world, levels) && OneOutputEach(n) && p.Made(pass, chosen, partners, |chosen|)
    requires forall i | 0 <= i < |chosen| :: Exact(n, DrivenAt(pass, chosen, partners, i), chosen[i])
    ensures pass.observed.Keys == pass.follows.Keys == set s | s in chosen
    ensures forall s | s in pass.observed ::
              exists i :: 0 <= i < |chosen| && ReachedInStep(p, n, pass, chosen, partners, s, i)
  {
    hide Driven, Left, Alone, Observed, Followers, Board, AfterPulse, DrivenAt, Exact, IsReached, OneOutputEach;
    assert chosen[..|chosen|] == chosen;
    forall s | s in pass.observed
      ensures exists i :: 0 <= i < |chosen| && ReachedInStep(p, n, pass, chosen, partners, s, i)
    {
      assert p.PulsedBy(pass, s, chosen, partners, |chosen|);
      var i :| 0 <= i < |chosen| && chosen[i] == s && Driven(pass.at[s]) == DrivenAt(pass, chosen, partners, i);
      PulseIsExact(n, p.world, levels, pass.at[s], s, p.samples, p.lines, p.all);
      assert ReachedInStep(p, n, pass, chosen, partners, s, i);
    }
  }

  lemma PulseIsExact(n: Netlist, w: World, levels: seq<Event> -> Levels, h: seq<Event>, s: Signal, samples: nat,
                     lines: set<Gpio>, all: set<Signal>)
    requires Board(n, w, levels) && OneOutputEach(n) && Exact(n, Driven(h), s)
    ensures IsReached(n, Driven(h).Keys + {s}, s, lines, all, Observed(w, h, s, samples, lines),
                      Followers(w, h, s, samples, all))
  {
    hide Driven, Observed, Followers, Board, OneOutputEach, Clear, CanSettle, Back, Reached, LoopsHold;
    var keys := Driven(h).Keys + {s};
    AllEnd(n, keys, levels(ToHigh(h, s)), levels(ToLow(h, s, samples)));
    AllEnd(n, keys, levels(AfterHigh(h, s, samples)), levels(AfterLow(h, s, samples)));
    StepIsExact(n, w, levels, h, s, samples, lines, all);
  }

  // ---- the cabling of the ASIC boards ----

  const JA: seq<Gpio> := [8, 10, 9, 11, 19, 21, 20, 18]
  const JB: seq<Gpio> := [7, 10, 9, 11, 26, 13, 3, 2]
  const JC: seq<Gpio> := [16, 14, 15, 17, 4, 12, 5, 6]

  /** profile_lines("asic"). */
  function LineOf(s: Signal): Gpio
    requires s.bit < 8
  {
    match s.group
    case UiIn => JA[s.bit]
    case Uio => JB[s.bit]
    case UoOut => JC[s.bit]
  }

  /** connected_uio("asic", name) */
  function ConnectedUio(s: Signal): set<nat>
    requires s.bit < 8
  {
    set j | 0 <= j < 8 && LineOf(Signal(Uio, j)) == LineOf(s)
  }

  /** expected_map("asic", True)[name]: its own line, and the chip's copy of every uio bit it drives. */
  function Expected(s: Signal): set<Gpio>
    requires s.bit < 8
  {
    {LineOf(s)} + set j | j in ConnectedUio(s) :: LineOf(Signal(UoOut, j))
  }

  /** shared_partners("asic")[name]: the RP2's other signals on its line. */
  predicate Shares(s: Signal, t: Signal)
    requires s.bit < 8
  {
    t.bit < 8 && !t.group.UoOut? && t != s && LineOf(t) == LineOf(s)
  }

  /** The HAT's lines: two of the 24 signals are on one exactly when they are ui_in and uio of the same bit, 1 to 3; and
      uio[6:7] are on the Pi's I2C lines, 3 and 2. */
  lemma SharedLines(s: Signal, t: Signal)
    requires s.bit < 8 && t.bit < 8 && s != t
    ensures LineOf(s) == LineOf(t) <==> s.bit == t.bit && 1 <= s.bit <= 3 && !s.group.UoOut? && !t.group.UoOut?
    ensures LineOf(Signal(Uio, 6)) == 3 && LineOf(Signal(Uio, 7)) == 2
  {}

  /** That cabling: a signal's net is its Pi line's. */
  ghost predicate Cabled(n: Netlist) {
    && (forall s: Signal | s.bit < 8 :: n.net(s) == LineOf(s)) && (forall g: Gpio :: n.pi(g) == g)
  }

  lemma ChipLines(k: nat, j: nat)
    requires k < 8 && j < 8
    ensures JC[k] !in JA && JC[k] !in JB && (JC[k] == JC[j] ==> k == j)
  {}

  lemma OutputIs(n: Netlist, x: nat)
    requires Cabled(n)
    ensures OutputOn(n, x, 8).Chip? <==> x in JC
    ensures forall k | 0 <= k < 8 && x == JC[k] :: OutputOn(n, x, 8) == Chip(k)
  {
    hide OutputOn;
    forall j | 0 <= j < 8 ensures n.net(Signal(UoOut, j)) == JC[j] {}
    var o := OutputOn(n, x, 8);
    if o.Chip? {
      assert n.net(Signal(UoOut, o.k)) == JC[o.k];
      forall k | 0 <= k < 8 && x == JC[k] ensures k == o.k {
        ChipLines(k, o.k);
      }
    } else {
      forall k | 0 <= k < 8 ensures JC[k] != x {
        assert n.net(Signal(UoOut, k)) == JC[k];
      }
    }
  }

  /** What each of the RP2's signals reaches with that cabling: its expected lines, but for those something holds. */
  lemma ReachedIsExpected(n: Netlist, driven: set<Signal>, s: Signal, g: Gpio)
    requires Cabled(n) && s.bit < 8 && !s.group.UoOut? && LineOf(s) !in n.held
    requires s in driven && forall t | t in driven :: t.bit < 8 && !t.group.UoOut?
    ensures Reached(n, driven, s, n.pi(g)) <==> g in Expected(s) && g !in n.held
  {
    hide OutputOn;
    OutputIs(n, g);
    if s == KEPT_LOW {
      ResetLine();
    } else if g in JC {
      var k :| 0 <= k < 8 && g == JC[k];
      ChipNotDriven(n, driven, k);
      OutputIs(n, JB[k]);
      assert n.net(Signal(Uio, k)) == JB[k];
      ChipLines(k, k);
      UioNotChip(k);
      ExpectedChip(s, k);
      assert LineOf(s) != JC[k];
      assert Back(n, driven, JB[k], 7) == At(JB[k]);
      assert g !in n.held ==> Free(n, driven, g) && Back(n, driven, g, 8) == At(JB[k]);
    } else {
      ExpectedOwn(s, g);
    }
  }

  lemma ResetLine()
    ensures Expected(KEPT_LOW) == {8}
  {
    assert LineOf(KEPT_LOW) == 8 && forall j | 0 <= j < 8 :: JB[j] != 8;
    assert ConnectedUio(KEPT_LOW) == {};
  }

  lemma UioNotChip(k: nat)
    requires k < 8
    ensures JB[k] !in JC
  {}

  lemma ChipNotDriven(n: Netlist, driven: set<Signal>, k: nat)
    requires Cabled(n) && k < 8 && forall t | t in driven :: t.bit < 8 && !t.group.UoOut?
    ensures forall t | t in driven :: n.net(t) != JC[k]
  {
    forall t | t in driven ensures n.net(t) != JC[k] {
      assert n.net(t) == LineOf(t);
      ChipLines(k, k);
    }
  }

  lemma ExpectedChip(s: Signal, k: nat)
    requires s.bit < 8 && !s.group.UoOut? && k < 8
    ensures JC[k] in Expected(s) <==> JB[k] == LineOf(s)
  {
    ChipLines(k, k);
    assert JC[k] != LineOf(s);
    if JB[k] == LineOf(s) {
      assert k in ConnectedUio(s) && LineOf(Signal(UoOut, k)) == JC[k];
    }
    forall j | j in ConnectedUio(s) && LineOf(Signal(UoOut, j)) == JC[k] ensures JB[k] == LineOf(s) {
      ChipLines(k, j);
    }
  }

  lemma ExpectedOwn(s: Signal, g: Gpio)
    requires s.bit < 8 && g !in JC
    ensures g in Expected(s) <==> g == LineOf(s)
  {
    forall j | j in ConnectedUio(s) ensures LineOf(Signal(UoOut, j)) in JC {}
  }

  /** The RP2's signals, no two that share a net driven apart. */
  predicate Agreeing(n: Netlist, driven: map<Signal, Level>) {
    && (forall t | t in driven :: t.bit < 8 && !t.group.UoOut?)
    && (forall s, t | s in driven && t in driven && n.net(s) == n.net(t) :: driven[s] == driven[t])
  }

  /** The level of a net the chip does not drive. */
  ghost function OwnLevel(n: Netlist, driven: map<Signal, Level>, x: nat): Level {
    if x in n.held then n.held[x]
    else if s :| s in driven && n.net(s) == x then driven[s]
    else n.rest(x)
  }

  ghost function CabledLevel(n: Netlist, driven: map<Signal, Level>, x: nat): Level {
    var high := OwnLevel(n, driven, LineOf(KEPT_LOW)) == 1;
    var o := OutputOn(n, x, 8);
    if !Free(n, driven.Keys, x) then OwnLevel(n, driven, x)
    else if o.Chip? then (if high then 0 else OwnLevel(n, driven, n.net(Signal(Uio, o.k))))
    else if high && OnUio(n, x) then 0
    else n.rest(x)
  }

  lemma OwnLevelIs(n: Netlist, driven: map<Signal, Level>, x: nat)
    requires Agreeing(n, driven)
    ensures x in n.held ==> OwnLevel(n, driven, x) == n.held[x]
    ensures x !in n.held ==> forall s | s in driven && n.net(s) == x :: OwnLevel(n, driven, x) == driven[s]
    ensures Free(n, driven.Keys, x) ==> OwnLevel(n, driven, x) == n.rest(x)
  {}

  lemma ResetNetIsOwn(n: Netlist, driven: map<Signal, Level>)
    requires Cabled(n) && Agreeing(n, driven)
    ensures CabledLevel(n, driven, n.net(KEPT_LOW)) == OwnLevel(n, driven, LineOf(KEPT_LOW))
  {
    hide OutputOn, OwnLevel;
    var x := n.net(KEPT_LOW);
    assert x == LineOf(KEPT_LOW) == 8 && x !in JC;
    OutputIs(n, x);
    assert !OnUio(n, x) by {
      forall j | 0 <= j < 8 ensures n.net(Signal(Uio, j)) != x {
        assert n.net(Signal(Uio, j)) == LineOf(Signal(Uio, j)) == JB[j];
      }
    }
    OwnLevelIs(n, driven, x);
  }

  lemma UioNetIsOwn(n: Netlist, driven: map<Signal, Level>, k: nat)
    requires Cabled(n) && Agreeing(n, driven) && k < 8 && OwnLevel(n, driven, LineOf(KEPT_LOW)) == 0
    ensures CabledLevel(n, driven, n.net(Signal(Uio, k))) == OwnLevel(n, driven, n.net(Signal(Uio, k)))
  {
    hide OutputOn, OwnLevel;
    var x := n.net(Signal(Uio, k));
    assert x == LineOf(Signal(Uio, k)) == JB[k];
    UioNotChip(k);
    OutputIs(n, x);
    OwnLevelIs(n, driven, x);
  }

  /** With that cabling the nets settle, whatever the RP2 drives that agrees. */
  lemma CablingSettles(n: Netlist, driven: map<Signal, Level>)
    requires Cabled(n) && Agreeing(n, driven)
    ensures CanSettle(n, driven)
  {
    hide OutputOn, OwnLevel, OnUio;
    var l: nat -> Level := (x: nat) => CabledLevel(n, driven, x);
    ResetNetIsOwn(n, driven);
    forall x | x in n.held ensures l(x) == n.held[x] {
      OwnLevelIs(n, driven, x);
    }
    forall s | s in driven && n.net(s) !in n.held ensures l(n.net(s)) == driven[s] {
      OwnLevelIs(n, driven, n.net(s));
    }
    forall x: nat | Free(n, driven.Keys, x) ensures l(x) == FreeLevel(n, l, x) {
      var o := OutputOn(n, x, 8);
      if o.Chip? && l(n.net(KEPT_LOW)) == 0 {
        UioNetIsOwn(n, driven, o.k);
      }
    }
    assert Settled(n, driven, l);
  }

  lemma NoLoops(n: Netlist, driven: set<Signal>, x: nat)
    requires Cabled(n)
    ensures Back(n, driven, x, 8).At?
  {
    hide OutputOn;
    OutputIs(n, x);
    var o := OutputOn(n, x, 8);
    if o.Chip? {
      var y := n.net(Signal(Uio, o.k));
      assert y == LineOf(Signal(Uio, o.k)) == JB[o.k];
      UioNotChip(o.k);
      OutputIs(n, y);
      assert Back(n, driven, y, 7) == At(y);
    }
  }

  lemma AllEnd(n: Netlist, driven: set<Signal>, l1: Levels, l0: Levels)
    requires forall x: nat :: Back(n, driven, x, 8).At?
    ensures LoopsHold(n, driven, l1, l0)
  {}

  /** Nothing else on its net, a signal can be driven either way. */
  lemma PulseAgrees(n: Netlist, driven: map<Signal, Level>, s: Signal, v: Level)
    requires Agreeing(n, driven) && s.bit < 8 && !s.group.UoOut?
    requires forall t | t in driven && t != s :: n.net(t) != n.net(s)
    ensures Agreeing(n, driven[s := v])
  {}

  /** With that cabling there is one way for the nets to settle. */
  lemma SettlesOneWay(n: Netlist, driven: map<Signal, Level>, l1: Levels, l2: Levels, x: nat)
    requires Cabled(n) && Settled(n, driven, l1) && Settled(n, driven, l2)
    ensures l1(x) == l2(x)
  {
    hide OutputOn, OnUio;
    var r := n.net(KEPT_LOW);
    OutputIs(n, r);
    assert r == LineOf(KEPT_LOW) == 8;
    assert !OnUio(n, r) by { ResetNotUio(n); }
    SettlesAlike(n, driven, l1, l2, r);
    OutputIs(n, x);
    var o := OutputOn(n, x, 8);
    if o.Chip? {
      var y := n.net(Signal(Uio, o.k));
      assert y == LineOf(Signal(Uio, o.k)) == JB[o.k];
      UioNotChip(o.k);
      OutputIs(n, y);
      SettlesAlike(n, driven, l1, l2, y);
    }
    SettlesAlike(n, driven, l1, l2, x);
  }

  lemma ResetNotUio(n: Netlist)
    requires Cabled(n)
    ensures !OnUio(n, 8)
  {
    forall j | 0 <= j < 8 ensures n.net(Signal(Uio, j)) != 8 {
      assert n.net(Signal(Uio, j)) == LineOf(Signal(Uio, j)) == JB[j];
    }
  }

  /** A net settles the same if what it follows does. */
  lemma SettlesAlike(n: Netlist, driven: map<Signal, Level>, l1: Levels, l2: Levels, x: nat)
    requires Settled(n, driven, l1) && Settled(n, driven, l2)
    requires Free(n, driven.Keys, x) ==> FreeLevel(n, l1, x) == FreeLevel(n, l2, x)
    ensures l1(x) == l2(x)
  {
    hide FreeLevel;
    if !Free(n, driven.Keys, x) && x !in n.held {
      var s :| s in driven && n.net(s) == x;
      assert l1(n.net(s)) == driven[s] == l2(n.net(s));
    }
  }

  lemma CabledOneEach(n: Netlist)
    requires Cabled(n)
    ensures OneOutputEach(n)
  {
    forall j, k | 0 <= j < k < 8 ensures n.net(Signal(UoOut, j)) != n.net(Signal(UoOut, k)) {
      assert n.net(Signal(UoOut, j)) == JC[j] && n.net(Signal(UoOut, k)) == JC[k];
      ChipLines(k, j);
    }
  }

  // ---- the walk on such a board ----

  predicate OfRp2(s: Signal) { s.bit < 8 && !s.group.UoOut? }

  /** expected_followers("asic", True, name): the signals on its line, and the chip's copies. */
  predicate ExpectedFollower(s: Signal, o: Signal)
    requires s.bit < 8
  {
    Shares(s, o) || (o.group.UoOut? && o.bit in ConnectedUio(s))
  }

  /** The lines a walk finds for a signal: its expected ones that nothing holds, and none if its own is held. */
  function Found(n: Netlist, s: Signal, lines: set<Gpio>): set<Gpio> {
    set g | g in lines && s.bit < 8 && LineOf(s) !in n.held && g in Expected(s) && g !in n.held
  }

  function FoundFollowing(n: Netlist, s: Signal, all: set<Signal>): set<Signal> {
    set o | o in all && s.bit < 8 && LineOf(s) !in n.held && o.bit < 8 && ExpectedFollower(s, o) && LineOf(o) !in n.held
  }

  /** An expected follower is another signal on an expected line. */
  lemma FollowerLines(s: Signal, o: Signal)
    requires OfRp2(s) && o.bit < 8
    ensures ExpectedFollower(s, o) <==> o != s && LineOf(o) in Expected(s)
  {
    if o.group.UoOut? {
      ExpectedChip(s, o.bit);
    } else {
      assert LineOf(o) !in JC by {
        forall k | 0 <= k < 8 ensures LineOf(o) != JC[k] { ChipLines(k, k); }
      }
      ExpectedOwn(s, LineOf(o));
    }
  }

  /** Of what is driven when a walk begins, the signals that share a line with a chosen one are its partners; the
      reset is nobody's. What is chosen rests anyway. */
  ghost predicate Suit(partners: map<Signal, set<Signal>>, chosen: seq<Signal>, driven: set<Signal>) {
    forall s | s in chosen ::
      && OfRp2(s) && (s != KEPT_LOW ==> KEPT_LOW !in PartnersOf(s, partners))
      && (forall t | t in driven && t !in chosen && t != KEPT_LOW && Shares(s, t) :: t in PartnersOf(s, partners))
  }

  /** Nothing else comes to be driven. */
  predicate Within(now: set<Signal>, driven: set<Signal>, chosen: seq<Signal>) {
    forall t | t in now :: t in driven || t in chosen || t == KEPT_LOW
  }

  const RP2_SIGNALS: set<Signal> := (set j | 0 <= j < 8 :: Signal(UiIn, j)) + (set j | 0 <= j < 8 :: Signal(Uio, j))

  /** shared_partners("asic") */
  function SharedPartners(): map<Signal, set<Signal>> {
    map s | s in RP2_SIGNALS :: set t | t in RP2_SIGNALS && Shares(s, t)
  }

  lemma SharedPartnersSuit(chosen: seq<Signal>, driven: set<Signal>)
    requires (forall s | s in chosen :: OfRp2(s)) && forall t | t in driven :: OfRp2(t)
    ensures Suit(SharedPartners(), chosen, driven)
  {
    forall s | OfRp2(s) ensures s in RP2_SIGNALS {}
    forall s | s in chosen && s != KEPT_LOW ensures !Shares(s, KEPT_LOW) {
      assert LineOf(KEPT_LOW) == 8;
    }
  }

  /** The partners the reverse walk measures: the signals it found on the very same lines. */
  function MeasuredPartners(reverse: map<Signal, set<Gpio>>): map<Signal, set<Signal>> {
    map a | a in reverse :: set b | b in reverse && b != a && reverse[b] == reverse[a]
  }

  /** The reverse walk found a signal on the line that is on its net, unless something holds that. */
  predicate FoundInReverse(n: Netlist, reverse: map<Signal, set<Gpio>>, lines: set<Gpio>) {
    forall s | s in reverse :: reverse[s] == set g | g in lines && n.net(s) == g && g !in n.held
  }

  /** Then the partners of a signal it found are exactly the others on its net, whatever the cabling; and those of one
      it found nowhere are the others found nowhere. */
  lemma MeasuredShareNet(n: Netlist, reverse: map<Signal, set<Gpio>>, lines: set<Gpio>, a: Signal, b: Signal)
    requires FoundInReverse(n, reverse, lines) && a in reverse
    ensures b in PartnersOf(a, MeasuredPartners(reverse)) <==>
            && b in reverse && b != a
            && (if reverse[a] != {} then n.net(b) == n.net(a) else reverse[b] == {})
  {
    if reverse[a] != {} {
      assert n.net(a) in reverse[a];
      if b in reverse && reverse[b] == reverse[a] {
        assert n.net(a) in reverse[b];
      }
    }
  }

  /** What it measured, and shared_partners. */
  function AllPartners(reverse: map<Signal, set<Gpio>>): map<Signal, set<Signal>> {
    map s | s in reverse.Keys + RP2_SIGNALS ::
      PartnersOf(s, MeasuredPartners(reverse)) + PartnersOf(s, SharedPartners())
  }

  /** Those suit the walks: the reverse walk leaves ui_in[0] out, and shared_partners has all that share a line. */
  lemma AllPartnersSuit(reverse: map<Signal, set<Gpio>>, chosen: seq<Signal>, driven: set<Signal>)
    requires KEPT_LOW !in reverse && (forall s | s in chosen :: OfRp2(s)) && forall t | t in driven :: OfRp2(t)
    ensures Suit(AllPartners(reverse), chosen, driven)
  {
    SharedPartnersSuit(chosen, driven);
    forall s | s in chosen ensures s in RP2_SIGNALS {}
  }

  /** ui_in[0] is no chosen signal's partner. */
  predicate NeverReset(partners: map<Signal, set<Signal>>, chosen: seq<Signal>) {
    forall s | s in chosen && s != KEPT_LOW :: KEPT_LOW !in PartnersOf(s, partners)
  }

  /** The partners the walks are given are such: the reverse walk does not measure ui_in[0]. */
  lemma PartnersNeverReset(reverse: map<Signal, set<Gpio>>, chosen: seq<Signal>)
    requires KEPT_LOW !in reverse && forall s | s in chosen :: OfRp2(s)
    ensures NeverReset(MeasuredPartners(reverse), chosen) && NeverReset(AllPartners(reverse), chosen)
  {
    forall s | s in chosen && s != KEPT_LOW ensures !Shares(s, KEPT_LOW) {
      assert LineOf(KEPT_LOW) == 8;
    }
  }

  /** Released partners and one signal at a time: the RP2 never drives a net apart. */
  lemma {:induction false} WalkAgrees(n: Netlist, log: seq<Event>, from: nat, chosen: seq<Signal>,
                                      partners: map<Signal, set<Signal>>)
    requires Cabled(n) && from <= |log| && WalkSafe(log, from, chosen, partners)
    requires Suit(partners, chosen, Driven(log[..from]).Keys) && Agreeing(n, Driven(log[..from]))
    ensures Agreeing(n, Driven(log)) && Within(Driven(log).Keys, Driven(log[..from]).Keys, chosen)
    decreases |log|
  {
    hide Cabled, Driven, Suit, Agreeing, DrivenAfter, Within;
    if |log| == from {
      assert log[..from] == log;
      assert Within(Driven(log).Keys, Driven(log).Keys, chosen) by { WithinItself(Driven(log).Keys, chosen); }
    } else {
      var was, e := log[..|log| - 1], log[|log| - 1];
      assert log == was + [e] && was[..from] == log[..from];
      assert WalkSafe(was, from, chosen, partners) by {
        forall k | from <= k < |was| ensures Allowed(was[..k], was[k], chosen, partners) {
          assert was[..k] == log[..k];
        }
      }
      WalkAgrees(n, was, from, chosen, partners);
      assert Allowed(log[..|was|], log[|was|], chosen, partners);
      DrivenNext(was, e);
      EventAgrees(n, Driven(was), e, chosen, partners, Driven(log[..from]).Keys);
    }
  }

  lemma WithinItself(driven: set<Signal>, chosen: seq<Signal>)
    ensures Within(driven, driven, chosen)
  {}

  lemma EventAgrees(n: Netlist, driven: map<Signal, Level>, e: Event, chosen: seq<Signal>,
                    partners: map<Signal, set<Signal>>, at: set<Signal>)
    requires Cabled(n) && Suit(partners, chosen, at) && Agreeing(n, driven) && Within(driven.Keys, at, chosen)
    requires e.Out? ==> e == Out(KEPT_LOW, 0) || (e.s in chosen && Alone(driven, e.s, chosen, partners))
    ensures Agreeing(n, DrivenAfter(driven, e)) && Within(DrivenAfter(driven, e).Keys, at, chosen)
  {
    if e.Out? {
      if e.s == KEPT_LOW {
        ResetAlone(n, driven);
      } else {
        AloneOnNet(n, driven, e.s, chosen, partners, at);
      }
      PulseAgrees(n, driven, e.s, e.level);
    }
  }

  lemma ResetAlone(n: Netlist, driven: map<Signal, Level>)
    requires Cabled(n) && Agreeing(n, driven)
    ensures forall t | t in driven && t != KEPT_LOW :: n.net(t) != n.net(KEPT_LOW)
  {
    forall t | t in driven && t != KEPT_LOW ensures n.net(t) != n.net(KEPT_LOW) {
      assert n.net(t) == LineOf(t) && n.net(KEPT_LOW) == LineOf(KEPT_LOW) == 8;
    }
  }

  /** A signal that is alone is alone on its net. */
  lemma AloneOnNet(n: Netlist, driven: map<Signal, Level>, s: Signal, chosen: seq<Signal>,
                   partners: map<Signal, set<Signal>>, at: set<Signal>)
    requires Cabled(n) && Suit(partners, chosen, at) && Agreeing(n, driven) && Within(driven.Keys, at, chosen)
    requires s in chosen && Alone(driven, s, chosen, partners)
    ensures forall t | t in driven && t != s :: n.net(t) != n.net(s)
  {
    ResetAlone(n, driven);
    forall t | t in driven && t != s ensures n.net(t) != n.net(s) {
      assert n.net(t) == LineOf(t) && n.net(s) == LineOf(s);
      assert LineOf(KEPT_LOW) == 8;
      if t != KEPT_LOW {
        assert t in at && t !in chosen;
        assert !Shares(s, t);
      }
    }
  }

  /** With the ASIC boards' cabling, whatever holds some of its lines, a signal's pulse shows exactly its expected
      lines and followers that nothing holds. */
  lemma CablingFound(n: Netlist, w: World, levels: seq<Event> -> Levels, h: seq<Event>, s: Signal, samples: nat,
                     lines: set<Gpio>, all: set<Signal>, chosen: seq<Signal>, partners: map<Signal, set<Signal>>,
                     at: set<Signal>)
    requires Board(n, w, levels) && Cabled(n) && Suit(partners, chosen, at) && s in chosen
    requires Alone(Driven(h), s, chosen, partners) && Agreeing(n, Driven(h)) && LineOf(KEPT_LOW) !in n.held
    requires Within(Driven(h).Keys, at, chosen)
    requires s != KEPT_LOW ==> KEPT_LOW in Driven(h) && Driven(h)[KEPT_LOW] == 0
    requires forall o | o in all :: o.bit < 8
    ensures Observed(w, h, s, samples, lines) == Found(n, s, lines)
    ensures Followers(w, h, s, samples, all) == FoundFollowing(n, s, all)
  {
    hide Driven, Observed, Followers, ToHigh, ToLow, AfterHigh, AfterLow, Expected, Board, LoopsHold, Reached,
         CanSettle, Back,
         ExpectedFollower, OneOutputEach;
    assert Clear(n, Driven(h), s) by {
      AloneOnNet(n, Driven(h), s, chosen, partners, at);
      assert n.net(KEPT_LOW) == LineOf(KEPT_LOW);
    }
    PulseAgrees(n, Driven(h), s, 1);
    PulseAgrees(n, Driven(h), s, 0);
    CablingSettles(n, Driven(h)[s := 1]);
    CablingSettles(n, Driven(h)[s := 0]);
    var keys := Driven(h).Keys + {s};
    forall x: nat ensures Back(n, keys, x, 8).At? {
      NoLoops(n, keys, x);
    }
    AllEnd(n, keys, levels(ToHigh(h, s)), levels(ToLow(h, s, samples)));
    AllEnd(n, keys, levels(AfterHigh(h, s, samples)), levels(AfterLow(h, s, samples)));
    CabledOneEach(n);
    StepIsExact(n, w, levels, h, s, samples, lines, all);
    forall g: Gpio ensures Reached(n, keys, s, g) <==> LineOf(s) !in n.held && g in Expected(s) && g !in n.held {
      ReachedOrHeld(n, keys, s, g);
    }
    forall o | o in all
      ensures n.net(o) == LineOf(o) && (ExpectedFollower(s, o) <==> o != s && LineOf(o) in Expected(s))
    {
      FollowerLines(s, o);
    }
  }

  lemma ReachedOrHeld(n: Netlist, driven: set<Signal>, s: Signal, g: Gpio)
    requires Cabled(n) && OfRp2(s) && s in driven && forall t | t in driven :: OfRp2(t)
    ensures Reached(n, driven, s, g) <==> LineOf(s) !in n.held && g in Expected(s) && g !in n.held
  {
    hide Back, Expected;
    assert n.net(s) == LineOf(s) && n.pi(g) == g;
    if LineOf(s) !in n.held {
      ReachedIsExpected(n, driven, s, g);
    }
  }

  /** KEPT_LOW stays low but for its own step. */
  lemma KeptLowStays(driven: map<Signal, Level>, outputs: set<Signal>, chosen: seq<Signal>,
                     partners: map<Signal, set<Signal>>,
                     k: nat)
    requires k <= |chosen| && (KEPT_LOW in chosen || (KEPT_LOW in driven && driven[KEPT_LOW] == 0))
    ensures var left := Left(driven, outputs, chosen, partners, k); KEPT_LOW in left && left[KEPT_LOW] == 0
  {
    hide Released;
  }

  /** What a walk needs of a board with that cabling: whatever is driven before agrees, and ui_in[0] can be held low. */
  ghost predicate CanWalk(n: Netlist, driven: map<Signal, Level>, chosen: seq<Signal>,
                          partners: map<Signal, set<Signal>>)
  {
    && Cabled(n) && Suit(partners, chosen, driven.Keys) && Agreeing(n, driven) && LineOf(KEPT_LOW) !in n.held
    && (KEPT_LOW in chosen || (KEPT_LOW in driven && driven[KEPT_LOW] == 0))
  }

  /** The results are a signal's expected lines and followers that nothing holds, for exactly the chosen. */
  ghost predicate AllFound(n: Netlist, lines: set<Gpio>, all: set<Signal>, chosen: seq<Signal>,
                           observed: map<Signal, set<Gpio>>, follows: map<Signal, set<Signal>>)
  {
    && observed.Keys == follows.Keys == (set s | s in chosen)
    && forall s | s in observed :: observed[s] == Found(n, s, lines) && follows[s] == FoundFollowing(n, s, all)
  }

  /** A walk on such a board, among the events of a safe log. */
  ghost predicate InLog(p: Probe, n: Netlist, pass: Pass, log: seq<Event>, from: nat, chosen: seq<Signal>,
                        partners: map<Signal, set<Signal>>)
  {
    && from <= |pass.before| && pass.before <= log && pass.after <= log && WalkSafe(log, from, chosen, partners)
    && CanWalk(n, Driven(log[..from]), chosen, partners) && CanWalk(n, Driven(pass.before), chosen, partners)
    && p.Made(pass, chosen, partners, |chosen|)
  }

  lemma SafeBefore(log: seq<Event>, h: seq<Event>, from: nat, chosen: seq<Signal>, partners: map<Signal, set<Signal>>)
    requires h <= log && WalkSafe(log, from, chosen, partners)
    ensures WalkSafe(h, from, chosen, partners)
  {
    hide Allowed;
    forall k | from <= k < |h| ensures Allowed(h[..k], h[k], chosen, partners) {
      assert h[..k] == log[..k];
    }
  }

  /** Up to any moment of a safe log the RP2's signals agree. */
  lemma AgreesAt(n: Netlist, log: seq<Event>, h: seq<Event>, from: nat, chosen: seq<Signal>,
                 partners: map<Signal, set<Signal>>)
    requires Cabled(n) && WalkSafe(log, from, chosen, partners) && from <= |h| && h <= log
    requires Suit(partners, chosen, Driven(log[..from]).Keys) && Agreeing(n, Driven(log[..from]))
    ensures Agreeing(n, Driven(h)) && Within(Driven(h).Keys, Driven(log[..from]).Keys, chosen)
  {
    hide *;
    SafeBefore(log, h, from, chosen, partners);
    assert log[..from] == h[..from];
    WalkAgrees(n, h, from, chosen, partners);
  }

  /** Whatever those partners are, ui_in can be walked from rest, and any group with ui_in[0] low. */
  lemma GroupsCanWalk(n: Netlist, chosen: seq<Signal>, partners: map<Signal, set<Signal>>)
    requires Cabled(n) && LineOf(KEPT_LOW) !in n.held && (forall s | s in chosen :: OfRp2(s))
    requires NeverReset(partners, chosen)
    ensures KEPT_LOW in chosen ==> CanWalk(n, map[], chosen, partners)
    ensures CanWalk(n, map[KEPT_LOW := 0], chosen, partners)
  {}

  /** When a signal was pulsed, the RP2's signals agreed and ui_in[0] was low. */
  lemma PulsedRight(p: Probe, n: Netlist, pass: Pass, s: Signal, log: seq<Event>, from: nat, chosen: seq<Signal>,
                    partners: map<Signal, set<Signal>>)
    requires InLog(p, n, pass, log, from, chosen, partners) && s in pass.at && s in pass.observed && s in pass.follows
    requires s in chosen && p.PulsedBy(pass, s, chosen, partners, |chosen|)
    ensures Alone(Driven(pass.at[s]), s, chosen, partners) && Agreeing(n, Driven(pass.at[s]))
    ensures from <= |log| && Within(Driven(pass.at[s]).Keys, Driven(log[..from]).Keys, chosen)
    ensures s != KEPT_LOW ==> KEPT_LOW in Driven(pass.at[s]) && Driven(pass.at[s])[KEPT_LOW] == 0
  {
    hide Driven, WalkSafe, Agreeing, Cabled, Left, Alone, Observed, Followers, p.Made, Looks;
    var h := pass.at[s];
    assert h <= AfterPulse(p.world, h, s, p.samples);
    AgreesAt(n, log, h, from, chosen, partners);
    var i :| 0 <= i < |chosen| && chosen[i] == s && Driven(h) == DrivenAt(pass, chosen, partners, i);
    KeptLowStays(Driven(pass.before), pass.outputs, chosen, partners, i);
  }

  lemma PassFinds(p: Probe, n: Netlist, levels: seq<Event> -> Levels, pass: Pass, log: seq<Event>, from: nat,
                  chosen: seq<Signal>, partners: map<Signal, set<Signal>>)
    requires Board(n, p.world, levels) && InLog(p, n, pass, log, from, chosen, partners)
    requires forall o | o in p.all :: o.bit < 8
    ensures AllFound(n, p.lines, p.all, chosen, pass.observed, pass.follows)
  {
    hide Driven, WalkSafe, Agreeing, Cabled, Left, Alone, Observed, Followers, Board, AfterPulse, Found,
         FoundFollowing, Suit;
    assert chosen[..|chosen|] == chosen;
    forall s | s in pass.observed
      ensures pass.observed[s] == Found(n, s, p.lines) && pass.follows[s] == FoundFollowing(n, s, p.all)
    {
      assert p.PulsedBy(pass, s, chosen, partners, |chosen|);
      PulsedRight(p, n, pass, s, log, from, chosen, partners);
      CablingFound(n, p.world, levels, pass.at[s], s, p.samples, p.lines, p.all, chosen, partners,
                   Driven(log[..from]).Keys);
    }
  }

  /** Two walks, one after the other, find the same. */
  lemma PassesFind(p: Probe, n: Netlist, levels: seq<Event> -> Levels, one: Pass, two: Pass, log: seq<Event>,
                   chosen: seq<Signal>, partners: map<Signal, set<Signal>>)
    requires Board(n, p.world, levels) && CanWalk(n, Driven(one.before), chosen, partners)
    requires forall o | o in p.all :: o.bit < 8
    requires p.Made(one, chosen, partners, |chosen|) && p.Made(two, chosen, partners, |chosen|)
    requires one.before <= one.after == two.before <= two.after == log && WalkSafe(log, |one.before|, chosen, partners)
    ensures AllFound(n, p.lines, p.all, chosen, one.observed, one.follows)
    ensures AllFound(n, p.lines, p.all, chosen, two.observed, two.follows)
    ensures CanWalk(n, Driven(log), chosen, partners)
  {
    hide Driven, WalkSafe, Agreeing, Cabled, Left, Board, AllFound, Suit, p.PulsedBy;
    assert log[..|one.before|] == one.before;
    AgreesAt(n, log, log, |one.before|, chosen, partners);
    AgreesAt(n, log, two.before, |one.before|, chosen, partners);
    KeptLowStays(Driven(one.before), one.outputs, chosen, partners, |chosen|);
    KeptLowStays(Driven(two.before), two.outputs, chosen, partners, |chosen|);
    StillSuits(partners, chosen, Driven(one.before).Keys, Driven(two.before).Keys);
    StillSuits(partners, chosen, Driven(one.before).Keys, Driven(log).Keys);
    PassFinds(p, n, levels, one, log, |one.before|, chosen, partners);
    PassFinds(p, n, levels, two, log, |one.before|, chosen, partners);
  }

  lemma StillSuits(partners: map<Signal, set<Signal>>, chosen: seq<Signal>, driven: set<Signal>, now: set<Signal>)
    requires Suit(partners, chosen, driven) && Within(now, driven, chosen)
    ensures Suit(partners, chosen, now)
  {}

  /** With that cabling no line changes between two looks. */
  lemma NothingFlickers(n: Netlist, w: World, levels: seq<Event> -> Levels, log: seq<Event>, samples: nat,
                        lines: set<Gpio>)
    requires Board(n, w, levels) && Cabled(n) && Agreeing(n, Driven(log)) && Flickered(w, log, samples, lines)
    ensures lines == {}
  {
    hide Driven, Agreeing, Cabled, Settled, CanSettle, Looks;
    var h :| log == h + Looks(samples) && forall g | g in lines :: Flickers(w, h, samples, g);
    DrivenLooks(h, samples);
    DrivenNext(h, Look);
    CablingSettles(n, Driven(h));
    forall g | g in lines ensures false {
      var k :| 0 < k <= samples && w.hat(h + Looks(k))(g) != w.hat(h + [Look])(g);
      DrivenLooks(h, k);
      SettlesOneWay(n, Driven(h), levels(h + Looks(k)), levels(h + [Look]), n.pi(g));
    }
  }

  /** The two walks over a group, on a board with the ASIC boards' cabling, whatever holds some of its lines: they
      fail only for a broken command, and what they find for each signal is exactly its expected lines and its
      expected followers that nothing holds. */
  method WalkCabled(p: Probe, ghost n: Netlist, ghost levels: seq<Event> -> Levels, chosen: seq<Signal>,
                    partners: map<Signal, set<Signal>>)
    returns (o: Outcome, observed: map<Signal, set<Gpio>>, follows: map<Signal, set<Signal>>)
    requires p.samples > 0 && p.Covered() && Board(n, p.world, levels) && CanWalk(n, Driven(p.log), chosen, partners)
    requires forall t | t in p.all :: t.bit < 8
    modifies p`log, p`outputs, p`failures, p`broken
    ensures p.broken >= old(p.broken) && (p.broken == old(p.broken) ==> o.Done?)
    ensures o.Done? ==> p.Covered() && CanWalk(n, Driven(p.log), chosen, partners)
    ensures o.Done? ==> AllFound(n, p.lines, p.all, chosen, observed, follows)
  {
    hide Driven, WalkSafe, Board, Found, FoundFollowing, Flickered, CanWalk, p.Made, p.Covered;
    ghost var was := p.log;
    ghost var one, two;
    o, observed, follows, one, two := p.WalkTwice(chosen, partners);
    if o.Unstable? {
      assert false by {
        NeverUnstable(n, p.world, levels, was, p.log, p.samples, o.lines, chosen, partners);
      }
    } else if o.Done? || o.Disagree? {
      PassesFind(p, n, levels, one, two, p.log, chosen, partners);
    }
  }

  lemma NeverUnstable(n: Netlist, w: World, levels: seq<Event> -> Levels, was: seq<Event>, log: seq<Event>,
                      samples: nat,
                      lines: set<Gpio>, chosen: seq<Signal>, partners: map<Signal, set<Signal>>)
    requires Board(n, w, levels) && CanWalk(n, Driven(was), chosen, partners) && was <= log
    requires WalkSafe(log, |was|, chosen, partners) && Flickered(w, log, samples, lines)
    ensures lines == {}
  {
    hide Driven, WalkSafe, Agreeing, Cabled, Board, Flickered, Suit;
    assert log[..|was|] == was;
    AgreesAt(n, log, log, |was|, chosen, partners);
    NothingFlickers(n, w, levels, log, samples, lines);
  }

  // ---- there are such boards ----

  ghost function SomeLevels(n: Netlist, driven: map<Signal, Level>): (l: Levels)
    ensures CanSettle(n, driven) ==> Settled(n, driven, l)
  {
    if l: Levels :| Settled(n, driven, l) then l else (x: nat) => 0
  }

  /** Whatever is held, and wherever the lines nothing drives rest. */
  lemma SomeBoard(held: map<nat, Level>, rest: nat -> Level) returns (n: Netlist, w: World,
                  levels: seq<Event> -> Levels)
    ensures Cabled(n) && n.held == held && n.rest == rest && Board(n, w, levels)
  {
    hide Settled, Driven, CanSettle;
    n := Netlist((s: Signal) => if s.bit < 8 then LineOf(s) else 0, (g: Gpio) => g, held, rest);
    var net := n;
    var l: seq<Event> -> Levels := (h: seq<Event>) => SomeLevels(net, Driven(h));
    var hat := (h: seq<Event>) => (g: Gpio) => l(h)(net.pi(g));
    var pins := (h: seq<Event>) => (s: Signal) => l(h)(net.net(s));
    var back := (h: seq<Event>) => if h != [] && h[|h| - 1].Out? then l(h)(net.net(h[|h| - 1].s)) else 0;
    w, levels := World(hat, back, pins), l;
  }
}
