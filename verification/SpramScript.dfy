/** The documented order of the SPRAM test as one list of writes and comparisons, the same for every memory; and that
    the test makes them up to the first comparison that differs. */
module SpramScript {
  import opened Bits
  import opened Machine
  import opened SpramPattern
  import opened SpramTest

  /** A write, or a word read and compared. */
  datatype Item = Do(write: Access) | Check(addr: Word, expected: Word)

  function AccessOf(i: Item): Access {
    match i
    case Do(write) => write
    case Check(addr, _) => Read(addr)
  }

  function Accesses(items: seq<Item>): seq<Access> {
    seq(|items|, k requires 0 <= k < |items| => AccessOf(items[k]))
  }

  function PatternWord(i: nat, inverted: bool): Word {
    InvertedIsComplement(4 * i); PatternPieces(4 * i);
    Pattern(4 * i, inverted)
  }

  /** Every word of the region written. */
  function Writes(base: nat, n: nat, inverted: bool): seq<Item>
    requires base + 4 * n <= WORD_LIMIT
  {
    seq(n, i requires 0 <= i < n => Do(Write(base + 4 * i, PatternWord(i, inverted), ALL_LANES)))
  }

  /** Every word of the region compared. */
  function Checks(base: nat, n: nat, inverted: bool): seq<Item>
    requires base + 4 * n <= WORD_LIMIT
  {
    seq(n, i requires 0 <= i < n => Check(base + 4 * i, PatternWord(i, inverted)))
  }

  /** A byte lane: all ones, a zero byte, and the word compared. */
  function LaneItems(addr: Word, lane: nat): seq<Item>
    requires lane < 4
  {
    [Do(Write(addr, ONES, ALL_LANES)), Do(Write(addr, 0, OneLane(lane))), Check(addr, LaneExpected(lane))]
  }

  /** The four lanes at the start of a bank. */
  function BankItems(addr: Word): seq<Item> {
    LaneItems(addr, 0) + LaneItems(addr, 1) + LaneItems(addr, 2) + LaneItems(addr, 3)
  }

  /** The banks from b on. */
  function BanksItems(base: nat, b: nat, banks: nat): seq<Item>
    requires b <= banks && base + BANK_SIZE * banks <= WORD_LIMIT
    decreases banks - b
  {
    if b == banks then [] else BankItems(base + BANK_SIZE * b) + BanksItems(base, b + 1, banks)
  }

  /** The test: the pattern written, then compared; the same with its inverse; the byte lanes of each bank. */
  function Script(base: nat, banks: nat): seq<Item>
    requires base + BANK_SIZE * banks <= WORD_LIMIT
  {
    var n := BANK_SIZE / 4 * banks;
    Writes(base, n, false) + Checks(base, n, false) + Writes(base, n, true) + Checks(base, n, true)
    + BanksItems(base, 0, banks)
  }

  // ---- the first difference ----

  /** The k-th item is a comparison, and the word read after all accesses before it is not the one expected. */
  predicate Differs(memory: Memory, bus: seq<Access>, items: seq<Item>, k: nat)
    requires k < |items|
  {
    items[k].Check? && memory(bus + Accesses(items[..k]), items[k].addr) != items[k].expected
  }

  predicate StopsAt(memory: Memory, bus: seq<Access>, items: seq<Item>, k: nat, o: Outcome)
    requires k < |items|
  {
    && items[k].Check? && (forall j | 0 <= j < k :: !Differs(memory, bus, items, j)) && Differs(memory, bus, items, k)
    && o.Failed? && o.bus == bus + Accesses(items[..k + 1])
    && o.at == items[k].addr && o.expected == items[k].expected && o.read == memory(bus + Accesses(items[..k]), o.at)
  }

  /** All the accesses are made and no comparison differs; or they are made up to the first that does, which is
      reported: where, what was read and what was expected. */
  ghost predicate FirstDifference(memory: Memory, bus: seq<Access>, items: seq<Item>, o: Outcome) {
    if o.Passed? then
      o.bus == bus + Accesses(items) && forall k | 0 <= k < |items| :: !Differs(memory, bus, items, k)
    else
      exists k :: 0 <= k < |items| && StopsAt(memory, bus, items, k, o)
  }

  lemma AccessesJoin(a: seq<Item>, b: seq<Item>)
    ensures Accesses(a + b) == Accesses(a) + Accesses(b)
  {
    hide AccessOf;
  }

  /** A comparison of the second list, in both together. */
  lemma SecondPart(memory: Memory, bus: seq<Access>, a: seq<Item>, b: seq<Item>, k: nat)
    requires k < |b|
    ensures Differs(memory, bus, a + b, |a| + k) <==> Differs(memory, bus + Accesses(a), b, k)
    ensures bus + Accesses((a + b)[..|a| + k]) == bus + Accesses(a) + Accesses(b[..k])
    ensures bus + Accesses((a + b)[..|a| + k + 1]) == bus + Accesses(a) + Accesses(b[..k + 1])
  {
    hide AccessOf, Accesses;
    assert (a + b)[..|a| + k] == a + b[..k] && (a + b)[..|a| + k + 1] == a + b[..k + 1];
    AccessesJoin(a, b[..k]);
    AccessesJoin(a, b[..k + 1]);
    assert bus + (Accesses(a) + Accesses(b[..k])) == bus + Accesses(a) + Accesses(b[..k]);
    assert (a + b)[|a| + k] == b[k];
  }

  lemma FirstPart(memory: Memory, bus: seq<Access>, a: seq<Item>, b: seq<Item>, k: nat)
    requires k < |a|
    ensures Differs(memory, bus, a + b, k) <==> Differs(memory, bus, a, k)
    ensures (a + b)[..k] == a[..k] && (a + b)[..k + 1] == a[..k + 1]
  {
    hide Accesses;
    assert (a + b)[..k] == a[..k] && (a + b)[..k + 1] == a[..k + 1];
  }

  /** One list after another: the second is begun only if nothing in the first differs. */
  lemma Then(memory: Memory, bus: seq<Access>, a: seq<Item>, b: seq<Item>, o: Outcome, o': Outcome)
    requires FirstDifference(memory, bus, a, o)
    requires if o.Passed? then FirstDifference(memory, o.bus, b, o') else o' == o
    ensures FirstDifference(memory, bus, a + b, o')
  {
    hide Accesses, Differs, AccessOf;
    forall k | 0 <= k < |a| ensures Differs(memory, bus, a + b, k) <==> Differs(memory, bus, a, k) {
      FirstPart(memory, bus, a, b, k);
    }
    if o.Failed? {
      var k :| 0 <= k < |a| && StopsAt(memory, bus, a, k, o);
      FirstPart(memory, bus, a, b, k);
      assert StopsAt(memory, bus, a + b, k, o');
    } else {
      forall k | |a| <= k < |a + b| ensures Differs(memory, bus, a + b, k) <==> Differs(memory, o.bus, b, k - |a|) {
        SecondPart(memory, bus, a, b, k - |a|);
      }
      AccessesJoin(a, b);
      if o'.Failed? {
        var k :| 0 <= k < |b| && StopsAt(memory, o.bus, b, k, o');
        SecondPart(memory, bus, a, b, k);
        assert StopsAt(memory, bus, a + b, |a| + k, o');
      }
    }
  }

  // ---- the parts of the test ----

  lemma Compares(memory: Memory, bus: seq<Access>, addr: Word, expected: Word)
    ensures FirstDifference(memory, bus, [Check(addr, expected)], Compare(memory, bus, addr, expected))
  {
    var items, o := [Check(addr, expected)], Compare(memory, bus, addr, expected);
    assert Accesses(items[..0]) == [] && bus + [] == bus && items[..1] == items && Accesses(items) == [Read(addr)];
    if o.Failed? {
      assert StopsAt(memory, bus, items, 0, o);
    }
  }

  lemma NothingCompared(memory: Memory, bus: seq<Access>, items: seq<Item>)
    requires forall k | 0 <= k < |items| :: items[k].Do?
    ensures FirstDifference(memory, bus, items, Passed(bus + Accesses(items)))
  {
    hide Accesses;
  }

  lemma {:induction false} WritesAll(bus: seq<Access>, base: nat, i: nat, n: nat, inverted: bool)
    requires i <= n && base + 4 * n <= WORD_LIMIT
    ensures Written(bus, base, i, n, inverted) == bus + Accesses(Writes(base, n, inverted)[i..])
    decreases n - i
  {
    hide Pattern;
    var items := Writes(base, n, inverted);
    if i < n {
      WritesAll(bus + [AccessOf(items[i])], base, i + 1, n, inverted);
      assert items[i..] == [items[i]] + items[i + 1..];
      assert Accesses([items[i]]) == [AccessOf(items[i])];
      AccessesJoin([items[i]], items[i + 1..]);
    } else {
      assert bus + Accesses([]) == bus;
    }
  }

  lemma {:induction false} ReadsAll(memory: Memory, bus: seq<Access>, base: nat, i: nat, n: nat, inverted: bool)
    requires i <= n && base + 4 * n <= WORD_LIMIT
    ensures FirstDifference(memory, bus, Checks(base, n, inverted)[i..], ReadBack(memory, bus, base, i, n, inverted))
    decreases n - i
  {
    hide Pattern, FirstDifference, Accesses;
    var items := Checks(base, n, inverted);
    if i < n {
      var first := Compare(memory, bus, base + 4 * i, PatternWord(i, inverted));
      Compares(memory, bus, base + 4 * i, PatternWord(i, inverted));
      if first.Passed? {
        ReadsAll(memory, first.bus, base, i + 1, n, inverted);
      }
      assert items[i..] == [items[i]] + items[i + 1..];
      Then(memory, bus, [items[i]], items[i + 1..], first, ReadBack(memory, bus, base, i, n, inverted));
    } else {
      Nothing(memory, bus);
    }
  }

  lemma Nothing(memory: Memory, bus: seq<Access>)
    ensures FirstDifference(memory, bus, [], Passed(bus))
  {
    assert bus + Accesses([]) == bus;
  }

  /** A pass writes every word, then compares every word. */
  lemma PassInOrder(memory: Memory, bus: seq<Access>, base: nat, n: nat, inverted: bool)
    requires base + 4 * n <= WORD_LIMIT
    ensures FirstDifference(memory, bus, Writes(base, n, inverted) + Checks(base, n, inverted),
                            PatternPass(memory, bus, base, n, inverted))
  {
    hide FirstDifference, Pattern, Accesses;
    var writes, checks := Writes(base, n, inverted), Checks(base, n, inverted);
    var written := Written(bus, base, 0, n, inverted);
    WritesAll(bus, base, 0, n, inverted);
    assert writes[0..] == writes && checks[0..] == checks;
    NothingCompared(memory, bus, writes);
    ReadsAll(memory, written, base, 0, n, inverted);
    Then(memory, bus, writes, checks, Passed(written), PatternPass(memory, bus, base, n, inverted));
  }

  lemma LaneInOrder(memory: Memory, bus: seq<Access>, addr: Word, lane: nat)
    requires lane < 4
    ensures FirstDifference(memory, bus, LaneItems(addr, lane), LaneTest(memory, bus, addr, lane))
  {
    hide FirstDifference;
    var items := LaneItems(addr, lane);
    var written := bus + [Write(addr, ONES, ALL_LANES), Write(addr, 0, OneLane(lane))];
    assert Accesses(items[..2]) == [Write(addr, ONES, ALL_LANES), Write(addr, 0, OneLane(lane))];
    NothingCompared(memory, bus, items[..2]);
    Compares(memory, written, addr, LaneExpected(lane));
    assert items == items[..2] + [items[2]];
    Then(memory, bus, items[..2], [items[2]], Passed(written), LaneTest(memory, bus, addr, lane));
  }

  /** The lanes of a bank from one on. */
  function LanesFrom(addr: Word, lane: nat): seq<Item>
    requires lane <= 4
    decreases 4 - lane
  {
    if lane == 4 then [] else LaneItems(addr, lane) + LanesFrom(addr, lane + 1)
  }

  lemma {:induction false} BankInOrder(memory: Memory, bus: seq<Access>, addr: Word, lane: nat)
    requires lane <= 4
    ensures FirstDifference(memory, bus, LanesFrom(addr, lane), BankTest(memory, bus, addr, lane))
    decreases 4 - lane
  {
    hide FirstDifference, LaneTest, LaneItems;
    if lane < 4 {
      var first := LaneTest(memory, bus, addr, lane);
      LaneInOrder(memory, bus, addr, lane);
      if first.Passed? {
        BankInOrder(memory, first.bus, addr, lane + 1);
      }
      Then(memory, bus, LaneItems(addr, lane), LanesFrom(addr, lane + 1), first, BankTest(memory, bus, addr, lane));
    } else {
      Nothing(memory, bus);
    }
  }

  lemma AllLanes(addr: Word)
    ensures LanesFrom(addr, 0) == BankItems(addr)
  {
    hide LaneItems;
    assert LanesFrom(addr, 4) == [];
    assert LanesFrom(addr, 2) == LaneItems(addr, 2) + LaneItems(addr, 3);
    assert LanesFrom(addr, 0) == LaneItems(addr, 0) + LaneItems(addr, 1) + LanesFrom(addr, 2);
  }

  lemma {:induction false} BanksInOrder(memory: Memory, bus: seq<Access>, base: nat, b: nat, banks: nat)
    requires b <= banks && base + BANK_SIZE * banks <= WORD_LIMIT
    ensures FirstDifference(memory, bus, BanksItems(base, b, banks), LanePass(memory, bus, base, b, banks))
    decreases banks - b
  {
    hide FirstDifference, BankTest, BankItems;
    if b < banks {
      var addr := base + BANK_SIZE * b;
      var first := BankTest(memory, bus, addr, 0);
      BankInOrder(memory, bus, addr, 0);
      AllLanes(addr);
      if first.Passed? {
        BanksInOrder(memory, first.bus, base, b + 1, banks);
      }
      Then(memory, bus, BankItems(addr), BanksItems(base, b + 1, banks), first, LanePass(memory, bus, base, b, banks));
    } else {
      Nothing(memory, bus);
    }
  }

  /** On any memory the test does what the script says up to the first comparison that differs, and reports that one;
      and it passes if none differs. */
  lemma TestStopsAtFirstDifference(memory: Memory, bus: seq<Access>, base: nat, banks: nat)
    requires base + BANK_SIZE * banks <= WORD_LIMIT
    ensures FirstDifference(memory, bus, Script(base, banks), TestMemory(memory, bus, base, banks))
  {
    hide FirstDifference, PatternPass, LanePass, Writes, Checks, BanksItems;
    var n := BANK_SIZE / 4 * banks;
    var one, two := Writes(base, n, false) + Checks(base, n, false), Writes(base, n, true) + Checks(base, n, true);
    var lanes := BanksItems(base, 0, banks);
    var all := TestMemory(memory, bus, base, banks);
    var plain := PatternPass(memory, bus, base, n, false);
    PassInOrder(memory, bus, base, n, false);
    var both := plain;
    if plain.Passed? {
      both := PatternPass(memory, plain.bus, base, n, true);
      PassInOrder(memory, plain.bus, base, n, true);
      if both.Passed? {
        BanksInOrder(memory, both.bus, base, 0, banks);
      }
    }
    Then(memory, bus, one, two, plain, both);
    Then(memory, bus, one + two, lanes, both, all);
    assert Script(base, banks) == one + two + lanes;
  }
}
