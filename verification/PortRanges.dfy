/** Switch ports as the status page prints them and the command line takes them: compact and parse_ports. */
module PortRanges {

  /** An address: a switch's port, or anything else as it is. */
  datatype Address = At(switch: nat, port: nat) | Other(text: string)

  /** "pF" or "pF-L". */
  datatype Run = Run(first: int, last: int)

  datatype SwitchRuns = SwitchRuns(switch: int, runs: seq<Run>)

  /** What compact prints: each switch with its runs, then the other addresses as they are. */
  datatype Summary = Summary(switches: seq<SwitchRuns>, other: seq<string>)

  predicate Ascending(s: seq<int>) { forall i, j | 0 <= i < j < |s| :: s[i] <= s[j] }

  /** parse_ports's range rule: from the first to the last, and nothing if the last comes first. */
  function Range(first: int, last: int): (r: seq<int>)
    ensures |r| == if last < first then 0 else last - first + 1
  {
    if last < first then [] else seq(last - first + 1, k requires 0 <= k < last - first + 1 => first + k)
  }

  function Expand(runs: seq<Run>): seq<int> {
    if runs == [] then [] else Expand(runs[..|runs| - 1]) + Range(runs[|runs| - 1].first, runs[|runs| - 1].last)
  }

  lemma ExpandMore(runs: seq<Run>, run: Run)
    ensures Expand(runs + [run]) == Expand(runs) + Range(run.first, run.last)
  {
    assert (runs + [run])[..|runs|] == runs;
  }

  // ---- runs ----

  /** No run could take in the next one's first port. */
  predicate Maximal(runs: seq<Run>) {
    && (forall k | 0 <= k < |runs| :: runs[k].first <= runs[k].last)
    && (forall k | 0 < k < |runs| :: runs[k].first != runs[k - 1].last + 1)
  }

  lemma RangeMore(first: int, last: int)
    requires first <= last
    ensures Range(first, last + 1) == Range(first, last) + [last + 1] && Range(first, first) == [first]
  {}

  lemma MaximalMore(runs: seq<Run>, run: Run)
    requires Maximal(runs) && run.first <= run.last && (runs != [] ==> run.first != runs[|runs| - 1].last + 1)
    ensures Maximal(runs + [run])
  {}

  /** The first k numbers are in closed runs, and the open one from start to prev. */
  ghost predicate Covers(nums: seq<int>, k: nat, runs: seq<Run>, start: int, prev: int) {
    && 0 < k <= |nums| && start <= prev && prev == nums[k - 1] && Expand(runs) + Range(start, prev) == nums[..k]
    && Maximal(runs) && (runs != [] ==> start != runs[|runs| - 1].last + 1)
  }

  lemma FirstCovers(nums: seq<int>)
    requires nums != []
    ensures Covers(nums, 1, [], nums[0], nums[0])
  {
    RangeMore(nums[0], nums[0]);
  }

  lemma LongerRun(nums: seq<int>, k: nat, runs: seq<Run>, start: int, prev: int)
    requires k < |nums| && Covers(nums, k, runs, start, prev) && nums[k] == prev + 1
    ensures Covers(nums, k + 1, runs, start, prev + 1)
  {
    hide Expand, Range, Maximal;
    RangeMore(start, prev);
    assert nums[..k + 1] == nums[..k] + [nums[k]];
    assert Expand(runs) + (Range(start, prev) + [prev + 1]) == Expand(runs) + Range(start, prev) + [prev + 1];
  }

  lemma NextRun(nums: seq<int>, k: nat, runs: seq<Run>, start: int, prev: int)
    requires k < |nums| && Covers(nums, k, runs, start, prev) && nums[k] != prev + 1
    ensures Covers(nums, k + 1, runs + [Run(start, prev)], nums[k], nums[k])
  {
    hide Expand, Range, Maximal;
    ExpandMore(runs, Run(start, prev));
    MaximalMore(runs, Run(start, prev));
    RangeMore(nums[k], nums[k]);
    assert nums[..k + 1] == nums[..k] + [nums[k]];
  }

  lemma LastRun(nums: seq<int>, runs: seq<Run>, start: int, prev: int)
    requires Covers(nums, |nums|, runs, start, prev)
    ensures Expand(runs + [Run(start, prev)]) == nums && Maximal(runs + [Run(start, prev)])
  {
    hide Expand, Range, Maximal;
    ExpandMore(runs, Run(start, prev));
    MaximalMore(runs, Run(start, prev));
    assert nums[..|nums|] == nums;
  }

  /** The runs of a sorted list: they give the list back, repeats and all, and none could be longer. */
  method RunsOf(nums: seq<int>) returns (runs: seq<Run>)
    requires nums != [] && Ascending(nums)
    ensures Expand(runs) == nums && Maximal(runs)
  {
    hide Covers, Expand, Maximal;
    runs := [];
    var start, prev := nums[0], nums[0];
    FirstCovers(nums);
    for k := 1 to |nums|
      invariant Covers(nums, k, runs, start, prev)
    {
      var n := nums[k];
      if n == prev + 1 {
        LongerRun(nums, k, runs, start, prev);
        prev := n;
      } else {
        NextRun(nums, k, runs, start, prev);
        runs := runs + [Run(start, prev)];
        start, prev := n, n;
      }
    }
    LastRun(nums, runs, start, prev);
    runs := runs + [Run(start, prev)];
  }

  /** Runs apart, each at least two after the one before ends. */
  predicate Apart(runs: seq<Run>) { forall j, k | 0 <= j < k < |runs| :: runs[j].last + 1 < runs[k].first }

  predicate Distinct(s: seq<int>) { forall i, j | 0 <= i < j < |s| :: s[i] != s[j] }

  lemma {:induction false} RunInside(runs: seq<Run>, k: nat, n: int)
    requires k < |runs| && runs[k].first <= n <= runs[k].last
    ensures n in Expand(runs)
    decreases |runs|
  {
    var m := |runs| - 1;
    if k < m {
      RunInside(runs[..m], k, n);
    } else {
      assert Range(runs[m].first, runs[m].last)[n - runs[m].first] == n;
    }
  }

  lemma PrefixOf(s: seq<int>, t: seq<int>)
    requires Distinct(s + t) && Ascending(s + t)
    ensures Distinct(s) && Ascending(s)
    ensures forall i, j | 0 <= i < |s| && 0 <= j < |t| :: s[i] < t[j]
  {
    var u := s + t;
    assert forall i | 0 <= i < |s| :: u[i] == s[i];
    forall i, j | 0 <= i < |s| && 0 <= j < |t| ensures s[i] < t[j] {
      assert u[i] == s[i] && u[|s| + j] == t[j];
    }
  }

  lemma RangeStarts(first: int, last: int)
    requires first <= last
    ensures Range(first, last) != [] && Range(first, last)[0] == first
  {}

  /** For distinct ports the runs are in order, disjoint, and with a gap between each two. */
  lemma {:induction false} DistinctRunsApart(runs: seq<Run>)
    requires Maximal(runs) && Distinct(Expand(runs)) && Ascending(Expand(runs))
    ensures Apart(runs)
    decreases |runs|
  {
    hide Distinct, Ascending, Range;
    if runs != [] {
      var m := |runs| - 1;
      var before := runs[..m];
      var t := Range(runs[m].first, runs[m].last);
      PrefixOf(Expand(before), t);
      assert t != [] && t[0] == runs[m].first by { RangeStarts(runs[m].first, runs[m].last); }
      DistinctRunsApart(before);
      forall j | 0 <= j < m ensures runs[j].last + 1 < runs[m].first {
        RunInside(before, m - 1, before[m - 1].last);
        assert before[m - 1].last < t[0];
        if j < m - 1 {
          assert before[j].last + 1 < before[m - 1].first;
        }
      }
    }
  }

  // ---- sorting ----

  function Insert(n: int, s: seq<int>): seq<int> {
    if s == [] || n <= s[0] then [n] + s else [s[0]] + Insert(n, s[1..])
  }

  function Sorted(s: seq<int>): seq<int> { if s == [] then [] else Insert(s[0], Sorted(s[1..])) }

  lemma Prepend(n: int, s: seq<int>)
    requires Ascending(s) && (s != [] ==> n <= s[0])
    ensures Ascending([n] + s) && multiset([n] + s) == multiset{n} + multiset(s)
  {}

  lemma {:induction false} InsertKeeps(n: int, s: seq<int>)
    requires Ascending(s)
    ensures Ascending(Insert(n, s)) && multiset(Insert(n, s)) == multiset(s) + multiset{n}
    ensures Insert(n, s) != [] && Insert(n, s)[0] == if s == [] || n <= s[0] then n else s[0]
  {
    hide Ascending;
    if s == [] || n <= s[0] {
      Prepend(n, s);
    } else {
      Tail(s);
      InsertKeeps(n, s[1..]);
      Prepend(s[0], Insert(n, s[1..]));
    }
  }

  lemma Tail(s: seq<int>)
    requires s != [] && Ascending(s)
    ensures Ascending(s[1..]) && (|s| > 1 ==> s[0] <= s[1]) && multiset(s) == multiset{s[0]} + multiset(s[1..])
  {
    assert s == [s[0]] + s[1..];
  }

  lemma {:induction false} SortedIs(s: seq<int>)
    ensures Ascending(Sorted(s)) && multiset(Sorted(s)) == multiset(s)
  {
    hide Ascending, Insert;
    if s == [] {
      assert Ascending([]) by { EmptyAscending(); }
    } else {
      SortedIs(s[1..]);
      InsertKeeps(s[0], Sorted(s[1..]));
      assert s == [s[0]] + s[1..];
    }
  }

  lemma EmptyAscending()
    ensures Ascending([])
  {}

  // ---- compact ----

  function PortsOf(addresses: seq<Address>, switch: int): seq<int> {
    if addresses == [] then []
    else
      var last := addresses[|addresses| - 1];
      PortsOf(addresses[..|addresses| - 1], switch) + if last.At? && last.switch == switch then [last.port] else []
  }

  function OthersOf(addresses: seq<Address>): seq<string> {
    if addresses == [] then []
    else
      var last := addresses[|addresses| - 1];
      OthersOf(addresses[..|addresses| - 1]) + if last.Other? then [last.text] else []
  }

  predicate Increasing(switches: seq<SwitchRuns>) {
    forall j, k | 0 <= j < k < |switches| :: switches[j].switch < switches[k].switch
  }

  predicate Lists(switches: seq<SwitchRuns>, switch: int) {
    exists k :: 0 <= k < |switches| && switches[k].switch == switch
  }

  predicate Holds(s: SwitchRuns, addresses: seq<Address>) {
    Expand(s.runs) == Sorted(PortsOf(addresses, s.switch)) && Maximal(s.runs)
  }

  ghost predicate Describes(r: Summary, addresses: seq<Address>) {
    && Increasing(r.switches)
    && (forall switch :: Lists(r.switches, switch) <==> PortsOf(addresses, switch) != [])
    && (forall k | 0 <= k < |r.switches| :: Holds(r.switches[k], addresses))
    && r.other == OthersOf(addresses)
  }

  ghost predicate Grouped(ports: map<nat, seq<int>>, other: seq<string>, addresses: seq<Address>) {
    && (forall switch :: switch in ports <==> PortsOf(addresses, switch) != [])
    && (forall switch | switch in ports :: ports[switch] == PortsOf(addresses, switch))
    && other == OthersOf(addresses)
  }

  lemma PortsOfMore(before: seq<Address>, a: Address, switch: int)
    ensures PortsOf(before + [a], switch) == if a.At? && a.switch == switch then PortsOf(before, switch) + [a.port]
                                             else PortsOf(before, switch)
    ensures OthersOf(before + [a]) == if a.Other? then OthersOf(before) + [a.text] else OthersOf(before)
  {
    assert (before + [a])[..|before|] == before;
  }

  lemma GroupedMore(ports: map<nat, seq<int>>, other: seq<string>, before: seq<Address>, a: Address)
    requires Grouped(ports, other, before)
    ensures match a
            case At(switch, port) =>
              Grouped(ports[switch := (if switch in ports then ports[switch] else []) + [port]], other, before + [a])
            case Other(text) => Grouped(ports, other + [text], before + [a])
  {
    hide PortsOf, OthersOf;
    forall switch: int
      ensures PortsOf(before + [a], switch) == if a.At? && a.switch == switch then PortsOf(before, switch) + [a.port]
                                               else PortsOf(before, switch)
    {
      PortsOfMore(before, a, switch);
    }
    PortsOfMore(before, a, 0);
  }

  lemma NoneGrouped()
    ensures Grouped(map[], [], [])
  {}

  /** The addresses, by switch, as a dictionary of lists. */
  method Group(addresses: seq<Address>) returns (ports: map<nat, seq<int>>, other: seq<string>)
    ensures Grouped(ports, other, addresses)
  {
    hide Grouped;
    ports, other := map[], [];
    NoneGrouped();
    for k := 0 to |addresses|
      invariant Grouped(ports, other, addresses[..k])
    {
      assert addresses[..k + 1] == addresses[..k] + [addresses[k]];
      GroupedMore(ports, other, addresses[..k], addresses[k]);
      match addresses[k]
      case At(switch, port) =>
        ports := ports[switch := (if switch in ports then ports[switch] else []) + [port]];
      case Other(text) =>
        other := other + [text];
    }
    assert addresses[..|addresses|] == addresses;
  }

  predicate StrictlyUp(s: seq<int>) { forall j, k | 0 <= j < k < |s| :: s[j] < s[k] }

  lemma {:induction false} InsertNew(n: int, s: seq<int>)
    requires StrictlyUp(s) && n !in s
    ensures StrictlyUp(Insert(n, s)) && forall x :: x in Insert(n, s) <==> x == n || x in s
  {
    if s != [] && n > s[0] {
      InsertNew(n, s[1..]);
      var r := Insert(n, s[1..]);
      assert s == [s[0]] + s[1..];
      forall j | 0 <= j < |r| ensures s[0] < r[j] {
        assert r[j] in r;
      }
    }
  }

  /** A dictionary's keys, sorted. */
  method SortedKeys(keys: set<nat>) returns (r: seq<int>)
    ensures StrictlyUp(r) && forall x :: x in r <==> x in keys
  {
    hide StrictlyUp;
    r := [];
    assert StrictlyUp(r) by { NoneUp(); }
    var left := keys;
    while left != {}
      invariant left <= keys && StrictlyUp(r) && forall x :: x in r <==> x in keys && x !in left
      decreases left
    {
      var x :| x in left;
      InsertNew(x, r);
      r, left := Insert(x, r), left - {x};
    }
  }

  lemma NoneUp()
    ensures StrictlyUp([])
  {}

  method Compact(addresses: seq<Address>) returns (r: Summary)
    ensures Describes(r, addresses)
  {
    hide Expand, Sorted, PortsOf, Maximal, OthersOf;
    var ports, other := Group(addresses);
    var keys := SortedKeys(ports.Keys);
    forall k | 0 <= k < |keys| ensures keys[k] in ports && ports[keys[k]] == PortsOf(addresses, keys[k]) != [] {
      assert keys[k] in keys;
    }
    var switches: seq<SwitchRuns> := [];
    for k := 0 to |keys|
      invariant |switches| == k
      invariant forall j | 0 <= j < k :: switches[j].switch == keys[j] && Holds(switches[j], addresses)
    {
      var nums := Sorted(ports[keys[k]]);
      SortedIs(ports[keys[k]]);
      assert |multiset(nums)| == |multiset(ports[keys[k]])|;
      var runs := RunsOf(nums);
      switches := switches + [SwitchRuns(keys[k], runs)];
    }
    r := Summary(switches, other);
    forall switch ensures Lists(switches, switch) <==> PortsOf(addresses, switch) != [] {
      if switch in keys {
        var k :| 0 <= k < |keys| && keys[k] == switch;
        assert switches[k].switch == switch;
      }
    }
  }

  // ---- parse_ports ----

  /** What int() makes of a piece of text. */
  datatype Number = Bad | Num(value: int)

  /** "F" or "F-L". */
  datatype Item = Item(first: Number, last: Last)

  datatype Last = NoLast | Last(number: Number)

  /** "S:I,I,...": no items when there is no colon or nothing after it. */
  datatype PortSpec = PortSpec(switch: Number, items: seq<Item>)

  datatype Parsed = Pairs(pairs: seq<(int, int)>) | Malformed(part: PortSpec)

  function OnSwitch(switch: int, ports: seq<int>): (r: seq<(int, int)>)
    ensures |r| == |ports|
  {
    seq(|ports|, i requires 0 <= i < |ports| => (switch, ports[i]))
  }

  function LastOf(item: Item): Number { if item.last.NoLast? then item.first else item.last.number }

  /** An item's ports are evaluated first; the switch only if there are any. */
  predicate ItemOk(switch: Number, item: Item) {
    item.first.Num? && LastOf(item).Num? && (item.first.value <= LastOf(item).value ==> switch.Num?)
  }

  function ItemPairs(switch: Number, item: Item): seq<(int, int)>
    requires ItemOk(switch, item)
  {
    if switch.Num? then OnSwitch(switch.value, Range(item.first.value, LastOf(item).value)) else []
  }

  predicate ItemsOk(switch: Number, items: seq<Item>) { forall k | 0 <= k < |items| :: ItemOk(switch, items[k]) }

  function ItemsPairs(switch: Number, items: seq<Item>): seq<(int, int)>
    requires ItemsOk(switch, items)
  {
    if items == [] then []
    else ItemsPairs(switch, items[..|items| - 1]) + ItemPairs(switch, items[|items| - 1])
  }

  predicate PartOk(part: PortSpec) { part.items != [] && ItemsOk(part.switch, part.items) }

  predicate SpecOk(spec: seq<PortSpec>) { forall k | 0 <= k < |spec| :: PartOk(spec[k]) }

  function SpecPairs(spec: seq<PortSpec>): seq<(int, int)>
    requires SpecOk(spec)
  {
    if spec == [] then []
    else SpecPairs(spec[..|spec| - 1]) + ItemsPairs(spec[|spec| - 1].switch, spec[|spec| - 1].items)
  }

  /** The pairs a spec lists, or its first malformed part. */
  method ParsePorts(spec: seq<PortSpec>) returns (r: Parsed)
    ensures r.Pairs? <==> SpecOk(spec)
    ensures r.Pairs? ==> r.pairs == SpecPairs(spec)
    ensures r.Malformed? ==> exists k :: 0 <= k < |spec| && r.part == spec[k] && !PartOk(spec[k]) && SpecOk(spec[..k])
  {
    hide ItemPairs, ItemOk;
    var out: seq<(int, int)> := [];
    for k := 0 to |spec|
      invariant SpecOk(spec[..k]) && out == SpecPairs(spec[..k])
    {
      assert spec[..k + 1][..k] == spec[..k];
      var ok, pairs := ParsePart(spec[k]);
      if !ok {
        return Malformed(spec[k]);
      }
      out := out + pairs;
    }
    assert spec[..|spec|] == spec;
    return Pairs(out);
  }

  method ParsePart(part: PortSpec) returns (ok: bool, out: seq<(int, int)>)
    ensures ok <==> PartOk(part)
    ensures ok ==> out == ItemsPairs(part.switch, part.items)
  {
    hide ItemPairs, ItemOk;
    out := [];
    if part.items == [] {
      return false, out;
    }
    for m := 0 to |part.items|
      invariant ItemsOk(part.switch, part.items[..m]) && out == ItemsPairs(part.switch, part.items[..m])
    {
      assert part.items[..m + 1][..m] == part.items[..m];
      if !ItemOk(part.switch, part.items[m]) {
        return false, out;
      }
      out := out + ItemPairs(part.switch, part.items[m]);
    }
    assert part.items[..|part.items|] == part.items;
    return true, out;
  }

  /** A number int() refuses, as the first or the last of an item. */
  predicate Unreadable(item: Item) { item.first.Bad? || (item.last.Last? && item.last.number.Bad?) }

  predicate ListsPorts(item: Item) {
    item.first.Num? && LastOf(item).Num? && item.first.value <= LastOf(item).value
  }

  /** A part is malformed if and only if it lists no item, or an item's number cannot be read, or its switch cannot be
      and some item lists a port: "x:3-2" passes, and lists nothing. */
  lemma MalformedIff(part: PortSpec)
    ensures !PartOk(part) <==>
            || part.items == []
            || (exists item :: item in part.items && Unreadable(item))
            || (part.switch.Bad? && exists item :: item in part.items && ListsPorts(item))
  {
    if !ItemsOk(part.switch, part.items) {
      var k :| 0 <= k < |part.items| && !ItemOk(part.switch, part.items[k]);
      assert part.items[k] in part.items;
    }
  }

  /** The part lists a port on a switch: some item begins no later and ends no sooner. */
  predicate PartLists(part: PortSpec, switch: int, port: int) {
    && part.switch == Num(switch)
    && exists item :: item in part.items && ListsPorts(item) && item.first.value <= port <= LastOf(item).value
  }

  lemma {:induction false} ItemsListed(switch: Number, items: seq<Item>, pair: (int, int))
    requires ItemsOk(switch, items)
    ensures pair in ItemsPairs(switch, items) <==> PartLists(PortSpec(switch, items), pair.0, pair.1)
    decreases |items|
  {
    if items != [] {
      var m := |items| - 1;
      ItemsListed(switch, items[..m], pair);
      ItemListed(switch, items[m], pair);
      assert items == items[..m] + [items[m]];
    }
  }

  lemma ItemListed(switch: Number, item: Item, pair: (int, int))
    requires ItemOk(switch, item)
    ensures pair in ItemPairs(switch, item) <==>
            switch == Num(pair.0) && item.first.value <= pair.1 <= LastOf(item).value
  {
    if switch.Num? {
      var range := Range(item.first.value, LastOf(item).value);
      if switch.value == pair.0 && item.first.value <= pair.1 <= LastOf(item).value {
        var i := pair.1 - item.first.value;
        assert OnSwitch(switch.value, range)[i] == pair;
      }
    }
  }

  /** What a well-formed spec gives: the pairs some part lists, and no other. */
  lemma {:induction false} PairsListed(spec: seq<PortSpec>, pair: (int, int))
    requires SpecOk(spec)
    ensures pair in SpecPairs(spec) <==> exists part :: part in spec && PartLists(part, pair.0, pair.1)
    decreases |spec|
  {
    hide PartLists, ItemsPairs, ItemsOk;
    if spec != [] {
      var m := |spec| - 1;
      PairsListed(spec[..m], pair);
      assert PartOk(spec[m]);
      ItemsListed(spec[m].switch, spec[m].items, pair);
      assert spec == spec[..m] + [spec[m]] && spec[m] == PortSpec(spec[m].switch, spec[m].items);
    }
  }

  // ---- what compact prints, parsed ----

  function ItemOf(run: Run): Item {
    Item(Num(run.first), if run.first == run.last then NoLast else Last(Num(run.last)))
  }

  /** A switch's runs as a spec's part. */
  function PartOf(s: SwitchRuns): PortSpec {
    PortSpec(Num(s.switch), seq(|s.runs|, k requires 0 <= k < |s.runs| => ItemOf(s.runs[k])))
  }

  function SpecOf(switches: seq<SwitchRuns>): seq<PortSpec> {
    seq(|switches|, k requires 0 <= k < |switches| => PartOf(switches[k]))
  }

  /** Every switch's ports, as pairs. */
  function PairsOf(switches: seq<SwitchRuns>): seq<(int, int)> {
    if switches == [] then []
    else
      var last := switches[|switches| - 1];
      PairsOf(switches[..|switches| - 1]) + OnSwitch(last.switch, Expand(last.runs))
  }

  lemma {:induction false} ItemsGiveRuns(switch: int, runs: seq<Run>)
    ensures var items := PartOf(SwitchRuns(switch, runs)).items;
            ItemsOk(Num(switch), items) && ItemsPairs(Num(switch), items) == OnSwitch(switch, Expand(runs))
    decreases |runs|
  {
    hide Range;
    var items := PartOf(SwitchRuns(switch, runs)).items;
    if runs != [] {
      var m := |runs| - 1;
      ItemsGiveRuns(switch, runs[..m]);
      assert items[..m] == PartOf(SwitchRuns(switch, runs[..m])).items;
      assert ItemPairs(Num(switch), items[m]) == OnSwitch(switch, Range(runs[m].first, runs[m].last));
    }
  }

  lemma {:induction false} ParsesBack(switches: seq<SwitchRuns>)
    requires forall k | 0 <= k < |switches| :: switches[k].runs != []
    ensures SpecOk(SpecOf(switches)) && SpecPairs(SpecOf(switches)) == PairsOf(switches)
    decreases |switches|
  {
    hide OnSwitch, Expand, ItemsPairs;
    if switches != [] {
      var m := |switches| - 1;
      ParsesBack(switches[..m]);
      assert SpecOf(switches)[..m] == SpecOf(switches[..m]);
      ItemsGiveRuns(switches[m].switch, switches[m].runs);
      forall k | 0 <= k < |switches| ensures PartOk(SpecOf(switches)[k]) {
        if k < m {
          assert SpecOf(switches)[k] == SpecOf(switches[..m])[k];
        }
      }
    }
  }

  // ---- the same ports, in order ----

  /** The switch ports among some addresses, as pairs. */
  function PairsIn(addresses: seq<Address>): seq<(int, int)> {
    if addresses == [] then []
    else
      var last := addresses[|addresses| - 1];
      PairsIn(addresses[..|addresses| - 1]) + if last.At? then [(last.switch as int, last.port as int)] else []
  }

  lemma {:induction false} CountPairsIn(addresses: seq<Address>, switch: int, port: int)
    ensures multiset(PairsIn(addresses))[(switch, port)] == multiset(PortsOf(addresses, switch))[port]
    decreases |addresses|
  {
    if addresses != [] {
      CountPairsIn(addresses[..|addresses| - 1], switch, port);
    }
  }

  lemma {:induction false} CountOnSwitch(s: int, ports: seq<int>, switch: int, port: int)
    ensures multiset(OnSwitch(s, ports))[(switch, port)] == if s == switch then multiset(ports)[port] else 0
    decreases |ports|
  {
    if ports != [] {
      var m := |ports| - 1;
      CountOnSwitch(s, ports[..m], switch, port);
      assert ports == ports[..m] + [ports[m]];
      assert OnSwitch(s, ports) == OnSwitch(s, ports[..m]) + [(s, ports[m])];
    }
  }

  lemma {:induction false} CountPairsOf(switches: seq<SwitchRuns>, addresses: seq<Address>, switch: int, port: int)
    requires Increasing(switches) && forall k | 0 <= k < |switches| :: Holds(switches[k], addresses)
    ensures multiset(PairsOf(switches))[(switch, port)]
         == if Lists(switches, switch) then multiset(PortsOf(addresses, switch))[port] else 0
    decreases |switches|
  {
    hide Expand, PortsOf, Sorted, Maximal, OnSwitch;
    if switches != [] {
      var m := |switches| - 1;
      var last := switches[m];
      CountPairsOf(switches[..m], addresses, switch, port);
      CountOnSwitch(last.switch, Expand(last.runs), switch, port);
      assert Holds(last, addresses);
      SortedIs(PortsOf(addresses, last.switch));
      ListsLast(switches, switch);
    }
  }

  lemma ListsLast(switches: seq<SwitchRuns>, switch: int)
    requires switches != [] && Increasing(switches)
    ensures var m := |switches| - 1;
            && (Lists(switches, switch) <==> Lists(switches[..m], switch) || switches[m].switch == switch)
            && !(Lists(switches[..m], switch) && switches[m].switch == switch)
  {
    var m := |switches| - 1;
    forall k | 0 <= k < m ensures switches[..m][k] == switches[k] && switches[k].switch < switches[m].switch {}
    assert Lists(switches[..m], switch) ==> Lists(switches, switch) by {
      if Lists(switches[..m], switch) {
        var k :| 0 <= k < m && switches[..m][k].switch == switch;
        assert switches[k].switch == switch;
      }
    }
  }

  lemma PairsSame(r: Summary, addresses: seq<Address>)
    requires Describes(r, addresses)
    ensures multiset(PairsOf(r.switches)) == multiset(PairsIn(addresses))
  {
    hide PairsOf, PairsIn, PortsOf, Lists, Holds;
    forall pair: (int, int)
      ensures multiset(PairsOf(r.switches))[pair] == multiset(PairsIn(addresses))[pair]
    {
      CountPairsOf(r.switches, addresses, pair.0, pair.1);
      CountPairsIn(addresses, pair.0, pair.1);
      if !Lists(r.switches, pair.0) {
        assert multiset(PortsOf(addresses, pair.0)) == multiset{};
      }
    }
  }

  predicate PairBelow(p: (int, int), q: (int, int)) { p.0 < q.0 || (p.0 == q.0 && p.1 <= q.1) }

  predicate InOrder(pairs: seq<(int, int)>) { forall i, j | 0 <= i < j < |pairs| :: PairBelow(pairs[i], pairs[j]) }

  lemma JoinOrdered(a: seq<(int, int)>, b: seq<(int, int)>, switch: int)
    requires InOrder(a) && InOrder(b) && (forall i | 0 <= i < |a| :: a[i].0 < switch)
    requires (forall i | 0 <= i < |b| :: b[i].0 == switch)
    ensures InOrder(a + b)
  {}

  lemma OnSwitchOrdered(switch: int, ports: seq<int>)
    requires Ascending(ports)
    ensures InOrder(OnSwitch(switch, ports))
  {}

  lemma {:induction false} PairsOrdered(switches: seq<SwitchRuns>, addresses: seq<Address>)
    requires Increasing(switches) && forall k | 0 <= k < |switches| :: Holds(switches[k], addresses)
    ensures InOrder(PairsOf(switches))
    ensures forall i | 0 <= i < |PairsOf(switches)| :: Lists(switches, PairsOf(switches)[i].0)
    decreases |switches|
  {
    hide Expand, PortsOf, Sorted, Maximal, InOrder, Lists;
    if switches == [] {
      assert InOrder([]) by { NoneInOrder(); }
    } else {
      var m := |switches| - 1;
      var last := switches[m];
      PairsOrdered(switches[..m], addresses);
      assert Holds(last, addresses);
      SortedIs(PortsOf(addresses, last.switch));
      var a, b := PairsOf(switches[..m]), OnSwitch(last.switch, Expand(last.runs));
      forall i | 0 <= i < |a| ensures a[i].0 < last.switch && Lists(switches, a[i].0) {
        ListedBelow(switches, a[i].0);
      }
      ListsLast(switches, last.switch);
      OnSwitchOrdered(last.switch, Expand(last.runs));
      JoinOrdered(a, b, last.switch);
    }
  }

  lemma NoneInOrder()
    ensures InOrder([])
  {}

  lemma ListedBelow(switches: seq<SwitchRuns>, switch: int)
    requires switches != [] && Increasing(switches) && Lists(switches[..|switches| - 1], switch)
    ensures switch < switches[|switches| - 1].switch && Lists(switches, switch)
  {
    var m := |switches| - 1;
    var k :| 0 <= k < m && switches[..m][k].switch == switch;
    assert switches[k].switch == switch;
  }

  /** What compact prints, read back by parse_ports's rules: the ports it was given, each as often, in order. */
  lemma CompactParsesBack(r: Summary, addresses: seq<Address>)
    requires Describes(r, addresses)
    ensures SpecOk(SpecOf(r.switches))
    ensures var out := SpecPairs(SpecOf(r.switches)); InOrder(out) && multiset(out) == multiset(PairsIn(addresses))
  {
    hide Expand, Sorted, PortsOf, SpecPairs, PairsOf, PairsIn, InOrder;
    forall k | 0 <= k < |r.switches| ensures r.switches[k].runs != [] {
      HasRuns(r, addresses, k);
    }
    ParsesBack(r.switches);
    PairsSame(r, addresses);
    PairsOrdered(r.switches, addresses);
  }

  lemma HasRuns(r: Summary, addresses: seq<Address>, k: nat)
    requires Describes(r, addresses) && k < |r.switches|
    ensures r.switches[k].runs != []
  {
    hide Sorted, PortsOf, Maximal;
    var s := r.switches[k];
    assert Lists(r.switches, s.switch) && Holds(s, addresses);
    SortedIs(PortsOf(addresses, s.switch));
    assert |multiset(Sorted(PortsOf(addresses, s.switch)))| == |multiset(PortsOf(addresses, s.switch))|;
  }

  /** For distinct addresses, each switch's runs are in order, disjoint and as long as they can be. */
  lemma DistinctCompact(r: Summary, addresses: seq<Address>, k: nat)
    requires Describes(r, addresses) && k < |r.switches|
    requires forall switch, port :: multiset(PairsIn(addresses))[(switch, port)] <= 1
    ensures Apart(r.switches[k].runs)
  {
    hide Sorted, PortsOf, PairsIn, Maximal, Expand, Apart;
    var s := r.switches[k];
    assert Holds(s, addresses);
    var nums := PortsOf(addresses, s.switch);
    SortedIs(nums);
    forall port: int ensures multiset(Expand(s.runs))[port] <= 1 {
      CountPairsIn(addresses, s.switch, port);
    }
    OnceEach(Expand(s.runs));
    DistinctRunsApart(s.runs);
  }

  lemma OnceEach(r: seq<int>)
    requires forall x :: multiset(r)[x] <= 1
    ensures Distinct(r)
  {
    forall j, k | 0 <= j < k < |r| ensures r[j] != r[k] {
      var a, b := r[..k], r[k..];
      assert r == a + b && a[j] == r[j] && b[0] == r[k];
      assert multiset(r) == multiset(a) + multiset(b);
      var x := r[j];
      assert x in a && multiset(a)[x] > 0;
      assert multiset(r)[x] == multiset(a)[x] + multiset(b)[x];
      assert multiset(b)[x] == 0;
      assert r[k] in b;
    }
  }
}
