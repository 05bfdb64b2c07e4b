/** The EDIF fixes: matched spans replaced back to front, library references rewritten, and integer properties given the
    width their primitive declares. */
module Edif {
  import opened Bits

  // ---- splicing ----

  /** text[start..end] to be replaced. */
  datatype Span = Span(start: nat, end: nat, put: string)

  /** Spans as finditer gives them: in order, not overlapping. */
  predicate InOrder(text: string, spans: seq<Span>) {
    && (forall k | 0 <= k < |spans| :: spans[k].start <= spans[k].end <= |text|)
    && (forall k | 0 < k < |spans| :: spans[k - 1].end <= spans[k].start)
  }

  /** Where the text before span k may still change. */
  function Reach(spans: seq<Span>, k: nat): nat
    requires k <= |spans|
  {
    if k == 0 then 0 else spans[k - 1].end
  }

  /** All the replacements at once, from span k on: what lies between the spans as it was. */
  function Replaced(text: string, spans: seq<Span>, k: nat): string
    requires InOrder(text, spans) && k <= |spans|
    decreases |spans| - k
  {
    if k == |spans| then text[Reach(spans, k)..]
    else text[Reach(spans, k)..spans[k].start] + spans[k].put + Replaced(text, spans, k + 1)
  }

  lemma OneReplaced(text: string, spans: seq<Span>, k: nat)
    requires InOrder(text, spans) && k < |spans|
    ensures Reach(spans, k) <= spans[k].start <= spans[k].end <= |text| && Reach(spans, k + 1) == spans[k].end
    ensures Replaced(text, spans, k)
         == text[Reach(spans, k)..spans[k].start] + spans[k].put + Replaced(text, spans, k + 1)
  {}

  lemma Cut(text: string, a: nat, b: nat)
    requires a <= b <= |text|
    ensures text[..b] == text[..a] + text[a..b] && text[a..] == text[a..b] + text[b..]
  {}

  lemma Halves(text: string, a: nat, b: nat, rest: string)
    requires a <= b <= |text|
    ensures (text[..b] + rest)[b..] == rest && (text[..b] + rest)[..a] == text[..a]
  {}

  lemma SpliceOne(text: string, spans: seq<Span>, k: nat, r: string)
    requires InOrder(text, spans) && k < |spans| && r == text[..spans[k].end] + Replaced(text, spans, k + 1)
    ensures spans[k].end <= |r| && Reach(spans, k) <= spans[k].start
    ensures r[..spans[k].start] + spans[k].put + r[spans[k].end..] == text[..Reach(spans, k)] + Replaced(text, spans, k)
  {
    hide InOrder, Replaced, Reach;
    OneReplaced(text, spans, k);
    Halves(text, spans[k].start, spans[k].end, Replaced(text, spans, k + 1));
    Cut(text, Reach(spans, k), spans[k].start);
  }

  /** Back to front, so that earlier offsets stay valid: the same as all at once. */
  method Splice(text: string, spans: seq<Span>) returns (r: string)
    requires InOrder(text, spans)
    ensures r == Replaced(text, spans, 0)
  {
    hide Replaced;
    r := text;
    NoneReplaced(text, spans);
    for k := |spans| downto 0
      invariant r == text[..Reach(spans, k)] + Replaced(text, spans, k)
    {
      SpliceOne(text, spans, k, r);
      r := r[..spans[k].start] + spans[k].put + r[spans[k].end..];
    }
  }

  lemma NoneReplaced(text: string, spans: seq<Span>)
    requires InOrder(text, spans)
    ensures Reach(spans, |spans|) <= |text| && text == text[..Reach(spans, |spans|)] + Replaced(text, spans, |spans|)
  {}

  /** How far the replacements before position p of the text have moved it. */
  function Shift(spans: seq<Span>, k: nat): int
    requires k <= |spans|
  {
    if k == 0 then 0 else Shift(spans, k - 1) + |spans[k - 1].put| - (spans[k - 1].end - spans[k - 1].start)
  }

  /** Character by character: what is outside every span is there still, moved by the replacements before it. */
  lemma {:induction false} OutsideKept(text: string, spans: seq<Span>, k: nat, j: nat, p: nat)
    requires InOrder(text, spans) && k <= j <= |spans|
    requires Reach(spans, j) <= p < (if j == |spans| then |text| else spans[j].start)
    ensures var at := p + Shift(spans, j) - Reach(spans, k) - Shift(spans, k);
            0 <= at < |Replaced(text, spans, k)| && Replaced(text, spans, k)[at] == text[p]
    decreases j - k
  {
    hide Replaced, InOrder;
    if k < j {
      OutsideKept(text, spans, k + 1, j, p);
      AfterFirst(text, spans, k);
    } else {
      FirstGap(text, spans, k, p);
    }
  }

  lemma FirstGap(text: string, spans: seq<Span>, k: nat, p: nat)
    requires InOrder(text, spans) && k <= |spans|
    requires Reach(spans, k) <= p < (if k == |spans| then |text| else spans[k].start)
    ensures p - Reach(spans, k) < |Replaced(text, spans, k)| && Replaced(text, spans, k)[p - Reach(spans, k)] == text[p]
  {}

  /** Each replacement is there whole, moved by those before it. */
  lemma {:induction false} PutWhole(text: string, spans: seq<Span>, k: nat, j: nat, c: nat)
    requires InOrder(text, spans) && k <= j < |spans| && c < |spans[j].put|
    ensures var at := spans[j].start + Shift(spans, j) - Reach(spans, k) - Shift(spans, k) + c;
            0 <= at < |Replaced(text, spans, k)| && Replaced(text, spans, k)[at] == spans[j].put[c]
    decreases j - k
  {
    hide Replaced, InOrder;
    if k < j {
      PutWhole(text, spans, k + 1, j, c);
      AfterFirst(text, spans, k);
    } else {
      FirstPut(text, spans, k, c);
    }
  }

  /** The same as a slice, so also of nothing put. */
  lemma {:induction false} PutSlice(text: string, spans: seq<Span>, k: nat, j: nat)
    requires InOrder(text, spans) && k <= j < |spans|
    ensures var at := spans[j].start + Shift(spans, j) - Reach(spans, k) - Shift(spans, k);
            && 0 <= at && at + |spans[j].put| <= |Replaced(text, spans, k)|
            && Replaced(text, spans, k)[at..at + |spans[j].put|] == spans[j].put
    decreases j - k
  {
    hide Replaced, InOrder;
    if k < j {
      PutSlice(text, spans, k + 1, j);
      AfterFirst(text, spans, k);
    } else {
      FirstSlice(text, spans, k);
    }
  }

  lemma FirstSlice(text: string, spans: seq<Span>, k: nat)
    requires InOrder(text, spans) && k < |spans|
    ensures var at := spans[k].start - Reach(spans, k);
            && 0 <= at && at + |spans[k].put| <= |Replaced(text, spans, k)|
            && Replaced(text, spans, k)[at..at + |spans[k].put|] == spans[k].put
  {}

  /** Putting back what was there changes nothing. */
  lemma {:induction false} PutSame(text: string, spans: seq<Span>, k: nat)
    requires InOrder(text, spans) && k <= |spans|
    requires forall j | k <= j < |spans| :: text[spans[j].start..spans[j].end] == spans[j].put
    ensures Reach(spans, k) <= |text| && Replaced(text, spans, k) == text[Reach(spans, k)..]
    decreases |spans| - k
  {
    hide InOrder, Replaced, Reach;
    if k < |spans| {
      PutSame(text, spans, k + 1);
      OneReplaced(text, spans, k);
      Cut(text, Reach(spans, k), spans[k].start);
      Cut(text, spans[k].start, spans[k].end);
    } else {
      NoneReplaced(text, spans);
      LastReplaced(text, spans);
    }
  }

  lemma LastReplaced(text: string, spans: seq<Span>)
    requires InOrder(text, spans)
    ensures Reach(spans, |spans|) <= |text| && Replaced(text, spans, |spans|) == text[Reach(spans, |spans|)..]
  {}

  lemma FirstPut(text: string, spans: seq<Span>, k: nat, c: nat)
    requires InOrder(text, spans) && k < |spans| && c < |spans[k].put|
    ensures var at := spans[k].start - Reach(spans, k) + c;
            0 <= at < |Replaced(text, spans, k)| && Replaced(text, spans, k)[at] == spans[k].put[c]
  {}

  lemma AfterFirst(text: string, spans: seq<Span>, k: nat)
    requires InOrder(text, spans) && k < |spans|
    ensures var head := spans[k].start - Reach(spans, k) + |spans[k].put|;
            && 0 <= head <= |Replaced(text, spans, k)|
            && Replaced(text, spans, k)[head..] == Replaced(text, spans, k + 1)
            && Reach(spans, k + 1) + Shift(spans, k + 1) == Reach(spans, k) + Shift(spans, k) + head
  {}

  predicate PutAt(out: string, at: int, put: string) {
    0 <= at <= at + |put| <= |out| && out[at..at + |put|] == put
  }

  lemma PlaceNext(text: string, spans: seq<Span>, k: nat)
    requires InOrder(text, spans) && 0 < k < |spans|
    ensures spans[k - 1].start + Shift(spans, k - 1) + |spans[k - 1].put| <= spans[k].start + Shift(spans, k)
  {}

  lemma PlaceOne(text: string, spans: seq<Span>, k: nat)
    requires InOrder(text, spans) && k < |spans|
    ensures PutAt(Replaced(text, spans, 0), spans[k].start + Shift(spans, k), spans[k].put)
  {
    hide Replaced, InOrder;
    PutSlice(text, spans, 0, k);
  }

  /** Where each replacement is in the result: whole, in order, not overlapping. */
  lemma Places(text: string, spans: seq<Span>)
    requires InOrder(text, spans)
    ensures forall k: nat | k < |spans| ::
              PutAt(Replaced(text, spans, 0), spans[k].start + Shift(spans, k), spans[k].put)
    ensures forall k: nat | 0 < k < |spans| ::
              spans[k - 1].start + Shift(spans, k - 1) + |spans[k - 1].put| <= spans[k].start + Shift(spans, k)
  {
    hide *;
    forall k: nat | k < |spans| ensures PutAt(Replaced(text, spans, 0), spans[k].start + Shift(spans, k), spans[k].put)
    {
      PlaceOne(text, spans, k);
    }
    forall k: nat | 0 < k < |spans|
      ensures spans[k - 1].start + Shift(spans, k - 1) + |spans[k - 1].put| <= spans[k].start + Shift(spans, k)
    {
      PlaceNext(text, spans, k);
    }
  }

  // ---- untouch_gt_refclk_ports ----

  /** A pin on a net: the top-level port itself, or an instance's. */
  datatype PortRef = TopPort(port: string) | PinOf(port: string, inst: string)

  /** A property line, and whether its property is dont_touch or keep. */
  datatype Line = Line(text: string, touch: bool)

  /** A net: its pins, its property lines, and where those are in the text. */
  datatype Net = Net(start: nat, end: nat, refs: seq<PortRef>, lines: seq<Line>)

  /** A net between a top-level port and an input of one of these buffers, marked dont_touch or keep. */
  predicate Marked(n: Net, buffers: set<string>) {
    && (exists r :: r in n.refs && r.TopPort?)
    && (exists r :: r in n.refs && r.PinOf? && (r.port == "I" || r.port == "IB") && r.inst in buffers)
    && exists l :: l in n.lines && l.touch
  }

  /** Whether a net is one: any pin is a port, any is a buffer's input, and any line has dont_touch or keep. */
  method IsMarked(n: Net, buffers: set<string>) returns (marked: bool)
    ensures marked <==> Marked(n, buffers)
  {
    var onPort, onBuffer, touch := false, false, false;
    for k := 0 to |n.refs|
      invariant onPort <==> exists r :: r in n.refs[..k] && r.TopPort?
      invariant onBuffer <==>
                exists r :: r in n.refs[..k] && r.PinOf? && (r.port == "I" || r.port == "IB") && r.inst in buffers
    {
      var r := n.refs[k];
      match r
      case TopPort(_) => onPort := true;
      case PinOf(port, inst) => onBuffer := onBuffer || (port in ["I", "IB"] && inst in buffers);
      assert n.refs[..k + 1] == n.refs[..k] + [r];
    }
    for k := 0 to |n.lines|
      invariant touch <==> exists l :: l in n.lines[..k] && l.touch
    {
      assert n.lines[..k + 1] == n.lines[..k] + [n.lines[k]];
      touch := touch || n.lines[k].touch;
    }
    assert n.refs[..|n.refs|] == n.refs && n.lines[..|n.lines|] == n.lines;
    return onPort && onBuffer && touch;
  }

  function Joined(lines: seq<Line>): string {
    if lines == [] then "" else Joined(lines[..|lines| - 1]) + lines[|lines| - 1].text
  }

  function Untouched(lines: seq<Line>): seq<Line> {
    if lines == [] then []
    else
      var last := lines[|lines| - 1];
      Untouched(lines[..|lines| - 1]) + if last.touch then [] else [last]
  }

  predicate Increasing(at: seq<nat>) { forall i, j | 0 <= i < j < |at| :: at[i] < at[j] }

  /** The lines at these indices, which are all those whose property is neither. */
  predicate LinesAt(lines: seq<Line>, at: seq<nat>, left: seq<Line>) {
    && |left| == |at| && Increasing(at)
    && (forall k | 0 <= k < |at| :: at[k] < |lines| && left[k] == lines[at[k]])
    && (forall i: nat | i < |lines| :: i in at <==> !lines[i].touch)
  }

  /** What is left is every line that is neither dont_touch nor keep, once, in order. */
  lemma {:induction false} UntouchedAre(lines: seq<Line>) returns (at: seq<nat>)
    ensures LinesAt(lines, at, Untouched(lines)) && forall l | l in Untouched(lines) :: !l.touch
    decreases |lines|
  {
    at := [];
    if lines != [] {
      var m := |lines| - 1;
      var was := UntouchedAre(lines[..m]);
      at := was + if lines[m].touch then [] else [m];
      OneLineMore(lines, was, Untouched(lines[..m]));
    }
  }

  lemma OneLineMore(lines: seq<Line>, was: seq<nat>, left: seq<Line>)
    requires lines != [] && LinesAt(lines[..|lines| - 1], was, left)
    ensures var m := |lines| - 1;
            LinesAt(lines, was + if lines[m].touch then [] else [m], left + if lines[m].touch then [] else [lines[m]])
  {
    var m := |lines| - 1;
    var at := was + if lines[m].touch then [] else [m];
    assert forall i | 0 <= i < m :: lines[..m][i] == lines[i];
    forall i: nat | i < |lines| ensures i in at <==> !lines[i].touch {
    }
  }

  /** A net's lines after the fix. */
  function Unmarked(n: Net, buffers: set<string>): seq<Line> {
    if Marked(n, buffers) then Untouched(n.lines) else n.lines
  }

  predicate Matches(text: string, nets: seq<Net>) {
    && (forall k | 0 <= k < |nets| :: nets[k].start <= nets[k].end <= |text|)
    && (forall k | 0 < k < |nets| :: nets[k - 1].end <= nets[k].start)
    && (forall k | 0 <= k < |nets| :: text[nets[k].start..nets[k].end] == Joined(nets[k].lines))
  }

  function NetSpans(nets: seq<Net>, buffers: set<string>): (r: seq<Span>)
    ensures |r| == |nets|
  {
    seq(|nets|, k requires 0 <= k < |nets| => Span(nets[k].start, nets[k].end, Joined(Unmarked(nets[k], buffers))))
  }

  /** The marked nets from k on. */
  function MarkedFrom(nets: seq<Net>, buffers: set<string>, k: nat): set<nat> {
    set m: nat | k <= m < |nets| && Marked(nets[m], buffers)
  }

  lemma OneMarked(nets: seq<Net>, buffers: set<string>, k: nat)
    requires k < |nets|
    ensures |MarkedFrom(nets, buffers, k)|
         == |MarkedFrom(nets, buffers, k + 1)| + if Marked(nets[k], buffers) then 1 else 0
  {
    hide Marked;
    var rest := MarkedFrom(nets, buffers, k + 1);
    if Marked(nets[k], buffers) {
      assert MarkedFrom(nets, buffers, k) == rest + {k};
    } else {
      assert MarkedFrom(nets, buffers, k) == rest;
    }
  }

  /** Splicing in what is there leaves it. */
  lemma SpliceSame(text: string, spans: seq<Span>, k: nat, r: string)
    requires InOrder(text, spans) && k < |spans| && text[spans[k].start..spans[k].end] == spans[k].put
    requires r == text[..spans[k].end] + Replaced(text, spans, k + 1)
    ensures r == text[..Reach(spans, k)] + Replaced(text, spans, k)
  {
    hide InOrder, Replaced, Reach;
    OneReplaced(text, spans, k);
    Cut(text, Reach(spans, k), spans[k].start);
    Cut(text, spans[k].start, spans[k].end);
  }

  lemma NetSpansOrdered(text: string, nets: seq<Net>, buffers: set<string>)
    requires Matches(text, nets)
    ensures InOrder(text, NetSpans(nets, buffers))
  {
    hide Joined, Unmarked;
  }

  /** The marked nets' property lines without dont_touch and keep; a net that is not marked is not touched, nor is
      anything else. */
  method UntouchGtRefclkPorts(text: string, nets: seq<Net>, buffers: set<string>) returns (r: string, count: nat)
    requires Matches(text, nets)
    ensures InOrder(text, NetSpans(nets, buffers)) && r == Replaced(text, NetSpans(nets, buffers), 0)
    ensures count == |MarkedFrom(nets, buffers, 0)|
  {
    hide Replaced, Joined, Untouched, Marked, MarkedFrom;
    var spans := NetSpans(nets, buffers);
    NetSpansOrdered(text, nets, buffers);
    NoneReplaced(text, spans);
    r, count := text, 0;
    assert |MarkedFrom(nets, buffers, |nets|)| == 0 by { NoneFrom(nets, buffers); }
    for k := |nets| downto 0
      invariant r == text[..Reach(spans, k)] + Replaced(text, spans, k) && count == |MarkedFrom(nets, buffers, k)|
    {
      OneMarked(nets, buffers, k);
      var marked := IsMarked(nets[k], buffers);
      if marked {
        SpliceOne(text, spans, k, r);
        r := r[..nets[k].start] + Joined(Untouched(nets[k].lines)) + r[nets[k].end..];
        count := count + 1;
      } else {
        SpliceSame(text, spans, k, r);
      }
    }
  }

  lemma NoneFrom(nets: seq<Net>, buffers: set<string>)
    ensures MarkedFrom(nets, buffers, |nets|) == {}
  {}

  /** Where the nets are in the result, and what lines they then have. */
  function MovedNets(text: string, nets: seq<Net>, buffers: set<string>): seq<Net>
    requires Matches(text, nets)
  {
    var spans := NetSpans(nets, buffers);
    NetSpansOrdered(text, nets, buffers);
    seq(|nets|, k requires 0 <= k < |nets| =>
      PutSlice(text, spans, 0, k);
      var start: nat := spans[k].start + Shift(spans, k);
      Net(start, start + |spans[k].put|, nets[k].refs, Unmarked(nets[k], buffers)))
  }

  lemma NoneMarked(n: Net, buffers: set<string>, then_: Net)
    requires then_.refs == n.refs && then_.lines == Unmarked(n, buffers)
    ensures !Marked(then_, buffers)
  {
    if Marked(n, buffers) {
      var at := UntouchedAre(n.lines);
    }
  }

  lemma MatchesMoved(text: string, nets: seq<Net>, buffers: set<string>)
    requires Matches(text, nets)
    ensures InOrder(text, NetSpans(nets, buffers))
    ensures Matches(Replaced(text, NetSpans(nets, buffers), 0), MovedNets(text, nets, buffers))
    ensures forall k | 0 <= k < |nets| :: !Marked(MovedNets(text, nets, buffers)[k], buffers)
  {
    hide Joined, Replaced, Unmarked, Marked, Shift, InOrder;
    NetSpansOrdered(text, nets, buffers);
    Places(text, NetSpans(nets, buffers));
    forall k | 0 <= k < |nets| ensures !Marked(MovedNets(text, nets, buffers)[k], buffers) {
      NoneMarked(nets[k], buffers, MovedNets(text, nets, buffers)[k]);
    }
  }

  lemma SameNets(text: string, nets: seq<Net>, buffers: set<string>)
    requires Matches(text, nets) && forall k | 0 <= k < |nets| :: !Marked(nets[k], buffers)
    ensures InOrder(text, NetSpans(nets, buffers)) && Replaced(text, NetSpans(nets, buffers), 0) == text
    ensures MarkedFrom(nets, buffers, 0) == {}
  {
    hide Joined, Replaced, Marked, InOrder;
    NetSpansOrdered(text, nets, buffers);
    PutSame(text, NetSpans(nets, buffers), 0);
  }

  /** In the result the nets are found where they were moved to, none is marked any more, and the fix finds nothing to
      do. */
  lemma UntouchedTwice(text: string, nets: seq<Net>, buffers: set<string>)
    requires Matches(text, nets)
    ensures InOrder(text, NetSpans(nets, buffers))
    ensures var out, moved := Replaced(text, NetSpans(nets, buffers), 0), MovedNets(text, nets, buffers);
            && Matches(out, moved) && (forall k | 0 <= k < |moved| :: !Marked(moved[k], buffers))
            && InOrder(out, NetSpans(moved, buffers)) && Replaced(out, NetSpans(moved, buffers), 0) == out
            && MarkedFrom(moved, buffers, 0) == {}
  {
    hide *;
    MatchesMoved(text, nets, buffers);
    assert |MovedNets(text, nets, buffers)| == |nets| by { MovedLength(text, nets, buffers); }
    SameNets(Replaced(text, NetSpans(nets, buffers), 0), MovedNets(text, nets, buffers), buffers);
  }

  lemma MovedLength(text: string, nets: seq<Net>, buffers: set<string>)
    requires Matches(text, nets)
    ensures |MovedNets(text, nets, buffers)| == |nets|
  {}

  // ---- binary properties ----

  /** A piece of an instance's property lines: text as it is, an integer property, or one written as sized bits. */
  datatype Token =
    | Text(text: string)
    | Integer(name: string, value: nat)
    | Sized(name: string, width: nat, bits: string)

  function Digits(v: nat, base: nat): (s: string)
    requires 2 <= base <= 10
    ensures s != []
  {
    (if v < base then "" else Digits(v / base, base)) + ["0123456789"[v % base]]
  }

  function Render(t: Token): string {
    match t
    case Text(text) => text
    case Integer(name, value) => "(property " + name + " (integer " + Digits(value, 10) + "))"
    case Sized(name, width, bits) => "(property " + name + " (string \"" + Digits(width, 10) + "'b" + bits + "\"))"
  }

  function RenderAll(tokens: seq<Token>): string {
    if tokens == [] then "" else RenderAll(tokens[..|tokens| - 1]) + Render(tokens[|tokens| - 1])
  }

  /** value:0{width}b */
  function ZeroPadded(s: string, width: nat): string {
    if |s| >= width then s else seq(width - |s|, _ => '0') + s
  }

  function BinaryText(value: nat, width: nat): string { ZeroPadded(Digits(value, 2), width) }

  type Widths = map<string, nat>

  predicate Declared(t: Token, widths: Widths) { t.Integer? && t.name in widths }

  predicate TooWide(t: Token, widths: Widths) { Declared(t, widths) && t.value >= Pow2(widths[t.name]) }

  function Rewritten(t: Token, widths: Widths): Token {
    if Declared(t, widths) then Sized(t.name, widths[t.name], BinaryText(t.value, widths[t.name])) else t
  }

  function AllRewritten(tokens: seq<Token>, widths: Widths): (r: seq<Token>)
    ensures |r| == |tokens|
  {
    seq(|tokens|, k requires 0 <= k < |tokens| => Rewritten(tokens[k], widths))
  }

  function CountDeclared(tokens: seq<Token>, widths: Widths): nat {
    if tokens == [] then 0
    else CountDeclared(tokens[..|tokens| - 1], widths) + if Declared(tokens[|tokens| - 1], widths) then 1 else 0
  }

  // ---- the value is kept ----

  /** What a digit string says. */
  function ValueOf(s: string, base: nat): int {
    if s == "" then 0 else base * ValueOf(s[..|s| - 1], base) + (s[|s| - 1] as int - '0' as int)
  }

  predicate AllDigits(s: string, base: nat) {
    forall k | 0 <= k < |s| :: '0' <= s[k] && s[k] as int < '0' as int + base
  }

  lemma OneDigitMore(s: string, base: nat, d: char)
    ensures ValueOf(s + [d], base) == base * ValueOf(s, base) + (d as int - '0' as int)
  {
    assert (s + [d])[..|s|] == s;
  }

  lemma NthDigit(d: nat)
    requires d < 10
    ensures "0123456789"[d] as int == '0' as int + d
  {}

  /** The digits are a numeral of the value, and it has no leading zero. */
  lemma {:induction false} DigitsSay(v: nat, base: nat)
    requires 2 <= base <= 10
    ensures var s := Digits(v, base);
            AllDigits(s, base) && ValueOf(s, base) == v && (v > 0 ==> s[0] != '0') && (v == 0 ==> s == "0")
    decreases v
  {
    hide ValueOf, Digits;
    var d := "0123456789"[v % base];
    NthDigit(v % base);
    DigitsEnd(v, base);
    if v >= base {
      Smaller(v, base);
      DigitsSay(v / base, base);
      OneDigitMore(Digits(v / base, base), base, d);
    } else {
      OneDigitMore("", base, d);
      NoDigits(base);
      assert v % base == v && "" + [d] == [d];
    }
  }

  lemma DigitsEnd(v: nat, base: nat)
    requires 2 <= base <= 10
    ensures Digits(v, base) == (if v < base then "" else Digits(v / base, base)) + ["0123456789"[v % base]]
  {}

  lemma NoDigits(base: nat)
    ensures ValueOf("", base) == 0
  {}

  lemma Smaller(v: nat, base: nat)
    requires 2 <= base <= v
    ensures 0 < v / base < v && base * (v / base) + v % base == v
  {}

  lemma {:induction false} FewDigits(v: nat, w: nat)
    requires w >= 1 && v < Pow2(w)
    ensures |Digits(v, 2)| <= w
    decreases w
  {
    if v >= 2 {
      FewDigits(v / 2, w - 1);
    }
  }

  lemma {:induction false} ManyDigits(v: nat, w: nat)
    requires v >= Pow2(w)
    ensures |Digits(v, 2)| > w
    decreases w
  {
    if w > 0 {
      ManyDigits(v / 2, w - 1);
    }
  }

  lemma {:induction false} LeadingZeros(s: string, n: nat)
    requires AllDigits(s, 2)
    ensures var r := seq(n, _ => '0') + s; AllDigits(r, 2) && ValueOf(r, 2) == ValueOf(s, 2)
    decreases |s| + n
  {
    var r := seq(n, _ => '0') + s;
    if s != "" {
      var m := |s| - 1;
      LeadingZeros(s[..m], n);
      assert r[..|r| - 1] == seq(n, _ => '0') + s[..m];
    } else if n > 0 {
      LeadingZeros("", n - 1);
      assert r[..|r| - 1] == seq(n - 1, _ => '0') + "";
    }
  }

  /** A value's digits give it back; and there are exactly as many as the width if and only if it fits. */
  lemma WidthKept(value: nat, width: nat)
    requires width >= 1
    ensures AllDigits(BinaryText(value, width), 2) && ValueOf(BinaryText(value, width), 2) == value
    ensures |BinaryText(value, width)| == width <==> value < Pow2(width)
  {
    hide Digits, ValueOf;
    DigitsSay(value, 2);
    var s := Digits(value, 2);
    if value < Pow2(width) {
      FewDigits(value, width);
      LeadingZeros(s, width - |s|);
    } else {
      ManyDigits(value, width);
    }
  }

  lemma {:induction false} Ones(n: nat)
    requires n > 0
    ensures Digits(Pow2(n) - 1, 2) == seq(n, _ => '1')
  {
    hide Digits;
    DigitsEnd(Pow2(n) - 1, 2);
    if n > 1 {
      Ones(n - 1);
      assert (Pow2(n) - 1) / 2 == Pow2(n - 1) - 1 && (Pow2(n) - 1) % 2 == 1;
    }
  }

  lemma Decimals()
    ensures Digits(1023, 10) == "1023" && Digits(10, 10) == "10"
  {
    hide Digits;
    DigitsEnd(1, 10);
    DigitsEnd(10, 10);
    DigitsEnd(102, 10);
    DigitsEnd(1023, 10);
  }

  /** The property the module's documentation gives as its example, as it arrives and as it leaves. */
  lemma DocumentedProperty()
    ensures var t := Integer("ALIGN_COMMA_ENABLE", 1023);
            && Render(t) == "(property ALIGN_COMMA_ENABLE (integer 1023))"
            && Render(Rewritten(t, map["ALIGN_COMMA_ENABLE" := 10]))
            == "(property ALIGN_COMMA_ENABLE (string \"10'b1111111111\"))"
  {
    hide Digits, Render;
    Decimals();
    Ones(10);
    assert Pow2(10) == 1024;
    var bits := seq(10, _ => '1');
    assert bits == "1111111111" && BinaryText(1023, 10) == bits;
    RenderedInteger("ALIGN_COMMA_ENABLE", 1023, "1023");
    RenderedSized("ALIGN_COMMA_ENABLE", 10, "10", "1111111111");
  }

  lemma RenderedInteger(name: string, value: nat, digits: string)
    requires name == "ALIGN_COMMA_ENABLE" && Digits(value, 10) == digits == "1023"
    ensures Render(Integer(name, value)) == "(property ALIGN_COMMA_ENABLE (integer 1023))"
  {
    hide Digits;
    assert "(property " + name == "(property ALIGN_COMMA_ENABLE";
    assert "(property " + name + " (integer " == "(property ALIGN_COMMA_ENABLE (integer ";
  }

  lemma RenderedSized(name: string, width: nat, digits: string, bits: string)
    requires name == "ALIGN_COMMA_ENABLE" && Digits(width, 10) == digits == "10" && bits == "1111111111"
    ensures Render(Sized(name, width, bits)) == "(property ALIGN_COMMA_ENABLE (string \"10'b1111111111\"))"
  {
    hide Digits;
    assert "(property " + name == "(property ALIGN_COMMA_ENABLE";
    assert "(property " + name + " (string \"" == "(property ALIGN_COMMA_ENABLE (string \"";
    assert "(property " + name + " (string \"" + digits == "(property ALIGN_COMMA_ENABLE (string \"10";
    assert "(property " + name + " (string \"" + digits + "'b" == "(property ALIGN_COMMA_ENABLE (string \"10'b";
  }

  // ---- binarize_properties ----

  /** A matched instance: its cell, and where its property lines are in the text. */
  datatype Instance = Instance(start: nat, end: nat, cell: string, tokens: seq<Token>)

  type Params = map<string, Widths>

  predicate Found(text: string, instances: seq<Instance>) {
    && (forall k | 0 <= k < |instances| :: instances[k].start <= instances[k].end <= |text|)
    && (forall k | 0 < k < |instances| :: instances[k - 1].end <= instances[k].start)
    && (forall k | 0 <= k < |instances| :: text[instances[k].start..instances[k].end] == RenderAll(instances[k].tokens))
  }

  function WidthsOf(params: Params, cell: string): Widths { if cell in params then params[cell] else map[] }

  function Binarized(params: Params, i: Instance): seq<Token> { AllRewritten(i.tokens, WidthsOf(params, i.cell)) }

  function InstanceSpans(params: Params, instances: seq<Instance>): (r: seq<Span>)
    ensures |r| == |instances|
  {
    seq(|instances|, k requires 0 <= k < |instances| =>
      Span(instances[k].start, instances[k].end, RenderAll(Binarized(params, instances[k]))))
  }

  predicate Misfit(params: Params, i: Instance) {
    exists k :: 0 <= k < |i.tokens| && TooWide(i.tokens[k], WidthsOf(params, i.cell))
  }

  function CountAll(params: Params, instances: seq<Instance>, k: nat): nat
    requires k <= |instances|
    decreases |instances| - k
  {
    if k == |instances| then 0
    else CountAll(params, instances, k + 1) + CountDeclared(instances[k].tokens, WidthsOf(params, instances[k].cell))
  }

  datatype Result = Fixed(text: string, count: nat) | DoesNotFit(cell: string, name: string, value: nat, width: nat)

  /** An error names a property of an instance. */
  predicate Names(r: Result, i: Instance)
    requires r.DoesNotFit?
  {
    i.cell == r.cell && Integer(r.name, r.value) in i.tokens
  }

  /** One instance's properties: each declared binary rewritten, unless one does not fit. */
  method RewriteProps(cell: string, tokens: seq<Token>, widths: Widths) returns (r: Result)
    ensures r.Fixed? <==> forall k | 0 <= k < |tokens| :: !TooWide(tokens[k], widths)
    ensures r.Fixed? ==> r.text == RenderAll(AllRewritten(tokens, widths)) && r.count == CountDeclared(tokens, widths)
    ensures r.DoesNotFit? ==>
              r.cell == cell && r.name in widths && r.width == widths[r.name] && r.value >= Pow2(r.width)
    ensures r.DoesNotFit? ==> Integer(r.name, r.value) in tokens
  {
    hide Render, BinaryText, Pow2;
    var props, count := "", 0;
    for k := 0 to |tokens|
      invariant forall m | 0 <= m < k :: !TooWide(tokens[m], widths)
      invariant props == RenderAll(AllRewritten(tokens[..k], widths)) && count == CountDeclared(tokens[..k], widths)
    {
      var t := tokens[k];
      if TooWide(t, widths) {
        return DoesNotFit(cell, t.name, t.value, widths[t.name]);
      }
      OneToken(tokens, k, widths);
      props := props + Render(Rewritten(t, widths));
      count := if Declared(t, widths) then count + 1 else count;
    }
    assert tokens[..|tokens|] == tokens;
    return Fixed(props, count);
  }

  lemma OneToken(tokens: seq<Token>, k: nat, widths: Widths)
    requires k < |tokens|
    ensures RenderAll(AllRewritten(tokens[..k + 1], widths))
         == RenderAll(AllRewritten(tokens[..k], widths)) + Render(Rewritten(tokens[k], widths))
    ensures CountDeclared(tokens[..k + 1], widths)
         == CountDeclared(tokens[..k], widths) + if Declared(tokens[k], widths) then 1 else 0
  {
    hide Render, Rewritten, Declared;
    var more := AllRewritten(tokens[..k + 1], widths);
    assert more[..|more| - 1] == AllRewritten(tokens[..k], widths);
    assert tokens[..k + 1][..k] == tokens[..k];
  }

  lemma {:induction false} NoneDeclared(tokens: seq<Token>, widths: Widths)
    requires forall k | 0 <= k < |tokens| :: !Declared(tokens[k], widths)
    ensures AllRewritten(tokens, widths) == tokens && CountDeclared(tokens, widths) == 0
    decreases |tokens|
  {
    if tokens != [] {
      NoneDeclared(tokens[..|tokens| - 1], widths);
    }
  }

  /** An instance of a cell without binary parameters is left alone. */
  lemma LeftAlone(text: string, instances: seq<Instance>, params: Params, k: nat, r: string)
    requires Found(text, instances) && k < |instances| && instances[k].cell !in params
    requires var spans := InstanceSpans(params, instances);
             InOrder(text, spans) && r == text[..instances[k].end] + Replaced(text, spans, k + 1)
    ensures var spans := InstanceSpans(params, instances);
            && r == text[..Reach(spans, k)] + Replaced(text, spans, k) && !Misfit(params, instances[k])
            && CountDeclared(instances[k].tokens, WidthsOf(params, instances[k].cell)) == 0
  {
    hide Replaced, RenderAll;
    NoneDeclared(instances[k].tokens, map[]);
    SpliceSame(text, InstanceSpans(params, instances), k, r);
  }

  lemma SpansOrdered(text: string, instances: seq<Instance>, params: Params)
    requires Found(text, instances)
    ensures InOrder(text, InstanceSpans(params, instances))
  {
    hide RenderAll;
  }

  /** Declared properties by instance and place: in the first n places of instance k, and in all instances from k on. */
  function DeclaredIn(params: Params, instances: seq<Instance>, k: nat, n: nat): set<(nat, nat)>
    requires k < |instances| && n <= |instances[k].tokens|
  {
    set i: nat | i < n && Declared(instances[k].tokens[i], WidthsOf(params, instances[k].cell)) :: (k, i)
  }

  function DeclaredFrom(params: Params, instances: seq<Instance>, k: nat): set<(nat, nat)> {
    set j: nat, i: nat | k <= j < |instances| && i < |instances[j].tokens|
                         && Declared(instances[j].tokens[i], WidthsOf(params, instances[j].cell)) :: (j, i)
  }

  lemma {:induction false} CountedIn(params: Params, instances: seq<Instance>, k: nat, n: nat)
    requires k < |instances| && n <= |instances[k].tokens|
    ensures |DeclaredIn(params, instances, k, n)|
         == CountDeclared(instances[k].tokens[..n], WidthsOf(params, instances[k].cell))
    decreases n
  {
    hide Declared;
    if n == 0 {
      assert DeclaredIn(params, instances, k, 0) == {};
    } else {
      CountedIn(params, instances, k, n - 1);
      var was, ts := DeclaredIn(params, instances, k, n - 1), instances[k].tokens;
      assert ts[..n][..n - 1] == ts[..n - 1];
      var widths := WidthsOf(params, instances[k].cell);
      assert DeclaredIn(params, instances, k, n) == was + if Declared(ts[n - 1], widths) then {(k, n - 1)} else {};
    }
  }

  /** The count is how many declared properties there are. */
  lemma {:induction false} CountedAll(params: Params, instances: seq<Instance>, k: nat)
    requires k <= |instances|
    ensures CountAll(params, instances, k) == |DeclaredFrom(params, instances, k)|
    decreases |instances| - k
  {
    hide Declared, WidthsOf;
    if k == |instances| {
      assert DeclaredFrom(params, instances, k) == {};
    } else {
      CountedAll(params, instances, k + 1);
      var ts := instances[k].tokens;
      CountedIn(params, instances, k, |ts|);
      assert ts[..|ts|] == ts;
      var here, rest := DeclaredIn(params, instances, k, |ts|), DeclaredFrom(params, instances, k + 1);
      assert DeclaredFrom(params, instances, k) == here + rest && here !! rest;
    }
  }

  /** Every integer property its primitive declares binary gets its width, the rest of the text unchanged; an error if
      and only if some value does not fit. */
  method BinarizeProperties(text: string, instances: seq<Instance>, params: Params) returns (r: Result)
    requires Found(text, instances)
    ensures r.Fixed? <==> forall k | 0 <= k < |instances| :: !Misfit(params, instances[k])
    ensures r.Fixed? ==> InOrder(text, InstanceSpans(params, instances))
    ensures r.Fixed? ==>
              && r.text == Replaced(text, InstanceSpans(params, instances), 0)
              && r.count == CountAll(params, instances, 0) == |DeclaredFrom(params, instances, 0)|
    ensures r.DoesNotFit? ==> r.value >= Pow2(r.width) && exists i :: i in instances && Names(r, i)
  {
    hide Replaced, RenderAll, Render, Pow2, TooWide, AllRewritten, CountDeclared, DeclaredFrom;
    var spans := InstanceSpans(params, instances);
    SpansOrdered(text, instances, params);
    var out, count := text, 0;
    NoneReplaced(text, spans);
    for k := |instances| downto 0
      invariant out == text[..Reach(spans, k)] + Replaced(text, spans, k) && count == CountAll(params, instances, k)
      invariant forall m | k <= m < |instances| :: !Misfit(params, instances[m])
    {
      var i := instances[k];
      if i.cell in params {
        var props := RewriteProps(i.cell, i.tokens, params[i.cell]);
        if props.DoesNotFit? {
          assert Misfit(params, i) && i in instances;
          return props;
        }
        SpliceOne(text, spans, k, out);
        out := out[..i.start] + props.text + out[i.end..];
        count := count + props.count;
      } else {
        LeftAlone(text, instances, params, k, out);
      }
    }
    CountedAll(params, instances, 0);
    return Fixed(out, count);
  }

  // ---- binarizing twice ----

  /** Where the instances are in the result, and what their property lines then are. */
  function Moved(text: string, instances: seq<Instance>, params: Params): seq<Instance>
    requires Found(text, instances)
  {
    var spans := InstanceSpans(params, instances);
    SpansOrdered(text, instances, params);
    seq(|instances|, k requires 0 <= k < |instances| =>
      PutSlice(text, spans, 0, k);
      var start: nat := spans[k].start + Shift(spans, k);
      Instance(start, start + |spans[k].put|, instances[k].cell, Binarized(params, instances[k])))
  }

  lemma FoundMoved(text: string, instances: seq<Instance>, params: Params)
    requires Found(text, instances)
    ensures InOrder(text, InstanceSpans(params, instances))
    ensures Found(Replaced(text, InstanceSpans(params, instances), 0), Moved(text, instances, params))
  {
    hide RenderAll, Replaced, Binarized, Shift, InOrder;
    SpansOrdered(text, instances, params);
    Places(text, InstanceSpans(params, instances));
  }

  lemma RewrittenOnce(params: Params, i: Instance, again: Instance)
    requires again.cell == i.cell && again.tokens == Binarized(params, i)
    ensures Binarized(params, again) == again.tokens && !Misfit(params, again)
    ensures CountDeclared(again.tokens, WidthsOf(params, again.cell)) == 0
  {
    NoneDeclared(again.tokens, WidthsOf(params, again.cell));
  }

  lemma {:induction false} NoneCounted(params: Params, instances: seq<Instance>, k: nat)
    requires k <= |instances|
    requires forall j | k <= j < |instances| ::
              CountDeclared(instances[j].tokens, WidthsOf(params, instances[j].cell)) == 0
    ensures CountAll(params, instances, k) == 0
    decreases |instances| - k
  {
    if k < |instances| {
      NoneCounted(params, instances, k + 1);
    }
  }

  /** On its own result, with the instances where they then are, the fix changes nothing, counts nothing and cannot
      fail. */
  lemma Idempotent(text: string, instances: seq<Instance>, params: Params)
    requires Found(text, instances)
    ensures InOrder(text, InstanceSpans(params, instances))
    ensures var out, moved := Replaced(text, InstanceSpans(params, instances), 0), Moved(text, instances, params);
            && Found(out, moved) && InOrder(out, InstanceSpans(params, moved))
            && Replaced(out, InstanceSpans(params, moved), 0) == out && CountAll(params, moved, 0) == 0
            && forall k | 0 <= k < |moved| :: !Misfit(params, moved[k])
  {
    hide RenderAll, Replaced, Binarized, Found, Misfit, CountDeclared;
    FoundMoved(text, instances, params);
    var out, moved := Replaced(text, InstanceSpans(params, instances), 0), Moved(text, instances, params);
    forall k | 0 <= k < |moved|
      ensures Binarized(params, moved[k]) == moved[k].tokens && !Misfit(params, moved[k])
      ensures CountDeclared(moved[k].tokens, WidthsOf(params, moved[k].cell)) == 0
    {
      RewrittenOnce(params, instances[k], moved[k]);
    }
    NoneCounted(params, moved, 0);
    SpansOrdered(out, moved, params);
    SpansSame(out, moved, params);
    PutSame(out, InstanceSpans(params, moved), 0);
  }

  lemma SpansSame(text: string, instances: seq<Instance>, params: Params)
    requires Found(text, instances)
    requires forall k | 0 <= k < |instances| :: Binarized(params, instances[k]) == instances[k].tokens
    ensures forall k | 0 <= k < |instances| ::
              var s := InstanceSpans(params, instances)[k]; s.start <= s.end <= |text| && text[s.start..s.end] == s.put
  {
    hide RenderAll, Binarized;
  }

  /** Run on its own result, it returns that result. */
  method BinarizeTwice(text: string, instances: seq<Instance>, params: Params) returns (once: Result, twice: Result)
    requires Found(text, instances)
    ensures once.Fixed? ==> twice == Fixed(once.text, 0)
  {
    hide RenderAll, Replaced, Binarized, Misfit, CountAll, Moved;
    once := BinarizeProperties(text, instances, params);
    twice := once;
    if once.Fixed? {
      Idempotent(text, instances, params);
      twice := BinarizeProperties(once.text, Moved(text, instances, params), params);
    }
  }

  /** When nothing fails, every property a primitive declares binary reads as the same value at exactly its width. */
  lemma ValuesKept(tokens: seq<Token>, widths: Widths, k: nat)
    requires k < |tokens| && Declared(tokens[k], widths) && !TooWide(tokens[k], widths) && widths[tokens[k].name] >= 1
    ensures var t := AllRewritten(tokens, widths)[k];
            && t.Sized? && t.name == tokens[k].name && t.width == widths[t.name] == |t.bits|
            && AllDigits(t.bits, 2) && ValueOf(t.bits, 2) == tokens[k].value
  {
    hide BinaryText, ValueOf, Pow2;
    WidthKept(tokens[k].value, widths[tokens[k].name]);
  }

  // ---- library references ----

  datatype Library = Lib | Design

  /** `(cellRef CELL (libraryRef LIBRARY))` in the text. */
  datatype Ref = Ref(cell: string, library: Library)

  predicate Stale(r: Ref, duplicated: set<string>) { r.cell in duplicated && r.library.Lib? }

  function Redirected(r: Ref, duplicated: set<string>): Ref {
    if Stale(r, duplicated) then Ref(r.cell, Design) else r
  }

  function AllRedirected(refs: seq<Ref>, duplicated: set<string>): seq<Ref> {
    seq(|refs|, k requires 0 <= k < |refs| => Redirected(refs[k], duplicated))
  }

  function CountStale(refs: seq<Ref>, duplicated: set<string>): nat {
    if refs == [] then 0
    else CountStale(refs[..|refs| - 1], duplicated) + if Stale(refs[|refs| - 1], duplicated) then 1 else 0
  }

  lemma RedirectedAgain(refs: seq<Ref>, some: set<string>, name: string)
    ensures AllRedirected(AllRedirected(refs, some), {name}) == AllRedirected(refs, some + {name})
  {}

  lemma {:induction false} CountAgain(refs: seq<Ref>, some: set<string>, name: string)
    requires name !in some
    ensures CountStale(refs, some) + CountStale(AllRedirected(refs, some), {name}) == CountStale(refs, some + {name})
    decreases |refs|
  {
    if refs != [] {
      var m := |refs| - 1;
      CountAgain(refs[..m], some, name);
      assert AllRedirected(refs, some)[..m] == AllRedirected(refs[..m], some);
    }
  }

  lemma {:induction false} NothingStale(refs: seq<Ref>)
    ensures AllRedirected(refs, {}) == refs && CountStale(refs, {}) == 0
    decreases |refs|
  {
    if refs != [] {
      NothingStale(refs[..|refs| - 1]);
    }
  }

  /** pattern.subn for one cell's name. */
  method SubstituteName(refs: seq<Ref>, name: string) returns (out: seq<Ref>, n: nat)
    ensures out == AllRedirected(refs, {name}) && n == CountStale(refs, {name})
  {
    out, n := [], 0;
    for k := 0 to |refs|
      invariant out == AllRedirected(refs[..k], {name}) && n == CountStale(refs[..k], {name})
    {
      assert refs[..k + 1][..k] == refs[..k];
      if refs[k].cell == name && refs[k].library.Lib? {
        out, n := out + [Ref(name, Design)], n + 1;
      } else {
        out := out + [refs[k]];
      }
    }
    assert refs[..|refs|] == refs;
  }

  /** One name after another, in any order: the same as all duplicated cells at once, and every change counted once. */
  method FixEdif(refs: seq<Ref>, lib: set<string>, design: set<string>) returns (out: seq<Ref>, total: nat)
    ensures out == AllRedirected(refs, lib * design) && total == |StaleAt(refs, lib * design)|
  {
    hide CountStale, StaleAt;
    var left := lib * design;
    ghost var done_: set<string> := {};
    out, total := refs, 0;
    NothingStale(refs);
    while left != {}
      invariant done_ + left == lib * design && done_ * left == {}
      invariant out == AllRedirected(refs, done_) && total == CountStale(refs, done_)
      decreases left
    {
      var name :| name in left;
      var n;
      RedirectedAgain(refs, done_, name);
      CountAgain(refs, done_, name);
      out, n := SubstituteName(out, name);
      total := total + n;
      left, done_ := left - {name}, done_ + {name};
    }
    assert done_ == lib * design;
    StaleCounted(refs, lib * design);
  }

  /** The references to be changed. */
  function StaleAt(refs: seq<Ref>, duplicated: set<string>): set<nat> {
    set k: nat | k < |refs| && Stale(refs[k], duplicated)
  }

  lemma {:induction false} StaleCounted(refs: seq<Ref>, duplicated: set<string>)
    ensures CountStale(refs, duplicated) == |StaleAt(refs, duplicated)|
    decreases |refs|
  {
    hide Stale;
    if refs == [] {
      assert StaleAt(refs, duplicated) == {};
    } else {
      var m := |refs| - 1;
      StaleCounted(refs[..m], duplicated);
      var was := StaleAt(refs[..m], duplicated);
      assert StaleAt(refs, duplicated) == was + if Stale(refs[m], duplicated) then {m} else {};
    }
  }

  /** Afterwards every reference names the cell it named, in the design's library if the cell is duplicated and as it
      was if not; and fixing again changes nothing. */
  lemma NoneStale(refs: seq<Ref>, duplicated: set<string>)
    ensures forall k | 0 <= k < |refs| ::
              var r := AllRedirected(refs, duplicated)[k];
              r.cell == refs[k].cell && r.library == if refs[k].cell in duplicated then Design else refs[k].library
    ensures CountStale(AllRedirected(refs, duplicated), duplicated) == 0
    ensures AllRedirected(AllRedirected(refs, duplicated), duplicated) == AllRedirected(refs, duplicated)
  {
    StaleCounted(AllRedirected(refs, duplicated), duplicated);
    assert StaleAt(AllRedirected(refs, duplicated), duplicated) == {};
  }
}
