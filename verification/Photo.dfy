/** Sheet.photo: which pixels of a photo are paper, and the strokes that draw the others. */
module Photo {

  datatype Pixel = Pixel(i: int, j: int)

  /** A photo sampled for the sheet: which samples are near the paper's colour, and the palette index of each. */
  datatype Image = Image(w: nat, h: nat, near: seq<seq<bool>>, px: seq<seq<nat>>)

  predicate Sound(im: Image) {
    && |im.near| == im.h && |im.px| == im.h
    && (forall j | 0 <= j < im.h :: |im.near[j]| == im.w) && (forall j | 0 <= j < im.h :: |im.px[j]| == im.w)
  }

  predicate Inside(im: Image, p: Pixel) { 0 <= p.i < im.w && 0 <= p.j < im.h }

  predicate Near(im: Image, p: Pixel)
    requires Sound(im)
  {
    Inside(im, p) && im.near[p.j][p.i]
  }

  predicate OnEdge(im: Image, p: Pixel) { p.i == 0 || p.i == im.w - 1 || p.j == 0 || p.j == im.h - 1 }

  function Apart(a: int, b: int): nat { if a < b then b - a else a - b }

  /** One step along a row or a column. */
  predicate Beside(p: Pixel, q: Pixel) { Apart(p.i, q.i) + Apart(p.j, q.j) == 1 }

  function Neighbours(p: Pixel): (r: seq<Pixel>)
    ensures forall q :: q in r <==> Beside(p, q)
  {
    [Pixel(p.i + 1, p.j), Pixel(p.i - 1, p.j), Pixel(p.i, p.j + 1), Pixel(p.i, p.j - 1)]
  }

  // ---- what paper is ----

  /** A way from the photo's edge through near-paper pixels, each next to the one before. */
  predicate Way(im: Image, way: seq<Pixel>)
    requires Sound(im)
  {
    && way != [] && OnEdge(im, way[0])
    && (forall k | 0 <= k < |way| :: Near(im, way[k]))
    && (forall k | 0 < k < |way| :: Beside(way[k - 1], way[k]))
  }

  ghost predicate Paper(im: Image, p: Pixel)
    requires Sound(im)
  {
    exists way :: Way(im, way) && way[|way| - 1] == p
  }

  lemma EdgeIsPaper(im: Image, p: Pixel)
    requires Sound(im) && Near(im, p) && OnEdge(im, p)
    ensures Paper(im, p)
  {
    assert Way(im, [p]);
  }

  lemma NextIsPaper(im: Image, p: Pixel, q: Pixel)
    requires Sound(im) && Paper(im, p) && Near(im, q) && Beside(p, q)
    ensures Paper(im, q)
  {
    var way :| Way(im, way) && way[|way| - 1] == p;
    var more := way + [q];
    forall k | 0 < k < |more| ensures Beside(more[k - 1], more[k]) {
      if k < |way| {
        assert Beside(way[k - 1], way[k]);
      }
    }
    assert Way(im, more);
  }

  // ---- the flood fill ----

  /** The border's pixels, as the source lists them. */
  method Edge(im: Image) returns (edge: seq<Pixel>)
    ensures forall p | Inside(im, p) && OnEdge(im, p) :: p in edge
    ensures forall p | p in edge && Inside(im, p) :: OnEdge(im, p)
  {
    edge := [];
    for i := 0 to im.w
      invariant forall p | Inside(im, p) && p.i < i && (p.j == 0 || p.j == im.h - 1) :: p in edge
      invariant forall p | p in edge && Inside(im, p) :: OnEdge(im, p)
    {
      edge := edge + [Pixel(i, 0), Pixel(i, im.h - 1)];
    }
    for j := 0 to im.h
      invariant forall p | Inside(im, p) && (p.j == 0 || p.j == im.h - 1) :: p in edge
      invariant forall p | Inside(im, p) && p.j < j && (p.i == 0 || p.i == im.w - 1) :: p in edge
      invariant forall p | p in edge && Inside(im, p) :: OnEdge(im, p)
    {
      edge := edge + [Pixel(0, j), Pixel(im.w - 1, j)];
    }
  }

  /** Every mark, and every near pixel queued, is paper. */
  ghost predicate OnlyPaper(im: Image, marked: set<Pixel>, queue: seq<Pixel>)
    requires Sound(im)
  {
    && (forall p | p in marked :: Paper(im, p))
    && (forall p | p in queue && Near(im, p) :: Paper(im, p))
  }

  /** Whatever should follow is marked or queued. */
  ghost predicate Pending(im: Image, marked: set<Pixel>, queue: seq<Pixel>)
    requires Sound(im)
  {
    && (forall p | Near(im, p) && OnEdge(im, p) :: p in marked || p in queue)
    && (forall p, q | p in marked && Beside(p, q) && Near(im, q) :: q in marked || q in queue)
  }

  /** With nothing queued any more, every way is marked to its end. */
  lemma {:induction false} WayMarked(im: Image, marked: set<Pixel>, way: seq<Pixel>, k: nat)
    requires Sound(im) && Pending(im, marked, []) && Way(im, way) && k < |way|
    ensures way[k] in marked
  {
    if k > 0 {
      WayMarked(im, marked, way, k - 1);
      assert Beside(way[k - 1], way[k]) && Near(im, way[k]);
    } else {
      assert Near(im, way[0]);
    }
  }

  lemma AllPaperMarked(im: Image, marked: set<Pixel>)
    requires Sound(im) && Pending(im, marked, [])
    ensures forall p | Paper(im, p) :: p in marked
  {
    hide Pending;
    forall p | Paper(im, p) ensures p in marked {
      var way :| Way(im, way) && way[|way| - 1] == p;
      WayMarked(im, marked, way, |way| - 1);
    }
  }

  lemma MarkOne(im: Image, marked: set<Pixel>, queue: seq<Pixel>)
    requires Sound(im) && queue != [] && Near(im, queue[0]) && OnlyPaper(im, marked, queue)
    requires Pending(im, marked, queue)
    ensures var p := queue[0];
            var more := queue[1..] + Neighbours(p);
            OnlyPaper(im, marked + {p}, more) && Pending(im, marked + {p}, more)
  {
    hide Paper;
    var p := queue[0];
    assert queue == [p] + queue[1..];
    forall q | Beside(p, q) && Near(im, q) ensures Paper(im, q) {
      NextIsPaper(im, p, q);
    }
  }

  lemma SkipOne(im: Image, marked: set<Pixel>, queue: seq<Pixel>)
    requires Sound(im) && queue != [] && OnlyPaper(im, marked, queue) && Pending(im, marked, queue)
    requires !Near(im, queue[0]) || queue[0] in marked
    ensures OnlyPaper(im, marked, queue[1..]) && Pending(im, marked, queue[1..])
  {
    hide Paper;
    assert queue == [queue[0]] + queue[1..];
  }

  predicate Marked(im: Image, marks: array2<bool>, p: Pixel)
    requires marks.Length0 == im.h && marks.Length1 == im.w
    reads marks
  {
    Inside(im, p) && marks[p.j, p.i]
  }

  /** The fill: its queue empties, and the marks are then exactly the paper. */
  method Flood(im: Image) returns (marks: array2<bool>)
    requires Sound(im)
    ensures fresh(marks) && marks.Length0 == im.h && marks.Length1 == im.w
    ensures forall p :: Marked(im, marks, p) <==> Paper(im, p)
  {
    hide Paper, OnlyPaper, Pending, OnEdge;
    marks := new bool[im.h, im.w]((j, i) => false);
    var queue := Edge(im);
    ghost var marked: set<Pixel> := {};
    ghost var left := set i, j | 0 <= i < im.w && 0 <= j < im.h :: Pixel(i, j);
    EdgeQueued(im, queue);
    while queue != []
      invariant marks.Length0 == im.h && marks.Length1 == im.w
      invariant forall p :: Marked(im, marks, p) <==> p in marked
      invariant forall p :: Inside(im, p) ==> (p in left <==> p !in marked)
      invariant OnlyPaper(im, marked, queue) && Pending(im, marked, queue)
      decreases left, |queue|
    {
      var p := queue[0];
      if Near(im, p) && !marks[p.j, p.i] {
        MarkOne(im, marked, queue);
        assert p !in marked by { assert !Marked(im, marks, p); }
        marks[p.j, p.i] := true;
        marked, left := marked + {p}, left - {p};
        queue := queue[1..] + Neighbours(p);
      } else {
        assert Near(im, p) ==> Marked(im, marks, p);
        SkipOne(im, marked, queue);
        queue := queue[1..];
      }
    }
    AllPaperMarked(im, marked);
    MarksArePaper(im, marked);
  }

  lemma EdgeQueued(im: Image, queue: seq<Pixel>)
    requires Sound(im) && (forall p | Inside(im, p) && OnEdge(im, p) :: p in queue)
    requires forall p | p in queue && Inside(im, p) :: OnEdge(im, p)
    ensures OnlyPaper(im, {}, queue) && Pending(im, {}, queue)
  {
    hide Paper, OnEdge;
    forall p | p in queue && Near(im, p) ensures Paper(im, p) {
      EdgeIsPaper(im, p);
    }
  }

  lemma MarksArePaper(im: Image, marked: set<Pixel>)
    requires Sound(im) && OnlyPaper(im, marked, [])
    ensures forall p | p in marked :: Paper(im, p)
  {}

  // ---- the strokes ----

  /** A path's next piece, then a horizontal line: absolute, or relative to where the one before ended. Heights are in
      half samples, so a row's middle is a whole number. */
  datatype Piece = Absolute(x: int, y: int, run: nat) | Relative(dx: int, dy: int, run: nat)

  datatype Pen = Pen(x: int, y: int)

  function StartOf(at: Pen, piece: Piece): Pen {
    match piece
    case Absolute(x, y, _) => Pen(x, y)
    case Relative(dx, dy, _) => Pen(at.x + dx, at.y + dy)
  }

  function PenAfter(pieces: seq<Piece>): Pen {
    if pieces == [] then Pen(0, 0)
    else
      var last := pieces[|pieces| - 1];
      var start := StartOf(PenAfter(pieces[..|pieces| - 1]), last);
      Pen(start.x + last.run, start.y)
  }

  /** The samples a line covers: those from x on, in the row whose middle is y. */
  function Line(start: Pen, run: nat): (r: seq<Pixel>)
    ensures |r| == run
  {
    seq(run, k requires 0 <= k < run => Pixel(start.x + k, (start.y - 1) / 2))
  }

  /** What a path draws, in order, as an SVG reader does. */
  function Drawn(pieces: seq<Piece>): seq<Pixel> {
    if pieces == [] then []
    else
      var before := pieces[..|pieces| - 1];
      var last := pieces[|pieces| - 1];
      Drawn(before) + Line(StartOf(PenAfter(before), last), last.run)
  }

  lemma OneMorePiece(pieces: seq<Piece>, piece: Piece)
    ensures var start := StartOf(PenAfter(pieces), piece);
            && Drawn(pieces + [piece]) == Drawn(pieces) + Line(start, piece.run)
            && PenAfter(pieces + [piece]) == Pen(start.x + piece.run, start.y)
  {
    assert (pieces + [piece])[..|pieces|] == pieces;
  }

  /** A colour's path so far, and where its pen is: the source's list, x and y. */
  datatype Path = Path(pieces: seq<Piece>, x: int, y: int)

  /** A pixel to be drawn in a colour. */
  predicate Wanted(im: Image, marks: array2<bool>, c: nat, i: int, j: int)
    requires Sound(im) && marks.Length0 == im.h && marks.Length1 == im.w && 0 <= i < im.w && 0 <= j < im.h
    reads marks
  {
    im.px[j][i] == c && !marks[j, i]
  }

  /** The pixels of a colour that are not paper, row by row: those of the first j rows and the first i of the next. */
  function Upto(im: Image, marks: array2<bool>, c: nat, j: nat, i: nat): seq<Pixel>
    requires Sound(im) && marks.Length0 == im.h && marks.Length1 == im.w
    requires i <= im.w && (j < im.h || (j == im.h && i == 0))
    reads marks
    decreases j, i
  {
    if i > 0 then
      Upto(im, marks, c, j, i - 1) + if Wanted(im, marks, c, i - 1, j) then [Pixel(i - 1, j)] else []
    else if j > 0 then Upto(im, marks, c, j - 1, im.w)
    else []
  }

  /** One run: samples i0 to i - 1 of row j, alike in colour and in being paper. */
  predicate Run(im: Image, marks: array2<bool>, j: nat, i0: nat, i: nat)
    requires Sound(im) && marks.Length0 == im.h && marks.Length1 == im.w && i0 < im.w && i <= im.w && j < im.h
    reads marks
  {
    forall k | i0 <= k < i :: im.px[j][k] == im.px[j][i0] && marks[j, k] == marks[j, i0]
  }

  /** What a run adds: itself, to its own colour, unless it is paper. */
  lemma {:induction false} RunAdds(im: Image, marks: array2<bool>, c: nat, j: nat, i0: nat, i: nat)
    requires Sound(im) && marks.Length0 == im.h && marks.Length1 == im.w && j < im.h && i0 < im.w && i0 <= i <= im.w
    requires Run(im, marks, j, i0, i)
    ensures Upto(im, marks, c, j, i)
         == if Wanted(im, marks, c, i0, j) then Upto(im, marks, c, j, i0) + Line(Pen(i0, 2 * j + 1), i - i0)
            else Upto(im, marks, c, j, i0)
    decreases i
  {
    if i == i0 {
      assert Line(Pen(i0, 2 * j + 1), 0) == [];
    } else {
      RunAdds(im, marks, c, j, i0, i - 1);
      assert im.px[j][i - 1] == im.px[j][i0] && marks[j, i - 1] == marks[j, i0];
      if Wanted(im, marks, c, i0, j) {
        assert Line(Pen(i0, 2 * j + 1), i - i0) == Line(Pen(i0, 2 * j + 1), i - 1 - i0) + [Pixel(i - 1, j)];
      }
    }
  }

  /** A path that draws these pixels, its pen where its last piece ended; only its first piece is absolute. */
  predicate Draws(path: Path, pixels: seq<Pixel>) {
    && path.pieces != [] && Drawn(path.pieces) == pixels && PenAfter(path.pieces) == Pen(path.x, path.y)
    && forall k | 0 <= k < |path.pieces| :: path.pieces[k].Absolute? <==> k == 0
  }

  ghost predicate AllDrawn(im: Image, marks: array2<bool>, paths: map<nat, Path>, j: nat, i: nat)
    requires Sound(im) && marks.Length0 == im.h && marks.Length1 == im.w
    requires i <= im.w && (j < im.h || (j == im.h && i == 0))
    reads marks
  {
    && (forall c | c in paths :: Draws(paths[c], Upto(im, marks, c, j, i)))
    && (forall c: nat | c !in paths :: Upto(im, marks, c, j, i) == [])
  }

  /** The stroke for a run: absolute if it is the colour's first. */
  method Stroke(path: Path, i0: nat, i: nat, j: nat, ghost pixels: seq<Pixel>) returns (r: Path)
    requires i0 <= i && (if path.pieces == [] then pixels == [] else Draws(path, pixels))
    ensures Draws(r, pixels + Line(Pen(i0, 2 * j + 1), i - i0))
  {
    hide Drawn, PenAfter, Line;
    var piece := if path.pieces == [] then Absolute(i0, 2 * j + 1, i - i0)
                 else Relative(i0 - path.x, 2 * j + 1 - path.y, i - i0);
    OneMorePiece(path.pieces, piece);
    if path.pieces == [] {
      NothingDrawn();
    }
    r := Path(path.pieces + [piece], i, 2 * j + 1);
  }

  lemma NothingDrawn()
    ensures Drawn([]) == []
  {}

  lemma Painted(im: Image, marks: array2<bool>, paths: map<nat, Path>, j: nat, i0: nat, i: nat, path: Path)
    requires Sound(im) && marks.Length0 == im.h && marks.Length1 == im.w && j < im.h && i0 < i <= im.w
    requires AllDrawn(im, marks, paths, j, i0) && Run(im, marks, j, i0, i)
    requires !marks[j, i0] ==> Draws(path, Upto(im, marks, im.px[j][i0], j, i0) + Line(Pen(i0, 2 * j + 1), i - i0))
    ensures AllDrawn(im, marks, if marks[j, i0] then paths else paths[im.px[j][i0] := path], j, i)
  {
    hide Upto, Draws, Line, Run;
    forall c: nat
      ensures Upto(im, marks, c, j, i)
           == if Wanted(im, marks, c, i0, j) then Upto(im, marks, c, j, i0) + Line(Pen(i0, 2 * j + 1), i - i0)
              else Upto(im, marks, c, j, i0)
    {
      RunAdds(im, marks, c, j, i0, i);
    }
  }

  lemma NextRow(im: Image, marks: array2<bool>, paths: map<nat, Path>, j: nat)
    requires Sound(im) && marks.Length0 == im.h && marks.Length1 == im.w && j < im.h
    requires AllDrawn(im, marks, paths, j, im.w)
    ensures AllDrawn(im, marks, paths, j + 1, 0)
  {
    hide Draws;
    forall c: nat ensures Upto(im, marks, c, j + 1, 0) == Upto(im, marks, c, j, im.w) {
      RowEnds(im, marks, c, j);
    }
  }

  lemma RowEnds(im: Image, marks: array2<bool>, c: nat, j: nat)
    requires Sound(im) && marks.Length0 == im.h && marks.Length1 == im.w && j < im.h
    ensures Upto(im, marks, c, j + 1, 0) == Upto(im, marks, c, j, im.w)
  {}

  lemma NoRows(im: Image, marks: array2<bool>)
    requires Sound(im) && marks.Length0 == im.h && marks.Length1 == im.w
    ensures AllDrawn(im, marks, map[], 0, 0)
  {}

  /** The paths: one for each colour that has a pixel to draw, drawing exactly its pixels, row by row. */
  method Strokes(im: Image, marks: array2<bool>) returns (paths: map<nat, Path>)
    requires Sound(im) && marks.Length0 == im.h && marks.Length1 == im.w
    ensures AllDrawn(im, marks, paths, im.h, 0)
  {
    hide Upto, Draws, AllDrawn, Line;
    paths := map[];
    NoRows(im, marks);
    for j := 0 to im.h
      invariant AllDrawn(im, marks, paths, j, 0)
    {
      var i := 0;
      while i < im.w
        invariant i <= im.w && AllDrawn(im, marks, paths, j, i)
      {
        var c, i0 := im.px[j][i], i;
        while i < im.w && im.px[j][i] == c && marks[j, i] == marks[j, i0]
          invariant i0 <= i <= im.w && Run(im, marks, j, i0, i)
          invariant i == i0 ==> im.px[j][i] == c
          decreases im.w - i
        {
          i := i + 1;
        }
        var path := Path([], 0, 0);
        if !marks[j, i0] {
          PathOf(im, marks, paths, j, i0, c);
          path := Stroke(if c in paths then paths[c] else Path([], 0, 0), i0, i, j, Upto(im, marks, c, j, i0));
        }
        Painted(im, marks, paths, j, i0, i, path);
        if !marks[j, i0] {
          paths := paths[c := path];
        }
      }
      NextRow(im, marks, paths, j);
    }
  }

  lemma PathOf(im: Image, marks: array2<bool>, paths: map<nat, Path>, j: nat, i0: nat, c: nat)
    requires Sound(im) && marks.Length0 == im.h && marks.Length1 == im.w && j < im.h && i0 < im.w
    requires AllDrawn(im, marks, paths, j, i0)
    ensures c in paths ==> paths[c].pieces != [] && Draws(paths[c], Upto(im, marks, c, j, i0))
    ensures c !in paths ==> Upto(im, marks, c, j, i0) == []
  {
    hide Upto;
  }

  // ---- each pixel once ----

  /** Reading order. */
  predicate Before(p: Pixel, q: Pixel) { p.j < q.j || (p.j == q.j && p.i < q.i) }

  lemma {:induction false} UptoIs(im: Image, marks: array2<bool>, c: nat, j: nat, i: nat)
    requires Sound(im) && marks.Length0 == im.h && marks.Length1 == im.w
    requires i <= im.w && (j < im.h || (j == im.h && i == 0))
    ensures var u := Upto(im, marks, c, j, i);
            && (forall p :: p in u <==> Inside(im, p) && Before(p, Pixel(i, j)) && Wanted(im, marks, c, p.i, p.j))
            && forall m, n | 0 <= m < n < |u| :: Before(u[m], u[n])
    decreases j, i
  {
    hide Wanted;
    if i > 0 {
      UptoIs(im, marks, c, j, i - 1);
      var u := Upto(im, marks, c, j, i);
      var was := Upto(im, marks, c, j, i - 1);
      forall m, n | 0 <= m < n < |u| ensures Before(u[m], u[n]) {
        if n == |was| {
          assert u[m] == was[m] && was[m] in was;
        }
      }
    } else if j > 0 {
      UptoIs(im, marks, c, j - 1, im.w);
    }
  }

  /** Every pixel that is not paper is drawn in its own colour, exactly once, and in no other; nothing else is drawn. */
  method DrawPhoto(im: Image) returns (marks: array2<bool>, paths: map<nat, Path>)
    requires Sound(im)
    ensures fresh(marks) && marks.Length0 == im.h && marks.Length1 == im.w
    ensures forall p :: Marked(im, marks, p) <==> Paper(im, p)
    ensures forall c | c in paths ::
              forall p :: p in Drawn(paths[c].pieces) <==> Inside(im, p) && !Paper(im, p) && im.px[p.j][p.i] == c
    ensures forall c | c in paths :: forall m, n | 0 <= m < n < |Drawn(paths[c].pieces)| ::
              Drawn(paths[c].pieces)[m] != Drawn(paths[c].pieces)[n]
    ensures forall p | Inside(im, p) && !Paper(im, p) :: im.px[p.j][p.i] in paths
  {
    hide Paper, Upto, Drawn;
    marks := Flood(im);
    paths := Strokes(im, marks);
    forall c: nat
      ensures var u := Upto(im, marks, c, im.h, 0);
              && (forall p :: p in u <==> Inside(im, p) && !Paper(im, p) && im.px[p.j][p.i] == c)
              && forall m, n | 0 <= m < n < |u| :: u[m] != u[n]
    {
      UptoIs(im, marks, c, im.h, 0);
    }
  }
}
