/** The best-so-far frontier of the terminal score chart in src/cli/chart.py. */
module Chart {
  import opened Basics

  datatype Point = Point(elapsed: real, score: real)

  /** The plot's size in cells and the data range it covers. */
  datatype Box = Box(h: int, w: int, ymin: real, ymax: real, xmax: real)

  predicate Sane(b: Box) { b.h >= 3 && b.w >= 10 && b.ymin < b.ymax && b.xmax > 0.0 }

  // ---------- Rounding half to even, and the two coordinate maps ----------

  function Round(x: real): int {
    var below := x.Floor;
    var part := x - below as real;
    if part < 0.5 || (part == 0.5 && below % 2 == 0) then below else below + 1
  }

  lemma RoundIsNearest(x: real)
    ensures -0.5 <= Round(x) as real - x <= 0.5
    ensures (Round(x) as real - x == 0.5 || Round(x) as real - x == -0.5) ==> Round(x) % 2 == 0
  { }

  lemma RoundIsMonotone(x: real, y: real)
    requires x <= y
    ensures Round(x) <= Round(y)
  { }

  function Clamp(v: int, top: int): int {
    var floored := if v > 0 then v else 0;
    if floored < top then floored else top
  }

  function Share(b: Box, v: real): real
    requires Sane(b)
  {
    (v - b.ymin) / (b.ymax - b.ymin)
  }

  /** Unrounded screen coordinates; row 0 is the top. */
  function Depth(b: Box, v: real): real
    requires Sane(b)
  {
    (1.0 - Share(b, v)) * (b.h - 1) as real
  }

  function Across(b: Box, e: real): real
    requires Sane(b)
  {
    e / b.xmax * (b.w - 1) as real
  }

  function Row(b: Box, v: real): (r: int)
    requires Sane(b)
    ensures 0 <= r < b.h
  {
    Clamp(Round(Depth(b, v)), b.h - 1)
  }

  function Col(b: Box, e: real): (c: int)
    requires Sane(b)
    ensures 0 <= c < b.w
  {
    Clamp(Round(Across(b, e)), b.w - 1)
  }

  lemma DivideMonotone(x: real, y: real, d: real)
    requires x <= y && d > 0.0
    ensures x / d <= y / d
  {
    assert x / d * d == x && y / d * d == y;
  }

  lemma TimesMonotone(x: real, y: real, k: real)
    requires x <= y && k >= 0.0
    ensures x * k <= y * k
  { }

  lemma DepthIsAntitone(b: Box, u: real, v: real)
    requires Sane(b) && u <= v
    ensures Depth(b, v) <= Depth(b, u)
  {
    TimesMonotone(1.0 - Share(b, v), 1.0 - Share(b, u), (b.h - 1) as real);
  }

  lemma AcrossIsMonotone(b: Box, d: real, e: real)
    requires Sane(b) && d <= e
    ensures Across(b, d) <= Across(b, e)
  {
    DivideMonotone(d, e, b.xmax);
    TimesMonotone(d / b.xmax, e / b.xmax, (b.w - 1) as real);
  }

  /** A higher score is never drawn lower, nor a later result further left. */
  lemma RowIsAntitone(b: Box, u: real, v: real)
    requires Sane(b) && u <= v
    ensures Row(b, v) <= Row(b, u)
  {
    DepthIsAntitone(b, u, v);
    RoundIsMonotone(Depth(b, v), Depth(b, u));
  }

  lemma ColIsMonotone(b: Box, d: real, e: real)
    requires Sane(b) && d <= e
    ensures Col(b, d) <= Col(b, e)
  {
    AcrossIsMonotone(b, d, e);
    RoundIsMonotone(Across(b, d), Across(b, e));
  }

  /** The top and bottom rows are the ends of the range, and rows are spaced evenly in between. */
  lemma DepthExactly(b: Box, v: real)
    requires Sane(b)
    ensures Depth(b, b.ymax) == 0.0 && Depth(b, b.ymin) == (b.h - 1) as real
    ensures Depth(b, v) * (b.ymax - b.ymin) == (b.ymax - v) * (b.h - 1) as real
    ensures Row(b, b.ymax) == 0 && Row(b, b.ymin) == b.h - 1
  {
    var d := b.ymax - b.ymin;
    TimesBack(v - b.ymin, d);
    TimesBack(d, d);
    assert Share(b, b.ymin) == 0.0 / d == 0.0;
    assert Share(b, b.ymax) == 1.0;
    Regrouped(Share(b, v), d, (b.h - 1) as real);
  }

  lemma TimesBack(x: real, d: real)
    requires d > 0.0
    ensures x / d * d == x && d / d == 1.0
  {
  }

  lemma Regrouped(s: real, d: real, k: real)
    ensures (1.0 - s) * k * d == (d - s * d) * k
  {
  }

  /** The first and last columns are the start and the end of the time range, spaced evenly in between. */
  lemma AcrossExactly(b: Box, e: real)
    requires Sane(b)
    ensures Across(b, 0.0) == 0.0 && Across(b, b.xmax) == (b.w - 1) as real
    ensures Across(b, e) * b.xmax == e * (b.w - 1) as real
    ensures Col(b, 0.0) == 0 && Col(b, b.xmax) == b.w - 1
  {
    TimesBack(e, b.xmax);
    Reordered(e / b.xmax, (b.w - 1) as real, b.xmax);
    assert 0.0 / b.xmax == 0.0;
  }

  lemma Reordered(x: real, k: real, d: real)
    ensures x * k * d == x * d * k
  {
  }

  // ---------- The data range ----------

  function Lowest(ys: seq<real>): (m: real)
    requires ys != []
    ensures m in ys && forall y :: y in ys ==> m <= y
  {
    if |ys| == 1 then ys[0] else
      assert ys == [ys[0]] + ys[1..];
      var rest := Lowest(ys[1..]);
      if ys[0] <= rest then ys[0] else rest
  }

  function Highest(ys: seq<real>): (m: real)
    requires ys != []
    ensures m in ys && forall y :: y in ys ==> y <= m
  {
    if |ys| == 1 then ys[0] else
      assert ys == [ys[0]] + ys[1..];
      var rest := Highest(ys[1..]);
      if ys[0] >= rest then ys[0] else rest
  }

  function Span(ys: seq<real>): (real, real)
    requires ys != []
  {
    var low, high := Lowest(ys), Highest(ys);
    var pad :=
      if high - low < 0.000000001 then (if high == 0.0 then 1.0 else (if high < 0.0 then -high else high) * 0.1)
      else (high - low) * 0.05;
    (low - pad, high + pad)
  }

  function BoxOf(ys: seq<real>, xs: seq<real>, now: real, height: int, w: int): Box
    requires ys != []
  {
    var last := Highest([now] + xs);
    Box(if height - 2 > 3 then height - 2 else 3, w, Span(ys).0, Span(ys).1, if last <= 0.0 then 1.0 else last)
  }

  /**
   The box always has room, every charted score falls strictly inside it, and
   so the row of a charted score is its rounded height with no clamping.
   */
  lemma BoxHoldsItsScores(ys: seq<real>, xs: seq<real>, now: real, height: int, w: int, y: real)
    requires ys != [] && w >= 10 && y in ys
    ensures var b := BoxOf(ys, xs, now, height, w);
      && Sane(b) && b.ymin < y < b.ymax
      && Row(b, y) == Round(Depth(b, y))
  {
    var b := BoxOf(ys, xs, now, height, w);
    assert b.ymin < y < b.ymax;
    DepthInside(b, y);
    RoundIsMonotone(0.0, Depth(b, y));
    RoundIsMonotone(Depth(b, y), (b.h - 1) as real);
  }

  /**
   The range reaches past the scores by a twentieth of their spread on either side, or by a tenth of their
   size (one for zero) when they hardly differ; the time axis reaches the last attempt and the present.
   */
  lemma BoxExactly(ys: seq<real>, xs: seq<real>, now: real, height: int, w: int, low: real, high: real, last: real)
    requires low in ys && high in ys && (forall y :: y in ys ==> low <= y <= high)
    requires last in [now] + xs && forall x :: x in [now] + xs ==> x <= last
    ensures var b := BoxOf(ys, xs, now, height, w);
      && (high - low >= 0.000000001 ==> low - b.ymin == b.ymax - high == (high - low) * 0.05)
      && (high - low < 0.000000001 ==>
            low - b.ymin == b.ymax - high
            && b.ymax - high == (if high == 0.0 then 1.0 else if high > 0.0 then high * 0.1 else high * -0.1))
      && b.xmax == (if last > 0.0 then last else 1.0) && b.w == w
      && b.h == if height > 5 then height - 2 else 3
  {
  }

  lemma DepthInside(b: Box, y: real)
    requires Sane(b) && b.ymin <= y <= b.ymax
    ensures 0.0 <= Depth(b, y) <= (b.h - 1) as real
  {
    DepthIsAntitone(b, b.ymin, y);
    DepthIsAntitone(b, y, b.ymax);
  }

  // ---------- Running best ----------

  predicate Better(a: real, b: real, minimize: bool) { if minimize then a < b else a > b }

  function Best(ps: seq<Point>, minimize: bool): Option<real> {
    if ps == [] then None
    else
      var n := |ps| - 1;
      var before := Best(ps[..n], minimize);
      if before == None || Better(ps[n].score, before.value, minimize) then Some(ps[n].score) else before
  }

  lemma {:induction false} BestIsBest(ps: seq<Point>, minimize: bool)
    ensures Best(ps, minimize) == None <==> ps == []
    ensures ps != [] ==>
      var v := Best(ps, minimize).value;
      && (exists i :: 0 <= i < |ps| && ps[i].score == v)
      && (forall i :: 0 <= i < |ps| ==> !Better(ps[i].score, v, minimize))
  {
    if ps != [] {
      var n := |ps| - 1;
      BestIsBest(ps[..n], minimize);
      var v := Best(ps, minimize).value;
      if v != ps[n].score {
        var i :| 0 <= i < n && ps[..n][i].score == v;
        assert ps[i].score == v;
      }
      forall i | 0 <= i < |ps| ensures !Better(ps[i].score, v, minimize) {
        if i < n { assert ps[..n][i] == ps[i]; }
      }
    }
  }

  predicate ByTime(ps: seq<Point>) { forall i, j :: 0 <= i < j < |ps| ==> ps[i].elapsed <= ps[j].elapsed }

  /** The stable sort by elapsed time. */
  function Insert(p: Point, ps: seq<Point>): seq<Point> {
    if ps == [] || p.elapsed < ps[0].elapsed then [p] + ps else [ps[0]] + Insert(p, ps[1..])
  }

  function Ordered(ps: seq<Point>): seq<Point> {
    if ps == [] then [] else Insert(ps[|ps| - 1], Ordered(ps[..|ps| - 1]))
  }

  lemma {:induction false} InsertIsPermutation(p: Point, ps: seq<Point>)
    ensures multiset(Insert(p, ps)) == multiset(ps) + multiset{p}
  {
    if ps != [] && p.elapsed >= ps[0].elapsed {
      InsertIsPermutation(p, ps[1..]);
      assert ps == [ps[0]] + ps[1..];
    }
  }

  lemma {:induction false} InsertKeepsOrder(p: Point, ps: seq<Point>)
    requires ByTime(ps)
    ensures ByTime(Insert(p, ps))
  {
    if ps != [] && p.elapsed >= ps[0].elapsed {
      InsertKeepsOrder(p, ps[1..]);
      var rest := Insert(p, ps[1..]);
      forall k | 0 <= k < |rest| ensures ps[0].elapsed <= rest[k].elapsed {
        InsertIsPermutation(p, ps[1..]);
        assert rest[k] in multiset(rest);
      }
    }
  }

  lemma {:induction false} OrderedIsSortedPermutation(ps: seq<Point>)
    ensures ByTime(Ordered(ps)) && multiset(Ordered(ps)) == multiset(ps)
  {
    if ps != [] {
      var n := |ps| - 1;
      OrderedIsSortedPermutation(ps[..n]);
      InsertKeepsOrder(ps[n], Ordered(ps[..n]));
      OrderedSnoc(ps);
    }
  }

  lemma OrderedSnoc(ps: seq<Point>)
    requires ps != [] && multiset(Ordered(ps[..|ps| - 1])) == multiset(ps[..|ps| - 1])
    ensures multiset(Ordered(ps)) == multiset(ps)
  {
    var n := |ps| - 1;
    InsertIsPermutation(ps[n], Ordered(ps[..n]));
    MultisetSnoc(ps);
  }

  lemma MultisetSnoc(ps: seq<Point>)
    requires ps != []
    ensures multiset(ps) == multiset(ps[..|ps| - 1]) + multiset{ps[|ps| - 1]}
  {
    assert ps == ps[..|ps| - 1] + [ps[|ps| - 1]];
  }

  // ---------- The frontier's value at a column ----------

  /** How many leading points lie at or left of column c. */
  function Reach(b: Box, ps: seq<Point>, c: int): (n: nat)
    requires Sane(b)
    ensures n <= |ps|
  {
    if ps == [] then 0
    else if Col(b, ps[|ps| - 1].elapsed) <= c then |ps|
    else Reach(b, ps[..|ps| - 1], c)
  }

  lemma {:induction false} ReachIsThePointsToTheLeft(b: Box, ps: seq<Point>, c: int)
    requires Sane(b) && ByTime(ps)
    ensures forall i :: 0 <= i < |ps| ==> (i < Reach(b, ps, c) <==> Col(b, ps[i].elapsed) <= c)
  {
    if ps != [] {
      var n := |ps| - 1;
      if Col(b, ps[n].elapsed) <= c {
        forall i | 0 <= i < n ensures Col(b, ps[i].elapsed) <= c { ColIsMonotone(b, ps[i].elapsed, ps[n].elapsed); }
      } else {
        ReachIsThePointsToTheLeft(b, ps[..n], c);
        forall i | 0 <= i < n ensures i < Reach(b, ps, c) <==> Col(b, ps[i].elapsed) <= c {
          assert ps[..n][i] == ps[i];
        }
      }
    }
  }

  function Value(b: Box, ps: seq<Point>, minimize: bool, c: int): Option<real>
    requires Sane(b)
  {
    Best(ps[..Reach(b, ps, c)], minimize)
  }

  lemma LeftOf(b: Box, points: seq<Point>, c: int, p: Point)
    requires Sane(b)
    ensures var ps := Ordered(points);
      p in ps[..Reach(b, ps, c)] <==> p in points && Col(b, p.elapsed) <= c
  {
    var ps := Ordered(points);
    OrderedIsSortedPermutation(points);
    ReachIsThePointsToTheLeft(b, ps, c);
    var left := ps[..Reach(b, ps, c)];
    assert p in points <==> p in multiset(ps);
    if p in points && Col(b, p.elapsed) <= c {
      var i :| 0 <= i < |ps| && ps[i] == p;
      assert left[i] == p;
    }
    if p in left {
      var i :| 0 <= i < |left| && left[i] == p;
      assert ps[i] == p;
    }
  }

  /**
   The forward-filled value at a column is the best score of all the points
   at or left of it, whatever order the points came in.
   */
  lemma ValueIsBestSoFar(b: Box, points: seq<Point>, minimize: bool, c: int)
    requires Sane(b)
    ensures var v := Value(b, Ordered(points), minimize, c);
      && (v == None <==> forall p :: p in points ==> Col(b, p.elapsed) > c)
      && (v.Some? ==>
            && (exists p :: p in points && Col(b, p.elapsed) <= c && p.score == v.value)
            && (forall p :: p in points && Col(b, p.elapsed) <= c ==> !Better(p.score, v.value, minimize)))
  {
    var ps := Ordered(points);
    OrderedIsSortedPermutation(points);
    ReachIsThePointsToTheLeft(b, ps, c);
    var left := ps[..Reach(b, ps, c)];
    BestIsBest(left, minimize);
    forall p ensures p in left <==> p in points && Col(b, p.elapsed) <= c { LeftOf(b, points, c, p); }
    if left == [] {
      forall p | p in points ensures Col(b, p.elapsed) > c { assert p !in left; }
    } else {
      var v := Best(left, minimize).value;
      var i :| 0 <= i < |left| && left[i].score == v;
      assert left[i] in left;
      forall p | p in points && Col(b, p.elapsed) <= c ensures !Better(p.score, v, minimize) {
        var k :| 0 <= k < |left| && left[k] == p;
      }
    }
  }

  /**
   Moving right never worsens the value, so on screen the frontier never
   moves down when maximizing and never up when minimizing.
   */
  lemma FrontierIsMonotone(b: Box, points: seq<Point>, minimize: bool, c: int, d: int)
    requires Sane(b) && c <= d && Value(b, Ordered(points), minimize, c).Some?
    ensures var ps := Ordered(points);
      var v, w := Value(b, ps, minimize, c), Value(b, ps, minimize, d);
      && w.Some? && !Better(v.value, w.value, minimize)
      && (if minimize then Row(b, v.value) <= Row(b, w.value) else Row(b, w.value) <= Row(b, v.value))
  {
    var ps := Ordered(points);
    ValueIsBestSoFar(b, points, minimize, c);
    ValueIsBestSoFar(b, points, minimize, d);
    var v, w := Value(b, ps, minimize, c), Value(b, ps, minimize, d);
    if minimize { RowIsAntitone(b, w.value, v.value); } else { RowIsAntitone(b, v.value, w.value); }
  }

  // ---------- Drawing ----------

  datatype Stroke = Flat | Bar | RiseFrom | RiseTo | FallFrom | FallTo
  datatype Cell = Empty | Baseline | Frontier(stroke: Stroke)

  /**
   What the frontier draws at row r of a column it enters at row p and leaves
   at row q. The first column is entered where it is left.
   */
  function Drawn(p: int, q: int, r: int): Option<Stroke> {
    if p == q then (if r == q then Some(Flat) else None)
    else if r == q then Some(if q < p then RiseTo else FallTo)
    else if r == p then Some(if q < p then RiseFrom else FallFrom)
    else if p < r < q || q < r < p then Some(Bar)
    else None
  }

  /**
   A column's strokes fill exactly the rows between its entry and its exit,
   and the next column is entered where this one is left: the line is connected.
   */
  lemma StrokesAreConnected(p: int, q: int, r: int)
    ensures Drawn(p, q, r).Some? <==> p <= r <= q || q <= r <= p
    ensures Drawn(p, q, r) == Some(Flat) <==> p == r == q
    ensures Drawn(p, q, r) == Some(RiseFrom) <==> r == p && q < p
    ensures Drawn(p, q, r) == Some(RiseTo) <==> r == q && q < p
    ensures Drawn(p, q, r) == Some(FallFrom) <==> r == p && p < q
    ensures Drawn(p, q, r) == Some(FallTo) <==> r == q && p < q
  { }

  /** A column is entered in the row in which the one before it was left, and the first where it is left. */
  lemma EnteredWhereLeft(b: Box, ps: seq<Point>, minimize: bool, r: int, c: int)
    requires Sane(b) && Value(b, ps, minimize, c).Some?
    ensures var here, before := Value(b, ps, minimize, c).value, Value(b, ps, minimize, c - 1);
      var p, q := Row(b, if before.Some? then before.value else here), Row(b, here);
      StrokeAt(b, ps, minimize, r, c).Some? <==> p <= r <= q || q <= r <= p
  { }

  function FrontierRow(b: Box, ps: seq<Point>, minimize: bool, c: int): (r: int)
    requires Sane(b)
    ensures 0 <= r < b.h
  {
    var v := Value(b, ps, minimize, c);
    if v.Some? then Row(b, v.value) else 0
  }

  function EntryRow(b: Box, ps: seq<Point>, minimize: bool, c: int): (r: int)
    requires Sane(b)
  {
    FrontierRow(b, ps, minimize, if Value(b, ps, minimize, c - 1) == None then c else c - 1)
  }

  function StrokeAt(b: Box, ps: seq<Point>, minimize: bool, r: int, c: int): Option<Stroke>
    requires Sane(b)
  {
    if Value(b, ps, minimize, c) == None then None
    else
      Drawn(EntryRow(b, ps, minimize, c), FrontierRow(b, ps, minimize, c), r)
  }

  /**
   One of the two kinds of step is never drawn: maximizing never draws the
   falling one, minimizing never the rising one.
   */
  lemma OneStepPerDirection(b: Box, points: seq<Point>, minimize: bool, r: int, c: int)
    requires Sane(b)
    ensures var s := StrokeAt(b, Ordered(points), minimize, r, c);
      if minimize then s !in {Some(RiseFrom), Some(RiseTo)} else s !in {Some(FallFrom), Some(FallTo)}
  {
    if Value(b, Ordered(points), minimize, c - 1).Some? {
      FrontierIsMonotone(b, points, minimize, c - 1, c);
    }
  }

  /** A minimizing improvement big enough to change rows is drawn with the falling step. */
  lemma MinimizingImprovementFalls(b: Box, points: seq<Point>, c: int)
    requires Sane(b) && Value(b, Ordered(points), true, c - 1).Some?
    requires FrontierRow(b, Ordered(points), true, c) != FrontierRow(b, Ordered(points), true, c - 1)
    ensures StrokeAt(b, Ordered(points), true, FrontierRow(b, Ordered(points), true, c), c) == Some(FallTo)
    ensures Better(Value(b, Ordered(points), true, c).value, Value(b, Ordered(points), true, c - 1).value, true)
  {
    FrontierIsMonotone(b, points, true, c - 1, c);
  }

  // ---------- The loops ----------

  method SetFrontier(grid: array2<Cell>, r: int, c: int, s: Stroke)
    modifies grid
    ensures forall i, j :: 0 <= i < grid.Length0 && 0 <= j < grid.Length1 ==>
      grid[i, j] == if i == r && j == c then Frontier(s) else old(grid[i, j])
  {
    if 0 <= r < grid.Length0 && 0 <= c < grid.Length1 { grid[r, c] := Frontier(s); }
  }

  /** The columns that hold attempts, each with the frontier's value there. */
  ghost predicate ColumnsOf(b: Box, ps: seq<Point>, minimize: bool, colVal: map<int, real>)
    requires Sane(b)
  {
    && (forall c :: c in colVal <==> exists i :: 0 <= i < |ps| && Col(b, ps[i].elapsed) == c)
    && (forall c :: c in colVal ==> Value(b, ps, minimize, c) == Some(colVal[c]))
  }

  /** The running best at each attempt's column. */
  method ColumnValues(b: Box, ps: seq<Point>, minimize: bool) returns (colVal: map<int, real>)
    requires Sane(b) && ByTime(ps)
    ensures ColumnsOf(b, ps, minimize, colVal)
  {
    colVal := map[];
    var best: Option<real> := None;
    for i := 0 to |ps|
      invariant best == Best(ps[..i], minimize)
      invariant forall c :: c in colVal <==> exists k :: 0 <= k < i && Col(b, ps[k].elapsed) == c
      invariant forall c :: c in colVal ==> Value(b, ps[..i], minimize, c) == Some(colVal[c])
    {
      var Point(e, score) := ps[i];
      ColumnStep(b, ps, minimize, i);
      if best == None || Better(score, best.value, minimize) { best := Some(score); }
      assert ps[..i + 1][..i] == ps[..i];
      colVal := colVal[Col(b, e) := best.value];
    }
    assert ps[..|ps|] == ps;
  }

  lemma ColumnStep(b: Box, ps: seq<Point>, minimize: bool, i: nat)
    requires Sane(b) && ByTime(ps) && i < |ps|
    ensures Value(b, ps[..i + 1], minimize, Col(b, ps[i].elapsed)) == Best(ps[..i + 1], minimize)
    ensures forall k, c :: 0 <= k < i && Col(b, ps[k].elapsed) == c && c != Col(b, ps[i].elapsed) ==>
      Value(b, ps[..i + 1], minimize, c) == Value(b, ps[..i], minimize, c)
  {
    var upto := ps[..i + 1];
    assert upto[..i] == ps[..i] && upto[..|upto|] == upto;
    forall k, c | 0 <= k < i && Col(b, ps[k].elapsed) == c && c != Col(b, ps[i].elapsed)
      ensures Value(b, upto, minimize, c) == Value(b, ps[..i], minimize, c)
    {
      ColIsMonotone(b, ps[k].elapsed, ps[i].elapsed);
      var n := Reach(b, ps[..i], c);
      assert Reach(b, upto, c) == n && upto[..n] == ps[..i][..n];
    }
  }

  lemma {:induction false} ReachSkipsEmptyColumn(b: Box, ps: seq<Point>, c: int)
    requires Sane(b)
    requires forall i :: 0 <= i < |ps| ==> Col(b, ps[i].elapsed) != c
    ensures Reach(b, ps, c) == Reach(b, ps, c - 1)
  {
    if ps != [] { ReachSkipsEmptyColumn(b, ps[..|ps| - 1], c); }
  }

  function Smallest(s: set<int>): (m: int)
    requires s != {}
    ensures m in s && forall x :: x in s ==> m <= x
  {
    SmallestExists(s);
    var m :| m in s && forall x :: x in s ==> m <= x;
    m
  }

  lemma AnyOf(s: set<int>) returns (a: int)
    requires s != {}
    ensures a in s
  {
    assert (forall x: int :: x !in s) ==> s == {};
    a :| a in s;
  }

  lemma {:induction false} SmallestExists(s: set<int>)
    requires s != {}
    ensures exists m :: m in s && forall x :: x in s ==> m <= x
  {
    var a := AnyOf(s);
    if x :| x in s && x < a {
      assert x in s - {a};
      SmallestExists(s - {a});
      var m :| m in s - {a} && forall x :: x in s - {a} ==> m <= x;
      assert forall x :: x in s ==> x == a || x in s - {a};
      var least := if a <= m then a else m;
      assert least in s && forall x :: x in s ==> least <= x;
    }
  }

  /** The forward fill: a row for every column from the first attempt's on. */
  method FillRows(b: Box, ps: seq<Point>, minimize: bool, colVal: map<int, real>, first: int)
    returns (rows: map<int, int>)
    requires Sane(b) && ColumnsOf(b, ps, minimize, colVal)
    requires first in colVal && first <= b.w
    ensures RowsUpTo(b, ps, minimize, first, b.w, rows)
  {
    rows := map[];
    var cur: Option<real> := None;
    for c := first to b.w
      invariant RowsUpTo(b, ps, minimize, first, c, rows)
      invariant c > first ==> cur.Some? && cur == Value(b, ps, minimize, c - 1)
    {
      ValueAtColumn(b, ps, minimize, colVal, c);
      if c in colVal { cur := Some(colVal[c]); }
      if cur.Some? {
        RowsStep(b, ps, minimize, first, c, rows);
        rows := rows[c := Row(b, cur.value)];
      }
    }
  }

  ghost predicate RowsUpTo(b: Box, ps: seq<Point>, minimize: bool, first: int, end: int, rows: map<int, int>)
    requires Sane(b)
  {
    && (forall c :: c in rows <==> first <= c < end)
    && (forall c :: c in rows ==> Value(b, ps, minimize, c).Some? && rows[c] == FrontierRow(b, ps, minimize, c))
  }

  lemma RowsStep(b: Box, ps: seq<Point>, minimize: bool, first: int, c: int, rows: map<int, int>)
    requires Sane(b) && first <= c && RowsUpTo(b, ps, minimize, first, c, rows) && Value(b, ps, minimize, c).Some?
    ensures RowsUpTo(b, ps, minimize, first, c + 1, rows[c := Row(b, Value(b, ps, minimize, c).value)])
  { }

  lemma ValueAtColumn(b: Box, ps: seq<Point>, minimize: bool, colVal: map<int, real>, c: int)
    requires Sane(b) && ColumnsOf(b, ps, minimize, colVal)
    ensures Value(b, ps, minimize, c) == if c in colVal then Some(colVal[c]) else Value(b, ps, minimize, c - 1)
  {
    if c !in colVal { ReachSkipsEmptyColumn(b, ps, c); }
  }

  /** The strokes of one column, entered at row p and left at row q. */
  method DrawColumn(grid: array2<Cell>, c: int, p: int, q: int)
    modifies grid
    ensures forall i, j :: 0 <= i < grid.Length0 && 0 <= j < grid.Length1 ==>
      grid[i, j] == if j == c then Painted(Drawn(p, q, i), old(grid[i, j])) else old(grid[i, j])
  {
    if p == q {
      SetFrontier(grid, q, c, Flat);
    } else {
      var lo, hi := if q < p then q else p, if q < p then p else q;
      for r := lo + 1 to hi
        invariant forall i, j :: 0 <= i < grid.Length0 && 0 <= j < grid.Length1 ==>
          grid[i, j] == if j == c && lo < i < r then Frontier(Bar) else old(grid[i, j])
      {
        SetFrontier(grid, r, c, Bar);
      }
      if q < p {
        SetFrontier(grid, p, c, RiseFrom);
        SetFrontier(grid, q, c, RiseTo);
      } else {
        SetFrontier(grid, p, c, FallFrom);
        SetFrontier(grid, q, c, FallTo);
      }
    }
  }

  /** The frontier over the grid: each cell gets its stroke or keeps what it held. */
  method DrawFrontier(grid: array2<Cell>, b: Box, scored: seq<Point>, minimize: bool)
    requires Sane(b) && grid.Length0 == b.h && grid.Length1 == b.w
    modifies grid
    ensures forall r, c :: 0 <= r < b.h && 0 <= c < b.w ==>
      grid[r, c] == Painted(StrokeAt(b, Ordered(scored), minimize, r, c), old(grid[r, c]))
  {
    var ps := Ordered(scored);
    OrderedIsSortedPermutation(scored);
    var colVal := ColumnValues(b, ps, minimize);
    if colVal == map[] {
      NoColumnsNoStrokes(b, ps, minimize, colVal);
    } else {
      var first := Smallest(colVal.Keys);
      FirstColumn(b, ps, minimize, colVal, first);
      var rows := FillRows(b, ps, minimize, colVal, first);
      DrawColumns(grid, b, ps, minimize, first, rows);
    }
  }

  method DrawColumns(grid: array2<Cell>, b: Box, ps: seq<Point>, minimize: bool, first: nat, rows: map<int, int>)
    requires Sane(b) && grid.Length0 == b.h && grid.Length1 == b.w
    requires RowsUpTo(b, ps, minimize, first, b.w, rows)
    requires first <= b.w && forall c :: c < first ==> Value(b, ps, minimize, c) == None
    modifies grid
    ensures forall r, c :: 0 <= r < b.h && 0 <= c < b.w ==>
      grid[r, c] == Painted(StrokeAt(b, ps, minimize, r, c), old(grid[r, c]))
  {
    var previous: Option<int> := None;
    ghost var strokes := (i: int, j: int) => StrokeAt(b, ps, minimize, i, j);
    for c := first to b.w
      invariant previous == if c == first then None else Some(rows[c - 1])
      invariant forall i, j :: 0 <= i < b.h && 0 <= j < b.w ==>
        grid[i, j] == if first <= j < c then Painted(strokes(i, j), old(grid[i, j])) else old(grid[i, j])
    {
      var q := rows[c];
      var p := if previous == None then q else previous.value;
      DrawColumn(grid, c, p, q);
      previous := Some(q);
    }
  }

  /** A cell keeps what it held unless a stroke is drawn over it. */
  function Painted(stroke: Option<Stroke>, before: Cell): Cell {
    if stroke.Some? then Frontier(stroke.value) else before
  }

  lemma NoColumnsNoStrokes(b: Box, ps: seq<Point>, minimize: bool, colVal: map<int, real>)
    requires Sane(b) && colVal == map[] && ColumnsOf(b, ps, minimize, colVal)
    ensures forall r, c :: StrokeAt(b, ps, minimize, r, c) == None
  {
    if ps != [] { FirstPointHasColumn(b, ps, minimize, colVal); }
  }

  lemma FirstPointHasColumn(b: Box, ps: seq<Point>, minimize: bool, colVal: map<int, real>)
    requires Sane(b) && ps != [] && ColumnsOf(b, ps, minimize, colVal)
    ensures colVal != map[]
  {
    assert Col(b, ps[0].elapsed) in colVal;
  }

  lemma FirstColumn(b: Box, ps: seq<Point>, minimize: bool, colVal: map<int, real>, first: int)
    requires Sane(b) && ByTime(ps) && ColumnsOf(b, ps, minimize, colVal)
    requires first in colVal && forall c :: c in colVal ==> first <= c
    ensures 0 <= first < b.w
    ensures forall c :: c < first ==> Value(b, ps, minimize, c) == None
  {
    forall i | 0 <= i < |ps| ensures first <= Col(b, ps[i].elapsed) {
      assert Col(b, ps[i].elapsed) in colVal;
    }
    forall c | c < first ensures Value(b, ps, minimize, c) == None {
      ReachIsThePointsToTheLeft(b, ps, c);
    }
  }
}
