/** The grid layout (diagen/layouts/grid.py): children are auto-placed into 1-based
    column/row tracks, each track is as large as the largest share of a child spanning it,
    and the tracks are laid out one gap apart inside the node's padding. */
module Grid {
  import opened Utils
  import opened Props

  /** A placed child: 0-based first track and track count per axis, and the child's index. */
  datatype Cell = Cell(pos: (int, int), size: (int, int), node: nat)

  /** Python's truth value of `int | None`: neither None nor 0. */
  predicate Truthy(m: Option<int>)
  {
    m.Some? && m.value != 0
  }

  /** `next_span(current, span, max_size)`: the half-open 1-based track range a span asks
      for, never empty. */
  function NextSpan(current: int, span: Span, maxSize: Option<int>): (r: (int, int))
    ensures r.1 >= r.0 + 1
  {
    var start := if span.relStart then span.start + current else span.start;
    var end :=
      if span.relEnd then span.end + start
      else if Truthy(maxSize) && span.end <= 0 then span.end + maxSize.value + 1
      else span.end;
    (start, Max(end, start + 1))
  }

  /** A span's start is taken from the cursor when relative; its end is a length when
      relative, and otherwise an absolute end, where an end <= 0 counts back from
      `maxSize + 1` only if `maxSize` is truthy. */
  lemma NextSpanMeaning(current: int, span: Span, maxSize: Option<int>)
    ensures var r := NextSpan(current, span, maxSize);
      && r.0 == (if span.relStart then current + span.start else span.start)
      && (span.relEnd ==> r.1 == r.0 + Max(span.end, 1))
      && (!span.relEnd && (span.end > 0 || !Truthy(maxSize)) ==> r.1 == Max(span.end, r.0 + 1))
      && (!span.relEnd && span.end <= 0 && Truthy(maxSize) ==> r.1 == Max(maxSize.value + 1 + span.end, r.0 + 1))
  {
  }

  /** The placement cursor: current row `r`, current column `c` (both along the grid's
      direction and across it), and the largest end seen so far. */
  datatype Cursor = Cursor(r: int, c: int, imax: int)

  const Initial := Cursor(1, 1, 0)

  /** The track count that `next_span` counts back from: the declared one when it is
      truthy, the running maximum otherwise. */
  function Ceiling(maxSize: Option<int>, cur: Cursor): int
  {
    if Truthy(maxSize) then maxSize.value else cur.imax
  }

  /** The cell for 1-based half-open ranges `[cs, ce)` along the direction and `[rs, re)`
      across it, stored 0-based with the axes put back in (column, row) order. */
  function MakeCell(d: Axis, cs: int, ce: int, rs: int, re: int, k: nat): Cell
  {
    Cell(Dtup2(d, cs - 1, rs - 1), Dtup2(d, ce - cs, re - rs), k)
  }

  /** One turn of the placement loop: child `k` with spans `spans` (column, row). */
  function Place(d: Axis, maxSize: Option<int>, cur: Cursor, spans: (Span, Span), k: nat): (res: (Cell, Cursor))
    ensures res.0.node == k && res.0.size.0 >= 1 && res.0.size.1 >= 1
  {
    var o := Other(d);
    var main := NextSpan(cur.c, At(spans, d), Some(Ceiling(maxSize, cur)));
    var cs, ce := main.0, main.1;
    var imax := Max(cur.imax, ce - 1);
    var r := if cs < cur.c then cur.r + 1 else cur.r;
    var cross := NextSpan(r, At(spans, o), None);
    var rs, re := cross.0, cross.1;
    var cell := MakeCell(d, cs, ce, rs, re, k);
    if maxSize.Some? && ce > maxSize.value then (cell, Cursor(rs + 1, 1, imax))
    else (cell, Cursor(rs, ce, imax))
  }

  /** One turn of the placement loop, given the two spans it resolves. */
  lemma PlaceIs(d: Axis, maxSize: Option<int>, cur: Cursor, spans: (Span, Span), k: nat,
                cs: int, ce: int, rs: int, re: int)
    requires (cs, ce) == NextSpan(cur.c, At(spans, d), Some(Ceiling(maxSize, cur)))
    requires (rs, re) == NextSpan(if cs < cur.c then cur.r + 1 else cur.r, At(spans, Other(d)), None)
    ensures Place(d, maxSize, cur, spans, k) ==
      (MakeCell(d, cs, ce, rs, re, k),
       if maxSize.Some? && ce > maxSize.value then Cursor(rs + 1, 1, Max(cur.imax, ce - 1))
       else Cursor(rs, ce, Max(cur.imax, ce - 1)))
  {
  }

  /** The placement loop over the first `|spans|` children. */
  function Placement(d: Axis, maxSize: Option<int>, spans: seq<(Span, Span)>): (res: (seq<Cell>, Cursor))
    ensures |res.0| == |spans|
    ensures forall k :: 0 <= k < |spans| ==> res.0[k].node == k && res.0[k].size.0 >= 1 && res.0[k].size.1 >= 1
  {
    if spans == [] then ([], Initial)
    else
      var (cells, cur) := Placement(d, maxSize, spans[..|spans| - 1]);
      var (cell, cur') := Place(d, maxSize, cur, spans[|spans| - 1], |spans| - 1);
      (cells + [cell], cur')
  }

  lemma PlacementStep(d: Axis, maxSize: Option<int>, spans: seq<(Span, Span)>, i: nat)
    requires i < |spans|
    ensures var prev := Placement(d, maxSize, spans[..i]);
      var step := Place(d, maxSize, prev.1, spans[i], i);
      Placement(d, maxSize, spans[..i + 1]) == (prev.0 + [step.0], step.1)
  {
    assert spans[..i + 1][..i] == spans[..i];
  }

  /** A cell covers track `t` on axis `a`. */
  predicate Covers(cell: Cell, a: Axis, t: int)
  {
    At(cell.pos, a) <= t < At(cell.pos, a) + At(cell.size, a)
  }

  /** The cells registered for track `t` of axis `a` (columns for 0, rows for 1), in order. */
  function TrackCells(cells: seq<Cell>, a: Axis, t: int): seq<Cell>
  {
    if cells == [] then []
    else
      var last := cells[|cells| - 1];
      TrackCells(cells[..|cells| - 1], a, t) + (if Covers(last, a, t) then [last] else [])
  }

  /** A track's list holds the cells that cover it, and only those. */
  lemma {:induction false} TrackCellsMembers(cells: seq<Cell>, a: Axis, t: int)
    ensures forall x :: x in TrackCells(cells, a, t) <==> x in cells && Covers(x, a, t)
  {
    if cells != [] {
      var init := cells[..|cells| - 1];
      TrackCellsMembers(init, a, t);
      assert cells == init + [cells[|cells| - 1]];
    }
  }

  /** `tracks.get(t, [])`. */
  function Lookup(tracks: map<int, seq<Cell>>, t: int): seq<Cell>
  {
    if t in tracks then tracks[t] else []
  }

  /** The track lists of axis `a` hold exactly the cells covering each track, in order. */
  ghost predicate Registered(tracks: map<int, seq<Cell>>, cells: seq<Cell>, a: Axis)
  {
    forall t :: Lookup(tracks, t) == TrackCells(cells, a, t)
  }

  /** The inner registration loop of `cells`: `cell` is appended to the list of every
      track it covers on axis `a`, and to no other. */
  method Register(tracks: map<int, seq<Cell>>, ghost cells: seq<Cell>, cell: Cell, a: Axis)
      returns (r: map<int, seq<Cell>>)
    requires Registered(tracks, cells, a)
    ensures Registered(r, cells + [cell], a)
  {
    r := tracks;
    var cc := 0;
    while cc < At(cell.size, a)
      invariant cc <= Max(At(cell.size, a), 0)
      invariant forall t :: Lookup(r, t) == Lookup(tracks, t) + (if At(cell.pos, a) <= t < At(cell.pos, a) + cc then [cell] else [])
    {
      var key := At(cell.pos, a) + cc;
      r := r[key := Lookup(r, key) + [cell]];
      cc := cc + 1;
    }
    RegisteredSnoc(tracks, r, cells, cell, a);
  }

  lemma RegisteredSnoc(tracks: map<int, seq<Cell>>, r: map<int, seq<Cell>>, cells: seq<Cell>, cell: Cell, a: Axis)
    requires Registered(tracks, cells, a)
    requires forall t :: Lookup(r, t) == Lookup(tracks, t) + (if Covers(cell, a, t) then [cell] else [])
    ensures Registered(r, cells + [cell], a)
  {
    assert (cells + [cell])[..|cells|] == cells;
  }

  /** Every cell lies in the range of children and spans at least one track per axis. */
  predicate ValidCells(cells: seq<Cell>, n: nat)
  {
    forall x :: x in cells ==> x.node < n && x.size.0 >= 1 && x.size.1 >= 1
  }

  /** A child's share of one of the tracks its cell spans. */
  function Share(x: Cell, sizes: seq<Pair>, a: Axis): real
    requires x.node < |sizes| && x.size.0 >= 1 && x.size.1 >= 1
  {
    At(sizes[x.node], a) / At(x.size, a) as real
  }

  /** The size of a track: the largest share of the cells registered for it, 0 if none. */
  function TrackSize(cs: seq<Cell>, sizes: seq<Pair>, a: Axis): (r: real)
    requires ValidCells(cs, |sizes|)
    ensures cs == [] ==> r == 0.0
    ensures forall x :: x in cs ==> Share(x, sizes, a) <= r
    ensures cs != [] ==> exists x :: x in cs && Share(x, sizes, a) == r
  {
    if cs == [] then 0.0
    else if |cs| == 1 then Share(cs[0], sizes, a)
    else
      var rest := TrackSize(cs[1..], sizes, a);
      assert forall x :: x in cs ==> x == cs[0] || x in cs[1..];
      MaxReal(Share(cs[0], sizes, a), rest)
  }

  /** The sizes of tracks `0 .. count - 1` along axis `a`. */
  function TrackSizes(cells: seq<Cell>, sizes: seq<Pair>, a: Axis, count: int): (r: seq<real>)
    requires ValidCells(cells, |sizes|)
    ensures |r| == Max(count, 0)
    ensures forall t :: 0 <= t < |r| ==> r[t] == TrackSizeAt(cells, sizes, a, t)
  {
    seq(Max(count, 0), t requires 0 <= t => TrackSizeAt(cells, sizes, a, t))
  }

  /** The size of track `t` along axis `a`. */
  function TrackSizeAt(cells: seq<Cell>, sizes: seq<Pair>, a: Axis, t: int): real
    requires ValidCells(cells, |sizes|)
  {
    TrackCellsMembers(cells, a, t);
    TrackSize(TrackCells(cells, a, t), sizes, a)
  }

  /** The track sizing comprehension of `cells`, over the registered track lists. */
  function ListSizes(tracks: map<int, seq<Cell>>, sizes: seq<Pair>, a: Axis, count: int): seq<real>
    requires forall t :: ValidCells(Lookup(tracks, t), |sizes|)
  {
    seq(Max(count, 0), t requires 0 <= t => TrackSize(Lookup(tracks, t), sizes, a))
  }

  /** Sizing the registered lists is sizing the tracks. */
  lemma ListSizesAreTrackSizes(tracks: map<int, seq<Cell>>, cells: seq<Cell>, sizes: seq<Pair>, a: Axis, count: int)
    requires Registered(tracks, cells, a) && ValidCells(cells, |sizes|)
    ensures forall t :: ValidCells(Lookup(tracks, t), |sizes|)
    ensures ListSizes(tracks, sizes, a, count) == TrackSizes(cells, sizes, a, count)
  {
    forall t
      ensures ValidCells(Lookup(tracks, t), |sizes|)
    {
      TrackCellsMembers(cells, a, t);
    }
  }

  /** The number of tracks along axis `a`: the largest end of any cell. */
  function Count(cells: seq<Cell>, a: Axis): (n: int)
    requires |cells| > 0
    ensures forall k :: 0 <= k < |cells| ==> At(cells[k].pos, a) + At(cells[k].size, a) <= n
    ensures exists k :: 0 <= k < |cells| && At(cells[k].pos, a) + At(cells[k].size, a) == n
  {
    var last := cells[|cells| - 1];
    var e := At(last.pos, a) + At(last.size, a);
    if |cells| == 1 then e
    else
      var m := Count(cells[..|cells| - 1], a);
      assert forall k :: 0 <= k < |cells| - 1 ==> cells[..|cells| - 1][k] == cells[k];
      Max(m, e)
  }

  /** Track offsets: `start`, then each next one a track and a gap further. */
  function Offsets(start: real, tracks: seq<real>, gap: real): (r: seq<real>)
    ensures |r| == |tracks| + 1 && r[0] == start
  {
    if tracks == [] then [start]
    else
      var o := Offsets(start, tracks[..|tracks| - 1], gap);
      o + [o[|o| - 1] + tracks[|tracks| - 1] + gap]
  }

  /** The memoized result of `GridLayout.cells`: the cells, the row offsets and the
      column offsets. */
  datatype GridCells = GridCells(cells: seq<Cell>, crow: seq<real>, ccol: seq<real>)

  /** What `GridLayout.cells(node)` returns, given the spans and the sizes of the node's
      children; a childless grid raises at the `max` that counts the columns. */
  function CellsOf(props: NodeProps, spans: seq<(Span, Span)>, sizes: seq<Pair>): (r: Result<GridCells>)
    requires |sizes| == |spans|
    ensures r.Err? <==> |spans| == 0
    ensures r.Err? ==> r.fault == EmptyMax
    ensures r.Ok? ==> (|r.value.cells| == |spans| && |r.value.crow| >= 1 && |r.value.ccol| >= 1
                       && forall k :: 0 <= k < |spans| ==> r.value.cells[k].node == k)
  {
    var d := props.direction;
    var cells := Placement(d, At(props.gridSize, d), spans).0;
    if cells == [] then Err(EmptyMax)
    else
      var heights := TrackSizes(cells, sizes, 1, Count(cells, 1));
      var widths := TrackSizes(cells, sizes, 0, Count(cells, 0));
      Ok(GridCells(cells, Offsets(props.padding[1], heights, props.gap.1),
                   Offsets(props.padding[0], widths, props.gap.0)))
  }

  /** The offset loop of `cells`. */
  method Accumulate(start: real, tracks: seq<real>, gap: real) returns (r: seq<real>)
    ensures r == Offsets(start, tracks, gap)
  {
    r := [start];
    var i := 0;
    while i < |tracks|
      invariant 0 <= i <= |tracks|
      invariant r == Offsets(start, tracks[..i], gap)
    {
      assert tracks[..i + 1][..i] == tracks[..i];
      r := r + [r[|r| - 1] + tracks[i] + gap];
      i := i + 1;
    }
    assert tracks[..i] == tracks;
  }

  /** The placement loop of `GridLayout.cells`: each child in turn gets a cell from the
      cursor, and the cell is appended to the list of every column and row it covers. */
  method PlaceAll(d: Axis, maxSize: Option<int>, spans: seq<(Span, Span)>)
      returns (cells: seq<Cell>, cols: map<int, seq<Cell>>, rows: map<int, seq<Cell>>)
    ensures cells == Placement(d, maxSize, spans).0
    ensures Registered(cols, cells, 0) && Registered(rows, cells, 1)
  {
    var imaxSize := 0;
    cells := [];
    rows, cols := map[], map[];
    var r, c := 1, 1;
    var i := 0;
    while i < |spans|
      invariant 0 <= i <= |spans|
      invariant (cells, Cursor(r, c, imaxSize)) == Placement(d, maxSize, spans[..i])
      invariant Registered(cols, cells, 0) && Registered(rows, cells, 1)
    {
      PlacementStep(d, maxSize, spans, i);
      var cell;
      cell, r, c, imaxSize := PlaceNext(d, maxSize, r, c, imaxSize, spans[i], i);
      cols := Register(cols, cells, cell, 0);
      rows := Register(rows, cells, cell, 1);
      cells := cells + [cell];
      i := i + 1;
    }
    assert spans[..i] == spans;
  }

  /** The body of the placement loop: child `k`'s cell from the cursor `(r, c, imaxSize)`,
      and the cursor after it. */
  method PlaceNext(d: Axis, maxSize: Option<int>, r0: int, c0: int, imax0: int, it: (Span, Span), k: nat)
      returns (cell: Cell, r: int, c: int, imaxSize: int)
    ensures (cell, Cursor(r, c, imaxSize)) == Place(d, maxSize, Cursor(r0, c0, imax0), it, k)
  {
    r, c, imaxSize := r0, c0, imax0;
    var main := NextSpan(c, At(it, d), Some(if Truthy(maxSize) then maxSize.value else imaxSize));
    var cs, ce := main.0, main.1;
    imaxSize := Max(imaxSize, ce - 1);
    if cs < c {
      r := r + 1;
    }
    c := ce;
    var cross := NextSpan(r, At(it, Other(d)), None);
    var rs, re := cross.0, cross.1;
    r := rs;
    cell := MakeCell(d, cs, ce, rs, re, k);
    PlaceIs(d, maxSize, Cursor(r0, c0, imax0), it, k, cs, ce, rs, re);
    if maxSize.Some? && c > maxSize.value {
      c := 1;
      r := r + 1;
    }
  }

  /** `GridLayout.cells(node)` without the memo (the layout tree keeps it): placement and
      registration, track sizing from the registered lists, and the offset loops. `cols`
      and `rows` are the track lists the placement loop built. */
  method ComputeCells(props: NodeProps, spans: seq<(Span, Span)>, sizes: seq<Pair>)
      returns (res: Result<GridCells>, ghost cols: map<int, seq<Cell>>, ghost rows: map<int, seq<Cell>>)
    requires |sizes| == |spans|
    ensures res == CellsOf(props, spans, sizes)
    ensures var cells := Placement(props.direction, At(props.gridSize, props.direction), spans).0;
      Registered(cols, cells, 0) && Registered(rows, cells, 1)
  {
    var d := props.direction;
    var cells, colLists, rowLists := PlaceAll(d, At(props.gridSize, d), spans);
    cols, rows := colLists, rowLists;
    if cells == [] {
      return Err(EmptyMax), cols, rows;
    }
    var colCount := Count(cells, 0);
    var rowCount := Count(cells, 1);
    assert ValidCells(cells, |sizes|);
    ListSizesAreTrackSizes(rowLists, cells, sizes, 1, rowCount);
    ListSizesAreTrackSizes(colLists, cells, sizes, 0, colCount);
    var rowHeights := ListSizes(rowLists, sizes, 1, rowCount);
    var colWidths := ListSizes(colLists, sizes, 0, colCount);
    var crow := Accumulate(props.padding[1], rowHeights, props.gap.1);
    var ccol := Accumulate(props.padding[0], colWidths, props.gap.0);
    res := Ok(GridCells(cells, crow, ccol));
  }

  /** The offsets along axis `a`: the column offsets for 0, the row offsets for 1. */
  function OffsetsAlong(gc: GridCells, a: Axis): seq<real>
  {
    if a == 0 then gc.ccol else gc.crow
  }

  /** `GridLayout.size(node, axis)`: the last offset, plus the trailing padding, less the
      gap the offset loop added after the last track. */
  function GridSize(gc: GridCells, props: NodeProps, axis: Axis): real
    requires |gc.crow| > 0 && |gc.ccol| > 0
  {
    var offs := OffsetsAlong(gc, axis);
    offs[|offs| - 1] + props.padding[axis + 2] - At(props.gap, axis)
  }

  /** Python's `xs[i]`, where a negative index counts from the end; None is IndexError. */
  function PyIndex(xs: seq<real>, i: int): (r: Option<real>)
    ensures r.Some? <==> -|xs| <= i < |xs|
  {
    if 0 <= i < |xs| then Some(xs[i]) else if -|xs| <= i < 0 then Some(xs[|xs| + i]) else None
  }

  /** Where a child of extent `size` goes between offsets `start` and `end` (less the gap
      after the last track), moved by the alignment's share of the room it leaves. */
  function AlignIn(start: real, end: real, gap: real, size: real, align: real): real
  {
    start + (end - start - gap - size) / 2.0 * (align + 1.0)
  }

  /** Where `arrange` puts the child of cell `x`: the origin, plus the start of its first
      track, plus the alignment's share of the room its tracks leave around it. */
  function CellPosition(gc: GridCells, x: Cell, origin: Pair, gap: Pair, size: Pair, align: Pair): Option<Pair>
  {
    match (PyIndex(gc.ccol, x.pos.0), PyIndex(gc.crow, x.pos.1),
           PyIndex(gc.ccol, x.pos.0 + x.size.0), PyIndex(gc.crow, x.pos.1 + x.size.1))
    case (Some(s0), Some(s1), Some(e0), Some(e1)) =>
      Some((origin.0 + AlignIn(s0, e0, gap.0, size.0, align.0),
            origin.1 + AlignIn(s1, e1, gap.1, size.1, align.1)))
    case _ => None
  }

  /** `GridLayout.arrange(node)`: `positions` holds every node's position, `children` the
      ids of this node's children, `aligns[k]` child `k`'s resolved alignment. The cells
      are visited in order; `placed` is how many were placed before an index fell outside
      the offsets (Python's IndexError), all of them when none did. */
  method Arrange(positions: array<Pair>, children: seq<nat>, gc: GridCells, origin: Pair, gap: Pair,
                 sizes: seq<Pair>, aligns: seq<Pair>) returns (placed: nat)
    requires |children| == |sizes| == |aligns| == |gc.cells| && DistinctIds(children)
    requires forall k :: 0 <= k < |gc.cells| ==> gc.cells[k].node == k
    requires forall k :: 0 <= k < |children| ==> children[k] < positions.Length
    modifies positions
    ensures placed <= |gc.cells|
    ensures forall k :: 0 <= k < placed ==>
      var x := gc.cells[k];
      CellPosition(gc, x, origin, gap, sizes[k], aligns[k]).Some?
      && positions[children[k]] == CellPosition(gc, x, origin, gap, sizes[k], aligns[k]).value
    ensures placed < |gc.cells| ==>
      CellPosition(gc, gc.cells[placed], origin, gap, sizes[placed], aligns[placed]).None?
    ensures forall i :: 0 <= i < positions.Length && i !in children[..placed] ==> positions[i] == old(positions[i])
  {
    placed := 0;
    while placed < |gc.cells|
      invariant placed <= |gc.cells|
      invariant forall k :: 0 <= k < placed ==>
        CellPosition(gc, gc.cells[k], origin, gap, sizes[k], aligns[k]).Some?
        && positions[children[k]] == CellPosition(gc, gc.cells[k], origin, gap, sizes[k], aligns[k]).value
      invariant forall i :: 0 <= i < positions.Length && i !in children[..placed] ==> positions[i] == old(positions[i])
    {
      var it := gc.cells[placed];
      var align := aligns[it.node];
      var size := sizes[it.node];
      var p := CellPosition(gc, it, origin, gap, size, align);
      if p.None? {
        return;
      }
      assert forall j :: 0 <= j < placed ==> children[j] != children[placed];
      positions[children[it.node]] := p.value;
      assert children[..placed + 1] == children[..placed] + [children[placed]];
      placed := placed + 1;
    }
  }

  /** The cursor moves on to just after the cell in the same row or, past a declared
      track count, to the first track of the next row; a start behind the cursor moves the
      cell to the next row. */
  lemma PlaceWraps(d: Axis, maxSize: Option<int>, cur: Cursor, spans: (Span, Span), k: nat)
    ensures var (cell, next) := Place(d, maxSize, cur, spans, k);
      var o := Other(d);
      var main := NextSpan(cur.c, At(spans, d), Some(Ceiling(maxSize, cur)));
      && At(cell.pos, d) == main.0 - 1
      && At(cell.pos, d) + At(cell.size, d) == main.1 - 1
      && At(cell.pos, o) == NextSpan(if main.0 < cur.c then cur.r + 1 else cur.r, At(spans, o), None).0 - 1
      && next.imax == Max(cur.imax, main.1 - 1)
      && (maxSize.Some? && main.1 > maxSize.value ==> next.c == 1 && next.r == At(cell.pos, o) + 2)
      && (!(maxSize.Some? && main.1 > maxSize.value) ==>
            next.c == At(cell.pos, d) + At(cell.size, d) + 1 && next.r == At(cell.pos, o) + 1)
  {
  }

  /** `xs[..e]` sums to `xs[..s]` plus the slice between. */
  lemma {:induction false} SumSplit(xs: seq<real>, s: nat, e: nat)
    requires s <= e <= |xs|
    ensures Sum(xs[..e]) == Sum(xs[..s]) + Sum(xs[s..e])
    decreases e - s
  {
    if s < e {
      SumSplit(xs, s, e - 1);
      assert xs[..e][..e - 1] == xs[..e - 1];
      assert xs[s..e][..e - 1 - s] == xs[s..e - 1];
    } else {
      assert xs[s..e] == [];
    }
  }

  /** A sum of terms that are each at least `m`. */
  lemma {:induction false} SumAtLeast(xs: seq<real>, m: real)
    requires forall i :: 0 <= i < |xs| ==> xs[i] >= m
    ensures Sum(xs) >= |xs| as real * m
  {
    if xs != [] {
      SumAtLeast(xs[..|xs| - 1], m);
    }
  }

  /** Offset `k` is the start plus the first `k` tracks and `k` gaps. */
  lemma {:induction false} OffsetsClosedForm(start: real, tracks: seq<real>, gap: real, k: nat)
    requires k <= |tracks|
    ensures Offsets(start, tracks, gap)[k] == start + Sum(tracks[..k]) + k as real * gap
    decreases |tracks|
  {
    if k < |tracks| {
      var init := tracks[..|tracks| - 1];
      OffsetsClosedForm(start, init, gap, k);
      assert init[..k] == tracks[..k];
    } else if tracks != [] {
      var init := tracks[..|tracks| - 1];
      OffsetsClosedForm(start, init, gap, k - 1);
      assert init[..k - 1] == init;
      assert tracks[..k] == tracks;
    }
  }

  /** With non-negative tracks and gap the offsets never decrease. */
  lemma OffsetsNondecreasing(start: real, tracks: seq<real>, gap: real, j: nat, k: nat)
    requires j <= k <= |tracks|
    requires gap >= 0.0 && forall i :: 0 <= i < |tracks| ==> tracks[i] >= 0.0
    ensures Offsets(start, tracks, gap)[j] <= Offsets(start, tracks, gap)[k]
  {
    OffsetsClosedForm(start, tracks, gap, j);
    OffsetsClosedForm(start, tracks, gap, k);
    SumSplit(tracks, j, k);
    assert forall i :: 0 <= i < k - j ==> tracks[j..k][i] == tracks[j + i];
    SumNonNegative(tracks[j..k]);
    GapsBetween(j, k + 1, gap);
    assert (k - j) as real * gap >= 0.0;
  }

  /** `gc` holds valid cells and offsets computed from the track sizes they imply. */
  ghost predicate SizedBy(gc: GridCells, props: NodeProps, sizes: seq<Pair>)
  {
    && |gc.cells| > 0 && ValidCells(gc.cells, |sizes|)
    && gc.ccol == Offsets(props.padding[0], TrackSizes(gc.cells, sizes, 0, Count(gc.cells, 0)), props.gap.0)
    && gc.crow == Offsets(props.padding[1], TrackSizes(gc.cells, sizes, 1, Count(gc.cells, 1)), props.gap.1)
  }

  /** What `cells` returns is sized by its own cells. */
  lemma CellsOfSized(props: NodeProps, spans: seq<(Span, Span)>, sizes: seq<Pair>)
    requires |sizes| == |spans| && CellsOf(props, spans, sizes).Ok?
    ensures SizedBy(CellsOf(props, spans, sizes).value, props, sizes)
  {
    var cells := Placement(props.direction, At(props.gridSize, props.direction), spans).0;
    assert forall x :: x in cells ==> exists k :: 0 <= k < |cells| && cells[k] == x;
  }

  lemma AlongAxis(gc: GridCells, props: NodeProps, sizes: seq<Pair>, a: Axis)
    requires SizedBy(gc, props, sizes)
    ensures OffsetsAlong(gc, a)
      == Offsets(props.padding[a], TrackSizes(gc.cells, sizes, a, Count(gc.cells, a)), At(props.gap, a))
  {
    if a == 1 {
    } else {
      assert a == 0;
    }
  }

  /** The last offset, less the gap added after the last track: the start, the tracks,
      and one gap fewer than there are tracks. */
  lemma LastOffset(start: real, tracks: seq<real>, gap: real)
    ensures Offsets(start, tracks, gap)[|tracks|] - gap == start + Sum(tracks) + (|tracks| - 1) as real * gap
  {
    OffsetsClosedForm(start, tracks, gap, |tracks|);
    assert tracks[..|tracks|] == tracks;
    GapsBetween(0, |tracks|, gap);
  }

  /** A grid's extent is both paddings (`start`, `end`) plus its tracks plus a gap between
      each two, when its last offset along `axis` is the one `tracks` give. */
  lemma GridSizeClosedForm(gc: GridCells, props: NodeProps, tracks: seq<real>, axis: Axis,
                           start: real, gap: real, end: real)
    requires start == props.padding[axis] && gap == At(props.gap, axis) && end == props.padding[axis + 2]
    requires |gc.crow| > 0 && |gc.ccol| > 0
    requires |OffsetsAlong(gc, axis)| == |tracks| + 1
    requires OffsetsAlong(gc, axis)[|tracks|] == Offsets(start, tracks, gap)[|tracks|]
    ensures GridSize(gc, props, axis) == start + Sum(tracks) + (|tracks| - 1) as real * gap + end
  {
    SizeFromOffsets(start, gap, tracks, OffsetsAlong(gc, axis)[|tracks|], end, GridSize(gc, props, axis));
  }

  lemma SizeFromOffsets(start: real, gap: real, tracks: seq<real>, last: real, end: real, size: real)
    requires last == Offsets(start, tracks, gap)[|tracks|]
    requires size == last + end - gap
    ensures size == start + Sum(tracks) + (|tracks| - 1) as real * gap + end
  {
    LastOffset(start, tracks, gap);
  }

  /** A track is at least as large as the share of every cell covering it. */
  lemma TrackAtLeastShare(cells: seq<Cell>, sizes: seq<Pair>, a: Axis, k: nat, t: int)
    requires ValidCells(cells, |sizes|) && k < |cells| && Covers(cells[k], a, t)
    ensures TrackSizeAt(cells, sizes, a, t) >= Share(cells[k], sizes, a)
  {
    TrackCellsMembers(cells, a, t);
    assert cells[k] in cells;
  }

  /** The room between offsets `s` and `e`: the tracks between them and one gap fewer
      than there are tracks. */
  lemma OffsetWindow(start: real, tracks: seq<real>, gap: real, s: nat, e: nat)
    requires s < e <= |tracks|
    ensures Offsets(start, tracks, gap)[e] - Offsets(start, tracks, gap)[s] - gap
      == Sum(tracks[s..e]) + (e - s - 1) as real * gap
  {
    var o := Offsets(start, tracks, gap);
    OffsetsClosedForm(start, tracks, gap, s);
    OffsetsClosedForm(start, tracks, gap, e);
    SumSplit(tracks, s, e);
    WindowArith(o[e], o[s], Sum(tracks[..e]), Sum(tracks[..s]), Sum(tracks[s..e]), start, gap, s, e);
  }

  lemma WindowArith(oe: real, os: real, se: real, ss: real, sw: real, start: real, gap: real, s: nat, e: nat)
    requires oe == start + se + e as real * gap && os == start + ss + s as real * gap && se == ss + sw
    ensures oe - os - gap == sw + (e - s - 1) as real * gap
  {
    GapsBetween(s, e, gap);
  }

  lemma GapsBetween(s: nat, e: nat, gap: real)
    ensures e as real * gap - s as real * gap - gap == (e - s - 1) as real * gap
  {
  }

  /** `tracks` gives every cell at least its share of each track it spans (cells that
      start before track 0 aside). */
  ghost predicate HoldsShares(cells: seq<Cell>, sizes: seq<Pair>, a: Axis, tracks: seq<real>)
    requires ValidCells(cells, |sizes|)
  {
    forall k, t {:trigger Covers(cells[k], a, t)} ::
      0 <= k < |cells| && 0 <= At(cells[k].pos, a) && Covers(cells[k], a, t) ==>
        t < |tracks| && tracks[t] >= Share(cells[k], sizes, a)
  }

  /** The track sizes `cells` computes give every cell its share. */
  lemma TrackSizesHoldShares(cells: seq<Cell>, sizes: seq<Pair>, a: Axis)
    requires ValidCells(cells, |sizes|) && |cells| > 0
    ensures HoldsShares(cells, sizes, a, TrackSizes(cells, sizes, a, Count(cells, a)))
  {
    forall k, t | 0 <= k < |cells| && 0 <= At(cells[k].pos, a) && Covers(cells[k], a, t)
      ensures t < |TrackSizes(cells, sizes, a, Count(cells, a))|
      ensures TrackSizes(cells, sizes, a, Count(cells, a))[t] >= Share(cells[k], sizes, a)
    {
      assert cells[k] in cells;
      TrackAtLeastShare(cells, sizes, a, k, t);
    }
  }

  /** Tracks that give every cell its share add up, over the tracks the cell of child `k`
      spans, to at least the child's extent. */
  lemma SpanHoldsChild(cells: seq<Cell>, sizes: seq<Pair>, a: Axis, tracks: seq<real>, k: nat)
    requires ValidCells(cells, |sizes|) && HoldsShares(cells, sizes, a, tracks)
    requires k < |cells| && cells[k].node == k && 0 <= At(cells[k].pos, a)
    ensures At(cells[k].pos, a) + At(cells[k].size, a) <= |tracks|
    ensures Sum(tracks[At(cells[k].pos, a)..At(cells[k].pos, a) + At(cells[k].size, a)]) >= At(sizes[k], a)
  {
    var x := cells[k];
    assert x in cells;
    var s, n := At(x.pos, a), At(x.size, a);
    forall t | s <= t < s + n
      ensures t < |tracks| && tracks[t] >= At(sizes[k], a) / n as real
    {
      assert Covers(cells[k], a, t);
    }
    assert Covers(cells[k], a, s + n - 1);
    SliceHolds(tracks, s, s + n, n, At(sizes[k], a));
  }

  /** A slice of terms that are each at least `m`. */
  lemma SliceAtLeast(xs: seq<real>, s: nat, e: nat, n: nat, m: real)
    requires s <= e <= |xs| && n == e - s
    requires forall t :: s <= t < e ==> xs[t] >= m
    ensures Sum(xs[s..e]) >= n as real * m
  {
    var slice := xs[s..e];
    assert forall i :: 0 <= i < |slice| ==> slice[i] == xs[s + i];
    assert |slice| == n;
    SumAtLeast(slice, m);
  }

  /** Terms that each hold an `n`-th of `w` add up to at least `w`. */
  lemma SliceHolds(xs: seq<real>, s: nat, e: nat, n: nat, w: real)
    requires s < e <= |xs| && n == e - s
    requires forall t :: s <= t < e ==> xs[t] >= w / n as real
    ensures Sum(xs[s..e]) >= w
  {
    SliceAtLeast(xs, s, e, n, w / n as real);
    SpanTimesShare(w, n, w / n as real);
  }

  lemma SpanTimesShare(w: real, m: nat, share: real)
    requires m >= 1 && share == w / m as real
    ensures m as real * share == w
  {
  }

  /** Tracks that hold a child between offsets `s` and `e` leave it room there. */
  lemma RoomHoldsChild(offs: seq<real>, start: real, tracks: seq<real>, gap: real, s: nat, e: nat, w: real)
    requires offs == Offsets(start, tracks, gap) && gap >= 0.0
    requires s < e <= |tracks| && Sum(tracks[s..e]) >= w
    ensures e < |offs| && offs[e] - offs[s] - gap >= w
  {
    OffsetWindow(start, tracks, gap, s, e);
    GapsNonNegative(e - s - 1, gap);
  }

  lemma GapsNonNegative(n: nat, gap: real)
    requires gap >= 0.0
    ensures n as real * gap >= 0.0
  {
  }

  /** A child whose cell starts at a track >= 0 is placed, and with an alignment between -1
      and 1 it lies inside the room of the tracks it spans, given offsets laid over tracks
      that give every cell its share. */
  lemma CellFitsItsTracks(gc: GridCells, props: NodeProps, sizes: seq<Pair>, widths: seq<real>, heights: seq<real>,
                          origin: Pair, align: Pair, k: nat)
    requires LaidOver(gc, props, sizes, widths, heights) && k < |gc.cells| && gc.cells[k].node == k
    requires gc.cells[k].pos.0 >= 0 && gc.cells[k].pos.1 >= 0
    requires props.gap.0 >= 0.0 && props.gap.1 >= 0.0
    requires -1.0 <= align.0 <= 1.0 && -1.0 <= align.1 <= 1.0
    ensures var x := gc.cells[k];
      var p := CellPosition(gc, x, origin, props.gap, sizes[k], align);
      p.Some?
      && origin.0 + gc.ccol[x.pos.0] <= p.value.0
      && p.value.0 + sizes[k].0 <= origin.0 + gc.ccol[x.pos.0 + x.size.0] - props.gap.0
      && origin.1 + gc.crow[x.pos.1] <= p.value.1
      && p.value.1 + sizes[k].1 <= origin.1 + gc.crow[x.pos.1 + x.size.1] - props.gap.1
  {
    var x := gc.cells[k];
    SpanHoldsChild(gc.cells, sizes, 0, widths, k);
    SpanHoldsChild(gc.cells, sizes, 1, heights, k);
    RoomHoldsChild(gc.ccol, props.padding[0], widths, props.gap.0, x.pos.0, x.pos.0 + x.size.0, sizes[k].0);
    RoomHoldsChild(gc.crow, props.padding[1], heights, props.gap.1, x.pos.1, x.pos.1 + x.size.1, sizes[k].1);
    AlignInFits(gc.ccol[x.pos.0], gc.ccol[x.pos.0 + x.size.0], props.gap.0, sizes[k].0, align.0);
    AlignInFits(gc.crow[x.pos.1], gc.crow[x.pos.1 + x.size.1], props.gap.1, sizes[k].1, align.1);
  }

  /** `gc` holds valid cells, and its offsets are laid over tracks that give every cell
      its share. */
  ghost predicate LaidOver(gc: GridCells, props: NodeProps, sizes: seq<Pair>, widths: seq<real>, heights: seq<real>)
  {
    && ValidCells(gc.cells, |sizes|)
    && gc.ccol == Offsets(props.padding[0], widths, props.gap.0) && HoldsShares(gc.cells, sizes, 0, widths)
    && gc.crow == Offsets(props.padding[1], heights, props.gap.1) && HoldsShares(gc.cells, sizes, 1, heights)
  }

  /** What `cells` returns is laid over the track sizes of its own cells. */
  lemma CellsOfLaidOver(props: NodeProps, spans: seq<(Span, Span)>, sizes: seq<Pair>)
    requires |sizes| == |spans| && CellsOf(props, spans, sizes).Ok?
    ensures var gc := CellsOf(props, spans, sizes).value;
      LaidOver(gc, props, sizes, TrackSizes(gc.cells, sizes, 0, Count(gc.cells, 0)),
               TrackSizes(gc.cells, sizes, 1, Count(gc.cells, 1)))
  {
    var gc := CellsOf(props, spans, sizes).value;
    CellsOfSized(props, spans, sizes);
    TrackSizesHoldShares(gc.cells, sizes, 0);
    TrackSizesHoldShares(gc.cells, sizes, 1);
  }

  /** With room for the child and an alignment between -1 and 1, the child lies between
      the offsets. */
  lemma AlignInFits(start: real, end: real, gap: real, size: real, align: real)
    requires end - start - gap >= size && -1.0 <= align <= 1.0
    ensures start <= AlignIn(start, end, gap, size, align)
    ensures AlignIn(start, end, gap, size, align) + size <= end - gap
  {
    var room := end - start - gap - size;
    Between(room, align);
    assert AlignIn(start, end, gap, size, align) == start + room / 2.0 * (align + 1.0);
  }

  /** Alignment -1 puts the child at the start, 1 flush with the end, 0 in the middle. */
  lemma AlignInEnds(start: real, end: real, gap: real, size: real)
    ensures AlignIn(start, end, gap, size, -1.0) == start
    ensures AlignIn(start, end, gap, size, 1.0) + size == end - gap
    ensures AlignIn(start, end, gap, size, 0.0) - start == end - gap - (AlignIn(start, end, gap, size, 0.0) + size)
  {
  }

  /** A non-negative room, shared by an alignment between -1 and 1. */
  lemma Between(room: real, align: real)
    requires room >= 0.0 && -1.0 <= align <= 1.0
    ensures 0.0 <= room / 2.0 * (align + 1.0) <= room
  {
    var h := room / 2.0;
    assert h * (align + 1.0) >= 0.0 && h * (1.0 - align) >= 0.0;
  }
}
