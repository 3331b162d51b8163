/** The layout driver (diagen/layouts/__init__.py): the LayoutNode tree with its cached
    sizes, grid cells and real parents, the arrange pass, and the sizes both layouts
    compute from the children's sizes. */
module LayoutTree {
  import opened Utils
  import opened Props
  import opened Arena
  import Box
  import Grid
  import Nodes

  /** The grid placement requests of node `i`'s children, in order. */
  function Spans(A: seq<LNode>, i: nat): (r: seq<(Span, Span)>)
    requires ChildrenAfter(A) && i < |A|
    ensures |r| == |A[i].children|
  {
    var ch := A[i].children;
    seq(|ch|, k requires 0 <= k < |ch| => A[ch[k]].props.gridCell)
  }

  /** `it.align(node)` for each child of node `i`: the child's own alignment, falling back
      to node `i`'s items alignment. */
  function Aligns(A: seq<LNode>, i: nat): (r: seq<Pair>)
    requires ChildrenAfter(A) && i < |A|
    ensures |r| == |A[i].children|
  {
    var ch := A[i].children;
    seq(|ch|, k requires 0 <= k < |ch| => Nodes.Align(A[ch[k]].props.align, A[i].props.itemsAlign))
  }

  /** The sizes of node `i`'s first `k` children, in order, or the first fault among them;
      `explicit` says whether a node's own non-negative `size` component wins over its
      layout (see `SizeOf`). */
  function ChildSizes(A: seq<LNode>, i: nat, k: nat, explicit: bool): (r: Result<seq<Pair>>)
    requires ChildrenAfter(A) && i < |A| && k <= |A[i].children|
    ensures r.Ok? ==> |r.value| == k
    decreases |A| - i, 0, k
  {
    if k == 0 then Ok([])
    else
      match ChildSizes(A, i, k - 1, explicit)
      case Err(f) => Err(f)
      case Ok(prefix) =>
        match SizeBy(A, A[i].children[k - 1], explicit)
        case Err(f) => Err(f)
        case Ok(s) => Ok(prefix + [s])
  }

  /** `GridLayout.cells(node)` of node `i`, from its children's spans and sizes. */
  function GridCellsOf(A: seq<LNode>, i: nat, explicit: bool): Result<Grid.GridCells>
    requires ChildrenAfter(A) && i < |A|
    decreases |A| - i, 1, 0
  {
    match ChildSizes(A, i, |A[i].children|, explicit)
    case Err(f) => Err(f)
    case Ok(cs) => Grid.CellsOf(A[i].props, Spans(A, i), cs)
  }

  /** `layout.size(node, axis)`: the box or grid extent of node `i` along `axis`. */
  function LayoutSize(A: seq<LNode>, i: nat, axis: Axis, explicit: bool): Result<real>
    requires ChildrenAfter(A) && i < |A|
    decreases |A| - i, 2, 0
  {
    match A[i].props.layout
    case BoxLayout =>
      (match ChildSizes(A, i, |A[i].children|, explicit)
       case Err(f) => Err(f)
       case Ok(cs) => Box.BoxSize(A[i].props, cs, axis))
    case GridLayout =>
      (match GridCellsOf(A, i, explicit)
       case Err(f) => Err(f)
       case Ok(gc) => Ok(Grid.GridSize(gc, A[i].props, axis)))
  }

  /** The size of node `i`, width first. With `explicit`, a component of the node's own
      `size` that is not negative is taken as it is and the layout computes only the
      others; without it, both components come from the layout. */
  function SizeBy(A: seq<LNode>, i: nat, explicit: bool): Result<Pair>
    requires ChildrenAfter(A) && i < |A|
    decreases |A| - i, 3, 0
  {
    var own := A[i].props.size;
    var w := if explicit && own.0 >= 0.0 then Ok(own.0) else LayoutSize(A, i, 0, explicit);
    var h := if explicit && own.1 >= 0.0 then Ok(own.1) else LayoutSize(A, i, 1, explicit);
    match w
    case Err(f) => Err(f)
    case Ok(x) =>
      match h
      case Err(f) => Err(f)
      case Ok(y) => Ok((x, y))
  }

  /** `LayoutNode.size` as the diagram needs it: the node's explicit size per axis, the
      layout's extent where the size component is negative. */
  function SizeOf(A: seq<LNode>, i: nat): Result<Pair>
    requires ChildrenAfter(A) && i < |A|
  {
    SizeBy(A, i, true)
  }

  /** `LayoutNode.size` as written: both components from the layout, whatever `size` says. */
  function SizeAsWritten(A: seq<LNode>, i: nat): Result<Pair>
    requires ChildrenAfter(A) && i < |A|
  {
    SizeBy(A, i, false)
  }

  /** As written, no LayoutNode has a size: a leaf's box cross extent, or its grid cells,
      take the `max` of no children, and every other node needs its first child's size. */
  lemma {:induction false} SizeAsWrittenFails(A: seq<LNode>, i: nat)
    requires ChildrenAfter(A) && i < |A|
    ensures SizeAsWritten(A, i) == Err(EmptyMax)
    decreases |A| - i
  {
    var ch := A[i].children;
    if ch == [] {
      var d := A[i].props.direction;
      assert ChildSizes(A, i, 0, false) == Ok([]);
      assert Spans(A, i) == [];
      assert LayoutSize(A, i, Other(d), false) == Err(EmptyMax);
      if A[i].props.layout == GridLayout {
        assert LayoutSize(A, i, 0, false) == Err(EmptyMax);
      } else if d == 1 {
        assert LayoutSize(A, i, 0, false) == Err(EmptyMax);
      } else {
        assert LayoutSize(A, i, 0, false).Ok?;
      }
    } else {
      SizeAsWrittenFails(A, ch[0]);
      ChildSizesFirstFault(A, i, |ch|, false, 0);
      LayoutSizeFails(A, i, 0, false);
    }
  }

  /** A node whose children's sizes fail has no layout extent, with the same fault. */
  lemma LayoutSizeFails(A: seq<LNode>, i: nat, axis: Axis, explicit: bool)
    requires ChildrenAfter(A) && i < |A| && ChildSizes(A, i, |A[i].children|, explicit).Err?
    ensures LayoutSize(A, i, axis, explicit) == Err(ChildSizes(A, i, |A[i].children|, explicit).fault)
  {
    if A[i].props.layout == GridLayout {
      assert GridCellsOf(A, i, explicit).Err?;
    }
  }

  /** A node with children whose sizes are all known has a layout extent on both axes. */
  lemma LayoutSizeOk(A: seq<LNode>, i: nat, axis: Axis, explicit: bool)
    requires ChildrenAfter(A) && i < |A| && A[i].children != []
    requires ChildSizes(A, i, |A[i].children|, explicit).Ok?
    ensures LayoutSize(A, i, axis, explicit).Ok?
  {
    if A[i].props.layout == GridLayout {
      assert GridCellsOf(A, i, explicit).Ok?;
    }
  }

  /** A layout extent fails only with the fault of a child's size or with an empty `max`. */
  lemma LayoutSizeFault(A: seq<LNode>, i: nat, axis: Axis, explicit: bool)
    requires ChildrenAfter(A) && i < |A|
    requires ChildSizes(A, i, |A[i].children|, explicit).Err? ==>
      ChildSizes(A, i, |A[i].children|, explicit).fault == EmptyMax
    ensures LayoutSize(A, i, axis, explicit).Err? ==> LayoutSize(A, i, axis, explicit).fault == EmptyMax
  {
    if A[i].props.layout == GridLayout {
      assert GridCellsOf(A, i, explicit).Err? ==> GridCellsOf(A, i, explicit).fault == EmptyMax;
    }
  }

  /** When child `j` is the first of the first `k` children whose size fails, the children's
      sizes fail with its fault. */
  lemma {:induction false} ChildSizesFirstFault(A: seq<LNode>, i: nat, k: nat, explicit: bool, j: nat)
    requires ChildrenAfter(A) && i < |A| && j < k <= |A[i].children|
    requires SizeBy(A, A[i].children[j], explicit).Err?
    requires forall t :: 0 <= t < j ==> SizeBy(A, A[i].children[t], explicit).Ok?
    ensures ChildSizes(A, i, k, explicit) == Err(SizeBy(A, A[i].children[j], explicit).fault)
    decreases k
  {
    if k - 1 > j {
      ChildSizesFirstFault(A, i, k - 1, explicit, j);
    } else {
      ChildSizesOk(A, i, j, explicit);
    }
  }

  /** The first `k` children's sizes are known exactly when each of them is. */
  lemma {:induction false} ChildSizesOk(A: seq<LNode>, i: nat, k: nat, explicit: bool)
    requires ChildrenAfter(A) && i < |A| && k <= |A[i].children|
    ensures ChildSizes(A, i, k, explicit).Ok? <==> forall t :: 0 <= t < k ==> SizeBy(A, A[i].children[t], explicit).Ok?
    decreases k
  {
    if k > 0 {
      ChildSizesOk(A, i, k - 1, explicit);
    }
  }

  /** The known sizes of the first `k` children are those children's sizes, in order. */
  lemma {:induction false} ChildSizesValues(A: seq<LNode>, i: nat, k: nat, explicit: bool)
    requires ChildrenAfter(A) && i < |A| && k <= |A[i].children|
    ensures ChildSizes(A, i, k, explicit).Ok? ==>
      forall t :: 0 <= t < k ==> SizeBy(A, A[i].children[t], explicit) == Ok(ChildSizes(A, i, k, explicit).value[t])
    decreases k
  {
    if k > 0 {
      ChildSizesValues(A, i, k - 1, explicit);
    }
  }

  /** Every size fault is an empty `max`: the sizes raise nothing else. */
  lemma {:induction false} SizeFaultIsEmptyMax(A: seq<LNode>, i: nat, explicit: bool)
    requires ChildrenAfter(A) && i < |A|
    ensures SizeBy(A, i, explicit).Err? ==> SizeBy(A, i, explicit).fault == EmptyMax
    decreases |A| - i
  {
    var ch := A[i].children;
    forall t | 0 <= t < |ch|
      ensures SizeBy(A, ch[t], explicit).Err? ==> SizeBy(A, ch[t], explicit).fault == EmptyMax
    {
      SizeFaultIsEmptyMax(A, ch[t], explicit);
    }
    ChildSizesFault(A, i, |ch|, explicit);
    LayoutSizeFault(A, i, 0, explicit);
    LayoutSizeFault(A, i, 1, explicit);
  }

  lemma {:induction false} ChildSizesFault(A: seq<LNode>, i: nat, k: nat, explicit: bool)
    requires ChildrenAfter(A) && i < |A| && k <= |A[i].children|
    requires forall t :: 0 <= t < |A[i].children| ==>
      SizeBy(A, A[i].children[t], explicit).Err? ==> SizeBy(A, A[i].children[t], explicit).fault == EmptyMax
    ensures ChildSizes(A, i, k, explicit).Err? ==> ChildSizes(A, i, k, explicit).fault == EmptyMax
    decreases k
  {
    if k > 0 {
      ChildSizesFault(A, i, k - 1, explicit);
    }
  }

  /** An explicit, non-negative size component is the node's size on that axis. */
  lemma ExplicitSizeWins(A: seq<LNode>, i: nat)
    requires ChildrenAfter(A) && i < |A|
    ensures var own, r := A[i].props.size, SizeOf(A, i);
      && (r.Ok? && own.0 >= 0.0 ==> r.value.0 == own.0)
      && (r.Ok? && own.1 >= 0.0 ==> r.value.1 == own.1)
      && (own.0 >= 0.0 && own.1 >= 0.0 ==> r == Ok(own))
  {
  }

  /** Every leaf sets both size components. */
  ghost predicate LeavesSized(A: seq<LNode>)
  {
    forall i :: 0 <= i < |A| && A[i].children == [] ==> A[i].props.size.0 >= 0.0 && A[i].props.size.1 >= 0.0
  }

  /** When every leaf sets its size, every node has one. */
  lemma {:induction false} SizedLeavesSizeAll(A: seq<LNode>, i: nat)
    requires ChildrenAfter(A) && i < |A| && LeavesSized(A)
    ensures SizeOf(A, i).Ok?
    decreases |A| - i
  {
    var ch := A[i].children;
    if ch != [] {
      forall t | 0 <= t < |ch|
        ensures SizeOf(A, ch[t]).Ok?
      {
        SizedLeavesSizeAll(A, ch[t]);
      }
      ChildSizesOk(A, i, |ch|, true);
      LayoutSizeOk(A, i, 0, true);
      LayoutSizeOk(A, i, 1, true);
    }
  }

  /** A box-only diagram whose leaves all set their size gives every node with children
      the positions of its children: box `arrange` raises only for a missing size. */
  lemma BoxNodeArranges(A: seq<LNode>, origins: seq<Pair>, j: nat)
    requires ChildrenAfter(A) && j < |A| && |origins| == |A| && LeavesSized(A)
    requires A[j].props.layout == BoxLayout
    ensures ChildPositions(A, origins, j).Ok?
  {
    var ch := A[j].children;
    SizedLeavesSizeAll(A, j);
    forall t | 0 <= t < |ch|
      ensures SizeOf(A, ch[t]).Ok?
    {
      SizedLeavesSizeAll(A, ch[t]);
    }
    ChildSizesOk(A, j, |ch|, true);
  }

  /** `BoxLayout.arrange`: child `k` at its offset along the direction, aligned across it. */
  function BoxPositions(props: NodeProps, origin: Pair, nodeSize: Pair, cs: seq<Pair>, al: seq<Pair>): (r: seq<Pair>)
    requires |cs| == |al|
    ensures |r| == |cs| && forall k :: 0 <= k < |cs| ==> r[k] == Box.ChildPosition(props, origin, nodeSize, cs, al, k)
  {
    seq(|cs|, k requires 0 <= k < |cs| => Box.ChildPosition(props, origin, nodeSize, cs, al, k))
  }

  /** `GridLayout.arrange`: child `k` aligned inside the tracks of its cell, or IndexError
      when a cell names a track boundary the grid does not have. */
  function GridPositions(gc: Grid.GridCells, origin: Pair, gap: Pair, cs: seq<Pair>, al: seq<Pair>): (r: Result<seq<Pair>>)
    requires |cs| == |al| == |gc.cells|
    ensures r.Ok? <==> forall k :: 0 <= k < |cs| ==> Grid.CellPosition(gc, gc.cells[k], origin, gap, cs[k], al[k]).Some?
    ensures r.Err? ==> r.fault == IndexOutOfRange
    ensures r.Ok? ==> |r.value| == |cs|
    ensures r.Ok? ==> forall k :: 0 <= k < |cs| ==> Grid.CellPosition(gc, gc.cells[k], origin, gap, cs[k], al[k]) == Some(r.value[k])
  {
    if forall k :: 0 <= k < |cs| ==> Grid.CellPosition(gc, gc.cells[k], origin, gap, cs[k], al[k]).Some?
    then Ok(seq(|cs|, k requires 0 <= k < |cs| => Grid.CellPosition(gc, gc.cells[k], origin, gap, cs[k], al[k]).value))
    else Err(IndexOutOfRange)
  }

  /** The positions node `j`'s layout `arrange` gives its children, in order, or the fault
      it raises: a size that cannot be computed, or a grid cell whose track does not exist. */
  function ChildPositions(A: seq<LNode>, origins: seq<Pair>, j: nat): (r: Result<seq<Pair>>)
    requires ChildrenAfter(A) && j < |A| && |origins| == |A|
    ensures r.Ok? ==> |r.value| == |A[j].children|
  {
    var ch, props := A[j].children, A[j].props;
    match props.layout
    case BoxLayout =>
      (match SizeOf(A, j)
       case Err(f) => Err(f)
       case Ok(ns) =>
         match ChildSizes(A, j, |ch|, true)
         case Err(f) => Err(f)
         case Ok(cs) => Ok(BoxPositions(props, origins[j], ns, cs, Aligns(A, j))))
    case GridLayout =>
      (match GridCellsOf(A, j, true)
       case Err(f) => Err(f)
       case Ok(gc) =>
         match ChildSizes(A, j, |ch|, true)
         case Err(f) => Err(f)
         case Ok(cs) =>
           if |gc.cells| == |ch| then GridPositions(gc, origins[j], props.gap, cs, Aligns(A, j))
           else Err(IndexOutOfRange))
  }

  /** A grid's cells, when they exist, are one per child, in the children's order, and the
      children's sizes are all known. */
  lemma GridCellsShape(A: seq<LNode>, i: nat, explicit: bool)
    requires ChildrenAfter(A) && i < |A|
    ensures var r := GridCellsOf(A, i, explicit);
      r.Ok? ==> && ChildSizes(A, i, |A[i].children|, explicit).Ok?
                && |r.value.cells| == |A[i].children|
                && forall k :: 0 <= k < |A[i].children| ==> r.value.cells[k].node == k
  {
  }

  /** Once a child's size fails, the sizes of any longer prefix of the children fail with
      the same fault. */
  lemma {:induction false} ChildSizesErrStays(A: seq<LNode>, i: nat, k: nat, m: nat, explicit: bool)
    requires ChildrenAfter(A) && i < |A| && k <= m <= |A[i].children|
    requires ChildSizes(A, i, k, explicit).Err?
    ensures ChildSizes(A, i, m, explicit) == ChildSizes(A, i, k, explicit)
    decreases m
  {
    if m > k {
      ChildSizesErrStays(A, i, k, m - 1, explicit);
    }
  }

  /** Node `j` is node `c` or one of the nodes `walk` yields from it. */
  ghost predicate InSubtree(A: seq<LNode>, c: nat, j: nat)
    requires ChildrenAfter(A) && c < |A|
  {
    j == c || j in Walk(A, c)
  }

  /** Every child of node `j` stands in `P` at the position `j`'s layout gives it. */
  ghost predicate Done(A: seq<LNode>, origins: seq<Pair>, P: seq<Pair>, j: nat)
    requires ChildrenAfter(A) && j < |A| && |origins| == |A|
  {
    var r := ChildPositions(A, origins, j);
    r.Ok? && forall m :: 0 <= m < |A[j].children| ==> A[j].children[m] < |P| && P[A[j].children[m]] == r.value[m]
  }

  /** No layout `arrange` raises in the subtree of node `i`. */
  ghost predicate SubtreeArranges(A: seq<LNode>, origins: seq<Pair>, i: nat)
    requires ChildrenAfter(A) && i < |A| && |origins| == |A|
  {
    forall j :: 0 <= j < |A| && InSubtree(A, i, j) && A[j].children != [] ==> ChildPositions(A, origins, j).Ok?
  }

  /** Every node with children in the subtree of node `i` has placed its children in `P`. */
  ghost predicate ArrangedBelow(A: seq<LNode>, origins: seq<Pair>, P: seq<Pair>, i: nat)
    requires ChildrenAfter(A) && i < |A| && |origins| == |A|
  {
    forall j :: 0 <= j < |A| && InSubtree(A, i, j) && A[j].children != [] ==> Done(A, origins, P, j)
  }

  /** The child of node `i` on the way from node `j` up to `i` (or the topmost ancestor
      of `j` when `i` is not an ancestor). */
  function ClimbTo(A: seq<LNode>, i: nat, j: nat): nat
    requires ParentsBefore(A) && j < |A|
    decreases j
  {
    match A[j].parent
    case None => j
    case Some(p) => if p == i then j else ClimbTo(A, i, p)
  }

  /** Climbing from anything in the subtree of a child `c` of `i` stops at `c`. */
  lemma {:induction false} ClimbInSubtree(A: seq<LNode>, i: nat, c: nat, j: nat)
    requires WellFormed(A) && ChildrenAfter(A) && ParentsBefore(A)
    requires i < c < |A| && A[c].parent == Some(i) && j < |A| && InSubtree(A, c, j)
    ensures ClimbTo(A, i, j) == c
    decreases j
  {
    if j != c {
      WalkIsChildren(A, c, j);
      var j', mm :| 0 <= j' < |A| && (j' == c || j' in Walk(A, c)) && 0 <= mm < |A[j'].children| && A[j'].children[mm] == j;
      assert LinkedIn(A, 0, j');
      ClimbInSubtree(A, i, c, j');
    }
  }

  /** The subtrees of two different children of a node share no node. */
  lemma SiblingsDisjoint(A: seq<LNode>, i: nat, m: nat, k: nat, j: nat)
    requires WellFormed(A) && ChildrenAfter(A) && ParentsBefore(A) && i < |A|
    requires m < |A[i].children| && k < |A[i].children| && m != k && j < |A|
    requires InSubtree(A, A[i].children[m], j)
    ensures !InSubtree(A, A[i].children[k], j)
  {
    var ch := A[i].children;
    assert LinkedIn(A, 0, i) && Ascending(ch);
    ClimbInSubtree(A, i, ch[m], j);
    if InSubtree(A, ch[k], j) {
      ClimbInSubtree(A, i, ch[k], j);
    }
  }

  /** The walk from child `k` of node `i` never yields a child of a node in the subtree of
      another child `m`, nor a child of `i` itself. */
  lemma ChildOutside(A: seq<LNode>, i: nat, k: nat, j: nat, mm: nat)
    requires WellFormed(A) && ChildrenAfter(A) && ParentsBefore(A) && i < |A| && k < |A[i].children|
    requires j < |A| && mm < |A[j].children|
    requires j == i || exists m :: 0 <= m < |A[i].children| && m != k && InSubtree(A, A[i].children[m], j)
    ensures A[j].children[mm] !in Walk(A, A[i].children[k])
  {
    var c, y := A[i].children[k], A[j].children[mm];
    if y in Walk(A, c) {
      WalkIsChildren(A, c, y);
      var j', mm' :| 0 <= j' < |A| && (j' == c || j' in Walk(A, c)) && 0 <= mm' < |A[j'].children| && A[j'].children[mm'] == y;
      OneParent(A, j, mm, j', mm');
      if j != i {
        var m :| 0 <= m < |A[i].children| && m != k && InSubtree(A, A[i].children[m], j);
        SiblingsDisjoint(A, i, m, k, j);
      }
    }
  }

  /** Writing only inside the walk from `c` keeps node `j`'s children placed when none of
      them is in that walk. */
  lemma KeepDone(A: seq<LNode>, origins: seq<Pair>, P0: seq<Pair>, P1: seq<Pair>, j: nat, c: nat)
    requires ChildrenAfter(A) && j < |A| && c < |A| && |origins| == |A| && |P0| == |P1|
    requires Done(A, origins, P0, j)
    requires forall x :: 0 <= x < |P0| && x !in Walk(A, c) ==> P1[x] == P0[x]
    requires forall mm :: 0 <= mm < |A[j].children| ==> A[j].children[mm] !in Walk(A, c)
    ensures Done(A, origins, P1, j)
  {
  }

  /** Arranging the subtree of child `k` of `i` keeps the subtree of an earlier child `m`
      arranged. */
  lemma KeepArranged(A: seq<LNode>, origins: seq<Pair>, P0: seq<Pair>, P1: seq<Pair>, i: nat, m: nat, k: nat)
    requires WellFormed(A) && ChildrenAfter(A) && ParentsBefore(A) && i < |A| && |origins| == |A| && |P0| == |P1|
    requires m < k < |A[i].children|
    requires ArrangedBelow(A, origins, P0, A[i].children[m])
    requires forall x :: 0 <= x < |P0| && x !in Walk(A, A[i].children[k]) ==> P1[x] == P0[x]
    ensures ArrangedBelow(A, origins, P1, A[i].children[m])
  {
    var ch := A[i].children;
    forall j | 0 <= j < |A| && InSubtree(A, ch[m], j) && A[j].children != []
      ensures Done(A, origins, P1, j)
    {
      forall mm | 0 <= mm < |A[j].children|
        ensures A[j].children[mm] !in Walk(A, ch[k])
      {
        ChildOutside(A, i, k, j, mm);
      }
      KeepDone(A, origins, P0, P1, j, ch[k]);
    }
  }

  /** Arranging the subtree of child `k` of `i` keeps `i`'s children placed. */
  lemma ArrangeStepDone(A: seq<LNode>, origins: seq<Pair>, P0: seq<Pair>, P1: seq<Pair>, i: nat, k: nat)
    requires WellFormed(A) && ChildrenAfter(A) && ParentsBefore(A) && i < |A| && |origins| == |A| && |P0| == |P1|
    requires k < |A[i].children|
    requires Done(A, origins, P0, i)
    requires forall x :: 0 <= x < |P0| && x !in Walk(A, A[i].children[k]) ==> P1[x] == P0[x]
    ensures Done(A, origins, P1, i)
  {
    var ch := A[i].children;
    forall mm | 0 <= mm < |ch|
      ensures ch[mm] !in Walk(A, ch[k])
    {
      ChildOutside(A, i, k, i, mm);
    }
    KeepDone(A, origins, P0, P1, i, ch[k]);
  }

  /** Arranging the subtree of child `k` of `i` keeps the subtrees of the earlier children
      arranged, and adds child `k`'s. */
  lemma ArrangeStepEarlier(A: seq<LNode>, origins: seq<Pair>, P0: seq<Pair>, P1: seq<Pair>, i: nat, k: nat)
    requires WellFormed(A) && ChildrenAfter(A) && ParentsBefore(A) && i < |A| && |origins| == |A| && |P0| == |P1|
    requires k < |A[i].children|
    requires forall m :: 0 <= m < k ==> ArrangedBelow(A, origins, P0, A[i].children[m])
    requires ArrangedBelow(A, origins, P1, A[i].children[k])
    requires forall x :: 0 <= x < |P0| && x !in Walk(A, A[i].children[k]) ==> P1[x] == P0[x]
    ensures forall m :: 0 <= m <= k ==> ArrangedBelow(A, origins, P1, A[i].children[m])
  {
    forall m | 0 <= m < k
      ensures ArrangedBelow(A, origins, P1, A[i].children[m])
    {
      KeepArranged(A, origins, P0, P1, i, m, k);
    }
  }

  /** Node `i`'s children placed and each child's subtree arranged: the subtree of `i` is
      arranged. */
  lemma ArrangedFromChildren(A: seq<LNode>, origins: seq<Pair>, P: seq<Pair>, i: nat)
    requires ChildrenAfter(A) && i < |A| && |origins| == |A|
    requires Done(A, origins, P, i)
    requires forall m :: 0 <= m < |A[i].children| ==> ArrangedBelow(A, origins, P, A[i].children[m])
    ensures ArrangedBelow(A, origins, P, i) && SubtreeArranges(A, origins, i)
  {
    var ch := A[i].children;
    WalkMembers(A, i);
    forall j | 0 <= j < |A| && InSubtree(A, i, j) && A[j].children != []
      ensures Done(A, origins, P, j)
    {
      if j != i {
        var m :| 0 <= m < |ch| && (j == ch[m] || j in Walk(A, ch[m]));
        assert InSubtree(A, ch[m], j);
      }
    }
  }

  /** A leaf's subtree is the leaf alone: arranging it places nothing and raises nothing. */
  lemma LeafArranged(A: seq<LNode>, origins: seq<Pair>, P: seq<Pair>, i: nat)
    requires ChildrenAfter(A) && i < |A| && |origins| == |A| && A[i].children == []
    ensures ArrangedBelow(A, origins, P, i) && SubtreeArranges(A, origins, i)
  {
    assert Walk(A, i) == [];
  }

  /** A subtree that arranges has subtrees that arrange. */
  lemma SubtreeArrangesChild(A: seq<LNode>, origins: seq<Pair>, i: nat, m: nat)
    requires ChildrenAfter(A) && i < |A| && |origins| == |A| && m < |A[i].children|
    ensures SubtreeArranges(A, origins, i) ==> SubtreeArranges(A, origins, A[i].children[m])
  {
    WalkChild(A, i, m);
  }

  /** Each cached size is the node's size. */
  ghost predicate SizesHold(A: seq<LNode>, sizes: map<nat, Pair>)
    requires ChildrenAfter(A)
  {
    forall i :: i in sizes ==> i < |A| && SizeOf(A, i) == Ok(sizes[i])
  }

  /** Each cached grid is the node's grid cells. */
  ghost predicate GridsHold(A: seq<LNode>, grids: map<nat, Grid.GridCells>)
    requires ChildrenAfter(A)
  {
    forall i :: i in grids ==> i < |A| && GridCellsOf(A, i, true) == Ok(grids[i])
  }

  /** Each cached real parent is the node's real parent. */
  ghost predicate RealParentsHold(A: seq<LNode>, realParents: map<nat, nat>)
    requires ParentsBefore(A)
  {
    forall i :: i in realParents ==> i < |A| && RealParent(A, i) == Ok(realParents[i])
  }

  lemma AddSize(A: seq<LNode>, sizes: map<nat, Pair>, i: nat, s: Pair)
    requires ChildrenAfter(A) && SizesHold(A, sizes) && i < |A| && SizeOf(A, i) == Ok(s)
    ensures SizesHold(A, sizes[i := s])
  {
  }

  lemma AddGrid(A: seq<LNode>, grids: map<nat, Grid.GridCells>, i: nat, g: Grid.GridCells)
    requires ChildrenAfter(A) && GridsHold(A, grids) && i < |A| && GridCellsOf(A, i, true) == Ok(g)
    ensures GridsHold(A, grids[i := g])
  {
    var grids' := grids[i := g];
    forall j | j in grids'
      ensures j < |A| && GridCellsOf(A, j, true) == Ok(grids'[j])
    {
      if j != i {
        assert j in grids && grids'[j] == grids[j];
      }
    }
  }

  lemma AddRealParent(A: seq<LNode>, realParents: map<nat, nat>, i: nat, p: nat)
    requires ParentsBefore(A) && RealParentsHold(A, realParents) && i < |A| && RealParent(A, i) == Ok(p)
    ensures RealParentsHold(A, realParents[i := p])
  {
  }

  /** With the children's sizes known, the grid cells are what `cells` computes from them. */
  lemma GridCellsOfSizes(A: seq<LNode>, i: nat, cs: seq<Pair>)
    requires ChildrenAfter(A) && i < |A| && ChildSizes(A, i, |A[i].children|, true) == Ok(cs)
    ensures GridCellsOf(A, i, true) == Grid.CellsOf(A[i].props, Spans(A, i), cs)
  {
  }

  /** A node's children are distinct nodes of the tree. */
  lemma ChildrenDistinct(A: seq<LNode>, j: nat)
    requires WellFormed(A) && j < |A|
    ensures DistinctIds(A[j].children) && forall k :: 0 <= k < |A[j].children| ==> A[j].children[k] < |A|
  {
    assert LinkedIn(A, 0, j) && Ascending(A[j].children);
  }

  /** The children of node `j` stand in `P` at the positions `ChildPositions` gives. */
  lemma DoneBy(A: seq<LNode>, origins: seq<Pair>, P: seq<Pair>, j: nat, ps: seq<Pair>)
    requires ChildrenAfter(A) && j < |A| && |origins| == |A| && ChildPositions(A, origins, j) == Ok(ps)
    requires forall k :: 0 <= k < |A[j].children| ==> A[j].children[k] < |P| && P[A[j].children[k]] == ps[k]
    ensures Done(A, origins, P, j)
  {
  }

  /** A box's children go where `BoxPositions` puts them, once the sizes are known. */
  lemma BoxChildPositions(A: seq<LNode>, origins: seq<Pair>, j: nat, ns: Pair, cs: seq<Pair>)
    requires ChildrenAfter(A) && j < |A| && |origins| == |A| && A[j].props.layout == BoxLayout
    requires SizeOf(A, j) == Ok(ns) && ChildSizes(A, j, |A[j].children|, true) == Ok(cs)
    ensures ChildPositions(A, origins, j) == Ok(BoxPositions(A[j].props, origins[j], ns, cs, Aligns(A, j)))
  {
  }

  /** A grid's children go where `GridPositions` puts them, once the cells are known. */
  lemma GridChildPositions(A: seq<LNode>, origins: seq<Pair>, j: nat, gc: Grid.GridCells, cs: seq<Pair>)
    requires ChildrenAfter(A) && j < |A| && |origins| == |A| && A[j].props.layout == GridLayout
    requires GridCellsOf(A, j, true) == Ok(gc) && ChildSizes(A, j, |A[j].children|, true) == Ok(cs)
    requires |gc.cells| == |A[j].children|
    ensures ChildPositions(A, origins, j) == GridPositions(gc, origins[j], A[j].props.gap, cs, Aligns(A, j))
  {
  }

  /** `Box.Arrange` places every child where `BoxPositions` says. */
  lemma BoxPlaced(positions: array<Pair>, ch: seq<nat>, props: NodeProps, origin: Pair, ns: Pair, cs: seq<Pair>, al: seq<Pair>)
    requires |cs| == |al| == |ch|
    requires forall k :: 0 <= k < |ch| ==> ch[k] < positions.Length
    requires forall k :: 0 <= k < |ch| ==>
      positions[ch[k]] == Box.ChildPosition(props, origin, ns, cs, al, k)
    ensures var P, ps := positions[..], BoxPositions(props, origin, ns, cs, al);
      forall k :: 0 <= k < |ch| ==> ch[k] < |P| && P[ch[k]] == ps[k]
  {
  }

  /** `Grid.Arrange` places every child where `GridPositions` says, or stops at the first
      cell whose track does not exist, and then `GridPositions` is that fault. */
  lemma GridPlaced(positions: array<Pair>, ch: seq<nat>, gc: Grid.GridCells, origin: Pair, gap: Pair, cs: seq<Pair>, al: seq<Pair>, placed: nat)
    requires |cs| == |al| == |gc.cells| == |ch| && placed <= |gc.cells|
    requires forall k :: 0 <= k < |ch| ==> ch[k] < positions.Length
    requires forall k :: 0 <= k < placed ==>
      var x := gc.cells[k];
      Grid.CellPosition(gc, x, origin, gap, cs[k], al[k]).Some?
      && positions[ch[k]] == Grid.CellPosition(gc, x, origin, gap, cs[k], al[k]).value
    requires placed < |gc.cells| ==>
      Grid.CellPosition(gc, gc.cells[placed], origin, gap, cs[placed], al[placed]).None?
    ensures var P, r := positions[..], GridPositions(gc, origin, gap, cs, al);
      && (placed < |ch| <==> r.Err?)
      && (r.Ok? ==> forall k :: 0 <= k < |ch| ==> ch[k] < |P| && P[ch[k]] == r.value[k])
  {
  }

  /** `Grid.Arrange` over the children `ch`: `ok` says whether every child was placed,
      and then each stands where `GridPositions` says. */
  method PlaceGrid(positions: array<Pair>, ch: seq<nat>, gc: Grid.GridCells, origin: Pair, gap: Pair,
                   cs: seq<Pair>, al: seq<Pair>) returns (ok: bool)
    requires |cs| == |al| == |gc.cells| == |ch| && DistinctIds(ch)
    requires forall k :: 0 <= k < |gc.cells| ==> gc.cells[k].node == k
    requires forall k :: 0 <= k < |ch| ==> ch[k] < positions.Length
    modifies positions
    ensures ok <==> GridPositions(gc, origin, gap, cs, al).Ok?
    ensures ok ==> var P, r := positions[..], GridPositions(gc, origin, gap, cs, al);
      forall k :: 0 <= k < |ch| ==> ch[k] < |P| && P[ch[k]] == r.value[k]
    ensures forall x :: 0 <= x < positions.Length && x !in ch ==> positions[x] == old(positions[x])
  {
    var placed := Grid.Arrange(positions, ch, gc, origin, gap, cs, al);
    GridPlaced(positions, ch, gc, origin, gap, cs, al, placed);
    ok := placed == |ch|;
  }

  /** `GridLayout.cells(node)` once the children's sizes are known. */
  method CellsFromSizes(A: seq<LNode>, i: nat, cs: seq<Pair>) returns (r: Result<Grid.GridCells>)
    requires ChildrenAfter(A) && i < |A| && ChildSizes(A, i, |A[i].children|, true) == Ok(cs)
    ensures r == GridCellsOf(A, i, true)
  {
    GridCellsOfSizes(A, i, cs);
    var res, cols, rows := Grid.ComputeCells(A[i].props, Spans(A, i), cs);
    r := res;
  }

  /** A well-formed tree, an origin and a position per node, and caches that hold. */
  ghost predicate Consistent(A: seq<LNode>, origins: seq<Pair>, n: nat, sizes: map<nat, Pair>,
                             grids: map<nat, Grid.GridCells>, realParents: map<nat, nat>)
  {
    && WellFormed(A) && ChildrenAfter(A) && ParentsBefore(A)
    && |origins| == |A| == n
    && SizesHold(A, sizes) && GridsHold(A, grids) && RealParentsHold(A, realParents)
  }

  /** The LayoutNode tree of one diagram: its nodes in pre-order, each node's `origin`, the
      `position` each node is given, and the cached `size`, grid cells and `real_parent`
      of the nodes that have computed them. */
  class Tree {
    const nodes: seq<LNode>
    const origins: seq<Pair>
    const positions: array<Pair>
    var sizes: map<nat, Pair>
    var grids: map<nat, Grid.GridCells>
    var realParents: map<nat, nat>

    /** The tree is well formed and every cached value is the one its definition gives. */
    ghost predicate Valid()
      reads this
    {
      Consistent(nodes, origins, positions.Length, sizes, grids, realParents)
    }

    /** `_make_layout_tree(None, root)`: one LayoutNode per domain node, at position (0, 0). */
    constructor (root: DomainNode, origins: seq<Pair>)
      requires |origins| == TreeSize(root)
      ensures Valid() && nodes == Build(root) && this.origins == origins && fresh(positions)
      ensures sizes == map[] && grids == map[] && realParents == map[]
      ensures forall x :: 0 <= x < positions.Length ==> positions[x] == (0.0, 0.0)
    {
      BuildWellFormed(root);
      WellFormedChildrenAfter(Build(root));
      WellFormedParentsBefore(Build(root));
      nodes := Build(root);
      this.origins := origins;
      positions := new Pair[TreeSize(root)]((_) => (0.0, 0.0));
      sizes, grids, realParents := map[], map[], map[];
    }

    /** `LayoutNode.size`: computed once, then read from the cache. */
    method Size(i: nat) returns (r: Result<Pair>)
      requires Valid() && i < |nodes|
      modifies this
      ensures Valid() && r == SizeOf(nodes, i)
      ensures r.Ok? ==> i in sizes
      ensures i in old(sizes) ==> sizes == old(sizes) && grids == old(grids)
      ensures old(sizes).Keys <= sizes.Keys && old(grids).Keys <= grids.Keys && realParents == old(realParents)
      decreases |nodes| - i, 3
    {
      if i in sizes {
        return Ok(sizes[i]);
      }
      var own := nodes[i].props.size;
      var w, h: real;
      if own.0 >= 0.0 {
        w := own.0;
      } else {
        var x := LayoutSizeOf(i, 0);
        if x.Err? {
          return Err(x.fault);
        }
        w := x.value;
      }
      if own.1 >= 0.0 {
        h := own.1;
      } else {
        var y := LayoutSizeOf(i, 1);
        if y.Err? {
          return Err(y.fault);
        }
        h := y.value;
      }
      AddSize(nodes, sizes, i, (w, h));
      sizes := sizes[i := (w, h)];
      r := Ok((w, h));
    }

    /** `layout.size(node)` along one axis. */
    method LayoutSizeOf(i: nat, axis: Axis) returns (r: Result<real>)
      requires Valid() && i < |nodes|
      modifies this
      ensures Valid() && r == LayoutSize(nodes, i, axis, true)
      ensures old(sizes).Keys <= sizes.Keys && old(grids).Keys <= grids.Keys && realParents == old(realParents)
      decreases |nodes| - i, 2
    {
      var props := nodes[i].props;
      match props.layout
      case BoxLayout =>
        var cs := ChildSizesOf(i);
        if cs.Err? {
          return Err(cs.fault);
        }
        r := Box.BoxSize(props, cs.value, axis);
      case GridLayout =>
        var gc := Cells(i);
        if gc.Err? {
          return Err(gc.fault);
        }
        r := Ok(Grid.GridSize(gc.value, props, axis));
    }

    /** `GridLayout.cells(node)`: computed once, then read from `node._grid_cells`. */
    method Cells(i: nat) returns (r: Result<Grid.GridCells>)
      requires Valid() && i < |nodes|
      modifies this
      ensures Valid() && r == GridCellsOf(nodes, i, true)
      ensures r.Ok? ==> i in grids
      ensures i in old(grids) ==> sizes == old(sizes) && grids == old(grids)
      ensures old(sizes).Keys <= sizes.Keys && old(grids).Keys <= grids.Keys && realParents == old(realParents)
      decreases |nodes| - i, 1
    {
      if i in grids {
        return Ok(grids[i]);
      }
      var cs := ChildSizesOf(i);
      if cs.Err? {
        return Err(cs.fault);
      }
      var res := CellsFromSizes(nodes, i, cs.value);
      if res.Ok? {
        AddGrid(nodes, grids, i, res.value);
        grids := grids[i := res.value];
      }
      r := res;
    }

    /** The sizes of node `i`'s children, in order, stopping at the first that raises. */
    method ChildSizesOf(i: nat) returns (r: Result<seq<Pair>>)
      requires Valid() && i < |nodes|
      modifies this
      ensures Valid() && r == ChildSizes(nodes, i, |nodes[i].children|, true)
      ensures old(sizes).Keys <= sizes.Keys && old(grids).Keys <= grids.Keys && realParents == old(realParents)
      decreases |nodes| - i, 0
    {
      var ch := nodes[i].children;
      var acc := [];
      var k := 0;
      while k < |ch|
        invariant Valid() && k <= |ch| && ChildSizes(nodes, i, k, true) == Ok(acc)
        invariant old(sizes).Keys <= sizes.Keys && old(grids).Keys <= grids.Keys && realParents == old(realParents)
        decreases |ch| - k
      {
        var s := Size(ch[k]);
        if s.Err? {
          ChildSizesErrStays(nodes, i, k + 1, |ch|, true);
          return Err(s.fault);
        }
        acc := acc + [s.value];
        k := k + 1;
      }
      r := Ok(acc);
    }

    /** `LayoutNode.real_parent`: computed once, then read from the cache. */
    method RealParentOf(i: nat) returns (r: Result<nat>)
      requires Valid() && i < |nodes|
      modifies this
      ensures Valid() && r == RealParent(nodes, i)
      ensures r.Ok? ==> i in realParents
      ensures sizes == old(sizes) && grids == old(grids) && old(realParents).Keys <= realParents.Keys
      ensures i in old(realParents) ==> realParents == old(realParents)
      decreases i
    {
      if i in realParents {
        return Ok(realParents[i]);
      }
      match nodes[i].parent
      case None =>
        return Err(NoRealParent);
      case Some(p) =>
        if nodes[p].props.virtual {
          r := RealParentOf(p);
        } else {
          r := Ok(p);
        }
        if r.Ok? {
          AddRealParent(nodes, realParents, i, r.value);
          realParents := realParents[i := r.value];
        }
    }

    /** `layout.arrange(node)` for node `j`: each child's position, as its layout gives it. */
    method ArrangeNode(j: nat) returns (err: Option<Fault>)
      requires Valid() && j < |nodes| && nodes[j].children != []
      modifies this, positions
      ensures Valid()
      ensures err.None? <==> ChildPositions(nodes, origins, j).Ok?
      ensures err.None? ==> Done(nodes, origins, positions[..], j)
      ensures forall x :: 0 <= x < positions.Length && x !in nodes[j].children ==> positions[x] == old(positions[x])
    {
      if nodes[j].props.layout == BoxLayout {
        err := ArrangeBox(j);
      } else {
        err := ArrangeGrid(j);
      }
    }

    /** `BoxLayout.arrange(node)`: the children one after another along the direction. */
    method ArrangeBox(j: nat) returns (err: Option<Fault>)
      requires Valid() && j < |nodes| && nodes[j].props.layout == BoxLayout
      modifies this, positions
      ensures Valid()
      ensures err.None? <==> ChildPositions(nodes, origins, j).Ok?
      ensures err.None? ==> Done(nodes, origins, positions[..], j)
      ensures forall x :: 0 <= x < positions.Length && x !in nodes[j].children ==> positions[x] == old(positions[x])
    {
      var ch, props := nodes[j].children, nodes[j].props;
      ChildrenDistinct(nodes, j);
      var ns := Size(j);
      if ns.Err? {
        return Some(ns.fault);
      }
      var cs := ChildSizesOf(j);
      if cs.Err? {
        return Some(cs.fault);
      }
      var al := Aligns(nodes, j);
      Box.Arrange(positions, ch, props, origins[j], ns.value, cs.value, al);
      BoxPlaced(positions, ch, props, origins[j], ns.value, cs.value, al);
      BoxChildPositions(nodes, origins, j, ns.value, cs.value);
      DoneBy(nodes, origins, positions[..], j, BoxPositions(props, origins[j], ns.value, cs.value, al));
      err := None;
    }

    /** `GridLayout.arrange(node)`: each child aligned inside the tracks of its cell. */
    method ArrangeGrid(j: nat) returns (err: Option<Fault>)
      requires Valid() && j < |nodes| && nodes[j].props.layout == GridLayout
      modifies this, positions
      ensures Valid()
      ensures err.None? <==> ChildPositions(nodes, origins, j).Ok?
      ensures err.None? ==> Done(nodes, origins, positions[..], j)
      ensures forall x :: 0 <= x < positions.Length && x !in nodes[j].children ==> positions[x] == old(positions[x])
    {
      var ch, props := nodes[j].children, nodes[j].props;
      ChildrenDistinct(nodes, j);
      var gc := Cells(j);
      if gc.Err? {
        return Some(gc.fault);
      }
      GridCellsShape(nodes, j, true);
      var cs := ChildSizesOf(j);
      var al := Aligns(nodes, j);
      var ok := PlaceGrid(positions, ch, gc.value, origins[j], props.gap, cs.value, al);
      GridChildPositions(nodes, origins, j, gc.value, cs.value);
      if !ok {
        return Some(IndexOutOfRange);
      }
      DoneBy(nodes, origins, positions[..], j, GridPositions(gc.value, origins[j], props.gap, cs.value, al).value);
      err := None;
    }

    /** `_arrange(node)` for node `i`: a leaf is left alone; otherwise its layout places its
      children and then each child's subtree is arranged, in order. */
    method ArrangeFrom(i: nat) returns (err: Option<Fault>)
      requires Valid() && i < |nodes|
      modifies this, positions
      ensures Valid()
      ensures err.None? <==> SubtreeArranges(nodes, origins, i)
      ensures err.None? ==> ArrangedBelow(nodes, origins, positions[..], i)
      ensures forall x :: 0 <= x < positions.Length && x !in Walk(nodes, i) ==> positions[x] == old(positions[x])
      decreases |nodes| - i
    {
      var ch := nodes[i].children;
      if ch == [] {
        LeafArranged(nodes, origins, positions[..], i);
        return None;
      }
      forall m | 0 <= m < |ch|
        ensures ch[m] in Walk(nodes, i)
      {
        WalkChild(nodes, i, m);
      }
      err := ArrangeNode(i);
      if err.Some? {
        return;
      }
      var k := 0;
      while k < |ch|
        invariant Valid() && k <= |ch|
        invariant Done(nodes, origins, positions[..], i)
        invariant forall m :: 0 <= m < k ==> ArrangedBelow(nodes, origins, positions[..], ch[m])
        invariant forall x :: 0 <= x < positions.Length && x !in Walk(nodes, i) ==> positions[x] == old(positions[x])
        decreases |ch| - k
      {
        ghost var P0 := positions[..];
        WalkChild(nodes, i, k);
        var e := ArrangeFrom(ch[k]);
        if e.Some? {
          SubtreeArrangesChild(nodes, origins, i, k);
          return e;
        }
        ArrangeStepDone(nodes, origins, P0, positions[..], i, k);
        ArrangeStepEarlier(nodes, origins, P0, positions[..], i, k);
        k := k + 1;
      }
      ArrangedFromChildren(nodes, origins, positions[..], i);
    }
  }

  /** `arrange(node)`: builds the LayoutNode tree of `root` and arranges it from the root;
      `err` is the fault that stops it. The root itself stays at (0, 0). */
  method Arrange(root: DomainNode, origins: seq<Pair>) returns (tree: Tree, err: Option<Fault>)
    requires |origins| == TreeSize(root)
    ensures tree.Valid() && tree.nodes == Build(root) && tree.origins == origins
    ensures err.None? <==> SubtreeArranges(tree.nodes, origins, 0)
    ensures err.None? ==> ArrangedBelow(tree.nodes, origins, tree.positions[..], 0)
    ensures tree.positions[0] == (0.0, 0.0)
  {
    tree := new Tree(root, origins);
    err := tree.ArrangeFrom(0);
  }
}
