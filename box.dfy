/** The box layout: children stacked along the node's direction (diagen/layouts/box.py). */
module Box {
  import opened Utils
  import opened Props

  /** `BoxLayout.size(node, axis)`, given the sizes of the node's children. Along the
      direction it adds both paddings, the gaps between children and their extents;
      across it adds both paddings to the largest child extent, and Python's `max` of
      no children raises. */
  function BoxSize(props: NodeProps, childSizes: seq<Pair>, axis: Axis): (r: Result<real>)
    ensures r.Err? <==> axis != props.direction && |childSizes| == 0
    ensures r.Err? ==> r.fault == EmptyMax
    ensures r.Ok? && axis != props.direction ==>
      (forall k :: 0 <= k < |childSizes| ==>
                     props.padding[axis] + At(childSizes[k], axis) + props.padding[axis + 2] <= r.value)
      && (exists k :: 0 <= k < |childSizes| &&
                      props.padding[axis] + At(childSizes[k], axis) + props.padding[axis + 2] == r.value)
  {
    var d := props.direction;
    var p := props.padding;
    var g := props.gap;
    if d == axis then
      Ok(p[d] + p[d + 2] + At(g, d) * Max(0, |childSizes| - 1) as real + Sum(Along(childSizes, d)))
    else if |childSizes| == 0 then Err(EmptyMax)
    else Ok(p[axis] + p[axis + 2] + MaxOf(Along(childSizes, axis)))
  }

  /** Where `arrange` puts the main-axis edge of child `k`: after the leading padding, the
      extents of the children before it and one gap after each of them. */
  function MainStart(props: NodeProps, origin: Pair, childSizes: seq<Pair>, k: nat): real
    requires k <= |childSizes|
  {
    var a := props.direction;
    At(origin, a) + props.padding[a] + Sum(Along(childSizes[..k], a)) + k as real * At(props.gap, a)
  }

  /** Where `arrange` puts child `k` on the cross axis: between the node's edges, moved by
      the first alignment component (-1 at the start, 0 centred, 1 at the end). */
  function CrossStart(props: NodeProps, origin: Pair, nodeSize: Pair, childSize: Pair, align: Pair): real
  {
    var o := Other(props.direction);
    At(origin, o) + (At(nodeSize, o) - At(childSize, o)) / 2.0 * (align.0 + 1.0)
  }

  /** The position `arrange` gives child `k`. */
  function ChildPosition(props: NodeProps, origin: Pair, nodeSize: Pair, childSizes: seq<Pair>,
                         aligns: seq<Pair>, k: nat): Pair
    requires k < |childSizes| && k < |aligns|
  {
    Dtup2(props.direction, MainStart(props, origin, childSizes, k),
          CrossStart(props, origin, nodeSize, childSizes[k], aligns[k]))
  }

  /** `BoxLayout.arrange(node)`: `positions` holds every node's position, `children` the
      ids of this node's children in order, `aligns[k]` child `k`'s resolved alignment. */
  method Arrange(positions: array<Pair>, children: seq<nat>, props: NodeProps, origin: Pair,
                 nodeSize: Pair, childSizes: seq<Pair>, aligns: seq<Pair>)
    requires |children| == |childSizes| == |aligns| && DistinctIds(children)
    requires forall k :: 0 <= k < |children| ==> children[k] < positions.Length
    modifies positions
    ensures forall k :: 0 <= k < |children| ==>
      positions[children[k]] == ChildPosition(props, origin, nodeSize, childSizes, aligns, k)
    ensures forall i :: 0 <= i < positions.Length && i !in children ==> positions[i] == old(positions[i])
  {
    var a := props.direction;
    var o := Other(a);
    var oc := At(origin, o);
    var c := At(origin, a) + props.padding[a];
    var k := 0;
    assert childSizes[..0] == [];
    while k < |children|
      invariant 0 <= k <= |children|
      invariant c == MainStart(props, origin, childSizes, k)
      invariant forall j :: 0 <= j < k ==>
        positions[children[j]] == ChildPosition(props, origin, nodeSize, childSizes, aligns, j)
      invariant forall i :: 0 <= i < positions.Length && i !in children[..k] ==> positions[i] == old(positions[i])
    {
      var it := childSizes[k];
      var align := aligns[k];
      assert forall j :: 0 <= j < k ==> children[j] != children[k];
      positions[children[k]] := Dtup2(a, c, oc + (At(nodeSize, o) - At(it, o)) / 2.0 * (align.0 + 1.0));
      assert c == MainStart(props, origin, childSizes, k);
      assert oc + (At(nodeSize, o) - At(it, o)) / 2.0 * (align.0 + 1.0) == CrossStart(props, origin, nodeSize, childSizes[k], aligns[k]);
      assert positions[children[k]] == ChildPosition(props, origin, nodeSize, childSizes, aligns, k);
      c := c + At(props.gap, a) + At(it, a);
      SumStep(Along(childSizes, a), k);
      assert Along(childSizes[..k + 1], a) == Along(childSizes, a)[..k + 1];
      assert Along(childSizes[..k], a) == Along(childSizes, a)[..k];
      assert children[..k + 1] == children[..k] + [children[k]];
      k := k + 1;
    }
    assert children[..k] == children;
  }

  lemma SumStep(xs: seq<real>, k: nat)
    requires k < |xs|
    ensures Sum(xs[..k + 1]) == Sum(xs[..k]) + xs[k]
  {
    assert xs[..k + 1][..k] == xs[..k];
  }

  /** Along the direction, child `k + 1` starts one gap after child `k` ends. */
  lemma MainStartStep(props: NodeProps, origin: Pair, childSizes: seq<Pair>, k: nat)
    requires k + 1 <= |childSizes|
    ensures MainStart(props, origin, childSizes, k + 1)
      == MainStart(props, origin, childSizes, k) + At(childSizes[k], props.direction) + At(props.gap, props.direction)
  {
    var a := props.direction;
    SumStep(Along(childSizes, a), k);
    assert Along(childSizes[..k + 1], a) == Along(childSizes, a)[..k + 1];
    assert Along(childSizes[..k], a) == Along(childSizes, a)[..k];
  }

  /** With non-negative gaps and extents, a child never reaches into a later child along
      the direction. */
  lemma {:induction false} NoOverlap(props: NodeProps, origin: Pair, childSizes: seq<Pair>, j: nat, k: nat)
    requires j < k <= |childSizes|
    requires At(props.gap, props.direction) >= 0.0
    requires forall i :: 0 <= i < |childSizes| ==> At(childSizes[i], props.direction) >= 0.0
    ensures MainStart(props, origin, childSizes, j) + At(childSizes[j], props.direction)
      <= MainStart(props, origin, childSizes, k)
    decreases k - j
  {
    MainStartStep(props, origin, childSizes, k - 1);
    if j < k - 1 {
      NoOverlap(props, origin, childSizes, j, k - 1);
    }
  }

  /** `size` and `arrange` agree along the direction: the last child ends exactly one
      trailing padding before the far edge of the node. */
  lemma FillsMainAxis(props: NodeProps, origin: Pair, childSizes: seq<Pair>)
    requires |childSizes| > 0
    ensures var a := props.direction; var n := |childSizes|;
      BoxSize(props, childSizes, a).Ok? &&
      MainStart(props, origin, childSizes, n - 1) + At(childSizes[n - 1], a) + props.padding[a + 2]
        == At(origin, a) + BoxSize(props, childSizes, a).value
  {
    var n := |childSizes|;
    MainStartStep(props, origin, childSizes, n - 1);
    assert childSizes[..n] == childSizes;
  }

  /** Alignment -1 puts a child at the node's cross-axis edge, 0 centres it and 1 puts it
      flush with the far edge; any alignment in between keeps a child that fits inside. */
  lemma CrossAlignment(props: NodeProps, origin: Pair, nodeSize: Pair, childSize: Pair, align: Pair)
    ensures var o := Other(props.direction);
      var x := CrossStart(props, origin, nodeSize, childSize, align);
      (align.0 == -1.0 ==> x == At(origin, o))
      && (align.0 == 0.0 ==> x - At(origin, o) == At(origin, o) + At(nodeSize, o) - (x + At(childSize, o)))
      && (align.0 == 1.0 ==> x + At(childSize, o) == At(origin, o) + At(nodeSize, o))
      && (-1.0 <= align.0 <= 1.0 && At(childSize, o) <= At(nodeSize, o) ==>
            At(origin, o) <= x && x + At(childSize, o) <= At(origin, o) + At(nodeSize, o))
  {
    var o := Other(props.direction);
    var slack := At(nodeSize, o) - At(childSize, o);
    if -1.0 <= align.0 <= 1.0 && slack >= 0.0 {
      var h := slack / 2.0;
      var t := align.0 + 1.0;
      assert h * t >= 0.0 && h * (2.0 - t) >= 0.0;
      assert h * t <= h * 2.0;
    }
  }
}
