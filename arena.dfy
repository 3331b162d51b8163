/** The shadow tree of the layout engine (diagen/layouts/__init__.py): `_make_layout_tree`
    mirrors the domain tree into LayoutNodes; here the LayoutNodes live in a sequence indexed
    by their pre-order number, each holding its parent's and its children's indices. */
module Arena {
  import opened Utils
  import opened Props

  /** A domain node: its identity, its evaluated props and its children in order. */
  datatype DomainNode = DomainNode(id: nat, props: NodeProps, children: seq<DomainNode>)

  /** A LayoutNode: parent index (None for the root), the domain node it mirrors, that
      node's props, and its children's indices in order. */
  datatype LNode = LNode(parent: Option<nat>, node: nat, props: NodeProps, children: seq<nat>)

  function TreeSize(d: DomainNode): nat
    decreases d
  {
    1 + ForestSize(d.children)
  }

  function ForestSize(ds: seq<DomainNode>): nat
    decreases ds
  {
    if ds == [] then 0 else TreeSize(ds[0]) + ForestSize(ds[1..])
  }

  /** The domain nodes in pre-order. */
  function Flatten(d: DomainNode): seq<DomainNode>
    decreases d
  {
    [d] + FlattenAll(d.children)
  }

  function FlattenAll(ds: seq<DomainNode>): seq<DomainNode>
    decreases ds
  {
    if ds == [] then [] else Flatten(ds[0]) + FlattenAll(ds[1..])
  }

  /** The indices the mirrors of `ds` get when the first one is numbered `next`. */
  function ChildIds(ds: seq<DomainNode>, next: nat): (r: seq<nat>)
    ensures |r| == |ds|
    decreases ds
  {
    if ds == [] then [] else [next] + ChildIds(ds[1..], next + TreeSize(ds[0]))
  }

  /** `_make_layout_tree(parent, d)`: the LayoutNode of `d`, numbered `base`, followed by
      the mirrors of its children. */
  function Mirror(parent: Option<nat>, d: DomainNode, base: nat): seq<LNode>
    decreases d
  {
    [LNode(parent, d.id, d.props, ChildIds(d.children, base + 1))] + MirrorAll(base, d.children, base + 1)
  }

  function MirrorAll(parent: nat, ds: seq<DomainNode>, next: nat): seq<LNode>
    decreases ds
  {
    if ds == [] then []
    else Mirror(Some(parent), ds[0], next) + MirrorAll(parent, ds[1..], next + TreeSize(ds[0]))
  }

  /** The layout tree of a whole diagram: `_make_layout_tree(None, root)`. */
  function Build(root: DomainNode): seq<LNode>
  {
    Mirror(None, root, 0)
  }

  predicate Ascending(xs: seq<nat>)
  {
    forall j, k :: 0 <= j < k < |xs| ==> xs[j] < xs[k]
  }

  /** Node `j` of the block `M`, whose first node is numbered `base`, has its children
      after it inside the block, each pointing back at it. */
  predicate LinkedIn(M: seq<LNode>, base: nat, j: nat)
    requires j < |M|
  {
    forall k :: 0 <= k < |M[j].children| ==>
      base + j < M[j].children[k] < base + |M| && M[M[j].children[k] - base].parent == Some(base + j)
  }

  /** A layout tree: node 0 is the root, every other node's parent comes before it, and
      every node's children come after it, in increasing order, pointing back at it. */
  predicate WellFormed(A: seq<LNode>)
  {
    && |A| > 0 && A[0].parent == None
    && (forall i :: 0 <= i < |A| ==> LinkedIn(A, 0, i) && Ascending(A[i].children))
    && (forall i :: 0 < i < |A| ==> A[i].parent.Some? && A[i].parent.value < i)
  }

  /** The mirror of a subtree, numbered from `base`, hanging from `top`. */
  ghost predicate Block(M: seq<LNode>, base: nat, top: Option<nat>)
  {
    && |M| > 0 && M[0].parent == top
    && (forall j :: 0 < j < |M| ==> M[j].parent.Some? && base <= M[j].parent.value < base + j)
    && (forall j :: 0 <= j < |M| ==> LinkedIn(M, base, j) && Ascending(M[j].children))
  }

  /** The mirrors of a forest, numbered from `next`, hanging from `parent`. */
  ghost predicate ForestBlock(R: seq<LNode>, parent: nat, ds: seq<DomainNode>, next: nat)
  {
    && |R| == ForestSize(ds)
    && (forall j :: 0 <= j < |R| ==>
          R[j].parent.Some? && (R[j].parent.value == parent || next <= R[j].parent.value < next + j))
    && (forall j :: 0 <= j < |R| ==> LinkedIn(R, next, j) && Ascending(R[j].children))
    && (forall k :: 0 <= k < |ds| ==>
          next <= ChildIds(ds, next)[k] < next + |R| && R[ChildIds(ds, next)[k] - next].parent == Some(parent))
  }

  /** The child indices start at `next`, increase, and stay below the end of the forest. */
  lemma {:induction false} ChildIdsBounds(ds: seq<DomainNode>, next: nat)
    ensures Ascending(ChildIds(ds, next))
    ensures forall k :: 0 <= k < |ds| ==> next <= ChildIds(ds, next)[k] < next + ForestSize(ds)
    ensures ds != [] ==> ChildIds(ds, next)[0] == next
    decreases ds
  {
    if ds != [] {
      var rest := ChildIds(ds[1..], next + TreeSize(ds[0]));
      ChildIdsBounds(ds[1..], next + TreeSize(ds[0]));
      assert ChildIds(ds, next) == [next] + rest;
    }
  }

  /** A mirrored subtree is a block of `TreeSize(d)` well-linked nodes. */
  lemma {:induction false} MirrorBlock(top: Option<nat>, d: DomainNode, base: nat)
    ensures |Mirror(top, d, base)| == TreeSize(d)
    ensures Block(Mirror(top, d, base), base, top)
    decreases d
  {
    MirrorAllBlock(base, d.children, base + 1);
    ChildIdsBounds(d.children, base + 1);
    ConsBlock(LNode(top, d.id, d.props, ChildIds(d.children, base + 1)), MirrorAll(base, d.children, base + 1),
              d.children, base, top);
  }

  /** A node whose children are the roots of a forest block right after it, followed by
      that block, is a block. */
  lemma ConsBlock(h: LNode, R: seq<LNode>, ds: seq<DomainNode>, base: nat, top: Option<nat>)
    requires ForestBlock(R, base, ds, base + 1) && h.parent == top
    requires h.children == ChildIds(ds, base + 1) && Ascending(h.children)
    ensures Block([h] + R, base, top)
  {
    var M := [h] + R;
    forall j | 0 < j < |M|
      ensures M[j].parent.Some? && base <= M[j].parent.value < base + j
      ensures LinkedIn(M, base, j) && Ascending(M[j].children)
    {
      ConsLinked(h, R, base, j);
    }
    ConsHead(h, R, ChildIds(ds, base + 1), base);
  }

  /** The node put before a forest block is linked to the forest's roots. */
  lemma ConsHead(h: LNode, R: seq<LNode>, roots: seq<nat>, base: nat)
    requires h.children == roots
    requires forall k :: 0 <= k < |roots| ==>
      base + 1 <= roots[k] < base + 1 + |R| && R[roots[k] - (base + 1)].parent == Some(base)
    ensures LinkedIn([h] + R, base, 0)
  {
    var M := [h] + R;
    forall k | 0 <= k < |h.children|
      ensures base < h.children[k] < base + |M| && M[h.children[k] - base].parent == Some(base)
    {
      assert M[h.children[k] - base] == R[h.children[k] - (base + 1)];
    }
  }

  /** Node `j - 1` of a forest block numbered from `base + 1` stays linked once a node
      numbered `base` is put before it. */
  lemma ConsLinked(h: LNode, R: seq<LNode>, base: nat, j: nat)
    requires 0 < j <= |R| && LinkedIn(R, base + 1, j - 1)
    requires R[j - 1].parent.Some? && (R[j - 1].parent.value == base || base + 1 <= R[j - 1].parent.value < base + j)
    ensures ([h] + R)[j].parent.Some? && base <= ([h] + R)[j].parent.value < base + j
    ensures LinkedIn([h] + R, base, j) && ([h] + R)[j].children == R[j - 1].children
  {
    var M := [h] + R;
    assert M[j] == R[j - 1];
    forall k | 0 <= k < |M[j].children|
      ensures base + j < M[j].children[k] < base + |M|
      ensures M[M[j].children[k] - base].parent == Some(base + j)
    {
      assert M[M[j].children[k] - base] == R[M[j].children[k] - (base + 1)];
    }
  }

  /** Mirrored forests are blocks too, each tree's root pointing at `parent`. */
  lemma {:induction false} MirrorAllBlock(parent: nat, ds: seq<DomainNode>, next: nat)
    requires parent < next
    ensures ForestBlock(MirrorAll(parent, ds, next), parent, ds, next)
    decreases ds
  {
    if ds != [] {
      var next' := next + TreeSize(ds[0]);
      MirrorBlock(Some(parent), ds[0], next);
      MirrorAllBlock(parent, ds[1..], next');
      assert ChildIds(ds, next) == [next] + ChildIds(ds[1..], next');
      AppendForest(Mirror(Some(parent), ds[0], next), MirrorAll(parent, ds[1..], next'), parent, ds, next);
    }
  }

  /** A tree block followed by a forest block is a forest block. */
  lemma AppendForest(M0: seq<LNode>, R': seq<LNode>, parent: nat, ds: seq<DomainNode>, next: nat)
    requires ds != [] && parent < next
    requires Block(M0, next, Some(parent)) && |M0| == TreeSize(ds[0])
    requires ForestBlock(R', parent, ds[1..], next + |M0|)
    requires ChildIds(ds, next) == [next] + ChildIds(ds[1..], next + |M0|)
    ensures ForestBlock(M0 + R', parent, ds, next)
  {
    var next' := next + |M0|;
    var R := M0 + R';
    forall j | 0 <= j < |R|
      ensures R[j].parent.Some? && (R[j].parent.value == parent || next <= R[j].parent.value < next + j)
      ensures LinkedIn(R, next, j) && Ascending(R[j].children)
    {
      if j < |M0| {
        LinkedLeft(M0, R', next, j);
      } else {
        LinkedRight(M0, R', next, j - |M0|, j);
      }
    }
    RootsLinked(M0, R', ChildIds(ds[1..], next'), parent, next);
  }

  /** The first node of a tree block and the roots of the forest block after it all point
      at `parent`. */
  lemma RootsLinked(M0: seq<LNode>, R': seq<LNode>, roots': seq<nat>, parent: nat, next: nat)
    requires M0 != [] && M0[0].parent == Some(parent)
    requires forall k :: 0 <= k < |roots'| ==>
      next + |M0| <= roots'[k] < next + |M0| + |R'| && R'[roots'[k] - (next + |M0|)].parent == Some(parent)
    ensures var roots, R := [next] + roots', M0 + R';
      forall k :: 0 <= k < |roots| ==> next <= roots[k] < next + |R| && R[roots[k] - next].parent == Some(parent)
  {
    var roots, R := [next] + roots', M0 + R';
    forall k | 0 <= k < |roots|
      ensures next <= roots[k] < next + |R| && R[roots[k] - next].parent == Some(parent)
    {
      if k == 0 {
        assert R[0] == M0[0];
      } else {
        assert roots[k] == roots'[k - 1];
        assert R[roots[k] - next] == R'[roots'[k - 1] - (next + |M0|)];
      }
    }
  }

  /** A node linked inside a block stays linked once another block follows it. */
  lemma LinkedLeft(X: seq<LNode>, Y: seq<LNode>, base: nat, j: nat)
    requires j < |X| && LinkedIn(X, base, j)
    ensures (X + Y)[j] == X[j] && LinkedIn(X + Y, base, j)
  {
    var R := X + Y;
    forall k | 0 <= k < |X[j].children|
      ensures base + j < R[j].children[k] < base + |R| && R[R[j].children[k] - base].parent == Some(base + j)
    {
      assert R[X[j].children[k] - base] == X[X[j].children[k] - base];
    }
  }

  /** A node linked inside a block stays linked once another block is put before it. */
  lemma LinkedRight(X: seq<LNode>, Y: seq<LNode>, base: nat, j: nat, i: nat)
    requires j < |Y| && i == |X| + j && LinkedIn(Y, base + |X|, j)
    ensures (X + Y)[i] == Y[j] && LinkedIn(X + Y, base, i)
  {
    var R := X + Y;
    forall k | 0 <= k < |Y[j].children|
      ensures base + i < R[i].children[k] < base + |R| && R[R[i].children[k] - base].parent == Some(base + i)
    {
      assert R[Y[j].children[k] - base] == Y[Y[j].children[k] - (base + |X|)];
    }
  }

  /** `_make_layout_tree` builds a well-formed layout tree with one node per domain node. */
  lemma BuildWellFormed(root: DomainNode)
    ensures |Build(root)| == TreeSize(root)
    ensures WellFormed(Build(root))
  {
    MirrorBlock(None, root, 0);
  }

  /** Each node of the mirror `M` (numbered from `base`) stands for the domain node at the
      same place of the pre-order `F`, with its props, and its `k`-th child stands for that
      domain node's `k`-th child. */
  ghost predicate Matches(M: seq<LNode>, F: seq<DomainNode>, base: nat)
  {
    |M| == |F| && forall j :: 0 <= j < |M| ==> NodeMatches(M, F, base, j)
  }

  ghost predicate NodeMatches(M: seq<LNode>, F: seq<DomainNode>, base: nat, j: nat)
    requires j < |M| == |F|
  {
    && M[j].node == F[j].id && M[j].props == F[j].props && |M[j].children| == |F[j].children|
    && forall k :: 0 <= k < |M[j].children| ==>
         base <= M[j].children[k] < base + |M| && F[M[j].children[k] - base] == F[j].children[k]
  }

  ghost predicate ForestMatches(R: seq<LNode>, F: seq<DomainNode>, ds: seq<DomainNode>, next: nat)
  {
    Matches(R, F, next) && |F| == ForestSize(ds) && RootsAt(F, ds, next)
  }

  /** The mirrors of the forest `ds`, numbered from `next`, stand for the trees of `ds` in order. */
  ghost predicate RootsAt(F: seq<DomainNode>, ds: seq<DomainNode>, next: nat)
  {
    forall k :: 0 <= k < |ds| ==>
      next <= ChildIds(ds, next)[k] < next + |F| && F[ChildIds(ds, next)[k] - next] == ds[k]
  }

  /** The mirror of `d` matches `d`'s subtree in pre-order. */
  lemma {:induction false} MirrorMatches(top: Option<nat>, d: DomainNode, base: nat)
    ensures Matches(Mirror(top, d, base), Flatten(d), base)
    decreases d
  {
    MirrorAllMatches(base, d.children, base + 1);
    ConsMatches(LNode(top, d.id, d.props, ChildIds(d.children, base + 1)), d, MirrorAll(base, d.children, base + 1),
                FlattenAll(d.children), base);
  }

  lemma ConsMatches(h: LNode, d: DomainNode, R: seq<LNode>, F': seq<DomainNode>, base: nat)
    requires ForestMatches(R, F', d.children, base + 1)
    requires h.node == d.id && h.props == d.props && h.children == ChildIds(d.children, base + 1)
    ensures Matches([h] + R, [d] + F', base)
  {
    var M, F := [h] + R, [d] + F';
    assert RootsAt(F', d.children, base + 1);
    forall j | 0 <= j < |M|
      ensures NodeMatches(M, F, base, j)
    {
      if j == 0 {
        forall k | 0 <= k < |M[0].children|
          ensures base <= M[0].children[k] < base + |M| && F[M[0].children[k] - base] == F[0].children[k]
        {
          assert F[M[0].children[k] - base] == F'[M[0].children[k] - (base + 1)];
        }
      } else {
        assert M[j] == R[j - 1] && F[j] == F'[j - 1];
        assert NodeMatches(R, F', base + 1, j - 1);
        forall k | 0 <= k < |M[j].children|
          ensures base <= M[j].children[k] < base + |M| && F[M[j].children[k] - base] == F[j].children[k]
        {
          var c := R[j - 1].children[k];
          assert base + 1 <= c < base + 1 + |R| && F'[c - (base + 1)] == F'[j - 1].children[k];
          assert F[c - base] == F'[c - (base + 1)];
        }
      }
    }
  }

  lemma {:induction false} MirrorAllMatches(parent: nat, ds: seq<DomainNode>, next: nat)
    ensures ForestMatches(MirrorAll(parent, ds, next), FlattenAll(ds), ds, next)
    decreases ds
  {
    if ds != [] {
      var next' := next + TreeSize(ds[0]);
      MirrorMatches(Some(parent), ds[0], next);
      MirrorSize(Some(parent), ds[0], next);
      MirrorAllMatches(parent, ds[1..], next');
      assert ChildIds(ds, next) == [next] + ChildIds(ds[1..], next');
      ForestCons(Mirror(Some(parent), ds[0], next), Flatten(ds[0]), MirrorAll(parent, ds[1..], next'),
                 FlattenAll(ds[1..]), ds, next);
    }
  }

  /** A tree's mirror that matches it, followed by the mirror of the rest of the forest,
      matches the whole forest. */
  lemma ForestCons(M0: seq<LNode>, F0: seq<DomainNode>, R': seq<LNode>, F': seq<DomainNode>,
                   ds: seq<DomainNode>, next: nat)
    requires ds != [] && Matches(M0, F0, next) && |M0| == TreeSize(ds[0]) && F0 != [] && F0[0] == ds[0]
    requires ForestMatches(R', F', ds[1..], next + |M0|)
    requires ChildIds(ds, next) == [next] + ChildIds(ds[1..], next + |M0|)
    ensures ForestMatches(M0 + R', F0 + F', ds, next)
  {
    AppendMatches(M0, F0, R', F', next);
    AppendRoots(F0, F', ds, next);
  }

  lemma AppendMatches(M0: seq<LNode>, F0: seq<DomainNode>, R': seq<LNode>, F': seq<DomainNode>, next: nat)
    requires Matches(M0, F0, next) && Matches(R', F', next + |M0|)
    ensures Matches(M0 + R', F0 + F', next)
  {
    var next' := next + |M0|;
    var R, F := M0 + R', F0 + F';
    forall j | 0 <= j < |R|
      ensures NodeMatches(R, F, next, j)
    {
      if j < |M0| {
        assert R[j] == M0[j] && F[j] == F0[j];
        assert NodeMatches(M0, F0, next, j);
        forall k | 0 <= k < |R[j].children|
          ensures next <= R[j].children[k] < next + |R| && F[R[j].children[k] - next] == F[j].children[k]
        {
          var c := M0[j].children[k];
          assert next <= c < next + |M0| && F0[c - next] == F0[j].children[k];
          assert F[c - next] == F0[c - next];
        }
      } else {
        assert R[j] == R'[j - |M0|] && F[j] == F'[j - |M0|];
        assert NodeMatches(R', F', next', j - |M0|);
        forall k | 0 <= k < |R[j].children|
          ensures next <= R[j].children[k] < next + |R| && F[R[j].children[k] - next] == F[j].children[k]
        {
          var c := R'[j - |M0|].children[k];
          assert next' <= c < next' + |R'| && F'[c - next'] == F'[j - |M0|].children[k];
          assert F[c - next] == F'[c - next'];
        }
      }
    }
  }

  lemma AppendRoots(F0: seq<DomainNode>, F': seq<DomainNode>, ds: seq<DomainNode>, next: nat)
    requires ds != [] && F0 != [] && F0[0] == ds[0] && |F0| == TreeSize(ds[0])
    requires |F'| == ForestSize(ds[1..]) && RootsAt(F', ds[1..], next + |F0|)
    requires ChildIds(ds, next) == [next] + ChildIds(ds[1..], next + |F0|)
    ensures |F0 + F'| == ForestSize(ds) && RootsAt(F0 + F', ds, next)
  {
    var next' := next + |F0|;
    var F := F0 + F';
    forall k | 0 <= k < |ds|
      ensures next <= ChildIds(ds, next)[k] < next + |F| && F[ChildIds(ds, next)[k] - next] == ds[k]
    {
      if k > 0 {
        var c := ChildIds(ds[1..], next')[k - 1];
        assert ChildIds(ds, next)[k] == c;
        assert next' <= c < next' + |F'| && F'[c - next'] == ds[1..][k - 1];
        assert F[c - next] == F'[c - next'];
      }
    }
  }

  /** `_make_layout_tree` creates one LayoutNode per domain node, in pre-order: node `j`
      mirrors the `j`-th domain node, takes its props, and has the mirrors of its children,
      in the same order, as children; the root mirrors the root. */
  lemma BuildMatches(root: DomainNode)
    ensures Matches(Build(root), Flatten(root), 0)
    ensures Flatten(root)[0] == root
  {
    MirrorMatches(None, root, 0);
  }

  /** The indices `a`, `a + 1`, ..., `b - 1`. */
  function Range(a: nat, b: nat): (r: seq<nat>)
    requires a <= b
    ensures |r| == b - a && forall j :: 0 <= j < |r| ==> r[j] == a + j
  {
    seq(b - a, j requires 0 <= j < b - a => a + j)
  }

  lemma RangeCons(a: nat, m: nat, b: nat)
    requires a < m <= b
    ensures [a] + Range(a + 1, m) + Range(m, b) == Range(a, b)
  {
    var r := [a] + Range(a + 1, m) + Range(m, b);
    assert |r| == b - a;
    forall j | 0 <= j < |r|
      ensures r[j] == a + j
    {
      if j == 0 {
      } else if j < m - a {
        assert r[j] == Range(a + 1, m)[j - 1];
      } else {
        assert r[j] == Range(m, b)[j - (m - a)];
      }
    }
  }

  /** Every child index points forward, inside the tree: enough for walking it. */
  predicate ChildrenAfter(A: seq<LNode>)
  {
    forall i, k :: 0 <= i < |A| && 0 <= k < |A[i].children| ==> i < A[i].children[k] < |A|
  }

  lemma WellFormedChildrenAfter(A: seq<LNode>)
    requires WellFormed(A)
    ensures ChildrenAfter(A)
  {
    forall i, k | 0 <= i < |A| && 0 <= k < |A[i].children|
      ensures i < A[i].children[k] < |A|
    {
      assert LinkedIn(A, 0, i);
    }
  }

  /** `walk(node)`: the descendants of node `i` in pre-order, each child before its own
      descendants, and never `i` itself. Every one comes after `i`. */
  function Walk(A: seq<LNode>, i: nat): (r: seq<nat>)
    requires ChildrenAfter(A) && i < |A|
    ensures forall x :: x in r ==> i < x < |A|
    decreases |A| - i, |A[i].children| + 1
  {
    WalkFrom(A, i, 0)
  }

  /** The part of `walk(node)` that starts at node `i`'s `k`-th child. */
  function WalkFrom(A: seq<LNode>, i: nat, k: nat): (r: seq<nat>)
    requires ChildrenAfter(A) && i < |A| && k <= |A[i].children|
    ensures forall x :: x in r ==> i < x < |A|
    decreases |A| - i, |A[i].children| - k
  {
    if k == |A[i].children| then []
    else
      var c := A[i].children[k];
      [c] + Walk(A, c) + WalkFrom(A, i, k + 1)
  }

  lemma {:induction false} MirrorSize(top: Option<nat>, d: DomainNode, base: nat)
    ensures |Mirror(top, d, base)| == TreeSize(d)
    decreases d
  {
    MirrorAllSize(base, d.children, base + 1);
  }

  lemma {:induction false} MirrorAllSize(parent: nat, ds: seq<DomainNode>, next: nat)
    ensures |MirrorAll(parent, ds, next)| == ForestSize(ds)
    decreases ds
  {
    if ds != [] {
      MirrorSize(Some(parent), ds[0], next);
      MirrorAllSize(parent, ds[1..], next + TreeSize(ds[0]));
    }
  }

  /** Consecutive numbering: the `k`-th tree of a forest starts right after the previous
      one and ends inside the forest's range, the last one at its end. */
  lemma {:induction false} ChildIdsStep(ds: seq<DomainNode>, next: nat, k: nat)
    requires k < |ds|
    ensures var c := ChildIds(ds, next)[k];
      && next <= c && c + TreeSize(ds[k]) <= next + ForestSize(ds)
      && (k + 1 < |ds| ==> ChildIds(ds, next)[k + 1] == c + TreeSize(ds[k]))
      && (k + 1 == |ds| ==> c + TreeSize(ds[k]) == next + ForestSize(ds))
    decreases ds
  {
    var next' := next + TreeSize(ds[0]);
    assert ChildIds(ds, next) == [next] + ChildIds(ds[1..], next');
    if k == 0 {
      if |ds| > 1 {
        assert ChildIds(ds[1..], next')[0] == next';
      }
    } else {
      ChildIdsStep(ds[1..], next', k - 1);
    }
  }

  /** `M` sits in `A` from index `b` on. */
  ghost predicate EmbeddedAt(A: seq<LNode>, M: seq<LNode>, b: nat)
  {
    b + |M| <= |A| && forall j :: 0 <= j < |M| ==> A[b + j] == M[j]
  }

  lemma EmbedSplit(A: seq<LNode>, X: seq<LNode>, Y: seq<LNode>, b: nat)
    requires EmbeddedAt(A, X + Y, b)
    ensures EmbeddedAt(A, X, b) && EmbeddedAt(A, Y, b + |X|)
  {
    forall j | 0 <= j < |X|
      ensures A[b + j] == X[j]
    {
      assert (X + Y)[j] == X[j];
    }
    forall j | 0 <= j < |Y|
      ensures A[b + |X| + j] == Y[j]
    {
      assert (X + Y)[|X| + j] == Y[j];
    }
  }

  /** Inside an embedded forest, the `k`-th tree's mirror sits at its own number. */
  lemma {:induction false} EmbedChild(A: seq<LNode>, parent: nat, ds: seq<DomainNode>, next: nat, k: nat)
    requires k < |ds| && EmbeddedAt(A, MirrorAll(parent, ds, next), next)
    ensures EmbeddedAt(A, Mirror(Some(parent), ds[k], ChildIds(ds, next)[k]), ChildIds(ds, next)[k])
    decreases ds
  {
    var next' := next + TreeSize(ds[0]);
    var head := Mirror(Some(parent), ds[0], next);
    MirrorSize(Some(parent), ds[0], next);
    EmbedSplit(A, head, MirrorAll(parent, ds[1..], next'), next);
    assert ChildIds(ds, next) == [next] + ChildIds(ds[1..], next');
    if k > 0 {
      EmbedChild(A, parent, ds[1..], next', k - 1);
    }
  }

  /** An embedded mirror starts with the LayoutNode of `d`, followed by its children's mirrors. */
  lemma EmbedHead(A: seq<LNode>, top: Option<nat>, d: DomainNode, b: nat)
    requires EmbeddedAt(A, Mirror(top, d, b), b)
    ensures b + TreeSize(d) <= |A|
    ensures A[b] == LNode(top, d.id, d.props, ChildIds(d.children, b + 1))
    ensures EmbeddedAt(A, MirrorAll(b, d.children, b + 1), b + 1)
  {
    var h := LNode(top, d.id, d.props, ChildIds(d.children, b + 1));
    MirrorSize(top, d, b);
    assert Mirror(top, d, b) == [h] + MirrorAll(b, d.children, b + 1);
    EmbedSplit(A, [h], MirrorAll(b, d.children, b + 1), b);
    assert A[b + 0] == [h][0];
  }

  /** The walk of a mirrored subtree numbered from `b` lists the rest of its block in order. */
  lemma {:induction false} WalkMirror(A: seq<LNode>, top: Option<nat>, d: DomainNode, b: nat)
    requires ChildrenAfter(A) && EmbeddedAt(A, Mirror(top, d, b), b)
    ensures b + TreeSize(d) <= |A| && Walk(A, b) == Range(b + 1, b + TreeSize(d))
    decreases d, |d.children| + 1
  {
    MirrorSize(top, d, b);
    WalkFromMirror(A, top, d, b, 0);
    if d.children != [] {
      ChildIdsStep(d.children, b + 1, 0);
    }
  }

  lemma {:induction false} WalkFromMirror(A: seq<LNode>, top: Option<nat>, d: DomainNode, b: nat, k: nat)
    requires ChildrenAfter(A) && EmbeddedAt(A, Mirror(top, d, b), b)
    requires k <= |d.children|
    ensures b < |A| && A[b].children == ChildIds(d.children, b + 1)
    ensures var e := b + TreeSize(d);
      var start := if k < |d.children| then ChildIds(d.children, b + 1)[k] else e;
      start <= e && WalkFrom(A, b, k) == Range(start, e)
    decreases d, |d.children| - k
  {
    var e := b + TreeSize(d);
    EmbedHead(A, top, d, b);
    if k < |d.children| {
      var c := ChildIds(d.children, b + 1)[k];
      var t := TreeSize(d.children[k]);
      ChildIdsStep(d.children, b + 1, k);
      EmbedChild(A, b, d.children, b + 1, k);
      WalkMirror(A, Some(b), d.children[k], c);
      WalkFromMirror(A, top, d, b, k + 1);
      WalkFromJoin(A, b, k, ChildIds(d.children, b + 1), t, e);
    } else {
      assert |Range(e, e)| == 0;
    }
  }

  /** The walk from child `k` on holds exactly the children from `k` on and the walks
      from them. */
  lemma {:induction false} WalkFromMembers(A: seq<LNode>, i: nat, k: nat)
    requires ChildrenAfter(A) && i < |A| && k <= |A[i].children|
    ensures forall x :: x in WalkFrom(A, i, k) <==>
      exists m :: k <= m < |A[i].children| && (x == A[i].children[m] || x in Walk(A, A[i].children[m]))
    decreases |A[i].children| - k
  {
    if k < |A[i].children| {
      WalkFromMembers(A, i, k + 1);
      var c := A[i].children[k];
      assert WalkFrom(A, i, k) == [c] + Walk(A, c) + WalkFrom(A, i, k + 1);
    }
  }

  /** `walk(node)` yields the node's children and what the walks from them yield, and
      nothing else. */
  lemma WalkMembers(A: seq<LNode>, i: nat)
    requires ChildrenAfter(A) && i < |A|
    ensures forall x :: x in Walk(A, i) <==>
      exists m :: 0 <= m < |A[i].children| && (x == A[i].children[m] || x in Walk(A, A[i].children[m]))
  {
    WalkFromMembers(A, i, 0);
  }

  /** Each child of `i`, and everything the walk from it yields, is in the walk from `i`. */
  lemma WalkChild(A: seq<LNode>, i: nat, m: nat)
    requires ChildrenAfter(A) && i < |A| && m < |A[i].children|
    ensures A[i].children[m] in Walk(A, i)
    ensures forall x :: x in Walk(A, A[i].children[m]) ==> x in Walk(A, i)
  {
    WalkMembers(A, i);
  }

  /** Every node the walk from `c` yields is a child of `c` or of a node that walk yields. */
  lemma {:induction false} WalkIsChildren(A: seq<LNode>, c: nat, x: nat)
    requires ChildrenAfter(A) && c < |A| && x in Walk(A, c)
    ensures exists j, m :: 0 <= j < |A| && (j == c || j in Walk(A, c)) && 0 <= m < |A[j].children|
                           && A[j].children[m] == x
    decreases |A| - c
  {
    var ch := A[c].children;
    WalkMembers(A, c);
    var k :| 0 <= k < |ch| && (x == ch[k] || x in Walk(A, ch[k]));
    if x == ch[k] {
      assert A[c].children[k] == x;
    } else {
      WalkIsChildren(A, ch[k], x);
      var j, m :| 0 <= j < |A| && (j == ch[k] || j in Walk(A, ch[k])) && 0 <= m < |A[j].children| && A[j].children[m] == x;
      WalkChild(A, c, k);
      assert j in Walk(A, c);
    }
  }

  /** In a layout tree a node is the child of one node only, in one place. */
  lemma OneParent(A: seq<LNode>, j: nat, m: nat, j': nat, m': nat)
    requires WellFormed(A) && j < |A| && j' < |A|
    requires m < |A[j].children| && m' < |A[j'].children| && A[j].children[m] == A[j'].children[m']
    ensures j == j' && m == m'
  {
    assert LinkedIn(A, 0, j) && LinkedIn(A, 0, j');
    assert Ascending(A[j].children);
  }

  /** The walk from child `k` of node `b`, whose own walk covers the `t - 1` indices after
      it, followed by the walk from the next child (or nothing, the last child ending at
      `e`): together they cover the indices from child `k` to `e`. */
  lemma WalkFromJoin(A: seq<LNode>, b: nat, k: nat, ids: seq<nat>, t: nat, e: nat)
    requires ChildrenAfter(A) && b < |A| && A[b].children == ids && k < |ids| && t >= 1
    requires Walk(A, ids[k]) == Range(ids[k] + 1, ids[k] + t)
    requires k + 1 < |ids| ==> ids[k + 1] == ids[k] + t
    requires k + 1 == |ids| ==> ids[k] + t == e
    requires var start := if k + 1 < |ids| then ids[k + 1] else e;
      start <= e && WalkFrom(A, b, k + 1) == Range(start, e)
    ensures WalkFrom(A, b, k) == Range(ids[k], e)
  {
    WalkFromCons(A, b, k, ids[k] + t, e);
  }

  /** A child whose walk covers the indices up to `m`, followed by siblings covering the
      indices from `m` to `e`: together they cover the indices from the child to `e`. */
  lemma WalkFromCons(A: seq<LNode>, b: nat, k: nat, m: nat, e: nat)
    requires ChildrenAfter(A) && b < |A| && k < |A[b].children|
    requires A[b].children[k] < m <= e
    requires Walk(A, A[b].children[k]) == Range(A[b].children[k] + 1, m)
    requires WalkFrom(A, b, k + 1) == Range(m, e)
    ensures WalkFrom(A, b, k) == Range(A[b].children[k], e)
  {
    RangeCons(A[b].children[k], m, e);
  }

  /** `walk(root)` of the whole layout tree lists every node but the root, in index order. */
  lemma WalkAll(root: DomainNode)
    ensures ChildrenAfter(Build(root)) && Walk(Build(root), 0) == Range(1, |Build(root)|)
  {
    BuildWellFormed(root);
    WellFormedChildrenAfter(Build(root));
    MirrorSize(None, root, 0);
    WalkMirror(Build(root), None, root, 0);
  }

  /** `{it.node: it for it in ws}`: keyed by the mirrored domain node; when two entries
      share a key the later one wins. */
  function MapOf(A: seq<LNode>, ws: seq<nat>): map<nat, nat>
    requires forall t :: 0 <= t < |ws| ==> ws[t] < |A|
  {
    if ws == [] then map[]
    else MapOf(A, ws[..|ws| - 1])[A[ws[|ws| - 1]].node := ws[|ws| - 1]]
  }

  /** No later entry of `ws` mirrors the same domain node as entry `t`. */
  ghost predicate LastWith(A: seq<LNode>, ws: seq<nat>, t: nat)
    requires t < |ws| && forall t' :: 0 <= t' < |ws| ==> ws[t'] < |A|
  {
    forall u :: t < u < |ws| ==> A[ws[u]].node != A[ws[t]].node
  }

  /** The keys are the mirrored domain nodes; each maps to an entry of `ws` mirroring it,
      namely the last one. */
  lemma MapOfEntries(A: seq<LNode>, ws: seq<nat>)
    requires forall t :: 0 <= t < |ws| ==> ws[t] < |A|
    ensures MapOf(A, ws).Keys == set x | x in ws :: A[x].node
    ensures forall key :: key in MapOf(A, ws) ==> MapOf(A, ws)[key] in ws && A[MapOf(A, ws)[key]].node == key
    ensures forall t :: 0 <= t < |ws| && LastWith(A, ws, t) ==> MapOf(A, ws)[A[ws[t]].node] == ws[t]
  {
    MapOfKeys(A, ws);
    forall t | 0 <= t < |ws| && LastWith(A, ws, t)
      ensures MapOf(A, ws)[A[ws[t]].node] == ws[t]
    {
      MapOfLast(A, ws, t);
    }
  }

  lemma {:induction false} MapOfKeys(A: seq<LNode>, ws: seq<nat>)
    requires forall t :: 0 <= t < |ws| ==> ws[t] < |A|
    ensures MapOf(A, ws).Keys == set x | x in ws :: A[x].node
    ensures forall key :: key in MapOf(A, ws) ==> MapOf(A, ws)[key] in ws && A[MapOf(A, ws)[key]].node == key
  {
    if ws != [] {
      var ws', w := ws[..|ws| - 1], ws[|ws| - 1];
      assert ws == ws' + [w];
      MapOfKeys(A, ws');
    }
  }

  lemma {:induction false} MapOfLast(A: seq<LNode>, ws: seq<nat>, t: nat)
    requires forall t' :: 0 <= t' < |ws| ==> ws[t'] < |A|
    requires t < |ws| && LastWith(A, ws, t)
    ensures A[ws[t]].node in MapOf(A, ws) && MapOf(A, ws)[A[ws[t]].node] == ws[t]
  {
    var ws' := ws[..|ws| - 1];
    if t < |ws'| {
      assert A[ws[|ws| - 1]].node != A[ws[t]].node;
      assert LastWith(A, ws', t);
      MapOfLast(A, ws', t);
    }
  }

  /** `node_map(node)`: the walk's entries, then node `i` itself for its own domain node. */
  function NodeMap(A: seq<LNode>, i: nat): map<nat, nat>
    requires ChildrenAfter(A) && i < |A|
  {
    var ws := Walk(A, i);
    assert forall t :: 0 <= t < |ws| ==> ws[t] in ws;
    MapOf(A, ws)[A[i].node := i]
  }

  /** The node map covers the domain nodes of node `i`'s subtree, maps node `i`'s own domain
      node to `i`, and maps every key to a LayoutNode of the subtree mirroring it. */
  lemma NodeMapEntries(A: seq<LNode>, i: nat)
    requires ChildrenAfter(A) && i < |A|
    ensures NodeMap(A, i).Keys == {A[i].node} + set x | x in Walk(A, i) :: A[x].node
    ensures NodeMap(A, i)[A[i].node] == i
    ensures forall key :: key in NodeMap(A, i) ==>
      (NodeMap(A, i)[key] == i || NodeMap(A, i)[key] in Walk(A, i)) && A[NodeMap(A, i)[key]].node == key
  {
    var ws := Walk(A, i);
    assert forall t :: 0 <= t < |ws| ==> ws[t] in ws;
    MapOfEntries(A, ws);
  }

  /** For the layout tree of a diagram whose domain nodes are all distinct, `node_map(root)`
      sends every domain node to the LayoutNode mirroring it. */
  lemma NodeMapOfBuild(root: DomainNode)
    requires DistinctIds(Ids(Flatten(root)))
    ensures ChildrenAfter(Build(root))
    ensures forall j :: 0 <= j < |Flatten(root)| ==>
      Flatten(root)[j].id in NodeMap(Build(root), 0) && NodeMap(Build(root), 0)[Flatten(root)[j].id] == j
  {
    var A, F := Build(root), Flatten(root);
    WalkAll(root);
    BuildMatches(root);
    var ids, ws := Ids(F), Walk(A, 0);
    forall x | 0 <= x < |A|
      ensures A[x].node == ids[x]
    {
      assert NodeMatches(A, F, 0, x);
    }
    assert forall t :: 0 <= t < |ws| ==> ws[t] in ws;
    assert NodeMap(A, 0) == MapOf(A, ws)[A[0].node := 0];
    forall j | 0 <= j < |F|
      ensures ids[j] in NodeMap(A, 0) && NodeMap(A, 0)[ids[j]] == j
    {
      MapOfDistinct(A, ws, ids, j);
    }
  }

  /** When node `x` mirrors domain node `ids[x]`, those are distinct and the walk from the
      root is every other node in order, the node map sends `ids[j]` to `j`. */
  lemma MapOfDistinct(A: seq<LNode>, ws: seq<nat>, ids: seq<nat>, j: nat)
    requires |A| > 0 && ws == Range(1, |A|) && |ids| == |A| && DistinctIds(ids) && j < |A|
    requires forall x :: 0 <= x < |A| ==> A[x].node == ids[x]
    ensures var M := MapOf(A, ws)[A[0].node := 0]; ids[j] in M && M[ids[j]] == j
  {
    MapOfEntries(A, ws);
    if j > 0 {
      DistinctLast(A, ws, ids, j - 1);
      assert ids[0] != ids[j];
    }
  }

  /** When node `x` mirrors domain node `ids[x]` and those are distinct, the walk over
      nodes 1, 2, ... has no later entry mirroring the same domain node as entry `t`. */
  lemma DistinctLast(A: seq<LNode>, ws: seq<nat>, ids: seq<nat>, t: nat)
    requires |A| > 0 && ws == Range(1, |A|) && |ids| == |A| && DistinctIds(ids) && t < |ws|
    requires forall x :: 0 <= x < |A| ==> A[x].node == ids[x]
    ensures LastWith(A, ws, t)
  {
    forall u | t < u < |ws|
      ensures A[ws[u]].node != A[ws[t]].node
    {
      assert ws[u] == u + 1 && ws[t] == t + 1;
    }
  }

  function Ids(F: seq<DomainNode>): (r: seq<nat>)
    ensures |r| == |F| && forall j :: 0 <= j < |F| ==> r[j] == F[j].id
  {
    seq(|F|, j requires 0 <= j < |F| => F[j].id)
  }

  /** Every node's parent, if it has one, comes before it: enough for climbing the tree. */
  predicate ParentsBefore(A: seq<LNode>)
  {
    forall i :: 0 <= i < |A| && A[i].parent.Some? ==> A[i].parent.value < i
  }

  lemma WellFormedParentsBefore(A: seq<LNode>)
    requires WellFormed(A)
    ensures ParentsBefore(A)
  {
  }

  /** The chain of parents of node `i`, nearest first, up to the root. */
  function Ancestors(A: seq<LNode>, i: nat): (r: seq<nat>)
    requires ParentsBefore(A) && i < |A|
    ensures forall t :: 0 <= t < |r| ==> r[t] < i
    decreases i
  {
    match A[i].parent
    case None => []
    case Some(p) => [p] + Ancestors(A, p)
  }

  /** `real_parent`: the nearest ancestor that is not virtual; a parentless node (the root,
      or a node whose every ancestor is virtual) raises RuntimeError. */
  function RealParent(A: seq<LNode>, i: nat): Result<nat>
    requires ParentsBefore(A) && i < |A|
    decreases i
  {
    match A[i].parent
    case None => Err(NoRealParent)
    case Some(p) => if A[p].props.virtual then RealParent(A, p) else Ok(p)
  }

  /** The position of the first non-virtual node in `xs`, `|xs|` when all are virtual. */
  function FirstReal(A: seq<LNode>, xs: seq<nat>): (t: nat)
    requires forall u :: 0 <= u < |xs| ==> xs[u] < |A|
    ensures t <= |xs|
  {
    if xs == [] || !A[xs[0]].props.virtual then 0 else 1 + FirstReal(A, xs[1..])
  }

  /** Every node before that position is virtual, and the one at it is not. */
  lemma {:induction false} FirstRealIsFirst(A: seq<LNode>, xs: seq<nat>)
    requires forall u :: 0 <= u < |xs| ==> xs[u] < |A|
    ensures var t := FirstReal(A, xs);
      && (t < |xs| ==> !A[xs[t]].props.virtual)
      && forall u :: 0 <= u < t ==> A[xs[u]].props.virtual
  {
    if xs != [] && A[xs[0]].props.virtual {
      FirstRealIsFirst(A, xs[1..]);
      var t := FirstReal(A, xs);
      forall u | 0 <= u < t
        ensures A[xs[u]].props.virtual
      {
        if u > 0 {
          assert xs[u] == xs[1..][u - 1];
        }
      }
    }
  }

  /** The real parent is the first non-virtual entry of the ancestor chain; when every
      ancestor is virtual (the root has none) there is no real parent. */
  lemma {:induction false} RealParentIsNearestReal(A: seq<LNode>, i: nat)
    requires ParentsBefore(A) && i < |A|
    ensures var anc := Ancestors(A, i);
      var t := FirstReal(A, anc);
      RealParent(A, i) == if t < |anc| then Ok(anc[t]) else Err(NoRealParent)
    decreases i
  {
    match A[i].parent
    case None =>
    case Some(p) =>
      var anc' := Ancestors(A, p);
      FirstRealCons(A, p, anc');
      if A[p].props.virtual {
        RealParentIsNearestReal(A, p);
      }
  }

  /** Looking for the first real node of `[p] + xs`: `p` when it is real, otherwise one
      place on from the first real node of `xs`. */
  lemma FirstRealCons(A: seq<LNode>, p: nat, xs: seq<nat>)
    requires p < |A| && forall u :: 0 <= u < |xs| ==> xs[u] < |A|
    ensures var t, t' := FirstReal(A, [p] + xs), FirstReal(A, xs);
      && (!A[p].props.virtual ==> t == 0)
      && (A[p].props.virtual ==> t == t' + 1 && (t' < |xs| ==> ([p] + xs)[t] == xs[t']))
  {
    assert ([p] + xs)[1..] == xs;
  }
}
