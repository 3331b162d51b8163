/** The domain-tree builders (diagen/nodes.py): node alignment, children adopted from a
    `with` block, ports, edges and the port-slot allocator. */
module Nodes {
  import opened Utils
  import opened Props
  import Styles
  import StyleMap

  /** `Node.align(parent_align)`: the node's own alignment on each axis where it sets one,
      the parent's items alignment where it leaves it None. */
  function Align(own: (Option<real>, Option<real>), parentAlign: Pair): (r: Pair)
    ensures own.0.Some? ==> r.0 == own.0.value
    ensures own.0.None? ==> r.0 == parentAlign.0
    ensures own.1.Some? ==> r.1 == own.1.value
    ensures own.1.None? ==> r.1 == parentAlign.1
  {
    var a0 := if own.0.None? then parentAlign.0 else own.0.value;
    var a1 := if own.1.None? then parentAlign.1 else own.1.value;
    (a0, a1)
  }

  /** A node that sets both components ignores its parent; one that sets none inherits the
      parent's items alignment; resolving twice against the same parent changes nothing. */
  lemma AlignFallback(own: (Option<real>, Option<real>), p: Pair, q: Pair)
    ensures own.0.Some? && own.1.Some? ==> Align(own, p) == Align(own, q)
    ensures own == (None, None) ==> Align(own, p) == p
    ensures Align(own, Align(own, p)) == Align(own, p)
  {
  }

  // ---------------------------------------------------------------------------------------
  // Constructor arguments

  /** One positional argument of a node (`AnyNode`): a label line or a child node. */
  datatype Arg = Text(text: string) | Child(node: Node)

  /** The label lines among the arguments, in order. */
  function Labels(args: seq<Arg>): seq<string>
  {
    if args == [] then []
    else
      (if args[0].Text? then [args[0].text] else []) + Labels(args[1..])
  }

  /** The child nodes among the arguments, in order. */
  function Children(args: seq<Arg>): seq<Node>
  {
    if args == [] then []
    else
      (if args[0].Child? then [args[0].node] else []) + Children(args[1..])
  }

  /** The label lines are exactly the text arguments, and the children exactly the node
      arguments. */
  lemma {:induction false} SplitMembers(args: seq<Arg>)
    ensures forall t :: t in Labels(args) ==> Text(t) in args
    ensures forall i :: 0 <= i < |args| && args[i].Text? ==> args[i].text in Labels(args)
    ensures forall n :: n in Children(args) ==> Child(n) in args
    ensures forall i :: 0 <= i < |args| && args[i].Child? ==> args[i].node in Children(args)
  {
    if args != [] {
      SplitMembers(args[1..]);
      assert args == [args[0]] + args[1..];
      forall i | 1 <= i < |args|
        ensures args[i] == args[1..][i - 1]
      {
      }
    }
  }

  /** Every argument goes to exactly one of the two lists. */
  lemma {:induction false} SplitCount(a: seq<Arg>)
    ensures |Labels(a)| + |Children(a)| == |a|
  {
    if a != [] {
      SplitCount(a[1..]);
    }
  }

  /** Labels of a concatenation are the labels of each part in turn: the argument order
      is kept. */
  lemma {:induction false} LabelsAppend(a: seq<Arg>, b: seq<Arg>)
    ensures Labels(a + b) == Labels(a) + Labels(b)
  {
    if a == [] {
      assert a + b == b;
    } else {
      assert (a + b)[0] == a[0];
      assert (a + b)[1..] == a[1..] + b;
      var head := if a[0].Text? then [a[0].text] else [];
      assert Labels(a + b) == head + Labels(a[1..] + b);
      LabelsAppend(a[1..], b);
      assert Labels(a) == head + Labels(a[1..]);
    }
  }

  /** Children of a concatenation are the children of each part in turn. */
  lemma {:induction false} ChildrenAppend(a: seq<Arg>, b: seq<Arg>)
    ensures Children(a + b) == Children(a) + Children(b)
  {
    if a == [] {
      assert a + b == b;
    } else {
      assert (a + b)[0] == a[0];
      assert (a + b)[1..] == a[1..] + b;
      var head := if a[0].Child? then [a[0].node] else [];
      assert Children(a + b) == head + Children(a[1..] + b);
      ChildrenAppend(a[1..], b);
      assert Children(a) == head + Children(a[1..]);
    }
  }

  // ---------------------------------------------------------------------------------------
  // The children stack

  /** `_children_stack`: the list that newly created nodes are appended to, None while no
      `with` block (and no `isolate`) is open. */
  class Context {
    var current: Option<seq<Node>>

    constructor()
      ensures current == None
    {
      current := None;
    }
  }

  /** A context-variable token: the value a reset restores. */
  datatype Token = Token(previous: Option<seq<Node>>)

  /** The nodes among `created` that are already someone's explicit child. */
  ghost function AddedIn(created: seq<Node>): set<Node>
    reads created
  {
    set n | n in created && n.added
  }

  /** What `__exit__` appends: the nodes of `created` in creation order, skipping those
      in `added` and every repeat. */
  function Adopted(created: seq<Node>, added: set<Node>): seq<Node>
  {
    if created == [] then []
    else
      var front := created[..|created| - 1];
      var last := created[|created| - 1];
      Adopted(front, added) + (if last in added || last in front then [] else [last])
  }

  /** A node is adopted exactly when it was created in the block and is nobody's child. */
  lemma {:induction false} AdoptedMembers(created: seq<Node>, added: set<Node>, n: Node)
    ensures n in Adopted(created, added) <==> n in created && n !in added
  {
    if created != [] {
      var front := created[..|created| - 1];
      AdoptedMembers(front, added, n);
      assert created == front + [created[|created| - 1]];
    }
  }

  /** No node is adopted twice. */
  lemma {:induction false} AdoptedDistinct(created: seq<Node>, added: set<Node>)
    ensures var r := Adopted(created, added);
      forall i, j :: 0 <= i < j < |r| ==> r[i] != r[j]
  {
    if created != [] {
      var front := created[..|created| - 1];
      var last := created[|created| - 1];
      AdoptedDistinct(front, added);
      AdoptedMembers(front, added, last);
    }
  }

  /** Adoption runs in creation order: the nodes of a later part of the block are adopted
      after those of an earlier part, unless the earlier part already had them. */
  lemma {:induction false} AdoptedAppend(c1: seq<Node>, c2: seq<Node>, added: set<Node>)
    ensures Adopted(c1 + c2, added) == Adopted(c1, added) + Adopted(c2, added + set n | n in c1)
  {
    if c2 == [] {
      assert c1 + c2 == c1;
    } else {
      var front := c2[..|c2| - 1];
      var last := c2[|c2| - 1];
      AdoptedAppend(c1, front, added);
      assert (c1 + c2)[..|c1 + c2| - 1] == c1 + front;
      assert (c1 + c2)[|c1 + c2| - 1] == last;
      assert last in c1 + front <==> last in c1 || last in front;
    }
  }

  // ---------------------------------------------------------------------------------------
  // Nodes

  class Node {
    var id: string
    var props: Attrs
    var labelLines: seq<string>
    var children: seq<Node>
    var edges: seq<Edge>
    var added: bool
    var tokens: seq<Token>
    /** The `edge_positions` cache: None until first computed. */
    var positions: Option<seq<map<Edge, real>>>

    /** `Node.__init__` once `eval_props` has produced `props`: the arguments are split
        into label and children, every child is marked as added, and the node joins the
        open `with` block, if any. */
    constructor(props: Attrs, args: seq<Arg>, ctx: Context)
      modifies ctx, Children(args)`added
      ensures this.props == props && labelLines == Labels(args) && children == Children(args)
      ensures id == "" && edges == [] && !added && tokens == [] && positions == None
      ensures forall n :: n in Children(args) ==> n.added
      ensures ctx.current == if old(ctx.current).None? then None else Some(old(ctx.current).value + [this])
    {
      SplitMembers(args);
      id := "";
      this.props := props;
      labelLines := Labels(args);
      children := Children(args);
      edges := [];
      added := false;
      tokens := [];
      positions := None;
      new;
      forall n | n in children {
        n.added := true;
      }
      if ctx.current.Some? {
        ctx.current := Some(ctx.current.value + [this]);
      }
    }

    /** `__enter__`: a fresh list becomes the children stack; the token is kept. */
    method Enter(ctx: Context)
      modifies this`tokens, ctx
      ensures tokens == old(tokens) + [Token(old(ctx.current))]
      ensures ctx.current == Some([])
    {
      tokens := tokens + [Token(ctx.current)];
      ctx.current := Some([]);
    }

    /** `__exit__`: the list of the block is taken, the stack restored from the last
        token, and every node created in the block that is not yet anyone's child is
        marked and appended to this node's children, in creation order. */
    method Exit(ctx: Context)
      requires tokens != [] && ctx.current.Some?
      modifies this`tokens, this`children, ctx, (set n | n in ctx.current.value)`added
      ensures tokens == old(tokens)[..|old(tokens)| - 1]
      ensures ctx.current == old(tokens)[|old(tokens)| - 1].previous
      ensures children == old(children) + Adopted(old(ctx.current.value), old(AddedIn(ctx.current.value)))
      ensures forall n :: n in old(ctx.current.value) ==> n.added
    {
      var created := ctx.current.value;
      ghost var before := AddedIn(created);
      ctx.current := tokens[|tokens| - 1].previous;
      tokens := tokens[..|tokens| - 1];
      ghost var restored := ctx.current;
      ghost var remaining := tokens;
      for k := 0 to |created|
        invariant ctx.current == restored && tokens == remaining
        invariant children == old(children) + Adopted(created[..k], before)
        invariant forall n :: n in created ==> (n.added <==> n in before || n in created[..k])
      {
        var it := created[k];
        assert created[..k + 1][..k] == created[..k];
        if !it.added {
          it.added := true;
          children := children + [it];
        }
        assert created[..k + 1] == created[..k] + [it];
      }
      assert created[..|created|] == created;
    }

    /** `edge_positions`: for each side, the position of each edge's port on it along
        that side, computed from the node's current edges on first use and then served
        from the cache. */
    method EdgePositions() returns (r: seq<map<Edge, real>>)
      modifies this`positions
      ensures old(positions).Some? ==> r == old(positions).value && positions == old(positions)
      ensures old(positions).None? ==> r == Assigned(Slots(edges, this), |Slots(edges, this)|) && positions == Some(r)
    {
      if positions.Some? {
        return positions.value;
      }
      r := ComputePositions(Slots(edges, this));
      positions := Some(r);
    }
  }

  /** `isolate()` on entry: nodes created from now on go to a list no node adopts. */
  method IsolateEnter(ctx: Context) returns (token: Token)
    modifies ctx
    ensures token == Token(old(ctx.current)) && ctx.current == Some([])
  {
    token := Token(ctx.current);
    ctx.current := Some([]);
  }

  /** `isolate()` on exit: the enclosing block's list is restored. */
  method IsolateExit(ctx: Context, token: Token)
    modifies ctx
    ensures ctx.current == token.previous
  {
    ctx.current := token.previous;
  }

  /** Three nodes created in a block, the middle one already a child: the other two are
      adopted, in order. */
  lemma AdoptedExample(a: Node, b: Node, c: Node, added: set<Node>)
    requires a != b && b != c && a != c
    requires a !in added && b in added && c !in added
    ensures Adopted([a, b, c], added) == [a, c]
  {
    assert [a, b, c][..2] == [a, b];
    assert [a, b][..1] == [a];
    assert Adopted([a], added) == [a];
  }

  /** The body of the block below: `n1 = node()`, then `n3 = node()`, then
      `n2 = grid(n3)`, each joining the open block's list. */
  method ContextManagerBlock(p: Attrs, ctx: Context) returns (n1: Node, n2: Node, n3: Node)
    requires ctx.current == Some([])
    modifies ctx
    ensures fresh(n1) && fresh(n2) && fresh(n3) && n1 != n2 && n2 != n3 && n1 != n3
    ensures ctx.current == Some([n1, n3, n2])
    ensures !n1.added && n3.added && !n2.added && n2.children == [n3]
  {
    n1 := new Node(p, [], ctx);
    assert ctx.current.value == [n1];
    n3 := new Node(p, [], ctx);
    assert ctx.current.value == [n1, n3];
    assert Children([Child(n3)]) == [n3];
    n2 := new Node(p, [Child(n3)], ctx);
    assert ctx.current.value == [n1, n3, n2];
  }

  /** `with grid as s: n1 = node(); n2 = grid(n3 := node())`: `s` adopts `n1` and `n2`,
      but not `n3`, which is already `n2`'s explicit child. */
  method ContextManagerScenario(p: Attrs) returns (s: Node, n1: Node, n2: Node, n3: Node)
    ensures s.children == [n1, n2] && n2.children == [n3]
  {
    var ctx := new Context();
    s := new Node(p, [], ctx);
    assert s.children == [];
    s.Enter(ctx);
    n1, n2, n3 := ContextManagerBlock(p, ctx);
    AdoptedExample(n1, n3, n2, AddedIn([n1, n3, n2]));
    s.Exit(ctx);
    assert s.children == [] + [n1, n2];
  }

  /** A node created by a function called inside `with node as s` is adopted by `s`,
      unless the function runs under `isolate()`. */
  method IsolateScenario(p: Attrs, isolated: bool) returns (s: Node, inner: Node)
    ensures inner.labelLines == ["inner"]
    ensures s.children == if isolated then [] else [inner]
  {
    var ctx := new Context();
    s := new Node(p, [], ctx);
    s.Enter(ctx);
    if isolated {
      var token := IsolateEnter(ctx);
      inner := new Node(p, [Text("inner")], ctx);
      IsolateExit(ctx, token);
      assert ctx.current == Some([]);
    } else {
      inner := new Node(p, [Text("inner")], ctx);
      assert [] + [inner] == [inner];
      assert ctx.current == Some([inner]);
      assert AddedIn([inner]) == {};
    }
    s.Exit(ctx);
  }

  // ---------------------------------------------------------------------------------------
  // Ports

  /** A side of a node: 0 left, 1 top, 2 right, 3 bottom. */
  type Side = s: int | 0 <= s < 4

  datatype Port = Port(node: Node, side: Side, position: Option<real>, index: Option<int>,
                       classes: Option<seq<string>>)

  /** The key of `port[...]`: an int, a float, or a class list. */
  datatype PortKey = IndexKey(i: int) | PositionKey(x: real) | ClassKey(c: StyleMap.ClassList)

  /** The class names a port already carries (`self.classes or []`). */
  function PortClassNames(p: Port): seq<string>
  {
    if p.classes.Some? then p.classes.value else []
  }

  /** `Port.__getitem__`: a copy with the index set, the position set, or the class names
      appended. */
  function GetItem(p: Port, key: PortKey): Port
  {
    match key
    case IndexKey(i) => p.(index := Some(i))
    case PositionKey(x) => p.(position := Some(x))
    case ClassKey(c) => p.(classes := Some(PortClassNames(p) + StyleMap.Names(c)))
  }

  /** Indexing keeps the node and the side and changes one field only: an int sets the
      index, a float the position, a class list appends to the classes. */
  lemma GetItemChanges(p: Port, key: PortKey)
    ensures var r := GetItem(p, key);
      r.node == p.node && r.side == p.side &&
      (r.index != p.index ==> key.IndexKey?) &&
      (r.position != p.position ==> key.PositionKey?) &&
      (r.classes != p.classes ==> key.ClassKey?)
    ensures key.IndexKey? ==> GetItem(p, key).index == Some(key.i)
    ensures key.PositionKey? ==> GetItem(p, key).position == Some(key.x)
    ensures key.ClassKey? ==> PortClassNames(GetItem(p, key)) == PortClassNames(p) + StyleMap.Names(key.c)
  {
  }

  /** Index and position can be given in either order. */
  lemma GetItemCommutes(p: Port, i: int, x: real)
    ensures GetItem(GetItem(p, IndexKey(i)), PositionKey(x)) == GetItem(GetItem(p, PositionKey(x)), IndexKey(i))
  {
  }

  /** A second index replaces the first, and a second position the first. */
  lemma GetItemOverrides(p: Port, i: int, j: int, x: real, y: real)
    ensures GetItem(GetItem(p, IndexKey(i)), IndexKey(j)) == GetItem(p, IndexKey(j))
    ensures GetItem(GetItem(p, PositionKey(x)), PositionKey(y)) == GetItem(p, PositionKey(y))
  {
  }

  /** Class lists accumulate: indexing by two lists in turn is indexing by their
      concatenation. */
  lemma GetItemAccumulates(p: Port, c: StyleMap.ClassList, d: StyleMap.ClassList)
    ensures GetItem(GetItem(p, ClassKey(c)), ClassKey(d)) ==
      GetItem(p, ClassKey(StyleMap.ClassNames(StyleMap.Names(c) + StyleMap.Names(d))))
  {
    var nc, nd := StyleMap.Names(c), StyleMap.Names(d);
    assert StyleMap.Names(StyleMap.ClassNames(nc + nd)) == nc + nd;
    var r1 := p.(classes := Some(PortClassNames(p) + nc));
    assert GetItem(p, ClassKey(c)) == r1;
    assert PortClassNames(r1) + nd == PortClassNames(p) + (nc + nd);
  }

  // ---------------------------------------------------------------------------------------
  // Edges

  /** An end of an edge: a node itself or one of its ports (`AnyEdgePort`). */
  datatype End = NodeEnd(n: Node) | PortEnd(port: Port)

  /** `node_ref`: the node an end belongs to. */
  function NodeOf(e: End): Node
  {
    if e.NodeEnd? then e.n else e.port.node
  }

  class Edge {
    var id: string
    var props: StyleMap.Record
    const source: End
    const target: End
    const labelLines: seq<string>

    constructor(props: StyleMap.Record, source: End, target: End, lines: seq<string>)
      ensures id == "" && this.props == props
      ensures this.source == source && this.target == target && this.labelLines == lines
    {
      id := "";
      this.props := props;
      this.source := source;
      this.target := target;
      this.labelLines := lines;
    }

    /** `_apply_port_styles(port, prefix)`: a port end's classes, each prefixed, resolved
        into the edge's record in place. */
    method ApplyPortStyles(end: End, prefix: string, sm: StyleMap.StyleMap, fuel: StyleMap.Fuel)
      returns (fault: Option<Fault>)
      requires sm.Valid()
      modifies props, sm`ruleCache, sm.cache
      ensures sm.Valid()
      ensures StyleMap.Run(props.attrs, fault) ==
        StyleMap.ApplyClasses(sm.styles, sm.rules, PortClasses(end, prefix), old(props.attrs), fuel)
    {
      if end.PortEnd? && end.port.classes.Some? && end.port.classes.value != [] {
        var r;
        r, fault := sm.ResolveClasses(StyleMap.ClassNames(Prefixed(prefix, end.port.classes.value)), props, fuel);
      } else {
        fault := None;
      }
    }
  }

  function Prefixed(prefix: string, names: seq<string>): (r: seq<string>)
    ensures |r| == |names| && forall i :: 0 <= i < |names| ==> r[i] == prefix + names[i]
  {
    seq(|names|, i requires 0 <= i < |names| => prefix + names[i])
  }

  /** The prefixed class names an end contributes: none for a plain node end. */
  function PortClasses(end: End, prefix: string): seq<string>
  {
    if end.PortEnd? && end.port.classes.Some? then Prefixed(prefix, end.port.classes.value) else []
  }

  /** The record after the start styles and then, unless they raised, the end styles. */
  function PortStyled(styles: Dict.Dict<string, Attrs>, rules: seq<StyleMap.Rule>, attrs: Attrs,
                      source: End, target: End, fuel: StyleMap.Fuel): StyleMap.Run
  {
    var start := StyleMap.ApplyClasses(styles, rules, PortClasses(source, "start-"), attrs, fuel);
    if start.fault.Some? then start
    else StyleMap.ApplyClasses(styles, rules, PortClasses(target, "end-"), start.attrs, fuel)
  }

  /** `Edge.__init__`: the edge registers with the source's node, applies the source
      port's classes with prefix 'start-', registers with the target's node, applies the
      target port's classes with prefix 'end-', and finally evaluates its record. The
      caller's record is updated in place by the port styles; evaluation makes a new one.
      `fault` is the exception the constructor raises, if any: the caller then gets no
      edge, but the registrations and record updates made before it remain. */
  method NewEdge(record: StyleMap.Record, source: End, target: End, lines: seq<string>,
                 sm: StyleMap.StyleMap, fuel: StyleMap.Fuel)
    returns (e: Edge, fault: Option<Fault>)
    requires sm.Valid()
    modifies NodeOf(source)`edges, NodeOf(target)`edges, record, sm`ruleCache, sm.cache
    ensures sm.Valid()
    ensures fresh(e) && e.id == "" && e.source == source && e.target == target && e.labelLines == lines
    ensures var run := PortStyled(sm.styles, sm.rules, old(record.attrs), source, target, fuel);
      var eval := Styles.EvalEdgeProps(run.attrs);
      record.attrs == run.attrs &&
      fault == (if run.fault.Some? then run.fault else if eval.Err? then Some(eval.fault) else None) &&
      (fault.Some? ==> e.props == record) &&
      (fault.None? ==> fresh(e.props) && e.props.attrs == eval.value)
    ensures var reached := StyleMap.ApplyClasses(sm.styles, sm.rules, PortClasses(source, "start-"), old(record.attrs), fuel).fault.None?;
      var s := NodeOf(source);
      var t := NodeOf(target);
      (s != t ==> s.edges == old(s.edges) + [e] && t.edges == old(t.edges) + (if reached then [e] else [])) &&
      (s == t ==> s.edges == old(s.edges) + [e] + (if reached then [e] else []))
  {
    e := new Edge(record, source, target, lines);
    var s := NodeOf(source);
    s.edges := s.edges + [e];
    fault := e.ApplyPortStyles(source, "start-", sm, fuel);
    if fault.Some? {
      return;
    }
    var t := NodeOf(target);
    t.edges := t.edges + [e];
    fault := e.ApplyPortStyles(target, "end-", sm, fuel);
    if fault.Some? {
      return;
    }
    var eval := Styles.EvalEdgeProps(e.props.attrs);
    if eval.Err? {
      fault := Some(eval.fault);
      return;
    }
    e.props := new StyleMap.Record(eval.value);
  }

  /** `Edge.node_ports(node)`: the edge's ends that are ports on `node`, source first. */
  function NodePorts(e: Edge, n: Node): (r: seq<Port>)
    ensures |r| <= 2
    ensures forall p :: p in r ==> (PortEnd(p) == e.source || PortEnd(p) == e.target) && p.node == n
    ensures e.source.PortEnd? && e.source.port.node == n ==> e.source.port in r
    ensures e.target.PortEnd? && e.target.port.node == n ==> e.target.port in r
  {
    (if e.source.PortEnd? && e.source.port.node == n then [e.source.port] else []) +
    (if e.target.PortEnd? && e.target.port.node == n then [e.target.port] else [])
  }

  // ---------------------------------------------------------------------------------------
  // The port-slot allocator

  /** One port of one of the node's edges, in the order `edge_positions` visits them. */
  datatype Slot = Slot(edge: Edge, port: Port)

  /** The (edge, port) pairs of the node's edges that are ports on the node: for each edge
      in turn, its `node_ports`. */
  function Slots(edges: seq<Edge>, n: Node): seq<Slot>
  {
    if edges == [] then []
    else
      var ports := NodePorts(edges[0], n);
      seq(|ports|, i requires 0 <= i < |ports| => Slot(edges[0], ports[i])) + Slots(edges[1..], n)
  }

  /** A port that names neither a position nor an index takes the next free slot. */
  predicate Free(p: Port)
  {
    p.position.None? && p.index.None?
  }

  /** `count[s]` after the first `k` slots. */
  function Count(ss: seq<Slot>, k: nat, s: Side): nat
    requires k <= |ss|
  {
    if k == 0 then 0 else Count(ss, k - 1, s) + (if ss[k - 1].port.side == s then 1 else 0)
  }

  /** `reserved[s]` after the first `k` slots: the indices named on side `s`. */
  function Reserved(ss: seq<Slot>, k: nat, s: Side): set<int>
    requires k <= |ss|
  {
    if k == 0 then {}
    else
      var p := ss[k - 1].port;
      Reserved(ss, k - 1, s) + (if p.side == s && p.index.Some? then {p.index.value} else {})
  }

  /** `maxidx1[s]` after the first `k` slots: one more than the largest index named on
      side `s`, and at least 0. */
  function MaxIdx1(ss: seq<Slot>, k: nat, s: Side): int
    requires k <= |ss|
  {
    if k == 0 then 0
    else
      var p := ss[k - 1].port;
      var m := MaxIdx1(ss, k - 1, s);
      if p.side == s && p.index.Some? then Max(m, p.index.value + 1) else m
  }

  /** The divisor on side `s`: `max(count, maxidx1) + 1`. */
  function Denominator(ss: seq<Slot>, s: Side): int
  {
    Max(Count(ss, |ss|, s), MaxIdx1(ss, |ss|, s)) + 1
  }

  /** `while c in reserved: c += 1`, with every reserved number passed over dropped from
      the set, so that the set shrinks at each step. */
  function FirstFree(c: int, reserved: set<int>): (r: int)
    ensures r >= c && r !in reserved
    decreases |reserved|
  {
    if c in reserved then FirstFree(c + 1, reserved - {c}) else c
  }

  /** Every number the search passes over is reserved. */
  lemma {:induction false} FirstFreeSkips(c: int, reserved: set<int>, x: int)
    requires c <= x < FirstFree(c, reserved)
    ensures x in reserved
    decreases |reserved|
  {
    if x != c {
      FirstFreeSkips(c + 1, reserved - {c}, x);
    }
  }

  /** `counter[s]` after the first `k` slots: a free port on side `s` moves it one past
      the first unreserved number from its current value. */
  function Counter(ss: seq<Slot>, k: nat, s: Side): (r: int)
    requires k <= |ss|
    ensures r >= 0
  {
    if k == 0 then 0
    else
      var c := Counter(ss, k - 1, s);
      var p := ss[k - 1].port;
      if p.side == s && Free(p) then FirstFree(c, Reserved(ss, |ss|, s)) + 1 else c
  }

  /** The slot number a free port `j` takes. */
  function FreeSlot(ss: seq<Slot>, j: nat): int
    requires j < |ss|
  {
    var s := ss[j].port.side;
    FirstFree(Counter(ss, j, s), Reserved(ss, |ss|, s))
  }

  /** The position the allocator gives slot `j`: its own position if it has one, else its
      slot number (its index or its free slot) plus one over the side's denominator. */
  function SlotValue(ss: seq<Slot>, j: nat): real
    requires j < |ss|
  {
    var p := ss[j].port;
    if p.position.Some? then p.position.value
    else
      var c := if p.index.Some? then p.index.value else FreeSlot(ss, j);
      (c + 1) as real / Denominator(ss, p.side) as real
  }

  /** The four side maps after the first `k` slots: each slot's edge is (re)assigned its
      value on its side. */
  function Assigned(ss: seq<Slot>, k: nat): (r: seq<map<Edge, real>>)
    requires k <= |ss|
    ensures |r| == 4
  {
    if k == 0 then [map[], map[], map[], map[]]
    else
      var m := Assigned(ss, k - 1);
      var s := ss[k - 1].port.side;
      m[s := m[s][ss[k - 1].edge := SlotValue(ss, k - 1)]]
  }

  /** The first pass of `edge_positions`: `count`, `reserved` and `maxidx1` per side. */
  method CountPorts(ss: seq<Slot>) returns (count: seq<int>, maxidx1: seq<int>, reserved: seq<set<int>>)
    ensures |count| == 4 && |maxidx1| == 4 && |reserved| == 4
    ensures forall s: Side :: count[s] == Count(ss, |ss|, s)
    ensures forall s: Side :: reserved[s] == Reserved(ss, |ss|, s)
    ensures forall s: Side :: maxidx1[s] == MaxIdx1(ss, |ss|, s)
  {
    count := [0, 0, 0, 0];
    maxidx1 := [0, 0, 0, 0];
    reserved := [{}, {}, {}, {}];
    for k := 0 to |ss|
      invariant |count| == 4 && |maxidx1| == 4 && |reserved| == 4
      invariant forall s: Side :: count[s] == Count(ss, k, s)
      invariant forall s: Side :: reserved[s] == Reserved(ss, k, s)
      invariant forall s: Side :: maxidx1[s] == MaxIdx1(ss, k, s)
    {
      var p := ss[k].port;
      var s := p.side;
      count := count[s := count[s] + 1];
      if p.index.Some? {
        reserved := reserved[s := reserved[s] + {p.index.value}];
        maxidx1 := maxidx1[s := Max(maxidx1[s], p.index.value + 1)];
      }
    }
  }

  /** `edge_positions` over the node's slots: the counting pass, then the assigning pass,
      which gives each port its position, its index's slot or the next free slot. */
  method ComputePositions(ss: seq<Slot>) returns (result: seq<map<Edge, real>>)
    ensures result == Assigned(ss, |ss|)
  {
    var count, maxidx1, reserved := CountPorts(ss);
    var counter := [0, 0, 0, 0];
    result := [map[], map[], map[], map[]];
    for k := 0 to |ss|
      invariant |counter| == 4 && |result| == 4
      invariant forall s: Side :: counter[s] == Counter(ss, k, s)
      invariant result == Assigned(ss, k)
    {
      var p := ss[k].port;
      var s := p.side;
      if p.position.Some? {
        result := result[s := result[s][ss[k].edge := p.position.value]];
      } else {
        var c;
        if p.index.None? {
          c := NextFree(counter[s], reserved[s]);
          counter := counter[s := c + 1];
        } else {
          c := p.index.value;
        }
        result := result[s := result[s][ss[k].edge := (c + 1) as real / (Max(count[s], maxidx1[s]) + 1) as real]];
      }
    }
  }

  /** The inner `while c in reserved[s]: c += 1` loop. */
  method NextFree(start: int, reserved: set<int>) returns (c: int)
    ensures c == FirstFree(start, reserved)
  {
    c := start;
    ghost var left := reserved;
    while c in reserved
      invariant left <= reserved
      invariant forall x :: x in reserved && x >= c ==> x in left
      invariant FirstFree(c, left) == FirstFree(start, reserved)
      decreases |left|
    {
      left := left - {c};
      c := c + 1;
    }
  }

  // ---------------------------------------------------------------------------------------
  // What the allocator promises

  /** Each edge appears on a side exactly when it has a port there, with the value of its
      last such port: a given position verbatim, otherwise slot number plus one over
      `max(count, maxidx1) + 1`, the slot number being the port's index or its free
      slot. */
  lemma {:induction false} AssignedLast(ss: seq<Slot>, k: nat, j: nat)
    requires j < k <= |ss|
    requires forall i :: j < i < k ==> ss[i].edge != ss[j].edge || ss[i].port.side != ss[j].port.side
    ensures var p := ss[j].port;
      var m := Assigned(ss, k)[p.side];
      ss[j].edge in m &&
      m[ss[j].edge] == if p.position.Some? then p.position.value
        else ((if p.index.Some? then p.index.value else FreeSlot(ss, j)) + 1) as real /
             (Max(Count(ss, |ss|, p.side), MaxIdx1(ss, |ss|, p.side)) + 1) as real
  {
    if k - 1 != j {
      AssignedLast(ss, k - 1, j);
    }
  }

  /** No edge appears on a side where it has no port. */
  lemma {:induction false} AssignedOnly(ss: seq<Slot>, k: nat, s: Side, e: Edge)
    requires k <= |ss|
    requires e in Assigned(ss, k)[s]
    ensures exists j :: 0 <= j < k && ss[j].edge == e && ss[j].port.side == s
  {
    if k > 0 {
      var last := ss[k - 1];
      if !(last.edge == e && last.port.side == s) {
        AssignedOnly(ss, k - 1, s, e);
      }
    }
  }

  /** The counter never goes down. */
  lemma {:induction false} CounterMonotone(ss: seq<Slot>, a: nat, b: nat, s: Side)
    requires a <= b <= |ss|
    ensures Counter(ss, a, s) <= Counter(ss, b, s)
    decreases b
  {
    if a < b {
      CounterMonotone(ss, a, b - 1, s);
    }
  }

  /** Free ports on a side get increasing, hence pairwise distinct, non-negative slot
      numbers, none of them reserved. */
  lemma FreeSlots(ss: seq<Slot>, i: nat, j: nat)
    requires i < j < |ss|
    requires Free(ss[i].port) && Free(ss[j].port) && ss[i].port.side == ss[j].port.side
    ensures 0 <= FreeSlot(ss, i) < FreeSlot(ss, j)
    ensures FreeSlot(ss, j) !in Reserved(ss, |ss|, ss[j].port.side)
  {
    CounterMonotone(ss, i + 1, j, ss[j].port.side);
  }

  /** Free ports on side `s` among the first `k` slots. */
  function FreeCount(ss: seq<Slot>, k: nat, s: Side): nat
    requires k <= |ss|
  {
    if k == 0 then 0
    else FreeCount(ss, k - 1, s) + (if ss[k - 1].port.side == s && Free(ss[k - 1].port) then 1 else 0)
  }

  /** Indexed ports on side `s` among the first `k` slots. */
  function IndexedCount(ss: seq<Slot>, k: nat, s: Side): nat
    requires k <= |ss|
  {
    if k == 0 then 0
    else IndexedCount(ss, k - 1, s) + (if ss[k - 1].port.side == s && ss[k - 1].port.index.Some? then 1 else 0)
  }

  /** The reserved numbers in `[lo, hi)`. */
  function Below(reserved: set<int>, lo: int, hi: int): set<int>
  {
    set x | x in reserved && lo <= x < hi
  }

  lemma {:induction false} CountParts(ss: seq<Slot>, k: nat, s: Side)
    requires k <= |ss|
    ensures FreeCount(ss, k, s) + IndexedCount(ss, k, s) <= Count(ss, k, s)
  {
    if k > 0 {
      CountParts(ss, k - 1, s);
    }
  }

  lemma {:induction false} ReservedSize(ss: seq<Slot>, k: nat, s: Side)
    requires k <= |ss|
    ensures |Reserved(ss, k, s)| <= IndexedCount(ss, k, s)
  {
    if k > 0 {
      ReservedSize(ss, k - 1, s);
      var p := ss[k - 1].port;
      if p.side == s && p.index.Some? {
        var r := Reserved(ss, k - 1, s);
        assert |r + {p.index.value}| <= |r| + 1 by {
          assert |r + {p.index.value}| + |r * {p.index.value}| == |r| + |{p.index.value}|;
        }
      }
    }
  }

  /** The integers in `[lo, hi)`. */
  function Range(lo: int, hi: int): (r: set<int>)
    ensures forall x :: x in r <==> lo <= x < hi
    ensures |r| == if lo <= hi then hi - lo else 0
    decreases hi - lo
  {
    if lo >= hi then {} else Range(lo, hi - 1) + {hi - 1}
  }

  lemma BelowSplit(reserved: set<int>, a: int, b: int, c: int)
    requires a <= b <= c
    ensures |Below(reserved, a, c)| == |Below(reserved, a, b)| + |Below(reserved, b, c)|
  {
    assert Below(reserved, a, c) == Below(reserved, a, b) + Below(reserved, b, c);
    assert Below(reserved, a, b) * Below(reserved, b, c) == {};
  }

  /** The search from `c` passes over exactly the reserved numbers in `[c, FirstFree(c))`. */
  lemma FirstFreeGap(c: int, reserved: set<int>)
    ensures |Below(reserved, c, FirstFree(c, reserved))| == FirstFree(c, reserved) - c
  {
    var ff := FirstFree(c, reserved);
    forall x | c <= x < ff
      ensures x in reserved
    {
      FirstFreeSkips(c, reserved, x);
    }
    assert Below(reserved, c, ff) == Range(c, ff);
  }

  lemma SubsetSize(a: set<int>, b: set<int>)
    requires a <= b
    ensures |a| <= |b|
  {
    assert b == a + (b - a);
    assert a * (b - a) == {};
  }

  /** Every number below the counter was either handed to a free port or is reserved. */
  lemma {:induction false} CounterTally(ss: seq<Slot>, k: nat, s: Side)
    requires k <= |ss|
    ensures Counter(ss, k, s) == FreeCount(ss, k, s) + |Below(Reserved(ss, |ss|, s), 0, Counter(ss, k, s))|
  {
    var r := Reserved(ss, |ss|, s);
    if k == 0 {
      assert Below(r, 0, 0) == {};
    } else {
      CounterTally(ss, k - 1, s);
      var p := ss[k - 1].port;
      if p.side == s && Free(p) {
        var c := Counter(ss, k - 1, s);
        var ff := FirstFree(c, r);
        FirstFreeGap(c, r);
        BelowSplit(r, 0, c, ff);
        BelowSplit(r, 0, ff, ff + 1);
        assert Below(r, ff, ff + 1) == {};
      }
    }
  }

  /** A free port's slot number stays below the number of ports on its side. */
  lemma FreeSlotBound(ss: seq<Slot>, j: nat)
    requires j < |ss| && Free(ss[j].port)
    ensures FreeSlot(ss, j) + 1 <= Count(ss, |ss|, ss[j].port.side)
  {
    var s := ss[j].port.side;
    var n := |ss|;
    var r := Reserved(ss, n, s);
    CounterMonotone(ss, j + 1, n, s);
    CounterTally(ss, n, s);
    SubsetSize(Below(r, 0, Counter(ss, n, s)), r);
    ReservedSize(ss, n, s);
    CountParts(ss, n, s);
  }

  /** An index named on a side is below that side's `maxidx1`. */
  lemma {:induction false} MaxIdx1Bound(ss: seq<Slot>, k: nat, j: nat)
    requires j < k <= |ss| && ss[j].port.index.Some?
    ensures ss[j].port.index.value + 1 <= MaxIdx1(ss, k, ss[j].port.side)
  {
    if k - 1 != j {
      MaxIdx1Bound(ss, k - 1, j);
    }
  }

  /** With non-negative indices, every position the allocator computes (one not given
      verbatim) lies strictly between 0 and 1. */
  lemma SlotValueInside(ss: seq<Slot>, j: nat)
    requires j < |ss| && ss[j].port.position.None?
    requires ss[j].port.index.Some? ==> ss[j].port.index.value >= 0
    ensures 0.0 < SlotValue(ss, j) < 1.0
  {
    var p := ss[j].port;
    var c := if p.index.Some? then p.index.value else FreeSlot(ss, j);
    var d := Denominator(ss, p.side);
    if p.index.Some? {
      MaxIdx1Bound(ss, |ss|, j);
    } else {
      FreeSlotBound(ss, j);
    }
    assert 0 <= c && c + 1 < d;
    assert SlotValue(ss, j) == (c + 1) as real / d as real;
    FractionInside((c + 1) as real, d as real);
  }

  lemma FractionInside(a: real, b: real)
    requires 0.0 < a < b
    ensures 0.0 < a / b < 1.0
  {
    var q := a / b;
    assert q * b == a;
    if q >= 1.0 {
      assert false;
    }
  }
}
