/** The draw.io element tree (diagen/drawio.py): style strings, the cells and geometries of
    nodes, ports and edges, and the numbering of nodes and edges that have no id. Writing
    the tree out as XML and compressing it are not part of this model. */
module Drawio {
  import opened Utils
  import opened Dict
  import opened Text
  import opened Props
  import C4
  import StyleMap
  import Nodes

  /** `element(tag, attrs, children)`; attribute values are the strings written out. */
  datatype Element = Element(tag: string, attrs: Dict<string, string>, children: seq<Element>)

  /** `str(x)` for a coordinate or a size. Python's float formatting is not modelled, so
      the text of a number is a parameter. */
  type RealText = real -> string

  // ---------------------------------------------------------------- style strings

  /** `f'{v}'` for one style value; a list prints as Python's `repr` of a list of strings. */
  function ValueText(v: StyleValue, realText: RealText): string
  {
    match v
    case SInt(i) => IntToString(i)
    case SReal(r) => realText(r)
    case SStr(s) => s
    case SList(items) => "[" + Join(seq(|items|, i requires 0 <= i < |items| => "'" + items[i] + "'"), ", ") + "]"
  }

  /** The `key=value` items of a style, in dict order. */
  function StyleItems(style: Style, realText: RealText): (items: seq<string>)
    ensures |items| == |style|
    ensures forall i {:trigger items[i]} :: 0 <= i < |style| ==> items[i] == style[i].0 + "=" + ValueText(style[i].1, realText)
  {
    if style == [] then [] else [style[0].0 + "=" + ValueText(style[0].1, realText)] + StyleItems(style[1..], realText)
  }

  /** `style_to_str(style)`: '' for an empty style, otherwise the items joined by ';'. */
  function StyleToStr(style: Style, realText: RealText): string
  {
    if style == [] then "" else Join(StyleItems(style, realText), ";")
  }

  /** An entry `get_style` can read back: a string value, and no separator where it
      would be misread. */
  predicate Plain(entry: (string, StyleValue))
  {
    entry.1.SStr? && '=' !in entry.0 && ';' !in entry.0 && ';' !in entry.1.s
  }

  /** In a dict with distinct keys, no entry's key occurs before it. */
  lemma NewKey(style: Style, n: nat)
    requires Distinct(style) && n < |style|
    ensures !HasKey(style[..n], style[n].0)
  {
    var front := style[..n];
    forall i | 0 <= i < |front|
      ensures Keys(front)[i] != style[n].0
    {
      assert front[i] == style[i];
    }
  }

  /** The items of a plain style parse back, prefix by prefix, into the style. */
  lemma {:induction false} ParseStyleItems(style: Style, items: seq<string>, n: nat)
    requires Distinct(style) && |items| == |style| && n <= |style|
    requires forall i :: 0 <= i < |style| ==> Plain(style[i]) && items[i] == style[i].0 + "=" + style[i].1.s
    ensures StyleMap.ParseItems(items[..n]) == style[..n]
  {
    if n > 0 {
      ParseStyleItems(style, items, n - 1);
      assert items[..n][..n - 1] == items[..n - 1];
      var k := style[n - 1].0;
      var v := style[n - 1].1.s;
      assert items[..n][n - 1] == k + ['='] + v;
      PartitionAt(k, '=', v);
      var front := style[..n - 1];
      NewKey(style, n - 1);
      SetAbsent(front, k, style[n - 1].1);
      assert style[..n - 1] + [(k, style[n - 1].1)] == style[..n];
    }
  }

  /** `get_style(style_to_str(s)) == s` for a plain style: what `style_to_str` writes,
      the style-string parser of the cascade reads back unchanged. */
  lemma StyleRoundTrip(style: Style, realText: RealText)
    requires Distinct(style)
    requires forall i :: 0 <= i < |style| ==> Plain(style[i])
    ensures StyleMap.ParseStyle(StyleToStr(style, realText)) == style
  {
    if style == [] {
      assert Split("", ';') == [""];
      assert [""][..0] == [];
    } else {
      var items := StyleItems(style, realText);
      forall i | 0 <= i < |items|
        ensures ';' !in items[i]
      {
        assert items[i] == style[i].0 + "=" + style[i].1.s;
      }
      JoinSplit(items, ';');
      ParseStyleItems(style, items, |style|);
      assert items[..|style|] == items && style[..|style|] == style;
    }
  }

  // ---------------------------------------------------------------- node cells

  /** `make_geom`: a geometry carrying a position and a size. */
  function MakeGeom(position: Pair, size: Pair, realText: RealText): Element
  {
    Element("mxGeometry", [("as", "geometry"), ("x", realText(position.0)), ("y", realText(position.1)),
                           ("width", realText(size.0)), ("height", realText(size.1))], [])
  }

  /** `props.label_formatter(props, label)` for the two formatters of the program. */
  function FormatLabel(f: Formatter, lines: seq<string>): string
  {
    match f
    case DefaultFormatter => Join(lines, "\n")
    case C4Formatter => C4.C4Label(lines)
  }

  /** The record fields a node cell reads: its drawio style, its link and its label formatter. */
  datatype CellProps = CellProps(style: Style, link: Option<string>, formatter: Formatter)

  /** The drawio style, the link and the label formatter of an evaluated record, read in
      the order `node_element` reads them. */
  function NodeCellProps(props: Attrs): (r: Result<CellProps>)
    ensures r.Ok? <==> (exists s :: Get(props, "drawio_style") == Some(PStyle(s))) &&
                       (exists f :: Get(props, "label_formatter") == Some(PFormatter(f))) &&
                       (Get(props, "link") == Some(PNone) || exists l :: Get(props, "link") == Some(PStr(l)))
  {
    var style :- StyleOf(props);
    var f :- FormatterOf(props);
    match Get(props, "link")
    case None => Err(MissingKey("link"))
    case Some(v) =>
      if v.PNone? then Ok(CellProps(style, None, f))
      else if v.PStr? then Ok(CellProps(style, Some(v.s), f))
      else Err(BadType)
  }

  /** `props.drawio_style`. */
  function StyleOf(props: Attrs): (r: Result<Style>)
    ensures r.Ok? <==> exists s :: Get(props, "drawio_style") == Some(PStyle(s))
    ensures r.Ok? ==> Get(props, "drawio_style") == Some(PStyle(r.value))
  {
    match Get(props, "drawio_style")
    case None => Err(MissingKey("drawio_style"))
    case Some(v) => if v.PStyle? then Ok(v.style) else Err(BadType)
  }

  /** `props.label_formatter`. */
  function FormatterOf(props: Attrs): (r: Result<Formatter>)
    ensures r.Ok? <==> exists f :: Get(props, "label_formatter") == Some(PFormatter(f))
    ensures r.Ok? ==> Get(props, "label_formatter") == Some(PFormatter(r.value))
  {
    match Get(props, "label_formatter")
    case None => Err(MissingKey("label_formatter"))
    case Some(v) => if v.PFormatter? then Ok(v.f) else Err(BadType)
  }

  /** `node.parent and node.parent.id or '__root__'`: the parent's id when there is a
      parent with a non-empty id. */
  function ParentRef(parentId: Option<string>): (r: string)
    ensures r != ""
    ensures r == "__root__" <==> parentId.None? || parentId.value in {"", "__root__"}
  {
    if parentId.Some? && parentId.value != "" then parentId.value else "__root__"
  }

  /** `node_element`: a vertex cell with its id, parent, style, label and link, holding the
      node's geometry. */
  function NodeElement(id: string, parentId: Option<string>, cell: CellProps, lines: seq<string>,
                       position: Pair, size: Pair, realText: RealText): Element
  {
    var text := FormatLabel(cell.formatter, lines);
    Element("mxCell",
            [("id", id), ("parent", ParentRef(parentId)), ("vertex", "1"), ("style", StyleToStr(cell.style, realText))]
            + (if text != "" then [("value", text)] else [])
            + (if cell.link.Some? && cell.link.value != "" then [("link", cell.link.value)] else []),
            [MakeGeom(position, size, realText)])
  }

  /** A node cell has each attribute once; it carries a value exactly when the formatted
      label is non-empty and a link exactly when the record's link is non-empty, and its
      only child is the node's geometry. */
  lemma NodeElementAttrs(id: string, parentId: Option<string>, cell: CellProps, lines: seq<string>,
                         position: Pair, size: Pair, realText: RealText)
    ensures var e := NodeElement(id, parentId, cell, lines, position, size, realText);
      var text := FormatLabel(cell.formatter, lines);
      && Get(e.attrs, "value") == (if text != "" then Some(text) else None)
      && Get(e.attrs, "link") == (if cell.link.Some? && cell.link.value != "" then Some(cell.link.value) else None)
      && e.children == [MakeGeom(position, size, realText)]
  {
    var e := NodeElement(id, parentId, cell, lines, position, size, realText);
    var base := [("id", id), ("parent", ParentRef(parentId)), ("vertex", "1"), ("style", StyleToStr(cell.style, realText))];
    var text := FormatLabel(cell.formatter, lines);
    var v: Dict<string, string> := if text != "" then [("value", text)] else [];
    var l: Dict<string, string> := if cell.link.Some? && cell.link.value != "" then [("link", cell.link.value)] else [];
    assert e.attrs == base + v + l;
    assert Keys(base) == ["id", "parent", "vertex", "style"];
    assert "value" !in Keys(base) && "link" !in Keys(base) && "link" !in Keys(v);
    GetConcat(base + v, l, "value");
    GetConcat(base, v, "value");
    GetConcat(base + v, l, "link");
    GetConcat(base, v, "link");
  }

  // ---------------------------------------------------------------- ports

  /** Where a port end sits: its side, its slot on that side (from `edge_positions`) and
      the box of its node. */
  datatype PortPlace = PortPlace(side: Nodes.Side, pos: real, origin: Pair, size: Pair)

  /** The style of the invisible cell that carries a port. */
  const PortCellStyle: string := "container=0;fillColor=none;strokeColor=none"

  /** The top-left corner of the 3×3 port cell: along `axis` the slot `offset.0` of the
      node's extent, centred; across it at the start (`align` -1), the middle (0) or the
      end (1) of the node, moved by `offset.1`. */
  function PortCorner(origin: Pair, size: Pair, axis: Axis, align: real, offset: Pair): Pair
  {
    var o := Other(axis);
    var ac := At(origin, axis) + offset.0 * At(size, axis) - 1.5;
    var oc := At(origin, o) + (At(size, o) - 3.0) / 2.0 * (align + 1.0) + offset.1;
    Dtup2(axis, ac, oc)
  }

  /** `port_element`: the port's cell, a child of its node's cell, with id
      `<edge id>-<node id>`. */
  function PortElement(edgeId: string, nodeId: string, origin: Pair, size: Pair, axis: Axis, align: real,
                       offset: Pair, realText: RealText): Element
  {
    Element("mxCell", [("id", PortId(edgeId, nodeId)), ("parent", nodeId), ("vertex", "1"), ("style", PortCellStyle)],
            [MakeGeom(PortCorner(origin, size, axis, align, offset), (3.0, 3.0), realText)])
  }

  function PortId(edgeId: string, nodeId: string): string
  {
    edgeId + "-" + nodeId
  }

  /** West (0) and east (2) ports run along the vertical axis, north (1) and south (3)
      ones along the horizontal axis. */
  function PortAxis(side: Nodes.Side): Axis
  {
    if side == 0 || side == 2 then 1 else 0
  }

  /** West and north ports sit at the start of the cross axis, east and south ones at its end. */
  function PortAlign(side: Nodes.Side): real
  {
    if side == 0 || side == 1 then -1.0 else 1.0
  }

  /** `arrange_port`: the port cell for a port at slot `pos` of its side. */
  function ArrangePort(edgeId: string, nodeId: string, p: PortPlace, realText: RealText): Element
  {
    PortElement(edgeId, nodeId, p.origin, p.size, PortAxis(p.side), PortAlign(p.side), (p.pos, 0.0), realText)
  }

  /** The corner of an arranged port, side by side: the 3×3 cell lies against the inside
      of its side, centred at fraction `pos` of that side's length. */
  lemma PortOnSide(p: PortPlace)
    ensures var c := PortCorner(p.origin, p.size, PortAxis(p.side), PortAlign(p.side), (p.pos, 0.0));
      var x, y, w, h := p.origin.0, p.origin.1, p.size.0, p.size.1;
      c == if p.side == 0 then (x, y + p.pos * h - 1.5)
           else if p.side == 1 then (x + p.pos * w - 1.5, y)
           else if p.side == 2 then (x + w - 3.0, y + p.pos * h - 1.5)
           else (x + p.pos * w - 1.5, y + h - 3.0)
  {
    var o := Other(PortAxis(p.side));
    var across := (At(p.size, o) - 3.0) / 2.0;
    var c := PortCorner(p.origin, p.size, PortAxis(p.side), PortAlign(p.side), (p.pos, 0.0));
    if p.side == 0 || p.side == 1 {
      assert PortAlign(p.side) + 1.0 == 0.0;
      assert across * (PortAlign(p.side) + 1.0) == 0.0;
    } else {
      assert PortAlign(p.side) + 1.0 == 2.0;
      assert across * (PortAlign(p.side) + 1.0) == At(p.size, o) - 3.0;
    }
    if p.side == 0 || p.side == 2 {
      assert PortAxis(p.side) == 1 && o == 0;
      assert c.1 == p.origin.1 + p.pos * p.size.1 - 1.5;
    } else {
      assert PortAxis(p.side) == 0 && o == 1;
      assert c.0 == p.origin.0 + p.pos * p.size.0 - 1.5;
    }
  }

  /** The draw.io names of the four sides, `CONSTRAINT`. */
  const Constraint: seq<string> := ["west", "north", "east", "south"]

  /** The style key of a port constraint: `sourcePortConstraint` or `targetPortConstraint`. */
  function ConstraintKey(kind: string): string
  {
    kind + "PortConstraint"
  }

  /** `port_style(port, kind)`: the port constraint naming the port's side. */
  function PortStyle(side: Nodes.Side, kind: string): Style
  {
    [(ConstraintKey(kind), SStr(Constraint[side]))]
  }

  /** Updating a style with a port style sets that one key. */
  lemma UpdatePortStyle(style: Style, side: Nodes.Side, kind: string)
    ensures Update(style, PortStyle(side, kind)) == Set(style, ConstraintKey(kind), SStr(Constraint[side]))
  {
    var ps := PortStyle(side, kind);
    assert ps[1..] == [];
  }

  /** Different sides give different constraints, so the style names the side exactly. */
  lemma PortStyleNamesSide(s1: Nodes.Side, s2: Nodes.Side, kind: string)
    ensures PortStyle(s1, kind) == PortStyle(s2, kind) <==> s1 == s2
  {
    if s1 != s2 {
      assert Constraint[s1][0] != Constraint[s2][0];
      assert PortStyle(s1, kind)[0].1 != PortStyle(s2, kind)[0].1;
    }
  }

  // ---------------------------------------------------------------- edge cells

  /** What `edge_element` reads about one end: its node's id and, for a port, where the
      port sits. */
  datatype EndCell = EndCell(nodeId: string, port: Option<PortPlace>)

  /** The port cells of one end: one for a port, none for a node. */
  function EndPorts(edgeId: string, end: EndCell, realText: RealText): seq<Element>
  {
    if end.port.Some? then [ArrangePort(edgeId, end.nodeId, end.port.value, realText)] else []
  }

  /** What the edge cell's `source` or `target` refers to: the port cell, or the node. */
  function EndRef(edgeId: string, end: EndCell): string
  {
    if end.port.Some? then PortId(edgeId, end.nodeId) else end.nodeId
  }

  /** The edge's style with the port constraints of its port ends added, source first. */
  function EdgeStyle(style: Style, source: EndCell, target: EndCell): Style
  {
    var s1 := if source.port.Some? then Update(style, PortStyle(source.port.value.side, "source")) else style;
    if target.port.Some? then Update(s1, PortStyle(target.port.value.side, "target")) else s1
  }

  /** The edge cell's geometry: relative, and with the label offset (and an offset point)
      only when it is not (0, 0). */
  function EdgeGeom(offset: Pair, realText: RealText): Element
  {
    if offset != (0.0, 0.0) then
      Element("mxGeometry", [("as", "geometry"), ("relative", "1"), ("x", realText(offset.0)), ("y", realText(offset.1))],
              [Element("mxPoint", [("as", "offset")], [])])
    else Element("mxGeometry", [("as", "geometry"), ("relative", "1")], [])
  }

  /** `edge_element`: the port cells of the source and of the target, then the edge cell. */
  function EdgeElement(id: string, parentId: Option<string>, source: EndCell, target: EndCell, style: Style,
                       text: string, offset: Pair, realText: RealText): seq<Element>
  {
    var attrs := [("edge", "1"), ("id", id), ("parent", ParentRef(parentId)),
                  ("source", EndRef(id, source)), ("target", EndRef(id, target))]
                 + (if text != "" then [("value", text)] else [])
                 + [("style", StyleToStr(EdgeStyle(style, source, target), realText))];
    EndPorts(id, source, realText) + EndPorts(id, target, realText) + [Element("mxCell", attrs, [EdgeGeom(offset, realText)])]
  }

  /** The port constraints of an edge style name the sides of its port ends; every other
      key keeps its value. */
  lemma EdgeStyleConstraints(style: Style, source: EndCell, target: EndCell, k: string)
    ensures var s := EdgeStyle(style, source, target);
      && (target.port.Some? && k == ConstraintKey("target") ==> Get(s, k) == Some(SStr(Constraint[target.port.value.side])))
      && (source.port.Some? && k == ConstraintKey("source") ==> Get(s, k) == Some(SStr(Constraint[source.port.value.side])))
      && (k != ConstraintKey("source") && k != ConstraintKey("target") ==> Get(s, k) == Get(style, k))
  {
    var s1 := if source.port.Some? then Update(style, PortStyle(source.port.value.side, "source")) else style;
    if source.port.Some? {
      UpdatePortStyle(style, source.port.value.side, "source");
      GetSet(style, ConstraintKey("source"), SStr(Constraint[source.port.value.side]), k);
    }
    if target.port.Some? {
      UpdatePortStyle(s1, target.port.value.side, "target");
      GetSet(s1, ConstraintKey("target"), SStr(Constraint[target.port.value.side]), k);
      assert ConstraintKey("target")[0] != ConstraintKey("source")[0];
    }
  }

  /** An edge gives one port cell per port end, source before target, each with the id
      the edge cell refers to, and then its own cell. */
  lemma EdgeElementPorts(id: string, parentId: Option<string>, source: EndCell, target: EndCell, style: Style,
                         text: string, offset: Pair, realText: RealText)
    ensures var els := EdgeElement(id, parentId, source, target, style, text, offset, realText);
      var ports := EndPorts(id, source, realText) + EndPorts(id, target, realText);
      && |els| == |ports| + 1 && els[..|ports|] == ports && els[|ports|].tag == "mxCell"
      && (source.port.Some? ==> Get(els[0].attrs, "id") == Some(EndRef(id, source)))
      && (target.port.Some? ==> Get(els[|ports| - 1].attrs, "id") == Some(EndRef(id, target)))
  {
    var els := EdgeElement(id, parentId, source, target, style, text, offset, realText);
    var ports := EndPorts(id, source, realText) + EndPorts(id, target, realText);
    assert els == ports + [els[|els| - 1]];
  }

  /** The edge cell itself: its `source` and `target` are the ids of its port cells (or of
      its nodes), and it carries a value exactly when the label is non-empty. */
  lemma EdgeCellAttrs(id: string, parentId: Option<string>, source: EndCell, target: EndCell, style: Style,
                      text: string, offset: Pair, realText: RealText)
    ensures var els := EdgeElement(id, parentId, source, target, style, text, offset, realText);
      var cell := els[|els| - 1];
      && Get(cell.attrs, "source") == Some(EndRef(id, source))
      && Get(cell.attrs, "target") == Some(EndRef(id, target))
      && Get(cell.attrs, "value") == (if text != "" then Some(text) else None)
      && Get(cell.attrs, "style") == Some(StyleToStr(EdgeStyle(style, source, target), realText))
  {
    var base := [("edge", "1"), ("id", id), ("parent", ParentRef(parentId)),
                 ("source", EndRef(id, source)), ("target", EndRef(id, target))];
    var v: Dict<string, string> := if text != "" then [("value", text)] else [];
    var st := [("style", StyleToStr(EdgeStyle(style, source, target), realText))];
    var els := EdgeElement(id, parentId, source, target, style, text, offset, realText);
    assert els[|els| - 1].attrs == base + v + st;
    assert Keys(base) == ["edge", "id", "parent", "source", "target"];
    assert "value" !in Keys(base) && "value" !in Keys(st) && "style" !in Keys(base) && "style" !in Keys(v);
    assert "parent"[0] != "source"[0] && "parent"[0] != "target"[0] && "source"[0] != "target"[0];
    assert Get(base, "source") == Some(EndRef(id, source)) && Get(base, "target") == Some(EndRef(id, target));
    GetConcat(base + v, st, "value");
    GetConcat(base, v, "value");
    GetConcat(base + v, st, "source");
    GetConcat(base, v, "source");
    GetConcat(base + v, st, "target");
    GetConcat(base, v, "target");
    GetConcat(base + v, st, "style");
    GetConcat(base, v, "style");
  }

  /** An edge cell's geometry carries the label offset, and an offset point, exactly when
      the offset is not (0, 0). */
  lemma EdgeGeomOffset(offset: Pair, realText: RealText)
    ensures var g := EdgeGeom(offset, realText);
      && Get(g.attrs, "relative") == Some("1")
      && Get(g.attrs, "x") == (if offset != (0.0, 0.0) then Some(realText(offset.0)) else None)
      && Get(g.attrs, "y") == (if offset != (0.0, 0.0) then Some(realText(offset.1)) else None)
      && |g.children| == (if offset != (0.0, 0.0) then 1 else 0)
  {
    var g := EdgeGeom(offset, realText);
    if offset != (0.0, 0.0) {
      assert Keys(g.attrs) == ["as", "relative", "x", "y"];
      assert "relative"[0] != "x"[0] && "relative"[0] != "y"[0] && "x"[0] != "y"[0];
    } else {
      assert Keys(g.attrs) == ["as", "relative"];
      assert "x" !in Keys(g.attrs) && "y" !in Keys(g.attrs);
    }
  }

  // ---------------------------------------------------------------- numbering

  /** `f'diagen-{n}'`: the id given to the n-th node or edge that has none. */
  function FreshId(n: nat): string
  {
    "diagen-" + NatToString(n)
  }

  /** Distinct counter values give distinct ids. */
  lemma FreshIdInjective(m: nat, n: nat)
    requires FreshId(m) == FreshId(n)
    ensures m == n
  {
    assert FreshId(m)[7..] == NatToString(m) && FreshId(n)[7..] == NatToString(n);
    NatToStringInjective(m, n);
  }

  /** How many of the first k ids are empty. */
  function Blanks(ids: seq<string>, k: nat): nat
    requires k <= |ids|
  {
    if k == 0 then 0 else Blanks(ids, k - 1) + (if ids[k - 1] == "" then 1 else 0)
  }

  /** Counting over a prefix of the ids counts the same. */
  lemma {:induction false} BlanksPrefix(ids: seq<string>, m: nat, k: nat)
    requires k <= m <= |ids|
    ensures Blanks(ids[..m], k) == Blanks(ids, k)
  {
    if k > 0 {
      BlanksPrefix(ids, m, k - 1);
      assert ids[..m][k - 1] == ids[k - 1];
    }
  }

  /** The ids after the numbering loops of `make_model`, with the counter at `next`: every
      empty id takes `FreshId` of the counter, which then moves on; the other ids stay.
      Also returns where the counter ends. */
  function Numbered(ids: seq<string>, next: nat): (r: (seq<string>, nat))
    ensures |r.0| == |ids|
  {
    if ids == [] then ([], next)
    else
      var front := Numbered(ids[..|ids| - 1], next);
      if ids[|ids| - 1] != "" then (front.0 + [ids[|ids| - 1]], front.1)
      else (front.0 + [FreshId(front.1)], front.1 + 1)
  }

  /** The counter ends past one number per empty id. */
  lemma {:induction false} NumberedCount(ids: seq<string>, next: nat)
    ensures Numbered(ids, next).1 == next + Blanks(ids, |ids|)
    decreases |ids|
  {
    if ids != [] {
      var n := |ids| - 1;
      NumberedCount(ids[..n], next);
      BlanksPrefix(ids, n, n);
    }
  }

  /** The counter ends past one number per empty id, and the i-th empty id gets the
      counter's start plus the number of empty ids before it. */
  lemma NumberedSpec(ids: seq<string>, next: nat)
    ensures Numbered(ids, next).1 == next + Blanks(ids, |ids|)
    ensures forall i :: 0 <= i < |ids| ==>
      Numbered(ids, next).0[i] == if ids[i] != "" then ids[i] else FreshId(next + Blanks(ids, i))
  {
    NumberedCount(ids, next);
    forall i | 0 <= i < |ids|
      ensures Numbered(ids, next).0[i] == if ids[i] != "" then ids[i] else FreshId(next + Blanks(ids, i))
    {
      NumberedNext(ids, next, i);
    }
  }

  /** Counting empty ids over a longer prefix never gives less, and an empty id adds one. */
  lemma {:induction false} BlanksGrow(ids: seq<string>, i: nat, j: nat)
    requires i < j <= |ids|
    ensures Blanks(ids, i) + (if ids[i] == "" then 1 else 0) <= Blanks(ids, j)
    decreases j
  {
    if j - 1 > i {
      BlanksGrow(ids, i, j - 1);
    }
  }

  /** After numbering, every id is non-empty, preset ids are kept, and no two ids that
      were given out are equal. */
  lemma Numbering(ids: seq<string>, next: nat)
    ensures forall i :: 0 <= i < |ids| ==> Numbered(ids, next).0[i] != ""
    ensures forall i :: 0 <= i < |ids| && ids[i] != "" ==> Numbered(ids, next).0[i] == ids[i]
    ensures forall i, j :: 0 <= i < j < |ids| && ids[i] == "" && ids[j] == "" ==>
      Numbered(ids, next).0[i] != Numbered(ids, next).0[j]
  {
    NumberedSpec(ids, next);
    forall i, j | 0 <= i < j < |ids| && ids[i] == "" && ids[j] == ""
      ensures Numbered(ids, next).0[i] != Numbered(ids, next).0[j]
    {
      BlanksGrow(ids, i, j);
      if FreshId(next + Blanks(ids, i)) == FreshId(next + Blanks(ids, j)) {
        FreshIdInjective(next + Blanks(ids, i), next + Blanks(ids, j));
      }
    }
  }

  /** Nodes are numbered first and edges continue the same counter, so an id given to a
      node is never given to an edge. */
  lemma NodeAndEdgeIds(nodeIds: seq<string>, edgeIds: seq<string>, i: nat, j: nat)
    requires i < |nodeIds| && nodeIds[i] == "" && j < |edgeIds| && edgeIds[j] == ""
    ensures var named := Numbered(nodeIds, 0);
      named.0[i] != Numbered(edgeIds, named.1).0[j]
  {
    var named := Numbered(nodeIds, 0);
    NumberedSpec(nodeIds, 0);
    NumberedSpec(edgeIds, named.1);
    BlanksGrow(nodeIds, i, |nodeIds|);
    if named.0[i] == Numbered(edgeIds, named.1).0[j] {
      FreshIdInjective(Blanks(nodeIds, i), named.1 + Blanks(edgeIds, j));
    }
  }

  /** One step of a numbering loop: the k-th id once numbered. */
  lemma {:induction false} NumberedNext(ids: seq<string>, next: nat, k: nat)
    requires k < |ids|
    ensures Numbered(ids, next).0[k] == if ids[k] != "" then ids[k] else FreshId(next + Blanks(ids, k))
    decreases |ids|
  {
    var n := |ids| - 1;
    if k < n {
      NumberedNext(ids[..n], next, k);
      assert ids[..n][k] == ids[k];
      BlanksPrefix(ids, n, k);
    } else {
      NumberedCount(ids[..n], next);
      BlanksPrefix(ids, n, n);
    }
  }

  // ---------------------------------------------------------------- the walk

  /** Where the layout put a walked node: the walk index of its parent (None for a child
      of the root), its position, its size and its origin. */
  datatype Placement = Placement(parent: Option<nat>, position: Pair, size: Pair, origin: Pair)

  /** A pre-order walk lists every parent before its children. */
  predicate ParentsFirst(layout: seq<Placement>)
  {
    forall i :: 0 <= i < |layout| && layout[i].parent.Some? ==> layout[i].parent.value < i
  }

  /** The fixed part of `mxGraphModel`'s attributes. */
  const PageAttrs: Dict<string, string> :=
    [("arrows", "1"), ("connect", "1"), ("fold", "0"), ("grid", "1"), ("gridSize", "10"),
     ("guides", "1"), ("math", "0"), ("page", "1"), ("pageScale", "1"), ("tooltips", "1")]

  /** The two cells every diagram starts with: the layer `0` and the root `__root__`. */
  const RootCells: seq<Element> :=
    [Element("mxCell", [("id", "0")], []), Element("mxCell", [("id", "__root__"), ("parent", "0")], [])]

  /** The model element: the page attributes, the page size from the root's size, and the
      root holding the two fixed cells followed by the given cells. */
  function GraphModel(cells: seq<Element>, rootSize: Pair, realText: RealText): Element
  {
    Element("mxGraphModel", PageAttrs + [("pageWidth", realText(rootSize.0)), ("pageHeight", realText(rootSize.1))],
            [Element("root", [], RootCells + cells)])
  }

  function Reverse<T>(s: seq<T>): (r: seq<T>)
    ensures |r| == |s| && forall i :: 0 <= i < |s| ==> r[i] == s[|s| - 1 - i]
  {
    if s == [] then [] else Reverse(s[1..]) + [s[0]]
  }

  /** The position of `x` in `s`, if it is there. */
  function IndexOf<T(==)>(s: seq<T>, x: T): (r: Option<nat>)
    ensures r.Some? <==> x in s
    ensures r.Some? ==> r.value < |s| && s[r.value] == x
  {
    if s == [] then None
    else if s[0] == x then Some(0)
    else
      var r := IndexOf(s[1..], x);
      if r.Some? then Some(r.value + 1) else None
  }

  /** Nothing occurs twice in `s`: each element is found where it stands. */
  predicate Unique<T(==)>(s: seq<T>)
  {
    forall i {:trigger s[i]} :: 0 <= i < |s| ==> IndexOf(s, s[i]) == Some(i)
  }

  /** The ids of the walked nodes, in walk order. */
  function IdsOf(nodes: seq<Nodes.Node>): (ids: seq<string>)
    reads nodes`id
    ensures |ids| == |nodes|
  {
    if nodes == [] then [] else [nodes[0].id] + IdsOf(nodes[1..])
  }

  lemma {:induction false} IdsOfAt(nodes: seq<Nodes.Node>, i: nat)
    requires i < |nodes|
    ensures IdsOf(nodes)[i] == nodes[i].id
  {
    if i > 0 {
      IdsOfAt(nodes[1..], i - 1);
    }
  }

  /** The evaluated records of the walked nodes. */
  function PropsOf(nodes: seq<Nodes.Node>): (ps: seq<Attrs>)
    reads nodes`props
    ensures |ps| == |nodes|
  {
    if nodes == [] then [] else [nodes[0].props] + PropsOf(nodes[1..])
  }

  lemma {:induction false} PropsOfAt(nodes: seq<Nodes.Node>, i: nat)
    requires i < |nodes|
    ensures PropsOf(nodes)[i] == nodes[i].props
  {
    if i > 0 {
      PropsOfAt(nodes[1..], i - 1);
    }
  }

  /** The label lines of the walked nodes. */
  function LinesOf(nodes: seq<Nodes.Node>): (ls: seq<seq<string>>)
    reads nodes`labelLines
    ensures |ls| == |nodes|
  {
    if nodes == [] then [] else [nodes[0].labelLines] + LinesOf(nodes[1..])
  }

  lemma {:induction false} LinesOfAt(nodes: seq<Nodes.Node>, i: nat)
    requires i < |nodes|
    ensures LinesOf(nodes)[i] == nodes[i].labelLines
  {
    if i > 0 {
      LinesOfAt(nodes[1..], i - 1);
    }
  }

  /** The ids of the edges, in iteration order. */
  function EdgeIdsOf(edges: seq<Nodes.Edge>): (ids: seq<string>)
    reads edges`id
    ensures |ids| == |edges|
  {
    if edges == [] then [] else [edges[0].id] + EdgeIdsOf(edges[1..])
  }

  lemma {:induction false} EdgeIdsOfAt(edges: seq<Nodes.Edge>, i: nat)
    requires i < |edges|
    ensures EdgeIdsOf(edges)[i] == edges[i].id
  {
    if i > 0 {
      EdgeIdsOfAt(edges[1..], i - 1);
    }
  }

  /** The evaluated records of the edges. */
  function AttrsOf(edges: seq<Nodes.Edge>): (as_: seq<Attrs>)
    reads edges`props, set i | 0 <= i < |edges| :: edges[i].props
    ensures |as_| == |edges|
  {
    if edges == [] then [] else [edges[0].props.attrs] + AttrsOf(edges[1..])
  }

  lemma {:induction false} AttrsOfAt(edges: seq<Nodes.Edge>, i: nat)
    requires i < |edges|
    ensures AttrsOf(edges)[i] == edges[i].props.attrs
  {
    if i > 0 {
      AttrsOfAt(edges[1..], i - 1);
    }
  }

  /** A node's `edge_positions`: the cached table, or the one the allocator computes. */
  function TableOf(n: Nodes.Node): seq<map<Nodes.Edge, real>>
    reads n`positions, n`edges
  {
    if n.positions.Some? then n.positions.value
    else Nodes.Assigned(Nodes.Slots(n.edges, n), |Nodes.Slots(n.edges, n)|)
  }

  function TablesOf(nodes: seq<Nodes.Node>): (ts: seq<seq<map<Nodes.Edge, real>>>)
    reads nodes`positions, nodes`edges
    ensures |ts| == |nodes|
  {
    if nodes == [] then [] else [TableOf(nodes[0])] + TablesOf(nodes[1..])
  }

  lemma {:induction false} TablesOfAt(nodes: seq<Nodes.Node>, i: nat)
    requires i < |nodes|
    ensures TablesOf(nodes)[i] == TableOf(nodes[i])
  {
    if i > 0 {
      TablesOfAt(nodes[1..], i - 1);
    }
  }

  /** `b` with its first k elements taken from `a`: the ids part-way through a numbering loop. */
  function Spliced<T>(a: seq<T>, b: seq<T>, k: nat): (r: seq<T>)
    requires |a| == |b|
    ensures |r| == |a|
  {
    seq(|a|, j requires 0 <= j < |a| => if j < k then a[j] else b[j])
  }

  lemma SpliceNext<T>(a: seq<T>, b: seq<T>, k: nat)
    requires k < |a| == |b|
    ensures Spliced(a, b, k)[k := a[k]] == Spliced(a, b, k + 1)
  {
  }

  lemma SplicedEnds<T>(a: seq<T>, b: seq<T>)
    requires |a| == |b|
    ensures Spliced(a, b, 0) == b && Spliced(a, b, |a|) == a
  {
  }

  // ---------------------------------------------------------------- loops that stop at a fault

  /** The values of the first n results in order, or the first fault among them: what a
      loop that appends each value and raises at the first fault leaves. */
  function Collect<T>(rs: seq<Result<T>>, n: nat): Result<seq<T>>
    requires n <= |rs|
  {
    if n == 0 then Ok([])
    else
      var front :- Collect(rs, n - 1);
      var v :- rs[n - 1];
      Ok(front + [v])
  }

  /** On success the i-th value is the i-th result's; otherwise the fault is that of some
      result, and every result before it succeeded. */
  lemma {:induction false} CollectSpec<T>(rs: seq<Result<T>>, n: nat)
    requires n <= |rs|
    ensures var r := Collect(rs, n);
      && (r.Ok? ==> |r.value| == n && forall i :: 0 <= i < n ==> rs[i] == Ok(r.value[i]))
      && (r.Err? ==> exists i :: 0 <= i < n && rs[i] == Err(r.fault) && forall j :: 0 <= j < i ==> rs[j].Ok?)
  {
    if n > 0 {
      CollectSpec(rs, n - 1);
    }
  }

  /** Once a fault is met, further results do not change the outcome. */
  lemma {:induction false} CollectErrStays<T>(rs: seq<Result<T>>, k: nat, n: nat)
    requires k <= n <= |rs| && Collect(rs, k).Err?
    ensures Collect(rs, n) == Collect(rs, k)
    decreases n
  {
    if n > k {
      CollectErrStays(rs, k, n - 1);
    }
  }

  /** Like `Collect` for results that are lists, which are appended one after the other
      (`children.extend`). */
  function Gather<T>(rs: seq<Result<seq<T>>>, n: nat): Result<seq<T>>
    requires n <= |rs|
  {
    if n == 0 then Ok([])
    else
      var front :- Gather(rs, n - 1);
      var v :- rs[n - 1];
      Ok(front + v)
  }

  /** On success every result succeeded, and the lists lie one after the other; otherwise
      the fault is that of some result, and every result before it succeeded. */
  lemma {:induction false} GatherSpec<T>(rs: seq<Result<seq<T>>>, n: nat)
    requires n <= |rs|
    ensures var r := Gather(rs, n);
      && (r.Ok? ==> forall i :: 0 <= i < n ==> rs[i].Ok?)
      && (r.Ok? && n > 0 ==> r.value == Gather(rs, n - 1).value + rs[n - 1].value)
      && (r.Err? ==> exists i :: 0 <= i < n && rs[i] == Err(r.fault) && forall j :: 0 <= j < i ==> rs[j].Ok?)
  {
    if n > 0 {
      GatherSpec(rs, n - 1);
    }
  }

  /** Once a fault is met, further results do not change the outcome. */
  lemma {:induction false} GatherErrStays<T>(rs: seq<Result<seq<T>>>, k: nat, n: nat)
    requires k <= n <= |rs| && Gather(rs, k).Err?
    ensures Gather(rs, n) == Gather(rs, k)
    decreases n
  {
    if n > k {
      GatherErrStays(rs, k, n - 1);
    }
  }

  /** One turn of a loop that stops at a fault, for results that are lists. */
  lemma GatherNext<T>(rs: seq<Result<seq<T>>>, k: nat, values: seq<T>)
    requires k < |rs| && Gather(rs, k) == Ok(values)
    ensures rs[k].Ok? ==> Gather(rs, k + 1) == Ok(values + rs[k].value)
    ensures rs[k].Err? ==> Gather(rs, |rs|) == Err(rs[k].fault)
  {
    if rs[k].Err? {
      GatherErrStays(rs, k + 1, |rs|);
    }
  }

  // ---------------------------------------------------------------- node cells of the walk

  /** The cell of one walked node: its record read as `node_element` reads it, then the
      vertex cell. */
  function NodeCell(id: string, parentId: Option<string>, props: Attrs, lines: seq<string>, place: Placement,
                    realText: RealText): Result<Element>
  {
    var cell :- NodeCellProps(props);
    Ok(NodeElement(id, parentId, cell, lines, place.position, place.size, realText))
  }

  /** The id of the k-th walked node's parent, given the ids every node ends up with. */
  function ParentIdAt(ids: seq<string>, layout: seq<Placement>, k: nat): Option<string>
    requires |ids| == |layout| && k < |layout| && ParentsFirst(layout)
  {
    var p := layout[k].parent;
    if p.Some? then Some(ids[p.value]) else None
  }

  /** The cell of the k-th walked node, given the ids every node ends up with. */
  function NodeCellAt(ids: seq<string>, props: seq<Attrs>, lines: seq<seq<string>>, layout: seq<Placement>,
                      k: nat, realText: RealText): Result<Element>
    requires |ids| == |props| == |lines| == |layout| && k < |layout| && ParentsFirst(layout)
  {
    NodeCell(ids[k], ParentIdAt(ids, layout, k), props[k], lines[k], layout[k], realText)
  }

  /** The cell, or the fault, of every walked node. */
  function NodeResults(ids: seq<string>, props: seq<Attrs>, lines: seq<seq<string>>, layout: seq<Placement>,
                       realText: RealText): (rs: seq<Result<Element>>)
    requires |ids| == |props| == |lines| == |layout| && ParentsFirst(layout)
    ensures |rs| == |layout|
  {
    seq(|layout|, k requires 0 <= k < |layout| => NodeCellAt(ids, props, lines, layout, k, realText))
  }

  /** A cell reads only its own node's id and its parent's, which the walk lists earlier:
      ids that agree up to k give the k-th node the same cell. */
  lemma SplicedCell(named: seq<string>, ids: seq<string>, props: seq<Attrs>, lines: seq<seq<string>>,
                    layout: seq<Placement>, k: nat, realText: RealText)
    requires |named| == |ids| == |props| == |lines| == |layout| && k < |layout| && ParentsFirst(layout)
    ensures NodeCellAt(Spliced(named, ids, k + 1), props, lines, layout, k, realText) ==
            NodeResults(named, props, lines, layout, realText)[k]
  {
    var s := Spliced(named, ids, k + 1);
    assert s[k] == named[k];
    assert ParentIdAt(s, layout, k) == ParentIdAt(named, layout, k);
  }

  /** One turn of a numbering loop, on the ids part-way numbered: the k-th id is set as
      the numbering sets it, and the counter moves on as it does. */
  lemma NamedStep(ids0: seq<string>, start: nat, k: nat, counter: nat)
    requires k < |ids0| && counter == start + Blanks(ids0, k)
    ensures var named := Numbered(ids0, start).0;
      var id := Spliced(named, ids0, k)[k];
      && Spliced(named, ids0, k)[k := if id == "" then FreshId(counter) else id] == Spliced(named, ids0, k + 1)
      && counter + (if id == "" then 1 else 0) == start + Blanks(ids0, k + 1)
  {
    var named := Numbered(ids0, start).0;
    NumberedNext(ids0, start, k);
    SpliceNext(named, ids0, k);
  }

  /** `if not it.id: it.id = f'diagen-{next(idconter)}'` for the k-th walked node. */
  method NameNode(nodes: seq<Nodes.Node>, k: nat, counter: nat) returns (next: nat)
    requires k < |nodes| && Unique(nodes)
    modifies {nodes[k]}`id
    ensures var id := old(IdsOf(nodes))[k];
      && IdsOf(nodes) == old(IdsOf(nodes))[k := if id == "" then FreshId(counter) else id]
      && next == counter + (if id == "" then 1 else 0)
  {
    ghost var before := IdsOf(nodes);
    forall j | 0 <= j < |nodes|
      ensures before[j] == nodes[j].id
    {
      IdsOfAt(nodes, j);
    }
    next := counter;
    if nodes[k].id == "" {
      nodes[k].id := FreshId(counter);
      next := counter + 1;
    }
    forall j | 0 <= j < |nodes|
      ensures IdsOf(nodes)[j] == nodes[j].id
    {
      IdsOfAt(nodes, j);
    }
  }

  /** `node_element(it)` for the k-th walked node, once it and every node before it have
      their numbered ids: the cell the numbered walk gives it. */
  method NodeCellOf(nodes: seq<Nodes.Node>, layout: seq<Placement>, k: nat, realText: RealText,
                    ghost named: seq<string>, ghost ids0: seq<string>)
    returns (c: Result<Element>)
    requires |layout| == |nodes| == |named| == |ids0| && k < |nodes| && ParentsFirst(layout)
    requires IdsOf(nodes) == Spliced(named, ids0, k + 1)
    ensures c == NodeResults(named, PropsOf(nodes), LinesOf(nodes), layout, realText)[k]
  {
    var n := nodes[k];
    var p := layout[k].parent;
    if p.Some? {
      IdsOfAt(nodes, p.value);
    }
    var parentId := if p.Some? then Some(nodes[p.value].id) else None;
    IdsOfAt(nodes, k);
    PropsOfAt(nodes, k);
    LinesOfAt(nodes, k);
    SplicedCell(named, ids0, PropsOf(nodes), LinesOf(nodes), layout, k, realText);
    c := NodeCell(n.id, parentId, n.props, n.labelLines, layout[k], realText);
  }

  /** One turn of the node loop of `make_model`, on the walk part-way numbered: the k-th
      node gets its numbered id, the counter moves on, and the node's cell is built. */
  method NodeStep(nodes: seq<Nodes.Node>, layout: seq<Placement>, k: nat, counter: nat, cells: seq<Element>,
                  realText: RealText, ghost ids0: seq<string>, ghost named: seq<string>,
                  ghost results: seq<Result<Element>>)
    returns (r: Result<seq<Element>>, next: nat)
    requires |layout| == |nodes| == |ids0| && k < |nodes| && ParentsFirst(layout) && Unique(nodes)
    requires named == Numbered(ids0, 0).0 && IdsOf(nodes) == Spliced(named, ids0, k) && counter == Blanks(ids0, k)
    requires results == NodeResults(named, PropsOf(nodes), LinesOf(nodes), layout, realText)
    requires Collect(results, k) == Ok(cells)
    modifies {nodes[k]}`id
    ensures IdsOf(nodes) == Spliced(named, ids0, k + 1) && next == Blanks(ids0, k + 1)
    ensures PropsOf(nodes) == old(PropsOf(nodes)) && LinesOf(nodes) == old(LinesOf(nodes))
    ensures r == if r.Ok? then Collect(results, k + 1) else Collect(results, |results|)
  {
    NamedStep(ids0, 0, k, counter);
    next := NameNode(nodes, k, counter);
    var c := NodeCellOf(nodes, layout, k, realText, named, ids0);
    CollectNext(results, k, cells);
    r := if c.Err? then Err(c.fault) else Ok(cells + [c.value]);
  }

  /** One turn of a loop that stops at a fault: a value is appended, a fault ends the loop. */
  lemma CollectNext<T>(rs: seq<Result<T>>, k: nat, values: seq<T>)
    requires k < |rs| && Collect(rs, k) == Ok(values)
    ensures rs[k].Ok? ==> Collect(rs, k + 1) == Ok(values + [rs[k].value])
    ensures rs[k].Err? ==> Collect(rs, |rs|) == Err(rs[k].fault)
  {
    if rs[k].Err? {
      CollectErrStays(rs, k + 1, |rs|);
    }
  }

  /** The node loop of `make_model`: walking the nodes in order, an unnamed node takes the
      next `diagen-N` and its cell is appended, until a record faults. The outcome is that
      of the numbered walk's cells; on success every node has its numbered id and the
      counter has moved past them, and on a fault the nodes after the faulting one keep
      their ids. */
  method NameNodes(nodes: seq<Nodes.Node>, layout: seq<Placement>, realText: RealText)
    returns (r: Result<seq<Element>>, counter: nat)
    requires |layout| == |nodes| && ParentsFirst(layout) && Unique(nodes)
    modifies nodes`id
    ensures var named := Numbered(old(IdsOf(nodes)), 0);
      r == Collect(NodeResults(named.0, old(PropsOf(nodes)), old(LinesOf(nodes)), layout, realText), |nodes|) &&
      (r.Ok? ==> IdsOf(nodes) == named.0 && counter == named.1)
    ensures r.Err? ==> exists k :: 0 < k <= |nodes| && IdsOf(nodes) == Spliced(Numbered(old(IdsOf(nodes)), 0).0, old(IdsOf(nodes)), k)
  {
    ghost var ids0 := IdsOf(nodes);
    ghost var named := Numbered(ids0, 0).0;
    ghost var results := NodeResults(named, PropsOf(nodes), LinesOf(nodes), layout, realText);
    r, counter := NodeLoop(nodes, layout, realText, ids0, named, PropsOf(nodes), LinesOf(nodes), results);
    if r.Ok? {
      NumberedCount(ids0, 0);
    }
  }

  /** The loop itself, over the nodes' ids and records as they are on entry. */
  method NodeLoop(nodes: seq<Nodes.Node>, layout: seq<Placement>, realText: RealText, ghost ids0: seq<string>,
                  ghost named: seq<string>, ghost props: seq<Attrs>, ghost lines: seq<seq<string>>,
                  ghost results: seq<Result<Element>>)
    returns (r: Result<seq<Element>>, counter: nat)
    requires |layout| == |nodes| && ParentsFirst(layout) && Unique(nodes)
    requires IdsOf(nodes) == ids0 && named == Numbered(ids0, 0).0
    requires PropsOf(nodes) == props && LinesOf(nodes) == lines
    requires results == NodeResults(named, props, lines, layout, realText)
    modifies nodes`id
    ensures r == Collect(results, |nodes|)
    ensures r.Ok? ==> IdsOf(nodes) == named && counter == Blanks(ids0, |ids0|)
    ensures r.Err? ==> exists k :: 0 < k <= |nodes| && IdsOf(nodes) == Spliced(named, ids0, k)
  {
    counter := 0;
    r := Ok([]);
    var k := 0;
    while k < |nodes| && r.Ok?
      invariant 0 <= k <= |nodes|
      invariant counter == Blanks(ids0, k)
      invariant IdsOf(nodes) == Spliced(named, ids0, k)
      invariant PropsOf(nodes) == props && LinesOf(nodes) == lines
      invariant r == if r.Ok? then Collect(results, k) else Collect(results, |nodes|)
      invariant r.Err? ==> 0 < k
    {
      r, counter := NodeStep(nodes, layout, k, counter, r.value, realText, ids0, named, results);
      k := k + 1;
    }
    if r.Ok? {
      SplicedEnds(named, ids0);
    }
  }

  // ---------------------------------------------------------------- edge cells of the walk

  /** Every end of every edge is a walked node. */
  predicate EndsIn(edges: seq<Nodes.Edge>, nodes: seq<Nodes.Node>)
  {
    forall i :: 0 <= i < |edges| ==> Nodes.NodeOf(edges[i].source) in nodes && Nodes.NodeOf(edges[i].target) in nodes
  }

  /** One end of edge `e` as `edge_element` sees it; for a port, its slot is looked up in
      the node's `edge_positions` (KeyError when `e` has none there). */
  function EndCellOf(e: Nodes.Edge, end: Nodes.End, nodeId: string, place: Placement,
                     table: seq<map<Nodes.Edge, real>>): Result<EndCell>
  {
    if end.NodeEnd? then Ok(EndCell(nodeId, None))
    else if end.port.side >= |table| then Err(IndexOutOfRange)
    else if e !in table[end.port.side] then Err(MissingKey("edge"))
    else Ok(EndCell(nodeId, Some(PortPlace(end.port.side, table[end.port.side][e], place.origin, place.size))))
  }

  /** `label_offset` of an evaluated edge record. */
  function OffsetOf(attrs: Attrs): Result<Pair>
  {
    match Get(attrs, "label_offset")
    case None => Err(MissingKey("label_offset"))
    case Some(v) =>
      if v.PTuple? && |v.elems| == 2 && Num(v.elems[0]).Some? && Num(v.elems[1]).Some? then
        Ok((Num(v.elems[0]).value, Num(v.elems[1]).value))
      else Err(BadType)
  }

  /** The elements of one edge, reading its record in the order `edge_element` does: the
      label formatter, the style, the source port, the target port, the label offset. */
  function EdgeCellOf(e: Nodes.Edge, id: string, attrs: Attrs, nodes: seq<Nodes.Node>, nodeIds: seq<string>,
                      layout: seq<Placement>, tables: seq<seq<map<Nodes.Edge, real>>>, realText: RealText)
    : Result<seq<Element>>
    requires |nodeIds| == |layout| == |tables| == |nodes| && ParentsFirst(layout)
    requires Nodes.NodeOf(e.source) in nodes && Nodes.NodeOf(e.target) in nodes
  {
    var s := IndexOf(nodes, Nodes.NodeOf(e.source)).value;
    var t := IndexOf(nodes, Nodes.NodeOf(e.target)).value;
    var f :- FormatterOf(attrs);
    var style :- StyleOf(attrs);
    var src :- EndCellOf(e, e.source, nodeIds[s], layout[s], tables[s]);
    var tgt :- EndCellOf(e, e.target, nodeIds[t], layout[t], tables[t]);
    var offset :- OffsetOf(attrs);
    Ok(EdgeElement(id, ParentIdAt(nodeIds, layout, s), src, tgt, style, FormatLabel(f, e.labelLines), offset, realText))
  }

  /** The elements, or the fault, of every edge in iteration order. */
  function EdgeResults(edges: seq<Nodes.Edge>, ids: seq<string>, attrs: seq<Attrs>, nodes: seq<Nodes.Node>,
                       nodeIds: seq<string>, layout: seq<Placement>, tables: seq<seq<map<Nodes.Edge, real>>>,
                       realText: RealText): (rs: seq<Result<seq<Element>>>)
    requires |ids| == |attrs| == |edges| && EndsIn(edges, nodes)
    requires |nodeIds| == |layout| == |tables| == |nodes| && ParentsFirst(layout)
    ensures |rs| == |edges|
  {
    seq(|edges|, k requires 0 <= k < |edges| => EdgeCellOf(edges[k], ids[k], attrs[k], nodes, nodeIds, layout, tables, realText))
  }

  /** One end of an edge for `edge_element`: for a port, the node's `edge_positions` is
      computed (or taken from its cache) and the edge's slot looked up. */
  method ArrangeEnd(e: Nodes.Edge, end: Nodes.End, nodes: seq<Nodes.Node>, layout: seq<Placement>)
    returns (c: Result<EndCell>)
    requires |layout| == |nodes| && Nodes.NodeOf(end) in nodes
    modifies Nodes.NodeOf(end)`positions
    ensures c == EndCellOf(e, end, Nodes.NodeOf(end).id, layout[IndexOf(nodes, Nodes.NodeOf(end)).value],
                           old(TableOf(Nodes.NodeOf(end))))
    ensures TablesOf(nodes) == old(TablesOf(nodes))
  {
    ghost var before := TablesOf(nodes);
    forall j | 0 <= j < |nodes|
      ensures before[j] == TableOf(nodes[j])
    {
      TablesOfAt(nodes, j);
    }
    var n := Nodes.NodeOf(end);
    var i := IndexOf(nodes, n).value;
    if end.NodeEnd? {
      return Ok(EndCell(n.id, None));
    }
    var table := n.EdgePositions();
    forall j | 0 <= j < |nodes|
      ensures TablesOf(nodes)[j] == before[j]
    {
      TablesOfAt(nodes, j);
    }
    var side := end.port.side;
    if side >= |table| {
      return Err(IndexOutOfRange);
    }
    if e !in table[side] {
      return Err(MissingKey("edge"));
    }
    return Ok(EndCell(n.id, Some(PortPlace(side, table[side][e], layout[i].origin, layout[i].size))));
  }

  /** `edge_element` for one edge: the record, the ports and the offset are read in the
      order of `EdgeCellOf`, computing the ports' nodes' `edge_positions` on the way. */
  method EdgeCell(e: Nodes.Edge, nodes: seq<Nodes.Node>, layout: seq<Placement>, realText: RealText)
    returns (c: Result<seq<Element>>)
    requires |layout| == |nodes| && ParentsFirst(layout)
    requires Nodes.NodeOf(e.source) in nodes && Nodes.NodeOf(e.target) in nodes
    modifies nodes`positions
    ensures TablesOf(nodes) == old(TablesOf(nodes))
    ensures c == EdgeCellOf(e, e.id, e.props.attrs, nodes, IdsOf(nodes), layout, TablesOf(nodes), realText)
  {
    var s := IndexOf(nodes, Nodes.NodeOf(e.source)).value;
    var t := IndexOf(nodes, Nodes.NodeOf(e.target)).value;
    IdsOfAt(nodes, s);
    IdsOfAt(nodes, t);
    TablesOfAt(nodes, s);
    var f := FormatterOf(e.props.attrs);
    if f.Err? {
      return Err(f.fault);
    }
    var style := StyleOf(e.props.attrs);
    if style.Err? {
      return Err(style.fault);
    }
    var src := ArrangeEnd(e, e.source, nodes, layout);
    if src.Err? {
      return Err(src.fault);
    }
    TablesOfAt(nodes, t);
    var tgt := ArrangeEnd(e, e.target, nodes, layout);
    if tgt.Err? {
      return Err(tgt.fault);
    }
    var offset := OffsetOf(e.props.attrs);
    if offset.Err? {
      return Err(offset.fault);
    }
    var p := layout[s].parent;
    if p.Some? {
      IdsOfAt(nodes, p.value);
    }
    var parentId := if p.Some? then Some(nodes[p.value].id) else None;
    c := Ok(EdgeElement(e.id, parentId, src.value, tgt.value, style.value, FormatLabel(f.value, e.labelLines),
                        offset.value, realText));
  }

  /** `if not edge.id: edge.id = f'diagen-{next(idconter)}'` for the k-th edge. */
  method NameEdge(edges: seq<Nodes.Edge>, k: nat, counter: nat, ghost nodes: seq<Nodes.Node>) returns (next: nat)
    requires k < |edges| && Unique(edges)
    modifies {edges[k]}`id
    ensures AttrsOf(edges) == old(AttrsOf(edges))
    ensures TablesOf(nodes) == old(TablesOf(nodes)) && IdsOf(nodes) == old(IdsOf(nodes))
    ensures var id := old(EdgeIdsOf(edges))[k];
      && EdgeIdsOf(edges) == old(EdgeIdsOf(edges))[k := if id == "" then FreshId(counter) else id]
      && next == counter + (if id == "" then 1 else 0)
  {
    ghost var before := EdgeIdsOf(edges);
    forall j | 0 <= j < |edges|
      ensures before[j] == edges[j].id
    {
      EdgeIdsOfAt(edges, j);
    }
    next := counter;
    if edges[k].id == "" {
      edges[k].id := FreshId(counter);
      next := counter + 1;
    }
    forall j | 0 <= j < |edges|
      ensures EdgeIdsOf(edges)[j] == edges[j].id
    {
      EdgeIdsOfAt(edges, j);
    }
  }

  /** The elements of the k-th edge once it is numbered: those of the numbered edges. */
  method EdgeCellAt(edges: seq<Nodes.Edge>, nodes: seq<Nodes.Node>, layout: seq<Placement>, k: nat,
                    realText: RealText, ghost named: seq<string>, ghost ids0: seq<string>)
    returns (c: Result<seq<Element>>)
    requires |layout| == |nodes| && ParentsFirst(layout) && EndsIn(edges, nodes)
    requires |named| == |ids0| == |edges| && k < |edges|
    requires EdgeIdsOf(edges) == Spliced(named, ids0, k + 1)
    modifies nodes`positions
    ensures TablesOf(nodes) == old(TablesOf(nodes)) && IdsOf(nodes) == old(IdsOf(nodes))
    ensures AttrsOf(edges) == old(AttrsOf(edges)) && EdgeIdsOf(edges) == old(EdgeIdsOf(edges))
    ensures c == EdgeResults(edges, named, AttrsOf(edges), nodes, IdsOf(nodes), layout, TablesOf(nodes), realText)[k]
  {
    EdgeIdsOfAt(edges, k);
    AttrsOfAt(edges, k);
    assert Spliced(named, ids0, k + 1)[k] == named[k];
    c := EdgeCell(edges[k], nodes, layout, realText);
  }

  /** One turn of the edge loop of `make_model`, on the edges part-way numbered: the k-th
      edge gets its numbered id, the counter moves on, and the edge's elements are built. */
  method EdgeStep(edges: seq<Nodes.Edge>, nodes: seq<Nodes.Node>, layout: seq<Placement>, k: nat, start: nat,
                  counter: nat, cells: seq<Element>, realText: RealText,
                  ghost ids0: seq<string>, ghost named: seq<string>, ghost attrs: seq<Attrs>,
                  ghost nodeIds: seq<string>, ghost tables: seq<seq<map<Nodes.Edge, real>>>,
                  ghost results: seq<Result<seq<Element>>>)
    returns (r: Result<seq<Element>>, next: nat)
    requires |layout| == |nodes| && ParentsFirst(layout) && Unique(edges) && EndsIn(edges, nodes)
    requires |ids0| == |edges| && k < |edges| && named == Numbered(ids0, start).0
    requires EdgeIdsOf(edges) == Spliced(named, ids0, k) && counter == start + Blanks(ids0, k)
    requires AttrsOf(edges) == attrs && IdsOf(nodes) == nodeIds && TablesOf(nodes) == tables
    requires results == EdgeResults(edges, named, attrs, nodes, nodeIds, layout, tables, realText)
    requires Gather(results, k) == Ok(cells)
    modifies {edges[k]}`id, nodes`positions
    ensures EdgeIdsOf(edges) == Spliced(named, ids0, k + 1) && next == start + Blanks(ids0, k + 1)
    ensures AttrsOf(edges) == attrs && IdsOf(nodes) == nodeIds && TablesOf(nodes) == tables
    ensures r == if r.Ok? then Gather(results, k + 1) else Gather(results, |results|)
  {
    NamedStep(ids0, start, k, counter);
    next := NameEdge(edges, k, counter, nodes);
    var c := EdgeCellAt(edges, nodes, layout, k, realText, named, ids0);
    GatherNext(results, k, cells);
    r := if c.Err? then Err(c.fault) else Ok(cells + c.value);
  }

  /** The edge loop of `make_model`: in iteration order, an unnamed edge takes the next
      `diagen-N`, continuing the node loop's counter from `start`, and its elements are
      appended, until an edge faults. The outcome is that of the numbered edges' elements;
      on success every edge has its numbered id, and on a fault the edges after the
      faulting one keep theirs. Port tables are computed on the way but do not change. */
  method NameEdges(edges: seq<Nodes.Edge>, nodes: seq<Nodes.Node>, layout: seq<Placement>, start: nat,
                   realText: RealText)
    returns (r: Result<seq<Element>>, counter: nat)
    requires |layout| == |nodes| && ParentsFirst(layout) && Unique(edges) && EndsIn(edges, nodes)
    modifies edges`id, nodes`positions
    ensures TablesOf(nodes) == old(TablesOf(nodes))
    ensures var named := Numbered(old(EdgeIdsOf(edges)), start);
      r == Gather(EdgeResults(edges, named.0, old(AttrsOf(edges)), nodes, old(IdsOf(nodes)), layout, old(TablesOf(nodes)), realText), |edges|) &&
      (r.Ok? ==> EdgeIdsOf(edges) == named.0 && counter == named.1)
    ensures r.Err? ==> exists k :: 0 < k <= |edges| && EdgeIdsOf(edges) == Spliced(Numbered(old(EdgeIdsOf(edges)), start).0, old(EdgeIdsOf(edges)), k)
  {
    ghost var ids0 := EdgeIdsOf(edges);
    ghost var named := Numbered(ids0, start).0;
    ghost var attrs := AttrsOf(edges);
    ghost var nodeIds := IdsOf(nodes);
    ghost var tables := TablesOf(nodes);
    ghost var results := EdgeResults(edges, named, attrs, nodes, nodeIds, layout, tables, realText);
    r, counter := EdgeLoop(edges, nodes, layout, start, realText, ids0, named, attrs, nodeIds, tables, results);
    if r.Ok? {
      NumberedCount(ids0, start);
    }
  }

  /** The loop itself, over the edges' ids, attributes and the nodes' state as they are on entry. */
  method EdgeLoop(edges: seq<Nodes.Edge>, nodes: seq<Nodes.Node>, layout: seq<Placement>, start: nat,
                  realText: RealText, ghost ids0: seq<string>, ghost named: seq<string>, ghost attrs: seq<Attrs>,
                  ghost nodeIds: seq<string>, ghost tables: seq<seq<map<Nodes.Edge, real>>>,
                  ghost results: seq<Result<seq<Element>>>)
    returns (r: Result<seq<Element>>, counter: nat)
    requires |layout| == |nodes| && ParentsFirst(layout) && Unique(edges) && EndsIn(edges, nodes)
    requires EdgeIdsOf(edges) == ids0 && named == Numbered(ids0, start).0
    requires AttrsOf(edges) == attrs && IdsOf(nodes) == nodeIds && TablesOf(nodes) == tables
    requires results == EdgeResults(edges, named, attrs, nodes, nodeIds, layout, tables, realText)
    modifies edges`id, nodes`positions
    ensures TablesOf(nodes) == tables && r == Gather(results, |edges|)
    ensures r.Ok? ==> EdgeIdsOf(edges) == named && counter == start + Blanks(ids0, |ids0|)
    ensures r.Err? ==> exists k :: 0 < k <= |edges| && EdgeIdsOf(edges) == Spliced(named, ids0, k)
  {
    counter := start;
    r := Ok([]);
    var k := 0;
    while k < |edges| && r.Ok?
      invariant 0 <= k <= |edges|
      invariant counter == start + Blanks(ids0, k)
      invariant EdgeIdsOf(edges) == Spliced(named, ids0, k)
      invariant AttrsOf(edges) == attrs && IdsOf(nodes) == nodeIds && TablesOf(nodes) == tables
      invariant r == if r.Ok? then Gather(results, k) else Gather(results, |edges|)
      invariant r.Err? ==> 0 < k
    {
      r, counter := EdgeStep(edges, nodes, layout, k, start, counter, r.value, realText, ids0, named, attrs, nodeIds,
                             tables, results);
      k := k + 1;
    }
    if r.Ok? {
      SplicedEnds(named, ids0);
    }
  }

  // ---------------------------------------------------------------- the model

  /** The edges of the walked nodes: the set `make_model` gathers while it walks. */
  function WalkedEdges(nodes: seq<Nodes.Node>): set<Nodes.Edge>
    reads nodes`edges
  {
    set i, j | 0 <= i < |nodes| && 0 <= j < |nodes[i].edges| :: nodes[i].edges[j]
  }

  /** `order` lists each edge of `s` once: an iteration order of the set. */
  predicate Lists(order: seq<Nodes.Edge>, s: set<Nodes.Edge>)
  {
    Unique(order) && (set i | 0 <= i < |order| :: order[i]) == s
  }

  /** Numbering two lists in a row from one counter numbers their concatenation. */
  lemma {:induction false} NumberedAppend(a: seq<string>, b: seq<string>, next: nat)
    ensures var first := Numbered(a, next);
      Numbered(a + b, next) == (first.0 + Numbered(b, first.1).0, Numbered(b, first.1).1)
    decreases |b|
  {
    var first := Numbered(a, next);
    if b == [] {
      assert a + b == a && first.0 + [] == first.0;
    } else {
      var n := |b| - 1;
      NumberedAppend(a, b[..n], next);
      var front := Numbered(b[..n], first.1);
      assert (a + b)[..|a + b| - 1] == a + b[..n];
      assert (a + b)[|a + b| - 1] == b[n];
      var last := if b[n] != "" then b[n] else FreshId(front.1);
      assert Numbered(b, first.1).0 == front.0 + [last];
      assert Numbered(a + b, next).0 == (first.0 + front.0) + [last];
      assert (first.0 + front.0) + [last] == first.0 + (front.0 + [last]);
      assert Numbered(a + b, next).1 == Numbered(b, first.1).1;
    }
  }

  /** What numbering promises of a list of ids: every id is set, a preset id is kept, and
      no two ids that were given out are equal. */
  predicate NumberedWell(before: seq<string>, after: seq<string>)
  {
    && |after| == |before|
    && (forall i :: 0 <= i < |after| ==> after[i] != "")
    && (forall i :: 0 <= i < |before| && before[i] != "" ==> after[i] == before[i])
    && (forall i, j :: 0 <= i < j < |before| && before[i] == "" && before[j] == "" ==> after[i] != after[j])
  }

  /** Nodes then edges numbered from one counter: all ids set, presets kept, and the ids
      given out distinct across nodes and edges. */
  lemma ModelIds(nodeIds: seq<string>, edgeIds: seq<string>)
    ensures var ns := Numbered(nodeIds, 0);
      NumberedWell(nodeIds + edgeIds, ns.0 + Numbered(edgeIds, ns.1).0)
  {
    NumberedAppend(nodeIds, edgeIds, 0);
    Numbering(nodeIds + edgeIds, 0);
  }

  /** The end of `make_model`: the node cells, reversed, then the edge elements under the
      two fixed cells; the node loop's fault comes first, as it stops the function first. */
  function Assemble(nodeCells: Result<seq<Element>>, edgeCells: Result<seq<Element>>, rootSize: Pair,
                    realText: RealText): (r: Result<Element>)
    ensures r.Ok? <==> nodeCells.Ok? && edgeCells.Ok?
    ensures r.Err? ==> r.fault == if nodeCells.Err? then nodeCells.fault else edgeCells.fault
  {
    var n :- nodeCells;
    var e :- edgeCells;
    Ok(GraphModel(Reverse(n) + e, rootSize, realText))
  }

  /** The rest of `make_model` once the node loop is through: the edge loop, continuing
      the counter from `start`, then the model around the given node cells. */
  method EdgesModel(edges: seq<Nodes.Edge>, nodes: seq<Nodes.Node>, layout: seq<Placement>, rootSize: Pair,
                    start: nat, nodeCells: seq<Element>, realText: RealText)
    returns (r: Result<Element>)
    requires |layout| == |nodes| && ParentsFirst(layout) && Unique(edges) && EndsIn(edges, nodes)
    modifies edges`id, nodes`positions
    ensures var es := Numbered(old(EdgeIdsOf(edges)), start);
      && r == Assemble(Ok(nodeCells), Gather(EdgeResults(edges, es.0, old(AttrsOf(edges)), nodes, old(IdsOf(nodes)),
                                                         layout, old(TablesOf(nodes)), realText), |edges|),
                       rootSize, realText)
      && (r.Ok? ==> EdgeIdsOf(edges) == es.0)
  {
    var edgeCells, counter := NameEdges(edges, nodes, layout, start, realText);
    if edgeCells.Err? {
      return Err(edgeCells.fault);
    }
    r := Ok(GraphModel(Reverse(nodeCells) + edgeCells.value, rootSize, realText));
  }

  /** `make_model`: the walked nodes, numbered, give their cells, which are reversed; the
      walked edges, in the iteration order `order` picks for their set, continue the
      numbering and give their elements; the model holds the two fixed cells, then those,
      and takes its page size from the root's size. A fault of a node's record stops the
      node loop, one of an edge stops the edge loop. */
  method MakeModel(nodes: seq<Nodes.Node>, layout: seq<Placement>, rootSize: Pair,
                   order: set<Nodes.Edge> -> seq<Nodes.Edge>, realText: RealText)
    returns (r: Result<Element>)
    requires |layout| == |nodes| && ParentsFirst(layout) && Unique(nodes)
    requires forall s :: Lists(order(s), s)
    requires EndsIn(order(WalkedEdges(nodes)), nodes)
    modifies nodes`id, nodes`positions, WalkedEdges(nodes)`id
    ensures var edges := old(order(WalkedEdges(nodes)));
      var ns := Numbered(old(IdsOf(nodes)), 0);
      var es := Numbered(old(EdgeIdsOf(order(WalkedEdges(nodes)))), ns.1);
      var nodeCells := Collect(NodeResults(ns.0, old(PropsOf(nodes)), old(LinesOf(nodes)), layout, realText), |nodes|);
      var edgeCells := Gather(EdgeResults(edges, es.0, old(AttrsOf(order(WalkedEdges(nodes)))), nodes, ns.0, layout,
                                          old(TablesOf(nodes)), realText), |edges|);
      && r == Assemble(nodeCells, edgeCells, rootSize, realText)
      && (r.Ok? ==> IdsOf(nodes) == ns.0 && EdgeIdsOf(edges) == es.0)
      && (r.Ok? ==> NumberedWell(old(IdsOf(nodes)) + old(EdgeIdsOf(order(WalkedEdges(nodes)))), IdsOf(nodes) + EdgeIdsOf(edges)))
  {
    var edges := order(WalkedEdges(nodes));
    ghost var edgeIds := EdgeIdsOf(edges);
    ghost var attrs := AttrsOf(edges);
    ghost var tables := TablesOf(nodes);
    var nodeCells, counter := NameNodes(nodes, layout, realText);
    if nodeCells.Err? {
      return Err(nodeCells.fault);
    }
    assert EdgeIdsOf(edges) == edgeIds && AttrsOf(edges) == attrs && TablesOf(nodes) == tables;
    r := EdgesModel(edges, nodes, layout, rootSize, counter, nodeCells.value, realText);
    ModelIds(old(IdsOf(nodes)), edgeIds);
  }
}
