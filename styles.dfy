/** The value parsers of the node and edge style rules, the final evaluation of a resolved
    property record, and the helpers the style tables are written with (diagen/styles.py). */
module Styles {
  import opened Utils
  import opened Dict
  import opened Text
  import opened Props
  import StyleMap

  /** `props.key`: an absent attribute is an error. */
  function Field(props: Attrs, key: string): (r: Result<PValue>)
    ensures r.Ok? <==> HasKey(props, key)
    ensures r.Ok? ==> Get(props, key) == Some(r.value)
    ensures r.Err? ==> r.fault == MissingKey(key)
  {
    match Get(props, key)
    case None => Err(MissingKey(key))
    case Some(v) => Ok(v)
  }

  /** `t[i]` for a tuple value. */
  function Item(t: PValue, i: nat): (r: Result<PValue>)
    ensures r.Ok? <==> t.PTuple? && i < |t.elems|
    ensures r.Ok? ==> r.value == t.elems[i]
  {
    if !t.PTuple? then Err(BadType)
    else if i < |t.elems| then Ok(t.elems[i])
    else Err(IndexOutOfRange)
  }

  /** The product of two numbers. */
  function Product(a: PValue, b: PValue): real
    requires Num(a).Some? && Num(b).Some?
  {
    Num(a).value * Num(b).value
  }

  /** `a * b`, which fails unless both are numbers. */
  function Mul(a: PValue, b: PValue): (r: Result<real>)
    ensures r.Ok? <==> Num(a).Some? && Num(b).Some?
  {
    if Num(a).Some? && Num(b).Some? then Ok(Product(a, b)) else Err(BadType)
  }

  /** `float(s)`. */
  function Float(s: string): Result<real>
  {
    match ParseReal(s)
    case None => Err(BadNumber(s))
    case Some(v) => Ok(v)
  }

  /** `int(s)`. */
  function Int(s: string): Result<int>
  {
    match ParseInt(s)
    case None => Err(BadNumber(s))
    case Some(v) => Ok(v)
  }

  // ---------------------------------------------------------------------------------------
  // setAt: one number written into listed positions of a tuple property

  /** Python's index `p` into a sequence of length `n`: a negative index counts from the end. */
  function PyIndex(p: int, n: nat): (r: Option<nat>)
    ensures r.Some? ==> r.value < n
  {
    if 0 <= p < n then Some(p)
    else if -(n as int) <= p < 0 then Some(p + n)
    else None
  }

  /** `result[p] = v` for each `p` of `pos` in turn; `None` is the IndexError of the first
      position out of range. */
  function ReplaceAt(elems: seq<PValue>, pos: seq<int>, v: PValue): Option<seq<PValue>>
    decreases |pos|
  {
    if pos == [] then Some(elems)
    else
      match PyIndex(pos[0], |elems|)
      case None => None
      case Some(i) => ReplaceAt(elems[i := v], pos[1..], v)
  }

  /** Some position of `pos` addresses element `i` of a sequence of length `n`. */
  ghost predicate Listed(pos: seq<int>, n: nat, i: nat)
  {
    exists k :: 0 <= k < |pos| && PyIndex(pos[k], n) == Some(i)
  }

  /** The replacement succeeds exactly when every position is in range; then the elements
      addressed by some position hold `v` and all others are kept. */
  lemma {:induction false} ReplaceAtSpec(elems: seq<PValue>, pos: seq<int>, v: PValue)
    ensures ReplaceAt(elems, pos, v).Some? <==> forall k :: 0 <= k < |pos| ==> PyIndex(pos[k], |elems|).Some?
    ensures ReplaceAt(elems, pos, v).Some? ==>
      var r := ReplaceAt(elems, pos, v).value;
      |r| == |elems| && forall i :: 0 <= i < |elems| ==> r[i] == if Listed(pos, |elems|, i) then v else elems[i]
    decreases |pos|
  {
    if pos != [] {
      match PyIndex(pos[0], |elems|)
      case None =>
      case Some(j) =>
        var rest := pos[1..];
        ReplaceAtSpec(elems[j := v], rest, v);
        forall k | 0 <= k < |rest|
          ensures rest[k] == pos[k + 1]
        {
        }
        if ReplaceAt(elems, pos, v).Some? {
          var r := ReplaceAt(elems, pos, v).value;
          forall i | 0 <= i < |elems|
            ensures r[i] == if Listed(pos, |elems|, i) then v else elems[i]
          {
            if Listed(rest, |elems|, i) {
              var k :| 0 <= k < |rest| && PyIndex(rest[k], |elems|) == Some(i);
              assert PyIndex(pos[k + 1], |elems|) == Some(i);
            } else if i == j {
              assert PyIndex(pos[0], |elems|) == Some(i);
            } else {
              forall k | 0 <= k < |pos|
                ensures PyIndex(pos[k], |elems|) != Some(i)
              {
                if k > 0 {
                  assert pos[k] == rest[k - 1];
                }
              }
            }
          }
        }
    }
  }

  /** The loop of `setAt`: the tuple copied into a list, which is then assigned at each
      listed position in turn. */
  method ReplaceAtList(elems: seq<PValue>, pos: seq<int>, v: PValue) returns (r: Option<seq<PValue>>)
    ensures r == ReplaceAt(elems, pos, v)
  {
    var result := new PValue[|elems|](i requires 0 <= i < |elems| => elems[i]);
    assert result[..] == elems;
    var rest := pos;
    while rest != []
      invariant result.Length == |elems|
      invariant ReplaceAt(result[..], rest, v) == ReplaceAt(elems, pos, v)
      decreases |rest|
    {
      var p := rest[0];
      var i := if p < 0 then p + result.Length else p;
      if i < 0 || i >= result.Length {
        return None;
      }
      ghost var before := result[..];
      result[i] := v;
      assert result[..] == before[i := v];
      rest := rest[1..];
    }
    return Some(result[..]);
  }

  /** `setAt(name, *pos)(value, current)`: the number `value` as the whole of `name` when no
      position is given, otherwise written into the listed positions of the current tuple. */
  function SetAt(name: string, pos: seq<int>, value: string, current: Attrs): Result<Attrs>
  {
    var v :- Float(value);
    if pos == [] then Ok([(name, PReal(v))])
    else
      var t :- Field(current, name);
      if !t.PTuple? then Err(BadType)
      else
        match ReplaceAt(t.elems, pos, PReal(v))
        case None => Err(IndexOutOfRange)
        case Some(elems) => Ok([(name, PTuple(elems))])
  }

  /** `setAt` fails only on a bad number, an absent or non-tuple property, or a position out
      of range; otherwise it sets `name` alone, to a tuple of the same length holding the
      number at the listed positions and the current elements elsewhere. */
  lemma SetAtSpec(name: string, pos: seq<int>, value: string, current: Attrs)
    requires pos != []
    ensures SetAt(name, pos, value, current).Ok? <==>
      ParseReal(value).Some? && Get(current, name).Some? && Get(current, name).value.PTuple? &&
      forall k :: 0 <= k < |pos| ==> PyIndex(pos[k], |Get(current, name).value.elems|).Some?
    ensures SetAt(name, pos, value, current).Ok? ==>
      var e := Get(current, name).value.elems;
      var r := SetAt(name, pos, value, current).value;
      |r| == 1 && r[0].0 == name && r[0].1.PTuple? && |r[0].1.elems| == |e| &&
      forall i :: 0 <= i < |e| ==> r[0].1.elems[i] == if Listed(pos, |e|, i) then PReal(ParseReal(value).value) else e[i]
  {
    if ParseReal(value).Some? && Get(current, name).Some? && Get(current, name).value.PTuple? {
      ReplaceAtSpec(Get(current, name).value.elems, pos, PReal(ParseReal(value).value));
    }
  }

  // ---------------------------------------------------------------------------------------
  // setGridCol

  /** A grid cell placement as the rules store it: `(start, end)`. */
  function Cell(start: int, end: int): PValue
  {
    PTuple([PInt(start), PInt(end)])
  }

  /** `setGridCol(name)(value, _)`: `a/n` is `n` tracks from `a`, `a:b` runs from `a` to `b`,
      `a:` runs to the end (0), and a lone `a` is one track. */
  function SetGridCol(name: string, value: string): Result<Attrs>
  {
    if '/' in value then
      var (h, _, t) := Partition(value, '/');
      var start :- Int(h);
      var length :- Int(t);
      Ok([(name, Cell(start, start + length))])
    else
      var (h, sep, t) := Partition(value, ':');
      var start :- Int(h);
      if !sep then Ok([(name, Cell(start, start + 1))])
      else if t == "" then Ok([(name, Cell(start, 0))])
      else
        var end :- Int(t);
        Ok([(name, Cell(start, end))])
  }

  lemma NoSeparatorInInt(n: int, c: char)
    requires c != '-' && !IsDigit(c)
    ensures c !in IntToString(n)
  {
    if c in IntToString(n) {
      IntToStringChars(n, c);
    }
  }

  /** `grid-col-a/b` spans `b` columns from column `a`. */
  lemma GridColSpan(name: string, a: int, b: int)
    ensures SetGridCol(name, IntToString(a) + "/" + IntToString(b)) == Ok([(name, Cell(a, a + b))])
  {
    var sa, sb := IntToString(a), IntToString(b);
    IntRoundTrip(a);
    IntRoundTrip(b);
    NoSeparatorInInt(a, '/');
    PartitionAt(sa, '/', sb);
    assert (sa + "/" + sb)[|sa|] == '/';
  }

  /** `grid-col-a:b` places the cell from column `a` to column `b`. */
  lemma GridColRange(name: string, a: int, b: int)
    ensures SetGridCol(name, IntToString(a) + ":" + IntToString(b)) == Ok([(name, Cell(a, b))])
  {
    var sa, sb := IntToString(a), IntToString(b);
    IntRoundTrip(a);
    IntRoundTrip(b);
    NoSeparatorInInt(a, '/');
    NoSeparatorInInt(b, '/');
    NoSeparatorInInt(a, ':');
    PartitionAt(sa, ':', sb);
  }

  /** `grid-col-a:` runs from column `a` to the end (0). */
  lemma GridColOpen(name: string, a: int)
    ensures SetGridCol(name, IntToString(a) + ":") == Ok([(name, Cell(a, 0))])
  {
    var sa := IntToString(a);
    IntRoundTrip(a);
    NoSeparatorInInt(a, '/');
    NoSeparatorInInt(a, ':');
    PartitionAt(sa, ':', "");
    assert sa + ":" == sa + [':'] + "";
  }

  /** `grid-col-a` is the single column `a`. */
  lemma GridColSingle(name: string, a: int)
    ensures SetGridCol(name, IntToString(a)) == Ok([(name, Cell(a, a + 1))])
  {
    IntRoundTrip(a);
    NoSeparatorInInt(a, '/');
    NoSeparatorInInt(a, ':');
    PartitionAt(IntToString(a), ':', "");
  }

  // ---------------------------------------------------------------------------------------
  // setAlign

  /** An alignment: `start`, `center` and `end` name -1, 0 and 1, anything else is a number. */
  function AlignValue(value: string): Result<real>
  {
    if value == "start" then Ok(-1.0)
    else if value == "center" then Ok(0.0)
    else if value == "end" then Ok(1.0)
    else Float(value)
  }

  /** `mux2(pos, v, t)` for a tuple value: a pair with `v` first when `pos` is 0 and second
      otherwise, the other component read from `t`. */
  function PMux2(pos: int, v: PValue, t: PValue): Result<PValue>
  {
    if pos == 0 then
      var second :- Item(t, 1);
      Ok(PTuple([v, second]))
    else
      var first :- Item(t, 0);
      Ok(PTuple([first, v]))
  }

  /** On a pair, `PMux2` is the layout's `Mux2`. */
  lemma PMux2Agrees(pos: int, v: PValue, a: PValue, b: PValue)
    ensures PMux2(pos, v, PTuple([a, b])) == Ok(PTuple([Mux2(pos, v, (a, b)).0, Mux2(pos, v, (a, b)).1]))
  {
  }

  /** `setAlign(name, pos)(value, current)`. */
  function SetAlign(name: string, pos: int, value: string, current: Attrs): Result<Attrs>
  {
    var v :- AlignValue(value);
    var t :- Field(current, name);
    var r :- PMux2(pos, PReal(v), t);
    Ok([(name, r)])
  }

  /** `setAlign` sets `name` alone, to a pair whose component `pos` is the alignment and whose
      other component is kept; it fails on a bad number, an absent property, or a current value
      that lacks the kept component. */
  lemma SetAlignSpec(name: string, pos: int, value: string, current: Attrs)
    ensures SetAlign(name, pos, value, current).Ok? <==>
      AlignValue(value).Ok? && Get(current, name).Some? && Get(current, name).value.PTuple? &&
      |Get(current, name).value.elems| >= (if pos == 0 then 2 else 1)
    ensures SetAlign(name, pos, value, current).Ok? ==>
      var e := Get(current, name).value.elems;
      var r := SetAlign(name, pos, value, current).value;
      var a := MainAxis(pos);
      |r| == 1 && r[0].0 == name && r[0].1.PTuple? && |r[0].1.elems| == 2 &&
      r[0].1.elems[a] == PReal(AlignValue(value).value) && r[0].1.elems[Other(a)] == e[Other(a)]
  {
  }

  /** The keywords are shorthands for the numbers -1, 0 and 1. */
  lemma AlignKeywords(name: string, pos: int, current: Attrs)
    ensures SetAlign(name, pos, "start", current) == SetAlign(name, pos, "-1", current)
    ensures SetAlign(name, pos, "center", current) == SetAlign(name, pos, "0", current)
    ensures SetAlign(name, pos, "end", current) == SetAlign(name, pos, "1", current)
  {
    RealRoundTrip(0);
    RealRoundTrip(1);
    assert NatToString(0) == "0" && NatToString(1) == "1";
    assert ParseReal("-1") == Some(-1.0) by {
      assert "-1"[1..] == NatToString(1);
    }
  }

  // ---------------------------------------------------------------------------------------
  // setNodeSize

  /** `setNodeSize(value, _)`: `w/h`, or a single number for both extents. */
  function SetNodeSize(value: string): Result<Attrs>
  {
    var (h, _, t0) := Partition(value, '/');
    var t := if t0 == "" then h else t0;
    var width :- Float(h);
    var height :- Float(t);
    Ok([("size", PTuple([PReal(width), PReal(height)]))])
  }

  /** `size-a/b` sets both extents. */
  lemma NodeSizePair(a: nat, b: nat)
    ensures SetNodeSize(NatToString(a) + "/" + NatToString(b)) == Ok([("size", PTuple([PReal(a as real), PReal(b as real)]))])
  {
    RealRoundTrip(a);
    RealRoundTrip(b);
    NoSeparatorInInt(a, '/');
    assert IntToString(a) == NatToString(a);
    PartitionAt(NatToString(a), '/', NatToString(b));
  }

  /** `size-a` and `size-a/` both set a square. */
  lemma NodeSizeSquare(a: nat)
    ensures SetNodeSize(NatToString(a)) == Ok([("size", PTuple([PReal(a as real), PReal(a as real)]))])
    ensures SetNodeSize(NatToString(a) + "/") == Ok([("size", PTuple([PReal(a as real), PReal(a as real)]))])
  {
    var sa := NatToString(a);
    RealRoundTrip(a);
    NoSeparatorInInt(a, '/');
    assert IntToString(a) == sa;
    PartitionAt(sa, '/', "");
    assert sa + "/" == sa + ['/'] + "";
  }

  // ---------------------------------------------------------------------------------------
  // setEdgeLabelOffset

  /** A label position above 1 in magnitude is a percentage along the edge, mapped from
      0..100 onto drawio's -1..1; a smaller one is taken as it is. */
  function LabelPosition(x: real): real
  {
    if (if x < 0.0 then -x else x) > 1.0 then x / 50.0 - 1.0 else x
  }

  /** A percentage in (1, 100] lands in (-1, 1], and a position in [-1, 1] is kept. */
  lemma LabelPositionRange(x: real)
    ensures 1.0 < x <= 100.0 ==> -1.0 < LabelPosition(x) <= 1.0
    ensures -1.0 <= x <= 1.0 ==> LabelPosition(x) == x
  {
  }

  /** `setEdgeLabelOffset(value, current)`: `pos/offset`, either part may be left empty to
      keep the current one. */
  function SetEdgeLabelOffset(value: string, current: Attrs): Result<Attrs>
  {
    var c :- Field(current, "label_offset");
    var (h, _, t) := Partition(value, '/');
    var v0 :- if h != "" then (var x :- Float(h); Ok(PReal(LabelPosition(x)))) else Item(c, 0);
    var v1 :- if t != "" then (var y :- Float(t); Ok(PReal(y))) else Item(c, 1);
    Ok([("label_offset", PTuple([v0, v1]))])
  }

  /** Each given part replaces its component of the current offset and an empty part keeps it. */
  lemma LabelOffsetParts(h: string, t: string, current: Attrs)
    requires '/' !in h
    requires SetEdgeLabelOffset(h + "/" + t, current).Ok?
    ensures
      var c := Get(current, "label_offset").value;
      var r := SetEdgeLabelOffset(h + "/" + t, current).value;
      |r| == 1 && r[0].0 == "label_offset" && r[0].1.PTuple? && |r[0].1.elems| == 2 &&
      (h != "" ==> ParseReal(h).Some? && r[0].1.elems[0] == PReal(LabelPosition(ParseReal(h).value))) &&
      (h == "" ==> c.PTuple? && |c.elems| >= 1 && r[0].1.elems[0] == c.elems[0]) &&
      (t != "" ==> ParseReal(t).Some? && r[0].1.elems[1] == PReal(ParseReal(t).value)) &&
      (t == "" ==> c.PTuple? && |c.elems| >= 2 && r[0].1.elems[1] == c.elems[1])
  {
    PartitionAt(h, '/', t);
  }

  /** Two numerals set the position (a percentage mapped to -1..1) and the distance. */
  lemma LabelOffsetNumerals(a: nat, b: nat, current: Attrs)
    requires HasKey(current, "label_offset")
    ensures SetEdgeLabelOffset(NatToString(a) + "/" + NatToString(b), current)
            == Ok([("label_offset", PTuple([PReal(LabelPosition(a as real)), PReal(b as real)]))])
  {
    RealRoundTrip(a);
    RealRoundTrip(b);
    var h := NatToString(a);
    assert '/' !in h by {
      assert forall i :: 0 <= i < |h| ==> IsDigit(h[i]);
    }
    PartitionAt(h, '/', NatToString(b));
  }

  /** An empty position keeps the current one and a numeral sets the distance. */
  lemma LabelOffsetDistance(b: nat, current: Attrs, x: PValue, y: PValue)
    requires Get(current, "label_offset") == Some(PTuple([x, y]))
    ensures SetEdgeLabelOffset("/" + NatToString(b), current) == Ok([("label_offset", PTuple([x, PReal(b as real)]))])
  {
    RealRoundTrip(b);
    PartitionAt("", '/', NatToString(b));
    assert "" + "/" + NatToString(b) == "/" + NatToString(b);
  }

  /** `label-75/10` puts the label at 75% along the edge (0.5 in drawio's -1..1), 10 away. */
  lemma LabelOffsetPercentExample(current: Attrs)
    requires HasKey(current, "label_offset")
    ensures SetEdgeLabelOffset("75/10", current) == Ok([("label_offset", PTuple([PReal(0.5), PReal(10.0)]))])
  {
    LabelOffsetNumerals(75, 10, current);
    assert NatToString(75) + "/" + NatToString(10) == "75/10";
  }

  /** A following `label-/20` keeps the position and sets the distance to 20. */
  lemma LabelOffsetDistanceExample(current: Attrs)
    requires Get(current, "label_offset") == Some(PTuple([PReal(0.5), PReal(10.0)]))
    ensures SetEdgeLabelOffset("/20", current) == Ok([("label_offset", PTuple([PReal(0.5), PReal(20.0)]))])
  {
    LabelOffsetDistance(20, current, PReal(0.5), PReal(10.0));
    assert "/" + NatToString(20) == "/20";
  }

  /** At scale 4, `size-5` evaluates to 20 by 20. */
  lemma NodeSizeSquareExample()
    ensures SetNodeSize("5") == Ok([("size", PTuple([PReal(5.0), PReal(5.0)]))])
    ensures ScaleTuple(PTuple([PReal(5.0), PReal(5.0)]), 2, PReal(4.0)) == Ok([PReal(20.0), PReal(20.0)])
  {
    NodeSizeSquare(5);
    assert NatToString(5) == "5";
    ScaleTupleSpec(PTuple([PReal(5.0), PReal(5.0)]), 2, PReal(4.0));
    var r := ScaleTuple(PTuple([PReal(5.0), PReal(5.0)]), 2, PReal(4.0)).value;
    assert r[0] == PReal(20.0) && r[1] == PReal(20.0);
    assert r == [PReal(20.0), PReal(20.0)];
  }

  /** At scale 4, `size-5/3` evaluates to 20 by 12. */
  lemma NodeSizePairExample()
    ensures SetNodeSize("5/3") == Ok([("size", PTuple([PReal(5.0), PReal(3.0)]))])
    ensures ScaleTuple(PTuple([PReal(5.0), PReal(3.0)]), 2, PReal(4.0)) == Ok([PReal(20.0), PReal(12.0)])
  {
    NodeSizePair(5, 3);
    assert NatToString(5) == "5" && NatToString(3) == "3";
    assert "5" + "/" + "3" == "5/3";
    ScaleTupleSpec(PTuple([PReal(5.0), PReal(3.0)]), 2, PReal(4.0));
    var r := ScaleTuple(PTuple([PReal(5.0), PReal(3.0)]), 2, PReal(4.0)).value;
    assert r[0] == PReal(20.0) && r[1] == PReal(12.0);
    assert r == [PReal(20.0), PReal(12.0)];
  }

  // ---------------------------------------------------------------------------------------
  // drawio style setters

  /** `setDashed(value, _)`: dashes as `dash-gap`, or one length for both. */
  function SetDashed(value: string): Attrs
  {
    var (h, sep, t0) := Partition(value, '-');
    var t := if sep then t0 else h;
    [("drawio_style", PStyle([("dashed", SInt(1)), ("dashPattern", SStr(h + " " + t))]))]
  }

  lemma DashedForms(a: string, b: string)
    requires '-' !in a
    ensures SetDashed(a + "-" + b) == [("drawio_style", PStyle([("dashed", SInt(1)), ("dashPattern", SStr(a + " " + b))]))]
    ensures SetDashed(a) == [("drawio_style", PStyle([("dashed", SInt(1)), ("dashPattern", SStr(a + " " + a))]))]
  {
    PartitionAt(a, '-', b);
  }

  /** `setShadow(value, _)`: `blur/opacity`, the opacity optional. */
  function SetShadow(value: string): Attrs
  {
    var (h, _, t) := Partition(value, '/');
    var style := [("shadow", SInt(1)), ("shadowBlur", SStr(h))];
    [("drawio_style", PStyle(if t != "" then style + [("shadowOpacity", SStr(t))] else style))]
  }

  lemma ShadowForms(a: string, b: string)
    requires '/' !in a && b != ""
    ensures SetShadow(a) == [("drawio_style", PStyle([("shadow", SInt(1)), ("shadowBlur", SStr(a))]))]
    ensures SetShadow(a + "/" + b) ==
      [("drawio_style", PStyle([("shadow", SInt(1)), ("shadowBlur", SStr(a)), ("shadowOpacity", SStr(b))]))]
  {
    PartitionAt(a, '/', b);
    assert a + "/" + b == a + ['/'] + b;
    assert Partition(a + "/" + b, '/') == (a, true, b);
    var style := [("shadow", SInt(1)), ("shadowBlur", SStr(a))];
    assert style + [("shadowOpacity", SStr(b))] == [("shadow", SInt(1)), ("shadowBlur", SStr(a)), ("shadowOpacity", SStr(b))];
  }

  /** A drawio style that only pops `keys`. */
  function PopStyle(keys: seq<string>): Style
  {
    [("@pop", SList(keys))]
  }

  /** `setEdgeEndSpacing(prefix, end)(value, current)`: the spacing of one end, and the end's
      own drawio spacing key popped so that the evaluated one is used. */
  function SetEdgeEndSpacing(prefix: string, end: int, value: string, current: Attrs): Result<Attrs>
  {
    var v :- Float(value);
    var s :- Field(current, "spacing");
    var spacing :- PMux2(end, PReal(v), s);
    Ok([("spacing", spacing), ("drawio_style", PStyle(PopStyle([prefix + "PerimeterSpacing"])))])
  }

  /** `setEdgeSpacing(value, _)`: the spacing of both ends. */
  function SetEdgeSpacing(value: string): Result<Attrs>
  {
    var v :- Float(value);
    Ok([("spacing_both", PReal(v)), ("drawio_style", PStyle(PopStyle(["perimeterSpacing"])))])
  }

  /** `cstyle(conflict_keys, **style)`: a style that, merged into another, first drops the
      conflicting keys. Keyword names cannot be '@pop', so it is always added last. */
  function Cstyle(conflictKeys: seq<string>, style: Style): Style
  {
    style + [("@pop", SList(conflictKeys))]
  }

  /** Merging a `cstyle` never fails; its own keys are set, the conflicting keys it does not
      set are dropped, and every other key is kept. */
  lemma CstyleSwitches(oldStyle: Style, conflictKeys: seq<string>, style: Style, k: string)
    requires Distinct(style) && !HasKey(style, "@pop") && k != "@pop"
    ensures StyleMap.MergeDrawioStyle(oldStyle, Cstyle(conflictKeys, style)).Ok?
    ensures Get(StyleMap.MergeDrawioStyle(oldStyle, Cstyle(conflictKeys, style)).value, k) ==
      if HasKey(style, k) then Get(style, k) else if k in conflictKeys then None else Get(oldStyle, k)
  {
    var c := Cstyle(conflictKeys, style);
    GetAppend(style, "@pop", SList(conflictKeys), "@pop");
    GetAppend(style, "@pop", SList(conflictKeys), k);
    AppendDistinct(style, "@pop", SList(conflictKeys));
    StyleMap.MergeDrawioStyleGet(oldStyle, c, k);
  }

  lemma {:induction false} GetAppend<V>(d: Dict<string, V>, key: string, v: V, k: string)
    requires !HasKey(d, key)
    ensures Get(d + [(key, v)], k) == if HasKey(d, k) then Get(d, k) else if k == key then Some(v) else None
    ensures HasKey(d + [(key, v)], k) <==> HasKey(d, k) || k == key
  {
    if d != [] {
      GetAppend(d[1..], key, v, k);
      assert (d + [(key, v)])[1..] == d[1..] + [(key, v)];
      assert Keys(d) == [d[0].0] + Keys(d[1..]);
      assert Keys(d + [(key, v)]) == [d[0].0] + Keys(d[1..] + [(key, v)]);
    }
  }

  lemma AppendDistinct<V>(d: Dict<string, V>, key: string, v: V)
    requires Distinct(d) && !HasKey(d, key)
    ensures Distinct(d + [(key, v)])
  {
    assert forall i :: 0 <= i < |d| ==> Keys(d)[i] == d[i].0;
  }

  /** `default_label_formatter(props, label)`: the lines of the label joined by line breaks. */
  function DefaultLabel(lines: seq<string>): string
  {
    Join(lines, "\n")
  }

  /** The lines come back from its text. */
  lemma DefaultLabelLines(lines: seq<string>)
    requires |lines| >= 1
    requires forall i :: 0 <= i < |lines| ==> '\n' !in lines[i]
    ensures Split(DefaultLabel(lines), '\n') == lines
  {
    JoinSplit(lines, '\n');
  }

  // ---------------------------------------------------------------------------------------
  // eval_node_props / eval_edge_props

  /** Field `i` of a node property record, in declaration order (diagen/props.py). */
  function NodeField(i: nat): string
    requires i < 14
  {
    if i == 0 then "direction"
    else if i == 1 then "layout"
    else if i == 2 then "scale"
    else if i == 3 then "size"
    else if i == 4 then "padding"
    else if i == 5 then "gap"
    else if i == 6 then "virtual"
    else if i == 7 then "align"
    else if i == 8 then "items_align"
    else if i == 9 then "grid_columns"
    else if i == 10 then "grid_col"
    else if i == 11 then "link"
    else if i == 12 then "label_formatter"
    else "drawio_style"
  }

  function NodeFields(): (fs: seq<string>)
    ensures |fs| == 14
    ensures fs[3] == "size" && fs[4] == "padding" && fs[5] == "gap"
  {
    seq(14, i requires 0 <= i < 14 => NodeField(i))
  }

  /** Field `i` of an edge property record: the fields the edge defaults give. */
  function EdgeField(i: nat): string
    requires i < 7
  {
    if i == 0 then "scale"
    else if i == 1 then "arc_size"
    else if i == 2 then "label_formatter"
    else if i == 3 then "label_offset"
    else if i == 4 then "spacing"
    else if i == 5 then "spacing_both"
    else "drawio_style"
  }

  function EdgeFields(): (fs: seq<string>)
    ensures |fs| == 7
  {
    seq(7, i requires 0 <= i < 7 => EdgeField(i))
  }

  /** The first field, from `k` on, that is neither changed nor held by `props`. */
  function MissingFrom(fields: seq<string>, props: Attrs, changes: map<nat, PValue>, k: nat): (r: Option<nat>)
    ensures r.None? ==> forall i :: k <= i < |fields| && i !in changes ==> HasKey(props, fields[i])
    ensures r.Some? ==>
      k <= r.value < |fields| && r.value !in changes && !HasKey(props, fields[r.value]) &&
      (forall i :: k <= i < r.value && i !in changes ==> HasKey(props, fields[i]))
    decreases |fields| - k
  {
    if k >= |fields| then None
    else if k !in changes && !HasKey(props, fields[k]) then Some(k)
    else MissingFrom(fields, props, changes, k + 1)
  }

  /** `dataclasses.replace(props, **changes)`: a record of exactly `fields`, in order, each
      taken from `changes` (keyed by the field's position) when given there and read from
      `props` otherwise; the first field in neither is an error. */
  function Replace(fields: seq<string>, props: Attrs, changes: map<nat, PValue>): (r: Result<Attrs>)
    ensures r.Ok? <==> forall i :: 0 <= i < |fields| && i !in changes ==> HasKey(props, fields[i])
    ensures r.Ok? ==> |r.value| == |fields|
  {
    match MissingFrom(fields, props, changes, 0)
    case Some(i) => Err(MissingKey(fields[i]))
    case None =>
      Ok(seq(|fields|, i requires 0 <= i < |fields| =>
        (fields[i], if i in changes then changes[i] else Get(props, fields[i]).value)))
  }

  /** The replaced record has exactly the fields, in order. */
  lemma ReplaceKeys(fields: seq<string>, props: Attrs, changes: map<nat, PValue>)
    requires Replace(fields, props, changes).Ok?
    ensures Keys(Replace(fields, props, changes).value) == fields
  {
  }

  /** Field `i` of the replaced record holds its value from `changes`, or else `props`'s. */
  lemma ReplaceGet(fields: seq<string>, props: Attrs, changes: map<nat, PValue>, i: nat)
    requires Replace(fields, props, changes).Ok? && i < |fields|
    ensures Replace(fields, props, changes).value[i].0 == fields[i]
    ensures i in changes ==> Replace(fields, props, changes).value[i].1 == changes[i]
    ensures i !in changes ==> Get(props, fields[i]) == Some(Replace(fields, props, changes).value[i].1)
  {
  }

  /** Each of `xs`, front to back, multiplied by the scale. */
  function ScaleAll(xs: seq<PValue>, m: PValue): Result<seq<PValue>>
  {
    if xs == [] then Ok([])
    else
      var y :- Mul(xs[0], m);
      var rest :- ScaleAll(xs[1..], m);
      Ok([PReal(y)] + rest)
  }

  /** Scaling succeeds exactly when the scale and every component are numbers, and then
      gives each component multiplied by the scale. */
  lemma {:induction false} ScaleAllSpec(xs: seq<PValue>, m: PValue)
    ensures ScaleAll(xs, m).Ok? <==> xs == [] || (Num(m).Some? && forall i :: 0 <= i < |xs| ==> Num(xs[i]).Some?)
    ensures ScaleAll(xs, m).Ok? ==>
      var r := ScaleAll(xs, m).value;
      |r| == |xs| && forall i :: 0 <= i < |xs| ==> Num(xs[i]).Some? && Num(m).Some? && r[i] == PReal(Product(xs[i], m))
  {
    if xs != [] {
      ScaleAllSpec(xs[1..], m);
      if ScaleAll(xs, m).Ok? {
        var r, rest := ScaleAll(xs, m).value, ScaleAll(xs[1..], m).value;
        forall i | 0 < i < |xs|
          ensures Num(xs[i]).Some? && r[i] == PReal(Product(xs[i], m))
        {
          assert xs[i] == xs[1..][i - 1] && r[i] == rest[i - 1];
        }
      } else if Num(m).Some? && Mul(xs[0], m).Ok? {
        assert exists i :: 0 <= i < |xs[1..]| && Num(xs[1..][i]).None?;
        var i :| 0 <= i < |xs[1..]| && Num(xs[1..][i]).None?;
        assert Num(xs[i + 1]).None?;
      }
    }
  }

  /** The first `n` components of a tuple, each multiplied by the scale. */
  function ScaleTuple(t: PValue, n: nat, m: PValue): Result<seq<PValue>>
  {
    if !t.PTuple? then Err(BadType)
    else if |t.elems| < n then Err(IndexOutOfRange)
    else ScaleAll(t.elems[..n], m)
  }

  /** `t` has `n` number components, each of which `Scaled` multiplies by `m`. */
  ghost predicate Scalable(t: PValue, n: nat, m: PValue)
  {
    (n > 0 ==> Num(m).Some?) && t.PTuple? && n <= |t.elems| && forall i :: 0 <= i < n ==> Num(t.elems[i]).Some?
  }

  lemma ScaleTupleSpec(t: PValue, n: nat, m: PValue)
    ensures ScaleTuple(t, n, m).Ok? <==> Scalable(t, n, m)
    ensures ScaleTuple(t, n, m).Ok? ==> ScaledBy(t, n, m, PTuple(ScaleTuple(t, n, m).value))
  {
    if t.PTuple? && n <= |t.elems| {
      var xs := t.elems[..n];
      ScaleAllSpec(xs, m);
      assert forall i :: 0 <= i < n ==> xs[i] == t.elems[i];
    }
  }

  /** The scaled size, gap and padding of a node record, read and multiplied in the order
      `eval_node_props` does. */
  function NodeScaling(props: Attrs): Result<(PValue, PValue, PValue)>
  {
    var m :- Field(props, "scale");
    var s :- Field(props, "size");
    var g :- Field(props, "gap");
    var p :- Field(props, "padding");
    var size :- ScaleTuple(s, 2, m);
    var gap :- ScaleTuple(g, 2, m);
    var padding :- ScaleTuple(p, 4, m);
    Ok((PTuple(size), PTuple(gap), PTuple(padding)))
  }

  /** `eval_node_props(props)`: the record with its size, gap and padding (fields 3, 5 and
      4) multiplied by its scale. */
  function EvalNodeProps(props: Attrs): Result<Attrs>
  {
    var scaled :- NodeScaling(props);
    Replace(NodeFields(), props, NodeChanges(scaled))
  }

  /** The fields node evaluation replaces: size (3), gap (5) and padding (4). */
  function NodeChanges(scaled: (PValue, PValue, PValue)): map<nat, PValue>
  {
    map[3 := scaled.0, 5 := scaled.1, 4 := scaled.2]
  }

  /** The scaling succeeds exactly when the scale and the three tuples are present and the
      scaled components are numbers; it gives the three tuples scaled. */
  lemma NodeScalingSpec(props: Attrs)
    ensures NodeScaling(props).Ok? <==>
      Get(props, "scale").Some? && Get(props, "size").Some? && Get(props, "gap").Some? && Get(props, "padding").Some? &&
      Scalable(Get(props, "size").value, 2, Get(props, "scale").value) &&
      Scalable(Get(props, "gap").value, 2, Get(props, "scale").value) &&
      Scalable(Get(props, "padding").value, 4, Get(props, "scale").value)
    ensures NodeScaling(props).Ok? ==>
      var c := NodeScaling(props).value;
      var m := Get(props, "scale").value;
      ScaledBy(Get(props, "size").value, 2, m, c.0) &&
      ScaledBy(Get(props, "gap").value, 2, m, c.1) &&
      ScaledBy(Get(props, "padding").value, 4, m, c.2)
  {
    if Get(props, "scale").Some? && Get(props, "size").Some? && Get(props, "gap").Some? && Get(props, "padding").Some? {
      var m := Get(props, "scale").value;
      ScaleTupleSpec(Get(props, "size").value, 2, m);
      ScaleTupleSpec(Get(props, "gap").value, 2, m);
      ScaleTupleSpec(Get(props, "padding").value, 4, m);
    }
  }

  /** The node record evaluates exactly when the scaling succeeds and it has every node
      field. */
  lemma EvalNodePropsOk(props: Attrs)
    ensures EvalNodeProps(props).Ok? <==>
      NodeScaling(props).Ok? && forall i :: 0 <= i < |NodeFields()| ==> HasKey(props, NodeFields()[i])
  {
  }

  /** The evaluated node record holds exactly the node fields, in order, and every field
      other than size, padding and gap (fields 3, 4 and 5) is kept. */
  lemma EvalNodePropsKeeps(props: Attrs, i: nat)
    requires EvalNodeProps(props).Ok?
    requires i < |NodeFields()| && i != 3 && i != 4 && i != 5
    ensures Keys(EvalNodeProps(props).value) == NodeFields()
    ensures Get(props, NodeFields()[i]) == Some(EvalNodeProps(props).value[i].1)
  {
    var c := NodeScaling(props).value;
    var fs, changes := NodeFields(), NodeChanges(c);
    assert EvalNodeProps(props) == Replace(fs, props, changes);
    assert i !in changes;
    ReplaceKeys(fs, props, changes);
    ReplaceGet(fs, props, changes, i);
  }

  /** The evaluated size, padding and gap (fields 3, 4 and 5) are the record's own,
      multiplied by its scale. */
  lemma EvalNodePropsScales(props: Attrs)
    requires EvalNodeProps(props).Ok?
    ensures
      var r := EvalNodeProps(props).value;
      var m := Get(props, "scale").value;
      |r| == 14 &&
      ScaledBy(Get(props, "size").value, 2, m, r[3].1) &&
      ScaledBy(Get(props, "padding").value, 4, m, r[4].1) &&
      ScaledBy(Get(props, "gap").value, 2, m, r[5].1)
  {
    NodeScalingSpec(props);
    var c := NodeScaling(props).value;
    assert EvalNodeProps(props) == Replace(NodeFields(), props, NodeChanges(c));
    ReplaceGet(NodeFields(), props, NodeChanges(c), 3);
    ReplaceGet(NodeFields(), props, NodeChanges(c), 4);
    ReplaceGet(NodeFields(), props, NodeChanges(c), 5);
  }

  /** `t'` is the first `n` components of `t`, each multiplied by the number `m`. */
  ghost predicate ScaledBy(t: PValue, n: nat, m: PValue, t': PValue)
  {
    t.PTuple? && t'.PTuple? && n <= |t.elems| && |t'.elems| == n &&
    forall i :: 0 <= i < n ==>
      Num(t.elems[i]).Some? && Num(m).Some? && t'.elems[i] == PReal(Product(t.elems[i], m))
  }

  /** One computed drawio entry, `key = m * v`, when `v` is not None. */
  function Computed(key: string, m: PValue, v: PValue): Result<Style>
  {
    if v.PNone? then Ok([])
    else
      var x :- Mul(m, v);
      Ok([(key, SReal(x))])
  }

  /** The drawio value `m * v` a set property `v` gives under scale `m`. */
  function Scaled(m: PValue, v: PValue): Option<StyleValue>
  {
    if v.PNone? || Num(m).None? || Num(v).None? then None
    else Some(SReal(Product(m, v)))
  }

  /** The four entries computed from the arc size and the spacings, in the order they are set. */
  function Entries(m: PValue, arc: PValue, both: PValue, source: PValue, target: PValue): Result<Style>
  {
    var a :- Computed("arcSize", m, arc);
    var b :- Computed("perimeterSpacing", m, both);
    var c :- Computed("sourcePerimeterSpacing", m, source);
    var d :- Computed("targetPerimeterSpacing", m, target);
    Ok(a + b + c + d)
  }

  /** The drawio entries an evaluated edge computes: arc size, spacing at both ends, at the
      source and at the target, each scaled and each only when set. */
  function EdgeComputed(props: Attrs): Result<Style>
  {
    var m :- Field(props, "scale");
    var arc :- Field(props, "arc_size");
    var both :- Field(props, "spacing_both");
    var spacing :- Field(props, "spacing");
    var source :- Item(spacing, 0);
    var target :- Item(spacing, 1);
    Entries(m, arc, both, source, target)
  }

  /** The drawio style of an evaluated edge: the computed entries updated with the record's
      own drawio style, or the record's own style alone when nothing is computed. */
  function EdgeStyle(props: Attrs): Result<PValue>
  {
    var computed :- EdgeComputed(props);
    var own :- Field(props, "drawio_style");
    if computed == [] then Ok(own)
    else if own.PStyle? then Ok(PStyle(Update(computed, own.style)))
    else Err(BadType)
  }

  /** `eval_edge_props(props)`: the label offset's second component (the distance from the
      edge) multiplied by the scale, and the drawio style completed by `EdgeStyle`. */
  function EvalEdgeProps(props: Attrs): Result<Attrs>
  {
    var m :- Field(props, "scale");
    var lo :- Field(props, "label_offset");
    var style :- EdgeStyle(props);
    var lo0 :- Item(lo, 0);
    var lo1 :- Item(lo, 1);
    var y :- Mul(lo1, m);
    Replace(EdgeFields(), props, EdgeChanges(lo0, y, style))
  }

  /** The fields edge evaluation replaces: the label offset (3) and the drawio style (6). */
  function EdgeChanges(position: PValue, distance: real, style: PValue): map<nat, PValue>
  {
    map[3 := PTuple([position, PReal(distance)]), 6 := style]
  }

  /** The property a computed drawio key is derived from, by key: an independent statement
      of which record value each of the four computed keys scales. */
  function ComputedSource(props: Attrs, k: string): Option<PValue>
  {
    if k == "arcSize" then Get(props, "arc_size")
    else if k == "perimeterSpacing" then Get(props, "spacing_both")
    else if k == "sourcePerimeterSpacing" || k == "targetPerimeterSpacing" then
      var spacing: Option<PValue> := Get(props, "spacing");
      var i := if k == "sourcePerimeterSpacing" then 0 else 1;
      if spacing.Some? && spacing.value.PTuple? && i < |spacing.value.elems| then Some(spacing.value.elems[i])
      else None
    else None
  }

  /** The value computed for drawio key `k`: the scale times its source, when that is set. */
  function ComputedValue(props: Attrs, k: string): Option<StyleValue>
  {
    match (Get(props, "scale"), ComputedSource(props, k))
    case (Some(m), Some(v)) => Scaled(m, v)
    case _ => None
  }

  lemma ComputedGet(key: string, m: PValue, v: PValue, k: string)
    requires Computed(key, m, v).Ok?
    ensures Get(Computed(key, m, v).value, k) == if k == key then Scaled(m, v) else None
  {
    if !v.PNone? {
      assert Mul(m, v).Ok?;
      assert Num(m).Some? && Num(v).Some?;
      var e := Computed(key, m, v).value;
      assert e == [(key, SReal(Product(m, v)))];
      assert e[1..] == [];
    }
  }

  /** Each of the four computed keys holds its scaled source, and no other key is present. */
  lemma EntriesGet(m: PValue, arc: PValue, both: PValue, source: PValue, target: PValue, k: string)
    requires Entries(m, arc, both, source, target).Ok?
    ensures Get(Entries(m, arc, both, source, target).value, k) ==
      if k == "arcSize" then Scaled(m, arc)
      else if k == "perimeterSpacing" then Scaled(m, both)
      else if k == "sourcePerimeterSpacing" then Scaled(m, source)
      else if k == "targetPerimeterSpacing" then Scaled(m, target)
      else None
  {
    var a := Computed("arcSize", m, arc).value;
    var b := Computed("perimeterSpacing", m, both).value;
    var c := Computed("sourcePerimeterSpacing", m, source).value;
    var d := Computed("targetPerimeterSpacing", m, target).value;
    assert Entries(m, arc, both, source, target).value == a + b + c + d;
    GetConcat(a, b, k);
    GetConcat(a + b, c, k);
    GetConcat(a + b + c, d, k);
    ComputedGet("arcSize", m, arc, k);
    ComputedGet("perimeterSpacing", m, both, k);
    ComputedGet("sourcePerimeterSpacing", m, source, k);
    ComputedGet("targetPerimeterSpacing", m, target, k);
  }

  /** The computed entries hold exactly the computed value of each of the four keys. */
  lemma EdgeComputedGet(props: Attrs, k: string)
    requires EdgeComputed(props).Ok?
    ensures Get(EdgeComputed(props).value, k) == ComputedValue(props, k)
  {
    var m, arc, both := Get(props, "scale").value, Get(props, "arc_size").value, Get(props, "spacing_both").value;
    var spacing := Get(props, "spacing").value;
    assert Item(spacing, 1).Ok?;
    var source, target := spacing.elems[0], spacing.elems[1];
    assert EdgeComputed(props) == Entries(m, arc, both, source, target);
    EntriesGet(m, arc, both, source, target, k);
    if k == "arcSize" {
      assert ComputedSource(props, k) == Some(arc);
    } else if k == "perimeterSpacing" {
      assert ComputedSource(props, k) == Some(both);
    } else if k == "sourcePerimeterSpacing" {
      assert ComputedSource(props, k) == Some(source);
    } else if k == "targetPerimeterSpacing" {
      assert ComputedSource(props, k) == Some(target);
    } else {
      assert ComputedSource(props, k) == None;
    }
  }

  /** The evaluated drawio style holds the record's own value for every key the record's
      style sets, and the computed value (scale times arc size or spacing) for the four
      computed keys it does not set; all other keys are absent. */
  lemma EdgeStyleGet(props: Attrs, own: Style, k: string)
    requires EdgeStyle(props).Ok?
    requires Get(props, "drawio_style") == Some(PStyle(own)) && Distinct(own)
    ensures EdgeStyle(props).value.PStyle?
    ensures Get(EdgeStyle(props).value.style, k) == if HasKey(own, k) then Get(own, k) else ComputedValue(props, k)
  {
    var computed := EdgeComputed(props).value;
    EdgeComputedGet(props, k);
    if computed != [] {
      GetUpdate(computed, own, k);
    }
  }

  /** `space-N` pops 'perimeterSpacing' from the drawio style it is merged into and keeps
      every other key, so that the spacing `EdgeStyle` computes is the one drawio sees. */
  lemma SpacingPopped(oldStyle: Style, k: string)
    ensures StyleMap.MergeDrawioStyle(oldStyle, PopStyle(["perimeterSpacing"])).Ok?
    ensures Get(StyleMap.MergeDrawioStyle(oldStyle, PopStyle(["perimeterSpacing"])).value, k) ==
      if k == "perimeterSpacing" then None else Get(oldStyle, k)
  {
    var style := PopStyle(["perimeterSpacing"]);
    assert Get(style, "@pop") == Some(SList(["perimeterSpacing"]));
    assert Remove(style, "@pop") == [];
    assert StyleMap.MergeDrawioStyle(oldStyle, style) == Ok(RemoveAll(oldStyle, ["perimeterSpacing"]));
    GetRemoveAll(oldStyle, ["perimeterSpacing"], k);
  }

  /** What a successful edge evaluation has replaced: the record it was given, with the
      scaled label offset as field 3 and the completed drawio style as field 6. */
  lemma EvalEdgePropsReplaces(props: Attrs)
    requires EvalEdgeProps(props).Ok?
    ensures
      var lo := Get(props, "label_offset").value;
      lo.PTuple? && |lo.elems| >= 2 && EdgeStyle(props).Ok? &&
      EvalEdgeProps(props) == Replace(EdgeFields(), props, EdgeChanges(
        lo.elems[0], Mul(lo.elems[1], Get(props, "scale").value).value, EdgeStyle(props).value))
  {
    assert Field(props, "scale").Ok? && Field(props, "label_offset").Ok?;
    var m, lo := Get(props, "scale").value, Get(props, "label_offset").value;
    assert EdgeStyle(props).Ok?;
    assert Item(lo, 0).Ok? && Item(lo, 1).Ok?;
    assert Mul(lo.elems[1], m).Ok?;
    var changes := EdgeChanges(Item(lo, 0).value, Mul(Item(lo, 1).value, m).value, EdgeStyle(props).value);
    assert EvalEdgeProps(props) == Replace(EdgeFields(), props, changes);
    assert Item(lo, 0).value == lo.elems[0];
    assert Item(lo, 1).value == lo.elems[1];
    assert changes == EdgeChanges(lo.elems[0], Mul(lo.elems[1], m).value, EdgeStyle(props).value);
  }

  /** The evaluated edge record holds exactly the edge fields, in order, and keeps every
      field other than the label offset (3) and the drawio style (6). */
  lemma EvalEdgePropsKeeps(props: Attrs, i: nat)
    requires EvalEdgeProps(props).Ok?
    requires i < |EdgeFields()| && i != 3 && i != 6
    ensures Keys(EvalEdgeProps(props).value) == EdgeFields()
    ensures Get(props, EdgeFields()[i]) == Some(EvalEdgeProps(props).value[i].1)
  {
    EvalEdgePropsReplaces(props);
    var lo := Get(props, "label_offset").value;
    var changes := EdgeChanges(lo.elems[0], Mul(lo.elems[1], Get(props, "scale").value).value, EdgeStyle(props).value);
    ReplaceKeys(EdgeFields(), props, changes);
    ReplaceGet(EdgeFields(), props, changes, i);
  }

  /** The evaluated label offset keeps its position along the edge and multiplies its distance
      from the edge by the scale; the drawio style is `EdgeStyle`'s. */
  lemma EvalEdgePropsValues(props: Attrs)
    requires EvalEdgeProps(props).Ok?
    ensures
      var r := EvalEdgeProps(props).value;
      var lo := Get(props, "label_offset").value;
      |r| == 7 && lo.PTuple? && |lo.elems| >= 2 &&
      r[3].1 == PTuple([lo.elems[0], PReal(Mul(lo.elems[1], Get(props, "scale").value).value)]) &&
      r[6].1 == EdgeStyle(props).value
  {
    EvalEdgePropsReplaces(props);
    var lo := Get(props, "label_offset").value;
    var changes := EdgeChanges(lo.elems[0], Mul(lo.elems[1], Get(props, "scale").value).value, EdgeStyle(props).value);
    ReplaceGet(EdgeFields(), props, changes, 3);
    ReplaceGet(EdgeFields(), props, changes, 6);
  }

}
