/** The property records the layout engine and the diagram builders consume, and the
    error outcomes of the engine (diagen/props-gen.py, diagen/props.py). */
module Props {
  import opened Utils
  import opened Dict

  /** A grid placement request along one axis: `start` is a 1-based track, relative to
      the placement cursor when `relStart`; `end` is a length when `relEnd` and an
      absolute, exclusive track otherwise (a value <= 0 counts back from the last track). */
  datatype Span = Span(start: int, end: int, relStart: bool, relEnd: bool)

  /** `Span()`: the next free track, one track long. */
  const DefaultSpan := Span(0, 1, true, true)

  datatype LayoutKind = BoxLayout | GridLayout

  datatype Formatter = DefaultFormatter | C4Formatter

  /** One value of a drawio style map: `int | float | str | list[str]`. */
  datatype StyleValue = SInt(i: int) | SReal(r: real) | SStr(s: string) | SList(items: seq<string>)

  type Style = Dict<string, StyleValue>

  /** Four paddings, indexed like the source: left, top, right, bottom. */
  type Quad = q: seq<real> | |q| == 4 witness [0.0, 0.0, 0.0, 0.0]

  /** The resolved properties of one node. A negative `size` component asks for the
      layout to compute that extent; `gridSize` is the declared track count per axis. */
  datatype NodeProps = NodeProps(
    direction: Axis,
    layout: LayoutKind,
    scale: real,
    size: Pair,
    padding: Quad,
    gap: Pair,
    virtual: bool,
    align: (Option<real>, Option<real>),
    itemsAlign: Pair,
    subgrid: bool,
    gridSize: (Option<int>, Option<int>),
    gridCell: (Span, Span),
    link: Option<string>,
    labelFormatter: Formatter,
    drawioStyle: Style)

  /** A value held in a property record as the style cascade sees it: `vars(props)` maps
      attribute names to these. Layout and label formatter objects are named by kind. */
  datatype PValue =
    | PNone
    | PBool(b: bool)
    | PInt(i: int)
    | PReal(r: real)
    | PStr(s: string)
    | PStrs(items: seq<string>)
    | PTuple(elems: seq<PValue>)
    | PStyle(style: Style)
    | PLayout(kind: LayoutKind)
    | PFormatter(f: Formatter)

  /** A property record (`vars(props)`) or a partial one (`NodeKeys`, `EdgeKeys`). */
  type Attrs = Dict<string, PValue>

  /** Python's truth value of a property value. */
  predicate Truthy(v: PValue)
  {
    match v
    case PNone => false
    case PBool(b) => b
    case PInt(i) => i != 0
    case PReal(r) => r != 0.0
    case PStr(s) => s != ""
    case PStrs(items) => items != []
    case PTuple(elems) => elems != []
    case PStyle(style) => style != []
    case PLayout(_) => true
    case PFormatter(_) => true
  }

  /** A number as Python's arithmetic sees it: an `int` or a `float`. */
  function Num(v: PValue): Option<real>
  {
    match v
    case PInt(i) => Some(i as real)
    case PReal(r) => Some(r)
    case _ => None
  }

  /** The exceptions the modelled code can raise. */
  datatype Fault =
    | EmptyMax              // `max()` of an empty sequence (ValueError)
    | IndexOutOfRange       // IndexError
    | NoRealParent          // RuntimeError from `real_parent`
    | UnknownClass(name: string)
    | NoSuchRule(prefix: string)  // KeyError from the rule table
    | BadNumber(text: string)     // ValueError from `int()` / `float()`
    | BadType               // TypeError / AttributeError on a value of the wrong kind
    | MissingKey(key: string)     // KeyError / AttributeError for an absent attribute
    | RecursionLimit        // RecursionError

  datatype Result<T> = Ok(value: T) | Err(fault: Fault)
  {
    predicate IsFailure() { Err? }

    function PropagateFailure<U>(): Result<U>
      requires Err?
    {
      Err(fault)
    }

    function Extract(): T
      requires Ok?
    {
      value
    }
  }
}
