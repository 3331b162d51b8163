/** The class/style cascade (diagen/stylemap.py): style strings, `@pop`-aware merging of
    drawio styles, rule matching by prefix, and the resolution of class lists and property
    records into a property record that is updated in place. */
module StyleMap {
  import opened Utils
  import opened Dict
  import DictOps = Dict
  import opened Text
  import opened Props

  /** The key of one `key=value` item: the text before its first '='. */
  function ItemKey(item: string): string
  {
    Partition(item, '=').0
  }

  /** The value of one `key=value` item: the text after its first '=' (empty without one). */
  function ItemValue(item: string): string
  {
    Partition(item, '=').2
  }

  /** The dict comprehension over the `;`-separated items of a style string: empty items
      are skipped, and a repeated key keeps its first place and its last value. */
  function ParseItems(items: seq<string>): Style
    decreases |items|
  {
    if items == [] then []
    else
      var d := ParseItems(items[..|items| - 1]);
      var it := items[|items| - 1];
      if it == "" then d else Set(d, ItemKey(it), SStr(ItemValue(it)))
  }

  /** A parsed style has each key once, and its keys are exactly those of the non-empty items. */
  lemma {:induction false} ParseItemsKeys(items: seq<string>)
    ensures Distinct(ParseItems(items))
    ensures forall i :: 0 <= i < |items| && items[i] != "" ==> HasKey(ParseItems(items), ItemKey(items[i]))
    ensures forall k :: HasKey(ParseItems(items), k) ==> exists i :: 0 <= i < |items| && items[i] != "" && ItemKey(items[i]) == k
    decreases |items|
  {
    if items != [] {
      var front := items[..|items| - 1];
      ParseItemsKeys(front);
      var d := ParseItems(front);
      var it := items[|items| - 1];
      assert forall i :: 0 <= i < |items| - 1 ==> front[i] == items[i];
      if it != "" {
        SetDistinct(d, ItemKey(it), SStr(ItemValue(it)));
        var r := Set(d, ItemKey(it), SStr(ItemValue(it)));
        assert r == ParseItems(items);
        forall k
          ensures HasKey(r, k) <==> HasKey(d, k) || k == ItemKey(it)
        {
          GetSet(d, ItemKey(it), SStr(ItemValue(it)), k);
        }
        forall k | HasKey(r, k)
          ensures exists i :: 0 <= i < |items| && items[i] != "" && ItemKey(items[i]) == k
        {
          if k == ItemKey(it) {
            assert items[|items| - 1] != "" && ItemKey(items[|items| - 1]) == k;
          } else {
            var i :| 0 <= i < |front| && front[i] != "" && ItemKey(front[i]) == k;
            assert items[i] == front[i];
          }
        }
      }
    }
  }

  /** The parsed form of a style string such as `"rounded=1;html=1"`. */
  function ParseStyle(s: string): Style
  {
    ParseItems(Split(s, ';'))
  }

  /** The last non-empty item decides the value of its key. */
  lemma LastItemWins(items: seq<string>)
    requires |items| > 0 && items[|items| - 1] != ""
    ensures Get(ParseItems(items), ItemKey(items[|items| - 1])) == Some(SStr(ItemValue(items[|items| - 1])))
  {
    var it := items[|items| - 1];
    GetSet(ParseItems(items[..|items| - 1]), ItemKey(it), SStr(ItemValue(it)), ItemKey(it));
  }

  /** `get_style(style)` without its cache: None (absent or an explicit None) is `{}`, a
      dict is returned as it is, a string is parsed; any other value is taken through
      `style or ''`, so a false one parses as `''` and a true one fails on `split`. */
  function GetStyle(style: Option<PValue>): Result<Style>
  {
    match style
    case None => Ok([])
    case Some(PNone) => Ok([])
    case Some(PStyle(d)) => Ok(d)
    case Some(PStr(s)) => Ok(ParseStyle(s))
    case Some(v) => if Truthy(v) then Err(BadType) else Ok(ParseStyle(""))
  }

  /** The string under which `get_style` caches its argument, if it reaches the cache. */
  function CacheKey(style: Option<PValue>): Option<string>
  {
    match style
    case None => None
    case Some(PNone) => None
    case Some(PStyle(_)) => None
    case Some(PStr(s)) => Some(s)
    case Some(v) => if Truthy(v) then None else Some("")
  }

  lemma GetStyleCases(style: Option<PValue>)
    ensures style.None? || style == Some(PNone) ==> GetStyle(style) == Ok([])
    ensures style.Some? && style.value.PStyle? ==> GetStyle(style) == Ok(style.value.style)
    ensures CacheKey(style).Some? ==> GetStyle(style) == Ok(ParseStyle(CacheKey(style).value))
    ensures GetStyle(style).Err? <==> CacheKey(style).None? && style.Some? && style.value != PNone && !style.value.PStyle?
  {
  }

  /** The module-level `_smap_cache` of parsed style strings. */
  class StyleCache {
    var entries: map<string, Style>

    ghost predicate Valid()
      reads this
    {
      forall s :: s in entries ==> entries[s] == ParseStyle(s)
    }

    constructor()
      ensures Valid() && entries == map[]
    {
      entries := map[];
    }

    /** `get_style(style)`: a string is parsed once and then served from the cache. */
    method Lookup(style: Option<PValue>) returns (r: Result<Style>)
      requires Valid()
      modifies this
      ensures Valid() && r == GetStyle(style)
      ensures CacheKey(style).Some? ==> CacheKey(style).value in entries
      ensures CacheKey(style).Some? && CacheKey(style).value in old(entries) ==> entries == old(entries)
      ensures CacheKey(style).None? ==> entries == old(entries)
      ensures forall s :: s in old(entries) ==> s in entries && entries[s] == old(entries)[s]
    {
      GetStyleCases(style);
      if style.None? || style == Some(PNone) {
        return Ok([]);
      }
      if style.value.PStyle? {
        return Ok(style.value.style);
      }
      var key := CacheKey(style);
      if key.None? {
        return Err(BadType);
      }
      var s := key.value;
      if s in entries {
        return Ok(entries[s]);
      }
      var parsed := ParseStyle(s);
      entries := entries[s := parsed];
      return Ok(parsed);
    }
  }

  /** The keys listed under '@pop': a list of names, or a string, whose characters are
      iterated one by one; a number cannot be iterated. */
  function PopKeys(v: StyleValue): Result<seq<string>>
  {
    match v
    case SList(items) => Ok(items)
    case SStr(s) => Ok(seq(|s|, i requires 0 <= i < |s| => [s[i]]))
    case _ => Err(BadType)
  }

  /** `merge_drawio_style(old, new)`: a copy of `oldStyle` without the keys `newStyle` lists under
      '@pop', updated with the rest of `newStyle`. */
  function MergeDrawioStyle(oldStyle: Style, newStyle: Style): Result<Style>
  {
    match Get(newStyle, "@pop")
    case None => Ok(Update(oldStyle, newStyle))
    case Some(v) =>
      match PopKeys(v)
      case Err(f) => Err(f)
      case Ok(ks) => Ok(Update(RemoveAll(oldStyle, ks), Remove(newStyle, "@pop")))
  }

  /** Every key other than '@pop' ends up with `newStyle`'s value when `newStyle` sets it, is gone when
      '@pop' lists it, and keeps `oldStyle`'s value otherwise; '@pop' itself is never copied in,
      and only a number under '@pop' fails. */
  lemma MergeDrawioStyleGet(oldStyle: Style, newStyle: Style, k: string)
    requires Distinct(newStyle)
    ensures MergeDrawioStyle(oldStyle, newStyle).Err? <==>
      Get(newStyle, "@pop").Some? && (Get(newStyle, "@pop").value.SInt? || Get(newStyle, "@pop").value.SReal?)
    ensures MergeDrawioStyle(oldStyle, newStyle).Ok? && k != "@pop" && HasKey(newStyle, k) ==>
      Get(MergeDrawioStyle(oldStyle, newStyle).value, k) == Get(newStyle, k)
    ensures MergeDrawioStyle(oldStyle, newStyle).Ok? && k != "@pop" && !HasKey(newStyle, k) && Get(newStyle, "@pop").None? ==>
      Get(MergeDrawioStyle(oldStyle, newStyle).value, k) == Get(oldStyle, k)
    ensures MergeDrawioStyle(oldStyle, newStyle).Ok? && k != "@pop" && !HasKey(newStyle, k) && Get(newStyle, "@pop").Some? ==>
      Get(MergeDrawioStyle(oldStyle, newStyle).value, k) == if k in PopKeys(Get(newStyle, "@pop").value).value then None else Get(oldStyle, k)
    ensures MergeDrawioStyle(oldStyle, newStyle).Ok? && !HasKey(oldStyle, "@pop") ==> !HasKey(MergeDrawioStyle(oldStyle, newStyle).value, "@pop")
  {
    match Get(newStyle, "@pop")
    case None =>
      GetUpdate(oldStyle, newStyle, k);
      GetUpdate(oldStyle, newStyle, "@pop");
    case Some(v) =>
      match PopKeys(v)
      case Err(_) =>
      case Ok(ks) =>
        RemoveDistinct(newStyle, "@pop");
        GetRemove(newStyle, "@pop", k);
        GetUpdate(RemoveAll(oldStyle, ks), Remove(newStyle, "@pop"), k);
        GetRemoveAll(oldStyle, ks, k);
        GetUpdate(RemoveAll(oldStyle, ks), Remove(newStyle, "@pop"), "@pop");
        GetRemoveAll(oldStyle, ks, "@pop");
  }

  /** A rule's value parser, `rule.fn`: from the value text and the current record, the
      keys to merge into the record. */
  type RuleFn = (string, Attrs) -> Result<Attrs>

  /** `rule(prefix, fn, has_value)`. */
  datatype Rule = Rule(prefix: string, fn: RuleFn, hasValue: bool)

  /** The prefixes of the value-taking rules, in registration order. */
  function ValuePrefixes(rules: seq<Rule>): (ps: seq<string>)
    ensures |ps| <= |rules|
  {
    if rules == [] then []
    else (if rules[0].hasValue then [rules[0].prefix] else []) + ValuePrefixes(rules[1..])
  }

  /** Exactly the prefixes of the value-taking rules are alternatives of the pattern. */
  lemma {:induction false} ValuePrefixesSpec(rules: seq<Rule>)
    ensures forall i :: 0 <= i < |ValuePrefixes(rules)| ==>
      exists j :: 0 <= j < |rules| && rules[j].hasValue && rules[j].prefix == ValuePrefixes(rules)[i]
    ensures forall j :: 0 <= j < |rules| && rules[j].hasValue ==> rules[j].prefix in ValuePrefixes(rules)
  {
    if rules != [] {
      ValuePrefixesSpec(rules[1..]);
      var rest := ValuePrefixes(rules[1..]);
      var head := if rules[0].hasValue then [rules[0].prefix] else [];
      var ps := ValuePrefixes(rules);
      assert ps == head + rest;
      forall j | 0 <= j < |rules| && rules[j].hasValue
        ensures rules[j].prefix in ps
      {
        if j > 0 {
          assert rules[j] == rules[1..][j - 1];
          assert rules[j].prefix in rest;
        }
      }
      forall i | 0 <= i < |ps|
        ensures exists j :: 0 <= j < |rules| && rules[j].hasValue && rules[j].prefix == ps[i]
      {
        if i < |head| {
          assert rules[0].hasValue && rules[0].prefix == ps[i];
        } else {
          assert ps[i] == rest[i - |head|];
          var j :| 0 <= j < |rules[1..]| && rules[1..][j].hasValue && rules[1..][j].prefix == rest[i - |head|];
          assert rules[j + 1] == rules[1..][j];
          assert rules[j + 1].hasValue && rules[j + 1].prefix == ps[i];
        }
      }
    } else {
      assert ValuePrefixes(rules) == [];
    }
  }

  /** The alternatives of the rule pattern `(p1|p2|...)-(.+)`: with no value-taking rule the
      group is empty and matches the empty prefix. */
  function Alternatives(rules: seq<Rule>): (ps: seq<string>)
    ensures |ps| > 0
  {
    if ValuePrefixes(rules) == [] then [""] else ValuePrefixes(rules)
  }

  /** `re.match` of `p-(.+)` at the start of `cls`: the prefix, a dash, and at least one
      character that is not a line break. */
  predicate Matches(p: string, cls: string)
  {
    |cls| > |p| + 1 && cls[..|p|] == p && cls[|p|] == '-' && cls[|p| + 1] != '\n'
  }

  /** What `(.+)` captures: the text up to the first line break. */
  function Line(s: string): (r: string)
    ensures |r| <= |s| && r == s[..|r|] && '\n' !in r
    ensures |r| < |s| ==> s[|r|] == '\n'
  {
    if s == [] || s[0] == '\n' then "" else [s[0]] + Line(s[1..])
  }

  /** The alternative the pattern takes: the earliest one that matches. */
  function FirstMatch(alts: seq<string>, cls: string): (r: Option<nat>)
    ensures r.Some? ==> r.value < |alts| && Matches(alts[r.value], cls)
  {
    if alts == [] then None
    else if Matches(alts[0], cls) then Some(0)
    else
      match FirstMatch(alts[1..], cls)
      case None => None
      case Some(j) => Some(j + 1)
  }

  /** No alternative before the chosen one matches, and none at all when none is chosen. */
  lemma {:induction false} FirstMatchEarliest(alts: seq<string>, cls: string)
    ensures FirstMatch(alts, cls).Some? ==> forall j :: 0 <= j < FirstMatch(alts, cls).value ==> !Matches(alts[j], cls)
    ensures FirstMatch(alts, cls).None? ==> forall j :: 0 <= j < |alts| ==> !Matches(alts[j], cls)
  {
    if alts != [] && !Matches(alts[0], cls) {
      FirstMatchEarliest(alts[1..], cls);
      assert forall j :: 1 <= j < |alts| ==> alts[j] == alts[1..][j - 1];
    }
  }

  /** `_rules_map[prefix]`: the dict comprehension keeps the last rule with that prefix. */
  function LastRuleIndex(rules: seq<Rule>, p: string): (r: Option<nat>)
    ensures r.Some? ==> r.value < |rules| && rules[r.value].prefix == p
  {
    if rules == [] then None
    else if rules[|rules| - 1].prefix == p then Some(|rules| - 1)
    else LastRuleIndex(rules[..|rules| - 1], p)
  }

  /** No later rule has the prefix of the one found, and no rule at all when none is found. */
  lemma {:induction false} LastRuleIndexLatest(rules: seq<Rule>, p: string)
    ensures LastRuleIndex(rules, p).Some? ==> forall j :: LastRuleIndex(rules, p).value < j < |rules| ==> rules[j].prefix != p
    ensures LastRuleIndex(rules, p).None? ==> forall j :: 0 <= j < |rules| ==> rules[j].prefix != p
  {
    if rules != [] && rules[|rules| - 1].prefix != p {
      LastRuleIndexLatest(rules[..|rules| - 1], p);
    }
  }

  /** `_rule_value(cls)` before any caching: the rule function and the value text of a class
      `<prefix>-<value>`, or None when no alternative matches; the table lookup fails
      only for the empty prefix of an empty alternation. */
  function MatchRule(rules: seq<Rule>, cls: string): Result<Option<(RuleFn, string)>>
  {
    var alts := Alternatives(rules);
    match FirstMatch(alts, cls)
    case None => Ok(None)
    case Some(a) =>
      var p := alts[a];
      match LastRuleIndex(rules, p)
      case None => Err(NoSuchRule(p))
      case Some(i) => Ok(Some((rules[i].fn, Line(cls[|p| + 1..]))))
  }

  /** No rule applies exactly when no alternative of the pattern matches the class. */
  lemma RuleValueNone(rules: seq<Rule>, cls: string)
    ensures MatchRule(rules, cls) == Ok(None) <==>
      forall a :: 0 <= a < |Alternatives(rules)| ==> !Matches(Alternatives(rules)[a], cls)
  {
    FirstMatchEarliest(Alternatives(rules), cls);
  }

  /** A class matches a rule only as `<prefix>-<non-empty value>` with the prefix of a
      value-taking rule (or the empty prefix when there is none), the earliest registered
      prefix winning, and the value is the rest of the class up to a line break. */
  lemma RuleValueFirstPrefix(rules: seq<Rule>, cls: string)
    ensures MatchRule(rules, cls).Ok? && MatchRule(rules, cls).value.Some? ==>
      exists a :: 0 <= a < |Alternatives(rules)| &&
        Matches(Alternatives(rules)[a], cls) &&
        (forall b :: 0 <= b < a ==> !Matches(Alternatives(rules)[b], cls)) &&
        MatchRule(rules, cls).value.value.1 == Line(cls[|Alternatives(rules)[a]| + 1..]) &&
        |MatchRule(rules, cls).value.value.1| > 0
  {
    var alts := Alternatives(rules);
    FirstMatchEarliest(alts, cls);
    match FirstMatch(alts, cls)
    case None =>
    case Some(a) =>
      var p := alts[a];
      if LastRuleIndex(rules, p).Some? {
        var v := Line(cls[|p| + 1..]);
        assert cls[|p| + 1..][0] != '\n';
        assert MatchRule(rules, cls).value.value.1 == v && |v| > 0;
      }
  }

  /** The rule table lookup fails only when no rule takes a value, so that the pattern is
      `()-(.+)` and matches a class that starts with a dash. */
  lemma NoSuchRuleOnlyWithoutValueRules(rules: seq<Rule>, cls: string)
    ensures MatchRule(rules, cls).Err? ==> ValuePrefixes(rules) == [] && |cls| > 1 && cls[0] == '-'
    ensures MatchRule(rules, cls).Err? ==> MatchRule(rules, cls).fault == NoSuchRule("")
  {
    var alts := Alternatives(rules);
    match FirstMatch(alts, cls)
    case None =>
    case Some(a) =>
      var p := alts[a];
      if ValuePrefixes(rules) != [] {
        ValuePrefixesSpec(rules);
        assert p in ValuePrefixes(rules);
        var j :| 0 <= j < |rules| && rules[j].hasValue && rules[j].prefix == p;
        LastRuleIndexLatest(rules, p);
      }
  }

  lemma NoValueRules(rules: seq<Rule>)
    requires ValuePrefixes(rules) == []
    ensures forall j :: 0 <= j < |rules| ==> !rules[j].hasValue
  {
    ValuePrefixesSpec(rules);
  }

  /** A property record (`PropsT`), updated in place by the cascade. */
  class Record {
    var attrs: Attrs

    constructor(attrs: Attrs)
      ensures this.attrs == attrs
    {
      this.attrs := attrs;
    }
  }

  /** `merge(result, data)` on values: `data`'s keys overwrite the record's, except the
      drawio style, which is merged into the record's instead of replacing it. */
  function MergeAttrs(attrs: Attrs, data: Attrs): Result<Attrs>
  {
    match Get(attrs, "drawio_style")
    case None => Err(MissingKey("drawio_style"))
    case Some(current) =>
      match GetStyle(Get(data, "drawio_style"))
      case Err(f) => Err(f)
      case Ok(incoming) =>
        if !current.PStyle? then Err(BadType)
        else
          match MergeDrawioStyle(current.style, incoming)
          case Err(f) => Err(f)
          case Ok(m) => Ok(Set(Update(attrs, data), "drawio_style", PStyle(m)))
  }

  lemma SetAfterUpdate(attrs: Attrs, data: Attrs, v: PValue, k: string)
    requires Distinct(data)
    ensures k != "drawio_style" ==>
      Get(Set(Update(attrs, data), "drawio_style", v), k) == if HasKey(data, k) then Get(data, k) else Get(attrs, k)
    ensures Get(Set(Update(attrs, data), "drawio_style", v), "drawio_style") == Some(v)
    ensures Distinct(attrs) ==> Distinct(Set(Update(attrs, data), "drawio_style", v))
  {
    var u := Update(attrs, data);
    GetUpdate(attrs, data, k);
    GetSet(u, "drawio_style", v, k);
    GetSet(u, "drawio_style", v, "drawio_style");
    if Distinct(attrs) {
      UpdateDistinct(attrs, data);
      SetDistinct(u, "drawio_style", v);
    }
  }

  /** After a merge every key `data` gives holds `data`'s value, every other key keeps the
      record's, and the drawio style is the merge of the two styles. */
  lemma MergeOverwrites(attrs: Attrs, data: Attrs, k: string)
    requires Distinct(data)
    ensures MergeAttrs(attrs, data).Ok? && k != "drawio_style" ==>
      Get(MergeAttrs(attrs, data).value, k) == if HasKey(data, k) then Get(data, k) else Get(attrs, k)
    ensures MergeAttrs(attrs, data).Ok? ==>
      Get(attrs, "drawio_style").value.PStyle? && GetStyle(Get(data, "drawio_style")).Ok? &&
      MergeDrawioStyle(Get(attrs, "drawio_style").value.style, GetStyle(Get(data, "drawio_style")).value).Ok? &&
      Get(MergeAttrs(attrs, data).value, "drawio_style") ==
        Some(PStyle(MergeDrawioStyle(Get(attrs, "drawio_style").value.style, GetStyle(Get(data, "drawio_style")).value).value))
    ensures MergeAttrs(attrs, data).Ok? && Distinct(attrs) ==> Distinct(MergeAttrs(attrs, data).value)
  {
    if MergeAttrs(attrs, data).Ok? {
      var cur := Get(attrs, "drawio_style").value;
      var inc := GetStyle(Get(data, "drawio_style")).value;
      var m := MergeDrawioStyle(cur.style, inc).value;
      assert MergeAttrs(attrs, data) == Ok(Set(Update(attrs, data), "drawio_style", PStyle(m)));
      SetAfterUpdate(attrs, data, PStyle(m), k);
    }
  }

  /** A class list: a string is split on white space, a list is taken as it is. */
  datatype ClassList = ClassText(text: string) | ClassNames(names: seq<string>)

  function Names(c: ClassList): seq<string>
  {
    match c
    case ClassText(text) => SplitWs(text)
    case ClassNames(names) => names
  }

  /** The class list a record gives under 'classes'; anything but a string or a list of
      strings cannot be iterated as class names. */
  function ClassListOf(v: PValue): Result<ClassList>
  {
    match v
    case PStr(s) => Ok(ClassText(s))
    case PStrs(items) => Ok(ClassNames(items))
    case _ => Err(BadType)
  }

  /** How many more levels of nested styles and class lists may be entered before Python's
      recursion limit is reached. */
  datatype Fuel = Zero | Succ(pred: Fuel)

  /** The record after a run of the cascade, and the exception that stopped it, if any. */
  datatype Run = Run(attrs: Attrs, fault: Option<Fault>)

  /** The outcome of `merge` on a record: merged, or unchanged with the fault. */
  function Merged(attrs: Attrs, data: Attrs): Run
  {
    match MergeAttrs(attrs, data)
    case Err(f) => Run(attrs, Some(f))
    case Ok(a) => Run(a, None)
  }

  /** One class of `resolve_classes`: a named style is resolved as a record (`resolve_props`
      over the one-record tuple is that record's step, see `ApplyPropsSingle`); otherwise a
      matching rule's keys are merged; otherwise the class is unknown. `fuel` bounds the
      nesting of named styles and nested class lists (Python's recursion limit). */
  function ClassStep(styles: Dict<string, Attrs>, rules: seq<Rule>, name: string, attrs: Attrs, fuel: Fuel): Run
    decreases fuel, 0, 0
  {
    match Get(styles, name)
    case Some(style) =>
      if fuel.Zero? then Run(attrs, Some(RecursionLimit)) else PropsStep(styles, rules, style, attrs, fuel.pred)
    case None => RuleStep(rules, name, attrs)
  }

  /** A class that is not a named style: a matching rule's keys are merged, and a class
      that matches no rule is unknown. */
  function RuleStep(rules: seq<Rule>, name: string, attrs: Attrs): Run
  {
    match MatchRule(rules, name)
    case Err(f) => Run(attrs, Some(f))
    case Ok(None) => Run(attrs, Some(UnknownClass(name)))
    case Ok(Some(m)) =>
      match m.0(m.1, attrs)
      case Err(f) => Run(attrs, Some(f))
      case Ok(data) => Merged(attrs, data)
  }

  /** `resolve_classes(names, result)`: the classes applied left to right, stopping at the
      first exception. */
  function ApplyClasses(styles: Dict<string, Attrs>, rules: seq<Rule>, names: seq<string>, attrs: Attrs, fuel: Fuel): Run
    decreases fuel, 1, |names|
  {
    if names == [] then Run(attrs, None)
    else
      var step := ClassStep(styles, rules, names[0], attrs, fuel);
      if step.fault.Some? then step else ApplyClasses(styles, rules, names[1..], step.attrs, fuel)
  }

  /** The nested 'classes' of a record, resolved when truthy. */
  function NestedClasses(styles: Dict<string, Attrs>, rules: seq<Rule>, p: Attrs, attrs: Attrs, fuel: Fuel): Run
    decreases fuel, 0, 0
  {
    var c := Get(p, "classes");
    if c.None? || !Truthy(c.value) then Run(attrs, None)
    else if fuel.Zero? then Run(attrs, Some(RecursionLimit))
    else
      match ClassListOf(c.value)
      case Err(f) => Run(attrs, Some(f))
      case Ok(cl) => ApplyClasses(styles, rules, Names(cl), attrs, fuel.pred)
  }

  /** One record of `resolve_props`: its classes first, then its own keys. */
  function PropsStep(styles: Dict<string, Attrs>, rules: seq<Rule>, p: Attrs, attrs: Attrs, fuel: Fuel): Run
    decreases fuel, 0, 1
  {
    var nested := NestedClasses(styles, rules, p, attrs, fuel);
    if nested.fault.Some? then nested else Merged(nested.attrs, p)
  }

  /** `resolve_props(props, result)`: the records applied in order. */
  function ApplyProps(styles: Dict<string, Attrs>, rules: seq<Rule>, props: seq<Attrs>, attrs: Attrs, fuel: Fuel): Run
    decreases fuel, 1, |props|
  {
    if props == [] then Run(attrs, None)
    else
      var step := PropsStep(styles, rules, props[0], attrs, fuel);
      if step.fault.Some? then step else ApplyProps(styles, rules, props[1..], step.attrs, fuel)
  }

  /** `resolve_props` over a single record is that record's step. */
  lemma ApplyPropsSingle(styles: Dict<string, Attrs>, rules: seq<Rule>, p: Attrs, attrs: Attrs, fuel: Fuel)
    ensures ApplyProps(styles, rules, [p], attrs, fuel) == PropsStep(styles, rules, p, attrs, fuel)
  {
    assert [p][1..] == [];
  }



  /** Classes are applied left to right: resolving `a + b` is resolving `a`, then `b` on
      its result, unless `a` already failed. */
  lemma {:induction false} ApplyClassesAppend(styles: Dict<string, Attrs>, rules: seq<Rule>, a: seq<string>, b: seq<string>, attrs: Attrs, fuel: Fuel)
    ensures ApplyClasses(styles, rules, a + b, attrs, fuel) ==
      var ra := ApplyClasses(styles, rules, a, attrs, fuel);
      if ra.fault.Some? then ra else ApplyClasses(styles, rules, b, ra.attrs, fuel)
    decreases |a|
  {
    if a != [] {
      assert (a + b)[0] == a[0];
      assert (a + b)[1..] == a[1..] + b;
      var step := ClassStep(styles, rules, a[0], attrs, fuel);
      if step.fault.None? {
        ApplyClassesAppend(styles, rules, a[1..], b, step.attrs, fuel);
      }
    } else {
      assert a + b == b;
    }
  }

  /** Later classes override earlier ones: when the last class is a rule whose keys set `k`,
      the resolved record holds that value of `k`, whatever the classes before it set. */
  lemma LastClassWins(styles: Dict<string, Attrs>, rules: seq<Rule>, front: seq<string>, last: string,
                      attrs: Attrs, fuel: Fuel, k: string, data: Attrs)
    requires Get(styles, last).None?
    requires MatchRule(rules, last).Ok? && MatchRule(rules, last).value.Some?
    requires var m := MatchRule(rules, last).value.value;
      m.0(m.1, ApplyClasses(styles, rules, front, attrs, fuel).attrs) == Ok(data)
    requires Distinct(data) && HasKey(data, k) && k != "drawio_style"
    ensures ApplyClasses(styles, rules, front + [last], attrs, fuel).fault.None? ==>
      Get(ApplyClasses(styles, rules, front + [last], attrs, fuel).attrs, k) == Get(data, k)
  {
    ApplyClassesAppend(styles, rules, front, [last], attrs, fuel);
    var mid := ApplyClasses(styles, rules, front, attrs, fuel);
    MergeOverwrites(mid.attrs, data, k);
  }

  /** A record's own keys beat what its nested 'classes' set, because they are merged
      after the classes are resolved. */
  lemma OwnKeysWin(styles: Dict<string, Attrs>, rules: seq<Rule>, p: Attrs, attrs: Attrs, fuel: Fuel, k: string)
    requires Distinct(p) && HasKey(p, k) && k != "drawio_style"
    ensures PropsStep(styles, rules, p, attrs, fuel).fault.None? ==>
      Get(PropsStep(styles, rules, p, attrs, fuel).attrs, k) == Get(p, k)
  {
    MergeOverwrites(NestedClasses(styles, rules, p, attrs, fuel).attrs, p, k);
  }

  /** No rule function itself raises the unknown-class error. */
  ghost predicate RulesRaiseNoUnknown(rules: seq<Rule>)
  {
    forall i, v, a :: 0 <= i < |rules| && rules[i].fn(v, a).Err? ==> !rules[i].fn(v, a).fault.UnknownClass?
  }

  /** A class is neither a named style nor a rule class. */
  ghost predicate Unknown(styles: Dict<string, Attrs>, rules: seq<Rule>, name: string)
  {
    Get(styles, name).None? && MatchRule(rules, name) == Ok(None)
  }

  /** A run that stopped on the unknown-class error stopped on an unknown class. */
  ghost predicate OnlyUnknownRaised(styles: Dict<string, Attrs>, rules: seq<Rule>, r: Run)
  {
    r.fault.Some? && r.fault.value.UnknownClass? ==> Unknown(styles, rules, r.fault.value.name)
  }

  /** `resolve_classes` raises the unknown-class error for a class that is neither a named
      style nor matches a rule, without touching the record, and only for such a class,
      however deeply it sits in nested styles. */
  lemma UnknownClassRaised(styles: Dict<string, Attrs>, rules: seq<Rule>, name: string, attrs: Attrs, fuel: Fuel)
    requires RulesRaiseNoUnknown(rules)
    ensures Unknown(styles, rules, name) ==> ClassStep(styles, rules, name, attrs, fuel) == Run(attrs, Some(UnknownClass(name)))
    ensures ClassStep(styles, rules, name, attrs, fuel).fault.Some? && ClassStep(styles, rules, name, attrs, fuel).fault.value.UnknownClass? ==>
      Unknown(styles, rules, ClassStep(styles, rules, name, attrs, fuel).fault.value.name)
  {
    UnknownFromStep(styles, rules, name, attrs, fuel);
  }

  lemma {:induction false} UnknownFromStep(styles: Dict<string, Attrs>, rules: seq<Rule>, name: string, attrs: Attrs, fuel: Fuel)
    requires RulesRaiseNoUnknown(rules)
    ensures OnlyUnknownRaised(styles, rules, ClassStep(styles, rules, name, attrs, fuel))
    decreases fuel, 0, 1
  {
    if Get(styles, name).Some? && fuel.Succ? {
      UnknownFromStyleStep(styles, rules, name, attrs, fuel);
    } else if Get(styles, name).None? {
      UnknownFromRuleStep(styles, rules, name, attrs, fuel);
    }
  }

  lemma UnknownFromStyleStep(styles: Dict<string, Attrs>, rules: seq<Rule>, name: string, attrs: Attrs, fuel: Fuel)
    requires RulesRaiseNoUnknown(rules)
    requires Get(styles, name).Some? && fuel.Succ?
    ensures OnlyUnknownRaised(styles, rules, ClassStep(styles, rules, name, attrs, fuel))
    decreases fuel, 0, 0
  {
    UnknownFromPropsStep(styles, rules, Get(styles, name).value, attrs, fuel.pred);
  }

  lemma UnknownFromRuleStep(styles: Dict<string, Attrs>, rules: seq<Rule>, name: string, attrs: Attrs, fuel: Fuel)
    requires RulesRaiseNoUnknown(rules)
    requires Get(styles, name).None?
    ensures OnlyUnknownRaised(styles, rules, ClassStep(styles, rules, name, attrs, fuel))
  {
    UnknownFromRule(rules, name, attrs);
  }

  lemma UnknownFromRule(rules: seq<Rule>, name: string, attrs: Attrs)
    requires RulesRaiseNoUnknown(rules)
    ensures var r := RuleStep(rules, name, attrs);
      r.fault.Some? && r.fault.value.UnknownClass? ==> r.fault.value.name == name && MatchRule(rules, name) == Ok(None)
  {
    if MatchRule(rules, name).Err? {
      NoSuchRuleOnlyWithoutValueRules(rules, name);
    } else if MatchRule(rules, name).value.Some? {
      RuleStepNoUnknown(rules, name, attrs);
      var m := MatchRule(rules, name).value.value;
      if m.0(m.1, attrs).Ok? {
        MergeRaisesNoUnknown(attrs, m.0(m.1, attrs).value);
      }
    }
  }

  lemma MergeRaisesNoUnknown(attrs: Attrs, data: Attrs)
    ensures Merged(attrs, data).fault.Some? ==> !Merged(attrs, data).fault.value.UnknownClass?
  {
    match Get(attrs, "drawio_style")
    case None =>
    case Some(current) =>
      match GetStyle(Get(data, "drawio_style"))
      case Err(f) =>
      case Ok(incoming) =>
        if current.PStyle? {
          match Get(incoming, "@pop")
          case None =>
          case Some(v) =>
        }
  }

  lemma RuleStepNoUnknown(rules: seq<Rule>, name: string, attrs: Attrs)
    requires RulesRaiseNoUnknown(rules)
    requires MatchRule(rules, name).Ok? && MatchRule(rules, name).value.Some?
    ensures var m := MatchRule(rules, name).value.value;
      m.0(m.1, attrs).Err? ==> !m.0(m.1, attrs).fault.UnknownClass?
  {
    MatchedRule(rules, name);
    var m := MatchRule(rules, name).value.value;
    var i :| 0 <= i < |rules| && m.0 == rules[i].fn;
    assert m.0(m.1, attrs) == rules[i].fn(m.1, attrs);
  }

  lemma MatchedRule(rules: seq<Rule>, name: string)
    ensures MatchRule(rules, name).Ok? && MatchRule(rules, name).value.Some? ==>
      exists i :: 0 <= i < |rules| && MatchRule(rules, name).value.value.0 == rules[i].fn
  {
    var alts := Alternatives(rules);
    match FirstMatch(alts, name)
    case None =>
    case Some(a) =>
      match LastRuleIndex(rules, alts[a])
      case None =>
      case Some(i) =>
        assert MatchRule(rules, name).value.value.0 == rules[i].fn;
  }

  lemma {:induction false} UnknownFromClasses(styles: Dict<string, Attrs>, rules: seq<Rule>, names: seq<string>, attrs: Attrs, fuel: Fuel)
    requires RulesRaiseNoUnknown(rules)
    ensures OnlyUnknownRaised(styles, rules, ApplyClasses(styles, rules, names, attrs, fuel))
    decreases fuel, 1, |names|
  {
    if names != [] {
      var step := ClassStep(styles, rules, names[0], attrs, fuel);
      UnknownFromStep(styles, rules, names[0], attrs, fuel);
      if step.fault.None? {
        UnknownFromClasses(styles, rules, names[1..], step.attrs, fuel);
      }
    }
  }

  lemma {:induction false} UnknownFromProps(styles: Dict<string, Attrs>, rules: seq<Rule>, props: seq<Attrs>, attrs: Attrs, fuel: Fuel)
    requires RulesRaiseNoUnknown(rules)
    ensures OnlyUnknownRaised(styles, rules, ApplyProps(styles, rules, props, attrs, fuel))
    decreases fuel, 1, |props|
  {
    if props != [] {
      var step := PropsStep(styles, rules, props[0], attrs, fuel);
      UnknownFromPropsStep(styles, rules, props[0], attrs, fuel);
      if step.fault.None? {
        UnknownFromProps(styles, rules, props[1..], step.attrs, fuel);
      }
    }
  }

  lemma {:induction false} UnknownFromPropsStep(styles: Dict<string, Attrs>, rules: seq<Rule>, p: Attrs, attrs: Attrs, fuel: Fuel)
    requires RulesRaiseNoUnknown(rules)
    ensures OnlyUnknownRaised(styles, rules, PropsStep(styles, rules, p, attrs, fuel))
    decreases fuel, 0, 1
  {
    var nested := NestedClasses(styles, rules, p, attrs, fuel);
    var c := Get(p, "classes");
    if c.Some? && Truthy(c.value) && fuel.Succ? && ClassListOf(c.value).Ok? {
      assert nested == ApplyClasses(styles, rules, Names(ClassListOf(c.value).value), attrs, fuel.pred);
      UnknownFromClasses(styles, rules, Names(ClassListOf(c.value).value), attrs, fuel.pred);
    }
    if nested.fault.None? {
      MergeRaisesNoUnknown(nested.attrs, p);
    }
  }

  /** `StyleMap`: named styles, rules, the rule cache, the default record, and the shared
      style-string cache. */
  class StyleMap {
    var styles: Dict<string, Attrs>
    var rules: seq<Rule>
    var ruleCache: map<string, (RuleFn, string)>
    const defaults: Attrs
    const cache: StyleCache

    /** Every cached rule lookup is what the current rules give. */
    ghost predicate Valid()
      reads this, cache
    {
      cache.Valid() && forall c :: c in ruleCache ==> MatchRule(rules, c) == Ok(Some(ruleCache[c]))
    }

    constructor(defaults: Attrs, cache: StyleCache)
      requires cache.Valid()
      ensures Valid() && this.defaults == defaults && this.cache == cache
      ensures styles == [] && rules == [] && ruleCache == map[]
    {
      this.defaults := defaults;
      this.cache := cache;
      styles := [];
      rules := [];
      ruleCache := map[];
    }

    /** `update(styles)`: named styles are added, replacing those with the same name. */
    method Update(newStyles: Dict<string, Attrs>)
      requires Valid()
      modifies this`styles
      ensures Valid() && styles == DictOps.Update(old(styles), newStyles)
    {
      styles := DictOps.Update(styles, newStyles);
    }

    /** `add_rules(rules)`, with the rule cache emptied so that it cannot outlive the rules
        it was filled from. */
    method AddRules(newRules: seq<Rule>)
      requires Valid()
      modifies this`rules, this`ruleCache
      ensures Valid() && rules == old(rules) + newRules && ruleCache == map[]
    {
      rules := rules + newRules;
      ruleCache := map[];
    }

    /** `_rule_value(cls)`: the rule match, computed once per class and then cached. */
    method RuleValue(cls: string) returns (r: Result<Option<(RuleFn, string)>>)
      requires Valid()
      modifies this`ruleCache
      ensures Valid() && r == MatchRule(rules, cls)
      ensures r.Ok? && r.value.Some? ==> cls in ruleCache
      ensures cls in old(ruleCache) ==> ruleCache == old(ruleCache)
      ensures forall c :: c in old(ruleCache) ==> c in ruleCache
    {
      if cls in ruleCache {
        return Ok(Some(ruleCache[cls]));
      }
      r := MatchRule(rules, cls);
      if r.Ok? && r.value.Some? {
        ruleCache := ruleCache[cls := r.value.value];
      }
    }

    /** `default_props()`: a fresh record holding the defaults. */
    method DefaultProps() returns (r: Record)
      ensures fresh(r) && r.attrs == defaults
    {
      r := new Record(defaults);
    }

    /** `merge(result, data)`. */
    method Merge(result: Record, data: Attrs) returns (fault: Option<Fault>)
      requires Valid()
      modifies result, cache
      ensures Valid()
      ensures Run(result.attrs, fault) == Merged(old(result.attrs), data)
    {
      var current := Get(result.attrs, "drawio_style");
      if current.None? {
        return Some(MissingKey("drawio_style"));
      }
      var incoming := cache.Lookup(Get(data, "drawio_style"));
      if incoming.Err? {
        return Some(incoming.fault);
      }
      if !current.value.PStyle? {
        return Some(BadType);
      }
      var m := MergeDrawioStyle(current.value.style, incoming.value);
      if m.Err? {
        return Some(m.fault);
      }
      result.attrs := Set(DictOps.Update(result.attrs, data), "drawio_style", PStyle(m.value));
      fault := None;
    }

    /** One class of `resolve_classes`, applied to `r` in place. */
    method ApplyClass(name: string, r: Record, fuel: Fuel) returns (fault: Option<Fault>)
      requires Valid()
      modifies this`ruleCache, cache, r
      ensures Valid()
      ensures Run(r.attrs, fault) == ClassStep(styles, rules, name, old(r.attrs), fuel)
      decreases fuel, 0
    {
      var style := Get(styles, name);
      if style.None? {
        fault := ApplyRule(name, r);
      } else if fuel.Zero? {
        fault := Some(RecursionLimit);
      } else {
        fault := ApplyStyle(style.value, r, fuel.pred);
      }
    }

    /** A named style, resolved as a one-record list into `r` in place. */
    method ApplyStyle(style: Attrs, r: Record, fuel: Fuel) returns (fault: Option<Fault>)
      requires Valid()
      modifies this`ruleCache, cache, r
      ensures Valid()
      ensures Run(r.attrs, fault) == PropsStep(styles, rules, style, old(r.attrs), fuel)
      decreases fuel, 2
    {
      ApplyPropsSingle(styles, rules, style, r.attrs, fuel);
      var r', f := ResolveProps([style], r, fuel);
      fault := f;
    }

    /** A class that names no style: its rule's keys merged into `r`. */
    method ApplyRule(name: string, r: Record) returns (fault: Option<Fault>)
      requires Valid()
      modifies this`ruleCache, cache, r
      ensures Valid()
      ensures Run(r.attrs, fault) == RuleStep(rules, name, old(r.attrs))
    {
      var m := RuleValue(name);
      if m.Err? {
        return Some(m.fault);
      }
      if m.value.None? {
        return Some(UnknownClass(name));
      }
      var data := m.value.value.0(m.value.value.1, r.attrs);
      if data.Err? {
        return Some(data.fault);
      }
      fault := Merge(r, data.value);
    }

    /** `resolve_classes(classes, result)`: without a record, a fresh default one is used;
        the record is updated in place and returned, also when an exception stops it. */
    method ResolveClasses(classes: ClassList, result: Record?, fuel: Fuel) returns (r: Record, fault: Option<Fault>)
      requires Valid()
      modifies this`ruleCache, cache, result
      ensures Valid()
      ensures result != null ==> r == result
      ensures result == null ==> fresh(r)
      ensures Run(r.attrs, fault) ==
        ApplyClasses(styles, rules, Names(classes), if result == null then defaults else old(result.attrs), fuel)
      decreases fuel, 1
    {
      if result == null {
        r := DefaultProps();
      } else {
        r := result;
      }
      ghost var start := r.attrs;
      var names := Names(classes);
      var rest := names;
      while rest != []
        invariant Valid()
        invariant result != null ==> r == result
        invariant result == null ==> fresh(r)
        invariant ApplyClasses(styles, rules, names, start, fuel) == ApplyClasses(styles, rules, rest, r.attrs, fuel)
        decreases |rest|
      {
        fault := ApplyClass(rest[0], r, fuel);
        if fault.Some? {
          return;
        }
        rest := rest[1..];
      }
      fault := None;
    }

    /** One record of `resolve_props`, applied to `r` in place. */
    method ApplyRecord(p: Attrs, r: Record, fuel: Fuel) returns (fault: Option<Fault>)
      requires Valid()
      modifies this`ruleCache, cache, r
      ensures Valid()
      ensures Run(r.attrs, fault) == PropsStep(styles, rules, p, old(r.attrs), fuel)
      decreases fuel, 0
    {
      var c := Get(p, "classes");
      if c.Some? && Truthy(c.value) {
        if fuel.Zero? {
          return Some(RecursionLimit);
        }
        var cl := ClassListOf(c.value);
        if cl.Err? {
          return Some(cl.fault);
        }
        var r', f := ResolveClasses(cl.value, r, fuel.pred);
        if f.Some? {
          return f;
        }
      }
      fault := Merge(r, p);
    }

    /** `resolve_props(props, result)`. */
    method ResolveProps(props: seq<Attrs>, result: Record?, fuel: Fuel) returns (r: Record, fault: Option<Fault>)
      requires Valid()
      modifies this`ruleCache, cache, result
      ensures Valid()
      ensures result != null ==> r == result
      ensures result == null ==> fresh(r)
      ensures Run(r.attrs, fault) ==
        ApplyProps(styles, rules, props, if result == null then defaults else old(result.attrs), fuel)
      decreases fuel, 1
    {
      if result == null {
        r := DefaultProps();
      } else {
        r := result;
      }
      ghost var start := r.attrs;
      var rest := props;
      while rest != []
        invariant Valid()
        invariant result != null ==> r == result
        invariant result == null ==> fresh(r)
        invariant ApplyProps(styles, rules, props, start, fuel) == ApplyProps(styles, rules, rest, r.attrs, fuel)
        decreases |rest|
      {
        fault := ApplyRecord(rest[0], r, fuel);
        if fault.Some? {
          return;
        }
        rest := rest[1..];
      }
      fault := None;
    }
  }

  /** `_rule_value` as written: a class found in the cache is served from it, whatever
      rules were added since the entry was stored (`add_rules` leaves the cache alone). */
  function CachedRuleValue(ruleCache: map<string, (RuleFn, string)>, rules: seq<Rule>, cls: string): Result<Option<(RuleFn, string)>>
  {
    if cls in ruleCache then Ok(Some(ruleCache[cls])) else MatchRule(rules, cls)
  }

  /** A later rule with a cached class's prefix replaces that prefix's table entry, yet the
      cache as written keeps answering with the earlier rule's function: after `p-1` is
      looked up under a rule `p` that sets `x`, adding a second rule `p` that sets
      nothing leaves `p-1` setting `x`. */
  lemma StaleRuleCache()
    ensures var first := Rule("p", (v: string, a: Attrs) => Ok([("x", PStr(v))]), true);
      var second := Rule("p", (v: string, a: Attrs) => Ok([]), true);
      var cached := map["p-1" := MatchRule([first], "p-1").value.value];
      CachedRuleValue(cached, [first, second], "p-1").value.value.0("1", []) == Ok([("x", PStr("1"))]) &&
      MatchRule([first, second], "p-1").value.value.0("1", []) == Ok([])
  {
    var first := Rule("p", (v: string, a: Attrs) => Ok([("x", PStr(v))]), true);
    var second := Rule("p", (v: string, a: Attrs) => Ok([]), true);
    assert Matches("p", "p-1");
    assert ValuePrefixes([first]) == ["p"];
    assert [first, second][1..] == [second];
    assert ValuePrefixes([second]) == ["p"];
    assert ValuePrefixes([first, second]) == ["p", "p"];
    assert FirstMatch(["p"], "p-1") == Some(0);
    assert FirstMatch(["p", "p"], "p-1") == Some(0);
    assert LastRuleIndex([first], "p") == Some(0);
    assert LastRuleIndex([first, second], "p") == Some(1);
  }
}
