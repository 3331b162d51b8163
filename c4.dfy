/** The C4 label formatter (diagen/shapes/c4.py): a title, an optional technology and an
    optional description, one per line. */
module C4 {
  import opened Text

  /** The title line: the first label line in bold. */
  function Title(t: string): string
  {
    "<b>" + t + "</b>"
  }

  /** The technology line, when the second label line is present and non-empty. */
  function Tech(lines: seq<string>): seq<string>
  {
    if |lines| > 1 && lines[1] != "" then ["[" + lines[1] + "]"] else []
  }

  /** The description line, when the third label line is present and non-empty. */
  function Desc(lines: seq<string>): seq<string>
  {
    if |lines| > 2 && lines[2] != "" then ["<br><small>" + lines[2] + "</small>"] else []
  }

  /** `c4_label_fmt(props, label)`: '' for an empty label, otherwise the parts that are
      present joined with newlines. The record argument is not used. */
  function C4Label(lines: seq<string>): (r: string)
    ensures r == "" <==> lines == []
  {
    if lines == [] then ""
    else
      var parts := [Title(lines[0])] + Tech(lines) + Desc(lines);
      JoinStartsWith(parts, "\n");
      assert |parts[0]| > 0;
      Join(parts, "\n")
  }

  /** Only the first three label lines matter. */
  lemma C4IgnoresExtra(lines: seq<string>)
    requires |lines| > 3
    ensures C4Label(lines) == C4Label(lines[..3])
  {
  }

  /** `Join` starts with its first part. */
  lemma {:induction false} JoinStartsWith(parts: seq<string>, sep: string)
    requires parts != []
    ensures parts[0] <= Join(parts, sep)
  {
    if |parts| > 1 {
      assert Join(parts, sep) == parts[0] + (sep + Join(parts[1..], sep));
    }
  }

  /** A non-empty label always starts with its bold title. */
  lemma C4TitleFirst(lines: seq<string>)
    requires lines != []
    ensures Title(lines[0]) <= C4Label(lines)
  {
    JoinStartsWith([Title(lines[0])] + Tech(lines) + Desc(lines), "\n");
  }

  /** When no label line holds a newline, the formatted label splits back into exactly
      the present parts: the title, then `[tech]` if given, then the small description
      if given. */
  lemma C4Lines(lines: seq<string>)
    requires lines != []
    requires forall i :: 0 <= i < |lines| ==> '\n' !in lines[i]
    ensures Split(C4Label(lines), '\n') == [Title(lines[0])] + Tech(lines) + Desc(lines)
  {
    var parts := [Title(lines[0])] + Tech(lines) + Desc(lines);
    assert '\n' !in lines[0];
    assert |lines| > 1 ==> '\n' !in lines[1];
    assert |lines| > 2 ==> '\n' !in lines[2];
    forall i | 0 <= i < |parts|
      ensures '\n' !in parts[i]
    {
    }
    JoinSplit(parts, '\n');
  }

  /** A label with an empty technology line shows the title and then the description. */
  lemma C4SkipsEmptyTech(t: string, d: string)
    requires d != ""
    ensures C4Label([t, "", d]) == "<b>" + t + "</b>\n<br><small>" + d + "</small>"
  {
    var parts := [Title(t), "<br><small>" + d + "</small>"];
    assert [Title(t)] + Tech([t, "", d]) + Desc([t, "", d]) == parts;
    assert Join(parts[1..], "\n") == parts[1];
  }
}
