/** The few pieces of Python's `str` that the style cascade and the diagram builders rely
    on: `split(sep)`, `split()`, `partition(sep)`, `sep.join(...)`, `int(...)`, `float(...)`
    and `str(int)`. */
module Text {
  import opened Utils

  /** `c.isspace()`: the characters on which Python's argument-less `str.split()` breaks. */
  predicate IsSpace(c: char)
  {
    c == ' ' || c == '\t' || c == '\n' || c == '\r' || c == '\U{000B}' || c == '\U{000C}'
    || ('\U{001C}' <= c <= '\U{001F}') || c == '\U{0085}' || c == '\U{00A0}' || c == '\U{1680}'
    || ('\U{2000}' <= c <= '\U{200A}') || c == '\U{2028}' || c == '\U{2029}' || c == '\U{202F}'
    || c == '\U{205F}' || c == '\U{3000}'
  }

  predicate NoSpace(s: string)
  {
    forall i :: 0 <= i < |s| ==> !IsSpace(s[i])
  }

  /** The longest prefix of `s` without white space. */
  function Word(s: string): (w: string)
    ensures |w| <= |s| && w == s[..|w|] && NoSpace(w)
    ensures |w| < |s| ==> IsSpace(s[|w|])
  {
    if s == [] || IsSpace(s[0]) then "" else [s[0]] + Word(s[1..])
  }

  /** `s.split()`: the maximal runs of non-space characters, in order. */
  function SplitWs(s: string): (ws: seq<string>)
    ensures forall i :: 0 <= i < |ws| ==> |ws[i]| > 0 && NoSpace(ws[i])
    decreases |s|
  {
    if s == [] then []
    else if IsSpace(s[0]) then SplitWs(s[1..])
    else
      var w := Word(s);
      [w] + SplitWs(s[|w|..])
  }

  function Concat(ws: seq<string>): string
  {
    if ws == [] then "" else ws[0] + Concat(ws[1..])
  }

  function RemoveSpaces(s: string): (r: string)
    ensures NoSpace(r)
  {
    if s == [] then "" else (if IsSpace(s[0]) then "" else [s[0]]) + RemoveSpaces(s[1..])
  }

  lemma {:induction false} RemoveSpacesAppend(a: string, b: string)
    ensures RemoveSpaces(a + b) == RemoveSpaces(a) + RemoveSpaces(b)
  {
    if a != [] {
      assert (a + b)[1..] == a[1..] + b;
      RemoveSpacesAppend(a[1..], b);
    } else {
      assert a + b == b;
    }
  }

  lemma {:induction false} RemoveSpacesOfWord(w: string)
    requires NoSpace(w)
    ensures RemoveSpaces(w) == w
  {
    if w != [] {
      RemoveSpacesOfWord(w[1..]);
    }
  }

  /** `s.split()` loses exactly the white space: gluing the words back gives `s` without its spaces. */
  lemma {:induction false} SplitWsKeepsText(s: string)
    ensures Concat(SplitWs(s)) == RemoveSpaces(s)
    decreases |s|
  {
    if s == [] {
    } else if IsSpace(s[0]) {
      SplitWsKeepsText(s[1..]);
    } else {
      var w := Word(s);
      assert s == w + s[|w|..];
      SplitWsKeepsText(s[|w|..]);
      RemoveSpacesAppend(w, s[|w|..]);
      RemoveSpacesOfWord(w);
    }
  }

  /** `sep.join(parts)`. */
  function Join(parts: seq<string>, sep: string): string
  {
    if parts == [] then ""
    else if |parts| == 1 then parts[0]
    else parts[0] + sep + Join(parts[1..], sep)
  }

  /** `s.split(sep)` for a one-character separator: never empty, and an empty string gives `[""]`. */
  function Split(s: string, sep: char): (r: seq<string>)
    ensures |r| >= 1
    ensures forall i :: 0 <= i < |r| ==> sep !in r[i]
  {
    if s == [] then [""]
    else
      var rest := Split(s[1..], sep);
      if s[0] == sep then [""] + rest else [[s[0]] + rest[0]] + rest[1..]
  }

  /** Joining the pieces of `s.split(sep)` with `sep` gives `s` back. */
  lemma {:induction false} SplitJoin(s: string, sep: char)
    ensures Join(Split(s, sep), [sep]) == s
  {
    if s != [] {
      var rest := Split(s[1..], sep);
      SplitJoin(s[1..], sep);
      if s[0] == sep {
        assert Split(s, sep) == [""] + rest;
      } else {
        var r := Split(s, sep);
        assert r == [[s[0]] + rest[0]] + rest[1..];
        if |rest| == 1 {
          assert Join(r, [sep]) == [s[0]] + rest[0];
        } else {
          assert r[1..] == rest[1..];
          assert Join(r, [sep]) == [s[0]] + rest[0] + [sep] + Join(rest[1..], [sep]);
        }
      }
    }
  }

  /** `s.partition(sep)` for a one-character separator: the text before the first `sep`,
      whether there was one, and the text after it. */
  function Partition(s: string, sep: char): (r: (string, bool, string))
    ensures r.1 ==> r.0 + [sep] + r.2 == s && sep !in r.0
    ensures !r.1 ==> r.0 == s && r.2 == "" && sep !in s
  {
    if s == [] then ("", false, "")
    else if s[0] == sep then ("", true, s[1..])
    else
      var t := Partition(s[1..], sep);
      ([s[0]] + t.0, t.1, t.2)
  }

  predicate IsDigit(c: char)
  {
    '0' <= c <= '9'
  }

  predicate AllDigits(s: string)
  {
    forall i :: 0 <= i < |s| ==> IsDigit(s[i])
  }

  /** The value of a string of decimal digits (0 for the empty string). */
  function DigitsValue(s: string): (n: nat)
    requires AllDigits(s)
  {
    if s == [] then 0 else DigitsValue(s[..|s| - 1]) * 10 + (s[|s| - 1] as int - '0' as int)
  }

  /** `int(s)` for an optional sign followed by decimal digits; `None` is Python's ValueError. */
  function ParseInt(s: string): Option<int>
  {
    if |s| > 0 && (s[0] == '-' || s[0] == '+') then
      var t := s[1..];
      if |t| > 0 && AllDigits(t) then Some(if s[0] == '-' then -(DigitsValue(t) as int) else DigitsValue(t)) else None
    else if |s| > 0 && AllDigits(s) then Some(DigitsValue(s))
    else None
  }

  function Pow10(k: nat): (p: nat)
    ensures p >= 1
  {
    if k == 0 then 1 else 10 * Pow10(k - 1)
  }

  /** `float(s)` for decimal notation: an optional sign, digits, an optional point and
      fraction digits, with at least one digit; `None` is Python's ValueError. */
  function ParseReal(s: string): Option<real>
  {
    if |s| > 0 && (s[0] == '-' || s[0] == '+') then
      match ParseUnsignedReal(s[1..])
      case Some(v) => Some(if s[0] == '-' then -v else v)
      case None => None
    else ParseUnsignedReal(s)
  }

  function ParseUnsignedReal(s: string): Option<real>
  {
    var (h, _, t) := Partition(s, '.');
    if (h == "" && t == "") || !AllDigits(h) || !AllDigits(t) then None
    else Some(DigitsValue(h) as real + DigitsValue(t) as real / Pow10(|t|) as real)
  }

  function DigitChar(d: nat): (c: char)
    requires d < 10
    ensures IsDigit(c) && c as int - '0' as int == d
  {
    ['0', '1', '2', '3', '4', '5', '6', '7', '8', '9'][d]
  }

  /** `str(n)` for a non-negative integer. */
  function NatToString(n: nat): (s: string)
    ensures |s| > 0 && AllDigits(s)
  {
    if n < 10 then [DigitChar(n)] else NatToString(n / 10) + [DigitChar(n % 10)]
  }

  /** `str(n)`. */
  function IntToString(n: int): string
  {
    if n < 0 then "-" + NatToString(-n) else NatToString(n)
  }

  /** Reading back what `NatToString` wrote gives the number. */
  lemma {:induction false} NatToStringValue(n: nat)
    ensures DigitsValue(NatToString(n)) == n
  {
    if n >= 10 {
      var s := NatToString(n);
      NatToStringValue(n / 10);
      assert s[..|s| - 1] == NatToString(n / 10);
    }
  }

  /** `int(str(n)) == n`. */
  lemma IntRoundTrip(n: int)
    ensures ParseInt(IntToString(n)) == Some(n)
  {
    if n < 0 {
      var t := NatToString(-n);
      NatToStringValue(-n);
      var s := IntToString(n);
      assert s == "-" + t && s[0] == '-' && s[1..] == t;
      assert ParseInt(s) == Some(-(DigitsValue(t) as int));
    } else {
      var t := NatToString(n);
      NatToStringValue(n);
      assert IntToString(n) == t && t[0] != '-' && t[0] != '+';
      assert ParseInt(t) == Some(DigitsValue(t));
    }
  }

  /** Distinct numbers print differently. */
  lemma NatToStringInjective(m: nat, n: nat)
    requires NatToString(m) == NatToString(n)
    ensures m == n
  {
    NatToStringValue(m);
    NatToStringValue(n);
  }
  /** Partitioning at the first separator splits there. */
  lemma {:induction false} PartitionAt(a: string, sep: char, b: string)
    requires sep !in a
    ensures Partition(a + [sep] + b, sep) == (a, true, b)
  {
    var s := a + [sep] + b;
    if a == [] {
      assert s[1..] == b;
    } else {
      PartitionAt(a[1..], sep, b);
      assert s[1..] == a[1..] + [sep] + b;
      assert [a[0]] + a[1..] == a;
    }
  }

  /** `str(n)` writes digits and at most a minus sign. */
  lemma IntToStringChars(n: int, c: char)
    requires c in IntToString(n)
    ensures IsDigit(c) || c == '-'
  {
  }

  /** `float(str(n)) == n` for a non-negative integer. */
  lemma RealRoundTrip(n: nat)
    ensures ParseReal(NatToString(n)) == Some(n as real)
  {
    var s := NatToString(n);
    NatToStringValue(n);
    assert forall i :: 0 <= i < |s| ==> IsDigit(s[i]);
    assert '.' !in s;
    assert Partition(s, '.') == (s, false, "");
  }

  /** A text without the separator is one piece. */
  lemma {:induction false} SplitWithout(s: string, sep: char)
    requires sep !in s
    ensures Split(s, sep) == [s]
  {
    if s != [] {
      SplitWithout(s[1..], sep);
      assert [s[0]] + s[1..] == s;
    }
  }

  /** A piece without the separator, then the separator, comes off as the first piece. */
  lemma {:induction false} SplitAt(a: string, sep: char, b: string)
    requires sep !in a
    ensures Split(a + [sep] + b, sep) == [a] + Split(b, sep)
  {
    var s := a + [sep] + b;
    if a == [] {
      assert s[1..] == b;
    } else {
      SplitAt(a[1..], sep, b);
      assert s[1..] == a[1..] + [sep] + b;
      assert [a[0]] + a[1..] == a;
    }
  }

  /** Splitting what `Join` wrote gives the parts back when no part holds the separator. */
  lemma {:induction false} JoinSplit(parts: seq<string>, sep: char)
    requires |parts| >= 1
    requires forall i :: 0 <= i < |parts| ==> sep !in parts[i]
    ensures Split(Join(parts, [sep]), sep) == parts
  {
    if |parts| == 1 {
      SplitWithout(parts[0], sep);
    } else {
      JoinSplit(parts[1..], sep);
      SplitAt(parts[0], sep, Join(parts[1..], [sep]));
      assert Join(parts, [sep]) == parts[0] + [sep] + Join(parts[1..], [sep]);
    }
  }
}
