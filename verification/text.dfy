/** String helpers the report builder relies on: Python's `str.join`,
    `str.split` on one character, and the date-range display. */
module Text {

  /** A character is in a concatenation exactly when it is in a part. */
  lemma InConcat(c: char, a: string, b: string)
    ensures c in a + b <==> c in a || c in b
  {
  }

  /** `f"{caption}: {value}"` for a one-line caption: the line breaks only
      where its value does. */
  function LabelledLine(caption: string, value: string): (r: string)
    requires '\n' !in caption
    ensures '\n' in r <==> '\n' in value
  {
    InConcat('\n', caption, ": ");
    InConcat('\n', caption + ": ", value);
    caption + ": " + value
  }

  /** Total length of a sequence of strings. */
  function SumLengths(xs: seq<string>): nat {
    if |xs| == 0 then 0 else |xs[0]| + SumLengths(xs[1..])
  }

  /** Each element rendered to one string, in order: the list comprehension
      that feeds `str.join`. */
  function MapStrings<X>(xs: seq<X>, f: X -> string): (r: seq<string>)
    ensures |r| == |xs|
    ensures forall i :: 0 <= i < |xs| ==> r[i] == f(xs[i])
  {
    seq(|xs|, i requires 0 <= i < |xs| => f(xs[i]))
  }

  /** `sep.join(xs)`. */
  function Join(sep: string, xs: seq<string>): (r: string)
    ensures |xs| == 0 ==> r == ""
    ensures |xs| > 0 ==> |r| == SumLengths(xs) + (|xs| - 1) * |sep|
  {
    if |xs| == 0 then ""
    else if |xs| == 1 then xs[0]
    else xs[0] + sep + Join(sep, xs[1..])
  }

  /** `s.split(c)`: the pieces between occurrences of `c`; never empty. */
  function Split(s: string, c: char): (r: seq<string>)
    ensures |r| >= 1
    decreases |s|
  {
    if |s| == 0 then [""]
    else
      var rest := Split(s[1..], c);
      if s[0] == c then [""] + rest else [[s[0]] + rest[0]] + rest[1..]
  }

  /** A string without the separator splits into itself. */
  lemma {:induction false} SplitWithoutSeparator(x: string, c: char)
    requires c !in x
    ensures Split(x, c) == [x]
    decreases |x|
  {
    if |x| > 0 {
      SplitWithoutSeparator(x[1..], c);
      assert [x[0]] + x[1..] == x;
    }
  }

  /** Splitting stops at the first separator. */
  lemma {:induction false} SplitAtFirstSeparator(x: string, y: string, c: char)
    requires c !in x
    ensures Split(x + [c] + y, c) == [x] + Split(y, c)
    decreases |x|
  {
    var s := x + [c] + y;
    if |x| == 0 {
      assert s[1..] == y;
    } else {
      assert s[1..] == x[1..] + [c] + y;
      SplitAtFirstSeparator(x[1..], y, c);
      assert [x[0]] + x[1..] == x;
    }
  }

  /** Joining pieces free of the separator character and splitting the
      result again gives back the pieces. */
  lemma {:induction false} SplitJoin(xs: seq<string>, c: char)
    requires |xs| >= 1
    requires forall i :: 0 <= i < |xs| ==> c !in xs[i]
    ensures Split(Join([c], xs), c) == xs
    decreases |xs|
  {
    if |xs| == 1 {
      SplitWithoutSeparator(xs[0], c);
    } else {
      SplitJoin(xs[1..], c);
      SplitAtFirstSeparator(xs[0], Join([c], xs[1..]), c);
      assert [xs[0]] + xs[1..] == xs;
    }
  }

  /** Blocks of lines laid out one after another with one empty line
      between consecutive blocks. */
  function Spaced(bs: seq<seq<string>>): (r: seq<string>)
    ensures |bs| >= 1 && bs[0] != [] ==> |r| >= 1
  {
    if |bs| == 0 then []
    else if |bs| == 1 then bs[0]
    else bs[0] + [""] + Spaced(bs[1..])
  }

  /** Joining two non-empty lists is joining each and putting the
      separator between them. */
  lemma {:induction false} JoinAppend(sep: string, xs: seq<string>, ys: seq<string>)
    requires |xs| >= 1 && |ys| >= 1
    ensures Join(sep, xs + ys) == Join(sep, xs) + sep + Join(sep, ys)
    decreases |xs|
  {
    var zs := xs + ys;
    if |xs| == 1 {
      assert zs[1..] == ys;
    } else {
      assert zs[1..] == xs[1..] + ys;
      JoinAppend(sep, xs[1..], ys);
    }
  }

  /** Blocks joined with a blank line are their lines joined with single
      newlines, an empty line standing between blocks. */
  lemma {:induction false} JoinSpaced(bs: seq<seq<string>>, texts: seq<string>)
    requires |bs| == |texts| >= 1
    requires forall i :: 0 <= i < |bs| ==> bs[i] != [] && texts[i] == Join("\n", bs[i])
    ensures Join("\n\n", texts) == Join("\n", Spaced(bs))
    decreases |bs|
  {
    if |bs| > 1 {
      JoinSpaced(bs[1..], texts[1..]);
      var rest := Spaced(bs[1..]);
      var a := Join("\n", bs[0]);
      var b := Join("\n", rest);
      assert Join("\n\n", texts) == a + "\n\n" + b;
      JoinAppend("\n", bs[0], [""]);
      JoinAppend("\n", bs[0] + [""], rest);
      assert Spaced(bs) == (bs[0] + [""]) + rest;
      var j := Join("\n", bs[0] + [""]);
      assert Join("\n", [""]) == "";
      assert j == a + "\n" + "";
      assert Join("\n", Spaced(bs)) == j + "\n" + b;
      BlankLine(a, b);
    }
  }

  /** A newline, an empty line and a newline make one blank line. */
  lemma BlankLine(a: string, b: string)
    ensures (a + "\n" + "") + "\n" + b == a + "\n\n" + b
  {
    assert a + "\n" + "" == a + "\n";
    assert (a + "\n") + "\n" == a + "\n\n";
  }

  /** Every line of the layout is a line of some block or the empty line. */
  lemma {:induction false} SpacedLines(bs: seq<seq<string>>, c: char)
    requires forall i, j :: 0 <= i < |bs| && 0 <= j < |bs[i]| ==> c !in bs[i][j]
    ensures forall j :: 0 <= j < |Spaced(bs)| ==> c !in Spaced(bs)[j]
    decreases |bs|
  {
    if |bs| > 1 {
      SpacedLines(bs[1..], c);
      var rest := Spaced(bs[1..]);
      forall j | 0 <= j < |Spaced(bs)| ensures c !in Spaced(bs)[j] {
        if j > |bs[0]| {
          assert Spaced(bs)[j] == rest[j - |bs[0]| - 1];
        }
      }
    }
  }

  /** Newline-free blocks joined with a blank line split back, at
      newlines, into the blocks' lines with one empty line between
      consecutive blocks. */
  lemma SplitSpaced(bs: seq<seq<string>>, texts: seq<string>)
    requires |bs| == |texts| >= 1
    requires forall i :: 0 <= i < |bs| ==> bs[i] != [] && texts[i] == Join("\n", bs[i])
    requires forall i, j :: 0 <= i < |bs| && 0 <= j < |bs[i]| ==> '\n' !in bs[i][j]
    ensures Split(Join("\n\n", texts), '\n') == Spaced(bs)
  {
    JoinSpaced(bs, texts);
    SpacedLines(bs, '\n');
    SplitJoin(Spaced(bs), '\n');
    assert ['\n'] == "\n";
  }

  /** Text order, character by character, a prefix first: the order of
      timestamps written in one fixed-width format. */
  predicate TextLe(a: string, b: string)
    decreases |a|
  {
    |a| == 0 || (|b| > 0 && (a[0] < b[0] || (a[0] == b[0] && TextLe(a[1..], b[1..]))))
  }

  /** A common prefix does not change the order. */
  lemma {:induction false} TextLePrefix(p: string, a: string, b: string)
    requires TextLe(a, b)
    ensures TextLe(p + a, p + b)
  {
    if |p| == 0 {
      assert p + a == a && p + b == b;
    } else {
      TextLePrefix(p[1..], a, b);
      assert (p + a)[1..] == p[1..] + a;
      assert (p + b)[1..] == p[1..] + b;
    }
  }

  /** Character-wise no greater means no greater in text order. */
  lemma {:induction false} TextLePointwise(a: string, b: string)
    requires |a| <= |b|
    requires forall i :: 0 <= i < |a| ==> a[i] <= b[i]
    ensures TextLe(a, b)
  {
    if |a| > 0 && a[0] == b[0] {
      TextLePointwise(a[1..], b[1..]);
    }
  }

  /** Two texts of one length that differ are ordered by their first
      difference, whatever follows them. */
  lemma {:induction false} TextLeDecided(p: string, q: string, a: string, b: string)
    requires |p| == |q| && p != q
    ensures TextLe(p + a, q + b) == TextLe(p, q)
  {
    if p[0] == q[0] {
      assert p == [p[0]] + p[1..] && q == [q[0]] + q[1..];
      TextLeDecided(p[1..], q[1..], a, b);
      assert (p + a)[1..] == p[1..] + a;
      assert (q + b)[1..] == q[1..] + b;
    }
  }

  /** Between texts of one length the order is total and antisymmetric. */
  lemma {:induction false} TextLeTotal(p: string, q: string)
    requires |p| == |q|
    ensures TextLe(p, q) || TextLe(q, p)
    ensures TextLe(p, q) && TextLe(q, p) ==> p == q
  {
    if |p| > 0 && p[0] == q[0] {
      TextLeTotal(p[1..], q[1..]);
      assert p == [p[0]] + p[1..] && q == [q[0]] + q[1..];
    }
  }

  const Arrow: string := " -> "

  /** `format_datetime_range`: empty when both ends are empty, the start
      alone when the end is missing, otherwise `start -> end`. */
  function FormatRange(start: string, end: string): (r: string)
    ensures r == "" <==> start == "" && end == ""
    ensures |start| <= |r| && r[..|start|] == start
    ensures end == "" ==> r == start
    ensures end != "" ==> |r| == |start| + |Arrow| + |end|
                          && r[|start|..|start| + |Arrow|] == Arrow
                          && r[|start| + |Arrow|..] == end
  {
    if start == "" && end == "" then ""
    else if end == "" then start
    else start + Arrow + end
  }
}
