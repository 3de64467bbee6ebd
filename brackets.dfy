/**
 * The two bracket scans both translators share: `between`, which cuts out the
 * text from the first opening character to the last closing one, and the split
 * of a parameter list on the commas that are not inside parentheses. Also the
 * scan of the newer translator that finds where the generic argument list ends.
 */
module Brackets {
  import opened JsText

  /** `between(s, open, close)`: `s.substring(s.indexOf(open) + 1, s.lastIndexOf(close))`. */
  function Between(s: string, open: char, close: char): string {
    Substring(s, IndexOf(s, [open]) + 1, LastIndexOf(s, close))
  }

  /**
   * `between` takes everything from just after the first `open` to just before
   * the last `close`, whatever lies in between: it does not balance brackets.
   */
  lemma BetweenSplit(p: string, m: string, q: string, open: char, close: char)
    requires open !in p && close !in q
    ensures Between(p + [open] + m + [close] + q, open, close) == m
  {
    var s := p + [open] + m + [close] + q;
    IndexOfFirstChar(s, open, |p|);
    LastIndexOfLastChar(s, close, |p| + 1 + |m|);
    assert s[|p| + 1..|p| + 1 + |m|] == m;
  }

  /** With no closing character, the end bound -1 clamps to 0 and the bounds swap. */
  lemma BetweenNoClose(p: string, q: string, open: char, close: char)
    requires open !in p && close !in p + [open] + q
    ensures Between(p + [open] + q, open, close) == p + [open]
  {
    var s := p + [open] + q;
    IndexOfFirstChar(s, open, |p|);
    LastIndexOfSpec(s, close);
    SubstringClamps(s, |p| + 1, -1);
    assert s[..|p| + 1] == p + [open];
  }

  /** When the last `close` comes before the first `open`, the bounds swap. */
  lemma BetweenCrossed(p: string, m: string, q: string, open: char, close: char)
    requires open !in p + [close] + m && close !in m + [open] + q
    ensures Between(p + [close] + m + [open] + q, open, close) == [close] + m + [open]
  {
    var s := p + [close] + m + [open] + q;
    IndexOfFirstChar(s, open, |p| + 1 + |m|);
    LastIndexOfLastChar(s, close, |p|);
    assert s[|p|..|p| + |m| + 2] == [close] + m + [open];
  }

  /** The nesting example: the outer pair is found, the inner one kept. */
  lemma BetweenNested()
    ensures Between("f(a(b,c),d)", '(', ')') == "a(b,c),d"
  {
    BetweenSplit("f", "a(b,c),d", "", '(', ')');
    assert "f" + ['('] + "a(b,c),d" + [')'] + "" == "f(a(b,c),d)";
  }

  /** Parenthesis depth after scanning `s`: opening minus closing parentheses. */
  function Depth(s: string): int {
    if s == [] then 0
    else Depth(s[..|s| - 1]) + (if s[|s| - 1] == '(' then 1 else if s[|s| - 1] == ')' then -1 else 0)
  }

  /** A comma at depth 0 cuts a parameter list; this is the cut at the end of `t + [c]`. */
  predicate CutsAfter(t: string, c: char) {
    c == ',' && Depth(t) == 0
  }

  /**
   * The raw segments of a parameter list, defined character by character: a
   * comma at depth 0 starts a new segment, every other character (parentheses
   * included) goes to the current one.
   */
  function Segments(s: string): (r: seq<string>)
    ensures |r| >= 1
  {
    if s == [] then [""]
    else
      var t := s[..|s| - 1];
      var prev := Segments(t);
      if CutsAfter(t, s[|s| - 1]) then prev + [""]
      else prev[..|prev| - 1] + [Last(prev) + [s[|s| - 1]]]
  }

  /** The number of commas of `s` at depth 0. */
  function TopCommas(s: string): nat {
    if s == [] then 0
    else TopCommas(s[..|s| - 1]) + (if CutsAfter(s[..|s| - 1], s[|s| - 1]) then 1 else 0)
  }

  /** Joining the segments with "," gives the list back: nothing is lost, nothing added. */
  lemma {:induction false} SegmentsJoin(s: string)
    ensures Join(Segments(s), ",") == s
  {
    if s != [] {
      var t := s[..|s| - 1];
      var c := s[|s| - 1];
      var prev := Segments(t);
      SegmentsJoin(t);
      assert s == t + [c];
      if CutsAfter(t, c) {
        JoinSnoc(prev, "", ",");
      } else if |prev| == 1 {
        assert Segments(s) == [prev[0] + [c]];
      } else {
        var init := prev[..|prev| - 1];
        assert prev == init + [Last(prev)];
        JoinSnoc(init, Last(prev), ",");
        JoinSnoc(init, Last(prev) + [c], ",");
      }
    }
  }

  /** There is one more segment than there are commas at depth 0. */
  lemma {:induction false} SegmentsCount(s: string)
    ensures |Segments(s)| == 1 + TopCommas(s)
  {
    if s != [] {
      SegmentsCount(s[..|s| - 1]);
    }
  }

  /**
   * Every segment but the last is followed in `s` by a comma at depth 0. With
   * SegmentsJoin and SegmentsCount this fixes the split completely: the cuts are
   * exactly the commas at depth 0.
   */
  lemma {:induction false} SegmentsBoundary(s: string, k: nat)
    requires k + 1 < |Segments(s)|
    ensures var pre := Join(Segments(s)[..k + 1], ",");
      |pre| < |s| && pre == s[..|pre|] && s[|pre|] == ',' && Depth(pre) == 0
  {
    var t := s[..|s| - 1];
    var c := s[|s| - 1];
    var prev := Segments(t);
    assert s == t + [c];
    if CutsAfter(t, c) && k + 1 == |prev| {
      assert Segments(s)[..k + 1] == prev;
      SegmentsJoin(t);
    } else {
      assert Segments(s)[..k + 1] == prev[..k + 1];
      SegmentsBoundary(t, k);
    }
  }

  lemma SegmentsSnoc(t: string, c: char)
    ensures Segments(t + [c]) ==
      if CutsAfter(t, c) then Segments(t) + [""]
      else Segments(t)[..|Segments(t)| - 1] + [Last(Segments(t)) + [c]]
  {
    assert (t + [c])[..|t|] == t;
  }

  lemma DepthSnoc(t: string, c: char)
    ensures Depth(t + [c]) == Depth(t) + (if c == '(' then 1 else if c == ')' then -1 else 0)
  {
    assert (t + [c])[..|t|] == t;
  }

  /** A character that neither nests nor cuts. */
  predicate Plain(c: char) {
    c != '(' && c != ')' && c != ','
  }

  /** A character that does not cut joins the only segment so far. */
  lemma ScanJoins(t: string, c: char, d: int)
    requires Segments(t) == [t] && Depth(t) == d && (c != ',' || d != 0)
    ensures Segments(t + [c]) == [t + [c]]
    ensures Depth(t + [c]) == d + (if c == '(' then 1 else if c == ')' then -1 else 0)
  {
    SegmentsSnoc(t, c);
    DepthSnoc(t, c);
  }

  lemma SegmentsExampleOpen(a: char, b: char)
    requires Plain(a) && Plain(b)
    ensures Segments([a, '(', b]) == [[a, '(', b]] && Depth([a, '(', b]) == 1
  {
    var s1: string := [a];
    assert Segments(s1) == [s1] && Depth(s1) == 0 by {
      var e: string := [];
      assert e + [a] == s1;
      ScanJoins(e, a, 0);
    }
    ScanJoins(s1, '(', 0);
    var s2 := s1 + ['('];
    ScanJoins(s2, b, 1);
    assert s2 + [b] == [a, '(', b];
  }

  lemma SegmentsExampleInner(a: char, b: char, c: char)
    requires Plain(a) && Plain(b) && Plain(c)
    ensures Segments([a, '(', b, ',', c, ')']) == [[a, '(', b, ',', c, ')']]
    ensures Depth([a, '(', b, ',', c, ')']) == 0
  {
    var s3: string := [a, '(', b];
    SegmentsExampleOpen(a, b);
    ScanJoins(s3, ',', 1);
    var s4 := s3 + [','];
    ScanJoins(s4, c, 1);
    var s5 := s4 + [c];
    ScanJoins(s5, ')', 1);
    assert s5 + [')'] == [a, '(', b, ',', c, ')'];
  }

  /**
   * The comma inside the inner parentheses does not cut; the one after them
   * does: `a(b,c),d` splits into `a(b,c)` and `d`, for any plain `a`..`d`.
   */
  lemma SegmentsExample(a: char, b: char, c: char, d: char)
    requires Plain(a) && Plain(b) && Plain(c) && Plain(d)
    ensures Segments([a, '(', b, ',', c, ')', ',', d]) == [[a, '(', b, ',', c, ')'], [d]]
  {
    var s6: string := [a, '(', b, ',', c, ')'];
    SegmentsExampleInner(a, b, c);
    SegmentsSnoc(s6, ',');
    var s7 := s6 + [','];
    assert Segments(s7) == [s6, ""];
    assert Depth(s7) == 0 by {
      DepthSnoc(s6, ',');
    }
    SegmentsSnoc(s7, d);
    assert Segments(s7 + [d]) == [s6] + ["" + [d]];
    assert "" + [d] == [d];
    assert [s6] + [[d]] == [s6, [d]];
    assert s7 + [d] == [a, '(', b, ',', c, ')', ',', d];
  }

  /**
   * The split loop of both translators' `getParams`: `paren` counts parentheses,
   * a comma at depth 0 pushes `cur`, everything else is appended to `cur`.
   */
  method SplitTopLevel(paramLine: string) returns (params: seq<string>)
    ensures params == Segments(paramLine)
  {
    params := [];
    var cur := "";
    var paren := 0;
    var i := 0;
    while i < |paramLine|
      invariant 0 <= i <= |paramLine|
      invariant paren == Depth(paramLine[..i])
      invariant params + [cur] == Segments(paramLine[..i])
    {
      var c := paramLine[i];
      assert paramLine[..i + 1][..i] == paramLine[..i];
      if c == '(' {
        paren := paren + 1;
      } else if c == ')' {
        paren := paren - 1;
      } else if c == ',' && paren == 0 {
        params := params + [cur];
        cur := "";
        i := i + 1;
        continue;
      }
      cur := cur + [c];
      i := i + 1;
    }
    assert paramLine[..i] == paramLine;
    params := params + [cur];
  }

  /** Angle depth after scanning `s`: `<` minus `>`. */
  function Angle(s: string): int {
    if s == [] then 0
    else Angle(s[..|s| - 1]) + (if s[|s| - 1] == '<' then 1 else if s[|s| - 1] == '>' then -1 else 0)
  }

  /** The `>` at index `i` brings the angle count back to exactly 0. */
  predicate ClosesAt(line: string, i: int) {
    0 <= i < |line| && line[i] == '>' && Angle(line[..i + 1]) == 0
  }

  function CloseFrom(line: string, from: nat): (r: int)
    decreases |line| - from
    ensures r == -1 || (from <= r && ClosesAt(line, r))
    ensures r == -1 ==> forall j :: from <= j ==> !ClosesAt(line, j)
    ensures r != -1 ==> forall j :: from <= j < r ==> !ClosesAt(line, j)
  {
    if from >= |line| then -1
    else if ClosesAt(line, from) then from
    else CloseFrom(line, from + 1)
  }

  /** The end of the generic argument list: the first `>` that closes to depth 0, or -1. */
  function GenericClose(line: string): (r: int)
    ensures r == -1 <==> forall j :: !ClosesAt(line, j)
    ensures r != -1 ==> ClosesAt(line, r) && forall j :: 0 <= j < r ==> !ClosesAt(line, j)
  {
    CloseFrom(line, 0)
  }

  /** The first loop of the newer `getParams`, which breaks at the closing `>`. */
  method FindGenericClose(line: string) returns (closePos: int)
    ensures closePos == GenericClose(line)
  {
    closePos := -1;
    var angle := 0;
    var i := 0;
    while i < |line|
      invariant 0 <= i <= |line|
      invariant angle == Angle(line[..i])
      invariant forall j :: 0 <= j < i ==> !ClosesAt(line, j)
    {
      var c := line[i];
      assert line[..i + 1][..i] == line[..i];
      if c == '<' {
        angle := angle + 1;
      } else if c == '>' {
        angle := angle - 1;
        if angle == 0 {
          assert ClosesAt(line, i);
          closePos := i;
          break;
        }
      }
      i := i + 1;
    }
  }
}
