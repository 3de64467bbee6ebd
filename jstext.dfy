/**
 * The JavaScript string built-ins the translators use, over `seq<char>`:
 * `indexOf`, `includes`, `lastIndexOf`, `substring`, `startsWith`, `split`,
 * `join`, `trim`, `trimStart`, `replace` with a string pattern, the decimal
 * rendering of a count in a template literal, and the sign test that `x < 0`
 * performs when `x` is a string coerced by ToNumber.
 */
module JsText {
  import opened Results

  /** `pat` occurs in `s` at index `i`. */
  predicate MatchAt(s: string, pat: string, i: int) {
    0 <= i && i + |pat| <= |s| && s[i..i + |pat|] == pat
  }

  /** The first index at or after `from` where `pat` occurs, or -1. */
  function IndexFrom(s: string, pat: string, from: nat): (r: int)
    decreases |s| + 1 - from
    ensures r == -1 || (from <= r && r + |pat| <= |s|)
  {
    if from > |s| then -1
    else if MatchAt(s, pat, from) then from
    else IndexFrom(s, pat, from + 1)
  }

  lemma {:induction false} IndexFromSpec(s: string, pat: string, from: nat)
    decreases |s| + 1 - from
    ensures var r := IndexFrom(s, pat, from);
      (r == -1 || (from <= r && MatchAt(s, pat, r)))
      && (r == -1 ==> forall j :: from <= j ==> !MatchAt(s, pat, j))
      && (r != -1 ==> forall j :: from <= j < r ==> !MatchAt(s, pat, j))
  {
    if from <= |s| && !MatchAt(s, pat, from) {
      IndexFromSpec(s, pat, from + 1);
    }
  }

  /** `s.indexOf(pat)`: the first index where `pat` occurs, or -1 when it does not. */
  function IndexOf(s: string, pat: string): (r: int)
    ensures r == -1 || (0 <= r && r + |pat| <= |s|)
  {
    IndexFrom(s, pat, 0)
  }

  /** `indexOf` finds the first occurrence, and gives -1 exactly when there is none. */
  lemma IndexOfSpec(s: string, pat: string)
    ensures var r := IndexOf(s, pat);
      (r == -1 <==> forall j :: !MatchAt(s, pat, j))
      && (r != -1 ==> MatchAt(s, pat, r) && forall j :: 0 <= j < r ==> !MatchAt(s, pat, j))
  {
    IndexFromSpec(s, pat, 0);
  }

  /** Around its first occurrence the text falls apart into before, pattern and after. */
  lemma IndexOfSplits(s: string, pat: string)
    requires IndexOf(s, pat) >= 0
    ensures var k := IndexOf(s, pat); s == s[..k] + pat + s[k + |pat|..]
  {
    IndexOfSpec(s, pat);
    var k := IndexOf(s, pat);
    assert s[k..k + |pat|] == pat;
    assert s == s[..k] + s[k..k + |pat|] + s[k + |pat|..];
  }

  /** `s.includes(pat)`. */
  predicate Includes(s: string, pat: string) {
    IndexOf(s, pat) >= 0
  }

  lemma IndexOfFirstChar(s: string, c: char, k: nat)
    requires k < |s| && s[k] == c
    requires forall j :: 0 <= j < k ==> s[j] != c
    ensures IndexOf(s, [c]) == k
  {
    IndexOfSpec(s, [c]);
    assert s[k..k + 1] == [c];
    assert MatchAt(s, [c], k);
    forall j | 0 <= j < k
      ensures !MatchAt(s, [c], j)
    {
      assert s[j..j + 1][0] == s[j];
    }
  }

  /** For a one-character pattern, `includes` is membership. */
  lemma IncludesChar(s: string, c: char)
    ensures Includes(s, [c]) <==> c in s
  {
    IndexOfSpec(s, [c]);
    if c in s {
      var k :| 0 <= k < |s| && s[k] == c;
      assert s[k..k + 1] == [c];
      assert MatchAt(s, [c], k);
    } else {
      forall j | 0 <= j < |s|
        ensures !MatchAt(s, [c], j)
      {
        assert s[j..j + 1] == [s[j]];
      }
    }
  }

  /** `s.lastIndexOf(c)` for a one-character pattern. */
  function LastIndexOf(s: string, c: char): (r: int)
    ensures -1 <= r < |s|
  {
    if s == [] then -1
    else if s[|s| - 1] == c then |s| - 1
    else LastIndexOf(s[..|s| - 1], c)
  }

  /** `lastIndexOf` finds the last occurrence, and gives -1 exactly when there is none. */
  lemma {:induction false} LastIndexOfSpec(s: string, c: char)
    ensures var r := LastIndexOf(s, c);
      (r == -1 <==> c !in s)
      && (r != -1 ==> s[r] == c && forall j :: r < j < |s| ==> s[j] != c)
  {
    if s != [] && s[|s| - 1] != c {
      var t := s[..|s| - 1];
      LastIndexOfSpec(t, c);
      assert s == t + [s[|s| - 1]];
    }
  }

  lemma LastIndexOfLastChar(s: string, c: char, k: nat)
    requires k < |s| && s[k] == c
    requires forall j :: k < j < |s| ==> s[j] != c
    ensures LastIndexOf(s, c) == k
  {
    LastIndexOfSpec(s, c);
  }

  function Clamp(k: int, n: nat): (r: nat)
    ensures r <= n
    ensures 0 <= k <= n ==> r == k
  {
    if k < 0 then 0 else if k > n then n else k
  }

  /** `s.substring(start, end)`: both bounds clamped to `[0, |s|]`, swapped when start > end. */
  function Substring(s: string, start: int, end: int): (r: string)
    ensures |r| <= |s|
    ensures 0 <= start <= end <= |s| ==> r == s[start..end]
    ensures 0 <= end <= start <= |s| ==> r == s[end..start]
  {
    var a := Clamp(start, |s|);
    var b := Clamp(end, |s|);
    if a <= b then s[a..b] else s[b..a]
  }

  /**
   * Out of range, a negative bound counts as 0 and one past the end as the
   * length: `substring(k, -1)` is the prefix before k, `substring(k, |s| + 1)`
   * the suffix from k, and the same with the bounds exchanged.
   */
  lemma SubstringClamps(s: string, start: int, end: int)
    ensures end < 0 && 0 <= start <= |s| ==> Substring(s, start, end) == s[..start]
    ensures end > |s| && 0 <= start <= |s| ==> Substring(s, start, end) == s[start..]
    ensures start < 0 && 0 <= end <= |s| ==> Substring(s, start, end) == s[..end]
    ensures start > |s| && 0 <= end <= |s| ==> Substring(s, start, end) == s[end..]
  {
  }

  /** `s.startsWith(p)`. */
  predicate StartsWith(s: string, p: string) {
    |p| <= |s| && s[..|p|] == p
  }

  /** `s.split(sep)` for a non-empty string separator. */
  function Split(s: string, sep: string): (r: seq<string>)
    requires |sep| > 0
    decreases |s|
    ensures |r| >= 1
  {
    var k := IndexOf(s, sep);
    if k < 0 then [s] else [s[..k]] + Split(s[k + |sep|..], sep)
  }

  /** Without the separator the text is the only piece; with it, the first piece ends at its first occurrence. */
  lemma SplitFirst(s: string, sep: string)
    requires |sep| > 0
    ensures var r := Split(s, sep);
      (|r| >= 2 <==> Includes(s, sep))
      && (!Includes(s, sep) ==> r == [s])
      && (Includes(s, sep) ==> r[0] == s[..IndexOf(s, sep)])
  {
  }

  /**
   * For a two-character separator whose characters differ, the first occurrence
   * in `x + sep + y` is right after `x` when `x` holds none: no occurrence can
   * straddle the end of `x`.
   */
  lemma IndexOfAfter(x: string, sep: string, y: string)
    requires |sep| == 2 && sep[0] != sep[1] && !Includes(x, sep)
    ensures IndexOf(x + sep + y, sep) == |x|
  {
    var s := x + sep + y;
    IndexOfSpec(x, sep);
    IndexOfSpec(s, sep);
    assert s[|x|..|x| + 2] == sep;
    assert MatchAt(s, sep, |x|);
    forall j | 0 <= j < |x|
      ensures !MatchAt(s, sep, j)
    {
      if j + 2 <= |x| {
        assert s[j..j + 2] == x[j..j + 2];
        assert !MatchAt(x, sep, j);
      } else {
        assert s[j + 1] == sep[0];
        assert s[j..j + 2][1] == s[j + 1];
      }
    }
  }

  /** Splitting `x + sep + y` gives `x` first and then the pieces of `y`. */
  lemma SplitAfter(x: string, sep: string, y: string)
    requires |sep| == 2 && sep[0] != sep[1] && !Includes(x, sep)
    ensures Split(x + sep + y, sep) == [x] + Split(y, sep)
  {
    var s := x + sep + y;
    IndexOfAfter(x, sep, y);
    assert s[..|x|] == x;
    assert s[|x| + |sep|..] == y;
  }

  /** A text made only of white space trims to "". */
  lemma TrimBlank(s: string)
    requires forall k :: 0 <= k < |s| ==> IsSpace(s[k])
    ensures Trim(s) == ""
  {
    TrimStartBlank(s);
  }

  lemma {:induction false} TrimStartBlank(s: string)
    requires forall k :: 0 <= k < |s| ==> IsSpace(s[k])
    ensures TrimStart(s) == ""
  {
    if s != [] {
      assert IsSpace(s[0]);
      TrimStartBlank(s[1..]);
    }
  }

  /** `parts.join(sep)`. */
  function Join(parts: seq<string>, sep: string): string {
    if |parts| == 0 then ""
    else if |parts| == 1 then parts[0]
    else parts[0] + sep + Join(parts[1..], sep)
  }

  lemma {:induction false} JoinSnoc(parts: seq<string>, x: string, sep: string)
    requires |parts| >= 1
    ensures Join(parts + [x], sep) == Join(parts, sep) + sep + x
  {
    if |parts| > 1 {
      assert (parts + [x])[1..] == parts[1..] + [x];
      JoinSnoc(parts[1..], x, sep);
    } else {
      assert (parts + [x])[1..] == [x];
    }
  }

  /** Joining the pieces of a split with the same separator gives back the text. */
  lemma {:induction false} SplitJoin(s: string, sep: string)
    requires |sep| > 0
    ensures Join(Split(s, sep), sep) == s
    decreases |s|
  {
    var k := IndexOf(s, sep);
    if k >= 0 {
      var rest := s[k + |sep|..];
      IndexOfSplits(s, sep);
      SplitJoin(rest, sep);
      assert Split(s, sep) == [s[..k]] + Split(rest, sep);
      assert s == s[..k] + sep + rest;
    }
  }

  /** No piece of a split contains the separator. */
  lemma {:induction false} SplitPiecesFree(s: string, sep: string, n: nat)
    requires |sep| > 0
    requires n < |Split(s, sep)|
    ensures !Includes(Split(s, sep)[n], sep)
    decreases |s|
  {
    var k := IndexOf(s, sep);
    if k >= 0 {
      var rest := s[k + |sep|..];
      if n == 0 {
        IndexOfSpec(s, sep);
        var piece := s[..k];
        forall j | 0 <= j && j + |sep| <= |piece|
          ensures !MatchAt(piece, sep, j)
        {
          assert s[j..j + |sep|] == piece[j..j + |sep|];
          assert !MatchAt(s, sep, j);
        }
        IndexOfSpec(piece, sep);
      } else {
        SplitPiecesFree(rest, sep, n - 1);
      }
    }
  }

  lemma LastOfCons(x: string, xs: seq<string>, ys: seq<string>)
    requires |xs| >= 1 && ys == [x] + xs
    ensures Last(ys) == Last(xs)
  {
  }

  predicate EndsWith(s: string, p: string) {
    |p| <= |s| && s[|s| - |p|..] == p
  }

  lemma EndsWithAppend(a: string, b: string, p: string)
    requires EndsWith(b, p)
    ensures EndsWith(a + b, p)
  {
    assert (a + b)[|a + b| - |p|..] == b[|b| - |p|..];
  }

  /**
   * The last piece of a split is a suffix, and what precedes it is empty or ends
   * with the separator (by SplitPiecesFree the piece itself holds no separator).
   */
  lemma {:induction false} SplitLast(s: string, sep: string)
    requires |sep| > 0
    ensures |Last(Split(s, sep))| <= |s|
    ensures var l := Last(Split(s, sep)); var pre := s[..|s| - |l|];
      s == pre + l && (pre == [] || EndsWith(pre, sep))
    decreases |s|
  {
    var k := IndexOf(s, sep);
    if k >= 0 {
      var rest := s[k + |sep|..];
      IndexOfSplits(s, sep);
      SplitLast(rest, sep);
      var pieces := Split(rest, sep);
      var l := Last(pieces);
      LastOfCons(s[..k], pieces, Split(s, sep));
      var preR := rest[..|rest| - |l|];
      assert s == s[..k] + sep + rest;
      var pre := s[..k] + sep + preR;
      assert rest == preR + l;
      assert s == pre + l;
      assert s[..|s| - |l|] == pre;
      if preR != [] {
        EndsWithAppend(s[..k] + sep, preR, sep);
      } else {
        EndsWithAppend(s[..k], sep, sep);
      }
    } else {
      assert Split(s, sep) == [s];
    }
  }

  /** `x.at(-1)`. */
  function Last<T>(xs: seq<T>): T
    requires |xs| > 0
  {
    xs[|xs| - 1]
  }

  /** The characters `String.prototype.trim` removes: WhiteSpace and LineTerminator of ECMAScript. */
  predicate IsSpace(c: char) {
    c == '\t' || c == '\n' || c == '\U{B}' || c == '\U{C}' || c == '\r' || c == ' '
    || c == '\U{A0}' || c == '\U{1680}' || ('\U{2000}' <= c <= '\U{200A}')
    || c == '\U{2028}' || c == '\U{2029}' || c == '\U{202F}' || c == '\U{205F}'
    || c == '\U{3000}' || c == '\U{FEFF}'
  }

  /** `s.trimStart()`: the longest suffix of `s` that does not start with white space. */
  function TrimStart(s: string): (r: string)
    ensures |r| <= |s|
  {
    if s != [] && IsSpace(s[0]) then TrimStart(s[1..]) else s
  }

  /** What `trimStart` removes is white space, and what it keeps does not start with it. */
  lemma {:induction false} TrimStartSpec(s: string)
    ensures var r := TrimStart(s);
      r == s[|s| - |r|..]
      && (forall k :: 0 <= k < |s| - |r| ==> IsSpace(s[k]))
      && (r == [] || !IsSpace(r[0]))
  {
    if s != [] && IsSpace(s[0]) {
      TrimStartSpec(s[1..]);
    }
  }

  /** `s.trimEnd()`: the longest prefix of `s` that does not end with white space. */
  function TrimEnd(s: string): (r: string)
    ensures |r| <= |s|
  {
    if s != [] && IsSpace(s[|s| - 1]) then TrimEnd(s[..|s| - 1]) else s
  }

  /** What `trimEnd` removes is white space, and what it keeps does not end with it. */
  lemma {:induction false} TrimEndSpec(s: string)
    ensures var r := TrimEnd(s);
      r == s[..|r|]
      && (forall k :: |r| <= k < |s| ==> IsSpace(s[k]))
      && (r == [] || !IsSpace(r[|r| - 1]))
  {
    if s != [] && IsSpace(s[|s| - 1]) {
      TrimEndSpec(s[..|s| - 1]);
    }
  }

  /** `s.trim()`. */
  function Trim(s: string): (r: string)
    ensures |r| <= |s|
  {
    TrimEnd(TrimStart(s))
  }

  /** A trimmed text neither starts nor ends with white space; a text without any is its own trim. */
  lemma TrimSpec(s: string)
    ensures var r := Trim(s);
      (r == [] || (!IsSpace(r[0]) && !IsSpace(r[|r| - 1])))
      && ((forall k :: 0 <= k < |s| ==> !IsSpace(s[k])) ==> r == s)
  {
    var t := TrimStart(s);
    TrimStartSpec(s);
    TrimEndSpec(t);
    var r := TrimEnd(t);
    if r != [] {
      assert r[0] == t[0];
    }
    if forall k :: 0 <= k < |s| ==> !IsSpace(s[k]) {
      TrimStartNoSpace(s);
      TrimEndNoSpace(t);
    }
  }

  lemma TrimStartNoSpace(s: string)
    requires forall k :: 0 <= k < |s| ==> !IsSpace(s[k])
    ensures TrimStart(s) == s
  {
  }

  lemma TrimEndNoSpace(s: string)
    requires forall k :: 0 <= k < |s| ==> !IsSpace(s[k])
    ensures TrimEnd(s) == s
  {
  }

  /** Trimming keeps every character that is not white space. */
  lemma TrimKeeps(s: string, j: nat)
    requires j < |s| && !IsSpace(s[j])
    ensures s[j] in Trim(s)
  {
    var t := TrimStart(s);
    TrimStartSpec(s);
    TrimEndSpec(t);
    var off := |s| - |t|;
    assert j >= off;
    assert t[j - off] == s[j];
    var u := TrimEnd(t);
    assert j - off < |u|;
    assert u[j - off] == s[j];
  }

  /** `xs.map((x) => x.trim())`. */
  function MapTrim(xs: seq<string>): (r: seq<string>)
    ensures |r| == |xs|
  {
    if xs == [] then [] else [Trim(xs[0])] + MapTrim(xs[1..])
  }

  /** Each element is trimmed in place. */
  lemma {:induction false} MapTrimAt(xs: seq<string>, k: nat)
    requires k < |xs|
    ensures MapTrim(xs)[k] == Trim(xs[k])
  {
    if k > 0 {
      MapTrimAt(xs[1..], k - 1);
    }
  }

  /** `xs.filter(Boolean)` on strings: the non-empty ones, in their order. */
  function FilterNonEmpty(xs: seq<string>): (r: seq<string>)
    ensures |r| <= |xs|
  {
    if xs == [] then [] else (if xs[0] == "" then [] else [xs[0]]) + FilterNonEmpty(xs[1..])
  }

  lemma FilterNonEmptyCons(x: string, xs: seq<string>)
    ensures FilterNonEmpty([x] + xs) == (if x == "" then [] else [x]) + FilterNonEmpty(xs)
  {
    assert ([x] + xs)[1..] == xs;
  }

  /** The filter keeps exactly the non-empty elements; it is the identity when there is no empty one. */
  lemma {:induction false} FilterNonEmptySpec(xs: seq<string>)
    ensures var r := FilterNonEmpty(xs);
      (forall x :: x in r <==> x in xs && x != "")
      && ((forall k :: 0 <= k < |xs| ==> xs[k] != "") ==> r == xs)
  {
    if xs != [] {
      var t := xs[1..];
      FilterNonEmptySpec(t);
      assert xs == [xs[0]] + t;
      FilterNonEmptyCons(xs[0], t);
      if forall k :: 0 <= k < |xs| ==> xs[k] != "" {
        assert forall k :: 0 <= k < |t| ==> t[k] == xs[k + 1];
        assert FilterNonEmpty(t) == t;
      }
    }
  }

  /** The filter keeps a single element exactly when it is non-empty. */
  lemma FilterNonEmptySingle(x: string)
    ensures FilterNonEmpty([x]) == (if x == "" then [] else [x])
  {
    assert [x][1..] == [];
  }

  /**
   * The filter distributes over concatenation; with `FilterNonEmptySingle` this fixes its
   * result, order and repetitions included.
   */
  lemma {:induction false} FilterNonEmptyAppend(a: seq<string>, b: seq<string>)
    ensures FilterNonEmpty(a + b) == FilterNonEmpty(a) + FilterNonEmpty(b)
  {
    if a == [] {
      assert a + b == b;
    } else {
      var x, t := a[0], a[1..];
      assert a == [x] + t;
      assert a + b == [x] + (t + b);
      FilterNonEmptyAppend(t, b);
      FilterNonEmptyCons(x, t + b);
      FilterNonEmptyCons(x, t);
      var h := if x == "" then [] else [x];
      calc {
        FilterNonEmpty(a + b);
        h + FilterNonEmpty(t + b);
        h + (FilterNonEmpty(t) + FilterNonEmpty(b));
        (h + FilterNonEmpty(t)) + FilterNonEmpty(b);
        FilterNonEmpty(a) + FilterNonEmpty(b);
      }
    }
  }

  /** `s.replace(pat, rep)` with a string pattern: only the first occurrence is replaced. */
  function ReplaceFirst(s: string, pat: string, rep: string): string {
    var k := IndexOf(s, pat);
    if k < 0 then s else s[..k] + rep + s[k + |pat|..]
  }

  /**
   * `replace` leaves a text without the pattern alone, and otherwise rewrites the
   * occurrence at the smallest index, keeping what is around it.
   */
  lemma ReplaceFirstSpec(s: string, pat: string, rep: string)
    ensures !Includes(s, pat) ==> ReplaceFirst(s, pat, rep) == s
    ensures Includes(s, pat) ==> exists k ::
      0 <= k && k + |pat| <= |s| && MatchAt(s, pat, k) && (forall j :: 0 <= j < k ==> !MatchAt(s, pat, j))
      && ReplaceFirst(s, pat, rep) == s[..k] + rep + s[k + |pat|..]
  {
    IndexOfSpec(s, pat);
    var k := IndexOf(s, pat);
    if k >= 0 {
      assert MatchAt(s, pat, k);
    }
  }

  predicate IsDigit(c: char) {
    '0' <= c <= '9'
  }

  predicate AllDigits(s: string) {
    forall k :: 0 <= k < |s| ==> IsDigit(s[k])
  }

  function DigitValue(c: char): (d: nat)
    requires IsDigit(c)
    ensures d < 10
  {
    c as int - '0' as int
  }

  function DigitChar(d: nat): (c: char)
    requires d < 10
    ensures IsDigit(c) && DigitValue(c) == d
  {
    (d + '0' as int) as char
  }

  /** The number a string of decimal digits denotes. */
  function DecimalValue(s: string): nat
    requires AllDigits(s)
  {
    if s == [] then 0 else DecimalValue(s[..|s| - 1]) * 10 + DigitValue(s[|s| - 1])
  }

  /** `${n}` for a count `n`: its shortest decimal numeral. */
  function NatToString(n: nat): (r: string)
    decreases n
    ensures |r| >= 1 && AllDigits(r)
    ensures r[0] == '0' ==> r == "0"
  {
    if n < 10 then [DigitChar(n)] else NatToString(n / 10) + [DigitChar(n % 10)]
  }

  /** Reading the numeral of a count back gives the count. */
  lemma {:induction false} NatToStringValue(n: nat)
    ensures DecimalValue(NatToString(n)) == n
    decreases n
  {
    if n >= 10 {
      NatToStringValue(n / 10);
      var r := NatToString(n);
      assert r[..|r| - 1] == NatToString(n / 10);
    }
  }

  /** The number of leading decimal digits of `s`. */
  function DigitRun(s: string): (n: nat)
    ensures n <= |s|
  {
    if s != [] && IsDigit(s[0]) then 1 + DigitRun(s[1..]) else 0
  }

  /** The run is the longest prefix made of digits. */
  lemma {:induction false} DigitRunSpec(s: string)
    ensures var n := DigitRun(s);
      (forall k :: 0 <= k < n ==> IsDigit(s[k])) && (n == |s| || !IsDigit(s[n]))
  {
    if s != [] && IsDigit(s[0]) {
      DigitRunSpec(s[1..]);
    }
  }

  function Pow(b: nat, e: nat): nat {
    if e == 0 then 1 else b * Pow(b, e - 1)
  }

  /** The exponent part of a StrDecimalLiteral (`e`/`E`, optional sign, digits), or None. */
  function ExponentOf(r: string): Option<int> {
    if r == [] then Some(0)
    else if r[0] != 'e' && r[0] != 'E' then None
    else
      var signed := |r| > 1 && (r[1] == '+' || r[1] == '-');
      var d := if signed then r[2..] else r[1..];
      if |d| == 0 || !AllDigits(d) then None
      else
        var v: int := DecimalValue(d);
        Some(if signed && r[1] == '-' then -v else v)
  }

  /**
   * `m * 10^-k` rounds to a positive double: ties at the smallest subnormal half-step
   * (2^-1075) round to zero.
   */
  predicate RoundsPositive(m: nat, k: int) {
    m > 0 && (k <= 0 || m * Pow(2, 1075) > Pow(10, k))
  }

  /** `u` is a StrUnsignedDecimalLiteral whose value as a double is positive. */
  predicate UnsignedPositive(u: string) {
    if u == "Infinity" then true
    else
      var a := DigitRun(u);
      var r1 := u[a..];
      var hasDot := |r1| > 0 && r1[0] == '.';
      var f := if hasDot then DigitRun(r1[1..]) else 0;
      var r2 := if hasDot then r1[1 + f..] else r1;
      var mantissa := u[..a] + (if hasDot then r1[1..1 + f] else "");
      DigitRunSpec(u);
      DigitRunSpec(if hasDot then r1[1..] else r1);
      var e := ExponentOf(r2);
      |mantissa| >= 1 && e.Some? && RoundsPositive(DecimalValue(mantissa), f - e.value)
  }

  /**
   * `x < 0` where `x` is the string `s` coerced by ToNumber: `s` trimmed is a minus
   * sign followed by an unsigned decimal literal of positive value. Hexadecimal,
   * octal and binary literals take no sign, and anything else is NaN.
   */
  predicate ToNumberIsNegative(s: string) {
    var t := Trim(s);
    |t| >= 1 && t[0] == '-' && UnsignedPositive(t[1..])
  }

  lemma ExponentNoComma(r: string, j: nat)
    requires ExponentOf(r).Some? && j < |r|
    ensures r[j] != ','
  {
    if j >= 2 && |r| > 1 && (r[1] == '+' || r[1] == '-') {
      assert r[2..][j - 2] == r[j];
    } else if j >= 1 {
      assert r[1..][j - 1] == r[j];
    }
  }

  /** The part from the decimal point on: `.`, digits, then an exponent part. */
  lemma FractionNoComma(r1: string, i: nat)
    requires |r1| > 0 && r1[0] == '.' && i < |r1|
    requires ExponentOf(r1[1 + DigitRun(r1[1..])..]).Some?
    ensures r1[i] != ','
  {
    var d := r1[1..];
    var f := DigitRun(d);
    if 0 < i < 1 + f {
      DigitRunSpec(d);
      assert d[i - 1] == r1[i];
    } else if i > 0 {
      var r2 := r1[1 + f..];
      assert r2[i - 1 - f] == r1[i];
      ExponentNoComma(r2, i - 1 - f);
    }
  }

  lemma UnsignedPositiveNoComma(u: string, j: nat)
    requires UnsignedPositive(u) && j < |u|
    ensures u[j] != ','
  {
    if u != "Infinity" {
      var a := DigitRun(u);
      var r1 := u[a..];
      var hasDot := |r1| > 0 && r1[0] == '.';
      var f := if hasDot then DigitRun(r1[1..]) else 0;
      var r2 := if hasDot then r1[1 + f..] else r1;
      DigitRunSpec(u);
      if j < a {
        assert IsDigit(u[j]);
      } else {
        assert r1[j - a] == u[j];
        if hasDot {
          FractionNoComma(r1, j - a);
        } else {
          ExponentNoComma(r1, j - a);
        }
      }
    }
  }

  /** A text containing a comma never coerces to a negative number (it is NaN). */
  lemma CommaNeverNegative(s: string, j: nat)
    requires j < |s| && s[j] == ','
    ensures !ToNumberIsNegative(s)
  {
    TrimKeeps(s, j);
    var t := Trim(s);
    if ToNumberIsNegative(s) {
      var i :| 0 <= i < |t| && t[i] == ',';
      assert i >= 1;
      assert t[1..][i - 1] == ',';
      UnsignedPositiveNoComma(t[1..], i - 1);
    }
  }

  lemma MinusOneIsNegative()
    ensures ToNumberIsNegative("-1")
  {
    assert !IsSpace('-') && !IsSpace('1');
    assert Trim("-1") == "-1";
    assert "-1"[1..] == "1";
    assert DigitRun("1") == 1;
    assert "1"[..1] + "" == "1";
    assert DecimalValue("1") == 1;
    assert "1"[1..] == [];
    assert UnsignedPositive("1");
  }

  lemma MinusZeroIsNotNegative()
    ensures !ToNumberIsNegative("-0")
  {
    assert Trim("-0") == "-0";
    var u := "0";
    assert DigitRun(u) == 1;
    assert u[..1] + "" == "0";
    assert DecimalValue("0") == 0;
  }

  lemma EmptyIsNotNegative()
    ensures !ToNumberIsNegative("")
  {
  }
}
