/**
 * The address table loader: a pass over the trimmed lines of a listing that
 * alternates scope lines (no colon) with `name: address` entries, building the
 * nested map `scope -> name -> address`. An entry whose line has a colon but no
 * `": "` stores `undefined` (here `None`).
 */
module AddrTable {
  import opened Results
  import opened JsText

  type Table = map<string, map<string, Option<string>>>

  /** The loop's state: the map built so far and `lastLine`, the current scope. */
  datatype Loader = Loader(table: Table, lastLine: string)

  const Start := Loader(map[], "")

  /** A trimmed line: a scope header, or a `name: address` entry. */
  datatype Line = Scope(name: string) | Entry(name: string, addr: Option<string>)

  /**
   * How the loop reads one line: trimmed, an entry when it contains a colon,
   * split on `": "` into the name and the address (`undefined` when there is
   * no second piece).
   */
  function Parse(raw: string): Line {
    var line := Trim(raw);
    if Includes(line, ":") then
      var pieces := Split(line, ": ");
      Entry(pieces[0], if |pieces| > 1 then Some(pieces[1]) else None)
    else Scope(line)
  }

  /** A trimmed line without a colon is a scope header named by the whole trimmed line. */
  lemma ParseScope(raw: string)
    requires !Includes(Trim(raw), ":")
    ensures Parse(raw) == Scope(Trim(raw))
  {
  }

  /** A line of white space only trims to "" and is read as the scope "". */
  lemma ParseBlank(raw: string)
    requires forall k :: 0 <= k < |raw| ==> IsSpace(raw[k])
    ensures Parse(raw) == Scope("")
  {
    TrimBlank(raw);
    IncludesChar("", ':');
    assert ":" == [':'];
  }

  /** A line with a colon but no `": "` is an entry named by the whole line, with address `undefined`. */
  lemma ParseMalformed(raw: string)
    requires Includes(Trim(raw), ":") && !Includes(Trim(raw), ": ")
    ensures Parse(raw) == Entry(Trim(raw), None)
  {
    SplitFirst(Trim(raw), ": ");
  }

  /** `name: addr`, with `": "` in neither part, is the entry of `name` with address `addr`. */
  lemma ParseEntry(raw: string, name: string, addr: string)
    requires Trim(raw) == name + ": " + addr && !Includes(name, ": ") && !Includes(addr, ": ")
    ensures Parse(raw) == Entry(name, Some(addr))
  {
    ColonAt(name, addr);
    SplitAfter(name, ": ", addr);
    SplitFirst(addr, ": ");
  }

  /** `name: addr: rest`: the pieces after the second are dropped by the destructuring. */
  lemma ParseEntryRest(raw: string, name: string, addr: string, rest: string)
    requires Trim(raw) == name + ": " + addr + ": " + rest && !Includes(name, ": ") && !Includes(addr, ": ")
    ensures Parse(raw) == Entry(name, Some(addr))
  {
    var tail := addr + ": " + rest;
    assert Trim(raw) == name + ": " + tail;
    ColonAt(name, tail);
    SplitAfter(name, ": ", tail);
    SplitAfter(addr, ": ", rest);
  }

  lemma ColonAt(name: string, tail: string)
    ensures Includes(name + ": " + tail, ":")
  {
    var s := name + ": " + tail;
    assert s[|name|] == ':';
    IncludesChar(s, ':');
    assert ":" == [':'];
  }

  function AddEntry(t: Table, scope: string, name: string, addr: Option<string>): Table
    requires scope in t
  {
    t[scope := t[scope][name := addr]]
  }
  function AddScope(t: Table, name: string): Table {
    t[name := map[]]
  }
  /** One iteration of the loop on a parsed line. */
  function LoadLine(st: Loader, l: Line): Result<Loader> {
    match l
    case Entry(name, addr) =>
      if st.lastLine !in st.table then Err(TypeError(EntryBeforeScope))
      else Ok(Loader(AddEntry(st.table, st.lastLine, name, addr), st.lastLine))
    case Scope(name) => Ok(Loader(AddScope(st.table, name), name))
  }

  function ParseAll(lines: seq<string>): (ls: seq<Line>)
    ensures |ls| == |lines|
  {
    if lines == [] then [] else [Parse(lines[0])] + ParseAll(lines[1..])
  }

  lemma {:induction false} ParseAllAt(lines: seq<string>, i: nat)
    requires i < |lines|
    ensures ParseAll(lines)[i] == Parse(lines[i])
  {
    if i > 0 {
      ParseAllAt(lines[1..], i - 1);
    }
  }

  /** The state after the first `n` parsed lines. */
  function LoadPrefix(lines: seq<Line>, n: nat): Result<Loader>
    requires n <= |lines|
  {
    if n == 0 then Ok(Start)
    else
      var prev := LoadPrefix(lines, n - 1);
      if prev.Err? then prev else LoadLine(prev.value, lines[n - 1])
  }

  /** The table addr.js exports for a listing. */
  function Load(lines: seq<string>): Result<Table> {
    var st := LoadPrefix(ParseAll(lines), |lines|);
    if st.Err? then Err(st.error) else Ok(st.value.table)
  }

  lemma LoadStep(ls: seq<Line>, n: nat)
    requires n < |ls| && LoadPrefix(ls, n).Ok?
    ensures LoadPrefix(ls, n + 1) == LoadLine(LoadPrefix(ls, n).value, ls[n])
  {
  }

  lemma {:induction false} LoadErrorSticks(ls: seq<Line>, n: nat, m: nat)
    requires n <= m <= |ls| && LoadPrefix(ls, n).Err?
    ensures LoadPrefix(ls, m) == LoadPrefix(ls, n)
    decreases m - n
  {
    if n < m {
      LoadErrorSticks(ls, n, m - 1);
    }
  }

  /** Once a line fails, the whole load ends with that line's error. */
  lemma LoadStops(ls: seq<Line>, i: nat, st: Loader)
    requires i < |ls| && LoadPrefix(ls, i) == Ok(st) && LoadLine(st, ls[i]).Err?
    ensures LoadPrefix(ls, |ls|) == LoadLine(st, ls[i])
  {
    LoadStep(ls, i);
    LoadErrorSticks(ls, i + 1, |ls|);
  }

  /** The loop of addr.js: it mutates `map` and the `lastLine` cursor. */
  method BuildTable(lines: seq<string>) returns (r: Result<Table>)
    ensures r == Load(lines)
  {
    ghost var ls := ParseAll(lines);
    var table: Table := map[];
    var lastLine := "";
    var i := 0;
    while i < |lines|
      invariant 0 <= i <= |lines|
      invariant LoadPrefix(ls, i) == Ok(Loader(table, lastLine))
    {
      ghost var st := Loader(table, lastLine);
      ParseAllAt(lines, i);
      var line := Trim(lines[i]);
      if Includes(line, ":") {
        var pieces := Split(line, ": ");
        if lastLine !in table {
          r := Err(TypeError(EntryBeforeScope));
          LoadStops(ls, i, st);
          return;
        }
        var addr := if |pieces| > 1 then Some(pieces[1]) else None;
        table := table[lastLine := table[lastLine][pieces[0] := addr]];
      } else {
        table := table[line := map[]];
        lastLine := line;
      }
      LoadStep(ls, i);
      i := i + 1;
    }
    assert i == |lines|;
    r := Ok(table);
  }

  /** The names of the scope lines among the first `n`. */
  function ScopeNames(ls: seq<Line>, n: nat): set<string>
    requires n <= |ls|
  {
    set i | 0 <= i < n && ls[i].Scope? :: ls[i].name
  }

  lemma ScopeNamesStep(ls: seq<Line>, n: nat)
    requires 0 < n <= |ls|
    ensures ScopeNames(ls, n) == ScopeNames(ls, n - 1) + (if ls[n - 1].Entry? then {} else {ls[n - 1].name})
  {
    var a := ScopeNames(ls, n);
    var b := ScopeNames(ls, n - 1) + (if ls[n - 1].Entry? then {} else {ls[n - 1].name});
    forall x | x in a ensures x in b {
      var i :| 0 <= i < n && ls[i].Scope? && ls[i].name == x;
      if i < n - 1 {
        assert x in ScopeNames(ls, n - 1);
      }
    }
  }

  /** Every one of the first `n` lines is an entry. */
  predicate NoScopeBefore(ls: seq<Line>, n: nat)
    requires n <= |ls|
  {
    forall j :: 0 <= j < n ==> ls[j].Entry?
  }

  lemma {:induction false} LoadPrefixShape(ls: seq<Line>, n: nat)
    requires n <= |ls| && LoadPrefix(ls, n).Ok?
    ensures var st := LoadPrefix(ls, n).value;
      st.table.Keys == ScopeNames(ls, n)
      && (NoScopeBefore(ls, n) ==> st == Start)
      && (!NoScopeBefore(ls, n) ==> st.lastLine in st.table)
  {
    if n > 0 {
      LoadPrefixShape(ls, n - 1);
      ScopeNamesStep(ls, n);
      if ls[n - 1].Scope? {
        assert !NoScopeBefore(ls, n);
      } else if !NoScopeBefore(ls, n - 1) {
        var j :| 0 <= j < n - 1 && ls[j].Scope?;
        assert !NoScopeBefore(ls, n);
      }
    }
  }

  /** One of the first `n` lines is an entry with only entries before it. */
  predicate EntryBeforeAnyScope(ls: seq<Line>, n: nat)
    requires n <= |ls|
  {
    exists i :: 0 <= i < n && ls[i].Entry? && NoScopeBefore(ls, i)
  }

  lemma {:induction false} LoadPrefixFails(ls: seq<Line>, n: nat)
    requires n <= |ls|
    ensures LoadPrefix(ls, n).Err? <==> EntryBeforeAnyScope(ls, n)
  {
    if n > 0 {
      LoadPrefixFails(ls, n - 1);
      if LoadPrefix(ls, n - 1).Err? {
        var i :| 0 <= i < n - 1 && ls[i].Entry? && NoScopeBefore(ls, i);
        assert 0 <= i < n && ls[i].Entry? && NoScopeBefore(ls, i);
      } else {
        LoadPrefixShape(ls, n - 1);
        if ls[n - 1].Entry? && NoScopeBefore(ls, n - 1) {
          assert 0 <= n - 1 < n && ls[n - 1].Entry? && NoScopeBefore(ls, n - 1);
        } else {
          forall i | 0 <= i < n && ls[i].Entry?
            ensures !NoScopeBefore(ls, i)
          {
            if i < n - 1 {
              assert !(ls[i].Entry? && NoScopeBefore(ls, i));
            }
          }
        }
      }
    }
  }

  /** The keys of the table are exactly the distinct trimmed lines without a colon. */
  lemma LoadKeys(lines: seq<string>)
    requires Load(lines).Ok?
    ensures Load(lines).value.Keys == ScopeNames(ParseAll(lines), |lines|)
  {
    LoadPrefixShape(ParseAll(lines), |lines|);
  }

  /**
   * Loading throws exactly when an entry line comes before every scope line
   * (a blank line trims to "" and counts as a scope).
   */
  lemma LoadFails(lines: seq<string>)
    ensures Load(lines).Err? <==> EntryBeforeAnyScope(ParseAll(lines), |lines|)
  {
    LoadPrefixFails(ParseAll(lines), |lines|);
  }

  /**
   * An entry stores its name with its address in the current scope, overwriting
   * an earlier equal name; nothing else changes.
   */
  lemma EntryStores(st: Loader, name: string, addr: Option<string>)
    requires st.lastLine in st.table
    ensures LoadLine(st, Entry(name, addr)).Ok?
    ensures var st' := LoadLine(st, Entry(name, addr)).value;
      st'.lastLine == st.lastLine
      && st'.table.Keys == st.table.Keys
      && name in st'.table[st.lastLine] && st'.table[st.lastLine][name] == addr
      && (forall other :: other in st.table[st.lastLine] && other != name ==>
            other in st'.table[st.lastLine] && st'.table[st.lastLine][other] == st.table[st.lastLine][other])
      && (forall scope :: scope in st.table && scope != st.lastLine ==> st'.table[scope] == st.table[scope])
  {
  }

  /** An entry with no scope yet throws. */
  lemma EntryNeedsScope(st: Loader, name: string, addr: Option<string>)
    requires st.lastLine !in st.table
    ensures LoadLine(st, Entry(name, addr)) == Err(TypeError(EntryBeforeScope))
  {
  }

  /** A scope line becomes the current scope with a fresh empty map, even when it was seen before. */
  lemma ScopeResets(st: Loader, name: string)
    ensures var st' := LoadLine(st, Scope(name)).value;
      LoadLine(st, Scope(name)).Ok? && st'.lastLine == name && st'.table[name] == map[]
      && st'.table.Keys == st.table.Keys + {name}
      && (forall scope :: scope in st.table && scope != name ==> st'.table[scope] == st.table[scope])
  {
  }

  /**
   * `map[scope][name]` is truthy: the scope and the name are there and the
   * address is neither `undefined` nor the empty string.
   */
  predicate Defined(t: Table, scope: string, name: string) {
    scope in t && name in t[scope] && t[scope][name].Some? && t[scope][name].value != ""
  }
}
