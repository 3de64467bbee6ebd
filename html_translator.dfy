/**
 * The newer translator: it walks the lines of a plugin-sdk header listing and
 * writes a Markdown document. A `plugin::` call annotation becomes a heading
 * with the calling declaration's name, the annotation text in a `<pre>` block
 * and the CLEO opcode line that performs the same call; a `plugin_` scope
 * header becomes a section title and an entry of the table of contents, and
 * the headers of namespace `plugin_II` switch the annotations off until the
 * next header.
 */
module HtmlTranslator {
  import opened Results
  import opened JsText
  import opened Brackets
  import opened Annotations
  import AddrTable

  /** The address table: scope -> symbol -> address. */
  type Table = AddrTable.Table

  // ---------------------------------------------------------------------------
  // getParams
  // ---------------------------------------------------------------------------

  /**
   * The parameter text: `between` on what follows the `>` that closes the
   * generic argument list, or on the whole line when nothing closes it.
   */
  function ParamLine(line: string): string {
    Between(Substring(line, GenericClose(line) + 1, |line|), '(', ')')
  }

  /**
   * `getParams`: the raw segments at parenthesis depth 0, the `num_params < 0`
   * test on the array itself (which JavaScript coerces to its segments joined
   * by commas), then the non-empty segments, trimmed.
   */
  function Params(line: string): Result<seq<string>> {
    var raw := Segments(ParamLine(line));
    if ToNumberIsNegative(Join(raw, ",")) then Err(NegativeNumParams)
    else Ok(MapTrim(FilterNonEmpty(raw)))
  }

  /** The window: after the generic list when it closes, else the whole line. */
  lemma ParamsWindow(line: string)
    ensures GenericClose(line) == -1 ==> ParamLine(line) == Between(line, '(', ')')
    ensures GenericClose(line) != -1 ==> ParamLine(line) == Between(line[GenericClose(line) + 1..], '(', ')')
  {
    assert line[0..|line|] == line;
  }

  /**
   * The count test throws exactly when the parameter text coerces to a negative
   * number, so never for a list with a comma in it.
   */
  lemma ParamsFails(line: string)
    ensures Params(line).Err? <==> ToNumberIsNegative(ParamLine(line))
    ensures Params(line).Err? ==> Params(line).error == NegativeNumParams
    ensures ',' in ParamLine(line) ==> Params(line).Ok?
  {
    var pl := ParamLine(line);
    SegmentsJoin(pl);
    if ',' in pl {
      var j :| 0 <= j < |pl| && pl[j] == ',';
      CommaNeverNegative(pl, j);
    }
  }

  lemma KeptTrimmed(raw: seq<string>)
    ensures var ps := MapTrim(FilterNonEmpty(raw));
      |ps| <= |raw|
      && forall k :: 0 <= k < |ps| ==> exists j :: 0 <= j < |raw| && raw[j] != "" && ps[k] == Trim(raw[j])
  {
    var kept := FilterNonEmpty(raw);
    FilterNonEmptySpec(raw);
    forall k | 0 <= k < |kept|
      ensures exists j :: 0 <= j < |raw| && raw[j] != "" && MapTrim(kept)[k] == Trim(raw[j])
    {
      MapTrimAt(kept, k);
      assert kept[k] in kept;
      var j :| 0 <= j < |raw| && raw[j] == kept[k];
      assert raw[j] != "";
    }
  }

  /**
   * Each parameter is a trimmed raw segment that was not empty: the empty ones
   * are dropped before trimming, so a blank segment survives as "".
   */
  lemma ParamsFiltered(line: string)
    requires Params(line).Ok?
    ensures var raw := Segments(ParamLine(line)); var ps := Params(line).value;
      |ps| <= |raw|
      && forall k :: 0 <= k < |ps| ==> exists j :: 0 <= j < |raw| && raw[j] != "" && ps[k] == Trim(raw[j])
  {
    var raw := Segments(ParamLine(line));
    assert !ToNumberIsNegative(Join(raw, ","));
    assert Params(line) == Ok(MapTrim(FilterNonEmpty(raw)));
    KeptTrimmed(raw);
  }

  lemma NoGenericClose(line: string)
    requires '>' !in line
    ensures GenericClose(line) == -1
  {
  }

  /** An empty parameter text, as in `f()`, gives no parameters. */
  lemma ParamsOfEmpty(line: string)
    requires ParamLine(line) == ""
    ensures Params(line) == Ok([])
  {
    EmptyIsNotNegative();
  }

  lemma BlankSegments()
    ensures Segments(" ") == [" "]
  {
    SegmentsSnoc("", ' ');
    assert "" + [' '] == " ";
  }

  lemma BlankTrims()
    ensures Trim(" ") == "" && MapTrim([" "]) == [""]
  {
    assert TrimStart(" ") == TrimStart("");
    assert Trim(" ") == "";
    assert MapTrim([" "]) == [Trim(" ")];
  }

  /**
   * A blank parameter text, as in `f( )`, gives one parameter, the empty string:
   * blank segments are kept by the filter, which runs before the trimming.
   */
  lemma ParamsOfBlank(line: string)
    requires ParamLine(line) == " "
    ensures Params(line) == Ok([""])
  {
    BlankSegments();
    assert Join([" "], ",") == " ";
    BlankTrims();
    assert !ToNumberIsNegative(" ");
    FilterNonEmptySingle(" ");
  }

  /**
   * A single negative literal, as in `f(-1)`, makes the count test throw: the
   * array `["-1"]` coerces to the number -1.
   */
  lemma ParamsOfMinusOne(line: string)
    requires ParamLine(line) == "-1"
    ensures Params(line) == Err(NegativeNumParams)
  {
    ParamsFails(line);
    MinusOneIsNegative();
  }

  /** The two loops of `getParams` and the filtering that follows them. */
  method GetParams(line: string) returns (r: Result<seq<string>>)
    ensures r == Params(line)
  {
    var closePos := FindGenericClose(line);
    var paramLine := Between(Substring(line, closePos + 1, |line|), '(', ')');
    var params := SplitTopLevel(paramLine);
    if ToNumberIsNegative(Join(params, ",")) {
      return Err(NegativeNumParams);
    }
    r := Ok(MapTrim(FilterNonEmpty(params)));
  }

  // ---------------------------------------------------------------------------
  // findAddressByName and the three indirect forms
  // ---------------------------------------------------------------------------

  /**
   * `findAddressByName`: the symbol named inside `gaddrof(...)` looked up in
   * the current scope; a missing or empty entry throws, and so does an address
   * that does not start with `0x`.
   */
  function FindAddressByName(gaddrof: string, curFile: string, table: Table): (r: Result<string>)
    ensures var name := IndirectName(gaddrof);
      (r.Ok? <==> AddrTable.Defined(table, curFile, name) && IsAddress(table[curFile][name].value))
      && (r.Ok? ==> r.value == table[curFile][name].value && !Includes(name, ","))
      && (!AddrTable.Defined(table, curFile, name) ==> r == Err(NotDefined(name, curFile)))
      && (AddrTable.Defined(table, curFile, name) && !IsAddress(table[curFile][name].value) ==>
            r == Err(InvalidAddress(table[curFile][name].value)))
  {
    var name := IndirectName(gaddrof);
    if !AddrTable.Defined(table, curFile, name) then Err(NotDefined(name, curFile))
    else
      var address := table[curFile][name].value;
      if !IsAddress(address) then Err(InvalidAddress(address)) else Ok(address)
  }

  /**
   * `CallAndReturnDynGlobal`: the first parameter names the function and is
   * dropped; one that is not `gaddrof(...)` skips the rest of the line.
   */
  function DynReturnPlan(line: string, types: seq<string>, params: Result<seq<string>>): Plan
    requires |types| >= 1
  {
    if !Includes(line, "plugin::CallAndReturnDynGlobal") then Ready(Ok(Skip))
    else if params.Err? then Ready(Err(params.error))
    else if params.value == [] then Ready(Err(TypeError(UndefinedFirstParam)))
    else if !Indirect(params.value) then Ready(Ok(Continue))
    else Lookup(params.value[0], FunctionReturnForm(Drop(params.value, 1), types[0]))
  }

  /**
   * `CallMethodDynGlobal`: `this` and the `gaddrof(...)` argument are dropped; a
   * first parameter that is not `gaddrof(...)` skips the rest of the line.
   */
  function DynMethodPlan(line: string, className: string, params: Result<seq<string>>): Plan {
    if !Includes(line, "plugin::CallMethodDynGlobal") then Ready(Ok(Skip))
    else if params.Err? then Ready(Err(params.error))
    else if params.value == [] then Ready(Err(TypeError(UndefinedFirstParam)))
    else if !Indirect(params.value) then Ready(Ok(Continue))
    else Lookup(params.value[0], MethodForm(className, Drop(params.value, 2)))
  }

  /** A planned stage run in the current scope: a lookup that fails throws. */
  function Resolve(p: Plan, curFile: string, table: Table): Result<Stage> {
    match p
    case Ready(s) => s
    case Lookup(g, form) =>
      var address :- FindAddressByName(g, curFile, table);
      Ok(Complete(form, address))
  }

  function ResolveAll(plans: seq<Plan>, curFile: string, table: Table): (r: seq<Result<Stage>>)
    ensures |r| == |plans|
  {
    if plans == [] then [] else [Resolve(plans[0], curFile, table)] + ResolveAll(plans[1..], curFile, table)
  }

  lemma {:induction false} ResolveAllAt(plans: seq<Plan>, curFile: string, table: Table, k: nat)
    requires k < |plans|
    ensures ResolveAll(plans, curFile, table)[k] == Resolve(plans[k], curFile, table)
  {
    if k > 0 {
      ResolveAllAt(plans[1..], curFile, table, k - 1);
    }
  }

  /**
   * `CallAndReturnDynGlobal` in full: an empty list throws, a first parameter that
   * is not `gaddrof(...)` skips, and otherwise the looked-up address is used with
   * the remaining parameters and a pop of their count.
   */
  lemma DynReturnSpec(line: string, types: seq<string>, params: Result<seq<string>>, curFile: string, table: Table)
    requires |types| >= 1
    ensures var r := Resolve(DynReturnPlan(line, types, params), curFile, table);
      (!Includes(line, "plugin::CallAndReturnDynGlobal") ==> r == Ok(Skip))
      && (Includes(line, "plugin::CallAndReturnDynGlobal") && params.Ok? ==>
            (params.value == [] ==> r == Err(TypeError(UndefinedFirstParam)))
            && (params.value != [] && !Indirect(params.value) ==> r == Ok(Continue))
            && (params.value != [] && Indirect(params.value) ==>
                  (r.Ok? <==> FindAddressByName(params.value[0], curFile, table).Ok?)
                  && (r.Ok? ==> r.value.Emit?)))
      && (Includes(line, "plugin::CallAndReturnDynGlobal") && r.Ok? && r.value.Emit? ==>
            WellFormed(r.value.op) && r.value.op.CallFunctionReturn?
            && r.value.op.params == Drop(params.value, 1) && r.value.op.pop == |params.value| - 1
            && r.value.op.ret == types[0]
            && r.value.op.address == FindAddressByName(params.value[0], curFile, table).value)
  {
  }

  /** `CallMethodDynGlobal` in full; without a struct the line is cut short after the lookup. */
  lemma DynMethodSpec(line: string, className: string, params: Result<seq<string>>, curFile: string, table: Table)
    ensures var r := Resolve(DynMethodPlan(line, className, params), curFile, table);
      (!Includes(line, "plugin::CallMethodDynGlobal") ==> r == Ok(Skip))
      && (Includes(line, "plugin::CallMethodDynGlobal") && params.Ok? ==>
            (params.value == [] ==> r == Err(TypeError(UndefinedFirstParam)))
            && (params.value != [] && !Indirect(params.value) ==> r == Ok(Continue))
            && (params.value != [] && Indirect(params.value) ==>
                  (r.Ok? <==> FindAddressByName(params.value[0], curFile, table).Ok?)
                  && (r.Ok? ==> (r.value.Continue? <==> className == ""))))
      && (Includes(line, "plugin::CallMethodDynGlobal") && r.Ok? && r.value.Emit? ==>
            WellFormed(r.value.op) && r.value.op.CallMethod? && r.value.op.className == className
            && r.value.op.params == Drop(params.value, 2)
            && r.value.op.address == FindAddressByName(params.value[0], curFile, table).value)
  {
  }

  /** `CallMethodAndReturnDynGlobal` in full: its two checks throw where the other indirect forms skip. */
  lemma DynMethodReturnSpec(line: string, types: seq<string>, className: string, params: Result<seq<string>>, curFile: string, table: Table)
    requires |types| >= 1
    ensures var r := Resolve(DynMethodReturnPlan(line, types, className, params), curFile, table);
      (!Includes(line, "plugin::CallMethodAndReturnDynGlobal") ==> r == Ok(Skip))
      && (Includes(line, "plugin::CallMethodAndReturnDynGlobal") && !Includes(line, "gaddrof") ==> r == Err(WrongLine(line)))
      && (Includes(line, "plugin::CallMethodAndReturnDynGlobal") && Includes(line, "gaddrof") && params.Ok? ==>
            (params.value == [] ==> r == Err(TypeError(UndefinedFirstParam)))
            && (params.value != [] && !Indirect(params.value) ==> r == Err(NotIndirect(line)))
            && (params.value != [] && Indirect(params.value) ==>
                  (r.Ok? <==> FindAddressByName(params.value[0], curFile, table).Ok?)
                  && (r.Ok? ==> (r.value.Continue? <==> className == ""))))
      && (Includes(line, "plugin::CallMethodAndReturnDynGlobal") && r.Ok? && r.value.Emit? ==>
            WellFormed(r.value.op) && r.value.op.CallMethodReturn? && r.value.op.className == className
            && r.value.op.params == Drop(params.value, 2) && r.value.op.ret == types[0]
            && r.value.op.address == FindAddressByName(params.value[0], curFile, table).value)
  {
  }

  /** The seven dispatch `if`s of an annotation line. */
  datatype Branch = Direct(form: Form) | ReturnDyn | MethodDyn | MethodReturnDyn

  /** The `if`s in the order the loop body runs them. */
  const Branches: seq<Branch> := [Direct(CallForm), Direct(CallAndReturnForm), Direct(CallMethodForm),
    Direct(CallMethodAndReturnForm), ReturnDyn, MethodDyn, MethodReturnDyn]

  function PlanFor(b: Branch, line: string, types: seq<string>, className: string, params: Result<seq<string>>): Plan
    requires |types| >= 1
  {
    match b
    case Direct(f) => Ready(DirectStage(f, line, types, className, params))
    case ReturnDyn => DynReturnPlan(line, types, params)
    case MethodDyn => DynMethodPlan(line, className, params)
    case MethodReturnDyn => DynMethodReturnPlan(line, types, className, params)
  }

  function PlansOf(bs: seq<Branch>, line: string, types: seq<string>, className: string, params: Result<seq<string>>): (r: seq<Plan>)
    requires |types| >= 1
    ensures |r| == |bs|
  {
    if bs == [] then [] else [PlanFor(bs[0], line, types, className, params)] + PlansOf(bs[1..], line, types, className, params)
  }

  /** The plans of an annotation line, one per dispatch `if`, over the parameters read once. */
  function Plans(line: string, types: seq<string>, className: string): (r: seq<Plan>)
    requires |types| >= 1
    ensures |r| == 7
  {
    PlansOf(Branches, line, types, className, Params(line))
  }

  /** Run in any scope, a safe plan emits a well-formed opcode: a found address starts with `0x`. */
  lemma ResolveSafe(p: Plan, curFile: string, table: Table)
    requires PlanSafe(p)
    ensures var s := Resolve(p, curFile, table); s.Ok? && s.value.Emit? ==> WellFormed(s.value.op)
  {
  }

  lemma {:induction false} ResolveAllSafe(plans: seq<Plan>, curFile: string, table: Table)
    requires forall k :: 0 <= k < |plans| ==> PlanSafe(plans[k])
    ensures var stages := ResolveAll(plans, curFile, table);
      forall k :: 0 <= k < |stages| && stages[k].Ok? && stages[k].value.Emit? ==> WellFormed(stages[k].value.op)
  {
    var stages := ResolveAll(plans, curFile, table);
    forall k | 0 <= k < |stages| && stages[k].Ok? && stages[k].value.Emit?
      ensures WellFormed(stages[k].value.op)
    {
      ResolveAllAt(plans, curFile, table, k);
      ResolveSafe(plans[k], curFile, table);
    }
  }

  /** The three indirect plans are safe: they settle only on a skip, an error or a `continue`. */
  lemma DynPlansSafe(line: string, types: seq<string>, className: string, params: Result<seq<string>>)
    requires |types| >= 1
    ensures PlanSafe(DynReturnPlan(line, types, params))
    ensures PlanSafe(DynMethodPlan(line, className, params))
    ensures PlanSafe(DynMethodReturnPlan(line, types, className, params))
  {
  }

  lemma PlanForSafe(b: Branch, line: string, types: seq<string>, className: string, params: Result<seq<string>>)
    requires |types| >= 1
    ensures PlanSafe(PlanFor(b, line, types, className, params))
  {
    match b
    case Direct(f) => DirectStageWellFormed(f, line, types, className, params);
    case ReturnDyn =>
    case MethodDyn =>
    case MethodReturnDyn =>
  }

  lemma {:induction false} PlansOfSafe(bs: seq<Branch>, line: string, types: seq<string>, className: string, params: Result<seq<string>>)
    requires |types| >= 1
    ensures var plans := PlansOf(bs, line, types, className, params); forall k :: 0 <= k < |plans| ==> PlanSafe(plans[k])
  {
    if bs != [] {
      var rest := PlansOf(bs[1..], line, types, className, params);
      PlanForSafe(bs[0], line, types, className, params);
      PlansOfSafe(bs[1..], line, types, className, params);
      assert rest == PlansOf(bs[1..], line, types, className, params);
      var plans := PlansOf(bs, line, types, className, params);
      assert plans == [PlanFor(bs[0], line, types, className, params)] + rest;
      forall k | 0 <= k < |plans|
        ensures PlanSafe(plans[k])
      {
        if k > 0 {
          assert plans[k] == rest[k - 1];
        }
      }
    }
  }

  lemma PlansSafe(line: string, types: seq<string>, className: string)
    requires |types| >= 1
    ensures var plans := Plans(line, types, className); forall k :: 0 <= k < |plans| ==> PlanSafe(plans[k])
  {
    var params := Params(line);
    PlansOfSafe(Branches, line, types, className, params);
    var plans := Plans(line, types, className);
    assert plans == PlansOf(Branches, line, types, className, params);
    assert forall k :: 0 <= k < |plans| ==> PlanSafe(PlansOf(Branches, line, types, className, params)[k]);
  }

  /** Safe plans, run in any scope, emit only well-formed opcodes. */
  lemma SafePlansWellFormed(plans: seq<Plan>, curFile: string, table: Table)
    requires forall k :: 0 <= k < |plans| ==> PlanSafe(plans[k])
    ensures var flow := Chain(ResolveAll(plans, curFile, table));
      flow.Ok? ==> forall op :: op in flow.value.ops ==> WellFormed(op)
  {
    var stages := ResolveAll(plans, curFile, table);
    ResolveAllSafe(plans, curFile, table);
    assert stages == ResolveAll(plans, curFile, table);
    ChainWellFormed(stages);
  }

  /** Whatever the line and the scope, every opcode the line emits is well-formed. */
  lemma PlansWellFormed(line: string, types: seq<string>, className: string, curFile: string, table: Table)
    requires |types| >= 1
    ensures var flow := Chain(ResolveAll(Plans(line, types, className), curFile, table));
      flow.Ok? ==> forall op :: op in flow.value.ops ==> WellFormed(op)
  {
    PlansSafe(line, types, className);
    SafePlansWellFormed(Plans(line, types, className), curFile, table);
  }

  // ---------------------------------------------------------------------------
  // stringifyParams, concat and _0AA5 .. _0AA8
  // ---------------------------------------------------------------------------

  function Reverse<T>(xs: seq<T>): (r: seq<T>)
    ensures |r| == |xs|
    ensures forall k :: 0 <= k < |xs| ==> r[k] == xs[|xs| - 1 - k]
  {
    if xs == [] then [] else Reverse(xs[1..]) + [xs[0]]
  }

  /** `params.reverse()`: the array is reversed in place by swapping from both ends. */
  method ReverseInPlace(a: array<string>)
    modifies a
    ensures a[..] == Reverse(old(a[..]))
  {
    ghost var orig := a[..];
    var n := a.Length;
    var i := 0;
    while i < n / 2
      invariant 0 <= i <= n / 2
      invariant forall k :: 0 <= k < i ==> a[k] == orig[n - 1 - k] && a[n - 1 - k] == orig[k]
      invariant forall k :: i <= k < n - i ==> a[k] == orig[k]
    {
      a[i], a[n - 1 - i] := a[n - 1 - i], a[i];
      i := i + 1;
    }
    assert forall k :: 0 <= k < n ==> a[k] == orig[n - 1 - k];
  }

  /** `stringifyParams` on the array it is given, which it leaves reversed. */
  method StringifyParamsOf(params: array<string>) returns (s: string)
    modifies params
    ensures s == StringifyParams(old(params[..]))
    ensures params[..] == Reverse(old(params[..]))
  {
    ReverseInPlace(params);
    s := Concat(Bracketed(params[..]));
  }

  /** `params.map((x) => `[${x}]`)`. */
  function Bracketed(ps: seq<string>): (r: seq<string>)
    ensures |r| == |ps|
    ensures forall k :: 0 <= k < |ps| ==> r[k] == "[" + ps[k] + "]"
  {
    if ps == [] then [] else ["[" + ps[0] + "]"] + Bracketed(ps[1..])
  }

  /** `concat(...elems)`: the non-empty pieces joined by single spaces. */
  function Concat(elems: seq<string>): string {
    Join(FilterNonEmpty(elems), " ")
  }

  /** `stringifyParams`: the parameters in reverse order, each in brackets, separated by spaces. */
  function StringifyParams(params: seq<string>): string {
    Concat(Bracketed(Reverse(params)))
  }

  /** The first piece of each opcode line: the opcode, address, struct, count and pop. */
  function Opening(op: Opcode): string {
    match op
    case CallFunction(a, ps, pop) =>
      "\n0AA5: call_function " + a + " num_params " + NatToString(|ps|) + " pop " + NatToString(pop)
    case CallMethod(a, c, ps) =>
      "\n0AA6: call_method " + a + " struct [" + c + "] num_params " + NatToString(|ps|) + " pop 0"
    case CallFunctionReturn(a, ps, ret, pop) =>
      "\n0AA7: call_function_return " + a + " num_params " + NatToString(|ps|) + " pop " + NatToString(pop)
    case CallMethodReturn(a, c, ps, ret) =>
      "\n0AA8: call_method_return " + a + " struct [" + c + "] num_params " + NatToString(|ps|) + " pop 0"
  }

  /** The `func_ret [ret]` element the two return forms append. */
  function FuncRet(op: Opcode): seq<string> {
    if op.CallFunctionReturn? || op.CallMethodReturn? then ["func_ret [" + op.ret + "]"] else []
  }

  /** `_0AA5` .. `_0AA8`: `concat` of the opening, the parameters and, for the return forms, `func_ret`. */
  function Render(op: Opcode): string {
    Concat([Opening(op), StringifyParams(op.params)] + FuncRet(op))
  }

  function RenderAll(ops: seq<Opcode>): string {
    if ops == [] then "" else Render(ops[0]) + RenderAll(ops[1..])
  }

  lemma {:induction false} JoinNonEmpty(xs: seq<string>, sep: string)
    requires xs != [] && xs[0] != ""
    ensures Join(xs, sep) != ""
  {
    if |xs| > 1 {
      assert Join(xs, sep) == xs[0] + sep + Join(xs[1..], sep);
    }
  }

  /** The bracketed parameters, last one first; nothing at all for an empty list. */
  lemma StringifyParamsSpec(ps: seq<string>)
    ensures StringifyParams(ps) == Join(Bracketed(Reverse(ps)), " ")
    ensures StringifyParams(ps) == "" <==> ps == []
  {
    var b := Bracketed(Reverse(ps));
    FilterNonEmptySpec(b);
    if ps != [] {
      JoinNonEmpty(b, " ");
    }
  }

  lemma StringifyParamsExample()
    ensures StringifyParams(["a", "b"]) == "[b] [a]"
  {
    StringifyParamsSpec(["a", "b"]);
    assert Reverse(["a", "b"]) == ["b", "a"];
    var b := Bracketed(["b", "a"]);
    assert b[0] == "[" + "b" + "]" == "[b]";
    assert b[1] == "[" + "a" + "]" == "[a]";
    assert b == ["[b]", "[a]"];
    assert Join(b, " ") == "[b]" + " " + Join(["[a]"], " ");
  }

  /**
   * The layout of an opcode line: the opening, then a space and the bracketed
   * parameters only when there are some, then ` func_ret [ret]` for the two
   * return forms. No space is left dangling.
   */
  lemma RenderLayout(op: Opcode)
    ensures Render(op) == Opening(op)
      + (if op.params == [] then "" else " " + Join(Bracketed(Reverse(op.params)), " "))
      + (if op.CallFunctionReturn? || op.CallMethodReturn? then " func_ret [" + op.ret + "]" else "")
  {
    OpeningStartsLine(op);
    if op.CallFunctionReturn? || op.CallMethodReturn? {
      FuncRetWord(op.ret);
    }
    ParamsLayout(Opening(op), op.params, FuncRet(op));
  }

  lemma FuncRetWord(ret: string)
    ensures var w := "func_ret [" + ret + "]"; w != "" && " " + w == " func_ret [" + ret + "]"
  {
    assert ("func_ret [" + ret + "]")[0] == 'f';
    assert " " + "func_ret [" == " func_ret [";
  }

  lemma ParamsLayout(o: string, ps: seq<string>, tail: seq<string>)
    requires o != "" && |tail| <= 1 && (tail != [] ==> tail[0] != "")
    ensures Concat([o, StringifyParams(ps)] + tail)
      == o + (if ps == [] then "" else " " + Join(Bracketed(Reverse(ps)), " ")) + (if tail == [] then "" else " " + tail[0])
  {
    StringifyParamsSpec(ps);
    ConcatLayout(o, StringifyParams(ps), tail);
  }

  /** Every opcode starts on a line of its own. */
  lemma OpeningStartsLine(op: Opcode)
    ensures Opening(op) != "" && Opening(op)[0] == '\n'
  {
  }

  /** `concat` of an opening, an optional middle and an optional non-empty tail. */
  lemma ConcatLayout(o: string, sp: string, tail: seq<string>)
    requires o != "" && |tail| <= 1 && (tail != [] ==> tail[0] != "")
    ensures Concat([o, sp] + tail) == o + (if sp == "" then "" else " " + sp) + (if tail == [] then "" else " " + tail[0])
  {
    FilterNonEmptyCons(o, [sp] + tail);
    FilterNonEmptyCons(sp, tail);
    if tail != [] {
      FilterNonEmptyCons(tail[0], []);
      assert [tail[0]] + [] == tail;
    }
    assert [o] + ([sp] + tail) == [o, sp] + tail;
    var kept := FilterNonEmpty([o, sp] + tail);
    assert kept == [o] + ((if sp == "" then [] else [sp]) + tail);
    if sp != "" && tail != [] {
      assert kept == [o, sp, tail[0]];
      assert kept[1..] == [sp, tail[0]];
      assert kept[1..][1..] == [tail[0]];
      assert Join(kept[1..], " ") == sp + " " + tail[0];
      assert Join(kept, " ") == o + " " + (sp + " " + tail[0]);
    } else if sp != "" {
      assert kept == [o, sp];
      assert kept[1..] == [sp];
      assert Join(kept, " ") == o + " " + sp;
    } else if tail != [] {
      assert kept == [o, tail[0]];
      assert kept[1..] == [tail[0]];
      assert Join(kept, " ") == o + " " + tail[0];
    } else {
      assert kept == [o];
    }
  }


  // ---------------------------------------------------------------------------
  // What each line is, decided by the line and the one above it
  // ---------------------------------------------------------------------------

  /** A `plugin_` scope header: too short a path, a `plugin_II` file, or a listed file. */
  datatype HeaderLine =
    | BadPath(curFile: string)
    | Skipped(curFile: string)
    | Listed(curFile: string, namespace: string, game: string, file: string)

  /** A `plugin::` annotation: on the first line, under a non-callable line, or callable. */
  datatype AnnotLine = NoPrev | NotCallable | Callable(heading: string, plans: seq<Plan>)

  /**
   * A line: neither marker, a header, or an annotation (which is read as a
   * header instead while annotations are switched off, when it also has `plugin_`).
   */
  datatype Line = Other | Section(header: HeaderLine) | Annotation(annot: AnnotLine, alt: Option<HeaderLine>)

  /** The heading of an annotation and the start of its `<pre>` block. */
  function Heading(name: string, line: string): string {
    "\n#### " + name + "\n<pre>\n" + TrimStart(Substring(line, IndexOf(line, "plugin::"), |line|))
  }

  /**
   * A scope header: the text from `plugin_` with its first `:` removed becomes
   * the current file; it needs three `\`-separated parts, namespace and game first
   * and the file last.
   */
  function ParseHeader(line: string): HeaderLine {
    var curFile := ReplaceFirst(Substring(line, IndexOf(line, "plugin_"), |line|), ":", "");
    var paths := Split(curFile, "\\");
    if |paths| < 3 then BadPath(curFile)
    else if paths[0] == "plugin_II" then Skipped(curFile)
    else Listed(curFile, paths[0], paths[1], Last(paths))
  }

  /** An annotation: its heading names the declaration on the previous line. */
  function ParseAnnotation(prev: Option<string>, line: string): AnnotLine {
    if prev.None? then NoPrev
    else match DeclName(prev.value)
      case None => NotCallable
      case Some(decl) => Callable(Heading(decl.name, line), Plans(line, GenericArgs(line), decl.className))
  }

  function ParseLine(prev: Option<string>, line: string): Line {
    if Includes(line, "plugin::") then
      Annotation(ParseAnnotation(prev, line), if Includes(line, "plugin_") then Some(ParseHeader(line)) else None)
    else if Includes(line, "plugin_") then Section(ParseHeader(line))
    else Other
  }

  /** Every line, each read with the line above it. */
  function ParseAll(lines: seq<string>): (ls: seq<Line>)
    ensures |ls| == |lines|
  {
    seq(|lines|, k requires 0 <= k < |lines| => ParseLine(Prev(lines, k), lines[k]))
  }

  /** `ls` is what the lines are, each read with the one above it. */
  predicate Parsed(lines: seq<string>, ls: seq<Line>) {
    |ls| == |lines| && forall k {:trigger Prev(lines, k)} :: 0 <= k < |lines| ==> ls[k] == ParseLine(Prev(lines, k), lines[k])
  }

  lemma ParseAllParsed(lines: seq<string>)
    ensures Parsed(lines, ParseAll(lines))
  {
  }

  // ---------------------------------------------------------------------------
  // The main loop
  // ---------------------------------------------------------------------------

  /** `toc`: namespace -> game -> the files listed for it, in order. */
  type Toc = map<string, map<string, seq<string>>>

  /** The variables of the main loop. */
  datatype State = State(output: string, curFile: string, isPreOpen: bool, skipFile: bool, toc: Toc)

  const Init := State("", "", false, false, map[])

  /** `toc[ns] ??= {}; toc[ns][game] ??= []; toc[ns][game].push(file)`. */
  function TocAdd(toc: Toc, ns: string, game: string, file: string): Toc {
    var games := if ns in toc then toc[ns] else map[];
    var files := if game in games then games[game] else [];
    toc[ns := games[game := files + [file]]]
  }

  /** The file is appended to its game's list; every other list is left as it was. */
  lemma TocAddSpec(toc: Toc, ns: string, game: string, file: string)
    ensures var r := TocAdd(toc, ns, game, file);
      r.Keys == toc.Keys + {ns}
      && r[ns][game] == (if ns in toc && game in toc[ns] then toc[ns][game] else []) + [file]
      && r[ns].Keys == (if ns in toc then toc[ns].Keys else {}) + {game}
      && (forall g :: ns in toc && g in toc[ns] && g != game ==> r[ns][g] == toc[ns][g])
      && (forall n :: n in toc && n != ns ==> r[n] == toc[n])
  {
  }

  function ClosePre(isPreOpen: bool): string {
    if isPreOpen then "</pre>" else ""
  }

  /** A header closes an open `<pre>`; `plugin_II` then switches annotations off, any other namespace on. */
  function HeaderStep(st: State, h: HeaderLine): Result<State> {
    var output := st.output + ClosePre(st.isPreOpen);
    match h
    case BadPath(c) => Err(InvalidPath(c))
    case Skipped(c) => Ok(State(output, c, false, true, st.toc))
    case Listed(c, ns, game, file) => Ok(State(output + "\n### " + c + "\n", c, false, false, TocAdd(st.toc, ns, game, file)))
  }

  /**
   * An annotation: the `<pre>` left open is closed, the heading written and a
   * new `<pre>` left open, then the opcodes; a `continue` also drops the newline.
   */
  function AnnotStep(st: State, a: AnnotLine, table: Table): Result<State> {
    match a
    case NoPrev => Err(TypeError(NoPreviousLine))
    case NotCallable => Ok(st)
    case Callable(heading, plans) =>
      var flow :- Chain(ResolveAll(plans, st.curFile, table));
      var output := st.output + ClosePre(st.isPreOpen) + heading + RenderAll(flow.ops);
      Ok(st.(output := if flow.stopped then output else output + "\n", isPreOpen := true))
  }

  /** One iteration of the main loop. */
  function Step(st: State, l: Line, table: Table): Result<State> {
    match l
    case Other => Ok(st)
    case Section(h) => HeaderStep(st, h)
    case Annotation(a, alt) =>
      if !st.skipFile then AnnotStep(st, a, table)
      else if alt.Some? then HeaderStep(st, alt.value)
      else Ok(st)
  }

  /** The state after the first `n` lines, or the error that ended the run. */
  function RunPrefix(ls: seq<Line>, table: Table, n: nat): Result<State>
    requires n <= |ls|
  {
    if n == 0 then Ok(Init)
    else
      var prev := RunPrefix(ls, table, n - 1);
      if prev.Err? then prev else Step(prev.value, ls[n - 1], table)
  }

  function Run(lines: seq<string>, table: Table): Result<State> {
    RunPrefix(ParseAll(lines), table, |lines|)
  }

  /** A prefix of the run does not depend on the lines after it. */
  lemma {:induction false} RunPrefixExtend(ls: seq<Line>, l: Line, table: Table, n: nat)
    requires n <= |ls|
    ensures RunPrefix(ls + [l], table, n) == RunPrefix(ls, table, n)
  {
    if n > 0 {
      RunPrefixExtend(ls, l, table, n - 1);
    }
  }

  lemma RunStep(ls: seq<Line>, table: Table, i: nat)
    requires i < |ls| && RunPrefix(ls, table, i).Ok?
    ensures RunPrefix(ls, table, i + 1) == Step(RunPrefix(ls, table, i).value, ls[i], table)
  {
  }

  lemma {:induction false} RunErrorSticks(ls: seq<Line>, table: Table, n: nat, m: nat)
    requires n <= m <= |ls| && RunPrefix(ls, table, n).Err?
    ensures RunPrefix(ls, table, m) == RunPrefix(ls, table, n)
    decreases m - n
  {
    if n < m {
      RunErrorSticks(ls, table, n, m - 1);
    }
  }

  /** Once a line throws, the run ends with that error. */
  lemma RunStops(ls: seq<Line>, table: Table, i: nat, st: State)
    requires i < |ls| && RunPrefix(ls, table, i) == Ok(st) && Step(st, ls[i], table).Err?
    ensures RunPrefix(ls, table, |ls|) == Step(st, ls[i], table)
  {
    RunStep(ls, table, i);
    RunErrorSticks(ls, table, i + 1, |ls|);
  }

  // ---------------------------------------------------------------------------
  // What the loop keeps true
  // ---------------------------------------------------------------------------

  /**
   * A header as `ParseHeader` produces it: a bad path has fewer than three
   * parts; a skipped file has `plugin_II` as its first part; a listed one has
   * another namespace, with the game second and the file last.
   */
  ghost predicate HeaderFits(h: HeaderLine) {
    var paths := Split(h.curFile, "\\");
    match h
    case BadPath(_) => |paths| < 3
    case Skipped(_) => |paths| >= 3 && paths[0] == "plugin_II"
    case Listed(_, ns, game, file) =>
      |paths| >= 3 && ns == paths[0] && ns != "plugin_II" && game == paths[1] && file == Last(paths)
  }

  ghost predicate LineFits(l: Line) {
    match l
    case Other => true
    case Section(h) => HeaderFits(h)
    case Annotation(_, alt) => alt.Some? ==> HeaderFits(alt.value)
  }

  /** The current file is the header's text from `plugin_` with its first `:` removed. */
  lemma ParseHeaderFits(line: string)
    ensures HeaderFits(ParseHeader(line))
    ensures ParseHeader(line).curFile == ReplaceFirst(Substring(line, IndexOf(line, "plugin_"), |line|), ":", "")
  {
  }

  lemma ParseLineFits(prev: Option<string>, line: string)
    ensures LineFits(ParseLine(prev, line))
  {
    ParseHeaderFits(line);
  }

  /**
   * What holds between iterations: `plugin_II` is never listed in the table of
   * contents, a `<pre>` is only open while annotations are on, and annotations
   * are off only inside a `plugin_II` file.
   */
  ghost predicate Inv(st: State) {
    && "plugin_II" !in st.toc
    && (st.isPreOpen ==> !st.skipFile)
    && (st.skipFile ==> Split(st.curFile, "\\")[0] == "plugin_II")
  }

  lemma InitInv()
    ensures Inv(Init)
  {
  }

  lemma HeaderStepInv(st: State, h: HeaderLine)
    requires Inv(st) && HeaderFits(h) && HeaderStep(st, h).Ok?
    ensures Inv(HeaderStep(st, h).value)
  {
    if h.Listed? {
      TocAddSpec(st.toc, h.namespace, h.game, h.file);
    }
  }

  lemma StepInv(st: State, l: Line, table: Table)
    requires Inv(st) && LineFits(l) && Step(st, l, table).Ok?
    ensures Inv(Step(st, l, table).value)
  {
    match l
    case Other =>
    case Section(h) => HeaderStepInv(st, h);
    case Annotation(a, alt) =>
      if st.skipFile && alt.Some? {
        HeaderStepInv(st, alt.value);
      }
  }

  lemma {:induction false} RunPrefixInv(ls: seq<Line>, table: Table, n: nat)
    requires n <= |ls| && (forall k :: 0 <= k < |ls| ==> LineFits(ls[k]))
    requires RunPrefix(ls, table, n).Ok?
    ensures Inv(RunPrefix(ls, table, n).value)
  {
    if n == 0 {
      InitInv();
    } else {
      RunPrefixInv(ls, table, n - 1);
      StepInv(RunPrefix(ls, table, n - 1).value, ls[n - 1], table);
    }
  }

  /** A run that ends without throwing ends in a state where the invariant holds. */
  lemma RunInv(lines: seq<string>, table: Table)
    requires Run(lines, table).Ok?
    ensures Inv(Run(lines, table).value)
  {
    var ls := ParseAll(lines);
    forall k | 0 <= k < |ls|
      ensures LineFits(ls[k])
    {
      ParseLineFits(Prev(lines, k), lines[k]);
    }
    RunPrefixInv(ls, table, |lines|);
  }

  /** A step only appends to the output. */
  lemma StepExtends(st: State, l: Line, table: Table)
    requires Step(st, l, table).Ok?
    ensures st.output <= Step(st, l, table).value.output
  {
  }

  /** The output of a run only grows: every earlier state's output is a prefix of every later one. */
  lemma {:induction false} RunExtends(ls: seq<Line>, table: Table, m: nat, n: nat)
    requires m <= n <= |ls| && RunPrefix(ls, table, n).Ok?
    ensures RunPrefix(ls, table, m).Ok?
    ensures RunPrefix(ls, table, m).value.output <= RunPrefix(ls, table, n).value.output
    decreases n - m
  {
    if m < n {
      RunExtends(ls, table, m + 1, n);
      RunStep(ls, table, m);
      StepExtends(RunPrefix(ls, table, m).value, ls[m], table);
    }
  }

  /** Inside a `plugin_II` file an annotation line without `plugin_` changes nothing. */
  lemma SkipSilences(st: State, prev: Option<string>, line: string, table: Table)
    requires st.skipFile && Includes(line, "plugin::") && !Includes(line, "plugin_")
    ensures Step(st, ParseLine(prev, line), table) == Ok(st)
  {
  }

  /**
   * An annotation under a line with neither `::` nor `(` is reported and
   * skipped: nothing is written and no `<pre>` is closed.
   */
  lemma NotCallableSkipped(st: State, prev: string, line: string, table: Table)
    requires !st.skipFile && Includes(line, "plugin::") && !Includes(prev, "::") && !Includes(prev, "(")
    ensures Step(st, ParseLine(Some(prev), line), table) == Ok(st)
  {
  }

  /**
   * A header line: too short a path throws; a `plugin_II` file switches
   * annotations off and lists nothing; any other file is appended to its
   * game's list and gets a `###` heading of its own.
   */
  lemma HeaderStepSpec(st: State, line: string)
    ensures var curFile := ReplaceFirst(Substring(line, IndexOf(line, "plugin_"), |line|), ":", "");
      var paths := Split(curFile, "\\");
      var r := HeaderStep(st, ParseHeader(line));
      var closed := st.output + ClosePre(st.isPreOpen);
      (|paths| < 3 ==> r == Err(InvalidPath(curFile)))
      && (|paths| >= 3 && paths[0] == "plugin_II" ==>
            r == Ok(State(closed, curFile, false, true, st.toc)))
      && (|paths| >= 3 && paths[0] != "plugin_II" ==>
            r.Ok? && r.value.output == closed + "\n### " + curFile + "\n"
            && r.value.curFile == curFile && !r.value.isPreOpen && !r.value.skipFile
            && r.value.toc.Keys == st.toc.Keys + {paths[0]}
            && r.value.toc[paths[0]][paths[1]]
               == (if paths[0] in st.toc && paths[1] in st.toc[paths[0]] then st.toc[paths[0]][paths[1]] else []) + [Last(paths)]
            && (forall n :: n in st.toc && n != paths[0] ==> r.value.toc[n] == st.toc[n]))
  {
    var h := ParseHeader(line);
    ParseHeaderFits(line);
    if h.Listed? {
      TocAddSpec(st.toc, h.namespace, h.game, h.file);
    }
  }

  /**
   * A callable annotation: unless a dispatch `if` throws, the `<pre>` left open
   * is closed, the heading written and a new `<pre>` left open, the opcodes
   * follow and then a newline unless a `continue` cut the line short. Scope,
   * skip flag and table of contents are kept.
   */
  lemma CallableStepSpec(st: State, heading: string, plans: seq<Plan>, table: Table)
    ensures var r := AnnotStep(st, Callable(heading, plans), table);
      var flow := Chain(ResolveAll(plans, st.curFile, table));
      var head := st.output + ClosePre(st.isPreOpen) + heading;
      (r.Err? <==> flow.Err?)
      && (flow.Err? ==> r.error == flow.error)
      && (flow.Ok? ==>
            r.value.isPreOpen && r.value.curFile == st.curFile && r.value.skipFile == st.skipFile
            && r.value.toc == st.toc
            && StartsWith(r.value.output, head)
            && r.value.output == head + RenderAll(flow.value.ops) + (if flow.value.stopped then "" else "\n"))
  {
    var flow := Chain(ResolveAll(plans, st.curFile, table));
    if flow.Ok? {
      var head := st.output + ClosePre(st.isPreOpen) + heading;
      var body := head + RenderAll(flow.value.ops);
      var out := if flow.value.stopped then body else body + "\n";
      assert AnnotStep(st, Callable(heading, plans), table)
        == Ok(st.(output := out, isPreOpen := true));
      var tail := RenderAll(flow.value.ops) + (if flow.value.stopped then "" else "\n");
      assert out == head + tail;
      LeadsWith(head, tail);
    }
  }

  lemma LeadsWith(head: string, tail: string)
    ensures StartsWith(head + tail, head)
  {
    assert (head + tail)[..|head|] == head;
  }

  /**
   * An annotation line: with no line above it the run throws; under a line that
   * is not callable nothing changes; otherwise the step writes the heading that
   * names the declaration, as `CallableStepSpec` says, over the line's dispatch `if`s.
   */
  lemma AnnotStepSpec(st: State, prev: Option<string>, line: string, table: Table)
    ensures var r := AnnotStep(st, ParseAnnotation(prev, line), table);
      (prev.None? ==> r == Err(TypeError(NoPreviousLine)))
      && (prev.Some? && DeclName(prev.value).None? ==> r == Ok(st))
      && (prev.Some? && DeclName(prev.value).Some? ==>
            var decl := DeclName(prev.value).value;
            var flow := Chain(ResolveAll(Plans(line, GenericArgs(line), decl.className), st.curFile, table));
            var head := st.output + ClosePre(st.isPreOpen) + Heading(decl.name, line);
            (r.Err? <==> flow.Err?)
            && (flow.Err? ==> r.error == flow.error)
            && (flow.Ok? ==>
                  r.value.isPreOpen && r.value.curFile == st.curFile && r.value.skipFile == st.skipFile
                  && r.value.toc == st.toc && StartsWith(r.value.output, head)))
  {
    if prev.Some? && DeclName(prev.value).Some? {
      var decl := DeclName(prev.value).value;
      CallableStepSpec(st, Heading(decl.name, line), Plans(line, GenericArgs(line), decl.className), table);
    }
  }

  /** An annotation on the first line has no line above it to name: the run throws. */
  lemma RunFirstLine(lines: seq<string>, table: Table)
    requires |lines| > 0 && Includes(lines[0], "plugin::")
    ensures Run(lines, table) == Err(TypeError(NoPreviousLine))
  {
    var ls := ParseAll(lines);
    assert ls[0] == ParseLine(None, lines[0]);
    RunStops(ls, table, 0, Init);
  }

  /** The `if` / `else if` / `else` of the loop body: which branch a line takes. */
  lemma StepDispatch(st: State, prev: Option<string>, line: string, table: Table)
    ensures Step(st, ParseLine(prev, line), table) ==
      if Includes(line, "plugin::") && !st.skipFile then AnnotStep(st, ParseAnnotation(prev, line), table)
      else if Includes(line, "plugin_") then HeaderStep(st, ParseHeader(line))
      else Ok(st)
  {
  }

  /** The annotation branch of the loop body. */
  method TranslateAnnotation(st: State, prev: Option<string>, line: string, table: Table) returns (r: Result<State>)
    ensures r == AnnotStep(st, ParseAnnotation(prev, line), table)
  {
    if prev.None? {
      return Err(TypeError(NoPreviousLine));
    }
    var decl := DeclName(prev.value);
    if decl.None? {
      return Ok(st);
    }
    var output := st.output;
    if st.isPreOpen {
      output := output + "</pre>";
    }
    assert output == st.output + ClosePre(st.isPreOpen);
    output := output + Heading(decl.value.name, line);
    var types := GenericArgs(line);
    var flow := Chain(ResolveAll(Plans(line, types, decl.value.className), st.curFile, table));
    if flow.Err? {
      return Err(flow.error);
    }
    output := output + RenderAll(flow.value.ops);
    if !flow.value.stopped {
      output := output + "\n";
    }
    r := Ok(st.(output := output, isPreOpen := true));
  }

  /** The header branch of the loop body, with the three `??=` updates of `toc`. */
  method TranslateHeader(st: State, line: string) returns (r: Result<State>)
    ensures r == HeaderStep(st, ParseHeader(line))
  {
    var output := st.output;
    if st.isPreOpen {
      output := output + "</pre>";
    }
    assert output == st.output + ClosePre(st.isPreOpen);
    var curFile := ReplaceFirst(Substring(line, IndexOf(line, "plugin_"), |line|), ":", "");
    var paths := Split(curFile, "\\");
    ghost var h := ParseHeader(line);
    if |paths| < 3 {
      assert h == BadPath(curFile);
      return Err(InvalidPath(curFile));
    }
    var namespace := paths[0];
    var game := paths[1];
    if namespace == "plugin_II" {
      assert h == Skipped(curFile);
      return Ok(State(output, curFile, false, true, st.toc));
    }
    var file := Last(paths);
    assert h == Listed(curFile, namespace, game, file);
    var toc := TocPush(st.toc, namespace, game, file);
    r := Ok(State(output + "\n### " + curFile + "\n", curFile, false, false, toc));
  }

  /** `toc[ns] ??= {}; toc[ns][game] ??= []; toc[ns][game].push(file)`, step by step. */
  method TocPush(toc0: Toc, namespace: string, game: string, file: string) returns (toc: Toc)
    ensures toc == TocAdd(toc0, namespace, game, file)
  {
    toc := toc0;
    if namespace !in toc {
      toc := toc[namespace := map[]];
    }
    if game !in toc[namespace] {
      toc := toc[namespace := toc[namespace][game := []]];
    }
    ghost var games := if namespace in toc0 then toc0[namespace] else map[];
    ghost var files := if game in games then games[game] else [];
    assert toc[namespace][game] == files;
    assert toc[namespace][game := files + [file]] == games[game := files + [file]];
    toc := toc[namespace := toc[namespace][game := toc[namespace][game] + [file]]];
  }

  /** The body of the main loop on line `i`: the `if` / `else if` / `else` on the line's two markers. */
  method TranslateLine(st: State, lines: seq<string>, i: nat, table: Table, ghost ls: seq<Line>) returns (r: Result<State>)
    requires i < |lines| && Parsed(lines, ls)
    ensures r == Step(st, ls[i], table)
  {
    var line := lines[i];
    var prev := if i == 0 then None else Some(lines[i - 1]);
    assert ls[i] == ParseLine(Prev(lines, i), line);
    StepDispatch(st, prev, line, table);
    if Includes(line, "plugin::") && !st.skipFile {
      r := TranslateAnnotation(st, prev, line, table);
    } else if Includes(line, "plugin_") {
      r := TranslateHeader(st, line);
    } else {
      r := Ok(st);
    }
  }

  /** The main loop of the translator, over the lines read as `ls`. */
  method TranslateLines(lines: seq<string>, table: Table, ghost ls: seq<Line>) returns (r: Result<State>)
    requires Parsed(lines, ls)
    ensures r == RunPrefix(ls, table, |ls|)
  {
    var st := Init;
    var i := 0;
    while i < |lines|
      invariant 0 <= i <= |lines|
      invariant RunPrefix(ls, table, i) == Ok(st)
    {
      var next := TranslateLine(st, lines, i, table, ls);
      RunStep(ls, table, i);
      if next.Err? {
        RunStops(ls, table, i, st);
        return next;
      }
      st := next.value;
      i := i + 1;
    }
    assert i == |ls|;
    r := Ok(st);
  }

  /** The translator on a listing: the main loop with the variables it starts from. */
  method Translate(lines: seq<string>, table: Table) returns (r: Result<State>)
    ensures r == Run(lines, table)
  {
    ParseAllParsed(lines);
    r := TranslateLines(lines, table, ParseAll(lines));
  }
}
