/**
 * The older translator: it walks the lines of a plugin-sdk header listing and
 * writes a CLEO call list. A `plugin::` annotation becomes two comment lines,
 * the calling declaration's name and the annotation text, followed by the
 * opcode line that performs the same call; a `plugin_` scope header is copied
 * out and becomes the scope in which `gaddrof(...)` symbols are looked up.
 */
module CleoTranslator {
  import opened Results
  import opened JsText
  import opened Brackets
  import opened Annotations
  import AddrTable
  import HtmlTranslator

  /** The address table: scope -> symbol -> address. */
  type Table = AddrTable.Table

  // ---------------------------------------------------------------------------
  // getParams
  // ---------------------------------------------------------------------------

  /** The parameter text: `between` on the whole line; the generic list is not skipped. */
  function ParamLine(line: string): string {
    Between(line, '(', ')')
  }

  /**
   * `getParams`: the raw segments at parenthesis depth 0, the `num_params < 0`
   * test on the array (coerced to its segments joined by commas), then every
   * segment trimmed; none is dropped.
   */
  function Params(line: string): Result<seq<string>> {
    var raw := Segments(ParamLine(line));
    if ToNumberIsNegative(Join(raw, ",")) then Err(NegativeNumParams)
    else Ok(MapTrim(raw))
  }

  /**
   * The count test throws exactly when the parameter text coerces to a negative
   * number; otherwise there is one parameter per comma at depth 0 plus one, each
   * the trimmed segment, so the list is never empty.
   */
  lemma ParamsSpec(line: string)
    ensures var pl := ParamLine(line); var raw := Segments(pl); var r := Params(line);
      (r.Err? <==> ToNumberIsNegative(pl))
      && (r.Err? ==> r.error == NegativeNumParams)
      && (',' in pl ==> r.Ok?)
      && (r.Ok? ==> |r.value| == 1 + TopCommas(pl) && forall k :: 0 <= k < |r.value| ==> r.value[k] == Trim(raw[k]))
  {
    var pl := ParamLine(line);
    var raw := Segments(pl);
    SegmentsJoin(pl);
    SegmentsCount(pl);
    if ',' in pl {
      var j :| 0 <= j < |pl| && pl[j] == ',';
      CommaNeverNegative(pl, j);
    }
    forall k | 0 <= k < |raw|
      ensures MapTrim(raw)[k] == Trim(raw[k])
    {
      MapTrimAt(raw, k);
    }
  }

  /** An empty parameter text, as in `f()`, still gives one parameter, the empty string. */
  lemma ParamsOfEmpty(line: string)
    requires ParamLine(line) == ""
    ensures Params(line) == Ok([""])
  {
    EmptyIsNotNegative();
    assert Segments("") == [""];
    assert MapTrim([""]) == [Trim("")];
  }

  /**
   * A single negative literal, as in `f(-1)`, makes the count test throw: the
   * array `["-1"]` coerces to the number -1.
   */
  lemma ParamsOfMinusOne(line: string)
    requires ParamLine(line) == "-1"
    ensures Params(line) == Err(NegativeNumParams)
  {
    ParamsSpec(line);
    MinusOneIsNegative();
  }

  /** The split loop of `getParams` and the trimming that follows it. */
  method GetParams(line: string) returns (r: Result<seq<string>>)
    ensures r == Params(line)
  {
    var paramLine := Between(line, '(', ')');
    var params := SplitTopLevel(paramLine);
    if ToNumberIsNegative(Join(params, ",")) {
      return Err(NegativeNumParams);
    }
    r := Ok(MapTrim(params));
  }

  // ---------------------------------------------------------------------------
  // The address lookup of CallMethodAndReturnDynGlobal
  // ---------------------------------------------------------------------------

  /**
   * `map[curFile][varName]` for the symbol named by `gaddrof(...)`: an unknown
   * scope is `undefined` and reading from it raises a TypeError; a missing or
   * empty entry throws; the address found must start with `0x`.
   */
  function LookupAddress(gaddrof: string, curFile: string, table: Table): (r: Result<string>)
    ensures var name := IndirectName(gaddrof);
      (r.Ok? <==> AddrTable.Defined(table, curFile, name) && IsAddress(table[curFile][name].value))
      && (r.Ok? ==> r.value == table[curFile][name].value)
      && (curFile !in table ==> r == Err(TypeError(UndefinedScope)))
      && (curFile in table && !AddrTable.Defined(table, curFile, name) ==> r == Err(NotDefined(name, curFile)))
      && (AddrTable.Defined(table, curFile, name) && !IsAddress(table[curFile][name].value) ==>
            r == Err(InvalidAddress(table[curFile][name].value)))
  {
    var name := IndirectName(gaddrof);
    if curFile !in table then Err(TypeError(UndefinedScope))
    else if !AddrTable.Defined(table, curFile, name) then Err(NotDefined(name, curFile))
    else
      var address := table[curFile][name].value;
      if !IsAddress(address) then Err(InvalidAddress(address)) else Ok(address)
  }

  /**
   * The newer translator's `findAddressByName` reads the scope with `?.`: the
   * two lookups agree in every known scope, and in an unknown one the newer
   * reports the symbol as not defined where this one raises a TypeError.
   */
  lemma LookupAgrees(gaddrof: string, curFile: string, table: Table)
    ensures curFile in table ==> LookupAddress(gaddrof, curFile, table) == HtmlTranslator.FindAddressByName(gaddrof, curFile, table)
    ensures curFile !in table ==>
      LookupAddress(gaddrof, curFile, table) == Err(TypeError(UndefinedScope))
      && HtmlTranslator.FindAddressByName(gaddrof, curFile, table) == Err(NotDefined(IndirectName(gaddrof), curFile))
  {
  }

  /** A planned stage run in the current scope. */
  function Resolve(p: Plan, curFile: string, table: Table): Result<Stage> {
    match p
    case Ready(s) => s
    case Lookup(g, form) =>
      var address :- LookupAddress(g, curFile, table);
      Ok(Complete(form, address))
  }

  function ResolveAll(plans: seq<Plan>, curFile: string, table: Table): (r: seq<Result<Stage>>)
    ensures |r| == |plans|
  {
    if plans == [] then [] else [Resolve(plans[0], curFile, table)] + ResolveAll(plans[1..], curFile, table)
  }

  lemma {:induction false} ResolveAllAt(plans: seq<Plan>, curFile: string, table: Table, k: nat)
    requires k < |plans|
    ensures ResolveAll(plans, curFile, table)[k] == Resolve(plans[k], curFile, table)
  {
    if k > 0 {
      ResolveAllAt(plans[1..], curFile, table, k - 1);
    }
  }

  /**
   * `CallMethodAndReturnDynGlobal` on the parameters `getParams` reads: a line
   * without `gaddrof`, a first parameter that is not `gaddrof(...)`, an unknown
   * scope, an undefined symbol and a bad address all throw; the list is never
   * empty, so its first parameter always exists; without a struct the line is
   * cut short.
   */
  lemma DynSpec(line: string, types: seq<string>, className: string, curFile: string, table: Table)
    requires |types| >= 1
    ensures var params := Params(line);
      var r := Resolve(DynMethodReturnPlan(line, types, className, params), curFile, table);
      (!Includes(line, "plugin::CallMethodAndReturnDynGlobal") ==> r == Ok(Skip))
      && (Includes(line, "plugin::CallMethodAndReturnDynGlobal") && !Includes(line, "gaddrof") ==> r == Err(WrongLine(line)))
      && (Includes(line, "plugin::CallMethodAndReturnDynGlobal") && Includes(line, "gaddrof") && params.Ok? ==>
            params.value != []
            && (!Indirect(params.value) ==> r == Err(NotIndirect(line)))
            && (Indirect(params.value) ==>
                  (curFile !in table ==> r == Err(TypeError(UndefinedScope)))
                  && (r.Ok? <==> LookupAddress(params.value[0], curFile, table).Ok?)
                  && (r.Ok? ==> (r.value.Continue? <==> className == ""))))
      && (Includes(line, "plugin::CallMethodAndReturnDynGlobal") && r.Ok? && r.value.Emit? ==>
            WellFormed(r.value.op) && r.value.op.CallMethodReturn? && r.value.op.className == className
            && r.value.op.params == Drop(params.value, 2) && r.value.op.ret == types[0]
            && r.value.op.address == LookupAddress(params.value[0], curFile, table).value)
  {
    ParamsSpec(line);
  }

  // ---------------------------------------------------------------------------
  // The five dispatch `if`s
  // ---------------------------------------------------------------------------

  /** The direct forms in the order the loop body tries them. */
  const DirectForms: seq<Form> := [CallForm, CallAndReturnForm, CallMethodForm, CallMethodAndReturnForm]

  function DirectPlans(fs: seq<Form>, line: string, types: seq<string>, className: string, params: Result<seq<string>>): (r: seq<Plan>)
    requires |types| >= 1
    ensures |r| == |fs|
  {
    if fs == [] then [] else [Ready(DirectStage(fs[0], line, types, className, params))] + DirectPlans(fs[1..], line, types, className, params)
  }

  /** The plans of an annotation line: the four direct forms, then the one indirect form. */
  function Plans(line: string, types: seq<string>, className: string): (r: seq<Plan>)
    requires |types| >= 1
    ensures |r| == 5
  {
    var params := Params(line);
    DirectPlans(DirectForms, line, types, className, params) + [DynMethodReturnPlan(line, types, className, params)]
  }

  lemma {:induction false} DirectPlansAt(fs: seq<Form>, line: string, types: seq<string>, className: string, params: Result<seq<string>>, k: nat)
    requires |types| >= 1 && k < |fs|
    ensures DirectPlans(fs, line, types, className, params)[k] == Ready(DirectStage(fs[k], line, types, className, params))
  {
    if k > 0 {
      DirectPlansAt(fs[1..], line, types, className, params, k - 1);
    }
  }

  /** Run in any scope, a safe plan emits a well-formed opcode: a found address starts with `0x`. */
  lemma ResolveSafe(p: Plan, curFile: string, table: Table)
    requires PlanSafe(p)
    ensures var s := Resolve(p, curFile, table); s.Ok? && s.value.Emit? ==> WellFormed(s.value.op)
  {
  }

  lemma PlansSafe(line: string, types: seq<string>, className: string)
    requires |types| >= 1
    ensures var plans := Plans(line, types, className); forall k :: 0 <= k < |plans| ==> PlanSafe(plans[k])
  {
    var params := Params(line);
    var direct := DirectPlans(DirectForms, line, types, className, params);
    var plans := direct + [DynMethodReturnPlan(line, types, className, params)];
    assert plans == Plans(line, types, className);
    forall k | 0 <= k < |plans|
      ensures PlanSafe(plans[k])
    {
      if k < 4 {
        DirectPlansAt(DirectForms, line, types, className, params, k);
        DirectStageWellFormed(DirectForms[k], line, types, className, params);
        assert plans[k] == direct[k];
      }
    }
  }

  /** Whatever the scope and the table, every opcode an annotation line emits is well-formed. */
  lemma PlansWellFormed(line: string, types: seq<string>, className: string, curFile: string, table: Table)
    requires |types| >= 1
    ensures var flow := Chain(ResolveAll(Plans(line, types, className), curFile, table));
      flow.Ok? ==> forall op :: op in flow.value.ops ==> WellFormed(op)
  {
    var plans := Plans(line, types, className);
    PlansSafe(line, types, className);
    var stages := ResolveAll(plans, curFile, table);
    forall k | 0 <= k < |stages| && stages[k].Ok? && stages[k].value.Emit?
      ensures WellFormed(stages[k].value.op)
    {
      ResolveAllAt(plans, curFile, table, k);
      ResolveSafe(plans[k], curFile, table);
    }
    ChainWellFormed(stages);
  }

  /** A line with none of the five markers takes none of the `if`s. */
  lemma PlansUntaken(line: string, types: seq<string>, className: string)
    requires |types| >= 1
    requires !IsCall(line) && !IsCallAndReturn(line) && !Includes(line, "plugin::CallMethod<")
      && !Includes(line, "plugin::CallMethodAndReturn<") && !Includes(line, "plugin::CallMethodAndReturnDynGlobal")
    ensures var plans := Plans(line, types, className); forall k :: 0 <= k < |plans| ==> plans[k] == Ready(Ok(Skip))
  {
    var params := Params(line);
    var direct := DirectPlans(DirectForms, line, types, className, params);
    var plans := direct + [DynMethodReturnPlan(line, types, className, params)];
    assert plans == Plans(line, types, className);
    forall k | 0 <= k < |plans|
      ensures plans[k] == Ready(Ok(Skip))
    {
      if k < 4 {
        DirectPlansAt(DirectForms, line, types, className, params, k);
        assert plans[k] == direct[k];
      }
    }
  }

  // ---------------------------------------------------------------------------
  // The opcode lines
  // ---------------------------------------------------------------------------

  /** The start of an opcode line: tab-indented opcode, address, struct, count and pop. */
  function Opening(op: Opcode): string {
    match op
    case CallFunction(a, ps, pop) =>
      "\n\t0AA5: call_function " + a + " num_params " + NatToString(|ps|) + " pop " + NatToString(pop)
    case CallMethod(a, c, ps) =>
      "\n\t0AA6: call_method " + a + " struct [" + c + "] num_params " + NatToString(|ps|) + " pop 0"
    case CallFunctionReturn(a, ps, ret, pop) =>
      "\n\t0AA7: call_function_return " + a + " num_params " + NatToString(|ps|) + " pop " + NatToString(pop)
    case CallMethodReturn(a, c, ps, ret) =>
      "\n\t0AA8: call_method_return " + a + " struct [" + c + "] num_params " + NatToString(|ps|) + " pop 0"
  }

  /** What the `for (const param of params)` loop appends: ` [p]` for each parameter. */
  function ParamTokens(ps: seq<string>): string {
    if ps == [] then "" else " [" + ps[0] + "]" + ParamTokens(ps[1..])
  }

  /** The ` func_ret [ret]` the two return forms end with. */
  function FuncRet(op: Opcode): string {
    if op.CallFunctionReturn? || op.CallMethodReturn? then " func_ret [" + op.ret + "]" else ""
  }

  function Render(op: Opcode): string {
    Opening(op) + ParamTokens(op.params) + FuncRet(op)
  }

  function RenderAll(ops: seq<Opcode>): string {
    if ops == [] then "" else RenderAll(ops[..|ops| - 1]) + Render(Last(ops))
  }

  lemma {:induction false} ParamTokensSnoc(ps: seq<string>, i: nat)
    requires i < |ps|
    ensures ParamTokens(ps[..i + 1]) == ParamTokens(ps[..i]) + " [" + ps[i] + "]"
  {
    if i > 0 {
      assert ps[..i + 1][1..] == ps[1..][..i];
      assert ps[..i][1..] == ps[1..][..i - 1];
      ParamTokensSnoc(ps[1..], i - 1);
    } else {
      assert ps[..1][1..] == [];
    }
  }

  lemma RenderAllSnoc(ops: seq<Opcode>, j: nat)
    requires j < |ops|
    ensures RenderAll(ops[..j + 1]) == RenderAll(ops[..j]) + Render(ops[j])
  {
    assert ops[..j + 1][..j] == ops[..j];
  }

  lemma BracketWord(p: string)
    ensures " " + ("[" + p + "]") == " [" + p + "]"
  {
    assert " " + "[" == " [";
  }

  /** The parameters appear in their own order, each bracketed, one space before each. */
  lemma {:induction false} ParamTokensSpec(ps: seq<string>)
    ensures ps == [] ==> ParamTokens(ps) == ""
    ensures ps != [] ==> ParamTokens(ps) == " " + Join(HtmlTranslator.Bracketed(ps), " ")
  {
    if ps != [] {
      var b := HtmlTranslator.Bracketed(ps);
      var b0 := "[" + ps[0] + "]";
      var tok := " [" + ps[0] + "]";
      assert b == [b0] + HtmlTranslator.Bracketed(ps[1..]);
      BracketWord(ps[0]);
      if |ps| == 1 {
        assert ParamTokens(ps) == tok + ParamTokens([]);
        assert Join(b, " ") == b0;
        assert tok + "" == tok;
      } else {
        var rest := HtmlTranslator.Bracketed(ps[1..]);
        assert b[1..] == rest;
        var j := Join(rest, " ");
        ParamTokensSpec(ps[1..]);
        assert ParamTokens(ps) == tok + (" " + j);
        assert Join(b, " ") == b0 + " " + j;
        Regroup(" ", b0, j);
      }
    }
  }

  lemma Regroup(x: string, b: string, j: string)
    ensures x + (b + x + j) == (x + b) + (x + j)
  {
  }

  /**
   * The newer translator writes the parameters of an opcode in reverse: this
   * one writes the same bracketed list in the order of the declaration.
   */
  lemma ParamTokensReversed(ps: seq<string>)
    requires ps != []
    ensures ParamTokens(ps) == " " + HtmlTranslator.StringifyParams(HtmlTranslator.Reverse(ps))
  {
    var rr := HtmlTranslator.Reverse(HtmlTranslator.Reverse(ps));
    assert rr == ps;
    HtmlTranslator.StringifyParamsSpec(HtmlTranslator.Reverse(ps));
    ParamTokensSpec(ps);
  }

  /** The parameter loop. */
  method AppendParams(output: string, ps: seq<string>) returns (out: string)
    ensures out == output + ParamTokens(ps)
  {
    out := output;
    var i := 0;
    while i < |ps|
      invariant 0 <= i <= |ps|
      invariant out == output + ParamTokens(ps[..i])
    {
      ParamTokensSnoc(ps, i);
      out := out + " [" + ps[i] + "]";
      i := i + 1;
    }
    assert ps[..i] == ps;
  }

  /** One opcode line as its `if` writes it: the opening, the parameter loop, then `func_ret`. */
  method AppendOp(output: string, op: Opcode) returns (out: string)
    ensures out == output + Render(op)
  {
    var opening := Opening(op);
    out := output + opening;
    out := AppendParams(out, op.params);
    var funcRet := FuncRet(op);
    out := out + funcRet;
    AppendAssoc(output, opening, ParamTokens(op.params), funcRet);
  }

  lemma AppendAssoc(a: string, b: string, c: string, d: string)
    ensures a + b + c + d == a + (b + c + d)
  {
  }

  /** The opcode lines of an annotation, in the order of the `if`s. */
  method AppendOps(output: string, ops: seq<Opcode>) returns (out: string)
    ensures out == output + RenderAll(ops)
  {
    out := output;
    var j := 0;
    while j < |ops|
      invariant 0 <= j <= |ops|
      invariant out == output + RenderAll(ops[..j])
    {
      RenderAllSnoc(ops, j);
      ghost var done := RenderAll(ops[..j]);
      ghost var next := Render(ops[j]);
      out := AppendOp(out, ops[j]);
      assert out == output + done + next;
      AppendAssoc(output, done, next, "");
      assert done + next + "" == done + next;
      j := j + 1;
    }
    assert ops[..j] == ops;
  }

  // ---------------------------------------------------------------------------
  // What each line is, decided by the line and the one above it
  // ---------------------------------------------------------------------------

  /** A `plugin::` annotation: on the first line, under a non-callable line, or callable. */
  datatype AnnotLine = NoPrev | NotCallable | Callable(comment: string, plans: seq<Plan>)

  /**
   * A line: neither marker, a `plugin_` header (the text copied out and the new
   * scope), or an annotation.
   */
  datatype Line = Other | Header(title: string, curFile: string) | Annotation(annot: AnnotLine)

  /** The two comment lines: the declaring name, then the annotation from `plugin::` on. */
  function Comment(name: string, line: string): string {
    "\n\t// " + name + "\n\t// " + TrimStart(Substring(line, IndexOf(line, "plugin::"), |line|))
  }

  function ParseAnnotation(prev: Option<string>, line: string): AnnotLine {
    if prev.None? then NoPrev
    else match DeclName(prev.value)
      case None => NotCallable
      case Some(decl) => Callable(Comment(decl.name, line), Plans(line, GenericArgs(line), decl.className))
  }

  /**
   * A header writes the text from `plugin_` on, but the new scope is the whole
   * line with its first `:` removed.
   */
  function ParseLine(prev: Option<string>, line: string): Line {
    if Includes(line, "plugin::") then Annotation(ParseAnnotation(prev, line))
    else if Includes(line, "plugin_") then Header(Substring(line, IndexOf(line, "plugin_"), |line|), ReplaceFirst(line, ":", ""))
    else Other
  }

  /** Every line, each read with the line above it. */
  function ParseAll(lines: seq<string>): (ls: seq<Line>)
    ensures |ls| == |lines|
  {
    seq(|lines|, k requires 0 <= k < |lines| => ParseLine(Prev(lines, k), lines[k]))
  }

  /** `ls` is what the lines are, each read with the one above it. */
  predicate Parsed(lines: seq<string>, ls: seq<Line>) {
    |ls| == |lines| && forall k {:trigger Prev(lines, k)} :: 0 <= k < |lines| ==> ls[k] == ParseLine(Prev(lines, k), lines[k])
  }

  lemma ParseAllParsed(lines: seq<string>)
    ensures Parsed(lines, ParseAll(lines))
  {
  }

  // ---------------------------------------------------------------------------
  // The main loop
  // ---------------------------------------------------------------------------

  /** The variables of the main loop. */
  datatype State = State(output: string, curFile: string)

  const Init := State("", "")

  /**
   * An annotation: the comment, then the opcodes; a `continue` also drops the
   * newline. A throw anywhere on the line ends the run before anything is written.
   */
  function AnnotStep(st: State, a: AnnotLine, table: Table): Result<State> {
    match a
    case NoPrev => Err(TypeError(NoPreviousLine))
    case NotCallable => Ok(st)
    case Callable(comment, plans) =>
      var flow :- Chain(ResolveAll(plans, st.curFile, table));
      var output := st.output + comment + RenderAll(flow.ops);
      Ok(State(if flow.stopped then output else output + "\n", st.curFile))
  }

  /** One iteration of the main loop. */
  function Step(st: State, l: Line, table: Table): Result<State> {
    match l
    case Other => Ok(st)
    case Header(title, curFile) => Ok(State(st.output + "\n" + title + "\n", curFile))
    case Annotation(a) => AnnotStep(st, a, table)
  }

  /** The state after the first `n` lines, or the error that ended the run. */
  function RunPrefix(ls: seq<Line>, table: Table, n: nat): Result<State>
    requires n <= |ls|
  {
    if n == 0 then Ok(Init)
    else
      var prev := RunPrefix(ls, table, n - 1);
      if prev.Err? then prev else Step(prev.value, ls[n - 1], table)
  }

  function Run(lines: seq<string>, table: Table): Result<State> {
    RunPrefix(ParseAll(lines), table, |lines|)
  }

  lemma RunStep(ls: seq<Line>, table: Table, i: nat)
    requires i < |ls| && RunPrefix(ls, table, i).Ok?
    ensures RunPrefix(ls, table, i + 1) == Step(RunPrefix(ls, table, i).value, ls[i], table)
  {
  }

  lemma {:induction false} RunErrorSticks(ls: seq<Line>, table: Table, n: nat, m: nat)
    requires n <= m <= |ls| && RunPrefix(ls, table, n).Err?
    ensures RunPrefix(ls, table, m) == RunPrefix(ls, table, n)
    decreases m - n
  {
    if n < m {
      RunErrorSticks(ls, table, n, m - 1);
    }
  }

  /** Once a line throws, the run ends with that error. */
  lemma RunStops(ls: seq<Line>, table: Table, i: nat, st: State)
    requires i < |ls| && RunPrefix(ls, table, i) == Ok(st) && Step(st, ls[i], table).Err?
    ensures RunPrefix(ls, table, |ls|) == Step(st, ls[i], table)
  {
    RunStep(ls, table, i);
    RunErrorSticks(ls, table, i + 1, |ls|);
  }

  // ---------------------------------------------------------------------------
  // What the loop keeps true
  // ---------------------------------------------------------------------------

  /** A step only appends to the output. */
  lemma StepExtends(st: State, l: Line, table: Table)
    requires Step(st, l, table).Ok?
    ensures st.output <= Step(st, l, table).value.output
  {
  }

  /** The output of a run only grows: every earlier state's output is a prefix of every later one. */
  lemma {:induction false} RunExtends(ls: seq<Line>, table: Table, m: nat, n: nat)
    requires m <= n <= |ls| && RunPrefix(ls, table, n).Ok?
    ensures RunPrefix(ls, table, m).Ok?
    ensures RunPrefix(ls, table, m).value.output <= RunPrefix(ls, table, n).value.output
    decreases n - m
  {
    if m < n {
      RunExtends(ls, table, m + 1, n);
      RunStep(ls, table, m);
      StepExtends(RunPrefix(ls, table, m).value, ls[m], table);
    }
  }

  /**
   * A callable annotation that does not throw writes its comment before anything
   * else, whether or not a `continue` cuts its opcodes short, and keeps the scope.
   */
  lemma AnnotationWritesComment(st: State, comment: string, plans: seq<Plan>, table: Table)
    requires AnnotStep(st, Callable(comment, plans), table).Ok?
    ensures var st' := AnnotStep(st, Callable(comment, plans), table).value;
      st.output + comment <= st'.output && st'.curFile == st.curFile
  {
  }

  /** An annotation whose line names none of the five forms writes its comment and a newline, nothing else. */
  lemma UntakenWritesComment(st: State, comment: string, plans: seq<Plan>, table: Table)
    requires forall k :: 0 <= k < |plans| ==> plans[k] == Ready(Ok(Skip))
    ensures AnnotStep(st, Callable(comment, plans), table) == Ok(State(st.output + comment + "\n", st.curFile))
  {
    var stages := ResolveAll(plans, st.curFile, table);
    forall k | 0 <= k < |stages|
      ensures stages[k] == Ok(Skip)
    {
      ResolveAllAt(plans, st.curFile, table, k);
    }
    ChainNoneTaken(stages);
    assert st.output + comment + RenderAll([]) == st.output + comment;
  }

  /** An annotation on the first line has no line above it to name: the run throws. */
  lemma RunFirstLine(lines: seq<string>, table: Table)
    requires |lines| > 0 && Includes(lines[0], "plugin::")
    ensures Run(lines, table) == Err(TypeError(NoPreviousLine))
  {
    var ls := ParseAll(lines);
    assert ls[0] == ParseLine(None, lines[0]);
    RunStops(ls, table, 0, Init);
  }

  /** An annotation under a line with neither `::` nor `(` is reported and skipped. */
  lemma NotCallableSkipped(st: State, prev: string, line: string, table: Table)
    requires Includes(line, "plugin::") && !Includes(prev, "::") && !Includes(prev, "(")
    ensures Step(st, ParseLine(Some(prev), line), table) == Ok(st)
  {
  }

  /**
   * A header line copies the text from `plugin_` on to the output, between
   * newlines, and its whole text, first `:` removed, becomes the scope.
   */
  lemma HeaderSpec(st: State, prev: Option<string>, line: string, table: Table)
    requires !Includes(line, "plugin::") && Includes(line, "plugin_")
    ensures Step(st, ParseLine(prev, line), table)
      == Ok(State(st.output + "\n" + line[IndexOf(line, "plugin_")..] + "\n", ReplaceFirst(line, ":", "")))
  {
    assert Substring(line, IndexOf(line, "plugin_"), |line|) == line[IndexOf(line, "plugin_")..];
  }

  // ---------------------------------------------------------------------------
  // The loop itself
  // ---------------------------------------------------------------------------

  /** The annotation branch of the loop body. */
  method TranslateAnnotation(st: State, prev: Option<string>, line: string, table: Table) returns (r: Result<State>)
    ensures r == AnnotStep(st, ParseAnnotation(prev, line), table)
  {
    if prev.None? {
      return Err(TypeError(NoPreviousLine));
    }
    var decl := DeclName(prev.value);
    if decl.None? {
      return Ok(st);
    }
    var comment := Comment(decl.value.name, line);
    var types := GenericArgs(line);
    var flow := Chain(ResolveAll(Plans(line, types, decl.value.className), st.curFile, table));
    if flow.Err? {
      return Err(flow.error);
    }
    var output := AppendOps(st.output + comment, flow.value.ops);
    if !flow.value.stopped {
      output := output + "\n";
    }
    r := Ok(State(output, st.curFile));
  }

  /** The body of the main loop on line `i`: the `if` / `else if` / `else` on the line's two markers. */
  method TranslateLine(st: State, lines: seq<string>, i: nat, table: Table, ghost ls: seq<Line>) returns (r: Result<State>)
    requires i < |lines| && Parsed(lines, ls)
    ensures r == Step(st, ls[i], table)
  {
    var line := lines[i];
    var prev := if i == 0 then None else Some(lines[i - 1]);
    assert ls[i] == ParseLine(Prev(lines, i), line);
    if Includes(line, "plugin::") {
      r := TranslateAnnotation(st, prev, line, table);
    } else if Includes(line, "plugin_") {
      var title := Substring(line, IndexOf(line, "plugin_"), |line|);
      r := Ok(State(st.output + "\n" + title + "\n", ReplaceFirst(line, ":", "")));
    } else {
      r := Ok(st);
    }
  }

  /** The main loop of the translator, over the lines read as `ls`. */
  method TranslateLines(lines: seq<string>, table: Table, ghost ls: seq<Line>) returns (r: Result<State>)
    requires Parsed(lines, ls)
    ensures r == RunPrefix(ls, table, |ls|)
  {
    var st := Init;
    var i := 0;
    while i < |lines|
      invariant 0 <= i <= |lines|
      invariant RunPrefix(ls, table, i) == Ok(st)
    {
      var next := TranslateLine(st, lines, i, table, ls);
      RunStep(ls, table, i);
      if next.Err? {
        RunStops(ls, table, i, st);
        return next;
      }
      st := next.value;
      i := i + 1;
    }
    assert i == |ls|;
    r := Ok(st);
  }

  /** The translator on a listing: the main loop with the variables it starts from. */
  method Translate(lines: seq<string>, table: Table) returns (r: Result<State>)
    ensures r == Run(lines, table)
  {
    ParseAllParsed(lines);
    r := TranslateLines(lines, table, ParseAll(lines));
  }
}
