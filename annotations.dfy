/**
 * What the two translators share: the lookback that reads the declaring name
 * from the line above an annotation, the `assertAddress`/`assertDyn` checks,
 * the generic argument list, the symbol named by a `gaddrof(...)` argument, and
 * the opcode record both render (0AA5 call_function, 0AA6 call_method, 0AA7
 * call_function_return, 0AA8 call_method_return).
 */
module Annotations {
  import opened Results
  import opened JsText
  import opened Brackets

  /** The name printed for an annotation and the struct that declares it ("" for a free function). */
  datatype Decl = Decl(name: string, className: string)

  /**
   * The lookback on the previous line: with `::`, the struct is the last
   * space-separated word before the first `::` and the method is the text after
   * it up to `(`; otherwise the name is the last word before the first `(`; a
   * line with neither is not callable and the annotation is skipped.
   */
  function DeclName(prev: string): (r: Option<Decl>)
    ensures r.None? <==> !Includes(prev, "::") && !Includes(prev, "(")
    ensures r.Some? && r.value.className != "" ==> Includes(prev, "::")
  {
    if Includes(prev, "::") then
      var pieces := Split(prev, "::");
      var className := Last(Split(pieces[0], " "));
      Some(Decl(className + "::" + Split(pieces[1], "(")[0], className))
    else if !Includes(prev, "(") then None
    else Some(Decl(Trim(Last(Split(Split(prev, "(")[0], " "))), ""))
  }

  lemma LastPieceSuffix(head: string, sp: char)
    ensures var c := Last(Split(head, [sp])); |c| <= |head| && c == head[|head| - |c|..]
  {
    SplitLast(head, [sp]);
  }

  lemma LastPieceFree(head: string, sp: char)
    ensures sp !in Last(Split(head, [sp]))
  {
    var words := Split(head, [sp]);
    SplitPiecesFree(head, [sp], |words| - 1);
    IncludesChar(Last(words), sp);
  }

  lemma LastPieceAfterSep(head: string, sp: char)
    ensures var c := Last(Split(head, [sp])); |c| <= |head| && (|c| == |head| || head[|head| - |c| - 1] == sp)
  {
    var c := Last(Split(head, [sp]));
    SplitLast(head, [sp]);
    var pre := head[..|head| - |c|];
    if pre != [] {
      assert pre[|pre| - 1..] == [sp];
      assert head[|head| - |c| - 1] == pre[|pre| - 1];
    }
  }

  /** `c` is the last `sp`-separated word of `head`: an `sp`-free suffix, at the start or after an `sp`. */
  predicate IsLastWord(head: string, c: string, sp: char) {
    |c| <= |head| && c == head[|head| - |c|..] && sp !in c && (|c| == |head| || head[|head| - |c| - 1] == sp)
  }

  lemma LastPiece(head: string, sp: char)
    ensures IsLastWord(head, Last(Split(head, [sp])), sp)
  {
    LastPieceSuffix(head, sp);
    LastPieceFree(head, sp);
    LastPieceAfterSep(head, sp);
  }

  /** `split(" ").at(-1)` is the last space-separated word. */
  lemma LastWord(head: string)
    ensures IsLastWord(head, Last(Split(head, " ")), ' ')
  {
    LastPiece(head, ' ');
  }

  /**
   * The struct name is the space-free word that ends exactly at the first `::`
   * of the previous line and starts at the line's start or after a space.
   */
  lemma DeclClassName(prev: string)
    requires Includes(prev, "::")
    ensures var k := IndexOf(prev, "::"); var c := DeclName(prev).value.className;
      |c| <= k && c == prev[k - |c|..k] && ' ' !in c && (|c| == k || prev[k - |c| - 1] == ' ')
  {
    var k := IndexOf(prev, "::");
    var head := prev[..k];
    assert Split(prev, "::")[0] == head;
    assert DeclName(prev).value.className == Last(Split(head, " "));
    LastWord(head);
  }

  /** `assertAddress`: an address must start with "0x". */
  predicate IsAddress(s: string) {
    StartsWith(s, "0x")
  }

  /**
   * The generic argument at position `k` checked by `assertAddress`; reading a
   * position the list does not have gives `undefined`, on which `startsWith`
   * raises a TypeError.
   */
  function AddressAt(types: seq<string>, k: nat): (r: Result<string>)
    ensures r.Ok? <==> k < |types| && IsAddress(types[k])
    ensures r.Ok? ==> r.value == types[k]
    ensures k >= |types| ==> r == Err(TypeError(UndefinedAddress))
    ensures k < |types| && !IsAddress(types[k]) ==> r == Err(InvalidAddress(types[k]))
  {
    if k >= |types| then Err(TypeError(UndefinedAddress))
    else if !IsAddress(types[k]) then Err(InvalidAddress(types[k]))
    else Ok(types[k])
  }

  /** `between(line, "<", ">").split(",").map((p) => p.trim())`. */
  function GenericArgs(line: string): (types: seq<string>)
    ensures |types| >= 1
  {
    MapTrim(Split(Between(line, '<', '>'), ","))
  }

  /** The symbol of a `gaddrof(...)` argument: the first comma piece inside its parentheses. */
  function IndirectName(gaddrof: string): (name: string)
    ensures !Includes(name, ",")
  {
    SplitPiecesFree(Between(gaddrof, '(', ')'), ",", 0);
    Split(Between(gaddrof, '(', ')'), ",")[0]
  }

  /** `assertDyn`: the line must mention `gaddrof`. */
  function CheckDyn(line: string): (r: Result<()>)
    ensures r.Ok? <==> Includes(line, "gaddrof")
    ensures r.Err? ==> r.error == WrongLine(line)
  {
    if Includes(line, "gaddrof") then Ok(()) else Err(WrongLine(line))
  }

  /** `xs.slice(k)`: empty when `k` is past the end. */
  function Drop<T>(xs: seq<T>, k: nat): (r: seq<T>)
    ensures |r| == if k <= |xs| then |xs| - k else 0
    ensures forall i :: 0 <= i < |r| ==> r[i] == xs[k + i]
  {
    if k <= |xs| then xs[k..] else []
  }

  /** One emitted opcode: the arguments of `_0AA5` .. `_0AA8`. */
  datatype Opcode =
    | CallFunction(address: string, params: seq<string>, pop: nat)
    | CallMethod(address: string, className: string, params: seq<string>)
    | CallFunctionReturn(address: string, params: seq<string>, ret: string, pop: nat)
    | CallMethodReturn(address: string, className: string, params: seq<string>, ret: string)

  /**
   * What every emitted opcode satisfies: a `0x` address; a method form names its
   * struct; a function form pops nothing (stdcall) or all its params (cdecl).
   * Method forms carry no pop: they always print `pop 0` (thiscall).
   */
  predicate WellFormed(op: Opcode) {
    IsAddress(op.address)
    && (op.CallMethod? || op.CallMethodReturn? ==> op.className != "")
    && (op.CallFunction? || op.CallFunctionReturn? ==> op.pop == 0 || op.pop == |op.params|)
  }

  /** One dispatch `if` on an annotation line: not taken, taken and emitting, or ending in `continue`. */
  datatype Stage = Skip | Emit(op: Opcode) | Continue

  /** The opcodes an annotation line emitted, and whether a `continue` cut the line short. */
  datatype Flow = Flow(ops: seq<Opcode>, stopped: bool)

  /**
   * The dispatch `if`s run in order: a thrown error ends the run, a `continue`
   * drops every later `if`, and the opcodes are emitted in the order of the `if`s.
   * Each stage is passed already evaluated; a stage after a `continue` is ignored,
   * which is what not running it amounts to.
   */
  function Chain(stages: seq<Result<Stage>>): (r: Result<Flow>)
    ensures r.Ok? ==> |r.value.ops| <= |stages|
  {
    if stages == [] then Ok(Flow([], false))
    else if stages[0].Err? then Err(stages[0].error)
    else match stages[0].value
      case Skip => Chain(stages[1..])
      case Continue => Ok(Flow([], true))
      case Emit(op) =>
        var rest :- Chain(stages[1..]);
        Ok(Flow([op] + rest.ops, rest.stopped))
  }

  /**
   * The `if`s run in order: after a first group of stages that neither throws nor
   * ends in `continue`, the next group throws its own error, or appends its opcodes
   * to the first group's.
   */
  lemma {:induction false} ChainAppend(a: seq<Result<Stage>>, b: seq<Result<Stage>>)
    requires Chain(a).Ok? && !Chain(a).value.stopped
    ensures Chain(b).Err? ==> Chain(a + b) == Chain(b)
    ensures Chain(b).Ok? ==> Chain(a + b) == Ok(Flow(Chain(a).value.ops + Chain(b).value.ops, Chain(b).value.stopped))
  {
    if a == [] {
      assert a + b == b;
      assert Chain(a).value.ops == [];
      if Chain(b).Ok? {
        assert [] + Chain(b).value.ops == Chain(b).value.ops;
      }
    } else {
      var t := a[1..];
      assert (a + b)[0] == a[0];
      assert (a + b)[1..] == t + b;
      assert a[0].Ok? && !a[0].value.Continue?;
      ChainAppend(t, b);
      if a[0].value.Emit? {
        var op := a[0].value.op;
        assert Chain(a).value.ops == [op] + Chain(t).value.ops;
        if Chain(b).Ok? {
          assert [op] + (Chain(t).value.ops + Chain(b).value.ops) == ([op] + Chain(t).value.ops) + Chain(b).value.ops;
        }
      } else {
        assert Chain(a) == Chain(t);
      }
    }
  }

  /** One stage on its own: not taken, a single opcode, or a `continue` with nothing emitted. */
  lemma ChainSingle(s: Result<Stage>)
    ensures s.Err? ==> Chain([s]) == Err(s.error)
    ensures s == Ok(Skip) ==> Chain([s]) == Ok(Flow([], false))
    ensures s == Ok(Continue) ==> Chain([s]) == Ok(Flow([], true))
    ensures s.Ok? && s.value.Emit? ==> Chain([s]) == Ok(Flow([s.value.op], false))
  {
    assert [s][1..] == [];
    if s.Ok? && s.value.Emit? {
      assert Chain([s][1..]) == Ok(Flow([], false));
      assert [s.value.op] + [] == [s.value.op];
    }
  }

  /** Stages that only emit well-formed opcodes make a line whose opcodes are all well-formed. */
  lemma {:induction false} ChainWellFormed(stages: seq<Result<Stage>>)
    requires forall k :: 0 <= k < |stages| && stages[k].Ok? && stages[k].value.Emit? ==> WellFormed(stages[k].value.op)
    ensures Chain(stages).Ok? ==> forall op :: op in Chain(stages).value.ops ==> WellFormed(op)
  {
    if stages != [] && stages[0].Ok? && !stages[0].value.Continue? {
      assert forall k :: 0 <= k < |stages| - 1 ==> stages[1..][k] == stages[k + 1];
      ChainWellFormed(stages[1..]);
    }
  }

  /**
   * A `continue` ends the line: nothing after it is run, so no later stage can
   * emit or throw, and the line is marked as cut short.
   */
  lemma {:induction false} ChainCut(stages: seq<Result<Stage>>, k: nat)
    requires k < |stages| && stages[k] == Ok(Continue)
    ensures Chain(stages) == Chain(stages[..k + 1])
    ensures Chain(stages).Ok? ==> Chain(stages).value.stopped
  {
    if k > 0 {
      assert stages[1..][..k] == stages[..k + 1][1..];
      ChainCut(stages[1..], k - 1);
    }
  }

  /** A line on which no stage is taken emits nothing and is not cut short. */
  lemma {:induction false} ChainNoneTaken(stages: seq<Result<Stage>>)
    requires forall k :: 0 <= k < |stages| ==> stages[k] == Ok(Skip)
    ensures Chain(stages) == Ok(Flow([], false))
  {
    if stages != [] {
      assert forall k :: 0 <= k < |stages| - 1 ==> stages[1..][k] == stages[k + 1];
      ChainNoneTaken(stages[1..]);
    }
  }

  /** The `if` of `0AA5`: `plugin::Call<` or `plugin::CallStd<`. */
  predicate IsCall(line: string) {
    Includes(line, "plugin::Call<") || Includes(line, "plugin::CallStd<")
  }

  /** The `if` of the direct `0AA7`: `plugin::CallAndReturn<` or `plugin::CallStdAndReturn<`. */
  predicate IsCallAndReturn(line: string) {
    Includes(line, "plugin::CallAndReturn<") || Includes(line, "plugin::CallStdAndReturn<")
  }

  /**
   * `0AA5`: the address is the first generic argument and is checked before the
   * parameters are read; cdecl pops as many as it passes, stdcall pops none.
   */
  function CallStage(line: string, types: seq<string>, params: Result<seq<string>>): (r: Result<Stage>)
  {
    if !IsCall(line) then Ok(Skip)
    else
      var address :- AddressAt(types, 0);
      var ps :- params;
      Ok(Emit(CallFunction(address, ps, if Includes(line, "plugin::CallStd<") then 0 else |ps|)))
  }

  lemma CallStageSpec(line: string, types: seq<string>, params: Result<seq<string>>)
    ensures var r := CallStage(line, types, params);
      (!IsCall(line) ==> r == Ok(Skip))
      && (IsCall(line) && AddressAt(types, 0).Err? ==> r == Err(AddressAt(types, 0).error))
      && (IsCall(line) ==> (r.Ok? <==> AddressAt(types, 0).Ok? && params.Ok?))
      && (IsCall(line) && AddressAt(types, 0).Ok? && params.Err? ==> r == Err(params.error))
      && (IsCall(line) && r.Ok? ==>
            r.value.Emit? && WellFormed(r.value.op)
            && r.value.op == CallFunction(types[0], params.value, if Includes(line, "plugin::CallStd<") then 0 else |params.value|))
  {
  }

  /** The direct `0AA7`: `[ret, address] = types`, with the pop rule of `0AA5`. */
  function CallAndReturnStage(line: string, types: seq<string>, params: Result<seq<string>>): (r: Result<Stage>)
    requires |types| >= 1
  {
    if !IsCallAndReturn(line) then Ok(Skip)
    else
      var address :- AddressAt(types, 1);
      var ps :- params;
      Ok(Emit(CallFunctionReturn(address, ps, types[0], if Includes(line, "plugin::CallStdAndReturn<") then 0 else |ps|)))
  }

  lemma CallAndReturnStageSpec(line: string, types: seq<string>, params: Result<seq<string>>)
    requires |types| >= 1
    ensures var r := CallAndReturnStage(line, types, params);
      (!IsCallAndReturn(line) ==> r == Ok(Skip))
      && (IsCallAndReturn(line) && AddressAt(types, 1).Err? ==> r == Err(AddressAt(types, 1).error))
      && (IsCallAndReturn(line) ==> (r.Ok? <==> AddressAt(types, 1).Ok? && params.Ok?))
      && (IsCallAndReturn(line) && AddressAt(types, 1).Ok? && params.Err? ==> r == Err(params.error))
      && (IsCallAndReturn(line) && r.Ok? ==>
            r.value.Emit? && WellFormed(r.value.op)
            && r.value.op == CallFunctionReturn(types[1], params.value, types[0],
                 if Includes(line, "plugin::CallStdAndReturn<") then 0 else |params.value|))
  {
  }

  /**
   * `0AA6`: the first parameter is `this` and is dropped; a declaration without
   * a struct is reported and the rest of the line is skipped.
   */
  function CallMethodStage(line: string, types: seq<string>, className: string, params: Result<seq<string>>): (r: Result<Stage>)
  {
    if !Includes(line, "plugin::CallMethod<") then Ok(Skip)
    else
      var address :- AddressAt(types, 0);
      var ps :- params;
      if className == "" then Ok(Continue)
      else Ok(Emit(CallMethod(address, className, Drop(ps, 1))))
  }

  lemma CallMethodStageSpec(line: string, types: seq<string>, className: string, params: Result<seq<string>>)
    ensures var r := CallMethodStage(line, types, className, params);
      (!Includes(line, "plugin::CallMethod<") ==> r == Ok(Skip))
      && (Includes(line, "plugin::CallMethod<") && AddressAt(types, 0).Err? ==> r == Err(AddressAt(types, 0).error))
      && (Includes(line, "plugin::CallMethod<") ==> (r.Ok? <==> AddressAt(types, 0).Ok? && params.Ok?))
      && (Includes(line, "plugin::CallMethod<") && AddressAt(types, 0).Ok? && params.Err? ==> r == Err(params.error))
      && (Includes(line, "plugin::CallMethod<") && r.Ok? ==> !r.value.Skip? && (r.value.Continue? <==> className == ""))
      && (Includes(line, "plugin::CallMethod<") && r.Ok? && r.value.Emit? ==>
            WellFormed(r.value.op) && r.value.op == CallMethod(types[0], className, Drop(params.value, 1)))
  {
  }

  /** `0AA8`: `[ret, address] = types`, `this` dropped, skipped without a struct. */
  function CallMethodAndReturnStage(line: string, types: seq<string>, className: string, params: Result<seq<string>>): (r: Result<Stage>)
    requires |types| >= 1
  {
    if !Includes(line, "plugin::CallMethodAndReturn<") then Ok(Skip)
    else
      var address :- AddressAt(types, 1);
      var ps :- params;
      if className == "" then Ok(Continue)
      else Ok(Emit(CallMethodReturn(address, className, Drop(ps, 1), types[0])))
  }

  lemma CallMethodAndReturnStageSpec(line: string, types: seq<string>, className: string, params: Result<seq<string>>)
    requires |types| >= 1
    ensures var r := CallMethodAndReturnStage(line, types, className, params);
      (!Includes(line, "plugin::CallMethodAndReturn<") ==> r == Ok(Skip))
      && (Includes(line, "plugin::CallMethodAndReturn<") && AddressAt(types, 1).Err? ==> r == Err(AddressAt(types, 1).error))
      && (Includes(line, "plugin::CallMethodAndReturn<") ==> (r.Ok? <==> AddressAt(types, 1).Ok? && params.Ok?))
      && (Includes(line, "plugin::CallMethodAndReturn<") && AddressAt(types, 1).Ok? && params.Err? ==> r == Err(params.error))
      && (Includes(line, "plugin::CallMethodAndReturn<") && r.Ok? ==> !r.value.Skip? && (r.value.Continue? <==> className == ""))
      && (Includes(line, "plugin::CallMethodAndReturn<") && r.Ok? && r.value.Emit? ==>
            WellFormed(r.value.op) && r.value.op == CallMethodReturn(types[1], className, Drop(params.value, 1), types[0]))
  {
  }

  /** The four direct call forms, whose address is a generic argument. */
  datatype Form = CallForm | CallAndReturnForm | CallMethodForm | CallMethodAndReturnForm

  /** The dispatch `if` of one direct form. */
  function DirectStage(f: Form, line: string, types: seq<string>, className: string, params: Result<seq<string>>): Result<Stage>
    requires |types| >= 1
  {
    match f
    case CallForm => CallStage(line, types, params)
    case CallAndReturnForm => CallAndReturnStage(line, types, params)
    case CallMethodForm => CallMethodStage(line, types, className, params)
    case CallMethodAndReturnForm => CallMethodAndReturnStage(line, types, className, params)
  }

  /** Whatever the line, a direct stage that emits emits a well-formed opcode. */
  lemma DirectStageWellFormed(f: Form, line: string, types: seq<string>, className: string, params: Result<seq<string>>)
    requires |types| >= 1
    ensures var r := DirectStage(f, line, types, className, params);
      r.Ok? && r.value.Emit? ==> WellFormed(r.value.op)
  {
    match f
    case CallForm => CallStageSpec(line, types, params);
    case CallAndReturnForm => CallAndReturnStageSpec(line, types, params);
    case CallMethodForm => CallMethodStageSpec(line, types, className, params);
    case CallMethodAndReturnForm => CallMethodAndReturnStageSpec(line, types, className, params);
  }

  /**
   * The indirect forms come in two halves: what the line alone decides, and the
   * symbol lookup in the current scope, which needs the translator's state.
   */
  datatype DynForm =
    | FunctionReturnForm(params: seq<string>, ret: string)
    | MethodForm(className: string, params: seq<string>)
    | MethodReturnForm(className: string, params: seq<string>, ret: string)

  /** A dispatch `if` as the line decides it: settled, or waiting for an address lookup. */
  datatype Plan = Ready(stage: Result<Stage>) | Lookup(gaddrof: string, form: DynForm)

  /**
   * What an indirect form does once its address is found: a function return
   * pops all its parameters (no pop is passed, so it defaults to the count);
   * a method form without a struct is reported and the line is cut short.
   */
  function Complete(form: DynForm, address: string): (r: Stage)
    ensures IsAddress(address) && r.Emit? ==> WellFormed(r.op)
    ensures r.Continue? <==> !form.FunctionReturnForm? && form.className == ""
    ensures r.Emit? ==> r.op.address == address && r.op.params == form.params
  {
    match form
    case FunctionReturnForm(ps, ret) => Emit(CallFunctionReturn(address, ps, ret, |ps|))
    case MethodForm(c, ps) => if c == "" then Continue else Emit(CallMethod(address, c, ps))
    case MethodReturnForm(c, ps, ret) => if c == "" then Continue else Emit(CallMethodReturn(address, c, ps, ret))
  }

  /** The reading of the first parameter: `undefined.startsWith` throws on an empty list. */
  predicate Indirect(ps: seq<string>)
    requires ps != []
  {
    StartsWith(ps[0], "gaddrof")
  }

  /**
   * `CallMethodAndReturnDynGlobal`: the line must mention `gaddrof` (checked
   * before the parameters are read) and the first parameter must be
   * `gaddrof(...)`, otherwise the run throws; `this` and that argument are dropped.
   */
  function DynMethodReturnPlan(line: string, types: seq<string>, className: string, params: Result<seq<string>>): Plan
    requires |types| >= 1
  {
    if !Includes(line, "plugin::CallMethodAndReturnDynGlobal") then Ready(Ok(Skip))
    else if CheckDyn(line).Err? then Ready(Err(CheckDyn(line).error))
    else if params.Err? then Ready(Err(params.error))
    else if params.value == [] then Ready(Err(TypeError(UndefinedFirstParam)))
    else if !Indirect(params.value) then Ready(Err(NotIndirect(line)))
    else Lookup(params.value[0], MethodReturnForm(className, Drop(params.value, 2), types[0]))
  }

  /** A plan that is already settled emits only well-formed opcodes. */
  predicate PlanSafe(p: Plan) {
    p.Ready? && p.stage.Ok? && p.stage.value.Emit? ==> WellFormed(p.stage.value.op)
  }

  /** `lines[i - 1]`: the line above an annotation, `undefined` on the first line. */
  function Prev(lines: seq<string>, i: nat): Option<string>
    requires i <= |lines|
  {
    if i == 0 then None else Some(lines[i - 1])
  }
}
