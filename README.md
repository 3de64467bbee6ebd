# cpp2cleo in Dafny

cpp2cleo turns a listing of plugin-sdk C++ declarations into CLEO script opcodes.
Each declaration in the listing is followed by its `plugin::Call...` annotation,
and the annotation holds the address of the game function. The opcodes are
`0AA5 call_function`, `0AA6 call_method`, `0AA7 call_function_return` and
`0AA8 call_method_return`.

The repository holds three scripts. This project models the same three:

- `addr.js` loads an address table. It reads a listing in which each scope line
  is followed by `name: address` entries, and builds the nested map
  scope → name → address. In `AddrTable`, `BuildTable` is the loop; `Load` and
  `LoadPrefix` are the functions that specify it.
- `src/index.js` is the newer translator. It writes a Markdown document with a
  table of contents, which it then converts to HTML with the showdown library;
  the model stops at the Markdown text. For each annotation it writes a heading, a `<pre>` block
  with the annotation text, and the opcode line. It skips the generic argument
  list before it reads the parameters. It drops empty parameters. It resolves
  the three `...DynGlobal` forms through the address table. It switches
  annotations off in the `plugin_II` namespace. This is `HtmlTranslator`.
- `cpp2cleo.js` is the older translator. It writes a plain text with a comment
  and the opcode line for each annotation. It knows one indirect form. This is
  `CleoTranslator`.

The modules that support them:

- `JsText` models the JavaScript string built-ins the scripts rely on. They are
  `indexOf`, `lastIndexOf`, clamping `substring`, `split`, `join`, `trim`,
  `replace` with a string pattern, `filter(Boolean)`, and `Number` coercion.
  Only the sign of the coerced number matters here.
- `Brackets` models `between`, the comma split at parenthesis depth 0, and the
  scan for the `>` that closes the generic list.
- `Annotations` holds what both translators share:
  - the lookback that reads the declaring name and struct from the line above;
  - `assertAddress` and `assertDyn`;
  - the opcode record;
  - each dispatch `if` of the main loop, as a stage: not taken, emitting, or
    ending the line with `continue`.
- `Results` holds `Option`, `Result` and the errors a run can end with. Every
  `throw`, and every JavaScript TypeError on `undefined`, becomes an `Err` that
  ends the whole run.

Each translator follows the same plan:

- `Step` is one iteration of the main loop on a parsed line. `RunPrefix` and
  `Run` fold it over the lines.
- The methods `TranslateAnnotation`, `TranslateLine`, `TranslateLines` and
  `Translate` carry out the loop imperatively. Each is proved equal to that
  function.
- The lemmas state what a run promises:
  - the output only grows;
  - an error ends the run;
  - the `<pre>`/`plugin_II` state invariant holds;
  - every emitted opcode has a `0x` address, names its struct when it is a
    method, and pops 0 or all its parameters;
  - what each kind of header and annotation writes.

The `num_params < 0` test in `getParams` is applied to the array of raw segments
and not to its length. JavaScript coerces that array to the number its
comma-joined text denotes. So a lone negative literal argument, as in `f(-1)`,
makes the run throw (`ParamsOfMinusOne`), and a list with a comma never does
(`ParamsFails`, `ParamsSpec`). The model follows the code here.

## Model

| member | source | states |
|---|---|---|
| JsText.IndexOf | src/index.js:246 | `indexOf` gives -1 or an index whose match fits inside the text |
| JsText.IndexOfSpec | src/index.js:246 | `indexOf` gives the first index where the pattern occurs, and -1 exactly when it occurs nowhere |
| JsText.IndexOfSplits | src/index.js:38 | around its first occurrence the text is the part before it, the pattern and the part after it |
| JsText.IncludesChar | src/index.js:28 | for one character, `includes` is membership |
| JsText.LastIndexOfSpec | src/index.js:246 | `lastIndexOf` gives the last index of the character, and -1 exactly when it is absent |
| JsText.Substring | src/index.js:246 | within the text, `substring` is the slice between its bounds, swapped when start > end |
| JsText.SubstringClamps | src/index.js:246 | out of range, a negative bound counts as 0 and one past the end as the length, so `substring(k, -1)` is the prefix before k |
| JsText.SplitFirst | src/index.js:23 | without the separator the text is the only piece; otherwise the first piece ends at the first occurrence |
| JsText.SplitJoin | src/index.js:42 | joining the pieces of a split with the same separator gives back the text |
| JsText.SplitPiecesFree | src/index.js:254 | no piece of a split contains the separator |
| JsText.SplitLast | src/index.js:24 | the last piece of a split is a suffix of the text, and what precedes it is empty or ends with the separator |
| JsText.TrimStartSpec | src/index.js:38 | `trimStart` removes only leading white space, and what it keeps does not start with white space |
| JsText.TrimEndSpec | src/index.js:42 | `trimEnd` removes only trailing white space, and what it keeps does not end with white space |
| JsText.TrimSpec | src/index.js:42 | a trimmed text neither starts nor ends with white space; a text without white space is its own trim |
| JsText.TrimKeeps | src/index.js:42 | trimming keeps every character that is not white space |
| JsText.MapTrimAt | src/index.js:236 | `map(trim)` keeps the length and trims each element in place |
| JsText.FilterNonEmptySpec | src/index.js:236 | `filter(Boolean)` keeps exactly the non-empty strings (as a set); it is the identity when none is empty |
| JsText.FilterNonEmptySingle | src/index.js:236 | a single string is kept exactly when it is non-empty |
| JsText.FilterNonEmptyAppend | src/index.js:236 | the filter of a concatenation is the concatenation of the filters; with the single case this fixes order and repetitions |
| JsText.ReplaceFirstSpec | src/index.js:138 | `replace` with a string pattern changes only the first occurrence, and nothing when there is none |
| JsText.NatToStringValue | src/index.js:264 | the numeral printed for `params.length` reads back as that count |
| JsText.DigitRunSpec | src/index.js:240 | the digit run is the longest prefix made of decimal digits |
| JsText.CommaNeverNegative | src/index.js:240 | a text containing a comma never coerces to a negative number (it is NaN) |
| JsText.MinusOneIsNegative | src/index.js:240 | "-1" coerces to a negative number |
| JsText.MinusZeroIsNotNegative | src/index.js:240 | "-0" does not coerce to a negative number |
| JsText.EmptyIsNotNegative | src/index.js:240 | "" coerces to 0, which is not negative |
| Brackets.BetweenSplit | src/index.js:245-247 | with the first `open` and the last `close` around `m`, `between` gives `m` |
| Brackets.BetweenNoClose | src/index.js:245-247 | with no closing character, the end bound -1 clamps to 0, so `between` gives the text up to and including `open` |
| Brackets.BetweenCrossed | src/index.js:245-247 | when the last `close` precedes the first `open`, the bounds swap |
| Brackets.BetweenNested | src/index.js:245-247 | the first `(` and the last `)` are the pair used, so inner parentheses are kept |
| Brackets.SegmentsJoin | src/index.js:216-233 | joining the depth-0 segments with "," gives back the parameter text |
| Brackets.SegmentsCount | src/index.js:216-233 | there is one more segment than there are commas at depth 0 |
| Brackets.SegmentsBoundary | src/index.js:226-229 | each cut between two segments is a comma at parenthesis depth 0 |
| Brackets.SegmentsExample | src/index.js:216-233 | in `a(b,c),d`, for any characters that neither nest nor cut, the comma inside the inner parentheses does not cut and the one after them does |
| Brackets.SplitTopLevel | src/index.js:216-233 | the split loop yields exactly the depth-0 segments |
| Brackets.GenericClose | src/index.js:200-213 | the result is the first `>` that brings the angle count back to 0, and -1 exactly when there is none |
| Brackets.FindGenericClose | src/index.js:200-213 | the loop that breaks at the closing `>` finds the same position |
| Annotations.DeclName | src/index.js:22-33 | the annotation is skipped exactly when the line above has neither `::` nor `(`; a struct name needs `::` |
| Annotations.DeclClassName | src/index.js:24 | the struct is the last space-separated word just before the first `::` |
| Annotations.LastWord | src/index.js:32 | `split(" ").at(-1)` is the suffix after the last space |
| Annotations.AddressAt | src/index.js:186-190 | the generic argument is accepted exactly when it exists and starts with `0x`; otherwise a TypeError or "address must start with 0x" |
| Annotations.GenericArgs | src/index.js:41-42 | splitting the generic list always gives at least one argument |
| Annotations.IndirectName | src/index.js:254 | the symbol named by `gaddrof(...)` contains no comma |
| Annotations.CheckDyn | src/index.js:192-196 | `assertDyn` passes exactly when the line mentions `gaddrof`, and otherwise throws with the line |
| Annotations.Drop | src/index.js:68 | `slice(k)` keeps the elements from index k on, and is empty past the end |
| Annotations.Chain | src/index.js:44-132 | an annotation emits at most one opcode per dispatch `if` |
| Annotations.ChainAppend | src/index.js:44-132 | the `if`s run in order: after stages that neither throw nor `continue`, the next ones throw their own error or append their opcodes after the earlier ones |
| Annotations.ChainSingle | src/index.js:44-132 | one `if` on its own throws its error, emits nothing when not taken, its one opcode when taken, or cuts the line short on `continue` |
| Annotations.ChainCut | src/index.js:70-73 | after a `continue` no later `if` counts, and the line is marked as cut short |
| Annotations.ChainNoneTaken | src/index.js:44-132 | when no `if` is taken, nothing is emitted and the line goes on to its final newline |
| Annotations.ChainWellFormed | src/index.js:44-132 | when every emitting stage is well formed, so is every emitted opcode |
| Annotations.CallStageSpec | src/index.js:46-53 | `Call<`/`CallStd<`: an address error throws; otherwise 0AA5 with the address, the params and pop 0 (stdcall) or the count (cdecl); with a good address, an error of `getParams` is what is thrown |
| Annotations.CallAndReturnStageSpec | src/index.js:56-63 | `CallAndReturn<`/`CallStdAndReturn<`: the address is the second generic argument and the return the first; pop as for 0AA5; with a good address, an error of `getParams` is what is thrown |
| Annotations.CallMethodStageSpec | src/index.js:65-75 | `CallMethod<`: `this` is dropped; without a struct the line is cut short, otherwise 0AA6; with a good address, an error of `getParams` is what is thrown |
| Annotations.CallMethodAndReturnStageSpec | src/index.js:77-86 | `CallMethodAndReturn<`: as 0AA6 with the return type, giving 0AA8; with a good address, an error of `getParams` is what is thrown |
| Annotations.DirectStageWellFormed | src/index.js:46-86 | every opcode a direct form emits is well formed |
| Annotations.Complete | src/index.js:95-131 | an indirect form emits with the looked-up address and its params, and is cut short exactly when it is a method form without a struct |
| AddrTable.ParseAll | addr.js:9-12 | one parsed line per line of the listing |
| AddrTable.ParseAllAt | addr.js:10 | the i-th parsed line is the reading of the i-th line of the listing |
| AddrTable.ParseScope | addr.js:10-15 | a line whose trimmed text has no colon is the scope named by that text |
| AddrTable.ParseBlank | addr.js:10-15 | a line of white space only trims to "" and is read as the scope "" |
| AddrTable.ParseMalformed | addr.js:11-12 | a line with a colon but no `": "` is an entry named by the whole trimmed line, with address `undefined` |
| AddrTable.ParseEntry | addr.js:11-12 | `name: addr`, with `": "` in neither part, is the entry of `name` with address `addr` |
| AddrTable.ParseEntryRest | addr.js:11-12 | in `name: addr: rest` the pieces after the second are dropped |
| JsText.IndexOfAfter | addr.js:12 | in `x + sep + y`, for a two-character separator of distinct characters absent from `x`, the first occurrence is right after `x` |
| JsText.SplitAfter | addr.js:12 | under the same conditions, `split(sep)` gives `x` and then the pieces of `y` |
| JsText.TrimBlank | addr.js:10 | a text of white space only trims to "" |
| AddrTable.LoadErrorSticks | addr.js:13 | once the loader has thrown, later lines change nothing |
| AddrTable.LoadStops | addr.js:13 | the first failing line's error is the run's result |
| AddrTable.BuildTable | addr.js:7-18 | the loop builds exactly the table `Load` defines, or fails with its error |
| AddrTable.ScopeNamesStep | addr.js:14-16 | each scope line adds its name to the set of scopes |
| AddrTable.LoadPrefixShape | addr.js:7-18 | the table's scopes are exactly the scope lines read so far, and the current scope is one of them once one was read |
| AddrTable.LoadPrefixFails | addr.js:13 | loading fails exactly when an entry comes before any scope line |
| AddrTable.LoadKeys | addr.js:14-16 | the loaded table has one key per scope line |
| AddrTable.LoadFails | addr.js:11-13 | the whole load fails exactly when an entry precedes every scope line |
| AddrTable.EntryStores | addr.js:12-13 | an entry stores its address under its name in the current scope and changes nothing else |
| AddrTable.EntryNeedsScope | addr.js:13 | an entry with no current scope is a TypeError |
| AddrTable.ScopeResets | addr.js:14-16 | a scope line makes an empty scope current, replacing one of the same name, and leaves the other scopes alone |
| HtmlTranslator.ParamsWindow | src/index.js:214 | the parameter text is `between` on what follows the closing `>`, or on the whole line when nothing closes |
| HtmlTranslator.NoGenericClose | src/index.js:200-213 | a line without `>` has no generic close |
| HtmlTranslator.ParamsFails | src/index.js:234-243 | the count test throws exactly when the parameter text coerces to a negative number, so never with a comma |
| HtmlTranslator.ParamsFiltered | src/index.js:236 | every parameter is a trimmed raw segment that was not empty |
| HtmlTranslator.ParamsOfEmpty | src/index.js:236 | `f()` has no parameters |
| HtmlTranslator.ParamsOfBlank | src/index.js:236 | `f( )` has one, the empty string, because filtering comes before trimming |
| HtmlTranslator.ParamsOfMinusOne | src/index.js:239-243 | `f(-1)` makes the count test throw |
| HtmlTranslator.GetParams | src/index.js:198-237 | the two loops and the filtering compute `Params` |
| HtmlTranslator.FindAddressByName | src/index.js:253-261 | the lookup succeeds exactly when the symbol has a truthy `0x` address in the current scope; an absent one is "not defined", one without `0x` is "address must start with 0x" |
| HtmlTranslator.ResolveAll | src/index.js:88-132 | the dispatch `if`s are resolved one for one |
| HtmlTranslator.ResolveAllAt | src/index.js:88-132 | each resolved `if` is the resolution of its own plan |
| HtmlTranslator.DynReturnSpec | src/index.js:88-98 | `CallAndReturnDynGlobal`: a non-`gaddrof` first param cuts the line short; otherwise 0AA7 with the looked-up address, the rest of the params and pop equal to their count |
| HtmlTranslator.DynMethodSpec | src/index.js:100-114 | `CallMethodDynGlobal`: as above without `assertDyn`, `this` and the address dropped, 0AA6 needing a struct |
| HtmlTranslator.DynMethodReturnSpec | src/index.js:116-132 | `CallMethodAndReturnDynGlobal`: no `gaddrof` on the line or in the first param throws; otherwise 0AA8 with the looked-up address |
| HtmlTranslator.PlansOf | src/index.js:44-132 | one plan per dispatch `if` |
| HtmlTranslator.Plans | src/index.js:44-132 | an annotation passes through the seven dispatch `if`s |
| HtmlTranslator.ResolveSafe | src/index.js:95-131 | resolving a safe plan emits only well-formed opcodes |
| HtmlTranslator.ResolveAllSafe | src/index.js:88-132 | the same over every plan of a line |
| HtmlTranslator.DynPlansSafe | src/index.js:88-132 | the three indirect plans are safe |
| HtmlTranslator.PlanForSafe | src/index.js:44-132 | every dispatch `if`'s plan is safe |
| HtmlTranslator.PlansOfSafe | src/index.js:44-132 | every plan of a list of `if`s is safe |
| HtmlTranslator.PlansSafe | src/index.js:44-132 | every plan of an annotation is safe |
| HtmlTranslator.SafePlansWellFormed | src/index.js:44-132 | chaining resolved safe plans emits only well-formed opcodes |
| HtmlTranslator.PlansWellFormed | src/index.js:44-132 | every opcode an annotation emits has a `0x` address, names its struct when a method, and pops 0 or all its params |
| HtmlTranslator.Reverse | src/index.js:250 | the reversal puts element k at position n-1-k |
| HtmlTranslator.ReverseInPlace | src/index.js:250 | `params.reverse()` reverses the array in place |
| HtmlTranslator.StringifyParamsOf | src/index.js:249-251 | the text `stringifyParams` returns, with its argument left reversed |
| HtmlTranslator.Bracketed | src/index.js:250 | each param becomes `[param]`, in place |
| HtmlTranslator.StringifyParamsSpec | src/index.js:249-251 | the bracketed params in reverse order joined by spaces; empty exactly when there are no params |
| HtmlTranslator.StringifyParamsExample | src/index.js:249-251 | `["a", "b"]` renders as `[b] [a]` |
| HtmlTranslator.ConcatLayout | src/index.js:292-294 | `concat` drops the empty parts and puts single spaces between the others |
| HtmlTranslator.ParamsLayout | src/index.js:263-290 | an opening, the stringified params and an optional return give the line with one space before each non-empty part |
| HtmlTranslator.RenderLayout | src/index.js:263-294 | an opcode renders as its opening, then the reversed bracketed params when there are any, then `func_ret [ret]` for the return forms |
| HtmlTranslator.ParseAll | src/index.js:15-18 | one parsed line per line, each read with the line above it |
| HtmlTranslator.TocPush | src/index.js:152-154 | the three `toc` statements compute `TocAdd` |
| HtmlTranslator.TocAddSpec | src/index.js:152-154 | the file is appended to its namespace and game lists, which are created when missing, and every other list is kept |
| HtmlTranslator.RunPrefixExtend | src/index.js:15-162 | the run over a prefix does not depend on later lines |
| HtmlTranslator.RunErrorSticks | src/index.js:15-162 | once the run has thrown, later lines change nothing |
| HtmlTranslator.RunStops | src/index.js:15-162 | the first failing line's error is the run's result |
| HtmlTranslator.ParseLineFits | src/index.js:17-38 | every parsed line satisfies the facts the state invariant needs |
| HtmlTranslator.InitInv | src/index.js:9-13 | the initial state satisfies the invariant |
| HtmlTranslator.HeaderStepInv | src/index.js:133-156 | a header keeps the invariant: `plugin_II` is never in the table of contents, a skipped scope is in `plugin_II`, and no `<pre>` is open while skipping |
| HtmlTranslator.StepInv | src/index.js:15-162 | every step keeps the invariant |
| HtmlTranslator.RunPrefixInv | src/index.js:15-162 | the invariant holds after every prefix of the run |
| HtmlTranslator.RunInv | src/index.js:15-162 | the invariant holds at the end of a run that does not throw |
| HtmlTranslator.StepExtends | src/index.js:15-162 | a step only appends to the output |
| HtmlTranslator.RunExtends | src/index.js:15-162 | the output of an earlier prefix is a prefix of a later one's |
| HtmlTranslator.SkipSilences | src/index.js:17 | inside a `plugin_II` scope an annotation line changes nothing |
| HtmlTranslator.NotCallableSkipped | src/index.js:28-31 | an annotation under a line with neither `::` nor `(` changes nothing |
| HtmlTranslator.HeaderStepSpec | src/index.js:133-161 | fewer than 3 path pieces throw "Invalid path"; a `plugin_II` path closes `<pre>` and starts skipping; any other path writes `### curFile` and appends the file to the table of contents |
| HtmlTranslator.CallableStepSpec | src/index.js:34-161 | a callable annotation throws exactly when a dispatch `if` throws; otherwise it closes an open `<pre>`, writes its heading, leaves a `<pre>` open, writes the opcodes and then a newline unless a `continue` cut the line short, keeping scope, skip flag and table of contents |
| HtmlTranslator.AnnotStepSpec | src/index.js:17-39 | no line above throws a TypeError, a non-callable line above changes nothing; otherwise the output starts with the old output, the closed `<pre>` and the heading naming the declaration, a `<pre>` is left open, and scope, skip flag and table of contents are kept |
| HtmlTranslator.RunFirstLine | src/index.js:18 | an annotation on the first line throws a TypeError |
| HtmlTranslator.StepDispatch | src/index.js:17-159 | a step is an annotation step, a header step, or nothing, chosen by the line's markers and the skip flag |
| HtmlTranslator.TranslateAnnotation | src/index.js:17-132 | the annotation branch computes `AnnotStep` |
| HtmlTranslator.TranslateHeader | src/index.js:133-156 | the header branch computes `HeaderStep` |
| HtmlTranslator.TranslateLine | src/index.js:16-161 | one iteration of the loop computes `Step` |
| HtmlTranslator.TranslateLines | src/index.js:15-162 | the loop computes the run over all lines |
| HtmlTranslator.Translate | src/index.js:15-162 | the translator computes `Run` |
| CleoTranslator.ParamsSpec | cpp2cleo.js:142-173 | the count test throws exactly when the text coerces to a negative number; otherwise one trimmed param per depth-0 comma plus one |
| CleoTranslator.ParamsOfEmpty | cpp2cleo.js:163-166 | `f()` still gives one param, the empty string |
| CleoTranslator.ParamsOfMinusOne | cpp2cleo.js:169-173 | `f(-1)` makes the count test throw |
| CleoTranslator.GetParams | cpp2cleo.js:142-167 | the split loop and the trimming compute `Params` |
| CleoTranslator.LookupAddress | cpp2cleo.js:101-107 | the lookup succeeds exactly when the symbol has a truthy `0x` address in the current scope; a missing scope is a TypeError, an absent symbol "not defined", an address without `0x` "address must start with 0x" |
| CleoTranslator.LookupAgrees | cpp2cleo.js:101-107 | it agrees with the newer translator's lookup; with the scope missing it is a TypeError where the newer one reports "not defined" |
| CleoTranslator.ResolveAll | cpp2cleo.js:93-117 | the dispatch `if`s are resolved one for one |
| CleoTranslator.ResolveAllAt | cpp2cleo.js:93-117 | each resolved `if` is the resolution of its own plan |
| CleoTranslator.DynSpec | cpp2cleo.js:93-117 | `CallMethodAndReturnDynGlobal`: no `gaddrof` throws, the params are never empty, a missing scope is a TypeError, otherwise 0AA8 with the looked-up address |
| CleoTranslator.DirectPlans | cpp2cleo.js:36-91 | one plan per direct form |
| CleoTranslator.DirectPlansAt | cpp2cleo.js:36-91 | each direct plan is that form's stage |
| CleoTranslator.Plans | cpp2cleo.js:36-117 | an annotation passes through five dispatch `if`s |
| CleoTranslator.ResolveSafe | cpp2cleo.js:93-117 | resolving a safe plan emits only well-formed opcodes |
| CleoTranslator.PlansSafe | cpp2cleo.js:36-117 | every plan of an annotation is safe |
| CleoTranslator.PlansWellFormed | cpp2cleo.js:36-117 | every opcode an annotation emits is well formed |
| CleoTranslator.PlansUntaken | cpp2cleo.js:36-117 | a line with none of the five markers takes no `if` |
| CleoTranslator.ParamTokensSnoc | cpp2cleo.js:44-46 | each loop iteration appends ` [param]` |
| CleoTranslator.ParamTokensSpec | cpp2cleo.js:44-46 | the params in order, bracketed, each preceded by a space |
| CleoTranslator.ParamTokensReversed | cpp2cleo.js:44-46 | for a non-empty list, the same text the newer translator's `stringifyParams` gives on the reversed list, after a space |
| CleoTranslator.AppendParams | cpp2cleo.js:44-46 | the loop appends the param tokens to the output |
| CleoTranslator.AppendOp | cpp2cleo.js:42-60 | appending one opcode line gives the output followed by its rendering |
| CleoTranslator.AppendOps | cpp2cleo.js:36-117 | appending a line's opcodes gives the output followed by all their renderings |
| CleoTranslator.ParseAll | cpp2cleo.js:9-12 | one parsed line per line, each read with the line above it |
| CleoTranslator.RunErrorSticks | cpp2cleo.js:9-126 | once the run has thrown, later lines change nothing |
| CleoTranslator.RunStops | cpp2cleo.js:9-126 | the first failing line's error is the run's result |
| CleoTranslator.StepExtends | cpp2cleo.js:9-126 | a step only appends to the output |
| CleoTranslator.RunExtends | cpp2cleo.js:9-126 | the output of an earlier prefix is a prefix of a later one's |
| CleoTranslator.AnnotationWritesComment | cpp2cleo.js:29 | a callable annotation first writes its two comment lines and keeps the scope |
| CleoTranslator.UntakenWritesComment | cpp2cleo.js:29-125 | an annotation that takes no `if` writes its comment and a newline only |
| CleoTranslator.RunFirstLine | cpp2cleo.js:12-16 | an annotation on the first line throws a TypeError |
| CleoTranslator.NotCallableSkipped | cpp2cleo.js:22-25 | an annotation under a line with neither `::` nor `(` changes nothing |
| CleoTranslator.HeaderSpec | cpp2cleo.js:118-125 | a scope header writes the text from `plugin_` on its own line, and the scope becomes the whole line without its first colon |
| CleoTranslator.TranslateAnnotation | cpp2cleo.js:11-117 | the annotation branch computes `AnnotStep` |
| CleoTranslator.TranslateLine | cpp2cleo.js:10-125 | one iteration of the loop computes `Step` |
| CleoTranslator.TranslateLines | cpp2cleo.js:9-126 | the loop computes the run over all lines |
| CleoTranslator.Translate | cpp2cleo.js:9-126 | the translator computes `Run` |

## Left out

- File I/O is left out: `readFileSync`, `writeFileSync` and the split of the file on newlines. The translators take the lines and the address table as parameters.
- The `require` of `addr.js` is replaced by passing the result of `AddrTable.Load` to the translators.
- The showdown Markdown-to-HTML conversion (src/index.js:177-184) is a foreign library, so it is not part of this model.
- The rendering of the table of contents into Markdown text (src/index.js:165-175) is left out. The model keeps the `toc` map it is rendered from, with its updates proved (`TocAddSpec`, `HeaderStepSpec`).
- `console.error` writes to the console and changes nothing else, so each one is modelled by what follows it: the line is skipped, or cut short by `continue`.
- Plain objects are modelled as maps. Keys inherited from `Object.prototype`, such as a scope named `constructor`, are not modelled.
- Strings are sequences of characters. UTF-16 surrogate pairs are not distinguished from code points.
- Each dispatch `if` is evaluated before anything is written for it. This is equivalent to the source's interleaving, because a throw discards the whole output.
- The source calls `getParams` once inside each taken `if`; the model computes it once per line. Both give the same value, because it depends only on the line.
- `Number` coercion is modelled only for its sign: negative, or not (the other numbers, NaN). That is all `assertNumParams` observes.
