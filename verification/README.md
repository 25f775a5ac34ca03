# MarketLens in Dafny

MarketLens evaluates Pine scripts over candle series, streams and caches market history from MetaTrader,
and watches alerts. This project models the parts where that is hardest to get right and proves what
their code is meant to guarantee. `dafny verify dfyconfig.toml` checks all of it.

**Pine runtime** (`Pine*.dfy`, `CandleAggregation`, `RequestSecurity`, `Timeframes`, `CandleMaps`,
`ReplayCutoff`). `PineExpressions` gives expressions a tree and a meaning over whole series; `PineGrammar` reads
token lists as trees, and `PineParser` is the recursive-descent parser that evaluates while it parses, proved to
compute the meaning of the tree read. `PineKernels` has the indicator loops, each proved to be a function of the
history up to each bar. `PineCausality` proves that no bar sees a later bar. `PineBlocks` and the `PineLowering`
files lower indented if and switch blocks to ternary text and prove, through the parser, that every bar shows
what the blocks select. `PineReading` says which assignments the lines of a script hold. `PineGuards` proves
that the condition found for a drawing call is the path to it. `PineAssignments` treats assignments that read
their own past. `PineScripts` gives the value of a text in a script: a text that is wholly a `request.security`
call is found by `PineCallTexts` and run over wider candles, where everything assigned is evaluated again.
`PineScriptCausality` and `ReplayCutoff` prove what a run that ends earlier shows alike.

**Runtime jobs** (`LruList`, `RuntimeJobs`): single-flight, a bounded queue, workers and a cache of results
on a ring of list nodes.

**Stream service** (`HistoryCache`, `HistoryRequests`, `HistoryFlights`, `StreamSet`): merged candle
windows and cursor pages, the table of waiting requests, shared flights, and the set of streamed symbols.

**Alerts** (`AlertGeometry`, `AlertArming`), **the priority executor** (`PriorityExecutor`) and two byte
formats (`Credentials`, `CommandFrames`).

Concurrent parts have the same form throughout. A module of steps (`JobSteps`, `HistorySteps`,
`FlightSteps`, `StreamSteps`, `AlertSteps`, `ExecutorSteps`) says what each locked section or transaction
does to a state; `Run` is any sequence of steps, so a lemma about `Run` is about every interleaving. A class
beside it has the fields of the original object, and each method is proved to take exactly its step.

Where the code does not meet what its documentation or form promises, the code is kept and a lemma gives the
exact condition or an input: `TextJoinStableWhen`, `TextCompareStableWhen`, `TestReadsAsIntendedWhen`,
`FinalLineKeptWhen`, `LocalInScopeWhen`, `ShadowedLocalInScopeWhen`, `ConditionalAssignmentKeptWhen`,
`ElseKnowsItsChainWhen`, `BlankLinesKeepHeadWhen`, `AverageIsAsWrittenWhen`, `OtherHistoryKeptWhen`,
`RequestOfCutWhen`, `TimeframesKeptWhen`, `ReplayWindowIsCutWindowWhen`, `CropShowsReplayWhen`,
`MisnamedPageShowsWhen`, `EmptyCatalogSendsNothing`, `NormalizedOnceWhen`, `CrossingsAlternateWhen`,
`RetryReturnsTheEventWhen`, `UnsettledAreBehindSentinel`.

Parameters stand for what the model does not compute: number printing (`Printer`), evidence time stamps
(`World.stamp`), logarithm and exponential (`Curves`), UTF-8 validity and encoding, integer printing and
reading, and the keyed hash of frames.

## Model

| member | source | states |
|---|---|---|
| `PineValues.ChooseValue` | backend/internal/pineruntime/value.go:189-225 | The loops give the ternary bar by bar, in colours when an arm is coloured, and one whole arm for a fixed condition or at most one candle |
| `PineValues.ShiftValue` | backend/internal/pineruntime/value.go:227-250 | The loop gives `v[offset]`: the value `offset` bars earlier, `na` (or no colour) before the start |
| `PineValues.CombineValues` | backend/internal/pineruntime/value.go:252-269 | The loop gives element-wise arithmetic with `na` wherever a side is unusable, and text joining read at the newest bar |
| `PineValues.CompareValues` | backend/internal/pineruntime/value.go:289-328 | The loop gives element-wise comparison that is false on unusable sides; text equality is read at the newest bar |
| `PineValues.LogicalValues` | backend/internal/pineruntime/value.go:330-350 | The loop gives element-wise and / or of truthiness, a single flag when neither side varies |
| `PineValues.LogicalNotValue` | backend/internal/pineruntime/value.go:352-363 | The loop gives element-wise negation of truthiness |
| `PineValues.ReduceNumeric` | backend/internal/pineruntime/expression.go:1013-1046 | The loops give the bar-wise maximum or minimum of all arguments |
| `PineValues.ReduceOneBar` | backend/internal/pineruntime/expression.go:1029-1043 | The inner loop folds the arguments of one bar |
| `PineKernels.RollingAverage` | backend/internal/pineruntime/expression.go:783-804 | At each bar the loop gives the mean of the newest `length` values, `na` if one is unusable or too few exist - a function of the history up to that bar only |
| `PineKernels.WeightedMovingAverage` | backend/internal/pineruntime/expression.go:855-880 | At each bar the linearly weighted mean of the newest `length` values |
| `PineKernels.WeightedPoint` | backend/internal/pineruntime/expression.go:861-877 | The inner loop: running sum and running weight give the closed-form weighted mean |
| `PineKernels.VolumeWeightedMovingAverage` | backend/internal/pineruntime/expression.go:882-905 | At each bar the volume-weighted mean of the window, `na` without volume |
| `PineKernels.HullMovingAverage` | backend/internal/pineruntime/expression.go:907-924 | At each bar the weighted mean, over round(sqrt(length)) bars, of twice the half-length mean less the full one |
| `PineKernels.SmoothedMovingAverage` | backend/internal/pineruntime/expression.go:806-853 | The running `prev` of ta.ema and ta.rma is the recursive average of the usable history, published after `length` usable bars |
| `PineKernels.RsiSeries` | backend/internal/pineruntime/expression.go:926-967 | The running gain and loss are the seeded, smoothed averages of the history up to each bar |
| `PineKernels.NextGainLoss` | backend/internal/pineruntime/expression.go:954-963 | One smoothing step of gain and loss |
| `PineKernels.RsiWithinBounds` | backend/internal/pineruntime/expression.go:926-967 | On usable prices the RSI is published exactly when more than `length` bars exist, and lies between 0 and 100 |
| `PineKernels.ChangeSeries` | backend/internal/pineruntime/expression.go:969-979 | At each bar the difference to the value `length` bars earlier |
| `PineKernels.CrossSeries` | backend/internal/pineruntime/expression.go:981-995 | At each bar whether the series crossed between the previous bar and this one |
| `PineKernels.SessionVWAP` | backend/internal/pineruntime/expression.go:643-670 | The running totals are those of the bars of the present UTC day; the source itself when no volume was traded |
| `PineKernels.DetectRuntimePivots` | backend/internal/pineruntime/pivot_runtime.go:16-57 | Exactly the strict local extremes are recorded, once each, with the confirmation bar `right` bars after the pivot |
| `PineKernels.TestPivot` | backend/internal/pineruntime/pivot_runtime.go:25-46 | The offset loops decide strict dominance over both neighbourhoods |
| `PineKernels.PivotSeries` | backend/internal/pineruntime/expression.go:721-730 | A pivot shows at its confirmation bar, as a function of the history up to that bar |
| `PineKernels.WeightTotalClosed` | backend/internal/pineruntime/expression.go:861-877 | The running weight total is count times (2 length - count + 1) over 2 |
| `PineCausality.NoLookAhead` | backend/internal/pineruntime/expression.go:179-362 | Two runs that share their first k candles give, for every per-bar expression the parser reads, values that agree on those k bars (and errors alike) |
| `PineCausality.NoLookAheadArgs` | backend/internal/pineruntime/expression.go:297-320 | The same for argument lists |
| `PineCausality.PrefixStable` | backend/internal/pineruntime/expression.go:179-362 | Evaluating a parsed expression on the first k >= 2 candles is evaluating it on all and keeping k bars |
| `PineCausality.CallAgree` | backend/internal/pineruntime/expression.go:458-641 | Every supported call on arguments that agree up to bar k gives values that agree up to bar k |
| `PineCausality.AverageCallAgree` | backend/internal/pineruntime/expression.go:600-628 | The moving averages, rsi and change keep agreement up to bar k |
| `PineCausality.PivotAgree` | backend/internal/pineruntime/expression.go:679-730 | Published pivots agree up to bar k, whichever of the two argument forms is used |
| `PineCausality.VwapAgree` | backend/internal/pineruntime/expression.go:643-670 | Session VWAP keeps agreement up to bar k |
| `PineCausality.BuiltinAgree` | backend/internal/pineruntime/expression.go:364-456 | Every built-in name but the three whole-series ones agrees up to bar k |
| `PineCausality.ChooseAgree` | backend/internal/pineruntime/value.go:189-225 | The ternary keeps agreement when both runs have more than one candle or both have one |
| `PineCausality.CombineAgree` | backend/internal/pineruntime/value.go:252-269 | Arithmetic keeps agreement unless a text meets a series |
| `PineCausality.TextJoinStableWhen` | backend/internal/pineruntime/value.go:252-255 | Joining a text with a series, on either side, gives the same on the cut run exactly when both newest bars print the same |
| `PineCausality.TextCompareStableWhen` | backend/internal/pineruntime/value.go:289-297 | Comparing a text with a series for equality gives the same on the cut run exactly when both newest bars are equally equal to the text |
| `PineCausality.WholeSeriesNamesLookAhead` | backend/internal/pineruntime/expression.go:396-408 | last_bar_index, last_bar_time and barstate.islast always show something else at the cut than the full run does |
| `PineCausality.OneCandleRunsDiffer` | backend/internal/pineruntime/value.go:189-202 | Over one candle a ternary keeps its whole arm, over two it becomes a series: why k >= 2 |
| `PineGrammar.NameReads` | backend/internal/pineruntime/expression.go:287-346 | A name alone reads as that name, unless it is the word not |
| `PineGrammar.ParenReads` | backend/internal/pineruntime/expression.go:335-342 | A complete text in parentheses reads as its own tree and leaves what follows |
| `PineGrammar.TernaryTextReads` | backend/internal/pineruntime/compiler.go:413-421 | The emitted text "(c) ? (t) : (f)" re-parses to the conditional of the three texts |
| `PineGrammar.TestReadsAsIntendedWhen` | backend/internal/pineruntime/compiler.go:523-527 | The emitted switch test re-parses to "selector equals label" exactly when the selector has no top-level and/or/?, and the label none of these nor a comparison |
| `PineGrammar.ConjunctionReads` | backend/internal/pineruntime/object_runtime.go:193-197 | The emitted guard "(a) and not (b) ..." re-parses to the conjunction of its parts |
| `PineGrammar.TernaryThen` | backend/internal/pineruntime/expression.go:183-201 | A phrase of the grammar parses alike whatever closing text follows it |
| `PineParser.ExpressionParser.constructor` | backend/internal/pineruntime/expression.go:144-158 | A parser starts at the first token |
| `PineParser.ExpressionParser.Next` | backend/internal/pineruntime/expression.go:173-177 | Advances one token; at the end it yields the end token again |
| `PineParser.ExpressionParser.ParseTernary` | backend/internal/pineruntime/expression.go:183-201 | The evaluating method returns the value of the tree that the grammar reads, and stands where the grammar stops |
| `PineParser.ExpressionParser.ParseLogical` | backend/internal/pineruntime/expression.go:203-217 | Likewise for and / or, left to right |
| `PineParser.ExpressionParser.ParseComparison` | backend/internal/pineruntime/expression.go:219-233 | Likewise for comparisons |
| `PineParser.ExpressionParser.ParseAdditive` | backend/internal/pineruntime/expression.go:235-249 | Likewise for + and - |
| `PineParser.ExpressionParser.ParseMultiplicative` | backend/internal/pineruntime/expression.go:251-265 | Likewise for * and / |
| `PineParser.ExpressionParser.ParseUnary` | backend/internal/pineruntime/expression.go:267-285 | Likewise for not and the signs |
| `PineParser.ExpressionParser.ParsePrimary` | backend/internal/pineruntime/expression.go:287-346 | Likewise for literals, names, calls and parentheses |
| `PineParser.ExpressionParser.ParseNamed` | backend/internal/pineruntime/expression.go:296-334 | Likewise for a name or call |
| `PineParser.ExpressionParser.ParseArguments` | backend/internal/pineruntime/expression.go:297-320 | Likewise for an argument list |
| `PineParser.ExpressionParser.ParseArgList` | backend/internal/pineruntime/expression.go:300-316 | The argument loop, with named arguments |
| `PineParser.ExpressionParser.ParsePostfix` | backend/internal/pineruntime/expression.go:348-362 | Likewise for history references |
| `PineParser.EvaluateParsed` | backend/internal/pineruntime/expression.go:154-167 | Evaluating while parsing gives the value of the tree the whole text reads as, and an error for any other text |
| `PineParser.EvaluateCall` | backend/internal/pineruntime/expression.go:458-641 | The dispatcher over loops computes what the call means |
| `PineParser.EvaluateSeriesCall` | backend/internal/pineruntime/expression.go:600-640 | Likewise for the series functions |
| `PineParser.EvaluatePivot` | backend/internal/pineruntime/expression.go:633-640 | Likewise for the pivots |
| `PineLowering.ParsePineIfExpression` | backend/internal/pineruntime/compiler.go:389-422 | The index-moving method returns the text and end index of the lowering on the remaining lines, errors included; terminates on remaining lines and parser kind |
| `PineLowering.ParsePineIfBranch` | backend/internal/pineruntime/compiler.go:532-608 | Likewise for the block of a branch |
| `PineLowering.ParseStatements` | backend/internal/pineruntime/compiler.go:543-607 | Its loop over statements, with the table of locals |
| `PineLowering.ParseStatement` | backend/internal/pineruntime/compiler.go:559-605 | One statement: an assignment to a local, or a new final expression |
| `PineLowering.ParseValue` | backend/internal/pineruntime/compiler.go:560-577 | A value that may itself be an if or a switch |
| `PineLowering.ParsePineSwitchExpression` | backend/internal/pineruntime/compiler.go:451-530 | Likewise for a switch |
| `PineLowering.ParseCases` | backend/internal/pineruntime/compiler.go:467-511 | Its loop over case lines |
| `PineLowering.ParseCase` | backend/internal/pineruntime/compiler.go:480-510 | One case line: label and value around the arrow |
| `PineLowering.EmitSwitch` | backend/internal/pineruntime/compiler.go:512-529 | The backwards loop nests the tests around the fallback, `na` without one |
| `PineLowering.ParsePineFunctionBody` | backend/internal/pineruntime/compiler.go:424-439 | The body of a user function is lowered as a branch |
| `PineLoweringShape.IfLowers` | backend/internal/pineruntime/compiler.go:389-422 | The lines of any if / else-if / else tree lower to its ternary text, leaving the lines after it |
| `PineLoweringShape.BlockLowers` | backend/internal/pineruntime/compiler.go:532-608 | The lines of a block lower to its final text |
| `PineLoweringShape.BodyLowers` | backend/internal/pineruntime/compiler.go:543-607 | The lines of a block body, whatever locals were assigned before |
| `PineLoweringShape.SwitchLowers` | backend/internal/pineruntime/compiler.go:451-530 | The lines of any switch lower to its nested tests |
| `PineLoweringShape.CasesLower` | backend/internal/pineruntime/compiler.go:467-511 | Case lines lower to their labels and values in order |
| `PineLoweringMeaning.LoweringKeepsMeaning` | backend/internal/pineruntime/compiler.go:389-422 | For every if tree and every bar, evaluating the lowered text shows what structured execution of the blocks selects |
| `PineLoweringMeaning.SwitchLoweringKeepsMeaning` | backend/internal/pineruntime/compiler.go:451-530 | For every switch and every bar, the lowered text shows the first matching case, else the last default, else `na` |
| `PineLoweringMeaning.IfMeans` | backend/internal/pineruntime/compiler.go:389-422 | The text of an if tree means its structured reading, under locals |
| `PineLoweringMeaning.BlockMeans` | backend/internal/pineruntime/compiler.go:532-608 | The text of a block means its last line, under locals |
| `PineLoweringMeaning.CasesMean` | backend/internal/pineruntime/compiler.go:512-529 | The nested tests select the first case whose label equals the selector |
| `PineLoweringMeaning.Unmentioned` | backend/internal/pineruntime/compiler.go:559-606 | An expression that mentions none of some names means the same with and without them |
| `PineLoweringMeaning.FinalLineKeptWhen` | backend/internal/pineruntime/compiler.go:559-606 | A one-line branch is kept as it stands exactly when the line does not match the assignment pattern |
| `PineLoweringMeaning.ComparisonLineIsLost` | backend/internal/pineruntime/compiler.go:559-579 | A branch ending in "x == y" is taken for an assignment, and the script line then never evaluates |
| `PineLoweringMeaning.DeeperCaseBodyIsDropped` | backend/internal/pineruntime/compiler.go:476-488 | A case whose body stands on deeper lines shows `na` |
| `PineLoweringMeaning.UnknownNameFails` | backend/internal/pineruntime/expression.go:364-456 | An expression that mentions, anywhere, a name that is no variable, constant or built-in has no value |
| `PineLoweringMeaning.LocalInsideExpressionIsLost` | backend/internal/pineruntime/compiler.go:599-607 | A block that assigns a local unknown outside it and ends in any larger text mentioning it is lowered to that text, which has no value, while the block itself shows the text with the local in scope |
| `PineLoweringMeaning.LocalInScopeWhen` | backend/internal/pineruntime/compiler.go:599-607 | For a local unknown outside its block and any readable last line, the lowered text shows what the block shows exactly when that line is the local itself or does not mention it |
| `PineLoweringMeaning.ShadowedLocalInScopeWhen` | backend/internal/pineruntime/compiler.go:599-607 | For a local that takes a known name, "name + 1" after it evaluates to the outer name plus one, without error, and shows what the block shows exactly on the bars where outer and local value are the same |
| `PineLoweringMeaning.LocalInSumIsLost` | backend/internal/pineruntime/compiler.go:599-607 | The input "a = close" then "a + 1": the block shows close + 1, its text nothing |
| `PineLoweringMeaning.ShadowedOpenIsMisread` | backend/internal/pineruntime/compiler.go:599-607 | The input "open = close" then "open + 1": the block shows close + 1, its text open + 1 |
| `PineGuards.EnclosingIfCondition` | backend/internal/pineruntime/object_runtime.go:161-198 | The cursor loops give the conjunction of the predicates of all enclosing branches |
| `PineGuards.FindEnclosing` | backend/internal/pineruntime/object_runtime.go:167-185 | The upward scan finds the nearest shallower branch line |
| `PineGuards.PrecedingBranchConditions` | backend/internal/pineruntime/object_runtime.go:248-270 | The upward scan and reversal give the earlier conditions of the chain, in order |
| `PineGuards.ReverseInPlace` | backend/internal/pineruntime/object_runtime.go:266-268 | The two-index swap reverses the slice |
| `PineGuards.GuardIsThePath` | backend/internal/pineruntime/object_runtime.go:161-198 | For every forest of chains and every bar, the guard of a drawing call holds exactly when control flow reaches the call at that bar |
| `PineGuards.GuardWithin` | backend/internal/pineruntime/object_runtime.go:161-198 | For a block at any place of a script, whatever encloses it, the guard of a call in it holds exactly when the enclosing conditions hold and control flow inside the block reaches the call |
| `PineGuards.GuardsArePaths` | backend/internal/pineruntime/object_runtime.go:161-246 | Beyond the outer conditions, what the script demands of a call in any sub-forest is exactly the path to it |
| `PineGuards.TailGuards` | backend/internal/pineruntime/object_runtime.go:200-246 | Else arms demand their own condition and the failure of all earlier ones, so arms exclude each other and a final else takes the rest |
| `PineGuards.ObjectCreationIndices` | backend/internal/pineruntime/object_runtime.go:272-302 | The bars at which a call draws are those where its guard holds; a kept object draws at the first of them only |
| `PineGuards.ElseKnowsItsChainWhen` | backend/internal/pineruntime/object_runtime.go:248-270 | Past any bodies and arms at any indentation, the earlier conditions found are those of the chain exactly when no line between is indented less and the head has its space (or an earlier chain leaves the same condition) |
| `PineGuards.BlankLinesKeepHeadWhen` | backend/internal/pineruntime/object_runtime.go:248-270 | Past the first body of a chain the head condition is found exactly when no blank line of the body is indented less than the chain |
| `PineGuards.ElseGuardIs` | backend/internal/pineruntime/object_runtime.go:161-246 | What guards a call under an else, whatever its search found: the negation of that, or no guard at the margin, or the condition itself in a nested chain |
| `PineGuards.TightHeadMisleadsElse` | backend/internal/pineruntime/object_runtime.go:248-270 | Under an "if(" head with no chain above it, the else calls have no guard at the margin and the head's own condition in a nested chain |
| `PineGuards.TightCompoundHeadFails` | backend/internal/pineruntime/object_runtime.go:224-230 | "if(a) ... (b)" loses its first and last parenthesis, and what is left never reads as an expression |
| `PineGuards.BlankLineInvertsElse` | backend/internal/pineruntime/object_runtime.go:248-270 | For any nested chain, a blank line indented less than it in its first body guards the else calls by the condition itself |
| `PineGuards.SiblingArmsExclude` | backend/internal/pineruntime/object_runtime.go:161-246 | Calls in different arms of a chain are never both reached |
| `PineGuards.SiblingGuardsExclude` | backend/internal/pineruntime/object_runtime.go:161-246 | Of a chain at any place of a script, nested or after other statements, the guards of calls in different arms never hold at the same bar |
| `PineGuards.SiblingGuardsExhaust` | backend/internal/pineruntime/object_runtime.go:161-246 | Of such a chain that ends in else, on a bar where its enclosing conditions hold the guards of all calls standing in one of the arms hold, and on any other bar no guard inside it does |
| `PineCallTexts.FindCallBody` | backend/internal/pineruntime/scanner.go:63-126 | The loop finds the body of a call that is the whole text |
| `PineCallTexts.WholeCallWhen` | backend/internal/pineruntime/scanner.go:63-126 | A text is wholly one call exactly when its body has balanced parentheses |
| `PineCallTexts.SplitTopLevel` | backend/internal/pineruntime/scanner.go:131-176 | The loop cuts a body at the commas outside all brackets |
| `PineCallTexts.SplitOfJoined` | backend/internal/pineruntime/scanner.go:131-176 | Arguments written with commas between them are read back as they are |
| `PineCallTexts.FindTopLevelEquals` | backend/internal/pineruntime/scanner.go:178-221 | The loop finds the first equals sign outside all brackets |
| `PineCallTexts.ParseCallArguments` | backend/internal/pineruntime/scanner.go:223-233 | The loop sorts the parts into positional and named arguments, the last of a name winning |
| `PineCallTexts.ArgumentWithin` | backend/internal/pineruntime/object_runtime.go:304-312 | An argument is no longer than the body and made of its tokens |
| `Timeframes.TimeframeReads` | backend/internal/pineruntime/runtime_common.go:142-188 | A written timeframe means its amount times its unit, and nothing when that is zero or beyond 64 bits |
| `Timeframes.UnitAlone` | backend/internal/pineruntime/runtime_common.go:142-188 | A unit alone is one of it, letter case telling months from minutes |
| `PineAssignments.FindSelfReferences` | backend/internal/pineruntime/compiler.go:721-733 | The loop collects the offsets read and replaces every reference by its placeholder |
| `PineAssignments.SubstituteRemoves` | backend/internal/pineruntime/compiler.go:728-732 | No reference to earlier values of the name survives substitution |
| `PineAssignments.PlaceholdersDiffer` | backend/internal/pineruntime/compiler.go:731-751 | Different offsets have different placeholders |
| `PineAssignments.RecursiveAverageSeries` | backend/internal/pineruntime/compiler.go:704-717 | The loop with its running `prev` shows after each bar the recursive average of the usable history |
| `PineAssignments.AverageIsAsWrittenWhen` | backend/internal/pineruntime/compiler.go:689-718 | That loop shows what the text x = nz(x[1]) + (source - nz(x[1])) / length says at a bar exactly when the bar is unusable, or is the first, or follows a usable one, or the length is one, or nothing is carried |
| `PineAssignments.OtherHistoryKeptWhen` | backend/internal/pineruntime/compiler.go:734-741 | In a self-referential assignment y[k] of another variable shows its value of k bars earlier exactly when k is zero, or there is no such bar, or nothing was there |
| `PineScripts.EvaluateExpression` | backend/internal/pineruntime/expression.go:150-167 | A text that is wholly a request.security call is dispatched to the request, every other text to the parser |
| `PineScripts.EvaluateRequestSecurity` | backend/internal/pineruntime/request_security.go:14-73 | The whole request, nested ones included: arguments, timeframe, mapping, value over the wider candles, expansion |
| `PineScripts.EvaluateWide` | backend/internal/pineruntime/request_security.go:64-72 | The requested text over the wider candles, its warm-up filled in when it is a lagged average |
| `PineScripts.EvaluateDependencies` | backend/internal/pineruntime/request_security.go:55-62 | The loop evaluates everything assigned so far again over the wider candles, each with what was assigned before it |
| `PineScripts.EvaluateSelfReferentialAssignment` | backend/internal/pineruntime/compiler.go:720-766 | The bar loop gives the series that its own recurrence defines |
| `PineScripts.EvaluateAssignmentValue` | backend/internal/pineruntime/compiler.go:357-375 | Inputs, the running-average form, self-referential texts and all others, in this order |
| `PineScripts.SelfSeriesSolves` | backend/internal/pineruntime/compiler.go:734-764 | Bar i is the text at bar i over the values before it |
| `PineScriptCausality.TextsAgree` | backend/internal/pineruntime/expression.go:150-167 | Two runs, one of which may end earlier, that share their first s bars show the same on them for every text that is steady: per-bar where it is parsed, and cut cleanly by every request in it |
| `PineScriptCausality.RequestsAgree` | backend/internal/pineruntime/request_security.go:14-73 | The same for requests, through mapping, re-evaluation, nested requests, warm-up and expansion |
| `PineScriptCausality.DependenciesAgree` | backend/internal/pineruntime/request_security.go:49-62 | Re-evaluated assignments of two runs that share s wider candles agree on those candles |
| `PineScriptCausality.AssignmentsAgree` | backend/internal/pineruntime/compiler.go:357-375 | Every kind of assignment keeps agreement on the shared bars |
| `PineScriptCausality.SelfSeriesAgree` | backend/internal/pineruntime/compiler.go:720-766 | A self-referential assignment never looks ahead, whatever names it reads |
| `PineScriptCausality.SecurityReadsNoFuture` | backend/internal/pineruntime/request_security.go:14-73 | For candle lists with the same times that agree up to bar i, the request shows the same at bar i |
| `PineScriptCausality.RequestOfCutWhen` | backend/internal/pineruntime/request_security.go:246-261 | In a run cut after k bars a request shows the same numbers and colours before its last bar, and on it the same number, and likewise the same colour, exactly when that bar ends its bucket or the bucket before shows what the partial one does |
| `PineScriptCausality.TimeRequestOfCutWhen` | backend/internal/pineruntime/request_security.go:246-261 | A request of `time` survives the cut on its last bar exactly when that bar ends its bucket |
| `CandleAggregation.AggregateRuntimeCandles` | backend/internal/pineruntime/runtime_common.go:190-216 | The append-or-update loop gives the fold of candles into buckets |
| `CandleAggregation.VolumeConserved` | backend/internal/pineruntime/runtime_common.go:211-212 | Total volume is preserved |
| `CandleAggregation.AggregateAscends` | backend/internal/pineruntime/runtime_common.go:195-200 | Buckets of ascending candles ascend strictly |
| `CandleAggregation.BucketsAreMultiples` | backend/internal/pineruntime/runtime_common.go:196-196 | Every bucket time is a multiple of the width |
| `CandleAggregation.BucketsSummarise` | backend/internal/pineruntime/runtime_common.go:190-216 | Every bucket is the summary of exactly its candles - first open, extreme high and low, last close, total volume - and every candle has a bucket |
| `CandleAggregation.BucketOfBucket` | backend/internal/pineruntime/runtime_common.go:196-196 | Rounding a time to m and then to k m seconds is rounding it to k m, negative times included |
| `CandleAggregation.AggregationComposes` | backend/internal/pineruntime/runtime_common.go:190-216 | Aggregating to m and then to k m seconds equals aggregating straight to k m |
| `RequestSecurity.StatefulCandleInterval` | backend/internal/pineruntime/stateful_eval.go:2866-2881 | The loop gives the smallest positive step, 60 without one |
| `RequestSecurity.IntervalIsShortest` | backend/internal/pineruntime/stateful_eval.go:2866-2881 | On ascending candles the interval is a gap of theirs and none is shorter |
| `RequestSecurity.AggregateCandlesForTimeframe` | backend/internal/pineruntime/request_security.go:186-219 | Buckets and bar-to-bucket mapping: each bar maps to the newest bucket its own past makes; unknown or lower timeframes are errors |
| `RequestSecurity.IndexBuckets` | backend/internal/pineruntime/request_security.go:205-218 | The time-to-index map finds that bucket for every bar |
| `RequestSecurity.BarIsInItsBucket` | backend/internal/pineruntime/request_security.go:209-217 | A bar maps to the bucket that holds its time |
| `RequestSecurity.VisibleBucketsArePast` | backend/internal/pineruntime/request_security.go:252-261 | The buckets a bar may see are among those the candles up to that bar make |
| `RequestSecurity.ExpandSecurityValue` | backend/internal/pineruntime/request_security.go:221-244 | The loops show at each bar the value of its visible bucket, or nothing |
| `RequestSecurity.AverageCompletedBuckets` | backend/internal/pineruntime/request_security.go:117-139 | The warm-up loop averages the usable values of the completed buckets before each one |
| `RequestSecurity.AverageBefore` | backend/internal/pineruntime/request_security.go:120-138 | Its inner loop for one bucket |
| `RequestSecurity.FillMissingSecurityValue` | backend/internal/pineruntime/request_security.go:169-184 | Missing strict values are taken from the warm-up |
| `RequestSecurity.ViewsAgree` | backend/internal/pineruntime/request_security.go:186-261 | For a run that has the bars another starts with and shares s of them, those s bars map alike and see the same buckets, unless the last shared bar is the end of the shorter run inside a bucket of the longer |
| `RequestSecurity.TimeframesKeptWhen` | backend/internal/pineruntime/request_security.go:194-200 | A run that ends earlier accepts the same timeframes exactly when it has the same shortest step |
| `CandleMaps.TimelineUnique` | backend/internal/pineruntime/builtin_runtime.go:41-59 | An ascending candle list is determined by its map from time to candle |
| `CandleMaps.SortedTimes` | backend/internal/pineruntime/builtin_runtime.go:50-53 | Keys sorted strictly ascending |
| `CandleMaps.Timeline` | backend/internal/pineruntime/builtin_runtime.go:54-58 | The list rebuilt from a map is ascending and has that map |
| `ReplayCutoff.NormalizeRuntimeCandles` | backend/internal/pineruntime/builtin_runtime.go:41-59 | Ascending, with the last acceptable candle of each time |
| `ReplayCutoff.CandlesThroughReplayCutoff` | backend/internal/pineruntime/replay_cutoff.go:29-40 | The binary search keeps exactly the candles up to the cutoff |
| `ReplayCutoff.CutIsAFeedThatEnds` | backend/internal/pineruntime/replay_cutoff.go:15-27 | Cutting normalized candles gives what normalizing a feed that ends at the cutoff would |
| `ReplayCutoff.ReplayWindowIsCutWindowWhen` | backend/internal/pineruntime/compiler.go:107-118 | The replayed window is the full window cut at the cutoff exactly when no candle had to be dropped, or nothing is cut, or nothing is left |
| `ReplayCutoff.SeriesToLinePoints` | backend/internal/pineruntime/compiler.go:975-995 | The loop emits the usable values, one for each time |
| `ReplayCutoff.PointsOfCut` | backend/internal/pineruntime/compiler.go:975-995 | Points of cut values are the points of all values up to the cutoff |
| `PineReading.ReadStatement` | backend/internal/pineruntime/compiler.go:297-348 | One turn of the loop: the assignment the line holds, if any - outputs, function definitions with their bodies, and lines that are no assignment are passed over, compound assignments written out, assigned ifs lowered - and where the next turn goes on |
| `PineReading.CompoundReads` | backend/internal/pineruntime/compiler.go:322-332 | "x op= e" is read as the operation on x and the whole of e |
| `PineReading.IfAssignmentShows` | backend/internal/pineruntime/compiler.go:336-343 | An assigned if-expression is read as one assignment, whose text shows at every bar what the blocks select, and reading goes on after its lines |
| `PineReading.ConditionIsPassedOver` | backend/internal/pineruntime/compiler.go:295-355 | An assignment under an if statement is read as if it stood alone, whatever the condition and the indentation |
| `ReplayCutoff.ReadAssignments` | backend/internal/pineruntime/compiler.go:295-355 | The loop over script lines runs the assignments they hold, in order, leaving out those that fail |
| `ReplayCutoff.ConditionalAssignmentKeptWhen` | backend/internal/pineruntime/compiler.go:295-355 | After an assignment under an if statement the name shows "the new value where the condition holds, else the old one" exactly on the bars where the condition holds or both values are the same |
| `ReplayCutoff.PlotsAgree` | backend/internal/pineruntime/compiler.go:854-930 | Of two runs that share their first s bars, plots share their points up to the last of them |
| `ReplayCutoff.ReplayCommutes` | backend/internal/pineruntime/compiler.go:107-114 | Cutting the candles and running a script, requests included, plots what the full run plots up to the last bar s for which the script is steady; for the last bar before the cutoff that is all the full run plots up to the cutoff |
| `ReplayCutoff.SortIsStable` | backend/internal/pineruntime/replay_cutoff.go:85-88 | Sorted, and points of one time keep their order |
| `ReplayCutoff.ClipLinePointsToReplay` | backend/internal/pineruntime/replay_cutoff.go:81-102 | The loop keeps the points up to the cutoff and adds the boundary point of a crossing segment |
| `ReplayCutoff.BoundaryOnSegment` | backend/internal/pineruntime/replay_cutoff.go:104-123 | The boundary value lies on the segment, at the cutoff |
| `ReplayCutoff.ClipEndsAtCutoff` | backend/internal/pineruntime/replay_cutoff.go:81-102 | Nothing is shown after the cutoff, in time order |
| `ReplayCutoff.ClipOfClipped` | backend/internal/pineruntime/builtin_runtime.go:30-37 | Points that end at the cutoff pass unchanged, so clipping twice is clipping once |
| `ReplayCutoff.FinalClipKeepsReplay` | backend/internal/pineruntime/compiler.go:209-211 | The final clip leaves what a replay run plots unchanged |
| `ReplayCutoff.CropShowsReplayWhen` | backend/internal/pineruntime/replay_cutoff.go:81-102 | Cropping a full run shows exactly the kept points when no segment crosses the cutoff, and only then |
| `RecencyOrder.LeastRecentlyUsedGoes` | backend/internal/pineruntime/runtime_jobs.go:170-187 | After any run of look-ups and stores: no key twice, at most `limit`, ordered by last use, and everything dropped was used before everything kept |
| `RecencyOrder.UseKeepsOrder` | backend/internal/pineruntime/runtime_jobs.go:93-99 | One look-up or store keeps that |
| `RecencyOrder.TouchRanks` | backend/internal/pineruntime/runtime_jobs.go:93-99 | Moving a used entry to the back keeps the order by last use |
| `RecencyOrder.DropOldestRanks` | backend/internal/pineruntime/runtime_jobs.go:178-186 | Dropping from the front keeps the order and the claim about what was dropped |
| `LruList.NodeList.constructor` | backend/internal/pineruntime/runtime_jobs.go:37-37 | An empty ring around the sentinel |
| `LruList.NodeList.InsertLast` | backend/internal/pineruntime/runtime_jobs.go:176-176 | The four pointer writes put a node at the back |
| `LruList.NodeList.Unlink` | backend/internal/pineruntime/runtime_jobs.go:185-185 | The two pointer writes take a node out |
| `LruList.NodeList.PushBack` | backend/internal/pineruntime/runtime_jobs.go:176-176 | A new node at the back |
| `LruList.NodeList.MoveToBack` | backend/internal/pineruntime/runtime_jobs.go:94-94 | A node moved to the back, values untouched |
| `LruList.NodeList.Front` | backend/internal/pineruntime/runtime_jobs.go:179-182 | The first node, or none |
| `LruList.ClosedIsLinked` | backend/internal/pineruntime/runtime_jobs.go:176-176 | A node between last and first closes the longer ring |
| `LruList.SkippedIsLinked` | backend/internal/pineruntime/runtime_jobs.go:185-185 | Neighbours pointing past a node leave the ring without it |
| `LruList.MirrorSize` | backend/internal/pineruntime/runtime_jobs.go:178-178 | The map has as many keys as the list has entries |
| `LruList.ResultCache.constructor` | backend/internal/pineruntime/runtime_jobs.go:66-73 | An empty cache |
| `LruList.ResultCache.Get` | backend/internal/pineruntime/runtime_jobs.go:93-99 | A hit returns the value and becomes the most recent |
| `LruList.ResultCache.Store` | backend/internal/pineruntime/runtime_jobs.go:170-187 | A stored key becomes the most recent; beyond the limit the least recent go |
| `LruList.ResultCache.StoreNew` | backend/internal/pineruntime/runtime_jobs.go:176-186 | The eviction loop keeps the newest `limit` entries |
| `LruList.ResultCache.DropFront` | backend/internal/pineruntime/runtime_jobs.go:179-185 | One eviction takes the front entry from map and list |
| `JobSteps.RunKeeps` | backend/internal/pineruntime/runtime_jobs.go:80-187 | Every interleaving: one queued-or-running task for each key, in-flight table exactly those tasks and within workers plus queue, apart from the cache, values from their own key |
| `JobSteps.StepKeeps` | backend/internal/pineruntime/runtime_jobs.go:80-187 | One step of any caller or worker keeps all of that |
| `JobSteps.InflightCount` | backend/internal/pineruntime/runtime_jobs.go:105-105 | The in-flight table has as many entries as tasks are queued or running |
| `JobSteps.GuardNeverRejects` | backend/internal/pineruntime/runtime_jobs.go:158-160 | The identity check of finish always passes, and the call is still waiting |
| `JobSteps.OneJobForAKey` | backend/internal/pineruntime/runtime_jobs.go:101-104 | A call is waiting exactly when whoever asks for its key joins it |
| `JobSteps.OutcomesAreFinal` | backend/internal/pineruntime/runtime_jobs.go:161-167 | Along any run a completed call keeps its outcome: each completion is signalled once |
| `JobSteps.ValuesComeFromTheirKey` | backend/internal/pineruntime/runtime_jobs.go:80-130 | Whatever a caller gets for a key, at once or after waiting, was produced by work of that key |
| `RuntimeJobs.JobGroup.constructor` | backend/internal/pineruntime/runtime_jobs.go:58-78 | Starts empty with the default or given limits |
| `RuntimeJobs.JobGroup.Do` | backend/internal/pineruntime/runtime_jobs.go:80-130 | Replies and changes the tables as that step does; a caller found gone at either look changes nothing |
| `RuntimeJobs.JobGroup.TakeNext` | backend/internal/pineruntime/runtime_jobs.go:132-136 | A free worker takes the oldest task |
| `RuntimeJobs.JobGroup.FinishTask` | backend/internal/pineruntime/runtime_jobs.go:155-168 | Completes the call, caches a good value, frees the key |
| `HistoryCache.NormalizeCandles` | backend/internal/mt5stream/service.go:2030-2046 | Ascending, the last candle of each time |
| `HistoryCache.MergeCandles` | backend/internal/mt5stream/service.go:2000-2024 | Ascending; the map union in which incoming candles win |
| `HistoryCache.MergeHistoryPreservingExisting` | backend/internal/mt5stream/service.go:971-990 | Ascending; the map union in which cached candles win |
| `HistoryCache.HistoryResponseNeedsConservativeMerge` | backend/internal/mt5stream/service.go:947-969 | Decides which answers may be old, latest candle time included |
| `HistoryCache.MergeMessage` | backend/internal/mt5stream/service.go:917-926 | The union an answer calls for |
| `HistoryCache.LimitCandles` | backend/internal/mt5stream/service.go:1950-1966 | The newest `limit` candles before the cursor |
| `HistoryCache.RecordHistoryPage` | backend/internal/mt5stream/service.go:1029-1077 | Records a cursor, keeps a larger page, and evicts the smallest cursor of a full table |
| `HistoryCache.FarthestLeft` | backend/internal/mt5stream/service.go:1064-1071 | The scan finds the smallest cursor |
| `HistoryCache.PagesBounded` | backend/internal/mt5stream/service.go:1060-1076 | At most 256 cursors are kept |
| `HistoryCache.CachedHistoryPageCandles` | backend/internal/mt5stream/service.go:1099-1124 | The loop cuts the covered range out of the cache |
| `HistoryCache.ServedPage` | backend/internal/mt5stream/service.go:1099-1124 | A served page is the newest of the covered candles, ascending, before the cursor, and says more whenever one was cut |
| `HistorySteps.RunKeeps` | backend/internal/mt5stream/service.go:901-1021 | Every interleaving keeps the request table, the channels and the pages in form: every candle time of a page stays cached under the series its answer named |
| `HistorySteps.StepKeeps` | backend/internal/mt5stream/service.go:901-1021 | One locked section keeps that |
| `HistorySteps.LateAnswersChangeNothing` | backend/internal/mt5stream/service.go:916-931 | An answer to a request that no longer waits changes nothing |
| `HistorySteps.AbandonedStaysAbandoned` | backend/internal/mt5stream/service.go:1527-1541 | However late, an answer to an abandoned request changes nothing |
| `HistorySteps.SpentStays` | backend/internal/mt5stream/service.go:1464-1542 | With fresh ids, a request that was answered, abandoned or cut off never waits again |
| `HistorySteps.TakenOnce` | backend/internal/mt5stream/service.go:901-1021 | A channel is taken once: by a response, a disconnect or its caller |
| `HistorySteps.SendsArrive` | backend/internal/mt5stream/service.go:934-941 | No send meets a closed or full channel |
| `HistorySteps.MergesKeepTimes` | backend/internal/mt5stream/service.go:917-926 | Cached times stay; a conservative answer alters no cached candle |
| `HistorySteps.CacheIsFold` | backend/internal/mt5stream/service.go:901-942 | The cache of a series is the fold of the accepted answers for it |
| `HistorySteps.PageShowsWhen` | backend/internal/mt5stream/service.go:1082-1124 | A page cut for a recorded cursor is ascending, before the cursor, and accounts for (shows, or says that older ones were cut) exactly those of its loaded times that are cached under its series when it is cut |
| `HistorySteps.ServedPageShowsWhen` | backend/internal/mt5stream/service.go:1082-1124 | The same over runs, whatever series the answers named: coverage read after some steps, candles after any more of them |
| `HistorySteps.ServedPagesAreWhole` | backend/internal/mt5stream/service.go:1082-1124 | So where the answer behind a page named its own series, the page accounts for every time it was loaded with |
| `HistorySteps.MisnamedPageShowsWhen` | backend/internal/mt5stream/service.go:901-932 | After any run, an answer naming another series is recorded as a page of the series asked for and leaves that series' cache as it was; of the loaded times the page accounts for exactly those that were cached there before - none, if nothing was |
| `HistoryRequests.HistoryService.constructor` | backend/internal/mt5stream/service.go:121-153 | Starts empty |
| `HistoryRequests.HistoryService.ApplyHistory` | backend/internal/mt5stream/service.go:901-932 | The locked part of an answer, whatever series it names: merge if accepted, take the waiter out |
| `HistoryRequests.HistoryService.MergeAccepted` | backend/internal/mt5stream/service.go:919-930 | Merges into the series the answer names |
| `HistoryRequests.HistoryService.SetConn` | backend/internal/mt5stream/service.go:1001-1007 | A connection is there |
| `HistoryRequests.HistoryService.SetConnected` | backend/internal/mt5stream/service.go:992-999 | The connection is ready, or no longer so |
| `HistoryRequests.HistoryService.Register` | backend/internal/mt5stream/service.go:1480-1491 | Puts a fresh request into the table, with a connection that is ready |
| `HistoryRequests.HistoryService.SendNext` | backend/internal/mt5stream/service.go:934-941 | Delivers an answer to an open, empty channel |
| `HistoryRequests.HistoryService.Abandon` | backend/internal/mt5stream/service.go:1527-1541 | Takes a given-up request out |
| `HistoryRequests.HistoryService.ClearConn` | backend/internal/mt5stream/service.go:1009-1021 | Forgets the connection if it is the current one, and takes every request out |
| `HistoryRequests.HistoryService.ClosePending` | backend/internal/mt5stream/service.go:1017-1020 | The loop takes every request out and closes its channel |
| `HistoryRequests.HistoryService.RecordPage` | backend/internal/mt5stream/service.go:537-539 | Records the page a request was answered with |
| `HistoryRequests.HistoryService.CachedHistoryPage` | backend/internal/mt5stream/service.go:1082-1097 | Finds a coverage exactly when the very cursor was loaded with as large a limit |
| `HistoryRequests.HistoryService.ServePage` | backend/internal/mt5stream/service.go:1099-1124 | Cuts the page in a later section from what is cached by then: ascending, before the cursor, and accounting for exactly the loaded times cached by then - all of them where the answer named its own series |
| `FlightSteps.RunKeeps` | backend/internal/mt5stream/service.go:1325-1409 | Every interleaving: a flight in the table has exactly its counted waiters, at least one, and is not finished |
| `FlightSteps.StepKeeps` | backend/internal/mt5stream/service.go:1325-1409 | One locked section keeps that |
| `FlightSteps.JoinedFlightsAreWanted` | backend/internal/mt5stream/service.go:1369-1379 | Nobody joins an abandoned flight |
| `FlightSteps.LastOutCancels` | backend/internal/mt5stream/service.go:1381-1397 | The step that counts the last waiter out takes the flight from the table and holds its cancel function |
| `FlightSteps.LeaderPassed` | backend/internal/mt5stream/service.go:1334-1340 | When the last waiter leaves, cancel is already installed |
| `FlightSteps.NobodyWaitsInVain` | backend/internal/mt5stream/service.go:1359-1367 | No caller is left waiting for a given-up request |
| `FlightSteps.FinishSparesNewer` | backend/internal/mt5stream/service.go:1399-1409 | Finishing a flight leaves a newer one under the same key alone |
| `FlightSteps.AbandonedIsCancelled` | backend/internal/mt5stream/service.go:1381-1397 | An abandoned, unfinished flight is cancelled or about to be |
| `HistoryFlights.FlightTable.constructor` | backend/internal/mt5stream/service.go:121-153 | Starts empty |
| `HistoryFlights.FlightTable.JoinHistoryFlight` | backend/internal/mt5stream/service.go:1369-1379 | Joins the current flight or leads a new one |
| `HistoryFlights.FlightTable.InstallCancel` | backend/internal/mt5stream/service.go:1334-1340 | The leader installs cancel, always into the current flight |
| `HistoryFlights.FlightTable.LeaveHistoryFlight` | backend/internal/mt5stream/service.go:1381-1397 | Counts a waiter out; the last one gets the cancel function |
| `HistoryFlights.FlightTable.PublishResult` | backend/internal/mt5stream/service.go:1399-1402 | Publishes the result before the table is cleaned |
| `HistoryFlights.FlightTable.RemoveFinished` | backend/internal/mt5stream/service.go:1404-1408 | Cleans the table only of this flight |
| `StreamSteps.RunKeeps` | backend/internal/mt5stream/service.go:375-446 | Every interleaving keeps the collected, decided or written set up to date when no caller is between change and sync |
| `StreamSteps.StepKeeps` | backend/internal/mt5stream/service.go:375-446 | One step keeps that, subscriber changes during a collection included |
| `StreamSteps.StreamSetConverges` | backend/internal/mt5stream/service.go:375-446 | With a catalog, when all callers are done, the last set written is the resolved union of sticky and subscriber symbols, unless the last write failed or nothing was ever wanted |
| `StreamSteps.SuccessfulWritesConverge` | backend/internal/mt5stream/service.go:375-446 | With a catalog and successful writes the set on the wire is right, or nothing was sent and nothing is wanted |
| `StreamSteps.EmptyCatalogSendsNothing` | backend/internal/mt5stream/service.go:396-398 | With an empty catalog nothing is ever sent, so a quiet state is right exactly when nothing is wanted |
| `StreamSet.StreamService.constructor` | backend/internal/mt5stream/service.go:121-153 | Starts with nothing wanted |
| `StreamSet.StreamService.RegisterTickSubscriber` | backend/internal/mt5stream/stream.go:40-62 | A new subscriber wants nothing yet |
| `StreamSet.StreamService.Subscribe` | backend/internal/mt5stream/stream.go:143-154 | Adds symbols and owes a sync |
| `StreamSet.StreamService.Unsubscribe` | backend/internal/mt5stream/stream.go:170-182 | Removes symbols and owes a sync |
| `StreamSet.StreamService.SetSymbols` | backend/internal/mt5stream/stream.go:184-193 | Replaces symbols and owes a sync |
| `StreamSet.StreamService.CloseSubscriber` | backend/internal/mt5stream/stream.go:135-141 | Unregisters and owes a sync |
| `StreamSet.StreamService.BeginSync` | backend/internal/mt5stream/service.go:378-388 | Takes the write lock and starts from the sticky symbols |
| `StreamSet.StreamService.ReadSubscriber` | backend/internal/mt5stream/service.go:389-393 | Adds one subscriber as it is at that moment |
| `StreamSet.StreamService.DecideSet` | backend/internal/mt5stream/service.go:396-417 | Gives up on an empty catalog, else resolves what was collected |
| `StreamSet.StreamService.CommitSet` | backend/internal/mt5stream/service.go:419-430 | Remembers the set unless it is the last one sent |
| `StreamSet.StreamService.WriteSet` | backend/internal/mt5stream/service.go:432-445 | Writes it; a failed write is forgotten |
| `StreamSet.StreamService.SyncStreamSymbols` | backend/internal/mt5stream/service.go:375-446 | A whole sync leaves the wire up to date if no one else waits, and untouched without a catalog |
| `StreamSet.StreamService.ResolveSymbols` | backend/internal/mt5stream/service.go:400-415 | The loop resolves against the catalog without repeats |
| `AlertGeometry.ValidationIsStable` | backend/internal/alerts/model.go:337-394 | A stored target validates again to itself |
| `AlertGeometry.ValidatedChannelIsExactWhen` | backend/internal/alerts/model.go:359-389 | A validated channel is an exact linear one exactly when it is linear and its slopes are equal |
| `AlertGeometry.NormalizedOnceWhen` | backend/internal/alerts/technical_evaluator.go:29-34 | A time normalized twice is the time normalized once exactly below 100 000 000 000 000 |
| `AlertGeometry.GapDrift` | backend/internal/alerts/technical_evaluator.go:98-104 | The gap between two lines moves by the difference of their slopes times the time passed |
| `AlertGeometry.ChannelKeepsItsWidth` | backend/internal/alerts/technical_evaluator.go:112-147 | At every active time an exact channel is equally wide, and upper and lower are the same stored lines |
| `AlertGeometry.SegmentBetweenAnchors` | backend/internal/alerts/technical_evaluator.go:85-99 | A segment stays between its anchor prices |
| `AlertGeometry.AnchorsMaySwap` | backend/internal/alerts/technical_evaluator.go:73-110 | Swapping the anchors of a segment or infinite line changes nothing |
| `AlertGeometry.EnterExitAt` | backend/internal/alerts/technical_evaluator.go:242-248 | enter and exit fire exactly on the changes of being inside |
| `AlertGeometry.EnterAndExitAlternate` | backend/internal/alerts/technical_evaluator.go:242-248 | Over any run of active ticks, two firings of one have a firing of the other between them |
| `AlertGeometry.CrossAt` | backend/internal/alerts/technical_evaluator.go:196-224 | crossUp and crossDown fire exactly on the sign changes of the distance |
| `AlertGeometry.FallBetweenRisesWhen` | backend/internal/alerts/technical_evaluator.go:216-224 | Between two rises of any run of distances there is a fall exactly when something between them is above |
| `AlertGeometry.RiseBetweenFallsWhen` | backend/internal/alerts/technical_evaluator.go:216-224 | Between two falls there is a rise exactly when something between them is below |
| `AlertGeometry.CrossingsAlternateWhen` | backend/internal/alerts/technical_evaluator.go:196-224 | Between two firings of crossUp there is one of crossDown exactly when a tick between them is above the line, and the mirror image |
| `AlertGeometry.BoundaryCrossAt` | backend/internal/alerts/technical_evaluator.go:250-264 | The crossing operators of a channel fire exactly on the sign changes of the distance from their boundary |
| `AlertGeometry.BoundaryCrossingsAlternateWhen` | backend/internal/alerts/technical_evaluator.go:250-264 | Crossings of either boundary alternate under exactly the same condition |
| `AlertGeometry.TouchingBreaksAlternation` | backend/internal/alerts/technical_evaluator.go:216-219 | The input that breaks alternation: a price that touches the target and falls back crosses up twice with no crossing down |
| `AlertSteps.RunKeeps` | backend/internal/alerts/repo.go:75-448 | Every run keeps the relation between revisions, recorded and stored events |
| `AlertSteps.StepKeeps` | backend/internal/alerts/repo.go:75-448 | One transaction keeps it |
| `AlertSteps.RevisionsNeverDecrease` | backend/internal/alerts/repo.go:107-114 | Along any run an alert never goes back in revision, and its judged fields change only with it |
| `AlertSteps.EventsUnderOneRevision` | backend/internal/alerts/repo.go:345-379 | Events ever recorded under one revision were judged against the same fields, and a one-time alert records at most one |
| `AlertSteps.StoredEventsDiffer` | backend/internal/alerts/repo.go:318-339 | No two stored events share alert, revision and time, and at most 200 are stored |
| `AlertSteps.PrunedIsShort` | backend/internal/alerts/repo.go:383-390 | Pruning leaves at most 200 events |
| `AlertSteps.KeepNewestMembers` | backend/internal/alerts/repo.go:383-390 | Exactly the events with fewer than 200 newer ones survive |
| `AlertSteps.TriggeredWhen` | backend/internal/alerts/repo.go:261-345 | An event is inserted only for an enabled active alert, under its present revision, met by the evidence, once for each attempt |
| `AlertSteps.RetryReturnsTheEventWhen` | backend/internal/alerts/repo.go:318-339 | Retrying the same evidence returns the recorded event exactly when it survived pruning, ties of time decided by the id drawn for it, and then changes nothing |
| `AlertArming.Repo.constructor` | backend/internal/alerts/repo.go:37-39 | Starts empty |
| `AlertArming.Repo.CreateAlert` | backend/internal/alerts/repo.go:75-137 | Inserts or updates by client id, bumping the revision when a judged field changes |
| `AlertArming.Repo.PatchAlert` | backend/internal/alerts/repo.go:139-198 | Changes the given fields, bumping the revision also on re-activation |
| `AlertArming.Repo.FindRow` | backend/internal/alerts/repo.go:592-601 | Selects by id or client id |
| `AlertArming.Repo.DeleteAlert` | backend/internal/alerts/repo.go:200-218 | Removes the alert and unlinks its events |
| `AlertArming.Repo.TriggerAlert` | backend/internal/alerts/repo.go:220-395 | Replies and changes the rows in the order of the checks, under whatever id the table draws |
| `AlertArming.Repo.Clear` | backend/internal/alerts/repo.go:441-448 | Deletes the events, nothing else |
| `ExecutorSteps.RunKeeps` | backend/bridge/mt5_stream/mt5_server.py:129-192 | Every interleaving of callers, worker and a draining shutdown keeps queue, futures and sentinel in form |
| `ExecutorSteps.StepKeeps` | backend/bridge/mt5_stream/mt5_server.py:129-192 | One step keeps that |
| `ExecutorSteps.TakenPrecedes` | backend/bridge/mt5_stream/mt5_server.py:159-161 | What the worker takes precedes everything else queued |
| `ExecutorSteps.EqualsAreFirstInFirstOut` | backend/bridge/mt5_stream/mt5_server.py:152-157 | Calls of one priority leave the queue in submission order |
| `ExecutorSteps.WorkerReachesTheSentinel` | backend/bridge/mt5_stream/mt5_server.py:187-190 | Until a closed executor has stopped its sentinel is queued, and nothing was enqueued behind it |
| `ExecutorSteps.ShutdownSettlesAll` | backend/bridge/mt5_stream/mt5_server.py:174-192 | With priorities up to the sentinel, a stopped worker leaves nothing queued and every call settled; without cancellation every call ran unless its caller cancelled it |
| `ExecutorSteps.UnsettledAreBehindSentinel` | backend/bridge/mt5_stream/mt5_server.py:159-172 | For any priorities, the calls a stopped worker leaves unsettled are exactly those queued behind the sentinel that their callers did not cancel |
| `ExecutorSteps.SettledStays` | backend/bridge/mt5_stream/mt5_server.py:165-170 | A call is resolved or cancelled once |
| `ExecutorSteps.PriorityAboveSentinelIsForgotten` | backend/bridge/mt5_stream/mt5_server.py:187-190 | A call of any priority above the sentinel's is left pending by a shutdown |
| `PriorityExecutor.Executor.constructor` | backend/bridge/mt5_stream/mt5_server.py:132-144 | Starts empty and open |
| `PriorityExecutor.Executor.SubmitCall` | backend/bridge/mt5_stream/mt5_server.py:146-157 | Queues a call under the next number, unless shut down |
| `PriorityExecutor.Executor.Get` | backend/bridge/mt5_stream/mt5_server.py:161-161 | Removes the first entry of the queue order |
| `PriorityExecutor.Executor.TakeCall` | backend/bridge/mt5_stream/mt5_server.py:159-166 | Runs it, skips a cancelled one, or stops |
| `PriorityExecutor.Executor.FinishRunning` | backend/bridge/mt5_stream/mt5_server.py:167-170 | Resolves the running call |
| `PriorityExecutor.Executor.Shutdown` | backend/bridge/mt5_stream/mt5_server.py:174-192 | Queues the sentinel last; a cancelling one leaves only the sentinel and no pending call |
| `Credentials.EncodeCredential` | backend/internal/mt5credentials/credential.go:57-75 | Writing at moving offsets gives header and parts in order; invalid credentials are refused |
| `Credentials.CopyInto` | backend/internal/mt5credentials/credential.go:70-73 | A copy extends what is written so far |
| `Credentials.WriteHeader` | backend/internal/mt5credentials/credential.go:66-69 | Version and three little-endian lengths |
| `Credentials.DecodeCredential` | backend/internal/mt5credentials/credential.go:77-101 | Accepts exactly the encodings of valid credentials |
| `Credentials.DecodeOfEncoded` | backend/internal/mt5credentials/credential.go:57-101 | Decoding undoes encoding for every valid credential |
| `Credentials.EncodedOfDecoded` | backend/internal/mt5credentials/credential.go:77-101 | Every accepted blob re-encodes to itself |
| `CommandFrames.PrefixFields` | backend/bridge/mt5_vm/phase1_adapter.py:166-176 | The loop joins length-prefixed fields, refusing what is too large |
| `CommandFrames.SplitOfJoined` | backend/bridge/mt5_vm/phase1_adapter.py:166-176 | A reader splits every sendable list back |
| `CommandFrames.FramingIsUnambiguous` | backend/bridge/mt5_vm/phase1_adapter.py:166-176 | Distinct field lists never give the same bytes |
| `CommandFrames.SignatureCoversContent` | backend/bridge/mt5_vm/phase1_adapter.py:179-193 | Frames with the same signing bytes carry the same content |
| `CommandFrames.AcceptedIsNewer` | backend/bridge/mt5_vm/phase1_adapter.py:247-249 | An accepted frame has a larger sequence than the last |
| `CommandFrames.SequencesIncrease` | backend/bridge/mt5_vm/phase1_adapter.py:544-547 | Accepted sequences strictly increase from one on, and written frames are numbered 1, 2, 3 and so on |
| `CommandFrames.NoFrameTwice` | backend/bridge/mt5_vm/phase1_adapter.py:230-272 | No frame is accepted twice, nor one with the same signing bytes |
| `CommandFrames.RunAdapter` | backend/bridge/mt5_vm/phase1_adapter.py:526-608 | The loop of a session: outputs, accepted commands and exit code |

## Left out

Things the repository does that the model does not:

- Infinity and rounding of floating-point numbers: a number is "not a number" or a real.
- The tokenizer, comment stripping and indentation counting: texts are token lists, lines carry their indent, and a flag tells "if(" from "if (" but no flag tells "switch(", which the code does not take for a switch, from "switch (". Text patterns (assignment, self reference, whole call, drawing call) are stated on tokens, so they do not see spacing inside a line, leading zeros of a number, or matches inside quoted text.
- User-defined functions, `str.*`, `color.new`, `time(timeframe)`, `timeframe.period`, inferred mintick and the input overrides of scripts.
- The stateful script VM (`compileStatefulPine`), drawing-object geometry, plot styles, labels, dashboards and fills.
- Line-break plots (`lineBreakPlotSeries`) and the label filter of the replay clamp.
- Waiting itself: contexts, time-outs and the random choice between a finished job and a cancelled caller; they show as a caller that may leave or return.
- Freshness annotation of history snapshots, background refreshes and look-around windows: they choose which request is made.
- Reconnection and catalog reload of the stream service: the stream set is proved for one connection and catalog.
- SQL text, other users' rows, alert channels and notes, push tokens, and rounding to numeric(20,8).
- HTTP, WebSocket and JSON transport, configuration, logging, and the MetaTrader calls.

Members whose contract is weaker than the source or rests on an assumption:

- PineCausality.NoLookAhead: excludes the three whole-series names and text meeting a series, where the code does look ahead (`WholeSeriesNamesLookAhead`, `TextJoinStableWhen`, `TextCompareStableWhen`).
- PineLoweringMeaning.LoweringKeepsMeaning: asks that a local is used only as the bare last line and that no variable is called `na`; `LocalInScopeWhen` and `ShadowedLocalInScopeWhen` say exactly when a block with one local does without the first.
- PineParser.EvaluateCall: leaves out user functions, `str.*`, `color.new` and `time(timeframe)`, which are errors here.
- PineParser.ExpressionParser.ParseNamed: likewise leaves out calls of user functions.
- PineLowering.ParseValue: takes "switch(" for a switch, which the code does not.
- ReplayCutoff.ReadAssignments: passes over function definitions without keeping them, so that a call of one is an error; errors are skipped, not listed.
- PineScripts.EvaluateAssignmentValue: leaves out the overrides of inputs.
- PineGuards.GuardIsThePath: asks that conditions evaluate, heads are written with a space and no blank line breaks a nested chain; the lemmas beside it show what happens otherwise.
- PineScripts.EvaluateRequestSecurity: the symbol argument is only asked to be there, as the runtime has the candles of one symbol; candles ascend, as normalization leaves them.
- PineScriptCausality.TextsAgree: asks of every request met that something is visible to the last shared bar and that the cut leaves more than one wider candle or there is only one; the runtime treats one candle apart (`OneCandleRunsDiffer`).
- RequestSecurity.AggregateCandlesForTimeframe: asks for ascending candles, as normalization leaves them.
- ReplayCutoff.ReplayCommutes: asks that at least two candles are left, since the runtime treats one candle apart, and starts from inputs that do not vary.
- LruList.NodeList.Front: list nodes hold key and value directly; the boxed element of the Go list is not modelled.
- RuntimeJobs.JobGroup.Do: calls are numbered instead of allocated.
- HistorySteps.RunKeeps: assumes fresh request ids.
- HistorySteps.ServedPagesAreWhole: asks that the answer behind the page named its own series; `ServedPageShowsWhen` says exactly what any page accounts for, and `MisnamedPageShowsWhen` what becomes of an answer that did not.
- StreamSet.StreamService.SyncStreamSymbols: states a sync without interleaving; the interleaved claim is `StreamSteps.StreamSetConverges`. The joined key of a set is the set itself, names having no zero byte.
- AlertArming.Repo.TriggerAlert: takes evidence times through one stamp function and claims as reals.
- PriorityExecutor.Executor.Shutdown: states a shutdown that the worker does not interleave with; `ExecutorSteps.RunKeeps` covers the interleaved one.
- CommandFrames.RunAdapter: JSON fields are numbers or texts, and whether a command's collection succeeds is an input.
