# eq — a Dafny model of the EDN query engine

`eq` is a command-line query tool for EDN (Extensible Data Notation), in the
spirit of `jq` for JSON. A query is itself written in EDN, for example
`(-> :users first :name)`. The tool reads the EDN input, turns the query into
a tree of query operations and evaluates it against each input value. It then
prints the result, compactly or pretty-printed. This project models the
engine's core in Dafny and proves properties of that model:

- **Values** (`Value`): the EDN value type with its sequential, associative
  and counting views. Metadata wrappers are transparent to each of them.
  Truthiness is also here.
- **The query pipeline**:
  - `QueryParser`: staging an EDN value into a raw query tree.
  - `Analyzer`: the fixed-point analysis that expands `->`, `->>` and `when`
    and resolves heads, checking arity.
  - `MacroExpansion`: the older macro expander.
  - `Evaluator`: the tree-walking evaluator.
  - `Builtins`: the builtin function table.
  - `CoreOps`: the ordering, `select-keys` and `frequencies` code that the
    evaluator, the builtins and the machine each carry a copy of.
- **The bytecode path**:
  - `Compiler`: the compiler, a class that appends instructions to a
    compiled query and back-patches jumps.
  - `Vm`: the stack machine that runs the compiled code.
  - `CompilerFacts` and `VmFacts`: the layout of the compiled code, and what
    running it computes.
- **The EDN reader**:
  - `EdnReader`: the specification functions, each reading one form from a
    position in the text.
  - `EdnParser`: the cursor-based parser class whose methods are proved to
    agree with them.
  - `EdnFacts`: properties of the reader.
- **Printing**:
  - `Primitives`: string escaping and character literals, each proved to
    read back through the reader.
  - `Output`, `OutputFacts` and `StringOrder`: the output renderer, with the
    sort the compact printer applies to set texts.
  - `CollectionFormatter`, `Formatter` and `FormatterFacts`: the formatter
    pair and the collection layout they share.

Where the prose description of the system and the code disagree, the model
follows the code:

- **Lambdas and environments**: the description has an evaluator with lexical
  environments and lambda application. The evaluator of this revision has no
  environment. In its builtin table, `map`, `remove` and `select` are
  placeholders that always fail.
- **Jumps in the machine**: the description implies that a jump lands on its
  target. The machine's loop adds one to the counter after every
  instruction, jumps included. Both loops are modelled; see Findings.
- **Types from different revisions**: the core files were written against
  different revisions of the query tree and the instruction set. Each module
  declares the tree it consumes (`Ast.Expr`, `MacroExpansion.Expr`,
  `Compiler.Expr`).

Integers are unbounded here: the 64-bit range is enforced only where the
reader rejects an integer literal outside it. Lengths that the layout tests
compare are UTF-8 byte lengths, as `String::len` returns them. Loops that the
source does not bound carry a `fuel` parameter:

- the analyzer's fixed point;
- the machine's fetch-execute loop.

Running out of fuel is a model-only error.

Most operations are modelled as specification functions with no contract of
their own. What the source promises about each one is stated by the lemmas
beside it. The table below names those lemmas; this list says which lemmas
belong to each function:

- `Value.GetIn`: `Value.GetInLoop`, `GetInEmpty`, `GetInNoneAbsorbs`,
  `GetInAppend`, `GetInSingle`.
- `Value.MapLookup`: `Value.MapLookupSpec`, `MapLookupUnique`.
- `Value.MapInsert`: `Value.MapInsertSpec`, `MapInsertKeys`, `MapInsertLookup`,
  `MapInsertUnique`.
- `Analyzer.Analyze` and `AnalyzeOnce`: `Analyzer.AnalyzeLoop`,
  `AnalyzeFixedPoint`, `AnalyzeIdempotent`, `ListDispatch`,
  `EmptyListRejected`, `BadHeadRejected`, `MacroExpandsRaw`.
- `Analyzer.AnalyzeKeywordCall`: `Analyzer.KeywordCallArity`.
- `Analyzer.AnalyzeFunctionCall`: `Analyzer.UnknownFunctionRejected`,
  `NullaryArityChecked`, `UnaryArityChecked`, `BinaryArityChecked`.
- `Analyzer.ExpandWhen`: `Analyzer.WhenExpansion`.
- `Analyzer.ThreadInto`: `Analyzer.ThreadIntoShape`, `ThreadFoldNests`,
  `ThreadFoldRejects`, `ExpandThreadingSpec`.
- `Evaluator.Evaluate`, `EvalNode` and `EvalLeaf`: `Evaluator.IdentityAndLiteral`,
  the `Keyword…` lemmas, `IfTruthy`, `IfFalsy`, `IfFalsyNoElse`,
  `CompThreads`, `TakeOfSpec`, `DropOfSpec`, `MapShape`, `RemoveShape`,
  `SelectKeysSpec`, `FrequenciesOfSpec`, `RejectedNodes`.
- `MacroExpansion.ExpandMacros`: `MacroExpansion.ExpansionMacroFree`,
  `MacroFreeUnchanged`, `ExpandIdempotent`, `EmptyThreading`,
  `WhenExpansion`, `IfExpansion` and the `…Stage` lemmas.
- `Compiler.Code`: the `Compiler.Compiler` methods, whose contracts say that
  they append exactly `Code` of the expression, and `CompilerFacts`.
- `Vm.Step`: `Vm.StepKinds`, `StepFrame`, `StepJumps`, `StepFails`,
  `StepEmptyStack`, `StepSingleValue` and the other step lemmas.
- `Vm.Run` (the corrected loop): `Vm.RunUnfold`, `RunNext`, `RunFails`,
  `RunMoreFuel`, `VmFacts.BranchRuns` and the other `VmFacts` runs.
- `Vm.RunAsWritten` (the loop as written): `Vm.AsWrittenNext`,
  `NoJumpsAgree`, `VmFacts.BranchCodeRunsAsWritten`, `BranchRunsAsWritten`,
  `JumpSkipsElse`.
- `EdnReader.Parse`: `EdnFacts.BlankInputReadsNil`, `SkipToEnd`,
  `ParseFirst`, and `EdnParser.Parser.Parse`.
- `EdnReader.IsValidUuid` and `UuidAsWritten`: `EdnFacts.UuidFromGroups`,
  `UuidGroups`, `UuidAsWrittenAgrees`, `UuidAsWrittenAscii`,
  `UuidAsWrittenPanics`.
- `EdnReader.IsValidInstant`: `EdnFacts.InstantPrefix`,
  `InstantDecidedByPrefix`, `TagValueCases`.
- `Output.FormatOutput`, `FormatCompact` and `FormatPretty`: the
  `OutputFacts` lemmas.
- `Output.MakeIndent`: `OutputFacts.MakeIndentSpec`.
- `Formatter.CompactFormat` and `PrettyFormat`: the `FormatterFacts` lemmas,
  in particular `CompactAgrees` and `PrettyAgrees`, which equate them with the
  output renderer.
- `CollectionFormatter.Layout`: `CollectionFormatter.LayoutShape`,
  `LayoutNewlines`.
- `Builtins.Apply`: the `Builtins` lemmas from `OptionalTarget` to
  `IsEmptySpec`.
- `StringOrder.Sort`: `StringOrder.SortSpec`, `SortDeterministic`.

## Model

| member | source | states |
|---|---|---|
| Value.TruthyExactly | src/edn/value.rs:95-97 | a value is falsy exactly when it is `nil` or `false`; `0` and `""` are truthy |
| Value.MapLookupSpec | src/edn/value.rs:190 | a map lookup misses exactly when no entry has the key, and a hit is a stored pair |
| Value.MapLookupUnique | src/edn/value.rs:190 | with distinct keys, looking up an entry's key yields that entry's value |
| Value.MapInsertSpec | src/edn/parser.rs:290 | inserting a present key keeps the map's size; an absent key appends the pair at the end |
| Value.MapInsertKeys | src/edn/parser.rs:290 | after an insert the keys are the old keys, plus the new key at the end when it was absent |
| Value.MapInsertLookup | src/edn/parser.rs:290 | after an insert the key maps to the new value and every other key to what it mapped to before |
| Value.MapInsertUnique | src/edn/parser.rs:290 | an insert keeps the keys distinct |
| Value.AsSlice | src/edn/value.rs:164-171 | anything but a vector or list (seen through metadata) has an empty slice |
| Value.First | src/edn/value.rs:127-134 | the first element of the slice, or none when it is empty |
| Value.Last | src/edn/value.rs:136-143 | the last element of the slice, or none when it is empty |
| Value.Rest | src/edn/value.rs:145-152 | always a vector; empty for an empty slice, otherwise the slice without its first element |
| Value.Take | src/edn/value.rs:154-157 | always a vector; a prefix of the slice of length `min(n, len)` |
| Value.Drop | src/edn/value.rs:159-162 | always a vector; the elements after the first `min(n, len)`, in order |
| Value.TakeDropSplit | src/edn/value.rs:154-162 | `take(n)` followed by `drop(n)` is the whole slice |
| Value.RestIsDropOne | src/edn/value.rs:145-162 | `rest` is `drop(1)` |
| Value.IterValues | src/edn/value.rs:175-184 | vector and list elements in order, map values in insertion order, set elements |
| Value.IterValuesOfScalar | src/edn/value.rs:182 | a scalar yields no values |
| Value.Count | src/edn/value.rs:101-111 | the element count of a vector, list, map or set and the character count of a string; a metadata wrapper counts as the value it wraps |
| Value.CountThroughMetadata | src/edn/value.rs:101-111 | a value counts as the value under all its metadata wrappers: a wrapped vector, list, map, set or string has its count, anything else none |
| Value.CountOfScalar | src/edn/value.rs:109 | every other value has no count |
| Value.IndexFor | src/edn/value.rs:191-207 | an integer names a position exactly when `-len <= i < len`, negative ones counting from the end |
| Value.GetIndex | src/edn/value.rs:191-207 | on a vector or list, `i >= 0` in range gives element `i`, `i < 0` with `len+i >= 0` gives element `len+i`, anything else none |
| Value.GetMinusOneIsLast | src/edn/value.rs:136-207 | index -1 of a non-empty vector or list is its last element, through any metadata wrappers |
| Value.GetNonAssociative | src/edn/value.rs:209 | every other receiver and key pair gives none |
| Value.GetInLoop | src/edn/value.rs:114-123 | the loop that replaces `current` by its `get` for every key computes the fold of `get` along the path |
| Value.GetInEmpty | src/edn/value.rs:114-123 | an empty path returns the value itself |
| Value.GetInNoneAbsorbs | src/edn/value.rs:114-123 | once a step misses, the rest of the path misses too |
| Value.GetInAppend | src/edn/value.rs:114-123 | a path can be followed in two halves |
| Value.GetInSingle | src/edn/value.rs:114-123 | a one-key path is a single `get` |
| CoreOps.CompareStrings | src/builtins.rs:455 | string comparison is -1, 0 or 1, and 0 exactly for equal strings |
| CoreOps.CompareStringsAntisymmetric | src/builtins.rs:455 | swapping the strings negates the comparison |
| CoreOps.CompareStringsPrefix | src/builtins.rs:455 | a proper prefix sorts first |
| CoreOps.CompareStringsTransitive | src/builtins.rs:455 | the string order is transitive |
| CoreOps.CompareValues | src/builtins.rs:435-458 | integers and strings are ordered (sign of the result follows `<`, zero exactly for equality); float pairs are outside the model; any other pair is a type error |
| CoreOps.CompareValuesAntisymmetric | src/builtins.rs:435-458 | swapping the operands negates the outcome, and an error stays an error |
| CoreOps.CompareValuesZeroIffEqual | src/builtins.rs:435-458 | an ordered pair compares as 0 exactly when the values are equal |
| CoreOps.DistinctSpec | src/builtins.rs:411-427 | the first-occurrence list holds exactly the items, each once |
| CoreOps.DistinctPrefix | src/builtins.rs:411-427 | one more item extends the first-occurrence list unless it was already seen |
| CoreOps.PresentKeys | src/builtins.rs:383-388 | the listed keys present in the map, exactly |
| CoreOps.SelectKeysLoop | src/builtins.rs:382-389 | the loop over the key list builds the selection map |
| CoreOps.SelectKeysLookup | src/builtins.rs:382-389 | a key is in the selection exactly when it is listed and present, with the map's value |
| CoreOps.SelectKeysOrder | src/builtins.rs:382-389 | the selection's keys are the listed present keys, in first-listed order |
| CoreOps.SelectKeysUnique | src/builtins.rs:382-389 | the selection's keys are distinct |
| CoreOps.FrequenciesLoop | src/builtins.rs:411-418 | the loop over the items builds the frequency map |
| CoreOps.CountIsInteger | src/builtins.rs:413 | a count read with default 0 from a table of integer counts is an integer, 0 when absent |
| CoreOps.BumpLookup | src/builtins.rs:413-416 | one step records one more for the item and changes no other count |
| CoreOps.BumpInteger | src/builtins.rs:413-416 | one step inserts the old count plus one |
| CoreOps.MapInsertShape | src/builtins.rs:415 | every entry after an insert is the new pair or an old entry |
| CoreOps.BumpIntegers | src/builtins.rs:413-416 | a step keeps every count an integer |
| CoreOps.SumCountsInsert | src/builtins.rs:415 | inserting a count changes the sum of counts by the difference |
| CoreOps.SumBump | src/builtins.rs:413-416 | a step adds one to the sum of the counts |
| CoreOps.OccurrencesMeaning | src/builtins.rs:411-418 | the counted occurrences are the multiplicity, positive exactly for items present |
| CoreOps.CountsLookup | src/builtins.rs:411-418 | after `n` items every item seen maps to its count so far |
| CoreOps.FrequenciesCount | src/builtins.rs:411-418 | each distinct element maps to its number of occurrences, and nothing else is a key |
| CoreOps.CountsKeys | src/builtins.rs:411-418 | after `n` items the keys are the distinct items seen, in first-occurrence order |
| CoreOps.FrequenciesKeys | src/builtins.rs:411-418 | the keys are the distinct elements in first-occurrence order |
| CoreOps.CountsIntegers | src/builtins.rs:411-418 | every count is an integer |
| CoreOps.CountsSum | src/builtins.rs:411-418 | after `n` items the counts add up to `n` |
| CoreOps.FrequenciesSum | src/builtins.rs:411-418 | the counts add up to the number of elements |
| Builtins.Registry.constructor | src/builtins.rs:8 | a new registry binds no names |
| Builtins.Registry.Register | src/builtins.rs:11 | a registration binds the name to the builtin and leaves every other binding as it was |
| Builtins.Registry.Get | src/builtins.rs:7-46 | a lookup finds a builtin exactly for a bound name, and it is the bound one |
| Builtins.CreateBuiltinRegistry | src/builtins.rs:7-46 | the registrations in the source's order build exactly the 26-entry table |
| Builtins.CollectionNames | src/builtins.rs:11-19 | each collection builtin is bound under its own name |
| Builtins.PredicateNames | src/builtins.rs:22-28 | each predicate builtin is bound under its own name |
| Builtins.ComparisonNames | src/builtins.rs:31-35 | each comparison builtin is bound under its own name |
| Builtins.AggregationNames | src/builtins.rs:39-44 | each remaining builtin is bound under its own name |
| Builtins.TableKeys | src/builtins.rs:7-46 | the registry binds exactly the 26 names |
| Builtins.OptionalTarget | src/builtins.rs:53-60 | with no argument an optional-target builtin acts on the context exactly as with that context as its one argument |
| Builtins.TooManyTargets | src/builtins.rs:58-59 | more than one argument to an optional-target builtin is a query error naming the builtin |
| Builtins.OneArgument | src/builtins.rs:117-119 | any other argument count to a one-argument builtin is a query error naming it |
| Builtins.PlaceholdersFail | src/builtins.rs:363-369 | `map`, `remove` and `select` fail with a query error whatever they are given |
| Builtins.ArityClasses | src/builtins.rs:7-46 | every builtin takes an optional target, exactly one argument, or is a placeholder, and no builtin is in both arity classes |
| Builtins.FirstLastOfTarget | src/builtins.rs:50-85 | `first` and `last` of a target are its end elements, `nil` when there are none |
| Builtins.TakeSpec | src/builtins.rs:116-140 | a non-integer count is a type error, a negative one gives an empty vector, otherwise the first `min(n, len)` elements, keeping the list kind |
| Builtins.DropSpec | src/builtins.rs:142-166 | a non-integer count is a type error, a negative one returns the context unchanged, otherwise the rest after `min(n, len)` elements |
| Builtins.NthSpec | src/builtins.rs:168-178 | `nth` is integer `get`: negative indices count from the end and a miss is `nil` |
| Builtins.CountSpec | src/builtins.rs:180-191 | the element count of a vector, list, map or set, the character count of a string, the count of the wrapped value under metadata, and 0 for every value without a count |
| Builtins.SelectKeysBuiltinSpec | src/builtins.rs:371-393 | the key argument must be a vector or list; the result maps exactly the listed present keys to their values, and a non-map context gives an empty map |
| Builtins.FrequenciesBuiltinSpec | src/builtins.rs:400-432 | each element maps to its multiplicity, nothing else is a key, the counts sum to the length, and a non-sequence gives an empty map |
| Builtins.ComparisonSpec | src/builtins.rs:318-360 | `=` is structural equality with the context; integer pairs are ordered by `<`, `>`, `<=`, `>=`; an incomparable context is a type error |
| Builtins.IsEmptySpec | src/builtins.rs:242-253 | `empty?` holds exactly for a vector, list, map, set or string with nothing in it, looks through metadata, and is false for every value without a count |
| Analyzer.EdnRoundTrip | src/analyzer.rs:247-253 | converting a staged argument back to EDN gives the original value |
| Analyzer.EdnToExprCases | src/analyzer.rs:326-332 | `.` stages to the identity, a list to a raw list, anything else to a literal of the same value |
| Analyzer.ExpandThreadingLoop | src/analyzer.rs:139-171 | the threading loop that replaces `result` by one threading step per form computes the threading expansion |
| Analyzer.ThreadFoldNests | src/analyzer.rs:173-230 | threading a staged value through valid stages builds the nested raw form, the value landing in first position for `->` and last for `->>` |
| Analyzer.ThreadIntoShape | src/analyzer.rs:173-230 | a threading step succeeds exactly on a symbol, keyword or non-empty list stage, and builds a raw list |
| Analyzer.ThreadFoldRejects | src/analyzer.rs:198 | any invalid stage makes the whole threading fail |
| Analyzer.ExpandThreadingSpec | src/analyzer.rs:139-171 | zero arguments is an error; with valid stages the result is the nested form; any invalid stage is an error |
| Analyzer.ListDispatch | src/analyzer.rs:25-47 | one pass over a raw list is the list resolution |
| Analyzer.AnalyzeLoop | src/analyzer.rs:6-19 | the loop that replaces `current` by one pass until nothing changes computes `analyze` |
| Analyzer.AnalyzeFixedPoint | src/analyzer.rs:6-19 | a successful analysis returns a fixed point of one pass |
| Analyzer.AnalyzeIdempotent | src/analyzer.rs:6-19 | analyzing the result again returns it unchanged |
| Analyzer.EmptyListRejected | src/analyzer.rs:26-28 | an empty raw list is a query error |
| Analyzer.BadHeadRejected | src/analyzer.rs:45 | a list whose head is neither a symbol nor a keyword is a query error |
| Analyzer.MacroExpandsRaw | src/analyzer.rs:34-38 | a macro call is replaced by its expansion, still raw and unanalyzed |
| Analyzer.WhenExpansion | src/analyzer.rs:233-244 | `when` with two arguments becomes the raw list `(if test body nil)`; any other arity is an error |
| Analyzer.KeywordCallArity | src/analyzer.rs:305-322 | a keyword head with no argument is the "requires at least 1 argument" error and with 3 or more the "takes 1 or 2 arguments, got N" error naming the count; with 1 gives `KeywordGet`, with 2 `KeywordGetWithDefault` |
| Analyzer.UnknownFunctionRejected | src/analyzer.rs:300 | a head outside the table fails with "Unknown function" |
| Analyzer.NullaryArityChecked | src/analyzer.rs:335-340 | a no-argument function given arguments is rejected |
| Analyzer.UnaryArityChecked | src/analyzer.rs:342-350 | a one-argument function given another count is rejected |
| Analyzer.BinaryArityChecked | src/analyzer.rs:352-361 | a two-argument function given another count is rejected |
| Analyzer.ThreadFirstExample | src/analyzer.rs:139-154 | `(-> . first)` analyzes to the first of the context |
| Evaluator.RestOf | src/evaluator.rs:68-91 | `rest` keeps a list a list (through metadata) and makes everything else a vector, holding the value's rest |
| Evaluator.TakeColl | src/evaluator.rs:101-114 | `take` with a count keeps the list or vector kind and holds the first `n` items |
| Evaluator.DropColl | src/evaluator.rs:128-141 | `drop` with a count keeps the list or vector kind and holds the items after the first `n` |
| Evaluator.Ordered | src/evaluator.rs:300-322 | an ordering test succeeds exactly when the comparison does, gives a boolean, and otherwise fails with the comparison's error |
| Evaluator.OrderedIntegers | src/evaluator.rs:403-405 | integers are ordered by value under `<`, `>`, `<=` and `>=` |
| Evaluator.OrderedStrings | src/evaluator.rs:422 | strings are ordered lexicographically, a proper prefix first, and `<=` is `<` or equal |
| Evaluator.OrderedConverse | src/evaluator.rs:300-310 | `x < y` and `y > x` succeed together and agree |
| Evaluator.OrderedIncomparable | src/evaluator.rs:424-425 | a context that is neither a number nor a string fails with "comparable types" naming both types |
| Evaluator.MapLoop | src/evaluator.rs:186-206 | the `map` loop that pushes each result and returns on the first error computes the item-wise map |
| Evaluator.RemoveLoop | src/evaluator.rs:208-232 | the `remove` loop that keeps falsy items and returns on the first error computes the filter |
| Evaluator.CompLoop | src/evaluator.rs:325-332 | the `comp` loop that replaces the running value by each stage's result computes the composition |
| Evaluator.IdentityAndLiteral | src/evaluator.rs:11 | `.` returns the context and a literal returns itself |
| Evaluator.KeywordMissIsNil | src/evaluator.rs:21-24 | a keyword the context lacks gives nil |
| Evaluator.KeywordGetMissIsNil | src/evaluator.rs:26-30 | a keyword missing from the evaluated target gives nil |
| Evaluator.KeywordDefaultOnHit | src/evaluator.rs:32-39 | on a hit the stored value is returned and the default is never consulted |
| Evaluator.KeywordDefaultOnMiss | src/evaluator.rs:32-39 | on a miss the default is evaluated against the original context |
| Evaluator.TakeOperandOrder | src/evaluator.rs:93-95 | the count is evaluated before the collection and its error wins |
| Evaluator.TakeOperands | src/evaluator.rs:93-118 | `take` on evaluated operands is the take of those values |
| Evaluator.DropOperands | src/evaluator.rs:120-145 | `drop` on evaluated operands is the drop of those values |
| Evaluator.TakeOfSpec | src/evaluator.rs:93-118 | a non-integer count is a type error, a negative count or a non-sequence gives `[]`, otherwise the first `n` items of the kind |
| Evaluator.DropOfSpec | src/evaluator.rs:120-145 | a non-integer count is a type error, a negative count returns the collection unchanged, otherwise the items after `n` |
| Evaluator.EvalStagesSuffix | src/evaluator.rs:325-332 | running the stages from `i` on is the composition of the suffix |
| Evaluator.CompThreads | src/evaluator.rs:325-332 | the empty composition is the identity; the first stage's result feeds the rest, and its error stops it |
| Evaluator.CompAppend | src/evaluator.rs:325-332 | composing two stage lists is running the first, then the second on its result |
| Evaluator.IfTruthy | src/evaluator.rs:334-338 | a truthy test gives the then-branch |
| Evaluator.IfFalsy | src/evaluator.rs:339-340 | a falsy test with an else gives the else-branch |
| Evaluator.IfFalsyNoElse | src/evaluator.rs:341-343 | a falsy test without an else gives nil |
| Evaluator.MapShape | src/evaluator.rs:186-206 | `map` keeps the kind and the length, each item the result of `f` on the old item; other contexts are returned as they are |
| Evaluator.RemoveItemsAppend | src/evaluator.rs:208-232 | `remove` distributes over concatenation |
| Evaluator.RemoveShape | src/evaluator.rs:208-232 | `remove` keeps the kind of a vector or list; other contexts are returned as they are |
| Evaluator.MapItemsOk | src/evaluator.rs:190-193 | `map` succeeds exactly when `f` succeeds on every item |
| Evaluator.MapItemsValues | src/evaluator.rs:190-194 | a successful `map` holds at each index the result of `f` on that item |
| Evaluator.MapItemsFirstError | src/evaluator.rs:192 | a failed `map` carries the error of the first failing item |
| Evaluator.RemoveItemsOk | src/evaluator.rs:212-214 | `remove` succeeds exactly when the predicate succeeds on every item |
| Evaluator.RemoveItemsKept | src/evaluator.rs:212-217 | a successful `remove` keeps exactly the items whose predicate is falsy, and no more items than it had |
| Evaluator.RejectedNodes | src/evaluator.rs:346-398 | unexpanded macros, raw lists and the unimplemented aggregations are query errors |
| Evaluator.SelectKeysSpec | src/evaluator.rs:234-246 | `select-keys` gives a map holding exactly the listed keys the context has, with their values, each once, in first-listed order; a non-map gives `{}` |
| Evaluator.FrequenciesSpec | src/evaluator.rs:361-385 | `frequencies` of a vector or list is the frequency table; anything else gives `{}` |
| Evaluator.FrequenciesOfSpec | src/evaluator.rs:361-385 | each distinct item maps to its number of occurrences, keys in first-occurrence order, counts summing to the length |
| Evaluator.IntegerLess | src/evaluator.rs:300-304 | `(< o)` on integers compares the context below the operand |
| Evaluator.IntegerGreaterEqual | src/evaluator.rs:318-322 | `(>= o)` on integers compares the context at or above the operand |
| Evaluator.IncomparableContext | src/evaluator.rs:300-304 | `(< o)` on a context that is neither number nor string is a type error |
| Evaluator.CompExample | src/evaluator.rs:533-549 | first then count on `[[1 2] [3 4]]` gives 2 |
| MacroExpansion.ExpandThreading | src/macro_expansion.rs:8-37 | the loop that threads the running result into each expanded stage computes the expansion of `->` or `->>` |
| MacroExpansion.ThreadIntoMacroFree | src/macro_expansion.rs:101-157 | threading a macro-free value into a macro-free stage gives a macro-free tree |
| MacroExpansion.ExpansionMacroFree | src/macro_expansion.rs:5-95 | no `->`, `->>` or `when` node survives expansion at any depth |
| MacroExpansion.ChildrenMacroFree | src/macro_expansion.rs:40-68 | nodes with one or two children expand to macro-free trees |
| MacroExpansion.BranchesMacroFree | src/macro_expansion.rs:70-88 | compositions, conditionals and reductions expand to macro-free trees |
| MacroExpansion.ThreadRestMacroFree | src/macro_expansion.rs:17-19 | the threading loop over expanded stages keeps the running result macro-free |
| MacroExpansion.ExpandEachMacroFree | src/macro_expansion.rs:70-72 | the expanded stages of a composition hold no macro |
| MacroExpansion.MacroFreeUnchanged | src/macro_expansion.rs:5-95 | a tree without macro nodes is returned exactly as it was |
| MacroExpansion.ExpandEachUnchanged | src/macro_expansion.rs:70-72 | macro-free composition stages are left as they are |
| MacroExpansion.ExpandIdempotent | src/macro_expansion.rs:5-95 | expanding twice is expanding once |
| MacroExpansion.EmptyThreading | src/macro_expansion.rs:9-11 | an empty `->` or `->>` expands to the identity |
| MacroExpansion.WhenExpansion | src/macro_expansion.rs:40-46 | `when` becomes an `if` with the literal nil as its else branch |
| MacroExpansion.IfExpansion | src/macro_expansion.rs:74-80 | an `if` keeps an absent else absent and expands a present one |
| MacroExpansion.InnerRebuilt | src/macro_expansion.rs:49-68 | a node with one child keeps its constructor and its other fields, the child expanded |
| MacroExpansion.NullaryStage | src/macro_expansion.rs:104-116 | an operand-free stage replaces the threaded value |
| MacroExpansion.CollectionStage | src/macro_expansion.rs:104-109 | a collection stage such as `first` replaces the threaded value |
| MacroExpansion.PredicateStage | src/macro_expansion.rs:110-116 | a predicate stage replaces the threaded value |
| MacroExpansion.KeywordStage | src/macro_expansion.rs:119-121 | a keyword stage becomes a `get` of that keyword |
| MacroExpansion.ArgumentStage | src/macro_expansion.rs:124-148 | under `->` the threaded value becomes the argument of `take`, `drop` or `nth`; under `->>` the stage is kept and the value dropped |
| MacroExpansion.OtherStage | src/macro_expansion.rs:151-155 | any other stage is composed with the threaded value |
| MacroExpansion.ThreadFirstExample | src/macro_expansion.rs:208-223 | `(-> . first :name)` expands to `get :name` |
| QueryParser.EdnToExpr | src/query/parser.rs:14-30 | staging always succeeds; symbols become symbols, lists stay raw lists, everything else a literal |
| QueryParser.StageRoundTrip | src/query/parser.rs:14-30 | the staged value can be recovered from the tree |
| QueryParser.StageInjective | src/query/parser.rs:14-30 | two different values never stage to the same tree |
| QueryParser.StageShapes | src/query/parser.rs:17-28 | symbol, keyword, list and other values each stage to their own tree with the payload unchanged |
| Bytecode.CompiledQuery.constructor | src/query/compiler.rs:70-75 | a new query has no instructions and no constants |
| Bytecode.CompiledQuery.AddConstant | src/query/compiler.rs:77-80 | the value is appended to the pool and its index returned; the code is unchanged |
| Bytecode.CompiledQuery.Emit | src/query/compiler.rs:82-84 | exactly one instruction is appended; the pool is unchanged |
| Bytecode.CompiledQuery.CurrentOffset | src/query/compiler.rs:86-88 | the offset is the number of instructions emitted so far |
| Bytecode.CompiledQuery.PatchJump | src/query/compiler.rs:90-96 | only the jump at `offset` is retargeted; every other instruction and the pool are unchanged |
| Compiler.Compiler.constructor | src/query/compiler.rs:105-109 | a new compiler holds a fresh, empty query |
| Compiler.Compiler.CompileExpr | src/query/compiler.rs:117-304 | compiling a node appends exactly that node's code and constants; compilation never fails |
| Compiler.Compiler.CompileLeaf | src/query/compiler.rs:119-218 | a leaf appends its one instruction, or pools its constant and pushes it before its instruction |
| Compiler.Compiler.CompileThreading | src/query/compiler.rs:307-321 | `->` and `->>` append their stages' code in order |
| Compiler.Compiler.CompileComp | src/query/compiler.rs:229-234 | a composition appends its stages' code last stage first |
| Compiler.Compiler.CompileIf | src/query/compiler.rs:236-258 | an `if` appends the test, a conditional jump past the then-code, the then-code and, with an else, a jump to the end and the else-code |
| Compiler.Compiler.CompileBranches | src/query/compiler.rs:241-257 | after the test and the placeholder conditional jump, the then-code follows and the jumps are completed into the `if` layout |
| Compiler.Compiler.CompileTail | src/query/compiler.rs:243-257 | with the then-code in place, the else half or the patch to the end yields exactly the `if` layout |
| Compiler.Compiler.PatchToEnd | src/query/compiler.rs:254-257 | without an else the conditional jump is patched to the end of the then-code |
| Compiler.Compiler.CompileElse | src/query/compiler.rs:243-253 | the conditional jump lands on the else-code and the end jump after it |
| Compiler.Compiler.CompileWhen | src/query/compiler.rs:260-269 | `when` appends the test, a conditional jump to the end, and the body |
| Compiler.Compiler.CompileInit | src/query/compiler.rs:272-278 | a reduction's initial value is compiled, or a pooled nil pushed |
| Compiler.Compiler.CompileReduce | src/query/compiler.rs:271-281 | a reduction appends its initial value, its function, then `Reduce` |
| Compiler.Compile | src/query/compiler.rs:111-115 | compiling a query yields a fresh query holding exactly the code and constants of the tree |
| CompilerFacts.CodeBounded | src/query/compiler.rs:117-304 | every push in a node's code names a constant that node added, and every jump lands inside its own code or at its end |
| CompilerFacts.CompiledQueryValid | src/query/compiler.rs:111-115 | a compiled query is runnable: every push names an existing constant and every jump lands on an instruction or at the end |
| CompilerFacts.LeafShapes | src/query/compiler.rs:119-218 | an operand-free node adds one non-push, non-jump instruction and no constant; a literal pools and pushes its value; `get` pools its key then `Get` |
| CompilerFacts.IfElseLayout | src/query/compiler.rs:236-253 | an `if` with an else lays out test, conditional jump, then-code, jump, else-code |
| CompilerFacts.IfThenLayout | src/query/compiler.rs:254-257 | an `if` without an else is guarded code |
| CompilerFacts.BranchedTargets | src/query/compiler.rs:243-252 | the conditional jump targets the first else instruction and the end jump the end of the code |
| CompilerFacts.GuardedTarget | src/query/compiler.rs:254-257 | the conditional jump of guarded code targets its end |
| CompilerFacts.ThreadingDirection | src/query/compiler.rs:307 | `->` and `->>` compile to the same code: the direction is ignored |
| CompilerFacts.CompIsReversedThreading | src/query/compiler.rs:229-234 | a composition compiles exactly as threading its stages in reverse order |
| CompilerFacts.IfOfLiterals | src/query/compiler.rs:370-384 | `(if test a b)` with an operand-free test compiles to the test, `JumpIfFalse` to 4, `Push 0`, `Jump` to 5, `Push 1` |
| Vm.VmRest | src/vm.rs:107-126 | `rest` keeps the vector or list kind and drops exactly the first item; any other value gives `[]` |
| Vm.VmTake | src/vm.rs:139-145 | `take` keeps the kind and holds the first `min(n, len)` items, a prefix; other values give `[]` |
| Vm.VmDrop | src/vm.rs:161-167 | `drop` keeps the kind and holds `len - min(n, len)` items; other values give `[]` |
| Vm.TakeDropSplit | src/vm.rs:129-171 | taking and dropping the same count splits a vector or list |
| Vm.AgreesWithEvaluator | src/vm.rs:87-171 | on a value without metadata, `first`, `last`, `rest`, `take` and `drop` agree with the tree evaluator |
| Vm.MetadataHidesCollection | src/vm.rs:87-126 | under a metadata wrapper the machine sees no collection, while the tree evaluator looks through it |
| Vm.Arity | src/vm.rs:39-397 | an instruction takes at most two values, and two exactly when it is a two-operand instruction |
| Vm.Yield | src/vm.rs:39-397 | an instruction leaves at most one value in place of those it takes |
| Vm.StepKinds | src/vm.rs:39-397 | each kind of instruction runs its own step helper |
| Vm.BinaryFrame | src/vm.rs:60-342 | a successful two-operand instruction replaces its two operands by one result |
| Vm.StepFrame | src/vm.rs:39-397 | a successful instruction replaces exactly its operands by its result and leaves the stack under them alone |
| Vm.StepJumps | src/vm.rs:343-361 | only jumps move the counter elsewhere, to their own target; `JumpIfFalse` jumps exactly on a falsy condition, `JumpIfTrue` on a truthy one |
| Vm.StepEmptyStack | src/vm.rs:61-364 | an empty stack fails every popping instruction with a runtime error naming the operand popped first |
| Vm.StepSingleValue | src/vm.rs:62-245 | a single value fails every two-operand instruction, naming the operand under the top |
| Vm.StepFails | src/vm.rs:39-397 | an instruction fails exactly when it is unimplemented, its operands are missing, or they have the wrong types |
| Vm.OperandTypeErrors | src/vm.rs:68-183 | `get-in` fails exactly on a non-vector path and `take`, `drop`, `nth` exactly on a non-integer count |
| Vm.OrderingFails | src/vm.rs:315-341 | the orderings fail exactly when the comparison does, with its error, and otherwise push a boolean |
| Vm.BinaryTotal | src/vm.rs:60-314 | every other two-operand instruction accepts any operands |
| Vm.PushStep | src/vm.rs:41-44 | `Push` copies the indexed constant onto the stack |
| Vm.JumpIfFalseStep | src/vm.rs:348-354 | `JumpIfFalse` pops the condition and jumps exactly when it is falsy |
| Vm.PlaceholderBinaries | src/vm.rs:215-241 | `filter`, `map` and `remove` pop their function and push the collection back unchanged |
| Vm.PlaceholdersFail | src/vm.rs:392-394 | `reduce`, `apply`, `group-by`, `call` and `return` fail with "not yet implemented" whatever the stack |
| Vm.NegativeCounts | src/vm.rs:134-158 | a negative count takes nothing and drops nothing |
| Vm.IndexedAgree | src/vm.rs:129-183 | on a value without metadata, `take`, `drop` and `nth` agree with the tree evaluator |
| Vm.RunUnfold | src/vm.rs:29-33 | one turn of the loop: a failing instruction ends the run, a successful one continues at the next instruction or the jump target (corrected loop; the loop as written is Vm.RunAsWritten) |
| Vm.RunMoreFuel | src/vm.rs:29-33 | a run that finishes within some fuel finishes the same way with more |
| Vm.NoJumpsAgree | src/vm.rs:29-33 | on code without jumps, the loop as written and the intended loop agree |
| Vm.QueryVM.constructor | src/vm.rs:14-19 | a new machine has an empty stack and the counter at 0 |
| Vm.QueryVM.ExecuteInstruction | src/vm.rs:39-397 | executing an instruction fails exactly as its step does, and otherwise leaves its step's stack and reports whether it jumped, setting the counter to the target |
| Vm.QueryVM.Cycle | src/vm.rs:29-33 | one turn fails with the run's error or leaves the state the run continues from (corrected loop; the loop as written is Vm.RunAsWritten) |
| Vm.QueryVM.Loop | src/vm.rs:29-33 | the loop fails with the run's error or ends in the run's final state (corrected loop; the loop as written is Vm.RunAsWritten) |
| Vm.QueryVM.Execute | src/vm.rs:22-37 | executing starts from the input alone at counter 0 and answers the run's outcome, leaving the stack with the answer popped (corrected loop; the loop as written is Vm.RunAsWritten) |
| VmFacts.NullaryRuns | src/vm.rs:22-37 | a compiled operand-free node maps the input to the node's value in one step |
| VmFacts.PushThenBinary | src/vm.rs:41-342 | a two-operand instruction after a push of its operand answers the instruction on the input and the operand |
| VmFacts.LiteralOperandRuns | src/query/compiler.rs:146-218 | a compiled node with a literal operand answers the machine's operation on the input and the literal |
| VmFacts.KeyedLeafRuns | src/query/compiler.rs:123-182 | `get`, `get-in` and `select-keys` pool their key, path or keys and apply it to the input |
| VmFacts.UnimplementedRuns | src/vm.rs:392-394 | `apply` and `group-by` compile, but running them fails with "not yet implemented" |
| VmFacts.BranchCodeRuns | src/vm.rs:343-354 | the two-way conditional code answers the then-value when the test is truthy and the else-value otherwise, ending at the end of the code |
| VmFacts.BranchCodeRunsAsWritten | src/vm.rs:29-33 | as written the then-branch ends one past the code and a falsy test skips the else push |
| VmFacts.BranchRuns | src/query/compiler.rs:236-253 | `(if test a b)` on literal branches answers `a` when the test holds of the input and `b` otherwise |
| VmFacts.BranchRunsAsWritten | src/vm.rs:29-33 | under the loop as written, a failing test answers nil instead of `b` |
| VmFacts.JumpSkipsElse | src/vm.rs:29-33 | `(if nil? a b)` on 42 answers nil as written and `b` as intended |
| VmFacts.FirstAndCount | src/vm.rs:457-483 | `first` and `count` on `[1 2 3]` answer 1 and 3 |
| VmFacts.EqualToLiteral | src/vm.rs:506-519 | `(= x)` on `y` answers whether they are equal |
| VmFacts.TakeAndDropTwo | src/vm.rs:522-552 | take 2 and drop 2 of `[1 2 3 4]` answer `[1 2]` and `[3 4]` |
| EdnReader.LineEnd | src/edn/parser.rs:680-684 | a comment runs to the first newline at or after it, or to the end of the input |
| EdnReader.NameEnd | src/edn/parser.rs:630-642 | a name is the longest run of symbol characters from the cursor |
| EdnReader.HexDigitValue | src/edn/parser.rs:782-852 | a hex digit denotes a number below 16 |
| EdnReader.UnicodeEscape | src/edn/parser.rs:819-852 | a unicode escape that reads consumes exactly four characters |
| EdnReader.ParseI64 | src/edn/parser.rs:610-617 | integer text that parses is non-empty and lies in the signed 64-bit range |
| EdnReader.SkipDiscards | src/edn/parser.rs:40-44 | skipping discards stops at a position that does not begin another `#_` |
| EdnReader.ValueAt | src/edn/parser.rs:57-99 | a form that reads consumes at least one character and stays inside the input |
| EdnReader.FormAt | src/edn/parser.rs:71-98 | the form chosen by its first character, when it reads, consumes at least that character and ends inside the input; what each kind yields is stated by the EdnFacts lemmas |
| EdnReader.StringAt | src/edn/parser.rs:119-163 | a string that reads is a string value that consumes at least its opening quote and ends inside the input; EdnFacts.StringBodyCloses states where it ends |
| EdnReader.MapAt | src/edn/parser.rs:259-300 | a map literal that reads is a map value that ends inside the input; EdnFacts.MapCloses and EdnFacts.KeyWithoutValue state its keys, its closing brace and its error |
| EdnReader.SetAt | src/edn/parser.rs:323-352 | a set literal that reads is a set value that ends inside the input; EdnFacts.SetCloses and EdnFacts.DuplicateElement state its elements, its closing brace and its error |
| EdnParser.StringEscape | src/edn/parser.rs:123-150 | an escape that reads consumes at least the backslash and one more character |
| EdnParser.StringEscapeStep | src/edn/parser.rs:123-150 | a string body at a backslash fails with the escape's error, or goes on after the escape with its character added |
| EdnParser.Parser.constructor | src/edn/parser.rs:16-24 | a new parser holds the whole text with the cursor at its start |
| EdnParser.Parser.RemainingInput | src/edn/parser.rs:53-55 | the text not yet read is what follows the cursor |
| EdnParser.Parser.Peek | src/edn/parser.rs:691-697 | the current character, when the cursor is inside the text |
| EdnParser.Parser.PeekAhead | src/edn/parser.rs:699-706 | a character `offset` past the cursor exactly when there is one, and that character |
| EdnParser.Parser.Advance | src/edn/parser.rs:708-713 | the cursor moves on by one inside the text and stays put at its end |
| EdnParser.Parser.SkipWhitespaceAndComments | src/edn/parser.rs:665-689 | the cursor ends where the whitespace, comma and comment skip ends |
| EdnParser.Parser.ReadSymbolName | src/edn/parser.rs:630-638 | the name read is the run of symbol characters and the cursor ends after it |
| EdnParser.Parser.ConsumeLiteral | src/edn/parser.rs:644-662 | the literal is consumed exactly when it is present and not followed by a symbol character; otherwise the cursor stays put |
| EdnParser.Parser.ParseSymbol | src/edn/parser.rs:622-628 | the result and the new cursor are the symbol reader's |
| EdnParser.Parser.ParseNil | src/edn/parser.rs:101-107 | the result and the new cursor are the nil reader's: `nil` as a whole word, otherwise a symbol |
| EdnParser.Parser.ParseBoolean | src/edn/parser.rs:109-117 | the result and the new cursor are the boolean reader's |
| EdnParser.Parser.ParseKeyword | src/edn/parser.rs:165-172 | the result and the new cursor are the keyword reader's |
| EdnParser.Parser.ReadUnicodeEscape | src/edn/parser.rs:819-852 | the result and the new cursor are those of the four-hex-digit escape reader |
| EdnParser.Parser.ReadStringEscape | src/edn/parser.rs:123-150 | the result and the new cursor are those of the string escape reader |
| EdnParser.Parser.ParseString | src/edn/parser.rs:119-163 | the string loop's result and the new cursor are the string reader's |
| EdnParser.Parser.ParseCharacter | src/edn/parser.rs:174-209 | the result and the new cursor are the character-literal reader's |
| EdnParser.Parser.ParseUnicodeCharacter | src/edn/parser.rs:782-817 | the result and the new cursor are the `\uXXXX` reader's |
| EdnParser.Parser.ScanMantissa | src/edn/parser.rs:559-567 | the digit-and-dot loop stops where the mantissa scan does and reports whether a dot was seen |
| EdnParser.Parser.ScanNumber | src/edn/parser.rs:550-597 | the cursor ends where the number scan ends, including the exponent backtrack, and reports whether the text is a float |
| EdnParser.Parser.ParseNumber | src/edn/parser.rs:550-620 | the result and the new cursor are the number reader's |
| EdnParser.Parser.ConsumeDiscard | src/edn/parser.rs:469-494 | the new cursor or the error is the discard reader's |
| EdnParser.Parser.SkipDiscardForms | src/edn/parser.rs:60-65 | the new cursor or the error is that of skipping discards |
| EdnParser.Parser.ParseValue | src/edn/parser.rs:57-99 | the result and the new cursor are the form reader's after whitespace and discards |
| EdnParser.Parser.ParseValueNoDiscard | src/edn/parser.rs:496-547 | the result and the new cursor are the discard-side form reader's |
| EdnParser.Parser.ParseForm | src/edn/parser.rs:71-98 | the reader chosen by the current character gives the form reader's result and cursor |
| EdnParser.Parser.ReadItems | src/edn/parser.rs:211-233 | the item loop gives the items reader's result and cursor |
| EdnParser.Parser.ParseVector | src/edn/parser.rs:211-233 | the result and the new cursor are the vector reader's |
| EdnParser.Parser.ParseList | src/edn/parser.rs:235-257 | the result and the new cursor are the list reader's |
| EdnParser.Parser.ParseMap | src/edn/parser.rs:259-300 | the result and the new cursor are the map reader's |
| EdnParser.Parser.ParseDispatch | src/edn/parser.rs:302-321 | the result and the new cursor are the `#` dispatch reader's |
| EdnParser.Parser.ParseSet | src/edn/parser.rs:323-352 | the result and the new cursor are the set reader's |
| EdnParser.Parser.ParseAnonymousFunction | src/edn/parser.rs:354-394 | the result and the new cursor are the `#(...)` reader's |
| EdnParser.Parser.ParseTaggedLiteral | src/edn/parser.rs:396-455 | the result and the new cursor are the tagged-literal reader's |
| EdnParser.Parser.ParseMetadata | src/edn/parser.rs:457-467 | the result and the new cursor are the metadata reader's |
| EdnParser.Parser.Parse | src/edn/parser.rs:36-51 | parsing from the start of the text gives the whole-input reader's answer |
| EdnFacts.SkipWsStops | src/edn/parser.rs:665-689 | skipping stops at the end or at a character that is not whitespace, a comma or `;` |
| EdnFacts.SkipBlank | src/edn/parser.rs:665-689 | whitespace and commas up to the end are all skipped |
| EdnFacts.CommentSkipped | src/edn/parser.rs:680-684 | a `;` comment is skipped through the newline that ends it |
| EdnFacts.BlankReadsNil | src/edn/parser.rs:46-48 | input of nothing but whitespace and commas reads as nil |
| EdnFacts.SkipToEnd | src/edn/parser.rs:36-48 | skipping whitespace, comments and top-level `#_` discards reaches the end of the input exactly when the rest of the input is blank (only whitespace, commas, comments and discarded forms) |
| EdnFacts.BlankInputReadsNil | src/edn/parser.rs:36-48 | input holding only whitespace, commas, `;` comments and `#_` discards, each followed by a form that reads or by the end, reads as nil |
| EdnFacts.OneLetterKeyword | src/edn/parser.rs:165-172 | a colon and one letter not followed by a symbol character read as that one-letter keyword |
| EdnFacts.ParseFirst | src/edn/parser.rs:36-51 | input that begins with a form's first character reads as that form; the rest is ignored |
| EdnFacts.NilIsWord | src/edn/parser.rs:101-107 | `nil` reads as nil only as a whole word, otherwise as a symbol |
| EdnFacts.TrueIsWord | src/edn/parser.rs:109-117 | `true` reads as a boolean only as a whole word |
| EdnFacts.FalseIsWord | src/edn/parser.rs:109-117 | `false` reads as a boolean only as a whole word |
| EdnFacts.StringBodyCloses | src/edn/parser.rs:119-163 | a string that reads ends at its closing quote and extends what was read before |
| EdnFacts.UnterminatedString | src/edn/parser.rs:156-158 | a string with no closing quote is an error |
| EdnFacts.InvalidEscape | src/edn/parser.rs:143-149 | a backslash before anything but a known escape is an error naming it |
| EdnFacts.ItemsClose | src/edn/parser.rs:211-233 | items that read end just after their closer and extend those read before |
| EdnFacts.VectorCloses | src/edn/parser.rs:211-233 | a vector ends at `]`; with no `]` after it the read fails |
| EdnFacts.ListCloses | src/edn/parser.rs:235-257 | a list ends at `)`; with no `)` after it the read fails |
| EdnFacts.AnonymousFunctionShape | src/edn/parser.rs:354-394 | `#(...)` ends at `)` and reads as a three-element list `(fn [%] body)` |
| EdnFacts.EntriesClose | src/edn/parser.rs:264-292 | map entries that read end just after `}` and never repeat a key |
| EdnFacts.MapCloses | src/edn/parser.rs:259-300 | a map that reads has unique keys and ends at `}`; with no `}` it fails |
| EdnFacts.KeyWithoutValue | src/edn/parser.rs:273-284 | after any number of complete entries, a key followed by `}` or by the end of the input is the error "Map literal must contain an even number of forms" |
| EdnFacts.OddMapRejected | src/edn/parser.rs:259-284 | `{:a}` is the error "Map literal must contain an even number of forms" |
| EdnFacts.ElementsClose | src/edn/parser.rs:328-344 | set elements that read end just after `}` and are pairwise different |
| EdnFacts.SetCloses | src/edn/parser.rs:323-352 | a set that reads has pairwise different elements and ends at `}`; with no `}` it fails |
| EdnFacts.DuplicateElement | src/edn/parser.rs:334-341 | an element equal to one read before it in the same set is the error "Duplicate element in set" |
| EdnFacts.DuplicateSetRejected | src/edn/parser.rs:323-341 | `#{:a :a}` is the error "Duplicate element in set" |
| EdnFacts.NatDigitsValue | src/edn/parser.rs:610-617 | the decimal digits of a natural number denote it |
| EdnFacts.IntegerTextParses | src/edn/parser.rs:610-617 | the decimal text of an integer parses back to it exactly when it is in the 64-bit range |
| EdnFacts.IntegerTextNumber | src/edn/parser.rs:550-620 | the number reader consumes an integer's whole text and range-checks it |
| EdnFacts.IntegerTextReads | src/edn/parser.rs:36-51 | reading an integer's decimal text gives that integer in range and "Invalid integer" outside it |
| EdnFacts.HexValueBound | src/edn/parser.rs:782-852 | `n` hex digits denote a number below 16^n |
| EdnFacts.UnicodeEscapeSurrogates | src/edn/parser.rs:819-852 | four hex digits give a character exactly when they are not a surrogate, and it is the one they denote |
| EdnFacts.UuidFromGroups | src/edn/parser.rs:752-780 | five hex groups of 8, 4, 4, 4 and 12 digits joined by hyphens form a valid UUID |
| EdnFacts.UuidGroups | src/edn/parser.rs:752-780 | a valid UUID is exactly such five groups |
| EdnFacts.UuidAsWrittenAgrees | src/edn/parser.rs:752-780 | the UUID check as written agrees with the corrected one whenever it does not panic |
| EdnFacts.UuidAsWrittenAscii | src/edn/parser.rs:757-775 | on ASCII text the check as written cannot panic |
| EdnFacts.UuidAsWrittenPanics | src/edn/parser.rs:757-775 | a 35-character text of 36 UTF-8 bytes passes the length guard and the slice of its last group panics |
| EdnFacts.InstantPrefix | src/edn/parser.rs:719-750 | anything may follow a valid instant prefix |
| EdnFacts.InstantDecidedByPrefix | src/edn/parser.rs:719-750 | a text of at least 19 characters is an instant exactly when its first 19 characters are |
| EdnFacts.TagValueCases | src/edn/parser.rs:406-454 | `#inst` and `#uuid` accept exactly strings of their format; any other tag keeps the value |
| EdnFacts.DanglingExponent | src/edn/parser.rs:576-588 | an `e` without digits ends the number before it, but the rescan keeps neither the minus sign nor a second chance at the dot |
| EdnFacts.LoneU | src/edn/parser.rs:181-183 | `\u` alone is a failed unicode escape, not the character u |
| Primitives.EscapeString | src/primitives.rs:4-15 | escaping never shortens a string and at most doubles it |
| Primitives.EscapeAppend | src/primitives.rs:4-15 | escaping works character by character: the escape of a concatenation is the concatenation of the escapes |
| Primitives.EscapeIdentity | src/primitives.rs:5-12 | a string with no quote, backslash, newline, return or tab escapes to itself |
| Primitives.EscapeLength | src/primitives.rs:6-12 | escaping adds exactly one character per quote, backslash, newline, return or tab |
| Primitives.ReadEscaped | src/primitives.rs:4-15 | the reader's string-body scan over an escaped text followed by a closing quote yields the original text and stops just after the quote |
| Primitives.EscapeStringAt | src/primitives.rs:4-15 | an escaped text followed by a quote, placed anywhere in the input, is such an escaped span |
| Primitives.StringLiteralReads | src/primitives.rs:4-15 | a string quoted and escaped by the printer reads back as the same string |
| Primitives.FormatCharacter | src/primitives.rs:18-26 | a character literal is a backslash followed by at least one character |
| Primitives.FormatNamed | src/primitives.rs:19-23 | newline, tab, return and space, and only they, print as `\newline`, `\tab`, `\return` and `\space` |
| Primitives.ParseCharacterLiteral | src/primitives.rs:18-26 | a whole input starting with a backslash reads as the character literal the reader finds at its start, or fails with its error |
| Primitives.NamedLiteralReads | src/primitives.rs:18-26 | a backslash followed by a whole name that denotes a character (not starting with `u`) reads as that character |
| Primitives.NamedCharacterReads | src/primitives.rs:40-45 | the named literals printed for newline, tab, return and space read back as those characters |
| Primitives.SymbolCharacterReads | src/primitives.rs:24 | a symbol character other than `u` prints as a literal that reads back as the same character |
| Primitives.CharacterLiteralUnreadable | src/primitives.rs:24 | any other character, not named and not a symbol character, prints as a literal the reader rejects with `Invalid character literal: \` |
| StringOrder.LeTotal | src/output.rs:65 | the string order used to sort set texts is total |
| StringOrder.LeTrans | src/output.rs:65 | the string order is transitive |
| StringOrder.LeAntisymmetric | src/output.rs:65 | two strings ordered both ways are equal |
| StringOrder.LeReflexive | src/output.rs:65 | every string is ordered before itself |
| StringOrder.SortedHead | src/output.rs:65 | the first element of a sorted sequence comes before every element |
| StringOrder.InsertElements | src/output.rs:65 | inserting adds exactly the one new element |
| StringOrder.InsertSorted | src/output.rs:65 | inserting into a sorted sequence keeps it sorted and one longer |
| StringOrder.SortSpec | src/output.rs:65 | sorting yields a sorted permutation of the texts |
| StringOrder.SortedUnique | src/output.rs:65 | two sorted sequences with the same elements are equal |
| StringOrder.SortDeterministic | src/output.rs:65 | sequences with the same elements sort to the same result |
| Output.CompactAll | src/output.rs:50-64 | one compact text per item |
| Output.CompactPairs | src/output.rs:58-60 | one key and value text pair per map entry from the index on |
| Output.PairTexts | src/output.rs:59 | one `k v` text per pair |
| Output.PrettyAll | src/output.rs:139-147 | one pretty text per item |
| Output.PrettyEntries | src/output.rs:213-231 | one pretty text per map entry |
| Output.FormatPrettyCollection | src/output.rs:116-151 | the item-by-item loop builds the pretty layout of a vector, list or set: its delimiters when empty, the compact texts inline when short, else one item per line |
| Output.FormatPrettyMap | src/output.rs:192-235 | the entry-by-entry loop builds the pretty layout of a map, with a line break before a value that is a collection of collections |
| Output.MultilineStep | src/output.rs:139-146 | each loop iteration appends the separator for its index and the item's text |
| Output.CompactAllAt | src/output.rs:50 | the text at each index is the compact text of the item there |
| Output.PrettyAllAt | src/output.rs:146 | the text at each index is the pretty text, one level deeper, of the item there |
| Output.CompactPairsAt | src/output.rs:58-60 | the pair at each index is the compact key and value of the entry there, in insertion order |
| Output.PairTextsAt | src/output.rs:59 | each pair text is the key text, a space and the value text |
| Output.PrettyEntriesAt | src/output.rs:221-230 | each pretty entry is key, space, a line break and indent when the value is a collection of collections, then the value |
| OutputFacts.AtomsPrintAlike | src/output.rs:24-48 | scalars print the same in compact and pretty mode and at every depth |
| OutputFacts.StringsFollowRawFlag | src/output.rs:37-43 | a string prints verbatim with raw strings, otherwise quoted and escaped, and that text reads back as the same string |
| OutputFacts.EmptyCollectionsPrintDelimiters | src/output.rs:123-125 | empty vectors, lists, maps and sets print as their delimiters in both modes |
| OutputFacts.MakeIndentSpec | src/output.rs:238-244 | the indent is `depth` tabs, or `depth * indent_size` spaces, and holds no line break |
| OutputFacts.LinesSnoc | src/output.rs:142-145 | one more later item adds a line break, the indent and its text |
| OutputFacts.MultilineFront | src/output.rs:139-146 | the first item follows a single space and every later one starts a new indented line |
| OutputFacts.LinesNewlines | src/output.rs:142-145 | every line started adds exactly one line break |
| OutputFacts.MultilineNewlines | src/output.rs:139-146 | the multiline layout of n items adds exactly n - 1 line breaks to theirs |
| OutputFacts.PrettyCollectionMultiline | src/output.rs:135-150 | a non-empty collection that fails the inline test takes the multiline layout of its items one level deeper |
| OutputFacts.PrettyAllHead | src/output.rs:139-146 | the first pretty text is the first item's, the rest are the rest's |
| OutputFacts.PrettyMultilineLayout | src/output.rs:135-150 | a long collection is the opening delimiter, a space, the first item one level deeper, each later item on its own indented line, and the closing delimiter |
| OutputFacts.PrettyMultilineNewlines | src/output.rs:135-150 | that layout adds one line break per item after the first |
| OutputFacts.JoinWidth | src/output.rs:132 | joining texts with spaces adds one byte per gap |
| OutputFacts.InlineWidth | src/output.rs:247-258 | more than four items never go inline, and inline items joined by spaces are under 59 bytes |
| OutputFacts.PrettyInlineIsCompact | src/output.rs:127-133 | a short pretty vector or list is exactly its compact text |
| OutputFacts.MapEstimateIsWidth | src/output.rs:282-284 | the map estimate without the spacing allowance is the total length of the `k v` texts |
| OutputFacts.MapInlineWidth | src/output.rs:201-207 | a map printed on one line has at most two entries, is its compact text and is under 50 bytes |
| Value.StripMetadata | src/output.rs:293 | the value under all metadata wrappers is not itself a wrapper |
| OutputFacts.CollectionsSeeThroughMetadata | src/output.rs:290-308 | both collection tests look through metadata, and a non-collection counts as simple, so it never starts a map value on a new line |
| OutputFacts.CompactAllAppend | src/output.rs:64 | the texts of a concatenation are the concatenation of the texts |
| OutputFacts.CompactAllRemove | src/output.rs:64 | removing an item removes its text |
| OutputFacts.CompactAllFirst | src/output.rs:64 | the texts are the first item's text and the rest's texts |
| OutputFacts.CompactAllPermutation | src/output.rs:64 | rearranging the items rearranges their compact texts |
| OutputFacts.CompactSetText | src/output.rs:63-67 | a compact set is `#{`, its elements' compact texts in sorted order joined by spaces, and `}` |
| OutputFacts.CompactSetDeterministic | src/output.rs:63-67 | a set prints the same compact text whatever order it holds its elements in |
| OutputFacts.EscapeNoNewline | src/output.rs:311-322 | an escaped string holds no line break |
| OutputFacts.JoinNoNewline | src/output.rs:51 | texts without line breaks joined by spaces have none |
| OutputFacts.IntegerNoNewline | src/output.rs:47 | an integer's text has no line break |
| OutputFacts.CharacterNoNewline | src/output.rs:325-333 | a character literal has no line break, the newline included |
| OutputFacts.AtomNoNewline | src/output.rs:35-48 | a scalar whose own texts have no line break prints without one |
| OutputFacts.CompactSingleLine | src/output.rs:33-77 | compact output breaks no line of its own: every line break comes from a text the value carries |
| OutputFacts.CompactAllSingleLine | src/output.rs:50 | no compact item text breaks a line |
| OutputFacts.CompactPairsSingleLine | src/output.rs:58-60 | no compact key or value text breaks a line |
| OutputFacts.PairTextsNoNewline | src/output.rs:59 | no `k v` text breaks a line |
| OutputFacts.CompactOutputSingleLine | src/output.rs:24-30 | in compact mode the whole output is one line |
| CollectionFormatter.Format | src/collection_formatter.rs:16-35 | the formatted text is the delimiters alone when empty, the items joined by spaces when inline, and the multiline layout otherwise |
| CollectionFormatter.FormatPairs | src/collection_formatter.rs:38-57 | map entries are laid out the same way as their `k v` texts |
| CollectionFormatter.FormatMultiline | src/collection_formatter.rs:60-84 | the loop builds the multiline layout; both first-item branches write the same single space |
| CollectionFormatter.ShouldInlineMapAgrees | src/collection_formatter.rs:109-111 | the map test here, with two bytes per entry added to the estimate, is the renderer's map test, and a map of more than two entries never goes inline |
| CollectionFormatter.JoinNewlines | src/collection_formatter.rs:31 | joining with spaces adds no line break |
| CollectionFormatter.LayoutNewlines | src/collection_formatter.rs:16-84 | the layout adds no line break when inline and exactly one per item after the first when not |
| CollectionFormatter.LayoutShape | src/collection_formatter.rs:60-84 | inline items sit one space apart; multiline items each start an indented line after the first |
| Formatter.CompactTexts | src/formatter.rs:57-61 | one compact formatter text per item |
| Formatter.CompactFormatPairs | src/formatter.rs:63-67 | one key and value text pair per map entry from the index on |
| Formatter.PrettyTexts | src/formatter.rs:158 | one pretty formatter text per item |
| Formatter.MapEntries | src/formatter.rs:182-200 | one multiline text per map entry |
| Formatter.FormatMap | src/formatter.rs:163-205 | the pretty formatter's map: inline from the compact pairs when at most two entries estimate under 50 bytes with spacing, else the entry-by-entry loop's layout |
| Formatter.MapEntriesAt | src/formatter.rs:190-199 | each entry is key, space, a line break and indent when the value is a collection of collections, then the value |
| FormatterFacts.AtomsPrintAlike | src/formatter.rs:19-34 | scalars print alike in both formatters, and as the compact renderer prints them |
| FormatterFacts.StringsFollowRawFlag | src/formatter.rs:23-29 | strings print verbatim with raw strings, otherwise quoted and escaped, and that text reads back as the same string |
| FormatterFacts.EmptyCollectionsPrintDelimiters | src/collection_formatter.rs:26-28 | empty vectors, lists, maps and sets print as their delimiters in both formatters |
| FormatterFacts.CompactFormatSingleLine | src/formatter.rs:19-75 | the compact formatter breaks no line of its own |
| FormatterFacts.CompactTextsSingleLine | src/formatter.rs:59 | no compact item text breaks a line |
| FormatterFacts.CompactFormatPairsSingleLine | src/formatter.rs:65 | no compact key or value text breaks a line |
| FormatterFacts.Symbols | src/formatter.rs:49 | one symbol per parameter name |
| FormatterFacts.SymbolTexts | src/formatter.rs:49 | parameter symbols print as their names |
| FormatterFacts.LambdaPrintsAsList | src/formatter.rs:48-51 | a lambda prints exactly as the list `(fn [p1 p2 ...] body)` prints |
| FormatterFacts.SymbolVectorText | src/formatter.rs:49 | the parameter vector prints as the names joined by spaces in brackets |
| FormatterFacts.ThreeItemList | src/formatter.rs:36 | a three-item list prints as its three compact texts between parentheses |
| FormatterFacts.PrettyInlineIsCompact | src/formatter.rs:149-157 | when the pretty formatter inlines a vector, list or set it prints the compact formatter's text |
| FormatterFacts.PrettyMultilineLayout | src/formatter.rs:149-161 | a collection that fails the inline test is non-empty and laid out one item per indented line, one level deeper |
| FormatterFacts.EntriesSetFreeAt | src/formatter.rs:63-67 | every key and value of a set-free map is set-free |
| FormatterFacts.CompactAgrees | src/formatter.rs:19-75 | on values holding no set, the compact formatter prints what the compact renderer of output.rs prints |
| FormatterFacts.CompactTextsAgree | src/formatter.rs:57-61 | on set-free items the compact formatter's item texts are the renderer's |
| FormatterFacts.CompactPairsAgree | src/formatter.rs:63-67 | on set-free maps the compact formatter's pairs are the renderer's |
| FormatterFacts.PrettyAgrees | src/formatter.rs:111-222 | on values holding no set, the pretty formatter prints what the pretty renderer of output.rs prints |
| FormatterFacts.PrettyCollectionAgrees | src/formatter.rs:149-161 | on set-free items the pretty collection layouts agree |
| FormatterFacts.PrettyTextsAgree | src/formatter.rs:158 | on set-free items the pretty item texts agree |
| FormatterFacts.PrettyMapAgrees | src/formatter.rs:163-205 | on set-free maps the pretty map layouts agree |
| Value.MapKeys | src/evaluator.rs:167 | the keys of a map, one per entry, in insertion order |
| Value.MapValues | src/evaluator.rs:178 | the values of a map, one per entry, in insertion order |
| Vm.RunNext | src/vm.rs:29-33 | one turn: the instruction's effect on the stack, then the jump target or the next instruction (corrected loop; the loop as written is Vm.RunAsWritten) |
| Vm.AsWrittenNext | src/vm.rs:29-33 | one turn of the loop as written: the counter is advanced after the instruction, even after a jump has set it |
| Vm.RunFails | src/vm.rs:30-31 | a failing instruction ends the run with its error |

## Left out

- Reading files, standard input and arguments, and writing to standard output: the command-line front end is not part of this model.
- Glob and directory walking, and their errors, are not part of this model for the same reason.
- Value: floating-point numbers are kept as the text they were read from, and no float arithmetic or ordering is modelled. Float equality is therefore textual wherever values are compared: for set elements, for map keys and for `=`. The source compares floats by value (the derived equality of src/edn/value.rs:45), so it differs from the model on equal floats written differently. The reader rejects `#{1.0 1.00}` as a duplicate element, while the model reads a two-element set. `{1.0 :a 1.00 :b}` has one entry in the source and two in the model. `(= 1.0)` on the input `1.00` is true in the source and false in the model. The same holds for `0.0` against `-0.0`. Printed floats are the text they were read from, not the shortest rendering of the `f64` value that the source prints: the source prints `1.0` as `1`, `1.50` as `1.5` and `1e5` as `100000`, while both printers of the model print each of them back unchanged.
- Evaluator.Evaluate: the `Symbol` and `GetInOf` nodes come from other stages of the pipeline (the query parser at src/query/parser.rs:17 and the get-in node of src/analyzer.rs:376), and src/evaluator.rs has no arm for them. The model picks their results. A `Symbol` fails with the query error "Unanalyzed symbol found - analysis phase should resolve all symbols", a message of the model's own. `GetInOf(input, path)` evaluates `input`, looks the path up in the result, and gives nil when the path is missing.
- Evaluator.OrderedFloat: a comparison involving a float yields a model-only `Unmodelled` error. The source compares the two floats instead.
- Map and set equality in the model depends on entry order. The source's map equality ignores order, and so does its `HashSet` equality.
- Hashing and the `Display` implementation of values are not modelled. They only serve hash maps and error texts.
- The pretty renderer and both formatter structs sort set elements by their debug text before printing. That order is not modelled, and those printers keep the order the set holds.
- The compact renderer's sort of set texts is modelled; see `StringOrder`.
- The output renderer in src/output.rs has no case for lambdas, because its value type predates them. The model prints a lambda there as the formatters do.
- Line, column and file name in parse errors are dropped. Only the message is kept.
- `is_alphabetic` and `is_alphanumeric` are limited to ASCII, because the Unicode tables are not part of this model.
- Whitespace is Rust's `is_whitespace`, in full.
- Primitives.SymbolCharacterReads: it excludes `u`. The reader reads a lone `\u` as the start of a unicode escape and rejects it, so `format_character('u')` does not read back; see EdnFacts.LoneU.
- `usize` counts and indices are unbounded naturals. Overflow at 2^64 is not modelled.
- Analyzer.Analyze: it takes fuel. An analysis whose macro expansion does not reach a fixed point yields `Err(OutOfFuel)` instead of looping forever.
- Vm.Run and Vm.RunAsWritten also take fuel. A program that jumps backwards forever ends with a model-only error.
- `make_indent`, `is_collection` and `is_simple_collection` are defined once, in `Output`. src/formatter.rs and src/collection_formatter.rs carry identical copies.
- The function-registry data structure is not shown. The builtin table is a class holding a map from names to builtin operations.
- Concurrency: the lazily built global registry is a plain value here.

## Findings

| source | as written | input that shows it | evidently intended | confidence | as-written member | corrected member |
|---|---|---|---|---|---|---|
| src/vm.rs:29-33 | every jump sets the counter to its target, and the execute loop then adds one to it. So the first instruction at every jump target is skipped. | the compiled `(if (nil?) a b)` with literal branches, on input `42`: the failed test jumps to the push of `b`, which is skipped, and the query yields `nil` instead of `b` | a jump continues at its target | high (not executed) | Vm.RunAsWritten (VmFacts.JumpSkipsElse, VmFacts.BranchRunsAsWritten) | Vm.Run (VmFacts.BranchRuns) |
| src/edn/parser.rs:752-780 | the UUID check tests the byte length for 36, then slices characters 24..36 | `#uuid` with a 35-character string of 36 bytes, one character taking two bytes: the byte test passes and the character slice runs past the end and panics | the length check counts characters | high (not executed) | EdnReader.UuidAsWritten (EdnFacts.UuidAsWrittenPanics) | EdnReader.IsValidUuid (EdnFacts.UuidFromGroups, EdnFacts.UuidGroups, EdnFacts.UuidAsWrittenAgrees) |
