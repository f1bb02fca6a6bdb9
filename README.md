# Lagoon, modelled in Dafny

Lagoon is an esoteric language that never writes memory directly. A program
moves memory slots in and out of named *pools*. Every pool has a mutator
(`+` adds one, `-` subtracts one, `i` adds one, `o` prints). The execute
command `;` applies every pool's mutator once to every slot the pool holds.
An instruction `12+` toggles slot 12's membership in pool `+`.
A loop `{0,!1|body}` repeats `body` for as long as every guard holds.
A plain guard holds while its slot is non-zero; a negated guard (`!`) holds while its slot is zero.

The interpreter is a pipeline. Each stage is a module here:

- `Trees` (src/lagoon/tree.rs): the syntax tree of symbols and loops, and the
  tree factory.
- `Parser` (src/lagoon/parser.rs): the character scanner.
  - `ScanLevel` and `ScanGuards` are the functions that say what one level of
    `rparse` and one run of `find_guard` return.
  - `RParse`, `FindGuard`, `Parse` and `Debug` are the loops of the source,
    each proved equal to its specification.
  - The `Chars` iterator that the source shares between recursive calls is the
    unread rest of the input. Each scanner receives it and hands it back.
- `Expressions` (src/lagoon/interpreter/expression.rs): the executable closure
  (`Exec`, `Instruction`, `Loop`) and its factory.
- `Interpreter` (src/lagoon/interpreter/mod.rs): translation of trees into
  closures. An index that `parse::<i32>` rejects becomes the default index 0.
- `PoolRegistry` (src/lagoon/pool.rs): the `Pool` and `Pools` classes. Their
  methods update membership sets and the registry map in place.
- `Executor` (src/lagoon/executor/mod.rs): the executor.
  - `RunParts` and `RunLoop` specify a run over a `State` (memory and the
    registry as values).
  - The method `Execute` toggles the registry's pool objects in place and
    returns the new memory. Its contract ties it to `RunParts`.
  - `ExecutorLaws` proves properties of runs: slot-wise effect, order
    independence, sequencing, loop exit, and fuel.
- `Lagoons` (src/lagoon/mod.rs): the `Lagoon` object holding memory, pools and
  code, with `gen_pools` and `append`.

A few more modules support the proofs:

- `Syntax` is a printer from closures back to program text. Parsing and then
  translating printed text is proved to give back the closure (`CompileShown`).
- The worked examples of the parser and translator tests are `ParserCases` and
  `InterpreterCases`.
- The six end-to-end programs of src/lagoon/mod.rs are `Scenarios`. Each is
  proved for every iteration order of the pool registry.

Memory is a map from slot to value, and a slot never written reads as 0.
A hash map's iteration order, which the program does not choose, decides the
order in which an execute visits the pools. It is the parameter `order`.
Every mutator the language registers adds a constant, so the outcome of a run
does not depend on that order (`ExecutorLaws.RunOrderIndependent`).
A loop need not terminate, so every loop entry may take at most `fuel`
iterations. Running out is the outcome `OutOfFuel`.

## Model

| member | source | states |
|---|---|---|
| Trees.Tree.Push | src/lagoon/tree.rs:27 | the tree gains exactly one node, at the end, and the earlier nodes are unchanged |
| Trees.NewTree | src/lagoon/tree.rs:39-41 | the tree holds exactly the given nodes, in order |
| Trees.Empty | src/lagoon/tree.rs:26 | an empty tree has zero nodes |
| Trees.NewSymbol | src/lagoon/tree.rs:43-45 | a symbol node keeps its text and line unchanged |
| Trees.NewLoop | src/lagoon/tree.rs:47-49 | a loop node keeps its guard list and subtree unchanged |
| Trees.NewGuard | src/lagoon/tree.rs:51-53 | a guard keeps its text and negation flag |
| Trees.NewExec | src/lagoon/tree.rs:55-57 | the exec node is the symbol whose text is exactly `;`, on the given line |
| Expressions.NewInstruction | src/lagoon/interpreter/expression.rs:37-39 | an instruction carrying the given index and pool |
| Expressions.NewLoop | src/lagoon/interpreter/expression.rs:41-46 | a loop expression keeping its guards and closure unchanged |
| Expressions.NewClosure | src/lagoon/interpreter/expression.rs:48-50 | a closure holding exactly the given expressions, in order |
| Expressions.NewGuard | src/lagoon/interpreter/expression.rs:52-54 | a guard keeping its index and negation |
| Expressions.NewExec | src/lagoon/interpreter/expression.rs:56-58 | the exec expression |
| PoolRegistry.Toggled | src/lagoon/pool.rs:28-36 | toggling flips the membership of that item and of no other item |
| PoolRegistry.ToggleTwice | src/lagoon/pool.rs:28-36 | two toggles of the same item restore the original set |
| PoolRegistry.Pool.constructor | src/lagoon/pool.rs:10 | a new pool keeps its mutator and has no members |
| PoolRegistry.Pool.Add | src/lagoon/pool.rs:12-16 | the result is true iff the item was absent, and afterwards the item is a member and nothing else changed |
| PoolRegistry.Pool.Remove | src/lagoon/pool.rs:18-22 | the result is true iff the item was present, and afterwards the item is absent and nothing else changed |
| PoolRegistry.Pool.Has | src/lagoon/pool.rs:24-26 | reports membership and changes nothing |
| PoolRegistry.Pool.Toggle | src/lagoon/pool.rs:28-36 | the result is true iff the item was absent; only that item's membership flips |
| PoolRegistry.Pools.constructor | src/lagoon/pool.rs:45 | a new registry has no pools and `count` 0 |
| PoolRegistry.Pools.AddPool | src/lagoon/pool.rs:63-67 | the identifier names a fresh empty pool with the given mutator, replacing any earlier one; other identifiers keep their pools; `count` is unchanged |
| PoolRegistry.Pools.GetPool | src/lagoon/executor/mod.rs:21-24 | the lookup succeeds iff the identifier is registered, and otherwise reports that identifier as unknown |
| Interpreter.ParseI32 | src/lagoon/interpreter/mod.rs:27-30 | only a numeral (digits, optionally after one `+` or `-`) parses; its value is the decimal value of its digits, negated after `-`, and it parses iff that value lies in the `i32` range |
| Interpreter.LeadingZero | src/lagoon/interpreter/mod.rs:27-30 | a leading `0` does not change the decimal value of a digit string |
| Interpreter.ZeroPaddedIndex | src/lagoon/interpreter/mod.rs:27-30 | zero-padding the digits of an index does not change the index it denotes |
| Interpreter.IndexOf | src/lagoon/interpreter/mod.rs:27-30 | the index is the parsed value of the text when it parses, and the default 0 otherwise; it lies in the `i32` range |
| Interpreter.TranslateGuard | src/lagoon/interpreter/mod.rs:34-39 | a translated guard reads the slot its text denotes (`IndexOf`) and keeps its negation flag |
| Interpreter.Translate | src/lagoon/interpreter/mod.rs:17-46 | a symbol ending in `;` becomes `Exec`; any other symbol becomes an instruction on the pool named by its last character, at the index its other characters denote; a loop keeps its guard count, each guard's index and negation flag, and its body node for node |
| Interpreter.Interpret | src/lagoon/interpreter/mod.rs:7-15 | exactly one expression per top-level node, in the same order, each corresponding to its node as `Translate` states, indices included |
| Interpreter.ExecDiscardsPrefix | src/lagoon/interpreter/mod.rs:25-26 | a symbol ending in `;` is `Exec` whatever precedes the `;` |
| Interpreter.NewExecTranslates | src/lagoon/interpreter/mod.rs:26 | the exec node of the tree factory becomes the exec expression |
| Interpreter.EmptyIndexDefaults | src/lagoon/interpreter/mod.rs:27-31 | a pool character with no index text, as in `+`, gives index 0 |
| Interpreter.WellFormedTranslatable | src/lagoon/interpreter/mod.rs:25 | every symbol of a well-formed tree is non-empty, so `pop().unwrap()` never fails on it |
| Interpreter.ParsedTranslatable | src/lagoon/interpreter/mod.rs:25 | every tree the parser returns can be translated without a panic |
| Interpreter.Compile | src/lagoon/mod.rs:35-36 | the closure appended for an input has one expression per top-level node of its tree |
| Parser.ScanGuards | src/lagoon/parser.rs:35-61 | the guard scan only consumes input: what it leaves is a suffix of what it got |
| Parser.ScanLevel | src/lagoon/parser.rs:12-33 | a level scan only consumes input: what it leaves is a suffix of what it got |
| Parser.FindGuard | src/lagoon/parser.rs:35-61 | the loop returns the guards and the unread input that `ScanGuards` specifies |
| Parser.RParse | src/lagoon/parser.rs:12-33 | the loop, with its recursive calls for nested loops, returns the tree and the unread input that `ScanLevel` specifies |
| Parser.Parse | src/lagoon/parser.rs:6-10 | the tree is the scan of the whole input from line 1 |
| Parser.Debug | src/lagoon/parser.rs:63-77 | the output is `(` + the node texts separated by `, ` + `)`, with a loop shown by its body, and the `first` flag placing separators only between items |
| Parser.ScanGuardsDigits | src/lagoon/parser.rs:54-57 | every committed guard text consists of digits only |
| Parser.ScanLevelWellFormed | src/lagoon/parser.rs:24-30 | every emitted symbol is non-empty, is pending digits plus one character that ended the token, and holds no blank; every guard text is digits |
| Parser.ParseWellFormed | src/lagoon/parser.rs:6-33 | every tree `parse` returns is well formed in that sense |
| Parser.ScanLevelExtends | src/lagoon/parser.rs:21-28 | a scan only appends nodes: the nodes it started with stay in front, unchanged |
| Parser.ScanLevelEnd | src/lagoon/parser.rs:22-32 | a level ends either at the end of the input or right after a `}`, so an unterminated loop takes the rest of the text |
| Parser.ScanGuardsCount | src/lagoon/parser.rs:41-51 | stopping at `|`, the guard list has one more guard than the commas read, so it is never empty; at the end of input, one guard per comma |
| Parser.ScanGuardsStrip | src/lagoon/parser.rs:40 | spaces and tabs in a guard list change neither the guards nor where the scan stops |
| Parser.ScanLevelStrip | src/lagoon/parser.rs:15 | spaces and tabs in a level change neither the tree nor where the scan stops |
| Parser.ParseIgnoresBlanks | src/lagoon/parser.rs:15 | removing every space and tab from a program leaves its tree unchanged |
| Syntax.DecimalIndex | src/lagoon/interpreter/mod.rs:27-30 | a decimal numeral within `i32` range reads back as its value |
| Syntax.OverlongIndexDefaults | src/lagoon/interpreter/mod.rs:27-30 | a numeral beyond `i32::MAX` does not parse and falls back to index 0 |
| Syntax.ScanLevelDigits | src/lagoon/parser.rs:24-25 | digits only accumulate into the pending token and emit no node |
| Syntax.ScanGuardsDigits | src/lagoon/parser.rs:56-57 | digits only accumulate into the pending guard text |
| Syntax.ScanShownGuards | src/lagoon/parser.rs:41-51 | a printed guard list followed by `|` scans back to its guards and stops right after the `|` |
| Syntax.ScanShownLoop | src/lagoon/parser.rs:18-21 | `{` reads the guards, then the body up to its `}`, emits exactly one loop node, and keeps the pending digits for after it |
| Syntax.ScanShown | src/lagoon/parser.rs:12-33 | printed expressions scan back, at any nesting level, to their canonical nodes, consuming exactly their text |
| Syntax.ParseShown | src/lagoon/parser.rs:6-10 | parsing printed text gives the canonical tree, every node on line 1 |
| Syntax.TranslateCanon | src/lagoon/interpreter/mod.rs:17-46 | translating the canonical node of an expression gives the expression back |
| Syntax.TranslateCanonNodes | src/lagoon/interpreter/mod.rs:7-15 | interpreting a canonical tree gives back the closure |
| Syntax.CompileShown | src/lagoon/mod.rs:35-36 | parsing and translating the printed text of a closure gives back that closure |
| Executor.ApplyPool | src/lagoon/executor/mod.rs:15-17 | one pool's turn applies its mutator once to each member slot, creating an absent slot at 0 first, and leaves every other slot alone |
| Executor.ApplyAll | src/lagoon/executor/mod.rs:13-19 | an execute gives each pool its turn, in the registry's iteration order (`order` lists each registered identifier once) |
| Executor.CheckGuards | src/lagoon/executor/mod.rs:28-31 | the guard check holds iff every guard holds: the slot it reads is non-zero, or zero for a negated guard (an absent slot reads 0) |
| Executor.Instruct | src/lagoon/executor/mod.rs:20-26 | an instruction on a registered pool toggles the index in it, leaving the registry as `Toggle` says; on an unregistered pool it reports `UnknownPool` and changes nothing |
| Executor.ExecuteLoop | src/lagoon/executor/mod.rs:27-34 | a loop run in place re-runs its body while its guards hold, giving the outcome `RunLoop` specifies |
| Executor.Execute | src/lagoon/executor/mod.rs:6-37 | running a closure in place gives the memory and pool memberships `RunParts` specifies, and reports the error it reports for an unknown pool |
| ExecutorLaws.ExecPointwise | src/lagoon/executor/mod.rs:13-19 | after an execute a slot exists iff it existed or a pool holds it, and its value is its old value (0 if absent) with each holding pool's mutator applied once |
| ExecutorLaws.ExecLeavesOthers | src/lagoon/executor/mod.rs:14-17 | a slot no pool holds is neither created nor changed by an execute |
| ExecutorLaws.ExecWithoutMembers | src/lagoon/executor/mod.rs:14-17 | when no pool has members, an execute leaves memory unchanged |
| ExecutorLaws.ExecOrderIndependent | src/lagoon/executor/mod.rs:14-15 | when every mutator adds a constant, any two iteration orders of the registry give the same execute |
| ExecutorLaws.ToggleEffect | src/lagoon/executor/mod.rs:20-24 | an instruction flips the membership of its index in the named pool only; that pool keeps its mutator and every other pool is untouched |
| ExecutorLaws.UnknownPoolFails | src/lagoon/executor/mod.rs:21-24 | an instruction on an unregistered pool stops the run with `UnknownPool` |
| ExecutorLaws.RunKeepsPools | src/lagoon/executor/mod.rs:6-37 | running code never adds or removes a pool and never changes a mutator; only memberships change |
| ExecutorLaws.LoopKeepsPools | src/lagoon/executor/mod.rs:27-34 | a finished loop never adds or removes a pool and never changes a mutator |
| ExecutorLaws.RunOrderIndependent | src/lagoon/executor/mod.rs:6-37 | when every mutator adds a constant, a whole run has the same outcome under every iteration order |
| ExecutorLaws.ToggleTwiceRestores | src/lagoon/executor/mod.rs:20-24 | two instructions toggling the same slot in the same pool cancel out |
| ExecutorLaws.LoopExitFalsifiesGuard | src/lagoon/executor/mod.rs:28-33 | a loop that finishes leaves its guard conjunction false |
| ExecutorLaws.EmptyGuardNeverExits | src/lagoon/executor/mod.rs:28-33 | a loop with an empty guard list never finishes |
| ExecutorLaws.RunConcat | src/lagoon/executor/mod.rs:11 | expressions run in sequence: running `p1 + p2` runs `p1`, then `p2` from the state it left, and a failure stops everything |
| ExecutorLaws.RunFuelMonotone | src/lagoon/executor/mod.rs:28-32 | more fuel never changes an outcome that did not run out of fuel |
| Lagoons.StandardPools | src/lagoon/mod.rs:26-32 | the registry after `gen_pools` has exactly the pools `+`, `-`, `i` and `o`, all empty |
| Lagoons.Lagoon.constructor | src/lagoon/mod.rs:18-24 | a new lagoon has empty memory, an empty registry with `count` 0 and empty code |
| Lagoons.Lagoon.GenPools | src/lagoon/mod.rs:26-32 | registers `+` and `i` (add 1), `-` (subtract 1) and `o` (value unchanged), each fresh and empty, keeping other pools and `count` |
| Lagoons.Lagoon.Append | src/lagoon/mod.rs:34-38 | the code becomes the old code followed by the compiled input, and memory is untouched |
| Lagoons.Lagoon.AppendRaw | src/lagoon/mod.rs:40-42 | behaves as `append` |
| Lagoons.Setup | src/lagoon/mod.rs:52-53 | a lagoon set up as the tests do has empty memory (every slot reads 0), no code and exactly the standard pools |
| Scenarios.ExecStd | src/lagoon/executor/mod.rs:13-19 | for the standard registry with `i` and `o` empty, one execute moves each slot by +1 when `+` holds it and by -1 when `-` holds it, whatever the order |
| Scenarios.Simple | src/lagoon/mod.rs:50-58 | `0+;` leaves 1 in slot 0, for every iteration order |
| Scenarios.ToggleIndex | src/lagoon/mod.rs:60-70 | `0+0+1+;` leaves 0 in slot 0 and 1 in slot 1 |
| Scenarios.SimpleLoop | src/lagoon/mod.rs:72-80 | `0+;;;0+0-1+{0|;}` leaves 0 in slot 0 and 3 in slot 1 |
| Scenarios.NegatedLoop | src/lagoon/mod.rs:82-90 | `0+;;;0+0-1+{0,!1|;}` leaves 2 in slot 0 and 1 in slot 1 |
| Scenarios.NestedLoop | src/lagoon/mod.rs:92-101 | the nested-loop program leaves 9, 0 and 0 in slots 0 to 2 |
| Scenarios.Multiplication | src/lagoon/mod.rs:103-113 | the multiplication program leaves 0, 4, 0 and 12 in slots 0 to 3 |
| InterpreterCases.Single | src/lagoon/interpreter/mod.rs:54-66 | the tree `0+ ;` translates to an instruction on pool `+` at index 0, then exec |
| InterpreterCases.IndexMustMatch | src/lagoon/interpreter/mod.rs:23-30 | the symbol `5+` corresponds to the instruction on slot 5 of `+` and not to one on slot 7 |
| InterpreterCases.PaddedIndex | src/lagoon/interpreter/mod.rs:27-30 | the symbol `007+` translates to an instruction on slot 7 of pool `+` |
| InterpreterCases.Multiple | src/lagoon/interpreter/mod.rs:68-82 | the tree `0+ 1+ ;` translates to two instructions and exec |
| InterpreterCases.Nested | src/lagoon/interpreter/mod.rs:91-114 | the tree of `0+{0|0-;};` translates to the expected loop closure |
| InterpreterCases.Negated | src/lagoon/interpreter/mod.rs:116-139 | a negated guard stays negated in translation |
| InterpreterCases.MultipleGuards | src/lagoon/interpreter/mod.rs:141-164 | both guards keep their indices and negation flags |
| ParserCases.Single | src/lagoon/parser.rs:84-93 | `0+;` parses to a symbol and an exec |
| ParserCases.Multiple | src/lagoon/parser.rs:95-107 | `0+ 1+ 123+ 321o;` parses to five symbols |
| ParserCases.FiveSymbolsDebug | src/lagoon/parser.rs:63-77 | the debug form of five symbols is their texts in order, separated by `, ` and wrapped in parentheses |
| ParserCases.LoopBetweenDebug | src/lagoon/parser.rs:63-77 | a loop between two symbols shows as its body's list in parentheses, whatever its guards |
| ParserCases.MultipleDebug | src/lagoon/parser.rs:63-77 | the debug form of that tree is `(0+, 1+, 123+, 321o, ;)` |
| ParserCases.LoopDebug | src/lagoon/parser.rs:63-77 | the debug form of `0+{…|0-;};` is `(0+, (0-, ;), ;)`: a loop shows as its body's list, whatever its guards |
| ParserCases.Nested | src/lagoon/parser.rs:116-129 | `0+{0|0-;};` parses to a loop with guard `0` and body `0-`, `;` |
| ParserCases.Negated | src/lagoon/parser.rs:131-144 | `!` marks the guard negated |
| ParserCases.MultipleGuards | src/lagoon/parser.rs:146-159 | `,` separates the guards `0` and `!1` |
| ParserCases.PendingDigitsCrossLoop | src/lagoon/parser.rs:18-21 | digits pending before a loop are not cleared by it and join the token after the loop |
| ParserCases.TrailingDigitsDropped | src/lagoon/parser.rs:24-32 | digits still pending at the end of the input are dropped |
| ParserCases.StrayBraceEndsParse | src/lagoon/parser.rs:22-23 | a `}` with no loop open ends the whole parse, dropping pending digits and all later text |

## Left out

- Printing: the `o` pool prints its slot (src/lagoon/mod.rs:31). Its mutator is the identity here and the output is not modelled.
- The iteration order of the pool registry: the hash map's order is the parameter `order`, and hashing is not modelled. The end-to-end programs are proved for every order that lists each registered pool once.
- The order of slots within a pool: `Executor.ApplyPool` visits them in an arbitrary order, and the result does not depend on it.
- Memory values are unbounded integers. The `i32` overflow of `+=` and `-=` on a slot is not modelled. Index parsing does model the `i32` range.
- The index type is `i32`, the one every caller uses; the generic index type `T` is not modelled.
- `char::is_numeric` is limited to the ASCII digits `0`-`9`. Other Unicode numerals count as ordinary characters.
- Line numbers are stored in symbols as the scanner counts them. The line counter of `find_guard` is never read, so `Parser.FindGuard` does not keep one.
- `Trees.Tree.Push`: modelled as a function returning the longer tree rather than an in-place push on a shared vector; the parser reassigns its tree.
- The shared `Chars` iterator is modelled as the unread rest of the input, passed to each scanner and handed back.
- Non-termination: a loop may run at most `fuel` iterations per entry, and running out is the outcome `OutOfFuel`, which the source does not have. The end-to-end programs are proved for every fuel at least as large as their longest loop.
- Lookup of an unregistered pool: `get_pool` is called by the executor but not defined in src/lagoon/pool.rs. `PoolRegistry.Pools.GetPool` models the evident intent: a lookup that fails with `UnknownPool`. The executor's `panic!` is the outcome `Failed(Panic(..))`.
- The other type-level inconsistencies are modelled by their evident intent:
  - the private registry map and member set, read by the executor;
  - a mutator of type `fn(&mut T)` applied to an `i32` slot, modelled as an `int -> int` function;
  - the missing `Clone` on `Closure`;
  - the module path `super::parser::tree`.
- `Executor.Execute` requires `Pools.Valid()`, meaning no pool object is registered under two identifiers. In the source this holds by ownership.
- `Executor.Execute` and `Executor.ApplyAll` require `order` to list each registered identifier exactly once. This is the `HashMap` iteration the source relies on; the order itself is a parameter.
- `Pools.count` is never updated by the source. The model keeps it and proves it stays 0 after `new` and unchanged by `add_pool`.
- The panic of `pop().unwrap()` on an empty symbol: translation requires non-empty symbol text, and every tree the parser returns meets that (`Interpreter.ParsedTranslatable`).
- src/main.rs, a demo that prints the debug form of one parsed program, is not part of this model. Its printing is left out; `ParserCases.MultipleDebug` states the text it would print.
