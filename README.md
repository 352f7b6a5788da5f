# Zamia AI data engine and kernel helpers, modelled in Dafny

This project models the authoring side of Zamia AI. An AI module writes its
training data as templates such as `(hello|hi) {name:W}, how are you`, and
class `DataEngine` (zamiaai/data_engine.py) expands each one. The expansion
runs in two phases:

- a scanner turns every inline alternation `(a|b)` into a call of an
  implicit macro `MACRO_k`;
- a backtracking enumerator fans out over the variants of every named and
  implicit macro.

For each token sequence this produces, `DataEngine` stores one Code row and
one TrainingData row, hashed by a shared MD5 object. It also:

- normalises the `dt`/`ts` authoring calls;
- strips the indentation of response functions (`_unindent`);
- counts the samples and test cases of the current module;
- merges the per-module named-macro tables.

From the kernel (`ai_kernal.py`) the project models these helpers:

- the Wikidata property-to-entity mapper;
- the loop that joins decoded predicate names into a Prolog query;
- the fixed-arity checks on training and test data;
- the assembly of the network input from up to three interaction states
  (IAS);
- the set-up of a new IAS, including the lookup of the user's IAS with the
  greatest name (names compare as strings, so `ias9` beats `ias10`).

Modules, in dependency order:

- `Wrappers`, `Text` (strings, splitting, joining, ordering);
- `Macros` (variants and their in-place token cache) and `Keys` (the
  `mpos` key formats);
- the scanner `Template`;
- the enumerator: `Expansion` (specification), `Worklist` (the stack
  discipline), `Expander` (the loops as written);
- the properties of the enumerator: `Branches`, `Counts`, `Spans`;
- `Unindent`, `Responses` (`dt`'s response code), `NamedTables`
  (`compute_named_macros`) and `Training` (the rows of
  `generate_training_data`);
- `Engine`, with class `DataEngine`;
- the kernel: `Terms`, `P2E`, `Query`, `DataChecks`, `NetInput`,
  `SetupIas`.

Imperative code is kept imperative and proved against its specification:

- the scanning loop, the work-list loop, the `mpnn` search, the
  `_unindent` loops, the query loop, the net-input rounds and the IAS
  lookup are `method`s with loop invariants;
- `DataEngine` is a `class` whose methods update its fields.

The specification functions beside them carry the properties. The
tokenizer, MD5, Python's code generator and the Prolog search are
parameters of the model.

## Model

| member | source | states |
|---|---|---|
| Template.ScanAlternations | zamiaai/data_engine.py:152-185 | the scanning loop computes the scanner's result: the rewritten text and the implicit macros, or the missing-`)` error |
| Template.AltVariantsLoop | zamiaai/data_engine.py:174-177 | the loop over `macro_s.split('\|')` builds one `{'W': tokens}` variant per alternative, in order |
| Template.AltVariants | zamiaai/data_engine.py:175-177 | there is one variant per `\|`-separated piece (at least one), the i-th binding `W` to the punctuation-free tokens of the i-th piece |
| Template.ImplicitNameInjective | zamiaai/data_engine.py:172 | `MACRO_%d` names of different groups differ |
| Template.ImplicitOfKeys | zamiaai/data_engine.py:172-174 | the implicit macros are named `MACRO_0` … `MACRO_(n-1)` and nothing else |
| Template.ImplicitOfAt | zamiaai/data_engine.py:172-177 | `MACRO_g` holds exactly the alternatives of the g-th group |
| Template.ScanWellFormed | zamiaai/data_engine.py:156-185 | on a template of characters and closed groups, the scan yields the text with the g-th group replaced by `{MACRO_g:W}` and the macros of the groups' bodies; a group ends at the first `)` |
| Template.ScanFailsUnclosed | zamiaai/data_engine.py:159-163 | a `(` with no `)` after it makes the scan fail with the missing-`)` error |
| Template.Decompose | zamiaai/data_engine.py:156-185 | every text is such a template, possibly followed by one unclosed `(`, so the two lemmas above cover all inputs |
| Template.Parts | zamiaai/data_engine.py:190-193 | the split on `{` and then `}` yields at least one part, none containing a brace |
| Template.PartsWoven | zamiaai/data_engine.py:190-193 | a template made of brace-free literal texts `ls` with brace-free calls `{c}` between them splits into `[ls[0], cs[0], ls[1], …, ls[\|cs\|]]` |
| Template.PartsOfWeave | zamiaai/data_engine.py:190-193 | so it has 2 × \|cs\| + 1 parts, the i-th literal text at index 2i and the i-th call at index 2i + 1: the odd indices the enumerator treats as calls (line 209) |
| Expander.SplitParts | zamiaai/data_engine.py:190-193 | the nested split loop computes `Parts` |
| Expander.FindFreeOcc | zamiaai/data_engine.py:243-248 | the `mpnn` search finds the first occurrence index without a `_start` key |
| Expansion.FreeOcc | zamiaai/data_engine.py:243-248 | that index has no start key and all smaller ones have one |
| Expander.RecordVars | zamiaai/data_engine.py:258-259 | the loop over the variant's variables computes `Record` |
| Expansion.Record | zamiaai/data_engine.py:258-259 | exactly one key `name_k_<var.lower()>` is added per variable; every other key keeps its value |
| Expansion.RecordValues | zamiaai/data_engine.py:258-259 | the value under `name_k_<var.lower()>` is that of the variable written last among those lowering to the same name |
| Expander.CacheTokens | zamiaai/data_engine.py:251-254 | a string value is tokenised and written back into the variant; a token list is used as it is |
| Macros.SetVar | zamiaai/data_engine.py:254 | writing a variable back keeps the variant's variable names and changes only that variable's value |
| Macros.VarTokensStable | zamiaai/data_engine.py:251-255 | after caching, a variable still exists and yields the same tokens, so the shared write-back never changes what any branch sees |
| Macros.StoreRefinesTransitive | zamiaai/data_engine.py:252-254 | repeated caching composes |
| Expander.TakeSlot | zamiaai/data_engine.py:243-256 | choosing one variant computes `Take`: the occurrence index, the start key, the cached tokens and the end key |
| Expansion.Take | zamiaai/data_engine.py:243-256 | taking a variant fails exactly when it lacks the called variable; otherwise the branch moves one part on and the store only gains caches |
| Expander.Extend | zamiaai/data_engine.py:250-261 | the successor of a call is built as the specification's `Successor` |
| Expander.FanOut | zamiaai/data_engine.py:234-261 | the loop over the macro's variants computes `FanFrom`, the successors in variant order |
| Expansion.FanFrom | zamiaai/data_engine.py:234-261 | one successor per variant, each one part further on, with the store only gaining caches; errors are missing variables |
| Expansion.Step | zamiaai/data_engine.py:204-273 | a step yields at least one successor, each one part further on |
| Expansion.RunAll | zamiaai/data_engine.py:200-275 | draining a stack yields at least as many completed items as it held |
| Expander.ExpandItem | zamiaai/data_engine.py:202-273 | the work-list body for one popped state computes `Step` (literal, `empty`, or macro call) |
| Worklist.PopFinished | zamiaai/data_engine.py:202-206 | popping a completed state moves it to `done` and shrinks the remaining work |
| Worklist.PopFails | zamiaai/data_engine.py:208-232 | a step that raises makes the whole expansion raise |
| Worklist.PopStep | zamiaai/data_engine.py:200-273 | pushing a step's successors leaves the final result unchanged and shrinks the remaining work |
| Worklist.RunAllAppend | zamiaai/data_engine.py:234-261 | the stack discipline: pushed successors are finished, last first, before the older entries |
| Expander.RunWorklist | zamiaai/data_engine.py:195-275 | the work-list loop computes `Expand` |
| Expander.FinishExpand | zamiaai/data_engine.py:195-275 | `Expand` is the depth-first leaves of the initial state, or the first error |
| Expander.ExpandMacros | zamiaai/data_engine.py:148-275 | `_expand_macros` computes `ExpandText`: scan, split into parts, enumerate |
| Branches.LeavesRender | zamiaai/data_engine.py:255-273 | every completed token list is the in-order concatenation of the literal parts' tokens and the chosen variants' variable tokens; it binds exactly the names called |
| Branches.RenderStable | zamiaai/data_engine.py:235-254 | a branch's tokens depend only on its own bindings, not on caches written by other branches |
| Branches.LeavesGood | zamiaai/data_engine.py:225-239 | every leaf has consumed all parts, and its bindings stay consistent with what it rendered |
| Branches.FanGood | zamiaai/data_engine.py:225-261 | a name bound earlier in the branch is reused: each successor keeps the consistency invariant |
| Counts.FanBound | zamiaai/data_engine.py:234-239 | the j-th successor binds the called name to the j-th variant |
| Counts.NewNamesFresh | zamiaai/data_engine.py:225-226 | the distinct names still to be bound are pairwise different and not yet bound |
| Counts.NewNamesCover | zamiaai/data_engine.py:225-226 | every later call of an unbound name is among them |
| Counts.NewNamesCalled | zamiaai/data_engine.py:225-226 | and each of them is called later |
| Counts.LeavesCount | zamiaai/data_engine.py:225-261 | from any state, the number of leaves is the product of the variant counts of the distinct unbound names still called |
| Counts.ExpandCount | zamiaai/data_engine.py:225-261 | the number of expansions is the product of variant counts over distinct non-`empty` macro names, not over occurrences |
| Counts.StepKnown | zamiaai/data_engine.py:225-232 | every name a branch binds is one whose lookup (named macros first, then implicit ones) found variants |
| Counts.ExpandFails | zamiaai/data_engine.py:212-232 | a malformed call or a call of an unknown macro anywhere in the template makes the expansion raise, whatever the other calls choose |
| Counts.ExpandTextUnclosed | zamiaai/data_engine.py:159-163 | an unclosed `(` makes `_expand_macros` raise, with no expansions |
| Counts.ExpandTextWellFormed | zamiaai/data_engine.py:148-197 | on a well-formed template, `_expand_macros` enumerates the rewritten parts with the groups' implicit macros |
| Spans.ExpandSpans | zamiaai/data_engine.py:243-259 | for the k-th occurrence of a name, `name_k_start`/`name_k_end` hold the token counts before and after the call, every variable has its key holding the value of the last variable with that lower-cased name (the cached token list when the branch tokenised it), and the span keys present are exactly those of the occurrences |
| Spans.OccBelow | zamiaai/data_engine.py:243-248 | occurrence indices increase with template position |
| Spans.NoVarIsSpan | zamiaai/data_engine.py:259 | a plain variable's key never coincides with a span key |
| Spans.ImplicitPlain | zamiaai/data_engine.py:175-177 | implicit macros bind only `W` |
| Spans.RenderPrefix | zamiaai/data_engine.py:255-271 | tokens are only appended, so earlier spans stay where they are |
| Keys.StartKeyInjective | zamiaai/data_engine.py:245-250 | `name_k_start` determines the name and k |
| Keys.EndKeyInjective | zamiaai/data_engine.py:256 | `name_k_end` determines the name and k |
| Keys.StartNotEnd | zamiaai/data_engine.py:250-256 | start and end keys never collide |
| Keys.VarNotStart | zamiaai/data_engine.py:259 | a variable key differs from every start key, unless the variable is `start` or contains `_` |
| Keys.VarNotEnd | zamiaai/data_engine.py:259 | the same for end keys |
| Keys.VarKeyInjective | zamiaai/data_engine.py:259 | variable keys without `_` in the variable determine name, k and variable |
| Engine.DataEngine.constructor | zamiaai/data_engine.py:58-76 | a new engine has no prefixes, no module, zero counters, empty tables, an MD5 object fed nothing, neither `named_macros_mod` nor `named_macros`, and the source location `('unknown', 0)` (the corrected default, see Findings) |
| Engine.DataEngine.GetStats | zamiaai/data_engine.py:78-79 | the counters count the current module's latest TrainingData and TestCase rows |
| Engine.DataEngine.Clear | zamiaai/data_engine.py:99-110 | the module's rows are deleted from all five tables (TrainingData, Code, TestCase, NERData, NamedMacro), other rows stay in order, both counters are zero |
| Engine.DataEngine.PrepareCompilation | zamiaai/data_engine.py:84-86 | deletes the module's rows from the same five tables as `clear`, zeroes both counters and makes the module the current one |
| Engine.DataEngine.SetPrefixes | zamiaai/data_engine.py:344-345 | replaces the prefixes |
| Engine.DataEngine.Macro | zamiaai/data_engine.py:129-137 | appends one NamedMacro row, so a lookup of that name and language gains exactly that solution at the end |
| Engine.DataEngine.LookupNamedMacro | zamiaai/data_engine.py:139-146 | returns the solutions of the rows with that language and name, in row order |
| Training.LookupNamed | zamiaai/data_engine.py:139-146 | a solution is found exactly when some row of that language and name holds it |
| Engine.DataEngine.ComputeNamedMacros | zamiaai/data_engine.py:88-97 | the merged table is the fold of the module tables; without a `named_macros_mod` it fails after resetting `named_macros` to empty |
| Engine.DataEngine.MergeModuleInto | zamiaai/data_engine.py:90-97 | merges one module's table |
| Engine.DataEngine.MergeLangInto | zamiaai/data_engine.py:91-97 | merges one language's table |
| NamedTables.MergeLangSpec | zamiaai/data_engine.py:92-97 | other languages are untouched; a name is present iff it was or the module defines it; its list is extended at the end |
| NamedTables.MergeLangGet | zamiaai/data_engine.py:94-97 | one more entry appends its variants to its own name in its language and changes no other entry |
| NamedTables.MergeModuleKeys | zamiaai/data_engine.py:90-93 | a language is present iff it was or the module has it |
| NamedTables.MergeModuleNames | zamiaai/data_engine.py:94-96 | a name is present iff it was or the module defines it |
| NamedTables.MergeModuleGet | zamiaai/data_engine.py:97 | each list is extended by the module's variants |
| NamedTables.MergeAllSpec | zamiaai/data_engine.py:88-97 | the result has exactly the languages and names of all modules, each list the concatenation of the modules' lists in module order |
| Engine.DataEngine.GenerateTrainingData | zamiaai/data_engine.py:347-381 | the new state is that of adding, per prefix × input × expansion in order, one Code and one TrainingData row, with no check for an existing hash; the counters still count the module's rows |
| Engine.DataEngine.GenerateRow | zamiaai/data_engine.py:353-381 | one prefix's inputs, stopping at the first that raises |
| Engine.DataEngine.GenerateNext | zamiaai/data_engine.py:355-381 | one more input, `prefix + inp`, expanded and stored |
| Engine.DataEngine.GenerateText | zamiaai/data_engine.py:357-381 | an expansion error changes nothing; otherwise every expansion is stored |
| Engine.DataEngine.AddSamples | zamiaai/data_engine.py:357-381 | the inner loop adds the rows of `Generated` |
| Training.PrefixesOrEmpty | zamiaai/data_engine.py:349 | no prefixes means the single empty prefix |
| Training.PrefixedLength | zamiaai/data_engine.py:351-355 | there are \|prefixes\| × \|inps\| texts to expand |
| Training.PrefixedAt | zamiaai/data_engine.py:351-355 | the text at i × \|inps\| + j is `prefixes[i] + inps[j]` |
| Training.ExpansionsOk | zamiaai/data_engine.py:357 | the run completes iff every text expands |
| Training.ExpansionsError | zamiaai/data_engine.py:357 | a failed run reports the error of the first text that fails |
| Training.ExpansionsGrow | zamiaai/data_engine.py:351-357 | the samples of a prefix of the texts are a prefix of the samples, and an error stops the run |
| Training.GeneratedRows | zamiaai/data_engine.py:357-379 | sample i gets the digest of everything fed so far plus i + 1 copies of the code, its Code row the same hash, its input the tokens joined by spaces; earlier rows are kept; `cnt_dt` grows by the count |
| Training.GeneratedHashesDistinct | zamiaai/data_engine.py:363-364 | with an injective digest and non-empty code, the accumulator shared since `__init__` (line 60) gives every sample of a call a different hash |
| Training.GeneratedAppend | zamiaai/data_engine.py:351-381 | storing two batches one after the other is storing their concatenation |
| Training.GeneratedNothing | zamiaai/data_engine.py:357 | no expansions, no change |
| Training.GeneratedOne | zamiaai/data_engine.py:357-379 | one expansion adds exactly one Code and one TrainingData row and feeds the code once |
| Training.GeneratedUnlocated | zamiaai/data_engine.py:363-376 | as written, without a `src_location` the first sample raises, after its Code row was added |
| Training.GeneratedCounted | zamiaai/data_engine.py:366-379 | the rows added belong to the current module, so `cnt_dt` still counts its rows |
| Training.ReachedCounted | zamiaai/data_engine.py:347-381 | the same holds where the loop stops early |
| Training.RepeatAdd | zamiaai/data_engine.py:363 | feeding the code a times and then b times is feeding it a + b times |
| Engine.DataEngine.Dt | zamiaai/data_engine.py:401-445 | an unparsable response source leaves the state and location unchanged; a function source without a `def` records the caller's location and then fails with no other change; otherwise the location is recorded and `generate_training_data` runs on the input list |
| Engine.DataEngine.Ts | zamiaai/data_engine.py:449-476 | appends one TestCase with tokenised, space-joined rounds at the caller's location and raises `cnt_ts` by one |
| Responses.InputList | zamiaai/data_engine.py:403-404 | a single input becomes a list of one |
| Responses.ResponseSourceJoin | zamiaai/data_engine.py:408-411 | the generated source is the header and one `c.resp` line per response, joined by line breaks |
| Responses.ResponseSourceLines | zamiaai/data_engine.py:408-411 | split back into lines it gives exactly those lines |
| Responses.BuildSource | zamiaai/data_engine.py:409-411 | the loop builds that source |
| Responses.ResponseCode | zamiaai/data_engine.py:408-434 | list and string responses get function name `_resp`; the errors are an unparsable source or a function source without a definition |
| Responses.TransformResponse | zamiaai/data_engine.py:408-434 | the branches of `dt` compute `ResponseCode` |
| Unindent.Unindent | zamiaai/data_engine.py:383-399 | `_unindent` computes `Unindented` |
| Unindent.FindIndent | zamiaai/data_engine.py:385-390 | the first loop finds the indent of the first non-blank line, 0 if there is none |
| Unindent.ShiftLines | zamiaai/data_engine.py:394-399 | the second loop makes each non-blank line lose its first n characters, or all of them when it is shorter |
| Unindent.FirstIndentOf | zamiaai/data_engine.py:386-390 | the indent found is the leading whitespace of the first non-blank line |
| Unindent.UnindentedLines | zamiaai/data_engine.py:383-399 | the line count is kept, blank lines are unchanged, a zero indent returns the input, and every non-blank line loses its first n characters (n the first non-blank line's indent), or all of them when it is shorter |
| Unindent.UnindentedIdempotent | zamiaai/data_engine.py:383-399 | unindenting twice is unindenting once |
| Terms.NameOf | ai_kernal.py:386 | `.name` succeeds exactly on predicates |
| Terms.StrOf | ai_kernal.py:528 | `.s` succeeds exactly on string literals |
| Terms.ListOf | ai_kernal.py:388 | `.l` succeeds exactly on list literals |
| P2E.PrefixLengths | ai_kernal.py:301-306 | the slice bounds 36 and 29 are the prefix lengths |
| P2E.P2EDirect | ai_kernal.py:302-303 | `…/prop/direct/X` maps to `…/entity/X` |
| P2E.P2EProp | ai_kernal.py:304-305 | `…/prop/X` maps to `…/entity/X` |
| P2E.P2EDirectFirst | ai_kernal.py:302-305 | the `direct/` test comes first |
| P2E.P2EDefined | ai_kernal.py:301-306 | exactly the URIs under the property prefix map to something, always an entity URI |
| P2E.P2EInjective | ai_kernal.py:301-306 | within one prefix, different URIs map to different entities |
| Query.BuildQuery | ai_kernal.py:673-693 | the loop computes `QueryOf` |
| Query.QueryOfSpec | ai_kernal.py:673-693 | the loop raises iff some name is empty; otherwise the query is the emitted names with their separators |
| Query.QueryFromRender | ai_kernal.py:677-693 | the loop agrees with "select, then render" from every state |
| Query.QueryPlain | ai_kernal.py:686-693 | without `or` and `_` names the query is the names joined by `, ` |
| Query.QueryUnderscore | ai_kernal.py:679-680 | names starting with `_` play no part |
| Query.QueryOr | ai_kernal.py:682-691 | `or` makes the next separator `; ` and is not emitted |
| Query.QueryLeadingOr | ai_kernal.py:682-689 | an `or` before anything is emitted is lost |
| DataChecks.CollectTraining | ai_kernal.py:383-395 | the collection loop computes `TrainTodo` |
| DataChecks.TrainTodoSpec | ai_kernal.py:383-395 | the loop raises exactly on a malformed solution; otherwise every solution's data is queued in order, each a multiple of 4 long |
| DataChecks.RecordedLangsLost | ai_kernal.py:383-395 | every queued conversation is stored (lines 413 and 459) under the last solution's language |
| DataChecks.TrainTodoTaggedSpec | ai_kernal.py:383-395 | with the language kept per entry, each entry carries its own solution's language and data |
| DataChecks.TestFirstRoundSpec | ai_kernal.py:804-818 | a test starts only with whole rounds of three terms; other lengths raise the length error, an empty list an index error |
| NetInput.ScanRound | ai_kernal.py:514-536 | the fact loop computes `Scan` |
| NetInput.ScanDict | ai_kernal.py:519-536 | the dictionary holds exactly the non-ignored predicate keys, each with the value of its last fact |
| NetInput.ScanLinks | ai_kernal.py:527-531 | `prevIAS` comes from a `prevIAS` fact; no `tokens` fact means no tokens |
| NetInput.Descending | ai_kernal.py:539 | the keys in the order they end up in: strictly descending, each exactly once |
| NetInput.MinOf | ai_kernal.py:539 | the least remaining key, which `sorted` takes next |
| NetInput.PushTokens | ai_kernal.py:537-538 | the tokens end up in front of the context, in their order |
| NetInput.PushPairs | ai_kernal.py:539-541 | the `k, v` pairs end up in front, greatest key first |
| NetInput.PushBlock | ai_kernal.py:537-541 | one round puts its block in front of the context, or raises without tokens |
| NetInput.TokenItems | ai_kernal.py:537-538 | the tokens are read with `.s`, failing on any other term |
| NetInput.BlockLayout | ai_kernal.py:537-541 | a block is the keys in strictly descending order, each followed by its value, then the tokens in order |
| NetInput.ComputeNetInput | ai_kernal.py:506-548 | the rounds loop computes `NetInput` |
| NetInput.ContextRound | ai_kernal.py:510-546 | one turn of the loop either ends the loop with the final context or error, or hands the next IAS and the grown context to a loop with one round less |
| NetInput.NetInputRound | ai_kernal.py:510-546 | one round: raise, stop at a missing or empty `prevIAS`, or follow it with this block in front of the context |
| NetInput.NetInputEndsWithFirst | ai_kernal.py:537-541 | each round's block goes in front of the earlier rounds', so the first IAS's block ends the result |
| NetInput.NetInputAlone | ai_kernal.py:544-545 | an IAS without a usable `prevIAS` is the only one read |
| NetInput.Visited | ai_kernal.py:506-548 | at most `NUM_CONTEXT_ROUNDS` = 3 IAS nodes are visited, the first being the current one |
| NetInput.NetInputReads | ai_kernal.py:510-546 | only the facts of the visited nodes matter |
| SetupIas.FindPrev | ai_kernal.py:570-584 | the lookup loop computes `SelectPrev` |
| SetupIas.SelectPrevDefined | ai_kernal.py:576-584 | the lookup raises iff there are two or more candidates and one is not a predicate; it finds nothing only without candidates, and otherwise finds one of them |
| SetupIas.SelectPrevGreatest | ai_kernal.py:576-584 | among predicates it finds the one with the greatest name, the first of several equal ones |
| SetupIas.GreatestSnoc | ai_kernal.py:583-584 | one more candidate replaces the running maximum only when its name is greater |
| SetupIas.Setup | ai_kernal.py:566-607 | the new IAS is the gensym symbol; the copy of the overlay has the `ias` clauses of the caller's overlay followed by the new facts, and nothing else changes |
| SetupIas.AssertFacts | ai_kernal.py:588-600 | the asserted facts are appended after the `ias` clauses already there, in the order of `NewPairs` |
| SetupIas.NewPairsShape | ai_kernal.py:588-600 | three facts about the new IAS, plus `currentTime` outside test mode and `prevIAS` when there is one, last |
| SetupIas.NewPairsScanned | ai_kernal.py:588-600 | read back by the net-input scan, a new IAS gives only its tokens and its `prevIAS` link; the link can be followed only when it is a string literal |

## Left out

- Database plumbing is not modelled: `commit`, `lookup_code`, `lookup_data_train`, `lookup_tests` and the SQLAlchemy session. The tables are sequences of rows in insertion order, and a query returns rows in that order.
- `lookup_named_macro`'s JSON round trip is modelled as a lookup that returns fresh copies of the stored variants. `macro` stores the variant itself rather than its JSON text.
- The tokenizer (`nltools.tokenizer`) is two abstract functions: the default one and the one with `keep_punctuation=False`.
- MD5 is an abstract `digest` of all the text fed since the engine was created. The MD5 algorithm (RFC 1321) is not modelled, nor the encoding of the text fed.
- `codegen.to_source`, `ast.parse`, `ast.walk` and `inspect.getsource` are the `Codegen` parameter. The caller's frame location is a parameter of `Dt` and `Ts`.
- `_generate_training_code` is `codegen.to_source` of the response; its placeholder substitution exists only as comments. It does not depend on the expansion, so it is computed once per `dt` call.
- `report_error` is modelled as an error result. Its message text and the source location it prints are left out.
- Text.Lower: folds ASCII letters only. Python's `lower()` on unicode also folds other letters, so two variable names that Python lowers to the same key may get different keys here.
- `Text.Strip` strips ASCII whitespace only. Python's `strip` also removes other Unicode whitespace.
- Logging is left out.
- Spans.ExpandSpans: stated only for macros whose lower-cased variable names are not `start` or `end` and contain no `_` (`PlainEnv`). The implicit macros always meet this. For other variable names, a variable key can overwrite a span key, which is what the source does.
- Expansion.Record: walks a variant's variables in the order of its association list. The source iterates a Python dict, and that order decides which value survives when two names lower to the same key; Expander.RecordVars and Expansion.RecordValues follow the same list order.
- Engine.DataEngine.ComputeNamedMacros: `named_macros_mod` is never created by the engine, so the model keeps it as an optional field that only a caller can set; `named_macros` is written but never read by the modelled code.
- The NERData table is a sequence of rows with a module and opaque fields; only its deletion by `clear` is modelled, since nothing else in the engine writes or reads it.
- Training.GeneratedHashesDistinct: assumes an injective digest, which MD5 is not.
- NetInput.ScanStep: `.s` is modelled on string literals only. The `prevIAS` facts that `_setup_ias` asserts hold predicates, so following them depends on the term classes of zamiaprolog, which are not part of this model.
- SetupIas.Setup: takes every IAS term as true in `if not prevIAS`. The clause source locations, the `env` dictionary and `deepcopy`'s copying of clauses are left out; the overlay is a value.
- DataChecks.TestFirstRoundSpec: covers the checks and the first round's reads of `test_module`, not the replay of the rounds.
- The replay loop of `compile_module` (ai_kernal.py:400-475) is not modelled beyond its checks and the language it records. It runs Prolog and writes TrainingData rows.
- The Prolog runtime (`search`, `search_predicate`, `do_gensym`) is not modelled: its results are inputs. The same goes for `datetime.now`, the rdflib knowledge base and the TensorFlow inference.
- Also not modelled: `nlp_server.py`, `dump_utterances`, module loading via `imp`, and cron jobs.

## Findings

| source | as written | input that shows it | evidently intended | confidence | as-written member | corrected member |
|---|---|---|---|---|---|---|
| ai_kernal.py:383-395 | `compile_module` keeps the language in one variable, `utt_lang`, overwritten by every `nlp_train` solution and not stored with the queued data, so all replayed TrainingData rows (lines 413 and 459) get the last solution's language | two `nlp_train` solutions of one module, the first in `en` and the second in `de`: the `en` conversation's rows are stored with language `de` | each queued conversation keeps the language of its own solution | not executed | DataChecks.RecordedLangsLost | DataChecks.TrainTodoTaggedSpec |
| zamiaai/data_engine.py:73 | `__init__` sets the default location on `source_location`, but `generate_training_data` reads `src_location` (lines 375-376), which only `dt` and `ts` assign | `generate_training_data` on a new engine with one input that expands: the Code row is added, then reading `src_location` raises AttributeError | `src_location` starts as `('unknown', 0)`, so rows generated before any `dt`/`ts` carry that location (Training.GeneratedRows with that location) | not executed | Training.GeneratedUnlocated | Engine.DataEngine.constructor |
