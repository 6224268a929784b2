# Live Variable Analysis, modelled in Dafny

A model of the `LiveVariableAnalyzer` class of `backend/lva/analyzer.js`. The
class takes the source text of a JavaScript program. It reports, for each
top-level statement:

- the names the statement reads (GEN) and defines (KILL);
- the names that are live on entry to the statement and on exit from it.

The analyzer works in four stages, each filling in fields of the object:

1. **Statement collection** (`buildCFG`, `getCodeForNode`). Every statement path the
   traversal visits is kept unless it is nested in a function or has no location. A
   kept statement gets the next id and its source snippet, cut out of the
   `'\n'`-split text by line and column. The statements are then sorted by start line.
2. **GEN/KILL classification** (`calculateGenKillSets` with `isLeftHandSideOfAssignment`,
   `isDescendantOf` and `extractIdentifiersFromPattern`). Four visitor callbacks add
   names for every node of the statement's subtree:
   - a referenced identifier is read, or defined when it is the left side of an
     assignment;
   - a declarator defines its identifier, or the names its top-level pattern binds;
   - an assignment defines an identifier on its left, and reads an identifier that is
     the base of a member on its left;
   - an update both reads and defines its identifier.

   Every KILL name is then deleted from GEN.
3. **Backward dataflow** (`performDataflowAnalysis`, `setsEqual`). Reverse sweeps over
   the straight-line chain compute `OUT[i] = IN[i + 1]` and
   `IN[i] = GEN[i] ∪ (OUT[i] \ KILL[i])`. They stop after a sweep that changes no set,
   or after 100 sweeps.
4. **Result assembly** (`formatResults`, `extractAllVariables`). It builds:
   - per-statement records with sorted name lists;
   - the successor view;
   - the summary;
   - one record per source line.

### Layout

| file | module | holds |
|---|---|---|
| `wrappers.dfy` | `Wrappers` | `Option` and `Result` |
| `syntax.dfy` | `Syntax` | The part of the Babel tree the analyzer inspects (`Node`). What the statement visitor sees of each statement path (`StatementPath`). The parser's outcome. |
| `text.dfy` | `Text` | `split`, `join`, `substring` and `trim` of the JavaScript runtime, with their laws. |
| `statements.dfy` | `Statements` | Which paths are collected, the snippet cut for each, and the stable sort by line. |
| `effects.dfy` | `Effects` | The traversal of a statement's subtree, the visitor callbacks, the pattern helper, and what the GEN/KILL sets contain. |
| `liveness.dfy` | `Liveness` | The dataflow equations on a chain, their unique solution, what it means, and `setsEqual`. |
| `names.dfy` | `Names` | The order of names and the sorted listing of a set (`Array.from(s).sort()`). |
| `analyzer.dfy` | `Analyzer` | The class `LiveVariableAnalyzer`, whose fields `cfg`, `genSets`, `killSets`, `liveIn` and `liveOut` its methods update, and the result datatypes. |
| `scenarios.dfy` | `Scenarios` | The four-statement sample program of `backend/test-lva.js` and `backend/lva/examples.js`, `counter++` and `x = x + 1`, taken through the model. |

### Behaviour worth knowing

- **Function parameters are not KILLed.** No visitor callback looks at parameters, and a
  parameter is a binding identifier, not a referenced one.
- **`counter++` leaves `counter` in KILL only.** It is deleted from GEN, so `counter` is
  not live before the statement unless it was live after it, and nothing flows into the
  previous statement's `liveOut` from the update. `Scenarios.IncrementClassified` and
  `Scenarios.IncrementNotLiveBefore` show this.
- **Destructuring is not flattened.** Only identifiers and rest arguments bound directly
  by a top-level object or array pattern are KILLed. Nested patterns, defaults and holes
  add nothing.
- **The iteration cap is never reached.** On a chain, the first sweep already solves the
  equations, and the second one changes nothing, so at most 2 sweeps run.
- **Line numbers and the `'\n'` split can disagree.** Babel also ends a line at a lone
  `\r`, at U+2028 and at U+2029; `code.split('\n')` does not. A statement may then name
  a line the split does not have. `getCodeForNode` calls `substring` on `undefined`,
  the `TypeError` is rethrown as `"Analysis failed: …"`, and no field is updated yet
  (`Analyzer.LiveVariableAnalyzer.Analyze`, `BuildCFG`, `GetCodeForNode`). A statement
  whose lines do exist gets the text of those split lines, whatever Babel counted.
- A statement nested in a block is a chain entry of its own, and its names also count
  in the enclosing statement (`Effects.NestedStatementCounted`).
- For `let {a = 1} = o`, the property value is an assignment pattern, so `a` is not
  KILLed.
- For `x += 1`, the assignment defines `x` and does not read it.
- When two statements start on the same line, the line record shows the later one.

## Model

| member | source | states |
|---|---|---|
| Analyzer.LiveVariableAnalyzer.constructor | backend/lva/analyzer.js:11-18 | The object keeps the code; the chain and all four maps start empty. |
| Analyzer.LiveVariableAnalyzer.Analyze | backend/lva/analyzer.js:23-45 | A parse failure yields `Err("Analysis failed: " + message)` and changes nothing. A kept statement spanning a line the `'\n'` split lacks yields `Err("Analysis failed: " + UndefinedLine)`, the engine's `TypeError` message, and changes nothing. Otherwise the result satisfies `Describes`, and: `cfg` is the collected chain sorted by line, with ids equal to positions; GEN/KILL are stored per statement; the live sets are keyed by exactly the ids and solve the dataflow equations. |
| Analyzer.LiveVariableAnalyzer.ReportsLiveness | backend/lva/analyzer.js:248-262 | After analysis, the `liveIn`/`liveOut` lists reported for statement `k` are the sorted listings of the names live on entry to `k` and on entry to `k + 1`. |
| Analyzer.LiveVariableAnalyzer.BuildCFG | backend/lva/analyzer.js:50-78 | It fails, with `UndefinedLine` and `cfg` unchanged, exactly when some kept statement does not fit the lines (`LocsFit`). Otherwise `cfg` becomes the stable line-sort of the collected statements. No other field changes. |
| Statements.Collected | backend/lva/analyzer.js:55-74 | The collected entries have ids 0, 1, 2, … in traversal order, and there are at most as many as visited paths. |
| Statements.CollectedStep | backend/lva/analyzer.js:57-72 | Visiting one more path appends its entry exactly when it is not nested in a function and has a location. |
| Statements.CollectedFromIncluded | backend/lva/analyzer.js:59-71 | Every collected entry is the entry of a path that is not nested in a function and has a location. |
| Statements.IncludedCollected | backend/lva/analyzer.js:59-71 | Every such path has its entry in the chain. |
| Statements.InsertByLine | backend/lva/analyzer.js:77 | Defines one insertion step of the sort: the entry goes before the first entry whose line is not smaller. |
| Statements.SortByLine | backend/lva/analyzer.js:77 | The sort orders by start line and is a permutation of its input. |
| Statements.SortByLineSorted | backend/lva/analyzer.js:77 | Input already in line order comes back unchanged. |
| Statements.SortByLineStable | backend/lva/analyzer.js:77 | The sort is stable: for every line, the entries starting on it come out in their input order. |
| Statements.InsertByLineOnLine | backend/lva/analyzer.js:77 | One insertion step puts the entry ahead of the entries on its own line and reorders no entries of any line. |
| Statements.CollectedAllIncluded | backend/lva/analyzer.js:57-71 | When every path is kept, the chain has one entry per path, numbered in traversal order. |
| Statements.Entry | backend/lva/analyzer.js:65-71 | Defines the pushed statement: the next id, the start line, the node type, the node, its key and its snippet. |
| Statements.NestedInFunction | backend/lva/analyzer.js:59 | Defines the skip test: the path has an enclosing function. |
| Statements.Included | backend/lva/analyzer.js:59-64 | Defines the paths that are kept: not nested in a function, with a location. |
| Statements.InsertByLinePermutes | backend/lva/analyzer.js:77 | One insertion step adds exactly the inserted entry. |
| Statements.InsertByLineSorted | backend/lva/analyzer.js:77 | One insertion step keeps line order. |
| Statements.CollectedInLineOrder | backend/lva/analyzer.js:55-77 | Paths that arrive in line order give a chain already in line order. |
| Statements.IdsArePositionsAfterSort | backend/lva/analyzer.js:66-77 | After the sort, each statement's id is its position, which the later index lookups rely on. |
| Analyzer.LiveVariableAnalyzer.GetCodeForNode | backend/lva/analyzer.js:83-106 | It fails with `UndefinedLine` exactly when the location reads a line the split lacks (`LocFits` fails). Otherwise the text is `Snippet(lines, loc)`: `''` without a location; the column substring on one line; otherwise the first line's suffix, the middle lines unchanged and the last line's prefix, joined by `'\n'`. |
| Analyzer.LiveVariableAnalyzer.SpanLines | backend/lva/analyzer.js:95-104 | The multi-line loop fails exactly when the first or the last line is missing. Otherwise it pushes `SnippetLines(lines, loc)`; a missing inner line is pushed as `''`, as `join` writes `undefined`. |
| Statements.Snippet | backend/lva/analyzer.js:83-106 | Defines `getCodeForNode`'s result: `''` without a location, the column substring of a single line, or the assembled lines joined by `'\n'`. |
| Statements.SnippetLines | backend/lva/analyzer.js:95-104 | Defines the assembled lines of a multi-line span: the first line from the start column, the inner lines whole, the last line up to the end column. |
| Statements.SnippetIsSourceSlice | backend/lva/analyzer.js:83-106 | For a span that lies within the text, the snippet is exactly the source text between the offsets of its two ends. |
| Text.Split | backend/lva/analyzer.js:85 | `split('\n')` gives at least one part, and no part holds the separator. |
| Text.JoinSplit | backend/lva/analyzer.js:85 | Joining the split parts gives back the text. |
| Text.Join | backend/lva/analyzer.js:105 | Defines `parts.join(sep)`: the parts in order with one separator between neighbours, `''` for no parts. |
| Text.JoinSeparator | backend/lva/analyzer.js:105 | Joining separator-free parts gives a text holding the separator exactly when there are at least two parts. |
| Text.SplitJoin | backend/lva/analyzer.js:105 | Splitting a join of separator-free parts gives back the parts. |
| Text.JoinRange | backend/lva/analyzer.js:95-105 | Lines `s..e` occupy the joined text from the start of line `s` to the end of line `e`. |
| Text.Substring | backend/lva/analyzer.js:91 | `substring` clamps both arguments to the string and swaps them when the first is larger; in range, it is the plain slice. |
| Text.Trim | backend/lva/analyzer.js:256 | The trimmed text is no longer than the text, and when it is not empty it neither starts nor ends with white space. |
| Text.TrimIsSlice | backend/lva/analyzer.js:256 | `trim()` keeps a slice of the text. Only white space lies around it, and it neither starts nor ends with white space. |
| Text.TrimIdempotent | backend/lva/analyzer.js:256 | Trimming a trimmed snippet changes nothing. |
| Analyzer.GenKill | backend/lva/analyzer.js:112-168 | The visitor loop over the subtree, then the deletion of KILL names from GEN, yields exactly `Classify(node)`. |
| Analyzer.LiveVariableAnalyzer.CalculateGenKillSets | backend/lva/analyzer.js:111-173 | Each statement's id is bound to its GEN and KILL sets over the old maps; `cfg` and the live sets are unchanged. |
| Analyzer.LiveVariableAnalyzer.StoreGenKill | backend/lva/analyzer.js:112-171 | One `forEach` step stores statement `k`'s sets and keeps the stored prefix. |
| Analyzer.StoredAt | backend/lva/analyzer.js:170-171 | After the stores, each stored id holds its statement's set, and every other id keeps its old set. |
| Effects.Classify | backend/lva/analyzer.js:167-168 | GEN and KILL are disjoint: KILL wins. |
| Effects.ClassifyGen | backend/lva/analyzer.js:117-168 | `x` is in GEN iff some visited node reads it and none defines it. |
| Effects.ClassifyKill | backend/lva/analyzer.js:117-168 | `x` is in KILL iff some visited node defines it. |
| Effects.Visit | backend/lva/analyzer.js:120-161 | Only identifiers, declarators, assignments and updates add names. A node's own GEN and KILL are disjoint, except for an update, which reads and defines its identifier. |
| Effects.Collect | backend/lva/analyzer.js:113-165 | Defines the raw sets as the union of what each visited node adds, in visiting order. |
| Effects.CollectExactly | backend/lva/analyzer.js:117-165 | The raw sets hold a name iff some visited node's callback adds it. |
| Effects.UpdateTargetKilledNotRead | backend/lva/analyzer.js:154-168 | `i++`, `--i`: the name is in KILL and not in GEN. |
| Effects.DeclaredNameKilled | backend/lva/analyzer.js:134-138 | A declarator's identifier is in KILL and not in GEN. |
| Effects.DestructuredNamesKilled | backend/lva/analyzer.js:139-142 | Every name a top-level destructuring pattern binds directly is in KILL and not in GEN. |
| Effects.AssignedNameKilled | backend/lva/analyzer.js:144-148 | An identifier on the left of an assignment is in KILL and not in GEN. |
| Effects.MemberAssignmentReadsBase | backend/lva/analyzer.js:149-152 | For `o.f = v`, `o` is in GEN unless the statement defines it. |
| Effects.ReferencedUseRead | backend/lva/analyzer.js:120-132 | A referenced identifier that is not an assignment's left side is in GEN unless the statement defines it. |
| Effects.Traverse | backend/lva/analyzer.js:117-119 | `traverse` visits a node first, with its parent and position, then the paths of its subtree; the result starts with the node's own path. |
| Effects.TraverseChildren | backend/lva/analyzer.js:117-119 | Defines the children traversal visits for each node kind, in visitor-key order, each with its parent and key. |
| Effects.TraverseList | backend/lva/analyzer.js:117-119 | Defines the walk over a list of children, numbering them from `from` in order. |
| Effects.StatementPaths | backend/lva/analyzer.js:117-119 | Defines the paths visited when one statement is traversed on its own, the statement first and without a parent. |
| Effects.TraverseClosed | backend/lva/analyzer.js:117-119 | Every node of a visited node's own subtree is visited too. |
| Effects.NestedStatementCounted | backend/lva/analyzer.js:117-119 | A nested statement's KILL is within the enclosing statement's KILL, and its GEN is within the enclosing GEN ∪ KILL. |
| Effects.IsDescendantOf | backend/lva/analyzer.js:324-334 | A node descends from an ancestor only when there is one, and it is then the ancestor itself or, for a member expression, one of its two children. |
| Effects.IsLeftHandSideOfAssignment | backend/lva/analyzer.js:313-319 | True iff the parent is an assignment and the node is its left side; `isDescendantOf`'s member branch can never fire for a child. |
| Effects.ExtractIdentifiersFromPattern | backend/lva/analyzer.js:339-361 | Returns `PatternNames(pattern)`: the property values, elements and rest arguments that are identifiers, in order; `[]` for anything else. |
| Effects.PropertyIdentifiers | backend/lva/analyzer.js:343-349 | The object-pattern loop yields `PropertyNames(ps)`. |
| Effects.ElementIdentifiers | backend/lva/analyzer.js:351-357 | The array-pattern loop yields `ElementNames(es)`. |
| Effects.PatternNamesExactly | backend/lva/analyzer.js:339-361 | A name is returned iff some top-level element of the pattern binds it directly. |
| Liveness.SetsEqual | backend/lva/analyzer.js:366-372 | True iff the two sets have the same elements. |
| Analyzer.LiveVariableAnalyzer.PerformDataflowAnalysis | backend/lva/analyzer.js:178-227 | On return, the live sets are keyed by exactly the ids and satisfy `OUT[i] = IN[i + 1]`, `OUT[last] = ∅` and `IN[i] = GEN[i] ∪ (OUT[i] \ KILL[i])`. The loop runs 1 or 2 sweeps, within the cap of 100. Nothing else changes. |
| Analyzer.LiveVariableAnalyzer.Sweep | backend/lva/analyzer.js:198-223 | One reverse sweep keeps the keys and solves the equations from any start. `changed` holds iff some set differs from its previous value. |
| Analyzer.LiveVariableAnalyzer.Recompute | backend/lva/analyzer.js:199-217 | `newOut` is the successor's IN (empty for the last statement), and `newIn = GEN ∪ (newOut \ KILL)`. `same` holds iff both equal the current sets. |
| Liveness.SweepStep | backend/lva/analyzer.js:198-223 | Recomputing statement `i` extends the solved suffix to `i` and leaves earlier statements untouched. The sweep differs from its start iff it did after `i` or statement `i` got a new set. |
| Liveness.SolutionIsLiveFrom | backend/lva/analyzer.js:193-224 | Any solution of the equations is the one `LiveFrom` computes backwards from the end. |
| Liveness.SolutionsAgree | backend/lva/analyzer.js:193-224 | Two solutions agree everywhere, so the second sweep reports no change. |
| Liveness.LiveFromSolves | backend/lva/analyzer.js:201-214 | The `LiveFrom` sets solve the equations. |
| Liveness.LiveFromExactly | backend/lva/analyzer.js:209 | `x` is live on entry to `i` iff some `j ≥ i` reads it and no statement from `i` up to `j` (exclusive) defines it. |
| Analyzer.LiveVariableAnalyzer.ExtractAllVariables | backend/lva/analyzer.js:295-307 | The result is the sorted listing, each name once, of every name in any stored GEN or KILL set. |
| Analyzer.LiveVariableAnalyzer.AddAllNames | backend/lva/analyzer.js:298-304 | The nested `forEach` adds exactly the names of all sets in the map. |
| Names.Less | backend/lva/analyzer.js:306 | Defines the order `sort()` uses: character by character, a proper prefix first. |
| Names.SortedNames | backend/lva/analyzer.js:306 | `Array.from(s).sort()` is `Listing(s)`. |
| Names.ListingLists | backend/lva/analyzer.js:306 | The listing is strictly sorted and holds exactly the set's names. |
| Names.ListingUnique | backend/lva/analyzer.js:248-251 | A set has only one sorted listing, so every emitted list is determined by its set. |
| Names.ListingLength | backend/lva/analyzer.js:306 | The listing has as many entries as the set has names: no duplicates. |
| Names.LessTotal | backend/lva/analyzer.js:306 | Of two different names, exactly one sorts first. |
| Names.LessTransitive | backend/lva/analyzer.js:306 | The string order is transitive. |
| Analyzer.LiveVariableAnalyzer.FormatResults | backend/lva/analyzer.js:232-290 | The result satisfies `Describes`: `totalLines`; one record per statement with sorted sets and the trimmed snippet; each entry's successor is the next id or `null`; `totalStatements` and the sorted variable listing; one record per source line. |
| Analyzer.LiveVariableAnalyzer.StatementViews | backend/lva/analyzer.js:247-272 | The records and successor entries of the chain, in order, and a line map sending each line to the last statement that starts on it. |
| Analyzer.Lookup | backend/lva/analyzer.js:248-251 | Defines the lookup with its empty default: the stored set, or the empty set for an absent id. |
| Analyzer.LiveVariableAnalyzer.Record | backend/lva/analyzer.js:248-262 | Defines `stmtData`: id, line, trimmed code, type, and the four sets listed in sorted order. |
| Analyzer.LiveVariableAnalyzer.Records | backend/lva/analyzer.js:247-256 | The records of a run of statements, one per statement, in order. |
| Analyzer.LiveVariableAnalyzer.Edge | backend/lva/analyzer.js:265-269 | Defines the `results.cfg` entry: id, line and the successor's id. |
| Analyzer.LiveVariableAnalyzer.Edges | backend/lva/analyzer.js:247-269 | The `results.cfg` entries of a run of statements, one per statement, in order. |
| Analyzer.LiveVariableAnalyzer.StatementData | backend/lva/analyzer.js:248-262 | Each record holds the statement's fields, the trimmed code, and the four sorted listings (`[]` for an absent set). |
| Analyzer.LiveVariableAnalyzer.LineView | backend/lva/analyzer.js:275-287 | Line `k + 1` shows its text. If a statement starts on it, it shows the last such statement's `liveIn`, GEN and KILL; otherwise `isStatement` is false and the lists are empty. |
| Analyzer.Successor | backend/lva/analyzer.js:268 | There is no successor exactly for the last statement of the chain. |
| Analyzer.SuccessorIsNext | backend/lva/analyzer.js:268 | In a chain whose ids are positions, the successor is the next id, `null` for the last. |
| Analyzer.LastOnLine | backend/lva/analyzer.js:271-277 | No statement starts on the line exactly when there is no result. Otherwise the result starts on the line and no later statement does. |
| Analyzer.IndexesLinesStep | backend/lva/analyzer.js:271 | `lineMap.set(stmt.line, stmtData)` keeps the map indexing each line by its last statement. |
| Scenarios.ConstantXClassified | backend/lva/analyzer.js:134-138 | `let x = 5;` defines `x` and reads nothing. |
| Scenarios.ConstantYClassified | backend/lva/analyzer.js:134-138 | `let y = 10;` defines `y` and reads nothing. |
| Scenarios.SumClassified | backend/lva/analyzer.js:120-138 | `let z = x + y;` reads `x`, `y` and defines `z`. |
| Scenarios.CallClassified | backend/lva/analyzer.js:120-132 | `console.log(z);` reads `console` and `z`, not the property `log`. |
| Scenarios.IncrementClassified | backend/lva/analyzer.js:154-168 | `counter++;` has GEN `{}` and KILL `{counter}`. |
| Scenarios.SelfAssignmentClassified | backend/lva/analyzer.js:144-168 | `x = x + 1;` has GEN `{}` and KILL `{x}`. |
| Scenarios.SampleSplit | backend/test-lva.js:6-9 | The sample program's text splits into its four lines. |
| Scenarios.SampleCollected | backend/lva/analyzer.js:57-71 | Collecting the sample program's four statement paths gives `Chain4()`, the statements numbered 0 to 3 with their lines and snippets. |
| Scenarios.SampleChain | backend/lva/analyzer.js:50-78 | `buildCFG()` on the sample text and paths yields `Chain4()`. |
| Scenarios.WorkedExampleGenKill | backend/lva/analyzer.js:111-173 | The sample program's stored sets are GEN `{}, {}, {x, y}, {console, z}` and KILL `{x}, {y}, {z}, {}`. |
| Scenarios.WorkedExampleLiveness | backend/lva/analyzer.js:193-224 | The sample program's live-on-entry sets are `{console}`, `{console, x}`, `{console, x, y}` and `{console, z}`, then `{}` at the end. |
| Scenarios.IncrementNotLiveBefore | backend/lva/analyzer.js:209 | In `let counter = 0; counter++;`, nothing is live between the two statements. |
| Scenarios.WorkedExampleListing | backend/lva/analyzer.js:250 | The listing of `{console, x}` is `["console", "x"]`. |

## Left out

- `@babel/parser` and `@babel/traverse` are foreign libraries. `Analyze` takes their
  outcome as a parameter (`ParseOutcome`):
  - the statement paths in traversal order, each with the node, the node's identity, its
    location and the identity of its enclosing function;
  - or the parser's error message.

  `isReferencedIdentifier()` is a flag on each identifier. The `ast` field is therefore
  not kept.
- A parse failure and a statement spanning a line the `'\n'` split lacks become an
  `Err`. The one other assumption is a precondition of `Analyze`: statements arrive in
  non-decreasing start-line order, as a pre-order walk of an ordinary program gives them
  (`InLineOrder`). It makes ids equal positions, which the source relies on when it
  indexes `this.cfg` by `stmt.id` (backend/lva/analyzer.js:268).
- Analyzer.LiveVariableAnalyzer.Analyze: requires `InLineOrder` of the parsed
  statements. It does not model the analyzer on statement paths out of line order,
  which ordinary programs do not produce. A traversal whose visitor keys put a node's
  test before its body (such as `do … while (test)`, when the test holds a class with a
  static block) can reach a later line first. The sort then leaves ids unequal to
  positions, and the source's `this.cfg[stmt.id + 1]` reports shifted successors.
- Effects.Traverse: visits the children of each node in the order `Node` lists them,
  which is Babel's visitor-key order for the node kinds the model distinguishes. All
  other kinds are `Other` with their children in source order. The `File` and
  `Program` wrappers `calculateGenKillSets` adds around a statement are not visited:
  no callback adds names for them, and a statement is never an identifier whose parent
  matters.
- Analyzer.LiveVariableAnalyzer.GetCodeForNode: reads Babel's columns as indices into
  `seq<char>`. Babel counts columns, and `substring` counts positions, in UTF-16 code
  units. On a line with a character above U+FFFF before or inside the span, the model's
  snippet differs from the source's.
- Text.Substring: counts characters, not UTF-16 code units, for the same reason.
- Names.SortedNames: orders names by character (Unicode scalar value). `sort()` orders
  by UTF-16 code unit. The two differ only for names that mix characters above U+FFFF
  with characters from U+E000 to U+FFFF.
- The 50,000-character and non-empty-string guard of `backend/routes/lva.js` is HTTP
  plumbing outside the class.
- `backend/lva/examples.js` and `backend/test-lva.js` are sample data and a printing
  script. Their first program appears as `Scenarios`.
- Not part of this model, as they are not part of the analyzer:
  - the social-feed routes and models (persistence and floating-point ranking);
  - `backend/server.js`;
  - the React frontend.
- The ghost `sweeps` out-parameter of `PerformDataflowAnalysis` records how many sweeps
  ran. The source's `iterations` counter is a local and is not returned.
