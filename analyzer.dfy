/**
 * The `LiveVariableAnalyzer` class: its fields are filled in by the successive
 * stages (statement collection, GEN/KILL classification, the backward dataflow
 * solver) and read by the result assembly.
 */
module Analyzer {
  import opened Wrappers
  import opened Syntax
  import opened Text
  import opened Names
  import opened Effects
  import opened Liveness
  import opened Statements

  /** One entry of `results.statements`. */
  datatype StatementResult = StatementResult(
    id: nat, line: nat, code: string, kind: string,
    gen: seq<string>, kill: seq<string>, liveIn: seq<string>, liveOut: seq<string>)

  /** One entry of `results.cfg`; `successor` is `null` for the last statement. */
  datatype CfgEdge = CfgEdge(id: nat, line: nat, successor: Option<nat>)

  datatype Summary = Summary(totalStatements: nat, variables: seq<string>)

  /** One entry of `results.lineByLine`. */
  datatype LineResult = LineResult(
    line: nat, code: string, isStatement: bool,
    liveVariables: seq<string>, gen: seq<string>, kill: seq<string>)

  datatype AnalysisResult = AnalysisResult(
    totalLines: nat, statements: seq<StatementResult>, cfg: seq<CfgEdge>,
    summary: Summary, lineByLine: seq<LineResult>)

  /**
   * The message of the `TypeError` thrown by calling `substring` on `undefined`, as
   * the V8 engine words it.
   */
  const UndefinedLine := "Cannot read properties of undefined (reading 'substring')"

  /** The solver's sweep cap. */
  const MaxIterations: nat := 100

  /** The keys of `m` are exactly the ids `0..n-1`. */
  predicate KeyedBy(m: NameSets, n: nat)
  {
    Covers(m, n) && forall k :: k in m ==> k < n
  }

  /** `results.cfg[k].successor`: the id of the next statement in the chain, `null` for the last. */
  function Successor(cfg: seq<CfgStatement>, id: nat): (r: Option<nat>)
    ensures r.None? <==> id + 1 >= |cfg|
  {
    if id < |cfg| - 1 then Some(cfg[id + 1].id) else None
  }

  /** In a chain whose ids are positions, the successor of a statement is the next id. */
  lemma SuccessorIsNext(cfg: seq<CfgStatement>, id: nat)
    requires forall k :: 0 <= k < |cfg| ==> cfg[k].id == k
    ensures Successor(cfg, id) == if id + 1 < |cfg| then Some(id + 1) else None
  {
  }

  /** `map.get(id) || []`: the set stored for `id`, or none. */
  function Lookup(m: NameSets, id: nat): set<string>
  {
    if id in m then m[id] else {}
  }

  /** Every name held in the sets `m` stores under `keys`. */
  function NamesIn(m: NameSets, keys: set<nat>): set<string>
  {
    set k, x | k in keys && k in m && x in m[k] :: x
  }

  /** Every name held in any set of `gen` or of `kill`. */
  function AllNames(gen: NameSets, kill: NameSets): set<string>
  {
    NamesIn(gen, gen.Keys) + NamesIn(kill, kill.Keys)
  }

  lemma NamesInStep(m: NameSets, keys: set<nat>, id: nat)
    requires id in m
    ensures NamesIn(m, keys + {id}) == NamesIn(m, keys) + m[id]
  {
  }

  /** The statement shown on a source line: the last one of the chain that starts there. */
  function LastOnLine(cfg: seq<CfgStatement>, line: nat): (r: Option<nat>)
    ensures r.None? <==> forall j :: 0 <= j < |cfg| ==> cfg[j].line != line
    ensures r.Some? ==> r.value < |cfg| && cfg[r.value].line == line &&
                        (forall j :: r.value < j < |cfg| ==> cfg[j].line != line)
  {
    if cfg == [] then None
    else if cfg[|cfg| - 1].line == line then Some(|cfg| - 1)
    else
      var r := LastOnLine(cfg[..|cfg| - 1], line);
      assert forall j :: 0 <= j < |cfg| - 1 ==> cfg[..|cfg| - 1][j] == cfg[j];
      r
  }

  /** A statement appended to the chain is the last one on its line, and changes no other line. */
  lemma LastOnLineAppend(stmts: seq<CfgStatement>, s: CfgStatement, line: nat)
    ensures LastOnLine(stmts + [s], line) ==
      if s.line == line then Some(|stmts|) else LastOnLine(stmts, line)
  {
    assert (stmts + [s])[..|stmts|] == stmts;
  }

  /**
   * `lineMap` sends each line on which some statement of `stmts` starts to the
   * record of the last such statement, and has no other keys.
   */
  ghost predicate IndexesLines(lineMap: map<nat, StatementResult>, statements: seq<StatementResult>,
                         stmts: seq<CfgStatement>)
    requires |statements| == |stmts|
  {
    (forall l :: l in lineMap <==> LastOnLine(stmts, l).Some?) &&
    forall l :: l in lineMap ==> lineMap[l] == statements[LastOnLine(stmts, l).value]
  }

  /** `lineMap.set(stmt.line, stmtData)` keeps the index up to date. */
  lemma IndexesLinesStep(lineMap: map<nat, StatementResult>, statements: seq<StatementResult>,
                         stmts: seq<CfgStatement>, s: CfgStatement, d: StatementResult)
    requires |statements| == |stmts| && IndexesLines(lineMap, statements, stmts)
    ensures IndexesLines(lineMap[s.line := d], statements + [d], stmts + [s])
  {
    forall l
      ensures l in lineMap[s.line := d] <==> LastOnLine(stmts + [s], l).Some?
      ensures l in lineMap[s.line := d] ==>
        lineMap[s.line := d][l] == (statements + [d])[LastOnLine(stmts + [s], l).value]
    {
      LastOnLineAppend(stmts, s, l);
    }
  }

  /** The GEN set of a statement, as the classification gives it. */
  function GenOf(stmt: Node): set<string>
  {
    Classify(stmt).gen
  }

  /** The KILL set of a statement, as the classification gives it. */
  function KillOf(stmt: Node): set<string>
  {
    Classify(stmt).kill
  }

  /** The sets `f` gives the first `upto` statements, stored under their positions. */
  function StoredBy(cfg: seq<CfgStatement>, upto: nat, f: Node -> set<string>): NameSets
    requires upto <= |cfg|
  {
    if upto == 0 then map[] else StoredBy(cfg, upto - 1, f)[upto - 1 := f(cfg[upto - 1].node)]
  }

  /**
   * After storing the first `upto` statements over `base`, statement `j` holds its
   * set and every other id keeps its old set.
   */
  lemma {:induction false} StoredAt(base: NameSets, cfg: seq<CfgStatement>, upto: nat, f: Node -> set<string>)
    requires upto <= |cfg|
    ensures forall j :: 0 <= j < upto ==>
      j in base + StoredBy(cfg, upto, f) && (base + StoredBy(cfg, upto, f))[j] == f(cfg[j].node)
    ensures forall id :: id in base && id >= upto ==> (base + StoredBy(cfg, upto, f))[id] == base[id]
  {
    if upto > 0 {
      StoredAt(base, cfg, upto - 1, f);
      MergeUpdate(base, StoredBy(cfg, upto - 1, f), upto - 1, f(cfg[upto - 1].node));
    }
  }

  /** Adding one entry on the right of a merge is updating the merge. */
  lemma MergeUpdate(a: NameSets, b: NameSets, k: nat, v: set<string>)
    ensures a + b[k := v] == (a + b)[k := v]
  {
  }

  /**
   * The per-statement step of `calculateGenKillSets()`: visit every node of the
   * statement's subtree, adding to GEN and KILL, then delete every KILL name from GEN.
   */
  method GenKill(node: Node) returns (gen: set<string>, kill: set<string>)
    ensures gen == GenOf(node) && kill == KillOf(node)
  {
    var paths := StatementPaths(node);
    gen, kill := {}, {};
    for j := 0 to |paths|
      invariant Effects(gen, kill) == Collect(paths[..j])
    {
      assert paths[..j + 1][..j] == paths[..j];
      var added := Visit(paths[j]);
      gen := gen + added.gen;
      kill := kill + added.kill;
    }
    assert paths[..|paths|] == paths;
    ghost var read := gen;
    var rest := kill;
    while rest != {}
      invariant rest <= kill
      invariant gen == read - (kill - rest)
      decreases |rest|
    {
      var v :| v in rest;
      gen := gen - {v};
      rest := rest - {v};
    }
  }

  class LiveVariableAnalyzer {
    const code: string
    var cfg: seq<CfgStatement>
    var genSets: NameSets
    var killSets: NameSets
    /** `this.liveVariables.liveIn` and `this.liveVariables.liveOut`. */
    var liveIn: NameSets
    var liveOut: NameSets

    constructor (code: string)
      ensures this.code == code
      ensures cfg == [] && genSets == map[] && killSets == map[] && liveIn == map[] && liveOut == map[]
    {
      this.code := code;
      cfg := [];
      genSets, killSets := map[], map[];
      liveIn, liveOut := map[], map[];
    }

    /** The map keys the later stages use, `stmt.id`, are the positions in `cfg`. */
    predicate IdsArePositions()
      reads this`cfg
    {
      forall k :: 0 <= k < |cfg| ==> cfg[k].id == k
    }

    /** `stmtData` for `stmt`: its fields, with each of its four sets listed in sorted order. */
    ghost function Record(stmt: CfgStatement): StatementResult
      reads this
    {
      StatementResult(stmt.id, stmt.line, Trim(stmt.code), stmt.kind,
                      Listing(Lookup(genSets, stmt.id)), Listing(Lookup(killSets, stmt.id)),
                      Listing(Lookup(liveIn, stmt.id)), Listing(Lookup(liveOut, stmt.id)))
    }

    /** The records of `stmts`, in order. */
    ghost function Records(stmts: seq<CfgStatement>): (r: seq<StatementResult>)
      reads this
      ensures |r| == |stmts|
    {
      if stmts == [] then [] else Records(stmts[..|stmts| - 1]) + [Record(stmts[|stmts| - 1])]
    }

    /**
     * The record for source line `k + 1` shows the last statement starting on that
     * line, or nothing when no statement starts there.
     */
    ghost predicate ShowsLine(l: LineResult, lines: seq<string>, k: nat, statements: seq<StatementResult>)
      requires k < |lines| && |statements| == |cfg|
      reads this
    {
      l.line == k + 1 && l.code == lines[k] &&
      l.isStatement == LastOnLine(cfg, k + 1).Some? &&
      match LastOnLine(cfg, k + 1)
      case Some(j) =>
        l.liveVariables == statements[j].liveIn &&
        l.gen == statements[j].gen && l.kill == statements[j].kill
      case None => l.liveVariables == [] && l.gen == [] && l.kill == []
    }

    /**
     * What `formatResults` promises about `results`, given the current fields: one
     * record per statement, the successor view, the summary, and one record per
     * source line.
     */
    ghost predicate Describes(results: AnalysisResult)
      reads this
    {
      var lines := Lines(code);
      results.totalLines == |lines| &&
      |results.statements| == |cfg| && |results.cfg| == |cfg| &&
      results.statements == Records(cfg) &&
      (forall k :: 0 <= k < |cfg| ==>
        results.cfg[k] == CfgEdge(cfg[k].id, cfg[k].line, Successor(cfg, cfg[k].id))) &&
      results.summary.totalStatements == |cfg| &&
      results.summary.variables == Listing(AllNames(genSets, killSets)) &&
      |results.lineByLine| == |lines| &&
      forall k :: 0 <= k < |lines| ==> ShowsLine(results.lineByLine[k], lines, k, results.statements)
    }

    /**
     * `analyze()`: the four stages in order. A parse failure, or a statement spanning a
     * line the `'\n'` split does not have, becomes the rethrown message.
     */
    method Analyze(parsed: ParseOutcome) returns (r: Result<AnalysisResult, string>)
      requires parsed.Parsed? ==> InLineOrder(parsed.statements)
      modifies this
      ensures parsed.ParseError? ==>
        r == Err("Analysis failed: " + parsed.message) &&
        cfg == old(cfg) && genSets == old(genSets) && killSets == old(killSets) &&
        liveIn == old(liveIn) && liveOut == old(liveOut)
      ensures parsed.Parsed? && !LocsFit(parsed.statements, Lines(code)) ==>
        r == Err("Analysis failed: " + UndefinedLine) &&
        cfg == old(cfg) && genSets == old(genSets) && killSets == old(killSets) &&
        liveIn == old(liveIn) && liveOut == old(liveOut)
      ensures parsed.Parsed? && LocsFit(parsed.statements, Lines(code)) ==> r.Ok? && Describes(r.value)
      ensures parsed.Parsed? && LocsFit(parsed.statements, Lines(code)) ==>
        cfg == SortByLine(Collected(Lines(code), parsed.statements)) && IdsArePositions() &&
        genSets == old(genSets) + StoredBy(cfg, |cfg|, GenOf) &&
        killSets == old(killSets) + StoredBy(cfg, |cfg|, KillOf) &&
        KeyedBy(liveIn, |cfg|) && KeyedBy(liveOut, |cfg|) &&
        Solves(|cfg|, genSets, killSets, liveIn, liveOut)
    {
      if parsed.ParseError? {
        return Err("Analysis failed: " + parsed.message);
      }
      var failure := BuildCFG(parsed.statements);
      if failure.Some? {
        return Err("Analysis failed: " + failure.value);
      }
      IdsArePositionsAfterSort(Lines(code), parsed.statements);
      CalculateGenKillSets();
      StoredAt(old(genSets), cfg, |cfg|, GenOf);
      StoredAt(old(killSets), cfg, |cfg|, KillOf);
      ghost var sweeps := PerformDataflowAnalysis();
      var results := FormatResults();
      return Ok(results);
    }

    /** The `results.cfg` entry for `stmt`: its id, its line and its successor's id. */
    function Edge(stmt: CfgStatement): CfgEdge
      reads this`cfg
    {
      CfgEdge(stmt.id, stmt.line, Successor(cfg, stmt.id))
    }

    /** The entries of `stmts`, in order. */
    function Edges(stmts: seq<CfgStatement>): (r: seq<CfgEdge>)
      reads this`cfg
      ensures |r| == |stmts|
    {
      if stmts == [] then [] else Edges(stmts[..|stmts| - 1]) + [Edge(stmts[|stmts| - 1])]
    }

    lemma {:induction false} EdgesAt(stmts: seq<CfgStatement>, k: nat)
      requires k < |stmts|
      ensures Edges(stmts)[k] == Edge(stmts[k])
      decreases |stmts|
    {
      if k < |stmts| - 1 {
        EdgesAt(stmts[..|stmts| - 1], k);
      }
    }

    /** The `k`-th record of `stmts` is the record of `stmts[k]`. */
    lemma {:induction false} RecordsAt(stmts: seq<CfgStatement>, k: nat)
      requires k < |stmts|
      ensures Records(stmts)[k] == Record(stmts[k])
      decreases |stmts|
    {
      if k < |stmts| - 1 {
        RecordsAt(stmts[..|stmts| - 1], k);
      }
    }

    /**
     * Once the dataflow equations hold, the results report for each statement the
     * names live on entry and on exit: those some later statement reads before any
     * statement in between redefines them, listed in sorted order.
     */
    lemma ReportsLiveness(results: AnalysisResult, k: nat)
      requires Describes(results) && IdsArePositions()
      requires Solves(|cfg|, genSets, killSets, liveIn, liveOut) && k < |cfg|
      ensures results.statements[k].liveIn == Listing(LiveFrom(|cfg|, genSets, killSets, k))
      ensures results.statements[k].liveOut == Listing(LiveFrom(|cfg|, genSets, killSets, k + 1))
    {
      RecordsAt(cfg, k);
      SolutionIsLiveFrom(|cfg|, genSets, killSets, liveIn, liveOut, k);
    }

    /**
     * `buildCFG()`: keep the statement paths not nested in a function and having a
     * location, number them in traversal order, and sort them by start line. When a
     * kept statement spans a line that `code.split('\n')` does not have, cutting its
     * snippet throws and `cfg` is left as it was.
     */
    method BuildCFG(visits: seq<StatementPath>) returns (failure: Option<string>)
      modifies this
      ensures failure.None? <==> LocsFit(visits, Lines(code))
      ensures failure.None? ==> cfg == SortByLine(Collected(Lines(code), visits))
      ensures failure.Some? ==> failure.value == UndefinedLine && cfg == old(cfg)
      ensures genSets == old(genSets) && killSets == old(killSets)
      ensures liveIn == old(liveIn) && liveOut == old(liveOut)
    {
      ghost var lines := Lines(code);
      var statements: seq<CfgStatement> := [];
      var statementId: nat := 0;
      for i := 0 to |visits|
        invariant unchanged(this)
        invariant LocsFit(visits[..i], lines)
        invariant statements == Collected(lines, visits[..i])
        invariant statementId == |statements|
      {
        var path := visits[i];
        if NestedInFunction(path) {
          CollectedStep(lines, visits, i);
          continue;
        }
        if path.loc.Some? {
          var snippet := GetCodeForNode(path.loc);
          if snippet.Err? {
            assert !LocsFit(visits, lines) by {
              assert Included(visits[i]) && !LocFits(visits[i].loc.value, lines);
            }
            return Some(snippet.error);
          }
          CollectedStep(lines, visits, i);
          statements := statements + [CfgStatement(statementId, path.loc.value.start.line,
                                                   NodeType(path.node), path.node, path.key, snippet.value)];
          statementId := statementId + 1;
        } else {
          CollectedStep(lines, visits, i);
        }
      }
      assert visits[..|visits|] == visits;
      cfg := SortByLine(statements);
      return None;
    }

    /**
     * `getCodeForNode(node)`: the source text the node's location spans, `''` without
     * one. Reading a line past the end of `lines` gives `undefined`, and calling
     * `substring` on it throws; an inner line past the end is pushed as `undefined`,
     * which `join` writes as `''`.
     */
    method GetCodeForNode(loc: Option<Loc>) returns (snippet: Result<string, string>)
      ensures snippet.Ok? <==> loc.None? || LocFits(loc.value, Lines(code))
      ensures snippet.Ok? ==> snippet.value == Snippet(Lines(code), loc)
      ensures snippet.Err? ==> snippet.error == UndefinedLine
    {
      if loc.None? {
        return Ok("");
      }
      var lines := Split(code, NewLine);
      var startLine: int := loc.value.start.line - 1;
      var endLine: int := loc.value.end.line - 1;
      if startLine == endLine {
        if !(0 <= startLine < |lines|) {
          return Err(UndefinedLine);
        }
        var line := lines[startLine];
        return Ok(Substring(line, loc.value.start.column, loc.value.end.column));
      }
      var codeLines := SpanLines(lines, loc.value);
      if codeLines.Err? {
        return Err(codeLines.error);
      }
      return Ok(Join(codeLines.value, NewLine));
    }

    /**
     * The loop of `getCodeForNode` for a span over several lines: the first line from
     * the start column, the inner lines whole, the last line up to the end column.
     */
    static method SpanLines(lines: seq<string>, loc: Loc) returns (codeLines: Result<seq<string>, string>)
      requires loc.start.line != loc.end.line
      ensures codeLines.Ok? <==> LocFits(loc, lines)
      ensures codeLines.Ok? ==> codeLines.value == SnippetLines(lines, loc)
      ensures codeLines.Err? ==> codeLines.error == UndefinedLine
    {
      var startLine: int := loc.start.line - 1;
      var endLine: int := loc.end.line - 1;
      ghost var fits := LocFits(loc, lines);
      ghost var expected := if fits then SnippetLines(lines, loc) else [];
      var pushed: seq<string> := [];
      var i := startLine;
      while i <= endLine
        invariant startLine <= endLine ==> startLine <= i <= endLine + 1
        invariant startLine > endLine ==> i == startLine && pushed == []
        invariant i > startLine ==> 0 <= startLine < |lines|
        invariant i == endLine + 1 && startLine < endLine ==> endLine < |lines|
        invariant fits && startLine <= endLine ==> pushed == expected[..i - startLine]
      {
        if fits && startLine < endLine {
          SnippetLinesAt(lines, loc, i);
          assert expected[..i - startLine + 1] == expected[..i - startLine] + [expected[i - startLine]];
        }
        if i == startLine {
          if !(0 <= i < |lines|) {
            return Err(UndefinedLine);
          }
          pushed := pushed + [Substring(lines[i], loc.start.column, |lines[i]|)];
        } else if i == endLine {
          if !(i < |lines|) {
            return Err(UndefinedLine);
          }
          pushed := pushed + [Substring(lines[i], 0, loc.end.column)];
        } else {
          pushed := pushed + [if i < |lines| then lines[i] else ""];
        }
        i := i + 1;
      }
      assert fits && startLine <= endLine ==> pushed == expected;
      return Ok(pushed);
    }

    /**
     * `calculateGenKillSets()`: visit every node of each statement's subtree, adding
     * to GEN and KILL, then delete every KILL name from GEN and store both by id.
     */
    method CalculateGenKillSets()
      requires IdsArePositions()
      modifies this
      ensures cfg == old(cfg) && liveIn == old(liveIn) && liveOut == old(liveOut)
      ensures genSets == old(genSets) + StoredBy(cfg, |cfg|, GenOf)
      ensures killSets == old(killSets) + StoredBy(cfg, |cfg|, KillOf)
    {
      for k := 0 to |cfg|
        invariant unchanged(this`cfg, this`liveIn, this`liveOut)
        invariant genSets == old(genSets) + StoredBy(cfg, k, GenOf)
        invariant killSets == old(killSets) + StoredBy(cfg, k, KillOf)
      {
        StoreGenKill(k, old(genSets), old(killSets));
      }
    }

    /** The `forEach` callback of `calculateGenKillSets()` for statement `k`. */
    method StoreGenKill(k: nat, ghost genBase: NameSets, ghost killBase: NameSets)
      requires k < |cfg| && cfg[k].id == k
      requires genSets == genBase + StoredBy(cfg, k, GenOf)
      requires killSets == killBase + StoredBy(cfg, k, KillOf)
      modifies this
      ensures cfg == old(cfg) && liveIn == old(liveIn) && liveOut == old(liveOut)
      ensures genSets == genBase + StoredBy(cfg, k + 1, GenOf)
      ensures killSets == killBase + StoredBy(cfg, k + 1, KillOf)
    {
      var stmt := cfg[k];
      var gen, kill := GenKill(stmt.node);
      MergeUpdate(genBase, StoredBy(cfg, k, GenOf), k, gen);
      MergeUpdate(killBase, StoredBy(cfg, k, KillOf), k, kill);
      genSets := genSets[stmt.id := gen];
      killSets := killSets[stmt.id := kill];
    }

    /**
     * `performDataflowAnalysis()`: reverse sweeps over the chain, recomputing
     * `OUT[i] = IN[i + 1]` and `IN[i] = GEN[i] ∪ (OUT[i] \ KILL[i])`, until a sweep
     * changes nothing or 100 sweeps have run. On a chain the first sweep already
     * solves the equations, so the second one finds nothing to change and the cap
     * is never reached; `sweeps` is the number of sweeps run.
     */
    method PerformDataflowAnalysis() returns (ghost sweeps: nat)
      requires IdsArePositions() && Covers(genSets, |cfg|) && Covers(killSets, |cfg|)
      modifies this
      ensures cfg == old(cfg) && genSets == old(genSets) && killSets == old(killSets)
      ensures KeyedBy(liveIn, |cfg|) && KeyedBy(liveOut, |cfg|)
      ensures Solves(|cfg|, genSets, killSets, liveIn, liveOut)
      ensures 1 <= sweeps <= 2 && sweeps <= MaxIterations
    {
      var n := |cfg|;
      var outs: NameSets := map[];
      var ins: NameSets := map[];
      for k := 0 to n
        invariant unchanged(this)
        invariant KeyedBy(outs, k) && KeyedBy(ins, k)
      {
        outs := outs[cfg[k].id := {}];
        ins := ins[cfg[k].id := {}];
      }
      var changed := true;
      var iterations: nat := 0;
      while changed && iterations < MaxIterations
        invariant unchanged(this)
        invariant iterations <= 2
        invariant KeyedBy(outs, n) && KeyedBy(ins, n)
        invariant iterations == 0 ==> changed
        invariant iterations >= 1 ==> Solves(n, genSets, killSets, ins, outs)
        invariant iterations == 2 ==> !changed
        decreases MaxIterations - iterations
      {
        ghost var settled := iterations >= 1;
        ghost var ins0, outs0 := ins, outs;
        iterations := iterations + 1;
        ins, outs, changed := Sweep(ins, outs);
        if settled {
          SolutionsAgree(n, genSets, killSets, ins0, outs0, ins, outs);
        }
      }
      liveIn, liveOut := ins, outs;
      sweeps := iterations;
    }

    /**
     * One pass of the `while` loop of `performDataflowAnalysis()`: from the last
     * statement back to the first, `OUT[i]` becomes `IN[i + 1]` and `IN[i]` becomes
     * `GEN[i] ∪ (OUT[i] \ KILL[i])`. Since `IN[i + 1]` is recomputed before `IN[i]`,
     * one pass solves the equations whatever it starts from; `changed` reports that
     * some set differs from its new value.
     */
    method Sweep(ins: NameSets, outs: NameSets) returns (newIns: NameSets, newOuts: NameSets, changed: bool)
      requires IdsArePositions() && Covers(genSets, |cfg|) && Covers(killSets, |cfg|)
      requires KeyedBy(ins, |cfg|) && KeyedBy(outs, |cfg|)
      ensures newIns.Keys == ins.Keys && newOuts.Keys == outs.Keys
      ensures Solves(|cfg|, genSets, killSets, newIns, newOuts)
      ensures changed <==> exists j :: 0 <= j < |cfg| && (newIns[j] != ins[j] || newOuts[j] != outs[j])
    {
      var n := |cfg|;
      newIns, newOuts, changed := ins, outs, false;
      var i := n - 1;
      while i >= 0
        invariant -1 <= i < n
        invariant newIns.Keys == ins.Keys && newOuts.Keys == outs.Keys
        invariant forall j :: i < j < n ==> SolvesAt(n, genSets, killSets, newIns, newOuts, j)
        invariant forall j :: 0 <= j <= i ==> newIns[j] == ins[j] && newOuts[j] == outs[j]
        invariant changed <==> Differ(n, newIns, newOuts, ins, outs, i + 1)
      {
        var newIn, newOut, same := Recompute(newIns, newOuts, i);
        if !same {
          changed := true;
        }
        ghost var insBefore, outsBefore := newIns, newOuts;
        assert cfg[i].id == i;
        newIns := newIns[cfg[i].id := newIn];
        newOuts := newOuts[cfg[i].id := newOut];
        SweepStep(n, genSets, killSets, ins, outs, insBefore, outsBefore, i, newIn, newOut, newIns, newOuts);
        i := i - 1;
      }
    }

    /**
     * The body of the reverse `for` loop of `performDataflowAnalysis()` for statement
     * `i`, up to the two `set` calls: the new `OUT` and `IN` sets, and whether both
     * equal the current ones.
     */
    method Recompute(ins: NameSets, outs: NameSets, i: nat) returns (newIn: set<string>, newOut: set<string>, same: bool)
      requires IdsArePositions() && Covers(genSets, |cfg|) && Covers(killSets, |cfg|)
      requires Covers(ins, |cfg|) && Covers(outs, |cfg|) && i < |cfg|
      ensures newOut == OutOf(|cfg|, ins, i)
      ensures newIn == genSets[i] + (newOut - killSets[i])
      ensures same <==> ins[i] == newIn && outs[i] == newOut
    {
      var stmt := cfg[i];
      newOut := {};
      if i < |cfg| - 1 {
        var successor := cfg[i + 1];
        newOut := ins[successor.id];
      }
      newIn := genSets[stmt.id];
      var outMinusKill := set v | v in newOut && v !in killSets[stmt.id];
      newIn := newIn + outMinusKill;
      var sameIn := SetsEqual(ins[stmt.id], newIn);
      var sameOut := SetsEqual(outs[stmt.id], newOut);
      same := sameIn && sameOut;
    }

    /** `extractAllVariables()`: every name of every stored GEN and KILL set, sorted, once each. */
    method ExtractAllVariables() returns (variables: seq<string>)
      ensures variables == Listing(AllNames(genSets, killSets))
    {
      var names := AddAllNames({}, genSets);
      names := AddAllNames(names, killSets);
      assert names == AllNames(genSets, killSets);
      variables := SortedNames(names);
    }

    /** `sets.forEach((s) => s.forEach((v) => variables.add(v)))`. */
    static method AddAllNames(variables: set<string>, sets: NameSets) returns (names: set<string>)
      ensures names == variables + NamesIn(sets, sets.Keys)
    {
      names := variables;
      var rest := sets.Keys;
      ghost var done: set<nat> := {};
      while rest != {}
        invariant done + rest == sets.Keys
        invariant names == variables + NamesIn(sets, done)
        decreases |rest|
      {
        var id :| id in rest;
        NamesInStep(sets, done, id);
        names := names + sets[id];
        rest := rest - {id};
        done := done + {id};
      }
    }

    /** `formatResults()`: assemble the per-statement, successor, summary and per-line views. */
    method FormatResults() returns (results: AnalysisResult)
      ensures Describes(results)
    {
      var lines := Split(code, NewLine);
      var variables := ExtractAllVariables();
      var statements, edges, lineMap := StatementViews();
      var lineByLine := LineView(lines, statements, lineMap);
      results := AnalysisResult(|lines|, statements, edges, Summary(|cfg|, variables), lineByLine);
    }

    /**
     * The `this.cfg.forEach` of `formatResults()`: one record and one successor entry
     * per statement, and the line index where a later statement overwrites an earlier
     * one on the same line.
     */
    method StatementViews() returns (statements: seq<StatementResult>, edges: seq<CfgEdge>,
                                     lineMap: map<nat, StatementResult>)
      ensures |statements| == |cfg| && |edges| == |cfg|
      ensures statements == Records(cfg)
      ensures forall k :: 0 <= k < |cfg| ==>
        edges[k] == CfgEdge(cfg[k].id, cfg[k].line, Successor(cfg, cfg[k].id))
      ensures IndexesLines(lineMap, statements, cfg)
    {
      var n := |cfg|;
      statements, edges, lineMap := [], [], map[];
      for k := 0 to n
        invariant |statements| == k && |edges| == k
        invariant statements == Records(cfg[..k])
        invariant edges == Edges(cfg[..k])
        invariant IndexesLines(lineMap, statements, cfg[..k])
      {
        var stmt := cfg[k];
        var stmtData := StatementData(stmt);
        IndexesLinesStep(lineMap, statements, cfg[..k], stmt, stmtData);
        statements := statements + [stmtData];
        var edge := CfgEdge(stmt.id, stmt.line, if stmt.id < n - 1 then Some(cfg[stmt.id + 1].id) else None);
        assert edge == Edge(stmt);
        edges := edges + [edge];
        assert cfg[..k + 1] == cfg[..k] + [stmt];
        lineMap := lineMap[stmt.line := stmtData];
      }
      assert cfg[..n] == cfg;
      forall k | 0 <= k < n
        ensures edges[k] == CfgEdge(cfg[k].id, cfg[k].line, Successor(cfg, cfg[k].id))
      {
        EdgesAt(cfg, k);
      }
    }

    /** The `lines.map` of `formatResults()`: one record per source line. */
    method LineView(lines: seq<string>, statements: seq<StatementResult>,
                    lineMap: map<nat, StatementResult>) returns (lineByLine: seq<LineResult>)
      requires |statements| == |cfg| && IndexesLines(lineMap, statements, cfg)
      ensures |lineByLine| == |lines|
      ensures forall k :: 0 <= k < |lines| ==> ShowsLine(lineByLine[k], lines, k, statements)
    {
      lineByLine := [];
      for idx := 0 to |lines|
        invariant |lineByLine| == idx
        invariant forall k :: 0 <= k < idx ==> ShowsLine(lineByLine[k], lines, k, statements)
      {
        var lineNum := idx + 1;
        var entry :=
          if lineNum in lineMap then
            var stmtData := lineMap[lineNum];
            LineResult(lineNum, lines[idx], true, stmtData.liveIn, stmtData.gen, stmtData.kill)
          else LineResult(lineNum, lines[idx], false, [], [], []);
        lineByLine := lineByLine + [entry];
      }
    }

    /** The record `formatResults` builds for one statement. */
    method StatementData(stmt: CfgStatement) returns (stmtData: StatementResult)
      ensures stmtData == Record(stmt)
    {
      var gen := SortedNames(Lookup(genSets, stmt.id));
      var kill := SortedNames(Lookup(killSets, stmt.id));
      var liveInNames := SortedNames(Lookup(liveIn, stmt.id));
      var liveOutNames := SortedNames(Lookup(liveOut, stmt.id));
      stmtData := StatementResult(stmt.id, stmt.line, Trim(stmt.code), stmt.kind,
                                  gen, kill, liveInNames, liveOutNames);
    }
  }
}
