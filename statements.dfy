/**
 * Statement extraction: which statement paths become entries of the chain, the
 * source snippet cut out for each, and the order by start line.
 */
module Statements {
  import opened Wrappers
  import opened Syntax
  import opened Text

  /** One entry of the analyzer's `cfg`: `{id, line, type, node, code}`; `key` is the node's identity. */
  datatype CfgStatement = CfgStatement(id: nat, line: nat, kind: string, node: Node, key: nat, code: string)

  /** The source split into lines, `code.split('\n')`. */
  function Lines(code: string): seq<string>
  {
    Split(code, NewLine)
  }

  /** The statement has an enclosing function that is not the statement itself. */
  predicate NestedInFunction(p: StatementPath)
  {
    p.functionParent.Some? && p.functionParent.value != p.key
  }

  /** The statement collection keeps a path that is not nested in a function and has a location. */
  predicate Included(p: StatementPath)
  {
    !NestedInFunction(p) && p.loc.Some?
  }

  /**
   * The line numbers of `loc` index `lines` wherever the snippet extraction reads a line:
   * a span whose start lies after its end reads no line at all. Otherwise the extraction
   * calls `substring` on a line past the end of `lines`, and that throws.
   */
  predicate LocFits(loc: Loc, lines: seq<string>)
  {
    loc.start.line > loc.end.line || (1 <= loc.start.line && loc.end.line <= |lines|)
  }

  predicate LocsFit(visits: seq<StatementPath>, lines: seq<string>)
  {
    forall j :: 0 <= j < |visits| && Included(visits[j]) ==> LocFits(visits[j].loc.value, lines)
  }

  /** The lines a multi-line span is assembled from, before they are joined. */
  function SnippetLines(lines: seq<string>, loc: Loc): seq<string>
    requires LocFits(loc, lines) && loc.start.line != loc.end.line
  {
    var s, e := loc.start.line, loc.end.line;
    if s > e then []
    else
      [Substring(lines[s - 1], loc.start.column, |lines[s - 1]|)] +
      lines[s .. e - 1] +
      [Substring(lines[e - 1], 0, loc.end.column)]
  }

  /** The entry of the assembled lines for 0-based line `i` of the span. */
  lemma SnippetLinesAt(lines: seq<string>, loc: Loc, i: int)
    requires LocFits(loc, lines) && loc.start.line < loc.end.line
    requires loc.start.line - 1 <= i < loc.end.line
    ensures |SnippetLines(lines, loc)| == loc.end.line - loc.start.line + 1
    ensures SnippetLines(lines, loc)[i - (loc.start.line - 1)] ==
      if i == loc.start.line - 1 then Substring(lines[i], loc.start.column, |lines[i]|)
      else if i == loc.end.line - 1 then Substring(lines[i], 0, loc.end.column)
      else lines[i]
  {
  }

  /** What `getCodeForNode` returns for a node with location `loc`. */
  function Snippet(lines: seq<string>, loc: Option<Loc>): string
    requires loc.Some? ==> LocFits(loc.value, lines)
  {
    if loc.None? then ""
    else if loc.value.start.line == loc.value.end.line then
      Substring(lines[loc.value.start.line - 1], loc.value.start.column, loc.value.end.column)
    else Join(SnippetLines(lines, loc.value), NewLine)
  }

  /** The offset in the source text of a position whose column lies within its line. */
  function Offset(lines: seq<string>, p: Position): nat
    requires 1 <= p.line <= |lines|
  {
    LineStart(lines, p.line - 1) + p.column
  }

  /** A position and span that lie within the text. */
  predicate InText(lines: seq<string>, loc: Loc)
  {
    1 <= loc.start.line <= loc.end.line <= |lines| &&
    loc.start.column <= |lines[loc.start.line - 1]| &&
    loc.end.column <= |lines[loc.end.line - 1]| &&
    (loc.start.line == loc.end.line ==> loc.start.column <= loc.end.column)
  }

  /** For a span within the text, the snippet is exactly the source text between its two ends. */
  lemma SnippetIsSourceSlice(code: string, loc: Loc)
    requires InText(Lines(code), loc)
    ensures var lines := Lines(code);
      Offset(lines, loc.start) <= Offset(lines, loc.end) <= |code| &&
      Snippet(lines, Some(loc)) == code[Offset(lines, loc.start) .. Offset(lines, loc.end)]
  {
    JoinSplit(code, NewLine);
    SnippetOfJoined(Lines(code), loc, code);
  }

  /** The same for any lines whose join is the text. */
  lemma SnippetOfJoined(lines: seq<string>, loc: Loc, code: string)
    requires InText(lines, loc) && Join(lines, NewLine) == code
    ensures Offset(lines, loc.start) <= Offset(lines, loc.end) <= |code|
    ensures Snippet(lines, Some(loc)) == code[Offset(lines, loc.start) .. Offset(lines, loc.end)]
  {
    var s, e := loc.start.line - 1, loc.end.line - 1;
    JoinRange(lines, s, e, NewLine);
    SnippetAt(lines, loc, code, LineStart(lines, s), LineStart(lines, e) + |lines[e]|);
  }

  /** The same, given where the lines the span covers sit in the text. */
  lemma SnippetAt(lines: seq<string>, loc: Loc, code: string, i: nat, j: nat)
    requires InText(lines, loc)
    requires i == LineStart(lines, loc.start.line - 1)
    requires j == LineStart(lines, loc.end.line - 1) + |lines[loc.end.line - 1]|
    requires i <= j <= |code| && code[i..j] == Join(lines[loc.start.line - 1 .. loc.end.line], NewLine)
    ensures Offset(lines, loc.start) <= Offset(lines, loc.end) <= |code|
    ensures Snippet(lines, Some(loc)) == code[Offset(lines, loc.start) .. Offset(lines, loc.end)]
  {
    SnippetInSpan(lines, loc, code, i, j);
  }

  /**
   * Where the snippet lies inside the text of the lines it spans: from the start
   * column to the end of the span less the part of the last line after the end column.
   */
  lemma SnippetInSpan(lines: seq<string>, loc: Loc, code: string, i: nat, j: nat)
    requires InText(lines, loc)
    requires i <= j <= |code| && code[i..j] == Join(lines[loc.start.line - 1 .. loc.end.line], NewLine)
    ensures i + loc.start.column <= j - |lines[loc.end.line - 1]| + loc.end.column <= j
    ensures Snippet(lines, Some(loc)) ==
      code[i + loc.start.column .. j - |lines[loc.end.line - 1]| + loc.end.column]
  {
    var s, e := loc.start.line - 1, loc.end.line - 1;
    if s == e {
      assert lines[s .. e + 1] == [lines[s]];
      assert code[i..j] == lines[s];
      assert Snippet(lines, Some(loc)) == lines[s][loc.start.column .. loc.end.column];
      SliceOfSlice(code, i, j, loc.start.column, loc.end.column);
    } else {
      var a, mid, b := lines[s], lines[s + 1 .. e], lines[e];
      assert lines[s .. e + 1] == [a] + mid + [b];
      assert Substring(a, loc.start.column, |a|) == a[loc.start.column..];
      assert Substring(b, 0, loc.end.column) == b[..loc.end.column];
      assert SnippetLines(lines, loc) == [a[loc.start.column..]] + mid + [b[..loc.end.column]];
      assert Snippet(lines, Some(loc)) == Join(SnippetLines(lines, loc), NewLine);
      SnippetInSpanLines(a, mid, b, loc.start.column, loc.end.column, code, i, j);
    }
  }

  /** The multi-line case, for first line `a`, inner lines `mid` and last line `b`. */
  lemma SnippetInSpanLines(a: string, mid: seq<string>, b: string, sc: nat, ec: nat,
                           code: string, i: nat, j: nat)
    requires sc <= |a| && ec <= |b|
    requires i <= j <= |code| && code[i..j] == Join([a] + mid + [b], NewLine)
    ensures i + sc <= j - |b| + ec <= j
    ensures Join([a[sc..]] + mid + [b[..ec]], NewLine) == code[i + sc .. j - |b| + ec]
  {
    var t := Between(mid, NewLine);
    JoinFrame(a, mid, b, NewLine);
    assert j - i == |a| + |t| + |b|;
    JoinTrimmedEnds(a, mid, b, sc, ec, NewLine);
    SliceOfSlice(code, i, j, sc, |a| + |t| + ec);
  }

  /** The entry the statement collection creates for an included path. */
  function Entry(id: nat, lines: seq<string>, p: StatementPath): CfgStatement
    requires Included(p) && LocFits(p.loc.value, lines)
  {
    CfgStatement(id, p.loc.value.start.line, NodeType(p.node), p.node, p.key, Snippet(lines, p.loc))
  }

  /** Same statement as the path, apart from the id. */
  predicate FromPath(e: CfgStatement, lines: seq<string>, p: StatementPath)
    requires Included(p) && LocFits(p.loc.value, lines)
  {
    e == Entry(e.id, lines, p)
  }

  /**
   * The statements the collection pushes, in traversal order, numbered from 0: only
   * the included paths, each exactly once.
   */
  function Collected(lines: seq<string>, visits: seq<StatementPath>): (r: seq<CfgStatement>)
    requires LocsFit(visits, lines)
    ensures |r| <= |visits|
    ensures forall k :: 0 <= k < |r| ==> r[k].id == k
    decreases |visits|
  {
    if visits == [] then []
    else
      var init := visits[..|visits| - 1];
      assert LocsFit(init, lines) by {
        assert forall j :: 0 <= j < |init| ==> init[j] == visits[j];
      }
      var prev := Collected(lines, init);
      var p := visits[|visits| - 1];
      if Included(p) then prev + [Entry(|prev|, lines, p)] else prev
  }

  /** Collecting one more path appends its entry exactly when the path is included. */
  lemma CollectedStep(lines: seq<string>, visits: seq<StatementPath>, i: nat)
    requires i < |visits| && LocsFit(visits[..i], lines)
    requires Included(visits[i]) ==> LocFits(visits[i].loc.value, lines)
    ensures LocsFit(visits[..i + 1], lines)
    ensures Collected(lines, visits[..i + 1]) ==
      if Included(visits[i]) then
        Collected(lines, visits[..i]) + [Entry(|Collected(lines, visits[..i])|, lines, visits[i])]
      else Collected(lines, visits[..i])
  {
    assert forall j :: 0 <= j <= i ==> visits[..i + 1][j] == visits[j];
    assert visits[..i + 1][..i] == visits[..i];
  }

  /** When every path is included, the chain has one entry per path, numbered in traversal order. */
  lemma {:induction false} CollectedAllIncluded(lines: seq<string>, visits: seq<StatementPath>)
    requires forall j :: 0 <= j < |visits| ==> Included(visits[j]) && LocFits(visits[j].loc.value, lines)
    ensures LocsFit(visits, lines)
    ensures |Collected(lines, visits)| == |visits|
    ensures forall k :: 0 <= k < |visits| ==> Collected(lines, visits)[k] == Entry(k, lines, visits[k])
    decreases |visits|
  {
    if visits != [] {
      var init := visits[..|visits| - 1];
      assert forall j :: 0 <= j < |init| ==> init[j] == visits[j];
      CollectedAllIncluded(lines, init);
    }
  }

  /** Every collected entry comes from an included path. */
  lemma {:induction false} CollectedFromIncluded(lines: seq<string>, visits: seq<StatementPath>, k: nat)
    requires LocsFit(visits, lines) && k < |Collected(lines, visits)|
    ensures var e := Collected(lines, visits)[k];
      exists j :: 0 <= j < |visits| && Included(visits[j]) && FromPath(e, lines, visits[j])
    decreases |visits|
  {
    var init := visits[..|visits| - 1];
    assert forall j :: 0 <= j < |init| ==> init[j] == visits[j];
    var prev := Collected(lines, init);
    if k < |prev| {
      CollectedFromIncluded(lines, init, k);
      var j :| 0 <= j < |init| && Included(init[j]) && FromPath(prev[k], lines, init[j]);
      assert visits[j] == init[j];
    }
  }

  /** Every included path is collected. */
  lemma {:induction false} IncludedCollected(lines: seq<string>, visits: seq<StatementPath>, j: nat)
    requires LocsFit(visits, lines) && j < |visits| && Included(visits[j])
    ensures var r := Collected(lines, visits);
      exists k :: 0 <= k < |r| && FromPath(r[k], lines, visits[j])
    decreases |visits|
  {
    var init := visits[..|visits| - 1];
    assert forall i :: 0 <= i < |init| ==> init[i] == visits[i];
    var prev := Collected(lines, init);
    if j < |init| {
      IncludedCollected(lines, init, j);
      var k :| 0 <= k < |prev| && FromPath(prev[k], lines, init[j]);
      assert Collected(lines, visits)[k] == prev[k];
    } else {
      assert Collected(lines, visits)[|prev|] == Entry(|prev|, lines, visits[j]);
    }
  }

  predicate SortedByLine(s: seq<CfgStatement>)
  {
    forall i, j :: 0 <= i < j < |s| ==> s[i].line <= s[j].line
  }

  /** Insert `x` before the first entry whose line is not smaller, so ties keep their order. */
  function InsertByLine(x: CfgStatement, s: seq<CfgStatement>): seq<CfgStatement>
  {
    if s == [] || x.line <= s[0].line then [x] + s else [s[0]] + InsertByLine(x, s[1..])
  }

  /** Inserting adds `x` and nothing else. */
  lemma {:induction false} InsertByLinePermutes(x: CfgStatement, s: seq<CfgStatement>)
    ensures multiset(InsertByLine(x, s)) == multiset(s) + multiset{x}
  {
    if !(s == [] || x.line <= s[0].line) {
      InsertByLinePermutes(x, s[1..]);
      assert s == [s[0]] + s[1..];
    }
  }

  /** Inserting into entries that all start at or after line `l` an entry that does too keeps that bound. */
  lemma {:induction false} InsertByLineAbove(x: CfgStatement, s: seq<CfgStatement>, l: nat)
    requires x.line >= l && forall k :: 0 <= k < |s| ==> s[k].line >= l
    ensures forall k :: 0 <= k < |InsertByLine(x, s)| ==> InsertByLine(x, s)[k].line >= l
  {
    if !(s == [] || x.line <= s[0].line) {
      InsertByLineAbove(x, s[1..], l);
    }
  }

  /** Inserting into entries in line order keeps them in line order. */
  lemma {:induction false} InsertByLineSorted(x: CfgStatement, s: seq<CfgStatement>)
    requires SortedByLine(s)
    ensures SortedByLine(InsertByLine(x, s))
  {
    if !(s == [] || x.line <= s[0].line) {
      InsertByLineSorted(x, s[1..]);
      InsertByLineAbove(x, s[1..], s[0].line);
    }
  }

  /**
   * `statements.sort((a, b) => a.line - b.line)`, a stable sort: ordered by line, a
   * permutation of its input, and the input itself when that is already ordered.
   */
  function SortByLine(s: seq<CfgStatement>): (r: seq<CfgStatement>)
    ensures SortedByLine(r)
    ensures multiset(r) == multiset(s)
  {
    if s == [] then []
    else
      var rest := SortByLine(s[1..]);
      InsertByLineSorted(s[0], rest);
      InsertByLinePermutes(s[0], rest);
      assert s == [s[0]] + s[1..];
      InsertByLine(s[0], rest)
  }

  /** Input already in line order comes back unchanged. */
  lemma {:induction false} SortByLineSorted(s: seq<CfgStatement>)
    requires SortedByLine(s)
    ensures SortByLine(s) == s
  {
    if s != [] {
      SortByLineSorted(s[1..]);
      assert s == [s[0]] + s[1..];
    }
  }

  /** The entries of `s` that start on line `l`, in their order in `s`. */
  function OnLine(s: seq<CfgStatement>, l: nat): seq<CfgStatement>
  {
    if s == [] then [] else (if s[0].line == l then [s[0]] else []) + OnLine(s[1..], l)
  }

  /** Inserting `x` puts it ahead of every entry on its own line and moves no other entry of that line. */
  lemma {:induction false} InsertByLineOnLine(x: CfgStatement, s: seq<CfgStatement>, l: nat)
    ensures OnLine(InsertByLine(x, s), l) == (if x.line == l then [x] else []) + OnLine(s, l)
  {
    if s == [] || x.line <= s[0].line {
      var r := [x] + s;
      assert r[0] == x && r[1..] == s;
    } else {
      var t := InsertByLine(x, s[1..]);
      InsertByLineOnLine(x, s[1..], l);
      var r := [s[0]] + t;
      assert r[0] == s[0] && r[1..] == t;
      assert OnLine(r, l) == (if s[0].line == l then [s[0]] else []) + OnLine(t, l);
      if x.line == l {
        assert s[0].line != l;
      }
    }
  }

  /** The sort is stable: the entries on any one line keep their input order. */
  lemma {:induction false} SortByLineStable(s: seq<CfgStatement>, l: nat)
    ensures OnLine(SortByLine(s), l) == OnLine(s, l)
  {
    if s != [] {
      SortByLineStable(s[1..], l);
      InsertByLineOnLine(s[0], SortByLine(s[1..]), l);
    }
  }

  /** The included paths come in non-decreasing line order, as a pre-order walk of the tree gives them. */
  predicate InLineOrder(visits: seq<StatementPath>)
  {
    forall i, j :: 0 <= i < j < |visits| && Included(visits[i]) && Included(visits[j]) ==>
      visits[i].loc.value.start.line <= visits[j].loc.value.start.line
  }

  /** Collecting paths that come in line order gives a chain that is already in line order. */
  lemma {:induction false} CollectedInLineOrder(lines: seq<string>, visits: seq<StatementPath>)
    requires LocsFit(visits, lines) && InLineOrder(visits)
    ensures SortedByLine(Collected(lines, visits))
    decreases |visits|
  {
    if visits != [] {
      var init := visits[..|visits| - 1];
      assert forall j :: 0 <= j < |init| ==> init[j] == visits[j];
      CollectedInLineOrder(lines, init);
      var prev := Collected(lines, init);
      var p := visits[|visits| - 1];
      if Included(p) {
        forall k | 0 <= k < |prev| ensures prev[k].line <= p.loc.value.start.line {
          CollectedFromIncluded(lines, init, k);
          var j :| 0 <= j < |init| && Included(init[j]) && FromPath(prev[k], lines, init[j]);
          assert visits[j] == init[j];
        }
      }
    }
  }

  /** So sorting leaves the ids equal to the positions, which the later stages index by. */
  lemma IdsArePositionsAfterSort(lines: seq<string>, visits: seq<StatementPath>)
    requires LocsFit(visits, lines) && InLineOrder(visits)
    ensures var cfg := SortByLine(Collected(lines, visits));
      forall k :: 0 <= k < |cfg| ==> cfg[k].id == k
  {
    CollectedInLineOrder(lines, visits);
    SortByLineSorted(Collected(lines, visits));
  }
}
