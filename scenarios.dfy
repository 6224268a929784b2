/**
 * Concrete programs taken through the model: the four-statement program
 *
 *     let x = 5;
 *     let y = 10;
 *     let z = x + y;
 *     console.log(z);
 *
 * and the statements `counter++;` and `x = x + 1;`, written as the trees the
 * parser produces for them.
 */
module Scenarios {
  import opened Wrappers
  import opened Text
  import opened Syntax
  import opened Effects
  import opened Liveness
  import opened Names
  import opened Statements
  import opened Analyzer

  function Literal(): Node
  {
    Other("NumericLiteral", [])
  }

  /** `name = init`, inside a declaration. */
  function Declarator(name: string, init: Node): Node
  {
    VariableDeclarator(Identifier(name, false), Some(init))
  }

  /** `let name = init;` */
  function Let(name: string, init: Node): Node
  {
    Other("VariableDeclaration", [Declarator(name, init)])
  }

  /** `let x = 5;` */
  function S0(): Node { Let("x", Literal()) }

  /** `let y = 10;` */
  function S1(): Node { Let("y", Literal()) }

  /** `x + y` */
  function Sum(): Node
  {
    Other("BinaryExpression", [Identifier("x", true), Identifier("y", true)])
  }

  /** `let z = x + y;` */
  function S2(): Node { Let("z", Sum()) }

  /** `console.log` */
  function Callee(): Node
  {
    MemberExpression(Identifier("console", true), Identifier("log", false), false)
  }

  /** `console.log(z)` */
  function Call(): Node
  {
    Other("CallExpression", [Callee(), Identifier("z", true)])
  }

  /** `console.log(z);` */
  function S3(): Node { Other("ExpressionStatement", [Call()]) }

  /** `counter++;` */
  function Increment(): Node
  {
    Other("ExpressionStatement", [UpdateExpression(Identifier("counter", true))])
  }

  /** `x + 1` */
  function PlusOne(): Node
  {
    Other("BinaryExpression", [Identifier("x", true), Literal()])
  }

  /** `x = x + 1`: the target on the left is not a reference. */
  function Reassign(): Node { AssignmentExpression(Identifier("x", false), PlusOne()) }

  /** `x = x + 1;` */
  function SelfAssignment(): Node { Other("ExpressionStatement", [Reassign()]) }

  /** Joins two pairs of GEN and KILL sets. */
  function Union(a: Effects, b: Effects): Effects
  {
    Effects(a.gen + b.gen, a.kill + b.kill)
  }

  /** Visiting a node and then two runs of nodes below it. */
  lemma CollectParts(p: NodePath, xs: seq<NodePath>, ys: seq<NodePath>)
    ensures Collect([p] + xs + ys) == Union(Visit(p), Union(Collect(xs), Collect(ys)))
  {
    CollectConcat([p] + xs, ys);
    CollectConcat([p], xs);
    CollectSnoc([], p);
    assert [] + [p] == [p];
  }

  /** A leaf is visited alone. */
  lemma LeafVisited(n: Node, parent: Option<Node>, key: nat)
    requires n.Identifier? || n == Literal()
    ensures Traverse(n, parent, key) == [NodePath(n, parent, key)]
    ensures Collect(Traverse(n, parent, key)) == Visit(NodePath(n, parent, key))
  {
    var p := NodePath(n, parent, key);
    assert TraverseChildren(n) == [];
    assert [p] == [] + [p];
    CollectSnoc([], p);
  }

  /** The statement wraps one child: its paths are its own and the child's. */
  lemma WrapperPaths(n: Node, child: Node)
    requires n.Other? && n.children == [child]
    ensures StatementPaths(n) == [NodePath(n, None, 0)] + Traverse(child, Some(n), 0) + []
  {
    assert [child][1..] == [];
    assert TraverseList(n, [child][1..], 1) == [];
    assert TraverseChildren(n) == Traverse(child, Some(n), 0) + TraverseList(n, [child][1..], 1);
  }

  /** A statement wrapping one child is classified by what the child's paths collect. */
  lemma WrapperClassified(n: Node, child: Node, e: Effects)
    requires n.Other? && n.children == [child]
    requires Collect(Traverse(child, Some(n), 0)) == e
    ensures Classify(n) == Effects(e.gen - e.kill, e.kill)
  {
    WrapperPaths(n, child);
    CollectParts(NodePath(n, None, 0), Traverse(child, Some(n), 0), []);
  }

  /** `let x = 5;` defines `x` and reads nothing. */
  lemma ConstantXClassified()
    ensures Classify(S0()) == Effects({}, {"x"})
  {
    var id, lit := Identifier("x", false), Literal();
    var d := VariableDeclarator(id, Some(lit));
    var n := Other("VariableDeclaration", [d]);
    assert S0() == n;
    LeafVisited(id, Some(d), 0);
    LeafVisited(lit, Some(d), 1);
    var pd := NodePath(d, Some(n), 0);
    assert Traverse(d, Some(n), 0) == [pd] + Traverse(id, Some(d), 0) + Traverse(lit, Some(d), 1);
    CollectParts(pd, Traverse(id, Some(d), 0), Traverse(lit, Some(d), 1));
    WrapperClassified(n, d, Collect(Traverse(d, Some(n), 0)));
  }

  /** `let y = 10;` defines `y` and reads nothing. */
  lemma ConstantYClassified()
    ensures Classify(S1()) == Effects({}, {"y"})
  {
    var id, lit := Identifier("y", false), Literal();
    var d := VariableDeclarator(id, Some(lit));
    var n := Other("VariableDeclaration", [d]);
    assert S1() == n;
    LeafVisited(id, Some(d), 0);
    LeafVisited(lit, Some(d), 1);
    var pd := NodePath(d, Some(n), 0);
    assert Traverse(d, Some(n), 0) == [pd] + Traverse(id, Some(d), 0) + Traverse(lit, Some(d), 1);
    CollectParts(pd, Traverse(id, Some(d), 0), Traverse(lit, Some(d), 1));
    WrapperClassified(n, d, Collect(Traverse(d, Some(n), 0)));
  }

  /** The operands of `x + y` are both read. */
  lemma SumOperandsRead()
    ensures Collect(Traverse(Sum(), Some(Declarator("z", Sum())), 1)) == Effects({"x", "y"}, {})
  {
    var x, y, bin := Identifier("x", true), Identifier("y", true), Sum();
    LeafVisited(x, Some(bin), 0);
    LeafVisited(y, Some(bin), 1);
    var pb := NodePath(bin, Some(Declarator("z", bin)), 1);
    assert [x, y][1..] == [y] && [y][1..] == [];
    assert Traverse(bin, Some(Declarator("z", bin)), 1) == [pb] + Traverse(x, Some(bin), 0) + Traverse(y, Some(bin), 1);
    CollectParts(pb, Traverse(x, Some(bin), 0), Traverse(y, Some(bin), 1));
  }

  /** The declarator `z = x + y` defines `z` and reads the operands. */
  lemma SumDeclared()
    ensures Collect(Traverse(Declarator("z", Sum()), Some(S2()), 0)) == Effects({"x", "y"}, {"z"})
  {
    var z, d := Identifier("z", false), Declarator("z", Sum());
    SumOperandsRead();
    LeafVisited(z, Some(d), 0);
    var pd := NodePath(d, Some(S2()), 0);
    assert Traverse(d, Some(S2()), 0) == [pd] + Traverse(z, Some(d), 0) + Traverse(Sum(), Some(d), 1);
    CollectParts(pd, Traverse(z, Some(d), 0), Traverse(Sum(), Some(d), 1));
  }

  /** `let z = x + y;` defines `z` and reads `x` and `y`. */
  lemma SumClassified()
    ensures Classify(S2()) == Effects({"x", "y"}, {"z"})
  {
    SumDeclared();
    WrapperClassified(S2(), Declarator("z", Sum()), Effects({"x", "y"}, {"z"}));
    assert {"x", "y"} - {"z"} == {"x", "y"};
  }

  /** The callee `console.log` reads its base object only. */
  lemma CalleeRead()
    ensures Collect(Traverse(Callee(), Some(Call()), 0)) == Effects({"console"}, {})
  {
    var console, log, mem := Identifier("console", true), Identifier("log", false), Callee();
    LeafVisited(console, Some(mem), 0);
    LeafVisited(log, Some(mem), 1);
    var pm := NodePath(mem, Some(Call()), 0);
    assert Traverse(mem, Some(Call()), 0) == [pm] + Traverse(console, Some(mem), 0) + Traverse(log, Some(mem), 1);
    CollectParts(pm, Traverse(console, Some(mem), 0), Traverse(log, Some(mem), 1));
  }

  /** The call `console.log(z)` reads `console` and `z`. */
  lemma CallRead()
    ensures Collect(Traverse(Call(), Some(S3()), 0)) == Effects({"console", "z"}, {})
  {
    var z, call := Identifier("z", true), Call();
    CalleeRead();
    LeafVisited(z, Some(call), 1);
    var pc := NodePath(call, Some(S3()), 0);
    assert [Callee(), z][1..] == [z] && [z][1..] == [];
    assert Traverse(call, Some(S3()), 0) == [pc] + Traverse(Callee(), Some(call), 0) + Traverse(z, Some(call), 1);
    CollectParts(pc, Traverse(Callee(), Some(call), 0), Traverse(z, Some(call), 1));
  }

  /** A call reads the callee's base object and its arguments, not the property name. */
  lemma CallClassified()
    ensures Classify(S3()) == Effects({"console", "z"}, {})
  {
    CallRead();
    WrapperClassified(S3(), Call(), Effects({"console", "z"}, {}));
  }

  /** `counter++` both reads and defines `counter`; KILL wins, so GEN is empty. */
  lemma IncrementClassified()
    ensures Classify(Increment()) == Effects({}, {"counter"})
  {
    var id := Identifier("counter", true);
    var u := UpdateExpression(id);
    var n := Other("ExpressionStatement", [u]);
    assert Increment() == n;
    LeafVisited(id, Some(u), 0);
    var pu := NodePath(u, Some(n), 0);
    assert Traverse(u, Some(n), 0) == [pu] + Traverse(id, Some(u), 0) + [];
    CollectParts(pu, Traverse(id, Some(u), 0), []);
    WrapperClassified(n, u, Collect(Traverse(u, Some(n), 0)));
  }

  /** The right-hand side `x + 1` reads `x`. */
  lemma IncrementedRead()
    ensures Collect(Traverse(PlusOne(), Some(Reassign()), 1)) == Effects({"x"}, {})
  {
    var x, lit, bin := Identifier("x", true), Literal(), PlusOne();
    LeafVisited(x, Some(bin), 0);
    LeafVisited(lit, Some(bin), 1);
    var pb := NodePath(bin, Some(Reassign()), 1);
    assert [x, lit][1..] == [lit] && [lit][1..] == [];
    assert Traverse(bin, Some(Reassign()), 1) == [pb] + Traverse(x, Some(bin), 0) + Traverse(lit, Some(bin), 1);
    CollectParts(pb, Traverse(x, Some(bin), 0), Traverse(lit, Some(bin), 1));
  }

  /** The assignment `x = x + 1` defines `x` on the left and reads it on the right. */
  lemma ReassignEffects()
    ensures Collect(Traverse(Reassign(), Some(SelfAssignment()), 0)) == Effects({"x"}, {"x"})
  {
    var x, asg := Identifier("x", false), Reassign();
    IncrementedRead();
    LeafVisited(x, Some(asg), 0);
    var pa := NodePath(asg, Some(SelfAssignment()), 0);
    assert Traverse(asg, Some(SelfAssignment()), 0) == [pa] + Traverse(x, Some(asg), 0) + Traverse(PlusOne(), Some(asg), 1);
    CollectParts(pa, Traverse(x, Some(asg), 0), Traverse(PlusOne(), Some(asg), 1));
  }

  /** `x = x + 1` defines `x`, and the read of `x` on the right is dropped as KILL wins. */
  lemma SelfAssignmentClassified()
    ensures Classify(SelfAssignment()) == Effects({}, {"x"})
  {
    ReassignEffects();
    WrapperClassified(SelfAssignment(), Reassign(), Effects({"x"}, {"x"}));
  }

  /** The GEN sets of the four statements, by id. */
  function Gen4(): NameSets
  {
    map[0 := {}, 1 := {}, 2 := {"x", "y"}, 3 := {"console", "z"}]
  }

  /** The KILL sets of the four statements, by id. */
  function Kill4(): NameSets
  {
    map[0 := {"x"}, 1 := {"y"}, 2 := {"z"}, 3 := {}]
  }

  /** The chain `buildCFG` makes of the four-statement program, one statement per line. */
  function Chain4(): seq<CfgStatement>
  {
    [CfgStatement(0, 1, "VariableDeclaration", S0(), 0, "let x = 5;"),
     CfgStatement(1, 2, "VariableDeclaration", S1(), 1, "let y = 10;"),
     CfgStatement(2, 3, "VariableDeclaration", S2(), 2, "let z = x + y;"),
     CfgStatement(3, 4, "ExpressionStatement", S3(), 3, "console.log(z);")]
  }

  /** The four-statement program as text. */
  function SampleCode(): string
  {
    "let x = 5;" + [NewLine] + "let y = 10;" + [NewLine] + "let z = x + y;" + [NewLine] + "console.log(z);"
  }

  /** Its lines. */
  function SampleLines(): seq<string>
  {
    ["let x = 5;", "let y = 10;", "let z = x + y;", "console.log(z);"]
  }

  /** The path of the top-level statement `stmt` at index `key`, spanning `width` columns of its line. */
  function TopLevel(stmt: Node, key: nat, width: nat): StatementPath
  {
    StatementPath(stmt, key, Some(Loc(Position(key + 1, 0), Position(key + 1, width))), None)
  }

  /** The statement paths of the program, in the order the traversal reaches them. */
  function SampleVisits(): seq<StatementPath>
  {
    [TopLevel(S0(), 0, 10), TopLevel(S1(), 1, 11), TopLevel(S2(), 2, 14), TopLevel(S3(), 3, 15)]
  }

  /** The last two lines joined. */
  lemma SampleJoinTail()
    ensures Join(SampleLines()[2..], NewLine) == "let z = x + y;" + [NewLine] + "console.log(z);"
  {
    var l := SampleLines()[2..];
    assert l == ["let z = x + y;", "console.log(z);"] && l[1..] == ["console.log(z);"];
  }

  /** Joining the lines with `'\n'` gives the text. */
  lemma SampleJoin()
    ensures Join(SampleLines(), NewLine) == SampleCode()
  {
    var l := SampleLines();
    SampleJoinTail();
    assert l[1..][1..] == l[2..];
    assert Join(l[1..], NewLine) == "let y = 10;" + [NewLine] + Join(l[2..], NewLine);
    assert Join(l, NewLine) == "let x = 5;" + [NewLine] + Join(l[1..], NewLine);
  }

  /** `code.split('\n')` gives the four lines. */
  lemma SampleSplit()
    ensures Lines(SampleCode()) == SampleLines()
  {
    var l := SampleLines();
    SampleJoin();
    forall k | 0 <= k < |l|
      ensures NewLine !in l[k]
    {
    }
    SplitJoin(l, NewLine);
  }

  /** Each path's snippet is its whole line, and it becomes the matching entry of the chain. */
  lemma SampleEntry(k: nat)
    requires k < 4
    ensures Included(SampleVisits()[k]) && LocFits(SampleVisits()[k].loc.value, SampleLines())
    ensures Entry(k, SampleLines(), SampleVisits()[k]) == Chain4()[k]
  {
    var l := SampleLines();
    assert l[k][0..|l[k]|] == l[k];
  }

  /** Collecting the four paths numbers them 0 to 3 in order. */
  lemma SampleCollected()
    ensures LocsFit(SampleVisits(), SampleLines())
    ensures Collected(SampleLines(), SampleVisits()) == Chain4()
  {
    SampleEntry(0);
    SampleEntry(1);
    SampleEntry(2);
    SampleEntry(3);
    CollectedAllIncluded(SampleLines(), SampleVisits());
  }

  /** The chain is in line order, one statement per line. */
  lemma Chain4Sorted()
    ensures SortedByLine(Chain4())
  {
    var c := Chain4();
    assert |c| == 4;
    assert forall k :: 0 <= k < 4 ==> c[k].line == k + 1;
  }

  /** `buildCFG()` on the program's text and paths makes the chain `Chain4()`. */
  lemma SampleChain()
    ensures LocsFit(SampleVisits(), Lines(SampleCode()))
    ensures SortByLine(Collected(Lines(SampleCode()), SampleVisits())) == Chain4()
  {
    SampleSplit();
    SampleCollected();
    Chain4Sorted();
    SortByLineSorted(Chain4());
  }

  /** `calculateGenKillSets()` stores these GEN and KILL sets for the chain. */
  lemma WorkedExampleGenKill()
    ensures StoredBy(Chain4(), 4, GenOf) == Gen4()
    ensures StoredBy(Chain4(), 4, KillOf) == Kill4()
  {
    ConstantXClassified();
    ConstantYClassified();
    SumClassified();
    CallClassified();
    var c := Chain4();
    assert c[0].node == S0() && c[1].node == S1() && c[2].node == S2() && c[3].node == S3();
  }

  /** The live sets of the four-statement program, statement by statement. */
  lemma WorkedExampleLiveness()
    ensures LiveFrom(4, Gen4(), Kill4(), 4) == {}
    ensures LiveFrom(4, Gen4(), Kill4(), 3) == {"console", "z"}
    ensures LiveFrom(4, Gen4(), Kill4(), 2) == {"console", "x", "y"}
    ensures LiveFrom(4, Gen4(), Kill4(), 1) == {"console", "x"}
    ensures LiveFrom(4, Gen4(), Kill4(), 0) == {"console"}
  {
    var g, k := Gen4(), Kill4();
    assert LiveFrom(4, g, k, 3) == {"console", "z"};
    assert LiveFrom(4, g, k, 2) == {"x", "y"} + ({"console", "z"} - {"z"});
    assert LiveFrom(4, g, k, 1) == {} + ({"console", "x", "y"} - {"y"});
    assert LiveFrom(4, g, k, 0) == {} + ({"console", "x"} - {"x"});
  }

  /** `let counter = 0; counter++;`: nothing is live between the two statements. */
  lemma IncrementNotLiveBefore()
    ensures LiveFrom(2, map[0 := {}, 1 := {}], map[0 := {"counter"}, 1 := {"counter"}], 1) == {}
  {
  }

  /** The sorted listing `liveOut` of the first statement shows. */
  lemma WorkedExampleListing()
    ensures Listing({"console", "x"}) == ["console", "x"]
  {
    ListingLists({"console", "x"});
    assert Less("console", "x");
    ListingUnique(["console", "x"], Listing({"console", "x"}), {"console", "x"});
  }
}
