/**
 * GEN/KILL classification of one statement: the visitor that the analyzer runs over
 * every node of a statement's subtree, the helpers it uses, and what the resulting
 * sets contain.
 */
module Effects {
  import opened Wrappers
  import opened Syntax

  /** A visited node with its parent and its position among the parent's children. */
  datatype NodePath = NodePath(node: Node, parent: Option<Node>, key: nat)

  /** The names a statement reads (`gen`) and defines (`kill`). */
  datatype Effects = Effects(gen: set<string>, kill: set<string>)

  const NoEffects := Effects({}, {})

  /** Babel's traversal: every node of the subtree in pre-order, root first. */
  function Traverse(n: Node, parent: Option<Node>, key: nat): (paths: seq<NodePath>)
    ensures |paths| >= 1 && paths[0] == NodePath(n, parent, key)
    decreases n, 1
  {
    [NodePath(n, parent, key)] + TraverseChildren(n)
  }

  function TraverseChildren(n: Node): seq<NodePath>
    decreases n, 0
  {
    match n
    case Identifier(_, _) => []
    case MemberExpression(o, p, _) => Traverse(o, Some(n), 0) + Traverse(p, Some(n), 1)
    case AssignmentExpression(l, r) => Traverse(l, Some(n), 0) + Traverse(r, Some(n), 1)
    case UpdateExpression(a) => Traverse(a, Some(n), 0)
    case VariableDeclarator(id, init) =>
      Traverse(id, Some(n), 0) + (if init.Some? then Traverse(init.value, Some(n), 1) else [])
    case ObjectPattern(ps) => TraverseList(n, ps, 0)
    case ObjectProperty(k, v) => Traverse(k, Some(n), 0) + Traverse(v, Some(n), 1)
    case ArrayPattern(es) => TraverseList(n, es, 0)
    case RestElement(a) => Traverse(a, Some(n), 0)
    case Hole => []
    case Other(_, cs) => TraverseList(n, cs, 0)
  }

  function TraverseList(parent: Node, kids: seq<Node>, from: nat): seq<NodePath>
    decreases kids
  {
    if kids == [] then []
    else Traverse(kids[0], Some(parent), from) + TraverseList(parent, kids[1..], from + 1)
  }

  /**
   * `isDescendantOf(node, potentialAncestor)`. Nodes are identified by their address
   * relative to a common parent (`[k]` is its k-th child), so `===` on nodes is `==`
   * on addresses; a member expression counts its object and its property.
   */
  predicate IsDescendantOf(node: seq<nat>, potentialAncestor: Option<Node>, ancestorAt: seq<nat>)
    ensures IsDescendantOf(node, potentialAncestor, ancestorAt) ==>
      potentialAncestor.Some? &&
      (node != ancestorAt ==>
        potentialAncestor.value.MemberExpression? && (node == ancestorAt + [0] || node == ancestorAt + [1]))
  {
    if potentialAncestor.None? then false
    else if node == ancestorAt then true
    else if potentialAncestor.value.MemberExpression? then
      node == ancestorAt + [0] || node == ancestorAt + [1]
    else false
  }

  /**
   * `isLeftHandSideOfAssignment(path)` for the node at child position `key` of
   * `parent`. The node is a child of the assignment, so it is never the object or the
   * property of the assignment's left side: the test holds exactly for the left side.
   */
  function IsLeftHandSideOfAssignment(parent: Option<Node>, key: nat): (r: bool)
    ensures r <==> parent.Some? && parent.value.AssignmentExpression? && key == 0
  {
    match parent
    case Some(AssignmentExpression(left, _)) => [key] == [0] || IsDescendantOf([key], Some(left), [0])
    case _ => false
  }

  /** The name one property of an object pattern binds directly, if any. */
  function PropertyName(prop: Node): seq<string>
  {
    match prop
    case ObjectProperty(_, Identifier(x, _)) => [x]
    case RestElement(Identifier(x, _)) => [x]
    case _ => []
  }

  /** The name one element of an array pattern binds directly, if any. */
  function ElementName(elem: Node): seq<string>
  {
    match elem
    case Identifier(x, _) => [x]
    case RestElement(Identifier(x, _)) => [x]
    case _ => []
  }

  function PropertyNames(ps: seq<Node>): seq<string>
  {
    if ps == [] then [] else PropertyNames(ps[..|ps| - 1]) + PropertyName(ps[|ps| - 1])
  }

  function ElementNames(es: seq<Node>): seq<string>
  {
    if es == [] then [] else ElementNames(es[..|es| - 1]) + ElementName(es[|es| - 1])
  }

  /** The names `extractIdentifiersFromPattern` returns, in pattern order. */
  function PatternNames(pattern: Node): seq<string>
  {
    match pattern
    case ObjectPattern(ps) => PropertyNames(ps)
    case ArrayPattern(es) => ElementNames(es)
    case _ => []
  }

  /**
   * `x` is bound directly by element `e` of a top-level pattern: an object property
   * whose value is the identifier `x`, an array element that is `x`, or a rest
   * element whose argument is `x`. Nested patterns, defaults and holes bind nothing.
   */
  predicate BindsDirectly(e: Node, inObject: bool, x: string)
  {
    (inObject && e.ObjectProperty? && e.value.Identifier? && e.value.name == x) ||
    (!inObject && e.Identifier? && e.name == x) ||
    (e.RestElement? && e.argument.Identifier? && e.argument.name == x)
  }

  function PatternElements(pattern: Node): seq<Node>
  {
    match pattern
    case ObjectPattern(ps) => ps
    case ArrayPattern(es) => es
    case _ => []
  }

  lemma {:induction false} PropertyNamesExactly(ps: seq<Node>, x: string)
    ensures x in PropertyNames(ps) <==> exists i :: 0 <= i < |ps| && BindsDirectly(ps[i], true, x)
  {
    if ps != [] {
      var init := ps[..|ps| - 1];
      PropertyNamesExactly(init, x);
      assert forall i :: 0 <= i < |init| ==> init[i] == ps[i];
    }
  }

  lemma {:induction false} ElementNamesExactly(es: seq<Node>, x: string)
    ensures x in ElementNames(es) <==> exists i :: 0 <= i < |es| && BindsDirectly(es[i], false, x)
  {
    if es != [] {
      var init := es[..|es| - 1];
      ElementNamesExactly(init, x);
      assert forall i :: 0 <= i < |init| ==> init[i] == es[i];
    }
  }

  /** `extractIdentifiersFromPattern` returns exactly the names bound directly by the pattern. */
  lemma PatternNamesExactly(pattern: Node, x: string)
    ensures x in PatternNames(pattern) <==>
      (exists i :: 0 <= i < |PatternElements(pattern)| &&
        BindsDirectly(PatternElements(pattern)[i], pattern.ObjectPattern?, x))
  {
    match pattern
    case ObjectPattern(ps) =>
      PropertyNamesExactly(ps, x);
      assert PatternElements(pattern) == ps && pattern.ObjectPattern?;
    case ArrayPattern(es) =>
      ElementNamesExactly(es, x);
      assert PatternElements(pattern) == es && !pattern.ObjectPattern?;
    case _ =>
  }

  /** `extractIdentifiersFromPattern(pattern)`. */
  method ExtractIdentifiersFromPattern(pattern: Node) returns (identifiers: seq<string>)
    ensures identifiers == PatternNames(pattern)
  {
    identifiers := [];
    if pattern.ObjectPattern? {
      identifiers := PropertyIdentifiers(pattern.properties);
    } else if pattern.ArrayPattern? {
      identifiers := ElementIdentifiers(pattern.elements);
    }
  }

  /** The `pattern.properties.forEach` loop. */
  method PropertyIdentifiers(ps: seq<Node>) returns (identifiers: seq<string>)
    ensures identifiers == PropertyNames(ps)
  {
    identifiers := [];
    for i := 0 to |ps|
      invariant identifiers == PropertyNames(ps[..i])
    {
      assert ps[..i + 1][..i] == ps[..i];
      var prop := ps[i];
      if prop.ObjectProperty? && prop.value.Identifier? {
        identifiers := identifiers + [prop.value.name];
      } else if prop.RestElement? && prop.argument.Identifier? {
        identifiers := identifiers + [prop.argument.name];
      }
    }
    assert ps[..|ps|] == ps;
  }

  /** The `pattern.elements.forEach` loop. */
  method ElementIdentifiers(es: seq<Node>) returns (identifiers: seq<string>)
    ensures identifiers == ElementNames(es)
  {
    identifiers := [];
    for i := 0 to |es|
      invariant identifiers == ElementNames(es[..i])
    {
      assert es[..i + 1][..i] == es[..i];
      var elem := es[i];
      if elem.Identifier? {
        identifiers := identifiers + [elem.name];
      } else if elem.RestElement? && elem.argument.Identifier? {
        identifiers := identifiers + [elem.argument.name];
      }
    }
    assert es[..|es|] == es;
  }

  function ToSet(s: seq<string>): set<string>
  {
    set x | x in s
  }

  /**
   * What the four visitor callbacks add for one visited node: a referenced identifier
   * is read, or defined when it is the left side of an assignment; a declarator defines
   * its identifier or the names its top-level pattern binds; an assignment defines an
   * identifier on its left and reads the base identifier of a member on its left; an
   * update both reads and defines its identifier.
   */
  function Visit(p: NodePath): (r: Effects)
    ensures r.gen !! r.kill || p.node.UpdateExpression?
    ensures r != NoEffects ==>
      p.node.Identifier? || p.node.VariableDeclarator? || p.node.AssignmentExpression? || p.node.UpdateExpression?
  {
    match p.node
    case Identifier(x, referenced) =>
      if !referenced then NoEffects
      else if IsLeftHandSideOfAssignment(p.parent, p.key) then Effects({}, {x})
      else Effects({x}, {})
    case VariableDeclarator(id, _) =>
      Effects({},
        (if id.Identifier? then {id.name} else {}) +
        (if id.ObjectPattern? || id.ArrayPattern? then ToSet(PatternNames(id)) else {}))
    case AssignmentExpression(left, _) =>
      Effects(
        if left.MemberExpression? && left.obj.Identifier? then {left.obj.name} else {},
        if left.Identifier? then {left.name} else {})
    case UpdateExpression(arg) =>
      if arg.Identifier? then Effects({arg.name}, {arg.name}) else NoEffects
    case _ => NoEffects
  }

  /** The sets accumulated after visiting `paths` in order. */
  function Collect(paths: seq<NodePath>): Effects
  {
    if paths == [] then NoEffects
    else
      var e := Collect(paths[..|paths| - 1]);
      var v := Visit(paths[|paths| - 1]);
      Effects(e.gen + v.gen, e.kill + v.kill)
  }

  lemma {:induction false} CollectExactly(paths: seq<NodePath>, x: string)
    ensures x in Collect(paths).gen <==> exists i :: 0 <= i < |paths| && x in Visit(paths[i]).gen
    ensures x in Collect(paths).kill <==> exists i :: 0 <= i < |paths| && x in Visit(paths[i]).kill
  {
    if paths != [] {
      var init := paths[..|paths| - 1];
      CollectExactly(init, x);
      assert forall i :: 0 <= i < |init| ==> init[i] == paths[i];
    }
  }

  /** Visiting one more node adds what it adds. */
  lemma CollectSnoc(paths: seq<NodePath>, p: NodePath)
    ensures Collect(paths + [p]) ==
      Effects(Collect(paths).gen + Visit(p).gen, Collect(paths).kill + Visit(p).kill)
  {
    assert (paths + [p])[..|paths|] == paths;
  }

  /** Visiting two runs of nodes one after the other adds what each run adds. */
  lemma {:induction false} CollectConcat(xs: seq<NodePath>, ys: seq<NodePath>)
    ensures Collect(xs + ys) ==
      Effects(Collect(xs).gen + Collect(ys).gen, Collect(xs).kill + Collect(ys).kill)
    decreases |ys|
  {
    if ys == [] {
      assert xs + ys == xs;
    } else {
      var init, last := ys[..|ys| - 1], ys[|ys| - 1];
      CollectConcat(xs, init);
      assert xs + ys == (xs + init) + [last];
      CollectSnoc(xs + init, last);
      assert ys == init + [last];
      CollectSnoc(init, last);
    }
  }

  /** The paths visited when a statement is traversed on its own (`t.program([stmt.node])`). */
  function StatementPaths(stmt: Node): seq<NodePath>
  {
    Traverse(stmt, None, 0)
  }

  /** The statement's GEN and KILL sets: every defined name is removed from GEN. */
  function Classify(stmt: Node): (e: Effects)
    ensures e.gen !! e.kill
  {
    var raw := Collect(StatementPaths(stmt));
    Effects(raw.gen - raw.kill, raw.kill)
  }

  /** A statement reads `x` when some visited node reads it and none defines it. */
  lemma ClassifyGen(stmt: Node, x: string)
    ensures x in Classify(stmt).gen <==>
      (exists p :: p in StatementPaths(stmt) && x in Visit(p).gen) &&
      !(exists p :: p in StatementPaths(stmt) && x in Visit(p).kill)
  {
    var ps := StatementPaths(stmt);
    CollectExactly(ps, x);
    if exists p :: p in ps && x in Visit(p).gen {
      var p :| p in ps && x in Visit(p).gen;
      var i :| 0 <= i < |ps| && ps[i] == p;
    }
    if exists p :: p in ps && x in Visit(p).kill {
      var p :| p in ps && x in Visit(p).kill;
      var i :| 0 <= i < |ps| && ps[i] == p;
    }
  }

  /** A statement defines `x` exactly when some visited node defines it. */
  lemma ClassifyKill(stmt: Node, x: string)
    ensures x in Classify(stmt).kill <==> exists p :: p in StatementPaths(stmt) && x in Visit(p).kill
  {
    var ps := StatementPaths(stmt);
    CollectExactly(ps, x);
    if exists p :: p in ps && x in Visit(p).kill {
      var p :| p in ps && x in Visit(p).kill;
      var i :| 0 <= i < |ps| && ps[i] == p;
    }
  }

  /** `i++`, `--i`: the name is defined and, KILL winning, not in GEN. */
  lemma UpdateTargetKilledNotRead(stmt: Node, p: NodePath, x: string)
    requires p in StatementPaths(stmt)
    requires p.node.UpdateExpression? && p.node.argument.Identifier? && p.node.argument.name == x
    ensures x in Classify(stmt).kill && x !in Classify(stmt).gen
  {
    ClassifyKill(stmt, x);
  }

  /** `let x = ...`, `var x;`: the declared name is defined. */
  lemma DeclaredNameKilled(stmt: Node, p: NodePath)
    requires p in StatementPaths(stmt)
    requires p.node.VariableDeclarator? && p.node.id.Identifier?
    ensures p.node.id.name in Classify(stmt).kill && p.node.id.name !in Classify(stmt).gen
  {
    ClassifyKill(stmt, p.node.id.name);
  }

  /** `let {a, b: c, ...r} = o`, `let [x, , ...ys] = a`: the directly bound names are defined. */
  lemma DestructuredNamesKilled(stmt: Node, p: NodePath, x: string)
    requires p in StatementPaths(stmt)
    requires p.node.VariableDeclarator? && (p.node.id.ObjectPattern? || p.node.id.ArrayPattern?)
    requires var elems := PatternElements(p.node.id);
      exists i :: 0 <= i < |elems| && BindsDirectly(elems[i], p.node.id.ObjectPattern?, x)
    ensures x in Classify(stmt).kill && x !in Classify(stmt).gen
  {
    PatternNamesExactly(p.node.id, x);
    ClassifyKill(stmt, x);
  }

  /** `x = ...`, `x += ...`: the assigned name is defined. */
  lemma AssignedNameKilled(stmt: Node, p: NodePath)
    requires p in StatementPaths(stmt)
    requires p.node.AssignmentExpression? && p.node.left.Identifier?
    ensures p.node.left.name in Classify(stmt).kill && p.node.left.name !in Classify(stmt).gen
  {
    ClassifyKill(stmt, p.node.left.name);
  }

  /** `o.f = ...`, `o[k] = ...`: the base object is read, unless the statement defines it. */
  lemma MemberAssignmentReadsBase(stmt: Node, p: NodePath)
    requires p in StatementPaths(stmt)
    requires p.node.AssignmentExpression? && p.node.left.MemberExpression? && p.node.left.obj.Identifier?
    requires p.node.left.obj.name !in Classify(stmt).kill
    ensures p.node.left.obj.name in Classify(stmt).gen
  {
    var x := p.node.left.obj.name;
    ClassifyKill(stmt, x);
    ClassifyGen(stmt, x);
  }

  /** A referenced identifier that is not an assignment target is read, unless the statement defines it. */
  lemma ReferencedUseRead(stmt: Node, p: NodePath)
    requires p in StatementPaths(stmt)
    requires p.node.Identifier? && p.node.referenced
    requires !(p.parent.Some? && p.parent.value.AssignmentExpression? && p.key == 0)
    requires p.node.name !in Classify(stmt).kill
    ensures p.node.name in Classify(stmt).gen
  {
    var x := p.node.name;
    ClassifyKill(stmt, x);
    ClassifyGen(stmt, x);
  }

  /** Every node of a visited node's own traversal is visited too. */
  lemma {:induction false} TraverseClosed(n: Node, parent: Option<Node>, key: nat, p: NodePath)
    requires p in Traverse(n, parent, key)
    ensures forall q :: q in Traverse(p.node, p.parent, p.key) ==> q in Traverse(n, parent, key)
    decreases n, 1
  {
    if p != NodePath(n, parent, key) {
      ChildrenClosed(n, p);
    }
  }

  lemma {:induction false} ChildrenClosed(n: Node, p: NodePath)
    requires p in TraverseChildren(n)
    ensures forall q :: q in Traverse(p.node, p.parent, p.key) ==> q in TraverseChildren(n)
    decreases n, 0
  {
    match n
    case MemberExpression(o, pr, _) =>
      if p in Traverse(o, Some(n), 0) { TraverseClosed(o, Some(n), 0, p); }
      else { TraverseClosed(pr, Some(n), 1, p); }
    case AssignmentExpression(l, r) =>
      if p in Traverse(l, Some(n), 0) { TraverseClosed(l, Some(n), 0, p); }
      else { TraverseClosed(r, Some(n), 1, p); }
    case UpdateExpression(a) => TraverseClosed(a, Some(n), 0, p);
    case VariableDeclarator(id, init) =>
      if p in Traverse(id, Some(n), 0) { TraverseClosed(id, Some(n), 0, p); }
      else { TraverseClosed(init.value, Some(n), 1, p); }
    case ObjectPattern(ps) => ListClosed(n, ps, 0, p);
    case ObjectProperty(k, v) =>
      if p in Traverse(k, Some(n), 0) { TraverseClosed(k, Some(n), 0, p); }
      else { TraverseClosed(v, Some(n), 1, p); }
    case ArrayPattern(es) => ListClosed(n, es, 0, p);
    case RestElement(a) => TraverseClosed(a, Some(n), 0, p);
    case Other(_, cs) => ListClosed(n, cs, 0, p);
  }

  lemma {:induction false} ListClosed(parent: Node, kids: seq<Node>, from: nat, p: NodePath)
    requires p in TraverseList(parent, kids, from)
    ensures forall q :: q in Traverse(p.node, p.parent, p.key) ==> q in TraverseList(parent, kids, from)
    decreases kids
  {
    if p in Traverse(kids[0], Some(parent), from) {
      TraverseClosed(kids[0], Some(parent), from, p);
    } else {
      ListClosed(parent, kids[1..], from + 1, p);
    }
  }

  /**
   * A statement nested in another (the body of an `if`, a `for`, a block) is traversed
   * again as part of the enclosing one: whatever it defines, the enclosing statement
   * defines, and whatever it reads, the enclosing statement reads or defines.
   */
  lemma NestedStatementCounted(stmt: Node, p: NodePath)
    requires p in StatementPaths(stmt)
    requires !p.node.Identifier?
    ensures Classify(p.node).kill <= Classify(stmt).kill
    ensures Classify(p.node).gen <= Classify(stmt).gen + Classify(stmt).kill
  {
    var inner := StatementPaths(p.node);
    var outer := StatementPaths(stmt);
    TraverseClosed(stmt, None, 0, p);
    assert Visit(inner[0]) == Visit(p);
    assert forall q :: q in inner ==> Visit(q) == Visit(p) || q in outer by {
      forall q | q in inner ensures Visit(q) == Visit(p) || q in outer {
        if q != inner[0] {
          var i :| 0 <= i < |inner| && inner[i] == q;
          assert q in Traverse(p.node, p.parent, p.key)[1..];
        }
      }
    }
    forall x | x in Classify(p.node).kill ensures x in Classify(stmt).kill {
      ClassifyKill(p.node, x);
      ClassifyKill(stmt, x);
    }
    forall x | x in Classify(p.node).gen ensures x in Classify(stmt).gen + Classify(stmt).kill {
      ClassifyGen(p.node, x);
      ClassifyGen(stmt, x);
      ClassifyKill(stmt, x);
    }
  }
}
