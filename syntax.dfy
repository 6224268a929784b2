/**
 * The part of the Babel syntax tree the analyzer looks at. Every node kind the
 * classifier tests for has its own constructor; all other nodes (statements,
 * calls, binary expressions, literals, blocks, functions, ...) are `Other`, which
 * keeps the node's Babel `type` and its children in traversal order.
 */
module Syntax {
  import opened Wrappers

  /** A source position as Babel reports it: line from 1, column from 0. */
  datatype Position = Position(line: nat, column: nat)

  /** A node's `loc`: where it starts and where it ends. */
  datatype Loc = Loc(start: Position, end: Position)

  datatype Node =
    /** `referenced` is Babel's `isReferencedIdentifier()`, fixed by the parser's tree. */
    | Identifier(name: string, referenced: bool)
    | MemberExpression(obj: Node, property: Node, computed: bool)
    | AssignmentExpression(left: Node, right: Node)
    | UpdateExpression(argument: Node)
    | VariableDeclarator(id: Node, init: Option<Node>)
    | ObjectPattern(properties: seq<Node>)
    | ObjectProperty(key: Node, value: Node)
    | ArrayPattern(elements: seq<Node>)
    | RestElement(argument: Node)
    /** An elided element of an array pattern (`null` in Babel). */
    | Hole
    | Other(kind: string, children: seq<Node>)

  /** Babel's `node.type`. */
  function NodeType(n: Node): string
  {
    match n
    case Identifier(_, _) => "Identifier"
    case MemberExpression(_, _, _) => "MemberExpression"
    case AssignmentExpression(_, _) => "AssignmentExpression"
    case UpdateExpression(_) => "UpdateExpression"
    case VariableDeclarator(_, _) => "VariableDeclarator"
    case ObjectPattern(_) => "ObjectPattern"
    case ObjectProperty(_, _) => "ObjectProperty"
    case ArrayPattern(_) => "ArrayPattern"
    case RestElement(_) => "RestElement"
    case Hole => "Hole"
    case Other(kind, _) => kind
  }

  /**
   * What the `Statement` visitor of the statement collection sees of one statement
   * path, in traversal order: the node, a key standing for its identity, its `loc`
   * (absent for synthesised nodes) and the key of the nearest enclosing function
   * (`path.getFunctionParent()`), if any.
   */
  datatype StatementPath = StatementPath(node: Node, key: nat, loc: Option<Loc>, functionParent: Option<nat>)

  /** What the parser hands over: the statement paths of the tree, or its error message. */
  datatype ParseOutcome = Parsed(statements: seq<StatementPath>) | ParseError(message: string)
}
