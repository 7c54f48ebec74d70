/**
 * The part of an ECMAScript module's syntax tree that the export walker looks
 * at, as a closed sum type. Every node kind the walker does not inspect is
 * `Other`; fields the walker never reads (function bodies, default values,
 * source locations) are not carried.
 */
module Ast {
  import opened Wrappers

  datatype Node =
    | ExportNamedDeclaration(declaration: Option<Node>)
    | FunctionDeclaration(id: Node, params: seq<Node>)
    | VariableDeclaration(declarations: seq<Node>)
    | VariableDeclarator(id: Node, init: Option<Node>)
    | ArrowFunctionExpression(params: seq<Node>)
    | Identifier(name: string)
    | AssignmentPattern(left: Node)
    | Other

  /** A parsed module: its top-level statements in source order. */
  datatype Program = Program(body: seq<Node>)
}
