/** The syntax tree consumed by the three code generators: only the node
    kinds and fields the generators read. */
module Ast {
  import opened Wrappers

  datatype Node =
    | Program(statements: seq<Node>)
    | LetStatement(name: string, value: Node)
    | ReturnStatement(returnValue: Node)
    | ExpressionStatement(expression: Node)
    | BlockStatement(statements: seq<Node>)
    | Variable(ident: string)
    | IntegerLiteral(intValue: int)
    | FloatLiteral(floatValue: real)
    | StringLiteral(text: string)
    | Boolean(boolValue: bool)
    | PrefixExpression(operator: string, right: Node)
    | InfixExpression(operator: string, left: Node, right: Node)
    | IfExpression(condition: Node, consequence: Block, alternative: Block)
    | FunctionLiteral(parameters: seq<string>, body: seq<Node>)
    | CallExpression(callee: Node, arguments: seq<Node>)

  /** The block of an `if`; a missing block (a nil pointer in the source)
      is `Absent`. */
  datatype Block = Absent | Present(statements: seq<Node>)

  /** The dynamic type name Go's `%T` prints for a node. */
  function TypeName(n: Node): string {
    match n
    case Program(_) => "*ast.Program"
    case LetStatement(_, _) => "*ast.LetStatement"
    case ReturnStatement(_) => "*ast.ReturnStatement"
    case ExpressionStatement(_) => "*ast.ExpressionStatement"
    case BlockStatement(_) => "*ast.BlockStatement"
    case Variable(_) => "*ast.Variable"
    case IntegerLiteral(_) => "*ast.IntegerLiteral"
    case FloatLiteral(_) => "*ast.FloatLiteral"
    case StringLiteral(_) => "*ast.StringLiteral"
    case Boolean(_) => "*ast.Boolean"
    case PrefixExpression(_, _) => "*ast.PrefixExpression"
    case InfixExpression(_, _, _) => "*ast.InfixExpression"
    case IfExpression(_, _, _) => "*ast.IfExpression"
    case FunctionLiteral(_, _) => "*ast.FunctionLiteral"
    case CallExpression(_, _) => "*ast.CallExpression"
  }
}
