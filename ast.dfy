/**
 * Tokens and the abstract syntax tree shared by every component.
 *
 * The lexer's token kinds, `SourcePosition` and `Token` follow pylox/lexer.py.
 * The expression and statement nodes cover every node kind the lexer, parser,
 * resolver, interpreter, printers and object model touch, including the kinds
 * the resolver visits but pylox/expr.py and pylox/stmt.py do not define yet.
 * The visitor/`accept` plumbing of those files is replaced by pattern matching.
 */
module LoxAst {
  import opened Wrappers

  /** The token kinds, in the order of the `TokenType` enum. */
  datatype TokenType =
    // single-character tokens
    | LeftParen | RightParen | LeftBrace | RightBrace
    | Comma | Dot | Minus | Plus | Semicolon | Slash | Star
    | QuestionMark | Colon
    // one or two character tokens
    | Bang | BangEqual
    | Equal | EqualEqual
    | Greater | GreaterEqual
    | Less | LessEqual
    // literals
    | Identifier | String | Number
    // keywords
    | And | Class | Else | False | Fun | For | If | Nil | Or
    | Print | Return | Super | This | True | Var | While | Break
    // end of file
    | Eof

  /** The line, the start of the current token and the cursor, as the lexer keeps them. */
  datatype SourcePosition = SourcePosition(line: nat, start: nat, current: nat)

  /** A literal value: Python's `Union[str, float, bool, None]`; floats are modelled as reals. */
  datatype Lit =
    | LitNil
    | LitBool(boolValue: bool)
    | LitNumber(number: real)
    | LitString(text: string)

  datatype Token = Token(kind: TokenType, lexeme: string, position: SourcePosition, literal: Lit)

  /**
   * Expressions. `Variable` and `Assign` carry `id`, which stands for the node's
   * identity: the resolver keys its bindings by it.
   */
  datatype Expr =
    | Literal(literal: Lit)
    | Grouping(expression: Expr)
    | Unary(op: Token, right: Expr)
    | Binary(left: Expr, op: Token, right: Expr)
    | Ternary(condition: Expr, thenExpr: Expr, elseExpr: Expr)
    | Logical(left: Expr, op: Token, right: Expr)
    | Variable(id: nat, name: Token)
    | Assign(id: nat, name: Token, value: Expr)
    | Call(callee: Expr, paren: Token, arguments: seq<Expr>)
    | Get(object: Expr, name: Token)
    | Set(object: Expr, name: Token, value: Expr)
    | Function(params: seq<Token>, body: seq<Stmt>)

  /** Statements. `ClassStmt` carries `id` for the same reason as `Variable`. */
  datatype Stmt =
    | ExpressionStmt(expression: Expr)
    | PrintStmt(expression: Expr)
    | VarStmt(name: Token, initializer: Option<Expr>)
    | BlockStmt(statements: seq<Stmt>)
    | IfStmt(condition: Expr, thenBranch: Stmt, elseBranch: Option<Stmt>)
    | WhileStmt(condition: Expr, body: Stmt)
    | BreakStmt(keyword: Token)
    | ReturnStmt(keyword: Token, value: Option<Expr>)
    | FunDefStmt(name: Token, fun: Expr)
    | ClassStmt(id: nat, name: Token, methods: seq<Stmt>)

  /** No two of the tokens spell the same name. */
  predicate DistinctNames(names: seq<Token>)
  {
    forall i, j :: 0 <= i < j < |names| ==> names[i].lexeme != names[j].lexeme
  }
}
