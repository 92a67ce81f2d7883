/**
 * The syntax tree.  Every node kind of the source is one constructor; a subtree
 * that a failed sub-parse left empty (a null pointer in the source) is `Missing`,
 * and a slot that is optional by design is an `Option`.
 */
module Ast {
  import opened Wrappers
  import opened Tokens

  /** A literal: its value, with the token kind that tags it. */
  datatype Literal =
    | IntLit(value: int)
    | StrLit(text: string)
    | CharLit(c: char)
    | BoolLit(truth: int)
  {
    /** The kind the literal is tagged with; a boolean's tag follows its value. */
    function Tag(): TokenKind {
      match this
      case IntLit(_) => Number
      case StrLit(_) => StringLit
      case CharLit(_) => Character
      case BoolLit(b) => if b != 0 then Vrai else Faux
    }
  }

  datatype Node =
    | Program(declarations: seq<Node>)
    | FunctionDecl(name: string, parameters: seq<Node>, returnType: Option<Node>, body: Node)
    | Block(statements: seq<Node>)
    | VariableDecl(name: string, varType: Option<Node>, initializer: Option<Node>)
    | Parameter(name: string, paramType: Option<Node>, passing: int)
    | Assignment(target: Node, value: Node)
    | Binary(left: Node, op: TokenKind, right: Node)
    | Unary(op: TokenKind, operand: Node)
    | If(condition: Node, thenBranch: Node, elseBranch: Option<Node>)
    | While(condition: Node, body: Node)
    | For(init: Option<Node>, guard: Option<Node>, update: Option<Node>, body: Node, direction: int)
    | Return(result: Option<Node>)
    | Call(name: string)
    | Variable(name: string)
    | Literal(lit: Literal)
    | ArrayAccess(array: Node, index: Node)
    | StructAccess(structure: Node, field: string)
    | Missing

  /** A null pointer is `Missing`; an optional slot holds it as `None`. */
  function FromNullable(n: Node): (r: Option<Node>)
    ensures r.None? <==> n == Missing
    ensures r.Some? ==> r.value == n
  {
    if n == Missing then None else Some(n)
  }

  function ToNullable(o: Option<Node>): Node {
    match o
    case None => Missing
    case Some(n) => n
  }

  /**
   * The if-node is built as a three-slot block: condition, then-branch and
   * else-branch, the last possibly null.
   */
  function MkIf(condition: Node, thenBranch: Node, elseBranch: Node): (r: Node)
    ensures r.If?
  {
    If(condition, thenBranch, FromNullable(elseBranch))
  }

  /** The three slots of an if-node, as the interpreter reads them. */
  function IfSlots(n: Node): (slots: seq<Node>)
    requires n.If?
    ensures |slots| == 3
  {
    [n.condition, n.thenBranch, ToNullable(n.elseBranch)]
  }

  /** Building an if-node from three slots and reading its slots back gives the same three. */
  lemma IfSlotsRoundTrip(condition: Node, thenBranch: Node, elseBranch: Node)
    ensures IfSlots(MkIf(condition, thenBranch, elseBranch)) == [condition, thenBranch, elseBranch]
  {
  }

  /** Rebuilding an if-node from its slots gives it back, when its else-branch is not a null subtree. */
  lemma IfFromSlotsRoundTrip(n: Node)
    requires n.If? && n.elseBranch != Some(Missing)
    ensures MkIf(IfSlots(n)[0], IfSlots(n)[1], IfSlots(n)[2]) == n
  {
  }

  /** A call node keeps only the callee's name; its arguments are discarded. */
  function MkCall(name: string, arguments: seq<Node>): (r: Node)
    ensures r.Call? && r.name == name
  {
    Call(name)
  }

  lemma CallIgnoresArguments(name: string, a: seq<Node>, b: seq<Node>)
    ensures MkCall(name, a) == MkCall(name, b)
  {
  }

  /** A parameter node ignores the initializer it is given and starts with passing mode 0. */
  function MkParameter(name: string, paramType: Option<Node>, initializer: Node): (r: Node)
    ensures r.Parameter? && r.name == name && r.paramType == paramType && r.passing == 0
  {
    Parameter(name, paramType, 0)
  }

  lemma ParameterIgnoresInitializer(name: string, t: Option<Node>, a: Node, b: Node)
    ensures MkParameter(name, t, a) == MkParameter(name, t, b)
  {
  }

  /** A boolean literal is tagged `vrai` exactly when its value is nonzero. */
  function MkBoolLiteral(value: int): (r: Node)
    ensures r.Literal? && r.lit.BoolLit? && r.lit.truth == value
    ensures r.lit.Tag() == Vrai <==> value != 0
    ensures r.lit.Tag() == Faux <==> value == 0
  {
    Literal(BoolLit(value))
  }

  /** A for-node keeps its four parts unchanged; a positive direction means `haut`. */
  function MkFor(init: Node, condition: Node, update: Node, body: Node, direction: int): (r: Node)
    ensures r.For? && r.body == body && r.direction == direction
    ensures ToNullable(r.init) == init && ToNullable(r.guard) == condition
    ensures ToNullable(r.update) == update
  {
    For(FromNullable(init), FromNullable(condition), FromNullable(update), body, direction)
  }
}
