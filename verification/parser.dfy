/**
 * The recursive-descent parser over the token stream.  Each parsing function
 * takes the tokens not yet consumed and returns the node it built together with
 * the tokens it left; a failed parse builds `Missing`.
 */
module Parser {
  import opened Wrappers
  import opened Tokens
  import opened Ast
  import opened Lexer

  /** A parse: the node built (`Missing` when the parse failed) and the tokens left. */
  datatype Parsed = Parsed(node: Node, rest: seq<Token>)

  /**
   * The parsers the grammar relies on but whose bodies are not part of this model:
   * blocks, function declarations and variable declarations.
   */
  datatype Grammar = Grammar(
    block: seq<Token> -> Parsed,
    functionDecl: seq<Token> -> Parsed,
    variableDecl: seq<Token> -> Parsed)

  /** The end-of-input token the lexer keeps handing out once the text is exhausted. */
  const EndOfInput: Token := Token(Eof, None, 0, 0)

  /** The current token. */
  function Peek(ts: seq<Token>): (t: Token)
    ensures |ts| == 0 ==> t.kind == Eof
  {
    if |ts| == 0 then EndOfInput else ts[0]
  }

  function PeekKind(ts: seq<Token>): TokenKind {
    Peek(ts).kind
  }

  /** Moves to the next token; at the end of the stream the end of input stays current. */
  function Next(ts: seq<Token>): (r: seq<Token>)
    ensures |ts| > 0 ==> r == ts[1..]
    ensures |ts| == 0 ==> r == ts
  {
    if |ts| == 0 then ts else ts[1..]
  }

  /** `match`: consumes the current token exactly when it has the given kind. */
  function Match(ts: seq<Token>, kind: TokenKind): (r: (bool, seq<Token>))
    ensures r.0 <==> PeekKind(ts) == kind
    ensures r.0 ==> kind == Eof || |r.1| == |ts| - 1
    ensures r.0 ==> r.1 == Next(ts)
    ensures !r.0 ==> r.1 == ts
  {
    if PeekKind(ts) == kind then (true, Next(ts)) else (false, ts)
  }

  /**
   * `expect`: consumes the current token when it has the given kind; otherwise the
   * syntax error is reported and nothing is consumed.
   */
  function Expect(ts: seq<Token>, kind: TokenKind): (r: Option<seq<Token>>)
    ensures r.Some? <==> PeekKind(ts) == kind
    ensures r.Some? ==> r.value == Next(ts)
  {
    var (ok, rest) := Match(ts, kind);
    if ok then Some(rest) else None
  }

  // ---------------------------------------------------------------------------
  // Expressions.

  /**
   * The binary operator tiers, from the tightest: 1 holds `*`, `/`, `mod`, `div`
   * and `et`; 2 holds `+`, `-` and `ou`; 3 the orderings; 4 the equalities.
   * Every other kind is 0.
   */
  function TierOf(k: TokenKind): (t: nat)
    ensures t <= 4
  {
    match k
    case Asterisk | Slash | Mod | Div | Et => 1
    case Plus | Minus | Ou => 2
    case Less | Greater | LessEqual | GreaterEqual => 3
    case Equal | BangEqual => 4
    case _ => 0
  }

  /** The lowest-precedence expression: the equality tier. */
  function ParseExpression(ts: seq<Token>): (r: Parsed)
    ensures |r.rest| <= |ts|
    decreases |ts|, 7
  {
    ParseTier(4, ts)
  }

  /**
   * One binary tier: an operand of the tier below, then any number of
   * `operator operand` pairs of this tier, grouped to the left.  Tier 0 is the
   * prefix-unary level.
   */
  function ParseTier(t: nat, ts: seq<Token>): (r: Parsed)
    requires t <= 4
    ensures |r.rest| <= |ts|
    decreases |ts|, t + 2
  {
    if t == 0 then ParseUnary(ts)
    else
      var first := ParseTier(t - 1, ts);
      TierTail(t, first.node, first.rest)
  }

  /** The loop of a binary tier: folds each further operand into the left operand. */
  function TierTail(t: nat, left: Node, ts: seq<Token>): (r: Parsed)
    requires 1 <= t <= 4
    ensures |r.rest| <= |ts|
    decreases |ts|, t + 1
  {
    var op := PeekKind(ts);
    if TierOf(op) == t then
      var right := ParseTier(t - 1, ts[1..]);
      TierTail(t, Binary(left, op, right.node), right.rest)
    else
      Parsed(left, ts)
  }

  /** Prefix `-` and `non`, which nest to the right. */
  function ParseUnary(ts: seq<Token>): (r: Parsed)
    ensures |r.rest| <= |ts|
    decreases |ts|, 1
  {
    var op := PeekKind(ts);
    if op == Minus || op == Non then
      var operand := ParseUnary(ts[1..]);
      Parsed(Unary(op, operand.node), operand.rest)
    else
      ParsePrimary(ts)
  }

  /** The first character of a character token's text, or '\0' when it is empty. */
  function FirstChar(s: string): char {
    if |s| == 0 then '\0' else s[0]
  }

  /**
   * Literals, `nil`, variables, calls and parenthesised expressions.  Any other
   * token is a syntax error: the parse fails and nothing is consumed.
   */
  function ParsePrimary(ts: seq<Token>): (r: Parsed)
    ensures |r.rest| <= |ts|
    decreases |ts|, 0
  {
    var tok := Peek(ts);
    match tok.kind
    case Number => Parsed(Literal(IntLit(Atoi(TextOf(tok)))), ts[1..])
    case StringLit => Parsed(Literal(StrLit(TextOf(tok))), ts[1..])
    case Character => Parsed(Literal(CharLit(FirstChar(TextOf(tok)))), ts[1..])
    case Vrai => Parsed(MkBoolLiteral(1), ts[1..])
    case Faux => Parsed(MkBoolLiteral(0), ts[1..])
    case Nil => Parsed(Literal(IntLit(0)), ts[1..])
    case Identifier =>
      if PeekKind(ts[1..]) == LParen then ParseFunctionCall(TextOf(tok), ts[1..])
      else Parsed(Variable(TextOf(tok)), ts[1..])
    case LParen =>
      var inner := ParseExpression(ts[1..]);
      if PeekKind(inner.rest) == RParen then Parsed(inner.node, inner.rest[1..])
      else Parsed(Missing, inner.rest)
    case _ => Parsed(Missing, ts)
  }

  /**
   * A call's parenthesised argument list, whose arguments are parsed and then
   * dropped.  A missing argument or a missing `)` makes the whole call fail.
   */
  function ParseFunctionCall(name: string, ts: seq<Token>): (r: Parsed)
    ensures |r.rest| <= |ts|
    ensures r.node != Missing ==> r.node == Call(name)
    decreases |ts|, 0
  {
    match Expect(ts, LParen)
    case None => Parsed(Missing, ts)
    case Some(afterOpen) =>
      var arguments: Result<(seq<Node>, seq<Token>), seq<Token>> :=
        if PeekKind(afterOpen) == RParen then Success(([], afterOpen))
        else ParseArguments(afterOpen);
      match arguments
      case Failure(rest) => Parsed(Missing, rest)
      case Success((args, rest)) =>
        match Expect(rest, RParen)
        case Some(after) => Parsed(MkCall(name, args), after)
        case None => Parsed(Missing, rest)
  }

  /**
   * Comma-separated arguments; a failed argument stops the list and is reported
   * with the tokens left at that point.
   */
  function ParseArguments(ts: seq<Token>): (r: Result<(seq<Node>, seq<Token>), seq<Token>>)
    ensures r.Success? ==> |r.value.1| <= |ts| && |r.value.0| > 0 && Missing !in r.value.0
    ensures r.Failure? ==> |r.error| <= |ts|
    decreases |ts|, 8
  {
    var arg := ParseExpression(ts);
    if arg.node == Missing then Failure(arg.rest)
    else if PeekKind(arg.rest) == Comma then
      match ParseArguments(arg.rest[1..])
      case Failure(rest) => Failure(rest)
      case Success((more, rest)) => Success(([arg.node] + more, rest))
    else Success(([arg.node], arg.rest))
  }

  // ---------------------------------------------------------------------------
  // Decimal conversion of number tokens.

  function DigitValue(c: char): (d: nat)
    requires IsDigit(c)
    ensures d < 10
  {
    (c as int - '0' as int) as nat
  }

  /** The value of a run of decimal digits, read from the left. */
  function DecimalValue(d: string): nat
    requires forall i :: 0 <= i < |d| ==> IsDigit(d[i])
  {
    if |d| == 0 then 0 else DecimalValue(d[..|d| - 1]) * 10 + DigitValue(d[|d| - 1])
  }

  /** The longest prefix of `s` made of digits. */
  function LeadingDigits(s: string): (d: string)
    ensures d <= s
    ensures forall i :: 0 <= i < |d| ==> IsDigit(d[i])
    ensures |d| < |s| ==> !IsDigit(s[|d|])
  {
    if |s| > 0 && IsDigit(s[0]) then [s[0]] + LeadingDigits(s[1..]) else []
  }

  function DropSpaces(s: string): (r: string)
    ensures |r| <= |s| && r == s[|s| - |r|..]
    ensures |r| > 0 ==> !IsSpace(r[0])
  {
    if |s| > 0 && IsSpace(s[0]) then DropSpaces(s[1..]) else s
  }

  /**
   * C's `atoi`: leading white space, an optional sign, then as many digits as
   * follow.  Overflow is not modelled.
   */
  function Atoi(s: string): int {
    var t := DropSpaces(s);
    if |t| > 0 && t[0] == '-' then 0 - DecimalValue(LeadingDigits(t[1..]))
    else if |t| > 0 && t[0] == '+' then DecimalValue(LeadingDigits(t[1..]))
    else DecimalValue(LeadingDigits(t))
  }

  // ---------------------------------------------------------------------------
  // Statements and declarations.

  /**
   * `si e alors B [sinon B] finsi`.  The leading `si` is consumed unseen; a failure
   * of any part fails the whole statement, so no partial node is ever built.
   */
  function ParseIf(g: Grammar, ts: seq<Token>): (r: Parsed)
    ensures r.node != Missing ==>
      && r.node.If? && r.node.condition != Missing && r.node.thenBranch != Missing
      && r.node.elseBranch != Some(Missing)
  {
    var cond := ParseExpression(Next(ts));
    if cond.node == Missing then Parsed(Missing, cond.rest)
    else match Expect(cond.rest, Alors)
    case None => Parsed(Missing, cond.rest)
    case Some(afterAlors) =>
      var thenPart := g.block(afterAlors);
      if thenPart.node == Missing then Parsed(Missing, thenPart.rest)
      else
        var elsePart :=
          if PeekKind(thenPart.rest) == Sinon then g.block(Next(thenPart.rest))
          else Parsed(Missing, thenPart.rest);
        if PeekKind(thenPart.rest) == Sinon && elsePart.node == Missing then
          Parsed(Missing, elsePart.rest)
        else match Expect(elsePart.rest, Finsi)
        case None => Parsed(Missing, elsePart.rest)
        case Some(after) => Parsed(MkIf(cond.node, thenPart.node, elsePart.node), after)
  }

  /**
   * `tantque e faire B finfaire`.  The leading `tantque` is consumed unseen; a
   * failure of any part fails the whole statement.
   */
  function ParseWhile(g: Grammar, ts: seq<Token>): (r: Parsed)
    ensures r.node != Missing ==>
      r.node.While? && r.node.condition != Missing && r.node.body != Missing
  {
    var cond := ParseExpression(Next(ts));
    if cond.node == Missing then Parsed(Missing, cond.rest)
    else match Expect(cond.rest, Faire)
    case None => Parsed(Missing, cond.rest)
    case Some(afterFaire) =>
      var body := g.block(afterFaire);
      if body.node == Missing then Parsed(Missing, body.rest)
      else match Expect(body.rest, Finfaire)
      case None => Parsed(Missing, body.rest)
      case Some(after) => Parsed(While(cond.node, body.node), after)
  }

  /** The kinds that open a variable declaration: the type names. */
  predicate StartsVariableDecl(k: TokenKind) {
    k == Entier || k == Reel || k == Chaine || k == Character || k == Booleen
  }

  /** The declaration parsers consume at least one token of a nonempty stream. */
  ghost predicate Progressive(g: Grammar) {
    forall ts: seq<Token> | |ts| > 0 ::
      |g.functionDecl(ts).rest| < |ts| && |g.variableDecl(ts).rest| < |ts|
  }

  /**
   * A declaration: a function after `debfonc`, a variable after a type name.
   * Anything else is a syntax error that skips exactly one token.
   */
  function ParseDeclaration(g: Grammar, ts: seq<Token>): (r: Parsed)
    requires Progressive(g)
    ensures |ts| > 0 ==> |r.rest| < |ts|
    ensures PeekKind(ts) != Debfonc && !StartsVariableDecl(PeekKind(ts)) ==>
      r == Parsed(Missing, Next(ts))
  {
    var k := PeekKind(ts);
    if k == Debfonc then g.functionDecl(ts)
    else if StartsVariableDecl(k) then g.variableDecl(ts)
    else Parsed(Missing, Next(ts))
  }

  /** The declarations up to the end-of-input token, keeping the ones that parsed. */
  function ParseDeclarations(g: Grammar, ts: seq<Token>): (ds: seq<Node>)
    requires Progressive(g)
    ensures Missing !in ds
    decreases |ts|
  {
    if PeekKind(ts) == Eof then []
    else
      var d := ParseDeclaration(g, ts);
      (if d.node == Missing then [] else [d.node]) + ParseDeclarations(g, d.rest)
  }

  /** The whole program: a program node holding every declaration that parsed, in order. */
  function ParseProgram(g: Grammar, ts: seq<Token>): (r: Node)
    requires Progressive(g)
    ensures r.Program? && Missing !in r.declarations
  {
    Program(ParseDeclarations(g, ts))
  }
}
