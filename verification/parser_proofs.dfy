/**
 * Properties of the parser: number conversion, precedence and associativity
 * (through a printer whose output the parser reads back), the statement forms,
 * and the declaration loop.
 */
module ParserProofs {
  import opened Wrappers
  import opened Tokens
  import opened Ast
  import opened Lexer
  import opened Parser

  // ---------------------------------------------------------------------------
  // Number tokens.

  function DigitChar(d: nat): (c: char)
    requires d < 10
    ensures IsDigit(c) && DigitValue(c) == d
  {
    ('0' as int + d) as char
  }

  /** The decimal spelling of a natural number, as the lexer would hand it to the parser. */
  function Decimal(n: nat): (d: string)
    ensures |d| > 0
    ensures forall i :: 0 <= i < |d| ==> IsDigit(d[i])
  {
    if n < 10 then [DigitChar(n)] else Decimal(n / 10) + [DigitChar(n % 10)]
  }

  lemma {:induction false} DecimalValueOfDecimal(n: nat)
    ensures DecimalValue(Decimal(n)) == n
  {
    if n >= 10 {
      var d := Decimal(n);
      assert d[..|d| - 1] == Decimal(n / 10);
      DecimalValueOfDecimal(n / 10);
    }
  }

  lemma {:induction false} LeadingDigitsOfDigits(d: string)
    requires forall i :: 0 <= i < |d| ==> IsDigit(d[i])
    ensures LeadingDigits(d) == d
  {
    if |d| > 0 {
      LeadingDigitsOfDigits(d[1..]);
      assert d == [d[0]] + d[1..];
    }
  }

  /** A nonempty run of digits converts to its decimal value. */
  lemma AtoiOfDigits(d: string)
    requires |d| > 0 && forall i :: 0 <= i < |d| ==> IsDigit(d[i])
    ensures Atoi(d) == DecimalValue(d)
  {
    assert !IsSpace(d[0]) && d[0] != '-' && d[0] != '+';
    assert DropSpaces(d) == d;
    LeadingDigitsOfDigits(d);
  }

  /** Converting the decimal spelling of a natural number gives the number back. */
  lemma AtoiDecimal(n: nat)
    ensures Atoi(Decimal(n)) == n
  {
    AtoiOfDigits(Decimal(n));
    DecimalValueOfDecimal(n);
  }

  // ---------------------------------------------------------------------------
  // A printer for expressions.

  /** A token as the lexer produces it; the parser reads only the kind and the text. */
  function Tok(k: TokenKind, text: string): Token {
    Token(k, Some(text), 1, 1)
  }

  /** How the lexer spells each operator. */
  function Spelling(k: TokenKind): string {
    match k
    case Asterisk => "*"
    case Slash => "/"
    case Mod => "mod"
    case Div => "div"
    case Et => "et"
    case Plus => "+"
    case Minus => "-"
    case Ou => "ou"
    case Less => "<"
    case Greater => ">"
    case LessEqual => "<="
    case GreaterEqual => ">="
    case Equal => "="
    case BangEqual => "!="
    case Non => "non"
    case _ => ""
  }

  /** The expressions the printer spells out: literals, variables, prefix and binary operators. */
  predicate Printable(e: Node) {
    || (e.Literal? && (e.lit.IntLit? ==> e.lit.value >= 0) && (e.lit.BoolLit? ==> e.lit.truth in {0, 1}))
    || e.Variable?
    || (e.Unary? && (e.op == Minus || e.op == Non) && Printable(e.operand))
    || (e.Binary? && TierOf(e.op) > 0 && Printable(e.left) && Printable(e.right))
  }

  /** The tier of an expression's outermost operator; 0 for operands and prefix operators. */
  function Level(e: Node): nat {
    if e.Binary? then TierOf(e.op) else 0
  }

  /**
   * Spells `e` so that it parses at tier `t`: parenthesised when its operator
   * binds more loosely than the tier allows, and with a right operand of the same
   * tier parenthesised, since every tier groups to the left.
   */
  function Show(e: Node, t: int): seq<Token>
    decreases e, if Level(e) > t then 1 else 0
  {
    if Level(e) > t then [Tok(LParen, "(")] + Show(e, 4) + [Tok(RParen, ")")]
    else match e
      case Literal(lit) => [LiteralToken(lit)]
      case Variable(x) => [Tok(Identifier, x)]
      case Unary(op, x) => [Tok(op, Spelling(op))] + Show(x, 0)
      case Binary(l, op, r) => Show(l, TierOf(op)) + [Tok(op, Spelling(op))] + Show(r, TierOf(op) - 1)
      case _ => []
  }

  /** The token a literal is read from. */
  function LiteralToken(lit: Literal): Token {
    match lit
    case IntLit(n) => Tok(Number, if n >= 0 then Decimal(n) else "")
    case StrLit(s) => Tok(StringLit, s)
    case CharLit(c) => Tok(Character, [c])
    case BoolLit(b) => if b == 1 then Tok(Vrai, "vrai") else Tok(Faux, "faux")
  }

  /** What may follow an expression parsed at tier `t`: no operator of tier `t` or below, and no `(`. */
  predicate EndsTier(rest: seq<Token>, t: nat) {
    PeekKind(rest) != LParen && (TierOf(PeekKind(rest)) == 0 || TierOf(PeekKind(rest)) > t)
  }

  /** The text of an expression spelled for tier `t`, once parsed from tier `t`, leaves the loop of tier `t` to go on. */
  lemma {:induction false} ShowParsesToTail(t: nat, e: Node, rest: seq<Token>)
    requires 1 <= t <= 4 && Printable(e) && EndsTier(rest, t - 1)
    ensures ParseTier(t, Show(e, t) + rest) == TierTail(t, e, rest)
    decreases e, (if Level(e) > t then 1 else 0), t, 1
  {
    if Level(e) == t {
      BinaryParsesToTail(t, e, rest);
    } else {
      OperandParsesToTail(t, t - 1, e, rest);
    }
  }

  /** The case of an operand of another tier, read by the tier `below` it. */
  lemma {:induction false} OperandParsesToTail(t: nat, below: nat, e: Node, rest: seq<Token>)
    requires 1 <= t <= 4 && below == t - 1 && Printable(e) && Level(e) != t && EndsTier(rest, below)
    ensures ParseTier(t, Show(e, t) + rest) == TierTail(t, e, rest)
    decreases e, (if Level(e) > t then 1 else 0), t, 0
  {
    ShowParsesAt(below, e, rest);
    OperandReachesTail(t, below, e, rest);
  }

  /** The case of an operator of the tier itself, by induction on both operands. */
  lemma {:induction false} BinaryParsesToTail(t: nat, e: Node, rest: seq<Token>)
    requires 1 <= t <= 4 && Printable(e) && Level(e) == t && EndsTier(rest, t - 1)
    ensures ParseTier(t, Show(e, t) + rest) == TierTail(t, e, rest)
    decreases e, 0, t, 0
  {
    assert e.Binary? && TierOf(e.op) == t && Printable(e.left) && Printable(e.right);
    var tail := [Tok(e.op, Spelling(e.op))] + (Show(e.right, t - 1) + rest);
    LeadingToken(Tok(e.op, Spelling(e.op)), Show(e.right, t - 1) + rest);
    assert EndsTier(tail, t - 1);
    ShowParsesToTail(t, e.left, tail);
    ShowParsesAt(t - 1, e.right, rest);
    BinaryReachesTail(t, e, rest);
  }

  /** The inductive step for an operator of the tier itself: the left operand's loop takes the right operand. */
  lemma BinaryReachesTail(t: nat, e: Node, rest: seq<Token>)
    requires 1 <= t <= 4 && Printable(e) && Level(e) == t
    requires var tail := [Tok(e.op, Spelling(e.op))] + (Show(e.right, t - 1) + rest);
      ParseTier(t, Show(e.left, t) + tail) == TierTail(t, e.left, tail)
    requires ParseTier(t - 1, Show(e.right, t - 1) + rest) == Parsed(e.right, rest)
    ensures ParseTier(t, Show(e, t) + rest) == TierTail(t, e, rest)
  {
    ShowBinary(e, t, rest);
    TailTakesOperand(t, e.left, e.op, Show(e.right, t - 1) + rest);
  }

  /** The inductive step for an operand of a tighter tier: it is read by the tier below. */
  lemma OperandReachesTail(t: nat, below: nat, e: Node, rest: seq<Token>)
    requires 1 <= t <= 4 && below == t - 1 && Printable(e) && Level(e) != t
    requires ParseTier(below, Show(e, below) + rest) == Parsed(e, rest)
    ensures ParseTier(t, Show(e, t) + rest) == TierTail(t, e, rest)
  {
    ShowBelow(e, t);
    TierStep(t, Show(e, t) + rest);
  }

  lemma TierStep(t: nat, ts: seq<Token>)
    requires 1 <= t <= 4
    ensures ParseTier(t, ts) == TierTail(t, ParseTier(t - 1, ts).node, ParseTier(t - 1, ts).rest)
  {
  }

  lemma ShowBinary(e: Node, t: nat, rest: seq<Token>)
    requires 1 <= t <= 4 && Printable(e) && Level(e) == t
    ensures Show(e, t) + rest
      == Show(e.left, t) + ([Tok(e.op, Spelling(e.op))] + (Show(e.right, t - 1) + rest))
  {
    ShowOperator(e, t);
    Regroup(Show(e.left, t), [Tok(e.op, Spelling(e.op))], Show(e.right, t - 1), rest);
  }

  lemma Regroup(w: seq<Token>, x: seq<Token>, y: seq<Token>, z: seq<Token>)
    ensures w + x + y + z == w + (x + (y + z))
  {
  }

  lemma Assoc(x: seq<Token>, y: seq<Token>, z: seq<Token>)
    ensures x + y + z == x + (y + z)
  {
  }

  lemma ShowBelow(e: Node, t: nat)
    requires 1 <= t <= 4 && Printable(e) && Level(e) != t
    ensures Show(e, t) == Show(e, t - 1)
  {
  }

  // Single steps of the parser, each under the condition that selects it.

  lemma LeadingToken(tok: Token, rest: seq<Token>)
    ensures Peek([tok] + rest) == tok && Next([tok] + rest) == rest
  {
    assert ([tok] + rest)[1..] == rest;
  }

  lemma UnaryIsPrimary(ts: seq<Token>)
    requires PeekKind(ts) != Minus && PeekKind(ts) != Non
    ensures ParseUnary(ts) == ParsePrimary(ts)
  {
  }

  lemma NumberIsPrimary(tok: Token, rest: seq<Token>)
    requires tok.kind == Number
    ensures ParseUnary([tok] + rest) == Parsed(Literal(IntLit(Atoi(TextOf(tok)))), rest)
  {
    LeadingToken(tok, rest);
    UnaryIsPrimary([tok] + rest);
  }

  lemma IntLiteralParses(n: nat, rest: seq<Token>)
    ensures ParseUnary([Tok(Number, Decimal(n))] + rest) == Parsed(Literal(IntLit(n)), rest)
  {
    NumberIsPrimary(Tok(Number, Decimal(n)), rest);
    AtoiDecimal(n);
  }

  lemma OtherLiteralParses(lit: Literal, rest: seq<Token>)
    requires !lit.IntLit? && (lit.BoolLit? ==> lit.truth == 0 || lit.truth == 1)
    ensures ParseUnary([LiteralToken(lit)] + rest) == Parsed(Literal(lit), rest)
  {
    LeadingToken(LiteralToken(lit), rest);
    UnaryIsPrimary([LiteralToken(lit)] + rest);
  }

  lemma VariableParses(x: string, rest: seq<Token>)
    requires PeekKind(rest) != LParen
    ensures ParseUnary([Tok(Identifier, x)] + rest) == Parsed(Variable(x), rest)
  {
    LeadingToken(Tok(Identifier, x), rest);
    UnaryIsPrimary([Tok(Identifier, x)] + rest);
  }

  lemma PrefixParses(op: TokenKind, ts: seq<Token>)
    requires op == Minus || op == Non
    ensures ParseUnary([Tok(op, Spelling(op))] + ts)
      == Parsed(Unary(op, ParseUnary(ts).node), ParseUnary(ts).rest)
  {
    LeadingToken(Tok(op, Spelling(op)), ts);
  }

  /** An expression spelled inside parentheses is read back once the inside is. */
  lemma ParenthesesParse(e: Node, rest: seq<Token>)
    requires Level(e) > 0
    requires ParseTier(4, Show(e, 4) + ([Tok(RParen, ")")] + rest)) == Parsed(e, [Tok(RParen, ")")] + rest)
    ensures ParseUnary(Show(e, 0) + rest) == Parsed(e, rest)
  {
    var close := [Tok(RParen, ")")] + rest;
    Assoc([Tok(LParen, "(")] + Show(e, 4), [Tok(RParen, ")")], rest);
    Assoc([Tok(LParen, "(")], Show(e, 4), close);
    ParenthesisedParses(Show(e, 4) + close, e, rest);
  }

  lemma ParenthesisedParses(ts: seq<Token>, e: Node, rest: seq<Token>)
    requires ParseExpression(ts) == Parsed(e, [Tok(RParen, ")")] + rest)
    ensures ParseUnary([Tok(LParen, "(")] + ts) == Parsed(e, rest)
  {
    LeadingToken(Tok(LParen, "("), ts);
    LeadingToken(Tok(RParen, ")"), rest);
    UnaryIsPrimary([Tok(LParen, "(")] + ts);
  }

  /** `nil` reads as the integer literal 0. */
  lemma NilParses(rest: seq<Token>)
    ensures ParseUnary([Tok(Nil, "nil")] + rest) == Parsed(Literal(IntLit(0)), rest)
  {
    LeadingToken(Tok(Nil, "nil"), rest);
    UnaryIsPrimary([Tok(Nil, "nil")] + rest);
  }

  /** A parenthesised expression with no `)` after it fails where the `)` was expected. */
  lemma UnclosedParenthesisFails(ts: seq<Token>)
    requires PeekKind(ParseExpression(ts).rest) != RParen
    ensures ParseUnary([Tok(LParen, "(")] + ts) == Parsed(Missing, ParseExpression(ts).rest)
  {
    LeadingToken(Tok(LParen, "("), ts);
    UnaryIsPrimary([Tok(LParen, "(")] + ts);
  }

  /** A name followed by an empty argument list reads as a call of that name. */
  lemma EmptyCallParses(name: string, rest: seq<Token>)
    ensures ParseUnary([Tok(Identifier, name)] + ([Tok(LParen, "(")] + ([Tok(RParen, ")")] + rest)))
      == Parsed(Call(name), rest)
  {
    var close := [Tok(RParen, ")")] + rest;
    var open := [Tok(LParen, "(")] + close;
    LeadingToken(Tok(Identifier, name), open);
    LeadingToken(Tok(LParen, "("), close);
    LeadingToken(Tok(RParen, ")"), rest);
    UnaryIsPrimary([Tok(Identifier, name)] + open);
  }

  lemma TailTakesOperand(t: nat, left: Node, op: TokenKind, ts: seq<Token>)
    requires 1 <= t <= 4 && TierOf(op) == t
    ensures TierTail(t, left, [Tok(op, Spelling(op))] + ts)
      == TierTail(t, Binary(left, op, ParseTier(t - 1, ts).node), ParseTier(t - 1, ts).rest)
  {
    assert ([Tok(op, Spelling(op))] + ts)[1..] == ts;
  }

  // The round trip, by induction on the expression and the tier.

  /** The text of an expression spelled for the prefix level parses back, from that level, to the expression. */
  lemma {:induction false} ShowParsesUnary(e: Node, rest: seq<Token>)
    requires Printable(e) && EndsTier(rest, 0)
    ensures ParseUnary(Show(e, 0) + rest) == Parsed(e, rest)
    decreases e, (if Level(e) > 0 then 1 else 0), 0, 1
  {
    if Level(e) > 0 {
      var close := [Tok(RParen, ")")] + rest;
      ShowParsesAt(4, e, close);
      ParenthesesParse(e, rest);
    } else if e.Literal? {
      LiteralShowParses(e, rest);
    } else if e.Variable? {
      VariableShowParses(e, rest);
    } else {
      ShowParsesUnary(e.operand, rest);
      PrefixShowParses(e, rest);
    }
  }

  lemma LiteralShowParses(e: Node, rest: seq<Token>)
    requires e.Literal? && Printable(e)
    ensures ParseUnary(Show(e, 0) + rest) == Parsed(e, rest)
  {
    LiteralShows(e);
    LiteralTokenParses(e.lit, rest);
  }

  lemma LiteralShows(e: Node)
    requires e.Literal?
    ensures Show(e, 0) == [LiteralToken(e.lit)] && e == Literal(e.lit)
  {
  }

  lemma LiteralTokenParses(lit: Literal, rest: seq<Token>)
    requires Printable(Literal(lit))
    ensures ParseUnary([LiteralToken(lit)] + rest) == Parsed(Literal(lit), rest)
  {
    if lit.IntLit? {
      assert LiteralToken(lit) == Tok(Number, Decimal(lit.value));
      IntLiteralParses(lit.value, rest);
    } else {
      OtherLiteralParses(lit, rest);
    }
  }

  lemma VariableShowParses(e: Node, rest: seq<Token>)
    requires e.Variable? && EndsTier(rest, 0)
    ensures ParseUnary(Show(e, 0) + rest) == Parsed(e, rest)
  {
    VariableParses(e.name, rest);
  }

  lemma PrefixShowParses(e: Node, rest: seq<Token>)
    requires e.Unary? && (e.op == Minus || e.op == Non)
    requires ParseUnary(Show(e.operand, 0) + rest) == Parsed(e.operand, rest)
    ensures ParseUnary(Show(e, 0) + rest) == Parsed(e, rest)
  {
    Assoc([Tok(e.op, Spelling(e.op))], Show(e.operand, 0), rest);
    PrefixParses(e.op, Show(e.operand, 0) + rest);
  }

  /** The text of an expression spelled for tier `t` parses back, from tier `t`, to the expression. */
  lemma {:induction false} ShowParsesAt(t: nat, e: Node, rest: seq<Token>)
    requires t <= 4 && Printable(e) && EndsTier(rest, t)
    ensures ParseTier(t, Show(e, t) + rest) == Parsed(e, rest)
    decreases e, (if Level(e) > t then 1 else 0), t, 2
  {
    if t == 0 {
      ShowParsesUnary(e, rest);
    } else {
      ShowParsesToTail(t, e, rest);
    }
  }

  /**
   * Printing then parsing is the identity: every printable expression is read
   * back from its spelling, whatever non-operator token follows it.
   */
  lemma ParseShow(e: Node, rest: seq<Token>)
    requires Printable(e) && EndsTier(rest, 4)
    ensures ParseExpression(Show(e, 4) + rest) == Parsed(e, rest)
  {
    ShowParsesAt(4, e, rest);
  }

  function Num(n: nat): Node {
    Literal(IntLit(n))
  }

  /** An operand of a binary operator: a printable expression with no binary operator outside parentheses. */
  predicate Operand(x: Node) {
    Printable(x) && Level(x) == 0
  }

  /** Three operands and two binary operators, spelled one after the other. */
  function Chain(x: Node, op1: TokenKind, y: Node, op2: TokenKind, z: Node): seq<Token>
    requires Operand(x) && Operand(y) && Operand(z)
  {
    Show(x, 0) + [Tok(op1, Spelling(op1))] + Show(y, 0) + [Tok(op2, Spelling(op2))] + Show(z, 0)
  }

  /**
   * Three operands and two binary operators: the tighter tier groups first, and
   * operators of one tier group to the left.
   */
  lemma PrecedenceAndAssociativity(x: Node, op1: TokenKind, y: Node, op2: TokenKind, z: Node)
    requires Operand(x) && Operand(y) && Operand(z) && TierOf(op1) > 0 && TierOf(op2) > 0
    ensures ParseExpression(Chain(x, op1, y, op2, z))
      == Parsed(if TierOf(op1) <= TierOf(op2) then Binary(Binary(x, op1, y), op2, z)
                else Binary(x, op1, Binary(y, op2, z)), [])
  {
    if TierOf(op1) <= TierOf(op2) {
      LeftGrouping(x, op1, y, op2, z);
    } else {
      RightGrouping(x, op1, y, op2, z);
    }
  }

  lemma LeftGrouping(x: Node, op1: TokenKind, y: Node, op2: TokenKind, z: Node)
    requires Operand(x) && Operand(y) && Operand(z) && 0 < TierOf(op1) <= TierOf(op2)
    ensures ParseExpression(Chain(x, op1, y, op2, z)) == Parsed(Binary(Binary(x, op1, y), op2, z), [])
  {
    var e := Binary(Binary(x, op1, y), op2, z);
    SpellLeftNested(x, op1, y, op2, z);
    ParseShow(e, []);
    assert Show(e, 4) + [] == Show(e, 4);
  }

  lemma RightGrouping(x: Node, op1: TokenKind, y: Node, op2: TokenKind, z: Node)
    requires Operand(x) && Operand(y) && Operand(z) && 0 < TierOf(op2) < TierOf(op1)
    ensures ParseExpression(Chain(x, op1, y, op2, z)) == Parsed(Binary(x, op1, Binary(y, op2, z)), [])
  {
    var e := Binary(x, op1, Binary(y, op2, z));
    SpellRightNested(x, op1, y, op2, z);
    ParseShow(e, []);
    assert Show(e, 4) + [] == Show(e, 4);
  }

  /** An operand is spelled the same at every tier. */
  lemma ShowOperand(x: Node, t: nat)
    requires Operand(x) && t <= 4
    ensures Show(x, t) == Show(x, 0)
  {
  }

  lemma SpellLeftNested(x: Node, op1: TokenKind, y: Node, op2: TokenKind, z: Node)
    requires Operand(x) && Operand(y) && Operand(z) && 0 < TierOf(op1) <= TierOf(op2)
    ensures Printable(Binary(Binary(x, op1, y), op2, z))
    ensures Show(Binary(Binary(x, op1, y), op2, z), 4) == Chain(x, op1, y, op2, z)
  {
    ShowOperand(x, TierOf(op1));
    ShowOperand(y, TierOf(op1) - 1);
    ShowOperand(z, TierOf(op2) - 1);
    ShowJoined(x, op1, y, TierOf(op2));
    ShowJoined(Binary(x, op1, y), op2, z, 4);
  }

  lemma SpellRightNested(x: Node, op1: TokenKind, y: Node, op2: TokenKind, z: Node)
    requires Operand(x) && Operand(y) && Operand(z) && 0 < TierOf(op2) < TierOf(op1)
    ensures Printable(Binary(x, op1, Binary(y, op2, z)))
    ensures Show(Binary(x, op1, Binary(y, op2, z)), 4) == Chain(x, op1, y, op2, z)
  {
    var inner := Binary(y, op2, z);
    var sx, sy, sz := Show(x, 0), Show(y, 0), Show(z, 0);
    var t1, t2 := [Tok(op1, Spelling(op1))], [Tok(op2, Spelling(op2))];
    ShowOperand(y, TierOf(op2));
    ShowOperand(z, TierOf(op2) - 1);
    ShowJoined(y, op2, z, TierOf(op1) - 1);
    assert Show(inner, TierOf(op1) - 1) == sy + t2 + sz;
    ShowOperand(x, TierOf(op1));
    ShowJoined(x, op1, inner, 4);
    assert Show(Binary(x, op1, inner), 4) == sx + t1 + (sy + t2 + sz);
    assert sx + t1 + (sy + t2 + sz) == sx + t1 + sy + t2 + sz;
  }

  /** A binary expression that needs no parentheses at tier `t` is spelled operand, operator, operand. */
  lemma ShowOperator(e: Node, t: nat)
    requires t <= 4 && Printable(e) && e.Binary? && Level(e) <= t
    ensures Show(e, t) == Show(e.left, TierOf(e.op)) + [Tok(e.op, Spelling(e.op))] + Show(e.right, TierOf(e.op) - 1)
  {
  }

  /** The same, for an expression put together from its operator and operands. */
  lemma ShowJoined(l: Node, op: TokenKind, r: Node, t: nat)
    requires Printable(l) && Printable(r) && 0 < TierOf(op) <= t <= 4
    ensures Printable(Binary(l, op, r))
    ensures Show(Binary(l, op, r), t) == Show(l, TierOf(op)) + [Tok(op, Spelling(op))] + Show(r, TierOf(op) - 1)
  {
    ShowOperator(Binary(l, op, r), t);
  }

  /** A number is an operand spelled as its decimal digits. */
  lemma NumShows(n: nat)
    ensures Operand(Num(n)) && Show(Num(n), 0) == [Tok(Number, Decimal(n))]
  {
  }

  /** `2 + 3 * 4` is `2 + (3 * 4)`. */
  lemma TimesBindsTighterThanPlus()
    ensures ParseExpression([Tok(Number, "2"), Tok(Plus, "+"), Tok(Number, "3"),
                             Tok(Asterisk, "*"), Tok(Number, "4")]).node
      == Binary(Num(2), Plus, Binary(Num(3), Asterisk, Num(4)))
  {
    NumberChain(2, Plus, 3, Asterisk, 4);
    PrecedenceAndAssociativity(Num(2), Plus, Num(3), Asterisk, Num(4));
    assert Decimal(2) == "2" && Decimal(3) == "3" && Decimal(4) == "4";
  }

  /** `1 - 2 - 3` is `(1 - 2) - 3`. */
  lemma MinusGroupsToTheLeft()
    ensures ParseExpression([Tok(Number, "1"), Tok(Minus, "-"), Tok(Number, "2"),
                             Tok(Minus, "-"), Tok(Number, "3")]).node
      == Binary(Binary(Num(1), Minus, Num(2)), Minus, Num(3))
  {
    NumberChain(1, Minus, 2, Minus, 3);
    PrecedenceAndAssociativity(Num(1), Minus, Num(2), Minus, Num(3));
    assert Decimal(1) == "1" && Decimal(2) == "2" && Decimal(3) == "3";
  }

  lemma NumberChain(a: nat, op1: TokenKind, b: nat, op2: TokenKind, c: nat)
    ensures Operand(Num(a)) && Operand(Num(b)) && Operand(Num(c))
    ensures Chain(Num(a), op1, Num(b), op2, Num(c))
      == [Tok(Number, Decimal(a)), Tok(op1, Spelling(op1)), Tok(Number, Decimal(b)),
          Tok(op2, Spelling(op2)), Tok(Number, Decimal(c))]
  {
    NumShows(a);
    NumShows(b);
    NumShows(c);
  }

  // ---------------------------------------------------------------------------
  // Statements and the program.

  /** The condition after a statement's leading keyword parses back to itself. */
  lemma ConditionParses(lead: Token, c: Node, tail: seq<Token>)
    requires Printable(c) && EndsTier(tail, 4)
    ensures ParseExpression(Next([lead] + Show(c, 4) + tail)) == Parsed(c, tail)
  {
    LeadingToken(lead, Show(c, 4) + tail);
    Assoc([lead], Show(c, 4), tail);
    ParseShow(c, tail);
  }

  /** A statement's leading keyword, its condition and the keyword after it: the condition parses and stops at that keyword. */
  lemma KeywordAfterCondition(lead: Token, c: Node, kw: Token, bt: seq<Token>)
    requires Printable(c) && kw.kind != LParen && TierOf(kw.kind) == 0
    ensures ParseExpression(Next([lead] + Show(c, 4) + [kw] + bt)) == Parsed(c, [kw] + bt)
    ensures Expect([kw] + bt, kw.kind) == Some(bt)
  {
    LeadingToken(kw, bt);
    Assoc([lead] + Show(c, 4), [kw], bt);
    ConditionParses(lead, c, [kw] + bt);
  }

  /** The condition of `si e alors`, read up to `alors`. */
  lemma AlorsAfterCondition(c: Node, bt: seq<Token>)
    requires Printable(c)
    ensures ParseExpression(Next([Tok(Si, "si")] + Show(c, 4) + [Tok(Alors, "alors")] + bt))
      == Parsed(c, [Tok(Alors, "alors")] + bt)
  {
    KeywordAfterCondition(Tok(Si, "si"), c, Tok(Alors, "alors"), bt);
  }

  /** The condition of `tantque e faire`, read up to `faire`. */
  lemma FaireAfterCondition(c: Node, bt: seq<Token>)
    requires Printable(c)
    ensures ParseExpression(Next([Tok(Tantque, "tantque")] + Show(c, 4) + [Tok(Faire, "faire")] + bt))
      == Parsed(c, [Tok(Faire, "faire")] + bt)
  {
    KeywordAfterCondition(Tok(Tantque, "tantque"), c, Tok(Faire, "faire"), bt);
  }

  /** `si e alors B finsi` parses to an if-node with no else-branch, whatever the block parser builds. */
  lemma IfParses(g: Grammar, c: Node, bt: seq<Token>)
    requires Printable(c)
    requires g.block(bt).node != Missing && PeekKind(g.block(bt).rest) == Finsi
    ensures ParseIf(g, [Tok(Si, "si")] + Show(c, 4) + [Tok(Alors, "alors")] + bt)
      == Parsed(If(c, g.block(bt).node, None), Next(g.block(bt).rest))
  {
    AlorsAfterCondition(c, bt);
    IfAfterCondition(g, [Tok(Si, "si")] + Show(c, 4) + [Tok(Alors, "alors")] + bt, c, bt);
  }

  /** `si e alors B1 sinon B2 finsi` parses to an if-node holding both branches. */
  lemma IfElseParses(g: Grammar, c: Node, bt: seq<Token>)
    requires Printable(c)
    requires g.block(bt).node != Missing && PeekKind(g.block(bt).rest) == Sinon
    requires g.block(Next(g.block(bt).rest)).node != Missing
    requires PeekKind(g.block(Next(g.block(bt).rest)).rest) == Finsi
    ensures var e := g.block(Next(g.block(bt).rest));
      ParseIf(g, [Tok(Si, "si")] + Show(c, 4) + [Tok(Alors, "alors")] + bt)
        == Parsed(If(c, g.block(bt).node, Some(e.node)), Next(e.rest))
  {
    AlorsAfterCondition(c, bt);
    IfElseAfterCondition(g, [Tok(Si, "si")] + Show(c, 4) + [Tok(Alors, "alors")] + bt, c, bt);
  }

  /** The blocks of an if-statement, once its condition has been read up to `alors`. */
  lemma IfAfterCondition(g: Grammar, ts: seq<Token>, c: Node, bt: seq<Token>)
    requires c != Missing && ParseExpression(Next(ts)) == Parsed(c, [Tok(Alors, "alors")] + bt)
    requires g.block(bt).node != Missing && PeekKind(g.block(bt).rest) == Finsi
    ensures ParseIf(g, ts) == Parsed(If(c, g.block(bt).node, None), Next(g.block(bt).rest))
  {
    LeadingToken(Tok(Alors, "alors"), bt);
    assert FromNullable(Missing) == None;
  }

  lemma IfElseAfterCondition(g: Grammar, ts: seq<Token>, c: Node, bt: seq<Token>)
    requires c != Missing && ParseExpression(Next(ts)) == Parsed(c, [Tok(Alors, "alors")] + bt)
    requires g.block(bt).node != Missing && PeekKind(g.block(bt).rest) == Sinon
    requires g.block(Next(g.block(bt).rest)).node != Missing
    requires PeekKind(g.block(Next(g.block(bt).rest)).rest) == Finsi
    ensures var e := g.block(Next(g.block(bt).rest));
      ParseIf(g, ts) == Parsed(If(c, g.block(bt).node, Some(e.node)), Next(e.rest))
  {
    LeadingToken(Tok(Alors, "alors"), bt);
  }

  /** An if-statement whose condition is not followed by `alors` fails without consuming anything after the condition. */
  lemma IfNeedsAlors(g: Grammar, c: Node, rest: seq<Token>)
    requires Printable(c) && EndsTier(rest, 4) && PeekKind(rest) != Alors
    ensures ParseIf(g, [Tok(Si, "si")] + Show(c, 4) + rest) == Parsed(Missing, rest)
  {
    ConditionParses(Tok(Si, "si"), c, rest);
  }

  /** `tantque e faire B finfaire` parses to a while-node, whatever the block parser builds. */
  lemma WhileParses(g: Grammar, c: Node, bt: seq<Token>)
    requires Printable(c)
    requires g.block(bt).node != Missing && PeekKind(g.block(bt).rest) == Finfaire
    ensures ParseWhile(g, [Tok(Tantque, "tantque")] + Show(c, 4) + [Tok(Faire, "faire")] + bt)
      == Parsed(While(c, g.block(bt).node), Next(g.block(bt).rest))
  {
    FaireAfterCondition(c, bt);
    WhileAfterCondition(g, [Tok(Tantque, "tantque")] + Show(c, 4) + [Tok(Faire, "faire")] + bt, c, bt);
  }

  /** A while-statement whose body is not closed by `finfaire` fails. */
  lemma WhileNeedsFinfaire(g: Grammar, c: Node, bt: seq<Token>)
    requires Printable(c) && PeekKind(g.block(bt).rest) != Finfaire
    ensures ParseWhile(g, [Tok(Tantque, "tantque")] + Show(c, 4) + [Tok(Faire, "faire")] + bt).node == Missing
  {
    FaireAfterCondition(c, bt);
    WhileAfterCondition(g, [Tok(Tantque, "tantque")] + Show(c, 4) + [Tok(Faire, "faire")] + bt, c, bt);
  }

  /** The body of a while-statement, once its condition has been read up to `faire`. */
  lemma WhileAfterCondition(g: Grammar, ts: seq<Token>, c: Node, bt: seq<Token>)
    requires c != Missing && ParseExpression(Next(ts)) == Parsed(c, [Tok(Faire, "faire")] + bt)
    ensures ParseWhile(g, ts).node != Missing <==>
      g.block(bt).node != Missing && PeekKind(g.block(bt).rest) == Finfaire
    ensures ParseWhile(g, ts).node != Missing ==>
      ParseWhile(g, ts) == Parsed(While(c, g.block(bt).node), Next(g.block(bt).rest))
  {
    LeadingToken(Tok(Faire, "faire"), bt);
  }

  /** A token that opens no declaration is skipped: the program parses as if it were absent. */
  lemma JunkIsSkipped(g: Grammar, ts: seq<Token>)
    requires Progressive(g) && |ts| > 0
    requires ts[0].kind != Eof && ts[0].kind != Debfonc && !StartsVariableDecl(ts[0].kind)
    ensures ParseProgram(g, ts) == ParseProgram(g, ts[1..])
  {
    assert PeekKind(ts) == ts[0].kind && Next(ts) == ts[1..];
    var d := ParseDeclaration(g, ts);
    assert d == Parsed(Missing, ts[1..]);
    assert ParseDeclarations(g, ts) == [] + ParseDeclarations(g, d.rest);
  }

  /** The declarations of a program come in the order of the text: the first one parsed leads. */
  lemma FirstDeclarationLeads(g: Grammar, ts: seq<Token>)
    requires Progressive(g) && PeekKind(ts) != Eof
    requires ParseDeclaration(g, ts).node != Missing
    ensures ParseProgram(g, ts).declarations
      == [ParseDeclaration(g, ts).node] + ParseDeclarations(g, ParseDeclaration(g, ts).rest)
  {
  }
}
