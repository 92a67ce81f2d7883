/**
 * The pull-based lexer: a cursor over the source text that hands out one token
 * per call.  Every operation is a pure function from one cursor to the next.
 */
module Lexer {
  import opened Wrappers
  import opened Tokens

  /** The lexer's cursor: the text, the index of the next unread character, and its line and column. */
  datatype LexerState = LexerState(source: string, position: nat, line: int, column: int)

  /** The two fatal errors, with the cursor's line and column when the lexer gave up. */
  datatype LexError =
    | UnterminatedString(line: int, column: int)
    | UnexpectedCharacter(line: int, column: int)

  /** A fresh cursor at line 1, column 1. */
  function Init(source: string): LexerState {
    LexerState(source, 0, 1, 1)
  }

  /** The cursor stands inside the text or on its terminator. */
  predicate Valid(lx: LexerState) {
    lx.position <= |lx.source|
  }

  /** The character under the cursor; past the end this is the terminating '\0'. */
  function Current(lx: LexerState): char {
    if lx.position < |lx.source| then lx.source[lx.position] else '\0'
  }

  /** The text holds no '\0', as every C string does before its terminator. */
  predicate NoNul(s: string) {
    forall i :: 0 <= i < |s| ==> s[i] != '\0'
  }

  // Character classes of <ctype.h> in the C locale.

  predicate IsSpace(c: char) {
    c == ' ' || c == '\t' || c == '\n' || c == '\r' || c as int == 11 || c as int == 12
  }

  predicate IsDigit(c: char) {
    '0' <= c <= '9'
  }

  predicate IsAlpha(c: char) {
    'a' <= c <= 'z' || 'A' <= c <= 'Z'
  }

  predicate IsIdentStart(c: char) {
    IsAlpha(c) || c == '_'
  }

  predicate IsIdentChar(c: char) {
    IsAlpha(c) || IsDigit(c) || c == '_'
  }

  /** Moves past the current character, keeping line and column in step with it. */
  function Advance(lx: LexerState): (r: LexerState)
    ensures r.source == lx.source && r.position == lx.position + 1
    ensures Current(lx) == '\n' ==> r.line == lx.line + 1 && r.column == 1
    ensures Current(lx) != '\n' ==> r.line == lx.line && r.column == lx.column + 1
  {
    if Current(lx) == '\n' then
      lx.(position := lx.position + 1, line := lx.line + 1, column := 1)
    else
      lx.(position := lx.position + 1, column := lx.column + 1)
  }

  /**
   * Advances over the longest run of characters satisfying `p`, stopping at the
   * terminator.  The loops of `skip_whitespace`, `parse_identifier`,
   * `parse_number` and `parse_string` are all this loop.
   */
  function AdvanceWhile(lx: LexerState, p: char -> bool): (r: LexerState)
    ensures r.source == lx.source && lx.position <= r.position
    ensures lx.position <= |lx.source| ==> r.position <= |lx.source|
    ensures forall i :: lx.position <= i < r.position ==>
              i < |lx.source| && lx.source[i] != '\0' && p(lx.source[i])
    ensures Current(r) == '\0' || !p(Current(r))
    ensures Current(lx) != '\0' && p(Current(lx)) ==> lx.position < r.position
    ensures (forall i :: lx.position <= i < r.position && i < |lx.source| ==> lx.source[i] != '\n') ==>
              r.line == lx.line && r.column == lx.column + (r.position - lx.position)
    decreases |lx.source| - lx.position
  {
    if Current(lx) != '\0' && p(Current(lx)) then AdvanceWhile(Advance(lx), p) else lx
  }

  /** Skips a run of white space. */
  function SkipWhitespace(lx: LexerState): (r: LexerState)
    ensures r.source == lx.source && lx.position <= r.position
    ensures lx.position <= |lx.source| ==> r.position <= |lx.source|
    ensures !IsSpace(Current(r))
    ensures forall i :: lx.position <= i < r.position ==> i < |lx.source| && IsSpace(lx.source[i])
  {
    AdvanceWhile(lx, IsSpace)
  }

  /** The reserved words, each with its dedicated token kind. */
  const Keywords: map<string, TokenKind> := map[
    "debfonc" := Debfonc, "finfonc" := Finfonc, "faire" := Faire, "finfaire" := Finfaire,
    "si" := Si, "alors" := Alors, "sinon" := Sinon, "finsi" := Finsi,
    "tantque" := Tantque, "pour" := Pour, "haut" := Haut, "bas" := Bas,
    "et" := Et, "ou" := Ou, "non" := Non, "div" := Div, "mod" := Mod,
    "retourner" := Retourner, "structure" := Structure, "type" := TypeKw,
    "vide" := Vide, "chaine" := Chaine, "caractere" := Character, "entier" := Entier,
    "reel" := Reel, "booleen" := Booleen, "vrai" := Vrai, "faux" := Faux, "nil" := Nil,
    "d" := D, "r" := R, "dr" := Dr
  ]

  /**
   * Classifies a word: a reserved word gets its own kind, anything else is an identifier.
   * The source tests the reserved words one after the other; as they are all distinct,
   * the first match is the table entry.
   */
  function CheckKeyword(word: string): (k: TokenKind)
    ensures k != Eof
    ensures k == Identifier <==> word !in Keywords
  {
    if word in Keywords then Keywords[word] else Identifier
  }

  /** Lexes a word: the longest run of letters, digits and '_' from the cursor. */
  function LexIdentifier(lx: LexerState): (r: (Token, LexerState))
    requires Valid(lx)
    ensures var (t, next) := r;
      && next.source == lx.source && Valid(next) && lx.position <= next.position
      && (forall i :: lx.position <= i < next.position ==> IsIdentChar(lx.source[i]))
      && !IsIdentChar(Current(next))
      && (IsIdentChar(Current(lx)) ==> lx.position < next.position)
      && t.text == Some(lx.source[lx.position..next.position])
      && t.kind == CheckKeyword(lx.source[lx.position..next.position])
      && t.line == lx.line && t.column == lx.column
      && next.line == lx.line && next.column == lx.column + (next.position - lx.position)
  {
    var next := AdvanceWhile(lx, IsIdentChar);
    var word := lx.source[lx.position..next.position];
    (Token(CheckKeyword(word), Some(word), next.line, lx.column), next)
  }

  /** Lexes a number: the longest run of decimal digits from the cursor. */
  function LexNumber(lx: LexerState): (r: (Token, LexerState))
    requires Valid(lx)
    ensures var (t, next) := r;
      && next.source == lx.source && Valid(next) && lx.position <= next.position
      && (forall i :: lx.position <= i < next.position ==> IsDigit(lx.source[i]))
      && !IsDigit(Current(next))
      && (IsDigit(Current(lx)) ==> lx.position < next.position)
      && t.kind == Number && t.text == Some(lx.source[lx.position..next.position])
      && t.line == lx.line && t.column == lx.column
      && next.line == lx.line && next.column == lx.column + (next.position - lx.position)
  {
    var next := AdvanceWhile(lx, IsDigit);
    (Token(Number, Some(lx.source[lx.position..next.position]), next.line, lx.column), next)
  }

  /** Any character but the closing quote of a string literal. */
  predicate NotQuote(c: char) {
    c != '"'
  }

  /**
   * Lexes a string literal: everything strictly between the opening quote under
   * the cursor and the next '"', taken verbatim.  Reaching the end first is fatal.
   */
  function LexString(lx: LexerState): (r: Result<(Token, LexerState), LexError>)
    requires Valid(lx) && Current(lx) == '"'
    ensures r.Success? ==> var (t, next) := r.value;
      && next.source == lx.source && Valid(next) && lx.position + 2 <= next.position
      && lx.source[next.position - 1] == '"'
      && t.kind == StringLit
      && t.text == Some(lx.source[lx.position + 1..next.position - 1])
      && '"' !in t.text.value && NoNul(t.text.value)
      && t.column == lx.column && t.line == next.line
    ensures NoNul(lx.source) ==> (r.Success? <==> '"' in lx.source[lx.position + 1..])
  {
    var inner := AdvanceWhile(Advance(lx), NotQuote);
    if Current(inner) == '\0' then
      Failure(UnterminatedString(inner.line, inner.column))
    else
      var text := lx.source[lx.position + 1..inner.position];
      PlainRun(lx.source, lx.position + 1, inner.position);
      var next := Advance(inner);
      Success((Token(StringLit, Some(text), next.line, lx.column), next))
  }

  /** A run of characters that are neither NUL nor '"' is a quote-free C string. */
  lemma PlainRun(s: string, from: nat, to: nat)
    requires from <= to <= |s|
    requires forall i :: from <= i < to ==> s[i] != '\0' && NotQuote(s[i])
    ensures NoNul(s[from..to]) && '"' !in s[from..to]
  {
    assert forall k :: 0 <= k < to - from ==> s[from..to][k] == s[from + k];
  }

  /**
   * Lexes a character literal: a quote, any one character, and a closing quote.
   * Any other shape is fatal.  The token reports the column after the literal.
   */
  function LexCharacter(lx: LexerState): (r: Result<(Token, LexerState), LexError>)
    requires Valid(lx) && Current(lx) == '\''
    ensures r.Success? <==> lx.position + 2 < |lx.source| && lx.source[lx.position + 2] == '\''
    ensures r.Success? ==> var (t, next) := r.value;
      && next.source == lx.source && next.position == lx.position + 3 && Valid(next)
      && t.kind == Character
      && t.text == Some(if lx.source[lx.position + 1] == '\0' then "" else [lx.source[lx.position + 1]])
      && t.line == next.line && t.column == next.column
  {
    var afterQuote := Advance(lx);
    var value := Current(afterQuote);
    var afterValue := Advance(afterQuote);
    if Current(afterValue) != '\'' then
      Failure(UnexpectedCharacter(afterValue.line, afterValue.column))
    else
      var next := Advance(afterValue);
      Success((Token(Character, Some(if value == '\0' then "" else [value]), next.line, next.column), next))
  }

  /** The operators built from '<', '>', '!' and '-', with at most one character of lookahead. */
  const Operators: map<string, TokenKind> := map[
    "<=" := LessEqual, "<-" := Assign, "<" := Less,
    ">=" := GreaterEqual, ">" := Greater,
    "!=" := BangEqual, "!" := Bang,
    "->" := RightArrow, "-" := Minus
  ]

  predicate IsOperatorStart(c: char) {
    c == '<' || c == '>' || c == '!' || c == '-'
  }

  /** The table entries for a one-character text `[c]` and a two-character text `[c, d]`. */
  lemma OperatorEntries(c: char, d: char)
    ensures [c] in Operators <==> IsOperatorStart(c)
    ensures [c, d] in Operators <==> [c, d] in {"<=", "<-", ">=", "!=", "->"}
    ensures IsOperatorStart(c) ==> Operators[[c]] == (match c
      case '<' => Less case '>' => Greater case '!' => Bang case _ => Minus)
    ensures [c, d] in Operators ==> Operators[[c, d]] == (match c
      case '<' => if d == '=' then LessEqual else Assign
      case '>' => GreaterEqual case '!' => BangEqual case _ => RightArrow)
  {
  }

  /** The one- and two-character slices at a position of the text. */
  lemma Slices(s: string, p: nat)
    requires p < |s|
    ensures s[p..p + 1] == [s[p]]
    ensures p + 1 < |s| ==> s[p..p + 2] == [s[p], s[p + 1]]
  {
  }

  /**
   * Lexes an operator starting with '<', '>', '!' or '-', taking the second
   * character too when the pair is an operator.  The '<' family reports the
   * column after the token; the others report the column of their first character.
   */
  function LexOperator(lx: LexerState): (r: (Token, LexerState))
    requires Valid(lx) && IsOperatorStart(Current(lx))
    ensures var (t, next) := r;
      && next.source == lx.source && Valid(next)
      && lx.position < next.position <= lx.position + 2
      && t.text == Some(lx.source[lx.position..next.position])
      && t.text.value in Operators && t.kind == Operators[t.text.value]
      && (next.position == lx.position + 1 ==> t.text.value + [Current(next)] !in Operators)
      && t.line == lx.line && next.line == lx.line
      && next.column == lx.column + (next.position - lx.position)
      && t.column == (if Current(lx) == '<' then next.column else lx.column)
  {
    var c := Current(lx);
    var after := Advance(lx);
    var d := Current(after);
    Slices(lx.source, lx.position);
    assert lx.source[lx.position] == c;
    assert [c] + [d] == [c, d];
    OperatorEntries(c, d);
    if c == '<' then
      if d == '=' then
        var next := Advance(after);
        (Token(LessEqual, Some("<="), next.line, next.column), next)
      else if d == '-' then
        var next := Advance(after);
        (Token(Assign, Some("<-"), next.line, next.column), next)
      else
        (Token(Less, Some("<"), after.line, after.column), after)
    else if c == '>' then
      if d == '=' then
        var next := Advance(after);
        (Token(GreaterEqual, Some(">="), next.line, lx.column), next)
      else
        (Token(Greater, Some(">"), after.line, lx.column), after)
    else if c == '!' then
      if d == '=' then
        var next := Advance(after);
        (Token(BangEqual, Some("!="), next.line, lx.column), next)
      else
        (Token(Bang, Some("!"), after.line, lx.column), after)
    else
      if d == '>' then
        var next := Advance(after);
        (Token(RightArrow, Some("->"), next.line, lx.column), next)
      else
        (Token(Minus, Some("-"), after.line, lx.column), after)
  }

  /** The one-character tokens. */
  function SingleCharKind(c: char): Option<TokenKind> {
    match c
    case '+' => Some(Plus)
    case '*' => Some(Asterisk)
    case '/' => Some(Slash)
    case '=' => Some(Equal)
    case '.' => Some(Dot)
    case ',' => Some(Comma)
    case ';' => Some(Semicolon)
    case '(' => Some(LParen)
    case ')' => Some(RParen)
    case '[' => Some(LBrack)
    case ']' => Some(RBrack)
    case _ => None
  }

  /** The characters a token can begin with; every other character is skipped. */
  predicate StartsToken(c: char) {
    IsIdentStart(c) || IsDigit(c) || c == '"' || c == '\'' || IsOperatorStart(c)
    || SingleCharKind(c).Some?
  }

  /** Characters the lexer passes over without producing a token. */
  predicate IsNoise(c: char) {
    c != '\0' && (IsSpace(c) || !StartsToken(c))
  }

  /** Lexes the token whose first character is under the cursor. */
  function LexStart(lx: LexerState): (r: Result<(Token, LexerState), LexError>)
    requires Valid(lx) && StartsToken(Current(lx))
    ensures r.Success? ==> var (t, next) := r.value;
      && next.source == lx.source && Valid(next) && lx.position < next.position
      && t.kind != Eof && t.text.Some?
  {
    var c := Current(lx);
    if IsIdentStart(c) then Success(LexIdentifier(lx))
    else if IsDigit(c) then Success(LexNumber(lx))
    else if c == '"' then LexString(lx)
    else if c == '\'' then LexCharacter(lx)
    else if IsOperatorStart(c) then Success(LexOperator(lx))
    else
      match SingleCharKind(c)
      case Some(kind) => Success((Token(kind, Some([c]), lx.line, lx.column), Advance(lx)))
  }

  /** The end-of-input token: no text, at the cursor's line and column. */
  function EofToken(lx: LexerState): Token {
    Token(Eof, None, lx.line, lx.column)
  }

  /**
   * Produces the next token: skips white space and unrecognised characters,
   * returns end of input at the terminator (again and again), and otherwise
   * lexes the token that starts under the cursor.
   */
  function NextToken(lx: LexerState): (r: Result<(Token, LexerState), LexError>)
    requires Valid(lx)
    ensures r.Success? ==> var (t, next) := r.value;
      && next.source == lx.source && Valid(next) && lx.position <= next.position
      && (t.kind == Eof <==> t.text.None?)
      && (t.kind == Eof ==> Current(next) == '\0' && t == EofToken(next))
      && (t.kind != Eof ==> lx.position < next.position)
    decreases |lx.source| - lx.position
  {
    var c := Current(lx);
    if c == '\0' then Success((EofToken(lx), lx))
    else if IsSpace(c) then NextToken(SkipWhitespace(lx))
    else if StartsToken(c) then LexStart(lx)
    else NextToken(Advance(lx))
  }

  /** Pulls tokens until end of input; the result ends with the single end-of-input token. */
  function TokenizeFrom(lx: LexerState): (r: Result<seq<Token>, LexError>)
    requires Valid(lx)
    ensures r.Success? ==>
      && |r.value| > 0 && r.value[|r.value| - 1].kind == Eof
      && (forall i :: 0 <= i < |r.value| - 1 ==> r.value[i].kind != Eof)
      && (forall i :: 0 <= i < |r.value| ==> (r.value[i].kind == Eof <==> r.value[i].text.None?))
    decreases |lx.source| - lx.position
  {
    match NextToken(lx)
    case Failure(e) => Failure(e)
    case Success((t, next)) =>
      if t.kind == Eof then Success([t])
      else
        match TokenizeFrom(next)
        case Failure(e) => Failure(e)
        case Success(rest) => Success([t] + rest)
  }

  /** The whole token stream of a source text, or the fatal error that stopped it. */
  function Tokenize(source: string): Result<seq<Token>, LexError> {
    TokenizeFrom(Init(source))
  }
}
