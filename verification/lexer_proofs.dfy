/**
 * Properties of the lexer: position tracking, noise skipping,
 * and re-lexing of single lexemes.
 */
module LexerProofs {
  import opened Wrappers
  import opened Tokens
  import opened Lexer

  // ---------------------------------------------------------------------------
  // Line and column of a text position, defined from the text alone.

  /** The index just after the last newline before `p`, or 0 when there is none. */
  function LineStart(s: string, p: nat): (k: nat)
    requires p <= |s|
    ensures k <= p
    ensures k == 0 || s[k - 1] == '\n'
    ensures forall j :: k <= j < p ==> s[j] != '\n'
  {
    if p == 0 then 0 else if s[p - 1] == '\n' then p else LineStart(s, p - 1)
  }

  /** The 1-based line of position `p`: one more than the newlines before it. */
  function LineAt(s: string, p: nat): int
    requires p <= |s|
  {
    1 + multiset(s[..p])['\n']
  }

  /** The 1-based column of position `p`: its distance from the start of its line. */
  function ColumnAt(s: string, p: nat): int
    requires p <= |s|
  {
    p - LineStart(s, p) + 1
  }

  /** The cursor's line and column are those of its position in the text. */
  predicate Tracks(lx: LexerState) {
    && lx.position <= |lx.source|
    && lx.line == LineAt(lx.source, lx.position)
    && lx.column == ColumnAt(lx.source, lx.position)
  }

  lemma InitTracks(source: string)
    ensures Tracks(Init(source))
  {
    assert source[..0] == [];
  }

  /** Moving past one character of the text keeps line and column exact. */
  lemma AdvanceTracks(lx: LexerState)
    requires Tracks(lx) && lx.position < |lx.source|
    ensures Tracks(Advance(lx))
  {
    var s, p := lx.source, lx.position;
    assert s[..p + 1] == s[..p] + [s[p]];
  }

  lemma {:induction false} AdvanceWhileTracks(lx: LexerState, p: char -> bool)
    requires Tracks(lx)
    ensures Tracks(AdvanceWhile(lx, p))
    decreases |lx.source| - lx.position
  {
    if Current(lx) != '\0' && p(Current(lx)) {
      AdvanceTracks(lx);
      AdvanceWhileTracks(Advance(lx), p);
    }
  }

  // ---------------------------------------------------------------------------
  // Skipping: white space and unrecognised characters produce no token.

  /** Where the next token starts: the cursor after every noise character. */
  function TokenStart(lx: LexerState): LexerState {
    AdvanceWhile(lx, IsNoise)
  }

  /** Lexing once the noise has been skipped: end of input, or the token under the cursor. */
  function LexFromStart(s: LexerState): Result<(Token, LexerState), LexError>
    requires Valid(s)
  {
    if Current(s) == '\0' then Success((EofToken(s), s))
    else if StartsToken(Current(s)) then LexStart(s)
    else Failure(UnexpectedCharacter(s.line, s.column))
  }

  lemma {:induction false} SpaceIsNoise(lx: LexerState)
    ensures AdvanceWhile(SkipWhitespace(lx), IsNoise) == AdvanceWhile(lx, IsNoise)
    decreases |lx.source| - lx.position
  {
    if Current(lx) != '\0' && IsSpace(Current(lx)) {
      SpaceIsNoise(Advance(lx));
    }
  }

  /**
   * The lexer's loop is "skip every noise character, then lex the token under
   * the cursor": nothing it skips yields a token, and lexing resumes right after it.
   */
  lemma {:induction false} NextTokenSkipsNoise(lx: LexerState)
    requires Valid(lx)
    ensures Valid(TokenStart(lx))
    ensures NextToken(lx) == LexFromStart(TokenStart(lx))
    ensures forall i :: lx.position <= i < TokenStart(lx).position ==> IsNoise(lx.source[i])
    decreases |lx.source| - lx.position
  {
    var c := Current(lx);
    if c == '\0' {
    } else if IsSpace(c) {
      SpaceIsNoise(lx);
      NextTokenSkipsNoise(SkipWhitespace(lx));
    } else if StartsToken(c) {
    } else {
      NextTokenSkipsNoise(Advance(lx));
    }
  }

  // ---------------------------------------------------------------------------
  // The line and column each token reports.

  /** The line and column of text position `p`, read off the text. */
  predicate At(t: Token, s: string, p: nat)
    requires p <= |s|
  {
    t.line == LineAt(s, p) && t.column == ColumnAt(s, p)
  }

  /**
   * Lexing the token under a cursor that tracks its position: identifiers, numbers,
   * the '>', '!' and '-' families and the one-character tokens report where they
   * start; a string reports its first column but the line of its end; the '<'
   * family and character literals report the position just after themselves.
   */
  lemma LexStartPosition(s: LexerState)
    requires Tracks(s) && StartsToken(Current(s)) && LexStart(s).Success?
    ensures var (t, next) := LexStart(s).value;
      && Tracks(next)
      && (if Current(s) == '<' || Current(s) == '\'' then At(t, s.source, next.position)
          else if Current(s) == '"' then
            t.column == ColumnAt(s.source, s.position) && t.line == LineAt(s.source, next.position)
          else At(t, s.source, s.position))
  {
    var c := Current(s);
    if IsIdentStart(c) {
      WordPosition(s);
    } else if IsDigit(c) {
      NumberPosition(s);
    } else if c == '"' {
      StringPosition(s);
    } else if c == '\'' {
      CharacterPosition(s);
    } else if IsOperatorStart(c) {
      OperatorPosition(s);
    } else {
      AdvanceTracks(s);
    }
  }

  lemma WordPosition(s: LexerState)
    requires Tracks(s) && IsIdentStart(Current(s))
    ensures LexStart(s) == Success(LexIdentifier(s))
    ensures Tracks(LexIdentifier(s).1) && At(LexIdentifier(s).0, s.source, s.position)
  {
    AdvanceWhileTracks(s, IsIdentChar);
  }

  lemma NumberPosition(s: LexerState)
    requires Tracks(s) && IsDigit(Current(s))
    ensures LexStart(s) == Success(LexNumber(s))
    ensures Tracks(LexNumber(s).1) && At(LexNumber(s).0, s.source, s.position)
  {
    assert !IsIdentStart(Current(s));
    AdvanceWhileTracks(s, IsDigit);
  }

  lemma StringPosition(s: LexerState)
    requires Tracks(s) && Current(s) == '"' && LexString(s).Success?
    ensures LexStart(s) == LexString(s)
    ensures var (t, next) := LexString(s).value;
      && Tracks(next)
      && t.column == ColumnAt(s.source, s.position) && t.line == LineAt(s.source, next.position)
  {
    QuoteStarts(s);
    AdvanceTracks(s);
    var inner := AdvanceWhile(Advance(s), NotQuote);
    AdvanceWhileTracks(Advance(s), NotQuote);
    AdvanceTracks(inner);
  }

  lemma CharacterPosition(s: LexerState)
    requires Tracks(s) && Current(s) == '\'' && LexCharacter(s).Success?
    ensures LexStart(s) == LexCharacter(s)
    ensures var (t, next) := LexCharacter(s).value;
      Tracks(next) && At(t, s.source, next.position)
  {
    QuoteCharStarts(s);
    var a := Advance(s);
    AdvanceTracks(s);
    var b := Advance(a);
    AdvanceTracks(a);
    var next := Advance(b);
    AdvanceTracks(b);
    assert LexCharacter(s).value.1 == next;
  }

  /** A double quote starts a string literal. */
  lemma QuoteStarts(lx: LexerState)
    requires Valid(lx) && Current(lx) == '"'
    ensures LexStart(lx) == LexString(lx)
  {
    assert !IsIdentStart('"') && !IsDigit('"');
  }

  /** A single quote starts a character literal. */
  lemma QuoteCharStarts(lx: LexerState)
    requires Valid(lx) && Current(lx) == '\''
    ensures LexStart(lx) == LexCharacter(lx)
  {
    assert !IsIdentStart('\'') && !IsDigit('\'');
  }

  lemma OperatorPosition(s: LexerState)
    requires Tracks(s) && IsOperatorStart(Current(s))
    ensures LexStart(s) == Success(LexOperator(s))
    ensures var (t, next) := LexOperator(s);
      && Tracks(next)
      && (if Current(s) == '<' then At(t, s.source, next.position) else At(t, s.source, s.position))
  {
    var c := Current(s);
    assert !IsIdentStart(c) && !IsDigit(c) && c != '"' && c != '\'';
    AdvanceTracks(s);
    if Current(Advance(s)) != '\0' {
      AdvanceTracks(Advance(s));
    }
  }

  /**
   * Whatever the lexer skips, the token it returns carries the position described
   * by `LexStartPosition` for the place where the token starts, the end-of-input
   * token carries the position of the end, and the cursor still tracks its position.
   */
  lemma TokenPosition(lx: LexerState)
    requires Tracks(lx) && NextToken(lx).Success?
    ensures var s, (t, next) := TokenStart(lx), NextToken(lx).value;
      && Tracks(next)
      && s.position <= next.position
      && (t.kind == Eof ==> At(t, lx.source, next.position))
      && (t.kind != Eof ==>
            if Current(s) == '<' || Current(s) == '\'' then At(t, lx.source, next.position)
            else if Current(s) == '"' then
              t.column == ColumnAt(lx.source, s.position) && t.line == LineAt(lx.source, next.position)
            else At(t, lx.source, s.position))
  {
    NextTokenSkipsNoise(lx);
    AdvanceWhileTracks(lx, IsNoise);
    var s := TokenStart(lx);
    if Current(s) != '\0' {
      LexStartPosition(s);
    }
  }

  // ---------------------------------------------------------------------------
  // End of input, and texts that hold exactly one lexeme.

  /** Once the lexer has returned end of input it returns the same token on every later call. */
  lemma EndOfInputRepeats(lx: LexerState)
    requires Valid(lx) && NextToken(lx).Success? && NextToken(lx).value.0.kind == Eof
    ensures NextToken(NextToken(lx).value.1) == NextToken(lx)
  {
  }

  /** At the terminator, the lexer returns end of input and stays put. */
  lemma EndLexesEof(lx: LexerState)
    requires Valid(lx) && Current(lx) == '\0'
    ensures NextToken(lx) == Success((EofToken(lx), lx))
  {
  }

  /** A character that starts a token is lexed on the spot. */
  lemma StartLexes(lx: LexerState)
    requires Valid(lx) && StartsToken(Current(lx))
    ensures NextToken(lx) == LexStart(lx)
  {
    var c := Current(lx);
    assert c != '\0' && !IsSpace(c);
  }

  lemma WordStartLexes(lx: LexerState)
    requires Valid(lx) && IsIdentStart(Current(lx))
    ensures NextToken(lx) == Success(LexIdentifier(lx))
  {
    StartLexes(lx);
  }

  lemma DigitStartLexes(lx: LexerState)
    requires Valid(lx) && IsDigit(Current(lx))
    ensures NextToken(lx) == Success(LexNumber(lx))
  {
    StartLexes(lx);
    assert !IsIdentStart(Current(lx));
  }

  lemma QuoteStartLexes(lx: LexerState)
    requires Valid(lx) && Current(lx) == '"'
    ensures NextToken(lx) == LexString(lx)
  {
    StartLexes(lx);
    QuoteStarts(lx);
  }

  lemma OperatorStartLexes(lx: LexerState)
    requires Valid(lx) && IsOperatorStart(Current(lx))
    ensures NextToken(lx) == Success(LexOperator(lx))
  {
    StartLexes(lx);
    var c := Current(lx);
    assert !IsIdentStart(c) && !IsDigit(c) && c != '"' && c != '\'';
  }

  /** A text whose first token reaches its end lexes to that token and end of input. */
  lemma OneToken(source: string)
    requires NextToken(Init(source)).Success?
    requires NextToken(Init(source)).value.0.kind != Eof
    requires NextToken(Init(source)).value.1.position == |source|
    ensures var (t, next) := NextToken(Init(source)).value;
      Tokenize(source) == Success([t, EofToken(next)])
  {
    var lx := Init(source);
    var (t, next) := NextToken(lx).value;
    EndLexesEof(next);
    assert TokenizeFrom(next) == Success([EofToken(next)]);
    assert TokenizeFrom(lx) == Success([t] + [EofToken(next)]);
    assert [t] + [EofToken(next)] == [t, EofToken(next)];
  }

  /** A word re-lexes to itself: one token whose text is the word, classified by the keyword table. */
  lemma WordRoundTrip(w: string)
    requires |w| > 0 && IsIdentStart(w[0])
    requires forall i :: 0 <= i < |w| ==> IsIdentChar(w[i])
    ensures Tokenize(w) == Success([Token(CheckKeyword(w), Some(w), 1, 1), Token(Eof, None, 1, |w| + 1)])
  {
    var lx := Init(w);
    WordStartLexes(lx);
    var (t, next) := LexIdentifier(lx);
    assert next.position == |w|;
    assert w[0..|w|] == w;
    OneToken(w);
  }

  /** A run of digits re-lexes to one number token whose text is the digits. */
  lemma DigitsRoundTrip(w: string)
    requires |w| > 0
    requires forall i :: 0 <= i < |w| ==> IsDigit(w[i])
    ensures Tokenize(w) == Success([Token(Number, Some(w), 1, 1), Token(Eof, None, 1, |w| + 1)])
  {
    var lx := Init(w);
    DigitStartLexes(lx);
    var (t, next) := LexNumber(lx);
    assert next.position == |w|;
    assert w[0..|w|] == w;
    OneToken(w);
  }

  /** Scanning a quoted text from just after its opening quote stops on the closing quote. */
  lemma ClosingQuoteFound(body: string)
    requires NoNul(body) && '"' !in body
    ensures var source := ['"'] + body + ['"'];
      && NoNul(source)
      && AdvanceWhile(Advance(Init(source)), NotQuote).position == |body| + 1
  {
    var source := ['"'] + body + ['"'];
    assert source[|body| + 1] == '"';
    assert forall i :: 1 <= i < |body| + 1 ==> source[i] == body[i - 1];
  }

  /** A quoted text with no quote inside re-lexes to one string token holding exactly the text. */
  lemma QuotedRoundTrip(body: string)
    requires NoNul(body) && '"' !in body
    ensures var source := ['"'] + body + ['"'];
      && Tokenize(source).Success? && |Tokenize(source).value| == 2
      && Tokenize(source).value[0].kind == StringLit
      && Tokenize(source).value[0].text == Some(body)
      && Tokenize(source).value[0].column == 1
  {
    var source := ['"'] + body + ['"'];
    var lx := Init(source);
    ClosingQuoteFound(body);
    assert source[1..|body| + 1] == body;
    assert Current(lx) == '"';
    QuoteStartLexes(lx);
    OneToken(source);
  }

  /** A quote that is never closed stops the lexer with the unterminated-string error. */
  lemma UnclosedQuoteFails(body: string)
    requires NoNul(body) && '"' !in body
    ensures Tokenize(['"'] + body).Failure?
    ensures Tokenize(['"'] + body).error.UnterminatedString?
  {
    var source := ['"'] + body;
    var lx := Init(source);
    assert NoNul(source) by {
      forall i | 0 <= i < |source| ensures source[i] != '\0' {
        if 0 < i {
          assert source[i] == body[i - 1];
        }
      }
    }
    assert source[1..] == body;
    assert Current(lx) == '"';
    QuoteStartLexes(lx);
  }

  /** A lone '<' reports column 2, the column just after it. */
  lemma LessReportsColumnAfter()
    ensures Tokenize("<") == Success([Token(Less, Some("<"), 1, 2), Token(Eof, None, 1, 2)])
  {
    var lx := Init("<");
    assert Current(lx) == '<';
    OperatorStartLexes(lx);
    assert LexOperator(lx) == (Token(Less, Some("<"), 1, 2), LexerState("<", 1, 1, 2));
    OneToken("<");
  }

  /** A lone '>' reports column 1, the column where it starts, unlike '<'. */
  lemma GreaterReportsColumnOfStart()
    ensures Tokenize(">") == Success([Token(Greater, Some(">"), 1, 1), Token(Eof, None, 1, 2)])
  {
    var lx := Init(">");
    assert Current(lx) == '>';
    OperatorStartLexes(lx);
    assert LexOperator(lx) == (Token(Greater, Some(">"), 1, 1), LexerState(">", 1, 1, 2));
    OneToken(">");
  }
}
