/** The token vocabulary shared by the lexer and the parser (`TokenType` and `Token`). */
module Tokens {
  import opened Wrappers

  /** Every token kind, in the order of the C enumeration. */
  datatype TokenKind =
    | Eof | Identifier | Number | StringLit | Character
      // operators and punctuation
    | Comma | Semicolon | Dot | Minus | Plus | Asterisk | Slash | Equal
    | Greater | GreaterEqual | Less | LessEqual | Bang | BangEqual
    | LParen | RParen | LBrack | RBrack | Assign | RightArrow
      // keywords
    | Debfonc | Finfonc | Faire | Finfaire | Si | Finsi | Alors | Sinon
    | Tantque | Pour | Haut | Bas | Et | Ou | Non | Div | Mod | Retourner
    | Structure | TypeKw | Vide | Chaine | Entier | Reel | Booleen
    | Vrai | Faux | Nil | D | R | Dr

  /** A token: its kind, its text (absent only for end of input), and where it was reported. */
  datatype Token = Token(kind: TokenKind, text: Option<string>, line: int, column: int)

  /** The text of a token, reading an absent text as the empty string. */
  function TextOf(t: Token): string {
    t.text.GetOr("")
  }
}
