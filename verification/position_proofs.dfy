/**
 * The expression parser reads only the kind and the text of each token; the line
 * and column appear only in its syntax-error messages, which are not modelled.  Two streams that differ only in positions parse to the
 * same node and leave streams that again differ only in positions.  This lets
 * the round-trip lemmas, stated over printed tokens at 1:1, speak about the
 * tokens the lexer produces.
 */
module PositionProofs {
  import opened Wrappers
  import opened Tokens
  import opened Ast
  import opened Parser
  import ParserProofs

  /** Two token streams the parser cannot tell apart: the same kinds and texts, whatever the positions. */
  predicate SameReading(a: seq<Token>, b: seq<Token>) {
    |a| == |b| && forall i :: 0 <= i < |a| ==> a[i].kind == b[i].kind && a[i].text == b[i].text
  }

  /** Two parses with the same node, leaving streams the parser cannot tell apart. */
  predicate Agree(p: Parsed, q: Parsed) {
    p.node == q.node && SameReading(p.rest, q.rest)
  }

  /** The same for argument lists: the same outcome, the same arguments, indistinguishable rests. */
  predicate ArgumentsAgree(p: Result<(seq<Node>, seq<Token>), seq<Token>>,
                           q: Result<(seq<Node>, seq<Token>), seq<Token>>) {
    && (p.Success? <==> q.Success?)
    && (p.Success? && q.Success? ==> p.value.0 == q.value.0 && SameReading(p.value.1, q.value.1))
    && (p.Failure? && q.Failure? ==> SameReading(p.error, q.error))
  }

  /** Indistinguishable streams have the same current token, as the parser sees it, and indistinguishable tails. */
  lemma SameFront(a: seq<Token>, b: seq<Token>)
    requires SameReading(a, b)
    ensures PeekKind(a) == PeekKind(b) && TextOf(Peek(a)) == TextOf(Peek(b))
    ensures |a| > 0 ==> SameReading(a[1..], b[1..])
  {
  }

  /** A whole expression is read the same whatever the tokens' positions. */
  lemma {:induction false} ExpressionIgnoresPositions(a: seq<Token>, b: seq<Token>)
    requires SameReading(a, b)
    ensures Agree(ParseExpression(a), ParseExpression(b))
    decreases |a|, 7
  {
    TierIgnoresPositions(4, 3, a, b);
  }

  /** One binary tier, with `below` the tier under it. */
  lemma {:induction false} TierIgnoresPositions(t: nat, below: int, a: seq<Token>, b: seq<Token>)
    requires t <= 4 && below == t - 1 && SameReading(a, b)
    ensures Agree(ParseTier(t, a), ParseTier(t, b))
    decreases |a|, t + 2
  {
    if t == 0 {
      UnaryIgnoresPositions(a, b);
    } else {
      TierIgnoresPositions(below, below - 1, a, b);
      var fa, fb := ParseTier(below, a), ParseTier(below, b);
      TailIgnoresPositions(t, below, fa.node, fa.rest, fb.rest);
    }
  }

  /** The operator loop of a tier. */
  lemma {:induction false} TailIgnoresPositions(t: nat, below: nat, left: Node, a: seq<Token>, b: seq<Token>)
    requires 1 <= t <= 4 && below == t - 1 && SameReading(a, b)
    ensures Agree(TierTail(t, left, a), TierTail(t, left, b))
    decreases |a|, t + 1
  {
    SameFront(a, b);
    if TierOf(PeekKind(a)) == t {
      TierIgnoresPositions(below, below as int - 1, a[1..], b[1..]);
      var ra, rb := ParseTier(below, a[1..]), ParseTier(below, b[1..]);
      TailIgnoresPositions(t, below, Binary(left, PeekKind(a), ra.node), ra.rest, rb.rest);
    }
  }

  /** Prefix operators. */
  lemma {:induction false} UnaryIgnoresPositions(a: seq<Token>, b: seq<Token>)
    requires SameReading(a, b)
    ensures Agree(ParseUnary(a), ParseUnary(b))
    decreases |a|, 1
  {
    SameFront(a, b);
    if PeekKind(a) == Minus || PeekKind(a) == Non {
      UnaryIgnoresPositions(a[1..], b[1..]);
    } else {
      PrimaryIgnoresPositions(a, b);
    }
  }

  /** Literals, variables, calls and parenthesised expressions. */
  lemma {:induction false} PrimaryIgnoresPositions(a: seq<Token>, b: seq<Token>)
    requires SameReading(a, b)
    ensures Agree(ParsePrimary(a), ParsePrimary(b))
    decreases |a|, 0
  {
    SameFront(a, b);
    if PeekKind(a) == Identifier {
      SameFront(a[1..], b[1..]);
      if PeekKind(a[1..]) == LParen {
        CallIgnoresPositions(TextOf(Peek(a)), a[1..], b[1..]);
      }
      NameStep(a, b);
    } else if PeekKind(a) == LParen {
      ExpressionIgnoresPositions(a[1..], b[1..]);
      ParenthesisStep(a, b);
    } else if PeekKind(a) in {Number, Nil} {
      NumberIgnoresPositions(a, b);
    } else if PeekKind(a) in {StringLit, Character} {
      TextIgnoresPositions(a, b);
    } else if PeekKind(a) in {Vrai, Faux} {
      TruthIgnoresPositions(a, b);
    } else {
      OtherIgnoresPositions(a, b);
    }
  }

  /** A name is a variable, or a call once its argument list is read alike. */
  lemma NameStep(a: seq<Token>, b: seq<Token>)
    requires SameReading(a, b) && PeekKind(a) == Identifier
    requires PeekKind(a[1..]) == LParen ==>
      Agree(ParseFunctionCall(TextOf(Peek(a)), a[1..]), ParseFunctionCall(TextOf(Peek(a)), b[1..]))
    ensures Agree(ParsePrimary(a), ParsePrimary(b))
  {
    SameFront(a, b);
    SameFront(a[1..], b[1..]);
  }

  /** A parenthesised expression, once the expression inside is read alike. */
  lemma ParenthesisStep(a: seq<Token>, b: seq<Token>)
    requires SameReading(a, b) && PeekKind(a) == LParen
    requires Agree(ParseExpression(a[1..]), ParseExpression(b[1..]))
    ensures Agree(ParsePrimary(a), ParsePrimary(b))
  {
    SameFront(a, b);
    SameFront(ParseExpression(a[1..]).rest, ParseExpression(b[1..]).rest);
  }

  /** A number or `nil` is read from its first token alone. */
  lemma NumberIgnoresPositions(a: seq<Token>, b: seq<Token>)
    requires SameReading(a, b) && PeekKind(a) in {Number, Nil}
    ensures Agree(ParsePrimary(a), ParsePrimary(b))
  {
    SameFront(a, b);
  }

  /** A string or character literal is read from its first token alone. */
  lemma TextIgnoresPositions(a: seq<Token>, b: seq<Token>)
    requires SameReading(a, b) && PeekKind(a) in {StringLit, Character}
    ensures Agree(ParsePrimary(a), ParsePrimary(b))
  {
    SameFront(a, b);
  }

  /** `vrai` and `faux` are read from their token alone. */
  lemma TruthIgnoresPositions(a: seq<Token>, b: seq<Token>)
    requires SameReading(a, b) && PeekKind(a) in {Vrai, Faux}
    ensures Agree(ParsePrimary(a), ParsePrimary(b))
  {
    SameFront(a, b);
  }

  /** Any other token fails the primary and consumes nothing. */
  lemma OtherIgnoresPositions(a: seq<Token>, b: seq<Token>)
    requires SameReading(a, b)
    requires PeekKind(a) !in {Number, Nil, StringLit, Character, Vrai, Faux, Identifier, LParen}
    ensures Agree(ParsePrimary(a), ParsePrimary(b))
  {
    SameFront(a, b);
    NoPrimary(a);
    NoPrimary(b);
  }

  lemma NoPrimary(ts: seq<Token>)
    requires PeekKind(ts) !in {Number, Nil, StringLit, Character, Vrai, Faux, Identifier, LParen}
    ensures ParsePrimary(ts) == Parsed(Missing, ts)
  {
  }

  /** A call's argument list in parentheses. */
  lemma {:induction false} CallIgnoresPositions(name: string, a: seq<Token>, b: seq<Token>)
    requires SameReading(a, b)
    ensures Agree(ParseFunctionCall(name, a), ParseFunctionCall(name, b))
    decreases |a|, 0
  {
    SameFront(a, b);
    if PeekKind(a) == LParen {
      SameFront(a[1..], b[1..]);
      if PeekKind(a[1..]) != RParen {
        ArgumentsIgnorePositions(a[1..], b[1..]);
      }
      CallFromArguments(name, a, b);
    }
  }

  /** What a call reads after its `(`: nothing when `)` follows at once, otherwise the argument list. */
  function OpenedArguments(ts: seq<Token>): Result<(seq<Node>, seq<Token>), seq<Token>> {
    if PeekKind(ts) == RParen then Success(([], ts)) else ParseArguments(ts)
  }

  /** The step of a call after its arguments: reading the same arguments, both calls agree. */
  lemma CallFromArguments(name: string, a: seq<Token>, b: seq<Token>)
    requires SameReading(a, b) && PeekKind(a) == LParen
    requires ArgumentsAgree(OpenedArguments(a[1..]), OpenedArguments(b[1..]))
    ensures Agree(ParseFunctionCall(name, a), ParseFunctionCall(name, b))
  {
    SameFront(a, b);
    var pa, pb := OpenedArguments(a[1..]), OpenedArguments(b[1..]);
    if pa.Success? {
      SameFront(pa.value.1, pb.value.1);
    }
  }

  /** Comma-separated arguments. */
  lemma {:induction false} ArgumentsIgnorePositions(a: seq<Token>, b: seq<Token>)
    requires SameReading(a, b)
    ensures ArgumentsAgree(ParseArguments(a), ParseArguments(b))
    decreases |a|, 8
  {
    ExpressionIgnoresPositions(a, b);
    var xa, xb := ParseExpression(a), ParseExpression(b);
    SameFront(xa.rest, xb.rest);
    if xa.node != Missing && PeekKind(xa.rest) == Comma {
      ArgumentsIgnorePositions(xa.rest[1..], xb.rest[1..]);
    }
  }

  /**
   * The print/parse round trip holds for every stream that reads like the printed
   * tokens, such as the same text as the lexer delivers it, with real positions.
   */
  lemma ReadsAsPrinted(e: Node, ts: seq<Token>, rest: seq<Token>)
    requires ParserProofs.Printable(e) && ParserProofs.EndsTier(rest, 4)
    requires SameReading(ts, ParserProofs.Show(e, 4) + rest)
    ensures ParseExpression(ts).node == e && SameReading(ParseExpression(ts).rest, rest)
  {
    ParserProofs.ParseShow(e, rest);
    ExpressionIgnoresPositions(ts, ParserProofs.Show(e, 4) + rest);
  }
}
