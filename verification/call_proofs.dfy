/**
 * Properties of the parser's function calls: the argument list is read
 * comma by comma, and any failure inside it fails the call.
 */
module CallProofs {
  import opened Wrappers
  import opened Tokens
  import opened Ast
  import opened Parser
  import opened ParserProofs

  /** Arguments spelled one after the other, separated by commas. */
  function ArgumentTokens(args: seq<Node>): seq<Token>
    decreases |args|
  {
    if |args| <= 1 then (if |args| == 0 then [] else Show(args[0], 4))
    else Show(args[0], 4) + ([Tok(Comma, ",")] + ArgumentTokens(args[1..]))
  }

  /** Arguments spelled out, each followed by a comma. */
  function LeadingArguments(args: seq<Node>): seq<Token>
    decreases |args|
  {
    if |args| == 0 then [] else Show(args[0], 4) + ([Tok(Comma, ",")] + LeadingArguments(args[1..]))
  }

  /** The spelling of a printable expression never starts with `)`. */
  lemma {:induction false} ShowStartsExpression(e: Node, t: nat)
    requires Printable(e) && t <= 4
    ensures |Show(e, t)| > 0 && Show(e, t)[0].kind != RParen
    decreases e, if Level(e) > t then 1 else 0
  {
    if Level(e) <= t && e.Binary? {
      ShowStartsExpression(e.left, TierOf(e.op));
      var left := Show(e.left, TierOf(e.op));
      assert Show(e, t) == left + [Tok(e.op, Spelling(e.op))] + Show(e.right, TierOf(e.op) - 1);
      assert Show(e, t)[0] == left[0];
    }
  }

  /** Comma-separated printable arguments are read back, in order, up to the first token that is not a comma. */
  lemma {:induction false} ArgumentsParse(args: seq<Node>, rest: seq<Token>)
    requires |args| > 0 && forall i :: 0 <= i < |args| ==> Printable(args[i])
    requires EndsTier(rest, 4) && PeekKind(rest) != Comma
    ensures ParseArguments(ArgumentTokens(args) + rest) == Success((args, rest))
    decreases |args|
  {
    if |args| == 1 {
      ParseShow(args[0], rest);
      assert [args[0]] == args;
    } else {
      var tail := ArgumentTokens(args[1..]) + rest;
      var comma := [Tok(Comma, ",")] + tail;
      ArgumentsParse(args[1..], rest);
      ParseShow(args[0], comma);
      LeadingToken(Tok(Comma, ","), tail);
      Regroup(Show(args[0], 4), [Tok(Comma, ",")], ArgumentTokens(args[1..]), rest);
      Assoc(Show(args[0], 4), [Tok(Comma, ",")], ArgumentTokens(args[1..]));
      assert ArgumentTokens(args) + rest == Show(args[0], 4) + comma;
      assert ParseExpression(Show(args[0], 4) + comma) == Parsed(args[0], comma);
      assert comma[1..] == tail;
      assert [args[0]] + args[1..] == args;
    }
  }

  /** An argument that fails to parse fails the whole argument list, whatever parsed before it. */
  lemma {:induction false} FailedArgumentFails(args: seq<Node>, ts: seq<Token>)
    requires forall i :: 0 <= i < |args| ==> Printable(args[i])
    requires ParseExpression(ts).node == Missing
    ensures ParseArguments(LeadingArguments(args) + ts).Failure?
    decreases |args|
  {
    if |args| > 0 {
      var tail := LeadingArguments(args[1..]) + ts;
      var comma := [Tok(Comma, ",")] + tail;
      FailedArgumentFails(args[1..], ts);
      ParseShow(args[0], comma);
      LeadingToken(Tok(Comma, ","), tail);
      Regroup(Show(args[0], 4), [Tok(Comma, ",")], LeadingArguments(args[1..]), ts);
      Assoc(Show(args[0], 4), [Tok(Comma, ",")], LeadingArguments(args[1..]));
      assert LeadingArguments(args) + ts == Show(args[0], 4) + comma;
      assert ParseExpression(Show(args[0], 4) + comma) == Parsed(args[0], comma);
      assert comma[1..] == tail;
    } else {
      assert LeadingArguments(args) + ts == ts;
    }
  }

  /** After the name, `(`, comma-separated printable arguments and `)` read as a call of that name. */
  lemma ArgumentListParses(name: string, args: seq<Node>, rest: seq<Token>)
    requires |args| > 0 && forall i :: 0 <= i < |args| ==> Printable(args[i])
    ensures ParseFunctionCall(name, [Tok(LParen, "(")] + (ArgumentTokens(args) + ([Tok(RParen, ")")] + rest)))
      == Parsed(Call(name), rest)
  {
    var close := [Tok(RParen, ")")] + rest;
    var inside := ArgumentTokens(args) + close;
    ArgumentsParse(args, close);
    ArgumentsStart(args, close);
    LeadingToken(Tok(LParen, "("), inside);
    LeadingToken(Tok(RParen, ")"), rest);
  }

  /** A name followed by a parenthesised list of printable arguments reads as a call of that name. */
  lemma CallParses(name: string, args: seq<Node>, rest: seq<Token>)
    requires |args| > 0 && forall i :: 0 <= i < |args| ==> Printable(args[i])
    ensures ParseUnary([Tok(Identifier, name)] + ([Tok(LParen, "(")]
      + (ArgumentTokens(args) + ([Tok(RParen, ")")] + rest)))) == Parsed(Call(name), rest)
  {
    var open := [Tok(LParen, "(")] + (ArgumentTokens(args) + ([Tok(RParen, ")")] + rest));
    ArgumentListParses(name, args, rest);
    LeadingToken(Tok(Identifier, name), open);
    UnaryIsPrimary([Tok(Identifier, name)] + open);
  }

  /** Spelled arguments never start with `)`. */
  lemma ArgumentsStart(args: seq<Node>, rest: seq<Token>)
    requires |args| > 0 && Printable(args[0])
    ensures PeekKind(ArgumentTokens(args) + rest) != RParen
  {
    ShowStartsExpression(args[0], 4);
    if |args| > 1 {
      assert ArgumentTokens(args)[0] == Show(args[0], 4)[0];
    }
  }

  /** A call whose argument list fails to parse fails. */
  lemma CallWithFailedArgumentFails(name: string, args: seq<Node>, ts: seq<Token>)
    requires forall i :: 0 <= i < |args| ==> Printable(args[i])
    requires ParseExpression(ts).node == Missing
    requires PeekKind(LeadingArguments(args) + ts) != RParen
    ensures ParseFunctionCall(name, [Tok(LParen, "(")] + (LeadingArguments(args) + ts)).node == Missing
  {
    FailedArgumentFails(args, ts);
    LeadingToken(Tok(LParen, "("), LeadingArguments(args) + ts);
  }

  /** A call whose arguments are not followed by `)` fails where the `)` was expected. */
  lemma UnclosedCallFails(name: string, args: seq<Node>, rest: seq<Token>)
    requires |args| > 0 && forall i :: 0 <= i < |args| ==> Printable(args[i])
    requires EndsTier(rest, 4) && PeekKind(rest) != Comma && PeekKind(rest) != RParen
    ensures ParseFunctionCall(name, [Tok(LParen, "(")] + (ArgumentTokens(args) + rest)) == Parsed(Missing, rest)
  {
    var inside := ArgumentTokens(args) + rest;
    ArgumentsParse(args, rest);
    ArgumentsStart(args, rest);
    LeadingToken(Tok(LParen, "("), inside);
  }
}
