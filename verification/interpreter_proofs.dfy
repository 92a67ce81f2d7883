/**
 * Properties of the interpreter: early return, scoping, loops, fuel, and the
 * values of expressions.
 */
module InterpreterProofs {
  import opened Wrappers
  import opened Tokens
  import opened Ast
  import opened Environment
  import opened Parser
  import opened ParserProofs
  import opened Interpreter
  import Lexer

  // ---------------------------------------------------------------------------
  // Expressions.

  /** Evaluation reads the scope chain only through lookups: chains that agree on every name agree on every expression. */
  lemma {:induction false} EvalRespectsLookup(e: Node, env1: Env, env2: Env)
    requires forall x :: Lookup(env1, x) == Lookup(env2, x)
    ensures Eval(e, env1) == Eval(e, env2)
  {
    match e
    case Binary(l, _, r) =>
      EvalRespectsLookup(l, env1, env2);
      EvalRespectsLookup(r, env1, env2);
    case Unary(_, x) =>
      EvalRespectsLookup(x, env1, env2);
    case Variable(name) =>
      assert Lookup(env1, name) == Lookup(env2, name);
    case _ =>
  }

  /** The left operand is evaluated before the right: what they write comes first, in that order. */
  lemma EvaluationOrder(l: Node, op: TokenKind, r: Node, env: Env)
    ensures Eval(l, env).1 + Eval(r, env).1 <= Eval(Binary(l, op, r), env).1
  {
  }

  /** Dividing by an operand that evaluates to 0 yields 0, and division by zero is the last thing reported. */
  lemma DivisionByZeroYieldsZero(l: Node, r: Node, env: Env)
    requires Eval(r, env).0 == 0
    ensures Eval(Binary(l, Slash, r), env).0 == 0
    ensures var evs := Eval(Binary(l, Slash, r), env).1;
      |evs| > 0 && evs[|evs| - 1] == Reported(DivisionByZero)
  {
  }

  /**
   * `non`, the negation the parser builds, is not among the evaluator's prefix
   * operators: it yields 0 whatever its operand, and is reported.
   */
  lemma NonYieldsZero(x: Node, env: Env)
    ensures Eval(Unary(Non, x), env).0 == 0
    ensures var evs := Eval(Unary(Non, x), env).1;
      |evs| > 0 && evs[|evs| - 1] == Reported(UnhandledUnary(Non))
  {
  }

  /** `+`, `-` and `*` are integer arithmetic on the operands' values, and write only what the operands write. */
  lemma ArithmeticEvaluates(l: Node, op: TokenKind, r: Node, env: Env)
    requires op == Plus || op == Minus || op == Asterisk
    ensures var a, b := Eval(l, env), Eval(r, env);
      Eval(Binary(l, op, r), env)
      == (if op == Plus then a.0 + b.0 else if op == Minus then a.0 - b.0 else a.0 * b.0, a.1 + b.1)
  {
    var a, b := Eval(l, env), Eval(r, env);
    BinaryEvaluates(l, op, r, env);
    assert ApplyBinary(op, a.0, b.0).1 == [];
    assert a.1 + b.1 + [] == a.1 + b.1;
  }

  /** A binary expression applies its operator to the operands' values, after what the operands write. */
  lemma BinaryEvaluates(l: Node, op: TokenKind, r: Node, env: Env)
    ensures var a, b := Eval(l, env), Eval(r, env);
      Eval(Binary(l, op, r), env)
      == (ApplyBinary(op, a.0, b.0).0, a.1 + b.1 + ApplyBinary(op, a.0, b.0).1)
  {
  }

  /**
   * Dividing by an operand that is not 0 truncates toward zero: the remainder has
   * the sign of the dividend and is smaller than the divisor.
   */
  lemma DivisionTruncates(l: Node, r: Node, env: Env)
    requires Eval(r, env).0 != 0
    ensures var a, b, q := Eval(l, env).0, Eval(r, env).0, Eval(Binary(l, Slash, r), env).0;
      && (a >= 0 ==> 0 <= a - q * b < Abs(b))
      && (a < 0 ==> -(Abs(b) as int) < a - q * b <= 0)
    ensures Eval(Binary(l, Slash, r), env).1 == Eval(l, env).1 + Eval(r, env).1
  {
  }

  /** Whether a comparison operator relates two integers. */
  predicate Holds(op: TokenKind, a: int, b: int) {
    match op
    case Equal => a == b
    case BangEqual => a != b
    case Less => a < b
    case LessEqual => a <= b
    case Greater => a > b
    case GreaterEqual => a >= b
    case _ => false
  }

  /** A comparison yields 1 when it holds and 0 when it does not, and reports nothing of its own. */
  lemma ComparisonEvaluates(l: Node, op: TokenKind, r: Node, env: Env)
    requires IsComparison(op)
    ensures var a, b, c := Eval(l, env), Eval(r, env), Eval(Binary(l, op, r), env);
      && (c.0 == 1 <==> Holds(op, a.0, b.0))
      && (c.0 == 0 <==> !Holds(op, a.0, b.0))
      && c.1 == a.1 + b.1
  {
    var a, b := Eval(l, env), Eval(r, env);
    BinaryEvaluates(l, op, r, env);
    assert ApplyBinary(op, a.0, b.0).1 == [];
    assert a.1 + b.1 + [] == a.1 + b.1;
  }

  /** A bound variable reads its innermost binding and reports nothing. */
  lemma BoundVariableEvaluates(x: string, env: Env)
    requires Lookup(env, x).Some?
    ensures Eval(Variable(x), env) == (Lookup(env, x).value, [])
  {
  }

  /** An unbound variable is reported and yields 0. */
  lemma UnboundVariableYieldsZero(x: string, env: Env)
    requires Lookup(env, x).None?
    ensures Eval(Variable(x), env) == (0, [Reported(UndefinedVariable(x))])
  {
  }

  /** A string literal without NUL evaluates to its length. */
  lemma StringLiteralLength(text: string)
    requires Lexer.NoNul(text)
    ensures EvalLiteral(StrLit(text)) == |text|
  {
  }

  /** A string token from the lexer holds no NUL, so its literal evaluates to its length. */
  lemma StringTokenLength(lx: Lexer.LexerState)
    requires Lexer.Valid(lx) && Lexer.Current(lx) == '"' && Lexer.LexString(lx).Success?
    ensures var text := TextOf(Lexer.LexString(lx).value.0);
      Eval(Literal(StrLit(text)), []) == (|text|, [])
  {
    var tok := Lexer.LexString(lx).value.0;
    assert tok.text.Some? && Lexer.NoNul(tok.text.value);
    var text := TextOf(tok);
    StringLiteralLength(text);
    assert Eval(Literal(StrLit(text)), []) == (EvalLiteral(StrLit(text)), []);
  }

  /** The text `2 + 3 * 4` parses with `*` tighter than `+`, and evaluates to 14. */
  lemma TwoPlusThreeTimesFour(env: Env)
    ensures var e := ParseExpression([Tok(Number, "2"), Tok(Plus, "+"), Tok(Number, "3"),
                                      Tok(Asterisk, "*"), Tok(Number, "4")]).node;
      Eval(e, env) == (14, [])
  {
    TimesBindsTighterThanPlus();
    EvalTimesThenPlus(env);
  }

  lemma EvalTimesThenPlus(env: Env)
    ensures Eval(Binary(Num(2), Plus, Binary(Num(3), Asterisk, Num(4))), env) == (14, [])
  {
    EvalNum(2, env);
    EvalNum(3, env);
    EvalNum(4, env);
    var product := Binary(Num(3), Asterisk, Num(4));
    var none: seq<Event> := [];
    assert none + none + none == none;
    assert Eval(product, env) == (12, []);
  }

  lemma EvalNum(n: nat, env: Env)
    ensures Eval(Num(n), env) == (n, [])
  {
    assert Num(n) == Literal(IntLit(n));
  }

  // ---------------------------------------------------------------------------
  // Early return.

  /** A return without a value returns 0, and changes nothing but the return flag and value. */
  lemma ReturnWithoutValue(fuel: nat, st: State)
    requires |st.env| > 0
    ensures Exec(fuel, Return(None), st) == Some(st.(hasReturn := true, returnValue := 0))
  {
    assert st.events + [] == st.events;
  }

  /** A return with a value stores that value, after what evaluating it writes. */
  lemma ReturnWithValue(fuel: nat, x: Node, st: State)
    requires |st.env| > 0
    ensures var v := Eval(x, st.env);
      Exec(fuel, Return(Some(x)), st)
      == Some(st.(events := st.events + v.1, hasReturn := true, returnValue := v.0))
  {
  }

  /** An `if` whose condition is nonzero runs its then-branch, once the condition is evaluated. */
  lemma IfThenRuns(fuel: nat, condition: Node, thenBranch: Node, elseBranch: Option<Node>, st: State)
    requires |st.env| > 0 && Eval(condition, st.env).0 != 0
    ensures Exec(fuel, If(condition, thenBranch, elseBranch), st)
      == Exec(fuel, thenBranch, st.(events := st.events + Eval(condition, st.env).1))
  {
  }

  /** An `if` whose condition is 0 runs its `sinon` branch, once the condition is evaluated. */
  lemma IfElseRuns(fuel: nat, condition: Node, thenBranch: Node, elseBranch: Node, st: State)
    requires |st.env| > 0 && Eval(condition, st.env).0 == 0
    ensures Exec(fuel, If(condition, thenBranch, Some(elseBranch)), st)
      == Exec(fuel, elseBranch, st.(events := st.events + Eval(condition, st.env).1))
  {
  }

  /** An `if` without `sinon` whose condition is 0 only evaluates the condition. */
  lemma IfWithoutElseSkips(fuel: nat, condition: Node, thenBranch: Node, st: State)
    requires |st.env| > 0 && Eval(condition, st.env).0 == 0
    ensures Exec(fuel, If(condition, thenBranch, None), st)
      == Some(st.(events := st.events + Eval(condition, st.env).1))
  {
  }

  /** Once a return has been executed, a block runs none of its statements. */
  lemma ReturnSkipsBlock(fuel: nat, statements: seq<Node>, st: State)
    requires |st.env| > 0 && st.hasReturn
    ensures Exec(fuel, Block(statements), st) == Some(st)
  {
    var pushed := st.(env := [map[]] + st.env);
    assert ExecSeq(fuel, statements, pushed, true) == Some(pushed);
    assert pushed.env[1..] == st.env;
  }

  /** Once a return has been executed, a while loop does not even evaluate its condition. */
  lemma ReturnSkipsWhile(fuel: nat, condition: Node, body: Node, st: State)
    requires |st.env| > 0 && st.hasReturn
    ensures Exec(fuel, While(condition, body), st) == Some(st)
  {
  }

  /** The statements after a return in the same block are never run. */
  lemma ReturnEndsBlock(fuel: nat, result: Option<Node>, rest: seq<Node>, st: State)
    requires |st.env| > 0 && !st.hasReturn
    ensures Exec(fuel, Block([Return(result)] + rest), st) == Exec(fuel, Block([Return(result)]), st)
    ensures Exec(fuel, Block([Return(result)]), st).Some?
    ensures Exec(fuel, Block([Return(result)]), st).value.hasReturn
  {
    var pushed := st.(env := [map[]] + st.env);
    var ret := Exec(fuel, Return(result), pushed).value;
    assert ret.hasReturn;
    assert ([Return(result)] + rest)[1..] == rest;
    assert ExecSeq(fuel, [Return(result)] + rest, pushed, true) == ExecSeq(fuel, rest, ret, true);
    assert ExecSeq(fuel, [Return(result)], pushed, true) == ExecSeq(fuel, [], ret, true);
  }

  // ---------------------------------------------------------------------------
  // Scopes.

  /** A name unbound before a block is unbound after it: the block's declarations are dropped with its scope. */
  lemma BlockForgetsLocals(fuel: nat, statements: seq<Node>, st: State, name: string)
    requires |st.env| > 0 && Lookup(st.env, name).None?
    requires Exec(fuel, Block(statements), st).Some?
    ensures Lookup(Exec(fuel, Block(statements), st).value.env, name).None?
  {
    var after := Exec(fuel, Block(statements), st).value;
    assert forall j :: 0 <= j < |after.env| ==> name !in st.env[j];
  }

  /**
   * A declaration inside a block of a name the enclosing scope already binds does
   * not shadow it: the enclosing variable holds the declared value after the block.
   */
  lemma BlockDeclarationOverwritesOuter(fuel: nat, name: string, v: int, st: State)
    requires |st.env| > 0 && !st.hasReturn && name in st.env[0]
    ensures var decl := VariableDecl(name, None, Some(Literal(IntLit(v))));
      && Exec(fuel, Block([decl]), st).Some?
      && Lookup(Exec(fuel, Block([decl]), st).value.env, name) == Some(v)
  {
    var decl := VariableDecl(name, None, Some(Literal(IntLit(v))));
    var pushed := st.(env := [map[]] + st.env);
    DeclarationOverwritesOuter(pushed.env, name, v);
    assert Eval(Literal(IntLit(v)), pushed.env) == (v, []);
    var inner := pushed.(env := SetVariable(pushed.env, name, v), events := pushed.events + []);
    assert Exec(fuel, decl, pushed) == Some(inner);
    assert ExecSeq(fuel, [decl], pushed, true) == ExecSeq(fuel, [], inner, true);
    assert ExecBlock(fuel, [decl], st) == Some(inner.(env := inner.env[1..]));
  }

  // ---------------------------------------------------------------------------
  // Loops.

  /** A while loop whose condition evaluates to 0 only evaluates it once. */
  lemma WhileStopsOnZero(fuel: nat, condition: Node, body: Node, st: State)
    requires |st.env| > 0 && !st.hasReturn && Eval(condition, st.env).0 == 0
    ensures Exec(fuel, While(condition, body), st)
      == Some(st.(events := st.events + Eval(condition, st.env).1))
  {
  }

  /** A while loop whose condition stays nonzero and whose body never returns runs out of any fuel. */
  lemma WhileTrueDiverges(fuel: nat, body: Node, st: State)
    requires |st.env| > 0 && !st.hasReturn
    requires forall f: nat, s: State | |s.env| > 0 :: Exec(f, body, s) == Some(s)
    ensures Exec(fuel, While(Literal(IntLit(1)), body), st).None?
  {
    WhileLoopDiverges(fuel, body, st);
  }

  lemma {:induction false} WhileLoopDiverges(fuel: nat, body: Node, st: State)
    requires |st.env| > 0 && !st.hasReturn
    requires forall f: nat, s: State | |s.env| > 0 :: Exec(f, body, s) == Some(s)
    ensures WhileLoop(fuel, Literal(IntLit(1)), body, st).None?
    decreases fuel
  {
    assert Eval(Literal(IntLit(1)), st.env) == (1, []);
    assert st.(events := st.events + []) == st;
    if fuel > 0 {
      assert Exec(fuel, body, st) == Some(st);
      WhileLoopDiverges(fuel - 1, body, st);
    }
  }

  /** The direction of a for loop plays no part in running it. */
  lemma ForIgnoresDirection(fuel: nat, init: Option<Node>, guard: Option<Node>, update: Option<Node>,
                            body: Node, up: int, down: int, st: State)
    requires |st.env| > 0
    ensures Exec(fuel, For(init, guard, update, body, up), st)
         == Exec(fuel, For(init, guard, update, body, down), st)
  {
  }

  // ---------------------------------------------------------------------------
  // Fuel: a run that finishes finishes the same way with more fuel.

  lemma {:induction false} ExecMonotone(fuel: nat, more: nat, n: Node, st: State)
    requires |st.env| > 0 && fuel <= more && Exec(fuel, n, st).Some?
    ensures Exec(more, n, st) == Exec(fuel, n, st)
    decreases fuel, n, 2
  {
    match n
    case Program(declarations) => ExecSeqMonotone(fuel, more, declarations, st, false);
    case Block(statements) => ExecBlockMonotone(fuel, more, statements, st);
    case If(condition, thenBranch, elseBranch) =>
      var c := Eval(condition, st.env);
      var st1 := st.(events := st.events + c.1);
      if c.0 != 0 {
        ExecMonotone(fuel, more, thenBranch, st1);
      } else if elseBranch.Some? {
        ExecMonotone(fuel, more, elseBranch.value, st1);
      }
    case While(condition, body) => WhileMonotone(fuel, more, condition, body, st);
    case For(_, _, _, _, _) => ExecForMonotone(fuel, more, n, st);
    case _ =>
  }

  lemma {:induction false} ExecSeqMonotone(fuel: nat, more: nat, statements: seq<Node>, st: State, check: bool)
    requires |st.env| > 0 && fuel <= more && ExecSeq(fuel, statements, st, check).Some?
    ensures ExecSeq(more, statements, st, check) == ExecSeq(fuel, statements, st, check)
    decreases fuel, statements, 0
  {
    if |statements| > 0 && !(check && st.hasReturn) {
      ExecMonotone(fuel, more, statements[0], st);
      var st1 := Exec(fuel, statements[0], st).value;
      ExecSeqMonotone(fuel, more, statements[1..], st1, check);
    }
  }

  lemma {:induction false} ExecBlockMonotone(fuel: nat, more: nat, statements: seq<Node>, st: State)
    requires |st.env| > 0 && fuel <= more && ExecBlock(fuel, statements, st).Some?
    ensures ExecBlock(more, statements, st) == ExecBlock(fuel, statements, st)
    decreases fuel, statements, 1
  {
    ExecSeqMonotone(fuel, more, statements, st.(env := [map[]] + st.env), true);
  }

  lemma WhileMonotone(fuel: nat, more: nat, condition: Node, body: Node, st: State)
    requires |st.env| > 0 && fuel <= more && WhileLoop(fuel, condition, body, st).Some?
    ensures WhileLoop(more, condition, body, st) == WhileLoop(fuel, condition, body, st)
    decreases fuel, body, 4
  {
    var after := WhileEnters(fuel, more, condition, body, st);
    if after.Some? {
      WhileMonotone(fuel - 1, more - 1, condition, body, after.value);
    }
  }

  /**
   * A while loop either stops at once, the same way with more fuel, or enters its
   * body and reaches the same state `after` with more fuel; the two runs then agree
   * once the rest of the loop from `after` does.
   */
  lemma WhileEnters(fuel: nat, more: nat, condition: Node, body: Node, st: State) returns (after: Option<State>)
    requires |st.env| > 0 && fuel <= more && WhileLoop(fuel, condition, body, st).Some?
    ensures after.None? ==> WhileLoop(more, condition, body, st) == WhileLoop(fuel, condition, body, st)
    ensures after.Some? ==>
      (0 < fuel <= more && |after.value.env| > 0 && WhileLoop(fuel - 1, condition, body, after.value).Some?)
    ensures after.Some? ==>
      (WhileLoop(more - 1, condition, body, after.value) == WhileLoop(fuel - 1, condition, body, after.value)
       ==> WhileLoop(more, condition, body, st) == WhileLoop(fuel, condition, body, st))
    decreases fuel, body, 3
  {
    if !st.hasReturn && Eval(condition, st.env).0 != 0 {
      var st1 := st.(events := st.events + Eval(condition, st.env).1);
      ExecMonotone(fuel, more, body, st1);
      var st2 := Exec(fuel, body, st1).value;
      WhileIteration(fuel, condition, body, st, st2);
      WhileIteration(more, condition, body, st, st2);
      after := Some(st2);
    } else {
      WhileStops(fuel, condition, body, st);
      WhileStops(more, condition, body, st);
      after := None;
    }
  }

  /** A while loop after a return, or whose condition is 0, stops without needing fuel. */
  lemma WhileStops(fuel: nat, condition: Node, body: Node, st: State)
    requires |st.env| > 0 && (st.hasReturn || Eval(condition, st.env).0 == 0)
    ensures WhileLoop(fuel, condition, body, st)
      == Some(if st.hasReturn then st else st.(events := st.events + Eval(condition, st.env).1))
  {
  }

  /** One iteration of a while loop whose body ends in `after`. */
  lemma WhileIteration(fuel: nat, condition: Node, body: Node, st: State, after: State)
    requires |st.env| > 0 && !st.hasReturn && fuel > 0 && Eval(condition, st.env).0 != 0
    requires Exec(fuel, body, st.(events := st.events + Eval(condition, st.env).1)) == Some(after)
    ensures WhileLoop(fuel, condition, body, st) == WhileLoop(fuel - 1, condition, body, after)
  {
  }

  lemma {:induction false} ExecForMonotone(fuel: nat, more: nat, loop: Node, st: State)
    requires loop.For? && |st.env| > 0 && fuel <= more && ExecFor(fuel, loop, st).Some?
    ensures ExecFor(more, loop, st) == ExecFor(fuel, loop, st)
    decreases fuel, loop, 1
  {
    var st1 := st.(env := [map[]] + st.env);
    if loop.init.Some? {
      ExecMonotone(fuel, more, loop.init.value, st1);
    }
    var s2 := (if loop.init.Some? then Exec(fuel, loop.init.value, st1) else Some(st1)).value;
    ForMonotone(fuel, more, loop.guard, loop.update, loop.body, s2);
  }

  lemma ForMonotone(fuel: nat, more: nat, guard: Option<Node>, update: Option<Node>, body: Node, st: State)
    requires |st.env| > 0 && fuel <= more && ForLoop(fuel, guard, update, body, st).Some?
    ensures ForLoop(more, guard, update, body, st) == ForLoop(fuel, guard, update, body, st)
    decreases fuel, body, 4
  {
    var next := ForEnters(fuel, more, guard, update, body, st);
    if next.Some? {
      ForMonotone(fuel - 1, more - 1, guard, update, body, next.value);
    }
  }

  /**
   * A for loop either stops at once, the same way with more fuel, or runs its body
   * and update and reaches the same state `next` with more fuel; the two runs then
   * agree once the rest of the loop from `next` does.
   */
  lemma ForEnters(fuel: nat, more: nat, guard: Option<Node>, update: Option<Node>, body: Node, st: State)
    returns (next: Option<State>)
    requires |st.env| > 0 && fuel <= more && ForLoop(fuel, guard, update, body, st).Some?
    ensures next.None? ==> ForLoop(more, guard, update, body, st) == ForLoop(fuel, guard, update, body, st)
    ensures next.Some? ==>
      (0 < fuel <= more && |next.value.env| > 0 && ForLoop(fuel - 1, guard, update, body, next.value).Some?)
    ensures next.Some? ==>
      (ForLoop(more - 1, guard, update, body, next.value) == ForLoop(fuel - 1, guard, update, body, next.value)
       ==> ForLoop(more, guard, update, body, st) == ForLoop(fuel, guard, update, body, st))
    decreases fuel, body, 3
  {
    if !st.hasReturn && Guard(guard, st.env).0 != 0 {
      var st1 := st.(events := st.events + Guard(guard, st.env).1);
      ExecMonotone(fuel, more, body, st1);
      var after := Exec(fuel, body, st1).value;
      ForIteration(fuel, guard, update, body, st, after);
      ForIteration(more, guard, update, body, st, after);
      next := Some(RunUpdate(update, after));
    } else {
      ForStops(fuel, guard, update, body, st);
      ForStops(more, guard, update, body, st);
      next := None;
    }
  }

  /** A for loop after a return, or whose condition is 0, stops without needing fuel. */
  lemma ForStops(fuel: nat, guard: Option<Node>, update: Option<Node>, body: Node, st: State)
    requires |st.env| > 0 && (st.hasReturn || Guard(guard, st.env).0 == 0)
    ensures ForLoop(fuel, guard, update, body, st)
      == Some(if st.hasReturn then st else st.(events := st.events + Guard(guard, st.env).1))
  {
  }

  /** One iteration of a for loop whose body ends in `after`. */
  lemma ForIteration(fuel: nat, guard: Option<Node>, update: Option<Node>, body: Node, st: State, after: State)
    requires |st.env| > 0 && !st.hasReturn && fuel > 0 && Guard(guard, st.env).0 != 0
    requires Exec(fuel, body, st.(events := st.events + Guard(guard, st.env).1)) == Some(after)
    ensures ForLoop(fuel, guard, update, body, st) == ForLoop(fuel - 1, guard, update, body, RunUpdate(update, after))
  {
  }

  /** A program that finishes with some fuel finishes the same way with any more fuel. */
  lemma RunMonotone(fuel: nat, more: nat, program: Node)
    requires fuel <= more && Run(fuel, program).Some?
    ensures Run(more, program) == Run(fuel, program)
  {
    ExecMonotone(fuel, more, program, Initial);
  }
}
