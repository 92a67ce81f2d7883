/**
 * The tree-walking interpreter.  Expressions evaluate to C `int`s (modelled as
 * unbounded integers) together with the lines the evaluation writes; statements
 * thread a `State` holding the scope chain, the sticky return flag, the return
 * value and everything written so far.  Loops may run forever, so statement
 * execution takes fuel and yields `None` once it runs out.
 */
module Interpreter {
  import opened Wrappers
  import opened Tokens
  import opened Ast
  import opened Environment

  /** A non-fatal runtime error: it is reported and execution goes on. */
  datatype RuntimeError =
    | DivisionByZero
    | UnhandledBinary(binaryOp: TokenKind)
    | UnhandledUnary(unaryOp: TokenKind)
    | UndefinedVariable(variable: string)
    | UndefinedFunction(callee: string)
    | UnhandledExpression
    | UnhandledNode
    | AssignToNonVariable

  /** A line written to standard output, or an error reported on standard error. */
  datatype Event = Printed(line: string) | Reported(error: RuntimeError)

  /** Whether every event is a report: nothing was written to standard output. */
  predicate Quiet(evs: seq<Event>) {
    forall k :: 0 <= k < |evs| ==> evs[k].Reported?
  }

  // ---------------------------------------------------------------------------
  // Expressions.

  function Abs(x: int): nat {
    if x < 0 then -x else x
  }

  /** C division: the quotient is truncated toward zero, so the remainder has the sign of the dividend. */
  function CDiv(a: int, b: int): (q: int)
    requires b != 0
    ensures a >= 0 ==> 0 <= a - q * b < Abs(b)
    ensures a < 0 ==> -(Abs(b) as int) < a - q * b <= 0
  {
    var m := Abs(a) / Abs(b);
    NatDivision(Abs(a), Abs(b));
    if (a < 0) == (b < 0) then
      SameSignProduct(m, a, b);
      m
    else
      OppositeSignProduct(m, a, b);
      -m
  }

  lemma NatDivision(x: nat, y: nat)
    requires y > 0
    ensures 0 <= x - (x / y) * y < y
  {
  }

  lemma SameSignProduct(m: int, a: int, b: int)
    requires (a < 0) == (b < 0)
    ensures a - m * b == (if a < 0 then -(Abs(a) - m * Abs(b)) else Abs(a) - m * Abs(b))
  {
    if b < 0 {
      assert m * b == -(m * Abs(b));
    }
  }

  lemma OppositeSignProduct(m: int, a: int, b: int)
    requires (a < 0) != (b < 0)
    ensures a - (-m) * b == (if a < 0 then -(Abs(a) - m * Abs(b)) else Abs(a) - m * Abs(b))
  {
    if b < 0 {
      assert (-m) * b == m * Abs(b);
    } else {
      assert (-m) * b == -(m * Abs(b));
    }
  }

  function BoolValue(b: bool): int {
    if b then 1 else 0
  }

  /** The operators `evaluate_binary_expr` knows. */
  predicate HandledBinary(op: TokenKind) {
    op in {Plus, Minus, Asterisk, Slash, Equal, BangEqual, Less, LessEqual, Greater, GreaterEqual}
  }

  predicate IsComparison(op: TokenKind) {
    op in {Equal, BangEqual, Less, LessEqual, Greater, GreaterEqual}
  }

  /**
   * A binary operator applied to two evaluated operands.  Division by zero and
   * any operator the evaluator does not know are reported and yield 0.
   */
  function ApplyBinary(op: TokenKind, left: int, right: int): (r: (int, seq<Event>))
    ensures r.1 == [] <==> HandledBinary(op) && !(op == Slash && right == 0)
    ensures r.1 != [] ==> r.0 == 0 && |r.1| == 1 && r.1[0].Reported?
    ensures op == Slash && right == 0 ==> r.1 == [Reported(DivisionByZero)]
    ensures IsComparison(op) ==> r.0 == 0 || r.0 == 1
    ensures op == Plus ==> r.0 == left + right
    ensures op == Minus ==> r.0 == left - right
    ensures op == Asterisk ==> r.0 == left * right
    ensures op == Slash && right != 0 ==> r.0 == CDiv(left, right)
    ensures op == Equal ==> (r.0 == 1 <==> left == right)
    ensures op == BangEqual ==> (r.0 == 1 <==> left != right)
    ensures op == Less ==> (r.0 == 1 <==> left < right)
    ensures op == LessEqual ==> (r.0 == 1 <==> left <= right)
    ensures op == Greater ==> (r.0 == 1 <==> left > right)
    ensures op == GreaterEqual ==> (r.0 == 1 <==> left >= right)
    ensures !HandledBinary(op) ==> r.1 == [Reported(UnhandledBinary(op))]
  {
    match op
    case Plus => (left + right, [])
    case Minus => (left - right, [])
    case Asterisk => (left * right, [])
    case Slash =>
      if right == 0 then (0, [Reported(DivisionByZero)]) else (CDiv(left, right), [])
    case Equal => (BoolValue(left == right), [])
    case BangEqual => (BoolValue(left != right), [])
    case Less => (BoolValue(left < right), [])
    case LessEqual => (BoolValue(left <= right), [])
    case Greater => (BoolValue(left > right), [])
    case GreaterEqual => (BoolValue(left >= right), [])
    case _ => (0, [Reported(UnhandledBinary(op))])
  }

  /** A prefix operator applied to an evaluated operand: `-` negates, `!` is C's logical not, anything else is reported and yields 0. */
  function ApplyUnary(op: TokenKind, operand: int): (r: (int, seq<Event>))
    ensures r.1 == [] <==> op == Minus || op == Bang
    ensures r.1 != [] ==> r.0 == 0 && r.1 == [Reported(UnhandledUnary(op))]
    ensures op == Bang ==> (r.0 == 1 <==> operand == 0) && (r.0 == 0 <==> operand != 0)
    ensures op == Minus ==> r.0 + operand == 0
  {
    match op
    case Minus => (-operand, [])
    case Bang => (if operand == 0 then 1 else 0, [])
    case _ => (0, [Reported(UnhandledUnary(op))])
  }

  /** `strlen`: the characters before the first NUL. */
  function StrLen(s: string): (n: nat)
    ensures n <= |s|
    ensures forall i :: 0 <= i < n ==> s[i] != '\0'
    ensures n < |s| ==> s[n] == '\0'
  {
    if |s| == 0 || s[0] == '\0' then 0 else 1 + StrLen(s[1..])
  }

  /**
   * A literal's value, chosen by its tag: a number its value, `vrai` 1, `faux` 0,
   * a string its length, and a character 0.
   */
  function EvalLiteral(lit: Literal): (v: int)
    ensures lit.Tag() == Number ==> v == lit.value
    ensures lit.Tag() == Vrai ==> v == 1
    ensures lit.Tag() == Faux ==> v == 0
    ensures lit.Tag() == Character ==> v == 0
    ensures lit.Tag() == StringLit ==> v == StrLen(lit.text) && v <= |lit.text|
  {
    match lit.Tag()
    case Number => lit.value
    case Vrai => 1
    case Faux => 0
    case StringLit => StrLen(lit.text)
    case _ => 0
  }

  const EcrireAnnounce: string := "Fonction 'ecrire' appelée"
  const EcrireMessage: string := "Message par défaut"

  /**
   * A call, whatever its arguments: `ecrire` writes its announcement and then the
   * fixed default message; any other name is reported as undefined.
   */
  function CallEvents(name: string): (evs: seq<Event>)
    ensures Quiet(evs) <==> name != "ecrire"
  {
    if name == "ecrire" then
      var evs := [Printed(EcrireAnnounce), Printed(EcrireMessage)];
      assert !evs[0].Reported?;
      evs
    else [Reported(UndefinedFunction(name))]
  }

  /** Whether an expression calls `ecrire` somewhere. */
  predicate CallsEcrire(e: Node) {
    match e
    case Call(name) => name == "ecrire"
    case Binary(l, _, r) => CallsEcrire(l) || CallsEcrire(r)
    case Unary(_, x) => CallsEcrire(x)
    case _ => false
  }

  /**
   * `evaluate_expression`: the value of an expression in a scope chain, and what
   * evaluating it writes, left operand first.  A null subtree is 0 and writes
   * nothing; an unbound variable is reported and is 0; a call is run for what it
   * writes and is 0; any other node is reported and is 0.
   */
  function Eval(e: Node, env: Env): (r: (int, seq<Event>))
    ensures !CallsEcrire(e) ==> Quiet(r.1)
    ensures e == Missing ==> r == (0, [])
    ensures e.Variable? ==> r == (Lookup(env, e.name).GetOr(0),
      if Lookup(env, e.name).Some? then [] else [Reported(UndefinedVariable(e.name))])
  {
    match e
    case Missing => (0, [])
    case Binary(l, op, rt) =>
      var a := Eval(l, env);
      var b := Eval(rt, env);
      var c := ApplyBinary(op, a.0, b.0);
      (c.0, a.1 + b.1 + c.1)
    case Unary(op, x) =>
      var a := Eval(x, env);
      var c := ApplyUnary(op, a.0);
      (c.0, a.1 + c.1)
    case Literal(lit) => (EvalLiteral(lit), [])
    case Variable(name) =>
      (match Lookup(env, name)
       case Some(v) => (v, [])
       case None => (0, [Reported(UndefinedVariable(name))]))
    case Call(name) => (0, CallEvents(name))
    case _ => (0, [Reported(UnhandledExpression)])
  }

  // ---------------------------------------------------------------------------
  // Statements.

  /** The interpreter's state: the scope chain, the return flag and value, and everything written so far. */
  datatype State = State(env: Env, hasReturn: bool, returnValue: int, events: seq<Event>)

  /** The state of a fresh run: one empty global scope. */
  const Initial: State := State([map[]], false, 0, [])

  /**
   * What a statement may do to the scope chain it runs in: no scope appears or
   * disappears, the enclosing scopes keep their names, and the innermost scope
   * only gains names.
   */
  predicate Confined(before: Env, after: Env) {
    && |after| == |before|
    && (|before| > 0 ==> before[0].Keys <= after[0].Keys)
    && (forall i :: 1 <= i < |before| ==> after[i].Keys == before[i].Keys)
  }

  lemma ConfinedTransitive(a: Env, b: Env, c: Env)
    requires Confined(a, b) && Confined(b, c)
    ensures Confined(a, c)
  {
  }

  /** Dropping the innermost scope of a confined chain gives back the enclosing scopes with exactly their names. */
  lemma PopScope(outer: Env, inner: Env)
    requires Confined([map[]] + outer, inner)
    ensures |inner[1..]| == |outer|
    ensures forall i :: 0 <= i < |outer| ==> inner[1..][i].Keys == outer[i].Keys
    ensures Confined(outer, inner[1..])
  {
    forall i | 0 <= i < |outer|
      ensures inner[1..][i].Keys == outer[i].Keys
    {
      assert ([map[]] + outer)[i + 1] == outer[i];
    }
  }

  /** What every statement guarantees: its scope effects are confined, output is only appended, and a return is never undone. */
  predicate Step(st: State, r: State) {
    && Confined(st.env, r.env)
    && st.events <= r.events
    && (st.hasReturn ==> r.hasReturn)
  }

  /** `interpret_node`, with `fuel` bounding the iterations of every loop it runs. */
  function Exec(fuel: nat, n: Node, st: State): (r: Option<State>)
    requires |st.env| > 0
    ensures r.Some? ==> Step(st, r.value)
    decreases fuel, n, 2
  {
    match n
    case Missing => Some(st)
    case Program(declarations) => ExecSeq(fuel, declarations, st, false)
    case Block(statements) => ExecBlock(fuel, statements, st)
    case VariableDecl(name, _, initializer) =>
      var v := if initializer.Some? then Eval(initializer.value, st.env) else (0, []);
      Some(st.(env := SetVariable(st.env, name, v.0), events := st.events + v.1))
    case FunctionDecl(_, _, _, _) => Some(st)
    case If(condition, thenBranch, elseBranch) =>
      var c := Eval(condition, st.env);
      var st1 := st.(events := st.events + c.1);
      if c.0 != 0 then Exec(fuel, thenBranch, st1)
      else if elseBranch.Some? then Exec(fuel, elseBranch.value, st1)
      else Some(st1)
    case While(condition, body) => WhileLoop(fuel, condition, body, st)
    case For(_, _, _, _, _) => ExecFor(fuel, n, st)
    case Return(result) =>
      var v := if result.Some? then Eval(result.value, st.env) else (0, []);
      Some(st.(events := st.events + v.1, hasReturn := true, returnValue := v.0))
    case Call(name) => Some(st.(events := st.events + CallEvents(name)))
    case Assignment(target, value) =>
      var v := Eval(value, st.env);
      if target.Variable? then
        Some(st.(env := SetVariable(st.env, target.name, v.0), events := st.events + v.1))
      else
        Some(st.(events := st.events + v.1 + [Reported(AssignToNonVariable)]))
    case Binary(_, _, _) => Some(st.(events := st.events + Eval(n, st.env).1))
    case Unary(_, _) => Some(st.(events := st.events + Eval(n, st.env).1))
    case Variable(_) => Some(st.(events := st.events + Eval(n, st.env).1))
    case Literal(_) => Some(st.(events := st.events + Eval(n, st.env).1))
    case _ => Some(st.(events := st.events + [Reported(UnhandledNode)]))
  }

  /**
   * The statements of a program (`check` false) or of a block (`check` true), in
   * order; a block stops before any statement once a return has been executed.
   */
  function ExecSeq(fuel: nat, statements: seq<Node>, st: State, check: bool): (r: Option<State>)
    requires |st.env| > 0
    ensures r.Some? ==> Step(st, r.value)
    ensures check && st.hasReturn ==> r == Some(st)
    decreases fuel, statements, 0
  {
    if |statements| == 0 || (check && st.hasReturn) then Some(st)
    else match Exec(fuel, statements[0], st)
      case None => None
      case Some(st1) => ExecSeq(fuel, statements[1..], st1, check)
  }

  /**
   * `interpret_block`: the statements run in a new innermost scope, which is
   * dropped afterwards, so every scope ends with exactly the names it had.
   */
  function ExecBlock(fuel: nat, statements: seq<Node>, st: State): (r: Option<State>)
    requires |st.env| > 0
    ensures r.Some? ==> Step(st, r.value)
    ensures r.Some? ==> forall i :: 0 <= i < |st.env| ==> r.value.env[i].Keys == st.env[i].Keys
    decreases fuel, statements, 1
  {
    match ExecSeq(fuel, statements, st.(env := [map[]] + st.env), true)
    case None => None
    case Some(inner) =>
      PopScope(st.env, inner.env);
      Some(inner.(env := inner.env[1..]))
  }

  /**
   * `interpret_while_statement`: while no return has been executed and the
   * condition is nonzero, the body runs.  Each iteration costs one unit of fuel.
   */
  function WhileLoop(fuel: nat, condition: Node, body: Node, st: State): (r: Option<State>)
    requires |st.env| > 0
    ensures r.Some? ==> Step(st, r.value)
    decreases fuel, body, 3
  {
    if st.hasReturn then Some(st)
    else
      var c := Eval(condition, st.env);
      var st1 := st.(events := st.events + c.1);
      if c.0 == 0 then Some(st1)
      else if fuel == 0 then None
      else match Exec(fuel, body, st1)
        case None => None
        case Some(st2) => WhileLoop(fuel - 1, condition, body, st2)
  }

  /**
   * `interpret_for_statement`: in a new innermost scope, the initializer runs once,
   * then the loop runs; the scope is dropped afterwards.  The direction is not used.
   */
  function ExecFor(fuel: nat, loop: Node, st: State): (r: Option<State>)
    requires loop.For? && |st.env| > 0
    ensures r.Some? ==> Step(st, r.value)
    ensures r.Some? ==> forall i :: 0 <= i < |st.env| ==> r.value.env[i].Keys == st.env[i].Keys
    decreases fuel, loop, 1
  {
    var st1 := st.(env := [map[]] + st.env);
    var st2 := if loop.init.Some? then Exec(fuel, loop.init.value, st1) else Some(st1);
    match st2
    case None => None
    case Some(s2) =>
      match ForLoop(fuel, loop.guard, loop.update, loop.body, s2)
      case None => None
      case Some(s3) =>
        ConfinedTransitive(st1.env, s2.env, s3.env);
        PopScope(st.env, s3.env);
        Some(s3.(env := s3.env[1..]))
  }

  /** A for loop's condition: its value and what evaluating it writes; a missing condition counts as true. */
  function Guard(guard: Option<Node>, env: Env): (c: (int, seq<Event>))
    ensures guard.None? ==> c.0 != 0 && c.1 == []
  {
    if guard.Some? then Eval(guard.value, env) else (1, [])
  }

  /** A for loop's update, evaluated as an expression for what it writes; it changes no variable. */
  function RunUpdate(update: Option<Node>, st: State): (r: State)
    ensures r.env == st.env && r.hasReturn == st.hasReturn && r.returnValue == st.returnValue
    ensures st.events <= r.events
  {
    if update.Some? then st.(events := st.events + Eval(update.value, st.env).1) else st
  }

  /**
   * The iterations of a for loop: while no return has been executed and the
   * condition, when there is one, is nonzero, the body runs and then the update is
   * evaluated.  Each iteration costs one unit of fuel.
   */
  function ForLoop(fuel: nat, guard: Option<Node>, update: Option<Node>, body: Node, st: State): (r: Option<State>)
    requires |st.env| > 0
    ensures r.Some? ==> Step(st, r.value)
    decreases fuel, body, 3
  {
    if st.hasReturn then Some(st)
    else
      var c := Guard(guard, st.env);
      var st1 := st.(events := st.events + c.1);
      if c.0 == 0 then Some(st1)
      else if fuel == 0 then None
      else match Exec(fuel, body, st1)
        case None => None
        case Some(st2) => ForLoop(fuel - 1, guard, update, body, RunUpdate(update, st2))
  }

  /** `interpret`: runs a program from a fresh state. */
  function Run(fuel: nat, program: Node): (r: Option<State>)
    ensures r.Some? ==> |r.value.env| == 1
  {
    Exec(fuel, program, Initial)
  }
}
