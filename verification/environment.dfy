/**
 * The interpreter's scope chain.  An environment is the list of its scopes,
 * innermost first; each scope maps a variable name to its value.  Every write the
 * interpreter performs stores an integer, so a binding holds an `int`.
 */
module Environment {
  import opened Wrappers

  type Scope = map<string, int>

  /** The scopes of the chain, innermost first; the last one is the global scope. */
  type Env = seq<Scope>

  /** The index of the innermost scope that binds `name`. */
  function DefiningScope(env: Env, name: string): (r: Option<nat>)
    ensures r.Some? ==> r.value < |env| && name in env[r.value]
    ensures r.Some? ==> forall j :: 0 <= j < r.value ==> name !in env[j]
    ensures r.None? <==> forall j :: 0 <= j < |env| ==> name !in env[j]
  {
    if |env| == 0 then None
    else if name in env[0] then Some(0)
    else match DefiningScope(env[1..], name)
      case None => None
      case Some(k) => Some(k + 1)
  }

  /**
   * `get_variable`: walks outward from the innermost scope and returns the first
   * binding of the name, or nothing once the chain is exhausted.
   */
  function Lookup(env: Env, name: string): (r: Option<int>)
    ensures r.Some? <==> DefiningScope(env, name).Some?
    ensures r.Some? ==> r.value == env[DefiningScope(env, name).value][name]
  {
    if |env| == 0 then None
    else if name in env[0] then Some(env[0][name])
    else Lookup(env[1..], name)
  }

  /**
   * `set_variable`: a name bound somewhere in the chain is updated in the scope
   * that binds it; an unbound name is added to the innermost scope.  No scope is
   * added or dropped, and only the innermost scope can gain a name.
   */
  function SetVariable(env: Env, name: string, value: int): (r: Env)
    requires |env| > 0
    ensures |r| == |env|
    ensures forall i :: 1 <= i < |env| ==> r[i].Keys == env[i].Keys
    ensures env[0].Keys <= r[0].Keys <= env[0].Keys + {name}
    ensures DefiningScope(env, name).Some? ==> r[0].Keys == env[0].Keys
    ensures var k := DefiningScope(env, name).GetOr(0);
      && r[k] == env[k][name := value]
      && forall i :: 0 <= i < |env| && i != k ==> r[i] == env[i]
  {
    match DefiningScope(env, name)
    case Some(k) => env[k := env[k][name := value]]
    case None => env[0 := env[0][name := value]]
  }

  /**
   * The bindings visible from the innermost scope, as one map: an inner binding
   * hides an outer binding of the same name.
   */
  function Visible(env: Env): map<string, int> {
    if |env| == 0 then map[] else Visible(env[1..]) + env[0]
  }

  /** Walking the chain finds exactly the visible binding. */
  lemma {:induction false} LookupIsVisible(env: Env, name: string)
    ensures Lookup(env, name).Some? <==> name in Visible(env)
    ensures Lookup(env, name).Some? ==> Lookup(env, name).value == Visible(env)[name]
  {
    if |env| > 0 && name !in env[0] {
      LookupIsVisible(env[1..], name);
    }
  }

  /** Only the scope that defines a name holds the binding a write to it changes. */
  lemma {:induction false} SetUpdatesVisible(env: Env, name: string, value: int)
    requires |env| > 0
    ensures Visible(SetVariable(env, name, value)) == Visible(env)[name := value]
  {
    if name !in env[0] && DefiningScope(env, name).Some? {
      SetUpdatesVisible(env[1..], name, value);
      SetOuterShape(env, name, value);
    } else {
      SetInnermostShape(env, name, value);
    }
  }

  /** A write that lands in the innermost scope leaves the enclosing scopes as they were. */
  lemma SetInnermostShape(env: Env, name: string, value: int)
    requires |env| > 0 && (name in env[0] || DefiningScope(env, name).None?)
    ensures Visible(SetVariable(env, name, value)) == Visible(env)[name := value]
  {
    var r := SetVariable(env, name, value);
    assert r == env[0 := env[0][name := value]];
    assert r[1..] == env[1..];
    UpdateInner(Visible(env[1..]), env[0], name, value);
  }

  /** A write that lands in an enclosing scope is a write to the chain without the innermost scope. */
  lemma SetOuterShape(env: Env, name: string, value: int)
    requires |env| > 0 && name !in env[0] && DefiningScope(env, name).Some?
    requires Visible(SetVariable(env[1..], name, value)) == Visible(env[1..])[name := value]
    ensures Visible(SetVariable(env, name, value)) == Visible(env)[name := value]
  {
    var k := DefiningScope(env, name).value;
    var r := SetVariable(env, name, value);
    assert DefiningScope(env[1..], name) == Some(k - 1);
    assert r[1..] == SetVariable(env[1..], name, value);
    assert r[0] == env[0];
    UpdateOuter(Visible(env[1..]), env[0], name, value);
  }

  lemma UpdateInner(outer: map<string, int>, inner: map<string, int>, name: string, value: int)
    ensures outer + inner[name := value] == (outer + inner)[name := value]
  {
  }

  lemma UpdateOuter(outer: map<string, int>, inner: map<string, int>, name: string, value: int)
    requires name !in inner
    ensures outer[name := value] + inner == (outer + inner)[name := value]
  {
  }

  /** After a write, the name reads back the value written. */
  lemma SetThenLookup(env: Env, name: string, value: int)
    requires |env| > 0
    ensures Lookup(SetVariable(env, name, value), name) == Some(value)
  {
    SetUpdatesVisible(env, name, value);
    LookupIsVisible(SetVariable(env, name, value), name);
  }

  /** A write leaves every other name reading what it read before. */
  lemma SetLeavesOthers(env: Env, name: string, value: int, other: string)
    requires |env| > 0 && other != name
    ensures Lookup(SetVariable(env, name, value), other) == Lookup(env, other)
  {
    SetUpdatesVisible(env, name, value);
    LookupIsVisible(SetVariable(env, name, value), other);
    LookupIsVisible(env, other);
  }

  /**
   * A declaration of a name already bound in an enclosing scope does not shadow it:
   * it overwrites the enclosing binding, which keeps the new value once the inner
   * scope is dropped.
   */
  lemma DeclarationOverwritesOuter(env: Env, name: string, value: int)
    requires |env| > 1 && name !in env[0] && name in env[1]
    ensures SetVariable(env, name, value)[0] == env[0]
    ensures Lookup(SetVariable(env, name, value)[1..], name) == Some(value)
  {
    var r := SetVariable(env, name, value);
    assert DefiningScope(env, name) == Some(1);
    assert r[1..][0] == r[1];
  }
}
