/** The variable environments of src/enviroment.rs: name-to-value maps linked
    through `enclosing`, with lookup and assignment that fall back to a
    separate global environment. The value type is a parameter.

    Each environment owns the one it encloses, so the chain is modelled by a
    footprint Repr and a ghost view Chain(): this environment's map first,
    then the maps of the enclosing environments outward. Innermost, Lookup
    and AssignFirst say on that view what get, assign and assign_global do. */
module Enviroment {
  import opened Wrappers
  import opened Scanner

  /** Why a variable access failed; the message text is not modelled. */
  datatype RuntimeError = UndefinedVariable(token: Token) | CannotChangeUndefined(token: Token)

  /** Some map of the chain binds name. */
  predicate Bound<V>(chain: seq<map<string, V>>, name: string)
  {
    exists i :: 0 <= i < |chain| && name in chain[i]
  }

  /** The value bound to name in the first map of the chain that has it. */
  function Innermost<V>(chain: seq<map<string, V>>, name: string): Option<V>
  {
    if chain == [] then None
    else if name in chain[0] then Some(chain[0][name])
    else Innermost(chain[1..], name)
  }

  /** The value get finds: the innermost binding, else the global one. */
  function Lookup<V>(chain: seq<map<string, V>>, global: map<string, V>, name: string): Option<V>
  {
    match Innermost(chain, name)
    case Some(v) => Some(v)
    case None => if name in global then Some(global[name]) else None
  }

  /** The chain after rebinding name in the first map that has it. */
  function AssignFirst<V>(chain: seq<map<string, V>>, name: string, v: V): (r: seq<map<string, V>>)
    ensures |r| == |chain|
  {
    if chain == [] then []
    else if name in chain[0] then [chain[0][name := v]] + chain[1..]
    else [chain[0]] + AssignFirst(chain[1..], name, v)
  }

  /** The position of the first map of the chain that binds name. */
  function FirstIndex<V>(chain: seq<map<string, V>>, name: string): (k: nat)
    requires Bound(chain, name)
    ensures k < |chain| && name in chain[k]
    ensures forall i :: 0 <= i < k ==> name !in chain[i]
  {
    if name in chain[0] then 0
    else
      assert Bound(chain[1..], name) by {
        var i :| 0 <= i < |chain| && name in chain[i];
        assert chain[1..][i - 1] == chain[i];
      }
      1 + FirstIndex(chain[1..], name)
  }

  /** There is an innermost binding exactly when some map binds the name,
      and it is the one at FirstIndex. */
  lemma {:induction false} InnermostFirst<V>(chain: seq<map<string, V>>, name: string)
    ensures Innermost(chain, name).Some? <==> Bound(chain, name)
    ensures Bound(chain, name) ==> Innermost(chain, name) == Some(chain[FirstIndex(chain, name)][name])
  {
    if chain != [] {
      InnermostFirst(chain[1..], name);
      if name !in chain[0] {
        if Bound(chain, name) {
          var i :| 0 <= i < |chain| && name in chain[i];
          assert chain[1..][i - 1] == chain[i];
        }
        if Bound(chain[1..], name) {
          var i :| 0 <= i < |chain[1..]| && name in chain[1..][i];
          assert chain[i + 1] == chain[1..][i];
        }
      }
    }
  }

  /** Assignment rebinds the first map holding the name and leaves every
      other map as it was; without a binding nothing changes. */
  lemma {:induction false} AssignFirstChanges<V>(chain: seq<map<string, V>>, name: string, v: V)
    ensures !Bound(chain, name) ==> AssignFirst(chain, name, v) == chain
    ensures Bound(chain, name) ==>
      var k := FirstIndex(chain, name);
      && AssignFirst(chain, name, v)[k] == chain[k][name := v]
      && forall i :: 0 <= i < |chain| && i != k ==> AssignFirst(chain, name, v)[i] == chain[i]
  {
    if chain != [] && name !in chain[0] {
      AssignFirstChanges(chain[1..], name, v);
      if !Bound(chain, name) {
        forall i | 0 <= i < |chain[1..]|
          ensures name !in chain[1..][i]
        {
          assert chain[1..][i] == chain[i + 1];
        }
        assert chain == [chain[0]] + chain[1..];
      }
    }
  }

  /** After assignment the name looks up to the new value, and every other
      name looks up as before. */
  lemma {:induction false} LookupAfterAssign<V>(chain: seq<map<string, V>>, name: string, v: V, other: string)
    requires Bound(chain, name)
    ensures Innermost(AssignFirst(chain, name, v), name) == Some(v)
    ensures other != name ==> Innermost(AssignFirst(chain, name, v), other) == Innermost(chain, other)
  {
    if name !in chain[0] {
      assert Bound(chain[1..], name) by {
        var i :| 0 <= i < |chain| && name in chain[i];
        assert chain[1..][i - 1] == chain[i];
      }
      LookupAfterAssign(chain[1..], name, v, other);
      assert (AssignFirst(chain, name, v))[1..] == AssignFirst(chain[1..], name, v);
    } else {
      assert AssignFirst(chain, name, v)[1..] == chain[1..];
    }
  }

  /** A binding put into the innermost map shadows every outer one. */
  lemma PutShadows<V>(m: map<string, V>, rest: seq<map<string, V>>, name: string, v: V, global: map<string, V>)
    ensures Lookup([m[name := v]] + rest, global, name) == Some(v)
  {
  }

  /** One environment of the chain. */
  class Enviroment<V> {
    var values: map<string, V>
    var enclosing: Option<Enviroment<V>>
    ghost var Repr: set<Enviroment<V>>

    ghost predicate Valid()
      reads this, Repr
      decreases Repr
    {
      && this in Repr
      && match enclosing
         case None => true
         case Some(e) => e in Repr && e.Repr <= Repr && this !in e.Repr && e.Valid()
    }

    /** The maps of this environment and of those it encloses, innermost
        first. */
    ghost function Chain(): (chain: seq<map<string, V>>)
      reads this, Repr
      requires Valid()
      ensures |chain| >= 1 && chain[0] == values
      decreases Repr
    {
      match enclosing
      case None => [values]
      case Some(e) => [values] + e.Chain()
    }

    /** create_enviroment: an empty map enclosing exactly the given
        environment. */
    constructor Create(enclosing: Option<Enviroment<V>>)
      requires enclosing.Some? ==> enclosing.value.Valid()
      ensures Valid() && fresh({this})
      ensures values == map[] && this.enclosing == enclosing
      ensures Chain() == [map[]] + (if enclosing.Some? then enclosing.value.Chain() else [])
    {
      values := map[];
      this.enclosing := enclosing;
      Repr := {this} + (if enclosing.Some? then enclosing.value.Repr else {});
    }

    /** enclosing: takes env as the enclosing environment. */
    method SetEnclosing(env: Enviroment<V>)
      requires Valid() && env.Valid() && this !in env.Repr
      modifies this
      ensures Valid() && values == old(values) && enclosing == Some(env)
      ensures Chain() == [values] + env.Chain()
    {
      enclosing := Some(env);
      Repr := {this} + env.Repr;
    }

    /** put: binds name in this environment only. */
    method Put(name: string, value: V)
      requires Valid()
      modifies this`values
      ensures Valid() && values == old(values)[name := value]
      ensures Chain() == [values] + old(Chain())[1..]
    {
      values := values[name := value];
    }

    /** get: the innermost binding along the chain, else the global one,
        else an undefined-variable error. It changes nothing. */
    function Get(token: Token, global: Enviroment<V>): (r: Result<V, RuntimeError>)
      reads this, Repr, global
      requires Valid()
      ensures r.Ok? <==> Lookup(Chain(), global.values, token.lexeme).Some?
      ensures r.Ok? ==> Some(r.value) == Lookup(Chain(), global.values, token.lexeme)
      ensures r.Err? ==> r.error == UndefinedVariable(token)
      decreases Repr
    {
      if token.lexeme in values then Ok(values[token.lexeme])
      else match enclosing
        case Some(e) =>
          assert Chain()[1..] == e.Chain();
          assert Innermost(Chain(), token.lexeme) == Innermost(e.Chain(), token.lexeme);
          (match e.Get(token, global)
           case Ok(v) => Ok(v)
           case Err(_) =>
             if token.lexeme in global.values then Ok(global.values[token.lexeme])
             else Err(UndefinedVariable(token)))
        case None =>
          assert Chain() == [values] && Innermost([values][1..], token.lexeme) == None;
          if token.lexeme in global.values then Ok(global.values[token.lexeme])
          else Err(UndefinedVariable(token))
    }

    /** assign: a name the global environment binds is rebound there, even
        when a local binding shadows it; otherwise the innermost binding
        along the chain is rebound, or the assignment fails. */
    method Assign(token: Token, value: V, global: Enviroment<V>) returns (r: Result<(), RuntimeError>)
      requires Valid() && global !in Repr
      modifies Repr`values, global`values
      ensures Valid()
      ensures token.lexeme in old(global.values) ==>
        r == Ok(()) && global.values == old(global.values)[token.lexeme := value] && Chain() == old(Chain())
      ensures token.lexeme !in old(global.values) ==>
        && global.values == old(global.values)
        && Chain() == AssignFirst(old(Chain()), token.lexeme, value)
        && (r.Ok? <==> Bound(old(Chain()), token.lexeme))
        && (r.Err? ==> r.error == CannotChangeUndefined(token))
      decreases Repr
    {
      if token.lexeme in global.values {
        global.values := global.values[token.lexeme := value];
        return Ok(());
      }
      if token.lexeme in values {
        values := values[token.lexeme := value];
        return Ok(());
      }
      match enclosing
      case Some(e) =>
        r := e.Assign(token, value, global);
      case None =>
        r := Err(CannotChangeUndefined(token));
    }

    /** assign_global: rebinds the innermost binding from this environment
        outward, or fails when no environment of the chain binds the name. */
    method AssignGlobal(token: Token, value: V) returns (r: Result<(), RuntimeError>)
      requires Valid()
      modifies Repr`values
      ensures Valid()
      ensures Chain() == AssignFirst(old(Chain()), token.lexeme, value)
      ensures r.Ok? <==> Bound(old(Chain()), token.lexeme)
      ensures r.Err? ==> r.error == CannotChangeUndefined(token)
      decreases Repr
    {
      if token.lexeme in values {
        values := values[token.lexeme := value];
        return Ok(());
      }
      match enclosing
      case Some(e) =>
        r := e.AssignGlobal(token, value);
      case None =>
        r := Err(CannotChangeUndefined(token));
    }
  }
}
