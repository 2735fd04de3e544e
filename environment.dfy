/**
 * Variable scopes (src/Environment.java). An environment is a mutable map from
 * names to values with a fixed link to its enclosing environment; the global
 * environment has none. The chain of maps seen from an environment, innermost
 * first, is `Frames()`; the lookup and update rules are stated on that
 * sequence by `Find` and `AssignNearest`.
 */
module Environments {
  import opened Wrappers
  import opened Tokens
  import opened RuntimeErrors

  type Frames<V> = seq<map<string, V>>

  /** The index of the innermost frame that binds `name`. */
  function Nearest<V>(frames: Frames<V>, name: string): (r: Option<nat>)
    ensures r.Some? ==>
      && r.value < |frames| && name in frames[r.value]
      && forall j :: 0 <= j < r.value ==> name !in frames[j]
    ensures r.None? ==> forall j :: 0 <= j < |frames| ==> name !in frames[j]
  {
    if |frames| == 0 then None
    else if name in frames[0] then Some(0)
    else match Nearest(frames[1..], name)
      case None => None
      case Some(k) => Some(k + 1)
  }

  /** The value of the innermost binding of `name`, if any frame has one. */
  function Find<V>(frames: Frames<V>, name: string): Option<V>
  {
    match Nearest(frames, name)
      case None => None
      case Some(k) => Some(frames[k][name])
  }

  /** The frames after the innermost binding of `name` is overwritten with `value`. */
  function AssignNearest<V>(frames: Frames<V>, name: string, value: V): Frames<V>
  {
    match Nearest(frames, name)
      case None => frames
      case Some(k) => frames[k := frames[k][name := value]]
  }

  /** A name is found exactly when some frame binds it. */
  lemma FindDefined<V>(frames: Frames<V>, name: string)
    ensures Find(frames, name).Some? <==> exists j :: 0 <= j < |frames| && name in frames[j]
  {
    if Find(frames, name).None? {
      assert Nearest(frames, name).None?;
    }
  }

  /** After an assignment the name reads back as the assigned value, and no other name changes. */
  lemma FindAfterAssign<V>(frames: Frames<V>, name: string, value: V, other: string)
    requires Find(frames, name).Some?
    ensures Find(AssignNearest(frames, name, value), name) == Some(value)
    ensures other != name ==> Find(AssignNearest(frames, name, value), other) == Find(frames, other)
  {
    var k := Nearest(frames, name).value;
    var after := AssignNearest(frames, name, value);
    assert |after| == |frames|;
    assert forall j :: 0 <= j < |frames| ==> (name in after[j] <==> name in frames[j]);
    NearestAgree(frames, after, name);
    assert forall j :: 0 <= j < |frames| ==> (other in after[j] <==> other in frames[j]);
    NearestAgree(frames, after, other);
    if other != name {
      match Nearest(frames, other)
      case None =>
      case Some(m) =>
        assert after[m][other] == frames[m][other];
    }
  }

  /** Frames that bind the same names at the same depths have the same innermost binder. */
  lemma {:induction false} NearestAgree<V>(a: Frames<V>, b: Frames<V>, name: string)
    requires |a| == |b|
    requires forall j :: 0 <= j < |a| ==> (name in a[j] <==> name in b[j])
    ensures Nearest(a, name) == Nearest(b, name)
  {
    if |a| > 0 && name !in a[0] {
      NearestAgree(a[1..], b[1..], name);
    }
  }

  /** Defining a name in the innermost frame makes it read back as that value. */
  lemma FindAfterDefine<V>(frames: Frames<V>, name: string, value: V, other: string)
    requires |frames| > 0
    ensures Find(frames[0 := frames[0][name := value]], name) == Some(value)
    ensures other != name ==> Find(frames[0 := frames[0][name := value]], other) == Find(frames, other)
  {
    var after := frames[0 := frames[0][name := value]];
    if other != name && other !in frames[0] {
      assert after[1..] == frames[1..];
    }
  }
  /** Defining a name in the innermost frame and then assigning it amounts to defining it with the assigned value. */
  lemma AssignAfterDefine<V>(frames: Frames<V>, name: string, first: V, value: V)
    requires |frames| > 0
    ensures AssignNearest(frames[0 := frames[0][name := first]], name, value) == frames[0 := frames[0][name := value]]
  {
    var defined := frames[0 := frames[0][name := first]];
    assert Nearest(defined, name) == Some(0);
    assert defined[0][name := value] == frames[0][name := value];
  }


  class Environment<V> {
    var variable: map<string, V>
    const prevEnv: Environment?<V>
    /** the number of enclosing environments */
    ghost const depth: nat
    /** every environment enclosing this one */
    ghost const Ancestors: set<Environment<V>>

    ghost function Repr(): set<Environment<V>>
    {
      {this} + Ancestors
    }

    /** The chain of enclosing environments is finite and has no cycle. */
    ghost predicate Valid()
      decreases depth
    {
      && this !in Ancestors
      && (prevEnv == null ==> depth == 0 && Ancestors == {})
      && (prevEnv != null ==>
            && depth == prevEnv.depth + 1
            && Ancestors == prevEnv.Repr()
            && prevEnv.Valid())
    }

    /** The maps visible from this environment, innermost first. */
    ghost function Frames(): (r: Frames<V>)
      requires Valid()
      reads Repr()
      ensures |r| == depth + 1 && r[0] == variable
      decreases depth
    {
      if prevEnv == null then [variable] else [variable] + prevEnv.Frames()
    }

    /** The environment `distance` links out, or null past the global one. */
    ghost function AncestorAt(distance: nat): (r: Environment?<V>)
      requires Valid()
      ensures r != null ==> r.Valid() && r in Repr()
      decreases depth
    {
      if distance == 0 then this
      else if prevEnv == null then null
      else prevEnv.AncestorAt(distance - 1)
    }

    /** The ancestor at a distance sees exactly the frames from that distance outwards. */
    lemma {:induction false} AncestorFrames(distance: nat)
      requires Valid()
      ensures AncestorAt(distance) != null <==> distance < |Frames()|
      ensures AncestorAt(distance) != null ==> AncestorAt(distance).Frames() == Frames()[distance..]
      decreases depth
    {
      if distance > 0 && prevEnv != null {
        prevEnv.AncestorFrames(distance - 1);
        if distance - 1 < |prevEnv.Frames()| {
          assert Frames()[distance..] == prevEnv.Frames()[distance - 1..];
        }
      }
    }

    /** The global environment. */
    constructor Global()
      ensures Valid() && prevEnv == null && variable == map[]
      ensures Frames() == [map[]]
    {
      variable := map[];
      prevEnv := null;
      depth := 0;
      Ancestors := {};
    }

    /** A new local environment inside `enclosing`. */
    constructor Local(enclosing: Environment<V>)
      requires enclosing.Valid()
      ensures Valid() && prevEnv == enclosing && variable == map[]
      ensures Ancestors == enclosing.Repr()
      ensures Frames() == [map[]] + enclosing.Frames()
    {
      variable := map[];
      prevEnv := enclosing;
      depth := enclosing.depth + 1;
      Ancestors := enclosing.Repr();
    }

    /** Binds `identifier` in this environment, replacing any binding it had here. */
    method DefineVar(identifier: string, value: V)
      requires Valid()
      modifies this
      ensures variable == old(variable)[identifier := value]
      ensures Frames() == old(Frames())[0 := variable]
    {
      variable := variable[identifier := value];
    }

    /**
     * Overwrites the innermost binding of the name; an error when no
     * environment in the chain binds it.
     */
    method Assign(identifier: Token, value: V) returns (err: Option<RuntimeError>)
      requires Valid()
      modifies Repr()
      ensures var name := identifier.lexeme;
        if Find(old(Frames()), name).Some? then
          err == None && Frames() == AssignNearest(old(Frames()), name, value)
        else
          && err == Some(RuntimeError(AtToken(identifier), "assignment to undefined variable: " + name))
          && Frames() == old(Frames())
      ensures forall e :: e in Repr() ==>
        e.variable == old(e.variable) || e.variable == old(e.variable)[identifier.lexeme := value]
      decreases depth
    {
      var name := identifier.lexeme;
      if name in variable {
        variable := variable[name := value];
        err := None;
      } else if prevEnv != null {
        err := prevEnv.Assign(identifier, value);
        assert old(Frames()) == [old(variable)] + old(prevEnv.Frames());
      } else {
        err := Some(RuntimeError(AtToken(identifier), "assignment to undefined variable: " + name));
      }
    }

    /** The value of the innermost binding; an error when no environment binds the name. */
    method GetValue(finding: Token) returns (r: Result<V, RuntimeError>)
      requires Valid()
      ensures match Find(Frames(), finding.lexeme)
        case Some(v) => r == Success(v)
        case None => r == Failure(RuntimeError(AtToken(finding), "undefined variable: " + finding.lexeme))
      decreases depth
    {
      var name := finding.lexeme;
      if name in variable {
        return Success(variable[name]);
      }
      if prevEnv != null {
        r := prevEnv.GetValue(finding);
      } else {
        r := Failure(RuntimeError(AtToken(finding), "undefined variable: " + name));
      }
    }

    /** Follows `distance` enclosing links, stopping at null. */
    method Ancestor(distance: nat) returns (result: Environment?<V>)
      requires Valid()
      ensures result == AncestorAt(distance)
    {
      result := this;
      var counter: nat := distance;
      while counter > 0 && result != null
        invariant counter <= distance
        invariant result != null ==> result.Valid() && result.AncestorAt(counter) == AncestorAt(distance)
        invariant result == null ==> AncestorAt(distance) == null
        decreases counter
      {
        result := result.prevEnv;
        counter := counter - 1;
      }
    }

    /** The binding of `identifier` in the frame `distance` links out, if there is one. */
    method GetAt(distance: nat, identifier: string) returns (r: Option<V>)
      requires Valid()
      ensures var frames := Frames();
        if distance < |frames| && identifier in frames[distance] then r == Some(frames[distance][identifier])
        else r == None
    {
      var ancestor := Ancestor(distance);
      AncestorFrames(distance);
      if ancestor != null && identifier in ancestor.variable {
        return Some(ancestor.variable[identifier]);
      }
      return None;
    }

    /**
     * Binds the name in the frame `distance` links out; nothing happens when
     * the chain is shorter than that.
     */
    method AssignAt(distance: nat, identifier: Token, value: V)
      requires Valid()
      modifies Repr()
      ensures var frames := old(Frames());
        if distance < |frames| then Frames() == frames[distance := frames[distance][identifier.lexeme := value]]
        else Frames() == frames
      ensures forall e :: e in Repr() ==>
        e.variable == old(e.variable) || e.variable == old(e.variable)[identifier.lexeme := value]
    {
      var ancestor := Ancestor(distance);
      AncestorFrames(distance);
      if ancestor != null {
        ancestor.variable := ancestor.variable[identifier.lexeme := value];
        FramesAfterUpdate(distance);
      }
    }

    /** Updating the map of one ancestor changes the frames at that distance only. */
    twostate lemma {:induction false} FramesAfterUpdate(distance: nat)
      requires Valid() && AncestorAt(distance) != null
      requires forall e :: e in Repr() && e != AncestorAt(distance) ==> e.variable == old(e.variable)
      ensures distance < |old(Frames())|
      ensures Frames() == old(Frames())[distance := AncestorAt(distance).variable]
      decreases depth
    {
      if distance > 0 {
        prevEnv.FramesAfterUpdate(distance - 1);
      } else if prevEnv != null {
        assert prevEnv.Frames() == old(prevEnv.Frames()) by {
          prevEnv.FramesUnchanged();
        }
      }
    }

    /** Frames read only the maps of the chain. */
    twostate lemma {:induction false} FramesUnchanged()
      requires Valid()
      requires forall e :: e in Repr() ==> e.variable == old(e.variable)
      ensures Frames() == old(Frames())
      decreases depth
    {
      if prevEnv != null {
        prevEnv.FramesUnchanged();
      }
    }
  }
}
