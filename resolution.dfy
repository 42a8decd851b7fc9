/** The parameter-resolution rule that both dependency resolvers apply to a
    reflected parameter list. Reflection becomes the `Param` descriptor; the
    container's `make` is an oracle from a class name to a value or an error. */
module Resolution {
  import opened Php

  /** A reflected parameter: its name, its class type when it has one, its
      default value when one is available, and whether it is optional. */
  datatype Param = Param(name: string, cls: Option<string>, default: Option<Value>, optional: bool)

  /** One frame of parameter overrides: parameter name to value. */
  type Frame = map<string, Value>

  /** `getLastParameterOverride()`: the top of the override stack, or an empty
      frame when nothing was pushed. */
  function LastOverride(stack: seq<Frame>): (f: Frame)
    ensures stack == [] ==> f == map[]
    ensures stack != [] ==> f == stack[|stack| - 1]
  {
    if |stack| > 0 then stack[|stack| - 1] else map[]
  }

  /** `getDefaultValue()`, which throws when no default is available; when
      it does not throw, a primitive parameter resolves to the same value. */
  function DefaultValue(p: Param): (r: Result<Value>)
    ensures r.Ok? <==> p.default.Some?
    ensures r.Ok? ==> r.value == p.default.value && ResolvePrimitive(p) == r
  {
    match p.default
    case Some(v) => Ok(v)
    case None => Err(Other("ReflectionException"))
  }

  /** `resolvePrimitive($p)`: the default value when one is available, and a
      `DependencyResolutionException` naming the parameter otherwise. */
  function ResolvePrimitive(p: Param): (r: Result<Value>)
    ensures p.default.Some? <==> r.Ok?
    ensures p.default.Some? ==> r.value == p.default.value
    ensures p.default.None? ==> r == Err(DependencyResolution(p.name))
  {
    if p.default.Some? then Ok(p.default.value) else Err(DependencyResolution(p.name))
  }

  /** Whether a PHP value is an object (closures are objects). */
  predicate IsObject(v: Value) {
    v.Obj? || v.Closure?
  }

  /** `resolveClass($p)` given what `make` produced for the parameter's class:
      a `DependencyResolutionException` falls back to the default when the
      parameter is optional and is rethrown otherwise; other errors pass
      through. `objectTyped` is the declared return type `object` of the
      container's copy, under which a non-object result is a `TypeError`. */
  function ResolveClass(p: Param, made: Result<Value>, objectTyped: bool): (r: Result<Value>)
    ensures made.Ok? && (!objectTyped || IsObject(made.value)) ==> r == made
    ensures made.Err? && !made.error.DependencyResolution? ==> r == made
    ensures made.Err? && made.error.DependencyResolution? && !p.optional ==> r == made
    ensures r.Ok? && objectTyped ==> IsObject(r.value)
    ensures r.Ok? ==> r == made || (p.optional && r == DefaultValue(p))
  {
    var v :=
      if made.Err? && made.error.DependencyResolution? && p.optional then DefaultValue(p)
      else made;
    if objectTyped && v.Ok? && !IsObject(v.value) then Err(TypeError) else v
  }

  /** How one parameter is resolved: an override under its name wins, verbatim;
      otherwise a parameter without a class type is a primitive, and one with a
      class type is built by the container. */
  function ResolveOne(p: Param, frame: Frame, make: string -> Result<Value>, objectTyped: bool): (r: Result<Value>)
    ensures p.name in frame ==> r == Ok(frame[p.name])
    ensures r.Err? ==> p.name !in frame
    ensures p.name !in frame && p.cls.None? ==> (r.Ok? <==> p.default.Some?)
    ensures p.name !in frame && p.cls.None? && r.Ok? ==> r.value == p.default.value
    ensures p.name !in frame && p.cls.Some? && objectTyped && r.Ok? ==> IsObject(r.value)
    ensures p.name !in frame && p.cls.Some? && r.Ok? ==> r == make(p.cls.value) || (p.optional && r == DefaultValue(p))
  {
    if p.name in frame then Ok(frame[p.name])
    else if p.cls.None? then ResolvePrimitive(p)
    else ResolveClass(p, make(p.cls.value), objectTyped)
  }

  /** The resolved argument list: parameters are resolved in declared order
      and the first failure aborts the whole list. */
  function ResolveAll(deps: seq<Param>, frame: Frame, make: string -> Result<Value>, objectTyped: bool): (r: Result<seq<Value>>)
    ensures r.Ok? ==> |r.value| == |deps|
    decreases |deps|
  {
    if deps == [] then Ok([])
    else
      match ResolveAll(deps[..|deps| - 1], frame, make, objectTyped)
      case Err(e) => Err(e)
      case Ok(vs) =>
        match ResolveOne(deps[|deps| - 1], frame, make, objectTyped)
        case Err(e) => Err(e)
        case Ok(v) => Ok(vs + [v])
  }

  /** A successful resolution yields exactly one value per parameter, in the
      parameters' order, each being that parameter's own resolution. */
  lemma {:induction false} ResolveAllPositional(deps: seq<Param>, frame: Frame, make: string -> Result<Value>, objectTyped: bool)
    requires ResolveAll(deps, frame, make, objectTyped).Ok?
    ensures |ResolveAll(deps, frame, make, objectTyped).value| == |deps|
    ensures forall i :: 0 <= i < |deps| ==>
      ResolveOne(deps[i], frame, make, objectTyped) == Ok(ResolveAll(deps, frame, make, objectTyped).value[i])
  {
    if deps != [] {
      var init := deps[..|deps| - 1];
      ResolveAllPositional(init, frame, make, objectTyped);
      forall i | 0 <= i < |deps|
        ensures ResolveOne(deps[i], frame, make, objectTyped) == Ok(ResolveAll(deps, frame, make, objectTyped).value[i])
      {
        if i < |deps| - 1 {
          assert deps[i] == init[i];
        }
      }
    }
  }

  /** Conversely, when every parameter resolves, the list resolves. */
  lemma {:induction false} ResolveAllSucceeds(deps: seq<Param>, frame: Frame, make: string -> Result<Value>, objectTyped: bool)
    requires forall i :: 0 <= i < |deps| ==> ResolveOne(deps[i], frame, make, objectTyped).Ok?
    ensures ResolveAll(deps, frame, make, objectTyped).Ok?
  {
    if deps != [] {
      var init := deps[..|deps| - 1];
      forall i | 0 <= i < |init| ensures ResolveOne(init[i], frame, make, objectTyped).Ok? {
        assert init[i] == deps[i];
      }
      ResolveAllSucceeds(init, frame, make, objectTyped);
    }
  }

  /** A failed resolution reports the error of the first parameter that
      failed: every parameter before it resolved. */
  lemma {:induction false} ResolveAllFirstError(deps: seq<Param>, frame: Frame, make: string -> Result<Value>, objectTyped: bool)
    requires ResolveAll(deps, frame, make, objectTyped).Err?
    ensures exists k :: (0 <= k < |deps|
      && ResolveOne(deps[k], frame, make, objectTyped) == Err(ResolveAll(deps, frame, make, objectTyped).error)
      && forall i :: 0 <= i < k ==> ResolveOne(deps[i], frame, make, objectTyped).Ok?)
  {
    var init := deps[..|deps| - 1];
    var last := |deps| - 1;
    var e := ResolveAll(deps, frame, make, objectTyped).error;
    if ResolveAll(init, frame, make, objectTyped).Err? {
      ResolveAllFirstError(init, frame, make, objectTyped);
      var k :| 0 <= k < |init|
        && ResolveOne(init[k], frame, make, objectTyped) == Err(ResolveAll(init, frame, make, objectTyped).error)
        && forall i :: 0 <= i < k ==> ResolveOne(init[i], frame, make, objectTyped).Ok?;
      assert deps[k] == init[k];
      forall i | 0 <= i < k ensures ResolveOne(deps[i], frame, make, objectTyped).Ok? {
        assert deps[i] == init[i];
      }
    } else {
      ResolveAllPositional(init, frame, make, objectTyped);
      forall i | 0 <= i < last ensures ResolveOne(deps[i], frame, make, objectTyped).Ok? {
        assert deps[i] == init[i];
      }
    }
  }

  /** Growing the list of resolved parameters one at a time, as the resolvers'
      loops do. */
  lemma ResolveAllStep(deps: seq<Param>, i: nat, vs: seq<Value>, frame: Frame, make: string -> Result<Value>, objectTyped: bool)
    requires i < |deps|
    requires ResolveAll(deps[..i], frame, make, objectTyped) == Ok(vs)
    ensures ResolveOne(deps[i], frame, make, objectTyped).Ok? ==>
      ResolveAll(deps[..i + 1], frame, make, objectTyped) == Ok(vs + [ResolveOne(deps[i], frame, make, objectTyped).value])
    ensures ResolveOne(deps[i], frame, make, objectTyped).Err? ==>
      ResolveAll(deps, frame, make, objectTyped) == Err(ResolveOne(deps[i], frame, make, objectTyped).error)
  {
    assert deps[..i + 1][..i] == deps[..i];
    if ResolveOne(deps[i], frame, make, objectTyped).Err? {
      ErrorPersists(deps, i + 1, frame, make, objectTyped);
      assert deps[..|deps|] == deps;
    }
  }

  /** Once a prefix of the list fails, every longer prefix fails the same way. */
  lemma {:induction false} ErrorPersists(deps: seq<Param>, j: nat, frame: Frame, make: string -> Result<Value>, objectTyped: bool)
    requires j <= |deps|
    requires ResolveAll(deps[..j], frame, make, objectTyped).Err?
    ensures ResolveAll(deps, frame, make, objectTyped) == ResolveAll(deps[..j], frame, make, objectTyped)
    decreases |deps| - j
  {
    if j == |deps| {
      assert deps[..j] == deps;
    } else {
      assert deps[..j + 1][..j] == deps[..j];
      ErrorPersists(deps, j + 1, frame, make, objectTyped);
    }
  }

  /** An override under the parameter's name is used verbatim, whatever the
      parameter's type, default or optionality. */
  lemma OverrideWins(p: Param, frame: Frame, make: string -> Result<Value>, objectTyped: bool)
    requires p.name in frame
    ensures ResolveOne(p, frame, make, objectTyped) == Ok(frame[p.name])
  {
  }
}
