/** The container package's dependency resolver: callers push override frames
    with `setParameterOverride`, and `resolve` reads the top frame without
    pushing or popping. Its `resolveClass` is declared to return `object`. */
module ContainerResolver {
  import opened Php
  import opened Resolution

  class DependencyResolver {
    /** The parameter override stack, most recent frame last. */
    var parameterOverride: seq<Frame>

    constructor ()
      ensures parameterOverride == []
    {
      parameterOverride := [];
    }

    /** `setParameterOverride($parameters)` pushes one frame and returns the resolver. */
    method SetParameterOverride(parameters: Frame) returns (self: DependencyResolver)
      modifies this
      ensures parameterOverride == old(parameterOverride) + [parameters]
      ensures self == this
      ensures GetLastParameterOverride() == parameters
    {
      parameterOverride := parameterOverride + [parameters];
      self := this;
    }

    /** `getLastParameterOverride()`: the most recently pushed frame, or an
        empty frame while the stack is empty. */
    function GetLastParameterOverride(): (f: Frame)
      reads this
      ensures parameterOverride == [] ==> f == map[]
      ensures parameterOverride != [] ==> f == parameterOverride[|parameterOverride| - 1]
    {
      LastOverride(parameterOverride)
    }

    /** `hasParameterOverride($p)`: the top frame has the parameter's name. */
    function HasParameterOverride(p: Param): (b: bool)
      reads this
      ensures b <==> parameterOverride != [] && p.name in parameterOverride[|parameterOverride| - 1]
    {
      p.name in GetLastParameterOverride()
    }

    /** `getParameterOverride($p)` */
    function GetParameterOverride(p: Param): (v: Value)
      reads this
      requires HasParameterOverride(p)
      ensures v == parameterOverride[|parameterOverride| - 1][p.name]
    {
      GetLastParameterOverride()[p.name]
    }

    /** `resolve($dependencies)`: one value per dependency, in order, from the
        top override frame, defaults and the container; the stack is only read. */
    method Resolve(deps: seq<Param>, make: string -> Result<Value>) returns (r: Result<seq<Value>>)
      ensures r == ResolveAll(deps, LastOverride(parameterOverride), make, true)
    {
      var frame := GetLastParameterOverride();
      var resolved: seq<Value> := [];
      var i := 0;
      while i < |deps|
        invariant 0 <= i <= |deps|
        invariant ResolveAll(deps[..i], frame, make, true) == Ok(resolved)
      {
        var dependency := deps[i];
        var resolution: Result<Value>;
        if HasParameterOverride(dependency) {
          resolution := Ok(GetParameterOverride(dependency));
        } else if dependency.cls.None? {
          resolution := ResolvePrimitive(dependency);
        } else {
          resolution := ResolveClass(dependency, make(dependency.cls.value), true);
        }
        ResolveAllStep(deps, i, resolved, frame, make, true);
        if resolution.Err? {
          return Err(resolution.error);
        }
        resolved := resolved + [resolution.value];
        i := i + 1;
      }
      assert deps[..|deps|] == deps;
      r := Ok(resolved);
    }
  }

  /** With the frame `['default' => 'barbaz']` on top, the constructor of a
      class taking `(ContainerConcreteStub $stub, $default = 'foobar')` gets
      the built stub and `'barbaz'`; with an empty frame it gets `'foobar'`. */
  lemma DefaultValueStubResolution(stub: Value)
    requires stub.Obj?
    ensures var deps := [Param("stub", Some("ContainerConcreteStub"), None, false),
                         Param("default", None, Some(Str("foobar")), true)];
      var make := (c: string) => Ok(stub);
      && ResolveAll(deps, map["default" := Str("barbaz")], make, true) == Ok([stub, Str("barbaz")])
      && ResolveAll(deps, map[], make, true) == Ok([stub, Str("foobar")])
  {
    var deps := [Param("stub", Some("ContainerConcreteStub"), None, false),
                 Param("default", None, Some(Str("foobar")), true)];
    var make := (c: string) => Ok(stub);
    assert deps[..0] == [] && deps[..2] == deps;
    var over: Frame := map["default" := Str("barbaz")];
    assert "stub" != "default";
    assert ResolveOne(deps[0], over, make, true) == Ok(stub);
    assert ResolveOne(deps[1], over, make, true) == Ok(Str("barbaz"));
    ResolveAllStep(deps, 0, [], over, make, true);
    assert [] + [stub] == [stub];
    assert ResolveAll(deps[..1], over, make, true) == Ok([stub]);
    ResolveAllStep(deps, 1, [stub], over, make, true);
    assert [stub] + [Str("barbaz")] == [stub, Str("barbaz")];
    assert ResolveOne(deps[0], map[], make, true) == Ok(stub);
    assert ResolveOne(deps[1], map[], make, true) == Ok(Str("foobar"));
    ResolveAllStep(deps, 0, [], map[], make, true);
    assert ResolveAll(deps[..1], map[], make, true) == Ok([stub]);
    ResolveAllStep(deps, 1, [stub], map[], make, true);
    assert [stub] + [Str("foobar")] == [stub, Str("foobar")];
  }

  /** An optional class-typed parameter whose default is `null` cannot fall
      back to it: the `object` return type turns the fallback into a `TypeError`. */
  lemma NullDefaultIsTypeError(p: Param)
    requires p.cls.Some? && p.optional && p.default == Some(Null)
    ensures ResolveClass(p, Err(DependencyResolution(p.cls.value)), true) == Err(TypeError)
    ensures ResolveClass(p, Err(DependencyResolution(p.cls.value)), false) == Ok(Null)
  {
  }
}

/** The support package's dependency resolver: every `resolve` call pushes its
    own override frame first, and the pushed frame is never popped. */
module SupportResolver {
  import opened Php
  import opened Resolution

  class DependencyResolver {
    /** The parameter override stack, most recent frame last. */
    var parameterOverride: seq<Frame>

    constructor ()
      ensures parameterOverride == []
    {
      parameterOverride := [];
    }

    /** `resolve($dependencies, $parameterOverride)`: pushes the frame, then
        resolves against it. */
    method Resolve(deps: seq<Param>, overrides: Frame, make: string -> Result<Value>) returns (r: Result<seq<Value>>)
      modifies this
      ensures parameterOverride == old(parameterOverride) + [overrides]
      ensures r == ResolveAll(deps, overrides, make, false)
    {
      parameterOverride := parameterOverride + [overrides];
      r := ResolveDependencies(deps, make);
    }

    /** `resolveDependencies($dependencies)` against the top frame. */
    method ResolveDependencies(deps: seq<Param>, make: string -> Result<Value>) returns (r: Result<seq<Value>>)
      ensures r == ResolveAll(deps, LastOverride(parameterOverride), make, false)
    {
      var frame := GetLastParameterOverride();
      var resolved: seq<Value> := [];
      var i := 0;
      while i < |deps|
        invariant 0 <= i <= |deps|
        invariant ResolveAll(deps[..i], frame, make, false) == Ok(resolved)
      {
        var dependency := deps[i];
        var resolution: Result<Value>;
        if HasParameterOverride(dependency) {
          resolution := Ok(GetParameterOverride(dependency));
        } else if dependency.cls.None? {
          resolution := ResolvePrimitive(dependency);
        } else {
          resolution := ResolveClass(dependency, make(dependency.cls.value), false);
        }
        ResolveAllStep(deps, i, resolved, frame, make, false);
        if resolution.Err? {
          return Err(resolution.error);
        }
        resolved := resolved + [resolution.value];
        i := i + 1;
      }
      assert deps[..|deps|] == deps;
      r := Ok(resolved);
    }

    /** `hasParameterOverride($p)`: the top frame has the parameter's name. */
    function HasParameterOverride(p: Param): (b: bool)
      reads this
      ensures b <==> parameterOverride != [] && p.name in parameterOverride[|parameterOverride| - 1]
    {
      p.name in GetLastParameterOverride()
    }

    /** `getParameterOverride($p)` */
    function GetParameterOverride(p: Param): (v: Value)
      reads this
      requires HasParameterOverride(p)
      ensures v == parameterOverride[|parameterOverride| - 1][p.name]
    {
      GetLastParameterOverride()[p.name]
    }

    /** `getLastParameterOverride()`: the most recently pushed frame, or an
        empty frame while the stack is empty. */
    function GetLastParameterOverride(): (f: Frame)
      reads this
      ensures parameterOverride == [] ==> f == map[]
      ensures parameterOverride != [] ==> f == parameterOverride[|parameterOverride| - 1]
    {
      LastOverride(parameterOverride)
    }
  }

  /** The constructor `__construct(string $name = 'Thavarshan')`: with no
      override the default is used, with `['name' => 'James']` the override. */
  lemma NameDefaultOrOverride(make: string -> Result<Value>)
    ensures var deps := [Param("name", None, Some(Str("Thavarshan")), true)];
      && ResolveAll(deps, map[], make, false) == Ok([Str("Thavarshan")])
      && ResolveAll(deps, map["name" := Str("James")], make, false) == Ok([Str("James")])
  {
    var deps := [Param("name", None, Some(Str("Thavarshan")), true)];
    assert deps[..0] == [] && deps[..1] == deps;
    var over: Frame := map["name" := Str("James")];
    assert ResolveOne(deps[0], map[], make, false) == Ok(Str("Thavarshan"));
    assert ResolveOne(deps[0], over, make, false) == Ok(Str("James"));
    ResolveAllStep(deps, 0, [], map[], make, false);
    ResolveAllStep(deps, 0, [], over, make, false);
    assert [] + [Str("Thavarshan")] == [Str("Thavarshan")];
    assert [] + [Str("James")] == [Str("James")];
  }

  /** Earlier calls do not matter: two resolver histories that end with a call
      pushing the same frame resolve the same parameters identically. */
  lemma FrameOfTheCallDecides(stack1: seq<Frame>, stack2: seq<Frame>, o: Frame, deps: seq<Param>, make: string -> Result<Value>)
    ensures ResolveAll(deps, LastOverride(stack1 + [o]), make, false)
         == ResolveAll(deps, LastOverride(stack2 + [o]), make, false)
  {
  }
}
