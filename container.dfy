/** The binding registry of the service container: which abstract names are
    bound to which factories, and which resolved instances are cached.
    PHP's `isset` is false for a null entry, so a cached `null` counts as no
    instance at all. */
module Bindings {
  import opened Php

  /** What the registry stores as a binding's concrete. Every stored concrete
      is a closure: one the caller supplied, the factory `makeClosure` wraps
      around a class name (it asks the container to build that class), or the
      factory `offsetSet` wraps around a plain value (it returns the value). */
  datatype Concrete =
    | UserClosure(fn: nat)
    | BuildsClass(name: string)
    | Returns(value: Value)

  /** The concrete argument `bind` accepts: null, a class name or a closure. */
  datatype ConcreteArg = NoConcrete | ClassName(name: string) | Factory(closure: Concrete)

  /** `compact('concrete', 'shared')` */
  datatype Binding = Binding(concrete: Concrete, shared: bool)

  datatype Registry = Registry(bindings: map<string, Binding>, instances: map<string, Value>)

  function EmptyRegistry(): Registry {
    Registry(map[], map[])
  }

  /** `isset($this->instances[$a])` */
  predicate Cached(r: Registry, a: string) {
    a in r.instances && r.instances[a] != Null
  }

  /** `has($id)`: a binding or a non-null cached instance exists. Every bound
      id is known; an unknown id is resolved as the class of its own name. */
  predicate Has(r: Registry, id: string)
    ensures id in r.bindings ==> Has(r, id)
    ensures !Has(r, id) ==> GetConcrete(r, id) == ClassName(id)
  {
    id in r.bindings || Cached(r, id)
  }

  /** `isShared($a)`: a non-null cached instance, or a binding whose flag is
      true. Whatever is shared is known to `has`. */
  predicate IsShared(r: Registry, a: string)
    ensures IsShared(r, a) ==> Has(r, a)
  {
    Cached(r, a) || (a in r.bindings && r.bindings[a].shared)
  }

  /** `makeClosure($concrete)`: a factory that builds the named class. */
  function MakeClosure(concrete: string): (c: Concrete)
    ensures c.BuildsClass? && c.name == concrete
  {
    BuildsClass(concrete)
  }

  /** The concrete `bind` stores: a null concrete stands for the abstract
      itself, and anything that is not yet a closure goes through `makeClosure`. */
  function ConcreteFor(name: string, arg: ConcreteArg): (c: Concrete)
    ensures arg.NoConcrete? ==> c == BuildsClass(name)
    ensures arg.ClassName? ==> c == BuildsClass(arg.name)
    ensures arg.Factory? ==> c == arg.closure
  {
    match arg
    case NoConcrete => MakeClosure(name)
    case ClassName(n) => MakeClosure(n)
    case Factory(closure) => closure
  }

  /** `dropStaleInstances($a)` */
  function DropStaleInstances(r: Registry, a: string): (r': Registry)
    ensures r'.bindings == r.bindings && a !in r'.instances
    ensures forall k :: k != a ==> (k in r'.instances <==> k in r.instances)
    ensures forall k :: k != a && k in r.instances ==> r'.instances[k] == r.instances[k]
  {
    Registry(r.bindings, r.instances - {a})
  }

  /** `bind($a, $concrete, $shared)`: stale instances are dropped only when
      the abstract was already known to `has`, then the binding is replaced. */
  function Bind(r: Registry, a: string, arg: ConcreteArg, shared: bool): (r': Registry)
    ensures a in r'.bindings && r'.bindings[a] == Binding(ConcreteFor(a, arg), shared)
    ensures !Cached(r', a)
    ensures Has(r', a) && IsShared(r', a) == shared
    ensures forall k :: k != a ==> (k in r'.bindings <==> k in r.bindings)
    ensures forall k :: k != a && k in r.bindings ==> r'.bindings[k] == r.bindings[k]
    ensures forall k :: k != a ==> (k in r'.instances <==> k in r.instances)
    ensures forall k :: k != a && k in r.instances ==> r'.instances[k] == r.instances[k]
  {
    var dropped := if Has(r, a) then DropStaleInstances(r, a) else r;
    Registry(dropped.bindings[a := Binding(ConcreteFor(a, arg), shared)], dropped.instances)
  }

  /** `instance($a, $v)`: caches the value; bindings are untouched. */
  function Instance(r: Registry, a: string, v: Value): (r': Registry)
    ensures r'.bindings == r.bindings
    ensures a in r'.instances && r'.instances[a] == v
    ensures v != Null ==> Has(r', a) && IsShared(r', a)
    ensures v == Null ==> (Has(r', a) <==> a in r.bindings)
    ensures forall k :: k != a ==> (k in r'.instances <==> k in r.instances)
    ensures forall k :: k != a && k in r.instances ==> r'.instances[k] == r.instances[k]
  {
    Registry(r.bindings, r.instances[a := v])
  }

  /** `forgetInstance($a)`: only a's cached instance goes. */
  function ForgetInstance(r: Registry, a: string): (r': Registry)
    ensures r'.bindings == r.bindings && !Cached(r', a)
    ensures Has(r', a) <==> a in r.bindings
    ensures forall k :: k != a ==> (Cached(r', k) <==> Cached(r, k))
    ensures forall k :: k != a && k in r.instances ==> k in r'.instances && r'.instances[k] == r.instances[k]
  {
    Registry(r.bindings, r.instances - {a})
  }

  /** `forgetInstances()`: every cached instance goes, bindings stay. */
  function ForgetInstances(r: Registry): (r': Registry)
    ensures r'.bindings == r.bindings && r'.instances == map[]
    ensures forall k :: Has(r', k) <==> k in r.bindings
    ensures forall k :: IsShared(r', k) <==> k in r.bindings && r.bindings[k].shared
  {
    Registry(r.bindings, map[])
  }

  /** `flush()`: nothing is left. */
  function Flush(r: Registry): (r': Registry)
    ensures r'.bindings == map[] && r'.instances == map[]
    ensures forall x :: !Has(r', x) && !IsShared(r', x)
  {
    EmptyRegistry()
  }

  /** `offsetUnset($k)`: removes the binding and the instance of k, and nothing else. */
  function OffsetUnset(r: Registry, k: string): (r': Registry)
    ensures !Has(r', k) && !IsShared(r', k)
    ensures k !in r'.bindings && k !in r'.instances
    ensures forall x :: x != k ==> (x in r'.bindings <==> x in r.bindings) && (x in r'.instances <==> x in r.instances)
    ensures forall x :: x != k ==> Has(r', x) == Has(r, x) && IsShared(r', x) == IsShared(r, x)
  {
    Registry(r.bindings - {k}, r.instances - {k})
  }

  /** The closure `offsetSet` binds: a closure as it is, any other value
      wrapped in a factory that returns it. */
  function OffsetSetClosure(v: Value): (c: Concrete)
    ensures v.Closure? ==> c == UserClosure(v.fn)
    ensures !v.Closure? ==> c == Returns(v)
  {
    if v.Closure? then UserClosure(v.fn) else Returns(v)
  }

  /** `getConcrete($a)`: the bound concrete, or the abstract itself as a class
      name when it is unbound. */
  function GetConcrete(r: Registry, a: string): (c: ConcreteArg)
    ensures a in r.bindings ==> c == Factory(r.bindings[a].concrete)
    ensures a !in r.bindings ==> c == ClassName(a)
  {
    if a in r.bindings then Factory(r.bindings[a].concrete) else ClassName(a)
  }

  /** `get($id)` given what resolution produced: an error of class
      `BindingResolution` is rethrown as it is when the id is registered and
      becomes `BindingNotFound` otherwise; any other outcome passes through. */
  function Get(r: Registry, id: string, resolved: Result<Value>): (g: Result<Value>)
    ensures resolved.Ok? ==> g == resolved
    ensures resolved.Err? && resolved.error.BindingResolution? && Has(r, id) ==> g == resolved
    ensures resolved.Err? && resolved.error.BindingResolution? && !Has(r, id) ==> g == Err(BindingNotFound(id))
    ensures resolved.Err? && !resolved.error.BindingResolution? ==> g == resolved
  {
    match resolved
    case Ok(_) => resolved
    case Err(e) =>
      if e.BindingResolution? && !Has(r, id) then Err(BindingNotFound(id)) else resolved
  }

  /** A `BindingNotFound` from `get` is never invented for a registered id. */
  lemma GetNotFoundOnlyWhenUnregistered(r: Registry, id: string, resolved: Result<Value>)
    requires Get(r, id, resolved) == Err(BindingNotFound(id))
    ensures !Has(r, id) || resolved == Err(BindingNotFound(id))
  {
  }

  /** What a fresh binding resolves through: `getConcrete` after `bind` is the
      factory bind stored, which for a null or string concrete builds that
      class (the abstract itself when null). */
  lemma BindThenGetConcrete(r: Registry, a: string, arg: ConcreteArg, shared: bool)
    ensures GetConcrete(Bind(r, a, arg, shared), a) == Factory(ConcreteFor(a, arg))
    ensures arg == NoConcrete ==> GetConcrete(Bind(r, a, arg, shared), a) == Factory(BuildsClass(a))
  {
  }

  /** Binding the same abstract twice: the later binding is the one kept, and
      the registry then answers `has`/`isShared` for every key as if only the
      later binding had been made. */
  lemma BindLastWriteWins(r: Registry, a: string, c1: ConcreteArg, s1: bool, c2: ConcreteArg, s2: bool)
    ensures Bind(Bind(r, a, c1, s1), a, c2, s2).bindings == Bind(r, a, c2, s2).bindings
    ensures forall k :: Has(Bind(Bind(r, a, c1, s1), a, c2, s2), k) == Has(Bind(r, a, c2, s2), k)
    ensures forall k :: IsShared(Bind(Bind(r, a, c1, s1), a, c2, s2), k) == IsShared(Bind(r, a, c2, s2), k)
  {
    BindTwiceBindings(r, a, c1, s1, c2, s2);
    BindTwiceCached(r, a, c1, s1, c2, s2);
  }

  lemma BindTwiceBindings(r: Registry, a: string, c1: ConcreteArg, s1: bool, c2: ConcreteArg, s2: bool)
    ensures Bind(Bind(r, a, c1, s1), a, c2, s2).bindings == Bind(r, a, c2, s2).bindings
  {
    var b1, b2 := Binding(ConcreteFor(a, c1), s1), Binding(ConcreteFor(a, c2), s2);
    assert Bind(r, a, c1, s1).bindings == r.bindings[a := b1];
    assert Bind(r, a, c2, s2).bindings == r.bindings[a := b2];
    assert Bind(Bind(r, a, c1, s1), a, c2, s2).bindings == r.bindings[a := b1][a := b2];
    assert r.bindings[a := b1][a := b2] == r.bindings[a := b2];
  }

  /** Away from `a`, binding `a` twice or once leaves the same cache. */
  lemma BindTwiceCached(r: Registry, a: string, c1: ConcreteArg, s1: bool, c2: ConcreteArg, s2: bool)
    ensures forall k :: k != a ==> Cached(Bind(Bind(r, a, c1, s1), a, c2, s2), k) == Cached(Bind(r, a, c2, s2), k)
  {
  }
}

/** The container object: the two registry arrays as fields, updated in place. */
module Containers {
  import opened Php
  import B = Bindings

  class Container {
    var bindings: map<string, B.Binding>
    var instances: map<string, Value>

    /** The registry this object currently holds. */
    function State(): B.Registry
      reads this
    {
      B.Registry(bindings, instances)
    }

    constructor ()
      ensures State() == B.EmptyRegistry()
    {
      bindings := map[];
      instances := map[];
    }

    /** `has($id)` on the registry the container holds. */
    function Has(id: string): (b: bool)
      reads this
      ensures b == B.Has(State(), id)
      ensures id in bindings ==> b
    {
      B.Has(State(), id)
    }

    /** `isShared($a)` on the registry the container holds. */
    function IsShared(a: string): (b: bool)
      reads this
      ensures b == B.IsShared(State(), a)
      ensures b ==> Has(a)
    {
      B.IsShared(State(), a)
    }

    /** `singleton($a, $concrete)` is `bind($a, $concrete, true)`. */
    method Singleton(a: string, concrete: B.ConcreteArg)
      modifies this
      ensures State() == B.Bind(old(State()), a, concrete, true)
      ensures Has(a) && IsShared(a)
    {
      Bind(a, concrete, true);
    }

    /** `instance($a, $v)` returns the value it caches. */
    method Instance(a: string, v: Value) returns (r: Value)
      modifies this
      ensures r == v
      ensures State() == B.Instance(old(State()), a, v)
      ensures bindings == old(bindings)
    {
      instances := instances[a := v];
      r := v;
    }

    /** `bind($a, $concrete, $shared)` */
    method Bind(a: string, concrete: B.ConcreteArg, shared: bool)
      modifies this
      ensures State() == B.Bind(old(State()), a, concrete, shared)
      ensures IsShared(a) == shared
    {
      if Has(a) {
        DropStaleInstances(a);
      }
      var c: B.Concrete;
      match concrete {
        case NoConcrete => c := B.MakeClosure(a);
        case ClassName(name) => c := B.MakeClosure(name);
        case Factory(closure) => c := closure;
      }
      bindings := bindings[a := B.Binding(c, shared)];
    }

    /** `get($id)`, given the outcome of resolving the id. */
    method Get(id: string, resolved: Result<Value>) returns (r: Result<Value>)
      ensures r == B.Get(State(), id, resolved)
    {
      r := resolved;
      if resolved.Err? && resolved.error.BindingResolution? && !Has(id) {
        r := Err(BindingNotFound(id));
      }
    }

    /** `getConcrete($a)` */
    function GetConcrete(a: string): (c: B.ConcreteArg)
      reads this
      ensures c == B.GetConcrete(State(), a)
    {
      if a in bindings then B.Factory(bindings[a].concrete) else B.ClassName(a)
    }

    /** `getBindings()`: every returned key is known to `has`. */
    function GetBindings(): (m: map<string, B.Binding>)
      reads this
      ensures m == State().bindings
      ensures forall k :: k in m ==> Has(k)
    {
      bindings
    }

    /** `forgetInstance($a)` */
    method ForgetInstance(a: string)
      modifies this
      ensures State() == B.ForgetInstance(old(State()), a)
    {
      instances := instances - {a};
    }

    /** `forgetInstances()` */
    method ForgetInstances()
      modifies this
      ensures State() == B.ForgetInstances(old(State()))
    {
      instances := map[];
    }

    /** `flush()` */
    method Flush()
      modifies this
      ensures State() == B.Flush(old(State()))
      ensures forall x :: !Has(x)
    {
      bindings := map[];
      instances := map[];
    }

    /** `dropStaleInstances($a)` */
    method DropStaleInstances(a: string)
      modifies this
      ensures State() == B.DropStaleInstances(old(State()), a)
    {
      instances := instances - {a};
    }

    /** `offsetExists($k)` is `has($k)`. */
    function OffsetExists(k: string): (b: bool)
      reads this
      ensures b == B.Has(State(), k)
    {
      Has(k)
    }

    /** `offsetGet($k)` is `get($k)`. */
    method OffsetGet(k: string, resolved: Result<Value>) returns (r: Result<Value>)
      ensures r == B.Get(State(), k, resolved)
    {
      r := Get(k, resolved);
    }

    /** `offsetSet($k, $v)`: an unshared binding of k to the value's closure. */
    method OffsetSet(k: string, v: Value)
      modifies this
      ensures State() == B.Bind(old(State()), k, B.Factory(B.OffsetSetClosure(v)), false)
      ensures Has(k) && !IsShared(k)
    {
      var closure := if v.Closure? then B.UserClosure(v.fn) else B.Returns(v);
      Bind(k, B.Factory(closure), false);
    }

    /** `offsetUnset($k)` */
    method OffsetUnset(k: string)
      modifies this
      ensures State() == B.OffsetUnset(old(State()), k)
    {
      bindings := bindings - {k};
      instances := instances - {k};
    }
  }
}
