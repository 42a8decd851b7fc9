/** `Application`: the framework's container extended with a base path, the
    standard directory instances, the environment test and the service boot
    flags. The inherited container state is the `container` field. */
module Applications {
  import opened Php
  import B = Bindings
  import opened Containers

  /** `DIRECTORY_SEPARATOR` on the platforms the framework targets. */
  const DirectorySeparator: char := '/'

  /** `$directories`, in order. */
  const Directories: seq<string> := ["app", "database", "public", "logs", "views"]

  /** `self::class` */
  const ApplicationClass: string := "Emberfuse\\Base\\Application"

  // ---------------------------------------------------------------------
  // Paths

  /** `basePath($path)`: the base path, then the separator and the path when
      the path is truthy. PHP treats `''` and `'0'` as false, so for `'0'`
      no separator is put in. */
  function JoinBasePath(base: string, path: string): (r: string)
    ensures |r| >= |base| && r[..|base|] == base
    ensures path == "" ==> r == base
    ensures path != "" && path != "0" ==> r == base + [DirectorySeparator] + path
    ensures path == "0" ==> r == base + "0"
  {
    base + (if path != "" && path != "0" then [DirectorySeparator] + path else path)
  }

  /** `rtrim($path, '\/')`: every trailing `/` and `\` removed. */
  function TrimBasePath(path: string): (r: string)
    ensures r == [] || (r[|r| - 1] != '/' && r[|r| - 1] != '\\')
    ensures |r| <= |path| && r == path[..|r|]
    ensures forall i :: |r| <= i < |path| ==> path[i] == '/' || path[i] == '\\'
  {
    TrimRight(path, {'/', '\\'})
  }

  /** Trimming an already trimmed base path changes nothing. */
  lemma TrimBasePathIdempotent(path: string)
    ensures TrimBasePath(TrimBasePath(path)) == TrimBasePath(path)
  {
    var r := TrimBasePath(path);
    if r != [] {
      assert r[|r| - 1] !in {'/', '\\'};
    }
  }

  /** Trailing separators on the given path make no difference. */
  lemma TrimBasePathIgnoresSeparators(path: string, tail: string)
    requires forall i :: 0 <= i < |tail| ==> tail[i] == '/' || tail[i] == '\\'
    ensures TrimBasePath(path + tail) == TrimBasePath(path)
  {
    TrimRightAppend(path, tail, {'/', '\\'});
  }

  /** The instance key of a directory. */
  function PathKey(dir: string): string {
    "path." + dir
  }

  /** The keys `bindPathsInContainer` writes for the directories. */
  function PathKeys(dirs: seq<string>): set<string> {
    set i | 0 <= i < |dirs| :: PathKey(dirs[i])
  }

  /** The directory loop of `bindPathsInContainer`: one instance per
      directory, in order. */
  function BindPaths(r: B.Registry, base: string, dirs: seq<string>): (r': B.Registry)
    ensures r'.bindings == r.bindings
    decreases |dirs|
  {
    if dirs == [] then r
    else
      var last := dirs[|dirs| - 1];
      B.Instance(BindPaths(r, base, dirs[..|dirs| - 1]), PathKey(last), Str(JoinBasePath(base, last)))
  }

  /** After the loop every directory's key holds its path, and every other
      key is as before. */
  lemma {:induction false} BindPathsLookup(r: B.Registry, base: string, dirs: seq<string>)
    ensures var r' := BindPaths(r, base, dirs);
      && (forall i :: 0 <= i < |dirs| ==>
            PathKey(dirs[i]) in r'.instances && r'.instances[PathKey(dirs[i])] == Str(JoinBasePath(base, dirs[i])))
      && (forall k :: k !in PathKeys(dirs) ==> (k in r'.instances <==> k in r.instances))
      && (forall k :: k !in PathKeys(dirs) && k in r.instances ==> r'.instances[k] == r.instances[k])
    decreases |dirs|
  {
    if dirs != [] {
      var init := dirs[..|dirs| - 1];
      var last := dirs[|dirs| - 1];
      BindPathsLookup(r, base, init);
      var r' := BindPaths(r, base, dirs);
      forall i | 0 <= i < |dirs|
        ensures PathKey(dirs[i]) in r'.instances && r'.instances[PathKey(dirs[i])] == Str(JoinBasePath(base, dirs[i]))
      {
        if dirs[i] != last {
          assert dirs[i] == init[i];
          PathKeyInjective(dirs[i], last);
        }
      }
      PathKeysGrow(dirs);
    }
  }

  /** The keys of a list of directories include those of its prefix and the
      key of its last directory. */
  lemma PathKeysGrow(dirs: seq<string>)
    requires dirs != []
    ensures PathKeys(dirs[..|dirs| - 1]) <= PathKeys(dirs)
    ensures PathKey(dirs[|dirs| - 1]) in PathKeys(dirs)
  {
    var init := dirs[..|dirs| - 1];
    forall k | k in PathKeys(init)
      ensures k in PathKeys(dirs)
    {
      var i :| 0 <= i < |init| && k == PathKey(init[i]);
      assert init[i] == dirs[i];
    }
  }

  /** One more directory is one more instance. */
  lemma BindPathsStep(r: B.Registry, base: string, dirs: seq<string>, i: nat)
    requires i < |dirs|
    ensures BindPaths(r, base, dirs[..i + 1])
         == B.Instance(BindPaths(r, base, dirs[..i]), PathKey(dirs[i]), Str(JoinBasePath(base, dirs[i])))
  {
    assert dirs[..i + 1][..i] == dirs[..i];
  }

  /** Different directories have different keys. */
  lemma PathKeyInjective(a: string, b: string)
    requires a != b
    ensures PathKey(a) != PathKey(b)
  {
    assert PathKey(a)[5..] == a && PathKey(b)[5..] == b;
  }

  /** The registry `bindPathsInContainer` leaves: `path.base`, then the
      directories. */
  function BindPathsInContainer(r: B.Registry, base: string): (r': B.Registry)
    ensures r'.bindings == r.bindings
    ensures "path.base" in r'.instances && r'.instances["path.base"] == Str(base)
  {
    var start := B.Instance(r, "path.base", Str(JoinBasePath(base, "")));
    BindPathsLookup(start, base, Directories);
    BaseKeyNotADirectoryKey();
    BindPaths(start, base, Directories)
  }

  /** `path.base` is the base path and `path.<d>` is the base path, the
      separator and `d` for each standard directory; bindings are untouched. */
  lemma PathsRegistered(r: B.Registry, base: string)
    ensures var r' := BindPathsInContainer(r, base);
      && r'.bindings == r.bindings
      && "path.base" in r'.instances && r'.instances["path.base"] == Str(base)
      && forall i :: 0 <= i < |Directories| ==>
           PathKey(Directories[i]) in r'.instances
           && r'.instances[PathKey(Directories[i])] == Str(base + "/" + Directories[i])
  {
    var start := B.Instance(r, "path.base", Str(JoinBasePath(base, "")));
    BindPathsLookup(start, base, Directories);
    BaseKeyNotADirectoryKey();
    DirectoryNamesAreTruthy();
  }

  /** No standard directory is called `base`, so `path.base` survives the
      directory loop. */
  lemma BaseKeyNotADirectoryKey()
    ensures "path.base" !in PathKeys(Directories)
  {
    forall i | 0 <= i < |Directories|
      ensures PathKey(Directories[i]) != "path.base"
    {
      assert Directories[i] != "base";
      PathKeyInjective(Directories[i], "base");
    }
  }

  /** Every standard directory name is truthy in PHP (neither `''` nor
      `'0'`), so `basePath` puts the separator in front of it. */
  lemma DirectoryNamesAreTruthy()
    ensures forall i :: 0 <= i < |Directories| ==> Directories[i] != "" && Directories[i] != "0"
  {
    forall i | 0 <= i < |Directories|
      ensures |Directories[i]| >= 3
    {
    }
  }

  // ---------------------------------------------------------------------
  // Environment patterns

  predicate NoNewline(s: string) {
    forall i :: 0 <= i < |s| ==> s[i] != '\n'
  }

  predicate StarFree(p: string) {
    forall i :: 0 <= i < |p| ==> p[i] != '*'
  }

  /** Whether `#^<pattern>\z#` matches the whole subject once the pattern is
      quoted and each `*` turned into `.*`: a `*` stands for any run of
      characters other than a newline, every other character for itself. */
  function GlobMatch(p: string, s: string): (r: bool)
    ensures p == [] ==> (r <==> s == [])
    ensures r && p != [] && p[0] != '*' ==> s != [] && s[0] == p[0]
    ensures r && s == [] ==> forall i :: 0 <= i < |p| ==> p[i] == '*'
    decreases |p| + |s|
  {
    if p == [] then s == []
    else if p[0] == '*' then GlobMatch(p[1..], s) || (s != [] && s[0] != '\n' && GlobMatch(p, s[1..]))
    else s != [] && s[0] == p[0] && GlobMatch(p[1..], s[1..])
  }

  /** Without `*` a pattern matches exactly itself. */
  lemma {:induction false} GlobLiteral(p: string, s: string)
    requires StarFree(p)
    ensures GlobMatch(p, s) <==> p == s
    decreases |p|
  {
    if p != [] && s != [] {
      GlobLiteral(p[1..], s[1..]);
      if p[1..] == s[1..] && p[0] == s[0] {
        assert p == [p[0]] + p[1..] && s == [s[0]] + s[1..];
      }
    }
  }

  /** A lone `*` matches exactly the strings without a newline. */
  lemma {:induction false} GlobStar(s: string)
    ensures GlobMatch("*", s) <==> NoNewline(s)
    decreases |s|
  {
    var star := "*";
    assert star[1..] == [];
    if s != [] {
      GlobStar(s[1..]);
      if NoNewline(s) {
        assert NoNewline(s[1..]) by {
          forall i | 0 <= i < |s[1..]| ensures s[1..][i] != '\n' {
            assert s[1..][i] == s[i + 1];
          }
        }
      }
      if s[0] != '\n' && NoNewline(s[1..]) {
        forall i | 0 <= i < |s| ensures s[i] != '\n' {
          if i > 0 {
            assert s[i] == s[1..][i - 1];
          }
        }
      }
    }
  }

  /** A literal prefix followed by `*` matches the strings that start with
      the prefix and have no newline after it. */
  lemma {:induction false} GlobPrefixStar(q: string, s: string)
    requires StarFree(q)
    ensures GlobMatch(q + "*", s) <==> |q| <= |s| && s[..|q|] == q && NoNewline(s[|q|..])
    decreases |q|
  {
    if q == [] {
      assert q + "*" == "*";
      GlobStar(s);
    } else {
      assert (q + "*")[1..] == q[1..] + "*";
      if s != [] {
        GlobPrefixStar(q[1..], s[1..]);
        if |q| <= |s| {
          assert s[1..][|q| - 1..] == s[|q|..];
          if s[0] == q[0] && s[1..][..|q| - 1] == q[1..] {
            assert s[..|q|] == [s[0]] + s[1..][..|q| - 1];
          }
          if s[..|q|] == q {
            assert s[1..][..|q| - 1] == s[..|q|][1..];
          }
        }
      }
    }
  }

  /** An argument of `environment()`: a pattern, or an array of patterns. */
  datatype EnvArg = Pattern(p: string) | Patterns(ps: seq<string>)

  /** `is_array(func_get_arg(0)) ? func_get_arg(0) : func_get_args()`: an
      array first argument replaces the whole argument list. */
  function PatternsOf(args: seq<EnvArg>): (ps: seq<EnvArg>)
    requires args != []
    ensures args[0].Patterns? ==> |ps| == |args[0].ps| && forall i :: 0 <= i < |ps| ==> ps[i] == Pattern(args[0].ps[i])
    ensures args[0].Pattern? ==> ps == args
  {
    if args[0].Patterns? then seq(|args[0].ps|, i requires 0 <= i < |args[0].ps| => Pattern(args[0].ps[i]))
    else args
  }

  /** The pattern loop: `true` at the first pattern that matches, `false`
      when none does; an array met in the loop cannot be quoted and raises a
      `TypeError`. */
  function MatchAny(patterns: seq<EnvArg>, env: string): (r: Result<bool>)
    ensures r.Err? ==> r.error == TypeError && exists i :: 0 <= i < |patterns| && patterns[i].Patterns?
    ensures (forall i :: 0 <= i < |patterns| ==> patterns[i].Pattern?) ==> r.Ok?
    ensures r == Ok(true) ==> exists i :: 0 <= i < |patterns| && patterns[i].Pattern? && GlobMatch(patterns[i].p, env)
    decreases |patterns|
  {
    if patterns == [] then Ok(false)
    else match patterns[0]
      case Patterns(_) => Err(TypeError)
      case Pattern(p) => if GlobMatch(p, env) then Ok(true) else MatchAny(patterns[1..], env)
  }

  /** Over plain patterns the loop answers whether some pattern matches. */
  lemma {:induction false} MatchAnyPlain(patterns: seq<EnvArg>, env: string)
    requires forall i :: 0 <= i < |patterns| ==> patterns[i].Pattern?
    ensures MatchAny(patterns, env) == Ok(exists i :: 0 <= i < |patterns| && GlobMatch(patterns[i].p, env))
    decreases |patterns|
  {
    if patterns != [] {
      MatchAnyPlain(patterns[1..], env);
      if exists i :: 0 <= i < |patterns[1..]| && GlobMatch(patterns[1..][i].p, env) {
        var i :| 0 <= i < |patterns[1..]| && GlobMatch(patterns[1..][i].p, env);
        assert GlobMatch(patterns[i + 1].p, env);
      }
      if exists i :: 0 <= i < |patterns| && GlobMatch(patterns[i].p, env) {
        var i :| 0 <= i < |patterns| && GlobMatch(patterns[i].p, env);
        if i > 0 {
          assert GlobMatch(patterns[1..][i - 1].p, env);
        }
      }
    }
  }

  /** `environment('foo', 'bar')` and `environment(['foo', 'bar'])` test the
      same patterns. */
  lemma ArrayOrArguments(a: string, b: string)
    ensures PatternsOf([Pattern(a), Pattern(b)]) == PatternsOf([Patterns([a, b])])
  {
  }

  /** With `env` set to `foo`: `foo` and `f*` match, `qux` and `q*` do not. */
  lemma EnvironmentFoo(env: string)
    requires env == "foo"
    ensures GlobMatch("foo", env) && GlobMatch("f*", env)
    ensures !GlobMatch("qux", env) && !GlobMatch("q*", env)
  {
    GlobLiteral("foo", env);
    GlobLiteral("qux", env);
    assert "f*" == "f" + "*" && "q*" == "q" + "*";
    GlobPrefixStar("f", env);
    GlobPrefixStar("q", env);
    assert env[..1] == "f";
    assert NoNewline(env[1..]);
  }

  /** With `env` set to `foo`: `foo` or `bar` matches, `qux` or `bar` does
      not, given as two arguments or as one array. */
  lemma EnvironmentFooOrBar(env: string)
    requires env == "foo"
    ensures MatchAny(PatternsOf([Pattern("foo"), Pattern("bar")]), env) == Ok(true)
    ensures MatchAny(PatternsOf([Patterns(["foo", "bar"])]), env) == Ok(true)
    ensures MatchAny(PatternsOf([Pattern("qux"), Pattern("bar")]), env) == Ok(false)
    ensures MatchAny(PatternsOf([Patterns(["qux", "bar"])]), env) == Ok(false)
  {
    GlobLiteral("foo", env);
    GlobLiteral("bar", env);
    GlobLiteral("qux", env);
    ArrayOrArguments("foo", "bar");
    ArrayOrArguments("qux", "bar");
    var tail := [Pattern("bar")];
    assert [Pattern("qux"), Pattern("bar")][1..] == tail;
    assert tail[1..] == [];
  }

  // ---------------------------------------------------------------------
  // The application object

  /** `bootServices($service)`: the service's own `boot`, when it has one,
      runs first (`ownBoot` is its outcome); then the call throws a
      `BadMethodCallException` in every case. */
  function BootService(ownBoot: Result<()>): (r: Result<()>)
    ensures r.Err?
    ensures ownBoot.Err? ==> r == ownBoot
    ensures ownBoot.Ok? ==> r == Err(BadMethodCall)
  {
    if ownBoot.Err? then ownBoot else Err(BadMethodCall)
  }

  class Application {
    /** The container state the application inherits. */
    var container: Container
    /** The identity of this object, as the container stores it. */
    const id: nat
    var basePath: string
    var booted: bool
    var hasBeenBootstrapped: bool
    var services: OMap<Value>

    ghost predicate Valid()
      reads this
    {
      services.Valid()
    }

    /** The application as a PHP value. */
    function SelfValue(): Value {
      Obj(ApplicationClass, id)
    }

    /** `new Application($basePath)`: the base path and its directories,
        then the base bindings. */
    constructor (path: string, id: nat)
      ensures this.id == id && fresh(container)
      ensures basePath == TrimBasePath(path)
      ensures container.State() == BaseBindings(BindPathsInContainer(B.EmptyRegistry(), TrimBasePath(path)), Obj(ApplicationClass, id))
      ensures !booted && !hasBeenBootstrapped && services == EmptyOMap() && Valid()
    {
      this.id := id;
      container := new Container();
      basePath := "";
      booted := false;
      hasBeenBootstrapped := false;
      services := EmptyOMap();
      new;
      assert container.State() == B.EmptyRegistry();
      SetBasePath(path);
      ghost var bound := container.State();
      assert bound == BindPathsInContainer(B.EmptyRegistry(), TrimBasePath(path));
      assert !booted && !hasBeenBootstrapped && services == EmptyOMap();
      RegisterBaseBindings();
      assert container.State() == BaseBindings(bound, SelfValue());
    }

    /** `basePath($path)` */
    function BasePath(path: string): (r: string)
      reads this
      ensures path == "" ==> r == basePath
      ensures path != "" && path != "0" ==> r == basePath + [DirectorySeparator] + path
    {
      JoinBasePath(basePath, path)
    }

    /** `setBasePath($path)`: trims trailing separators, then binds the paths. */
    method SetBasePath(path: string)
      modifies this`basePath, container
      ensures basePath == TrimBasePath(path)
      ensures container.State() == BindPathsInContainer(old(container.State()), basePath)
    {
      basePath := TrimBasePath(path);
      BindPathsIntoContainer();
    }

    /** `bindPathsInContainer()` */
    method BindPathsIntoContainer()
      modifies container
      ensures container.State() == BindPathsInContainer(old(container.State()), basePath)
    {
      var _ := container.Instance("path.base", Str(BasePath("")));
      ghost var start := container.State();
      var i := 0;
      while i < |Directories|
        invariant 0 <= i <= |Directories|
        invariant container.State() == BindPaths(start, basePath, Directories[..i])
      {
        var dir := Directories[i];
        BindPathsStep(start, basePath, Directories, i);
        var _ := container.Instance(PathKey(dir), Str(BasePath(dir)));
        i := i + 1;
      }
      assert Directories[..i] == Directories;
    }

    /** `registerBaseBindings()`: the application under `app` and under its
        class name. */
    method RegisterBaseBindings()
      modifies container
      ensures container.State() == BaseBindings(old(container.State()), SelfValue())
    {
      var _ := container.Instance("app", SelfValue());
      var _ := container.Instance(ApplicationClass, SelfValue());
    }

    /** `isBooted()` */
    function IsBooted(): (b: bool)
      reads this
      ensures b == booted
    {
      booted
    }

    /** `setHasBeenBootstrapped($state)` */
    method SetHasBeenBootstrapped(state: bool)
      modifies this`hasBeenBootstrapped
      ensures hasBeenBootstrapped == state
    {
      hasBeenBootstrapped := state;
    }

    /** `boot()`: nothing once booted; otherwise the services are walked in
        order and the flag is set after the walk. Booting a service always
        throws, so the walk ends at the first service and the flag is set
        only when there are none. `ownBoot` gives the outcome of a service's
        own `boot`. */
    method Boot(ownBoot: Value -> Result<()>) returns (r: Result<()>)
      requires Valid()
      modifies this`booted
      ensures old(booted) ==> booted && r == Ok(())
      ensures !old(booted) && services.Count() == 0 ==> booted && r == Ok(())
      ensures !old(booted) && services.Count() > 0 ==>
        && !booted
        && r == BootService(ownBoot(services.vals[services.keys[0]]))
      ensures r.Err? ==> r.error == BadMethodCall || r == ownBoot(services.vals[services.keys[0]])
    {
      if booted {
        return Ok(());
      }
      if |services.keys| > 0 {
        r := BootService(ownBoot(services.vals[services.keys[0]]));
        return;
      }
      booted := true;
      r := Ok(());
    }

    /** `registerService($service)`: a service name seen for the first time
        is built by the container (the given outcome) and stored; a known
        name is left alone and nothing is built. */
    method RegisterService(service: string, made: Result<Value>) returns (r: Result<()>)
      requires Valid()
      modifies this`services
      ensures Valid()
      ensures service in old(services.vals) ==> services == old(services) && r == Ok(())
      ensures service !in old(services.vals) && made.Ok? ==> services == old(services).Put(service, made.value) && r == Ok(())
      ensures service !in old(services.vals) && made.Err? ==> services == old(services) && r == Err(made.error)
    {
      if service !in services.vals {
        if made.Err? {
          return Err(made.error);
        }
        services := services.Put(service, made.value);
      }
      r := Ok(());
    }

    /** `environment(...)` with `$this['env']` resolved to `env`: the
        environment itself without arguments, otherwise whether one of the
        patterns matches it. */
    method Environment(args: seq<EnvArg>, env: string) returns (r: Result<Value>)
      ensures args == [] ==> r == Ok(Str(env))
      ensures args != [] && MatchAny(PatternsOf(args), env).Ok? ==> r == Ok(Bool(MatchAny(PatternsOf(args), env).value))
      ensures args != [] && MatchAny(PatternsOf(args), env).Err? ==> r == Err(MatchAny(PatternsOf(args), env).error)
    {
      if args == [] {
        return Ok(Str(env));
      }
      var patterns := PatternsOf(args);
      var i := 0;
      while i < |patterns|
        invariant 0 <= i <= |patterns|
        invariant MatchAny(patterns, env) == MatchAny(patterns[i..], env)
      {
        assert patterns[i..][1..] == patterns[i + 1..];
        match patterns[i]
        case Patterns(_) =>
          return Err(TypeError);
        case Pattern(p) =>
          if GlobMatch(p, env) {
            return Ok(Bool(true));
          }
        i := i + 1;
      }
      return Ok(Bool(false));
    }
  }

  /** The registry `registerBaseBindings` leaves: the application cached under
      `app` and under its class name. */
  function BaseBindings(r: B.Registry, app: Value): (r': B.Registry)
    ensures r'.bindings == r.bindings
    ensures "app" in r'.instances && r'.instances["app"] == app
    ensures ApplicationClass in r'.instances && r'.instances[ApplicationClass] == app
  {
    B.Instance(B.Instance(r, "app", app), ApplicationClass, app)
  }

  /** A new application's registry holds `path.base`, the five standard
      directories, `app` and the application's class name as cached
      instances. */
  lemma NewApplicationRegistry(path: string, id: nat)
    ensures var base := TrimBasePath(path);
      var r := BaseBindings(BindPathsInContainer(B.EmptyRegistry(), base), Obj(ApplicationClass, id));
      && r.bindings == map[]
      && "path.base" in r.instances && r.instances["path.base"] == Str(base)
      && (forall i :: 0 <= i < |Directories| ==>
            PathKey(Directories[i]) in r.instances && r.instances[PathKey(Directories[i])] == Str(base + "/" + Directories[i]))
      && B.Has(r, "app") && B.Has(r, ApplicationClass) && B.IsShared(r, "app")
  {
    var base := TrimBasePath(path);
    PathsRegistered(B.EmptyRegistry(), base);
    PathKeysAreNotBaseKeys();
  }

  /** The path keys differ from the keys `registerBaseBindings` writes. */
  lemma PathKeysAreNotBaseKeys()
    ensures "path.base" != "app" && "path.base" != ApplicationClass
    ensures forall i :: 0 <= i < |Directories| ==>
      PathKey(Directories[i]) != "app" && PathKey(Directories[i]) != ApplicationClass
  {
    assert "path.base"[0] == 'p';
    forall i | 0 <= i < |Directories|
      ensures PathKey(Directories[i]) != "app" && PathKey(Directories[i]) != ApplicationClass
    {
      assert PathKey(Directories[i])[0] == 'p';
    }
  }
}
