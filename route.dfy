/** `Route`: one registered route. It keeps the HTTP method, the normalised
    URI template and the parsed action; it compiles itself lazily into a
    Symfony route, matches requests through the method, host and URI
    validators in that order, and binds its parameter names. */
module Routes {
  import opened Php
  import opened RouteActions
  import opened RouteTemplates
  import opened RouteCompiler
  import opened Validators

  // ---------------------------------------------------------------------
  // URI normalisation

  /** `prefixUri($uri)`: the URI with every outer `/` cut, and `/` for the
      root. PHP's `?:` also treats the string `0` as false, so `0` becomes
      `/` as well. The source trims twice; `PrefixUriAsWritten` shows that
      this is the same as trimming once. */
  function PrefixUri(uri: string): (r: string)
    ensures r != [] && (r == "/" || (r[0] != '/' && r[|r| - 1] != '/'))
    ensures r == "/" <==> Trim(uri, {'/'}) in {"", "0"}
    ensures r != "/" ==> r == Trim(uri, {'/'})
  {
    var t := Trim(uri, {'/'});
    if t == "" || t == "0" then "/" else t
  }

  /** The source's expression `trim('/' . trim($uri, '/'), '/') ?: '/'`
      computes `PrefixUri`. */
  lemma PrefixUriAsWritten(uri: string)
    ensures PrefixUri(uri) == (var t := Trim("/" + Trim(uri, {'/'}), {'/'}); if t == "" || t == "0" then "/" else t)
  {
    SlashThenTrim(uri);
  }

  /** Putting a `/` in front of a trimmed string and trimming again gives
      the trimmed string back. */
  lemma SlashThenTrim(uri: string)
    ensures Trim("/" + Trim(uri, {'/'}), {'/'}) == Trim(uri, {'/'})
  {
    var inner := Trim(uri, {'/'});
    var e: string := [];
    assert "/" + inner == "/" + inner + e;
    TrimSurrounded(inner, "/", e, {'/'});
    TrimIdempotent(uri, {'/'});
  }

  /** The prefixed URI is never empty, and it is `/` or has no `/` at either end. */
  lemma PrefixUriShape(uri: string)
    ensures var r := PrefixUri(uri);
      r != [] && (r == "/" || (r[0] != '/' && r[|r| - 1] != '/'))
  {
  }

  /** Prefixing an already prefixed URI changes nothing, so a route's URI is a
      fixed point of `prefixUri`. */
  lemma PrefixUriIdempotent(uri: string)
    ensures PrefixUri(PrefixUri(uri)) == PrefixUri(uri)
  {
    var r := PrefixUri(uri);
    if r == "/" {
      var e: string := [];
      assert "/" == "/" + e + e;
      TrimSurrounded(e, "/", e, {'/'});
    } else {
      TrimUntouched(r, {'/'});
    }
  }

  /** Slashes around the URI make no difference. */
  lemma PrefixUriIgnoresSlashes(uri: string, pre: string, post: string)
    requires forall i :: 0 <= i < |pre| ==> pre[i] == '/'
    requires forall i :: 0 <= i < |post| ==> post[i] == '/'
    ensures PrefixUri(pre + uri + post) == PrefixUri(uri)
  {
    TrimSurrounded(uri, pre, post, {'/'});
  }

  /** `prefixUri('/foo/bar')` is `foo/bar`. */
  lemma PrefixUriFooBar(uri: string)
    requires uri == "/foo/bar"
    ensures PrefixUri(uri) == "foo/bar"
  {
    var fooBar := "foo/bar";
    assert uri == "/" + fooBar;
    PrefixUriSlashPlain(fooBar);
  }

  /** A leading `/` in front of a URI with no `/` at either end is dropped. */
  lemma PrefixUriSlashPlain(u: string)
    requires u != [] && u[0] != '/' && u[|u| - 1] != '/' && u != "0"
    ensures PrefixUri("/" + u) == u
  {
    assert u[0] !in {'/'} && u[|u| - 1] !in {'/'};
    TrimUntouched(u, {'/'});
    var e: string := [];
    assert "/" + u == "/" + u + e;
    PrefixUriIgnoresSlashes(u, "/", e);
  }

  /** The URI `0` is taken for the root: PHP's `?:` treats `'0'` as false. */
  lemma PrefixUriZero()
    ensures PrefixUri("0") == "/" && PrefixUri("/0/") == "/"
  {
    TrimUntouched("0", {'/'});
    assert "/0/" == "/" + "0" + "/";
    PrefixUriIgnoresSlashes("0", "/", "/");
  }

  // ---------------------------------------------------------------------
  // Validators

  /** The entries of `Route::$validators`. */
  datatype ValidatorKind = MethodCheck | HostCheck | UriCheck

  /** `Route::$validators`, in the order `matches` runs them. */
  const RouteValidators: seq<ValidatorKind> := [MethodCheck, HostCheck, UriCheck]

  /** `(new $validator())->validate($route, $request)` for a route with the
      given method and compiled form. */
  function Validate(kind: ValidatorKind, httpMethod: string, compiled: CompiledRoute, req: Request,
                    hostMatches: (string, string) -> bool, pathMatches: (CompiledRoute, string) -> bool): (ok: bool)
    ensures kind == MethodCheck ==> (ok <==> httpMethod == req.httpMethod)
    ensures kind == HostCheck && HostRegex(compiled).None? ==> ok
    ensures kind == HostCheck && HostRegex(compiled).Some? ==> ok == hostMatches(HostRegex(compiled).value, req.host)
    ensures kind == UriCheck ==> (ok <==> pathMatches(compiled, RawUrlDecode(NormalisePath(req.pathInfo))))
  {
    match kind
    case MethodCheck => ValidateMethod(httpMethod, req)
    case HostCheck => ValidateHost(compiled, req, hostMatches)
    case UriCheck => ValidateUri(compiled, req, pathMatches)
  }

  /** Every validator in the list accepts the request. */
  predicate AllPass(kinds: seq<ValidatorKind>, httpMethod: string, compiled: CompiledRoute, req: Request,
                    hostMatches: (string, string) -> bool, pathMatches: (CompiledRoute, string) -> bool)
    ensures AllPass(kinds, httpMethod, compiled, req, hostMatches, pathMatches)
        <==> (kinds == [] || (Validate(kinds[0], httpMethod, compiled, req, hostMatches, pathMatches)
                              && AllPass(kinds[1..], httpMethod, compiled, req, hostMatches, pathMatches)))
  {
    forall i :: 0 <= i < |kinds| ==> Validate(kinds[i], httpMethod, compiled, req, hostMatches, pathMatches)
  }

  /** A route matches exactly when the methods agree, the host regex (if
      any) accepts the host and the path regex accepts the normalised,
      decoded path. */
  lemma MatchesIsConjunction(httpMethod: string, compiled: CompiledRoute, req: Request,
                             hostMatches: (string, string) -> bool, pathMatches: (CompiledRoute, string) -> bool)
    ensures AllPass(RouteValidators, httpMethod, compiled, req, hostMatches, pathMatches)
        <==> (&& httpMethod == req.httpMethod
              && ValidateHost(compiled, req, hostMatches)
              && pathMatches(compiled, RawUrlDecode(NormalisePath(req.pathInfo))))
  {
    if ValidateMethod(httpMethod, req) && ValidateHost(compiled, req, hostMatches)
       && ValidateUri(compiled, req, pathMatches) {
      forall i | 0 <= i < 3
        ensures Validate(RouteValidators[i], httpMethod, compiled, req, hostMatches, pathMatches)
      {
      }
    } else {
      assert !Validate(RouteValidators[0], httpMethod, compiled, req, hostMatches, pathMatches)
          || !Validate(RouteValidators[1], httpMethod, compiled, req, hostMatches, pathMatches)
          || !Validate(RouteValidators[2], httpMethod, compiled, req, hostMatches, pathMatches);
    }
  }

  /** A route compiled by `RouteCompiler` has no host, so only the method and
      the path decide whether it matches. */
  lemma CompiledRouteIgnoresHost(httpMethod: string, uri: string, wheres: OMap<string>, action: Action, req: Request,
                                 hostMatches: (string, string) -> bool, pathMatches: (CompiledRoute, string) -> bool)
    ensures var c := Compile(httpMethod, uri, wheres, action);
      AllPass(RouteValidators, httpMethod, c, req, hostMatches, pathMatches) <==>
      (httpMethod == req.httpMethod && pathMatches(c, RawUrlDecode(NormalisePath(req.pathInfo))))
  {
    MatchesIsConjunction(httpMethod, Compile(httpMethod, uri, wheres, action), req, hostMatches, pathMatches);
  }

  // ---------------------------------------------------------------------
  // Parameters

  predicate Distinct(ks: seq<string>) {
    forall i, j :: 0 <= i < j < |ks| ==> ks[i] != ks[j]
  }

  /** The keys whose value is not null, in their original order. */
  function NonNullKeys(ks: seq<string>, vals: map<string, Value>): (r: seq<string>)
    requires forall k :: k in ks ==> k in vals
    requires Distinct(ks)
    ensures forall k :: k in r <==> k in ks && vals[k] != Null
    ensures Distinct(r)
    ensures FirstOccurrenceOrder(ks, r)
  {
    if ks == [] then []
    else
      DistinctTail(ks);
      var rest := NonNullKeys(ks[1..], vals);
      NonNullKeysStep(ks, vals, rest);
      if vals[ks[0]] != Null then [ks[0]] + rest else rest
  }

  lemma DistinctTail(ks: seq<string>)
    requires ks != [] && Distinct(ks)
    ensures Distinct(ks[1..]) && ks[0] !in ks[1..]
  {
    assert forall i :: 0 <= i < |ks[1..]| ==> ks[1..][i] == ks[i + 1];
  }

  /** The step of `NonNullKeys`: the first key goes in front of the
      filtered tail when its value is not null. */
  lemma NonNullKeysStep(ks: seq<string>, vals: map<string, Value>, rest: seq<string>)
    requires ks != [] && ks[0] in vals && ks[0] !in ks[1..]
    requires forall k :: k in rest ==> k in ks[1..]
    requires Distinct(rest) && FirstOccurrenceOrder(ks[1..], rest)
    ensures Distinct([ks[0]] + rest)
    ensures FirstOccurrenceOrder(ks, rest)
    ensures FirstOccurrenceOrder(ks, [ks[0]] + rest)
  {
    IndexOfTail(ks, rest);
    var r := [ks[0]] + rest;
    forall i, j | 0 <= i < j < |r|
      ensures r[i] != r[j] && IndexOf(ks, r[i]) < IndexOf(ks, r[j])
    {
      assert r[j] == rest[j - 1];
      if i > 0 {
        assert r[i] == rest[i - 1];
      }
    }
  }

  /** Below the first key, positions in `ks` are one more than in its tail. */
  lemma IndexOfTail(ks: seq<string>, rest: seq<string>)
    requires ks != [] && ks[0] !in ks[1..]
    requires forall k :: k in rest ==> k in ks[1..]
    ensures forall k :: k in rest ==> IndexOf(ks, k) == 1 + IndexOf(ks[1..], k)
  {
  }

  /** `array_filter($parameters, fn ($p) => !is_null($p))`: the entries with a
      non-null value, keys, values and order kept. */
  function FilterNonNull(m: OMap<Value>): (r: OMap<Value>)
    requires m.Valid()
    ensures r.Valid()
    ensures forall k :: k in r.vals <==> k in m.vals && m.vals[k] != Null
    ensures forall k :: k in r.vals ==> r.vals[k] == m.vals[k]
    ensures FirstOccurrenceOrder(m.keys, r.keys)
  {
    var ks := NonNullKeys(m.keys, m.vals);
    OMap(ks, map k | k in ks :: m.vals[k])
  }

  /** Keys none of whose values is null are all kept. */
  lemma {:induction false} NonNullKeysAll(ks: seq<string>, vals: map<string, Value>)
    requires forall k :: k in ks ==> k in vals && vals[k] != Null
    requires Distinct(ks)
    ensures NonNullKeys(ks, vals) == ks
  {
    if ks != [] {
      DistinctTail(ks);
      NonNullKeysAll(ks[1..], vals);
      assert NonNullKeys(ks, vals) == [ks[0]] + NonNullKeys(ks[1..], vals);
      assert [ks[0]] + ks[1..] == ks;
    }
  }

  /** Filtering twice is filtering once. */
  lemma FilterNonNullIdempotent(m: OMap<Value>)
    requires m.Valid()
    ensures FilterNonNull(FilterNonNull(m)) == FilterNonNull(m)
  {
    var f := FilterNonNull(m);
    NonNullKeysAll(f.keys, f.vals);
  }

  // ---------------------------------------------------------------------
  // The route object

  class Route {
    var httpMethod: string
    var uri: string
    var action: Action
    var wheres: OMap<string>
    var compiled: Option<CompiledRoute>
    var router: object?
    var container: object?
    /** Set by `RouteParameters::bind`; no value before that. */
    var parameterNames: seq<string>
    /** Set by `RouteParameters::bind`; no value before that. */
    var optionalParameters: OMap<Value>
    /** `$this->parameters`: unset (None) until `bindParameters` assigns it. */
    var parameters: Option<OMap<Value>>

    ghost predicate Valid()
      reads this
    {
      wheres.Valid() && (parameters.Some? ==> parameters.value.Valid())
    }

    /** `new Route($method, $uri, $action)` */
    constructor (httpMethod: string, uri: string, action: string)
      ensures this.httpMethod == httpMethod
      ensures this.uri == PrefixUri(uri)
      ensures this.action == Parse(action)
      ensures wheres == EmptyOMap() && compiled == None
      ensures router == null && container == null
      ensures parameterNames == [] && optionalParameters == EmptyOMap() && parameters == None
      ensures Valid()
    {
      this.httpMethod := httpMethod;
      this.uri := PrefixUri(uri);
      this.action := Parse(action);
      wheres := EmptyOMap();
      compiled := None;
      router := null;
      container := null;
      parameterNames := [];
      optionalParameters := EmptyOMap();
      parameters := None;
    }

    /** `uri()` */
    function Uri(): (u: string)
      reads this
      ensures u == uri
    {
      uri
    }

    /** `method()` */
    function Method(): (m: string)
      reads this
      ensures m == httpMethod
    {
      httpMethod
    }

    /** `wheres()` */
    function Wheres(): (w: OMap<string>)
      reads this
      ensures w == wheres
    {
      wheres
    }

    /** `getAction()` */
    function GetAction(): (a: Action)
      reads this
      ensures a == action
    {
      action
    }

    /** `getCompiled()`: null until the route is compiled. */
    function GetCompiled(): (c: Option<CompiledRoute>)
      reads this
      ensures c == compiled
    {
      compiled
    }

    /** `compile()`: compiles the route as it is now and returns it. */
    method Compile() returns (self: Route)
      modifies this`compiled
      ensures compiled == Some(RouteCompiler.Compile(httpMethod, uri, wheres, action))
      ensures self == this
    {
      compiled := Some(RouteCompiler.Compile(httpMethod, uri, wheres, action));
      self := this;
    }

    /** `setWhereClouse($name, $expression)`: sets one requirement. An
        earlier compilation is kept as it was. */
    method SetWhereClouse(name: string, expression: string) returns (self: Route)
      requires Valid()
      modifies this`wheres
      ensures wheres == old(wheres).Put(name, expression)
      ensures Valid() && self == this
    {
      wheres := wheres.Put(name, expression);
      self := this;
    }

    /** `setRouter($router)` */
    method SetRouter(r: object) returns (self: Route)
      modifies this`router
      ensures router == r && self == this
    {
      router := r;
      self := this;
    }

    /** `setContainer($container)` */
    method SetContainer(c: object) returns (self: Route)
      modifies this`container
      ensures container == c && self == this
    {
      container := c;
      self := this;
    }

    /** `matches($request)`: compiles the route if it has not been compiled,
        then runs the validators in order and stops at the first that fails.
        The route's regular expressions are the matchers given. */
    method Matches(req: Request, hostMatches: (string, string) -> bool, pathMatches: (CompiledRoute, string) -> bool)
      returns (ok: bool)
      modifies this`compiled
      ensures old(compiled).Some? ==> compiled == old(compiled)
      ensures old(compiled).None? ==> compiled == Some(RouteCompiler.Compile(httpMethod, uri, wheres, action))
      ensures compiled.Some?
      ensures ok == AllPass(RouteValidators, httpMethod, compiled.value, req, hostMatches, pathMatches)
    {
      if compiled.None? {
        var _ := Compile();
      }
      var c := compiled.value;
      var i := 0;
      while i < |RouteValidators|
        invariant 0 <= i <= |RouteValidators|
        invariant forall j :: 0 <= j < i ==> Validate(RouteValidators[j], httpMethod, c, req, hostMatches, pathMatches)
      {
        if !Validate(RouteValidators[i], httpMethod, c, req, hostMatches, pathMatches) {
          return false;
        }
        i := i + 1;
      }
      return true;
    }

    /** `bind($request)` through `bindParameters`: `RouteParameters::bind`
        records the parameter names on the route and returns nothing, and
        that null is what `bindParameters` stores, so the route stays
        without parameters. */
    method Bind(req: Request) returns (self: Route)
      modifies this`parameterNames, this`optionalParameters, this`parameters
      ensures parameterNames == CompileParameterNames(uri)
      ensures optionalParameters == ExtractOptionalParameters(uri)
      ensures parameters == None
      ensures self == this
    {
      var binder := new RouteParameters(this);
      binder.Bind();
      parameters := None;
      self := this;
    }

    /** `parameters()`: the bound parameters, or a `LogicException` when the
        property holds nothing. */
    method Parameters() returns (r: Result<OMap<Value>>)
      ensures r.Err? <==> parameters.None?
      ensures r.Err? ==> r.error == LogicException
      ensures r.Ok? ==> r.value == parameters.value
    {
      if parameters.Some? {
        return Ok(parameters.value);
      }
      return Err(LogicException);
    }

    /** `parametersWithoutNulls()`: the parameters minus their null entries;
        the `LogicException` of `parameters()` passes through. */
    method ParametersWithoutNulls() returns (r: Result<OMap<Value>>)
      requires Valid()
      ensures r.Err? <==> parameters.None?
      ensures r.Err? ==> r.error == LogicException
      ensures r.Ok? ==> forall k :: k in r.value.vals <==> k in parameters.value.vals && parameters.value.vals[k] != Null
      ensures r.Ok? ==> forall k :: k in r.value.vals ==> r.value.vals[k] == parameters.value.vals[k]
      ensures r.Ok? ==> r.value == FilterNonNull(parameters.value)
    {
      var all := Parameters();
      if all.Err? {
        return Err(all.error);
      }
      return Ok(FilterNonNull(all.value));
    }
  }

  /** `compileParameterNames()`: the content of every placeholder, `?`
      trimmed. `compileOptionalParameters()` is the same computation as the
      compiler's `extractOptionalParameters`, and uses it. */
  function CompileParameterNames(uri: string): (names: seq<string>)
    ensures forall i :: 0 <= i < |names| ==> QuestionTrimmed(names[i])
    ensures NoChar(uri, '{') ==> names == []
    ensures forall ps :: WellFormedPieces(ps) && Render(ps) == uri ==>
      names == PlaceholderNames(ps) && |names| == PlaceholderCount(ps)
  {
    ParamNamesOfAnyPieces(uri);
    ParamNamesWithoutBraces(uri);
    ParamNames(uri)
  }

  /** In a template without nested braces, every optional parameter is also
      among the parameter names. */
  lemma OptionalParametersAreNamed(uri: string)
    requires NoNestedBraces(uri)
    ensures forall k :: k in ExtractOptionalParameters(uri).vals ==> k in CompileParameterNames(uri)
  {
    OptionalNamesAreParameters(uri);
  }

  /** `RouteParameters`: writes the parameter names of its route onto it. */
  class RouteParameters {
    var route: Route

    constructor (route: Route)
      ensures this.route == route
    {
      this.route := route;
    }

    /** `bind()`: `compileParameterNames()` then `compileOptionalParameters()`. */
    method Bind()
      modifies route`parameterNames, route`optionalParameters
      ensures route.parameterNames == CompileParameterNames(route.uri)
      ensures route.optionalParameters == ExtractOptionalParameters(route.uri)
    {
      route.parameterNames := CompileParameterNames(route.Uri());
      route.optionalParameters := ExtractOptionalParameters(route.Uri());
    }
  }
}
