# Emberfuse core, modelled in Dafny

A model of the core of Emberfuse, a small PHP web framework: the service
container's binding registry, its two dependency resolvers, the routing layer
(route actions, routes, the route compiler's template rewrite, route
parameters, the route collection, the router and the three route validators),
the support repository and pipeline, and the application object's paths,
environment test and service boot.

Each source file becomes one module:

| module | file | source |
|---|---|---|
| `Php` | php.dfy | PHP values, exceptions, ordered arrays, `trim`/`rtrim`, `explode` |
| `Bindings`, `Containers` | container.dfy | src/Emberfuse/Container/Container.php |
| `Resolution` | resolution.dfy | the parameter rule both resolvers share |
| `ContainerResolver`, `SupportResolver` | resolvers.dfy | src/Emberfuse/Container/DependencyResolver.php, src/Emberfuse/Support/DependencyResolver.php |
| `RouteActions` | route_action.dfy | src/Emberfuse/Routing/RouteAction.php |
| `RouteTemplates` | route_templates.dfy | the `{...}` scanners of RouteCompiler.php and RouteParameters.php |
| `RouteCompiler` | route_compiler.dfy | src/Emberfuse/Routing/RouteCompiler.php |
| `Validators` | validators.dfy | src/Emberfuse/Routing/Validators/*.php |
| `Routes` | route.dfy | src/Emberfuse/Routing/Route.php, src/Emberfuse/Routing/RouteParameters.php |
| `RouteCollections` | route_collection.dfy | src/Emberfuse/Routing/RouteCollection.php |
| `Routers` | router.dfy | src/Emberfuse/Routing/Router.php |
| `Repositories` | repository.dfy | src/Emberfuse/Support/Repository.php |
| `Pipelines` | pipeline.dfy | src/Emberfuse/Support/Pipeline.php |
| `Applications` | application.dfy | src/Emberfuse/Base/Application.php |

Objects whose properties the source updates in place are classes: `Container`,
both `DependencyResolver`s, `Route`, `RouteParameters`, `RouteCollection`,
`Router`, `Repository`, `Pipeline`, `Application`. Each class method is
specified against a pure function of the old state: `Bindings` for the
container, `ResolveAll` for the resolvers, `AddTo`/`GetRoutes` for the
collection, `Fold` for the pipeline, `BindPathsInContainer` and `MatchAny` for
the application. The properties are proved about those functions.

Points where the model follows PHP closely:

- `isset` is false for a null entry. So a cached `null` instance does not make
  `has` or `isShared` true, and `Repository::get` returns the default for a
  stored null.
- `?:` treats `''` and `'0'` as false. `prefixUri('0')` is therefore `/`, and
  `basePath('0')` appends `0` with no separator.
- `Route::bindParameters` stores the result of `RouteParameters::bind`, which
  returns nothing. A bound route therefore has a null `$parameters`, and
  `parameters()` throws `LogicException` after `bind` as before it.
- `Container::resolve` has an empty body. `get`, `make` and `registerService`
  therefore take the outcome of resolution as a parameter.
- The Symfony route compiler and `preg_match` against the compiled regexes are
  abstract matcher parameters. A compiled route is the Symfony route it was
  built from. Routes built by `RouteCompiler` have an empty host, so their host
  regex is null and the host validator accepts every host.
- PHP strings are `seq<char>` with one character per byte. `rawurldecode`
  yields characters below 256.
- `DIRECTORY_SEPARATOR` is `/`.

## Model

| member | source | states |
|---|---|---|
| Bindings.MakeClosure | src/Emberfuse/Container/Container.php:152-159 | the closure builds exactly the named class |
| Bindings.ConcreteFor | src/Emberfuse/Container/Container.php:115-143 | a null concrete stands for the abstract; a class name is wrapped by `makeClosure`; a closure is stored as it is |
| Bindings.DropStaleInstances | src/Emberfuse/Container/Container.php:313-317 | only the abstract's cached instance is removed |
| Bindings.Bind | src/Emberfuse/Container/Container.php:115-143 | the binding is replaced; no cached instance remains; `has` holds; `isShared` equals the flag; other keys are untouched |
| Bindings.Instance | src/Emberfuse/Container/Container.php:97-104 | the value is cached and bindings are unchanged; a non-null value makes `has` and `isShared` true; other keys are untouched |
| Bindings.ForgetInstance | src/Emberfuse/Container/Container.php:280-283 | only that cached instance goes; `has` then holds iff a binding exists |
| Bindings.ForgetInstances | src/Emberfuse/Container/Container.php:290-293 | all instances go and bindings stay; `has` and `isShared` then depend on bindings alone |
| Bindings.Flush | src/Emberfuse/Container/Container.php:300-304 | both maps are emptied; `has` and `isShared` are false everywhere |
| Bindings.OffsetUnset | src/Emberfuse/Container/Container.php:369-372 | the key's binding and instance are removed and every other key answers as before |
| Bindings.OffsetSetClosure | src/Emberfuse/Container/Container.php:351-360 | a closure is kept; any other value is wrapped in a factory returning it |
| Bindings.GetConcrete | src/Emberfuse/Container/Container.php:219-230 | the bound concrete, or the abstract itself when unbound |
| Bindings.Has | src/Emberfuse/Container/Container.php:54-58 | a bound id is known; an id with neither a binding nor a cached instance is built as its own class name |
| Bindings.IsShared | src/Emberfuse/Container/Container.php:67-73 | a shared id is always known to `has` |
| Bindings.Get | src/Emberfuse/Container/Container.php:164-179 | a `BindingResolution` error is rethrown for a known id and becomes `BindingNotFound` otherwise; other outcomes pass through |
| Bindings.GetNotFoundOnlyWhenUnregistered | src/Emberfuse/Container/Container.php:164-179 | `BindingNotFound` is only produced for an unknown id |
| Bindings.BindThenGetConcrete | src/Emberfuse/Container/Container.php:124-138 | `getConcrete` after `bind` gives the stored factory; with a null concrete it builds the abstract |
| Bindings.BindLastWriteWins | src/Emberfuse/Container/Container.php:115-143 | binding twice leaves the bindings and the `has`/`isShared` answers of the second bind alone |
| Containers.Container.constructor | src/Emberfuse/Container/Container.php:28-35 | both arrays start empty |
| Containers.Container.Singleton | src/Emberfuse/Container/Container.php:83-87 | exactly `bind(a, c, true)` |
| Containers.Container.Instance | src/Emberfuse/Container/Container.php:97-104 | returns the value; the new state is `Bindings.Instance` of the old |
| Containers.Container.Bind | src/Emberfuse/Container/Container.php:115-143 | the new state is `Bindings.Bind` of the old |
| Containers.Container.Get | src/Emberfuse/Container/Container.php:164-179 | the error translation of `Bindings.Get` |
| Containers.Container.GetConcrete | src/Emberfuse/Container/Container.php:219-230 | agrees with `Bindings.GetConcrete` |
| Containers.Container.Has | src/Emberfuse/Container/Container.php:54-58 | agrees with `Bindings.Has` on the current arrays; every bound id is known |
| Containers.Container.IsShared | src/Emberfuse/Container/Container.php:67-73 | agrees with `Bindings.IsShared`; a shared id is known to `has` |
| Containers.Container.GetBindings | src/Emberfuse/Container/Container.php:268-271 | the bindings array; every key in it is known to `has` |
| Containers.Container.OffsetExists | src/Emberfuse/Container/Container.php:326-329 | the same answer as `has` |
| Containers.Container.ForgetInstance | src/Emberfuse/Container/Container.php:280-283 | the new state is `Bindings.ForgetInstance` of the old |
| Containers.Container.ForgetInstances | src/Emberfuse/Container/Container.php:290-293 | the new state is `Bindings.ForgetInstances` of the old |
| Containers.Container.Flush | src/Emberfuse/Container/Container.php:300-304 | everything is emptied; `has` is false for every id |
| Containers.Container.DropStaleInstances | src/Emberfuse/Container/Container.php:313-317 | the new state is `Bindings.DropStaleInstances` of the old |
| Containers.Container.OffsetGet | src/Emberfuse/Container/Container.php:338-341 | the same as `get` |
| Containers.Container.OffsetSet | src/Emberfuse/Container/Container.php:351-360 | an unshared binding to the value's closure; `has` holds and `isShared` does not |
| Containers.Container.OffsetUnset | src/Emberfuse/Container/Container.php:369-372 | the new state is `Bindings.OffsetUnset` of the old |
| Resolution.LastOverride | src/Emberfuse/Container/DependencyResolver.php:153-156 | the most recently pushed frame, or an empty frame |
| Resolution.ResolvePrimitive | src/Emberfuse/Container/DependencyResolver.php:76-83 | the default when one is available; otherwise `DependencyResolutionException` naming the parameter |
| Resolution.DefaultValue | src/Emberfuse/Container/DependencyResolver.php:99-101 | the parameter's default, present exactly when one is available; then it is also what `resolvePrimitive` returns |
| Resolution.ResolveOne | src/Emberfuse/Container/DependencyResolver.php:51-62 | an override is used verbatim; otherwise a primitive gets its default exactly when one exists, and a class gets the container's result or, when optional, its default; under `: object` a class success is an object; a failure only happens without an override |
| Resolution.ResolveAll | src/Emberfuse/Container/DependencyResolver.php:46-65 | a success has exactly one value per dependency |
| Resolution.ResolveClass | src/Emberfuse/Container/DependencyResolver.php:94-105 | the container's result; on `DependencyResolutionException`, the default when optional and a rethrow otherwise; under the `object` return type a success is an object |
| Resolution.ResolveAllPositional | src/Emberfuse/Container/DependencyResolver.php:46-65 | a success has one value per dependency, in order, each that dependency's own resolution |
| Resolution.ResolveAllSucceeds | src/Emberfuse/Container/DependencyResolver.php:46-65 | if every dependency resolves, the list resolves |
| Resolution.ResolveAllFirstError | src/Emberfuse/Container/DependencyResolver.php:46-65 | a failure is the error of the first failing dependency |
| Resolution.ResolveAllStep | src/Emberfuse/Support/DependencyResolver.php:61-80 | one loop step: append the next value, or fail with its error |
| Resolution.ErrorPersists | src/Emberfuse/Support/DependencyResolver.php:61-80 | once a prefix fails, the whole list fails the same way |
| Resolution.OverrideWins | src/Emberfuse/Container/DependencyResolver.php:51-55 | an override under the parameter's name is used verbatim |
| ContainerResolver.DependencyResolver.constructor | src/Emberfuse/Container/DependencyResolver.php:23 | the override stack starts empty |
| ContainerResolver.DependencyResolver.SetParameterOverride | src/Emberfuse/Container/DependencyResolver.php:114-119 | pushes exactly one frame, which becomes the top, and returns the resolver |
| ContainerResolver.DependencyResolver.HasParameterOverride | src/Emberfuse/Container/DependencyResolver.php:128-134 | true exactly when the stack is non-empty and its top frame holds the parameter's name |
| ContainerResolver.DependencyResolver.GetParameterOverride | src/Emberfuse/Container/DependencyResolver.php:143-146 | the top frame's value under the parameter's name |
| ContainerResolver.DependencyResolver.GetLastParameterOverride | src/Emberfuse/Container/DependencyResolver.php:153-156 | the top frame, or an empty frame for an empty stack |
| ContainerResolver.DependencyResolver.Resolve | src/Emberfuse/Container/DependencyResolver.php:46-65 | the loop equals `ResolveAll` on the top frame; the stack is not changed |
| ContainerResolver.DefaultValueStubResolution | tests/Container/DependencyResolverTest.php:16-38 | with `['default' => 'barbaz']` the arguments are the stub and `barbaz`; with no frame, the stub and `foobar` |
| ContainerResolver.NullDefaultIsTypeError | src/Emberfuse/Container/DependencyResolver.php:94-105 | a null default fallback is a `TypeError` under `: object` and is accepted without it |
| SupportResolver.DependencyResolver.constructor | src/Emberfuse/Support/DependencyResolver.php:23 | the override stack starts empty |
| SupportResolver.DependencyResolver.Resolve | src/Emberfuse/Support/DependencyResolver.php:45-50 | the stack grows by exactly the given frame, and resolution uses that frame |
| SupportResolver.DependencyResolver.ResolveDependencies | src/Emberfuse/Support/DependencyResolver.php:61-80 | the loop equals `ResolveAll` on the top frame |
| SupportResolver.DependencyResolver.HasParameterOverride | src/Emberfuse/Support/DependencyResolver.php:89-94 | true exactly when the stack is non-empty and its top frame holds the parameter's name |
| SupportResolver.DependencyResolver.GetParameterOverride | src/Emberfuse/Support/DependencyResolver.php:103-106 | the top frame's value under the parameter's name |
| SupportResolver.DependencyResolver.GetLastParameterOverride | src/Emberfuse/Support/DependencyResolver.php:113-116 | the top frame, or an empty frame for an empty stack |
| SupportResolver.NameDefaultOrOverride | tests/Support/DependencyResolverTest.php:16-36 | `name` resolves to `Thavarshan` without an override and to `James` with one |
| SupportResolver.FrameOfTheCallDecides | src/Emberfuse/Support/DependencyResolver.php:45-50 | earlier calls do not matter: the pushed frame alone decides |
| RouteActions.Parse | src/Emberfuse/Routing/RouteAction.php:7-12 | the controller is the text before the first `@`; the method is the text up to the next `@`, or null without an `@` |
| RouteActions.ParseRoundTrip | src/Emberfuse/Routing/RouteAction.php:9-11 | `parse(c@m)` gives back `c` and `m` when neither holds `@` |
| RouteActions.ParseDropsRest | src/Emberfuse/Routing/RouteAction.php:9 | text after a second `@` is dropped |
| RouteActions.ParseWithoutAt | src/Emberfuse/Routing/RouteAction.php:9 | without `@`, the whole action is the controller and the method is null |
| RouteActions.ParseFooControllerBar | tests/Routing/RouteActionTest.php:10-19 | `FooController@bar` parses to `FooController` and `bar` |
| RouteTemplates.OptTokenAt | src/Emberfuse/Routing/RouteCompiler.php:29 | finds `{name?}` at a position exactly when the pattern matches there |
| RouteTemplates.Rewrite | src/Emberfuse/Routing/RouteCompiler.php:29 | never longer than the template; empty only for the empty template; the first character is kept |
| RouteTemplates.OptionalNames | src/Emberfuse/Routing/RouteCompiler.php:51 | every optional name is a non-empty run of word characters |
| RouteTemplates.RewriteOptionalToken | src/Emberfuse/Routing/RouteCompiler.php:29-54 | after brace-free text, a `{name?}` token is rewritten to `{name}`, the rest is rewritten on its own, and `name` is the first optional name |
| RouteTemplates.RewriteLeavesNoOptional | src/Emberfuse/Routing/RouteCompiler.php:29 | no `{word?}` token is left after the rewrite |
| RouteTemplates.RewriteWithoutOptional | src/Emberfuse/Routing/RouteCompiler.php:29-54 | a template without optional tokens is unchanged and has no optional names |
| RouteTemplates.RewriteIdempotent | src/Emberfuse/Routing/RouteCompiler.php:29 | rewriting twice is rewriting once |
| RouteTemplates.RewriteLength | src/Emberfuse/Routing/RouteCompiler.php:29 | each rewritten token loses exactly one character, its `?` |
| RouteTemplates.RewrittenPieces | src/Emberfuse/Routing/RouteCompiler.php:29 | the reference rewrite: piece for piece, `{name?}` for a non-empty word `name` becomes `{name}`, and every other piece is unchanged |
| RouteTemplates.OptionalPieceNames | src/Emberfuse/Routing/RouteCompiler.php:51 | the reference list of optional names: the `name` of each `{name?}` piece, in order, at most one per placeholder |
| RouteTemplates.RewriteOfPieces | src/Emberfuse/Routing/RouteCompiler.php:29 | for a template of brace-free text and `{...}` placeholders with no `{`, `}` or newline inside, the rewrite is the reference rewrite: each `{name?}` loses its `?`, wherever it stands, and every other character is kept in place |
| RouteTemplates.OptionalNamesOfPieces | src/Emberfuse/Routing/RouteCompiler.php:51 | for such a template, the optional names are exactly the names of its `{name?}` placeholders, left to right, with repetitions; required placeholders contribute none |
| RouteTemplates.RewriteFooBarBaz | tests/Routing/RouterTest.php:45 | `foo/{bar}/{baz?}` is rewritten to `foo/{bar}/{baz}`, and `baz` is its only optional name |
| RouteTemplates.ParamTokenAt | src/Emberfuse/Routing/RouteParameters.php:21 | finds the shortest `{...}` that starts at a position, as the lazy pattern does |
| RouteTemplates.ParamNames | src/Emberfuse/Routing/RouteParameters.php:21-25 | every name has `?` trimmed from both ends |
| RouteTemplates.ParamNamesWithoutBraces | src/Emberfuse/Routing/RouteParameters.php:21-25 | a URI without `{` has no parameter names |
| RouteTemplates.ParamNamesBraceFree | src/Emberfuse/Routing/RouteParameters.php:21-25 | brace-free text in front adds no name |
| RouteTemplates.ParamNamesToken | src/Emberfuse/Routing/RouteParameters.php:21-25 | a leading `{c}` gives the name `c` with `?` trimmed, followed by the names of the rest |
| RouteTemplates.ParamNamesDecompose | src/Emberfuse/Routing/RouteParameters.php:21-25 | brace-free text, then `{c}`, then the rest: the first name is `c` trimmed of `?`, the others are the rest's |
| RouteTemplates.PlaceholderNames | src/Emberfuse/Routing/RouteParameters.php:21-25 | one name per placeholder piece |
| RouteTemplates.ParamNamesOfPieces | src/Emberfuse/Routing/RouteParameters.php:21-25 | for a URI made of brace-free text and `{...}` placeholders, the names are the placeholders' contents with `?` trimmed, left to right, one per placeholder |
| RouteTemplates.ParamNamesOfAnyPieces | src/Emberfuse/Routing/RouteParameters.php:21-25 | the same for every way of cutting a URI into such pieces |
| RouteTemplates.OptionalNamesAreParameters | src/Emberfuse/Routing/RouteParameters.php:21-36 | without nested braces, every optional name is a parameter name |
| RouteTemplates.FillKeysNull | src/Emberfuse/Routing/RouteCompiler.php:53 | one key per distinct name, each mapped to null |
| RouteTemplates.FillKeysOrder | src/Emberfuse/Routing/RouteCompiler.php:53 | the keys follow the names' first appearances |
| RouteCompiler.ExtractOptionalParameters | src/Emberfuse/Routing/RouteCompiler.php:49-54 | the keys are exactly the optional names, all null, in first-appearance order |
| RouteCompiler.CreateSymfonyRoute | src/Emberfuse/Routing/RouteCompiler.php:27-40 | the path is the rewritten template, with no optional token left; the defaults are `extractOptionalParameters` of the template, so their keys are exactly the optional names, all null, in first-appearance order; the methods are the route's own method; the requirements are its wheres; there is no host |
| RouteCompiler.Compile | src/Emberfuse/Routing/RouteCompiler.php:15-18 | compiles the Symfony route; its host regex is null |
| RouteCompiler.PlainTemplateUnchanged | src/Emberfuse/Routing/RouteCompiler.php:29-54 | a template without optional tokens keeps its path and has no defaults |
| Validators.ValidateMethod | src/Emberfuse/Routing/Validators/MethodValidator.php:16-19 | true exactly when the two method strings are equal |
| Validators.ValidateHost | src/Emberfuse/Routing/Validators/HostValidator.php:16-26 | true without a host regex; otherwise the regex's verdict on the host |
| Validators.NormalisePath | src/Emberfuse/Routing/Validators/UriValidator.php:18-20 | the path with outer `/` trimmed and one `/` in front |
| Validators.ValidateUri | src/Emberfuse/Routing/Validators/UriValidator.php:16-25 | the path regex's verdict on the request path with outer `/` trimmed, one `/` put in front, and percent-decoded |
| Validators.NormaliseRoot | src/Emberfuse/Routing/Validators/UriValidator.php:18-20 | an empty or all-slash path normalises to `/` |
| Validators.NormaliseIgnoresSlashes | src/Emberfuse/Routing/Validators/UriValidator.php:18-20 | outer slashes do not change the normalised path |
| Validators.NormaliseIdempotent | src/Emberfuse/Routing/Validators/UriValidator.php:18-20 | normalising twice is normalising once |
| Validators.SlashVariantsAgree | src/Emberfuse/Routing/Validators/UriValidator.php:18-25 | `foo/bar`, `/foo/bar` and `/foo/bar/` get the same verdict |
| Validators.RawUrlDecode | src/Emberfuse/Routing/Validators/UriValidator.php:22-25 | decoding never lengthens the path |
| Validators.DecodeEncode | src/Emberfuse/Routing/Validators/UriValidator.php:22-25 | decoding undoes percent-encoding (section 2.1 of RFC 3986) |
| Validators.DecodeWithoutPercent | src/Emberfuse/Routing/Validators/UriValidator.php:22-25 | a path without `%` is unchanged |
| Validators.EncodedSegmentDecoded | tests/Routing/RouterTest.php:73-74 | `foo/bar/` followed by any encoded name decodes to `/foo/bar/` and the name |
| Routes.PrefixUriAsWritten | src/Emberfuse/Routing/Route.php:219-222 | the source's double trim followed by `?: '/'` is one trim of outer `/`, with `/` for an empty result or `0` |
| Routes.PrefixUri | src/Emberfuse/Routing/Route.php:219-222 | never empty; `/` exactly when the trimmed URI is empty or `0`, and otherwise the URI with every outer `/` cut |
| Routes.PrefixUriShape | src/Emberfuse/Routing/Route.php:219-222 | never empty; `/` or without `/` at either end |
| Routes.PrefixUriIdempotent | src/Emberfuse/Routing/Route.php:219-222 | prefixing twice is prefixing once |
| Routes.PrefixUriIgnoresSlashes | src/Emberfuse/Routing/Route.php:219-222 | outer slashes make no difference |
| Routes.PrefixUriFooBar | tests/Routing/RouteTest.php:12-18 | `/foo/bar` becomes `foo/bar` |
| Routes.PrefixUriZero | src/Emberfuse/Routing/Route.php:219-222 | `0` and `/0/` become `/` |
| Routes.Validate | src/Emberfuse/Routing/Route.php:147-153 | the method validator accepts exactly equal methods; the host validator accepts any host without a host regex and otherwise follows the regex; the URI validator follows the path regex on the normalised, decoded path |
| Routes.AllPass | src/Emberfuse/Routing/Route.php:147-155 | the validator loop passes exactly when the list is empty or the first validator accepts and the rest pass |
| Routes.MatchesIsConjunction | src/Emberfuse/Routing/Route.php:141-156 | all validators pass exactly when the methods agree, the host check passes and the path regex accepts the decoded, normalised path |
| Routes.CompiledRouteIgnoresHost | src/Emberfuse/Routing/Route.php:141-156 | for a compiled route, only the method and the path decide |
| Routes.FilterNonNull | src/Emberfuse/Routing/Route.php:189-194 | keeps exactly the non-null entries, with their values and order |
| Routes.FilterNonNullIdempotent | src/Emberfuse/Routing/Route.php:189-194 | filtering twice is filtering once |
| Routes.Route.constructor | src/Emberfuse/Routing/Route.php:90-95 | stores the method verbatim, the prefixed URI and the parsed action; not compiled yet |
| Routes.Route.Compile | src/Emberfuse/Routing/Route.php:334-339 | stores the compilation of the route as it is now and returns the route |
| Routes.Route.SetWhereClouse | src/Emberfuse/Routing/Route.php:294-299 | sets one requirement and keeps the others |
| Routes.Route.SetRouter | src/Emberfuse/Routing/Route.php:308-313 | stores the router and returns the route |
| Routes.Route.SetContainer | src/Emberfuse/Routing/Route.php:322-327 | stores the container and returns the route |
| Routes.Route.Matches | src/Emberfuse/Routing/Route.php:141-156 | compiles only when not yet compiled; true exactly when every validator passes |
| Routes.Route.Bind | src/Emberfuse/Routing/Route.php:165-182 | the parameter names and optional parameters are recorded; the stored parameters are null |
| Routes.Route.Parameters | src/Emberfuse/Routing/Route.php:203-210 | `LogicException` exactly when no parameters are stored |
| Routes.Route.ParametersWithoutNulls | src/Emberfuse/Routing/Route.php:189-194 | exactly `FilterNonNull` of the stored parameters: the non-null entries with their keys, values and order; otherwise the `LogicException` of `parameters()` |
| Routes.Route.Uri | src/Emberfuse/Routing/Route.php:241-244 | the stored URI |
| Routes.Route.Method | src/Emberfuse/Routing/Route.php:251-254 | the stored HTTP method |
| Routes.Route.Wheres | src/Emberfuse/Routing/Route.php:261-264 | the stored requirements |
| Routes.Route.GetAction | src/Emberfuse/Routing/Route.php:271-274 | the stored parsed action |
| Routes.Route.GetCompiled | src/Emberfuse/Routing/Route.php:281-284 | the stored compiled route, or none before compilation |
| Routes.CompileParameterNames | src/Emberfuse/Routing/RouteParameters.php:19-28 | each name has `?` trimmed from both ends; a URI without `{` has none; for a URI made of brace-free text and `{...}` placeholders, the names are the placeholders' contents left to right, one per placeholder |
| Routes.OptionalParametersAreNamed | src/Emberfuse/Routing/RouteParameters.php:19-39 | without nested braces, every optional parameter is a parameter name |
| Routes.RouteParameters.constructor | src/Emberfuse/Routing/RouteParameters.php:9-12 | keeps the route |
| Routes.RouteParameters.Bind | src/Emberfuse/Routing/RouteParameters.php:14-17 | writes only the route's parameter names and optional parameters |
| RouteCollections.AddTo | src/Emberfuse/Routing/RouteCollection.php:47-52 | the route is filed under method and URI and under their concatenation; every other method is untouched |
| RouteCollections.GetRoutes | src/Emberfuse/Routing/RouteCollection.php:59-62 | `TypeError` exactly while `$allRoutes` is null; otherwise the routes in key order |
| RouteCollections.Count | src/Emberfuse/Routing/RouteCollection.php:79-82 | the number of routes `getRoutes` lists, or its `TypeError` |
| RouteCollections.AddToRoutes | src/Emberfuse/Routing/RouteCollection.php:47-62 | a new key appends and raises the count by one; a known key replaces in place and keeps the count |
| RouteCollections.FreshCollectionCannotCount | src/Emberfuse/Routing/RouteCollection.php:59-82 | on a fresh collection, as written, listing and counting raise `TypeError` |
| RouteCollections.EmptyCollectionCountsZero | src/Emberfuse/Routing/RouteCollection.php:59-82 | an empty `$allRoutes` lists nothing and counts zero |
| RouteCollections.OneRouteCounted | tests/Routing/RouteCollectionTest.php:11-19 | after one add, the collection lists that route alone and counts one |
| RouteCollections.EmptyOrNullAlike | src/Emberfuse/Routing/RouteCollection.php:47-52 | adding to a null or to an empty `$allRoutes` gives the same collection |
| RouteCollections.KeyInjective | src/Emberfuse/Routing/RouteCollection.php:51 | for router verbs, equal keys mean equal method and URI |
| RouteCollections.KeyClash | src/Emberfuse/Routing/RouteCollection.php:51 | for other methods, `GE` with `Tfoo` and `GET` with `foo` share a key |
| RouteCollections.RouteCollection.constructor | src/Emberfuse/Routing/RouteCollection.php:17-24 | starts with an empty `$allRoutes` (corrected; see Findings) |
| RouteCollections.RouteCollection.Add | src/Emberfuse/Routing/RouteCollection.php:33-38 | the new state is `AddTo` under the route's method and URI; returns the route |
| RouteCollections.RouteCollection.GetAll | src/Emberfuse/Routing/RouteCollection.php:59-62 | agrees with `GetRoutes` and succeeds |
| RouteCollections.RouteCollection.CountRoutes | src/Emberfuse/Routing/RouteCollection.php:79-82 | agrees with `Count` |
| Routers.Router.constructor | src/Emberfuse/Routing/Router.php:32-36 | a missing container or collection is replaced by a new one |
| Routers.Router.CreateRoute | src/Emberfuse/Routing/Router.php:139-148 | a new route attached to this router and its container, compiled |
| Routers.Router.AddRoute | src/Emberfuse/Routing/Router.php:125-128 | the created route is returned and filed in the collection under its method and prefixed URI |
| Routers.Router.Get | src/Emberfuse/Routing/Router.php:46-49 | returns a new `GET` route with the prefixed URI and the parsed action, attached to this router and its container and compiled; the collection gains it under `GET` and the prefixed URI |
| Routers.Router.Post | src/Emberfuse/Routing/Router.php:59-62 | returns a new `POST` route with the prefixed URI and the parsed action, attached to this router and its container and compiled; the collection gains it under `POST` and the prefixed URI |
| Routers.Router.Put | src/Emberfuse/Routing/Router.php:72-75 | returns a new `PUT` route with the prefixed URI and the parsed action, attached to this router and its container and compiled; the collection gains it under `PUT` and the prefixed URI |
| Routers.Router.Patch | src/Emberfuse/Routing/Router.php:85-88 | returns a new `PATCH` route with the prefixed URI and the parsed action, attached to this router and its container and compiled; the collection gains it under `PATCH` and the prefixed URI |
| Routers.Router.Delete | src/Emberfuse/Routing/Router.php:98-101 | returns a new `DELETE` route with the prefixed URI and the parsed action, attached to this router and its container and compiled; the collection gains it under `DELETE` and the prefixed URI |
| Routers.Router.Options | src/Emberfuse/Routing/Router.php:111-114 | returns a new `OPTIONS` route with the prefixed URI and the parsed action, attached to this router and its container and compiled; the collection gains it under `OPTIONS` and the prefixed URI |
| Routers.Router.GetRouteCollection | src/Emberfuse/Routing/Router.php:222-225 | the router's own collection |
| Routers.Dispatch | src/Emberfuse/Routing/Router.php:169-178 | `RouteNotFoundException` becomes `NotFoundHttpException`; anything else passes through |
| Routers.DispatchNeverRouteNotFound | src/Emberfuse/Routing/Router.php:169-178 | `dispatch` never lets `RouteNotFoundException` out, and fails exactly when the lookup fails |
| Routers.TwoRoutesListed | tests/Routing/RouterTest.php:34-38 | two verbs, or two URIs, give two routes listed in order |
| Repositories.Lookup | src/Emberfuse/Support/Repository.php:49-56 | the stored value when it is non-null, else the default |
| Repositories.Pushed | src/Emberfuse/Support/Repository.php:96-103 | a list grows by one at the end; null and `false` start a list; anything else is an `Error` |
| Repositories.Prepended | src/Emberfuse/Support/Repository.php:79-86 | a list gets the value at index 0 and keeps the rest; anything else is a `TypeError` |
| Repositories.Repository.Has | src/Emberfuse/Support/Repository.php:36-39 | true exactly when the key is stored, a null value included |
| Repositories.Repository.Get | src/Emberfuse/Support/Repository.php:49-56 | the stored value when it is non-null, else the default |
| Repositories.Repository.All | src/Emberfuse/Support/Repository.php:110-113 | all items |
| Repositories.Repository.OffsetExists | src/Emberfuse/Support/Repository.php:122-125 | the same answer as `has` |
| Repositories.Repository.OffsetGet | src/Emberfuse/Support/Repository.php:134-137 | the stored non-null value, else null |
| Repositories.Repository.constructor | src/Emberfuse/Support/Repository.php:24-27 | seeds the items |
| Repositories.Repository.Set | src/Emberfuse/Support/Repository.php:66-69 | stores the value under the key |
| Repositories.Repository.Push | src/Emberfuse/Support/Repository.php:96-103 | stores `Pushed` of the current value, or stores nothing on error |
| Repositories.Repository.Prepend | src/Emberfuse/Support/Repository.php:79-86 | stores `Prepended` of the current value, or stores nothing on error |
| Repositories.Repository.OffsetSet | src/Emberfuse/Support/Repository.php:147-150 | the same as `set` |
| Repositories.Repository.OffsetUnset | src/Emberfuse/Support/Repository.php:159-162 | stores null, so `has` stays true and `get` reads null |
| Repositories.GetAfterSet | src/Emberfuse/Support/Repository.php:36-69 | after `set`, `get` returns the value (the default for null); other keys read as before |
| Repositories.UnsetKeepsKey | src/Emberfuse/Support/Repository.php:159-162 | an unset key is still present and reads as the default |
| Repositories.PushTwice | src/Emberfuse/Support/Repository.php:96-103 | two pushes onto a missing key give the two-element list |
| Repositories.PrependNeedsList | src/Emberfuse/Support/Repository.php:79-86 | prepending where there is no list is a `TypeError` |
| Repositories.PrependThenPush | src/Emberfuse/Support/Repository.php:79-103 | prepend then push brackets the list |
| Pipelines.Processed | src/Emberfuse/Support/Pipeline.php:110-120 | the last package, or the exception that stopped the run |
| Pipelines.Fold | src/Emberfuse/Support/Pipeline.php:112-117 | without pipes the package comes out unchanged and without error; when no stage can throw, the run never stops with an exception |
| Pipelines.FoldEmpty | tests/Support/PipelineTest.php:30-45 | without pipes the package is unchanged |
| Pipelines.FoldSingle | src/Emberfuse/Support/Pipeline.php:112-117 | one pipe gives its stage's result |
| Pipelines.FoldAppend | src/Emberfuse/Support/Pipeline.php:112-117 | running `p + q` runs `p`, then `q` on its output, unless `p` threw |
| Pipelines.IdentityPipe | src/Emberfuse/Support/Pipeline.php:112-117 | a pipe returning its input can be dropped |
| Pipelines.SecondRunContinues | src/Emberfuse/Support/Pipeline.php:113-119 | a second run starts from the processed package |
| Pipelines.Pipeline.constructor | src/Emberfuse/Support/Pipeline.php:16-49 | no package, no pipes, method `handle` |
| Pipelines.Pipeline.Send | src/Emberfuse/Support/Pipeline.php:58-63 | stores the package |
| Pipelines.Pipeline.Through | src/Emberfuse/Support/Pipeline.php:72-77 | replaces the whole pipe list |
| Pipelines.Pipeline.Via | src/Emberfuse/Support/Pipeline.php:86-91 | replaces the stage method |
| Pipelines.Pipeline.Process | src/Emberfuse/Support/Pipeline.php:110-120 | the loop equals the left fold; the stored package is overwritten |
| Pipelines.Pipeline.Then | src/Emberfuse/Support/Pipeline.php:100-103 | the callback applied to the processed package, or the exception |
| Applications.JoinBasePath | src/Emberfuse/Base/Application.php:134-137 | the base, then the separator and the path when the path is truthy |
| Applications.Application.BasePath | src/Emberfuse/Base/Application.php:134-137 | the base path for `''`; the base path, the separator and the path for a truthy path |
| Applications.TrimBasePath | src/Emberfuse/Base/Application.php:96 | every trailing `/` and `\` is removed and nothing else |
| Applications.TrimBasePathIdempotent | src/Emberfuse/Base/Application.php:96 | trimming twice is trimming once |
| Applications.TrimBasePathIgnoresSeparators | src/Emberfuse/Base/Application.php:96 | trailing separators make no difference |
| Applications.BindPaths | src/Emberfuse/Base/Application.php:112-114 | caches instances only; bindings are untouched |
| Applications.BindPathsLookup | src/Emberfuse/Base/Application.php:108-115 | each directory's key holds its path; every other key is unchanged |
| Applications.PathsRegistered | src/Emberfuse/Base/Application.php:108-115 | `path.base` is the base path and `path.<d>` is base `/` d for the five directories |
| Applications.BindPathsInContainer | src/Emberfuse/Base/Application.php:108-115 | bindings are untouched and `path.base` holds the base path |
| Applications.GlobMatch | src/Emberfuse/Base/Application.php:278 | the empty pattern matches only the empty string; a literal first character must be matched by the subject's; the empty subject is matched only by a pattern made of `*` |
| Applications.MatchAny | src/Emberfuse/Base/Application.php:277-283 | a `TypeError` only when an array is among the patterns; plain patterns always give an answer; `true` only when some pattern matches |
| Applications.GlobLiteral | src/Emberfuse/Base/Application.php:278 | a pattern without `*` matches exactly itself |
| Applications.GlobStar | src/Emberfuse/Base/Application.php:278 | `*` matches exactly the strings without a newline |
| Applications.GlobPrefixStar | src/Emberfuse/Base/Application.php:278 | `q*` matches exactly the strings starting with `q` and having no newline after it |
| Applications.PatternsOf | src/Emberfuse/Base/Application.php:275 | an array first argument replaces the argument list |
| Applications.MatchAnyPlain | src/Emberfuse/Base/Application.php:277-283 | true exactly when some pattern matches |
| Applications.ArrayOrArguments | tests/Base/ApplicationTest.php:48-49 | two arguments and one array of the two are the same patterns |
| Applications.EnvironmentFoo | tests/Base/ApplicationTest.php:46-51 | with env `foo`, `foo` and `f*` match and `qux` and `q*` do not |
| Applications.EnvironmentFooOrBar | tests/Base/ApplicationTest.php:48-53 | with env `foo`, `foo`/`bar` matches and `qux`/`bar` does not, as arguments or as an array |
| Applications.BootService | src/Emberfuse/Base/Application.php:220-227 | always ends in an exception: the service's own or `BadMethodCallException` |
| Applications.BaseBindings | src/Emberfuse/Base/Application.php:144-153 | the application is cached under `app` and under its class name |
| Applications.NewApplicationRegistry | tests/Base/ApplicationTest.php:21-38 | a new application has `path.base`, the five directories, `app` and its class name registered |
| Applications.Application.constructor | src/Emberfuse/Base/Application.php:80-85 | sets the trimmed base path, binds the paths, then the base bindings |
| Applications.Application.SetBasePath | src/Emberfuse/Base/Application.php:94-101 | trims the path and binds the paths under it |
| Applications.Application.BindPathsIntoContainer | src/Emberfuse/Base/Application.php:108-115 | the loop's state is `BindPathsInContainer` of the old state |
| Applications.Application.RegisterBaseBindings | src/Emberfuse/Base/Application.php:144-153 | the new state is `BaseBindings` of the old |
| Applications.Application.SetHasBeenBootstrapped | src/Emberfuse/Base/Application.php:246-249 | stores the flag |
| Applications.Application.IsBooted | src/Emberfuse/Base/Application.php:234-237 | the booted flag |
| Applications.Application.Boot | src/Emberfuse/Base/Application.php:198-209 | a no-op once booted; sets the flag without services; with any service it throws and the flag stays false |
| Applications.Application.RegisterService | src/Emberfuse/Base/Application.php:258-263 | builds and stores a service only the first time its name is seen |
| Applications.Application.Environment | src/Emberfuse/Base/Application.php:272-287 | the env without arguments; otherwise whether some pattern matches, or `TypeError` for an array among the arguments |

## Left out

- `Container::make` and `resolve`: `resolve` has an empty body, so building, aliases and caching on `make` are not modelled. Resolution outcomes are parameters.
- `Container::getInstance`/`makeInstance` and framework/src/Emberfuse/Container/Container.php: process-global static state. `registerBaseBindings`' call to `makeInstance` is left out with them.
- `Container::__get`/`__set`: they forward to `offsetGet`/`offsetSet`, which are modelled.
- Symfony's route compilation into regexes, and every `preg_match` against a compiled route: this is a foreign library. The host and path matchers are parameters.
- `Router::findRoute`: it calls `RouteCollection::match`, which is not defined (src/Emberfuse/Routing/Router.php:187-194). `Router::dispatch` is modelled only as its not-found translation, over the lookup outcome.
- `Router::prepareResponse`: it builds a Symfony `Response`, which belongs to a foreign library (src/Emberfuse/Routing/Router.php:204-215).
- `Router::loadRoutes`: it only invokes a user closure (src/Emberfuse/Routing/Router.php:157-160).
- `Route::run` and `Route::runController`: they build the controller through `make`, check it with `method_exists` and call it with resolved dependencies, which needs reflection and user code (src/Emberfuse/Routing/Route.php:104-132).
- `RouteCollection::getIterator`: it wraps `getRoutes` in an iterator.
- `Route`'s parameter names and optional parameters are dynamic properties in PHP. Before `bind` the model holds them as empty.
- `RouteAction::parse` on an action without `@`: PHP also emits a warning for the missing piece. Only the null method is modelled.
- `Application::registerBaseServices`, `registerLoggerService`, `registerExceptionHandler`, `registerRouter`, `getLogger` and the router and logger accessors: they build objects from other packages. The constructor model stops after `registerBaseBindings`.
- `Application::environment` reads `$this['env']` through the container. The env value is a string parameter, and non-string env values are not modelled.
- Applications.Application.Boot: it walks only to the first service, because booting any service throws. It does not model a service's `boot` that changes other state.
- Repositories.Pushed: an `ArrayAccess` object under the key is treated like any other non-list value (an `Error`).
- Pipelines: building each pipe through the container and calling its stage method are one abstract stage function.
- `DIRECTORY_SEPARATOR` is fixed to `/`.
- Php.Value: PHP arrays are modelled as lists only, and there are no floats. An associative array under a key cannot be stored, so two behaviours on one are not modelled: `push`, which in PHP appends under the next integer key (src/Emberfuse/Support/Repository.php:96-103), and `prepend`'s `array_unshift`, which re-indexes the numeric keys and keeps the string keys (src/Emberfuse/Support/Repository.php:79-86).
- RouteTemplates.Rewrite: the rewrite is characterised piece by piece only for templates whose placeholders hold no `{`. For a nested `{`, as in `{{a?}`, only the general facts are stated: no optional token is left, rewriting is idempotent, and one character goes per optional name.
- RouteTemplates.OptionalNames: the names are characterised piece by piece under the same condition. For a nested `{`, only the shape of each name and their relation to the parameter names are stated.
- Error paths follow PHP 8 semantics. A wrongly typed argument to a built-in raises a `TypeError`: `array_values(null)` in `RouteCollection::getRoutes`, `array_unshift` on a non-array in `Repository::prepend`, and `preg_match` on an array in `Application::environment`. PHP 7 only warned there and went on with null.
- RouteTemplates.ParamNames: the names and their number are stated for URIs that split into text without `{` and `{...}` placeholders with no `}` or newline inside. For a `{` that is never closed on its line, only the `?`-trimming of the names is stated.
- Validators.EncodedSegmentDecoded: the route test's concrete `%C3%A5%CE%B1%D1%84` path is proved for every encoded segment rather than for that literal.

## Findings

| source | as written | input that shows it | evidently intended | confidence | as-written member | corrected member |
|---|---|---|---|---|---|---|
| src/Emberfuse/Routing/RouteCollection.php:59-82 | `$allRoutes` has no initial value, so on a collection with no routes `array_values(null)` raises a `TypeError` | `(new RouteCollection())->count()` | an empty collection lists no routes and counts zero | not executed | RouteCollections.FreshCollectionCannotCount | RouteCollections.EmptyCollectionCountsZero |
