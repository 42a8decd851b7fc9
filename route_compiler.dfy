/** `RouteCompiler`: an Emberfuse route becomes a Symfony route whose path is
    the template with optional placeholders rewritten, whose defaults give
    each optional parameter a null value, and whose requirements are the
    route's `wheres`. Symfony's own compilation of that route into regular
    expressions is not modelled: a compiled route is the Symfony route it was
    compiled from, and the validators query it through abstract matchers. */
module RouteCompiler {
  import opened Php
  import opened RouteActions
  import opened RouteTemplates

  /** The arguments of `new SymfonyRoute(path, defaults, requirements,
      options, host, schemes, methods)`; the options are `utf8 => true` and
      the route's action. */
  datatype SymfonyRoute = SymfonyRoute(
    path: string,
    defaults: OMap<Value>,
    requirements: OMap<string>,
    utf8: bool,
    action: Action,
    host: string,
    schemes: seq<string>,
    methods: seq<string>)

  /** Symfony's `CompiledRoute`, known by the route it was compiled from. */
  datatype CompiledRoute = CompiledRoute(source: SymfonyRoute)

  /** `getHostRegex()`: Symfony builds a host regex only for a non-empty host. */
  function HostRegex(c: CompiledRoute): Option<string> {
    if c.source.host == "" then None else Some(c.source.host)
  }

  /** `extractOptionalParameters($route)`: every name of an optional
      placeholder, once, mapped to null. */
  function ExtractOptionalParameters(uri: string): (d: OMap<Value>)
    ensures d.Valid()
    ensures forall k :: k in d.vals <==> k in OptionalNames(uri)
    ensures forall k :: k in d.vals ==> d.vals[k] == Null
    ensures FirstOccurrenceOrder(OptionalNames(uri), d.keys)
  {
    FillKeysOrder(OptionalNames(uri));
    FillKeysNull(OptionalNames(uri))
  }

  /** `createSymfonyRoute($route)` for a route with the given method, URI,
      requirements and action. */
  function CreateSymfonyRoute(httpMethod: string, uri: string, wheres: OMap<string>, action: Action): (r: SymfonyRoute)
    ensures r.path == Rewrite(uri) && NoOptToken(r.path)
    ensures r.defaults == ExtractOptionalParameters(uri)
    ensures forall k :: k in r.defaults.vals <==> k in OptionalNames(uri)
    ensures forall k :: k in r.defaults.vals ==> r.defaults.vals[k] == Null
    ensures FirstOccurrenceOrder(OptionalNames(uri), r.defaults.keys)
    ensures r.methods == [httpMethod] && r.requirements == wheres
    ensures r.host == "" && r.schemes == [] && r.utf8 && r.action == action
  {
    RewriteLeavesNoOptional(uri);
    SymfonyRoute(Rewrite(uri), ExtractOptionalParameters(uri), wheres, true, action, "", [], [httpMethod])
  }

  /** `RouteCompiler::compile($route)` */
  function Compile(httpMethod: string, uri: string, wheres: OMap<string>, action: Action): (c: CompiledRoute)
    ensures c.source == CreateSymfonyRoute(httpMethod, uri, wheres, action)
    ensures HostRegex(c) == None
  {
    CompiledRoute(CreateSymfonyRoute(httpMethod, uri, wheres, action))
  }

  /** A template without optional placeholders is passed on unchanged, with
      no defaults. */
  lemma PlainTemplateUnchanged(httpMethod: string, uri: string, wheres: OMap<string>, action: Action)
    requires NoOptToken(uri)
    ensures CreateSymfonyRoute(httpMethod, uri, wheres, action).path == uri
    ensures CreateSymfonyRoute(httpMethod, uri, wheres, action).defaults.keys == []
  {
    RewriteWithoutOptional(uri);
  }
}
