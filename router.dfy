/** `Router`: registers routes for the HTTP verbs into a route collection,
    each route compiled and attached to the router and its container, and
    turns a failed route lookup into a 404 when dispatching. */
module Routers {
  import opened Php
  import opened RouteActions
  import opened RouteCompiler
  import opened Routes
  import opened RouteCollections
  import opened Containers
  import Bindings

  class Router {
    var container: Container
    var routes: RouteCollection

    ghost predicate Valid()
      reads this, routes
    {
      routes.Valid()
    }

    /** `new Router($container, $routes)`: a missing container or collection
        is replaced by a new one. The new collection is the corrected empty
        one: in the source its `$allRoutes` starts null, so listing or
        counting before the first route raises a `TypeError` (see
        `FreshCollectionCannotCount`); `EmptyOrNullAlike` shows the two starts
        agree from the first added route on. */
    constructor (c: Container?, rs: RouteCollection?)
      requires rs != null ==> rs.Valid()
      ensures c != null ==> container == c
      ensures c == null ==> fresh(container) && container.State() == Bindings.EmptyRegistry()
      ensures rs != null ==> routes == rs
      ensures rs == null ==> fresh(routes) && routes.State() == Empty()
      ensures Valid()
    {
      if c != null {
        container := c;
      } else {
        container := new Container();
      }
      if rs != null {
        routes := rs;
      } else {
        routes := new RouteCollection();
      }
    }

    /** `createRoute($method, $uri, $action)`: a new route, attached to this
        router and its container, compiled as it stands. */
    method CreateRoute(httpMethod: string, uri: string, action: string) returns (route: Route)
      ensures fresh(route)
      ensures route.httpMethod == httpMethod && route.uri == PrefixUri(uri) && route.action == Parse(action)
      ensures route.wheres == EmptyOMap()
      ensures route.router == this && route.container == container
      ensures route.compiled == Some(RouteCompiler.Compile(route.httpMethod, route.uri, route.wheres, route.action))
      ensures route.parameters == None
    {
      route := new Route(httpMethod, uri, action);
      Attach(route);
    }

    /** The chain `setRouter($this)->setContainer($this->container)->compile()`. */
    method Attach(route: Route)
      modifies route`router, route`container, route`compiled
      ensures route.router == this && route.container == container
      ensures route.compiled == Some(RouteCompiler.Compile(route.httpMethod, route.uri, route.wheres, route.action))
    {
      var r1 := route.SetRouter(this);
      var r2 := r1.SetContainer(container);
      var _ := r2.Compile();
    }

    /** `addRoute($method, $uri, $action)`: creates the route and adds it to
        the collection under its method and normalised URI. */
    method AddRoute(httpMethod: string, uri: string, action: string) returns (route: Route)
      requires Valid()
      modifies routes
      ensures Valid()
      ensures fresh(route)
      ensures route.httpMethod == httpMethod && route.uri == PrefixUri(uri) && route.action == Parse(action)
      ensures route.router == this && route.container == container
      ensures route.compiled == Some(RouteCompiler.Compile(httpMethod, PrefixUri(uri), EmptyOMap(), Parse(action)))
      ensures routes.State() == AddTo(old(routes.State()), httpMethod, PrefixUri(uri), route)
    {
      var created := CreateRoute(httpMethod, uri, action);
      route := routes.Add(created);
    }

    /** `get($uri, $action)` */
    method Get(uri: string, action: string) returns (route: Route)
      requires Valid()
      modifies routes
      ensures Valid() && fresh(route)
      ensures route.httpMethod == "GET" && route.uri == PrefixUri(uri) && route.action == Parse(action)
      ensures route.router == this && route.container == container
      ensures route.compiled == Some(RouteCompiler.Compile("GET", PrefixUri(uri), EmptyOMap(), Parse(action)))
      ensures routes.State() == AddTo(old(routes.State()), "GET", PrefixUri(uri), route)
    {
      route := AddRoute("GET", uri, action);
    }

    /** `post($uri, $action)` */
    method Post(uri: string, action: string) returns (route: Route)
      requires Valid()
      modifies routes
      ensures Valid() && fresh(route)
      ensures route.httpMethod == "POST" && route.uri == PrefixUri(uri) && route.action == Parse(action)
      ensures route.router == this && route.container == container
      ensures route.compiled == Some(RouteCompiler.Compile("POST", PrefixUri(uri), EmptyOMap(), Parse(action)))
      ensures routes.State() == AddTo(old(routes.State()), "POST", PrefixUri(uri), route)
    {
      route := AddRoute("POST", uri, action);
    }

    /** `put($uri, $action)` */
    method Put(uri: string, action: string) returns (route: Route)
      requires Valid()
      modifies routes
      ensures Valid() && fresh(route)
      ensures route.httpMethod == "PUT" && route.uri == PrefixUri(uri) && route.action == Parse(action)
      ensures route.router == this && route.container == container
      ensures route.compiled == Some(RouteCompiler.Compile("PUT", PrefixUri(uri), EmptyOMap(), Parse(action)))
      ensures routes.State() == AddTo(old(routes.State()), "PUT", PrefixUri(uri), route)
    {
      route := AddRoute("PUT", uri, action);
    }

    /** `patch($uri, $action)` */
    method Patch(uri: string, action: string) returns (route: Route)
      requires Valid()
      modifies routes
      ensures Valid() && fresh(route)
      ensures route.httpMethod == "PATCH" && route.uri == PrefixUri(uri) && route.action == Parse(action)
      ensures route.router == this && route.container == container
      ensures route.compiled == Some(RouteCompiler.Compile("PATCH", PrefixUri(uri), EmptyOMap(), Parse(action)))
      ensures routes.State() == AddTo(old(routes.State()), "PATCH", PrefixUri(uri), route)
    {
      route := AddRoute("PATCH", uri, action);
    }

    /** `delete($uri, $action)` */
    method Delete(uri: string, action: string) returns (route: Route)
      requires Valid()
      modifies routes
      ensures Valid() && fresh(route)
      ensures route.httpMethod == "DELETE" && route.uri == PrefixUri(uri) && route.action == Parse(action)
      ensures route.router == this && route.container == container
      ensures route.compiled == Some(RouteCompiler.Compile("DELETE", PrefixUri(uri), EmptyOMap(), Parse(action)))
      ensures routes.State() == AddTo(old(routes.State()), "DELETE", PrefixUri(uri), route)
    {
      route := AddRoute("DELETE", uri, action);
    }

    /** `options($uri, $action)` */
    method Options(uri: string, action: string) returns (route: Route)
      requires Valid()
      modifies routes
      ensures Valid() && fresh(route)
      ensures route.httpMethod == "OPTIONS" && route.uri == PrefixUri(uri) && route.action == Parse(action)
      ensures route.router == this && route.container == container
      ensures route.compiled == Some(RouteCompiler.Compile("OPTIONS", PrefixUri(uri), EmptyOMap(), Parse(action)))
      ensures routes.State() == AddTo(old(routes.State()), "OPTIONS", PrefixUri(uri), route)
    {
      route := AddRoute("OPTIONS", uri, action);
    }

    /** `getRouteCollection()` */
    function GetRouteCollection(): (c: RouteCollection)
      reads this
      ensures c == routes
    {
      routes
    }
  }

  /** The `try`/`catch` of `dispatch($request)` around the route lookup: a
      `RouteNotFoundException` becomes a `NotFoundHttpException`; a found
      route and every other exception pass through. */
  function Dispatch<R>(found: Result<R>): (r: Result<R>)
    ensures found.Ok? ==> r == found
    ensures found.Err? && found.error == RouteNotFound ==> r == Err(NotFoundHttp)
    ensures found.Err? && found.error != RouteNotFound ==> r == found
  {
    if found.Err? && found.error == RouteNotFound then Err(NotFoundHttp) else found
  }

  /** A failed lookup never leaves `dispatch` as `RouteNotFoundException`,
      and it fails exactly when the lookup does. */
  lemma DispatchNeverRouteNotFound<R>(found: Result<R>)
    ensures Dispatch(found) != Err(RouteNotFound)
    ensures Dispatch(found).Err? <==> found.Err?
  {
  }

  /** Registering with two verbs, or two URIs that differ after
      normalisation, files two routes: both are listed, in order. */
  lemma TwoRoutesListed<R>(t: Table<R>, m1: string, u1: string, r1: R, m2: string, u2: string, r2: R)
    requires t.Valid() && t.all.Some? && IsRouterVerb(m1) && IsRouterVerb(m2)
    requires m1 + u1 !in t.all.value.vals && m2 + u2 !in t.all.value.vals
    requires m1 != m2 || u1 != u2
    ensures GetRoutes(AddTo(AddTo(t, m1, u1, r1), m2, u2, r2)) == Ok(GetRoutes(t).value + [r1, r2])
  {
    var t1 := AddTo(t, m1, u1, r1);
    AddToNewKey(t, m1, u1, r1);
    SecondKeyNew(t, m1, u1, r1, m2, u2);
    AddToNewKey(t1, m2, u2, r2);
    AppendTwo(GetRoutes(t).value, r1, r2);
  }

  lemma AppendTwo<T>(xs: seq<T>, a: T, b: T)
    ensures xs + [a] + [b] == xs + [a, b]
  {
    assert [a] + [b] == [a, b];
  }

  /** After the first route is filed, the second route's key is still new. */
  lemma SecondKeyNew<R>(t: Table<R>, m1: string, u1: string, r1: R, m2: string, u2: string)
    requires t.Valid() && t.all.Some? && IsRouterVerb(m1) && IsRouterVerb(m2)
    requires m2 + u2 !in t.all.value.vals
    requires m1 != m2 || u1 != u2
    ensures m2 + u2 !in AddTo(t, m1, u1, r1).all.value.vals
  {
    if m2 + u2 == m1 + u1 {
      KeyInjective(m1, u1, m2, u2);
    }
  }
}
