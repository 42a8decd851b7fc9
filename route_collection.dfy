/** `RouteCollection`: routes filed twice, by method and URI in `$routes`
    and by the concatenation of method and URI in `$allRoutes`. Listing and
    counting read `$allRoutes`, in insertion order. */
module RouteCollections {
  import opened Php
  import opened Routes

  /** The two arrays of a collection, for any kind of route. `all` is None
      while `$allRoutes` is still null. `$routes` is only ever written, so a
      null `$routes` and an empty one are not told apart. */
  datatype Table<R> = Table(byMethod: map<string, OMap<R>>, all: Option<OMap<R>>) {
    ghost predicate Valid() {
      && (forall m :: m in byMethod ==> byMethod[m].Valid())
      && (all.Some? ==> all.value.Valid())
    }
  }

  /** A collection as the class leaves it: no constructor, so both
      properties start out null. */
  function AsWrittenEmpty<R>(): (t: Table<R>)
    ensures t.Valid() && t.all.None?
  {
    Table(map[], None)
  }

  /** A collection whose `$allRoutes` starts out as an empty array. */
  function Empty<R>(): (t: Table<R>)
    ensures t.Valid() && t.all == Some(EmptyOMap())
  {
    Table(map[], Some(EmptyOMap()))
  }

  /** `$array ?? []`: PHP turns a null into an array when it is written to. */
  function OrEmpty<R>(a: Option<OMap<R>>): (m: OMap<R>)
    ensures a.Some? ==> m == a.value
    ensures a.None? ==> m == EmptyOMap()
  {
    if a.Some? then a.value else EmptyOMap()
  }

  /** `addToCollections($route)`: the route is filed under its method and
      URI, and under their concatenation; the same key again replaces the
      earlier route in place. */
  function AddTo<R>(t: Table<R>, httpMethod: string, uri: string, route: R): (t': Table<R>)
    requires t.Valid()
    ensures t'.Valid()
    ensures t'.all.Some?
    ensures t'.all.value.vals == OrEmpty(t.all).vals[httpMethod + uri := route]
    ensures httpMethod in t'.byMethod && uri in t'.byMethod[httpMethod].vals && t'.byMethod[httpMethod].vals[uri] == route
    ensures forall m :: m != httpMethod ==> (m in t'.byMethod <==> m in t.byMethod)
    ensures forall m :: m != httpMethod && m in t.byMethod ==> t'.byMethod[m] == t.byMethod[m]
  {
    var forMethod := if httpMethod in t.byMethod then t.byMethod[httpMethod] else EmptyOMap();
    Table(t.byMethod[httpMethod := forMethod.Put(uri, route)],
          Some(OrEmpty(t.all).Put(httpMethod + uri, route)))
  }

  /** `getRoutes()`: `array_values($this->allRoutes)`, which raises a
      `TypeError` while the array is still null. */
  function GetRoutes<R>(t: Table<R>): (r: Result<seq<R>>)
    requires t.Valid()
    ensures r.Err? <==> t.all.None?
    ensures r.Err? ==> r.error == TypeError
    ensures r.Ok? ==> |r.value| == t.all.value.Count()
    ensures r.Ok? ==> forall i :: 0 <= i < |r.value| ==> r.value[i] == t.all.value.vals[t.all.value.keys[i]]
  {
    if t.all.None? then Err(TypeError) else Ok(t.all.value.Values())
  }

  /** `count()`: the number of routes `getRoutes()` lists. */
  function Count<R>(t: Table<R>): (r: Result<nat>)
    requires t.Valid()
    ensures r.Err? <==> GetRoutes(t).Err?
    ensures r.Err? ==> r.error == TypeError
    ensures r.Ok? ==> r.value == |GetRoutes(t).value|
  {
    match GetRoutes(t)
    case Err(e) => Err(e)
    case Ok(rs) => Ok(|rs|)
  }

  /** A route with a new method and URI goes to the end of the list; one with
      a known method and URI takes the place of the route it replaces, and
      the count does not change. */
  lemma AddToRoutes<R>(t: Table<R>, httpMethod: string, uri: string, route: R)
    requires t.Valid() && t.all.Some?
    ensures var key := httpMethod + uri;
      var before := GetRoutes(t).value;
      var after := GetRoutes(AddTo(t, httpMethod, uri, route));
      && after.Ok?
      && (key !in t.all.value.vals ==> after.value == before + [route] && Count(AddTo(t, httpMethod, uri, route)) == Ok(|before| + 1))
      && (key in t.all.value.vals ==>
            after.value == before[IndexOf(t.all.value.keys, key) := route]
            && Count(AddTo(t, httpMethod, uri, route)) == Ok(|before|))
  {
    PutValues(t.all.value, httpMethod + uri, route);
  }

  /** The first half of `AddToRoutes` on its own: a new key appends. */
  lemma AddToNewKey<R>(t: Table<R>, httpMethod: string, uri: string, route: R)
    requires t.Valid() && t.all.Some? && httpMethod + uri !in t.all.value.vals
    ensures GetRoutes(AddTo(t, httpMethod, uri, route)) == Ok(GetRoutes(t).value + [route])
  {
    PutValuesNew(t.all.value, httpMethod + uri, route);
  }

  /** A collection whose `$allRoutes` is still null cannot be listed or
      counted: `array_values(null)` is a `TypeError`. */
  lemma FreshCollectionCannotCount<R>()
    ensures GetRoutes(AsWrittenEmpty<R>()) == Err(TypeError)
    ensures Count(AsWrittenEmpty<R>()) == Err(TypeError)
  {
  }

  /** Starting from an empty `$allRoutes`, an empty collection counts zero
      and lists nothing. */
  lemma EmptyCollectionCountsZero<R>()
    ensures GetRoutes(Empty<R>()) == Ok([])
    ensures Count(Empty<R>()) == Ok(0)
  {
  }

  /** One route added to a collection whose `$allRoutes` is null is counted
      once and listed alone: writing to the null array creates it. */
  lemma OneRouteCounted<R>(httpMethod: string, uri: string, route: R)
    ensures GetRoutes(AddTo(AsWrittenEmpty<R>(), httpMethod, uri, route)) == Ok([route])
    ensures Count(AddTo(AsWrittenEmpty<R>(), httpMethod, uri, route)) == Ok(1)
  {
    var key := httpMethod + uri;
    var t := AddTo(AsWrittenEmpty<R>(), httpMethod, uri, route);
    var e: OMap<R> := EmptyOMap();
    assert t.all.value == e.Put(key, route);
    PutValuesNew(e, key, route);
    assert [] + [route] == [route];
  }

  /** Adding to an empty `$allRoutes` or to a null one gives the same collection. */
  lemma EmptyOrNullAlike<R>(httpMethod: string, uri: string, route: R)
    ensures AddTo(Empty<R>(), httpMethod, uri, route) == AddTo(AsWrittenEmpty<R>(), httpMethod, uri, route)
  {
    assert OrEmpty(Empty<R>().all) == OrEmpty(AsWrittenEmpty<R>().all);
  }

  /** The methods the router registers. */
  predicate IsRouterVerb(m: string) {
    m == "GET" || m == "POST" || m == "PUT" || m == "PATCH" || m == "DELETE" || m == "OPTIONS"
  }

  /** The router verb a key of `$allRoutes` starts with, or `""` if none. */
  function VerbOf(key: string): (m: string)
    ensures m == "" || IsRouterVerb(m)
  {
    if |key| >= 3 && key[..3] == "GET" then "GET"
    else if |key| >= 3 && key[..3] == "PUT" then "PUT"
    else if |key| >= 4 && key[..4] == "POST" then "POST"
    else if |key| >= 5 && key[..5] == "PATCH" then "PATCH"
    else if |key| >= 6 && key[..6] == "DELETE" then "DELETE"
    else if |key| >= 7 && key[..7] == "OPTIONS" then "OPTIONS"
    else ""
  }

  /** The verb is read back from a key: no router verb is a prefix of another. */
  lemma VerbOfKey(m: string, uri: string)
    requires IsRouterVerb(m)
    ensures VerbOf(m + uri) == m
  {
    var k := m + uri;
    assert k[..|m|] == m;
    if m == "GET" {
    } else if m == "PUT" {
      assert k[1] == 'U';
    } else if m == "POST" {
      assert k[1] == 'O';
    } else if m == "PATCH" {
      assert k[1] == 'A';
    } else if m == "DELETE" {
      assert k[0] == 'D';
    } else {
      assert k[0] == 'O';
    }
  }

  /** Among routes of the router's verbs, the key of `$allRoutes` tells
      method and URI apart: two routes share it only when they share both. */
  lemma KeyInjective(m1: string, u1: string, m2: string, u2: string)
    requires IsRouterVerb(m1) && IsRouterVerb(m2)
    requires m1 + u1 == m2 + u2
    ensures m1 == m2 && u1 == u2
  {
    VerbOfKey(m1, u1);
    VerbOfKey(m2, u2);
    assert u1 == (m1 + u1)[|m1|..];
    assert u2 == (m2 + u2)[|m2|..];
  }

  /** For methods that are not router verbs the key can clash: `GE` with
      `Tfoo` and `GET` with `foo` share a key, so the second replaces the
      first in the list while both stay filed by method. */
  lemma KeyClash(uri: string, r1: Route, r2: Route)
    requires uri == "foo"
    ensures var t := AddTo(AddTo(AsWrittenEmpty(), "GE", ['T'] + uri, r1), "GET", uri, r2);
      && GetRoutes(t) == Ok([r2])
      && "GE" in t.byMethod && "GET" in t.byMethod
  {
    var key := "GET" + uri;
    assert "GE" + (['T'] + uri) == key;
    var t1 := AddTo(AsWrittenEmpty(), "GE", ['T'] + uri, r1);
    assert t1.all.value.keys == [key];
    var t := AddTo(t1, "GET", uri, r2);
    assert t.all.value.keys == [key];
    assert t.all.value.vals[key] == r2;
    var rs := GetRoutes(t).value;
    assert |rs| == 1 && rs[0] == r2;
    assert rs == [r2];
  }

  /** The collection object. `$allRoutes` starts out as an empty array
      (see the findings: as written it starts out null). */
  class RouteCollection {
    var routes: map<string, OMap<Route>>
    var allRoutes: Option<OMap<Route>>

    function State(): Table<Route>
      reads this
    {
      Table(routes, allRoutes)
    }

    ghost predicate Valid()
      reads this
    {
      State().Valid() && allRoutes.Some?
    }

    constructor ()
      ensures State() == Empty() && Valid()
    {
      routes := map[];
      allRoutes := Some(EmptyOMap());
    }

    /** `add($route)`: files the route under its current method and URI and
        returns it. */
    method Add(route: Route) returns (r: Route)
      requires Valid()
      modifies this
      ensures State() == AddTo(old(State()), route.httpMethod, route.uri, route)
      ensures Valid() && r == route
    {
      var t := AddTo(State(), route.Method(), route.Uri(), route);
      routes := t.byMethod;
      allRoutes := t.all;
      r := route;
    }

    /** `getRoutes()` */
    method GetAll() returns (r: Result<seq<Route>>)
      requires Valid()
      ensures r == GetRoutes(State()) && r.Ok?
    {
      r := Ok(allRoutes.value.Values());
    }

    /** `count()` */
    method CountRoutes() returns (n: nat)
      requires Valid()
      ensures Count(State()) == Ok(n)
    {
      var all := GetAll();
      n := |all.value|;
    }
  }
}
