/** `Repository`: a key/value store over one PHP array. A key can be present
    with a null value: `has` sees it, `get` does not. */
module Repositories {
  import opened Php

  /** `isset($items[$key]) ? $items[$key] : $default` */
  function Lookup(items: OMap<Value>, key: string, default: Value): (v: Value)
    ensures key in items.vals && items.vals[key] != Null ==> v == items.vals[key]
    ensures !(key in items.vals && items.vals[key] != Null) ==> v == default
  {
    if key in items.vals && items.vals[key] != Null then items.vals[key] else default
  }

  /** `$array[] = $value` on what `get` returned: null becomes a one-element
      list, a list grows by one at the end, `false` is turned into a list as
      well (deprecated, still done), and any other value raises an `Error`. */
  function Pushed(current: Value, v: Value): (r: Result<Value>)
    ensures (current.Null? || current == Bool(false)) ==> r == Ok(List([v]))
    ensures current.List? ==>
      && r.Ok? && r.value.List?
      && |r.value.items| == |current.items| + 1
      && r.value.items[..|current.items|] == current.items
      && r.value.items[|current.items|] == v
    ensures r.Err? <==> !(current.Null? || current == Bool(false) || current.List?)
    ensures r.Err? ==> r.error == Other("Error")
  {
    match current
    case Null => Ok(List([v]))
    case Bool(b) => if b then Err(Other("Error")) else Ok(List([v]))
    case List(items) => Ok(List(items + [v]))
    case _ => Err(Other("Error"))
  }

  /** `array_unshift($array, $value)` on what `get` returned: a list gets the
      value in front; anything else, null included, is a `TypeError`. */
  function Prepended(current: Value, v: Value): (r: Result<Value>)
    ensures current.List? ==>
      && r.Ok? && r.value.List?
      && |r.value.items| == |current.items| + 1
      && r.value.items[0] == v
      && r.value.items[1..] == current.items
    ensures !current.List? ==> r == Err(TypeError)
  {
    if current.List? then Ok(List([v] + current.items)) else Err(TypeError)
  }

  class Repository {
    var items: OMap<Value>

    ghost predicate Valid()
      reads this
    {
      items.Valid()
    }

    /** `new Repository($items)` */
    constructor (items: OMap<Value>)
      requires items.Valid()
      ensures this.items == items && Valid()
    {
      this.items := items;
    }

    /** `has($key)`: `array_key_exists`, true for a null value too. */
    function Has(key: string): (b: bool)
      reads this
      ensures b <==> key in items.vals
    {
      key in items.vals
    }

    /** `get($key, $default)` */
    function Get(key: string, default: Value): (v: Value)
      reads this
      ensures key in items.vals && items.vals[key] != Null ==> v == items.vals[key]
      ensures !(key in items.vals && items.vals[key] != Null) ==> v == default
    {
      Lookup(items, key, default)
    }

    /** `set($key, $value)` */
    method Set(key: string, value: Value)
      requires Valid()
      modifies this
      ensures items == old(items).Put(key, value) && Valid()
    {
      items := items.Put(key, value);
    }

    /** `push($key, $value)`: appends to the list under the key; on an `Error`
        nothing is stored. */
    method Push(key: string, value: Value) returns (r: Result<()>)
      requires Valid()
      modifies this
      ensures Valid()
      ensures var p := Pushed(old(Get(key, Null)), value);
        && (p.Ok? ==> r == Ok(()) && items == old(items).Put(key, p.value))
        && (p.Err? ==> r == Err(p.error) && items == old(items))
    {
      var current := Get(key, Null);
      var next := Pushed(current, value);
      if next.Err? {
        return Err(next.error);
      }
      Set(key, next.value);
      return Ok(());
    }

    /** `prepend($key, $value)`: puts the value in front of the list under the
        key; on a `TypeError` nothing is stored. */
    method Prepend(key: string, value: Value) returns (r: Result<()>)
      requires Valid()
      modifies this
      ensures Valid()
      ensures var p := Prepended(old(Get(key, Null)), value);
        && (p.Ok? ==> r == Ok(()) && items == old(items).Put(key, p.value))
        && (p.Err? ==> r == Err(p.error) && items == old(items))
    {
      var current := Get(key, Null);
      var next := Prepended(current, value);
      if next.Err? {
        return Err(next.error);
      }
      Set(key, next.value);
      return Ok(());
    }

    /** `all()` */
    function All(): (m: OMap<Value>)
      reads this
      ensures m == items
    {
      items
    }

    /** `offsetExists($key)` is `has($key)`. */
    function OffsetExists(key: string): (b: bool)
      reads this
      ensures b <==> key in items.vals
    {
      Has(key)
    }

    /** `offsetGet($key)` is `get($key)` with a null default. */
    function OffsetGet(key: string): (v: Value)
      reads this
      ensures key in items.vals && items.vals[key] != Null ==> v == items.vals[key]
      ensures !(key in items.vals && items.vals[key] != Null) ==> v == Null
    {
      Get(key, Null)
    }

    /** `offsetSet($key, $value)` is `set($key, $value)`. */
    method OffsetSet(key: string, value: Value)
      requires Valid()
      modifies this
      ensures items == old(items).Put(key, value) && Valid()
    {
      Set(key, value);
    }

    /** `offsetUnset($key)` stores null: the key stays. */
    method OffsetUnset(key: string)
      requires Valid()
      modifies this
      ensures items == old(items).Put(key, Null) && Valid()
      ensures Has(key) && Get(key, Null) == Null
    {
      Set(key, Null);
    }
  }

  /** After `set(k, v)`, `get(k, d)` is `v` unless `v` is null, when it is `d`;
      `has(k)` holds; every other key reads as before. */
  lemma GetAfterSet(items: OMap<Value>, k: string, v: Value, d: Value)
    requires items.Valid()
    ensures var after := items.Put(k, v);
      && k in after.vals
      && Lookup(after, k, d) == (if v == Null then d else v)
      && forall j, e :: j != k ==> Lookup(after, j, e) == Lookup(items, j, e) && (j in after.vals <==> j in items.vals)
  {
  }

  /** An unset key is still present, but reads as the default. */
  lemma UnsetKeepsKey(items: OMap<Value>, k: string, d: Value)
    requires items.Valid()
    ensures k in items.Put(k, Null).vals
    ensures Lookup(items.Put(k, Null), k, d) == d
  {
  }

  /** Pushing onto a missing or null key starts a one-element list; pushing
      again appends. */
  lemma PushTwice(items: OMap<Value>, k: string, a: Value, b: Value)
    requires items.Valid() && Lookup(items, k, Null) == Null
    ensures var first := Pushed(Lookup(items, k, Null), a);
      && first == Ok(List([a]))
      && Pushed(Lookup(items.Put(k, first.value), k, Null), b) == Ok(List([a, b]))
  {
    assert [a] + [b] == [a, b];
  }

  /** Prepending onto a key with no list is a `TypeError`: `array_unshift`
      does not turn null into an array. */
  lemma PrependNeedsList(items: OMap<Value>, k: string, v: Value)
    requires items.Valid() && !(k in items.vals && items.vals[k].List?)
    ensures Prepended(Lookup(items, k, Null), v) == Err(TypeError)
  {
  }

  /** Prepending then pushing onto a list brackets it. */
  lemma PrependThenPush(xs: seq<Value>, a: Value, b: Value)
    ensures Prepended(List(xs), a).Ok?
    ensures Pushed(Prepended(List(xs), a).value, b) == Ok(List([a] + xs + [b]))
  {
  }
}
