/** PHP runtime notions shared by every component: dynamic values, the
    exceptions the framework throws, results, PHP's ordered arrays and the
    string built-ins (`trim`, `rtrim`, `explode`) the core relies on. */
module Php {

  /** A PHP value as seen by the container, the resolvers and the repositories.
      Objects are identified by their class name and an identity number;
      closures only by identity. Arrays that the core builds are lists. */
  datatype Value =
    | Null
    | Bool(b: bool)
    | Int(i: int)
    | Str(s: string)
    | List(items: seq<Value>)
    | Obj(cls: string, id: nat)
    | Closure(fn: nat)

  /** The exception classes the core throws or catches. */
  datatype Error =
    | BindingResolution(id: string)
    | BindingNotFound(id: string)
    | DependencyResolution(param: string)
    | TypeError
    | LogicException
    | BadMethodCall
    | RouteNotFound
    | NotFoundHttp
    | Other(cls: string)

  datatype Option<T> = None | Some(value: T)

  datatype Result<T> = Ok(value: T) | Err(error: Error)

  // ---------------------------------------------------------------------
  // Ordered arrays

  /** A PHP array with string keys: a map plus the insertion order of its keys.
      Assigning to an existing key keeps its position, a new key goes last. */
  datatype OMap<V> = OMap(keys: seq<string>, vals: map<string, V>) {

    ghost predicate Valid() {
      && (forall i, j :: 0 <= i < j < |keys| ==> keys[i] != keys[j])
      && (forall k :: k in vals <==> k in keys)
    }

    /** `count($array)` */
    function Count(): nat {
      |keys|
    }

    /** `$array[$k] = $v` */
    function Put(k: string, v: V): (r: OMap<V>)
      requires Valid()
      ensures r.Valid()
      ensures r.vals == vals[k := v]
      ensures k in vals ==> r.keys == keys
      ensures k !in vals ==> r.keys == keys + [k]
    {
      if k in vals then OMap(keys, vals[k := v]) else OMap(keys + [k], vals[k := v])
    }

    /** `array_values($array)` */
    function Values(): (r: seq<V>)
      requires Valid()
      ensures |r| == |keys|
      ensures forall i :: 0 <= i < |keys| ==> r[i] == vals[keys[i]]
    {
      ValuesOf(keys, vals)
    }
  }

  function ValuesOf<V>(ks: seq<string>, vals: map<string, V>): (r: seq<V>)
    requires forall k :: k in ks ==> k in vals
    ensures |r| == |ks|
    ensures forall i :: 0 <= i < |ks| ==> r[i] == vals[ks[i]]
  {
    if ks == [] then [] else [vals[ks[0]]] + ValuesOf(ks[1..], vals)
  }

  function EmptyOMap<V>(): (r: OMap<V>)
    ensures r.Valid() && r.Count() == 0 && r.vals == map[]
  {
    OMap([], map[])
  }

  /** Position of a key in the insertion order. */
  function IndexOf(ks: seq<string>, k: string): (i: nat)
    requires k in ks
    ensures i < |ks| && ks[i] == k
    ensures forall j :: 0 <= j < i ==> ks[j] != k
  {
    if ks[0] == k then 0 else 1 + IndexOf(ks[1..], k)
  }

  /** After `$array[$k] = $v`, the listed values are the old ones with the
      value at k's position replaced (an existing key) or `v` appended (a new
      key): insertion order is never disturbed. */
  lemma PutValues<V>(m: OMap<V>, k: string, v: V)
    requires m.Valid()
    ensures k in m.vals ==> m.Put(k, v).Values() == m.Values()[IndexOf(m.keys, k) := v]
    ensures k !in m.vals ==> m.Put(k, v).Values() == m.Values() + [v]
  {
    if k in m.vals {
      PutValuesExisting(m, k, v);
    } else {
      PutValuesNew(m, k, v);
    }
  }

  lemma PutValuesExisting<V>(m: OMap<V>, k: string, v: V)
    requires m.Valid() && k in m.vals
    ensures m.Put(k, v).Values() == m.Values()[IndexOf(m.keys, k) := v]
  {
    var p := m.Put(k, v);
    var r := p.Values();
    var i := IndexOf(m.keys, k);
    var e := m.Values()[i := v];
    assert p.keys == m.keys && |r| == |e|;
    forall j | 0 <= j < |m.keys|
      ensures r[j] == e[j]
    {
      assert r[j] == p.vals[m.keys[j]];
      if j == i {
        assert m.keys[j] == k;
      } else {
        assert m.keys[j] != k by {
          assert m.keys[i] == k;
        }
        assert e[j] == m.vals[m.keys[j]];
      }
    }
  }

  lemma PutValuesNew<V>(m: OMap<V>, k: string, v: V)
    requires m.Valid() && k !in m.vals
    ensures m.Put(k, v).Values() == m.Values() + [v]
  {
    var r := m.Put(k, v).Values();
    var e := m.Values() + [v];
    forall j | 0 <= j < |e|
      ensures r[j] == e[j]
    {
      if j < |m.keys| {
        assert m.keys[j] != k;
      }
    }
  }

  // ---------------------------------------------------------------------
  // Strings

  /** `ltrim($s, $chars)` */
  function TrimLeft(s: string, chars: set<char>): (r: string)
    ensures |r| <= |s| && r == s[|s| - |r|..]
    ensures r == [] || r[0] !in chars
    ensures forall i :: 0 <= i < |s| - |r| ==> s[i] in chars
  {
    if s != [] && s[0] in chars then
      var r := TrimLeft(s[1..], chars);
      assert s[1..][|s| - 1 - |r|..] == s[|s| - |r|..];
      assert forall i :: 1 <= i < |s| - |r| ==> s[i] == s[1..][i - 1];
      r
    else s
  }

  /** `rtrim($s, $chars)` */
  function TrimRight(s: string, chars: set<char>): (r: string)
    ensures |r| <= |s| && r == s[..|r|]
    ensures r == [] || r[|r| - 1] !in chars
    ensures forall i :: |r| <= i < |s| ==> s[i] in chars
  {
    if s != [] && s[|s| - 1] in chars then TrimRight(s[..|s| - 1], chars) else s
  }

  /** `trim($s, $chars)` */
  function Trim(s: string, chars: set<char>): (r: string)
    ensures r == [] || (r[0] !in chars && r[|r| - 1] !in chars)
  {
    TrimRight(TrimLeft(s, chars), chars)
  }

  /** A string that has nothing to cut is left as it is. */
  lemma TrimUntouched(s: string, chars: set<char>)
    requires s == [] || (s[0] !in chars && s[|s| - 1] !in chars)
    ensures Trim(s, chars) == s
  {
  }

  /** Trimming twice is trimming once. */
  lemma TrimIdempotent(s: string, chars: set<char>)
    ensures Trim(Trim(s, chars), chars) == Trim(s, chars)
  {
    TrimUntouched(Trim(s, chars), chars);
  }

  /** Trim cuts the same whatever run of cut characters surrounds the middle. */
  lemma TrimSurrounded(s: string, pre: string, post: string, chars: set<char>)
    requires forall i :: 0 <= i < |pre| ==> pre[i] in chars
    requires forall i :: 0 <= i < |post| ==> post[i] in chars
    ensures Trim(pre + s + post, chars) == Trim(s, chars)
  {
    assert pre + s + post == pre + (s + post);
    TrimLeftSkips(pre, s + post, chars);
    TrimSkipsSuffix(s, post, chars);
  }

  /** Trailing cut characters make no difference to trim. */
  lemma TrimSkipsSuffix(s: string, post: string, chars: set<char>)
    requires forall i :: 0 <= i < |post| ==> post[i] in chars
    ensures Trim(s + post, chars) == Trim(s, chars)
  {
    var l := TrimLeft(s, chars);
    if l == [] {
      TrimLeftSkips(s, post, chars);
      assert post + [] == post;
      TrimLeftSkips(post, [], chars);
    } else {
      TrimLeftAppend(s, post, chars);
      TrimRightAppend(l, post, chars);
    }
  }

  lemma {:induction false} TrimLeftSkips(pre: string, s: string, chars: set<char>)
    requires forall i :: 0 <= i < |pre| ==> pre[i] in chars
    ensures TrimLeft(pre + s, chars) == TrimLeft(s, chars)
  {
    if pre != [] {
      assert (pre + s)[0] == pre[0] && pre[0] in chars;
      assert (pre + s)[1..] == pre[1..] + s;
      TrimLeftSkips(pre[1..], s, chars);
      assert TrimLeft(pre + s, chars) == TrimLeft(pre[1..] + s, chars);
    } else {
      assert pre + s == s;
    }
  }

  lemma {:induction false} TrimLeftAppend(s: string, post: string, chars: set<char>)
    requires TrimLeft(s, chars) != []
    ensures TrimLeft(s + post, chars) == TrimLeft(s, chars) + post
  {
    assert s != [];
    assert (s + post)[0] == s[0];
    if s[0] in chars {
      assert (s + post)[1..] == s[1..] + post;
      TrimLeftAppend(s[1..], post, chars);
    }
  }

  lemma {:induction false} TrimRightAll(s: string, chars: set<char>)
    requires forall i :: 0 <= i < |s| ==> s[i] in chars
    ensures TrimRight(s, chars) == []
  {
    if s != [] {
      TrimRightAll(s[..|s| - 1], chars);
    }
  }

  lemma {:induction false} TrimRightAppend(s: string, post: string, chars: set<char>)
    requires forall i :: 0 <= i < |post| ==> post[i] in chars
    ensures TrimRight(s + post, chars) == TrimRight(s, chars)
  {
    if post != [] {
      var n := |s + post|;
      assert (s + post)[n - 1] == post[|post| - 1] && post[|post| - 1] in chars;
      assert (s + post)[..n - 1] == s + post[..|post| - 1];
      TrimRightAppend(s, post[..|post| - 1], chars);
      assert TrimRight(s + post, chars) == TrimRight(s + post[..|post| - 1], chars);
    } else {
      assert s + post == s;
    }
  }

  /** `explode($sep, $s)`: the pieces between separators, left to right. */
  function Explode(sep: char, s: string): (r: seq<string>)
    ensures |r| >= 1
    ensures forall i, j :: 0 <= i < |r| && 0 <= j < |r[i]| ==> r[i][j] != sep
  {
    if s == [] then [[]]
    else if s[0] == sep then [[]] + Explode(sep, s[1..])
    else
      var rest := Explode(sep, s[1..]);
      [[s[0]] + rest[0]] + rest[1..]
  }

  /** `implode($sep, $pieces)` */
  function Implode(sep: char, pieces: seq<string>): string
    requires |pieces| >= 1
  {
    if |pieces| == 1 then pieces[0] else pieces[0] + [sep] + Implode(sep, pieces[1..])
  }

  /** explode loses nothing: gluing the pieces back gives the input. */
  lemma {:induction false} ExplodeImplode(sep: char, s: string)
    ensures Implode(sep, Explode(sep, s)) == s
  {
    if s == [] {
    } else if s[0] == sep {
      ExplodeImplode(sep, s[1..]);
    } else {
      ExplodeImplode(sep, s[1..]);
      var rest := Explode(sep, s[1..]);
      if |rest| == 1 {
      } else {
        calc {
          Implode(sep, [[s[0]] + rest[0]] + rest[1..]);
          ([s[0]] + rest[0]) + [sep] + Implode(sep, rest[1..]);
          [s[0]] + (rest[0] + [sep] + Implode(sep, rest[1..]));
          [s[0]] + Implode(sep, rest);
        }
      }
    }
  }

  /** Splitting a string glued from separator-free pieces gives the pieces back. */
  lemma {:induction false} ImplodeExplode(sep: char, a: string, s: string)
    requires forall j :: 0 <= j < |a| ==> a[j] != sep
    ensures Explode(sep, a + [sep] + s) == [a] + Explode(sep, s)
  {
    if a == [] {
      assert a + [sep] + s == [sep] + s;
    } else {
      assert (a + [sep] + s)[1..] == a[1..] + [sep] + s;
      ImplodeExplode(sep, a[1..], s);
      assert [a[0]] + a[1..] == a;
    }
  }

  /** The first piece is the text before the first separator (all of `s` when
      there is none), and the other pieces are the split of what follows it. */
  lemma {:induction false} ExplodeFirst(sep: char, s: string)
    ensures var r := Explode(sep, s);
      && |r[0]| <= |s| && r[0] == s[..|r[0]|]
      && (|r| == 1 <==> |r[0]| == |s|)
      && (|r| > 1 ==> s[|r[0]|] == sep && r[1..] == Explode(sep, s[|r[0]| + 1..]))
  {
    var r := Explode(sep, s);
    if s == [] {
    } else if s[0] == sep {
      assert r[0] == [] && r[1..] == Explode(sep, s[1..]);
    } else {
      ExplodeFirst(sep, s[1..]);
      var rest := Explode(sep, s[1..]);
      assert r[0] == [s[0]] + rest[0] && r[1..] == rest[1..];
      assert s == [s[0]] + s[1..];
      if |rest| > 1 {
        assert s[1..][|rest[0]| + 1..] == s[|r[0]| + 1..];
      }
    }
  }

  /** A string without the separator is a single piece. */
  lemma {:induction false} ExplodeNoSep(sep: char, a: string)
    requires forall j :: 0 <= j < |a| ==> a[j] != sep
    ensures Explode(sep, a) == [a]
  {
    if a != [] {
      ExplodeNoSep(sep, a[1..]);
      assert [a[0]] + a[1..] == a;
    }
  }
}
