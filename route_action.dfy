/** `RouteAction::parse`: a controller action written `Controller@method` is
    split on `@` into the array `['controller' => ..., 'method' => ...]`. */
module RouteActions {
  import opened Php

  /** The two-key array `compact('controller', 'method')`. When the action has
      no `@`, destructuring finds no second piece and `method` is null. */
  datatype Action = Action(controller: string, methodName: Option<string>)

  predicate NoAt(s: string) {
    forall j :: 0 <= j < |s| ==> s[j] != '@'
  }

  /** `parse($action)`: the controller is the text before the first `@` (all
      of it when there is none); the method is the text between the first `@`
      and the next one or the end; anything after a second `@` is dropped. */
  function Parse(action: string): (r: Action)
    ensures NoAt(r.controller)
    ensures |r.controller| <= |action| && r.controller == action[..|r.controller|]
    ensures r.methodName.None? <==> |r.controller| == |action|
    ensures r.methodName.Some? ==> action[|r.controller|] == '@'
    ensures r.methodName.Some? ==>
      var rest := action[|r.controller| + 1..];
      var m := r.methodName.value;
      && NoAt(m)
      && |m| <= |rest| && m == rest[..|m|]
      && (|m| == |rest| || rest[|m|] == '@')
  {
    ExplodeFirst('@', action);
    var pieces := Explode('@', action);
    if |pieces| > 1 then
      ExplodeFirst('@', action[|pieces[0]| + 1..]);
      Action(pieces[0], Some(pieces[1]))
    else
      Action(pieces[0], None)
  }

  /** `parse(c . '@' . m)` gives back `c` and `m` when neither contains `@`. */
  lemma ParseRoundTrip(c: string, m: string)
    requires NoAt(c) && NoAt(m)
    ensures Parse(c + "@" + m) == Action(c, Some(m))
  {
    ImplodeExplode('@', c, m);
    ExplodeNoSep('@', m);
  }

  /** Whatever follows a second `@` is discarded. */
  lemma ParseDropsRest(c: string, m: string, rest: string)
    requires NoAt(c) && NoAt(m)
    ensures Parse(c + "@" + m + "@" + rest) == Action(c, Some(m))
  {
    assert c + "@" + m + "@" + rest == c + ['@'] + (m + ['@'] + rest);
    ImplodeExplode('@', c, m + ['@'] + rest);
    ImplodeExplode('@', m, rest);
  }

  /** Without `@` the whole action is the controller and the method is null. */
  lemma ParseWithoutAt(a: string)
    requires NoAt(a)
    ensures Parse(a) == Action(a, None)
  {
    ExplodeNoSep('@', a);
  }

  /** `parse('FooController@bar')` is `['controller' => 'FooController', 'method' => 'bar']`. */
  lemma ParseFooControllerBar()
    ensures Parse("FooController@bar") == Action("FooController", Some("bar"))
  {
    assert "FooController@bar" == "FooController" + "@" + "bar";
    ParseRoundTrip("FooController", "bar");
  }
}
