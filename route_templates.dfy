/** The placeholder scanners of `RouteCompiler` and `RouteParameters`. A route
    template such as `foo/{bar}/{baz?}` holds placeholders; the optional ones
    are matched by the pattern `\{(\w+?)\?\}` and all of them by `\{(.*?)\}`.
    Both scanners follow `preg_match_all` / `preg_replace`: the text is read
    left to right, a match is consumed whole and scanning resumes right after
    it, and where no match starts the scanner moves on by one character. */
module RouteTemplates {
  import opened Php

  /** `\w` in a pattern without the `u` modifier: ASCII letters, digits, `_`. */
  predicate IsWord(c: char) {
    ('a' <= c <= 'z') || ('A' <= c <= 'Z') || ('0' <= c <= '9') || c == '_'
  }

  predicate AllWord(s: string) {
    forall i :: 0 <= i < |s| ==> IsWord(s[i])
  }

  predicate NoChar(s: string, c: char) {
    forall i :: 0 <= i < |s| ==> s[i] != c
  }

  /** Length of the run of word characters that starts `s`. */
  function WordRun(s: string): (n: nat)
    ensures n <= |s| && AllWord(s[..n])
    ensures n < |s| ==> !IsWord(s[n])
  {
    if s != [] && IsWord(s[0]) then
      var m := WordRun(s[1..]);
      assert s[..m + 1] == [s[0]] + s[1..][..m];
      m + 1
    else 0
  }

  // ---------------------------------------------------------------------
  // Optional placeholders: \{(\w+?)\?\}

  /** The pattern `\{(\w+?)\?\}` matches at the start of `s` with a name
      of length `n`. */
  predicate OptMatch(s: string, n: nat) {
    1 <= n && n + 3 <= |s| && s[0] == '{' && AllWord(s[1..n + 1]) && s[n + 1] == '?' && s[n + 2] == '}'
  }

  /** The length of the name when an optional placeholder `{name?}` starts
      `s`, and `None` when the pattern does not match there. Since `?` is not
      a word character, the lazy `\w+?` can only stop at the end of the run of
      word characters, so there is at most one way to match. */
  function OptTokenAt(s: string): (r: Option<nat>)
    ensures r.Some? ==> OptMatch(s, r.value)
    ensures r.None? ==> forall n :: !OptMatch(s, n)
  {
    if s != [] && s[0] == '{' then
      var n := WordRun(s[1..]);
      assert s[1..][..n] == s[1..n + 1];
      OptMatchUnique(s);
      if 1 <= n && n + 3 <= |s| && s[n + 1] == '?' && s[n + 2] == '}' then Some(n)
      else None
    else None
  }

  lemma OptMatchUnique(s: string)
    ensures forall m :: OptMatch(s, m) ==> m == WordRun(s[1..])
  {
    forall m: nat | OptMatch(s, m) ensures m == WordRun(s[1..]) {
      assert s[1..][..m] == s[1..m + 1];
      WordRunAtLeast(s[1..], m);
      WordRunStops(s[1..], m);
    }
  }

  lemma {:induction false} WordRunAtLeast(x: string, m: nat)
    requires m <= |x| && AllWord(x[..m])
    ensures WordRun(x) >= m
  {
    if m > 0 {
      assert IsWord(x[..m][0]);
      assert x[1..][..m - 1] == x[..m][1..];
      WordRunAtLeast(x[1..], m - 1);
    }
  }

  lemma {:induction false} WordRunStops(x: string, m: nat)
    requires m < |x| && !IsWord(x[m])
    ensures WordRun(x) <= m
  {
    if m > 0 && IsWord(x[0]) {
      WordRunStops(x[1..], m - 1);
    }
  }

  /** No optional placeholder starts anywhere in `s`. */
  predicate NoOptToken(s: string) {
    forall i :: 0 <= i <= |s| ==> OptTokenAt(s[i..]).None?
  }

  /** `preg_replace('/\{(\w+?)\?\}/', '{$1}', $uri)`: every optional
      placeholder `{name?}` becomes `{name}`. */
  function Rewrite(s: string): (r: string)
    ensures |r| <= |s|
    ensures s == [] <==> r == []
    ensures s != [] ==> r[0] == s[0]
    decreases |s|
  {
    if s == [] then []
    else match OptTokenAt(s)
      case Some(n) => "{" + s[1..n + 1] + "}" + Rewrite(s[n + 3..])
      case None => [s[0]] + Rewrite(s[1..])
  }

  /** The names captured by `preg_match_all('/\{(\w+?)\?\}/', ...)`, in order
      and with repetitions: `$matches[1]`. */
  function OptionalNames(s: string): (names: seq<string>)
    ensures forall i :: 0 <= i < |names| ==> |names[i]| >= 1 && AllWord(names[i])
    decreases |s|
  {
    if s == [] then []
    else match OptTokenAt(s)
      case Some(n) => [s[1..n + 1]] + OptionalNames(s[n + 3..])
      case None => OptionalNames(s[1..])
  }

  /** Text without `{` holds no optional placeholder: the rewrite copies it. */
  lemma {:induction false} RewriteBraceFree(x: string, t: string)
    requires NoChar(x, '{')
    ensures Rewrite(x + t) == x + Rewrite(t)
  {
    if x != [] {
      var s := x + t;
      assert s[0] == x[0] && s[1..] == x[1..] + t;
      assert OptTokenAt(s).None?;
      RewriteSkip(s);
      RewriteBraceFree(x[1..], t);
      HeadThenTail(x, Rewrite(t));
    } else {
      assert x + t == t;
    }
  }

  lemma HeadThenTail(x: string, r: string)
    requires x != []
    ensures [x[0]] + (x[1..] + r) == x + r
  {
  }

  /** Text without `{` yields no optional name. */
  lemma {:induction false} OptionalNamesBraceFree(x: string, t: string)
    requires NoChar(x, '{')
    ensures OptionalNames(x + t) == OptionalNames(t)
  {
    if x != [] {
      var s := x + t;
      assert s[0] == x[0] && s[1..] == x[1..] + t;
      assert OptTokenAt(s).None?;
      OptionalNamesSkip(s);
      OptionalNamesBraceFree(x[1..], t);
    } else {
      assert x + t == t;
    }
  }

  lemma NoOptTokenStep(s: string)
    requires s != []
    ensures NoOptToken(s) <==> OptTokenAt(s).None? && NoOptToken(s[1..])
  {
    if OptTokenAt(s).None? && NoOptToken(s[1..]) {
      forall i | 1 <= i <= |s| ensures OptTokenAt(s[i..]).None? {
        assert s[i..] == s[1..][i - 1..];
      }
    }
    if NoOptToken(s) {
      assert s[0..] == s;
      forall i | 0 <= i <= |s[1..]| ensures OptTokenAt(s[1..][i..]).None? {
        assert s[1..][i..] == s[i + 1..];
      }
    }
  }

  /** Prepending text without `{` keeps a text free of placeholders. */
  lemma {:induction false} NoOptTokenBraceFree(x: string, t: string)
    requires NoChar(x, '{') && NoOptToken(t)
    ensures NoOptToken(x + t)
  {
    if x != [] {
      assert (x + t)[1..] == x[1..] + t;
      NoOptTokenBraceFree(x[1..], t);
      NoOptTokenStep(x + t);
    } else {
      assert x + t == t;
    }
  }

  /** After the rewrite no optional placeholder remains. */
  lemma {:induction false} RewriteLeavesNoOptional(s: string)
    ensures NoOptToken(Rewrite(s))
    decreases |s|
  {
    if s == [] {
      var e: string := Rewrite(s);
      assert forall i :: 0 <= i <= |e| ==> e[i..] == [];
    } else {
      match OptTokenAt(s)
      case Some(n) =>
        RewriteLeavesNoOptional(s[n + 3..]);
        RewrittenPlaceholderClean(s[1..n + 1], Rewrite(s[n + 3..]));
      case None =>
        RewriteLeavesNoOptional(s[1..]);
        var r := [s[0]] + Rewrite(s[1..]);
        assert r[1..] == Rewrite(s[1..]);
        if s[0] == '{' {
          OpeningBraceCopied(s);
        }
        NoOptTokenStep(r);
    }
  }

  /** A rewritten placeholder `{name}` in front of a text without optional
      placeholders starts none either. */
  lemma RewrittenPlaceholderClean(name: string, rest: string)
    requires |name| >= 1 && AllWord(name) && NoOptToken(rest)
    ensures NoOptToken("{" + name + "}" + rest)
  {
    var r := "{" + name + "}" + rest;
    assert r == ['{'] + ((name + "}") + rest);
    assert NoChar(name + "}", '{') by {
      forall i | 0 <= i < |name + "}"| ensures (name + "}")[i] != '{' {
        if i < |name| {
          assert IsWord(name[i]);
        }
      }
    }
    NoOptTokenBraceFree(name + "}", rest);
    assert OptTokenAt(r).None? by {
      assert r[1..] == name + ("}" + rest);
      WordRunPrefix(name, "}" + rest);
    }
    NoOptTokenStep(r);
  }

  /** The run of word characters of a word followed by a non-word character. */
  lemma {:induction false} WordRunPrefix(w: string, t: string)
    requires AllWord(w) && (t == [] || !IsWord(t[0]))
    ensures WordRun(w + t) == |w|
  {
    if w != [] {
      assert (w + t)[1..] == w[1..] + t;
      WordRunPrefix(w[1..], t);
    } else {
      assert w + t == t;
    }
  }

  /** The rewrite keeps the run of word characters that starts a text, the
      character after it, and the one after that when the first is `?`. */
  lemma RewriteKeepsRun(u: string)
    ensures var n := WordRun(u); var ru := Rewrite(u);
      && WordRun(ru) == n && ru[..n] == u[..n]
      && (n < |u| ==> n < |ru| && ru[n] == u[n])
      && (n + 1 < |u| && u[n] == '?' ==> n + 1 < |ru| && ru[n + 1] == u[n + 1])
  {
    var n := WordRun(u);
    var tail := Rewrite(u[n..]);
    RewriteSplitsAtRun(u);
    WordRunPrefix(u[..n], tail);
    if n + 1 < |u| && u[n] == '?' {
      RewriteAfterQuestion(u[n..]);
    }
  }

  /** A text's leading run of word characters holds no `{`, so the rewrite
      copies it. */
  lemma RewriteSplitsAtRun(u: string)
    ensures var n := WordRun(u);
      Rewrite(u) == u[..n] + Rewrite(u[n..])
  {
    var n := WordRun(u);
    assert u == u[..n] + u[n..];
    assert NoChar(u[..n], '{') by {
      forall i | 0 <= i < n ensures u[..n][i] != '{' {
        assert IsWord(u[..n][i]);
      }
    }
    RewriteBraceFree(u[..n], u[n..]);
  }

  /** A `?` is copied, and so is the character after it. */
  lemma RewriteAfterQuestion(v: string)
    requires |v| >= 2 && v[0] == '?'
    ensures |Rewrite(v)| >= 2 && Rewrite(v)[1] == v[1]
  {
    assert OptTokenAt(v).None?;
    assert Rewrite(v) == [v[0]] + Rewrite(v[1..]);
  }

  /** A `{` copied by the rewrite because no placeholder starts there does
      not start one in the output either. */
  lemma OpeningBraceCopied(s: string)
    requires s != [] && s[0] == '{' && OptTokenAt(s).None?
    ensures OptTokenAt([s[0]] + Rewrite(s[1..])).None?
  {
    var u := s[1..];
    var n := WordRun(u);
    var ru := Rewrite(u);
    var r := [s[0]] + ru;
    RewriteKeepsRun(u);
    assert r[1..] == ru;
    assert s[1..][..n] == s[1..n + 1];
    if 1 <= n && n + 3 <= |r| && r[n + 1] == '?' {
      assert u[n] == '?';
      assert s[n + 2] == r[n + 2];
      assert !OptMatch(s, n);
    }
  }

  /** A template without optional placeholders is left as it is and yields
      no optional names. */
  lemma {:induction false} RewriteWithoutOptional(s: string)
    requires NoOptToken(s)
    ensures Rewrite(s) == s
    ensures OptionalNames(s) == []
    decreases |s|
  {
    if s != [] {
      NoOptTokenStep(s);
      RewriteWithoutOptional(s[1..]);
      assert [s[0]] + s[1..] == s;
    }
  }

  /** Rewriting twice is rewriting once. */
  lemma RewriteIdempotent(s: string)
    ensures Rewrite(Rewrite(s)) == Rewrite(s)
  {
    RewriteLeavesNoOptional(s);
    RewriteWithoutOptional(Rewrite(s));
  }

  /** Each rewritten placeholder loses exactly its `?` and nothing else
      changes length: one character fewer per optional name. */
  lemma {:induction false} RewriteLength(s: string)
    ensures |Rewrite(s)| + |OptionalNames(s)| == |s|
    decreases |s|
  {
    if s != [] {
      var m := if OptTokenAt(s).Some? then OptTokenAt(s).value + 3 else 1;
      RewriteLength(s[m..]);
      RewriteStepLength(s);
    }
  }

  /** One step of the rewrite: a placeholder of `n + 3` characters becomes
      `n + 2` and adds one name; any other character is copied. */
  lemma RewriteStepLength(s: string)
    requires s != []
    ensures OptTokenAt(s).Some? ==>
      var n := OptTokenAt(s).value;
      && |Rewrite(s)| == n + 2 + |Rewrite(s[n + 3..])|
      && |OptionalNames(s)| == 1 + |OptionalNames(s[n + 3..])|
    ensures OptTokenAt(s).None? ==>
      && |Rewrite(s)| == 1 + |Rewrite(s[1..])|
      && OptionalNames(s) == OptionalNames(s[1..])
  {
  }

  /** What the rewrite does to one optional placeholder: after text without
      `{`, `{name?}` becomes `{name}`, its name is the first optional name, and
      both scanners go on right after the `}`. */
  lemma RewriteOptionalToken(x: string, n: string, y: string)
    requires NoChar(x, '{') && |n| >= 1 && AllWord(n)
    ensures Rewrite(x + "{" + n + "?}" + y) == x + "{" + n + "}" + Rewrite(y)
    ensures OptionalNames(x + "{" + n + "?}" + y) == [n] + OptionalNames(y)
  {
    var t := "{" + n + "?}" + y;
    assert x + "{" + n + "?}" + y == x + t by {
      TextThenBracketed(x, "{", n, "?}", y);
    }
    assert x + "{" + n + "}" + Rewrite(y) == x + ("{" + n + "}" + Rewrite(y)) by {
      TextThenBracketed(x, "{", n, "}", Rewrite(y));
    }
    assert Rewrite(x + t) == x + Rewrite(t) by {
      RewriteBraceFree(x, t);
    }
    assert OptionalNames(x + t) == OptionalNames(t) by {
      OptionalNamesBraceFree(x, t);
    }
    OptionalTokenRewritten(n, y);
    OptionalTokenNamed(n, y);
  }

  /** A text that starts with `{name?}` loses the `?` there. */
  lemma OptionalTokenRewritten(n: string, y: string)
    requires |n| >= 1 && AllWord(n)
    ensures Rewrite("{" + n + "?}" + y) == "{" + n + "}" + Rewrite(y)
  {
    var t := "{" + n + "?}" + y;
    var k := |n|;
    assert t[1..k + 1] == n && t[k + 3..] == y by {
      OptionalPlaceholderParts(n, y);
    }
    assert OptTokenAt(t) == Some(k) by {
      OptTokenOfPlaceholder(n, y);
    }
    RewriteAt(t, k);
  }

  /** A text that starts with `{name?}` yields that name first. */
  lemma OptionalTokenNamed(n: string, y: string)
    requires |n| >= 1 && AllWord(n)
    ensures OptionalNames("{" + n + "?}" + y) == [n] + OptionalNames(y)
  {
    var t := "{" + n + "?}" + y;
    var k := |n|;
    assert t[1..k + 1] == n && t[k + 3..] == y by {
      OptionalPlaceholderParts(n, y);
    }
    assert OptTokenAt(t) == Some(k) by {
      OptTokenOfPlaceholder(n, y);
    }
    OptionalNamesAt(t, k);
  }

  lemma OptionalPlaceholderParts(n: string, y: string)
    ensures var t := "{" + n + "?}" + y;
      |t| == |n| + 3 + |y| && t[1..|n| + 1] == n && t[|n| + 3..] == y
  {
  }

  /** One step of the rewrite where an optional placeholder starts. */
  lemma RewriteAt(s: string, k: nat)
    requires s != [] && OptTokenAt(s) == Some(k)
    ensures Rewrite(s) == "{" + s[1..k + 1] + "}" + Rewrite(s[k + 3..])
  {
    match OptTokenAt(s)
    case Some(n) =>
      assert n == k;
  }

  /** One step of the name scan where an optional placeholder starts. */
  lemma OptionalNamesAt(s: string, k: nat)
    requires s != [] && OptTokenAt(s) == Some(k)
    ensures OptionalNames(s) == [s[1..k + 1]] + OptionalNames(s[k + 3..])
  {
    match OptTokenAt(s)
    case Some(n) =>
      assert n == k;
  }

  /** One step of the name scan where no optional placeholder starts. */
  lemma OptionalNamesSkip(s: string)
    requires s != [] && OptTokenAt(s).None?
    ensures OptionalNames(s) == OptionalNames(s[1..])
  {
    match OptTokenAt(s)
    case None =>
  }

  /** One step of the parameter scan where a placeholder starts. */
  lemma ParamNamesAt(s: string, k: nat)
    requires s != [] && ParamTokenAt(s) == Some(k)
    ensures ParamNames(s) == [Trim(s[1..k + 1], {'?'})] + ParamNames(s[k + 2..])
  {
    var c := s[1..k + 1];
    var y := s[k + 2..];
    assert s == "{" + c + "}" + y && NoChar(c, '}') && NoChar(c, '\n') by {
      PlaceholderAt(s, k);
    }
    ParamNamesToken(c, y);
  }

  /** The placeholder the parameter scanner finds is `{`, a content without
      `}` or newline, and `}`. */
  lemma PlaceholderAt(s: string, k: nat)
    requires ParamTokenAt(s) == Some(k)
    ensures NoChar(s[1..k + 1], '}') && NoChar(s[1..k + 1], '\n')
    ensures s == "{" + s[1..k + 1] + "}" + s[k + 2..]
  {
    var c := s[1..k + 1];
    assert ParamMatch(s, k);
    forall j | 0 <= j < |c| ensures c[j] != '}' {
      assert !ParamMatch(s, j);
      assert s[1..j + 1] == c[..j];
      assert c[j] == s[j + 1];
    }
    assert s == [s[0]] + c + [s[k + 1]] + s[k + 2..];
  }

  /** One step of the parameter scan where no placeholder starts. */
  lemma ParamNamesSkip(s: string)
    requires s != [] && ParamTokenAt(s).None?
    ensures ParamNames(s) == ParamNames(s[1..])
  {
    match ParamTokenAt(s)
    case None =>
  }

  /** `{name?}` for a word `name` is an optional placeholder of that name. */
  lemma OptTokenOfPlaceholder(n: string, y: string)
    requires |n| >= 1 && AllWord(n)
    ensures OptTokenAt("{" + n + "?}" + y) == Some(|n|)
  {
    var t := "{" + n + "?}" + y;
    assert t[1..|n| + 1] == n;
    assert t[|n| + 1] == '?' && t[|n| + 2] == '}';
    assert OptMatch(t, |n|);
    OptMatchUnique(t);
  }

  // ---------------------------------------------------------------------
  // All placeholders: \{(.*?)\}

  /** Length of the prefix of `t` before the first `}` or newline. */
  function Stop(t: string): (k: nat)
    ensures k <= |t|
    ensures forall i :: 0 <= i < k ==> t[i] != '}' && t[i] != '\n'
    ensures k < |t| ==> t[k] == '}' || t[k] == '\n'
  {
    if t == [] || t[0] == '}' || t[0] == '\n' then 0 else 1 + Stop(t[1..])
  }

  /** The pattern `\{(.*?)\}` can match at the start of `s` with a content of
      length `k`: `.` does not match a newline. */
  predicate ParamMatch(s: string, k: nat) {
    k + 2 <= |s| && s[0] == '{' && s[k + 1] == '}' && NoChar(s[1..k + 1], '\n')
  }

  /** The content length of the placeholder that starts `s`: the lazy `.*?`
      takes the shortest content that the pattern accepts. */
  function ParamTokenAt(s: string): (r: Option<nat>)
    ensures r.Some? ==> ParamMatch(s, r.value) && forall k :: ParamMatch(s, k) ==> r.value <= k
    ensures r.None? ==> forall k :: !ParamMatch(s, k)
  {
    if s != [] && s[0] == '{' then
      var k := Stop(s[1..]);
      StopInPlace(s);
      if k + 2 <= |s| && s[k + 1] == '}' then
        assert s[1..k + 1] == s[1..][..k];
        Some(k)
      else
        assert forall j: nat :: k < j ==> !ParamMatch(s, j) by {
          forall j: nat | k < j ensures !ParamMatch(s, j) {
            if j + 2 <= |s| {
              assert s[1..j + 1][k] == s[k + 1];
            }
          }
        }
        None
    else None
  }

  /** What `Stop` says about the content after an opening brace, in terms of
      positions of the template itself. */
  lemma StopInPlace(s: string)
    requires s != [] && s[0] == '{'
    ensures var k := Stop(s[1..]);
      && (forall j :: 1 <= j <= k ==> s[j] != '}' && s[j] != '\n')
      && (k + 1 < |s| ==> s[k + 1] == '}' || s[k + 1] == '\n')
  {
    var k := Stop(s[1..]);
    forall j | 1 <= j <= k ensures s[j] != '}' && s[j] != '\n' {
      assert s[1..][j - 1] == s[j];
    }
  }

  /** `compileParameterNames`: the content of each placeholder, left to
      right and with repetitions, with `?` trimmed from both ends. */
  function ParamNames(s: string): (names: seq<string>)
    ensures forall i :: 0 <= i < |names| ==> QuestionTrimmed(names[i])
    decreases |s|
  {
    if s == [] then []
    else match ParamTokenAt(s)
      case Some(k) =>
        var name := Trim(s[1..k + 1], {'?'});
        var rest := ParamNames(s[k + 2..]);
        TrimQuestion(s[1..k + 1]);
        ConsTrimmed(name, rest);
        [name] + rest
      case None => ParamNames(s[1..])
  }

  /** Neither end of `x` is a `?`. */
  predicate QuestionTrimmed(x: string) {
    x == [] || (x[0] != '?' && x[|x| - 1] != '?')
  }

  lemma ConsTrimmed(name: string, rest: seq<string>)
    requires QuestionTrimmed(name)
    requires forall i :: 0 <= i < |rest| ==> QuestionTrimmed(rest[i])
    ensures forall i :: 0 <= i < |[name] + rest| ==> QuestionTrimmed(([name] + rest)[i])
  {
    forall i | 0 <= i < |[name] + rest|
      ensures QuestionTrimmed(([name] + rest)[i])
    {
      if i > 0 {
        assert ([name] + rest)[i] == rest[i - 1];
      }
    }
  }

  lemma TrimQuestion(x: string)
    ensures QuestionTrimmed(Trim(x, {'?'}))
  {
  }

  /** Text without `{` starts no placeholder: it yields no name. */
  lemma {:induction false} ParamNamesBraceFree(x: string, t: string)
    requires NoChar(x, '{')
    ensures ParamNames(x + t) == ParamNames(t)
  {
    if x != [] {
      assert (x + t)[1..] == x[1..] + t;
      assert (x + t)[0] == x[0] != '{';
      ParamNamesBraceFree(x[1..], t);
    } else {
      assert x + t == t;
    }
  }

  /** A template without `{` has no parameter names. */
  lemma ParamNamesWithoutBraces(s: string)
    ensures NoChar(s, '{') ==> ParamNames(s) == []
  {
    if NoChar(s, '{') {
      ParamNamesBraceFree(s, []);
      assert s + [] == s;
    }
  }

  /** `{c}` with neither `}` nor a newline in `c` is matched whole. */
  lemma ParamTokenOfPlaceholder(c: string, y: string)
    requires NoChar(c, '}') && NoChar(c, '\n')
    ensures ParamTokenAt("{" + c + "}" + y) == Some(|c|)
  {
    var s := "{" + c + "}" + y;
    assert s[1..|c| + 1] == c;
    assert ParamMatch(s, |c|);
    forall k: nat | k < |c| ensures !ParamMatch(s, k) {
      assert s[k + 1] == c[k];
    }
  }

  /** Such a placeholder gives the first name, its content with `?` trimmed;
      scanning resumes right after its `}`. */
  lemma ParamNamesToken(c: string, y: string)
    requires NoChar(c, '}') && NoChar(c, '\n')
    ensures ParamNames("{" + c + "}" + y) == [Trim(c, {'?'})] + ParamNames(y)
  {
    var s := "{" + c + "}" + y;
    var k := |c|;
    assert s != [] && ParamTokenAt(s) == Some(k) && s[1..k + 1] == c && s[k + 2..] == y by {
      ParamTokenOfPlaceholder(c, y);
    }
    match ParamTokenAt(s)
    case Some(n) =>
      assert n == k;
  }

  /** Text without `{`, then a placeholder, then anything: the first name is
      that placeholder's trimmed content, and the rest come from what follows. */
  lemma ParamNamesDecompose(x: string, c: string, y: string)
    requires NoChar(x, '{') && NoChar(c, '}') && NoChar(c, '\n')
    ensures ParamNames(x + "{" + c + "}" + y) == [Trim(c, {'?'})] + ParamNames(y)
  {
    var t := "{" + c + "}" + y;
    assert x + "{" + c + "}" + y == x + t by {
      TextThenBracketed(x, "{", c, "}", y);
    }
    assert ParamNames(x + t) == ParamNames(t) by {
      ParamNamesBraceFree(x, t);
    }
    assert ParamNames(t) == [Trim(c, {'?'})] + ParamNames(y) by {
      ParamNamesToken(c, y);
    }
  }

  lemma TextThenBracketed(x: string, open: string, c: string, close: string, y: string)
    ensures x + open + c + close + y == x + (open + c + close + y)
  {
  }

  /** A template read as a list of pieces: literal text, and placeholders
      `{content}`. */
  datatype Piece = Literal(text: string) | Placeholder(content: string)

  /** Literal text holds no `{`, and a placeholder's content holds neither
      `}` nor a newline, so every `{` opens a placeholder that closes on its
      line. */
  predicate WellFormedPieces(ps: seq<Piece>) {
    forall i :: 0 <= i < |ps| ==>
      if ps[i].Literal? then NoChar(ps[i].text, '{')
      else NoChar(ps[i].content, '}') && NoChar(ps[i].content, '\n')
  }

  /** The template the pieces spell. */
  function Render(ps: seq<Piece>): string
    decreases |ps|
  {
    if ps == [] then []
    else match ps[0]
      case Literal(t) => t + Render(ps[1..])
      case Placeholder(c) => "{" + c + "}" + Render(ps[1..])
  }

  /** The number of placeholders among the pieces. */
  function PlaceholderCount(ps: seq<Piece>): nat
    decreases |ps|
  {
    if ps == [] then 0
    else (if ps[0].Placeholder? then 1 else 0) + PlaceholderCount(ps[1..])
  }

  /** The placeholders' contents with `?` trimmed, left to right: one per
      placeholder. */
  function PlaceholderNames(ps: seq<Piece>): (names: seq<string>)
    ensures |names| == PlaceholderCount(ps)
    decreases |ps|
  {
    if ps == [] then []
    else if ps[0].Placeholder? then [Trim(ps[0].content, {'?'})] + PlaceholderNames(ps[1..])
    else PlaceholderNames(ps[1..])
  }

  /** The scanner finds exactly the placeholders of a well-formed template:
      their trimmed contents, in order, duplicates kept, one per placeholder. */
  lemma {:induction false} ParamNamesOfPieces(ps: seq<Piece>)
    requires WellFormedPieces(ps)
    ensures ParamNames(Render(ps)) == PlaceholderNames(ps)
    ensures |ParamNames(Render(ps))| == PlaceholderCount(ps)
    decreases |ps|
  {
    if ps != [] {
      assert WellFormedPieces(ps[1..]) by {
        forall i | 0 <= i < |ps[1..]| ensures ps[1..][i] == ps[i + 1] { }
      }
      ParamNamesOfPieces(ps[1..]);
      match ps[0]
      case Literal(t) =>
        ParamNamesBraceFree(t, Render(ps[1..]));
      case Placeholder(c) =>
        ParamNamesToken(c, Render(ps[1..]));
    }
  }

  /** Whichever way a template is cut into well-formed pieces, its names are
      those pieces' placeholder names. */
  lemma ParamNamesOfAnyPieces(s: string)
    ensures forall ps :: WellFormedPieces(ps) && Render(ps) == s ==> ParamNames(s) == PlaceholderNames(ps)
  {
    forall ps | WellFormedPieces(ps) && Render(ps) == s
      ensures ParamNames(s) == PlaceholderNames(ps)
    {
      ParamNamesOfPieces(ps);
    }
  }

  /** A placeholder content of the form `name?` with a non-empty word
      `name`: what the optional pattern recognises between the braces. */
  predicate OptionalContent(c: string) {
    |c| >= 2 && c[|c| - 1] == '?' && AllWord(c[..|c| - 1])
  }

  /** No placeholder's content holds a `{`. */
  predicate BraceFreePlaceholders(ps: seq<Piece>) {
    forall i :: 0 <= i < |ps| ==> ps[i].Placeholder? ==> NoChar(ps[i].content, '{')
  }

  /** The piece as the rewrite leaves it: an optional placeholder `{name?}`
      becomes `{name}`, and every other piece stays as it is. */
  function Unmarked(p: Piece): Piece {
    if p.Placeholder? && OptionalContent(p.content) then Placeholder(p.content[..|p.content| - 1])
    else p
  }

  /** The pieces after the rewrite, one for one. */
  function RewrittenPieces(ps: seq<Piece>): (qs: seq<Piece>)
    ensures |qs| == |ps| && forall i :: 0 <= i < |ps| ==> qs[i] == Unmarked(ps[i])
    decreases |ps|
  {
    if ps == [] then []
    else [Unmarked(ps[0])] + RewrittenPieces(ps[1..])
  }

  /** The optional name a piece carries: `name` for `{name?}`, none for any
      other piece. */
  function OptionalPieceName(p: Piece): (names: seq<string>)
    ensures |names| <= (if p.Placeholder? then 1 else 0)
  {
    if p.Placeholder? && OptionalContent(p.content) then [p.content[..|p.content| - 1]] else []
  }

  /** The names of the optional placeholders among the pieces, left to right
      and with repetitions. */
  function OptionalPieceNames(ps: seq<Piece>): (names: seq<string>)
    ensures |names| <= PlaceholderCount(ps)
    decreases |ps|
  {
    if ps == [] then [] else OptionalPieceName(ps[0]) + OptionalPieceNames(ps[1..])
  }

  lemma TailPieces(ps: seq<Piece>)
    requires ps != [] && WellFormedPieces(ps) && BraceFreePlaceholders(ps)
    ensures WellFormedPieces(ps[1..]) && BraceFreePlaceholders(ps[1..])
  {
    forall i | 0 <= i < |ps[1..]| ensures ps[1..][i] == ps[i + 1] { }
  }

  /** The rewrite of a well-formed template without nested braces, piece by
      piece: every optional placeholder `{name?}` becomes `{name}`, and every
      other character is left where it was. */
  lemma {:induction false} RewriteOfPieces(ps: seq<Piece>)
    requires WellFormedPieces(ps) && BraceFreePlaceholders(ps)
    ensures Rewrite(Render(ps)) == Render(RewrittenPieces(ps))
    decreases |ps|
  {
    if ps != [] {
      TailPieces(ps);
      RewriteOfPieces(ps[1..]);
      assert Render(ps) == Render([ps[0]]) + Render(ps[1..]) by {
        assert ps == [ps[0]] + ps[1..];
        RenderCons(ps[0], ps[1..]);
      }
      assert Render(RewrittenPieces(ps)) == Render([Unmarked(ps[0])]) + Render(RewrittenPieces(ps[1..])) by {
        RenderCons(Unmarked(ps[0]), RewrittenPieces(ps[1..]));
      }
      PieceRewritten(ps[0], Render(ps[1..]));
    }
  }

  /** The names of the optional placeholders of such a template, in order:
      exactly those of its `{name?}` pieces. */
  lemma {:induction false} OptionalNamesOfPieces(ps: seq<Piece>)
    requires WellFormedPieces(ps) && BraceFreePlaceholders(ps)
    ensures OptionalNames(Render(ps)) == OptionalPieceNames(ps)
    decreases |ps|
  {
    if ps != [] {
      TailPieces(ps);
      OptionalNamesOfPieces(ps[1..]);
      assert Render(ps) == Render([ps[0]]) + Render(ps[1..]) by {
        assert ps == [ps[0]] + ps[1..];
        RenderCons(ps[0], ps[1..]);
      }
      PieceNamed(ps[0], Render(ps[1..]));
    }
  }

  lemma RenderCons(p: Piece, qs: seq<Piece>)
    ensures Render([p] + qs) == Render([p]) + Render(qs)
  {
    assert ([p] + qs)[1..] == qs && [p][1..] == [];
  }

  /** What the rewrite does to one piece in front of any text. */
  lemma PieceRewritten(p: Piece, y: string)
    requires WellFormedPieces([p]) && BraceFreePlaceholders([p])
    ensures Rewrite(Render([p]) + y) == Render([Unmarked(p)]) + Rewrite(y)
  {
    assert [p][0] == p && [p][1..] == [];
    match p
    case Literal(t) =>
      assert Render([p]) == t;
      RewriteBraceFree(t, y);
    case Placeholder(c) =>
      assert NoChar(c, '}') && NoChar(c, '{');
      assert Render([p]) == "{" + c + "}";
      if OptionalContent(c) {
        var n := c[..|c| - 1];
        assert Render([Unmarked(p)]) == "{" + n + "}";
        assert "{" + c + "}" + y == "{" + n + "?}" + y by {
          assert c == n + "?";
        }
        OptionalTokenRewritten(n, y);
      } else {
        PlainPlaceholderRewritten(c, y);
      }
  }

  /** The optional name one piece contributes in front of any text. */
  lemma PieceNamed(p: Piece, y: string)
    requires WellFormedPieces([p]) && BraceFreePlaceholders([p])
    ensures OptionalNames(Render([p]) + y) == OptionalPieceName(p) + OptionalNames(y)
  {
    assert [p][0] == p && [p][1..] == [];
    match p
    case Literal(t) =>
      assert Render([p]) == t && OptionalPieceName(p) == [];
      assert OptionalNames(t + y) == OptionalNames(y) by {
        OptionalNamesBraceFree(t, y);
      }
    case Placeholder(c) =>
      assert Render([p]) == "{" + c + "}";
      assert OptionalNames("{" + c + "}" + y) == OptionalPieceName(p) + OptionalNames(y) by {
        PlaceholderNamed(c, y);
      }
  }

  /** The optional name a placeholder `{c}` contributes: the name when `c`
      is `name?`, and none otherwise. */
  lemma PlaceholderNamed(c: string, y: string)
    requires NoChar(c, '}') && NoChar(c, '{')
    ensures OptionalNames("{" + c + "}" + y) == OptionalPieceName(Placeholder(c)) + OptionalNames(y)
  {
    if OptionalContent(c) {
      var n := c[..|c| - 1];
      assert "{" + c + "}" + y == "{" + n + "?}" + y by {
        assert c == n + "?";
      }
      OptionalTokenNamed(n, y);
    } else {
      PlainPlaceholderNamed(c, y);
    }
  }

  /** A placeholder `{c}` with no `{` in `c` that is not `{name?}` is
      copied by the rewrite. */
  lemma PlainPlaceholderRewritten(c: string, y: string)
    requires NoChar(c, '}') && NoChar(c, '{') && !OptionalContent(c)
    ensures Rewrite("{" + c + "}" + y) == "{" + c + "}" + Rewrite(y)
  {
    var t := "{" + c + "}" + y;
    var z := c + "}";
    assert OptTokenAt(t).None? by {
      OptTokenOfContent(c, y);
    }
    assert t[1..] == z + y && NoChar(z, '{') by {
      ClosedPlaceholder(c, y);
    }
    assert Rewrite(t) == "{" + Rewrite(z + y) by {
      RewriteSkip(t);
    }
    assert Rewrite(z + y) == z + Rewrite(y) by {
      RewriteBraceFree(z, y);
    }
    Regrouped(c, Rewrite(y));
  }

  lemma Regrouped(c: string, r: string)
    ensures "{" + ((c + "}") + r) == "{" + c + "}" + r
  {
  }

  /** A placeholder `{c}` with no `{` in `c` that is not `{name?}` yields no
      optional name. */
  lemma PlainPlaceholderNamed(c: string, y: string)
    requires NoChar(c, '}') && NoChar(c, '{') && !OptionalContent(c)
    ensures OptionalNames("{" + c + "}" + y) == OptionalNames(y)
  {
    var t := "{" + c + "}" + y;
    assert OptTokenAt(t).None? by {
      OptTokenOfContent(c, y);
    }
    assert t[1..] == (c + "}") + y && NoChar(c + "}", '{') by {
      ClosedPlaceholder(c, y);
    }
    OptionalNamesSkip(t);
    OptionalNamesBraceFree(c + "}", y);
  }

  lemma ClosedPlaceholder(c: string, y: string)
    requires NoChar(c, '{')
    ensures ("{" + c + "}" + y)[1..] == (c + "}") + y && NoChar(c + "}", '{')
  {
    assert forall i :: 0 <= i < |c| ==> (c + "}")[i] == c[i];
  }

  /** One step of the rewrite where no optional placeholder starts. */
  lemma RewriteSkip(s: string)
    requires s != [] && OptTokenAt(s).None?
    ensures Rewrite(s) == [s[0]] + Rewrite(s[1..])
  {
    match OptTokenAt(s)
    case None =>
  }

  /** The optional pattern matches at a placeholder `{c}` only when `c` is
      `name?`. */
  lemma OptTokenOfContent(c: string, y: string)
    requires NoChar(c, '}')
    ensures OptTokenAt("{" + c + "}" + y).Some? ==> OptionalContent(c)
  {
    var t := "{" + c + "}" + y;
    if OptTokenAt(t).Some? {
      OptionalMatchContent(c, y, OptTokenAt(t).value);
    }
  }

  /** Where the optional pattern matches at `{c}`, its `?}` is the end of the
      placeholder, so `c` is the name and `?`. */
  lemma OptionalMatchContent(c: string, y: string, m: nat)
    requires NoChar(c, '}') && OptMatch("{" + c + "}" + y, m)
    ensures m + 1 == |c| && OptionalContent(c)
  {
    var t := "{" + c + "}" + y;
    assert t[|c| + 1] == '}';
    assert c[..|c| - 1] == t[1..m + 1];
    assert c[|c| - 1] == t[m + 1];
  }

  /** The router's own example: in `foo/{bar}/{baz?}` the required `{bar}`
      stays, the optional `{baz?}` loses its `?`, and `baz` is the one
      optional name. */
  lemma RewriteFooBarBaz()
    ensures Rewrite("foo/{bar}/{baz?}") == "foo/{bar}/{baz}"
    ensures OptionalNames("foo/{bar}/{baz?}") == ["baz"]
  {
    var ps := [Literal("foo/"), Placeholder("bar"), Literal("/"), Placeholder("baz?")];
    var qs := [Literal("foo/"), Placeholder("bar"), Literal("/"), Placeholder("baz")];
    assert Render(ps) == "foo/{bar}/{baz?}" && Render(qs) == "foo/{bar}/{baz}" by {
      FooBarBazRendered();
    }
    assert RewrittenPieces(ps) == qs && OptionalPieceNames(ps) == ["baz"] by {
      FooBarBazPieces();
    }
    assert WellFormedPieces(ps) && BraceFreePlaceholders(ps) by {
      FooBarBazWellFormed();
    }
    RewriteOfPieces(ps);
    OptionalNamesOfPieces(ps);
  }

  lemma FooBarBazWellFormed()
    ensures var ps := [Literal("foo/"), Placeholder("bar"), Literal("/"), Placeholder("baz?")];
      WellFormedPieces(ps) && BraceFreePlaceholders(ps)
  {
    var ps := [Literal("foo/"), Placeholder("bar"), Literal("/"), Placeholder("baz?")];
    assert NoChar("foo/", '{') && NoChar("/", '{');
    assert NoChar("bar", '}') && NoChar("bar", '\n') && NoChar("bar", '{');
    assert NoChar("baz?", '}') && NoChar("baz?", '\n') && NoChar("baz?", '{');
    forall i | 0 <= i < |ps| ensures ps[i] in {ps[0], ps[1], ps[2], ps[3]} { }
  }

  lemma FooBarBazRendered()
    ensures Render([Literal("foo/"), Placeholder("bar"), Literal("/"), Placeholder("baz?")]) == "foo/{bar}/{baz?}"
    ensures Render([Literal("foo/"), Placeholder("bar"), Literal("/"), Placeholder("baz")]) == "foo/{bar}/{baz}"
  {
    FooBarRendered(Placeholder("baz?"));
    FooBarRendered(Placeholder("baz"));
  }

  lemma FooBarRendered(p: Piece)
    ensures Render([Literal("foo/"), Placeholder("bar"), Literal("/"), p]) == "foo/{bar}/" + Render([p])
  {
    var ps := [Literal("foo/"), Placeholder("bar"), Literal("/"), p];
    RenderCons(ps[0], ps[1..]);
    RenderCons(ps[1], ps[2..]);
    RenderCons(ps[2], ps[3..]);
    assert ps[1..] == [ps[1]] + ps[2..] && ps[2..] == [ps[2]] + ps[3..] && ps[3..] == [p];
  }

  lemma FooBarBazPieces()
    ensures var ps := [Literal("foo/"), Placeholder("bar"), Literal("/"), Placeholder("baz?")];
      && RewrittenPieces(ps) == [Literal("foo/"), Placeholder("bar"), Literal("/"), Placeholder("baz")]
      && OptionalPieceNames(ps) == ["baz"]
  {
    var ps := [Literal("foo/"), Placeholder("bar"), Literal("/"), Placeholder("baz?")];
    assert OptionalContent("baz?") && "baz?"[..3] == "baz" && !OptionalContent("bar");
    assert Unmarked(ps[3]) == Placeholder("baz");
    assert ps[1..][1..][1..][1..] == [];
  }

  /** No placeholder's content holds a `{`: the template has no nested braces. */
  predicate NoNestedBraces(s: string)
    decreases |s|
  {
    s == [] ||
    match ParamTokenAt(s)
    case Some(k) => NoChar(s[1..k + 1], '{') && NoNestedBraces(s[k + 2..])
    case None => NoNestedBraces(s[1..])
  }

  /** Where an optional placeholder `{name?}` starts, the general pattern
      matches the same text, with content `name?`. */
  lemma OptTokenIsParamToken(s: string, n: nat)
    requires OptMatch(s, n)
    ensures ParamTokenAt(s) == Some(n + 1)
  {
    forall j | 1 <= j <= n + 1 ensures s[j] != '}' && s[j] != '\n' {
      if j <= n {
        assert s[1..n + 1][j - 1] == s[j];
      }
    }
    assert s[1..n + 2] == s[1..n + 1] + ['?'];
    assert ParamMatch(s, n + 1);
  }

  /** Where an optional placeholder starts, both scanners consume it and
      report the same name. */
  lemma OptionalStep(s: string, n: nat)
    requires OptMatch(s, n)
    ensures OptionalNames(s) == [s[1..n + 1]] + OptionalNames(s[n + 3..])
    ensures ParamNames(s) == [s[1..n + 1]] + ParamNames(s[n + 3..])
  {
    OptionalStepNames(s, n);
    OptionalStepParams(s, n);
  }

  lemma OptionalStepNames(s: string, n: nat)
    requires OptMatch(s, n)
    ensures OptionalNames(s) == [s[1..n + 1]] + OptionalNames(s[n + 3..])
  {
    assert s != [];
    OptMatchUnique(s);
    OptionalNamesAt(s, n);
  }

  lemma OptionalStepParams(s: string, n: nat)
    requires OptMatch(s, n)
    ensures ParamNames(s) == [s[1..n + 1]] + ParamNames(s[n + 3..])
  {
    assert s != [];
    OptTokenIsParamToken(s, n);
    ParamNamesAt(s, n + 1);
    OptionalContentTrimmed(s, n);
  }

  /** The content `name?` of an optional placeholder trims to its name. */
  lemma OptionalContentTrimmed(s: string, n: nat)
    requires OptMatch(s, n)
    ensures Trim(s[1..n + 2], {'?'}) == s[1..n + 1]
  {
    var name := s[1..n + 1];
    assert s[1..n + 2] == name + "?";
    TrimOptionalName(name);
  }

  /** An optional placeholder's content, `name?`, trims to `name`. */
  lemma TrimOptionalName(name: string)
    requires |name| >= 1 && AllWord(name)
    ensures Trim(name + "?", {'?'}) == name
  {
    var s := name + "?";
    assert s[0] == name[0] && IsWord(name[0]);
    assert TrimLeft(s, {'?'}) == s;
    assert s[|s| - 1] == '?' && s[..|s| - 1] == name;
    assert TrimRight(s, {'?'}) == TrimRight(name, {'?'});
    assert IsWord(name[|name| - 1]);
    assert TrimRight(name, {'?'}) == name;
  }

  /** Where a placeholder without `{` in it starts but no optional one does,
      the optional scanner finds nothing up to the end of that placeholder. */
  lemma PlainStep(s: string, k: nat)
    requires OptTokenAt(s).None? && ParamTokenAt(s) == Some(k) && NoNestedBraces(s)
    ensures OptionalNames(s) == OptionalNames(s[k + 2..])
    ensures NoNestedBraces(s[k + 2..])
  {
    assert ParamMatch(s, k);
    NoNestedAt(s, k);
    SkipPlainPlaceholder(s, k);
  }

  /** Unfolding `NoNestedBraces` where a placeholder starts. */
  lemma NoNestedAt(s: string, k: nat)
    requires s != [] && ParamTokenAt(s) == Some(k) && NoNestedBraces(s)
    ensures NoChar(s[1..k + 1], '{') && NoNestedBraces(s[k + 2..])
  {
    match ParamTokenAt(s)
    case Some(n) =>
      assert n == k;
  }

  /** Unfolding `NoNestedBraces` where no placeholder starts. */
  lemma NoNestedSkip(s: string)
    requires s != [] && ParamTokenAt(s).None? && NoNestedBraces(s)
    ensures NoNestedBraces(s[1..])
  {
    match ParamTokenAt(s)
    case None =>
  }

  /** The optional scanner passes over a leading `{...}` without `{` inside
      when no optional placeholder starts there. */
  lemma SkipPlainPlaceholder(s: string, k: nat)
    requires OptTokenAt(s).None? && k + 2 <= |s| && s[k + 1] == '}' && NoChar(s[1..k + 1], '{')
    ensures OptionalNames(s) == OptionalNames(s[k + 2..])
  {
    var content := s[1..k + 1] + "}";
    assert s[1..] == content + s[k + 2..] && NoChar(content, '{') by {
      ClosedContent(s, k);
    }
    OptionalNamesSkip(s);
    OptionalNamesBraceFree(content, s[k + 2..]);
  }

  /** A placeholder's content without `{`, and its closing brace, followed
      by the rest of the template. */
  lemma ClosedContent(s: string, k: nat)
    requires k + 2 <= |s| && s[k + 1] == '}' && NoChar(s[1..k + 1], '{')
    ensures NoChar(s[1..k + 1] + "}", '{')
    ensures s[1..] == (s[1..k + 1] + "}") + s[k + 2..]
  {
    var content := s[1..k + 1] + "}";
    forall i | 0 <= i < |content| ensures content[i] != '{' {
      if i < k {
        assert content[i] == s[1..k + 1][i];
      }
    }
    assert s[k + 1..] == "}" + s[k + 2..];
    assert s[1..] == s[1..k + 1] + s[k + 1..];
  }

  /** In a template without nested braces every optional name is also a
      parameter name. */
  lemma {:induction false} OptionalNamesAreParameters(s: string)
    requires NoNestedBraces(s)
    ensures forall i :: 0 <= i < |OptionalNames(s)| ==> OptionalNames(s)[i] in ParamNames(s)
    decreases |s|
  {
    if s != [] {
      match ParamTokenAt(s)
      case Some(k) =>
        assert NoNestedBraces(s[k + 2..]) by {
          NoNestedAt(s, k);
        }
        OptionalNamesAreParameters(s[k + 2..]);
        PlaceholderListed(s, k);
      case None =>
        OptTokenNeedsParamToken(s);
        OptionalNamesSkip(s);
        ParamNamesSkip(s);
        NoNestedSkip(s);
        OptionalNamesAreParameters(s[1..]);
    }
  }

  /** Where a placeholder starts, the names of the rest carry over. */
  lemma PlaceholderListed(s: string, k: nat)
    requires s != [] && ParamTokenAt(s) == Some(k) && NoNestedBraces(s)
    requires Listed(OptionalNames(s[k + 2..]), ParamNames(s[k + 2..]))
    ensures Listed(OptionalNames(s), ParamNames(s))
  {
    var rest := s[k + 2..];
    ParamNamesAt(s, k);
    match OptTokenAt(s)
    case Some(n) =>
      assert n + 1 == k && Trim(s[1..k + 1], {'?'}) == s[1..n + 1] by {
        OptTokenIsParamToken(s, n);
        OptionalContentTrimmed(s, n);
      }
      OptionalStepNames(s, n);
      ListedAfterSameHead(s[1..n + 1], OptionalNames(rest), ParamNames(rest));
    case None =>
      NoNestedAt(s, k);
      SkipPlainPlaceholder(s, k);
      ListedAfterOtherHead(Trim(s[1..k + 1], {'?'}), OptionalNames(rest), ParamNames(rest));
  }

  /** Where no placeholder starts, no optional placeholder starts either. */
  lemma OptTokenNeedsParamToken(s: string)
    requires ParamTokenAt(s).None?
    ensures OptTokenAt(s).None?
  {
    match OptTokenAt(s)
    case None =>
    case Some(n) =>
      OptTokenIsParamToken(s, n);
      assert false;
  }

  /** Every element of `xs` is in `ys`. */
  predicate Listed(xs: seq<string>, ys: seq<string>) {
    forall i :: 0 <= i < |xs| ==> xs[i] in ys
  }

  lemma ListedAfterSameHead(x: string, xs: seq<string>, ys: seq<string>)
    requires Listed(xs, ys)
    ensures Listed([x] + xs, [x] + ys)
  {
    forall i | 0 <= i < |[x] + xs| ensures ([x] + xs)[i] in [x] + ys {
      if i > 0 {
        assert ([x] + xs)[i] == xs[i - 1];
      }
    }
  }

  lemma ListedAfterOtherHead(y: string, xs: seq<string>, ys: seq<string>)
    requires Listed(xs, ys)
    ensures Listed(xs, [y] + ys)
  {
  }

  // ---------------------------------------------------------------------
  // Optional defaults: array_fill_keys($matches[1], null)

  /** `array_fill_keys($names, null)`: one key per distinct name, each mapped
      to null. */
  function FillKeysNull(names: seq<string>): (m: OMap<Value>)
    ensures m.Valid()
    ensures forall k :: k in m.vals <==> k in names
    ensures forall k :: k in m.vals ==> m.vals[k] == Null
    decreases |names|
  {
    if names == [] then EmptyOMap()
    else FillKeysNull(names[..|names| - 1]).Put(names[|names| - 1], Null)
  }

  lemma {:induction false} IndexOfPrefix(p: seq<string>, q: seq<string>, x: string)
    requires x in p
    ensures IndexOf(p + q, x) == IndexOf(p, x)
  {
    if p[0] != x {
      assert (p + q)[1..] == p[1..] + q;
      IndexOfPrefix(p[1..], q, x);
    }
  }

  /** Every key of `ks` is one of `names`, and the keys come in the order
      in which they first appear in `names`. */
  predicate FirstOccurrenceOrder(names: seq<string>, ks: seq<string>) {
    && (forall k :: k in ks ==> k in names)
    && forall i, j :: 0 <= i < j < |ks| ==> IndexOf(names, ks[i]) < IndexOf(names, ks[j])
  }

  /** The keys keep the order in which the names first appear. */
  lemma {:induction false} FillKeysOrder(names: seq<string>)
    ensures FirstOccurrenceOrder(names, FillKeysNull(names).keys)
    decreases |names|
  {
    if names != [] {
      var init := names[..|names| - 1];
      var last := names[|names| - 1];
      assert names == init + [last];
      FillKeysOrder(init);
      KeysOfPrefix(init, last);
      OrderExtends(init, last, FillKeysNull(init).keys);
    }
  }

  /** Adding a name keeps the order of the earlier keys, and a new name goes
      after all of them. */
  lemma OrderExtends(init: seq<string>, last: string, ks: seq<string>)
    requires FirstOccurrenceOrder(init, ks)
    requires forall i :: 0 <= i < |ks| ==> IndexOf(init + [last], ks[i]) == IndexOf(init, ks[i]) < |init|
    ensures FirstOccurrenceOrder(init + [last], ks)
    ensures last !in init ==> FirstOccurrenceOrder(init + [last], ks + [last])
  {
    OrderKept(init, last, ks);
    if last !in init {
      IndexOfLast(init, last);
      OrderAppended(init + [last], ks, last);
    }
  }

  lemma OrderKept(init: seq<string>, last: string, ks: seq<string>)
    requires FirstOccurrenceOrder(init, ks)
    requires forall i :: 0 <= i < |ks| ==> IndexOf(init + [last], ks[i]) == IndexOf(init, ks[i])
    ensures FirstOccurrenceOrder(init + [last], ks)
  {
    assert forall k :: k in ks ==> k in init + [last];
  }

  lemma OrderAppended(names: seq<string>, ks: seq<string>, last: string)
    requires FirstOccurrenceOrder(names, ks) && last in names
    requires forall i :: 0 <= i < |ks| ==> IndexOf(names, ks[i]) < IndexOf(names, last)
    ensures FirstOccurrenceOrder(names, ks + [last])
  {
    var ks' := ks + [last];
    forall i, j | 0 <= i < j < |ks'|
      ensures IndexOf(names, ks'[i]) < IndexOf(names, ks'[j])
    {
      assert ks'[i] == ks[i];
      if j < |ks| {
        assert ks'[j] == ks[j];
      }
    }
  }

  /** The first occurrences of earlier keys do not move when a name is added. */
  lemma KeysOfPrefix(init: seq<string>, last: string)
    ensures var ks := FillKeysNull(init).keys;
      forall i :: 0 <= i < |ks| ==> IndexOf(init + [last], ks[i]) == IndexOf(init, ks[i]) < |init|
  {
    var m0 := FillKeysNull(init);
    forall i | 0 <= i < |m0.keys|
      ensures IndexOf(init + [last], m0.keys[i]) == IndexOf(init, m0.keys[i]) < |init|
    {
      assert m0.keys[i] in m0.vals;
      IndexOfPrefix(init, [last], m0.keys[i]);
    }
  }

  lemma {:induction false} IndexOfLast(init: seq<string>, last: string)
    requires last !in init
    ensures IndexOf(init + [last], last) == |init|
  {
    if init != [] {
      assert (init + [last])[1..] == init[1..] + [last];
      IndexOfLast(init[1..], last);
    }
  }
}
