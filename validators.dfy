/** The route validators: method, host and URI. Each gets the route and the
    request and returns a verdict; none of them changes either. The regular
    expressions Symfony compiles for a route are not modelled: the host and
    path tests are abstract matchers passed in by the caller. */
module Validators {
  import opened Php
  import opened RouteCompiler

  /** What the validators read from a Symfony request. */
  datatype Request = Request(httpMethod: string, host: string, pathInfo: string)

  /** `MethodValidator::validate($route, $request)`: strict string equality. */
  function ValidateMethod(routeMethod: string, req: Request): (ok: bool)
    ensures ok <==> routeMethod == req.httpMethod
  {
    routeMethod == req.httpMethod
  }

  /** `HostValidator::validate($route, $request)`: no host regex accepts any
      host; otherwise the host regex decides. */
  function ValidateHost(compiled: CompiledRoute, req: Request, hostMatches: (string, string) -> bool): (ok: bool)
    ensures HostRegex(compiled).None? ==> ok
    ensures HostRegex(compiled).Some? ==> ok == hostMatches(HostRegex(compiled).value, req.host)
  {
    match HostRegex(compiled)
    case None => true
    case Some(regex) => hostMatches(regex, req.host)
  }

  /** The request path as the URI validator tests it: surrounding `/` cut,
      then one `/` put in front. The test for a trimmed path equal to `/`
      never succeeds, since trimming removes every outer `/`. */
  function NormalisePath(pathInfo: string): (p: string)
    ensures p == "/" + Trim(pathInfo, {'/'})
  {
    var requestPath := Trim(pathInfo, {'/'});
    if requestPath == "/" then "/" else "/" + requestPath
  }

  /** `UriValidator::validate($route, $request)`: the route's path regex
      applied to the normalised, percent-decoded request path. */
  function ValidateUri(compiled: CompiledRoute, req: Request, pathMatches: (CompiledRoute, string) -> bool): (ok: bool)
    ensures ok <==> pathMatches(compiled, RawUrlDecode("/" + Trim(req.pathInfo, {'/'})))
  {
    pathMatches(compiled, RawUrlDecode(NormalisePath(req.pathInfo)))
  }

  /** An empty or all-slash path is the root. */
  lemma NormaliseRoot(pathInfo: string)
    requires forall i :: 0 <= i < |pathInfo| ==> pathInfo[i] == '/'
    ensures NormalisePath(pathInfo) == "/"
  {
    var e: string := [];
    assert pathInfo + e + e == pathInfo;
    TrimSurrounded(e, pathInfo, e, {'/'});
  }

  /** Leading and trailing slashes do not change the normalised path. */
  lemma NormaliseIgnoresSlashes(pathInfo: string, pre: string, post: string)
    requires forall i :: 0 <= i < |pre| ==> pre[i] == '/'
    requires forall i :: 0 <= i < |post| ==> post[i] == '/'
    ensures NormalisePath(pre + pathInfo + post) == NormalisePath(pathInfo)
  {
    TrimSurrounded(pathInfo, pre, post, {'/'});
  }

  /** Normalising twice is normalising once. */
  lemma NormaliseIdempotent(pathInfo: string)
    ensures NormalisePath(NormalisePath(pathInfo)) == NormalisePath(pathInfo)
  {
    var t := Trim(pathInfo, {'/'});
    var e: string := [];
    assert "/" + t == "/" + t + e;
    TrimSurrounded(t, "/", e, {'/'});
    TrimIdempotent(pathInfo, {'/'});
  }

  /** `foo/bar`, `/foo/bar` and `/foo/bar/` get the same verdict. */
  lemma SlashVariantsAgree(compiled: CompiledRoute, httpMethod: string, host: string, pathMatches: (CompiledRoute, string) -> bool)
    ensures ValidateUri(compiled, Request(httpMethod, host, "foo/bar"), pathMatches)
         == ValidateUri(compiled, Request(httpMethod, host, "/foo/bar"), pathMatches)
         == ValidateUri(compiled, Request(httpMethod, host, "/foo/bar/"), pathMatches)
  {
    var e: string := [];
    assert "/foo/bar" == "/" + "foo/bar" + e;
    assert "/foo/bar/" == "/" + "foo/bar" + "/";
    NormaliseIgnoresSlashes("foo/bar", "/", e);
    NormaliseIgnoresSlashes("foo/bar", "/", "/");
  }

  // ---------------------------------------------------------------------
  // Percent-decoding, section 2.1 of RFC 3986

  predicate IsHexDigit(c: char) {
    ('0' <= c <= '9') || ('a' <= c <= 'f') || ('A' <= c <= 'F')
  }

  function HexValue(c: char): (v: nat)
    requires IsHexDigit(c)
    ensures v < 16
  {
    if '0' <= c <= '9' then c as nat - '0' as nat
    else if 'a' <= c <= 'f' then c as nat - 'a' as nat + 10
    else c as nat - 'A' as nat + 10
  }

  /** The upper-case hex digit of a value below 16. */
  function HexDigit(v: nat): (c: char)
    requires v < 16
    ensures IsHexDigit(c) && HexValue(c) == v
  {
    if v < 10 then ('0' as nat + v) as char else ('A' as nat + v - 10) as char
  }

  /** `rawurldecode($s)`: each `%` followed by two hex digits is the byte
      they spell; any other character, `+` and a stray `%` included, is kept. */
  function RawUrlDecode(s: string): (r: string)
    ensures |r| <= |s|
  {
    if s == [] then []
    else if |s| >= 3 && s[0] == '%' && IsHexDigit(s[1]) && IsHexDigit(s[2]) then
      [(16 * HexValue(s[1]) + HexValue(s[2])) as char] + RawUrlDecode(s[3..])
    else [s[0]] + RawUrlDecode(s[1..])
  }

  /** Bytes that `rawurlencode` leaves as they are: the unreserved characters
      of section 2.3 of RFC 3986. */
  predicate IsUnreserved(c: char) {
    ('a' <= c <= 'z') || ('A' <= c <= 'Z') || ('0' <= c <= '9') || c == '-' || c == '.' || c == '_' || c == '~'
  }

  predicate IsBytes(s: string) {
    forall i :: 0 <= i < |s| ==> s[i] as nat < 256
  }

  /** `rawurlencode($s)`, the encoding the decoder undoes: every byte that is
      not unreserved becomes `%` and two upper-case hex digits. */
  function RawUrlEncode(s: string): (r: string)
    requires IsBytes(s)
  {
    if s == [] then []
    else if IsUnreserved(s[0]) then [s[0]] + RawUrlEncode(s[1..])
    else ['%', HexDigit(s[0] as nat / 16), HexDigit(s[0] as nat % 16)] + RawUrlEncode(s[1..])
  }

  /** Decoding undoes encoding for every byte string. */
  lemma {:induction false} DecodeEncode(s: string)
    requires IsBytes(s)
    ensures RawUrlDecode(RawUrlEncode(s)) == s
  {
    if s != [] {
      DecodeEncode(s[1..]);
      var e := RawUrlEncode(s);
      if IsUnreserved(s[0]) {
        assert e[1..] == RawUrlEncode(s[1..]);
      } else {
        var c := s[0] as nat;
        assert e[3..] == RawUrlEncode(s[1..]);
        assert 16 * (c / 16) + c % 16 == c;
      }
      assert [s[0]] + s[1..] == s;
    }
  }

  /** A path without `%` is matched as it is. */
  lemma {:induction false} DecodeWithoutPercent(s: string)
    requires forall i :: 0 <= i < |s| ==> s[i] != '%'
    ensures RawUrlDecode(s) == s
  {
    if s != [] {
      DecodeWithoutPercent(s[1..]);
      assert [s[0]] + s[1..] == s;
    }
  }

  /** The encoding of a byte string has no `/` and is empty only for the
      empty string. */
  lemma {:induction false} EncodeNoSlash(s: string)
    requires IsBytes(s)
    ensures |RawUrlEncode(s)| >= |s|
    ensures forall i :: 0 <= i < |RawUrlEncode(s)| ==> RawUrlEncode(s)[i] != '/'
  {
    if s != [] {
      EncodeNoSlash(s[1..]);
    }
  }

  /** A request for `foo/bar/` followed by the raw-URL-encoded bytes of a
      name (the UTF-8 bytes of `åαф` in the router's tests) reaches the path
      matcher as `/foo/bar/` followed by those bytes. */
  lemma EncodedSegmentDecoded(name: string)
    requires IsBytes(name) && name != []
    ensures RawUrlDecode(NormalisePath("foo/bar/" + RawUrlEncode(name))) == "/foo/bar/" + name
  {
    var e := RawUrlEncode(name);
    EncodeNoSlash(name);
    NormaliseFooBarSegment(e);
    DecodeFooBarSegment(e);
    DecodeEncode(name);
  }

  /** `foo/bar/` followed by a non-empty segment that does not end in `/`
      normalises to `/foo/bar/` and the segment. */
  lemma NormaliseFooBarSegment(e: string)
    requires e != [] && e[|e| - 1] != '/'
    ensures NormalisePath("foo/bar/" + e) == "/foo/bar/" + e
  {
    var p := "foo/bar/" + e;
    assert p[0] == 'f' && p[|p| - 1] == e[|e| - 1];
    TrimUntouched(p, {'/'});
    assert "/" + p == "/foo/bar/" + e;
  }

  /** `/foo/bar/` holds no `%`, so decoding starts on the segment. */
  lemma DecodeFooBarSegment(e: string)
    ensures RawUrlDecode("/foo/bar/" + e) == "/foo/bar/" + RawUrlDecode(e)
  {
    var x := "/foo/bar/";
    assert forall i :: 0 <= i < |x| ==> x[i] != '%';
    DecodeAfterPlain(x, e);
  }

  /** Text without `%` decodes to itself in front of whatever follows. */
  lemma {:induction false} DecodeAfterPlain(x: string, t: string)
    requires forall i :: 0 <= i < |x| ==> x[i] != '%'
    ensures RawUrlDecode(x + t) == x + RawUrlDecode(t)
  {
    if x != [] {
      assert (x + t)[1..] == x[1..] + t;
      DecodeAfterPlain(x[1..], t);
      assert [x[0]] + x[1..] == x;
    } else {
      assert x + t == t;
    }
  }
}
