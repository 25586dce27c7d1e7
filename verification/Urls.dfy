/**
 The part of the WHATWG URL parser that object locators meet: `http` and `https` addresses with a
 plain host name, an optional port, and a path of characters that need no encoding.
*/
module Urls {
  import opened Wrappers
  import opened Text
  import opened PercentEncoding

  datatype Url = Url(hostname: string, pathname: string)

  // ---------------------------------------------------------------- segments of a path

  datatype SegmentKind = Ordinary | SingleDot | DoubleDot

  /** An escaped dot is a dot. */
  function Kind(segment: string): SegmentKind {
    if Lower(segment) in [".", "%2e"] then SingleDot
    else if Lower(segment) in ["..", ".%2e", "%2e.", "%2e%2e"] then DoubleDot
    else Ordinary
  }

  /** The path built so far, and the segments still to come. */
  function Walk(path: seq<string>, segments: seq<string>): seq<string>
    decreases |segments|
  {
    if segments == [] then path
    else
      var last := |segments| == 1;
      match Kind(segments[0])
      case Ordinary => Walk(path + [segments[0]], segments[1..])
      case SingleDot => Walk(if last then path + [""] else path, segments[1..])
      case DoubleDot =>
        var up := if path == [] then [] else path[..|path| - 1];
        Walk(if last then up + [""] else up, segments[1..])
  }

  predicate AllOrdinary(segments: seq<string>) {
    forall i | 0 <= i < |segments| :: Kind(segments[i]).Ordinary?
  }

  lemma {:induction false} OrdinaryStays(path: seq<string>, segments: seq<string>)
    requires AllOrdinary(segments)
    ensures Walk(path, segments) == path + segments
    decreases |segments|
  {
    if segments == [] {
      assert path + segments == path;
    } else {
      OrdinaryStays(path + [segments[0]], segments[1..]);
      assert path + [segments[0]] + segments[1..] == path + segments;
    }
  }

  lemma {:induction false} NothingElseIsLeft(path: seq<string>, segments: seq<string>)
    requires AllOrdinary(path)
    ensures AllOrdinary(Walk(path, segments))
    ensures segments != [] || path != [] ==> Walk(path, segments) != []
    decreases |segments|
  {
    if segments != [] {
      assert Kind("").Ordinary?;
      var last, up := |segments| == 1, if path == [] then [] else path[..|path| - 1];
      match Kind(segments[0])
      case Ordinary => NothingElseIsLeft(path + [segments[0]], segments[1..]);
      case SingleDot => NothingElseIsLeft(if last then path + [""] else path, segments[1..]);
      case DoubleDot => NothingElseIsLeft(if last then up + [""] else up, segments[1..]);
    }
  }

  // ---------------------------------------------------------------- parsing

  predicate HostChar(c: char) {
    'a' <= c <= 'z' || 'A' <= c <= 'Z' || IsDigit(c) || c == '.' || c == '-'
  }

  /** Characters that a path keeps as they are. */
  predicate PathChar(c: char) {
    Unreserved(c) || c in "%+/:@&=$,;[]|"
  }

  function Authority(s: string): (a: string)
    ensures a <= s
  {
    if s == "" || s[0] in "/?#" then "" else [s[0]] + Authority(s[1..])
  }

  predicate AllHostChars(s: string) {
    forall i | 0 <= i < |s| :: HostChar(s[i])
  }

  predicate AllPathChars(s: string) {
    forall i | 0 <= i < |s| :: PathChar(s[i])
  }

  /** The path of an address: everything up to the query, with the dots worked out. */
  function Pathname(rest: string): (pathname: Option<string>)
    requires rest == "" || rest[0] in "/?#"
    ensures pathname.Some? ==> StartsWith(pathname.value, "/")
  {
    var path := Before(Before(rest, '#'), '?');
    if !AllPathChars(path) then None
    else if path == "" then Some("/")
    else Some("/" + Join(Walk([], Split(path[1..], '/')), "/"))
  }

  /** A name of lower-case labels with nothing for the parser to work out: no internationalised label,
      and no last label that could make it the number of an IPv4 host. */
  predicate PlainName(host: string) {
    var labels := Split(host, '.');
    && host != "" && AllHostChars(host)
    && (forall i | 0 <= i < |labels| :: !StartsWith(labels[i], "xn--"))
    && (labels[|labels| - 1] == "" || !IsDigit(labels[|labels| - 1][0]))
  }

  /** None for what the model does not cover, and for what the parser refuses. */
  function ParseUrl(s: string): (url: Option<Url>)
    ensures url.Some? ==> StartsWith(url.value.pathname, "/")
  {
    var prefix := if StartsWith(s, "https://") then 8 else if StartsWith(s, "http://") then 7 else 0;
    if prefix == 0 then None
    else
      var authority := Authority(s[prefix..]);
      var host := Before(authority, ':');
      var port := authority[|host|..];
      AuthorityEnds(s[prefix..]);
      match Pathname(s[prefix..][|authority|..])
      case None => None
      case Some(pathname) =>
        if !PlainName(Lower(host)) || (port != "" && !AllDigits(port[1..])) then None
        else Some(Url(Lower(host), pathname))
  }

  lemma {:induction false} AuthorityEnds(s: string)
    ensures var a := Authority(s); |a| < |s| ==> s[|a|] in "/?#"
  {
    if s != "" && s[0] !in "/?#" {
      AuthorityEnds(s[1..]);
    }
  }

  lemma {:induction false} AuthorityOf(host: string, rest: string)
    requires forall i | 0 <= i < |host| :: host[i] !in "/?#"
    requires rest == "" || rest[0] in "/?#"
    ensures Authority(host + rest) == host
  {
    if host == "" {
      assert host + rest == rest;
    } else {
      assert (host + rest)[1..] == host[1..] + rest;
      AuthorityOf(host[1..], rest);
    }
  }

  /** The path after a lone slash, with nothing after it. */
  lemma PathnameOf(path: string)
    requires AllPathChars(path)
    ensures Pathname("/" + path) == Some("/" + Join(Walk([], Split(path, '/')), "/"))
  {
    var rest := "/" + path;
    assert '#' !in rest && '?' !in rest;
    BeforeFirst(rest, '#', "");
    BeforeFirst(rest, '?', "");
    assert rest[1..] == path;
    assert AllPathChars(rest);
  }

  /** An address with a lower-case host and a path. */
  lemma ParseAddress(host: string, path: string)
    requires PlainName(host) && Lower(host) == host && AllPathChars(path)
    ensures ParseUrl("https://" + host + "/" + path) == Some(Url(host, "/" + Join(Walk([], Split(path, '/')), "/")))
  {
    var s, rest := "https://" + host + "/" + path, "/" + path;
    Slices(host, path);
    AuthorityOf(host, rest);
    assert ':' !in host;
    BeforeFirst(host, ':', "");
    PathnameOf(path);
    assert host[|host|..] == "" && s[8..][|host|..] == rest;
  }

  lemma Slices(host: string, path: string)
    ensures var s := "https://" + host + "/" + path; StartsWith(s, "https://") && s[8..] == host + ("/" + path)
  {
    assert "https://" + host + "/" + path == "https://" + (host + ("/" + path));
  }
}
