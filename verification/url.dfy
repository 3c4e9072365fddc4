/** The URL normaliser `parse` (main.go:110-126). Go's `url.Parse` is a library
    call; the model takes what it returns: nothing when it reports an error,
    otherwise the scheme, the host (with its port) and the path. */
module Url {
  import opened Options
  import opened Strings
  import opened Nagios

  datatype ParsedUrl = ParsedUrl(scheme: string, host: string, path: string)

  const ParseError := Outcome(UNKNOWN, "Cannot parse given URL.")
  const SchemeError := Outcome(UNKNOWN, "Only HTTP is supported as protocol.")

  function PortError(scheme: string): Outcome {
    Outcome(UNKNOWN, "Port number is missing. Please try " + scheme + "://hostname:port")
  }

  /** The scheme test is a literal prefix match on `HTTP` or `http`, not a case-insensitive one. */
  predicate IsHttpScheme(scheme: string) {
    HasPrefix(scheme, "HTTP") || HasPrefix(scheme, "http")
  }

  /** `parse`: the base URL the queries are built on, or the UNKNOWN exit. */
  function Normalise(u: Option<ParsedUrl>): (r: Step<string>)
    ensures u.None? ==> r == Exit(ParseError)
    ensures u.Some? && ':' !in u.value.host ==> r == Exit(PortError(u.value.scheme))
    ensures u.Some? && ':' in u.value.host && !IsHttpScheme(u.value.scheme) ==> r == Exit(SchemeError)
    ensures r.Continue? <==> u.Some? && ':' in u.value.host && IsHttpScheme(u.value.scheme)
    ensures r.Exit? ==> r.outcome.status == UNKNOWN
  {
    match u
    case None => Exit(ParseError)
    case Some(l) =>
      if ':' !in l.host then Exit(PortError(l.scheme))
      else if !IsHttpScheme(l.scheme) then Exit(SchemeError)
      else Continue(l.scheme + "://" + l.host + l.path)
  }

  /** Splits a base URL at its first `:` (after the scheme) and the first `/` after `://`. */
  function SplitBase(s: string): Option<ParsedUrl> {
    var i := FirstIndexOf(s, ':');
    if i + 3 > |s| || s[i..i + 3] != "://" then None
    else
      var rest := s[i + 3..];
      var j := FirstIndexOf(rest, '/');
      Some(ParsedUrl(s[..i], rest[..j], rest[j..]))
  }

  /** What `url.Parse` hands back: a scheme without `:`, a host without `/`, a path that is empty or absolute. */
  predicate WellFormedParts(l: ParsedUrl) {
    ':' !in l.scheme && '/' !in l.host && (l.path == "" || l.path[0] == '/')
  }

  /** `url.Parse` returns the scheme in lower case. */
  predicate LowerCaseScheme(l: ParsedUrl) {
    forall i | 0 <= i < |l.scheme| :: !('A' <= l.scheme[i] <= 'Z')
  }

  /** On a lower-case scheme the `HTTP` half of the test never matches: a URL with a
      port is accepted iff its scheme starts with `http`. */
  lemma LowerCaseSchemeTest(l: ParsedUrl)
    requires LowerCaseScheme(l)
    requires ':' in l.host
    ensures !HasPrefix(l.scheme, "HTTP")
    ensures Normalise(Some(l)).Continue? <==> HasPrefix(l.scheme, "http")
  {
    if |l.scheme| >= 4 {
      assert l.scheme[..4][0] == l.scheme[0] && "HTTP"[0] == 'H';
    }
  }

  /** The normalised URL keeps exactly the scheme, host and path and nothing else: they read back unchanged. */
  lemma NormaliseRoundTrip(l: ParsedUrl)
    requires WellFormedParts(l)
    requires Normalise(Some(l)).Continue?
    ensures SplitBase(Normalise(Some(l)).value) == Some(l)
  {
    var s := l.scheme + "://" + l.host + l.path;
    AppendAssoc(l.scheme, "://", l.host);
    AppendAssoc(l.scheme, "://" + l.host, l.path);
    AppendAssoc("://", l.host, l.path);
    assert s == l.scheme + ("://" + (l.host + l.path));
    FirstIndexOfAt(l.scheme, "://" + l.host + l.path, ':');
    var i := |l.scheme|;
    assert s[i..i + 3] == "://";
    var rest := s[i + 3..];
    assert rest == l.host + l.path;
    FirstIndexOfAt(l.host, l.path, '/');
    assert rest[..|l.host|] == l.host;
    assert rest[|l.host|..] == l.path;
  }

  /** The port test comes first: a host without a port is reported even when the scheme is not HTTP. */
  lemma PortCheckedBeforeScheme(scheme: string, host: string, path: string)
    requires ':' !in host && !IsHttpScheme(scheme)
    ensures Normalise(Some(ParsedUrl(scheme, host, path))) == Exit(PortError(scheme))
  {
  }

  /** `HTTPS` and `httpx` pass the scheme test, `Http` does not. */
  lemma SchemePrefixExamples()
    ensures Normalise(Some(ParsedUrl("HTTPS", "h:1", ""))) == Continue("HTTPS://h:1")
    ensures Normalise(Some(ParsedUrl("httpx", "h:1", "/api"))) == Continue("httpx://h:1/api")
    ensures Normalise(Some(ParsedUrl("Http", "h:1", ""))) == Exit(SchemeError)
  {
    assert ':' in "h:1" by { assert "h:1"[1] == ':'; }
    assert HasPrefix("HTTPS", "HTTP") by { assert "HTTPS"[..4] == "HTTP"; }
    assert HasPrefix("httpx", "http") by { assert "httpx"[..4] == "http"; }
    assert !HasPrefix("Http", "HTTP") by { assert "Http"[..4][1] != "HTTP"[1]; }
    assert !HasPrefix("Http", "http") by { assert "Http"[..4][0] != "http"[0]; }
    assert "HTTPS" + "://" + "h:1" + "" == "HTTPS://h:1";
    assert "httpx" + "://" + "h:1" + "/api" == "httpx://h:1/api";
  }
}
