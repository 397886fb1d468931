/** URL path joining of the web front end (getPath in web/server.go), with the
    configured base path as a parameter. */
module WebServer {

  predicate HasPrefix(s: string, p: string) {
    p <= s
  }

  /** The path with exactly one `/` put in front when it has none. */
  function WithLeadingSlash(p: string): (r: string)
    ensures HasPrefix(r, "/")
    ensures HasPrefix(p, "/") ==> r == p
    ensures !HasPrefix(p, "/") ==> r == "/" + p
  {
    if HasPrefix(p, "/") then p else "/" + p
  }

  /** getPath as written: when `api` has no leading `/` it is replaced by
      "/" + base, so the endpoint name is lost. */
  function GetPath(base: string, api: string): (r: string)
    ensures base == "" ==> r == api
    ensures base != "" ==> HasPrefix(r, "/") && HasPrefix(r, WithLeadingSlash(base))
  {
    if base == "" then api
    else
      var b := WithLeadingSlash(base);
      var a := if HasPrefix(api, "/") then api else "/" + b;
      b + a
  }

  /** With a base, an endpoint with a leading `/` is appended to the normalised base. */
  lemma GetPathSlashApi(base: string, api: string)
    requires base != "" && HasPrefix(api, "/")
    ensures GetPath(base, api) == WithLeadingSlash(base) + api
  {
  }

  /** With a base, an endpoint without a leading `/` is discarded: the result
      is the normalised base, a `/`, and the normalised base again. */
  lemma GetPathDropsApi(base: string, api: string)
    requires base != "" && !HasPrefix(api, "/")
    ensures GetPath(base, api) == WithLeadingSlash(base) + "/" + WithLeadingSlash(base)
  {
  }

  /** Hence all endpoints without a leading `/` get one and the same path. */
  lemma GetPathConfusesEndpoints(base: string, api1: string, api2: string)
    requires base != "" && !HasPrefix(api1, "/") && !HasPrefix(api2, "/")
    ensures GetPath(base, api1) == GetPath(base, api2)
  {
    GetPathDropsApi(base, api1);
    GetPathDropsApi(base, api2);
  }

  /** The endpoints "hello" and "world" under the base "app" both become "/app//app". */
  lemma GetPathExample()
    ensures GetPath("app", "hello") == GetPath("app", "world") == "/app//app"
    ensures GetPath("app", "/hello") == "/app/hello"
  {
    assert "app"[0] == 'a' && "hello"[0] == 'h' && "world"[0] == 'w';
    assert HasPrefix("/hello", "/");
  }

  /** getPath as evidently intended: `api` gets the leading `/` itself. */
  function GetPathIntended(base: string, api: string): (r: string)
    ensures base == "" ==> r == api
    ensures base != "" ==> HasPrefix(r, "/") && HasPrefix(r, WithLeadingSlash(base))
  {
    if base == "" then api
    else
      var b := WithLeadingSlash(base);
      var a := if HasPrefix(api, "/") then api else "/" + api;
      b + a
  }

  /** With a base, the intended path is the normalised base followed by the
      endpoint with its leading `/`, so it ends in the endpoint name. */
  lemma GetPathIntendedKeepsApi(base: string, api: string)
    requires base != ""
    ensures GetPathIntended(base, api) == WithLeadingSlash(base) + WithLeadingSlash(api)
    ensures var r := GetPathIntended(base, api); |r| >= |api| && r[|r| - |api|..] == api
  {
    var r := GetPathIntended(base, api);
    assert r[|r| - |api|..] == api;
  }

  /** Endpoints that differ other than by a leading `/` get different intended paths. */
  lemma GetPathIntendedSeparates(base: string, api1: string, api2: string)
    requires base != "" && GetPathIntended(base, api1) == GetPathIntended(base, api2)
    ensures WithLeadingSlash(api1) == WithLeadingSlash(api2)
  {
    GetPathIntendedKeepsApi(base, api1);
    GetPathIntendedKeepsApi(base, api2);
    var b := WithLeadingSlash(base);
    var r := GetPathIntended(base, api1);
    assert WithLeadingSlash(api1) == r[|b|..] == WithLeadingSlash(api2);
  }

  /** The as-written getPath does not separate them: "hello" and "world" collide. */
  lemma GetPathDoesNotSeparate()
    ensures GetPath("app", "hello") == GetPath("app", "world")
    ensures WithLeadingSlash("hello") != WithLeadingSlash("world")
  {
    GetPathExample();
    assert "hello"[0] == 'h' && "world"[0] == 'w';
    assert WithLeadingSlash("hello")[1] == 'h';
  }
}
