/** Recovering the user name from the `auth-session` cookie of the web front
    end (getUsername in web/handlers.go) and the cookie value the login
    handler stores (web/handlers.go, line 102). The test-mode switch and the
    cookie, when the request carries one, are parameters. */
module WebAuth {
  import opened Dynamic

  /** The text of net/http's ErrNoCookie. */
  const NO_COOKIE_ERROR := "http: named cookie not present"
  const NO_USERNAME_ERROR := "Unable to get username from auth-session"
  const TEST_USER := "test"

  /** strings.LastIndex for a one-character separator: the last position of `c`, or -1. */
  function LastIndex(s: string, c: char): (r: int)
    decreases |s|
    ensures -1 <= r < |s|
    ensures r == -1 <==> c !in s
    ensures r >= 0 ==> s[r] == c && forall j :: r < j < |s| ==> s[j] != c
  {
    if s == [] then -1
    else if s[|s| - 1] == c then |s| - 1
    else
      assert s == s[..|s| - 1] + [s[|s| - 1]];
      LastIndex(s[..|s| - 1], c)
  }

  /** `fmt.Sprintf("%s-%v", userName, authenticated)`. */
  function CookieValue(userName: string, authenticated: bool): (v: string)
    ensures |v| > |userName| && v[..|userName|] == userName && v[|userName|] == '-'
  {
    userName + "-" + (if authenticated then "true" else "false")
  }

  /** getUsername for a request carrying `cookie` (its value when present). */
  function GetUsername(testMode: bool, cookie: Option<string>): (r: Result<string>)
    ensures testMode ==> r == Success(TEST_USER)
    ensures !testMode && cookie.None? ==> r == Failure(NO_COOKIE_ERROR)
    ensures !testMode && cookie.Some? ==> (r.Failure? <==> '-' !in cookie.value)
    ensures !testMode && cookie.Some? && r.Failure? ==> r.error == NO_USERNAME_ERROR
    ensures !testMode && cookie.Some? && r.Success? ==>
              var s, n := cookie.value, |r.value|;
              && n < |s| && s[..n] == r.value && s[n] == '-'
              && '-' !in s[n + 1..]
  {
    if testMode then Success(TEST_USER)
    else match cookie
      case None => Failure(NO_COOKIE_ERROR)
      case Some(s) =>
        var i := LastIndex(s, '-');
        if i == -1 then Failure(NO_USERNAME_ERROR)
        else
          var tail := s[i + 1..];
          assert forall j :: 0 <= j < |tail| ==> tail[j] == s[i + 1 + j];
          Success(s[..i])
  }

  /** The user name, even one holding a `-`, comes back out of the cookie
      value the login handler builds, for either authentication flag. */
  lemma {:induction false} UsernameRoundTrip(userName: string, authenticated: bool)
    ensures GetUsername(false, Some(CookieValue(userName, authenticated))) == Success(userName)
  {
    var v := CookieValue(userName, authenticated);
    var flag := if authenticated then "true" else "false";
    assert v == userName + "-" + flag;
    assert forall j :: |userName| < j < |v| ==> v[j] == flag[j - |userName| - 1];
    assert '-' !in flag;
    var i := LastIndex(v, '-');
    assert i == |userName|;
  }

  /** Splitting a value at its last `-` and joining the pieces again gives it back. */
  lemma CookieValueParts(s: string)
    requires '-' in s
    ensures GetUsername(false, Some(s)).Success?
    ensures var u := GetUsername(false, Some(s)).value;
            s == u + "-" + s[|u| + 1..]
  {
    var u := GetUsername(false, Some(s)).value;
    assert s == s[..|u|] + [s[|u|]] + s[|u| + 1..];
  }
}
