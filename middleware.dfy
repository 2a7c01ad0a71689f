/**
 * The page guard of src/middleware.ts: a signed-in visitor is sent away from the sign-in
 * and registration pages to /home, a signed-out visitor is sent from every other page to
 * /login, and everything else passes.
 */
module Middleware {
  import opened Wrappers
  import opened Text

  /** The values of the two session cookies, when set. */
  datatype Cookies = Cookies(sessionToken: Option<string>, secureSessionToken: Option<string>)

  datatype Action = Pass | Redirect(path: string)

  /** `get("authjs.session-token")?.value || get("__Secure-authjs.session-token")?.value`. */
  function Token(cookies: Cookies): (t: Option<string>)
    ensures Truthy(t) <==> Truthy(cookies.sessionToken) || Truthy(cookies.secureSessionToken)
  {
    if Truthy(cookies.sessionToken) then cookies.sessionToken else cookies.secureSessionToken
  }

  predicate LoggedIn(cookies: Cookies) {
    Truthy(Token(cookies))
  }

  /** A path beginning with "/login" or "/register" (a plain prefix test). */
  predicate IsAuthPage(path: string) {
    StartsWith(path, "/login") || StartsWith(path, "/register")
  }

  function Decide(path: string, cookies: Cookies): (a: Action)
    ensures IsAuthPage(path) && LoggedIn(cookies) ==> a == Redirect("/home")
    ensures IsAuthPage(path) && !LoggedIn(cookies) ==> a == Pass
    ensures !IsAuthPage(path) && !LoggedIn(cookies) ==> a == Redirect("/login")
    ensures !IsAuthPage(path) && LoggedIn(cookies) ==> a == Pass
  {
    if IsAuthPage(path) then
      if LoggedIn(cookies) then Redirect("/home") else Pass
    else if !LoggedIn(cookies) then Redirect("/login")
    else Pass
  }

  /** Following a redirect with the same cookies never redirects again: /login does not send to itself, nor /home to /login. */
  lemma NoRedirectLoop(path: string, cookies: Cookies)
    ensures Decide(path, cookies).Redirect? ==> Decide(Decide(path, cookies).path, cookies) == Pass
  {
    assert StartsWith("/login", "/login");
    assert !StartsWith("/home", "/login") by { assert "/home"[1] != "/login"[1]; }
    assert !StartsWith("/home", "/register") by { assert "/home"[1] != "/register"[1]; }
  }

  /** Either cookie alone signs the visitor in; a cookie set to the empty string counts as absent. */
  lemma EitherCookie(token: string)
    ensures token != [] ==> LoggedIn(Cookies(Some(token), None)) && LoggedIn(Cookies(None, Some(token)))
    ensures !LoggedIn(Cookies(Some(""), Some(""))) && !LoggedIn(Cookies(None, None))
    ensures token != [] ==> Decide("/home", Cookies(Some(""), Some(token))) == Pass
  {
    assert !StartsWith("/home", "/login") by { assert "/home"[1] != "/login"[1]; }
    assert !StartsWith("/home", "/register") by { assert "/home"[1] != "/register"[1]; }
  }

  /** The test is a prefix test: "/loginx" counts as an auth page, so a signed-out visitor sees it. */
  lemma PrefixMatch()
    ensures IsAuthPage("/loginx") && Decide("/loginx", Cookies(None, None)) == Pass
    ensures IsAuthPage("/register/more")
  {
    assert "/loginx"[..6] == "/login";
    assert "/register/more"[..9] == "/register";
  }
}
