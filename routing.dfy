/**
 * The edge middleware: which requests are sent to the login page, which
 * signed-in visitors are sent on to the verify page, and which pass.
 */
module Routing {
  import opened Wrappers
  import opened Text

  /** The middleware's answer: let the request through, or redirect it. */
  datatype Decision = Next | Redirect(pathname: string, search: string)

  /** `req.cookies.get('token')?.value` used as a condition: present and non-empty. */
  predicate HasToken(token: Option<string>) {
    token.Some? && token.value != ""
  }

  /** The `matcher` patterns `/` and `/verify/:path*`. */
  predicate Matched(pathname: string) {
    pathname == "/" || pathname == "/verify" || StartsWith(pathname, "/verify/")
  }

  /**
   * middleware: a `/verify…` path without a token goes to `/login` (the
   * query string is dropped); `/` with a token that `jwtValid` accepts goes
   * to `/verify`, keeping the query string; everything else passes.
   */
  function Middleware(pathname: string, search: string, token: Option<string>,
                      jwtValid: string -> bool): (d: Decision)
    ensures d.Redirect? <==>
      (StartsWith(pathname, "/verify") && !HasToken(token))
      || (pathname == "/" && HasToken(token) && jwtValid(token.value))
    ensures StartsWith(pathname, "/verify") && !HasToken(token) ==> d == Redirect("/login", "")
    ensures pathname == "/" && HasToken(token) && jwtValid(token.value) ==> d == Redirect("/verify", search)
    ensures d.Redirect? ==> d == Redirect("/login", "") || d == Redirect("/verify", search)
    ensures d.Redirect? && d.pathname == "/verify" ==> HasToken(token) && jwtValid(token.value)
  {
    if StartsWith(pathname, "/verify") && !HasToken(token) then Redirect("/login", "")
    else if pathname == "/" && HasToken(token) && jwtValid(token.value) then Redirect("/verify", search)
    else Next
  }

  /** What a request meets: the middleware on matched paths, nothing elsewhere. */
  function Route(pathname: string, search: string, token: Option<string>,
                 jwtValid: string -> bool): (d: Decision)
    ensures !Matched(pathname) ==> d == Next
    ensures Matched(pathname) ==> d == Middleware(pathname, search, token, jwtValid)
  {
    if Matched(pathname) then Middleware(pathname, search, token, jwtValid) else Next
  }

  /** Every matched page under `/verify` sends visitors without a token to `/login`. */
  lemma ProtectedPathNeedsToken(pathname: string, search: string, token: Option<string>,
                                jwtValid: string -> bool)
    requires pathname == "/verify" || StartsWith(pathname, "/verify/")
    requires !HasToken(token)
    ensures Route(pathname, search, token, jwtValid) == Redirect("/login", "")
  {
  }

  /**
   * On `/verify` pages only the presence of a token is checked: a token the
   * JWT check would reject still gets through.
   */
  lemma ProtectedPathIgnoresTokenValidity(pathname: string, search: string, token: Option<string>,
                                          jwtValid: string -> bool)
    requires pathname == "/verify" || StartsWith(pathname, "/verify/")
    requires HasToken(token)
    ensures Route(pathname, search, token, jwtValid) == Next
  {
  }

  /** A signed-in visitor on the home page goes to `/verify`, with the query string kept. */
  lemma SignedInHomeGoesToVerify(search: string, token: Option<string>, jwtValid: string -> bool)
    requires HasToken(token) && jwtValid(token.value)
    ensures Route("/", search, token, jwtValid) == Redirect("/verify", search)
  {
  }

  /** The home page passes when there is no token or the token fails the JWT check. */
  lemma HomeWithoutValidTokenPasses(search: string, token: Option<string>, jwtValid: string -> bool)
    requires !HasToken(token) || !jwtValid(token.value)
    ensures Route("/", search, token, jwtValid) == Next
  {
  }

  /** Following a redirect with the same cookie never redirects again. */
  lemma NoRedirectLoop(pathname: string, search: string, token: Option<string>,
                       jwtValid: string -> bool)
    requires Route(pathname, search, token, jwtValid).Redirect?
    ensures
      var d := Route(pathname, search, token, jwtValid);
      Route(d.pathname, d.search, token, jwtValid) == Next
  {
  }
}
