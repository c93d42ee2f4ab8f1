/** `authGuard` (src/app/core/guards/auth.guard.ts): admission to the
    protected routes, decided from the access token alone. */
module AuthGuard {
  import opened Wrappers
  import opened Models
  import AuthFacade

  datatype GuardResult = Allow | RedirectTo(commands: seq<string>)

  /** `true` when the token is truthy, else the URL tree for the login page. */
  function Guard(token: Option<string>): (r: GuardResult)
    ensures r == Allow <==> token.Some? && token.value != ""
    ensures r != Allow ==> r == RedirectTo([AuthFacade.LoginRoute])
  {
    if TruthyText(token) then Allow else RedirectTo([AuthFacade.LoginRoute])
  }

  /** The guard admits exactly the sessions the facade calls authenticated. */
  lemma GuardMatchesFacade(s: AuthFacade.Session)
    ensures Guard(s.accessToken) == Allow <==> AuthFacade.IsAuthenticated(s)
  {
  }

  /** After a logout every protected route redirects to the login page, and
      after a successful login with a non-empty access token it admits. */
  lemma GuardAfterLogoutAndLogin(s: AuthFacade.Session, credentials: LoginRequest, response: LoginResponse)
    requires response.access_token != ""
    ensures Guard(AuthFacade.Logout(s).accessToken) == RedirectTo(["/auth/login"])
    ensures Guard(AuthFacade.Login(s, credentials, Success(response)).0.accessToken) == Allow
  {
  }
}
