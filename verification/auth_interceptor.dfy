/** `authInterceptor` (src/app/core/interceptors/auth.interceptor.ts): the
    decision taken for every outgoing request, given the access token the
    facade holds at that moment. */
module AuthInterceptor {
  import opened Wrappers
  import opened Models
  import JsText
  import AuthFacade

  /** The only URL fragment exempt from the bearer header. */
  const LoginPath := "/autenticacao/login"

  /** The refresh endpoint's path under the API base (auth.service.ts). */
  const RefreshPath := "/autenticacao/refresh"

  const AuthorizationHeader := "Authorization"

  datatype HttpRequest = HttpRequest(verb: string, url: string, headers: map<string, string>, body: string)

  function Bearer(token: string): string {
    "Bearer " + token
  }

  /** The request handed to `next`: a copy carrying `Authorization: Bearer
      <token>` when a token is held and the URL does not contain the login
      path, the request itself otherwise. */
  function Intercept(token: Option<string>, req: HttpRequest): (forwarded: HttpRequest)
    ensures forwarded.url == req.url && forwarded.verb == req.verb && forwarded.body == req.body
    ensures forall h :: h != AuthorizationHeader ==>
      (h in forwarded.headers <==> h in req.headers) && (h in req.headers ==> forwarded.headers[h] == req.headers[h])
    ensures AuthorizationHeader in forwarded.headers && forwarded.headers[AuthorizationHeader] == Bearer(token.value)
      <== TruthyText(token) && !JsText.Contains(req.url, LoginPath)
    ensures !TruthyText(token) || JsText.Contains(req.url, LoginPath) ==> forwarded == req
  {
    if TruthyText(token) && !JsText.Contains(req.url, LoginPath) then
      req.(headers := req.headers[AuthorizationHeader := Bearer(token.value)])
    else req
  }

  /** The whole interceptor: `next` is called once, with the forwarded
      request, and whatever it answers (a 401 included) is the result. */
  function Run<R>(token: Option<string>, req: HttpRequest, next: HttpRequest -> Result<R, HttpError>)
    : (r: (seq<HttpRequest>, Result<R, HttpError>))
    ensures |r.0| == 1 && r.0[0] == Intercept(token, req)
    ensures r.1 == next(r.0[0])
  {
    var forwarded := Intercept(token, req);
    ([forwarded], next(forwarded))
  }

  /** The header is attached exactly when the facade reports the session as
      authenticated and the URL is not the login URL. */
  lemma AttachesIffAuthenticated(s: AuthFacade.Session, req: HttpRequest)
    requires AuthorizationHeader !in req.headers
    ensures AuthorizationHeader in Intercept(s.accessToken, req).headers
      <==> AuthFacade.IsAuthenticated(s) && !JsText.Contains(req.url, LoginPath)
  {
  }

  /** No occurrence of the login path starts at `i` in the refresh URL. */
  lemma NoLoginPathAt(apiBase: string, i: nat)
    requires !JsText.Contains(apiBase, LoginPath)
    requires i + |LoginPath| <= |apiBase + RefreshPath|
    ensures (apiBase + RefreshPath)[i..i + |LoginPath|] != LoginPath
  {
    var url := apiBase + RefreshPath;
    var n := |apiBase|;
    if i + |LoginPath| <= n {
      assert url[i..i + |LoginPath|] == apiBase[i..i + |LoginPath|];
      if apiBase[i..i + |LoginPath|] == LoginPath {
        JsText.ContainsAt(apiBase, LoginPath, i);
      }
    } else if i >= n {
      assert url[i + 14] == RefreshPath[i - n + 14] != LoginPath[14];
    } else {
      var k := n - i;
      assert url[i..i + |LoginPath|][k] == url[n] == '/';
      if k == 13 {
        assert url[i..i + |LoginPath|][14] == url[n + 1] == 'a' != LoginPath[14];
      } else {
        assert LoginPath[k] != '/';
      }
    }
  }

  /** The refresh endpoint is not exempt: for any API base that does not
      itself contain the login path, the refresh URL does not contain it
      either. */
  lemma RefreshUrlNotExempt(apiBase: string)
    requires !JsText.Contains(apiBase, LoginPath)
    ensures !JsText.Contains(apiBase + RefreshPath, LoginPath)
  {
    if JsText.Contains(apiBase + RefreshPath, LoginPath) {
      var i := JsText.ContainsWitness(apiBase + RefreshPath, LoginPath);
      NoLoginPathAt(apiBase, i);
      assert false;
    }
  }

  /** The refresh request built by the authentication service carries the
      refresh token as its bearer; while an access token is held, the
      interceptor replaces it with the access token. */
  lemma RefreshRequestGetsAccessToken(apiBase: string, access: string, refresh: string)
    requires !JsText.Contains(apiBase, LoginPath) && |access| > 0
    ensures var req := HttpRequest("PUT", apiBase + RefreshPath, map[AuthorizationHeader := Bearer(refresh)], "{}");
      Intercept(Some(access), req).headers[AuthorizationHeader] == Bearer(access)
  {
    RefreshUrlNotExempt(apiBase);
  }

  /** The literal login URL is exempt. */
  lemma LoginUrlIsExempt(apiBase: string, token: Option<string>, req: HttpRequest)
    requires req.url == apiBase + LoginPath
    ensures Intercept(token, req) == req
  {
    JsText.ContainsAt(req.url, LoginPath, |apiBase|);
  }
}
