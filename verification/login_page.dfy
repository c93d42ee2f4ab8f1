/** `LoginComponent` (src/app/modules/auth/pages/login/login.component.ts):
    the login form, its loading and error flags, and the choice of the
    message shown when the login fails. */
module LoginPage {
  import opened Wrappers
  import opened Models
  import opened JsText
  import AuthFacade

  const WrongCredentialsMessage: string := "Usuário ou senha incorretos."
  const ConnectionFailureMessage: string := "Falha na conexão. Tente novamente mais tarde."

  datatype Page = Page(username: string, password: string, touched: bool, loading: bool, error: Option<string>)

  function Initial(): (p: Page)
    ensures !p.loading && p.error.None? && !p.touched && !FormValid(p)
  {
    Page("", "", false, false, None)
  }

  /** Both fields are required, and the password needs five characters. */
  predicate FormValid(p: Page) {
    |p.username| > 0 && |p.password| >= 5
  }

  /** The case-insensitive test `/invalid credentials|incorrect credentials/i`. */
  predicate MentionsBadCredentials(message: string) {
    ContainsIgnoringCase(message, "invalid credentials") || ContainsIgnoringCase(message, "incorrect credentials")
  }

  predicate RejectsCredentials(err: HttpError) {
    err.status == 401 || (err.apiMessage.Some? && MentionsBadCredentials(err.apiMessage.value))
  }

  /** The text shown for a failed login: wrong credentials, else the
      backend's own message when it is not blank, else a connection failure. */
  function ErrorMessage(err: HttpError): (m: string)
    ensures RejectsCredentials(err) ==> m == WrongCredentialsMessage
    ensures !RejectsCredentials(err) && err.apiMessage.Some? && HasNonWhitespace(err.apiMessage.value) ==>
      m == err.apiMessage.value
    ensures !RejectsCredentials(err) && (err.apiMessage.None? || !HasNonWhitespace(err.apiMessage.value)) ==>
      m == ConnectionFailureMessage
  {
    TrimNonEmptyIff(err.apiMessage.GetOr(""));
    if RejectsCredentials(err) then
      WrongCredentialsMessage
    else if err.apiMessage.Some? && |Trim(err.apiMessage.value)| > 0 then
      err.apiMessage.value
    else
      ConnectionFailureMessage
  }

  /** The shown text is never blank. */
  lemma ErrorMessageNotBlank(err: HttpError)
    ensures HasNonWhitespace(ErrorMessage(err))
  {
    var m := ErrorMessage(err);
    if m == WrongCredentialsMessage {
      assert !IsJsWhitespace(m[0]);
    } else if m == ConnectionFailureMessage {
      assert m == "Falha" + m[5..];
      assert !IsJsWhitespace(m[0]);
    }
  }

  /** `onSubmit` up to the login call: an invalid form only marks the
      controls touched; a valid one raises `loading`, clears the error and
      logs in with the form's value. */
  function OnSubmit(p: Page): (r: (Page, seq<LoginRequest>))
    ensures !FormValid(p) ==> r.0 == p.(touched := true) && r.1 == []
    ensures FormValid(p) ==>
      && r.0 == p.(loading := true, error := None)
      && r.1 == [LoginRequest(p.username, p.password)]
  {
    if FormValid(p) then (p.(loading := true, error := None), [LoginRequest(p.username, p.password)])
    else (p.(touched := true), [])
  }

  /** The end of the login observable: `loading` is cleared, and a failure
      sets the error text. */
  function OnLoginDone(p: Page, outcome: Result<(), HttpError>): (q: Page)
    ensures !q.loading
    ensures outcome.Success? ==> q == p.(loading := false)
    ensures outcome.Failure? ==> q == p.(loading := false, error := Some(ErrorMessage(outcome.error)))
  {
    match outcome
    case Success(_) => p.(loading := false)
    case Failure(err) => p.(loading := false, error := Some(ErrorMessage(err)))
  }

  /** A whole submit against the session: the form, the facade's login with
      the backend's answer, and the page's reaction to how it ended. */
  function Submit(p: Page, s: AuthFacade.Session, answer: Result<LoginResponse, HttpError>): (r: (Page, AuthFacade.Session))
  {
    var (q, calls) := OnSubmit(p);
    if calls == [] then (q, s)
    else
      var (s', completion) := AuthFacade.Login(s, calls[0], answer);
      var ended := if completion == AuthFacade.Emitted then Success(()) else Failure(answer.error);
      (OnLoginDone(q, ended), s')
  }

  /** A valid submit that the backend accepts navigates to the pet list and
      leaves no error; one it rejects shows the chosen text and does not
      navigate; an invalid form touches nothing in the session. */
  lemma SubmitOutcomes(p: Page, s: AuthFacade.Session, answer: Result<LoginResponse, HttpError>)
    ensures !FormValid(p) ==> Submit(p, s, answer).1 == s && Submit(p, s, answer).0.touched
    ensures FormValid(p) && answer.Success? ==>
      && Submit(p, s, answer).1.navigations == s.navigations + [AuthFacade.PetsRoute]
      && Submit(p, s, answer).0.error.None? && !Submit(p, s, answer).0.loading
    ensures FormValid(p) && answer.Failure? ==>
      && Submit(p, s, answer).1.navigations == s.navigations
      && Submit(p, s, answer).0.error == Some(ErrorMessage(answer.error))
      && !Submit(p, s, answer).0.loading
  {
  }
}
