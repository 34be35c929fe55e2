/** The sign-in page (src/pages/Login/index.tsx): form edits, the submit
    handler with its role-dependent redirect, and the demo quick logins. */
module LoginPage {
  import opened Wrappers
  import opened Auth

  datatype LoginForm = LoginForm(credentials: Credentials, error: Option<string>, isLoading: bool)

  /** The `name` attribute of the two inputs. */
  datatype CredentialField = EmailField | PasswordField

  /** What a handler leaves behind: the page, the session, and the route it
      navigated to, if any. */
  datatype Outcome = Outcome(form: LoginForm, auth: AuthState, route: Option<string>)

  function InitialLoginForm(): LoginForm {
    LoginForm(Credentials("", ""), None, false)
  }

  /** `handleChange`: `{ ...prev, [name]: value }` on the credentials. */
  function HandleChange(f: LoginForm, field: CredentialField, value: string): (g: LoginForm)
    ensures field == EmailField ==> g.credentials.email == value && g.credentials.password == f.credentials.password
    ensures field == PasswordField ==> g.credentials.password == value && g.credentials.email == f.credentials.email
    ensures g.error == f.error && g.isLoading == f.isLoading
  {
    match field
    case EmailField => f.(credentials := f.credentials.(email := value))
    case PasswordField => f.(credentials := f.credentials.(password := value))
  }

  /** The route after a successful manual sign-in. */
  function RedirectFor(u: User): string {
    if u.role == Admin then "/admin" else "/"
  }

  /** `handleSubmit`: signs in with the form's credentials; an administrator
      lands on `/admin`, everyone else on `/`; a refusal shows an error and
      stays. Loading is off afterwards on every path. */
  function HandleSubmit(f: LoginForm, s: AuthState): (o: Outcome)
    ensures !o.form.isLoading && o.form.credentials == f.credentials
    ensures o.auth == Login(s, f.credentials).0
    ensures o.route.Some? <==> Login(s, f.credentials).1.Some?
    ensures o.route.Some? ==> o.form.error.None?
                              && o.route.value == (if o.auth.user.value.role == Admin then "/admin" else "/")
    ensures o.route.None? ==> o.form.error == Some("Invalid email or password")
  {
    var (t, r) := Login(s, f.credentials);
    match r
    case Some(u) => Outcome(f.(error := None, isLoading := false), t, Some(RedirectFor(u)))
    case None => Outcome(f.(error := Some("Invalid email or password"), isLoading := false), t, None)
  }

  /** `quickLoginAs(email, password)`: signs in with the given pair, leaving
      the form's fields alone; success always lands on `/`. */
  function QuickLoginAs(f: LoginForm, s: AuthState, email: string, password: string): (o: Outcome)
    ensures !o.form.isLoading && o.form.credentials == f.credentials
    ensures o.auth == Login(s, Credentials(email, password)).0
    ensures o.route.Some? <==> Login(s, Credentials(email, password)).1.Some?
    ensures o.route.Some? ==> o.route.value == "/" && o.form.error.None?
    ensures o.route.None? ==> o.form.error == Some("Quick login failed. Please try manual login.")
  {
    var (t, r) := Login(s, Credentials(email, password));
    if r.Some? then Outcome(f.(error := None, isLoading := false), t, Some("/"))
    else Outcome(f.(error := Some("Quick login failed. Please try manual login."), isLoading := false), t, None)
  }

  /** The four demo buttons, in page order. */
  const QuickLogins: seq<Credentials> := [
    Credentials("student@peakhub.com", "password123"),
    Credentials("instructor@peakhub.com", "password123"),
    Credentials("admin@peakhub.com", "password123"),
    Credentials("moderator@peakhub.com", "password123")
  ]

  /** Every demo button signs in as the account of its role and lands on `/`,
      the administrator included. */
  lemma QuickLoginsSucceed(f: LoginForm, s: AuthState, i: nat)
    requires i < |QuickLogins|
    ensures QuickLoginAs(f, s, QuickLogins[i].email, QuickLogins[i].password).route == Some("/")
    ensures QuickLoginAs(f, s, QuickLogins[i].email, QuickLogins[i].password).auth.user == Some(MockUsers[i].user)
  {
    assert QuickLogins[i] == Credentials(MockUsers[i].user.email, "password123");
    MockAccountsLogIn(s, i);
  }

  /** The administrator's credentials typed into the form lead to `/admin`,
      while the same account's demo button leads to `/`. */
  lemma AdminRedirects(f: LoginForm, s: AuthState)
    requires f.credentials == QuickLogins[2]
    ensures HandleSubmit(f, s).route == Some("/admin")
    ensures QuickLoginAs(f, s, f.credentials.email, f.credentials.password).route == Some("/")
  {
    QuickLoginsSucceed(f, s, 2);
    assert f.credentials == Credentials(MockUsers[2].user.email, "password123");
    MockAccountsLogIn(s, 2);
  }
}
