/** The registration page (src/pages/Signup/index.tsx): the form, the
    password confirmation check, and the call to `register`. */
module SignupPage {
  import opened Wrappers
  import opened Auth

  /** `formData`: the role select offers the student and instructor roles
      and starts on student. */
  datatype SignupForm = SignupForm(email: string, password: string, name: string, role: Role)

  datatype SignupPage = SignupPage(form: SignupForm, confirmPassword: string, error: Option<string>, isLoading: bool)

  /** The `name` attribute of the three text inputs. */
  datatype TextField = EmailField | PasswordField | NameField

  /** The roles the select offers. */
  const RoleOptions: seq<Role> := [Student, Instructor]

  datatype Outcome = Outcome(page: SignupPage, auth: AuthState, route: Option<string>)

  function InitialSignup(): (p: SignupPage)
    ensures p.form.role in RoleOptions && p.error.None? && !p.isLoading
  {
    SignupPage(SignupForm("", "", "", Student), "", None, false)
  }

  /** `handleChange`: one text field takes the typed value. */
  function HandleChange(p: SignupPage, field: TextField, value: string): (q: SignupPage)
    ensures field == EmailField ==> q.form == p.form.(email := value)
    ensures field == PasswordField ==> q.form == p.form.(password := value)
    ensures field == NameField ==> q.form == p.form.(name := value)
    ensures q.form.role == p.form.role && q.confirmPassword == p.confirmPassword
    ensures q.error == p.error && q.isLoading == p.isLoading
  {
    match field
    case EmailField => p.(form := p.form.(email := value))
    case PasswordField => p.(form := p.form.(password := value))
    case NameField => p.(form := p.form.(name := value))
  }

  /** `handleSelectChange(value, 'role')`. */
  function HandleRoleChange(p: SignupPage, role: Role): (q: SignupPage)
    ensures q.form.role == role
    ensures q.form.email == p.form.email && q.form.password == p.form.password && q.form.name == p.form.name
    ensures q.confirmPassword == p.confirmPassword && q.error == p.error
  {
    p.(form := p.form.(role := role))
  }

  function SetConfirmPassword(p: SignupPage, value: string): (q: SignupPage)
    ensures q.confirmPassword == value && q.form == p.form && q.error == p.error
  {
    p.(confirmPassword := value)
  }

  /** The data handed to `register`: the whole form, the role included. */
  function ToRegisterData(f: SignupForm): RegisterData {
    RegisterData(f.email, f.password, f.name, Some(f.role))
  }

  /** `handleSubmit`: differing passwords stop before `register` is called;
      otherwise a successful registration lands on `/` and a refused one
      shows that the email may be taken. Loading is off on every path. */
  function HandleSubmit(p: SignupPage, s: AuthState): (o: Outcome)
    ensures !o.page.isLoading && o.page.form == p.form && o.page.confirmPassword == p.confirmPassword
    ensures p.form.password != p.confirmPassword ==>
              o.auth == s && o.route.None? && o.page.error == Some("Passwords do not match")
    ensures p.form.password == p.confirmPassword ==> o.auth == Register(s, ToRegisterData(p.form)).0
    ensures o.route.Some? <==>
              p.form.password == p.confirmPassword && Register(s, ToRegisterData(p.form)).1.Some?
    ensures o.route.Some? ==> o.route.value == "/" && o.page.error.None?
    ensures p.form.password == p.confirmPassword && o.route.None? ==>
              o.page.error == Some("Registration failed. Email may already be in use.")
  {
    if p.form.password != p.confirmPassword then
      Outcome(p.(error := Some("Passwords do not match"), isLoading := false), s, None)
    else
      var (t, r) := Register(s, ToRegisterData(p.form));
      if r.Some? then Outcome(p.(error := None, isLoading := false), t, Some("/"))
      else Outcome(p.(error := Some("Registration failed. Email may already be in use."), isLoading := false), t, None)
  }

  /** A successful sign-up signs the new user in with the form's name, email
      and chosen role, under the id "6". */
  lemma SignupSignsIn(p: SignupPage, s: AuthState)
    requires HandleSubmit(p, s).route.Some?
    ensures IsAuthenticated(HandleSubmit(p, s).auth)
    ensures var u := HandleSubmit(p, s).auth.user.value;
            u.id == "6" && u.email == p.form.email && u.name == p.form.name && u.role == p.form.role
  {
  }

  /** Signing up with an email of the account list is always refused. */
  lemma KnownEmailRefused(p: SignupPage, s: AuthState, i: nat)
    requires i < |MockUsers| && p.form.email == MockUsers[i].user.email
    ensures HandleSubmit(p, s).route.None?
    ensures HandleSubmit(p, s).auth.user == s.user
  {
    assert HasEmail(MockUsers[i], p.form.email);
  }

  /** The account created by a sign-up does not survive a sign-out: the same
      credentials are then refused by the sign-in page. */
  lemma SignupNotPersistent(p: SignupPage, s: AuthState)
    requires HandleSubmit(p, s).route.Some?
    ensures Login(Logout(HandleSubmit(p, s).auth), Credentials(p.form.email, p.form.password)).1.None?
  {
    RegisteredCannotLogin(s, ToRegisterData(p.form));
    var c := Credentials(p.form.email, p.form.password);
    forall i | 0 <= i < |MockUsers| ensures !Matches(MockUsers[i], c) {
      assert !HasEmail(MockUsers[i], p.form.email);
    }
  }
}
