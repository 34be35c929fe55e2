/** The session held by `AuthProvider` (src/contexts/AuthContext.tsx) and the
    types of src/types/auth.ts. The `user` entry of `localStorage` is the
    `stored` slot of the state; each asynchronous call is one transition,
    the simulated network delay having no observable effect. */
module Auth {
  import opened Wrappers
  import Text
  import Uri
  import Seqs

  datatype Role = Student | Instructor | Admin | Moderator | Guest

  /** The user seen by the rest of the application: never carries a password. */
  datatype User = User(id: string, email: string, name: string, role: Role, avatar: Option<string>)

  /** An entry of the fixed credential list: a user with its password. */
  datatype Account = Account(user: User, password: string)

  datatype Credentials = Credentials(email: string, password: string)

  datatype RegisterData = RegisterData(email: string, password: string, name: string, role: Option<Role>)

  /** The signed-in user, the loading flag, and the persisted copy of the user. */
  datatype AuthState = AuthState(user: Option<User>, isLoading: bool, stored: Option<User>)

  function MockAccount(id: string, email: string, name: string, role: Role, avatarName: string): Account {
    Account(User(id, email, name, role,
                 Some("https://ui-avatars.com/api/?name=" + avatarName + "&background=random")),
            "password123")
  }

  /** `MOCK_USERS`: five accounts, one per role, all with the same password. */
  const MockUsers: seq<Account> := [
    MockAccount("1", "student@peakhub.com", "John Student", Student, "John+Student"),
    MockAccount("2", "instructor@peakhub.com", "Jane Instructor", Instructor, "Jane+Instructor"),
    MockAccount("3", "admin@peakhub.com", "Admin User", Admin, "Admin+User"),
    MockAccount("4", "moderator@peakhub.com", "Mod User", Moderator, "Mod+User"),
    MockAccount("5", "guest@peakhub.com", "Guest User", Guest, "Guest+User")
  ]

  predicate Matches(a: Account, c: Credentials) {
    a.user.email == c.email && a.password == c.password
  }

  predicate HasEmail(a: Account, email: string) {
    a.user.email == email
  }

  // ---------------------------------------------------------------------
  // Provider lifecycle
  // ---------------------------------------------------------------------

  /** The provider as first rendered: nobody signed in, still loading. */
  function Init(stored: Option<User>): AuthState {
    AuthState(None, true, stored)
  }

  /** The mount effect: a stored user is restored, otherwise the user stays
      as it was; loading ends either way. */
  function Bootstrap(s: AuthState): (t: AuthState)
    ensures s.stored.Some? ==> t.user == s.stored
    ensures s.stored.None? ==> t.user == s.user
    ensures !t.isLoading && t.stored == s.stored
  {
    AuthState(if s.stored.Some? then s.stored else s.user, false, s.stored)
  }

  /** A freshly mounted provider is signed in exactly when something was stored. */
  lemma BootstrapFresh(stored: Option<User>)
    ensures Bootstrap(Init(stored)).user == stored
    ensures IsAuthenticated(Bootstrap(Init(stored))) <==> stored.Some?
  {
  }

  // ---------------------------------------------------------------------
  // login / register / logout
  // ---------------------------------------------------------------------

  /** `login(credentials)`: the first account whose email and password both
      match exactly; on success the password-free user is stored, installed
      and returned, on failure nothing but the loading flag changes. */
  function Login(s: AuthState, c: Credentials): (res: (AuthState, Option<User>))
    ensures res.1.Some? <==> exists i :: 0 <= i < |MockUsers| && Matches(MockUsers[i], c)
    ensures res.1.Some? ==> res.0.user == res.1 && res.0.stored == res.1
    ensures res.1.Some? ==> res.1.value.email == c.email
    ensures res.1.Some? ==> exists i :: 0 <= i < |MockUsers| && Matches(MockUsers[i], c)
                                        && MockUsers[i].user == res.1.value
    ensures res.1.None? ==> res.0.user == s.user && res.0.stored == s.stored
    ensures !res.0.isLoading
  {
    match Seqs.Find(MockUsers, a => Matches(a, c))
    case Some(a) => (AuthState(Some(a.user), false, Some(a.user)), Some(a.user))
    case None => (s.(isLoading := false), None)
  }

  /** The id a registration receives: one more than the number of fixed
      accounts, in decimal. */
  function NewUserId(): string {
    Text.NatToString(|MockUsers| + 1)
  }

  /** The generated avatar of a registered user. */
  function RegisteredAvatar(name: string): (url: string)
    ensures Text.StartsWith(url, "https://ui-avatars.com/api/?name=")
  {
    var prefix := "https://ui-avatars.com/api/?name=";
    var url := prefix + Uri.EncodeUriComponent(name) + "&background=random";
    assert url[..|prefix|] == prefix;
    url
  }

  /** `register(data)`: refused when the email belongs to an account;
      otherwise a new student (unless another role is given) is stored,
      installed and returned. The account list itself never grows. */
  function Register(s: AuthState, d: RegisterData): (res: (AuthState, Option<User>))
    ensures res.1.None? <==> exists i :: 0 <= i < |MockUsers| && HasEmail(MockUsers[i], d.email)
    ensures res.1.None? ==> res.0.user == s.user && res.0.stored == s.stored
    ensures res.1.Some? ==> res.0.user == res.1 && res.0.stored == res.1
    ensures res.1.Some? ==> res.1.value.id == "6"
    ensures res.1.Some? ==> res.1.value.email == d.email && res.1.value.name == d.name
    ensures res.1.Some? ==> res.1.value.role == (if d.role.Some? then d.role.value else Student)
    ensures res.1.Some? ==> res.1.value.avatar == Some(RegisteredAvatar(d.name))
    ensures !res.0.isLoading
  {
    match Seqs.Find(MockUsers, a => HasEmail(a, d.email))
    case Some(_) => (s.(isLoading := false), None)
    case None =>
      NewUserIdIsSix();
      var u := User(NewUserId(), d.email, d.name, d.role.GetOr(Student), Some(RegisteredAvatar(d.name)));
      (AuthState(Some(u), false, Some(u)), Some(u))
  }

  /** `logout()`: clears the user and the stored copy, whatever the state. */
  function Logout(s: AuthState): (t: AuthState)
    ensures !IsAuthenticated(t) && t.stored.None?
    ensures t.isLoading == s.isLoading
  {
    s.(user := None, stored := None)
  }

  /** The session counts as signed in exactly when a user is installed. */
  predicate IsAuthenticated(s: AuthState) {
    s.user.Some?
  }

  /** `useAuth()` outside a provider throws; inside it yields the context. */
  function UseAuth(context: Option<AuthState>): (r: Result<AuthState>)
    ensures r.Ok? <==> context.Some?
    ensures r.Ok? ==> r.value == context.value
    ensures r.Err? ==> r.error == "useAuth must be used within an AuthProvider"
  {
    match context
    case Some(s) => Ok(s)
    case None => Err("useAuth must be used within an AuthProvider")
  }

  // ---------------------------------------------------------------------
  // Properties
  // ---------------------------------------------------------------------

  /** Logging out twice is logging out once, and after it nobody is signed
      in even after a reload. */
  lemma LogoutIdempotent(s: AuthState)
    ensures Logout(Logout(s)) == Logout(s)
    ensures !IsAuthenticated(Bootstrap(Init(Logout(s).stored)))
  {
  }

  /** A successful login survives a reload: the stored copy brings the same
      user back. */
  lemma LoginSurvivesReload(s: AuthState, c: Credentials)
    requires Login(s, c).1.Some?
    ensures Bootstrap(Init(Login(s, c).0.stored)).user == Login(s, c).1
  {
  }

  /** Every registration gets the id "6", since the account list has five
      entries and is never extended. */
  lemma NewUserIdIsSix()
    ensures NewUserId() == "6"
  {
    assert |MockUsers| + 1 == 6;
  }

  /** Registering does not create an account: the credentials of a new
      registration are still refused by `login`. */
  lemma RegisteredCannotLogin(s: AuthState, d: RegisterData)
    requires Register(s, d).1.Some?
    ensures Login(Register(s, d).0, Credentials(d.email, d.password)).1.None?
  {
    var c := Credentials(d.email, d.password);
    forall i | 0 <= i < |MockUsers| ensures !Matches(MockUsers[i], c) {
      assert !HasEmail(MockUsers[i], d.email);
    }
  }

  /** The generated avatar URL carries the name as one query value: the
      encoded name holds no `&` or `=`, so it cannot end the parameter. */
  lemma AvatarNameIsOneParameter(name: string)
    ensures '&' !in Uri.EncodeUriComponent(name) && '=' !in Uri.EncodeUriComponent(name)
  {
    var e := Uri.EncodeUriComponent(name);
    forall i | 0 <= i < |e| ensures e[i] != '&' && e[i] != '=' {
      assert Uri.IsUnreserved(e[i]) || e[i] == '%' || Uri.IsUpperHex(e[i]);
    }
  }

  /** Each account's own credentials sign in as that account's user. */
  lemma MockAccountsLogIn(s: AuthState, i: nat)
    requires i < |MockUsers|
    ensures Login(s, Credentials(MockUsers[i].user.email, "password123")).1 == Some(MockUsers[i].user)
  {
    var c := Credentials(MockUsers[i].user.email, "password123");
    assert Matches(MockUsers[i], c);
    forall j | 0 <= j < |MockUsers| && j != i ensures !Matches(MockUsers[j], c) {
      assert MockUsers[j].user.email != MockUsers[i].user.email;
    }
  }
}
