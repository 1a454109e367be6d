/**
 * The sign-in form: the chosen login type, the typed email and password, the
 * error line and the busy flag; signing in looks the email up among the
 * known users under the chosen type.
 */
module LoginPage {
  import opened Options
  import opened Seqs
  import opened App

  /** The two tabs of the form: teachers and admins, or students. */
  datatype LoginType = TeacherLogin | StudentLogin

  /** Whether a user of the role may sign in under the login type. */
  predicate RoleFits(t: LoginType, role: Role)
  {
    match t
    case TeacherLogin => role == TeacherRole || role == AdminRole
    case StudentLogin => role == StudentRole
  }

  predicate Fits(u: User, email: string, t: LoginType)
  {
    u.email == email && RoleFits(t, u.role)
  }

  function FitsBy(email: string, t: LoginType): User -> bool
  {
    (u: User) => Fits(u, email, t)
  }

  /** `users[i]` is the first user with this email whose role fits the login type. */
  predicate FirstFitAt(users: seq<User>, email: string, t: LoginType, i: int)
  {
    0 <= i < |users| && Fits(users[i], email, t) && forall j :: 0 <= j < i ==> !Fits(users[j], email, t)
  }

  /**
   * The lookup of `handleLogin`: the first user with exactly this email whose
   * role fits the login type; the password plays no part.
   */
  function FindUser(users: seq<User>, email: string, t: LoginType): (r: Option<User>)
    ensures r.None? <==> forall i :: 0 <= i < |users| ==> !Fits(users[i], email, t)
    ensures r.Some? ==> exists i :: FirstFitAt(users, email, t, i) && users[i] == r.value
  {
    match FindFirst(users, FitsBy(email, t))
    case Some(i) =>
      assert FirstFitAt(users, email, t, i);
      Some(users[i])
    case None => None
  }

  /** A user found is one whose email is the one typed and whose role fits the login type. */
  lemma FoundUserFits(users: seq<User>, email: string, t: LoginType)
    requires FindUser(users, email, t).Some?
    ensures FindUser(users, email, t).value in users
    ensures FindUser(users, email, t).value.email == email
    ensures RoleFits(t, FindUser(users, email, t).value.role)
  {
    var i :| FirstFitAt(users, email, t, i) && users[i] == FindUser(users, email, t).value;
  }

  const InvalidCredentials := "Invalid credentials or user type mismatch"

  /** The demo account of each login type. */
  function DemoEmail(t: LoginType): string
  {
    match t
    case TeacherLogin => "preet.singh@punjabschools.edu"
    case StudentLogin => "simran.kaur@punjabschools.edu"
  }

  function DemoPassword(t: LoginType): string
  {
    match t
    case TeacherLogin => "teacher123"
    case StudentLogin => "student123"
  }

  /** Each demo account signs in, under its own login type, as the intended known user. */
  lemma DemoCredentialsSignIn()
    ensures FindUser(InitialUsers, DemoEmail(TeacherLogin), TeacherLogin) == Some(InitialUsers[0])
    ensures FindUser(InitialUsers, DemoEmail(StudentLogin), StudentLogin) == Some(InitialUsers[1])
  {
    assert FirstFitAt(InitialUsers, DemoEmail(TeacherLogin), TeacherLogin, 0);
    assert FirstFitAt(InitialUsers, DemoEmail(StudentLogin), StudentLogin, 1);
  }

  /** The admin signs in on the teacher tab. */
  lemma AdminSignsInAsTeacher()
    ensures FindUser(InitialUsers, "harpreet.singh@punjabschools.edu", TeacherLogin) == Some(InitialUsers[2])
  {
    assert FirstFitAt(InitialUsers, "harpreet.singh@punjabschools.edu", TeacherLogin, 2);
  }

  /** The student demo account is refused on the teacher tab. */
  lemma StudentRefusedOnTeacherTab()
    ensures FindUser(InitialUsers, DemoEmail(StudentLogin), TeacherLogin) == None
  {
  }

  /** The sign-in form's state. */
  class LoginForm {
    var loginType: LoginType
    var email: string
    var password: string
    var error: string
    var loading: bool

    constructor ()
      ensures loginType == TeacherLogin && email == "" && password == "" && error == "" && !loading
    {
      loginType := TeacherLogin;
      email := "";
      password := "";
      error := "";
      loading := false;
    }

    /** Typing into the email or password field. */
    method EnterCredentials(e: string, p: string)
      modifies this
      ensures email == e && password == p
      ensures loginType == old(loginType) && error == old(error) && loading == old(loading)
    {
      email := e;
      password := p;
    }

    /**
     * `handleLogin`: the user found for the typed email under the chosen tab
     * is signed in; when there is none the error line says so. The error is
     * cleared first and the form is not busy afterwards.
     */
    method HandleLogin(users: seq<User>) returns (signedIn: Option<User>)
      modifies this
      ensures signedIn == FindUser(users, old(email), old(loginType))
      ensures signedIn.Some? ==> signedIn.value in users && signedIn.value.email == old(email)
      ensures error == (if signedIn.Some? then "" else InvalidCredentials)
      ensures !loading
      ensures loginType == old(loginType) && email == old(email) && password == old(password)
    {
      error := "";
      loading := true;
      signedIn := FindUser(users, email, loginType);
      if signedIn.Some? {
        FoundUserFits(users, email, loginType);
      } else {
        error := InvalidCredentials;
      }
      loading := false;
    }

    /** Switching tabs selects the type and clears the email, the password and the error. */
    method SelectLoginType(t: LoginType)
      modifies this
      ensures loginType == t && email == "" && password == "" && error == ""
      ensures loading == old(loading)
    {
      loginType := t;
      email := "";
      password := "";
      error := "";
    }

    /** `fillDemoCredentials`: the demo account of the chosen tab, and no error. */
    method FillDemoCredentials()
      modifies this
      ensures email == DemoEmail(loginType) && password == DemoPassword(loginType) && error == ""
      ensures loginType == old(loginType) && loading == old(loading)
    {
      email := DemoEmail(loginType);
      password := DemoPassword(loginType);
      error := "";
    }
  }

  /** Filling the demo credentials of a tab and signing in lands on the intended user. */
  method DemoSignIn(t: LoginType) returns (signedIn: Option<User>)
    ensures signedIn == Some(if t == TeacherLogin then InitialUsers[0] else InitialUsers[1])
  {
    var form := new LoginForm();
    form.SelectLoginType(t);
    form.FillDemoCredentials();
    signedIn := form.HandleLogin(InitialUsers);
    DemoCredentialsSignIn();
  }
}
