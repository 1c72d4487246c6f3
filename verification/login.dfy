/** POST /api/login: an ordered chain of checks over the user row found by
    the normalised e-mail, ending in a status code and, on success or for an
    unverified address, a redirect target. It writes nothing. The password
    comparison (bcrypt) is a parameter. */
module LoginRoute {
  import opened Common
  import opened Text
  import opened Http
  import opened Store

  datatype LoginRequest = LoginRequest(email: Option<string>, password: Option<string>)

  const MissingCredentials := "Email and password are required."
  const InvalidCredentials := "Invalid email or password."
  const VerifyFirst := "Please verify your email before logging in."
  const LoggedIn := "Login successful."

  /** The dashboard of a user whose profile is complete. */
  function RoleHome(role: Role): (p: string)
    ensures role == STUDENT <==> p == "/dashboard/student"
    ensures role == TEACHER <==> p == "/dashboard/teacher"
    ensures role == ADMIN <==> p == "/dashboard/admin"
    ensures role == HOD <==> p == "/dashboard/hod"
    ensures role == OtherRole <==> p == "/dashboard"
  {
    match role
    case STUDENT => "/dashboard/student"
    case TEACHER => "/dashboard/teacher"
    case ADMIN => "/dashboard/admin"
    case HOD => "/dashboard/hod"
    case OtherRole => "/dashboard"
  }

  /** /complete-profile?role=…&email=…, with role only for students and
      teachers. */
  function CompleteProfileUrl(u: User): (url: Url)
    ensures url.path == "/complete-profile"
    ensures |url.query| >= 1 && url.query[|url.query| - 1] == ("email", u.email)
    ensures u.role == STUDENT ==> url.query == [("role", "student"), ("email", u.email)]
    ensures u.role == TEACHER ==> url.query == [("role", "teacher"), ("email", u.email)]
    ensures u.role != STUDENT && u.role != TEACHER ==> url.query == [("email", u.email)]
  {
    var roleParam: Option<string> :=
      if u.role == STUDENT then Some("student") else if u.role == TEACHER then Some("teacher") else None;
    var roleQuery := if roleParam.Some? then [("role", roleParam.value)] else [];
    Url("/complete-profile", roleQuery + [("email", u.email)])
  }

  /** Where a verified user with the right password goes. */
  function LoginRedirect(u: User): (url: Url)
    ensures !u.isProfileComplete ==> url == CompleteProfileUrl(u)
    ensures u.isProfileComplete ==> url == Path(RoleHome(u.role))
  {
    if !u.isProfileComplete then CompleteProfileUrl(u) else Path(RoleHome(u.role))
  }

  /** The user row the request refers to, looked up by the trimmed,
      lower-cased address. */
  function LookupUser(users: seq<User>, email: string): (r: Option<User>)
    ensures r.Some? ==> r.value in users && r.value.email == NormalizeEmail(email)
    ensures r.None? ==> forall u :: u in users ==> u.email != NormalizeEmail(email)
  {
    var k := UserByEmail(users, NormalizeEmail(email));
    if k.Some? then Some(users[k.value]) else None
  }

  function Login(req: LoginRequest, users: seq<User>, passwordMatches: (string, string) -> bool): (r: Reply)
    ensures r.status in {200, 400, 401, 403}
    ensures r.status == 400 <==> !Present(req.email) || !Present(req.password)
    ensures Present(req.email) && Present(req.password) ==>
      var user := LookupUser(users, req.email.value);
      (r.status == 401 <==> user.None? || (user.value.isEmailVerified
                                            && !passwordMatches(req.password.value, user.value.passwordHash)))
      && (r.status == 403 <==> user.Some? && !user.value.isEmailVerified)
      && (r.status == 403 ==> r.redirectTo == Some(Url("/email-verify", [("email", user.value.email)])))
      && (r.status == 200 ==> r.redirectTo == Some(LoginRedirect(user.value)))
    ensures r.status == 401 ==> r == Json(401, InvalidCredentials)
  {
    if !Present(req.email) || !Present(req.password) then Json(400, MissingCredentials)
    else
      var user := LookupUser(users, req.email.value);
      if user.None? then Json(401, InvalidCredentials)
      else if !user.value.isEmailVerified then
        Redirect(403, VerifyFirst, Url("/email-verify", [("email", user.value.email)]))
      else if !passwordMatches(req.password.value, user.value.passwordHash) then Json(401, InvalidCredentials)
      else Redirect(200, LoggedIn, LoginRedirect(user.value))
  }

  /** An unknown address and a wrong password get the same answer, so the
      reply does not tell which addresses are registered. */
  lemma UnknownUserLikeWrongPassword(email: string, password: string, without: seq<User>, with: seq<User>,
                                     matches: (string, string) -> bool)
    requires email != "" && password != ""
    requires LookupUser(without, email).None?
    requires LookupUser(with, email).Some?
    requires LookupUser(with, email).value.isEmailVerified
    requires !matches(password, LookupUser(with, email).value.passwordHash)
    ensures Login(LoginRequest(Some(email), Some(password)), without, matches)
         == Login(LoginRequest(Some(email), Some(password)), with, matches)
         == Json(401, InvalidCredentials)
  {
  }

  /** An unverified account is sent to verification whatever password is
      given: the password is not even compared. */
  lemma UnverifiedBeforePassword(req: LoginRequest, users: seq<User>, f: (string, string) -> bool, g: (string, string) -> bool)
    requires Present(req.email) && Present(req.password)
    requires LookupUser(users, req.email.value).Some? && !LookupUser(users, req.email.value).value.isEmailVerified
    ensures Login(req, users, f) == Login(req, users, g)
    ensures Login(req, users, f).status == 403
  {
  }

  /** Two addresses that normalise alike log in alike. */
  lemma LoginUsesNormalizedEmail(e1: string, e2: string, password: Option<string>, users: seq<User>,
                                 matches: (string, string) -> bool)
    requires NormalizeEmail(e1) == NormalizeEmail(e2) && e1 != "" && e2 != ""
    ensures Login(LoginRequest(Some(e1), password), users, matches)
         == Login(LoginRequest(Some(e2), password), users, matches)
  {
  }

  /** Any registered, verified user with the right password gets 200. */
  lemma RightPasswordLogsIn(u: User, password: string, users: seq<User>, matches: (string, string) -> bool)
    requires UsersUnique(users) && u in users && u.isEmailVerified && matches(password, u.passwordHash)
    requires u.email != "" && password != "" && NormalizeEmail(u.email) == u.email
    ensures Login(LoginRequest(Some(u.email), Some(password)), users, matches)
         == Redirect(200, LoggedIn, LoginRedirect(u))
  {
    var k :| 0 <= k < |users| && users[k] == u;
    var found := UserByEmail(users, u.email);
    assert found.Some?;
    assert users[found.value].email == users[k].email;
    assert found.value == k;
  }
}
