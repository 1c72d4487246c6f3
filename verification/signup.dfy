/** POST /api/signup: required fields, normalisation, the e-mail and phone
    duplicate checks, the role mapping, then one new (unverified) user row.
    The password hash is computed outside and passed in, and so is the id
    the database gives the new row. */
module SignupRoute {
  import opened Common
  import opened Text
  import opened Http
  import opened Store
  import LoginRoute

  datatype SignupRequest = SignupRequest(
    email: Option<string>, phone: Option<string>, password: Option<string>, role: Option<string>)

  /** Either the reply the checks end in, or the row to create. */
  datatype SignupDecision = Refuse(reply: Reply) | CreateAccount(email: string, phone: string, role: Role)

  const MissingFields := "Missing required fields"
  const NotVerified := "Email already registered but not verified"
  const EmailTaken := "Cannot create account with this email."
  const PhoneTaken := "Phone number already registered"
  const InvalidRole := "Invalid role"
  const AccountCreated := "Account created successfully. Please verify your email."
  const InternalError := "Internal server error"

  /** "student" and "teacher" are the only roles a visitor can sign up for. */
  function MapRole(role: string): (r: Option<Role>)
    ensures r == Some(STUDENT) <==> role == "student"
    ensures r == Some(TEACHER) <==> role == "teacher"
    ensures r.None? <==> role != "student" && role != "teacher"
  {
    if role == "student" then Some(STUDENT) else if role == "teacher" then Some(TEACHER) else None
  }

  function SignupCheck(req: SignupRequest, users: seq<User>): (d: SignupDecision)
    ensures !Present(req.email) || !Present(req.phone) || !Present(req.password) || !Present(req.role) ==>
      d == Refuse(Json(400, MissingFields))
    ensures d.CreateAccount? ==>
      Present(req.email) && Present(req.phone) && Present(req.password) && Present(req.role)
      && d.email == NormalizeEmail(req.email.value) && d.phone == Trim(req.phone.value)
      && UserByEmail(users, d.email).None? && UserByPhone(users, d.phone).None?
      && MapRole(req.role.value) == Some(d.role)
    ensures Present(req.email) && Present(req.phone) && Present(req.password) && Present(req.role) ==>
      var e := UserByEmail(users, NormalizeEmail(req.email.value));
      (e.Some? && !users[e.value].isEmailVerified ==> d == Refuse(Redirect(200, NotVerified, Path("/email-verify"))))
      && (e.Some? && users[e.value].isEmailVerified ==> d == Refuse(Json(409, EmailTaken)))
      && (e.None? && UserByPhone(users, Trim(req.phone.value)).Some? ==> d == Refuse(Json(409, PhoneTaken)))
      && (e.None? && UserByPhone(users, Trim(req.phone.value)).None? && MapRole(req.role.value).None? ==>
            d == Refuse(Json(400, InvalidRole)))
      && (e.None? && UserByPhone(users, Trim(req.phone.value)).None? && MapRole(req.role.value).Some? ==>
            d == CreateAccount(NormalizeEmail(req.email.value), Trim(req.phone.value), MapRole(req.role.value).value))
  {
    if !Present(req.email) || !Present(req.phone) || !Present(req.password) || !Present(req.role) then
      Refuse(Json(400, MissingFields))
    else
      var normalizedEmail := NormalizeEmail(req.email.value);
      var normalizedPhone := Trim(req.phone.value);
      var existing := UserByEmail(users, normalizedEmail);
      if existing.Some? then
        if !users[existing.value].isEmailVerified then Refuse(Redirect(200, NotVerified, Path("/email-verify")))
        else Refuse(Json(409, EmailTaken))
      else if UserByPhone(users, normalizedPhone).Some? then Refuse(Json(409, PhoneTaken))
      else
        var mappedRole := MapRole(req.role.value);
        if mappedRole.None? then Refuse(Json(400, InvalidRole))
        else CreateAccount(normalizedEmail, normalizedPhone, mappedRole.value)
  }

  /** The fields of a unique violation, joined with ", ". */
  function JoinFields(target: seq<string>): string
  {
    if target == [] then "" else if |target| == 1 then target[0] else target[0] + ", " + JoinFields(target[1..])
  }

  /** The reply for a failed write: P2002 becomes 409 naming the fields,
      anything else 500. */
  function WriteFailure(err: DbError): (r: Reply)
    ensures err.UniqueViolation? <==> r.status == 409
    ensures err.MissingRecord? <==> r.status == 500
  {
    match err
    case UniqueViolation(target) => Json(409, "A user with this " + JoinFields(target) + " already exists")
    case MissingRecord => Json(500, InternalError)
  }

  /** The new row: normalised contact data, the mapped role, not yet
      verified, profile not complete. */
  function NewUser(id: string, d: SignupDecision, passwordHash: string): (u: User)
    requires d.CreateAccount?
    ensures u.email == d.email && u.phone == d.phone && u.role == d.role && u.passwordHash == passwordHash
    ensures !u.isEmailVerified && !u.isProfileComplete
  {
    User(id, d.email, d.phone, passwordHash, d.role, false, false)
  }

  method Signup(db: Database, req: SignupRequest, passwordHash: string, newId: string) returns (reply: Reply)
    requires db.Valid()
    modifies db
    ensures db.Valid()
    ensures db.students == old(db.students) && db.teachers == old(db.teachers) && db.tokens == old(db.tokens)
    ensures var d := SignupCheck(req, old(db.users));
      (d.Refuse? ==> reply == d.reply && db.users == old(db.users))
      && (d.CreateAccount? ==>
            var u := NewUser(newId, d, passwordHash);
            var err := UserConflict(old(db.users), u);
            (err.None? ==> reply == Redirect(201, AccountCreated, Path("/email-verify"))
                           && db.users == old(db.users) + [u])
            && (err.Some? ==> reply == WriteFailure(err.value) && db.users == old(db.users)))
  {
    var d := SignupCheck(req, db.users);
    if d.Refuse? {
      return d.reply;
    }
    var err := db.CreateUser(User(newId, d.email, d.phone, passwordHash, d.role, false, false));
    if err.Some? {
      return WriteFailure(err.value);
    }
    reply := Redirect(201, AccountCreated, Path("/email-verify"));
  }

  /** Once the checks pass, the new row can only clash on its id: its e-mail
      and phone were just found free. */
  lemma OnlyIdCanClash(req: SignupRequest, users: seq<User>, passwordHash: string, newId: string)
    requires SignupCheck(req, users).CreateAccount?
    ensures var u := NewUser(newId, SignupCheck(req, users), passwordHash);
      UserConflict(users, u) == None || UserConflict(users, u) == Some(UniqueViolation(["id"]))
  {
  }

  /** A new account is found again by the login lookup under any spelling of
      its address that normalises alike, and is asked to verify first. */
  lemma SignupThenLogin(req: SignupRequest, users: seq<User>, passwordHash: string, newId: string,
                        typed: string, password: string, matches: (string, string) -> bool)
    requires SignupCheck(req, users).CreateAccount?
    requires UserConflict(users, NewUser(newId, SignupCheck(req, users), passwordHash)).None?
    requires typed != "" && password != "" && NormalizeEmail(typed) == NormalizeEmail(req.email.value)
    ensures var u := NewUser(newId, SignupCheck(req, users), passwordHash);
      LoginRoute.LookupUser(users + [u], typed) == Some(u)
      && LoginRoute.Login(LoginRoute.LoginRequest(Some(typed), Some(password)), users + [u], matches).status == 403
  {
    var d := SignupCheck(req, users);
    var u := NewUser(newId, d, passwordHash);
    NormalizeEmailIdempotent(req.email.value);
    var k := UserByEmail(users + [u], NormalizeEmail(typed));
    assert (users + [u])[|users|] == u;
    assert k.Some?;
    assert k.value == |users|;
  }

  /** Signing up again with an address whose account is still unverified
      sends the visitor to verification and creates nothing. */
  lemma RepeatedSignupGoesToVerification(req: SignupRequest, users: seq<User>, passwordHash: string, newId: string)
    requires SignupCheck(req, users).CreateAccount?
    requires UserConflict(users, NewUser(newId, SignupCheck(req, users), passwordHash)).None?
    ensures SignupCheck(req, users + [NewUser(newId, SignupCheck(req, users), passwordHash)])
         == Refuse(Redirect(200, NotVerified, Path("/email-verify")))
  {
    var d := SignupCheck(req, users);
    var u := NewUser(newId, d, passwordHash);
    var k := UserByEmail(users + [u], d.email);
    assert (users + [u])[|users|] == u;
    assert k.Some?;
    assert k.value == |users|;
  }
}
