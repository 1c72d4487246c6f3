/** POST /api/complete-profile/teacher: the same chain as the student
    route, over the teacher table, with the card number in place of the
    roll number. */
module CompleteTeacherProfileRoute {
  import opened Common
  import opened Text
  import opened Http
  import opened Store
  import DashboardPage

  /** The JSON body; every field may be missing. */
  datatype TeacherForm = TeacherForm(
    userId: Option<string>, firstName: Option<string>, middleName: Option<string>, lastName: Option<string>,
    cardNo: Option<string>, departmentId: Option<string>, designation: Option<string>,
    specialization: Option<string>, image: Option<string>, officeHours: Option<string>,
    roomNumber: Option<string>)

  datatype TeacherDecision = TeacherRefused(reply: Reply) | InsertTeacher(profile: TeacherProfile)

  const MissingFields := "Missing required fields for teacher profile."
  const NotATeacher := "User not found or not a teacher."
  const AlreadyCompleted := "Profile is already completed."
  const ProfileExists := "Teacher profile already exists for this user."
  const CardTaken := "Card number already exists."
  const Completed := "Teacher profile completed successfully."
  const WriteFailed := "Something went wrong while completing teacher profile."

  predicate RequiredPresent(f: TeacherForm)
  {
    Present(f.userId) && Present(f.firstName) && Present(f.lastName) && Present(f.cardNo)
    && Present(f.departmentId) && Present(f.designation)
  }

  /** The row written: names, card number and designation trimmed, a blank
      middle name or specialization and the empty optional fields stored as
      null. */
  function NewTeacher(f: TeacherForm): (p: TeacherProfile)
    requires RequiredPresent(f)
    ensures p.userId == f.userId.value && p.departmentId == f.departmentId.value
    ensures p.cardNo == Trim(f.cardNo.value) && IsTrimmed(p.cardNo)
    ensures p.firstName == Trim(f.firstName.value) && p.lastName == Trim(f.lastName.value)
    ensures p.designation == Trim(f.designation.value)
    ensures IsTrimmed(p.firstName) && IsTrimmed(p.lastName) && IsTrimmed(p.designation)
    ensures p.middleName == TrimmedOrNull(f.middleName) && p.specialization == TrimmedOrNull(f.specialization)
    ensures p.image == OrNull(f.image) && p.officeHours == OrNull(f.officeHours)
    ensures p.roomNumber == OrNull(f.roomNumber)
    ensures p.middleName.Some? ==> p.middleName.value != "" && IsTrimmed(p.middleName.value)
    ensures p.specialization.Some? ==> p.specialization.value != "" && IsTrimmed(p.specialization.value)
    ensures p.image.Some? <==> Present(f.image)
    ensures p.officeHours.Some? <==> Present(f.officeHours)
    ensures p.roomNumber.Some? <==> Present(f.roomNumber)
  {
    TrimIsTrimmed(f.firstName.value);
    TrimIsTrimmed(f.lastName.value);
    TrimIsTrimmed(f.cardNo.value);
    TrimIsTrimmed(f.designation.value);
    TeacherProfile(
      f.userId.value, Trim(f.firstName.value), TrimmedOrNull(f.middleName), Trim(f.lastName.value),
      Trim(f.cardNo.value), f.departmentId.value, Trim(f.designation.value), TrimmedOrNull(f.specialization),
      OrNull(f.image), OrNull(f.officeHours), OrNull(f.roomNumber))
  }

  /** The checks before the write, in the handler's order. The card number
      pre-check uses the number as typed, not trimmed. */
  function TeacherCheck(f: TeacherForm, users: seq<User>, teachers: seq<TeacherProfile>): (d: TeacherDecision)
    ensures !RequiredPresent(f) <==> d == TeacherRefused(Json(400, MissingFields))
    ensures RequiredPresent(f) ==>
      var k := UserById(users, f.userId.value);
      ((k.None? || users[k.value].role != TEACHER) <==> d == TeacherRefused(Json(400, NotATeacher)))
      && (k.Some? && users[k.value].role == TEACHER && users[k.value].isProfileComplete ==>
            d == TeacherRefused(Json(400, AlreadyCompleted)))
      && (k.Some? && users[k.value].role == TEACHER && !users[k.value].isProfileComplete ==>
            (TeacherExistsForUser(teachers, f.userId.value) ==> d == TeacherRefused(Json(400, ProfileExists)))
            && (!TeacherExistsForUser(teachers, f.userId.value) && TeacherExistsWithCard(teachers, f.cardNo.value) ==>
                  d == TeacherRefused(Json(409, CardTaken)))
            && (!TeacherExistsForUser(teachers, f.userId.value) && !TeacherExistsWithCard(teachers, f.cardNo.value) ==>
                  d == InsertTeacher(NewTeacher(f))))
    ensures d.InsertTeacher? ==>
      RequiredPresent(f) && d.profile == NewTeacher(f)
      && UserById(users, f.userId.value).Some?
      && users[UserById(users, f.userId.value).value].role == TEACHER
      && !users[UserById(users, f.userId.value).value].isProfileComplete
      && !TeacherExistsForUser(teachers, f.userId.value) && !TeacherExistsWithCard(teachers, f.cardNo.value)
  {
    if !RequiredPresent(f) then TeacherRefused(Json(400, MissingFields))
    else
      var k := UserById(users, f.userId.value);
      if k.None? || users[k.value].role != TEACHER then TeacherRefused(Json(400, NotATeacher))
      else if users[k.value].isProfileComplete then TeacherRefused(Json(400, AlreadyCompleted))
      else if TeacherExistsForUser(teachers, f.userId.value) then TeacherRefused(Json(400, ProfileExists))
      else if TeacherExistsWithCard(teachers, f.cardNo.value) then TeacherRefused(Json(409, CardTaken))
      else InsertTeacher(NewTeacher(f))
  }

  /** The catch block: P2002 naming cardNo is 409, anything else 500. */
  function TeacherWriteFailure(err: DbError): (r: Reply)
    ensures r.status == 409 <==> err.UniqueViolation? && "cardNo" in err.target
    ensures r.status == 409 ==> r == Json(409, CardTaken)
    ensures r.status != 409 ==> r == Json(500, WriteFailed)
  {
    if err.UniqueViolation? && "cardNo" in err.target then Json(409, CardTaken) else Json(500, WriteFailed)
  }

  method CompleteTeacherProfile(db: Database, f: TeacherForm) returns (reply: Reply)
    requires db.Valid()
    modifies db
    ensures db.Valid()
    ensures db.students == old(db.students) && db.tokens == old(db.tokens)
    ensures var d := TeacherCheck(f, old(db.users), old(db.teachers));
      (d.TeacherRefused? ==> reply == d.reply && db.users == old(db.users) && db.teachers == old(db.teachers))
      && (d.InsertTeacher? ==>
            var err := TeacherProfileConflict(old(db.users), old(db.teachers), d.profile);
            (err.Some? ==> reply == TeacherWriteFailure(err.value)
                           && db.users == old(db.users) && db.teachers == old(db.teachers))
            && (err.None? ==>
                  var k := UserById(old(db.users), f.userId.value).value;
                  reply == Redirect(201, Completed, Path("/dashboard/teacher"))
                  && db.teachers == old(db.teachers) + [d.profile]
                  && db.users == old(db.users)[k := old(db.users)[k].(isProfileComplete := true)]))
  {
    var d := TeacherCheck(f, db.users, db.teachers);
    if d.TeacherRefused? {
      return d.reply;
    }
    var err := db.CreateTeacherProfile(d.profile);
    if err.Some? {
      return TeacherWriteFailure(err.value);
    }
    reply := Redirect(201, Completed, Path("/dashboard/teacher"));
  }

  /** A card number typed with surrounding spaces slips past the pre-check
      when its trimmed form is taken, but the insert then fails on the
      unique card number and the visitor gets the same 409 answer. */
  lemma PaddedCardCaughtByInsert(f: TeacherForm, users: seq<User>, teachers: seq<TeacherProfile>)
    requires TeacherCheck(f, users, teachers).InsertTeacher?
    requires TeacherExistsWithCard(teachers, Trim(f.cardNo.value))
    ensures var err := TeacherProfileConflict(users, teachers, TeacherCheck(f, users, teachers).profile);
      err == Some(UniqueViolation(["cardNo"])) && TeacherWriteFailure(err.value) == Json(409, CardTaken)
  {
  }

  /** The insert can only fail on the card number: the user exists and has
      no profile yet. So every failure of a checked request is the 409. */
  lemma CheckedInsertFailsOnlyOnCard(f: TeacherForm, users: seq<User>, teachers: seq<TeacherProfile>)
    requires TeacherCheck(f, users, teachers).InsertTeacher?
    ensures var err := TeacherProfileConflict(users, teachers, TeacherCheck(f, users, teachers).profile);
      err.Some? <==> TeacherExistsWithCard(teachers, Trim(f.cardNo.value))
  {
  }

  /** Sending the same form again after it succeeded is refused: the user
      is now complete. */
  lemma SecondSubmissionRefused(f: TeacherForm, users: seq<User>, teachers: seq<TeacherProfile>)
    requires UsersUnique(users)
    requires TeacherCheck(f, users, teachers).InsertTeacher?
    requires TeacherProfileConflict(users, teachers, TeacherCheck(f, users, teachers).profile).None?
    ensures var k := UserById(users, f.userId.value).value;
      var users' := users[k := users[k].(isProfileComplete := true)];
      var teachers' := teachers + [TeacherCheck(f, users, teachers).profile];
      TeacherCheck(f, users', teachers') == TeacherRefused(Json(400, AlreadyCompleted))
  {
    var k := UserById(users, f.userId.value).value;
    LookupAfterComplete(users, k, f.userId.value);
  }

  /** The redirect the route answers with is where the dashboard page sends
      the same user afterwards, once the address is verified. */
  lemma RedirectAgreesWithDashboardPage(f: TeacherForm, users: seq<User>, teachers: seq<TeacherProfile>)
    requires UsersUnique(users)
    requires TeacherCheck(f, users, teachers).InsertTeacher?
    requires users[UserById(users, f.userId.value).value].isEmailVerified
    ensures var k := UserById(users, f.userId.value).value;
      var users' := users[k := users[k].(isProfileComplete := true)];
      DashboardPage.DashboardRedirect(f.userId, users', false) == "/dashboard/teacher"
  {
    var k := UserById(users, f.userId.value).value;
    LookupAfterComplete(users, k, f.userId.value);
  }
}
