/** POST /api/complete-profile/student: the required fields, the user row
    (it must exist, be a student and not be complete yet), the two duplicate
    checks, then one transaction that inserts the profile and marks the
    user complete. A unique-constraint failure of that transaction on the
    roll number is answered like the roll number pre-check. */
module CompleteStudentProfileRoute {
  import opened Common
  import opened Text
  import opened Http
  import opened Store
  import DashboardPage

  /** The JSON body; every field may be missing. */
  datatype StudentForm = StudentForm(
    userId: Option<string>, firstName: Option<string>, middleName: Option<string>, lastName: Option<string>,
    rollNo: Option<string>, branchId: Option<string>, currentSemesterId: Option<string>,
    academicYear: Option<string>, batch: Option<string>, image: Option<string>)

  datatype StudentDecision = StudentRefused(reply: Reply) | InsertStudent(profile: StudentProfile)

  const MissingFields := "Missing required fields for student profile."
  const NotAStudent := "User not found or not a student."
  const AlreadyCompleted := "Profile is already completed."
  const ProfileExists := "Student profile already exists for this user."
  const RollTaken := "Roll number already exists."
  const Completed := "Student profile completed successfully."
  const WriteFailed := "Something went wrong while completing student profile."

  predicate RequiredPresent(f: StudentForm)
  {
    Present(f.userId) && Present(f.firstName) && Present(f.lastName) && Present(f.rollNo) && Present(f.branchId)
  }

  /** The row written: names and roll number trimmed, a blank middle name
      and the empty optional fields stored as null. */
  function NewStudent(f: StudentForm): (p: StudentProfile)
    requires RequiredPresent(f)
    ensures p.userId == f.userId.value && p.branchId == f.branchId.value
    ensures p.rollNo == Trim(f.rollNo.value) && IsTrimmed(p.rollNo)
    ensures p.firstName == Trim(f.firstName.value) && p.lastName == Trim(f.lastName.value)
    ensures IsTrimmed(p.firstName) && IsTrimmed(p.lastName)
    ensures p.middleName == TrimmedOrNull(f.middleName)
    ensures p.currentSemesterId == OrNull(f.currentSemesterId) && p.academicYear == OrNull(f.academicYear)
    ensures p.batch == OrNull(f.batch) && p.image == OrNull(f.image)
    ensures p.middleName.Some? ==> p.middleName.value != "" && IsTrimmed(p.middleName.value)
    ensures p.currentSemesterId.Some? <==> Present(f.currentSemesterId)
    ensures p.academicYear.Some? <==> Present(f.academicYear)
    ensures p.batch.Some? <==> Present(f.batch)
    ensures p.image.Some? <==> Present(f.image)
  {
    TrimIsTrimmed(f.firstName.value);
    TrimIsTrimmed(f.lastName.value);
    TrimIsTrimmed(f.rollNo.value);
    StudentProfile(
      f.userId.value, Trim(f.firstName.value), TrimmedOrNull(f.middleName), Trim(f.lastName.value),
      Trim(f.rollNo.value), f.branchId.value, OrNull(f.currentSemesterId), OrNull(f.academicYear),
      OrNull(f.batch), OrNull(f.image))
  }

  /** The checks before the write, in the handler's order. The roll number
      pre-check uses the number as typed, not trimmed. */
  function StudentCheck(f: StudentForm, users: seq<User>, students: seq<StudentProfile>): (d: StudentDecision)
    ensures !RequiredPresent(f) <==> d == StudentRefused(Json(400, MissingFields))
    ensures RequiredPresent(f) ==>
      var k := UserById(users, f.userId.value);
      ((k.None? || users[k.value].role != STUDENT) <==> d == StudentRefused(Json(400, NotAStudent)))
      && (k.Some? && users[k.value].role == STUDENT && users[k.value].isProfileComplete ==>
            d == StudentRefused(Json(400, AlreadyCompleted)))
      && (k.Some? && users[k.value].role == STUDENT && !users[k.value].isProfileComplete ==>
            (StudentExistsForUser(students, f.userId.value) ==> d == StudentRefused(Json(400, ProfileExists)))
            && (!StudentExistsForUser(students, f.userId.value) && StudentExistsWithRoll(students, f.rollNo.value) ==>
                  d == StudentRefused(Json(409, RollTaken)))
            && (!StudentExistsForUser(students, f.userId.value) && !StudentExistsWithRoll(students, f.rollNo.value) ==>
                  d == InsertStudent(NewStudent(f))))
    ensures d.InsertStudent? ==>
      RequiredPresent(f) && d.profile == NewStudent(f)
      && UserById(users, f.userId.value).Some?
      && users[UserById(users, f.userId.value).value].role == STUDENT
      && !users[UserById(users, f.userId.value).value].isProfileComplete
      && !StudentExistsForUser(students, f.userId.value) && !StudentExistsWithRoll(students, f.rollNo.value)
  {
    if !RequiredPresent(f) then StudentRefused(Json(400, MissingFields))
    else
      var k := UserById(users, f.userId.value);
      if k.None? || users[k.value].role != STUDENT then StudentRefused(Json(400, NotAStudent))
      else if users[k.value].isProfileComplete then StudentRefused(Json(400, AlreadyCompleted))
      else if StudentExistsForUser(students, f.userId.value) then StudentRefused(Json(400, ProfileExists))
      else if StudentExistsWithRoll(students, f.rollNo.value) then StudentRefused(Json(409, RollTaken))
      else InsertStudent(NewStudent(f))
  }

  /** The catch block: P2002 naming rollNo is 409, anything else 500. */
  function StudentWriteFailure(err: DbError): (r: Reply)
    ensures r.status == 409 <==> err.UniqueViolation? && "rollNo" in err.target
    ensures r.status == 409 ==> r == Json(409, RollTaken)
    ensures r.status != 409 ==> r == Json(500, WriteFailed)
  {
    if err.UniqueViolation? && "rollNo" in err.target then Json(409, RollTaken) else Json(500, WriteFailed)
  }

  method CompleteStudentProfile(db: Database, f: StudentForm) returns (reply: Reply)
    requires db.Valid()
    modifies db
    ensures db.Valid()
    ensures db.teachers == old(db.teachers) && db.tokens == old(db.tokens)
    ensures var d := StudentCheck(f, old(db.users), old(db.students));
      (d.StudentRefused? ==> reply == d.reply && db.users == old(db.users) && db.students == old(db.students))
      && (d.InsertStudent? ==>
            var err := StudentProfileConflict(old(db.users), old(db.students), d.profile);
            (err.Some? ==> reply == StudentWriteFailure(err.value)
                           && db.users == old(db.users) && db.students == old(db.students))
            && (err.None? ==>
                  var k := UserById(old(db.users), f.userId.value).value;
                  reply == Redirect(201, Completed, Path("/dashboard/student"))
                  && db.students == old(db.students) + [d.profile]
                  && db.users == old(db.users)[k := old(db.users)[k].(isProfileComplete := true)]))
  {
    var d := StudentCheck(f, db.users, db.students);
    if d.StudentRefused? {
      return d.reply;
    }
    var err := db.CreateStudentProfile(d.profile);
    if err.Some? {
      return StudentWriteFailure(err.value);
    }
    reply := Redirect(201, Completed, Path("/dashboard/student"));
  }

  /** A roll number typed with surrounding spaces slips past the pre-check
      when its trimmed form is taken, but the insert then fails on the
      unique roll number and the visitor gets the same 409 answer. */
  lemma PaddedRollCaughtByInsert(f: StudentForm, users: seq<User>, students: seq<StudentProfile>)
    requires StudentCheck(f, users, students).InsertStudent?
    requires StudentExistsWithRoll(students, Trim(f.rollNo.value))
    ensures var err := StudentProfileConflict(users, students, StudentCheck(f, users, students).profile);
      err == Some(UniqueViolation(["rollNo"])) && StudentWriteFailure(err.value) == Json(409, RollTaken)
  {
  }

  /** The insert can only fail on the roll number: the user exists and has no
      profile yet. So every failure of a checked request is the 409. */
  lemma CheckedInsertFailsOnlyOnRoll(f: StudentForm, users: seq<User>, students: seq<StudentProfile>)
    requires StudentCheck(f, users, students).InsertStudent?
    ensures var err := StudentProfileConflict(users, students, StudentCheck(f, users, students).profile);
      err.Some? <==> StudentExistsWithRoll(students, Trim(f.rollNo.value))
  {
  }

  /** Sending the same form again after it succeeded is refused: the user
      is now complete. */
  lemma SecondSubmissionRefused(f: StudentForm, users: seq<User>, students: seq<StudentProfile>)
    requires UsersUnique(users)
    requires StudentCheck(f, users, students).InsertStudent?
    requires StudentProfileConflict(users, students, StudentCheck(f, users, students).profile).None?
    ensures var k := UserById(users, f.userId.value).value;
      var users' := users[k := users[k].(isProfileComplete := true)];
      var students' := students + [StudentCheck(f, users, students).profile];
      StudentCheck(f, users', students') == StudentRefused(Json(400, AlreadyCompleted))
  {
    var k := UserById(users, f.userId.value).value;
    LookupAfterComplete(users, k, f.userId.value);
  }

  /** The redirect the route answers with is where the dashboard page sends
      the same user afterwards, once the address is verified. */
  lemma RedirectAgreesWithDashboardPage(f: StudentForm, users: seq<User>, students: seq<StudentProfile>)
    requires UsersUnique(users)
    requires StudentCheck(f, users, students).InsertStudent?
    requires users[UserById(users, f.userId.value).value].isEmailVerified
    ensures var k := UserById(users, f.userId.value).value;
      var users' := users[k := users[k].(isProfileComplete := true)];
      DashboardPage.DashboardRedirect(f.userId, users', false) == "/dashboard/student"
  {
    var k := UserById(users, f.userId.value).value;
    LookupAfterComplete(users, k, f.userId.value);
  }
}
