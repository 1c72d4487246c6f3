/** The four tables the account routes read and write (users, student
    profiles, teacher profiles, e-mail verification tokens) and the writes
    they perform. Each table is a sequence in insertion order; the unique
    constraints of the database are checked by the writes, which fail with a
    unique-constraint error (Prisma's P2002, naming the violated field) and
    leave every table unchanged. Each multi-row write is one transaction. */
module Store {
  import opened Common

  datatype Role = STUDENT | TEACHER | ADMIN | HOD | OtherRole

  datatype User = User(
    id: string, email: string, phone: string, passwordHash: string, role: Role,
    isEmailVerified: bool, isProfileComplete: bool)

  datatype StudentProfile = StudentProfile(
    userId: string, firstName: string, middleName: Option<string>, lastName: string, rollNo: string,
    branchId: string, currentSemesterId: Option<string>, academicYear: Option<string>,
    batch: Option<string>, image: Option<string>)

  datatype TeacherProfile = TeacherProfile(
    userId: string, firstName: string, middleName: Option<string>, lastName: string, cardNo: string,
    departmentId: string, designation: string, specialization: Option<string>, image: Option<string>,
    officeHours: Option<string>, roomNumber: Option<string>)

  /** A one-time code; expiresAt is in milliseconds since the epoch, and the
      position in the table stands for the creation time. */
  datatype VerificationToken = VerificationToken(id: string, userId: string, otp: string, expiresAt: int, used: bool)

  /** P2002 (a unique constraint, with the fields it covers) or a write that
      refers to a user row that does not exist. */
  datatype DbError = UniqueViolation(target: seq<string>) | MissingRecord

  /** The first position whose element satisfies p. */
  function FirstIndex<T>(s: seq<T>, p: T -> bool): (r: Option<nat>)
    ensures r.Some? ==> r.value < |s| && p(s[r.value]) && forall j :: 0 <= j < r.value ==> !p(s[j])
    ensures r.None? ==> forall j :: 0 <= j < |s| ==> !p(s[j])
  {
    if s == [] then None
    else if p(s[0]) then Some(0)
    else
      var r := FirstIndex(s[1..], p);
      if r.Some? then Some(r.value + 1) else None
  }

  /** The last position whose element satisfies p. */
  function LastIndex<T>(s: seq<T>, p: T -> bool): (r: Option<nat>)
    ensures r.Some? ==> r.value < |s| && p(s[r.value]) && forall j :: r.value < j < |s| ==> !p(s[j])
    ensures r.None? ==> forall j :: 0 <= j < |s| ==> !p(s[j])
  {
    if s == [] then None
    else if p(s[|s| - 1]) then Some(|s| - 1)
    else LastIndex(s[..|s| - 1], p)
  }

  predicate UsersUnique(users: seq<User>)
  {
    forall i, j :: 0 <= i < j < |users| ==>
      users[i].id != users[j].id && users[i].email != users[j].email && users[i].phone != users[j].phone
  }

  predicate StudentsUnique(students: seq<StudentProfile>)
  {
    forall i, j :: 0 <= i < j < |students| ==>
      students[i].userId != students[j].userId && students[i].rollNo != students[j].rollNo
  }

  predicate TeachersUnique(teachers: seq<TeacherProfile>)
  {
    forall i, j :: 0 <= i < j < |teachers| ==>
      teachers[i].userId != teachers[j].userId && teachers[i].cardNo != teachers[j].cardNo
  }

  predicate TokensUnique(tokens: seq<VerificationToken>)
  {
    forall i, j :: 0 <= i < j < |tokens| ==> tokens[i].id != tokens[j].id
  }

  /** findUnique by id / email / phone. */
  function UserById(users: seq<User>, id: string): (r: Option<nat>)
    ensures r.Some? ==> r.value < |users| && users[r.value].id == id
    ensures r.None? <==> forall j :: 0 <= j < |users| ==> users[j].id != id
  {
    FirstIndex(users, (u: User) => u.id == id)
  }

  function UserByEmail(users: seq<User>, email: string): (r: Option<nat>)
    ensures r.Some? ==> r.value < |users| && users[r.value].email == email
    ensures r.None? <==> forall j :: 0 <= j < |users| ==> users[j].email != email
  {
    FirstIndex(users, (u: User) => u.email == email)
  }

  function UserByPhone(users: seq<User>, phone: string): (r: Option<nat>)
    ensures r.Some? ==> r.value < |users| && users[r.value].phone == phone
    ensures r.None? <==> forall j :: 0 <= j < |users| ==> users[j].phone != phone
  {
    FirstIndex(users, (u: User) => u.phone == phone)
  }

  /** With unique ids, a user found by id is the only one with that id. */
  lemma UserByIdUnique(users: seq<User>, id: string, k: nat)
    requires UsersUnique(users) && k < |users| && users[k].id == id
    ensures UserById(users, id) == Some(k)
  {
  }

  /** Marking one user complete keeps every id where it was. */
  lemma LookupAfterComplete(users: seq<User>, k: nat, id: string)
    requires UsersUnique(users) && k < |users|
    ensures var after := users[k := users[k].(isProfileComplete := true)];
      UsersUnique(after) && UserById(after, id) == UserById(users, id)
  {
    var after := users[k := users[k].(isProfileComplete := true)];
    var a := UserById(after, id);
    var b := UserById(users, id);
    if a.Some? {
      assert users[a.value].id == id;
      UserByIdUnique(users, id, a.value);
    } else {
      forall j | 0 <= j < |users|
        ensures users[j].id != id
      {
        assert after[j].id == users[j].id;
      }
    }
  }

  predicate StudentExistsForUser(students: seq<StudentProfile>, userId: string)
  {
    exists j :: 0 <= j < |students| && students[j].userId == userId
  }

  predicate StudentExistsWithRoll(students: seq<StudentProfile>, rollNo: string)
  {
    exists j :: 0 <= j < |students| && students[j].rollNo == rollNo
  }

  predicate TeacherExistsForUser(teachers: seq<TeacherProfile>, userId: string)
  {
    exists j :: 0 <= j < |teachers| && teachers[j].userId == userId
  }

  predicate TeacherExistsWithCard(teachers: seq<TeacherProfile>, cardNo: string)
  {
    exists j :: 0 <= j < |teachers| && teachers[j].cardNo == cardNo
  }

  predicate TokenIdTaken(tokens: seq<VerificationToken>, id: string)
  {
    exists j :: 0 <= j < |tokens| && tokens[j].id == id
  }

  /** The unique constraint a new user row would violate, if any. */
  function UserConflict(users: seq<User>, u: User): (e: Option<DbError>)
    ensures e.Some? ==> !UsersUnique(users + [u])
    ensures e.None? && UsersUnique(users) ==> UsersUnique(users + [u])
  {
    var all := users + [u];
    if UserById(users, u.id).Some? then
      assert all[UserById(users, u.id).value].id == all[|users|].id;
      Some(UniqueViolation(["id"]))
    else if UserByEmail(users, u.email).Some? then
      assert all[UserByEmail(users, u.email).value].email == all[|users|].email;
      Some(UniqueViolation(["email"]))
    else if UserByPhone(users, u.phone).Some? then
      assert all[UserByPhone(users, u.phone).value].phone == all[|users|].phone;
      Some(UniqueViolation(["phone"]))
    else None
  }

  /** Why inserting a student profile would fail, if it would: the profile
      unique constraints first, then the foreign key to the user. */
  function StudentProfileConflict(users: seq<User>, students: seq<StudentProfile>, s: StudentProfile): (e: Option<DbError>)
    ensures e.None? <==> (!StudentExistsForUser(students, s.userId) && !StudentExistsWithRoll(students, s.rollNo)
                          && UserById(users, s.userId).Some?)
    ensures e.None? && StudentsUnique(students) ==> StudentsUnique(students + [s])
  {
    if StudentExistsForUser(students, s.userId) then Some(UniqueViolation(["userId"]))
    else if StudentExistsWithRoll(students, s.rollNo) then Some(UniqueViolation(["rollNo"]))
    else if UserById(users, s.userId).None? then Some(MissingRecord)
    else None
  }

  /** Why inserting a teacher profile would fail, if it would. */
  function TeacherProfileConflict(users: seq<User>, teachers: seq<TeacherProfile>, t: TeacherProfile): (e: Option<DbError>)
    ensures e.None? <==> (!TeacherExistsForUser(teachers, t.userId) && !TeacherExistsWithCard(teachers, t.cardNo)
                          && UserById(users, t.userId).Some?)
    ensures e.None? && TeachersUnique(teachers) ==> TeachersUnique(teachers + [t])
  {
    if TeacherExistsForUser(teachers, t.userId) then Some(UniqueViolation(["userId"]))
    else if TeacherExistsWithCard(teachers, t.cardNo) then Some(UniqueViolation(["cardNo"]))
    else if UserById(users, t.userId).None? then Some(MissingRecord)
    else None
  }

  /** findUnique on the teacher table by userId / cardNo. */
  function TeacherByUser(teachers: seq<TeacherProfile>, userId: string): (r: Option<nat>)
    ensures r.Some? ==> r.value < |teachers| && teachers[r.value].userId == userId
    ensures r.None? <==> !TeacherExistsForUser(teachers, userId)
  {
    FirstIndex(teachers, (t: TeacherProfile) => t.userId == userId)
  }

  function TeacherByCard(teachers: seq<TeacherProfile>, cardNo: string): (r: Option<nat>)
    ensures r.Some? ==> r.value < |teachers| && teachers[r.value].cardNo == cardNo
    ensures r.None? <==> !TeacherExistsWithCard(teachers, cardNo)
  {
    FirstIndex(teachers, (t: TeacherProfile) => t.cardNo == cardNo)
  }

  /** Why overwriting row k with t would fail, if it would: another row
      holds its userId or its cardNo. */
  function TeacherUpdateConflict(teachers: seq<TeacherProfile>, k: nat, t: TeacherProfile): (e: Option<DbError>)
    requires k < |teachers|
    ensures e.None? <==> forall j :: 0 <= j < |teachers| && j != k ==>
                           teachers[j].userId != t.userId && teachers[j].cardNo != t.cardNo
    ensures e.None? && TeachersUnique(teachers) ==> TeachersUnique(teachers[k := t])
  {
    if exists j :: 0 <= j < |teachers| && j != k && teachers[j].userId == t.userId then Some(UniqueViolation(["userId"]))
    else if exists j :: 0 <= j < |teachers| && j != k && teachers[j].cardNo == t.cardNo then Some(UniqueViolation(["cardNo"]))
    else None
  }

  /** A user row with the flag set. */
  function WithEmailVerified(u: User): (v: User)
    ensures v == u.(isEmailVerified := true)
  {
    u.(isEmailVerified := true)
  }

  class Database {
    var users: seq<User>
    var students: seq<StudentProfile>
    var teachers: seq<TeacherProfile>
    var tokens: seq<VerificationToken>

    /** Every unique constraint of the schema holds. */
    ghost predicate Valid()
      reads this
    {
      UsersUnique(users) && StudentsUnique(students) && TeachersUnique(teachers) && TokensUnique(tokens)
    }

    constructor()
      ensures users == [] && students == [] && teachers == [] && tokens == []
      ensures Valid()
    {
      users, students, teachers, tokens := [], [], [], [];
    }

    /** user.create */
    method CreateUser(u: User) returns (err: Option<DbError>)
      requires Valid()
      modifies this
      ensures Valid()
      ensures err == UserConflict(old(users), u)
      ensures users == if err.None? then old(users) + [u] else old(users)
      ensures students == old(students) && teachers == old(teachers) && tokens == old(tokens)
    {
      err := UserConflict(users, u);
      if err.None? {
        users := users + [u];
      }
    }

    /** emailVerificationToken.create */
    method CreateToken(t: VerificationToken) returns (err: Option<DbError>)
      requires Valid()
      modifies this
      ensures Valid()
      ensures err.Some? <==> TokenIdTaken(old(tokens), t.id)
      ensures err.Some? ==> err == Some(UniqueViolation(["id"]))
      ensures tokens == if err.None? then old(tokens) + [t] else old(tokens)
      ensures users == old(users) && students == old(students) && teachers == old(teachers)
    {
      if exists j :: 0 <= j < |tokens| && tokens[j].id == t.id {
        err := Some(UniqueViolation(["id"]));
      } else {
        err := None;
        tokens := tokens + [t];
      }
    }

    /** The verification transaction: the user's flag and the token's used
        mark are written together. */
    method VerifyEmail(userIndex: nat, tokenIndex: nat)
      requires Valid()
      requires userIndex < |users| && tokenIndex < |tokens|
      modifies this
      ensures Valid()
      ensures users == old(users)[userIndex := WithEmailVerified(old(users)[userIndex])]
      ensures tokens == old(tokens)[tokenIndex := old(tokens)[tokenIndex].(used := true)]
      ensures students == old(students) && teachers == old(teachers)
    {
      users := users[userIndex := WithEmailVerified(users[userIndex])];
      tokens := tokens[tokenIndex := tokens[tokenIndex].(used := true)];
    }

    /** user.update of row k's role. */
    method SetRole(k: nat, role: Role)
      requires Valid() && k < |users|
      modifies this
      ensures Valid()
      ensures users == old(users)[k := old(users)[k].(role := role)]
      ensures students == old(students) && teachers == old(teachers) && tokens == old(tokens)
    {
      users := users[k := users[k].(role := role)];
    }

    /** The student profile transaction: the profile row is inserted and the
        owning user is flagged complete, or nothing changes. */
    method CreateStudentProfile(s: StudentProfile) returns (err: Option<DbError>)
      requires Valid()
      modifies this
      ensures Valid()
      ensures err == StudentProfileConflict(old(users), old(students), s)
      ensures err.Some? ==> users == old(users) && students == old(students)
      ensures err.None? ==> (students == old(students) + [s]
        && var k := UserById(old(users), s.userId).value;
           users == old(users)[k := old(users)[k].(isProfileComplete := true)])
      ensures teachers == old(teachers) && tokens == old(tokens)
    {
      err := StudentProfileConflict(users, students, s);
      if err.Some? {
        return;
      }
      var k := UserById(users, s.userId);
      students := students + [s];
      users := users[k.value := users[k.value].(isProfileComplete := true)];
    }

    /** teacher.create on its own, as the seed scripts issue it: the user
        row is left as it is. */
    method CreateTeacher(t: TeacherProfile) returns (err: Option<DbError>)
      requires Valid()
      modifies this
      ensures Valid()
      ensures err == TeacherProfileConflict(old(users), old(teachers), t)
      ensures teachers == if err.None? then old(teachers) + [t] else old(teachers)
      ensures users == old(users) && students == old(students) && tokens == old(tokens)
    {
      err := TeacherProfileConflict(users, teachers, t);
      if err.None? {
        teachers := teachers + [t];
      }
    }

    /** teacher.update of row k. */
    method UpdateTeacher(k: nat, t: TeacherProfile) returns (err: Option<DbError>)
      requires Valid() && k < |teachers|
      modifies this
      ensures Valid()
      ensures err == TeacherUpdateConflict(old(teachers), k, t)
      ensures teachers == if err.None? then old(teachers)[k := t] else old(teachers)
      ensures users == old(users) && students == old(students) && tokens == old(tokens)
    {
      err := TeacherUpdateConflict(teachers, k, t);
      if err.None? {
        teachers := teachers[k := t];
      }
    }

    /** The teacher profile transaction. */
    method CreateTeacherProfile(t: TeacherProfile) returns (err: Option<DbError>)
      requires Valid()
      modifies this
      ensures Valid()
      ensures err == TeacherProfileConflict(old(users), old(teachers), t)
      ensures err.Some? ==> users == old(users) && teachers == old(teachers)
      ensures err.None? ==> (teachers == old(teachers) + [t]
        && var k := UserById(old(users), t.userId).value;
           users == old(users)[k := old(users)[k].(isProfileComplete := true)])
      ensures students == old(students) && tokens == old(tokens)
    {
      err := TeacherProfileConflict(users, teachers, t);
      if err.Some? {
        return;
      }
      var k := UserById(users, t.userId);
      teachers := teachers + [t];
      users := users[k.value := users[k.value].(isProfileComplete := true)];
    }
  }
}
