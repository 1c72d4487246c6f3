/** The fifth-semester seed script: for each of eleven subjects it upserts
    the teacher's user by e-mail, finds or creates the teacher profile under
    a card number derived from the subject code, upserts the subject and the
    student's enrollment, and writes twelve sessions with the student's
    marks. The department, branch, semester and student rows are inputs
    (their ids); the random phone draw, the id a new user row gets and the
    clock reading taken for each subject are inputs per subject. */
module FiveSemSeed {
  import opened Common
  import opened Text
  import opened Draws
  import opened Store
  import opened SeedIdentity
  import opened SubjectSeed
  import opened SessionSeed

  datatype TeacherSpec = TeacherSpec(first: string, last: string, email: string)

  datatype FiveSemSubject = FiveSemSubject(code: string, name: string, isLab: bool, credits: int, teacher: TeacherSpec)

  const BP := TeacherSpec("Bhupendra", "Pandey", "bp@campus.test")
  const BH := TeacherSpec("Bipin", "Humagain", "bh@campus.test")
  const PA := TeacherSpec("Prakash", "Adhikari", "pa@campus.test")
  const RKC := TeacherSpec("Ramesh", "K.C.", "rkc@campus.test")
  const BS := TeacherSpec("Bishnu", "Sharma", "bs@campus.test")
  const KK := TeacherSpec("Kamal", "Koirala", "kk@campus.test")

  /** The subjects of the semester, in the order they are seeded. */
  const FiveSemSubjects: seq<FiveSemSubject> := [
    FiveSemSubject("OS", "Operating Systems", false, 4, BP),
    FiveSemSubject("COA", "Computer Organization & Architecture", false, 4, BH),
    FiveSemSubject("CN", "Computer Networks", false, 4, PA),
    FiveSemSubject("DBMS", "Database Management System", false, 4, RKC),
    FiveSemSubject("FD", "Filter Design", false, 3, BS),
    FiveSemSubject("EE", "Engineering Economics", false, 3, KK),
    FiveSemSubject("CN-LAB", "Computer Networks Lab", true, 1, PA),
    FiveSemSubject("DBMS-LAB", "Database Management System Lab", true, 1, RKC),
    FiveSemSubject("OS-LAB", "Operating Systems Lab", true, 1, BP),
    FiveSemSubject("COA-LAB", "COA Lab", true, 1, BH),
    FiveSemSubject("FD-LAB", "Filter Design Lab", true, 1, BS)
  ]

  // ---------------------------------------------------------------------
  // Card numbers
  // ---------------------------------------------------------------------

  /** The characters `[a-z0-9]` that survive the clean-up. */
  predicate IsCardChar(c: char)
  {
    'a' <= c <= 'z' || '0' <= c <= '9'
  }

  /** `replace(/[^a-z0-9]/g, "")`: every other character is dropped. */
  function KeepCardChars(s: string): (r: string)
    ensures |r| <= |s|
    ensures forall i :: 0 <= i < |r| ==> IsCardChar(r[i])
    ensures (forall i :: 0 <= i < |s| ==> IsCardChar(s[i])) ==> r == s
  {
    if s == [] then []
    else
      var rest := KeepCardChars(s[1..]);
      if IsCardChar(s[0]) then [s[0]] + rest else rest
  }

  /** Exactly the card characters of s survive. */
  lemma {:induction false} KeepCardCharsMembers(s: string, c: char)
    ensures c in KeepCardChars(s) <==> c in s && IsCardChar(c)
  {
    if s != [] {
      KeepCardCharsMembers(s[1..], c);
      assert c in s <==> c == s[0] || c in s[1..];
    }
  }

  /** The filter works character by character. */
  lemma {:induction false} KeepCardCharsAppend(a: string, b: string)
    ensures KeepCardChars(a + b) == KeepCardChars(a) + KeepCardChars(b)
  {
    if a == [] {
      assert a + b == b;
    } else {
      assert (a + b)[1..] == a[1..] + b;
      KeepCardCharsAppend(a[1..], b);
    }
  }

  predicate IsUpperCode(s: string)
  {
    forall i :: 0 <= i < |s| ==> 'A' <= s[i] <= 'Z'
  }

  /** A code of capital letters only is lowered and kept whole. */
  lemma UpperCardNo(code: string)
    requires IsUpperCode(code)
    ensures CardNoFor(code) == "t_" + Lower(code)
  {
  }

  /** Case folding works character by character. */
  lemma LowerAppend(a: string, b: string)
    ensures Lower(a + b) == Lower(a) + Lower(b)
  {
  }

  /** The lab suffix folds to "-lab" and keeps "lab". */
  lemma LabSuffix()
    ensures Lower("-LAB") == "-lab" && KeepCardChars("-lab") == "lab"
  {
    assert Lower("-LAB") == "-lab";
    assert KeepCardChars("b") == "b";
    assert KeepCardChars("ab") == "ab";
    assert KeepCardChars("lab") == "lab";
  }

  /** The lab code's card is the lecture's card followed by "lab". */
  lemma LabCardNo(code: string)
    ensures CardNoFor(code + "-LAB") == CardNoFor(code) + "lab"
  {
    LowerAppend(code, "-LAB");
    LabSuffix();
    KeepCardCharsAppend(Lower(code), "-lab");
  }

  /** `t_${code.toLowerCase().replace(/[^a-z0-9]/g, "")}` */
  function CardNoFor(code: string): (card: string)
    ensures |card| >= 2 && card[..2] == "t_"
    ensures forall i :: 2 <= i < |card| ==> IsCardChar(card[i])
    ensures |card| <= |code| + 2
  {
    "t_" + KeepCardChars(Lower(code))
  }

  /** The card number ignores case: upper and lower case codes share it. */
  lemma CardNoIgnoresCase(code: string)
    ensures CardNoFor(Lower(code)) == CardNoFor(code)
  {
    LowerIdempotent(code);
  }

  /** The Computer Networks lab is issued the card "t_cnlab". */
  lemma CardNoExamples()
    ensures CardNoFor("CN-LAB") == "t_cnlab"
  {
    CnLiterals();
    LabCardNo("CN");
    UpperCardNo("CN");
  }

  lemma CnLiterals()
    ensures Lower("CN") == "cn" && "CN" + "-LAB" == "CN-LAB" && "t_" + "cn" + "lab" == "t_cnlab"
  {
    assert LowerChar('C') == 'c' && LowerChar('N') == 'n';
  }

  /** A hyphen in a code is dropped, so codes that differ only by one
      share a card number. */
  lemma CardNoDropsHyphen(a: string, b: string)
    ensures CardNoFor(a + "-" + b) == CardNoFor(a + b)
  {
    var la, lb := Lower(a), Lower(b);
    LowerAroundHyphen(a, b);
    LowerAppend(a, b);
    DropHyphen(la, lb);
  }

  lemma LowerAroundHyphen(a: string, b: string)
    ensures Lower(a + "-" + b) == Lower(a) + "-" + Lower(b)
  {
    LowerAppend(a + "-", b);
    LowerAppend(a, "-");
    assert Lower("-") == "-";
  }

  lemma DropHyphen(a: string, b: string)
    ensures KeepCardChars(a + "-" + b) == KeepCardChars(a + b)
  {
    KeepCardCharsAppend(a + "-", b);
    KeepCardCharsAppend(a, "-");
    KeepCardCharsAppend(a, b);
    assert KeepCardChars("-") == "";
  }

  /** The lecture codes, and the lectures that have a lab, in order. */
  const LectureCodes: seq<string> := ["OS", "COA", "CN", "DBMS", "FD", "EE"]
  const LabBases: seq<string> := ["CN", "DBMS", "OS", "COA", "FD"]

  /** The subject list is the lectures followed by their labs. */
  lemma FiveSemCodes()
    ensures |FiveSemSubjects| == |LectureCodes| + |LabBases|
    ensures forall i :: 0 <= i < |LectureCodes| ==> FiveSemSubjects[i].code == LectureCodes[i]
    ensures forall k :: 0 <= k < |LabBases| ==> FiveSemSubjects[|LectureCodes| + k].code == LabBases[k] + "-LAB"
  {
  }

  lemma CodeListsShape()
    ensures forall i :: 0 <= i < |LectureCodes| ==> IsUpperCode(LectureCodes[i]) && 2 <= |LectureCodes[i]| <= 4
    ensures forall k :: 0 <= k < |LabBases| ==> IsUpperCode(LabBases[k]) && 2 <= |LabBases[k]|
    ensures forall i, j :: 0 <= i < j < |LectureCodes| ==> LectureCodes[i] != LectureCodes[j]
    ensures forall k, m :: 0 <= k < m < |LabBases| ==> LabBases[k] != LabBases[m]
  {
  }

  /** Lowering is one-to-one on capital-letter codes. */
  lemma LowerUpperInjective(x: string, y: string)
    requires IsUpperCode(x) && IsUpperCode(y) && Lower(x) == Lower(y)
    ensures x == y
  {
    forall i | 0 <= i < |x|
      ensures x[i] == y[i]
    {
      assert LowerChar(x[i]) == LowerChar(y[i]);
    }
  }

  /** No two subjects of the semester share a card number. */
  lemma FiveSemCardsDistinct()
    ensures forall i, j :: 0 <= i < j < |FiveSemSubjects| ==>
      CardNoFor(FiveSemSubjects[i].code) != CardNoFor(FiveSemSubjects[j].code)
  {
    FiveSemCodes();
    CodeListsShape();
    var n := |LectureCodes|;
    forall i, j | 0 <= i < j < |FiveSemSubjects|
      ensures CardNoFor(FiveSemSubjects[i].code) != CardNoFor(FiveSemSubjects[j].code)
    {
      if j < n {
        UpperCardNo(LectureCodes[i]);
        UpperCardNo(LectureCodes[j]);
        if Lower(LectureCodes[i]) == Lower(LectureCodes[j]) {
          LowerUpperInjective(LectureCodes[i], LectureCodes[j]);
        }
        assert ("t_" + Lower(LectureCodes[i]))[2..] == Lower(LectureCodes[i]);
        assert ("t_" + Lower(LectureCodes[j]))[2..] == Lower(LectureCodes[j]);
      } else if i < n {
        UpperCardNo(LectureCodes[i]);
        LabCardNo(LabBases[j - n]);
        UpperCardNo(LabBases[j - n]);
      } else {
        var a, b := LabBases[i - n], LabBases[j - n];
        LabCardNo(a);
        LabCardNo(b);
        UpperCardNo(a);
        UpperCardNo(b);
        if Lower(a) == Lower(b) {
          LowerUpperInjective(a, b);
        }
        assert ("t_" + Lower(a) + "lab")[2..|a| + 2] == Lower(a);
        assert ("t_" + Lower(b) + "lab")[2..|b| + 2] == Lower(b);
      }
    }
  }

  // ---------------------------------------------------------------------
  // Teacher user and profile
  // ---------------------------------------------------------------------

  /** The user row created when the address is unknown. */
  function NewTeacherUser(email: string, phoneDraw: real, newId: string): (u: User)
    requires IsDraw(phoneDraw)
    ensures u.id == newId && u.email == email && u.role == TEACHER && u.isEmailVerified
    ensures IsPhoneBase(u.phone) && u.passwordHash == "teacherSeedPass"
  {
    User(newId, email, PhoneBase(phoneDraw), "teacherSeedPass", TEACHER, true, false)
  }

  /** user.upsert on the e-mail: an existing row only has its role set to
      TEACHER; otherwise a new verified TEACHER row is created (a taken id
      or phone makes the write fail). The id of the row, or None. */
  method UpsertTeacherUser(db: Database, email: string, phoneDraw: real, newId: string)
    returns (userId: Option<string>)
    requires db.Valid() && IsDraw(phoneDraw)
    modifies db
    ensures db.Valid()
    ensures db.students == old(db.students) && db.teachers == old(db.teachers) && db.tokens == old(db.tokens)
    ensures var k := UserByEmail(old(db.users), email);
      (k.Some? ==> userId == Some(old(db.users)[k.value].id)
                   && db.users == old(db.users)[k.value := old(db.users)[k.value].(role := TEACHER)])
      && (k.None? ==> var u := NewTeacherUser(email, phoneDraw, newId);
            if UserConflict(old(db.users), u).None? then userId == Some(newId) && db.users == old(db.users) + [u]
            else userId.None? && db.users == old(db.users))
    ensures userId.Some? ==>
      var j := UserByEmail(db.users, email);
      j.Some? && db.users[j.value].id == userId.value && db.users[j.value].role == TEACHER
  {
    var k := UserByEmail(db.users, email);
    if k.Some? {
      userId := Some(db.users[k.value].id);
      db.SetRole(k.value, TEACHER);
      assert db.users[k.value].email == email;
      UserByEmailUnique(db.users, email, k.value);
      return;
    }
    var u := NewTeacherUser(email, phoneDraw, newId);
    var err := db.CreateUser(u);
    if err.Some? {
      return None;
    }
    UserByEmailUnique(db.users, email, |db.users| - 1);
    userId := Some(newId);
  }

  /** With unique addresses, the lookup by e-mail finds the one row. */
  lemma UserByEmailUnique(users: seq<User>, email: string, k: nat)
    requires UsersUnique(users) && k < |users| && users[k].email == email
    ensures UserByEmail(users, email) == Some(k)
  {
  }

  /** The row the script writes to: the user's teacher profile, else the
      profile that holds the card. */
  function TeacherTarget(teachers: seq<TeacherProfile>, userId: string, cardNo: string): (r: Option<nat>)
    ensures r.None? <==> !TeacherExistsForUser(teachers, userId) && !TeacherExistsWithCard(teachers, cardNo)
    ensures r.Some? ==> r.value < |teachers|
    ensures r.Some? && TeacherExistsForUser(teachers, userId) ==> teachers[r.value].userId == userId
    ensures r.Some? && !TeacherExistsForUser(teachers, userId) ==> teachers[r.value].cardNo == cardNo
  {
    var byUser := TeacherByUser(teachers, userId);
    if byUser.Some? then byUser else TeacherByCard(teachers, cardNo)
  }

  /** The update: the seeded fields overwritten, the middle name,
      specialisation, office hours and room kept. */
  function Refreshed(t: TeacherProfile, userId: string, cardNo: string, first: string, last: string,
                     departmentId: string): (r: TeacherProfile)
    ensures r.userId == userId && r.cardNo == cardNo && r.firstName == first && r.lastName == last
    ensures r.designation == "Lecturer" && r.departmentId == departmentId && r.image == Some("placeholder.jpg")
    ensures r.middleName == t.middleName && r.specialization == t.specialization
    ensures r.officeHours == t.officeHours && r.roomNumber == t.roomNumber
  {
    t.(userId := userId, cardNo := cardNo, firstName := first, lastName := last, designation := "Lecturer",
       departmentId := departmentId, image := Some("placeholder.jpg"))
  }

  /** The create: the same fields, nothing else set. */
  function NewTeacher(userId: string, cardNo: string, first: string, last: string, departmentId: string): (r: TeacherProfile)
    ensures r == Refreshed(r, userId, cardNo, first, last, departmentId)
    ensures r.middleName.None? && r.specialization.None? && r.officeHours.None? && r.roomNumber.None?
  {
    TeacherProfile(userId, first, None, last, cardNo, departmentId, "Lecturer", None, Some("placeholder.jpg"), None, None)
  }

  /** The seeded fields of a profile, as the script writes them. */
  predicate SeededTeacher(t: TeacherProfile, userId: string, cardNo: string, first: string, last: string,
                          departmentId: string)
  {
    t.userId == userId && t.cardNo == cardNo && t.firstName == first && t.lastName == last
    && t.designation == "Lecturer" && t.departmentId == departmentId && t.image == Some("placeholder.jpg")
  }

  datatype TeacherWrite = TeacherWrite(err: Option<DbError>, teachers: seq<TeacherProfile>)

  /** Find or create: the error of the write and the new table. */
  function WriteTeacher(users: seq<User>, teachers: seq<TeacherProfile>, userId: string, cardNo: string,
                        first: string, last: string, departmentId: string): TeacherWrite
  {
    var k := TeacherTarget(teachers, userId, cardNo);
    if k.Some? then
      var t := Refreshed(teachers[k.value], userId, cardNo, first, last, departmentId);
      var e := TeacherUpdateConflict(teachers, k.value, t);
      TeacherWrite(e, if e.None? then teachers[k.value := t] else teachers)
    else
      var t := NewTeacher(userId, cardNo, first, last, departmentId);
      var e := TeacherProfileConflict(users, teachers, t);
      TeacherWrite(e, if e.None? then teachers + [t] else teachers)
  }

  /** A write that succeeds leaves exactly one profile for the user, with
      the seeded fields; it adds a row only when neither the user nor the
      card had one. A failed write changes nothing. */
  lemma WriteTeacherResult(users: seq<User>, teachers: seq<TeacherProfile>, userId: string, cardNo: string,
                           first: string, last: string, departmentId: string)
    requires TeachersUnique(teachers)
    ensures var w := WriteTeacher(users, teachers, userId, cardNo, first, last, departmentId);
      (w.err.Some? ==> w.teachers == teachers)
      && (w.err.None? ==>
            TeachersUnique(w.teachers)
            && TeacherByUser(w.teachers, userId).Some?
            && SeededTeacher(w.teachers[TeacherByUser(w.teachers, userId).value], userId, cardNo, first, last, departmentId)
            && (|w.teachers| == |teachers| + 1 <==>
                  !TeacherExistsForUser(teachers, userId) && !TeacherExistsWithCard(teachers, cardNo))
            && |teachers| <= |w.teachers| <= |teachers| + 1)
  {
    var w := WriteTeacher(users, teachers, userId, cardNo, first, last, departmentId);
    var k := TeacherTarget(teachers, userId, cardNo);
    if w.err.None? {
      var at := if k.Some? then k.value else |teachers|;
      assert w.teachers[at].userId == userId;
      TeacherByUserUnique(w.teachers, userId, at);
    }
  }

  /** With unique user ids, the lookup finds the one row. */
  lemma TeacherByUserUnique(teachers: seq<TeacherProfile>, userId: string, k: nat)
    requires TeachersUnique(teachers) && k < |teachers| && teachers[k].userId == userId
    ensures TeacherByUser(teachers, userId) == Some(k)
  {
  }

  /** A user who already has a profile keeps its row, its position and the
      fields the script does not write. */
  lemma WriteTeacherKeepsProfile(users: seq<User>, teachers: seq<TeacherProfile>, userId: string, cardNo: string,
                                 first: string, last: string, departmentId: string, k: nat)
    requires TeachersUnique(teachers) && k < |teachers| && teachers[k].userId == userId
    ensures var w := WriteTeacher(users, teachers, userId, cardNo, first, last, departmentId);
      |w.teachers| == |teachers|
      && (w.err.None? ==>
            w.teachers[k].middleName == teachers[k].middleName
            && w.teachers[k].specialization == teachers[k].specialization
            && w.teachers[k].officeHours == teachers[k].officeHours
            && w.teachers[k].roomNumber == teachers[k].roomNumber
            && forall j :: 0 <= j < |teachers| && j != k ==> w.teachers[j] == teachers[j])
  {
    TeacherByUserUnique(teachers, userId, k);
  }

  /** Running the write again with the same values finds the row by the
      user and changes nothing: the step is idempotent. */
  lemma WriteTeacherIdempotent(users: seq<User>, teachers: seq<TeacherProfile>, userId: string, cardNo: string,
                               first: string, last: string, departmentId: string)
    requires TeachersUnique(teachers)
    requires WriteTeacher(users, teachers, userId, cardNo, first, last, departmentId).err.None?
    ensures var w := WriteTeacher(users, teachers, userId, cardNo, first, last, departmentId);
      WriteTeacher(users, w.teachers, userId, cardNo, first, last, departmentId) == TeacherWrite(None, w.teachers)
  {
    var w := WriteTeacher(users, teachers, userId, cardNo, first, last, departmentId);
    WriteTeacherResult(users, teachers, userId, cardNo, first, last, departmentId);
    var k := TeacherByUser(w.teachers, userId).value;
    var row := w.teachers[k];
    assert Refreshed(row, userId, cardNo, first, last, departmentId) == row;
    assert TeacherTarget(w.teachers, userId, cardNo) == Some(k);
    assert TeacherUpdateConflict(w.teachers, k, row).None?;
    assert w.teachers[k := row] == w.teachers;
  }

  /** A teacher met again for a later subject moves to that subject's card:
      no row is added and the earlier card is free afterwards. */
  lemma SharedTeacherTakesLastCard(users: seq<User>, teachers: seq<TeacherProfile>, userId: string,
                                   card1: string, card2: string, first: string, last: string, departmentId: string)
    requires TeachersUnique(teachers) && card1 != card2
    requires WriteTeacher(users, teachers, userId, card1, first, last, departmentId).err.None?
    ensures var w1 := WriteTeacher(users, teachers, userId, card1, first, last, departmentId);
      var w2 := WriteTeacher(users, w1.teachers, userId, card2, first, last, departmentId);
      w2.err.None? ==> |w2.teachers| == |w1.teachers| && !TeacherExistsWithCard(w2.teachers, card1)
  {
    var w1 := WriteTeacher(users, teachers, userId, card1, first, last, departmentId);
    WriteTeacherResult(users, teachers, userId, card1, first, last, departmentId);
    var k := TeacherByUser(w1.teachers, userId).value;
    WriteTeacherKeepsProfile(users, w1.teachers, userId, card2, first, last, departmentId, k);
    var w2 := WriteTeacher(users, w1.teachers, userId, card2, first, last, departmentId);
    if w2.err.None? {
      forall j | 0 <= j < |w2.teachers|
        ensures w2.teachers[j].cardNo != card1
      {
        if j != k {
          assert w1.teachers[j].cardNo != w1.teachers[k].cardNo;
        }
      }
    }
  }

  /** A user without a profile whose card is held by another user's profile
      takes that profile over: the row is reassigned and its old owner is
      left without one. */
  lemma WriteTeacherTakesOverCard(users: seq<User>, teachers: seq<TeacherProfile>, userId: string, cardNo: string,
                                  first: string, last: string, departmentId: string, k: nat)
    requires TeachersUnique(teachers) && !TeacherExistsForUser(teachers, userId)
    requires k < |teachers| && teachers[k].cardNo == cardNo
    ensures var w := WriteTeacher(users, teachers, userId, cardNo, first, last, departmentId);
      w.err.None? && |w.teachers| == |teachers| && w.teachers[k].userId == userId
      && !TeacherExistsForUser(w.teachers, teachers[k].userId)
  {
    var w := WriteTeacher(users, teachers, userId, cardNo, first, last, departmentId);
    assert TeacherByCard(teachers, cardNo) == Some(k);
    var owner := teachers[k].userId;
    forall j | 0 <= j < |w.teachers|
      ensures w.teachers[j].userId != owner
    {
      if j != k {
        assert teachers[j].userId != teachers[k].userId;
      }
    }
  }

  /** A user whose profile exists while another profile holds the card:
      the update hits the card constraint and nothing changes. */
  lemma WriteTeacherCardConflict(users: seq<User>, teachers: seq<TeacherProfile>, userId: string, cardNo: string,
                                 first: string, last: string, departmentId: string, k: nat, j: nat)
    requires TeachersUnique(teachers) && k < |teachers| && teachers[k].userId == userId
    requires j < |teachers| && j != k && teachers[j].cardNo == cardNo
    ensures WriteTeacher(users, teachers, userId, cardNo, first, last, departmentId)
            == TeacherWrite(Some(UniqueViolation(["cardNo"])), teachers)
  {
    TeacherByUserUnique(teachers, userId, k);
    assert teachers[j].userId != userId;
  }

  /** The find-or-create on the database. */
  method FindOrCreateTeacher(db: Database, userId: string, cardNo: string, first: string, last: string,
                             departmentId: string)
    returns (err: Option<DbError>)
    requires db.Valid()
    modifies db
    ensures db.Valid()
    ensures db.users == old(db.users) && db.students == old(db.students) && db.tokens == old(db.tokens)
    ensures TeacherWrite(err, db.teachers)
            == WriteTeacher(old(db.users), old(db.teachers), userId, cardNo, first, last, departmentId)
  {
    var k := TeacherByUser(db.teachers, userId);
    if k.None? {
      k := TeacherByCard(db.teachers, cardNo);
    }
    if k.Some? {
      err := db.UpdateTeacher(k.value, Refreshed(db.teachers[k.value], userId, cardNo, first, last, departmentId));
    } else {
      err := db.CreateTeacher(NewTeacher(userId, cardNo, first, last, departmentId));
    }
  }

  // ---------------------------------------------------------------------
  // The per-subject loop
  // ---------------------------------------------------------------------

  /** The clock reading (today at 09:00), the phone draw and the new user
      id taken for one subject. */
  datatype SubjectInputs = SubjectInputs(phoneDraw: real, newUserId: string, baseline: int)

  predicate ValidSubjectInputs(ins: seq<SubjectInputs>)
  {
    forall i :: 0 <= i < |ins| ==> IsDraw(ins[i].phoneDraw)
  }

  /** What a seeded subject leaves behind: the subject row, the student's
      active enrollment, its twelve sessions and the student's mark in each. */
  ghost predicate SubjectSeeded(subjects: seq<Subject>, enrollments: map<(string, string), string>,
                                sessions: map<string, Session>, records: map<(string, string), SeedRecord>,
                                studentId: string, code: string)
  {
    CodeTaken(subjects, code)
    && (studentId, code) in enrollments && enrollments[(studentId, code)] == "active"
    && forall i: nat :: 1 <= i <= 12 ==>
         SessionId(code, i) in sessions && (studentId, SessionId(code, i)) in records
  }

  /** The tables only grow: no code, key or active enrollment is lost. */
  ghost predicate Grown(subjects0: seq<Subject>, subjects1: seq<Subject>,
                        enrollments0: map<(string, string), string>, enrollments1: map<(string, string), string>,
                        sessions0: map<string, Session>, sessions1: map<string, Session>,
                        records0: map<(string, string), SeedRecord>, records1: map<(string, string), SeedRecord>)
  {
    (forall code :: CodeTaken(subjects0, code) ==> CodeTaken(subjects1, code))
    && (forall key :: key in enrollments0 && enrollments0[key] == "active" ==>
          key in enrollments1 && enrollments1[key] == "active")
    && sessions0.Keys <= sessions1.Keys && records0.Keys <= records1.Keys
  }

  lemma SeededSurvives(subjects0: seq<Subject>, subjects1: seq<Subject>,
                       enrollments0: map<(string, string), string>, enrollments1: map<(string, string), string>,
                       sessions0: map<string, Session>, sessions1: map<string, Session>,
                       records0: map<(string, string), SeedRecord>, records1: map<(string, string), SeedRecord>,
                       studentId: string, code: string)
    requires SubjectSeeded(subjects0, enrollments0, sessions0, records0, studentId, code)
    requires Grown(subjects0, subjects1, enrollments0, enrollments1, sessions0, sessions1, records0, records1)
    ensures SubjectSeeded(subjects1, enrollments1, sessions1, records1, studentId, code)
  {
  }

  /** The first n subjects of the list are seeded. */
  ghost predicate FirstSeeded(subjects: seq<Subject>, enrollments: map<(string, string), string>,
                              sessions: map<string, Session>, records: map<(string, string), SeedRecord>,
                              studentId: string, specs: seq<FiveSemSubject>, n: nat)
    requires n <= |specs|
  {
    forall j :: 0 <= j < n ==>
      SubjectSeeded(subjects, enrollments, sessions, records, studentId, specs[j].code)
  }

  lemma FirstSeededSurvives(subjects0: seq<Subject>, subjects1: seq<Subject>,
                            enrollments0: map<(string, string), string>, enrollments1: map<(string, string), string>,
                            sessions0: map<string, Session>, sessions1: map<string, Session>,
                            records0: map<(string, string), SeedRecord>, records1: map<(string, string), SeedRecord>,
                            studentId: string, specs: seq<FiveSemSubject>, n: nat)
    requires n <= |specs|
    requires FirstSeeded(subjects0, enrollments0, sessions0, records0, studentId, specs, n)
    requires Grown(subjects0, subjects1, enrollments0, enrollments1, sessions0, sessions1, records0, records1)
    ensures FirstSeeded(subjects1, enrollments1, sessions1, records1, studentId, specs, n)
  {
    forall j | 0 <= j < n
      ensures SubjectSeeded(subjects1, enrollments1, sessions1, records1, studentId, specs[j].code)
    {
      SeededSurvives(subjects0, subjects1, enrollments0, enrollments1, sessions0, sessions1,
                     records0, records1, studentId, specs[j].code);
    }
  }

  /** An upsert keeps every code that was taken. */
  lemma UpsertKeepsCodes(subjects: seq<Subject>, s: Subject, after: seq<Subject>)
    requires CodeTaken(subjects, s.code) ==>
      var k := SubjectByCode(subjects, s.code).value; after == subjects[k := s]
    requires !CodeTaken(subjects, s.code) ==> after == subjects + [s]
    ensures forall code :: CodeTaken(subjects, code) ==> CodeTaken(after, code)
    ensures CodeTaken(after, s.code)
  {
    if CodeTaken(subjects, s.code) {
      var k := SubjectByCode(subjects, s.code).value;
      forall code | CodeTaken(subjects, code)
        ensures CodeTaken(after, code)
      {
        var j :| 0 <= j < |subjects| && subjects[j].code == code;
        assert after[j].code == code;
      }
      assert after[k].code == s.code;
    } else {
      forall code | CodeTaken(subjects, code)
        ensures CodeTaken(after, code)
      {
        var j :| 0 <= j < |subjects| && subjects[j].code == code;
        assert after[j].code == code;
      }
      assert after[|subjects|].code == s.code;
    }
  }

  /** Twelve planned sessions and marks are all present after the merge. */
  lemma PlanWritten(p: Plan, sessions0: map<string, Session>, records0: map<(string, string), SeedRecord>)
    requires p.total == 12
    ensures forall i: nat :: 1 <= i <= 12 ==>
      SessionId(p.code, i) in sessions0 + PlannedSessions(p, 12)
      && (p.studentId, SessionId(p.code, i)) in records0 + PlannedMarks(p, 12)
  {
    PlannedRows(p, 12);
  }

  /** The subject row written for s: the listed name, code, lab flag and
      credits, the branch, the semester and the teacher. */
  function SubjectRow(s: FiveSemSubject, teacherId: string, branchId: string, semesterId: string): Subject
  {
    Subject(s.name, s.code, s.isLab, s.credits, branchId, semesterId, teacherId)
  }

  /** The contents a seeded subject leaves behind: its row as written, the
      student's active enrollment, and the planned row and mark of each of
      its twelve sessions. */
  ghost predicate SubjectWritten(subjects: seq<Subject>, enrollments: map<(string, string), string>,
                                 sessions: map<string, Session>, records: map<(string, string), SeedRecord>,
                                 studentId: string, s: FiveSemSubject, teacherId: string, baseline: int,
                                 branchId: string, semesterId: string)
  {
    var p := FiveSemPlan(s.code, s.name, s.code, teacherId, studentId, baseline);
    var k := SubjectByCode(subjects, s.code);
    k.Some? && subjects[k.value] == SubjectRow(s, teacherId, branchId, semesterId)
    && (studentId, s.code) in enrollments && enrollments[(studentId, s.code)] == "active"
    && forall i: nat :: 1 <= i <= 12 ==>
         SessionId(s.code, i) in sessions && sessions[SessionId(s.code, i)] == SessionRow(p, i)
         && (studentId, SessionId(s.code, i)) in records && records[(studentId, SessionId(s.code, i))] == RecordRow(p, i)
  }

  /** The writes of steps 4.c to 4.e for s: the subject upsert, the
      enrollment upsert, and the plan's sessions and marks merged in. */
  ghost predicate SubjectStep(subjects0: seq<Subject>, subjects1: seq<Subject>,
                              enrollments0: map<(string, string), string>, enrollments1: map<(string, string), string>,
                              sessions0: map<string, Session>, sessions1: map<string, Session>,
                              records0: map<(string, string), SeedRecord>, records1: map<(string, string), SeedRecord>,
                              studentId: string, s: FiveSemSubject, teacherId: string, baseline: int,
                              branchId: string, semesterId: string)
  {
    var row := SubjectRow(s, teacherId, branchId, semesterId);
    var p := FiveSemPlan(s.code, s.name, s.code, teacherId, studentId, baseline);
    (CodeTaken(subjects0, s.code) ==> subjects1 == subjects0[SubjectByCode(subjects0, s.code).value := row])
    && (!CodeTaken(subjects0, s.code) ==> subjects1 == subjects0 + [row])
    && enrollments1 == enrollments0[(studentId, s.code) := "active"]
    && sessions1 == sessions0 + PlannedSessions(p, 12) && records1 == records0 + PlannedMarks(p, 12)
  }

  /** In a table with unique codes, the row holding a code is the one
      SubjectByCode finds. */
  lemma RowFound(subjects: seq<Subject>, k: nat)
    requires CodesUnique(subjects) && k < |subjects|
    ensures SubjectByCode(subjects, subjects[k].code) == Some(k)
  {
  }

  /** The step for s leaves s written. */
  lemma StepWrites(subjects0: seq<Subject>, subjects1: seq<Subject>,
                   enrollments0: map<(string, string), string>, enrollments1: map<(string, string), string>,
                   sessions0: map<string, Session>, sessions1: map<string, Session>,
                   records0: map<(string, string), SeedRecord>, records1: map<(string, string), SeedRecord>,
                   studentId: string, s: FiveSemSubject, teacherId: string, baseline: int,
                   branchId: string, semesterId: string)
    requires CodesUnique(subjects1)
    requires SubjectStep(subjects0, subjects1, enrollments0, enrollments1, sessions0, sessions1, records0, records1,
                         studentId, s, teacherId, baseline, branchId, semesterId)
    ensures SubjectWritten(subjects1, enrollments1, sessions1, records1, studentId, s, teacherId, baseline,
                           branchId, semesterId)
  {
    var p := FiveSemPlan(s.code, s.name, s.code, teacherId, studentId, baseline);
    var k := if CodeTaken(subjects0, s.code) then SubjectByCode(subjects0, s.code).value else |subjects0|;
    assert subjects1[k] == SubjectRow(s, teacherId, branchId, semesterId);
    RowFound(subjects1, k);
    PlannedRows(p, 12);
  }

  /** Running the writes for a subject a second time, with the same teacher
      and clock, leaves every table as the first run left it. */
  lemma StepIdempotent(subjects0: seq<Subject>, subjects1: seq<Subject>, subjects2: seq<Subject>,
                       enrollments0: map<(string, string), string>, enrollments1: map<(string, string), string>,
                       enrollments2: map<(string, string), string>,
                       sessions0: map<string, Session>, sessions1: map<string, Session>, sessions2: map<string, Session>,
                       records0: map<(string, string), SeedRecord>, records1: map<(string, string), SeedRecord>,
                       records2: map<(string, string), SeedRecord>,
                       studentId: string, s: FiveSemSubject, teacherId: string, baseline: int,
                       branchId: string, semesterId: string)
    requires CodesUnique(subjects1)
    requires SubjectStep(subjects0, subjects1, enrollments0, enrollments1, sessions0, sessions1, records0, records1,
                         studentId, s, teacherId, baseline, branchId, semesterId)
    requires SubjectStep(subjects1, subjects2, enrollments1, enrollments2, sessions1, sessions2, records1, records2,
                         studentId, s, teacherId, baseline, branchId, semesterId)
    ensures subjects2 == subjects1 && enrollments2 == enrollments1
    ensures sessions2 == sessions1 && records2 == records1
  {
    StepWrites(subjects0, subjects1, enrollments0, enrollments1, sessions0, sessions1, records0, records1,
               studentId, s, teacherId, baseline, branchId, semesterId);
    var p := FiveSemPlan(s.code, s.name, s.code, teacherId, studentId, baseline);
    RerunIdempotent(sessions0, PlannedSessions(p, 12), PlannedSessions(p, 12));
    RerunIdempotent(records0, PlannedMarks(p, 12), PlannedMarks(p, 12));
  }

  /** A plan's ids and keys all carry its own code. */
  lemma {:induction false} PlannedAvoids(p: Plan, n: nat, code: string, i: nat)
    requires code != p.code
    ensures SessionId(code, i) !in PlannedSessions(p, n)
    ensures (p.studentId, SessionId(code, i)) !in PlannedMarks(p, n)
  {
    if n > 0 {
      PlannedAvoids(p, n - 1, code, i);
      if SessionId(code, i) == SessionId(p.code, n) {
        SessionIdInjective(code, i, p.code, n);
      }
    }
  }

  /** The step for s leaves a subject with another code as it was written. */
  lemma StepKeeps(subjects0: seq<Subject>, subjects1: seq<Subject>,
                  enrollments0: map<(string, string), string>, enrollments1: map<(string, string), string>,
                  sessions0: map<string, Session>, sessions1: map<string, Session>,
                  records0: map<(string, string), SeedRecord>, records1: map<(string, string), SeedRecord>,
                  studentId: string, s: FiveSemSubject, teacherId: string, baseline: int,
                  branchId: string, semesterId: string,
                  other: FiveSemSubject, otherTeacher: string, otherBaseline: int)
    requires CodesUnique(subjects0) && CodesUnique(subjects1) && other.code != s.code
    requires SubjectStep(subjects0, subjects1, enrollments0, enrollments1, sessions0, sessions1, records0, records1,
                         studentId, s, teacherId, baseline, branchId, semesterId)
    requires SubjectWritten(subjects0, enrollments0, sessions0, records0, studentId, other, otherTeacher,
                            otherBaseline, branchId, semesterId)
    ensures SubjectWritten(subjects1, enrollments1, sessions1, records1, studentId, other, otherTeacher,
                           otherBaseline, branchId, semesterId)
  {
    var p := FiveSemPlan(s.code, s.name, s.code, teacherId, studentId, baseline);
    var q := FiveSemPlan(other.code, other.name, other.code, otherTeacher, studentId, otherBaseline);
    var k := SubjectByCode(subjects0, other.code).value;
    assert subjects1[k] == subjects0[k];
    RowFound(subjects1, k);
    forall i: nat | 1 <= i <= 12
      ensures SessionId(other.code, i) in sessions1 && sessions1[SessionId(other.code, i)] == SessionRow(q, i)
      ensures (studentId, SessionId(other.code, i)) in records1
              && records1[(studentId, SessionId(other.code, i))] == RecordRow(q, i)
    {
      PlannedAvoids(p, 12, other.code, i);
    }
  }

  /** The subjects of a list have pairwise different codes. */
  predicate CodesDistinct(specs: seq<FiveSemSubject>)
  {
    forall a, b :: 0 <= a < b < |specs| ==> specs[a].code != specs[b].code
  }

  lemma FiveSemCodesDistinct()
    ensures CodesDistinct(FiveSemSubjects)
  {
    FiveSemCardsDistinct();
  }

  /** The first n subjects of the list are written, subject j taught by
      teacherIds[j] and dated from the j-th clock reading. */
  ghost predicate FirstWritten(subjects: seq<Subject>, enrollments: map<(string, string), string>,
                               sessions: map<string, Session>, records: map<(string, string), SeedRecord>,
                               studentId: string, specs: seq<FiveSemSubject>, ins: seq<SubjectInputs>,
                               teacherIds: seq<string>, branchId: string, semesterId: string, n: nat)
    requires n <= |specs| && n <= |ins| && n <= |teacherIds|
  {
    forall j :: 0 <= j < n ==>
      SubjectWritten(subjects, enrollments, sessions, records, studentId, specs[j], teacherIds[j], ins[j].baseline,
                     branchId, semesterId)
  }

  /** The teacher of an address is a TEACHER user with a profile carrying
      the seeded fields. */
  predicate TeacherReady(users: seq<User>, teachers: seq<TeacherProfile>, email: string, cardNo: string,
                         first: string, last: string, departmentId: string)
  {
    var j := UserByEmail(users, email);
    j.Some? && users[j.value].role == TEACHER
    && var k := TeacherByUser(teachers, users[j.value].id);
       k.Some? && SeededTeacher(teachers[k.value], users[j.value].id, cardNo, first, last, departmentId)
  }

  /** Every user keeps its position, id and address; rows may be added. */
  predicate IdsKept(before: seq<User>, after: seq<User>)
  {
    |before| <= |after|
    && forall k :: 0 <= k < |before| ==> after[k].id == before[k].id && after[k].email == before[k].email
  }

  /** With unique addresses, an address found before is found at the same
      user after. */
  lemma LookupKept(before: seq<User>, after: seq<User>, email: string)
    requires IdsKept(before, after) && UsersUnique(after) && UserByEmail(before, email).Some?
    ensures UserByEmail(after, email) == UserByEmail(before, email)
  {
    var k := UserByEmail(before, email).value;
    assert after[k].email == email;
  }

  lemma IdsKeptTrans(a: seq<User>, b: seq<User>, c: seq<User>)
    requires IdsKept(a, b) && IdsKept(b, c)
    ensures IdsKept(a, c)
  {
  }

  /** Steps 4.a and 4.b: the user upsert and the find-or-create. The user's
      id, or None when a write fails. */
  method SeedTeacher(db: Database, t: TeacherSpec, cardNo: string, input: SubjectInputs, departmentId: string)
    returns (userId: Option<string>)
    requires db.Valid() && IsDraw(input.phoneDraw)
    modifies db
    ensures db.Valid()
    ensures db.students == old(db.students) && db.tokens == old(db.tokens)
    ensures userId.Some? ==> TeacherReady(db.users, db.teachers, t.email, cardNo, t.first, t.last, departmentId)
    ensures userId.Some? ==> db.users[UserByEmail(db.users, t.email).value].id == userId.value
    ensures IdsKept(old(db.users), db.users)
  {
    userId := UpsertTeacherUser(db, t.email, input.phoneDraw, input.newUserId);
    if userId.None? {
      return;
    }
    ghost var teachers0 := db.teachers;
    var err := FindOrCreateTeacher(db, userId.value, cardNo, t.first, t.last, departmentId);
    WriteTeacherResult(db.users, teachers0, userId.value, cardNo, t.first, t.last, departmentId);
    if err.Some? {
      return None;
    }
  }

  /** Steps 4.c to 4.e for a subject whose teacher is ready: the subject
      row, the enrollment, the sessions and the marks. */
  method SeedSubjectRows(table: SubjectTable, store: ClassStore, s: FiveSemSubject, teacherId: string,
                         baseline: int, branchId: string, semesterId: string, studentId: string)
    requires table.Valid()
    modifies table, store
    ensures table.Valid()
    ensures Grown(old(table.subjects), table.subjects, old(store.enrollments), store.enrollments,
                  old(store.sessions), store.sessions, old(store.records), store.records)
    ensures SubjectSeeded(table.subjects, store.enrollments, store.sessions, store.records, studentId, s.code)
    ensures SubjectStep(old(table.subjects), table.subjects, old(store.enrollments), store.enrollments,
                        old(store.sessions), store.sessions, old(store.records), store.records,
                        studentId, s, teacherId, baseline, branchId, semesterId)
    ensures SubjectWritten(table.subjects, store.enrollments, store.sessions, store.records,
                           studentId, s, teacherId, baseline, branchId, semesterId)
  {
    ghost var subjects0 := table.subjects;
    ghost var enrollments0 := store.enrollments;
    var row := SubjectRow(s, teacherId, branchId, semesterId);
    table.Upsert(row);
    UpsertKeepsCodes(subjects0, row, table.subjects);
    store.UpsertEnrollment(studentId, s.code);
    ghost var sessions0, records0 := store.sessions, store.records;
    var plan := FiveSemPlan(s.code, s.name, s.code, teacherId, studentId, baseline);
    SeedSessionsWithMarks(store, plan);
    PlanWritten(plan, sessions0, records0);
    StepWrites(subjects0, table.subjects, enrollments0, store.enrollments, sessions0, store.sessions,
               records0, store.records, studentId, s, teacherId, baseline, branchId, semesterId);
  }

  /** One subject: user, profile, subject row, enrollment, sessions and
      marks. False when a write fails (the script throws and exits). */
  method SeedSubject(db: Database, table: SubjectTable, store: ClassStore, s: FiveSemSubject, input: SubjectInputs,
                     departmentId: string, branchId: string, semesterId: string, studentId: string)
    returns (ok: bool)
    requires db.Valid() && table.Valid() && IsDraw(input.phoneDraw)
    modifies db, table, store
    ensures db.Valid() && table.Valid()
    ensures db.students == old(db.students) && db.tokens == old(db.tokens)
    ensures Grown(old(table.subjects), table.subjects, old(store.enrollments), store.enrollments,
                  old(store.sessions), store.sessions, old(store.records), store.records)
    ensures IdsKept(old(db.users), db.users)
    ensures !ok ==>
      table.subjects == old(table.subjects) && store.enrollments == old(store.enrollments)
      && store.sessions == old(store.sessions) && store.records == old(store.records)
    ensures ok ==>
      SubjectSeeded(table.subjects, store.enrollments, store.sessions, store.records, studentId, s.code)
      && TeacherReady(db.users, db.teachers, s.teacher.email, CardNoFor(s.code), s.teacher.first, s.teacher.last,
                      departmentId)
    ensures ok ==>
      var teacherId := db.users[UserByEmail(db.users, s.teacher.email).value].id;
      SubjectStep(old(table.subjects), table.subjects, old(store.enrollments), store.enrollments,
                  old(store.sessions), store.sessions, old(store.records), store.records,
                  studentId, s, teacherId, input.baseline, branchId, semesterId)
      && SubjectWritten(table.subjects, store.enrollments, store.sessions, store.records,
                        studentId, s, teacherId, input.baseline, branchId, semesterId)
  {
    var cardNo := CardNoFor(s.code);
    var userId := SeedTeacher(db, s.teacher, cardNo, input, departmentId);
    if userId.None? {
      return false;
    }
    SeedSubjectRows(table, store, s, userId.value, input.baseline, branchId, semesterId, studentId);
    ok := true;
  }

  /** The loop over a list of subjects. finished is false when the run
      stopped at a failed write; every subject before that one is seeded. */
  method SeedSubjects(db: Database, table: SubjectTable, store: ClassStore, specs: seq<FiveSemSubject>,
                      ins: seq<SubjectInputs>, departmentId: string, branchId: string, semesterId: string,
                      studentId: string)
    returns (finished: bool, seeded: nat, ghost teacherIds: seq<string>)
    requires db.Valid() && table.Valid()
    requires |ins| == |specs| && ValidSubjectInputs(ins)
    modifies db, table, store
    ensures db.Valid() && table.Valid()
    ensures db.students == old(db.students) && db.tokens == old(db.tokens)
    ensures seeded <= |specs| && (finished <==> seeded == |specs|)
    ensures FirstSeeded(table.subjects, store.enrollments, store.sessions, store.records, studentId, specs, seeded)
    ensures |teacherIds| == seeded
    ensures forall j :: 0 <= j < seeded ==>
      UserByEmail(db.users, specs[j].teacher.email).Some?
      && db.users[UserByEmail(db.users, specs[j].teacher.email).value].id == teacherIds[j]
    ensures CodesDistinct(specs) ==>
      FirstWritten(table.subjects, store.enrollments, store.sessions, store.records, studentId, specs, ins,
                   teacherIds, branchId, semesterId, seeded)
  {
    var i := 0;
    teacherIds := [];
    while i < |specs|
      invariant 0 <= i <= |specs| && |teacherIds| == i
      invariant db.Valid() && table.Valid()
      invariant db.students == old(db.students) && db.tokens == old(db.tokens)
      invariant FirstSeeded(table.subjects, store.enrollments, store.sessions, store.records, studentId, specs, i)
      invariant forall j :: 0 <= j < i ==>
        UserByEmail(db.users, specs[j].teacher.email).Some?
        && db.users[UserByEmail(db.users, specs[j].teacher.email).value].id == teacherIds[j]
      invariant CodesDistinct(specs) ==>
        FirstWritten(table.subjects, store.enrollments, store.sessions, store.records, studentId, specs, ins,
                     teacherIds, branchId, semesterId, i)
    {
      var ok, teacherId := SeedSubjectAt(db, table, store, specs, ins, i, teacherIds, departmentId, branchId,
                                         semesterId, studentId);
      if !ok {
        return false, i, teacherIds;
      }
      teacherIds := teacherIds + [teacherId];
      i := i + 1;
    }
    return true, i, teacherIds;
  }

  /** SeedSubject on subject i, stated for the loop: what held for the
      first i subjects still holds, and on success it holds for subject i
      too, taught by teacherId. */
  method SeedSubjectAt(db: Database, table: SubjectTable, store: ClassStore, specs: seq<FiveSemSubject>,
                       ins: seq<SubjectInputs>, i: nat, ghost teacherIds: seq<string>, departmentId: string,
                       branchId: string, semesterId: string, studentId: string)
    returns (ok: bool, ghost teacherId: string)
    requires db.Valid() && table.Valid()
    requires |ins| == |specs| && ValidSubjectInputs(ins) && i < |specs| && |teacherIds| == i
    requires FirstSeeded(table.subjects, store.enrollments, store.sessions, store.records, studentId, specs, i)
    requires forall j :: 0 <= j < i ==>
      UserByEmail(db.users, specs[j].teacher.email).Some?
      && db.users[UserByEmail(db.users, specs[j].teacher.email).value].id == teacherIds[j]
    requires CodesDistinct(specs) ==>
      FirstWritten(table.subjects, store.enrollments, store.sessions, store.records, studentId, specs, ins,
                   teacherIds, branchId, semesterId, i)
    modifies db, table, store
    ensures db.Valid() && table.Valid()
    ensures db.students == old(db.students) && db.tokens == old(db.tokens)
    ensures FirstSeeded(table.subjects, store.enrollments, store.sessions, store.records, studentId, specs, i)
    ensures forall j :: 0 <= j < i ==>
      UserByEmail(db.users, specs[j].teacher.email).Some?
      && db.users[UserByEmail(db.users, specs[j].teacher.email).value].id == teacherIds[j]
    ensures CodesDistinct(specs) ==>
      FirstWritten(table.subjects, store.enrollments, store.sessions, store.records, studentId, specs, ins,
                   teacherIds, branchId, semesterId, i)
    ensures ok ==>
      FirstSeeded(table.subjects, store.enrollments, store.sessions, store.records, studentId, specs, i + 1)
      && UserByEmail(db.users, specs[i].teacher.email).Some?
      && db.users[UserByEmail(db.users, specs[i].teacher.email).value].id == teacherId
      && (CodesDistinct(specs) ==>
            FirstWritten(table.subjects, store.enrollments, store.sessions, store.records, studentId, specs, ins,
                         teacherIds + [teacherId], branchId, semesterId, i + 1))
  {
    ghost var subjects0, enrollments0, sessions0, records0 := table.subjects, store.enrollments, store.sessions, store.records;
    ghost var users0 := db.users;
    ok := SeedSubject(db, table, store, specs[i], ins[i], departmentId, branchId, semesterId, studentId);
    FirstSeededSurvives(subjects0, table.subjects, enrollments0, store.enrollments, sessions0, store.sessions,
                        records0, store.records, studentId, specs, i);
    LookupsKept(users0, db.users, specs, teacherIds, i);
    if !ok {
      teacherId := "";
      return;
    }
    teacherId := db.users[UserByEmail(db.users, specs[i].teacher.email).value].id;
    if CodesDistinct(specs) {
      WrittenStep(subjects0, table.subjects, enrollments0, store.enrollments, sessions0, store.sessions,
                  records0, store.records, studentId, specs, ins, teacherIds, branchId, semesterId, i, teacherId);
    }
  }

  /** The addresses of the first n subjects find the same users after a
      step that keeps ids and addresses. */
  lemma LookupsKept(before: seq<User>, after: seq<User>, specs: seq<FiveSemSubject>, teacherIds: seq<string>, n: nat)
    requires n <= |specs| && n <= |teacherIds| && IdsKept(before, after) && UsersUnique(after)
    requires forall j :: 0 <= j < n ==>
      UserByEmail(before, specs[j].teacher.email).Some?
      && before[UserByEmail(before, specs[j].teacher.email).value].id == teacherIds[j]
    ensures forall j :: 0 <= j < n ==>
      UserByEmail(after, specs[j].teacher.email).Some?
      && after[UserByEmail(after, specs[j].teacher.email).value].id == teacherIds[j]
  {
    forall j | 0 <= j < n
      ensures UserByEmail(after, specs[j].teacher.email).Some?
              && after[UserByEmail(after, specs[j].teacher.email).value].id == teacherIds[j]
    {
      LookupKept(before, after, specs[j].teacher.email);
    }
  }

  /** Seeding subject n keeps the first n written and writes subject n. */
  lemma WrittenStep(subjects0: seq<Subject>, subjects1: seq<Subject>,
                    enrollments0: map<(string, string), string>, enrollments1: map<(string, string), string>,
                    sessions0: map<string, Session>, sessions1: map<string, Session>,
                    records0: map<(string, string), SeedRecord>, records1: map<(string, string), SeedRecord>,
                    studentId: string, specs: seq<FiveSemSubject>, ins: seq<SubjectInputs>, teacherIds: seq<string>,
                    branchId: string, semesterId: string, n: nat, teacherId: string)
    requires n < |specs| && n < |ins| && n == |teacherIds| && CodesDistinct(specs)
    requires CodesUnique(subjects0) && CodesUnique(subjects1)
    requires FirstWritten(subjects0, enrollments0, sessions0, records0, studentId, specs, ins, teacherIds,
                          branchId, semesterId, n)
    requires SubjectStep(subjects0, subjects1, enrollments0, enrollments1, sessions0, sessions1, records0, records1,
                         studentId, specs[n], teacherId, ins[n].baseline, branchId, semesterId)
    ensures FirstWritten(subjects1, enrollments1, sessions1, records1, studentId, specs, ins, teacherIds + [teacherId],
                         branchId, semesterId, n + 1)
  {
    var ids := teacherIds + [teacherId];
    forall j | 0 <= j < n + 1
      ensures SubjectWritten(subjects1, enrollments1, sessions1, records1, studentId, specs[j], ids[j],
                             ins[j].baseline, branchId, semesterId)
    {
      if j < n {
        assert ids[j] == teacherIds[j];
        StepKeeps(subjects0, subjects1, enrollments0, enrollments1, sessions0, sessions1, records0, records1,
                  studentId, specs[n], teacherId, ins[n].baseline, branchId, semesterId,
                  specs[j], teacherIds[j], ins[j].baseline);
      } else {
        StepWrites(subjects0, subjects1, enrollments0, enrollments1, sessions0, sessions1, records0, records1,
                   studentId, specs[n], teacherId, ins[n].baseline, branchId, semesterId);
      }
    }
  }

  /** The whole script's loop, over the semester's eleven subjects. */
  method SeedFiveSem(db: Database, table: SubjectTable, store: ClassStore, ins: seq<SubjectInputs>,
                     departmentId: string, branchId: string, semesterId: string, studentId: string)
    returns (finished: bool, seeded: nat, ghost teacherIds: seq<string>)
    requires db.Valid() && table.Valid()
    requires |ins| == |FiveSemSubjects| && ValidSubjectInputs(ins)
    modifies db, table, store
    ensures db.Valid() && table.Valid()
    ensures db.students == old(db.students) && db.tokens == old(db.tokens)
    ensures seeded <= |FiveSemSubjects| && (finished <==> seeded == |FiveSemSubjects|)
    ensures forall j :: 0 <= j < seeded ==>
      SubjectSeeded(table.subjects, store.enrollments, store.sessions, store.records, studentId, FiveSemSubjects[j].code)
    ensures |teacherIds| == seeded
    ensures forall j :: 0 <= j < seeded ==>
      UserByEmail(db.users, FiveSemSubjects[j].teacher.email).Some?
      && db.users[UserByEmail(db.users, FiveSemSubjects[j].teacher.email).value].id == teacherIds[j]
    ensures forall j :: 0 <= j < seeded ==>
      SubjectWritten(table.subjects, store.enrollments, store.sessions, store.records, studentId, FiveSemSubjects[j],
                     teacherIds[j], ins[j].baseline, branchId, semesterId)
  {
    FiveSemCodesDistinct();
    finished, seeded, teacherIds := SeedSubjects(db, table, store, FiveSemSubjects, ins, departmentId, branchId,
                                                 semesterId, studentId);
  }
}
