/** The teacher rows of the seed scripts: each row is cleaned, rows without
    a first or last name are skipped, and every other row gets a fresh card
    number, a new TEACHER user and a teacher profile. Both scripts that seed
    teachers run this same loop. Random draws and new row ids are inputs,
    one set per row; the bcrypt hash of the default password is an input. */
module TeacherSeed {
  import opened Common
  import opened Text
  import opened Draws
  import opened Store
  import opened SeedIdentity

  datatype TeacherRow = TeacherRow(first: string, middle: string, last: string, designation: string, spec: string)

  /** The specialisations a row without one is given at random. */
  const Specializations: seq<string> := [
    "Communication Systems",
    "Digital Electronics",
    "Microprocessors & Embedded Systems",
    "Signal Processing",
    "Computer Networks",
    "Control Systems",
    "VLSI & Semiconductor Devices",
    "Wireless Communication",
    "Power Electronics",
    "Embedded & IoT"
  ]

  datatype CleanTeacher = CleanTeacher(
    firstName: string, middleName: Option<string>, lastName: string, designation: string, specialization: string)

  predicate Named(row: TeacherRow)
  {
    !Blank(row.first) && !Blank(row.last)
  }

  /** A row as it is written: names trimmed, an empty middle name null (a
      blank but non-empty one is kept, trimmed to ""), designation defaulting
      to "Lecturer", the given specialisation when it is not blank and a
      random one from the pool otherwise. None for a skipped row. */
  function CleanRow(row: TeacherRow, specDraw: real): (r: Option<CleanTeacher>)
    requires IsDraw(specDraw)
    ensures r.None? <==> !Named(row)
    ensures r.Some? ==>
      r.value.firstName == Trim(row.first) && r.value.lastName == Trim(row.last)
      && r.value.firstName != "" && r.value.lastName != ""
      && IsTrimmed(r.value.firstName) && IsTrimmed(r.value.lastName)
      && (row.middle == "" <==> r.value.middleName.None?)
      && (row.middle != "" ==> r.value.middleName == Some(Trim(row.middle)))
      && r.value.designation != ""
      && (row.designation != "" ==> r.value.designation == row.designation)
      && (row.designation == "" ==> r.value.designation == "Lecturer")
      && (Trim(row.spec) != "" ==> r.value.specialization == Trim(row.spec))
      && (Trim(row.spec) == "" ==> r.value.specialization in Specializations)
  {
    TrimIsTrimmed(row.first);
    TrimIsTrimmed(row.last);
    TrimEmpty(row.first);
    TrimEmpty(row.last);
    var firstName := Trim(row.first);
    var middleName := if row.middle != "" then Some(Trim(row.middle)) else None;
    var lastName := Trim(row.last);
    var designation := if row.designation != "" then row.designation else "Lecturer";
    if firstName == "" || lastName == "" then None
    else
      var spec := if Trim(row.spec) != "" then Trim(row.spec) else Specializations[PickIndex(specDraw, |Specializations|)];
      Some(CleanTeacher(firstName, middleName, lastName, designation, spec))
  }

  /** `${first.toLowerCase()}.${last.toLowerCase()}` */
  function EmailBase(c: CleanTeacher): (b: string)
    ensures b == Lower(c.firstName) + "." + Lower(c.lastName)
  {
    Lower(c.firstName) + "." + Lower(c.lastName)
  }

  /** The profile row: the cleaned fields, the card number, the new user,
      the department, the placeholder image. */
  function TeacherRecord(c: CleanTeacher, userId: string, cardNo: string, departmentId: string): (t: TeacherProfile)
    ensures t.userId == userId && t.cardNo == cardNo && t.departmentId == departmentId
    ensures t.firstName == c.firstName && t.lastName == c.lastName && t.middleName == c.middleName
    ensures t.designation == c.designation
    ensures t.specialization == Some(c.specialization) && t.image == Some("placeholder.jpg")
    ensures t.officeHours == None && t.roomNumber == None
  {
    TeacherProfile(userId, c.firstName, c.middleName, c.lastName, cardNo, departmentId, c.designation,
                   Some(c.specialization), Some("placeholder.jpg"), None, None)
  }

  /** How many of the first n rows have both names. */
  function NamedAmong(rows: seq<TeacherRow>, n: nat): (c: nat)
    requires n <= |rows|
  {
    if n == 0 then 0 else NamedAmong(rows, n - 1) + (if Named(rows[n - 1]) then 1 else 0)
  }

  /** How many rows have both names. */
  function NamedRows(rows: seq<TeacherRow>): nat
  {
    NamedAmong(rows, |rows|)
  }

  /** At most n of the first n rows are named, and taking more rows never
      lowers the count. */
  lemma {:induction false} NamedAmongBounds(rows: seq<TeacherRow>, i: nat, n: nat)
    requires i <= n <= |rows|
    ensures NamedAmong(rows, i) <= NamedAmong(rows, n) <= n
    decreases n
  {
    if n > 0 {
      if i < n {
        NamedAmongBounds(rows, i, n - 1);
      } else {
        NamedAmongBounds(rows, n - 1, n - 1);
      }
    }
  }

  /** The random inputs and the new user id for one row. */
  datatype RowInputs = RowInputs(specDraw: real, cardDraws: seq<real>, phoneDraw: real, userId: string)

  predicate ValidInput(x: RowInputs)
  {
    IsDraw(x.specDraw) && AllDraws(x.cardDraws) && IsDraw(x.phoneDraw)
  }

  predicate ValidInputs(ins: seq<RowInputs>)
  {
    forall i :: 0 <= i < |ins| ==> ValidInput(ins[i])
  }

  /** What every seeded profile looks like. */
  predicate SeededShape(t: TeacherProfile, departmentId: string)
  {
    IsCardNo(t.cardNo) && t.departmentId == departmentId && t.image == Some("placeholder.jpg")
    && t.firstName != "" && t.lastName != "" && IsTrimmed(t.firstName) && IsTrimmed(t.lastName)
    && t.specialization.Some? && t.designation != ""
  }

  predicate AllSeededShape(created: seq<TeacherProfile>, departmentId: string)
  {
    forall k :: 0 <= k < |created| ==> SeededShape(created[k], departmentId)
  }

  lemma ShapeAppend(created: seq<TeacherProfile>, t: TeacherProfile, departmentId: string)
    requires AllSeededShape(created, departmentId) && SeededShape(t, departmentId)
    ensures AllSeededShape(created + [t], departmentId)
  {
  }

  /** The cards of created are pairwise distinct, were not in the set
      before the run and are in it now. */
  predicate CardsIssued(created: seq<TeacherProfile>, before: set<string>, now: set<string>)
  {
    (forall k :: 0 <= k < |created| ==> created[k].cardNo in now && created[k].cardNo !in before)
    && forall k, l :: 0 <= k < l < |created| ==> created[k].cardNo != created[l].cardNo
  }

  lemma IssuedSurvivesGrowth(created: seq<TeacherProfile>, before: set<string>, mid: set<string>, now: set<string>)
    requires CardsIssued(created, before, mid) && mid <= now
    ensures CardsIssued(created, before, now)
  {
  }

  /** A row whose card was not in the set before it is distinct from every
      earlier one. */
  lemma IssueOne(created: seq<TeacherProfile>, t: TeacherProfile, before: set<string>, mid: set<string>, now: set<string>)
    requires CardsIssued(created, before, mid) && before <= mid
    requires t.cardNo !in mid && now == mid + {t.cardNo}
    ensures CardsIssued(created + [t], before, now)
  {
    var all := created + [t];
    forall k, l | 0 <= k < l < |all|
      ensures all[k].cardNo != all[l].cardNo
    {
      if l == |created| {
        assert all[k].cardNo in mid;
      }
    }
  }

  /** What the loop keeps: every created profile is well formed and holds
      its own newly issued card. */
  predicate Progress(created: seq<TeacherProfile>, before: set<string>, now: set<string>, departmentId: string)
  {
    AllSeededShape(created, departmentId) && before <= now && CardsIssued(created, before, now)
  }

  lemma ProgressStep(created: seq<TeacherProfile>, t: TeacherProfile, before: set<string>, mid: set<string>,
                     now: set<string>, departmentId: string)
    requires Progress(created, before, mid, departmentId) && SeededShape(t, departmentId)
    requires t.cardNo !in mid && now == mid + {t.cardNo}
    ensures Progress(created + [t], before, now, departmentId)
  {
    IssueOne(created, t, before, mid, now);
    ShapeAppend(created, t, departmentId);
  }

  lemma ProgressGrowth(created: seq<TeacherProfile>, before: set<string>, mid: set<string>, now: set<string>,
                       departmentId: string)
    requires Progress(created, before, mid, departmentId) && mid <= now
    ensures Progress(created, before, now, departmentId)
  {
    IssuedSurvivesGrowth(created, before, mid, now);
  }

  /** A cleaned row with both names, ready to be written. */
  predicate Writable(c: CleanTeacher)
  {
    c.firstName != "" && c.lastName != "" && IsTrimmed(c.firstName) && IsTrimmed(c.lastName)
    && c.designation != ""
  }

  /** The profile written for a named row: the cleaned row, the row's user
      id, the department and whatever card it drew. */
  ghost predicate RowProfile(t: TeacherProfile, row: TeacherRow, input: RowInputs, departmentId: string)
  {
    ValidInput(input) && Named(row) && t == TeacherRecord(CleanRow(row, input.specDraw).value, input.userId, t.cardNo, departmentId)
  }

  /** The user row created for a cleaned row: the row's id, the TEACHER
      role, the default password hash, an address built from the names and
      a phone number built from the draw, both free before it was written. */
  ghost predicate SeededUser(u: User, before: seq<User>, c: CleanTeacher, input: RowInputs, passwordHash: string)
    requires ValidInput(input)
  {
    u.id == input.userId && u.role == TEACHER && u.passwordHash == passwordHash
    && !u.isEmailVerified && !u.isProfileComplete
    && (exists s: nat :: u.email == EmailCandidate(EmailBase(c), s))
    && (exists m: nat :: m < 10 && u.phone == PhoneCandidate(PhoneBase(input.phoneDraw), m))
    && UserByEmail(before, u.email).None? && UserByPhone(before, u.phone).None?
  }

  /** Card, user and profile for a cleaned row; None when any step fails.
      A user created before the profile insert failed stays. */
  method SeedClean(db: Database, registry: CardRegistry, c: CleanTeacher, input: RowInputs,
                   passwordHash: string, departmentId: string)
    returns (t: Option<TeacherProfile>)
    requires db.Valid() && ValidInput(input) && Writable(c)
    modifies db, registry
    ensures db.Valid()
    ensures old(registry.cards) <= registry.cards
    ensures db.students == old(db.students) && db.tokens == old(db.tokens)
    ensures |old(db.users)| <= |db.users| <= |old(db.users)| + 1 && db.users[..|old(db.users)|] == old(db.users)
    ensures t.None? ==> db.teachers == old(db.teachers)
    ensures t.Some? ==>
      db.teachers == old(db.teachers) + [t.value] && SeededShape(t.value, departmentId)
      && t.value == TeacherRecord(c, input.userId, t.value.cardNo, departmentId)
      && |db.users| == |old(db.users)| + 1
      && SeededUser(db.users[|old(db.users)|], old(db.users), c, input, passwordHash)
      && t.value.cardNo !in old(registry.cards) && registry.cards == old(registry.cards) + {t.value.cardNo}
  {
    var card := registry.GenCardNo(input.cardDraws);
    if card.None? {
      return None;
    }
    var user, emailSuffix, phoneSuffix := SafeCreateUser(db, EmailBase(c), PhoneBase(input.phoneDraw), passwordHash, input.userId);
    if user.None? {
      return None;
    }
    assert db.users[|old(db.users)|] == user.value;
    var record := TeacherRecord(c, user.value.id, card.value, departmentId);
    var err := db.CreateTeacher(record);
    if err.Some? {
      return None;
    }
    t := Some(record);
  }

  /** One row: skipped when a name is blank, otherwise card, user and
      profile. None when the row is skipped or any step fails. */
  method SeedRow(db: Database, registry: CardRegistry, row: TeacherRow, input: RowInputs,
                 passwordHash: string, departmentId: string)
    returns (t: Option<TeacherProfile>)
    requires db.Valid() && ValidInput(input)
    modifies db, registry
    ensures db.Valid()
    ensures old(registry.cards) <= registry.cards
    ensures !Named(row) ==> t.None? && db.teachers == old(db.teachers) && registry.cards == old(registry.cards)
    ensures t.None? ==> db.teachers == old(db.teachers)
    ensures db.students == old(db.students) && db.tokens == old(db.tokens)
    ensures |old(db.users)| <= |db.users| <= |old(db.users)| + 1 && db.users[..|old(db.users)|] == old(db.users)
    ensures !Named(row) ==> db.users == old(db.users)
    ensures t.Some? ==>
      Named(row)
      && db.teachers == old(db.teachers) + [t.value] && SeededShape(t.value, departmentId)
      && RowProfile(t.value, row, input, departmentId)
      && |db.users| == |old(db.users)| + 1
      && SeededUser(db.users[|old(db.users)|], old(db.users), CleanRow(row, input.specDraw).value, input, passwordHash)
      && t.value.cardNo !in old(registry.cards) && registry.cards == old(registry.cards) + {t.value.cardNo}
  {
    var clean := CleanRow(row, input.specDraw);
    if clean.None? {
      return None;
    }
    t := SeedClean(db, registry, clean.value, input, passwordHash, departmentId);
  }

  /** created[k] is the profile written for row rowOf[k], the rows taken in
      order. */
  ghost predicate FromRows(created: seq<TeacherProfile>, rowOf: seq<nat>, rows: seq<TeacherRow>,
                           ins: seq<RowInputs>, departmentId: string)
  {
    |ins| == |rows| && Related(created, rowOf, ProfileOfRow(rows, ins, departmentId)) && Increasing(rowOf)
  }

  /** t is the profile written for row j. */
  ghost function ProfileOfRow(rows: seq<TeacherRow>, ins: seq<RowInputs>, departmentId: string)
    : (TeacherProfile, nat) -> bool
  {
    (t: TeacherProfile, j: nat) => j < |rows| && j < |ins| && RowProfile(t, rows[j], ins[j], departmentId)
  }

  /** created[k] and rowOf[k] are related by R, for every k. */
  ghost predicate Related(created: seq<TeacherProfile>, rowOf: seq<nat>, R: (TeacherProfile, nat) -> bool)
  {
    |rowOf| == |created| && forall k :: 0 <= k < |rowOf| ==> R(created[k], rowOf[k])
  }

  lemma RelatedStep(created: seq<TeacherProfile>, rowOf: seq<nat>, R: (TeacherProfile, nat) -> bool,
                    t: TeacherProfile, i: nat)
    requires Related(created, rowOf, R) && R(t, i)
    ensures Related(created + [t], rowOf + [i], R)
  {
    var c2, r2 := created + [t], rowOf + [i];
    assert forall k :: 0 <= k < |rowOf| ==> c2[k] == created[k] && r2[k] == rowOf[k];
  }

  /** What FromRows says of one profile. */
  lemma FromRowsAt(created: seq<TeacherProfile>, rowOf: seq<nat>, rows: seq<TeacherRow>, ins: seq<RowInputs>,
                   departmentId: string, k: nat)
    requires FromRows(created, rowOf, rows, ins, departmentId) && k < |created|
    ensures rowOf[k] < |rows| && RowProfile(created[k], rows[rowOf[k]], ins[rowOf[k]], departmentId)
  {
    assert ProfileOfRow(rows, ins, departmentId)(created[k], rowOf[k]);
  }

  /** The row indices are taken in order. */
  predicate Increasing(rowOf: seq<nat>)
  {
    forall k, l :: 0 <= k < l < |rowOf| ==> rowOf[k] < rowOf[l]
  }

  lemma IncreasingStep(rowOf: seq<nat>, i: nat)
    requires Increasing(rowOf) && forall k :: 0 <= k < |rowOf| ==> rowOf[k] < i
    ensures Increasing(rowOf + [i])
  {
  }

  lemma FromRowsStep(created: seq<TeacherProfile>, rowOf: seq<nat>, rows: seq<TeacherRow>, ins: seq<RowInputs>,
                     departmentId: string, i: nat, t: TeacherProfile)
    requires |ins| == |rows| && ValidInputs(ins) && i < |rows|
    requires FromRows(created, rowOf, rows, ins, departmentId)
    requires forall k :: 0 <= k < |rowOf| ==> rowOf[k] < i
    requires RowProfile(t, rows[i], ins[i], departmentId)
    ensures FromRows(created + [t], rowOf + [i], rows, ins, departmentId)
  {
    assert ProfileOfRow(rows, ins, departmentId)(t, i);
    RelatedStep(created, rowOf, ProfileOfRow(rows, ins, departmentId), t, i);
    IncreasingStep(rowOf, i);
  }

  /** One new TEACHER user per created profile, appended in the same order
      after the users that were there before. */
  ghost predicate UsersFor(created: seq<TeacherProfile>, before: seq<User>, after: seq<User>)
  {
    |before| + |created| <= |after| && after[..|before|] == before
    && forall k :: 0 <= k < |created| ==>
         after[|before| + k].id == created[k].userId && after[|before| + k].role == TEACHER
  }

  lemma UsersForGrowth(created: seq<TeacherProfile>, before: seq<User>, mid: seq<User>, after: seq<User>)
    requires UsersFor(created, before, mid) && |mid| <= |after| && after[..|mid|] == mid
    ensures UsersFor(created, before, after)
  {
    assert after[..|before|] == mid[..|before|];
    forall j | |before| <= j < |before| + |created|
      ensures after[j] == mid[j]
    {
      assert after[..|mid|][j] == after[j];
    }
  }

  lemma UsersForStep(created: seq<TeacherProfile>, t: TeacherProfile, before: seq<User>, mid: seq<User>, after: seq<User>)
    requires UsersFor(created, before, mid) && |mid| == |before| + |created|
    requires |after| == |mid| + 1 && after[..|mid|] == mid
    requires after[|mid|].id == t.userId && after[|mid|].role == TEACHER
    ensures UsersFor(created + [t], before, after)
  {
    UsersForGrowth(created, before, mid, after);
  }

  /** SeedRow on row i, stated for the loop: a created profile extends
      FromRows by row i and its user is the row appended to the table. */
  method SeedRowAt(db: Database, registry: CardRegistry, rows: seq<TeacherRow>, ins: seq<RowInputs>, i: nat,
                   passwordHash: string, departmentId: string, ghost created: seq<TeacherProfile>, ghost rowOf: seq<nat>)
    returns (t: Option<TeacherProfile>)
    requires db.Valid() && |ins| == |rows| && ValidInputs(ins) && i < |rows|
    requires FromRows(created, rowOf, rows, ins, departmentId)
    requires forall k :: 0 <= k < |rowOf| ==> rowOf[k] < i
    modifies db, registry
    ensures db.Valid()
    ensures old(registry.cards) <= registry.cards
    ensures db.students == old(db.students) && db.tokens == old(db.tokens)
    ensures |old(db.users)| <= |db.users| <= |old(db.users)| + 1 && db.users[..|old(db.users)|] == old(db.users)
    ensures !Named(rows[i]) ==> t.None? && db.teachers == old(db.teachers) && registry.cards == old(registry.cards)
    ensures !Named(rows[i]) ==> db.users == old(db.users)
    ensures t.None? ==> db.teachers == old(db.teachers)
    ensures t.Some? ==>
      Named(rows[i])
      && db.teachers == old(db.teachers) + [t.value] && SeededShape(t.value, departmentId)
      && FromRows(created + [t.value], rowOf + [i], rows, ins, departmentId)
      && |db.users| == |old(db.users)| + 1
      && db.users[|old(db.users)|].id == t.value.userId && db.users[|old(db.users)|].role == TEACHER
      && t.value.cardNo !in old(registry.cards) && registry.cards == old(registry.cards) + {t.value.cardNo}
  {
    t := SeedRow(db, registry, rows[i], ins[i], passwordHash, departmentId);
    if t.Some? {
      FromRowsStep(created, rowOf, rows, ins, departmentId, i, t.value);
    }
  }

  /** The loop over the rows. finished is false when the run stopped early:
      the card draws ran out, all phone candidates were taken, or a write
      failed (the source throws and the script exits). The ghost rowOf
      names the row each profile came from. */
  method SeedTeachers(db: Database, registry: CardRegistry, rows: seq<TeacherRow>, ins: seq<RowInputs>,
                      passwordHash: string, departmentId: string)
    returns (created: seq<TeacherProfile>, finished: bool, ghost rowOf: seq<nat>)
    requires db.Valid() && |ins| == |rows| && ValidInputs(ins)
    modifies db, registry
    ensures db.Valid()
    ensures db.teachers == old(db.teachers) + created
    ensures db.students == old(db.students) && db.tokens == old(db.tokens)
    ensures AllSeededShape(created, departmentId)
    ensures CardsIssued(created, old(registry.cards), registry.cards)
    ensures FromRows(created, rowOf, rows, ins, departmentId)
    ensures UsersFor(created, old(db.users), db.users) && |db.users| <= |old(db.users)| + |created| + 1
    ensures |created| <= NamedRows(rows)
    ensures finished ==> |created| == NamedRows(rows) && |db.users| == |old(db.users)| + |created|
  {
    created := [];
    rowOf := [];
    var i := 0;
    while i < |rows|
      invariant 0 <= i <= |rows|
      invariant db.Valid()
      invariant db.teachers == old(db.teachers) + created
      invariant db.students == old(db.students) && db.tokens == old(db.tokens)
      invariant Progress(created, old(registry.cards), registry.cards, departmentId)
      invariant |created| == NamedAmong(rows, i)
      invariant FromRows(created, rowOf, rows, ins, departmentId)
      invariant forall k :: 0 <= k < |rowOf| ==> rowOf[k] < i
      invariant UsersFor(created, old(db.users), db.users) && |db.users| == |old(db.users)| + |created|
    {
      ghost var mid := registry.cards;
      ghost var midUsers := db.users;
      var t := SeedRowAt(db, registry, rows, ins, i, passwordHash, departmentId, created, rowOf);
      if Named(rows[i]) {
        if t.None? {
          ProgressGrowth(created, old(registry.cards), mid, registry.cards, departmentId);
          NamedAmongBounds(rows, i, |rows|);
          UsersForGrowth(created, old(db.users), midUsers, db.users);
          return created, false, rowOf;
        }
        ProgressStep(created, t.value, old(registry.cards), mid, registry.cards, departmentId);
        UsersForStep(created, t.value, old(db.users), midUsers, db.users);
        created := created + [t.value];
        rowOf := rowOf + [i];
      }
      i := i + 1;
    }
    finished := true;
  }
}
