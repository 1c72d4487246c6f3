/** The subject seed script: the even semesters of one branch, the teacher
    rows (the loop of TeacherSeed), then one subject per entry of the
    syllabus list, skipped when its semester is not in the semester map and
    given a teacher drawn at random from the teachers created in this run.
    The ids that the semester upserts return, the random draws and the
    department and branch ids are inputs. A teacher is identified by its
    user id. */
module SubjectSeed {
  import opened Common
  import opened Draws
  import opened Store
  import opened TeacherSeed
  import SeedIdentity

  /** The semesters the script creates. */
  const SemesterNumbers: seq<int> := [2, 4, 6, 8]

  /** The semester map after the first k upserts: each number to the id
      the upsert returned, a repeated number to the later id. */
  function SemesterMapOf(numbers: seq<int>, ids: seq<string>): (m: map<int, string>)
    requires |ids| == |numbers|
    ensures m.Keys == set i | 0 <= i < |numbers| :: numbers[i]
    ensures forall n :: n in m ==> exists i :: 0 <= i < |numbers| && numbers[i] == n && m[n] == ids[i]
  {
    if numbers == [] then map[]
    else
      var k := |numbers| - 1;
      var before := SemesterMapOf(numbers[..k], ids[..k]);
      assert forall i :: 0 <= i < k ==> numbers[..k][i] == numbers[i] && ids[..k][i] == ids[i];
      before[numbers[k] := ids[k]]
  }

  /** The loop that fills the map from the semester upserts. */
  method BuildSemesterMap(numbers: seq<int>, ids: seq<string>) returns (m: map<int, string>)
    requires |ids| == |numbers|
    ensures m == SemesterMapOf(numbers, ids)
  {
    m := map[];
    var i := 0;
    while i < |numbers|
      invariant 0 <= i <= |numbers|
      invariant m == SemesterMapOf(numbers[..i], ids[..i])
    {
      assert numbers[..i + 1][..i] == numbers[..i] && ids[..i + 1][..i] == ids[..i];
      m := m[numbers[i] := ids[i]];
      i := i + 1;
    }
    assert numbers[..i] == numbers && ids[..i] == ids;
  }

  /** With distinct numbers every number maps to the id of its own upsert. */
  lemma {:induction false} DistinctSemesterIds(numbers: seq<int>, ids: seq<string>, i: nat)
    requires |ids| == |numbers| && i < |numbers|
    requires forall a, b :: 0 <= a < b < |numbers| ==> numbers[a] != numbers[b]
    ensures SemesterMapOf(numbers, ids)[numbers[i]] == ids[i]
    decreases |numbers|
  {
    var k := |numbers| - 1;
    if i < k {
      assert numbers[..k][i] == numbers[i] && ids[..k][i] == ids[i];
      DistinctSemesterIds(numbers[..k], ids[..k], i);
    }
  }

  /** The script's map holds exactly the semesters 2, 4, 6 and 8, each
      with the id of its own upsert. */
  lemma EvenSemestersOnly(ids: seq<string>)
    requires |ids| == 4
    ensures SemesterMapOf(SemesterNumbers, ids) == map[2 := ids[0], 4 := ids[1], 6 := ids[2], 8 := ids[3]]
    ensures SemesterMapOf(SemesterNumbers, ids).Keys == {2, 4, 6, 8}
  {
    var ns := SemesterNumbers;
    assert ns[..3] == [2, 4, 6] && ns[..3][..2] == [2, 4] && ns[..3][..2][..1] == [2] && ns[..3][..2][..1][..0] == [];
    var m1 := SemesterMapOf([2], ids[..1]);
    assert m1 == map[2 := ids[0]] by {
      assert [2][..0] == [];
    }
    var m2 := SemesterMapOf([2, 4], ids[..2]);
    assert m2 == m1[4 := ids[1]] by {
      assert [2, 4][..1] == [2] && ids[..2][..1] == ids[..1];
    }
    var m3 := SemesterMapOf([2, 4, 6], ids[..3]);
    assert m3 == m2[6 := ids[2]] by {
      assert [2, 4, 6][..2] == [2, 4] && ids[..3][..2] == ids[..2];
    }
    assert SemesterMapOf(ns, ids) == m3[8 := ids[3]];
  }

  datatype SubjectSpec = SubjectSpec(code: string, name: string, sem: int)

  datatype Subject = Subject(
    name: string, code: string, isLab: bool, credits: int, branchId: string, semesterId: string, teacherId: string)

  /** The syllabus list of the even semesters. */
  const EvenSemesterSubjects: seq<SubjectSpec> := [
    SubjectSpec("SH451", "Engineering Mathematics II", 2),
    SubjectSpec("EX452", "Microprocessor", 2),
    SubjectSpec("SH453", "Engineering Chemistry", 2),
    SubjectSpec("CT451", "Object Oriented Programming", 2),
    SubjectSpec("ME453", "Workshop Technology", 2),
    SubjectSpec("EE460", "Electric Circuits and Machines", 2),
    SubjectSpec("SH551", "Applied Mathematics", 4),
    SubjectSpec("CT551", "Discrete Structure", 4),
    SubjectSpec("CT552", "Data Structure & Algorithms", 4),
    SubjectSpec("EX553", "Advanced Electronics", 4),
    SubjectSpec("EX554", "Computer Graphics", 4),
    SubjectSpec("SH553", "Numerical Methods", 4),
    SubjectSpec("SH655", "Communication English", 6),
    SubjectSpec("CT658", "Project Management", 6),
    SubjectSpec("EX653", "Propagation and Antenna", 6),
    SubjectSpec("EX656", "Communication Systems", 6),
    SubjectSpec("CT657", "Object Oriented Software Engineering", 6),
    SubjectSpec("CT655", "Embedded Systems", 6),
    SubjectSpec("EX654", "Minor Project", 6),
    SubjectSpec("EX756", "Telecommunications", 8),
    SubjectSpec("CE752", "Professional Practice", 8),
    SubjectSpec("EX757", "Energy, Environment and Society", 8),
    SubjectSpec("CT751", "Information Systems", 8),
    SubjectSpec("EX765", "Elective II", 8),
    SubjectSpec("EX785", "Elective III", 8),
    SubjectSpec("EX755", "Project (Part B)", 8)
  ]

  const NoTeachers := "No teachers were created; cannot assign subjects."

  predicate CodeTaken(subjects: seq<Subject>, code: string)
  {
    exists k :: 0 <= k < |subjects| && subjects[k].code == code
  }

  /** The subject code is unique. */
  predicate CodesUnique(subjects: seq<Subject>)
  {
    forall i, j :: 0 <= i < j < |subjects| ==> subjects[i].code != subjects[j].code
  }

  /** The subject table; subject.create fails on a taken code. */
  class SubjectTable {
    var subjects: seq<Subject>

    ghost predicate Valid()
      reads this
    {
      CodesUnique(subjects)
    }

    constructor(initial: seq<Subject>)
      requires CodesUnique(initial)
      ensures subjects == initial && Valid()
    {
      subjects := initial;
    }

    method Create(s: Subject) returns (err: Option<DbError>)
      requires Valid()
      modifies this
      ensures Valid()
      ensures err.Some? <==> CodeTaken(old(subjects), s.code)
      ensures err.Some? ==> err == Some(UniqueViolation(["code"]))
      ensures subjects == if err.None? then old(subjects) + [s] else old(subjects)
    {
      if exists k :: 0 <= k < |subjects| && subjects[k].code == s.code {
        err := Some(UniqueViolation(["code"]));
      } else {
        err := None;
        subjects := subjects + [s];
      }
    }

    /** subject.upsert on the code: every field is overwritten when the
        code exists, otherwise the row is created. */
    method Upsert(s: Subject)
      requires Valid()
      modifies this
      ensures Valid()
      ensures CodeTaken(old(subjects), s.code) ==>
        var k := SubjectByCode(old(subjects), s.code).value; subjects == old(subjects)[k := s]
      ensures !CodeTaken(old(subjects), s.code) ==> subjects == old(subjects) + [s]
    {
      var k := SubjectByCode(subjects, s.code);
      if k.Some? {
        subjects := subjects[k.value := s];
      } else {
        subjects := subjects + [s];
      }
    }
  }

  /** findUnique on the subject code. */
  function SubjectByCode(subjects: seq<Subject>, code: string): (r: Option<nat>)
    ensures r.Some? <==> CodeTaken(subjects, code)
    ensures r.Some? ==> r.value < |subjects| && subjects[r.value].code == code
  {
    FirstIndex(subjects, (s: Subject) => s.code == code)
  }

  /** The row written for a spec whose semester is in the map. */
  function SubjectRow(s: SubjectSpec, semesters: map<int, string>, teacherIds: seq<string>, draw: real,
                      branchId: string): (r: Subject)
    requires s.sem in semesters && |teacherIds| > 0 && IsDraw(draw)
    ensures r.code == s.code && r.name == s.name && r.semesterId == semesters[s.sem] && r.branchId == branchId
    ensures !r.isLab && r.credits == 3
    ensures r.teacherId in teacherIds
  {
    Subject(s.name, s.code, false, 3, branchId, semesters[s.sem], teacherIds[PickIndex(draw, |teacherIds|)])
  }

  /** A subject as the loop leaves it: from a spec of the list with a mapped
      semester, not a lab, 3 credits, the branch, a teacher of this run. */
  predicate Seeded(r: Subject, specs: seq<SubjectSpec>, semesters: map<int, string>, teacherIds: seq<string>,
                   branchId: string)
  {
    !r.isLab && r.credits == 3 && r.branchId == branchId && r.teacherId in teacherIds
    && exists i :: 0 <= i < |specs| && specs[i].code == r.code && specs[i].name == r.name
                   && specs[i].sem in semesters && r.semesterId == semesters[specs[i].sem]
  }

  /** The table after the loop over specs, one draw per spec (the draw of a
      skipped spec is not used). A spec whose semester is missing is skipped;
      a create that fails on a taken code is logged and the loop goes on. */
  function PlanSubjects(table: seq<Subject>, specs: seq<SubjectSpec>, semesters: map<int, string>,
                        teacherIds: seq<string>, draws: seq<real>, branchId: string): seq<Subject>
    requires |teacherIds| > 0 && |draws| == |specs| && AllDraws(draws)
  {
    if specs == [] then table
    else
      var n := |specs| - 1;
      var before := PlanSubjects(table, specs[..n], semesters, teacherIds, draws[..n], branchId);
      var s := specs[n];
      if s.sem !in semesters || CodeTaken(before, s.code) then before
      else before + [SubjectRow(s, semesters, teacherIds, draws[n], branchId)]
  }

  /** The loop keeps the rows it found, adds at most one row per spec, keeps
      the codes unique, and every row it adds is a seeded subject. */
  lemma {:induction false} PlanSubjectsShape(table: seq<Subject>, specs: seq<SubjectSpec>, semesters: map<int, string>,
                                              teacherIds: seq<string>, draws: seq<real>, branchId: string)
    requires |teacherIds| > 0 && |draws| == |specs| && AllDraws(draws)
    ensures var r := PlanSubjects(table, specs, semesters, teacherIds, draws, branchId);
      |table| <= |r| <= |table| + |specs| && r[..|table|] == table
      && (CodesUnique(table) ==> CodesUnique(r))
      && forall k :: |table| <= k < |r| ==> Seeded(r[k], specs, semesters, teacherIds, branchId)
    decreases |specs|
  {
    if specs != [] {
      var n := |specs| - 1;
      PlanSubjectsShape(table, specs[..n], semesters, teacherIds, draws[..n], branchId);
      var before := PlanSubjects(table, specs[..n], semesters, teacherIds, draws[..n], branchId);
      forall k | |table| <= k < |before|
        ensures Seeded(before[k], specs, semesters, teacherIds, branchId)
      {
        assert Seeded(before[k], specs[..n], semesters, teacherIds, branchId);
        var i :| 0 <= i < n && specs[..n][i].code == before[k].code && specs[..n][i].name == before[k].name
                 && specs[..n][i].sem in semesters && before[k].semesterId == semesters[specs[..n][i].sem];
        assert specs[i] == specs[..n][i];
      }
      var s := specs[n];
      if !(s.sem !in semesters || CodeTaken(before, s.code)) {
        var row := SubjectRow(s, semesters, teacherIds, draws[n], branchId);
        assert (before + [row])[..|table|] == before[..|table|];
        assert Seeded(row, specs, semesters, teacherIds, branchId) by {
          assert specs[n].code == row.code;
        }
      }
    }
  }

  /** The subject loop: a spec whose semester is missing is skipped, a
      failed create is caught and the next spec is tried. */
  method CreateSubjects(table: SubjectTable, specs: seq<SubjectSpec>, semesters: map<int, string>,
                        teacherIds: seq<string>, draws: seq<real>, branchId: string)
    requires table.Valid() && |teacherIds| > 0 && |draws| == |specs| && AllDraws(draws)
    modifies table
    ensures table.Valid()
    ensures table.subjects == PlanSubjects(old(table.subjects), specs, semesters, teacherIds, draws, branchId)
  {
    var i := 0;
    while i < |specs|
      invariant 0 <= i <= |specs|
      invariant table.Valid()
      invariant table.subjects == PlanSubjects(old(table.subjects), specs[..i], semesters, teacherIds, draws[..i], branchId)
    {
      PlanStep(old(table.subjects), specs, semesters, teacherIds, draws, branchId, i);
      var s := specs[i];
      if s.sem !in semesters {
        i := i + 1;
        continue;
      }
      var teacherId := teacherIds[PickIndex(draws[i], |teacherIds|)];
      var _ := table.Create(Subject(s.name, s.code, false, 3, branchId, semesters[s.sem], teacherId));
      i := i + 1;
    }
    assert specs[..i] == specs && draws[..i] == draws;
  }

  /** One more spec: the plan of the longer prefix is the plan of the
      shorter one, plus the spec's row when it is not skipped. */
  lemma PlanStep(table: seq<Subject>, specs: seq<SubjectSpec>, semesters: map<int, string>,
                 teacherIds: seq<string>, draws: seq<real>, branchId: string, i: nat)
    requires |teacherIds| > 0 && |draws| == |specs| && AllDraws(draws) && i < |specs|
    ensures var before := PlanSubjects(table, specs[..i], semesters, teacherIds, draws[..i], branchId);
      var s := specs[i];
      PlanSubjects(table, specs[..i + 1], semesters, teacherIds, draws[..i + 1], branchId)
      == if s.sem !in semesters || CodeTaken(before, s.code) then before
         else before + [SubjectRow(s, semesters, teacherIds, draws[i], branchId)]
  {
    assert specs[..i + 1][..i] == specs[..i] && draws[..i + 1][..i] == draws[..i];
  }

  /** The guard before the subject loop and the loop itself: with no
      teacher the script throws and no subject is written. */
  method AssignSubjects(table: SubjectTable, specs: seq<SubjectSpec>, semesters: map<int, string>,
                        teacherIds: seq<string>, draws: seq<real>, branchId: string)
    returns (thrown: Option<string>)
    requires table.Valid() && |draws| == |specs| && AllDraws(draws)
    modifies table
    ensures table.Valid()
    ensures thrown.Some? <==> |teacherIds| == 0
    ensures thrown.Some? ==> thrown.value == NoTeachers && table.subjects == old(table.subjects)
    ensures thrown.None? ==>
      table.subjects == PlanSubjects(old(table.subjects), specs, semesters, teacherIds, draws, branchId)
  {
    if |teacherIds| == 0 {
      return Some(NoTeachers);
    }
    CreateSubjects(table, specs, semesters, teacherIds, draws, branchId);
    thrown := None;
  }

  /** The user ids of the created teachers, in creation order. */
  function TeacherIds(created: seq<TeacherProfile>): (ids: seq<string>)
    ensures |ids| == |created| && forall k :: 0 <= k < |created| ==> ids[k] == created[k].userId
  {
    if created == [] then [] else TeacherIds(created[..|created| - 1]) + [created[|created| - 1].userId]
  }

  /** The whole script after the department and branch upserts: the
      semester map, the teacher loop, the guard and the subject loop. The
      script stops when the teacher loop stops early. */
  method SubjectScript(db: Database, registry: SeedIdentity.CardRegistry, table: SubjectTable,
                       semesterIds: seq<string>, rows: seq<TeacherRow>, ins: seq<RowInputs>,
                       passwordHash: string, departmentId: string, branchId: string, draws: seq<real>)
    returns (created: seq<TeacherProfile>, thrown: bool)
    requires db.Valid() && table.Valid() && |semesterIds| == |SemesterNumbers|
    requires |ins| == |rows| && ValidInputs(ins)
    requires |draws| == |EvenSemesterSubjects| && AllDraws(draws)
    requires table != db as object && table != registry as object && db != registry as object
    modifies db, registry, table
    ensures db.Valid() && table.Valid()
    ensures db.teachers == old(db.teachers) + created
    ensures AllSeededShape(created, departmentId)
    ensures thrown ==> table.subjects == old(table.subjects)
    ensures !thrown ==>
      (|created| > 0 && |created| == NamedRows(rows)
       && table.subjects == PlanSubjects(old(table.subjects), EvenSemesterSubjects,
                                         SemesterMapOf(SemesterNumbers, semesterIds), TeacherIds(created),
                                         draws, branchId))
  {
    var semesters := BuildSemesterMap(SemesterNumbers, semesterIds);
    var finished;
    ghost var rowOf;
    created, finished, rowOf := SeedTeachers(db, registry, rows, ins, passwordHash, departmentId);
    if !finished {
      return created, true;
    }
    var err := AssignSubjects(table, EvenSemesterSubjects, semesters, TeacherIds(created), draws, branchId);
    thrown := err.Some?;
  }

  /** Every subject the script writes is taught by a teacher it created. */
  lemma SubjectsTaughtBySeededTeachers(table: seq<Subject>, created: seq<TeacherProfile>,
                                       semesters: map<int, string>, draws: seq<real>, branchId: string, k: nat)
    requires |created| > 0 && |draws| == |EvenSemesterSubjects| && AllDraws(draws)
    requires |table| <= k < |PlanSubjects(table, EvenSemesterSubjects, semesters, TeacherIds(created), draws, branchId)|
    ensures var r := PlanSubjects(table, EvenSemesterSubjects, semesters, TeacherIds(created), draws, branchId);
      exists t :: 0 <= t < |created| && created[t].userId == r[k].teacherId
  {
    PlanSubjectsShape(table, EvenSemesterSubjects, semesters, TeacherIds(created), draws, branchId);
    var r := PlanSubjects(table, EvenSemesterSubjects, semesters, TeacherIds(created), draws, branchId);
    assert r[k].teacherId in TeacherIds(created);
    var t :| 0 <= t < |TeacherIds(created)| && TeacherIds(created)[t] == r[k].teacherId;
    assert created[t].userId == r[k].teacherId;
  }

  /** Distinct codes. */
  predicate SpecCodesDistinct(specs: seq<SubjectSpec>)
  {
    forall i, j :: 0 <= i < j < |specs| ==> specs[i].code != specs[j].code
  }

  /** When every semester is mapped, the codes are distinct and none is in
      the table yet, the loop writes every spec, in list order. */
  lemma {:induction false} AllSpecsCreated(table: seq<Subject>, specs: seq<SubjectSpec>, semesters: map<int, string>,
                                            teacherIds: seq<string>, draws: seq<real>, branchId: string)
    requires |teacherIds| > 0 && |draws| == |specs| && AllDraws(draws)
    requires forall i :: 0 <= i < |specs| ==> specs[i].sem in semesters && !CodeTaken(table, specs[i].code)
    requires SpecCodesDistinct(specs)
    ensures var r := PlanSubjects(table, specs, semesters, teacherIds, draws, branchId);
      |r| == |table| + |specs| && forall i :: 0 <= i < |specs| ==> r[|table| + i].code == specs[i].code
    decreases |specs|
  {
    if specs != [] {
      var n := |specs| - 1;
      assert forall i :: 0 <= i < n ==> specs[..n][i] == specs[i];
      AllSpecsCreated(table, specs[..n], semesters, teacherIds, draws[..n], branchId);
      NotTakenAfterPlan(table, specs, semesters, teacherIds, draws, branchId);
      PlanStep(table, specs, semesters, teacherIds, draws, branchId, n);
      assert specs[..n + 1] == specs && draws[..n + 1] == draws;
    }
  }

  /** Under the conditions of AllSpecsCreated, the last spec's code is not
      in the table the earlier specs leave. */
  lemma NotTakenAfterPlan(table: seq<Subject>, specs: seq<SubjectSpec>, semesters: map<int, string>,
                          teacherIds: seq<string>, draws: seq<real>, branchId: string)
    requires |teacherIds| > 0 && |draws| == |specs| && AllDraws(draws) && specs != []
    requires !CodeTaken(table, specs[|specs| - 1].code)
    requires SpecCodesDistinct(specs)
    requires var n := |specs| - 1;
      var before := PlanSubjects(table, specs[..n], semesters, teacherIds, draws[..n], branchId);
      |before| == |table| + n && forall i :: 0 <= i < n ==> before[|table| + i].code == specs[..n][i].code
    ensures var n := |specs| - 1;
      !CodeTaken(PlanSubjects(table, specs[..n], semesters, teacherIds, draws[..n], branchId), specs[n].code)
  {
    var n := |specs| - 1;
    PlanSubjectsShape(table, specs[..n], semesters, teacherIds, draws[..n], branchId);
    var before := PlanSubjects(table, specs[..n], semesters, teacherIds, draws[..n], branchId);
    forall k | 0 <= k < |before|
      ensures before[k].code != specs[n].code
    {
      if k < |table| {
        assert before[k] == before[..|table|][k] == table[k];
      } else {
        assert before[|table| + (k - |table|)].code == specs[..n][k - |table|].code;
        assert specs[..n][k - |table|] == specs[k - |table|];
      }
    }
  }

  /** The list's codes are distinct. */
  lemma EvenSemesterCodesDistinct()
    ensures SpecCodesDistinct(EvenSemesterSubjects)
  {
    CodeListDistinct();
    CodeListMatches();
  }

  /** The codes of the list, in order. */
  const EvenSemesterCodes: seq<string> := [
    "SH451", "EX452", "SH453", "CT451", "ME453", "EE460", "SH551", "CT551", "CT552", "EX553", "EX554", "SH553",
    "SH655", "CT658", "EX653", "EX656", "CT657", "CT655", "EX654", "EX756", "CE752", "EX757", "CT751", "EX765",
    "EX785", "EX755"]

  lemma CodeListDistinct()
    ensures forall i, j :: 0 <= i < j < |EvenSemesterCodes| ==> EvenSemesterCodes[i] != EvenSemesterCodes[j]
  {
  }

  lemma CodeListMatches()
    ensures |EvenSemesterSubjects| == |EvenSemesterCodes|
    ensures forall i :: 0 <= i < |EvenSemesterSubjects| ==> EvenSemesterSubjects[i].code == EvenSemesterCodes[i]
  {
  }

  /** On a table holding none of the list's codes, with the semester map
      of the script, all 26 subjects are written. */
  lemma EvenSemesterSubjectsAllCreated(table: seq<Subject>, semesterIds: seq<string>, teacherIds: seq<string>,
                                       draws: seq<real>, branchId: string)
    requires |semesterIds| == 4 && |teacherIds| > 0 && |draws| == |EvenSemesterSubjects| && AllDraws(draws)
    requires forall i :: 0 <= i < |EvenSemesterSubjects| ==> !CodeTaken(table, EvenSemesterSubjects[i].code)
    ensures |PlanSubjects(table, EvenSemesterSubjects, SemesterMapOf(SemesterNumbers, semesterIds),
                          teacherIds, draws, branchId)| == |table| + 26
  {
    EvenSemestersOnly(semesterIds);
    EvenSemesterCodesDistinct();
    AllSpecsCreated(table, EvenSemesterSubjects, SemesterMapOf(SemesterNumbers, semesterIds), teacherIds, draws, branchId);
  }
}
