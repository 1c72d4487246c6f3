/** GET /api/teacher/me/dashboard: checks the teacherId query parameter and
    the teacher's existence, then turns each per-subject aggregate row into
    a subject entry. The aggregate rows are the SQL query's result and come
    in as data. */
module TeacherDashboardApi {
  import opened Common
  import opened Scoring

  /** One row of the per-subject aggregate query. */
  datatype Row = Row(
    subjectId: string, subjectCode: string, subjectName: string,
    totalClasses: int, totalStudents: int, presentStudents: int)

  datatype Teacher = Teacher(
    id: string, firstName: string, lastName: string, email: Option<string>, department: Option<string>)

  datatype TeacherHeader = TeacherHeader(id: string, name: string, email: Option<string>, department: Option<string>)

  datatype SubjectEntry = SubjectEntry(
    subjectId: string, subjectCode: string, subjectName: string,
    totalClasses: int, totalStudents: int, presentStudents: int,
    attendancePercentage: real, status: Status)

  datatype TeacherDashboardResponse =
    | MissingTeacherId
    | TeacherNotFound
    | Dashboard(teacher: TeacherHeader, subjects: seq<SubjectEntry>)

  function HttpStatus(r: TeacherDashboardResponse): int
  {
    match r
    case MissingTeacherId => 400
    case TeacherNotFound => 404
    case Dashboard(_, _) => 200
  }

  /** One subject entry: the counts passed through, the share of present
      students rounded to one decimal, the status of that rounded value. */
  function SubjectOf(r: Row): (e: SubjectEntry)
    ensures e.subjectId == r.subjectId && e.subjectCode == r.subjectCode && e.subjectName == r.subjectName
    ensures e.totalClasses == r.totalClasses && e.totalStudents == r.totalStudents
    ensures e.presentStudents == r.presentStudents
    ensures r.totalStudents <= 0 ==> e.attendancePercentage == 0.0
    ensures r.totalStudents > 0 ==> e.attendancePercentage == Round1(Percentage(r.presentStudents as real, r.totalStudents))
    ensures r.totalStudents > 0 ==>
      -0.05 <= e.attendancePercentage - Percentage(r.presentStudents as real, r.totalStudents) <= 0.05
    ensures 0 <= r.presentStudents <= r.totalStudents ==> 0.0 <= e.attendancePercentage <= 100.0
    ensures e.status == Classify(e.attendancePercentage)
  {
    var attendancePercentage :=
      if r.totalStudents > 0 then Round1(r.presentStudents as real / r.totalStudents as real * 100.0) else 0.0;
    if 0 <= r.presentStudents <= r.totalStudents && r.totalStudents > 0 then
      PercentageInRange(r.presentStudents as real, r.totalStudents);
      Round1InRange(Percentage(r.presentStudents as real, r.totalStudents));
      SubjectEntry(r.subjectId, r.subjectCode, r.subjectName, r.totalClasses, r.totalStudents,
                   r.presentStudents, attendancePercentage, Classify(attendancePercentage))
    else
      SubjectEntry(r.subjectId, r.subjectCode, r.subjectName, r.totalClasses, r.totalStudents,
                   r.presentStudents, attendancePercentage, Classify(attendancePercentage))
  }

  /** GET: 400 without a (non-empty) teacherId, before any lookup; 404 for an
      unknown teacher; otherwise one entry per row, in row order. */
  function Get(teacherId: Option<string>, teachers: map<string, Teacher>, rows: seq<Row>): (resp: TeacherDashboardResponse)
    ensures !Present(teacherId) <==> resp == MissingTeacherId
    ensures resp == TeacherNotFound <==> Present(teacherId) && teacherId.value !in teachers
    ensures resp.Dashboard? ==>
      var t := teachers[teacherId.value];
      resp.teacher == TeacherHeader(t.id, t.firstName + " " + t.lastName, t.email, t.department)
      && |resp.subjects| == |rows|
      && forall k :: 0 <= k < |rows| ==> resp.subjects[k] == SubjectOf(rows[k])
  {
    if !Present(teacherId) then MissingTeacherId
    else if teacherId.value !in teachers then TeacherNotFound
    else
      var t := teachers[teacherId.value];
      Dashboard(TeacherHeader(t.id, t.firstName + " " + t.lastName, t.email, t.department),
                seq(|rows|, k requires 0 <= k < |rows| => SubjectOf(rows[k])))
  }

  /** An empty teacherId is refused like a missing one, whatever the store
      and rows hold. */
  lemma EmptyTeacherIdRefused(teachers: map<string, Teacher>, rows: seq<Row>)
    ensures HttpStatus(Get(Some(""), teachers, rows)) == 400
    ensures HttpStatus(Get(None, teachers, rows)) == 400
  {
  }
}
