/** The teacher dashboard's card data: the share of enrolled students marked
    present, its status, the absent slice of the pie and the width of the
    progress bar. */
module TeacherDashboard {
  import opened Scoring

  datatype TeacherSubject = TeacherSubject(
    id: int, subjectName: string, departmentName: string, totalClasses: int,
    presentStudents: int, totalStudents: int, attendancePercentage: real, status: Status)

  /** createTeacherSubject: every input copied, the percentage of present
      students rounded to one decimal, the status of the unrounded value. */
  function CreateTeacherSubject(id: int, subjectName: string, departmentName: string, totalClasses: int,
                                presentStudents: int, totalStudents: int): (s: TeacherSubject)
    ensures s.id == id && s.subjectName == subjectName && s.departmentName == departmentName
    ensures s.totalClasses == totalClasses && s.presentStudents == presentStudents
    ensures s.totalStudents == totalStudents
    ensures s.status == Classify(Percentage(presentStudents as real, totalStudents))
    ensures s.attendancePercentage == Round1(Percentage(presentStudents as real, totalStudents))
    ensures -0.05 <= s.attendancePercentage - Percentage(presentStudents as real, totalStudents) <= 0.05
    ensures totalStudents <= 0 ==> s.attendancePercentage == 0.0 && s.status == Critical
    ensures 0 <= presentStudents <= totalStudents ==> 0.0 <= s.attendancePercentage <= 100.0
  {
    var attendancePercentage := Percentage(presentStudents as real, totalStudents);
    var status := Classify(attendancePercentage);
    if 0 <= presentStudents <= totalStudents then
      PercentageInRange(presentStudents as real, totalStudents);
      Round1InRange(attendancePercentage);
      TeacherSubject(id, subjectName, departmentName, totalClasses, presentStudents, totalStudents,
                     Round1(attendancePercentage), status)
    else
      TeacherSubject(id, subjectName, departmentName, totalClasses, presentStudents, totalStudents,
                     Round1(attendancePercentage), status)
  }

  /** The "Absent" slice of the pie chart. */
  function AbsentSlice(s: TeacherSubject): (n: int)
    ensures s.presentStudents <= s.totalStudents ==> n >= 0
    ensures n + s.presentStudents == s.totalStudents
  {
    s.totalStudents - s.presentStudents
  }

  /** The progress bar's width in percent: `Math.min(percentage, 100)`. */
  function ProgressWidth(s: TeacherSubject): (w: real)
    ensures w <= 100.0
    ensures w <= s.attendancePercentage
    ensures w == s.attendancePercentage || w == 100.0
  {
    if s.attendancePercentage < 100.0 then s.attendancePercentage else 100.0
  }

  /** The bar never exceeds its track and is empty only for a 0 % subject. */
  lemma ProgressWidthOfCard(id: int, name: string, dept: string, classes: int, present: int, total: int)
    requires 0 <= present <= total
    ensures var s := CreateTeacherSubject(id, name, dept, classes, present, total);
      0.0 <= ProgressWidth(s) <= 100.0 && ProgressWidth(s) == s.attendancePercentage
  {
  }

  /** The card decides the status before rounding: 1999 present of 2500
      students shows 80.0 % and is a warning. */
  lemma StatusDecidedBeforeRounding()
    ensures var s := CreateTeacherSubject(1, "Networks", "Computer", 12, 1999, 2500);
      s.attendancePercentage == 80.0 && s.status == Warning
  {
    assert Percentage(1999.0, 2500) == 79.96;
    assert 79.96 * 10.0 + 0.5 == 800.1;
    assert (800.1).Floor == 800;
  }
}
