/** The mock month generator behind the original student dashboard: how many
    classes a subject has in the month of Paush 2082, how a random attendance
    rate is split into present / delayed (DP) / late (LP) / absent counts, the
    per-subject records built from the subject table, and the overall totals
    with the best subject. */
module AttendanceLogic {
  import opened Common
  import opened Scoring

  const PaushDays: int := 31
  const SaturdaysInPaush: int := 4
  const PublicHolidays: int := 3

  /** Days on which classes are held: 31 - 4 - 3 = 24. */
  const WorkingDays: int := PaushDays - SaturdaysInPaush - PublicHolidays

  datatype ClassType = Theory | Lab

  datatype SubjectConfig = SubjectConfig(
    id: int, name: string, teacher: string, code: Option<string>,
    classType: ClassType, classesPerWeek: int, color: string)

  datatype Attendance = Attendance(present: int, absent: int, dp: int, lp: int)

  datatype SubjectData = SubjectData(
    id: int, name: string, teacher: string, code: Option<string>,
    totalClasses: int, present: int, absent: int, dp: int, lp: int,
    holiday: int, color: string, attendancePercentage: int)

  /** Classes of a subject in the month: labs meet once a week, theory
      subjects floor(24 / 7 * classesPerWeek) times, capped at floor(24 / 2). */
  function CalculateTotalClasses(classType: ClassType, classesPerWeek: int): (n: int)
    ensures classType == Lab ==> n == WorkingDays / 7 == 3
    ensures classType == Theory ==> n <= WorkingDays / 2 == 12
    ensures classType == Theory ==>
      n == (if WorkingDays * classesPerWeek / 7 < 12 then WorkingDays * classesPerWeek / 7 else 12)
    ensures classesPerWeek >= 0 ==> n >= 0
  {
    match classType
    case Lab => WorkingDays / 7
    case Theory =>
      var classesPerMonth := WorkingDays * classesPerWeek / 7;
      if classesPerMonth < WorkingDays / 2 then classesPerMonth else WorkingDays / 2
  }

  /** The cap binds from four theory classes a week on. */
  lemma TheoryCap(classesPerWeek: int)
    ensures classesPerWeek >= 4 ==> CalculateTotalClasses(Theory, classesPerWeek) == 12
    ensures 0 <= classesPerWeek <= 3 ==> CalculateTotalClasses(Theory, classesPerWeek) == 24 * classesPerWeek / 7
  {
  }

  /** The attendance rate drawn for a subject: min + u * (max - min), with u
      the value of `Math.random()`. */
  function AttendanceRate(u: real, minRate: real, maxRate: real): real
  {
    minRate + u * (maxRate - minRate)
  }

  lemma AttendanceRateInRange(u: real, minRate: real, maxRate: real)
    requires 0.0 <= u < 1.0 && minRate <= maxRate
    ensures minRate <= AttendanceRate(u, minRate, maxRate) <= maxRate
  {
    MulNonNegative(1.0 - u, maxRate - minRate);
    MulNonNegative(u, maxRate - minRate);
  }

  lemma MulNonNegative(a: real, b: real)
    requires a >= 0.0 && b >= 0.0
    ensures a * b >= 0.0
  {
  }

  /** A rounded fraction of n, for a fraction in [0, 1], lies in [0, n]. */
  lemma RoundedFractionInRange(n: int, f: real)
    requires n >= 0 && 0.0 <= f <= 1.0
    ensures 0 <= RoundHalfUp(n as real * f) <= n
  {
    MulNonNegative(n as real, f);
    MulNonNegative(n as real, 1.0 - f);
    RoundHalfUpWithin(n as real * f, 0, n);
  }

  /** The random attendance of one subject: round(total * rate) classes are
      attended, of which round(0.7 * attended) are present, round(0.6 * rest)
      delayed, and the remainder late. */
  function GenerateAttendanceData(totalClasses: int, u: real, minRate: real, maxRate: real): (a: Attendance)
    ensures a.present + a.dp + a.lp + a.absent == totalClasses
    ensures var attended := a.present + a.dp + a.lp;
      && totalClasses as real * AttendanceRate(u, minRate, maxRate) - 0.5 < attended as real
      && attended as real <= totalClasses as real * AttendanceRate(u, minRate, maxRate) + 0.5
      && attended as real * 0.7 - 0.5 < a.present as real <= attended as real * 0.7 + 0.5
      && (attended - a.present) as real * 0.6 - 0.5 < a.dp as real <= (attended - a.present) as real * 0.6 + 0.5
  {
    var expected := totalClasses as real * AttendanceRate(u, minRate, maxRate);
    var totalAttended := RoundHalfUp(expected);
    var present := RoundHalfUp(totalAttended as real * 0.7);
    var dp := RoundHalfUp((totalAttended - present) as real * 0.6);
    var lp := totalAttended - present - dp;
    Attendance(present, totalClasses - totalAttended, dp, lp)
  }

  /** With a draw in [0, 1) and rate bounds inside [0, 1], no count is
      negative. */
  lemma GeneratedCountsNonNegative(totalClasses: int, u: real, minRate: real, maxRate: real)
    requires totalClasses >= 0 && 0.0 <= u < 1.0 && 0.0 <= minRate <= maxRate <= 1.0
    ensures var a := GenerateAttendanceData(totalClasses, u, minRate, maxRate);
      0 <= a.present && 0 <= a.dp && 0 <= a.lp && 0 <= a.absent
  {
    var a := GenerateAttendanceData(totalClasses, u, minRate, maxRate);
    var rate := AttendanceRate(u, minRate, maxRate);
    var totalAttended := RoundHalfUp(totalClasses as real * rate);
    var present := RoundHalfUp(totalAttended as real * 0.7);
    var dp := RoundHalfUp((totalAttended - present) as real * 0.6);
    assert a.present == present && a.dp == dp;
    assert a.absent == totalClasses - totalAttended && a.lp == totalAttended - present - dp;
    AttendanceRateInRange(u, minRate, maxRate);
    RoundedFractionInRange(totalClasses, rate);
    assert 0 <= totalAttended <= totalClasses;
    RoundedFractionInRange(totalAttended, 0.7);
    assert 0 <= present <= totalAttended;
    RoundedFractionInRange(totalAttended - present, 0.6);
  }

  /** Default attendance-rate bounds of the generator. */
  const MinAttendanceRate: real := 0.7
  const MaxAttendanceRate: real := 0.95

  /** One subject record: the config's identity copied, the class count from
      CalculateTotalClasses, the random counts, no holidays, and the rounded
      share of attended classes. */
  function MakeSubject(config: SubjectConfig, u: real): (s: SubjectData)
  {
    var totalClasses := CalculateTotalClasses(config.classType, config.classesPerWeek);
    var attendance := GenerateAttendanceData(totalClasses, u, MinAttendanceRate, MaxAttendanceRate);
    var holiday := 0;
    var attendedClasses := attendance.present + attendance.dp + attendance.lp;
    var attendancePercentage :=
      if totalClasses > 0 then RoundHalfUp(attendedClasses as real / (totalClasses - holiday) as real * 100.0)
      else 0;
    SubjectData(config.id, config.name, config.teacher, config.code, totalClasses,
                attendance.present, attendance.absent, attendance.dp, attendance.lp,
                holiday, config.color, attendancePercentage)
  }

  /** The percentage is the rounded share of attended classes and lies in
      [0, 100]; the counts add up to the class count. */
  lemma MakeSubjectFacts(config: SubjectConfig, u: real)
    requires 0.0 <= u < 1.0 && config.classesPerWeek >= 0
    ensures var s := MakeSubject(config, u);
      && s.present + s.dp + s.lp + s.absent == s.totalClasses
      && 0 <= s.present && 0 <= s.dp && 0 <= s.lp && 0 <= s.absent
      && 0 <= s.attendancePercentage <= 100
      && (s.totalClasses > 0 ==>
            s.attendancePercentage == RoundHalfUp(Percentage((s.present + s.dp + s.lp) as real, s.totalClasses)))
  {
    var s := MakeSubject(config, u);
    GeneratedCountsNonNegative(s.totalClasses, u, MinAttendanceRate, MaxAttendanceRate);
    var attended := (s.present + s.dp + s.lp) as real;
    if s.totalClasses > 0 {
      PercentageInRange(attended, s.totalClasses);
      RoundHalfUpWithin(Percentage(attended, s.totalClasses), 0, 100);
    }
  }

  /** `subjectConfigs.map(...)`: one record per config, in config order; u[i]
      is the random draw used for config i. */
  function GenerateSubjectsData(configs: seq<SubjectConfig>, draws: seq<real>): (r: seq<SubjectData>)
    requires |draws| == |configs|
    ensures |r| == |configs|
    ensures forall i :: 0 <= i < |configs| ==>
      && r[i].id == configs[i].id && r[i].name == configs[i].name
      && r[i].teacher == configs[i].teacher && r[i].code == configs[i].code
      && r[i].color == configs[i].color && r[i].holiday == 0
      && r[i].totalClasses == CalculateTotalClasses(configs[i].classType, configs[i].classesPerWeek)
  {
    seq(|configs|, i requires 0 <= i < |configs| => MakeSubject(configs[i], draws[i]))
  }

  /** Every generated record is well formed when the draws come from
      `Math.random()` and the weekly counts are non-negative. */
  lemma GenerateSubjectsDataFacts(configs: seq<SubjectConfig>, draws: seq<real>, i: int)
    requires |draws| == |configs| && 0 <= i < |configs|
    requires 0.0 <= draws[i] < 1.0 && configs[i].classesPerWeek >= 0
    ensures var s := GenerateSubjectsData(configs, draws)[i];
      && s.present + s.dp + s.lp + s.absent == s.totalClasses
      && 0 <= s.attendancePercentage <= 100
  {
    MakeSubjectFacts(configs[i], draws[i]);
  }

  /** The subject table the generator runs on. */
  const SubjectConfigs: seq<SubjectConfig> := [
    SubjectConfig(1, "OS", "BP", None, Theory, 2, "#3B82F6"),
    SubjectConfig(2, "Engineering Economics", "KKB", None, Theory, 2, "#8B5CF6"),
    SubjectConfig(3, "Computer Network", "PA", None, Theory, 2, "#10B981"),
    SubjectConfig(4, "Computer Architecture", "BHP", None, Theory, 2, "#F59E0B"),
    SubjectConfig(5, "Filter Design", "BS", None, Theory, 2, "#EF4444"),
    SubjectConfig(6, "DBMS", "RKC", None, Theory, 2, "#06B6D4"),
    SubjectConfig(7, "Computer Network Lab", "PA", None, Lab, 1, "#EC4899"),
    SubjectConfig(8, "DBMS Lab", "RKC", None, Lab, 1, "#84CC16"),
    SubjectConfig(9, "Filter Design Lab", "BS", None, Lab, 1, "#F97316"),
    SubjectConfig(10, "COA Lab", "BHP", None, Lab, 1, "#6366F1")
  ]

  /** With the configured table every theory subject has 6 classes a month
      and every lab 3. */
  lemma ConfiguredClassCounts()
    ensures forall i :: 0 <= i < |SubjectConfigs| ==>
      CalculateTotalClasses(SubjectConfigs[i].classType, SubjectConfigs[i].classesPerWeek)
        == (if SubjectConfigs[i].classType == Lab then 3 else 6)
  {
  }

  datatype OverallStats = OverallStats(
    totalPresent: int, totalAbsent: int, totalDP: int, totalLP: int,
    totalClasses: int, overallPercentage: int, bestSubject: string, totalSubjects: int)

  /** `Array.prototype.reduce` without a seed throws on an empty array. */
  datatype StatsError = ReduceOfEmptyArray

  datatype Result<T> = Success(value: T) | Failure(error: StatsError)

  /** Field-wise sums over the subjects, as the forEach loop accumulates them. */
  function SumPresent(s: seq<SubjectData>): int
  {
    if s == [] then 0 else SumPresent(s[..|s| - 1]) + s[|s| - 1].present
  }

  function SumAbsent(s: seq<SubjectData>): int
  {
    if s == [] then 0 else SumAbsent(s[..|s| - 1]) + s[|s| - 1].absent
  }

  function SumDP(s: seq<SubjectData>): int
  {
    if s == [] then 0 else SumDP(s[..|s| - 1]) + s[|s| - 1].dp
  }

  function SumLP(s: seq<SubjectData>): int
  {
    if s == [] then 0 else SumLP(s[..|s| - 1]) + s[|s| - 1].lp
  }

  function SumClasses(s: seq<SubjectData>): int
  {
    if s == [] then 0 else SumClasses(s[..|s| - 1]) + s[|s| - 1].totalClasses
  }

  /** The subject the seedless reduce keeps: a later subject replaces the
      current best only when its percentage is strictly higher, so the result
      is the earliest subject with the highest percentage. */
  function BestSubjectIndex(s: seq<SubjectData>): (k: nat)
    requires |s| > 0
    ensures k < |s|
    ensures forall j :: 0 <= j < |s| ==> s[j].attendancePercentage <= s[k].attendancePercentage
    ensures forall j :: 0 <= j < k ==> s[j].attendancePercentage < s[k].attendancePercentage
  {
    if |s| == 1 then 0
    else
      var b := BestSubjectIndex(s[..|s| - 1]);
      if s[|s| - 1].attendancePercentage > s[b].attendancePercentage then |s| - 1 else b
  }

  /** The overall totals: five running sums over the subjects, the rounded
      overall share of attended classes, and the name of the best subject. */
  method CalculateOverallStats(subjects: seq<SubjectData>) returns (r: Result<OverallStats>)
    ensures subjects == [] <==> r.Failure?
    ensures r.Success? ==>
      var st := r.value;
      && st.totalPresent == SumPresent(subjects) && st.totalAbsent == SumAbsent(subjects)
      && st.totalDP == SumDP(subjects) && st.totalLP == SumLP(subjects)
      && st.totalClasses == SumClasses(subjects)
      && st.totalSubjects == |subjects|
      && st.overallPercentage ==
           (if st.totalClasses > 0
            then RoundHalfUp((st.totalPresent + st.totalDP + st.totalLP) as real / st.totalClasses as real * 100.0)
            else 0)
      && st.bestSubject == subjects[BestSubjectIndex(subjects)].name
  {
    var totalPresent, totalAbsent, totalDP, totalLP, totalClasses := 0, 0, 0, 0, 0;
    var i := 0;
    while i < |subjects|
      invariant 0 <= i <= |subjects|
      invariant totalPresent == SumPresent(subjects[..i]) && totalAbsent == SumAbsent(subjects[..i])
      invariant totalDP == SumDP(subjects[..i]) && totalLP == SumLP(subjects[..i])
      invariant totalClasses == SumClasses(subjects[..i])
    {
      var subject := subjects[i];
      assert subjects[..i + 1][..i] == subjects[..i];
      totalPresent := totalPresent + subject.present;
      totalAbsent := totalAbsent + subject.absent;
      totalDP := totalDP + subject.dp;
      totalLP := totalLP + subject.lp;
      totalClasses := totalClasses + subject.totalClasses;
      i := i + 1;
    }
    assert subjects[..i] == subjects;
    var totalAttended := totalPresent + totalDP + totalLP;
    var overallPercentage :=
      if totalClasses > 0 then RoundHalfUp(totalAttended as real / totalClasses as real * 100.0) else 0;
    if |subjects| == 0 {
      return Failure(ReduceOfEmptyArray);
    }
    var best := subjects[BestSubjectIndex(subjects)];
    r := Success(OverallStats(totalPresent, totalAbsent, totalDP, totalLP, totalClasses,
                              overallPercentage, best.name, |subjects|));
  }

  /** When every subject's attended classes are within its class count, so
      is the total, and the overall percentage lies in [0, 100]. */
  lemma {:induction false} OverallAttendedWithinClasses(s: seq<SubjectData>)
    requires forall i :: 0 <= i < |s| ==> 0 <= s[i].present && 0 <= s[i].dp && 0 <= s[i].lp
    requires forall i :: 0 <= i < |s| ==> s[i].present + s[i].dp + s[i].lp <= s[i].totalClasses
    ensures 0 <= SumPresent(s) + SumDP(s) + SumLP(s) <= SumClasses(s)
  {
    if s != [] {
      OverallAttendedWithinClasses(s[..|s| - 1]);
    }
  }
}
