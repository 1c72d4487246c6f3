/** The student dashboard's card data: the weighted score of one subject, its
    percentage of the maximum possible score, and the status chosen from the
    percentage before it is rounded for display. */
module StudentDashboard {
  import opened Scoring

  datatype WeightedAttendance = WeightedAttendance(
    weightedScore: real, maxPossibleScore: int, attendancePercentage: real, status: Status)

  datatype SubjectAttendance = SubjectAttendance(
    id: int, subjectCode: string, subjectName: string, teacher: string,
    totalClasses: int, present: nat, delayedPresent: nat, latePresent: nat, absent: nat,
    weightedScore: real, maxPossibleScore: int, attendancePercentage: real, status: Status)

  /** The unrounded percentage the status is decided on. */
  function RawPercentage(present: nat, delayedPresent: nat, latePresent: nat, absent: nat, totalClasses: int): real
  {
    Percentage(WeightedScore(present, delayedPresent, latePresent, absent), totalClasses)
  }

  /** calculateWeightedAttendance: the score rounded to two decimals, the
      class count as the maximum score, the percentage rounded to one
      decimal, and the status of the unrounded percentage. */
  function CalculateWeightedAttendance(present: nat, delayedPresent: nat, latePresent: nat, absent: nat,
                                       totalClasses: int): (r: WeightedAttendance)
    ensures r.maxPossibleScore == totalClasses
    ensures r.status == Classify(RawPercentage(present, delayedPresent, latePresent, absent, totalClasses))
    ensures -0.005 <= r.weightedScore - WeightedScore(present, delayedPresent, latePresent, absent) <= 0.005
    ensures r.weightedScore == Round2(WeightedScore(present, delayedPresent, latePresent, absent))
    ensures r.attendancePercentage == Round1(RawPercentage(present, delayedPresent, latePresent, absent, totalClasses))
    ensures totalClasses <= 0 ==> r.attendancePercentage == 0.0 && r.status == Critical
    ensures present + delayedPresent + latePresent <= totalClasses ==> 0.0 <= r.attendancePercentage <= 100.0
  {
    var weightedScore := WeightedScore(present, delayedPresent, latePresent, absent);
    var attendancePercentage := Percentage(weightedScore, totalClasses);
    var status := Classify(attendancePercentage);
    if present + delayedPresent + latePresent <= totalClasses then
      WeightedScoreBounds(present, delayedPresent, latePresent, absent);
      PercentageInRange(weightedScore, totalClasses);
      Round1InRange(attendancePercentage);
      WeightedAttendance(Round2(weightedScore), totalClasses, Round1(attendancePercentage), status)
    else
      WeightedAttendance(Round2(weightedScore), totalClasses, Round1(attendancePercentage), status)
  }

  /** The card's percentage in whole numbers: with classes held it is
      10 x (10p + 8d + 6l) / total rounded to one decimal, and 0 otherwise. */
  lemma CardPercentageInTenths(present: nat, delayedPresent: nat, latePresent: nat, absent: nat, totalClasses: int)
    ensures var r := CalculateWeightedAttendance(present, delayedPresent, latePresent, absent, totalClasses);
      (totalClasses > 0 ==>
         r.attendancePercentage == Round1(ScoreTenths(present, delayedPresent, latePresent) as real * 10.0 / totalClasses as real))
      && (totalClasses <= 0 ==> r.attendancePercentage == 0.0)
  {
    if totalClasses > 0 {
      PercentageFromTenths(present, delayedPresent, latePresent, absent, totalClasses);
    }
  }

  /** The absent count has no effect on the card's derived fields. */
  lemma AbsentIsIgnored(present: nat, delayedPresent: nat, latePresent: nat, a1: nat, a2: nat, totalClasses: int)
    ensures CalculateWeightedAttendance(present, delayedPresent, latePresent, a1, totalClasses)
         == CalculateWeightedAttendance(present, delayedPresent, latePresent, a2, totalClasses)
  {
    WeightedScoreBounds(present, delayedPresent, latePresent, a1);
    WeightedScoreBounds(present, delayedPresent, latePresent, a2);
  }

  /** Full attendance is always good; an all-absent record with classes
      held is always critical. */
  lemma Extremes(n: nat)
    requires n > 0
    ensures CalculateWeightedAttendance(n, 0, 0, 0, n).status == Good
    ensures CalculateWeightedAttendance(n, 0, 0, 0, n).attendancePercentage == 100.0
    ensures CalculateWeightedAttendance(0, 0, 0, n, n).status == Critical
    ensures CalculateWeightedAttendance(0, 0, 0, n, n).attendancePercentage == 0.0
  {
    var full := CalculateWeightedAttendance(n, 0, 0, 0, n);
    assert RawPercentage(n, 0, 0, 0, n) == 100.0 by {
      assert WeightedScore(n, 0, 0, 0) == n as real;
      FullPercentage(n);
    }
    Round1Hundred();
    var none := CalculateWeightedAttendance(0, 0, 0, n, n);
    assert RawPercentage(0, 0, 0, n, n) == 0.0 by {
      assert WeightedScore(0, 0, 0, n) == 0.0;
    }
  }

  /** Turning a delayed class into a present one never lowers the status. */
  lemma PromotionNeverHurts(present: nat, delayedPresent: nat, latePresent: nat, absent: nat, totalClasses: int)
    requires delayedPresent > 0
    ensures Rank(CalculateWeightedAttendance(present, delayedPresent, latePresent, absent, totalClasses).status)
         <= Rank(CalculateWeightedAttendance(present + 1, delayedPresent - 1, latePresent, absent, totalClasses).status)
  {
    var before := WeightedScore(present, delayedPresent, latePresent, absent);
    var after := WeightedScore(present + 1, delayedPresent - 1, latePresent, absent);
    PercentageMonotone(before, after, totalClasses);
    ClassifyMonotone(Percentage(before, totalClasses), Percentage(after, totalClasses));
  }

  /** createSubject: the identity and the four counts are copied unchanged,
      the derived fields come from CalculateWeightedAttendance. */
  function CreateSubject(id: int, subjectCode: string, subjectName: string, teacher: string,
                         totalClasses: int, present: nat, delayedPresent: nat, latePresent: nat,
                         absent: nat): (s: SubjectAttendance)
    ensures s.id == id && s.subjectCode == subjectCode && s.subjectName == subjectName && s.teacher == teacher
    ensures s.totalClasses == totalClasses && s.present == present && s.delayedPresent == delayedPresent
    ensures s.latePresent == latePresent && s.absent == absent
    ensures s.maxPossibleScore == totalClasses
    ensures var w := CalculateWeightedAttendance(present, delayedPresent, latePresent, absent, totalClasses);
      s.weightedScore == w.weightedScore && s.attendancePercentage == w.attendancePercentage && s.status == w.status
  {
    var w := CalculateWeightedAttendance(present, delayedPresent, latePresent, absent, totalClasses);
    SubjectAttendance(id, subjectCode, subjectName, teacher, totalClasses, present, delayedPresent,
                      latePresent, absent, w.weightedScore, w.maxPossibleScore, w.attendancePercentage, w.status)
  }

  /** The card's status is decided before rounding: 320 present and 1 late
      out of 401 classes displays 80.0 % yet is a warning. */
  lemma StatusDecidedBeforeRounding()
    ensures var s := CreateSubject(1, "OS", "Operating Systems", "BP", 401, 320, 0, 1, 80);
      s.attendancePercentage == 80.0 && s.status == Warning
  {
    var raw := RawPercentage(320, 0, 1, 80, 401);
    assert WeightedScore(320, 0, 1, 80) == 320.6;
    assert raw == 32060.0 / 401.0;
    assert raw * 10.0 + 0.5 == 641601.0 / 802.0;
    assert (641601.0 / 802.0).Floor == 800;
  }
}
