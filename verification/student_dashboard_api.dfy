/** GET /api/student/me/dashboard: the student's attendance records are
    grouped per subject, and every subject of the current semester is
    reported with its counts, weighted score, one-decimal percentage and
    status. The status is decided on the rounded percentage. */
module StudentDashboardApi {
  import opened Common
  import opened Scoring
  import StudentDashboard

  /** The recorded status of one attendance record. OtherStatus stands for
      any value outside the four the grouping recognises. */
  datatype AttendanceStatus = PRESENT | LATE | VERY_LATE | ABSENT | OtherStatus

  datatype AttendanceRecord = AttendanceRecord(subjectId: string, status: AttendanceStatus)

  datatype Counts = Counts(totalClasses: nat, present: nat, delayedPresent: nat, latePresent: nat, absent: nat)

  const NoCounts := Counts(0, 0, 0, 0, 0)

  datatype Subject = Subject(id: string, code: string, name: string, teacherFirstName: string, teacherLastName: string)

  datatype StudentProfile = StudentProfile(
    id: string, firstName: string, middleName: Option<string>, lastName: string, rollNo: string,
    semester: Option<int>, branch: string, attendanceRecords: seq<AttendanceRecord>)

  datatype StudentHeader = StudentHeader(id: string, name: string, rollNo: string, semester: Option<int>, branch: string)

  datatype SubjectSummary = SubjectSummary(
    subjectId: string, subjectCode: string, subjectName: string, teacher: string,
    totalClasses: nat, present: nat, delayedPresent: nat, latePresent: nat, absent: nat,
    weightedScore: real, maxPossibleScore: nat, attendancePercentage: real, status: Status)

  datatype DashboardResponse =
    | StudentNotFound
    | Dashboard(student: StudentHeader, subjects: seq<SubjectSummary>)

  function HttpStatus(r: DashboardResponse): int
  {
    match r
    case StudentNotFound => 404
    case Dashboard(_, _) => 200
  }

  /** One record's effect on its subject's counters: one more class, and one
      more in the matching column (none for an unrecognised status). */
  function Bump(c: Counts, status: AttendanceStatus): (d: Counts)
    ensures d.totalClasses == c.totalClasses + 1
    ensures d.present + d.delayedPresent + d.latePresent + d.absent
         == c.present + c.delayedPresent + c.latePresent + c.absent + (if status == OtherStatus then 0 else 1)
  {
    var c := c.(totalClasses := c.totalClasses + 1);
    match status
    case PRESENT => c.(present := c.present + 1)
    case LATE => c.(delayedPresent := c.delayedPresent + 1)
    case VERY_LATE => c.(latePresent := c.latePresent + 1)
    case ABSENT => c.(absent := c.absent + 1)
    case OtherStatus => c
  }

  function SubjectIds(records: seq<AttendanceRecord>): set<string>
  {
    set r | r in records :: r.subjectId
  }

  /** The counters of one subject over a list of records. */
  function Tally(records: seq<AttendanceRecord>, subjectId: string): (c: Counts)
    ensures c.present + c.delayedPresent + c.latePresent + c.absent <= c.totalClasses <= |records|
    ensures subjectId !in SubjectIds(records) ==> c == NoCounts
  {
    if records == [] then NoCounts
    else
      var last := records[|records| - 1];
      var rest := Tally(records[..|records| - 1], subjectId);
      assert SubjectIds(records[..|records| - 1]) <= SubjectIds(records) by {
        assert forall r :: r in records[..|records| - 1] ==> r in records;
      }
      if last.subjectId == subjectId then Bump(rest, last.status) else rest
  }

  /** One more record adds its subject to the ids. */
  lemma SubjectIdsStep(records: seq<AttendanceRecord>, i: nat)
    requires i < |records|
    ensures SubjectIds(records[..i + 1]) == SubjectIds(records[..i]) + {records[i].subjectId}
  {
    assert records[..i + 1] == records[..i] + [records[i]];
  }

  /** One more record bumps its own subject's counters only. */
  lemma TallyStep(records: seq<AttendanceRecord>, i: nat, id: string)
    requires i < |records|
    ensures Tally(records[..i + 1], id)
         == if records[i].subjectId == id then Bump(Tally(records[..i], id), records[i].status)
            else Tally(records[..i], id)
  {
    assert records[..i + 1][..i] == records[..i];
  }

  /** The counter update inside the grouping loop. */
  method Increment(c: Counts, status: AttendanceStatus) returns (d: Counts)
    ensures d == Bump(c, status)
  {
    d := c.(totalClasses := c.totalClasses + 1);
    if status == PRESENT {
      d := d.(present := d.present + 1);
    } else if status == LATE {
      d := d.(delayedPresent := d.delayedPresent + 1);
    } else if status == VERY_LATE {
      d := d.(latePresent := d.latePresent + 1);
    } else if status == ABSENT {
      d := d.(absent := d.absent + 1);
    }
  }

  /** The grouping loop: one entry per subject that has records, holding that
      subject's counters. */
  method GroupAttendance(records: seq<AttendanceRecord>) returns (grouped: map<string, Counts>)
    ensures grouped.Keys == SubjectIds(records)
    ensures forall id :: id in grouped ==> grouped[id] == Tally(records, id)
  {
    grouped := map[];
    var i := 0;
    while i < |records|
      invariant 0 <= i <= |records|
      invariant grouped.Keys == SubjectIds(records[..i])
      invariant forall id :: id in grouped ==> grouped[id] == Tally(records[..i], id)
    {
      var rec := records[i];
      var id := rec.subjectId;
      if id !in grouped {
        grouped := grouped[id := Counts(0, 0, 0, 0, 0)];
      }
      assert grouped[id] == Tally(records[..i], id);
      var c := Increment(grouped[id], rec.status);
      grouped := grouped[id := c];
      SubjectIdsStep(records, i);
      forall x | x in grouped
        ensures grouped[x] == Tally(records[..i + 1], x)
      {
        TallyStep(records, i, x);
      }
      i := i + 1;
    }
    assert records[..|records|] == records;
  }

  /** Sum of the class counters of the listed subjects. */
  function SumTotals(ids: seq<string>, records: seq<AttendanceRecord>): nat
  {
    if ids == [] then 0 else Tally(records, ids[0]).totalClasses + SumTotals(ids[1..], records)
  }

  /** How often an id occurs in a list. */
  function Occurrences(ids: seq<string>, x: string): nat
  {
    if ids == [] then 0 else (if ids[0] == x then 1 else 0) + Occurrences(ids[1..], x)
  }

  predicate DistinctIds(ids: seq<string>)
  {
    forall i, j :: 0 <= i < j < |ids| ==> ids[i] != ids[j]
  }

  lemma {:induction false} OccurrencesOfDistinct(ids: seq<string>, x: string)
    requires DistinctIds(ids)
    ensures Occurrences(ids, x) == if x in ids then 1 else 0
  {
    if ids != [] {
      OccurrencesOfDistinct(ids[1..], x);
      if ids[0] == x {
        assert x !in ids[1..];
      }
    }
  }

  lemma {:induction false} SumTotalsEmpty(ids: seq<string>)
    ensures SumTotals(ids, []) == 0
  {
    if ids != [] {
      SumTotalsEmpty(ids[1..]);
    }
  }

  /** One more record adds one class to the total of every listed subject
      that it belongs to. */
  lemma {:induction false} SumTotalsStep(ids: seq<string>, records: seq<AttendanceRecord>, r: AttendanceRecord)
    ensures SumTotals(ids, records + [r]) == SumTotals(ids, records) + Occurrences(ids, r.subjectId)
  {
    assert (records + [r])[..|records|] == records;
    if ids != [] {
      SumTotalsStep(ids[1..], records, r);
    }
  }

  /** Every record is counted under exactly one subject: summing the class
      counters over the grouped subjects gives the number of records. */
  lemma {:induction false} GroupedTotalsCoverRecords(ids: seq<string>, records: seq<AttendanceRecord>)
    requires DistinctIds(ids)
    requires SubjectIds(records) <= set id | id in ids
    ensures SumTotals(ids, records) == |records|
  {
    if records == [] {
      SumTotalsEmpty(ids);
    } else {
      var pre := records[..|records| - 1];
      var r := records[|records| - 1];
      assert records == pre + [r];
      assert SubjectIds(pre) <= SubjectIds(records) by {
        assert forall x :: x in pre ==> x in records;
      }
      GroupedTotalsCoverRecords(ids, pre);
      SumTotalsStep(ids, pre, r);
      assert r.subjectId in SubjectIds(records);
      OccurrencesOfDistinct(ids, r.subjectId);
    }
  }

  /** The grouping's total over its own keys is the number of records. */
  lemma GroupedMapCoversRecords(records: seq<AttendanceRecord>, grouped: map<string, Counts>, ids: seq<string>)
    requires grouped.Keys == SubjectIds(records)
    requires DistinctIds(ids) && (set id | id in ids) == grouped.Keys
    ensures SumTotals(ids, records) == |records|
  {
    GroupedTotalsCoverRecords(ids, records);
  }

  /** "First Last" of the subject's teacher. */
  function TeacherName(s: Subject): string
  {
    s.teacherFirstName + " " + s.teacherLastName
  }

  /** `${first} ${middle ?? ""} ${last}`: a missing middle name leaves two
      spaces. */
  function FullName(first: string, middle: Option<string>, last: string): (n: string)
    ensures |n| == |first| + |last| + 2 + (if middle.Some? then |middle.value| else 0)
  {
    first + " " + (if middle.Some? then middle.value else "") + " " + last
  }

  /** The percentage reported for a subject: one-decimal rounding of the
      weighted share, 0 when no class was held. */
  function ReportedPercentage(att: Counts): (p: real)
    ensures att.totalClasses == 0 ==> p == 0.0
    ensures att.totalClasses > 0 ==>
      p == Round1(Percentage(WeightedScore(att.present, att.delayedPresent, att.latePresent, 0), att.totalClasses))
    ensures att.totalClasses > 0 ==>
      -0.05 <= p - Percentage(WeightedScore(att.present, att.delayedPresent, att.latePresent, 0), att.totalClasses) <= 0.05
  {
    if att.totalClasses > 0
    then Round1(WeightedScore(att.present, att.delayedPresent, att.latePresent, 0) / att.totalClasses as real * 100.0)
    else 0.0
  }

  /** One subject of the response, from its counters. */
  function Summarize(s: Subject, att: Counts): (r: SubjectSummary)
    ensures r.subjectId == s.id && r.subjectCode == s.code && r.subjectName == s.name
    ensures r.teacher == TeacherName(s)
    ensures r.totalClasses == att.totalClasses && r.present == att.present
    ensures r.delayedPresent == att.delayedPresent && r.latePresent == att.latePresent && r.absent == att.absent
    ensures r.maxPossibleScore == att.totalClasses
    ensures r.attendancePercentage == ReportedPercentage(att)
    ensures r.status == Classify(r.attendancePercentage)
    ensures r.weightedScore == Round2(WeightedScore(att.present, att.delayedPresent, att.latePresent, 0))
    ensures -0.005 <= r.weightedScore - WeightedScore(att.present, att.delayedPresent, att.latePresent, 0) <= 0.005
  {
    var weighted := WeightedScore(att.present, att.delayedPresent, att.latePresent, 0);
    var percentage := ReportedPercentage(att);
    SubjectSummary(s.id, s.code, s.name, TeacherName(s), att.totalClasses, att.present, att.delayedPresent,
                   att.latePresent, att.absent, Round2(weighted), att.totalClasses, percentage, Classify(percentage))
  }

  /** Counters that come from records keep the reported percentage within
      [0, 100]. */
  lemma SummaryPercentageInRange(s: Subject, records: seq<AttendanceRecord>)
    ensures 0.0 <= Summarize(s, Tally(records, s.id)).attendancePercentage <= 100.0
  {
    var att := Tally(records, s.id);
    if att.totalClasses > 0 {
      var w := WeightedScore(att.present, att.delayedPresent, att.latePresent, 0);
      WeightedScoreBounds(att.present, att.delayedPresent, att.latePresent, 0);
      PercentageInRange(w, att.totalClasses);
      Round1InRange(Percentage(w, att.totalClasses));
    }
  }

  /** A subject without records is reported with zero counts, 0 % and
      critical. */
  lemma SubjectWithoutRecords(s: Subject, records: seq<AttendanceRecord>)
    requires s.id !in SubjectIds(records)
    ensures var r := Summarize(s, Tally(records, s.id));
      r.totalClasses == 0 && r.present == 0 && r.delayedPresent == 0 && r.latePresent == 0 && r.absent == 0
      && r.attendancePercentage == 0.0 && r.status == Critical
  {
  }

  /** GET: 404 without a student; otherwise one summary per current-semester
      subject, in query order, computed from the grouped records. */
  method Get(student: Option<StudentProfile>, subjects: seq<Subject>) returns (resp: DashboardResponse)
    ensures student.None? <==> resp == StudentNotFound
    ensures HttpStatus(resp) == (if student.None? then 404 else 200)
    ensures student.Some? ==>
      var st := student.value;
      resp.student == StudentHeader(st.id, FullName(st.firstName, st.middleName, st.lastName), st.rollNo,
                                    st.semester, st.branch)
      && |resp.subjects| == |subjects|
      && forall k :: 0 <= k < |subjects| ==>
           resp.subjects[k] == Summarize(subjects[k], Tally(st.attendanceRecords, subjects[k].id))
  {
    if student.None? {
      return StudentNotFound;
    }
    var st := student.value;
    var grouped := GroupAttendance(st.attendanceRecords);
    var out := seq(|subjects|, k requires 0 <= k < |subjects| =>
      Summarize(subjects[k], if subjects[k].id in grouped then grouped[subjects[k].id] else NoCounts));
    var header := StudentHeader(st.id, FullName(st.firstName, st.middleName, st.lastName), st.rollNo,
                                st.semester, st.branch);
    resp := Dashboard(header, out);
  }

  /** The API classifies the rounded percentage, the student dashboard card
      the unrounded one: 320 present and 1 late out of 401 classes is good
      here and a warning on the card, both showing 80.0. */
  lemma RoundingOrderDiffers()
    ensures var api := Summarize(Subject("s", "OS", "Operating Systems", "B", "P"), Counts(401, 320, 0, 1, 80));
      var card := StudentDashboard.CreateSubject(1, "OS", "Operating Systems", "B P", 401, 320, 0, 1, 80);
      api.attendancePercentage == card.attendancePercentage == 80.0
      && api.status == Good && card.status == Warning
  {
    StudentDashboard.StatusDecidedBeforeRounding();
    assert WeightedScore(320, 0, 1, 0) == 320.6;
    assert 320.6 / 401.0 * 100.0 * 10.0 + 0.5 == 641601.0 / 802.0;
    assert (641601.0 / 802.0).Floor == 800;
  }

  /** Away from the half-tenth just below each threshold, the two rounding
      orders agree. */
  lemma RoundingOrderAgrees(x: real)
    requires x >= 0.0
    requires !(GoodThreshold - 0.05 <= x < GoodThreshold) && !(WarningThreshold - 0.05 <= x < WarningThreshold)
    ensures Classify(Round1(x)) == Classify(x)
  {
    if x >= GoodThreshold {
      Round1Monotone(GoodThreshold, x);
      assert Round1(GoodThreshold) == GoodThreshold;
    } else if x >= WarningThreshold {
      Round1Monotone(WarningThreshold, x);
      assert Round1(WarningThreshold) == WarningThreshold;
    }
  }
}
