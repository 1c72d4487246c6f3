/** The administrator's attendance grid: one row per student, one column per
    class date, each cell holding a status code ("P", "DP", "LP", "A"). The
    page keeps its state in a handful of variables that the event handlers
    update; the class below holds exactly that state. */
module AdminSheet {
  import opened Common
  import opened Scoring
  import opened Text

  datatype Student = Student(rollNo: string, name: string)

  /** A grid position: the row's roll number and the column's date. */
  datatype Cell = Cell(studentId: string, date: string)

  /** What the per-student counters produce. */
  datatype StudentStats = StudentStats(present: nat, delayed: nat, late: nat, absent: nat, percentage: real)

  datatype OverallStats = OverallStats(
    totalClasses: nat, totalStudents: nat, avgAttendance: real,
    warningAttendance: nat, criticalAttendance: nat)

  /** The size of the visible viewport and of the whole table, when the
      table element is mounted. */
  datatype Container = Container(clientWidth: int, scrollWidth: int)

  type Grid = map<string, map<string, string>>

  predicate IsCode(v: string)
  {
    v == "P" || v == "DP" || v == "LP" || v == "A"
  }

  /** The status a random draw u in [0, 1) produces: P below 0.75, DP below
      0.9, LP below 0.97, A otherwise. */
  function MarkFor(u: real): (v: string)
    ensures IsCode(v)
    ensures v == "P" <==> u < 0.75
    ensures v == "A" <==> u >= 0.97
  {
    if u < 0.75 then "P" else if u < 0.9 then "DP" else if u < 0.97 then "LP" else "A"
  }

  predicate DistinctRolls(students: seq<Student>)
  {
    forall i, j :: 0 <= i < j < |students| ==> students[i].rollNo != students[j].rollNo
  }

  predicate DistinctDates(dates: seq<string>)
  {
    forall i, j :: 0 <= i < j < |dates| ==> dates[i] != dates[j]
  }

  function RollSet(students: seq<Student>): set<string>
  {
    set s | s in students :: s.rollNo
  }

  function DateSet(dates: seq<string>): set<string>
  {
    set d | d in dates
  }

  /** Each date of the row holds the code of its own draw. */
  predicate RowFromDraws(row: map<string, string>, dates: seq<string>, draws: seq<real>)
    requires |draws| == |dates|
  {
    forall j :: 0 <= j < |dates| ==> dates[j] in row && row[dates[j]] == MarkFor(draws[j])
  }

  /** The cells of one student's row, one per date, each filled from its
      own draw (the inner loop of generateRandomAttendance). */
  method GenerateRow(dates: seq<string>, draws: seq<real>) returns (row: map<string, string>)
    requires |draws| == |dates|
    ensures row.Keys == DateSet(dates)
    ensures forall d :: d in row ==> IsCode(row[d])
    ensures DistinctDates(dates) ==> RowFromDraws(row, dates, draws)
  {
    row := map[];
    var j := 0;
    while j < |dates|
      invariant 0 <= j <= |dates|
      invariant row.Keys == DateSet(dates[..j])
      invariant forall d :: d in row ==> IsCode(row[d])
      invariant DistinctDates(dates) ==>
        forall j' :: 0 <= j' < j ==> dates[j'] in row && row[dates[j']] == MarkFor(draws[j'])
    {
      row := row[dates[j] := MarkFor(draws[j])];
      assert dates[..j + 1] == dates[..j] + [dates[j]];
      j := j + 1;
    }
    assert dates[..|dates|] == dates;
  }

  /** Every row covers the dates, and every cell holds one of the codes. */
  predicate GridOver(data: Grid, dates: seq<string>)
  {
    (forall r :: r in data ==> data[r].Keys == DateSet(dates))
    && forall r, d :: r in data && d in data[r] ==> IsCode(data[r][d])
  }

  /** The first n students have their rows, filled from their own draws. */
  predicate FilledUpTo(data: Grid, students: seq<Student>, dates: seq<string>, draws: seq<seq<real>>, n: nat)
    requires n <= |students| == |draws|
    requires forall i :: 0 <= i < |draws| ==> |draws[i]| == |dates|
  {
    forall k :: 0 <= k < n ==> students[k].rollNo in data && RowFromDraws(data[students[k].rollNo], dates, draws[k])
  }

  lemma AddRow(data: Grid, students: seq<Student>, dates: seq<string>, draws: seq<seq<real>>, i: nat,
               row: map<string, string>)
    requires i < |students| == |draws|
    requires forall i :: 0 <= i < |draws| ==> |draws[i]| == |dates|
    requires GridOver(data, dates) && row.Keys == DateSet(dates) && forall d :: d in row ==> IsCode(row[d])
    requires DistinctRolls(students) && DistinctDates(dates) ==>
      FilledUpTo(data, students, dates, draws, i) && RowFromDraws(row, dates, draws[i])
    ensures GridOver(data[students[i].rollNo := row], dates)
    ensures DistinctRolls(students) && DistinctDates(dates) ==>
      FilledUpTo(data[students[i].rollNo := row], students, dates, draws, i + 1)
  {
    var after := data[students[i].rollNo := row];
    if DistinctRolls(students) && DistinctDates(dates) {
      forall k | 0 <= k < i + 1
        ensures students[k].rollNo in after && RowFromDraws(after[students[k].rollNo], dates, draws[k])
      {
        if k < i {
          assert students[k].rollNo != students[i].rollNo;
        }
      }
    }
  }

  /** generateRandomAttendance: one row per student, one cell per date, each
      cell filled from its own draw. */
  method GenerateRandomAttendance(students: seq<Student>, dates: seq<string>, draws: seq<seq<real>>)
    returns (data: Grid)
    requires |draws| == |students|
    requires forall i :: 0 <= i < |draws| ==> |draws[i]| == |dates|
    ensures data.Keys == RollSet(students)
    ensures forall r :: r in data ==> data[r].Keys == DateSet(dates)
    ensures forall r, d :: r in data && d in data[r] ==> IsCode(data[r][d])
    ensures DistinctRolls(students) && DistinctDates(dates) ==>
      forall i :: 0 <= i < |students| ==>
        students[i].rollNo in data && RowFromDraws(data[students[i].rollNo], dates, draws[i])
  {
    data := map[];
    var i := 0;
    while i < |students|
      invariant 0 <= i <= |students|
      invariant data.Keys == RollSet(students[..i])
      invariant GridOver(data, dates)
      invariant DistinctRolls(students) && DistinctDates(dates) ==> FilledUpTo(data, students, dates, draws, i)
    {
      var row := GenerateRow(dates, draws[i]);
      AddRow(data, students, dates, draws, i, row);
      data := data[students[i].rollNo := row];
      assert students[..i + 1] == students[..i] + [students[i]];
      i := i + 1;
    }
    assert students[..|students|] == students;
  }

  /** The row of a student, when the grid has one. */
  function RowOf(data: Grid, studentId: string): (r: Option<map<string, string>>)
    ensures r.Some? <==> studentId in data
  {
    if studentId in data then Some(data[studentId]) else None
  }

  /** How many of the given dates of a row hold the given code. */
  function CountIn(row: map<string, string>, dates: set<string>, code: string): nat
    requires dates <= row.Keys
  {
    |set d | d in dates && row[d] == code|
  }

  /** The four per-student counters and the one-decimal percentage of the
      weighted score over all dates of the sheet. */
  function StatsOf(row: Option<map<string, string>>, totalClasses: nat): (s: StudentStats)
    ensures row.None? ==> s == StudentStats(0, 0, 0, 0, 0.0)
  {
    match row
    case None => StudentStats(0, 0, 0, 0, 0.0)
    case Some(r) =>
      var present := CountIn(r, r.Keys, "P");
      var delayed := CountIn(r, r.Keys, "DP");
      var late := CountIn(r, r.Keys, "LP");
      var absent := CountIn(r, r.Keys, "A");
      StudentStats(present, delayed, late, absent,
                   Round1(Percentage(WeightedScore(present, delayed, late, absent), totalClasses)))
  }

  /** Adding one date to the counted ones adds one to the counter of its code
      and nothing to the others. */
  lemma CountStep(row: map<string, string>, done: set<string>, k: string, code: string)
    requires done <= row.Keys && k in row && k !in done
    ensures CountIn(row, done + {k}, code) == CountIn(row, done, code) + (if row[k] == code then 1 else 0)
  {
    var before := set d | d in done && row[d] == code;
    var after := set d | d in done + {k} && row[d] == code;
    if row[k] == code {
      assert after == before + {k};
    } else {
      assert after == before;
    }
  }

  /** The four counters together count exactly the cells that hold one of
      the four codes, so they never exceed the number of cells. */
  lemma CountsPartition(row: map<string, string>)
    ensures CountIn(row, row.Keys, "P") + CountIn(row, row.Keys, "DP") + CountIn(row, row.Keys, "LP")
          + CountIn(row, row.Keys, "A") == |set d | d in row && IsCode(row[d])|
    ensures CountIn(row, row.Keys, "P") + CountIn(row, row.Keys, "DP") + CountIn(row, row.Keys, "LP")
          + CountIn(row, row.Keys, "A") <= |row|
  {
    var p := set d | d in row.Keys && row[d] == "P";
    var dp := set d | d in row.Keys && row[d] == "DP";
    var lp := set d | d in row.Keys && row[d] == "LP";
    var a := set d | d in row.Keys && row[d] == "A";
    CodesCover(row, p, dp, lp, a);
    DisjointUnionCard(p, dp);
    DisjointUnionCard(p + dp, lp);
    DisjointUnionCard(p + dp + lp, a);
    SubsetCard(p + dp + lp + a, row.Keys);
  }

  /** The cells holding a code are those of the four per-code sets, which
      are pairwise disjoint. */
  lemma CodesCover(row: map<string, string>, p: set<string>, dp: set<string>, lp: set<string>, a: set<string>)
    requires p == set d | d in row.Keys && row[d] == "P"
    requires dp == set d | d in row.Keys && row[d] == "DP"
    requires lp == set d | d in row.Keys && row[d] == "LP"
    requires a == set d | d in row.Keys && row[d] == "A"
    ensures (set d | d in row && IsCode(row[d])) == p + dp + lp + a
    ensures forall e :: e in p ==> e !in dp
    ensures forall e :: e in p + dp ==> e !in lp
    ensures forall e :: e in p + dp + lp ==> e !in a
  {
    assert "P" != "DP" && "P" != "LP" && "P" != "A" && "DP" != "LP" && "DP" != "A" && "LP" != "A" by {
      assert |"P"| != |"DP"| && |"A"| != |"LP"| && |"P"| != |"LP"| && |"A"| != |"DP"|;
      assert "DP"[0] != "LP"[0] && "P"[0] != "A"[0];
    }
  }

  lemma DisjointUnionCard<T>(x: set<T>, y: set<T>)
    requires forall e :: e in x ==> e !in y
    ensures |x + y| == |x| + |y|
  {
    assert x * y == {};
  }

  lemma SubsetCard<T>(a: set<T>, b: set<T>)
    requires a <= b
    ensures |a| <= |b|
  {
    assert b == a + (b - a);
  }

  /** A student with no more cells than the sheet has dates gets a
      percentage between 0 and 100. */
  lemma StatsPercentageInRange(row: map<string, string>, totalClasses: nat)
    requires |row| <= totalClasses
    ensures 0.0 <= StatsOf(Some(row), totalClasses).percentage <= 100.0
  {
    var s := StatsOf(Some(row), totalClasses);
    CountsPartition(row);
    WeightedScoreBounds(s.present, s.delayed, s.late, s.absent);
    PercentageInRange(WeightedScore(s.present, s.delayed, s.late, s.absent), totalClasses);
    Round1InRange(Percentage(WeightedScore(s.present, s.delayed, s.late, s.absent), totalClasses));
  }

  /** The stats of every student of the list, in list order. */
  function AllStats(data: Grid, students: seq<Student>, totalClasses: nat): (ss: seq<StudentStats>)
    ensures |ss| == |students|
    ensures forall i :: 0 <= i < |students| ==> ss[i] == StatsOf(RowOf(data, students[i].rollNo), totalClasses)
  {
    seq(|students|, i requires 0 <= i < |students| => StatsOf(RowOf(data, students[i].rollNo), totalClasses))
  }

  /** Sum of present + 0.8 delayed + 0.6 late over a list of stats. */
  function TotalWeighted(ss: seq<StudentStats>): real
  {
    if ss == [] then 0.0
    else
      var s := ss[|ss| - 1];
      TotalWeighted(ss[..|ss| - 1]) + WeightedScore(s.present, s.delayed, s.late, 0)
  }

  /** How many of the stats have the given status by their displayed
      percentage. */
  function CountStatus(ss: seq<StudentStats>, status: Status): nat
  {
    if ss == [] then 0
    else CountStatus(ss[..|ss| - 1], status) + (if Classify(ss[|ss| - 1].percentage) == status then 1 else 0)
  }

  /** Every student falls in exactly one band, so nobody is counted as both
      warning and critical. */
  lemma {:induction false} BandsPartition(ss: seq<StudentStats>)
    ensures CountStatus(ss, Good) + CountStatus(ss, Warning) + CountStatus(ss, Critical) == |ss|
  {
    if ss != [] {
      BandsPartition(ss[..|ss| - 1]);
    }
  }

  /** If nobody attended more classes than the sheet has, the weighted total
      is at most students x classes. */
  lemma {:induction false} TotalWeightedBound(ss: seq<StudentStats>, totalClasses: nat)
    requires forall i :: 0 <= i < |ss| ==> ss[i].present + ss[i].delayed + ss[i].late <= totalClasses
    ensures 0.0 <= TotalWeighted(ss) <= (|ss| * totalClasses) as real
  {
    if ss != [] {
      var s := ss[|ss| - 1];
      TotalWeightedBound(ss[..|ss| - 1], totalClasses);
      WeightedScoreBounds(s.present, s.delayed, s.late, 0);
      assert (|ss| * totalClasses) as real == ((|ss| - 1) * totalClasses) as real + totalClasses as real;
    }
  }

  /** The average over the grid, as the overall counters compute it. */
  function AverageAttendance(ss: seq<StudentStats>, totalClasses: nat): real
  {
    if |ss| > 0 then Round1(Percentage(TotalWeighted(ss), |ss| * totalClasses)) else 0.0
  }

  /** With every row within the sheet's dates, the average lies in [0, 100]. */
  lemma AverageInRange(data: Grid, students: seq<Student>, totalClasses: nat)
    requires forall r :: r in data ==> |data[r]| <= totalClasses
    ensures 0.0 <= AverageAttendance(AllStats(data, students, totalClasses), totalClasses) <= 100.0
  {
    var ss := AllStats(data, students, totalClasses);
    forall i | 0 <= i < |ss|
      ensures ss[i].present + ss[i].delayed + ss[i].late <= totalClasses
    {
      var row := RowOf(data, students[i].rollNo);
      if row.Some? {
        CountsPartition(row.value);
      }
    }
    TotalWeightedBound(ss, totalClasses);
    if |ss| > 0 {
      PercentageInRange(TotalWeighted(ss), |ss| * totalClasses);
      Round1InRange(Percentage(TotalWeighted(ss), |ss| * totalClasses));
    }
  }

  /** Whether a student matches the search box: its name or roll number
      contains the query, all lower-cased. */
  predicate Matches(s: Student, query: string)
  {
    Contains(Lower(s.name), Lower(query)) || Contains(Lower(s.rollNo), Lower(query))
  }

  /** The students shown: those matching the query, in roster order. */
  function Filter(students: seq<Student>, query: string): (r: seq<Student>)
    ensures |r| <= |students|
    ensures forall s :: s in r ==> s in students && Matches(s, query)
    ensures forall s :: s in students && Matches(s, query) ==> s in r
  {
    if students == [] then []
    else
      var rest := Filter(students[..|students| - 1], query);
      var last := students[|students| - 1];
      assert students == students[..|students| - 1] + [last];
      if Matches(last, query) then rest + [last] else rest
  }

  /** Filtering a roster in two parts is filtering each part, so the order of
      the roster is kept. */
  lemma {:induction false} FilterAppend(a: seq<Student>, b: seq<Student>, query: string)
    ensures Filter(a + b, query) == Filter(a, query) + Filter(b, query)
  {
    if b != [] {
      var b' := b[..|b| - 1];
      assert (a + b)[..|a + b| - 1] == a + b';
      FilterAppend(a, b', query);
    } else {
      assert a + b == a;
    }
  }

  /** An empty search box shows every student. */
  lemma {:induction false} FilterEmptyQuery(students: seq<Student>)
    ensures Filter(students, "") == students
  {
    if students != [] {
      FilterEmptyQuery(students[..|students| - 1]);
      ContainsEmpty(Lower(students[|students| - 1].name));
      assert Lower("") == "";
      assert students == students[..|students| - 1] + [students[|students| - 1]];
    }
  }

  /** The grid after one cell is written: a missing row starts out empty. */
  function WithCell(data: Grid, studentId: string, date: string, status: string): (g: Grid)
    ensures g.Keys == data.Keys + {studentId}
  {
    var row := if studentId in data then data[studentId] else map[];
    data[studentId := row[date := status]]
  }

  /** The cell a grid shows at a position, when there is one. */
  function CellValue(data: Grid, studentId: string, date: string): Option<string>
  {
    if studentId in data && date in data[studentId] then Some(data[studentId][date]) else None
  }

  /** Writing a cell sets exactly that cell: every other position reads as
      before. */
  lemma WithCellFrame(data: Grid, studentId: string, date: string, status: string, s: string, d: string)
    ensures CellValue(WithCell(data, studentId, date, status), s, d)
         == if s == studentId && d == date then Some(status) else CellValue(data, s, d)
  {
  }

  /** Math.max(0, scroll - 100) */
  function ScrolledLeft(scroll: int): (r: int)
    ensures r >= 0
    ensures r == 0 || r == scroll - 100
    ensures r <= scroll || scroll < 0
  {
    if scroll - 100 > 0 then scroll - 100 else 0
  }

  /** Math.min(maxScroll, scroll + 100) */
  function ScrolledRight(scroll: int, maxScroll: int): (r: int)
    ensures r <= maxScroll
    ensures r == maxScroll || r == scroll + 100
    ensures r >= scroll || scroll > maxScroll
  {
    if maxScroll < scroll + 100 then maxScroll else scroll + 100
  }

  /** How far the table can scroll: the overflow of the table past its
      viewport, never negative, and 0 before the table is mounted. */
  function CalculateMaxScroll(container: Option<Container>): (r: int)
    ensures r >= 0
    ensures container.Some? ==> r >= container.value.scrollWidth - container.value.clientWidth
    ensures r == 0 || (container.Some? && r == container.value.scrollWidth - container.value.clientWidth)
  {
    match container
    case None => 0
    case Some(c) => if c.scrollWidth - c.clientWidth > 0 then c.scrollWidth - c.clientWidth else 0
  }

  /** Both scroll buttons keep an offset in [0, maxScroll] in that range. */
  lemma ScrollStaysInRange(scroll: int, maxScroll: int)
    requires 0 <= scroll <= maxScroll
    ensures 0 <= ScrolledLeft(scroll) <= maxScroll
    ensures 0 <= ScrolledRight(scroll, maxScroll) <= maxScroll
  {
  }

  /** The colour band of the percentage column. */
  datatype PercentageStyle = GreenBand | YellowBand | RedBand

  function GetPercentageStyle(percentage: real): (s: PercentageStyle)
    ensures s == GreenBand <==> percentage >= 80.0
    ensures s == YellowBand <==> 70.0 <= percentage < 80.0
    ensures s == RedBand <==> percentage < 70.0
  {
    if percentage >= 80.0 then GreenBand else if percentage >= 70.0 then YellowBand else RedBand
  }

  /** The colour band is the dashboard status under another name. */
  lemma StyleAgreesWithStatus(percentage: real)
    ensures GetPercentageStyle(percentage) == GreenBand <==> Classify(percentage) == Good
    ensures GetPercentageStyle(percentage) == YellowBand <==> Classify(percentage) == Warning
    ensures GetPercentageStyle(percentage) == RedBand <==> Classify(percentage) == Critical
  {
  }

  class AttendanceSheet {
    const students: seq<Student>
    const dates: seq<string>
    var attendanceData: Grid
    var searchQuery: string
    var horizontalScroll: int
    var isEditing: bool
    var selectedCell: Option<Cell>
    var recentlyUpdated: set<string>

    ghost predicate Valid()
      reads this
    {
      horizontalScroll >= 0
    }

    /** The page's initial state, before the data effect runs. */
    constructor(students: seq<Student>, dates: seq<string>)
      ensures this.students == students && this.dates == dates
      ensures attendanceData == map[] && searchQuery == "" && horizontalScroll == 0
      ensures !isEditing && selectedCell == None && recentlyUpdated == {}
      ensures Valid()
    {
      this.students := students;
      this.dates := dates;
      attendanceData := map[];
      searchQuery := "";
      horizontalScroll := 0;
      isEditing := false;
      selectedCell := None;
      recentlyUpdated := {};
    }

    /** The mount effect: fill the grid from the random draws. */
    method Initialize(draws: seq<seq<real>>)
      requires |draws| == |students|
      requires forall i :: 0 <= i < |draws| ==> |draws[i]| == |dates|
      modifies this
      ensures attendanceData.Keys == RollSet(students)
      ensures forall r, d :: r in attendanceData && d in attendanceData[r] ==> IsCode(attendanceData[r][d])
      ensures forall r :: r in attendanceData ==> attendanceData[r].Keys == DateSet(dates)
      ensures searchQuery == old(searchQuery) && horizontalScroll == old(horizontalScroll)
      ensures isEditing == old(isEditing) && selectedCell == old(selectedCell)
      ensures recentlyUpdated == old(recentlyUpdated)
    {
      attendanceData := GenerateRandomAttendance(students, dates, draws);
    }

    /** calculateStudentStats: counts the codes of one row. */
    method CalculateStudentStats(studentId: string) returns (s: StudentStats)
      ensures s == StatsOf(RowOf(attendanceData, studentId), |dates|)
    {
      if studentId !in attendanceData {
        return StudentStats(0, 0, 0, 0, 0.0);
      }
      var row := attendanceData[studentId];
      var present, delayed, late, absent := 0, 0, 0, 0;
      var remaining := row.Keys;
      while remaining != {}
        invariant remaining <= row.Keys
        invariant present == CountIn(row, row.Keys - remaining, "P")
        invariant delayed == CountIn(row, row.Keys - remaining, "DP")
        invariant late == CountIn(row, row.Keys - remaining, "LP")
        invariant absent == CountIn(row, row.Keys - remaining, "A")
        decreases remaining
      {
        var d :| d in remaining;
        var done := row.Keys - remaining;
        CountStep(row, done, d, "P");
        CountStep(row, done, d, "DP");
        CountStep(row, done, d, "LP");
        CountStep(row, done, d, "A");
        var status := row[d];
        if status == "P" {
          present := present + 1;
        } else if status == "DP" {
          delayed := delayed + 1;
        } else if status == "LP" {
          late := late + 1;
        } else if status == "A" {
          absent := absent + 1;
        }
        assert row.Keys - (remaining - {d}) == done + {d};
        remaining := remaining - {d};
      }
      assert row.Keys - remaining == row.Keys;
      s := StudentStats(present, delayed, late, absent,
                        Round1(Percentage(WeightedScore(present, delayed, late, absent), |dates|)));
    }

    /** calculateOverallStats: the grid-wide average and how many students
        are in the warning and critical bands. */
    method CalculateOverallStats() returns (o: OverallStats)
      ensures o.totalClasses == |dates| && o.totalStudents == |students|
      ensures var ss := AllStats(attendanceData, students, |dates|);
        o.avgAttendance == AverageAttendance(ss, |dates|)
        && o.warningAttendance == CountStatus(ss, Warning)
        && o.criticalAttendance == CountStatus(ss, Critical)
    {
      ghost var ss := AllStats(attendanceData, students, |dates|);
      var totalWeightedScore := 0.0;
      var warningCount := 0;
      var criticalCount := 0;
      var i := 0;
      while i < |students|
        invariant 0 <= i <= |students|
        invariant totalWeightedScore == TotalWeighted(ss[..i])
        invariant warningCount == CountStatus(ss[..i], Warning)
        invariant criticalCount == CountStatus(ss[..i], Critical)
      {
        var stats := CalculateStudentStats(students[i].rollNo);
        assert ss[..i + 1][..i] == ss[..i];
        totalWeightedScore := totalWeightedScore + (stats.present as real * 1.0 + stats.delayed as real * 0.8
                                                    + stats.late as real * 0.6);
        if stats.percentage < 70.0 {
          criticalCount := criticalCount + 1;
        } else if stats.percentage < 80.0 {
          warningCount := warningCount + 1;
        }
        i := i + 1;
      }
      assert ss[..|students|] == ss;
      var avgAttendance := if |students| > 0
        then Percentage(totalWeightedScore, |students| * |dates|) else 0.0;
      o := OverallStats(|dates|, |students|, Round1(avgAttendance), warningCount, criticalCount);
    }

    /** The students the table shows for the current search box. */
    function FilteredStudents(): (r: seq<Student>)
      reads this
      ensures r == Filter(students, searchQuery)
    {
      Filter(students, searchQuery)
    }

    method SetSearchQuery(query: string)
      modifies this
      ensures searchQuery == query
      ensures attendanceData == old(attendanceData) && horizontalScroll == old(horizontalScroll)
      ensures isEditing == old(isEditing) && selectedCell == old(selectedCell)
      ensures recentlyUpdated == old(recentlyUpdated)
    {
      searchQuery := query;
    }

    /** The Edit / Editing button. */
    method ToggleEditing()
      modifies this
      ensures isEditing == !old(isEditing)
      ensures attendanceData == old(attendanceData) && searchQuery == old(searchQuery)
      ensures horizontalScroll == old(horizontalScroll)
      ensures selectedCell == old(selectedCell) && recentlyUpdated == old(recentlyUpdated)
    {
      isEditing := !isEditing;
    }

    /** handleCellClick: selects a cell only in edit mode. */
    method HandleCellClick(studentId: string, date: string)
      modifies this
      ensures selectedCell == if old(isEditing) then Some(Cell(studentId, date)) else old(selectedCell)
      ensures attendanceData == old(attendanceData) && searchQuery == old(searchQuery)
      ensures horizontalScroll == old(horizontalScroll)
      ensures isEditing == old(isEditing) && recentlyUpdated == old(recentlyUpdated)
    {
      if isEditing {
        selectedCell := Some(Cell(studentId, date));
      }
    }

    /** updateAttendance: writes one cell and marks it as recently updated;
        the selection is cleared later, by SelectionTimeout. */
    method UpdateAttendance(studentId: string, date: string, status: string)
      modifies this
      ensures attendanceData == WithCell(old(attendanceData), studentId, date, status)
      ensures recentlyUpdated == old(recentlyUpdated) + {studentId + "-" + date}
      ensures searchQuery == old(searchQuery) && horizontalScroll == old(horizontalScroll)
      ensures isEditing == old(isEditing) && selectedCell == old(selectedCell)
    {
      var cellKey := studentId + "-" + date;
      recentlyUpdated := recentlyUpdated + {cellKey};
      var row := if studentId in attendanceData then attendanceData[studentId] else map[];
      attendanceData := attendanceData[studentId := row[date := status]];
    }

    /** The 300 ms timer that updateAttendance starts. */
    method SelectionTimeout()
      modifies this
      ensures selectedCell == None
      ensures attendanceData == old(attendanceData) && searchQuery == old(searchQuery)
      ensures horizontalScroll == old(horizontalScroll)
      ensures isEditing == old(isEditing) && recentlyUpdated == old(recentlyUpdated)
    {
      selectedCell := None;
    }

    method ScrollLeft()
      requires Valid()
      modifies this
      ensures Valid()
      ensures horizontalScroll == ScrolledLeft(old(horizontalScroll))
      ensures horizontalScroll <= old(horizontalScroll)
      ensures attendanceData == old(attendanceData) && searchQuery == old(searchQuery)
      ensures isEditing == old(isEditing) && selectedCell == old(selectedCell)
      ensures recentlyUpdated == old(recentlyUpdated)
    {
      horizontalScroll := if horizontalScroll - 100 > 0 then horizontalScroll - 100 else 0;
    }

    method ScrollRight(container: Option<Container>)
      requires Valid()
      modifies this
      ensures Valid()
      ensures horizontalScroll == ScrolledRight(old(horizontalScroll), CalculateMaxScroll(container))
      ensures horizontalScroll <= CalculateMaxScroll(container)
      ensures attendanceData == old(attendanceData) && searchQuery == old(searchQuery)
      ensures isEditing == old(isEditing) && selectedCell == old(selectedCell)
      ensures recentlyUpdated == old(recentlyUpdated)
    {
      var maxScroll := CalculateMaxScroll(container);
      horizontalScroll := if maxScroll < horizontalScroll + 100 then maxScroll else horizontalScroll + 100;
    }

    /** handleSave: leaves edit mode and forgets the updated marks. The
        selected cell is kept. */
    method HandleSave()
      modifies this
      ensures !isEditing && recentlyUpdated == {}
      ensures attendanceData == old(attendanceData) && searchQuery == old(searchQuery)
      ensures horizontalScroll == old(horizontalScroll) && selectedCell == old(selectedCell)
    {
      isEditing := false;
      recentlyUpdated := {};
    }

    /** handleCancel: leaves edit mode and drops the selection; the updated
        marks and the edited cells stay. */
    method HandleCancel()
      modifies this
      ensures !isEditing && selectedCell == None
      ensures attendanceData == old(attendanceData) && searchQuery == old(searchQuery)
      ensures horizontalScroll == old(horizontalScroll) && recentlyUpdated == old(recentlyUpdated)
    {
      isEditing := false;
      selectedCell := None;
    }

    /** The option editor of a cell is open when it is selected and the
        sheet is in edit mode. */
    predicate EditorOpen(c: Cell)
      reads this
    {
      selectedCell == Some(c) && isEditing
    }
  }

  /** A selection survives Save: after choosing a cell in edit mode and
      saving, the sheet is out of edit mode but the cell is still selected
      (and highlighted), although its option editor is closed. */
  method SelectionOutlivesSave() returns (sheet: AttendanceSheet)
    ensures !sheet.isEditing && sheet.selectedCell == Some(Cell("R1", "D1"))
    ensures !sheet.EditorOpen(Cell("R1", "D1"))
  {
    sheet := new AttendanceSheet([Student("R1", "N")], ["D1"]);
    sheet.ToggleEditing();
    sheet.HandleCellClick("R1", "D1");
    sheet.HandleSave();
  }
}
