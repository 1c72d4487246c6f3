/** The deterministic class sessions and attendance marks both seed scripts
    write for a subject: sessions numbered 1..total with the id
    `${code}-s-${i}`, one a day ending on the baseline day, one hour long;
    the first sessions marked PRESENT, the next one LATE and the rest
    ABSENT. Every write is an upsert on a unique key (the session id; the
    student and session pair), modelled as a map update. The baseline time
    is an input in milliseconds. */
module SessionSeed {
  import opened Text
  import opened Scoring
  import Api = StudentDashboardApi

  const DayMs: int := 24 * 60 * 60 * 1000
  const HourMs: int := 60 * 60 * 1000

  /** `${name} - Lecture ${i}` or `Lecture ${i} - ${name}`. */
  datatype TopicStyle = NameFirst | LectureFirst

  /** What a script writes for one subject: total sessions, of which the
      first presentUpTo are marked present. */
  datatype Plan = Plan(
    code: string, name: string, subjectId: string, teacherId: string, studentId: string,
    baseline: int, total: nat, presentUpTo: nat, style: TopicStyle, notes: string)

  datatype Session = Session(
    id: string, date: int, startTime: int, endTime: int, topic: string, subjectId: string, teacherId: string)

  datatype SeedRecord = SeedRecord(
    studentId: string, sessionId: string, score: real, status: Api.AttendanceStatus,
    deviceId: string, markedBy: string, notes: string)

  /** The plan of the five-semester script: 12 sessions, 10 present. */
  function FiveSemPlan(code: string, name: string, subjectId: string, teacherId: string, studentId: string,
                       baseline: int): (p: Plan)
    ensures p.total == 12 && p.presentUpTo == 10 && p.style == NameFirst
  {
    Plan(code, name, subjectId, teacherId, studentId, baseline, 12, 10, NameFirst, "seeded-by-fivesem")
  }

  /** The plan of the main seed script: 20 sessions, 18 present. */
  function MainSeedPlan(code: string, name: string, subjectId: string, teacherId: string, studentId: string,
                        baseline: int): (p: Plan)
    ensures p.total == 20 && p.presentUpTo == 18 && p.style == LectureFirst
  {
    Plan(code, name, subjectId, teacherId, studentId, baseline, 20, 18, LectureFirst, "seeded-record")
  }

  function SessionId(code: string, i: nat): string
  {
    code + "-s-" + NatToString(i)
  }

  /** The digits of the number follow a '-', so the id determines both the
      code and the number. */
  lemma SessionIdInjective(c1: string, i: nat, c2: string, j: nat)
    requires SessionId(c1, i) == SessionId(c2, j)
    ensures c1 == c2 && i == j
  {
    DigitsNotLonger(c1, i, c2, j);
    DigitsNotLonger(c2, j, c1, i);
    var s := SessionId(c1, i);
    var d1, d2 := NatToString(i), NatToString(j);
    assert d1 == s[|s| - |d1|..] == d2;
    assert c1 == s[..|c1|] == c2;
    NatToStringInjective(i, j);
  }

  /** In an id the digit block is preceded by '-', so the digit block of an
      equal id cannot be longer. */
  lemma DigitsNotLonger(c1: string, i: nat, c2: string, j: nat)
    requires SessionId(c1, i) == SessionId(c2, j)
    ensures |NatToString(j)| <= |NatToString(i)|
  {
    DashBeforeDigits(c1, i);
    DigitsAtEnd(c2, j);
  }

  lemma DashBeforeDigits(code: string, i: nat)
    ensures var s := SessionId(code, i); s[|s| - |NatToString(i)| - 1] == '-'
  {
  }

  /** The id ends with the digits of the number. */
  lemma DigitsAtEnd(code: string, i: nat)
    ensures var s := SessionId(code, i);
      forall q :: |s| - |NatToString(i)| <= q < |s| ==> IsDigit(s[q])
  {
    var s := SessionId(code, i);
    var d := NatToString(i);
    forall q | |s| - |d| <= q < |s|
      ensures IsDigit(s[q])
    {
      assert s[q] == d[q - (|s| - |d|)];
    }
  }

  /** `baseline - (total - i) days` */
  function SessionDate(p: Plan, i: nat): int
  {
    p.baseline - (p.total - i) * DayMs
  }

  function Topic(style: TopicStyle, name: string, i: nat): string
  {
    match style
    case NameFirst => name + " - Lecture " + NatToString(i)
    case LectureFirst => "Lecture " + NatToString(i) + " - " + name
  }

  function SessionRow(p: Plan, i: nat): (s: Session)
    ensures s.id == SessionId(p.code, i) && s.subjectId == p.subjectId && s.teacherId == p.teacherId
    ensures s.date == s.startTime == SessionDate(p, i) && s.endTime == s.startTime + HourMs
  {
    var date := SessionDate(p, i);
    Session(SessionId(p.code, i), date, date, date + HourMs, Topic(p.style, p.name, i), p.subjectId, p.teacherId)
  }

  /** Sessions are one day apart, in increasing order, the last one on the
      baseline, each one hour long. */
  lemma ScheduleOrder(p: Plan, i: nat, j: nat)
    requires 1 <= i < j <= p.total
    ensures SessionRow(p, i).date < SessionRow(p, j).date
    ensures SessionRow(p, j).date - SessionRow(p, i).date == (j - i) * DayMs
    ensures SessionRow(p, p.total).date == p.baseline
    ensures SessionRow(p, i).endTime - SessionRow(p, i).startTime == HourMs
  {
  }

  /** The status and score of session i. */
  function MarkFor(presentUpTo: nat, i: nat): (m: (Api.AttendanceStatus, real))
    ensures m.0 == Api.PRESENT <==> i <= presentUpTo
    ensures m.0 == Api.LATE <==> i == presentUpTo + 1
    ensures m.0 == Api.ABSENT <==> i > presentUpTo + 1
    ensures m.0 == Api.PRESENT ==> m.1 == PresentWeight
    ensures m.0 == Api.LATE ==> m.1 == DelayedWeight
    ensures m.0 == Api.ABSENT ==> m.1 == AbsentWeight
  {
    if i <= presentUpTo then (Api.PRESENT, 1.0)
    else if i == presentUpTo + 1 then (Api.LATE, 0.8)
    else (Api.ABSENT, 0.0)
  }

  function RecordRow(p: Plan, i: nat): (r: SeedRecord)
    ensures r.studentId == p.studentId && r.sessionId == SessionId(p.code, i)
    ensures (r.status, r.score) == MarkFor(p.presentUpTo, i)
  {
    var m := MarkFor(p.presentUpTo, i);
    SeedRecord(p.studentId, SessionId(p.code, i), m.1, m.0, "seed-script", "MANUAL_SYSTEM", p.notes)
  }

  /** The ids of sessions 1..n. */
  function SessionIds(code: string, n: nat): set<string>
  {
    if n == 0 then {} else SessionIds(code, n - 1) + {SessionId(code, n)}
  }

  /** The (student, session) keys of sessions 1..n. */
  function MarkKeys(studentId: string, code: string, n: nat): set<(string, string)>
  {
    if n == 0 then {} else MarkKeys(studentId, code, n - 1) + {(studentId, SessionId(code, n))}
  }

  /** SessionIds holds the ids of sessions 1..n and nothing else. */
  lemma {:induction false} SessionIdsMembers(code: string, n: nat, id: string)
    ensures id in SessionIds(code, n) <==> exists i: nat :: 1 <= i <= n && id == SessionId(code, i)
  {
    if n > 0 {
      SessionIdsMembers(code, n - 1, id);
      if id == SessionId(code, n) {
        assert 1 <= n <= n && id == SessionId(code, n);
      }
    }
  }

  /** The session rows of sessions 1..n, by id. */
  function PlannedSessions(p: Plan, n: nat): map<string, Session>
  {
    if n == 0 then map[] else PlannedSessions(p, n - 1)[SessionId(p.code, n) := SessionRow(p, n)]
  }

  /** The attendance rows of sessions 1..n, by student and session. */
  function PlannedMarks(p: Plan, n: nat): map<(string, string), SeedRecord>
  {
    if n == 0 then map[] else PlannedMarks(p, n - 1)[(p.studentId, SessionId(p.code, n)) := RecordRow(p, n)]
  }

  /** Session n's id is not among those of sessions 1..n-1. */
  lemma NewSessionId(code: string, n: nat)
    ensures forall i: nat :: 1 <= i < n ==> SessionId(code, i) != SessionId(code, n)
  {
    forall i: nat | 1 <= i < n
      ensures SessionId(code, i) != SessionId(code, n)
    {
      if SessionId(code, i) == SessionId(code, n) {
        SessionIdInjective(code, i, code, n);
      }
    }
  }

  /** Session n's id and key are not among those of sessions 1..m, m < n. */
  lemma {:induction false} FreshKeys(studentId: string, code: string, n: nat, m: nat)
    requires m < n
    ensures SessionId(code, n) !in SessionIds(code, m)
    ensures (studentId, SessionId(code, n)) !in MarkKeys(studentId, code, m)
  {
    if m > 0 {
      FreshKeys(studentId, code, n, m - 1);
      NewSessionId(code, n);
      assert SessionId(code, m) != SessionId(code, n);
    }
  }

  /** There are n ids of sessions 1..n, and n keys. */
  lemma {:induction false} KeyCounts(studentId: string, code: string, n: nat)
    ensures |SessionIds(code, n)| == n && |MarkKeys(studentId, code, n)| == n
  {
    if n > 0 {
      KeyCounts(studentId, code, n - 1);
      FreshKeys(studentId, code, n, n - 1);
    }
  }

  /** The planned tables are keyed by the ids of sessions 1..n. */
  lemma {:induction false} PlannedKeys(p: Plan, n: nat)
    ensures PlannedSessions(p, n).Keys == SessionIds(p.code, n)
    ensures PlannedMarks(p, n).Keys == MarkKeys(p.studentId, p.code, n)
  {
    if n > 0 {
      PlannedKeys(p, n - 1);
    }
  }

  /** Each id of sessions 1..n holds its own session's row and mark. */
  lemma {:induction false} PlannedRows(p: Plan, n: nat)
    ensures forall i: nat :: 1 <= i <= n ==>
      SessionId(p.code, i) in PlannedSessions(p, n) && PlannedSessions(p, n)[SessionId(p.code, i)] == SessionRow(p, i)
    ensures forall i: nat :: 1 <= i <= n ==>
      (p.studentId, SessionId(p.code, i)) in PlannedMarks(p, n)
      && PlannedMarks(p, n)[(p.studentId, SessionId(p.code, i))] == RecordRow(p, i)
  {
    if n > 0 {
      PlannedRows(p, n - 1);
      NewSessionId(p.code, n);
    }
  }

  /** Exactly n sessions and n marks. */
  lemma PlannedCounts(p: Plan, n: nat)
    ensures |PlannedSessions(p, n)| == n && |PlannedMarks(p, n)| == n
  {
    PlannedKeys(p, n);
    KeyCounts(p.studentId, p.code, n);
  }

  /** Writing one more row over a merged table is merging one more row. */
  lemma MergeUpdate<K, V>(before: map<K, V>, planned: map<K, V>, k: K, v: V)
    ensures (before + planned)[k := v] == before + planned[k := v]
  {
  }

  /** The session table after upserting sessions 1..n over before. */
  function WriteSessions(before: map<string, Session>, p: Plan, n: nat): map<string, Session>
  {
    if n == 0 then before else WriteSessions(before, p, n - 1)[SessionId(p.code, n) := SessionRow(p, n)]
  }

  /** The attendance table after upserting the marks of sessions 1..n. */
  function WriteMarks(before: map<(string, string), SeedRecord>, p: Plan, n: nat): map<(string, string), SeedRecord>
  {
    if n == 0 then before else WriteMarks(before, p, n - 1)[(p.studentId, SessionId(p.code, n)) := RecordRow(p, n)]
  }

  /** The upserts leave the old rows of other keys and the planned rows:
      the old table merged with the plan. */
  lemma {:induction false} WritesMerge(sessions: map<string, Session>, records: map<(string, string), SeedRecord>,
                                       p: Plan, n: nat)
    ensures WriteSessions(sessions, p, n) == sessions + PlannedSessions(p, n)
    ensures WriteMarks(records, p, n) == records + PlannedMarks(p, n)
  {
    SessionWritesMerge(sessions, p, n);
    MarkWritesMerge(records, p, n);
  }

  lemma {:induction false} SessionWritesMerge(sessions: map<string, Session>, p: Plan, n: nat)
    ensures WriteSessions(sessions, p, n) == sessions + PlannedSessions(p, n)
  {
    if n > 0 {
      SessionWritesMerge(sessions, p, n - 1);
      var id := SessionId(p.code, n);
      assert PlannedSessions(p, n) == PlannedSessions(p, n - 1)[id := SessionRow(p, n)];
      MergeUpdate(sessions, PlannedSessions(p, n - 1), id, SessionRow(p, n));
    }
  }

  lemma {:induction false} MarkWritesMerge(records: map<(string, string), SeedRecord>, p: Plan, n: nat)
    ensures WriteMarks(records, p, n) == records + PlannedMarks(p, n)
  {
    if n > 0 {
      MarkWritesMerge(records, p, n - 1);
      var key := (p.studentId, SessionId(p.code, n));
      assert PlannedMarks(p, n) == PlannedMarks(p, n - 1)[key := RecordRow(p, n)];
      MergeUpdate(records, PlannedMarks(p, n - 1), key, RecordRow(p, n));
    }
  }

  /** The session, attendance and enrollment tables the schedule writes. */
  class ClassStore {
    var sessions: map<string, Session>
    var records: map<(string, string), SeedRecord>
    var enrollments: map<(string, string), string>

    constructor()
      ensures sessions == map[] && records == map[] && enrollments == map[]
    {
      sessions, records, enrollments := map[], map[], map[];
    }

    /** classSessions.upsert on the id: the row is created or overwritten. */
    method UpsertSession(s: Session)
      modifies this
      ensures sessions == old(sessions)[s.id := s]
      ensures records == old(records) && enrollments == old(enrollments)
    {
      sessions := sessions[s.id := s];
    }

    /** attendanceRecord.upsert on (studentId, sessionId). */
    method UpsertRecord(r: SeedRecord)
      modifies this
      ensures records == old(records)[(r.studentId, r.sessionId) := r]
      ensures sessions == old(sessions) && enrollments == old(enrollments)
    {
      records := records[(r.studentId, r.sessionId) := r];
    }

    /** enrollment.upsert on (studentId, subjectId), status "active". */
    method UpsertEnrollment(studentId: string, subjectId: string)
      modifies this
      ensures enrollments == old(enrollments)[(studentId, subjectId) := "active"]
      ensures sessions == old(sessions) && records == old(records)
    {
      enrollments := enrollments[(studentId, subjectId) := "active"];
    }
  }

  /** One pass of the five-semester loop: session i, then its mark. */
  method SeedSession(store: ClassStore, p: Plan, i: nat)
    modifies store
    ensures store.sessions == old(store.sessions)[SessionId(p.code, i) := SessionRow(p, i)]
    ensures store.records == old(store.records)[(p.studentId, SessionId(p.code, i)) := RecordRow(p, i)]
    ensures store.enrollments == old(store.enrollments)
  {
    var sessionId := SessionId(p.code, i);
    var sessionDate := p.baseline - (p.total - i) * DayMs;
    store.UpsertSession(Session(sessionId, sessionDate, sessionDate, sessionDate + HourMs,
                                Topic(p.style, p.name, i), p.subjectId, p.teacherId));
    var status, score;
    if i <= p.presentUpTo {
      status, score := Api.PRESENT, 1.0;
    } else if i == p.presentUpTo + 1 {
      status, score := Api.LATE, 0.8;
    } else {
      status, score := Api.ABSENT, 0.0;
    }
    store.UpsertRecord(SeedRecord(p.studentId, sessionId, score, status, "seed-script", "MANUAL_SYSTEM", p.notes));
  }

  /** The five-semester script's loop: session i and its mark together. */
  method SeedSessionsWithMarks(store: ClassStore, p: Plan)
    modifies store
    ensures store.sessions == old(store.sessions) + PlannedSessions(p, p.total)
    ensures store.records == old(store.records) + PlannedMarks(p, p.total)
    ensures store.enrollments == old(store.enrollments)
  {
    var i := 1;
    while i <= p.total
      invariant 1 <= i <= p.total + 1
      invariant store.sessions == WriteSessions(old(store.sessions), p, i - 1)
      invariant store.records == WriteMarks(old(store.records), p, i - 1)
      invariant store.enrollments == old(store.enrollments)
    {
      SeedSession(store, p, i);
      i := i + 1;
    }
    WritesMerge(old(store.sessions), old(store.records), p, p.total);
  }

  /** The main seed script's two loops: all sessions, then all marks. */
  method SeedSessionsThenMarks(store: ClassStore, p: Plan)
    modifies store
    ensures store.sessions == old(store.sessions) + PlannedSessions(p, p.total)
    ensures store.records == old(store.records) + PlannedMarks(p, p.total)
    ensures store.enrollments == old(store.enrollments)
  {
    var i := 1;
    while i <= p.total
      invariant 1 <= i <= p.total + 1
      invariant store.sessions == WriteSessions(old(store.sessions), p, i - 1)
      invariant store.records == old(store.records) && store.enrollments == old(store.enrollments)
    {
      var sessionDate := p.baseline - (p.total - i) * DayMs;
      store.UpsertSession(Session(SessionId(p.code, i), sessionDate, sessionDate, sessionDate + HourMs,
                                  Topic(p.style, p.name, i), p.subjectId, p.teacherId));
      i := i + 1;
    }
    i := 1;
    while i <= p.total
      invariant 1 <= i <= p.total + 1
      invariant store.sessions == WriteSessions(old(store.sessions), p, p.total)
      invariant store.records == WriteMarks(old(store.records), p, i - 1)
      invariant store.enrollments == old(store.enrollments)
    {
      var m := MarkFor(p.presentUpTo, i);
      store.UpsertRecord(SeedRecord(p.studentId, SessionId(p.code, i), m.1, m.0, "seed-script", "MANUAL_SYSTEM", p.notes));
      i := i + 1;
    }
    WritesMerge(old(store.sessions), old(store.records), p, p.total);
  }

  /** Merging the same rows twice is merging them once; merging rows with
      the same keys adds no key. */
  lemma RerunIdempotent<K, V>(before: map<K, V>, planned: map<K, V>, replanned: map<K, V>)
    requires planned.Keys == replanned.Keys
    ensures (before + planned) + planned == before + planned
    ensures ((before + planned) + replanned).Keys == (before + planned).Keys
  {
  }

  /** The schedule's tables after a rerun: the same day's run leaves them
      as the first run left them, another day's run keeps their keys. */
  lemma ScheduleRerun(p: Plan, baseline: int, sessions0: map<string, Session>,
                      records0: map<(string, string), SeedRecord>)
    ensures var sessions1 := sessions0 + PlannedSessions(p, p.total);
      var records1 := records0 + PlannedMarks(p, p.total);
      sessions1 + PlannedSessions(p, p.total) == sessions1 && records1 + PlannedMarks(p, p.total) == records1
      && (sessions1 + PlannedSessions(p.(baseline := baseline), p.total)).Keys == sessions1.Keys
      && (records1 + PlannedMarks(p.(baseline := baseline), p.total)).Keys == records1.Keys
  {
    ReplanSameKeys(p, baseline);
    RerunIdempotent(sessions0, PlannedSessions(p, p.total), PlannedSessions(p.(baseline := baseline), p.total));
    RerunIdempotent(records0, PlannedMarks(p, p.total), PlannedMarks(p.(baseline := baseline), p.total));
  }

  /** A rerun on another day plans the same keys. */
  lemma ReplanSameKeys(p: Plan, baseline: int)
    ensures PlannedSessions(p, p.total).Keys == PlannedSessions(p.(baseline := baseline), p.total).Keys
    ensures PlannedMarks(p, p.total).Keys == PlannedMarks(p.(baseline := baseline), p.total).Keys
  {
    PlannedKeys(p, p.total);
    PlannedKeys(p.(baseline := baseline), p.total);
  }

  /** The marks of sessions 1..n as the student dashboard API reads them. */
  function ApiRecords(p: Plan, n: nat): (rs: seq<Api.AttendanceRecord>)
    ensures |rs| == n
    ensures forall k :: 0 <= k < n ==> rs[k] == Api.AttendanceRecord(p.subjectId, MarkFor(p.presentUpTo, k + 1).0)
  {
    if n == 0 then [] else ApiRecords(p, n - 1) + [Api.AttendanceRecord(p.subjectId, MarkFor(p.presentUpTo, n).0)]
  }

  /** The counters the dashboard API computes from the seeded marks. */
  lemma {:induction false} SeededCounts(p: Plan, n: nat)
    ensures Api.Tally(ApiRecords(p, n), p.subjectId) == SeededCountsOf(p.presentUpTo, n)
  {
    if n > 0 {
      SeededCounts(p, n - 1);
      var rs := ApiRecords(p, n);
      assert rs[..n - 1] == ApiRecords(p, n - 1);
      assert rs[n - 1].subjectId == p.subjectId;
      assert Api.Tally(rs, p.subjectId) == Api.Bump(SeededCountsOf(p.presentUpTo, n - 1), MarkFor(p.presentUpTo, n).0);
    }
  }

  /** Sessions 1..n: n classes, min(n, presentUpTo) present, one late once
      n passes presentUpTo, the rest absent. */
  function SeededCountsOf(presentUpTo: nat, n: nat): (c: Api.Counts)
    ensures c.totalClasses == n && c.latePresent == 0
    ensures c.present + c.delayedPresent + c.absent == n
  {
    if n <= presentUpTo then Api.Counts(n, n, 0, 0, 0)
    else Api.Counts(n, presentUpTo, 1, 0, n - presentUpTo - 1)
  }

  /** The five-semester student sees 90.0% and "good" for each subject:
      (10 + 0.8) / 12. */
  lemma FiveSemReportsNinety(code: string, name: string, subjectId: string, teacherId: string, studentId: string,
                             baseline: int)
    ensures var p := FiveSemPlan(code, name, subjectId, teacherId, studentId, baseline);
      var c := Api.Tally(ApiRecords(p, p.total), subjectId);
      Api.ReportedPercentage(c) == 90.0 && Classify(Api.ReportedPercentage(c)) == Good
  {
    var p := FiveSemPlan(code, name, subjectId, teacherId, studentId, baseline);
    SeededCounts(p, 12);
    assert SeededCountsOf(10, 12) == Api.Counts(12, 10, 1, 0, 1);
    assert WeightedScore(10, 1, 0, 0) == 10.8;
    assert (900.0 + 0.5).Floor == 900;
  }

  /** The main seed student sees 94.0% and "good": (18 + 0.8) / 20. */
  lemma MainSeedReportsNinetyFour(code: string, name: string, subjectId: string, teacherId: string,
                                  studentId: string, baseline: int)
    ensures var p := MainSeedPlan(code, name, subjectId, teacherId, studentId, baseline);
      var c := Api.Tally(ApiRecords(p, p.total), subjectId);
      Api.ReportedPercentage(c) == 94.0 && Classify(Api.ReportedPercentage(c)) == Good
  {
    var p := MainSeedPlan(code, name, subjectId, teacherId, studentId, baseline);
    SeededCounts(p, 20);
    assert SeededCountsOf(18, 20) == Api.Counts(20, 18, 1, 0, 1);
    assert WeightedScore(18, 1, 0, 0) == 18.8;
    assert (940.0 + 0.5).Floor == 940;
  }
}
