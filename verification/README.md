# Campus attendance: a verified model of its core logic

This project models the core of a campus attendance application in Dafny. The application is a Next.js web app backed by a Prisma/PostgreSQL database. Students see a weighted attendance percentage per subject, teachers see per-subject presence, and an administrator edits a grid of marks. The model covers five parts of the application.

- **Scoring.** The application uses one weighted formula: present 1.0, delayed (DP, LATE) 0.8, late (LP, VERY_LATE) 0.6, absent 0. Its thresholds are good from 80 %, warning from 70 % and critical below. It re-implements these in the student and teacher dashboards, in both dashboard APIs and in the admin sheet, each with its own denominator and rounding order (`scoring.dfy`, `student_dashboard.dfy`, `teacher_dashboard.dfy`, `student_dashboard_api.dfy`, `teacher_dashboard_api.dfy`). All values are exact rationals. `Math.round` and `Number(x.toFixed(k))` are explicit rounding functions.
- **Aggregation.** Three loops are modelled as methods proved against specification functions:
  - the per-subject grouping of attendance records in the student dashboard API;
  - the per-student and grid-wide counters of the admin sheet;
  - the mock month generator with its overall totals and best subject (`attendance_logic.dfy`).
- **The admin attendance grid** (`admin_sheet.dfy`). This is a class holding the page's state: the grid, the search box, the scroll offset, edit mode, the selected cell and the recently-updated set. Each event handler is a method that states the whole new state.
- **The account lifecycle.** It runs signup, one-time code issue, e-mail verification, login, profile completion and the dashboard redirect (`signup.dfy`, `resend_verification.dfy`, `email_verify.dfy`, `login.dfy`, `complete_profile_student.dfy`, `complete_profile_teacher.dfy`, `dashboard_page.dfy`).
  - Each route is an ordered chain of checks, written as a pure function from the request and the tables to a status and a redirect.
  - Each route also has a method that performs the route's single write on the `Store.Database` class.
  - The database's unique constraints are checked by the class's writes, which fail with Prisma's P2002 and change nothing.
- **The seed scripts.** The model covers:
  - random card numbers that are unique within a run;
  - e-mail and phone candidate rotation;
  - teacher rows cleaned and skipped when a name is blank;
  - the semester map and the subject loop;
  - the fifth-semester card numbers `t_<code>` and its teacher find-or-create;
  - the deterministic session and mark schedules of both seed scripts, written as upserts (`seed_identity.dfy`, `teacher_seed.dfy`, `subject_seed.dfy`, `fivesem_seed.dfy`, `session_seed.dfy`).

Random draws, the clock, new row ids, the bcrypt hash and comparison, and the mail provider's outcome are all parameters.

Several behaviours of the application are modelled as written and stated as lemmas:

- **Rounding order.** The student dashboard view classifies on the unrounded percentage, while the student API classifies on the rounded one. They can disagree: 320 present and 1 late out of 401 classes is shown as 80.0 in both, but the view says warning and the API says good (`StudentDashboardApi.RoundingOrderDiffers`).
- **Staff roles.** The /dashboard page sends HOD to /dashboard/admin and ADMIN to /dashboard, while login sends ADMIN to /dashboard/admin and HOD to /dashboard/hod (`DashboardPage.StaffRolesDisagreeWithLogin`).
- **Padded identifiers.** The profile routes check the untrimmed roll or card number but store the trimmed one. A padded duplicate passes the pre-check and is caught by the insert, which answers with the same 409.
- **Stale selection.** In the admin sheet, Save and the Edit toggle leave the selected cell selected. A selection therefore survives leaving edit mode, although its option editor is closed (`AdminSheet.SelectionOutlivesSave`).
- **Shared teachers.** In the fifth-semester seed, a teacher who teaches a lecture and its lab keeps one profile, which ends with the lab's card number (`FiveSemSeed.SharedTeacherTakesLastCard`).

## Model

| member | source | states |
|---|---|---|
| Common.OrNull | app/api/complete-profile/student/route.ts:111-114 | `field \|\| null` keeps a field exactly when it is present and non-empty, unchanged |
| Text.TrimStart | app/api/login/route.ts:30 | the leading part dropped by `trim` is all white space, and the rest is a suffix that starts with a non-space |
| Text.TrimEnd | app/api/login/route.ts:30 | the trailing part dropped by `trim` is all white space, and the rest is a prefix that ends with a non-space |
| Text.TrimIsTrimmed | app/api/login/route.ts:30 | a trimmed string starts and ends with a non-space |
| Text.TrimEmpty | prisma/teacherU.ts:111-119 | `trim` yields "" exactly for a string made only of white space |
| Text.TrimOfTrimmed | app/api/signup/route.ts:26-27 | trimming a trimmed string changes nothing |
| Text.TrimmedOrNull | app/api/complete-profile/student/route.ts:107 | `field?.trim() \|\| null` is the trimmed text exactly when that is non-empty, and null otherwise |
| Text.Lower | app/api/login/route.ts:30 | `toLowerCase` keeps the length and folds each ASCII letter |
| Text.LowerIdempotent | app/api/login/route.ts:30 | lower-casing twice is lower-casing once |
| Text.LowerKeepsTrimmed | app/api/login/route.ts:30 | lower-casing a trimmed string leaves it trimmed |
| Text.NormalizeEmailIdempotent | app/api/signup/route.ts:26 | normalising an address that is already normalised changes nothing, so a stored address is found again |
| Text.ContainsEmpty | components/dashboard/AttendanceSheetAdmin_view.tsx:197-201 | every string contains the empty query |
| Text.NatToString | prisma/teacherU.ts:45-46 | `String(n)` is a non-empty run of digits with no leading zero |
| Text.NatToStringRoundTrip | prisma/fivesem.ts:215-222 | reading back the digits of `String(n)` gives n |
| Text.NatToStringInjective | prisma/seed.ts:152-154 | distinct numbers print as distinct strings |
| Text.Pow10 | app/api/resend-verification/route.ts:7-11 | 10^k is at least 1 |
| Text.NatToStringLength | app/api/resend-verification/route.ts:7-11 | a number in [10^(k-1), 10^k) prints with exactly k digits |
| Http.Path | app/api/signup/route.ts:40 | a redirect target made of a path alone has no query |
| Http.Json | app/api/login/route.ts:48-51 | a plain reply carries the given status and message and no redirect |
| Http.Redirect | app/api/login/route.ts:56-62 | a redirect reply carries the given status, message and target |
| Draws.ScaledDrawInRange | components/dashboard/AttendanceSheetAdmin_view.tsx:94 | `Math.floor(u * w + lo)` with u in [0, 1) lands on one of the w integers from lo |
| Draws.PickIndex | prisma/teacherU.ts:38-40 | `Math.floor(u * n)` is a valid index into an n-element list |
| Scoring.Classify | components/dashboard_view/StudentDashboard.tsx:45-52 | good exactly from 80 up, warning exactly in [70, 80), critical exactly below 70 |
| Scoring.ClassifyMonotone | components/dashboard_view/StudentDashboard.tsx:45-52 | a higher percentage never gets a worse status |
| Scoring.WeightedScoreBounds | components/dashboard_view/StudentDashboard.tsx:40-41 | absences add nothing to the weighted score, which lies between 0 and the number of attended classes and equals the present count exactly when no class was delayed or late |
| Scoring.ScoreTenthsExact | components/dashboard_view/StudentDashboard.tsx:40-41 | ten times the weighted score is the integer 10p + 8d + 6l |
| Scoring.PercentageInRange | components/dashboard_view/StudentDashboard.tsx:42-43 | a score between 0 and the class count gives a percentage in [0, 100] |
| Scoring.PercentageFromTenths | components/dashboard_view/StudentDashboard.tsx:40-43 | with classes held, the weighted percentage equals ten times the whole-number score 10p + 8d + 6l over the class count |
| Scoring.FullPercentage | components/dashboard_view/StudentDashboard.tsx:42-43 | a score equal to the class count is exactly 100 % |
| Scoring.PercentageMonotone | components/dashboard_view/StudentDashboard.tsx:42-43 | a higher score never gives a lower percentage |
| Scoring.RoundHalfUp | lib/attendanceLogic.ts:63 | `Math.round` lands within half a unit of its argument, halves going up |
| Scoring.RoundHalfUpMonotone | lib/attendanceLogic.ts:63 | `Math.round` is monotone |
| Scoring.RoundHalfUpWithin | lib/attendanceLogic.ts:170-172 | rounding a value between two integers stays between them |
| Scoring.Round1 | components/dashboard_view/StudentDashboard.tsx:57 | `toFixed(1)` is a whole number of tenths in the half-unit window around its argument: (x - 0.05, x + 0.05] for x >= 0 and [x - 0.05, x + 0.05) for x < 0 (halves away from zero); a non-negative value stays non-negative |
| Scoring.Round1Magnitude | components/dashboard_view/StudentDashboard.tsx:57 | for a non-negative value, `toFixed(1)` is a non-negative whole number of tenths in (x - 0.05, x + 0.05] |
| Scoring.Round2 | components/dashboard_view/StudentDashboard.tsx:55 | `toFixed(2)` is a whole number of hundredths in (x - 0.005, x + 0.005] for x >= 0 and in [x - 0.005, x + 0.005) for x < 0 |
| Scoring.Round2Magnitude | components/dashboard_view/StudentDashboard.tsx:55 | for a non-negative value, `toFixed(2)` is a non-negative whole number of hundredths in (x - 0.005, x + 0.005] |
| Scoring.Round1InRange | components/dashboard_view/StudentDashboard.tsx:57 | a percentage in [0, 100] stays in [0, 100] after `toFixed(1)` |
| Scoring.Round1Monotone | components/dashboard_view/StudentDashboard.tsx:57 | `toFixed(1)` is monotone on non-negative values |
| AttendanceLogic.CalculateTotalClasses | lib/attendanceLogic.ts:39-51 | 24 working days: a lab gets 24 / 7 = 3 classes whatever its weekly count, a theory subject floor(24 / 7 * weekly) capped at 24 / 2 = 12, never negative for a non-negative weekly count |
| AttendanceLogic.TheoryCap | lib/attendanceLogic.ts:48-49 | the cap of 12 is reached from 4 classes a week on; below that the count is 24 * weekly / 7 |
| AttendanceLogic.AttendanceRateInRange | lib/attendanceLogic.ts:60 | the random rate lies between the minimum and the maximum rate |
| AttendanceLogic.GenerateAttendanceData | lib/attendanceLogic.ts:54-76 | the four counts add up to the class count; the attended count is `Math.round(total * rate)`, present `Math.round(0.7 * attended)`, delayed `Math.round(0.6 * rest)`, and late takes the remainder |
| AttendanceLogic.GeneratedCountsNonNegative | lib/attendanceLogic.ts:63-75 | with a draw in [0, 1) and rates inside [0, 1], none of the four counts is negative |
| AttendanceLogic.MakeSubjectFacts | lib/attendanceLogic.ts:164-187 | a generated subject's counts add up to its class count, none is negative, and its percentage is the rounded attended share, within [0, 100] |
| AttendanceLogic.GenerateSubjectsData | lib/attendanceLogic.ts:163-189 | one record per config, in config order, with id, name, teacher, code and color copied, no holidays, and the class count of its type |
| AttendanceLogic.GenerateSubjectsDataFacts | lib/attendanceLogic.ts:163-189 | every generated record's counts add up and its percentage lies in [0, 100] |
| AttendanceLogic.ConfiguredClassCounts | lib/attendanceLogic.ts:79-160 | with the configured table every theory subject has 6 classes and every lab 3 |
| AttendanceLogic.BestSubjectIndex | lib/attendanceLogic.ts:213-215 | the best subject has the highest percentage and every earlier subject a strictly lower one, so ties keep the first |
| AttendanceLogic.CalculateOverallStats | lib/attendanceLogic.ts:192-227 | an empty list fails as `reduce` without a seed does; otherwise the totals are the field-wise sums, the subject count is the list length, the overall percentage is the rounded attended share (0 without classes), and the best subject is the earliest with the highest percentage |
| AttendanceLogic.OverallAttendedWithinClasses | lib/attendanceLogic.ts:207-210 | when every subject's attended counts fit its class count, so do the totals |
| StudentDashboard.CalculateWeightedAttendance | components/dashboard_view/StudentDashboard.tsx:28-60 | the maximum score is the class count; the score is the weighted sum rounded with `toFixed(2)` (so within 0.005 of it); the percentage is the unrounded percentage rounded with `toFixed(1)`; the status is that of the unrounded percentage; no class gives 0 % and critical; attended counts within the class count give a percentage in [0, 100] |
| StudentDashboard.CardPercentageInTenths | components/dashboard_view/StudentDashboard.tsx:40-57 | with classes held the card shows 10 x (10p + 8d + 6l) / total rounded to one decimal, and 0 without classes |
| StudentDashboard.AbsentIsIgnored | components/dashboard_view/StudentDashboard.tsx:40-41 | the absent count changes nothing in the result |
| StudentDashboard.Extremes | components/dashboard_view/StudentDashboard.tsx:40-52 | all present is 100 % and good; all absent is 0 % and critical |
| StudentDashboard.PromotionNeverHurts | components/dashboard_view/StudentDashboard.tsx:40-52 | turning a delayed class into a present one never worsens the status |
| StudentDashboard.CreateSubject | components/dashboard_view/StudentDashboard.tsx:63-97 | id, code, name, teacher and the four counts are copied unchanged; only the derived fields come from CalculateWeightedAttendance |
| StudentDashboard.StatusDecidedBeforeRounding | components/dashboard_view/StudentDashboard.tsx:42-57 | 320 present and 1 late of 401 classes shows 80.0 % yet is a warning, because the status is decided before rounding |
| TeacherDashboard.CreateTeacherSubject | components/dashboard_view/TeacherDashboard.tsx:23-50 | every input is copied, the percentage is exactly `Round1` of the present share (so on the tenths grid, within 0.05 of it; 0 without students), the status is that of the unrounded share, and present within total gives [0, 100] |
| TeacherDashboard.AbsentSlice | components/dashboard_view/TeacherDashboard.tsx:115-116 | the absent slice and the present students add up to the enrolled students, non-negative when present is within total |
| TeacherDashboard.ProgressWidth | components/dashboard_view/TeacherDashboard.tsx:176 | the bar width is the percentage capped at 100 |
| TeacherDashboard.ProgressWidthOfCard | components/dashboard_view/TeacherDashboard.tsx:176 | for a card built from present within total, the bar width is its percentage and lies in [0, 100] |
| TeacherDashboard.StatusDecidedBeforeRounding | components/dashboard_view/TeacherDashboard.tsx:31-47 | 1999 of 2500 students shows 80.0 % and is a warning |
| StudentDashboardApi.Bump | app/api/student/me/dashboard/route.ts:47-52 | one record adds one class to its subject and one to exactly the matching column, none for an unrecognised status |
| StudentDashboardApi.Tally | app/api/student/me/dashboard/route.ts:35-53 | a subject's four columns add up to at most its class count, which is at most the number of records; a subject without records has zero counts |
| StudentDashboardApi.SubjectIdsStep | app/api/student/me/dashboard/route.ts:37-45 | one more record adds its subject to the grouped keys |
| StudentDashboardApi.TallyStep | app/api/student/me/dashboard/route.ts:47-52 | one more record changes the counters of its own subject only |
| StudentDashboardApi.Increment | app/api/student/me/dashboard/route.ts:47-52 | the counter update in the loop is Bump |
| StudentDashboardApi.GroupAttendance | app/api/student/me/dashboard/route.ts:33-53 | the grouping has exactly one entry per subject that has records, holding that subject's tally |
| StudentDashboardApi.OccurrencesOfDistinct | app/api/student/me/dashboard/route.ts:33-53 | in a list of distinct keys a key occurs once or not at all |
| StudentDashboardApi.SumTotalsEmpty | app/api/student/me/dashboard/route.ts:38-44 | with no records every subject has no classes |
| StudentDashboardApi.SumTotalsStep | app/api/student/me/dashboard/route.ts:47 | one more record adds one class to every listed subject it belongs to |
| StudentDashboardApi.GroupedTotalsCoverRecords | app/api/student/me/dashboard/route.ts:35-47 | summed over distinct subjects covering all records, the class counts equal the number of records |
| StudentDashboardApi.GroupedMapCoversRecords | app/api/student/me/dashboard/route.ts:35-47 | summed over the grouping's own keys, the class counts equal the number of records |
| StudentDashboardApi.FullName | app/api/student/me/dashboard/route.ts:59 | the name is first, middle and last joined by two spaces, a missing middle name leaving both spaces |
| StudentDashboardApi.ReportedPercentage | app/api/student/me/dashboard/route.ts:79-82 | 0 without classes, otherwise exactly `Round1` of the weighted share (`toFixed(1)`), hence within 0.05 of it |
| StudentDashboardApi.Summarize | app/api/student/me/dashboard/route.ts:65-106 | identity copied, teacher's full name, counts passed through, maximum score equal to the class count, the percentage is `ReportedPercentage` and the status that of the rounded percentage, the score is exactly `Round2` of the weighted sum (`toFixed(2)`), within 0.005 of it |
| StudentDashboardApi.SummaryPercentageInRange | app/api/student/me/dashboard/route.ts:74-82 | counters that come from records give a reported percentage in [0, 100] |
| StudentDashboardApi.SubjectWithoutRecords | app/api/student/me/dashboard/route.ts:66-73 | a subject without records is reported with zero counts, 0 % and critical |
| StudentDashboardApi.Get | app/api/student/me/dashboard/route.ts:5-114 | no student is 404 and nothing else; otherwise 200, the student header, and exactly one summary per current-semester subject, in query order, from the grouped records |
| StudentDashboardApi.RoundingOrderDiffers | app/api/student/me/dashboard/route.ts:79-89 | 320 present and 1 late of 401 classes is good here and a warning on the dashboard card, both showing 80.0 |
| StudentDashboardApi.RoundingOrderAgrees | app/api/student/me/dashboard/route.ts:79-89 | away from the half-tenth below each threshold the two rounding orders give the same status |
| TeacherDashboardApi.SubjectOf | app/api/teacher/me/dashboard/route.ts:64-84 | the counts pass through, the percentage is exactly `Round1` of the present share, within 0.05 of it (0 without students), and in [0, 100] when present is within total, and the status is that of the rounded percentage |
| TeacherDashboardApi.Get | app/api/teacher/me/dashboard/route.ts:11-97 | 400 exactly when teacherId is missing or empty, 404 exactly for an unknown teacher, otherwise the teacher header and one entry per row in row order |
| TeacherDashboardApi.EmptyTeacherIdRefused | app/api/teacher/me/dashboard/route.ts:15-19 | a missing or empty teacherId is 400 whatever the store and the rows hold |
| LoginRoute.RoleHome | app/api/login/route.ts:94-111 | iff table: STUDENT to /dashboard/student, TEACHER to /dashboard/teacher, ADMIN to /dashboard/admin, HOD to /dashboard/hod, and /dashboard exactly for a role outside those four |
| LoginRoute.CompleteProfileUrl | app/api/login/route.ts:80-92 | /complete-profile with role=student or role=teacher only for those roles, then the email always |
| LoginRoute.LoginRedirect | app/api/login/route.ts:76-111 | an incomplete profile goes to complete its profile, a complete one to its role's dashboard |
| LoginRoute.LookupUser | app/api/login/route.ts:29-44 | a user is found exactly when one has the trimmed, lower-cased address |
| LoginRoute.Login | app/api/login/route.ts:9-120 | 400 exactly when email or password is missing; 401 exactly for an unknown user or a verified user with the wrong password, always with the same message; 403 to /email-verify?email=… exactly for an unverified user; 200 with LoginRedirect otherwise |
| LoginRoute.UnknownUserLikeWrongPassword | app/api/login/route.ts:47-74 | an unknown address and a wrong password give the identical reply |
| LoginRoute.UnverifiedBeforePassword | app/api/login/route.ts:55-66 | an unverified account gets 403 whatever the password comparison would say |
| LoginRoute.LoginUsesNormalizedEmail | app/api/login/route.ts:30-34 | two addresses that normalise alike log in alike |
| LoginRoute.RightPasswordLogsIn | app/api/login/route.ts:94-120 | a registered, verified user with the right password gets 200 and their redirect |
| SignupRoute.MapRole | app/api/signup/route.ts:67-74 | "student" and "teacher" map to their roles and every other string to none |
| SignupRoute.SignupCheck | app/api/signup/route.ts:18-74 | 400 for a missing field; an unverified existing address is sent to /email-verify with 200, a verified one 409; a used phone 409; an unknown role 400 only after both; when all checks pass, exactly a new account with the normalised address, the trimmed phone and the mapped role, and only then |
| SignupRoute.WriteFailure | app/api/signup/route.ts:105-124 | a unique violation is 409, any other failure 500 |
| SignupRoute.NewUser | app/api/signup/route.ts:80-95 | the new row carries the normalised contact data, the mapped role and the hash, unverified and without a profile |
| SignupRoute.Signup | app/api/signup/route.ts:8-125 | a refused request writes nothing; an accepted one adds exactly the new user and answers 201 to /email-verify, or maps a unique violation to its reply and writes nothing; no other table changes |
| SignupRoute.OnlyIdCanClash | app/api/signup/route.ts:29-65 | after the checks pass, the new row can clash only on its id |
| SignupRoute.SignupThenLogin | app/api/login/route.ts:29-66 | a new account is found by login under any spelling that normalises alike, and is told to verify first |
| SignupRoute.RepeatedSignupGoesToVerification | app/api/signup/route.ts:34-44 | signing up again with the still unverified address is sent to /email-verify and creates nothing |
| EmailVerifyRoute.SelectToken | app/api/email-verify/route.ts:36-45 | the chosen token belongs to the user, carries the code and is unused, and no later-created token does; none exactly when no token qualifies |
| EmailVerifyRoute.VerifyCheck | app/api/email-verify/route.ts:12-59 | 400 for a missing field, then for an unknown user, then for no matching unused token, then for an expiry strictly before now; every refusal is 400 without redirect; a found user with a selected token not yet expired is accepted with exactly that user and token, and only then |
| EmailVerifyRoute.VerifyEmail | app/api/email-verify/route.ts:4-78 | a refusal writes nothing; an acceptance sets the user's verified flag and the token's used flag together, changes nothing else, and answers 200 to /login |
| EmailVerifyRoute.UsedTokenNeverAccepted | app/api/email-verify/route.ts:40 | a token marked used is never the one accepted |
| EmailVerifyRoute.ExpiryBoundary | app/api/email-verify/route.ts:54-59 | a token that expires exactly now is accepted, one millisecond later it is refused |
| EmailVerifyRoute.LookupAfterVerify | app/api/email-verify/route.ts:63-68 | setting the verified flag keeps addresses unique and every address at the same row |
| EmailVerifyRoute.ReplayRefused | app/api/email-verify/route.ts:62-73 | after a successful verification the same request is refused as an invalid code, unless another unused token of the user carries the same code |
| ResendVerificationRoute.OtpValue | app/api/resend-verification/route.ts:7-10 | the random number lies in [10^(len-1), 10^len - 1] |
| ResendVerificationRoute.GenerateOtp | app/api/resend-verification/route.ts:7-11 | the code has exactly len digits, no leading zero, no surrounding space, and reads back as the random number |
| ResendVerificationRoute.ResendCheck | app/api/resend-verification/route.ts:17-35 | 400 exactly for a missing address, 400 exactly for an unknown one; a known address issues a code for exactly the user the normalised address finds |
| ResendVerificationRoute.NewToken | app/api/resend-verification/route.ts:37-46 | the token belongs to the user, carries a six-digit code, is unused and expires 600 000 ms after now |
| ResendVerificationRoute.Resend | app/api/resend-verification/route.ts:13-64 | a refusal writes nothing and sends nothing; otherwise exactly one token is appended, existing tokens and every other table stay as they were, and the code mailed is the code stored |
| ResendVerificationRoute.IssuedCodeVerifies | app/api/email-verify/route.ts:19-59 | a freshly issued code, typed back with the address it was sent to, is accepted at any time up to its expiry |
| CompleteStudentProfileRoute.NewStudent | app/api/complete-profile/student/route.ts:103-116 | the user and branch ids as given; first name, last name and roll number trimmed; the middle name trimmed or null when blank; semester, academic year, batch and image kept exactly when present and non-empty, null otherwise |
| CompleteStudentProfileRoute.StudentCheck | app/api/complete-profile/student/route.ts:38-99 | 400 exactly for a missing required field, then 400 exactly for a missing or non-student user, 400 for a complete profile, 400 for an existing profile, 409 for a roll number taken as typed; when all checks pass, exactly the insert of the profile built from the form, and only then |
| CompleteStudentProfileRoute.StudentWriteFailure | app/api/complete-profile/student/route.ts:134-155 | a unique violation naming rollNo is the 409 of the pre-check, anything else 500 |
| CompleteStudentProfileRoute.CompleteStudentProfile | app/api/complete-profile/student/route.ts:7-156 | a refusal writes nothing; otherwise the profile insert and the completion flag are written together or not at all, with 201 to /dashboard/student on success; teachers and tokens never change |
| CompleteStudentProfileRoute.PaddedRollCaughtByInsert | app/api/complete-profile/student/route.ts:90-109 | a roll number typed with spaces whose trimmed form is taken passes the pre-check but fails the insert with the same 409 |
| CompleteStudentProfileRoute.CheckedInsertFailsOnlyOnRoll | app/api/complete-profile/student/route.ts:102-148 | after the checks pass, the insert fails exactly when the trimmed roll number is taken |
| CompleteStudentProfileRoute.SecondSubmissionRefused | app/api/complete-profile/student/route.ts:70-75 | submitting the same form again after success is refused as already completed |
| CompleteStudentProfileRoute.RedirectAgreesWithDashboardPage | app/api/complete-profile/student/route.ts:126-133 | the redirect answered is where the dashboard page sends the verified user afterwards |
| CompleteTeacherProfileRoute.NewTeacher | app/api/complete-profile/teacher/route.ts:104-118 | the user and department ids as given; names, card number and designation trimmed; middle name and specialization trimmed or null when blank; image, office hours and room kept exactly when present and non-empty, null otherwise |
| CompleteTeacherProfileRoute.TeacherCheck | app/api/complete-profile/teacher/route.ts:39-101 | 400 exactly for a missing required field, then 400 exactly for a missing or non-teacher user, 400 for a complete profile, 400 for an existing profile, 409 for a card number taken as typed; when all checks pass, exactly the insert of the profile built from the form, and only then |
| CompleteTeacherProfileRoute.TeacherWriteFailure | app/api/complete-profile/teacher/route.ts:137-157 | a unique violation naming cardNo is the 409 of the pre-check, anything else 500 |
| CompleteTeacherProfileRoute.CompleteTeacherProfile | app/api/complete-profile/teacher/route.ts:7-158 | a refusal writes nothing; otherwise the profile insert and the completion flag are written together or not at all, with 201 to /dashboard/teacher on success; students and tokens never change |
| CompleteTeacherProfileRoute.PaddedCardCaughtByInsert | app/api/complete-profile/teacher/route.ts:92-111 | a card number typed with spaces whose trimmed form is taken passes the pre-check but fails the insert with the same 409 |
| CompleteTeacherProfileRoute.CheckedInsertFailsOnlyOnCard | app/api/complete-profile/teacher/route.ts:104-150 | after the checks pass, the insert fails exactly when the trimmed card number is taken |
| CompleteTeacherProfileRoute.SecondSubmissionRefused | app/api/complete-profile/teacher/route.ts:72-77 | submitting the same form again after success is refused as already completed |
| CompleteTeacherProfileRoute.RedirectAgreesWithDashboardPage | app/api/complete-profile/teacher/route.ts:129-136 | the redirect answered is where the dashboard page sends the verified user afterwards |
| DashboardPage.RoleDashboard | app/dashboard/page.tsx:48-57 | students and teachers to their dashboards, HOD to /dashboard/admin, ADMIN and every other role to /dashboard |
| DashboardPage.DashboardRedirect | app/dashboard/page.tsx:9-62 | /login without a uid, on a failed lookup, for an unknown uid or an unverified address; /complete-profile for an incomplete profile; the role's dashboard otherwise |
| DashboardPage.OnlyFinishedAccountsReachDashboards | app/dashboard/page.tsx:16-45 | only a verified user with a complete profile reaches a dashboard |
| DashboardPage.StaffRolesDisagreeWithLogin | app/dashboard/page.tsx:53-56 | the page and the login route agree on students and teachers but send HOD and ADMIN to different places |
| Store.FirstIndex | app/api/login/route.ts:33-44 | the first position satisfying the predicate, or none when no position does |
| Store.LastIndex | app/api/email-verify/route.ts:42-44 | the last position satisfying the predicate, or none when no position does |
| Store.UserById | app/dashboard/page.tsx:21-29 | findUnique by id finds a row with that id, and none exactly when no row has it |
| Store.UserByEmail | app/api/login/route.ts:33-34 | findUnique by email finds a row with that address, and none exactly when no row has it |
| Store.UserByPhone | app/api/signup/route.ts:56-58 | findUnique by phone finds a row with that phone, and none exactly when no row has it |
| Store.UserByIdUnique | app/dashboard/page.tsx:21-29 | with unique ids, the row holding an id is the one found |
| Store.LookupAfterComplete | app/api/complete-profile/student/route.ts:117-122 | flagging a user complete keeps ids unique and every id at the same row |
| Store.UserConflict | app/api/signup/route.ts:80-95 | a new user row violates a unique constraint exactly when the table with it would not be unique |
| Store.StudentProfileConflict | app/api/complete-profile/student/route.ts:102-123 | a student insert fails exactly on a taken userId or roll number or a missing user, and otherwise keeps the profiles unique |
| Store.TeacherProfileConflict | app/api/complete-profile/teacher/route.ts:104-126 | a teacher insert fails exactly on a taken userId or card number or a missing user, and otherwise keeps the profiles unique |
| Store.TeacherByUser | prisma/fivesem.ts:137-139 | findFirst by userId finds a teacher with that user, none exactly when there is none |
| Store.TeacherByCard | prisma/fivesem.ts:140-143 | findUnique by cardNo finds a teacher with that card, none exactly when there is none |
| Store.TeacherUpdateConflict | prisma/fivesem.ts:145-158 | an update of one teacher row fails exactly when another row holds its userId or card number, and otherwise keeps the profiles unique |
| Store.WithEmailVerified | app/api/email-verify/route.ts:63-68 | the user row with only the verified flag set |
| Store.Database.CreateUser | app/api/signup/route.ts:80-95 | the row is appended exactly when it violates no unique constraint, other tables untouched, constraints kept |
| Store.Database.CreateToken | app/api/resend-verification/route.ts:40-46 | the token is appended exactly when its id is free, other tables untouched |
| Store.Database.VerifyEmail | app/api/email-verify/route.ts:62-73 | the user's flag and the token's used mark are set together, nothing else changes |
| Store.Database.SetRole | prisma/fivesem.ts:121-123 | only the role of the one user row changes |
| Store.Database.CreateStudentProfile | app/api/complete-profile/student/route.ts:102-123 | the insert and the completion flag happen together or not at all |
| Store.Database.CreateTeacher | prisma/fivesem.ts:160-170 | a teacher row is appended exactly when it violates no constraint; users untouched |
| Store.Database.UpdateTeacher | prisma/fivesem.ts:145-158 | row k is overwritten exactly when no other row holds its keys |
| Store.Database.CreateTeacherProfile | app/api/complete-profile/teacher/route.ts:104-126 | the insert and the completion flag happen together or not at all |
| SeedIdentity.CardNumber | prisma/teacherU.ts:45 | `Math.floor(100 + u * 900)` is a three-digit number |
| SeedIdentity.CardForDraw | prisma/teacherU.ts:45-46 | `exe${n}` is "exe" and three digits without a leading zero, reading back as n |
| SeedIdentity.CardForDrawInjective | prisma/subject.ts:41-42 | two draws give the same card exactly when they give the same number |
| SeedIdentity.FreshIndex | prisma/teacherU.ts:44-51 | the first draw whose card is not taken, every earlier one being taken; none when all are |
| SeedIdentity.CardRegistry.GenCardNo | prisma/teacherU.ts:42-52 | the card of the first draw not yet in the set is returned and added, so the set grows by exactly that card; the set is unchanged when no draw is free |
| SeedIdentity.EmailCandidate | prisma/teacherU.ts:56-62 | candidate 0 is base@campus.test and candidate k is base, the digits of k, then @campus.test |
| SeedIdentity.EmailCandidateInjective | prisma/subject.ts:52-57 | different suffixes give different addresses |
| SeedIdentity.DigitValue | prisma/teacherU.ts:69 | `Number` of a digit character is its value |
| SeedIdentity.PhoneCandidate | prisma/teacherU.ts:65-70 | a candidate keeps every digit but the last and ends in a digit |
| SeedIdentity.PhoneCandidateZero | prisma/teacherU.ts:65 | the first phone tried is the base itself |
| SeedIdentity.PhoneCandidatesRepeat | prisma/teacherU.ts:69 | the k-th candidate equals the (k mod 10)-th, so at most ten distinct phones are tried |
| SeedIdentity.PhonesExhausted | prisma/subject.ts:62-65 | when the first ten candidates are taken every candidate is, so the source's loop would not end |
| SeedIdentity.PhoneBase | prisma/teacherU.ts:129 | "98" followed by eight digits, ten digits in all |
| SeedIdentity.UnmatchedShrinks | prisma/teacherU.ts:59-62 | passing a taken candidate removes its holder from the users not yet matched, which bounds the e-mail loop |
| SeedIdentity.FirstFreeEmail | prisma/teacherU.ts:56-62 | the e-mail loop stops at the first candidate no user holds, every earlier one being taken |
| SeedIdentity.FirstFreePhone | prisma/teacherU.ts:64-70 | the phone loop stops at the first free candidate, every earlier one being taken, or at 10 when all ten are |
| SeedIdentity.SafeCreateUser | prisma/teacherU.ts:54-86 | the new unverified TEACHER row holds the first free e-mail and the first free phone candidate and is appended; nothing is written when all phones are taken or the id clashes; other tables untouched |
| TeacherSeed.CleanRow | prisma/teacherU.ts:110-122 | a row is skipped exactly when its first or last name is blank; otherwise the names are trimmed and non-empty, an empty middle name is null and a non-empty one trimmed, the designation is the given one or Lecturer when empty, and the specialisation is the trimmed given one or one from the pool |
| TeacherSeed.EmailBase | prisma/teacherU.ts:128 | the base is the lower-cased first name, a dot and the lower-cased last name |
| TeacherSeed.TeacherRecord | prisma/teacherU.ts:135-147 | the profile carries the cleaned names, designation and specialisation, the card, the new user, the department and the placeholder image, and no office hours or room |
| TeacherSeed.NamedAmongBounds | prisma/teacherU.ts:110-119 | at most n of the first n rows are named, and more rows never lower the count |
| TeacherSeed.ShapeAppend | prisma/teacherU.ts:135-147 | appending a well-formed profile keeps all profiles well formed |
| TeacherSeed.IssuedSurvivesGrowth | prisma/teacherU.ts:108 | cards issued in the run stay issued as the set grows |
| TeacherSeed.IssueOne | prisma/teacherU.ts:125 | a card not yet in the set differs from every card issued before it |
| TeacherSeed.ProgressStep | prisma/teacherU.ts:110-150 | one more seeded row keeps the loop's invariant |
| TeacherSeed.ProgressGrowth | prisma/teacherU.ts:110-150 | the invariant survives cards added by a row that then failed |
| TeacherSeed.SeedClean | prisma/teacherU.ts:124-147 | on success one new TEACHER user (the row's id, the default hash, a name-based address and a drawn phone, both free before) is appended, then exactly the profile TeacherRecord builds from the cleaned row, that user, a card new to the run and the department; a user created before a failed profile insert stays |
| TeacherSeed.SeedRow | prisma/teacherU.ts:110-148 | a row with a blank name writes nothing; otherwise the outcome of SeedClean on the cleaned row |
| TeacherSeed.SeedTeachers | prisma/teacherU.ts:107-150 | each appended profile is the record of a named row, in row order, with that row's user id, and one TEACHER user per profile is appended in the same order; the cards are pairwise distinct and new to the run; exactly one profile per named row when the run finishes |
| SubjectSeed.SemesterMapOf | prisma/subject.ts:99-112 | the map's keys are exactly the semester numbers upserted, each mapped to the id one of its upserts returned |
| SubjectSeed.BuildSemesterMap | prisma/subject.ts:99-112 | the loop fills the map SemesterMapOf describes |
| SubjectSeed.DistinctSemesterIds | prisma/subject.ts:101-111 | with distinct numbers each number maps to the id of its own upsert |
| SubjectSeed.EvenSemestersOnly | prisma/subject.ts:99 | the script's map holds exactly semesters 2, 4, 6 and 8 |
| SubjectSeed.SubjectTable.Create | prisma/subject.ts:201-211 | subject.create appends the row exactly when its code is free, and fails on a taken code leaving the table as it was |
| SubjectSeed.SubjectTable.Upsert | prisma/fivesem.ts:174-193 | subject.upsert overwrites the row with the same code, or appends one when none has it |
| SubjectSeed.SubjectByCode | prisma/fivesem.ts:175 | findUnique by code finds the row with that code, none exactly when the code is free |
| SubjectSeed.SubjectRow | prisma/subject.ts:199-210 | the written subject has the spec's code and name, its semester's id, the branch, credits 3, isLab false, and one of the created teachers |
| SubjectSeed.PlanSubjectsShape | prisma/subject.ts:192-216 | the loop keeps the rows it found, adds at most one row per spec, keeps codes unique, and every added row is a seeded subject |
| SubjectSeed.CreateSubjects | prisma/subject.ts:192-216 | a spec whose semester is missing is skipped, a failed create is logged and skipped, and the table ends as PlanSubjects says |
| SubjectSeed.PlanStep | prisma/subject.ts:193-215 | one more spec adds its row exactly when its semester is mapped and its code is free |
| SubjectSeed.AssignSubjects | prisma/subject.ts:150-152 | with no teacher the script throws before any subject is written; otherwise the subject loop runs |
| SubjectSeed.TeacherIds | prisma/subject.ts:146 | the ids collected are those of the created teachers, in creation order |
| SubjectSeed.SubjectScript | prisma/subject.ts:80-219 | the teacher loop appends exactly the created profiles; unless it throws, one teacher per named row exists and the subjects are those the plan gives over the even-semester list; a throw writes no subject |
| SubjectSeed.SubjectsTaughtBySeededTeachers | prisma/subject.ts:199-209 | every subject the script writes is taught by a teacher it created |
| SubjectSeed.AllSpecsCreated | prisma/subject.ts:192-216 | with every semester mapped and all codes distinct and free, every spec is written, in list order |
| SubjectSeed.NotTakenAfterPlan | prisma/subject.ts:192-216 | a code free before the loop and distinct from earlier specs is still free when its spec comes up |
| SubjectSeed.EvenSemesterCodesDistinct | prisma/subject.ts:155-189 | the 26 listed codes are pairwise distinct |
| SubjectSeed.CodeListDistinct | prisma/subject.ts:155-189 | the code list is pairwise distinct |
| SubjectSeed.CodeListMatches | prisma/subject.ts:155-189 | the code list is the list's codes, in order |
| SubjectSeed.EvenSemesterSubjectsAllCreated | prisma/subject.ts:155-216 | on a table holding none of the codes, all 26 subjects are written |
| SessionSeed.FiveSemPlan | prisma/fivesem.ts:215-261 | the five-semester script plans 12 sessions per subject with the first 10 present and topics "name - Lecture i" |
| SessionSeed.MainSeedPlan | prisma/seed.ts:152-196 | the main seed script plans 20 sessions with the first 18 present and topics "Lecture i - name" |
| SessionSeed.SessionIdInjective | prisma/fivesem.ts:222 | the id `${code}-s-${i}` determines both the subject code and the session number, so two sessions never share an id |
| SessionSeed.DigitsNotLonger | prisma/fivesem.ts:222 | equal ids cannot have digit blocks of different lengths |
| SessionSeed.DashBeforeDigits | prisma/fivesem.ts:222 | the character just before the number's digits is '-' |
| SessionSeed.DigitsAtEnd | prisma/fivesem.ts:222 | the id ends with the decimal digits of the session number |
| SessionSeed.SessionRow | prisma/fivesem.ts:222-246 | session i has the deterministic id, the subject and teacher of the plan, date and start time equal to baseline minus (total - i) days, and ends one hour later |
| SessionSeed.ScheduleOrder | prisma/fivesem.ts:216-232 | sessions are in strictly increasing order, exactly (j - i) days apart, the last on the baseline, each one hour long |
| SessionSeed.MarkFor | prisma/fivesem.ts:250-261 | PRESENT exactly for sessions up to the present count, LATE exactly for the next one, ABSENT exactly for the later ones, with scores 1.0, 0.8 and 0 |
| SessionSeed.RecordRow | prisma/fivesem.ts:264-288 | the mark of session i is for the plan's student and session i's id, with the status and score MarkFor gives |
| SessionSeed.SessionIdsMembers | prisma/fivesem.ts:220-222 | the ids the loop writes are exactly those of sessions 1..n |
| SessionSeed.NewSessionId | prisma/fivesem.ts:222 | session n's id differs from those of every earlier session |
| SessionSeed.FreshKeys | prisma/fivesem.ts:222-266 | session n's id and its (student, session) key are new with respect to sessions 1..m for m < n |
| SessionSeed.KeyCounts | prisma/fivesem.ts:220-266 | sessions 1..n have n distinct ids and n distinct attendance keys |
| SessionSeed.PlannedKeys | prisma/fivesem.ts:220-288 | the planned session and attendance tables are keyed by exactly the ids and keys of sessions 1..n |
| SessionSeed.PlannedRows | prisma/fivesem.ts:220-288 | each planned key holds its own session's row and mark |
| SessionSeed.PlannedCounts | prisma/fivesem.ts:215-288 | the schedule writes exactly n sessions and n attendance marks |
| SessionSeed.MergeUpdate | prisma/fivesem.ts:227-246 | upserting one more row over a merged table equals merging that row into the planned part |
| SessionSeed.WritesMerge | prisma/fivesem.ts:220-289 | after the upserts the tables are the old rows overridden by the planned rows |
| SessionSeed.SessionWritesMerge | prisma/fivesem.ts:227-246 | upserting sessions 1..n gives the old table overridden by the planned sessions |
| SessionSeed.MarkWritesMerge | prisma/fivesem.ts:264-288 | upserting the marks of sessions 1..n gives the old table overridden by the planned marks |
| SessionSeed.ClassStore.UpsertSession | prisma/fivesem.ts:227-246 | classSessions.upsert creates or overwrites the row under the id and changes no other table |
| SessionSeed.ClassStore.UpsertRecord | prisma/fivesem.ts:264-288 | attendanceRecord.upsert creates or overwrites the row under (student, session) and changes no other table |
| SessionSeed.ClassStore.UpsertEnrollment | prisma/fivesem.ts:196-209 | enrollment.upsert sets (student, subject) to "active" and changes no other table |
| SessionSeed.SeedSession | prisma/fivesem.ts:222-288 | one loop pass writes session i's row and its mark and nothing else |
| SessionSeed.SeedSessionsWithMarks | prisma/fivesem.ts:220-289 | the five-semester loop leaves the old rows of other keys and exactly the planned sessions and marks |
| SessionSeed.SeedSessionsThenMarks | prisma/seed.ts:152-223 | the main seed's two loops (all sessions, then all marks) end in the same tables as the interleaved loop |
| SessionSeed.ScheduleRerun | prisma/fivesem.ts:5-6 | after one run of a schedule, running it again the same day leaves the session and mark tables unchanged, and on another day keeps their keys |
| SessionSeed.ReplanSameKeys | prisma/fivesem.ts:217-222 | a rerun with another baseline plans exactly the same session ids and attendance keys |
| SessionSeed.ApiRecords | app/api/student/me/dashboard/route.ts:35-53 | the seeded marks as the dashboard API reads them: one record per session, in order, with the subject and MarkFor's status |
| SessionSeed.SeededCounts | app/api/student/me/dashboard/route.ts:35-53 | the API's counters over the seeded marks are exactly SeededCountsOf |
| SessionSeed.SeededCountsOf | app/api/student/me/dashboard/route.ts:35-53 | n classes, no "very late", and the present, late and absent counts add up to n |
| SessionSeed.FiveSemReportsNinety | prisma/fivesem.ts:12 | the five-semester student is reported 90.0 % and "good" in every subject, (10 + 0.8) / 12 |
| SessionSeed.MainSeedReportsNinetyFour | prisma/seed.ts:180 | the main seed student is reported 94.0 % and "good", (18 + 0.8) / 20 |
| FiveSemSeed.KeepCardChars | prisma/fivesem.ts:134 | the clean-up keeps only characters in [a-z0-9], never lengthens the string, and leaves a string made only of them unchanged |
| FiveSemSeed.KeepCardCharsMembers | prisma/fivesem.ts:134 | a character survives the clean-up exactly when it occurs in the input and is in [a-z0-9] |
| FiveSemSeed.KeepCardCharsAppend | prisma/fivesem.ts:134 | the clean-up of a concatenation is the concatenation of the clean-ups |
| FiveSemSeed.UpperCardNo | prisma/fivesem.ts:134 | a code of capital letters gets the card "t_" followed by the code in lower case |
| FiveSemSeed.LowerAppend | prisma/fivesem.ts:134 | lowering a concatenation lowers each part |
| FiveSemSeed.LabSuffix | prisma/fivesem.ts:134 | the "-LAB" suffix lowers to "-lab" and cleans up to "lab" |
| FiveSemSeed.LabCardNo | prisma/fivesem.ts:107-112 | a lab's card is its lecture's card followed by "lab" |
| FiveSemSeed.CardNoFor | prisma/fivesem.ts:134 | the card starts with "t_", every later character is in [a-z0-9], and it is at most two characters longer than the code |
| FiveSemSeed.CardNoIgnoresCase | prisma/fivesem.ts:134 | codes that differ only in case get the same card |
| FiveSemSeed.CardNoExamples | prisma/fivesem.ts:108 | the Computer Networks lab is given the card "t_cnlab" |
| FiveSemSeed.CnLiterals | prisma/fivesem.ts:102-108 | the literal steps behind that card: "CN" lowers to "cn" and the parts join to "t_cnlab" |
| FiveSemSeed.CardNoDropsHyphen | prisma/fivesem.ts:134 | a hyphen in a code is dropped, so "A-B" and "AB" share a card |
| FiveSemSeed.LowerAroundHyphen | prisma/fivesem.ts:134 | lowering keeps a hyphen in place and lowers both sides |
| FiveSemSeed.DropHyphen | prisma/fivesem.ts:134 | the clean-up removes a hyphen between two parts |
| FiveSemSeed.FiveSemCodes | prisma/fivesem.ts:99-113 | the subject list is the six lectures in order followed by the five labs, each lab code its lecture's code plus "-LAB" |
| FiveSemSeed.CodeListsShape | prisma/fivesem.ts:99-113 | the lecture and lab codes are distinct capital-letter codes |
| FiveSemSeed.LowerUpperInjective | prisma/fivesem.ts:134 | two capital-letter codes with the same lower case are equal |
| FiveSemSeed.FiveSemCardsDistinct | prisma/fivesem.ts:99-134 | no two of the eleven subjects are given the same card number |
| FiveSemSeed.NewTeacherUser | prisma/fivesem.ts:124-130 | the created user has the e-mail, role TEACHER, a verified address, a "98" phone of ten digits and the seed password |
| FiveSemSeed.UpsertTeacherUser | prisma/fivesem.ts:121-131 | an address already stored has only that row's role set to TEACHER; otherwise the new user is appended unless its id or phone is taken, in which case nothing changes; a returned id belongs to the TEACHER row of the address |
| FiveSemSeed.UserByEmailUnique | prisma/fivesem.ts:121-122 | with unique addresses the lookup by e-mail finds the one row holding it |
| FiveSemSeed.TeacherTarget | prisma/fivesem.ts:136-143 | the user's own profile is preferred, then the profile holding the card; nothing is found exactly when neither exists |
| FiveSemSeed.Refreshed | prisma/fivesem.ts:144-157 | the update overwrites the user, card, names, designation "Lecturer", department and image, and keeps the other fields |
| FiveSemSeed.NewTeacher | prisma/fivesem.ts:158-171 | the created profile has the same seeded fields and no middle name, specialization, office hours or room |
| FiveSemSeed.WriteTeacherResult | prisma/fivesem.ts:136-171 | a failed write changes nothing; a successful one leaves the user exactly one profile with the seeded fields and adds a row exactly when neither the user nor the card had one |
| FiveSemSeed.TeacherByUserUnique | prisma/fivesem.ts:137 | with unique user ids the lookup by user finds the one row |
| FiveSemSeed.WriteTeacherKeepsProfile | prisma/fivesem.ts:137-157 | a user who has a profile keeps its row and position, and no row is added |
| FiveSemSeed.WriteTeacherIdempotent | prisma/fivesem.ts:5-9 | repeating a successful write with the same values succeeds and changes nothing |
| FiveSemSeed.SharedTeacherTakesLastCard | prisma/fivesem.ts:100-112 | a teacher met again for a later subject keeps one row and moves to the later card, freeing the earlier one |
| FiveSemSeed.WriteTeacherTakesOverCard | prisma/fivesem.ts:139-157 | a user without a profile takes over the profile holding the card, and that profile's old owner is left without one |
| FiveSemSeed.WriteTeacherCardConflict | prisma/fivesem.ts:144-157 | when the user's profile exists and another profile holds the card, the update fails on cardNo and nothing changes |
| FiveSemSeed.FindOrCreateTeacher | prisma/fivesem.ts:136-171 | the find-or-create writes exactly WriteTeacher's table and error, and leaves users, students and tokens alone |
| FiveSemSeed.SeededSurvives | prisma/fivesem.ts:119-292 | a seeded subject stays seeded while the tables only grow |
| FiveSemSeed.FirstSeededSurvives | prisma/fivesem.ts:119-292 | the subjects seeded before stay seeded while the tables only grow |
| FiveSemSeed.UpsertKeepsCodes | prisma/fivesem.ts:174-193 | the subject upsert keeps every code that was taken and takes its own |
| FiveSemSeed.PlanWritten | prisma/fivesem.ts:215-289 | after the merge all twelve sessions of the subject and the student's mark in each are stored |
| FiveSemSeed.SeedTeacher | prisma/fivesem.ts:120-171 | when both writes succeed, the address belongs to a TEACHER user, the one whose id is returned, with a profile carrying the seeded fields and the card; users keep their ids and addresses |
| FiveSemSeed.SeedSubjectRows | prisma/fivesem.ts:173-289 | the subject row is upserted on its code with the listed name, lab flag and credits, the branch, the semester and the teacher; the enrollment is set active; the sessions and marks are the old ones merged with the twelve planned ones |
| FiveSemSeed.StepWrites | prisma/fivesem.ts:173-289 | after the writes for a subject, its row, active enrollment and twelve planned sessions and marks are in place |
| FiveSemSeed.StepIdempotent | prisma/fivesem.ts:5-6 | a second run of a subject's writes, with the same teacher and clock, leaves the subject, enrollment, session and mark tables exactly as the first left them |
| FiveSemSeed.StepKeeps | prisma/fivesem.ts:119-292 | the writes for one subject leave every subject with another code as it was written |
| FiveSemSeed.FiveSemCodesDistinct | prisma/fivesem.ts:99-113 | the eleven subjects have pairwise different codes |
| FiveSemSeed.SeedSubject | prisma/fivesem.ts:119-292 | one pass of the loop: on success the subject row, enrollment, sessions and marks are exactly those of SeedSubjectRows with the teacher the address finds, and the teacher is ready; on failure the subject, session and mark tables are unchanged |
| FiveSemSeed.SeedSubjects | prisma/fivesem.ts:119-292 | the loop stops at the first failed write; every subject before it is seeded, its teacher address finds the recorded teacher, and, when the codes are distinct, its row, enrollment, sessions and marks hold the written contents |
| FiveSemSeed.SeedFiveSem | prisma/fivesem.ts:99-292 | over the eleven subjects: finished exactly when all are seeded, and every subject reached holds its written row, enrollment, twelve sessions and marks, taught by the user its teacher address finds |
| AdminSheet.MarkFor | components/dashboard/AttendanceSheetAdmin_view.tsx:94-98 | a draw always gives one of the four codes; "P" exactly below 0.75 and "A" exactly from 0.97 up |
| AdminSheet.GenerateRow | components/dashboard/AttendanceSheetAdmin_view.tsx:92-99 | a student's row has exactly one cell per date, every cell holds a code, and with distinct dates each cell holds the code of its own draw |
| AdminSheet.AddRow | components/dashboard/AttendanceSheetAdmin_view.tsx:91-92 | adding one student's row keeps the grid well formed and, with distinct roll numbers, keeps the earlier rows |
| AdminSheet.GenerateRandomAttendance | components/dashboard/AttendanceSheetAdmin_view.tsx:88-103 | the grid has exactly one row per roll number, each row exactly one cell per date, every cell a code, and with distinct keys each cell comes from its own draw |
| AdminSheet.RowOf | components/dashboard/AttendanceSheetAdmin_view.tsx:129 | a row is found exactly when the grid holds the student |
| AdminSheet.StatsOf | components/dashboard/AttendanceSheetAdmin_view.tsx:129-131 | a student without a row gets all counters and the percentage at zero |
| AdminSheet.CountStep | components/dashboard/AttendanceSheetAdmin_view.tsx:138-143 | counting one more cell adds one to the counter of its code and nothing to the others |
| AdminSheet.CountsPartition | components/dashboard/AttendanceSheetAdmin_view.tsx:138-143 | the four counters together count exactly the cells holding a code, so they never exceed the number of cells |
| AdminSheet.CodesCover | components/dashboard/AttendanceSheetAdmin_view.tsx:139-142 | the cells holding a code are the union of the four per-code sets, which are pairwise disjoint |
| AdminSheet.StatsPercentageInRange | components/dashboard/AttendanceSheetAdmin_view.tsx:145-156 | a row with no more cells than the sheet has dates gets a percentage between 0 and 100 |
| AdminSheet.AllStats | components/dashboard/AttendanceSheetAdmin_view.tsx:168-169 | one stats value per student of the roster, in roster order, each that student's own |
| AdminSheet.BandsPartition | components/dashboard/AttendanceSheetAdmin_view.tsx:173-177 | every student falls in exactly one of the good, warning and critical bands |
| AdminSheet.TotalWeightedBound | components/dashboard/AttendanceSheetAdmin_view.tsx:170-171 | when nobody attended more classes than the sheet has, the weighted total lies between 0 and students times classes |
| AdminSheet.AverageInRange | components/dashboard/AttendanceSheetAdmin_view.tsx:180-188 | with every row within the sheet's dates the average attendance lies in [0, 100] |
| AdminSheet.Filter | components/dashboard/AttendanceSheetAdmin_view.tsx:197-201 | the students shown are exactly the roster's students whose lower-cased name or roll number contains the lower-cased query |
| AdminSheet.FilterAppend | components/dashboard/AttendanceSheetAdmin_view.tsx:197-201 | filtering keeps roster order: filtering a roster in two parts is filtering each part |
| AdminSheet.FilterEmptyQuery | components/dashboard/AttendanceSheetAdmin_view.tsx:197-201 | an empty search box shows the whole roster, in order |
| AdminSheet.WithCell | components/dashboard/AttendanceSheetAdmin_view.tsx:219-225 | writing a cell keeps every row and adds the student's row when it was missing |
| AdminSheet.WithCellFrame | components/dashboard/AttendanceSheetAdmin_view.tsx:219-225 | writing a cell sets exactly that cell; every other position reads as before |
| AdminSheet.ScrolledLeft | components/dashboard/AttendanceSheetAdmin_view.tsx:245 | the offset moves back by 100 but never below 0 |
| AdminSheet.ScrolledRight | components/dashboard/AttendanceSheetAdmin_view.tsx:250 | the offset moves on by 100 but never past the maximum |
| AdminSheet.CalculateMaxScroll | components/dashboard/AttendanceSheetAdmin_view.tsx:234-241 | the overflow of the table past its viewport, never negative, and 0 before the table is mounted |
| AdminSheet.ScrollStaysInRange | components/dashboard/AttendanceSheetAdmin_view.tsx:244-251 | both scroll buttons keep an offset within [0, max] |
| AdminSheet.GetPercentageStyle | components/dashboard/AttendanceSheetAdmin_view.tsx:288-292 | green exactly from 80, yellow exactly in [70, 80), red exactly below 70 |
| AdminSheet.StyleAgreesWithStatus | components/dashboard/AttendanceSheetAdmin_view.tsx:173-177 | the colour band is the dashboard's good, warning or critical status under another name |
| AdminSheet.AttendanceSheet.constructor | components/dashboard/AttendanceSheetAdmin_view.tsx:106-118 | an empty grid and search box, scroll 0, not editing, no selection and no updated cells |
| AdminSheet.AttendanceSheet.Initialize | components/dashboard/AttendanceSheetAdmin_view.tsx:123-125 | the mount effect fills the grid with one row per student and one coded cell per date, and changes nothing else |
| AdminSheet.AttendanceSheet.CalculateStudentStats | components/dashboard/AttendanceSheetAdmin_view.tsx:128-158 | the counting loop yields exactly StatsOf: the number of cells holding each code and the one-decimal weighted percentage |
| AdminSheet.AttendanceSheet.CalculateOverallStats | components/dashboard/AttendanceSheetAdmin_view.tsx:161-192 | the class and student counts, the average of AverageAttendance, and the numbers of students in the warning and critical bands |
| AdminSheet.AttendanceSheet.FilteredStudents | components/dashboard/AttendanceSheetAdmin_view.tsx:197-201 | the table shows Filter of the roster by the current search box |
| AdminSheet.AttendanceSheet.SetSearchQuery | components/dashboard/AttendanceSheetAdmin_view.tsx:376 | sets the search box and nothing else |
| AdminSheet.AttendanceSheet.ToggleEditing | components/dashboard/AttendanceSheetAdmin_view.tsx:381 | flips edit mode and keeps the selection |
| AdminSheet.AttendanceSheet.HandleCellClick | components/dashboard/AttendanceSheetAdmin_view.tsx:204-208 | selects the cell exactly in edit mode, otherwise changes nothing |
| AdminSheet.AttendanceSheet.UpdateAttendance | components/dashboard/AttendanceSheetAdmin_view.tsx:211-225 | writes exactly one cell, adds "roll-date" to the updated set and leaves the selection to the timer |
| AdminSheet.AttendanceSheet.SelectionTimeout | components/dashboard/AttendanceSheetAdmin_view.tsx:228-230 | the timer clears the selection and nothing else |
| AdminSheet.AttendanceSheet.ScrollLeft | components/dashboard/AttendanceSheetAdmin_view.tsx:244-246 | the offset becomes ScrolledLeft of the old one, never grows and stays non-negative |
| AdminSheet.AttendanceSheet.ScrollRight | components/dashboard/AttendanceSheetAdmin_view.tsx:248-251 | the offset becomes ScrolledRight of the old one, never passing the maximum scroll |
| AdminSheet.AttendanceSheet.HandleSave | components/dashboard/AttendanceSheetAdmin_view.tsx:259-263 | leaves edit mode and clears the updated set; the grid and the selection stay |
| AdminSheet.AttendanceSheet.HandleCancel | components/dashboard/AttendanceSheetAdmin_view.tsx:266-269 | leaves edit mode and clears the selection; the edited cells and the updated set stay |
| AdminSheet.SelectionOutlivesSave | components/dashboard/AttendanceSheetAdmin_view.tsx:259-263 | after a cell is chosen in edit mode and Save is pressed, the cell is still selected but its option editor is closed |

## Left out

- **I/O and the framework.** HTTP parsing, cookies, JSX rendering, Tailwind classes, charts and icons are left out, as are console logging and the `alert` calls of the admin sheet. Of the admin sheet's state, the export button and `showPercentage` are only display.
- **Next.js `redirect()`.** It works by throwing, and the dashboard page's catch-all would intercept that signal. The model follows the decision table the page evidently intends.
- **Catch-all 500 answers.** The routes' 500 answers for unexpected exceptions are not modelled. Unique-constraint failures are modelled, because the routes map them to 409.
- **Floating point.** IEEE-754 arithmetic is left out. Scores and percentages are exact rationals, and `toFixed` and `Math.round` are modelled as exact rounding half away from zero and floor(x + 0.5). No claim is made at binary-representation edge cases.
- **Unicode.** `toLowerCase` is ASCII only: other letters are left unchanged. URL encoding of redirect query strings is left out; redirects are kept as a path and its parameters.
- **bcrypt.** The hash is an input string, and the comparison is a boolean parameter of the login decision.
- **E-mail delivery.** `lib/email.ts` is not part of this model. Whether the provider fails is a parameter of the resend route.
- **Time.** The clock is an integer number of milliseconds passed in. `scanTime`, `arrivalTime` and `createdAt` are not stored. Token recency is the order of insertion.
- **Random numbers.** Every `Math.random()` draw is a real in [0, 1) passed in.
- SeedIdentity.CardRegistry.GenCardNo: the source redraws forever until a card is free; the model takes a finite stream of draws and returns None when the stream runs out.
- SeedIdentity.SafeCreateUser: the source's phone search loops forever once the ten candidates are all taken; the model stops after those ten and creates nothing.
- SubjectSeed.SubjectScript: a teacher is identified by the user id of its profile, not by the generated profile id, and subjects are identified by their unique code.
- FiveSemSeed.SeedFiveSem: the department, branch, semester and student upserts are not modelled; their ids are inputs. The subject's code stands for its id in the enrollment and session rows.
- FiveSemSeed.NewTeacherUser: the phone of a new teacher user is drawn once, without the retry loop of the other seed scripts. The source retries nothing either, so a taken phone fails the upsert.
- **Seed scripts with no computation of their own.** `prisma/semester.ts`, `prisma/seed_branch_dept.ts` and `prisma/teacherSeed.ts` are constant upserts and deletes, and are not part of this model. Neither is `lib/subjectData.ts`, which only composes the generator functions at load time. Of `prisma/seed.ts`, only the session and mark schedule is modelled; its fixed rows are inputs.
- StudentDashboardApi.Get: the student lookup, which matches the hard-coded roll number "PAS078BEI023" rather than the signed-in user, is not modelled; its result is the `student` input. The subject query on the student's branch and current semester is not modelled either; its rows are the `subjects` input.
- **The mock rosters.** The admin sheet's 48 students and 7 dates are parameters of the class. With students but no dates, AttendanceSheetAdmin_view.tsx:179-182 divides by zero and shows NaN. `AdminSheet.AverageAttendance`, through `Percentage`, gives 0 there instead. That case cannot arise with the source's seven fixed dates.
- **The teacher dashboard's SQL.** The query is not modelled; its result rows are the input of the mapping.
- **Route answers.** The ids echoed in the 201 bodies of the profile routes are not modelled, and neither is the logout route, which only expires a cookie.
- **Concurrency.** Two requests running at once are left to the database. Each transaction is one atomic update of the `Database` object.
