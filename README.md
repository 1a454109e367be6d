# School attendance dashboard — a verified model

This project models the logic of a browser-based school dashboard: the
in-memory attendance store and the statistics computed over it, the
attendance marking sheet, the event and curriculum-activity boards, class
and student management, and the sign-in form. All of the system's data is
component state, so the model is that state and the handlers that change it.

- **Attendance store** (`App`). `AttendanceStore` holds the records and
  only appends to them. `GetAttendanceStats` counts present, absent and late
  records. It first applies an optional date filter, then an optional
  `"<class>-<section>"` filter. Each filter applies only when it is a
  non-empty string, as JavaScript truthiness decides. `GetClassAttendance`
  gives the attended share, present or late, of a class over the last
  `dateRange` days. Percentages are exact: the value is rounded to a tenth,
  halves upwards, and held in tenths. `toFixed(1)` renders it as
  `"<integer>.<digit>"`, or `"0"` when there are no records.
- **Marking sheet** (`AttendanceManagement`). `AttendanceSheet` keeps the
  per-student status map. The filter keeps the selected class and then
  matches the search term. The sheet's own statistics filter by date only,
  with no truthiness test.
- **Boards** (`EventManagement`, `CurriculumActivities`, `ClassManagement`).
  Each board is a class over its lists and its creation form. Creating an
  item appends it with fixed defaults and resets the form. Each view is a
  filter: `"all"` wildcards for type and status, and a substring search.
  Most searched fields ignore case. A student's roll number and class are
  matched exactly as typed.
- **Sign-in** (`LoginPage`). `LoginForm` steps the login type, email,
  password, error and busy flag. The lookup finds the first user with the
  typed email whose role fits the tab. The teacher tab accepts teachers and
  admins; the student tab accepts students. The password takes no part in
  the lookup.

Shared modules:

- `Seqs` models `filter`, `filter(..).length` and `find` over sequences.
- `Text` models `toLowerCase`, `includes`, `parseInt` and the one-decimal
  rendering.
- `Dates` turns an ISO 8601 calendar date `YYYY-MM-DD` into a day number,
  as JavaScript's date-only format reads it: month 01 to 12, day 01 to 31,
  and a day past the end of its month counts on into the next month.
  Consecutive calendar days get consecutive numbers.

The window of `getClassAttendance` compares with `>=` and `<=`; the model
counts it in whole days and includes both ends of
`[today - dateRange, today]` (see "## Left out" for how that differs from
comparing instants).

## Model

| member | source | states |
|---|---|---|
| Seqs.Filter | src/App.tsx:183 | `Array.prototype.filter`: the result is no longer than the input, holds only elements that pass, and holds every element that passes |
| Seqs.FilterKeepsOrder | src/App.tsx:183 | the filtered list is exactly the passing elements taken at increasing positions, so every view keeps list order |
| Seqs.FilterFilter | src/components/AttendanceManagement.tsx:54-59 | two chained filters equal one filter by the conjunction |
| Seqs.CountPartition3 | src/App.tsx:190-193 | when each element satisfies exactly one of three tests, the three counts add up to the length |
| Seqs.FindFirst | src/components/LoginPage.tsx:27-30 | `Array.prototype.find` by index: the first passing element, or none when no element passes |
| Text.ToLower | src/components/EventManagement.tsx:128-130 | `toLowerCase` keeps the length and lower-cases each character |
| Text.Includes | src/components/EventManagement.tsx:128-130 | `includes`: the empty term is always included; an included term is no longer than the text |
| Text.IncludesIff | src/components/EventManagement.tsx:128-130 | `includes` holds exactly when the term occurs at some position of the text |
| Text.SearchIgnoresTermCase | src/components/ClassManagement.tsx:152-155 | lower-casing both sides makes the case of the search term irrelevant |
| Text.ParseInt | src/components/EventManagement.tsx:106 | `parseInt` gives `NaN` for an empty field or one that does not start with a digit or sign |
| Text.ParseIntOfDecimal | src/components/EventManagement.tsx:106 | parsing a number's decimal rendering, alone or followed by a non-digit, gives the number back |
| Text.RenderTenths | src/App.tsx:200 | `toFixed(1)` of a value held in tenths: before the point only digits, without a leading zero, whose value is the integer part; then a point and the tenths digit; `parseInt` reads back the integer part |
| Dates.ParseIsoDate | src/App.tsx:211-212 | `new Date(record.date)` read in the `YYYY-MM-DD` form: a day number exactly for digit fields with month 1 to 12 and day 1 to 31, that of the year, month and day read; any other string gives none |
| Dates.YearLength | src/App.tsx:211-212 | a year counted from March is 366 days exactly when the February that ends it is in a leap year, else 365 |
| Dates.NextMonthStartsNextDay | src/App.tsx:211-212 | the 1st of the next month is one day after the last day of the month, February's length included |
| Dates.NextYearStartsNextDay | src/App.tsx:211-212 | 1 January is one day after 31 December of the year before |
| Dates.NextDayIsNextNumber | src/App.tsx:211-212 | every calendar day's successor, within a month or across a month or year end, has the next day number |
| Dates.DayPastMonthEndRollsOver | src/App.tsx:211-212 | a day number past the month's length up to 31 is the same day as the overflow into the next month |
| Dates.EpochIsDayZero | src/App.tsx:211-212 | 1970-01-01 is day 0 |
| Dates.MockDateDayNumber | src/App.tsx:129 | the records' date 2025-01-20 is day 20108 after 1970-01-01 |
| Dates.February29In2025RollsOver | src/App.tsx:211-212 | "2025-02-29" is read as the same day as "2025-03-01" |
| App.AssignedTeacherId | src/components/ClassManagement.tsx:119 | the user's teacher id when set and non-empty, else the user id |
| App.RoundTenths | src/App.tsx:200 | the percentage in tenths is within half a tenth of `num/den*100`, at most 100%, 0 for none and 100% for all |
| App.PercentageText | src/App.tsx:200 | `"0"` exactly when there are no records; otherwise the digits of the rounded percentage's integer part (no leading zero), a point and its tenths digit, reading back between 0 and 100 |
| App.StatsOf | src/App.tsx:190-200 | the total is the number of records and splits into present, absent and late; each count is the number of records of that status; `"0"` exactly when there are no records |
| App.LateCountsAsAttended | src/App.tsx:200 | the percentage shows the share of present and late records, rounded to a tenth, between 0 and 100 |
| App.StatsOfAppend | src/App.tsx:191-193 | each status count over two lists is the sum of the counts over each list |
| App.GetAttendanceStats | src/App.tsx:179-202 | at most all records are counted; the counts partition the total; `"0"` exactly when nothing is counted; without filters every record counts |
| App.StatsAreOfCountedRecords | src/App.tsx:180-188 | the stats are those of exactly the records that pass every filter that is set; an absent or empty filter imposes nothing |
| App.StatsAppend | src/App.tsx:175-193 | the counts over appended lists are the sums of the counts over the parts |
| App.SingleRecordStats | src/App.tsx:182-193 | one record is counted, under its own status, exactly when the set filters match it |
| App.AppendOneRecord | src/App.tsx:175-193 | appending a record raises the total and its status count by one exactly when the filters match it |
| App.AppendOtherDatesKeepsStats | src/App.tsx:175-184 | appending records of other dates leaves the stats of a date unchanged |
| App.MalformedClassKeyCountsNothing | src/App.tsx:186-188 | a class filter without a dash matches no record: total 0, percentage `"0"` |
| App.GetClassAttendance | src/App.tsx:204-222 | the attended share, in tenths of a percent, is within half a tenth of `present-or-late / in-window * 100`, halves rounding up; it lies in 0..100%, is 0 when no record of the class falls in the window, and 100% when every such record is present or late |
| App.HalfTenthBoundIsExact | src/App.tsx:222 | the half-a-tenth bound of `Math.round(percentage * 10) / 10` admits exactly one value |
| App.ClassAttendanceOf20January | src/App.tsx:204-216 | with the default range of 30 days, the three records of 2025-01-20 (two present or late) give 66.7% to class 10-A from that day through the 30th day after, both ends of the model's day window included |
| App.ClassAttendanceAfterWindow | src/App.tsx:204-216 | on the 31st day after, the same records are outside the default window and the share is 0 |
| App.OutsideWindowIgnored | src/App.tsx:209-213 | a record of another class or outside `[today - dateRange, today]` does not change the share |
| App.TwoOfThreeText | src/App.tsx:200 | two attended out of three shows as `"66.7"` |
| App.OneOfEachStats | src/App.tsx:190-200 | one present, one late and one absent record give 3, 1, 1, 1 and `"66.7"` |
| App.InitialRecordsSelected | src/App.tsx:128-136 | on the initial records, 2025-01-20 in class 10-A selects the three records of that day |
| App.InitialStatsExample | src/App.tsx:128-136 | on the initial records, the stats of 2025-01-20 for 10-A are total 3, present 1, absent 1, late 1, `"66.7"` |
| App.AttendanceStore.constructor | src/App.tsx:128-136 | the store starts with the seven initial records |
| App.AttendanceStore.AddAttendanceRecords | src/App.tsx:175-177 | the new records follow all existing ones in their given order; existing records are unchanged |
| AttendanceManagement.FilteredStudents | src/components/AttendanceManagement.tsx:54-59 | every student shown is in the selected class and matches the name (ignoring case) or the roll number |
| AttendanceManagement.FilteredStudentsExactly | src/components/AttendanceManagement.tsx:54-59 | the view is one order-keeping filter by both conditions, and every student meeting both is shown |
| AttendanceManagement.EmptySearchShowsClass | src/components/AttendanceManagement.tsx:56-59 | with an empty search the whole selected class is shown |
| AttendanceManagement.SheetStats | src/components/AttendanceManagement.tsx:61-69 | only records of exactly the selected date count; the counts partition the total; `"0"` exactly when nothing counts |
| AttendanceManagement.SheetStatsAgreeWithApp | src/components/AttendanceManagement.tsx:61-69 | for a non-empty date the sheet's stats equal the application's stats of that date |
| AttendanceManagement.SheetStatsExample | src/components/AttendanceManagement.tsx:30-34 | the sheet's records of 2025-01-20 give 3, 1, 1, 1 and `"66.7"` |
| AttendanceManagement.AttendanceSheet.constructor | src/components/AttendanceManagement.tsx:20-34 | nothing is marked; the roster and the records are the sheet's mock data, with no setter |
| AttendanceManagement.AttendanceSheet.HandleAttendanceChange | src/components/AttendanceManagement.tsx:36-41 | the student's entry becomes the status and every other entry is unchanged |
| AttendanceManagement.AttendanceSheet.ClearAll | src/components/AttendanceManagement.tsx:278 | the status map becomes empty |
| EventManagement.GetEventTypeInfo | src/components/EventManagement.tsx:121-123 | the table entry whose value is the type; the "other" entry when none matches |
| EventManagement.EveryEventTypeHasInfo | src/components/EventManagement.tsx:88-94 | every event type has its own entry, so the fallback is never taken for one |
| EventManagement.UnknownTypeFallsBack | src/components/EventManagement.tsx:122 | an unknown type shows as "Other" |
| EventManagement.MaxParticipantsOf | src/components/EventManagement.tsx:106 | a limit exactly when the field parses to a non-zero integer; none for an empty field |
| EventManagement.MaxParticipantsRoundTrip | src/components/EventManagement.tsx:106 | a positive limit typed into the form is the limit stored |
| EventManagement.ZeroMeansNoLimit | src/components/EventManagement.tsx:106 | a limit of 0 is stored as no limit |
| EventManagement.EventFromDraft | src/components/EventManagement.tsx:98-107 | a new event carries the given id and creation date, the form's title, description, type, date, time and venue, the parsed maximum, is upcoming, has no participants, and is organised by the user (name and id) |
| EventManagement.FilteredEvents | src/components/EventManagement.tsx:125-132 | exactly the events passing the type, status and search tests (`"all"` passes everything) |
| EventManagement.DefaultViewShowsAll | src/components/EventManagement.tsx:125-132 | both filters at `"all"` with an empty search show every event |
| EventManagement.ViewAfterAppend | src/components/EventManagement.tsx:108-132 | appending an event adds it at the end of the view exactly when it passes the tests |
| EventManagement.CreatedEventHiddenByOtherStatus | src/components/EventManagement.tsx:104-127 | a created event is upcoming, so a view of another status is unchanged |
| EventManagement.EventBoard.constructor | src/components/EventManagement.tsx:10-86 | the board starts with the given events and an empty form of type academic |
| EventManagement.EventBoard.EditDraft | src/components/EventManagement.tsx:304-375 | typing into the form replaces the draft and leaves the events alone |
| EventManagement.EventBoard.HandleCreateEvent | src/components/EventManagement.tsx:96-117 | exactly one event, built from the form, is appended after the existing ones, and the form is reset |
| CurriculumActivities.GetActivityTypeInfo | src/components/CurriculumActivities.tsx:147-149 | the table entry whose value is the type; the "quiz" entry when none matches |
| CurriculumActivities.EveryActivityTypeHasInfo | src/components/CurriculumActivities.tsx:110-117 | every activity type has its own entry |
| CurriculumActivities.MaxScoreOf | src/components/CurriculumActivities.tsx:130 | no maximum exactly when the field is empty; otherwise `parseInt` of it, `NaN` included |
| CurriculumActivities.MaxScoreRoundTrip | src/components/CurriculumActivities.tsx:130 | a number typed into the form is the maximum stored |
| CurriculumActivities.NonNumericMaxScoreIsNaN | src/components/CurriculumActivities.tsx:130 | non-numeric text is stored as `NaN`, not as no maximum |
| CurriculumActivities.ActivityFromDraft | src/components/CurriculumActivities.tsx:121-131 | a new activity carries the given id and creation date, the form's name, type, class, section, subject, description, date, duration and parsed maximum score, is planned, has no participants or scores, and takes the user's teacher id and name |
| CurriculumActivities.StatusCount | src/components/CurriculumActivities.tsx:211-235 | a status card counts at most all activities |
| CurriculumActivities.StatusCountsAddUp | src/components/CurriculumActivities.tsx:199-235 | the planned, ongoing and completed cards add up to the total card |
| CurriculumActivities.CreateAddsOnePlanned | src/components/CurriculumActivities.tsx:127-132 | creating an activity adds one to the planned card and leaves the others |
| CurriculumActivities.FilteredActivities | src/components/CurriculumActivities.tsx:164-171 | exactly the activities passing the type, status and search tests |
| CurriculumActivities.DefaultViewShowsAll | src/components/CurriculumActivities.tsx:164-171 | both filters at `"all"` with an empty search show every activity |
| CurriculumActivities.StatusViewMatchesCount | src/components/CurriculumActivities.tsx:166-235 | the view of one status holds as many activities as its card counts |
| CurriculumActivities.ActivityBoard.constructor | src/components/CurriculumActivities.tsx:98-108 | the board starts with the given activities and an empty form of type quiz |
| CurriculumActivities.ActivityBoard.EditDraft | src/components/CurriculumActivities.tsx:378-480 | typing into the form replaces the draft and leaves the activities alone |
| CurriculumActivities.ActivityBoard.HandleCreateActivity | src/components/CurriculumActivities.tsx:119-145 | exactly one activity, built from the form, is appended; the planned count grows by one; the form is reset |
| ClassManagement.ClassFromDraft | src/components/ClassManagement.tsx:116-122 | a new class carries the given id and creation date, the form's name, section, teacher and subject, the user's teacher id, no students and a total of 0 |
| ClassManagement.StudentFromDraft | src/components/ClassManagement.tsx:131-135 | a new student carries the given id and all nine fields of the form, is admitted today and has no picture |
| ClassManagement.FilteredClasses | src/components/ClassManagement.tsx:151-156 | exactly the classes whose name, section, teacher or subject contains the term, ignoring case |
| ClassManagement.FilteredStudents | src/components/ClassManagement.tsx:158-163 | exactly the students matching name or email ignoring case, or roll number or class as typed |
| ClassManagement.EmptySearchShowsAll | src/components/ClassManagement.tsx:151-163 | an empty search shows every class and every student |
| ClassManagement.ClassSearchIgnoresCase | src/components/ClassManagement.tsx:151-156 | the case of the search term never changes the class view |
| ClassManagement.StudentSearchSeesCase | src/components/ClassManagement.tsx:160-161 | the student search does see case: class "10B" is found by "B" but not by "b" |
| ClassManagement.ClassRoster.constructor | src/components/ClassManagement.tsx:95-112 | the roster starts with the given lists and two empty forms |
| ClassManagement.ClassRoster.EditClassDraft | src/components/ClassManagement.tsx:360-395 | typing into the class form changes only that form |
| ClassManagement.ClassRoster.EditStudentDraft | src/components/ClassManagement.tsx:444-532 | typing into the student form changes only that form |
| ClassManagement.ClassRoster.HandleCreateClass | src/components/ClassManagement.tsx:114-127 | exactly one class is appended and the class form reset; students and the student form are untouched |
| ClassManagement.ClassRoster.HandleAddStudent | src/components/ClassManagement.tsx:129-149 | exactly one student is appended and the student form reset; classes and the class form are untouched |
| LoginPage.FindUser | src/components/LoginPage.tsx:27-30 | none exactly when no user has the email with a fitting role; otherwise the first such user |
| LoginPage.FoundUserFits | src/components/LoginPage.tsx:27-30 | a found user is a known user with the typed email and a role the tab accepts |
| LoginPage.DemoCredentialsSignIn | src/components/LoginPage.tsx:42-51 | each tab's demo email finds the intended known user |
| LoginPage.AdminSignsInAsTeacher | src/components/LoginPage.tsx:29 | the admin is accepted on the teacher tab |
| LoginPage.StudentRefusedOnTeacherTab | src/components/LoginPage.tsx:29 | the student demo account is refused on the teacher tab |
| LoginPage.LoginForm.constructor | src/components/LoginPage.tsx:11-16 | the form starts on the teacher tab, empty, without error, not busy |
| LoginPage.LoginForm.EnterCredentials | src/components/LoginPage.tsx:151-167 | typing changes the email and password only |
| LoginPage.LoginForm.HandleLogin | src/components/LoginPage.tsx:18-39 | the signed-in user is the lookup of the typed email under the tab; otherwise the error says `Invalid credentials or user type mismatch`; the form ends not busy |
| LoginPage.LoginForm.SelectLoginType | src/components/LoginPage.tsx:108-113 | switching tabs clears email, password and error |
| LoginPage.LoginForm.FillDemoCredentials | src/components/LoginPage.tsx:53-57 | the demo pair of the current tab is filled in and the error cleared |
| LoginPage.DemoSignIn | src/components/LoginPage.tsx:18-57 | choosing a tab, filling its demo credentials and signing in yields that tab's intended user |

## Left out

- App.GetClassAttendance: the `trend` field is a random number, so the model leaves it out and returns only the percentage.
- App.GetClassAttendance: the model counts `dateRange + 1` record days, `today - dateRange` through `today`, both included. The code compares instants: a record's date is its UTC midnight, and the window runs from `dateRange` days before the current instant to the current instant. That window holds exactly `dateRange` UTC midnights unless the current instant is itself a UTC midnight, so the code counts `dateRange` record days, and which end day drops out depends on the time zone and the time of day. For example, at 12:00 UTC on 2025-02-19 the window starts at 2025-01-20T12:00Z and the records of 2025-01-20 are outside it, while App.ClassAttendanceOf20January counts them on that day (20108 + 30).
- App.GetClassAttendance: "today" is a parameter, as a day number. Element ids from `Date.now()` and the creation date from `new Date()` are parameters of the create handlers.
- App.RoundTenths: rounding is exact. Floating point can round a value that lies just below a half in binary differently; the model does not capture that.
- Dates.ParseIsoDate: only the `YYYY-MM-DD` form is read. The other forms JavaScript reads as dates (`YYYY`, `YYYY-MM`, date-times such as `2025-01-20T09:15`, six-digit years, and strings V8's fallback parser accepts such as `2025/01/20`) give none here, so a record carrying one falls in no window; every record the application starts with carries `YYYY-MM-DD`, as does the value of a date input.
- Dates.ParseIsoDate: follows V8's reading of the date-only form, where a day past the end of its month (up to 31) counts on into the next month; engines that give an invalid date for such a day are not modelled.
- Text.ParseInt: leading whitespace, `0x` prefixes and the precision loss of very large values are not modelled.
- Text.ToLower: only ASCII letters are lower-cased; other Unicode case mappings are not modelled.
- `handleSubmitAttendance` only writes to the console and shows an alert; it changes no state and is not modelled.
- The attendance sheet's selected class, date, subject and search term are parameters of the views, not fields.
- The sign-in delay (`setTimeout`), the call to `onLogin` (modelled as the returned user) and the show-password toggle are not modelled.
- The mock lists of the event, activity and class boards are passed to their constructors rather than transcribed.
- Modals, the flags that show them, styling, icons, colours, date formatting and the `useAttendance` context are view code and are not modelled.
- Reports, the student dashboard and the main dashboard only display mock values and are not part of this model.
