/**
 * The application's shared types and its attendance store: an append-only
 * list of attendance records, the per-date and per-class statistics computed
 * over it, and the attended share of a class over a window of days.
 */
module App {
  import opened Options
  import opened Seqs
  import opened Text
  import opened Dates

  datatype Role = TeacherRole | StudentRole | AdminRole

  /** A signed-in person. Fields marked optional in the application are `Option`s. */
  datatype User = User(
    id: string,
    name: string,
    email: string,
    role: Role,
    teacherId: Option<string>,
    studentId: Option<string>,
    klass: Option<string>,
    section: Option<string>,
    subjects: Option<seq<string>>,
    profilePicture: Option<string>)

  datatype Student = Student(
    id: string,
    name: string,
    klass: string,
    section: string,
    rollNumber: string,
    email: string,
    phone: string,
    parentName: string,
    parentPhone: string,
    address: string,
    admissionDate: string,
    profilePicture: Option<string>)

  /** A class section with its teacher and subject. */
  datatype SchoolClass = SchoolClass(
    id: string,
    name: string,
    section: string,
    teacherId: string,
    teacherName: string,
    subject: string,
    students: seq<Student>,
    totalStudents: nat,
    createdDate: string)

  datatype AttendanceStatus = Present | Absent | Late

  /** One student's status for one subject on one date (dates are `YYYY-MM-DD` strings). */
  datatype AttendanceRecord = AttendanceRecord(
    id: string,
    studentId: string,
    studentName: string,
    klass: string,
    section: string,
    date: string,
    status: AttendanceStatus,
    subject: string,
    teacherId: string,
    timeMarked: string)

  /**
   * The teacher id given to what a user creates: `user.teacherId || user.id`,
   * so an absent or empty teacher id falls back to the user id.
   */
  function AssignedTeacherId(u: User): (r: string)
    ensures u.teacherId.Some? && u.teacherId.value != "" ==> r == u.teacherId.value
    ensures u.teacherId.None? || u.teacherId.value == "" ==> r == u.id
  {
    match u.teacherId
    case Some(t) => if t != "" then t else u.id
    case None => u.id
  }

  // ---------------------------------------------------------------------------
  // Percentages

  /**
   * `num / den * 100` rounded to the nearest tenth, halves upwards, counted in
   * tenths: what `toFixed(1)` and `Math.round(x * 10) / 10` produce.
   */
  function RoundTenths(num: nat, den: nat): (t: nat)
    requires den > 0
    ensures -(den as int) <= 2 * (1000 * num - den * t) < den
    ensures num <= den ==> t <= 1000
    ensures num == 0 ==> t == 0
    ensures num == den ==> t == 1000
  {
    var t := (2000 * num + den) / (2 * den);
    DivBounds(2000 * num + den, 2 * den);
    RoundingBounds(num, den, t);
    t
  }

  lemma DivBounds(a: nat, b: nat)
    requires b > 0
    ensures b * (a / b) <= a < b * (a / b) + b
  {
  }

  lemma MulMono(a: int, b: int, c: int)
    requires a >= 0 && b <= c
    ensures a * b <= a * c
  {
    assert a * c - a * b == a * (c - b);
  }

  /** What the bounds of the rounding division say about the rounded value. */
  lemma RoundingBounds(num: nat, den: nat, t: nat)
    requires den > 0
    requires (2 * den) * t <= 2000 * num + den < (2 * den) * t + 2 * den
    ensures -(den as int) <= 2 * (1000 * num - den * t) < den
    ensures num <= den ==> t <= 1000
    ensures num == 0 ==> t == 0
    ensures num == den ==> t == 1000
  {
    var k := den * t;
    assert (2 * den) * t == 2 * k;
    if num <= den && t > 1000 {
      MulMono(den, 1001, t);
      assert false;
    }
    if num == 0 && t > 0 {
      MulMono(den, 1, t);
      assert false;
    }
    if num == den && t < 1000 {
      MulMono(den, t, 999);
      assert false;
    }
  }

  /** The percentage text of the statistics: `"0"` without records, otherwise one decimal. */
  function PercentageText(attended: nat, total: nat): (p: string)
    requires attended <= total
    ensures p == "0" <==> total == 0
    ensures total > 0 ==> ParseInt(p) == Int(RoundTenths(attended, total) / 10)
    ensures total > 0 ==> |p| >= 3 && p[|p| - 2] == '.' && IsDigit(p[|p| - 1])
                          && DigitValue(p[|p| - 1]) == RoundTenths(attended, total) % 10
    ensures total > 0 ==> AllDigits(p[..|p| - 2]) && DigitsValue(p[..|p| - 2]) == RoundTenths(attended, total) / 10
                          && (|p| > 3 ==> p[0] != '0')
    ensures total > 0 ==> ParseInt(p).Int? && 0 <= ParseInt(p).value <= 100
  {
    if total > 0 then RenderTenths(RoundTenths(attended, total)) else "0"
  }

  // ---------------------------------------------------------------------------
  // Statistics

  datatype AttendanceStats = AttendanceStats(total: nat, present: nat, absent: nat, late: nat, percentage: string)

  function HasStatus(s: AttendanceStatus): AttendanceRecord -> bool
  {
    (r: AttendanceRecord) => r.status == s
  }

  /** Counts by status over a list of records; late counts as attended in the percentage. */
  function StatsOf(rs: seq<AttendanceRecord>): (s: AttendanceStats)
    ensures s.total == |rs|
    ensures s.total == s.present + s.absent + s.late
    ensures s.percentage == "0" <==> s.total == 0
    ensures s.present == Count(rs, HasStatus(Present)) && s.absent == Count(rs, HasStatus(Absent))
    ensures s.late == Count(rs, HasStatus(Late))
  {
    var present := Count(rs, HasStatus(Present));
    var absent := Count(rs, HasStatus(Absent));
    var late := Count(rs, HasStatus(Late));
    CountPartition3(rs, HasStatus(Present), HasStatus(Absent), HasStatus(Late));
    AttendanceStats(|rs|, present, absent, late, PercentageText(present + late, |rs|))
  }

  /**
   * Late counts as attended: the percentage shows the share of present and
   * late records, rounded to a tenth, as a number from 0 to 100.
   */
  lemma LateCountsAsAttended(rs: seq<AttendanceRecord>)
    requires |rs| > 0
    ensures var s := StatsOf(rs);
            var t := RoundTenths(s.present + s.late, s.total);
            ParseInt(s.percentage) == Int(t / 10) && DigitValue(s.percentage[|s.percentage| - 1]) == t % 10
            && 0 <= ParseInt(s.percentage).value <= 100
  {
  }

  /** A JavaScript string that is neither `undefined` nor empty (truthy). */
  predicate IsSet(o: Option<string>)
  {
    o.Some? && o.value != ""
  }

  /** The `"<class>-<section>"` key of a record. */
  function ClassKey(r: AttendanceRecord): string
  {
    r.klass + "-" + r.section
  }

  function DateIs(d: string): AttendanceRecord -> bool
  {
    (r: AttendanceRecord) => r.date == d
  }

  function KeyIs(k: string): AttendanceRecord -> bool
  {
    r => ClassKey(r) == k
  }

  /** `getAttendanceStats(date?, classFilter?)`: the statistics of the records the filters let through. */
  function GetAttendanceStats(records: seq<AttendanceRecord>, date: Option<string>, classFilter: Option<string>): (s: AttendanceStats)
    ensures s.total <= |records|
    ensures s.total == s.present + s.absent + s.late
    ensures s.percentage == "0" <==> s.total == 0
    ensures !IsSet(date) && !IsSet(classFilter) ==> s.total == |records|
  {
    var byDate := if IsSet(date) then Filter(records, DateIs(date.value)) else records;
    var byClass := if IsSet(classFilter) then Filter(byDate, KeyIs(classFilter.value)) else byDate;
    StatsOf(byClass)
  }

  /** Whether the statistics count a record: each filter that is set must match exactly. */
  predicate Counted(date: Option<string>, classFilter: Option<string>, r: AttendanceRecord)
  {
    (!IsSet(date) || r.date == date.value) && (!IsSet(classFilter) || ClassKey(r) == classFilter.value)
  }

  function CountedBy(date: Option<string>, classFilter: Option<string>): AttendanceRecord -> bool
  {
    r => Counted(date, classFilter, r)
  }

  /** The two successive filters count exactly the records that satisfy both filter conditions. */
  lemma StatsAreOfCountedRecords(records: seq<AttendanceRecord>, date: Option<string>, classFilter: Option<string>)
    ensures GetAttendanceStats(records, date, classFilter) == StatsOf(Filter(records, CountedBy(date, classFilter)))
  {
    var byDate := if IsSet(date) then Filter(records, DateIs(date.value)) else records;
    var counted := CountedBy(date, classFilter);
    if IsSet(date) && IsSet(classFilter) {
      FilterFilter(records, DateIs(date.value), KeyIs(classFilter.value), counted);
    } else if IsSet(date) {
      FilterSameOn(records, DateIs(date.value), counted);
    } else if IsSet(classFilter) {
      FilterSameOn(records, KeyIs(classFilter.value), counted);
    } else {
      FilterAll(records, counted);
    }
  }

  /** The counts of a concatenation are the sums of the counts of its parts. */
  lemma StatsOfAppend(a: seq<AttendanceRecord>, b: seq<AttendanceRecord>)
    ensures StatsOf(a + b).present == StatsOf(a).present + StatsOf(b).present
    ensures StatsOf(a + b).absent == StatsOf(a).absent + StatsOf(b).absent
    ensures StatsOf(a + b).late == StatsOf(a).late + StatsOf(b).late
  {
    CountAppend(a, b, HasStatus(Present));
    CountAppend(a, b, HasStatus(Absent));
    CountAppend(a, b, HasStatus(Late));
  }

  /** The statistics of a concatenation add up the statistics of its parts. */
  lemma StatsAppend(records: seq<AttendanceRecord>, more: seq<AttendanceRecord>, date: Option<string>, classFilter: Option<string>)
    ensures var all, a, b := GetAttendanceStats(records + more, date, classFilter),
                             GetAttendanceStats(records, date, classFilter),
                             GetAttendanceStats(more, date, classFilter);
            all.total == a.total + b.total && all.present == a.present + b.present
            && all.absent == a.absent + b.absent && all.late == a.late + b.late
  {
    var p := CountedBy(date, classFilter);
    StatsAreOfCountedRecords(records + more, date, classFilter);
    StatsAreOfCountedRecords(records, date, classFilter);
    StatsAreOfCountedRecords(more, date, classFilter);
    var fa, fb := Filter(records, p), Filter(more, p);
    FilterAppend(records, more, p);
    assert Filter(records + more, p) == fa + fb;
    StatsOfAppend(fa, fb);
  }

  /** One record counts once, under its own status. */
  lemma StatsOfOne(r: AttendanceRecord)
    ensures StatsOf([r]).present == (if r.status == Present then 1 else 0)
    ensures StatsOf([r]).absent == (if r.status == Absent then 1 else 0)
    ensures StatsOf([r]).late == (if r.status == Late then 1 else 0)
  {
    FilterSingleton(r, HasStatus(Present));
    FilterSingleton(r, HasStatus(Absent));
    FilterSingleton(r, HasStatus(Late));
  }

  /** The statistics of a single record: it counts, under its own status, exactly when the filters let it through. */
  lemma SingleRecordStats(r: AttendanceRecord, date: Option<string>, classFilter: Option<string>)
    ensures var s := GetAttendanceStats([r], date, classFilter);
            var c := Counted(date, classFilter, r);
            s.total == (if c then 1 else 0)
            && s.present == (if c && r.status == Present then 1 else 0)
            && s.absent == (if c && r.status == Absent then 1 else 0)
            && s.late == (if c && r.status == Late then 1 else 0)
  {
    StatsAreOfCountedRecords([r], date, classFilter);
    FilterSingleton(r, CountedBy(date, classFilter));
    if Counted(date, classFilter, r) {
      StatsOfOne(r);
    } else {
      assert Filter([r], CountedBy(date, classFilter)) == [];
    }
  }

  /**
   * Appending one record adds one to the total exactly when the filters count
   * it, and then adds one to the count of its own status.
   */
  lemma AppendOneRecord(records: seq<AttendanceRecord>, r: AttendanceRecord, date: Option<string>, classFilter: Option<string>)
    ensures var after, before := GetAttendanceStats(records + [r], date, classFilter), GetAttendanceStats(records, date, classFilter);
            var c := Counted(date, classFilter, r);
            after.total == before.total + (if c then 1 else 0)
            && after.present == before.present + (if c && r.status == Present then 1 else 0)
            && after.absent == before.absent + (if c && r.status == Absent then 1 else 0)
            && after.late == before.late + (if c && r.status == Late then 1 else 0)
  {
    StatsAppend(records, [r], date, classFilter);
    SingleRecordStats(r, date, classFilter);
  }

  /** Appending records of other dates leaves the statistics of a date unchanged. */
  lemma AppendOtherDatesKeepsStats(records: seq<AttendanceRecord>, more: seq<AttendanceRecord>, d: string, classFilter: Option<string>)
    requires d != ""
    requires forall r :: r in more ==> r.date != d
    ensures GetAttendanceStats(records + more, Some(d), classFilter) == GetAttendanceStats(records, Some(d), classFilter)
  {
    var p := CountedBy(Some(d), classFilter);
    StatsAreOfCountedRecords(records + more, Some(d), classFilter);
    StatsAreOfCountedRecords(records, Some(d), classFilter);
    FilterAppend(records, more, p);
    FilterNone(more, p);
    assert Filter(records, p) + [] == Filter(records, p);
  }

  /** Every class key contains a dash, so a set class filter without one matches nothing. */
  lemma MalformedClassKeyCountsNothing(records: seq<AttendanceRecord>, date: Option<string>, k: string)
    requires k != "" && '-' !in k
    ensures GetAttendanceStats(records, date, Some(k)).total == 0
    ensures GetAttendanceStats(records, date, Some(k)).percentage == "0"
  {
    var p := CountedBy(date, Some(k));
    forall r | r in records
      ensures !p(r)
    {
      assert ClassKey(r)[|r.klass|] == '-';
    }
    StatsAreOfCountedRecords(records, date, Some(k));
    FilterNone(records, p);
  }

  // ---------------------------------------------------------------------------
  // Attended share of a class over a window of days

  /** The window `getClassAttendance` uses when none is given. */
  const DefaultDateRange: int := 30

  /**
   * A record of the class whose date lies between `startDay` and `endDay`,
   * both included; a date that does not parse lies in no window.
   */
  function InWindow(className: string, startDay: int, endDay: int): AttendanceRecord -> bool
  {
    r => ClassKey(r) == className && (match ParseIsoDate(r.date)
                                      case Some(d) => startDay <= d <= endDay
                                      case None => false)
  }

  function Attended(): AttendanceRecord -> bool
  {
    (r: AttendanceRecord) => r.status == Present || r.status == Late
  }

  /**
   * `getClassAttendance(className, dateRange)` with today's day number given:
   * the share of the class's records from the last `dateRange` days that are
   * present or late, in tenths of a percent; 0 when there is no such record.
   */
  function GetClassAttendance(records: seq<AttendanceRecord>, className: string, dateRange: int, today: int): (tenths: nat)
    ensures tenths <= 1000
    ensures var w := Filter(records, InWindow(className, today - dateRange, today));
            |w| > 0 ==> -(|w| as int) <= 2 * (1000 * Count(w, Attended()) - |w| * tenths) < |w|
    ensures Count(records, InWindow(className, today - dateRange, today)) == 0 ==> tenths == 0
    ensures var w := Filter(records, InWindow(className, today - dateRange, today));
            |w| > 0 && Count(w, Attended()) == |w| ==> tenths == 1000
  {
    var w := Filter(records, InWindow(className, today - dateRange, today));
    if |w| > 0 then RoundTenths(Count(w, Attended()), |w|) else 0
  }

  /**
   * The half-a-tenth bound of `RoundTenths` and `GetClassAttendance` leaves
   * one value only: the share rounded to the nearest tenth of a percent,
   * halves upwards.
   */
  lemma HalfTenthBoundIsExact(num: nat, den: nat, t1: nat, t2: nat)
    requires den > 0
    requires -(den as int) <= 2 * (1000 * num - den * t1) < den
    requires -(den as int) <= 2 * (1000 * num - den * t2) < den
    ensures t1 == t2
  {
    if t1 < t2 {
      MulMono(den, t1 + 1, t2);
    } else if t2 < t1 {
      MulMono(den, t2 + 1, t1);
    }
  }

  /**
   * The three records of 2025-01-20 (two present or late) read as 66.7
   * percent for class 10-A from that day through the 30th day after, with the
   * default window of 30 days.
   */
  lemma ClassAttendanceOf20January(today: int)
    requires 20108 <= today <= 20108 + DefaultDateRange
    ensures GetClassAttendance(InitialRecordsOf20January, "10-A", DefaultDateRange, today) == 667
  {
    var w := Filter(InitialRecordsOf20January, InWindow("10-A", today - DefaultDateRange, today));
    WindowHolds20January(today);
    assert w == InitialRecordsOf20January;
    assert |w| == 3;
    AttendedOf20January();
    assert Count(w, Attended()) == 2;
    assert RoundTenths(2, 3) == 667;
  }

  lemma AttendedOf20January()
    ensures Count(InitialRecordsOf20January, Attended()) == 2
  {
    var a, b, c := InitialRecordsOf20January[0], InitialRecordsOf20January[1], InitialRecordsOf20January[2];
    assert InitialRecordsOf20January == [a, b, c];
    CountThree(a, b, c, Attended());
  }

  lemma WindowHolds20January(today: int)
    requires 20108 <= today <= 20108 + DefaultDateRange
    ensures Filter(InitialRecordsOf20January, InWindow("10-A", today - DefaultDateRange, today)) == InitialRecordsOf20January
  {
    MockDateDayNumber();
    var p := InWindow("10-A", today - DefaultDateRange, today);
    forall r | r in InitialRecordsOf20January ensures p(r) { }
    FilterAll(InitialRecordsOf20January, p);
  }

  /** On the 31st day after, the records of 2025-01-20 have left the default window. */
  lemma ClassAttendanceAfterWindow()
    ensures GetClassAttendance(InitialRecordsOf20January, "10-A", DefaultDateRange, 20108 + DefaultDateRange + 1) == 0
  {
    MockDateDayNumber();
    var p := InWindow("10-A", 20108 + 1, 20108 + DefaultDateRange + 1);
    forall r | r in InitialRecordsOf20January ensures !p(r) { }
    FilterNone(InitialRecordsOf20January, p);
  }

  /** A record outside the class or outside the window does not change the class attendance. */
  lemma OutsideWindowIgnored(records: seq<AttendanceRecord>, r: AttendanceRecord, className: string, dateRange: int, today: int)
    requires !InWindow(className, today - dateRange, today)(r)
    ensures GetClassAttendance(records + [r], className, dateRange, today) == GetClassAttendance(records, className, dateRange, today)
  {
    var p := InWindow(className, today - dateRange, today);
    FilterAppend(records, [r], p);
    FilterNone([r], p);
    assert Filter(records, p) + [] == Filter(records, p);
  }

  // ---------------------------------------------------------------------------
  // The store

  /** The initial records of 2025-01-20, for class 10-A: one present, one late, one absent. */
  const InitialRecordsOf20January: seq<AttendanceRecord> := [
    AttendanceRecord("1", "1", "Harpreet Kaur", "10", "A", "2025-01-20", Present, "Mathematics", "T001", "09:15"),
    AttendanceRecord("2", "2", "Simran Singh", "10", "A", "2025-01-20", Late, "Mathematics", "T001", "09:25"),
    AttendanceRecord("3", "3", "Arjun Sharma", "10", "A", "2025-01-20", Absent, "Mathematics", "T001", "09:15")
  ]

  /** The initial records of the two days before. */
  const InitialRecordsBefore20January: seq<AttendanceRecord> := [
    AttendanceRecord("4", "1", "Harpreet Kaur", "10", "A", "2025-01-19", Present, "Science", "T001", "10:15"),
    AttendanceRecord("5", "2", "Simran Singh", "10", "A", "2025-01-19", Present, "Science", "T001", "10:15"),
    AttendanceRecord("6", "4", "Priya Patel", "10", "A", "2025-01-18", Absent, "English", "T002", "11:15"),
    AttendanceRecord("7", "5", "Gurdeep Kaur", "10", "A", "2025-01-18", Present, "English", "T002", "11:15")
  ]

  /** The records the application starts with. */
  const InitialRecords: seq<AttendanceRecord> := InitialRecordsOf20January + InitialRecordsBefore20January

  /** The users the sign-in page looks up. */
  const InitialUsers: seq<User> := [
    User("1", "Dr. Preet Singh", "preet.singh@punjabschools.edu", TeacherRole, Some("T001"), None, None, None,
         Some(["Mathematics", "Science"]), None),
    User("2", "Simran Kaur", "simran.kaur@punjabschools.edu", StudentRole, None, Some("S001"), Some("10"), Some("A"),
         None, None),
    User("3", "Harpreet Singh", "harpreet.singh@punjabschools.edu", AdminRole, Some("A001"), None, None, None,
         None, None)
  ]

  /** Two present-or-late records out of three read as 66.7 percent. */
  lemma TwoOfThreeText()
    ensures PercentageText(2, 3) == "66.7"
  {
    assert RoundTenths(2, 3) == 667;
    assert NatToDecimal(66) == "66";
  }

  /** Three records, one of each status, count one of each. */
  lemma OneOfEachStats(a: AttendanceRecord, b: AttendanceRecord, c: AttendanceRecord)
    requires a.status == Present && b.status == Late && c.status == Absent
    ensures StatsOf([a, b, c]) == AttendanceStats(3, 1, 1, 1, "66.7")
  {
    CountThree(a, b, c, HasStatus(Present));
    CountThree(a, b, c, HasStatus(Absent));
    CountThree(a, b, c, HasStatus(Late));
    TwoOfThreeText();
  }

  /** On the initial records, 2025-01-20 in class 10-A selects the records of that day. */
  lemma InitialRecordsSelected()
    ensures Filter(InitialRecords, CountedBy(Some("2025-01-20"), Some("10-A"))) == InitialRecordsOf20January
  {
    var p := CountedBy(Some("2025-01-20"), Some("10-A"));
    var first, rest := InitialRecordsOf20January, InitialRecordsBefore20January;
    forall r | r in first ensures p(r) { }
    forall r | r in rest ensures !p(r) { }
    FilterAppend(first, rest, p);
    FilterAll(first, p);
    FilterNone(rest, p);
    assert first + [] == first;
  }

  /**
   * On the initial records, the statistics of 2025-01-20 for class 10-A count
   * one present, one late and one absent record, and report 66.7 percent.
   */
  lemma InitialStatsExample()
    ensures GetAttendanceStats(InitialRecords, Some("2025-01-20"), Some("10-A")) == AttendanceStats(3, 1, 1, 1, "66.7")
  {
    StatsAreOfCountedRecords(InitialRecords, Some("2025-01-20"), Some("10-A"));
    InitialRecordsSelected();
    var rs := InitialRecordsOf20January;
    OneOfEachStats(rs[0], rs[1], rs[2]);
  }

  /** The application's attendance records, which only ever grow at the end. */
  class AttendanceStore {
    var records: seq<AttendanceRecord>

    constructor ()
      ensures records == InitialRecords
    {
      records := InitialRecords;
    }

    /** `addAttendanceRecords`: the new records go after all existing ones, in their given order. */
    method AddAttendanceRecords(newRecords: seq<AttendanceRecord>)
      modifies this
      ensures records == old(records) + newRecords
      ensures |records| == |old(records)| + |newRecords|
      ensures records[..|old(records)|] == old(records)
    {
      records := records + newRecords;
    }
  }
}
