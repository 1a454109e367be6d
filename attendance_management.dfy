/**
 * The attendance marking sheet: a map from student id to the status being
 * marked, the class-and-search filter over the roster, and the statistics of
 * the sheet's own records for the selected date.
 */
module AttendanceManagement {
  import opened Seqs
  import opened Text
  import opened Options
  import opened App

  /** The sheet's roster; here a student's class field holds the class-section key "10-A". */
  const SheetStudents: seq<Student> := [
    Student("1", "Harpreet Kaur", "10-A", "A", "01", "harpreet@example.com", "9876543210", "Gurmeet Singh", "9876543211", "Amritsar", "2023-04-01", None),
    Student("2", "Simran Singh", "10-A", "A", "02", "simran@example.com", "9876543212", "Jasbir Kaur", "9876543213", "Ludhiana", "2023-04-01", None),
    Student("3", "Arjun Sharma", "10-A", "A", "03", "arjun@example.com", "9876543214", "Rajesh Sharma", "9876543215", "Jalandhar", "2023-04-01", None),
    Student("4", "Priya Patel", "10-A", "A", "04", "priya@example.com", "9876543216", "Suresh Patel", "9876543217", "Chandigarh", "2023-04-01", None),
    Student("5", "Gurdeep Kaur", "10-A", "A", "05", "gurdeep@example.com", "9876543218", "Manjit Singh", "9876543219", "Patiala", "2023-04-01", None)
  ]

  /** The sheet's own records, all of class "10-A" on 2025-01-20. */
  const SheetRecords: seq<AttendanceRecord> := [
    AttendanceRecord("1", "1", "Harpreet Kaur", "10-A", "A", "2025-01-20", Present, "Mathematics", "T001", "09:15"),
    AttendanceRecord("2", "2", "Simran Singh", "10-A", "A", "2025-01-20", Late, "Mathematics", "T001", "09:25"),
    AttendanceRecord("3", "3", "Arjun Sharma", "10-A", "A", "2025-01-20", Absent, "Mathematics", "T001", "09:15")
  ]

  function InClass(selectedClass: string): Student -> bool
  {
    (s: Student) => s.klass == selectedClass
  }

  /** The sheet's search: the name case-insensitively, or the roll number as typed. */
  predicate NameOrRollMatches(s: Student, searchTerm: string)
  {
    MatchesSearch(s.name, searchTerm) || Includes(s.rollNumber, searchTerm)
  }

  function NameOrRoll(searchTerm: string): Student -> bool
  {
    (s: Student) => NameOrRollMatches(s, searchTerm)
  }

  /** `filteredStudents`: the students of the selected class that match the search. */
  function FilteredStudents(students: seq<Student>, selectedClass: string, searchTerm: string): (r: seq<Student>)
    ensures |r| <= |students|
    ensures forall i :: 0 <= i < |r| ==> r[i] in students && r[i].klass == selectedClass && NameOrRollMatches(r[i], searchTerm)
  {
    Filter(Filter(students, InClass(selectedClass)), NameOrRoll(searchTerm))
  }

  /** Both conditions of the sheet's filter at once. */
  function SheetShows(selectedClass: string, searchTerm: string): Student -> bool
  {
    (s: Student) => s.klass == selectedClass && NameOrRollMatches(s, searchTerm)
  }

  /**
   * The sheet shows exactly the students of the selected class that match the
   * search, in roster order: one order-keeping filter by both conditions.
   */
  lemma FilteredStudentsExactly(students: seq<Student>, selectedClass: string, searchTerm: string)
    ensures FilteredStudents(students, selectedClass, searchTerm) == Filter(students, SheetShows(selectedClass, searchTerm))
    ensures forall k :: 0 <= k < |students| && students[k].klass == selectedClass && NameOrRollMatches(students[k], searchTerm)
                        ==> students[k] in FilteredStudents(students, selectedClass, searchTerm)
  {
    FilterFilter(students, InClass(selectedClass), NameOrRoll(searchTerm), SheetShows(selectedClass, searchTerm));
  }

  /** With no search term, the sheet shows the whole selected class. */
  lemma EmptySearchShowsClass(students: seq<Student>, selectedClass: string)
    ensures FilteredStudents(students, selectedClass, "") == Filter(students, InClass(selectedClass))
  {
    var inClass := Filter(students, InClass(selectedClass));
    forall s | s in inClass
      ensures NameOrRoll("")(s)
    {
      assert ToLower("") == "";
    }
    FilterAll(inClass, NameOrRoll(""));
  }

  /**
   * The sheet's statistics: only records whose date is the selected date, with
   * no exception for an empty date.
   */
  function SheetStats(records: seq<AttendanceRecord>, selectedDate: string): (s: AttendanceStats)
    ensures s.total == Count(records, DateIs(selectedDate))
    ensures s.total == s.present + s.absent + s.late
    ensures s.percentage == "0" <==> s.total == 0
  {
    StatsOf(Filter(records, DateIs(selectedDate)))
  }

  /** For a non-empty date the sheet's statistics are the application's statistics of that date. */
  lemma SheetStatsAgreeWithApp(records: seq<AttendanceRecord>, selectedDate: string)
    requires selectedDate != ""
    ensures SheetStats(records, selectedDate) == GetAttendanceStats(records, Some(selectedDate), None)
  {
    StatsAreOfCountedRecords(records, Some(selectedDate), None);
    FilterSameOn(records, DateIs(selectedDate), CountedBy(Some(selectedDate), None));
  }

  /** The sheet's records of 2025-01-20 give one present, one late, one absent and 66.7 percent. */
  lemma SheetStatsExample()
    ensures SheetStats(SheetRecords, "2025-01-20") == AttendanceStats(3, 1, 1, 1, "66.7")
  {
    FilterAll(SheetRecords, DateIs("2025-01-20"));
    OneOfEachStats(SheetRecords[0], SheetRecords[1], SheetRecords[2]);
  }

  /** The marking sheet of one session. */
  class AttendanceSheet {
    /** The status marked so far for each student id. */
    var attendanceData: map<string, AttendanceStatus>
    /** The roster and the records have no setter: marking never changes them. */
    const students: seq<Student>
    const attendanceRecords: seq<AttendanceRecord>

    constructor ()
      ensures attendanceData == map[]
      ensures attendanceRecords == SheetRecords && students == SheetStudents
    {
      attendanceData := map[];
      attendanceRecords := SheetRecords;
      students := SheetStudents;
    }

    /** `handleAttendanceChange`: the student's entry becomes the status; every other entry stays. */
    method HandleAttendanceChange(studentId: string, status: AttendanceStatus)
      modifies this
      ensures attendanceData == old(attendanceData)[studentId := status]
      ensures attendanceData.Keys == old(attendanceData).Keys + {studentId}
      ensures forall id :: id in old(attendanceData) && id != studentId ==> attendanceData[id] == old(attendanceData)[id]
    {
      attendanceData := attendanceData[studentId := status];
    }

    /** "Clear All": nothing is marked any more. */
    method ClearAll()
      modifies this
      ensures attendanceData == map[]
    {
      attendanceData := map[];
    }
  }
}
