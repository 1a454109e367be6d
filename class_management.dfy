/**
 * Class management: the lists of classes and students, the two creation
 * forms, creating a class or adding a student from its form, and the
 * search shared by the class and the student views.
 */
module ClassManagement {
  import opened Options
  import opened Seqs
  import opened Text
  import opened App

  /** The class creation form. */
  datatype ClassDraft = ClassDraft(name: string, section: string, teacherName: string, subject: string)

  const EmptyClassDraft := ClassDraft("", "", "", "")

  /** The student admission form. */
  datatype StudentDraft = StudentDraft(
    name: string,
    klass: string,
    section: string,
    rollNumber: string,
    email: string,
    phone: string,
    parentName: string,
    parentPhone: string,
    address: string)

  const EmptyStudentDraft := StudentDraft("", "", "", "", "", "", "", "", "")

  /**
   * The class `handleCreateClass` builds: the form's name, section, teacher
   * name and subject, the creating user's teacher id, and no students yet.
   */
  function ClassFromDraft(d: ClassDraft, user: User, id: string, today: string): (c: SchoolClass)
    ensures c.id == id && c.createdDate == today
    ensures c.students == [] && c.totalStudents == 0
    ensures c.teacherId == AssignedTeacherId(user)
    ensures c.name == d.name && c.section == d.section && c.teacherName == d.teacherName && c.subject == d.subject
  {
    SchoolClass(id, d.name, d.section, AssignedTeacherId(user), d.teacherName, d.subject, [], 0, today)
  }

  /** The student `handleAddStudent` builds: the form's fields, admitted today, with no picture. */
  function StudentFromDraft(d: StudentDraft, id: string, today: string): (s: Student)
    ensures s.id == id && s.admissionDate == today && s.profilePicture == None
    ensures s.name == d.name && s.klass == d.klass && s.section == d.section
    ensures s.rollNumber == d.rollNumber && s.email == d.email && s.phone == d.phone
    ensures s.parentName == d.parentName && s.parentPhone == d.parentPhone && s.address == d.address
  {
    Student(id, d.name, d.klass, d.section, d.rollNumber, d.email, d.phone, d.parentName, d.parentPhone, d.address, today, None)
  }

  /** The class search: name, section, teacher or subject, all ignoring case. */
  predicate ClassMatches(c: SchoolClass, searchTerm: string)
  {
    MatchesSearch(c.name, searchTerm) || MatchesSearch(c.section, searchTerm)
    || MatchesSearch(c.teacherName, searchTerm) || MatchesSearch(c.subject, searchTerm)
  }

  /**
   * The student search: name and email ignoring case, but the roll number and
   * the class exactly as typed.
   */
  predicate StudentMatches(s: Student, searchTerm: string)
  {
    MatchesSearch(s.name, searchTerm) || Includes(s.rollNumber, searchTerm)
    || Includes(s.klass, searchTerm) || MatchesSearch(s.email, searchTerm)
  }

  function ClassSearch(searchTerm: string): SchoolClass -> bool
  {
    (c: SchoolClass) => ClassMatches(c, searchTerm)
  }

  function StudentSearch(searchTerm: string): Student -> bool
  {
    (s: Student) => StudentMatches(s, searchTerm)
  }

  /** `filteredClasses`: exactly the classes that match the search, in list order. */
  function FilteredClasses(classes: seq<SchoolClass>, searchTerm: string): (r: seq<SchoolClass>)
    ensures |r| <= |classes|
    ensures forall i :: 0 <= i < |r| ==> r[i] in classes && ClassMatches(r[i], searchTerm)
    ensures forall k :: 0 <= k < |classes| && ClassMatches(classes[k], searchTerm) ==> classes[k] in r
  {
    Filter(classes, ClassSearch(searchTerm))
  }

  /** `filteredStudents`: exactly the students that match the search, in list order. */
  function FilteredStudents(students: seq<Student>, searchTerm: string): (r: seq<Student>)
    ensures |r| <= |students|
    ensures forall i :: 0 <= i < |r| ==> r[i] in students && StudentMatches(r[i], searchTerm)
    ensures forall k :: 0 <= k < |students| && StudentMatches(students[k], searchTerm) ==> students[k] in r
  {
    Filter(students, StudentSearch(searchTerm))
  }

  /** With no search term both views show their whole list. */
  lemma EmptySearchShowsAll(classes: seq<SchoolClass>, students: seq<Student>)
    ensures FilteredClasses(classes, "") == classes
    ensures FilteredStudents(students, "") == students
  {
    assert ToLower("") == "";
    FilterAll(classes, ClassSearch(""));
    FilterAll(students, StudentSearch(""));
  }

  /** Every field of the class search ignores case, so the case of the term never matters there. */
  lemma ClassSearchIgnoresCase(classes: seq<SchoolClass>, searchTerm: string)
    ensures FilteredClasses(classes, searchTerm) == FilteredClasses(classes, ToLower(searchTerm))
  {
    forall c: SchoolClass
      ensures ClassSearch(searchTerm)(c) == ClassSearch(ToLower(searchTerm))(c)
    {
      SearchIgnoresTermCase(c.name, searchTerm);
      SearchIgnoresTermCase(c.section, searchTerm);
      SearchIgnoresTermCase(c.teacherName, searchTerm);
      SearchIgnoresTermCase(c.subject, searchTerm);
    }
    FilterSameOn(classes, ClassSearch(searchTerm), ClassSearch(ToLower(searchTerm)));
  }

  /** A student of class "10B". */
  const Student10B := Student("9", "Jas", "10B", "A", "09", "j@x", "", "", "", "", "2024-04-01", None)

  /** The student search does not ignore case: a student of class "10B" is found by "B" but not by "b". */
  lemma StudentSearchSeesCase()
    ensures StudentMatches(Student10B, "B")
    ensures !StudentMatches(Student10B, "b")
  {
    var s := Student10B;
    assert OccursAt(s.klass, "B", 2);
    IncludesIff(s.klass, "B");
    assert ToLower("b") == "b";
    AbsentCharNotIncluded(ToLower(s.name), 'b');
    AbsentCharNotIncluded(s.rollNumber, 'b');
    AbsentCharNotIncluded(s.klass, 'b');
    AbsentCharNotIncluded(ToLower(s.email), 'b');
  }

  /** The roster's state: the classes, the students and the two forms. */
  class ClassRoster {
    var classes: seq<SchoolClass>
    var students: seq<Student>
    var newClass: ClassDraft
    var newStudent: StudentDraft

    constructor (initialClasses: seq<SchoolClass>, initialStudents: seq<Student>)
      ensures classes == initialClasses && students == initialStudents
      ensures newClass == EmptyClassDraft && newStudent == EmptyStudentDraft
    {
      classes := initialClasses;
      students := initialStudents;
      newClass := EmptyClassDraft;
      newStudent := EmptyStudentDraft;
    }

    /** Typing into the class form replaces its draft and nothing else. */
    method EditClassDraft(d: ClassDraft)
      modifies this
      ensures newClass == d
      ensures classes == old(classes) && students == old(students) && newStudent == old(newStudent)
    {
      newClass := d;
    }

    /** Typing into the student form replaces its draft and nothing else. */
    method EditStudentDraft(d: StudentDraft)
      modifies this
      ensures newStudent == d
      ensures classes == old(classes) && students == old(students) && newClass == old(newClass)
    {
      newStudent := d;
    }

    /** `handleCreateClass`: the class built from its form goes at the end, and that form is reset. */
    method HandleCreateClass(user: User, id: string, today: string)
      modifies this
      ensures classes == old(classes) + [ClassFromDraft(old(newClass), user, id, today)]
      ensures newClass == EmptyClassDraft
      ensures students == old(students) && newStudent == old(newStudent)
    {
      classes := classes + [ClassFromDraft(newClass, user, id, today)];
      newClass := EmptyClassDraft;
    }

    /** `handleAddStudent`: the student built from its form goes at the end, and that form is reset. */
    method HandleAddStudent(id: string, today: string)
      modifies this
      ensures students == old(students) + [StudentFromDraft(old(newStudent), id, today)]
      ensures newStudent == EmptyStudentDraft
      ensures classes == old(classes) && newClass == old(newClass)
    {
      students := students + [StudentFromDraft(newStudent, id, today)];
      newStudent := EmptyStudentDraft;
    }
  }
}
