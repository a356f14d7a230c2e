// The wizard's check of the academic part of the configuration before it is
// submitted: the first failing check wins, in a fixed order, and each check
// has its fixed message.

module SetupValidation {
  import opened Js
  import opened SetupConfig

  datatype Violation =
    | NoSemesters
    | NoSection(semester: int)
    | NoSubject(semester: int)
    /** `position` counts subjects from 1. */
    | SubjectNameMissing(semester: int, position: int)
    | FacultyMissing(semester: int, subjectName: string)

  /** "Semester n: ", with which every message about one semester opens. */
  function SemesterPrefix(n: int): string
  {
    "Semester " + IntToString(n) + ": "
  }

  /** The text the validator returns for each violation. */
  function Message(v: Violation): string
  {
    match v
    case NoSemesters =>
      "Please add at least one semester"
    case NoSection(n) =>
      SemesterPrefix(n) + "Please add at least one section"
    case NoSubject(n) =>
      SemesterPrefix(n) + "Please add at least one subject"
    case SubjectNameMissing(n, p) =>
      SemesterPrefix(n) + "Subject " + IntToString(p) + " name is required"
    case FacultyMissing(n, name) =>
      SemesterPrefix(n) + "Faculty assignment is required for subject \"" + name + "\""
  }

  /** Every message but the empty-list one opens with "Semester n: " for
      the semester it is about. */
  lemma MessageNamesSemester(v: Violation)
    requires !v.NoSemesters?
    ensures var prefix := SemesterPrefix(v.semester);
            |prefix| <= |Message(v)| && Message(v)[..|prefix|] == prefix
  {
  }

  /** A string with a character other than white space: one whose `trim()`
      is truthy (lemma TrimEmptyIffBlank). */
  predicate Filled(s: string)
  {
    !AllWhiteSpace(s)
  }

  /** `sections.some(s => s.trim())` */
  function AnyFilled(sections: seq<string>): (b: bool)
    ensures b <==> exists k :: 0 <= k < |sections| && Filled(sections[k])
  {
    if sections == [] then false
    else Filled(sections[0]) || AnyFilled(sections[1..])
  }

  predicate SubjectComplete(subject: Subject)
  {
    Filled(subject.name) && Filled(subject.faculty)
  }

  predicate SemesterComplete(sem: Semester)
  {
    AnyFilled(sem.sections) && |sem.subjects| > 0
    && forall j :: 0 <= j < |sem.subjects| ==> SubjectComplete(sem.subjects[j])
  }

  /** What the validator accepts: at least one semester, and each one complete. */
  predicate AcademicsComplete(academics: seq<Semester>)
  {
    |academics| > 0 && forall i :: 0 <= i < |academics| ==> SemesterComplete(academics[i])
  }

  /** The checks on the subject at index `j`: its name, then its faculty. */
  function SubjectCheck(n: int, subject: Subject, j: nat): (r: Option<Violation>)
    ensures r.None? <==> SubjectComplete(subject)
    ensures !Filled(subject.name) ==> r == Some(SubjectNameMissing(n, j + 1))
  {
    if !Filled(subject.name) then Some(SubjectNameMissing(n, j + 1))
    else if !Filled(subject.faculty) then Some(FacultyMissing(n, subject.name))
    else None
  }

  /** The first failing subject check from index `j` on. */
  function SubjectsCheck(n: int, subjects: seq<Subject>, j: nat): (r: Option<Violation>)
    requires j <= |subjects|
    ensures r.None? <==> forall k :: j <= k < |subjects| ==> SubjectComplete(subjects[k])
    ensures r.Some? ==> r.value.SubjectNameMissing? || r.value.FacultyMissing?
    decreases |subjects| - j
  {
    if j == |subjects| then None
    else if SubjectCheck(n, subjects[j], j).Some? then SubjectCheck(n, subjects[j], j)
    else SubjectsCheck(n, subjects, j + 1)
  }

  /** The checks on one semester: a section, then a subject, then each subject. */
  function SemesterCheck(sem: Semester): (r: Option<Violation>)
    ensures r.None? <==> SemesterComplete(sem)
    ensures r.Some? ==> !r.value.NoSemesters?
    ensures r.Some? && r.value.NoSubject? ==> |sem.subjects| == 0
    ensures !AnyFilled(sem.sections) ==> r == Some(NoSection(sem.semester))
    ensures AnyFilled(sem.sections) && |sem.subjects| == 0 ==> r == Some(NoSubject(sem.semester))
  {
    if !AnyFilled(sem.sections) then Some(NoSection(sem.semester))
    else if |sem.subjects| == 0 then Some(NoSubject(sem.semester))
    else SubjectsCheck(sem.semester, sem.subjects, 0)
  }

  /** The first failing semester check from index `i` on. */
  function SemestersCheck(academics: seq<Semester>, i: nat): (r: Option<Violation>)
    requires i <= |academics|
    ensures r.None? <==> forall k :: i <= k < |academics| ==> SemesterComplete(academics[k])
    ensures r.Some? ==> !r.value.NoSemesters?
    decreases |academics| - i
  {
    if i == |academics| then None
    else if SemesterCheck(academics[i]).Some? then SemesterCheck(academics[i])
    else SemestersCheck(academics, i + 1)
  }

  /** The violation `validateAcademicData` reports, if any. */
  function Validate(academics: seq<Semester>): (r: Option<Violation>)
    ensures r.None? <==> AcademicsComplete(academics)
    ensures academics == [] <==> r == Some(NoSemesters)
  {
    if |academics| == 0 then Some(NoSemesters) else SemestersCheck(academics, 0)
  }

  /** The text `validateAcademicData` returns: a message, or null (None). */
  function ValidationMessage(academics: seq<Semester>): (r: Option<string>)
    ensures r.None? <==> AcademicsComplete(academics)
    ensures academics == [] ==> r == Some("Please add at least one semester")
  {
    match Validate(academics)
    case None => None
    case Some(v) => Some(Message(v))
  }

  /** The first incomplete subject decides the subject checks. */
  lemma {:induction false} FirstIncompleteSubjectReported(n: int, subjects: seq<Subject>, from: nat, j: nat)
    requires from <= j < |subjects| && !SubjectComplete(subjects[j])
    requires forall m :: from <= m < j ==> SubjectComplete(subjects[m])
    ensures SubjectsCheck(n, subjects, from) == SubjectCheck(n, subjects[j], j)
    decreases j - from
  {
    if from < j {
      FirstIncompleteSubjectReported(n, subjects, from + 1, j);
    }
  }

  /** The first incomplete semester decides the semester checks. */
  lemma {:induction false} FirstIncompleteSemesterReported(academics: seq<Semester>, from: nat, i: nat)
    requires from <= i < |academics| && !SemesterComplete(academics[i])
    requires forall m :: from <= m < i ==> SemesterComplete(academics[m])
    ensures SemestersCheck(academics, from) == SemesterCheck(academics[i])
    decreases i - from
  {
    if from < i {
      FirstIncompleteSemesterReported(academics, from + 1, i);
    }
  }

  /** First violation wins: when semesters before `i` are complete and
      semester `i` has a non-blank section, and its subjects before `j` are
      complete while subject `j` is not, the validator reports subject `j`'s
      missing name, or, when the name is there, its missing faculty. */
  lemma FirstViolationWins(academics: seq<Semester>, i: nat, j: nat)
    requires i < |academics| && j < |academics[i].subjects|
    requires forall m :: 0 <= m < i ==> SemesterComplete(academics[m])
    requires AnyFilled(academics[i].sections)
    requires forall m :: 0 <= m < j ==> SubjectComplete(academics[i].subjects[m])
    requires !SubjectComplete(academics[i].subjects[j])
    ensures var sem := academics[i]; var subject := sem.subjects[j];
            Validate(academics) ==
              if !Filled(subject.name) then Some(SubjectNameMissing(sem.semester, j + 1))
              else Some(FacultyMissing(sem.semester, subject.name))
  {
    FirstIncompleteSemesterReported(academics, 0, i);
    FirstIncompleteSubjectReported(academics[i].semester, academics[i].subjects, 0, j);
  }

  /** A semester whose sections are all blank is reported as such, before
      anything about its subjects, once the semesters before it are complete. */
  lemma BlankSectionsReported(academics: seq<Semester>, i: nat)
    requires i < |academics| && !AnyFilled(academics[i].sections)
    requires forall m :: 0 <= m < i ==> SemesterComplete(academics[m])
    ensures Validate(academics) == Some(NoSection(academics[i].semester))
  {
    FirstIncompleteSemesterReported(academics, 0, i);
  }

  /** A semester with a non-blank section and no subjects is reported as
      missing a subject, once the semesters before it are complete. */
  lemma MissingSubjectsReported(academics: seq<Semester>, i: nat)
    requires i < |academics| && AnyFilled(academics[i].sections) && academics[i].subjects == []
    requires forall m :: 0 <= m < i ==> SemesterComplete(academics[m])
    ensures Validate(academics) == Some(NoSubject(academics[i].semester))
  {
    FirstIncompleteSemesterReported(academics, 0, i);
  }

  /** Every reported violation is produced by one semester, all of whose predecessors are complete. */
  lemma {:induction false} ReportedBySomeSemester(academics: seq<Semester>, from: nat)
    requires from <= |academics| && SemestersCheck(academics, from).Some?
    ensures exists i :: from <= i < |academics| && SemesterCheck(academics[i]) == SemestersCheck(academics, from)
              && forall m :: from <= m < i ==> SemesterComplete(academics[m])
    decreases |academics| - from
  {
    if SemesterCheck(academics[from]).None? {
      ReportedBySomeSemester(academics, from + 1);
    }
  }

  /** While every semester keeps at least one subject entry, as the wizard's
      handlers ensure, the "add at least one subject" check never fires. */
  lemma NoSubjectNeverReported(academics: seq<Semester>)
    requires EntriesPresent(academics)
    ensures Validate(academics).Some? ==> !Validate(academics).value.NoSubject?
  {
    if |academics| > 0 && SemestersCheck(academics, 0).Some? {
      ReportedBySomeSemester(academics, 0);
    }
  }

  /** `validateAcademicData`: the nested search with early return. */
  method ValidateAcademicData(academics: seq<Semester>) returns (error: Option<string>)
    ensures error == ValidationMessage(academics)
  {
    if |academics| == 0 {
      return Some(Message(NoSemesters));
    }
    var i := 0;
    while i < |academics|
      invariant 0 <= i <= |academics|
      invariant SemestersCheck(academics, 0) == SemestersCheck(academics, i)
    {
      var sem := academics[i];
      if |sem.sections| == 0 || !AnyFilled(sem.sections) {
        return Some(Message(NoSection(sem.semester)));
      }
      if |sem.subjects| == 0 {
        return Some(Message(NoSubject(sem.semester)));
      }
      var j := 0;
      while j < |sem.subjects|
        invariant 0 <= j <= |sem.subjects|
        invariant SubjectsCheck(sem.semester, sem.subjects, 0) == SubjectsCheck(sem.semester, sem.subjects, j)
      {
        var subject := sem.subjects[j];
        TrimEmptyIffBlank(subject.name);
        TrimEmptyIffBlank(subject.faculty);
        if Trim(subject.name) == "" {
          return Some(Message(SubjectNameMissing(sem.semester, j + 1)));
        }
        if Trim(subject.faculty) == "" {
          return Some(Message(FacultyMissing(sem.semester, subject.name)));
        }
        j := j + 1;
      }
      i := i + 1;
    }
    return None;
  }

  /** A complete one-semester configuration passes. */
  lemma CompleteExamplePasses()
    ensures Validate([Semester(1, ["A"], [Subject("Math", "Dr. X", None)])]) == None
  {
    assert !IsWhiteSpace("A"[0]) && !IsWhiteSpace("Math"[0]) && !IsWhiteSpace("Dr. X"[0]);
    assert AnyFilled(["A"]) by { assert Filled(["A"][0]); }
  }

  /** The same configuration with the faculty left blank fails on the
      faculty check; the violation names the subject, not its position. */
  lemma BlankFacultyExampleFails()
    ensures Validate([Semester(1, ["A"], [Subject("Math", "", None)])]) == Some(FacultyMissing(1, "Math"))
  {
    assert !IsWhiteSpace("A"[0]) && !IsWhiteSpace("Math"[0]);
    assert AnyFilled(["A"]) by { assert Filled(["A"][0]); }
  }
}
