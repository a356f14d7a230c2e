// The setup wizard's configuration record (`formData`) and the pure
// sequence operations its handlers are built from: the seeded entries that
// the "Add" buttons append, JavaScript's `splice(idx, 1)`, and the semester
// numbering rule of "Add Semester".

module SetupConfig {
  import opened Js

  datatype Institute = Institute(
    name: string,
    academicYear: string,
    course: string,
    totalSemesters: int,
    workingDays: int,
    periodsPerDay: int,
    periodDuration: int)

  datatype Room = Room(name: string, isLab: bool)

  datatype Faculty = Faculty(name: string, empId: string, maxHours: int)

  /** The hour fields a subject created by "Add Semester" carries; a subject
      created by "Add Subject" has none of them. */
  datatype SubjectHours = SubjectHours(weeklyHours: int, isLab: bool, labHours: int)

  datatype Subject = Subject(name: string, faculty: string, hours: Option<SubjectHours>)

  datatype Semester = Semester(semester: int, sections: seq<string>, subjects: seq<Subject>)

  datatype FormData = FormData(
    institute: Institute,
    rooms: seq<Room>,
    faculties: seq<Faculty>,
    academics: seq<Semester>)

  /** One field of the institute form, with the value typed into it. */
  datatype InstituteField =
    | Name(text: string)
    | AcademicYear(text: string)
    | Course(text: string)
    | TotalSemesters(number: int)
    | WorkingDays(number: int)
    | PeriodsPerDay(number: int)
    | PeriodDuration(number: int)

  const InitialInstitute: Institute := Institute("", "", "", 5, 5, 6, 60)
  const BlankRoom: Room := Room("", false)
  const BlankFaculty: Faculty := Faculty("", "", 18)
  /** The subject seeded into a new semester. */
  const BlankSubject: Subject := Subject("", "", Some(SubjectHours(3, false, 0)))
  /** The subject "Add Subject" pushes: only a name and a faculty. */
  const PartialSubject: Subject := Subject("", "", None)

  function SeededSemester(n: int): Semester
  {
    Semester(n, [""], [BlankSubject])
  }

  const InitialForm: FormData :=
    FormData(InitialInstitute, [BlankRoom], [BlankFaculty], [SeededSemester(1)])

  /** Semester numbers increase strictly along the list. */
  predicate StrictlyAscending(academics: seq<Semester>)
  {
    forall i, j :: 0 <= i < j < |academics| ==> academics[i].semester < academics[j].semester
  }

  /** Every semester has at least one section entry and one subject entry. */
  predicate EntriesPresent(academics: seq<Semester>)
  {
    forall i :: 0 <= i < |academics| ==> |academics[i].sections| >= 1 && |academics[i].subjects| >= 1
  }

  /** The number "Add Semester" gives the new semester: one more than the
      last semester's number, or 1 for an empty list. */
  function NextSemesterNumber(academics: seq<Semester>): (n: int)
    ensures academics == [] ==> n == 1
    ensures StrictlyAscending(academics) ==>
              forall k :: 0 <= k < |academics| ==> academics[k].semester < n
    ensures StrictlyAscending(academics) && academics != [] ==>
              exists k :: 0 <= k < |academics| && academics[k].semester == n - 1
  {
    if |academics| > 0 then academics[|academics| - 1].semester + 1 else 1
  }

  /** `s.splice(idx, 1)` on a copy of `s`: a negative `idx` counts from the
      end (clamped at 0), an `idx` at or past the end removes nothing. */
  function Splice<T>(s: seq<T>, idx: int): (r: seq<T>)
    ensures 0 <= idx < |s| ==> |r| == |s| - 1
    ensures 0 <= idx < |s| ==> forall k :: 0 <= k < idx ==> r[k] == s[k]
    ensures 0 <= idx < |s| ==> forall k :: idx <= k < |r| ==> r[k] == s[k + 1]
    ensures idx >= |s| ==> r == s
    ensures s != [] && idx < |s| ==> |r| == |s| - 1
    ensures multiset(r) <= multiset(s)
  {
    var start := if idx >= 0 then idx else if |s| + idx >= 0 then |s| + idx else 0;
    if start < |s| then
      assert s == s[..start] + [s[start]] + s[start + 1..];
      s[..start] + s[start + 1..]
    else s
  }

  /** A negative index names the same entry as its offset from the end. */
  lemma SpliceNegative<T>(s: seq<T>, idx: int)
    requires -|s| <= idx < 0
    ensures Splice(s, idx) == Splice(s, |s| + idx)
  {
  }

  /** The guarded removal of rooms and faculties: with one entry left (or
      none) nothing is removed. */
  function RemoveUnlessLast<T>(s: seq<T>, idx: int): (r: seq<T>)
    ensures |s| <= 1 ==> r == s
    ensures |s| >= 1 ==> |r| >= 1
    ensures |s| > 1 && 0 <= idx < |s| ==> r == s[..idx] + s[idx + 1..]
  {
    if |s| > 1 then Splice(s, idx) else s
  }

  /** "Add Semester" keeps the numbering strictly ascending, and the new
      number exceeds every existing one. */
  lemma AddSemesterKeepsAscending(academics: seq<Semester>)
    requires StrictlyAscending(academics)
    ensures StrictlyAscending(academics + [SeededSemester(NextSemesterNumber(academics))])
  {
  }

  /** Removing any semester keeps the numbering strictly ascending; the
      surviving semesters keep their numbers (none is renumbered). */
  lemma {:induction false} SpliceKeepsAscending(academics: seq<Semester>, idx: int)
    requires StrictlyAscending(academics)
    ensures StrictlyAscending(Splice(academics, idx))
    ensures forall k :: 0 <= k < |Splice(academics, idx)| ==> Splice(academics, idx)[k] in academics
  {
    var r := Splice(academics, idx);
    var start := if idx >= 0 then idx else if |academics| + idx >= 0 then |academics| + idx else 0;
    if start < |academics| {
      assert r == Splice(academics, start);
      forall i, j | 0 <= i < j < |r|
        ensures r[i].semester < r[j].semester
      {
        var i' := if i < start then i else i + 1;
        var j' := if j < start then j else j + 1;
        assert r[i] == academics[i'] && r[j] == academics[j'];
      }
      forall k | 0 <= k < |r|
        ensures r[k] in academics
      {
        assert r[k] == academics[if k < start then k else k + 1];
      }
    }
  }

  /** Appending to the sections or subjects of one semester keeps every
      semester non-empty in both. */
  lemma UpdateKeepsEntries(academics: seq<Semester>, i: nat, sem: Semester)
    requires EntriesPresent(academics) && i < |academics|
    requires |sem.sections| >= |academics[i].sections| && |sem.subjects| >= |academics[i].subjects|
    ensures EntriesPresent(academics[i := sem])
  {
  }

  /** The institute after one form field changed; the other fields keep their values. */
  function SetInstituteField(inst: Institute, f: InstituteField): Institute
  {
    match f
    case Name(t) => inst.(name := t)
    case AcademicYear(t) => inst.(academicYear := t)
    case Course(t) => inst.(course := t)
    case TotalSemesters(n) => inst.(totalSemesters := n)
    case WorkingDays(n) => inst.(workingDays := n)
    case PeriodsPerDay(n) => inst.(periodsPerDay := n)
    case PeriodDuration(n) => inst.(periodDuration := n)
  }
}
