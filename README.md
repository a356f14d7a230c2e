# Timetable generator front end: setup wizard and timetable pages, in Dafny

This project models the client side of a timetable generator. An institution
administrator fills in a five-step setup wizard. The steps are institute,
infrastructure (rooms), faculty, academic structure (semesters, sections,
subjects) and review. The wizard then asks the server to generate a
timetable. Two pages show the result: the timetable of one section, and the
list of all generated timetables. Each page can print a timetable as an HTML
document.

The model has six modules, one file each:

- `Js` (`js.dfy`) covers the JavaScript behaviour the pages rely on:
  - `||` on optional strings;
  - `String.prototype.trim` with the ECMAScript white-space set;
  - `String(n)` for integers;
  - `join('')`;
  - a small vocabulary for "this text stands in that text".
- `SetupConfig` (`setup_config.dfy`) is the wizard's form data. It holds the
  seeded entries the "Add" buttons append, `splice(idx, 1)` with JavaScript's
  index rules, and the semester numbering rule.
- `SetupValidation` (`setup_validation.dfy`) is `validateAcademicData`. It is
  a specification of the first failing check, plus the nested-loop method
  proved equal to it.
- `SetupWizard` (`setup_wizard.dfy`) is the wizard page. It is a class
  holding the page state: step, mode, form data, error details, loading flag
  and local storage. It has one method per handler. A handler that awaits a
  request and raises the loading flag (saving the institute setup,
  generating) is split into a `Begin…` method, which runs up to the request
  it sends, and an `End…` method, which runs once the outcome is known. The
  loading flag is up exactly while such a request is outstanding. The status
  check run when the page opens never raises the loading flag. It is one
  method, `CheckSetupStatus`, which takes the fetch's outcome as a parameter
  and applies it to the form as it stands when the reply arrives; the GET the
  page sends is `StatusRequest`. The module also
  holds step visibility, the Next/Back targets, the request payloads and the
  error-detail text.
- `TimetableGrid` (`timetable_grid.dfy`) is what both timetable pages share:
  - the default axes;
  - the first-match (day, period) lookup;
  - the days × periods grid;
  - the printable document's shell, header block and table.
- `TimetableView` (`timetable_view.dfy`) is the page of one section. It has
  the header fallbacks, the printout, the on-screen grid and the quick
  statistics.
- `TimetableList` (`timetable_list.dfy`) is the list page. It has the list
  kept from the reply, the summary card (sessions total, distinct semesters,
  pluralised caption) and its own printout.

Some things are given as parameters:

- The server's replies are parameters of the methods that consume them.
- The print date and the style sheet are parameters of the print functions.

A subject with a blank faculty is reported by its name, not by its
position: "Faculty assignment is required for subject "Math"", not
"subject 1" (`SetupValidation.BlankFacultyExampleFails`). Only a blank
subject name is reported by position.

## Model

| member | source | states |
|---|---|---|
| Js.OrElse | frontend/src/pages/TimetableView.tsx:201-203 | `a \|\| fallback` on an optional string: a present non-empty string is kept; an absent or empty one gives the fallback |
| Js.TrimStart | frontend/src/pages/SetupWizard.tsx:233 | the result is a suffix of the input, all dropped characters are white space, and it does not start with white space |
| Js.TrimEnd | frontend/src/pages/SetupWizard.tsx:243 | the result is a prefix of the input, all dropped characters are white space, and it does not end with white space |
| Js.Trim | frontend/src/pages/SetupWizard.tsx:233 | `s.trim()` is no longer than `s` and, when not empty, neither starts nor ends with white space |
| Js.TrimEmptyIffBlank | frontend/src/pages/SetupWizard.tsx:243-246 | `s.trim()` is empty (falsy) exactly when every character of `s` is white space |
| Js.NatToString | frontend/src/pages/SetupWizard.tsx:234 | the decimal text of a number is non-empty, all digits, and has no leading zero |
| Js.IntToString | frontend/src/pages/SetupWizard.tsx:234 | `String(i)` starts with '-' exactly for negative `i` |
| Js.NatToStringRoundTrip | frontend/src/pages/SetupWizard.tsx:234 | reading the decimal text back gives the number |
| Js.IntToStringInjective | frontend/src/pages/TimetableView.tsx:218 | two integers have the same `String` form exactly when they are equal |
| Js.Concat | frontend/src/pages/TimetableView.tsx:210 | `join('')`; its contract is carried by `Js.ConcatAppend` (joins distribute over `+`) and `Js.ConcatSplit` (each part sits between those before and after it) |
| Js.ConcatAppend | frontend/src/pages/TimetableView.tsx:210 | `join('')` of two lists side by side is the concatenation of their joins |
| Js.ConcatSplit | frontend/src/pages/TimetableView.tsx:214-230 | the i-th part stands in the joined text between the parts before and after it |
| Js.OccursTransitive | frontend/src/pages/TimetableView.tsx:116-240 | text standing in text that stands in a document stands in the document |
| Js.PartOccurs | frontend/src/pages/TimetableView.tsx:214-230 | every part stands in the joined text |
| SetupConfig.NextSemesterNumber | frontend/src/pages/SetupWizard.tsx:48-51 | a new semester gets 1 when there are none; under ascending numbering it exceeds every existing number and is one more than one of them, so it is exactly the largest number plus 1 |
| SetupConfig.Splice | frontend/src/pages/SetupWizard.tsx:65-69 | `splice(idx, 1)` removes exactly the entry at a valid index and keeps the others in order; an index past the end removes nothing; a negative index still removes one entry; the result is a sub-multiset |
| SetupConfig.SpliceNegative | frontend/src/pages/SetupWizard.tsx:65-69 | a negative index removes the entry that far from the end |
| SetupConfig.RemoveUnlessLast | frontend/src/pages/SetupWizard.tsx:78-99 | with one entry (or none) nothing is removed; otherwise exactly the entry at `idx` goes; at least one entry stays |
| SetupConfig.AddSemesterKeepsAscending | frontend/src/pages/SetupWizard.tsx:47-62 | appending the next-numbered seeded semester keeps numbering strictly ascending |
| SetupConfig.SpliceKeepsAscending | frontend/src/pages/SetupWizard.tsx:65-69 | removing a semester at any index keeps numbering strictly ascending, and every survivor is an original semester (none renumbered) |
| SetupConfig.UpdateKeepsEntries | frontend/src/pages/SetupWizard.tsx:683-688 | growing or editing one semester's sections or subjects keeps every semester with a section and a subject entry |
| SetupValidation.AnyFilled | frontend/src/pages/SetupWizard.tsx:233 | `sections.some(s => s.trim())` holds exactly when some section has a non-white-space character |
| SetupValidation.SubjectCheck | frontend/src/pages/SetupWizard.tsx:242-248 | a subject passes exactly when its name and faculty are both filled; a blank name is reported first, with the 1-based position |
| SetupValidation.SubjectsCheck | frontend/src/pages/SetupWizard.tsx:241-249 | the subject checks from index j pass exactly when every subject from j is complete; a failure is a name or faculty violation |
| SetupValidation.SemesterCheck | frontend/src/pages/SetupWizard.tsx:232-249 | a semester passes exactly when complete; all-blank sections are reported first; a semester with a non-blank section is reported as missing a subject exactly when it has no subjects |
| SetupValidation.SemestersCheck | frontend/src/pages/SetupWizard.tsx:229-250 | the semester checks from index i pass exactly when every semester from i is complete |
| SetupValidation.Validate | frontend/src/pages/SetupWizard.tsx:225-253 | validation passes exactly when there is a semester and every semester is complete; "add at least one semester" is reported exactly for an empty list |
| SetupValidation.Message | frontend/src/pages/SetupWizard.tsx:227-247 | the five fixed texts; `SetupValidation.MessageNamesSemester` states that all but the empty-list one open with the semester, and `SetupValidation.BlankFacultyExampleFails` that the faculty text names the subject |
| SetupValidation.MessageNamesSemester | frontend/src/pages/SetupWizard.tsx:234-247 | every message about a semester opens with "Semester n: " for that semester's number |
| SetupValidation.ValidationMessage | frontend/src/pages/SetupWizard.tsx:225-253 | the validator returns null exactly for a non-empty list of complete semesters, and "Please add at least one semester" for an empty list; `SetupValidation.ValidateAcademicData` is proved to return it |
| SetupValidation.FirstIncompleteSubjectReported | frontend/src/pages/SetupWizard.tsx:241-249 | the first incomplete subject decides the subject checks |
| SetupValidation.FirstIncompleteSemesterReported | frontend/src/pages/SetupWizard.tsx:229-250 | the first incomplete semester decides the semester checks |
| SetupValidation.FirstViolationWins | frontend/src/pages/SetupWizard.tsx:225-253 | after complete earlier semesters and subjects, the first incomplete subject is reported: its missing name, else its missing faculty |
| SetupValidation.BlankSectionsReported | frontend/src/pages/SetupWizard.tsx:233-235 | a semester whose sections are all blank is reported as such, after complete earlier semesters, before anything about its subjects |
| SetupValidation.MissingSubjectsReported | frontend/src/pages/SetupWizard.tsx:237-239 | a semester with a non-blank section and no subjects is reported as missing a subject, once the earlier semesters are complete |
| SetupValidation.ReportedBySomeSemester | frontend/src/pages/SetupWizard.tsx:229-250 | every reported violation comes from one semester whose predecessors are all complete |
| SetupValidation.NoSubjectNeverReported | frontend/src/pages/SetupWizard.tsx:237-239 | while every semester keeps a subject entry, as the wizard's handlers ensure, "add at least one subject" is never reported |
| SetupValidation.ValidateAcademicData | frontend/src/pages/SetupWizard.tsx:225-253 | the nested loops with early return give exactly the message of the first failing check, or none |
| SetupValidation.CompleteExamplePasses | frontend/src/pages/SetupWizard.tsx:225-253 | one semester with section "A" and subject Math taught by Dr. X passes |
| SetupValidation.BlankFacultyExampleFails | frontend/src/pages/SetupWizard.tsx:246-248 | the same configuration with a blank faculty fails on the faculty of "Math" in semester 1 |
| SetupWizard.VisibleStepsByMode | frontend/src/pages/SetupWizard.tsx:334-336 | academic-only mode shows only Academic and Review; first-time mode shows all five steps in order |
| SetupWizard.BackNextInverse | frontend/src/pages/SetupWizard.tsx:487-491 | a panel's Back leads to the panel whose Next leads here, and conversely |
| SetupWizard.AcademicBackLeavesShownSteps | frontend/src/pages/SetupWizard.tsx:739 | in academic-only mode, Back on the Academic panel leads to the hidden Faculty step whatever the mode |
| SetupWizard.StepVisible | frontend/src/pages/SetupWizard.tsx:280 | a step is shown in first-time mode, and Academic and Review in either mode; its contract is carried by `SetupWizard.VisibleStepsByMode` |
| SetupWizard.NextStep | frontend/src/pages/SetupWizard.tsx:415-745 | the Next buttons' targets; its contract is carried by `SetupWizard.BackNextInverse` |
| SetupWizard.BackStep | frontend/src/pages/SetupWizard.tsx:487-891 | the Back buttons' targets; its contract is carried by `SetupWizard.BackNextInverse` and `SetupWizard.AcademicBackLeavesShownSteps` |
| SetupWizard.Adopt | frontend/src/pages/SetupWizard.tsx:118-121 | `fromServer \|\| current` on an object or array: any present value, an empty array included, is adopted |
| SetupWizard.Authorization | frontend/src/pages/SetupWizard.tsx:107-111 | the Authorization header is empty exactly when no token, or an empty one, is stored |
| SetupWizard.StatusRequest | frontend/src/pages/SetupWizard.tsx:107-113 | the status check is a GET to setup/status/ with no body and the token header, empty exactly when no token or an empty one is stored |
| SetupWizard.GenerateRequest | frontend/src/pages/SetupWizard.tsx:174-189 | academic-only mode sends only the academics to setup/academic/; first-time mode sends the whole form to generate/; both carry the token header |
| SetupWizard.SaveAlert | frontend/src/pages/SetupWizard.tsx:148-153 | the save's success text, or the failure text with the server's error else the message; its contract is carried by `SetupWizard.SaveAlertPrefersServerError` |
| SetupWizard.SaveAlertPrefersServerError | frontend/src/pages/SetupWizard.tsx:153 | a non-empty server `error` decides the failure alert whatever the message; an empty one falls back to the message as an absent one does |
| SetupWizard.TimetablePath | frontend/src/pages/SetupWizard.tsx:193 | the page opened after generation; its contract is carried by `SetupWizard.TimetablePathFallback` |
| SetupWizard.TimetablePathFallback | frontend/src/pages/SetupWizard.tsx:193 | an absent or zero section id opens section 1's page; distinct non-zero ids open distinct pages |
| SetupWizard.BodyLine | frontend/src/pages/SetupWizard.tsx:206-214 | the line the error body adds: `error`, else `detail`, else a string body, else the JSON text; its contract is carried by the three lemmas below |
| SetupWizard.ErrorDetails | frontend/src/pages/SetupWizard.tsx:196-217 | the details of a failed generation other than a 401; its contract is carried by `SetupWizard.ErrorFieldTakesPrecedence`, `SetupWizard.DetailFieldBeforeJson` and `SetupWizard.DetailsStartWithStatus` |
| SetupWizard.ErrorFieldTakesPrecedence | frontend/src/pages/SetupWizard.tsx:205-213 | a non-empty `error` field decides the details whatever `detail` and the JSON are, exactly as a string body with that text would |
| SetupWizard.DetailFieldBeforeJson | frontend/src/pages/SetupWizard.tsx:207-213 | without an `error`, a non-empty `detail` decides the details whatever the JSON is |
| SetupWizard.DetailsStartWithStatus | frontend/src/pages/SetupWizard.tsx:197-204 | the details of every HTTP error begin with the heading and the status line |
| SetupWizard.Wizard.constructor | frontend/src/pages/SetupWizard.tsx:18-45 | the page opens at the Institute step in first-time mode with the seeded form, no error details and not loading |
| SetupWizard.Wizard.SelectStep | frontend/src/pages/SetupWizard.tsx:280-288 | a click on a shown sidebar entry or tab moves to that step |
| SetupWizard.Wizard.GoNext | frontend/src/pages/SetupWizard.tsx:613-618 | Next moves to the following step |
| SetupWizard.Wizard.GoBack | frontend/src/pages/SetupWizard.tsx:888-892 | Back moves to the preceding step; on Review it is disabled while loading |
| SetupWizard.Wizard.AddSemester | frontend/src/pages/SetupWizard.tsx:47-62 | appends one semester numbered after the last (or 1), seeded with one blank section and one blank subject; the rest of the form is unchanged; the invariant holds |
| SetupWizard.Wizard.RemoveSemester | frontend/src/pages/SetupWizard.tsx:65-69 | unguarded `splice(idx, 1)` on the semesters; the rest of the form is unchanged; numbering stays ascending |
| SetupWizard.Wizard.AddRoom | frontend/src/pages/SetupWizard.tsx:71-76 | appends a blank non-lab room; nothing else changes |
| SetupWizard.Wizard.RemoveRoom | frontend/src/pages/SetupWizard.tsx:78-84 | removes the room at `idx` unless it is the last one; nothing else changes |
| SetupWizard.Wizard.AddFaculty | frontend/src/pages/SetupWizard.tsx:86-91 | appends a blank faculty member with 18 maximum hours; nothing else changes |
| SetupWizard.Wizard.RemoveFaculty | frontend/src/pages/SetupWizard.tsx:93-99 | removes the faculty member at `idx` unless it is the last one; nothing else changes |
| SetupWizard.Wizard.AddSection | frontend/src/pages/SetupWizard.tsx:683-688 | appends an empty section to one semester; nothing else changes |
| SetupWizard.Wizard.AddSubject | frontend/src/pages/SetupWizard.tsx:725-730 | appends a subject carrying only an empty name and faculty (no hour fields) to one semester |
| SetupWizard.Wizard.SetSection | frontend/src/pages/SetupWizard.tsx:674-678 | replaces one section's text; nothing else changes |
| SetupWizard.Wizard.SetSubjectName | frontend/src/pages/SetupWizard.tsx:699-703 | replaces one subject's name; nothing else changes |
| SetupWizard.Wizard.SetSubjectFaculty | frontend/src/pages/SetupWizard.tsx:708-712 | replaces one subject's faculty; nothing else changes |
| SetupWizard.Wizard.SetRoomName | frontend/src/pages/SetupWizard.tsx:443-447 | replaces one room's name; nothing else changes |
| SetupWizard.Wizard.SetRoomIsLab | frontend/src/pages/SetupWizard.tsx:456-460 | sets one room's laboratory flag; nothing else changes |
| SetupWizard.Wizard.SetFacultyName | frontend/src/pages/SetupWizard.tsx:532-536 | replaces one faculty member's name; nothing else changes |
| SetupWizard.Wizard.SetFacultyEmpId | frontend/src/pages/SetupWizard.tsx:545-549 | replaces one faculty member's employee id; nothing else changes |
| SetupWizard.Wizard.SetFacultyMaxHours | frontend/src/pages/SetupWizard.tsx:562-566 | replaces one faculty member's maximum hours; nothing else changes |
| SetupWizard.Wizard.SetInstitute | frontend/src/pages/SetupWizard.tsx:399-406 | replaces one institute field; the other fields keep their values |
| SetupWizard.Wizard.CheckSetupStatus | frontend/src/pages/SetupWizard.tsx:105-131 | a completed setup switches to academic-only mode at the Academic step and adopts the institute, rooms and faculties the reply carries; an incomplete one sets first-time mode; a failed fetch changes nothing |
| SetupWizard.Wizard.BeginSaveInstituteSetup | frontend/src/pages/SetupWizard.tsx:133-147 | raises the loading flag and posts the institute, rooms and faculties to setup/institute/ with the token header |
| SetupWizard.Wizard.EndSaveInstituteSetup | frontend/src/pages/SetupWizard.tsx:148-157 | success alerts and moves to academic-only mode at the Academic step; failure alerts the server's error or the message and leaves mode and step; loading ends either way |
| SetupWizard.Wizard.BeginGenerate | frontend/src/pages/SetupWizard.tsx:159-189 | clears the error details; only academic-only mode validates; a failed validation stores and alerts its message and sends nothing; otherwise the mode's request is sent with loading up |
| SetupWizard.Wizard.EndGenerate | frontend/src/pages/SetupWizard.tsx:190-222 | success alerts and opens the returned section (1 when absent or 0); a 401 removes user and token and goes to login without storing details; any other failure stores and alerts the details; loading ends |
| SetupWizard.StartupScenarios | frontend/src/pages/SetupWizard.tsx:105-131 | a fresh page whose status check finds no completed setup stays in first-time mode at the Institute step with the seeded form; one that finds a completed setup with three faculties opens academic-only mode at the Academic step holding those three |
| TimetableGrid.DaysOf | frontend/src/pages/TimetableView.tsx:112 | missing days default to Monday to Friday |
| TimetableGrid.PeriodsOf | frontend/src/pages/TimetableView.tsx:113 | missing periods default to six labels "1" to "6" |
| TimetableGrid.SessionsOf | frontend/src/pages/TimetableView.tsx:114 | a missing session list defaults to the empty list |
| TimetableGrid.Find | frontend/src/pages/TimetableView.tsx:218 | a found session is in the list and has that day and a period equal as text; nothing is found exactly when no session occupies the cell |
| TimetableGrid.FindReturnsFirst | frontend/src/pages/TimetableView.tsx:218 | the earliest occupant of a cell is the one found |
| TimetableGrid.TieBreak | frontend/src/pages/TimetableView.tsx:218 | of two sessions in the same cell, the one listed first is shown |
| TimetableGrid.NumberMatchesItsText | frontend/src/pages/TimetableView.tsx:218 | a session with numeric period n matches the label spelling m exactly when n = m |
| TimetableGrid.Grid | frontend/src/pages/TimetableView.tsx:214-230 | one row per day, one cell per period, each the lookup of that day and period |
| TimetableGrid.GridTotal | frontend/src/pages/TimetableView.tsx:217-227 | a cell is filled exactly when some session occupies it |
| TimetableGrid.GridWithoutSessions | frontend/src/pages/TimetableView.tsx:217-227 | with no sessions every cell is empty |
| TimetableGrid.OneSessionExample | frontend/src/pages/TimetableView.tsx:416-418 | two days, periods 1 and 2, one Monday period-1 session: exactly that cell is filled |
| TimetableGrid.GridCellCount | frontend/src/pages/TimetableView.tsx:214-230 | the grid has days × periods cells |
| TimetableGrid.SessionKeysSize | frontend/src/pages/TimetableView.tsx:218 | the sessions give no more (day, period text) lookup keys than there are sessions |
| TimetableGrid.CellKeysDiffer | frontend/src/pages/TimetableView.tsx:214-218 | with day labels and period texts all different, two cells never share a lookup key |
| TimetableGrid.FilledKeysAreSessionKeys | frontend/src/pages/TimetableView.tsx:218-221 | a filled cell's lookup key is the key of some session |
| TimetableGrid.FilledCellsAtMostSessions | frontend/src/pages/TimetableView.tsx:214-230 | with day labels and period texts all different, no more cells are filled than there are sessions |
| TimetableGrid.CellHtml | frontend/src/pages/TimetableView.tsx:219-226 | a filled cell shows the session's subject, faculty and room lines, each labelled by its class, in that order and without overlap; the '-' placeholder is printed exactly for an empty cell |
| TimetableGrid.HeaderCells | frontend/src/pages/TimetableView.tsx:210 | exactly one "Period p" heading per period, in axis order |
| TimetableGrid.RowCells | frontend/src/pages/TimetableView.tsx:217-228 | exactly one printed cell per period, each rendering that cell's lookup |
| TimetableGrid.RowHtml | frontend/src/pages/TimetableView.tsx:214-229 | one day's printed row: the day, then its cells; its contract is carried by `TimetableGrid.RowInTable` and `TimetableGrid.CellInTable` |
| TimetableGrid.BodyRows | frontend/src/pages/TimetableView.tsx:214-230 | exactly one printed row per day, in order |
| TimetableGrid.TableHtml | frontend/src/pages/TimetableView.tsx:205-231 | the printed table; its contract is carried by `TimetableGrid.HeadingInTable`, `TimetableGrid.RowInTable` and `TimetableGrid.CellInTable` |
| TimetableGrid.PrintedCellShowsGrid | frontend/src/pages/TimetableView.tsx:214-230 | the printed cell of day i and period j renders the grid's cell there |
| TimetableGrid.RowInTable | frontend/src/pages/TimetableView.tsx:212-231 | day i's row follows the header row and the earlier days' rows in the printed table |
| TimetableGrid.HeadingInTable | frontend/src/pages/TimetableView.tsx:207-211 | period j's heading follows "Day / Period" and the earlier periods' headings |
| TimetableGrid.CellInTable | frontend/src/pages/TimetableView.tsx:205-231 | every cell of the grid is printed in the table |
| TimetableGrid.HeaderBlock | frontend/src/pages/TimetableView.tsx:200-204 | the institution, course and section lines in that order; its contract is carried by `TimetableGrid.DocumentLayout` |
| TimetableGrid.Document | frontend/src/pages/TimetableView.tsx:115-239 | the printed page around a header block and a table; its contract is carried by `TimetableGrid.DocumentLayout` |
| TimetableGrid.DocumentLayout | frontend/src/pages/TimetableView.tsx:115-239 | the page is, in this order: the head with the title and the style sheet, the institution line, the course line, the section line with the date, the table, the footer |
| TimetableGrid.DocumentParts | frontend/src/pages/TimetableView.tsx:116-240 | the printed page carries its title, the three header lines and the table |
| TimetableView.LoadedInstitution | frontend/src/pages/TimetableView.tsx:56-61 | after loading, the name is present and non-empty, the course is MCA, the year 2024-25, and the section is the reply's |
| TimetableView.Header | frontend/src/pages/TimetableView.tsx:201-203 | before loading all header fields fall back to 'Institution Name', 'Course', 'Academic Year', 'Section'; no printed field is blank; a non-empty section is kept |
| TimetableView.LoadedHeader | frontend/src/pages/TimetableView.tsx:56-61 | once loaded, the header shows the user's institution or 'Sample Institution', "MCA - 2024-25", and the reply's section or 'Section' |
| TimetableView.PrintHtml | frontend/src/pages/TimetableView.tsx:111-240 | the page, in order: head titled after the section (or 'Section'), the institution, "course - year" and section lines with their fallbacks, the table of the data or of the default axes, the footer |
| TimetableView.PrintShowsHeader | frontend/src/pages/TimetableView.tsx:118-204 | the printout's title and section line name the same section, with institution, course and year shown |
| TimetableView.PrintBeforeLoad | frontend/src/pages/TimetableView.tsx:111-240 | printed before loading: the fallback texts and the default five-by-six table |
| TimetableView.EmptyCellsBeforeLoad | frontend/src/pages/TimetableView.tsx:112-114 | before loading every printed cell is the placeholder |
| TimetableView.ScreenGrid | frontend/src/pages/TimetableView.tsx:396-438 | the on-screen table has one row per day and one cell per period |
| TimetableView.PrintMatchesScreen | frontend/src/pages/TimetableView.tsx:416-418 | the printed cell at each position renders the on-screen cell there, and stands in the printout |
| TimetableView.Stats | frontend/src/pages/TimetableView.tsx:345-353 | the figures are the lengths of the sessions list, the days and the periods the table uses (with their fallbacks); with no data 0 sessions, 5 days and 6 periods |
| TimetableView.StatsBoundFilledCells | frontend/src/pages/TimetableView.tsx:345-353 | with day labels and period texts all different, the table shows no more filled cells than the "Total Sessions" figure |
| TimetableView.StatsCountTheGrid | frontend/src/pages/TimetableView.tsx:345-353 | the on-screen table has working days × periods per day cells and one row per working day |
| TimetableList.TimetablesOf | frontend/src/pages/TimetableList.tsx:49 | a reply without a list gives the empty list; a present list is kept as is |
| TimetableList.SessionsSum | frontend/src/pages/TimetableList.tsx:379 | the plain sum of the sessions counts, the reference `TimetableList.ReduceIsSum` ties the fold to |
| TimetableList.Reduce | frontend/src/pages/TimetableList.tsx:379 | the left fold of `reduce`; its contract is carried by `TimetableList.ReduceIsSum` |
| TimetableList.ReduceIsSum | frontend/src/pages/TimetableList.tsx:379 | the left fold from a start value is the start plus the sum of the sessions counts |
| TimetableList.TotalSessions | frontend/src/pages/TimetableList.tsx:379 | the "Total Sessions" figure is the sum of the sessions counts, 0 for no timetables |
| TimetableList.NonNegativeSum | frontend/src/pages/TimetableList.tsx:379 | with no negative counts the total is not negative |
| TimetableList.TotalBoundsEachCount | frontend/src/pages/TimetableList.tsx:379 | with no negative counts the total is at least each timetable's count |
| TimetableList.SemesterSet | frontend/src/pages/TimetableList.tsx:385 | `new Set(timetables.map(t => t.semester))`; its contract is carried by `TimetableList.SemesterSetSize` and `TimetableList.DistinctSemesters` |
| TimetableList.SemesterSetSize | frontend/src/pages/TimetableList.tsx:385 | there are no more distinct semesters than timetables |
| TimetableList.DistinctSemesters | frontend/src/pages/TimetableList.tsx:385 | the "Semesters" figure is at most the number of timetables, at least 1 when there is one, and 0 for none; its value is fixed by `TimetableList.DistinctSemestersAppend` |
| TimetableList.SemesterSetAppend | frontend/src/pages/TimetableList.tsx:385 | appending a timetable adds exactly its semester to the set |
| TimetableList.DistinctSemestersAppend | frontend/src/pages/TimetableList.tsx:385 | appending a timetable raises the figure by one exactly when no earlier timetable has its semester, and leaves it otherwise; with 0 for the empty list this fixes it as the number of distinct semesters |
| TimetableList.AllSemestersDifferent | frontend/src/pages/TimetableList.tsx:385 | timetables of pairwise different semesters give a figure equal to their number |
| TimetableList.OneSemester | frontend/src/pages/TimetableList.tsx:385 | timetables all of one semester count as one semester |
| TimetableList.Caption | frontend/src/pages/TimetableList.tsx:369 | "Total n timetable(s) available"; its contract is carried by `TimetableList.CaptionPlural` |
| TimetableList.CaptionPlural | frontend/src/pages/TimetableList.tsx:369 | the caption says "timetables" exactly when the count is not 1 |
| TimetableList.SummaryCard | frontend/src/pages/TimetableList.tsx:363-392 | the card is shown exactly when there is a timetable; it shows the count, the sessions total and the number of distinct semesters, which lies between 1 and the count |
| TimetableList.PrintHtml | frontend/src/pages/TimetableList.tsx:103-231 | the page, in order: head titled after the section name, the institution line (or 'Institution Name'), the fixed course line, the section line with the date, the table, the footer |
| TimetableList.PrintNamesSection | frontend/src/pages/TimetableList.tsx:192-194 | the title and section line carry the section name as given; the course line is fixed; the institution falls back to 'Institution Name' |
| TimetableList.PrintsEveryCell | frontend/src/pages/TimetableList.tsx:196-221 | every cell of the reply's grid is printed |

## Left out

- Network requests, `alert`, `navigate` and `window.open`/print are effects. Requests and alerts/navigations are returned as values; the print window is not modelled.
- Local storage is a map on the wizard. It is read for the token and cleared of user and token on a 401. The timetable pages' own fetches, including their 401 handling and the `user` JSON parsing, are not modelled. The `institutionData` those fetches build is modelled (`TimetableView.LoadedInstitution`).
- The section page's navigation sidebar and the JSON preview toggle are not modelled: they are presentation.
- The list page's download handler is not modelled. It fetches one section and prints it with the card's name as `sectionName`; the printout itself is `TimetableList.PrintHtml`.
- The print date (`toLocaleDateString`) is a parameter. The style sheet is an opaque parameter. The indentation and line breaks of the template literals are not reproduced: the documents keep tags and text in order.
- `JSON.stringify` of an error body is carried as an uninterpreted text in the error body.
- SetupWizard.Wizard.SetInstitute: number fields take an integer. The `Number(...)` conversion of typed text (NaN, decimals) is not modelled.
- SetupWizard.Wizard.SetFacultyMaxHours: takes an integer; `Number(...)` of the typed text is not modelled.
- SetupWizard.Wizard.CheckSetupStatus: the handler spreads the form data captured when the page opened. Edits made before the reply arrives that replace a list or the institute record (adding or removing a semester, room or faculty; typing into an institute field) would be lost. Edits that mutate in place an object the snapshot shares (a section, a subject, a room's or a faculty member's fields) would survive, as the aliasing line below describes, unless the reply replaces that list. The model merges into the current form data. The GET itself is returned by `SetupWizard.StatusRequest`, not by this method.
- `console.log` and `console.error` calls (the status check's failure, the save's and the generation's errors, the generation payload) are not modelled: they change nothing the page shows.
- JavaScript numbers are modelled as unbounded integers. `String(n)` switching to exponent form from 1e21 and `last + 1` losing precision past 2^53 are not modelled; no semester number, section id, status code or count of this application comes near either.
- SetupWizard.Wizard.AddSection: the page copies the semester list shallowly and pushes into the shared semester object. The model states the resulting value only. Aliasing with earlier state snapshots is not modelled. The same holds for AddSubject, SetSection, SetSubjectName, SetSubjectFaculty, and the room and faculty setters.
- The `loading` flag and the buttons it disables are modelled as preconditions of the Begin methods. React's batching of state updates and re-renders is not modelled.
- The institute a status reply carries has no `totalSemesters` on the server side. The model treats the reply's institute as a whole record, as the page does.
- TimetableGrid.Session: subject, faculty and room are strings. A session lacking one would print "undefined"; that is not modelled.
- The server, including the timetable generation algorithm, the authentication views and the data model, is not part of this model. It is the collaborator whose replies the methods take as parameters.
