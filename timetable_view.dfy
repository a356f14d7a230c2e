// The timetable page of one section: the header data it keeps once the
// timetable has loaded, the on-screen table, the quick statistics and the
// printable document.

module TimetableView {
  import opened Js
  import opened TimetableGrid

  /** `institutionData`: absent (None) until the timetable has loaded. */
  datatype InstitutionData = InstitutionData(
    name: Option<string>,
    course: Option<string>,
    academicYear: Option<string>,
    section: Option<string>)

  /** What the page stores after a successful fetch: the signed-in user's
      institution (or "Sample Institution"), the fixed course and year, and
      the section the reply names. */
  function LoadedInstitution(userInstitution: Option<string>, data: TimetableData): (info: InstitutionData)
    ensures info.name.Some? && info.name.value != ""
    ensures info.course == Some("MCA") && info.academicYear == Some("2024-25")
    ensures info.section == data.section
  {
    InstitutionData(Some(OrElse(userInstitution, "Sample Institution")), Some("MCA"), Some("2024-25"), data.section)
  }

  /** The texts of the printed header, each with its fallback. */
  datatype HeaderTexts = HeaderTexts(institution: string, course: string, academicYear: string, section: string)

  const FallbackHeader: HeaderTexts := HeaderTexts("Institution Name", "Course", "Academic Year", "Section")

  /** Resolves one optional header field against its fallback. */
  function Field(info: Option<InstitutionData>, pick: InstitutionData -> Option<string>, fallback: string): string
  {
    if info.Some? then OrElse(pick(info.value), fallback) else fallback
  }

  /** `institutionData?.x || fallback` for the four header fields: before
      loading all four fall back, and no printed header field is ever blank. */
  function Header(info: Option<InstitutionData>): (h: HeaderTexts)
    ensures info.None? ==> h == FallbackHeader
    ensures h.institution != "" && h.course != "" && h.academicYear != "" && h.section != ""
    ensures info.Some? && info.value.section.Some? && info.value.section.value != "" ==>
              h.section == info.value.section.value
    ensures info.Some? && (info.value.section.None? || info.value.section.value == "") ==>
              h.section == "Section"
  {
    HeaderTexts(
      Field(info, (d: InstitutionData) => d.name, "Institution Name"),
      Field(info, (d: InstitutionData) => d.course, "Course"),
      Field(info, (d: InstitutionData) => d.academicYear, "Academic Year"),
      Field(info, (d: InstitutionData) => d.section, "Section"))
  }

  /** Once loaded, the header shows the user's institution (or "Sample
      Institution"), "MCA - 2024-25", and the reply's section or "Section". */
  lemma LoadedHeader(userInstitution: Option<string>, data: TimetableData)
    ensures var h := Header(Some(LoadedInstitution(userInstitution, data)));
            h.institution == OrElse(userInstitution, "Sample Institution")
            && h.course + " - " + h.academicYear == "MCA - 2024-25"
            && h.section == OrElse(data.section, "Section")
  {
  }

  /** The page's `generatePrintHTML`; `generatedOn` is the date text and
      `style` the style sheet. The page is printed in order: the head titled
      after the section, the institution line, the "course - year" line, the
      section line with the date, the table of the data (or of the default
      axes), the footer. */
  function PrintHtml(data: Option<TimetableData>, info: Option<InstitutionData>, generatedOn: string, style: string): (doc: string)
    ensures var h := Header(info);
            doc == Concat(PageParts("Timetable - " + h.section, style, h.institution, h.course + " - " + h.academicYear,
                                    h.section, generatedOn, TableHtml(DaysOf(data), PeriodsOf(data), SessionsOf(data))))
  {
    var h := Header(info);
    DocumentLayout("Timetable - " + h.section, style, h.institution, h.course + " - " + h.academicYear,
                   h.section, generatedOn, TableHtml(DaysOf(data), PeriodsOf(data), SessionsOf(data)));
    Document("Timetable - " + h.section, style,
             HeaderBlock(h.institution, h.course + " - " + h.academicYear, h.section, generatedOn),
             TableHtml(DaysOf(data), PeriodsOf(data), SessionsOf(data)))
  }

  /** The printout names the section in its title and its section line, and
      shows institution, course and year. */
  lemma PrintShowsHeader(data: Option<TimetableData>, info: Option<InstitutionData>, generatedOn: string, style: string)
    ensures var h := Header(info);
            var doc := PrintHtml(data, info, generatedOn, style);
            Occurs(TitleTag("Timetable - " + h.section), doc)
            && Occurs(InstitutionLine(h.institution), doc)
            && Occurs(CourseLine(h.course + " - " + h.academicYear), doc)
            && Occurs(SectionLine(h.section, generatedOn), doc)
  {
    var h := Header(info);
    DocumentParts("Timetable - " + h.section, style, h.institution, h.course + " - " + h.academicYear,
                  h.section, generatedOn, TableHtml(DaysOf(data), PeriodsOf(data), SessionsOf(data)));
  }

  /** Printed before anything has loaded: the fallback header texts, and the
      default five days by six periods, every cell the placeholder. */
  lemma PrintBeforeLoad(generatedOn: string, style: string)
    ensures var doc := PrintHtml(None, None, generatedOn, style);
            Occurs(TitleTag("Timetable - Section"), doc)
            && Occurs(InstitutionLine("Institution Name"), doc)
            && Occurs(CourseLine("Course - Academic Year"), doc)
            && Occurs(SectionLine("Section", generatedOn), doc)
            && Occurs(TableHtml(DefaultDays, DefaultPeriods, []), doc)
  {
    var h := Header(None);
    assert h == FallbackHeader;
    assert "Timetable - " + h.section == "Timetable - Section";
    assert h.course + " - " + h.academicYear == "Course - Academic Year";
    DocumentParts("Timetable - Section", style, "Institution Name", "Course - Academic Year",
                  "Section", generatedOn, TableHtml(DefaultDays, DefaultPeriods, []));
  }

  /** Before anything has loaded every printed cell is the placeholder. */
  lemma EmptyCellsBeforeLoad()
    ensures forall i, j :: 0 <= i < 5 && 0 <= j < 6 ==>
              RowCells(DaysOf(None)[i], PeriodsOf(None), SessionsOf(None))[j] == EmptyCellHtml
  {
  }

  /** The on-screen table: the same lookup over the same axes. */
  function ScreenGrid(data: Option<TimetableData>): (g: seq<seq<Option<Session>>>)
    ensures |g| == |DaysOf(data)|
    ensures forall i :: 0 <= i < |g| ==> |g[i]| == |PeriodsOf(data)|
  {
    Grid(DaysOf(data), PeriodsOf(data), SessionsOf(data))
  }

  /** Every cell shown on screen is printed, in the same position of the printout. */
  lemma PrintMatchesScreen(data: Option<TimetableData>, info: Option<InstitutionData>, generatedOn: string, style: string, i: nat, j: nat)
    requires i < |DaysOf(data)| && j < |PeriodsOf(data)|
    ensures RowCells(DaysOf(data)[i], PeriodsOf(data), SessionsOf(data))[j] == CellHtml(ScreenGrid(data)[i][j])
    ensures Occurs(CellHtml(ScreenGrid(data)[i][j]), PrintHtml(data, info, generatedOn, style))
  {
    var h := Header(info);
    var table := TableHtml(DaysOf(data), PeriodsOf(data), SessionsOf(data));
    CellInTable(DaysOf(data), PeriodsOf(data), SessionsOf(data), i, j);
    DocumentParts("Timetable - " + h.section, style, h.institution, h.course + " - " + h.academicYear,
                  h.section, generatedOn, table);
    OccursTransitive(CellHtml(ScreenGrid(data)[i][j]), table, PrintHtml(data, info, generatedOn, style));
  }

  /** The sidebar's quick statistics. */
  datatype QuickStats = QuickStats(totalSessions: nat, workingDays: nat, periodsPerDay: nat)

  function Stats(data: Option<TimetableData>): (s: QuickStats)
    ensures s.totalSessions == |SessionsOf(data)| && s.workingDays == |DaysOf(data)| && s.periodsPerDay == |PeriodsOf(data)|
    ensures data.None? ==> s == QuickStats(0, 5, 6)
  {
    QuickStats(|SessionsOf(data)|, |DaysOf(data)|, |PeriodsOf(data)|)
  }

  /** The table on screen has working days × periods per day cells, and one
      row per working day. */
  lemma StatsCountTheGrid(data: Option<TimetableData>)
    ensures CellCount(ScreenGrid(data)) == Stats(data).workingDays * Stats(data).periodsPerDay
    ensures |ScreenGrid(data)| == Stats(data).workingDays
  {
    GridCellCount(DaysOf(data), PeriodsOf(data), SessionsOf(data));
  }

  /** When the day labels and the period texts are all different, the table
      shows no more filled cells than the total sessions figure. */
  lemma StatsBoundFilledCells(data: Option<TimetableData>)
    requires forall i, i' :: 0 <= i < i' < |DaysOf(data)| ==> DaysOf(data)[i] != DaysOf(data)[i']
    requires forall j, j' :: 0 <= j < j' < |PeriodsOf(data)| ==> Str(PeriodsOf(data)[j]) != Str(PeriodsOf(data)[j'])
    ensures |FilledCells(ScreenGrid(data))| <= Stats(data).totalSessions
  {
    FilledCellsAtMostSessions(DaysOf(data), PeriodsOf(data), SessionsOf(data));
  }
}
