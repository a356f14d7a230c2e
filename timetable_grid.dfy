// What the timetable pages share: the default axes used when the fetched
// data lacks them, the (day, period) cell lookup over the flat session list,
// and the printable document (its shell, header block and table), which both
// pages build alike and differ only in the header texts.

module TimetableGrid {
  import opened Js

  /** A period as the data carries it: axis labels are strings, a session's
      period may be a number. */
  datatype PeriodLabel = Text(text: string) | Number(number: int)

  /** `String(period)` */
  function Str(p: PeriodLabel): string
  {
    match p
    case Text(t) => t
    case Number(n) => IntToString(n)
  }

  datatype Session = Session(day: string, period: PeriodLabel, subject: string, faculty: string, room: string)

  /** The timetable reply; each field may be missing. */
  datatype TimetableData = TimetableData(
    days: Option<seq<string>>,
    periods: Option<seq<PeriodLabel>>,
    timetable: Option<seq<Session>>,
    section: Option<string>)

  const DefaultDays: seq<string> := ["Monday", "Tuesday", "Wednesday", "Thursday", "Friday"]
  const DefaultPeriods: seq<PeriodLabel> := [Text("1"), Text("2"), Text("3"), Text("4"), Text("5"), Text("6")]

  /** `timetableData?.days || [Monday … Friday]` */
  function DaysOf(data: Option<TimetableData>): (days: seq<string>)
    ensures data.Some? && data.value.days.Some? ==> days == data.value.days.value
    ensures data.None? || data.value.days.None? ==> days == DefaultDays && |days| == 5
  {
    if data.Some? && data.value.days.Some? then data.value.days.value else DefaultDays
  }

  /** `timetableData?.periods || ["1" … "6"]` */
  function PeriodsOf(data: Option<TimetableData>): (periods: seq<PeriodLabel>)
    ensures data.Some? && data.value.periods.Some? ==> periods == data.value.periods.value
    ensures data.None? || data.value.periods.None? ==>
              |periods| == 6 && forall j :: 0 <= j < 6 ==> Str(periods[j]) == IntToString(j + 1)
  {
    if data.Some? && data.value.periods.Some? then data.value.periods.value
    else
      assert IntToString(1) == "1" && IntToString(2) == "2" && IntToString(3) == "3";
      assert IntToString(4) == "4" && IntToString(5) == "5" && IntToString(6) == "6";
      DefaultPeriods
  }

  /** `timetableData?.timetable || []` */
  function SessionsOf(data: Option<TimetableData>): (sessions: seq<Session>)
    ensures data.Some? && data.value.timetable.Some? ==> sessions == data.value.timetable.value
    ensures data.None? || data.value.timetable.None? ==> sessions == []
  {
    if data.Some? && data.value.timetable.Some? then data.value.timetable.value else []
  }

  /** The lookup's test: the same day, and periods equal as strings. */
  predicate Occupies(s: Session, day: string, period: PeriodLabel)
  {
    s.day == day && Str(s.period) == Str(period)
  }

  /** `timetable.find(s => s.day === day && String(s.period) === String(period))` */
  function Find(sessions: seq<Session>, day: string, period: PeriodLabel): (r: Option<Session>)
    ensures r.Some? ==> r.value in sessions && Occupies(r.value, day, period)
    ensures r.None? <==> forall k :: 0 <= k < |sessions| ==> !Occupies(sessions[k], day, period)
  {
    if sessions == [] then None
    else if Occupies(sessions[0], day, period) then Some(sessions[0])
    else Find(sessions[1..], day, period)
  }

  /** The earliest occupant of a cell is the one found: with duplicates the first wins. */
  lemma {:induction false} FindReturnsFirst(sessions: seq<Session>, day: string, period: PeriodLabel, k: nat)
    requires k < |sessions| && Occupies(sessions[k], day, period)
    requires forall m :: 0 <= m < k ==> !Occupies(sessions[m], day, period)
    ensures Find(sessions, day, period) == Some(sessions[k])
  {
    if k > 0 {
      FindReturnsFirst(sessions[1..], day, period, k - 1);
    }
  }

  /** Two sessions in the same cell: the one listed first is shown. */
  lemma TieBreak(first: Session, second: Session, day: string, period: PeriodLabel)
    requires Occupies(first, day, period) && Occupies(second, day, period)
    ensures Find([first, second], day, period) == Some(first)
  {
  }

  /** A numeric session period matches the axis label spelling that number,
      and no label spelling another number. */
  lemma NumberMatchesItsText(s: Session, n: int, m: int)
    requires s.period == Number(n)
    ensures Occupies(s, s.day, Text(IntToString(m))) <==> n == m
  {
    IntToStringInjective(n, m);
  }

  /** The cells of the days × periods table, row by row. */
  function Grid(days: seq<string>, periods: seq<PeriodLabel>, sessions: seq<Session>): (g: seq<seq<Option<Session>>>)
    ensures |g| == |days|
    ensures forall i :: 0 <= i < |days| ==> |g[i]| == |periods|
    ensures forall i, j :: 0 <= i < |days| && 0 <= j < |periods| ==> g[i][j] == Find(sessions, days[i], periods[j])
  {
    seq(|days|, i requires 0 <= i < |days| =>
      seq(|periods|, j requires 0 <= j < |periods| => Find(sessions, days[i], periods[j])))
  }

  /** Every cell resolves: it is filled exactly when some session occupies it. */
  lemma GridTotal(days: seq<string>, periods: seq<PeriodLabel>, sessions: seq<Session>, i: nat, j: nat)
    requires i < |days| && j < |periods|
    ensures Grid(days, periods, sessions)[i][j].Some? <==>
              exists k :: 0 <= k < |sessions| && Occupies(sessions[k], days[i], periods[j])
  {
  }

  /** With no sessions every cell is empty. */
  lemma GridWithoutSessions(days: seq<string>, periods: seq<PeriodLabel>)
    ensures forall i, j :: 0 <= i < |days| && 0 <= j < |periods| ==> Grid(days, periods, [])[i][j] == None
  {
  }

  /** Two days, periods 1 and 2 as numbers, one Monday period-1 session: one
      filled cell, three empty ones. */
  lemma OneSessionExample()
    ensures var s := Session("Mon", Number(1), "Math", "Dr. X", "R1");
            var g := Grid(["Mon", "Tue"], [Number(1), Number(2)], [s]);
            g == [[Some(s), None], [None, None]]
  {
    var s := Session("Mon", Number(1), "Math", "Dr. X", "R1");
    IntToStringInjective(1, 2);
    assert !Occupies(s, "Tue", Number(1));
    var g := Grid(["Mon", "Tue"], [Number(1), Number(2)], [s]);
    assert g[0] == [Some(s), None];
    assert g[1] == [None, None];
  }

  /** Number of cells in a table. */
  function CellCount(g: seq<seq<Option<Session>>>): nat
  {
    if g == [] then 0 else |g[0]| + CellCount(g[1..])
  }

  /** The table has |days| × |periods| cells. */
  lemma {:induction false} GridCellCount(days: seq<string>, periods: seq<PeriodLabel>, sessions: seq<Session>)
    ensures CellCount(Grid(days, periods, sessions)) == |days| * |periods|
  {
    if days != [] {
      var g, tail := Grid(days, periods, sessions), Grid(days[1..], periods, sessions);
      forall i | 0 <= i < |tail|
        ensures g[1..][i] == tail[i]
      {
        assert g[1..][i] == g[i + 1];
        assert forall j :: 0 <= j < |periods| ==> g[i + 1][j] == tail[i][j];
      }
      assert g[1..] == tail;
      GridCellCount(days[1..], periods, sessions);
      assert CellCount(g) == |periods| + (|days| - 1) * |periods|;
      assert |days| * |periods| == |periods| + (|days| - 1) * |periods|;
    }
  }

  /** The filled cells of a table, by row and column. */
  function FilledCells(g: seq<seq<Option<Session>>>): set<(int, int)>
  {
    set i, j | 0 <= i < |g| && 0 <= j < |g[i]| && g[i][j].Some? :: (i, j)
  }

  /** What a session is looked up by: its day and its period's text. */
  function Key(s: Session): (string, string)
  {
    (s.day, Str(s.period))
  }

  function SessionKeys(sessions: seq<Session>): set<(string, string)>
  {
    set k | 0 <= k < |sessions| :: Key(sessions[k])
  }

  /** There are no more lookup keys than sessions. */
  lemma {:induction false} SessionKeysSize(sessions: seq<Session>)
    ensures |SessionKeys(sessions)| <= |sessions|
  {
    if sessions != [] {
      var rest := sessions[1..];
      SessionKeysSize(rest);
      assert SessionKeys(sessions) == SessionKeys(rest) + {Key(sessions[0])} by {
        forall x | x in SessionKeys(sessions)
          ensures x in SessionKeys(rest) + {Key(sessions[0])}
        {
          var k :| 0 <= k < |sessions| && Key(sessions[k]) == x;
          if k > 0 {
            assert Key(rest[k - 1]) == x;
          }
        }
        forall x | x in SessionKeys(rest)
          ensures x in SessionKeys(sessions)
        {
          var k :| 0 <= k < |rest| && Key(rest[k]) == x;
          assert Key(sessions[k + 1]) == x;
        }
      }
    }
  }

  /** The key a cell is looked up by. */
  function CellKey(days: seq<string>, periods: seq<PeriodLabel>, c: (int, int)): (string, string)
  {
    if 0 <= c.0 < |days| && 0 <= c.1 < |periods| then (days[c.0], Str(periods[c.1])) else ("", "")
  }

  function CellKeys(days: seq<string>, periods: seq<PeriodLabel>, cells: set<(int, int)>): set<(string, string)>
  {
    set c | c in cells :: CellKey(days, periods, c)
  }

  /** Cells with different keys count as many keys as cells. */
  lemma CellKeysSize(days: seq<string>, periods: seq<PeriodLabel>, cells: set<(int, int)>)
    requires forall c, d :: c in cells && d in cells && CellKey(days, periods, c) == CellKey(days, periods, d) ==> c == d
    ensures |CellKeys(days, periods, cells)| == |cells|
  {
    if cells != {} {
      var c :| c in cells;
      var rest := cells - {c};
      CellKeysSize(days, periods, rest);
      assert CellKeys(days, periods, cells) == CellKeys(days, periods, rest) + {CellKey(days, periods, c)};
      assert CellKey(days, periods, c) !in CellKeys(days, periods, rest);
    }
  }

  /** With day labels and period texts all different, no two cells share a key. */
  lemma CellKeysDiffer(days: seq<string>, periods: seq<PeriodLabel>, c: (int, int), d: (int, int))
    requires forall i, i' :: 0 <= i < i' < |days| ==> days[i] != days[i']
    requires forall j, j' :: 0 <= j < j' < |periods| ==> Str(periods[j]) != Str(periods[j'])
    requires 0 <= c.0 < |days| && 0 <= c.1 < |periods| && 0 <= d.0 < |days| && 0 <= d.1 < |periods|
    requires CellKey(days, periods, c) == CellKey(days, periods, d)
    ensures c == d
  {
    assert days[c.0] == days[d.0] && Str(periods[c.1]) == Str(periods[d.1]);
  }

  /** A filled cell's key is the key of a session. */
  lemma FilledKeysAreSessionKeys(days: seq<string>, periods: seq<PeriodLabel>, sessions: seq<Session>)
    ensures CellKeys(days, periods, FilledCells(Grid(days, periods, sessions))) <= SessionKeys(sessions)
  {
    var g := Grid(days, periods, sessions);
    forall x | x in CellKeys(days, periods, FilledCells(g))
      ensures x in SessionKeys(sessions)
    {
      var c :| c in FilledCells(g) && CellKey(days, periods, c) == x;
      var s := Find(sessions, days[c.0], periods[c.1]).value;
      var k :| 0 <= k < |sessions| && sessions[k] == s;
      assert Key(sessions[k]) == x;
    }
  }

  /** With day labels and period texts all different, each session fills at
      most one cell, so no more cells are filled than there are sessions. */
  lemma FilledCellsAtMostSessions(days: seq<string>, periods: seq<PeriodLabel>, sessions: seq<Session>)
    requires forall i, i' :: 0 <= i < i' < |days| ==> days[i] != days[i']
    requires forall j, j' :: 0 <= j < j' < |periods| ==> Str(periods[j]) != Str(periods[j'])
    ensures |FilledCells(Grid(days, periods, sessions))| <= |sessions|
  {
    var cells := FilledCells(Grid(days, periods, sessions));
    forall c, d | c in cells && d in cells && CellKey(days, periods, c) == CellKey(days, periods, d)
      ensures c == d
    {
      CellKeysDiffer(days, periods, c, d);
    }
    CellKeysSize(days, periods, cells);
    var keys, all := CellKeys(days, periods, cells), SessionKeys(sessions);
    FilledKeysAreSessionKeys(days, periods, sessions);
    SessionKeysSize(sessions);
    assert all == keys + (all - keys);
  }

  // The printable table. Markup is given with its tags and text; the
  // indentation of the page's template literals is not reproduced.

  const EmptyCellHtml: string := "<td><span class=\"empty-cell\">-</span></td>"

  /** A labelled line of a filled cell: `<div class="…">text</div>`. */
  function CellDiv(kind: string, text: string): string
  {
    "<div class=\"" + kind + "\">" + text + "</div>"
  }

  /** A cell of the printed table: a filled cell shows the subject, then the
      faculty, then the room, each in its own labelled line; the placeholder
      is printed exactly for the empty cells. */
  function CellHtml(session: Option<Session>): (html: string)
    ensures html == EmptyCellHtml <==> session.None?
    ensures session.Some? ==>
              var s := session.value;
              var subject, faculty, room := CellDiv("subject-name", s.subject), CellDiv("faculty-name", s.faculty),
                                            CellDiv("room-name", s.room);
              exists a, b, c :: OccursAt(subject, html, a) && OccursAt(faculty, html, b) && OccursAt(room, html, c)
                                && a + |subject| <= b && b + |faculty| <= c
  {
    match session
    case None => EmptyCellHtml
    case Some(s) =>
      var subject, faculty, room := CellDiv("subject-name", s.subject), CellDiv("faculty-name", s.faculty),
                                    CellDiv("room-name", s.room);
      var html := "<td>" + subject + faculty + room + "</td>";
      assert html[5] == 'd' && EmptyCellHtml[5] == 's';
      OccursBetween("<td>", subject, faculty + room + "</td>");
      OccursBetween("<td>" + subject, faculty, room + "</td>");
      OccursBetween("<td>" + subject + faculty, room, "</td>");
      assert OccursAt(subject, html, 4);
      assert OccursAt(faculty, html, 4 + |subject|);
      assert OccursAt(room, html, 4 + |subject| + |faculty|);
      html
  }

  /** `periods.map(period => <th>Period …</th>)` */
  function HeaderCells(periods: seq<PeriodLabel>): (cells: seq<string>)
    ensures |cells| == |periods|
    ensures forall j :: 0 <= j < |periods| ==> cells[j] == "<th>Period " + Str(periods[j]) + "</th>"
  {
    seq(|periods|, j requires 0 <= j < |periods| => "<th>Period " + Str(periods[j]) + "</th>")
  }

  /** The cells of one day's row, one per period. */
  function RowCells(day: string, periods: seq<PeriodLabel>, sessions: seq<Session>): (cells: seq<string>)
    ensures |cells| == |periods|
    ensures forall j :: 0 <= j < |periods| ==> cells[j] == CellHtml(Find(sessions, day, periods[j]))
  {
    seq(|periods|, j requires 0 <= j < |periods| => CellHtml(Find(sessions, day, periods[j])))
  }

  function RowHtml(day: string, periods: seq<PeriodLabel>, sessions: seq<Session>): string
  {
    "<tr><td class=\"day-header\">" + day + "</td>" + Concat(RowCells(day, periods, sessions)) + "</tr>"
  }

  /** One row per day, in order. */
  function BodyRows(days: seq<string>, periods: seq<PeriodLabel>, sessions: seq<Session>): (rows: seq<string>)
    ensures |rows| == |days|
    ensures forall i :: 0 <= i < |days| ==> rows[i] == RowHtml(days[i], periods, sessions)
  {
    seq(|days|, i requires 0 <= i < |days| => RowHtml(days[i], periods, sessions))
  }

  const TableOpen: string := "<table class=\"timetable-table\"><thead><tr><th>Day / Period</th>"

  function TableHtml(days: seq<string>, periods: seq<PeriodLabel>, sessions: seq<Session>): string
  {
    TableOpen + Concat(HeaderCells(periods)) + "</tr></thead><tbody>"
    + Concat(BodyRows(days, periods, sessions)) + "</tbody></table>"
  }

  /** The printed cell in row `i`, column `j` shows the grid's cell there. */
  lemma PrintedCellShowsGrid(days: seq<string>, periods: seq<PeriodLabel>, sessions: seq<Session>, i: nat, j: nat)
    requires i < |days| && j < |periods|
    ensures RowCells(days[i], periods, sessions)[j] == CellHtml(Grid(days, periods, sessions)[i][j])
  {
  }

  /** Day `i`'s row stands in the printed table after the header row and the
      rows of the days before it. */
  lemma RowInTable(days: seq<string>, periods: seq<PeriodLabel>, sessions: seq<Session>, i: nat)
    requires i < |days|
    ensures var rows := BodyRows(days, periods, sessions);
            TableHtml(days, periods, sessions) ==
              TableOpen + Concat(HeaderCells(periods)) + "</tr></thead><tbody>"
              + (Concat(rows[..i]) + RowHtml(days[i], periods, sessions) + Concat(rows[i + 1..]))
              + "</tbody></table>"
  {
    ConcatSplit(BodyRows(days, periods, sessions), i);
  }

  /** Period `j`'s heading stands in the header row after those of the periods before it. */
  lemma HeadingInTable(days: seq<string>, periods: seq<PeriodLabel>, sessions: seq<Session>, j: nat)
    requires j < |periods|
    ensures var heads := HeaderCells(periods);
            TableHtml(days, periods, sessions) ==
              TableOpen + (Concat(heads[..j]) + ("<th>Period " + Str(periods[j]) + "</th>") + Concat(heads[j + 1..]))
              + "</tr></thead><tbody>" + Concat(BodyRows(days, periods, sessions)) + "</tbody></table>"
  {
    ConcatSplit(HeaderCells(periods), j);
  }

  /** Every printed cell stands in the table: the cell of day `i` and period `j`. */
  lemma CellInTable(days: seq<string>, periods: seq<PeriodLabel>, sessions: seq<Session>, i: nat, j: nat)
    requires i < |days| && j < |periods|
    ensures Occurs(CellHtml(Grid(days, periods, sessions)[i][j]), TableHtml(days, periods, sessions))
  {
    var cells := RowCells(days[i], periods, sessions);
    PartOccurs(cells, j);
    OccursBetween("<tr><td class=\"day-header\">" + days[i] + "</td>", Concat(cells), "</tr>");
    var rows := BodyRows(days, periods, sessions);
    OccursTransitive(cells[j], Concat(cells), rows[i]);
    PartOccurs(rows, i);
    OccursTransitive(cells[j], rows[i], Concat(rows));
    OccursBetween(TableOpen + Concat(HeaderCells(periods)) + "</tr></thead><tbody>", Concat(rows), "</tbody></table>");
    OccursTransitive(cells[j], Concat(rows), TableHtml(days, periods, sessions));
  }

  /** The closing part of the printed page: the footer line. */
  const DocumentEnd: string := "<div class=\"footer\"><p>Generated by Timetable Generator System</p></div></body></html>"
  const HeadOpen: string := "<!DOCTYPE html><html><head>"
  const HeadClose: string := "</head><body>"
  const HeaderOpen: string := "<div class=\"header\">"
  const HeaderClose: string := "</div>"

  function TitleTag(title: string): string
  {
    "<title>" + title + "</title>"
  }

  /** The opening part of the printed page; `style` is the style sheet, kept as given. */
  function DocumentHead(title: string, style: string): string
  {
    HeadOpen + TitleTag(title) + style + HeadClose
  }

  function Document(title: string, style: string, header: string, table: string): string
  {
    DocumentHead(title, style) + header + table + DocumentEnd
  }

  function SectionLine(section: string, generatedOn: string): string
  {
    "<div class=\"section-info\">Section: " + section + " | Generated on: " + generatedOn + "</div>"
  }

  function InstitutionLine(institution: string): string
  {
    "<div class=\"institution-name\">" + institution + "</div>"
  }

  function CourseLine(course: string): string
  {
    "<div class=\"course-info\">" + course + "</div>"
  }

  /** The header block: institution, course line, section line. */
  function HeaderBlock(institution: string, course: string, section: string, generatedOn: string): string
  {
    HeaderOpen + InstitutionLine(institution) + CourseLine(course) + SectionLine(section, generatedOn) + HeaderClose
  }

  /** The pieces of a printed page, in the order they are printed. */
  function PageParts(title: string, style: string, institution: string, course: string, section: string,
                     generatedOn: string, table: string): (parts: seq<string>)
    ensures |parts| == 11
  {
    [HeadOpen, TitleTag(title), style, HeadClose,
     HeaderOpen, InstitutionLine(institution), CourseLine(course), SectionLine(section, generatedOn), HeaderClose,
     table, DocumentEnd]
  }

  /** The printed page is its pieces joined in order: the head with the
      title and the style sheet, then the institution, course and section
      lines, then the table, then the footer. */
  lemma DocumentLayout(title: string, style: string, institution: string, course: string, section: string,
                       generatedOn: string, table: string)
    ensures Document(title, style, HeaderBlock(institution, course, section, generatedOn), table)
         == Concat(PageParts(title, style, institution, course, section, generatedOn, table))
  {
    var p := PageParts(title, style, institution, course, section, generatedOn, table);
    ConcatOfParts(p);
    Regroup(p[0], p[1], p[2], p[3], p[4], p[5], p[6], p[7], p[8], p[9], p[10]);
  }

  /** The grouping of a page's pieces into head, header block, table and footer. */
  lemma Regroup(a0: string, a1: string, a2: string, a3: string, a4: string, a5: string, a6: string,
                a7: string, a8: string, a9: string, a10: string)
    ensures (a0 + a1 + a2 + a3) + (a4 + a5 + a6 + a7 + a8) + a9 + a10
         == a0 + (a1 + (a2 + (a3 + (a4 + (a5 + (a6 + (a7 + (a8 + (a9 + a10)))))))))
  {
  }

  /** An eleven-piece join, written out. */
  lemma ConcatOfParts(p: seq<string>)
    requires |p| == 11
    ensures Concat(p) == p[0] + (p[1] + (p[2] + (p[3] + (p[4] + (p[5] + (p[6] + (p[7]
                         + (p[8] + (p[9] + p[10])))))))))
  {
    forall k | 0 <= k < 11
      ensures Concat(p[k..]) == p[k] + Concat(p[k + 1..])
    {
      assert p[k..][1..] == p[k + 1..];
    }
    assert Concat(p[11..]) == "";
    assert p[10] + "" == p[10];
    assert p[0..] == p;
  }

  /** The page carries its title, the header block's three lines and the table. */
  lemma DocumentParts(title: string, style: string, institution: string, course: string, section: string,
                      generatedOn: string, table: string)
    ensures var doc := Document(title, style, HeaderBlock(institution, course, section, generatedOn), table);
            Occurs(TitleTag(title), doc)
            && Occurs(InstitutionLine(institution), doc)
            && Occurs(CourseLine(course), doc)
            && Occurs(SectionLine(section, generatedOn), doc)
            && Occurs(table, doc)
  {
    var p := PageParts(title, style, institution, course, section, generatedOn, table);
    DocumentLayout(title, style, institution, course, section, generatedOn, table);
    PartOccurs(p, 1);
    PartOccurs(p, 5);
    PartOccurs(p, 6);
    PartOccurs(p, 7);
    PartOccurs(p, 9);
  }
}
