// The list of generated timetables: the list the page keeps from the server
// reply, the summary card's figures and caption, and the printable document
// it builds for one section's download.

module TimetableList {
  import opened Js
  import opened TimetableGrid

  /** One generated timetable as the list reply describes it. */
  datatype TimetableInfo = TimetableInfo(id: int, name: string, semester: int, course: string, sessionsCount: int)

  /** `response.data.timetables || []`; a present list, even an empty one, is kept. */
  function TimetablesOf(reply: Option<seq<TimetableInfo>>): (ts: seq<TimetableInfo>)
    ensures reply.None? ==> ts == []
    ensures reply.Some? ==> ts == reply.value
  {
    if reply.Some? then reply.value else []
  }

  /** The sum of the sessions counts: the reference the fold is proved against. */
  function SessionsSum(ts: seq<TimetableInfo>): int
  {
    if ts == [] then 0 else ts[0].sessionsCount + SessionsSum(ts[1..])
  }

  /** `reduce((total, t) => total + t.sessions_count, total)`, folding from the left. */
  function Reduce(total: int, ts: seq<TimetableInfo>): int
    decreases ts
  {
    if ts == [] then total else Reduce(total + ts[0].sessionsCount, ts[1..])
  }

  lemma {:induction false} ReduceIsSum(total: int, ts: seq<TimetableInfo>)
    ensures Reduce(total, ts) == total + SessionsSum(ts)
    decreases ts
  {
    if ts != [] {
      ReduceIsSum(total + ts[0].sessionsCount, ts[1..]);
    }
  }

  /** The "Total Sessions" figure: the sum of all sessions counts, 0 for no timetables. */
  function TotalSessions(ts: seq<TimetableInfo>): (n: int)
    ensures n == SessionsSum(ts)
    ensures ts == [] ==> n == 0
  {
    ReduceIsSum(0, ts);
    Reduce(0, ts)
  }

  /** With no negative counts, the total bounds each timetable's count. */
  lemma {:induction false} TotalBoundsEachCount(ts: seq<TimetableInfo>, k: nat)
    requires k < |ts|
    requires forall m :: 0 <= m < |ts| ==> ts[m].sessionsCount >= 0
    ensures SessionsSum(ts) >= ts[k].sessionsCount
  {
    NonNegativeSum(ts[1..]);
    if k > 0 {
      TotalBoundsEachCount(ts[1..], k - 1);
    }
  }

  lemma {:induction false} NonNegativeSum(ts: seq<TimetableInfo>)
    requires forall m :: 0 <= m < |ts| ==> ts[m].sessionsCount >= 0
    ensures SessionsSum(ts) >= 0
  {
    if ts != [] {
      NonNegativeSum(ts[1..]);
    }
  }

  /** `new Set(timetables.map(t => t.semester))` */
  function SemesterSet(ts: seq<TimetableInfo>): set<int>
  {
    set k | 0 <= k < |ts| :: ts[k].semester
  }

  lemma {:induction false} SemesterSetSize(ts: seq<TimetableInfo>)
    ensures |SemesterSet(ts)| <= |ts|
  {
    if ts != [] {
      SemesterSetSize(ts[1..]);
      assert SemesterSet(ts) == SemesterSet(ts[1..]) + {ts[0].semester} by {
        forall x | x in SemesterSet(ts)
          ensures x in SemesterSet(ts[1..]) + {ts[0].semester}
        {
          var k :| 0 <= k < |ts| && ts[k].semester == x;
          if k > 0 {
            assert ts[1..][k - 1].semester == x;
          }
        }
        forall x | x in SemesterSet(ts[1..])
          ensures x in SemesterSet(ts)
        {
          var k :| 0 <= k < |ts[1..]| && ts[1..][k].semester == x;
          assert ts[k + 1].semester == x;
        }
      }
    }
  }

  /** The "Semesters" figure: the number of distinct semesters, at least one
      when there is a timetable and never more than the timetables. */
  function DistinctSemesters(ts: seq<TimetableInfo>): (n: nat)
    ensures n <= |ts|
    ensures ts != [] ==> n >= 1
    ensures ts == [] ==> n == 0
  {
    SemesterSetSize(ts);
    assert ts != [] ==> ts[0].semester in SemesterSet(ts);
    |SemesterSet(ts)|
  }

  /** Timetables all of one semester count as one semester. */
  lemma OneSemester(ts: seq<TimetableInfo>, s: int)
    requires ts != [] && forall k :: 0 <= k < |ts| ==> ts[k].semester == s
    ensures DistinctSemesters(ts) == 1
  {
    assert SemesterSet(ts) == {s} by {
      assert ts[0].semester in SemesterSet(ts);
    }
  }

  /** Appending a timetable adds its semester to the set. */
  lemma SemesterSetAppend(ts: seq<TimetableInfo>, t: TimetableInfo)
    ensures SemesterSet(ts + [t]) == SemesterSet(ts) + {t.semester}
  {
    var u := ts + [t];
    forall x | x in SemesterSet(u)
      ensures x in SemesterSet(ts) + {t.semester}
    {
      var k :| 0 <= k < |u| && u[k].semester == x;
      if k < |ts| {
        assert ts[k].semester == x;
      }
    }
    forall x | x in SemesterSet(ts) + {t.semester}
      ensures x in SemesterSet(u)
    {
      if x == t.semester {
        assert u[|ts|].semester == x;
      } else {
        var k :| 0 <= k < |ts| && ts[k].semester == x;
        assert u[k].semester == x;
      }
    }
  }

  /** Appending a timetable raises the figure by one exactly when its semester
      is new to the list; with the empty list at 0, this fixes the figure for
      every list. */
  lemma DistinctSemestersAppend(ts: seq<TimetableInfo>, t: TimetableInfo)
    ensures DistinctSemesters(ts + [t]) ==
              DistinctSemesters(ts) + (if exists k :: 0 <= k < |ts| && ts[k].semester == t.semester then 0 else 1)
  {
    SemesterSetAppend(ts, t);
    if exists k :: 0 <= k < |ts| && ts[k].semester == t.semester {
      assert t.semester in SemesterSet(ts);
      assert SemesterSet(ts + [t]) == SemesterSet(ts);
    } else {
      assert t.semester !in SemesterSet(ts);
    }
  }

  /** Timetables of pairwise different semesters count one semester each. */
  lemma {:induction false} AllSemestersDifferent(ts: seq<TimetableInfo>)
    requires forall i, j :: 0 <= i < j < |ts| ==> ts[i].semester != ts[j].semester
    ensures DistinctSemesters(ts) == |ts|
  {
    if ts != [] {
      var init, last := ts[..|ts| - 1], ts[|ts| - 1];
      assert ts == init + [last];
      AllSemestersDifferent(init);
      DistinctSemestersAppend(init, last);
    }
  }

  /** "Total n timetable(s) available" */
  function Caption(n: nat): string
  {
    "Total " + NatToString(n) + " timetable" + (if n != 1 then "s" else "") + " available"
  }

  /** The caption says "timetables" exactly when the count is not 1. */
  lemma CaptionPlural(n: nat)
    ensures var c := Caption(n);
            |c| >= 11 && (c[|c| - 11] == 's' <==> n != 1)
  {
    var head := "Total " + NatToString(n) + " timetable";
    var tail := (if n != 1 then "s" else "") + " available";
    assert Caption(n) == head + tail;
    if n == 1 {
      assert Caption(n)[|Caption(n)| - 11] == head[|head| - 1] == 'e';
    } else {
      assert Caption(n)[|Caption(n)| - 11] == tail[0] == 's';
    }
  }

  /** The summary card's figures. */
  datatype Summary = Summary(caption: string, sections: nat, totalSessions: int, semesters: nat)

  /** The card is shown only when there is at least one timetable. */
  function SummaryCard(ts: seq<TimetableInfo>): (r: Option<Summary>)
    ensures r.None? <==> ts == []
    ensures r.Some? ==> r.value.sections == |ts| && r.value.totalSessions == SessionsSum(ts)
    ensures r.Some? ==> r.value.semesters == DistinctSemesters(ts) && 1 <= r.value.semesters <= r.value.sections
  {
    if ts == [] then None
    else Some(Summary(Caption(|ts|), |ts|, TotalSessions(ts), DistinctSemesters(ts)))
  }

  const FixedCourseLine: string := "Course Timetable - Academic Year 2024-25"

  /** This page's `generatePrintHTML(timetableData, sectionName)`; the
      institution comes from the signed-in user, `generatedOn` is the date
      text and `style` the style sheet. The page is printed in order: the
      head titled after `sectionName`, the institution line, the fixed
      course line, the section line with the date, the table, the footer. */
  function PrintHtml(data: Option<TimetableData>, sectionName: string, userInstitution: Option<string>,
                     generatedOn: string, style: string): (doc: string)
    ensures doc == Concat(PageParts("Timetable - Section " + sectionName, style,
                                    OrElse(userInstitution, "Institution Name"), FixedCourseLine, sectionName,
                                    generatedOn, TableHtml(DaysOf(data), PeriodsOf(data), SessionsOf(data))))
  {
    DocumentLayout("Timetable - Section " + sectionName, style, OrElse(userInstitution, "Institution Name"),
                   FixedCourseLine, sectionName, generatedOn, TableHtml(DaysOf(data), PeriodsOf(data), SessionsOf(data)));
    Document("Timetable - Section " + sectionName, style,
             HeaderBlock(OrElse(userInstitution, "Institution Name"), FixedCourseLine, sectionName, generatedOn),
             TableHtml(DaysOf(data), PeriodsOf(data), SessionsOf(data)))
  }

  /** The title and the section line carry `sectionName` as given; the course
      line is fixed whatever the data says. */
  lemma PrintNamesSection(data: Option<TimetableData>, sectionName: string, userInstitution: Option<string>,
                          generatedOn: string, style: string)
    ensures var doc := PrintHtml(data, sectionName, userInstitution, generatedOn, style);
            Occurs(TitleTag("Timetable - Section " + sectionName), doc)
            && Occurs(SectionLine(sectionName, generatedOn), doc)
            && Occurs(CourseLine(FixedCourseLine), doc)
            && Occurs(InstitutionLine(OrElse(userInstitution, "Institution Name")), doc)
  {
    DocumentParts("Timetable - Section " + sectionName, style, OrElse(userInstitution, "Institution Name"),
                  FixedCourseLine, sectionName, generatedOn, TableHtml(DaysOf(data), PeriodsOf(data), SessionsOf(data)));
  }

  /** Every cell of the reply's grid is printed. */
  lemma PrintsEveryCell(data: Option<TimetableData>, sectionName: string, userInstitution: Option<string>,
                        generatedOn: string, style: string, i: nat, j: nat)
    requires i < |DaysOf(data)| && j < |PeriodsOf(data)|
    ensures Occurs(CellHtml(Grid(DaysOf(data), PeriodsOf(data), SessionsOf(data))[i][j]),
                   PrintHtml(data, sectionName, userInstitution, generatedOn, style))
  {
    var table := TableHtml(DaysOf(data), PeriodsOf(data), SessionsOf(data));
    CellInTable(DaysOf(data), PeriodsOf(data), SessionsOf(data), i, j);
    DocumentParts("Timetable - Section " + sectionName, style, OrElse(userInstitution, "Institution Name"),
                  FixedCourseLine, sectionName, generatedOn, table);
    OccursTransitive(CellHtml(Grid(DaysOf(data), PeriodsOf(data), SessionsOf(data))[i][j]), table,
                     PrintHtml(data, sectionName, userInstitution, generatedOn, style));
  }
}
